/** The fixed vocabularies both device workers draw synthetic events from,
    the payload shapes they build and the licence-plate format. The Laravel
    and Express workers declare the same constants each. */
module EventCatalog {
  import opened Records

  /** USERS */
  const Users: seq<string> := ["alice", "bob", "charlie", "system"]

  /** The letters a plate is made of. */
  const Letters: string := "ABCDEFGHIJKLMNOPQRSTUVWXYZ"

  /** The `method` values of an access-controller payload. */
  const AccessMethods: seq<string> := ["card", "pin", "mobile"]

  /** The `lane` values of an ANPR payload. */
  const Lanes: seq<string> := ["INBOUND", "OUTBOUND"]

  /** The fallback event type of a device type that EVENTS does not list. */
  const GenericEvent: string := "event"

  /** The door every access-controller event reports. */
  const DoorId: string := "A1"

  /** The note of the payload for an unknown device type. */
  const GenericNote: string := "generic_event"

  /** `EVENTS[type] ?? ['event']` (PHP) and `EVENTS[type] || ['event']` (JS). */
  function EventsFor(deviceType: string): (r: seq<string>)
    ensures |r| >= 1
    ensures deviceType !in {AccessController, FaceReader, Anpr} <==> r == [GenericEvent]
  {
    if deviceType == AccessController then ["access_granted", "access_denied"]
    else if deviceType == FaceReader then ["face_match", "face_no_match"]
    else if deviceType == Anpr then ["plate_read", "plate_mismatch"]
    else [GenericEvent]
  }

  /** An event payload without its floating-point fields (match_score, confidence). */
  datatype Payload =
    | AccessPayload(doorId: string, accessMethod: string, ok: bool)
    | FacePayload(faceId: string)
    | AnprPayload(plate: string, lane: string)
    | GenericPayload(note: string)

  predicate IsDigit(c: char) {
    '0' <= c <= '9'
  }

  /** PHP's and JS's rendering of a non-negative integer in base ten. */
  function DecimalString(n: nat): (r: string)
    ensures |r| >= 1
    ensures forall i :: 0 <= i < |r| ==> IsDigit(r[i])
    ensures |r| > 1 ==> r[0] != '0'
  {
    if n < 10 then ['0' + n as char]
    else DecimalString(n / 10) + ['0' + (n % 10) as char]
  }

  /** The value a string of decimal digits denotes. */
  function DecimalValue(s: string): nat
    requires forall i :: 0 <= i < |s| ==> IsDigit(s[i])
  {
    if s == [] then 0
    else
      assert IsDigit(s[|s| - 1]);
      10 * DecimalValue(s[..|s| - 1]) + (s[|s| - 1] as int - '0' as int)
  }

  /** Rendering loses nothing: the digits read back as the number. */
  lemma {:induction false} DecimalRoundTrip(n: nat)
    ensures DecimalValue(DecimalString(n)) == n
  {
    var s := DecimalString(n);
    if n >= 10 {
      DecimalRoundTrip(n / 10);
      assert s[..|s| - 1] == DecimalString(n / 10);
    }
  }

  /** The numbers 1000..9999 render in exactly four digits. */
  lemma FourDigits(n: nat)
    requires 1000 <= n <= 9999
    ensures |DecimalString(n)| == 4
  {
    assert |DecimalString(n / 1000)| == 1;
    assert |DecimalString(n / 100)| == 2 by { assert n / 100 / 10 == n / 1000; }
    assert |DecimalString(n / 10)| == 3 by { assert n / 10 / 10 == n / 100; }
  }

  function Pow10(k: nat): nat {
    if k == 0 then 1 else 10 * Pow10(k - 1)
  }

  /** A number below 10^k renders in at most k digits. */
  lemma {:induction false} AtMostDigits(n: nat, k: nat)
    requires 1 <= k && n < Pow10(k)
    ensures |DecimalString(n)| <= k
  {
    if n >= 10 {
      AtMostDigits(n / 10, k - 1);
    }
  }

  /** Every letter of the plate alphabet is a capital. */
  lemma LettersAreCapitals(k: nat)
    requires k < |Letters|
    ensures 'A' <= Letters[k] <= 'Z'
  {
  }

  /** A plate: three capital letters followed by four digits. */
  predicate IsPlate(s: string) {
    && |s| == 7
    && (forall i :: 0 <= i < 3 ==> 'A' <= s[i] <= 'Z')
    && (forall i :: 3 <= i < 7 ==> IsDigit(s[i]))
  }

  /** The plate made of the letters at positions `letters` of A..Z and the
      number `number`, as `randomPlate` assembles it in both workers. */
  function Plate(letters: seq<nat>, number: nat): (r: string)
    requires |letters| == 3 && forall i :: 0 <= i < 3 ==> letters[i] < |Letters|
    requires 1000 <= number <= 9999
    ensures IsPlate(r)
    ensures DecimalValue(r[3..]) == number
    ensures forall i :: 0 <= i < 3 ==> r[i] == Letters[letters[i]]
  {
    FourDigits(number);
    DecimalRoundTrip(number);
    LettersAreCapitals(letters[0]);
    LettersAreCapitals(letters[1]);
    LettersAreCapitals(letters[2]);
    var digits := DecimalString(number);
    var r := [Letters[letters[0]], Letters[letters[1]], Letters[letters[2]]] + digits;
    assert r[3..] == digits;
    r
  }

  /** `'F-'.$n` (PHP) and `` `F-${n}` `` (JS). */
  function FaceId(n: nat): (r: string)
    requires n <= 9999
    ensures 3 <= |r| <= 6 && r[..2] == "F-"
    ensures forall i :: 2 <= i < |r| ==> IsDigit(r[i])
    ensures DecimalValue(r[2..]) == n
  {
    AtMostDigits(n, 4);
    DecimalRoundTrip(n);
    var r := "F-" + DecimalString(n);
    assert r[2..] == DecimalString(n);
    r
  }
}
