/** The Laravel variant's DeviceController: parses and checks the listing's
    page parameters and the required fields of a new device, answers with
    the service's result, and maps every thrown error to a JSON error
    response. */
module LaravelDeviceController {
  import opened Wrappers
  import opened Records
  import opened Liveness
  import opened Tables
  import opened Ordering
  import opened DeviceListing
  import L = LaravelLifecycle
  import LPM = LaravelProcessManager
  import S = LaravelDeviceService

  /** A query parameter as the controller sees it: not sent, sent empty
      (which the framework turns into null), or sent with the number PHP's
      `(int)` cast makes of it. */
  datatype Param = Absent | Null | Given(value: int)

  /** What index hands the service: no pagination, or a checked page and
      a capped page size. */
  datatype Paging = Unpaged | Paged(page: int, pageSize: int)

  /** A JSON body: `{error}`, the device list, a created device, or the
      service's answer merged with `ok: true`. */
  datatype Body =
    | ErrorBody(error: string)
    | DevicesBody(devices: seq<Listing>)
    | DeviceBody(id: DeviceId, device: Device)
    | StartBody(ok: bool, start: StartResult)
    | StopBody(ok: bool, stop: StopResult)

  datatype Response = Response(status: int, body: Body)

  const DefaultPage: int := 1
  const DefaultPageSize: int := 5
  const MaxPageSize: int := 100
  const PagingError: string := "page and pageSize must be positive integers"
  const RequiredError: string := "name, device_type, ip_address are required"
  const InternalServerError: string := "Internal Server Error"

  /** `$raw !== null ? (int) $raw : $default`. */
  function ValueOr(p: Param, default: int): int {
    if p.Given? then p.value else default
  }

  /** index's parameter handling: pagination is asked for when either
      parameter is sent; then both (defaulting to 1 and 5) must be positive,
      else 400, and the size is capped at 100. */
  function ParseIndexQuery(page: Param, pageSize: Param): (r: Result<Paging, Error>)
    ensures r.Success? && r.value.Unpaged? <==> page.Absent? && pageSize.Absent?
    ensures r.Failure? <==> (!page.Absent? || !pageSize.Absent?) && (ValueOr(page, DefaultPage) < 1 || ValueOr(pageSize, DefaultPageSize) < 1)
    ensures r.Failure? ==> r.error == HttpError(400, PagingError)
    ensures r.Success? && r.value.Paged? ==> r.value.page == ValueOr(page, DefaultPage) && r.value.page >= 1
    ensures r.Success? && r.value.Paged? ==> 1 <= r.value.pageSize <= MaxPageSize
    ensures r.Success? && r.value.Paged? && ValueOr(pageSize, DefaultPageSize) <= MaxPageSize ==> r.value.pageSize == ValueOr(pageSize, DefaultPageSize)
  {
    var usePagination := !page.Absent? || !pageSize.Absent?;
    var p := ValueOr(page, DefaultPage);
    var size := ValueOr(pageSize, DefaultPageSize);
    if !usePagination then Success(Unpaged)
    else if p < 1 || size < 1 then Failure(HttpError(400, PagingError))
    else Success(Paged(p, if size < MaxPageSize then size else MaxPageSize))
  }

  /** errorResponse: an HttpException's status, 500 for anything else; the
      message, or 'Internal Server Error' when it is falsy. */
  function ErrorResponse(e: Error): (r: Response)
    ensures r.status == if e.HttpError? then e.status else 500
    ensures r.body.ErrorBody? && PhpTruthy(r.body.error)
    ensures PhpTruthy(e.message) ==> r.body.error == e.message
    ensures !PhpTruthy(e.message) ==> r.body.error == InternalServerError
  {
    var status := match e
      case HttpError(s, _) => s
      case PlainError(_) => 500;
    Response(status, ErrorBody(if PhpTruthy(e.message) then e.message else InternalServerError))
  }

  /** index: a 400 for bad page parameters, otherwise the whole listing;
      `listDevices` takes no parameters, so a page never shortens it. */
  method Index(pm: LPM.ProcessManager, page: Param, pageSize: Param, now: int) returns (resp: Response)
    ensures resp.status == 200 <==> ParseIndexQuery(page, pageSize).Success?
    ensures resp.status != 200 ==> resp == Response(400, ErrorBody(PagingError))
    ensures resp.status == 200 ==> resp.body.DevicesBody? && |resp.body.devices| == |pm.devices|
    ensures resp.status == 200 ==> forall id :: id in pm.devices ==> exists i :: 0 <= i < |resp.body.devices| && resp.body.devices[i].id == id
    ensures resp.status == 200 ==> forall l :: l in resp.body.devices ==>
      l.id in pm.devices && l.device == pm.devices[l.id] && (l.liveActive <==> HasLive(pm.processes, l.id, now))
    ensures resp.status == 200 ==> SortedDesc(resp.body.devices, ListingCreatedAt)
  {
    var paging := ParseIndexQuery(page, pageSize);
    if paging.Failure? {
      return ErrorResponse(paging.error);
    }
    var devices := S.ListDevices(pm, now);
    return Response(200, DevicesBody(devices));
  }

  /** store: 400 unless name, device_type and ip_address are all non-empty,
      then createDevice, whose 400 for an unknown type comes back as the
      response; a created device is answered with 201. Inputs arrive cast
      to strings, a missing one as "". */
  method Store(pm: LPM.ProcessManager, id: DeviceId, name: string, deviceType: string, ipAddress: string,
               metadata: Option<string>, now: int) returns (resp: Response)
    requires pm.Valid() && id !in pm.devices
    modifies pm
    ensures pm.Valid()
    ensures resp.status == 201 <==> name != "" && deviceType != "" && ipAddress != "" && deviceType in S.AllowedTypes
    ensures name == "" || deviceType == "" || ipAddress == "" ==> resp == Response(400, ErrorBody(RequiredError))
    ensures name != "" && deviceType != "" && ipAddress != "" && deviceType !in S.AllowedTypes ==>
      resp == Response(400, ErrorBody(S.InvalidDeviceType))
    ensures resp.status != 201 ==> pm.Snapshot() == old(pm.Snapshot())
    ensures resp.status == 201 ==>
      && resp.body == DeviceBody(id, Device(name, deviceType, ipAddress, Inactive, metadata, now))
      && pm.Snapshot() == Tables.AddDevice(old(pm.Snapshot()), id, resp.body.device)
  {
    if name == "" || deviceType == "" || ipAddress == "" {
      return ErrorResponse(HttpError(400, RequiredError));
    }
    var created := S.CreateDevice(pm, id, S.DeviceData(name, Some(deviceType), ipAddress, metadata), now);
    if created.Failure? {
      return ErrorResponse(created.error);
    }
    return Response(201, DeviceBody(id, created.value));
  }

  /** activate: 200 with startProcess's answer and `ok: true`, or the error
      response, a 404 for an unknown device. */
  method Activate(pm: LPM.ProcessManager, id: DeviceId, now: int, launch: L.Launch) returns (resp: Response)
    requires pm.Valid()
    modifies pm
    ensures pm.Valid()
    ensures pm.Snapshot() == L.StartProcess(old(pm.Snapshot()), id, now, launch).db
    ensures resp == match L.StartProcess(old(pm.Snapshot()), id, now, launch).out
      case Success(r) => Response(200, StartBody(true, r))
      case Failure(e) => ErrorResponse(e)
    ensures id !in old(pm.devices) ==> resp == Response(404, ErrorBody(DeviceNotFound))
  {
    var result := S.ActivateDevice(pm, id, now, launch);
    match result
    case Success(r) => return Response(200, StartBody(true, r));
    case Failure(e) => return ErrorResponse(e);
  }

  /** deactivate: 200 with stopProcess's answer and `ok: true`. */
  method Deactivate(pm: LPM.ProcessManager, id: DeviceId, now: int) returns (resp: Response)
    requires pm.Valid()
    modifies pm
    ensures pm.Valid()
    ensures pm.Snapshot() == L.StopProcess(old(pm.Snapshot()), id, now).db
    ensures resp == Response(200, StopBody(true, L.StopProcess(old(pm.Snapshot()), id, now).out))
  {
    var result := S.DeactivateDevice(pm, id, now);
    return Response(200, StopBody(true, result));
  }
}
