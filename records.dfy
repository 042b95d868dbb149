/** The rows of the four tables the lifecycle manager works on (devices,
    device_processes, device_status_history) and the values its operations
    return. Both server variants share these shapes. */
module Records {
  import opened Wrappers

  type DeviceId = string
  type ProcessId = nat

  /** PHP truthiness of a string (`empty` is its negation): "" and "0" are
      false. */
  predicate PhpTruthy(s: string) {
    s != "" && s != "0"
  }

  /** JavaScript truthiness of a string: only "" is false. */
  predicate JsTruthy(s: string) {
    s != ""
  }

  /** The `status` enumeration of the devices table. */
  datatype Status = Inactive | Active

  /** The `device_type` enumeration. */
  const AccessController: string := "access_controller"
  const FaceReader: string := "face_reader"
  const Anpr: string := "anpr"

  /** A devices row; its id is the key under which the catalog holds it. */
  datatype Device = Device(
    name: string,
    deviceType: string,
    ipAddress: string,
    status: Status,
    metadata: Option<string>,
    createdAt: int)

  /** A device_processes row: one per worker invocation. */
  datatype ProcessRow = ProcessRow(
    id: ProcessId,
    deviceId: DeviceId,
    pid: string,
    startedAt: int,
    lastHeartbeatAt: int,
    stoppedAt: Option<int>)

  /** A device_status_history row. */
  datatype HistoryRow = HistoryRow(
    deviceId: DeviceId,
    oldStatus: Status,
    newStatus: Status,
    reason: string,
    changedAt: int)

  /** Reason codes written into device_status_history. */
  const UserClickedActivate: string := "user_clicked_activate"
  const UserClickedDeactivate: string := "user_clicked_deactivate"
  const UserClickedDeactivateNoWorker: string := "user_clicked_deactivate_no_worker"
  const WorkerExit: string := "worker_exit"
  const WorkerLaunchFailed: string := "worker_launch_failed"

  /** The `reason` of a deactivation that found no worker. */
  const NotRunning: string := "not_running"

  /** What activation returns: the device snapshot, the process row (absent in
      the Express variant's already-running answer) and the idempotence flag. */
  datatype StartResult = StartResult(device: Device, process: Option<ProcessRow>, alreadyRunning: bool)

  /** What deactivation returns: `{stopped: true}` or `{stopped: false, reason}`. */
  datatype StopResult = StopResult(stopped: bool, reason: Option<string>)

  /** A thrown error: Symfony's HttpException carries a status code, anything
      else (JS `Error`, a PHP Throwable) only a message. */
  datatype Error = HttpError(status: int, message: string) | PlainError(message: string)

  /** The 404 both variants raise for an unknown device. */
  const DeviceNotFound: string := "Device not found"
}
