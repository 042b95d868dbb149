# Device lifecycle state machine of the MDMS device servers

The repository serves one device-management API twice: a Laravel server and
an Express server. Each server keeps three tables:

- `devices`, whose `status` is `inactive` or `active`;
- `device_processes`, with one row per worker started for a device;
- `device_status_history`, an audit log of status flips.

A user activates a device. The server then opens a process row and starts a
worker. The worker invents access, face or number-plate events every one to
four seconds and stores them as transactions. Deactivation and worker exit
close rows and set the device inactive again.

The two servers decide "running" differently:

- **Laravel** calls a device running when one of its rows is open and has a
  heartbeat less than 10 seconds old. The worker is a separate artisan
  command. Before each event it re-reads its row and stops once the row is
  closed.
- **Express** calls a device running when its worker thread is in the
  in-memory `workersByDevice` map. The worker stops when it gets a `stop`
  message. The parent process stores the events and bumps the heartbeats.

## How the model is built

The tables are one value, `Tables.Db`. Each server operation is a function
from one snapshot to the next:

- `LaravelLifecycle` covers ProcessManager.php.
- `ExpressLifecycle` covers processManager.js. Its `Server` pairs the tables
  with the worker map.

Both servers' process managers are also classes with the tables as fields.
Each method makes the same writes in place and is proved to produce exactly
the snapshot its function gives. Every lemma about the functions therefore
holds of the classes too.

Two invariants are proved preserved by every operation:

- `Tables.Valid`: process keys are fresh and increasing, every row belongs to
  a known device, and replaying each device's history from `inactive` gives
  its current status.
- `ExpressLifecycle.Registered`: a mapped device is active and has an open
  row, and every open row is the one its device's map entry holds. It is
  proved from an empty start; a server restart over persisted tables is
  listed under "Left out".

The workers are methods with loops:

- `LaravelDeviceWorker.Handle` runs the artisan command's loop against the
  Laravel process manager and a transaction table.
- `ExpressDeviceWorker.Worker.Loop` runs the thread's loop and records what
  it posts to the parent.

Inputs the source takes from outside are parameters:

- the clock (`now`);
- random draws: `Draws` for PHP, `[0,1)` reals for `Math.random()`;
- the outcome of starting a process or thread;
- whether a database write fails;
- the messages a worker receives between iterations.

UUIDs are a counter (`nextProcessId`) or a fresh key the caller supplies.

## Model

| member | source | states |
|---|---|---|
| ProcessRows.StopOpenRowsOf | api-server-laravel/app/Services/ProcessManager.php:133-137 | every open row of the device gets `stopped_at = now`, every other row is untouched, and afterwards the device has no open row |
| ProcessRows.StopOpenRowsOfIdempotent | api-server-express/src/services/processManager.js:105-108 | stopping a device's open rows a second time, at any later time, changes nothing |
| ProcessRows.StopOpenRowById | api-server-laravel/app/Services/ProcessManager.php:112-116 | only the row with that key is stopped, and only if it is still open; an already stopped row keeps its old `stopped_at` |
| ProcessRows.SetHeartbeatById | api-server-laravel/app/Console/Commands/DeviceWorker.php:75-76 | only the worker's own row gets the new heartbeat; keys and device ids are unchanged |
| ProcessRows.SetPidById | api-server-laravel/app/Services/ProcessManager.php:181 | only the row with that key gets the new pid |
| ProcessRows.BumpOpenHeartbeatsOf | api-server-express/src/services/processManager.js:60-63 | every open row of the device gets the heartbeat, including rows of an earlier worker; closed rows and other devices' rows are untouched |
| ProcessRows.FindProcess | api-server-laravel/app/Console/Commands/DeviceWorker.php:46-51 | the lookup by key returns an index holding that key, or None exactly when no row has it |
| ProcessRows.FindProcessUnique | api-server-laravel/app/Console/Commands/DeviceWorker.php:46 | with increasing keys, the lookup finds the one row that carries the key |
| Liveness.FirstLive | api-server-laravel/app/Services/ProcessManager.php:37-39 | returns a live row of the device (open, heartbeat within 10 s) exactly when one exists |
| Liveness.LiveDeviceIds | api-server-laravel/app/Services/ProcessManager.php:21-22 | a device id is plucked exactly when the device has a live row |
| Liveness.Unique | api-server-laravel/app/Services/ProcessManager.php:23-24 | keeps exactly the same ids and leaves no duplicates |
| Liveness.LiveActiveDeviceIds | api-server-laravel/app/Services/ProcessManager.php:19-26 | holds each device with a live row exactly once, and no other device |
| Liveness.NoLiveMeansZero | api-server-laravel/app/Services/ProcessManager.php:199-206 | a device without a live row has a live count of zero |
| Liveness.StartLeavesExactlyOneLive | api-server-laravel/app/Services/ProcessManager.php:37-55 | the row startProcess opens for a device with no live row becomes its only live row |
| StatusHistory.HistoryOfUnmentioned | api-server-laravel/app/Services/ProcessManager.php:145-157 | a device that no history row names has an empty log |
| StatusHistory.RecordFlip | api-server-laravel/app/Services/ProcessManager.php:145-157 | logging a genuine flip and setting the status keeps the log explaining every device's status |
| StatusHistory.AddInactiveDevice | api-server-laravel/app/Services/DeviceService.php:28-35 | a new device created inactive needs no log row |
| StatusHistory.ReplayedLogAlternates | api-server-laravel/app/Services/ProcessManager.php:57-69 | in a log that replays cleanly, every row changes the status, each row starts where the previous one ended, and the first starts from the initial status |
| StatusHistory.SetStatus | api-server-laravel/app/Services/ProcessManager.php:155-156 | only the named device changes, and only in its status; the set of devices is unchanged |
| StatusHistory.FlipRows | api-server-laravel/app/Services/ProcessManager.php:145-154 | a history row is written exactly when the device exists and its status differs from the new one, and it records the old and new status |
| StatusHistory.SetStatusKeepsExplains | api-server-express/src/services/processManager.js:113-123 | a conditional flip plus its conditional log row keeps the log explaining every status |
| StatusHistory.SetStatusIdempotent | api-server-express/src/services/processManager.js:113 | setting the same status twice equals setting it once, and the second time logs nothing |
| Tables.MarkDeviceInactive | api-server-laravel/app/Services/ProcessManager.php:128-161 | optionally stops the device's open rows, sets it inactive, logs the flip only if it was active, and answers the device, or None when it is unknown |
| Tables.MarkDeviceInactiveKeepsValid | api-server-express/src/services/processManager.js:103-127 | markDeviceInactive keeps the tables valid |
| Tables.MarkDeviceInactiveIdempotent | api-server-laravel/app/Services/ProcessManager.php:128-161 | a second markDeviceInactive, with any reason and at any time, writes nothing |
| Tables.OpenProcess | api-server-laravel/app/Services/ProcessManager.php:49-69 | appends one open row with a fresh key and heartbeat `now`, sets the device active, and logs the flip only if it was inactive |
| Tables.OpenProcessKeepsValid | api-server-express/src/services/processManager.js:24-41 | opening a row and activating the device keeps the tables valid |
| Tables.AddDeviceKeepsValid | api-server-laravel/app/Services/DeviceService.php:28-35 | inserting a new inactive device keeps the tables valid |
| LaravelLifecycle.WorkerPid | api-server-laravel/app/Services/ProcessManager.php:179 | a non-zero OS pid is written as its decimal digits; otherwise the name is `worker-` plus the random suffix; never `pending` |
| LaravelLifecycle.StartProcess | api-server-laravel/app/Services/ProcessManager.php:28-89 | 404 without writing for an unknown device; success otherwise; `alreadyRunning` exactly when the device has a live row |
| LaravelLifecycle.StopProcess | api-server-laravel/app/Services/ProcessManager.php:91-105 | answers `stopped` exactly when the device had a live row, otherwise `not_running` |
| LaravelLifecycle.LaunchWorkerKeepsValid | api-server-laravel/app/Services/ProcessManager.php:163-197 | recording the pid or handling a failed launch keeps the tables valid |
| LaravelLifecycle.StartProcessKeepsValid | api-server-laravel/app/Services/ProcessManager.php:28-89 | startProcess keeps the tables valid |
| LaravelLifecycle.StopProcessKeepsValid | api-server-laravel/app/Services/ProcessManager.php:91-105 | stopProcess keeps the tables valid |
| LaravelLifecycle.HandleWorkerExitKeepsValid | api-server-laravel/app/Services/ProcessManager.php:107-126 | handleWorkerExit keeps the tables valid |
| LaravelLifecycle.HeartbeatKeepsValid | api-server-laravel/app/Console/Commands/DeviceWorker.php:75-76 | a heartbeat keeps the tables valid |
| LaravelLifecycle.StartProcessWithoutWrites | api-server-laravel/app/Services/ProcessManager.php:33-47 | an unknown device or one with a live row leaves the tables unchanged; the latter is answered with its device, its live row and `alreadyRunning` |
| LaravelLifecycle.StartProcessLaunched | api-server-laravel/app/Services/ProcessManager.php:49-84 | a launch appends exactly one row, under the next key, carrying the launch's pid, heartbeat `now` and no stop; it sets the device active and logs a flip only if it was inactive |
| LaravelLifecycle.StartProcessLaunchedAnswer | api-server-laravel/app/Services/ProcessManager.php:71-88 | answers the active device and the new row, re-read, without `alreadyRunning`; the device then has exactly one live row |
| LaravelLifecycle.StartProcessLaunchFailed | api-server-laravel/app/Services/ProcessManager.php:188-196 | a failed launch leaves the new row stopped with pid `pending` and the device inactive, logged as activate then `worker_launch_failed`; no row stays open |
| LaravelLifecycle.StartProcessLaunchFailedAnswer | api-server-laravel/app/Services/ProcessManager.php:79-88 | the answer after a failed launch still reports the device as active (as committed) and the new row as stopped |
| LaravelLifecycle.ActivationIdempotent | api-server-laravel/app/Services/ProcessManager.php:37-47 | activating again within the heartbeat window writes nothing and answers `alreadyRunning` with the same device |
| LaravelLifecycle.StopProcessLeavesNothingOpen | api-server-laravel/app/Services/ProcessManager.php:91-105 | after stopProcess the device has no open row, is inactive if it exists, and no device is added or removed |
| LaravelLifecycle.StopProcessIdempotent | api-server-laravel/app/Services/ProcessManager.php:97-99 | a second stopProcess answers `not_running` and writes nothing |
| LaravelLifecycle.HandleWorkerExitScope | api-server-laravel/app/Services/ProcessManager.php:107-126 | stops only the exiting worker's row; it flips the device inactive with `worker_exit` only when no live row remains, and otherwise leaves devices and log alone |
| LaravelLifecycle.ActivateThenDeactivate | api-server-laravel/app/Services/ProcessManager.php:28-105 | activate then deactivate within the window answers started and `stopped`, and logs exactly activate then deactivate |
| LaravelLifecycle.LaunchedStaysLive | api-server-laravel/app/Services/ProcessManager.php:199-206 | a launched device stays live and active for the whole heartbeat window |
| LaravelLifecycle.ActivationLogged | api-server-laravel/app/Services/ProcessManager.php:57-65 | activating an inactive device logs exactly one `user_clicked_activate` row |
| LaravelLifecycle.DeactivateLive | api-server-laravel/app/Services/ProcessManager.php:102-104 | deactivating an active device with a live row answers `stopped` and logs one `user_clicked_deactivate` row |
| LaravelLifecycle.LateExitKeepsSuccessor | api-server-laravel/app/Services/ProcessManager.php:118-124 | a late exit of an older worker leaves the device and the log alone while a newer row is live |
| LaravelProcessManager.ProcessManager.constructor | api-server-laravel/app/Services/ProcessManager.php:15 | starts with empty tables |
| LaravelProcessManager.ProcessManager.AddDevice | api-server-laravel/app/Services/DeviceService.php:28-35 | the in-place insert equals `Tables.AddDevice` and keeps the tables valid |
| LaravelProcessManager.ProcessManager.MarkDeviceInactive | api-server-laravel/app/Services/ProcessManager.php:128-161 | the in-place writes and the answer equal `Tables.MarkDeviceInactive` |
| LaravelProcessManager.ProcessManager.OpenProcess | api-server-laravel/app/Services/ProcessManager.php:49-69 | the in-place writes equal `Tables.OpenProcess` with pid `pending`, and the new key is returned |
| LaravelProcessManager.ProcessManager.LaunchWorker | api-server-laravel/app/Services/ProcessManager.php:163-197 | the in-place writes equal `LaravelLifecycle.LaunchWorker` |
| LaravelProcessManager.ProcessManager.StartProcess | api-server-laravel/app/Services/ProcessManager.php:28-89 | the in-place writes and the answer equal `LaravelLifecycle.StartProcess`, and the tables stay valid |
| LaravelProcessManager.ProcessManager.StopProcess | api-server-laravel/app/Services/ProcessManager.php:91-105 | the in-place writes and the answer equal `LaravelLifecycle.StopProcess` |
| LaravelProcessManager.ProcessManager.HandleWorkerExit | api-server-laravel/app/Services/ProcessManager.php:107-126 | the in-place writes equal `LaravelLifecycle.HandleWorkerExit` |
| LaravelProcessManager.ProcessManager.Heartbeat | api-server-laravel/app/Console/Commands/DeviceWorker.php:75-76 | the in-place write equals `LaravelLifecycle.Heartbeat` |
| EventCatalog.EventsFor | api-server-laravel/app/Console/Commands/DeviceWorker.php:21-25 | never empty; it is the generic `["event"]` exactly for a type outside the three known ones |
| EventCatalog.DecimalString | api-server-laravel/app/Console/Commands/DeviceWorker.php:132 | PHP's integer-to-string: at least one digit, all digits, and no leading zero |
| EventCatalog.DecimalRoundTrip | api-server-laravel/app/Console/Commands/DeviceWorker.php:132 | reading back the decimal string of `n` gives `n` |
| EventCatalog.FourDigits | api-server-laravel/app/Console/Commands/DeviceWorker.php:132 | a number in 1000..9999 prints as four digits |
| EventCatalog.AtMostDigits | api-server-laravel/app/Console/Commands/DeviceWorker.php:109 | a number below 10^k prints in at most k digits |
| EventCatalog.LettersAreCapitals | api-server-laravel/app/Console/Commands/DeviceWorker.php:125 | every letter a plate can draw is a capital A..Z |
| EventCatalog.Plate | api-server-laravel/app/Console/Commands/DeviceWorker.php:123-133 | three capitals followed by four digits that read back as the drawn number |
| EventCatalog.FaceId | api-server-laravel/app/Console/Commands/DeviceWorker.php:109 | `F-` followed by one to four digits that read back as the drawn number |
| LaravelDeviceWorker.RandomPlate | api-server-laravel/app/Console/Commands/DeviceWorker.php:123-133 | the loop builds exactly `EventCatalog.Plate` of the drawn letters and number, so the result is a plate carrying that number |
| LaravelDeviceWorker.PayloadOf | api-server-laravel/app/Console/Commands/DeviceWorker.php:100-121 | the payload kind matches the device type exactly; door A1 with a known method and `ok` exactly when the draw exceeds 20; the face id of the draw; a plate with the drawn number and a known lane; otherwise the generic note |
| LaravelDeviceWorker.BuildPayload | api-server-laravel/app/Console/Commands/DeviceWorker.php:100-121 | builds exactly `PayloadOf` of the draws |
| LaravelDeviceWorker.Request | api-server-laravel/app/Console/Commands/DeviceWorker.php:62-73 | the createTransaction call carries the device, a known user, an event of the device's type, the timestamp `now` and a payload |
| LaravelDeviceWorker.RequestsWellFormed | api-server-laravel/app/Console/Commands/DeviceWorker.php:53-80 | the iterations store at most one transaction each, and every stored transaction is well formed for the device |
| LaravelDeviceWorker.RequestsCount | api-server-laravel/app/Console/Commands/DeviceWorker.php:66-79 | when no create fails, every iteration stores exactly one transaction |
| LaravelDeviceWorker.RequestsSnoc | api-server-laravel/app/Console/Commands/DeviceWorker.php:66-79 | one more iteration adds its request, unless its create failed |
| LaravelDeviceWorker.StoreEvent | api-server-laravel/app/Console/Commands/DeviceWorker.php:62-79 | appends the iteration's transaction unless the create throws; the row's heartbeat moves only when both writes succeed; nothing else changes |
| LaravelDeviceWorker.DeactivateBetween | api-server-laravel/app/Console/Commands/DeviceWorker.php:54-58 | a deactivation between iterations closes the worker's row when the row belongs to the device, and keeps row keys and devices |
| LaravelDeviceWorker.ReportExit | api-server-laravel/app/Console/Commands/DeviceWorker.php:82 | after handleWorkerExit the worker's row is closed, and with no live row left the device is inactive |
| LaravelDeviceWorker.Round | api-server-laravel/app/Console/Commands/DeviceWorker.php:53-80 | one iteration either breaks on a closed row, storing nothing, or stores its event and keeps the loop's invariant |
| LaravelDeviceWorker.Loop | api-server-laravel/app/Console/Commands/DeviceWorker.php:53-80 | the loop stores exactly the requests of the iterations it ran; it stops only at a closed row and never runs past a deactivation; a last persisted iteration leaves the row live |
| LaravelDeviceWorker.Handle | api-server-laravel/app/Console/Commands/DeviceWorker.php:34-85 | FAILURE without writes exactly for an unknown device or row; otherwise it stores one transaction per iteration that did not fail and leaves earlier transactions alone; it exits at the first deactivation, after which its row is closed and, with no live row left, the device is inactive |
| ExpressDeviceWorker.RandomOf | api-server-express/src/services/deviceWorker.js:14 | the pick is an element of the array |
| ExpressDeviceWorker.RandomOfReachesAll | api-server-express/src/services/deviceWorker.js:14 | every element can be picked by some draw |
| ExpressDeviceWorker.RandomDelay | api-server-express/src/services/deviceWorker.js:15-17 | the delay lies within the inclusive bounds |
| ExpressDeviceWorker.RandomDelayReachesAll | api-server-express/src/services/deviceWorker.js:15-17 | every delay between the bounds can be drawn |
| ExpressDeviceWorker.LetterIndex | api-server-express/src/services/deviceWorker.js:60 | `floor(u * 26)` is a position in A..Z |
| ExpressDeviceWorker.RandomPlate | api-server-express/src/services/deviceWorker.js:58-62 | the letters at the three drawn positions of A..Z, followed by four digits that read back as `floor(u * 9000 + 1000)`, a number in 1000..9999 |
| ExpressDeviceWorker.BuildPayload | api-server-express/src/services/deviceWorker.js:45-56 | the payload kind matches the device type exactly; door A1 with a known method and `ok` exactly when the draw exceeds 0.2; the face id `F-` followed by the digits of `floor(u * 10000)`; a plate whose number is `floor(u * 9000 + 1000)`, with a known lane; otherwise the generic note |
| ExpressDeviceWorker.EventOf | api-server-express/src/services/deviceWorker.js:25-41 | the posted message carries the device, a known user, an event of the device's type and the iteration's time |
| ExpressDeviceWorker.EventsOf | api-server-express/src/services/deviceWorker.js:21-43 | one message per iteration, in order |
| ExpressDeviceWorker.Worker.constructor | api-server-express/src/services/deviceWorker.js:19-22 | a new worker is running and has posted nothing |
| ExpressDeviceWorker.Worker.OnMessage | api-server-express/src/services/deviceWorker.js:64-66 | `stop` clears `running`; any other message changes nothing |
| ExpressDeviceWorker.Worker.Deliver | api-server-express/src/services/deviceWorker.js:64-66 | after a batch of messages the worker is running exactly when it was and none of them was `stop` |
| ExpressDeviceWorker.Worker.Loop | api-server-express/src/services/deviceWorker.js:21-43 | the loop posts one event per iteration it ran; a stopped worker runs none; it runs past no `stop` except one delivered during the last iteration; it ends early only when stopped |
| ExpressLifecycle.PlaceholderPid | api-server-express/src/services/processManager.js:27 | `worker-` followed by the decimal value of `floor(u * 1e5)`, below 100000 |
| ExpressLifecycle.StartProcess | api-server-express/src/services/processManager.js:14-101 | succeeds exactly for a known device that already has a worker or whose worker starts; `alreadyRunning` exactly when it already has a worker |
| ExpressLifecycle.StopProcess | api-server-express/src/services/processManager.js:129-140 | answers `stopped` exactly when the device has a worker, otherwise `not_running` |
| ExpressLifecycle.AddDeviceKeepsValid | api-server-express/src/services/deviceService.js:7-16 | inserting a new inactive device keeps tables and map consistent |
| ExpressLifecycle.StartProcessKeepsValid | api-server-express/src/services/processManager.js:14-101 | startProcess keeps tables and map consistent |
| ExpressLifecycle.StartKeepsRegistered | api-server-express/src/services/processManager.js:24-46 | the new worker is registered on the new open row, and the map stays consistent with the open rows |
| ExpressLifecycle.HeartbeatKeepsValid | api-server-express/src/services/processManager.js:60-63 | the heartbeat bump keeps tables and map consistent |
| ExpressLifecycle.StopProcessKeepsValid | api-server-express/src/services/processManager.js:129-140 | stopProcess keeps tables and map consistent |
| ExpressLifecycle.StopKeepsRegistered | api-server-express/src/services/processManager.js:129-140 | dropping the map entry while closing the device's rows keeps the map consistent with the open rows |
| ExpressLifecycle.ExitKeepsValid | api-server-express/src/services/processManager.js:72-96 | the corrected exit handler keeps tables and map consistent |
| ExpressLifecycle.ExitAsWrittenKeepsValid | api-server-express/src/services/processManager.js:72-96 | the exit handler as written also keeps tables and map consistent |
| ExpressLifecycle.ExitKeepsRegistered | api-server-express/src/services/processManager.js:72-96 | closing only the exiting worker's row keeps the map consistent with the open rows |
| ExpressLifecycle.RegistryMatchesOpenRows | api-server-express/src/services/processManager.js:10-12 | in a consistent state, `isActive` holds exactly when the device has an open row |
| ExpressLifecycle.StartProcessWithoutWrites | api-server-express/src/services/processManager.js:16-21 | an unknown device, a running one or a failed thread start writes nothing; errors are `Device not found` or the start's own error |
| ExpressLifecycle.StartProcessSpawned | api-server-express/src/services/processManager.js:24-99 | a start appends one open row with the placeholder pid, sets the device active, logs a flip only if it was inactive, and maps the device to the new row |
| ExpressLifecycle.ActivationIdempotent | api-server-express/src/services/processManager.js:19-21 | activating again, at any later time, writes nothing and answers `alreadyRunning` |
| ExpressLifecycle.StopProcessLeavesNothingOpen | api-server-express/src/services/processManager.js:129-140 | after stopProcess the device has no worker and no open row, is inactive if it exists, and only its map entry is gone |
| ExpressLifecycle.StopProcessIdempotent | api-server-express/src/services/processManager.js:131-133 | a second stopProcess answers `not_running` and writes nothing |
| ExpressLifecycle.ExitOfRegisteredWorker | api-server-express/src/services/processManager.js:72-96 | the exit of the mapped worker drops its entry, closes the device's rows, and logs one `worker_exit` flip to inactive |
| ExpressLifecycle.Restart | api-server-express/src/services/processManager.js:14-140 | activate, deactivate, activate leaves a consistent state with the device mapped to the second worker's row and the other entries unchanged |
| ExpressLifecycle.StartThenStop | api-server-express/src/services/processManager.js:14-140 | activate then deactivate restores the map and uses one process key |
| ExpressLifecycle.SupersededWorkerExitAsWritten | api-server-express/src/services/processManager.js:72-96 | as written, the first worker's late exit after a re-activation unmaps the running second worker and sets the device inactive |
| ExpressLifecycle.ExitAsWrittenDropsSuccessor | api-server-express/src/services/processManager.js:72-96 | as written, any exit for a mapped device drops its entry, closes all its rows and flips it inactive, whichever worker exited |
| ExpressLifecycle.SupersededWorkerExitCorrected | api-server-express/src/services/processManager.js:72-96 | with the corrected handler the first worker's late exit keeps the second worker mapped and the device active |
| ExpressLifecycle.SupersededExitCorrected | api-server-express/src/services/processManager.js:72-96 | the corrected exit of the worker before the mapped one keeps the map and the device active |
| ExpressLifecycle.ExitKeepsSuccessor | api-server-express/src/services/processManager.js:72-96 | the corrected exit of a worker other than the mapped one keeps the map, devices and log, and the device keeps an open row |
| ExpressProcessManager.ProcessManager.constructor | api-server-express/src/services/processManager.js:8 | starts with empty tables, an empty map and no transactions |
| ExpressProcessManager.ProcessManager.AddDevice | api-server-express/src/services/deviceService.js:7-16 | the in-place insert equals `Tables.AddDevice` and leaves the map alone |
| ExpressProcessManager.ProcessManager.IsActive | api-server-express/src/services/processManager.js:10-12 | true exactly when the device is in the map |
| ExpressProcessManager.ProcessManager.MarkDeviceInactive | api-server-express/src/services/processManager.js:103-127 | the in-place writes and the answer equal `Tables.MarkDeviceInactive` with the rows stopped; the map is unchanged |
| ExpressProcessManager.ProcessManager.StartProcess | api-server-express/src/services/processManager.js:14-101 | the in-place writes, the map and the answer equal `ExpressLifecycle.StartProcess`; a new start maps the device to a fresh running worker that has posted nothing |
| ExpressProcessManager.ProcessManager.Spawn | api-server-express/src/services/processManager.js:23-99 | the transaction's writes, the worker's construction and its registration equal `ExpressLifecycle.StartProcess` |
| ExpressProcessManager.ProcessManager.RegisterWorker | api-server-express/src/services/processManager.js:98 | maps the device to the new worker and leaves the tables alone |
| ExpressProcessManager.ProcessManager.OpenProcess | api-server-express/src/services/processManager.js:24-41 | the in-place writes equal `Tables.OpenProcess` with the placeholder pid |
| ExpressProcessManager.ProcessManager.BumpHeartbeats | api-server-express/src/services/processManager.js:60-63 | the in-place write equals `ExpressLifecycle.Heartbeat` |
| ExpressProcessManager.ProcessManager.OnWorkerMessage | api-server-express/src/services/processManager.js:48-70 | a transaction message stores one row with the message's fields unless the create fails, and bumps the heartbeats only when both writes succeed; other messages change nothing, and the worker map keeps the same worker objects |
| ExpressProcessManager.ProcessManager.StopProcess | api-server-express/src/services/processManager.js:129-140 | the in-place writes, the map and the answer equal `ExpressLifecycle.StopProcess`; the mapped worker is told to stop, and no other worker is touched |
| ExpressProcessManager.ProcessManager.OnWorkerExitAsWritten | api-server-express/src/services/processManager.js:72-96 | the handler as written equals `ExpressLifecycle.ExitAsWritten` |
| ExpressProcessManager.ProcessManager.OnWorkerExit | api-server-express/src/services/processManager.js:72-96 | the corrected handler equals `ExpressLifecycle.Exit` for the exiting worker's own row |
| ExpressProcessManager.ProcessManager.Unregister | api-server-express/src/services/processManager.js:73 | drops only the device's map entry |
| Ordering.Insert | api-server-laravel/app/Services/TransactionService.php:39 | inserting into a list sorted newest first keeps it sorted and adds exactly the new element |
| Ordering.SortDesc | api-server-laravel/app/Services/TransactionService.php:39 | the result is sorted by descending key and is a permutation of the input |
| Ordering.Take | api-server-laravel/app/Services/TransactionService.php:40 | keeps the first `n` elements, or all of them when there are fewer |
| Ordering.TakeKeepsTop | api-server-express/src/services/transactionService.js:22-26 | cutting a sorted list keeps every element whose key beats one that was kept |
| Ordering.TopOfSorted | api-server-laravel/app/Services/TransactionService.php:38-41 | sorting then cutting keeps only input elements, keeps every element newer than one kept, and keeps all of them when the cut does not bite |
| Transactions.TransactionTable.constructor | api-server-laravel/app/Services/TransactionService.php:9 | starts with no transactions |
| Transactions.TransactionTable.CreateTransaction | api-server-laravel/app/Services/TransactionService.php:11-22 | appends one row with a fresh transaction id and the caller's fields; the timestamp defaults to `now`, and `created_at` is `now` |
| Transactions.Filter | api-server-laravel/app/Services/TransactionService.php:28-34 | keeps exactly the rows that pass the applicable device and event-type filters |
| Transactions.ListTransactions | api-server-express/src/services/transactionService.js:17-27 | newest first, with exactly as many rows as the limit when more rows match, and every matching row otherwise; the limit is 100 by default |
| Transactions.ListingMatches | api-server-laravel/app/Services/TransactionService.php:24-42 | the listing holds only stored rows that pass the filters, none more often than stored |
| Transactions.ListingKeepsNewest | api-server-laravel/app/Services/TransactionService.php:36-41 | every matching row newer than a listed one is listed, and all matching rows are listed when the limit does not bite |
| DeviceListing.Scan | api-server-laravel/app/Services/DeviceService.php:42-43 | reads each device of the table exactly once, with its row |
| DeviceListing.Annotate | api-server-laravel/app/Services/DeviceService.php:44-47 | each row becomes an entry with its `live_active` flag, in the same order |
| DeviceListing.ListDevices | api-server-express/src/services/deviceService.js:18-25 | one entry per device, with the device's row, newest first, `live_active` as the server's rule says |
| DeviceListing.AnnotateLists | api-server-laravel/app/Services/DeviceService.php:38-49 | annotating a sorted full scan yields such a listing |
| LaravelDeviceService.NewDevice | api-server-laravel/app/Services/DeviceService.php:15-36 | 400 `Invalid device_type` exactly when the type is missing or not one of the three; otherwise an inactive device carrying the given fields |
| LaravelDeviceService.CreateDevice | api-server-laravel/app/Services/DeviceService.php:15-36 | a refused type writes nothing; a created device is inserted under the fresh key and is not live |
| LaravelDeviceService.ListDevices | api-server-laravel/app/Services/DeviceService.php:38-49 | every device once, newest first, `live_active` exactly when it has a live row |
| LaravelDeviceService.ActivateDevice | api-server-laravel/app/Services/DeviceService.php:51-54 | the answer and the writes are startProcess's |
| LaravelDeviceService.DeactivateDevice | api-server-laravel/app/Services/DeviceService.php:56-59 | the answer and the writes are stopProcess's |
| ExpressDeviceService.NewDevice | api-server-express/src/services/deviceService.js:7-16 | an inactive device with the given fields, whatever its type |
| ExpressDeviceService.CreateDevice | api-server-express/src/services/deviceService.js:7-16 | the device is inserted under the fresh key, the map is unchanged, and the device is not active |
| ExpressDeviceService.ListDevices | api-server-express/src/services/deviceService.js:18-25 | every device once, newest first, `live_active` exactly when it has a worker in the map |
| ExpressDeviceService.ActivateDevice | api-server-express/src/services/deviceService.js:27-29 | the answer and the writes are startProcess's |
| ExpressDeviceService.DeactivateDevice | api-server-express/src/services/deviceService.js:31-33 | the answer and the writes are stopProcess's |
| LaravelDeviceController.ParseIndexQuery | api-server-laravel/app/Http/Controllers/DeviceController.php:22-36 | unpaged exactly when neither parameter is sent; otherwise 400 exactly when page or size (defaulting to 1 and 5) is below 1; a page is kept and a size capped at 100 |
| LaravelDeviceController.ErrorResponse | api-server-laravel/app/Http/Controllers/DeviceController.php:95-104 | an HTTP error keeps its status, anything else is 500; the message is the error's own when truthy, else `Internal Server Error` |
| LaravelDeviceController.Index | api-server-laravel/app/Http/Controllers/DeviceController.php:19-46 | 200 exactly when the parameters parse; then every device is listed, newest first, with `live_active` from liveness; otherwise a 400 with the paging message |
| LaravelDeviceController.Store | api-server-laravel/app/Http/Controllers/DeviceController.php:48-71 | 201 exactly when the three fields are non-empty and the type is allowed; otherwise 400 with the required-fields or the invalid-type message and no write |
| LaravelDeviceController.Activate | api-server-laravel/app/Http/Controllers/DeviceController.php:73-82 | 200 with startProcess's answer, or its error as a response; an unknown device is a 404 `Device not found` |
| LaravelDeviceController.Deactivate | api-server-laravel/app/Http/Controllers/DeviceController.php:84-93 | 200 with stopProcess's answer |

## Findings

| source | as written | input that shows it | evidently intended | confidence | as-written member | corrected member |
|---|---|---|---|---|---|---|
| api-server-express/src/services/processManager.js:72-96 | The `exit` handler works on the device id it closed over. It deletes the device's map entry and stops every open row of the device, whichever worker exited. | Activate a device, deactivate it, and activate it again. Then the first, superseded worker thread emits `exit`, through a crash or a termination. That `exit` unmaps the second worker and closes its row. It also flips the device inactive while the second thread keeps posting events. | The exit of a worker ends only that worker's own row and map entry. A newer worker keeps the device active, as the handler's comment and Laravel's `handleWorkerExit` say. This holds while the map and the tables agree, which the model keeps from an empty start; after a server restart, see Left out. | not executed; low to medium: a stopped thread does not exit on its own (see Left out), so the trigger needs the superseded thread to crash or be terminated after the re-activation | ExpressLifecycle.SupersededWorkerExitAsWritten | ExpressLifecycle.SupersededWorkerExitCorrected |

`ExpressLifecycle.ExitAsWrittenDropsSuccessor` states the as-written handler's
effect for any state. `ExpressLifecycle.ExitKeepsSuccessor` states the
corrected handler's effect. The rest of the Express model uses the corrected
handler (`ExpressProcessManager.ProcessManager.OnWorkerExit`). The handler as
written is kept beside it (`OnWorkerExitAsWritten`).

## Left out

- Time is an integer number of seconds, passed in as `now`.
- `sleepRandom` and the Express `setTimeout` wait are not modelled as waits. Their 1000..4000 ms draw is an input. `LaravelDeviceWorker.ValidDraws` bounds it, and `ExpressDeviceWorker.RandomDelay` proves it in range. Nothing waits on it, and it does not advance `now`.
- Starting a process or a thread, and the operating system's pids, are inputs: the `Launch` outcome, `spawnError` and the pid draw. Logging is left out.
- UUIDs are a counter (`nextProcessId`) or a fresh key the caller passes. Transaction ids are fresh, but their format is not modelled.
- The floating-point payload fields `match_score` and `confidence` are left out. Rounding reals is not part of the properties.
- `Device::toArray`, `device.toJSON` and the JSON encoding of answers are left out. A device is its columns.
- The schema's own checks are not modelled: the device-type enum, the length and uniqueness of `ip_address`, and foreign keys.
- LaravelDeviceController.Index: the page parameters are checked, but the whole list is returned. This is what the source does, because `listDevices` takes no parameters.
- LaravelDeviceController.Store: input values arrive already cast to strings. PHP's `(string)` and `(int)` casts of arbitrary request values are not modelled.
- DeviceListing.Scan: the table yields its rows in an arbitrary order. The listing fixes only the `created_at` order, so devices created in the same second may come out in either order.
- Transactions.ListTransactions: a negative `limit` is modelled as no limit for both servers. What Sequelize sends for a negative limit is not modelled.
- Transactions.ListTransactions: Express takes `limit` as given. A non-numeric query string is not modelled.
- ExpressDeviceWorker.Worker.Loop: a `stop` posted to the thread is delivered between iterations as an input list. The event loop's interleaving of timers and messages is not modelled further.
- ExpressProcessManager.ProcessManager.StartProcess: a worker that cannot be constructed is decided before the writes. This stands for the transaction's rollback; the intermediate writes are not shown.
- Concurrency between requests is left out. Each `DB::transaction` or `sequelize.transaction` block is one atomic step.
- LaravelDeviceWorker.Handle: between iterations, only deactivations of the worker's own device can change its row. Other interleavings are not modelled: another worker's heartbeats, the crash of a running worker, a thread `error` message ending the Express loop, or the `exit` event of a crashed thread.
- The controller of the Express server and both transaction controllers are not part of this model.
- ExpressLifecycle.Registered, ExpressLifecycle.RegistryMatchesOpenRows: the Express model always starts with empty tables and an empty map, and the agreement between them is proved only from there. The source keeps `workersByDevice` in memory while the tables persist. After a server restart the map is empty, but rows may still be open and devices still active, so `isActive` is false for a device with an open row. Re-activating such a device opens a second row and leaves the stale one open, and the heartbeat bump then also bumps the stale row. The corrected `exit` handler then stops only its own row: the stale row stays open and the device stays active with no worker, where the handler as written would close both and mark the device inactive. Starting over persisted tables is not modelled.
- A stopped Express worker thread never exits on its own in the source. Its `parentPort` message listener keeps it alive, and nothing calls `terminate()`. The model lets the exit handlers (`OnWorkerExit`, `OnWorkerExitAsWritten`) run at any time, which stands for a crash or a termination. It does not capture that stopped threads otherwise stay alive.
