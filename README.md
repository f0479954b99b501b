# ServiceHelper: a verified model of a Windows-service controller

`ServiceHelper` is a set of static helpers that drive a Windows service
through its lifecycle:
- an existence check over the registered services, ignoring case;
- a run-state probe;
- start and stop, each guarded by the current status and followed by a
  bounded wait;
- restart, which is stop followed by start.

This project models those operations against an abstract service manager and
proves what they promise.

The manager (`Registry.ServiceRegistry`) holds three things:
- `names`: the enumeration of registered services;
- `status`: a map from a service's lower-cased name to its `Status`, one of
  the seven `ServiceControllerStatus` values. The manager resolves a name
  without regard to case, so every status read and update goes through the
  lower-cased name. The registry's invariant `Valid()` (`LoweredKeys`) says every
  key is lower-cased. The constructor requires it, and every operation that
  changes the registry keeps it, so each service is reached by every spelling
  of its name;
- `log`: every start or stop `Command` sent to it.

The manager's answer to a command is a `Reaction` passed in by the caller:
- `Reached`: the command is accepted and the target status is reached;
- `TimedOut`: the command is accepted, but the wait expires and raises;
- `Rejected`: sending the command raises.

The controller's exceptions become an `Outcome`: either `Returned(b)` or
`Raised(e)`.

The model is in four modules:
- `Names` lower-cases names (ASCII only).
- `Registry` defines the data model and the manager class with its primitives:
  enumerate, read a status, send a command, wait for a status.
- `Lifecycle` states each operation as a function of a `Snapshot` of the
  manager (`Existed`, `ReportsRunning`, `Drive`, `Refresh`) and proves the
  lemmas.
- `ServiceHelper` holds the operations as module-level methods. Each takes the
  `ServiceRegistry` it works on as a parameter, and is proved to compute exactly
  what its `Lifecycle` function gives.

Where a caller might expect something other than what the code does, the
model follows the code:
- One might expect start and stop to report true even when the ten-second wait
  expires. In the code, `WaitForStatus` with a timeout raises when the timeout
  expires. So `return true` is reached only after a wait that succeeds, or when
  no command was sent. The model raises `Timeout` in that case.
- One might expect start and stop to check that the service exists first, as
  the run-state probe does. The code reads `sc.Status` without such a check,
  and that read raises for an unknown name. The model raises `NotFound`.
- The doc comments of start, stop and restart (ServiceHelper.cs:95, :114,
  :133) promise true on success and false otherwise. The code never returns
  false: it returns true, or an exception escapes (`DriveNeverReturnsFalse`).
  The model follows the code.
- Start on a `Paused` (or `PausePending`, `ContinuePending`) service sends
  nothing and returns true, as the code does (`StartOnPausedReportsSuccess`).

## Model

| member | source | states |
|---|---|---|
| `Names.LowerChar` | ServiceHelper.cs:23 | a lower-cased character is never an upper-case letter, and any other character is kept |
| `Names.Lower` | ServiceHelper.cs:23 | lower-casing keeps the length and lower-cases each character |
| `Names.LowerIdempotent` | ServiceHelper.cs:23 | lower-casing an already lower-cased name changes nothing |
| `Names.SameNameCharwise` | ServiceHelper.cs:23 | two names match iff they have the same length and agree character by character once lower-cased |
| `Names.MixedCaseExample` | ServiceHelper.cs:23 | "MyService" matches "myservice" and does not match "MyService2" |
| `Registry.ServiceRegistry.GetServices` | ServiceHelper.cs:20 | enumerating the services yields exactly the registered names |
| `ServiceHelper.IsServiceExisted` | ServiceHelper.cs:18-29 | returns true iff some enumerated name equals the requested name once both are lower-cased; it reads the registry and changes nothing |
| `Lifecycle.ExistedIgnoresCase` | ServiceHelper.cs:18-29 | two names that match ignoring case get the same existence answer |
| `Lifecycle.NothingExistsInEmptyRegistry` | ServiceHelper.cs:20-28 | an empty enumeration makes every existence check false |
| `Lifecycle.ExistedMixedCase` | ServiceHelper.cs:21-26 | with "MyService" registered, "myservice" exists |
| `ServiceHelper.IsRunning` | ServiceHelper.cs:66-89 | returns true iff the service is enumerated, its status (looked up ignoring case) can be read, and it is StartPending or Running; a status read that raises gives false |
| `Lifecycle.UnregisteredIsNotRunning` | ServiceHelper.cs:71-74 | an unregistered name is not running, whatever status the manager would report |
| `Lifecycle.RunningExactlyWhenActive` | ServiceHelper.cs:75-82 | for a registered, readable service the probe is true exactly for StartPending and Running |
| `Lifecycle.UnreadableIsNotRunning` | ServiceHelper.cs:84-87 | a status that cannot be read counts as not running |
| `Lifecycle.ReportsRunningIgnoresCase` | ServiceHelper.cs:71-80 | the probe gives the same answer for every spelling of a name |
| `Lifecycle.RunningMixedCase` | ServiceHelper.cs:71-80 | a registered, running "MyService", held under its lower-cased key, is reported running when asked for as "myservice" or as "MyService" |
| `Lifecycle.EveryKeyReachable` | ServiceHelper.cs:75-77 | with lower-cased keys, every spelling of a service's name reads that service's status |
| `Registry.ServiceRegistry.QueryStatus` | ServiceHelper.cs:77 | a status read, ignoring case, yields the service's status, or fails for a name the manager cannot resolve |
| `Registry.ServiceRegistry.Send` | ServiceHelper.cs:102 | a sent command is logged; if accepted, the service moves to the command's pending status |
| `Registry.ServiceRegistry.WaitForStatus` | ServiceHelper.cs:103 | the wait either reaches the target status or expires, leaving the status unchanged |
| `ServiceHelper.Control` | ServiceHelper.cs:98-107 | one guarded command followed by a wait leaves the registry and result exactly as `Drive` describes |
| `ServiceHelper.StartService` | ServiceHelper.cs:96-108 | new registry state and result are those of `Drive` with a start command; never returns false |
| `ServiceHelper.StopService` | ServiceHelper.cs:115-127 | new registry state and result are those of `Drive` with a stop command; never returns false |
| `ServiceHelper.RefreshService` | ServiceHelper.cs:134-137 | new registry state and result are those of `Refresh`: stop, then start only when stop returned true |
| `Lifecycle.DriveUnknownRaises` | ServiceHelper.cs:98-100 | an unknown name raises NotFound and changes nothing |
| `Lifecycle.DriveSendsIffApplies` | ServiceHelper.cs:100-104 | exactly one command is sent iff the status lets it apply; otherwise the state is unchanged and true is returned |
| `Lifecycle.StartSendsIffStopped` | ServiceHelper.cs:100-104 | start sends one start command iff the status is Stopped or StopPending; otherwise the state is unchanged |
| `Lifecycle.StopSendsIffRunning` | ServiceHelper.cs:119-123 | stop sends one stop command iff the status is Running or StartPending; otherwise the state is unchanged |
| `Lifecycle.DriveNeverReturnsFalse` | ServiceHelper.cs:107 | start and stop return true or raise, never false |
| `Lifecycle.DriveReturnsTrueOnlyWhenReached` | ServiceHelper.cs:102-107 | true is returned iff no command applied or the wait reached its target; after a sent command the status is then the target |
| `Lifecycle.DriveFailures` | ServiceHelper.cs:102-103 | a refused command raises CommandFailed with the status untouched; an expired wait raises Timeout with the service left pending |
| `Lifecycle.DriveFrame` | ServiceHelper.cs:98-105 | the enumeration, the set of known services and the status of every service with a different lower-cased name are unchanged; the log grows by at most this command |
| `Lifecycle.DriveKeepsLoweredKeys` | ServiceHelper.cs:98-104 | start and stop keep every key of the status map lower-cased |
| `Lifecycle.DriveIgnoresCase` | ServiceHelper.cs:98-104 | start or stop under two spellings of one name gives the same result and the same statuses |
| `Lifecycle.StartTwiceSendsOnce` | ServiceHelper.cs:100-104 | after an accepted start, a second start under any spelling of the name sends nothing and returns true; after an expired wait this rests on the model leaving the service at StartPending |
| `Lifecycle.StopTwiceSendsOnce` | ServiceHelper.cs:119-123 | after an accepted stop, a second stop under any spelling of the name sends nothing and returns true |
| `Lifecycle.StartedIsRunning` | ServiceHelper.cs:100-107 | a start that sent its command and returned true leaves the service reported running |
| `Lifecycle.StoppedIsNotRunning` | ServiceHelper.cs:119-126 | a stop that returned true leaves the service reported not running |
| `Lifecycle.StartOnPausedReportsSuccess` | ServiceHelper.cs:100-107 | start on a Paused service changes nothing, returns true, and the service is still not running |
| `Lifecycle.RefreshStopsBeforeStarts` | ServiceHelper.cs:136 | a restart only appends to the log, and adds nothing, a stop, a start, or a stop followed by a start; never a start before a stop |
| `Lifecycle.RefreshStopFailureSkipsStart` | ServiceHelper.cs:136 | when stop raises, start is not attempted and the restart raises the same error |
| `Lifecycle.RefreshIsConjunction` | ServiceHelper.cs:136 | restart returns true iff stop returned true and then start returned true |
| `Lifecycle.RefreshRunningService` | ServiceHelper.cs:134-137 | restarting a running service whose commands complete sends stop then start, returns true and leaves every status as before |

## Left out

- `InstallService` and `UnInstallService` (ServiceHelper.cs:35-60) are not modelled. They only pass a file path to the framework's assembly installer and contain no decisions.
- The ten-second timeout and the blocking in `WaitForStatus` are not modelled as time. A wait is only "reached" or "expired" (`Reaction`).
- `ToLower` is modelled on ASCII letters only. Culture-specific case mapping is not modelled.
- Handle disposal (`using` blocks at ServiceHelper.cs:75, :98 and :117) is not modelled. It has no effect on the manager's observable state.
- DriveFrame: .NET's `ServiceController.Stop()` first stops every service that depends on the one being stopped. Dependent services are not modelled, so the model's stop changes only the one service's status.
- StopService: dependent services are not modelled. The stops `Stop()` performs on them, and the errors those stops can raise, are missing.
- RefreshService: inherits the missing dependent-service stops from its stop step.
- Registry.ServiceRegistry.constructor: requires the status map to be keyed by lower-cased names. A registry holding two spellings of one service is not modelled; the manager itself knows each service under one name.
- QueryStatus: the manager also accepts a service's display name where a service name is expected. Display names are not modelled; a name resolves only through its lower-cased service name.
- Concurrent callers are not modelled. Neither are the manager's own transitions beyond "accepted command moves to pending, reached wait moves to target".
- An exception from enumerating the services (`GetServices`) is not modelled. The enumeration always succeeds.
- Status reads in start and stop fail only for names missing from the status map (`NotFound`). Other causes, such as access denied, are not distinguished.
- When the manager refuses a command, the model records it in the log and leaves the status unchanged. What the manager really does then is not modelled.
