/**
 * The host's service manager, as the controller sees it: the enumeration of
 * registered service names, the status each name resolves to, and the log of
 * start and stop commands sent to it. How the manager answers a command (the
 * command is refused, the wait times out, the target status is reached) is
 * decided outside the controller and reaches the model as a `Reaction`.
 */
module Registry {
  import opened Names

  /** The status values a service can report (ServiceControllerStatus). */
  datatype Status =
    | Stopped
    | StartPending
    | StopPending
    | Running
    | ContinuePending
    | PausePending
    | Paused
  {
    /** The statuses a run-state probe counts as running. */
    predicate Active() {
      this == StartPending || this == Running
    }
  }

  /** A command sent to the manager, naming the service it is for. */
  datatype Command = Start(service: string) | Stop(service: string)
  {
    /** The statuses from which the controller sends this command at all. */
    predicate AppliesTo(st: Status) {
      match this
      case Start(_) => st == Stopped || st == StopPending
      case Stop(_) => st == Running || st == StartPending
    }

    /** The status the controller waits for after sending the command. */
    function Target(): Status {
      match this
      case Start(_) => Running
      case Stop(_) => Stopped
    }

    /** The status the manager moves the service to when it accepts the command. */
    function Pending(): Status {
      match this
      case Start(_) => StartPending
      case Stop(_) => StopPending
    }
  }

  /** How the manager answers one command and the bounded wait after it. */
  datatype Reaction =
    | Reached   // the command is accepted and the target status is reached in time
    | TimedOut  // the command is accepted; the wait expires and raises
    | Rejected  // sending the command raises

  /** The exceptions the controller's operations can raise. */
  datatype Error =
    | NotFound       // reading the status of a name the manager cannot resolve
    | CommandFailed  // the manager refused the start or stop command
    | Timeout        // the bounded wait expired before the target status

  /** What a controller operation does: return a boolean or raise. */
  datatype Outcome = Returned(value: bool) | Raised(error: Error)

  datatype Option<T> = None | Some(value: T)

  /** Every key of a status map is a lower-cased name, so some spelling of each service reaches it. */
  predicate LoweredKeys(status: map<string, Status>) {
    forall k :: k in status ==> Lower(k) == k
  }

  /** The whole observable state of the manager, as a value. */
  datatype Snapshot = Snapshot(names: seq<string>, status: map<string, Status>, log: seq<Command>)

  /**
   * The manager itself. `names` is what enumerating the services returns,
   * `status` the status of each service keyed by its lower-cased name (the
   * manager resolves names without regard to case; a name whose lower-cased
   * form is not a key raises when its status is read), `log` every command
   * sent so far, with the name as the caller spelled it.
   */
  class ServiceRegistry {
    var names: seq<string>
    var status: map<string, Status>
    var log: seq<Command>

    /** The status map holds each service under its lower-cased name. */
    ghost predicate Valid()
      reads this
    {
      LoweredKeys(status)
    }

    constructor (names: seq<string>, status: map<string, Status>)
      requires LoweredKeys(status)
      ensures Valid()
      ensures this.names == names && this.status == status && log == []
    {
      this.names := names;
      this.status := status;
      log := [];
    }

    function Snap(): Snapshot
      reads this
    {
      Snapshot(names, status, log)
    }

    /** Enumerates the registered services. */
    method GetServices() returns (s: seq<string>)
      ensures s == names
    {
      s := names;
    }

    /** Reads the status of a service, ignoring case; `None` stands for the exception raised for an unknown name. */
    method QueryStatus(name: string) returns (r: Option<Status>)
      ensures r.Some? <==> Lower(name) in status
      ensures r.Some? ==> r.value == status[Lower(name)]
    {
      var key := Lower(name);
      if key in status {
        r := Some(status[key]);
      } else {
        r := None;
      }
    }

    /**
     * Sends a start or stop command. The command is logged whether or not the
     * manager accepts it; an accepted command moves the service to its pending status.
     */
    method Send(c: Command, x: Reaction) returns (accepted: bool)
      requires Valid() && Lower(c.service) in status
      modifies this
      ensures Valid()
      ensures accepted <==> x != Rejected
      ensures log == old(log) + [c] && names == old(names)
      ensures status == if accepted then old(status)[Lower(c.service) := c.Pending()] else old(status)
    {
      log := log + [c];
      accepted := x != Rejected;
      if accepted {
        status := status[Lower(c.service) := c.Pending()];
      }
    }

    /** Waits for a service to reach `target`; it either does or the wait expires. */
    method WaitForStatus(name: string, target: Status, x: Reaction) returns (reached: bool)
      requires Valid() && Lower(name) in status
      modifies this
      ensures Valid()
      ensures reached <==> x == Reached
      ensures status == if reached then old(status)[Lower(name) := target] else old(status)
      ensures log == old(log) && names == old(names)
    {
      reached := x == Reached;
      if reached {
        status := status[Lower(name) := target];
      }
    }
  }
}
