/**
 * The service controller. It keeps no state of its own: every operation is
 * given the manager it works on, and the manager's answer to each command it
 * sends.
 */
module ServiceHelper {
  import opened Names
  import opened Registry
  import opened Lifecycle

  /** Scans the enumerated services for one whose name matches, ignoring case. */
  method IsServiceExisted(reg: ServiceRegistry, nameService: string) returns (r: bool)
    ensures r <==> Existed(reg.names, nameService)
  {
    var services := reg.GetServices();
    var wanted := Lower(nameService);
    for k := 0 to |services|
      invariant forall i :: 0 <= i < k ==> Lower(services[i]) != wanted
    {
      if Lower(services[k]) == wanted {
        return true;
      }
    }
    return false;
  }

  /**
   * The run-state probe. An unregistered name is not running; otherwise the
   * status decides, and a status read that raises is caught and reads as not running.
   */
  method IsRunning(reg: ServiceRegistry, serviceName: string) returns (isRun: bool)
    ensures isRun <==> ReportsRunning(reg.Snap(), serviceName)
  {
    isRun := false;
    var existed := IsServiceExisted(reg, serviceName);
    if !existed {
      return false;
    }
    var st := reg.QueryStatus(serviceName);
    match st
    case None =>
      isRun := false;
    case Some(status) =>
      if status == StartPending || status == Running {
        isRun := true;
      }
  }

  /** Sends one guarded command and waits for its target status. */
  method Control(reg: ServiceRegistry, c: Command, x: Reaction) returns (r: Outcome)
    requires reg.Valid()
    modifies reg
    ensures reg.Valid()
    ensures reg.Snap() == Drive(old(reg.Snap()), c, x).after
    ensures r == Drive(old(reg.Snap()), c, x).outcome
  {
    var st := reg.QueryStatus(c.service);
    if st.None? {
      return Raised(NotFound);
    }
    if c.AppliesTo(st.value) {
      var accepted := reg.Send(c, x);
      if !accepted {
        return Raised(CommandFailed);
      }
      var reached := reg.WaitForStatus(c.service, c.Target(), x);
      if !reached {
        return Raised(Timeout);
      }
    }
    return Returned(true);
  }

  /** Starts a service that is Stopped or StopPending and waits for Running; otherwise does nothing. */
  method StartService(reg: ServiceRegistry, serviceName: string, x: Reaction) returns (r: Outcome)
    requires reg.Valid()
    modifies reg
    ensures reg.Valid()
    ensures reg.Snap() == Drive(old(reg.Snap()), Start(serviceName), x).after
    ensures r == Drive(old(reg.Snap()), Start(serviceName), x).outcome
    ensures r != Returned(false)
  {
    r := Control(reg, Start(serviceName), x);
  }

  /** Stops a service that is Running or StartPending and waits for Stopped; otherwise does nothing. */
  method StopService(reg: ServiceRegistry, serviceName: string, x: Reaction) returns (r: Outcome)
    requires reg.Valid()
    modifies reg
    ensures reg.Valid()
    ensures reg.Snap() == Drive(old(reg.Snap()), Stop(serviceName), x).after
    ensures r == Drive(old(reg.Snap()), Stop(serviceName), x).outcome
    ensures r != Returned(false)
  {
    r := Control(reg, Stop(serviceName), x);
  }

  /** Restarts a service: stop, then, only when stop returned true, start. */
  method RefreshService(reg: ServiceRegistry, serviceName: string, xStop: Reaction, xStart: Reaction)
    returns (r: Outcome)
    requires reg.Valid()
    modifies reg
    ensures reg.Valid()
    ensures reg.Snap() == Refresh(old(reg.Snap()), serviceName, xStop, xStart).after
    ensures r == Refresh(old(reg.Snap()), serviceName, xStop, xStart).outcome
  {
    r := StopService(reg, serviceName, xStop);
    if r.Raised? || !r.value {
      return;
    }
    r := StartService(reg, serviceName, xStart);
  }
}
