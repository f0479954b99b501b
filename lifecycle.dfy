/**
 * The controller's operations as functions of the manager's state, and what
 * they promise: the existence check, the run-state probe, one guarded start or
 * stop with its bounded wait, and restart as stop followed by start.
 */
module Lifecycle {
  import opened Names
  import opened Registry

  /** Some enumerated service has the given name, ignoring case. */
  predicate Existed(names: seq<string>, name: string) {
    exists i :: 0 <= i < |names| && SameName(names[i], name)
  }

  /** What the run-state probe reports: the service exists and its status is StartPending or Running. */
  predicate ReportsRunning(s: Snapshot, name: string) {
    Existed(s.names, name) && Lower(name) in s.status && s.status[Lower(name)].Active()
  }

  /** The state after an operation together with what the operation returned or raised. */
  datatype Step = Step(after: Snapshot, outcome: Outcome)

  /**
   * One start or stop: read the status, looked up by the lower-cased name
   * (raising for an unknown name); when the command applies, send it and wait
   * for its target status; return true.
   */
  function Drive(s: Snapshot, c: Command, x: Reaction): Step {
    var key := Lower(c.service);
    if key !in s.status then Step(s, Raised(NotFound))
    else if !c.AppliesTo(s.status[key]) then Step(s, Returned(true))
    else
      var sent := s.(log := s.log + [c]);
      match x
      case Rejected => Step(sent, Raised(CommandFailed))
      case TimedOut => Step(sent.(status := s.status[key := c.Pending()]), Raised(Timeout))
      case Reached => Step(sent.(status := s.status[key := c.Target()]), Returned(true))
  }

  /** Restart: stop, and only when stop returned true, start; the result is the conjunction. */
  function Refresh(s: Snapshot, name: string, xStop: Reaction, xStart: Reaction): Step {
    var stopped := Drive(s, Stop(name), xStop);
    match stopped.outcome
    case Raised(_) => stopped
    case Returned(false) => stopped
    case Returned(true) => Drive(stopped.after, Start(name), xStart)
  }

  // ---------------------------------------------------------------------------
  // Existence and run state

  /** The existence check does not depend on the case of the name asked for. */
  lemma ExistedIgnoresCase(names: seq<string>, a: string, b: string)
    requires SameName(a, b)
    ensures Existed(names, a) <==> Existed(names, b)
  {
  }

  /** Nothing exists in an empty enumeration. */
  lemma NothingExistsInEmptyRegistry(name: string)
    ensures !Existed([], name)
  {
  }

  /** A registered "MyService" is found when asked for as "myservice". */
  lemma ExistedMixedCase(names: seq<string>)
    requires "MyService" in names
    ensures Existed(names, "myservice")
  {
    MixedCaseExample();
    var i :| 0 <= i < |names| && names[i] == "MyService";
    assert SameName(names[i], "myservice");
  }

  /** The run-state probe is false for an unregistered name, whatever the status map holds. */
  lemma UnregisteredIsNotRunning(s: Snapshot, name: string)
    requires !Existed(s.names, name)
    ensures !ReportsRunning(s, name)
  {
  }

  /** For a registered name, the probe is true exactly for StartPending and Running. */
  lemma RunningExactlyWhenActive(s: Snapshot, name: string)
    requires Existed(s.names, name) && Lower(name) in s.status
    ensures ReportsRunning(s, name) <==> (s.status[Lower(name)] == StartPending || s.status[Lower(name)] == Running)
  {
  }

  /** A status that cannot be read counts as not running. */
  lemma UnreadableIsNotRunning(s: Snapshot, name: string)
    requires Lower(name) !in s.status
    ensures !ReportsRunning(s, name)
  {
  }

  /** The probe gives the same answer for every spelling of a name. */
  lemma ReportsRunningIgnoresCase(s: Snapshot, a: string, b: string)
    requires SameName(a, b)
    ensures ReportsRunning(s, a) <==> ReportsRunning(s, b)
  {
  }

  /**
   * A running "MyService", held under its lower-cased name, is reported running
   * when asked for under either spelling.
   */
  lemma RunningMixedCase(s: Snapshot)
    requires "MyService" in s.names && LoweredKeys(s.status)
    requires "myservice" in s.status && s.status["myservice"] == Running
    ensures ReportsRunning(s, "myservice") && ReportsRunning(s, "MyService")
  {
    ExistedMixedCase(s.names);
    MixedCaseExample();
    assert SameName("MyService", "MyService");
  }

  /** With lower-cased keys, every service in the status map is reached by every spelling of its name. */
  lemma EveryKeyReachable(s: Snapshot, k: string, name: string)
    requires LoweredKeys(s.status) && k in s.status && SameName(name, k)
    ensures Lower(name) in s.status && s.status[Lower(name)] == s.status[k]
  {
  }

  // ---------------------------------------------------------------------------
  // Start and stop

  /** An unknown name raises NotFound and changes nothing. */
  lemma DriveUnknownRaises(s: Snapshot, c: Command, x: Reaction)
    requires Lower(c.service) !in s.status
    ensures Drive(s, c, x) == Step(s, Raised(NotFound))
  {
  }

  /**
   * Exactly one command, the one asked for, is sent when the current status
   * lets it apply; otherwise nothing is sent and the state is left as it was.
   */
  lemma DriveSendsIffApplies(s: Snapshot, c: Command, x: Reaction)
    requires Lower(c.service) in s.status
    ensures var r := Drive(s, c, x);
      (c.AppliesTo(s.status[Lower(c.service)]) <==> r.after.log == s.log + [c])
      && (!c.AppliesTo(s.status[Lower(c.service)]) <==> r.after.log == s.log)
      && (!c.AppliesTo(s.status[Lower(c.service)]) ==> r == Step(s, Returned(true)))
  {
    var r := Drive(s, c, x);
    if c.AppliesTo(s.status[Lower(c.service)]) {
      assert |r.after.log| == |s.log| + 1;
    }
  }

  /** Start sends one start command iff the status is Stopped or StopPending. */
  lemma StartSendsIffStopped(s: Snapshot, name: string, x: Reaction)
    requires Lower(name) in s.status
    ensures var r := Drive(s, Start(name), x);
      (r.after.log == s.log + [Start(name)] <==> s.status[Lower(name)] in {Stopped, StopPending})
      && (r.after.log == s.log <==> s.status[Lower(name)] !in {Stopped, StopPending})
      && (s.status[Lower(name)] !in {Stopped, StopPending} ==> r.after == s)
  {
    DriveSendsIffApplies(s, Start(name), x);
  }

  /** Stop sends one stop command iff the status is Running or StartPending. */
  lemma StopSendsIffRunning(s: Snapshot, name: string, x: Reaction)
    requires Lower(name) in s.status
    ensures var r := Drive(s, Stop(name), x);
      (r.after.log == s.log + [Stop(name)] <==> s.status[Lower(name)] in {Running, StartPending})
      && (r.after.log == s.log <==> s.status[Lower(name)] !in {Running, StartPending})
      && (s.status[Lower(name)] !in {Running, StartPending} ==> r.after == s)
  {
    DriveSendsIffApplies(s, Stop(name), x);
  }

  /** Start and stop never return false: they return true or raise. */
  lemma DriveNeverReturnsFalse(s: Snapshot, c: Command, x: Reaction)
    ensures Drive(s, c, x).outcome != Returned(false)
  {
  }

  /**
   * They return true exactly when the command did not apply, or was accepted
   * and its target status was reached; the service then has that status.
   */
  lemma DriveReturnsTrueOnlyWhenReached(s: Snapshot, c: Command, x: Reaction)
    requires Lower(c.service) in s.status
    ensures var r := Drive(s, c, x);
      (r.outcome == Returned(true) <==> !c.AppliesTo(s.status[Lower(c.service)]) || x == Reached)
      && (r.outcome == Returned(true) && c.AppliesTo(s.status[Lower(c.service)]) ==>
            r.after.status[Lower(c.service)] == c.Target())
  {
  }

  /**
   * The raised error names the step that failed; a failed send leaves the
   * status alone, and an expired wait leaves the service at its pending status
   * (the model's stand-in for whatever status the manager reaches meanwhile).
   */
  lemma DriveFailures(s: Snapshot, c: Command, x: Reaction)
    requires Lower(c.service) in s.status && c.AppliesTo(s.status[Lower(c.service)])
    ensures x == Rejected ==> Drive(s, c, x) == Step(s.(log := s.log + [c]), Raised(CommandFailed))
    ensures x == TimedOut ==>
              Drive(s, c, x).outcome == Raised(Timeout) && Drive(s, c, x).after.status[Lower(c.service)] == c.Pending()
  {
  }

  /**
   * Nothing else changes: the enumeration, the set of known services and the
   * status of every service whose lower-cased name differs stay; the log only
   * grows, by the command sent.
   */
  lemma DriveFrame(s: Snapshot, c: Command, x: Reaction)
    ensures var r := Drive(s, c, x);
      r.after.names == s.names
      && r.after.status.Keys == s.status.Keys
      && (forall m :: m in s.status && m != Lower(c.service) ==> r.after.status[m] == s.status[m])
      && (r.after.log == s.log || r.after.log == s.log + [c])
  {
  }

  /** Start and stop keep every key of the status map lower-cased. */
  lemma DriveKeepsLoweredKeys(s: Snapshot, c: Command, x: Reaction)
    requires LoweredKeys(s.status)
    ensures LoweredKeys(Drive(s, c, x).after.status)
  {
    DriveFrame(s, c, x);
  }

  /** Two spellings of one name drive the service identically; only the logged spelling differs. */
  lemma DriveIgnoresCase(s: Snapshot, a: string, b: string, x: Reaction)
    requires SameName(a, b)
    ensures Drive(s, Start(a), x).outcome == Drive(s, Start(b), x).outcome
    ensures Drive(s, Start(a), x).after.status == Drive(s, Start(b), x).after.status
    ensures Drive(s, Stop(a), x).outcome == Drive(s, Stop(b), x).outcome
    ensures Drive(s, Stop(a), x).after.status == Drive(s, Stop(b), x).after.status
  {
  }

  /**
   * Starting twice sends one start command: once a start is accepted, a second
   * start under any spelling of the name is a no-op returning true. For an
   * expired wait this rests on the model leaving the service at its pending
   * status; a real service that fails while starting can be back at Stopped,
   * and a second start then sends again.
   */
  lemma StartTwiceSendsOnce(s: Snapshot, a: string, b: string, x1: Reaction, x2: Reaction)
    requires SameName(a, b) && x1 != Rejected
    ensures var first := Drive(s, Start(a), x1);
      Drive(first.after, Start(b), x2) == Step(first.after, if Lower(a) in s.status then Returned(true) else Raised(NotFound))
  {
  }

  /**
   * Stopping twice, under any spelling of the name, sends one stop command.
   * For an expired wait this rests, as for start, on the service being left at
   * its pending status.
   */
  lemma StopTwiceSendsOnce(s: Snapshot, a: string, b: string, x1: Reaction, x2: Reaction)
    requires SameName(a, b) && x1 != Rejected
    ensures var first := Drive(s, Stop(a), x1);
      Drive(first.after, Stop(b), x2) == Step(first.after, if Lower(a) in s.status then Returned(true) else Raised(NotFound))
  {
  }

  /** After a start that sent its command and returned true, the probe reports the service running. */
  lemma StartedIsRunning(s: Snapshot, name: string, x: Reaction)
    requires Existed(s.names, name) && Lower(name) in s.status && s.status[Lower(name)] in {Stopped, StopPending}
    requires Drive(s, Start(name), x).outcome == Returned(true)
    ensures ReportsRunning(Drive(s, Start(name), x).after, name)
  {
  }

  /** After a stop that returned true, the probe reports the service not running. */
  lemma StoppedIsNotRunning(s: Snapshot, name: string, x: Reaction)
    requires Drive(s, Stop(name), x).outcome == Returned(true)
    ensures !ReportsRunning(Drive(s, Stop(name), x).after, name)
  {
  }

  /** Start returns true for a Paused service although it sends nothing and the service is not running. */
  lemma StartOnPausedReportsSuccess(s: Snapshot, name: string, x: Reaction)
    requires Lower(name) in s.status && s.status[Lower(name)] == Paused
    ensures Drive(s, Start(name), x) == Step(s, Returned(true))
    ensures !ReportsRunning(Drive(s, Start(name), x).after, name)
  {
  }

  // ---------------------------------------------------------------------------
  // Restart

  /** The commands a restart adds to the log: a stop for the service, if any, comes before its start. */
  lemma RefreshStopsBeforeStarts(s: Snapshot, name: string, xStop: Reaction, xStart: Reaction)
    ensures var r := Refresh(s, name, xStop, xStart);
      |s.log| <= |r.after.log| && r.after.log[..|s.log|] == s.log
      && var added := r.after.log[|s.log|..];
         added == [] || added == [Stop(name)] || added == [Start(name)] || added == [Stop(name), Start(name)]
  {
    var stopped := Drive(s, Stop(name), xStop);
    DriveFrame(s, Stop(name), xStop);
    if stopped.outcome == Returned(true) {
      DriveFrame(stopped.after, Start(name), xStart);
      var r := Drive(stopped.after, Start(name), xStart);
      if stopped.after.log == s.log + [Stop(name)] && r.after.log == stopped.after.log + [Start(name)] {
        assert r.after.log == s.log + [Stop(name), Start(name)];
      }
    }
  }

  /** When stop raises, start is never attempted and the restart raises the same error. */
  lemma RefreshStopFailureSkipsStart(s: Snapshot, name: string, xStop: Reaction, xStart: Reaction)
    requires Drive(s, Stop(name), xStop).outcome.Raised?
    ensures Refresh(s, name, xStop, xStart) == Drive(s, Stop(name), xStop)
    ensures Start(name) !in Refresh(s, name, xStop, xStart).after.log[|s.log|..]
  {
    var r := Drive(s, Stop(name), xStop);
    DriveFrame(s, Stop(name), xStop);
    if r.after.log == s.log + [Stop(name)] {
      assert r.after.log[|s.log|..] == [Stop(name)];
    } else {
      assert r.after.log[|s.log|..] == [];
    }
  }

  /** Restart returns true iff stop returned true and then start returned true. */
  lemma RefreshIsConjunction(s: Snapshot, name: string, xStop: Reaction, xStart: Reaction)
    ensures var stopped := Drive(s, Stop(name), xStop);
      Refresh(s, name, xStop, xStart).outcome == Returned(true) <==>
        stopped.outcome == Returned(true) && Drive(stopped.after, Start(name), xStart).outcome == Returned(true)
  {
  }

  /** Restarting a running service whose commands both complete: stop then start are sent, and it runs again. */
  lemma RefreshRunningService(s: Snapshot, name: string)
    requires Lower(name) in s.status && s.status[Lower(name)] == Running
    ensures var r := Refresh(s, name, Reached, Reached);
      r.outcome == Returned(true)
      && r.after.log == s.log + [Stop(name), Start(name)]
      && r.after.status == s.status
  {
    var key := Lower(name);
    var stopped := Drive(s, Stop(name), Reached);
    assert stopped.after.status == s.status[key := Stopped];
    assert stopped.after.status[key := Running] == s.status;
  }
}
