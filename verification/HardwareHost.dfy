/** The production host's own code, step by step over the controller object. */
module HardwareHost {
  import opened Options
  import opened Outcomes
  import opened ReaderRecord
  import opened Escalation
  import opened Controller
  import opened AccessControl
  import opened HostRun

  /** Another component is called; it may raise. */
  method Invoke(c: AccessController, component: Component, now: real) returns (fault: Fault)
    modifies c`trace
    ensures Out(c.View(), fault) == Outside(c.env, old(c.View()), component, now)
  {
    fault := c.Perform(External(component), now);
  }

  /** The same, inside a handler that retains what is raised. */
  method Retain(c: AccessController, component: Component, now: real, failures: seq<Fault>)
    returns (retained: seq<Fault>)
    modifies c`trace
    ensures Kept(c.View(), retained) == Guarded(c.env, Kept(old(c.View()), failures), component, now)
  {
    var fault := Invoke(c, component, now);
    retained := if fault == Fine then failures else failures + [fault];
  }

  /** One pass of the runtime loop: its acts up to the first exception, then the snapshot in any case. */
  method RunOnce(c: AccessController, doings: seq<Doing>, now: real) returns (fault: Fault)
    requires c.Valid()
    modifies c, c.tracker
    ensures Out(c.View(), fault) == RunOnceOp(c.env, old(c.View()), doings, now)
  {
    hide ActOp, Outside;
    fault := Fine;
    var i := 0;
    while i < |doings| && fault == Fine
      invariant i <= |doings|
      invariant Out(c.View(), fault) == Acts(c.env, old(c.View()), doings[..i])
      decreases |doings| - i
    {
      assert doings[..i + 1][..i] == doings[..i];
      fault := Perform(c, doings[i]);
      i := i + 1;
    }
    ActsStop(c.env, old(c.View()), doings, i);
    hide Acts;
    var published := Invoke(c, SnapshotPublication, now);
    fault := if published == Fine then fault else published;
  }

  method Perform(c: AccessController, doing: Doing) returns (fault: Fault)
    requires c.Valid()
    modifies c, c.tracker
    ensures Out(c.View(), fault) == ActOp(c.env, old(c.View()), doing)
  {
    hide TickOp, ProcessOp, Outside;
    fault := Fine;
    match doing.act
    case Ticking => fault := c.Tick(doing.at);
    case Submitting(record) =>
      var authorization, status;
      fault, authorization, status := c.Process(record, doing.at);
    case Calling(component) =>
      if IsOutside(component) {
        fault := Invoke(c, component, doing.at);
      }
  }

  /** Once an act has raised, the rest are not reached. */
  lemma {:induction false} ActsStop(env: Env, s: Sys, doings: seq<Doing>, i: nat)
    requires i <= |doings| && (i < |doings| ==> Acts(env, s, doings[..i]).fault != Fine)
    ensures Acts(env, s, doings) == Acts(env, s, doings[..i])
    decreases |doings|
  {
    if i == |doings| {
      assert doings[..i] == doings;
    } else {
      var n := |doings| - 1;
      assert doings[..n][..i] == doings[..i];
      assert i < n ==> Acts(env, s, doings[..n][..i]).fault != Fine;
      ActsStop(env, s, doings[..n], i);
    }
  }

  method Construct(c: AccessController, now: real) returns (fault: Fault, made: Made)
    modifies c`trace
    ensures Tried(Out(c.View(), fault), made, []) == ConstructOp(c.env, old(c.View()), now)
  {
    hide Outside;
    made := Made(false, false, false, false);
    fault := Invoke(c, Construction, now);
    if fault != Fine {
      return;
    }
    made := made.(audit := true);
    fault := Invoke(c, Construction, now);
    if fault == Fine {
      fault := Invoke(c, Construction, now);
    }
    if fault != Fine {
      return;
    }
    made := made.(relay := true);
    fault := Invoke(c, Construction, now);
    if fault == Fine {
      made := made.(runtime := true);
    }
  }

  method StartRuntime(c: AccessController, now: real) returns (fault: Fault)
    modifies c
    ensures Out(c.View(), fault) == StartRuntimeOp(c.env, old(c.View()), now)
  {
    hide StartOp, Outside;
    fault := c.Start(now);
    if fault == Fine {
      fault := Invoke(c, HealthReport, now);
    }
    if fault == Fine {
      fault := Invoke(c, SnapshotPublication, now);
    }
  }

  /** The optional API: an ordinary failure to start it is retained and the door keeps working. */
  method StartApi(c: AccessController, now: real) returns (fault: Fault, api: bool, failures: seq<Fault>)
    modifies c`trace
    ensures Tried(Out(c.View(), fault), ALL.(api := api), failures) == StartApiOp(c.env, old(c.View()), now)
  {
    hide Outside, Guarded;
    failures := [];
    fault := Invoke(c, ApiStart, now);
    api := fault == Fine;
    if api {
      failures := Retain(c, HealthReport, now, failures);
      fault := Invoke(c, ApiStart, now);
      if fault == Fine {
        failures := Retain(c, ApiObservation, now, failures);
      }
    }
    if fault == Ordinary {
      failures := Retain(c, HealthReport, now, failures + [fault]);
      fault := Fine;
    }
  }

  method Enter(c: AccessController, apiEnabled: bool, now: real)
    returns (fault: Fault, made: Made, failures: seq<Fault>)
    modifies c
    ensures Tried(Out(c.View(), fault), made, failures) == EnterOp(c.env, apiEnabled, old(c.View()), now)
  {
    hide ConstructOp, StartRuntimeOp, StartApiOp, Outside;
    failures := [];
    fault, made := Construct(c, now);
    if fault != Fine {
      return;
    }
    ConstructMakes(c.env, old(c.View()), now);
    fault := Invoke(c, SignalHandlers, now);
    if fault == Fine {
      fault := StartRuntime(c, now);
    }
    if fault == Fine {
      if apiEnabled {
        var api;
        fault, api, failures := StartApi(c, now);
        made := made.(api := api);
      } else {
        fault := Invoke(c, HealthReport, now);
      }
    }
  }

  lemma ConstructMakes(env: Env, s: Sys, now: real)
    ensures var t := ConstructOp(env, s, now);
      t.failures == [] && (t.out.fault == Fine ==> t.made == ALL.(api := false))
  {
  }

  /** Everything inside the host's `try`. */
  method Serve(c: AccessController, apiEnabled: bool, iterations: seq<seq<Doing>>, now: real)
    returns (fault: Fault, made: Made, failures: seq<Fault>)
    requires c.Valid()
    modifies c, c.tracker
    ensures Tried(Out(c.View(), fault), made, failures) ==
            LoopOp(c.env, apiEnabled, EnterOp(c.env, apiEnabled, old(c.View()), now), iterations, now)
  {
    hide EnterOp, RunOnceOp, Guarded;
    fault, made, failures := Enter(c, apiEnabled, now);
    ghost var entered := Tried(Out(c.View(), fault), made, failures);
    var i := 0;
    while i < |iterations| && fault == Fine
      invariant i <= |iterations|
      invariant Tried(Out(c.View(), fault), made, failures) == LoopOp(c.env, apiEnabled, entered, iterations[..i], now)
      decreases |iterations| - i
    {
      assert iterations[..i + 1][..i] == iterations[..i];
      fault := RunOnce(c, iterations[i], now);
      if fault == Fine && apiEnabled {
        failures := Retain(c, ApiObservation, now, failures);
      }
      i := i + 1;
    }
    LoopStops(c.env, apiEnabled, entered, iterations, now, i);
  }

  lemma {:induction false} LoopStops(
    env: Env, apiEnabled: bool, t: Tried, iterations: seq<seq<Doing>>, now: real, i: nat)
    requires i <= |iterations|
    requires i < |iterations| ==> LoopOp(env, apiEnabled, t, iterations[..i], now).out.fault != Fine
    ensures LoopOp(env, apiEnabled, t, iterations, now) == LoopOp(env, apiEnabled, t, iterations[..i], now)
    decreases |iterations|
  {
    if i == |iterations| {
      assert iterations[..i] == iterations;
    } else {
      var n := |iterations| - 1;
      assert iterations[..n][..i] == iterations[..i];
      LoopStops(env, apiEnabled, t, iterations[..n], now, i);
    }
  }

  /** The handler of an exception that reached the host. */
  method HandleFailure(c: AccessController, now: real, failures: seq<Fault>) returns (retained: seq<Fault>)
    modifies c
    ensures Kept(c.View(), retained) == HandleOp(c.env, Kept(old(c.View()), failures), now)
  {
    hide Guarded, RecoverableFailureOp, Outside;
    retained := Retain(c, HealthReport, now, failures);
    var fault := c.RecoverableFailure(now);
    if fault == Fine {
      fault := Invoke(c, SnapshotPublication, now);
    }
    retained := if fault == Fine then retained else retained + [fault];
  }

  /** The runtime's shutdown: the relay first, then the reader and the health report, whatever raises. */
  method ShutDownRuntime(c: AccessController, now: real) returns (fault: Fault)
    modifies c
    ensures Out(c.View(), fault) == ShutDownRuntimeOp(c.env, old(c.View()), now)
  {
    hide ShutdownOp, Outside;
    fault := c.Shutdown(now);
    var closed := Invoke(c, ReaderClose, now);
    var reported := Invoke(c, HealthReport, now);
    var published := Invoke(c, SnapshotPublication, now);
    if published != Fine {
      fault := published;
    } else if fault != Fine || closed != Fine || reported != Fine {
      fault := Fatal;
    }
  }

  /** API stop and audit close come last. */
  method TakeDown(c: AccessController, made: Made, now: real, failures: seq<Fault>) returns (retained: seq<Fault>)
    modifies c`trace
    ensures Kept(c.View(), retained) == TakeDownOp(c.env, Kept(old(c.View()), failures), made, now)
  {
    hide Guarded;
    retained := failures;
    if made.api {
      retained := Retain(c, ApiStop, now, retained);
      if |retained| > |failures| {
        retained := Retain(c, HealthReport, now, retained);
      }
      retained := Retain(c, ApiObservation, now, retained);
    }
    if made.audit {
      retained := Retain(c, AuditClose, now, retained);
    }
  }

  /** The `except` and `finally` clauses. */
  method Leave(c: AccessController, fault: Fault, made: Made, now: real, failures: seq<Fault>)
    returns (retained: seq<Fault>)
    modifies c
    ensures Kept(c.View(), retained) ==
            FinallyOp(c.env, ExceptOp(c.env, Tried(Out(old(c.View()), fault), made, failures), now), made, now)
  {
    hide HandleOp, ShutDownRuntimeOp, CleanUpRelay, TakeDownOp;
    retained := failures;
    if fault != Fine {
      retained := retained + [fault];
      if made.runtime {
        retained := HandleFailure(c, now, retained);
      }
    }
    if made.runtime {
      var down := ShutDownRuntime(c, now);
      retained := if down == Fine then retained else retained + [down];
    }
    if made.relay {
      var clean := c.CleanUp(now);
      retained := if clean == Fine then retained else retained + [clean];
    }
    retained := TakeDown(c, made, now, retained);
  }

  /** For every pattern of exceptions: the whole trace and what is retained are those of `HostOp`, and the
      host ends normally exactly when it retained nothing. */
  method RunHardwareService(env: Env, apiEnabled: bool, iterations: seq<seq<Doing>>, start: real, end: real)
    returns (exit: int, failures: seq<Fault>, trace: seq<Attempt>)
    requires env.Valid() && env.adapter == RaspberryPi
    ensures exit == 0 <==> failures == []
    ensures var k := HostOp(env, apiEnabled, iterations, start, end); trace == k.s.trace && failures == k.failures
    ensures WasSetUp(trace) ==> Secured(trace)
    ensures exit == 0 ==> forall i :: 0 <= i < |trace| ==> trace[i].fault == Fine || MaySwallow(trace[i].effect)
    ensures exit == 0 && WasSetUp(trace) ==>
              exists p :: IsLastPin(trace, p) && (trace[p].fault != Fine <==> NotedAfter(trace, p))
  {
    hide EnterOp, LoopOp, ExceptOp, FinallyOp;
    var c := new AccessController(env);
    var fault, made;
    fault, made, failures := Serve(c, apiEnabled, iterations, start);
    failures := Leave(c, fault, made, end, failures);
    trace := c.trace;
    exit := if failures == [] then 0 else 1;
    HostSecures(env, apiEnabled, iterations, start, end);
    if exit == 0 {
      forall i | 0 <= i < |trace|
        ensures trace[i].fault == Fine || MaySwallow(trace[i].effect)
      {
        NormalExitMeansNoAlarm(env, apiEnabled, iterations, start, end, i);
      }
      if WasSetUp(trace) {
        var p := NormalExitTellsLastLow(env, apiEnabled, iterations, start, end);
      }
    }
  }
}
