/** The production host as a function of what raises: the door is secured before anything else is taken down. */
module HostRun {
  import opened ReaderRecord
  import opened Options
  import opened Outcomes
  import opened Escalation
  import opened Controller

  // ---------------------------------------------------------------- reading the exit off the trace

  datatype Exit = Exit(
    setUp: bool,            // the relay was set up
    pin: Option<bool>,      // the last pin output attempted
    cleaned: bool,          // a GPIO cleanup was attempted after it
    leaving: bool,          // API stop or audit close has been attempted
    late: bool,             // the pin or its cleanup was touched after that
    pinFailed: bool,        // that last pin output raised
    noted: bool,            // a failed cleanup was audited after it
    alarmed: bool)          // a setup, an audit append or a call of another component raised

  predicate IsLeaving(effect: Effect) {
    effect == External(ApiStop) || effect == External(AuditClose)
  }

  /** The audit event with which the controller reports that its cleanup of the relay failed. */
  predicate NotesCleanup(effect: Effect) {
    effect.Append? && effect.event.kind == RelayControlError && effect.event.detail == Because("cleanup_failed")
  }

  function See(x: Exit, a: Attempt): Exit {
    var raised := a.fault != Fine;
    match a.effect
    case SetUp => x.(setUp := x.setUp || !raised, alarmed := x.alarmed || raised)
    case Pin(high) =>
      x.(pin := Some(high), cleaned := false, late := x.late || x.leaving, pinFailed := raised, noted := false)
    case CleanUp => x.(cleaned := true, late := x.late || x.leaving)
    case Append(_) => x.(noted := x.noted || NotesCleanup(a.effect), alarmed := x.alarmed || raised)
    case Enqueue(_) => x
    case External(_) => x.(leaving := x.leaving || IsLeaving(a.effect), alarmed := x.alarmed || raised)
  }

  function Seen(trace: seq<Attempt>): Exit {
    if trace == [] then Exit(false, None, false, false, false, false, false, false)
    else See(Seen(trace[..|trace| - 1]), trace[|trace| - 1])
  }

  lemma SeenNothing()
    ensures var x := Seen([]); x.pin == None && !x.cleaned && !x.leaving && !x.setUp && !x.alarmed
  {
  }

  lemma SeenStep(trace: seq<Attempt>)
    requires trace != []
    ensures Seen(trace) == See(Seen(trace[..|trace| - 1]), trace[|trace| - 1])
  {
  }

  lemma TrySeen(env: Env)
    ensures forall s: Sys, effect: Effect, now: real {:trigger Try(env, s, effect, now)} ::
      var out := Try(env, s, effect, now);
      Seen(out.s.trace) == See(Seen(s.trace), Attempt(effect, now, out.fault))
  {
  }

  /** The last pin output attempted is LOW, a GPIO cleanup was attempted after it, and neither came after
      API stop or audit close. */
  ghost predicate Secured(trace: seq<Attempt>) {
    exists p, q {:trigger trace[p], trace[q]} ::
      && 0 <= p < q < |trace|
      && trace[p].effect == Pin(false)
      && (forall k :: p < k < |trace| ==> !trace[k].effect.Pin?)
      && trace[q].effect == CleanUp
      && (forall k :: 0 <= k <= q ==> !IsLeaving(trace[k].effect))
  }

  predicate Safe(x: Exit) {
    x.pin == Some(false) && x.cleaned && !x.late
  }

  lemma SafeMeansSecured(trace: seq<Attempt>)
    requires Safe(Seen(trace))
    ensures Secured(trace)
  {
    var p := LastPin(trace);
    var q := LastCleanUp(trace);
    assert trace[p].effect == Pin(false) && trace[q].effect == CleanUp;
  }

  /** How the last attempt changes what is known of the pin. */
  lemma SeenPin(trace: seq<Attempt>)
    requires trace != []
    ensures var a, x, y := trace[|trace| - 1], Seen(trace[..|trace| - 1]), Seen(trace);
      if a.effect.Pin? then y.pin == Some(a.effect.high) && y.pinFailed == (a.fault != Fine) && !y.noted
      else y.pin == x.pin && y.pinFailed == x.pinFailed && y.noted == (x.noted || NotesCleanup(a.effect))
  {
    hide Seen;
    SeenStep(trace);
  }

  ghost predicate IsLastPin(trace: seq<Attempt>, p: int) {
    0 <= p < |trace| && trace[p].effect.Pin? && forall k :: p < k < |trace| ==> !trace[k].effect.Pin?
  }

  ghost predicate NotedAfter(trace: seq<Attempt>, p: int) {
    exists k :: p < k < |trace| && 0 <= k && NotesCleanup(trace[k].effect)
  }

  lemma LastPinAtEnd(trace: seq<Attempt>)
    requires trace != [] && trace[|trace| - 1].effect.Pin?
    ensures IsLastPin(trace, |trace| - 1)
  {
  }

  lemma LastPinSurvives(trace: seq<Attempt>, p: int)
    requires trace != [] && 0 <= p < |trace| - 1
    requires IsLastPin(trace[..|trace| - 1], p) && !trace[|trace| - 1].effect.Pin?
    ensures IsLastPin(trace, p) && trace[..|trace| - 1][p] == trace[p]
  {
    var front := trace[..|trace| - 1];
    forall k | p < k < |trace|
      ensures !trace[k].effect.Pin?
    {
      assert k < |front| ==> trace[k] == front[k];
    }
  }

  lemma {:induction false} LastPin(trace: seq<Attempt>) returns (p: nat)
    requires Seen(trace).pin.Some?
    ensures p < |trace| && IsLastPin(trace, p) && trace[p].effect == Pin(Seen(trace).pin.value)
    ensures trace[p].fault != Fine <==> Seen(trace).pinFailed
  {
    hide Seen, IsLastPin, NotesCleanup;
    SeenNothing();
    SeenPin(trace);
    var n := |trace| - 1;
    if trace[n].effect.Pin? {
      p := n;
      LastPinAtEnd(trace);
    } else {
      p := LastPin(trace[..n]);
      LastPinSurvives(trace, p);
    }
  }

  lemma {:induction false} NotedIsSeen(trace: seq<Attempt>, p: nat)
    requires p < |trace| && IsLastPin(trace, p)
    ensures Seen(trace).noted <==> NotedAfter(trace, p)
    decreases |trace|
  {
    hide Seen, NotesCleanup;
    SeenPin(trace);
    var n := |trace| - 1;
    if p < n {
      LastPinBefore(trace, p);
      NotedStep(trace, p);
      assert !trace[n].effect.Pin?;
      hide IsLastPin, NotedAfter;
      NotedIsSeen(trace[..n], p);
    }
  }

  lemma LastPinBefore(trace: seq<Attempt>, p: int)
    requires IsLastPin(trace, p) && p < |trace| - 1
    ensures IsLastPin(trace[..|trace| - 1], p)
  {
    var front := trace[..|trace| - 1];
    forall k | p < k < |front|
      ensures !front[k].effect.Pin?
    {
      assert front[k] == trace[k];
    }
  }

  lemma NotedStep(trace: seq<Attempt>, p: nat)
    requires p < |trace| - 1
    ensures NotedAfter(trace, p) <==>
            NotedAfter(trace[..|trace| - 1], p) || NotesCleanup(trace[|trace| - 1].effect)
  {
    var front := trace[..|trace| - 1];
    if NotedAfter(front, p) {
      var k :| p < k < |front| && NotesCleanup(front[k].effect);
      assert trace[k] == front[k];
    }
    if NotedAfter(trace, p) {
      var k :| p < k < |trace| && NotesCleanup(trace[k].effect);
      assert k < |front| ==> front[k] == trace[k];
    }
  }

  lemma {:induction false} NothingTakenDown(trace: seq<Attempt>)
    requires !Seen(trace).leaving
    ensures forall k :: 0 <= k < |trace| ==> !IsLeaving(trace[k].effect)
  {
    if trace != [] {
      hide Seen;
      SeenStep(trace);
      NothingTakenDown(trace[..|trace| - 1]);
    }
  }

  lemma {:induction false} LastCleanUp(trace: seq<Attempt>) returns (q: nat)
    requires Seen(trace).cleaned && !Seen(trace).late
    ensures q < |trace| && trace[q].effect == CleanUp
    ensures forall k :: q < k < |trace| ==> !trace[k].effect.Pin?
    ensures forall k :: 0 <= k <= q ==> !IsLeaving(trace[k].effect)
  {
    hide Seen;
    SeenNothing();
    SeenStep(trace);
    var n := |trace| - 1;
    if trace[n].effect == CleanUp {
      q := n;
      NothingTakenDown(trace[..n]);
    } else {
      q := LastCleanUp(trace[..n]);
    }
  }

  // ---------------------------------------------------------------- what the controller keeps

  /** Nothing has been taken down yet and the relay is still the controller's to command. */
  ghost predicate InService(relay: Relay, trace: seq<Attempt>) {
    var x := Seen(trace);
    relay.adapter == RaspberryPi && !x.leaving && !x.late && (x.setUp ==> relay.channel) && !relay.closed
  }

  /** The same on the way out: a relay that is closed was closed in the right way. */
  ghost predicate WindingDown(relay: Relay, trace: seq<Attempt>) {
    var x := Seen(trace);
    && relay.adapter == RaspberryPi && !x.leaving && !x.late && (x.setUp ==> relay.channel)
    && (relay.closed ==> Safe(x))
  }

  /** Of a closed relay, the audit log tells whether its last pin output raised. */
  ghost predicate Told(relay: Relay, trace: seq<Attempt>) {
    relay.closed ==> (Seen(trace).pinFailed <==> Seen(trace).noted)
  }

  ghost predicate Alarmed(trace: seq<Attempt>) {
    Seen(trace).alarmed
  }

  lemma PrimitivesKeepService(env: Env)
    ensures forall s: Sys, effect: Effect, now: real {:trigger Try(env, s, effect, now)} ::
      InService(s.relay, s.trace) && (effect.Append? || effect.Enqueue? || (effect.External? && !IsLeaving(effect))) ==>
        var t := Try(env, s, effect, now).s; InService(t.relay, t.trace)
    ensures forall s: Sys, effect: Effect, now: real {:trigger Try(env, s, effect, now)} ::
      Alarmed(Try(env, s, effect, now).s.trace) ==>
        Alarmed(s.trace)
        || (Try(env, s, effect, now).fault != Fine && !effect.Enqueue? && !effect.Pin? && effect != CleanUp)
    ensures forall s: Sys, high: bool, now: real {:trigger Command(env, s, high, now)} ::
      InService(s.relay, s.trace) ==>
        var t := Command(env, s, high, now).s; InService(t.relay, t.trace) && (Alarmed(t.trace) ==> Alarmed(s.trace))
  {
    hide Seen;
    TrySeen(env);
  }

  ghost predicate Serving(s: Sys) {
    InService(s.relay, s.trace)
  }

  /** A call keeps the host in service, and whatever it does not swallow makes it raise. */
  ghost predicate Serves(s: Sys, out: Out) {
    Serving(out.s) && (Alarmed(out.s.trace) ==> Alarmed(s.trace) || out.fault != Fine)
  }

  lemma SafeStateServes(env: Env, s: Sys, now: real)
    requires Serving(s)
    ensures Serves(s, AttemptSafeState(env, s, now).0)
  {
    PrimitivesKeepService(env);
    hide InService, Alarmed, Command;
  }

  lemma StartServes(env: Env, s: Sys, now: real)
    requires Serving(s)
    ensures Serves(s, StartOp(env, s, now))
  {
    hide Seen;
    TrySeen(env);
    assert Serves(s, SetUpRelay(env, s, now));
    PrimitivesKeepService(env);
    hide InService, Alarmed, Command, SetUpRelay;
  }

  lemma SuspiciousServes(env: Env, s: Sys, now: real)
    requires Serving(s)
    ensures Serves(s, RecordSuspicious(env, s, now))
  {
    PrimitivesKeepService(env);
    hide InService, Alarmed;
  }

  lemma ReleaseServes(env: Env, s: Sys, now: real)
    requires Serving(s)
    ensures Serves(s, Release(env, s, now))
  {
    PrimitivesKeepService(env);
    hide InService, Alarmed, Command, AttemptSafeState;
    var high := Command(env, s, true, now);
    var audited := Audit(env, high.s, RelayControlError, CriticalLevel, Because("high_failed"), now);
    SafeStateServes(env, audited.s, now);
  }

  lemma AuditServes(env: Env, s: Sys, kind: EventType, severity: Severity, detail: Detail, now: real)
    requires Serving(s)
    ensures var out := Audit(env, s, kind, severity, detail, now);
      && Serves(s, out)
      && (out.fault == Fine ==> Serves(s, RecordSuspicious(env, out.s, now)) && Serves(s, Release(env, out.s, now)))
  {
    PrimitivesKeepService(env);
    hide InService, Alarmed, RecordSuspicious, Release;
    var out := Audit(env, s, kind, severity, detail, now);
    SuspiciousServes(env, out.s, now);
    ReleaseServes(env, out.s, now);
  }

  lemma ProcessServes(env: Env, s: Sys, record: RecordResult, now: real)
    requires Serving(s)
    ensures Serves(s, ProcessOp(env, s, record, now))
  {
    hide InService, Alarmed, RecordSuspicious, Release, Sanitise, Audit;
    match record
    case Malformed(reason) =>
      AuditServes(env, s, MalformedRecord, WarningLevel, Because(Sanitise(reason)), now);
    case Parsed(credential) =>
      match env.classify(credential)
      case Denied => AuditServes(env, s, CredentialDenied, WarningLevel, NoDetail, now);
      case Unknown => AuditServes(env, s, CredentialUnknown, WarningLevel, NoDetail, now);
      case Authorized => AuditServes(env, s, CredentialAuthorized, InfoLevel, NoDetail, now);
  }

  lemma TickServes(env: Env, s: Sys, now: real)
    requires Serving(s)
    ensures Serves(s, TickOp(env, s, now))
  {
    PrimitivesKeepService(env);
    hide InService, Alarmed, Command;
  }

  lemma RecoverableFailureServes(env: Env, s: Sys, now: real)
    requires Serving(s)
    ensures Serves(s, RecoverableFailureOp(env, s, now))
  {
    PrimitivesKeepService(env);
    hide InService, Alarmed, AttemptSafeState;
    SafeStateServes(env, s, now);
  }

  // ---------------------------------------------------------------- what the last cleanup leaves

  ghost predicate Winding(s: Sys) {
    WindingDown(s.relay, s.trace)
  }

  /** A step of the way out; if it raises nothing, the audit log tells how the last pin output ended. */
  ghost predicate Winds(s: Sys, out: Out) {
    && Winding(out.s) && (Alarmed(out.s.trace) ==> Alarmed(s.trace) || out.fault != Fine)
    && (out.fault == Fine ==> Told(out.s.relay, out.s.trace))
  }

  lemma CleanUpWinds(env: Env, s: Sys, now: real)
    requires Serving(s)
    ensures var out := CleanUpRelay(env, s, now);
      var x := Seen(out.s.trace);
      && Winding(out.s) && (Alarmed(out.s.trace) ==> Alarmed(s.trace))
      && (out.s.relay.closed ==> !x.noted && (x.pinFailed <==> out.fault != Fine))
  {
    hide Seen;
    TrySeen(env);
  }

  lemma AuditWinds(env: Env, s: Sys, kind: EventType, severity: Severity, detail: Detail, now: real)
    requires Winding(s)
    ensures var out := Audit(env, s, kind, severity, detail, now);
      var x, y := Seen(s.trace), Seen(out.s.trace);
      && Winding(out.s) && (Alarmed(out.s.trace) ==> Alarmed(s.trace) || out.fault != Fine)
      && y.pinFailed == x.pinFailed && out.s.relay == s.relay
      && (y.noted <==> x.noted || (kind == RelayControlError && detail == Because("cleanup_failed")))
  {
    hide Seen;
    TrySeen(env);
  }

  lemma FinishWinds(env: Env, s: Sys, safe: bool, now: real)
    requires Serving(s)
    ensures Winds(s, FinishShutdown(env, s, safe, now))
  {
    CleanUpWinds(env, s, now);
    hide WindingDown, Alarmed, Seen, CleanUpRelay, Audit;
    var clean := CleanUpRelay(env, s, now);
    AuditWinds(env, clean.s, RelayControlError, CriticalLevel, Because("cleanup_failed"), now);
    AuditWinds(env, clean.s.(state := Stopped), ServiceShutdown, InfoLevel, NoDetail, now);
  }

  lemma ShutdownWinds(env: Env, s: Sys, now: real)
    requires Serving(s)
    ensures Winds(s, ShutdownOp(env, s, now))
  {
    hide InService, WindingDown, Alarmed, Told, AttemptSafeState, FinishShutdown;
    var closing := s.(state := ShuttingDown);
    SafeStateServes(env, closing, now);
    var (attempt, safe) := AttemptSafeState(env, closing, now);
    FinishWinds(env, attempt.s.(deadline := None), safe, now);
    ServingWinds(s);
    ServingWinds(attempt.s);
  }

  lemma ServingWinds(s: Sys)
    requires Serving(s)
    ensures Winding(s) && Told(s.relay, s.trace)
  {
  }

  /** The host's own cleanup of a relay that was set up leaves it secured, whatever fails in it; and if it
      raises nothing, the audit log tells how the last pin output ended. */
  lemma CleanUpSecures(env: Env, s: Sys, now: real)
    requires Winding(s) && s.relay.channel
    ensures var out := CleanUpRelay(env, s, now);
      var x := Seen(out.s.trace);
      && Safe(x) && !x.leaving && (Alarmed(out.s.trace) ==> Alarmed(s.trace))
      && (out.fault == Fine && Told(s.relay, s.trace) ==> (x.pinFailed <==> x.noted))
  {
    hide Seen;
    TrySeen(env);
  }

  // ---------------------------------------------------------------- the host, as a function of the faults

  /** What a runtime iteration may do: tick the controller, submit a record, or call another component. */
  datatype Act = Ticking | Submitting(record: RecordResult) | Calling(component: Component)

  datatype Doing = Doing(act: Act, at: real)

  /** How far construction got. */
  datatype Made = Made(audit: bool, relay: bool, runtime: bool, api: bool)

  /** The state after some steps of the host, and the exceptions it has retained. */
  datatype Kept = Kept(s: Sys, failures: seq<Fault>)

  /** The same while the host's `try` is running: what got out of it, and what was made. */
  datatype Tried = Tried(out: Out, made: Made, failures: seq<Fault>)

  predicate IsOutside(component: Component) {
    component != ApiStop && component != AuditClose
  }

  function Retained(failures: seq<Fault>, fault: Fault): seq<Fault> {
    if fault == Fine then failures else failures + [fault]
  }

  /** Another component is called; it may raise. */
  function Outside(env: Env, s: Sys, component: Component, now: real): Out {
    Try(env, s, External(component), now)
  }

  /** The same, inside a handler that retains what is raised. */
  function Guarded(env: Env, k: Kept, component: Component, now: real): Kept {
    var out := Outside(env, k.s, component, now);
    Kept(out.s, Retained(k.failures, out.fault))
  }

  function ActOp(env: Env, s: Sys, doing: Doing): Out {
    match doing.act
    case Ticking => TickOp(env, s, doing.at)
    case Submitting(record) => ProcessOp(env, s, record, doing.at)
    case Calling(component) => if IsOutside(component) then Outside(env, s, component, doing.at) else Out(s, Fine)
  }

  /** The acts up to the first exception. */
  function Acts(env: Env, s: Sys, doings: seq<Doing>): Out {
    if doings == [] then Out(s, Fine)
    else
      var before :- Acts(env, s, doings[..|doings| - 1]);
      ActOp(env, before, doings[|doings| - 1])
  }

  /** One pass of the runtime loop: its acts, then the snapshot in any case. */
  function RunOnceOp(env: Env, s: Sys, doings: seq<Doing>, now: real): Out {
    var acts := Acts(env, s, doings);
    var published := Outside(env, acts.s, SnapshotPublication, now);
    Out(published.s, if published.fault == Fine then acts.fault else published.fault)
  }

  function ConstructOp(env: Env, s: Sys, now: real): Tried {
    var audit := Outside(env, s, Construction, now);
    if audit.fault != Fine then Tried(audit, Made(false, false, false, false), [])
    else
      var store := Outside(env, audit.s, Construction, now);
      if store.fault != Fine then Tried(store, Made(true, false, false, false), [])
      else
        var relay := Outside(env, store.s, Construction, now);
        if relay.fault != Fine then Tried(relay, Made(true, false, false, false), [])
        else
          var runtime := Outside(env, relay.s, Construction, now);
          Tried(runtime, Made(true, true, runtime.fault == Fine, false), [])
  }

  function StartRuntimeOp(env: Env, s: Sys, now: real): Out {
    var started :- StartOp(env, s, now);
    var reported :- Outside(env, started, HealthReport, now);
    Outside(env, reported, SnapshotPublication, now)
  }

  const ALL := Made(true, true, true, true)

  /** The optional API: an ordinary failure to start it is retained and the door keeps working. */
  function StartApiOp(env: Env, s: Sys, now: real): Tried {
    var factory := Outside(env, s, ApiStart, now);
    if factory.fault != Fine then ApiFailed(env, Kept(factory.s, []), factory.fault, ALL.(api := false), now)
    else
      var reported := Guarded(env, Kept(factory.s, []), HealthReport, now);
      var start := Outside(env, reported.s, ApiStart, now);
      var k := Kept(start.s, reported.failures);
      if start.fault != Fine then ApiFailed(env, k, start.fault, ALL, now)
      else
        var seen := Guarded(env, k, ApiObservation, now);
        Tried(Out(seen.s, Fine), ALL, seen.failures)
  }

  function ApiFailed(env: Env, k: Kept, fault: Fault, made: Made, now: real): Tried {
    if fault == Ordinary then
      var told := Guarded(env, Kept(k.s, k.failures + [fault]), HealthReport, now);
      Tried(Out(told.s, Fine), made, told.failures)
    else Tried(Out(k.s, fault), made, k.failures)
  }

  /** The host's `try`, up to the runtime loop. */
  function EnterOp(env: Env, apiEnabled: bool, s: Sys, now: real): Tried {
    var built := ConstructOp(env, s, now);
    if built.out.fault != Fine then built
    else
      var signals := Outside(env, built.out.s, SignalHandlers, now);
      if signals.fault != Fine then built.(out := signals)
      else
        var started := StartRuntimeOp(env, signals.s, now);
        if started.fault != Fine then built.(out := started)
        else if apiEnabled then StartApiOp(env, started.s, now)
        else built.(out := Outside(env, started.s, HealthReport, now))
  }

  /** The runtime loop; each pass that raises nothing is followed by a look at the API. */
  function LoopOp(env: Env, apiEnabled: bool, t: Tried, iterations: seq<seq<Doing>>, now: real): Tried {
    if iterations == [] then t
    else
      var n := |iterations| - 1;
      PassOp(env, apiEnabled, LoopOp(env, apiEnabled, t, iterations[..n], now), iterations[n], now)
  }

  function PassOp(env: Env, apiEnabled: bool, t: Tried, doings: seq<Doing>, now: real): Tried {
    if t.out.fault != Fine then t
    else
      var pass := RunOnceOp(env, t.out.s, doings, now);
      if pass.fault != Fine || !apiEnabled then t.(out := pass)
      else
        var seen := Guarded(env, Kept(pass.s, t.failures), ApiObservation, now);
        t.(out := Out(seen.s, Fine), failures := seen.failures)
  }

  /** The handler of an exception that reached the host. */
  function HandleOp(env: Env, k: Kept, now: real): Kept {
    var told := Guarded(env, k, HealthReport, now);
    var recovered := RecoverableFailureOp(env, told.s, now);
    var published := if recovered.fault == Fine then Outside(env, recovered.s, SnapshotPublication, now) else recovered;
    Kept(published.s, Retained(told.failures, published.fault))
  }

  /** The runtime's shutdown: the relay first, then the reader and the health report, whatever raises. */
  function ShutDownRuntimeOp(env: Env, s: Sys, now: real): Out {
    var down := ShutdownOp(env, s, now);
    var closed := Outside(env, down.s, ReaderClose, now);
    var reported := Outside(env, closed.s, HealthReport, now);
    var published := Outside(env, reported.s, SnapshotPublication, now);
    Out(published.s,
        if published.fault != Fine then published.fault
        else if down.fault != Fine || closed.fault != Fine || reported.fault != Fine then Fatal
        else Fine)
  }

  /** API stop and audit close come last. */
  function TakeDownOp(env: Env, k: Kept, made: Made, now: real): Kept {
    var stopped :=
      if !made.api then k
      else
        var stop := Guarded(env, k, ApiStop, now);
        var told := if |stop.failures| > |k.failures| then Guarded(env, stop, HealthReport, now) else stop;
        Guarded(env, told, ApiObservation, now);
    if made.audit then Guarded(env, stopped, AuditClose, now) else stopped
  }

  /** The host's `except` clause. */
  function ExceptOp(env: Env, t: Tried, now: real): Kept {
    if t.out.fault == Fine then Kept(t.out.s, t.failures)
    else
      var k := Kept(t.out.s, t.failures + [t.out.fault]);
      if t.made.runtime then HandleOp(env, k, now) else k
  }

  /** The host's `finally` clause. */
  function FinallyOp(env: Env, k: Kept, made: Made, now: real): Kept {
    var down := if made.runtime then ShutDownRuntimeOp(env, k.s, now) else Out(k.s, Fine);
    var clean := if made.relay then CleanUpRelay(env, down.s, now) else Out(down.s, Fine);
    TakeDownOp(env, Kept(clean.s, Retained(Retained(k.failures, down.fault), clean.fault)), made, now)
  }

  function HostOp(env: Env, apiEnabled: bool, iterations: seq<seq<Doing>>, start: real, end: real): Kept {
    var t := LoopOp(env, apiEnabled, EnterOp(env, apiEnabled, Initial(env), start), iterations, start);
    FinallyOp(env, ExceptOp(env, t, end), t.made, end)
  }

  // ---------------------------------------------------------------- what the host keeps while it serves

  lemma OutsideServes(env: Env, s: Sys, component: Component, now: real)
    requires Serving(s) && IsOutside(component)
    ensures var out := Outside(env, s, component, now);
      Serves(s, out) && out.s == s.(trace := out.s.trace)
  {
    PrimitivesKeepService(env);
    hide InService, Alarmed;
  }

  /** Some steps that stay in service, and retain whatever is not swallowed. */
  ghost predicate Keeps(k: Kept, l: Kept) {
    && Serving(l.s) && |k.failures| <= |l.failures|
    && (Alarmed(l.s.trace) ==> Alarmed(k.s.trace) || |k.failures| < |l.failures|)
  }

  lemma GuardedKeeps(env: Env, k: Kept, component: Component, now: real)
    requires Serving(k.s) && IsOutside(component)
    ensures Keeps(k, Guarded(env, k, component, now))
    ensures var l := Guarded(env, k, component, now); l.s == k.s.(trace := l.s.trace)
  {
    OutsideServes(env, k.s, component, now);
    hide InService, Alarmed, Outside;
  }

  lemma ActServes(env: Env, s: Sys, doing: Doing)
    requires Serving(s)
    ensures Serves(s, ActOp(env, s, doing))
  {
    hide InService, Alarmed, TickOp, ProcessOp, Outside;
    match doing.act
    case Ticking => TickServes(env, s, doing.at);
    case Submitting(record) => ProcessServes(env, s, record, doing.at);
    case Calling(component) =>
      if IsOutside(component) {
        OutsideServes(env, s, component, doing.at);
      }
  }

  lemma {:induction false} ActsServe(env: Env, s: Sys, doings: seq<Doing>)
    requires Serving(s)
    ensures Serves(s, Acts(env, s, doings))
    decreases |doings|
  {
    hide InService, Alarmed, ActOp;
    if doings != [] {
      var n := |doings| - 1;
      ActsServe(env, s, doings[..n]);
      var before := Acts(env, s, doings[..n]);
      if before.fault == Fine {
        ActServes(env, before.s, doings[n]);
      }
    }
  }

  lemma RunOnceServes(env: Env, s: Sys, doings: seq<Doing>, now: real)
    requires Serving(s)
    ensures Serves(s, RunOnceOp(env, s, doings, now))
  {
    hide InService, Alarmed, Acts, Outside;
    ActsServe(env, s, doings);
    OutsideServes(env, Acts(env, s, doings).s, SnapshotPublication, now);
  }

  /** The `try` is under way: nothing is set up without being on record as made. */
  ghost predicate Trying(t: Tried) {
    && Serving(t.out.s)
    && (Alarmed(t.out.s.trace) ==> t.out.fault != Fine || t.failures != [])
    && (t.out.s.relay.channel || t.made.runtime || t.out.fault == Fine ==> t.made.relay)
  }

  lemma ConstructTries(env: Env, s: Sys, now: real)
    requires Serving(s) && !Alarmed(s.trace) && !s.relay.channel
    ensures var t := ConstructOp(env, s, now);
      Trying(t) && t.failures == [] && (t.out.fault == Fine ==> t.made == ALL.(api := false))
  {
    hide InService, Alarmed, Outside;
    OutsideServes(env, s, Construction, now);
    var audit := Outside(env, s, Construction, now);
    OutsideServes(env, audit.s, Construction, now);
    var store := Outside(env, audit.s, Construction, now);
    OutsideServes(env, store.s, Construction, now);
    OutsideServes(env, Outside(env, store.s, Construction, now).s, Construction, now);
  }

  lemma StartRuntimeServes(env: Env, s: Sys, now: real)
    requires Serving(s)
    ensures Serves(s, StartRuntimeOp(env, s, now))
  {
    hide InService, Alarmed, StartOp, Outside;
    StartServes(env, s, now);
    var started := StartOp(env, s, now);
    OutsideServes(env, started.s, HealthReport, now);
    OutsideServes(env, Outside(env, started.s, HealthReport, now).s, SnapshotPublication, now);
  }

  lemma ApiFailedTries(env: Env, k: Kept, fault: Fault, made: Made, now: real)
    requires Serving(k.s) && fault != Fine && made.relay
    ensures var t := ApiFailed(env, k, fault, made, now); Trying(t) && t.made == made
  {
    hide InService, Alarmed, Guarded;
    GuardedKeeps(env, Kept(k.s, k.failures + [fault]), HealthReport, now);
  }

  lemma StartApiTries(env: Env, s: Sys, now: real)
    requires Serving(s) && !Alarmed(s.trace)
    ensures Trying(StartApiOp(env, s, now))
  {
    hide InService, Alarmed, Outside, Guarded, ApiFailed;
    OutsideServes(env, s, ApiStart, now);
    var factory := Outside(env, s, ApiStart, now);
    if factory.fault != Fine {
      ApiFailedTries(env, Kept(factory.s, []), factory.fault, ALL.(api := false), now);
    } else {
      GuardedKeeps(env, Kept(factory.s, []), HealthReport, now);
      var reported := Guarded(env, Kept(factory.s, []), HealthReport, now);
      OutsideServes(env, reported.s, ApiStart, now);
      var start := Outside(env, reported.s, ApiStart, now);
      if start.fault != Fine {
        ApiFailedTries(env, Kept(start.s, reported.failures), start.fault, ALL, now);
      } else {
        GuardedKeeps(env, Kept(start.s, reported.failures), ApiObservation, now);
      }
    }
  }

  lemma EnterTries(env: Env, apiEnabled: bool, s: Sys, now: real)
    requires Serving(s) && !Alarmed(s.trace) && !s.relay.channel
    ensures Trying(EnterOp(env, apiEnabled, s, now))
  {
    hide InService, Alarmed, Outside, ConstructOp, StartRuntimeOp, StartApiOp;
    ConstructTries(env, s, now);
    var built := ConstructOp(env, s, now);
    if built.out.fault == Fine {
      OutsideServes(env, built.out.s, SignalHandlers, now);
      var signals := Outside(env, built.out.s, SignalHandlers, now);
      StartRuntimeServes(env, signals.s, now);
      var started := StartRuntimeOp(env, signals.s, now);
      OutsideServes(env, started.s, HealthReport, now);
      if signals.fault == Fine && started.fault == Fine {
        StartApiTries(env, started.s, now);
      }
    }
  }

  lemma PassTries(env: Env, apiEnabled: bool, t: Tried, doings: seq<Doing>, now: real)
    requires Trying(t)
    ensures Trying(PassOp(env, apiEnabled, t, doings, now))
  {
    hide InService, Alarmed, RunOnceOp, Guarded;
    if t.out.fault == Fine {
      RunOnceServes(env, t.out.s, doings, now);
      var pass := RunOnceOp(env, t.out.s, doings, now);
      GuardedKeeps(env, Kept(pass.s, t.failures), ApiObservation, now);
    }
  }

  lemma {:induction false} LoopTries(env: Env, apiEnabled: bool, t: Tried, iterations: seq<seq<Doing>>, now: real)
    requires Trying(t)
    ensures Trying(LoopOp(env, apiEnabled, t, iterations, now))
    decreases |iterations|
  {
    hide Trying, PassOp;
    if iterations != [] {
      var n := |iterations| - 1;
      LoopTries(env, apiEnabled, t, iterations[..n], now);
      PassTries(env, apiEnabled, LoopOp(env, apiEnabled, t, iterations[..n], now), iterations[n], now);
    }
  }

  lemma HandleKeeps(env: Env, k: Kept, now: real)
    requires Serving(k.s)
    ensures Keeps(k, HandleOp(env, k, now))
  {
    hide InService, Alarmed, Guarded, RecoverableFailureOp, Outside;
    GuardedKeeps(env, k, HealthReport, now);
    var told := Guarded(env, k, HealthReport, now);
    RecoverableFailureServes(env, told.s, now);
    OutsideServes(env, RecoverableFailureOp(env, told.s, now).s, SnapshotPublication, now);
  }

  // ---------------------------------------------------------------- what the host leaves behind

  /** Out of service: if the relay was set up it is secured, and if nothing was retained the audit log tells
      how the last pin output ended. */
  ghost predicate Left(k: Kept) {
    var x := Seen(k.s.trace);
    && (x.setUp ==> Safe(x))
    && (x.setUp && k.failures == [] ==> (x.pinFailed <==> x.noted))
    && (k.failures == [] ==> !x.alarmed)
  }

  lemma GuardedLeft(env: Env, k: Kept, component: Component, now: real)
    requires Left(k)
    ensures Left(Guarded(env, k, component, now))
  {
    hide Seen;
    TrySeen(env);
  }

  lemma TakeDownLeft(env: Env, k: Kept, made: Made, now: real)
    requires Left(k)
    ensures Left(TakeDownOp(env, k, made, now))
  {
    hide Left, Guarded;
    var stopped := k;
    if made.api {
      var stop := Guarded(env, k, ApiStop, now);
      GuardedLeft(env, k, ApiStop, now);
      GuardedLeft(env, stop, HealthReport, now);
      var told := if |stop.failures| > |k.failures| then Guarded(env, stop, HealthReport, now) else stop;
      GuardedLeft(env, told, ApiObservation, now);
      stopped := Guarded(env, told, ApiObservation, now);
    }
    GuardedLeft(env, stopped, AuditClose, now);
  }

  lemma OutsideWinds(env: Env, s: Sys, component: Component, now: real)
    requires Winding(s) && IsOutside(component)
    ensures var out := Outside(env, s, component, now);
      && Winding(out.s) && (Alarmed(out.s.trace) ==> Alarmed(s.trace) || out.fault != Fine)
      && (Told(s.relay, s.trace) ==> Told(out.s.relay, out.s.trace))
  {
    hide Seen;
    TrySeen(env);
  }

  lemma ShutDownRuntimeWinds(env: Env, s: Sys, now: real)
    requires Serving(s)
    ensures Winds(s, ShutDownRuntimeOp(env, s, now))
  {
    hide InService, WindingDown, Alarmed, Told, ShutdownOp, Outside;
    ShutdownWinds(env, s, now);
    var down := ShutdownOp(env, s, now);
    OutsideWinds(env, down.s, ReaderClose, now);
    var closed := Outside(env, down.s, ReaderClose, now);
    OutsideWinds(env, closed.s, HealthReport, now);
    OutsideWinds(env, Outside(env, closed.s, HealthReport, now).s, SnapshotPublication, now);
  }

  lemma ExceptKeeps(env: Env, t: Tried, now: real)
    requires Trying(t)
    ensures var k := ExceptOp(env, t, now); Serving(k.s) && (Alarmed(k.s.trace) ==> k.failures != [])
    ensures !t.made.runtime ==> ExceptOp(env, t, now).s == t.out.s
  {
    hide InService, Alarmed, HandleOp;
    HandleKeeps(env, Kept(t.out.s, t.failures + [t.out.fault]), now);
  }

  lemma FinallyLeft(env: Env, k: Kept, made: Made, now: real)
    requires Serving(k.s) && (Alarmed(k.s.trace) ==> k.failures != [])
    requires k.s.relay.channel || made.runtime ==> made.relay
    ensures Left(FinallyOp(env, k, made, now))
  {
    ServingWinds(k.s);
    ShutDownRuntimeWinds(env, k.s, now);
    var down := if made.runtime then ShutDownRuntimeOp(env, k.s, now) else Out(k.s, Fine);
    var clean := if made.relay then CleanUpRelay(env, down.s, now) else Out(down.s, Fine);
    var last := Kept(clean.s, Retained(Retained(k.failures, down.fault), clean.fault));
    assert Left(last) by {
      hide Seen, ShutDownRuntimeOp, InService;
      if down.s.relay.channel {
        CleanUpSecures(env, down.s, now);
      }
    }
    hide Left, ShutDownRuntimeOp, CleanUpRelay, TakeDownOp;
    TakeDownLeft(env, last, made, now);
  }

  lemma InitialServes(env: Env)
    requires env.adapter == RaspberryPi
    ensures var s := Initial(env); Serving(s) && !Alarmed(s.trace) && !s.relay.channel
  {
  }

  lemma HostLeft(env: Env, apiEnabled: bool, iterations: seq<seq<Doing>>, start: real, end: real)
    requires env.adapter == RaspberryPi
    ensures Left(HostOp(env, apiEnabled, iterations, start, end))
  {
    hide InService, Alarmed, EnterOp, LoopOp, ExceptOp, FinallyOp, Left;
    InitialServes(env);
    var entered := EnterOp(env, apiEnabled, Initial(env), start);
    EnterTries(env, apiEnabled, Initial(env), start);
    LoopTries(env, apiEnabled, entered, iterations, start);
    var t := LoopOp(env, apiEnabled, entered, iterations, start);
    ExceptKeeps(env, t, end);
    FinallyLeft(env, ExceptOp(env, t, end), t.made, end);
  }

  ghost predicate WasSetUp(trace: seq<Attempt>) {
    exists i :: 0 <= i < |trace| && trace[i].effect == SetUp && trace[i].fault == Fine
  }

  /** For every pattern of exceptions: if the relay was ever set up, the door is secured, before the API and
      the audit log are taken down. */
  lemma HostSecures(env: Env, apiEnabled: bool, iterations: seq<seq<Doing>>, start: real, end: real)
    requires env.adapter == RaspberryPi
    ensures var trace := HostOp(env, apiEnabled, iterations, start, end).s.trace;
      WasSetUp(trace) ==> Secured(trace)
  {
    HostLeft(env, apiEnabled, iterations, start, end);
    hide HostOp, Secured;
    var trace := HostOp(env, apiEnabled, iterations, start, end).s.trace;
    if i :| 0 <= i < |trace| && trace[i].effect == SetUp && trace[i].fault == Fine {
      SetUpIsSeen(trace, i);
      SafeMeansSecured(trace);
    }
  }

  /** When nothing was retained, every setup, audit append and call of another component succeeded. */
  lemma NormalExitMeansNoAlarm(
    env: Env, apiEnabled: bool, iterations: seq<seq<Doing>>, start: real, end: real, i: nat)
    requires env.adapter == RaspberryPi
    requires var k := HostOp(env, apiEnabled, iterations, start, end); k.failures == [] && i < |k.s.trace|
    ensures var a := HostOp(env, apiEnabled, iterations, start, end).s.trace[i]; a.fault == Fine || MaySwallow(a.effect)
  {
    HostLeft(env, apiEnabled, iterations, start, end);
    hide HostOp;
    var trace := HostOp(env, apiEnabled, iterations, start, end).s.trace;
    if trace[i].fault != Fine && !MaySwallow(trace[i].effect) {
      RaisedIsSeen(trace, i);
    }
  }

  /** A normal exit does not mean that the last LOW worked. It failed exactly when the audit log holds a
      failed cleanup after it. */
  lemma NormalExitTellsLastLow(env: Env, apiEnabled: bool, iterations: seq<seq<Doing>>, start: real, end: real)
    returns (p: nat)
    requires env.adapter == RaspberryPi
    requires var k := HostOp(env, apiEnabled, iterations, start, end); k.failures == [] && WasSetUp(k.s.trace)
    ensures var trace := HostOp(env, apiEnabled, iterations, start, end).s.trace;
      && IsLastPin(trace, p) && trace[p].effect == Pin(false)
      && (trace[p].fault != Fine <==> NotedAfter(trace, p))
  {
    HostLeft(env, apiEnabled, iterations, start, end);
    hide HostOp;
    var trace := HostOp(env, apiEnabled, iterations, start, end).s.trace;
    var i :| 0 <= i < |trace| && trace[i].effect == SetUp && trace[i].fault == Fine;
    SetUpIsSeen(trace, i);
    hide Seen;
    p := LastPin(trace);
    NotedIsSeen(trace, p);
  }

  lemma {:induction false} SetUpIsSeen(trace: seq<Attempt>, i: nat)
    requires i < |trace| && trace[i].effect == SetUp && trace[i].fault == Fine
    ensures Seen(trace).setUp
  {
    hide Seen;
    SeenStep(trace);
    if i < |trace| - 1 {
      SetUpIsSeen(trace[..|trace| - 1], i);
    }
  }

  /** An attempt whose failure the controller or the relay may swallow. */
  predicate MaySwallow(effect: Effect) {
    effect.Pin? || effect == CleanUp || effect.Enqueue?
  }

  lemma {:induction false} RaisedIsSeen(trace: seq<Attempt>, i: nat)
    requires i < |trace| && trace[i].fault != Fine && !MaySwallow(trace[i].effect)
    ensures Seen(trace).alarmed
  {
    hide Seen;
    SeenStep(trace);
    if i < |trace| - 1 {
      RaisedIsSeen(trace[..|trace| - 1], i);
    }
  }

  // ---------------------------------------------------------------- a normal exit after a failed LOW

  /** The one failure is the LOW of the controller's cleanup of the relay. */
  ghost predicate OnlyCleanupLowFails(env: Env) {
    env.adapter == RaspberryPi && forall n :: env.faults(n) == if n == 12 then Ordinary else Fine
  }

  lemma QuietEntry(env: Env)
    requires OnlyCleanupLowFails(env)
    ensures var t := EnterOp(env, false, Initial(env), 0.0);
      && t.out.fault == Fine && t.failures == [] && t.made == ALL.(api := false)
      && |t.out.s.trace| == 11 && t.out.s.trace[5] == Attempt(Effect.SetUp, 0.0, Fine)
      && t.out.s.relay.channel && !t.out.s.relay.closed && t.out.s.state == Ready
      && t.out.s.relay.adapter == RaspberryPi
  {
    var built := ConstructOp(env, Initial(env), 0.0);
    assert |built.out.s.trace| == 4;
    var signals := Outside(env, built.out.s, SignalHandlers, 0.0);
    var wired := SetUpRelay(env, signals.s, 0.0);
    assert |wired.s.trace| == 6 && wired.s.trace[5] == Attempt(Effect.SetUp, 0.0, Fine);
    var started := StartRuntimeOp(env, signals.s, 0.0);
    assert |started.s.trace| == 10;
  }

  lemma QuietShutdown(env: Env, s: Sys)
    requires OnlyCleanupLowFails(env) && |s.trace| == 11 && s.state == Ready
    requires s.relay.channel && !s.relay.closed && s.relay.adapter == RaspberryPi
    ensures var out := ShutdownOp(env, s, 0.0);
      && out.fault == Fine && out.s.relay.closed && out.s.relay.channel && out.s.relay.adapter == RaspberryPi
      && |out.s.trace| == 15 && s.trace <= out.s.trace
      && out.s.trace[12] == Attempt(Pin(false), 0.0, Ordinary)
      && !out.s.trace[13].effect.Pin? && !out.s.trace[14].effect.Pin?
  {
    var (attempt, safe) := AttemptSafeState(env, s.(state := ShuttingDown), 0.0);
    assert |attempt.s.trace| == 12 && attempt.fault == Fine && safe;
    var clean := CleanUpRelay(env, attempt.s.(deadline := None), 0.0);
    assert |clean.s.trace| == 14 && clean.fault == Ordinary && clean.s.relay.closed;
  }

  /** The exit status does not tell whether the last LOW worked: the controller swallows the LOW that fails
      in its cleanup, and the relay is then already closed for the host's own. */
  lemma NormalExitAfterFailedLow(env: Env)
    requires OnlyCleanupLowFails(env)
    ensures var k := HostOp(env, false, [], 0.0, 0.0);
      && k.failures == [] && WasSetUp(k.s.trace)
      && IsLastPin(k.s.trace, 12) && k.s.trace[12] == Attempt(Pin(false), 0.0, Ordinary)
  {
    QuietEntry(env);
    var s := EnterOp(env, false, Initial(env), 0.0).out.s;
    QuietShutdown(env, s);
    var down := ShutdownOp(env, s, 0.0);
    QuietRuntime(env, s);
    var out := ShutDownRuntimeOp(env, s, 0.0);
    QuietTakeDown(env, out.s);
    hide EnterOp, ShutDownRuntimeOp, ShutdownOp, TakeDownOp;
    var k := HostOp(env, false, [], 0.0, 0.0);
    assert k == TakeDownOp(env, Kept(out.s, []), ALL.(api := false), 0.0);
    assert k.s.trace[5] == s.trace[5];
    assert forall i :: 12 <= i < 15 ==> k.s.trace[i] == down.s.trace[i];
  }

  lemma QuietRuntime(env: Env, s: Sys)
    requires OnlyCleanupLowFails(env)
    requires var down := ShutdownOp(env, s, 0.0); down.fault == Fine && |down.s.trace| == 15
    ensures var down, out := ShutdownOp(env, s, 0.0), ShutDownRuntimeOp(env, s, 0.0);
      && out.fault == Fine && out.s == down.s.(trace := out.s.trace)
      && |out.s.trace| == 18 && down.s.trace <= out.s.trace
      && forall k :: 15 <= k < 18 ==> !out.s.trace[k].effect.Pin?
  {
    hide ShutdownOp;
  }

  lemma QuietTakeDown(env: Env, s: Sys)
    requires OnlyCleanupLowFails(env) && |s.trace| == 18
    ensures var k := TakeDownOp(env, Kept(s, []), ALL.(api := false), 0.0);
      k.failures == [] && |k.s.trace| == 19 && s.trace <= k.s.trace && !k.s.trace[18].effect.Pin?
  {
  }

  // ---------------------------------------------------------------- every reaction is tried

  /** The effects attempted after `n` attempts. */
  function EffectsFrom(trace: seq<Attempt>, n: nat): seq<Effect>
    requires n <= |trace|
  {
    seq(|trace| - n, i requires 0 <= i < |trace| - n => trace[n + i].effect)
  }

  /** Whatever raises, the runtime's shutdown shuts the controller down, closes the reader, reports and
      publishes; and the controller's shutdown starts with LOW. */
  lemma EveryShutdownIsTried(env: Env, s: Sys, now: real)
    ensures var down, out := ShutdownOp(env, s, now).s, ShutDownRuntimeOp(env, s, now).s;
      && s.trace <= down.trace <= out.trace
      && EffectsFrom(out.trace, |down.trace|) ==
           [External(ReaderClose), External(HealthReport), External(SnapshotPublication)]
      && (s.state != Stopped && s.relay.channel && !s.relay.closed ==>
            |s.trace| < |down.trace| && down.trace[|s.trace|].effect == Pin(false))
  {
    ShutdownStartsLow(env, s, now);
    hide ShutdownOp;
  }

  lemma SafeStateStartsLow(env: Env, s: Sys, now: real)
    ensures var t := AttemptSafeState(env, s, now).0.s;
      && s.trace <= t.trace
      && (s.relay.channel && !s.relay.closed ==> |s.trace| < |t.trace| && t.trace[|s.trace|].effect == Pin(false))
  {
  }

  lemma FinishExtends(env: Env, s: Sys, safe: bool, now: real)
    ensures s.trace <= FinishShutdown(env, s, safe, now).s.trace
  {
  }

  lemma ShutdownStartsLow(env: Env, s: Sys, now: real)
    ensures var down := ShutdownOp(env, s, now).s;
      && s.trace <= down.trace
      && (s.state != Stopped && s.relay.channel && !s.relay.closed ==>
            |s.trace| < |down.trace| && down.trace[|s.trace|].effect == Pin(false))
  {
    hide AttemptSafeState, FinishShutdown;
    var closing := s.(state := ShuttingDown);
    SafeStateStartsLow(env, closing, now);
    var (attempt, safe) := AttemptSafeState(env, closing, now);
    FinishExtends(env, attempt.s.(deadline := None), safe, now);
  }

  /** Whatever raises, the handler of a failure reports it and then has the controller secure the relay. */
  lemma EveryReactionIsTried(env: Env, k: Kept, now: real)
    ensures var n, trace := |k.s.trace|, HandleOp(env, k, now).s.trace;
      && k.s.trace <= trace && n < |trace| && trace[n].effect == External(HealthReport)
      && (k.s.relay.channel && !k.s.relay.closed ==> n + 1 < |trace| && trace[n + 1].effect == Pin(false))
  {
  }
}
