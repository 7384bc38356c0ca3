/** What every run of the controller keeps, whatever fails. */
module ControllerSafety {
  import opened ReaderRecord
  import opened Options
  import opened Outcomes
  import opened Escalation
  import opened Controller

  // ---------------------------------------------------------------- a monitor over the trace

  /** What a reader of the trace knows about the relay, and what must come next. */
  datatype Watch = Watch(
    good: bool,                   // nothing out of place so far
    high: bool,                   // the last successful pin write was HIGH
    highAt: real,                 // when it was written
    lowFailed: bool,              // a LOW failed since the last HIGH
    asserted: bool,               // the last relay audit was RELAY_ASSERTED, not RELAY_RESTORED
    due: Due)

  /** What the last attempt calls for. */
  datatype Due = Nothing | Wrote(high: bool) | Announce(event: AuditEvent)

  const Blank := Watch(true, false, 0.0, false, false, Nothing)

  /** The rules for one more attempt: no HIGH while high; RELAY_ASSERTED exactly after a HIGH, and only
      when the last relay audit is not already RELAY_ASSERTED; RELAY_RESTORED only after a LOW, and only
      when it is; an event is enqueued exactly after it was audited as critical. */
  predicate Proper(w: Watch, effect: Effect) {
    match effect
    case Pin(high) => NothingDue(w) && (high ==> !w.high)
    case Append(event) =>
      && (event.kind == RelayAsserted <==> w.due == Wrote(true))
      && (event.kind == RelayAsserted ==> !w.asserted)
      && (event.kind == RelayRestored ==> w.due == Wrote(false) && w.asserted)
      && !w.due.Announce?
    case Enqueue(event) => w.due == Announce(event)
    case _ => NothingDue(w)
  }

  /** The last attempt was neither a HIGH waiting for its audit nor a critical audit waiting for its
      notification. */
  predicate NothingDue(w: Watch) {
    w.due != Wrote(true) && !w.due.Announce?
  }

  function Observe(w: Watch, a: Attempt): Watch {
    var good, fine := w.good && Proper(w, a.effect), a.fault == Fine;
    match a.effect
    case Pin(true) =>
      if fine then Watch(good, true, a.at, false, w.asserted, Wrote(true)) else w.(good := good, due := Nothing)
    case Pin(false) =>
      if fine then w.(good := good, high := false, due := Wrote(false))
      else w.(good := good, lowFailed := true, due := Nothing)
    case Append(event) =>
      w.(good := good,
         asserted := event.kind == RelayAsserted || (w.asserted && event.kind != RelayRestored),
         due := if event.kind == EscalationCritical && fine then Announce(event) else Nothing)
    case _ => w.(good := good, due := Nothing)
  }

  function Watched(trace: seq<Attempt>): Watch {
    if trace == [] then Blank else Observe(Watched(trace[..|trace| - 1]), trace[|trace| - 1])
  }

  lemma TryWatched(env: Env)
    ensures forall s: Sys, effect: Effect, now: real {:trigger Try(env, s, effect, now)} ::
      var out := Try(env, s, effect, now);
      Watched(out.s.trace) == Observe(Watched(s.trace), Attempt(effect, now, out.fault))
  {
  }

  // ---------------------------------------------------------------- the relay invariant

  predicate Accepting(state: ControllerState) {
    state == Initializing || state == Ready || state == Released
  }

  ghost predicate RelaySafe(env: Env, s: Sys) {
    var w := Watched(s.trace);
    && w.good && NothingDue(w)
    && w.high == s.relay.high
    && (s.state == Initializing || s.state == Ready ==> !w.high && s.deadline == None && !w.asserted)
    && (s.state == Released ==> w.high && s.deadline == Some(w.highAt + env.releaseSeconds) && w.asserted)
    && (s.state == Ready || s.state == Released ==> s.relay.channel)
    && (Accepting(s.state) ==> !s.relay.closed)
    && (w.high && s.state != Released ==> w.lowFailed)
  }

  /** How a pin command changes what the trace shows and the rest of the state. */
  lemma CommandWatched(env: Env, s: Sys, high: bool, now: real)
    ensures var out := Command(env, s, high, now);
      if !s.relay.channel || s.relay.closed then out == Out(s, Ordinary)
      else
        && Watched(out.s.trace) == Observe(Watched(s.trace), Attempt(Pin(high), now, out.fault))
        && out.s == s.(trace := out.s.trace,
                       relay := if out.fault == Fine then s.relay.(high := high) else s.relay)
  {
  }

  lemma AuditWatched(env: Env, s: Sys, kind: EventType, severity: Severity, detail: Detail, now: real)
    ensures var out := Audit(env, s, kind, severity, detail, now);
      && Watched(out.s.trace) == Observe(Watched(s.trace),
           Attempt(Append(AuditEvent(kind, severity, detail, s.state, now)), now, out.fault))
      && out.s == s.(trace := out.s.trace)
  {
  }

  /** Audits other than the relay's own and the critical escalation never disturb the invariant. */
  lemma PlainAuditSafe(env: Env, s: Sys, kind: EventType, severity: Severity, detail: Detail, now: real)
    requires RelaySafe(env, s)
    requires kind != RelayAsserted && kind != RelayRestored && kind != EscalationCritical
    ensures var out := Audit(env, s, kind, severity, detail, now);
      RelaySafe(env, out.s) && out.s == s.(trace := out.s.trace)
  {
    hide Watched, Audit;
    AuditWatched(env, s, kind, severity, detail, now);
  }

  lemma LowSafe(env: Env, s: Sys, now: real)
    requires RelaySafe(env, s) && !Accepting(s.state)
    ensures var out := Command(env, s, false, now);
      && RelaySafe(env, out.s)
      && out.s == s.(trace := out.s.trace, relay := out.s.relay)
  {
    hide Watched, Command;
    CommandWatched(env, s, false, now);
  }

  lemma SetUpSafe(env: Env, s: Sys, now: real)
    requires RelaySafe(env, s) && s.state == Initializing
    ensures var out := SetUpRelay(env, s, now);
      && RelaySafe(env, out.s) && (out.fault == Fine ==> out.s.relay.channel)
      && out.s == s.(trace := out.s.trace, relay := out.s.relay)
  {
  }

  lemma SecureAtStartSafe(env: Env, s: Sys, now: real)
    requires RelaySafe(env, s) && s.state == Initializing && s.relay.channel
    ensures RelaySafe(env, SecureAtStart(env, s, now).s)
  {
    hide Watched, Command, Audit;
    var low := Command(env, s, false, now);
    CommandWatched(env, s, false, now);
    PlainAuditSafe(env, low.s.(state := Faulted), RelayControlError, CriticalLevel, Because("low_failed"), now);
    PlainAuditSafe(env, low.s.(lastHigh := Some(false), state := Ready), ServiceStarted, InfoLevel, NoDetail, now);
  }

  lemma StartSafe(env: Env, s: Sys, now: real)
    requires RelaySafe(env, s)
    ensures RelaySafe(env, StartOp(env, s, now).s)
  {
    hide Watched, SetUpRelay, SecureAtStart, Audit;
    if s.state == Initializing {
      var setup := SetUpRelay(env, s, now);
      SetUpSafe(env, s, now);
      if setup.fault == Fine {
        SecureAtStartSafe(env, setup.s, now);
      }
      PlainAuditSafe(env, setup.s.(state := Faulted), RelayControlError, CriticalLevel, Because("setup_failed"), now);
    }
  }

  lemma SuspiciousSafe(env: Env, s: Sys, now: real)
    requires RelaySafe(env, s)
    ensures RelaySafe(env, RecordSuspicious(env, s, now).s)
  {
    hide Watched, Advance, Audit, Try;
    var s1 := s.(tracker := Advance(env.policy, s.tracker, now).0);
    PlainAuditSafe(env, s1, EscalationWarning, WarningLevel, NoDetail, now);
    var event := AuditEvent(EscalationCritical, CriticalLevel, NoDetail, s1.state, now);
    var audited := Try(env, s1, Append(event), now);
    var queued := Try(env, audited.s, Enqueue(event), now);
    EscalationAttempts(env, s1, event, now);
    if audited.fault == Fine {
      PlainAuditSafe(env, queued.s, NotificationDeliveryFailed, ErrorLevel, Because("queue_unavailable"), now);
    }
  }

  lemma EscalationAttempts(env: Env, s: Sys, event: AuditEvent, now: real)
    requires RelaySafe(env, s) && event.kind == EscalationCritical
    ensures var audited := Try(env, s, Append(event), now);
      if audited.fault == Fine then RelaySafe(env, Try(env, audited.s, Enqueue(event), now).s)
      else RelaySafe(env, audited.s)
  {
  }

  /** Enough to command LOW from: a relay left high without a failed LOW can still be commanded. */
  ghost predicate Commandable(s: Sys) {
    var w := Watched(s.trace);
    && w.good && NothingDue(w) && w.high == s.relay.high
    && (w.high && !w.lowFailed ==> s.relay.channel && !s.relay.closed)
  }

  /** After the attempt to reach the safe state a relay that is still high is explained by a failed LOW. */
  lemma SafeStateSafe(env: Env, s: Sys, now: real)
    requires Commandable(s)
    ensures var out := AttemptSafeState(env, s, now).0;
      var w := Watched(out.s.trace);
      && out.s == s.(trace := out.s.trace, relay := s.relay.(high := w.high), lastHigh := out.s.lastHigh)
      && w.good && NothingDue(w) && w.highAt == Watched(s.trace).highAt && w.asserted == Watched(s.trace).asserted
      && (w.high ==> w.lowFailed)
      && (out.fault != Fine ==> w.high == s.relay.high)
      && (out.fault != Fine && s.relay.channel && !s.relay.closed ==> w.lowFailed)
  {
    hide Watched, Command, Audit;
    var low := Command(env, s, false, now);
    CommandWatched(env, s, false, now);
    AuditWatched(env, low.s, RelayControlError, CriticalLevel, Because("low_failed"), now);
  }

  lemma ReleaseSafe(env: Env, s: Sys, now: real)
    requires RelaySafe(env, s) && s.state == Ready
    ensures RelaySafe(env, Release(env, s, now).s)
  {
    hide Watched, Command, Audit, AttemptSafeState;
    var high := Command(env, s, true, now);
    CommandWatched(env, s, true, now);
    if high.fault == Ordinary {
      var audited := Audit(env, high.s, RelayControlError, CriticalLevel, Because("high_failed"), now);
      PlainAuditSafe(env, high.s, RelayControlError, CriticalLevel, Because("high_failed"), now);
      SafeStateSafe(env, audited.s, now);
    } else if high.fault == Fine {
      var raised := high.s.(lastHigh := Some(true), deadline := Some(now + env.releaseSeconds), state := Released);
      AuditWatched(env, raised, RelayAsserted, InfoLevel, Lasting(env.releaseSeconds), now);
    }
  }

  lemma ProcessSafe(env: Env, s: Sys, record: RecordResult, now: real)
    requires RelaySafe(env, s)
    ensures RelaySafe(env, ProcessOp(env, s, record, now).s)
  {
    hide RelaySafe, Audit, RecordSuspicious, Release, Sanitise;
    if s.state == Ready || s.state == Released {
      match record
      case Malformed(reason) =>
        PlainAuditSafe(env, s, MalformedRecord, WarningLevel, Because(Sanitise(reason)), now);
        SuspiciousSafe(env, Audit(env, s, MalformedRecord, WarningLevel, Because(Sanitise(reason)), now).s, now);
      case Parsed(credential) =>
        var kind := match env.classify(credential)
          case Denied => CredentialDenied
          case Unknown => CredentialUnknown
          case Authorized => CredentialAuthorized;
        var severity := if kind == CredentialAuthorized then InfoLevel else WarningLevel;
        PlainAuditSafe(env, s, kind, severity, NoDetail, now);
        var audited := Audit(env, s, kind, severity, NoDetail, now).s;
        if kind != CredentialAuthorized {
          SuspiciousSafe(env, audited, now);
        } else if audited.state == Ready {
          ReleaseSafe(env, audited, now);
        }
    }
  }

  lemma TickSafe(env: Env, s: Sys, now: real)
    requires RelaySafe(env, s)
    ensures RelaySafe(env, TickOp(env, s, now).s)
  {
    hide Watched, Command, Audit;
    if s.state == Released {
      var low := Command(env, s, false, now);
      CommandWatched(env, s, false, now);
      AuditWatched(env, low.s.(state := Faulted), RelayControlError, CriticalLevel, Because("low_failed"), now);
      AuditWatched(env, low.s.(lastHigh := Some(false), deadline := None, state := Ready),
                   RelayRestored, InfoLevel, NoDetail, now);
    }
  }

  lemma RecoverableFailureSafe(env: Env, s: Sys, now: real)
    requires RelaySafe(env, s)
    ensures RelaySafe(env, RecoverableFailureOp(env, s, now).s)
  {
    hide Watched, Command, Audit, AttemptSafeState;
    var safe := AttemptSafeState(env, s, now).0;
    SafeStateSafe(env, s, now);
    if safe.fault == Fine {
      PlainAuditSafe(env, safe.s.(deadline := None, state := Faulted), RelayControlError, ErrorLevel, NoDetail, now);
    }
  }

  lemma CleanUpSafe(env: Env, s: Sys, now: real)
    requires RelaySafe(env, s) && !Accepting(s.state)
    ensures var out := CleanUpRelay(env, s, now);
      RelaySafe(env, out.s) && out.s == s.(trace := out.s.trace, relay := out.s.relay)
  {
    hide Watched, Command;
    TryWatched(env);
    LowSafe(env, s, now);
  }

  lemma FinishShutdownSafe(env: Env, s: Sys, safe: bool, now: real)
    requires RelaySafe(env, s) && s.state == ShuttingDown
    ensures RelaySafe(env, FinishShutdown(env, s, safe, now).s)
  {
    hide Watched, Audit, CleanUpRelay;
    CleanUpSafe(env, s, now);
    var clean := CleanUpRelay(env, s, now);
    PlainAuditSafe(env, clean.s, RelayControlError, CriticalLevel, Because("cleanup_failed"), now);
    PlainAuditSafe(env, clean.s.(state := Stopped), ServiceShutdown, InfoLevel, NoDetail, now);
  }

  lemma ShutdownSafe(env: Env, s: Sys, now: real)
    requires RelaySafe(env, s)
    ensures RelaySafe(env, ShutdownOp(env, s, now).s)
  {
    hide Watched, AttemptSafeState, FinishShutdown;
    if s.state != Stopped {
      var closing := s.(state := ShuttingDown);
      var (attempt, safe) := AttemptSafeState(env, closing, now);
      SafeStateSafe(env, closing, now);
      FinishShutdownSafe(env, attempt.s.(deadline := None), safe, now);
    }
  }

  lemma StepSafe(env: Env, s: Sys, call: Call)
    requires RelaySafe(env, s)
    ensures RelaySafe(env, Step(env, s, call).s)
  {
    hide RelaySafe, StartOp, ProcessOp, TickOp, RecoverableFailureOp, ShutdownOp;
    match call.op
    case Start => StartSafe(env, s, call.at);
    case Process(record) => ProcessSafe(env, s, record, call.at);
    case Tick => TickSafe(env, s, call.at);
    case RecoverableFailure => RecoverableFailureSafe(env, s, call.at);
    case Shutdown => ShutdownSafe(env, s, call.at);
  }

  /** Whatever calls are made and whatever fails. */
  lemma {:induction false} RunSafe(env: Env, calls: seq<Call>)
    ensures RelaySafe(env, Run(env, calls))
  {
    if calls != [] {
      RunSafe(env, calls[..|calls| - 1]);
      StepSafe(env, Run(env, calls[..|calls| - 1]), calls[|calls| - 1]);
    }
  }
}
