/** The access controller, its relay adapters, and the trace of everything they attempt.

    Every call that leaves the controller (a pin write, an audit append, a queue write) is one attempt in
    a single trace. An arbitrary oracle decides, attempt by attempt, whether it succeeds, raises an
    ordinary exception, or raises one that `except Exception` does not catch. */
module Controller {
  import opened ReaderRecord
  import opened Options
  import opened Outcomes
  import opened Escalation

  // ---------------------------------------------------------------- audit events

  datatype ControllerState = Initializing | Ready | Released | Faulted | ShuttingDown | Stopped

  datatype EventType =
    | ServiceStarted | ServiceShutdown
    | CredentialAuthorized | CredentialDenied | CredentialUnknown | MalformedRecord
    | EscalationWarning | EscalationCritical
    | RelayAsserted | RelayRestored | RelayControlError
    | NotificationDeliveryFailed

  datatype Severity = InfoLevel | WarningLevel | ErrorLevel | CriticalLevel

  /** The correlation data of an event: at most one of the two keys the controller uses. */
  datatype Detail = NoDetail | Because(reason: string) | Lasting(seconds: real)

  datatype AuditEvent =
    AuditEvent(kind: EventType, severity: Severity, detail: Detail, state: ControllerState, at: real)

  function ReasonText(r: Reason): string {
    match r
    case InvalidLength => "invalid_length"
    case InvalidFraming => "invalid_framing"
    case InvalidTerminator => "invalid_terminator"
    case InvalidEncoding => "invalid_encoding"
    case InvalidIdentifier => "invalid_identifier"
    case InvalidChecksumEncoding => "invalid_checksum_encoding"
    case ChecksumMismatch => "checksum_mismatch"
    case ExcessiveLength => "excessive_length"
    case Other(text) => text
  }

  const READER_REASONS := {
    "invalid_length", "invalid_framing", "invalid_terminator", "invalid_encoding",
    "invalid_identifier", "invalid_checksum_encoding", "checksum_mismatch", "excessive_length"}

  function Sanitise(r: Reason): string {
    if ReasonText(r) in READER_REASONS then ReasonText(r) else "malformed_record"
  }

  // ---------------------------------------------------------------- attempts

  /** Calls the host makes around the controller. */
  datatype Component =
    | Construction | SignalHandlers | HealthReport | SnapshotPublication | ReaderCall | ReaderClose
    | ApiStart | ApiObservation | ApiStop | AuditClose

  datatype Effect =
    | SetUp
    | Pin(high: bool)
    | CleanUp
    | Append(event: AuditEvent)
    | Enqueue(event: AuditEvent)
    | External(component: Component)

  /** `Fatal` is a BaseException that is not an Exception. */
  datatype Fault = Fine | Ordinary | Fatal

  datatype Attempt = Attempt(effect: Effect, at: real, fault: Fault)

  datatype Adapter = Simulated | RaspberryPi

  datatype Relay = Relay(adapter: Adapter, channel: bool, closed: bool, high: bool)

  datatype Env = Env(
    adapter: Adapter,
    releaseSeconds: real,
    policy: Policy,
    classify: string -> Outcome,
    faults: nat -> Fault)
  {
    ghost predicate Valid() {
      releaseSeconds > 0.0 && policy.Valid()
    }
  }

  datatype Sys = Sys(
    state: ControllerState,
    deadline: Option<real>,
    lastHigh: Option<bool>,
    relay: Relay,
    tracker: Tracker,
    trace: seq<Attempt>)

  function Initial(env: Env): Sys {
    Sys(Initializing, None, None, Relay(env.adapter, false, false, false), Fresh, [])
  }

  /** A state and how the call that led to it ended. */
  datatype Out = Out(s: Sys, fault: Fault) {
    predicate IsFailure() {
      fault != Fine
    }
    function PropagateFailure(): Out {
      this
    }
    function Extract(): Sys {
      s
    }
  }

  function Try(env: Env, s: Sys, effect: Effect, now: real): Out {
    var f := env.faults(|s.trace|);
    Out(s.(trace := s.trace + [Attempt(effect, now, f)]), f)
  }

  /** A handler's own action raised, or else the exception being handled is raised again. */
  function Reraise(handler: Out, f: Fault): Out {
    if handler.fault == Fine then Out(handler.s, f) else handler
  }

  // ---------------------------------------------------------------- relay adapters

  function SetUpRelay(env: Env, s: Sys, now: real): Out {
    if s.relay.adapter == RaspberryPi && s.relay.channel then Out(s, Fine)
    else
      var s1 :- Try(env, s, SetUp, now);
      Out(s1.(relay := s1.relay.(channel := true)), Fine)
  }

  function Command(env: Env, s: Sys, high: bool, now: real): Out {
    if !s.relay.channel || s.relay.closed then Out(s, Ordinary)
    else
      var s1 :- Try(env, s, Pin(high), now);
      Out(s1.(relay := s1.relay.(high := high)), Fine)
  }

  function CleanUpRelay(env: Env, s: Sys, now: real): Out {
    if s.relay.adapter == Simulated then
      Try(env, s, CleanUp, now)
    else if !s.relay.channel || s.relay.closed then Out(s, Fine)
    else
      var low := Command(env, s, false, now);
      var freed := Try(env, low.s, CleanUp, now);
      if freed.fault != Fine then freed
      else Out(freed.s.(relay := freed.s.relay.(closed := true)), low.fault)
  }

  // ---------------------------------------------------------------- controller operations

  function Audit(env: Env, s: Sys, kind: EventType, severity: Severity, detail: Detail, now: real): Out {
    Try(env, s, Append(AuditEvent(kind, severity, detail, s.state, now)), now)
  }

  function LowFailed(env: Env, s: Sys, now: real): Out {
    Audit(env, s, RelayControlError, CriticalLevel, Because("low_failed"), now)
  }

  /** The relay is told LOW; an ordinary failure is audited and swallowed. */
  function AttemptSafeState(env: Env, s: Sys, now: real): (Out, bool) {
    var low := Command(env, s, false, now);
    match low.fault
    case Fine => (Out(low.s.(lastHigh := Some(false)), Fine), true)
    case Ordinary => (LowFailed(env, low.s, now), false)
    case Fatal => (low, false)
  }

  function RecordSuspicious(env: Env, s: Sys, now: real): Out {
    var (tracker, level) := Advance(env.policy, s.tracker, now);
    var s1 := s.(tracker := tracker);
    match level
    case Quiet => Out(s1, Fine)
    case Warning => Audit(env, s1, EscalationWarning, WarningLevel, NoDetail, now)
    case Critical =>
      var event := AuditEvent(EscalationCritical, CriticalLevel, NoDetail, s1.state, now);
      var s2 :- Try(env, s1, Append(event), now);
      var queued := Try(env, s2, Enqueue(event), now);
      if queued.fault == Ordinary then
        Audit(env, queued.s, NotificationDeliveryFailed, ErrorLevel, Because("queue_unavailable"), now)
      else queued
  }

  function StartOp(env: Env, s: Sys, now: real): Out {
    if s.state == Ready || s.state == Released then Out(s, Fine)
    else if s.state != Initializing then Out(s, Ordinary)
    else
      var setup := SetUpRelay(env, s, now);
      if setup.fault == Ordinary then
        Reraise(Audit(env, setup.s.(state := Faulted), RelayControlError, CriticalLevel,
                      Because("setup_failed"), now), Ordinary)
      else if setup.fault == Fatal then setup
      else SecureAtStart(env, setup.s, now)
  }

  function SecureAtStart(env: Env, s: Sys, now: real): Out {
    var low := Command(env, s, false, now);
    if low.fault == Ordinary then Reraise(LowFailed(env, low.s.(state := Faulted), now), Ordinary)
    else if low.fault == Fatal then low
    else Audit(env, low.s.(lastHigh := Some(false), state := Ready), ServiceStarted, InfoLevel, NoDetail, now)
  }

  function ProcessOp(env: Env, s: Sys, record: RecordResult, now: real): Out {
    if s.state != Ready && s.state != Released then Out(s, Ordinary)
    else
      match record
      case Malformed(reason) =>
        var s1 :- Audit(env, s, MalformedRecord, WarningLevel, Because(Sanitise(reason)), now);
        RecordSuspicious(env, s1, now)
      case Parsed(credential) => ProcessOutcome(env, s, env.classify(credential), now)
  }

  function ProcessOutcome(env: Env, s: Sys, outcome: Outcome, now: real): Out {
    match outcome
    case Denied =>
      var s1 :- Audit(env, s, CredentialDenied, WarningLevel, NoDetail, now);
      RecordSuspicious(env, s1, now)
    case Unknown =>
      var s1 :- Audit(env, s, CredentialUnknown, WarningLevel, NoDetail, now);
      RecordSuspicious(env, s1, now)
    case Authorized =>
      var s1 :- Audit(env, s, CredentialAuthorized, InfoLevel, NoDetail, now);
      if s1.state == Released then Out(s1, Fine) else Release(env, s1, now)
  }

  function Release(env: Env, s: Sys, now: real): Out {
    var high := Command(env, s, true, now);
    if high.fault == Ordinary then
      var s1 :- Audit(env, high.s, RelayControlError, CriticalLevel, Because("high_failed"), now);
      var s2 :- AttemptSafeState(env, s1, now).0;
      Out(s2.(state := Faulted), Fine)
    else if high.fault == Fatal then high
    else
      Audit(env, high.s.(lastHigh := Some(true), deadline := Some(now + env.releaseSeconds), state := Released),
            RelayAsserted, InfoLevel, Lasting(env.releaseSeconds), now)
  }

  function TickOp(env: Env, s: Sys, now: real): Out {
    if s.state == Released && s.deadline.Some? && now >= s.deadline.value then
      var low := Command(env, s, false, now);
      if low.fault == Ordinary then LowFailed(env, low.s.(state := Faulted), now)
      else if low.fault == Fatal then low
      else Audit(env, low.s.(lastHigh := Some(false), deadline := None, state := Ready),
                 RelayRestored, InfoLevel, NoDetail, now)
    else Out(s, Fine)
  }

  function RecoverableFailureOp(env: Env, s: Sys, now: real): Out {
    var s1 :- AttemptSafeState(env, s, now).0;
    Audit(env, s1.(deadline := None, state := Faulted), RelayControlError, ErrorLevel, NoDetail, now)
  }

  function ShutdownOp(env: Env, s: Sys, now: real): Out {
    if s.state == Stopped then Out(s, Fine)
    else
      var (attempt, safe) := AttemptSafeState(env, s.(state := ShuttingDown), now);
      var s1 :- attempt;
      FinishShutdown(env, s1.(deadline := None), safe, now)
  }

  function FinishShutdown(env: Env, s: Sys, safe: bool, now: real): Out {
    var clean := CleanUpRelay(env, s, now);
    if clean.fault == Fatal then clean
    else if clean.fault == Ordinary then
      var s1 :- Audit(env, clean.s, RelayControlError, CriticalLevel, Because("cleanup_failed"), now);
      Out(s1.(state := Faulted), Fine)
    else if safe then Audit(env, clean.s.(state := Stopped), ServiceShutdown, InfoLevel, NoDetail, now)
    else Out(clean.s.(state := Faulted), Fine)
  }

  // ---------------------------------------------------------------- runs

  datatype Op = Start | Process(record: RecordResult) | Tick | RecoverableFailure | Shutdown

  datatype Call = Call(op: Op, at: real)

  function Step(env: Env, s: Sys, call: Call): Out {
    match call.op
    case Start => StartOp(env, s, call.at)
    case Process(record) => ProcessOp(env, s, record, call.at)
    case Tick => TickOp(env, s, call.at)
    case RecoverableFailure => RecoverableFailureOp(env, s, call.at)
    case Shutdown => ShutdownOp(env, s, call.at)
  }

  /** Any calls in any order; a call that raises does not keep the caller from making the next one. */
  function Run(env: Env, calls: seq<Call>): Sys {
    if calls == [] then Initial(env) else Step(env, Run(env, calls[..|calls| - 1]), calls[|calls| - 1]).s
  }

  ghost predicate Chronological(calls: seq<Call>) {
    forall i, j :: 0 <= i <= j < |calls| ==> calls[i].at <= calls[j].at
  }
}
