/** The relay guarantees of the controller, read directly off the trace of a run. */
module ControllerRelay {
  import opened ReaderRecord
  import opened Options
  import opened Outcomes
  import opened Escalation
  import opened Controller
  import opened ControllerSafety

  // ---------------------------------------------------------------- reading the trace

  predicate Wrote(a: Attempt, high: bool) {
    a.effect == Pin(high) && a.fault == Fine
  }

  predicate FailedLow(a: Attempt) {
    a.effect == Pin(false) && a.fault != Fine
  }

  predicate Audited(a: Attempt, kind: EventType) {
    a.effect.Append? && a.effect.event.kind == kind
  }

  /** The last successful pin write of the trace is the HIGH at `h`. */
  ghost predicate HighSince(trace: seq<Attempt>, h: nat) {
    && h < |trace| && Wrote(trace[h], true)
    && forall k :: h < k < |trace| ==> !Wrote(trace[k], false) && !Wrote(trace[k], true)
  }

  lemma {:induction false} WatchMeansTrace(trace: seq<Attempt>) returns (h: nat, low: nat)
    ensures Watched(trace).high ==> HighSince(trace, h) && Watched(trace).highAt == trace[h].at
    ensures Watched(trace).high && Watched(trace).lowFailed ==> h < low < |trace| && FailedLow(trace[low])
  {
    h, low := 0, 0;
    if trace != [] {
      var n := |trace| - 1;
      h, low := WatchMeansTrace(trace[..n]);
      if Wrote(trace[n], true) {
        h := n;
      } else if FailedLow(trace[n]) {
        low := n;
      }
    }
  }

  lemma {:induction false} GoodPrefix(trace: seq<Attempt>, i: nat)
    requires Watched(trace).good && i < |trace|
    ensures Watched(trace[..i]).good && Proper(Watched(trace[..i]), trace[i].effect)
  {
    var n := |trace| - 1;
    if i < n {
      GoodPrefix(trace[..n], i);
      assert trace[..n][..i] == trace[..i];
    }
  }

  /** Facts about the pin and the audits persist until an attempt that changes them. */
  lemma {:induction false} Persists(trace: seq<Attempt>, i: nat, j: nat)
    requires i < j <= |trace|
    ensures var before, after := Watched(trace[..i + 1]), Watched(trace[..j]);
      && (before.high && (forall k :: i < k < j ==> !Wrote(trace[k], false)) ==> after.high)
      && (before.asserted && (forall k :: i < k < j ==> !Audited(trace[k], RelayRestored)) ==> after.asserted)
      && (!before.asserted && (forall k :: i < k < j ==> !Audited(trace[k], RelayAsserted)) ==> !after.asserted)
    decreases j
  {
    if i + 1 < j {
      Persists(trace, i, j - 1);
      assert trace[..j][..j - 1] == trace[..j - 1];
    }
  }

  lemma WatchedAt(trace: seq<Attempt>, i: nat)
    requires i < |trace|
    ensures Watched(trace[..i + 1]) == Observe(Watched(trace[..i]), trace[i])
  {
    assert trace[..i + 1][..i] == trace[..i];
  }

  // ---------------------------------------------------------------- every run

  /** READY is low with no deadline, RELEASED is high with its deadline, and a relay that is high in any
      other state went high at some point since which a LOW has failed. */
  lemma StateTellsRelay(env: Env, calls: seq<Call>) returns (h: nat, low: nat)
    ensures var s := Run(env, calls);
      && (s.state == Ready ==> !s.relay.high && s.deadline == None)
      && (s.relay.high ==> HighSince(s.trace, h))
      && (s.state == Released ==> s.relay.high && s.deadline == Some(s.trace[h].at + env.releaseSeconds))
      && (s.relay.high && s.state != Released ==> h < low < |s.trace| && FailedLow(s.trace[low]))
  {
    hide Run, Watched;
    RunSafe(env, calls);
    h, low := WatchMeansTrace(Run(env, calls).trace);
  }

  /** Between two HIGHs there is a LOW. */
  lemma HighsAreSeparated(env: Env, calls: seq<Call>, i: nat, j: nat)
    requires i < j < |Run(env, calls).trace|
    requires Wrote(Run(env, calls).trace[i], true) && Run(env, calls).trace[j].effect == Pin(true)
    ensures exists k :: i < k < j && Wrote(Run(env, calls).trace[k], false)
  {
    RunSafe(env, calls);
    var trace := Run(env, calls).trace;
    hide Run, Watched;
    GoodPrefix(trace, j);
    WatchedAt(trace, i);
    Persists(trace, i, j);
  }

  /** Every successful HIGH is audited as RELAY_ASSERTED in the very next attempt, and RELAY_ASSERTED is
      audited only there; RELAY_RESTORED is audited only straight after a successful LOW. */
  lemma HighsAreAudited(env: Env, calls: seq<Call>, i: nat)
    requires i < |Run(env, calls).trace|
    ensures var trace := Run(env, calls).trace;
      && (Wrote(trace[i], true) ==> i + 1 < |trace| && Audited(trace[i + 1], RelayAsserted))
      && (Audited(trace[i], RelayAsserted) ==> i > 0 && Wrote(trace[i - 1], true))
      && (Audited(trace[i], RelayRestored) ==> i > 0 && Wrote(trace[i - 1], false))
  {
    RunSafe(env, calls);
    var trace := Run(env, calls).trace;
    hide Run, Watched;
    GoodPrefix(trace, i);
    WatchedAt(trace, i);
    if i + 1 < |trace| {
      GoodPrefix(trace, i + 1);
    } else {
      assert trace[..i + 1] == trace;
    }
    if i > 0 {
      WatchedAt(trace, i - 1);
    } else {
      assert Watched(trace[..0]) == Blank by { BlankWatch(); }
    }
  }

  lemma BlankWatch()
    ensures Watched([]) == Blank
  {
  }

  /** RELAY_ASSERTED and RELAY_RESTORED audits alternate, starting with RELAY_ASSERTED. */
  lemma RelayAuditsAlternate(env: Env, calls: seq<Call>, i: nat, j: nat)
    requires i < j < |Run(env, calls).trace|
    ensures var trace := Run(env, calls).trace;
      && (Audited(trace[i], RelayAsserted) && Audited(trace[j], RelayAsserted) ==>
            exists k :: i < k < j && Audited(trace[k], RelayRestored))
      && (Audited(trace[i], RelayRestored) && Audited(trace[j], RelayRestored) ==>
            exists k :: i < k < j && Audited(trace[k], RelayAsserted))
  {
    RunSafe(env, calls);
    var trace := Run(env, calls).trace;
    hide Run, Watched;
    GoodPrefix(trace, j);
    WatchedAt(trace, i);
    Persists(trace, i, j);
  }

  lemma FirstRelayAuditIsAsserted(env: Env, calls: seq<Call>, j: nat)
    requires j < |Run(env, calls).trace| && Audited(Run(env, calls).trace[j], RelayRestored)
    ensures exists k :: 0 <= k < j && Audited(Run(env, calls).trace[k], RelayAsserted)
  {
    RunSafe(env, calls);
    var trace := Run(env, calls).trace;
    hide Run, Watched;
    GoodPrefix(trace, j);
    BlankWatch();
    if j > 0 {
      WatchedAt(trace, 0);
      Persists(trace, 0, j);
      assert trace[..0] == [];
    }
  }

  // ---------------------------------------------------------------- leaving service is final

  /** How many attempts of the trace satisfy `p`. */
  function Occurrences(trace: seq<Attempt>, p: Attempt -> bool): nat {
    if trace == [] then 0
    else Occurrences(trace[..|trace| - 1], p) + Tally(p(trace[|trace| - 1]))
  }

  lemma TryOccurrences(env: Env, p: Attempt -> bool)
    ensures forall s: Sys, effect: Effect, now: real {:trigger Try(env, s, effect, now)} ::
      var out := Try(env, s, effect, now);
      Occurrences(out.s.trace, p) == Occurrences(s.trace, p) + Tally(p(Attempt(effect, now, out.fault)))
  {
  }

  predicate IsHigh(a: Attempt) {
    a.effect == Pin(true)
  }

  function HighAttempts(trace: seq<Attempt>): nat {
    Occurrences(trace, IsHigh)
  }

  ghost predicate OutOfService(s: Sys) {
    !Accepting(s.state)
  }

  lemma SafeStateCommandsNoHigh(env: Env, s: Sys, now: real)
    ensures var out := AttemptSafeState(env, s, now).0.s;
      HighAttempts(out.trace) == HighAttempts(s.trace) && out.state == s.state
  {
    hide Occurrences;
    TryOccurrences(env, IsHigh);
  }

  lemma FinishCommandsNoHigh(env: Env, s: Sys, safe: bool, now: real)
    requires s.state == ShuttingDown
    ensures var out := FinishShutdown(env, s, safe, now).s;
      HighAttempts(out.trace) == HighAttempts(s.trace) && OutOfService(out)
  {
    hide Occurrences;
    TryOccurrences(env, IsHigh);
  }

  lemma StepStaysOut(env: Env, s: Sys, call: Call)
    requires OutOfService(s)
    ensures OutOfService(Step(env, s, call).s)
    ensures HighAttempts(Step(env, s, call).s.trace) == HighAttempts(s.trace)
  {
    hide Occurrences, AttemptSafeState, FinishShutdown;
    match call.op
    case Start =>
    case Process(record) =>
    case Tick =>
    case RecoverableFailure =>
      SafeStateCommandsNoHigh(env, s, call.at);
      TryOccurrences(env, IsHigh);
    case Shutdown =>
      var closing := s.(state := ShuttingDown);
      SafeStateCommandsNoHigh(env, closing, call.at);
      var (attempt, safe) := AttemptSafeState(env, closing, call.at);
      FinishCommandsNoHigh(env, attempt.s.(deadline := None), safe, call.at);
  }

  /** Once out of INITIALIZING, READY and RELEASED, the controller never comes back and never commands
      HIGH again. */
  lemma {:induction false} LeavingServiceIsFinal(env: Env, calls: seq<Call>, more: seq<Call>)
    requires OutOfService(Run(env, calls))
    ensures OutOfService(Run(env, calls + more))
    ensures HighAttempts(Run(env, calls + more).trace) == HighAttempts(Run(env, calls).trace)
    decreases |more|
  {
    if more == [] {
      assert calls + more == calls;
    } else {
      var n := |more| - 1;
      LeavingServiceIsFinal(env, calls, more[..n]);
      assert (calls + more)[..|calls + more| - 1] == calls + more[..n];
      StepStaysOut(env, Run(env, calls + more[..n]), more[n]);
    }
  }

  // ---------------------------------------------------------------- HIGH is granted

  predicate Authorizes(env: Env, call: Call) {
    && call.op.Process? && call.op.record.Parsed?
    && env.classify(call.op.record.credential) == Authorized
  }

  /** The call presents an authorized credential to a ready controller, and that is on the audit record. */
  predicate Grants(env: Env, s: Sys, call: Call) {
    Authorizes(env, call) && s.state == Ready && env.faults(|s.trace|) == Fine
  }

  lemma ReleaseCommandsHigh(env: Env, s: Sys, now: real)
    requires s.relay.channel && !s.relay.closed
    ensures HighAttempts(Release(env, s, now).s.trace) == HighAttempts(s.trace) + 1
  {
    TryOccurrences(env, IsHigh);
    var high := Command(env, s, true, now);
    hide Occurrences, AttemptSafeState;
    if high.fault == Ordinary {
      var noted := Audit(env, high.s, RelayControlError, CriticalLevel, Because("high_failed"), now);
      SafeStateCommandsNoHigh(env, noted.s, now);
    }
  }

  lemma SuspiciousCommandsNoHigh(env: Env, s: Sys, now: real)
    ensures HighAttempts(RecordSuspicious(env, s, now).s.trace) == HighAttempts(s.trace)
  {
    TryOccurrences(env, IsHigh);
    hide Occurrences;
  }

  lemma ProcessCommandsGrantedHigh(env: Env, s: Sys, record: RecordResult, now: real)
    requires s.state == Ready ==> s.relay.channel && !s.relay.closed
    ensures HighAttempts(ProcessOp(env, s, record, now).s.trace)
         == HighAttempts(s.trace) + Tally(Grants(env, s, Call(Process(record), now)))
  {
    TryOccurrences(env, IsHigh);
    hide Occurrences, RecordSuspicious, Release;
    if s.state == Ready || s.state == Released {
      match record {
        case Malformed(reason) =>
          SuspiciousCommandsNoHigh(
            env, Audit(env, s, MalformedRecord, WarningLevel, Because(Sanitise(reason)), now).s, now);
        case Parsed(credential) =>
          SuspiciousCommandsNoHigh(env, Audit(env, s, CredentialDenied, WarningLevel, NoDetail, now).s, now);
          SuspiciousCommandsNoHigh(env, Audit(env, s, CredentialUnknown, WarningLevel, NoDetail, now).s, now);
          if s.state == Ready {
            ReleaseCommandsHigh(env, Audit(env, s, CredentialAuthorized, InfoLevel, NoDetail, now).s, now);
          }
      }
    }
  }

  lemma SecuringCommandsNoHigh(env: Env, s: Sys, now: real)
    ensures HighAttempts(SecureAtStart(env, s, now).s.trace) == HighAttempts(s.trace)
  {
    hide Occurrences;
    TryOccurrences(env, IsHigh);
  }

  lemma StartCommandsNoHigh(env: Env, s: Sys, now: real)
    ensures HighAttempts(StartOp(env, s, now).s.trace) == HighAttempts(s.trace)
  {
    hide Occurrences, SecureAtStart;
    TryOccurrences(env, IsHigh);
    SecuringCommandsNoHigh(env, SetUpRelay(env, s, now).s, now);
  }

  lemma TickCommandsNoHigh(env: Env, s: Sys, now: real)
    ensures HighAttempts(TickOp(env, s, now).s.trace) == HighAttempts(s.trace)
  {
    hide Occurrences;
    TryOccurrences(env, IsHigh);
  }

  lemma StepCommandsGrantedHigh(env: Env, s: Sys, call: Call)
    requires RelaySafe(env, s)
    ensures HighAttempts(Step(env, s, call).s.trace) == HighAttempts(s.trace) + Tally(Grants(env, s, call))
  {
    hide Occurrences, AttemptSafeState, FinishShutdown, ProcessOp, StartOp, TickOp;
    match call.op
    case Start => StartCommandsNoHigh(env, s, call.at);
    case Tick => TickCommandsNoHigh(env, s, call.at);
    case Process(record) =>
      ProcessCommandsGrantedHigh(env, s, record, call.at);
    case RecoverableFailure =>
      SafeStateCommandsNoHigh(env, s, call.at);
      TryOccurrences(env, IsHigh);
    case Shutdown =>
      var closing := s.(state := ShuttingDown);
      SafeStateCommandsNoHigh(env, closing, call.at);
      var (attempt, safe) := AttemptSafeState(env, closing, call.at);
      FinishCommandsNoHigh(env, attempt.s.(deadline := None), safe, call.at);
  }

  /** How many calls of the run granted a release. */
  function Granted(env: Env, calls: seq<Call>): nat {
    if calls == [] then 0
    else
      var front := calls[..|calls| - 1];
      Granted(env, front) + Tally(Grants(env, Run(env, front), calls[|calls| - 1]))
  }

  /** HIGH is commanded once for each authorized credential that a ready controller audited, and never otherwise. */
  lemma {:induction false} HighsAreGranted(env: Env, calls: seq<Call>)
    ensures HighAttempts(Run(env, calls).trace) == Granted(env, calls)
  {
    if calls != [] {
      hide Step, Occurrences, RelaySafe, Grants;
      var front := calls[..|calls| - 1];
      HighsAreGranted(env, front);
      RunSafe(env, front);
      StepCommandsGrantedHigh(env, Run(env, front), calls[|calls| - 1]);
    }
  }

  // ---------------------------------------------------------------- the release is bounded in time

  /** The time of the last tick, or of the start of the run. */
  function LastTick(calls: seq<Call>, start: real): real {
    if calls == [] then start
    else if calls[|calls| - 1].op == Tick then calls[|calls| - 1].at
    else LastTick(calls[..|calls| - 1], start)
  }

  predicate NoFailedLow(trace: seq<Attempt>) {
    Occurrences(trace, FailedLow) == 0
  }

  lemma {:induction false} NoFailedLowWatched(trace: seq<Attempt>)
    requires NoFailedLow(trace)
    ensures !Watched(trace).lowFailed
  {
    if trace != [] {
      NoFailedLowWatched(trace[..|trace| - 1]);
    }
  }

  /** A credential presented while the door is released changes neither the release nor its deadline. */
  lemma CredentialKeepsRelease(env: Env, s: Sys, record: RecordResult, now: real)
    requires s.state == Released
    ensures var t := ProcessOp(env, s, record, now).s;
      t.state == Released && t.deadline == s.deadline && t.relay == s.relay
  {
    hide Advance, Sanitise;
  }

  /** No sequence of credentials of any kind changes the deadline of a release. */
  lemma {:induction false} CredentialsCannotExtendRelease(env: Env, calls: seq<Call>, more: seq<Call>)
    requires Run(env, calls).state == Released
    requires forall i :: 0 <= i < |more| ==> more[i].op.Process?
    ensures var s, t := Run(env, calls), Run(env, calls + more);
      t.state == Released && t.deadline == s.deadline && t.relay == s.relay
    decreases |more|
  {
    if more == [] {
      assert calls + more == calls;
    } else {
      var n := |more| - 1;
      CredentialsCannotExtendRelease(env, calls, more[..n]);
      assert (calls + more)[..|calls + more| - 1] == calls + more[..n];
      CredentialKeepsRelease(env, Run(env, calls + more[..n]), more[n].op.record, more[n].at);
    }
  }

  /** What a step does to a release, when no LOW has failed: a new one gets a full period, a tick that is
      not early ends it, and nothing else touches it. */
  lemma StepTimesRelease(env: Env, s: Sys, call: Call)
    requires RelaySafe(env, s) && !Watched(Step(env, s, call).s.trace).lowFailed
    ensures var t := Step(env, s, call).s;
      t.state == Released ==>
        && t.deadline.Some?
        && (s.state == Released ==> t.deadline == s.deadline)
        && (s.state != Released ==> t.deadline.value == call.at + env.releaseSeconds)
        && (call.op == Tick ==> call.at < t.deadline.value)
  {
    hide Watched, RecordSuspicious, AttemptSafeState, FinishShutdown, StartOp, ProcessOp, TickOp;
    StepSafe(env, s, call);
    match call.op
    case Start => StartNeverReleases(env, s, call.at);
    case Process(record) => ProcessTimesRelease(env, s, record, call.at);
    case Tick => TickEndsRelease(env, s, call.at);
    case RecoverableFailure => SafeStateSafe(env, s, call.at);
    case Shutdown =>
      var closing := s.(state := ShuttingDown);
      SafeStateSafe(env, closing, call.at);
      var (attempt, safe) := AttemptSafeState(env, closing, call.at);
      FinishCommandsNoHigh(env, attempt.s.(deadline := None), safe, call.at);
  }

  lemma StartNeverReleases(env: Env, s: Sys, now: real)
    ensures StartOp(env, s, now).s.state == Released ==> StartOp(env, s, now).s == s
  {
  }

  lemma ProcessTimesRelease(env: Env, s: Sys, record: RecordResult, now: real)
    ensures var t := ProcessOp(env, s, record, now).s;
      t.state == Released && s.state != Released ==> t.deadline == Some(now + env.releaseSeconds)
    ensures s.state == Released ==> ProcessOp(env, s, record, now).s.deadline == s.deadline
  {
    hide RecordSuspicious, Release;
    forall s: Sys, now: real {:trigger RecordSuspicious(env, s, now)}
      ensures var t := RecordSuspicious(env, s, now).s; t.state == s.state && t.deadline == s.deadline
    {
      SuspiciousKeepsRelease(env, s, now);
    }
    forall s: Sys, now: real {:trigger Release(env, s, now)}
      ensures var t := Release(env, s, now).s;
        t.state == Released && s.state != Released ==> t.deadline == Some(now + env.releaseSeconds)
    {
      ReleaseSetsDeadline(env, s, now);
    }
  }

  lemma SuspiciousKeepsRelease(env: Env, s: Sys, now: real)
    ensures var t := RecordSuspicious(env, s, now).s; t.state == s.state && t.deadline == s.deadline
  {
  }

  lemma ReleaseSetsDeadline(env: Env, s: Sys, now: real)
    ensures var t := Release(env, s, now).s;
      t.state == Released && s.state != Released ==> t.deadline == Some(now + env.releaseSeconds)
  {
  }

  lemma TickEndsRelease(env: Env, s: Sys, now: real)
    requires RelaySafe(env, s) && !Watched(TickOp(env, s, now).s.trace).lowFailed
    ensures var t := TickOp(env, s, now).s;
      t.state == Released ==>
        s.state == Released && t.deadline == s.deadline && t.deadline.Some? && now < t.deadline.value
  {
  }

  lemma SafeStateForgetsNothing(env: Env, s: Sys, now: real, p: Attempt -> bool)
    ensures Occurrences(s.trace, p) <= Occurrences(AttemptSafeState(env, s, now).0.s.trace, p)
  {
    hide Occurrences;
    TryOccurrences(env, p);
  }

  lemma SuspiciousForgetsNothing(env: Env, s: Sys, now: real, p: Attempt -> bool)
    ensures Occurrences(s.trace, p) <= Occurrences(RecordSuspicious(env, s, now).s.trace, p)
  {
    hide Occurrences;
    TryOccurrences(env, p);
  }

  lemma ReleaseForgetsNothing(env: Env, s: Sys, now: real, p: Attempt -> bool)
    ensures Occurrences(s.trace, p) <= Occurrences(Release(env, s, now).s.trace, p)
  {
    hide Occurrences, AttemptSafeState;
    TryOccurrences(env, p);
    var high := Command(env, s, true, now);
    var audited := Audit(env, high.s, RelayControlError, CriticalLevel, Because("high_failed"), now);
    SafeStateForgetsNothing(env, audited.s, now, p);
  }

  lemma ProcessForgetsNothing(env: Env, s: Sys, record: RecordResult, now: real, p: Attempt -> bool)
    ensures Occurrences(s.trace, p) <= Occurrences(ProcessOp(env, s, record, now).s.trace, p)
  {
    hide Occurrences, Release, RecordSuspicious, Sanitise;
    TryOccurrences(env, p);
    match record
    case Malformed(reason) =>
      SuspiciousForgetsNothing(
        env, Audit(env, s, MalformedRecord, WarningLevel, Because(Sanitise(reason)), now).s, now, p);
    case Parsed(credential) =>
      SuspiciousForgetsNothing(env, Audit(env, s, CredentialDenied, WarningLevel, NoDetail, now).s, now, p);
      SuspiciousForgetsNothing(env, Audit(env, s, CredentialUnknown, WarningLevel, NoDetail, now).s, now, p);
      ReleaseForgetsNothing(env, Audit(env, s, CredentialAuthorized, InfoLevel, NoDetail, now).s, now, p);
  }

  lemma StartForgetsNothing(env: Env, s: Sys, now: real, p: Attempt -> bool)
    ensures Occurrences(s.trace, p) <= Occurrences(StartOp(env, s, now).s.trace, p)
  {
    hide Occurrences, SecureAtStart;
    TryOccurrences(env, p);
    SecuringForgetsNothing(env, SetUpRelay(env, s, now).s, now, p);
  }

  lemma SecuringForgetsNothing(env: Env, s: Sys, now: real, p: Attempt -> bool)
    ensures Occurrences(s.trace, p) <= Occurrences(SecureAtStart(env, s, now).s.trace, p)
  {
    hide Occurrences;
    TryOccurrences(env, p);
  }

  lemma TickForgetsNothing(env: Env, s: Sys, now: real, p: Attempt -> bool)
    ensures Occurrences(s.trace, p) <= Occurrences(TickOp(env, s, now).s.trace, p)
  {
    hide Occurrences;
    TryOccurrences(env, p);
  }

  lemma FinishForgetsNothing(env: Env, s: Sys, safe: bool, now: real, p: Attempt -> bool)
    ensures Occurrences(s.trace, p) <= Occurrences(FinishShutdown(env, s, safe, now).s.trace, p)
  {
    hide Occurrences;
    TryOccurrences(env, p);
  }

  lemma StepForgetsNothing(env: Env, s: Sys, call: Call, p: Attempt -> bool)
    ensures Occurrences(s.trace, p) <= Occurrences(Step(env, s, call).s.trace, p)
  {
    hide Occurrences, AttemptSafeState, FinishShutdown, ProcessOp, StartOp, TickOp;
    TryOccurrences(env, p);
    match call.op
    case Start => StartForgetsNothing(env, s, call.at, p);
    case Process(record) => ProcessForgetsNothing(env, s, record, call.at, p);
    case Tick => TickForgetsNothing(env, s, call.at, p);
    case RecoverableFailure => SafeStateForgetsNothing(env, s, call.at, p);
    case Shutdown =>
      var closing := s.(state := ShuttingDown);
      SafeStateForgetsNothing(env, closing, call.at, p);
      var (attempt, safe) := AttemptSafeState(env, closing, call.at);
      FinishForgetsNothing(env, attempt.s.(deadline := None), safe, call.at, p);
  }

  lemma {:induction false} ReleaseIsTicked(env: Env, calls: seq<Call>, start: real)
    requires env.releaseSeconds > 0.0
    requires Chronological(calls) && (calls != [] ==> start <= calls[0].at)
    requires NoFailedLow(Run(env, calls).trace)
    ensures LastTick(calls, start) <= if calls == [] then start else calls[|calls| - 1].at
    ensures var s := Run(env, calls);
      s.state == Released ==> s.deadline.Some? && LastTick(calls, start) < s.deadline.value
  {
    if calls != [] {
      var n := |calls| - 1;
      var s, t := Run(env, calls[..n]), Run(env, calls);
      StepForgetsNothing(env, s, calls[n], FailedLow);
      ReleaseIsTicked(env, calls[..n], start);
      RunSafe(env, calls[..n]);
      NoFailedLowWatched(t.trace);
      StepTimesRelease(env, s, calls[n]);
    }
  }

  /** In a run whose ticks are at most `d` apart and in which no LOW fails, a relay that went high at time
      t is low again by t + releaseSeconds + d. */
  lemma ReleaseIsBounded(env: Env, calls: seq<Call>, start: real, d: real, now: real) returns (h: nat)
    requires env.releaseSeconds > 0.0
    requires Chronological(calls) && (calls != [] ==> start <= calls[0].at)
    requires NoFailedLow(Run(env, calls).trace)
    requires now - LastTick(calls, start) <= d
    ensures var s := Run(env, calls);
      s.relay.high ==> HighSince(s.trace, h) && now < s.trace[h].at + env.releaseSeconds + d
  {
    hide Run, Watched, LastTick;
    RunSafe(env, calls);
    NoFailedLowWatched(Run(env, calls).trace);
    var low: nat;
    h, low := WatchMeansTrace(Run(env, calls).trace);
    ReleaseIsTicked(env, calls, start);
  }
}
