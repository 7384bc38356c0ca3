/** What the controller discloses, and how its notifications follow the escalation history. */
module ControllerAudit {
  import opened ReaderRecord
  import opened Options
  import opened Outcomes
  import opened Escalation
  import opened Controller

  // ---------------------------------------------------------------- the audit allow-list

  datatype Scalar = Text(text: string) | Number(number: real)

  const FORBIDDEN_KEYS := ["credential", "card", "name", "secret", "token", "webhook", "password"]
  const ALLOWED_KEYS := {"reason", "duration_seconds", "attempt", "event_count"}
  const ALLOWED_REASONS := READER_REASONS +
    {"malformed_record", "queue_unavailable", "setup_failed", "high_failed", "low_failed", "cleanup_failed"}

  predicate Contains(s: string, part: string)
    requires part != []
  {
    |part| <= |s| && (s[..|part|] == part || Contains(s[1..], part))
  }

  function LowerChar(c: char): char {
    if 'A' <= c <= 'Z' then c - 'A' + 'a' else c
  }

  function Lower(s: string): string {
    seq(|s|, i requires 0 <= i < |s| => LowerChar(s[i]))
  }

  /** The checks an audit event makes of its correlation data when it is built. */
  predicate Acceptable(correlation: map<string, Scalar>) {
    && (forall key :: key in correlation ==>
          && (forall i :: 0 <= i < |FORBIDDEN_KEYS| ==> !Contains(Lower(key), FORBIDDEN_KEYS[i]))
          && key in ALLOWED_KEYS)
    && ("reason" in correlation ==> correlation["reason"].Text? && correlation["reason"].text in ALLOWED_REASONS)
  }

  function Correlation(detail: Detail): map<string, Scalar> {
    match detail
    case NoDetail => map[]
    case Because(reason) => map["reason" := Text(reason)]
    case Lasting(seconds) => map["duration_seconds" := Number(seconds)]
  }

  predicate HasPair(s: string, a: char, b: char) {
    exists i :: 0 <= i < |s| - 1 && s[i] == a && s[i + 1] == b
  }

  /** A text without some adjacent pair of letters contains no word that has the pair. */
  lemma {:induction false} PairRulesOut(s: string, part: string, j: nat)
    requires j + 1 < |part| && !HasPair(s, part[j], part[j + 1])
    ensures !Contains(s, part)
    decreases |s|
  {
    if |part| <= |s| {
      assert !(s[j] == part[j] && s[j + 1] == part[j + 1]);
      forall i | 0 <= i < |s[1..]| - 1
        ensures !(s[1..][i] == part[j] && s[1..][i + 1] == part[j + 1])
      {
        assert s[1..][i] == s[i + 1] && s[1..][i + 1] == s[i + 2];
      }
      PairRulesOut(s[1..], part, j);
    }
  }

  lemma KeysAreNotForbidden(key: string, i: nat)
    requires key == "reason" || key == "duration_seconds"
    requires i < |FORBIDDEN_KEYS|
    ensures !Contains(Lower(key), FORBIDDEN_KEYS[i])
  {
    hide Contains;
    assert Lower(key) == key;
    PairRulesOut(key, FORBIDDEN_KEYS[i], if i == 3 then 2 else if i == 2 then 1 else 0);
  }

  lemma CountersAreNotForbidden(key: string, i: nat)
    requires key == "attempt" || key == "event_count"
    requires i < |FORBIDDEN_KEYS|
    ensures !Contains(Lower(key), FORBIDDEN_KEYS[i])
  {
    hide Contains;
    assert Lower(key) == key;
    PairRulesOut(key, FORBIDDEN_KEYS[i], if i == 3 then 2 else if i == 2 then 1 else 0);
  }

  /** The search for forbidden words never decides: an event is accepted exactly when its keys, and its
      reason if it has one, are on the lists. */
  lemma ListsDecide(correlation: map<string, Scalar>)
    ensures Acceptable(correlation) <==>
      && (forall key :: key in correlation ==> key in ALLOWED_KEYS)
      && ("reason" in correlation ==> correlation["reason"].Text? && correlation["reason"].text in ALLOWED_REASONS)
  {
    hide Contains, Lower;
    forall key, i | key in correlation && key in ALLOWED_KEYS && 0 <= i < |FORBIDDEN_KEYS|
      ensures !Contains(Lower(key), FORBIDDEN_KEYS[i])
    {
      if key == "reason" || key == "duration_seconds" {
        KeysAreNotForbidden(key, i);
      } else {
        CountersAreNotForbidden(key, i);
      }
    }
  }

  predicate DetailAccepted(detail: Detail) {
    detail.Because? ==> detail.reason in ALLOWED_REASONS
  }

  lemma AcceptedDetailIsAcceptable(detail: Detail)
    ensures Acceptable(Correlation(detail)) <==> DetailAccepted(detail)
  {
    ListsDecide(Correlation(detail));
    hide Acceptable;
  }

  // ---------------------------------------------------------------- a ledger of the trace

  /** What the trace shows about suspicious events and their escalation. */
  datatype Ledger = Ledger(
    times: seq<real>,     // when a suspicious event was audited
    criticals: nat,       // attempts to audit a critical escalation
    lost: nat,            // those that failed
    queued: nat,          // attempts to enqueue a notification
    rejected: nat)        // events the allow-list would reject

  predicate IsSuspicious(effect: Effect) {
    && effect.Append?
    && var kind := effect.event.kind;
       kind == MalformedRecord || kind == CredentialDenied || kind == CredentialUnknown
  }

  predicate IsCritical(effect: Effect) {
    effect.Append? && effect.event.kind == EscalationCritical
  }

  predicate IsRejected(effect: Effect) {
    (effect.Append? || effect.Enqueue?) && !DetailAccepted(effect.event.detail)
  }

  function Enter(l: Ledger, a: Attempt): Ledger {
    Ledger(
      if IsSuspicious(a.effect) && a.fault == Fine then l.times + [a.at] else l.times,
      l.criticals + Tally(IsCritical(a.effect)),
      l.lost + Tally(IsCritical(a.effect) && a.fault != Fine),
      l.queued + Tally(a.effect.Enqueue?),
      l.rejected + Tally(IsRejected(a.effect)))
  }

  function Entered(trace: seq<Attempt>): Ledger {
    if trace == [] then Ledger([], 0, 0, 0, 0)
    else Enter(Entered(trace[..|trace| - 1]), trace[|trace| - 1])
  }

  lemma TryEntered(env: Env)
    ensures forall s: Sys, effect: Effect, now: real {:trigger Try(env, s, effect, now)} ::
      var out := Try(env, s, effect, now);
      Entered(out.s.trace) == Enter(Entered(s.trace), Attempt(effect, now, out.fault))
  {
  }

  /** Attempts that leave the ledger as it is. */
  predicate Unremarkable(effect: Effect) {
    !IsSuspicious(effect) && !IsCritical(effect) && !effect.Enqueue? && !IsRejected(effect)
  }

  lemma TryUnremarkable(env: Env)
    ensures forall s: Sys, effect: Effect, now: real {:trigger Try(env, s, effect, now)} ::
      Unremarkable(effect) ==> Entered(Try(env, s, effect, now).s.trace) == Entered(s.trace)
  {
  }

  // ---------------------------------------------------------------- operations that enter nothing

  ghost predicate Silent(s: Sys, t: Sys) {
    Entered(t.trace) == Entered(s.trace) && t.tracker == s.tracker
  }

  lemma SafeStateSilent(env: Env, s: Sys, now: real)
    ensures Silent(s, AttemptSafeState(env, s, now).0.s)
  {
    hide Entered;
    TryUnremarkable(env);
  }

  lemma SecureSilent(env: Env, s: Sys, now: real)
    ensures Silent(s, SecureAtStart(env, s, now).s)
  {
    hide Entered;
    TryUnremarkable(env);
  }

  lemma StartSilent(env: Env, s: Sys, now: real)
    ensures Silent(s, StartOp(env, s, now).s)
  {
    hide Entered, SecureAtStart;
    TryUnremarkable(env);
    SecureSilent(env, SetUpRelay(env, s, now).s, now);
  }

  lemma ReleaseSilent(env: Env, s: Sys, now: real)
    ensures Silent(s, Release(env, s, now).s)
  {
    hide Entered, AttemptSafeState;
    TryUnremarkable(env);
    SafeStateSilent(env, Audit(env, Command(env, s, true, now).s, RelayControlError, CriticalLevel,
                               Because("high_failed"), now).s, now);
  }

  lemma TickSilent(env: Env, s: Sys, now: real)
    ensures Silent(s, TickOp(env, s, now).s)
  {
    hide Entered;
    TryUnremarkable(env);
  }

  lemma RecoverableFailureSilent(env: Env, s: Sys, now: real)
    ensures Silent(s, RecoverableFailureOp(env, s, now).s)
  {
    hide Entered, AttemptSafeState;
    TryUnremarkable(env);
    SafeStateSilent(env, s, now);
  }

  lemma CleanUpSilent(env: Env, s: Sys, now: real)
    ensures Silent(s, CleanUpRelay(env, s, now).s)
  {
    hide Entered;
    TryUnremarkable(env);
  }

  lemma FinishSilent(env: Env, s: Sys, safe: bool, now: real)
    ensures Silent(s, FinishShutdown(env, s, safe, now).s)
  {
    hide Entered, CleanUpRelay;
    TryUnremarkable(env);
    CleanUpSilent(env, s, now);
  }

  lemma ShutdownSilent(env: Env, s: Sys, now: real)
    ensures Silent(s, ShutdownOp(env, s, now).s)
  {
    hide Entered, AttemptSafeState, FinishShutdown;
    var closing := s.(state := ShuttingDown);
    SafeStateSilent(env, closing, now);
    var (attempt, safe) := AttemptSafeState(env, closing, now);
    FinishSilent(env, attempt.s.(deadline := None), safe, now);
  }

  // ---------------------------------------------------------------- operations that escalate

  /** The tracker has seen exactly the audited suspicious events; critical announcements were audited
      and, when that succeeded, offered to the queue; no event was unacceptable. */
  ghost predicate Balanced(env: Env, s: Sys) {
    var l := Entered(s.trace);
    && s.tracker == RunTracker(env.policy, l.times)
    && l.criticals == CriticalAnnouncements(env.policy, l.times)
    && l.queued + l.lost == l.criticals
    && l.rejected == 0
  }

  /** A suspicious event has been audited but the tracker has not counted it yet. */
  ghost predicate Uncounted(env: Env, s: Sys, times: seq<real>, now: real) {
    var l := Entered(s.trace);
    && l.times == times + [now]
    && s.tracker == RunTracker(env.policy, times)
    && l.criticals == CriticalAnnouncements(env.policy, times)
    && l.queued + l.lost == l.criticals
    && l.rejected == 0
  }

  /** A critical announcement is audited and, when that succeeded, offered to the queue once. */
  lemma CriticalEntered(env: Env, s: Sys, event: AuditEvent, now: real)
    requires event.kind == EscalationCritical && event.detail == NoDetail
    ensures var s2 := Try(env, s, Append(event), now);
      var queued := Try(env, s2.s, Enqueue(event), now);
      var l := Entered(s.trace);
      && (s2.fault != Fine ==> Entered(s2.s.trace) == l.(criticals := l.criticals + 1, lost := l.lost + 1))
      && (s2.fault == Fine ==>
            Entered(queued.s.trace) == l.(criticals := l.criticals + 1, queued := l.queued + 1))
  {
    hide Entered;
    TryEntered(env);
  }

  lemma QueueFailureEntered(env: Env, s: Sys, now: real)
    ensures Entered(Audit(env, s, NotificationDeliveryFailed, ErrorLevel, Because("queue_unavailable"), now).s.trace)
         == Entered(s.trace)
  {
    hide Entered;
    TryUnremarkable(env);
  }

  lemma SuspiciousBalanced(env: Env, s: Sys, times: seq<real>, now: real)
    requires Uncounted(env, s, times, now)
    ensures var t := RecordSuspicious(env, s, now).s;
      Balanced(env, t) && Entered(t.trace).times == times + [now]
  {
    hide Entered, Advance, RunTracker, CriticalAnnouncements, Announced;
    RunTrackerStep(env.policy, times, now);
    var s1 := s.(tracker := Advance(env.policy, s.tracker, now).0);
    WarningEntered(env, s1, now);
    var event := AuditEvent(EscalationCritical, CriticalLevel, NoDetail, s1.state, now);
    CriticalEntered(env, s1, event, now);
    QueueFailureEntered(env, Try(env, Try(env, s1, Append(event), now).s, Enqueue(event), now).s, now);
  }

  lemma WarningEntered(env: Env, s: Sys, now: real)
    ensures Entered(Audit(env, s, EscalationWarning, WarningLevel, NoDetail, now).s.trace) == Entered(s.trace)
  {
    hide Entered;
    TryUnremarkable(env);
  }

  lemma SuspiciousAudit(env: Env, s: Sys, kind: EventType, detail: Detail, now: real)
    requires Balanced(env, s) && DetailAccepted(detail)
    requires kind == MalformedRecord || kind == CredentialDenied || kind == CredentialUnknown
    ensures var audited := Audit(env, s, kind, WarningLevel, detail, now);
      var t := if audited.fault == Fine then RecordSuspicious(env, audited.s, now).s else audited.s;
      && Balanced(env, t)
      && (Entered(t.trace).times == Entered(s.trace).times || Entered(t.trace).times == Entered(s.trace).times + [now])
  {
    hide Entered, RecordSuspicious, RunTracker, CriticalAnnouncements;
    TryEntered(env);
    var audited := Audit(env, s, kind, WarningLevel, detail, now);
    if audited.fault == Fine {
      SuspiciousBalanced(env, audited.s, Entered(s.trace).times, now);
    }
  }

  lemma ProcessBalanced(env: Env, s: Sys, record: RecordResult, now: real)
    requires Balanced(env, s)
    ensures var t := ProcessOp(env, s, record, now).s;
      && Balanced(env, t)
      && (Entered(t.trace).times == Entered(s.trace).times
          || Entered(t.trace).times == Entered(s.trace).times + [now])
  {
    hide Entered, RecordSuspicious, Release, RunTracker, CriticalAnnouncements;
    if s.state == Ready || s.state == Released {
      match record
      case Malformed(reason) =>
        SuspiciousAudit(env, s, MalformedRecord, Because(Sanitise(reason)), now);
      case Parsed(credential) =>
        match env.classify(credential)
        case Denied => SuspiciousAudit(env, s, CredentialDenied, NoDetail, now);
        case Unknown => SuspiciousAudit(env, s, CredentialUnknown, NoDetail, now);
        case Authorized =>
          TryUnremarkable(env);
          ReleaseSilent(env, Audit(env, s, CredentialAuthorized, InfoLevel, NoDetail, now).s, now);
    }
  }

  lemma StepBalanced(env: Env, s: Sys, call: Call)
    requires Balanced(env, s)
    ensures var t := Step(env, s, call).s;
      && Balanced(env, t)
      && (Entered(t.trace).times == Entered(s.trace).times
          || Entered(t.trace).times == Entered(s.trace).times + [call.at])
  {
    hide Entered, StartOp, ProcessOp, TickOp, RecoverableFailureOp, ShutdownOp, RunTracker, CriticalAnnouncements;
    match call.op
    case Start => StartSilent(env, s, call.at);
    case Process(record) => ProcessBalanced(env, s, record, call.at);
    case Tick => TickSilent(env, s, call.at);
    case RecoverableFailure => RecoverableFailureSilent(env, s, call.at);
    case Shutdown => ShutdownSilent(env, s, call.at);
  }

  lemma {:induction false} RunBalanced(env: Env, calls: seq<Call>)
    ensures Balanced(env, Run(env, calls))
  {
    if calls != [] {
      hide Balanced, Step;
      RunBalanced(env, calls[..|calls| - 1]);
      StepBalanced(env, Run(env, calls[..|calls| - 1]), calls[|calls| - 1]);
    }
  }

  ghost predicate Ordered(times: seq<real>, calls: seq<Call>) {
    Nondecreasing(times) && forall i :: 0 <= i < |times| ==> calls != [] && times[i] <= calls[|calls| - 1].at
  }

  lemma OrderedStep(times: seq<real>, calls: seq<Call>)
    requires calls != [] && Chronological(calls) && Ordered(times, calls[..|calls| - 1])
    ensures Ordered(times, calls) && Ordered(times + [calls[|calls| - 1].at], calls)
  {
  }

  lemma {:induction false} RunOrdered(env: Env, calls: seq<Call>)
    requires Chronological(calls)
    ensures Ordered(Entered(Run(env, calls).trace).times, calls)
  {
    if calls != [] {
      hide Balanced, Step, Entered, Ordered;
      var n := |calls| - 1;
      RunOrdered(env, calls[..n]);
      RunBalanced(env, calls[..n]);
      StepBalanced(env, Run(env, calls[..n]), calls[n]);
      OrderedStep(Entered(Run(env, calls[..n]).trace).times, calls);
    }
  }

  /** No event the controller builds, in any run, is refused by the allow-list. */
  lemma EventsAreAcceptable(env: Env, calls: seq<Call>, i: nat)
    requires i < |Run(env, calls).trace|
    ensures var e := Run(env, calls).trace[i].effect;
      e.Append? || e.Enqueue? ==> Acceptable(Correlation(e.event.detail))
  {
    RunBalanced(env, calls);
    hide Run;
    var e := Run(env, calls).trace[i].effect;
    NoneRejected(Run(env, calls).trace, i);
    if e.Append? || e.Enqueue? {
      AcceptedDetailIsAcceptable(e.event.detail);
    }
  }

  lemma {:induction false} NoneRejected(trace: seq<Attempt>, i: nat)
    requires Entered(trace).rejected == 0 && i < |trace|
    ensures !IsRejected(trace[i].effect)
  {
    if i < |trace| - 1 {
      NoneRejected(trace[..|trace| - 1], i);
    }
  }

  /** Over a run, notifications offered to the queue, and those lost because their audit failed, are
      together as many as the cycles of suspicious events that reached the critical level, whether or not
      the queue accepts them. */
  lemma NotificationsMatchCriticalCycles(env: Env, calls: seq<Call>)
    requires env.Valid() && Chronological(calls)
    ensures var l := Entered(Run(env, calls).trace);
      l.queued + l.lost == CriticalCycles(env.policy, l.times)
  {
    hide Run, Entered;
    RunBalanced(env, calls);
    RunOrdered(env, calls);
    OneCriticalPerCycle(env.policy, Entered(Run(env, calls).trace).times);
  }

  lemma {:induction false} LostMeansFailedAudit(trace: seq<Attempt>)
    ensures Entered(trace).lost == 0 <==>
            forall i :: 0 <= i < |trace| && IsCritical(trace[i].effect) ==> trace[i].fault == Fine
  {
    if trace != [] {
      var front, a := trace[..|trace| - 1], trace[|trace| - 1];
      LostMeansFailedAudit(front);
      assert Entered(trace).lost == Entered(front).lost + Tally(IsCritical(a.effect) && a.fault != Fine);
      hide Entered, IsCritical;
      assert forall i :: 0 <= i < |front| ==> front[i] == trace[i];
    }
  }

  /** The queue is offered exactly one notification for each cycle that reaches the critical level if and only
      if every audit append of a critical escalation succeeded. */
  lemma EnqueuesMatchExactly(env: Env, calls: seq<Call>)
    requires env.Valid() && Chronological(calls)
    ensures var trace := Run(env, calls).trace;
      Entered(trace).queued == CriticalCycles(env.policy, Entered(trace).times) <==>
      forall i :: 0 <= i < |trace| && IsCritical(trace[i].effect) ==> trace[i].fault == Fine
  {
    hide Run, Entered;
    NotificationsMatchCriticalCycles(env, calls);
    LostMeansFailedAudit(Run(env, calls).trace);
  }

  // ---------------------------------------------------------------- a critical cycle without a notification

  const TWO_STRIKES := Policy(1, 60.0, 2, 60.0, 60.0)
  const BAD_RECORD := Process(Malformed(InvalidLength))

  /** The one failure is the audit append of the critical escalation. */
  ghost predicate OnlyCriticalAuditFails(env: Env) {
    && env.releaseSeconds > 0.0 && env.adapter == Simulated && env.policy == TWO_STRIKES
    && forall n :: env.faults(n) == if n == 6 then Ordinary else Fine
  }

  lemma StrikesEscalate()
    ensures var once := Tracker([0.0], Warning, Some(0.0));
      && Advance(TWO_STRIKES, Fresh, 0.0) == (once, Warning)
      && Advance(TWO_STRIKES, once, 0.0).1 == Critical
  {
    assert Prune([] + [0.0], -60.0) == [0.0] && Count([0.0], -60.0) == 1;
    assert [0.0] + [0.0] == [0.0, 0.0] && [0.0, 0.0][1..] == [0.0];
    assert Prune([0.0, 0.0], -60.0) == [0.0, 0.0] && Count([0.0, 0.0], -60.0) == 2;
  }

  lemma FirstStrike(env: Env, s: Sys)
    requires OnlyCriticalAuditFails(env) && s.state == Ready && s.tracker == Fresh && |s.trace| == 3
    ensures var t := ProcessOp(env, s, BAD_RECORD.record, 0.0).s;
      && t.state == Ready && t.tracker == Tracker([0.0], Warning, Some(0.0)) && |t.trace| == 5
      && Entered(t.trace).lost == Entered(s.trace).lost && Entered(t.trace).queued == Entered(s.trace).queued
  {
    StrikesEscalate();
    hide Entered, Prune, Raised, Settled;
    TryEntered(env);
  }

  lemma SecondStrike(env: Env, s: Sys)
    requires OnlyCriticalAuditFails(env) && s.state == Ready && |s.trace| == 5
    requires s.tracker == Tracker([0.0], Warning, Some(0.0))
    ensures var t := ProcessOp(env, s, BAD_RECORD.record, 0.0).s;
      Entered(t.trace).lost == Entered(s.trace).lost + 1 && Entered(t.trace).queued == Entered(s.trace).queued
  {
    StrikesEscalate();
    hide Entered, Prune, Raised, Settled;
    TryEntered(env);
  }

  lemma QuietStart(env: Env)
    requires OnlyCriticalAuditFails(env)
    ensures var s := StartOp(env, Initial(env), 0.0).s;
      && s.state == Ready && s.tracker == Fresh && |s.trace| == 3
      && Entered(s.trace).lost == 0 && Entered(s.trace).queued == 0
  {
    NothingEntered();
    hide Entered;
    StartSilent(env, Initial(env), 0.0);
    assert |SetUpRelay(env, Initial(env), 0.0).s.trace| == 1;
  }

  lemma RunSnoc(env: Env, calls: seq<Call>, call: Call)
    ensures Run(env, calls + [call]) == Step(env, Run(env, calls), call).s
  {
    assert (calls + [call])[..|calls|] == calls;
  }

  lemma RunThree(env: Env, a: Call, b: Call, c: Call)
    ensures Run(env, [a, b, c]) == Step(env, Step(env, Step(env, Initial(env), a).s, b).s, c).s
  {
    hide Step;
    assert Run(env, []) == Initial(env);
    RunSnoc(env, [], a);
    RunSnoc(env, [a], b);
    RunSnoc(env, [a, b], c);
    assert [] + [a] == [a] && [a] + [b] == [a, b] && [a, b] + [c] == [a, b, c];
  }

  /** A cycle can reach the critical level and yet offer the queue nothing. */
  lemma CriticalCycleWithoutNotification(env: Env)
    requires OnlyCriticalAuditFails(env)
    ensures var l := Entered(Run(env, [Call(Start, 0.0), Call(BAD_RECORD, 0.0), Call(BAD_RECORD, 0.0)]).trace);
      l.queued == 0 && CriticalCycles(env.policy, l.times) == 1
  {
    hide Run, StartOp, ProcessOp, Entered, CriticalCycles;
    var start, bad := Call(Start, 0.0), Call(BAD_RECORD, 0.0);
    QuietStart(env);
    var s := StartOp(env, Initial(env), 0.0).s;
    FirstStrike(env, s);
    SecondStrike(env, ProcessOp(env, s, BAD_RECORD.record, 0.0).s);
    RunThree(env, start, bad, bad);
    NotificationsMatchCriticalCycles(env, [start, bad, bad]);
  }

  lemma NothingEntered()
    ensures Entered([]).lost == 0 && Entered([]).queued == 0
  {
  }

  // ---------------------------------------------------------------- what credentials reveal

  /** What the controller lets out about a record. */
  datatype Seen = Classified(outcome: Outcome) | Unreadable(reason: string)

  function See(env: Env, record: RecordResult): Seen {
    match record
    case Parsed(credential) => Classified(env.classify(credential))
    case Malformed(reason) => Unreadable(Sanitise(reason))
  }

  ghost predicate Alike(env1: Env, a: Call, env2: Env, b: Call) {
    && a.at == b.at
    && if a.op.Process? && b.op.Process? then See(env1, a.op.record) == See(env2, b.op.record) else a.op == b.op
  }

  /** The same controller with another authorization table. */
  ghost predicate SameWorld(env1: Env, env2: Env) {
    && env1.adapter == env2.adapter && env1.releaseSeconds == env2.releaseSeconds
    && env1.policy == env2.policy && env1.faults == env2.faults
  }

  lemma TrySame(env1: Env, env2: Env)
    requires SameWorld(env1, env2)
    ensures forall s: Sys, effect: Effect, now: real
              {:trigger Try(env1, s, effect, now)} {:trigger Try(env2, s, effect, now)} ::
      Try(env1, s, effect, now) == Try(env2, s, effect, now)
  {
  }

  lemma SafeStateAlike(env1: Env, env2: Env, s: Sys, now: real)
    requires SameWorld(env1, env2)
    ensures AttemptSafeState(env1, s, now) == AttemptSafeState(env2, s, now)
  {
  }

  lemma StartAlike(env1: Env, env2: Env, s: Sys, now: real)
    requires SameWorld(env1, env2)
    ensures StartOp(env1, s, now) == StartOp(env2, s, now)
  {
  }

  lemma ReleaseAlike(env1: Env, env2: Env, s: Sys, now: real)
    requires SameWorld(env1, env2)
    ensures Release(env1, s, now) == Release(env2, s, now)
  {
  }

  lemma ProcessAlike(env1: Env, env2: Env, s: Sys, r1: RecordResult, r2: RecordResult, now: real)
    requires SameWorld(env1, env2) && See(env1, r1) == See(env2, r2)
    ensures ProcessOp(env1, s, r1, now) == ProcessOp(env2, s, r2, now)
  {
    hide Advance, Sanitise, Try, Release, RecordSuspicious;
    TrySame(env1, env2);
    var audited := match See(env1, r1)
      case Unreadable(reason) => Audit(env1, s, MalformedRecord, WarningLevel, Because(reason), now)
      case Classified(Denied) => Audit(env1, s, CredentialDenied, WarningLevel, NoDetail, now)
      case Classified(Unknown) => Audit(env1, s, CredentialUnknown, WarningLevel, NoDetail, now)
      case Classified(Authorized) => Audit(env1, s, CredentialAuthorized, InfoLevel, NoDetail, now);
    ReleaseAlike(env1, env2, audited.s, now);
    SuspiciousAlike(env1, env2, audited.s, now);
  }

  lemma SuspiciousAlike(env1: Env, env2: Env, s: Sys, now: real)
    requires SameWorld(env1, env2)
    ensures RecordSuspicious(env1, s, now) == RecordSuspicious(env2, s, now)
  {
  }

  lemma FinishAlike(env1: Env, env2: Env, s: Sys, safe: bool, now: real)
    requires SameWorld(env1, env2)
    ensures FinishShutdown(env1, s, safe, now) == FinishShutdown(env2, s, safe, now)
  {
  }

  lemma StepAlike(env1: Env, env2: Env, s: Sys, a: Call, b: Call)
    requires SameWorld(env1, env2) && Alike(env1, a, env2, b)
    ensures Step(env1, s, a) == Step(env2, s, b)
  {
    hide Try, AttemptSafeState, StartOp, ProcessOp, FinishShutdown;
    TrySame(env1, env2);
    match a.op
    case Start => StartAlike(env1, env2, s, a.at);
    case Process(record) => ProcessAlike(env1, env2, s, record, b.op.record, a.at);
    case Tick =>
    case RecoverableFailure => SafeStateAlike(env1, env2, s, a.at);
    case Shutdown =>
      var closing := s.(state := ShuttingDown);
      SafeStateAlike(env1, env2, closing, a.at);
      var (attempt, safe) := AttemptSafeState(env1, closing, a.at);
      FinishAlike(env1, env2, attempt.s.(deadline := None), safe, a.at);
  }

  /** Two runs whose records look alike behave alike: the same trace of relay commands, audit events and
      notifications, and the same state, whatever the credentials were. */
  lemma {:induction false} CredentialsDoNotLeak(env1: Env, calls1: seq<Call>, env2: Env, calls2: seq<Call>)
    requires SameWorld(env1, env2) && |calls1| == |calls2|
    requires forall i :: 0 <= i < |calls1| ==> Alike(env1, calls1[i], env2, calls2[i])
    ensures Run(env1, calls1) == Run(env2, calls2)
  {
    if calls1 != [] {
      var n := |calls1| - 1;
      CredentialsDoNotLeak(env1, calls1[..n], env2, calls2[..n]);
      StepAlike(env1, env2, Run(env1, calls1[..n]), calls1[n], calls2[n]);
    }
  }
}
