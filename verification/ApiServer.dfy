/** The API server's lifecycle: callers of `start` and `stop` and the server thread, interleaved. Every
    section under the lock, and every step between two of them, is one atomic action. */
module ApiServer {

  datatype State =
    New | Starting | Running | StartFailed | StartTimedOut | Failed | Stopping | Stopped | StopTimedOut

  datatype Failure =
    ThreadStartError | StartupTimeout | ShutdownTimeout | RunError | ExitedBeforeStartup | ExitedUnexpectedly

  /** `Raised` and `Returned`: the server function has ended and its thread is about to take the lock. */
  datatype Thread = Unstarted | Serving | Raised | Returned | Exiting | Dead

  predicate Alive(t: Thread) {
    t != Unstarted && t != Dead
  }

  /** How a caller's last call ended. */
  datatype Ended =
    | NoCall
    | StartReturned | StartRaised | StartFoundDeadThread
    | StopReturned | StopRaised | AssertionFailed

  /** Where a caller is. */
  datatype Pc =
    | Idle(ended: Ended)
    | AtThreadStart | AtStartFailure | Polling | AtExitRequest | JoiningAfterTimeout
    | AwaitingOtherStop | JoiningToStop

  datatype Server = Server(
    state: State,
    failures: seq<Failure>,
    thread: Thread,
    started: bool,
    shouldExit: bool,
    stopComplete: bool,
    starts: nat,
    callers: seq<Pc>)

  function Initial(n: nat): Server {
    Server(New, [], Unstarted, false, false, false, 0, seq(n, _ => Idle(NoCall)))
  }

  datatype Action =
    | CallStart(i: nat) | LaunchThread(i: nat, ok: bool) | NoteStartFailure(i: nat)
    | StopPolling(i: nat) | RequestExit(i: nat) | LeaveStartJoin(i: nat)
    | CallStop(i: nat) | LeaveWait(i: nat) | LeaveStopJoin(i: nat)
    | BecomeReady | RunRaises | RunReturns | NoteRunEnd | Die

  predicate IsStart(a: Action) {
    || a.CallStart? || a.LaunchThread? || a.NoteStartFailure? || a.StopPolling? || a.RequestExit? || a.LeaveStartJoin?
  }

  predicate IsStop(a: Action) {
    a.CallStop? || a.LeaveWait? || a.LeaveStopJoin?
  }

  predicate IsThread(a: Action) {
    a.BecomeReady? || a.RunRaises? || a.RunReturns? || a.NoteRunEnd? || a.Die?
  }

  function At(s: Server, i: nat, pc: Pc): Server
    requires i < |s.callers|
  {
    s.(callers := s.callers[i := pc])
  }

  function Fail(s: Server, f: Failure, state: State): Server {
    s.(failures := s.failures + [f], state := state)
  }

  // ---------------------------------------------------------------- start

  function DecideStart(s: Server, i: nat): Server
    requires i < |s.callers|
  {
    if s.state == StartFailed || s.state == Failed || s.state == Stopping || s.state == Stopped then
      At(s, i, Idle(StartRaised))
    else if s.started && s.state == Starting then At(s.(state := Running), i, Idle(StartReturned))
    else if !Alive(s.thread) then At(s, i, Idle(StartFoundDeadThread))
    else At(Fail(s, StartupTimeout, StartTimedOut), i, AtExitRequest)
  }

  function StartStep(s: Server, a: Action): Server
    requires IsStart(a)
    requires a.i < |s.callers|
  {
    var pc := s.callers[a.i];
    match a
    case CallStart(i) =>
      if !pc.Idle? then s
      else if s.state != New then At(s, i, Idle(StartRaised))
      else At(s.(state := Starting), i, AtThreadStart)
    case LaunchThread(i, ok) =>
      if pc != AtThreadStart then s
      else if ok then At(s.(thread := Serving, starts := s.starts + 1), i, Polling)
      else At(s, i, AtStartFailure)
    case NoteStartFailure(i) =>
      if pc != AtStartFailure then s else At(Fail(s, ThreadStartError, StartFailed), i, Idle(StartRaised))
    case StopPolling(i) =>
      if pc != Polling then s else DecideStart(s, i)
    case RequestExit(i) =>
      if pc != AtExitRequest then s else At(s.(shouldExit := true), i, JoiningAfterTimeout)
    case LeaveStartJoin(i) =>
      if pc != JoiningAfterTimeout then s else At(s, i, Idle(StartRaised))
  }

  // ---------------------------------------------------------------- stop

  function BeginStop(s: Server, i: nat): Server
    requires i < |s.callers|
  {
    if s.state == New then At(s.(state := Stopped), i, Idle(StopReturned))
    else if !Alive(s.thread) && (s.state == StartFailed || s.state == Failed || s.state == Stopped) then
      At(s, i, Idle(StopReturned))
    else if !Alive(s.thread) then At(s.(state := Stopped), i, Idle(StopReturned))
    else if s.state == Stopping then At(s, i, AwaitingOtherStop)
    else At(s.(state := Stopping, stopComplete := false, shouldExit := true), i, JoiningToStop)
  }

  function StopStep(s: Server, a: Action): Server
    requires IsStop(a)
    requires a.i < |s.callers|
  {
    var pc := s.callers[a.i];
    match a
    case CallStop(i) =>
      if !pc.Idle? then s else BeginStop(s, i)
    case LeaveWait(i) =>
      if pc != AwaitingOtherStop then s
      else if s.state != StopTimedOut then At(s, i, Idle(StopReturned))
      else if |s.failures| > 0 && s.failures[|s.failures| - 1] == ShutdownTimeout then At(s, i, Idle(StopRaised))
      else At(s, i, Idle(AssertionFailed))
    case LeaveStopJoin(i) =>
      if pc != JoiningToStop then s
      else if Alive(s.thread) then
        At(Fail(s, ShutdownTimeout, StopTimedOut).(stopComplete := true), i, Idle(StopRaised))
      else At(s.(state := Stopped, stopComplete := true), i, Idle(StopReturned))
  }

  // ---------------------------------------------------------------- the server thread

  function ThreadStep(s: Server, a: Action): Server
    requires IsThread(a)
  {
    match a
    case BecomeReady => if s.thread == Serving then s.(started := true) else s
    case RunRaises => if s.thread == Serving then s.(thread := Raised) else s
    case RunReturns => if s.thread == Serving then s.(thread := Returned) else s
    case NoteRunEnd =>
      if s.thread == Raised then
        Fail(s.(thread := Exiting), RunError, if s.state == Starting && !s.started then StartFailed else Failed)
      else if s.thread == Returned then
        var t := s.(thread := Exiting);
        if s.state == Starting then Fail(t, ExitedBeforeStartup, StartFailed)
        else if s.state == Running then Fail(t, ExitedUnexpectedly, Failed)
        else if s.state == Stopping then t.(state := Stopped)
        else t
      else s
    case Die => if s.thread == Exiting then s.(thread := Dead) else s
  }

  /** An action that is not possible changes nothing, so every interleaving is a sequence of actions. */
  function Step(s: Server, a: Action): Server {
    match a
    case CallStart(i) => if i < |s.callers| then StartStep(s, a) else s
    case LaunchThread(i, _) => if i < |s.callers| then StartStep(s, a) else s
    case NoteStartFailure(i) => if i < |s.callers| then StartStep(s, a) else s
    case StopPolling(i) => if i < |s.callers| then StartStep(s, a) else s
    case RequestExit(i) => if i < |s.callers| then StartStep(s, a) else s
    case LeaveStartJoin(i) => if i < |s.callers| then StartStep(s, a) else s
    case CallStop(i) => if i < |s.callers| then StopStep(s, a) else s
    case LeaveWait(i) => if i < |s.callers| then StopStep(s, a) else s
    case LeaveStopJoin(i) => if i < |s.callers| then StopStep(s, a) else s
    case _ => ThreadStep(s, a)
  }

  function Run(n: nat, actions: seq<Action>): Server {
    if actions == [] then Initial(n) else Step(Run(n, actions[..|actions| - 1]), actions[|actions| - 1])
  }

  // ---------------------------------------------------------------- any number of callers

  predicate InStart(pc: Pc) {
    pc == AtThreadStart || pc == AtStartFailure || pc == Polling || pc == AtExitRequest || pc == JoiningAfterTimeout
  }

  predicate BeforeThread(pc: Pc) {
    pc == AtThreadStart || pc == AtStartFailure
  }

  /** The thread is started at most once, and only the one caller that left NEW can start it. */
  ghost predicate OneStarter(s: Server) {
    && s.starts <= 1 && (s.starts == 0 <==> s.thread == Unstarted)
    && (forall i, j :: 0 <= i < |s.callers| && 0 <= j < |s.callers| ==>
          InStart(s.callers[i]) && InStart(s.callers[j]) ==> i == j)
    && (forall i :: 0 <= i < |s.callers| && InStart(s.callers[i]) ==> s.state != New)
    && (forall i :: 0 <= i < |s.callers| && BeforeThread(s.callers[i]) ==> s.thread == Unstarted)
    && (s.state == New ==> s.thread == Unstarted)
  }

  /** Failed and timed-out states carry their failure, and a thread that has ended is not left STARTING or
      RUNNING. */
  ghost predicate Explained(s: Server) {
    ExplainedBy(s.state, s.failures, s.thread)
  }

  ghost predicate ExplainedBy(state: State, failures: seq<Failure>, thread: Thread) {
    && (state == StartFailed || state == StartTimedOut || state == Failed || state == StopTimedOut ==> failures != [])
    && (thread == Exiting || thread == Dead ==> state != New && state != Starting && state != Running)
    && (state == StopTimedOut ==> failures[|failures| - 1] == ShutdownTimeout)
  }

  /** The assertion in `stop` has not failed for any caller. */
  ghost predicate Unrefuted(s: Server) {
    forall i :: 0 <= i < |s.callers| ==> s.callers[i] != Idle(AssertionFailed)
  }

  ghost predicate Invariant(s: Server) {
    OneStarter(s) && Explained(s) && Unrefuted(s)
  }

  /** A caller that moves on without entering `start` disturbs no other caller's claim. */
  lemma MoveKeepsStarter(s: Server, t: Server, i: nat, pc: Pc)
    requires OneStarter(s) && i < |s.callers| && t.callers == s.callers[i := pc]
    requires t.starts == s.starts && t.thread == s.thread && (t.state == New ==> s.state == New && !InStart(pc))
    requires InStart(pc) ==> InStart(s.callers[i]) || s.state == New
    requires BeforeThread(pc) ==> s.thread == Unstarted
    ensures OneStarter(t)
  {
  }

  /** What the claims say of one caller. */
  lemma StarterFacts(s: Server, i: nat)
    requires OneStarter(s) && i < |s.callers|
    ensures InStart(s.callers[i]) ==> s.state != New
    ensures BeforeThread(s.callers[i]) ==> s.thread == Unstarted
    ensures s.state == New ==> s.thread == Unstarted
  {
  }

  /** One caller moves from `s` to `t`; the thread is not started. */
  ghost predicate Moves(s: Server, t: Server, i: nat) {
    && t.starts == s.starts && t.thread == s.thread && (t.state == New ==> s.state == New)
    && i < |s.callers| == |t.callers| && t.callers == s.callers[i := t.callers[i]]
    && (InStart(t.callers[i]) ==> InStart(s.callers[i]) || (s.state == New && t.state != New))
    && (BeforeThread(t.callers[i]) ==> BeforeThread(s.callers[i]) || s.state == New)
  }

  lemma DecideStartMoves(s: Server, i: nat)
    requires i < |s.callers| && s.callers[i] == Polling
    ensures Moves(s, DecideStart(s, i), i)
  {
    hide Alive;
  }

  lemma StartMoves(s: Server, a: Action)
    requires IsStart(a) && a.i < |s.callers| && !(a.LaunchThread? && a.ok)
    ensures Moves(s, StartStep(s, a), a.i)
  {
    hide DecideStart;
    if a.StopPolling? && s.callers[a.i] == Polling {
      hide Moves;
      DecideStartMoves(s, a.i);
    }
  }

  lemma StartKeepsStarter(s: Server, a: Action)
    requires IsStart(a) && a.i < |s.callers| && OneStarter(s)
    ensures OneStarter(StartStep(s, a))
  {
    if a.LaunchThread? && a.ok {
      LaunchKeepsStarter(s, a.i);
    } else {
      StarterFacts(s, a.i);
      StartMoves(s, a);
      hide OneStarter, StartStep, InStart, BeforeThread;
      var t := StartStep(s, a);
      MoveKeepsStarter(s, t, a.i, t.callers[a.i]);
    }
  }

  lemma LaunchKeepsStarter(s: Server, i: nat)
    requires i < |s.callers| && OneStarter(s)
    ensures OneStarter(StartStep(s, LaunchThread(i, true)))
  {
  }

  lemma BeginStopMoves(s: Server, i: nat)
    requires i < |s.callers|
    ensures Moves(s, BeginStop(s, i), i)
  {
    hide Alive;
  }

  lemma StopMoves(s: Server, a: Action)
    requires IsStop(a) && a.i < |s.callers|
    ensures Moves(s, StopStep(s, a), a.i)
  {
    hide BeginStop, Alive;
    if a.CallStop? && s.callers[a.i].Idle? {
      hide Moves;
      BeginStopMoves(s, a.i);
    }
  }

  lemma StopKeepsStarter(s: Server, a: Action)
    requires IsStop(a) && a.i < |s.callers| && OneStarter(s)
    ensures OneStarter(StopStep(s, a))
  {
    hide OneStarter, StopStep, InStart, BeforeThread;
    StarterFacts(s, a.i);
    StopMoves(s, a);
    var t := StopStep(s, a);
    MoveKeepsStarter(s, t, a.i, t.callers[a.i]);
  }

  lemma ThreadKeepsStarter(s: Server, a: Action)
    requires IsThread(a)
    requires OneStarter(s)
    ensures OneStarter(ThreadStep(s, a))
  {
  }

  lemma StartKeepsExplained(s: Server, a: Action)
    requires IsStart(a) && a.i < |s.callers| && Explained(s) && (s.state == New ==> s.thread == Unstarted)
    ensures Explained(StartStep(s, a))
  {
    hide DecideStart;
    DecideStartKeepsExplained(s, a.i);
  }

  lemma DecideStartKeepsExplained(s: Server, i: nat)
    requires i < |s.callers| && Explained(s)
    ensures Explained(DecideStart(s, i))
  {
  }

  lemma CallersKeepUnrefuted(s: Server, a: Action)
    requires Explained(s) && Unrefuted(s)
    ensures IsStart(a) ==>
      a.i < |s.callers| ==> Unrefuted(StartStep(s, a))
    ensures IsStop(a) ==> a.i < |s.callers| ==> Unrefuted(StopStep(s, a))
  {
  }

  lemma StopKeepsExplained(s: Server, a: Action)
    requires IsStop(a) && a.i < |s.callers| && Explained(s) && (s.state == New ==> s.thread == Unstarted)
    ensures Explained(StopStep(s, a))
  {
    hide BeginStop;
    BeginStopKeepsExplained(s, a.i);
  }

  lemma BeginStopKeepsExplained(s: Server, i: nat)
    requires i < |s.callers| && Explained(s)
    ensures Explained(BeginStop(s, i))
  {
  }

  lemma ThreadKeepsExplained(s: Server, a: Action)
    requires IsThread(a)
    requires Explained(s) && (s.state == New ==> s.thread == Unstarted)
    ensures Explained(ThreadStep(s, a)) && (Unrefuted(s) ==> Unrefuted(ThreadStep(s, a)))
  {
    assert ThreadStep(s, a).callers == s.callers;
  }

  lemma StepKeepsInvariant(s: Server, a: Action)
    requires Invariant(s)
    ensures Invariant(Step(s, a))
  {
    assert s.state == New ==> s.thread == Unstarted;
    CallersKeepUnrefuted(s, a);
    hide OneStarter, Explained, Unrefuted, StartStep, StopStep, ThreadStep;
    if IsStop(a) {
      if a.i < |s.callers| {
        StopKeepsStarter(s, a);
        StopKeepsExplained(s, a);
      }
    } else if IsThread(a) {
      ThreadKeepsStarter(s, a);
      ThreadKeepsExplained(s, a);
    } else if a.i < |s.callers| {
      StartKeepsStarter(s, a);
      StartKeepsExplained(s, a);
    }
  }

  /** What never goes back from one state to the next. */
  ghost predicate Grows(s: Server, t: Server) {
    && (t.state == New ==> s.state == New)
    && |t.callers| == |s.callers|
    && s.failures <= t.failures
  }

  lemma StartGrows(s: Server, a: Action)
    requires IsStart(a)
    requires a.i < |s.callers|
    ensures Grows(s, StartStep(s, a))
  {
  }

  lemma StopGrows(s: Server, a: Action)
    requires IsStop(a)
    requires a.i < |s.callers|
    ensures Grows(s, StopStep(s, a))
  {
  }

  /** NEW is never entered again and failures only grow. */
  lemma StepGrows(s: Server, a: Action)
    ensures Grows(s, Step(s, a))
  {
    hide StartStep, StopStep;
    if IsStop(a) {
      if a.i < |s.callers| {
        StopGrows(s, a);
      }
    } else if IsThread(a) {
    } else if a.i < |s.callers| {
      StartGrows(s, a);
    }
  }

  lemma GrowsFurther(s: Server, t: Server, u: Server)
    requires Grows(s, t) && Grows(t, u)
    ensures Grows(s, u)
  {
  }

  lemma RunSnoc(n: nat, actions: seq<Action>, a: Action)
    ensures Run(n, actions + [a]) == Step(Run(n, actions), a)
  {
    assert (actions + [a])[..|actions|] == actions;
  }

  lemma {:induction false} RunKeepsInvariant(n: nat, actions: seq<Action>)
    ensures Invariant(Run(n, actions)) && |Run(n, actions).callers| == n
  {
    if actions != [] {
      hide Invariant, Run, Step;
      var front, a := actions[..|actions| - 1], actions[|actions| - 1];
      assert actions == front + [a];
      RunSnoc(n, front, a);
      RunKeepsInvariant(n, front);
      StepKeepsInvariant(Run(n, front), a);
      StepGrows(Run(n, front), a);
    }
  }

  lemma {:induction false} RunGrows(n: nat, actions: seq<Action>, more: seq<Action>)
    ensures Grows(Run(n, actions), Run(n, actions + more))
    decreases |more|
  {
    if more == [] {
      assert actions + more == actions;
    } else {
      hide Grows, Run, Step;
      var front, a := more[..|more| - 1], more[|more| - 1];
      assert actions + more == (actions + front) + [a];
      RunSnoc(n, actions + front, a);
      RunGrows(n, actions, front);
      StepGrows(Run(n, actions + front), a);
      GrowsFurther(Run(n, actions), Run(n, actions + front), Run(n, actions + more));
    }
  }

  // ---------------------------------------------------------------- one controlling thread

  /** What the single caller's position says about the state and the thread. */
  ghost predicate Controlled(s: Server) {
    && |s.callers| == 1
    && (s.state == New ==> s.thread == Unstarted)
    && match s.callers[0]
       case Idle(ended) =>
         && s.state != Stopping && ended != StartFoundDeadThread
         && (ended == StopReturned ==>
               !Alive(s.thread) && (s.state == Stopped || s.state == StartFailed || s.state == Failed))
         && s.state != Starting
       case AtThreadStart => s.state == Starting && s.thread == Unstarted
       case AtStartFailure => s.state == Starting && s.thread == Unstarted
       case Polling => (s.state == Starting || s.state == StartFailed || s.state == Failed) && s.thread != Unstarted
       case AtExitRequest => (s.state == StartTimedOut || s.state == Failed)
       case JoiningAfterTimeout => (s.state == StartTimedOut || s.state == Failed)
       case AwaitingOtherStop => false
       case JoiningToStop => (s.state == Stopping || s.state == Stopped || s.state == Failed)
  }

  lemma StartStaysControlled(s: Server, a: Action)
    requires IsStart(a)
    requires a.i < |s.callers| && Explained(s) && Controlled(s)
    ensures Controlled(StartStep(s, a))
  {
  }

  lemma StopStaysControlled(s: Server, a: Action)
    requires IsStop(a)
    requires a.i < |s.callers| && Explained(s) && Controlled(s)
    ensures Controlled(StopStep(s, a))
  {
  }

  lemma ThreadStaysControlled(s: Server, a: Action)
    requires IsThread(a)
    requires Explained(s) && Controlled(s)
    ensures Controlled(ThreadStep(s, a))
  {
  }

  lemma StepStaysControlled(s: Server, a: Action)
    requires Explained(s) && Controlled(s)
    ensures Controlled(Step(s, a))
  {
    hide Explained, Controlled, StartStep, StopStep, ThreadStep;
    if IsStop(a) {
      if a.i < |s.callers| {
        StopStaysControlled(s, a);
      }
    } else if IsThread(a) {
      ThreadStaysControlled(s, a);
    } else if a.i < |s.callers| {
      StartStaysControlled(s, a);
    }
  }

  lemma {:induction false} RunStaysControlled(actions: seq<Action>)
    ensures Controlled(Run(1, actions))
  {
    if actions != [] {
      var front, a := actions[..|actions| - 1], actions[|actions| - 1];
      RunKeepsInvariant(1, front);
      hide Controlled, Explained, Run, Step;
      assert actions == front + [a];
      RunSnoc(1, front, a);
      RunStaysControlled(front);
      StepStaysControlled(Run(1, front), a);
    }
  }

  /** When `stop` returns normally to the only controlling thread, the server thread is not alive and the
      state is final. */
  lemma StopLeavesNoThread(actions: seq<Action>)
    requires Run(1, actions).callers == [Idle(StopReturned)]
    ensures var s := Run(1, actions);
      !Alive(s.thread) && (s.state == Stopped || s.state == StartFailed || s.state == Failed)
  {
    RunStaysControlled(actions);
  }

  /** A `stop` that timed out can be repeated: once the thread has died, the next call returns at once. */
  lemma StopCanBeRepeated(actions: seq<Action>)
    requires var s := Run(1, actions); |s.callers| == 1 && s.callers[0].Idle? && !Alive(s.thread)
    ensures var t := Run(1, actions + [CallStop(0)]);
      && t.callers == [Idle(StopReturned)] && !Alive(t.thread)
      && (t.state == Stopped || t.state == StartFailed || t.state == Failed)
  {
    hide Run;
    RunStaysControlled(actions);
    RunSnoc(1, actions, CallStop(0));
    StopOfDeadThread(Run(1, actions));
  }

  lemma StopOfDeadThread(s: Server)
    requires Controlled(s) && s.callers[0].Idle? && !Alive(s.thread)
    ensures var t := Step(s, CallStop(0));
      && t.callers == [Idle(StopReturned)] && !Alive(t.thread)
      && (t.state == Stopped || t.state == StartFailed || t.state == Failed)
  {
  }

  /** With one controlling thread, `start` never finds the thread dead without a recorded cause. */
  lemma StartNeverFindsDeadThread(actions: seq<Action>)
    ensures var s := Run(1, actions); |s.callers| == 1 && s.callers[0] != Idle(StartFoundDeadThread)
  {
    RunStaysControlled(actions);
  }

  // ---------------------------------------------------------------- why one controlling thread

  lemma RunThree(n: nat, a: Action, b: Action, c: Action)
    ensures Run(n, [a, b, c]) == Step(Step(Step(Initial(n), a), b), c)
  {
    hide Step;
    assert Run(n, []) == Initial(n);
    RunSnoc(n, [], a);
    RunSnoc(n, [a], b);
    RunSnoc(n, [a, b], c);
    assert [] + [a] == [a] && [a] + [b] == [a, b] && [a, b] + [c] == [a, b, c];
  }

  /** A second caller's `stop` can return while the thread has yet to start, and then it starts. */
  lemma SecondCallerCanLeaveThread(n: nat)
    requires n >= 2
    ensures var s := Run(n, [CallStart(0), CallStop(1), LaunchThread(0, true)]);
      |s.callers| == n && s.callers[1] == Idle(StopReturned) && Alive(s.thread) && s.state == Stopped
  {
    hide Run;
    RunThree(n, CallStart(0), CallStop(1), LaunchThread(0, true));
    var s1 := Step(Initial(n), CallStart(0));
    assert s1.state == Starting && s1.thread == Unstarted && |s1.callers| == n;
    assert s1.callers[0] == AtThreadStart && s1.callers[1] == Idle(NoCall);
    var s2 := Step(s1, CallStop(1));
    assert s2.state == Stopped && s2.thread == Unstarted && |s2.callers| == n;
    assert s2.callers[0] == AtThreadStart && s2.callers[1] == Idle(StopReturned);
  }

  /** In this run, a caller to which `stop` has returned normally finds no live thread. */
  ghost predicate StopIsFinal(s: Server) {
    forall i :: 0 <= i < |s.callers| && s.callers[i] == Idle(StopReturned) ==> !Alive(s.thread)
  }

  /** That a normal return of `stop` leaves no live thread holds, over every run, exactly for one caller at most. */
  lemma StopIsFinalForOneCaller(n: nat)
    ensures (forall actions :: StopIsFinal(Run(n, actions))) <==> n <= 1
  {
    if n >= 2 {
      SecondCallerCanLeaveThread(n);
      assert !StopIsFinal(Run(n, [CallStart(0), CallStop(1), LaunchThread(0, true)]));
    } else {
      forall actions
        ensures StopIsFinal(Run(n, actions))
      {
        RunKeepsInvariant(n, actions);
        if n == 1 {
          RunStaysControlled(actions);
        }
      }
    }
  }
}
