/** The reader supervisor: one session at a time, reconnecting with backoff. */
module Supervisor {
  import opened Options
  import opened Discovery

  datatype Health = Connecting | Ready | Degraded | Stopped

  datatype Kind =
    | ReaderConnecting
    | ReaderConnected
    | ReaderRecovered
    | ReaderNotFound
    | ReaderAmbiguous
    | ReaderOpenFailed
    | ReaderReadFailed
    | ReaderDisconnected
    | ReconnectScheduled
    | RepeatedlyFailed
    | RecordReceived

  /** What the supervisor did, in order: sessions it opened and closed, events it emitted. */
  datatype Item =
    | Opened
    | Closed
    | Emitted(kind: Kind, attempt: nat, backoff: Option<real>, unrelated: nat)

  datatype Settings = Settings(identity: Identity, backoff: BackoffPolicy, threshold: nat) {
    predicate Valid() {
      backoff.Valid() && threshold > 0
    }
  }

  /** What one connection attempt meets. */
  datatype World = World(devices: seq<Device>, opens: bool, unit: real, waits: bool)

  datatype Reading = Data(empty: bool) | Lost | Broken

  datatype State = State(
    session: bool, attempt: nat, hadConnection: bool, announced: bool, health: Health, history: seq<Item>)

  const START := State(false, 0, false, false, Degraded, [])

  function Event(kind: Kind, attempt: nat): Item {
    Emitted(kind, attempt, None, 0)
  }

  // ---------------------------------------------------------------- the calls

  function Log(s: State, item: Item): State {
    s.(history := s.history + [item])
  }

  function Begin(s: State): State {
    Log(s.(attempt := s.attempt + 1, health := Connecting), Event(ReaderConnecting, s.attempt + 1))
  }

  function Succeed(s: State, unrelated: nat): State {
    var kind := if s.hadConnection then ReaderRecovered else ReaderConnected;
    Log(Log(s, Opened), Emitted(kind, s.attempt, None, unrelated))
      .(session := true, hadConnection := true, announced := false, health := Ready, attempt := 0)
  }

  function Failed(s: State, kind: Kind, unrelated: nat): State {
    Log(s.(health := Degraded), Emitted(kind, s.attempt, None, unrelated))
  }

  function Announce(cfg: Settings, s: State): State {
    if s.attempt >= cfg.threshold && !s.announced
    then Log(s, Event(RepeatedlyFailed, s.attempt)).(announced := true)
    else s
  }

  function Fail(cfg: Settings, s: State, kind: Kind, unrelated: nat, unit: real): State {
    var failed := Announce(cfg, Failed(s, kind, unrelated));
    Log(failed, Emitted(ReconnectScheduled, s.attempt, Some(Delay(cfg.backoff, s.attempt, unit)), 0))
  }

  predicate Opens(cfg: Settings, w: World) {
    Discover(w.devices, cfg.identity).Found? && w.opens
  }

  function Attempt(cfg: Settings, s: State, w: World): State {
    match Discover(w.devices, cfg.identity)
    case NotFound(n) => Fail(cfg, Begin(s), ReaderNotFound, n, w.unit)
    case Ambiguous(n) => Fail(cfg, Begin(s), ReaderAmbiguous, n, w.unit)
    case Found(_, n) =>
      if w.opens then Succeed(Begin(s), n) else Fail(cfg, Begin(s), ReaderOpenFailed, n, w.unit)
  }

  /** Attempts until one succeeds, a wait is cut short, or there are no more. */
  function Connect(cfg: Settings, s: State, worlds: seq<World>): State
    decreases |worlds|
  {
    if worlds == [] then s
    else
      var next := Attempt(cfg, s, worlds[0]);
      if Opens(cfg, worlds[0]) || !worlds[0].waits then next else Connect(cfg, next, worlds[1..])
  }

  /** Whether such a call ends with a new session. */
  predicate Connects(cfg: Settings, worlds: seq<World>) {
    worlds != [] && (Opens(cfg, worlds[0]) || (worlds[0].waits && Connects(cfg, worlds[1..])))
  }

  function Disconnect(s: State): State {
    if s.session then Log(s, Closed).(session := false, health := Degraded) else s
  }

  function Read(s: State, r: Reading): State {
    if !s.session then s
    else
      match r
      case Data(empty) => if empty then s else Log(s, Event(RecordReceived, 0))
      case Lost => Disconnect(Log(s, Event(ReaderDisconnected, 0)))
      case Broken => Disconnect(Log(s, Event(ReaderReadFailed, 0)))
  }

  function Unplug(s: State): State {
    if s.session then Disconnect(Log(s, Event(ReaderDisconnected, 0))) else s
  }

  function Close(s: State): State {
    Disconnect(s).(health := Stopped)
  }

  datatype Call = DoConnect(worlds: seq<World>) | DoRead(reading: Reading) | DoUnplug | DoClose

  function Step(cfg: Settings, s: State, c: Call): State {
    match c
    case DoConnect(worlds) => Connect(cfg, s, worlds)
    case DoRead(r) => Read(s, r)
    case DoUnplug => Unplug(s)
    case DoClose => Close(s)
  }

  function Run(cfg: Settings, calls: seq<Call>): State {
    if calls == [] then START else Step(cfg, Run(cfg, calls[..|calls| - 1]), calls[|calls| - 1])
  }

  /** The supervisor is asked to connect only while it has no session. */
  predicate Disciplined(cfg: Settings, calls: seq<Call>) {
    forall k :: 0 <= k < |calls| && calls[k].DoConnect? ==> !Run(cfg, calls[..k]).session
  }

  predicate UnitsWithin(calls: seq<Call>, low: real, high: real) {
    forall k :: 0 <= k < |calls| && calls[k].DoConnect? ==> WorldsWithin(calls[k].worlds, low, high)
  }

  predicate WorldsWithin(worlds: seq<World>, low: real, high: real) {
    forall i :: 0 <= i < |worlds| ==> low <= worlds[i].unit <= high
  }

  // ---------------------------------------------------------------- reading the history

  predicate IsSuccess(item: Item) {
    item.Emitted? && (item.kind == ReaderConnected || item.kind == ReaderRecovered)
  }

  predicate IsFailure(item: Item) {
    item.Emitted? && (item.kind == ReaderNotFound || item.kind == ReaderAmbiguous || item.kind == ReaderOpenFailed)
  }

  /** Sessions opened and not closed. */
  function Balance(h: seq<Item>): int {
    if h == [] then 0
    else
      Balance(h[..|h| - 1]) + (match h[|h| - 1] case Opened => 1 case Closed => -1 case _ => 0)
  }

  predicate Succeeded(h: seq<Item>) {
    exists k :: 0 <= k < |h| && IsSuccess(h[k])
  }

  /** Failed attempts since the last success. */
  function Failures(h: seq<Item>): nat {
    if h == [] then 0
    else
      var last := h[|h| - 1];
      if IsSuccess(last) then 0 else Failures(h[..|h| - 1]) + if IsFailure(last) then 1 else 0
  }

  predicate EndsInFailure(h: seq<Item>) {
    h != [] && IsFailure(h[|h| - 1])
  }

  /** What each item must be, given everything that happened before it. */
  ghost predicate Fitting(cfg: Settings, low: real, high: real, h: seq<Item>, item: Item) {
    && (item.Emitted? && item.kind == RepeatedlyFailed <==> EndsInFailure(h) && Failures(h) == cfg.threshold)
    && (item.Emitted? ==>
          && (item.kind == ReaderConnected ==> !Succeeded(h))
          && (item.kind == ReaderRecovered ==> Succeeded(h))
          && (IsFailure(item) ==> item.attempt == Failures(h) + 1)
          && (item.kind == RepeatedlyFailed ==> item.attempt == cfg.threshold)
          && (item.kind == ReconnectScheduled ==>
                && item.attempt == Failures(h) && item.backoff.Some?
                && Delay(cfg.backoff, item.attempt, low) <= item.backoff.value
                && item.backoff.value <= Delay(cfg.backoff, item.attempt, high)))
  }

  ghost predicate AllFitting(cfg: Settings, low: real, high: real, h: seq<Item>) {
    forall k :: 0 <= k < |h| ==> Fitting(cfg, low, high, h[..k], h[k])
  }

  /** The fields say what the history says. */
  ghost predicate Faithful(cfg: Settings, s: State) {
    && s.attempt == Failures(s.history)
    && s.hadConnection == Succeeded(s.history)
    && s.announced == (Failures(s.history) >= cfg.threshold)
    && !EndsInFailure(s.history)
  }

  ghost predicate OneSession(s: State) {
    && Balance(s.history) == (if s.session then 1 else 0)
    && (s.session <==> s.health == Ready)
  }

  ghost predicate Sound(cfg: Settings, low: real, high: real, s: State) {
    Faithful(cfg, s) && OneSession(s) && AllFitting(cfg, low, high, s.history)
  }

  lemma Extend(cfg: Settings, low: real, high: real, h: seq<Item>, item: Item)
    ensures var g := h + [item];
            && Balance(g) == Balance(h) + (match item case Opened => 1 case Closed => -1 case _ => 0)
            && (Succeeded(g) <==> Succeeded(h) || IsSuccess(item))
            && Failures(g) == (if IsSuccess(item) then 0 else Failures(h) + if IsFailure(item) then 1 else 0)
            && (EndsInFailure(g) <==> IsFailure(item))
            && (AllFitting(cfg, low, high, h) && Fitting(cfg, low, high, h, item) ==> AllFitting(cfg, low, high, g))
  {
    var g := h + [item];
    assert g[..|h|] == h;
    hide Fitting;
    if Succeeded(h) {
      var k :| 0 <= k < |h| && IsSuccess(h[k]);
      assert IsSuccess(g[k]);
    }
    if IsSuccess(item) {
      assert IsSuccess(g[|h|]);
    }
    if AllFitting(cfg, low, high, h) && Fitting(cfg, low, high, h, item) {
      forall k | 0 <= k < |g| ensures Fitting(cfg, low, high, g[..k], g[k]) {
        if k < |h| {
          assert g[..k] == h[..k];
        }
      }
    }
  }

  // ---------------------------------------------------------------- what every call keeps

  /** An attempt is under way: one more than the failures so far, nothing open. */
  ghost predicate Trying(cfg: Settings, low: real, high: real, s: State) {
    && s.attempt == Failures(s.history) + 1
    && s.hadConnection == Succeeded(s.history)
    && s.announced == (Failures(s.history) >= cfg.threshold)
    && !EndsInFailure(s.history)
    && Balance(s.history) == 0 && !s.session
    && AllFitting(cfg, low, high, s.history)
  }

  lemma BeginTries(cfg: Settings, low: real, high: real, s: State)
    requires cfg.Valid() && Sound(cfg, low, high, s) && !s.session
    ensures Trying(cfg, low, high, Begin(s))
  {
    hide Balance, Succeeded, Failures, EndsInFailure, AllFitting, Delay;
    Extend(cfg, low, high, s.history, Event(ReaderConnecting, s.attempt + 1));
  }

  lemma SucceedIsSound(cfg: Settings, low: real, high: real, s: State, unrelated: nat)
    requires cfg.Valid() && Trying(cfg, low, high, s)
    ensures Sound(cfg, low, high, Succeed(s, unrelated))
  {
    hide Balance, Succeeded, Failures, EndsInFailure, AllFitting, Delay;
    Extend(cfg, low, high, s.history, Opened);
    var kind := if s.hadConnection then ReaderRecovered else ReaderConnected;
    Extend(cfg, low, high, s.history + [Opened], Emitted(kind, s.attempt, None, unrelated));
  }

  /** The failure is on record and, if it was due, so is the announcement. */
  ghost predicate Recorded(cfg: Settings, low: real, high: real, s: State) {
    && s.attempt == Failures(s.history)
    && s.hadConnection == Succeeded(s.history)
    && s.announced == (Failures(s.history) >= cfg.threshold)
    && !(EndsInFailure(s.history) && Failures(s.history) == cfg.threshold)
    && Balance(s.history) == 0 && !s.session && s.health == Degraded
    && AllFitting(cfg, low, high, s.history)
  }

  lemma FailureIsRecorded(cfg: Settings, low: real, high: real, s: State, kind: Kind, unrelated: nat)
    requires cfg.Valid() && Trying(cfg, low, high, s)
    requires kind == ReaderNotFound || kind == ReaderAmbiguous || kind == ReaderOpenFailed
    ensures Recorded(cfg, low, high, Announce(cfg, Failed(s, kind, unrelated)))
  {
    hide Balance, Succeeded, Failures, EndsInFailure, AllFitting, Delay;
    var item := Emitted(kind, s.attempt, None, unrelated);
    Extend(cfg, low, high, s.history, item);
    if s.attempt == cfg.threshold {
      Extend(cfg, low, high, s.history + [item], Event(RepeatedlyFailed, s.attempt));
    }
  }

  lemma ScheduleIsSound(cfg: Settings, low: real, high: real, s: State, delay: real)
    requires cfg.Valid() && Recorded(cfg, low, high, s)
    requires Delay(cfg.backoff, s.attempt, low) <= delay <= Delay(cfg.backoff, s.attempt, high)
    ensures Sound(cfg, low, high, Log(s, Emitted(ReconnectScheduled, s.attempt, Some(delay), 0)))
  {
    hide Balance, Succeeded, Failures, EndsInFailure, AllFitting, Delay;
    Extend(cfg, low, high, s.history, Emitted(ReconnectScheduled, s.attempt, Some(delay), 0));
  }

  lemma FailIsSound(cfg: Settings, low: real, high: real, s: State, kind: Kind, unrelated: nat, unit: real)
    requires cfg.Valid() && Trying(cfg, low, high, s) && 0.0 <= low <= unit <= high
    requires kind == ReaderNotFound || kind == ReaderAmbiguous || kind == ReaderOpenFailed
    ensures Sound(cfg, low, high, Fail(cfg, s, kind, unrelated, unit))
  {
    hide Trying, Recorded, Sound, Delay;
    DelayGrows(cfg.backoff, s.attempt, s.attempt, low, unit);
    DelayGrows(cfg.backoff, s.attempt, s.attempt, unit, high);
    FailureIsRecorded(cfg, low, high, s, kind, unrelated);
    ScheduleIsSound(cfg, low, high, Announce(cfg, Failed(s, kind, unrelated)), Delay(cfg.backoff, s.attempt, unit));
  }

  lemma AttemptIsSound(cfg: Settings, low: real, high: real, s: State, w: World)
    requires cfg.Valid() && Sound(cfg, low, high, s) && !s.session && 0.0 <= low <= w.unit <= high
    ensures Sound(cfg, low, high, Attempt(cfg, s, w))
    ensures Attempt(cfg, s, w).session == Opens(cfg, w)
  {
    hide Trying, Sound;
    BeginTries(cfg, low, high, s);
    var b := Begin(s);
    match Discover(w.devices, cfg.identity)
    case NotFound(n) => FailIsSound(cfg, low, high, b, ReaderNotFound, n, w.unit);
    case Ambiguous(n) => FailIsSound(cfg, low, high, b, ReaderAmbiguous, n, w.unit);
    case Found(_, n) =>
      if w.opens {
        SucceedIsSound(cfg, low, high, b, n);
      } else {
        FailIsSound(cfg, low, high, b, ReaderOpenFailed, n, w.unit);
      }
  }

  lemma {:induction false} ConnectIsSound(cfg: Settings, low: real, high: real, s: State, worlds: seq<World>)
    requires cfg.Valid() && Sound(cfg, low, high, s) && !s.session && 0.0 <= low && WorldsWithin(worlds, low, high)
    ensures Sound(cfg, low, high, Connect(cfg, s, worlds))
    ensures Connect(cfg, s, worlds).session == Connects(cfg, worlds)
    decreases |worlds|
  {
    hide Sound, Attempt, Opens;
    if worlds != [] {
      assert low <= worlds[0].unit <= high;
      AttemptIsSound(cfg, low, high, s, worlds[0]);
      if !Opens(cfg, worlds[0]) && worlds[0].waits {
        assert WorldsWithin(worlds[1..], low, high);
        ConnectIsSound(cfg, low, high, Attempt(cfg, s, worlds[0]), worlds[1..]);
      }
    }
  }

  /** An event that is neither a success nor part of an outage changes nothing. */
  lemma LogIsSound(cfg: Settings, low: real, high: real, s: State, kind: Kind)
    requires cfg.Valid() && Sound(cfg, low, high, s)
    requires kind == RecordReceived || kind == ReaderDisconnected || kind == ReaderReadFailed
    ensures Sound(cfg, low, high, Log(s, Event(kind, 0)))
  {
    hide Balance, Succeeded, Failures, EndsInFailure, AllFitting, Delay;
    Extend(cfg, low, high, s.history, Event(kind, 0));
  }

  lemma DisconnectIsSound(cfg: Settings, low: real, high: real, s: State)
    requires cfg.Valid() && Sound(cfg, low, high, s)
    ensures Sound(cfg, low, high, Disconnect(s)) && Sound(cfg, low, high, Close(s))
  {
    hide Balance, Succeeded, Failures, EndsInFailure, AllFitting, Delay;
    Extend(cfg, low, high, s.history, Closed);
  }

  lemma StepIsSound(cfg: Settings, low: real, high: real, s: State, c: Call)
    requires cfg.Valid() && Sound(cfg, low, high, s) && 0.0 <= low
    requires c.DoConnect? ==> !s.session && WorldsWithin(c.worlds, low, high)
    ensures Sound(cfg, low, high, Step(cfg, s, c))
  {
    hide Sound, WorldsWithin, Connect, Disconnect, Close;
    match c
    case DoConnect(worlds) => ConnectIsSound(cfg, low, high, s, worlds);
    case DoRead(r) =>
      match r {
        case Data(_) =>
          LogIsSound(cfg, low, high, s, RecordReceived);
        case Lost =>
          LogIsSound(cfg, low, high, s, ReaderDisconnected);
          DisconnectIsSound(cfg, low, high, Log(s, Event(ReaderDisconnected, 0)));
        case Broken =>
          LogIsSound(cfg, low, high, s, ReaderReadFailed);
          DisconnectIsSound(cfg, low, high, Log(s, Event(ReaderReadFailed, 0)));
      }
    case DoUnplug =>
      LogIsSound(cfg, low, high, s, ReaderDisconnected);
      DisconnectIsSound(cfg, low, high, Log(s, Event(ReaderDisconnected, 0)));
    case DoClose => DisconnectIsSound(cfg, low, high, s);
  }

  /**
    * Over every disciplined run: sessions opened minus closed is 1 exactly when connected, which is
    * exactly when the health is ready; and every item of the history fits what came before it.
    */
  lemma {:induction false} RunIsSound(cfg: Settings, low: real, high: real, calls: seq<Call>)
    requires cfg.Valid() && 0.0 <= low && Disciplined(cfg, calls) && UnitsWithin(calls, low, high)
    ensures Sound(cfg, low, high, Run(cfg, calls))
  {
    if calls != [] {
      hide Sound, Step, WorldsWithin;
      var n := |calls| - 1;
      var front := calls[..n];
      assert Disciplined(cfg, front) by {
        forall k | 0 <= k < |front| && front[k].DoConnect? ensures !Run(cfg, front[..k]).session {
          assert front[..k] == calls[..k] && front[k] == calls[k];
        }
      }
      RunIsSound(cfg, low, high, front);
      StepIsSound(cfg, low, high, Run(cfg, front), calls[n]);
    }
  }

  // ---------------------------------------------------------------- what the history then shows

  /** No success among the items from `i` up to `j`: one outage. */
  predicate Outage(h: seq<Item>, i: nat, j: nat)
    requires i <= j <= |h|
  {
    forall k :: i <= k < j ==> !IsSuccess(h[k])
  }

  lemma {:induction false} FailuresGrow(h: seq<Item>, i: nat, j: nat)
    requires i <= j <= |h| && Outage(h, i, j)
    ensures Failures(h[..i]) <= Failures(h[..j])
    decreases j
  {
    if i < j {
      FailuresGrow(h, i, j - 1);
      assert h[..j][..j - 1] == h[..j - 1];
    }
  }

  predicate Announcement(item: Item) {
    item.Emitted? && item.kind == RepeatedlyFailed
  }

  /** Two announcements of repeated failure have a successful connection between them. */
  lemma AnnouncedOncePerOutage(cfg: Settings, low: real, high: real, h: seq<Item>, i: nat, j: nat)
    requires AllFitting(cfg, low, high, h) && i < j < |h|
    requires Announcement(h[i]) && Announcement(h[j])
    ensures !Outage(h, i, j)
  {
    if Outage(h, i, j) {
      assert Fitting(cfg, low, high, h[..i], h[i]) && Fitting(cfg, low, high, h[..j], h[j]);
      hide Fitting;
      assert h[..j][j - 1] == h[j - 1] && IsFailure(h[j - 1]);
      assert h[..j][..j - 1] == h[..j - 1];
      FailuresGrow(h, i, j - 1);
    }
  }

  /** An outage of `threshold` failures is announced, right after the failure that reaches it. */
  lemma LongOutageIsAnnounced(cfg: Settings, low: real, high: real, s: State, k: nat)
    requires cfg.Valid() && Sound(cfg, low, high, s)
    requires k < |s.history| && IsFailure(s.history[k]) && Failures(s.history[..k + 1]) == cfg.threshold
    ensures k + 1 < |s.history| && Announcement(s.history[k + 1])
  {
  }

  /** With one random unit, delays never shrink within an outage. */
  lemma DelaysGrowInOutage(cfg: Settings, unit: real, h: seq<Item>, i: nat, j: nat)
    requires cfg.Valid() && 0.0 <= unit <= 1.0 && AllFitting(cfg, unit, unit, h)
    requires i <= j < |h| && Outage(h, i, j)
    requires h[i].Emitted? && h[i].kind == ReconnectScheduled && h[j].Emitted? && h[j].kind == ReconnectScheduled
    ensures h[i].backoff.Some? && h[j].backoff.Some? && h[i].backoff.value <= h[j].backoff.value
  {
    assert Fitting(cfg, unit, unit, h[..i], h[i]) && Fitting(cfg, unit, unit, h[..j], h[j]);
    FailuresGrow(h, i, j);
    DelayGrows(cfg.backoff, h[i].attempt, h[j].attempt, unit, unit);
  }

  /** Whatever the random units, every scheduled delay keeps to the policy's bounds. */
  lemma DelaysAreBounded(cfg: Settings, h: seq<Item>, k: nat)
    requires cfg.Valid() && AllFitting(cfg, 0.0, 1.0, h)
    requires k < |h| && h[k].Emitted? && h[k].kind == ReconnectScheduled
    ensures h[k].backoff.Some?
    ensures cfg.backoff.minimum * (1.0 - cfg.backoff.jitter) <= h[k].backoff.value
    ensures h[k].backoff.value <= cfg.backoff.maximum * (1.0 + cfg.backoff.jitter)
  {
    hide Delay, Failures, Succeeded;
    assert Fitting(cfg, 0.0, 1.0, h[..k], h[k]);
    DelayIsBounded(cfg.backoff, h[k].attempt, 0.0);
    DelayIsBounded(cfg.backoff, h[k].attempt, 1.0);
  }

  // ---------------------------------------------------------------- why the discipline is needed

  lemma BalanceStep(h: seq<Item>, item: Item)
    ensures Balance(h + [item]) == Balance(h) + (match item case Opened => 1 case Closed => -1 case _ => 0)
  {
  }

  lemma FailBalances(cfg: Settings, s: State, kind: Kind, unrelated: nat, unit: real)
    ensures var r := Fail(cfg, s, kind, unrelated, unit);
      Balance(r.history) == Balance(s.history) && r.session == s.session && r.health != Ready
  {
    hide Balance, Delay;
    var failed := Failed(s, kind, unrelated);
    BalanceStep(s.history, Emitted(kind, s.attempt, None, unrelated));
    BalanceStep(failed.history, Event(RepeatedlyFailed, s.attempt));
    var delay := Delay(cfg.backoff, s.attempt, unit);
    BalanceStep(Announce(cfg, failed).history, Emitted(ReconnectScheduled, s.attempt, Some(delay), 0));
  }

  lemma SucceedBalances(s: State, unrelated: nat)
    ensures var r := Succeed(s, unrelated);
      Balance(r.history) == Balance(s.history) + 1 && r.session && r.health == Ready
  {
    hide Balance;
    var kind := if s.hadConnection then ReaderRecovered else ReaderConnected;
    BalanceStep(s.history, Opened);
    BalanceStep(s.history + [Opened], Emitted(kind, s.attempt, None, unrelated));
  }

  lemma AttemptBalances(cfg: Settings, s: State, w: World)
    ensures var r := Attempt(cfg, s, w);
      && Balance(r.history) == Balance(s.history) + (if Opens(cfg, w) then 1 else 0)
      && r.session == (s.session || Opens(cfg, w))
      && (r.health == Ready <==> Opens(cfg, w))
  {
    hide Balance, Discover, Fail, Succeed;
    BalanceStep(s.history, Event(ReaderConnecting, s.attempt + 1));
    match Discover(w.devices, cfg.identity)
    case NotFound(n) => FailBalances(cfg, Begin(s), ReaderNotFound, n, w.unit);
    case Ambiguous(n) => FailBalances(cfg, Begin(s), ReaderAmbiguous, n, w.unit);
    case Found(_, n) =>
      SucceedBalances(Begin(s), n);
      FailBalances(cfg, Begin(s), ReaderOpenFailed, n, w.unit);
  }

  lemma {:induction false} ConnectBalances(cfg: Settings, s: State, worlds: seq<World>)
    ensures var r := Connect(cfg, s, worlds);
            && Balance(r.history) == Balance(s.history) + (if Connects(cfg, worlds) then 1 else 0)
            && r.session == (s.session || Connects(cfg, worlds))
            && (worlds != [] ==> (r.health == Ready <==> Connects(cfg, worlds)))
    decreases |worlds|
  {
    if worlds != [] {
      hide Balance, Attempt, Opens;
      AttemptBalances(cfg, s, worlds[0]);
      if !Opens(cfg, worlds[0]) && worlds[0].waits {
        ConnectBalances(cfg, Attempt(cfg, s, worlds[0]), worlds[1..]);
      }
    }
  }

  /**
    * Asked to connect while connected, the supervisor keeps its account of the session exactly when
    * it is allowed no attempt: a success forgets the old session, a failure reports it degraded.
    */
  lemma ConnectingTwiceLosesSession(cfg: Settings, s: State, worlds: seq<World>)
    requires OneSession(s) && s.session
    ensures OneSession(Connect(cfg, s, worlds)) <==> worlds == []
    ensures Connects(cfg, worlds) ==> Balance(Connect(cfg, s, worlds).history) == 2
  {
    ConnectBalances(cfg, s, worlds);
    hide Balance;
  }

  // ---------------------------------------------------------------- the object

  class ReaderSupervisor {
    const cfg: Settings
    var session: bool
    var attempt: nat
    var hadConnection: bool
    var announced: bool
    var health: Health
    var history: seq<Item>

    function View(): State
      reads this
    {
      State(session, attempt, hadConnection, announced, health, history)
    }

    constructor (cfg: Settings)
      requires cfg.Valid()
      ensures this.cfg == cfg && View() == START
    {
      this.cfg := cfg;
      session, attempt, hadConnection, announced := false, 0, false, false;
      health, history := Degraded, [];
    }

    method Emit(item: Item)
      modifies this`history
      ensures history == old(history) + [item]
    {
      history := history + [item];
    }

    /** The call is allowed one attempt for each element of `worlds`. */
    method ConnectUntilReady(worlds: seq<World>) returns (ready: bool)
      modifies this
      ensures View() == Connect(cfg, old(View()), worlds)
      ensures ready <==> Connects(cfg, worlds)
    {
      var n := 0;
      while n < |worlds|
        invariant n <= |worlds|
        invariant Connect(cfg, View(), worlds[n..]) == Connect(cfg, old(View()), worlds)
        invariant Connects(cfg, worlds[n..]) == Connects(cfg, worlds)
      {
        var w := worlds[n];
        assert worlds[n..][0] == w && worlds[n..][1..] == worlds[n + 1..];
        var done := TryConnect(w);
        n := n + 1;
        if done {
          return true;
        }
        if !w.waits {
          return false;
        }
      }
      return false;
    }

    method TryConnect(w: World) returns (done: bool)
      modifies this
      ensures View() == Attempt(cfg, old(View()), w) && done == Opens(cfg, w)
    {
      hide Discover, Succeed, Fail;
      attempt := attempt + 1;
      health := Connecting;
      Emit(Event(ReaderConnecting, attempt));
      var found := Discover(w.devices, cfg.identity);
      done := found.Found? && w.opens;
      match found
      case Found(_, n) =>
        if done {
          NoteSuccess(n);
        } else {
          NoteFailure(ReaderOpenFailed, n, w.unit);
        }
      case NotFound(n) => NoteFailure(ReaderNotFound, n, w.unit);
      case Ambiguous(n) => NoteFailure(ReaderAmbiguous, n, w.unit);
    }

    method NoteSuccess(unrelated: nat)
      modifies this
      ensures View() == Succeed(old(View()), unrelated)
    {
      Emit(Opened);
      session := true;
      Emit(Emitted(if hadConnection then ReaderRecovered else ReaderConnected, attempt, None, unrelated));
      hadConnection, announced, health, attempt := true, false, Ready, 0;
    }

    method NoteFailure(kind: Kind, unrelated: nat, unit: real)
      modifies this
      ensures View() == Fail(cfg, old(View()), kind, unrelated, unit)
    {
      hide Delay;
      health := Degraded;
      Emit(Emitted(kind, attempt, None, unrelated));
      if attempt >= cfg.threshold && !announced {
        Emit(Event(RepeatedlyFailed, attempt));
        announced := true;
      }
      var delay := Delay(cfg.backoff, attempt, unit);
      Emit(Emitted(ReconnectScheduled, attempt, Some(delay), 0));
    }

    method ReadOnce(r: Reading)
      modifies this
      ensures View() == Read(old(View()), r)
    {
      if !session {
        return;
      }
      match r
      case Data(empty) =>
        if !empty {
          Emit(Event(RecordReceived, 0));
        }
      case Lost =>
        Emit(Event(ReaderDisconnected, 0));
        DropSession();
      case Broken =>
        Emit(Event(ReaderReadFailed, 0));
        DropSession();
    }

    method OsDisconnected()
      modifies this
      ensures View() == Unplug(old(View()))
    {
      if session {
        Emit(Event(ReaderDisconnected, 0));
        DropSession();
      }
    }

    method Shut()
      modifies this
      ensures View() == Close(old(View()))
    {
      DropSession();
      health := Stopped;
    }

    method DropSession()
      modifies this
      ensures View() == Disconnect(old(View()))
    {
      if session {
        Emit(Closed);
        session := false;
        health := Degraded;
      }
    }
  }
}
