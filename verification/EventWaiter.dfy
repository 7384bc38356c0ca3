/** The waiter that keeps ticking the controller while the runtime waits. Times are integer ticks. */
module EventWaiter {

  /** One pass: how long the callback takes, how late the sleep returns, whether a stop cut it short. */
  datatype Pass = Pass(work: nat, late: nat, stop: bool)

  /** Neighbouring times are in order and at most `gap` apart. */
  predicate Close(times: seq<int>, gap: int) {
    forall i :: 0 < i < |times| ==> times[i - 1] <= times[i] <= times[i - 1] + gap
  }

  function Smaller(a: int, b: int): int {
    if a <= b then a else b
  }

  function Larger(a: int, b: int): int {
    if a >= b then a else b
  }

  /** When a pass that starts at `now` wakes up. */
  function Wake(now: int, deadline: int, interval: int, pass: Pass): int {
    var worked := now + pass.work;
    var remaining := if deadline > worked then deadline - worked else 0;
    var nap := Larger(Smaller(interval, remaining), 0);
    worked + if pass.stop then Smaller(nap, pass.late) else nap + pass.late
  }

  lemma WakeBounds(now: int, deadline: int, interval: int, pass: Pass)
    requires now < deadline && (interval > 0 || pass.work + pass.late > 0)
    ensures var w := Wake(now, deadline, interval, pass);
      && now <= w <= now + Larger(interval, 0) + pass.work + pass.late
      && w <= deadline + pass.work + pass.late
      && (!pass.stop ==> now < w)
  {
  }

  /** When passes cost at most `slack`, ticks are at most `interval + slack` apart, to the very end of the
      wait. Without a positive interval the wait ends only because its passes take time. */
  method Wait(start: int, seconds: int, interval: int, passes: nat -> Pass, ghost slack: nat)
    returns (finished: bool, now: int, ticks: seq<int>)
    requires interval > 0 || forall i: nat :: passes(i).work + passes(i).late > 0
    requires forall i: nat :: passes(i).work + passes(i).late <= slack
    ensures Close(ticks + [now], Larger(interval, 0) + slack)
    ensures ticks == [] <==> seconds <= 0
    ensures ticks != [] ==> ticks[0] == start
    ensures forall i :: 0 <= i < |ticks| ==> ticks[i] < start + seconds
    ensures finished ==> start + seconds <= now
    ensures start <= now && (now <= start || now <= start + seconds + slack)
    ensures finished <==> forall i :: 0 <= i < |ticks| ==> !passes(i).stop
  {
    hide Close;
    var deadline := start + seconds;
    CloseSingle(start, Larger(interval, 0) + slack);
    now, ticks := start, [];
    while now < deadline
      invariant start <= now && (now == start || now <= deadline + slack)
      invariant Close(ticks + [now], Larger(interval, 0) + slack)
      invariant (ticks + [now])[0] == start
      invariant ticks == [] <==> now == start
      invariant ticks != [] ==> seconds > 0
      invariant forall i :: 0 <= i < |ticks| ==> ticks[i] < deadline && !passes(i).stop
      decreases deadline - now
    {
      var pass := passes(|ticks|);
      var woken := Wake(now, deadline, interval, pass);
      WakeBounds(now, deadline, interval, pass);
      ticks := ticks + [now];
      CloseExtends(ticks, woken, Larger(interval, 0) + slack);
      now := woken;
      if pass.stop {
        return false, now, ticks;
      }
    }
    return true, now, ticks;
  }

  lemma CloseExtends(times: seq<int>, next: int, gap: int)
    requires times != [] && Close(times, gap) && times[|times| - 1] <= next <= times[|times| - 1] + gap
    ensures Close(times + [next], gap)
  {
  }

  lemma CloseSingle(time: int, gap: int)
    ensures Close([] + [time], gap)
  {
  }
}
