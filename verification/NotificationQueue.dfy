/** The durable notification queue: a file of one-line records and a worker that delivers its head. */
module NotificationQueue {
  import opened Options

  datatype Event = Event(id: string, body: string)

  predicate UniqueIds(events: seq<Event>) {
    forall i, j :: 0 <= i < j < |events| ==> events[i].id != events[j].id
  }

  /** The events of a queue whose id is not `id`. */
  function Without(events: seq<Event>, id: string): (r: seq<Event>)
    ensures forall i :: 0 <= i < |r| ==> r[i] in events && r[i].id != id
  {
    if events == [] then []
    else
      var rest := Without(events[..|events| - 1], id);
      if events[|events| - 1].id == id then rest else rest + [events[|events| - 1]]
  }

  lemma {:induction false} WithoutHead(events: seq<Event>)
    requires events != [] && forall i :: 0 < i < |events| ==> events[i].id != events[0].id
    ensures Without(events, events[0].id) == events[1..]
  {
    var n, id := |events| - 1, events[0].id;
    if n == 0 {
      assert Without(events[..0], id) == [];
    } else {
      assert events[..n][0] == events[0];
      WithoutHead(events[..n]);
      assert events[..n][1..] + [events[n]] == events[1..];
    }
  }

  // ---------------------------------------------------------------- the file

  /** The JSON codec: one event to one line and back. */
  datatype Codec = Codec(dump: Event -> string, load: string -> Event)

  predicate IsLine(s: string) {
    s != [] && forall i :: 0 <= i < |s| ==> s[i] != '\n'
  }

  ghost predicate RoundTrips(codec: Codec) {
    forall e: Event :: IsLine(codec.dump(e)) && codec.load(codec.dump(e)) == e
  }

  /** The file's text when it holds these events. */
  function Render(codec: Codec, events: seq<Event>): string {
    if events == [] then []
    else Render(codec, events[..|events| - 1]) + (codec.dump(events[|events| - 1]) + "\n")
  }

  /** The text's lines, cut at newlines; a last line without one counts too. */
  function SplitLines(text: string): seq<string> {
    if text == [] then []
    else if text[|text| - 1] == '\n' then SplitEnded(text[..|text| - 1])
    else SplitEnded(text)
  }

  function SplitEnded(text: string): (lines: seq<string>)
    ensures lines != []
  {
    if text == [] then [[]]
    else
      var lines, c := SplitEnded(text[..|text| - 1]), text[|text| - 1];
      if c == '\n' then lines + [[]]
      else lines[..|lines| - 1] + [lines[|lines| - 1] + [c]]
  }

  lemma {:induction false} SplitOneMore(text: string, line: string)
    requires forall i :: 0 <= i < |line| ==> line[i] != '\n'
    ensures text == [] ==> SplitEnded(text + line) == [line]
    ensures text != [] && text[|text| - 1] == '\n' ==> SplitEnded(text + line) == SplitLines(text) + [line]
    decreases |line|
  {
    if line == [] {
      assert text + line == text;
    } else {
      var n := |line| - 1;
      SplitOneMore(text, line[..n]);
      assert (text + line)[..|text + line| - 1] == text + line[..n];
      assert line[..n] + [line[n]] == line;
    }
  }

  lemma {:induction false} RenderEnds(codec: Codec, events: seq<Event>)
    requires events != []
    ensures Render(codec, events) != [] && Render(codec, events)[|Render(codec, events)| - 1] == '\n'
  {
  }

  lemma SplitNext(text: string, line: string)
    requires IsLine(line) && (text == [] || text[|text| - 1] == '\n')
    ensures SplitLines(text + (line + "\n")) == SplitLines(text) + [line]
  {
    SplitOneMore(text, line);
    hide SplitEnded;
    var whole := text + (line + "\n");
    assert whole[..|whole| - 1] == text + line;
  }

  /** Reading the file back gives one line for each event. */
  lemma {:induction false} SplitRendered(codec: Codec, events: seq<Event>)
    requires RoundTrips(codec)
    ensures |SplitLines(Render(codec, events))| == |events|
    ensures forall i :: 0 <= i < |events| ==> SplitLines(Render(codec, events))[i] == codec.dump(events[i])
  {
    if events != [] {
      hide SplitLines;
      var n := |events| - 1;
      SplitRendered(codec, events[..n]);
      assert IsLine(codec.dump(events[n]));
      if n > 0 {
        RenderEnds(codec, events[..n]);
      }
      SplitNext(Render(codec, events[..n]), codec.dump(events[n]));
    }
  }

  class DurableNotificationQueue {
    const codec: Codec
    /** The file's text; `None` while it does not exist. */
    var file: Option<string>
    ghost var events: seq<Event>

    ghost predicate Valid()
      reads this
    {
      RoundTrips(codec) && if file.None? then events == [] else file.value == Render(codec, events)
    }

    constructor (codec: Codec)
      requires RoundTrips(codec)
      ensures Valid() && events == [] && this.codec == codec
    {
      this.codec := codec;
      file := None;
      events := [];
    }

    /** `ok` says whether the append went through. */
    method Enqueue(e: Event, ok: bool)
      requires Valid()
      modifies this
      ensures Valid() && events == if ok then old(events) + [e] else old(events)
    {
      hide RoundTrips;
      if ok {
        var before := if file.None? then [] else file.value;
        assert before == Render(codec, events);
        file := Some(before + (codec.dump(e) + "\n"));
        events := events + [e];
        assert events[..|events| - 1] == old(events);
      }
    }

    method Pending() returns (r: seq<Event>)
      requires Valid()
      ensures r == events
    {
      r := [];
      if file.None? {
        return;
      }
      var lines := SplitLines(file.value);
      SplitRendered(codec, events);
      hide Render, SplitLines;
      for n := 0 to |lines|
        invariant r == events[..n]
      {
        assert lines[n] == codec.dump(events[n]) && IsLine(codec.dump(events[n]));
        if lines[n] != [] {
          r := r + [codec.load(lines[n])];
        }
      }
    }

    /** `ok` says whether writing the new file and renaming it went through. */
    method MarkDelivered(id: string, ok: bool)
      requires Valid()
      modifies this
      ensures Valid() && events == if ok then Without(old(events), id) else old(events)
    {
      hide RoundTrips;
      var pending := Pending();
      var remaining: seq<Event> := [];
      for n := 0 to |pending|
        invariant remaining == Without(pending[..n], id)
      {
        assert pending[..n + 1][..n] == pending[..n];
        if pending[n].id != id {
          remaining := remaining + [pending[n]];
        }
      }
      assert pending[..|pending|] == pending;
      if ok {
        var text := "";
        for n := 0 to |remaining|
          invariant text == Render(codec, remaining[..n])
        {
          assert remaining[..n + 1][..n] == remaining[..n];
          text := text + (codec.dump(remaining[n]) + "\n");
        }
        assert remaining[..|remaining|] == remaining;
        file := Some(text);
        events := remaining;
      }
    }
  }

  // ---------------------------------------------------------------- enqueuers and one worker

  datatype Worker = Idle | Holding(event: Event) | Sent(event: Event)

  /** `enqueued` and `accepted` record every append and every delivery that went through. */
  datatype System = System(queue: seq<Event>, worker: Worker, enqueued: seq<Event>, accepted: seq<Event>)

  datatype Action = Append(event: Event, ok: bool) | Look | Deliver(ok: bool) | Mark(ok: bool) | Stop

  const EMPTY := System([], Idle, [], [])

  /** One atomic step; `Stop` ends the worker wherever it is. */
  function Step(s: System, a: Action): System {
    match a
    case Append(e, ok) =>
      if ok then s.(queue := s.queue + [e], enqueued := s.enqueued + [e]) else s
    case Look =>
      if s.worker.Idle? && s.queue != [] then s.(worker := Holding(s.queue[0])) else s
    case Deliver(ok) =>
      if !s.worker.Holding? then s
      else if ok then s.(worker := Sent(s.worker.event), accepted := s.accepted + [s.worker.event])
      else s.(worker := Idle)
    case Mark(ok) =>
      if !s.worker.Sent? then s
      else if ok then s.(worker := Idle, queue := Without(s.queue, s.worker.event.id))
      else s.(worker := Idle)
    case Stop => s.(worker := Idle)
  }

  function Run(s: System, actions: seq<Action>): System {
    if actions == [] then s else Step(Run(s, actions[..|actions| - 1]), actions[|actions| - 1])
  }

  /** The sequence with adjacent repeats merged. */
  function Squeeze(events: seq<Event>): seq<Event> {
    if events == [] then []
    else
      var r, e := Squeeze(events[..|events| - 1]), events[|events| - 1];
      if r != [] && r[|r| - 1] == e then r else r + [e]
  }

  lemma {:induction false} SqueezeKeepsMembers(events: seq<Event>, e: Event)
    ensures e in Squeeze(events) <==> e in events
  {
    if events != [] {
      var n := |events| - 1;
      SqueezeKeepsMembers(events[..n], e);
      assert events == events[..n] + [events[n]];
    }
  }

  function Removed(s: System): int {
    |s.enqueued| - |s.queue|
  }

  /** Removed events, then pending ones, make up the enqueue order; deliveries follow it. */
  ghost predicate Ordered(s: System) {
    && Removed(s) >= 0
    && s.queue == s.enqueued[Removed(s)..]
    && (s.worker != Idle ==> s.queue != [] && s.queue[0] == s.worker.event)
    && (Squeeze(s.accepted) == s.enqueued[..Removed(s)] || HeadAccepted(s))
    && (s.worker.Sent? ==> HeadAccepted(s))
  }

  ghost predicate HeadAccepted(s: System) {
    0 <= Removed(s) < |s.enqueued| && Squeeze(s.accepted) == s.enqueued[..Removed(s) + 1]
  }

  lemma DeliverKeepsOrder(s: System)
    requires Ordered(s) && UniqueIds(s.enqueued) && s.worker.Holding?
    ensures Ordered(Step(s, Deliver(true)))
  {
  }

  lemma MarkKeepsOrder(s: System)
    requires Ordered(s) && UniqueIds(s.enqueued) && s.worker.Sent?
    ensures Ordered(Step(s, Mark(true)))
  {
    hide Squeeze, Without;
    WithoutHead(s.queue);
    assert s.queue[1..] == s.enqueued[Removed(s) + 1..];
  }

  lemma AppendKeepsOrder(s: System, e: Event)
    requires Ordered(s)
    ensures Ordered(Step(s, Append(e, true)))
  {
  }

  lemma StepKeepsOrder(s: System, a: Action)
    requires Ordered(s) && UniqueIds(Step(s, a).enqueued)
    ensures Ordered(Step(s, a))
  {
    hide Squeeze, Without;
    match a
    case Append(e, ok) =>
      if ok {
        AppendKeepsOrder(s, e);
      }
    case Deliver(ok) =>
      if ok && s.worker.Holding? {
        DeliverKeepsOrder(s);
      }
    case Mark(ok) =>
      if ok && s.worker.Sent? {
        MarkKeepsOrder(s);
      }
    case Look =>
    case Stop =>
  }

  lemma {:induction false} RunKeepsOrder(actions: seq<Action>)
    requires UniqueIds(Run(EMPTY, actions).enqueued)
    ensures Ordered(Run(EMPTY, actions))
  {
    if actions != [] {
      hide Ordered, Squeeze;
      var n := |actions| - 1;
      var before, after := Run(EMPTY, actions[..n]), Run(EMPTY, actions);
      assert before.enqueued <= after.enqueued;
      assert forall i :: 0 <= i < |before.enqueued| ==> before.enqueued[i] == after.enqueued[i];
      RunKeepsOrder(actions[..n]);
      StepKeepsOrder(before, actions[n]);
    }
  }

  /**
    * In every run with distinct ids the queue is a suffix of the enqueue order, what left it was
    * delivered, and deliveries follow the enqueue order, ahead of the queue by at most its head.
    */
  lemma DeliveryIsInOrder(actions: seq<Action>)
    requires UniqueIds(Run(EMPTY, actions).enqueued)
    ensures var s := Run(EMPTY, actions);
            && 0 <= Removed(s) && s.enqueued == s.enqueued[..Removed(s)] + s.queue
            && (forall e :: e in s.enqueued[..Removed(s)] ==> e in s.accepted)
            && (forall e :: e in s.accepted ==> e in s.enqueued)
            && Squeeze(s.accepted) <= s.enqueued
            && Removed(s) <= |Squeeze(s.accepted)| <= Removed(s) + 1
  {
    hide Run;
    RunKeepsOrder(actions);
    var s := Run(EMPTY, actions);
    forall e ensures e in Squeeze(s.accepted) <==> e in s.accepted {
      SqueezeKeepsMembers(s.accepted, e);
    }
    hide Squeeze;
    var n := Removed(s);
    assert n < |s.enqueued| ==> s.enqueued[..n + 1] == s.enqueued[..n] + [s.enqueued[n]];
  }

  /** Marking the head delivered removes it alone exactly when no later event shares its id. */
  lemma MarkRemovesHeadAlone(queue: seq<Event>)
    requires queue != []
    ensures Without(queue, queue[0].id) == queue[1..] <==> forall i :: 0 < i < |queue| ==> queue[i].id != queue[0].id
  {
    var id := queue[0].id;
    if forall i :: 0 < i < |queue| ==> queue[i].id != id {
      WithoutHead(queue);
    } else {
      var i :| 0 < i < |queue| && queue[i].id == id;
      assert queue[1..][i - 1] == queue[i];
    }
  }

  /** An event that repeats a delivered event's id is dropped without ever being delivered. */
  lemma RepeatedIdIsLost(first: Event, second: Event)
    requires first.id == second.id && first != second
    ensures var s := Run(EMPTY, [Append(first, true), Append(second, true), Look, Deliver(true), Mark(true)]);
            second in s.enqueued && second !in s.queue && second !in s.accepted
  {
    hide Without;
    BothGo(first, second);
    FiveSteps(Append(first, true), Append(second, true), Look, Deliver(true), Mark(true));
    hide Run;
    assert [first] + [second] == [first, second];
    assert Step(System([first], Idle, [first], []), Append(second, true)) ==
           System([first, second], Idle, [first, second], []);
  }

  lemma BothGo(first: Event, second: Event)
    requires first.id == second.id
    ensures Without([first, second], first.id) == []
  {
    var both := [first, second];
    assert both[..1][..0] == [] && both[..1][0] == first;
    assert Without(both[..1], first.id) == [];
  }

  lemma FiveSteps(a: Action, b: Action, c: Action, d: Action, e: Action)
    ensures Run(EMPTY, [a, b, c, d, e]) == Step(Step(Step(Step(Step(EMPTY, a), b), c), d), e)
  {
    hide Step, Run;
    RunNothing();
    RunAppend([], a);
    RunAppend([a], b);
    RunAppend([a, b], c);
    RunAppend([a, b, c], d);
    RunAppend([a, b, c, d], e);
    assert [] + [a] == [a] && [a] + [b] == [a, b] && [a, b] + [c] == [a, b, c];
    assert [a, b, c] + [d] == [a, b, c, d] && [a, b, c, d] + [e] == [a, b, c, d, e];
  }

  lemma RunNothing()
    ensures Run(EMPTY, []) == EMPTY
  {
  }

  lemma RunAppend(actions: seq<Action>, a: Action)
    ensures Run(EMPTY, actions + [a]) == Step(Run(EMPTY, actions), a)
  {
  }

  /** The worker's call when nothing interleaves with it. */
  method DeliverOne(queue: DurableNotificationQueue, delivers: bool, marks: bool)
    returns (delivered: bool, raised: bool)
    requires queue.Valid()
    modifies queue
    ensures queue.Valid()
    ensures Alone(old(queue.events), delivers, marks).queue == queue.events
    ensures delivered <==> |Alone(old(queue.events), delivers, marks).accepted| == 1 && marks
    ensures delivered && UniqueIds(old(queue.events)) ==> queue.events == old(queue.events)[1..]
    ensures raised <==> !delivered && old(queue.events) != []
  {
    hide Without;
    var pending := queue.Pending();
    if pending == [] {
      return false, false;
    }
    if !delivers {
      return false, true;
    }
    queue.MarkDelivered(pending[0].id, marks);
    if UniqueIds(pending) {
      WithoutHead(pending);
    }
    return marks, !marks;
  }

  function Alone(events: seq<Event>, delivers: bool, marks: bool): System {
    Step(Step(Step(System(events, Idle, events, []), Look), Deliver(delivers)), Mark(marks))
  }
}
