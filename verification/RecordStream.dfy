/** The buffered, resynchronising scanner over the serial byte stream. */
module RecordStream {
  import opened ReaderRecord

  // ---------------------------------------------------------------- searching

  /** The index of the first `x` at or after `from`, or -1. */
  function Find(b: seq<Byte>, x: Byte, from: nat): (k: int)
    requires from <= |b|
    ensures k == -1 <==> x !in b[from..]
    ensures k != -1 ==> from <= k < |b| && b[k] == x && x !in b[from..k]
    decreases |b| - from
  {
    if from == |b| then -1
    else if b[from] == x then from
    else
      assert b[from..] == [b[from]] + b[from + 1..];
      var k := Find(b, x, from + 1);
      assert k != -1 ==> b[from..k] == [b[from]] + b[from + 1..k];
      k
  }

  lemma {:induction false} FindUnique(b: seq<Byte>, x: Byte, from: nat, k: int)
    requires from <= k < |b| && b[k] == x && x !in b[from..k]
    ensures Find(b, x, from) == k
    decreases k - from
  {
  }

  lemma FindInPrefix(a: seq<Byte>, b: seq<Byte>, x: Byte, from: nat)
    requires from <= |a| && Find(a, x, from) != -1
    ensures Find(a + b, x, from) == Find(a, x, from)
  {
    var k := Find(a, x, from);
    assert (a + b)[from..k] == a[from..k];
    FindUnique(a + b, x, from, k);
  }

  // ---------------------------------------------------------------- the scanner

  datatype Scanned = Scanned(results: seq<RecordResult>, rest: seq<Byte>)

  const Framing := Malformed(InvalidFraming)
  const Excessive := Malformed(ExcessiveLength)

  /** A retained buffer is an unfinished frame, or nothing. */
  predicate Unfinished(b: seq<Byte>) {
    b == [] || (b[0] == STX && ETX !in b[1..])
  }

  /** The length of the first stretch the loop removes: garbage up to the next STX, or a frame up to
      its ETX; zero when nothing can be removed. */
  function Cut(b: seq<Byte>): (n: nat)
    ensures n <= |b|
    ensures n == 0 <==> Unfinished(b)
  {
    if b == [] then 0
    else if b[0] != STX then
      var start := Find(b, STX, 0);
      if start == -1 then |b| else start
    else Find(b, ETX, 1) + 1
  }

  /** The result reported for the first stretch. */
  function Head(b: seq<Byte>): (r: RecordResult)
    requires !Unfinished(b)
  {
    if b[0] != STX then Framing else Parse(b[..Cut(b)])
  }

  /** What the scanning loop reports for a buffer and leaves in it, before the size check. */
  function Scan(b: seq<Byte>): (s: Scanned)
    ensures Unfinished(s.rest)
    decreases |b|
  {
    if Unfinished(b) then Scanned([], b)
    else
      var s := Scan(b[Cut(b)..]);
      Scanned([Head(b)] + s.results, s.rest)
  }

  lemma ScanStep(b: seq<Byte>, done: seq<RecordResult>)
    requires !Unfinished(b)
    ensures Scan(b).results == [Head(b)] + Scan(b[Cut(b)..]).results
    ensures done + Scan(b).results == (done + [Head(b)]) + Scan(b[Cut(b)..]).results
    ensures Scan(b).rest == Scan(b[Cut(b)..]).rest
  {
  }

  lemma ScanUnfinished(b: seq<Byte>)
    requires Unfinished(b)
    ensures Scan(b) == Scanned([], b)
  {
  }

  /** One call of `feed` on a buffer. */
  function FeedOnce(maximum: int, buffer: seq<Byte>, chunk: seq<Byte>): (s: Scanned) {
    if chunk == [] then Scanned([], buffer)
    else
      var s := Scan(buffer + chunk);
      if s.rest != [] && |s.rest| > maximum then Scanned(s.results + [Excessive], []) else s
  }

  /** All results of feeding the chunks in order to a new stream, and its final buffer. */
  function FeedAll(maximum: int, chunks: seq<seq<Byte>>): (s: Scanned) {
    if chunks == [] then Scanned([], [])
    else
      var before := FeedAll(maximum, chunks[..|chunks| - 1]);
      var last := FeedOnce(maximum, before.rest, chunks[|chunks| - 1]);
      Scanned(before.results + last.results, last.rest)
  }

  lemma FeedAllNone(maximum: int)
    ensures FeedAll(maximum, []) == Scanned([], [])
  {
  }

  lemma FeedAllSnoc(maximum: int, chunks: seq<seq<Byte>>, chunk: seq<Byte>)
    ensures var before := FeedAll(maximum, chunks);
      var last := FeedOnce(maximum, before.rest, chunk);
      FeedAll(maximum, chunks + [chunk]) == Scanned(before.results + last.results, last.rest)
  {
    hide FeedOnce;
    assert (chunks + [chunk])[..|chunks|] == chunks;
  }

  lemma FeedAllOne(maximum: int, chunk: seq<Byte>)
    ensures FeedAll(maximum, [chunk]) == FeedOnce(maximum, [], chunk)
  {
  }

  class ReaderRecordStream {
    var buffer: seq<Byte>
    const maximumBuffer: int

    constructor (maximumBuffer: int := RECORD_LENGTH * 4)
      ensures buffer == [] && this.maximumBuffer == maximumBuffer
    {
      buffer := [];
      this.maximumBuffer := maximumBuffer;
    }

    method Feed(chunk: seq<Byte>) returns (results: seq<RecordResult>)
      modifies this
      ensures Scanned(results, buffer) == FeedOnce(maximumBuffer, old(buffer), chunk)
    {
      results := [];
      if chunk == [] {
        return;
      }
      buffer := buffer + chunk;
      ghost var whole := Scan(buffer);
      while buffer != []
        invariant whole.results == results + Scan(buffer).results
        invariant whole.rest == Scan(buffer).rest
        decreases |buffer|
      {
        if buffer[0] != STX {
          var start := Find(buffer, STX, 0);
          assert buffer[0..] == buffer && buffer[|buffer|..] == [];
          ScanStep(buffer, results);
          buffer := if start < 0 then [] else buffer[start..];
          results := results + [Framing];
          continue;
        }
        var end := Find(buffer, ETX, 1);
        if end < 0 {
          if |buffer| > maximumBuffer {
            buffer := [];
            results := results + [Excessive];
          }
          return;
        }
        ScanStep(buffer, results);
        var raw := buffer[..end + 1];
        buffer := buffer[end + 1..];
        var result := ParseReaderRecord(raw);
        results := results + [result];
      }
    }
  }

  // ---------------------------------------------------------------- the buffer between feeds

  lemma UnfinishedHasNoEtx(b: seq<Byte>)
    requires Unfinished(b)
    ensures ETX !in b
  {
  }

  /** Every reachable buffer is empty, or an unfinished frame within the limit; it never holds ETX. */
  lemma {:induction false} BufferInvariant(maximum: int, chunks: seq<seq<Byte>>)
    ensures var b := FeedAll(maximum, chunks).rest;
      Unfinished(b) && ETX !in b && (b != [] ==> b[0] == STX && |b| <= maximum)
  {
    if chunks != [] {
      BufferInvariant(maximum, chunks[..|chunks| - 1]);
    }
    UnfinishedHasNoEtx(FeedAll(maximum, chunks).rest);
  }

  // ---------------------------------------------------------------- every byte is accounted for

  function Flatten(parts: seq<seq<Byte>>): seq<Byte> {
    if parts == [] then [] else Flatten(parts[..|parts| - 1]) + parts[|parts| - 1]
  }

  lemma FlattenNone()
    ensures Flatten([]) == []
  {
  }

  lemma FlattenOne(p: seq<Byte>)
    ensures Flatten([p]) == p
  {
  }

  lemma FlattenSnoc(parts: seq<seq<Byte>>, p: seq<Byte>)
    ensures Flatten(parts + [p]) == Flatten(parts) + p
  {
    assert (parts + [p])[..|parts|] == parts;
  }

  lemma {:induction false} FlattenConcat(a: seq<seq<Byte>>, b: seq<seq<Byte>>)
    ensures Flatten(a + b) == Flatten(a) + Flatten(b)
    decreases |b|
  {
    hide Flatten;
    if b == [] {
      FlattenNone();
      assert a + b == a;
    } else {
      var front, p := b[..|b| - 1], b[|b| - 1];
      assert b == front + [p] && a + b == (a + front) + [p];
      FlattenSnoc(front, p);
      FlattenSnoc(a + front, p);
      FlattenConcat(a, front);
      assert (Flatten(a) + Flatten(front)) + p == Flatten(a) + (Flatten(front) + p);
    }
  }

  /** A frame: STX, then bytes up to and including the first ETX. */
  ghost predicate IsFrame(p: seq<Byte>) {
    |p| >= 2 && p[0] == STX && p[|p| - 1] == ETX && ETX !in p[1..|p| - 1]
  }

  /** Why a stretch of input gave a result. */
  ghost predicate Explains(maximum: int, part: seq<Byte>, result: RecordResult) {
    match result
    case Parsed(c) => IsCredential(c) && part == Record(c)
    case Malformed(InvalidFraming) => part != [] && STX !in part
    case Malformed(ExcessiveLength) => part != [] && Unfinished(part) && |part| > maximum
    case Malformed(_) => IsFrame(part) && Parse(part) == result
  }

  ghost predicate Accounts(maximum: int, parts: seq<seq<Byte>>, results: seq<RecordResult>) {
    |parts| == |results| && forall i :: 0 <= i < |parts| ==> Explains(maximum, parts[i], results[i])
  }

  lemma HeadExplained(maximum: int, b: seq<Byte>)
    requires !Unfinished(b)
    ensures Explains(maximum, b[..Cut(b)], Head(b))
  {
    var part := b[..Cut(b)];
    if b[0] != STX {
      assert part == b[0..Cut(b)];
      assert b[0..] == b;
    } else {
      assert part[1..|part| - 1] == b[1..Cut(b) - 1];
      FramedRecordIsNotMisframed(part);
      if Parse(part).Parsed? {
        AcceptedRecordIsPrinted(part);
      }
    }
  }

  lemma AccountsAppend(maximum: int, p: seq<seq<Byte>>, r: seq<RecordResult>, q: seq<seq<Byte>>, t: seq<RecordResult>)
    requires Accounts(maximum, p, r) && Accounts(maximum, q, t)
    ensures Accounts(maximum, p + q, r + t)
  {
    hide Explains;
  }

  lemma {:induction false} ScanAccounts(maximum: int, b: seq<Byte>) returns (parts: seq<seq<Byte>>)
    ensures Accounts(maximum, parts, Scan(b).results)
    ensures Flatten(parts) + Scan(b).rest == b
    decreases |b|
  {
    hide Scan, Cut, Head, Explains, Flatten;
    if Unfinished(b) {
      ScanUnfinished(b);
      parts := [];
      FlattenNone();
      assert [] + b == b;
    } else {
      var first, more := b[..Cut(b)], b[Cut(b)..];
      HeadExplained(maximum, b);
      ScanStep(b, []);
      var tail := ScanAccounts(maximum, more);
      AccountsAppend(maximum, [first], [Head(b)], tail, Scan(more).results);
      parts := [first] + tail;
      FlattenConcat([first], tail);
      FlattenOne(first);
      assert (first + Flatten(tail)) + Scan(more).rest == first + (Flatten(tail) + Scan(more).rest);
      assert first + more == b;
    }
  }

  /** For every chunking the input is, in order and without gap or overlap, one stretch per result
      followed by the buffer: a credential is reported only for its own occurrence of its record. */
  lemma {:induction false} EveryByteIsAccounted(maximum: int, chunks: seq<seq<Byte>>)
    returns (parts: seq<seq<Byte>>)
    ensures Accounts(maximum, parts, FeedAll(maximum, chunks).results)
    ensures Flatten(parts) + FeedAll(maximum, chunks).rest == Flatten(chunks)
  {
    if chunks == [] {
      parts := [];
    } else {
      var n := |chunks| - 1;
      var before := FeedAll(maximum, chunks[..n]);
      var last := FeedOnce(maximum, before.rest, chunks[n]);
      var p := EveryByteIsAccounted(maximum, chunks[..n]);
      var q := FeedOnceAccounts(maximum, before.rest, chunks[n]);
      parts := p + q;
      assert FeedAll(maximum, chunks) == Scanned(before.results + last.results, last.rest);
      assert Flatten(chunks) == Flatten(chunks[..n]) + chunks[n];
      hide FeedAll, FeedOnce, Accounts, Flatten;
      AccountsAppend(maximum, p, before.results, q, last.results);
      FlattenConcat(p, q);
      Rejoin(Flatten(p), before.rest, Flatten(q), last.rest, Flatten(chunks[..n]), chunks[n]);
    }
  }

  lemma Rejoin(p: seq<Byte>, buffer: seq<Byte>, q: seq<Byte>, rest: seq<Byte>, stream: seq<Byte>, chunk: seq<Byte>)
    requires p + buffer == stream && q + rest == buffer + chunk
    ensures (p + q) + rest == stream + chunk
  {
    assert (p + q) + rest == p + (q + rest);
    assert p + (buffer + chunk) == (p + buffer) + chunk;
  }

  lemma FeedOnceAccounts(maximum: int, buffer: seq<Byte>, chunk: seq<Byte>) returns (parts: seq<seq<Byte>>)
    ensures Accounts(maximum, parts, FeedOnce(maximum, buffer, chunk).results)
    ensures Flatten(parts) + FeedOnce(maximum, buffer, chunk).rest == buffer + chunk
  {
    hide Scan, Flatten;
    if chunk == [] {
      parts := [];
      FlattenNone();
      assert [] + buffer == buffer + chunk;
    } else {
      parts := ScanAccounts(maximum, buffer + chunk);
      var rest := Scan(buffer + chunk).rest;
      if rest != [] && |rest| > maximum {
        AccountsAppend(maximum, parts, Scan(buffer + chunk).results, [rest], [Excessive]);
        FlattenConcat(parts, [rest]);
        FlattenOne(rest);
        parts := parts + [rest];
        assert Flatten(parts) + [] == Flatten(parts);
      }
    }
  }

  // ---------------------------------------------------------------- chunk independence

  /** Adjacent framing markers merged into one. */
  function Collapse(r: seq<RecordResult>): (c: seq<RecordResult>)
    ensures |r| > 0 ==> |c| > 0 && c[0] == r[0]
  {
    if |r| <= 1 then r
    else if r[0] == Framing && r[1] == Framing then Collapse(r[1..])
    else [r[0]] + Collapse(r[1..])
  }

  lemma CollapseCons(x: RecordResult, s: seq<RecordResult>, t: seq<RecordResult>)
    requires Collapse(s) == Collapse(t)
    ensures Collapse([x] + s) == Collapse([x] + t)
  {
  }

  lemma CollapseStep(x: RecordResult, s: seq<RecordResult>)
    ensures Collapse([x] + s) ==
            if s != [] && x == Framing && s[0] == Framing then Collapse(s) else [x] + Collapse(s)
  {
    assert ([x] + s)[1..] == s;
  }

  lemma CollapseShort(s: seq<RecordResult>)
    requires |s| <= 1
    ensures Collapse(s) == s
  {
  }

  lemma {:induction false} CollapseAbsorbs(s: seq<RecordResult>, q: seq<RecordResult>)
    ensures Collapse(s + q) == Collapse(Collapse(s) + q)
    decreases |s|
  {
    hide Collapse;
    if |s| <= 1 {
      CollapseShort(s);
    } else {
      var x, more := s[0], s[1..];
      CollapseAbsorbs(more, q);
      CollapseStep(x, more);
      CollapseStep(x, more + q);
      assert s == [x] + more && s + q == [x] + (more + q);
      if x != Framing || more[0] != Framing {
        CollapseStep(x, Collapse(more) + q);
        assert ([x] + Collapse(more)) + q == [x] + (Collapse(more) + q);
      }
    }
  }

  lemma CutAppend(a: seq<Byte>, b: seq<Byte>)
    requires !Unfinished(a) && STX in a
    ensures !Unfinished(a + b) && Cut(a + b) == Cut(a) && Head(a + b) == Head(a)
  {
    assert a[0..] == a;
    if a[0] != STX {
      FindInPrefix(a, b, STX, 0);
    } else {
      FindInPrefix(a, b, ETX, 1);
      assert (a + b)[..Cut(a)] == a[..Cut(a)];
    }
  }

  lemma CutGarbage(a: seq<Byte>, b: seq<Byte>)
    requires a != [] && STX !in a
    ensures !Unfinished(a + b) && Head(a + b) == Framing
    ensures Cut(a + b) == |a| + if b == [] || b[0] == STX then 0 else Cut(b)
  {
    var n := Cut(a + b);
    assert (a + b)[0..] == a + b && b[0..] == b;
    if STX in b {
      var start := Find(b, STX, 0);
      assert (a + b)[0..|a| + start] == a + b[0..start];
      FindUnique(a + b, STX, 0, |a| + start);
    }
  }

  /** Scanning in two steps: the unfinished rest of `a` joined to `b` continues where `a` stopped. */
  lemma {:induction false} ScanAppend(a: seq<Byte>, b: seq<Byte>)
    ensures Scan(a + b).rest == Scan(Scan(a).rest + b).rest
    ensures Collapse(Scan(a + b).results) == Collapse(Scan(a).results + Scan(Scan(a).rest + b).results)
    decreases |a|
  {
    hide Scan, Collapse, Cut, Head;
    if Unfinished(a) {
      ScanUnfinished(a);
      assert [] + Scan(a + b).results == Scan(a + b).results;
    } else if STX !in a {
      GarbageThen(a, b);
    } else {
      CutAppend(a, b);
      var more := a[Cut(a)..];
      assert (a + b)[Cut(a)..] == more + b;
      ScanStep(a, []);
      ScanStep(a + b, []);
      ScanAppend(more, b);
      var first, second := Scan(more).results, Scan(Scan(more).rest + b).results;
      CollapseCons(Head(a), Scan(more + b).results, first + second);
      assert ([Head(a)] + first) + second == [Head(a)] + (first + second);
    }
  }

  lemma GarbageAlone(a: seq<Byte>)
    requires a != [] && STX !in a
    ensures Scan(a) == Scanned([Framing], [])
  {
    CutGarbage(a, []);
    assert a + [] == a && a[|a|..] == [];
    ScanStep(a, []);
    ScanUnfinished([]);
    hide Scan, Cut, Head;
  }

  lemma GarbageThen(a: seq<Byte>, b: seq<Byte>)
    requires a != [] && STX !in a
    ensures Scan(a) == Scanned([Framing], [])
    ensures Scan(a + b).rest == Scan([] + b).rest
    ensures Collapse(Scan(a + b).results) == Collapse([Framing] + Scan([] + b).results)
  {
    hide Scan, Collapse, Cut, Find;
    GarbageAlone(a);
    CutGarbage(a, b);
    ScanStep(a + b, []);
    assert [] + b == b;
    if b == [] || b[0] == STX {
      assert (a + b)[|a|..] == b;
    } else {
      assert (a + b)[|a| + Cut(b)..] == b[Cut(b)..];
      ScanStep(b, []);
      CollapseStep(Framing, Scan(b).results);
    }
  }

  /** The unfinished frame at the end of a stream, as if the buffer had no limit. */
  function Residue(stream: seq<Byte>): seq<Byte> {
    Scan(stream).rest
  }

  predicate WithinLimit(maximum: int, stream: seq<Byte>) {
    Residue(stream) == [] || |Residue(stream)| <= maximum
  }

  /** No chunk boundary leaves more than `maximum` bytes of unfinished frame. */
  ghost predicate Fits(maximum: int, chunks: seq<seq<Byte>>) {
    forall k :: 0 <= k <= |chunks| ==> WithinLimit(maximum, Flatten(chunks[..k]))
  }

  lemma FitsPrefix(maximum: int, chunks: seq<seq<Byte>>)
    requires chunks != []
    ensures Fits(maximum, chunks) <==>
            Fits(maximum, chunks[..|chunks| - 1]) && WithinLimit(maximum, Flatten(chunks))
  {
    hide WithinLimit, Flatten;
    var n := |chunks| - 1;
    var front := chunks[..n];
    assert chunks[..|chunks|] == chunks;
    forall k | 0 <= k <= n
      ensures front[..k] == chunks[..k]
    {
    }
    if Fits(maximum, chunks) {
      forall k | 0 <= k <= n
        ensures WithinLimit(maximum, Flatten(front[..k]))
      {
        assert WithinLimit(maximum, Flatten(chunks[..k]));
      }
    } else {
      var k :| 0 <= k <= |chunks| && !WithinLimit(maximum, Flatten(chunks[..k]));
      assert k <= n ==> !WithinLimit(maximum, Flatten(front[..k]));
    }
  }

  lemma {:induction false} ScanNeverExcessive(b: seq<Byte>)
    ensures Excessive !in Scan(b).results
    decreases |b|
  {
    if !Unfinished(b) {
      HeadExplained(|b|, b);
      ScanNeverExcessive(b[Cut(b)..]);
    }
  }

  /** Feeding chunk by chunk reports what one feed of the whole stream reports, up to repeated framing
      markers, and keeps the same buffer, as long as no boundary overflows; and an overflow is reported
      exactly when some boundary leaves too much. */
  lemma {:induction false} ChunkIndependence(maximum: int, chunks: seq<seq<Byte>>)
    ensures Excessive !in FeedAll(maximum, chunks).results <==> Fits(maximum, chunks)
    ensures Fits(maximum, chunks) ==>
      && FeedAll(maximum, chunks).rest == Scan(Flatten(chunks)).rest
      && Collapse(FeedAll(maximum, chunks).results) == Collapse(Scan(Flatten(chunks)).results)
  {
    if chunks == [] {
      assert chunks[..0] == [];
    } else {
      var n := |chunks| - 1;
      var before := FeedAll(maximum, chunks[..n]);
      var stream := Flatten(chunks[..n]);
      var last := FeedOnce(maximum, before.rest, chunks[n]);
      assert FeedAll(maximum, chunks) == Scanned(before.results + last.results, last.rest);
      assert Flatten(chunks) == stream + chunks[n];
      hide FeedAll, FeedOnce, Flatten, Scan, Collapse;
      ChunkIndependence(maximum, chunks[..n]);
      FitsPrefix(maximum, chunks);
      if Fits(maximum, chunks[..n]) {
        assert WithinLimit(maximum, stream) by { assert chunks[..n][..n] == chunks[..n]; }
        FeedOnceContinues(maximum, stream, before, chunks[n]);
      }
    }
  }

  lemma FeedOnceContinues(maximum: int, stream: seq<Byte>, before: Scanned, chunk: seq<Byte>)
    requires WithinLimit(maximum, stream) && before.rest == Scan(stream).rest
    requires Collapse(before.results) == Collapse(Scan(stream).results)
    ensures var last := FeedOnce(maximum, before.rest, chunk);
      && (Excessive !in last.results <==> WithinLimit(maximum, stream + chunk))
      && (WithinLimit(maximum, stream + chunk) ==>
            && last.rest == Scan(stream + chunk).rest
            && Collapse(before.results + last.results) == Collapse(Scan(stream + chunk).results))
  {
    hide Scan, Collapse;
    var s := Scan(before.rest + chunk);
    ScanAppend(stream, chunk);
    ScanNeverExcessive(before.rest + chunk);
    CollapseAbsorbs(before.results, s.results);
    CollapseAbsorbs(Scan(stream).results, s.results);
    if chunk == [] {
      ScanUnfinished(before.rest);
      assert before.rest + chunk == before.rest && stream + chunk == stream;
      assert before.results + [] == before.results;
    }
  }

  /** The same, as two ways of calling `feed`: chunk by chunk against once. */
  lemma ChunkingDoesNotMatter(maximum: int, chunks: seq<seq<Byte>>)
    requires Excessive !in FeedAll(maximum, chunks).results
    ensures var once := FeedAll(maximum, [Flatten(chunks)]);
      && FeedAll(maximum, chunks).rest == once.rest
      && Collapse(FeedAll(maximum, chunks).results) == Collapse(once.results)
  {
    var stream := Flatten(chunks);
    ChunkIndependence(maximum, chunks);
    ChunkIndependence(maximum, [stream]);
    FlattenOne(stream);
    assert chunks[..|chunks|] == chunks;
    FitsPrefix(maximum, [stream]);
    assert WithinLimit(maximum, Flatten(chunks[..|chunks|]));
  }

  /** A frame one byte too long for the buffer: cut before its ETX it overflows, whole it does not. */
  lemma OverflowDependsOnChunking(maximum: nat)
    ensures var frame := [STX] + seq(maximum, _ => LF) + [LF];
      var whole := FeedAll(maximum, [frame + [ETX]]);
      var cut := FeedAll(maximum, [frame, [ETX]]);
      Excessive in cut.results && Excessive !in whole.results
  {
    var frame := [STX] + seq(maximum, _ => LF) + [LF];
    var record := frame + [ETX];
    FeedAllOne(maximum, record);
    FeedAllOne(maximum, frame);
    assert [frame, [ETX]][..1] == [frame];
    ScanUnfinished(frame);
    hide Scan;
    assert Excessive in FeedAll(maximum, [frame]).results;
    assert record[1..|frame|] == frame[1..];
    FindUnique(record, ETX, 1, |frame|);
    assert Cut(record) == |record| && record[Cut(record)..] == [];
    ScanStep(record, []);
    ScanUnfinished([]);
    ScanNeverExcessive(record);
    assert [] + record == record;
  }

  // ---------------------------------------------------------------- exactly when chunking is invisible

  /** No chunk boundary that is followed by a byte leaves more than `maximum` bytes of unfinished frame. */
  ghost predicate FitsBeforeEnd(maximum: int, chunks: seq<seq<Byte>>) {
    forall k :: 0 <= k <= |chunks| && Flatten(chunks[k..]) != [] ==> WithinLimit(maximum, Flatten(chunks[..k]))
  }

  /** Two feeds tell their reader the same, up to repeated framing markers, and keep the same buffer. */
  ghost predicate SameFeed(s: Scanned, t: Scanned) {
    s.rest == t.rest && Collapse(s.results) == Collapse(t.results)
  }

  /** A result other than a framing marker separates what is merged before it from what is merged after. */
  lemma {:induction false} CollapseSplits(r: seq<RecordResult>, x: RecordResult, t: seq<RecordResult>)
    requires x != Framing
    ensures Collapse(r + ([x] + t)) == Collapse(r) + ([x] + Collapse(t))
    decreases |r|
  {
    hide Collapse;
    CollapseStep(x, t);
    if r == [] {
      CollapseShort(r);
      assert r + ([x] + t) == [x] + t;
    } else {
      var more := r[1..];
      CollapseSplits(more, x, t);
      SplitStep(r[0], more, [x] + t, [x] + Collapse(t));
      assert r == [r[0]] + more;
    }
  }

  lemma SplitStep(y: RecordResult, more: seq<RecordResult>, q: seq<RecordResult>, c: seq<RecordResult>)
    requires q != [] && q[0] != Framing
    requires Collapse(more + q) == Collapse(more) + c
    ensures Collapse(([y] + more) + q) == Collapse([y] + more) + c
  {
    hide Collapse;
    CollapseStep(y, more);
    CollapseStep(y, more + q);
    Regroup([y], more, q);
    Regroup([y], Collapse(more), c);
    if more == [] {
      assert more + q == q;
    } else {
      assert (more + q)[0] == more[0];
    }
  }

  /** Once a feed has emptied the buffer, what follows is fed as to a new stream. */
  lemma {:induction false} FeedAllRestarts(maximum: int, a: seq<seq<Byte>>, b: seq<seq<Byte>>)
    requires FeedAll(maximum, a).rest == []
    ensures FeedAll(maximum, a + b).rest == FeedAll(maximum, b).rest
    ensures FeedAll(maximum, a + b).results == FeedAll(maximum, a).results + FeedAll(maximum, b).results
    decreases |b|
  {
    hide FeedAll, FeedOnce;
    if b == [] {
      FeedAllNone(maximum);
      assert a + b == a;
    } else {
      var front, c := b[..|b| - 1], b[|b| - 1];
      FeedAllRestarts(maximum, a, front);
      assert b == front + [c] && a + b == (a + front) + [c];
      FeedAllSnoc(maximum, front, c);
      FeedAllSnoc(maximum, a + front, c);
    }
  }

  /** A feed that reports nothing and keeps nothing was fed nothing. */
  lemma SilentFeedIsEmpty(maximum: int, chunks: seq<seq<Byte>>)
    requires FeedAll(maximum, chunks) == Scanned([], [])
    ensures Flatten(chunks) == []
  {
    var parts := EveryByteIsAccounted(maximum, chunks);
    assert parts == [];
    FlattenNone();
  }

  lemma {:induction false} FirstOverflow(maximum: int, chunks: seq<seq<Byte>>) returns (k: nat)
    requires !Fits(maximum, chunks)
    ensures 0 < k <= |chunks|
    ensures Fits(maximum, chunks[..k - 1]) && !WithinLimit(maximum, Flatten(chunks[..k]))
    decreases |chunks|
  {
    if chunks == [] {
      assert chunks[..0] == [];
      FlattenNone();
      ScanUnfinished([]);
      assert false;
    } else {
      hide Fits, WithinLimit;
      var n := |chunks| - 1;
      FitsPrefix(maximum, chunks);
      if Fits(maximum, chunks[..n]) {
        k := n + 1;
        assert chunks[..k] == chunks;
      } else {
        k := FirstOverflow(maximum, chunks[..n]);
        assert chunks[..n][..k] == chunks[..k] && chunks[..n][..k - 1] == chunks[..k - 1];
      }
    }
  }

  lemma OverflowOnce(maximum: int, stream: seq<Byte>, before: Scanned, c: seq<Byte>)
    requires WithinLimit(maximum, stream) && before.rest == Scan(stream).rest
    requires Collapse(before.results) == Collapse(Scan(stream).results)
    requires !WithinLimit(maximum, stream + c)
    ensures var s := Scan(before.rest + c);
      && FeedOnce(maximum, before.rest, c) == Scanned(s.results + [Excessive], [])
      && Collapse(before.results + s.results) == Collapse(Scan(stream + c).results)
  {
    hide Scan, Collapse;
    var s := Scan(before.rest + c);
    ScanAppend(stream, c);
    CollapseAbsorbs(before.results, s.results);
    CollapseAbsorbs(Scan(stream).results, s.results);
    assert c != [] by { assert c == [] ==> stream + c == stream; }
  }

  lemma Regroup(a: seq<RecordResult>, b: seq<RecordResult>, c: seq<RecordResult>)
    ensures (a + b) + c == a + (b + c)
  {
  }

  /** A boundary that overflows reports the excess and starts afresh. */
  lemma OverflowFeed(maximum: int, chunks: seq<seq<Byte>>, k: nat) returns (r: seq<RecordResult>)
    requires 0 < k <= |chunks| && Fits(maximum, chunks[..k - 1]) && !WithinLimit(maximum, Flatten(chunks[..k]))
    ensures FeedAll(maximum, chunks[..k]) == Scanned(r + [Excessive], [])
    ensures Collapse(r) == Collapse(Scan(Flatten(chunks[..k])).results)
  {
    hide FeedAll, FeedOnce, Flatten, Scan, Collapse, WithinLimit;
    var front, c := chunks[..k - 1], chunks[k - 1];
    assert chunks[..k] == front + [c] && front[..k - 1] == front;
    FlattenConcat(front, [c]);
    FlattenOne(c);
    ChunkIndependence(maximum, front);
    FeedAllSnoc(maximum, front, c);
    var before := FeedAll(maximum, front);
    OverflowOnce(maximum, Flatten(front), before, c);
    var s := Scan(before.rest + c);
    r := before.results + s.results;
    Regroup(before.results, s.results, [Excessive]);
  }

  lemma FrameHead(b: seq<Byte>)
    requires !Unfinished(b) && b[0] == STX
    ensures Head(b) != Framing
  {
    FramedRecordIsNotMisframed(b[..Cut(b)]);
  }

  /** The first result after an unfinished frame is that frame's own. */
  lemma FrameComesFirst(b: seq<Byte>)
    requires b != [] && b[0] == STX
    ensures var s := Scan(b);
      if s.results == [] then s.rest == b else s.results[0] != Framing && s.results[0] != Excessive
  {
    ScanNeverExcessive(b);
    if Unfinished(b) {
      ScanUnfinished(b);
    } else {
      ScanStep(b, []);
      FrameHead(b);
      hide Scan, Head;
      assert Scan(b).results[0] in Scan(b).results;
    }
  }

  /** What one feed of a stream reports once it has come to a point `a` where the frame is too long. */
  lemma OnceContinues(maximum: int, a: seq<Byte>, b: seq<Byte>) returns (q: seq<RecordResult>)
    requires !WithinLimit(maximum, a) && b != []
    ensures var once := FeedOnce(maximum, [], a + b);
      && Collapse(once.results) == Collapse(Scan(a).results + q)
      && q != [] && q[0] != Framing && (q[0] == Excessive ==> q == [Excessive] && once.rest == [])
  {
    hide Scan, Collapse;
    var left, first := Scan(a).rest, Scan(a).results;
    var s, t := Scan(left + b), Scan(a + b);
    assert [] + (a + b) == a + b;
    ScanAppend(a, b);
    FrameComesFirst(left + b);
    if t.rest != [] && |t.rest| > maximum {
      q := s.results + [Excessive];
      CollapseAbsorbs(t.results, [Excessive]);
      CollapseAbsorbs(first + s.results, [Excessive]);
      assert first + q == (first + s.results) + [Excessive];
    } else {
      q := s.results;
    }
  }

  lemma {:induction false} EmptyFeedIsSilent(maximum: int, chunks: seq<seq<Byte>>)
    requires Flatten(chunks) == []
    ensures FeedAll(maximum, chunks) == Scanned([], [])
    decreases |chunks|
  {
    if chunks != [] {
      var front, c := chunks[..|chunks| - 1], chunks[|chunks| - 1];
      assert chunks == front + [c];
      FlattenConcat(front, [c]);
      FlattenOne(c);
      EmptyFeedIsSilent(maximum, front);
      FeedAllSnoc(maximum, front, c);
    }
  }

  lemma SplitStream(chunks: seq<seq<Byte>>, k: nat)
    requires k <= |chunks|
    ensures Flatten(chunks) == Flatten(chunks[..k]) + Flatten(chunks[k..])
  {
    assert chunks == chunks[..k] + chunks[k..];
    FlattenConcat(chunks[..k], chunks[k..]);
  }

  lemma OverflowAtTheEnd(maximum: int, chunks: seq<seq<Byte>>, k: nat)
    requires 0 < k <= |chunks| && Fits(maximum, chunks[..k - 1]) && !WithinLimit(maximum, Flatten(chunks[..k]))
    requires Flatten(chunks[k..]) == []
    ensures FitsBeforeEnd(maximum, chunks)
    ensures SameFeed(FeedAll(maximum, chunks), FeedAll(maximum, [Flatten(chunks)]))
  {
    hide FeedAll, Flatten, Scan, Collapse;
    var front := chunks[..k - 1];
    forall j | 0 <= j <= |chunks| && Flatten(chunks[j..]) != []
      ensures WithinLimit(maximum, Flatten(chunks[..j]))
    {
      if j >= k {
        assert chunks[k..][j - k..] == chunks[j..];
        SplitStream(chunks[k..], j - k);
      }
      assert front[..j] == chunks[..j];
    }
    var a := Flatten(chunks[..k]);
    SplitStream(chunks, k);
    assert a + [] == a;
    var r := OverflowFeed(maximum, chunks, k);
    EmptyFeedIsSilent(maximum, chunks[k..]);
    FeedAllRestarts(maximum, chunks[..k], chunks[k..]);
    assert chunks == chunks[..k] + chunks[k..];
    FeedAllOne(maximum, a);
    assert [] + a == a;
    assert a != [] by { ScanUnfinished([]); }
    CollapseSplits(r, Excessive, []);
    CollapseSplits(Scan(a).results, Excessive, []);
    assert [Excessive] + [] == [Excessive] && (r + [Excessive]) + [] == r + [Excessive];
  }

  lemma SamePrefix(p: seq<RecordResult>, u: seq<RecordResult>, v: seq<RecordResult>)
    requires p + u == p + v
    ensures u == v
  {
    assert u == (p + u)[|p|..] && v == (p + v)[|p|..];
  }

  lemma OverflowBeforeTheEnd(maximum: int, chunks: seq<seq<Byte>>, k: nat)
    requires 0 < k <= |chunks| && Fits(maximum, chunks[..k - 1]) && !WithinLimit(maximum, Flatten(chunks[..k]))
    requires Flatten(chunks[k..]) != []
    ensures !SameFeed(FeedAll(maximum, chunks), FeedAll(maximum, [Flatten(chunks)]))
  {
    hide FeedAll, FeedOnce, Flatten, Scan, Collapse, Fits, WithinLimit;
    var a, b := Flatten(chunks[..k]), Flatten(chunks[k..]);
    SplitStream(chunks, k);
    FeedAllOne(maximum, a + b);
    var q := OnceContinues(maximum, a, b);
    var r := OverflowFeed(maximum, chunks, k);
    FeedAllRestarts(maximum, chunks[..k], chunks[k..]);
    assert chunks == chunks[..k] + chunks[k..];
    var later, more := FeedAll(maximum, chunks[k..]), q[1..];
    Regroup(r, [Excessive], later.results);
    CollapseSplits(r, Excessive, later.results);
    assert q == [q[0]] + more;
    CollapseSplits(Scan(a).results, q[0], more);
    if SameFeed(FeedAll(maximum, chunks), FeedAll(maximum, [Flatten(chunks)])) {
      SamePrefix(Collapse(r), [Excessive] + Collapse(later.results), [q[0]] + Collapse(more));
      assert q[0] == ([q[0]] + Collapse(more))[0] == Excessive;
      assert more == [];
      CollapseShort(more);
      assert Collapse(later.results) == ([Excessive] + Collapse(later.results))[1..] == [];
      SilentFeedIsEmpty(maximum, chunks[k..]);
    }
  }

  /** Chunk by chunk and all at once tell the same story exactly when no boundary before the last byte
      leaves more of an unfinished frame than the buffer may hold. */
  lemma ChunkingIsInvisible(maximum: int, chunks: seq<seq<Byte>>)
    ensures FitsBeforeEnd(maximum, chunks) <==>
            SameFeed(FeedAll(maximum, chunks), FeedAll(maximum, [Flatten(chunks)]))
  {
    hide FeedAll, Flatten, Scan, Collapse;
    if Fits(maximum, chunks) {
      ChunkIndependence(maximum, chunks);
      ChunkingDoesNotMatter(maximum, chunks);
    } else {
      var k := FirstOverflow(maximum, chunks);
      if Flatten(chunks[k..]) == [] {
        OverflowAtTheEnd(maximum, chunks, k);
      } else {
        OverflowBeforeTheEnd(maximum, chunks, k);
      }
    }
  }

  // ---------------------------------------------------------------- streams of valid records

  predicate AllCredentials(cs: seq<string>) {
    forall i :: 0 <= i < |cs| ==> IsCredential(cs[i])
  }

  function Records(cs: seq<string>): (r: seq<Byte>)
    requires AllCredentials(cs)
  {
    if cs == [] then [] else Record(cs[0]) + Records(cs[1..])
  }

  function Reports(cs: seq<string>): (r: seq<RecordResult>)
    ensures |r| == |cs| && forall i :: 0 <= i < |cs| ==> r[i] == Parsed(cs[i])
  {
    seq(|cs|, i requires 0 <= i < |cs| => Parsed(cs[i]))
  }

  lemma RecordIsFrame(c: string)
    requires IsCredential(c)
    ensures IsFrame(Record(c)) && |Record(c)| == RECORD_LENGTH && Parse(Record(c)) == Parsed(c)
  {
    PrintedRecordParses(c);
    var r := Record(c);
    forall i | 1 <= i < 15
      ensures r[i] != ETX
    {
      if i < 11 {
        assert r[i] == c[i - 1] as Byte;
      } else if i < 13 {
        assert r[i] == ChecksumText(Checksum(c))[i - 11] as Byte;
      }
    }
  }

  lemma ScanRecordThen(c: string, more: seq<Byte>)
    requires IsCredential(c)
    ensures Scan(Record(c) + more) == Scanned([Parsed(c)] + Scan(more).results, Scan(more).rest)
  {
    RecordIsFrame(c);
    var b := Record(c) + more;
    assert b[1..15] == Record(c)[1..15];
    assert b[1..][14] == ETX;
    FindUnique(b, ETX, 1, 15);
    assert b[..16] == Record(c) && b[16..] == more;
  }

  lemma RecordPrefixResidue(c: string, n: nat)
    requires IsCredential(c) && n < RECORD_LENGTH
    ensures |Record(c)| == RECORD_LENGTH && Residue(Record(c)[..n]) == Record(c)[..n]
  {
  }

  /** Any prefix of a stream of valid records leaves at most fifteen bytes unfinished. */
  lemma {:induction false} RecordsPrefixResidue(cs: seq<string>, n: nat)
    requires AllCredentials(cs) && n <= |Records(cs)|
    ensures |Residue(Records(cs)[..n])| < RECORD_LENGTH
    decreases |cs|
  {
    if cs == [] {
      ScanUnfinished([]);
    } else {
      var first, more := Record(cs[0]), Records(cs[1..]);
      assert Records(cs) == first + more;
      hide Scan, Record, Records;
      RecordPrefixResidue(cs[0], 0);
      if n < RECORD_LENGTH {
        RecordPrefixResidue(cs[0], n);
        assert Records(cs)[..n] == first[..n];
      } else {
        var m := n - RECORD_LENGTH;
        RecordsPrefixResidue(cs[1..], m);
        assert Records(cs)[..n] == first + more[..m];
        ScanRecordThen(cs[0], more[..m]);
      }
    }
  }

  lemma ReportsStep(c: string, more: seq<string>)
    ensures Reports([c] + more) == [Parsed(c)] + Reports(more)
  {
  }

  lemma RecordsStep(c: string, more: seq<string>)
    requires IsCredential(c) && AllCredentials(more)
    ensures AllCredentials([c] + more) && Records([c] + more) == Record(c) + Records(more)
  {
    hide Record;
    assert ([c] + more)[1..] == more;
  }

  lemma {:induction false} ScanRecords(cs: seq<string>)
    requires AllCredentials(cs)
    ensures Scan(Records(cs)) == Scanned(Reports(cs), [])
    decreases |cs|
  {
    hide Scan, Record, IsCredential;
    if cs == [] {
      ScanUnfinished([]);
    } else {
      hide Records, Reports;
      var c, more := cs[0], cs[1..];
      assert cs == [c] + more;
      assert forall i :: 0 <= i < |more| ==> more[i] == cs[i + 1];
      RecordsStep(c, more);
      ReportsStep(c, more);
      ScanRecords(more);
      ScanRecordThen(c, Records(more));
    }
  }

  lemma {:induction false} CollapseKeepsReports(r: seq<RecordResult>, cs: seq<string>)
    requires Collapse(r) == Reports(cs)
    ensures r == Reports(cs)
    decreases |r|
  {
    if |r| > 1 {
      assert r[0] == Collapse(r)[0] == Parsed(cs[0]);
      assert Collapse(r)[1..] == Collapse(r[1..]);
      assert Reports(cs)[1..] == Reports(cs[1..]);
      CollapseKeepsReports(r[1..], cs[1..]);
      assert r == [r[0]] + r[1..];
    }
  }

  lemma {:induction false} FlattenPrefix(chunks: seq<seq<Byte>>, k: nat)
    requires k <= |chunks|
    ensures Flatten(chunks[..k]) <= Flatten(chunks)
  {
    FlattenConcat(chunks[..k], chunks[k..]);
    assert chunks == chunks[..k] + chunks[k..];
  }

  /** Valid records cut at any places come out exactly, in order, with nothing left over. */
  lemma ValidRecordsSurviveChunking(maximum: int, cs: seq<string>, chunks: seq<seq<Byte>>)
    requires maximum >= RECORD_LENGTH - 1
    requires AllCredentials(cs) && Flatten(chunks) == Records(cs)
    ensures FeedAll(maximum, chunks) == Scanned(Reports(cs), [])
  {
    var stream := Records(cs);
    forall k | 0 <= k <= |chunks|
      ensures WithinLimit(maximum, Flatten(chunks[..k]))
    {
      FlattenPrefix(chunks, k);
      RecordsPrefixResidue(cs, |Flatten(chunks[..k])|);
      assert Flatten(chunks[..k]) == stream[..|Flatten(chunks[..k])|];
    }
    ChunkIndependence(maximum, chunks);
    ScanRecords(cs);
    CollapseReports(cs);
    CollapseKeepsReports(FeedAll(maximum, chunks).results, cs);
  }

  lemma {:induction false} CollapseReports(cs: seq<string>)
    ensures Collapse(Reports(cs)) == Reports(cs)
    decreases |cs|
  {
    hide Collapse;
    if |cs| <= 1 {
      CollapseShort(Reports(cs));
    } else {
      var c, more := cs[0], cs[1..];
      assert cs == [c] + more;
      ReportsStep(c, more);
      hide Reports;
      CollapseReports(more);
      CollapseStep(Parsed(c), Reports(more));
    }
  }

  /** Fifteen is the exact limit: below it every record is lost by the cut before its last byte. */
  lemma SmallerBufferLosesRecords(maximum: int, c: string)
    requires maximum < RECORD_LENGTH - 1 && IsCredential(c)
    ensures var chunks := [Record(c)[..15], Record(c)[15..]];
      Flatten(chunks) == Records([c]) && FeedAll(maximum, chunks).results == [Excessive, Framing]
  {
    RecordIsFrame(c);
    var r := Record(c);
    var chunks := [r[..15], r[15..]];
    assert chunks[..1] == [r[..15]];
    FlattenOne(r[..15]);
    FeedAllOne(maximum, r[..15]);
    assert Flatten(chunks) == r[..15] + r[15..] == r;
    assert Records([c]) == r + Records([]) == r by { assert [c][1..] == []; }
    assert r[..15][1..] == r[1..15];
    assert [] + r[15..] == r[15..];
    assert FeedAll(maximum, chunks[..1]) == Scanned([Excessive], []);
    assert r[15..] == [ETX];
    assert [ETX][0..] == [ETX];
    assert Scan([ETX]) == Scanned([Framing], []);
  }
}
