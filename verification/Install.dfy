/** Installing an authorization file: copy beside the destination, validate the copy, rename it over. */
module Install {
  import opened Options
  import opened ReaderRecord

  type Bytes = seq<Byte>

  datatype Stage =
    | CandidateValidation
    | AbandonedCleanup
    | TemporaryCreation
    | CandidateCopy
    | TemporaryFlush
    | TemporaryFsync
    | TemporaryValidation
    | AtomicReplace
    | TemporaryCleanup

  datatype Effect =
    | Inject(stage: Stage)
    | LoadCandidate
    | MakeDirectory
    | ListSiblings
    | RemoveSibling(name: nat)
    | OpenCandidate
    | CreateTemporary
    | ReadChunk
    | WriteChunk(bytes: Bytes)
    | Flush
    | Sync
    | Close
    | LoadTemporary
    | Replace
    | RemoveTemporary
    | Report(stage: Stage)

  /** How one operation ends: an operating system error, another exception, or an interruption. */
  datatype Fault = Fine | OsError | Failure | Fatal

  datatype Attempt = Attempt(effect: Effect, fault: Fault)

  // ---------------------------------------------------------------- the directory

  datatype Temporary = Temporary(buffer: Bytes, stored: Bytes)

  datatype Disk = Disk(destination: Option<Bytes>, abandoned: set<nat>, temporary: Option<Temporary>)

  /** What one attempt does to the directory. Only a rename touches the destination. */
  function Apply(disk: Disk, a: Attempt): Disk {
    if a.fault != Fine then disk
    else
      match a.effect
      case RemoveSibling(name) => disk.(abandoned := disk.abandoned - {name})
      case CreateTemporary => disk.(temporary := Some(Temporary([], [])))
      case RemoveTemporary => disk.(temporary := None)
      case WriteChunk(bytes) =>
        if disk.temporary.None? then disk
        else disk.(temporary := Some(disk.temporary.value.(buffer := disk.temporary.value.buffer + bytes)))
      case Flush => Flushed(disk)
      case Close => Flushed(disk)
      case Replace =>
        if disk.temporary.None? then disk
        else disk.(destination := Some(disk.temporary.value.stored), temporary := None)
      case _ => disk
  }

  function Flushed(disk: Disk): Disk {
    if disk.temporary.None? then disk
    else
      var t := disk.temporary.value;
      disk.(temporary := Some(Temporary([], t.stored + t.buffer)))
  }

  function After(disk: Disk, trace: seq<Attempt>): Disk {
    if trace == [] then disk else Apply(After(disk, trace[..|trace| - 1]), trace[|trace| - 1])
  }

  lemma AfterAppend(disk: Disk, trace: seq<Attempt>, a: Attempt)
    ensures After(disk, trace + [a]) == Apply(After(disk, trace), a)
  {
  }

  predicate Untouched(trace: seq<Attempt>) {
    forall k :: 0 <= k < |trace| ==> trace[k] != Attempt(Replace, Fine)
  }

  /** Until a rename succeeds, the destination is what it was, at every moment. */
  lemma {:induction false} UntouchedKeepsDestination(disk: Disk, trace: seq<Attempt>)
    requires Untouched(trace)
    ensures After(disk, trace).destination == disk.destination
  {
    if trace != [] {
      UntouchedKeepsDestination(disk, trace[..|trace| - 1]);
      assert trace[|trace| - 1] != Attempt(Replace, Fine);
    }
  }

  /** The bytes that the copying loop sees: the reads up to the first empty one. */
  function Copied(chunks: seq<Bytes>): Bytes {
    if chunks == [] || chunks[0] == [] then [] else chunks[0] + Copied(chunks[1..])
  }

  // ---------------------------------------------------------------- the call

  /** An attempt that ends the installation: anything failed but an abandoned sibling that would not go away. */
  predicate Fails(a: Attempt) {
    a.fault != Fine && !(a.effect.RemoveSibling? && a.fault == OsError)
  }

  function StageOf(e: Effect): Stage {
    match e
    case Inject(stage) => stage
    case LoadCandidate | MakeDirectory | ListSiblings | RemoveSibling(_) | Report(_) => CandidateValidation
    case OpenCandidate | CreateTemporary => TemporaryCreation
    case ReadChunk | WriteChunk(_) => CandidateCopy
    case Flush => TemporaryFlush
    case Sync | Close => TemporaryFsync
    case LoadTemporary => TemporaryValidation
    case Replace => AtomicReplace
    case RemoveTemporary => TemporaryCleanup
  }

  /** The stage of the first attempt that failed the installation, if one did. */
  function Blame(trace: seq<Attempt>): Option<Stage> {
    if trace == [] then None
    else
      var earlier, a := Blame(trace[..|trace| - 1]), trace[|trace| - 1];
      if earlier.Some? then earlier else if Fails(a) then Some(StageOf(a.effect)) else None
  }

  lemma BlameAppend(trace: seq<Attempt>, a: Attempt)
    ensures Blame(trace + [a]) ==
            if Blame(trace).Some? then Blame(trace) else if Fails(a) then Some(StageOf(a.effect)) else None
  {
  }

  predicate Interrupted(trace: seq<Attempt>) {
    exists k :: 0 <= k < |trace| && trace[k].fault == Fatal
  }

  predicate Occurs(trace: seq<Attempt>, e: Effect) {
    exists k :: 0 <= k < |trace| && trace[k].effect == e
  }

  predicate Failed(trace: seq<Attempt>, e: Effect) {
    exists k :: 0 <= k < |trace| && trace[k].effect == e && trace[k].fault != Fine
  }

  /** Removing the temporary file was tried and did not succeed. */
  predicate RemovalFailed(trace: seq<Attempt>) {
    Failed(trace, Inject(TemporaryCleanup)) || Failed(trace, RemoveTemporary)
  }

  lemma CopiedStep(chunks: seq<Bytes>, n: nat, done: Bytes)
    requires n <= |chunks|
    ensures n < |chunks| && chunks[n] != [] ==>
              done + Copied(chunks[n..]) == (done + chunks[n]) + Copied(chunks[n + 1..])
    ensures chunks[0..] == chunks
  {
  }

  lemma CopiedEnd(chunks: seq<Bytes>, n: nat)
    requires n <= |chunks| && (n == |chunks| || chunks[n] == [])
    ensures Copied(chunks[n..]) == []
  {
  }

  /** The last operations of a successful installation. */
  const COMMIT: seq<Effect> :=
    [Sync, Close, Inject(TemporaryValidation), LoadTemporary, Inject(AtomicReplace), Replace]

  predicate EndsFine(trace: seq<Attempt>, effects: seq<Effect>) {
    && |effects| <= |trace|
    && forall k :: 0 <= k < |effects| ==> trace[|trace| - |effects| + k] == Attempt(effects[k], Fine)
  }

  lemma EmptyTrace(disk: Disk)
    ensures After(disk, []) == disk && Blame([]) == None && Untouched([])
  {
  }

  lemma OccursLast(trace: seq<Attempt>)
    requires trace != []
    ensures Occurs(trace, trace[|trace| - 1].effect)
  {
  }

  lemma OccursLater(trace: seq<Attempt>, longer: seq<Attempt>, e: Effect)
    requires trace <= longer
    ensures Occurs(trace, e) ==> Occurs(longer, e)
  {
  }

  lemma CommitEnds(closed: seq<Attempt>, trace: seq<Attempt>)
    requires EndsFine(closed, [Sync, Close])
    requires trace == closed + [Attempt(COMMIT[2], Fine), Attempt(COMMIT[3], Fine),
                                Attempt(COMMIT[4], Fine), Attempt(COMMIT[5], Fine)]
    ensures EndsFine(trace, COMMIT)
  {
  }

  /** Seen from outside, the destination changes at the last operation or never. */
  lemma Moments(disk: Disk, trace: seq<Attempt>, renamed: bool)
    requires if renamed then trace != [] && Untouched(trace[..|trace| - 1]) else Untouched(trace)
    ensures forall k :: 0 <= k <= |trace| ==>
              After(disk, trace[..k]).destination ==
              if renamed && k == |trace| then After(disk, trace).destination else disk.destination
  {
    hide After;
    forall k | 0 <= k <= |trace|
      ensures After(disk, trace[..k]).destination ==
              if renamed && k == |trace| then After(disk, trace).destination else disk.destination
    {
      if renamed && k == |trace| {
        assert trace[..k] == trace;
      } else {
        var start := trace[..k];
        assert renamed ==> forall j :: 0 <= j < k ==> trace[..|trace| - 1][j] == start[j];
        UntouchedKeepsDestination(disk, start);
      }
    }
  }

  class Installer {
    const accepts: Bytes -> bool
    const faults: nat -> Fault
    const start: Disk
    var trace: seq<Attempt>

    constructor (accepts: Bytes -> bool, faults: nat -> Fault, start: Disk)
      ensures this.accepts == accepts && this.faults == faults && this.start == start && trace == []
    {
      this.accepts := accepts;
      this.faults := faults;
      this.start := start;
      trace := [];
    }

    function Now(): Disk
      reads this
    {
      After(start, trace)
    }

    /** No rename has succeeded yet and the steps so far blame `stage`. */
    ghost predicate Pending(stage: Option<Stage>)
      reads this
    {
      Untouched(trace) && Blame(trace) == stage
    }

    /** One fallible operation; the oracle decides its fault, unless the parser already refuses `content`. */
    method Try(e: Effect, content: Option<Bytes>) returns (f: Fault)
      modifies this
      ensures trace == old(trace) + [Attempt(e, f)]
      ensures Now() == Apply(old(Now()), Attempt(e, f))
      ensures Blame(trace) ==
              if old(Blame(trace)).Some? then old(Blame(trace))
              else if Fails(Attempt(e, f)) then Some(StageOf(e)) else None
      ensures old(Untouched(trace)) && (e != Replace || f != Fine) ==> Untouched(trace)
      ensures f == Fatal || old(Interrupted(trace)) ==> Interrupted(trace)
      ensures f == Fine && content.Some? ==> accepts(content.value)
    {
      f := faults(|trace|);
      if f == Fine && content.Some? && !accepts(content.value) {
        f := Failure;
      }
      AfterAppend(start, trace, Attempt(e, f));
      BlameAppend(trace, Attempt(e, f));
      trace := trace + [Attempt(e, f)];
    }

    /** Validate the candidate and clear what earlier installations left beside the destination. */
    method Prepare(first: Bytes, names: seq<nat>) returns (f: Fault)
      requires Pending(None)
      modifies this
      ensures old(trace) <= trace
      ensures f == Fatal || old(Interrupted(trace)) ==> Interrupted(trace)
      ensures Pending(if f == Fine then None else Some(CandidateValidation))
      ensures Now() == old(Now()).(abandoned := Now().abandoned)
      ensures Now().abandoned <= old(Now().abandoned)
      ensures f == Fine ==> accepts(first) && Cleared(names)
    {
      hide Interrupted, After, Blame;
      f := Try(Inject(CandidateValidation), None);
      if f != Fine { return; }
      f := Try(LoadCandidate, Some(first));
      if f != Fine { return; }
      f := Try(MakeDirectory, None);
      if f != Fine { return; }
      f := Try(ListSiblings, None);
      if f != Fine { return; }
      for n := 0 to |names|
        invariant old(trace) <= trace
        invariant f == Fatal || old(Interrupted(trace)) ==> Interrupted(trace)
        invariant Pending(None) && f == Fine
        invariant Now() == old(Now()).(abandoned := Now().abandoned)
        invariant Now().abandoned <= old(Now().abandoned)
        invariant Cleared(names[..n])
      {
        f := Clear(names[n], names[..n]);
        if f != Fine { return; }
        assert names[..n] + [names[n]] == names[..n + 1];
      }
      assert names[..|names|] == names;
    }

    ghost predicate Cleared(names: seq<nat>)
      reads this
    {
      forall i :: 0 <= i < |names| ==> names[i] !in Now().abandoned || Failed(trace, RemoveSibling(names[i]))
    }

    method Clear(name: nat, ghost done: seq<nat>) returns (f: Fault)
      requires Pending(None) && Cleared(done)
      modifies this
      ensures old(trace) <= trace
      ensures f == Fatal || old(Interrupted(trace)) ==> Interrupted(trace)
      ensures Pending(if f == Fine then None else Some(CandidateValidation))
      ensures Now() == old(Now()).(abandoned := Now().abandoned)
      ensures Now().abandoned <= old(Now().abandoned)
      ensures f == Fine ==> Cleared(done + [name])
    {
      hide Interrupted, After, Blame;
      f := Try(RemoveSibling(name), None);
      ghost var tried := trace;
      assert f == OsError ==> tried[|tried| - 1] == Attempt(RemoveSibling(name), OsError);
      if f == OsError {
        f := Try(Report(AbandonedCleanup), None);
      }
      assert f == Fine ==> tried <= trace && (name !in Now().abandoned || Failed(trace, RemoveSibling(name)));
    }

    /** Copy, flush and sync, inside the block that owns the temporary file. */
    method Fill(chunks: seq<Bytes>) returns (f: Fault, stage: Stage)
      requires Pending(None) && Now().temporary == Some(Temporary([], []))
      modifies this
      ensures old(trace) <= trace
      ensures f == Fatal || old(Interrupted(trace)) ==> Interrupted(trace)
      ensures Pending(if f == Fine then None else Some(stage))
      ensures Now() == old(Now()).(temporary := Now().temporary) && Now().temporary.Some?
      ensures f == Fine ==> Now().temporary.value == Temporary([], Copied(chunks)) && stage == TemporaryFsync
      ensures f == Fine ==> EndsFine(trace, [Sync])
    {
      hide Interrupted, After, Blame;
      stage := CandidateCopy;
      f := Try(Inject(stage), None);
      if f != Fine { return; }
      f := CopyChunks(chunks);
      if f != Fine { return; }
      f, stage := Settle();
    }

    /** Push the copied bytes through the buffer to the disk. */
    method Settle() returns (f: Fault, stage: Stage)
      requires Pending(None) && Now().temporary.Some?
      modifies this
      ensures old(trace) <= trace
      ensures f == Fatal || old(Interrupted(trace)) ==> Interrupted(trace)
      ensures Pending(if f == Fine then None else Some(stage))
      ensures Now() == old(Now()).(temporary := Now().temporary) && Now().temporary.Some?
      ensures f == Fine ==>
        && stage == TemporaryFsync && EndsFine(trace, [Sync])
        && Now().temporary.value == Temporary([], old(Now().temporary.value.stored + Now().temporary.value.buffer))
    {
      hide Interrupted, After, Blame, Untouched;
      stage := TemporaryFlush;
      f := Try(Inject(stage), None);
      if f != Fine { return; }
      f := Try(Flush, None);
      if f != Fine { return; }
      stage := TemporaryFsync;
      f := Try(Inject(stage), None);
      if f != Fine { return; }
      f := Try(Sync, None);
    }

    /** `chunks` are what successive reads return; the candidate may be rewritten between them. */
    method CopyChunks(chunks: seq<Bytes>) returns (f: Fault)
      requires Pending(None) && Now().temporary == Some(Temporary([], []))
      modifies this
      ensures old(trace) <= trace
      ensures f == Fatal || old(Interrupted(trace)) ==> Interrupted(trace)
      ensures Pending(if f == Fine then None else Some(CandidateCopy))
      ensures Now() == old(Now()).(temporary := Now().temporary) && Now().temporary.Some?
      ensures f == Fine ==> Now().temporary.value == Temporary(Copied(chunks), [])
    {
      hide Interrupted, After, Blame, Copied;
      var n := 0;
      f := Try(ReadChunk, None);
      CopiedStep(chunks, 0, []);
      while f == Fine && n < |chunks| && chunks[n] != []
        invariant n <= |chunks|
        invariant old(trace) <= trace
        invariant f == Fatal || old(Interrupted(trace)) ==> Interrupted(trace)
        invariant Pending(if f == Fine then None else Some(CandidateCopy))
        invariant Now() == old(Now()).(temporary := Now().temporary) && Now().temporary.Some?
        invariant f == Fine ==> Now().temporary.value.stored == []
        invariant f == Fine ==> Now().temporary.value.buffer + Copied(chunks[n..]) == Copied(chunks)
        decreases |chunks| - n, f == Fine
      {
        CopiedStep(chunks, n, Now().temporary.value.buffer);
        f := Try(WriteChunk(chunks[n]), None);
        if f == Fine {
          n := n + 1;
          f := Try(ReadChunk, None);
        }
      }
      if f == Fine {
        CopiedEnd(chunks, n);
      }
    }

    method Create() returns (f: Fault)
      requires Pending(None) && Now().temporary == None
      modifies this
      ensures old(trace) <= trace
      ensures f == Fatal || old(Interrupted(trace)) ==> Interrupted(trace)
      ensures Pending(if f == Fine then None else Some(TemporaryCreation))
      ensures Now() == if f == Fine then old(Now()).(temporary := Some(Temporary([], []))) else old(Now())
    {
      hide Interrupted, After, Blame, Untouched;
      f := Try(Inject(TemporaryCreation), None);
      if f != Fine { return; }
      f := Try(OpenCandidate, None);
      if f != Fine { return; }
      f := Try(CreateTemporary, None);
    }

    /** The block that owns the temporary file closes it however the copying ended. */
    method Copy(chunks: seq<Bytes>) returns (f: Fault, stage: Stage, named: bool)
      requires Pending(None) && Now().temporary == None
      modifies this
      ensures old(trace) <= trace
      ensures f == Fatal || old(Interrupted(trace)) ==> Interrupted(trace)
      ensures Pending(if f == Fine then None else Some(stage))
      ensures Now() == old(Now()).(temporary := Now().temporary) && Now().temporary.Some? == named
      ensures f == Fine ==> named && Now().temporary.value == Temporary([], Copied(chunks))
      ensures f == Fine ==> EndsFine(trace, [Sync, Close])
    {
      hide Interrupted, After, Blame, Copied, Untouched;
      stage, named := TemporaryCreation, false;
      f := Create();
      if f != Fine { return; }
      named := true;
      f, stage := Fill(chunks);
      ghost var filled := trace;
      var closing := Try(Close, None);
      if closing != Fine {
        f := closing;
      }
      assert f == Fine ==> trace[|trace| - 2] == filled[|filled| - 1];
    }

    /** Validate what was copied, then rename it over the destination. */
    method Publish() returns (f: Fault, stage: Stage)
      requires Pending(None) && Now().temporary.Some? && EndsFine(trace, [Sync, Close])
      modifies this
      ensures old(trace) <= trace
      ensures f == Fatal || old(Interrupted(trace)) ==> Interrupted(trace)
      ensures Blame(trace) == if f == Fine then None else Some(stage)
      ensures f != Fine ==> Untouched(trace) && Now() == old(Now())
      ensures f == Fine ==>
        && EndsFine(trace, COMMIT) && trace != [] && Untouched(trace[..|trace| - 1])
        && accepts(old(Now().temporary.value.stored))
        && Now() == old(Now()).(destination := Some(old(Now().temporary.value.stored)), temporary := None)
    {
      hide Interrupted, After, Blame, Untouched, EndsFine;
      stage := TemporaryValidation;
      f := Try(Inject(stage), None);
      if f != Fine { return; }
      f := Try(LoadTemporary, Some(Now().temporary.value.stored));
      if f != Fine { return; }
      stage := AtomicReplace;
      f := Try(Inject(stage), None);
      if f != Fine { return; }
      ghost var ready := trace;
      assert ready == old(trace) + [Attempt(COMMIT[2], Fine), Attempt(COMMIT[3], Fine), Attempt(COMMIT[4], Fine)];
      f := Try(Replace, None);
      assert trace[..|trace| - 1] == ready;
      if f == Fine {
        CommitEnds(old(trace), trace);
      }
    }

    /** Remove the temporary file; only an operating system error is swallowed. */
    method CleanUp() returns (f: Fault)
      requires Untouched(trace) && Blame(trace).Some?
      modifies this
      ensures old(trace) <= trace && Untouched(trace) && Blame(trace) == old(Blame(trace))
      ensures f == Fatal || old(Interrupted(trace)) ==> Interrupted(trace)
      ensures Now() == old(Now()).(temporary := Now().temporary)
      ensures Now().temporary.Some? ==> RemovalFailed(trace)
    {
      hide Interrupted, After, Blame;
      f := Try(Inject(TemporaryCleanup), None);
      if f == Fine {
        f := Try(RemoveTemporary, None);
      }
      ghost var tried := trace;
      assert f != Fine ==> Fails(tried[|tried| - 1]) && RemovalFailed(tried);
      if f == OsError {
        f := Try(Report(TemporaryCleanup), None);
      }
      assert RemovalFailed(tried) ==> RemovalFailed(trace) by {
        assert forall k :: 0 <= k < |tried| ==> trace[k] == tried[k];
      }
    }

    /**
      * The whole call. `first` is what the first validation reads and `chunks` is what the copying
      * reads, which another process may have changed; `names` is what the directory listing shows.
      */
    method Install(first: Bytes, chunks: seq<Bytes>, names: seq<nat>) returns (f: Fault)
      requires trace == [] && start.temporary == None
      modifies this
      ensures f == Fine <==> Blame(trace) == None
      ensures forall k :: 0 <= k <= |trace| ==>
        After(start, trace[..k]).destination ==
        if f == Fine && k == |trace| then Some(Copied(chunks)) else start.destination
      ensures f == Fine ==> accepts(first) && accepts(Copied(chunks))
      ensures f == Fine ==> Now().temporary == None && EndsFine(trace, COMMIT) && Cleared(names)
      ensures Now().abandoned <= start.abandoned
      ensures Now().temporary.Some? ==> RemovalFailed(trace)
      ensures f == Fine || Interrupted(trace) || Occurs(trace, Report(Blame(trace).value))
    {
      hide Blame, Copied, After, Interrupted, Occurs, EndsFine, RemovalFailed, Untouched;
      EmptyTrace(start);
      var stage, named;
      f, stage, named := Proceed(first, chunks, names);
      if f == Fine {
        Moments(start, trace, true);
        return;
      }
      if f == OsError || f == Failure {
        var reporting := Try(Report(stage), None);
        OccursLast(trace);
        if reporting != Fine {
          f := reporting;
        }
      }
      if named {
        ghost var reported := trace;
        var cleaning := CleanUp();
        OccursLater(reported, trace, Report(stage));
        if cleaning != Fine {
          f := cleaning;
        }
      }
      Moments(start, trace, false);
    }

    /** What is tried: everything up to the rename. `named` says whether a temporary file is left to remove. */
    method Proceed(first: Bytes, chunks: seq<Bytes>, names: seq<nat>) returns (f: Fault, stage: Stage, named: bool)
      requires Pending(None) && Now().temporary == None
      modifies this
      ensures f == Fatal || old(Interrupted(trace)) ==> Interrupted(trace)
      ensures Blame(trace) == if f == Fine then None else Some(stage)
      ensures Now().abandoned <= old(Now().abandoned) && named == Now().temporary.Some?
      ensures f != Fine ==> Untouched(trace)
      ensures f == Fine ==>
        && !named && EndsFine(trace, COMMIT) && trace != [] && Untouched(trace[..|trace| - 1])
        && accepts(first) && accepts(Copied(chunks)) && Now().destination == Some(Copied(chunks))
        && Cleared(names)
    {
      hide Blame, Copied, After, Interrupted, EndsFine, Untouched;
      f := Prepare(first, names);
      stage, named := CandidateValidation, false;
      if f != Fine { return; }
      f, stage, named := Copy(chunks);
      if f != Fine { return; }
      f, stage := Publish();
      named := f != Fine;
    }
  }
}
