/** From bytes to the door: every HIGH is paid for by the bytes of an authorized record. */
module EndToEnd {
  import opened Outcomes
  import opened ReaderRecord
  import opened RecordStream
  import opened Escalation
  import opened Controller
  import opened ControllerRelay
  import Authorization

  /** The controller looks its credentials up in these rows. */
  ghost predicate LooksUp(env: Env, rows: seq<Authorization.RawRow>)
    requires Authorization.AllFields(rows)
  {
    forall credential :: env.classify(credential) == Authorization.Scan(rows, credential)
  }

  /** The records a run submits, in order. */
  function Submitted(calls: seq<Call>): seq<RecordResult> {
    if calls == [] then []
    else
      var op := calls[|calls| - 1].op;
      Submitted(calls[..|calls| - 1]) + if op.Process? then [op.record] else []
  }

  predicate Opens(rows: seq<Authorization.RawRow>, result: RecordResult)
    requires Authorization.AllFields(rows)
  {
    result.Parsed? && Authorization.Scan(rows, result.credential) == Authorized
  }

  /** How many of the results name an authorized credential. */
  function OpeningResults(rows: seq<Authorization.RawRow>, results: seq<RecordResult>): nat
    requires Authorization.AllFields(rows)
  {
    if results == [] then 0
    else OpeningResults(rows, results[..|results| - 1]) + Tally(Opens(rows, results[|results| - 1]))
  }

  /** How many stretches of bytes are the printed record of an authorized credential. */
  function OpeningParts(rows: seq<Authorization.RawRow>, parts: seq<seq<Byte>>): nat
    requires Authorization.AllFields(rows)
  {
    if parts == [] then 0
    else OpeningParts(rows, parts[..|parts| - 1]) + Tally(IsOpening(rows, parts[|parts| - 1]))
  }

  predicate IsOpening(rows: seq<Authorization.RawRow>, part: seq<Byte>)
    requires Authorization.AllFields(rows)
  {
    var result := Parse(part);
    result.Parsed? && part == Record(result.credential) && Authorization.Scan(rows, result.credential) == Authorized
  }

  lemma {:induction false} GrantsAreSubmitted(env: Env, rows: seq<Authorization.RawRow>, calls: seq<Call>)
    requires Authorization.AllFields(rows) && LooksUp(env, rows)
    ensures Granted(env, calls) <= OpeningResults(rows, Submitted(calls))
  {
    if calls != [] {
      var front, call := calls[..|calls| - 1], calls[|calls| - 1];
      GrantsAreSubmitted(env, rows, front);
      hide Run, Authorization.Scan;
      if call.op.Process? {
        ResultsAppend(rows, Submitted(front), call.op.record);
      } else {
        assert Submitted(calls) == Submitted(front);
      }
    }
  }

  lemma ResultsAppend(rows: seq<Authorization.RawRow>, results: seq<RecordResult>, result: RecordResult)
    requires Authorization.AllFields(rows)
    ensures OpeningResults(rows, results + [result]) == OpeningResults(rows, results) + Tally(Opens(rows, result))
  {
    hide Opens;
    assert (results + [result])[..|results|] == results;
  }

  lemma {:induction false} ResultsOfPrefix(
    rows: seq<Authorization.RawRow>, some: seq<RecordResult>, all: seq<RecordResult>)
    requires Authorization.AllFields(rows) && some <= all
    ensures OpeningResults(rows, some) <= OpeningResults(rows, all)
    decreases |all|
  {
    if some == all {
    } else {
      ResultsOfPrefix(rows, some, all[..|all| - 1]);
    }
  }

  lemma {:induction false} ResultsHaveParts(
    rows: seq<Authorization.RawRow>, maximum: int, parts: seq<seq<Byte>>, results: seq<RecordResult>)
    requires Authorization.AllFields(rows) && Accounts(maximum, parts, results)
    ensures OpeningResults(rows, results) == OpeningParts(rows, parts)
    decreases |parts|
  {
    if parts != [] {
      var n := |parts| - 1;
      ResultsHaveParts(rows, maximum, parts[..n], results[..n]);
      ExplainedOpening(rows, maximum, parts[n], results[n]);
    }
  }

  /** A part parses as a credential exactly when that credential is its result. */
  lemma ExplainedParses(maximum: int, part: seq<Byte>, result: RecordResult)
    requires Explains(maximum, part, result)
    ensures Parse(part).Parsed? || result.Parsed? ==> Parse(part) == result
  {
    match result
    case Parsed(c) =>
      hide Parse, Record;
      PrintedRecordParses(c);
    case Malformed(reason) =>
      if Parse(part).Parsed? {
        hide Record;
        assert part[0] == STX && part[15] == ETX && part[0] in part && part[15] in part;
      }
  }

  lemma ExplainedOpening(rows: seq<Authorization.RawRow>, maximum: int, part: seq<Byte>, result: RecordResult)
    requires Authorization.AllFields(rows) && Explains(maximum, part, result)
    ensures IsOpening(rows, part) <==> Opens(rows, result)
  {
    hide Parse, Record, Explains, Authorization.Scan;
    ExplainedParses(maximum, part, result);
    if Parse(part).Parsed? {
      AcceptedRecordIsPrinted(part);
    }
  }

  /**
    * Over every byte stream, every way of cutting it and every controller run that submits what the stream
    * reported: the stream is, in order, disjoint parts and a rest, and HIGH is attempted at most once for each
    * part that is the printed record of a credential the rows authorize.
    */
  lemma EveryHighHasItsRecord(
    env: Env, rows: seq<Authorization.RawRow>, maximum: int, chunks: seq<seq<Byte>>, calls: seq<Call>)
    returns (parts: seq<seq<Byte>>)
    requires Authorization.AllFields(rows) && LooksUp(env, rows)
    requires Submitted(calls) <= FeedAll(maximum, chunks).results
    ensures Flatten(parts) + FeedAll(maximum, chunks).rest == Flatten(chunks)
    ensures HighAttempts(Run(env, calls).trace) <= OpeningParts(rows, parts)
  {
    parts := EveryByteIsAccounted(maximum, chunks);
    hide FeedAll, Flatten, Run;
    HighsAreGranted(env, calls);
    GrantsAreSubmitted(env, rows, calls);
    ResultsOfPrefix(rows, Submitted(calls), FeedAll(maximum, chunks).results);
    ResultsHaveParts(rows, maximum, parts, FeedAll(maximum, chunks).results);
  }
}
