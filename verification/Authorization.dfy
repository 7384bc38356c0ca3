/** The authorization file: loading rows into an index, and classifying credentials with it. */
module Authorization {
  import opened Options
  import opened Outcomes
  import ReaderRecord

  // ---------------------------------------------------------------- the file

  /** One CSV record; `Ragged` has a missing or an extra field. */
  datatype RawRow = Fields(key: string, name: string, allow: string) | Ragged

  datatype Source =
    | Unreadable
    | NotUtf8
    | BrokenCsv
    | Table(header: seq<string>, rows: seq<RawRow>)

  datatype Error = Unavailable | BadEncoding | MalformedCsv | WrongHeader | SchemaViolation | DuplicateKey

  datatype Record = Record(key: string, name: string, allow: bool)

  datatype Loaded = Records(index: map<string, Record>) | Failed(error: Error)

  const HEADER := ["KEY", "NAME", "ALLOW"]

  // ---------------------------------------------------------------- keys

  function Upper(c: char): char {
    if 'a' <= c <= 'z' then (c as int - 32) as char else c
  }

  function Lower(c: char): char {
    if 'A' <= c <= 'Z' then (c as int + 32) as char else c
  }

  function LowerText(s: string): string {
    seq(|s|, i requires 0 <= i < |s| => Lower(s[i]))
  }

  function NormalizeKey(key: string): string {
    if key == [] then []
    else if key[0] == '-' then NormalizeKey(key[1..])
    else [Upper(key[0])] + NormalizeKey(key[1..])
  }

  predicate SameLetter(a: char, b: char) {
    a == b || ('a' <= a <= 'z' && a as int == b as int + 32) || ('a' <= b <= 'z' && b as int == a as int + 32)
  }

  /** Two texts spell the same key: they agree letter by letter but for case and dashes. */
  predicate Spells(a: string, b: string)
    decreases |a| + |b|
  {
    if a != [] && a[0] == '-' then Spells(a[1..], b)
    else if b != [] && b[0] == '-' then Spells(a, b[1..])
    else if a == [] || b == [] then a == b
    else SameLetter(a[0], b[0]) && Spells(a[1..], b[1..])
  }

  lemma {:induction false} SpellingIsNormalForm(a: string, b: string)
    ensures Spells(a, b) <==> NormalizeKey(a) == NormalizeKey(b)
    decreases |a| + |b|
  {
    if a != [] && a[0] == '-' {
      SpellingIsNormalForm(a[1..], b);
    } else if b != [] && b[0] == '-' {
      SpellingIsNormalForm(a, b[1..]);
    } else if a != [] && b != [] {
      SpellingIsNormalForm(a[1..], b[1..]);
      var x, y := NormalizeKey(a), NormalizeKey(b);
      assert x[0] == Upper(a[0]) && x[1..] == NormalizeKey(a[1..]);
      assert y[0] == Upper(b[0]) && y[1..] == NormalizeKey(b[1..]);
      assert x == [x[0]] + x[1..] && y == [y[0]] + y[1..];
      assert Upper(a[0]) == Upper(b[0]) <==> SameLetter(a[0], b[0]);
    }
  }

  /** A credential the reader emits is its own normal form. */
  lemma {:induction false} ReaderCredentialIsNormal(credential: string)
    requires ReaderRecord.IsHex(credential)
    ensures NormalizeKey(credential) == credential
  {
    if credential != [] {
      assert ReaderRecord.IsHexDigit(credential[0]);
      ReaderCredentialIsNormal(credential[1..]);
      assert credential == [credential[0]] + credential[1..];
    }
  }

  // ---------------------------------------------------------------- the schema

  /** The pattern's final `$` also matches before one closing newline. */
  function BeforeEnd(s: string): string {
    if s != [] && s[|s| - 1] == '\n' then s[..|s| - 1] else s
  }

  predicate PlainKey(s: string) {
    |s| == 10 && forall i :: 0 <= i < 10 ==> ReaderRecord.IsAnyHexDigit(s[i])
  }

  predicate DashedKey(s: string) {
    |s| == 14 && forall i :: 0 <= i < 14 ==> if i % 3 == 2 then s[i] == '-' else ReaderRecord.IsAnyHexDigit(s[i])
  }

  predicate KeyPattern(s: string) {
    PlainKey(BeforeEnd(s)) || DashedKey(BeforeEnd(s))
  }

  predicate AllowPattern(s: string) {
    var t := BeforeEnd(s);
    t == "Y" || t == "y" || t == "N" || t == "n"
  }

  /** `named` stands for the name rule: one line, some visible character, at most 120 characters. */
  predicate RowConforms(named: string -> bool, row: RawRow) {
    row.Fields? && KeyPattern(row.key) && named(row.name) && AllowPattern(row.allow)
  }

  predicate Conforms(named: string -> bool, rows: seq<RawRow>) {
    rows != [] && forall i :: 0 <= i < |rows| ==> RowConforms(named, rows[i])
  }

  // ---------------------------------------------------------------- the linear scan

  predicate AllFields(rows: seq<RawRow>) {
    forall i :: 0 <= i < |rows| ==> rows[i].Fields?
  }

  function RowOutcome(row: RawRow): Outcome
    requires row.Fields?
  {
    if row.allow == "Y" || row.allow == "y" then Authorized else Denied
  }

  /** What reading the file top to bottom says about a credential. */
  function Scan(rows: seq<RawRow>, credential: string): Outcome
    requires AllFields(rows)
  {
    if rows == [] then Unknown
    else if Spells(rows[0].key, credential) then RowOutcome(rows[0])
    else Scan(rows[1..], credential)
  }

  ghost predicate Distinct(rows: seq<RawRow>)
    requires AllFields(rows)
  {
    forall i, j :: 0 <= i < j < |rows| ==> !Spells(rows[i].key, rows[j].key)
  }

  lemma {:induction false} ScanFinds(rows: seq<RawRow>, credential: string, i: nat)
    requires AllFields(rows) && Distinct(rows)
    requires i < |rows| && Spells(rows[i].key, credential)
    ensures Scan(rows, credential) == RowOutcome(rows[i])
  {
    if i > 0 {
      SpellingIsNormalForm(rows[i].key, credential);
      SpellingIsNormalForm(rows[0].key, credential);
      SpellingIsNormalForm(rows[0].key, rows[i].key);
      assert rows[1..][i - 1] == rows[i];
      ScanFinds(rows[1..], credential, i - 1);
    }
  }

  lemma {:induction false} ScanMisses(rows: seq<RawRow>, credential: string)
    requires AllFields(rows)
    requires forall i :: 0 <= i < |rows| ==> !Spells(rows[i].key, credential)
    ensures Scan(rows, credential) == Unknown
  {
    if rows != [] {
      ScanMisses(rows[1..], credential);
    }
  }

  // ---------------------------------------------------------------- the index

  function RecordOf(row: RawRow): Record
    requires row.Fields?
  {
    Record(NormalizeKey(row.key), row.name, LowerText(row.allow) == "y")
  }

  lemma AllowMeansAuthorized(row: RawRow)
    requires row.Fields?
    ensures RecordOf(row).allow <==> RowOutcome(row) == Authorized
  {
  }

  /** The index holds each row's record under the row's normal form, and nothing else. */
  ghost predicate Represents(index: map<string, Record>, rows: seq<RawRow>)
    requires AllFields(rows)
  {
    && (forall i :: 0 <= i < |rows| ==>
          NormalizeKey(rows[i].key) in index && index[NormalizeKey(rows[i].key)] == RecordOf(rows[i]))
    && (forall k :: k in index ==> exists i :: 0 <= i < |rows| && NormalizeKey(rows[i].key) == k)
  }

  function Lookup(index: map<string, Record>, credential: string): Outcome {
    var k := NormalizeKey(credential);
    if k !in index then Unknown else if index[k].allow then Authorized else Denied
  }

  /** The index classifies every text exactly as the linear scan does. */
  lemma IndexAgreesWithScan(index: map<string, Record>, rows: seq<RawRow>, credential: string)
    requires AllFields(rows) && Distinct(rows) && Represents(index, rows)
    ensures Lookup(index, credential) == Scan(rows, credential)
  {
    hide Scan, Spells, NormalizeKey, LowerText;
    var k := NormalizeKey(credential);
    if k in index {
      var i :| 0 <= i < |rows| && NormalizeKey(rows[i].key) == k;
      SpellingIsNormalForm(rows[i].key, credential);
      ScanFinds(rows, credential, i);
      AllowMeansAuthorized(rows[i]);
    } else {
      forall i | 0 <= i < |rows| ensures !Spells(rows[i].key, credential) {
        SpellingIsNormalForm(rows[i].key, credential);
      }
      ScanMisses(rows, credential);
    }
  }

  function Occurrence(shuffled: seq<RawRow>, rows: seq<RawRow>, i: nat): (j: nat)
    requires multiset(rows) == multiset(shuffled) && i < |rows|
    ensures j < |shuffled| && shuffled[j] == rows[i]
  {
    assert rows[i] in multiset(rows);
    assert rows[i] in shuffled;
    Position(shuffled, rows[i])
  }

  function Position(rows: seq<RawRow>, row: RawRow): (j: nat)
    requires row in rows
    ensures j < |rows| && rows[j] == row
  {
    if rows[0] == row then 0 else 1 + Position(rows[1..], row)
  }

  lemma {:induction false} RepeatedRow(rows: seq<RawRow>, i: nat, j: nat)
    requires i < j < |rows| && rows[i] == rows[j]
    ensures multiset(rows)[rows[i]] >= 2
  {
    assert rows == rows[..j] + rows[j..];
    assert rows[i] in rows[..j] by { assert rows[..j][i] == rows[i]; }
    assert rows[j] in rows[j..] by { assert rows[j..][0] == rows[j]; }
    assert multiset(rows) == multiset(rows[..j]) + multiset(rows[j..]);
  }

  lemma {:induction false} TwicePositions(rows: seq<RawRow>, row: RawRow) returns (i: nat, j: nat)
    requires multiset(rows)[row] >= 2
    ensures i < j < |rows| && rows[i] == row == rows[j]
  {
    hide Position;
    assert row in rows;
    i := Position(rows, row);
    PositionIsFirst(rows, row);
    CountAround(rows, row, i);
    var q := Position(rows[i + 1..], row);
    j := i + 1 + q;
    assert rows[j] == rows[i + 1..][q];
  }

  lemma CountAround(rows: seq<RawRow>, row: RawRow, i: nat)
    requires i < |rows| && rows[i] == row && row !in rows[..i] && multiset(rows)[row] >= 2
    ensures row in rows[i + 1..]
  {
    var before, rest := rows[..i], rows[i + 1..];
    assert rows == before + ([row] + rest);
    assert multiset(before + ([row] + rest)) == multiset(before) + multiset([row] + rest);
    assert multiset([row] + rest) == multiset{row} + multiset(rest);
    assert multiset(rest)[row] >= 1;
  }

  lemma {:induction false} PositionIsFirst(rows: seq<RawRow>, row: RawRow)
    requires row in rows
    ensures row !in rows[..Position(rows, row)]
  {
    if rows[0] != row {
      PositionIsFirst(rows[1..], row);
      var p := Position(rows[1..], row);
      assert rows[..p + 1] == [rows[0]] + rows[1..][..p];
    }
  }

  lemma ShuffleKeepsDistinct(rows: seq<RawRow>, shuffled: seq<RawRow>)
    requires multiset(rows) == multiset(shuffled)
    requires AllFields(rows) && AllFields(shuffled) && Distinct(rows)
    ensures Distinct(shuffled)
  {
    hide Spells, NormalizeKey;
    forall i, j | 0 <= i < j < |shuffled| ensures !Spells(shuffled[i].key, shuffled[j].key) {
      SpellingIsNormalForm(shuffled[i].key, shuffled[j].key);
      if shuffled[i] == shuffled[j] {
        RepeatedRow(shuffled, i, j);
        var p, q := TwicePositions(rows, shuffled[i]);
      } else {
        var p, q := Occurrence(rows, shuffled, i), Occurrence(rows, shuffled, j);
        SpellingIsNormalForm(rows[p].key, rows[q].key);
        SpellingIsNormalForm(rows[q].key, rows[p].key);
        assert p < q ==> !Spells(rows[p].key, rows[q].key);
        assert q < p ==> !Spells(rows[q].key, rows[p].key);
      }
    }
  }

  // ---------------------------------------------------------------- loading

  /** The failure that loading a file reports, if any. */
  ghost function Verdict(named: string -> bool, source: Source): Option<Error> {
    match source
    case Unreadable => Some(Unavailable)
    case NotUtf8 => Some(BadEncoding)
    case BrokenCsv => Some(MalformedCsv)
    case Table(header, rows) =>
      if header != HEADER then Some(WrongHeader)
      else if !Conforms(named, rows) then Some(SchemaViolation)
      else if !Distinct(rows) then Some(DuplicateKey)
      else None
  }

  lemma ShuffleKeepsConforming(named: string -> bool, rows: seq<RawRow>, shuffled: seq<RawRow>)
    requires multiset(rows) == multiset(shuffled)
    requires Conforms(named, rows)
    ensures Conforms(named, shuffled)
  {
    forall i | 0 <= i < |shuffled| ensures RowConforms(named, shuffled[i]) {
      var j := Occurrence(rows, shuffled, i);
      assert RowConforms(named, rows[j]);
    }
    var j := Occurrence(shuffled, rows, 0);
  }

  lemma ScanIgnoresOrder(rows: seq<RawRow>, shuffled: seq<RawRow>, credential: string)
    requires multiset(rows) == multiset(shuffled)
    requires AllFields(rows) && AllFields(shuffled) && Distinct(rows)
    ensures Scan(rows, credential) == Scan(shuffled, credential)
  {
    hide Scan, Spells;
    ShuffleKeepsDistinct(rows, shuffled);
    if i :| 0 <= i < |rows| && Spells(rows[i].key, credential) {
      var j := Occurrence(shuffled, rows, i);
      ScanFinds(rows, credential, i);
      ScanFinds(shuffled, credential, j);
    } else {
      forall j | 0 <= j < |shuffled| ensures !Spells(shuffled[j].key, credential) {
        var i := Occurrence(rows, shuffled, j);
        assert !Spells(rows[i].key, credential);
      }
      ScanMisses(rows, credential);
      ScanMisses(shuffled, credential);
    }
  }

  /** Reordering a file's rows changes neither whether it loads nor any classification. */
  lemma RowOrderIsIrrelevant(
    named: string -> bool, header: seq<string>, rows: seq<RawRow>, shuffled: seq<RawRow>, credential: string)
    requires multiset(rows) == multiset(shuffled)
    ensures Verdict(named, Table(header, rows)) == Verdict(named, Table(header, shuffled))
    ensures Verdict(named, Table(header, rows)).None? ==> Scan(rows, credential) == Scan(shuffled, credential)
  {
    hide Scan, Spells, RowConforms;
    if Conforms(named, rows) {
      ShuffleKeepsConforming(named, rows, shuffled);
    }
    if Conforms(named, shuffled) {
      ShuffleKeepsConforming(named, shuffled, rows);
      ConformingRowsHaveFields(named, rows);
      ConformingRowsHaveFields(named, shuffled);
      if Distinct(rows) {
        ShuffleKeepsDistinct(rows, shuffled);
        ScanIgnoresOrder(rows, shuffled, credential);
      }
      if Distinct(shuffled) {
        ShuffleKeepsDistinct(shuffled, rows);
      }
    }
  }

  lemma ConformingRowsHaveFields(named: string -> bool, rows: seq<RawRow>)
    requires Conforms(named, rows)
    ensures AllFields(rows)
  {
  }

  method LoadRows(rows: seq<RawRow>) returns (r: Loaded)
    requires AllFields(rows)
    ensures r.Records? <==> Distinct(rows)
    ensures r.Records? ==> Represents(r.index, rows)
    ensures r.Failed? ==> r.error == DuplicateKey
  {
    hide NormalizeKey, Spells;
    var index: map<string, Record> := map[];
    for n := 0 to |rows|
      invariant Represents(index, rows[..n]) && Distinct(rows[..n])
    {
      var k := NormalizeKey(rows[n].key);
      if k in index {
        ghost var i :| 0 <= i < n && NormalizeKey(rows[..n][i].key) == k;
        SpellingIsNormalForm(rows[i].key, rows[n].key);
        return Failed(DuplicateKey);
      }
      DistinctExtends(rows, n);
      RepresentsExtends(index, rows, n);
      index := index[k := RecordOf(rows[n])];
    }
    assert rows[..|rows|] == rows;
    return Records(index);
  }

  lemma DistinctExtends(rows: seq<RawRow>, n: nat)
    requires n < |rows| && AllFields(rows) && Distinct(rows[..n])
    requires forall i :: 0 <= i < n ==> NormalizeKey(rows[i].key) != NormalizeKey(rows[n].key)
    ensures Distinct(rows[..n + 1])
  {
    hide NormalizeKey, Spells;
    var longer, shorter := rows[..n + 1], rows[..n];
    forall i, j | 0 <= i < j < |longer| ensures !Spells(longer[i].key, longer[j].key) {
      if j == n {
        SpellingIsNormalForm(rows[i].key, rows[n].key);
      } else {
        assert !Spells(shorter[i].key, shorter[j].key);
      }
    }
  }

  lemma RepresentsExtends(index: map<string, Record>, rows: seq<RawRow>, n: nat)
    requires n < |rows| && AllFields(rows) && Represents(index, rows[..n])
    requires NormalizeKey(rows[n].key) !in index
    ensures Represents(index[NormalizeKey(rows[n].key) := RecordOf(rows[n])], rows[..n + 1])
  {
    hide NormalizeKey, RecordOf;
    var key := NormalizeKey(rows[n].key);
    var longer, shorter := rows[..n + 1], rows[..n];
    var extended := index[key := RecordOf(rows[n])];
    forall i | 0 <= i < |longer|
      ensures NormalizeKey(longer[i].key) in extended && extended[NormalizeKey(longer[i].key)] == RecordOf(longer[i])
    {
      if i < n {
        assert longer[i] == shorter[i];
      }
    }
    forall k | k in extended ensures exists i :: 0 <= i < |longer| && NormalizeKey(longer[i].key) == k {
      if k == key {
        assert NormalizeKey(longer[n].key) == k;
      } else {
        var i :| 0 <= i < |shorter| && NormalizeKey(shorter[i].key) == k;
        assert longer[i] == shorter[i];
      }
    }
  }

  method Load(named: string -> bool, source: Source) returns (r: Loaded)
    ensures Verdict(named, source) == if r.Failed? then Some(r.error) else None
    ensures r.Records? ==>
      source.Table? && AllFields(source.rows) && Distinct(source.rows) && Represents(r.index, source.rows)
  {
    match source
    case Unreadable => r := Failed(Unavailable);
    case NotUtf8 => r := Failed(BadEncoding);
    case BrokenCsv => r := Failed(MalformedCsv);
    case Table(header, rows) =>
      if header != HEADER {
        r := Failed(WrongHeader);
      } else if !Conforms(named, rows) {
        r := Failed(SchemaViolation);
      } else {
        r := LoadRows(rows);
      }
  }

  // ---------------------------------------------------------------- what the schema lets through

  /** What one character of a key contributes to its normal form. */
  function Contribution(c: char): string {
    if c == '-' then [] else [Upper(c)]
  }

  lemma NormalizeStep(c: char, more: string)
    ensures NormalizeKey([c] + more) == Contribution(c) + NormalizeKey(more)
  {
    assert ([c] + more)[1..] == more;
    assert [] + NormalizeKey(more) == NormalizeKey(more);
  }

  lemma NormalizeNothing()
    ensures NormalizeKey([]) == []
  {
  }

  lemma Regroup(a: string, b: string, c: string)
    ensures (a + b) + c == a + (b + c)
  {
  }

  lemma {:induction false} NormalizeAppend(a: string, b: string)
    ensures NormalizeKey(a + b) == NormalizeKey(a) + NormalizeKey(b)
  {
    hide NormalizeKey, Contribution;
    if a == [] {
      NormalizeNothing();
      assert a + b == b;
    } else {
      var c, more := a[0], a[1..];
      NormalizeAppend(more, b);
      NormalizeStep(c, more);
      NormalizeStep(c, more + b);
      Regroup([c], more, b);
      assert a == [c] + more;
      Regroup(Contribution(c), NormalizeKey(more), NormalizeKey(b));
    }
  }

  lemma {:induction false} NormalizePlain(s: string)
    requires forall i :: 0 <= i < |s| ==> ReaderRecord.IsAnyHexDigit(s[i])
    ensures |NormalizeKey(s)| == |s| && ReaderRecord.IsHex(NormalizeKey(s))
  {
    if s != [] {
      NormalizePlain(s[1..]);
      assert ReaderRecord.IsAnyHexDigit(s[0]);
      assert NormalizeKey(s) == [Upper(s[0])] + NormalizeKey(s[1..]);
    }
  }

  lemma {:induction false} NormalizeDashed(s: string, n: nat)
    requires |s| == 3 * n + 2
    requires forall i :: 0 <= i < |s| ==> if i % 3 == 2 then s[i] == '-' else ReaderRecord.IsAnyHexDigit(s[i])
    ensures |NormalizeKey(s)| == 2 * n + 2 && ReaderRecord.IsHex(NormalizeKey(s))
    decreases n
  {
    assert ReaderRecord.IsAnyHexDigit(s[0]) && ReaderRecord.IsAnyHexDigit(s[1]);
    NormalizePlain(s[..2]);
    NormalizeAppend(s[..2], s[2..]);
    assert s == s[..2] + s[2..];
    if n == 0 {
      assert s[2..] == [];
    } else {
      var rest := s[3..];
      assert s[2] == '-' && s[2..][1..] == rest;
      forall i | 0 <= i < |rest| ensures if i % 3 == 2 then rest[i] == '-' else ReaderRecord.IsAnyHexDigit(rest[i]) {
        assert (i + 3) % 3 == i % 3;
        assert rest[i] == s[i + 3];
      }
      NormalizeDashed(rest, n - 1);
    }
  }

  /** A key the schema accepts is the spelling of some reader credential, unless it ends in a newline. */
  lemma SchemaKeyIsCredential(key: string)
    requires KeyPattern(key)
    ensures (|NormalizeKey(key)| == 10 && ReaderRecord.IsHex(NormalizeKey(key))) <==> BeforeEnd(key) == key
  {
    var body := BeforeEnd(key);
    if PlainKey(body) {
      NormalizePlain(body);
    } else {
      NormalizeDashed(body, 4);
    }
    if body != key {
      assert key == body + ['\n'];
      NormalizeAppend(body, ['\n']);
      assert |NormalizeKey(key)| == 11;
    }
  }

  /** A row whose key ends in a newline passes the schema and yet matches no card. */
  lemma NewlineKeyMatchesNoCard(key: string, credential: string)
    requires KeyPattern(key) && BeforeEnd(key) != key
    requires ReaderRecord.IsHex(credential) && |credential| == 10
    ensures !Spells(key, credential)
  {
    SchemaKeyIsCredential(key);
    SpellingIsNormalForm(key, credential);
    ReaderCredentialIsNormal(credential);
  }

  /** Of the answers the schema accepts, `Y` or `y` authorizes exactly when no newline follows it. */
  lemma AllowAuthorizes(row: RawRow)
    requires row.Fields? && AllowPattern(row.allow)
    ensures RowOutcome(row) == Authorized <==>
            BeforeEnd(row.allow) == row.allow && (row.allow[0] == 'Y' || row.allow[0] == 'y')
  {
  }

  /** A row that allows with a newline after its `Y` is loaded, and its card is denied. */
  lemma NewlineAfterYesDenies(named: string -> bool, name: string, credential: string)
    requires named(name) && PlainKey(credential) && BeforeEnd(credential) == credential
    ensures var row := Fields(credential, name, "Y\n");
      RowConforms(named, row) && Scan([row], credential) == Denied
  {
    SpellingIsNormalForm(credential, credential);
    assert "Y\n"[..1] == "Y";
  }

  // ---------------------------------------------------------------- the store

  datatype Metadata = Metadata(modified: int, size: nat)

  class AuthorizationStore {
    const named: string -> bool
    var records: map<string, Record>
    var version: Option<Metadata>
    /** The rows of the last file that was loaded. */
    ghost var rows: seq<RawRow>

    ghost predicate Valid()
      reads this
    {
      AllFields(rows) && Distinct(rows) && Represents(records, rows) && (version.None? ==> rows == [])
    }

    constructor (named: string -> bool)
      ensures Valid() && this.named == named && rows == [] && version == None
    {
      this.named := named;
      records := map[];
      version := None;
      rows := [];
    }

    /** `status` is what asking for the file's metadata returns; `None` is a failure. */
    method Reload(source: Source, status: Option<Metadata>) returns (ok: bool)
      requires Valid()
      modifies this
      ensures Valid()
      ensures ok <==> Verdict(named, source).None? && status.Some?
      ensures ok ==> rows == source.rows && version == status
      ensures !ok ==> rows == old(rows) && records == old(records) && version == old(version)
    {
      hide Distinct, Represents, RowConforms;
      var candidate := Load(named, source);
      ok := candidate.Records? && status.Some?;
      if ok {
        records := candidate.index;
        version := status;
        rows := source.rows;
      }
    }

    method Classify(credential: string) returns (outcome: Outcome)
      requires Valid()
      ensures outcome == Scan(rows, credential)
    {
      IndexAgreesWithScan(records, rows, credential);
      outcome := Lookup(records, credential);
    }
  }
}
