/** The opaque cursor: unpadded base64url text, section 5 of RFC 4648. */
module CursorText {
  import opened Options
  import opened ReaderRecord
  import opened IsoTime
  import opened Pagination

  // ---------------------------------------------------------------- the alphabet

  function SextetChar(v: nat): char
    requires v < 64
  {
    if v < 26 then ('A' as int + v) as char
    else if v < 52 then ('a' as int + v - 26) as char
    else if v < 62 then ('0' as int + v - 52) as char
    else if v == 62 then '-' else '_'
  }

  function SextetValue(c: char): (v: Option<nat>)
    ensures v.Some? ==> v.value < 64
  {
    if 'A' <= c <= 'Z' then Some(c as int - 'A' as int)
    else if 'a' <= c <= 'z' then Some(c as int - 'a' as int + 26)
    else if '0' <= c <= '9' then Some(c as int - '0' as int + 52)
    else if c == '-' then Some(62)
    else if c == '_' then Some(63)
    else None
  }

  lemma SextetRoundTrip(v: nat)
    requires v < 64
    ensures SextetValue(SextetChar(v)) == Some(v) && SextetChar(v) != '='
  {
  }

  // ---------------------------------------------------------------- padded encoding

  /** Up to three bytes as one number; missing bytes count as zero. */
  function Packed(b: seq<Byte>): (v: nat)
    requires 0 < |b| <= 3
    ensures v < 0x1000000
  {
    (b[0] as int * 0x100 + if |b| > 1 then b[1] as int else 0) * 0x100 + if |b| > 2 then b[2] as int else 0
  }

  function EncodeGroup(b: seq<Byte>): (s: string)
    requires 0 < |b| <= 3
    ensures |s| == 4
  {
    var v := Packed(b);
    [SextetChar(v / 0x40 / 0x40 / 0x40), SextetChar(v / 0x40 / 0x40 % 0x40),
     if |b| > 1 then SextetChar(v / 0x40 % 0x40) else '=',
     if |b| > 2 then SextetChar(v % 0x40) else '=']
  }

  function EncodePadded(b: seq<Byte>): string {
    if b == [] then [] else if |b| <= 3 then EncodeGroup(b) else EncodeGroup(b[..3]) + EncodePadded(b[3..])
  }

  function UnpackGroup(v: nat, n: nat): (b: seq<Byte>)
    requires v < 0x1000000 && 0 < n <= 3
    ensures |b| == n
  {
    [(v / 0x100 / 0x100) as Byte, (v / 0x100 % 0x100) as Byte, (v % 0x100) as Byte][..n]
  }

  function Joined(a: nat, b: nat, c: nat, d: nat): (v: nat)
    requires a < 0x40 && b < 0x40 && c < 0x40 && d < 0x40
    ensures v < 0x1000000
  {
    ((a * 0x40 + b) * 0x40 + c) * 0x40 + d
  }

  function DecodeGroup(s: string): Option<seq<Byte>>
    requires |s| == 4
  {
    var a :- SextetValue(s[0]);
    var b :- SextetValue(s[1]);
    if s[2] == '=' then
      if s[3] == '=' then Some(UnpackGroup(Joined(a, b, 0, 0), 1)) else None
    else
      var c :- SextetValue(s[2]);
      if s[3] == '=' then Some(UnpackGroup(Joined(a, b, c, 0), 2))
      else
        var d :- SextetValue(s[3]);
        Some(UnpackGroup(Joined(a, b, c, d), 3))
  }

  function DecodePadded(s: string): Option<seq<Byte>> {
    if s == [] then Some([])
    else if |s| < 4 then None
    else
      var head :- DecodeGroup(s[..4]);
      var tail :- DecodePadded(s[4..]);
      Some(head + tail)
  }

  lemma SextetsJoin(v: nat)
    requires v < 0x1000000
    ensures Joined(v / 0x40 / 0x40 / 0x40, v / 0x40 / 0x40 % 0x40, v / 0x40 % 0x40, v % 0x40) == v
  {
  }

  lemma UnpackPacked(b: seq<Byte>)
    requires 0 < |b| <= 3
    ensures UnpackGroup(Packed(b), |b|) == b
  {
    var high := b[0] as int * 0x100 + if |b| > 1 then b[1] as int else 0;
    assert Packed(b) / 0x100 == high;
    assert high / 0x100 == b[0] as int;
  }

  lemma ShortGroupSextets(b: seq<Byte>)
    requires 0 < |b| <= 3
    ensures |b| <= 2 ==> Packed(b) % 0x40 == 0
    ensures |b| == 1 ==> Packed(b) / 0x40 % 0x40 == 0
  {
    var high := b[0] as int * 0x100 + if |b| > 1 then b[1] as int else 0;
    if |b| <= 2 {
      assert Packed(b) == 0x40 * (4 * high);
    }
    if |b| == 1 {
      assert Packed(b) / 0x40 == 0x40 * (0x10 * b[0] as int);
    }
  }

  lemma GroupRoundTrip(b: seq<Byte>)
    requires 0 < |b| <= 3
    ensures DecodeGroup(EncodeGroup(b)) == Some(b)
  {
    var v := Packed(b);
    hide SextetChar, SextetValue, Packed, UnpackGroup, Joined;
    SextetRoundTrip(v / 0x40 / 0x40 / 0x40);
    SextetRoundTrip(v / 0x40 / 0x40 % 0x40);
    SextetRoundTrip(v / 0x40 % 0x40);
    SextetRoundTrip(v % 0x40);
    SextetsJoin(v);
    ShortGroupSextets(b);
    UnpackPacked(b);
  }

  lemma {:induction false} PaddedRoundTrip(b: seq<Byte>)
    ensures DecodePadded(EncodePadded(b)) == Some(b)
    decreases |b|
  {
    if b != [] {
      var n := if |b| <= 3 then |b| else 3;
      GroupRoundTrip(b[..n]);
      PaddedRoundTrip(b[n..]);
      assert b[..n] + b[n..] == b;
      if |b| <= 3 {
        assert b[..n] == b && b[n..] == [];
        assert EncodePadded(b)[..4] == EncodeGroup(b) && EncodePadded(b)[4..] == [];
      } else {
        assert EncodePadded(b)[..4] == EncodeGroup(b[..3]) && EncodePadded(b)[4..] == EncodePadded(b[3..]);
      }
    }
  }

  // ---------------------------------------------------------------- without padding

  function StripPadding(s: string): string {
    if s != [] && s[|s| - 1] == '=' then StripPadding(s[..|s| - 1]) else s
  }

  function Padding(length: nat): string {
    seq((4 - length % 4) % 4, _ => '=')
  }

  function Encode(b: seq<Byte>): string {
    StripPadding(EncodePadded(b))
  }

  function Decode(s: string): Option<seq<Byte>> {
    DecodePadded(s + Padding(|s|))
  }

  lemma {:induction false} StripAppend(x: string, y: string)
    requires y != [] && y[0] != '='
    ensures StripPadding(x + y) == x + StripPadding(y)
    decreases |y|
  {
    var n := |y| - 1;
    if y[n] == '=' {
      StripAppend(x, y[..n]);
      assert (x + y)[..|x + y| - 1] == x + y[..n];
    }
  }

  lemma StripGroup(b: seq<Byte>)
    requires 0 < |b| <= 3
    ensures EncodeGroup(b)[0] != '='
    ensures StripPadding(EncodeGroup(b)) == EncodeGroup(b)[..|b| + 1]
    ensures EncodeGroup(b) == EncodeGroup(b)[..|b| + 1] + Padding(|b| + 1)
  {
    var v := Packed(b);
    hide SextetChar, SextetValue, Packed;
    SextetRoundTrip(v / 0x40 / 0x40 / 0x40);
    SextetRoundTrip(v / 0x40 / 0x40 % 0x40);
    SextetRoundTrip(v / 0x40 % 0x40);
    SextetRoundTrip(v % 0x40);
    var s := EncodeGroup(b);
    if |b| == 1 {
      assert s[..3][..2] == s[..2];
      assert StripPadding(s[..3]) == StripPadding(s[..2]) == s[..2];
    } else if |b| == 2 {
      assert StripPadding(s[..3]) == s[..3];
    } else {
      assert s[..4] == s;
    }
  }

  lemma PaddingPeriod(m: nat, n: nat)
    requires m % 4 == n % 4
    ensures Padding(m) == Padding(n)
  {
  }

  lemma PaddedSplit(b: seq<Byte>)
    requires |b| > 3
    ensures EncodePadded(b) == EncodeGroup(b[..3]) + EncodePadded(b[3..])
  {
  }

  lemma ShortPaddingIsRestored(b: seq<Byte>)
    requires |b| <= 3
    ensures Encode(b) + Padding(|Encode(b)|) == EncodePadded(b)
  {
    hide EncodeGroup, DecodePadded;
    if b == [] {
      assert EncodePadded(b) == [] && Encode(b) == [];
    } else {
      StripGroup(b);
      var s := EncodeGroup(b);
      assert EncodePadded(b) == s && Encode(b) == s[..|b| + 1];
    }
  }

  lemma PaddedStart(b: seq<Byte>)
    requires b != []
    ensures EncodePadded(b) != [] && EncodePadded(b)[0] != '='
  {
  }

  lemma StripSplit(b: seq<Byte>)
    requires |b| > 3
    ensures Encode(b) == EncodeGroup(b[..3]) + Encode(b[3..])
  {
    hide EncodeGroup, EncodePadded, StripPadding;
    PaddedSplit(b);
    PaddedStart(b[3..]);
    StripAppend(EncodeGroup(b[..3]), EncodePadded(b[3..]));
  }

  lemma Reassociate(x: string, y: string, z: string)
    ensures (x + y) + z == x + (y + z)
  {
  }

  /** The padding that `encode` strips is what `decode` puts back. */
  lemma {:induction false} PaddingIsRestored(b: seq<Byte>)
    ensures Encode(b) + Padding(|Encode(b)|) == EncodePadded(b)
    decreases |b|
  {
    hide Padding, StripPadding, EncodeGroup, EncodePadded, Encode;
    if |b| <= 3 {
      ShortPaddingIsRestored(b);
    } else {
      var first, more := EncodeGroup(b[..3]), Encode(b[3..]);
      PaddedSplit(b);
      StripSplit(b);
      PaddingIsRestored(b[3..]);
      PaddingPeriod(|Encode(b)|, |more|);
      Reassociate(first, more, Padding(|more|));
    }
  }

  /** Every payload survives the trip through the cursor's text. */
  lemma CursorPayloadRoundTrip(b: seq<Byte>)
    ensures Decode(Encode(b)) == Some(b)
  {
    PaddingIsRestored(b);
    PaddedRoundTrip(b);
  }

  // ---------------------------------------------------------------- the whole cursor

  /** The JSON codec for a pair of texts. */
  datatype Json = Json(dump: (string, string) -> seq<Byte>, load: seq<Byte> -> Option<(string, string)>)

  ghost predicate RoundTrips(json: Json) {
    forall time: string, id: string :: json.load(json.dump(time, id)) == Some((time, id))
  }

  function EncodeCursor(json: Json, c: Cursor): string {
    Encode(json.dump(Iso(c.time), c.id))
  }

  function DecodeCursor(json: Json, text: string): Option<Cursor> {
    var payload :- Decode(text);
    var pair :- json.load(payload);
    var time :- ParseIso(pair.0);
    if pair.1 == "" then None else Some(Cursor(time, pair.1))
  }

  /** A cursor handed out as text is read back unchanged exactly when its event id is not empty. */
  lemma CursorRoundTrip(json: Json, c: Cursor)
    requires RoundTrips(json) && c.time.Valid()
    ensures DecodeCursor(json, EncodeCursor(json, c)) == if c.id == "" then None else Some(c)
  {
    hide Encode, Decode, Iso, ParseIso;
    CursorPayloadRoundTrip(json.dump(Iso(c.time), c.id));
    IsoRoundTrip(c.time);
  }

  // ---------------------------------------------------------------- walking with the text

  /** What a request that carries the cursor as text gets. */
  datatype TextResult = Served(items: seq<Row>, next: Option<string>) | Refused(error: Error) | MalformedCursor

  function Printed(json: Json, c: Option<Cursor>): Option<string> {
    if c.None? then None else Some(EncodeCursor(json, c.value))
  }

  ghost function Fetch(json: Json, table: set<Row>, maximum: nat, limit: int, c: Option<Cursor>, f: Filter): TextResult
    requires IsTable(table)
  {
    match ListEvents(table, maximum, limit, c, f)
    case Err(e) => Refused(e)
    case Ok(page) => Served(page.items, Printed(json, page.next))
  }

  ghost function ListText(
    json: Json, table: set<Row>, maximum: nat, limit: int, text: Option<string>, f: Filter): TextResult
    requires IsTable(table)
  {
    var e := Validate(maximum, limit, text.Some?, f);
    if e.Some? then Refused(e.value)
    else if text.None? then Fetch(json, table, maximum, limit, None, f)
    else
      var c := DecodeCursor(json, text.value);
      if c.None? then MalformedCursor else Fetch(json, table, maximum, limit, c, f)
  }

  /** The walk as a client makes it, handing back the text it was handed; a refusal ends it. */
  ghost function WalkText(
    json: Json, tables: seq<set<Row>>, maximum: nat, limit: int, text: Option<string>, f: Filter): Walked
    requires AllTables(tables)
  {
    if tables == [] then Walked([], false)
    else
      match ListText(json, tables[0], maximum, limit, text, f)
      case Served(items, next) =>
        if next.None? then Walked(items, true)
        else
          var rest := WalkText(json, tables[1..], maximum, limit, next, f.(before := None));
          Walked(items + rest.items, rest.complete)
      case _ => Walked([], false)
  }

  /** No event id is empty. */
  ghost predicate AllNamed(tables: seq<set<Row>>) {
    forall i, r :: 0 <= i < |tables| && r in tables[i] ==> r.id != ""
  }

  /** A cursor that its text brings back. */
  predicate Readable(c: Option<Cursor>) {
    c.Some? ==> c.value.id != "" && c.value.time.Valid()
  }

  /** The next cursor comes from a row of the table. */
  lemma NextIsReadable(table: set<Row>, maximum: nat, limit: int, c: Option<Cursor>, f: Filter)
    requires IsTable(table) && Validate(maximum, limit, c.Some?, f) == None
    requires forall r :: r in table ==> r.id != ""
    ensures Readable(ListEvents(table, maximum, limit, c, f).value.next)
  {
    ListEventsGivesPage(table, maximum, limit, c, f);
    hide ListEvents, Past, Selected;
    var page := ListEvents(table, maximum, limit, c, f).value;
    if page.next.Some? {
      assert page.items[limit - 1] in page.items;
    }
  }

  lemma TextIsCursor(json: Json, table: set<Row>, maximum: nat, limit: int, c: Option<Cursor>, f: Filter)
    requires RoundTrips(json) && IsTable(table) && Readable(c)
    ensures ListText(json, table, maximum, limit, Printed(json, c), f) == Fetch(json, table, maximum, limit, c, f)
  {
    if c.Some? {
      CursorRoundTrip(json, c.value);
    }
    hide DecodeCursor, EncodeCursor, Query;
  }

  /** With no empty event ids, walking with the text is walking with the cursors. */
  lemma {:induction false} TextWalkIsWalk(
    json: Json, tables: seq<set<Row>>, maximum: nat, limit: int, c: Option<Cursor>, f: Filter)
    requires RoundTrips(json) && AllTables(tables) && AllNamed(tables) && Readable(c)
    requires Validate(maximum, limit, c.Some?, f) == None
    ensures WalkText(json, tables, maximum, limit, Printed(json, c), f) == Walk(tables, maximum, limit, c, f)
    decreases |tables|
  {
    if tables != [] {
      hide ListText, ListEvents, EncodeCursor, RoundTrips, Readable;
      TextIsCursor(json, tables[0], maximum, limit, c, f);
      NextIsReadable(tables[0], maximum, limit, c, f);
      ListEventsGivesPage(tables[0], maximum, limit, c, f);
      var page := ListEvents(tables[0], maximum, limit, c, f).value;
      if page.next.Some? {
        TextWalkIsWalk(json, tables[1..], maximum, limit, page.next, f.(before := None));
      }
    }
  }

  /** So a client that follows the text to its end has every wanted row, in order. */
  lemma TextWalkIsComplete(
    json: Json, tables: seq<set<Row>>, maximum: nat, limit: int, c: Option<Cursor>, f: Filter)
    requires RoundTrips(json) && AllTables(tables) && AllNamed(tables) && Growing(tables) && Readable(c)
    requires Validate(maximum, limit, c.Some?, f) == None
    requires WalkText(json, tables, maximum, limit, Printed(json, c), f).complete
    ensures tables != []
    ensures Covers(WalkText(json, tables, maximum, limit, Printed(json, c), f).items,
                   Wanted(tables[0], f, c), Wanted(tables[|tables| - 1], f, c))
  {
    hide WalkText, Walk, Covers, Readable, RoundTrips;
    TextWalkIsWalk(json, tables, maximum, limit, c, f);
    WalkIsComplete(tables, maximum, limit, c, f);
  }

  /** A page that ends in a row with an empty id hands out a text that the next request refuses. */
  lemma EmptyIdEndsWalk(json: Json, table: set<Row>, maximum: nat, limit: int, c: Cursor, f: Filter)
    requires RoundTrips(json) && IsTable(table) && c.time.Valid() && c.id == ""
    requires Validate(maximum, limit, true, f) == None
    ensures ListText(json, table, maximum, limit, Printed(json, Some(c)), f) == MalformedCursor
  {
    CursorRoundTrip(json, c);
    hide DecodeCursor, EncodeCursor;
  }
}
