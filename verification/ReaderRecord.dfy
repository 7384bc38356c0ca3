/** The ID-20LA serial record: its parser, its printer, and what the checksum buys. */
module ReaderRecord {

  newtype Byte = b: int | 0 <= b < 256

  const STX: Byte := 0x02
  const ETX: Byte := 0x03
  const CR: Byte := 0x0D
  const LF: Byte := 0x0A
  const RECORD_LENGTH := 16
  const IDENTIFIER_LENGTH := 10

  /** `Other` is any reason a caller may hand to the controller that the reader never produces. */
  datatype Reason =
    | InvalidLength
    | InvalidFraming
    | InvalidTerminator
    | InvalidEncoding
    | InvalidIdentifier
    | InvalidChecksumEncoding
    | ChecksumMismatch
    | ExcessiveLength
    | Other(text: string)

  datatype RecordResult = Parsed(credential: string) | Malformed(reason: Reason)

  // ---------------------------------------------------------------- hexadecimal text

  predicate IsHexDigit(c: char) {
    '0' <= c <= '9' || 'A' <= c <= 'F'
  }

  predicate IsHex(s: string) {
    forall i :: 0 <= i < |s| ==> IsHexDigit(s[i])
  }

  /** A hexadecimal digit in either case. */
  predicate IsAnyHexDigit(c: char) {
    IsHexDigit(c) || 'a' <= c <= 'f'
  }

  predicate IsAnyHex(s: string) {
    forall i :: 0 <= i < |s| ==> IsAnyHexDigit(s[i])
  }

  function HexValue(c: char): (v: nat)
    requires IsAnyHexDigit(c)
    ensures v < 16 && (IsHexDigit(c) ==> HexDigit(v) == c)
  {
    if c <= '9' then c as int - '0' as int
    else if c <= 'F' then c as int - 'A' as int + 10
    else c as int - 'a' as int + 10
  }

  function HexDigit(v: nat): (c: char)
    requires v < 16
    ensures IsHexDigit(c)
  {
    if v < 10 then (v + '0' as int) as char else (v - 10 + 'A' as int) as char
  }

  /** The value of `int(text, 16)` for a two-digit text. */
  function PairValue(high: char, low: char): (v: nat)
    requires IsAnyHexDigit(high) && IsAnyHexDigit(low)
    ensures v < 256
  {
    16 * HexValue(high) + HexValue(low)
  }

  lemma PairValueInjective(h1: char, l1: char, h2: char, l2: char)
    requires IsHexDigit(h1) && IsHexDigit(l1) && IsHexDigit(h2) && IsHexDigit(l2)
    requires PairValue(h1, l1) == PairValue(h2, l2)
    ensures h1 == h2 && l1 == l2
  {
  }

  // ---------------------------------------------------------------- exclusive or

  function Xor(a: nat, b: nat): nat
    decreases a + b
  {
    if a == 0 && b == 0 then 0 else (a % 2 + b % 2) % 2 + 2 * Xor(a / 2, b / 2)
  }

  lemma {:induction false} XorCommutes(a: nat, b: nat)
    ensures Xor(a, b) == Xor(b, a)
    decreases a + b
  {
    if a != 0 || b != 0 {
      XorCommutes(a / 2, b / 2);
    }
  }

  lemma {:induction false} XorCancels(x: nat, a: nat, b: nat)
    requires Xor(x, a) == Xor(x, b)
    ensures a == b
    decreases x + a + b
  {
    hide Xor;
    if x != 0 || a != 0 || b != 0 {
      XorStep(x, a);
      XorStep(x, b);
      XorCancels(x / 2, a / 2, b / 2);
    }
  }

  lemma XorStep(a: nat, b: nat)
    ensures Xor(a, b) % 2 == (a % 2 + b % 2) % 2 && Xor(a, b) / 2 == Xor(a / 2, b / 2)
  {
  }

  function Pow2(n: nat): (p: nat)
    ensures p > 0
  {
    if n == 0 then 1 else 2 * Pow2(n - 1)
  }

  lemma {:induction false} XorBounded(n: nat, a: nat, b: nat)
    requires a < Pow2(n) && b < Pow2(n)
    ensures Xor(a, b) < Pow2(n)
    decreases n
  {
    if n > 0 {
      XorBounded(n - 1, a / 2, b / 2);
    }
  }

  lemma XorOfBytes(a: nat, b: nat)
    requires a < 256 && b < 256
    ensures Xor(a, b) < 256
  {
    assert Pow2(8) == 256 by {
      assert Pow2(2) == 4;
      assert Pow2(5) == 32;
    }
    XorBounded(8, a, b);
  }

  // ---------------------------------------------------------------- checksum and printer

  /** The exclusive or of the bytes spelled by the first `n` digits, taken two digits at a time. */
  function ChecksumTo(data: string, n: nat): (c: nat)
    requires IsAnyHex(data) && n <= |data|
    ensures c < 256
  {
    if n == 0 then 0
    else
      var before := if n % 2 == 1 then n - 1 else n - 2;
      var v := if n % 2 == 1 then HexValue(data[n - 1]) else PairValue(data[n - 2], data[n - 1]);
      XorOfBytes(ChecksumTo(data, before), v);
      Xor(ChecksumTo(data, before), v)
  }

  function Checksum(data: string): (c: nat)
    requires IsAnyHex(data)
    ensures c < 256
  {
    ChecksumTo(data, |data|)
  }

  function ChecksumText(c: nat): (s: string)
    requires c < 256
    ensures |s| == 2 && IsHex(s) && PairValue(s[0], s[1]) == c
  {
    HexDigitValue(c / 16);
    HexDigitValue(c % 16);
    [HexDigit(c / 16), HexDigit(c % 16)]
  }

  lemma HexDigitValue(v: nat)
    requires v < 16
    ensures HexValue(HexDigit(v)) == v
  {
  }

  predicate IsAscii(bytes: seq<Byte>) {
    forall i :: 0 <= i < |bytes| ==> bytes[i] < 128
  }

  function DecodeAscii(bytes: seq<Byte>): (s: string)
    requires IsAscii(bytes)
    ensures |s| == |bytes|
  {
    seq(|bytes|, i requires 0 <= i < |bytes| => bytes[i] as char)
  }

  function EncodeHex(s: string): (bytes: seq<Byte>)
    requires IsAnyHex(s)
    ensures |bytes| == |s| && IsAscii(bytes) && DecodeAscii(bytes) == s
    ensures forall i :: 0 <= i < |s| ==> bytes[i] == s[i] as Byte
  {
    seq(|s|, i requires 0 <= i < |s| => s[i] as Byte)
  }

  /** The record that carries a text of hexadecimal digits. */
  function Record(credential: string): (r: seq<Byte>)
    requires IsAnyHex(credential)
    ensures |r| == |credential| + 6
  {
    [STX] + EncodeHex(credential) + EncodeHex(ChecksumText(Checksum(credential))) + [CR, LF, ETX]
  }

  /** The checksum loop that the printer and the parser share. */
  method ComputeChecksum(data: string) returns (checksum: nat)
    requires IsAnyHex(data)
    ensures checksum == Checksum(data)
  {
    hide Xor, HexValue;
    checksum := 0;
    var offset := 0;
    while offset < |data|
      invariant 0 <= offset <= |data|
      invariant offset % 2 == 0 || offset == |data|
      invariant checksum == ChecksumTo(data, offset)
    {
      if offset + 2 <= |data| {
        checksum := Xor(checksum, PairValue(data[offset], data[offset + 1]));
        offset := offset + 2;
      } else {
        checksum := Xor(checksum, HexValue(data[offset]));
        offset := offset + 1;
      }
    }
  }

  method BuildRecord(credential: string) returns (record: seq<Byte>)
    requires IsAnyHex(credential)
    ensures record == Record(credential)
  {
    var checksum := ComputeChecksum(credential);
    record := [STX] + EncodeHex(credential) + EncodeHex(ChecksumText(checksum)) + [CR, LF, ETX];
  }

  // ---------------------------------------------------------------- parser

  predicate IsCredential(s: string) {
    |s| == IDENTIFIER_LENGTH && IsHex(s)
  }

  /** The outcome of the parser; `Malformed` stands for the error it raises. */
  function Parse(record: seq<Byte>): (result: RecordResult)
  {
    if |record| != RECORD_LENGTH then Malformed(InvalidLength)
    else if record[0] != STX || record[15] != ETX then Malformed(InvalidFraming)
    else if record[13..15] != [CR, LF] then Malformed(InvalidTerminator)
    else if !IsAscii(record[1..11]) || !IsAscii(record[11..13]) then Malformed(InvalidEncoding)
    else
      var data := DecodeAscii(record[1..11]);
      var text := DecodeAscii(record[11..13]);
      if !IsCredential(data) then Malformed(InvalidIdentifier)
      else if !IsHex(text) then Malformed(InvalidChecksumEncoding)
      else if Checksum(data) != PairValue(text[0], text[1]) then Malformed(ChecksumMismatch)
      else Parsed(data)
  }

  method ParseReaderRecord(record: seq<Byte>) returns (result: RecordResult)
    ensures result == Parse(record)
  {
    if |record| != RECORD_LENGTH {
      return Malformed(InvalidLength);
    }
    if record[0] != STX || record[15] != ETX {
      return Malformed(InvalidFraming);
    }
    if record[13..15] != [CR, LF] {
      return Malformed(InvalidTerminator);
    }
    if !IsAscii(record[1..11]) || !IsAscii(record[11..13]) {
      return Malformed(InvalidEncoding);
    }
    var data := DecodeAscii(record[1..11]);
    var text := DecodeAscii(record[11..13]);
    if !IsCredential(data) {
      return Malformed(InvalidIdentifier);
    }
    if !IsHex(text) {
      return Malformed(InvalidChecksumEncoding);
    }
    var checksum := ComputeChecksum(data);
    if checksum != PairValue(text[0], text[1]) {
      return Malformed(ChecksumMismatch);
    }
    result := Parsed(data);
  }

  // ---------------------------------------------------------------- parser and printer are inverse

  /** The parser accepts exactly the printed records, and returns the credential that was printed. */
  lemma ParseInvertsPrint(record: seq<Byte>, credential: string)
    ensures Parse(record) == Parsed(credential) <==> IsCredential(credential) && record == Record(credential)
  {
    if IsCredential(credential) && record == Record(credential) {
      PrintedRecordParses(credential);
    }
    if Parse(record) == Parsed(credential) {
      AcceptedRecordIsPrinted(record);
    }
  }

  /** The printer also prints what no reader emits: a record parses back exactly when its text is ten
      upper-case digits. */
  lemma PrintedRecordParses(credential: string)
    requires IsAnyHex(credential)
    ensures Parse(Record(credential)) == Parsed(credential) <==> IsCredential(credential)
  {
    if !IsCredential(credential) {
      return;
    }
    var r := Record(credential);
    assert r[1..11] == EncodeHex(credential);
    assert r[11..13] == EncodeHex(ChecksumText(Checksum(credential)));
    assert r[13..15] == [CR, LF];
  }

  lemma AcceptedRecordIsPrinted(record: seq<Byte>)
    requires Parse(record).Parsed?
    ensures IsCredential(Parse(record).credential) && record == Record(Parse(record).credential)
  {
    var data := DecodeAscii(record[1..11]);
    var text := DecodeAscii(record[11..13]);
    var printed := ChecksumText(Checksum(data));
    PairValueInjective(text[0], text[1], printed[0], printed[1]);
    assert text == printed;
    assert EncodeHex(data) == record[1..11];
    assert EncodeHex(text) == record[11..13];
    assert record == [record[0]] + record[1..11] + record[11..13] + record[13..15] + [record[15]];
  }

  // ---------------------------------------------------------------- error detection

  ghost predicate DifferOnlyAt(a: string, b: string, p: nat) {
    && p < |a| == |b| && a[p] != b[p]
    && forall i :: 0 <= i < |a| && i != p ==> a[i] == b[i]
  }

  lemma NoChecksum(data: string)
    requires IsAnyHex(data)
    ensures ChecksumTo(data, 0) == 0
  {
  }

  lemma ChecksumStep(data: string, n: nat)
    requires IsAnyHex(data) && 2 <= n <= |data| && n % 2 == 0
    ensures ChecksumTo(data, n) == Xor(ChecksumTo(data, n - 2), PairValue(data[n - 2], data[n - 1]))
  {
    hide Xor, PairValue;
  }

  lemma {:induction false} ChecksumSeesOneDigit(a: string, b: string, p: nat, n: nat)
    requires IsHex(a) && IsHex(b) && DifferOnlyAt(a, b, p)
    requires n <= |a| && n % 2 == 0
    ensures ChecksumTo(a, n) != ChecksumTo(b, n) <==> p < n
    decreases n
  {
    hide ChecksumTo, Xor, PairValue;
    if n == 0 {
      NoChecksum(a);
      NoChecksum(b);
    } else {
      ChecksumStep(a, n);
      ChecksumStep(b, n);
      var va, vb := PairValue(a[n - 2], a[n - 1]), PairValue(b[n - 2], b[n - 1]);
      var ca, cb := ChecksumTo(a, n - 2), ChecksumTo(b, n - 2);
      ChecksumSeesOneDigit(a, b, p, n - 2);
      if ChecksumTo(a, n) == ChecksumTo(b, n) {
        XorCommutes(ca, va);
        XorCommutes(cb, vb);
        if va == vb {
          XorCancels(va, ca, cb);
          PairValueInjective(a[n - 2], a[n - 1], b[n - 2], b[n - 1]);
        } else if ca == cb {
          XorCancels(ca, va, vb);
        }
      }
    }
  }

  /** Any two distinct accepted records differ in at least two bytes. */
  lemma RecordsDifferTwice(r1: seq<Byte>, r2: seq<Byte>)
    requires Parse(r1).Parsed? && Parse(r2).Parsed? && r1 != r2
    ensures exists i, j :: 0 <= i < j < RECORD_LENGTH && r1[i] != r2[i] && r1[j] != r2[j]
  {
    AcceptedRecordIsPrinted(r1);
    AcceptedRecordIsPrinted(r2);
    var c1, c2 := Parse(r1).credential, Parse(r2).credential;
    assert c1 != c2;
    var p :| 0 <= p < 10 && c1[p] != c2[p];
    assert r1[1 + p] != r2[1 + p];
    if q :| 0 <= q < 10 && q != p && c1[q] != c2[q] {
      assert r1[1 + q] != r2[1 + q];
    } else {
      ChecksumSeesOneDigit(c1, c2, p, 10);
      var t1, t2 := ChecksumText(Checksum(c1)), ChecksumText(Checksum(c2));
      if t1[0] != t2[0] {
        assert r1[11] != r2[11];
      } else {
        assert t1[1] != t2[1];
        assert r1[12] != r2[12];
      }
    }
  }

  /** Changing one byte of an accepted record always makes it unacceptable. */
  lemma SubstitutionIsRejected(record: seq<Byte>, i: nat, b: Byte)
    requires Parse(record).Parsed? && i < |record| && b != record[i]
    ensures Parse(record[i := b]).Malformed?
  {
    if Parse(record[i := b]).Parsed? {
      RecordsDifferTwice(record, record[i := b]);
    }
  }

  /** A record cut by the scanner is never reported as badly framed. */
  lemma FramedRecordIsNotMisframed(record: seq<Byte>)
    requires |record| >= 2 && record[0] == STX && record[|record| - 1] == ETX
    ensures Parse(record) != Malformed(InvalidFraming) && Parse(record) != Malformed(ExcessiveLength)
  {
  }
}
