/** UTC timestamps as the audit log stores them: ISO text with the fraction left out when it is zero. */
module IsoTime {
  import opened Options

  datatype Instant = Instant(
    year: nat, month: nat, day: nat, hour: nat, minute: nat, second: nat, micro: nat)
  {
    predicate Valid() {
      && 1 <= year <= 9999 && 1 <= month <= 12 && 1 <= day <= 31
      && hour < 24 && minute < 60 && second < 60 && micro < 1000000
    }
  }

  predicate Earlier(a: Instant, b: Instant) {
    if a.year != b.year then a.year < b.year
    else if a.month != b.month then a.month < b.month
    else if a.day != b.day then a.day < b.day
    else if a.hour != b.hour then a.hour < b.hour
    else if a.minute != b.minute then a.minute < b.minute
    else if a.second != b.second then a.second < b.second
    else a.micro < b.micro
  }

  // ---------------------------------------------------------------- text

  /** The order SQLite's binary collation gives to text. */
  predicate Below(a: string, b: string) {
    b != [] && (a == [] || a[0] < b[0] || (a[0] == b[0] && Below(a[1..], b[1..])))
  }

  function Digit(n: nat): char
    requires n < 10
  {
    ('0' as int + n) as char
  }

  function Pow10(k: nat): nat {
    if k == 0 then 1 else 10 * Pow10(k - 1)
  }

  /** A number written with `k` digits. */
  function Pad(n: nat, k: nat): (s: string)
    ensures |s| == k
  {
    if k == 0 then [] else Pad(n / 10, k - 1) + [Digit(n % 10)]
  }

  function Field(n: nat, k: nat, rest: string): string {
    Pad(n, k) + rest
  }

  const UTC := "+00:00"

  function Fraction(micro: nat): string {
    if micro == 0 then UTC else ['.'] + Field(micro, 6, UTC)
  }

  function Iso(t: Instant): string {
    Field(t.year, 4, ['-'] + Field(t.month, 2, ['-'] + Field(t.day, 2, ['T'] +
    Field(t.hour, 2, [':'] + Field(t.minute, 2, [':'] + Field(t.second, 2, Fraction(t.micro)))))))
  }

  // ---------------------------------------------------------------- order

  lemma BelowCons(c: char, d: char, x: string, y: string)
    ensures Below([c] + x, [d] + y) <==> c < d || (c == d && Below(x, y))
  {
  }

  lemma {:induction false} FieldBelow(n: nat, m: nat, k: nat, x: string, y: string)
    requires n < Pow10(k) && m < Pow10(k)
    ensures Below(Field(n, k, x), Field(m, k, y)) <==> n < m || (n == m && Below(x, y))
    decreases k
  {
    if k == 0 {
      assert Field(n, k, x) == x && Field(m, k, y) == y;
    } else {
      var x', y' := [Digit(n % 10)] + x, [Digit(m % 10)] + y;
      assert Field(n, k, x) == Field(n / 10, k - 1, x');
      assert Field(m, k, y) == Field(m / 10, k - 1, y');
      FieldBelow(n / 10, m / 10, k - 1, x', y');
      BelowCons(Digit(n % 10), Digit(m % 10), x, y);
      hide Field, Below;
    }
  }

  lemma Powers()
    ensures Pow10(2) == 100 && Pow10(4) == 10000 && Pow10(6) == 1000000
  {
  }

  /** The fraction orders correctly even when only one side has one, because '+' sorts before '.'. */
  lemma FractionBelow(a: nat, b: nat)
    requires a < 1000000 && b < 1000000
    ensures Below(Fraction(a), Fraction(b)) <==> a < b
  {
    Powers();
    FieldBelow(a, b, 6, UTC, UTC);
    BelowIrreflexive(UTC);
    BelowCons('.', '.', Field(a, 6, UTC), Field(b, 6, UTC));
    BelowCons('+', '.', UTC[1..], Field(b, 6, UTC));
    BelowCons('.', '+', Field(a, 6, UTC), UTC[1..]);
    assert UTC == ['+'] + UTC[1..];
  }

  lemma {:induction false} BelowIrreflexive(a: string)
    ensures !Below(a, a)
    decreases |a|
  {
    if a != [] {
      BelowIrreflexive(a[1..]);
    }
  }

  lemma SeparatedBelow(n: nat, m: nat, k: nat, c: char, x: string, y: string)
    requires n < Pow10(k) && m < Pow10(k)
    ensures Below(Field(n, k, [c] + x), Field(m, k, [c] + y)) <==> n < m || (n == m && Below(x, y))
  {
    FieldBelow(n, m, k, [c] + x, [c] + y);
    BelowCons(c, c, x, y);
  }

  /** For UTC timestamps text order is chronological order. */
  lemma IsoOrder(a: Instant, b: Instant)
    requires a.Valid() && b.Valid()
    ensures Below(Iso(a), Iso(b)) <==> Earlier(a, b)
  {
    hide Below, Field, Fraction;
    Powers();
    FractionBelow(a.micro, b.micro);
    FieldBelow(a.second, b.second, 2, Fraction(a.micro), Fraction(b.micro));
    var a5, b5 := Field(a.second, 2, Fraction(a.micro)), Field(b.second, 2, Fraction(b.micro));
    SeparatedBelow(a.minute, b.minute, 2, ':', a5, b5);
    var a4, b4 := Field(a.minute, 2, [':'] + a5), Field(b.minute, 2, [':'] + b5);
    SeparatedBelow(a.hour, b.hour, 2, ':', a4, b4);
    var a3, b3 := Field(a.hour, 2, [':'] + a4), Field(b.hour, 2, [':'] + b4);
    SeparatedBelow(a.day, b.day, 2, 'T', a3, b3);
    var a2, b2 := Field(a.day, 2, ['T'] + a3), Field(b.day, 2, ['T'] + b3);
    SeparatedBelow(a.month, b.month, 2, '-', a2, b2);
    var a1, b1 := Field(a.month, 2, ['-'] + a2), Field(b.month, 2, ['-'] + b2);
    SeparatedBelow(a.year, b.year, 4, '-', a1, b1);
  }

  // ---------------------------------------------------------------- reading the text back

  predicate IsDigit(c: char) {
    '0' <= c <= '9'
  }

  function Number(s: string): nat
    requires forall i :: 0 <= i < |s| ==> IsDigit(s[i])
  {
    if s == [] then 0
    else
      assert IsDigit(s[|s| - 1]);
      10 * Number(s[..|s| - 1]) + (s[|s| - 1] as int - '0' as int)
  }

  function TakeNumber(s: string, k: nat): Option<(nat, string)> {
    if |s| >= k && forall i :: 0 <= i < k ==> IsDigit(s[i]) then Some((Number(s[..k]), s[k..])) else None
  }

  function TakeChar(s: string, c: char): Option<string> {
    if s != [] && s[0] == c then Some(s[1..]) else None
  }

  function TakeFraction(s: string): Option<nat> {
    if s == UTC then Some(0)
    else
      var s1 :- TakeChar(s, '.');
      var (micro, s2) :- TakeNumber(s1, 6);
      if s2 == UTC then Some(micro) else None
  }

  /** Reads a UTC timestamp in the form that is stored. */
  function ParseIso(s: string): Option<Instant> {
    var (year, s1) :- TakeNumber(s, 4);
    var s2 :- TakeChar(s1, '-');
    var (month, s3) :- TakeNumber(s2, 2);
    var s4 :- TakeChar(s3, '-');
    var (day, s5) :- TakeNumber(s4, 2);
    var s6 :- TakeChar(s5, 'T');
    var (hour, s7) :- TakeNumber(s6, 2);
    var s8 :- TakeChar(s7, ':');
    var (minute, s9) :- TakeNumber(s8, 2);
    var s10 :- TakeChar(s9, ':');
    var (second, s11) :- TakeNumber(s10, 2);
    var micro :- TakeFraction(s11);
    var t := Instant(year, month, day, hour, minute, second, micro);
    if t.Valid() then Some(t) else None
  }

  lemma {:induction false} NumberOfPad(n: nat, k: nat)
    requires n < Pow10(k)
    ensures forall i :: 0 <= i < k ==> IsDigit(Pad(n, k)[i])
    ensures Number(Pad(n, k)) == n
  {
    if k > 0 {
      NumberOfPad(n / 10, k - 1);
      assert Pad(n, k)[..k - 1] == Pad(n / 10, k - 1);
    }
  }

  lemma TakeField(n: nat, k: nat, rest: string)
    requires n < Pow10(k)
    ensures TakeNumber(Field(n, k, rest), k) == Some((n, rest))
  {
    NumberOfPad(n, k);
    var s := Field(n, k, rest);
    assert s[..k] == Pad(n, k) && s[k..] == rest;
    assert forall i :: 0 <= i < k ==> s[i] == Pad(n, k)[i];
  }

  lemma TakeSeparator(c: char, rest: string)
    ensures TakeChar([c] + rest, c) == Some(rest)
  {
  }

  lemma FractionRoundTrip(micro: nat)
    requires micro < 1000000
    ensures TakeFraction(Fraction(micro)) == Some(micro)
  {
    if micro != 0 {
      Powers();
      TakeField(micro, 6, UTC);
      TakeSeparator('.', Field(micro, 6, UTC));
      assert Fraction(micro)[0] == '.' && UTC[0] == '+';
    }
  }

  /** Reading back a stored timestamp gives the instant, and so the same text again. */
  lemma IsoRoundTrip(t: Instant)
    requires t.Valid()
    ensures ParseIso(Iso(t)) == Some(t)
  {
    hide Field, Fraction, TakeNumber, TakeChar, TakeFraction;
    Powers();
    FractionRoundTrip(t.micro);
    var r6 := Fraction(t.micro);
    TakeField(t.second, 2, r6);
    var r5 := Field(t.second, 2, r6);
    TakeSeparator(':', r5);
    TakeField(t.minute, 2, [':'] + r5);
    var r4 := Field(t.minute, 2, [':'] + r5);
    TakeSeparator(':', r4);
    TakeField(t.hour, 2, [':'] + r4);
    var r3 := Field(t.hour, 2, [':'] + r4);
    TakeSeparator('T', r3);
    TakeField(t.day, 2, ['T'] + r3);
    var r2 := Field(t.day, 2, ['T'] + r3);
    TakeSeparator('-', r2);
    TakeField(t.month, 2, ['-'] + r2);
    var r1 := Field(t.month, 2, ['-'] + r2);
    TakeSeparator('-', r1);
    TakeField(t.year, 4, ['-'] + r1);
  }
}
