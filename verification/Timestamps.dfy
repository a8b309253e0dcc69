/**
 Stored timestamps are text: `datetime.isoformat()` in UTC, with a fraction only
 when the microseconds are not zero. SQLite compares that text byte by byte.
 This module shows that the comparison is comparison in time.
 */
module Timestamps {

  /** The fields of a UTC datetime; Python compares two of them field by field. */
  datatype Instant = Instant(year: nat, month: nat, day: nat,
                             hour: nat, minute: nat, second: nat, micro: nat)
  {
    predicate Valid() {
      && 1 <= year <= 9999 && 1 <= month <= 12 && 1 <= day <= 31
      && hour < 24 && minute < 60 && second < 60 && micro < 1000000
    }

    function Values(): seq<nat> {
      [year, month, day, hour, minute, second, micro]
    }
  }

  predicate SeqLess(s: seq<nat>, t: seq<nat>) {
    t != [] && (s == [] || s[0] < t[0] || (s[0] == t[0] && SeqLess(s[1..], t[1..])))
  }

  predicate Before(a: Instant, b: Instant) {
    SeqLess(a.Values(), b.Values())
  }

  /** Byte order on text, as SQLite's BINARY collation has it. */
  predicate LexLess(s: string, t: string) {
    t != "" && (s == "" || s[0] < t[0] || (s[0] == t[0] && LexLess(s[1..], t[1..])))
  }

  function Pow10(n: nat): (p: nat)
    ensures p > 0
  {
    if n == 0 then 1 else 10 * Pow10(n - 1)
  }

  function DigitChar(d: nat): char
    requires d < 10
  {
    '0' + d as char
  }

  /** `n` in decimal, padded with zeros to `width` digits. */
  function Digits(n: nat, width: nat): (s: string)
    requires n < Pow10(width)
    ensures |s| == width
    ensures forall c :: c in s ==> '0' <= c <= '9'
  {
    if width == 0 then "" else Digits(n / 10, width - 1) + [DigitChar(n % 10)]
  }

  /** A fixed-width number and the text that follows it. */
  datatype Field = Field(value: nat, width: nat, after: string)

  predicate FieldsFit(fields: seq<Field>) {
    forall i :: 0 <= i < |fields| ==> fields[i].value < Pow10(fields[i].width)
  }

  function Render(fields: seq<Field>, tail: string): string
    requires FieldsFit(fields)
  {
    if fields == [] then tail
    else Digits(fields[0].value, fields[0].width) + (fields[0].after + Render(fields[1..], tail))
  }

  function Fields(t: Instant): seq<Field> {
    [Field(t.year, 4, "-"), Field(t.month, 2, "-"), Field(t.day, 2, "T"),
     Field(t.hour, 2, ":"), Field(t.minute, 2, ":"), Field(t.second, 2, "")]
  }

  function Fraction(micro: nat): string
    requires micro < 1000000
  {
    Pow10Six();
    (if micro == 0 then "" else "." + Digits(micro, 6)) + "+00:00"
  }

  lemma Pow10Six()
    ensures Pow10(6) == 1000000 && Pow10(4) == 10000 && Pow10(2) == 100
  {
    assert Pow10(2) == 100;
    assert Pow10(4) == 10000;
  }

  /** `_timestamp`: the isoformat of a UTC datetime. */
  function Text(t: Instant): string
    requires t.Valid()
  {
    Pow10Six();
    Render(Fields(t), Fraction(t.micro))
  }

  // ---- Lexicographic order --------------------------------------------------

  lemma LexIrreflexive(s: string)
    ensures !LexLess(s, s)
  {
  }

  /** Texts that begin with blocks of one length compare by the blocks first. */
  lemma {:induction false} LexBlock(p: string, q: string, s: string, t: string)
    requires |p| == |q|
    ensures LexLess(p + s, q + t) <==> LexLess(p, q) || (p == q && LexLess(s, t))
  {
    if p == "" {
      assert p + s == s && q + t == t;
    } else {
      assert (p + s)[1..] == p[1..] + s && (q + t)[1..] == q[1..] + t;
      LexBlock(p[1..], q[1..], s, t);
    }
  }

  lemma {:induction false} DigitsOrder(x: nat, y: nat, width: nat)
    requires x < Pow10(width) && y < Pow10(width)
    ensures LexLess(Digits(x, width), Digits(y, width)) <==> x < y
    ensures Digits(x, width) == Digits(y, width) <==> x == y
  {
    if width > 0 {
      DigitsOrder(x / 10, y / 10, width - 1);
      LexBlock(Digits(x / 10, width - 1), Digits(y / 10, width - 1), [DigitChar(x % 10)], [DigitChar(y % 10)]);
      var dx, dy := Digits(x, width), Digits(y, width);
      assert dx[..width - 1] == Digits(x / 10, width - 1) && dy[..width - 1] == Digits(y / 10, width - 1);
      assert dx[width - 1] == DigitChar(x % 10) && dy[width - 1] == DigitChar(y % 10);
    }
  }

  predicate SameShape(f: seq<Field>, g: seq<Field>) {
    |f| == |g| && forall i :: 0 <= i < |f| ==> f[i].width == g[i].width && f[i].after == g[i].after
  }

  function FieldValues(f: seq<Field>): (v: seq<nat>)
    ensures |v| == |f|
  {
    seq(|f|, i requires 0 <= i < |f| => f[i].value)
  }

  lemma {:induction false} RenderOrder(f: seq<Field>, g: seq<Field>, s: string, t: string)
    requires FieldsFit(f) && FieldsFit(g) && SameShape(f, g)
    ensures LexLess(Render(f, s), Render(g, t)) <==>
            SeqLess(FieldValues(f), FieldValues(g)) || (FieldValues(f) == FieldValues(g) && LexLess(s, t))
  {
    if f != [] {
      DigitsOrder(f[0].value, g[0].value, f[0].width);
      LexBlock(Digits(f[0].value, f[0].width), Digits(g[0].value, g[0].width),
               f[0].after + Render(f[1..], s), g[0].after + Render(g[1..], t));
      LexBlock(f[0].after, g[0].after, Render(f[1..], s), Render(g[1..], t));
      LexIrreflexive(f[0].after);
      RenderOrder(f[1..], g[1..], s, t);
      var v, w := FieldValues(f), FieldValues(g);
      assert v[1..] == FieldValues(f[1..]) && w[1..] == FieldValues(g[1..]);
      assert v == [v[0]] + v[1..] && w == [w[0]] + w[1..];
    } else {
      assert FieldValues(f) == [] && FieldValues(g) == [];
    }
  }

  /** A missing fraction sorts first because `+` comes before `.`. */
  lemma FractionOrder(x: nat, y: nat)
    requires x < 1000000 && y < 1000000
    ensures LexLess(Fraction(x), Fraction(y)) <==> x < y
  {
    Pow10Six();
    var zone := "+00:00";
    if x > 0 && y > 0 {
      DigitsOrder(x, y, 6);
      LexBlock("." + Digits(x, 6), "." + Digits(y, 6), zone, zone);
      LexBlock(".", ".", Digits(x, 6), Digits(y, 6));
      LexIrreflexive(zone);
      LexIrreflexive(".");
    } else if x == 0 && y == 0 {
      LexIrreflexive(Fraction(0));
    } else {
      assert Fraction(0)[0] == '+';
      assert x > 0 ==> Fraction(x)[0] == '.';
      assert y > 0 ==> Fraction(y)[0] == '.';
    }
  }

  lemma SeqLessSplit(s: seq<nat>, t: seq<nat>, x: nat, y: nat)
    requires |s| == |t|
    ensures SeqLess(s + [x], t + [y]) <==> SeqLess(s, t) || (s == t && x < y)
  {
    if s != [] {
      assert (s + [x])[1..] == s[1..] + [x] && (t + [y])[1..] == t[1..] + [y];
      SeqLessSplit(s[1..], t[1..], x, y);
      assert s == [s[0]] + s[1..] && t == [t[0]] + t[1..];
    }
  }

  lemma SeqLessTotal(s: seq<nat>, t: seq<nat>)
    requires |s| == |t|
    ensures SeqLess(s, t) || s == t || SeqLess(t, s)
  {
    if s != [] {
      SeqLessTotal(s[1..], t[1..]);
      assert s == [s[0]] + s[1..] && t == [t[0]] + t[1..];
    }
  }

  /** The order of stored timestamps is the order of the times they denote. */
  lemma TextOrderIsTimeOrder(a: Instant, b: Instant)
    requires a.Valid() && b.Valid()
    ensures LexLess(Text(a), Text(b)) <==> Before(a, b)
  {
    Pow10Six();
    RenderOrder(Fields(a), Fields(b), Fraction(a.micro), Fraction(b.micro));
    FractionOrder(a.micro, b.micro);
    SeqLessSplit(FieldValues(Fields(a)), FieldValues(Fields(b)), a.micro, b.micro);
    assert a.Values() == FieldValues(Fields(a)) + [a.micro];
    assert b.Values() == FieldValues(Fields(b)) + [b.micro];
  }

  /** Two times have the same text only when they are the same time. */
  lemma TextInjective(a: Instant, b: Instant)
    requires a.Valid() && b.Valid() && Text(a) == Text(b)
    ensures a == b
  {
    TextOrderIsTimeOrder(a, b);
    TextOrderIsTimeOrder(b, a);
    LexIrreflexive(Text(a));
    SeqLessTotal(a.Values(), b.Values());
    var v, w := a.Values(), b.Values();
    assert v[0] == w[0] && v[1] == w[1] && v[2] == w[2] && v[3] == w[3]
           && v[4] == w[4] && v[5] == w[5] && v[6] == w[6];
  }
}
