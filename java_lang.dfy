/**
 * The few pieces of java.lang the core relies on: the ranges of `Long` and
 * `Integer`, decimal rendering (`Long.toString`, string concatenation with a
 * number or `null`), `Long.parseLong` (how a path variable becomes an id) and
 * `Long.hashCode` / `Objects.hashCode`.
 */
module JavaLang {
  import opened Wrappers

  const MinLong: int := -0x8000_0000_0000_0000
  const MaxLong: int := 0x7FFF_FFFF_FFFF_FFFF

  /** Values of a Java `long` / `Long`. */
  type Int64 = x: int | -0x8000_0000_0000_0000 <= x <= 0x7FFF_FFFF_FFFF_FFFF

  /** Values of a Java `int` / `Integer`. */
  type Int32 = x: int | -0x8000_0000 <= x <= 0x7FFF_FFFF

  predicate IsDigit(c: char) {
    '0' <= c <= '9'
  }

  predicate AllDigits(s: string) {
    forall i :: 0 <= i < |s| ==> IsDigit(s[i])
  }

  function DigitChar(d: int): (c: char)
    requires 0 <= d < 10
    ensures IsDigit(c)
  {
    ('0' as int + d) as char
  }

  function DigitValue(c: char): int
    requires IsDigit(c)
  {
    c as int - '0' as int
  }

  /** The decimal digits of `n`, most significant first. */
  function Digits(n: nat): (s: string)
    ensures |s| >= 1 && AllDigits(s)
    ensures s[0] == '0' ==> n == 0  // no leading zero
  {
    if n < 10 then [DigitChar(n)] else Digits(n / 10) + [DigitChar(n % 10)]
  }

  /** The number a non-empty run of decimal digits denotes. */
  function ValueOf(s: string): nat
    requires AllDigits(s)
  {
    if s == [] then 0 else ValueOf(s[..|s| - 1]) * 10 + DigitValue(s[|s| - 1])
  }

  lemma {:induction false} ValueOfDigits(n: nat)
    ensures ValueOf(Digits(n)) == n
  {
    if n >= 10 {
      var s := Digits(n);
      assert s[..|s| - 1] == Digits(n / 10);
      ValueOfDigits(n / 10);
    }
  }

  /**
   * `Long.parseLong` (also `Long.valueOf`): an optional sign and at least one
   * ASCII decimal digit, within the range of `long`; anything else is a
   * `NumberFormatException`, here `None`.
   */
  function ParseLong(s: string): Option<Int64> {
    if |s| >= 2 && (s[0] == '-' || s[0] == '+') && AllDigits(s[1..]) then
      var v: int := if s[0] == '-' then -(ValueOf(s[1..]) as int) else ValueOf(s[1..]);
      if MinLong <= v <= MaxLong then Some(v) else None
    else if |s| >= 1 && AllDigits(s) && ValueOf(s) <= MaxLong then
      Some(ValueOf(s))
    else
      None
  }

  /**
   * `Long.toString` / `Integer.toString`, which is also what string
   * concatenation writes for a number: a minus sign for negative numbers,
   * then the digits without leading zeros. `ParseLong` reads it back.
   */
  function Decimal(n: int): (s: string)
    ensures |s| >= 1
    ensures forall i :: 0 <= i < |s| ==> s[i] == '-' || IsDigit(s[i])
    ensures MinLong <= n <= MaxLong ==> ParseLong(s) == Some(n)
  {
    var d := Digits(if n < 0 then -n else n);
    ValueOfDigits(if n < 0 then -n else n);
    if n < 0 then
      assert ("-" + d)[1..] == d;
      "-" + d
    else
      d
  }

  /** What `"..." + x` writes for a nullable `Long`. */
  function ShowLong(x: Option<Int64>): string {
    match x
    case None => "null"
    case Some(v) => Decimal(v)
  }

  /** What `"..." + x` writes for a nullable `Integer`. */
  function ShowInteger(x: Option<Int32>): string {
    match x
    case None => "null"
    case Some(v) => Decimal(v)
  }

  /** What `"..." + x` writes for a nullable `String`. */
  function ShowString(x: Option<string>): string {
    match x
    case None => "null"
    case Some(v) => v
  }

  /** Reads back what `ShowLong` writes: `Some(None)` for "null". */
  function ParseNullableLong(s: string): Option<Option<Int64>> {
    if s == "null" then Some(None)
    else match ParseLong(s)
      case None => None
      case Some(v) => Some(Some(v))
  }

  lemma ParseShowLong(x: Option<Int64>)
    ensures ParseNullableLong(ShowLong(x)) == Some(x)
  {
    if x.Some? {
      var s := Decimal(x.value);
      assert s != "null" by { assert s[0] == '-' || IsDigit(s[0]); }
    }
  }

  /** What `ShowLong` writes never contains a comma. */
  lemma ShowLongHasNoComma(x: Option<Int64>)
    ensures ',' !in ShowLong(x)
  {
    if x.Some? {
      var s := Decimal(x.value);
      forall i | 0 <= i < |s| ensures s[i] != ',' {
        assert s[i] == '-' || IsDigit(s[i]);
      }
    }
  }

  /** The longest prefix of `s` that does not contain `c`. */
  function TakeUntil(s: string, c: char): (p: string)
    ensures |p| <= |s| && p == s[..|p|]
    ensures c !in p
    ensures |p| < |s| ==> s[|p|] == c
  {
    if s == [] || s[0] == c then [] else [s[0]] + TakeUntil(s[1..], c)
  }

  lemma {:induction false} TakeUntilPrefix(p: string, rest: string, c: char)
    requires c !in p
    requires rest == [] || rest[0] == c
    ensures TakeUntil(p + rest, c) == p
  {
    if p != [] {
      assert (p + rest)[1..] == p[1..] + rest;
      TakeUntilPrefix(p[1..], rest, c);
    }
  }

  /** What `ShowInteger` writes never contains a single quote. */
  lemma ShowIntegerHasNoQuote(x: Option<Int32>)
    ensures '\'' !in ShowInteger(x)
  {
    if x.Some? {
      var s := Decimal(x.value);
      forall i | 0 <= i < |s| ensures s[i] != '\'' {
        assert s[i] == '-' || IsDigit(s[i]);
      }
    }
  }

  /** The longest suffix of `s` that does not contain `c`. */
  function TakeLastUntil(s: string, c: char): (p: string)
    ensures |p| <= |s| && p == s[|s| - |p|..]
    ensures c !in p
    ensures |p| < |s| ==> s[|s| - |p| - 1] == c
  {
    if s == [] || s[|s| - 1] == c then [] else TakeLastUntil(s[..|s| - 1], c) + [s[|s| - 1]]
  }

  lemma {:induction false} TakeLastUntilSuffix(rest: string, p: string, c: char)
    requires c !in p
    requires rest == [] || rest[|rest| - 1] == c
    ensures TakeLastUntil(rest + p, c) == p
  {
    if p != [] {
      assert (rest + p)[..|rest + p| - 1] == rest + p[..|p| - 1];
      TakeLastUntilSuffix(rest, p[..|p| - 1], c);
    }
  }

  /**
   * Reads the two fields back out of a text `p + a + q + b + e` that a
   * `toString` of the form `Name{id=<a>, name='<b>'}` prints: `a` runs to
   * the first character of `q`, and `b` is everything after `q` up to `e`.
   */
  function ReadTwoFields(s: string, p: string, q: string, e: string): Option<(string, string)>
    requires q != []
  {
    if |s| < |p| + |e| || s[..|p|] != p || s[|s| - |e|..] != e then None
    else
      var a := TakeUntil(s[|p|..], q[0]);
      var i := |p| + |a| + |q|;
      if i > |s| - |e| || s[i - |q|..i] != q then None
      else Some((a, s[i..|s| - |e|]))
  }

  /** Whatever `ReadTwoFields` reads out of a text puts the text back together. */
  lemma ReadTwoFieldsJoins(s: string, p: string, q: string, e: string)
    requires q != []
    ensures var f := ReadTwoFields(s, p, q, e);
            f.Some? ==> s == p + f.value.0 + q + f.value.1 + e
  {
    var f := ReadTwoFields(s, p, q, e);
    if f.Some? {
      var a := TakeUntil(s[|p|..], q[0]);
      var i := |p| + |a| + |q|;
      var b := s[i..|s| - |e|];
      assert f.value == (a, b);
      assert s[|p|..i - |q|] == a;
      assert s == s[..|p|] + s[|p|..i - |q|] + s[i - |q|..i] + s[i..|s| - |e|] + s[|s| - |e|..];
    }
  }

  lemma ReadTwoFieldsOf(p: string, a: string, q: string, b: string, e: string)
    requires q != [] && q[0] !in a
    ensures ReadTwoFields(p + a + q + b + e, p, q, e) == Some((a, b))
  {
    Pieces(p, a, q, b, e);
    TakeUntilPrefix(a, q + b + e, q[0]);
  }

  /**
   * Splits `t` at the last occurrence of `r` whose tail after it holds no
   * copy of `r`'s last character: `b + r + c` gives `(b, c)`.
   */
  function SplitLast(t: string, r: string): Option<(string, string)>
    requires r != []
  {
    var c := TakeLastUntil(t, r[|r| - 1]);
    var k := |t| - |c| - |r|;
    if k < 0 || t[k..k + |r|] != r then None else Some((t[..k], c))
  }

  lemma SplitLastJoins(t: string, r: string)
    requires r != []
    ensures var f := SplitLast(t, r); f.Some? ==> t == f.value.0 + r + f.value.1
  {
    var f := SplitLast(t, r);
    if f.Some? {
      var c := TakeLastUntil(t, r[|r| - 1]);
      var k := |t| - |c| - |r|;
      assert t == t[..k] + t[k..k + |r|] + t[k + |r|..];
    }
  }

  lemma SplitLastOf(b: string, r: string, c: string)
    requires r != [] && r[|r| - 1] !in c
    ensures SplitLast(b + r + c, r) == Some((b, c))
  {
    var t := b + r + c;
    TakeLastUntilSuffix(b + r, c, r[|r| - 1]);
    assert t[..|b|] == b && t[|b|..|b| + |r|] == r;
  }

  /**
   * The same for three fields, `p + a + q + b + r + c + e`: `a` runs to the
   * first character of `q`, `c` is the text after the last character of `r`
   * before `e`, and `b` is what lies between `q` and `r`.
   */
  function ReadThreeFields(s: string, p: string, q: string, r: string, e: string): Option<(string, string, string)>
    requires q != [] && r != []
  {
    match ReadTwoFields(s, p, q, e)
    case None => None
    case Some((a, rest)) =>
      match SplitLast(rest, r)
      case None => None
      case Some((b, c)) => Some((a, b, c))
  }

  /** Whatever `ReadThreeFields` reads out of a text puts the text back together. */
  lemma ReadThreeFieldsJoins(s: string, p: string, q: string, r: string, e: string)
    requires q != [] && r != []
    ensures var f := ReadThreeFields(s, p, q, r, e);
            f.Some? ==> s == p + f.value.0 + q + f.value.1 + r + f.value.2 + e
  {
    ReadTwoFieldsJoins(s, p, q, e);
    var two := ReadTwoFields(s, p, q, e);
    if two.Some? {
      var (a, rest) := two.value;
      SplitLastJoins(rest, r);
      var f := ReadThreeFields(s, p, q, r, e);
      if f.Some? {
        var (b, c) := SplitLast(rest, r).value;
        assert p + a + q + rest + e == p + a + q + b + r + c + e;
      }
    }
  }

  lemma ReadThreeFieldsOf(p: string, a: string, q: string, b: string, r: string, c: string, e: string)
    requires q != [] && r != [] && q[0] !in a && r[|r| - 1] !in c
    ensures ReadThreeFields(p + a + q + b + r + c + e, p, q, r, e) == Some((a, b, c))
  {
    AppendAssoc(p + a + q, b, r, c);
    ReadTwoFieldsOf(p, a, q, b + r + c, e);
    SplitLastOf(b, r, c);
  }

  lemma AppendAssoc(x: string, b: string, r: string, c: string)
    ensures x + b + r + c == x + (b + r + c)
  {
  }

  /** Where the pieces of `p + a + q + b + e` sit: two fixed texts each followed by a field, then a closing text. */
  lemma Pieces(p: string, a: string, q: string, b: string, e: string)
    ensures var s := p + a + q + b + e;
            var i := |p| + |a|;
            && s[..|p|] == p && s[|p|..] == a + (q + b + e)
            && s[i..i + |q|] == q && s[i + |q|..|s| - |e|] == b
            && s[..|s| - |e|] == (p + a + q) + b && s[|s| - |e|..] == e
  {
    var s := p + a + q + b + e;
    assert s == p + (a + (q + (b + e)));
  }

  function Pow2(n: nat): (p: nat)
    ensures p >= 1
  {
    if n == 0 then 1 else 2 * Pow2(n - 1)
  }

  lemma {:induction false} Pow2Add(a: nat, b: nat)
    ensures Pow2(a + b) == Pow2(a) * Pow2(b)
  {
    if a > 0 { Pow2Add(a - 1, b); }
  }

  lemma Pow2Of32()
    ensures Pow2(32) == 0x1_0000_0000
  {
    assert Pow2(4) == 16;
    Pow2Add(4, 4);
    Pow2Add(8, 8);
    Pow2Add(16, 16);
  }

  /** Java's `^` on the low `width` bits of two non-negative numbers, one bit at a time. */
  function Xor(a: nat, b: nat, width: nat): (r: nat)
    ensures r < Pow2(width)
  {
    if width == 0 then 0
    else (if a % 2 == b % 2 then 0 else 1) + 2 * Xor(a / 2, b / 2, width - 1)
  }

  lemma {:induction false} XorZero(a: nat, width: nat)
    requires a < Pow2(width)
    ensures Xor(0, a, width) == a
  {
    if width > 0 { XorZero(a / 2, width - 1); }
  }

  /**
   * `Long.hashCode(value)`: `(int)(value ^ (value >>> 32))`, that is the low
   * 32 bits of the two's-complement pattern XOR its upper 32 bits, read back
   * as a signed `int`.
   */
  function LongHashCode(v: Int64): Int32 {
    var bits := if v < 0 then v + 0x1_0000_0000_0000_0000 else v;
    var high, low := bits / 0x1_0000_0000, bits % 0x1_0000_0000;
    Pow2Of32();
    var mixed := Xor(high, low, 32);
    if mixed <= 0x7FFF_FFFF then mixed else mixed - 0x1_0000_0000
  }

  /** An id that fits in an `int` is its own hash code. */
  lemma LongHashCodeOfInt(v: Int64)
    requires 0 <= v <= 0x7FFF_FFFF
    ensures LongHashCode(v) == v
  {
    Pow2Of32();
    XorZero(v, 32);
  }

  /** `Objects.hashCode(x)`: 0 for `null`, otherwise the value's own hash code. */
  function ObjectsHashCode(x: Option<Int64>): Int32 {
    match x
    case None => 0
    case Some(v) => LongHashCode(v)
  }
}
