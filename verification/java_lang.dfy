/** The few behaviours of the Java platform that the services rely on:
    `String.trim`, `String.replace`, `equalsIgnoreCase` against an ASCII
    literal, `Long.parseLong` over ASCII digits, the truncating `(long)` cast,
    32-bit `int` wrap-around and `String.hashCode`. */
module JavaLang {
  import opened Wrappers

  const LongMin: int := -0x8000_0000_0000_0000
  const LongMax: int := 0x7FFF_FFFF_FFFF_FFFF
  const IntMin: int := -0x8000_0000
  const IntMax: int := 0x7FFF_FFFF
  const TwoTo32: int := 0x1_0000_0000

  predicate InLongRange(x: int) {
    LongMin <= x <= LongMax
  }

  predicate InIntRange(x: int) {
    IntMin <= x <= IntMax
  }

  // ---------------------------------------------------------------------------
  // String.trim and String.isEmpty

  /** `String.trim` removes every leading and trailing char at or below U+0020. */
  predicate IsTrimmable(c: char) {
    c <= ' '
  }

  /** `s.trim().isEmpty()` */
  predicate IsBlank(s: string) {
    forall i | 0 <= i < |s| :: IsTrimmable(s[i])
  }

  function TrimStart(s: string): (r: string)
    ensures |r| <= |s| && r == s[|s| - |r|..]
    ensures forall i | 0 <= i < |s| - |r| :: IsTrimmable(s[i])
    ensures r == [] || !IsTrimmable(r[0])
  {
    if |s| > 0 && IsTrimmable(s[0]) then TrimStart(s[1..]) else s
  }

  function TrimEnd(s: string): (r: string)
    ensures |r| <= |s| && r == s[..|r|]
    ensures forall i | |r| <= i < |s| :: IsTrimmable(s[i])
    ensures r == [] || !IsTrimmable(r[|r| - 1])
  {
    if |s| > 0 && IsTrimmable(s[|s| - 1]) then TrimEnd(s[..|s| - 1]) else s
  }

  /** `r` is the infix of `s` starting at `k`, with only trimmable chars
      before and after it. */
  predicate TrimmedAt(s: string, r: string, k: nat) {
    && k + |r| <= |s|
    && r == s[k..k + |r|]
    && (forall i | 0 <= i < k :: IsTrimmable(s[i]))
    && (forall i | k + |r| <= i < |s| :: IsTrimmable(s[i]))
  }

  /** `String.trim`: the infix left once leading and trailing trimmable chars are gone. */
  function Trim(s: string): (r: string)
    ensures |r| <= |s|
    ensures r == [] <==> IsBlank(s)
    ensures r == [] || (!IsTrimmable(r[0]) && !IsTrimmable(r[|r| - 1]))
    ensures exists k: nat :: TrimmedAt(s, r, k)
  {
    TrimmedBetween(s, TrimStart(s), TrimEnd(TrimStart(s)));
    TrimEnd(TrimStart(s))
  }

  /** Trimming the front and then the back leaves an infix between two
      trimmable runs. */
  lemma TrimmedBetween(s: string, t: string, r: string)
    requires |t| <= |s| && t == s[|s| - |t|..]
    requires forall i | 0 <= i < |s| - |t| :: IsTrimmable(s[i])
    requires |r| <= |t| && r == t[..|r|]
    requires forall i | |r| <= i < |t| :: IsTrimmable(t[i])
    ensures TrimmedAt(s, r, |s| - |t|)
  {
    var k := |s| - |t|;
    PrefixOfSuffix(s, t, r, k);
    forall i | k + |r| <= i < |s|
      ensures IsTrimmable(s[i])
    {
      assert s[i] == t[i - k];
    }
  }

  lemma PrefixOfSuffix(s: string, t: string, r: string, k: nat)
    requires k <= |s| && t == s[k..] && |r| <= |t| && r == t[..|r|]
    ensures k + |r| <= |s| && r == s[k..k + |r|]
    ensures forall i | k <= i < |s| :: s[i] == t[i - k]
  {
  }

  /** A text that starts and ends with a char above U+0020 is its own trim. */
  lemma TrimOfUntrimmed(s: string)
    requires s != [] && !IsTrimmable(s[0]) && !IsTrimmable(s[|s| - 1])
    ensures Trim(s) == s
  {
    assert TrimStart(s) == s;
    assert TrimEnd(s) == s;
  }

  /** `s.replace(",", "")`: every comma removed, everything else kept in order. */
  function RemoveCommas(s: string): (r: string)
    ensures ',' !in r
    ensures |r| <= |s|
    ensures ',' !in s ==> r == s
  {
    if s == [] then []
    else if s[0] == ',' then RemoveCommas(s[1..])
    else [s[0]] + RemoveCommas(s[1..])
  }

  /** Removing commas works char by char, so it keeps the order of the
      remaining chars: a comma disappears, any other char stays. */
  lemma {:induction false} RemoveCommasOfConcat(a: string, b: string)
    ensures RemoveCommas(a + b) == RemoveCommas(a) + RemoveCommas(b)
  {
    if a == [] {
      assert a + b == b;
    } else {
      assert (a + b)[0] == a[0] && (a + b)[1..] == a[1..] + b;
      RemoveCommasOfConcat(a[1..], b);
    }
  }

  lemma RemoveCommasOfChar(c: char)
    ensures RemoveCommas([c]) == if c == ',' then [] else [c]
  {
    assert [c][1..] == [];
  }

  /** Removing the commas keeps every other char as often as it occurred. */
  lemma {:induction false} RemoveCommasKeepsOtherChars(s: string)
    ensures forall c | c != ',' :: multiset(RemoveCommas(s))[c] == multiset(s)[c]
  {
    if s != [] {
      RemoveCommasKeepsOtherChars(s[1..]);
      assert s == [s[0]] + s[1..];
    }
  }

  // ---------------------------------------------------------------------------
  // String.equalsIgnoreCase

  /** An ASCII letter in upper case; any other char unchanged. */
  function AsciiUpper(c: char): char {
    if 'a' <= c <= 'z' then (c as int - 32) as char else c
  }

  /** The char every char is compared by. For a char compared against an ASCII
      char, Java's equalsIgnoreCase accepts exactly the pairs this key makes
      equal: the ASCII letters in either case, and the four non-ASCII chars
      whose Unicode case mapping lands on an ASCII letter (dotless i, dotted
      capital I, long s and the Kelvin sign). */
  function CaseKey(c: char): char {
    if 'A' <= c <= 'Z' then (c as int + 32) as char
    else if c == '\U{0131}' || c == '\U{0130}' then 'i'
    else if c == '\U{017F}' then 's'
    else if c == '\U{212A}' then 'k'
    else c
  }

  /** `s.equalsIgnoreCase(t)`, exact whenever `t` is ASCII (every caller
      passes an ASCII literal). */
  function EqualsIgnoreCase(s: string, t: string): (equal: bool)
    ensures equal ==> |s| == |t|
    ensures equal ==> forall i | 0 <= i < |s| :: CaseKey(s[i]) == CaseKey(t[i])
    ensures |s| == |t| && (forall i | 0 <= i < |s| :: AsciiUpper(s[i]) == AsciiUpper(t[i])) ==> equal
  {
    |s| == |t| && forall i | 0 <= i < |s| :: CaseKey(s[i]) == CaseKey(t[i])
  }

  /** The chars that `equalsIgnoreCase` matches with the ASCII char `a`: for a
      letter, both of its cases and the non-ASCII chars whose case mapping
      lands on it; for any other ASCII char, only itself. */
  function AsciiMatches(a: char): set<char>
    requires a as int < 128
  {
    if 'a' <= a <= 'z' || 'A' <= a <= 'Z' then
      var lower := if 'A' <= a <= 'Z' then (a as int + 32) as char else a;
      var upper := (lower as int - 32) as char;
      {lower, upper}
        + (if lower == 'i' then {'\U{0131}', '\U{0130}'}
           else if lower == 's' then {'\U{017F}'}
           else if lower == 'k' then {'\U{212A}'}
           else {})
    else
      {a}
  }

  /** A char has the case key of an ASCII char exactly when it is one of the
      chars matched with it. */
  lemma CaseKeyAgainstAscii(c: char, a: char)
    requires a as int < 128
    ensures CaseKey(c) == CaseKey(a) <==> c in AsciiMatches(a)
  {
  }

  /** Against an ASCII text, `equalsIgnoreCase` holds exactly when the lengths
      agree and every char is one of the chars matched with its counterpart:
      in particular, a digit, sign or punctuation mark matches only itself. */
  lemma EqualsIgnoreCaseOfAscii(s: string, t: string)
    requires forall i | 0 <= i < |t| :: t[i] as int < 128
    ensures EqualsIgnoreCase(s, t) <==> |s| == |t| && forall i | 0 <= i < |s| :: s[i] in AsciiMatches(t[i])
  {
    if |s| == |t| {
      forall i | 0 <= i < |s|
        ensures CaseKey(s[i]) == CaseKey(t[i]) <==> s[i] in AsciiMatches(t[i])
      {
        CaseKeyAgainstAscii(s[i], t[i]);
      }
    }
  }

  // ---------------------------------------------------------------------------
  // Long.parseLong and Long.toString

  predicate IsDigit(c: char) {
    '0' <= c <= '9'
  }

  predicate AllDigits(s: string) {
    forall i | 0 <= i < |s| :: IsDigit(s[i])
  }

  function DigitValue(c: char): nat
    requires IsDigit(c)
  {
    c as int - '0' as int
  }

  function DigitChar(d: nat): (c: char)
    requires d < 10
    ensures IsDigit(c) && DigitValue(c) == d
  {
    ('0' as int + d) as char
  }

  /** The value of a run of decimal digits, read left to right as
      `Long.parseLong` accumulates it. */
  function DigitsValue(s: string): nat
    requires AllDigits(s)
  {
    if s == [] then 0 else DigitsValue(s[..|s| - 1]) * 10 + DigitValue(s[|s| - 1])
  }

  /** `s` without its leading sign, if it has one. */
  function Unsigned(s: string): string {
    if s != [] && (s[0] == '-' || s[0] == '+') then s[1..] else s
  }

  /** The value of an optional sign followed by digits. */
  function SignedValue(s: string): int
    requires AllDigits(Unsigned(s))
  {
    var magnitude: int := DigitsValue(Unsigned(s));
    if s != [] && s[0] == '-' then -magnitude else magnitude
  }

  /** `Long.parseLong(s)` in radix 10: an optional sign, then at least one
      digit, and a value that fits in a `long`; anything else is a
      `NumberFormatException`, here `None`. Leading zeros, a `+` and `-0`
      are all accepted. */
  function ParseLong(s: string): (r: Option<int>)
    ensures r.Some? <==> Unsigned(s) != [] && AllDigits(Unsigned(s)) && InLongRange(SignedValue(s))
    ensures r.Some? ==> r.value == SignedValue(s)
    ensures r.Some? ==> |s| > 0 && (IsDigit(s[0]) || s[0] == '-' || s[0] == '+')
    ensures s == [] || s == "-" || s == "+" ==> r == None
  {
    if s == [] then None
    else
      var signed := s[0] == '-' || s[0] == '+';
      var body := if signed then s[1..] else s;
      if body == [] || !AllDigits(body) then None
      else
        var magnitude: int := DigitsValue(body);
        var v: int := if s[0] == '-' then -magnitude else magnitude;
        if InLongRange(v) then Some(v) else None
  }

  /** The decimal digits of `n` with no leading zero. */
  function NatToString(n: nat): (r: string)
    ensures |r| >= 1 && AllDigits(r)
    ensures r[0] == '0' ==> n == 0
  {
    if n < 10 then [DigitChar(n)] else NatToString(n / 10) + [DigitChar(n % 10)]
  }

  /** `Long.toString(n)` */
  function LongToString(n: int): string {
    if n < 0 then "-" + NatToString(-n) else NatToString(n)
  }

  lemma {:induction false} DigitsValueOfNatToString(n: nat)
    ensures DigitsValue(NatToString(n)) == n
  {
    if n >= 10 {
      var s := NatToString(n);
      assert s[..|s| - 1] == NatToString(n / 10);
      DigitsValueOfNatToString(n / 10);
    }
  }

  /** `Long.parseLong(Long.toString(n)) == n` for every `long`. */
  lemma ParseLongOfLongToString(n: int)
    requires InLongRange(n)
    ensures ParseLong(LongToString(n)) == Some(n)
  {
    var magnitude: nat := if n < 0 then -n else n;
    var digits := NatToString(magnitude);
    DigitsValueOfNatToString(magnitude);
    var s := LongToString(n);
    if n < 0 {
      assert s == "-" + digits;
      assert s[0] == '-' && s[1..] == digits;
    } else {
      assert s == digits;
      assert IsDigit(s[0]);
    }
  }

  /** Texts that are not the canonical decimal of their value: leading zeros,
      an explicit plus sign and a negative zero are accepted; an inner sign is not. */
  lemma ParseLongOfNonCanonical()
    ensures ParseLong("007") == Some(7)
    ensures ParseLong("+5") == Some(5)
    ensures ParseLong("-0") == Some(0)
    ensures ParseLong("1-2") == None
  {
    assert "007"[..2] == "00" && "00"[..1] == "0" && "0"[..0] == [];
    assert Unsigned("007") == "007" && DigitsValue("007") == 7;
    assert Unsigned("+5") == "5" && DigitsValue("5") == 5;
    assert Unsigned("-0") == "0" && DigitsValue("0") == 0;
    assert !IsDigit("1-2"[1]);
  }

  // ---------------------------------------------------------------------------
  // Numeric casts and 32-bit arithmetic

  /** `(long) x` for a value `a / b` held exactly: the cast truncates toward
      zero, unlike Dafny's Euclidean `/`. The quotient keeps the sign of `a`
      and its magnitude is the largest `n` with `n * b <= |a|`. */
  function TruncDiv(a: int, b: int): (q: int)
    requires b > 0
    ensures a >= 0 ==> 0 <= q * b <= a < q * b + b
    ensures a < 0 ==> q * b - b < a <= q * b <= 0
  {
    TruncDivBounds(a, b);
    if a >= 0 then a / b else -((-a) / b)
  }

  /** The truncated quotient never overshoots the exact one, and falls short
      of it by less than one: the rounding goes toward zero on both sides. */
  lemma TruncDivBounds(a: int, b: int)
    requires b > 0
    ensures var q := if a >= 0 then a / b else -((-a) / b);
            && (a >= 0 ==> 0 <= q * b <= a < q * b + b)
            && (a < 0 ==> q * b - b < a <= q * b <= 0)
  {
    if a >= 0 {
      DivBounds(a, b);
    } else {
      DivBounds(-a, b);
    }
  }

  lemma DivBounds(a: nat, b: int)
    requires b > 0
    ensures 0 <= (a / b) * b <= a < (a / b) * b + b
  {
    assert a == (a / b) * b + a % b;
  }

  lemma TruncDivIsOdd(a: int, b: int)
    requires b > 0
    ensures TruncDiv(-a, b) == -TruncDiv(a, b)
  {
  }

  /** Two's-complement wrap-around of Java `int` arithmetic. */
  function Wrap32(x: int): (r: int)
    ensures InIntRange(r)
    ensures (r - x) % TwoTo32 == 0
    ensures InIntRange(x) ==> r == x
  {
    (x - IntMin) % TwoTo32 + IntMin
  }

  /** The UTF-16 code units of one char, as Java strings store it. */
  function Utf16Units(c: char): (u: seq<int>)
    ensures |u| == 1 || |u| == 2
  {
    var v := c as int;
    if v < 0x1_0000 then [v] else [HighSurrogate(v), LowSurrogate(v)]
  }

  function HighSurrogate(v: int): int {
    0xD800 + (v - 0x1_0000) / 0x400
  }

  function LowSurrogate(v: int): int {
    0xDC00 + (v - 0x1_0000) % 0x400
  }

  function Utf16(s: string): seq<int> {
    if s == [] then [] else Utf16(s[..|s| - 1]) + Utf16Units(s[|s| - 1])
  }

  /** One turn of the hash loop, `h = 31 * h + unit`, in `int`. */
  function HashStep(h: int, unit: int): int {
    Wrap32(31 * h + unit)
  }

  function HashUnits(units: seq<int>): (h: int)
    ensures InIntRange(h)
  {
    if units == [] then 0 else HashStep(HashUnits(units[..|units| - 1]), units[|units| - 1])
  }

  /** `String.hashCode`: `h = 31 * h + unit` over the UTF-16 code units, in `int`. */
  function StringHashCode(s: string): (h: int)
    ensures InIntRange(h)
    ensures s == [] ==> h == 0
  {
    HashUnits(Utf16(s))
  }

  /** Texts whose every char is a single UTF-16 code unit. */
  predicate IsBmp(s: string) {
    forall i | 0 <= i < |s| :: s[i] as int < 0x1_0000
  }

  /** The hash polynomial `s[0]*31^(n-1) + ... + s[n-1]` over unbounded integers. */
  function PolyHash(s: string): int {
    if s == [] then 0 else 31 * PolyHash(s[..|s| - 1]) + s[|s| - 1] as int
  }

  /** Values that agree modulo 2^32 wrap to the same `int`. */
  lemma Wrap32OfCongruent(x: int, y: int)
    requires (x - y) % TwoTo32 == 0
    ensures Wrap32(x) == Wrap32(y)
  {
    var rx, ry := Wrap32(x), Wrap32(y);
    var a, b, c := (rx - x) / TwoTo32, (ry - y) / TwoTo32, (x - y) / TwoTo32;
    assert rx - x == a * TwoTo32 && ry - y == b * TwoTo32 && x - y == c * TwoTo32;
    assert rx - ry == (a - b + c) * TwoTo32;
  }

  /** Wrapping an intermediate value of `31 * h + u` does not change the end result. */
  lemma Wrap32OfStep(h: int, u: int)
    ensures HashStep(Wrap32(h), u) == Wrap32(31 * h + u)
  {
    var w := Wrap32(h);
    var q := (w - h) / TwoTo32;
    assert w - h == q * TwoTo32;
    assert (31 * w + u) - (31 * h + u) == (31 * q) * TwoTo32;
    Wrap32OfCongruent(31 * w + u, 31 * h + u);
  }

  lemma Utf16OfSnoc(s: string, c: char)
    ensures Utf16(s + [c]) == Utf16(s) + Utf16Units(c)
  {
    assert (s + [c])[..|s|] == s;
  }

  lemma HashUnitsOfSnoc(u: seq<int>, x: int)
    ensures HashUnits(u + [x]) == HashStep(HashUnits(u), x)
  {
    assert (u + [x])[..|u|] == u;
  }

  /** Appending a single-unit char extends the hash by one step. */
  lemma StringHashCodeOfSnoc(s: string, c: char)
    requires c as int < 0x1_0000
    ensures StringHashCode(s + [c]) == HashStep(StringHashCode(s), c as int)
  {
    var u := Utf16(s);
    Utf16OfSnoc(s, c);
    assert Utf16(s + [c]) == u + [c as int];
    assert StringHashCode(s) == HashUnits(u);
    assert StringHashCode(s + [c]) == HashUnits(u + [c as int]);
    HashUnitsOfSnoc(u, c as int);
  }

  /** Appending a char beyond U+FFFF extends the hash by one step for each
      unit of its surrogate pair. */
  lemma StringHashCodeOfSurrogateSnoc(s: string, c: char)
    requires c as int >= 0x1_0000
    ensures StringHashCode(s + [c])
            == HashStep(HashStep(StringHashCode(s), HighSurrogate(c as int)), LowSurrogate(c as int))
  {
    var u, hi, lo := Utf16(s), HighSurrogate(c as int), LowSurrogate(c as int);
    Utf16OfSnoc(s, c);
    assert Utf16(s + [c]) == u + [hi, lo];
    assert StringHashCode(s) == HashUnits(u);
    assert StringHashCode(s + [c]) == HashUnits(u + [hi, lo]);
    HashUnitsOfPair(u, hi, lo);
  }

  lemma HashUnitsOfPair(u: seq<int>, x: int, y: int)
    ensures HashUnits(u + [x, y]) == HashStep(HashStep(HashUnits(u), x), y)
  {
    assert u + [x, y] == (u + [x]) + [y];
    HashUnitsOfSnoc(u + [x], y);
    HashUnitsOfSnoc(u, x);
  }

  lemma StringHashCodeOfLast(s: string)
    requires s != [] && s[|s| - 1] as int < 0x1_0000
    ensures StringHashCode(s) == HashStep(StringHashCode(s[..|s| - 1]), s[|s| - 1] as int)
  {
    assert s == s[..|s| - 1] + [s[|s| - 1]];
    StringHashCodeOfSnoc(s[..|s| - 1], s[|s| - 1]);
  }

  lemma BmpPrefix(s: string)
    requires s != [] && IsBmp(s)
    ensures IsBmp(s[..|s| - 1])
  {
    var init := s[..|s| - 1];
    forall i | 0 <= i < |init|
      ensures init[i] as int < 0x1_0000
    {
      assert init[i] == s[i];
    }
  }

  /** For a text of single-unit chars, `String.hashCode` is the hash
      polynomial of its chars, wrapped once to 32 bits. */
  lemma {:induction false} StringHashCodeIsWrappedPolynomial(s: string)
    requires IsBmp(s)
    ensures StringHashCode(s) == Wrap32(PolyHash(s))
  {
    if s != [] {
      var init, c := s[..|s| - 1], s[|s| - 1];
      BmpPrefix(s);
      var p := PolyHash(init);
      StringHashCodeOfLast(s);
      StringHashCodeIsWrappedPolynomial(init);
      var q := 31 * p + c as int;
      assert StringHashCode(s) == HashStep(Wrap32(p), c as int);
      Wrap32OfStep(p, c as int);
      assert PolyHash(s) == q;
      assert HashStep(Wrap32(p), c as int) == Wrap32(q);
    }
  }
}
