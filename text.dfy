/**
 * The string helpers the CSV readers and writers share: Go's strings.TrimSpace,
 * an ASCII strings.ToLower, the boolean token rule, strconv.Atoi and fmt's %d.
 */
module Text {

  /** unicode.IsSpace, the test strings.TrimSpace strips by: the Latin-1 spaces and the Unicode White_Space set. */
  predicate IsSpace(c: char) {
    c == ' ' || '\t' <= c <= '\r' || c == '\U{0085}' || c == '\U{00A0}' || c == '\U{1680}' ||
    '\U{2000}' <= c <= '\U{200A}' || c == '\U{2028}' || c == '\U{2029}' || c == '\U{202F}' ||
    c == '\U{205F}' || c == '\U{3000}'
  }

  /** The end of the run of spaces that starts at i. */
  function SpacesFrom(s: string, i: nat): (j: nat)
    requires i <= |s|
    ensures i <= j <= |s|
    decreases |s| - i
  {
    if i < |s| && IsSpace(s[i]) then SpacesFrom(s, i + 1) else i
  }

  lemma {:induction false} SpacesFromRun(s: string, i: nat)
    requires i <= |s|
    ensures var j := SpacesFrom(s, i);
      (j == |s| || !IsSpace(s[j])) && forall k :: i <= k < j ==> IsSpace(s[k])
    decreases |s| - i
  {
    if i < |s| && IsSpace(s[i]) {
      SpacesFromRun(s, i + 1);
    }
  }

  /** The start of the run of spaces that ends at j, going back no further than lo. */
  function SpacesBefore(s: string, lo: nat, j: nat): (e: nat)
    requires lo <= j <= |s|
    ensures lo <= e <= j
    decreases j
  {
    if j > lo && IsSpace(s[j - 1]) then SpacesBefore(s, lo, j - 1) else j
  }

  lemma {:induction false} SpacesBeforeRun(s: string, lo: nat, j: nat)
    requires lo <= j <= |s|
    ensures var e := SpacesBefore(s, lo, j);
      (e == lo || !IsSpace(s[e - 1])) && forall k :: e <= k < j ==> IsSpace(s[k])
    decreases j
  {
    if j > lo && IsSpace(s[j - 1]) {
      SpacesBeforeRun(s, lo, j - 1);
    }
  }

  /** strings.TrimSpace: s without its leading and trailing spaces. */
  function TrimSpace(s: string): string {
    var i := SpacesFrom(s, 0);
    s[i..SpacesBefore(s, i, |s|)]
  }

  /**
   * What TrimSpace keeps: a slice of s with only spaces before and after it, and which is
   * empty or neither begins nor ends with a space.
   */
  lemma TrimSpaceShape(s: string)
    ensures var r := TrimSpace(s); var i := SpacesFrom(s, 0);
      i + |r| <= |s| && r == s[i..i + |r|] &&
      (forall k :: 0 <= k < i ==> IsSpace(s[k])) &&
      (forall k :: i + |r| <= k < |s| ==> IsSpace(s[k])) &&
      (r == [] || (!IsSpace(r[0]) && !IsSpace(r[|r| - 1])))
  {
    SpacesFromRun(s, 0);
    SpacesBeforeRun(s, SpacesFrom(s, 0), |s|);
  }

  /** A string with no space at either end is its own trim. */
  lemma TrimSpaceOfTrimmed(s: string)
    requires s == [] || (!IsSpace(s[0]) && !IsSpace(s[|s| - 1]))
    ensures TrimSpace(s) == s
  {
  }

  /** strings.HasPrefix and strings.HasSuffix. */
  predicate StartsWith(s: string, prefix: string) {
    |prefix| <= |s| && s[..|prefix|] == prefix
  }

  predicate EndsWith(s: string, suffix: string) {
    |suffix| <= |s| && s[|s| - |suffix|..] == suffix
  }

  function LowerChar(c: char): char {
    if 'A' <= c <= 'Z' then (c as int + 32) as char else c
  }

  /** strings.ToLower restricted to ASCII letters. */
  function ToLower(s: string): (r: string)
    ensures |r| == |s|
    ensures forall i :: 0 <= i < |s| ==> r[i] == LowerChar(s[i])
  {
    if s == [] then [] else [LowerChar(s[0])] + ToLower(s[1..])
  }

  /** A string with no upper-case ASCII letter is its own lower-case form. */
  lemma ToLowerOfLower(s: string)
    requires forall i :: 0 <= i < |s| ==> !('A' <= s[i] <= 'Z')
    ensures ToLower(s) == s
  {
  }

  /** The readers' parseBool: lower-cased, then trimmed, one of "1", "true", "t", "yes" or "y". */
  predicate ParseBool(s: string) {
    TrimSpace(ToLower(s)) in {"1", "true", "t", "yes", "y"}
  }

  /** fmt's %t. */
  function FormatBool(b: bool): (r: string)
    ensures ParseBool(r) == b
  {
    var r := if b then "true" else "false";
    ToLowerOfLower(r);
    TrimSpaceOfTrimmed(r);
    r
  }

  // ---- decimal integers ----

  predicate IsDigit(c: char) { '0' <= c <= '9' }

  predicate AllDigits(s: string) { forall i :: 0 <= i < |s| ==> IsDigit(s[i]) }

  function DigitChar(d: nat): char
    requires d < 10
  {
    ("0123456789")[d]
  }

  /** The value of a string of decimal digits, most significant first. */
  function DigitsValue(s: string): nat
    requires AllDigits(s)
  {
    if s == [] then 0 else DigitsValue(s[..|s| - 1]) * 10 + (s[|s| - 1] as int - '0' as int)
  }

  /** The shortest decimal form of n. */
  function NatToDigits(n: nat): (r: string)
    ensures |r| > 0 && AllDigits(r)
  {
    if n < 10 then [DigitChar(n)] else NatToDigits(n / 10) + [DigitChar(n % 10)]
  }

  lemma {:induction false} DigitsValueOfNatToDigits(n: nat)
    ensures DigitsValue(NatToDigits(n)) == n
  {
    var r := NatToDigits(n);
    if n >= 10 {
      DigitsValueOfNatToDigits(n / 10);
      assert r[..|r| - 1] == NatToDigits(n / 10);
    }
  }

  /** n in decimal, left-padded with zeros to at least `width` digits. */
  function PadDigits(n: nat, width: nat): (r: string)
    ensures AllDigits(r) && DigitsValue(r) == n && |r| >= width
    decreases width
  {
    var d := NatToDigits(n);
    DigitsValueOfNatToDigits(n);
    if |d| >= width then d else ZeroPadded(d, width - |d|)
  }

  function ZeroPadded(d: string, k: nat): (r: string)
    requires AllDigits(d)
    ensures AllDigits(r) && |r| == |d| + k && DigitsValue(r) == DigitsValue(d)
  {
    if k == 0 then d else
      var r := ZeroPadded(d, k - 1);
      LeadingZero(r);
      "0" + r
  }

  lemma {:induction false} LeadingZero(s: string)
    requires AllDigits(s)
    ensures AllDigits("0" + s) && DigitsValue("0" + s) == DigitsValue(s)
  {
    if s != [] {
      LeadingZero(s[..|s| - 1]);
      assert ("0" + s)[..|s|] == "0" + s[..|s| - 1];
    }
  }

  /** Go's appendInt(b, x, width): a minus sign for negatives, then the magnitude zero-padded. */
  function PadInt(x: int, width: nat): string {
    if x < 0 then "-" + PadDigits(-x, width) else PadDigits(x, width)
  }

  /** fmt.Sprintf("%d", x). */
  function Itoa(x: int): (r: string)
    ensures |r| > 0
  {
    if x < 0 then "-" + NatToDigits(-x) else NatToDigits(x)
  }

  const MinInt64: int := -0x8000_0000_0000_0000
  const MaxInt64: int := 0x7FFF_FFFF_FFFF_FFFF

  const MaxUint64: int := 0xFFFF_FFFF_FFFF_FFFF

  /** What strconv.Atoi hands back: the value, and whether there was no error. */
  datatype AtoiResult = AtoiResult(value: int, ok: bool)

  /** The sign strconv.Atoi reads: a leading '-' makes the number negative. */
  predicate Negative(s: string) {
    |s| > 0 && s[0] == '-'
  }

  /** What follows an optional leading '+' or '-'. */
  function Unsigned(s: string): (r: string)
    ensures |r| <= |s|
  {
    if |s| > 0 && (s[0] == '-' || s[0] == '+') then s[1..] else s
  }

  /** An optional sign and at least one decimal digit, nothing else. */
  predicate Numeral(s: string) {
    Unsigned(s) != [] && AllDigits(Unsigned(s))
  }

  /** The value a numeral denotes. */
  function NumeralValue(s: string): int
    requires Numeral(s)
  {
    var m: int := DigitsValue(Unsigned(s));
    if Negative(s) then -m else m
  }

  /** The longest run of decimal digits that s starts with. */
  function DigitPrefix(s: string): (r: string)
    ensures AllDigits(r) && |r| <= |s| && r == s[..|r|]
    ensures |r| < |s| ==> !IsDigit(s[|r|])
    ensures AllDigits(s) ==> r == s
  {
    if s == [] || !IsDigit(s[0]) then [] else [s[0]] + DigitPrefix(s[1..])
  }

  /** A digit string followed by anything starts with those digits and the digits after them. */
  lemma {:induction false} DigitPrefixAppend(d: string, t: string)
    requires AllDigits(d)
    ensures DigitPrefix(d + t) == d + DigitPrefix(t)
  {
    if d == [] {
      assert d + t == t;
    } else {
      assert (d + t)[0] == d[0] && (d + t)[1..] == d[1..] + t;
      assert DigitPrefix(d + t) == [d[0]] + DigitPrefix(d[1..] + t);
      DigitPrefixAppend(d[1..], t);
      assert [d[0]] + (d[1..] + DigitPrefix(t)) == d + DigitPrefix(t);
    }
  }

  /** Appending digits never lowers the value read so far. */
  lemma {:induction false} DigitsValueGrows(a: string, b: string)
    requires AllDigits(a + b)
    ensures AllDigits(a) && DigitsValue(a + b) >= DigitsValue(a)
    decreases |b|
  {
    assert forall i :: 0 <= i < |a| ==> (a + b)[i] == a[i];
    if b == [] {
      assert a + b == a;
    } else {
      var b' := b[..|b| - 1];
      assert (a + b)[..|a + b| - 1] == a + b';
      assert forall i :: 0 <= i < |a + b'| ==> (a + b')[i] == (a + b)[i];
      DigitsValueGrows(a, b');
      assert DigitsValue(a + b) == DigitsValue(a + b') * 10 + ((a + b)[|a + b| - 1] as int - '0' as int);
    }
  }

  /** The three outcomes of strconv.ParseUint(u, 10, 64). */
  datatype UintParse = UintOk(n: nat) | UintSyntax | UintRange

  /**
   * strconv.ParseUint(u, 10, 64): the characters are read left to right. A non-digit is a
   * syntax error, unless the digits before it already exceed 2^64 - 1: the overflow check
   * comes first, as a range error.
   */
  function ParseUint(u: string): (r: UintParse)
    ensures r.UintOk? <==> u != [] && AllDigits(u) && DigitsValue(u) <= MaxUint64
    ensures r.UintOk? ==> AllDigits(u) && r.n == DigitsValue(u)
    ensures r.UintRange? <==> DigitsValue(DigitPrefix(u)) > MaxUint64
  {
    var run := DigitPrefix(u);
    if DigitsValue(run) > MaxUint64 then UintRange
    else if u == [] || run != u then UintSyntax
    else UintOk(DigitsValue(u))
  }

  /**
   * strconv.Atoi on a 64-bit platform: ParseUint after an optional sign, then ParseInt's
   * range check. A syntax error answers 0; a range error, from ParseUint or from a number
   * outside int64, answers the int64 bound on the side of the sign.
   */
  function Atoi(s: string): (r: AtoiResult)
    ensures r.ok ==> MinInt64 <= r.value <= MaxInt64
    ensures !r.ok ==> r.value in {0, MinInt64, MaxInt64}
    ensures r.ok ==> Numeral(s) && r.value == NumeralValue(s)
    ensures Numeral(s) && MinInt64 <= NumeralValue(s) <= MaxInt64 ==> r.ok
    ensures !r.ok && r.value == 0 <==> ParseUint(Unsigned(s)).UintSyntax?
    ensures !r.ok && r.value != 0 ==> r.value == if Negative(s) then MinInt64 else MaxInt64
  {
    match ParseUint(Unsigned(s))
    case UintSyntax => AtoiResult(0, false)
    case UintRange => AtoiResult(if Negative(s) then MinInt64 else MaxInt64, false)
    case UintOk(n) =>
      var v: int := if Negative(s) then -(n as int) else n;
      if v < MinInt64 then AtoiResult(MinInt64, false)
      else if v > MaxInt64 then AtoiResult(MaxInt64, false)
      else AtoiResult(v, true)
  }

  /**
   * A non-digit reached while the digits before it are still within 2^64 - 1 is a syntax
   * error: Atoi answers 0, whatever follows.
   */
  lemma AtoiSyntaxFirst(s: string, d: string, c: char, t: string)
    requires Unsigned(s) == d + [c] + t && AllDigits(d) && !IsDigit(c) && DigitsValue(d) <= MaxUint64
    ensures Atoi(s) == AtoiResult(0, false)
  {
    DigitPrefixAppend(d, [c] + t);
    assert d + [c] + t == d + ([c] + t);
    assert DigitPrefix(Unsigned(s)) == d;
  }

  /**
   * Digits worth more than 2^64 - 1 are a range error before anything after them is read:
   * Atoi answers the int64 bound on the side of the sign, whatever follows.
   */
  lemma AtoiOverflowFirst(s: string, d: string, t: string)
    requires Unsigned(s) == d + t && AllDigits(d) && DigitsValue(d) > MaxUint64
    ensures Atoi(s) == AtoiResult(if Negative(s) then MinInt64 else MaxInt64, false)
  {
    DigitPrefixAppend(d, t);
    var run := DigitPrefix(Unsigned(s));
    assert run == d + DigitPrefix(t);
    DigitsValueGrows(d, DigitPrefix(t));
  }

  /**
   * A number above 2^64 - 1 written out, then anything at all (such as
   * "99999999999999999999x"): Atoi answers the int64 bound on the side of the sign.
   */
  lemma AtoiHugePrefix(n: nat, t: string)
    requires n > MaxUint64
    ensures Atoi(NatToDigits(n) + t) == AtoiResult(MaxInt64, false)
    ensures Atoi("-" + NatToDigits(n) + t) == AtoiResult(MinInt64, false)
  {
    var d := NatToDigits(n);
    DigitsValueOfNatToDigits(n);
    SignOf(d, t);
    AtoiOverflowFirst(d + t, d, t);
    AtoiOverflowFirst("-" + d + t, d, t);
  }

  /** Digits, then anything, read unsigned or after a minus. */
  lemma SignOf(d: string, t: string)
    requires d != [] && IsDigit(d[0])
    ensures !Negative(d + t) && Unsigned(d + t) == d + t
    ensures Negative("-" + d + t) && Unsigned("-" + d + t) == d + t
  {
    assert (d + t)[0] == d[0];
    assert ("-" + d + t)[1..] == d + t;
  }

  /** The numeral %d writes denotes the number written. */
  lemma NumeralOfItoa(x: int)
    ensures Numeral(Itoa(x)) && NumeralValue(Itoa(x)) == x
  {
    var s := Itoa(x);
    if x < 0 {
      var d := NatToDigits(-x);
      DigitsValueOfNatToDigits(-x);
      assert s == "-" + d;
      assert s[0] == '-' && s[1..] == d;
      assert Unsigned(s) == d;
    } else {
      var d := NatToDigits(x);
      DigitsValueOfNatToDigits(x);
      assert s == d && IsDigit(s[0]);
      assert Unsigned(s) == d;
    }
  }

  /** fmt's %d and strconv.Atoi are inverse on every int64. */
  lemma AtoiItoa(x: int)
    requires MinInt64 <= x <= MaxInt64
    ensures Atoi(Itoa(x)) == AtoiResult(x, true)
  {
    NumeralOfItoa(x);
  }

  /** Every %d rendering is already trimmed. */
  lemma ItoaTrimmed(x: int)
    ensures TrimSpace(Itoa(x)) == Itoa(x)
  {
    var r := Itoa(x);
    assert r[0] == '-' || IsDigit(r[0]);
    assert IsDigit(r[|r| - 1]);
    TrimSpaceOfTrimmed(r);
  }
}
