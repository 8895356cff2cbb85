/**
 * The Python string and slice built-ins the recommender and the web layer rely on,
 * restricted to ASCII: `str.lower`, `str.strip`, `str.isdigit`, `int(str)` and the
 * prefix slice `s[:n]` (also what pandas `head(n)` takes).
 */
module Text {
  import opened Wrappers

  function Min(a: int, b: int): int { if a <= b then a else b }
  function Max(a: int, b: int): int { if a <= b then b else a }

  // ---------------------------------------------------------------------------
  // Case

  predicate IsUpper(c: char) { 'A' <= c <= 'Z' }

  function LowerChar(c: char): char {
    if IsUpper(c) then (c as int + 32) as char else c
  }

  /** ASCII `str.lower()`. */
  function Lower(s: string): (r: string)
    ensures |r| == |s|
    ensures forall i :: 0 <= i < |s| ==> r[i] == LowerChar(s[i])
  {
    seq(|s|, i requires 0 <= i < |s| => LowerChar(s[i]))
  }

  predicate NoUpper(s: string) {
    forall i :: 0 <= i < |s| ==> !IsUpper(s[i])
  }

  /** Lower-casing leaves no upper-case letter, and text without one is a fixed point. */
  lemma LowerIsLower(s: string)
    ensures NoUpper(Lower(s))
    ensures NoUpper(s) ==> Lower(s) == s
  {
  }

  lemma LowerAppend(a: string, b: string)
    ensures Lower(a + b) == Lower(a) + Lower(b)
  {
    assert forall i :: 0 <= i < |a + b| ==> Lower(a + b)[i] == (Lower(a) + Lower(b))[i];
  }

  // ---------------------------------------------------------------------------
  // Whitespace

  /** The ASCII characters for which Python's `str.isspace()` holds. */
  predicate IsSpace(c: char) {
    c == ' ' || c == '\t' || c == '\n' || c == '\r' || c == '\U{0B}' || c == '\U{0C}'
    || ('\U{1C}' <= c <= '\U{1F}')
  }

  predicate AllSpace(s: string) {
    forall i :: 0 <= i < |s| ==> IsSpace(s[i])
  }

  /** Neither starts nor ends with whitespace. */
  predicate IsStripped(s: string) {
    s == [] || (!IsSpace(s[0]) && !IsSpace(s[|s| - 1]))
  }

  /** Every character of `s[lo..hi]` is whitespace. */
  predicate SpaceRun(s: string, lo: nat, hi: nat)
    requires lo <= hi <= |s|
  {
    forall i :: lo <= i < hi ==> IsSpace(s[i])
  }

  /** The first position at or after `i` that does not hold whitespace (or `|s|`). */
  function SkipSpaces(s: string, i: nat): (j: nat)
    requires i <= |s|
    ensures i <= j <= |s| && SpaceRun(s, i, j)
    ensures j < |s| ==> !IsSpace(s[j])
    decreases |s| - i
  {
    if i < |s| && IsSpace(s[i]) then SkipSpaces(s, i + 1) else i
  }

  /** The end of `s[lo..j]` once the whitespace before `j` is dropped. */
  function SkipSpacesBack(s: string, lo: nat, j: nat): (k: nat)
    requires lo <= j <= |s|
    ensures lo <= k <= j && SpaceRun(s, k, j)
    ensures lo < k ==> !IsSpace(s[k - 1])
    decreases j
  {
    if lo < j && IsSpace(s[j - 1]) then SkipSpacesBack(s, lo, j - 1) else j
  }

  /**
   * `str.strip()`: the infix of `s` between its leading and its trailing whitespace.
   */
  function Strip(s: string): (r: string)
    ensures IsStripped(r) && |r| <= |s|
  {
    var a := SkipSpaces(s, 0);
    s[a..SkipSpacesBack(s, a, |s|)]
  }

  /**
   * `strip` removes exactly the surrounding whitespace: a stripped text with any
   * whitespace around it strips back to itself.
   */
  lemma StripPadded(p: string, s: string, q: string)
    requires AllSpace(p) && AllSpace(q) && IsStripped(s)
    ensures Strip(p + s + q) == s
  {
    var t := p + s + q;
    var a := SkipSpaces(t, 0);
    var b := SkipSpacesBack(t, a, |t|);
    if s == [] {
      assert forall i :: 0 <= i < |t| ==> IsSpace(t[i]) by {
        forall i | 0 <= i < |t| ensures IsSpace(t[i]) {
          if i < |p| { assert t[i] == p[i]; } else { assert t[i] == q[i - |p|]; }
        }
      }
      assert a == |t|;
    } else {
      assert t[|p|] == s[0];
      assert forall i :: 0 <= i < |p| ==> t[i] == p[i];
      assert a == |p|;
      assert t[|p| + |s| - 1] == s[|s| - 1];
      assert forall i :: |p| + |s| <= i < |t| ==> t[i] == q[i - |p| - |s|];
      assert b == |p| + |s|;
      assert t[a..b] == s;
    }
  }

  lemma StripIdempotent(s: string)
    ensures Strip(Strip(s)) == Strip(s)
  {
    var r := Strip(s);
    assert [] + r + [] == r;
    StripPadded([], r, []);
  }

  /** The key the recommender uses for names: `name.lower().strip()`. */
  function Normalize(s: string): (r: string)
    ensures IsStripped(r) && NoUpper(r) && |r| <= |s|
  {
    var l := Lower(s);
    var a := SkipSpaces(l, 0);
    assert Strip(l) == l[a..SkipSpacesBack(l, a, |l|)];
    Strip(l)
  }

  /** Lower-casing keeps whitespace where it is and keeps non-whitespace non-whitespace. */
  lemma LowerKeepsSpaces(s: string)
    ensures forall i :: 0 <= i < |s| ==> (IsSpace(Lower(s)[i]) <==> IsSpace(s[i]))
    ensures AllSpace(s) ==> Lower(s) == s
  {
  }

  lemma StrippedLower(r: string)
    requires IsStripped(r)
    ensures IsStripped(Lower(r))
  {
    LowerKeepsSpaces(r);
  }

  lemma LowerPadded(p: string, r: string, q: string)
    requires AllSpace(p) && AllSpace(q)
    ensures Lower(p + r + q) == p + Lower(r) + q
  {
    LowerAppend(p + r, q);
    LowerAppend(p, r);
    LowerKeepsSpaces(p);
    LowerKeepsSpaces(q);
  }

  /** Every text is its stripped form with whitespace around it. */
  lemma StripSplit(s: string) returns (p: string, q: string)
    ensures AllSpace(p) && AllSpace(q) && s == p + Strip(s) + q
  {
    var a := SkipSpaces(s, 0);
    var b := SkipSpacesBack(s, a, |s|);
    p, q := s[..a], s[b..];
    assert s == p + s[a..b] + q;
  }

  /**
   * Stripping and lower-casing commute, so the route's `strip().lower()` of an email
   * and the index's `lower().strip()` of a name are the same normalisation.
   */
  lemma StripLowerCommute(s: string)
    ensures Lower(Strip(s)) == Normalize(s)
  {
    var r := Strip(s);
    var p, q := StripSplit(s);
    LowerPadded(p, r, q);
    StrippedLower(r);
    StripPadded(p, Lower(r), q);
  }

  lemma AllSpaceConcat(a: string, b: string)
    requires AllSpace(a) && AllSpace(b)
    ensures AllSpace(a + b)
  {
    assert forall i :: 0 <= i < |a + b| ==> (a + b)[i] == if i < |a| then a[i] else b[i - |a|];
  }

  /** Regrouping a five-part concatenation, kept apart so the padding proof stays small. */
  lemma Regroup(a: string, b: string, c: string, d: string, e: string)
    ensures a + (b + c + d) + e == (a + b) + c + (d + e)
  {
  }

  /** Normalisation ignores any whitespace around the text. */
  lemma NormalizeIgnoresPadding(p: string, s: string, q: string)
    requires AllSpace(p) && AllSpace(q)
    ensures Normalize(p + s + q) == Normalize(s)
  {
    var l := Lower(s);
    var r := Strip(l);
    var p', q' := StripSplit(l);
    LowerPadded(p, s, q);
    AllSpaceConcat(p, p');
    AllSpaceConcat(q', q);
    Regroup(p, p', r, q', q);
    StripPadded(p + p', r, q' + q);
  }

  /** Normalisation ignores case. */
  lemma NormalizeIgnoresCase(s: string)
    ensures Normalize(Lower(s)) == Normalize(s)
  {
    LowerIsLower(s);
    LowerIsLower(Lower(s));
  }

  lemma NormalizeIdempotent(s: string)
    ensures Normalize(Normalize(s)) == Normalize(s)
  {
    var l := Lower(s);
    var r := Strip(l);
    LowerIsLower(s);
    assert NoUpper(r);
    LowerIsLower(r);
    StripIdempotent(l);
  }

  // ---------------------------------------------------------------------------
  // Digits and integers

  predicate IsDigit(c: char) { '0' <= c <= '9' }

  predicate AllDigits(s: string) {
    forall i :: 0 <= i < |s| ==> IsDigit(s[i])
  }

  /** ASCII `str.isdigit()`: non-empty and digits only. */
  predicate IsDigits(s: string) {
    |s| > 0 && AllDigits(s)
  }

  /** The number a string of decimal digits denotes (leading zeros allowed). */
  function DigitsValue(s: string): nat
    requires AllDigits(s)
    decreases |s|
  {
    if s == [] then 0 else 10 * DigitsValue(s[..|s| - 1]) + (s[|s| - 1] as int - '0' as int)
  }

  function DigitChar(d: nat): (c: char)
    requires d < 10
  {
    ('0' as int + d) as char
  }

  /** `str(n)` for a non-negative integer. */
  function Decimal(n: nat): (r: string)
    ensures IsDigits(r)
    decreases n
  {
    if n < 10 then [DigitChar(n)] else Decimal(n / 10) + [DigitChar(n % 10)]
  }

  /** Printing a number in decimal and reading it back gives the number. */
  lemma {:induction false} DecimalRoundTrip(n: nat)
    ensures DigitsValue(Decimal(n)) == n
    decreases n
  {
    if n >= 10 {
      var d := Decimal(n);
      assert d[..|d| - 1] == Decimal(n / 10);
      DecimalRoundTrip(n / 10);
    }
  }

  /**
   * The digit run Python's `int()` accepts: digits, where a single `_` may stand
   * between two digits.
   */
  predicate IsIntBody(s: string) {
    && |s| > 0 && IsDigit(s[0]) && IsDigit(s[|s| - 1])
    && DigitsOrUnderscores(s)
    && forall i :: 0 < i < |s| - 1 ==> UnderscoreBetweenDigits(s, i)
  }

  predicate UnderscoreBetweenDigits(s: string, i: nat)
    requires 0 < i < |s| - 1
  {
    s[i] == '_' ==> IsDigit(s[i - 1]) && IsDigit(s[i + 1])
  }

  predicate DigitsOrUnderscores(s: string) {
    forall i :: 0 <= i < |s| ==> IsDigit(s[i]) || s[i] == '_'
  }

  function RemoveUnderscores(s: string): (r: string)
    requires DigitsOrUnderscores(s)
    ensures AllDigits(r)
    ensures AllDigits(s) ==> r == s
    decreases |s|
  {
    if s == [] then []
    else if s[0] == '_' then RemoveUnderscores(s[1..])
    else [s[0]] + RemoveUnderscores(s[1..])
  }

  /**
   * The whitespace `int()` skips around its digits: space, tab, newline, vertical
   * tab, form feed and carriage return. Unlike `str.strip()`, it does not skip the
   * separators 0x1C-0x1F.
   */
  predicate IsIntSpace(c: char) {
    c == ' ' || '\t' <= c <= '\r'
  }

  predicate AllIntSpace(s: string) {
    forall i :: 0 <= i < |s| ==> IsIntSpace(s[i])
  }

  /**
   * Python's `int(s)` on ASCII text: surrounding `int` whitespace, an optional sign
   * and a digit run; None where Python raises ValueError. Whatever `Strip` removes
   * must be `int` whitespace: a separator 0x1C-0x1F at either end is an error.
   */
  function ParseInt(s: string): (r: Option<int>)
    ensures r.Some? ==> |s| > 0
    ensures r.Some? ==> IsDigit(s[0]) || s[0] == '-' || s[0] == '+' || IsIntSpace(s[0])
    ensures r.Some? ==> IsDigit(s[|s| - 1]) || IsIntSpace(s[|s| - 1])
  {
    var a := SkipSpaces(s, 0);
    var b := SkipSpacesBack(s, a, |s|);
    if AllIntSpace(s[..a]) && AllIntSpace(s[b..]) then
      var r := ParseSigned(s[a..b]);
      assert r.Some? && a == 0 ==> s[0] == s[a..b][0];
      assert r.Some? && b == |s| ==> s[|s| - 1] == s[a..b][b - a - 1];
      assert r.Some? && a > 0 ==> s[0] == s[..a][0];
      assert r.Some? && b < |s| ==> s[|s| - 1] == s[b..][|s| - b - 1];
      r
    else None
  }

  /** A sign and a digit run, with nothing around them. */
  function ParseSigned(t: string): (r: Option<int>)
    ensures r.Some? ==> |t| > 0 && (IsDigit(t[0]) || t[0] == '-' || t[0] == '+') && IsDigit(t[|t| - 1])
  {
    if |t| > 0 && (t[0] == '-' || t[0] == '+') then
      match ParseDigitRun(t[1..])
      case Some(v) => Some(if t[0] == '-' then -(v as int) else v as int)
      case None => None
    else
      match ParseDigitRun(t)
      case Some(v) => Some(v as int)
      case None => None
  }

  /**
   * CPython's default limit on the digits of a decimal text `int()` converts
   * (`sys.get_int_max_str_digits()`); underscores do not count, leading zeros do.
   */
  const IntMaxStrDigits: nat := 4300

  /** The value of an unsigned digit run, None when it is not one or has too many digits. */
  function ParseDigitRun(body: string): (r: Option<nat>)
    ensures r.Some? ==> IsIntBody(body) && |RemoveUnderscores(body)| <= IntMaxStrDigits
  {
    if IsIntBody(body) && |RemoveUnderscores(body)| <= IntMaxStrDigits then
      Some(DigitsValue(RemoveUnderscores(body)))
    else None
  }

  /** `int` of a plain run of digits is that run read as an unsigned number. */
  lemma ParseIntOfDigits(s: string)
    requires IsDigits(s)
    ensures ParseDigitRun(s).None? ==> ParseInt(s) == None
    ensures ParseDigitRun(s).Some? ==> ParseInt(s) == Some(ParseDigitRun(s).value as int)
  {
    assert IsStripped(s) by {
      assert IsDigit(s[0]) && IsDigit(s[|s| - 1]);
    }
    assert [] + s + [] == s;
    ParseIntPadded([], s, []);
    assert s[0] != '-' && s[0] != '+' by {
      assert IsDigit(s[0]);
    }
  }

  /** A plain run of digits is its value up to the digit limit, and an error beyond it. */
  lemma ParseDigitRunDigits(s: string)
    requires IsDigits(s)
    ensures |s| <= IntMaxStrDigits ==> ParseDigitRun(s) == Some(DigitsValue(s))
    ensures |s| > IntMaxStrDigits ==> ParseDigitRun(s) == None
  {
    assert IsIntBody(s);
    assert RemoveUnderscores(s) == s;
  }

  /**
   * `int(s)` of a string of ASCII digits is the number they denote, leading zeros
   * included, up to 4300 digits; beyond that `int()` raises.
   */
  lemma ParseIntDigits(s: string)
    requires IsDigits(s)
    ensures |s| <= IntMaxStrDigits ==> ParseInt(s) == Some(DigitsValue(s) as int)
    ensures |s| > IntMaxStrDigits ==> ParseInt(s) == None
  {
    ParseIntOfDigits(s);
    ParseDigitRunDigits(s);
  }

  lemma ParseDigitRunDecimal(n: nat)
    ensures |Decimal(n)| <= IntMaxStrDigits ==> ParseDigitRun(Decimal(n)) == Some(n)
    ensures |Decimal(n)| > IntMaxStrDigits ==> ParseDigitRun(Decimal(n)) == None
  {
    ParseDigitRunDigits(Decimal(n));
    DecimalRoundTrip(n);
  }

  /**
   * `int()` skips exactly its own whitespace: a stripped text padded with spaces,
   * tabs, newlines, vertical tabs, form feeds or carriage returns parses as the
   * text alone.
   */
  lemma ParseIntPadded(p: string, t: string, q: string)
    requires AllIntSpace(p) && AllIntSpace(q) && IsStripped(t)
    ensures ParseInt(p + t + q) == ParseSigned(t)
  {
    var s := p + t + q;
    var a := SkipSpaces(s, 0);
    var b := SkipSpacesBack(s, a, |s|);
    assert AllSpace(p) && AllSpace(q);
    StripPadded(p, t, q);
    if t == [] {
      assert AllIntSpace(s) by {
        forall i | 0 <= i < |s|
          ensures IsIntSpace(s[i])
        {
          if i < |p| { assert s[i] == p[i]; } else { assert s[i] == q[i - |p|]; }
        }
      }
      assert AllIntSpace(s[..a]) && AllIntSpace(s[b..]);
    } else {
      assert s[|p|] == t[0];
      assert forall i :: 0 <= i < |p| ==> s[i] == p[i];
      assert a == |p|;
      assert s[|p| + |t| - 1] == t[|t| - 1];
      assert forall i :: |p| + |t| <= i < |s| ==> s[i] == q[i - |p| - |t|];
      assert b == |p| + |t|;
      assert s[..a] == p && s[b..] == q;
    }
  }

  /** `int(str(n)) == n` up to the digit limit; beyond it `int` raises. */
  lemma ParseIntDecimal(n: nat)
    ensures |Decimal(n)| <= IntMaxStrDigits ==> ParseInt(Decimal(n)) == Some(n)
    ensures |Decimal(n)| > IntMaxStrDigits ==> ParseInt(Decimal(n)) == None
  {
    var d := Decimal(n);
    assert [] + d + [] == d;
    ParseIntPadded([], d, []);
    ParseDigitRunDecimal(n);
  }

  /** `int("-" + str(n)) == -n` up to the digit limit (the sign does not count); beyond it `int` raises. */
  lemma ParseIntNegative(n: nat)
    ensures |Decimal(n)| <= IntMaxStrDigits ==> ParseInt("-" + Decimal(n)) == Some(-(n as int))
    ensures |Decimal(n)| > IntMaxStrDigits ==> ParseInt("-" + Decimal(n)) == None
  {
    var t := "-" + Decimal(n);
    assert [] + t + [] == t;
    ParseIntPadded([], t, []);
    ParseSignedNegative(n);
  }

  lemma ParseSignedNegative(n: nat)
    ensures |Decimal(n)| <= IntMaxStrDigits ==> ParseSigned("-" + Decimal(n)) == Some(-(n as int))
    ensures |Decimal(n)| > IntMaxStrDigits ==> ParseSigned("-" + Decimal(n)) == None
  {
    var t := "-" + Decimal(n);
    assert t[1..] == Decimal(n);
    ParseDigitRunDecimal(n);
  }

  /** Text without a single digit is never an integer. */
  lemma ParseIntNeedsDigit(s: string)
    requires forall i :: 0 <= i < |s| ==> !IsDigit(s[i])
    ensures ParseInt(s) == None
  {
  }

  /**
   * A separator 0x1C-0x1F before or after the number makes `int()` fail, although
   * `str.strip()` would remove it.
   */
  lemma ParseIntRejectsSeparator(c: char, s: string)
    requires '\U{1C}' <= c <= '\U{1F}'
    ensures ParseInt([c] + s) == None
    ensures ParseInt(s + [c]) == None
  {
    assert ([c] + s)[0] == c;
    assert (s + [c])[|s + [c]| - 1] == c;
  }

  // ---------------------------------------------------------------------------
  // Slicing

  /** The length of Python's `s[:n]` for a sequence of length `len`. */
  function PrefixLength(len: nat, n: int): (k: nat)
    ensures k <= len
  {
    if n >= 0 then Min(n, len) else Max(0, len + n)
  }

  /**
   * Python's `s[:n]`: the first `n` elements, or for negative `n` all but the last `-n`.
   */
  function Prefix<T>(s: seq<T>, n: int): (r: seq<T>)
    ensures |r| == PrefixLength(|s|, n) && r == s[..|r|]
  {
    s[..PrefixLength(|s|, n)]
  }

  // ---------------------------------------------------------------------------
  // Splitting

  /** `s.split(sep)[0]`: the text before the first `sep`, or all of `s`. */
  function BeforeFirst(s: string, sep: char): (r: string)
    ensures |r| <= |s| && r == s[..|r|]
    ensures sep !in r
    ensures |r| < |s| ==> s[|r|] == sep
    decreases |s|
  {
    if s == [] || s[0] == sep then [] else [s[0]] + BeforeFirst(s[1..], sep)
  }
}
