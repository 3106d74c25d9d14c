/**
 * The Python string operations the assistant relies on, stated over `string` (a
 * sequence of Unicode scalar values, as Python's `str` is a sequence of code points):
 * `t in s`, `s.split(sep)`, `sep.join(parts)`, `s.strip()`, `s.lower()`,
 * `s.ljust(w)`, `c * n`, `str(n)` for a natural number, and the ordering `a <= b`.
 */
module Text {
  import opened Wrappers

  // ---------------------------------------------------------------------------
  // Occurrences: `t in s` and the first position of `t` in `s`
  // ---------------------------------------------------------------------------

  /** `t` occurs in `s` starting at index `k`. */
  predicate OccursAt(s: string, t: string, k: nat)
  {
    k + |t| <= |s| && s[k..k + |t|] == t
  }

  /** The first occurrence of `t` in `s` at or after index `k`. */
  function FindFrom(s: string, t: string, k: nat): (r: Option<nat>)
    requires k <= |s|
    ensures r.Some? ==> k <= r.value && OccursAt(s, t, r.value)
    ensures r.Some? ==> forall j :: k <= j < r.value ==> !OccursAt(s, t, j)
    ensures r.None? ==> forall j :: k <= j ==> !OccursAt(s, t, j)
    decreases |s| - k
  {
    if OccursAt(s, t, k) then Some(k)
    else if k == |s| then None
    else FindFrom(s, t, k + 1)
  }

  /** The first occurrence of `t` in `s` (Python's `s.find(t)`, with None for -1). */
  function Find(s: string, t: string): (r: Option<nat>)
    ensures r.Some? ==> OccursAt(s, t, r.value)
    ensures r.Some? ==> forall j: nat :: j < r.value ==> !OccursAt(s, t, j)
    ensures r.None? ==> forall j: nat :: !OccursAt(s, t, j)
  {
    FindFrom(s, t, 0)
  }

  /** Python's `t in s`. */
  predicate Contains(s: string, t: string)
  {
    Find(s, t).Some?
  }

  /** `t in s` holds exactly when `t` occurs somewhere in `s`. */
  lemma ContainsIff(s: string, t: string)
    ensures Contains(s, t) <==> exists k: nat :: OccursAt(s, t, k)
  {
  }

  /** The text of `s` before the first occurrence of `t`; all of `s` when `t` does not occur. */
  function Before(s: string, t: string): (r: string)
    ensures r <= s
    ensures Contains(s, t) ==> OccursAt(s, t, |r|)
    ensures !Contains(s, t) ==> r == s
    ensures t != "" ==> !Contains(r, t)
  {
    match Find(s, t)
    case None => s
    case Some(k) =>
      var r := s[..k];
      assert forall j: nat :: OccursAt(r, t, j) ==> OccursAt(s, t, j) by {
        forall j: nat | OccursAt(r, t, j) ensures OccursAt(s, t, j) {
          assert s[j..j + |t|] == r[j..j + |t|];
        }
      }
      r
  }

  /** The text of `s` after the first occurrence of `t`. */
  function After(s: string, t: string): (r: string)
    requires Contains(s, t)
    ensures Before(s, t) + t + r == s
  {
    var k := Find(s, t).value;
    assert s == s[..k] + s[k..k + |t|] + s[k + |t|..];
    s[k + |t|..]
  }

  // ---------------------------------------------------------------------------
  // split and join
  // ---------------------------------------------------------------------------

  /**
   * Python's `s.split(sep)` for a non-empty separator: the pieces between the
   * successive non-overlapping occurrences of `sep`, scanned from the left.
   */
  function Split(s: string, sep: string): (parts: seq<string>)
    requires sep != ""
    ensures |parts| >= 1 && parts[0] == Before(s, sep)
    ensures |parts| > 1 <==> Contains(s, sep)
    ensures Contains(s, sep) ==> parts[1] == Before(After(s, sep), sep)
    decreases |s|
  {
    match Find(s, sep)
    case None => [s]
    case Some(k) => [s[..k]] + Split(s[k + |sep|..], sep)
  }

  /** Python's `sep.join(parts)`. */
  function Join(parts: seq<string>, sep: string): string
  {
    if |parts| == 0 then ""
    else if |parts| == 1 then parts[0]
    else parts[0] + sep + Join(parts[1..], sep)
  }

  /** Splitting loses nothing: joining the pieces with the separator gives the text back. */
  lemma {:induction false} JoinSplit(s: string, sep: string)
    requires sep != ""
    ensures Join(Split(s, sep), sep) == s
    decreases |s|
  {
    match Find(s, sep)
    case None =>
    case Some(k) =>
      var rest := s[k + |sep|..];
      JoinSplit(rest, sep);
      assert Split(s, sep) == [s[..k]] + Split(rest, sep);
      assert Split(s, sep)[1..] == Split(rest, sep);
      assert s == s[..k] + sep + rest by {
        assert s == s[..k] + s[k..k + |sep|] + rest;
      }
  }

  /** No piece of a split contains the separator. */
  lemma {:induction false} SplitPieceIsFree(s: string, sep: string, i: nat)
    requires sep != "" && i < |Split(s, sep)|
    ensures !Contains(Split(s, sep)[i], sep)
    decreases |s|
  {
    if i > 0 {
      var k := Find(s, sep).value;
      var rest := s[k + |sep|..];
      assert Split(s, sep) == [s[..k]] + Split(rest, sep);
      assert Split(s, sep)[i] == Split(rest, sep)[i - 1];
      SplitPieceIsFree(rest, sep, i - 1);
    }
  }

  /** Concatenation is associative (stated once so that proofs need not rediscover it). */
  lemma AppendAssoc<T>(a: seq<T>, b: seq<T>, c: seq<T>)
    ensures (a + b) + c == a + (b + c)
  {
  }

  lemma PrefixOfAppend(a: string, b: string)
    ensures a <= a + b
  {
  }

  lemma PrefixTrans(a: string, b: string, c: string)
    requires a <= b && b <= c
    ensures a <= c
  {
  }

  lemma PrefixPrepend(p: string, a: string, b: string)
    requires a <= b
    ensures p + a <= p + b
  {
  }

  lemma SuffixOfAppend(a: string, b: string)
    ensures |a + b| >= |b| && (a + b)[|a + b| - |b|..] == b
  {
  }

  // ---------------------------------------------------------------------------
  // strip
  // ---------------------------------------------------------------------------

  /** The characters for which Python's `str.isspace()` holds. */
  predicate IsSpace(c: char)
  {
    || ('\t' <= c <= '\r')
    || ('\U{1C}' <= c <= ' ')
    || c == '\U{85}' || c == '\U{A0}' || c == '\U{1680}'
    || ('\U{2000}' <= c <= '\U{200A}')
    || c == '\U{2028}' || c == '\U{2029}' || c == '\U{202F}' || c == '\U{205F}' || c == '\U{3000}'
  }

  /** The first index at or after `k` that does not hold whitespace, or `|s|`. */
  function SpanStart(s: string, k: nat): (i: nat)
    requires k <= |s|
    ensures k <= i <= |s|
    ensures forall m :: k <= m < i ==> IsSpace(s[m])
    ensures i == |s| || !IsSpace(s[i])
    decreases |s| - k
  {
    if k < |s| && IsSpace(s[k]) then SpanStart(s, k + 1) else k
  }

  /** The end of `s[lo..k]` once its trailing whitespace is removed. */
  function SpanEnd(s: string, lo: nat, k: nat): (j: nat)
    requires lo <= k <= |s|
    ensures lo <= j <= k
    ensures forall m :: j <= m < k ==> IsSpace(s[m])
    ensures j == lo || !IsSpace(s[j - 1])
    decreases k
  {
    if lo < k && IsSpace(s[k - 1]) then SpanEnd(s, lo, k - 1) else k
  }

  /**
   * Python's `s.strip()`: the infix of `s` left after removing the whitespace at
   * both ends; everything removed is whitespace and the result neither starts
   * nor ends with whitespace.
   */
  function Strip(s: string): (r: string)
    ensures var i := SpanStart(s, 0);
      i + |r| <= |s| && r == s[i..i + |r|]
      && (forall m :: 0 <= m < i ==> IsSpace(s[m]))
      && (forall m :: i + |r| <= m < |s| ==> IsSpace(s[m]))
    ensures r == "" || (!IsSpace(r[0]) && !IsSpace(r[|r| - 1]))
  {
    var i := SpanStart(s, 0);
    s[i..SpanEnd(s, i, |s|)]
  }

  // ---------------------------------------------------------------------------
  // lower
  // ---------------------------------------------------------------------------

  function LowerChar(c: char): char
  {
    if 'A' <= c <= 'Z' then (c as int + 32) as char else c
  }

  /**
   * Python's `s.lower()` on ASCII letters. Other characters are kept: the only
   * non-ASCII characters whose lower case contains an ASCII letter (the Kelvin
   * sign and the dotted capital I) never complete one of the ASCII keywords the
   * assistant looks for.
   */
  function Lower(s: string): (r: string)
    ensures |r| == |s|
    ensures forall i :: 0 <= i < |s| ==> r[i] == LowerChar(s[i])
  {
    seq(|s|, i requires 0 <= i < |s| => LowerChar(s[i]))
  }

  /** An exact occurrence is also an occurrence once both sides are lower-cased. */
  lemma OccursAtLower(s: string, t: string, k: nat)
    requires OccursAt(s, t, k)
    ensures OccursAt(Lower(s), Lower(t), k)
  {
    var ls, lt := Lower(s), Lower(t);
    forall i | 0 <= i < |t| ensures ls[k..k + |t|][i] == lt[i] {
      assert s[k..k + |t|][i] == t[i];
    }
  }

  /** An exact match survives lower-casing both sides. */
  lemma ContainsLowered(s: string, t: string)
    requires Contains(s, t)
    ensures Contains(Lower(s), Lower(t))
  {
    var k := Find(s, t).value;
    OccursAtLower(s, t, k);
  }

  /** Lower-casing the text keeps every exact match of a lower-case keyword. */
  lemma ContainsLower(s: string, t: string)
    requires Contains(s, t) && Lower(t) == t
    ensures Contains(Lower(s), t)
  {
    var k := Find(s, t).value;
    OccursAtLower(s, t, k);
  }

  // ---------------------------------------------------------------------------
  // padding and repetition
  // ---------------------------------------------------------------------------

  /** Python's `c * n` for one character. */
  function Repeat(c: char, n: nat): (r: string)
    ensures |r| == n && forall i :: 0 <= i < n ==> r[i] == c
  {
    seq(n, _ => c)
  }

  /** Python's `s.ljust(w)`: `s` padded on the right with spaces to at least `w` characters. */
  function LeftJustify(s: string, w: int): (r: string)
    ensures |r| == if |s| < w then w else |s|
    ensures r[..|s|] == s
    ensures forall i :: |s| <= i < |r| ==> r[i] == ' '
  {
    if |s| < w then s + Repeat(' ', w - |s|) else s
  }

  // ---------------------------------------------------------------------------
  // decimal rendering of natural numbers
  // ---------------------------------------------------------------------------

  predicate IsDigit(c: char)
  {
    '0' <= c <= '9'
  }

  predicate AllDigits(s: string)
  {
    forall i :: 0 <= i < |s| ==> IsDigit(s[i])
  }

  function DigitChar(d: nat): (c: char)
    requires d < 10
    ensures IsDigit(c)
  {
    ('0' as int + d) as char
  }

  function DigitValue(c: char): nat
    requires IsDigit(c)
  {
    c as int - '0' as int
  }

  /** The number a string of decimal digits denotes. */
  function DigitsValue(s: string): nat
    requires AllDigits(s)
  {
    if s == "" then 0 else DigitsValue(s[..|s| - 1]) * 10 + DigitValue(s[|s| - 1])
  }

  /** Python's `str(n)` for a natural number: its decimal digits without leading zeros. */
  function Decimal(n: nat): (r: string)
    ensures |r| >= 1 && AllDigits(r)
    ensures r[0] == '0' <==> n == 0
    ensures n == 0 ==> r == "0"
  {
    if n < 10 then [DigitChar(n)] else Decimal(n / 10) + [DigitChar(n % 10)]
  }

  /** Reading back the decimal rendering gives the number. */
  lemma {:induction false} DecimalRoundTrip(n: nat)
    ensures DigitsValue(Decimal(n)) == n
  {
    if n >= 10 {
      DecimalRoundTrip(n / 10);
      var r := Decimal(n);
      assert r[..|r| - 1] == Decimal(n / 10);
    }
  }

  // ---------------------------------------------------------------------------
  // lexicographic order (Python's comparison of strings by code point)
  // ---------------------------------------------------------------------------

  /** Python's `a <= b` on strings. */
  predicate LexLe(a: string, b: string)
  {
    a == "" || (b != "" && (a[0] < b[0] || (a[0] == b[0] && LexLe(a[1..], b[1..]))))
  }

  /** Python's `a < b` on strings. */
  predicate LexLt(a: string, b: string)
  {
    LexLe(a, b) && a != b
  }

  lemma {:induction false} LexLeTotal(a: string, b: string)
    ensures LexLe(a, b) || LexLe(b, a)
  {
    if a != "" && b != "" && a[0] == b[0] {
      LexLeTotal(a[1..], b[1..]);
    }
  }

  lemma {:induction false} LexLeTransitive(a: string, b: string, c: string)
    requires LexLe(a, b) && LexLe(b, c)
    ensures LexLe(a, c)
  {
    if a != "" && a[0] == b[0] && b[0] == c[0] {
      LexLeTransitive(a[1..], b[1..], c[1..]);
    }
  }

  lemma {:induction false} LexLeAntisymmetric(a: string, b: string)
    requires LexLe(a, b) && LexLe(b, a)
    ensures a == b
  {
    if a != "" {
      LexLeAntisymmetric(a[1..], b[1..]);
      assert a == [a[0]] + a[1..] && b == [b[0]] + b[1..];
    }
  }

  /**
   * Comparing two concatenations whose first parts have equal length compares the
   * first parts, and the second parts only when the first parts are equal.
   */
  lemma {:induction false} LexLtConcat(x1: string, y1: string, x2: string, y2: string)
    requires |x1| == |x2|
    ensures LexLt(x1 + y1, x2 + y2) <==> LexLt(x1, x2) || (x1 == x2 && LexLt(y1, y2))
    decreases |x1|
  {
    if x1 == "" {
      assert x1 + y1 == y1 && x2 + y2 == y2;
    } else {
      assert (x1 + y1)[0] == x1[0] && (x2 + y2)[0] == x2[0];
      assert (x1 + y1)[1..] == x1[1..] + y1 && (x2 + y2)[1..] == x2[1..] + y2;
      LexLtConcat(x1[1..], y1, x2[1..], y2);
      assert x1 == [x1[0]] + x1[1..] && x2 == [x2[0]] + x2[1..];
      if x1[0] == x2[0] && x1[1..] + y1 == x2[1..] + y2 {
        assert x1[1..] == (x1[1..] + y1)[..|x1| - 1];
        assert x2[1..] == (x2[1..] + y2)[..|x1| - 1];
      }
    }
  }
}
