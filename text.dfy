/** Character classes, decimal numerals and string search shared by the
    parameter scanner, the route table and the request pipeline. */
module Text {

  datatype Option<+T> = None | Some(value: T)

  predicate IsDigit(c: char) { '0' <= c <= '9' }

  predicate IsNonZeroDigit(c: char) { '1' <= c <= '9' }

  predicate IsHexDigit(c: char) { '0' <= c <= '9' || 'a' <= c <= 'f' || 'A' <= c <= 'F' }

  predicate AllDigits(w: string) { forall m :: 0 <= m < |w| ==> IsDigit(w[m]) }

  predicate AllHexDigits(w: string) { forall m :: 0 <= m < |w| ==> IsHexDigit(w[m]) }

  /** The characters an ECMAScript `.` refuses: the four line terminators. */
  predicate IsLineTerminator(c: char) {
    c == '\n' || c == '\r' || c == '\U{2028}' || c == '\U{2029}'
  }

  /** The characters an ECMAScript `\s` accepts: white space and line terminators. */
  predicate IsJsSpace(c: char) {
    c == '\t' || c == '\U{B}' || c == '\U{C}' || c == ' ' || c == '\U{A0}' || c == '\U{FEFF}'
    || c == '\U{1680}' || ('\U{2000}' <= c <= '\U{200A}') || c == '\U{202F}' || c == '\U{205F}'
    || c == '\U{3000}'
    || IsLineTerminator(c)
  }

  /** ASCII lower-casing; the only folding an ECMAScript `i` regex applies to ASCII
      letters (no non-ASCII character folds onto an ASCII one). */
  function Lower(c: char): (r: char)
    ensures 'A' <= c <= 'Z' ==> r as int == c as int + 32
    ensures !('A' <= c <= 'Z') ==> r == c
  {
    if 'A' <= c <= 'Z' then (c as int + 32) as char else c
  }

  function DigitValue(c: char): (d: nat)
    requires IsDigit(c)
    ensures d < 10
  {
    c as int - '0' as int
  }

  function DigitChar(d: nat): (c: char)
    requires d < 10
    ensures IsDigit(c) && DigitValue(c) == d
  {
    ('0' as int + d) as char
  }

  /** `lit` occurs in `s` at index `i`. */
  predicate StartsAt(s: string, i: nat, lit: string) {
    i + |lit| <= |s| && s[i..i + |lit|] == lit
  }

  /** `lit` occurs in `s` at index `i`, ignoring ASCII case; `lit` is lower-case. */
  predicate StartsAtIgnoringCase(s: string, i: nat, lit: string) {
    i + |lit| <= |s| && forall m :: 0 <= m < |lit| ==> Lower(s[i + m]) == lit[m]
  }

  /** The end of the longest run of decimal digits that starts at `k`. */
  function DigitRunEnd(s: string, k: nat): (e: nat)
    requires k <= |s|
    ensures k <= e <= |s|
    ensures AllDigits(s[k..e])
    ensures e < |s| ==> !IsDigit(s[e])
    decreases |s| - k
  {
    if k < |s| && IsDigit(s[k]) then DigitRunEnd(s, k + 1) else k
  }

  /** `a + b` occurs at `i` exactly when `a` does and `b` follows it. */
  lemma StartsAtConcat(s: string, i: nat, a: string, b: string)
    ensures StartsAt(s, i, a + b) <==> StartsAt(s, i, a) && StartsAt(s, i + |a|, b)
  {
    if StartsAt(s, i, a + b) {
      var w := s[i..i + |a| + |b|];
      assert (a + b)[..|a|] == a && (a + b)[|a|..] == b;
      assert s[i..i + |a|] == w[..|a|];
      assert s[i + |a|..i + |a| + |b|] == w[|a|..];
    }
    if StartsAt(s, i, a) && StartsAt(s, i + |a|, b) {
      assert s[i..i + |a| + |b|] == s[i..i + |a|] + s[i + |a|..i + |a| + |b|];
    }
  }

  /** A slice is the concatenation of its two halves around any midpoint. */
  lemma SliceSplit(s: string, a: nat, b: nat, c: nat)
    requires a <= b <= c <= |s|
    ensures s[a..c] == s[a..b] + s[b..c]
  {
  }

  /** The character at offset `m` of an occurrence of `lit`. */
  lemma StartsAtChar(s: string, i: nat, lit: string, m: nat)
    requires StartsAt(s, i, lit) && m < |lit|
    ensures s[i + m] == lit[m]
  {
    assert s[i + m] == s[i..i + |lit|][m];
  }

  /** The first character of a case-insensitive occurrence of `lit`. */
  lemma IgnoringCaseFirst(s: string, i: nat, lit: string)
    requires StartsAtIgnoringCase(s, i, lit) && 0 < |lit|
    ensures Lower(s[i]) == lit[0]
  {
    var m := 0;
    assert Lower(s[i + m]) == lit[m];
  }

  /** The pieces of a concatenation `a + b + c` found at `i`. */
  lemma StartsAtPieces(s: string, i: nat, a: string, b: string, c: string)
    requires StartsAt(s, i, a + b + c)
    ensures StartsAt(s, i, a) && StartsAt(s, i + |a|, b) && StartsAt(s, i + |a| + |b|, c)
  {
    StartsAtConcat(s, i, a + b, c);
    StartsAtConcat(s, i, a, b);
  }

  /** A run of digits that ends at `e`, where a non-digit or the end of `s` follows,
      is the longest run from `k`. */
  lemma {:induction false} DigitRunEndAt(s: string, k: nat, e: nat)
    requires k <= e <= |s| && AllDigits(s[k..e]) && (e < |s| ==> !IsDigit(s[e]))
    ensures DigitRunEnd(s, k) == e
    decreases e - k
  {
    if k < e {
      assert IsDigit(s[k..e][0]);
      assert forall m :: k <= m < e ==> IsDigit(s[m]) by {
        forall m | k <= m < e ensures IsDigit(s[m]) { assert s[m] == s[k..e][m - k]; }
      }
      DigitRunEndAt(s, k + 1, e);
    }
  }

  /** Every digit run from `k` reaches at least as far as a known run of digits. */
  lemma {:induction false} DigitRunEndAtLeast(s: string, k: nat, e: nat)
    requires k <= e <= |s| && AllDigits(s[k..e])
    ensures e <= DigitRunEnd(s, k)
    decreases e - k
  {
    if k < e {
      assert IsDigit(s[k..e][0]);
      assert forall m :: k <= m < e ==> IsDigit(s[m]) by {
        forall m | k <= m < e ensures IsDigit(s[m]) { assert s[m] == s[k..e][m - k]; }
      }
      DigitRunEndAtLeast(s, k + 1, e);
    }
  }

  /** A numeral followed by a non-digit `c` is the digit run from its start. */
  lemma NumeralBefore(s: string, k: nat, d: string, c: string)
    requires AllDigits(d) && |c| == 1 && !IsDigit(c[0]) && StartsAt(s, k, d) && StartsAt(s, k + |d|, c)
    ensures DigitRunEnd(s, k) == k + |d| && s[k..k + |d|] == d && s[k + |d|] == c[0]
  {
    StartsAtChar(s, k + |d|, c, 0);
    DigitRunEndAt(s, k, k + |d|);
  }

  /** A run of `\s` characters that ends at `e`, where another character or the end
      of `s` follows, is the longest run from `k`. */
  lemma {:induction false} SpaceRunEndAt(s: string, k: nat, e: nat)
    requires k <= e <= |s| && (forall m :: k <= m < e ==> IsJsSpace(s[m])) && (e < |s| ==> !IsJsSpace(s[e]))
    ensures SpaceRunEnd(s, k) == e
    decreases e - k
  {
    if k < e {
      SpaceRunEndAt(s, k + 1, e);
    }
  }

  /** The end of the longest run of `\s` characters that starts at `k`. */
  function SpaceRunEnd(s: string, k: nat): (e: nat)
    requires k <= |s|
    ensures k <= e <= |s|
    ensures e < |s| ==> !IsJsSpace(s[e])
    decreases |s| - k
  {
    if k < |s| && IsJsSpace(s[k]) then SpaceRunEnd(s, k + 1) else k
  }

  /** The number a string of decimal digits denotes (ECMAScript `Number` on it). */
  function DigitsValue(w: string): nat
    requires AllDigits(w)
  {
    if w == [] then 0 else 10 * DigitsValue(w[..|w| - 1]) + DigitValue(w[|w| - 1])
  }

  /** The canonical decimal numeral of `n`: no sign, no leading zero. */
  function Decimal(n: nat): (w: string)
    ensures 1 <= |w|
    ensures AllDigits(w) && DigitsValue(w) == n
    ensures n > 0 ==> IsNonZeroDigit(w[0])
  {
    if n < 10 then [DigitChar(n)]
    else
      var w := Decimal(n / 10) + [DigitChar(n % 10)];
      assert w[..|w| - 1] == Decimal(n / 10);
      w
  }

  /** A run of digits with no superfluous leading zero. */
  predicate IsCanonical(w: string) {
    1 <= |w| && AllDigits(w) && (|w| > 1 ==> w[0] != '0')
  }

  lemma {:induction false} DigitsValueBound(w: string)
    requires AllDigits(w)
    ensures DigitsValue(w) < Pow10(|w|)
    ensures |w| > 0 && w[0] != '0' ==> Pow10(|w| - 1) <= DigitsValue(w)
  {
    if w != [] {
      var u := w[..|w| - 1];
      DigitsValueBound(u);
      if |u| > 0 { assert u[0] == w[0]; }
    }
  }

  function Pow10(n: nat): (p: nat)
    ensures p >= 1
  {
    if n == 0 then 1 else 10 * Pow10(n - 1)
  }

  lemma {:induction false} Pow10Grows(a: nat, b: nat)
    requires a <= b
    ensures Pow10(a) <= Pow10(b)
    decreases b - a
  {
    if a < b { Pow10Grows(a, b - 1); }
  }

  /** Canonical numerals are exactly the images of `Decimal`: reading a canonical
      numeral and printing the number back gives the same text. */
  lemma {:induction false} DecimalOfCanonical(w: string)
    requires IsCanonical(w)
    ensures Decimal(DigitsValue(w)) == w
    decreases |w|
  {
    var n := DigitsValue(w);
    if |w| == 1 {
      assert w[..0] == [] && DigitsValue(w[..0]) == 0;
      assert n == DigitValue(w[0]);
    } else {
      var u := w[..|w| - 1];
      assert u[0] == w[0];
      DigitsValueBound(u);
      assert n / 10 == DigitsValue(u) && n % 10 == DigitValue(w[|w| - 1]);
      DecimalOfCanonical(u);
      assert DigitsValue(u) >= 1;
      assert w == u + [w[|w| - 1]];
    }
  }

  /** Two canonical numerals with the same value are the same text. */
  lemma CanonicalInjective(a: string, b: string)
    requires IsCanonical(a) && IsCanonical(b) && DigitsValue(a) == DigitsValue(b)
    ensures a == b
  {
    DecimalOfCanonical(a);
    DecimalOfCanonical(b);
  }

  lemma DecimalIsCanonical(n: nat)
    ensures IsCanonical(Decimal(n))
  {
  }

  /** The first index at which `pat` occurs in `s` at or after `from`. */
  function IndexOf(s: string, pat: string, from: nat): (r: Option<nat>)
    requires from <= |s|
    ensures r.Some? ==> from <= r.value && StartsAt(s, r.value, pat)
    ensures r.Some? ==> forall m :: from <= m < r.value ==> !StartsAt(s, m, pat)
    ensures r.None? ==> forall m :: from <= m <= |s| ==> !StartsAt(s, m, pat)
    decreases |s| - from
  {
    if StartsAt(s, from, pat) then Some(from)
    else if from == |s| then None
    else IndexOf(s, pat, from + 1)
  }

  /** ECMAScript `s.replace(pat, rep)` with a string pattern: only the first
      occurrence of `pat` is replaced; without one, `s` is returned unchanged. */
  function ReplaceFirst(s: string, pat: string, rep: string): (r: string)
    ensures (forall m :: 0 <= m <= |s| ==> !StartsAt(s, m, pat)) ==> r == s
    ensures forall i :: 0 <= i <= |s| && StartsAt(s, i, pat) && (forall m :: 0 <= m < i ==> !StartsAt(s, m, pat))
                        ==> r == s[..i] + rep + s[i + |pat|..]
  {
    match IndexOf(s, pat, 0)
    case None => s
    case Some(i) => s[..i] + rep + s[i + |pat|..]
  }

  /** Where the pattern's first character does not occur, nothing is replaced. */
  lemma ReplaceFirstAbsent(s: string, pat: string, rep: string)
    requires 1 <= |pat| && pat[0] !in s
    ensures ReplaceFirst(s, pat, rep) == s
  {
    forall m | 0 <= m <= |s| ensures !StartsAt(s, m, pat) {
      if m < |s| {
        assert s[m] in s;
      }
    }
    assert IndexOf(s, pat, 0) == None;
  }

  /** Where the pattern's first character does not occur before it, its first
      occurrence is the one replaced. */
  lemma ReplaceFirstAfter(p: string, pat: string, q: string, rep: string)
    requires 1 <= |pat| && pat[0] !in p
    ensures ReplaceFirst(p + pat + q, pat, rep) == p + rep + q
  {
    var s := p + pat + q;
    assert StartsAt(s, |p|, pat) by {
      assert s[|p|..|p| + |pat|] == pat;
    }
    forall m | 0 <= m < |p| ensures !StartsAt(s, m, pat) {
      assert s[m] == p[m] && p[m] in p;
    }
    assert IndexOf(s, pat, 0) == Some(|p|);
    assert s[..|p|] == p && s[|p| + |pat|..] == q;
  }
}
