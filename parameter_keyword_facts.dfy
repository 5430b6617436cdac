/** What each keyword's pattern accepts and what its callback stores. */
module ParameterKeywordFacts {
  import opened Text
  import opened Parameters
  import opened ParameterScanFacts

  // ---------------------------------------------------------------------------
  // quality(n) and alphaQuality(n)

  /** The numerals `qualityInt` accepts are exactly the canonical numerals of 1..100. */
  lemma QualityTextOfDecimal(n: nat)
    requires 1 <= n <= 100
    ensures IsQualityText(Decimal(n))
  {
    if 10 <= n < 100 {
      assert Decimal(n) == Decimal(n / 10) + [DigitChar(n % 10)];
    } else if n == 100 {
      assert Decimal(10) == [DigitChar(1)] + [DigitChar(0)];
      assert Decimal(100) == Decimal(10) + [DigitChar(0)];
    }
  }

  /** `qualityInt` accepts a canonical numeral exactly when it denotes 1..100. */
  lemma QualityTextIff(n: nat)
    ensures IsQualityText(Decimal(n)) <==> 1 <= n <= 100
  {
    if 1 <= n <= 100 { QualityTextOfDecimal(n); }
    if IsQualityText(Decimal(n)) { QualityTextValue(Decimal(n)); }
  }

  /** A `name(...)` call the pattern accepts is `name(` + the canonical numeral of a
      number in 1..100 + `)`, and the match spans exactly that text. */
  lemma QualityCallSound(s: string, i: nat, name: string)
    requires i <= |s| && QualityCallAt(s, i, name).Some?
    ensures var (len, n) := QualityCallAt(s, i, name).value;
      1 <= n <= 100 && len == |name| + |Decimal(n)| + 2 && StartsAt(s, i, name + "(" + Decimal(n) + ")")
  {
    var k := i + |name| + 1;
    var e := DigitRunEnd(s, k);
    var w := s[k..e];
    assert StartsAt(s, i, name + "(") && e < |s| && s[e] == ')' && IsQualityText(w);
    assert QualityCallAt(s, i, name) == Some((e + 1 - i, DigitsValue(w)));
    DecimalOfCanonical(w);
    CallText(s, i, name + "(", k, e);
  }

  /** `pre`, the text up to `e`, and the `)` at `e`. */
  lemma CallText(s: string, i: nat, pre: string, k: nat, e: nat)
    requires k == i + |pre| <= e < |s| && StartsAt(s, i, pre) && s[e] == ')'
    ensures StartsAt(s, i, pre + s[k..e] + ")")
  {
    assert StartsAt(s, e, ")") by { assert s[e..e + 1] == [s[e]]; }
    StartsAtConcat(s, i, pre, s[k..e]);
    StartsAtConcat(s, i, pre + s[k..e], ")");
  }

  /** Every call `name(n)` with n in 1..100 written canonically is accepted, with n. */
  lemma QualityCallComplete(s: string, i: nat, name: string, n: nat)
    requires 1 <= n <= 100 && StartsAt(s, i, name + "(" + Decimal(n) + ")")
    ensures QualityCallAt(s, i, name) == Some((|name| + |Decimal(n)| + 2, n))
  {
    NumeralCall(s, i, name, n);
    QualityTextIff(n);
    QualityCallOfNumeral(s, i, name, n);
  }

  /** `name(` + the numeral of `n` + `)` is accepted, with the value `n`. */
  lemma QualityCallOfNumeral(s: string, i: nat, name: string, n: nat)
    requires IsQualityText(Decimal(n)) && StartsAt(s, i, name + "(") && StartsAt(s, i + |name| + 1, Decimal(n))
    requires StartsAt(s, i + |name| + 1 + |Decimal(n)|, ")")
    ensures QualityCallAt(s, i, name) == Some((|name| + |Decimal(n)| + 2, n))
  {
    QualityCallOfText(s, i, name, Decimal(n));
  }

  /** `name(` + the numeral of `n` + `)`, piece by piece. */
  lemma NumeralCall(s: string, i: nat, name: string, n: nat)
    requires StartsAt(s, i, name + "(" + Decimal(n) + ")")
    ensures StartsAt(s, i, name + "(") && StartsAt(s, i + |name| + 1, Decimal(n))
    ensures StartsAt(s, i + |name| + 1 + |Decimal(n)|, ")")
  {
    StartsAtPieces(s, i, name + "(", Decimal(n), ")");
  }

  /** `name(` + a `qualityInt` text + `)` is accepted, with the text's value. */
  lemma QualityCallOfText(s: string, i: nat, name: string, d: string)
    requires IsQualityText(d) && AllDigits(d)
    requires StartsAt(s, i, name + "(") && StartsAt(s, i + |name| + 1, d) && StartsAt(s, i + |name| + 1 + |d|, ")")
    ensures QualityCallAt(s, i, name) == Some((|name| + |d| + 2, DigitsValue(d)))
  {
    QualityPieces(s, i, name, d);
    QualityCallClosed(s, i, name, d);
  }

  /** The digits of the argument run up to the closing `)`. */
  lemma QualityPieces(s: string, i: nat, name: string, d: string)
    requires AllDigits(d)
    requires StartsAt(s, i + |name| + 1, d) && StartsAt(s, i + |name| + 1 + |d|, ")")
    ensures i + |name| + 1 + |d| < |s| && DigitRunEnd(s, i + |name| + 1) == i + |name| + 1 + |d|
    ensures s[i + |name| + 1 + |d|] == ')' && s[i + |name| + 1..i + |name| + 1 + |d|] == d
  {
    NumeralBefore(s, i + |name| + 1, d, ")");
  }

  /** A `qualityInt` digit run closed by `)` after `name(` is accepted. */
  lemma QualityCallClosed(s: string, i: nat, name: string, d: string)
    requires StartsAt(s, i, name + "(") && i + |name| + 1 + |d| < |s| && IsQualityText(d)
    requires DigitRunEnd(s, i + |name| + 1) == i + |name| + 1 + |d| && s[i + |name| + 1 + |d|] == ')'
    requires s[i + |name| + 1..i + |name| + 1 + |d|] == d
    ensures QualityCallAt(s, i, name) == Some((|name| + |d| + 2, DigitsValue(d)))
  {
  }

  /** A call whose argument is a numeral of 0 or of a number above 100 is refused. */
  lemma QualityCallRejects(s: string, i: nat, name: string, n: nat)
    requires (n == 0 || n > 100) && StartsAt(s, i, name + "(" + Decimal(n) + ")")
    ensures QualityCallAt(s, i, name).None?
  {
    NumeralCall(s, i, name, n);
    QualityTextIff(n);
    QualityPieces(s, i, name, Decimal(n));
    QualityCallOpen(s, i, name, Decimal(n));
  }

  /** A digit run closed by `)` after `name(` that is not a `qualityInt` is refused. */
  lemma QualityCallOpen(s: string, i: nat, name: string, d: string)
    requires StartsAt(s, i, name + "(") && i + |name| + 1 + |d| < |s| && !IsQualityText(d)
    requires DigitRunEnd(s, i + |name| + 1) == i + |name| + 1 + |d|
    requires s[i + |name| + 1..i + |name| + 1 + |d|] == d
    ensures QualityCallAt(s, i, name).None?
  {
  }

  // ---------------------------------------------------------------------------
  // progressive

  /** `progressive` is set exactly when the word occurs in the segment. */
  lemma ProgressiveSetIffOccurs(s: string)
    ensures Parsed(s).progressive.Some? <==> exists i :: 0 <= i < |s| && StartsAt(s, i, "progressive")
  {
    var p := Parsed(s);
    FieldSetIffMatch(s, ProgressiveKey);
    assert p.Field(ProgressiveKey).Some? == p.progressive.Some?;
    if p.progressive.Some? {
      var i :| 0 <= i < |s| && MatchAt(ProgressiveKey, s, i).Some?;
      assert MatchAt(ProgressiveKey, s, i) == ProgressiveAt(s, i);
    } else {
      forall i | 0 <= i < |s| ensures !StartsAt(s, i, "progressive") {
        assert MatchAt(ProgressiveKey, s, i) == ProgressiveAt(s, i);
      }
    }
  }

  /** A `progressive` match stores `false` exactly for the arguments `(0)` and
      `(false)`; the bare word and any other text after it store `true`. */
  lemma ProgressiveArgument(s: string, i: nat)
    requires i <= |s| && ProgressiveAt(s, i).Some?
    ensures !ProgressiveAt(s, i).value.token.progressive
            <==> StartsAt(s, i, "progressive(0)") || StartsAt(s, i, "progressive(false)")
  {
    StartsAtConcat(s, i, "progressive", "(0)");
    StartsAtConcat(s, i, "progressive", "(false)");
    assert "progressive" + "(0)" == "progressive(0)";
    assert "progressive" + "(false)" == "progressive(false)";
    var j := i + 11;
    if StartsAt(s, j, "(1)") { StartsAtChar(s, j, "(1)", 1); }
    if StartsAt(s, j, "(true)") { StartsAtChar(s, j, "(true)", 1); }
    if StartsAt(s, j, "(0)") { StartsAtChar(s, j, "(0)", 1); }
    if StartsAt(s, j, "(false)") { StartsAtChar(s, j, "(false)", 1); }
  }

  // ---------------------------------------------------------------------------
  // format

  /** One of the four format words, in any ASCII case, at `i`. */
  predicate FormatWordAt(s: string, i: nat) {
    StartsAtIgnoringCase(s, i, "svg") || StartsAtIgnoringCase(s, i, "jpeg")
    || StartsAtIgnoringCase(s, i, "webp") || StartsAtIgnoringCase(s, i, "png")
  }

  /** A format word in any case at `i` is matched whole and mapped through the
      `formats` table. */
  lemma FormatAtWord(s: string, i: nat, w: string)
    requires i <= |s| && w in {"svg", "jpeg", "webp", "png"} && StartsAtIgnoringCase(s, i, w)
    ensures FormatAt(s, i) == Some(Hit(|w|, FormatTok(FormatOf(w).value)))
  {
    IgnoringCaseFirst(s, i, w);
    if StartsAtIgnoringCase(s, i, "svg") { IgnoringCaseFirst(s, i, "svg"); }
    if StartsAtIgnoringCase(s, i, "jpeg") { IgnoringCaseFirst(s, i, "jpeg"); }
    if StartsAtIgnoringCase(s, i, "webp") { IgnoringCaseFirst(s, i, "webp"); }
  }

  /** `format` is set exactly when a format word occurs, in any case. */
  lemma FormatSetIffWord(s: string)
    ensures Parsed(s).format.Some? <==> exists i :: 0 <= i < |s| && FormatWordAt(s, i)
  {
    FieldSetIffMatch(s, FormatKey);
    assert forall i :: 0 <= i < |s| ==> (MatchAt(FormatKey, s, i).Some? <==> FormatWordAt(s, i));
  }

  // ---------------------------------------------------------------------------
  // blur

  /** `blur` is set exactly when the word occurs in the segment. */
  lemma BlurSetIffOccurs(s: string)
    ensures Parsed(s).blur.Some? <==> exists i :: 0 <= i < |s| && StartsAt(s, i, "blur")
  {
    FieldSetIffMatch(s, BlurKey);
    assert forall i :: 0 <= i < |s| ==> (MatchAt(BlurKey, s, i).Some? <==> StartsAt(s, i, "blur"));
  }

  /** A numeric sigma is stored only from a `blur(...)` call whose argument is in the
      `blurSigma` language, and the match spans the whole call. */
  lemma BlurSigmaSound(s: string, i: nat)
    requires i <= |s| && BlurAt(s, i).Some? && BlurAt(s, i).value.token.blur.BlurSigma?
    ensures var w := BlurAt(s, i).value.token.blur.text;
      IsSigmaText(w) && BlurAt(s, i).value.len == |w| + 6 && StartsAt(s, i, "blur(" + w + ")")
  {
    var w := BlurAt(s, i).value.token.blur.text;
    StartsAtConcat(s, i, "blur", "(");
    StartsAtConcat(s, i, "blur(", w);
    StartsAtConcat(s, i, "blur(" + w, ")");
  }

  /** `blur(n)` for a canonical numeral n >= 1 stores n's text when n <= 1000 and
      otherwise matches `blur` alone, which stores the automatic sigma. */
  lemma BlurOfNumeral(s: string, i: nat, n: nat)
    requires 1 <= n && StartsAt(s, i, "blur(" + Decimal(n) + ")")
    ensures BlurAt(s, i) == Some(if n <= 1000 then Hit(|Decimal(n)| + 6, BlurTok(BlurSigma(Decimal(n))))
                                 else Hit(4, BlurTok(BlurAuto)))
  {
    BlurCallPieces(s, i, Decimal(n));
    SigmaOfNumeral(s, i + 5, n);
    BlurWithSigma(s, i, n);
  }

  /** `blur(` + `d` + `)`, piece by piece. */
  lemma BlurCallPieces(s: string, i: nat, d: string)
    requires StartsAt(s, i, "blur(" + d + ")")
    ensures StartsAt(s, i, "blur") && i + 4 < |s| && s[i + 4] == '('
    ensures StartsAt(s, i + 5, d) && i + 5 + |d| < |s| && s[i + 5 + |d|] == ')'
  {
    StartsAtPieces(s, i, "blur(", d, ")");
    StartsAtConcat(s, i, "blur", "(");
    StartsAtChar(s, i + 4, "(", 0);
    StartsAtChar(s, i + 5 + |d|, ")", 0);
  }

  /** The numeral of n >= 1 before `)` is a sigma exactly when n <= 1000. */
  lemma SigmaOfNumeral(s: string, k: nat, n: nat)
    requires 1 <= n && StartsAt(s, k, Decimal(n)) && k + |Decimal(n)| < |s| && s[k + |Decimal(n)|] == ')'
    ensures SigmaAt(s, k) == if n <= 1000 then Some(|Decimal(n)|) else None
  {
    NumeralAtMost1000(n);
    if |Decimal(n)| <= 3 {
      SigmaOfShortDigits(s, k, Decimal(n));
    } else {
      SigmaOfLongDigits(s, k, Decimal(n));
    }
  }

  /** `blur(` followed by what the sigma recognizer found for the numeral of `n`. */
  lemma BlurWithSigma(s: string, i: nat, n: nat)
    requires StartsAt(s, i, "blur") && i + 4 < |s| && s[i + 4] == '('
    requires StartsAt(s, i + 5, Decimal(n)) && i + 5 + |Decimal(n)| < |s|
    requires SigmaAt(s, i + 5) == if n <= 1000 then Some(|Decimal(n)|) else None
    ensures BlurAt(s, i) == Some(if n <= 1000 then Hit(|Decimal(n)| + 6, BlurTok(BlurSigma(Decimal(n))))
                                 else Hit(4, BlurTok(BlurAuto)))
  {
  }

  /** A canonical numeral of n >= 1 denotes at most 1000 exactly when it has at
      most three digits or is `1000`. */
  lemma NumeralAtMost1000(n: nat)
    requires 1 <= n
    ensures n <= 1000 <==> |Decimal(n)| <= 3 || Decimal(n) == "1000"
  {
    var d := Decimal(n);
    DigitsValueBound(d);
    assert Pow10(3) == 1000;
    DigitsValueOf1000();
    if |d| == 4 && n <= 1000 {
      DecimalOfCanonical("1000");
    }
    if |d| > 4 {
      Pow10Grows(3, |d| - 1);
    }
  }

  lemma SigmaOfShortDigits(s: string, k: nat, d: string)
    requires 1 <= |d| <= 3 && AllDigits(d) && d[0] != '0'
    requires StartsAt(s, k, d) && k + |d| < |s| && s[k + |d|] == ')'
    ensures SigmaAt(s, k) == Some(|d|)
  {
    assert forall m :: 0 <= m < |d| ==> s[k + m] == d[m] by {
      forall m | 0 <= m < |d| ensures s[k + m] == d[m] { StartsAtChar(s, k, d, m); }
    }
    if |d| == 1 && k + 3 < |s| {
      assert s[k..k + 3][1] == s[k + 1];
    }
    if |d| == 1 && k + 2 < |s| {
      assert s[k..k + 2][1] == s[k + 1];
    }
    if |d| == 2 && k + 3 < |s| {
      assert s[k..k + 3][2] == s[k + 2];
    }
  }

  lemma SigmaOfLongDigits(s: string, k: nat, d: string)
    requires 4 <= |d| && AllDigits(d) && d[0] != '0'
    requires StartsAt(s, k, d) && k + |d| < |s| && s[k + |d|] == ')'
    ensures SigmaAt(s, k) == if d == "1000" then Some(4) else None
  {
    assert forall m :: 0 <= m < |d| ==> s[k + m] == d[m] by {
      forall m | 0 <= m < |d| ensures s[k + m] == d[m] { StartsAtChar(s, k, d, m); }
    }
    if |d| == 4 {
      assert s[k..k + 4] == d;
    }
  }

  lemma DigitsValueOf1000()
    ensures DigitsValue("1000") == 1000
  {
    assert "1000"[..3] == "100" && "100"[..2] == "10" && "10"[..1] == "1" && "1"[..0] == "";
  }

  /** `blur(.d)` and `blur(0.d)`: a sigma of a tenth is stored only for d >= 3 (the
      pattern's `[3-9]`); below that the match is `blur` alone. */
  lemma BlurOfTenths(s: string, i: nat, lead: string, c: char)
    requires lead in {"", "0"} && IsDigit(c) && StartsAt(s, i, "blur(" + lead + "." + [c] + ")")
    ensures BlurAt(s, i) == Some(if '3' <= c then Hit(|lead| + 8, BlurTok(BlurSigma(lead + "." + [c])))
                                 else Hit(4, BlurTok(BlurAuto)))
  {
    var w := lead + "." + [c];
    StartsAtPieces(s, i, "blur(", w, ")");
    StartsAtConcat(s, i, "blur", "(");
    StartsAtChar(s, i + 4, "(", 0);
    StartsAtChar(s, i + 5 + |w|, ")", 0);
    SigmaOfTenths(s, i + 5, lead, c);
  }

  lemma SigmaOfTenths(s: string, k: nat, lead: string, c: char)
    requires lead in {"", "0"} && IsDigit(c) && StartsAt(s, k, lead + "." + [c])
    requires k + |lead| + 2 < |s| && s[k + |lead| + 2] == ')'
    ensures SigmaAt(s, k) == if '3' <= c then Some(|lead| + 2) else None
  {
    var w := lead + "." + [c];
    StartsAtChar(s, k, w, 0);
    StartsAtChar(s, k, w, 1);
    if lead == "0" {
      StartsAtChar(s, k, w, 2);
      assert !AllDigits(s[k..k + 3]) by { assert s[k..k + 3][1] == '.'; }
      assert !AllDigits(s[k..k + 2]) by { assert s[k..k + 2][1] == '.'; }
    } else {
      assert !AllDigits(s[k..k + 2]) by { assert s[k..k + 2][0] == '.'; }
      if k + 3 < |s| {
        assert !AllDigits(s[k..k + 3]) by { assert s[k..k + 3][0] == '.'; }
      }
    }
    if k + 4 < |s| {
      assert s[k..k + 4] != "1000" by { assert s[k..k + 4][|lead|] == '.'; }
    }
  }

  /** The one place where a sigma text before `)` is not what the sigma recognizer
      takes: the argument `0` followed by `)d)` for a digit d from 3 to 9, where the
      first alternative `0?.[3-9]` reads `0)d`, its `.` taking the `)`. */
  predicate ZeroTakesTenth(s: string, k: nat, w: string) {
    w == "0" && k + 3 < |s| && '3' <= s[k + 2] <= '9' && s[k + 3] == ')'
  }

  /** Every sigma text followed by `)` is recognized whole, except in the case
      `ZeroTakesTenth`, where the recognizer takes three characters. */
  lemma SigmaOfText(s: string, k: nat, w: string)
    requires IsSigmaText(w) && StartsAt(s, k, w) && k + |w| < |s| && s[k + |w|] == ')'
    ensures SigmaAt(s, k) == Some(if ZeroTakesTenth(s, k, w) then 3 else |w|)
  {
    assert forall m :: 0 <= m < |w| ==> s[k + m] == w[m] by {
      forall m | 0 <= m < |w| ensures s[k + m] == w[m] { StartsAtChar(s, k, w, m); }
    }
    if |w| == 1 {
      SigmaOfOneChar(s, k, w);
    } else if |w| == 2 {
      SigmaOfTwoChars(s, k, w);
    } else if |w| == 3 {
      SigmaOfThreeChars(s, k, w);
    } else {
      assert s[k..k + 4] == w;
    }
  }

  lemma SigmaOfOneChar(s: string, k: nat, w: string)
    requires |w| == 1 && IsDigit(w[0]) && k + 1 < |s| && s[k] == w[0] && s[k + 1] == ')'
    ensures SigmaAt(s, k) == Some(if ZeroTakesTenth(s, k, w) then 3 else 1)
  {
    assert w == "0" <==> w[0] == '0';
    if k + 3 < |s| {
      assert !AllDigits(s[k..k + 3]) by { assert s[k..k + 3][1] == ')'; }
    }
    if k + 2 < |s| {
      assert !AllDigits(s[k..k + 2]) by { assert s[k..k + 2][1] == ')'; }
    }
  }

  lemma SigmaOfTwoChars(s: string, k: nat, w: string)
    requires |w| == 2 && IsSigmaText(w) && k + 2 < |s| && s[k] == w[0] && s[k + 1] == w[1] && s[k + 2] == ')'
    ensures SigmaAt(s, k) == Some(2) && !ZeroTakesTenth(s, k, w)
  {
    if !('3' <= w[1] <= '9') {
      assert s[k..k + 2] == w;
      if k + 3 < |s| {
        assert !AllDigits(s[k..k + 3]) by { assert s[k..k + 3][2] == ')'; }
      }
    }
  }

  lemma SigmaOfThreeChars(s: string, k: nat, w: string)
    requires |w| == 3 && IsSigmaText(w) && k + 3 < |s| && s[k + 3] == ')'
    requires s[k] == w[0] && s[k + 1] == w[1] && s[k + 2] == w[2]
    ensures SigmaAt(s, k) == Some(3) && !ZeroTakesTenth(s, k, w)
  {
    assert s[k..k + 3] == w;
  }

  /** `blur(w)` for every sigma text w stores w, except in the case `ZeroTakesTenth`,
      where it stores the three characters `0)d`. */
  lemma BlurOfSigmaText(s: string, i: nat, w: string)
    requires IsSigmaText(w) && StartsAt(s, i, "blur(" + w + ")")
    ensures BlurAt(s, i) == Some(if ZeroTakesTenth(s, i + 5, w) then Hit(9, BlurTok(BlurSigma(s[i + 5..i + 8])))
                                 else Hit(|w| + 6, BlurTok(BlurSigma(w))))
    ensures ZeroTakesTenth(s, i + 5, w) ==> s[i + 5..i + 8] == "0)" + [s[i + 7]]
  {
    BlurCallPieces(s, i, w);
    SigmaOfText(s, i + 5, w);
    if ZeroTakesTenth(s, i + 5, w) {
      StartsAtChar(s, i + 5, w, 0);
      assert s[i + 5..i + 8] == "0)" + [s[i + 7]];
    }
  }

  // ---------------------------------------------------------------------------
  // rotate

  /** Appending the next piece of a slice. */
  lemma SliceExtend(s: string, a: nat, b: nat, x: string, y: string)
    requires a <= b && b + |y| <= |s| && s[a..b] == x && s[b..b + |y|] == y
    ensures s[a..b + |y|] == x + y
  {
    SliceSplit(s, a, b, b + |y|);
  }

  /** An `rgb(...)` text cut at its delimiters. */
  lemma RgbSlices(s: string, k: nat, e1: nat, e2: nat, e3: nat)
    requires k + 4 < e1 < e2 < e3 <= |s| && StartsAt(s, k, "rgb(")
    requires s[e1 - 1] == ',' && s[e2 - 1] == ',' && s[e3 - 1] == ')'
    ensures s[k..e3] == RgbText(s[k + 4..e1 - 1], s[e1..e2 - 1], s[e2..e3 - 1])
  {
    var r, g, b := s[k + 4..e1 - 1], s[e1..e2 - 1], s[e2..e3 - 1];
    SliceExtend(s, k, k + 4, "rgb(", r);
    SliceExtend(s, k, e1 - 1, "rgb(" + r, ",");
    SliceExtend(s, k, e1, "rgb(" + r + ",", g);
    SliceExtend(s, k, e2 - 1, "rgb(" + r + "," + g, ",");
    SliceExtend(s, k, e2, "rgb(" + r + "," + g + ",", b);
    SliceExtend(s, k, e3 - 1, "rgb(" + r + "," + g + "," + b, ")");
  }

  /** Three `colorInt` texts, each closed by its delimiter, after `rgb(`. */
  lemma RgbPieces(s: string, k: nat, e1: nat, e2: nat, e3: nat)
    requires k + 4 < e1 < e2 < e3 <= |s| && StartsAt(s, k, "rgb(")
    requires s[e1 - 1] == ',' && s[e2 - 1] == ',' && s[e3 - 1] == ')'
    requires IsColorIntText(s[k + 4..e1 - 1]) && IsColorIntText(s[e1..e2 - 1]) && IsColorIntText(s[e2..e3 - 1])
    ensures IsRgbText(s[k..e3])
  {
    RgbSlices(s, k, e1, e2, e3);
  }

  /** A recognized `colorInt` is in the `colorInt` language and closed by the
      expected delimiter. */
  lemma ColorIntThenSound(s: string, k: nat, sep: char, e: nat)
    requires k <= |s| && ColorIntThen(s, k, sep) == Some(e)
    ensures k < e <= |s| && IsColorIntText(s[k..e - 1]) && s[e - 1] == sep
  {
  }

  /** A recognized `colorAlpha` is in its language and closed by `)`. */
  lemma AlphaThenSound(s: string, k: nat, e: nat)
    requires k <= |s| && AlphaThen(s, k) == Some(e)
    ensures k < e <= |s| && IsAlphaText(s[k..e - 1]) && s[e - 1] == ')'
  {
    assert s[k..e - 1] == s[k..e][..e - 1 - k];
  }

  /** `rgb(...)` as recognized is in the `rgb` language. */
  lemma RgbAtSound(s: string, k: nat)
    requires k <= |s| && RgbAt(s, k).Some?
    ensures IsRgbText(s[k..RgbAt(s, k).value])
  {
    assert StartsAt(s, k, "rgb(") && ColorIntThen(s, k + 4, ',').Some?;
    var e1 := ColorIntThen(s, k + 4, ',').value;
    assert ColorIntThen(s, e1, ',').Some?;
    var e2 := ColorIntThen(s, e1, ',').value;
    assert ColorIntThen(s, e2, ')').Some?;
    var e3 := ColorIntThen(s, e2, ')').value;
    assert RgbAt(s, k) == Some(e3);
    ColorIntThenSound(s, k + 4, ',', e1);
    ColorIntThenSound(s, e1, ',', e2);
    ColorIntThenSound(s, e2, ')', e3);
    RgbPieces(s, k, e1, e2, e3);
  }

  /** An `rgba(...)` text cut at its delimiters. */
  lemma RgbaSlices(s: string, k: nat, e1: nat, e2: nat, e3: nat, e4: nat)
    requires k + 5 < e1 < e2 < e3 < e4 <= |s| && StartsAt(s, k, "rgba(")
    requires s[e1 - 1] == ',' && s[e2 - 1] == ',' && s[e3 - 1] == ',' && s[e4 - 1] == ')'
    ensures s[k..e4] == RgbaText(s[k + 5..e1 - 1], s[e1..e2 - 1], s[e2..e3 - 1], s[e3..e4 - 1])
  {
    var r, g, b, a := s[k + 5..e1 - 1], s[e1..e2 - 1], s[e2..e3 - 1], s[e3..e4 - 1];
    SliceExtend(s, k, k + 5, "rgba(", r);
    SliceExtend(s, k, e1 - 1, "rgba(" + r, ",");
    SliceExtend(s, k, e1, "rgba(" + r + ",", g);
    SliceExtend(s, k, e2 - 1, "rgba(" + r + "," + g, ",");
    SliceExtend(s, k, e2, "rgba(" + r + "," + g + ",", b);
    SliceExtend(s, k, e3 - 1, "rgba(" + r + "," + g + "," + b, ",");
    SliceExtend(s, k, e3, "rgba(" + r + "," + g + "," + b + ",", a);
    SliceExtend(s, k, e4 - 1, "rgba(" + r + "," + g + "," + b + "," + a, ")");
  }

  /** Three `colorInt` texts and a `colorAlpha`, each closed by its delimiter, after
      `rgba(`. */
  lemma RgbaPieces(s: string, k: nat, e1: nat, e2: nat, e3: nat, e4: nat)
    requires k + 5 < e1 < e2 < e3 < e4 <= |s| && StartsAt(s, k, "rgba(")
    requires s[e1 - 1] == ',' && s[e2 - 1] == ',' && s[e3 - 1] == ',' && s[e4 - 1] == ')'
    requires IsColorIntText(s[k + 5..e1 - 1]) && IsColorIntText(s[e1..e2 - 1]) && IsColorIntText(s[e2..e3 - 1])
    requires IsAlphaText(s[e3..e4 - 1])
    ensures IsRgbaText(s[k..e4])
  {
    RgbaSlices(s, k, e1, e2, e3, e4);
  }

  /** `rgba(...)` as recognized is in the `rgba` language. */
  lemma RgbaAtSound(s: string, k: nat)
    requires k <= |s| && RgbaAt(s, k).Some?
    ensures IsRgbaText(s[k..RgbaAt(s, k).value])
  {
    var e1, e2, e3, e4 := RgbaAtEnds(s, k);
    RgbaPieces(s, k, e1, e2, e3, e4);
  }

  /** Where the pieces of a recognized `rgba(...)` end, and what each piece is. */
  lemma RgbaAtEnds(s: string, k: nat) returns (e1: nat, e2: nat, e3: nat, e4: nat)
    requires k <= |s| && RgbaAt(s, k).Some?
    ensures k + 5 < e1 < e2 < e3 < e4 <= |s| && StartsAt(s, k, "rgba(") && RgbaAt(s, k) == Some(e4)
    ensures s[e1 - 1] == ',' && s[e2 - 1] == ',' && s[e3 - 1] == ',' && s[e4 - 1] == ')'
    ensures IsColorIntText(s[k + 5..e1 - 1]) && IsColorIntText(s[e1..e2 - 1]) && IsColorIntText(s[e2..e3 - 1])
    ensures IsAlphaText(s[e3..e4 - 1])
  {
    e1 := ColorIntThen(s, k + 5, ',').value;
    e2 := ColorIntThen(s, e1, ',').value;
    e3 := ColorIntThen(s, e2, ',').value;
    e4 := AlphaThen(s, e3).value;
    ColorIntThenSound(s, k + 5, ',', e1);
    ColorIntThenSound(s, e1, ',', e2);
    ColorIntThenSound(s, e2, ',', e3);
    AlphaThenSound(s, e3, e4);
  }

  /** `#` and three or six hexadecimal digits. */
  lemma HexPieces(s: string, k: nat, n: nat)
    requires n in {3, 6} && k <= |s| && HexEnd(s, k, n).Some?
    ensures IsHexColorText(s[k..k + 1 + n])
  {
    assert s[k..k + 1 + n][1..] == s[k + 1..k + 1 + n];
  }

  /** Each alternative recognizes only texts of the `color` language. */
  lemma FormEndSound(form: ColorForm, s: string, k: nat)
    requires k <= |s| && FormEnd(form, s, k).Some?
    ensures IsColorText(s[k..FormEnd(form, s, k).value])
  {
    match form
    case ShortHex => HexPieces(s, k, 3);
    case LongHex => HexPieces(s, k, 6);
    case RgbForm => RgbAtSound(s, k);
    case RgbaForm => RgbaAtSound(s, k);
  }

  /** What the alternatives yield is what one of them, `f`, recognized. */
  lemma {:induction false} FirstColorFrom(s: string, k: nat, forms: seq<ColorForm>) returns (f: ColorForm)
    requires k <= |s| && FirstColor(s, k, forms).Some?
    ensures f in forms && FormEnd(f, s, k) == Some(k + FirstColor(s, k, forms).value)
    decreases |forms|
  {
    if FirstWins(s, k, forms) {
      FirstColorStep(s, k, forms);
      f := forms[0];
    } else {
      FirstColorStep(s, k, forms);
      f := FirstColorFrom(s, k, forms[1..]);
    }
  }

  /** One step of the alternation: the first form wins, or the rest are tried. */
  lemma FirstColorStep(s: string, k: nat, forms: seq<ColorForm>)
    requires k <= |s| && forms != []
    ensures FirstWins(s, k, forms) ==> FormEnd(forms[0], s, k) == Some(k + FirstColor(s, k, forms).value)
    ensures !FirstWins(s, k, forms) ==> FirstColor(s, k, forms) == FirstColor(s, k, forms[1..])
  {
  }

  /** Whatever the colour recognizer accepts is in the `color` language. */
  lemma ColorAtSound(s: string, k: nat)
    requires k <= |s| && ColorAt(s, k).Some?
    ensures IsColorText(s[k..k + ColorAt(s, k).value])
  {
    var f := FirstColorFrom(s, k, ColorForms);
    FormEndSound(f, s, k);
  }

  /** A rotation stores a background only when a colour follows the comma, and then
      the colour's text, which is in the `color` language. */
  lemma RotateBackgroundSound(s: string, i: nat)
    requires i <= |s| && RotateAt(s, i).Some? && RotateAt(s, i).value.token.rotate.background.Some?
    ensures IsColorText(RotateAt(s, i).value.token.rotate.background.value)
  {
    var angle := AngleAt(s, i).value;
    TailBackgroundSound(s, i, angle.end, angle.value);
  }

  lemma TailBackgroundSound(s: string, i: nat, e: nat, angle: int)
    requires i < e < |s| && RotateTail(s, i, e, angle).Some?
    requires RotateTail(s, i, e, angle).value.token.rotate.background.Some?
    ensures IsColorText(RotateTail(s, i, e, angle).value.token.rotate.background.value)
  {
    var k := SpaceRunEnd(s, e + 1);
    BackgroundAfterComma(s, i, e, angle);
    CommaTail(s, i, e, angle, k);
    ColorTailBackground(s, i, k, ColorAt(s, k), angle);
    ColorAtSound(s, k);
  }

  /** Only the colour group after a comma stores a background. */
  lemma BackgroundAfterComma(s: string, i: nat, e: nat, angle: int)
    requires i < e < |s| && RotateTail(s, i, e, angle).Some?
    requires RotateTail(s, i, e, angle).value.token.rotate.background.Some?
    ensures s[e] == ','
  {
  }

  /** The colour group stores the text of the colour found at `k`. */
  lemma ColorTailBackground(s: string, i: nat, k: nat, color: Option<nat>, angle: int)
    requires i < k <= |s| && (color.Some? ==> k + color.value < |s|) && ColorTail(s, i, k, color, angle).Some?
    ensures color.Some? && ColorTail(s, i, k, color, angle).value.token.rotate.background == Some(s[k..k + color.value])
  {
  }

  /** The sign written before the angle. */
  function Sign(negative: bool): string {
    if negative then "-" else ""
  }

  /** `Number` of a signed numeral. */
  function Signed(negative: bool, n: nat): int {
    if negative then -(n as int) else n
  }

  lemma NumeralBelow1000(n: nat)
    requires n <= 999
    ensures |Decimal(n)| <= 3
  {
    if n >= 1 {
      NumeralAtMost1000(n);
      DigitsValueOf1000();
    }
  }

  /** `rotate(` + sign + a numeral of at most three digits, followed by a non-digit,
      reads as that signed angle, ending after the numeral. */
  lemma AngleOfNumeral(s: string, i: nat, negative: bool, d: string)
    requires IsCanonical(d) && |d| <= 3 && StartsAt(s, i, "rotate(" + Sign(negative) + d)
    requires i + 7 + |Sign(negative)| + |d| < |s| && !IsDigit(s[i + 7 + |Sign(negative)| + |d|])
    ensures AngleAt(s, i) == Some(Angle(i + 7 + |Sign(negative)| + |d|, Signed(negative, DigitsValue(d))))
  {
    NumeralPieces(s, i, negative, d);
    AngleOfPieces(s, i, negative, d);
  }

  /** Where the digits of a `rotate(` + sign + numeral text begin, and that they form
      the whole digit run. */
  lemma NumeralPieces(s: string, i: nat, negative: bool, d: string)
    requires IsCanonical(d) && StartsAt(s, i, "rotate(" + Sign(negative) + d)
    requires i + 7 + |Sign(negative)| + |d| < |s| && !IsDigit(s[i + 7 + |Sign(negative)| + |d|])
    ensures StartsAt(s, i, "rotate(")
    ensures (i + 7 < |s| && s[i + 7] == '-') == negative
    ensures DigitRunEnd(s, i + 7 + |Sign(negative)|) == i + 7 + |Sign(negative)| + |d|
    ensures s[i + 7 + |Sign(negative)|..i + 7 + |Sign(negative)| + |d|] == d
  {
    var k := i + 7 + |Sign(negative)|;
    StartsAtPieces(s, i, "rotate(", Sign(negative), d);
    if negative {
      StartsAtChar(s, i + 7, "-", 0);
    } else {
      StartsAtChar(s, k, d, 0);
    }
    DigitRunEndAt(s, k, k + |d|);
  }

  lemma AngleOfPieces(s: string, i: nat, negative: bool, d: string)
    requires 1 <= |d| <= 3
    requires StartsAt(s, i, "rotate(")
    requires (i + 7 < |s| && s[i + 7] == '-') == negative
    requires DigitRunEnd(s, i + 7 + |Sign(negative)|) == i + 7 + |Sign(negative)| + |d|
    requires s[i + 7 + |Sign(negative)|..i + 7 + |Sign(negative)| + |d|] == d
    requires i + 7 + |Sign(negative)| + |d| < |s|
    ensures AngleAt(s, i) == Some(Angle(i + 7 + |Sign(negative)| + |d|, Signed(negative, DigitsValue(d))))
  {
    var a := i + 7;
    var p := if a < |s| && s[a] == '-' then a + 1 else a;
    assert p == i + 7 + |Sign(negative)|;
  }

  /** `rotate(n)` and `rotate(-n)` with a numeral of at most three digits store the
      signed angle and no background. */
  lemma RotateOfAngle(s: string, i: nat, negative: bool, n: nat)
    requires n <= 999 && StartsAt(s, i, "rotate(" + Sign(negative) + Decimal(n) + ")")
    ensures RotateAt(s, i)
            == Some(Hit(8 + |Sign(negative)| + |Decimal(n)|, RotateTok(Rotation(Signed(negative, n), None))))
  {
    var e := i + 7 + |Sign(negative)| + |Decimal(n)|;
    AngleOfDecimal(s, i, negative, n, ')');
    ParenTail(s, i, e, Signed(negative, n));
    RotateOfTail(s, i, Angle(e, Signed(negative, n)),
                 Some(Hit(8 + |Sign(negative)| + |Decimal(n)|, RotateTok(Rotation(Signed(negative, n), None)))));
  }

  /** `rotate(`, the numeral of n <= 999 with its sign, and a non-digit `c`: the
      angle ends at `c`. */
  lemma AngleOfDecimal(s: string, i: nat, negative: bool, n: nat, c: char)
    requires n <= 999 && !IsDigit(c) && StartsAt(s, i, "rotate(" + Sign(negative) + Decimal(n) + [c])
    ensures i + 7 + |Sign(negative)| + |Decimal(n)| < |s| && s[i + 7 + |Sign(negative)| + |Decimal(n)|] == c
    ensures AngleAt(s, i) == Some(Angle(i + 7 + |Sign(negative)| + |Decimal(n)|, Signed(negative, n)))
  {
    var e := i + 7 + |Sign(negative)| + |Decimal(n)|;
    StartsAtConcat(s, i, "rotate(" + Sign(negative) + Decimal(n), [c]);
    StartsAtChar(s, e, [c], 0);
    AngleOfCanonical(s, i, negative, n);
  }

  /** `rotate(` and the numeral of n <= 999 with its sign, before a non-digit. */
  lemma AngleOfCanonical(s: string, i: nat, negative: bool, n: nat)
    requires n <= 999 && StartsAt(s, i, "rotate(" + Sign(negative) + Decimal(n))
    requires i + 7 + |Sign(negative)| + |Decimal(n)| < |s| && !IsDigit(s[i + 7 + |Sign(negative)| + |Decimal(n)|])
    ensures AngleAt(s, i) == Some(Angle(i + 7 + |Sign(negative)| + |Decimal(n)|, Signed(negative, n)))
  {
    NumeralBelow1000(n);
    DecimalIsCanonical(n);
    AngleOfNumeral(s, i, negative, Decimal(n));
  }

  /** `)` right after the angle closes the rotation, without a background. */
  lemma ParenTail(s: string, i: nat, e: nat, angle: int)
    requires i < e < |s| && s[e] == ')'
    ensures RotateTail(s, i, e, angle) == Some(Hit(e + 1 - i, RotateTok(Rotation(angle, None))))
  {
  }

  /** Any other character after the angle is refused. */
  lemma OtherTail(s: string, i: nat, e: nat, angle: int)
    requires i < e < |s| && s[e] != ')' && s[e] != ','
    ensures RotateTail(s, i, e, angle).None?
  {
  }

  /** A hexadecimal colour followed by `)` is recognized whole: a six-digit colour is
      not cut short, since a hexadecimal digit and not `)` follows its first three. */
  lemma HexColorAt(s: string, k: nat, c: string)
    requires IsHexColorText(c) && StartsAt(s, k, c) && k + |c| < |s| && s[k + |c|] == ')'
    ensures ColorAt(s, k) == Some(|c|)
  {
    StartsAtChar(s, k, c, 0);
    var w := s[k..k + |c|];
    assert s[k + 1..k + |c|] == w[1..];
    assert HexEnd(s, k, |c| - 1) == Some(k + |c|);
    if |c| == 7 {
      assert s[k + 1..k + 4] == w[1..][..3];
      assert HexEnd(s, k, 3) == Some(k + 4);
      StartsAtChar(s, k, c, 4);
      assert FirstColor(s, k, ColorForms) == FirstColor(s, k, ColorForms[1..]);
    }
  }

  /** After the angle: a comma, white space up to `k` and a recognized colour of length
      `l`, which the rotation stores as its background. */
  lemma TailWithColor(s: string, i: nat, e: nat, angle: int, k: nat, l: nat)
    requires i < e < |s| && s[e] == ',' && SpaceRunEnd(s, e + 1) == k && ColorAt(s, k) == Some(l)
    ensures RotateTail(s, i, e, angle) == Some(Hit(k + l + 1 - i, RotateTok(Rotation(angle, Some(s[k..k + l])))))
  {
    CommaTail(s, i, e, angle, k);
    ColorTailOf(s, i, k, l, ColorAt(s, k), angle);
  }

  /** A colour of length `l` found at `k` is the background the colour group stores,
      and the match ends after its `)`. */
  lemma ColorTailOf(s: string, i: nat, k: nat, l: nat, color: Option<nat>, angle: int)
    requires i < k && k + l < |s| && color == Some(l)
    ensures ColorTail(s, i, k, color, angle) ==
            Some(Hit(k + l + 1 - i, RotateTok(Rotation(angle, Some(s[k..k + l])))))
  {
  }

  /** The same, for a colour found at `k` whose text is `c`. */
  lemma ColorTailText(s: string, i: nat, k: nat, c: string, len: nat, color: Option<nat>, angle: int)
    requires i < k && k + |c| < |s| && color == Some(|c|) && s[k..k + |c|] == c && len == k + |c| + 1 - i
    ensures ColorTail(s, i, k, color, angle) == Some(Hit(len, RotateTok(Rotation(angle, Some(c)))))
  {
  }

  /** After a comma, the rotation's tail is the colour group that starts where the
      white space ends, at `k`. */
  lemma CommaTail(s: string, i: nat, e: nat, angle: int, k: nat)
    requires i < e < |s| && s[e] == ',' && SpaceRunEnd(s, e + 1) == k
    ensures RotateTail(s, i, e, angle) == ColorTail(s, i, k, ColorAt(s, k), angle)
  {
  }

  /** `,` + white space + a hexadecimal colour + `)` after the angle stores the colour
      as the background, whatever white space separates it from the comma: with
      `RotateOfTail`, `rotate(100,#000)` and `rotate(100, #000)` store the same. */
  lemma TailOfHexColor(s: string, i: nat, e: nat, angle: int, ws: string, c: string, len: nat)
    requires (forall m :: 0 <= m < |ws| ==> IsJsSpace(ws[m])) && IsHexColorText(c)
    requires i < e && e + 1 + |ws| + |c| < |s| && s[e] == ','
    requires StartsAt(s, e + 1, ws) && StartsAt(s, e + 1 + |ws|, c) && s[e + 1 + |ws| + |c|] == ')'
    requires len == e + 2 + |ws| + |c| - i
    ensures RotateTail(s, i, e, angle) == Some(Hit(len, RotateTok(Rotation(angle, Some(c)))))
  {
    HexTail(s, e + 1, e + 1 + |ws|, ws, c);
    TailWithText(s, i, e, angle, e + 1 + |ws|, c, len);
  }

  /** Any colour of the `color` language followed by `)` is recognized whole: the
      hexadecimal forms as `HexColorAt` shows, and `rgb(...)` and `rgba(...)` through
      their own alternatives. With `ColorAtSound`, the recognizer accepts exactly
      the `color` language before the closing `)`. */
  lemma ColorAtComplete(s: string, k: nat, w: string)
    requires IsColorText(w) && StartsAt(s, k, w + ")")
    ensures ColorAt(s, k) == Some(|w|)
  {
    StartsAtConcat(s, k, w, ")");
    StartsAtChar(s, k + |w|, ")", 0);
    if IsHexColorText(w) {
      HexColorAt(s, k, w);
    } else if IsRgbText(w) {
      var r, g, b :| IsColorIntText(r) && IsColorIntText(g) && IsColorIntText(b) && w == RgbText(r, g, b);
      RgbColorAt(s, k, r, g, b);
    } else {
      var r, g, b, a :| IsColorIntText(r) && IsColorIntText(g) && IsColorIntText(b) && IsAlphaText(a)
                        && w == RgbaText(r, g, b, a);
      RgbaColorAt(s, k, r, g, b, a);
    }
  }

  /** `rgb(r,g,b)` before `)`: both hexadecimal alternatives fail on its `r`, and
      the `rgb` alternative takes it whole. */
  lemma RgbColorAt(s: string, k: nat, r: string, g: string, b: string)
    requires IsColorIntText(r) && IsColorIntText(g) && IsColorIntText(b)
    requires StartsAt(s, k, RgbText(r, g, b)) && k + |RgbText(r, g, b)| < |s| && s[k + |RgbText(r, g, b)|] == ')'
    ensures ColorAt(s, k) == Some(|RgbText(r, g, b)|)
  {
    RgbTextAt(s, k, r, g, b);
    RgbFormWins(s, k, |RgbText(r, g, b)|);
  }

  /** The `rgb` recognizer takes `rgb(r,g,b)` whole. */
  lemma RgbTextAt(s: string, k: nat, r: string, g: string, b: string)
    requires IsColorIntText(r) && IsColorIntText(g) && IsColorIntText(b)
    requires StartsAt(s, k, RgbText(r, g, b))
    ensures StartsAt(s, k, "rgb(") && RgbAt(s, k) == Some(k + |RgbText(r, g, b)|)
  {
    RgbPeel(s, k, r, g, b);
    RgbAtOf(s, k, r, g, b);
  }


  /** Where a text starting with `r` is an `rgb` colour closed by `)`, that colour
      is the one taken. */
  lemma RgbFormWins(s: string, k: nat, len: nat)
    requires StartsAt(s, k, "rgb(") && RgbAt(s, k) == Some(k + len) && k + len < |s| && s[k + len] == ')'
    ensures ColorAt(s, k) == Some(len)
  {
    assert s[k] == 'r' by { StartsAtChar(s, k, "rgb(", 0); }
    RgbFirst(s, k, len);
    ColorAtOfRgb(s, k, len);
  }

  /** An `rgb` colour closed by `)` is taken by the alternation from `rgb` on. */
  lemma RgbFirst(s: string, k: nat, len: nat)
    requires k <= |s| && RgbAt(s, k) == Some(k + len) && k + len < |s| && s[k + len] == ')'
    ensures FirstColor(s, k, [RgbForm, RgbaForm]) == Some(len)
  {
  }

  /** Where `rgb` fails, an `rgba` colour closed by `)` is taken. */
  lemma RgbaFirst(s: string, k: nat, len: nat)
    requires k <= |s| && RgbAt(s, k).None? && RgbaAt(s, k) == Some(k + len) && k + len < |s| && s[k + len] == ')'
    ensures FirstColor(s, k, [RgbForm, RgbaForm]) == Some(len)
  {
    assert [RgbForm, RgbaForm][1..] == [RgbaForm];
  }

  /** At an `r`, the colour is what `rgb` or `rgba` gives. */
  lemma ColorAtOfRgb(s: string, k: nat, len: nat)
    requires k < |s| && s[k] == 'r' && FirstColor(s, k, [RgbForm, RgbaForm]) == Some(len)
    ensures ColorAt(s, k) == Some(len)
  {
    assert HexEnd(s, k, 3).None? && HexEnd(s, k, 6).None?;
    ColorAtAfterHex(s, k);
  }


  /** `rgba(r,g,b,a)` before `)`: the hexadecimal alternatives fail on its `r`, the
      `rgb` alternative on its `a`, and the `rgba` alternative takes it whole. */
  lemma RgbaColorAt(s: string, k: nat, r: string, g: string, b: string, a: string)
    requires IsColorIntText(r) && IsColorIntText(g) && IsColorIntText(b) && IsAlphaText(a)
    requires StartsAt(s, k, RgbaText(r, g, b, a)) && k + |RgbaText(r, g, b, a)| < |s|
    requires s[k + |RgbaText(r, g, b, a)|] == ')'
    ensures ColorAt(s, k) == Some(|RgbaText(r, g, b, a)|)
  {
    RgbaTextAt(s, k, r, g, b, a);
    RgbaColorOf(s, k, |RgbaText(r, g, b, a)|);
  }

  /** The `rgba` recognizer takes `rgba(r,g,b,a)` whole. */
  lemma RgbaTextAt(s: string, k: nat, r: string, g: string, b: string, a: string)
    requires IsColorIntText(r) && IsColorIntText(g) && IsColorIntText(b) && IsAlphaText(a)
    requires StartsAt(s, k, RgbaText(r, g, b, a))
    ensures StartsAt(s, k, "rgba(") && RgbaAt(s, k) == Some(k + |RgbaText(r, g, b, a)|)
  {
    RgbaSplit(s, k, r, g, b, a);
    RgbaPiecesAt(s, k, r, g, b, a);
  }


  /** An `rgba` match closed by `)` is the colour taken: the hexadecimal
      alternatives fail on its `r` and the `rgb` alternative on its `a`. */
  lemma RgbaColorOf(s: string, k: nat, len: nat)
    requires StartsAt(s, k, "rgba(") && RgbaAt(s, k) == Some(k + len) && k + len < |s| && s[k + len] == ')'
    ensures ColorAt(s, k) == Some(len)
  {
    assert s[k] == 'r' && s[k + 3] == 'a' by {
      StartsAtChar(s, k, "rgba(", 0);
      StartsAtChar(s, k, "rgba(", 3);
    }
    assert !StartsAt(s, k, "rgb(") by {
      if StartsAt(s, k, "rgb(") {
        StartsAtChar(s, k, "rgb(", 3);
      }
    }
    RgbaFormWins(s, k, len);
  }

  /** Where a text starting with `r` but not with `rgb(` is an `rgba` colour closed
      by `)`, that colour is the one taken. */
  lemma RgbaFormWins(s: string, k: nat, len: nat)
    requires k < |s| && s[k] == 'r' && !StartsAt(s, k, "rgb(")
    requires RgbaAt(s, k) == Some(k + len) && k + len < |s| && s[k + len] == ')'
    ensures ColorAt(s, k) == Some(len)
  {
    assert RgbAt(s, k).None?;
    RgbaFirst(s, k, len);
    ColorAtOfRgb(s, k, len);
  }


  /** Where no hexadecimal colour starts, the colour is what `rgb` or `rgba` gives. */
  lemma ColorAtAfterHex(s: string, k: nat)
    requires k <= |s| && HexEnd(s, k, 3).None? && HexEnd(s, k, 6).None?
    ensures ColorAt(s, k) == FirstColor(s, k, [RgbForm, RgbaForm])
  {
    assert ColorForms[1..] == [LongHex, RgbForm, RgbaForm];
    assert [LongHex, RgbForm, RgbaForm][1..] == [RgbForm, RgbaForm];
  }

  /** A `colorInt` text is a run of digits. */
  lemma ColorIntDigits(w: string)
    requires IsColorIntText(w)
    ensures AllDigits(w)
  {
  }

  /** A `colorInt` text followed by its non-digit delimiter is taken whole. */
  lemma ColorIntThenOf(s: string, k: nat, d: string, sep: char)
    requires IsColorIntText(d) && !IsDigit(sep) && StartsAt(s, k, d) && k + |d| < |s| && s[k + |d|] == sep
    ensures ColorIntThen(s, k, sep) == Some(k + |d| + 1)
  {
    ColorIntDigits(d);
    DigitRunEndAt(s, k, k + |d|);
  }

  /** A `colorAlpha` text followed by `)` is taken whole. */
  lemma AlphaThenOf(s: string, k: nat, a: string)
    requires IsAlphaText(a) && StartsAt(s, k, a) && k + |a| < |s| && s[k + |a|] == ')'
    ensures AlphaThen(s, k) == Some(k + |a| + 1)
  {
    forall m | 0 <= m < |a| ensures s[k + m] == a[m] {
      StartsAtChar(s, k, a, m);
    }
  }

  /** A text and the one character after it, found at `k`. */
  lemma StartsAtThen(s: string, k: nat, d: string, c: char)
    requires StartsAt(s, k, d + [c])
    ensures StartsAt(s, k, d) && k + |d| < |s| && s[k + |d|] == c
  {
    StartsAtConcat(s, k, d, [c]);
    StartsAtChar(s, k + |d|, [c], 0);
  }

  /** `rgb(r,g,b)` with three `colorInt` channels is recognized whole. */
  lemma RgbAtOf(s: string, k: nat, r: string, g: string, b: string)
    requires IsColorIntText(r) && IsColorIntText(g) && IsColorIntText(b) && StartsAt(s, k, RgbText(r, g, b))
    ensures RgbAt(s, k) == Some(k + |RgbText(r, g, b)|)
  {
    RgbSplit(s, k, r, g, b);
    RgbPiecesAt(s, k, r, g, b);
  }

  /** The `rgb` recognizer follows the pieces of `rgb(r,g,b)` one delimiter at a time. */
  lemma RgbPiecesAt(s: string, k: nat, r: string, g: string, b: string)
    requires IsColorIntText(r) && IsColorIntText(g) && IsColorIntText(b) && StartsAt(s, k, "rgb(")
    requires StartsAt(s, k + 4, r) && k + 4 + |r| < |s| && s[k + 4 + |r|] == ','
    requires StartsAt(s, k + 5 + |r|, g) && k + 5 + |r| + |g| < |s| && s[k + 5 + |r| + |g|] == ','
    requires StartsAt(s, k + 6 + |r| + |g|, b) && k + 6 + |r| + |g| + |b| < |s| && s[k + 6 + |r| + |g| + |b|] == ')'
    ensures RgbAt(s, k) == Some(k + 7 + |r| + |g| + |b|)
  {
    ColorIntThenOf(s, k + 4, r, ',');
    ColorIntThenOf(s, k + 5 + |r|, g, ',');
    ColorIntThenOf(s, k + 6 + |r| + |g|, b, ')');
    RgbOfChannels(s, k, k + 5 + |r|, k + 6 + |r| + |g|, k + 7 + |r| + |g| + |b|);
  }




  /** `rgb(` followed by three channels, each closed by its delimiter, is one `rgb`
      match up to the last delimiter. */
  lemma RgbOfChannels(s: string, k: nat, k2: nat, k3: nat, e: nat)
    requires StartsAt(s, k, "rgb(")
    requires ColorIntThen(s, k + 4, ',') == Some(k2) && k2 <= |s|
    requires ColorIntThen(s, k2, ',') == Some(k3) && k3 <= |s|
    requires ColorIntThen(s, k3, ')') == Some(e)
    ensures RgbAt(s, k) == Some(e)
  {
  }

  /** The pieces of an `rgb(r,g,b)` text found at `k`. */
  lemma RgbSplit(s: string, k: nat, r: string, g: string, b: string)
    requires StartsAt(s, k, RgbText(r, g, b))
    ensures |RgbText(r, g, b)| == 7 + |r| + |g| + |b| && StartsAt(s, k, "rgb(")
    ensures StartsAt(s, k + 4, r) && k + 4 + |r| < |s| && s[k + 4 + |r|] == ','
    ensures StartsAt(s, k + 5 + |r|, g) && k + 5 + |r| + |g| < |s| && s[k + 5 + |r| + |g|] == ','
    ensures StartsAt(s, k + 6 + |r| + |g|, b) && k + 6 + |r| + |g| + |b| < |s| && s[k + 6 + |r| + |g| + |b|] == ')'
  {
    RgbPeel(s, k, r, g, b);
    StartsAtThen(s, k + 4, r, ',');
    StartsAtThen(s, k + 5 + |r|, g, ',');
    StartsAtThen(s, k + 6 + |r| + |g|, b, ')');
  }

  /** The pieces of an `rgb(r,g,b)` text, each with the delimiter after it. */
  lemma RgbPeel(s: string, k: nat, r: string, g: string, b: string)
    requires StartsAt(s, k, RgbText(r, g, b))
    ensures StartsAt(s, k, "rgb(") && StartsAt(s, k + 4, r + ",")
    ensures StartsAt(s, k + 5 + |r|, g + ",") && StartsAt(s, k + 6 + |r| + |g|, b + ")")
  {
    var p4 := "rgb(" + r + "," + g + ",";
    assert StartsAt(s, k, p4) && StartsAt(s, k + |p4|, b + ")") by {
      assert RgbText(r, g, b) == p4 + (b + ")");
      StartsAtConcat(s, k, p4, b + ")");
    }
    var p2 := "rgb(" + r + ",";
    assert StartsAt(s, k, p2) && StartsAt(s, k + |p2|, g + ",") by {
      assert p4 == p2 + (g + ",");
      StartsAtConcat(s, k, p2, g + ",");
    }
    assert StartsAt(s, k, "rgb(") && StartsAt(s, k + 4, r + ",") by {
      assert p2 == "rgb(" + (r + ",");
      StartsAtConcat(s, k, "rgb(", r + ",");
    }
  }

  /** `rgba(r,g,b,a)` with three `colorInt` channels and a `colorAlpha` is
      recognized whole. */
  lemma RgbaAtOf(s: string, k: nat, r: string, g: string, b: string, a: string)
    requires IsColorIntText(r) && IsColorIntText(g) && IsColorIntText(b) && IsAlphaText(a)
    requires StartsAt(s, k, RgbaText(r, g, b, a))
    ensures RgbaAt(s, k) == Some(k + |RgbaText(r, g, b, a)|)
  {
    RgbaSplit(s, k, r, g, b, a);
    RgbaPiecesAt(s, k, r, g, b, a);
  }

  /** The `rgba` recognizer follows the pieces of `rgba(r,g,b,a)` one delimiter at a time. */
  lemma RgbaPiecesAt(s: string, k: nat, r: string, g: string, b: string, a: string)
    requires IsColorIntText(r) && IsColorIntText(g) && IsColorIntText(b) && IsAlphaText(a)
    requires StartsAt(s, k, "rgba(")
    requires StartsAt(s, k + 5, r) && k + 5 + |r| < |s| && s[k + 5 + |r|] == ','
    requires StartsAt(s, k + 6 + |r|, g) && k + 6 + |r| + |g| < |s| && s[k + 6 + |r| + |g|] == ','
    requires StartsAt(s, k + 7 + |r| + |g|, b) && k + 7 + |r| + |g| + |b| < |s| && s[k + 7 + |r| + |g| + |b|] == ','
    requires StartsAt(s, k + 8 + |r| + |g| + |b|, a) && k + 8 + |r| + |g| + |b| + |a| < |s|
    requires s[k + 8 + |r| + |g| + |b| + |a|] == ')'
    ensures RgbaAt(s, k) == Some(k + 9 + |r| + |g| + |b| + |a|)
  {
    ColorIntThenOf(s, k + 5, r, ',');
    ColorIntThenOf(s, k + 6 + |r|, g, ',');
    ColorIntThenOf(s, k + 7 + |r| + |g|, b, ',');
    AlphaThenOf(s, k + 8 + |r| + |g| + |b|, a);
    RgbaOfChannels(s, k, k + 6 + |r|, k + 7 + |r| + |g|, k + 8 + |r| + |g| + |b|, k + 9 + |r| + |g| + |b| + |a|);
  }



  /** `rgba(` followed by three channels and an alpha, each closed by its delimiter,
      is one `rgba` match up to the last delimiter. */
  lemma RgbaOfChannels(s: string, k: nat, k2: nat, k3: nat, k4: nat, e: nat)
    requires StartsAt(s, k, "rgba(")
    requires ColorIntThen(s, k + 5, ',') == Some(k2) && k2 <= |s|
    requires ColorIntThen(s, k2, ',') == Some(k3) && k3 <= |s|
    requires ColorIntThen(s, k3, ',') == Some(k4) && k4 <= |s|
    requires AlphaThen(s, k4) == Some(e)
    ensures RgbaAt(s, k) == Some(e)
  {
  }

  /** The pieces of an `rgba(r,g,b,a)` text found at `k`. */
  lemma RgbaSplit(s: string, k: nat, r: string, g: string, b: string, a: string)
    requires StartsAt(s, k, RgbaText(r, g, b, a))
    ensures |RgbaText(r, g, b, a)| == 9 + |r| + |g| + |b| + |a| && StartsAt(s, k, "rgba(")
    ensures StartsAt(s, k + 5, r) && k + 5 + |r| < |s| && s[k + 5 + |r|] == ','
    ensures StartsAt(s, k + 6 + |r|, g) && k + 6 + |r| + |g| < |s| && s[k + 6 + |r| + |g|] == ','
    ensures StartsAt(s, k + 7 + |r| + |g|, b) && k + 7 + |r| + |g| + |b| < |s| && s[k + 7 + |r| + |g| + |b|] == ','
    ensures StartsAt(s, k + 8 + |r| + |g| + |b|, a) && k + 8 + |r| + |g| + |b| + |a| < |s|
    ensures s[k + 8 + |r| + |g| + |b| + |a|] == ')'
  {
    RgbaPeel(s, k, r, g, b, a);
    StartsAtThen(s, k + 5, r, ',');
    StartsAtThen(s, k + 6 + |r|, g, ',');
    StartsAtThen(s, k + 7 + |r| + |g|, b, ',');
    StartsAtThen(s, k + 8 + |r| + |g| + |b|, a, ')');
  }

  /** The pieces of an `rgba(r,g,b,a)` text, each with the delimiter after it. */
  lemma RgbaPeel(s: string, k: nat, r: string, g: string, b: string, a: string)
    requires StartsAt(s, k, RgbaText(r, g, b, a))
    ensures StartsAt(s, k, "rgba(") && StartsAt(s, k + 5, r + ",") && StartsAt(s, k + 6 + |r|, g + ",")
    ensures StartsAt(s, k + 7 + |r| + |g|, b + ",") && StartsAt(s, k + 8 + |r| + |g| + |b|, a + ")")
  {
    var p6 := "rgba(" + r + "," + g + "," + b + ",";
    assert StartsAt(s, k, p6) && StartsAt(s, k + |p6|, a + ")") by {
      assert RgbaText(r, g, b, a) == p6 + (a + ")");
      StartsAtConcat(s, k, p6, a + ")");
    }
    var p4 := "rgba(" + r + "," + g + ",";
    assert StartsAt(s, k, p4) && StartsAt(s, k + |p4|, b + ",") by {
      assert p6 == p4 + (b + ",");
      StartsAtConcat(s, k, p4, b + ",");
    }
    var p2 := "rgba(" + r + ",";
    assert StartsAt(s, k, p2) && StartsAt(s, k + |p2|, g + ",") by {
      assert p4 == p2 + (g + ",");
      StartsAtConcat(s, k, p2, g + ",");
    }
    assert StartsAt(s, k, "rgba(") && StartsAt(s, k + 5, r + ",") by {
      assert p2 == "rgba(" + (r + ",");
      StartsAtConcat(s, k, "rgba(", r + ",");
    }
  }

  /** `,` + white space + any colour + `)` after the angle stores that colour as
      the background: `rotate(10, rgb(1,2,3))` stores `rgb(1,2,3)`. */
  lemma TailOfColor(s: string, i: nat, e: nat, angle: int, ws: string, c: string, len: nat)
    requires (forall m :: 0 <= m < |ws| ==> IsJsSpace(ws[m])) && IsColorText(c)
    requires i < e < |s| && s[e] == ',' && StartsAt(s, e + 1, ws) && StartsAt(s, e + 1 + |ws|, c + ")")
    requires len == e + 2 + |ws| + |c| - i
    ensures RotateTail(s, i, e, angle) == Some(Hit(len, RotateTok(Rotation(angle, Some(c)))))
  {
    var k := e + 1 + |ws|;
    SpacesThenColor(s, e + 1, k, ws, c);
    TailWithText(s, i, e, angle, k, c, len);
  }

  /** After the angle: a comma, white space up to `k` and the colour `c` recognized
      there, which the rotation stores as its background. */
  lemma TailWithText(s: string, i: nat, e: nat, angle: int, k: nat, c: string, len: nat)
    requires i < e < |s| && s[e] == ',' && SpaceRunEnd(s, e + 1) == k && ColorAt(s, k) == Some(|c|)
    requires s[k..k + |c|] == c && len == k + |c| + 1 - i
    ensures RotateTail(s, i, e, angle) == Some(Hit(len, RotateTok(Rotation(angle, Some(c)))))
  {
    CommaTail(s, i, e, angle, k);
    ColorTailText(s, i, k, c, len, ColorAt(s, k), angle);
  }

  /** White space and a colour closed by `)`: the space run ends at the colour,
      which is recognized whole. */
  lemma SpacesThenColor(s: string, j: nat, k: nat, ws: string, c: string)
    requires (forall m :: 0 <= m < |ws| ==> IsJsSpace(ws[m])) && IsColorText(c)
    requires k == j + |ws| && StartsAt(s, j, ws) && StartsAt(s, k, c + ")")
    ensures SpaceRunEnd(s, j) == k
    ensures ColorAt(s, k) == Some(|c|)
    ensures s[k..k + |c|] == c
  {
    ColorAtComplete(s, k, c);
    StartsAtConcat(s, k, c, ")");
    assert !IsJsSpace(s[k]) by {
      StartsAtChar(s, k, c, 0);
      ColorFirstChar(c);
    }
    SpacesBefore(s, j, k, ws);
  }

  /** A colour starts with `#` or `r`, never with white space. */
  lemma ColorFirstChar(c: string)
    requires IsColorText(c)
    ensures |c| > 0 && (c[0] == '#' || c[0] == 'r')
  {
    if IsRgbText(c) {
      var r, g, b :| IsColorIntText(r) && IsColorIntText(g) && IsColorIntText(b) && c == RgbText(r, g, b);
    } else if IsRgbaText(c) {
      var r, g, b, a :| IsColorIntText(r) && IsColorIntText(g) && IsColorIntText(b) && IsAlphaText(a)
                        && c == RgbaText(r, g, b, a);
    }
  }

  /** The rotation at `i` is what follows its angle. */
  lemma RotateOfTail(s: string, i: nat, angle: Angle, r: Option<Hit>)
    requires i <= |s| && AngleAt(s, i) == Some(angle) && RotateTail(s, i, angle.end, angle.value) == r
    ensures RotateAt(s, i) == r
  {
  }

  /** White space and a hexadecimal colour closed by `)`. */
  lemma HexTail(s: string, j: nat, k: nat, ws: string, c: string)
    requires (forall m :: 0 <= m < |ws| ==> IsJsSpace(ws[m])) && IsHexColorText(c)
    requires k == j + |ws| && StartsAt(s, j, ws) && StartsAt(s, k, c) && k + |c| < |s| && s[k + |c|] == ')'
    ensures SpaceRunEnd(s, j) == k
    ensures ColorAt(s, k) == Some(|c|)
    ensures s[k..k + |c|] == c
  {
    assert s[k] == '#' by { StartsAtChar(s, k, c, 0); }
    SpacesBefore(s, j, k, ws);
    HexColorAt(s, k, c);
  }

  /** The white space `ws` at `j`, followed by a character that is not white space,
      is the whole space run. */
  lemma SpacesBefore(s: string, j: nat, k: nat, ws: string)
    requires (forall m :: 0 <= m < |ws| ==> IsJsSpace(ws[m]))
    requires k == j + |ws| && StartsAt(s, j, ws) && k < |s| && !IsJsSpace(s[k])
    ensures SpaceRunEnd(s, j) == k
  {
    assert forall m :: j <= m < k ==> IsJsSpace(s[m]) by {
      forall m | j <= m < k ensures IsJsSpace(s[m]) { StartsAtChar(s, j, ws, m - j); }
    }
    SpaceRunEndAt(s, j, k);
  }

  /** An angle of four or more digits is refused. */
  lemma RotateRejectsLongAngle(s: string, i: nat, negative: bool, n: nat)
    requires 1000 <= n && StartsAt(s, i, "rotate(" + Sign(negative) + Decimal(n))
    ensures RotateAt(s, i).None?
  {
    var d := Decimal(n);
    var k := i + 7 + |Sign(negative)|;
    assert StartsAt(s, i, "rotate(") && (i + 7 < |s| && s[i + 7] == '-') == negative
           && k + |d| <= DigitRunEnd(s, k) by {
      StartsAtPieces(s, i, "rotate(", Sign(negative), d);
      if negative {
        StartsAtChar(s, i + 7, "-", 0);
      } else {
        StartsAtChar(s, k, d, 0);
      }
      DigitRunEndAtLeast(s, k, k + |d|);
    }
    assert 4 <= |d| by {
      NumeralAtMost1000(n);
      if n == 1000 { DigitsValueOf1000(); }
    }
    LongDigitRunRefused(s, i, k);
  }

  /** A digit run of four or more digits where the angle should start is refused. */
  lemma LongDigitRunRefused(s: string, i: nat, k: nat)
    requires StartsAt(s, i, "rotate(") && k == (if i + 7 < |s| && s[i + 7] == '-' then i + 8 else i + 7)
    requires k + 4 <= DigitRunEnd(s, k)
    ensures RotateAt(s, i).None?
  {
  }

  /** An angle followed by anything but `)` or `,` (a decimal point, say) is refused. */
  lemma RotateRejectsOtherDelimiter(s: string, i: nat, negative: bool, n: nat, c: char)
    requires !IsDigit(c) && c != ')' && c != ','
    requires StartsAt(s, i, "rotate(" + Sign(negative) + Decimal(n) + [c])
    ensures RotateAt(s, i).None?
  {
    var d := Decimal(n);
    StartsAtConcat(s, i, "rotate(" + Sign(negative) + d, [c]);
    if n >= 1000 {
      RotateRejectsLongAngle(s, i, negative, n);
    } else {
      var e := i + 7 + |Sign(negative)| + |d|;
      AngleOfDecimal(s, i, negative, n, c);
      OtherTail(s, i, e, Signed(negative, n));
      RotateOfTail(s, i, Angle(e, Signed(negative, n)), None);
    }
  }

  /** `rotate(` followed by no digit (after an optional minus sign) is refused. */
  lemma RotateRejectsMissingAngle(s: string, i: nat, negative: bool, c: char)
    requires !IsDigit(c) && c != '-'
    requires StartsAt(s, i, "rotate(" + Sign(negative) + [c])
    ensures RotateAt(s, i).None?
  {
    StartsAtPieces(s, i, "rotate(", Sign(negative), [c]);
    StartsAtChar(s, i + 7 + |Sign(negative)|, [c], 0);
    if negative {
      StartsAtChar(s, i + 7, "-", 0);
    }
  }
}
