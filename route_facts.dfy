/** What the route table guarantees: which paths reach which shapes, and what the
    resolved resize descriptors hold. */
module RouteFacts {
  import opened Text
  import opened Parameters
  import opened Routes

  // ---------------------------------------------------------------------------
  // Sizes

  /** The size pattern admits exactly the canonical numerals of 1..9999. */
  lemma SizeTextOfDecimal(n: nat)
    ensures IsSizeText(Decimal(n)) <==> 1 <= n <= 9999
  {
    var d := Decimal(n);
    DigitsValueBound(d);
    assert Pow10(4) == 10000;
    if 1 <= n && 4 < |d| {
      Pow10Grows(4, |d| - 1);
    }
    if IsSizeText(d) {
      var v := SizeValue(d);
    }
  }

  /** Every size text is the canonical numeral of the number it denotes. */
  lemma SizeTextRoundTrip(w: string)
    requires IsSizeText(w)
    ensures Decimal(SizeValue(w)) == w
  {
    DecimalOfCanonical(w);
  }

  // ---------------------------------------------------------------------------
  // Shapes

  /** What a matched route says about each matched segment: literals are equal
      to their word and the `unlarge` matcher saw `unlarge`. */
  lemma {:induction false} SegmentsAt(ms: seq<Matcher>, path: seq<string>, c: Captures, k: nat)
    requires |ms| == |path| && MatchSegments(ms, path, c).Some? && k < |ms|
    ensures ms[k].Lit? ==> path[k] == ms[k].word.Text()
    ensures ms[k] == Unlarge ==> path[k] == "unlarge"
    ensures ms[k] == Filename ==> path[k] != ""
    ensures ms[k] == Size ==> SizePair(path[k]).Some?
    decreases k
  {
    if k > 0 {
      SegmentsAt(ms[1..], path[1..], MatchSegment(ms[0], path[0], c).value, k - 1);
    }
  }

  /** The matched segments at the position of a matcher of a matched route. */
  lemma MatchedAt(r: Route, path: seq<string>, k: nat)
    requires MatchRoute(r, path).Some? && k < |r.Segments()|
    ensures r.Segments()[k].Lit? ==> path[k] == r.Segments()[k].word.Text()
    ensures r.Segments()[k] == Unlarge ==> path[k] == "unlarge"
  {
    var ms := r.Segments();
    var n := |ms|;
    if |path| == n {
      SegmentsAt(ms, path, NoCaptures, k);
    } else {
      SegmentsAt(ms, path[..n], NoCaptures.(parameters := Some(path[n])), k);
    }
  }

  /** Whether a segment matches never depends on what was captured before it. */
  lemma SegmentSucceeds(m: Matcher, seg: string, c: Captures)
    ensures MatchSegment(m, seg, c).Some? == MatchSegment(m, seg, NoCaptures).Some?
  {
  }

  /** A run of segments matches exactly when each segment matches its matcher. */
  lemma {:induction false} SegmentsSucceed(ms: seq<Matcher>, path: seq<string>, c: Captures)
    requires |ms| == |path|
    ensures MatchSegments(ms, path, c).Some?
            <==> forall k :: 0 <= k < |ms| ==> MatchSegment(ms[k], path[k], NoCaptures).Some?
    decreases |ms|
  {
    if ms != [] {
      SegmentSucceeds(ms[0], path[0], c);
      match MatchSegment(ms[0], path[0], c)
      case None =>
      case Some(c') =>
        SegmentsSucceed(ms[1..], path[1..], c');
        assert forall k :: 1 <= k < |ms| ==> ms[1..][k - 1] == ms[k] && path[1..][k - 1] == path[k];
    }
  }

  /** The segments a route matches against and the captures it starts from: the
      whole path, or all but a final `parameters` segment. */
  lemma RouteSegments(r: Route, path: seq<string>) returns (p: seq<string>, c0: Captures)
    requires MatchRoute(r, path).Some?
    ensures |p| == |r.Segments()| && p == path[..|p|]
    ensures MatchRoute(r, path) == MatchSegments(r.Segments(), p, c0)
    ensures c0 == NoCaptures.(parameters := c0.parameters)
  {
    var n := |r.Segments()|;
    if |path| == n {
      p, c0 := path, NoCaptures;
    } else {
      p, c0 := path[..n], NoCaptures.(parameters := Some(path[n]));
    }
  }

  /** The route a routed path reached and the captures its handler resolved: the
      first route of the table that matches, whose handler built the request. */
  lemma Dispatched(path: seq<string>, sharp: Sharp) returns (j: nat, c: Captures)
    requires RouteRequest(path, sharp).Some?
    ensures FirstRoute(path, 0) == Some((j, c))
    ensures j < RouteCount && MatchRoute(RouteAt(j), path) == Some(c)
    ensures forall i :: 0 <= i < j ==> MatchRoute(RouteAt(i), path).None?
    ensures Captured(RouteAt(j).GroupOf(), c)
    ensures RouteRequest(path, sharp).value == Resolve(RouteAt(j).GroupOf(), c, sharp)
    ensures RouteRequest(path, sharp).value.resize == ResizeOf(RouteAt(j).GroupOf(), c, sharp)
  {
    j, c := FirstRoute(path, 0).value.0, FirstRoute(path, 0).value.1;
    RouteCaptured(j, path, c);
  }

  /** What a routed request carries besides its resize descriptor: the file name
      is the first segment, and the cosmetic parameters are the parsed segment that
      follows the route's fixed segments, or the parsed empty segment (`{}`) when
      the path has none. This is where routing hands over to `paramParser`. */
  lemma RequestFields(path: seq<string>, sharp: Sharp) returns (j: nat)
    requires RouteRequest(path, sharp).Some?
    ensures j < RouteCount && FirstRoute(path, 0).Some? && FirstRoute(path, 0).value.0 == j
    ensures var n := |RouteAt(j).Segments()|;
      && (|path| == n || |path| == n + 1)
      && RouteRequest(path, sharp).value.filename == path[0]
      && RouteRequest(path, sharp).value.parameters == Parsed(if |path| == n then "" else path[n])
  {
    var c;
    j, c := Dispatched(path, sharp);
    var r := RouteAt(j);
    FilenameOnce(r);
    var p, c0 := RouteSegments(r, path);
    assert c.filename == Some(path[0]) by {
      assert c == MatchSegments(r.Segments(), p, c0).value;
      assert p[0] == path[0];
    }
    assert OrElse(c.parameters, "") == if |path| == |r.Segments()| then "" else path[|r.Segments()|];
  }

  /** A route's only `:filename` matcher is its first. */
  lemma FilenameOnce(r: Route)
    requires r.Shape? ==> Filename !in r.rest
    ensures r.Segments()[0] == Filename && Filename !in r.Segments()[1..]
  {
    if r.Shape? {
      assert r.Segments()[1..] == (if r.unlarge then [Unlarge] else []) + [Lit(r.word)] + r.rest;
    }
  }

  /** A shape has the `unlarge` matcher exactly when it is an `unlarge` shape. */
  lemma ShapeUnlarge(r: Route)
    requires r.Shape? && Unlarge !in r.rest
    ensures Unlarge in r.Segments() <==> r.unlarge
  {
    assert r.Segments() == [Filename] + (if r.unlarge then [Unlarge] else []) + [Lit(r.word)] + r.rest;
  }

  /** No shape repeats the `unlarge` matcher after its keyword. */
  lemma TableRest(j: nat)
    requires j < RouteCount
    ensures RouteAt(j).Shape? <==> j != CatchAll
    ensures RouteAt(j).Shape? ==> Unlarge !in RouteAt(j).rest
  {
  }

  /** The catch-all serves exactly the paths of one or two non-empty segments, so
      it never shadows a shape of three or more segments. */
  lemma CatchAllShape(path: seq<string>)
    ensures MatchRoute(RouteAt(CatchAll), path).Some?
            <==> 1 <= |path| <= 2 && path[0] != "" && (|path| == 2 ==> path[1] != "")
  {
    var ms := [Filename];
    assert RouteAt(CatchAll).Segments() == ms;
    if 1 <= |path| <= 2 {
      assert ms[1..] == [] && path[..1][1..] == [] && path[1..1] == [];
      assert MatchSegments(ms, path[..1], NoCaptures) == MatchSegments(ms, path[..1], NoCaptures);
    }
  }

  /** Every other shape needs at least three segments, so a path of one or two
      segments reaches the catch-all whenever it reaches anything. */
  lemma ShortPathsReachCatchAll(path: seq<string>)
    requires |path| <= 2
    ensures forall j :: 0 <= j < CatchAll ==> MatchRoute(RouteAt(j), path).None?
    ensures FirstRoute(path, 0).Some? ==> FirstRoute(path, 0).value.0 == CatchAll
  {
    forall j | 0 <= j < CatchAll ensures MatchRoute(RouteAt(j), path).None? {
      TableRest(j);
      TableSizes(j);
    }
  }

  /** Under `contain`, `fill`, `inside` and `outside` only the `WxH` form exists:
      `/f/contain/w100` and `/f/fill/h100` reach no route. */
  lemma BothSizesRequired(f: string, word: Word, w: string, sharp: Sharp)
    requires word.GroupOf() != CoverGroup
    ensures RouteRequest([f, word.Text(), w], sharp).Some? <==> f != "" && SizePair(w).Some?
  {
    var path := [f, word.Text(), w];
    if RouteRequest(path, sharp).Some? {
      var j, c := Dispatched(path, sharp);
      KeywordThenSize(j, f, word, w);
    }
    if f != "" && SizePair(w).Some? {
      var j := SizeRoute(f, word, w);
    }
  }

  /** A file name, any keyword and a `WxH` segment reach that keyword's plain
      `WxH` shape. */
  lemma SizeRoute(f: string, word: Word, w: string) returns (j: nat)
    requires f != "" && SizePair(w).Some?
    ensures j < RouteCount && MatchRoute(RouteAt(j), [f, word.Text(), w]).Some?
  {
    var path := [f, word.Text(), w];
    j := PlainSizeShape(word);
    var ms := RouteAt(j).Segments();
    assert ms == [Filename, Lit(word), Size];
    assert MatchSegment(ms[0], path[0], NoCaptures).Some?;
    assert MatchSegment(ms[1], path[1], NoCaptures).Some?;
    assert MatchSegment(ms[2], path[2], NoCaptures).Some?;
    SegmentsSucceed(ms, path, NoCaptures);
  }

  /** A route that matches a file name, a keyword other than `resize` or `cover`
      and one more segment matched it as `WxH`. */
  lemma KeywordThenSize(j: nat, f: string, word: Word, w: string)
    requires j < RouteCount && word.GroupOf() != CoverGroup
    requires MatchRoute(RouteAt(j), [f, word.Text(), w]).Some?
    ensures f != "" && SizePair(w).Some?
  {
    var path := [f, word.Text(), w];
    var r := RouteAt(j);
    TableRest(j);
    TableSizes(j);
    var p, c0 := RouteSegments(r, path);
    var ms := r.Segments();
    SegmentsAt(ms, p, c0, 0);
    if r.Shape? {
      SegmentsAt(ms, p, c0, 1);
      assert !r.unlarge && |r.rest| == 1;
      assert r.word == word by { WordTextInjective(r.word, word); }
      SegmentsAt(ms, p, c0, 2);
    }
  }

  /** Every keyword has a plain `WxH` shape. */
  lemma PlainSizeShape(word: Word) returns (j: nat)
    ensures j < RouteCount && RouteAt(j) == Shape(false, word, [Size])
  {
    j := match word
      case ResizeWord => 8 case CoverWord => 10 case ContainWord => 14
      case FillWord => 24 case InsideWord => 26 case OutsideWord => 28;
  }

  /** The keyword a segment spells, if any. */
  function WordOf(t: string): Option<Word> {
    if t == "resize" then Some(ResizeWord)
    else if t == "cover" then Some(CoverWord)
    else if t == "contain" then Some(ContainWord)
    else if t == "fill" then Some(FillWord)
    else if t == "inside" then Some(InsideWord)
    else if t == "outside" then Some(OutsideWord)
    else None
  }

  /** Every keyword is read back from its own text. */
  lemma WordOfText(w: Word)
    ensures WordOf(w.Text()) == Some(w)
  {
  }

  /** Distinct keywords are distinct segments. */
  lemma WordTextInjective(a: Word, b: Word)
    requires a.Text() == b.Text()
    ensures a == b
  {
    WordOfText(a);
    WordOfText(b);
  }

  // ---------------------------------------------------------------------------
  // Descriptors

  /** `withoutEnlargement` is true exactly when the path's second segment is
      `unlarge`. */
  lemma UnlargeIff(path: seq<string>, sharp: Sharp)
    requires RouteRequest(path, sharp).Some? && RouteRequest(path, sharp).value.resize.Some?
    ensures 2 <= |path|
    ensures RouteRequest(path, sharp).value.resize.value.withoutEnlargement <==> path[1] == "unlarge"
  {
    var j, c := Dispatched(path, sharp);
    var r := RouteAt(j);
    ResizeUnlarge(r.GroupOf(), c, sharp);
    assert r.Shape? by { assert r.GroupOf() != PlainGroup; }
    TableRest(j);
    RouteUnlarge(j, path, c);
  }

  /** A shape captures `unlarge` exactly when its second segment is `unlarge`. */
  lemma RouteUnlarge(j: nat, path: seq<string>, c: Captures)
    requires j < RouteCount && j != CatchAll && MatchRoute(RouteAt(j), path) == Some(c)
    ensures 2 <= |path|
    ensures c.unlarge.Some? <==> path[1] == "unlarge"
    ensures c.unlarge.Some? ==> c.unlarge.value == "unlarge"
    ensures path[1] == "unlarge" <==> RouteAt(j).unlarge
  {
    var r := RouteAt(j);
    TableRest(j);
    var p, c0 := RouteSegments(r, path);
    var ms := r.Segments();
    SegmentsCaptureFlags(ms, p, c0);
    ShapeUnlarge(r);
    SegmentsAt(ms, p, c0, 1);
    WordOfText(r.word);
  }

  /** Every handler but the catch-all's builds a descriptor, and its
      `withoutEnlargement` is whether a non-empty `unlarge` was captured. */
  lemma ResizeUnlarge(group: Group, c: Captures, sharp: Sharp)
    requires Captured(group, c)
    ensures ResizeOf(group, c, sharp).Some? <==> group != PlainGroup
    ensures ResizeOf(group, c, sharp).Some? ==>
      ResizeOf(group, c, sharp).value.withoutEnlargement == (c.unlarge.Some? && c.unlarge.value != "")
  {
  }

  /** `left-top` and the like are looked up as `left top`: the first hyphen
      becomes a space. */
  lemma NormalizeHyphen(a: string, b: string)
    requires '-' !in a
    ensures Normalize(a + "-" + b) == a + " " + b
  {
    ReplaceFirstAfter(a, "-", b, " ");
  }

  /** A position without a hyphen, `center` included, is looked up as it is. */
  lemma NormalizePlain(t: string)
    requires '-' !in t
    ensures Normalize(t) == t
  {
    ReplaceFirstAbsent(t, "-", " ");
  }

  /** The position of a cover or contain descriptor without a captured position:
      `center`, looked up in sharp's tables as it is. */
  lemma DefaultPosition(group: Group, c: Captures, sharp: Sharp)
    requires Captured(group, c) && group in {CoverGroup, ContainGroup} && c.position.None?
    ensures group == CoverGroup ==> ResizeOf(group, c, sharp).value.position == Some(CoverAnchor(sharp, "center"))
    ensures group == ContainGroup ==> ResizeOf(group, c, sharp).value.position == Some(ContainAnchor(sharp, "center"))
  {
    NormalizePlain("center");
  }

  /** A captured position `a-b` is looked up as `a b`: its first hyphen becomes a
      space before the tables are consulted. */
  lemma HyphenPosition(group: Group, c: Captures, sharp: Sharp, a: string, b: string)
    requires Captured(group, c) && group in {CoverGroup, ContainGroup}
    requires '-' !in a && c.position == Some(a + "-" + b)
    ensures group == CoverGroup ==> ResizeOf(group, c, sharp).value.position == Some(CoverAnchor(sharp, a + " " + b))
    ensures group == ContainGroup ==> ResizeOf(group, c, sharp).value.position == Some(ContainAnchor(sharp, a + " " + b))
  {
    NormalizeHyphen(a, b);
  }

  /** `/f/resize/wN`, and `/f/cover/wN` likewise, resizes to width `N` only, at the
      centre, with enlargement allowed; `N` is any of 1..9999. */
  lemma WidthOnlyRequest(f: string, word: Word, n: nat, sharp: Sharp)
    requires f != "" && word in {ResizeWord, CoverWord} && 1 <= n <= 9999
    ensures var m := RouteRequest([f, word.Text(), "w" + Decimal(n)], sharp);
      && m.Some? && m.value.filename == f
      && m.value.resize == Some(Resize(CoverFit, Some(n), None, Some(CoverAnchor(sharp, "center")), None, false))
  {
    var path := [f, word.Text(), "w" + Decimal(n)];
    var j: nat := if word == ResizeWord then 0 else 2;
    var c := NoCaptures.(filename := Some(f)).(width := Some(Decimal(n)));
    WidthRouteMatch(f, word, n, j);
    FirstWidthRoute(path, word, j, c);
    RequestOfFirst(path, sharp, j, c);
    SizeTextOfDecimal(n);
    WidthOnlyResolve(f, Decimal(n), sharp);
  }

  /** The `wN` shape of `word` matches `[f, word, wN]`, capturing the file name and
      the width text. */
  lemma WidthRouteMatch(f: string, word: Word, n: nat, j: nat)
    requires f != "" && 1 <= n <= 9999
    requires (word == ResizeWord && j == 0) || (word == CoverWord && j == 2)
    ensures MatchRoute(RouteAt(j), [f, word.Text(), "w" + Decimal(n)]) ==
            Some(NoCaptures.(filename := Some(f)).(width := Some(Decimal(n))))
  {
    var path := [f, word.Text(), "w" + Decimal(n)];
    SizeTextOfDecimal(n);
    assert ("w" + Decimal(n))[1..] == Decimal(n);
    var ms := RouteAt(j).Segments();
    assert ms == [Filename, Lit(word), Width];
    var c1 := NoCaptures.(filename := Some(f));
    var c := c1.(width := Some(Decimal(n)));
    assert MatchSegment(ms[2], path[2], c1) == Some(c);
    assert MatchSegments(ms[2..], path[2..], c1) == Some(c);
    assert ms[1..][1..] == ms[2..] && path[1..][1..] == path[2..];
    assert MatchSegments(ms[1..], path[1..], c1) == Some(c);
  }

  /** The handler of the first route that matches builds the request. */
  lemma RequestOfFirst(path: seq<string>, sharp: Sharp, j: nat, c: Captures)
    requires j < RouteCount && FirstRoute(path, 0) == Some((j, c))
    ensures Captured(RouteAt(j).GroupOf(), c) && RouteRequest(path, sharp) == Some(Resolve(RouteAt(j).GroupOf(), c, sharp))
  {
    RouteCaptured(j, path, c);
  }

  /** The cover handler given only a file name and a width text `w`. */
  lemma WidthOnlyResolve(f: string, w: string, sharp: Sharp)
    requires f != "" && IsSizeText(w)
    ensures var m := Resolve(CoverGroup, NoCaptures.(filename := Some(f)).(width := Some(w)), sharp);
      && m.filename == f
      && m.resize == Some(Resize(CoverFit, Some(DigitsValue(w)), None, Some(CoverAnchor(sharp, "center")), None, false))
  {
    NormalizePlain("center");
  }

  /** The first route a `[f, word, wN]` path reaches is the `wN` shape of its word:
      route 0 for `resize`, route 2 for `cover`. */
  lemma FirstWidthRoute(path: seq<string>, word: Word, j: nat, c: Captures)
    requires (word == ResizeWord && j == 0) || (word == CoverWord && j == 2)
    requires |path| == 3 && path[1] == word.Text()
    requires MatchRoute(RouteAt(j), path) == Some(c)
    ensures FirstRoute(path, 0) == Some((j, c))
  {
    if word == CoverWord {
      assert RouteAt(0).Segments()[1] == Lit(ResizeWord);
      WordOfText(CoverWord);
      assert MatchRoute(RouteAt(0), path).None? by {
        SegmentsSucceed(RouteAt(0).Segments(), path, NoCaptures);
        assert MatchSegment(Lit(ResizeWord), path[1], NoCaptures).None?;
      }
      assert |RouteAt(1).Segments()| == 4;
      assert MatchRoute(RouteAt(1), path).None?;
      assert FirstRoute(path, 0) == FirstRoute(path, 2);
    }
  }

  /** The fit each keyword selects. */
  function FitOf(word: Word): Fit {
    match word
    case ResizeWord => CoverFit
    case CoverWord => CoverFit
    case ContainWord => ContainFit
    case FillWord => FillFit
    case InsideWord => InsideFit
    case OutsideWord => OutsideFit
  }

  /** What each handler puts in its descriptor: the group's fit, at least one
      dimension (both outside cover), a position for cover and contain only, and a
      background for contain only. */
  lemma ResizeFields(word: Word, c: Captures, sharp: Sharp)
    requires Captured(word.GroupOf(), c)
    ensures var z := ResizeOf(word.GroupOf(), c, sharp);
      && z.Some? && z.value.fit == FitOf(word)
      && (z.value.width.Some? || z.value.height.Some?)
      && (z.value.fit != CoverFit ==> z.value.width.Some? && z.value.height.Some?)
      && (z.value.position.Some? <==> z.value.fit in {CoverFit, ContainFit})
      && (z.value.background.Some? <==> z.value.fit == ContainFit)
  {
  }

  /** A routed shape's descriptor: the keyword segment, after the optional
      `unlarge`, decides the fit, and the descriptor has the fields of that fit. */
  lemma RoutedDescriptor(path: seq<string>, sharp: Sharp)
    requires RouteRequest(path, sharp).Some? && RouteRequest(path, sharp).value.resize.Some?
    ensures 2 <= |path|
    ensures var k := if path[1] == "unlarge" then 2 else 1;
      var z := RouteRequest(path, sharp).value.resize.value;
      && k < |path| && WordOf(path[k]).Some? && z.fit == FitOf(WordOf(path[k]).value)
      && (z.width.Some? || z.height.Some?)
      && (z.fit != CoverFit ==> z.width.Some? && z.height.Some?)
      && (z.position.Some? <==> z.fit in {CoverFit, ContainFit})
      && (z.background.Some? <==> z.fit == ContainFit)
  {
    var j, c := Dispatched(path, sharp);
    var r := RouteAt(j);
    ResizeUnlarge(r.GroupOf(), c, sharp);
    assert r.Shape? by { assert r.GroupOf() != PlainGroup; }
    TableRest(j);
    KeywordSegment(j, path, c);
    ResizeFields(r.word, c, sharp);
  }

  /** The keyword segment of a path a shape matched: the second segment, or the
      third after `unlarge`. */
  lemma KeywordSegment(j: nat, path: seq<string>, c: Captures)
    requires j < RouteCount && j != CatchAll && MatchRoute(RouteAt(j), path) == Some(c)
    ensures 2 <= |path|
    ensures var k := if path[1] == "unlarge" then 2 else 1;
      k < |path| && WordOf(path[k]) == Some(RouteAt(j).word)
  {
    var r := RouteAt(j);
    TableRest(j);
    RouteUnlarge(j, path, c);
    var k := if r.unlarge then 2 else 1;
    MatchedAt(r, path, k);
    WordOfText(r.word);
  }

  /** Swapping one literal matcher and the segment it matches changes nothing
      that is captured. */
  lemma {:induction false} SegmentsSwap(ms: seq<Matcher>, path: seq<string>, c: Captures, k: nat, b: Word)
    requires |ms| == |path| && k < |ms| && ms[k].Lit? && path[k] == ms[k].word.Text()
    ensures MatchSegments(ms, path, c) == MatchSegments(ms[k := Lit(b)], path[k := b.Text()], c)
    decreases k
  {
    var ms', path' := ms[k := Lit(b)], path[k := b.Text()];
    if k == 0 {
      assert ms'[1..] == ms[1..] && path'[1..] == path[1..];
    } else {
      assert ms'[0] == ms[0] && path'[0] == path[0];
      assert ms'[1..] == ms[1..][k - 1 := Lit(b)] && path'[1..] == path[1..][k - 1 := b.Text()];
      match MatchSegment(ms[0], path[0], c)
      case None =>
      case Some(c') => SegmentsSwap(ms[1..], path[1..], c', k - 1, b);
    }
  }

  /** The `resize` shapes and their `cover` twins two entries later. */
  lemma Twins(i: nat)
    requires i in {0, 1, 4, 5, 8, 9}
    ensures RouteAt(i).Shape? && RouteAt(i).word == ResizeWord && RouteAt(i).unlarge == (i % 2 == 1)
    ensures RouteAt(i + 2) == RouteAt(i).(word := CoverWord)
  {
  }

  /** `resize` and `cover` are synonyms: each `resize` shape has a `cover` twin that
      captures the same from the same path with `cover` in place of `resize`, and is
      resolved by the same handler. */
  lemma ResizeCoverSynonym(i: nat, path: seq<string>)
    requires i in {0, 1, 4, 5, 8, 9}
    requires 1 + i % 2 < |path| && path[1 + i % 2] == ResizeWord.Text()
    ensures RouteAt(i).GroupOf() == RouteAt(i + 2).GroupOf()
    ensures MatchRoute(RouteAt(i + 2), path[1 + i % 2 := CoverWord.Text()]) == MatchRoute(RouteAt(i), path)
  {
    Twins(i);
    var k := 1 + i % 2;
    var r := RouteAt(i);
    var ms := r.Segments();
    var n := |ms|;
    assert RouteAt(i + 2).Segments() == ms[k := Lit(CoverWord)] by {
      assert ms == [Filename] + (if r.unlarge then [Unlarge] else []) + [Lit(r.word)] + r.rest;
    }
    var path' := path[k := CoverWord.Text()];
    if |path| == n {
      SegmentsSwap(ms, path, NoCaptures, k, CoverWord);
    } else if |path| == n + 1 {
      assert path'[..n] == path[..n][k := CoverWord.Text()];
      SegmentsSwap(ms, path[..n], NoCaptures.(parameters := Some(path[n])), k, CoverWord);
    }
  }

  /** Where the `bg:background` matcher stands, its text is the background. */
  lemma {:induction false} SegmentsBackgroundAt(ms: seq<Matcher>, path: seq<string>, c: Captures, k: nat)
    requires |ms| == |path| && MatchSegments(ms, path, c).Some? && k < |ms|
    requires ms[k] == Background && Background !in ms[k + 1..]
    ensures 3 <= |path[k]| && MatchSegments(ms, path, c).value.background == Some(path[k][2..])
    decreases k
  {
    var c' := MatchSegment(ms[0], path[0], c).value;
    if k == 0 {
      assert ms[1..] == ms[k + 1..];
      SegmentsCaptureOptional(ms[1..], path[1..], c');
    } else {
      assert ms[1..][k - 1 + 1..] == ms[k + 1..];
      SegmentsBackgroundAt(ms[1..], path[1..], c', k - 1);
    }
  }

  /** A shape's own matchers follow the file name, the optional `unlarge` and the
      keyword. */
  lemma ShapeRest(r: Route)
    requires r.Shape?
    ensures var o := if r.unlarge then 3 else 2;
      && r.Segments()[o..] == r.rest
      && (forall m :: m in r.rest ==> m in r.Segments())
      && (forall m :: m in r.Segments() && !m.Lit? && m != Filename && m != Unlarge ==> m in r.rest)
  {
    assert r.Segments() == [Filename] + (if r.unlarge then [Unlarge] else []) + [Lit(r.word)] + r.rest;
  }

  /** The contain handler's background: the captured text, else the default. */
  lemma ContainResize(c: Captures, sharp: Sharp)
    requires Captured(ContainGroup, c)
    ensures ResizeOf(ContainGroup, c, sharp).Some?
    ensures ResizeOf(ContainGroup, c, sharp).value.background
            == Some(if c.background.Some? then c.background.value else DefaultBackground)
  {
  }

  /** Contain background: the text after `bg` where the shape captures it as
      `background`, and otherwise the default `rgba(0,0,0,1)`; in particular the
      two shapes that capture it as `bgcolor` always get the default, whatever
      colour they were given. */
  lemma ContainBackground(r: Route, path: seq<string>, c: Captures, sharp: Sharp, b: nat)
    requires r.Shape? && r.word == ContainWord && MatchRoute(r, path) == Some(c)
    requires Captured(ContainGroup, c)
    ensures var k := (if r.unlarge then 3 else 2) + b;
      b < |r.rest| && r.rest[b] == Background && Background !in r.rest[b + 1..] ==>
        3 <= |path[k]| && ResizeOf(ContainGroup, c, sharp).value.background == Some(path[k][2..])
    ensures Background !in r.rest ==> ResizeOf(ContainGroup, c, sharp).value.background == Some(DefaultBackground)
    ensures Bgcolor in r.rest ==> c.bgcolor.Some?
  {
    var ms := r.Segments();
    var p, c0 := RouteSegments(r, path);
    ShapeRest(r);
    ContainResize(c, sharp);
    SegmentsCaptureOptional(ms, p, c0);
    if b < |r.rest| && r.rest[b] == Background && Background !in r.rest[b + 1..] {
      BackgroundSegment(r, path, c, b);
    }
  }

  /** The last `bg:background` segment of a matching route supplies the captured
      background. */
  lemma BackgroundSegment(r: Route, path: seq<string>, c: Captures, b: nat)
    requires r.Shape? && MatchRoute(r, path) == Some(c)
    requires b < |r.rest| && r.rest[b] == Background && Background !in r.rest[b + 1..]
    ensures var k := (if r.unlarge then 3 else 2) + b;
      k < |path| && 3 <= |path[k]| && c.background == Some(path[k][2..])
  {
    var ms := r.Segments();
    var p, c0 := RouteSegments(r, path);
    var o := if r.unlarge then 3 else 2;
    ShapeRest(r);
    assert ms[o + b + 1..] == r.rest[b + 1..];
    SegmentsBackgroundAt(ms, p, c0, o + b);
    assert p[o + b] == path[o + b];
  }
}
