/** The route table and its resize resolvers.

    A request path is a sequence of already-decoded segments. Each route is a
    list of segment matchers, optionally followed by one more segment, the
    cosmetic `parameters`. The table is tried in declaration order and the first
    route that matches decides. Its handler turns the named captures into a
    manipulation request: the file name, the parsed cosmetic parameters and a
    resize descriptor. */
module Routes {
  import opened Text
  import opened Parameters

  // ---------------------------------------------------------------------------
  // Segment patterns

  /** `[1-9][0-9]{0,3}`: the text of a width or height. */
  predicate IsSizeText(w: string) {
    1 <= |w| <= 4 && IsNonZeroDigit(w[0]) && AllDigits(w)
  }

  /** A width or height in pixels, as the size pattern admits them. */
  type Dimension = n: nat | 1 <= n <= 9999 witness 1

  /** `Number(w)` on a size text. */
  function SizeValue(w: string): (n: Dimension)
    requires IsSizeText(w)
    ensures n == DigitsValue(w)
  {
    DigitsValueBound(w);
    assert Pow10(1) == 10 && Pow10(2) == 100 && Pow10(3) == 1000 && Pow10(4) == 10000;
    DigitsValue(w)
  }

  const GravityWords: set<string> :=
    {"center", "centre", "east", "south", "southeast", "southwest", "north", "northeast", "northwest", "west"}
  const PositionWords: set<string> :=
    {"bottom", "center", "centre", "left", "left-bottom", "left-top", "right", "right-bottom", "right-top", "top"}
  const StrategyWords: set<string> := {"attention", "entropy"}

  /** The `:position(...)` alternatives: the cover shapes also admit the strategies. */
  datatype Positions = CoverPositions | ContainPositions {
    function Words(): set<string> {
      match this
      case CoverPositions => GravityWords + PositionWords + StrategyWords
      case ContainPositions => GravityWords + PositionWords
    }
  }

  /** What a request path captured, by parameter name. */
  datatype Captures = Captures(
    filename: Option<string>,
    unlarge: Option<string>,
    width: Option<string>,
    height: Option<string>,
    position: Option<string>,
    background: Option<string>,
    bgcolor: Option<string>,
    parameters: Option<string>)

  const NoCaptures := Captures(None, None, None, None, None, None, None, None)

  /** One segment of a route pattern. */
  datatype Matcher =
    | Filename                      // `:filename`: any non-empty segment
    | Lit(word: Word)               // the group's keyword
    | Unlarge                       // `:unlarge(unlarge)`
    | Width                         // `w` and a size, captured as `width`
    | Height                        // `h` and a size, captured as `height`
    | Size                          // a size, `x` and a size: `width` and `height`
    | Position(words: Positions)    // `:position(...)`, one of the `words` alternatives
    | Background                    // `bg:background`: `bg` and non-empty text
    | Bgcolor                       // `bg:bgcolor`: the same text, captured as `bgcolor`

  /** The width and height of a `WxH` segment; sizes contain no `x`, so the first
      `x` is the separator. */
  function SizePair(seg: string): (r: Option<(string, string)>)
    ensures r.Some? ==> IsSizeText(r.value.0) && IsSizeText(r.value.1) && seg == r.value.0 + "x" + r.value.1
  {
    match IndexOf(seg, "x", 0)
    case None => None
    case Some(k) =>
      if IsSizeText(seg[..k]) && IsSizeText(seg[k + 1..]) then
        assert seg[k..k + 1] == "x";
        assert seg == seg[..k] + seg[k..k + 1] + seg[k + 1..];
        Some((seg[..k], seg[k + 1..]))
      else None
  }

  /** Matching one segment against one matcher adds that matcher's capture. */
  function MatchSegment(m: Matcher, seg: string, c: Captures): (r: Option<Captures>)
    ensures r.Some? ==> r.value.filename == (if m == Filename then Some(seg) else c.filename)
    ensures r.Some? ==> r.value.parameters == c.parameters
  {
    match m
    case Filename => if seg != "" then Some(c.(filename := Some(seg))) else None
    case Lit(word) => if seg == word.Text() then Some(c) else None
    case Unlarge => if seg == "unlarge" then Some(c.(unlarge := Some(seg))) else None
    case Width => if 1 <= |seg| && seg[0] == 'w' && IsSizeText(seg[1..]) then Some(c.(width := Some(seg[1..]))) else None
    case Height => if 1 <= |seg| && seg[0] == 'h' && IsSizeText(seg[1..]) then Some(c.(height := Some(seg[1..]))) else None
    case Size =>
      (match SizePair(seg)
       case None => None
       case Some((w, h)) => Some(c.(width := Some(w), height := Some(h))))
    case Position(words) => if seg in words.Words() then Some(c.(position := Some(seg))) else None
    case Background => if 3 <= |seg| && seg[..2] == "bg" then Some(c.(background := Some(seg[2..]))) else None
    case Bgcolor => if 3 <= |seg| && seg[..2] == "bg" then Some(c.(bgcolor := Some(seg[2..]))) else None
  }

  /** No matcher accepts an empty segment. */
  lemma MatchedSegmentNonEmpty(m: Matcher, seg: string, c: Captures)
    requires MatchSegment(m, seg, c).Some?
    ensures seg != ""
  {
    if m.Position? {
      assert forall w <- m.words.Words() :: |w| > 0;
    }
  }

  /** Matching the segments of a path, one matcher per segment: every matched
      segment is non-empty, the `parameters` capture is left alone, and the file
      name is the segment matched by the only `:filename` matcher. */
  function MatchSegments(ms: seq<Matcher>, path: seq<string>, c: Captures): (r: Option<Captures>)
    requires |ms| == |path|
    ensures r.Some? ==> forall k :: 0 <= k < |path| ==> path[k] != ""
    ensures r.Some? ==> r.value.parameters == c.parameters
    ensures r.Some? && Filename !in ms ==> r.value.filename == c.filename
    ensures r.Some? && ms != [] && ms[0] == Filename && Filename !in ms[1..] ==> r.value.filename == Some(path[0])
    decreases |ms|
  {
    if ms == [] then Some(c)
    else
      match MatchSegment(ms[0], path[0], c)
      case None => None
      case Some(c') =>
        MatchedSegmentNonEmpty(ms[0], path[0], c);
        assert forall m :: m in ms <==> m == ms[0] || m in ms[1..];
        MatchSegments(ms[1..], path[1..], c')
  }

  /** The resolver group a route belongs to, one per `app.get` registration. */
  datatype Group = CoverGroup | ContainGroup | FillGroup | InsideGroup | OutsideGroup | PlainGroup

  /** The keyword segment of a shape; it decides the group. */
  datatype Word = ResizeWord | CoverWord | ContainWord | FillWord | InsideWord | OutsideWord {
    function Text(): string {
      match this
      case ResizeWord => "resize"
      case CoverWord => "cover"
      case ContainWord => "contain"
      case FillWord => "fill"
      case InsideWord => "inside"
      case OutsideWord => "outside"
    }

    function GroupOf(): Group {
      match this
      case ResizeWord => CoverGroup
      case CoverWord => CoverGroup
      case ContainWord => ContainGroup
      case FillWord => FillGroup
      case InsideWord => InsideGroup
      case OutsideWord => OutsideGroup
    }
  }

  /** A route: `/:filename`, then (except for the catch-all) the optional
      `:unlarge(unlarge)` segment, the keyword and the remaining matchers; every
      route ends with the optional `parameters` segment. */
  datatype Route =
    | Shape(unlarge: bool, word: Word, rest: seq<Matcher>)
    | CatchAllRoute
  {
    function Segments(): (ms: seq<Matcher>)
      ensures 1 <= |ms| && ms[0] == Filename
      ensures Shape? ==> |ms| == (if unlarge then 3 else 2) + |rest|
      ensures Shape? ==> ms[1] == (if unlarge then Unlarge else Lit(word))
      ensures Shape? && unlarge ==> ms[2] == Lit(word)
      ensures CatchAllRoute? ==> |ms| == 1
    {
      match this
      case CatchAllRoute => [Filename]
      case Shape(_, _, _) => [Filename] + (if unlarge then [Unlarge] else []) + [Lit(word)] + rest
    }

    function GroupOf(): Group {
      if Shape? then word.GroupOf() else PlainGroup
    }
  }

  /** A route matches a path of its own length, or one more non-empty segment that
      is captured as `parameters`. */
  function MatchRoute(r: Route, path: seq<string>): (c: Option<Captures>)
    ensures c.Some? ==> |path| == |r.Segments()| || |path| == |r.Segments()| + 1
    ensures c.Some? ==> c.value.parameters == (if |path| == |r.Segments()| then None else Some(path[|r.Segments()|]))
    ensures c.Some? ==> forall k :: 0 <= k < |path| ==> path[k] != ""
  {
    var ms := r.Segments();
    var n := |ms|;
    if |path| == n then MatchSegments(ms, path, NoCaptures)
    else if |path| == n + 1 && path[n] != "" then
      var m := MatchSegments(ms, path[..n], NoCaptures.(parameters := Some(path[n])));
      assert m.Some? ==> forall k :: 0 <= k < |path| ==> path[k] != "" by {
        if m.Some? {
          forall k | 0 <= k < |path| ensures path[k] != "" {
            if k < n { assert path[k] == path[..n][k]; }
          }
        }
      }
      m
    else None
  }

  // ---------------------------------------------------------------------------
  // The table, in declaration order

  const CP := Position(CoverPositions)
  const KP := Position(ContainPositions)

  /** The routes in declaration order, by index. */
  function RouteAt(j: nat): (r: Route)
    requires j < RouteCount
    ensures r.CatchAllRoute? <==> j == CatchAll
    ensures r.GroupOf() == if j < 14 then CoverGroup else if j < 24 then ContainGroup
                           else if j < 26 then FillGroup else if j < 28 then InsideGroup
                           else if j < 30 then OutsideGroup else PlainGroup
    ensures r.Shape? ==> Filename !in r.rest && Unlarge !in r.rest
  {
    match j
    case 0 => Shape(false, ResizeWord, [Width])
    case 1 => Shape(true, ResizeWord, [Width])
    case 2 => Shape(false, CoverWord, [Width])
    case 3 => Shape(true, CoverWord, [Width])
    case 4 => Shape(false, ResizeWord, [Height])
    case 5 => Shape(true, ResizeWord, [Height])
    case 6 => Shape(false, CoverWord, [Height])
    case 7 => Shape(true, CoverWord, [Height])
    case 8 => Shape(false, ResizeWord, [Size])
    case 9 => Shape(true, ResizeWord, [Size])
    case 10 => Shape(false, CoverWord, [Size])
    case 11 => Shape(true, CoverWord, [Size])
    case 12 => Shape(false, CoverWord, [CP, Size])
    case 13 => Shape(true, CoverWord, [CP, Size])
    case 14 => Shape(false, ContainWord, [Size])
    case 15 => Shape(false, ContainWord, [Background, Size])
    case 16 => Shape(true, ContainWord, [Size])
    case 17 => Shape(true, ContainWord, [Background, Size])
    case 18 => Shape(false, ContainWord, [KP, Size])
    case 19 => Shape(false, ContainWord, [Background, KP, Size])
    case 20 => Shape(false, ContainWord, [KP, Background, Size])
    case 21 => Shape(true, ContainWord, [KP, Size])
    case 22 => Shape(true, ContainWord, [Bgcolor, KP, Size])
    case 23 => Shape(true, ContainWord, [KP, Bgcolor, Size])
    case 24 => Shape(false, FillWord, [Size])
    case 25 => Shape(true, FillWord, [Size])
    case 26 => Shape(false, InsideWord, [Size])
    case 27 => Shape(true, InsideWord, [Size])
    case 28 => Shape(false, OutsideWord, [Size])
    case 29 => Shape(true, OutsideWord, [Size])
    case _ => CatchAllRoute
  }

  const RouteCount: nat := 31

  /** The index of the catch-all `/:filename/:parameters?`. */
  const CatchAll: nat := 30

  /** The first route at or after index `from` that matches, with its captures:
      the routes are tried in declaration order. */
  function FirstRoute(path: seq<string>, from: nat): (r: Option<(nat, Captures)>)
    requires from <= RouteCount
    ensures r.Some? ==> from <= r.value.0 < RouteCount && MatchRoute(RouteAt(r.value.0), path) == Some(r.value.1)
    ensures r.Some? ==> forall j :: from <= j < r.value.0 ==> MatchRoute(RouteAt(j), path).None?
    ensures r.None? ==> forall j :: from <= j < RouteCount ==> MatchRoute(RouteAt(j), path).None?
    decreases RouteCount - from
  {
    if from == RouteCount then None
    else
      match MatchRoute(RouteAt(from), path)
      case Some(c) => Some((from, c))
      case None =>
        // route `from` missed, so the misses from `from + 1` on extend down to `from`
        var rest := FirstRoute(path, from + 1);
        assert rest.Some? ==> forall j :: from <= j < rest.value.0 ==> MatchRoute(RouteAt(j), path).None? by {
          if rest.Some? {
            forall j | from <= j < rest.value.0 ensures MatchRoute(RouteAt(j), path).None? {
              if j > from { assert from + 1 <= j < rest.value.0; }
            }
          }
        }
        assert rest.None? ==> forall j :: from <= j < RouteCount ==> MatchRoute(RouteAt(j), path).None? by {
          if rest.None? {
            forall j | from <= j < RouteCount ensures MatchRoute(RouteAt(j), path).None? {
              if j > from { assert from + 1 <= j < RouteCount; }
            }
          }
        }
        rest
  }

  // ---------------------------------------------------------------------------
  // Resolvers

  datatype Fit = CoverFit | ContainFit | FillFit | InsideFit | OutsideFit

  /** A resize position: a value of sharp's `gravity` or `strategy` table, or the
      position text passed through. */
  datatype Anchor = Code(code: int) | Named(name: string)

  /** The `ResizeOptions` a handler builds. */
  datatype Resize = Resize(
    fit: Fit,
    width: Option<Dimension>,
    height: Option<Dimension>,
    position: Option<Anchor>,
    background: Option<string>,
    withoutEnlargement: bool)

  /** What a handler attaches to the request for the manipulator. */
  datatype Manipulation = Manipulation(filename: string, parameters: Parameters, resize: Option<Resize>)

  /** sharp's `gravity` and `strategy` tables; their numeric values are sharp's. */
  datatype Sharp = Sharp(gravity: map<string, int>, strategy: map<string, int>)

  /** `table[key]` used as a condition: a missing key and the value 0 are misses. */
  function Lookup(table: map<string, int>, key: string): (r: Option<int>)
    ensures r.Some? <==> key in table && table[key] != 0
    ensures r.Some? ==> r.value == table[key]
  {
    if key in table && table[key] != 0 then Some(table[key]) else None
  }

  /** `position.replace('-', ' ')`: the first hyphen becomes a space. */
  function Normalize(position: string): (r: string)
    ensures |r| == |position|
    ensures forall k :: 0 <= k < |r| && r[k] != position[k] ==> position[k] == '-' && r[k] == ' '
  {
    match IndexOf(position, "-", 0)
    case None => position
    case Some(i) =>
      var r := position[..i] + " " + position[i + 1..];
      assert position[i] == '-' by { StartsAtChar(position, i, "-", 0); }
      assert forall k :: 0 <= k < |r| && k != i ==> r[k] == position[k];
      assert r == ReplaceFirst(position, "-", " ");
      r
  }

  /** Cover: the gravity table, then the strategy table, else the text itself. It
      differs from the contain anchor exactly for the strategies that are not
      gravities. */
  function CoverAnchor(sharp: Sharp, token: string): (a: Anchor)
    ensures Lookup(sharp.gravity, token).Some? ==> a == Code(sharp.gravity[token])
    ensures Lookup(sharp.gravity, token).None? && Lookup(sharp.strategy, token).Some? ==> a == Code(sharp.strategy[token])
    ensures Lookup(sharp.gravity, token).None? && Lookup(sharp.strategy, token).None? ==> a == Named(token)
    ensures a == ContainAnchor(sharp, token)
            <==> Lookup(sharp.gravity, token).Some? || Lookup(sharp.strategy, token).None?
  {
    match Lookup(sharp.gravity, token)
    case Some(g) => Code(g)
    case None =>
      match Lookup(sharp.strategy, token)
      case Some(t) => Code(t)
      case None => Named(token)
  }

  /** Contain: the gravity table, else the text itself. */
  function ContainAnchor(sharp: Sharp, token: string): (a: Anchor)
    ensures a.Code? <==> token in sharp.gravity && sharp.gravity[token] != 0
    ensures a.Code? ==> a.code == sharp.gravity[token]
    ensures a.Named? ==> a.name == token
  {
    match Lookup(sharp.gravity, token)
    case Some(g) => Code(g)
    case None => Named(token)
  }

  function OrElse(o: Option<string>, fallback: string): string {
    if o.Some? then o.value else fallback
  }

  /** The default contain background. */
  const DefaultBackground := "rgba(0,0,0,1)"

  /** Captures a route of `group` can produce: a file name, size texts, and the
      dimensions that group's handler converts. */
  predicate Captured(group: Group, c: Captures) {
    && c.filename.Some? && c.filename.value != ""
    && (c.width.Some? ==> IsSizeText(c.width.value))
    && (c.height.Some? ==> IsSizeText(c.height.value))
    && (group == CoverGroup ==> c.width.Some? || c.height.Some?)
    && (group in {ContainGroup, FillGroup, InsideGroup, OutsideGroup} ==> c.width.Some? && c.height.Some?)
  }

  /** `Number(w)` on an optional size: the number whose numeral was captured. */
  function SizeOf(w: Option<string>): (r: Option<Dimension>)
    requires w.Some? ==> IsSizeText(w.value)
    ensures r.Some? <==> w.Some?
    ensures r.Some? ==> Decimal(r.value) == w.value
  {
    if w.Some? then
      DecimalOfCanonical(w.value);
      Some(SizeValue(w.value))
    else None
  }

  /** The resize descriptor the handler of `group` builds: `unlarge` defaults to
      false and `position` to `center`. */
  function ResizeOf(group: Group, c: Captures, sharp: Sharp): (r: Option<Resize>)
    requires Captured(group, c)
    ensures r.None? <==> group == PlainGroup
    ensures r.Some? ==> r.value.width.Some? || r.value.height.Some?
    ensures r.Some? ==> r.value.width.Some? == c.width.Some? && r.value.height.Some? == c.height.Some?
    ensures r.Some? && r.value.width.Some? ==> Decimal(r.value.width.value) == c.width.value
    ensures r.Some? && r.value.height.Some? ==> Decimal(r.value.height.value) == c.height.value
    ensures r.Some? ==> (r.value.withoutEnlargement <==> c.unlarge.Some? && c.unlarge.value != "")
    ensures group == CoverGroup ==> r.value.position == Some(CoverAnchor(sharp, Normalize(OrElse(c.position, "center"))))
    ensures group == ContainGroup ==> r.value.position == Some(ContainAnchor(sharp, Normalize(OrElse(c.position, "center"))))
    ensures r.Some? && group !in {CoverGroup, ContainGroup} ==> r.value.position.None?
    ensures group == ContainGroup ==> r.value.background == Some(OrElse(c.background, DefaultBackground))
    ensures r.Some? && group != ContainGroup ==> r.value.background.None?
  {
    var unlarge := c.unlarge.Some? && c.unlarge.value != "";
    var token := Normalize(OrElse(c.position, "center"));
    match group
    case CoverGroup =>
      Some(Resize(CoverFit, SizeOf(c.width), SizeOf(c.height), Some(CoverAnchor(sharp, token)), None, unlarge))
    case ContainGroup =>
      Some(Resize(ContainFit, SizeOf(c.width), SizeOf(c.height), Some(ContainAnchor(sharp, token)),
                  Some(OrElse(c.background, DefaultBackground)), unlarge))
    case FillGroup => Some(Resize(FillFit, SizeOf(c.width), SizeOf(c.height), None, None, unlarge))
    case InsideGroup => Some(Resize(InsideFit, SizeOf(c.width), SizeOf(c.height), None, None, unlarge))
    case OutsideGroup => Some(Resize(OutsideFit, SizeOf(c.width), SizeOf(c.height), None, None, unlarge))
    case PlainGroup => None
  }

  /** The handler of `group` applied to the captures; `parameters` defaults to the
      empty segment. */
  function Resolve(group: Group, c: Captures, sharp: Sharp): (m: Manipulation)
    requires Captured(group, c)
    ensures m.filename == c.filename.value && m.filename != ""
    ensures c.parameters.None? ==> m.parameters == NoParameters
    ensures m.resize.None? <==> group == PlainGroup
  {
    Manipulation(c.filename.value, Parsed(OrElse(c.parameters, "")), ResizeOf(group, c, sharp))
  }

  // ---------------------------------------------------------------------------
  // Dispatch

  /** What one matcher adds to the captures. */
  lemma SegmentStep(m: Matcher, seg: string, c: Captures)
    requires MatchSegment(m, seg, c).Some?
    ensures var d := MatchSegment(m, seg, c).value;
      && (d.filename.Some? <==> c.filename.Some? || m == Filename)
      && (d.width.Some? <==> c.width.Some? || m == Width || m == Size)
      && (d.height.Some? <==> c.height.Some? || m == Height || m == Size)
      && d.unlarge == (if m == Unlarge then Some("unlarge") else c.unlarge)
      && d.parameters == c.parameters
      && (d.position.Some? <==> c.position.Some? || m.Position?)
      && (m != Background ==> d.background == c.background)
      && (m != Bgcolor ==> d.bgcolor == c.bgcolor)
      && (m == Bgcolor || c.bgcolor.Some? ==> d.bgcolor.Some?)
      && (WellFormed(c) ==> WellFormed(d))
  {
  }

  /** What matching a run of segments captures: each matcher adds its own capture
      and keeps the others. */
  lemma {:induction false} SegmentsCapture(ms: seq<Matcher>, path: seq<string>, c: Captures)
    requires |ms| == |path| && MatchSegments(ms, path, c).Some?
    ensures var d := MatchSegments(ms, path, c).value;
      && (d.filename.Some? <==> c.filename.Some? || Filename in ms)
      && (d.width.Some? <==> c.width.Some? || Width in ms || Size in ms)
      && (d.height.Some? <==> c.height.Some? || Height in ms || Size in ms)
    decreases |ms|
  {
    if ms != [] {
      var c' := MatchSegment(ms[0], path[0], c).value;
      assert MatchSegments(ms, path, c) == MatchSegments(ms[1..], path[1..], c');
      SegmentStep(ms[0], path[0], c);
      SegmentsCapture(ms[1..], path[1..], c');
      assert forall m :: m in ms <==> m == ms[0] || m in ms[1..];
    }
  }

  /** `unlarge` is captured exactly when its matcher is present, and the
      `parameters` segment is left alone. */
  lemma {:induction false} SegmentsCaptureFlags(ms: seq<Matcher>, path: seq<string>, c: Captures)
    requires |ms| == |path| && MatchSegments(ms, path, c).Some?
    ensures var d := MatchSegments(ms, path, c).value;
      && d.unlarge == (if Unlarge in ms then Some("unlarge") else c.unlarge)
      && d.parameters == c.parameters
    decreases |ms|
  {
    if ms != [] {
      var c' := MatchSegment(ms[0], path[0], c).value;
      assert MatchSegments(ms, path, c) == MatchSegments(ms[1..], path[1..], c');
      SegmentStep(ms[0], path[0], c);
      SegmentsCaptureFlags(ms[1..], path[1..], c');
      assert forall m :: m in ms <==> m == ms[0] || m in ms[1..];
    }
  }

  /** Position and background texts come only from their own matchers. */
  lemma {:induction false} SegmentsCaptureOptional(ms: seq<Matcher>, path: seq<string>, c: Captures)
    requires |ms| == |path| && MatchSegments(ms, path, c).Some?
    ensures var d := MatchSegments(ms, path, c).value;
      && (d.position.Some? <==> c.position.Some? || exists m :: m in ms && m.Position?)
      && (Background !in ms ==> d.background == c.background)
      && (Bgcolor !in ms ==> d.bgcolor == c.bgcolor)
      && (Bgcolor in ms ==> d.bgcolor.Some?)
    decreases |ms|
  {
    if ms != [] {
      var c' := MatchSegment(ms[0], path[0], c).value;
      assert MatchSegments(ms, path, c) == MatchSegments(ms[1..], path[1..], c');
      SegmentStep(ms[0], path[0], c);
      SegmentsCaptureOptional(ms[1..], path[1..], c');
      assert forall m :: m in ms <==> m == ms[0] || m in ms[1..];
    }
  }

  /** Matching keeps captures well formed. */
  lemma {:induction false} SegmentsWellFormed(ms: seq<Matcher>, path: seq<string>, c: Captures)
    requires |ms| == |path| && MatchSegments(ms, path, c).Some? && WellFormed(c)
    ensures WellFormed(MatchSegments(ms, path, c).value)
    decreases |ms|
  {
    if ms != [] {
      var c' := MatchSegment(ms[0], path[0], c).value;
      assert MatchSegments(ms, path, c) == MatchSegments(ms[1..], path[1..], c');
      SegmentStep(ms[0], path[0], c);
      SegmentsWellFormed(ms[1..], path[1..], c');
    }
  }

  /** The file name is non-empty and sizes are size texts. */
  predicate WellFormed(c: Captures) {
    && (c.filename.Some? ==> c.filename.value != "")
    && (c.width.Some? ==> IsSizeText(c.width.value))
    && (c.height.Some? ==> IsSizeText(c.height.value))
  }

  /** The last matcher of a shape is the one that captures its sizes. */
  lemma TableSizes(j: nat)
    requires j < RouteCount
    ensures RouteAt(j).Shape? ==> |RouteAt(j).rest| >= 1
    ensures RouteAt(j).Shape? && RouteAt(j).GroupOf() == CoverGroup ==> RouteAt(j).rest[|RouteAt(j).rest| - 1] in {Width, Height, Size}
    ensures RouteAt(j).Shape? && RouteAt(j).GroupOf() != CoverGroup ==> RouteAt(j).rest[|RouteAt(j).rest| - 1] == Size
  {
  }

  /** Every route of the table captures what its handler needs. */
  lemma RouteCaptured(j: nat, path: seq<string>, c: Captures)
    requires j < RouteCount && MatchRoute(RouteAt(j), path) == Some(c)
    ensures Captured(RouteAt(j).GroupOf(), c)
  {
    TableSizes(j);
    SizesCaptured(RouteAt(j), path, c);
  }

  /** A route whose last matcher captures the sizes its group needs captures what
      its handler needs. */
  lemma SizesCaptured(r: Route, path: seq<string>, c: Captures)
    requires MatchRoute(r, path) == Some(c)
    requires r.Shape? ==> |r.rest| >= 1
    requires r.Shape? && r.GroupOf() == CoverGroup ==> r.rest[|r.rest| - 1] in {Width, Height, Size}
    requires r.Shape? && r.GroupOf() != CoverGroup ==> r.rest[|r.rest| - 1] == Size
    ensures Captured(r.GroupOf(), c)
  {
    RouteCaptures(r, path, c);
    if r.Shape? {
      var ms := r.Segments();
      assert r.rest[|r.rest| - 1] == ms[|ms| - 1];
    }
  }

  /** What a matching route captures: the file name, and a width or height exactly
      when one of its matchers captures it; every capture is well formed. */
  lemma RouteCaptures(r: Route, path: seq<string>, c: Captures)
    requires MatchRoute(r, path) == Some(c)
    ensures WellFormed(c) && c.filename.Some?
    ensures c.width.Some? <==> Width in r.Segments() || Size in r.Segments()
    ensures c.height.Some? <==> Height in r.Segments() || Size in r.Segments()
  {
    var ms := r.Segments();
    var n := |ms|;
    var p := if |path| == n then path else path[..n];
    var c0 := if |path| == n then NoCaptures else NoCaptures.(parameters := Some(path[n]));
    SegmentsCapture(ms, p, c0);
    SegmentsWellFormed(ms, p, c0);
  }

  /** The manipulation the first matching route's handler builds; no route is a
      routing miss. */
  function RouteRequest(path: seq<string>, sharp: Sharp): (r: Option<Manipulation>)
    ensures r.Some? <==> exists j :: 0 <= j < RouteCount && MatchRoute(RouteAt(j), path).Some?
  {
    SomeRouteMatches(path);
    match FirstRoute(path, 0)
    case None => None
    case Some((j, c)) =>
      RouteCaptured(j, path, c);
      Some(Resolve(RouteAt(j).GroupOf(), c, sharp))
  }

  /** The search finds a route exactly when some route of the table matches. */
  lemma SomeRouteMatches(path: seq<string>)
    ensures FirstRoute(path, 0).Some? <==> exists j :: 0 <= j < RouteCount && MatchRoute(RouteAt(j), path).Some?
  {
    if FirstRoute(path, 0).Some? {
      var j := FirstRoute(path, 0).value.0;
      assert MatchRoute(RouteAt(j), path).Some?;
    }
  }
}
