/** The cosmetic-parameter scanner: one path segment such as
    `quality(80)blur(3)webp` becomes an all-optional parameter record.

    Each keyword has its own pattern. `paramParser` runs each pattern as an
    independent global left-to-right scan over the same text (ECMAScript
    `String.replace` with a `g` regex and a callback), and every match overwrites
    that keyword's field. Patterns are modelled as recognizers `MatchAt(key, s, i)`
    that say whether the pattern matches at index `i`, how long the match is and
    what the callback stores. */
module Parameters {
  import opened Text

  /** The four output types; `Name` is the value the `formats` table maps to. */
  datatype Mime = Jpeg | Png | Webp | Svg {
    function Name(): string {
      match this
      case Jpeg => "image/jpeg"
      case Png => "image/png"
      case Webp => "image/webp"
      case Svg => "image/svg+xml"
    }
  }

  /** The `formats` table: keyed by the lower-cased format word. */
  function FormatOf(word: string): (r: Option<Mime>)
    ensures r.Some? <==> word in {"jpeg", "png", "svg", "webp"}
  {
    if word == "jpeg" then Some(Jpeg)
    else if word == "png" then Some(Png)
    else if word == "svg" then Some(Svg)
    else if word == "webp" then Some(Webp)
    else None
  }

  /** `blur` is either `true` (sharp picks the sigma) or `Number(sigma)`; the sigma is
      kept as its captured text, since the pattern admits non-numeric text. */
  datatype Blur = BlurAuto | BlurSigma(text: string)

  datatype Rotation = Rotation(angle: int, background: Option<string>)

  datatype Parameters = Parameters(
    alphaQuality: Option<int>,
    blur: Option<Blur>,
    format: Option<Mime>,
    progressive: Option<bool>,
    quality: Option<int>,
    rotate: Option<Rotation>)
  {
    /** The field `key` controls, as the token that last wrote it. */
    function Field(key: Keyword): (r: Option<Token>)
      ensures r.Some? ==> r.value.Key() == key
    {
      match key
      case AlphaQualityKey => if alphaQuality.Some? then Some(AlphaQualityTok(alphaQuality.value)) else None
      case BlurKey => if blur.Some? then Some(BlurTok(blur.value)) else None
      case FormatKey => if format.Some? then Some(FormatTok(format.value)) else None
      case ProgressiveKey => if progressive.Some? then Some(ProgressiveTok(progressive.value)) else None
      case QualityKey => if quality.Some? then Some(QualityTok(quality.value)) else None
      case RotateKey => if rotate.Some? then Some(RotateTok(rotate.value)) else None
    }
  }

  const NoParameters := Parameters(None, None, None, None, None, None)

  datatype Keyword = AlphaQualityKey | BlurKey | FormatKey | ProgressiveKey | QualityKey | RotateKey

  /** What one callback invocation writes into its field. */
  datatype Token =
    | AlphaQualityTok(alphaQuality: int)
    | BlurTok(blur: Blur)
    | FormatTok(format: Mime)
    | ProgressiveTok(progressive: bool)
    | QualityTok(quality: int)
    | RotateTok(rotate: Rotation)
  {
    function Key(): Keyword {
      match this
      case AlphaQualityTok(_) => AlphaQualityKey
      case BlurTok(_) => BlurKey
      case FormatTok(_) => FormatKey
      case ProgressiveTok(_) => ProgressiveKey
      case QualityTok(_) => QualityKey
      case RotateTok(_) => RotateKey
    }
  }

  /** A match: its length in characters and what its callback stores. */
  datatype Hit = Hit(len: nat, token: Token)

  // ---------------------------------------------------------------------------
  // Sub-grammars (the string constants that build the regexes)

  /** `colorInt`: 0..256 written without a leading zero. */
  predicate IsColorIntText(w: string) {
    || w == "0"
    || (|w| == 1 && IsNonZeroDigit(w[0]))
    || (|w| == 2 && IsNonZeroDigit(w[0]) && IsDigit(w[1]))
    || (|w| == 3 && w[0] == '1' && IsDigit(w[1]) && IsDigit(w[2]))
    || (|w| == 3 && w[0] == '2' && '0' <= w[1] <= '4' && IsDigit(w[2]))
    || (|w| == 3 && w[0] == '2' && w[1] == '5' && '0' <= w[2] <= '6')
  }

  /** `colorAlpha`: `0.d`, `.d` or `1`. */
  predicate IsAlphaText(w: string) {
    || (|w| == 3 && w[0] == '0' && w[1] == '.' && IsDigit(w[2]))
    || (|w| == 2 && w[0] == '.' && IsDigit(w[1]))
    || w == "1"
  }

  /** `qualityInt`: 1..9, 10..99 or 100. */
  predicate IsQualityText(w: string) {
    || (|w| == 1 && IsNonZeroDigit(w[0]))
    || (|w| == 2 && IsNonZeroDigit(w[0]) && IsDigit(w[1]))
    || w == "100"
  }

  /** `blurSigma`: `0?.[3-9]`, where the unescaped `.` is any character but a line
      terminator, or one to three digits, or `1000`. */
  predicate IsSigmaText(w: string) {
    || (|w| == 3 && w[0] == '0' && !IsLineTerminator(w[1]) && '3' <= w[2] <= '9')
    || (|w| == 2 && !IsLineTerminator(w[0]) && '3' <= w[1] <= '9')
    || (1 <= |w| <= 3 && AllDigits(w))
    || w == "1000"
  }

  /** `colorHex`: `#` and three or six hexadecimal digits. */
  predicate IsHexColorText(w: string) {
    (|w| == 4 || |w| == 7) && w[0] == '#' && AllHexDigits(w[1..])
  }

  /** The text `rgb(r,g,b)`. */
  function RgbText(r: string, g: string, b: string): string {
    "rgb(" + r + "," + g + "," + b + ")"
  }

  /** The text `rgba(r,g,b,a)`. */
  function RgbaText(r: string, g: string, b: string, a: string): string {
    "rgba(" + r + "," + g + "," + b + "," + a + ")"
  }

  /** `rgb(r,g,b)` with three `colorInt` channels. */
  ghost predicate IsRgbText(w: string) {
    exists r, g, b | IsColorIntText(r) && IsColorIntText(g) && IsColorIntText(b) :: w == RgbText(r, g, b)
  }

  /** `rgba(r,g,b,a)` with three `colorInt` channels and a `colorAlpha`. */
  ghost predicate IsRgbaText(w: string) {
    exists r, g, b, a | IsColorIntText(r) && IsColorIntText(g) && IsColorIntText(b) && IsAlphaText(a)
      :: w == RgbaText(r, g, b, a)
  }

  /** `color`: the language of background colours a rotation may carry. */
  ghost predicate IsColorText(w: string) {
    IsHexColorText(w) || IsRgbText(w) || IsRgbaText(w)
  }

  // ---------------------------------------------------------------------------
  // Recognizers for the sub-grammars. Each argument of a keyword is followed by a
  // fixed delimiter that is not a digit, so of the regex alternatives for a run of
  // digits only the one spanning the whole run can lead to a match.

  /** `colorInt` at `k` followed by `sep`: the index just past `sep`. */
  function ColorIntThen(s: string, k: nat, sep: char): (r: Option<nat>)
    requires k <= |s|
    ensures r.Some? ==> k + 1 < r.value <= |s| && s[r.value - 1] == sep
  {
    var e := DigitRunEnd(s, k);
    if e < |s| && s[e] == sep && IsColorIntText(s[k..e]) then Some(e + 1) else None
  }

  /** `colorAlpha` at `k` followed by `)`: the index just past `)`. */
  function AlphaThen(s: string, k: nat): (r: Option<nat>)
    requires k <= |s|
    ensures r.Some? ==> k + 1 < r.value <= |s| && s[r.value - 1] == ')'
  {
    if k + 3 < |s| && s[k] == '0' && s[k + 1] == '.' && IsDigit(s[k + 2]) && s[k + 3] == ')' then Some(k + 4)
    else if k + 2 < |s| && s[k] == '.' && IsDigit(s[k + 1]) && s[k + 2] == ')' then Some(k + 3)
    else if k + 1 < |s| && s[k] == '1' && s[k + 1] == ')' then Some(k + 2)
    else None
  }

  /** `rgb(...)` at `k`: the index just past its closing parenthesis. */
  function RgbAt(s: string, k: nat): (r: Option<nat>)
    requires k <= |s|
    ensures r.Some? ==> k + 10 <= r.value <= |s| && s[r.value - 1] == ')'
  {
    if !StartsAt(s, k, "rgb(") then None
    else
      match ColorIntThen(s, k + 4, ',')
      case None => None
      case Some(e1) =>
        match ColorIntThen(s, e1, ',')
        case None => None
        case Some(e2) =>
          match ColorIntThen(s, e2, ')')
          case None => None
          case Some(e3) => Some(e3)
  }

  /** `rgba(...)` at `k`: the index just past its closing parenthesis. */
  function RgbaAt(s: string, k: nat): (r: Option<nat>)
    requires k <= |s|
    ensures r.Some? ==> k + 13 <= r.value <= |s| && s[r.value - 1] == ')'
  {
    if !StartsAt(s, k, "rgba(") then None
    else
      match ColorIntThen(s, k + 5, ',')
      case None => None
      case Some(e1) =>
        match ColorIntThen(s, e1, ',')
        case None => None
        case Some(e2) =>
          match ColorIntThen(s, e2, ',')
          case None => None
          case Some(e3) =>
            match AlphaThen(s, e3)
            case None => None
            case Some(e4) => Some(e4)
  }

  /** The alternatives of `color`, in the order the regex tries them: the two
      lengths of `colorHex`, then `rgb`, then `rgba`. */
  datatype ColorForm = ShortHex | LongHex | RgbForm | RgbaForm

  const ColorForms: seq<ColorForm> := [ShortHex, LongHex, RgbForm, RgbaForm]

  /** `#` and `n` hexadecimal digits at `k`: the index just past them. */
  function HexEnd(s: string, k: nat, n: nat): (r: Option<nat>)
    requires k <= |s|
    ensures r.Some? ==> r.value == k + 1 + n <= |s| && s[k] == '#' && AllHexDigits(s[k + 1..k + 1 + n])
  {
    if k + 1 + n <= |s| && s[k] == '#' && AllHexDigits(s[k + 1..k + 1 + n]) then Some(k + 1 + n) else None
  }

  /** A colour of the given form at `k`: the index just past it. */
  function FormEnd(form: ColorForm, s: string, k: nat): (r: Option<nat>)
    requires k <= |s|
    ensures r.Some? ==> k < r.value <= |s|
  {
    match form
    case ShortHex => HexEnd(s, k, 3)
    case LongHex => HexEnd(s, k, 6)
    case RgbForm => RgbAt(s, k)
    case RgbaForm => RgbaAt(s, k)
  }

  /** The first of `forms` that matches at `k` and is followed by `)`: the colour's
      length. Without the `)` the regex backtracks into the next alternative. */
  function FirstColor(s: string, k: nat, forms: seq<ColorForm>): (r: Option<nat>)
    requires k <= |s|
    ensures r.Some? ==> 0 < r.value && k + r.value < |s| && s[k + r.value] == ')'
    decreases |forms|
  {
    if forms == [] then None
    else if FirstWins(s, k, forms) then Some(FormEnd(forms[0], s, k).value - k)
    else FirstColor(s, k, forms[1..])
  }

  /** The first of `forms` matches at `k` and is followed by `)`. */
  predicate FirstWins(s: string, k: nat, forms: seq<ColorForm>)
    requires k <= |s| && forms != []
  {
    var e := FormEnd(forms[0], s, k);
    e.Some? && e.value < |s| && s[e.value] == ')'
  }

  /** `color` at `k`, followed by the `)` that closes `rotate(`: the colour's length. */
  function ColorAt(s: string, k: nat): (r: Option<nat>)
    requires k <= |s|
    ensures r.Some? ==> 0 < r.value && k + r.value < |s| && s[k + r.value] == ')'
  {
    FirstColor(s, k, ColorForms)
  }

  /** `blurSigma` at `k` followed by `)`: the sigma's length. The alternatives and the
      greedy `0?` are tried in the regex's order; the order matters because `.` can
      consume a `)`. */
  function SigmaAt(s: string, k: nat): (r: Option<nat>)
    requires k <= |s|
    ensures r.Some? ==> k + r.value < |s| && IsSigmaText(s[k..k + r.value]) && s[k + r.value] == ')'
  {
    if k + 3 < |s| && s[k] == '0' && !IsLineTerminator(s[k + 1]) && '3' <= s[k + 2] <= '9' && s[k + 3] == ')' then Some(3)
    else if k + 2 < |s| && !IsLineTerminator(s[k]) && '3' <= s[k + 1] <= '9' && s[k + 2] == ')' then Some(2)
    else if k + 3 < |s| && AllDigits(s[k..k + 3]) && s[k + 3] == ')' then Some(3)
    else if k + 2 < |s| && AllDigits(s[k..k + 2]) && s[k + 2] == ')' then Some(2)
    else if k + 1 < |s| && IsDigit(s[k]) && s[k + 1] == ')' then Some(1)
    else if k + 4 < |s| && s[k..k + 4] == "1000" && s[k + 4] == ')' then Some(4)
    else None
  }

  // ---------------------------------------------------------------------------
  // The six keyword patterns

  /** `name(qualityInt)`: the `alphaQuality` and `quality` patterns. */
  function QualityCallAt(s: string, i: nat, name: string): (r: Option<(nat, int)>)
    requires i <= |s|
    ensures r.Some? ==> 0 < r.value.0 && i + r.value.0 <= |s|
    ensures r.Some? ==> 1 <= r.value.1 <= 100
  {
    if !StartsAt(s, i, name + "(") then None
    else
      var k := i + |name| + 1;
      var e := DigitRunEnd(s, k);
      if e < |s| && s[e] == ')' && IsQualityText(s[k..e]) then
        QualityTextValue(s[k..e]);
        Some((e + 1 - i, DigitsValue(s[k..e])))
      else None
  }

  lemma QualityTextValue(w: string)
    requires IsQualityText(w)
    ensures AllDigits(w) && 1 <= DigitsValue(w) <= 100
  {
    if |w| == 1 {
      assert w[..0] == [] && DigitsValue(w[..0]) == 0;
    } else if |w| == 2 {
      var u := w[..1];
      assert u[..0] == [] && DigitsValue(u[..0]) == 0;
      assert DigitsValue(u) == DigitValue(w[0]) >= 1;
    } else {
      var u, v := w[..2], w[..1];
      assert v[..0] == [] && DigitsValue(v[..0]) == 0;
      assert u[..1] == v && DigitsValue(v) == 1;
      assert DigitsValue(u) == 10;
    }
  }

  /** `blur(?:\(blurSigma\))?`: the optional group is greedy, so a well-formed
      argument is taken when there is one; otherwise the match is `blur` alone. */
  function BlurAt(s: string, i: nat): (r: Option<Hit>)
    requires i <= |s|
    ensures r.Some? ==> 0 < r.value.len && i + r.value.len <= |s| && r.value.token.BlurTok?
  {
    if !StartsAt(s, i, "blur") then None
    else if i + 4 < |s| && s[i + 4] == '(' then
      match SigmaAt(s, i + 5)
      case Some(l) => Some(Hit(l + 6, BlurTok(BlurSigma(s[i + 5..i + 5 + l]))))
      case None => Some(Hit(4, BlurTok(BlurAuto)))
    else Some(Hit(4, BlurTok(BlurAuto)))
  }

  /** `(svg|jpeg|webp|png)` with the `i` flag, mapped through the `formats` table. */
  function FormatAt(s: string, i: nat): (r: Option<Hit>)
    requires i <= |s|
    ensures r.Some? ==> 0 < r.value.len && i + r.value.len <= |s| && r.value.token.FormatTok?
  {
    if StartsAtIgnoringCase(s, i, "svg") then Some(Hit(3, FormatTok(Svg)))
    else if StartsAtIgnoringCase(s, i, "jpeg") then Some(Hit(4, FormatTok(Jpeg)))
    else if StartsAtIgnoringCase(s, i, "webp") then Some(Hit(4, FormatTok(Webp)))
    else if StartsAtIgnoringCase(s, i, "png") then Some(Hit(3, FormatTok(Png)))
    else None
  }

  /** `progressive(?:\((1|true|0|false)\))?`; the callback stores `true` when there is
      no argument and otherwise whether the argument is `1` or `true`. */
  function ProgressiveAt(s: string, i: nat): (r: Option<Hit>)
    requires i <= |s|
    ensures r.Some? ==> 0 < r.value.len && i + r.value.len <= |s| && r.value.token.ProgressiveTok?
  {
    if !StartsAt(s, i, "progressive") then None
    else if StartsAt(s, i + 11, "(1)") then Some(Hit(14, ProgressiveTok(true)))
    else if StartsAt(s, i + 11, "(true)") then Some(Hit(17, ProgressiveTok(true)))
    else if StartsAt(s, i + 11, "(0)") then Some(Hit(14, ProgressiveTok(false)))
    else if StartsAt(s, i + 11, "(false)") then Some(Hit(18, ProgressiveTok(false)))
    else Some(Hit(11, ProgressiveTok(true)))
  }

  /** An angle reading: where its digits end, and the signed number they denote. */
  datatype Angle = Angle(end: nat, value: int)

  /** `rotate\((-?\d{1,3})`, the start of the rotate pattern. The angle is the whole
      digit run (one to three digits, after an optional minus sign), since a `,` or
      `)` must follow it. */
  function AngleAt(s: string, i: nat): (r: Option<Angle>)
    requires i <= |s|
    ensures r.Some? ==> i + 8 <= r.value.end < |s| && -999 <= r.value.value <= 999
  {
    if !StartsAt(s, i, "rotate(") then None
    else
      var a := i + 7;
      var d := if a < |s| && s[a] == '-' then a + 1 else a;
      var e := DigitRunEnd(s, d);
      if !(1 <= e - d <= 3) || e == |s| then None
      else
        var n := DigitsValue(s[d..e]);
        DigitsValueBound(s[d..e]);
        assert Pow10(1) == 10 && Pow10(2) == 100 && Pow10(3) == 1000;
        Some(Angle(e, if d > a then -(n as int) else n))
  }

  /** `rotate\((-?\d{1,3})(?:,\s*color)?\)`: the angle, then what follows it. */
  function RotateAt(s: string, i: nat): (r: Option<Hit>)
    requires i <= |s|
    ensures r.Some? ==> 0 < r.value.len && i + r.value.len <= |s| && r.value.token.RotateTok?
    ensures r.Some? ==> -999 <= r.value.token.rotate.angle <= 999
  {
    match AngleAt(s, i)
    case None => None
    case Some(angle) => RotateTail(s, i, angle.end, angle.value)
  }

  /** What follows the angle that ends at `e`: `)`, or `,`, white space and a colour
      and `)`. `\s*` takes the whole white-space run, since a colour never starts with
      white space. The callback stores a background only when a colour was captured. */
  function RotateTail(s: string, i: nat, e: nat, angle: int): (r: Option<Hit>)
    requires i < e < |s|
    ensures r.Some? ==> e < i + r.value.len <= |s| && r.value.token.RotateTok?
    ensures r.Some? ==> r.value.token.rotate.angle == angle
  {
    if s[e] == ')' then Some(Hit(e + 1 - i, RotateTok(Rotation(angle, None))))
    else if s[e] == ',' then
      var c := SpaceRunEnd(s, e + 1);
      ColorTail(s, i, c, ColorAt(s, c), angle)
    else None
  }

  /** The colour group after `,` and the white space, which starts at `c`, given what
      the colour recognizer found there: the colour and its closing `)` end the match,
      and the colour is the background. */
  function ColorTail(s: string, i: nat, c: nat, color: Option<nat>, angle: int): (r: Option<Hit>)
    requires i < c <= |s| && (color.Some? ==> c + color.value < |s|)
    ensures r.Some? <==> color.Some?
    ensures r.Some? ==> c < i + r.value.len <= |s| && r.value.token.RotateTok?
    ensures r.Some? ==> r.value.token.rotate.angle == angle
  {
    match color
    case Some(l) => Some(Hit(c + l + 1 - i, RotateTok(Rotation(angle, Some(s[c..c + l])))))
    case None => None
  }

  /** Whether the pattern of `key` matches at index `i` of `s`, and with what. */
  function MatchAt(key: Keyword, s: string, i: nat): (r: Option<Hit>)
    requires i <= |s|
    ensures r.Some? ==> 0 < r.value.len && i + r.value.len <= |s| && r.value.token.Key() == key
  {
    match key
    case AlphaQualityKey =>
      (match QualityCallAt(s, i, "alphaQuality")
       case Some((len, q)) => Some(Hit(len, AlphaQualityTok(q)))
       case None => None)
    case BlurKey => BlurAt(s, i)
    case FormatKey => FormatAt(s, i)
    case ProgressiveKey => ProgressiveAt(s, i)
    case QualityKey =>
      (match QualityCallAt(s, i, "quality")
       case Some((len, q)) => Some(Hit(len, QualityTok(q)))
       case None => None)
    case RotateKey => RotateAt(s, i)
  }

  // ---------------------------------------------------------------------------
  // The global scan and the callbacks

  /** A pattern as a global regex uses it: whether it matches at an index, and how. */
  type Pattern = (string, nat) -> Option<Hit>

  /** Every match of `m` is non-empty, lies within the text and its callback writes
      the field of `key`. */
  ghost predicate Yields(m: Pattern, key: Keyword) {
    forall s: string, i: nat :: m(s, i).Some? ==>
      0 < m(s, i).value.len && i + m(s, i).value.len <= |s| && m(s, i).value.token.Key() == key
  }

  /** The compiled regex of `key`. */
  function PatternOf(key: Keyword): (m: Pattern)
    ensures Yields(m, key)
  {
    (s: string, i: nat) => if i <= |s| then MatchAt(key, s, i) else None
  }

  /** The matches a global regex visits from index `pos` on, in order: after a match
      the search resumes at its end, otherwise one character further on. */
  function Scan(m: Pattern, key: Keyword, s: string, pos: nat): (ts: seq<Token>)
    requires Yields(m, key)
    ensures forall t <- ts :: t.Key() == key
    decreases |s| - pos
  {
    if pos >= |s| then []
    else
      match m(s, pos)
      case Some(h) => [h.token] + Scan(m, key, s, pos + h.len)
      case None => Scan(m, key, s, pos + 1)
  }

  /** The matches of `key`'s pattern in the whole segment, in the order visited. */
  function Scanned(key: Keyword, s: string): (ts: seq<Token>)
    ensures forall t <- ts :: t.Key() == key
  {
    Scan(PatternOf(key), key, s, 0)
  }

  /** One step of the scan, as `ReplaceAll` takes it. */
  lemma ScanStep(m: Pattern, key: Keyword, s: string, pos: nat)
    requires Yields(m, key) && pos < |s|
    ensures m(s, pos).Some? ==>
      Scan(m, key, s, pos) == [m(s, pos).value.token] + Scan(m, key, s, pos + m(s, pos).value.len)
    ensures m(s, pos).None? ==> Scan(m, key, s, pos) == Scan(m, key, s, pos + 1)
  {
  }

  /** Folding the callbacks over a scan follows the scan's first step: a match is
      applied and the fold resumes after it; elsewhere the fold resumes at the
      next character. */
  lemma ApplyStep(m: Pattern, key: Keyword, s: string, pos: nat, p: Parameters)
    requires Yields(m, key) && pos < |s|
    ensures m(s, pos).Some? ==>
      ApplyAll(p, Scan(m, key, s, pos)) ==
      ApplyAll(Apply(p, m(s, pos).value.token), Scan(m, key, s, pos + m(s, pos).value.len))
    ensures m(s, pos).None? ==> ApplyAll(p, Scan(m, key, s, pos)) == ApplyAll(p, Scan(m, key, s, pos + 1))
  {
    if m(s, pos).Some? {
      var h := m(s, pos).value;
      var rest := Scan(m, key, s, pos + h.len);
      assert Scan(m, key, s, pos) == [h.token] + rest;
      assert ([h.token] + rest)[1..] == rest;
    }
  }

  /** The callback of one match: it overwrites its keyword's field. */
  function Apply(p: Parameters, t: Token): (q: Parameters)
    ensures q.Field(t.Key()) == Some(t)
    ensures forall key :: key != t.Key() ==> q.Field(key) == p.Field(key)
  {
    match t
    case AlphaQualityTok(n) => p.(alphaQuality := Some(n))
    case BlurTok(b) => p.(blur := Some(b))
    case FormatTok(m) => p.(format := Some(m))
    case ProgressiveTok(f) => p.(progressive := Some(f))
    case QualityTok(n) => p.(quality := Some(n))
    case RotateTok(r) => p.(rotate := Some(r))
  }

  /** Some token of `ts` belongs to the field `key`. */
  predicate Writes(ts: seq<Token>, key: Keyword)
    decreases |ts|
  {
    ts != [] && (ts[0].Key() == key || Writes(ts[1..], key))
  }

  /** The callbacks of a whole scan, in order: the last token written wins its
      field, and a field no token writes keeps its value. */
  function ApplyAll(p: Parameters, ts: seq<Token>): (q: Parameters)
    ensures ts != [] ==> q.Field(ts[|ts| - 1].Key()) == Some(ts[|ts| - 1])
    ensures forall key :: !Writes(ts, key) ==> q.Field(key) == p.Field(key)
    decreases |ts|
  {
    if ts == [] then p
    else
      assert ts[1..] != [] ==> ts[1..][|ts[1..]| - 1] == ts[|ts| - 1];
      ApplyAll(Apply(p, ts[0]), ts[1..])
  }

  /** What `paramParser` returns: the six scans run one after the other on one record.
      An empty segment, which is what a path without one is handed, gives `{}`. */
  function Parsed(s: string): (r: Parameters)
    ensures s == "" ==> r == NoParameters
  {
    var p1 := ApplyAll(NoParameters, Scanned(AlphaQualityKey, s));
    var p2 := ApplyAll(p1, Scanned(BlurKey, s));
    var p3 := ApplyAll(p2, Scanned(FormatKey, s));
    var p4 := ApplyAll(p3, Scanned(ProgressiveKey, s));
    var p5 := ApplyAll(p4, Scanned(QualityKey, s));
    ApplyAll(p5, Scanned(RotateKey, s))
  }

  /** `params.replace(pattern, callback)`: the global scan of one pattern, updating the
      record at every match. */
  method ReplaceAll(pattern: Pattern, key: Keyword, s: string, p0: Parameters) returns (p: Parameters)
    requires Yields(pattern, key)
    ensures p == ApplyAll(p0, Scan(pattern, key, s, 0))
  {
    p := p0;
    var pos := 0;
    while pos < |s|
      invariant pos <= |s|
      invariant ApplyAll(p, Scan(pattern, key, s, pos)) == ApplyAll(p0, Scan(pattern, key, s, 0))
      decreases |s| - pos
    {
      var hit := pattern(s, pos);
      ApplyStep(pattern, key, s, pos, p);
      if hit.Some? {
        p := Apply(p, hit.value.token);
        pos := pos + hit.value.len;
      } else {
        pos := pos + 1;
      }
    }
  }

  /** `paramParser`: the six scans in the source's order. */
  method ParseParameters(params: string) returns (p: Parameters)
    ensures p == Parsed(params)
  {
    p := NoParameters;
    p := ReplaceAll(PatternOf(AlphaQualityKey), AlphaQualityKey, params, p);
    p := ReplaceAll(PatternOf(BlurKey), BlurKey, params, p);
    p := ReplaceAll(PatternOf(FormatKey), FormatKey, params, p);
    p := ReplaceAll(PatternOf(ProgressiveKey), ProgressiveKey, params, p);
    p := ReplaceAll(PatternOf(QualityKey), QualityKey, params, p);
    p := ReplaceAll(PatternOf(RotateKey), RotateKey, params, p);
  }
}
