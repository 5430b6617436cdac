/** The request pipeline around the route table: the method gate, the object key,
    content negotiation, `processImage`'s plan of sharp operations and the way
    `manipulator` turns outcomes and errors into responses.

    The foreign services are parameters: the object store's `getObject`, sharp's
    metadata reader and renderer, and the Accept-header negotiator behind
    `req.accepts`. Pixel work stays out: `processImage` is modelled as the list of
    operations it applies to the sharp pipeline. */
module Pipeline {
  import opened Text
  import opened Parameters
  import opened Routes

  type Bytes = seq<bv8>

  // ---------------------------------------------------------------------------
  // Object key

  /** `fileKeyPattern.replace(':filename', filename)`: only the first placeholder
      is replaced, so a pattern that starts with it gives the file name followed by
      the rest of the pattern, whatever placeholders the rest still holds. */
  function ObjectKey(pattern: string, filename: string): (key: string)
    ensures StartsAt(pattern, 0, ":filename") ==> key == filename + pattern[|":filename"|..]
  {
    ReplaceFirst(pattern, ":filename", filename)
  }

  /** The default pattern. */
  const DefaultKeyPattern := ":filename"

  // ---------------------------------------------------------------------------
  // Negotiation

  /** `req.accepts(types)`: the negotiator's pick among the offered types, if any. */
  type Negotiator = seq<Mime> -> Option<Mime>

  /** The types offered when no format is forced, in order of preference. */
  const Offered: seq<Mime> := [Jpeg, Png, Webp, Svg]

  /** `req.headers.accept` is truthy: present and non-empty. */
  predicate HasAccept(accept: Option<string>) {
    accept.Some? && accept.value != ""
  }

  /** The content type to produce, or none (406). A forced format is taken exactly
      when there is no Accept header or the header accepts it, with no fallback to
      the other types; without a forced format, a missing header means JPEG and a
      present one is left to the negotiator. */
  function Negotiate(forced: Option<Mime>, accept: Option<string>, accepts: Negotiator): (r: Option<Mime>)
    ensures forced.Some? ==> (r.Some? <==> !HasAccept(accept) || accepts([forced.value]).Some?)
    ensures forced.Some? && r.Some? ==> r == forced
    ensures forced.None? && !HasAccept(accept) ==> r == Some(Jpeg)
    ensures forced.None? && HasAccept(accept) ==> r == accepts(Offered)
  {
    if forced.Some? then
      if !HasAccept(accept) || accepts([forced.value]).Some? then forced else None
    else if !HasAccept(accept) then Some(Jpeg)
    else accepts(Offered)
  }

  // ---------------------------------------------------------------------------
  // Processing plan

  /** What sharp's metadata reader reports: the format name and the intrinsic size
      in pixels. */
  datatype Metadata = Metadata(format: Option<string>, width: nat, height: nat)

  /** The per-format encoder options. */
  datatype Encoding =
    | JpegOptions(progressive: Option<bool>, quality: Option<int>)
    | PngOptions(progressive: Option<bool>)
    | WebpOptions(alphaQuality: Option<int>, quality: Option<int>)

  /** One step of the sharp pipeline. */
  datatype Op =
    | Load(density: Option<real>)                       // `sharp(image[, { density }])`
    | ResizeTo(options: Resize)                         // `.resize(undefined, undefined, resize)`
    | RotateBy(angle: int, background: Option<string>)  // `.rotate(angle, { background })`
    | BlurBy(sigma: Option<string>)                     // `.blur(sigma)`, or `.blur()` for `true`
    | EncodeAs(encoding: Encoding)                     // `.jpeg(...)`, `.png(...)`, `.webp(...)`
  {
    /** The position of the step in the fixed order of the pipeline. */
    function Rank(): nat {
      match this
      case Load(_) => 0
      case ResizeTo(_) => 1
      case RotateBy(_, _) => 2
      case BlurBy(_) => 3
      case EncodeAs(_) => 4
    }
  }

  /** An error thrown by the pipeline; `statusCode` is the property it may carry. */
  datatype Error = Error(statusCode: Option<int>, message: string)

  /** What `processImage` resolves or rejects with. */
  datatype Outcome =
    | Passthrough(body: Bytes)   // the stored bytes, returned as they are
    | Rendered(plan: seq<Op>)    // the operations whose output buffer is returned
    | Failed(error: Error)

  /** The density cap. */
  const MaxDensity: real := 2400.0

  /** `Math.min(96 * (desired / intrinsic), 2400)`. A zero intrinsic size makes the
      quotient infinite, so the cap applies. Below the cap, rasterising the
      intrinsic size at this density gives exactly the desired size. */
  function Density(desired: Dimension, intrinsic: nat): (d: real)
    ensures 0.0 < d <= MaxDensity
    ensures intrinsic > 0 && d < MaxDensity ==> intrinsic as real * d / 96.0 == desired as real
    ensures intrinsic > 0 && 96 * desired <= 2400 * intrinsic ==> intrinsic as real * d / 96.0 == desired as real
    ensures intrinsic > 0 && 96 * desired >= 2400 * intrinsic ==> d == MaxDensity
    ensures intrinsic == 0 ==> d == MaxDensity
  {
    if intrinsic == 0 then MaxDensity
    else
      var q := 96.0 * (desired as real / intrinsic as real);
      assert intrinsic as real * q / 96.0 == desired as real;
      if q < MaxDensity then q else MaxDensity
  }

  /** The density for rasterising an SVG source that is resized: from the width when
      it is set, else from the height; none when neither is. */
  function SvgDensity(resize: Resize, meta: Metadata): (d: Option<real>)
    ensures d.Some? <==> resize.width.Some? || resize.height.Some?
    ensures d.Some? ==> 0.0 < d.value <= MaxDensity
    ensures resize.width.Some? ==> d.Some? && (meta.width == 0 ==> d.value == MaxDensity)
    ensures resize.width.Some? && meta.width > 0 && d.value < MaxDensity ==>
              meta.width as real * d.value / 96.0 == resize.width.value as real
    ensures resize.width.None? && resize.height.Some? ==> d.Some? && (meta.height == 0 ==> d.value == MaxDensity)
    ensures resize.width.None? && resize.height.Some? && meta.height > 0 && d.value < MaxDensity ==>
              meta.height as real * d.value / 96.0 == resize.height.value as real
    ensures resize.width.Some? && meta.width > 0 ==>
              if 96 * resize.width.value < 2400 * meta.width
              then meta.width as real * d.value / 96.0 == resize.width.value as real
              else d.value == MaxDensity
    ensures resize.width.None? && resize.height.Some? && meta.height > 0 ==>
              if 96 * resize.height.value < 2400 * meta.height
              then meta.height as real * d.value / 96.0 == resize.height.value as real
              else d.value == MaxDensity
  {
    if resize.width.Some? then Some(Density(resize.width.value, meta.width))
    else if resize.height.Some? then Some(Density(resize.height.value, meta.height))
    else None
  }

  /** The encoder step for a content type; the `switch` has none for SVG. */
  function EncodingOf(format: Mime, p: Parameters): (e: Option<Encoding>)
    ensures e.None? <==> format == Svg
  {
    match format
    case Jpeg => Some(JpegOptions(p.progressive, p.quality))
    case Png => Some(PngOptions(p.progressive))
    case Webp => Some(WebpOptions(p.alphaQuality, p.quality))
    case Svg => None
  }

  /** `${sourceMetadata.format}`. */
  function FormatText(format: Option<string>): string {
    if format.Some? then format.value else "undefined"
  }

  const NoDimensionMessage := "Cannot perform resize without at least one desired dimension"

  /** The conversion a non-SVG source cannot make. */
  function CannotConvert(meta: Metadata): Error {
    Error(Some(406), "Cannot convert " + FormatText(meta.format) + " to SVG")
  }

  /** The optional steps, each present exactly when its parameter is. */
  function ResizeSteps(resize: Option<Resize>): seq<Op> {
    if resize.Some? then [ResizeTo(resize.value)] else []
  }

  function RotateSteps(rotate: Option<Rotation>): seq<Op> {
    if rotate.Some? then [RotateBy(rotate.value.angle, rotate.value.background)] else []
  }

  function BlurSteps(blur: Option<Blur>): seq<Op> {
    if blur.None? then []
    else if blur.value.BlurSigma? then [BlurBy(Some(blur.value.text))]
    else [BlurBy(None)]
  }

  /** What `processImage` does with the stored image, its metadata, the negotiated
      content type, the cosmetic parameters and the resize descriptor. */
  function Process(image: Bytes, meta: Metadata, format: Mime, p: Parameters, resize: Option<Resize>): (o: Outcome)
    ensures o.Passthrough? ==> format == Svg && o.body == image
    ensures o.Rendered? ==> format != Svg && 2 <= |o.plan| && o.plan[0].Load? && o.plan[|o.plan| - 1].EncodeAs?
    ensures format == Svg ==> !o.Rendered?
  {
    var svgSource := meta.format == Some("svg");
    if !svgSource && format == Svg then Failed(CannotConvert(meta))
    else if svgSource && format == Svg then Passthrough(image)
    else
      var load :=
        if svgSource && resize.Some? then
          (match SvgDensity(resize.value, meta)
           case None => None
           case Some(d) => Some(Load(Some(d))))
        else Some(Load(None));
      match load
      case None => Failed(Error(None, NoDimensionMessage))
      case Some(first) =>
        match EncodingOf(format, p)
        case None => Failed(Error(None, "Unknown format " + format.Name()))
        case Some(e) =>
          Rendered([first] + ResizeSteps(resize) + RotateSteps(p.rotate) + BlurSteps(p.blur) + [EncodeAs(e)])
  }

  /** `processImage`: checks the conversion, then builds the sharp pipeline step by
      step and finally picks the encoder. */
  method ProcessImage(image: Bytes, meta: Metadata, format: Mime, p: Parameters, resize: Option<Resize>)
    returns (out: Outcome)
    ensures out == Process(image, meta, format, p, resize)
  {
    var source := [Load(None)];
    if meta.format != Some("svg") && format == Svg {
      return Failed(CannotConvert(meta));
    }
    if meta.format == Some("svg") && format == Svg {
      return Passthrough(image);
    }
    if meta.format == Some("svg") && resize.Some? {
      var density: real;
      if resize.value.width.Some? {
        density := Density(resize.value.width.value, meta.width);
      } else if resize.value.height.Some? {
        density := Density(resize.value.height.value, meta.height);
      } else {
        return Failed(Error(None, NoDimensionMessage));
      }
      source := [Load(Some(density))];
    }
    if resize.Some? {
      source := source + [ResizeTo(resize.value)];
    }
    assert source == [source[0]] + ResizeSteps(resize);
    if p.rotate.Some? {
      source := source + [RotateBy(p.rotate.value.angle, p.rotate.value.background)];
    }
    assert source == [source[0]] + ResizeSteps(resize) + RotateSteps(p.rotate);
    if p.blur.Some? {
      source := source + [BlurBy(if p.blur.value.BlurSigma? then Some(p.blur.value.text) else None)];
    }
    assert source == [source[0]] + ResizeSteps(resize) + RotateSteps(p.rotate) + BlurSteps(p.blur);
    match format
    case Jpeg => out := Rendered(source + [EncodeAs(JpegOptions(p.progressive, p.quality))]);
    case Png => out := Rendered(source + [EncodeAs(PngOptions(p.progressive))]);
    case Webp => out := Rendered(source + [EncodeAs(WebpOptions(p.alphaQuality, p.quality))]);
    case Svg => out := Failed(Error(None, "Unknown format " + format.Name()));
  }

  // ---------------------------------------------------------------------------
  // The manipulator

  /** What the object store returns for a key. */
  datatype Fetched = Found(body: Bytes) | Missing(error: Error)

  /** What a call into sharp resolves with, or the error it rejects with: an image
      sharp cannot decode, or an option it refuses (such as the sigma of
      `blur(0)`, below sharp's range). */
  datatype Sharpened<T> = Done(value: T) | Threw(error: Error)

  /** The foreign services and the configuration. */
  datatype Services = Services(
    keyPattern: string,
    sharp: Sharp,
    fetch: string -> Fetched,
    metadata: Bytes -> Sharpened<Metadata>,
    render: (Bytes, seq<Op>) -> Sharpened<Bytes>,
    accepts: Negotiator)

  datatype Request = Request(verb: string, path: seq<string>, accept: Option<string>)

  datatype Response =
    | Status(code: int)                       // `res.sendStatus(code)`
    | Message(code: int, text: string)        // `res.status(code).send(message)`
    | Image(contentType: string, contentLength: nat, cacheControl: string, body: Bytes)
    | Delegated(error: Error)                 // `next(e)`: Express's error handler
    | NoRoute                                 // no route matched: Express's final handler

  const CacheControl := "max-age=31556926, immutable"

  /** An error with a status code is answered with it and its message; any other
      goes to the next error handler. */
  function Fail(e: Error): (r: Response)
    ensures r.Message? <==> e.statusCode.Some?
    ensures r.Message? ==> r.code == e.statusCode.value && r.text == e.message
    ensures r.Delegated? <==> e.statusCode.None?
  {
    if e.statusCode.Some? then Message(e.statusCode.value, e.message) else Delegated(e)
  }

  /** The content types the manipulator can answer with. */
  const AnswerTypes: set<string> := {Jpeg.Name(), Png.Name(), Webp.Name(), Svg.Name()}

  /** A 200 answer with the body: its type is the negotiated one, its length is the
      body's and it may be cached for a year as immutable. */
  function Answer(format: Mime, body: Bytes): (r: Response)
    ensures r.Image? && r.body == body && r.contentLength == |body|
    ensures r.contentType == format.Name() && r.contentType in AnswerTypes
    ensures r.cacheControl == "max-age=31556926, immutable"
  {
    Image(format.Name(), |body|, CacheControl, body)
  }

  /** `manipulator`: fetch the object, negotiate the content type, process the image
      and answer it, mapping errors to responses. */
  function Manipulate(m: Manipulation, accept: Option<string>, env: Services): (r: Response)
    ensures env.fetch(ObjectKey(env.keyPattern, m.filename)).Missing? ==>
              r == Fail(env.fetch(ObjectKey(env.keyPattern, m.filename)).error)
    ensures r.Status? ==> r.code == 406
    ensures r.Status? <==> (env.fetch(ObjectKey(env.keyPattern, m.filename)).Found?
                            && Negotiate(m.parameters.format, accept, env.accepts).None?)
    ensures r.Image? ==> r.contentLength == |r.body| && r.contentType in AnswerTypes && r.cacheControl == CacheControl
    ensures r.Image? ==> Negotiate(m.parameters.format, accept, env.accepts).Some?
                         && r.contentType == Negotiate(m.parameters.format, accept, env.accepts).value.Name()
    ensures var fetched := env.fetch(ObjectKey(env.keyPattern, m.filename));
            var format := Negotiate(m.parameters.format, accept, env.accepts);
            fetched.Found? && format.Some? && env.metadata(fetched.body).Done? ==>
              var o := Process(fetched.body, env.metadata(fetched.body).value, format.value, m.parameters, m.resize);
              && (o.Passthrough? ==> r == Answer(format.value, o.body))
              && (o.Rendered? && env.render(fetched.body, o.plan).Done? ==>
                    r == Answer(format.value, env.render(fetched.body, o.plan).value))
    ensures !r.NoRoute?
  {
    match env.fetch(ObjectKey(env.keyPattern, m.filename))
    case Missing(e) => Fail(e)
    case Found(image) =>
      match Negotiate(m.parameters.format, accept, env.accepts)
      case None => Status(406)
      case Some(format) =>
        match env.metadata(image)
        case Threw(e) => Fail(e)
        case Done(meta) =>
          match Process(image, meta, format, m.parameters, m.resize)
          case Failed(e) => Fail(e)
          case Passthrough(body) => Answer(format, body)
          case Rendered(plan) =>
            match env.render(image, plan)
            case Threw(e) => Fail(e)
            case Done(body) => Answer(format, body)
  }

  /** The application: the method gate, then the route table, then the manipulator.
      Only a non-GET is a bare 405, and only an unrouted GET falls through. */
  function Handle(req: Request, env: Services): (r: Response)
    ensures r == Status(405) <==> req.verb != "GET"
    ensures r.NoRoute? <==> req.verb == "GET" && RouteRequest(req.path, env.sharp).None?
  {
    if req.verb != "GET" then Status(405)
    else
      match RouteRequest(req.path, env.sharp)
      case None => NoRoute
      case Some(m) => Manipulate(m, req.accept, env)
  }
}
