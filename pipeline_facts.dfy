/** What the pipeline guarantees: where objects are fetched from, which requests
    are refused and how, and the shape of every processing plan. */
module PipelineFacts {
  import opened Text
  import opened Parameters
  import opened Routes
  import opened RouteFacts
  import opened Pipeline

  // ---------------------------------------------------------------------------
  // Object key

  /** The first `:filename` of the pattern is replaced by the file name; a pattern
      such as `images/:filename.png` gives `images/<f>.png`. */
  lemma KeyOfTemplate(p: string, q: string, filename: string)
    requires ':' !in p
    ensures ObjectKey(p + ":filename" + q, filename) == p + filename + q
  {
    ReplaceFirstAfter(p, ":filename", q, filename);
  }

  /** With the default pattern the key is the file name itself. */
  lemma DefaultKey(filename: string)
    ensures ObjectKey(DefaultKeyPattern, filename) == filename
  {
    KeyOfTemplate("", "", filename);
    assert "" + ":filename" + "" == DefaultKeyPattern;
    assert "" + filename + "" == filename;
  }

  /** A pattern without a placeholder names the same object for every file name. */
  lemma KeyWithoutPlaceholder(pattern: string, filename: string)
    requires ':' !in pattern
    ensures ObjectKey(pattern, filename) == pattern
  {
    ReplaceFirstAbsent(pattern, ":filename", filename);
  }

  // ---------------------------------------------------------------------------
  // Processing outcomes

  /** The three ways `processImage` can end: an impossible conversion to SVG is a
      406 error, SVG to SVG returns the stored bytes, and an SVG source resized by
      no dimension is an error without a status code. Nothing else fails: the
      encoder `switch` never reaches its default. */
  lemma ProcessOutcomes(image: Bytes, meta: Metadata, format: Mime, p: Parameters, resize: Option<Resize>)
    ensures var o := Process(image, meta, format, p, resize);
      var svgSource := meta.format == Some("svg");
      && (o == Failed(CannotConvert(meta)) <==> !svgSource && format == Svg)
      && (o.Passthrough? <==> svgSource && format == Svg)
      && (o.Passthrough? ==> o.body == image)
      && (o == Failed(Error(None, NoDimensionMessage))
          <==> svgSource && format != Svg && resize.Some? && resize.value.width.None? && resize.value.height.None?)
      && (o.Failed? ==> o == Failed(CannotConvert(meta)) || o == Failed(Error(None, NoDimensionMessage)))
      && (o.Rendered? <==> format != Svg && (svgSource && resize.Some? ==> resize.value.width.Some? || resize.value.height.Some?))
  {
    var o := Process(image, meta, format, p, resize);
    if format != Svg {
      var e := EncodingOf(format, p);
      assert e.Some?;
    }
  }

  /** A plan is the load, the optional resize, rotate and blur steps, and the
      encoder; an SVG source that is resized is loaded at its density. */
  lemma PlanPieces(image: Bytes, meta: Metadata, format: Mime, p: Parameters, resize: Option<Resize>)
    requires Process(image, meta, format, p, resize).Rendered?
    ensures var plan := Process(image, meta, format, p, resize).plan;
      && format != Svg
      && plan == [plan[0]] + ResizeSteps(resize) + RotateSteps(p.rotate) + BlurSteps(p.blur)
                 + [EncodeAs(EncodingOf(format, p).value)]
      && plan[0] == Load(if meta.format == Some("svg") && resize.Some? then SvgDensity(resize.value, meta) else None)
  {
  }

  /** Every plan loads the image first and encodes last, and the steps between come
      in the fixed order resize, rotate, blur. */
  lemma PlanOrder(image: Bytes, meta: Metadata, format: Mime, p: Parameters, resize: Option<Resize>)
    requires Process(image, meta, format, p, resize).Rendered?
    ensures var plan := Process(image, meta, format, p, resize).plan;
      && 2 <= |plan| && plan[0].Load? && plan[|plan| - 1] == EncodeAs(EncodingOf(format, p).value)
      && (forall i, j :: 0 <= i < j < |plan| ==> plan[i].Rank() < plan[j].Rank())
  {
    var plan := Process(image, meta, format, p, resize).plan;
    var middle := ResizeSteps(resize) + RotateSteps(p.rotate) + BlurSteps(p.blur);
    var last := EncodeAs(EncodingOf(format, p).value);
    assert plan == [plan[0]] + middle + [last] && plan[0].Load? by {
      PlanPieces(image, meta, format, p, resize);
    }
    RanksIncrease(resize, p.rotate, p.blur);
    FramedRanks(plan[0], middle, last);
  }

  /** A load, steps ranked strictly between it and the encoder, then the encoder:
      the ranks increase along the whole plan. */
  lemma FramedRanks(load: Op, middle: seq<Op>, last: Op)
    requires load.Load? && last.EncodeAs?
    requires forall k :: 0 <= k < |middle| ==> 0 < middle[k].Rank() < 4
    requires forall i, j :: 0 <= i < j < |middle| ==> middle[i].Rank() < middle[j].Rank()
    ensures var plan := [load] + middle + [last];
      forall i, j :: 0 <= i < j < |plan| ==> plan[i].Rank() < plan[j].Rank()
  {
    var plan := [load] + middle + [last];
    forall i, j | 0 <= i < j < |plan| ensures plan[i].Rank() < plan[j].Rank() {
      if 0 < i {
        assert plan[i] == middle[i - 1];
      }
      if j < |plan| - 1 {
        assert plan[j] == middle[j - 1];
      }
    }
  }

  /** The middle steps come in rank order, strictly between the load and the
      encoder. */
  lemma RanksIncrease(resize: Option<Resize>, rotate: Option<Rotation>, blur: Option<Blur>)
    ensures var middle := ResizeSteps(resize) + RotateSteps(rotate) + BlurSteps(blur);
      && (forall k :: 0 <= k < |middle| ==> 0 < middle[k].Rank() < 4)
      && (forall i, j :: 0 <= i < j < |middle| ==> middle[i].Rank() < middle[j].Rank())
  {
    var r, t, b := ResizeSteps(resize), RotateSteps(rotate), BlurSteps(blur);
    var middle := r + t + b;
    assert |r| <= 1 && |t| <= 1 && |b| <= 1;
    forall k | 0 <= k < |middle|
      ensures middle[k].Rank() == if k < |r| then 1 else if k < |r| + |t| then 2 else 3
    {
      if k < |r| {
        assert middle[k] == r[k];
      } else if k < |r| + |t| {
        assert middle[k] == t[k - |r|];
      } else {
        assert middle[k] == b[k - |r| - |t|];
      }
    }
  }

  /** Each optional step is in the plan exactly when its parameter is set, with the
      parameter's values; a `true` blur leaves the sigma to sharp. */
  lemma PlanSteps(image: Bytes, meta: Metadata, format: Mime, p: Parameters, resize: Option<Resize>)
    requires Process(image, meta, format, p, resize).Rendered?
    ensures var plan := Process(image, meta, format, p, resize).plan;
      && (resize.Some? ==> ResizeTo(resize.value) in plan)
      && (resize.None? ==> forall op :: op in plan ==> !op.ResizeTo?)
      && (p.rotate.Some? ==> RotateBy(p.rotate.value.angle, p.rotate.value.background) in plan)
      && (p.rotate.None? ==> forall op :: op in plan ==> !op.RotateBy?)
      && (p.blur == Some(BlurAuto) <==> BlurBy(None) in plan)
      && (forall t :: p.blur == Some(BlurSigma(t)) <==> BlurBy(Some(t)) in plan)
  {
    var plan := Process(image, meta, format, p, resize).plan;
    PlanPieces(image, meta, format, p, resize);
    var r, t, b := ResizeSteps(resize), RotateSteps(p.rotate), BlurSteps(p.blur);
    assert forall op :: op in plan <==> op == plan[0] || op in r || op in t || op in b || op == plan[|plan| - 1];
  }

  /** A rendered SVG source is loaded at the density the resize calls for, at most
      2400; every other source is loaded as it is. */
  lemma PlanDensity(image: Bytes, meta: Metadata, format: Mime, p: Parameters, resize: Option<Resize>)
    requires Process(image, meta, format, p, resize).Rendered?
    ensures var load := Process(image, meta, format, p, resize).plan[0];
      && (load.density.Some? <==> meta.format == Some("svg") && resize.Some?)
      && (load.density.Some? ==> load.density == SvgDensity(resize.value, meta) && 0.0 < load.density.value <= MaxDensity)
  {
    PlanPieces(image, meta, format, p, resize);
  }

  /** A descriptor from the route table always has a dimension, so a routed request
      never meets the no-dimension error. */
  lemma RoutedNeverLacksDimension(path: seq<string>, sharp: Sharp, image: Bytes, meta: Metadata, format: Mime)
    requires RouteRequest(path, sharp).Some?
    ensures var m := RouteRequest(path, sharp).value;
      Process(image, meta, format, m.parameters, m.resize) != Failed(Error(None, NoDimensionMessage))
  {
    var m := RouteRequest(path, sharp).value;
    if m.resize.Some? {
      RoutedDescriptor(path, sharp);
    }
    ProcessOutcomes(image, meta, format, m.parameters, m.resize);
  }

  // ---------------------------------------------------------------------------
  // Responses

  /** Every method but GET is refused with 405 before any route is tried. */
  lemma NonGetRefused(req: Request, env: Services)
    requires req.verb != "GET"
    ensures Handle(req, env) == Status(405)
  {
  }

  /** A request the table routes fetches the object named by the key pattern; a
      store error with a status code (the store's 404) is answered with it, and any
      other goes to the error handler. */
  lemma StoreErrorAnswered(req: Request, env: Services, e: Error)
    requires req.verb == "GET" && RouteRequest(req.path, env.sharp).Some?
    requires env.fetch(ObjectKey(env.keyPattern, RouteRequest(req.path, env.sharp).value.filename)) == Missing(e)
    ensures e.statusCode.Some? ==> Handle(req, env) == Message(e.statusCode.value, e.message)
    ensures e.statusCode.None? ==> Handle(req, env) == Delegated(e)
  {
  }

  /** A forced format that a present Accept header does not accept is a 406, with no
      fallback to the other types. */
  lemma ForcedFormatRefused(req: Request, env: Services, image: Bytes)
    requires req.verb == "GET" && RouteRequest(req.path, env.sharp).Some?
    requires var m := RouteRequest(req.path, env.sharp).value;
      && env.fetch(ObjectKey(env.keyPattern, m.filename)) == Found(image)
      && m.parameters.format.Some?
      && HasAccept(req.accept) && env.accepts([m.parameters.format.value]).None?
    ensures Handle(req, env) == Status(406)
  {
  }

  /** Without a forced format, a present Accept header that accepts none of the four
      offered types is a 406. */
  lemma UnforcedRefused(req: Request, env: Services, image: Bytes)
    requires req.verb == "GET" && RouteRequest(req.path, env.sharp).Some?
    requires var m := RouteRequest(req.path, env.sharp).value;
      && env.fetch(ObjectKey(env.keyPattern, m.filename)) == Found(image)
      && m.parameters.format.None?
      && HasAccept(req.accept) && env.accepts(Offered).None?
    ensures Handle(req, env) == Status(406)
  {
  }

  /** A rendered image is answered 200 with the negotiated type, the rendered
      bytes, their length and the cache header. */
  lemma RenderedAnswered(req: Request, env: Services, image: Bytes, format: Mime, meta: Metadata, body: Bytes)
    requires req.verb == "GET" && RouteRequest(req.path, env.sharp).Some?
    requires var m := RouteRequest(req.path, env.sharp).value;
      && env.fetch(ObjectKey(env.keyPattern, m.filename)) == Found(image)
      && Negotiate(m.parameters.format, req.accept, env.accepts) == Some(format)
      && env.metadata(image) == Done(meta)
      && Process(image, meta, format, m.parameters, m.resize).Rendered?
      && env.render(image, Process(image, meta, format, m.parameters, m.resize).plan) == Done(body)
    ensures Handle(req, env) == Image(format.Name(), |body|, CacheControl, body)
    ensures format != Svg
  {
    var m := RouteRequest(req.path, env.sharp).value;
    assert Handle(req, env) == Manipulate(m, req.accept, env);
  }

  /** An SVG object asked for as SVG is served byte for byte. */
  lemma SvgServedAsStored(req: Request, env: Services, image: Bytes)
    requires req.verb == "GET" && RouteRequest(req.path, env.sharp).Some?
    requires var m := RouteRequest(req.path, env.sharp).value;
      && env.fetch(ObjectKey(env.keyPattern, m.filename)) == Found(image)
      && env.metadata(image).Done? && env.metadata(image).value.format == Some("svg")
      && Negotiate(m.parameters.format, req.accept, env.accepts) == Some(Svg)
    ensures Handle(req, env) == Image(Svg.Name(), |image|, CacheControl, image)
  {
    var m := RouteRequest(req.path, env.sharp).value;
    assert Handle(req, env) == Answer(Svg, image) by {
      assert Manipulate(m, req.accept, env) == Answer(Svg, image) by {
        ManipulatedSvg(m, req.accept, env, image);
      }
      assert Handle(req, env) == Manipulate(m, req.accept, env);
    }
  }

  /** The manipulator's answer for a stored SVG negotiated as SVG. */
  lemma ManipulatedSvg(m: Manipulation, accept: Option<string>, env: Services, image: Bytes)
    requires env.fetch(ObjectKey(env.keyPattern, m.filename)) == Found(image)
    requires Negotiate(m.parameters.format, accept, env.accepts) == Some(Svg)
    requires env.metadata(image).Done?
    ensures var meta := env.metadata(image).value;
      && (meta.format == Some("svg") ==> Manipulate(m, accept, env) == Answer(Svg, image))
      && (meta.format != Some("svg") ==> Manipulate(m, accept, env) == Fail(CannotConvert(meta)))
  {
    ProcessOutcomes(image, env.metadata(image).value, Svg, m.parameters, m.resize);
  }

  /** A raster object asked for as SVG is refused with 406 and says why. */
  lemma RasterToSvgRefused(req: Request, env: Services, image: Bytes)
    requires req.verb == "GET" && RouteRequest(req.path, env.sharp).Some?
    requires var m := RouteRequest(req.path, env.sharp).value;
      && env.fetch(ObjectKey(env.keyPattern, m.filename)) == Found(image)
      && env.metadata(image).Done? && env.metadata(image).value.format != Some("svg")
      && Negotiate(m.parameters.format, req.accept, env.accepts) == Some(Svg)
    ensures Handle(req, env) == Message(406, "Cannot convert " + FormatText(env.metadata(image).value.format) + " to SVG")
  {
    var m := RouteRequest(req.path, env.sharp).value;
    assert Manipulate(m, req.accept, env) == Fail(CannotConvert(env.metadata(image).value)) by {
      ManipulatedSvg(m, req.accept, env, image);
    }
    assert Handle(req, env) == Manipulate(m, req.accept, env);
  }

  /** A 200 answer comes only from a routed GET, gives its body's length and is
      cacheable for a year as immutable. Its type is the negotiated one: the forced
      format, JPEG when neither a format nor an Accept header is given, and otherwise
      the negotiator's pick among the offered types. */
  lemma ImageAnswers(req: Request, env: Services)
    requires Handle(req, env).Image?
    ensures var r := Handle(req, env);
      && req.verb == "GET" && RouteRequest(req.path, env.sharp).Some?
      && r.contentType in AnswerTypes && r.contentLength == |r.body| && r.cacheControl == CacheControl
    ensures var r := Handle(req, env);
      var forced := RouteRequest(req.path, env.sharp).value.parameters.format;
      && Negotiate(forced, req.accept, env.accepts).Some?
      && r.contentType == Negotiate(forced, req.accept, env.accepts).value.Name()
      && (forced.Some? ==> r.contentType == forced.value.Name())
      && (forced.None? && !HasAccept(req.accept) ==> r.contentType == Jpeg.Name())
      && (forced.None? && HasAccept(req.accept) ==> env.accepts(Offered).Some? && r.contentType == env.accepts(Offered).value.Name())
  {
    var r := Handle(req, env);
    assert req.verb == "GET" && RouteRequest(req.path, env.sharp).Some?;
    var m := RouteRequest(req.path, env.sharp).value;
    assert r == Manipulate(m, req.accept, env);
  }

  /** An error from sharp, whether its metadata reader cannot decode the object or
      its renderer refuses the plan (a sigma out of its range, say), is answered
      like any other error: with its status code when it has one, else by the next
      error handler. It is never answered 200. */
  lemma SharpErrorAnswered(req: Request, env: Services, image: Bytes, format: Mime, e: Error)
    requires req.verb == "GET" && RouteRequest(req.path, env.sharp).Some?
    requires var m := RouteRequest(req.path, env.sharp).value;
      && env.fetch(ObjectKey(env.keyPattern, m.filename)) == Found(image)
      && Negotiate(m.parameters.format, req.accept, env.accepts) == Some(format)
      && (|| env.metadata(image) == Threw(e)
          || (&& env.metadata(image).Done?
              && Process(image, env.metadata(image).value, format, m.parameters, m.resize).Rendered?
              && env.render(image, Process(image, env.metadata(image).value, format, m.parameters, m.resize).plan) == Threw(e)))
    ensures Handle(req, env) == Fail(e)
    ensures e.statusCode.None? ==> Handle(req, env) == Delegated(e)
  {
    var m := RouteRequest(req.path, env.sharp).value;
    assert Handle(req, env) == Manipulate(m, req.accept, env);
  }
}
