/**
  The signature pad: a canvas of 400 by 150 on which the user draws with a
  mouse or finger or uploads an image, and which reports its content to the form as
  a PNG data URL (or "" once cleared).

  The canvas is abstract: the model keeps the ink as the canvas points the
  path visits and the uploaded image as the box it is drawn into. Whether
  the canvas element and its 2D context exist, the on-screen rectangle of
  the canvas, and the PNG encoding of its pixels are inputs.
 */
module SignatureField {
  import opened Common

  const CanvasWidth: real := 400.0
  const CanvasHeight: real := 150.0

  datatype Point = Point(x: real, y: real)

  /** `getBoundingClientRect()`: where the canvas sits on screen, in CSS pixels. */
  datatype Rect = Rect(left: real, top: real, width: real, height: real)

  // ------------------------------------------------------- input mapping

  /** `(clientX - rect.left) * scaleX` with `scaleX = canvas.width / rect.width`,
      and likewise for y. A collapsed rectangle makes the scale infinite and
      the coordinates non-finite, which the canvas ignores: None. */
  function ToCanvas(client: Point, rect: Rect): (p: Option<Point>)
    ensures p.Some? <==> rect.width != 0.0 && rect.height != 0.0
  {
    if rect.width == 0.0 || rect.height == 0.0 then None
    else
      var scaleX := CanvasWidth / rect.width;
      var scaleY := CanvasHeight / rect.height;
      Some(Point((client.x - rect.left) * scaleX, (client.y - rect.top) * scaleY))
  }

  /** The reverse mapping, from canvas coordinates to the screen. */
  function ToScreen(p: Point, rect: Rect): Point {
    Point(rect.left + p.x * rect.width / CanvasWidth, rect.top + p.y * rect.height / CanvasHeight)
  }

  predicate Inside(client: Point, rect: Rect) {
    rect.left <= client.x <= rect.left + rect.width && rect.top <= client.y <= rect.top + rect.height
  }

  predicate OnCanvas(p: Point) {
    0.0 <= p.x <= CanvasWidth && 0.0 <= p.y <= CanvasHeight
  }

  /** `0 <= t <= w` scales to `0 <= t * (c / w) <= c`. */
  lemma ScaleInto(t: real, w: real, c: real)
    requires w > 0.0 && c > 0.0 && 0.0 <= t <= w
    ensures 0.0 <= t * (c / w) <= c
  {
    var s := c / w;
    assert s * w == c;
    assert s > 0.0;
    assert t * s <= w * s;
  }

  /** A touch or click inside the canvas's rectangle lands on the canvas. */
  lemma TouchInsideLandsOnCanvas(client: Point, rect: Rect)
    requires rect.width > 0.0 && rect.height > 0.0
    requires Inside(client, rect)
    ensures ToCanvas(client, rect).Some? && OnCanvas(ToCanvas(client, rect).value)
  {
    ScaleInto(client.x - rect.left, rect.width, CanvasWidth);
    ScaleInto(client.y - rect.top, rect.height, CanvasHeight);
  }

  /** One coordinate of the round trip: `l + ((x - l) * (c / w)) * w / c == x`. */
  lemma AxisRoundTrip(x: real, l: real, w: real, c: real)
    requires w != 0.0 && c != 0.0
    ensures l + ((x - l) * (c / w)) * w / c == x
  {
    var s := c / w;
    assert s * w == c;
    assert ((x - l) * s) * w == (x - l) * c;
  }

  /** The mapping is invertible: mapping the canvas point back to the screen
      gives the touch or mouse position. */
  lemma ToCanvasInverse(client: Point, rect: Rect)
    requires rect.width != 0.0 && rect.height != 0.0
    ensures ToScreen(ToCanvas(client, rect).value, rect) == client
  {
    AxisRoundTrip(client.x, rect.left, rect.width, CanvasWidth);
    AxisRoundTrip(client.y, rect.top, rect.height, CanvasHeight);
  }

  // ---------------------------------------------------------- image fit

  /** Where an uploaded image is drawn. */
  datatype Box = Box(x: real, y: real, width: real, height: real)

  predicate FitsCanvas(b: Box) {
    && 0.0 <= b.width <= CanvasWidth && 0.0 <= b.height <= CanvasHeight
    && (b.width == CanvasWidth || b.height == CanvasHeight)
  }

  predicate Centred(b: Box) {
    && 2.0 * b.x + b.width == CanvasWidth && 2.0 * b.y + b.height == CanvasHeight
    && b.x >= 0.0 && b.y >= 0.0
  }

  /** The upload handler's fit-and-centre: compare the image's aspect ratio
      with the canvas's and fill the canvas along the limiting side. An image
      of height 0 has no finite aspect ratio: None. Image sizes are whole
      pixels. */
  function Fit(imageWidth: nat, imageHeight: nat): (b: Option<Box>)
    ensures b.Some? <==> imageHeight > 0
    ensures b.Some? ==> FitsCanvas(b.value) && Centred(b.value)
    ensures b.Some? ==> b.value.width * (imageHeight as real) == b.value.height * (imageWidth as real)
  {
    if imageHeight == 0 then None
    else
      var iw, ih := imageWidth as real, imageHeight as real;
      var aspect := iw / ih;
      AspectScales(iw, ih);
      if aspect > CanvasWidth / CanvasHeight then
        var h := CanvasWidth / aspect;
        WideHeight(aspect, iw, ih);
        Some(Box(0.0, (CanvasHeight - h) / 2.0, CanvasWidth, h))
      else
        var w := CanvasHeight * aspect;
        TallWidth(aspect, iw, ih);
        Some(Box((CanvasWidth - w) / 2.0, 0.0, w, CanvasHeight))
  }

  lemma AspectScales(imageWidth: real, imageHeight: real)
    requires imageHeight > 0.0
    ensures (imageWidth / imageHeight) * imageHeight == imageWidth
  {
  }

  /** A wider image than the canvas: full width, height from the aspect ratio. */
  lemma WideHeight(aspect: real, imageWidth: real, imageHeight: real)
    requires imageHeight > 0.0 && aspect * imageHeight == imageWidth
    requires aspect > CanvasWidth / CanvasHeight
    ensures var h := CanvasWidth / aspect;
      0.0 <= h <= CanvasHeight && CanvasWidth * imageHeight == h * imageWidth
  {
    var h := CanvasWidth / aspect;
    assert h * aspect == CanvasWidth;
    assert h * aspect < CanvasHeight * aspect;
    assert h * imageWidth == h * (aspect * imageHeight);
  }

  /** An image at most as wide as the canvas: full height, width from the aspect ratio. */
  lemma TallWidth(aspect: real, imageWidth: real, imageHeight: real)
    requires imageWidth >= 0.0 && imageHeight > 0.0 && aspect * imageHeight == imageWidth
    requires aspect <= CanvasWidth / CanvasHeight
    ensures var w := CanvasHeight * aspect;
      0.0 <= w <= CanvasWidth && w * imageHeight == CanvasHeight * imageWidth
  {
    assert aspect >= 0.0;
  }

  // -------------------------------------------------------- pad machine

  /** `signatureType`: the radio choice between drawing and uploading. */
  datatype Mode = DrawMode | UploadMode

  /** `isDrawing`, `hasSignature`, `signatureType`, and what the canvas shows. */
  datatype Pad = Pad(drawing: bool, hasSignature: bool, mode: Mode, ink: seq<Point>, image: Option<Box>)

  /** The canvas element, its 2D context, and its on-screen rectangle. */
  datatype Canvas = Canvas(mounted: bool, hasContext: bool, rect: Rect)

  /** Both the canvas element and its 2D context exist. */
  predicate Ready(canvas: Canvas) {
    canvas.mounted && canvas.hasContext
  }

  /** An uploaded file: its MIME type and, when it decodes, its natural size. */
  datatype File = File(mime: string, size: Option<(nat, nat)>)

  datatype Event =
    | Start(client: Point)                    // mousedown / touchstart
    | Move(client: Point)                     // mousemove / touchmove
    | Stop                                    // mouseup / mouseleave / touchend
    | Clear                                   // the clear button
    | Upload(file: Option<File>)              // the file input's change event
    | ValueProp(value: Option<string>, loads: bool)  // a new `value`, and whether it decodes as an image
    | Choose(mode: Mode)                      // the draw / upload radio

  /** The state after an event, the value passed to `onChange`, if any, and
      whether the "images only" alert is shown. */
  datatype Step = Step(pad: Pad, emitted: Option<string>, alerted: bool)

  /** An event the pad does not react to. */
  function Ignored(pad: Pad): Step {
    Step(pad, None, false)
  }

  /** The `value` effect draws the value's image over the whole canvas. */
  const FullCanvas: Box := Box(0.0, 0.0, CanvasWidth, CanvasHeight)

  /** `canvas.toDataURL('image/png')`: the PNG data URL of a payload. */
  function PngDataUrl(payload: string): (url: string)
    ensures StartsWith(url, "data:image/")
  {
    var url := "data:image/png;base64," + payload;
    assert url[..11] == "data:image/";
    url
  }

  /** `moveTo`/`lineTo` at a mapped touch or mouse position: one more point,
      the one that maps back to that position, unless the rectangle has
      collapsed. */
  function Trace(ink: seq<Point>, client: Point, rect: Rect): (r: seq<Point>)
    ensures (rect.width == 0.0 || rect.height == 0.0) ==> r == ink
    ensures rect.width != 0.0 && rect.height != 0.0 ==>
      |r| == |ink| + 1 && r[..|ink|] == ink && ToScreen(r[|ink|], rect) == client
  {
    match ToCanvas(client, rect)
    case None => ink
    case Some(p) => ToCanvasInverse(client, rect); ink + [p]
  }

  /** The handlers of the pad. `payload` stands for the encoded pixels the
      next `toDataURL` returns. The canvas handlers are attached only in draw
      mode and the file input exists only in upload mode; the radio, the file
      input and the clear button are disabled with the pad, and the clear
      button also while there is no signature. The `value` effect is not
      gated by `disabled`. */
  function Handle(pad: Pad, e: Event, canvas: Canvas, disabled: bool, payload: string): (s: Step)
    ensures e.Start? && (disabled || pad.mode != DrawMode || !Ready(canvas)) ==> s == Ignored(pad)
    ensures e.Start? && !disabled && pad.mode == DrawMode && Ready(canvas) ==>
      s == Step(pad.(drawing := true, ink := Trace(pad.ink, e.client, canvas.rect)), None, false)
    ensures e.Move? && (!pad.drawing || disabled || pad.mode != DrawMode || !Ready(canvas)) ==> s == Ignored(pad)
    ensures e.Move? && pad.drawing && !disabled && pad.mode == DrawMode && Ready(canvas) ==>
      s == Step(pad.(ink := Trace(pad.ink, e.client, canvas.rect)), None, false)
    ensures e.Stop? && (!pad.drawing || pad.mode != DrawMode) ==> s == Ignored(pad)
    ensures e.Stop? && pad.drawing && pad.mode == DrawMode ==>
      s == Step(pad.(drawing := false, hasSignature := true), Save(canvas, payload), false)
    ensures e.Clear? && (disabled || !pad.hasSignature || !Ready(canvas)) ==> s == Ignored(pad)
    ensures e.Clear? && !disabled && pad.hasSignature && Ready(canvas) ==>
      s == Step(pad.(hasSignature := false, ink := [], image := None), Some(""), false)
    ensures e.Upload? && (disabled || pad.mode != UploadMode || e.file.None?) ==> s == Ignored(pad)
    ensures s.alerted <==>
      e.Upload? && !disabled && pad.mode == UploadMode && e.file.Some? && !StartsWith(e.file.value.mime, "image/")
    ensures s.alerted ==> s.pad == pad && s.emitted.None?
    ensures (e.Upload? && e.file.Some? && StartsWith(e.file.value.mime, "image/")
             && (e.file.value.size.None? || !Ready(canvas))) ==> s == Ignored(pad)
    ensures (e.Upload? && !disabled && pad.mode == UploadMode && e.file.Some? && StartsWith(e.file.value.mime, "image/")
             && e.file.value.size.Some? && Ready(canvas)) ==>
      s.pad == pad.(hasSignature := true, ink := [], image := Fit(e.file.value.size.value.0, e.file.value.size.value.1))
      && s.emitted == Some(PngDataUrl(payload))
    ensures e.ValueProp? && !Truthy(e.value) ==> s == Ignored(pad)
    ensures e.ValueProp? && Truthy(e.value) ==>
      s.pad.hasSignature && s.emitted.None? && s.pad.drawing == pad.drawing
    ensures e.ValueProp? && Truthy(e.value) && e.loads && Ready(canvas) ==>
      s.pad.ink == [] && s.pad.image == Some(FullCanvas)
    ensures e.ValueProp? && !(e.loads && Ready(canvas)) ==> s.pad.ink == pad.ink && s.pad.image == pad.image
    ensures e.Choose? && disabled ==> s == Ignored(pad)
    ensures e.Choose? && !disabled ==> s == Ignored(pad.(mode := e.mode))
    ensures !e.Choose? ==> s.pad.mode == pad.mode
    ensures s.emitted.Some? ==> s.emitted.value == "" || s.emitted.value == PngDataUrl(payload)
    ensures !e.Start? ==> s.pad.drawing ==> pad.drawing
  {
    var drawMode := pad.mode == DrawMode;
    match e
    case Start(client) =>
      if !drawMode || disabled || !Ready(canvas) then Ignored(pad)
      else Step(pad.(drawing := true, ink := Trace(pad.ink, client, canvas.rect)), None, false)
    case Move(client) =>
      if !drawMode || !pad.drawing || disabled || !Ready(canvas) then Ignored(pad)
      else Step(pad.(ink := Trace(pad.ink, client, canvas.rect)), None, false)
    case Stop =>
      if !drawMode || !pad.drawing then Ignored(pad)
      else Step(pad.(drawing := false, hasSignature := true), Save(canvas, payload), false)
    case Clear =>
      if disabled || !pad.hasSignature || !Ready(canvas) then Ignored(pad)
      else Step(pad.(hasSignature := false, ink := [], image := None), Some(""), false)
    case Upload(file) =>
      if drawMode || disabled || file.None? then Ignored(pad)
      else if !StartsWith(file.value.mime, "image/") then Step(pad, None, true)
      else if file.value.size.None? || !Ready(canvas) then Ignored(pad)
      else
        var (w, h) := file.value.size.value;
        Step(pad.(hasSignature := true, ink := [], image := Fit(w, h)), Save(canvas, payload), false)
    case ValueProp(value, loads) =>
      if !Truthy(value) then Ignored(pad)
      else if loads && Ready(canvas) then Ignored(pad.(hasSignature := true, ink := [], image := Some(FullCanvas)))
      else Ignored(pad.(hasSignature := true))
    case Choose(m) =>
      if disabled then Ignored(pad) else Ignored(pad.(mode := m))
  }

  /** `saveSignature`: report the canvas, if there is one. */
  function Save(canvas: Canvas, payload: string): (v: Option<string>)
    ensures v.Some? <==> canvas.mounted
  {
    if canvas.mounted then Some(PngDataUrl(payload)) else None
  }

  /** A start, or a move while drawing, at a position inside the canvas's
      rectangle extends the ink by one point on the 400 by 150 surface, the
      point that maps back to that position. */
  lemma StrokePointLandsOnCanvas(pad: Pad, e: Event, canvas: Canvas, disabled: bool, payload: string)
    requires e.Start? || (e.Move? && pad.drawing)
    requires !disabled && pad.mode == DrawMode && Ready(canvas)
    requires canvas.rect.width > 0.0 && canvas.rect.height > 0.0 && Inside(e.client, canvas.rect)
    ensures var s := Handle(pad, e, canvas, disabled, payload);
      && s.pad.drawing && s.emitted.None?
      && |s.pad.ink| == |pad.ink| + 1 && s.pad.ink[..|pad.ink|] == pad.ink
      && OnCanvas(s.pad.ink[|pad.ink|]) && ToScreen(s.pad.ink[|pad.ink|], canvas.rect) == e.client
  {
    TouchInsideLandsOnCanvas(e.client, canvas.rect);
    ToCanvasInverse(e.client, canvas.rect);
    var p := ToCanvas(e.client, canvas.rect).value;
    assert Trace(pad.ink, e.client, canvas.rect) == pad.ink + [p];
  }

  /** A run of events, each with the payload the canvas would encode at that moment. */
  function Run(pad: Pad, events: seq<Event>, canvas: Canvas, disabled: bool, payloads: seq<string>): (r: Pad)
    requires |payloads| == |events|
    decreases |events|
  {
    if |events| == 0 then pad
    else Run(Handle(pad, events[0], canvas, disabled, payloads[0]).pad, events[1..], canvas, disabled, payloads[1..])
  }

  /** What a disabled pad can still show: its own ink and image, or the
      image of a new `value` over the whole canvas. */
  predicate KeepsOrRepaints(r: Pad, pad: Pad) {
    (r.ink == pad.ink && r.image == pad.image) || (r.ink == [] && r.image == Some(FullCanvas))
  }

  /** A disabled pad that is not drawing never starts drawing and keeps its
      mode whatever happens: the radio, the canvas, the file input and the
      clear button are all inert. Only a new `value` can change what it
      shows, by painting that value over the whole canvas. */
  lemma {:induction false} DisabledPadNeverDraws(pad: Pad, events: seq<Event>, canvas: Canvas, payloads: seq<string>)
    requires |payloads| == |events|
    requires !pad.drawing
    ensures var r := Run(pad, events, canvas, true, payloads);
      && !r.drawing && r.mode == pad.mode && KeepsOrRepaints(r, pad)
      && ((forall i :: 0 <= i < |events| ==> !events[i].ValueProp?) ==> r.ink == pad.ink && r.image == pad.image)
    decreases |events|
  {
    if |events| > 0 {
      var next := Handle(pad, events[0], canvas, true, payloads[0]).pad;
      DisabledPadNeverDraws(next, events[1..], canvas, payloads[1..]);
      var r := Run(next, events[1..], canvas, true, payloads[1..]);
      assert KeepsOrRepaints(next, pad);
      assert KeepsOrRepaints(r, next);
      if forall i :: 0 <= i < |events| ==> !events[i].ValueProp? {
        assert !events[0].ValueProp?;
        assert forall i :: 0 <= i < |events[1..]| ==> !events[1..][i].ValueProp? by {
          forall i | 0 <= i < |events[1..]| ensures !events[1..][i].ValueProp? {
            assert events[1..][i] == events[i + 1];
          }
        }
      }
    }
  }

  /** In upload mode, as long as the radio is not touched, the pad never
      starts drawing and the ink can only be wiped (by a clear, an upload or
      a new value), never extended. */
  lemma {:induction false} UploadModeNeverDraws(pad: Pad, events: seq<Event>, canvas: Canvas, disabled: bool,
                                                payloads: seq<string>)
    requires |payloads| == |events|
    requires !pad.drawing && pad.mode == UploadMode
    requires forall i :: 0 <= i < |events| ==> !events[i].Choose?
    ensures var r := Run(pad, events, canvas, disabled, payloads);
      !r.drawing && r.mode == UploadMode && r.ink in {pad.ink, []}
    decreases |events|
  {
    if |events| > 0 {
      var next := Handle(pad, events[0], canvas, disabled, payloads[0]).pad;
      assert next.ink in {pad.ink, []};
      UploadModeNeverDraws(next, events[1..], canvas, disabled, payloads[1..]);
      var r := Run(next, events[1..], canvas, disabled, payloads[1..]);
      assert r.ink in {next.ink, []};
    }
  }

  /** Every value the pad reports is either "" or an image data URL, so a
      reported signature always passes the PDF generator's `data:image/` test. */
  lemma ReportedValuesAreImagesOrEmpty(pad: Pad, e: Event, canvas: Canvas, disabled: bool, payload: string)
    ensures var v := Handle(pad, e, canvas, disabled, payload).emitted;
      v.Some? ==> v.value == "" || StartsWith(v.value, "data:image/")
  {
  }

  /** A completed stroke reports exactly one value when the canvas exists. */
  lemma StrokeReportsOnce(pad: Pad, canvas: Canvas, disabled: bool, payload: string)
    requires pad.drawing && pad.mode == DrawMode && canvas.mounted
    ensures Handle(pad, Stop, canvas, disabled, payload)
         == Step(pad.(drawing := false, hasSignature := true), Some(PngDataUrl(payload)), false)
  {
  }
}
