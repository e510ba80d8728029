/**
 * The coordinate arithmetic around the detector call in `classifyLocalImage`
 * and `classifyWebcamImage`: padding the input to a square, decoding the
 * detector's centre/size boxes into corners, and mapping the first box that
 * survives suppression back onto the source image as a crop rectangle.
 */
module Detection {

  import opened Optional

  /** Side of the square the detector works in (`YOLO_CANVAS_SIZE`, and the literal 640). */
  const YoloCanvasSize: real := 640.0

  /** `Math.max` on pixel counts. */
  function Max(a: int, b: int): (m: int)
    ensures m >= a && m >= b && (m == a || m == b)
  {
    if a >= b then a else b
  }

  /** `Math.min` on reals. */
  function Min(a: real, b: real): (m: real)
    ensures m <= a && m <= b && (m == a || m == b)
  {
    if a <= b then a else b
  }

  // ---------------------------------------------------------------- padding

  /** Pixels added before and after one axis of a tensor, as `tf.pad` takes them. */
  datatype AxisPad = AxisPad(before: int, after: int)

  /** The padding of a height x width x channel image. */
  datatype PadSpec = PadSpec(rows: AxisPad, cols: AxisPad, channels: AxisPad)

  /** The shape of a height x width x channel image. */
  datatype Shape = Shape(height: int, width: int, channels: int)

  /** The shape `tf.pad` produces. */
  function Padded(s: Shape, p: PadSpec): (r: Shape)
    ensures p.rows.before >= 0 && p.rows.after >= 0 ==> r.height >= s.height
    ensures p.cols.before >= 0 && p.cols.after >= 0 ==> r.width >= s.width
    ensures p.channels == AxisPad(0, 0) ==> r.channels == s.channels
  {
    Shape(p.rows.before + s.height + p.rows.after,
          p.cols.before + s.width + p.cols.after,
          p.channels.before + s.channels + p.channels.after)
  }

  /**
   * The padding that makes an `h` x `w` image square: only the bottom and
   * right edges grow, so the top-left origin stays put, and only the shorter
   * axis grows at all.
   */
  function SquarePad(h: nat, w: nat): (p: PadSpec)
    ensures p.rows.before == 0 && p.cols.before == 0 && p.channels == AxisPad(0, 0)
    ensures p.rows.after >= 0 && p.cols.after >= 0
    ensures p.rows.after == 0 || p.cols.after == 0
    ensures h + p.rows.after == w + p.cols.after
  {
    var maxSize := Max(w, h);
    PadSpec(AxisPad(0, maxSize - h), AxisPad(0, maxSize - w), AxisPad(0, 0))
  }

  /** The padded image is the smallest square holding the original: its side is the longer side. */
  lemma SquarePadShape(h: nat, w: nat, c: nat)
    ensures Padded(Shape(h, w, c), SquarePad(h, w)) == Shape(Max(h, w), Max(h, w), c)
  {
  }

  // ----------------------------------------------------------- box decoding

  /** The first four channels of one transposed detector row: centre and size. */
  datatype Anchor = Anchor(cx: real, cy: real, w: real, h: real)

  /** A detection box in the detector's corner order `[y1, x1, y2, x2]`. */
  datatype Box = Box(y1: real, x1: real, y2: real, x2: real)

  /**
   * Centre/size to corners: the box keeps the anchor's centre and extents,
   * and its corners are ordered whenever the size is not negative.
   */
  function DecodeBox(a: Anchor): (b: Box)
    ensures b.x1 == a.cx - a.w / 2.0 && b.y1 == a.cy - a.h / 2.0
    ensures b.x2 - b.x1 == a.w && b.y2 - b.y1 == a.h
    ensures (b.x1 + b.x2) / 2.0 == a.cx && (b.y1 + b.y2) / 2.0 == a.cy
    ensures a.w >= 0.0 ==> b.x1 <= b.x2
    ensures a.h >= 0.0 ==> b.y1 <= b.y2
  {
    var x1 := a.cx - a.w / 2.0;
    var y1 := a.cy - a.h / 2.0;
    Box(y1, x1, y1 + a.h, x1 + a.w)
  }

  /** Corners back to centre/size: the inverse of DecodeBox. */
  function EncodeBox(b: Box): (a: Anchor)
    ensures DecodeBox(a) == b
  {
    Anchor((b.x1 + b.x2) / 2.0, (b.y1 + b.y2) / 2.0, b.x2 - b.x1, b.y2 - b.y1)
  }

  /** Decoding loses nothing: the anchor is recovered from its box. */
  lemma EncodeDecode(a: Anchor)
    ensures EncodeBox(DecodeBox(a)) == a
  {
  }

  // ------------------------------------------------------------ crop mapping

  /**
   * `Math.min(640 / width, 640 / height)`: the scale that fits a
   * `width` x `height` image into the detector's square, touching one side.
   */
  function Ratio(width: nat, height: nat): (ratio: real)
    requires width > 0 && height > 0
    ensures ratio > 0.0
    ensures ratio * (width as real) <= YoloCanvasSize && ratio * (height as real) <= YoloCanvasSize
    ensures ratio * (width as real) == YoloCanvasSize || ratio * (height as real) == YoloCanvasSize
  {
    Min(YoloCanvasSize / (width as real), YoloCanvasSize / (height as real))
  }

  /** The source rectangle `(img_x, img_y, img_w, img_h)` handed to `drawImage` or `slice`. */
  datatype Crop = Crop(x: real, y: real, w: real, h: real)

  /**
   * The crop read from the boxes that survive suppression, in score order.
   * Only the first box is used. Its corners are divided by the ratio; the
   * width is taken from the box's vertical extent and the height from its
   * horizontal extent, exactly as the source does. With no surviving box the
   * source reads `undefined` and computes NaN coordinates: None here.
   */
  function CropFromDetections(survivors: seq<Box>, width: nat, height: nat): (crop: Option<Crop>)
    requires width > 0 && height > 0
    ensures crop.Some? <==> |survivors| > 0
    ensures crop.Some? ==>
              var b, ratio := survivors[0], Ratio(width, height);
              && crop.value.x * ratio == b.x1
              && crop.value.y * ratio == b.y1
              && crop.value.w * ratio == b.y2 - b.y1
              && crop.value.h * ratio == b.x2 - b.x1
  {
    if |survivors| == 0 then None
    else
      var boxesData := survivors[0];
      var ratio := Ratio(width, height);
      Some(Crop(boxesData.x1 / ratio, boxesData.y1 / ratio,
                (boxesData.y2 - boxesData.y1) / ratio, (boxesData.x2 - boxesData.x1) / ratio))
  }

  /**
   * The crop ratio is exactly the scale at which the padded square is resized
   * to the detector's input: 640 over each side of the padded image.
   */
  lemma RatioIsResizeScale(width: nat, height: nat, c: nat)
    requires width > 0 && height > 0
    ensures var padded := Padded(Shape(height, width, c), SquarePad(height, width));
            && Ratio(width, height) * (padded.height as real) == YoloCanvasSize
            && Ratio(width, height) * (padded.width as real) == YoloCanvasSize
  {
    SquarePadShape(height, width, c);
    assert Max(height, width) == Max(width, height);
  }

  /** A pixel position on the source image or on the detector's input. */
  datatype Point = Point(x: real, y: real)

  /** `tf.browser.fromPixels` reads three channels. */
  const PixelChannels: nat := 3

  /**
   * Where a point of the source image lands after `tf.pad` with the square
   * padding and resizing the padded image to the detector's 640 x 640 input:
   * each axis is shifted by its leading pad and scaled by 640 over the padded
   * length of that axis. Because the leading pads are zero and the padded
   * image is square, this is plain scaling by the crop ratio, and a point of
   * the image stays inside the square.
   */
  function ToDetectorSpace(p: Point, width: nat, height: nat): (q: Point)
    requires width > 0 && height > 0
    ensures q == Point(p.x * Ratio(width, height), p.y * Ratio(width, height))
    ensures 0.0 <= p.x <= width as real && 0.0 <= p.y <= height as real ==>
              0.0 <= q.x <= YoloCanvasSize && 0.0 <= q.y <= YoloCanvasSize
  {
    var pad := SquarePad(height, width);
    var padded := Padded(Shape(height, width, PixelChannels), pad);
    RatioIsResizeScale(width, height, PixelChannels);
    Point(ResizeAxis(p.x, pad.cols.before, padded.width, Ratio(width, height), width),
          ResizeAxis(p.y, pad.rows.before, padded.height, Ratio(width, height), height))
  }

  /**
   * One axis of the pad-and-resize: a coordinate `v` is shifted by the leading
   * pad and scaled by 640 over the padded length `side`. With no leading pad
   * and a ratio that takes `side` to 640, that is scaling by the ratio.
   */
  function ResizeAxis(v: real, before: int, side: int, ratio: real, length: nat): (r: real)
    requires side > 0 && ratio > 0.0 && ratio * (side as real) == YoloCanvasSize
    ensures before == 0 ==> r == v * ratio
    ensures before == 0 && 0.0 <= v <= length as real && ratio * (length as real) <= YoloCanvasSize ==>
              0.0 <= r <= YoloCanvasSize
  {
    var shifted := v + before as real;
    assert shifted * YoloCanvasSize == (shifted * ratio) * (side as real);
    assert 0.0 <= v <= length as real ==> v * ratio <= (length as real) * ratio;
    shifted * YoloCanvasSize / (side as real)
  }

  /**
   * Since padding only grows the bottom and right edges, dividing by the ratio
   * brings the top-left corner of a detected box back to the source pixel it
   * came from: no padding offset needs to be undone, provided the detector's
   * input is 640 x 640, the size the ratio is computed against.
   */
  lemma CropRecoversOrigin(p: Point, width: nat, height: nat, b: Box, rest: seq<Box>)
    requires width > 0 && height > 0
    requires Point(b.x1, b.y1) == ToDetectorSpace(p, width, height)
    ensures CropFromDetections([b] + rest, width, height) ==
              Some(Crop(p.x, p.y, (b.y2 - b.y1) / Ratio(width, height), (b.x2 - b.x1) / Ratio(width, height)))
  {
    var q := ToDetectorSpace(p, width, height);
    assert b.x1 == q.x == p.x * Ratio(width, height);
    assert b.y1 == q.y == p.y * Ratio(width, height);
    CropOfScaledCorner(p, width, height, b, rest);
  }

  /** A box whose corner is `p` scaled by the ratio is cropped starting at `p`. */
  lemma CropOfScaledCorner(p: Point, width: nat, height: nat, b: Box, rest: seq<Box>)
    requires width > 0 && height > 0
    requires b.x1 == p.x * Ratio(width, height) && b.y1 == p.y * Ratio(width, height)
    ensures CropFromDetections([b] + rest, width, height) ==
              Some(Crop(p.x, p.y, (b.y2 - b.y1) / Ratio(width, height), (b.x2 - b.x1) / Ratio(width, height)))
  {
    var ratio := Ratio(width, height);
    assert ([b] + rest)[0] == b;
    assert (p.x * ratio) / ratio == p.x && (p.y * ratio) / ratio == p.y;
    assert b.x1 / ratio == p.x && b.y1 / ratio == p.y;
    assert CropFromDetections([b] + rest, width, height).value ==
             Crop(b.x1 / ratio, b.y1 / ratio, (b.y2 - b.y1) / ratio, (b.x2 - b.x1) / ratio);
  }

  /**
   * The crop's width and height are the detected box's height and width: for
   * a box that is not square the crop does not have the box's extents.
   */
  lemma CropSwapsExtents(a: Anchor, rest: seq<Box>, width: nat, height: nat)
    requires width > 0 && height > 0
    ensures var crop, ratio := CropFromDetections([DecodeBox(a)] + rest, width, height).value, Ratio(width, height);
            && crop.w * ratio == a.h && crop.h * ratio == a.w
            && (a.w != a.h ==> crop.w * ratio != a.w && crop.h * ratio != a.h)
  {
  }

}
