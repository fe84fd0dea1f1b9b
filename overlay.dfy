/**
 * The response view: the boxes drawn over the image preview, the list of
 * detected areas beside it, and the model badge.  The 2-D canvas context is
 * a class whose drawing calls append to the list of commands it has drawn,
 * each recorded with the style in force when it was issued.
 */
module Overlay {
  import opened JsBuiltins
  import opened QATypes

  /** `hsl(hue, 100%, 50%)`, `'white'`, or the canvas default `#000`. */
  datatype Color = Hsl(hue: nat) | White | Black

  /** One drawing call, with the style that applied to it. */
  datatype Draw =
    | DrawImage(width: nat, height: nat)
    | StrokedRect(x: real, y: real, w: real, h: real, color: Color, lineWidth: nat)
    | FilledRect(x: real, y: real, w: real, h: real, color: Color)
    | FilledText(text: string, x: real, y: real, color: Color, font: string)

  const LineWidth: nat := 3
  const TileSize: real := 20.0
  const LabelFont := "14px Arial"
  const ContextLimit: nat := 100
  const FallbackTag := "(Fallback)"

  /** The 2-D context of the overlay canvas together with the canvas size. */
  class Canvas {
    var width: nat
    var height: nat
    var strokeStyle: Color
    var fillStyle: Color
    var lineWidth: nat
    var font: string
    var drawn: seq<Draw>

    /** A fresh canvas with the HTML defaults and nothing drawn. */
    constructor()
      ensures width == 300 && height == 150
      ensures strokeStyle == Black && fillStyle == Black && lineWidth == 1 && font == "10px sans-serif"
      ensures drawn == []
    {
      width, height := 300, 150;
      strokeStyle, fillStyle := Black, Black;
      lineWidth, font := 1, "10px sans-serif";
      drawn := [];
    }

    /** `canvas.width = w`: as in HTML, setting the size clears the bitmap and resets the context's styles. */
    method SetWidth(w: nat)
      modifies this
      ensures width == w && height == old(height)
      ensures strokeStyle == Black && fillStyle == Black && lineWidth == 1 && font == "10px sans-serif"
      ensures drawn == []
    {
      width := w;
      strokeStyle, fillStyle := Black, Black;
      lineWidth, font := 1, "10px sans-serif";
      drawn := [];
    }

    /** `canvas.height = h`, which clears and resets like `SetWidth`. */
    method SetHeight(h: nat)
      modifies this
      ensures width == old(width) && height == h
      ensures strokeStyle == Black && fillStyle == Black && lineWidth == 1 && font == "10px sans-serif"
      ensures drawn == []
    {
      height := h;
      strokeStyle, fillStyle := Black, Black;
      lineWidth, font := 1, "10px sans-serif";
      drawn := [];
    }

    /** `drawImage(img, 0, 0, w, h)` */
    method DrawImageAt(w: nat, h: nat)
      modifies this
      ensures drawn == old(drawn) + [DrawImage(w, h)]
      ensures width == old(width) && height == old(height)
      ensures strokeStyle == old(strokeStyle) && fillStyle == old(fillStyle)
      ensures lineWidth == old(lineWidth) && font == old(font)
    {
      drawn := drawn + [DrawImage(w, h)];
    }

    /** `strokeRect(x, y, w, h)` in the current stroke style and line width. */
    method StrokeRect(x: real, y: real, w: real, h: real)
      modifies this
      ensures drawn == old(drawn) + [StrokedRect(x, y, w, h, old(strokeStyle), old(lineWidth))]
      ensures width == old(width) && height == old(height)
      ensures strokeStyle == old(strokeStyle) && fillStyle == old(fillStyle)
      ensures lineWidth == old(lineWidth) && font == old(font)
    {
      drawn := drawn + [StrokedRect(x, y, w, h, strokeStyle, lineWidth)];
    }

    /** `fillRect(x, y, w, h)` in the current fill style. */
    method FillRect(x: real, y: real, w: real, h: real)
      modifies this
      ensures drawn == old(drawn) + [FilledRect(x, y, w, h, old(fillStyle))]
      ensures width == old(width) && height == old(height)
      ensures strokeStyle == old(strokeStyle) && fillStyle == old(fillStyle)
      ensures lineWidth == old(lineWidth) && font == old(font)
    {
      drawn := drawn + [FilledRect(x, y, w, h, fillStyle)];
    }

    /** `fillText(text, x, y)` in the current fill style and font. */
    method FillText(text: string, x: real, y: real)
      modifies this
      ensures drawn == old(drawn) + [FilledText(text, x, y, old(fillStyle), old(font))]
      ensures width == old(width) && height == old(height)
      ensures strokeStyle == old(strokeStyle) && fillStyle == old(fillStyle)
      ensures lineWidth == old(lineWidth) && font == old(font)
    {
      drawn := drawn + [FilledText(text, x, y, fillStyle, font)];
    }
  }

  // ---------------------------------------------------------------------------
  // Colours and labels

  /** The colour of box `index`: steps of 137 degrees around the hue circle. */
  function Hue(index: nat): (hue: nat)
    ensures hue < 360
  {
    (index * 137) % 360
  }

  /** Neighbouring boxes never share a colour. */
  lemma HueConsecutiveDistinct(index: nat)
    ensures Hue(index) != Hue(index + 1)
  {
    var a := index * 137;
    assert (index + 1) * 137 == a + 137;
    assert a == 360 * (a / 360) + a % 360;
    assert a + 137 == 360 * ((a + 137) / 360) + (a + 137) % 360;
  }

  /**
   * Any 360 consecutive boxes get pairwise different colours, because 137 is
   * invertible modulo 360 (137 * 113 = 43 * 360 + 1).
   */
  lemma HueDistinctWithinPeriod(i: nat, j: nat)
    requires i < j < i + 360
    ensures Hue(i) != Hue(j)
  {
    var d := j - i;
    var qi := (i * 137) / 360;
    var qj := (j * 137) / 360;
    assert i * 137 == 360 * qi + Hue(i);
    assert j * 137 == 360 * qj + Hue(j);
    assert j * 137 == i * 137 + d * 137;
    // 113 is the inverse of 137 modulo 360, so d is recovered from the hue difference.
    assert 113 * (Hue(j) - Hue(i)) == d + 360 * (43 * d - 113 * (qj - qi));
  }

  /** The colours repeat with period 360. */
  lemma HuePeriodic(index: nat)
    ensures Hue(index + 360) == Hue(index)
  {
    var a := index * 137;
    assert (index + 360) * 137 == a + 360 * 137;
    assert a == 360 * (a / 360) + a % 360;
  }

  /** `(index + 1).toString()`: the badge of box `index`. */
  function Label(index: nat): (text: string)
    ensures text != [] && AllDigits(text)
  {
    DecimalString(index + 1)
  }

  /** Badges count from one, and different boxes get different badges. */
  lemma LabelOneBased(i: nat, j: nat)
    ensures DigitsValue(Label(i)) == i + 1
    ensures Label(i) == Label(j) ==> i == j
  {
    DecimalStringRoundTrip(i + 1);
    DecimalStringInjective(i + 1, j + 1);
  }

  /** The shown context: the first hundred characters and an ellipsis when it is longer. */
  function DisplayContext(context: string): (shown: string)
    ensures |context| <= ContextLimit ==> shown == context
    ensures |context| > ContextLimit ==>
              |shown| == ContextLimit + 3 && shown[..ContextLimit] == context[..ContextLimit] && EndsWith(shown, "...")
  {
    if |context| > ContextLimit then context[..ContextLimit] + "..." else context
  }

  /** Truncating what was already truncated changes nothing. */
  lemma DisplayContextIdempotent(context: string)
    ensures DisplayContext(DisplayContext(context)) == DisplayContext(context)
  {
    var shown := DisplayContext(context);
    if |context| > ContextLimit {
      assert shown[..ContextLimit] == context[..ContextLimit];
    }
  }

  /** The header badge: the model, a space, and "(Fallback)" exactly when `fallback` is truthy. */
  function ModelBadge(response: QAResponse): (badge: string)
    ensures StartsWith(badge, response.model + " ")
    ensures EndsWith(badge, FallbackTag) <==> response.fallback == Some(true)
  {
    var badge := response.model + " " + (if response.fallback == Some(true) then FallbackTag else "");
    assert badge[..|response.model| + 1] == response.model + " ";
    assert response.fallback != Some(true) ==> badge[|badge| - 1] == ' ';
    badge
  }

  // ---------------------------------------------------------------------------
  // The overlay of one box

  /** The four coordinates of a box as reals. */
  function X1(box: BoundingBox): real requires FiniteBox(box) { box.coordinates[0].value }
  function Y1(box: BoundingBox): real requires FiniteBox(box) { box.coordinates[1].value }
  function X2(box: BoundingBox): real requires FiniteBox(box) { box.coordinates[2].value }
  function Y2(box: BoundingBox): real requires FiniteBox(box) { box.coordinates[3].value }

  /**
   * What one iteration of the drawing loop draws for box `index` on an image
   * of `w` by `h` pixels: the outline, the colour tile and the badge number.
   */
  function BoxCommands(box: BoundingBox, index: nat, w: nat, h: nat): seq<Draw>
    requires FiniteBox(box)
  {
    var x := X1(box) * w as real;
    var y := Y1(box) * h as real;
    [StrokedRect(x, y, (X2(box) - X1(box)) * w as real, (Y2(box) - Y1(box)) * h as real, Hsl(Hue(index)), LineWidth),
     FilledRect(x, y - TileSize, TileSize, TileSize, Hsl(Hue(index))),
     FilledText(Label(index), x + 6.0, y - 5.0, White, LabelFont)]
  }

  /**
   * The outline spans the box scaled to the image, corner to corner; the tile
   * sits on top of its top-left corner and the badge text lies inside the tile.
   */
  lemma BoxGeometry(box: BoundingBox, index: nat, w: nat, h: nat)
    requires FiniteBox(box)
    ensures var cs := BoxCommands(box, index, w, h);
            && cs[0].x == X1(box) * w as real && cs[0].y == Y1(box) * h as real
            && cs[0].x + cs[0].w == X2(box) * w as real
            && cs[0].y + cs[0].h == Y2(box) * h as real
            && cs[1].x == cs[0].x && cs[1].y + cs[1].h == cs[0].y
            && cs[1].w == TileSize && cs[1].h == TileSize
            && cs[1].x < cs[2].x < cs[1].x + cs[1].w
            && cs[1].y < cs[2].y < cs[1].y + cs[1].h
  {
    var W := w as real;
    var H := h as real;
    assert (X2(box) - X1(box)) * W == X2(box) * W - X1(box) * W;
    assert (Y2(box) - Y1(box)) * H == Y2(box) * H - Y1(box) * H;
  }

  /** A box with normalised coordinates in the right order stays inside the image. */
  lemma BoxInsideImage(box: BoundingBox, index: nat, w: nat, h: nat)
    requires NormalisedBox(box) && X1(box) <= X2(box) && Y1(box) <= Y2(box)
    ensures var r := BoxCommands(box, index, w, h)[0];
            && 0.0 <= r.x && r.x + r.w <= w as real && 0.0 <= r.w
            && 0.0 <= r.y && r.y + r.h <= h as real && 0.0 <= r.h
  {
    var r := BoxCommands(box, index, w, h)[0];
    Outline(box, index, w, h);
    NormalisedCorners(box);
    ScaleWithin(X1(box), X2(box), w as real, r.x, r.w);
    ScaleWithin(Y1(box), Y2(box), h as real, r.y, r.h);
  }

  /** The outline is the box's corner and extent, each scaled to the image. */
  lemma Outline(box: BoundingBox, index: nat, w: nat, h: nat)
    requires FiniteBox(box)
    ensures var r := BoxCommands(box, index, w, h)[0];
            && r.StrokedRect?
            && r.x == X1(box) * w as real && r.w == (X2(box) - X1(box)) * w as real
            && r.y == Y1(box) * h as real && r.h == (Y2(box) - Y1(box)) * h as real
  {
  }

  /** The corners of a normalised box are fractions. */
  lemma NormalisedCorners(box: BoundingBox)
    requires NormalisedBox(box)
    ensures 0.0 <= X1(box) <= 1.0 && 0.0 <= Y1(box) <= 1.0
    ensures 0.0 <= X2(box) <= 1.0 && 0.0 <= Y2(box) <= 1.0
  {
    assert box.coordinates[0].value == X1(box) && box.coordinates[1].value == Y1(box);
    assert box.coordinates[2].value == X2(box) && box.coordinates[3].value == Y2(box);
  }

  /** Scaling two ordered fractions by a size keeps them ordered and within the size. */
  lemma ScaleWithin(a: real, b: real, size: real, start: real, extent: real)
    requires 0.0 <= a <= b <= 1.0 && 0.0 <= size
    requires start == a * size && extent == (b - a) * size
    ensures 0.0 <= start && start + extent <= size && 0.0 <= extent
  {
    assert a * size + (b - a) * size == b * size;
    assert b * size <= 1.0 * size;
  }

  // ---------------------------------------------------------------------------
  // The whole overlay

  /** The commands for the first `n` boxes, in list order. */
  function Commands(boxes: seq<BoundingBox>, n: nat, w: nat, h: nat): (cs: seq<Draw>)
    requires n <= |boxes|
    requires forall k :: 0 <= k < |boxes| ==> FiniteBox(boxes[k])
    ensures |cs| == 3 * n
    decreases n
  {
    if n == 0 then [] else Commands(boxes, n - 1, w, h) + BoxCommands(boxes[n - 1], n - 1, w, h)
  }

  /** Everything the loop draws for the list of boxes. */
  function BoxesOverlay(boxes: seq<BoundingBox>, w: nat, h: nat): seq<Draw>
    requires forall k :: 0 <= k < |boxes| ==> FiniteBox(boxes[k])
  {
    Commands(boxes, |boxes|, w, h)
  }

  /** Each box contributes exactly its three commands, at position 3k, in list order. */
  lemma {:induction false} CommandsInOrder(boxes: seq<BoundingBox>, n: nat, w: nat, h: nat, k: nat)
    requires forall i :: 0 <= i < |boxes| ==> FiniteBox(boxes[i])
    requires k < n <= |boxes|
    ensures Commands(boxes, n, w, h)[3 * k..3 * k + 3] == BoxCommands(boxes[k], k, w, h)
    decreases n
  {
    var prefix := Commands(boxes, n - 1, w, h);
    if k < n - 1 {
      CommandsInOrder(boxes, n - 1, w, h, k);
      assert Commands(boxes, n, w, h)[3 * k..3 * k + 3] == prefix[3 * k..3 * k + 3];
    } else {
      assert Commands(boxes, n, w, h)[3 * k..3 * k + 3] == BoxCommands(boxes[k], k, w, h);
    }
  }

  /**
   * The overlay holds one outline and one numbered tile per box, in list
   * order, in the box's colour: three commands per box and nothing else.
   */
  lemma OverlayPerBox(boxes: seq<BoundingBox>, w: nat, h: nat)
    requires forall i :: 0 <= i < |boxes| ==> FiniteBox(boxes[i])
    ensures |BoxesOverlay(boxes, w, h)| == 3 * |boxes|
    ensures forall k :: 0 <= k < |boxes| ==>
              BoxesOverlay(boxes, w, h)[3 * k..3 * k + 3] == BoxCommands(boxes[k], k, w, h)
    ensures forall k :: 0 <= k < |boxes| ==>
              && BoxesOverlay(boxes, w, h)[3 * k].StrokedRect?
              && BoxesOverlay(boxes, w, h)[3 * k].color == Hsl(Hue(k))
              && BoxesOverlay(boxes, w, h)[3 * k + 2] == FilledText(Label(k), X1(boxes[k]) * w as real + 6.0,
                                                                    Y1(boxes[k]) * h as real - 5.0, White, LabelFont)
  {
    forall k | 0 <= k < |boxes|
      ensures BoxesOverlay(boxes, w, h)[3 * k..3 * k + 3] == BoxCommands(boxes[k], k, w, h)
    {
      CommandsInOrder(boxes, |boxes|, w, h, k);
    }
    forall k | 0 <= k < |boxes|
      ensures BoxesOverlay(boxes, w, h)[3 * k] == BoxCommands(boxes[k], k, w, h)[0]
      ensures BoxesOverlay(boxes, w, h)[3 * k + 2] == BoxCommands(boxes[k], k, w, h)[2]
    {
      CommandsInOrder(boxes, |boxes|, w, h, k);
      assert BoxesOverlay(boxes, w, h)[3 * k] == BoxesOverlay(boxes, w, h)[3 * k..3 * k + 3][0];
      assert BoxesOverlay(boxes, w, h)[3 * k + 2] == BoxesOverlay(boxes, w, h)[3 * k..3 * k + 3][2];
    }
  }

  /** Whether the effect draws at all: a canvas, a preview and at least one box. */
  predicate DrawsOverlay(hasCanvas: bool, imagePreview: string, response: QAResponse)
  {
    hasCanvas && imagePreview != [] && |response.boundingBoxes| > 0
  }

  /** The `forEach` callback for box `index`: set the styles and draw its outline, tile and number. */
  method DrawBox(canvas: Canvas, box: BoundingBox, index: nat, imgWidth: nat, imgHeight: nat)
    requires FiniteBox(box)
    modifies canvas
    ensures canvas.width == old(canvas.width) && canvas.height == old(canvas.height)
    ensures canvas.drawn == old(canvas.drawn) + BoxCommands(box, index, imgWidth, imgHeight)
    ensures canvas.strokeStyle == Hsl(Hue(index)) && canvas.lineWidth == LineWidth
    ensures canvas.fillStyle == White && canvas.font == LabelFont
  {
    var x1, y1 := box.coordinates[0].value, box.coordinates[1].value;
    var x2, y2 := box.coordinates[2].value, box.coordinates[3].value;
    var width := (x2 - x1) * imgWidth as real;
    var height := (y2 - y1) * imgHeight as real;
    var hue := (index * 137) % 360;
    canvas.strokeStyle := Hsl(hue);
    canvas.lineWidth := 3;
    canvas.StrokeRect(x1 * imgWidth as real, y1 * imgHeight as real, width, height);
    canvas.fillStyle := Hsl(hue);
    canvas.FillRect(x1 * imgWidth as real, y1 * imgHeight as real - 20.0, 20.0, 20.0);
    canvas.fillStyle := White;
    canvas.font := "14px Arial";
    canvas.FillText(DecimalString(index + 1), x1 * imgWidth as real + 6.0, y1 * imgHeight as real - 5.0);
    assert hue == Hue(index);
    assert canvas.drawn[|old(canvas.drawn)|] == BoxCommands(box, index, imgWidth, imgHeight)[0];
    assert canvas.drawn[|old(canvas.drawn)| + 1] == BoxCommands(box, index, imgWidth, imgHeight)[1];
    assert canvas.drawn[|old(canvas.drawn)| + 2] == BoxCommands(box, index, imgWidth, imgHeight)[2];
  }

  /**
   * The `onload` handler: size the canvas to the image (which clears it),
   * draw the image, then outline and number every box in turn.
   */
  method DrawOnLoad(canvas: Canvas, boxes: seq<BoundingBox>, imgWidth: nat, imgHeight: nat)
    requires forall k :: 0 <= k < |boxes| ==> FiniteBox(boxes[k])
    modifies canvas
    ensures canvas.width == imgWidth && canvas.height == imgHeight
    ensures canvas.drawn == [DrawImage(imgWidth, imgHeight)] + BoxesOverlay(boxes, imgWidth, imgHeight)
    ensures |boxes| == 0 ==> canvas.strokeStyle == Black && canvas.fillStyle == Black
    ensures |boxes| == 0 ==> canvas.lineWidth == 1 && canvas.font == "10px sans-serif"
    ensures |boxes| > 0 ==> canvas.strokeStyle == Hsl(Hue(|boxes| - 1)) && canvas.lineWidth == LineWidth
    ensures |boxes| > 0 ==> canvas.fillStyle == White && canvas.font == LabelFont
  {
    canvas.SetWidth(imgWidth);
    canvas.SetHeight(imgHeight);
    canvas.DrawImageAt(imgWidth, imgHeight);
    ghost var before := canvas.drawn;
    var i := 0;
    while i < |boxes|
      invariant 0 <= i <= |boxes|
      invariant canvas.width == imgWidth && canvas.height == imgHeight
      invariant before == [DrawImage(imgWidth, imgHeight)]
      invariant canvas.drawn == before + Commands(boxes, i, imgWidth, imgHeight)
      invariant i == 0 ==> canvas.strokeStyle == Black && canvas.fillStyle == Black
      invariant i == 0 ==> canvas.lineWidth == 1 && canvas.font == "10px sans-serif"
      invariant i > 0 ==> canvas.strokeStyle == Hsl(Hue(i - 1)) && canvas.lineWidth == LineWidth
      invariant i > 0 ==> canvas.fillStyle == White && canvas.font == LabelFont
    {
      DrawBox(canvas, boxes[i], i, imgWidth, imgHeight);
      assert before + Commands(boxes, i + 1, imgWidth, imgHeight)
          == before + Commands(boxes, i, imgWidth, imgHeight) + BoxCommands(boxes[i], i, imgWidth, imgHeight);
      i := i + 1;
    }
  }

  /**
   * The effect: return at once without a canvas, without a preview or
   * without boxes; otherwise the image loads with the given size and the
   * overlay is drawn.
   */
  method DrawBoxes(canvas: Canvas?, imagePreview: string, response: QAResponse, imgWidth: nat, imgHeight: nat)
    requires forall k :: 0 <= k < |response.boundingBoxes| ==> FiniteBox(response.boundingBoxes[k])
    modifies canvas
    ensures canvas != null && !DrawsOverlay(true, imagePreview, response) ==> unchanged(canvas)
    ensures canvas != null && DrawsOverlay(true, imagePreview, response) ==>
              && canvas.width == imgWidth && canvas.height == imgHeight
              && canvas.drawn == [DrawImage(imgWidth, imgHeight)] + BoxesOverlay(response.boundingBoxes, imgWidth, imgHeight)
  {
    if canvas == null || imagePreview == [] || |response.boundingBoxes| == 0 {
      return;
    }
    DrawOnLoad(canvas, response.boundingBoxes, imgWidth, imgHeight);
  }

  // ---------------------------------------------------------------------------
  // The list of detected areas

  /** One row of the list: border and badge colour, badge number and shown context. */
  datatype ListEntry = ListEntry(border: Color, badgeColor: Color, badge: string, context: string)

  /** The rows of the "Detected Areas" list, one per box in order. */
  function DetectedAreas(boxes: seq<BoundingBox>): (entries: seq<ListEntry>)
    ensures |entries| == |boxes|
    ensures forall k :: 0 <= k < |boxes| ==> entries[k].border == entries[k].badgeColor
    ensures forall k :: 0 <= k < |boxes| ==> |entries[k].context| <= ContextLimit + 3
    ensures forall k :: 0 <= k < |boxes| ==>
              && entries[k].border == Hsl(Hue(k)) && entries[k].badge == Label(k)
              && entries[k].context == DisplayContext(boxes[k].context)
  {
    seq(|boxes|, k requires 0 <= k < |boxes| =>
      ListEntry(Hsl(Hue(k)), Hsl(Hue(k)), Label(k), DisplayContext(boxes[k].context)))
  }

  /** A list row and the canvas drawing of the same box share the colour and the number. */
  lemma ListMatchesCanvas(boxes: seq<BoundingBox>, w: nat, h: nat, k: nat)
    requires forall i :: 0 <= i < |boxes| ==> FiniteBox(boxes[i])
    requires k < |boxes|
    ensures var entry := DetectedAreas(boxes)[k];
            var overlay := BoxesOverlay(boxes, w, h);
            && overlay[3 * k].StrokedRect? && overlay[3 * k + 1].FilledRect? && overlay[3 * k + 2].FilledText?
            && entry.border == overlay[3 * k].color == overlay[3 * k + 1].color
            && entry.badge == overlay[3 * k + 2].text
  {
    CommandsInOrder(boxes, |boxes|, w, h, k);
    var overlay := BoxesOverlay(boxes, w, h);
    assert overlay[3 * k] == overlay[3 * k..3 * k + 3][0];
    assert overlay[3 * k + 1] == overlay[3 * k..3 * k + 3][1];
    assert overlay[3 * k + 2] == overlay[3 * k..3 * k + 3][2];
  }
}
