/**
 * The image redactor: a copy of the image is made, then each box is either
 * filled black or blurred in place on the copy, in list order. The image is a
 * two-dimensional array of pixel values indexed [row, column], that is
 * [y, x]; Gaussian blur stays abstract, as a function giving the blurred
 * value at each offset of the cropped region.
 */
module Redactor {

  /** The value `fill='black'` paints. */
  const Black: int := 0

  /** One `(x, y, w, h)` entry of `boxes`: x and w along columns, y and h along rows. */
  datatype Box = Box(x: int, y: int, w: int, h: int)

  /** Pillow raises for a rectangle or crop whose far corner lies before its near corner. */
  predicate Drawable(b: Box) {
    b.w >= 0 && b.h >= 0
  }

  /** `ImageFilter.GaussianBlur(radius=10)` on a cropped region: the blurred value at row i, column j. */
  type Blur = (seq<seq<int>>, int, int) -> int

  /** The pixels of `a`, row by row. */
  function Grid(a: array2<int>): (g: seq<seq<int>>)
    reads a
    ensures |g| == a.Length0
    ensures forall i :: 0 <= i < |g| ==> |g[i]| == a.Length1
    ensures forall i, j :: 0 <= i < a.Length0 && 0 <= j < a.Length1 ==> g[i][j] == a[i, j]
  {
    seq(a.Length0, i requires 0 <= i < a.Length0 reads a =>
      seq(a.Length1, j requires 0 <= j < a.Length1 reads a => a[i, j]))
  }

  /** A grid whose rows all have `width` pixels. */
  predicate Rectangular(g: seq<seq<int>>, width: nat) {
    forall i :: 0 <= i < |g| ==> |g[i]| == width
  }

  /** `draw.rectangle([x, y, x + w, y + h])` covers both corners. */
  predicate InRectangle(b: Box, i: int, j: int) {
    b.y <= i <= b.y + b.h && b.x <= j <= b.x + b.w
  }

  /** `img.crop((x, y, x + w, y + h))` and `paste(…, (x, y))` cover the far edges exclusively. */
  predicate InRegion(b: Box, i: int, j: int) {
    b.y <= i < b.y + b.h && b.x <= j < b.x + b.w
  }

  /** The pixel at (i, j), or black where the crop reaches past the image. */
  function PixelOr(g: seq<seq<int>>, i: int, j: int): int {
    if 0 <= i < |g| && 0 <= j < |g[i]| then g[i][j] else Black
  }

  /** The `h` by `w` region cropped at (x, y). */
  function Crop(g: seq<seq<int>>, b: Box): (region: seq<seq<int>>)
    requires Drawable(b)
    ensures |region| == b.h && Rectangular(region, b.w)
  {
    seq(b.h, i => seq(b.w, j => PixelOr(g, b.y + i, b.x + j)))
  }

  /** The grid after the black rectangle of `b` is drawn. */
  function Blackbox(g: seq<seq<int>>, b: Box): (r: seq<seq<int>>)
    ensures |r| == |g| && forall i :: 0 <= i < |g| ==> |r[i]| == |g[i]|
  {
    seq(|g|, i requires 0 <= i < |g| => seq(|g[i]|, j requires 0 <= j < |g[i]| =>
      if InRectangle(b, i, j) then Black else g[i][j]))
  }

  /** The grid after the region of `b` is cropped, blurred and pasted back at (x, y). */
  function Blurred(g: seq<seq<int>>, b: Box, blur: Blur): (r: seq<seq<int>>)
    requires Drawable(b)
    ensures |r| == |g| && forall i :: 0 <= i < |g| ==> |r[i]| == |g[i]|
  {
    var region := Crop(g, b);
    seq(|g|, i requires 0 <= i < |g| => seq(|g[i]|, j requires 0 <= j < |g[i]| =>
      if InRegion(b, i, j) then blur(region, i - b.y, j - b.x) else g[i][j]))
  }

  /** The method names that call Pillow; any other name never draws or crops. */
  predicate Draws(mode: string) {
    mode == "blackbox" || mode == "blur"
  }

  /** One box, by the method's name; any other name leaves the grid as it is. */
  function ApplyBox(g: seq<seq<int>>, b: Box, mode: string, blur: Blur): seq<seq<int>>
    requires Draws(mode) ==> Drawable(b)
  {
    if mode == "blackbox" then Blackbox(g, b)
    else if mode == "blur" then Blurred(g, b, blur)
    else g
  }

  predicate AllDrawable(boxes: seq<Box>) {
    forall k :: 0 <= k < |boxes| ==> Drawable(boxes[k])
  }

  /** Pillow accepts every box the method draws: only 'blackbox' and 'blur' need drawable boxes. */
  predicate DrawableFor(boxes: seq<Box>, mode: string) {
    Draws(mode) ==> AllDrawable(boxes)
  }

  /** The boxes applied in list order, each to the result of the ones before. */
  function Redacted(g: seq<seq<int>>, boxes: seq<Box>, mode: string, blur: Blur): seq<seq<int>>
    requires DrawableFor(boxes, mode)
  {
    if |boxes| == 0 then g
    else ApplyBox(Redacted(g, boxes[..|boxes| - 1], mode, blur), boxes[|boxes| - 1], mode, blur)
  }

  /** Two grids of the same shape with the same pixels are equal. */
  lemma GridEquals(a: array2<int>, g: seq<seq<int>>)
    requires |g| == a.Length0 && Rectangular(g, a.Length1)
    requires forall i, j :: 0 <= i < a.Length0 && 0 <= j < a.Length1 ==> a[i, j] == g[i][j]
    ensures Grid(a) == g
  {
    var h := Grid(a);
    forall i | 0 <= i < |g|
      ensures h[i] == g[i]
    {
      assert |h[i]| == |g[i]|;
    }
  }

  /** `image.copy()`. */
  method Copy(image: array2<int>) returns (img: array2<int>)
    ensures fresh(img) && img.Length0 == image.Length0 && img.Length1 == image.Length1
    ensures Grid(img) == Grid(image)
  {
    img := new int[image.Length0, image.Length1];
    var i := 0;
    while i < image.Length0
      invariant 0 <= i <= image.Length0
      invariant forall r, c :: 0 <= r < i && 0 <= c < image.Length1 ==> img[r, c] == image[r, c]
    {
      var j := 0;
      while j < image.Length1
        invariant 0 <= j <= image.Length1
        invariant forall r, c :: 0 <= r < i && 0 <= c < image.Length1 ==> img[r, c] == image[r, c]
        invariant forall c :: 0 <= c < j ==> img[i, c] == image[i, c]
      {
        img[i, j] := image[i, j];
        j := j + 1;
      }
      i := i + 1;
    }
    GridEquals(img, Grid(image));
  }

  /** `draw.rectangle([x, y, x + w, y + h], fill='black')` on `img`. */
  method FillBlack(img: array2<int>, b: Box)
    modifies img
    ensures Grid(img) == Blackbox(old(Grid(img)), b)
  {
    ghost var before := Grid(img);
    var i := 0;
    while i < img.Length0
      invariant 0 <= i <= img.Length0
      invariant forall r, c :: 0 <= r < img.Length0 && 0 <= c < img.Length1 ==>
        img[r, c] == (if r < i && InRectangle(b, r, c) then Black else before[r][c])
    {
      var j := 0;
      while j < img.Length1
        invariant 0 <= j <= img.Length1
        invariant forall r, c :: 0 <= r < img.Length0 && 0 <= c < img.Length1 ==>
          img[r, c] == (if (r < i || (r == i && c < j)) && InRectangle(b, r, c) then Black else before[r][c])
      {
        if InRectangle(b, i, j) {
          img[i, j] := Black;
        }
        j := j + 1;
      }
      i := i + 1;
    }
    GridEquals(img, Blackbox(before, b));
  }

  /**
   * `region = img.crop((x, y, x + w, y + h))`, blurred, then
   * `img.paste(blurred, (x, y))`: the crop is taken before anything is pasted.
   */
  method PasteBlurred(img: array2<int>, b: Box, blur: Blur)
    requires Drawable(b)
    modifies img
    ensures Grid(img) == Blurred(old(Grid(img)), b, blur)
  {
    ghost var before := Grid(img);
    var region := Crop(Grid(img), b);
    var i := 0;
    while i < img.Length0
      invariant 0 <= i <= img.Length0
      invariant forall r, c :: 0 <= r < img.Length0 && 0 <= c < img.Length1 ==>
        img[r, c] == (if r < i && InRegion(b, r, c) then blur(region, r - b.y, c - b.x) else before[r][c])
    {
      var j := 0;
      while j < img.Length1
        invariant 0 <= j <= img.Length1
        invariant forall r, c :: 0 <= r < img.Length0 && 0 <= c < img.Length1 ==>
          img[r, c] == (if (r < i || (r == i && c < j)) && InRegion(b, r, c) then blur(region, r - b.y, c - b.x) else before[r][c])
      {
        if InRegion(b, i, j) {
          img[i, j] := blur(region, i - b.y, j - b.x);
        }
        j := j + 1;
      }
      i := i + 1;
    }
    GridEquals(img, Blurred(before, b, blur));
  }

  /**
   * `redact_boxes(image, boxes, method)`: the input image is left as it was
   * and a fresh copy, of the same size, is returned with every box applied
   * in list order.
   */
  method RedactBoxes(image: array2<int>, boxes: seq<Box>, mode: string, blur: Blur) returns (img: array2<int>)
    requires DrawableFor(boxes, mode)
    ensures fresh(img) && img.Length0 == image.Length0 && img.Length1 == image.Length1
    ensures Grid(image) == old(Grid(image))
    ensures Grid(img) == Redacted(Grid(image), boxes, mode, blur)
  {
    img := Copy(image);
    var k := 0;
    while k < |boxes|
      invariant 0 <= k <= |boxes|
      invariant img.Length0 == image.Length0 && img.Length1 == image.Length1
      invariant Grid(img) == Redacted(Grid(image), boxes[..k], mode, blur)
    {
      assert boxes[..k + 1][..k] == boxes[..k];
      var b := boxes[k];
      if mode == "blackbox" {
        FillBlack(img, b);
      } else if mode == "blur" {
        PasteBlurred(img, b, blur);
      }
      k := k + 1;
    }
    assert boxes[..k] == boxes;
  }

  /** The redacted grid has the image's shape. */
  lemma {:induction false} RedactedKeepsShape(g: seq<seq<int>>, boxes: seq<Box>, mode: string, blur: Blur)
    requires DrawableFor(boxes, mode)
    ensures |Redacted(g, boxes, mode, blur)| == |g|
    ensures forall i :: 0 <= i < |g| ==> |Redacted(g, boxes, mode, blur)[i]| == |g[i]|
  {
    if |boxes| > 0 {
      RedactedKeepsShape(g, boxes[..|boxes| - 1], mode, blur);
    }
  }

  /**
   * With 'blackbox', the order of the boxes does not matter: a pixel ends up
   * black exactly when some box's rectangle, corners included, covers it,
   * and keeps its value otherwise.
   */
  lemma {:induction false} BlackboxCoversUnion(g: seq<seq<int>>, boxes: seq<Box>, blur: Blur, i: int, j: int)
    requires AllDrawable(boxes)
    requires 0 <= i < |g| && 0 <= j < |g[i]|
    ensures RedactedKeepsShapeAt(g, boxes, "blackbox", blur, i, j)
    ensures Redacted(g, boxes, "blackbox", blur)[i][j]
         == if exists k :: 0 <= k < |boxes| && InRectangle(boxes[k], i, j) then Black else g[i][j]
  {
    RedactedKeepsShape(g, boxes, "blackbox", blur);
    if |boxes| > 0 {
      var n := |boxes| - 1;
      BlackboxCoversUnion(g, boxes[..n], blur, i, j);
      BlackboxLastStep(g, boxes, blur, i, j);
      if exists k :: 0 <= k < n && InRectangle(boxes[..n][k], i, j) {
        var k :| 0 <= k < n && InRectangle(boxes[..n][k], i, j);
        assert InRectangle(boxes[k], i, j);
      }
      if exists k :: 0 <= k < |boxes| && InRectangle(boxes[k], i, j) {
        var k :| 0 <= k < |boxes| && InRectangle(boxes[k], i, j);
        if k < n {
          assert InRectangle(boxes[..n][k], i, j);
        }
      }
    }
  }

  /** The last black box paints the pixel if it covers it, else the pixel is what the earlier boxes left. */
  lemma BlackboxLastStep(g: seq<seq<int>>, boxes: seq<Box>, blur: Blur, i: int, j: int)
    requires AllDrawable(boxes) && |boxes| > 0
    requires 0 <= i < |g| && 0 <= j < |g[i]|
    ensures RedactedKeepsShapeAt(g, boxes[..|boxes| - 1], "blackbox", blur, i, j)
    ensures Redacted(g, boxes, "blackbox", blur)[i][j]
         == if InRectangle(boxes[|boxes| - 1], i, j) then Black else Redacted(g, boxes[..|boxes| - 1], "blackbox", blur)[i][j]
  {
    RedactedKeepsShape(g, boxes[..|boxes| - 1], "blackbox", blur);
  }

  predicate RedactedKeepsShapeAt(g: seq<seq<int>>, boxes: seq<Box>, mode: string, blur: Blur, i: int, j: int)
    requires DrawableFor(boxes, mode)
  {
    0 <= i < |Redacted(g, boxes, mode, blur)| && 0 <= j < |Redacted(g, boxes, mode, blur)[i]|
  }

  /**
   * With 'blur', a pixel outside every box's region keeps its value; a
   * pixel inside the last box's region holds the blurred value of the crop
   * taken after the earlier boxes, so later boxes draw over earlier ones.
   */
  lemma {:induction false} BlurTouchesOnlyRegions(g: seq<seq<int>>, boxes: seq<Box>, blur: Blur, i: int, j: int)
    requires AllDrawable(boxes)
    requires 0 <= i < |g| && 0 <= j < |g[i]|
    ensures RedactedKeepsShapeAt(g, boxes, "blur", blur, i, j)
    ensures (forall k :: 0 <= k < |boxes| ==> !InRegion(boxes[k], i, j)) ==> Redacted(g, boxes, "blur", blur)[i][j] == g[i][j]
    ensures |boxes| > 0 && InRegion(boxes[|boxes| - 1], i, j) ==>
      var b := boxes[|boxes| - 1];
      Redacted(g, boxes, "blur", blur)[i][j]
        == blur(Crop(Redacted(g, boxes[..|boxes| - 1], "blur", blur), b), i - b.y, j - b.x)
  {
    RedactedKeepsShape(g, boxes, "blur", blur);
    if |boxes| > 0 {
      var n := |boxes| - 1;
      BlurTouchesOnlyRegions(g, boxes[..n], blur, i, j);
      RedactedKeepsShape(g, boxes[..n], "blur", blur);
      if forall k :: 0 <= k < |boxes| ==> !InRegion(boxes[k], i, j) {
        assert forall k :: 0 <= k < n ==> !InRegion(boxes[..n][k], i, j);
      }
    }
  }

  /** Any method name other than 'blackbox' and 'blur' returns an unchanged copy, whatever the boxes. */
  lemma {:induction false} OtherMethodUnchanged(g: seq<seq<int>>, boxes: seq<Box>, mode: string, blur: Blur)
    requires mode != "blackbox" && mode != "blur"
    ensures Redacted(g, boxes, mode, blur) == g
  {
    if |boxes| > 0 {
      OtherMethodUnchanged(g, boxes[..|boxes| - 1], mode, blur);
    }
  }
}
