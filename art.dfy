/** `generate_art`: build one random function per colour channel and fill every pixel
    of an image buffer with the colours of the three evaluations at that pixel. The
    image library's buffer is a two-dimensional array of colour triples. */
module Art {
  import opened Expressions
  import opened Builder
  import opened Evaluator
  import opened Remapping

  /** A pixel value `(red, green, blue)`. */
  datatype Rgb = Rgb(red: int, green: int, blue: int)

  /** The depth bounds `generate_art` builds each channel's function with. */
  const MinDepth: int := 7
  const MaxDepth: int := 9

  predicate IsChannel(c: int) { 0 <= c <= 255 }

  /** The colour of pixel (i, j) of an `xSize` by `ySize` image: the coordinates are
      remapped from [0, size) to [-1, 1] and each channel's function is evaluated there.
      With bounded trigonometric blocks every channel is in [0, 255]. */
  ghost function PixelColor(red: Expr, green: Expr, blue: Expr, t: Trig,
                            xSize: nat, ySize: nat, i: nat, j: nat): (c: Rgb)
    requires Evaluable(red) && Evaluable(green) && Evaluable(blue)
    requires i < xSize && j < ySize
    ensures Bounded(t) ==> IsChannel(c.red) && IsChannel(c.green) && IsChannel(c.blue)
  {
    var x := RemapInterval(i as real, 0.0, xSize as real, -1.0, 1.0);
    var y := RemapInterval(j as real, 0.0, ySize as real, -1.0, 1.0);
    var c := Rgb(ColorMap(Evaluate(red, x, y, t).value),
                 ColorMap(Evaluate(green, x, y, t).value),
                 ColorMap(Evaluate(blue, x, y, t).value));
    if Bounded(t) then
      PixelCoordinate(i, xSize);
      PixelCoordinate(j, ySize);
      EvaluateInUnit(red, x, y, t);
      EvaluateInUnit(green, x, y, t);
      EvaluateInUnit(blue, x, y, t);
      c
    else
      c
  }

  /** Builds the red, green and blue functions one after the other from the choice
      source `s`, then fills a new `xSize` by `ySize` buffer. */
  method GenerateArt(s: seq<nat>, xSize: nat, ySize: nat, t: Trig)
    returns (pixels: array2<Rgb>, red: Expr, green: Expr, blue: Expr, ghost order: seq<(nat, nat)>)
    ensures red == BuildRandomFunction(s, MinDepth, MaxDepth).tree.value
    ensures var g := BuildRandomFunction(BuildRandomFunction(s, MinDepth, MaxDepth).rest, MinDepth, MaxDepth);
            green == g.tree.value && blue == BuildRandomFunction(g.rest, MinDepth, MaxDepth).tree.value
    ensures Evaluable(red) && Evaluable(green) && Evaluable(blue)
    ensures fresh(pixels) && pixels.Length0 == xSize && pixels.Length1 == ySize
    ensures forall i: nat, j: nat :: i < xSize && j < ySize ==>
              pixels[i, j] == PixelColor(red, green, blue, t, xSize, ySize, i, j)
    ensures Bounded(t) ==> forall i: nat, j: nat :: i < xSize && j < ySize ==>
              IsChannel(pixels[i, j].red) && IsChannel(pixels[i, j].green) && IsChannel(pixels[i, j].blue)
    ensures forall k :: 0 <= k < |order| ==> order[k].0 < xSize && order[k].1 < ySize
    ensures forall a, b :: 0 <= a < b < |order| ==> order[a] != order[b]
    ensures forall i: nat, j: nat :: i < xSize && j < ySize ==> (i, j) in order
  {
    var first := BuildRandomFunction(s, MinDepth, MaxDepth);
    var second := BuildRandomFunction(first.rest, MinDepth, MaxDepth);
    var third := BuildRandomFunction(second.rest, MinDepth, MaxDepth);
    red, green, blue := first.tree.value, second.tree.value, third.tree.value;
    BuildWellFormed(s, MinDepth, MaxDepth);
    BuildWellFormed(first.rest, MinDepth, MaxDepth);
    BuildWellFormed(second.rest, MinDepth, MaxDepth);
    WellFormedEvaluable(red);
    WellFormedEvaluable(green);
    WellFormedEvaluable(blue);

    pixels := new Rgb[xSize, ySize];
    order := FillPixels(pixels, red, green, blue, t);
    if Bounded(t) {
      forall i: nat, j: nat | i < xSize && j < ySize
        ensures IsChannel(pixels[i, j].red) && IsChannel(pixels[i, j].green) && IsChannel(pixels[i, j].blue)
      {
        assert pixels[i, j] == PixelColor(red, green, blue, t, xSize, ySize, i, j);
      }
    }
  }

  /** The nested pixel loop: writes every cell of `pixels` exactly once. The outer loop
      runs over the first index, the image's x coordinate, so each pass fills one column
      of the image. `order` records the cells in the order they are written. */
  method FillPixels(pixels: array2<Rgb>, red: Expr, green: Expr, blue: Expr, t: Trig)
    returns (ghost order: seq<(nat, nat)>)
    requires Evaluable(red) && Evaluable(green) && Evaluable(blue)
    modifies pixels
    ensures forall i: nat, j: nat :: i < pixels.Length0 && j < pixels.Length1 ==>
              pixels[i, j] == PixelColor(red, green, blue, t, pixels.Length0, pixels.Length1, i, j)
    ensures forall k :: 0 <= k < |order| ==> order[k].0 < pixels.Length0 && order[k].1 < pixels.Length1
    ensures forall a, b :: 0 <= a < b < |order| ==> order[a] != order[b]
    ensures forall i: nat, j: nat :: i < pixels.Length0 && j < pixels.Length1 ==> (i, j) in order
  {
    var xSize, ySize := pixels.Length0, pixels.Length1;
    order := [];
    for i := 0 to xSize
      invariant forall p: nat, q: nat :: p < i && q < ySize ==>
                  pixels[p, q] == PixelColor(red, green, blue, t, xSize, ySize, p, q)
      invariant forall k :: 0 <= k < |order| ==> order[k].0 < i && order[k].1 < ySize
      invariant forall a, b :: 0 <= a < b < |order| ==> order[a] != order[b]
      invariant forall p: nat, q: nat :: p < i && q < ySize ==> (p, q) in order
    {
      ghost var column := FillColumn(pixels, i, red, green, blue, t);
      order := order + column;
    }
  }

  /** One pass of the inner loop: writes the cells with first index `i` (x coordinate
      `i`), one y coordinate after the other, and leaves every other cell as it was. */
  method FillColumn(pixels: array2<Rgb>, i: nat, red: Expr, green: Expr, blue: Expr, t: Trig)
    returns (ghost column: seq<(nat, nat)>)
    requires Evaluable(red) && Evaluable(green) && Evaluable(blue)
    requires i < pixels.Length0
    modifies pixels
    ensures forall p: nat, q: nat :: p < pixels.Length0 && p != i && q < pixels.Length1 ==>
              pixels[p, q] == old(pixels[p, q])
    ensures forall q: nat :: q < pixels.Length1 ==>
              pixels[i, q] == PixelColor(red, green, blue, t, pixels.Length0, pixels.Length1, i, q)
    ensures |column| == pixels.Length1 && forall k :: 0 <= k < |column| ==> column[k] == (i, k)
  {
    var xSize, ySize := pixels.Length0, pixels.Length1;
    column := [];
    for j := 0 to ySize
      invariant forall p: nat, q: nat :: p < xSize && p != i && q < ySize ==>
                  pixels[p, q] == old(pixels[p, q])
      invariant forall q: nat :: q < j ==>
                  pixels[i, q] == PixelColor(red, green, blue, t, xSize, ySize, i, q)
      invariant |column| == j && forall k :: 0 <= k < j ==> column[k] == (i, k)
    {
      var x := RemapInterval(i as real, 0.0, xSize as real, -1.0, 1.0);
      var y := RemapInterval(j as real, 0.0, ySize as real, -1.0, 1.0);
      var c := Rgb(ColorMap(Evaluate(red, x, y, t).value),
                   ColorMap(Evaluate(green, x, y, t).value),
                   ColorMap(Evaluate(blue, x, y, t).value));
      column := SetPixel(pixels, i, j, c, column);
    }
  }

  /** The assignment `pixels[i, j] = c`, together with its entry in the write log:
      cell (i, j) now holds `c`, every other cell is unchanged, and (i, j) is appended. */
  method SetPixel(pixels: array2<Rgb>, i: nat, j: nat, c: Rgb, ghost log: seq<(nat, nat)>)
    returns (ghost log': seq<(nat, nat)>)
    requires i < pixels.Length0 && j < pixels.Length1
    modifies pixels
    ensures pixels[i, j] == c
    ensures forall p: nat, q: nat :: p < pixels.Length0 && q < pixels.Length1 && (p, q) != (i, j) ==>
              pixels[p, q] == old(pixels[p, q])
    ensures log' == log + [(i, j)]
  {
    pixels[i, j] := c;
    log' := log + [(i, j)];
  }
}
