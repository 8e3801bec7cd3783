/** `remap_interval` and `color_map`: linear rescaling between intervals and the
    conversion of an evaluation in [-1, 1] to a colour channel value. */
module Remapping {
  import opened Expressions

  /** Linear interpolation taking `inStart` to `outStart` and `inEnd` to `outEnd`.
      A zero-width input interval is a division by zero in the source. The ensures
      pins the result down: the offset from `outStart`, scaled by the input width,
      is the offset from `inStart`, scaled by the output width. */
  function RemapInterval(val: real, inStart: real, inEnd: real, outStart: real, outEnd: real): (r: real)
    requires inEnd != inStart
    ensures (r - outStart) * (inEnd - inStart) == (val - inStart) * (outEnd - outStart)
  {
    var fraction := (val - inStart) / (inEnd - inStart);
    fraction * (outEnd - outStart) + outStart
  }

  /** Python's `int` on a float: truncation toward zero. */
  function Trunc(r: real): (n: int)
    ensures 0.0 <= r ==> 0 <= n && n as real <= r < n as real + 1.0
    ensures r < 0.0 ==> n <= 0 && n as real - 1.0 < r <= n as real
  {
    if r < 0.0 then -((-r).Floor) else r.Floor
  }

  /** A value in [-1, 1] becomes the integer part of its image in [0, 255]. */
  function ColorMap(val: real): (c: int)
    ensures InUnit(val) ==> 0 <= c <= 255 && c as real <= (val + 1.0) * 127.5 < c as real + 1.0
  {
    var code := RemapInterval(val, -1.0, 1.0, 0.0, 255.0);
    assert code == (val + 1.0) * 127.5;
    Trunc(code)
  }

  /** The ends of the input interval go to the ends of the output interval. */
  lemma RemapEndpoints(inStart: real, inEnd: real, outStart: real, outEnd: real)
    requires inEnd != inStart
    ensures RemapInterval(inStart, inStart, inEnd, outStart, outEnd) == outStart
    ensures RemapInterval(inEnd, inStart, inEnd, outStart, outEnd) == outEnd
  {
  }

  /** A value inside an ordered input interval lands inside the output interval,
      whichever way round the output interval is given. */
  lemma RemapWithin(val: real, inStart: real, inEnd: real, outStart: real, outEnd: real)
    requires inStart < inEnd && inStart <= val <= inEnd
    ensures var r := RemapInterval(val, inStart, inEnd, outStart, outEnd);
            (outStart <= outEnd ==> outStart <= r <= outEnd)
            && (outEnd <= outStart ==> outEnd <= r <= outStart)
  {
    var fraction := (val - inStart) / (inEnd - inStart);
    FractionInUnit(val - inStart, inEnd - inStart);
    var w := outEnd - outStart;
    assert RemapInterval(val, inStart, inEnd, outStart, outEnd) == fraction * w + outStart;
    if w >= 0.0 {
      assert 0.0 <= fraction * w <= w;
    } else {
      assert fraction * w - w == (1.0 - fraction) * -w;
      assert w <= fraction * w <= 0.0;
    }
  }

  lemma FractionInUnit(n: real, d: real)
    requires 0.0 < d && 0.0 <= n <= d
    ensures 0.0 <= n / d <= 1.0
  {
    var f := n / d;
    assert f * d == n;
  }

  /** Remapping back from the output interval to the input interval undoes a remap. */
  lemma RemapInverse(val: real, inStart: real, inEnd: real, outStart: real, outEnd: real)
    requires inEnd != inStart && outEnd != outStart
    ensures RemapInterval(RemapInterval(val, inStart, inEnd, outStart, outEnd),
                          outStart, outEnd, inStart, inEnd) == val
  {
    var r := RemapInterval(val, inStart, inEnd, outStart, outEnd);
    var back := RemapInterval(r, outStart, outEnd, inStart, inEnd);
    assert (back - inStart) * (outEnd - outStart) == (r - outStart) * (inEnd - inStart);
    assert (back - inStart) * (outEnd - outStart) == (val - inStart) * (outEnd - outStart);
  }

  /** The doctests of `remap_interval`. */
  lemma RemapDoctests()
    ensures RemapInterval(0.5, 0.0, 1.0, 0.0, 10.0) == 5.0
    ensures RemapInterval(5.0, 4.0, 6.0, 0.0, 2.0) == 1.0
    ensures RemapInterval(5.0, 4.0, 6.0, 1.0, 2.0) == 1.5
  {
  }

  /** The pixel coordinates `remap_interval(i, 0, size, -1, 1)` lie in [-1, 1). */
  lemma PixelCoordinate(i: nat, size: nat)
    requires i < size
    ensures var c := RemapInterval(i as real, 0.0, size as real, -1.0, 1.0);
            InUnit(c) && c < 1.0
  {
    RemapWithin(i as real, 0.0, size as real, -1.0, 1.0);
    var c := RemapInterval(i as real, 0.0, size as real, -1.0, 1.0);
    assert (c + 1.0) * (size as real) == (i as real) * 2.0;
  }

  /** The doctests of `color_map`. */
  lemma ColorMapDoctests()
    ensures ColorMap(-1.0) == 0
    ensures ColorMap(1.0) == 255
    ensures ColorMap(0.0) == 127
    ensures ColorMap(0.5) == 191
  {
  }

  /** Out-of-range inputs are not clamped: the channel value is in [0, 255] exactly
      when the input lies strictly between -257/255 and 257/255. */
  lemma ColorMapInRangeIff(val: real)
    ensures 0 <= ColorMap(val) <= 255 <==> -257.0 / 255.0 < val < 257.0 / 255.0
  {
    var code := RemapInterval(val, -1.0, 1.0, 0.0, 255.0);
    assert code == (val + 1.0) * 127.5;
  }

  /** Larger values never get a smaller channel value. */
  lemma ColorMapMonotone(v: real, w: real)
    requires v <= w
    ensures ColorMap(v) <= ColorMap(w)
  {
    var cv := RemapInterval(v, -1.0, 1.0, 0.0, 255.0);
    var cw := RemapInterval(w, -1.0, 1.0, 0.0, 255.0);
    assert cv == (v + 1.0) * 127.5 && cw == (w + 1.0) * 127.5;
    assert cv <= cw;
  }
}
