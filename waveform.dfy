/** The waveform renderer `WaveformImage`: per output column a (min, max)
    peak pair in temporal order, mapped to two y coordinates, coloured from
    the palette by the column's spectral centroid and anti-aliased vertically
    into a mutable pixel grid. */
module Waveform {
  import opened Common
  import opened Color
  import Palette

  // ---------------------------------------------------------------------
  // Peaks

  /** `numpy.argmax`: the index of the first occurrence of the maximum. */
  function ArgMax(s: seq<real>): (k: nat)
    requires |s| > 0
    ensures k < |s|
    ensures forall j :: 0 <= j < |s| ==> s[j] <= s[k]
    ensures forall j :: 0 <= j < k ==> s[j] < s[k]
  {
    if |s| == 1 then 0
    else
      var k := ArgMax(s[..|s| - 1]);
      if s[|s| - 1] > s[k] then |s| - 1 else k
  }

  /** `numpy.argmin`: the index of the first occurrence of the minimum. */
  function ArgMin(s: seq<real>): (k: nat)
    requires |s| > 0
    ensures k < |s|
    ensures forall j :: 0 <= j < |s| ==> s[k] <= s[j]
    ensures forall j :: 0 <= j < k ==> s[k] < s[j]
  {
    if |s| == 1 then 0
    else
      var k := ArgMin(s[..|s| - 1]);
      if s[|s| - 1] < s[k] then |s| - 1 else k
  }

  /** Reference definitions: the largest and the smallest sample. */
  function SeqMax(s: seq<real>): (m: real)
    requires |s| > 0
    ensures m in s && forall j :: 0 <= j < |s| ==> s[j] <= m
  {
    if |s| == 1 then s[0] else Max(s[0], SeqMax(s[1..]))
  }

  function SeqMin(s: seq<real>): (m: real)
    requires |s| > 0
    ensures m in s && forall j :: 0 <= j < |s| ==> m <= s[j]
  {
    if |s| == 1 then s[0] else Min(s[0], SeqMin(s[1..]))
  }

  /** The position of the first occurrence of `v` in `s`. */
  function FirstIndex(s: seq<real>, v: real): (k: nat)
    requires v in s
    ensures k < |s| && s[k] == v
    ensures forall j :: 0 <= j < k ==> s[j] != v
  {
    if s[0] == v then 0 else 1 + FirstIndex(s[1..], v)
  }

  lemma ArgMaxIsFirstMax(s: seq<real>)
    requires |s| > 0
    ensures ArgMax(s) == FirstIndex(s, SeqMax(s))
  {
    var k, f := ArgMax(s), FirstIndex(s, SeqMax(s));
    assert s[k] == SeqMax(s);
  }

  lemma ArgMinIsFirstMin(s: seq<real>)
    requires |s| > 0
    ensures ArgMin(s) == FirstIndex(s, SeqMin(s))
  {
    var k, f := ArgMin(s), FirstIndex(s, SeqMin(s));
    assert s[k] == SeqMin(s);
  }

  /** `WaveformImage.peaks`: the samples at `argmin` and `argmax`, the one
      at the smaller index first. */
  function Peaks(s: seq<real>): (real, real)
    requires |s| > 0
  {
    var maxIndex := ArgMax(s);
    var maxValue := s[maxIndex];
    var minIndex := ArgMin(s);
    var minValue := s[minIndex];
    if minIndex < maxIndex then (minValue, maxValue) else (maxValue, minValue)
  }

  /** The pair holds the minimum and the maximum, the one whose first
      occurrence comes first in front. */
  lemma PeaksOrder(s: seq<real>)
    requires |s| > 0
    ensures if FirstIndex(s, SeqMin(s)) < FirstIndex(s, SeqMax(s))
            then Peaks(s) == (SeqMin(s), SeqMax(s))
            else Peaks(s) == (SeqMax(s), SeqMin(s))
  {
    ArgMaxIsFirstMax(s);
    ArgMinIsFirstMin(s);
  }

  /** A constant chunk yields the same value twice. */
  lemma PeaksOfConstant(s: seq<real>, v: real)
    requires |s| > 0 && forall j :: 0 <= j < |s| ==> s[j] == v
    ensures Peaks(s) == (v, v)
  {
    PeaksOrder(s);
    assert SeqMax(s) == v && SeqMin(s) == v;
  }

  // ---------------------------------------------------------------------
  // Coordinates, colour and the anti-aliasing targets

  /** The pixel row of a peak value: `h*0.5 - peak*(h-4)*0.5`. */
  function YCoord(h: nat, peak: real): real
  {
    (h as real) * 0.5 - peak * ((h as int - 4) as real) * 0.5
  }

  /** A normalised peak lands between rows 2 and h-2 (in either order). */
  lemma YCoordBounds(h: nat, peak: real)
    requires -1.0 <= peak <= 1.0
    ensures Min(2.0, (h as int - 2) as real) <= YCoord(h, peak) <= Max(2.0, (h as int - 2) as real)
  {
    var q := (h as int - 4) as real;
    assert YCoord(h, peak) == (h as real) * 0.5 - (peak * q) * 0.5;
    if q >= 0.0 {
      MulNonneg(1.0 - peak, q);
      MulNonneg(1.0 + peak, q);
      assert -q <= peak * q <= q;
    } else {
      MulNonneg(1.0 - peak, -q);
      MulNonneg(1.0 + peak, -q);
      assert q <= peak * q <= -q;
    }
  }

  /** `int(spectral_centroid*255.0)`: the palette slot of a centroid in [0,1]. */
  function PaletteIndex(centroid: real): (k: nat)
    requires 0.0 <= centroid <= 1.0
    ensures k <= 255
    ensures k as real <= centroid * 255.0 < k as real + 1.0
  {
    Trunc(centroid * 255.0)
  }

  function LineColor(colorLookup: seq<Rgb>, centroid: real): Rgb
    requires |colorLookup| == 256 && 0.0 <= centroid <= 1.0
  {
    colorLookup[PaletteIndex(centroid)]
  }

  /** A pixel row to blend into and the weight the line colour gets there. */
  datatype Target = Target(row: int, alpha: real)

  /** The blend next to the larger y coordinate (rows grow downwards): row
      `int(max(y1,y2))+1`, weighted by the fractional part, only inside the
      image. */
  function MaxTarget(h: nat, y1: real, y2: real): (t: Option<Target>)
    ensures t.Some? <==> 0.0 < Max(y1, y2) && Max(y1, y2).Floor as real < Max(y1, y2)
                         && Max(y1, y2).Floor + 1 < h
    ensures t.Some? ==> 0 <= t.value.row < h && 0.0 < t.value.alpha < 1.0
    ensures t.Some? ==> t.value.row == Max(y1, y2).Floor + 1
                        && t.value.alpha == Max(y1, y2) - Max(y1, y2).Floor as real
  {
    var yMax := Max(y1, y2);
    var yMaxInt := Trunc(yMax);
    var alpha := yMax - yMaxInt as real;
    if alpha > 0.0 && alpha < 1.0 && yMaxInt + 1 < h then Some(Target(yMaxInt + 1, alpha)) else None
  }

  /** The blend next to the smaller y coordinate: row `int(min(y1,y2))-1`,
      weighted by one minus the fractional part. The source checks only that
      the row is not negative. */
  function MinTarget(y1: real, y2: real): (t: Option<Target>)
    ensures t.Some? <==> 1.0 < Min(y1, y2) && Min(y1, y2).Floor as real < Min(y1, y2)
    ensures t.Some? ==> 0 <= t.value.row && 0.0 < t.value.alpha < 1.0
    ensures t.Some? ==> t.value.row == Min(y1, y2).Floor - 1
                        && t.value.alpha == 1.0 - (Min(y1, y2) - Min(y1, y2).Floor as real)
  {
    var yMin := Min(y1, y2);
    var yMinInt := Trunc(yMin);
    var alpha := 1.0 - (yMin - yMinInt as real);
    if alpha > 0.0 && alpha < 1.0 && yMinInt - 1 >= 0 then Some(Target(yMinInt - 1, alpha)) else None
  }

  /** The write next to the smaller y coordinate stays inside the image;
      otherwise the pixel access of the source raises. */
  predicate MinRowSafe(h: nat, y1: real, y2: real)
  {
    MinTarget(y1, y2).Some? ==> MinTarget(y1, y2).value.row < h
  }

  /** The two blended rows are at least two apart, so the second blend never
      reads the pixel the first one wrote. */
  lemma TargetsApart(h: nat, y1: real, y2: real)
    requires MaxTarget(h, y1, y2).Some? && MinTarget(y1, y2).Some?
    ensures MinTarget(y1, y2).value.row + 2 <= MaxTarget(h, y1, y2).value.row
  {
    assert Min(y1, y2) <= Max(y1, y2);
  }

  /** The value of row `j` of the drawn column, previously `p`, after
      `draw_anti_aliased_pixels(x, y1, y2, color)`. */
  function AntiAliasCell(h: nat, y1: real, y2: real, color: Rgb, j: int, p: Rgb): Rgb
  {
    var up := MaxTarget(h, y1, y2);
    var lo := MinTarget(y1, y2);
    if up.Some? && j == up.value.row then Blend(p, color, up.value.alpha)
    else if lo.Some? && j == lo.value.row then Blend(p, color, lo.value.alpha)
    else p
  }

  /** Only the two target rows can change, and each changed channel lies
      between the old channel and the line colour's. */
  lemma AntiAliasCellChange(h: nat, y1: real, y2: real, color: Rgb, j: int, p: Rgb, k: nat)
    requires k < 3
    ensures AntiAliasCell(h, y1, y2, color, j, p) != p ==>
              (MaxTarget(h, y1, y2).Some? && j == MaxTarget(h, y1, y2).value.row)
              || (MinTarget(y1, y2).Some? && j == MinTarget(y1, y2).value.row)
    ensures Between(Channel(AntiAliasCell(h, y1, y2, color, j, p), k), Channel(p, k), Channel(color, k))
  {
  }

  /** Integral y coordinates blend nothing. */
  lemma IntegralCoordinatesNoBlend(h: nat, n1: int, n2: int, color: Rgb, j: int, p: Rgb)
    ensures AntiAliasCell(h, n1 as real, n2 as real, color, j, p) == p
  {
    assert Max(n1 as real, n2 as real).Floor as real == Max(n1 as real, n2 as real);
    assert Min(n1 as real, n2 as real).Floor as real == Min(n1 as real, n2 as real);
  }

  /** A silent column (both peaks 0) sits at y = h/2: on an even height
      nothing is blended, on an odd height the rows next to the centre row
      `h/2` are blended half-and-half. */
  lemma SilentColumnTargets(h: nat)
    ensures h % 2 == 0 ==> MaxTarget(h, YCoord(h, 0.0), YCoord(h, 0.0)).None?
                           && MinTarget(YCoord(h, 0.0), YCoord(h, 0.0)).None?
    ensures h % 2 == 1 && h >= 3 ==>
              MaxTarget(h, YCoord(h, 0.0), YCoord(h, 0.0)) == Some(Target(h / 2 + 1, 0.5))
              && MinTarget(YCoord(h, 0.0), YCoord(h, 0.0)) == Some(Target(h / 2 - 1, 0.5))
  {
    var y := YCoord(h, 0.0);
    var m := h / 2;
    assert y == (h as real) * 0.5;
    if h % 2 == 0 {
      assert h == 2 * m;
      assert y == m as real;
      assert y.Floor == m;
    } else {
      assert h == 2 * m + 1;
      assert y == m as real + 0.5;
      assert y.Floor == m;
    }
  }

  /** The source's demands on one column it draws: a non-empty chunk, a
      centroid in [0,1], and the blend row next to the smaller y inside the image. */
  predicate Drawable(h: nat, chunk: seq<real>, centroid: real)
  {
    |chunk| > 0 && 0.0 <= centroid <= 1.0 && PeaksRowSafe(h, chunk)
  }

  predicate PeaksRowSafe(h: nat, chunk: seq<real>)
    requires |chunk| > 0
  {
    MinRowSafe(h, YCoord(h, Peaks(chunk).0), YCoord(h, Peaks(chunk).1))
  }

  /** Samples normalised to [-1,1] on an image at least one row high are
      always drawable. */
  lemma NormalisedChunkDrawable(h: nat, chunk: seq<real>, centroid: real)
    requires h >= 1 && |chunk| > 0 && 0.0 <= centroid <= 1.0
    requires forall j :: 0 <= j < |chunk| ==> -1.0 <= chunk[j] <= 1.0
    ensures Drawable(h, chunk, centroid)
  {
    var p := Peaks(chunk);
    PeaksOrder(chunk);
    assert p.0 in chunk && p.1 in chunk;
    YCoordBounds(h, p.0);
    YCoordBounds(h, p.1);
    var y1, y2 := YCoord(h, p.0), YCoord(h, p.1);
    var y := Min(y1, y2);
    if MinTarget(y1, y2).Some? {
      assert y <= Max(2.0, (h as int - 2) as real);
      if h >= 2 {
        assert y <= h as real;
      } else {
        assert y < 2.0;
      }
      assert y.Floor <= h;
    }
  }

  /** The value of row `j` of a column, previously `p`, after `draw_peaks`
      draws the peak pair there with the given centroid. */
  function PeakCell(h: nat, colorLookup: seq<Rgb>, peaks: (real, real), centroid: real, j: int, p: Rgb): Rgb
    requires |colorLookup| == 256 && 0.0 <= centroid <= 1.0
  {
    AntiAliasCell(h, YCoord(h, peaks.0), YCoord(h, peaks.1), LineColor(colorLookup, centroid), j, p)
  }

  /** The value of row `j` of a column, previously `p`, after `process`
      draws it from `chunk`. */
  function ChunkCell(h: nat, colorLookup: seq<Rgb>, chunk: seq<real>, centroid: real, j: int, p: Rgb): Rgb
    requires |colorLookup| == 256 && |chunk| > 0 && 0.0 <= centroid <= 1.0
  {
    PeakCell(h, colorLookup, Peaks(chunk), centroid, j, p)
  }

  /** The y coordinate of the second peak of a chunk: where the next
      column's line starts. */
  function SecondY(h: nat, chunk: seq<real>): real
    requires |chunk| > 0
  {
    YCoord(h, Peaks(chunk).1)
  }

  function Brighten(p: Rgb, a: int): Rgb
  {
    Rgb(p.r + a, p.g + a, p.b + a)
  }

  /** The offset `save` adds to every channel of the centre row. */
  const CentreLineOffset := 25

  // ---------------------------------------------------------------------
  // The renderer

  class WaveformImage {
    const imageWidth: nat
    const imageHeight: nat
    const colorLookup: seq<Rgb>
    /** `pixel[x, y]`: column `x`, row `y`. */
    const pixel: array2<Rgb>
    var previousX: Option<int>
    var previousY: Option<real>
    var pixelCursor: nat

    ghost predicate Valid()
      reads this
    {
      pixel.Length0 == imageWidth && pixel.Length1 == imageHeight && |colorLookup| == 256
      && pixelCursor <= imageWidth && (previousX.Some? <==> previousY.Some?)
    }

    /** `WaveformImage(image_width, image_height, ..., bg_color, color_scheme)`. */
    constructor (imageWidth: nat, imageHeight: nat, bgColor: Option<Rgb>, colorScheme: Option<Palette.SchemeName>)
      requires imageWidth > 0
      ensures Valid() && fresh(pixel)
      ensures this.imageWidth == imageWidth && this.imageHeight == imageHeight
      ensures colorLookup == Palette.PaletteEntries(Palette.WaveformAnchors(colorScheme), 256)
      ensures forall i, j :: 0 <= i < imageWidth && 0 <= j < imageHeight ==>
                pixel[i, j] == if bgColor.None? then Rgb(0, 0, 0) else bgColor.value
      ensures previousX == None && previousY == None && pixelCursor == 0
    {
      var built := Palette.InterpolateColors(Palette.WaveformAnchors(colorScheme), false, 256);
      var bg := if bgColor.None? then Rgb(0, 0, 0) else bgColor.value;
      this.imageWidth := imageWidth;
      this.imageHeight := imageHeight;
      colorLookup := built.value.entries;
      pixel := new Rgb[imageWidth, imageHeight]((i, j) => bg);
      previousX, previousY := None, None;
      pixelCursor := 0;
    }

    /** `draw_anti_aliased_pixels(x, y1, y2, color)`. */
    method DrawAntiAliasedPixels(x: nat, y1: real, y2: real, color: Rgb)
      requires Valid() && x < imageWidth && MinRowSafe(imageHeight, y1, y2)
      modifies pixel
      ensures forall i, j :: 0 <= i < imageWidth && 0 <= j < imageHeight ==>
                pixel[i, j] == if i == x then AntiAliasCell(imageHeight, y1, y2, color, j, old(pixel[i, j]))
                               else old(pixel[i, j])
    {
      var yMax := Max(y1, y2);
      var yMaxInt := Trunc(yMax);
      var alpha := yMax - yMaxInt as real;
      if alpha > 0.0 && alpha < 1.0 && yMaxInt + 1 < imageHeight {
        var currentPix := pixel[x, yMaxInt + 1];
        pixel[x, yMaxInt + 1] := Blend(currentPix, color, alpha);
      }
      var yMin := Min(y1, y2);
      var yMinInt := Trunc(yMin);
      alpha := 1.0 - (yMin - yMinInt as real);
      if alpha > 0.0 && alpha < 1.0 && yMinInt - 1 >= 0 {
        if MaxTarget(imageHeight, y1, y2).Some? {
          TargetsApart(imageHeight, y1, y2);
        }
        var currentPix := pixel[x, yMinInt - 1];
        pixel[x, yMinInt - 1] := Blend(currentPix, color, alpha);
      }
    }

    /** `draw_peaks(x, peaks, spectral_centroid)`, without the line itself. */
    method DrawPeaks(x: nat, peaks: (real, real), spectralCentroid: real)
      requires Valid() && x < imageWidth && 0.0 <= spectralCentroid <= 1.0
      requires MinRowSafe(imageHeight, YCoord(imageHeight, peaks.0), YCoord(imageHeight, peaks.1))
      modifies this, pixel
      ensures Valid() && pixelCursor == old(pixelCursor)
      ensures previousX == Some(x) && previousY == Some(YCoord(imageHeight, peaks.1))
      ensures forall i, j :: 0 <= i < imageWidth && 0 <= j < imageHeight ==>
                pixel[i, j] == if i == x then PeakCell(imageHeight, colorLookup, peaks, spectralCentroid, j, old(pixel[i, j]))
                               else old(pixel[i, j])
    {
      var y1 := (imageHeight as real) * 0.5 - peaks.0 * ((imageHeight as int - 4) as real) * 0.5;
      var y2 := (imageHeight as real) * 0.5 - peaks.1 * ((imageHeight as int - 4) as real) * 0.5;
      var lineColor := colorLookup[Trunc(spectralCentroid * 255.0)];
      // The connecting line from (previousX, previousY) is rasterised by the
      // imaging library and is not part of this model.
      previousX, previousY := Some(x), Some(y2);
      DrawAntiAliasedPixels(x, y1, y2, lineColor);
    }

    /** `process`: one column per chunk at the pixel cursor, until the cursor
        reaches the image width; the remaining chunks are ignored. */
    method Process(chunks: seq<seq<real>>, centroids: seq<real>)
      requires Valid() && |centroids| == |chunks|
      requires forall k :: 0 <= k < |chunks| && pixelCursor + k < imageWidth ==>
                 |chunks[k]| > 0 && 0.0 <= centroids[k] <= 1.0 && PeaksRowSafe(imageHeight, chunks[k])
      modifies this, pixel
      ensures Valid()
      ensures pixelCursor == if old(pixelCursor) + |chunks| < imageWidth then old(pixelCursor) + |chunks| else imageWidth
      ensures pixelCursor == old(pixelCursor) ==> previousX == old(previousX) && previousY == old(previousY)
      ensures pixelCursor > old(pixelCursor) ==>
                previousX == Some(pixelCursor - 1)
                && previousY == Some(SecondY(imageHeight, chunks[pixelCursor - 1 - old(pixelCursor)]))
      ensures forall i, j :: 0 <= i < imageWidth && 0 <= j < imageHeight ==>
                pixel[i, j] == if old(pixelCursor) <= i < pixelCursor
                               then ChunkCell(imageHeight, colorLookup, chunks[i - old(pixelCursor)], centroids[i - old(pixelCursor)], j, old(pixel[i, j]))
                               else old(pixel[i, j])
    {
      var k := 0;
      while k < |chunks|
        invariant 0 <= k <= |chunks|
        invariant Valid()
        invariant pixelCursor == old(pixelCursor) + k
        invariant k == 0 ==> previousX == old(previousX) && previousY == old(previousY)
        invariant k > 0 ==> previousX == Some(pixelCursor - 1)
                            && previousY == Some(SecondY(imageHeight, chunks[k - 1]))
        invariant forall i, j :: 0 <= i < imageWidth && 0 <= j < imageHeight ==>
                    pixel[i, j] == if old(pixelCursor) <= i < pixelCursor
                                   then ChunkCell(imageHeight, colorLookup, chunks[i - old(pixelCursor)], centroids[i - old(pixelCursor)], j, old(pixel[i, j]))
                                   else old(pixel[i, j])
      {
        if pixelCursor == imageWidth {
          break;
        }
        var peaks := Peaks(chunks[k]);
        label BeforeDraw:
        DrawPeaks(pixelCursor, peaks, centroids[k]);
        forall i, j | 0 <= i < imageWidth && 0 <= j < imageHeight
          ensures pixel[i, j] == if old(pixelCursor) <= i < pixelCursor + 1
                                 then ChunkCell(imageHeight, colorLookup, chunks[i - old(pixelCursor)], centroids[i - old(pixelCursor)], j, old(pixel[i, j]))
                                 else old(pixel[i, j])
        {
          if i == pixelCursor {
            assert old@BeforeDraw(pixel[i, j]) == old(pixel[i, j]);
          }
        }
        assert previousY == Some(SecondY(imageHeight, chunks[k]));
        pixelCursor := pixelCursor + 1;
        k := k + 1;
      }
    }

    /** The centre-row loop of `save`: every pixel of row `image_height/2`
        gets 25 added to each channel. Encoding the file is not modelled. */
    method Save()
      requires Valid() && (imageWidth > 0 ==> imageHeight > 0)
      modifies pixel
      ensures forall i, j :: 0 <= i < imageWidth && 0 <= j < imageHeight ==>
                pixel[i, j] == if j == imageHeight / 2 then Brighten(old(pixel[i, j]), CentreLineOffset)
                               else old(pixel[i, j])
    {
      var a := 25;
      var x := 0;
      while x < imageWidth
        invariant 0 <= x <= imageWidth
        invariant forall i, j :: 0 <= i < imageWidth && 0 <= j < imageHeight ==>
                    pixel[i, j] == if j == imageHeight / 2 && i < x then Brighten(old(pixel[i, j]), CentreLineOffset)
                                   else old(pixel[i, j])
      {
        var p := pixel[x, imageHeight / 2];
        pixel[x, imageHeight / 2] := Rgb(p.r + a, p.g + a, p.b + a);
        x := x + 1;
      }
    }
  }
}
