/** The spectrogram renderer `SpectrogramImage`: a table that maps each image
    row to an FFT bin and an interpolation weight, built once, and a flat
    buffer of palette indices that grows by one column per spectrum. */
module Spectrogram {
  import opened Common
  import opened Color
  import Palette

  /** One entry of `y_to_bin`: the FFT bin at or below the row's frequency and
      the weight, out of 255, of the bin after it. */
  datatype BinEntry = BinEntry(index: nat, alpha: real)

  /** The entry stored for a fractional bin position `b`:
      `(int(b), (b - int(b)) * 255)`. */
  function MapRow(b: real): (e: BinEntry)
    requires 0.0 <= b
    ensures e.index as real <= b < e.index as real + 1.0
    ensures 0.0 <= e.alpha < 255.0
  {
    var alpha := b - Trunc(b) as real;
    BinEntry(Trunc(b), alpha * 255.0)
  }

  predicate NonNegative(bins: seq<real>)
  {
    forall y :: 0 <= y < |bins| ==> 0.0 <= bins[y]
  }

  /** Every entry reads two adjacent bins of a spectrum of `fft_size/2 + 1`
      values and has a weight in [0, 255). */
  predicate TableFits(table: seq<BinEntry>, fftSize: nat)
  {
    forall k :: 0 <= k < |table| ==> table[k].index + 1 <= fftSize / 2 && 0.0 <= table[k].alpha < 255.0
  }

  /** The table `__init__` builds from the per-row bin positions: one entry
      for each row, in row order, whose position is below `fft_size/2`
      (Python 2 integer division). */
  function BinTable(bins: seq<real>, fftSize: nat): (t: seq<BinEntry>)
    requires NonNegative(bins)
    ensures |t| <= |bins|
    ensures TableFits(t, fftSize)
  {
    if bins == [] then []
    else
      var b := bins[|bins| - 1];
      BinTable(bins[..|bins| - 1], fftSize) + (if b < (fftSize / 2) as real then [MapRow(b)] else [])
  }

  lemma BinTableSnoc(bins: seq<real>, fftSize: nat, y: nat)
    requires NonNegative(bins) && y < |bins|
    ensures BinTable(bins[..y + 1], fftSize) == BinTable(bins[..y], fftSize)
            + (if bins[y] < (fftSize / 2) as real then [MapRow(bins[y])] else [])
  {
    assert bins[..y + 1][..y] == bins[..y];
  }

  predicate NonDecreasing(bins: seq<real>)
  {
    forall y, z :: 0 <= y < z < |bins| ==> bins[y] <= bins[z]
  }

  /** With bin positions that grow with the row (as the logarithmic frequency
      scale makes them), entry `k` of the table belongs to row `k`, the rows
      without an entry are exactly the top rows whose position is past the
      usable bins, and the stored bin indices never decrease. */
  lemma {:induction false} BinTableOfNonDecreasing(bins: seq<real>, fftSize: nat)
    requires NonNegative(bins) && NonDecreasing(bins)
    ensures forall k :: 0 <= k < |BinTable(bins, fftSize)| ==>
              bins[k] < (fftSize / 2) as real && BinTable(bins, fftSize)[k] == MapRow(bins[k])
    ensures forall y :: |BinTable(bins, fftSize)| <= y < |bins| ==> (fftSize / 2) as real <= bins[y]
    ensures forall k, l :: 0 <= k < l < |BinTable(bins, fftSize)| ==>
              BinTable(bins, fftSize)[k].index <= BinTable(bins, fftSize)[l].index
  {
    if bins != [] {
      var init := bins[..|bins| - 1];
      var b := bins[|bins| - 1];
      assert NonDecreasing(init) && NonNegative(init);
      BinTableOfNonDecreasing(init, fftSize);
      var t0 := BinTable(init, fftSize);
      if b < (fftSize / 2) as real {
        assert |t0| == |init|;
      }
      var t := BinTable(bins, fftSize);
      forall k, l | 0 <= k < l < |t| ensures t[k].index <= t[l].index {
        assert bins[k] <= bins[l];
      }
    }
  }

  /** `int((255.0 - alpha) * spectrum[index] + alpha * spectrum[index + 1])`. */
  function Intensity(e: BinEntry, spectrum: seq<real>): int
    requires e.index + 1 < |spectrum|
  {
    Trunc(Mix(e.alpha, spectrum[e.index], spectrum[e.index + 1]))
  }

  /** The two bin values weighted by `255 - alpha` and `alpha`. */
  function Mix(alpha: real, s0: real, s1: real): real
  {
    (255.0 - alpha) * s0 + alpha * s1
  }

  /** The two weights sum to 255, so bin values in [0,1] mix to a value in [0,255]. */
  lemma MixBounds(alpha: real, s0: real, s1: real)
    requires 0.0 <= alpha <= 255.0 && 0.0 <= s0 <= 1.0 && 0.0 <= s1 <= 1.0
    ensures 0.0 <= Mix(alpha, s0, s1) <= 255.0
  {
    MulNonneg(255.0 - alpha, s0);
    MulNonneg(alpha, s1);
    MulNonneg(255.0 - alpha, 1.0 - s0);
    MulNonneg(alpha, 1.0 - s1);
    assert (255.0 - alpha) * (1.0 - s0) == (255.0 - alpha) - (255.0 - alpha) * s0;
    assert alpha * (1.0 - s1) == alpha - alpha * s1;
  }

  /** Spectrum values in [0,1] give a palette index in [0,255]. */
  lemma IntensityInRange(e: BinEntry, spectrum: seq<real>)
    requires e.index + 1 < |spectrum| && 0.0 <= e.alpha <= 255.0
    requires 0.0 <= spectrum[e.index] <= 1.0 && 0.0 <= spectrum[e.index + 1] <= 1.0
    ensures 0 <= Intensity(e, spectrum) <= 255
  {
    MixBounds(e.alpha, spectrum[e.index], spectrum[e.index + 1]);
    TruncBetween(0, 255, Mix(e.alpha, spectrum[e.index], spectrum[e.index + 1]));
  }

  predicate Reads(table: seq<BinEntry>, spectrum: seq<real>)
  {
    forall k :: 0 <= k < |table| ==> table[k].index + 1 < |spectrum|
  }

  /** The spectrum the analyzer delivers, `fft_size/2 + 1` values, is long
      enough for every entry of a fitting table. */
  lemma AnalyzerSpectrumReadable(table: seq<BinEntry>, fftSize: nat, spectrum: seq<real>)
    requires TableFits(table, fftSize) && |spectrum| == fftSize / 2 + 1
    ensures Reads(table, spectrum)
  {
  }

  /** The values `draw_spectrum` appends: one per mapped row, then zeros up
      to the image height. */
  function SpectrumColumn(table: seq<BinEntry>, h: nat, spectrum: seq<real>): seq<int>
    requires Reads(table, spectrum)
  {
    seq(|table|, k requires 0 <= k < |table| => Intensity(table[k], spectrum))
    + seq(if |table| <= h then h - |table| else 0, _ => 0)
  }

  /** A column has exactly `h` values; rows without an entry are 0 and the
      others are palette indices in [0,255] when the spectrum is in [0,1]. */
  lemma ColumnShape(table: seq<BinEntry>, fftSize: nat, h: nat, spectrum: seq<real>)
    requires |table| <= h && TableFits(table, fftSize) && Reads(table, spectrum)
    requires forall i :: 0 <= i < |spectrum| ==> 0.0 <= spectrum[i] <= 1.0
    ensures |SpectrumColumn(table, h, spectrum)| == h
    ensures forall y :: |table| <= y < h ==> SpectrumColumn(table, h, spectrum)[y] == 0
    ensures forall y :: 0 <= y < |table| ==> 0 <= SpectrumColumn(table, h, spectrum)[y] <= 255
  {
    forall y | 0 <= y < |table| ensures 0 <= SpectrumColumn(table, h, spectrum)[y] <= 255 {
      IntensityInRange(table[y], spectrum);
    }
  }

  /** Row `k` of a column is the intensity of entry `k`, or 0 past the table. */
  lemma ColumnAt(table: seq<BinEntry>, h: nat, spectrum: seq<real>)
    requires |table| <= h && Reads(table, spectrum)
    ensures |SpectrumColumn(table, h, spectrum)| == h
    ensures forall k :: 0 <= k < |table| ==> SpectrumColumn(table, h, spectrum)[k] == Intensity(table[k], spectrum)
    ensures forall y :: |table| <= y < h ==> SpectrumColumn(table, h, spectrum)[y] == 0
  {
  }

  /** The buffer after drawing the given spectra one column at a time. */
  function Render(table: seq<BinEntry>, h: nat, spectra: seq<seq<real>>): seq<int>
    requires forall x :: 0 <= x < |spectra| ==> Reads(table, spectra[x])
  {
    if spectra == [] then []
    else Render(table, h, spectra[..|spectra| - 1]) + SpectrumColumn(table, h, spectra[|spectra| - 1])
  }

  lemma MulStep(n: nat, h: nat)
    ensures n * h + h == (n + 1) * h
  {
  }

  lemma MulBelow(x: nat, y: nat, n: nat, h: nat)
    requires x < n && y < h
    ensures x * h + y < n * h
    ensures n * h == (n - 1) * h + h
  {
    assert x * h <= (n - 1) * h;
  }

  /** After `W` columns the buffer holds `W * image_height` values. */
  lemma {:induction false} RenderLength(table: seq<BinEntry>, h: nat, spectra: seq<seq<real>>)
    requires |table| <= h && forall x :: 0 <= x < |spectra| ==> Reads(table, spectra[x])
    ensures |Render(table, h, spectra)| == |spectra| * h
  {
    if spectra != [] {
      var n := |spectra|;
      RenderLength(table, h, spectra[..n - 1]);
      ColumnAt(table, h, spectra[n - 1]);
      MulStep(n - 1, h);
    }
  }

  /** Value `x * image_height + y` of the buffer is row `y` of column `x`: the
      layout the final 90-degree rotation turns into an `image_width` by
      `image_height` image. */
  lemma {:induction false} RenderAt(table: seq<BinEntry>, h: nat, spectra: seq<seq<real>>, x: nat, y: nat)
    requires |table| <= h && forall x :: 0 <= x < |spectra| ==> Reads(table, spectra[x])
    requires x < |spectra| && y < h
    ensures x * h + y < |Render(table, h, spectra)|
    ensures Render(table, h, spectra)[x * h + y] == SpectrumColumn(table, h, spectra[x])[y]
  {
    var n := |spectra|;
    var init := spectra[..n - 1];
    RenderLength(table, h, init);
    ColumnAt(table, h, spectra[n - 1]);
    var r0 := Render(table, h, init);
    var c := SpectrumColumn(table, h, spectra[n - 1]);
    assert Render(table, h, spectra) == r0 + c;
    MulBelow(x, y, n, h);
    if x < n - 1 {
      RenderAt(table, h, init, x, y);
      assert spectra[x] == init[x];
    } else {
      assert x * h + y == |r0| + y;
    }
  }

  class SpectrogramImage {
    const imageWidth: nat
    const imageHeight: nat
    const fftSize: nat
    /** The flat 768-value palette handed to the image. */
    const palette: seq<int>
    var yToBin: seq<BinEntry>
    var pixels: seq<int>
    /** The spectra drawn so far, in order. */
    ghost var drawn: seq<seq<real>>

    /** The buffer is the drawn spectra rendered column after column. */
    ghost predicate Valid()
      reads this
    {
      |yToBin| <= imageHeight && TableFits(yToBin, fftSize)
      && (forall x :: 0 <= x < |drawn| ==> Reads(yToBin, drawn[x]))
      && pixels == Render(yToBin, imageHeight, drawn)
      && |pixels| == |drawn| * imageHeight
    }

    /** `SpectrogramImage(image_width, image_height, fft_size, ..., color_scheme)`
        with the fractional bin position of every row given in `bins`. */
    constructor (imageWidth: nat, imageHeight: nat, fftSize: nat, bins: seq<real>,
                 colorScheme: Option<Palette.SchemeName>)
      requires |bins| == imageHeight && NonNegative(bins)
      ensures Valid()
      ensures this.imageWidth == imageWidth && this.imageHeight == imageHeight && this.fftSize == fftSize
      ensures palette == Palette.Flatten(Palette.PaletteEntries(Palette.SpectrogramAnchors(colorScheme), 256))
      ensures yToBin == BinTable(bins, fftSize)
      ensures pixels == [] && drawn == []
    {
      var built := Palette.InterpolateColors(Palette.SpectrogramAnchors(colorScheme), true, 256);
      this.imageWidth := imageWidth;
      this.imageHeight := imageHeight;
      this.fftSize := fftSize;
      palette := built.value.values;
      yToBin := [];
      pixels := [];
      drawn := [];
      new;
      var y := 0;
      while y < imageHeight
        invariant 0 <= y <= imageHeight
        invariant yToBin == BinTable(bins[..y], fftSize)
        invariant pixels == [] && drawn == []
      {
        var b := bins[y];
        BinTableSnoc(bins, fftSize, y);
        if b < (fftSize / 2) as real {
          var alpha := b - Trunc(b) as real;
          yToBin := yToBin + [BinEntry(Trunc(b), alpha * 255.0)];
        }
        y := y + 1;
      }
      assert bins[..imageHeight] == bins;
    }

    /** `draw_spectrum(x, spectrum)`; the column number `x` is not used. */
    method DrawSpectrum(x: int, spectrum: seq<real>)
      requires Valid() && Reads(yToBin, spectrum)
      modifies this`pixels, this`drawn
      ensures Valid()
      ensures pixels == old(pixels) + SpectrumColumn(yToBin, imageHeight, spectrum)
      ensures drawn == old(drawn) + [spectrum]
    {
      ghost var column := SpectrumColumn(yToBin, imageHeight, spectrum);
      ColumnAt(yToBin, imageHeight, spectrum);
      var k := 0;
      while k < |yToBin|
        invariant 0 <= k <= |yToBin|
        invariant pixels == old(pixels) + column[..k]
        invariant drawn == old(drawn)
      {
        var e := yToBin[k];
        var v := Intensity(e, spectrum);
        assert v == column[k];
        assert column[..k + 1] == column[..k] + [v];
        pixels := pixels + [v];
        k := k + 1;
      }
      var y := |yToBin|;
      while y < imageHeight
        invariant |yToBin| <= y <= imageHeight
        invariant pixels == old(pixels) + column[..y]
        invariant drawn == old(drawn)
      {
        pixels := pixels + [0];
        assert column[..y + 1] == column[..y] + [column[y]];
        y := y + 1;
      }
      assert column[..imageHeight] == column;
      drawn := drawn + [spectrum];
      assert drawn[..|drawn| - 1] == old(drawn);
      RenderLength(yToBin, imageHeight, drawn);
    }
  }
}
