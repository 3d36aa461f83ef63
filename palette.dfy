/** The palette builder `interpolate_colors` and the named colour schemes. */
module Palette {
  import opened Common
  import opened Color

  /** The exception `interpolate_colors` raises. */
  datatype Fault =
    | ZeroDivision     // `num_colors == 1` makes the position divide by 0.0
    | IndexOutOfRange  // an empty anchor list has no entry to read

  /** With `flat` the builder returns the channel values one after the other;
      otherwise one triple per entry. */
  datatype Palette = Triples(entries: seq<Rgb>) | Flat(values: seq<int>)

  datatype SchemeName = Default | Iso | Purple

  /** Python 2 integer division in the scheme table (`58/4` is 14). */
  const Dim: seq<Rgb> := [Rgb(58 / 4, 68 / 4, 65 / 4), Rgb(80 / 2, 100 / 2, 153 / 2)]

  /** The four waveform anchors of a scheme; `None` selects `'default'`. */
  function WaveformAnchors(s: Option<SchemeName>): (c: seq<Rgb>)
    ensures |c| == 4 && forall j :: 0 <= j < |c| ==> InByteRange(c[j])
  {
    match if s.None? then Default else s.value
    case Default => [Rgb(50, 0, 200), Rgb(0, 220, 80), Rgb(255, 224, 0), Rgb(255, 0, 0)]
    case Iso => [Rgb(0, 0, 255), Rgb(0, 255, 255), Rgb(255, 255, 0), Rgb(255, 0, 0)]
    case Purple => [Rgb(173, 173, 173), Rgb(147, 149, 196), Rgb(77, 80, 138), Rgb(108, 66, 0)]
  }

  /** The seven spectrogram anchors, the same in every scheme. */
  function SpectrogramAnchors(s: Option<SchemeName>): (c: seq<Rgb>)
    ensures |c| == 7 && forall j :: 0 <= j < |c| ==> InByteRange(c[j])
  {
    [Rgb(0, 0, 0)] + Dim + [Rgb(90, 180, 100), Rgb(224, 224, 44), Rgb(255, 60, 30), Rgb(255, 255, 255)]
  }

  /** Giving no scheme name selects the `'default'` scheme. */
  lemma NoSchemeIsDefault()
    ensures WaveformAnchors(None) == WaveformAnchors(Some(Default))
    ensures SpectrogramAnchors(None) == SpectrogramAnchors(Some(Default))
  {
  }

  /** The inputs on which `interpolate_colors` returns instead of raising. */
  predicate Builds(colors: seq<Rgb>, count: int)
  {
    count <= 0 || (count >= 2 && |colors| >= 1)
  }

  /** Position of output entry `i` over the anchor list, `i*(len-1)/(count-1.0)`. */
  function Position(anchors: int, count: int, i: int): real
    requires count >= 2
  {
    ((i * (anchors - 1)) as real) / ((count - 1) as real)
  }

  /** The position runs from the first anchor (0) to the last (len-1), and a
      position with a fractional part is never at the last anchor, so the
      anchor after it exists. */
  lemma PositionBounds(anchors: nat, count: int, i: int)
    requires anchors >= 1 && count >= 2 && 0 <= i < count
    ensures 0.0 <= Position(anchors, count, i) <= (anchors - 1) as real
    ensures i == 0 ==> Position(anchors, count, i) == 0.0
    ensures i == count - 1 ==> Position(anchors, count, i) == (anchors - 1) as real
    ensures Position(anchors, count, i).Floor as real < Position(anchors, count, i)
            ==> Position(anchors, count, i).Floor + 1 < anchors
  {
    var d := (count - 1) as real;
    var l := (anchors - 1) as real;
    var n := i * (anchors - 1);
    MulMonotone(i, count - 1, anchors - 1);
    assert n as real <= l * d;
    QuotientBelow(n as real, d, l);
  }

  lemma MulMonotone(a: int, b: int, c: int)
    requires 0 <= a <= b && 0 <= c
    ensures 0 <= a * c <= b * c
  {
  }

  lemma QuotientBelow(n: real, d: real, l: real)
    requires d > 0.0 && 0.0 <= n <= l * d
    ensures 0.0 <= n / d <= l
    ensures n == l * d ==> n / d == l
  {
  }

  /** Entry `i` of the palette: anchor `int(index)` mixed with the next one by
      the fractional part `alpha`, or anchor `int(index)` alone when
      `alpha == 0`. */
  function Entry(colors: seq<Rgb>, count: int, i: int): Rgb
    requires |colors| >= 1 && count >= 2 && 0 <= i < count
  {
    PositionBounds(|colors|, count, i);
    var index := Position(|colors|, count, i);
    var indexInt := Trunc(index);
    var alpha := index - indexInt as real;
    if alpha > 0.0 then
      Blend(colors[indexInt], colors[indexInt + 1], alpha)
    else
      Scale(colors[indexInt], 1.0 - alpha)
  }

  /** The two branches of `Entry`, with the truncated position in range. */
  lemma EntryCases(colors: seq<Rgb>, count: int, i: int)
    requires |colors| >= 1 && count >= 2 && 0 <= i < count
    ensures 0 <= Trunc(Position(|colors|, count, i)) < |colors|
    ensures var index := Position(|colors|, count, i);
            var indexInt := Trunc(index);
            var alpha := index - indexInt as real;
            (alpha > 0.0 ==> indexInt + 1 < |colors| && Entry(colors, count, i) == Blend(colors[indexInt], colors[indexInt + 1], alpha))
            && (alpha <= 0.0 ==> Entry(colors, count, i) == Scale(colors[indexInt], 1.0 - alpha))
  {
    PositionBounds(|colors|, count, i);
  }

  /** Per channel `int(w * c)`. */
  function Scale(c: Rgb, w: real): Rgb
  {
    Rgb(Trunc(w * c.r as real), Trunc(w * c.g as real), Trunc(w * c.b as real))
  }

  /** The palette as a sequence of triples, of the requested length. */
  function PaletteEntries(colors: seq<Rgb>, count: int): (p: seq<Rgb>)
    requires Builds(colors, count)
    ensures |p| == if count <= 0 then 0 else count
  {
    if count <= 0 then [] else seq(count, i requires 0 <= i < count => Entry(colors, count, i))
  }

  /** The channels of the entries, one after the other. */
  function Flatten(es: seq<Rgb>): (v: seq<int>)
    ensures |v| == 3 * |es|
  {
    if es == [] then []
    else
      var e := es[|es| - 1];
      Flatten(es[..|es| - 1]) + [e.r, e.g, e.b]
  }

  function Shape(flat: bool, es: seq<Rgb>): Palette
  {
    if flat then Flat(Flatten(es)) else Triples(es)
  }

  /** `interpolate_colors(colors, flat, num_colors)`. */
  method InterpolateColors(colors: seq<Rgb>, flat: bool, numColors: int) returns (r: Result<Palette, Fault>)
    ensures r == Err(ZeroDivision) <==> numColors == 1
    ensures r == Err(IndexOutOfRange) <==> numColors >= 2 && |colors| == 0
    ensures r.Ok? <==> Builds(colors, numColors)
    ensures r.Ok? ==> r.value == Shape(flat, PaletteEntries(colors, numColors))
  {
    var palette := Shape(flat, []);
    ghost var done: seq<Rgb> := [];
    var i := 0;
    while i < numColors
      invariant 0 <= i
      invariant palette == Shape(flat, done)
      invariant i == 0 ==> done == []
      invariant i > 0 ==> numColors >= 2 && |colors| >= 1 && i <= numColors
      invariant i > 0 ==> done == PaletteEntries(colors, numColors)[..i]
    {
      if numColors == 1 {
        return Err(ZeroDivision);
      }
      var index := Position(|colors|, numColors, i);
      var indexInt := Trunc(index);
      if |colors| >= 1 {
        EntryCases(colors, numColors, i);
      }
      if !(-|colors| <= indexInt < |colors|) {
        return Err(IndexOutOfRange);
      }
      var alpha := index - indexInt as real;
      var e: Rgb;
      if alpha > 0.0 {
        e := Blend(colors[indexInt], colors[indexInt + 1], alpha);
      } else {
        e := Scale(colors[indexInt], 1.0 - alpha);
      }
      assert e == Entry(colors, numColors, i);
      EntriesSnoc(colors, numColors, i);
      assert i == 0 ==> PaletteEntries(colors, numColors)[..i] == [];
      ShapeSnoc(flat, done, e);
      palette := if flat then Flat(palette.values + [e.r, e.g, e.b]) else Triples(palette.entries + [e]);
      done := done + [e];
      i := i + 1;
    }
    if numColors >= 2 {
      assert PaletteEntries(colors, numColors)[..i] == PaletteEntries(colors, numColors);
    }
    return Ok(palette);
  }

  /** One more step of the loop extends the built prefix by entry `i`. */
  lemma EntriesSnoc(colors: seq<Rgb>, count: int, i: int)
    requires count >= 2 && |colors| >= 1 && 0 <= i < count
    ensures PaletteEntries(colors, count)[..i + 1]
            == PaletteEntries(colors, count)[..i] + [Entry(colors, count, i)]
  {
  }

  lemma ShapeSnoc(flat: bool, es: seq<Rgb>, e: Rgb)
    ensures Shape(flat, es + [e]) == if flat then Flat(Shape(flat, es).values + [e.r, e.g, e.b])
                                     else Triples(Shape(flat, es).entries + [e])
  {
    assert (es + [e])[..|es|] == es;
  }

  /** Value `k` of entry `i` in the flat form is channel `k` of triple `i`. */
  lemma {:induction false} FlattenAt(es: seq<Rgb>, i: nat, k: nat)
    requires i < |es| && k < 3
    ensures Flatten(es)[3 * i + k] == Channel(es[i], k)
  {
    var init := es[..|es| - 1];
    if i < |es| - 1 {
      FlattenAt(init, i, k);
      assert es[i] == init[i];
    }
  }

  /** The first entry is the first anchor and the last entry the last anchor. */
  lemma PaletteEndpoints(colors: seq<Rgb>, count: int)
    requires count >= 2 && |colors| >= 1
    ensures PaletteEntries(colors, count)[0] == colors[0]
    ensures PaletteEntries(colors, count)[count - 1] == colors[|colors| - 1]
  {
    var last := |colors| - 1;
    PositionBounds(|colors|, count, 0);
    assert Trunc(0.0) == 0;
    assert PaletteEntries(colors, count)[0] == Scale(colors[0], 1.0);
    ScaleOne(colors[0]);
    PositionBounds(|colors|, count, count - 1);
    assert Trunc(last as real) == last;
    assert PaletteEntries(colors, count)[count - 1] == Scale(colors[last], 1.0);
    ScaleOne(colors[last]);
  }

  lemma ScaleOne(c: Rgb)
    ensures Scale(c, 1.0) == c
  {
  }

  /** The anchor that entry `i` starts from and the one it moves towards. */
  function LowAnchor(colors: seq<Rgb>, count: int, i: int): (j: nat)
    requires |colors| >= 1 && count >= 2 && 0 <= i < count
    ensures j < |colors|
  {
    PositionBounds(|colors|, count, i);
    Trunc(Position(|colors|, count, i))
  }

  function HighAnchor(colors: seq<Rgb>, count: int, i: int): (j: nat)
    requires |colors| >= 1 && count >= 2 && 0 <= i < count
    ensures j < |colors|
  {
    var lo := LowAnchor(colors, count, i);
    if lo + 1 < |colors| then lo + 1 else lo
  }

  /** Every channel of every entry lies between the channels of the two
      anchors it interpolates. */
  lemma PaletteChannelBetween(colors: seq<Rgb>, count: int, i: int, k: nat)
    requires count >= 2 && |colors| >= 1 && 0 <= i < count && k < 3
    ensures Between(Channel(PaletteEntries(colors, count)[i], k),
                    Channel(colors[LowAnchor(colors, count, i)], k),
                    Channel(colors[HighAnchor(colors, count, i)], k))
  {
    PositionBounds(|colors|, count, i);
    var index := Position(|colors|, count, i);
    var alpha := index - Trunc(index) as real;
    var c := colors[LowAnchor(colors, count, i)];
    if alpha <= 0.0 {
      assert 1.0 - alpha == 1.0;
      assert Scale(c, 1.0) == c;
    }
  }

  /** Byte-range anchors give a byte-range palette. */
  lemma PaletteInByteRange(colors: seq<Rgb>, count: int)
    requires Builds(colors, count)
    requires forall j :: 0 <= j < |colors| ==> InByteRange(colors[j])
    ensures forall i :: 0 <= i < |PaletteEntries(colors, count)| ==> InByteRange(PaletteEntries(colors, count)[i])
  {
    forall i | 0 <= i < |PaletteEntries(colors, count)|
      ensures InByteRange(PaletteEntries(colors, count)[i])
    {
      PaletteChannelBetween(colors, count, i, 0);
      PaletteChannelBetween(colors, count, i, 1);
      PaletteChannelBetween(colors, count, i, 2);
      var lo := colors[LowAnchor(colors, count, i)];
      var hi := colors[HighAnchor(colors, count, i)];
      assert InByteRange(lo) && InByteRange(hi);
    }
  }
}
