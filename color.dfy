/** RGB colours and the one blending rule shared by the palette builder and
    the waveform anti-aliasing. */
module Color {
  import opened Common

  datatype Rgb = Rgb(r: int, g: int, b: int)

  /** Channel `k` of a colour, in the order of the source's tuples. */
  function Channel(c: Rgb, k: nat): int
    requires k < 3
  {
    if k == 0 then c.r else if k == 1 then c.g else c.b
  }

  predicate InByteRange(c: Rgb)
  {
    0 <= c.r <= 255 && 0 <= c.g <= 255 && 0 <= c.b <= 255
  }

  /** Per channel `int((1 - alpha) * p + alpha * c)`: weight `alpha` goes to
      the second colour. */
  function Blend(p: Rgb, c: Rgb, alpha: real): (q: Rgb)
    requires 0.0 <= alpha <= 1.0
    ensures forall k :: 0 <= k < 3 ==> Between(Channel(q, k), Channel(p, k), Channel(c, k))
  {
    LerpTruncBetween(p.r, c.r, alpha);
    LerpTruncBetween(p.g, c.g, alpha);
    LerpTruncBetween(p.b, c.b, alpha);
    Rgb(Trunc(Lerp(p.r, c.r, alpha)), Trunc(Lerp(p.g, c.g, alpha)), Trunc(Lerp(p.b, c.b, alpha)))
  }

  /** A blend of two byte-range colours is a byte-range colour. */
  lemma BlendInByteRange(p: Rgb, c: Rgb, alpha: real)
    requires 0.0 <= alpha <= 1.0
    requires InByteRange(p) && InByteRange(c)
    ensures InByteRange(Blend(p, c, alpha))
  {
    var q := Blend(p, c, alpha);
    assert Between(Channel(q, 0), Channel(p, 0), Channel(c, 0));
    assert Between(Channel(q, 1), Channel(p, 1), Channel(c, 1));
    assert Between(Channel(q, 2), Channel(p, 2), Channel(c, 2));
  }
}
