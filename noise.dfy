/** The `Noise` reader: a stand-in for a sound file that hands out random
    samples, keeps a read position, and can be built with a "broken header"
    that makes it fail half-way through. */
module Noise {
  import opened Common

  /** The exceptions `read_frames` raises. */
  datatype ReadError =
    | IOError             // the broken header is hit
    | NegativeDimensions  // `numpy.random.random` of a negative count

  /** What one `read_frames(n)` call does to the read position: the position
      afterwards, and the number of samples returned or the error raised. */
  datatype Step = Step(seekpoint: int, count: Result<nat, ReadError>)

  /** `read_frames(n)` from position `seekpoint` of a file of `numFrames`
      frames; `numFrames / 2` is Python 2 floor division, as Dafny's `/` is
      for the divisor 2. */
  function ReadStep(seekpoint: int, numFrames: int, broken: bool, n: int): (s: Step)
  {
    if broken && seekpoint + n > numFrames / 2 then Step(seekpoint, Err(IOError))
    else
      var left := numFrames - seekpoint;
      var willRead := if left < n then left else n;
      Step(seekpoint + willRead, if willRead < 0 then Err(NegativeDimensions) else Ok(willRead))
  }

  /** The samples of a read of `count` frames, `random(count)*2 - 1`, from
      uniform draws in [0,1). */
  function Samples(uniform: seq<real>, count: nat): (v: seq<real>)
    requires count <= |uniform|
    ensures |v| == count
  {
    seq(count, i requires 0 <= i < count => uniform[i] * 2.0 - 1.0)
  }

  predicate UnitDraws(uniform: seq<real>)
  {
    forall i :: 0 <= i < |uniform| ==> 0.0 <= uniform[i] < 1.0
  }

  /** Uniform draws in [0,1) give samples in [-1,1). */
  lemma SamplesInRange(uniform: seq<real>, count: nat)
    requires count <= |uniform| && UnitDraws(uniform)
    ensures forall i :: 0 <= i < count ==> -1.0 <= Samples(uniform, count)[i] < 1.0
  {
  }

  /** A read fails with `IOError` exactly when the header is broken and the
      read would end past half of the file, and then the position stays put. */
  lemma ReadBrokenHeader(seekpoint: int, numFrames: int, broken: bool, n: int)
    ensures ReadStep(seekpoint, numFrames, broken, n).count == Err(IOError)
            <==> broken && seekpoint + n > numFrames / 2
    ensures ReadStep(seekpoint, numFrames, broken, n).count == Err(IOError)
            ==> ReadStep(seekpoint, numFrames, broken, n).seekpoint == seekpoint
  {
  }

  /** From a position inside the file, a read of a non-negative count that does
      not hit the broken header returns `min(n, numFrames - seekpoint)` samples,
      advances the position by that many, and never moves it past the end. */
  lemma ReadClamps(seekpoint: int, numFrames: int, broken: bool, n: int)
    requires seekpoint <= numFrames && 0 <= n
    requires !(broken && seekpoint + n > numFrames / 2)
    ensures ReadStep(seekpoint, numFrames, broken, n).count
            == Ok(if numFrames - seekpoint < n then numFrames - seekpoint else n)
    ensures ReadStep(seekpoint, numFrames, broken, n).seekpoint
            == seekpoint + ReadStep(seekpoint, numFrames, broken, n).count.value
    ensures ReadStep(seekpoint, numFrames, broken, n).seekpoint <= numFrames
  {
  }

  /** A read that returns samples on a broken file ends at or before half of
      it: the broken header is never read past. */
  lemma BrokenReadStopsAtHalf(seekpoint: int, numFrames: int, n: int)
    requires ReadStep(seekpoint, numFrames, true, n).count.Ok?
    ensures ReadStep(seekpoint, numFrames, true, n).seekpoint <= numFrames / 2
  {
  }

  /** A read of a negative count, or from past the end, raises after the
      position has already moved back by `min(n, numFrames - seekpoint)`. */
  lemma NegativeCountMovesBack(seekpoint: int, numFrames: int, broken: bool, n: int)
    requires !(broken && seekpoint + n > numFrames / 2)
    requires n < 0 || numFrames < seekpoint
    ensures ReadStep(seekpoint, numFrames, broken, n).count == Err(NegativeDimensions)
    ensures ReadStep(seekpoint, numFrames, broken, n).seekpoint < seekpoint
    ensures ReadStep(seekpoint, numFrames, broken, n).seekpoint
            == seekpoint + (if numFrames - seekpoint < n then numFrames - seekpoint else n)
  {
  }

  /** The position after `k` reads of `n` frames each, stopping at the first
      error. */
  function PositionAfter(seekpoint: int, numFrames: int, broken: bool, n: int, k: nat): int
    decreases k
  {
    if k == 0 then seekpoint
    else
      var s := ReadStep(seekpoint, numFrames, broken, n);
      if s.count.Ok? then PositionAfter(s.seekpoint, numFrames, broken, n, k - 1) else s.seekpoint
  }

  /** On a sound file, `k` reads of `n >= 0` frames from position `p` in the
      file reach `min(p + k*n, numFrames)`: reading in fixed-size blocks walks
      through the file and stops at its end. */
  lemma {:induction false} SequentialReads(seekpoint: int, numFrames: int, n: nat, k: nat)
    requires seekpoint <= numFrames
    ensures PositionAfter(seekpoint, numFrames, false, n, k)
            == if seekpoint + k * n < numFrames then seekpoint + k * n else numFrames
    decreases k
  {
    if k > 0 {
      ReadClamps(seekpoint, numFrames, false, n);
      var next := ReadStep(seekpoint, numFrames, false, n).seekpoint;
      SequentialReads(next, numFrames, n, k - 1);
      assert seekpoint + k * n == seekpoint + n + (k - 1) * n;
    }
  }

  class Noise {
    var seekpoint: int
    var numFrames: int
    var hasBrokenHeader: bool

    /** `Noise(num_frames, has_broken_header)`. */
    constructor (numFrames: int, hasBrokenHeader: bool)
      ensures seekpoint == 0 && this.numFrames == numFrames && this.hasBrokenHeader == hasBrokenHeader
    {
      seekpoint := 0;
      this.numFrames := numFrames;
      this.hasBrokenHeader := hasBrokenHeader;
    }

    /** `seek(seekpoint)`: any position is accepted. */
    method Seek(p: int)
      modifies this`seekpoint
      ensures seekpoint == p
    {
      seekpoint := p;
    }

    /** `get_nframes()`, `get_samplerate()` and `get_channels()`: a mono file
        at 44100 Hz whose length is the one the reader was built with. */
    method GetNframes() returns (n: int)
      ensures n == numFrames
    {
      n := numFrames;
    }

    method GetSamplerate() returns (rate: nat)
      ensures rate == 44100
    {
      rate := 44100;
    }

    method GetChannels() returns (channels: nat)
      ensures channels == 1
    {
      channels := 1;
    }

    /** `read_frames(frames_to_read)`, with the random draws supplied in
        `uniform`. */
    method ReadFrames(framesToRead: int, uniform: seq<real>) returns (r: Result<seq<real>, ReadError>)
      requires framesToRead <= |uniform| && UnitDraws(uniform)
      modifies this`seekpoint
      ensures seekpoint == ReadStep(old(seekpoint), numFrames, hasBrokenHeader, framesToRead).seekpoint
      ensures r.Err? <==> ReadStep(old(seekpoint), numFrames, hasBrokenHeader, framesToRead).count.Err?
      ensures r.Err? ==> r.error == ReadStep(old(seekpoint), numFrames, hasBrokenHeader, framesToRead).count.error
      ensures r.Ok? ==> ReadStep(old(seekpoint), numFrames, hasBrokenHeader, framesToRead).count.value <= |uniform|
      ensures r.Ok? ==> r.value == Samples(uniform, ReadStep(old(seekpoint), numFrames, hasBrokenHeader, framesToRead).count.value)
      ensures r.Ok? ==> forall i :: 0 <= i < |r.value| ==> -1.0 <= r.value[i] < 1.0
    {
      if hasBrokenHeader && seekpoint + framesToRead > numFrames / 2 {
        return Err(IOError);
      }
      var numFramesLeft := numFrames - seekpoint;
      var willRead;
      if numFramesLeft < framesToRead {
        willRead := numFramesLeft;
      } else {
        willRead := framesToRead;
      }
      seekpoint := seekpoint + willRead;
      if willRead < 0 {
        return Err(NegativeDimensions);
      }
      SamplesInRange(uniform, willRead);
      return Ok(Samples(uniform, willRead));
    }
  }
}
