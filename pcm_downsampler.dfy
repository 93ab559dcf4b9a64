/** The audio worklet that turns 48 kHz float samples into 16 kHz 16-bit
    samples and posts them in frames of exactly 320 samples (20 ms). */
module PcmDownsampler {
  import opened Common
  import opened WaveFormat

  const Target: nat := 320
  const Factor: nat := 3

  /** JavaScript's conversion of a number to an integer: truncation toward zero. */
  function Truncate(x: real): (t: int)
    ensures x >= 0.0 ==> t as real <= x < t as real + 1.0
    ensures x < 0.0 ==> t as real - 1.0 < x <= t as real
  {
    if x < 0.0 then -((-x).Floor) else x.Floor
  }

  /** Storing a number into an `Int16Array`: truncate, then wrap modulo 2^16.
      Inside the 16-bit range the wrap does nothing. */
  function ToInt16(x: real): (v: int16)
    ensures -32768.0 <= x < 32768.0 ==> v as int == Truncate(x)
  {
    var m := Truncate(x) % 65536;
    (if m >= 32768 then m - 65536 else m) as int16
  }

  /** The scaling of one float sample: negative values by 0x8000, others by 0x7FFF. */
  function Scale(v: real): real
  {
    if v < 0.0 then v * 32768.0 else v * 32767.0
  }

  /** A sample in [-1, 1] lands in the 16-bit range without wrapping, never
      changes sign (small negative values truncate to 0), and full scale maps
      to the extreme values. */
  lemma ScaleFits(v: real)
    requires -1.0 <= v <= 1.0
    ensures ToInt16(Scale(v)) as int == Truncate(Scale(v))
    ensures v >= 0.0 ==> ToInt16(Scale(v)) >= 0
    ensures v < 0.0 ==> ToInt16(Scale(v)) <= 0
    ensures v == 1.0 ==> ToInt16(Scale(v)) == 32767
    ensures v == -1.0 ==> ToInt16(Scale(v)) == -32768
  {
    if v < 0.0 {
      assert -32768.0 <= Scale(v) < 0.0;
    } else {
      assert 0.0 <= Scale(v) <= 32767.0;
    }
  }

  /** The decimated block: every third input sample, converted; a trailing
      partial group of fewer than three samples contributes nothing. */
  function Decimate(src: seq<real>): (out: seq<int16>)
  {
    seq(|src| / Factor, i requires 0 <= i < |src| / Factor => ToInt16(Scale(src[Factor * i])))
  }

  /** The processor: its sample queue and the frames posted to its port. */
  class Downsampler {
    var buf: seq<int16>
    var posted: seq<seq<int16>>

    /** Fewer than a frame's worth of samples waits, and every posted frame is full. */
    ghost predicate Valid()
      reads this
    {
      |buf| < Target && forall k :: 0 <= k < |posted| ==> |posted[k]| == Target
    }

    constructor ()
      ensures Valid() && buf == [] && posted == []
    {
      buf := [];
      posted := [];
    }

    /** One render quantum. `input` is the first channel of the first input,
        `None` when either is missing. The call always asks to be kept alive;
        without input nothing changes; otherwise the frames it posts followed
        by the samples left queued are the old queue followed by the
        decimated block. */
    method Process(input: Option<seq<real>>) returns (keepAlive: bool)
      requires Valid()
      modifies this
      ensures keepAlive && Valid()
      ensures input.None? ==> buf == old(buf) && posted == old(posted)
      ensures input.Some? ==>
        && |old(posted)| <= |posted| && posted[..|old(posted)|] == old(posted)
        && Flatten(posted[|old(posted)|..]) + buf == old(buf) + Decimate(input.value)
    {
      if input.None? {
        return true;
      }
      var src := input.value;
      var out: seq<int16> := [];
      var i := 0;
      while i < |src| / Factor
        invariant 0 <= i <= |src| / Factor
        invariant out == Decimate(src)[..i]
      {
        out := out + [ToInt16(Scale(src[i * Factor]))];
        i := i + 1;
      }
      assert out == Decimate(src);
      buf := buf + out;
      ghost var start := |posted|;
      assert posted[start..] == [];
      while |buf| >= Target
        invariant start <= |posted| && posted[..start] == old(posted)
        invariant Flatten(posted[start..]) + buf == old(buf) + Decimate(src)
        invariant forall k :: 0 <= k < |posted| ==> |posted[k]| == Target
        decreases |buf|
      {
        var frame := buf[..Target];
        PostStep(posted, start, buf, Target);
        buf := buf[Target..];
        posted := posted + [frame];
      }
      return true;
    }
  }

  /** Moving the first `n` queued samples to a new posted frame keeps the
      posted frames followed by the queue the same. */
  lemma PostStep(posted: seq<seq<int16>>, start: nat, buf: seq<int16>, n: nat)
    requires start <= |posted| && n <= |buf|
    ensures (posted + [buf[..n]])[start..] == posted[start..] + [buf[..n]]
    ensures Flatten((posted + [buf[..n]])[start..]) + buf[n..] == Flatten(posted[start..]) + buf
  {
    var before := posted[start..];
    assert (posted + [buf[..n]])[start..] == before + [buf[..n]];
    FlattenSnoc(before, buf[..n]);
    assert buf[..n] + buf[n..] == buf;
  }
}
