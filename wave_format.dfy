/** The canonical 44-byte header of a RIFF WAVE file holding 16 kHz mono 16-bit
    PCM, as defined by the RIFF WAVE form of the Microsoft/IBM Multimedia
    Programming Interface and Data Specifications 1.0: a "RIFF" chunk whose
    form type is "WAVE", a "fmt " chunk with WAVE_FORMAT_PCM = 1, and the
    "data" chunk header. Both the browser recorder and the audio format test
    build this header; the speech server recognises it by its first four bytes. */
module WaveFormat {
  import opened Common

  const SampleRate: nat := 16000
  const Channels: nat := 1
  const BitsPerSample: nat := 16
  const BlockAlign: nat := Channels * BitsPerSample / 8
  const ByteRate: nat := SampleRate * BlockAlign
  const FmtChunkLength: nat := 16
  const FormatPcm: nat := 1
  const HeaderLength: nat := 44

  const TWO16: nat := 0x1_0000
  const TWO32: nat := 0x1_0000_0000

  /** ASCII text as bytes (every character below 256). */
  function Ascii(s: string): (b: seq<byte>)
    requires forall i :: 0 <= i < |s| ==> s[i] as int < 256
    ensures |b| == |s|
    ensures forall i :: 0 <= i < |s| ==> b[i] as int == s[i] as int
  {
    if s == [] then [] else [s[0] as int as byte] + Ascii(s[1..])
  }

  /** The four chunk tags, byte by byte. */
  function RiffTag(): seq<byte> { [0x52, 0x49, 0x46, 0x46] }
  function WaveTag(): seq<byte> { [0x57, 0x41, 0x56, 0x45] }
  function FmtTag(): seq<byte> { [0x66, 0x6D, 0x74, 0x20] }
  function DataTag(): seq<byte> { [0x64, 0x61, 0x74, 0x61] }

  /** The tags spell "RIFF", "WAVE", "fmt " and "data" in ASCII. */
  lemma TagsSpellNames()
    ensures RiffTag() == Ascii("RIFF") && WaveTag() == Ascii("WAVE")
    ensures FmtTag() == Ascii("fmt ") && DataTag() == Ascii("data")
  {
  }

  /** Little-endian unsigned 16-bit encoding (`DataView.setUint16(_, _, true)`, `writeUInt16LE`). */
  function LE16(x: nat): (b: seq<byte>)
    requires x < TWO16
    ensures |b| == 2
  {
    [(x % 256) as byte, (x / 256) as byte]
  }

  /** Little-endian unsigned 32-bit encoding (`DataView.setUint32(_, _, true)`, `writeUInt32LE`). */
  function LE32(x: nat): (b: seq<byte>)
    requires x < TWO32
    ensures |b| == 4
  {
    [(x % 256) as byte, (x / 256 % 256) as byte, (x / 65536 % 256) as byte, (x / 16777216) as byte]
  }

  function DecodeLE16(b: seq<byte>): nat
    requires |b| == 2
  {
    b[0] as nat + 256 * b[1] as nat
  }

  function DecodeLE32(b: seq<byte>): nat
    requires |b| == 4
  {
    b[0] as nat + 256 * b[1] as nat + 65536 * b[2] as nat + 16777216 * b[3] as nat
  }

  lemma DecodeLE16Inverse(x: nat)
    requires x < TWO16
    ensures DecodeLE16(LE16(x)) == x
  {
  }

  lemma DecodeLE32Inverse(x: nat)
    requires x < TWO32
    ensures DecodeLE32(LE32(x)) == x
  {
    var q1 := x / 256;
    var q2 := q1 / 256;
    var q3 := q2 / 256;
    assert x == x % 256 + 256 * q1;
    assert q1 == q1 % 256 + 256 * q2;
    assert q2 == q2 % 256 + 256 * q3;
    assert x / 65536 == q2;
    assert x / 16777216 == q3;
  }

  /** The 44 header bytes announcing `dataLength` bytes of 16 kHz mono 16-bit PCM.
      The RIFF chunk size at offset 4 is `36 + dataLength`, which must fit in 32 bits. */
  function PcmHeader(dataLength: nat): (h: seq<byte>)
    requires 36 + dataLength < TWO32
    ensures |h| == HeaderLength
  {
    RiffTag() + LE32(36 + dataLength) + WaveTag() + FmtTag() + LE32(FmtChunkLength)
    + LE16(FormatPcm) + LE16(Channels) + LE32(SampleRate) + LE32(ByteRate)
    + LE16(BlockAlign) + LE16(BitsPerSample) + DataTag() + LE32(dataLength)
  }

  /** Where each field of `PcmHeader` lies, as slices. */
  lemma PcmHeaderSlices(n: nat)
    requires 36 + n < TWO32
    ensures var h := PcmHeader(n);
      && h[0..4] == RiffTag() && h[4..8] == LE32(36 + n)
      && h[8..12] == WaveTag() && h[12..16] == FmtTag()
      && h[16..20] == LE32(FmtChunkLength) && h[20..22] == LE16(FormatPcm)
      && h[22..24] == LE16(Channels) && h[24..28] == LE32(SampleRate)
      && h[28..32] == LE32(ByteRate) && h[32..34] == LE16(BlockAlign)
      && h[34..36] == LE16(BitsPerSample) && h[36..40] == DataTag()
      && h[40..44] == LE32(n)
  {
    var x1 := RiffTag();
    var x2 := x1 + LE32(36 + n);
    var x3 := x2 + WaveTag();
    var x4 := x3 + FmtTag();
    var x5 := x4 + LE32(FmtChunkLength);
    var x6 := x5 + LE16(FormatPcm);
    var x7 := x6 + LE16(Channels);
    var x8 := x7 + LE32(SampleRate);
    var x9 := x8 + LE32(ByteRate);
    var x10 := x9 + LE16(BlockAlign);
    var x11 := x10 + LE16(BitsPerSample);
    var x12 := x11 + DataTag();
    var h := x12 + LE32(n);
    assert h == PcmHeader(n);
    assert h[..44] == h;
    Extend(h, x12, LE32(n));
    Extend(h, x11, DataTag());
    Extend(h, x10, LE16(BitsPerSample));
    Extend(h, x9, LE16(BlockAlign));
    Extend(h, x8, LE32(ByteRate));
    Extend(h, x7, LE32(SampleRate));
    Extend(h, x6, LE16(Channels));
    Extend(h, x5, LE16(FormatPcm));
    Extend(h, x4, LE32(FmtChunkLength));
    Extend(h, x3, FmtTag());
    Extend(h, x2, WaveTag());
    Extend(h, x1, LE32(36 + n));
    assert h[0..4] == h[..4];
  }

  /** A prefix of `h` that is `x` followed by `a` has `x` as a prefix and `a`
      right after it. */
  lemma Extend(h: seq<byte>, x: seq<byte>, a: seq<byte>)
    requires |x + a| <= |h| && h[..|x + a|] == x + a
    ensures h[..|x|] == x && h[|x|..|x| + |a|] == a
  {
    assert h[..|x|] == (x + a)[..|x|];
    assert h[|x|..|x| + |a|] == (x + a)[|x|..];
  }

  /** `s` with the bytes `b` stored from offset `off` on. */
  function Splice(s: seq<byte>, off: nat, b: seq<byte>): (r: seq<byte>)
    requires off + |b| <= |s|
    ensures |r| == |s|
  {
    s[..off] + b + s[off + |b|..]
  }

  /** Stores `b` into `buf` from offset `off`: one `DataView.setUint8/16/32`
      call, one `Buffer.write`/`writeUInt16LE`/`writeUInt32LE` call. */
  method Store(buf: array<byte>, off: nat, b: seq<byte>)
    requires off + |b| <= buf.Length
    modifies buf
    ensures buf[..] == Splice(old(buf[..]), off, b)
  {
    for j := 0 to |b|
      invariant buf[..] == old(buf[..])[..off] + b[..j] + old(buf[..])[off + j..]
    {
      StoreStep(old(buf[..]), off, b, j);
      buf[off + j] := b[j];
    }
  }

  /** Storing one more byte extends the stored prefix of `b`. */
  lemma StoreStep(s: seq<byte>, off: nat, b: seq<byte>, j: nat)
    requires off + |b| <= |s| && j < |b|
    ensures (s[..off] + b[..j] + s[off + j..])[off + j := b[j]] == s[..off] + b[..j + 1] + s[off + j + 1..]
  {
    var l := (s[..off] + b[..j] + s[off + j..])[off + j := b[j]];
    var r := s[..off] + b[..j + 1] + s[off + j + 1..];
    assert |l| == |r|;
    forall k | 0 <= k < |l|
      ensures l[k] == r[k]
    {
      if k < off {
      } else if k < off + j + 1 {
        assert r[k] == b[..j + 1][k - off];
      }
    }
  }

  /** Storing the next slice of a target after a matching prefix extends the prefix. */
  lemma StoreExtendsPrefix(s: seq<byte>, target: seq<byte>, e: nat, k: nat)
    requires e + k <= |target| == |s|
    requires s[..e] == target[..e]
    ensures Splice(s, e, target[e..e + k])[..e + k] == target[..e + k]
  {
    assert target[..e + k] == target[..e] + target[e..e + k];
  }

  /** Stores the next slice of a target buffer after a prefix that already
      matches it; the matching prefix grows by the stored bytes. */
  method StoreNext(buf: array<byte>, ghost target: seq<byte>, off: nat, b: seq<byte>)
    requires off + |b| <= buf.Length == |target|
    requires buf[..off] == target[..off] && b == target[off..off + |b|]
    modifies buf
    ensures buf[..off + |b|] == target[..off + |b|]
  {
    ghost var s := buf[..];
    Store(buf, off, b);
    StoreExtendsPrefix(s, target, off, |b|);
  }

  /** The speech server's test for a frame that carries a WAVE header:
      at least 44 bytes long and starting with the ASCII bytes "RIFF". */
  predicate IsRiffFrame(f: seq<byte>)
  {
    |f| >= HeaderLength && f[..4] == RiffTag()
  }

  /** Every field of the header sits where the RIFF WAVE layout puts it. */
  lemma PcmHeaderFields(n: nat)
    requires 36 + n < TWO32
    ensures var h := PcmHeader(n);
      && h[0..4] == RiffTag() && h[8..12] == WaveTag()
      && h[12..16] == FmtTag() && h[36..40] == DataTag()
      && DecodeLE32(h[4..8]) == 36 + n
      && DecodeLE32(h[16..20]) == 16
      && DecodeLE16(h[20..22]) == 1
      && DecodeLE16(h[22..24]) == 1
      && DecodeLE32(h[24..28]) == 16000
      && DecodeLE32(h[28..32]) == 32000
      && DecodeLE16(h[32..34]) == 2
      && DecodeLE16(h[34..36]) == 16
      && DecodeLE32(h[40..44]) == n
  {
    PcmHeaderSlices(n);
    DecodeLE32Inverse(36 + n);
    DecodeLE32Inverse(n);
    DecodeLE32Inverse(16);
    DecodeLE32Inverse(16000);
    DecodeLE32Inverse(32000);
  }

  /** The header is self-consistent: byte rate = sample rate x block align,
      block align = channels x bits per sample / 8, and the RIFF size is the
      data size plus the 36 header bytes that follow the size field. */
  lemma PcmHeaderConsistent(n: nat)
    requires 36 + n < TWO32
    ensures var h := PcmHeader(n);
      && DecodeLE32(h[28..32]) == DecodeLE32(h[24..28]) * DecodeLE16(h[32..34])
      && DecodeLE16(h[32..34]) == DecodeLE16(h[22..24]) * DecodeLE16(h[34..36]) / 8
      && DecodeLE32(h[4..8]) == DecodeLE32(h[40..44]) + (HeaderLength - 8)
  {
    PcmHeaderFields(n);
  }

  /** Every header this module produces passes the server's RIFF test. */
  lemma PcmHeaderIsRiff(n: nat, rest: seq<byte>)
    requires 36 + n < TWO32
    ensures IsRiffFrame(PcmHeader(n) + rest)
    ensures (PcmHeader(n) + rest)[..HeaderLength] == PcmHeader(n)
    ensures (PcmHeader(n) + rest)[HeaderLength..] == rest
  {
    PcmHeaderFields(n);
    assert (PcmHeader(n) + rest)[..4] == PcmHeader(n)[0..4];
  }

  /** A 16-bit signed sample, as stored in an `Int16Array`. */
  newtype int16 = x: int | -32768 <= x < 32768

  /** The two's-complement little-endian bytes of one sample. */
  function SampleBytes(v: int16): (b: seq<byte>)
    ensures |b| == 2
  {
    LE16(if v < 0 then v as int + TWO16 else v as int)
  }

  /** The byte view of an `Int16Array` (its `.buffer`) on a little-endian host. */
  function PcmBytes(samples: seq<int16>): (b: seq<byte>)
    ensures |b| == 2 * |samples|
  {
    if samples == [] then [] else SampleBytes(samples[0]) + PcmBytes(samples[1..])
  }

  /** Reading the bytes back as signed 16-bit samples gives the samples. */
  lemma {:induction false} PcmBytesAt(samples: seq<int16>, i: nat)
    requires i < |samples|
    ensures var b := PcmBytes(samples);
      var u := DecodeLE16(b[2 * i..2 * i + 2]);
      (if u >= 32768 then u - TWO16 else u) == samples[i] as int
  {
    if i == 0 {
      var v := samples[0];
      assert PcmBytes(samples)[0..2] == SampleBytes(v);
      DecodeLE16Inverse(if v < 0 then v as int + TWO16 else v as int);
    } else {
      PcmBytesAt(samples[1..], i - 1);
      assert PcmBytes(samples)[2 * i..2 * i + 2] == PcmBytes(samples[1..])[2 * (i - 1)..2 * (i - 1) + 2];
    }
  }

  /** The bytes of several sample blocks, one after the other. */
  function ConcatPcm(blocks: seq<seq<int16>>): (b: seq<byte>)
  {
    if blocks == [] then [] else ConcatPcm(blocks[..|blocks| - 1]) + PcmBytes(blocks[|blocks| - 1])
  }
}
