/** The header writer and file assembly of the stand-alone audio format test:
    a header is built once for a known payload size and the payload follows
    it, in one piece or chunk by chunk. */
module AudioFormatTest {
  import opened Common
  import opened WaveFormat

  /** Builds the 44-byte header for `dataLength` payload bytes by successive
      writes into a zeroed buffer. `writeUInt32LE` rejects a value of 2^32 or
      more, so a payload whose RIFF size overflows 32 bits yields `None`. */
  method CreateWavHeader(dataLength: nat) returns (r: Option<seq<byte>>)
    ensures 36 + dataLength < TWO32 ==> r == Some(PcmHeader(dataLength))
    ensures 36 + dataLength >= TWO32 ==> r == None
  {
    var h := new byte[HeaderLength](_ => 0);
    Store(h, 0, RiffTag());
    if 36 + dataLength >= TWO32 {
      return None;
    }
    ghost var target := PcmHeader(dataLength);
    PcmHeaderSlices(dataLength);
    assert h[..4] == target[..4];
    StoreNext(h, target, 4, LE32(36 + dataLength));
    StoreNext(h, target, 8, WaveTag());
    StoreNext(h, target, 12, FmtTag());
    StoreNext(h, target, 16, LE32(FmtChunkLength));
    StoreNext(h, target, 20, LE16(FormatPcm));
    StoreNext(h, target, 22, LE16(Channels));
    StoreNext(h, target, 24, LE32(SampleRate));
    StoreNext(h, target, 28, LE32(ByteRate));
    StoreNext(h, target, 32, LE16(BlockAlign));
    StoreNext(h, target, 34, LE16(BitsPerSample));
    StoreNext(h, target, 36, DataTag());
    StoreNext(h, target, 40, LE32(dataLength));
    assert h[..] == h[..44] && target[..44] == target;
    r := Some(h[..]);
  }

  const ChunkSize: nat := 16000
  const ChunkCount: nat := 3

  /** Test 1: one header sized for the whole payload, then the payload. */
  method SingleHeaderFile(samples: seq<int16>) returns (file: seq<byte>)
    requires 36 + 2 * |samples| < TWO32
    ensures |file| >= HeaderLength && file[..HeaderLength] == PcmHeader(2 * |samples|)
    ensures file[HeaderLength..] == PcmBytes(samples)
    ensures DecodeLE32(file[40..44]) == |file| - HeaderLength
  {
    var audio := PcmBytes(samples);
    var header := CreateWavHeader(|audio|);
    file := [];
    file := file + header.value;
    file := file + audio;
    PcmHeaderIsRiff(|audio|, audio);
    PcmHeaderFields(|audio|);
  }

  /** Test 2: the header is written once, sized for all chunks, and the
      chunks (each `ChunkSize` samples) are appended after it in order; the
      header's data length then equals the number of bytes that follow it. */
  method ChunkedFile(chunks: seq<seq<int16>>) returns (file: seq<byte>)
    requires |chunks| == ChunkCount
    requires forall k :: 0 <= k < |chunks| ==> |chunks[k]| == ChunkSize
    ensures |file| >= HeaderLength && file[..HeaderLength] == PcmHeader(ChunkSize * 2 * ChunkCount)
    ensures file[HeaderLength..] == ConcatPcm(chunks)
    ensures DecodeLE32(file[40..44]) == |file| - HeaderLength
  {
    var totalDataSize := ChunkSize * 2 * ChunkCount;
    var header := CreateWavHeader(totalDataSize);
    file := header.value;
    for i := 0 to ChunkCount
      invariant file == PcmHeader(totalDataSize) + ConcatPcm(chunks[..i])
      invariant |ConcatPcm(chunks[..i])| == 2 * ChunkSize * i
    {
      assert chunks[..i + 1][..i] == chunks[..i];
      file := file + PcmBytes(chunks[i]);
    }
    assert chunks[..ChunkCount] == chunks;
    PcmHeaderIsRiff(totalDataSize, ConcatPcm(chunks));
    PcmHeaderFields(totalDataSize);
  }
}
