/** The browser microphone component: it opens a socket to the speech server,
    announces the session, and once the server acknowledges it captures audio
    and sends it as 16-bit PCM, the first frame of each capture carrying a WAVE
    header sized for 1000000 data bytes. */
module SpeechInput {
  import opened Common
  import opened WaveFormat

  /** The data length the client announces: a fixed estimate, not the real size. */
  const AnnouncedDataLength: nat := 1000000

  /** Builds the header by successive `DataView` writes into a zeroed 44-byte
      buffer; each four-character tag stands for its four `setUint8` calls. */
  method BuildHeader() returns (h: seq<byte>)
    ensures h == PcmHeader(AnnouncedDataLength)
    ensures |h| == HeaderLength && IsRiffFrame(h)
  {
    var buf := new byte[HeaderLength](_ => 0);
    ghost var target := PcmHeader(AnnouncedDataLength);
    PcmHeaderSlices(AnnouncedDataLength);
    assert buf[..0] == target[..0];
    StoreNext(buf, target, 0, RiffTag());
    StoreNext(buf, target, 4, LE32(36 + AnnouncedDataLength));
    StoreNext(buf, target, 8, WaveTag());
    StoreNext(buf, target, 12, FmtTag());
    StoreNext(buf, target, 16, LE32(FmtChunkLength));
    StoreNext(buf, target, 20, LE16(FormatPcm));
    StoreNext(buf, target, 22, LE16(Channels));
    StoreNext(buf, target, 24, LE32(SampleRate));
    StoreNext(buf, target, 28, LE32(ByteRate));
    StoreNext(buf, target, 32, LE16(BlockAlign));
    StoreNext(buf, target, 34, LE16(BitsPerSample));
    StoreNext(buf, target, 36, DataTag());
    StoreNext(buf, target, 40, LE32(AnnouncedDataLength));
    assert buf[..] == buf[..44] && target[..44] == target;
    h := buf[..];
    PcmHeaderIsRiff(AnnouncedDataLength, []);
    assert h + [] == h;
  }

  /** The client header's fields hold the fixed values of a 16 kHz mono 16-bit
      stream announcing 1000000 data bytes, and they are mutually consistent. */
  lemma ClientHeaderFields()
    ensures var h := PcmHeader(AnnouncedDataLength);
      && h[0..4] == RiffTag() && h[8..12] == WaveTag()
      && h[12..16] == FmtTag() && h[36..40] == DataTag()
      && DecodeLE32(h[4..8]) == 1000036 && DecodeLE32(h[16..20]) == 16
      && DecodeLE16(h[20..22]) == 1 && DecodeLE16(h[22..24]) == 1
      && DecodeLE32(h[24..28]) == 16000 && DecodeLE32(h[28..32]) == 32000
      && DecodeLE16(h[32..34]) == 2 && DecodeLE16(h[34..36]) == 16
      && DecodeLE32(h[40..44]) == 1000000
      && DecodeLE32(h[28..32]) == DecodeLE32(h[24..28]) * DecodeLE16(h[32..34])
      && DecodeLE16(h[32..34]) == DecodeLE16(h[22..24]) * DecodeLE16(h[34..36]) / 8
  {
    PcmHeaderFields(AnnouncedDataLength);
  }

  /** The audio frames a capture sends for the processed sample blocks: the
      header and the first block together, then each later block alone. */
  function ClientFrames(blocks: seq<seq<int16>>): (frames: seq<seq<byte>>)
    ensures |frames| == |blocks|
  {
    FramesWith(PcmHeader(AnnouncedDataLength), blocks)
  }

  /** The frames for any header `h` sent with the first block. */
  function FramesWith(h: seq<byte>, blocks: seq<seq<int16>>): (frames: seq<seq<byte>>)
    ensures |frames| == |blocks|
  {
    seq(|blocks|, i requires 0 <= i < |blocks| => if i == 0 then h + PcmBytes(blocks[0]) else PcmBytes(blocks[i]))
  }

  /** One more block extends the frames by one frame. */
  lemma ClientFramesSnoc(blocks: seq<seq<int16>>, b: seq<int16>)
    ensures ClientFrames(blocks + [b]) == ClientFrames(blocks)
      + [if blocks == [] then PcmHeader(AnnouncedDataLength) + PcmBytes(b) else PcmBytes(b)]
  {
    FramesWithSnoc(PcmHeader(AnnouncedDataLength), blocks, b);
  }

  lemma FramesWithSnoc(h: seq<byte>, blocks: seq<seq<int16>>, b: seq<int16>)
    ensures FramesWith(h, blocks + [b]) == FramesWith(h, blocks) + [if blocks == [] then h + PcmBytes(b) else PcmBytes(b)]
  {
  }

  /** Everything a capture sends, read as one byte stream, is one header
      followed by the samples of every block in order: exactly one header per capture. */
  lemma ClientStream(blocks: seq<seq<int16>>)
    requires blocks != []
    ensures Flatten(ClientFrames(blocks)) == PcmHeader(AnnouncedDataLength) + ConcatPcm(blocks)
  {
    StreamWith(PcmHeader(AnnouncedDataLength), blocks);
  }

  /** The stream for any header: the header, then every block's samples. */
  lemma {:induction false} StreamWith(h: seq<byte>, blocks: seq<seq<int16>>)
    requires blocks != []
    ensures Flatten(FramesWith(h, blocks)) == h + ConcatPcm(blocks)
  {
    var n := |blocks| - 1;
    if n == 0 {
      StreamOne(h, blocks[0]);
      assert blocks == [blocks[0]];
    } else {
      var init := blocks[..n];
      var frames, last := FramesWith(h, init), PcmBytes(blocks[n]);
      assert FramesWith(h, blocks) == frames + [last] by {
        assert blocks == init + [blocks[n]] && init != [];
        FramesWithSnoc(h, init, blocks[n]);
      }
      assert Flatten(frames + [last]) == (h + ConcatPcm(init)) + last by {
        FlattenSnoc(frames, last);
        StreamWith(h, init);
      }
      assert ConcatPcm(blocks) == ConcatPcm(init) + last;
      AppendAssoc(h, ConcatPcm(init), last);
    }
  }

  /** The stream of a single block is the header and its samples. */
  lemma StreamOne(h: seq<byte>, b: seq<int16>)
    ensures Flatten(FramesWith(h, [b])) == h + ConcatPcm([b])
  {
    assert [b][..0] == [];
    assert FramesWith(h, [b]) == [h + PcmBytes(b)];
    FlattenSnoc([], h + PcmBytes(b));
    assert [] + [h + PcmBytes(b)] == [h + PcmBytes(b)];
  }

  /** The states of the WebSocket the component opens. */
  datatype SocketState = Connecting | Open | Closed

  /** Messages the component sends on its socket. */
  datatype Outgoing = StartMessage(sessionId: string) | StopMessage | AudioFrame(bytes: seq<byte>)

  /** A server message after `JSON.parse`; `Unparsable` when parsing throws.
      An absent or empty field is the empty string. */
  datatype Incoming = Parsed(transcript: string, kind: string, error: string) | Unparsable

  /** The component's state: React state (`isRecording`, `isConnecting`), its
      refs (`isRecordingRef`, `headerSentRef`, whether `wsRef` holds the socket)
      and what has gone over the socket. */
  class Recorder {
    const sessionId: string
    var isRecording: bool
    var isConnecting: bool
    var isRecordingRef: bool
    var headerSent: bool
    var socketHeld: bool
    var socket: SocketState
    /** Every message sent on the socket, in order. */
    var sent: seq<Outgoing>
    /** Transcripts handed to `onTranscript`, in order. */
    var transcripts: seq<string>
    /** The sample blocks sent during the current capture. */
    ghost var captured: seq<seq<int16>>
    /** The audio frames sent during the current capture. */
    ghost var captureFrames: seq<seq<byte>>

    /** The header flag is set exactly when the current capture has sent a
        frame, and the frames sent so far are the capture's client frames. */
    ghost predicate Valid()
      reads this
    {
      && (headerSent ==> isRecordingRef)
      && (isRecordingRef ==> (headerSent <==> captured != []))
      && (isRecordingRef ==> captureFrames == ClientFrames(captured))
    }

    constructor (sessionId: string)
      ensures Valid() && this.sessionId == sessionId
      ensures !isRecording && !isConnecting && !isRecordingRef && !headerSent && !socketHeld
      ensures sent == [] && transcripts == []
    {
      this.sessionId := sessionId;
      isRecording := false;
      isConnecting := false;
      isRecordingRef := false;
      headerSent := false;
      socketHeld := false;
      socket := Closed;
      sent := [];
      transcripts := [];
      captured := [];
      captureFrames := [];
    }

    /** `cleanupAudio`: releases the audio graph and lowers both flags. */
    method CleanupAudio()
      requires Valid()
      modifies this
      ensures Valid() && !isRecordingRef && !headerSent
      ensures isRecording == old(isRecording) && isConnecting == old(isConnecting)
      ensures socketHeld == old(socketHeld) && socket == old(socket)
      ensures sent == old(sent) && transcripts == old(transcripts)
    {
      isRecordingRef := false;
      headerSent := false;
    }

    /** `startRecording`: a no-op while recording or connecting; otherwise
        marks the component connecting and opens a new socket. */
    method StartRecording()
      requires Valid()
      modifies this
      ensures Valid()
      ensures old(isRecording || isConnecting) ==>
        isConnecting == old(isConnecting) && isRecording == old(isRecording)
        && socket == old(socket) && socketHeld == old(socketHeld) && sent == old(sent)
      ensures !old(isRecording || isConnecting) ==>
        isConnecting && socket == Connecting && socketHeld && sent == []
      ensures isRecordingRef == old(isRecordingRef) && headerSent == old(headerSent)
      ensures transcripts == old(transcripts)
    {
      if isRecording || isConnecting {
        return;
      }
      isConnecting := true;
      socket := Connecting;
      socketHeld := true;
      sent := [];
    }

    /** `socket.onopen`: announces the session. */
    method OnOpen()
      requires Valid()
      modifies this
      ensures Valid() && socket == Open
      ensures sent == old(sent) + [StartMessage(sessionId)]
      ensures isRecording == old(isRecording) && isConnecting == old(isConnecting)
      ensures isRecordingRef == old(isRecordingRef) && headerSent == old(headerSent)
      ensures socketHeld == old(socketHeld) && transcripts == old(transcripts)
    {
      socket := Open;
      sent := sent + [StartMessage(sessionId)];
    }

    /** Nothing but the transcripts changed. */
    twostate predicate StateKept()
      reads this
    {
      && isRecording == old(isRecording) && isConnecting == old(isConnecting)
      && isRecordingRef == old(isRecordingRef) && headerSent == old(headerSent)
      && socketHeld == old(socketHeld) && socket == old(socket) && sent == old(sent)
    }

    /** The effect of `stopRecording`: "stop" is sent and the socket closed
        if it is open, the socket reference is dropped, and every flag is
        lowered. */
    twostate predicate RecordingStopped()
      reads this
    {
      && !isRecording && !isConnecting && !isRecordingRef && !headerSent && !socketHeld
      && (old(socketHeld && socket == Open) ==> sent == old(sent) + [StopMessage] && socket == Closed)
      && (!old(socketHeld && socket == Open) ==> sent == old(sent) && socket == old(socket))
      && transcripts == old(transcripts)
    }

    /** The effect of `startAudioCapture`: with the microphone, recording
        starts with no frame sent yet; without it, recording stops. */
    twostate predicate CaptureStarted(microphoneGranted: bool)
      reads this
    {
      && transcripts == old(transcripts)
      && (microphoneGranted ==>
            && isRecordingRef && !headerSent && isRecording && !isConnecting
            && captured == [] && captureFrames == []
            && sent == old(sent) && socket == old(socket) && socketHeld == old(socketHeld))
      && (!microphoneGranted ==> RecordingStopped())
    }

    /** `stopRecording`: sends `stop` and closes the socket if it is open,
        drops the socket reference, cleans up and lowers the React state. */
    method StopRecording()
      requires Valid()
      modifies this
      ensures Valid() && RecordingStopped()
    {
      if socketHeld && socket == Open {
        sent := sent + [StopMessage];
        socket := Closed;
      }
      socketHeld := false;
      CleanupAudio();
      isRecording := false;
      isConnecting := false;
    }

    /** `socket.onclose` (and `onerror`, which behaves alike once the socket is gone). */
    method OnClose()
      requires Valid()
      modifies this
      ensures Valid() && socket == Closed && sent == old(sent)
      ensures !isRecording && !isConnecting && !isRecordingRef && !headerSent && !socketHeld
      ensures transcripts == old(transcripts)
    {
      socket := Closed;
      StopRecording();
    }

    /** `startAudioCapture`: when the microphone is granted, raises the
        recording flag and resets the header flag, so the capture starts with
        no frame sent; when it is refused, stops recording. */
    method StartAudioCapture(microphoneGranted: bool)
      requires Valid()
      modifies this
      ensures Valid() && CaptureStarted(microphoneGranted)
    {
      if !microphoneGranted {
        StopRecording();
        return;
      }
      isRecordingRef := true;
      headerSent := false;
      captured := [];
      captureFrames := [];
      isRecording := true;
      isConnecting := false;
    }

    /** `socket.onmessage`: a transcript is handed on; otherwise `start_ack`
        starts the capture and an error stops recording. An unparsable message is ignored. */
    method OnMessage(m: Incoming, microphoneGranted: bool)
      requires Valid()
      modifies this
      ensures Valid()
      ensures m.Unparsable? ==> StateKept() && transcripts == old(transcripts)
      ensures m.Parsed? && m.transcript != [] ==> StateKept() && transcripts == old(transcripts) + [m.transcript]
      ensures m.Parsed? && m.transcript == [] && m.kind == "start_ack" ==> CaptureStarted(microphoneGranted)
      ensures m.Parsed? && m.transcript == [] && m.kind != "start_ack" && m.error != [] ==> RecordingStopped()
      ensures m.Parsed? && m.transcript == [] && m.kind != "start_ack" && m.error == [] ==>
        StateKept() && transcripts == old(transcripts)
    {
      if m.Unparsable? {
        return;
      }
      if m.transcript != [] {
        transcripts := transcripts + [m.transcript];
      } else if m.kind == "start_ack" {
        StartAudioCapture(microphoneGranted);
      } else if m.error != [] {
        StopRecording();
      }
    }

    /** `processor.onaudioprocess` for one block of converted samples: nothing
        is sent unless the socket is open and the recording flag is set; the
        first frame of a capture is the header followed by the block's bytes,
        and every later frame is the block's bytes alone. */
    method OnAudioProcess(pcm: seq<int16>)
      requires Valid()
      modifies this
      ensures Valid()
      ensures !(old(socket) == Open && old(isRecordingRef)) ==> sent == old(sent) && headerSent == old(headerSent)
      ensures old(socket) == Open && old(isRecordingRef) && !old(headerSent) ==>
        sent == old(sent) + [AudioFrame(PcmHeader(AnnouncedDataLength) + PcmBytes(pcm))] && headerSent
      ensures old(socket) == Open && old(isRecordingRef) && old(headerSent) ==>
        sent == old(sent) + [AudioFrame(PcmBytes(pcm))] && headerSent
      ensures isRecordingRef == old(isRecordingRef) && isRecording == old(isRecording)
      ensures socket == old(socket) && socketHeld == old(socketHeld) && transcripts == old(transcripts)
    {
      if socket == Open && isRecordingRef {
        var frame;
        if !headerSent {
          var header := BuildHeader();
          frame := header + PcmBytes(pcm);
          headerSent := true;
        } else {
          frame := PcmBytes(pcm);
        }
        sent := sent + [AudioFrame(frame)];
        ClientFramesSnoc(captured, pcm);
        captured := captured + [pcm];
        captureFrames := captureFrames + [frame];
      }
    }
  }
}
