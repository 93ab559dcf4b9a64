/** The speech WebSocket server: per connection it tells control messages
    from audio frames, opens a capture on `start`, appends each accepted audio
    frame to the capture's file (writing one WAVE header at most), and on
    `stop` hands the file to the transcriber and the transcript to the AI
    turn. The transcriber, the JSON parser and the AI turn are inputs. */
module SpeechController {
  import opened Common
  import opened WaveFormat
  import SpeechInput

  /** A frame as `ws` delivers it: text, or a binary buffer. */
  datatype Message = Text(text: string) | Binary(bytes: seq<byte>)

  /** The fields of a parsed control message; an absent field is the empty string. */
  datatype Control = Control(kind: string, sessionId: string)

  /** Messages the server sends back. */
  datatype Reply = StartAck(sessionId: string) | Transcript(text: string) | Error(message: string)

  /** One capture: the bytes written to its file, whether audio arrived, and
      whether a WAVE header was written. */
  datatype Capture = Capture(file: seq<byte>, hasReceivedAudio: bool, headerWritten: bool)

  const ControlLimit: nat := 200
  const OpenBrace: byte := 0x7B
  const CloseBrace: byte := 0x7D
  const NoAudioMessage: string := "No audio data recorded. Please try again."
  const NoSpeechMessage: string := "No speech detected. Please check your microphone and try speaking louder."
  const BlankAudio: string := "[BLANK_AUDIO]"
  const ProcessingError: string := "Speech processing error: "

  /** A frame that may be a control message: a text, or a buffer under 200
      bytes, reading `{...}`. For a buffer, the decoded text starts with `{`
      and ends with `}` exactly when its first and last bytes are those ASCII
      bytes, since no multi-byte UTF-8 sequence contains an ASCII byte. */
  predicate ControlCandidate(m: Message)
  {
    match m
    case Text(s) => |s| > 0 && s[0] == '{' && s[|s| - 1] == '}'
    case Binary(b) => |b| < ControlLimit && |b| > 0 && b[0] == OpenBrace && b[|b| - 1] == CloseBrace
  }

  /** How one accepted frame extends the file: a RIFF-prefixed frame of at
      least 44 bytes gives its header only while none has been written, and
      its remaining bytes always; any other frame is written whole. */
  function Contribution(frame: seq<byte>, headerWritten: bool): (b: seq<byte>)
  {
    if IsRiffFrame(frame) then
      (if headerWritten then frame[HeaderLength..] else frame[..HeaderLength] + frame[HeaderLength..])
    else frame
  }

  /** The file and header flag after accepting `frames` in order, from a
      fresh capture. */
  function Assemble(frames: seq<seq<byte>>): (r: (seq<byte>, bool))
  {
    if frames == [] then ([], false)
    else
      var prev := Assemble(frames[..|frames| - 1]);
      var f := frames[|frames| - 1];
      (prev.0 + Contribution(f, prev.1), prev.1 || IsRiffFrame(f))
  }

  /** The header flag is set exactly when some accepted frame was RIFF-prefixed. */
  lemma {:induction false} AssembleHeaderFlag(frames: seq<seq<byte>>)
    ensures Assemble(frames).1 <==> exists k :: 0 <= k < |frames| && IsRiffFrame(frames[k])
  {
    if frames != [] {
      var n := |frames| - 1;
      AssembleHeaderFlag(frames[..n]);
      assert forall k :: 0 <= k < n ==> frames[..n][k] == frames[k];
    }
  }

  /** Once a header is written, every later RIFF-prefixed frame loses its
      first 44 bytes: at most one header reaches the file. */
  lemma HeaderWrittenOnce(frames: seq<seq<byte>>, f: seq<byte>)
    requires Assemble(frames).1 && IsRiffFrame(f)
    ensures Assemble(frames + [f]).0 == Assemble(frames).0 + f[HeaderLength..]
  {
    assert (frames + [f])[..|frames|] == frames;
  }

  /** What the browser recorder sends reaches the file unchanged: a header,
      then every sample block in order, provided no later block happens to
      start with the bytes "RIFF". */
  lemma ClientRoundTrip(blocks: seq<seq<int16>>)
    requires blocks != []
    requires forall k :: 1 <= k < |blocks| ==> !IsRiffFrame(PcmBytes(blocks[k]))
    ensures Assemble(SpeechInput.ClientFrames(blocks)) ==
      (PcmHeader(SpeechInput.AnnouncedDataLength) + ConcatPcm(blocks), true)
  {
    var h := PcmHeader(SpeechInput.AnnouncedDataLength);
    PcmHeaderIsRiff(SpeechInput.AnnouncedDataLength, []);
    assert h + [] == h;
    HeaderFirstRoundTrip(h, blocks, SpeechInput.ClientFrames(blocks));
  }

  /** The round trip for any RIFF header sent with the first block. */
  lemma {:induction false} HeaderFirstRoundTrip(h: seq<byte>, blocks: seq<seq<int16>>, frames: seq<seq<byte>>)
    requires IsRiffFrame(h) && |h| == HeaderLength
    requires |frames| == |blocks| > 0 && frames[0] == h + PcmBytes(blocks[0])
    requires forall k :: 1 <= k < |blocks| ==> frames[k] == PcmBytes(blocks[k]) && !IsRiffFrame(frames[k])
    ensures Assemble(frames) == (h + ConcatPcm(blocks), true)
  {
    var n := |blocks| - 1;
    if n == 0 {
      assert frames == [frames[0]];
      assert frames[0][..4] == h[..4];
      AssembleSingleRiff(frames[0]);
      assert blocks[..0] == [];
      assert ConcatPcm(blocks) == [] + PcmBytes(blocks[0]) == PcmBytes(blocks[0]);
      assert Assemble(frames) == (frames[0], true);
    } else {
      var c := ConcatPcm(blocks[..n]);
      assert Assemble(frames[..n]) == (h + c, true) by {
        forall k | 1 <= k < n
          ensures frames[..n][k] == PcmBytes(blocks[..n][k]) && !IsRiffFrame(frames[..n][k])
        {
          assert frames[..n][k] == frames[k] && blocks[..n][k] == blocks[k];
        }
        HeaderFirstRoundTrip(h, blocks[..n], frames[..n]);
      }
      assert Assemble(frames) == (Assemble(frames[..n]).0 + frames[n], true) by {
        assert !IsRiffFrame(frames[n]);
      }
      assert ConcatPcm(blocks) == c + frames[n] by {
        assert frames[n] == PcmBytes(blocks[n]);
      }
      AppendAssoc(h, c, frames[n]);
    }
  }

  /** A fresh capture that accepts one RIFF-prefixed frame holds that frame. */
  lemma AssembleSingleRiff(f: seq<byte>)
    requires IsRiffFrame(f)
    ensures Assemble([f]) == (f, true)
  {
    assert [f][..0] == [];
    assert Assemble([f][..0]) == ([], false);
    assert f[..HeaderLength] + f[HeaderLength..] == f;
    assert Contribution(f, false) == f;
    assert [] + f == f;
  }

  /** After a header, a frame that is not RIFF-prefixed is appended whole. */
  lemma AssembleAppendPlain(frames: seq<seq<byte>>, f: seq<byte>)
    requires Assemble(frames).1 && !IsRiffFrame(f)
    ensures Assemble(frames + [f]) == (Assemble(frames).0 + f, true)
  {
    assert (frames + [f])[..|frames|] == frames;
  }

  /** Accepting one more frame extends the file by that frame's contribution. */
  lemma AssembleSnoc(frames: seq<seq<byte>>, f: seq<byte>)
    ensures Assemble(frames + [f]) ==
      (Assemble(frames).0 + Contribution(f, Assemble(frames).1), Assemble(frames).1 || IsRiffFrame(f))
  {
    assert (frames + [f])[..|frames|] == frames;
  }

  /** The round trip needs its proviso: a later block whose bytes start with
      "RIFF" loses 44 bytes of audio. */
  lemma RiffLikeBlockLosesBytes(b0: seq<int16>, b1: seq<int16>)
    requires IsRiffFrame(PcmBytes(b1))
    ensures Assemble(SpeechInput.ClientFrames([b0, b1])).0 ==
      PcmHeader(SpeechInput.AnnouncedDataLength) + PcmBytes(b0) + PcmBytes(b1)[HeaderLength..]
  {
    var frames := SpeechInput.ClientFrames([b0, b1]);
    var h := PcmHeader(SpeechInput.AnnouncedDataLength);
    ClientRoundTrip([b0]);
    assert [b0, b1][..1] == [b0];
    assert frames[..1] == SpeechInput.ClientFrames([b0]);
    assert ConcatPcm([b0]) == PcmBytes(b0) by {
      assert [b0][..0] == [];
    }
  }

  /** A capture's file and header flag are those of the frames it accepted,
      and it has received audio exactly when it accepted one. */
  ghost predicate Tracks(c: Capture, frames: seq<seq<byte>>)
  {
    Assemble(frames) == (c.file, c.headerWritten) && (c.hasReceivedAudio <==> frames != [])
  }

  /** The server's state: the shared capture table, the session each
      connection is bound to (`ws.sessionId`), what was sent on each
      connection, the files handed to the transcriber, and the AI turns run. */
  class SpeechServer {
    var sessions: map<string, Capture>
    var bound: map<nat, string>
    var outbox: seq<(nat, Reply)>
    var transcribed: seq<seq<byte>>
    var spokenInputs: seq<(string, string)>
    /** The frames each open capture accepted, in order. */
    ghost var received: map<string, seq<seq<byte>>>

    /** Every open capture tracks its accepted frames. */
    ghost predicate Valid()
      reads this
    {
      && sessions.Keys == received.Keys
      && (forall sid :: sid in sessions ==> Tracks(sessions[sid], received[sid]))
    }

    constructor ()
      ensures Valid()
      ensures sessions == map[] && bound == map[] && outbox == [] && transcribed == [] && spokenInputs == []
    {
      sessions := map[];
      bound := map[];
      outbox := [];
      transcribed := [];
      spokenInputs := [];
      received := map[];
    }

    /** The effect of `start` with `sid` on connection `conn`: the connection
        is bound to `sid`, any capture under `sid` is replaced by an empty
        one, and the start is acknowledged. */
    twostate predicate Started(conn: nat, sid: string)
      reads this
    {
      && bound == old(bound)[conn := sid]
      && sessions == old(sessions)[sid := Capture([], false, false)]
      && outbox == old(outbox) + [(conn, StartAck(sid))]
      && transcribed == old(transcribed) && spokenInputs == old(spokenInputs)
    }

    /** `start` with a session id. */
    method Start(conn: nat, sid: string)
      requires Valid() && sid != []
      modifies this
      ensures Valid() && Started(conn, sid)
    {
      bound := bound[conn := sid];
      sessions := sessions[sid := Capture([], false, false)];
      received := received[sid := []];
      outbox := outbox + [(conn, StartAck(sid))];
    }

    /** The effect of `stop` on connection `conn`: without a bound id or a
        capture nothing happens; otherwise the capture is removed, a capture
        without audio is refused, and a transcript is sent and handed to the
        AI turn unless it is empty or blank. `transcription` is the
        transcriber's outcome and `aiTurn` the AI turn's. */
    twostate predicate Stopped(conn: nat, transcription: Result<string, string>, aiTurn: Result<(), string>)
      reads this
    {
      && bound == old(bound)
      && (conn !in bound || bound[conn] !in old(sessions) ==>
          sessions == old(sessions) && outbox == old(outbox)
          && transcribed == old(transcribed) && spokenInputs == old(spokenInputs))
      && (conn in bound && bound[conn] in old(sessions) ==>
          var sid := bound[conn];
          var c := old(sessions)[sid];
          && sessions == old(sessions) - {sid}
          && (!c.hasReceivedAudio ==>
                outbox == old(outbox) + [(conn, Error(NoAudioMessage))]
                && transcribed == old(transcribed) && spokenInputs == old(spokenInputs))
          && (c.hasReceivedAudio ==> transcribed == old(transcribed) + [c.file])
          && (c.hasReceivedAudio && transcription.Err? ==>
                outbox == old(outbox) + [(conn, Error(ProcessingError + transcription.error))]
                && spokenInputs == old(spokenInputs))
          && (c.hasReceivedAudio && transcription.Ok? && (transcription.value == [] || transcription.value == BlankAudio) ==>
                outbox == old(outbox) + [(conn, Error(NoSpeechMessage))] && spokenInputs == old(spokenInputs))
          && (c.hasReceivedAudio && transcription.Ok? && transcription.value != [] && transcription.value != BlankAudio ==>
                var t := transcription.value;
                && spokenInputs == old(spokenInputs) + [(sid, t)]
                && outbox == old(outbox) + [(conn, Transcript(t))]
                   + (if aiTurn.Err? then [(conn, Error(ProcessingError + aiTurn.error))] else [])))
    }

    /** `stop`. The stream is ended before transcription; as the capture is
        removed at the end, only the removal is kept. */
    method Stop(conn: nat, transcription: Result<string, string>, aiTurn: Result<(), string>)
      requires Valid()
      modifies this
      ensures Valid() && Stopped(conn, transcription, aiTurn)
    {
      if conn !in bound {
        return;
      }
      var sid := bound[conn];
      if sid !in sessions {
        return;
      }
      var c := sessions[sid];
      var replies: seq<(nat, Reply)>;
      var files: seq<seq<byte>> := [];
      var spoken: seq<(string, string)> := [];
      if !c.hasReceivedAudio {
        replies := [(conn, Error(NoAudioMessage))];
      } else {
        files := [c.file];
        if transcription.Err? {
          replies := [(conn, Error(ProcessingError + transcription.error))];
        } else if transcription.value != [] && transcription.value != BlankAudio {
          var t := transcription.value;
          spoken := [(sid, t)];
          replies := [(conn, Transcript(t))];
          if aiTurn.Err? {
            replies := replies + [(conn, Error(ProcessingError + aiTurn.error))];
          }
        } else {
          replies := [(conn, Error(NoSpeechMessage))];
        }
      }
      outbox := outbox + replies;
      transcribed := transcribed + files;
      spokenInputs := spokenInputs + spoken;
      sessions := sessions - {sid};
      received := received - {sid};
    }

    /** The effect of an audio frame on connection `conn`: discarded without
        a bound id or a capture; otherwise its contribution is appended to
        the capture's file and the capture has received audio. */
    twostate predicate Appended(conn: nat, frame: seq<byte>)
      reads this
    {
      && bound == old(bound) && outbox == old(outbox)
      && transcribed == old(transcribed) && spokenInputs == old(spokenInputs)
      && (conn !in bound || bound[conn] !in old(sessions) ==> sessions == old(sessions))
      && (conn in bound && bound[conn] in old(sessions) ==>
            var sid := bound[conn];
            var c := old(sessions)[sid];
            sessions == old(sessions)[sid := c.(
              file := c.file + Contribution(frame, c.headerWritten),
              headerWritten := c.headerWritten || IsRiffFrame(frame),
              hasReceivedAudio := true)])
    }

    /** An audio frame. The source also discards a frame whose stream has
        ended, which happens only while a `stop` is awaiting the transcriber;
        here a `stop` is one step, so that state is never seen. */
    method Audio(conn: nat, frame: seq<byte>)
      requires Valid()
      modifies this
      ensures Valid() && Appended(conn, frame)
      ensures conn in bound && bound[conn] in old(sessions) ==>
        received == old(received)[bound[conn] := old(received)[bound[conn]] + [frame]]
    {
      if conn !in bound {
        return;
      }
      var sid := bound[conn];
      if sid !in sessions {
        return;
      }
      var c := sessions[sid];
      var file := c.file;
      var written := c.headerWritten;
      if IsRiffFrame(frame) {
        if !written {
          file := file + frame[..HeaderLength];
          written := true;
          file := file + frame[HeaderLength..];
        } else {
          file := file + frame[HeaderLength..];
        }
      } else {
        file := file + frame;
      }
      ghost var frames := received[sid] + [frame];
      assert frames[..|frames| - 1] == received[sid];
      assert file == c.file + Contribution(frame, c.headerWritten);
      assert Tracks(c.(file := file, headerWritten := written, hasReceivedAudio := true), frames);
      sessions := sessions[sid := c.(file := file, headerWritten := written, hasReceivedAudio := true)];
      received := received[sid := frames];
    }

    /** One incoming frame. A control candidate that parses (`parsed` is the
        parser's result, `None` when it throws) is handled as control and
        never written as audio: "start" with a session id starts, "stop"
        stops, anything else is ignored. Any other buffer goes to the audio
        path, and any other text is ignored. */
    method OnMessage(conn: nat, m: Message, parsed: Option<Control>,
                     transcription: Result<string, string>, aiTurn: Result<(), string>)
      requires Valid()
      modifies this
      ensures Valid()
      ensures ControlCandidate(m) && parsed.Some? && parsed.value.kind == "start" && parsed.value.sessionId != [] ==>
        Started(conn, parsed.value.sessionId)
      ensures ControlCandidate(m) && parsed.Some? && parsed.value.kind == "stop" ==>
        Stopped(conn, transcription, aiTurn)
      ensures ControlCandidate(m) && parsed.Some? && parsed.value.kind != "stop"
              && !(parsed.value.kind == "start" && parsed.value.sessionId != []) ==>
        && sessions == old(sessions) && bound == old(bound) && outbox == old(outbox)
        && transcribed == old(transcribed) && spokenInputs == old(spokenInputs)
      ensures !(ControlCandidate(m) && parsed.Some?) && m.Text? ==>
        && sessions == old(sessions) && bound == old(bound) && outbox == old(outbox)
        && transcribed == old(transcribed) && spokenInputs == old(spokenInputs)
      ensures !(ControlCandidate(m) && parsed.Some?) && m.Binary? ==> Appended(conn, m.bytes)
    {
      if ControlCandidate(m) && parsed.Some? {
        var data := parsed.value;
        if data.kind == "start" && data.sessionId != [] {
          Start(conn, data.sessionId);
        } else if data.kind == "stop" {
          Stop(conn, transcription, aiTurn);
        }
        return;
      }
      if m.Binary? {
        Audio(conn, m.bytes);
      }
    }

    /** Connection close: ends and removes the bound capture, without transcription. */
    method Close(conn: nat)
      requires Valid()
      modifies this
      ensures Valid() && bound == old(bound) && outbox == old(outbox)
      ensures transcribed == old(transcribed) && spokenInputs == old(spokenInputs)
      ensures conn in bound ==> sessions == old(sessions) - {bound[conn]}
      ensures conn !in bound ==> sessions == old(sessions)
    {
      if conn in bound {
        var sid := bound[conn];
        sessions := sessions - {sid};
        received := received - {sid};
      }
    }
  }
}
