/** The end-of-turn segmenter of the Python speech socket: 20 ms frames of
    16-bit audio are collected from the first voiced frame on, and a turn is
    handed to transcription after 800 ms of trailing silence. The voice
    activity decision and the transcriber are inputs. */
module WsAudioServer {
  import opened Common

  const SampleRate: nat := 16000
  const ChunkMs: nat := 20
  const FrameBytes: nat := SampleRate * ChunkMs / 1000 * 2
  const EndSilMs: nat := 800

  /** The frame size works out to 640 bytes, and a turn ends on the 40th silent frame. */
  lemma FrameConstants()
    ensures FrameBytes == 640 && EndSilMs / ChunkMs == 40
  {
  }

  /** A segmenter's state: the buffered audio, the trailing silence in
      milliseconds, and whether a turn is in progress. */
  datatype Segmenter = Segmenter(buf: seq<byte>, silMs: nat, triggered: bool)

  const Fresh: Segmenter := Segmenter([], 0, false)

  /** The invariant between frames: whole frames are buffered, the silence
      counter is a multiple of 20 below 800, an idle segmenter holds nothing,
      and a turn in progress holds at least its first voiced frame. */
  ghost predicate Inv(s: Segmenter)
  {
    && |s.buf| % FrameBytes == 0
    && s.silMs % ChunkMs == 0 && s.silMs < EndSilMs
    && (!s.triggered ==> s.silMs == 0 && s.buf == [])
    && (s.triggered ==> s.buf != [])
  }

  /** One frame: the next state, and the turn handed to transcription when
      the frame ends one. A frame of the wrong size is ignored; a voiced
      frame starts a turn (dropping what was buffered) or continues it and
      clears the silence; a silent frame outside a turn changes nothing; a
      silent frame inside a turn is buffered and, at 800 ms of silence,
      flushes the turn. */
  function Feed(s: Segmenter, chunk: seq<byte>, voiced: bool): (r: (Segmenter, Option<seq<byte>>))
  {
    if |chunk| != FrameBytes then (s, None)
    else if voiced then
      (Segmenter((if s.triggered then s.buf else []) + chunk, 0, true), None)
    else if !s.triggered then (s, None)
    else if s.silMs + ChunkMs >= EndSilMs then
      (Segmenter([], 0, false), if s.buf + chunk == [] then None else Some(s.buf + chunk))
    else (Segmenter(s.buf + chunk, s.silMs + ChunkMs, true), None)
  }

  /** Every frame keeps the invariant, and a flushed turn is never empty. */
  lemma FeedKeepsInv(s: Segmenter, chunk: seq<byte>, voiced: bool)
    requires Inv(s)
    ensures Inv(Feed(s, chunk, voiced).0)
    ensures Feed(s, chunk, voiced).1.Some? ==> Feed(s, chunk, voiced).1.value != []
  {
    if |chunk| == FrameBytes {
      if voiced {
        AddFrame(if s.triggered then s.buf else [], chunk);
      } else if s.triggered && s.silMs + ChunkMs < EndSilMs {
        AddFrame(s.buf, chunk);
        assert (s.silMs + ChunkMs) % ChunkMs == 0;
      }
    }
  }

  /** Appending one frame keeps the buffer a whole number of frames. */
  lemma AddFrame(buf: seq<byte>, chunk: seq<byte>)
    requires |buf| % FrameBytes == 0 && |chunk| == FrameBytes
    ensures |buf + chunk| % FrameBytes == 0
  {
    FrameConstants();
    assert |buf + chunk| == |buf| + 640;
  }

  /** A turn is flushed exactly when a silent frame arrives inside a turn
      with 780 ms of silence already counted, and the flushed turn is all the
      buffered audio plus that frame. */
  lemma FlushWhen(s: Segmenter, chunk: seq<byte>, voiced: bool)
    requires Inv(s)
    ensures Feed(s, chunk, voiced).1.Some? <==>
      (|chunk| == FrameBytes && !voiced && s.triggered && s.silMs == EndSilMs - ChunkMs)
    ensures Feed(s, chunk, voiced).1.Some? ==> Feed(s, chunk, voiced).1.value == s.buf + chunk
  {
  }

  /** The states and flushes after a run of frames with their voice decisions. */
  function Run(s: Segmenter, chunks: seq<seq<byte>>, voiced: seq<bool>): (r: (Segmenter, seq<seq<byte>>))
    requires |chunks| == |voiced|
    decreases |chunks|
  {
    if chunks == [] then (s, [])
    else
      var step := Feed(s, chunks[0], voiced[0]);
      var rest := Run(step.0, chunks[1..], voiced[1..]);
      (rest.0, (if step.1.Some? then [step.1.value] else []) + rest.1)
  }

  /** After speech, silent frames 1 to 39 only extend the turn and count
      20 ms each; the 40th flushes the turn with all those frames. */
  lemma {:induction false} SilenceRun(s: Segmenter, chunks: seq<seq<byte>>)
    requires Inv(s) && s.triggered && s.silMs == 0
    requires |chunks| < 40 && forall k :: 0 <= k < |chunks| ==> |chunks[k]| == FrameBytes
    ensures var r := Run(s, chunks, seq(|chunks|, _ => false));
      && r.1 == []
      && r.0 == Segmenter(s.buf + Flatten(chunks), ChunkMs * |chunks|, true)
  {
    if chunks != [] {
      var n := |chunks| - 1;
      SilenceRun(s, chunks[..n]);
      RunSnoc(s, chunks[..n], seq(n, _ => false), chunks[n], false);
      assert chunks[..n] + [chunks[n]] == chunks;
      assert seq(n, _ => false) + [false] == seq(|chunks|, _ => false);
      assert (s.buf + Flatten(chunks[..n])) + chunks[n] == s.buf + Flatten(chunks);
    }
  }

  /** The 40th consecutive silent frame after speech ends the turn. */
  lemma FortiethSilentFrameFlushes(s: Segmenter, chunks: seq<seq<byte>>)
    requires Inv(s) && s.triggered && s.silMs == 0
    requires |chunks| == 40 && forall k :: 0 <= k < |chunks| ==> |chunks[k]| == FrameBytes
    ensures var r := Run(s, chunks, seq(40, _ => false));
      && r.1 == [s.buf + Flatten(chunks)]
      && r.0 == Fresh
  {
    var n := 39;
    SilenceRun(s, chunks[..n]);
    RunSnoc(s, chunks[..n], seq(n, _ => false), chunks[n], false);
    assert chunks[..n] + [chunks[n]] == chunks;
    assert seq(n, _ => false) + [false] == seq(40, _ => false);
    assert (s.buf + Flatten(chunks[..n])) + chunks[n] == s.buf + Flatten(chunks);
  }

  /** Running one more frame continues from the state the run reached. */
  lemma {:induction false} RunSnoc(s: Segmenter, chunks: seq<seq<byte>>, voiced: seq<bool>, c: seq<byte>, v: bool)
    requires |chunks| == |voiced|
    decreases |chunks|
    ensures var r := Run(s, chunks, voiced);
      var step := Feed(r.0, c, v);
      Run(s, chunks + [c], voiced + [v]) ==
        (step.0, r.1 + (if step.1.Some? then [step.1.value] else []))
  {
    if chunks == [] {
      assert chunks + [c] == [c] && voiced + [v] == [v];
      assert [c][1..] == [] && [v][1..] == [];
      var step := Feed(s, c, v);
      var extra := if step.1.Some? then [step.1.value] else [];
      assert Run(s, [c], [v]) == (step.0, extra + []);
      assert extra + [] == [] + extra;
    } else {
      var first := Feed(s, chunks[0], voiced[0]);
      var out := if first.1.Some? then [first.1.value] else [];
      var rest := Run(first.0, chunks[1..], voiced[1..]);
      var step := Feed(rest.0, c, v);
      var extra := if step.1.Some? then [step.1.value] else [];
      RunSnoc(first.0, chunks[1..], voiced[1..], c, v);
      assert (chunks + [c])[0] == chunks[0] && (voiced + [v])[0] == voiced[0];
      assert (chunks + [c])[1..] == chunks[1..] + [c];
      assert (voiced + [v])[1..] == voiced[1..] + [v];
      assert Run(s, chunks, voiced) == (rest.0, out + rest.1);
      AppendAssoc(out, rest.1, extra);
    }
  }

  /** A message sent on the socket: a final transcript. */
  datatype Sent = Final(text: string)

  /** The per-connection segmenter with the messages it sent. */
  class Stream {
    var buf: seq<byte>
    var silMs: nat
    var triggered: bool
    var sent: seq<Sent>

    function State(): Segmenter
      reads this
    {
      Segmenter(buf, silMs, triggered)
    }

    constructor ()
      ensures State() == Fresh && sent == []
    {
      buf := [];
      silMs := 0;
      triggered := false;
      sent := [];
    }

    /** Hands a non-empty buffer to transcription, sends the text as a final
        message and clears the buffer; an empty buffer sends nothing. */
    method Flush(transcribe: seq<byte> -> string)
      modifies this
      ensures silMs == old(silMs) && triggered == old(triggered) && buf == []
      ensures old(buf) == [] ==> sent == old(sent)
      ensures old(buf) != [] ==> sent == old(sent) + [Final(transcribe(old(buf)))]
    {
      if buf == [] {
        return;
      }
      var text := transcribe(buf);
      sent := sent + [Final(text)];
      buf := [];
    }

    /** One incoming frame with the voice decision for it: the state moves as
        `Feed` says, and a turn it ends is transcribed and sent. */
    method FeedFrame(chunk: seq<byte>, voiced: bool, transcribe: seq<byte> -> string)
      modifies this
      ensures State() == Feed(old(State()), chunk, voiced).0
      ensures Feed(old(State()), chunk, voiced).1.None? ==> sent == old(sent)
      ensures Feed(old(State()), chunk, voiced).1.Some? ==>
        sent == old(sent) + [Final(transcribe(Feed(old(State()), chunk, voiced).1.value))]
    {
      if |chunk| != FrameBytes {
        return;
      }
      if voiced {
        if !triggered {
          triggered := true;
          buf := [];
        }
        buf := buf + chunk;
        silMs := 0;
        return;
      }
      if triggered {
        silMs := silMs + ChunkMs;
        buf := buf + chunk;
        if silMs >= EndSilMs {
          Flush(transcribe);
          triggered := false;
          silMs := 0;
        }
      }
    }
  }
}
