/** The avatar HTTP handlers: required-field checks in front of the session
    service, the sentence chunker, and the idle / send / idle delivery loop
    that speaks a reply chunk by chunk. */
module HeygenController {
  import opened Common
  import opened Heygen
  import opened Avatar

  /** The chunker's default `max`: at most this many characters before the
      closing punctuation. */
  const MaxChunkChars: nat := 220

  /** Characters JavaScript's `.` does not match (no `s` flag). */
  predicate IsLineTerminator(c: char)
  {
    c == '\n' || c == '\r' || c == '\U{2028}' || c == '\U{2029}'
  }

  /** JavaScript's `\s`: the white space and line terminator characters. */
  predicate IsJsSpace(c: char)
  {
    || c == '\t' || c == '\n' || c == '\U{0B}' || c == '\U{0C}' || c == '\r' || c == ' '
    || c == '\U{A0}' || c == '\U{1680}' || ('\U{2000}' <= c <= '\U{200A}')
    || c == '\U{2028}' || c == '\U{2029}' || c == '\U{202F}' || c == '\U{205F}'
    || c == '\U{3000}' || c == '\U{FEFF}'
  }

  predicate IsSentenceEnd(c: char)
  {
    c == '.' || c == '!' || c == '?'
  }

  /** The pattern `(.{1,220}[.!?])(?=\s|$)` matches `s[i..e]`: one to 220
      characters that are not line terminators, then `.`, `!` or `?`, then
      white space or the end of the text. */
  predicate MatchAt(s: string, i: nat, e: nat)
  {
    && i + 2 <= e <= |s|
    && e - 1 - i <= MaxChunkChars
    && NoLineTerminator(s, i, e - 1)
    && IsSentenceEnd(s[e - 1])
    && (e == |s| || IsJsSpace(s[e]))
  }

  /** The longest match starting at `i` and ending at or before `e`: the
      greedy `.{1,220}` backtracks from its longest extent. */
  function LongestMatch(s: string, i: nat, e: nat): (r: Option<nat>)
    ensures r.Some? ==> r.value <= e && MatchAt(s, i, r.value)
    decreases e
  {
    if e < i + 2 then None
    else if MatchAt(s, i, e) then Some(e)
    else LongestMatch(s, i, e - 1)
  }

  /** No match at `i` ends beyond the one `LongestMatch` finds, up to `e`. */
  lemma {:induction false} LongestMatchIsLongest(s: string, i: nat, e: nat)
    ensures var r := LongestMatch(s, i, e);
      && (r.Some? ==> forall e': nat :: r.value < e' <= e ==> !MatchAt(s, i, e'))
      && (r.None? ==> forall e': nat :: e' <= e ==> !MatchAt(s, i, e'))
    decreases e
  {
    if e >= i + 2 && !MatchAt(s, i, e) {
      LongestMatchIsLongest(s, i, e - 1);
    }
  }

  /** The longest match at `i`, if any. */
  function MatchFrom(s: string, i: nat): (r: Option<nat>)
    ensures r.Some? ==> MatchAt(s, i, r.value)
  {
    LongestMatch(s, i, if |s| < i + MaxChunkChars + 1 then |s| else i + MaxChunkChars + 1)
  }

  /** `MatchFrom` finds the longest match at `i`, and finds one whenever one exists. */
  lemma MatchFromIsLongest(s: string, i: nat)
    ensures var r := MatchFrom(s, i);
      && (r.Some? ==> forall e': nat :: r.value < e' ==> !MatchAt(s, i, e'))
      && (r.None? ==> forall e': nat :: !MatchAt(s, i, e'))
  {
    LongestMatchIsLongest(s, i, if |s| < i + MaxChunkChars + 1 then |s| else i + MaxChunkChars + 1);
  }

  /** No character of `s[lo..hi]` is a line terminator. */
  predicate NoLineTerminator(s: string, lo: nat, hi: nat)
    requires lo <= hi <= |s|
    decreases hi - lo
  {
    lo == hi || (!IsLineTerminator(s[lo]) && NoLineTerminator(s, lo + 1, hi))
  }

  lemma {:induction false} NoLineTerminatorAt(s: string, lo: nat, hi: nat, k: nat)
    requires lo <= k < hi <= |s| && NoLineTerminator(s, lo, hi)
    ensures !IsLineTerminator(s[k])
    decreases hi - lo
  {
    if k > lo {
      NoLineTerminatorAt(s, lo + 1, hi, k);
    }
  }

  /** No match starts anywhere in `[lo, hi)`. */
  ghost predicate NoMatchIn(s: string, lo: nat, hi: nat)
  {
    forall p: nat :: lo <= p < hi ==> MatchFrom(s, p).None?
  }

  /** The spans a global match finds from `from` on: the leftmost start that
      has a match, its longest match, then the search resumes at its end. */
  function Spans(s: string, from: nat): (r: seq<(nat, nat)>)
    requires from <= |s|
    ensures forall k :: 0 <= k < |r| ==> from <= r[k].0 && MatchFrom(s, r[k].0) == Some(r[k].1)
    ensures forall k :: 0 <= k < |r| - 1 ==> r[k].1 <= r[k + 1].0
    decreases |s| - from
  {
    if from == |s| then []
    else
      match MatchFrom(s, from)
      case Some(e) => [(from, e)] + Spans(s, e)
      case None => Spans(s, from + 1)
  }

  /** A position without a match extends a match-free range downwards. */
  lemma NoMatchExtend(s: string, lo: nat, hi: nat)
    requires lo < hi && MatchFrom(s, lo).None? && NoMatchIn(s, lo + 1, hi)
    ensures NoMatchIn(s, lo, hi)
  {
  }

  /** The spans `r`, found from `from`, skip no match: none starts before
      the first span, between two spans, or after the last one. */
  ghost predicate Leftmost(s: string, from: nat, r: seq<(nat, nat)>)
  {
    && (r == [] ==> NoMatchIn(s, from, |s| + 1))
    && (r != [] ==> NoMatchIn(s, from, r[0].0) && NoMatchIn(s, r[|r| - 1].1, |s| + 1))
    && (forall k :: 0 <= k < |r| - 1 ==> NoMatchIn(s, r[k].1, r[k + 1].0))
  }

  lemma LeftmostSkip(s: string, from: nat, r: seq<(nat, nat)>)
    requires from <= |s| && MatchFrom(s, from).None? && Leftmost(s, from + 1, r)
    requires r != [] ==> from < r[0].0
    ensures Leftmost(s, from, r)
  {
    if r == [] {
      NoMatchExtend(s, from, |s| + 1);
    } else {
      NoMatchExtend(s, from, r[0].0);
    }
  }

  lemma LeftmostTake(s: string, from: nat, e: nat, t: seq<(nat, nat)>)
    requires Leftmost(s, e, t)
    ensures Leftmost(s, from, [(from, e)] + t)
  {
    var r := [(from, e)] + t;
    assert forall k :: 1 <= k < |r| ==> r[k] == t[k - 1];
  }

  /** The search skips no match. */
  lemma {:induction false} SpansLeftmost(s: string, from: nat)
    requires from <= |s|
    ensures Leftmost(s, from, Spans(s, from))
    decreases |s| - from
  {
    if from == |s| {
      assert LongestMatch(s, from, |s|).None?;
    } else if MatchFrom(s, from).None? {
      SpansLeftmost(s, from + 1);
      LeftmostSkip(s, from, Spans(s, from + 1));
    } else {
      var e := MatchFrom(s, from).value;
      SpansLeftmost(s, e);
      LeftmostTake(s, from, e, Spans(s, e));
    }
  }

  /** `splitIntoChunks`: the strings a global match of the pattern finds, or
      the whole text when it finds none (`?? [txt]`). */
  function SplitIntoChunks(txt: string): (chunks: seq<string>)
  {
    var spans := Spans(txt, 0);
    if spans == [] then [txt] else SpanTexts(txt, spans)
  }

  /** The text of each span. */
  function SpanTexts(s: string, spans: seq<(nat, nat)>): (texts: seq<string>)
    requires forall k :: 0 <= k < |spans| ==> spans[k].0 <= spans[k].1 <= |s|
    ensures |texts| == |spans|
    ensures forall k :: 0 <= k < |spans| ==> texts[k] == s[spans[k].0..spans[k].1]
  {
    if spans == [] then [] else [s[spans[0].0..spans[0].1]] + SpanTexts(s, spans[1..])
  }

  /** When the pattern matches, the chunks are the texts of the spans, in order. */
  lemma ChunksAreSpans(txt: string)
    requires Spans(txt, 0) != []
    ensures var spans := Spans(txt, 0); var chunks := SplitIntoChunks(txt);
      && |chunks| == |spans|
      && forall k :: 0 <= k < |spans| ==> chunks[k] == txt[spans[k].0..spans[k].1]
  {
  }

  /** The text of each span ends in `.`, `!` or `?`, holds 2 to 221
      characters, contains no line terminator, and is followed in the text by
      white space or the end. */
  lemma ChunkShape(txt: string, k: nat)
    requires k < |Spans(txt, 0)|
    ensures var spans := Spans(txt, 0); var c := txt[spans[k].0..spans[k].1];
      && 2 <= |c| <= MaxChunkChars + 1
      && IsSentenceEnd(c[|c| - 1])
      && (forall j :: 0 <= j < |c| ==> !IsLineTerminator(c[j]))
      && (spans[k].1 == |txt| || IsJsSpace(txt[spans[k].1]))
  {
    var spans := Spans(txt, 0);
    var i := spans[k].0;
    var e := spans[k].1;
    assert MatchFrom(txt, i) == Some(e);
    assert MatchAt(txt, i, e);
    var c := txt[i..e];
    forall j | 0 <= j < |c|
      ensures !IsLineTerminator(c[j])
    {
      if j < |c| - 1 {
        NoLineTerminatorAt(txt, i, e - 1, i + j);
      }
    }
  }

  /** Each span is the longest match at its start (the quantifier is greedy),
      so a later chunk may begin with the white space after an earlier one. */
  lemma SpansLongest(txt: string, k: nat)
    requires k < |Spans(txt, 0)|
    ensures var spans := Spans(txt, 0);
      forall e': nat :: spans[k].1 < e' ==> !MatchAt(txt, spans[k].0, e')
  {
    MatchFromIsLongest(txt, Spans(txt, 0)[k].0);
  }

  /** Coverage is not promised: when the text does not end in sentence
      punctuation, no match reaches its end. With no match at all the whole
      text is the one chunk; with at least one, every chunk is a slice ending
      before the last character, which is lost. */
  lemma TrailingTextDropped(txt: string)
    requires |txt| > 0 && !IsSentenceEnd(txt[|txt| - 1])
    ensures forall k :: 0 <= k < |Spans(txt, 0)| ==> Spans(txt, 0)[k].1 < |txt|
    ensures Spans(txt, 0) == [] ==> SplitIntoChunks(txt) == [txt]
    ensures Spans(txt, 0) != [] ==>
      var spans := Spans(txt, 0);
      && |SplitIntoChunks(txt)| == |spans|
      && forall k :: 0 <= k < |spans| ==>
           SplitIntoChunks(txt)[k] == txt[spans[k].0..spans[k].1] && spans[k].1 < |txt|
  {
    if Spans(txt, 0) != [] {
      ChunksAreSpans(txt);
    }
  }

  /** Text without `.`, `!` or `?` comes back whole as the one chunk; so does the empty text. */
  lemma NoPunctuationOneChunk(txt: string)
    requires forall j :: 0 <= j < |txt| ==> !IsSentenceEnd(txt[j])
    ensures SplitIntoChunks(txt) == [txt]
  {
    var spans := Spans(txt, 0);
    assert spans != [] ==> MatchAt(txt, spans[0].0, spans[0].1);
  }

  /** A handler's HTTP answer. */
  datatype HttpReply = HttpReply(status: int, message: string)

  /** `createHeygenSession`: a missing `avatar_name` is refused before any
      service call. Absent string fields are the empty string. */
  method CreateHandler(svc: HeygenService, avatarName: string, voiceId: string, reply: Reply, now: int)
    returns (res: HttpReply)
    requires svc.Valid()
    modifies svc
    ensures svc.Valid()
    ensures avatarName == [] ==>
      res == HttpReply(400, "Missing required parameter: avatar_name") && unchanged(svc)
    ensures avatarName != [] ==>
      (res.status == 200 <==> svc.apiKey != [] && CreateAccepted(reply))
      && (res.status != 200 ==> res == HttpReply(500, "Failed to create session"))
  {
    if avatarName == [] {
      return HttpReply(400, "Missing required parameter: avatar_name");
    }
    var info := svc.CreateSession(avatarName, voiceId, reply, now);
    if info.Err? {
      return HttpReply(500, "Failed to create session");
    }
    res := HttpReply(200, "Session created successfully");
  }

  /** `handleICECandidate`: both fields are required before the service is called. */
  method IceHandler(svc: HeygenService, sid: string, candidate: string, reply: Reply) returns (res: HttpReply)
    ensures sid == [] || candidate == [] ==>
      res == HttpReply(400, "Missing required parameters: session_id and candidate")
    ensures sid != [] && candidate != [] ==>
      (res.status == 200 <==> Accepted(reply))
      && (res.status != 200 ==> res == HttpReply(500, "Failed to handle ICE candidate"))
  {
    if sid == [] || candidate == [] {
      return HttpReply(400, "Missing required parameters: session_id and candidate");
    }
    var r := svc.HandleIce(sid, reply);
    if r.Err? {
      return HttpReply(500, "Failed to handle ICE candidate");
    }
    res := HttpReply(200, "ICE candidate handled successfully");
  }

  /** `startHeygenSession`: both fields are required before the service is called. */
  method StartHandler(svc: HeygenService, sid: string, sdp: string, reply: Reply, now: int) returns (res: HttpReply)
    requires svc.Valid()
    modifies svc
    ensures svc.Valid()
    ensures sid == [] || sdp == [] ==>
      res == HttpReply(400, "Missing required parameters: session_id and sdp") && unchanged(svc)
    ensures sid != [] && sdp != [] ==>
      (res.status == 200 <==> Accepted(reply))
      && (res.status != 200 ==> res == HttpReply(500, "Failed to start session"))
  {
    if sid == [] || sdp == [] {
      return HttpReply(400, "Missing required parameters: session_id and sdp");
    }
    var r := svc.StartSession(sid, reply, now);
    if r.Err? {
      return HttpReply(500, "Failed to start session");
    }
    res := HttpReply(200, "Session started successfully");
  }

  /** `stopHeygenSession`: `session_id` is required before the service is called. */
  method StopHandler(svc: HeygenService, sid: string, reply: Reply) returns (res: HttpReply)
    requires svc.Valid()
    modifies svc
    ensures svc.Valid()
    ensures sid == [] ==> res == HttpReply(400, "Missing required parameter: session_id") && unchanged(svc)
    ensures sid != [] ==>
      (res.status == 200 <==> Accepted(reply))
      && (res.status != 200 ==> res == HttpReply(500, "Failed to stop session"))
  {
    if sid == [] {
      return HttpReply(400, "Missing required parameter: session_id");
    }
    var r := svc.StopSession(sid, reply);
    if r.Err? {
      return HttpReply(500, "Failed to stop session");
    }
    res := HttpReply(200, "Session stopped successfully");
  }

  /** Still busy: the poll found the session and it is streaming. */
  predicate Busy(status: Option<StatusView>)
  {
    status.Some? && status.value.connectionStatus == Streaming
  }

  /** `waitUntilIdle` over the statuses its successive polls observe: it
      stops at the first poll that finds no session or a session that is not
      streaming. When every observed poll is busy it is still waiting. */
  method WaitUntilIdle(polls: seq<Option<StatusView>>) returns (idle: bool, used: nat)
    ensures used <= |polls|
    ensures forall j :: 0 <= j < used ==> Busy(polls[j])
    ensures idle ==> used < |polls| && !Busy(polls[used])
    ensures !idle ==> used == |polls|
  {
    used := 0;
    while used < |polls|
      invariant used <= |polls|
      invariant forall j :: 0 <= j < used ==> Busy(polls[j])
    {
      var status := polls[used];
      if status.None? {
        return true, used;
      }
      if status.value.connectionStatus != Streaming {
        return true, used;
      }
      used := used + 1;
    }
    idle := false;
  }

  /** A `sendText` outcome the loop can go on from: the call succeeded and
      its reply had a `data` object to destructure. */
  predicate Delivered(r: Result<Option<Payload>, Failure>)
  {
    r.Ok? && r.value.Some?
  }

  /** The delivery loop: each chunk in order is sent between two idle waits;
      the first failure stops the loop right after its send. */
  method Deliver(chunks: seq<string>, outcome: nat -> Result<Option<Payload>, Failure>)
    returns (failedAt: Option<nat>, steps: seq<Step>)
    ensures failedAt.None? ==> steps == Speech(chunks) && forall j :: 0 <= j < |chunks| ==> Delivered(outcome(j))
    ensures failedAt.Some? ==>
      var k := failedAt.value;
      && k < |chunks| && !Delivered(outcome(k))
      && steps == Speech(chunks[..k]) + [AwaitIdle, Speak(chunks[k])]
      && forall j :: 0 <= j < k ==> Delivered(outcome(j))
  {
    steps := [];
    for k := 0 to |chunks|
      invariant steps == Speech(chunks[..k])
      invariant forall j :: 0 <= j < k ==> Delivered(outcome(j))
    {
      assert chunks[..k + 1][..k] == chunks[..k];
      steps := steps + [AwaitIdle, Speak(chunks[k])];
      if !Delivered(outcome(k)) {
        return Some(k), steps;
      }
      steps := steps + [AwaitIdle];
    }
    assert chunks[..|chunks|] == chunks;
    failedAt := None;
  }

  /** `sendHeygenText`: both fields are required; with `generate_ai_response`
      the generated answer replaces the text; its chunks are then spoken in
      order, each between two idle waits, and the first failure ends the
      request with 500. `sendText` answers with its reply's `data`, which the
      loop destructures: a missing `data` fails too. `outcome(k)` is what the
      `k`th `sendText` call yields; idle waits are taken to finish. */
  method SendHeygenText(sid: string, text: string, generateAiResponse: bool,
                        aiAnswer: Result<string, string>, outcome: nat -> Result<Option<Payload>, Failure>)
    returns (res: HttpReply, spoken: string, steps: seq<Step>)
    ensures sid == [] || text == [] ==>
      res == HttpReply(400, "session_id & text required") && steps == []
    ensures sid != [] && text != [] && generateAiResponse && aiAnswer.Err? ==>
      res == HttpReply(500, "Failed to speak text") && steps == []
    ensures sid != [] && text != [] && !(generateAiResponse && aiAnswer.Err?) ==>
      spoken == (if generateAiResponse then aiAnswer.value else text)
    ensures res.status == 200 ==>
      res.message == "Avatar spoke full answer" && steps == Speech(SplitIntoChunks(spoken))
      && forall j :: 0 <= j < |SplitIntoChunks(spoken)| ==> Delivered(outcome(j))
    ensures res.status == 500 && !(generateAiResponse && aiAnswer.Err?) ==>
      var chunks := SplitIntoChunks(spoken);
      && res == HttpReply(500, "Failed to speak text")
      && exists k :: 0 <= k < |chunks| && !Delivered(outcome(k))
           && steps == Speech(chunks[..k]) + [AwaitIdle, Speak(chunks[k])]
           && forall j :: 0 <= j < k ==> Delivered(outcome(j))
    ensures res.status in {200, 400, 500}
  {
    spoken := text;
    steps := [];
    if sid == [] || text == [] {
      return HttpReply(400, "session_id & text required"), spoken, steps;
    }
    if generateAiResponse {
      if aiAnswer.Err? {
        return HttpReply(500, "Failed to speak text"), spoken, steps;
      }
      spoken := aiAnswer.value;
    }
    var chunks := SplitIntoChunks(spoken);
    var failedAt;
    failedAt, steps := Deliver(chunks, outcome);
    if failedAt.Some? {
      return HttpReply(500, "Failed to speak text"), spoken, steps;
    }
    res := HttpReply(200, "Avatar spoke full answer");
  }
}
