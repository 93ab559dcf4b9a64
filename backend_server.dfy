/** The Python avatar backend's HTTP handlers: a session registry mapping
    HeyGen session ids to conversations, the request checks in front of each
    remote call, and the text-to-speech proxy. The HeyGen calls are recorded
    in a log; their failures and payloads are inputs. */
module BackendServer {
  import opened Common
  import GemSdk
  import Conversation

  /** A call made to the HeyGen service. */
  datatype RemoteCall =
    | CreateSession(avatar: string, voice: string)
    | StartSession(sid: string, sdp: string)
    | AddIce(sid: string, candidate: string)
    | StopSession(sid: string)
    | SendText(sid: string, text: string)

  /** The payload of a created session, as far as it is read: the session
      id (missing when absent), the offer and the three ICE server fields. */
  datatype Payload = Payload(sessionId: Option<string>, sdp: Option<string>,
                             iceServers: Option<seq<string>>, iceServers2: Option<seq<string>>,
                             iceServersCamel: Option<seq<string>>)

  /** The JSON replies of the handlers. */
  datatype Reply =
    | Created(sid: string, sdpOffer: string, iceServers: seq<string>)
    | Accepted
    | Closed
    | Spoken(text: string)
    | Failure(status: nat, message: string)

  const MissingAvatarOrVoice: string := "HEYGEN_AVATAR_ID and HEYGEN_VOICE_ID must be set"
  const Unrecognised: string := "Un-recognised streaming.new response"
  const MissingSidOrSdp: string := "missing session_id or sdp"
  const SidRequired: string := "session_id required"
  const SessionNotFound: string := "session not found"
  /** Flask's reply to an exception escaping a handler. */
  const InternalError: string := "Internal Server Error"

  /** A string field of a JSON request: absent, `null`, or a string. */
  datatype Field = Absent | Null | Str(value: string)

  /** The stripped text of a `send_text` request: empty when absent (a
      `null` one never gets this far). */
  function Body(text: Field): (r: string)
    ensures NoEdgeSpace(r)
    ensures !text.Str? ==> r == []
    ensures text.Str? ==> |r| <= |text.value|
  {
    if text.Str? then Strip(text.value) else ""
  }

  /** Python truthiness of an optional string or list: present and non-empty. */
  predicate Truthy<T>(v: Option<seq<T>>)
  {
    v.Some? && v.value != []
  }

  /** `a or b`: the first operand when truthy, else the second. */
  function Or<T>(a: Option<seq<T>>, b: Option<seq<T>>): (r: Option<seq<T>>)
    ensures Truthy(r) <==> Truthy(a) || Truthy(b)
    ensures Truthy(a) ==> r == a
    ensures !Truthy(a) ==> r == b
  {
    if Truthy(a) then a else b
  }

  /** The ICE servers: the first truthy of the three fields, else the last. */
  function IceServers(p: Payload): (ice: Option<seq<string>>)
    ensures Truthy(ice) <==> Truthy(p.iceServers) || Truthy(p.iceServers2) || Truthy(p.iceServersCamel)
  {
    Or(Or(p.iceServers, p.iceServers2), p.iceServersCamel)
  }

  /** A truthy ICE list is the first of the three fields that is truthy. */
  lemma IceServersFirstTruthy(p: Payload)
    ensures Truthy(p.iceServers) ==> IceServers(p) == p.iceServers
    ensures !Truthy(p.iceServers) && Truthy(p.iceServers2) ==> IceServers(p) == p.iceServers2
    ensures !Truthy(p.iceServers) && !Truthy(p.iceServers2) ==> IceServers(p) == p.iceServersCamel
  {
  }

  /** The process: the registry of conversations and the calls made. */
  class Server {
    const personaPrompt: string
    var conv: map<string, Conversation.Chat>
    var calls: seq<RemoteCall>

    /** Each registered conversation is for its own session and is valid. */
    ghost predicate Valid()
      reads this, conv.Values
    {
      forall sid :: sid in conv ==> conv[sid].sid == sid && conv[sid].Valid()
    }

    constructor (personaPrompt: string)
      ensures Valid() && conv == map[] && calls == []
      ensures this.personaPrompt == personaPrompt
    {
      this.personaPrompt := personaPrompt;
      conv := map[];
      calls := [];
    }

    /** `POST /api/session`. The avatar and voice come from the body, else
        from the environment; without both the request is refused before
        any call. `created` is the remote outcome (`None` when the call
        raised). A payload without a session id raises; one without an offer
        or ICE servers is a 502 and registers nothing. Otherwise a fresh
        conversation is registered under the new id, replacing any. */
    method NewSession(bodyAvatar: Option<string>, bodyVoice: Option<string>,
                      envAvatar: Option<string>, envVoice: Option<string>,
                      created: Option<Payload>) returns (reply: Reply)
      requires Valid()
      modifies this
      ensures Valid()
      ensures var avatar := Or(bodyAvatar, envAvatar);
        var voice := Or(bodyVoice, envVoice);
        && (!Truthy(avatar) || !Truthy(voice) ==>
              reply == Failure(400, MissingAvatarOrVoice) && calls == old(calls) && conv == old(conv))
        && (Truthy(avatar) && Truthy(voice) ==>
              calls == old(calls) + [CreateSession(avatar.value, voice.value)])
      ensures reply.Created? <==>
        && Truthy(Or(bodyAvatar, envAvatar)) && Truthy(Or(bodyVoice, envVoice))
        && created.Some? && created.value.sessionId.Some?
        && Truthy(created.value.sdp) && Truthy(IceServers(created.value))
      ensures reply.Created? ==>
        && reply == Created(created.value.sessionId.value, created.value.sdp.value, IceServers(created.value).value)
        && conv.Keys == old(conv.Keys) + {reply.sid}
        && fresh(conv[reply.sid]) && conv[reply.sid].hist == [] && conv[reply.sid].script == []
        && forall sid :: sid in old(conv) && sid != reply.sid ==> conv[sid] == old(conv[sid])
      ensures !reply.Created? ==> conv == old(conv)
      ensures Truthy(Or(bodyAvatar, envAvatar)) && Truthy(Or(bodyVoice, envVoice)) && !reply.Created? ==>
        reply == (if created.None? || created.value.sessionId.None? then Failure(500, InternalError)
                  else Failure(502, Unrecognised))
    {
      var avatar := Or(bodyAvatar, envAvatar);
      var voice := Or(bodyVoice, envVoice);
      if !Truthy(avatar) || !Truthy(voice) {
        return Failure(400, MissingAvatarOrVoice);
      }
      calls := calls + [CreateSession(avatar.value, voice.value)];
      if created.None? || created.value.sessionId.None? {
        return Failure(500, InternalError);
      }
      var data := created.value;
      var sid := data.sessionId.value;
      var ice := IceServers(data);
      if !Truthy(data.sdp) || !Truthy(ice) {
        return Failure(502, Unrecognised);
      }
      var c := new Conversation.Chat(sid, personaPrompt);
      conv := conv[sid := c];
      return Created(sid, data.sdp.value, ice.value);
    }

    /** `POST /api/ice`: a missing field raises before the call; a call
        that raises is a 500. */
    method Ice(sid: Option<string>, candidate: Option<string>, raised: bool) returns (reply: Reply)
      modifies this
      ensures conv == old(conv)
      ensures sid.None? || candidate.None? ==> reply == Failure(500, InternalError) && calls == old(calls)
      ensures sid.Some? && candidate.Some? ==>
        && calls == old(calls) + [AddIce(sid.value, candidate.value)]
        && reply == (if raised then Failure(500, InternalError) else Accepted)
    {
      if sid.None? || candidate.None? {
        return Failure(500, InternalError);
      }
      calls := calls + [AddIce(sid.value, candidate.value)];
      if raised {
        return Failure(500, InternalError);
      }
      return Accepted;
    }

    /** `POST /api/start`: a missing or empty id or answer is refused before
        the call; a call that raises is a 500. */
    method Start(sid: Option<string>, sdp: Option<string>, raised: bool) returns (reply: Reply)
      modifies this
      ensures conv == old(conv)
      ensures !Truthy(sid) || !Truthy(sdp) ==> reply == Failure(400, MissingSidOrSdp) && calls == old(calls)
      ensures Truthy(sid) && Truthy(sdp) ==>
        && calls == old(calls) + [StartSession(sid.value, sdp.value)]
        && reply == (if raised then Failure(500, InternalError) else Accepted)
    {
      if !Truthy(sid) || !Truthy(sdp) {
        return Failure(400, MissingSidOrSdp);
      }
      calls := calls + [StartSession(sid.value, sdp.value)];
      if raised {
        return Failure(500, InternalError);
      }
      return Accepted;
    }

    /** `_terminate_session`: the remote stop is attempted and the
        conversation is dropped whether or not it raised. */
    method Terminate(sid: string)
      requires Valid()
      modifies this
      ensures Valid()
      ensures calls == old(calls) + [StopSession(sid)]
      ensures conv == old(conv) - {sid}
    {
      calls := calls + [StopSession(sid)];
      conv := conv - {sid};
    }

    /** `POST /api/close` (and `/api/stop`): an id is required; the session
        is terminated, and a stop that raised surfaces as a 500 after the
        conversation was dropped. */
    method Close(sid: Option<string>, raised: bool) returns (reply: Reply)
      requires Valid()
      modifies this
      ensures Valid()
      ensures !Truthy(sid) ==> reply == Failure(400, SidRequired) && calls == old(calls) && conv == old(conv)
      ensures Truthy(sid) ==>
        && calls == old(calls) + [StopSession(sid.value)]
        && conv == old(conv) - {sid.value}
        && reply == (if raised then Failure(500, InternalError) else Closed)
    {
      if !Truthy(sid) {
        return Failure(400, SidRequired);
      }
      Terminate(sid.value);
      if raised {
        return Failure(500, InternalError);
      }
      return Closed;
    }

    /** `c.send(text)` by the conversation registered under `id`, on
        stripped text that is not blank; an exception it raises is a 500. */
    method Converse(id: string, body: string, generateAi: bool,
                    ask: (seq<GemSdk.Turn>, string) -> string, llmFails: bool, pick: Option<nat>,
                    unescape: string -> string, failAt: Option<nat>)
      returns (reply: Reply, ghost said: Option<string>, ghost groups: seq<seq<string>>, ghost chunks: seq<string>)
      requires Valid() && id in conv && body != [] && NoEdgeSpace(body)
      requires pick.Some? ==> pick.value < |Conversation.Hesitations|
      modifies conv[id]
      ensures Valid()
      ensures said == Conversation.Said(old(conv[id].hist), conv[id].personaPrompt, body, generateAi, ask, llmFails, pick)
      ensures conv[id].Recorded(body, generateAi, said)
      ensures said.None? ==> reply == Failure(500, InternalError) && conv[id].script == old(conv[id].script)
      ensures said.Some? ==>
        && conv[id].script == old(conv[id].script) + Conversation.Played(chunks, failAt)
        && Conversation.ChunksOf(Conversation.CleanForTts(said.value, unescape), groups, chunks)
        && reply == (if Conversation.Interrupted(chunks, failAt) then Failure(500, InternalError)
                     else Spoken(Conversation.CleanForTts(said.value, unescape)))
    {
      var c := conv[id];
      StripNoEdge(body);
      var spoken;
      ghost var cleaned;
      spoken, said, cleaned, groups, chunks := c.Send(body, generateAi, ask, llmFails, pick, unescape, failAt);
      forall s | s in conv
        ensures conv[s].sid == s && conv[s].Valid()
      {
        if conv[s] != c {
          assert old(conv[s].Valid());
        }
      }
      if spoken.None? {
        return Failure(500, InternalError), said, groups, chunks;
      }
      return Spoken(spoken.value), said, groups, chunks;
    }

    /** `POST /api/send_text`. A request without an id raises, and so does a
        `null` text (it is stripped before the lookup); an unknown session,
        or a `null` id, is a 404. The text is stripped; a blank one has the
        fixed sentence spoken directly, without touching the conversation.
        Otherwise the conversation's `send` handles it (with the model when
        `generateAi`), and an exception it raises is a 500: the model call
        failing (`llmFails`), a hesitation on an empty answer, or the avatar
        call for chunk `failAt` failing after the chunks before it were
        spoken (`failAt` 0 is the fixed sentence's call for a blank text). */
    method Tts(sid: Field, text: Field, generateAi: bool,
               ask: (seq<GemSdk.Turn>, string) -> string, llmFails: bool, pick: Option<nat>,
               unescape: string -> string, failAt: Option<nat>)
      returns (reply: Reply, ghost said: Option<string>, ghost groups: seq<seq<string>>, ghost chunks: seq<string>)
      requires Valid()
      requires pick.Some? ==> pick.value < |Conversation.Hesitations|
      modifies this, conv.Values
      ensures Valid() && conv == old(conv)
      ensures sid.Absent? || text.Null? ==> reply == Failure(500, InternalError) && calls == old(calls)
      ensures !sid.Absent? && !text.Null? && !(sid.Str? && sid.value in conv) ==>
        reply == Failure(404, SessionNotFound) && calls == old(calls)
      ensures sid.Str? && sid.value in conv && !text.Null? && Body(text) == [] ==>
        && reply == (if failAt == Some(0) then Failure(500, InternalError) else Spoken(Conversation.EmptyTextReply))
        && calls == old(calls) + [SendText(sid.value, Conversation.EmptyTextReply)]
        && unchanged(conv[sid.value])
      ensures sid.Str? && sid.value in conv && Body(text) != [] ==>
        calls == old(calls)
      ensures sid.Str? && sid.value in conv && Body(text) != [] ==>
        var c := conv[sid.value];
        said == Conversation.Said(old(c.hist), c.personaPrompt, Body(text), generateAi, ask, llmFails, pick)
      ensures sid.Str? && sid.value in conv && Body(text) != [] ==>
        conv[sid.value].Recorded(Body(text), generateAi, said)
      ensures sid.Str? && sid.value in conv && Body(text) != [] && said.None? ==>
        reply == Failure(500, InternalError) && conv[sid.value].script == old(conv[sid.value].script)
      ensures sid.Str? && sid.value in conv && Body(text) != [] && said.Some? ==>
        && conv[sid.value].script == old(conv[sid.value].script) + Conversation.Played(chunks, failAt)
        && Conversation.ChunksOf(Conversation.CleanForTts(said.value, unescape), groups, chunks)
        && reply == (if Conversation.Interrupted(chunks, failAt) then Failure(500, InternalError)
                     else Spoken(Conversation.CleanForTts(said.value, unescape)))
      ensures forall s :: s in conv && !(sid.Str? && sid.value in conv && conv[s] == conv[sid.value]) ==>
        unchanged(conv[s])
    {
      said, groups, chunks := None, [], [];
      if sid.Absent? || text.Null? {
        return Failure(500, InternalError), said, groups, chunks;
      }
      var body := Body(text);
      if sid.Null? || sid.value !in conv {
        return Failure(404, SessionNotFound), said, groups, chunks;
      }
      var id := sid.value;
      if body == [] {
        calls := calls + [SendText(id, Conversation.EmptyTextReply)];
        if failAt == Some(0) {
          return Failure(500, InternalError), said, groups, chunks;
        }
        return Spoken(Conversation.EmptyTextReply), said, groups, chunks;
      }
      reply, said, groups, chunks := Converse(id, body, generateAi, ask, llmFails, pick, unescape, failAt);
    }
  }
}
