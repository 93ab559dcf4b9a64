/** The streaming-avatar session registry: it creates, starts, feeds and stops
    remote avatar sessions, tracks each session's connection status, and runs
    one shared heartbeat and one shared connection monitor that stop or
    reconnect unhealthy sessions. Each remote reply is an input; time is the
    explicit `now`; each timer tick is a method call. */
module Heygen {
  import opened Common

  const MaxReconnectAttempts: nat := 3
  /** A non-streaming session is dead after this many milliseconds without activity. */
  const InactivityLimitMs: int := 30000
  /** Remote code for "session closed" on a task request. */
  const CodeSessionClosed: int := 10005
  /** Remote code that makes session creation fail. */
  const CodeCreateRefused: int := 10013

  datatype Status = Initializing | Connected | Streaming | Closed

  /** A tracked session. Fields the source leaves `undefined` until the first
      task is sent are `None`. */
  datatype Session = Session(
    startTime: int,
    lastActivity: int,
    connectionStatus: Status,
    avatarName: string,
    voiceId: string,
    streamingStartTime: Option<int>,
    estimatedDuration: Option<int>,
    lastTaskId: Option<string>)

  /** The `data` object of a reply. */
  datatype Payload = Payload(sessionId: string, taskId: Option<string>, durationMs: Option<int>)

  /** A reply body: not JSON, or a JSON object with its `code`, `message`
      (empty when absent) and `data` (absent or falsy is `None`). */
  datatype Body = NotJson | Json(code: Option<int>, message: string, data: Option<Payload>)

  /** The outcome of one `fetch`: it rejected, or a status and a body. */
  datatype Reply = FetchFailed | Response(status: int, body: Body)

  /** A thrown error: one of the service's own messages, or a runtime error
      (a rejected `fetch`, a body `response.json()` cannot parse). */
  datatype Failure = Thrown(message: string) | RuntimeError

  /** What `getSessionStatus` reports. */
  datatype StatusView = StatusView(
    connectionStatus: Status,
    lastActivity: int,
    streamingStartTime: Option<int>,
    estimatedDuration: Option<int>)

  /** `session.estimatedDuration` is truthy: present and not zero. */
  predicate HasDuration(s: Session)
  {
    s.estimatedDuration.Some? && s.estimatedDuration.value != 0
  }

  /** The monitor's stall test, in exact arithmetic: with `streamingTime`
      elapsed of an estimated `est` milliseconds, the stream has stalled when
      it has run longer than min(15000, 0.2 est) and less than 5 % of the
      estimate has elapsed. An undefined estimate makes every comparison
      false, and so does a zero one (the progress is infinite or NaN). */
  predicate StallDetected(streamingTime: int, est: Option<int>)
  {
    && est.Some? && est.value != 0
    && var e := est.value as real;
       var t := streamingTime as real;
       && t > (if 15000.0 <= e * 0.2 then 15000.0 else e * 0.2)
       && (t / e) * 100.0 < 5.0
  }

  /** For a positive estimate the stall test says: more than 15 s have
      passed and less than a twentieth of the estimate. */
  lemma StallCharacterised(streamingTime: int, est: int)
    requires est > 0
    ensures StallDetected(streamingTime, Some(est)) <==> streamingTime > 15000 && 20 * streamingTime < est
  {
    var e := est as real;
    var t := streamingTime as real;
    if 15000.0 <= e * 0.2 {
      ProgressBelowFivePercent(t, e);
    } else {
      ProgressBelowFivePercent(t, e);
      assert t > e * 0.2 && 20.0 * t < e ==> false;
    }
  }

  /** Less than 5 % progress means less than a twentieth of the estimate. */
  lemma ProgressBelowFivePercent(t: real, e: real)
    requires e > 0.0
    ensures (t / e) * 100.0 < 5.0 <==> 20.0 * t < e
  {
    var q := t / e;
    assert q * e == t;
    assert q * 100.0 < 5.0 <==> q * e * 20.0 < e;
  }

  /** A stall can only be reported for a task estimated at over five minutes. */
  lemma StallNeedsLongTask(streamingTime: int, est: int)
    requires est > 0 && StallDetected(streamingTime, Some(est))
    ensures est > 300000
  {
    StallCharacterised(streamingTime, est);
  }

  /** A reply the service accepts: it arrived, parsed, and is not a 500. */
  predicate Accepted(reply: Reply)
  {
    reply.Response? && reply.body.Json? && reply.status != 500
  }

  /** A creation reply that yields a new session. */
  predicate CreateAccepted(reply: Reply)
  {
    Accepted(reply) && reply.body.code != Some(CodeCreateRefused) && reply.body.data.Some?
  }

  /** The monitor reconnects a session that was closed remotely, or a
      streaming session that has stalled. */
  predicate NeedsReconnect(s: Session, now: int)
  {
    || s.connectionStatus == Closed
    || (s.connectionStatus == Streaming && s.streamingStartTime.Some?
        && StallDetected(now - s.streamingStartTime.value, s.estimatedDuration))
  }

  /** The reconnect counter of `sid` in `counts`, zero when it has none. */
  function CountOf(counts: map<string, int>, sid: string): int
  {
    if sid in counts then counts[sid] else 0
  }

  /** What one reconnect attempt leaves behind: the tracked sessions, the
      reconnect counters, whether the stop was attempted (which clears the
      heartbeat), and whether the attempt succeeded. */
  datatype Reconnection = Reconnection(
    sessions: map<string, Session>, counts: map<string, int>, stopTried: bool, ok: bool)

  /** `attemptReconnect` on values. At the limit, or for an untracked id,
      nothing happens. A refused stop throws with the session still tracked;
      an accepted stop followed by a refused create throws with the session
      gone; only when both succeed is the new session tracked with counter 0
      and the old id's counter raised by one. `keyed` says the API key is
      configured. */
  function Reconnect(sessions: map<string, Session>, counts: map<string, int>, keyed: bool,
                     sid: string, stopReply: Reply, createReply: Reply, now: int): Reconnection
  {
    var attempts := CountOf(counts, sid);
    if attempts >= MaxReconnectAttempts || sid !in sessions then Reconnection(sessions, counts, false, false)
    else if !Accepted(stopReply) then Reconnection(sessions, counts, true, false)
    else if !(keyed && CreateAccepted(createReply)) then Reconnection(sessions - {sid}, counts, true, false)
    else
      var s := sessions[sid];
      var newId := createReply.body.data.value.sessionId;
      Reconnection((sessions - {sid})[newId := Session(now, now, Initializing, s.avatarName, s.voiceId, None, None, None)],
                   counts[newId := 0][sid := attempts + 1], true, true)
  }

  /** The old id's counter goes up exactly when the attempt succeeds, and
      by one; counters within the limit stay within it. */
  lemma ReconnectCounts(sessions: map<string, Session>, counts: map<string, int>, keyed: bool,
                        sid: string, stopReply: Reply, createReply: Reply, now: int)
    requires forall k :: k in counts ==> 0 <= counts[k] <= MaxReconnectAttempts
    ensures var r := Reconnect(sessions, counts, keyed, sid, stopReply, createReply, now);
      && (r.ok <==> CountOf(r.counts, sid) == CountOf(counts, sid) + 1)
      && (!r.ok ==> r.counts == counts)
      && (forall k :: k in r.counts ==> 0 <= r.counts[k] <= MaxReconnectAttempts)
  {
  }

  /** A failed attempt never adds a session, and it drops the old one
      exactly when the stop was accepted. */
  lemma ReconnectFailure(sessions: map<string, Session>, counts: map<string, int>, keyed: bool,
                         sid: string, stopReply: Reply, createReply: Reply, now: int)
    ensures var r := Reconnect(sessions, counts, keyed, sid, stopReply, createReply, now);
      !r.ok ==> r.sessions == (if r.stopTried && Accepted(stopReply) then sessions - {sid} else sessions)
  {
  }

  class HeygenService {
    /** The API key; the empty string when it is not configured. */
    const apiKey: string
    var activeSessions: map<string, Session>
    var reconnectAttempts: map<string, int>
    /** The session the one live heartbeat interval watches, if any. */
    var heartbeat: Option<string>
    /** The session the one live connection monitor watches, if any. */
    var monitor: Option<string>

    /** Reconnect counters stay within the limit, and a streaming session
        knows when its stream started. */
    ghost predicate Valid()
      reads this
    {
      && (forall sid :: sid in reconnectAttempts ==> 0 <= reconnectAttempts[sid] <= MaxReconnectAttempts)
      && (forall sid :: sid in activeSessions && activeSessions[sid].connectionStatus == Streaming ==>
            activeSessions[sid].streamingStartTime.Some?)
    }

    constructor (apiKey: string)
      ensures Valid() && this.apiKey == apiKey
      ensures activeSessions == map[] && reconnectAttempts == map[]
      ensures heartbeat == None && monitor == None
    {
      this.apiKey := apiKey;
      activeSessions := map[];
      reconnectAttempts := map[];
      heartbeat := None;
      monitor := None;
    }

    /** `createSession`: tracks the new session as initializing with a zero
        reconnect counter, but only when every check passes. */
    method CreateSession(avatarName: string, voiceId: string, reply: Reply, now: int)
      returns (r: Result<Payload, Failure>)
      requires Valid()
      modifies this
      ensures Valid()
      ensures heartbeat == old(heartbeat) && monitor == old(monitor)
      ensures apiKey == [] ==> r == Err(Thrown("API key is not configured"))
      ensures apiKey != [] && reply.FetchFailed? ==> r == Err(RuntimeError)
      ensures apiKey != [] && reply.Response? && reply.body.NotJson? ==>
        r == Err(Thrown("Invalid response from Heygen API"))
      ensures (apiKey != [] && reply.Response? && reply.body.Json?
               && (reply.status == 500 || reply.body.code == Some(CodeCreateRefused))) ==>
        r == Err(Thrown(if reply.body.message != [] then reply.body.message else "Failed to create session"))
      ensures (apiKey != [] && Accepted(reply) && reply.body.code != Some(CodeCreateRefused)
               && reply.body.data.None?) ==>
        r == Err(Thrown("Invalid response format from Heygen API"))
      ensures r.Ok? <==> apiKey != [] && CreateAccepted(reply)
      ensures r.Err? ==> activeSessions == old(activeSessions) && reconnectAttempts == old(reconnectAttempts)
      ensures r.Ok? ==>
        && apiKey != [] && reply.Response? && reply.body.Json? && reply.body.data == Some(r.value)
        && activeSessions == old(activeSessions)[r.value.sessionId :=
             Session(now, now, Initializing, avatarName, voiceId, None, None, None)]
        && reconnectAttempts == old(reconnectAttempts)[r.value.sessionId := 0]
    {
      if apiKey == [] {
        return Err(Thrown("API key is not configured"));
      }
      if reply.FetchFailed? {
        return Err(RuntimeError);
      }
      if reply.body.NotJson? {
        return Err(Thrown("Invalid response from Heygen API"));
      }
      var body := reply.body;
      if reply.status == 500 || body.code == Some(CodeCreateRefused) {
        return Err(Thrown(if body.message != [] then body.message else "Failed to create session"));
      }
      if body.data.None? {
        return Err(Thrown("Invalid response format from Heygen API"));
      }
      var data := body.data.value;
      activeSessions := activeSessions[data.sessionId :=
        Session(now, now, Initializing, avatarName, voiceId, None, None, None)];
      reconnectAttempts := reconnectAttempts[data.sessionId := 0];
      r := Ok(data);
    }

    /** `startHeartbeat`: the one heartbeat slot now watches `sid`, replacing
        whatever it watched before. */
    method StartHeartbeat(sid: string)
      requires Valid()
      modifies this
      ensures Valid() && heartbeat == Some(sid)
      ensures activeSessions == old(activeSessions) && reconnectAttempts == old(reconnectAttempts)
      ensures monitor == old(monitor)
    {
      heartbeat := Some(sid);
    }

    /** `startConnectionMonitoring`: the one monitor slot now watches `sid`. */
    method StartConnectionMonitoring(sid: string)
      requires Valid()
      modifies this
      ensures Valid() && monitor == Some(sid)
      ensures activeSessions == old(activeSessions) && reconnectAttempts == old(reconnectAttempts)
      ensures heartbeat == old(heartbeat)
    {
      monitor := Some(sid);
    }

    /** `startSession`: any reply but a 500 marks a tracked session connected
        and restarts the shared heartbeat on `sid`; an untracked id is not added. */
    method StartSession(sid: string, reply: Reply, now: int) returns (r: Result<Option<Payload>, Failure>)
      requires Valid()
      modifies this
      ensures Valid()
      ensures reconnectAttempts == old(reconnectAttempts) && monitor == old(monitor)
      ensures reply.FetchFailed? || (reply.Response? && reply.body.NotJson?) ==>
        r == Err(RuntimeError) && activeSessions == old(activeSessions) && heartbeat == old(heartbeat)
      ensures reply.Response? && reply.body.Json? && reply.status == 500 ==>
        r == Err(Thrown("Failed to start session")) && activeSessions == old(activeSessions)
        && heartbeat == old(heartbeat)
      ensures reply.Response? && reply.body.Json? && reply.status != 500 ==>
        && r == Ok(reply.body.data) && heartbeat == Some(sid)
        && (sid in old(activeSessions) ==> activeSessions == old(activeSessions)[sid :=
              old(activeSessions)[sid].(connectionStatus := Connected, lastActivity := now)])
        && (sid !in old(activeSessions) ==> activeSessions == old(activeSessions))
    {
      if reply.FetchFailed? || reply.body.NotJson? {
        return Err(RuntimeError);
      }
      if reply.status == 500 {
        return Err(Thrown("Failed to start session"));
      }
      if sid in activeSessions {
        var s := activeSessions[sid];
        activeSessions := activeSessions[sid := s.(connectionStatus := Connected, lastActivity := now)];
      }
      StartHeartbeat(sid);
      r := Ok(reply.body.data);
    }

    /** `handleICE`: forwards a candidate; only a 500 is an error. No state changes. */
    method HandleIce(sid: string, reply: Reply) returns (r: Result<Body, Failure>)
      ensures reply.FetchFailed? || (reply.Response? && reply.body.NotJson?) ==> r == Err(RuntimeError)
      ensures reply.Response? && reply.body.Json? ==>
        r == (if reply.status == 500 then Err(Thrown("Failed to handle ICE candidate")) else Ok(reply.body))
    {
      if reply.FetchFailed? || reply.body.NotJson? {
        return Err(RuntimeError);
      }
      if reply.status == 500 {
        return Err(Thrown("Failed to handle ICE candidate"));
      }
      r := Ok(reply.body);
    }

    /** `sendText`: refuses untracked, closed and not-yet-connected sessions
        before any remote call; a 400 with code 10005 closes the session; any
        other reply but a 500 puts it in streaming, started now, with the
        reply's task id and estimated duration. */
    method SendText(sid: string, text: string, reply: Reply, now: int) returns (r: Result<Option<Payload>, Failure>)
      requires Valid()
      modifies this
      ensures Valid()
      ensures reconnectAttempts == old(reconnectAttempts) && heartbeat == old(heartbeat) && monitor == old(monitor)
      ensures sid !in old(activeSessions) ==>
        r == Err(Thrown("Session is not active")) && activeSessions == old(activeSessions)
      ensures sid in old(activeSessions) && old(activeSessions)[sid].connectionStatus == Closed ==>
        r == Err(Thrown("WebRTC session already closed remotely")) && activeSessions == old(activeSessions)
      ensures sid in old(activeSessions) && old(activeSessions)[sid].connectionStatus == Initializing ==>
        r == Err(Thrown("WebRTC connection is not active")) && activeSessions == old(activeSessions)
      ensures sid in old(activeSessions) && old(activeSessions)[sid].connectionStatus in {Connected, Streaming} ==>
        var s := old(activeSessions)[sid];
        && (reply.FetchFailed? || reply.body.NotJson? ==>
              r == Err(RuntimeError) && activeSessions == old(activeSessions))
        && (reply.Response? && reply.body.Json? && reply.status == 400 && reply.body.code == Some(CodeSessionClosed) ==>
              r == Err(Thrown("Session closed remotely"))
              && activeSessions == old(activeSessions)[sid := s.(connectionStatus := Closed)])
        && (reply.Response? && reply.body.Json? && reply.status == 500 ==>
              r == Err(Thrown("Failed to send text")) && activeSessions == old(activeSessions))
        && (reply.Response? && reply.body.Json? && reply.status != 500
            && !(reply.status == 400 && reply.body.code == Some(CodeSessionClosed)) ==>
              var d := reply.body.data;
              && r == Ok(d)
              && activeSessions == old(activeSessions)[sid := s.(
                   lastActivity := now,
                   lastTaskId := if d.Some? then d.value.taskId else None,
                   estimatedDuration := if d.Some? then d.value.durationMs else None,
                   connectionStatus := Streaming,
                   streamingStartTime := Some(now))])
    {
      if sid !in activeSessions {
        return Err(Thrown("Session is not active"));
      }
      var s := activeSessions[sid];
      if s.connectionStatus == Closed {
        return Err(Thrown("WebRTC session already closed remotely"));
      }
      if s.connectionStatus != Connected && s.connectionStatus != Streaming {
        return Err(Thrown("WebRTC connection is not active"));
      }
      if reply.FetchFailed? || reply.body.NotJson? {
        return Err(RuntimeError);
      }
      if reply.status == 400 && reply.body.code == Some(CodeSessionClosed) {
        activeSessions := activeSessions[sid := s.(connectionStatus := Closed)];
        return Err(Thrown("Session closed remotely"));
      }
      if reply.status == 500 {
        return Err(Thrown("Failed to send text"));
      }
      var d := reply.body.data;
      activeSessions := activeSessions[sid := s.(
        lastActivity := now,
        lastTaskId := if d.Some? then d.value.taskId else None,
        estimatedDuration := if d.Some? then d.value.durationMs else None,
        connectionStatus := Streaming,
        streamingStartTime := Some(now))];
      r := Ok(d);
    }

    /** `stopSession`: the shared heartbeat is cleared before the remote call,
        whatever its outcome; the session leaves tracking only when the reply is not a 500. */
    method StopSession(sid: string, reply: Reply) returns (r: Result<Option<Payload>, Failure>)
      requires Valid()
      modifies this
      ensures Valid() && heartbeat == None
      ensures reconnectAttempts == old(reconnectAttempts) && monitor == old(monitor)
      ensures reply.FetchFailed? || (reply.Response? && reply.body.NotJson?) ==>
        r == Err(RuntimeError) && activeSessions == old(activeSessions)
      ensures reply.Response? && reply.body.Json? && reply.status == 500 ==>
        r == Err(Thrown("Failed to stop session")) && activeSessions == old(activeSessions)
      ensures reply.Response? && reply.body.Json? && reply.status != 500 ==>
        r == Ok(reply.body.data) && activeSessions == old(activeSessions) - {sid}
    {
      heartbeat := None;
      if reply.FetchFailed? || reply.body.NotJson? {
        return Err(RuntimeError);
      }
      if reply.status == 500 {
        return Err(Thrown("Failed to stop session"));
      }
      activeSessions := activeSessions - {sid};
      r := Ok(reply.body.data);
    }

    /** `checkSessionHealth`: an untracked session is unhealthy; a streaming
        session with a duration is healthy, and once its estimate has elapsed
        it returns to connected with fresh activity; any other session is
        healthy while it was active in the last 30 s. */
    method CheckSessionHealth(sid: string, now: int) returns (healthy: bool)
      requires Valid()
      modifies this
      ensures Valid()
      ensures reconnectAttempts == old(reconnectAttempts) && heartbeat == old(heartbeat) && monitor == old(monitor)
      ensures sid !in old(activeSessions) ==> !healthy && activeSessions == old(activeSessions)
      ensures sid in old(activeSessions) ==>
        var s := old(activeSessions)[sid];
        if s.connectionStatus == Streaming && HasDuration(s) then
          && healthy
          && (now - s.streamingStartTime.value < s.estimatedDuration.value ==> activeSessions == old(activeSessions))
          && (now - s.streamingStartTime.value >= s.estimatedDuration.value ==>
                activeSessions == old(activeSessions)[sid := s.(connectionStatus := Connected, lastActivity := now)])
        else
          healthy == (now - s.lastActivity < InactivityLimitMs) && activeSessions == old(activeSessions)
    {
      if sid !in activeSessions {
        return false;
      }
      var s := activeSessions[sid];
      if s.connectionStatus == Streaming && HasDuration(s) {
        var sinceStart := now - s.streamingStartTime.value;
        if !(sinceStart < s.estimatedDuration.value) {
          activeSessions := activeSessions[sid := s.(connectionStatus := Connected, lastActivity := now)];
        }
        return true;
      }
      healthy := now - s.lastActivity < InactivityLimitMs;
    }

    /** `getSessionStatus`: the status fields of a tracked session, `None` for an untracked one. */
    function GetSessionStatus(sid: string): (r: Option<StatusView>)
      reads this
      ensures r.None? <==> sid !in activeSessions
      ensures r.Some? ==> var s := activeSessions[sid];
        r.value == StatusView(s.connectionStatus, s.lastActivity, s.streamingStartTime, s.estimatedDuration)
    {
      if sid !in activeSessions then None
      else
        var s := activeSessions[sid];
        Some(StatusView(s.connectionStatus, s.lastActivity, s.streamingStartTime, s.estimatedDuration))
    }

    /** The reconnect counter of `sid`, zero when it has none (`get(...) || 0`). */
    function Attempts(sid: string): (n: int)
      reads this
      ensures sid !in reconnectAttempts ==> n == 0
      ensures sid in reconnectAttempts ==> n == reconnectAttempts[sid]
    {
      if sid in reconnectAttempts then reconnectAttempts[sid] else 0
    }

    /** `attemptReconnect`: gives up at the attempt limit or for an untracked
        session; otherwise stops the session and creates a new one with the
        same avatar and voice, and counts the attempt against the old id only
        when both succeed. */
    method AttemptReconnect(sid: string, stopReply: Reply, createReply: Reply, now: int) returns (ok: bool)
      requires Valid()
      modifies this
      ensures Valid() && monitor == old(monitor)
      ensures old(Attempts(sid)) >= MaxReconnectAttempts || sid !in old(activeSessions) ==>
        !ok && activeSessions == old(activeSessions) && reconnectAttempts == old(reconnectAttempts)
        && heartbeat == old(heartbeat)
      ensures ok <==> (old(Attempts(sid)) < MaxReconnectAttempts && sid in old(activeSessions)
                       && Accepted(stopReply) && apiKey != [] && CreateAccepted(createReply))
      ensures ok ==> var newId := createReply.body.data.value.sessionId;
        var old_ := old(activeSessions)[sid];
        && activeSessions == (old(activeSessions) - {sid})[newId :=
             Session(now, now, Initializing, old_.avatarName, old_.voiceId, None, None, None)]
        && reconnectAttempts == old(reconnectAttempts)[newId := 0][sid := old(Attempts(sid)) + 1]
      ensures var e := Reconnect(old(activeSessions), old(reconnectAttempts), apiKey != [], sid, stopReply, createReply, now);
        && activeSessions == e.sessions && reconnectAttempts == e.counts && ok == e.ok
        && heartbeat == (if e.stopTried then None else old(heartbeat))
    {
      var attempts := Attempts(sid);
      if attempts >= MaxReconnectAttempts {
        return false;
      }
      if sid !in activeSessions {
        return false;
      }
      var session := activeSessions[sid];
      var stopped := StopSession(sid, stopReply);
      if stopped.Err? {
        return false;
      }
      var created := CreateSession(session.avatarName, session.voiceId, createReply, now);
      if created.Err? {
        return false;
      }
      reconnectAttempts := reconnectAttempts[sid := attempts + 1];
      ok := true;
    }

    /** One heartbeat tick: an unhealthy session is stopped and the heartbeat
        ends, whether or not the stop succeeds (stopping clears it first). */
    method HeartbeatTick(now: int, stopReply: Reply)
      requires Valid() && heartbeat.Some?
      modifies this
      ensures Valid() && monitor == old(monitor) && reconnectAttempts == old(reconnectAttempts)
      ensures var sid := old(heartbeat).value;
        && (sid !in old(activeSessions) ==> heartbeat == None && activeSessions == old(activeSessions))
        && (sid in old(activeSessions) ==>
              var s := old(activeSessions)[sid];
              && (s.connectionStatus == Streaming && HasDuration(s) ==>
                    && heartbeat == old(heartbeat)
                    && (now - s.streamingStartTime.value < s.estimatedDuration.value ==>
                          activeSessions == old(activeSessions))
                    && (now - s.streamingStartTime.value >= s.estimatedDuration.value ==>
                          activeSessions == old(activeSessions)[sid := s.(connectionStatus := Connected, lastActivity := now)]))
              && (!(s.connectionStatus == Streaming && HasDuration(s)) && now - s.lastActivity < InactivityLimitMs ==>
                    heartbeat == old(heartbeat) && activeSessions == old(activeSessions))
              && (!(s.connectionStatus == Streaming && HasDuration(s)) && now - s.lastActivity >= InactivityLimitMs ==>
                    && heartbeat == None
                    && activeSessions == if Accepted(stopReply) then old(activeSessions) - {sid} else old(activeSessions)))
    {
      var sid := heartbeat.value;
      var healthy := CheckSessionHealth(sid, now);
      if !healthy {
        var _ := StopSession(sid, stopReply);
        heartbeat := None;
      }
    }

    /** One connection-monitor tick: an untracked session ends the monitor;
        a closed session is reconnected; a streaming session that has stalled
        is reconnected. Anything else is left as it is. */
    method MonitorTick(now: int, stopReply: Reply, createReply: Reply)
      requires Valid() && monitor.Some?
      modifies this
      ensures Valid()
      ensures var sid := old(monitor).value;
        && (sid !in old(activeSessions) ==>
              monitor == None && activeSessions == old(activeSessions) && reconnectAttempts == old(reconnectAttempts)
              && heartbeat == old(heartbeat))
        && (sid in old(activeSessions) ==> monitor == old(monitor))
        && (sid in old(activeSessions) && !NeedsReconnect(old(activeSessions)[sid], now) ==>
              activeSessions == old(activeSessions) && reconnectAttempts == old(reconnectAttempts)
              && heartbeat == old(heartbeat))
      ensures var sid := old(monitor).value;
        sid in old(activeSessions) && NeedsReconnect(old(activeSessions)[sid], now) ==>
          var e := Reconnect(old(activeSessions), old(reconnectAttempts), apiKey != [], sid, stopReply, createReply, now);
          && activeSessions == e.sessions && reconnectAttempts == e.counts
          && heartbeat == (if e.stopTried then None else old(heartbeat))
    {
      var sid := monitor.value;
      if sid !in activeSessions {
        monitor := None;
        return;
      }
      var s := activeSessions[sid];
      if s.connectionStatus == Closed {
        var _ := AttemptReconnect(sid, stopReply, createReply, now);
        return;
      }
      if s.connectionStatus == Streaming {
        var streamingTime := now - s.streamingStartTime.value;
        if StallDetected(streamingTime, s.estimatedDuration) {
          var _ := AttemptReconnect(sid, stopReply, createReply, now);
        }
      }
    }
  }
}
