This project is a Dafny model of the session and turn pipeline of AI-interviewee. The pipeline sits between a browser microphone and a remote streaming avatar (HeyGen). It covers:

- **The avatar session registry** (`HeygenService`): its session map, its reconnect counters and the single heartbeat and monitor slots. It includes the health, stall and reconnection rules.
- **Sentence chunking and serial delivery to the avatar** (`heygenController.js`), and its Python twin `Conversation` (`backend/conversation.py`). The twin has the text normaliser, the 150-character sentence accumulator and the idle/speak/idle loop.
- **Audio ingest on the speech server** (`speechController.js`). It covers control/audio classification, start/stop/close, and a file that receives at most one RIFF header. Its client side is the 44-byte PCM WAVE header writer in `SpeechInput.tsx` and `audio-format-test.js`, following the RIFF WAVE form (Microsoft/IBM Multimedia Programming Interface and Data Specifications 1.0).
- **The voice-activity turn segmenter** of `ws_audio_server.py`, and the decimate-by-3, 320-sample framing queue of `pcm-downsampler.js`.
- **The smaller cores:**
  - the backend's session registry and request checks (`backend/server.py`);
  - the Gemini history window (`gemsdk.py`, `geminiService.js`);
  - the cleanup script's payload normalisation and selection parsing (`cleanup.py`);
  - the desktop backend's account rules (`auth.py`), model routing (`electronbackend/server.py`) and query rewriting (`database.py`).

There is one Dafny module per source file, plus `Common` (Option/Result, bytes, Python-style strip/split/join, decimal numerals) and `WaveFormat` (the header layout both header writers share).

Remote calls are parameters of the operations that make them: their reply values, or functions giving them. This covers HeyGen, Gemini, OpenAI, whisper, bcrypt, JWT and SQL. Wall-clock time is a `now` parameter, and every timer tick is a method call. Objects whose fields the source updates in place are classes with `modifies` clauses. Pure logic is functions with lemmas.

## Model

| member | source | states |
|---|---|---|
| Heygen.StallCharacterised | server/services/heygenService.js:133-148 | for a positive estimate, the monitor's stall test (run longer than min(15000, 0.2·est) with progress under 5 %) holds exactly when more than 15 s have passed and 20·elapsed < est |
| Heygen.ProgressBelowFivePercent | server/services/heygenService.js:135-148 | progress (elapsed/est)·100 under 5 holds exactly when 20·elapsed < est |
| Heygen.StallNeedsLongTask | server/services/heygenService.js:147-148 | a stall can be reported only for a task estimated at more than 300000 ms |
| Heygen.HeygenService.constructor | server/services/heygenService.js:5-14 | starts with no sessions, no reconnect counters and neither interval slot set |
| Heygen.HeygenService.CreateSession | server/services/heygenService.js:171-259 | a missing key, an unparsable body, a 500 or code 10013, and a reply without `data` each fail with their own error and leave both maps unchanged; success is exactly the other case, and it tracks the new id as initializing with the given avatar and voice and sets its reconnect counter to 0 |
| Heygen.HeygenService.StartHeartbeat | server/services/heygenService.js:66-88 | the single heartbeat slot now watches the given id, whatever it watched before; the sessions are unchanged |
| Heygen.HeygenService.StartConnectionMonitoring | server/services/heygenService.js:90-97 | the single monitor slot now watches the given id; the sessions and the heartbeat are unchanged |
| Heygen.HeygenService.StartSession | server/services/heygenService.js:261-309 | any parsed reply but a 500 sets a tracked session to connected with last activity `now` and points the heartbeat at the id; an untracked id is never added; a 500 or a failed fetch changes nothing |
| Heygen.HeygenService.HandleIce | server/services/heygenService.js:311-344 | only a 500 (or a failed fetch or parse) is an error; otherwise the reply body is returned; no state changes |
| Heygen.HeygenService.SendText | server/services/heygenService.js:346-430 | an untracked, closed or not-yet-connected session gets its own error with no state change; a 400 with code 10005 marks the session closed; any other non-500 reply (other 400s included) makes it streaming from `now` with the reply's task id and duration; a 500 changes nothing |
| Heygen.HeygenService.StopSession | server/services/heygenService.js:432-483 | the heartbeat slot is cleared whatever the reply; the session leaves tracking exactly when the reply is not a 500 |
| Heygen.HeygenService.CheckSessionHealth | server/services/heygenService.js:485-523 | an untracked session is unhealthy; a streaming session with a duration is healthy and, once its duration has elapsed, is reset to connected with last activity `now`; otherwise the result is `now - lastActivity < 30000` and nothing changes |
| Heygen.HeygenService.GetSessionStatus | server/services/heygenService.js:525-537 | `None` exactly for an untracked id, otherwise the session's status, last activity, stream start and estimate |
| Heygen.ReconnectCounts | server/services/heygenService.js:16-64 | the old id's counter goes up by one exactly when the reconnect succeeds, a failed attempt leaves every counter as it was, and counters within the limit of 3 stay within it |
| Heygen.ReconnectFailure | server/services/heygenService.js:37-57 | a failed reconnect adds no session, and it drops the old session exactly when its stop was accepted |
| Heygen.HeygenService.Attempts | server/services/heygenService.js:17 | the reconnect counter of the id, 0 when it has none |
| Heygen.HeygenService.AttemptReconnect | server/services/heygenService.js:16-64 | the new sessions, counters and result are those of `Heygen.Reconnect`: at the limit of 3 or for an untracked id it returns false and changes nothing, heartbeat included; a refused stop leaves the session tracked, an accepted stop with a refused create leaves it removed, both with the counters unchanged and the heartbeat cleared; it succeeds exactly when both calls succeed, and then the old session is replaced by the new one (counter 0) and the old id's counter goes up by one |
| Heygen.HeygenService.HeartbeatTick | server/services/heygenService.js:73-87 | the tick runs the health check: a streaming session with a duration keeps the heartbeat and, once its estimate has elapsed, is reset to connected with last activity `now`; an untracked session, or another session idle for 30 s, is stopped (it leaves tracking exactly when the stop reply is accepted) and the heartbeat ends whatever the stop's outcome; any other session is left unchanged with the heartbeat kept |
| Heygen.HeygenService.MonitorTick | server/services/heygenService.js:97-168 | an untracked session ends the monitor and changes nothing else; a session that is neither closed nor stalled is left as it is; a closed or stalled session gets exactly the effect of `Heygen.Reconnect` on the sessions, the counters and the heartbeat, success or failure; a tracked session keeps the monitor watching its id, even after a reconnect has removed it |
| HeygenController.LongestMatch | server/controllers/heygenController.js:13-14 | a match it finds starts at the given position, ends at or before the bound, and fits the pattern: 1 to 220 non-line-terminator characters, then `.`, `!` or `?`, then white space or the end |
| HeygenController.LongestMatchIsLongest | server/controllers/heygenController.js:13-14 | the greedy quantifier: no match at that start ends later, up to the bound; when none is found, none exists |
| HeygenController.MatchFromIsLongest | server/controllers/heygenController.js:13-14 | at any start, the match taken is the longest one, and one is found whenever the pattern matches there |
| HeygenController.Spans | server/controllers/heygenController.js:13-14 | the spans of a global match: each is the longest match at its start, and they are in order and do not overlap |
| HeygenController.SpansLeftmost | server/controllers/heygenController.js:13-14 | the global match skips no match: none starts before the first span, between two spans, or after the last |
| HeygenController.SpanTexts | server/controllers/heygenController.js:13-14 | one text per span, each exactly the span's characters |
| HeygenController.ChunksAreSpans | server/controllers/heygenController.js:13-14 | when the pattern matches, the chunks are the span texts, in order |
| HeygenController.ChunkShape | server/controllers/heygenController.js:13-14 | each chunk has 2 to 221 characters, ends in sentence punctuation, holds no line terminator, and is followed by white space or the end of the text |
| HeygenController.SpansLongest | server/controllers/heygenController.js:13-14 | each chunk is the longest match at its start, so it may run over several sentences |
| HeygenController.TrailingTextDropped | server/controllers/heygenController.js:13-14 | when the text does not end in sentence punctuation no match reaches its end; with no match at all the whole text is the one chunk (the `?? [txt]` fallback), and with at least one match every chunk is a slice ending before the last character, which is lost |
| HeygenController.NoPunctuationOneChunk | server/controllers/heygenController.js:13-14 | a text without `.`, `!` or `?`, the empty text included, is returned whole as the one chunk |
| HeygenController.CreateHandler | server/controllers/heygenController.js:37-57 | a missing avatar name gives 400 before the service is called; otherwise 200 exactly when the service's create succeeds, else 500 |
| HeygenController.IceHandler | server/controllers/heygenController.js:59-85 | a missing session id or candidate gives 400; otherwise 200 exactly when the reply is accepted, else 500 |
| HeygenController.StartHandler | server/controllers/heygenController.js:87-113 | a missing session id or SDP gives 400 with the service untouched; otherwise 200 exactly when the reply is accepted, else 500 |
| HeygenController.StopHandler | server/controllers/heygenController.js:185-211 | a missing session id gives 400 with the service untouched; otherwise 200 exactly when the reply is accepted, else 500 |
| HeygenController.WaitUntilIdle | server/controllers/heygenController.js:123-135 | the wait ends at the first poll finding no session or one that is not streaming; every earlier poll found it streaming; if every poll did, it is still waiting |
| Avatar.SpeechAt | server/controllers/heygenController.js:159-172 | in the speaking script (shared with the Python conversation) the k-th chunk is spoken at step 3k+1, between two idle waits, so sends never overlap |
| HeygenController.Deliver | server/controllers/heygenController.js:159-172 | with no failure, the steps are the full schedule and every send succeeded; otherwise the loop stopped right after the first failed send, with every earlier chunk delivered |
| HeygenController.SendHeygenText | server/controllers/heygenController.js:141-184 | a missing session id or text gives 400 and no steps; a failed answer generation gives 500 and no steps; otherwise the spoken text is the answer or the given text, 200 means every chunk was delivered in schedule order, and 500 means the schedule stopped at the first failed send |
| Conversation.FindFence | backend/conversation.py:22 | the fence found is the first one at or after the position; none is found only when there is none |
| Conversation.NoCodeBlockLeft | backend/conversation.py:95 | after fenced blocks are replaced (the lazy, dot-matches-all pattern), no two non-overlapping fences remain |
| Conversation.NextTick | backend/conversation.py:24 | the position of the first backtick at or after the given one, or the end |
| Conversation.NoTickUnchanged | backend/conversation.py:96 | text without backticks is left unchanged by the inline-code substitution |
| Conversation.FirstSpanReplaced | backend/conversation.py:96 | the leftmost backtick span with a non-empty inside becomes one space, the text before it is kept, and the rest is processed on its own |
| Conversation.SpanAtStart | backend/conversation.py:96 | a backtick span at the very start becomes one space |
| Conversation.CollapsePunctSeparates | backend/conversation.py:98 | after runs of `!`, `?` and `,` are cut to their first mark, no two of these marks are adjacent |
| Conversation.CollapsePunct | backend/conversation.py:98 | the result is no longer than the input, is empty only for empty input, and begins with the input's first character |
| Conversation.ReplaceNewlines | backend/conversation.py:99 | the same length, with every newline a space and every other character kept |
| Conversation.CollapseSpaceSeparates | backend/conversation.py:100 | after whitespace runs of two or more become one space, no two whitespace characters are adjacent |
| Conversation.CollapseSpaceKeeps | backend/conversation.py:99-100 | collapsing whitespace adds no newline and does not bring marks together |
| Conversation.CleanForTtsProperties | backend/conversation.py:90-101 | a cleaned reply has no newline, no two adjacent whitespace characters, no whitespace at either end, and no two adjacent marks, whatever the entity unescaping produced |
| Conversation.SplitCovers | backend/conversation.py:20 | the sentence pieces with the whitespace runs between them put back together give the text exactly |
| Conversation.SplitSeparatorsSpace | backend/conversation.py:20 | every separator the split consumes is a non-empty run of whitespace |
| Conversation.SplitPiecesClean | backend/conversation.py:20 | in text without edge whitespace, every piece is non-empty without edge whitespace, and every piece but the last ends with `.`, `!` or `?` |
| Conversation.SplitSingleSeparators | backend/conversation.py:20 | in text without two adjacent whitespace characters, every separator is one character |
| Conversation.SentencesKeepText | backend/conversation.py:20 | the sentences of a cleaned reply, joined with spaces, are the reply with each gap between sentences read as a space |
| Conversation.SentencesClean | backend/conversation.py:20 | the sentences of a non-empty text without edge whitespace are non-empty, without edge whitespace, and each but the last ends a sentence |
| Conversation.JoinClean | backend/conversation.py:141-146 | clean sentences joined with spaces are non-empty and have no edge whitespace, so the buffer's strip changes nothing |
| Conversation.ChunkSentences | backend/conversation.py:137-146 | for clean sentences the chunks are a grouping: the sentences cut in order into non-empty groups, each chunk its group joined with spaces, every group of two or more sentences within 150 characters, and every group after the first starting with a sentence that did not fit after the previous chunk; an empty reply gives no chunk |
| Conversation.GroupingKeepsText | backend/conversation.py:137-146 | grouping loses and adds nothing: the chunks joined with spaces are the sentences joined with spaces |
| Conversation.ChunksClean | backend/conversation.py:137-146 | clean sentences give at least one chunk, and every chunk is non-empty without edge whitespace |
| Conversation.StatusFlag | backend/conversation.py:70-74 | a truthy flag is one of the three status fields |
| Conversation.StreamingIff | backend/conversation.py:70-76 | the avatar counts as streaming exactly when the first present, non-empty field of connectionStatus, connection_status and status says "streaming"; an earlier field of another value hides a later "streaming" |
| Conversation.Idle | backend/conversation.py:61-77 | the wait ends exactly when some poll fails or reports something other than streaming, and at the first such poll; every poll before it reported streaming |
| Conversation.AddHesitation | backend/conversation.py:80-87 | without a hesitation the text is kept; with one, the opener is prefixed and the rest of the text after its first character is kept; an empty text then raises |
| Conversation.SpeechSpeaksChunks | backend/conversation.py:149-153 | the speaking script speaks exactly the chunks, in order |
| Conversation.Played | backend/conversation.py:149-153 | a script cut short by a failing avatar call has three steps per chunk before the failing one, plus the wait before it; an uncut one is the full speaking script |
| Conversation.PlayedSpeaks | backend/conversation.py:149-153 | a script cut short by a failing avatar call speaks exactly the chunks before the failing one, in order; an uncut one speaks all of them |
| Conversation.Said | backend/conversation.py:115-131 | the text `send` goes on to speak: the user's text without the model; the model's answer with any hesitation with it; nothing when the model call raises or the hesitation raises |
| Conversation.WellFormedTurn | backend/conversation.py:117-128 | recording a question, and then its answer, keeps the history well formed: every entry a question or an answer, the first a question, every answer directly after a question (a question whose answer failed can be followed by another question) |
| Conversation.StreamAnswers | backend/conversation.py:117-125 | after the question is recorded, the model is asked that question with the persona and the history before it as context |
| Conversation.Chat.constructor | backend/conversation.py:34-41 | a new conversation has the session and persona prompt, an empty history and nothing spoken |
| Conversation.Chat.Send | backend/conversation.py:104-155 | a blank text gets the fixed reply and changes nothing; without the model the history is unchanged; with it the question is recorded, and the answer (the model's, on the last 20 entries, with any hesitation) when there is one; a model call that raises or a hesitation on an empty answer is an exception with nothing spoken; otherwise the cleaned reply is split into sentences and grouped greedily into chunks (a chunk of two or more sentences fits in 150 characters, and each next chunk starts with a sentence that did not fit), each chunk is spoken between two idle waits, the chunks together read as the reply and are empty only for an empty reply, and the reply is returned unless the avatar call for a chunk raises, after the chunks before it were spoken |
| Conversation.Chat.Compose | backend/conversation.py:115-131 | the reply to speak is the `Said` choice on the history before the call; without the model the history is unchanged; with it the question is recorded, and the answer when there is one; nothing is spoken |
| Conversation.Chat.Answer | backend/conversation.py:115-128 | the question is recorded; when the model call raises there is no answer; otherwise the answer is the model's answer to the recorded question with any hesitation, and it is recorded when there is one |
| Conversation.Chat.SpeakReply | backend/conversation.py:133-153 | the reply is cleaned, split into sentences and grouped greedily into chunks (a chunk of two or more sentences fits in 150 characters, and each next chunk starts with a sentence that did not fit; the grouping `ChunkSentences` computes), which are played between idle waits, are clean, together read as the cleaned reply, and are none only for an empty reply; it completes exactly when no avatar call for a chunk raises |
| Conversation.Chat.SpeakChunks | backend/conversation.py:149-153 | the script grows by each chunk in order, between two idle waits, up to the chunk whose avatar call raises, after the wait before it; it completes exactly when no call raises; the history is unchanged |
| SpeechController.AssembleHeaderFlag | server/controllers/speechController.js:210-236 | a capture's header flag is set exactly when some accepted frame was RIFF-prefixed with at least 44 bytes |
| SpeechController.HeaderWrittenOnce | server/controllers/speechController.js:217-230 | once a header is written, every later RIFF-prefixed frame loses its first 44 bytes, so at most one header reaches the file |
| SpeechController.AssembleSnoc | server/controllers/speechController.js:200-236 | accepting a frame extends the file by that frame's contribution and sets the header flag if the frame is RIFF-prefixed |
| SpeechController.AssembleSingleRiff | server/controllers/speechController.js:217-225 | a fresh capture that accepts one RIFF-prefixed frame holds exactly that frame |
| SpeechController.AssembleAppendPlain | server/controllers/speechController.js:231-234 | after a header, a frame that is not RIFF-prefixed is appended whole |
| SpeechController.HeaderFirstRoundTrip | server/controllers/speechController.js:210-236 | a 44-byte RIFF header sent with the first block, then plain blocks, reaches the file as the header followed by every block's bytes in order |
| SpeechController.ClientRoundTrip | server/controllers/speechController.js:210-236 | what the browser recorder sends is written unchanged: its header, then all its sample bytes in order, provided no later block starts with "RIFF" |
| SpeechController.RiffLikeBlockLosesBytes | server/controllers/speechController.js:226-229 | without that proviso the round trip fails: a later block whose bytes start with "RIFF" loses 44 bytes of audio |
| SpeechController.SpeechServer.constructor | server/controllers/speechController.js:12-16 | no captures, no bound connections, and nothing sent, transcribed or handed to the AI yet |
| SpeechController.SpeechServer.Start | server/controllers/speechController.js:37-64 | binds the connection to the id, replaces any capture under that id with an empty one, and sends the acknowledgement; nothing else changes |
| SpeechController.SpeechServer.Stop | server/controllers/speechController.js:65-159 | with no bound id or no capture nothing changes; otherwise the capture is removed in every case; no audio gives the no-audio error; otherwise the file is transcribed, and a transcription error, an empty or blank transcript, or a real transcript (sent back and handed to the AI, whose failure adds a processing error) each give their own replies |
| SpeechController.SpeechServer.Audio | server/controllers/speechController.js:169-242 | a frame without a bound id or a capture is discarded; otherwise the capture's file grows by the frame's contribution, the header flag is updated and the capture has received audio; nothing is sent |
| SpeechController.SpeechServer.OnMessage | server/controllers/speechController.js:23-252 | a control candidate that parses is handled as control and never as audio: "start" with an id has exactly the effect of `Start`, "stop" exactly that of `Stop`, any other kind changes nothing; an unparsable or non-candidate text changes nothing; any other buffer has exactly the effect of `Audio` |
| SpeechController.SpeechServer.Close | server/controllers/speechController.js:255-271 | the bound capture is removed without transcription and nothing is sent; without a bound id nothing changes |
| WaveFormat.TagsSpellNames | server/tests/audio-format-test.js:26-59 | the four chunk tags are the ASCII bytes of "RIFF", "WAVE", "fmt " and "data" |
| WaveFormat.DecodeLE16Inverse | server/tests/audio-format-test.js:41-56 | the little-endian 16-bit encoding reads back as the value written |
| WaveFormat.DecodeLE32Inverse | server/tests/audio-format-test.js:29-62 | the little-endian 32-bit encoding reads back as the value written |
| WaveFormat.PcmHeaderFields | server/tests/audio-format-test.js:22-65 | every header field sits at its RIFF WAVE offset and reads back as the value written: RIFF size 36 + n, a 16-byte PCM format chunk, 1 channel, 16000 Hz, 32000 bytes/s, block align 2, 16 bits, data length n |
| WaveFormat.PcmHeaderConsistent | react-avatar-app/src/components/SpeechInput.tsx:229-239 | the header is self-consistent: byte rate = sample rate × block align, block align = channels × bits / 8, RIFF size = data length + 36 |
| WaveFormat.PcmHeaderIsRiff | react-avatar-app/src/components/SpeechInput.tsx:193-253 | every header built passes the server's RIFF test, and a frame made of a header and data splits back into them |
| WaveFormat.Store | server/tests/audio-format-test.js:26-62 | a buffer write stores exactly the given bytes at the offset and leaves every other byte unchanged |
| WaveFormat.StoreNext | react-avatar-app/src/components/SpeechInput.tsx:198-248 | successive writes of a target's slices grow the prefix of the buffer that matches the target |
| WaveFormat.PcmBytesAt | react-avatar-app/src/components/SpeechInput.tsx:253-265 | the byte view of an Int16Array reads back, two bytes at a time in two's complement, as the samples |
| AudioFormatTest.CreateWavHeader | server/tests/audio-format-test.js:22-65 | the written buffer is the PCM header for the data length; a RIFF size that does not fit in 32 bits makes the 32-bit write throw |
| AudioFormatTest.SingleHeaderFile | server/tests/audio-format-test.js:93-103 | the file is one header sized for the payload, then the payload's bytes; the header's data length equals the bytes after it |
| AudioFormatTest.ChunkedFile | server/tests/audio-format-test.js:109-129 | one header sized for three 16000-sample chunks, then the chunks in order; the header's data length equals the bytes after it |
| SpeechInput.BuildHeader | react-avatar-app/src/components/SpeechInput.tsx:193-248 | the successive DataView writes into a zeroed 44-byte buffer give the PCM header announcing 1000000 data bytes, which passes the RIFF test |
| SpeechInput.ClientHeaderFields | react-avatar-app/src/components/SpeechInput.tsx:198-248 | the client's header reads back as a 16 kHz mono 16-bit stream of 1000000 data bytes with RIFF size 1000036, and its fields are consistent |
| SpeechInput.ClientFramesSnoc | react-avatar-app/src/components/SpeechInput.tsx:193-272 | each processed block adds one frame: the header and the block for the first, the block's bytes alone after it |
| SpeechInput.ClientStream | react-avatar-app/src/components/SpeechInput.tsx:193-272 | everything a capture sends, read as one byte stream, is exactly one header followed by every block's samples in order |
| SpeechInput.StreamWith | react-avatar-app/src/components/SpeechInput.tsx:193-272 | the same holds for any header sent with the first block |
| SpeechInput.Recorder.constructor | react-avatar-app/src/components/SpeechInput.tsx:9-18 | not recording or connecting, both refs false, no socket held, nothing sent or transcribed |
| SpeechInput.Recorder.CleanupAudio | react-avatar-app/src/components/SpeechInput.tsx:20-54 | both the recording and the header flags are lowered; the React state, the socket and the messages are unchanged |
| SpeechInput.Recorder.StartRecording | react-avatar-app/src/components/SpeechInput.tsx:56-109 | a no-op while recording or connecting; otherwise connecting, with a new connecting socket held and nothing sent on it |
| SpeechInput.Recorder.OnOpen | react-avatar-app/src/components/SpeechInput.tsx:67-75 | the socket is open and the start message with the session id is sent |
| SpeechInput.Recorder.StopRecording | react-avatar-app/src/components/SpeechInput.tsx:290-308 | "stop" is sent and the socket closed only when it is held and open, otherwise nothing is sent and the socket is as it was; the socket is dropped, every flag lowered, and the transcripts are unchanged |
| SpeechInput.Recorder.OnClose | react-avatar-app/src/components/SpeechInput.tsx:96-104 | the socket is closed, nothing is sent, and recording is stopped |
| SpeechInput.Recorder.StartAudioCapture | react-avatar-app/src/components/SpeechInput.tsx:111-288 | with the microphone, recording starts with the header flag reset, so the capture has sent no frame, and the socket and messages are unchanged; without it, it has exactly the effect of `StopRecording` |
| SpeechInput.Recorder.OnMessage | react-avatar-app/src/components/SpeechInput.tsx:77-94 | an unparsable message changes nothing; a transcript is handed on and nothing else changes; otherwise `start_ack` has exactly the effect of `StartAudioCapture` (a fresh capture with the microphone, recording stopped without it), an error message exactly that of `StopRecording`, and anything else changes nothing |
| SpeechInput.Recorder.OnAudioProcess | react-avatar-app/src/components/SpeechInput.tsx:170-277 | nothing is sent unless the socket is open and recording; the first frame of a capture is the header and the block, and later frames are the block alone, so a capture sends one header |
| WsAudioServer.FrameConstants | backend/ws_audio_server.py:11-16 | a frame is 640 bytes, and a turn ends on the 40th silent 20 ms frame |
| WsAudioServer.FeedKeepsInv | backend/ws_audio_server.py:25-48 | every frame keeps the segmenter's invariant (whole frames buffered, silence a multiple of 20 below 800, nothing buffered outside a turn, a turn holding its first voiced frame), and a flushed turn is never empty |
| WsAudioServer.FlushWhen | backend/ws_audio_server.py:40-48 | a turn is flushed exactly when a 640-byte silent frame arrives inside a turn with 780 ms of silence counted, and the flushed audio is the buffer plus that frame |
| WsAudioServer.SilenceRun | backend/ws_audio_server.py:40-48 | after speech, silent frames 1 to 39 extend the turn by each frame and add 20 ms each, flushing nothing |
| WsAudioServer.FortiethSilentFrameFlushes | backend/ws_audio_server.py:40-48 | the 40th consecutive silent frame after speech flushes the whole turn and leaves a fresh segmenter |
| WsAudioServer.RunSnoc | backend/ws_audio_server.py:64-65 | a run of frames is the frames fed one at a time, with each turn flushed sent in order |
| WsAudioServer.Stream.constructor | backend/ws_audio_server.py:20-23 | a fresh segmenter: no audio, no silence, no turn, nothing sent |
| WsAudioServer.Stream.Flush | backend/ws_audio_server.py:50-57 | an empty buffer sends nothing; otherwise its transcript is sent as one final message and the buffer is cleared |
| WsAudioServer.Stream.FeedFrame | backend/ws_audio_server.py:25-48 | the segmenter moves as the frame rule says, and a turn the frame ends is transcribed and sent; otherwise nothing is sent |
| PcmDownsampler.Truncate | frontend/public/pcm-downsampler.js:15 | JavaScript's number-to-integer conversion: the integer at or below a non-negative value, at or above a negative one, within 1 |
| PcmDownsampler.ToInt16 | frontend/public/pcm-downsampler.js:12-15 | storing into an Int16Array keeps the truncated value when it is in the 16-bit range |
| PcmDownsampler.ScaleFits | frontend/public/pcm-downsampler.js:14-15 | a sample in [-1, 1] lands in the 16-bit range without wrapping and keeps its sign; 1 maps to 32767 and -1 to -32768 |
| PcmDownsampler.Downsampler.constructor | frontend/public/pcm-downsampler.js:4-8 | an empty queue and no frames posted |
| PcmDownsampler.Downsampler.Process | frontend/public/pcm-downsampler.js:9-23 | always asks to be kept alive; without input nothing changes; otherwise the old frames stay, every new frame has exactly 320 samples, fewer than 320 stay queued, and the new frames followed by the queue are the old queue followed by every third input sample, converted |
| PcmDownsampler.PostStep | frontend/public/pcm-downsampler.js:18-21 | moving 320 queued samples into a posted frame keeps the posted frames followed by the queue the same |
| BackendServer.Or | backend/server.py:22-23 | Python's `a or b`: the first operand when truthy, else the second; the result is truthy exactly when either is |
| BackendServer.IceServers | backend/server.py:35-37 | the ICE list is truthy exactly when one of the three fields is |
| BackendServer.IceServersFirstTruthy | backend/server.py:35-37 | a truthy ICE list is the first truthy field, in the order ice_servers, ice_servers2, iceServers |
| BackendServer.Server.constructor | backend/server.py:12-13 | no conversations registered and no remote calls made |
| BackendServer.Server.NewSession | backend/server.py:19-53 | avatar and voice come from the body, else the environment; without both it is a 400 before any call; a failed create or a payload without an id raises (500); a payload without offer or ICE servers is a 502 and registers nothing; a session is created exactly in the remaining case, which registers a fresh conversation under the new id and leaves the others alone |
| BackendServer.Server.Ice | backend/server.py:57-61 | a missing field raises before the call; otherwise the candidate is forwarded, and the reply is ok unless the call raised |
| BackendServer.Server.Start | backend/server.py:64-74 | a missing or empty id or answer is a 400 before any call; otherwise the answer is forwarded, and the reply is ok unless the call raised |
| BackendServer.Server.Terminate | backend/server.py:77-86 | the remote stop is attempted and the conversation dropped whether or not the stop raised |
| BackendServer.Server.Close | backend/server.py:89-96 | a missing id is a 400 with nothing done; otherwise the session is terminated, and a stop that raised is a 500 after the conversation was dropped |
| BackendServer.Server.Tts | backend/server.py:100-118 | a request without an id raises, and so does a `null` text, which is stripped before the lookup (500); an unknown or `null` id is a 404; blank text has the fixed sentence spoken without touching the conversation, a 500 when that call raises; otherwise the conversation answers the stripped text: with the model its history gains the question and then the answer when there is one, without it the history is unchanged; the reply is the cleaned text or the cleaned model answer, spoken as its sentence grouping, and a 500 when the model call raises, a hesitation falls on an empty answer, or a chunk's avatar call raises after the earlier chunks were played; no other conversation changes |
| BackendServer.Server.Converse | backend/server.py:116-117 | the registered conversation answers stripped, non-blank text: its history gains the question with the model, followed by the answer when there is one, and is unchanged without it; a 500 when no reply is chosen or a chunk's avatar call raises, with the script then the chunks played so far; otherwise the cleaned reply; the chunks are the sentence grouping of the cleaned reply; the registry stays valid |
| BackendServer.Body | backend/server.py:104 | the text `send_text` works on: stripped, so no edge white space and no longer than the field; empty for an absent field |
| GemSdk.Configure | backend/gemsdk.py:33-40 | without a truthy key, given or in the environment, construction raises; the model is the one given, else the environment's, else gemini-1.5-flash |
| GemSdk.ToGenaiAt | backend/gemsdk.py:71-85 | the conversion keeps length and order, maps "user" to "user" and every other role to "model", and carries the content as the single text part |
| GemSdk.ConvertHistory | backend/gemsdk.py:71-85 | the conversion loop yields exactly the converted history |
| GemSdk.TakeLastWindow | backend/gemsdk.py:109 | Python's `xs[-k:]`: for positive k the last min(k, n) entries; for k = 0 the whole sequence; for negative k everything from index min(-k, n) on |
| GemSdk.TurnsShape | backend/gemsdk.py:106-110 | the SDK history is the persona as the first user turn, then the last min(max_context, n) context entries converted, in order |
| GemSdk.Stream | backend/gemsdk.py:87-117 | a history that is empty or does not end with a user entry is rejected; otherwise the single reply is the model's answer to the last entry, with the turns built from the entries before it |
| GemSdk.QuestionNotInTurns | backend/gemsdk.py:99-110 | the current question is never among the turns: every context turn comes from an entry before it |
| GeminiService.JsTrimLeft | server/services/geminiService.js:55 | the result is a suffix starting with a visible character (or empty), and everything cut off is white space or a line terminator |
| GeminiService.JsTrimRight | server/services/geminiService.js:55 | the result is a prefix ending with a visible character (or empty), and everything cut off is white space or a line terminator |
| GeminiService.RecentHistoryWindow | server/services/geminiService.js:44 | the quoted history is the last three exchanges (all of them when fewer), oldest first, each as "Q: …\nA: …", joined by newlines; anything older makes no difference |
| GeminiService.NewestQuotedLast | server/services/geminiService.js:44-67 | after an exchange is remembered it is always the last one quoted |
| GeminiService.PromptEndsWithQuestion | server/services/geminiService.js:46-55 | the trimmed prompt always ends by asking the new question followed by the answer cue |
| GeminiService.PromptStartsWithPersona | server/services/geminiService.js:46-55 | the trimmed prompt starts with the persona when the persona starts with a visible character |
| GeminiService.Service.constructor | server/services/geminiService.js:15-16 | the persona prompt is kept and the memory is empty |
| GeminiService.Service.GenerateResponse | server/services/geminiService.js:42-72 | a model error is passed on and nothing is remembered; otherwise the answer is the streamed chunks joined in order and exactly one exchange (the question, the answer) is added to the memory |
| GeminiService.Create | server/services/geminiService.js:5-17 | a missing or empty key is refused with the configuration error; otherwise a service with an empty memory |
| Cleanup.Normalize | backend/cleanup.py:24-41 | every normalised entry has a truthy status |
| Cleanup.NormalizeFields | backend/cleanup.py:24-41 | a string is its own id with status "unknown", a non-object is its `str()` with status "unknown"; an object's id is the first truthy of session_id, sessionId, id, sid (the value of sid when none is), and its status the first truthy of connectionStatus, connection_status, status, else "unknown" |
| Cleanup.Live | backend/cleanup.py:54 | the kept entries are no more than the input entries, and each has a truthy id |
| Cleanup.LiveAppend | backend/cleanup.py:54 | the filter distributes over concatenation, so it keeps input order |
| Cleanup.LiveExactly | backend/cleanup.py:54 | an entry is listed exactly when it is the normalisation of an input entry and its id is truthy |
| Cleanup.LiveKeepsAll | backend/cleanup.py:54 | when every entry has a truthy id, nothing is dropped and the order is kept |
| Cleanup.ListSessionsShapes | backend/cleanup.py:51-54 | a missing `data` lists nothing; a single object lists as one entry when it has an id, else none; a null, boolean or number cannot be iterated and fails |
| Cleanup.Range | backend/cleanup.py:88 | the session numbers 1 to n in order |
| Cleanup.Picks | backend/cleanup.py:94 | no more numbers than tokens, none negative |
| Cleanup.InRange | backend/cleanup.py:96-97 | only numbers from 1 to n remain, no more than were chosen |
| Cleanup.InRangeAppend | backend/cleanup.py:96-97 | the range filter distributes over concatenation: order and duplicates are kept |
| Cleanup.InRangeKeeps | backend/cleanup.py:96-97 | a choice entirely in range is kept whole |
| Cleanup.InRangeNone | backend/cleanup.py:96-97 | with no sessions no number is in range |
| Cleanup.StopsAt | backend/cleanup.py:96-98 | the k-th stop is for the session named by the k-th in-range number |
| Cleanup.StopsLive | backend/cleanup.py:96-98 | only listed sessions, whose ids are truthy, are stopped |
| Cleanup.StopsSnoc | backend/cleanup.py:96-98 | one more chosen number adds at most its own stop, at the end |
| Cleanup.StopAll | backend/cleanup.py:87-98 | `--all` stops each listed session once, in listing order |
| Cleanup.DigitsAndCommas | backend/cleanup.py:90 | text of digits and commas is unchanged by trimming and lower-casing |
| Cleanup.DigitsSelectNotAll | backend/cleanup.py:91 | text of digits and commas never selects every session |
| Cleanup.PicksOfNumbers | backend/cleanup.py:94 | the numerals of a list of numbers parse back to that list |
| Cleanup.SelectionOfAnswer | backend/cleanup.py:90-94 | typing numbers separated by commas selects exactly those numbers, in order and with duplicates, whatever the number of sessions |
| Cleanup.StopChosen | backend/cleanup.py:96-98 | the stop loop issues exactly the stops for the chosen in-range numbers, in order |
| Cleanup.Run | backend/cleanup.py:78-98 | a listing failure ends the run; otherwise the sessions chosen by `--all` or the answer are stopped, and every stopped id is truthy |
| Auth.Validate | electronbackend/auth.py:91-104 | registration input is accepted exactly when all three fields are non-empty, the user name has at least 3 characters and the password at least 6; a missing field is reported before any length rule, and a short user name before a short password |
| Auth.FindActive | electronbackend/auth.py:154-163 | the first matching row in table order is one answer the login query may give: an active row whose user name or e-mail is the identifier, or none exactly when no row matches |
| Auth.UserById | electronbackend/auth.py:203-226 | a user is found exactly when an active row has the id, and it is that row's id, name and e-mail |
| Auth.Authorize | electronbackend/auth.py:237-262 | a header without a second word is "Invalid token format" and only then; no header or an empty second word is "Token is missing" and only then; a token that does not decode or names no active row is "Token is invalid or expired"; a user is returned exactly when the token decodes to the id of an active row, and it is that row, with the token's id |
| Auth.HeaderForms | electronbackend/auth.py:245-253 | no header gives no token; a header without a space is malformed; "scheme token" gives the token whatever the scheme |
| Auth.DoubleSpaceMissing | electronbackend/auth.py:248-253 | two spaces after the scheme leave an empty second word, so the token is reported missing |
| Auth.Users.constructor | electronbackend/auth.py:37-49 | an empty users table whose id counter is 0 |
| Auth.Users.Register | electronbackend/auth.py:87-142 | a failed check or an existing user name or e-mail changes nothing and gives its error; otherwise exactly one active row is added under the next id, and the token and user are for that row; ids, user names and e-mails stay unique |
| Auth.Users.Login | electronbackend/auth.py:147-194 | for whichever matching row the query returns: no row and a wrong password give the same error and change nothing; otherwise only that row's last login changes, to `now`, and the token and user are that row's, which matches the identifier and is active |
| Auth.LoginAfterRegister | electronbackend/auth.py:154-163 | right after registering, the only row a login by the new user name can return is the new account, unless an older account has that name as its e-mail |
| Auth.LoginAmbiguous | electronbackend/auth.py:154-163 | when an older active account's e-mail is the new user name, the query may return either that account or the new one, and nothing else; the query does not decide which logs in |
| Auth.TwoMatchesDiffer | electronbackend/auth.py:154-163 | with unique user names and e-mails, two different rows matching one identifier match it one by user name and the other by e-mail, so at most two rows match |
| ElectronServer.Route | electronbackend/server.py:47-57 | a "gpt-" name is routed to OpenAI under its own name exactly when that client exists, and is an error otherwise; a "gemini-" name stays on Gemini under its own name; any other name falls back to Gemini's default model |
| ElectronServer.PrefixesExclusive | electronbackend/server.py:49-57 | no model name starts with both "gpt-" and "gemini-", so the routing branches never overlap |
| ElectronServer.ImagePayload | electronbackend/server.py:189-193 | a data URL without a comma has no payload; anything not a data URL is its own payload; a data URL's payload is the text from its first comma up to the next comma or the end (`split(",")[1]`) |
| ElectronServer.ChatRequest | electronbackend/server.py:161-237 | the request goes to the routed client under the routed model; text and image together give a text-and-image request, an image alone an image request, text alone a text request; OpenAI receives the image as sent and Gemini its payload; it fails (Python's index error) exactly for Gemini with an image that is a data URL without a comma |
| ElectronServer.Chat | electronbackend/server.py:138-265 | a `null` text fails exactly with Python's message for stripping it; a blank text with no image is refused with 400 exactly; a "gpt-" model without the OpenAI client fails with the routing message; an answer is non-empty and is what the client gave for the routed request on the stripped text |
| ElectronServer.ScreenshotImages | electronbackend/server.py:276-285 | the image list is sent when non-empty, else the single image wrapped; nothing is sent exactly when both are absent |
| ElectronServer.ScreenshotPrompt | electronbackend/server.py:292-295 | one image gets the singular prompt; any other count is written out between the fixed head and tail of the plural prompt |
| ElectronServer.Screenshot | electronbackend/server.py:276-331 | no images at all is refused with 400 exactly; a "gpt-" model without the OpenAI client is a 500 with the routing message; a solution is what the client gave for the routed images and the prompt for their count, the request naming the model for OpenAI and none for the Gemini client |
| ElectronServer.Buffering | electronbackend/server.py:67-73 | the reply is buffered exactly when the conversation gave no or empty text, and then the spoken text is empty; otherwise it is the conversation's reply |
| ElectronServer.SendText | electronbackend/server.py:62-67 | the answer is `Buffering` of the conversation's reply to the stripped text; a `null` text is the empty string |
| Database.FormatQuery | electronbackend/database.py:198-206 | in SQLite mode the query is returned unchanged; in PostgreSQL mode no "?" is left |
| Database.ReplaceAbsent | electronbackend/database.py:202-205 | `str.replace` leaves a text without the pattern unchanged |
| Database.ReplaceAbsentHead | electronbackend/database.py:202-205 | a text without the pattern's first character is unchanged |
| Database.ReplaceKeepsAbsent | electronbackend/database.py:202-205 | a character in neither the text nor the replacement does not appear in the result |
| Database.ReplaceRemovesChar | electronbackend/database.py:202 | replacing a one-character pattern by text without it leaves no occurrence of that character |
| Database.FormatUnchanged | electronbackend/database.py:198-206 | a query holding none of the four patterns is unchanged in either mode |
| Database.SkipPrefix | electronbackend/database.py:202-205 | where the pattern does not start, the scan copies the text unchanged up to the first occurrence |
| Database.RemoveInner | electronbackend/database.py:203 | removing AUTOINCREMENT once from its own nesting leaves AUTOINCREMENT |
| Database.SinglePass | electronbackend/database.py:198-206 | each replacement is a single pass: a nested AUTOINCREMENT survives formatting |

## Left out

- Network traffic (HeyGen, Gemini and OpenAI over HTTP, and WebSocket transport): each remote reply is an input value or a function parameter, so retries inside client libraries, time-outs and partial reads are not modelled.
- Timers and concurrency: `setInterval`/`setTimeout`, interleaving between the heartbeat, the monitor and request handlers, the Python lock and the asyncio loop. Each timer tick is one method call with the time as `now`, and calls never overlap.
- Floating point: the browser's Float32 to Int16 scaling (`SpeechInput.tsx`) is not modelled, and the component takes 16-bit sample blocks. The worklet's scaling is modelled on exact reals, which agrees with the JavaScript doubles because a Float32 sample times 0x8000 or 0x7FFF is exact. The speaking-duration estimate, the sine test audio and the image resizing are left out.
- Foreign programs and libraries are inputs: whisper (the transcript), webrtcvad (one voiced flag per frame), `html.unescape`, bcrypt (the hash and the password check), JWT (signing is not modelled; decoding gives the user id of a valid, unexpired token), SQLite and psycopg2 (the users table is a sequence of rows; query execution is not modelled), PIL and base64 decoding.
- File I/O: the speech server's temp file is the sequence of bytes written to it; creating, flushing and deleting it are not modelled.
- Randomness: the hesitation prefix's random choice is the `pick` parameter of `Conversation.AddHesitation`.
- Persona prompts (`persona.py`, `persona.js`) are not part of this model; the prompt text is a parameter.
- JSON: requests and replies are the fields the code reads, and a field holding a non-string value is not modelled. `null` is modelled where it differs from an absent field: in `/api/send_text` (`BackendServer.Server.Tts`) a `null` text raises before the lookup and a `null` id is an unknown session; in `/api/chat` (`ElectronServer.Chat`) a `null` text fails with Python's message. Elsewhere the code tests truthiness or falls back with `or`, so a `null` field acts as an absent one. Not modelled: a `null` `model` in `/api/chat` or `/api/screenshot`, which raises on `startswith`, and a `null` field in `/api/ice`, which the source forwards to HeyGen while the model treats it as missing (the call raises before it is made).
- `geminiService.initialize` (a warm-up call whose answer is discarded) and the module-level key check of the desktop backend are not modelled.
- `PAD_SEC` in `ws_audio_server.py` is declared but never used.
- HeygenController.CreateHandler: the "No session info received" 500 cannot arise, because a successful `createSession` always returns its `data` object; the model has only the "Failed to create session" 500.
- HeygenController.WaitUntilIdle: the endless polling loop reads a finite list of observed statuses; running out of them means still waiting, so the model proves what holds when it returns, not that it returns.
- Heygen.StallCharacterised: the stall test uses exact rationals, not IEEE doubles; for the millisecond values in use the comparison is the same.
- Cleanup.DigitsAndCommas: digits are the ASCII digits. Python's `str.isdigit` also accepts other Unicode digits (such as superscripts), on which `int()` then raises; that crash is not modelled.
- HeygenController.LongestMatch: lengths and positions count Unicode scalar values (Dafny characters), while the JavaScript regular expression counts UTF-16 code units, so a character outside the Basic Multilingual Plane, such as an emoji, counts once here and twice in the source; the 220-character bound and the chunk positions agree only on text without such characters.
- Conversation.AddHesitation: the first character is lower-cased by ASCII only, while Python's `str.lower` is full Unicode: a non-ASCII capital such as 'É' is kept here, and 'İ' becomes two characters in Python, so the stated length `|opener| + |text|` holds for the model and for text whose first character is ASCII or has a one-character lower case.
- Common.Lower: lower-casing maps only ASCII capitals, which is all the selection parser's accepted words need.
- Auth.Users.Register: the "Registration failed" answer on a database exception is not modelled, nor the creation time column.
- Auth.Users.Login: the "Login failed" answer on a database exception is not modelled; the token's expiry is not part of the token.
- SpeechController.SpeechServer.Audio: the source also discards a frame whose file stream has ended, which happens only while a `stop` awaits the transcriber; a `stop` here is one step, so that interleaving is not modelled.
- SpeechController.SpeechServer.OnMessage: the outer "Error processing message" and "Failed to process audio" answers on an exception, and the failures of the temp-file cleanup, are not modelled.
- SpeechInput.Recorder.OnClose: the socket is modelled as closed at once; the browser's intermediate closing state is not modelled.
- Database.FormatQuery: its contract states the SQLite case and the absence of "?" in the PostgreSQL case; the full effect of the four replacements is stated by the lemmas about `ReplaceAll` (`Database.FormatUnchanged`, `Database.SinglePass`).
- Thin wrappers, UI components and scripts: `speechService.js`, `chatController.js`, `openai_client.py`, `heygensdk.py`, the dashboard, the Electron shell, the tab-audio hooks, the test and development scripts. The desktop backend's `/api/avatar_state`, `/api/check_accumulated`, `/api/interrupt` and `/api/test_gemini` endpoints only forward to the conversation or the model and are not modelled.
