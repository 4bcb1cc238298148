# open-voice-pipeline, modelled in Dafny

This project models the core of open-voice-pipeline, a voice agent server.
Each turn of a conversation runs speech to text (Gemini), a streamed
language-model answer (a Runpod OpenAI-compatible endpoint) and speech
synthesis (a Coqui XTTS service). It has two front ends: a WebSocket session,
and three HTTP endpoints (`/api/stt`, `/api/tts`, `/api/voice`).

There is one module per source file:

- `text.dfy` (`Text`): the string helpers the source takes from Python, such as `str.strip()` over Python's whitespace set, `str.lower()`, `" ".join` and `b"".join`.
- `events.dfy` (`Events`): the event records of `transport/dto.py` and the provider records.
- `chunker.dfy` (`Chunker`, `ChunkerExamples`): `split_text_into_chunks`, with its two regular expressions written out as they run.
- `tts.dfy` (`CoquiTts`): the chunk loop of `CoquiTTSProvider.stream_speech`.
- `pipeline.dfy` (`Orchestrator`): `VoicePipeline`, the turn state machine and its sentence buffer.
- `session.dfy` (`Session`): `VoiceWebSocketServer`, covering the message loop, `_process_audio` and `_send_event`.
- `runpod.dfy` (`RunpodLlm`): `RunpodLLMProvider.stream_response`, covering the request, the line buffer and the final sentinel.
- `gemini.dfy` (`GeminiStt`): `GeminiSTTProvider.stream`, `_transcribe_audio` and `_extract_transcript`.
- `routes.dfy` (`Routes`): the three HTTP endpoints.

Providers, servers and codecs are inputs:

- A provider's output is the sequence it yields plus whether it then raises: `Run`, `Answer`, `Streamed`.
- An HTTP server is a function from the request to its reply.
- `json.loads` and base64 are given functions.
- The WebSocket is a `Socket` object that records every message sent. It stays connected for its first `live` connectivity checks.
- `interrupt()` calls from the other side arrive through an oracle: `arrives(c)` says whether one has landed by the `c`-th read of the flag.
- Whether a cancelled task has finished by a check is a boolean parameter.

Stateful code is modelled as classes whose methods state their whole new state:

- `VoicePipeline` and its `interrupted` field.
- `VoiceSession` and its `mode`, buffer, recording flag and task. Its message loop is proved against a specification: the step function `Session.Next` with the replies `Session.Replies`, and their fold over the messages, `Session.StateAfter` and `Session.RepliesUpTo`.
- `Socket` and its sent messages.

Loops become `while` loops with invariants, proved against the same kind of functions:

- the SSE line buffer;
- the audio accumulation in the STT provider;
- the folds of the HTTP endpoints.

## Model

| member | source | states |
|---|---|---|
| Events.TagIdentifiesKind | voice_pipeline/transport/dto.py:1-50 | The four `type` tags tell the four event kinds apart: two events have the same tag exactly when they are of the same kind. |
| Text.StripEmpty | voice_pipeline/llm/runpod.py:19 | `strip()` leaves nothing exactly when the text is all whitespace (the "blank" test used throughout). |
| Chunker.DotReach | voice_pipeline/tts/coqui.py:32 | `.{0,m}` covers at most `m` characters, never a newline, and stops early only at a newline or at the end of the text. |
| Chunker.Backtrack | voice_pipeline/tts/coqui.py:32 | Giving back characters of `.{0,m}` one at a time only ever yields a real match of the pattern starting at the given position. |
| Chunker.MatchAt | voice_pipeline/tts/coqui.py:32 | A match found at a position is a match of `.{0,m}` followed by the tail (a terminator and `\s+`, or `\s+`) starting there. |
| Chunker.SearchFrom | voice_pipeline/tts/coqui.py:32 | `re.search` returns the leftmost match: none starts earlier, and when there is none, no position matches. |
| Chunker.Search | voice_pipeline/tts/coqui.py:41 | The search result is a match of the pattern at its start position. |
| Chunker.BacktrackFinds | voice_pipeline/tts/coqui.py:32 | Completeness of backtracking: if the tail fits after some shorter run of dots, a match is found. |
| Chunker.MatchAtFinds | voice_pipeline/tts/coqui.py:32 | Completeness at a position: a tail within reach of `.{0,m}` is always found. |
| Chunker.DotReachCovers | voice_pipeline/tts/coqui.py:32 | Every newline-free stretch of at most `m` characters is within the greedy reach. |
| Chunker.WordSearchIffSpace | voice_pipeline/tts/coqui.py:41 | The word pattern matches exactly when the text contains whitespace somewhere. |
| Chunker.WordMatchStartsOnSpaceOnlyAtZero | voice_pipeline/tts/coqui.py:41-44 | A word match can start on whitespace only at index 0. |
| Chunker.SentenceCutFacts | voice_pipeline/tts/coqui.py:32-37 | A sentence-branch chunk is non-empty, at most `max_length + 1` long, and ends with `.`, `!` or `?`. |
| Chunker.WordCutFacts | voice_pipeline/tts/coqui.py:41-46 | A word-branch chunk is at most `max_length` long; it is empty only when the text starts with whitespace. |
| Chunker.CutOnce | voice_pipeline/tts/coqui.py:30-53 | One iteration shortens `remaining`, leaves both pieces stripped and keeps the length bounds. A forced cut is exactly `max_length` long and happens only when the text holds no whitespace at all. |
| Chunker.CutOnceBranches | voice_pipeline/tts/coqui.py:31-53 | Branch priority: the sentence split when it matches; else the word split; else the forced cut. |
| Chunker.SplitLoopStep | voice_pipeline/tts/coqui.py:30-53 | The loop appends an iteration's chunk only when it is non-empty, then goes on with the new `remaining`. |
| Chunker.SplitLoopClean | voice_pipeline/tts/coqui.py:30-56 | Every chunk the loop appends is non-empty, stripped and within the length bounds. |
| Chunker.SplitTextIntoChunks | voice_pipeline/tts/coqui.py:18-58 | The loop computes `Split`. A short text comes back as `[text]`, unstripped. A long one gives only non-empty, stripped chunks within the bounds. |
| Chunker.CutKeepsText | voice_pipeline/tts/coqui.py:35 | Cutting a text at one place and stripping both sides loses nothing but whitespace. |
| Chunker.SentenceCut | voice_pipeline/tts/coqui.py:32-37 | The corrected sentence branch: a stripped, non-empty chunk of at most `max_length + 1` characters ending in a terminator, with nothing lost but whitespace. |
| Chunker.WordCut | voice_pipeline/tts/coqui.py:41-46 | The corrected word branch: a stripped chunk of at most `max_length` characters, with nothing lost but whitespace. |
| Chunker.ForcedCut | voice_pipeline/tts/coqui.py:49-53 | The corrected forced cut: `max_length` characters with no whitespace among the first `max_length + 1`, with nothing lost. |
| Chunker.CutAnchored | voice_pipeline/tts/coqui.py:31-53 | The corrected iteration (match anchored at 0): the same bounds as `CutOnce`, and the two pieces keep all the text up to whitespace. |
| Chunker.SplitAnchoredKeepsText | voice_pipeline/tts/coqui.py:30-56 | The corrected split keeps every non-whitespace character of the text, in order. |
| Chunker.SplitAnchoredSpaced | voice_pipeline/tts/coqui.py:30-56 | The corrected split keeps the text as it is: its chunks are slices of the text, in order, with only whitespace before, between and after them. |
| Chunker.SpacedWiden | voice_pipeline/tts/coqui.py:35 | Whitespace added on either side of a text made of chunks and whitespace keeps it so. |
| Chunker.SpacedHalves | voice_pipeline/tts/coqui.py:32-37 | Cutting a text in two and stripping both halves yields the first half's chunk followed by the second half's chunks, with only whitespace between. |
| Chunker.SkipChunk | voice_pipeline/tts/coqui.py:35 | When a match starts at index 0 of a text that starts on a non-space, skipping `len(chunk)` characters and stripping lands where skipping the whole match does. |
| Chunker.CutOnceAnchored | voice_pipeline/tts/coqui.py:30-53 | When the loop's match starts at index 0 of a `remaining` that starts on a non-space, the iteration as written and the corrected one cut the same chunk and leave the same rest. |
| Chunker.SplitLoopAnchored | voice_pipeline/tts/coqui.py:30-56 | When every iteration is anchored in that way, the loop as written produces the corrected chunks. |
| Chunker.SplitKeepsTextWhenAnchored | voice_pipeline/tts/coqui.py:18-58 | The split as written equals the corrected split on such a text, so it keeps the text as it is: its chunks in order with only whitespace between. |
| Chunker.SplitAnchoredClean | voice_pipeline/tts/coqui.py:24-56 | The corrected split returns `[text]` for a short text; otherwise every chunk is non-empty, stripped and within the bounds. |
| ChunkerExamples.SplitLosesText | voice_pipeline/tts/coqui.py:35 | As written, `("ab c. d", 1)` gives `["c.", "c.", "d"]`: `ab` is lost and `c.` is repeated. |
| ChunkerExamples.GreetingSearch | voice_pipeline/tts/coqui.py:32 | On `"Hello world. How are you?"` with at most 12 characters, the greedy `.{0,12}` backtracks one character and the sentence pattern matches `"Hello world. "` at index 0. |
| ChunkerExamples.GreetingSplit | voice_pipeline/tts/coqui.py:18-58 | `("Hello world. How are you?", 12)` gives `["Hello world.", "How are you?"]`. |
| ChunkerExamples.GreetingKept | voice_pipeline/tts/coqui.py:18-58 | The greeting is an anchored text, so its split as written keeps it: the two sentences with only whitespace around them. |
| CoquiTts.FirstFailure | voice_pipeline/tts/coqui.py:78-135 | The index of the first chunk whose request fails: every earlier request succeeded. |
| CoquiTts.Yielded | voice_pipeline/tts/coqui.py:111-119 | Every chunk yielded is final and non-empty, and there is at most one per text chunk. |
| CoquiTts.YieldedKeepsAudio | voice_pipeline/tts/coqui.py:103-119 | The audio yielded, back to back, is all the audio received, in chunk order. |
| CoquiTts.YieldedCount | voice_pipeline/tts/coqui.py:111-119 | Exactly one audio chunk is yielded per text chunk whose response is non-empty; empty responses are skipped. |
| CoquiTts.Gather | voice_pipeline/tts/coqui.py:99-106 | The accumulated `bytearray` is the HTTP chunks back to back. |
| CoquiTts.StreamSpeech | voice_pipeline/tts/coqui.py:64-135 | No service URL gives the URL error and nothing else. Otherwise it yields the audio of each chunk in order up to the first failed request, then reports that request's error (connect or status). |
| Orchestrator.TermRunEnd | voice_pipeline/pipeline.py:16 | `[.!?]+` greedily stops only at the end of the text or at a character that is not a terminator. |
| Orchestrator.TermRunAll | voice_pipeline/pipeline.py:16 | Everything the greedy `[.!?]+` takes is a terminator, so it takes the longest run. |
| Text.SpaceRunBlank | voice_pipeline/pipeline.py:16 | Everything the greedy `\s+` takes is whitespace. |
| Orchestrator.GiveBackOnlyAtRunEnd | voice_pipeline/pipeline.py:16 | Backtracking inside `[.!?]+` never helps: `\s+` can only follow the whole run. |
| Orchestrator.PatternAtRun | voice_pipeline/pipeline.py:16 | The pattern matches at a position exactly when a run of terminators starts there and whitespace follows it. The `\.{3}\s+` alternative adds nothing. |
| Orchestrator.SearchFrom | voice_pipeline/pipeline.py:104 | A search result ends after its start. |
| Orchestrator.Search | voice_pipeline/pipeline.py:104 | `SENTENCE_PATTERN.search(buffer)` ends inside the buffer, after at least one character. |
| Orchestrator.FirstBoundaryFirst | voice_pipeline/pipeline.py:104 | The position found is a terminator directly followed by whitespace, and no earlier position is; when none is found, there is none. |
| Orchestrator.SearchFromBoundary | voice_pipeline/pipeline.py:104 | The search ends right after the whitespace run that follows the first boundary, or finds nothing if there is none. |
| Orchestrator.SearchIsSentenceEnd | voice_pipeline/pipeline.py:104 | The regular-expression search and `SentenceEnd`, which the sentence loop is written with, always agree. |
| Orchestrator.SentenceEndIff | voice_pipeline/pipeline.py:104-107 | A sentence end is found exactly when the buffer has a terminator directly followed by whitespace, so a terminator at the very end does not count. |
| Orchestrator.SentencePiece | voice_pipeline/pipeline.py:104-109 | The removed prefix ends in whitespace, holds a boundary, and the buffer left does not start with whitespace. |
| Orchestrator.Voiced | voice_pipeline/pipeline.py:117-124 | One audio event per synthesised chunk. |
| Orchestrator.VoicedEach | voice_pipeline/pipeline.py:117-124 | Each audio event carries its own chunk's audio and `final` flag, in chunk order. |
| Orchestrator.VoicedPrefix | voice_pipeline/pipeline.py:117-124 | Stopping after `j` chunks has yielded exactly the first `j` events. |
| Orchestrator.Answered | voice_pipeline/pipeline.py:94 | Each language-model response is echoed first, as an `AgentTextChunk` with the same text and `final`. |
| Orchestrator.Chosen | voice_pipeline/pipeline.py:62-71 | The transcript used is the first one that is final and has text; no earlier one qualifies. |
| Orchestrator.Heard | voice_pipeline/pipeline.py:61-71 | The text heard is empty exactly when no transcript qualifies. |
| Orchestrator.DrainKeepsText | voice_pipeline/pipeline.py:102-109 | The sentence loop's removed prefixes, followed by what it leaves, are the buffer again. |
| Orchestrator.DrainTakesSentences | voice_pipeline/pipeline.py:104-109 | Every removed prefix ends a sentence: it holds a terminator followed by whitespace, and ends in whitespace. |
| Orchestrator.DrainSentencesStripped | voice_pipeline/pipeline.py:108-111 | Every sentence sent to synthesis is non-empty and stripped. |
| Orchestrator.DrainLeavesNoBoundary | voice_pipeline/pipeline.py:102-131 | After the inner loop, the buffer holds no sentence end. |
| Orchestrator.DrainOnlyAudio | voice_pipeline/pipeline.py:102-128 | The sentence loop yields only audio events. |
| Orchestrator.ConverseEchoes | voice_pipeline/pipeline.py:86-137 | The text events of the turn are the responses read, unchanged and in order, up to and including the first final one. |
| Orchestrator.ConverseKeepsText | voice_pipeline/pipeline.py:97-109 | Conservation: the removed prefixes followed by the buffer left equal the starting buffer followed by every response text read. |
| Orchestrator.ConverseRaises | voice_pipeline/pipeline.py:86-137 | The language-model loop raises exactly when the stream raises before a final response. |
| Orchestrator.ConverseKinds | voice_pipeline/pipeline.py:86-137 | The language-model loop yields only text and audio events. |
| Orchestrator.ResponseKinds | voice_pipeline/pipeline.py:86-150 | The turn after the transcript yields only text and audio events. |
| Orchestrator.TurnTranscriptFirst | voice_pipeline/pipeline.py:62-75 | A turn yields something exactly when a transcript was chosen. That transcript is the first event, final, and the only transcript event. A blank transcript is followed by nothing. |
| Orchestrator.TurnRaises | voice_pipeline/pipeline.py:41-153 | A turn raises exactly when speech to text raises before a transcript is chosen, or the language model raises before its final response on a non-blank transcript. |
| Orchestrator.DrainIgnoresTtsFailure | voice_pipeline/pipeline.py:116-128 | A synthesis exception after a sentence's audio changes nothing: it is swallowed. |
| Orchestrator.ConverseIgnoresTtsFailure | voice_pipeline/pipeline.py:116-128 | The language-model loop does not depend on whether synthesis raises. |
| Orchestrator.TurnIgnoresTtsFailure | voice_pipeline/pipeline.py:116-150 | The whole turn, the final flush included, does not depend on whether synthesis raises. |
| Orchestrator.VoicePipeline.constructor | voice_pipeline/pipeline.py:22-32 | A new pipeline is not interrupted. |
| Orchestrator.VoicePipeline.Interrupt | voice_pipeline/pipeline.py:34-39 | `interrupt()` sets the flag. |
| Orchestrator.VoicePipeline.ReadFlag | voice_pipeline/pipeline.py:63 | A read of the flag sees every interrupt that has arrived. |
| Orchestrator.VoicePipeline.SpeakAll | voice_pipeline/pipeline.py:117-124 | The audio passed through is the synthesised audio, cut short at the first interrupt seen. |
| Orchestrator.VoicePipeline.SpeakSentence | voice_pipeline/pipeline.py:104-128 | One pass of the inner loop: it stops with nothing said when no sentence end is found; otherwise it cuts one sentence, shortens the buffer and keeps the rest of `Drain` still to come, up to an interrupt. |
| Orchestrator.VoicePipeline.DrainBuffer | voice_pipeline/pipeline.py:102-131 | The inner loop yields the audio of `Drain` and leaves its rest, or a prefix of that audio when an interrupt is seen. |
| Orchestrator.VoicePipeline.Answer | voice_pipeline/pipeline.py:87-131 | One response: its text event, then the audio of the sentences it completes, up to an interrupt. |
| Orchestrator.VoicePipeline.Continue | voice_pipeline/pipeline.py:86-137 | One response of the language-model loop: it stops exactly at an interrupt or a final response; otherwise what is left of `Converse` follows from the next response with the new buffer. |
| Orchestrator.VoicePipeline.Respond | voice_pipeline/pipeline.py:86-137 | The language-model loop yields `Converse` up to an interrupt. It raises only when not interrupted and the stream raised before a final response. |
| Orchestrator.VoicePipeline.FlushBuffer | voice_pipeline/pipeline.py:140-150 | The stripped leftover buffer is synthesised once if non-empty, up to an interrupt. |
| Orchestrator.VoicePipeline.Listen | voice_pipeline/pipeline.py:60-71 | Without an interrupt, the transcript is `Heard`, after one flag read per result up to the chosen one. An interrupt ends the turn with no transcript. |
| Orchestrator.VoicePipeline.Reply | voice_pipeline/pipeline.py:77-153 | The events after the transcript are `Response`, or a prefix of it ending before the first interrupt seen. |
| Orchestrator.VoicePipeline.Proceed | voice_pipeline/pipeline.py:73-153 | After the transcript: nothing for a blank transcript or an interrupt, otherwise the reply. |
| Orchestrator.VoicePipeline.ProcessAudioChunk | voice_pipeline/pipeline.py:41-153 | The events are exactly `Turn` when no interrupt lands. Otherwise they are a prefix of `Turn`, shorter than the number of flag reads before the interrupt. The turn raises exactly when it is not interrupted and `Turn` raises. |
| Session.Total | voice_pipeline/transport/websocket.py:226 | `total_chunks` is the ceiling of the length over 32768. |
| Session.PiecesSplit | voice_pipeline/transport/websocket.py:228-243 | A large audio string is sent as `Total` pieces. Piece `j` has `chunk_index` `j`, is at most 32768 characters, and is final only if it is the last and the event is final. The pieces back to back are the string. |
| Session.FramesTagged | voice_pipeline/transport/websocket.py:197-264 | Every message sent for an event carries the event's own tag. Large audio is split without loss. Empty audio is sent only for a final event. |
| Session.CueOnce | voice_pipeline/transport/websocket.py:163-178 | `mode_change speaking` is sent at most once per turn: once exactly when the turn has audio and it was not sent before. |
| Session.CueBeforeFirstAudio | voice_pipeline/transport/websocket.py:166-178 | The speaking cue is sent immediately before the first audio event's messages, and events are forwarded in order. |
| Session.Socket.constructor | voice_pipeline/transport/websocket.py:147-152 | A connection with nothing sent yet. |
| Session.Socket.IsConnected | voice_pipeline/transport/websocket.py:147-152 | A connectivity check succeeds while the connection is live. |
| Session.Socket.Send | voice_pipeline/transport/websocket.py:273 | `send_json` appends one message. |
| Session.Socket.SendModeChange | voice_pipeline/transport/websocket.py:266-275 | The mode change is sent if the socket is connected, and nothing otherwise. |
| Session.Socket.SendError | voice_pipeline/transport/websocket.py:136-140 | The error message is sent if connected. |
| Session.Socket.SendPieces | voice_pipeline/transport/websocket.py:228-243 | The pieces are sent in order, stopping at the first failed connectivity check. |
| Session.Socket.SendEvent | voice_pipeline/transport/websocket.py:197-264 | `_send_event` sends the event's messages (`Frames`) while connected. |
| Session.Socket.ForwardEvent | voice_pipeline/transport/websocket.py:166-178 | One pass of the drain: the connectivity check, the speaking cue before the first audio, then the event. |
| Session.Socket.Finish | voice_pipeline/transport/websocket.py:180-195 | `listening` is sent after completion or cancellation; after an error, the error then `listening`. |
| Session.Socket.ProcessAudio | voice_pipeline/transport/websocket.py:154-195 | What reaches the client is `Processed`: the forwarded events and then the closing messages, up to where the connection drops. |
| Session.NameIdentifiesMode | voice_pipeline/transport/websocket.py:48-127 | The three mode names sent to the client tell the modes apart: two modes have the same name exactly when they are the same mode. |
| Session.NextSettled | voice_pipeline/transport/websocket.py:57-130 | Every message keeps the session settled: the mode is never `speaking`, a buffer is kept only while recording, and no empty audio is ever handed to a turn. |
| Session.StateAfterSettled | voice_pipeline/transport/websocket.py:57-130 | A settled session stays settled over any sequence of messages. |
| Session.Settle | voice_pipeline/transport/websocket.py:89-107 | A task is running exactly when it was running and has not finished. Absent and done tasks stay as they were. |
| Session.Consumed | voice_pipeline/transport/websocket.py:57-130 | The loop reads messages up to and including the first `disconnect`, or all of them. |
| Session.VoiceSession.constructor | voice_pipeline/transport/websocket.py:45-54 | A session starts `idle` with an empty buffer, not recording and with no task, and sends `mode_change idle` first. |
| Session.VoiceSession.Poll | voice_pipeline/transport/websocket.py:89-107 | `done()` is read; only the task status changes. |
| Session.VoiceSession.StreamStart | voice_pipeline/transport/websocket.py:62-72 | The buffer is cleared, recording starts, the mode becomes `listening` and it is sent. The cancel branch never fires, since the mode is never `speaking`. |
| Session.VoiceSession.Chunk | voice_pipeline/transport/websocket.py:74-80 | The buffer grows by the decoded bytes exactly when recording and the `audio` field is non-empty. A base64 error is reported. Nothing else changes. |
| Session.VoiceSession.StreamEnd | voice_pipeline/transport/websocket.py:82-118 | Recording stops and `idle` is sent. A non-empty buffer interrupts a running task and is cleared. A new task is started only when none is running by the check, and otherwise the audio is dropped. |
| Session.VoiceSession.LaunchBuffered | voice_pipeline/transport/websocket.py:87-113 | With audio buffered: a running turn is interrupted, `idle` is sent, the buffer is cleared, and a new turn is started on the audio unless a task is still running. |
| Session.VoiceSession.InterruptTurn | voice_pipeline/transport/websocket.py:120-127 | The pipeline is interrupted, a running task is cancelled, and `listening` is sent. The buffer and recording flag are untouched. |
| Session.VoiceSession.Handle | voice_pipeline/transport/websocket.py:57-140 | One message: `disconnect` stops; invalid JSON and unknown types change nothing; other exceptions send an error and go on. For every kind, the new state is `Next` of the old one and the messages sent are `Replies` (the new mode's name, or the error). At most one task is ever not done. |
| Session.VoiceSession.Serve | voice_pipeline/transport/websocket.py:57-130 | The message loop reads up to the first `disconnect`. The state it leaves is the fold `StateAfter` of the messages read, and what it sends is `RepliesUpTo`. It keeps the session invariant, including at most one running task. |
| RunpodLlm.RStrip | voice_pipeline/llm/runpod.py:33 | `rstrip('/')` removes exactly the trailing slashes. |
| RunpodLlm.EndpointShape | voice_pipeline/llm/runpod.py:33-39 | The URL is the stripped base followed by `/chat/completions` or `/v1/chat/completions`, and always ends with `/v1/chat/completions`. |
| RunpodLlm.EndpointIgnoresSlash | voice_pipeline/llm/runpod.py:33 | A trailing slash on the base URL makes no difference. |
| RunpodLlm.EndpointVersioned | voice_pipeline/llm/runpod.py:34-39 | A base URL that already ends in `/v1` gets the same endpoint as one without it. |
| RunpodLlm.Headers | voice_pipeline/llm/runpod.py:49-53 | `Content-Type: application/json` always. `Authorization: Bearer <key>` is present exactly when the key is non-empty. |
| RunpodLlm.ModelName | voice_pipeline/llm/runpod.py:42 | The configured model, or `gpt-4o-mini` when unset. |
| RunpodLlm.PrepareCases | voice_pipeline/llm/runpod.py:19-47 | A blank transcript makes no request. A missing base URL is the configuration error. Otherwise the request carries the unstripped transcript to `Endpoint`. |
| RunpodLlm.LinesHaveNoNewline | voice_pipeline/llm/runpod.py:75-76 | The complete lines contain no newline. |
| RunpodLlm.Partial | voice_pipeline/llm/runpod.py:75-76 | The unfinished line contains no newline. |
| RunpodLlm.LinesRebuild | voice_pipeline/llm/runpod.py:69-76 | The complete lines, each with its newline, followed by the unfinished line, are the text received. |
| RunpodLlm.LinesExtend | voice_pipeline/llm/runpod.py:71-76 | Framing is incremental: after more text arrives, the complete lines are the old ones plus those completed from the kept partial line. |
| RunpodLlm.PartialExtend | voice_pipeline/llm/runpod.py:71-76 | The kept partial line after more text depends only on the old partial line and the new text. |
| RunpodLlm.PartialLineUnread | voice_pipeline/llm/runpod.py:75-100 | Text without a newline adds no line: a trailing partial line is never interpreted. |
| RunpodLlm.Interpret | voice_pipeline/llm/runpod.py:77-97 | A line yields only non-empty content. Empty lines, `data: [DONE]`, lines without the `data: ` prefix and undecodable JSON are skipped. |
| RunpodLlm.Interpreted | voice_pipeline/llm/runpod.py:75-97 | Interpreting lines in order yields non-final, non-empty responses; the only error is a malformed shape. |
| RunpodLlm.InterpretedSnoc | voice_pipeline/llm/runpod.py:75-97 | One more line adds its content, or raises, or is skipped; nothing is read after a raise. `[DONE]` does not stop reading. |
| RunpodLlm.InterpretedAppend | voice_pipeline/llm/runpod.py:75-97 | Interpreting two batches of lines is interpreting their concatenation. |
| RunpodLlm.StreamedFinalLast | voice_pipeline/llm/runpod.py:17-104 | A blank transcript yields nothing. On success, the last response is exactly `LLMResponse("", final=True)` and every earlier one is non-final with text. On error, nothing final is yielded. |
| RunpodLlm.AsRun | voice_pipeline/llm/runpod.py:17-104 | The provider's answer, seen by the pipeline, is the same responses, failing exactly on an error. |
| RunpodLlm.TakeLines | voice_pipeline/llm/runpod.py:75-97 | The inner `while "\n" in buffer` loop interprets every complete line of the buffer and keeps the partial line. |
| RunpodLlm.ReadLines | voice_pipeline/llm/runpod.py:69-97 | Over all text chunks, the loop interprets exactly the complete lines of the whole text, in order. |
| RunpodLlm.StreamResponse | voice_pipeline/llm/runpod.py:17-104 | The provider computes `Streamed`. A request is made exactly when the transcript is not blank and a base URL is set, and it is the one `Endpoint`, `Headers` and `ModelName` describe. |
| GeminiStt.StampLen | voice_pipeline/stt/gemini.py:140 | A timestamp match is 6 or more characters (`NN:NN` or `NN:NN:NN` and whitespace), taking all of the whitespace. |
| GeminiStt.Unstamp | voice_pipeline/stt/gemini.py:140 | Removing timestamps never lengthens the text. |
| GeminiStt.UnstampKeeps | voice_pipeline/stt/gemini.py:140 | Text with no timestamp at the start of any line is unchanged. |
| GeminiStt.UnstampLeading | voice_pipeline/stt/gemini.py:140 | A leading `NN:NN ` or `NN:NN:NN ` is removed. |
| GeminiStt.TextsOf | voice_pipeline/stt/gemini.py:124 | Every segment kept has text, and there are no more segments than items. |
| GeminiStt.ExtractCases | voice_pipeline/stt/gemini.py:102-145 | No candidates or parts gives `""`. A list with text segments gives them joined by spaces; a dict with `text` gives it. Anything else has timestamps stripped, and text without them is returned as it is. |
| GeminiStt.JoinNonEmpty | voice_pipeline/stt/gemini.py:124-126 | Joining non-empty segments gives non-empty text. |
| GeminiStt.Stream | voice_pipeline/stt/gemini.py:17-46 | A missing key is an error before any audio. Empty chunks are skipped. A request is made exactly when there is audio. Non-empty text gives one final transcript, and empty text gives none. |
| GeminiStt.FlattenSkipsEmpty | voice_pipeline/stt/gemini.py:28-31 | Skipping empty chunks does not change the audio. |
| Routes.AudioFileIgnoresCase | voice_pipeline/routes.py:31-35 | The extension check ignores letter case. |
| Routes.FinalTextsAre | voice_pipeline/routes.py:51-54 | The texts collected are exactly those of the final transcripts. |
| Routes.SttStatuses | voice_pipeline/routes.py:37-62 | `/stt` gives 400 only for a non-audio file; every other failure, including its own "Empty audio file", is re-wrapped as 500. A success joins the final transcripts with single spaces. |
| Routes.Transcribe | voice_pipeline/routes.py:23-62 | The endpoint's fold computes `SttReply`. |
| Routes.AudioOfKeepsAll | voice_pipeline/routes.py:80-90 | Dropping empty chunks loses no audio. |
| Routes.TtsStatuses | voice_pipeline/routes.py:72-99 | `/tts` gives 400 exactly for a blank text and otherwise 500 on failure. A success is all the audio, in order. |
| Routes.Synthesize | voice_pipeline/routes.py:65-99 | The endpoint's fold computes `TtsReply`. |
| Routes.AgentAudio | voice_pipeline/routes.py:160-162 | Only non-empty audio is collected. |
| Routes.VoiceStatuses | voice_pipeline/routes.py:136-189 | `/voice` gives 400 exactly for a non-audio or empty file, since its own exceptions pass through. A success reports the combined audio, its length as `audio_size_bytes`, 22050 as `sample_rate`, and a non-empty transcript and answer. |
| Routes.Voice | voice_pipeline/routes.py:102-189 | The endpoint's fold computes `VoiceReply`. |
| Routes.VoiceTranscriptIsHeard | voice_pipeline/routes.py:155-157 | On a pipeline turn, the last transcript event is the transcript the turn chose. |

## Left out

- I/O is outside the model:
  - the network, WebSocket `accept`/`iter_text`/`send_json` and HTTP requests are inputs or recorded outputs;
  - `_is_connected` is a count of live checks;
  - a `send_json` that raises is not modelled.
- Concurrency is outside the model:
  - `asyncio` tasks run to completion and are not interleaved with the session loop. `Session.VoiceSession.StreamEnd` records the launched audio, and `Session.Socket.ProcessAudio` models one task's output on its own.
  - Cancellation in the middle of an event is modelled only as the `Cancelled` ending.
  - `sleep(0.1)` is the `doneAfter` parameter.
- Codecs are given functions: base64 encoding and decoding, `json.loads` and the JSON shape of the request payloads. Logging is left out.
- Text handling is limited:
  - `\d` is ASCII digits only;
  - `str.lower()` is modelled for ASCII letters only;
  - strings are sequences of characters, with no Unicode normalisation.
- `VoicePipeline._current_tts_task` is always `None` in the source, so the cancellation in `interrupt()` never runs and is not modelled.
- The `mode == "speaking"` branch of websocket.py:64-66 cannot run, because the local `mode` is only ever `idle` or `listening`. `Session.VoiceSession.Valid` keeps `mode != Speaking`, and `Session.VoiceSession.StreamStart` states the consequence.
- Provider construction (`create_*_provider`), settings loading and the outer `except` at websocket.py:142 are left out.
- Chunker.SplitTextIntoChunks: requires `maxLength >= 1`. With 0, the source loop never ends on a text such as `"a b"`.
- GeminiStt.ExtractCases: a JSON `text` field is modelled as a string. Non-string truthy values, and the `TypeError` they would raise, are left out.
- GeminiStt.ExtractCases: the `Unexpected` body stands for a lookup that raises `KeyError`, `IndexError` or `AttributeError`, which the source catches. A `TypeError`, which it does not catch, is not modelled.
- Routes.SttStatuses: the detail of a re-wrapped `HTTPException` is `"<status>: <detail>"` (`Routes.Describe`). This is the `str()` of Starlette's exception, which is not part of this model.
- Session.VoiceSession.Chunk: the `audio` field is modelled as a string. A truthy non-string value, for which `b64decode` raises `TypeError` and an error message is sent (websocket.py:78 and 134-140), is not modelled.
- Routes.Transcribe: the constant `"final": true` of the JSON reply and the `Content-Disposition` header of `/tts` are not represented.
- Routes.Voice: the audio is the raw bytes; the reply sends it base64-encoded.
- CoquiTts.StreamSpeech: the speaker, language and speed in the payload are not modelled, nor is the error text read from a failed response.

## Findings

| source | as written | input that shows it | evidently intended | confidence | as-written member | corrected member |
|---|---|---|---|---|---|---|
| voice_pipeline/tts/coqui.py:35 | `remaining = remaining[len(chunk):].strip()` skips `len(chunk)` characters from the start of `remaining`, although `re.search` may have matched further in (lines 32 and 41) | `split_text_into_chunks("ab c. d", 1)` returns `["c.", "c.", "d"]` | the text before the match is not lost and the matched sentence is not repeated: the chunks are slices of the text, in order, with only whitespace between them | not executed | ChunkerExamples.SplitLosesText | Chunker.SplitAnchoredSpaced |

`CoquiTts.StreamSpeech` follows the code as written and uses `Chunker.Split`. The corrected split `Chunker.SplitAnchored` anchors both patterns at index 0 and takes the rest from the end of the match. `Chunker.SplitKeepsTextWhenAnchored` shows that the two agree whenever every match the loop finds starts at index 0, as on `"Hello world. How are you?"`.
