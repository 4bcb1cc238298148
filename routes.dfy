/** The HTTP endpoints of voice_pipeline/routes.py: `/api/stt`, `/api/tts`
    and `/api/voice`, each folding a provider's output into one reply.

    A provider's output is given as what it yields and the message of the
    exception it raises, if any. */
module Routes {
  import opened Text
  import opened Events
  import opened Orchestrator

  /** What a provider yields before it stops, and the text of the exception
      that stopped it, if one did. */
  datatype Streamed<T> = Streamed(items: seq<T>, error: Option<string>)

  /** An endpoint's answer: the JSON of `/stt`, the WAV stream of `/tts`,
      the JSON of `/voice` (whose `audio` is sent base64-encoded), or an
      `HTTPException`. */
  datatype Reply =
    | TextReply(text: string)
    | AudioReply(audio: Bytes)
    | PipelineReply(transcript: string, llmResponse: string, audio: Bytes, sampleRate: nat, sizeBytes: nat)
    | Failure(status: nat, detail: string)

  const AUDIO_PREFIX: string := "audio/"
  const AUDIO_EXTENSIONS: seq<string> := [".wav", ".mp3", ".ogg", ".flac", ".m4a", ".webm"]
  const SAMPLE_RATE: nat := 22050

  const NOT_AUDIO: string := "File must be an audio file"
  const EMPTY_AUDIO: string := "Empty audio file"
  const NO_TRANSCRIPT: string := "No transcript generated"
  const EMPTY_TEXT: string := "Text cannot be empty"
  const NO_AUDIO: string := "No audio generated"
  const NO_PIPELINE_AUDIO: string := "No audio generated from pipeline"
  const NO_PIPELINE_TRANSCRIPT: string := "No transcript generated from audio"
  const NO_LLM_RESPONSE: string := "No LLM response generated"
  const STT_ERROR: string := "STT error: "
  const TTS_ERROR: string := "TTS error: "
  const PIPELINE_ERROR: string := "Pipeline error: "

  // ---------------------------------------------------------------------
  // Shared pieces
  // ---------------------------------------------------------------------

  /** The check of routes.py:31-35 and 130-134: an `audio/` content type, or
      a file name with one of the audio extensions in any letter case. */
  predicate IsAudioFile(contentType: string, filename: string) {
    || StartsWith(contentType, AUDIO_PREFIX)
    || exists i :: 0 <= i < |AUDIO_EXTENSIONS| && EndsWith(Lower(filename), AUDIO_EXTENSIONS[i])
  }

  lemma {:induction false} LowerTwice(s: string)
    ensures Lower(Lower(s)) == Lower(s)
  {
    if s != [] {
      LowerTwice(s[1..]);
    }
  }

  /** The extension check ignores letter case: a file name is accepted
      exactly when its lower-case form is. */
  lemma AudioFileIgnoresCase(contentType: string, filename: string)
    ensures IsAudioFile(contentType, filename) <==> IsAudioFile(contentType, Lower(filename))
  {
    LowerTwice(filename);
  }

  /** The decimal digits of a status code. */
  function Decimal(n: nat): (s: string)
    ensures s != []
  {
    if n < 10 then ['0' + n as char] else Decimal(n / 10) + ['0' + (n % 10) as char]
  }

  /** `str()` of an `HTTPException`: its status code and its detail. */
  function Describe(status: nat, detail: string): (s: string)
  {
    Decimal(status) + ": " + detail
  }

  // ---------------------------------------------------------------------
  // `/api/stt`
  // ---------------------------------------------------------------------

  /** The texts of the final transcripts, in order. */
  function FinalTexts(ts: seq<Transcript>): (texts: seq<string>)
    ensures |texts| <= |ts|
  {
    if ts == [] then []
    else FinalTexts(ts[..|ts| - 1]) + (if ts[|ts| - 1].final then [ts[|ts| - 1].text] else [])
  }

  /** Every final transcript's text is kept, and nothing else. */
  lemma {:induction false} FinalTextsAre(ts: seq<Transcript>)
    ensures forall t :: t in FinalTexts(ts) ==> exists i :: 0 <= i < |ts| && ts[i].final && ts[i].text == t
    ensures forall i :: 0 <= i < |ts| && ts[i].final ==> ts[i].text in FinalTexts(ts)
  {
    if ts != [] {
      var init := ts[..|ts| - 1];
      FinalTextsAre(init);
      forall i | 0 <= i < |ts| - 1 && ts[i].final
        ensures ts[i].text in FinalTexts(ts)
      {
        assert init[i] == ts[i];
      }
      forall t | t in FinalTexts(ts)
        ensures exists i :: 0 <= i < |ts| && ts[i].final && ts[i].text == t
      {
        if t in FinalTexts(init) {
          var i :| 0 <= i < |init| && init[i].final && init[i].text == t;
          assert ts[i] == init[i];
        }
      }
    }
  }

  /** `transcribe_audio` (routes.py:23-62): everything that goes wrong
      after the file check, the endpoint's own "empty file" and "no
      transcript" included, is re-raised as status 500. */
  function SttReply(contentType: string, filename: string, audio: Bytes, stt: Streamed<Transcript>): (r: Reply)
  {
    if !IsAudioFile(contentType, filename) then Failure(400, NOT_AUDIO)
    else if audio == [] then Failure(500, STT_ERROR + Describe(400, EMPTY_AUDIO))
    else if stt.error.Some? then Failure(500, STT_ERROR + stt.error.value)
    else if FinalTexts(stt.items) == [] then Failure(500, STT_ERROR + Describe(500, NO_TRANSCRIPT))
    else TextReply(Join(" ", FinalTexts(stt.items)))
  }

  /** Only a file that is not audio gets 400 from `/stt`; every other
      failure is 500, and a success joins the final transcripts with single
      spaces. */
  lemma SttStatuses(contentType: string, filename: string, audio: Bytes, stt: Streamed<Transcript>)
    ensures var r := SttReply(contentType, filename, audio, stt);
      && (r.Failure? ==> r.status in {400, 500})
      && (r.Failure? && r.status == 400 <==> !IsAudioFile(contentType, filename))
      && (r.TextReply? <==> IsAudioFile(contentType, filename) && audio != [] && stt.error.None? && FinalTexts(stt.items) != [])
      && (r.TextReply? ==> r.text == Join(" ", FinalTexts(stt.items)))
  {
  }

  /** The endpoint itself: the file check, then the fold over the
      transcripts the provider yields. */
  method Transcribe(contentType: string, filename: string, audio: Bytes, stt: Streamed<Transcript>) returns (r: Reply)
    ensures r == SttReply(contentType, filename, audio, stt)
  {
    if !IsAudioFile(contentType, filename) {
      return Failure(400, NOT_AUDIO);
    }
    if audio == [] {
      return Failure(500, STT_ERROR + Describe(400, EMPTY_AUDIO));
    }
    var transcripts: seq<string> := [];
    var i := 0;
    while i < |stt.items|
      invariant i <= |stt.items|
      invariant transcripts == FinalTexts(stt.items[..i])
    {
      assert stt.items[..i + 1][..i] == stt.items[..i];
      if stt.items[i].final {
        transcripts := transcripts + [stt.items[i].text];
      }
      i := i + 1;
    }
    assert stt.items[..i] == stt.items;
    if stt.error.Some? {
      return Failure(500, STT_ERROR + stt.error.value);
    }
    if transcripts == [] {
      return Failure(500, STT_ERROR + Describe(500, NO_TRANSCRIPT));
    }
    return TextReply(Join(" ", transcripts));
  }

  // ---------------------------------------------------------------------
  // `/api/tts`
  // ---------------------------------------------------------------------

  /** The non-empty audio of the chunks, in order. */
  function AudioOf(chunks: seq<AudioChunk>): (pieces: seq<Bytes>)
    ensures forall i :: 0 <= i < |pieces| ==> pieces[i] != []
  {
    if chunks == [] then []
    else AudioOf(chunks[..|chunks| - 1]) + (if chunks[|chunks| - 1].audio != [] then [chunks[|chunks| - 1].audio] else [])
  }

  /** Dropping the empty chunks loses no audio. */
  lemma {:induction false} AudioOfKeepsAll(chunks: seq<AudioChunk>)
    ensures Flatten(AudioOf(chunks)) == Flatten(AudiosOf(chunks))
  {
    if chunks != [] {
      var init := chunks[..|chunks| - 1];
      var last := chunks[|chunks| - 1];
      AudioOfKeepsAll(init);
      FlattenAppend(AudioOf(init), if last.audio != [] then [last.audio] else []);
      FlattenAppend(AudiosOf(init), [last.audio]);
      assert Flatten([last.audio]) == last.audio + Flatten([last.audio][1..]);
      assert [last.audio][1..] == [];
    }
  }

  /** Every chunk's audio, empty or not. */
  function AudiosOf(chunks: seq<AudioChunk>): (pieces: seq<Bytes>)
    ensures |pieces| == |chunks|
  {
    if chunks == [] then [] else AudiosOf(chunks[..|chunks| - 1]) + [chunks[|chunks| - 1].audio]
  }

  /** `synthesize_speech` (routes.py:65-99): a blank text is refused with
      400 before the `try`; inside it everything, the "no audio" error
      included, becomes 500. */
  function TtsReply(text: string, tts: Streamed<AudioChunk>): (r: Reply)
  {
    if text == [] || Strip(text) == [] then Failure(400, EMPTY_TEXT)
    else if tts.error.Some? then Failure(500, TTS_ERROR + tts.error.value)
    else if AudioOf(tts.items) == [] then Failure(500, TTS_ERROR + Describe(500, NO_AUDIO))
    else AudioReply(Flatten(AudioOf(tts.items)))
  }

  /** `/tts` answers 400 exactly for a blank text; otherwise it fails with
      500 or returns all the audio, in order. */
  lemma TtsStatuses(text: string, tts: Streamed<AudioChunk>)
    ensures var r := TtsReply(text, tts);
      && (r.Failure? && r.status == 400 <==> Blank(text))
      && (r.Failure? ==> r.status in {400, 500})
      && (r.AudioReply? ==> r.audio == Flatten(AudiosOf(tts.items)) && r.audio != [])
  {
    StripEmpty(text);
    AudioOfKeepsAll(tts.items);
    var r := TtsReply(text, tts);
    if r.AudioReply? {
      var ps := AudioOf(tts.items);
      assert Flatten(ps) == ps[0] + Flatten(ps[1..]);
    }
  }

  method Synthesize(text: string, tts: Streamed<AudioChunk>) returns (r: Reply)
    ensures r == TtsReply(text, tts)
  {
    if text == [] || Strip(text) == [] {
      return Failure(400, EMPTY_TEXT);
    }
    var pieces: seq<Bytes> := [];
    var i := 0;
    while i < |tts.items|
      invariant i <= |tts.items|
      invariant pieces == AudioOf(tts.items[..i])
    {
      assert tts.items[..i + 1][..i] == tts.items[..i];
      if tts.items[i].audio != [] {
        pieces := pieces + [tts.items[i].audio];
      }
      i := i + 1;
    }
    assert tts.items[..i] == tts.items;
    if tts.error.Some? {
      return Failure(500, TTS_ERROR + tts.error.value);
    }
    if pieces == [] {
      return Failure(500, TTS_ERROR + Describe(500, NO_AUDIO));
    }
    return AudioReply(Flatten(pieces));
  }

  // ---------------------------------------------------------------------
  // `/api/voice`
  // ---------------------------------------------------------------------

  /** The text of the last transcript event, `""` when there is none. */
  function LastTranscript(events: seq<VoiceEvent>): (t: string)
  {
    if events == [] then []
    else if events[|events| - 1].TranscriptChunk? then events[|events| - 1].text
    else LastTranscript(events[..|events| - 1])
  }

  /** The agent's text, all of it, in order. */
  function AgentText(events: seq<VoiceEvent>): (t: string)
  {
    if events == [] then []
    else
      var last := events[|events| - 1];
      AgentText(events[..|events| - 1]) + (if last.AgentTextChunk? then last.text else [])
  }

  /** The non-empty audio of the events, in order. */
  function AgentAudio(events: seq<VoiceEvent>): (pieces: seq<Bytes>)
    ensures forall i :: 0 <= i < |pieces| ==> pieces[i] != []
  {
    if events == [] then []
    else
      var last := events[|events| - 1];
      AgentAudio(events[..|events| - 1]) + (if last.AgentAudioChunk? && last.audio != [] then [last.audio] else [])
  }

  /** `process_voice_pipeline` (routes.py:102-189): its own
      `HTTPException`s pass through unchanged; the three checks come in the
      order audio, transcript, agent text; any other exception is 500. */
  function VoiceReply(contentType: string, filename: string, audio: Bytes, turn: Streamed<VoiceEvent>): (r: Reply)
  {
    if !IsAudioFile(contentType, filename) then Failure(400, NOT_AUDIO)
    else if audio == [] then Failure(400, EMPTY_AUDIO)
    else if turn.error.Some? then Failure(500, PIPELINE_ERROR + turn.error.value)
    else if AgentAudio(turn.items) == [] then Failure(500, NO_PIPELINE_AUDIO)
    else if LastTranscript(turn.items) == [] then Failure(500, NO_PIPELINE_TRANSCRIPT)
    else if AgentText(turn.items) == [] then Failure(500, NO_LLM_RESPONSE)
    else
      var bytes := Flatten(AgentAudio(turn.items));
      PipelineReply(LastTranscript(turn.items), AgentText(turn.items), bytes, SAMPLE_RATE, |bytes|)
  }

  /** `/voice` answers 400 exactly for a file that is not audio or is
      empty; a reply carries the combined audio and its size, at 22050 Hz. */
  lemma VoiceStatuses(contentType: string, filename: string, audio: Bytes, turn: Streamed<VoiceEvent>)
    ensures var r := VoiceReply(contentType, filename, audio, turn);
      && (r.Failure? && r.status == 400 <==> !IsAudioFile(contentType, filename) || audio == [])
      && (r.Failure? ==> r.status in {400, 500})
      && (r.PipelineReply? ==>
            && r.sizeBytes == |r.audio| && r.sampleRate == SAMPLE_RATE
            && r.audio == Flatten(AgentAudio(turn.items)) && r.audio != []
            && r.transcript != [] && r.llmResponse != [])
  {
    var r := VoiceReply(contentType, filename, audio, turn);
    if r.PipelineReply? {
      var ps := AgentAudio(turn.items);
      assert Flatten(ps) == ps[0] + Flatten(ps[1..]);
    }
  }

  /** The endpoint itself, folding the events of the turn. */
  method Voice(contentType: string, filename: string, audio: Bytes, turn: Streamed<VoiceEvent>) returns (r: Reply)
    ensures r == VoiceReply(contentType, filename, audio, turn)
  {
    if !IsAudioFile(contentType, filename) {
      return Failure(400, NOT_AUDIO);
    }
    if audio == [] {
      return Failure(400, EMPTY_AUDIO);
    }
    var transcript: string := [];
    var llmResponse: string := [];
    var pieces: seq<Bytes> := [];
    var i := 0;
    while i < |turn.items|
      invariant i <= |turn.items|
      invariant transcript == LastTranscript(turn.items[..i])
      invariant llmResponse == AgentText(turn.items[..i])
      invariant pieces == AgentAudio(turn.items[..i])
    {
      assert turn.items[..i + 1][..i] == turn.items[..i];
      match turn.items[i] {
        case TranscriptChunk(text, _) =>
          transcript := text;
        case AgentTextChunk(text, _) =>
          llmResponse := llmResponse + text;
        case AgentAudioChunk(bytes, _) =>
          if bytes != [] {
            pieces := pieces + [bytes];
          }
        case ModeChangeEvent(_) =>
      }
      i := i + 1;
    }
    assert turn.items[..i] == turn.items;
    if turn.error.Some? {
      return Failure(500, PIPELINE_ERROR + turn.error.value);
    }
    if pieces == [] {
      return Failure(500, NO_PIPELINE_AUDIO);
    }
    if transcript == [] {
      return Failure(500, NO_PIPELINE_TRANSCRIPT);
    }
    if llmResponse == [] {
      return Failure(500, NO_LLM_RESPONSE);
    }
    var bytes := Flatten(pieces);
    return PipelineReply(transcript, llmResponse, bytes, SAMPLE_RATE, |bytes|);
  }

  /** On a turn of the pipeline, the transcript `/voice` reports is the one
      the turn chose: its transcript event comes first and is the only
      one. */
  lemma VoiceTranscriptIsHeard(stt: Run<Transcript>, llm: string -> Run<LlmResponse>, tts: string -> Run<AudioChunk>)
    ensures LastTranscript(Turn(stt, llm, tts).events) == Heard(stt.items)
  {
    var ev := Turn(stt, llm, tts).events;
    TurnTranscriptFirst(stt, llm, tts);
    if ev != [] {
      LastTranscriptOfFirst(ev);
    }
  }

  /** When only the first event is a transcript, it is the last one. */
  lemma {:induction false} LastTranscriptOfFirst(ev: seq<VoiceEvent>)
    requires ev != [] && ev[0].TranscriptChunk?
    requires forall k :: 0 < k < |ev| ==> !ev[k].TranscriptChunk?
    ensures LastTranscript(ev) == ev[0].text
  {
    if |ev| > 1 {
      var init := ev[..|ev| - 1];
      assert init[0] == ev[0];
      assert forall k :: 0 < k < |init| ==> init[k] == ev[k];
      LastTranscriptOfFirst(init);
    }
  }
}
