/** The event records passed from the pipeline to the transports
    (voice_pipeline/transport/dto.py) and the provider records they are built
    from (the `{text|audio, final}` records of the STT, LLM and TTS
    interfaces). */
module Events {
  import opened Text

  /** `Transcript` of the STT interface. */
  datatype Transcript = Transcript(text: string, final: bool := false)

  /** `LLMResponse` of the LLM interface. */
  datatype LlmResponse = LlmResponse(text: string, final: bool := false)

  /** `AudioChunk` of the TTS interface. */
  datatype AudioChunk = AudioChunk(audio: Bytes, final: bool := false)

  /** `VoiceEvent` and its four subclasses; `final` defaults to false, as in
      the constructors. */
  datatype VoiceEvent =
    | TranscriptChunk(text: string, final: bool := false)
    | AgentTextChunk(text: string, final: bool := false)
    | AgentAudioChunk(audio: Bytes, final: bool := false)
    | ModeChangeEvent(mode: string)

  /** The `type` attribute each constructor sets. */
  function Tag(e: VoiceEvent): (tag: string)
  {
    match e
    case TranscriptChunk(_, _) => "transcript"
    case AgentTextChunk(_, _) => "agent_text"
    case AgentAudioChunk(_, _) => "agent_audio"
    case ModeChangeEvent(_) => "mode_change"
  }

  /** The tag tells the four kinds apart: two events carry the same tag
      exactly when they are of the same kind. */
  lemma TagIdentifiesKind(a: VoiceEvent, b: VoiceEvent)
    ensures Tag(a) == Tag(b) <==>
      (a.TranscriptChunk? && b.TranscriptChunk?) || (a.AgentTextChunk? && b.AgentTextChunk?) ||
      (a.AgentAudioChunk? && b.AgentAudioChunk?) || (a.ModeChangeEvent? && b.ModeChangeEvent?)
  {
  }
}
