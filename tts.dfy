/** `CoquiTTSProvider.stream_speech` (voice_pipeline/tts/coqui.py): the text
    is split into chunks of at most 250 characters, each chunk is posted to
    the XTTS service in turn, the streamed body is gathered into one WAV file,
    and every non-empty file is yielded as a final audio chunk.

    The HTTP exchange for chunk `i` is given as `reply(i, chunkText)`. A
    generator run is the sequence of chunks it yields followed by the error
    it raises, if any. */
module CoquiTts {
  import opened Text
  import opened Events
  import opened Chunker

  /** How the service answers one request. */
  datatype Reply =
    | ConnectFailed                     // httpx.ConnectError
    | StatusFailed(status: int)         // raise_for_status: httpx.HTTPStatusError
    | OtherFailed                       // any other exception, not caught here
    | Body(pieces: seq<Bytes>)          // a success status and the streamed body

  /** What `stream_speech` raises. */
  datatype TtsError =
    | UrlMissing                        // "TTS service URL missing."
    | ConnectFailure                    // RuntimeError "Failed to connect ..."
    | SynthesisFailed(index: nat, status: int)  // RuntimeError "TTS synthesis failed for chunk ..."
    | Uncaught                          // the original exception, propagated

  /** The error a failing reply for chunk `i` turns into. */
  function Failure(i: nat, r: Reply): (e: TtsError)
    requires !r.Body?
  {
    match r
    case ConnectFailed => ConnectFailure
    case StatusFailed(status) => SynthesisFailed(i, status)
    case OtherFailed => Uncaught
  }

  /** The whole WAV file of a successful reply. */
  function Audio(r: Reply): Bytes
    requires r.Body?
  {
    Flatten(r.pieces)
  }

  /** The index of the first chunk at or after `i` whose request fails, or
      `|texts|` when none does. */
  function FirstFailure(texts: seq<string>, reply: (nat, string) -> Reply, i: nat): (k: nat)
    requires i <= |texts|
    ensures i <= k <= |texts|
    ensures forall j :: i <= j < k ==> reply(j, texts[j]).Body?
    ensures k < |texts| ==> !reply(k, texts[k]).Body?
    decreases |texts| - i
  {
    if i == |texts| || !reply(i, texts[i]).Body? then i else FirstFailure(texts, reply, i + 1)
  }

  /** The chunks yielded for the first `k` text chunks, all of them answered
      with a body: one final chunk per non-empty file, in chunk order. */
  function Yielded(texts: seq<string>, reply: (nat, string) -> Reply, k: nat): (out: seq<AudioChunk>)
    requires k <= |texts|
    requires forall j :: 0 <= j < k ==> reply(j, texts[j]).Body?
    ensures |out| <= k
    ensures forall c :: c in out ==> c.final && c.audio != []
  {
    if k == 0 then []
    else
      var audio := Audio(reply(k - 1, texts[k - 1]));
      Yielded(texts, reply, k - 1) + (if audio == [] then [] else [AudioChunk(audio, true)])
  }

  /** One more answered chunk adds its file, when it is not empty. */
  lemma YieldedStep(texts: seq<string>, reply: (nat, string) -> Reply, k: nat)
    requires k < |texts|
    requires forall j :: 0 <= j <= k ==> reply(j, texts[j]).Body?
    ensures Yielded(texts, reply, k + 1) ==
      Yielded(texts, reply, k) + (if Audio(reply(k, texts[k])) == [] then [] else [AudioChunk(Audio(reply(k, texts[k])), true)])
  {
  }

  /** Every file received for the first `k` chunks, back to back. */
  function Received(texts: seq<string>, reply: (nat, string) -> Reply, k: nat): Bytes
    requires k <= |texts|
    requires forall j :: 0 <= j < k ==> reply(j, texts[j]).Body?
  {
    if k == 0 then [] else Received(texts, reply, k - 1) + Audio(reply(k - 1, texts[k - 1]))
  }

  /** The audio of the yielded chunks, back to back. */
  function AudioOf(out: seq<AudioChunk>): (r: Bytes)
  {
    if out == [] then [] else AudioOf(out[..|out| - 1]) + out[|out| - 1].audio
  }

  lemma AudioOfSnoc(out: seq<AudioChunk>, c: AudioChunk)
    ensures AudioOf(out + [c]) == AudioOf(out) + c.audio
  {
    assert (out + [c])[..|out|] == out;
  }

  /** Skipping the empty files loses no audio: the yielded chunks hold every
      byte received, in order. */
  lemma {:induction false} YieldedKeepsAudio(texts: seq<string>, reply: (nat, string) -> Reply, k: nat)
    requires k <= |texts|
    requires forall j :: 0 <= j < k ==> reply(j, texts[j]).Body?
    ensures AudioOf(Yielded(texts, reply, k)) == Received(texts, reply, k)
  {
    if k > 0 {
      YieldedKeepsAudio(texts, reply, k - 1);
      var prev := Yielded(texts, reply, k - 1);
      var got := Received(texts, reply, k - 1);
      var audio := Audio(reply(k - 1, texts[k - 1]));
      assert Received(texts, reply, k) == got + audio;
      if audio != [] {
        assert Yielded(texts, reply, k) == prev + [AudioChunk(audio, true)];
        AudioOfSnoc(prev, AudioChunk(audio, true));
      } else {
        assert Yielded(texts, reply, k) == prev + [] == prev;
        assert got + audio == got;
      }
    }
  }

  /** The indexes of the first `k` text chunks whose file is non-empty. */
  function FilledUpTo(texts: seq<string>, reply: (nat, string) -> Reply, k: nat): (s: set<nat>)
    requires k <= |texts|
    requires forall j :: 0 <= j < k ==> reply(j, texts[j]).Body?
  {
    set j | 0 <= j < k && Audio(reply(j, texts[j])) != []
  }

  lemma FilledStep(texts: seq<string>, reply: (nat, string) -> Reply, k: nat)
    requires 0 < k <= |texts|
    requires forall j :: 0 <= j < k ==> reply(j, texts[j]).Body?
    ensures |FilledUpTo(texts, reply, k)| ==
      |FilledUpTo(texts, reply, k - 1)| + (if Audio(reply(k - 1, texts[k - 1])) != [] then 1 else 0)
  {
    var before := FilledUpTo(texts, reply, k - 1);
    if Audio(reply(k - 1, texts[k - 1])) != [] {
      assert FilledUpTo(texts, reply, k) == before + {k - 1};
      assert k - 1 !in before;
    } else {
      assert FilledUpTo(texts, reply, k) == before;
    }
  }

  /** Exactly one chunk per non-empty file: there are as many yielded chunks
      as text chunks whose file is non-empty. */
  lemma {:induction false} YieldedCount(texts: seq<string>, reply: (nat, string) -> Reply, k: nat)
    requires k <= |texts|
    requires forall j :: 0 <= j < k ==> reply(j, texts[j]).Body?
    ensures |Yielded(texts, reply, k)| == |FilledUpTo(texts, reply, k)|
  {
    if k > 0 {
      YieldedCount(texts, reply, k - 1);
      FilledStep(texts, reply, k);
      var prev := Yielded(texts, reply, k - 1);
      var audio := Audio(reply(k - 1, texts[k - 1]));
      if audio != [] {
        assert Yielded(texts, reply, k) == prev + [AudioChunk(audio, true)];
      } else {
        assert Yielded(texts, reply, k) == prev + [] == prev;
      }
    }
  }

  /** Gathers one streamed body, `audio_bytes.extend(http_chunk)` for every
      non-empty piece. */
  method Gather(pieces: seq<Bytes>) returns (audio: Bytes)
    ensures audio == Flatten(pieces)
  {
    audio := [];
    var k := 0;
    while k < |pieces|
      invariant 0 <= k <= |pieces|
      invariant audio == Flatten(pieces[..k])
    {
      FlattenAppend(pieces[..k], [pieces[k]]);
      assert Flatten([pieces[k]]) == pieces[k] + Flatten([]);
      assert pieces[..k + 1] == pieces[..k] + [pieces[k]];
      if pieces[k] != [] {
        audio := audio + pieces[k];
      }
      k := k + 1;
    }
    assert pieces[..k] == pieces;
  }

  /** `stream_speech(text)`: a missing URL raises before anything else;
      otherwise the chunks are synthesised in order until the first failing
      request, whose error ends the run. */
  method StreamSpeech(serviceUrl: string, text: string, reply: (nat, string) -> Reply)
    returns (out: seq<AudioChunk>, err: Option<TtsError>)
    ensures serviceUrl == [] ==> out == [] && err == Some(UrlMissing)
    ensures serviceUrl != [] ==>
      var texts := Split(text, MAX_CHUNK_LENGTH);
      var k := FirstFailure(texts, reply, 0);
      && out == Yielded(texts, reply, k)
      && err == (if k < |texts| then Some(Failure(k, reply(k, texts[k]))) else None)
  {
    if serviceUrl == [] {
      return [], Some(UrlMissing);
    }
    var texts := SplitTextIntoChunks(text, MAX_CHUNK_LENGTH);
    out := [];
    var i := 0;
    while i < |texts|
      invariant 0 <= i <= |texts|
      invariant forall j :: 0 <= j < i ==> reply(j, texts[j]).Body?
      invariant FirstFailure(texts, reply, 0) == FirstFailure(texts, reply, i)
      invariant out == Yielded(texts, reply, i)
    {
      var r := reply(i, texts[i]);
      if !r.Body? {
        return out, Some(Failure(i, r));
      }
      var audio := Gather(r.pieces);
      YieldedStep(texts, reply, i);
      if audio != [] {
        out := out + [AudioChunk(audio, true)];
      }
      i := i + 1;
    }
    err := None;
  }
}
