/** `VoicePipeline` (voice_pipeline/pipeline.py): one turn runs speech to
    text, streams the transcript to the language model and sends every
    complete sentence of its answer to speech synthesis as soon as it is
    in the text buffer.

    Provider outputs are given: a `Run` is the items a provider stream yields,
    and whether it then raises. The other side of the connection may call
    `interrupt()` while the turn is suspended; `arrives(c)` says whether it
    has done so by the `c`-th read of the flag. */
module Orchestrator {
  import opened Text
  import opened Events

  // ---------------------------------------------------------------------
  // SENTENCE_PATTERN = `([.!?]+\s+|\.{3}\s+)`, as `re.search` runs it
  // ---------------------------------------------------------------------

  /** Where the run of terminators starting at `p` ends. */
  function TermRunEnd(b: string, p: nat): (q: nat)
    requires p <= |b|
    ensures p <= q <= |b|
    ensures q == |b| || !IsTerminator(b[q])
    decreases |b| - p
  {
    if p < |b| && IsTerminator(b[p]) then TermRunEnd(b, p + 1) else p
  }

  /** The run holds terminators only. */
  lemma {:induction false} TermRunAll(b: string, p: nat)
    requires p <= |b|
    ensures forall i :: p <= i < TermRunEnd(b, p) ==> IsTerminator(b[i])
    decreases |b| - p
  {
    if p < |b| && IsTerminator(b[p]) {
      TermRunAll(b, p + 1);
    }
  }

  /** `[.!?]+` holding the terminators `p..q-1`, giving them back one at a
      time until `\s+` matches after them. */
  function GiveBack(b: string, p: nat, q: nat): (r: Option<nat>)
    requires p < q <= |b|
    ensures r.Some? ==> p < r.value <= |b|
    decreases q
  {
    if q < |b| && IsSpace(b[q]) then Some(SpaceRunEnd(b, q))
    else if q - 1 > p then GiveBack(b, p, q - 1)
    else None
  }

  /** The first alternative, `[.!?]+\s+`, tried at `p`: where its match ends. */
  function RunAlternative(b: string, p: nat): (r: Option<nat>)
    requires p <= |b|
    ensures r.Some? ==> p < r.value <= |b|
  {
    if p < |b| && IsTerminator(b[p]) then GiveBack(b, p, TermRunEnd(b, p)) else None
  }

  /** The second alternative, `\.{3}\s+`, tried at `p`. */
  function EllipsisAlternative(b: string, p: nat): (r: Option<nat>)
    requires p <= |b|
    ensures r.Some? ==> p < r.value <= |b|
  {
    if p + 3 < |b| && b[p] == '.' && b[p + 1] == '.' && b[p + 2] == '.' && IsSpace(b[p + 3])
    then Some(SpaceRunEnd(b, p + 3))
    else None
  }

  /** The pattern tried at `p`: the first alternative, else the second. */
  function PatternAt(b: string, p: nat): (r: Option<nat>)
    requires p <= |b|
    ensures r.Some? ==> p < r.value <= |b|
  {
    match RunAlternative(b, p)
    case Some(e) => Some(e)
    case None => EllipsisAlternative(b, p)
  }

  /** `SENTENCE_PATTERN.search(b[s..])`: the end of the match at the
      leftmost start position from `s` on. */
  function SearchFrom(b: string, s: nat): (r: Option<nat>)
    requires s <= |b|
    ensures r.Some? ==> s < r.value <= |b|
    decreases |b| - s
  {
    match PatternAt(b, s)
    case Some(e) => Some(e)
    case None => if s == |b| then None else SearchFrom(b, s + 1)
  }

  /** `SENTENCE_PATTERN.search(b).end()`, when there is a match. */
  function Search(b: string): (r: Option<nat>)
    ensures r.Some? ==> 0 < r.value <= |b|
  {
    SearchFrom(b, 0)
  }

  /** Where the first sentence of `b` ends, if it has one: after the
      whitespace that follows its first boundary. `SearchIsSentenceEnd`
      shows that this is where the pattern's match ends. */
  function SentenceEnd(b: string): (r: Option<nat>)
    ensures r.Some? ==> 0 < r.value <= |b|
  {
    match FirstBoundary(b, 0)
    case Some(i) => Some(SpaceRunEnd(b, i + 1))
    case None => None
  }

  /** A terminator directly followed by whitespace at `i`: the place where a
      sentence may end. */
  predicate BoundaryAt(b: string, i: nat) {
    i + 1 < |b| && IsTerminator(b[i]) && IsSpace(b[i + 1])
  }

  /** The first boundary at or after `s`. */
  function FirstBoundary(b: string, s: nat): (r: Option<nat>)
    requires s <= |b|
    ensures r.Some? ==> s <= r.value && r.value + 1 < |b|
    decreases |b| - s
  {
    if s == |b| then None
    else if BoundaryAt(b, s) then Some(s)
    else FirstBoundary(b, s + 1)
  }

  /** `FirstBoundary` finds a boundary, and none comes before it. */
  lemma {:induction false} FirstBoundaryFirst(b: string, s: nat)
    requires s <= |b|
    ensures var r := FirstBoundary(b, s);
      && (r.Some? ==> BoundaryAt(b, r.value) && forall j :: s <= j < r.value ==> !BoundaryAt(b, j))
      && (r.None? ==> forall j :: s <= j ==> !BoundaryAt(b, j))
    decreases |b| - s
  {
    if s < |b| && !BoundaryAt(b, s) {
      FirstBoundaryFirst(b, s + 1);
    }
  }

  /** Giving back terminators never helps: `\s+` can only follow the whole run. */
  lemma {:induction false} GiveBackOnlyAtRunEnd(b: string, p: nat, q: nat)
    requires p < q <= |b| && q <= TermRunEnd(b, p)
    ensures GiveBack(b, p, q) ==
      (if q == TermRunEnd(b, p) && q < |b| && IsSpace(b[q]) then Some(SpaceRunEnd(b, q)) else None)
    decreases q
  {
    TermRunAll(b, p);
    if !(q < |b| && IsSpace(b[q])) && q - 1 > p {
      GiveBackOnlyAtRunEnd(b, p, q - 1);
    }
  }

  /** The pattern matches at `p` exactly when a run of terminators starts at
      `p` and whitespace follows it; the ellipsis alternative adds nothing. */
  lemma PatternAtRun(b: string, p: nat)
    requires p <= |b|
    ensures PatternAt(b, p) ==
      (if p < |b| && IsTerminator(b[p]) && TermRunEnd(b, p) < |b| && IsSpace(b[TermRunEnd(b, p)])
       then Some(SpaceRunEnd(b, TermRunEnd(b, p))) else None)
  {
    if p < |b| && IsTerminator(b[p]) {
      GiveBackOnlyAtRunEnd(b, p, TermRunEnd(b, p));
      if EllipsisAlternative(b, p).Some? {
        assert TermRunEnd(b, p) == TermRunEnd(b, p + 1);
        assert TermRunEnd(b, p + 1) == TermRunEnd(b, p + 2);
        assert TermRunEnd(b, p + 2) == TermRunEnd(b, p + 3);
      }
    }
  }

  /** A match at `s` ends after the whitespace that follows the run of
      terminators, whose last one is the first boundary. */
  lemma SearchHere(b: string, s: nat)
    requires s <= |b| && PatternAt(b, s).Some?
    ensures FirstBoundary(b, s) == Some(TermRunEnd(b, s) - 1)
    ensures SearchFrom(b, s) == Some(SpaceRunEnd(b, TermRunEnd(b, s)))
  {
    PatternAtRun(b, s);
    FirstBoundaryFirst(b, s);
    TermRunAll(b, s);
    var q := TermRunEnd(b, s);
    assert BoundaryAt(b, q - 1);
    assert forall j :: s <= j < q - 1 ==> !BoundaryAt(b, j);
  }

  /** No match at `s`: no boundary there either, and the search moves on. */
  lemma SearchOn(b: string, s: nat)
    requires s < |b| && PatternAt(b, s).None?
    ensures FirstBoundary(b, s) == FirstBoundary(b, s + 1)
    ensures SearchFrom(b, s) == SearchFrom(b, s + 1)
  {
    PatternAtRun(b, s);
    assert !BoundaryAt(b, s);
  }

  /** The search ends right after the whitespace that follows the first
      boundary. */
  lemma {:induction false} SearchFromBoundary(b: string, s: nat)
    requires s <= |b|
    ensures SearchFrom(b, s) ==
      (match FirstBoundary(b, s) case Some(i) => Some(SpaceRunEnd(b, i + 1)) case None => None)
    decreases |b| - s
  {
    if PatternAt(b, s).Some? {
      SearchHere(b, s);
    } else if s < |b| {
      SearchOn(b, s);
      SearchFromBoundary(b, s + 1);
    }
  }

  /** The regular expression's search ends where the first sentence ends. */
  lemma SearchIsSentenceEnd(b: string)
    ensures Search(b) == SentenceEnd(b)
  {
    SearchFromBoundary(b, 0);
  }

  /** A sentence end is found exactly when the text holds a terminator
      directly followed by whitespace. */
  lemma SentenceEndIff(b: string)
    ensures SentenceEnd(b).Some? <==> exists i :: BoundaryAt(b, i)
  {
    FirstBoundaryFirst(b, 0);
  }

  // ---------------------------------------------------------------------
  // The turn, as it runs when no interrupt arrives
  // ---------------------------------------------------------------------

  /** A provider stream: the items it yields, and whether it raises after
      them. */
  datatype Run<T> = Run(items: seq<T>, fails: bool)

  /** What a turn, or a stage of it, produces: the events it yields, the text
      left in the sentence buffer, and whether an exception escapes. */
  datatype Outcome = Outcome(events: seq<VoiceEvent>, buffer: string, raised: bool)

  /** The events one synthesis passes on: every audio chunk with its own
      `final` flag. An exception after them is swallowed. */
  function Speak(r: Run<AudioChunk>): seq<VoiceEvent> {
    Voiced(r.items)
  }

  /** One audio event per chunk, in the order the chunks arrive. */
  function Voiced(items: seq<AudioChunk>): (ev: seq<VoiceEvent>)
    ensures |ev| == |items|
  {
    if items == [] then []
    else
      var last := items[|items| - 1];
      Voiced(items[..|items| - 1]) + [AgentAudioChunk(last.audio, last.final)]
  }

  /** Each event carries its chunk's audio and `final` flag. */
  lemma {:induction false} VoicedEach(items: seq<AudioChunk>)
    ensures forall i :: 0 <= i < |items| ==> Voiced(items)[i] == AgentAudioChunk(items[i].audio, items[i].final)
  {
    if items != [] {
      VoicedEach(items[..|items| - 1]);
    }
  }

  /** The events of the first `j` chunks are the first `j` events. */
  lemma VoicedPrefix(items: seq<AudioChunk>, j: nat)
    requires j <= |items|
    ensures Voiced(items[..j]) == Voiced(items)[..j]
  {
    VoicedEach(items);
    VoicedEach(items[..j]);
  }

  /** What the sentence loop does to a buffer: the audio events of the
      sentences it synthesises, the sentences, the raw prefixes it removes and
      the text it leaves. */
  datatype Drained = Drained(events: seq<VoiceEvent>, sentences: seq<string>, taken: seq<string>, rest: string)

  /** The inner `while text_buffer` loop: cut the buffer after every sentence
      end, synthesise the stripped sentence, keep the rest. */
  function Drain(buf: string, tts: string -> Run<AudioChunk>): (d: Drained)
    decreases |buf|
  {
    if buf == [] then Drained([], [], [], buf)
    else match SentenceEnd(buf)
      case None => Drained([], [], [], buf)
      case Some(e) =>
        var sentence := Strip(buf[..e]);
        var d := Drain(buf[e..], tts);
        if sentence != [] then
          Drained(Speak(tts(sentence)) + d.events, [sentence] + d.sentences, [buf[..e]] + d.taken, d.rest)
        else
          Drained(d.events, d.sentences, [buf[..e]] + d.taken, d.rest)
  }

  /** `text_buffer += llm_response.text`, which the source does only for a
      non-empty text. */
  function Append(buf: string, text: string): string {
    if text != [] then buf + text else buf
  }

  /** What the loop yields for one response with `buf` in the buffer: the
      text event, then the audio of the sentences it completes. */
  function Answered(r: LlmResponse, buf: string, tts: string -> Run<AudioChunk>): (ev: seq<VoiceEvent>)
    ensures |ev| >= 1 && ev[0] == AgentTextChunk(r.text, r.final)
  {
    [AgentTextChunk(r.text, r.final)] + Drain(Append(buf, r.text), tts).events
  }

  /** The language-model loop from `items` on, with `buf` in the buffer: one
      text event per response, then the audio of the sentences it completes;
      the loop ends after the first final response. */
  function Converse(items: seq<LlmResponse>, fails: bool, buf: string, tts: string -> Run<AudioChunk>): (o: Outcome)
    decreases |items|
  {
    if items == [] then Outcome([], buf, fails)
    else
      var r := items[0];
      var rest := Drain(Append(buf, r.text), tts).rest;
      if r.final then Outcome(Answered(r, buf, tts), rest, false)
      else
        var o := Converse(items[1..], fails, rest, tts);
        Outcome(Answered(r, buf, tts) + o.events, o.buffer, o.raised)
  }

  /** The index of the transcript the turn uses: the first final one with
      text. */
  function Chosen(results: seq<Transcript>): (r: Option<nat>)
    ensures r.Some? ==> r.value < |results| && results[r.value].final && results[r.value].text != []
    ensures r.Some? ==> forall j :: 0 <= j < r.value ==> !(results[j].final && results[j].text != [])
    ensures r.None? ==> forall j :: 0 <= j < |results| ==> !(results[j].final && results[j].text != [])
  {
    if results == [] then None
    else if results[0].final && results[0].text != [] then Some(0)
    else match Chosen(results[1..])
      case Some(i) => Some(i + 1)
      case None => None
  }

  /** The synthesis of what is left in the buffer once the language model
      is done. */
  function Flush(buf: string, tts: string -> Run<AudioChunk>): seq<VoiceEvent>
  {
    if Strip(buf) != [] then Speak(tts(Strip(buf))) else []
  }

  /** What the turn yields after a transcript with text: the language-model
      loop, then, unless it raised, the synthesis of what is left. */
  function Response(t: string, llm: string -> Run<LlmResponse>, tts: string -> Run<AudioChunk>): (o: Outcome)
  {
    var c := Converse(llm(t).items, llm(t).fails, [], tts);
    if c.raised then c else Outcome(c.events + Flush(c.buffer, tts), c.buffer, false)
  }

  /** The transcript the turn uses: the text of the first final result with
      text, or the empty text when there is none. */
  function Heard(results: seq<Transcript>): (t: string)
    ensures t == [] <==> Chosen(results).None?
  {
    match Chosen(results)
    case Some(i) => results[i].text
    case None => []
  }

  /** The turn from the transcript on: nothing without a transcript (and
      the speech-to-text error, if any); the transcript event alone when it is
      blank; otherwise the transcript event and the response. */
  function TurnWith(t: string, sttFails: bool, llm: string -> Run<LlmResponse>, tts: string -> Run<AudioChunk>): (o: Outcome)
  {
    if t == [] then Outcome([], [], sttFails)
    else if Strip(t) == [] then Outcome([TranscriptChunk(t, true)], [], false)
    else
      var r := Response(t, llm, tts);
      Outcome([TranscriptChunk(t, true)] + r.events, r.buffer, r.raised)
  }

  /** The events of a whole turn when no interrupt arrives. */
  function Turn(stt: Run<Transcript>, llm: string -> Run<LlmResponse>, tts: string -> Run<AudioChunk>): (o: Outcome)
  {
    TurnWith(Heard(stt.items), stt.fails, llm, tts)
  }

  // ---------------------------------------------------------------------
  // What a turn promises
  // ---------------------------------------------------------------------

  /** One cut of the sentence loop takes a piece that holds a terminator
      followed by whitespace and ends at the end of that whitespace. */
  lemma SentencePiece(buf: string)
    requires SentenceEnd(buf).Some?
    ensures var e := SentenceEnd(buf).value;
      && IsSpace(buf[e - 1]) && (e == |buf| || !IsSpace(buf[e]))
      && exists i :: BoundaryAt(buf[..e], i)
  {
    FirstBoundaryFirst(buf, 0);
    var i := FirstBoundary(buf, 0).value;
    var e := SentenceEnd(buf).value;
    SpaceRunBlank(buf, i + 1);
    assert buf[i + 1..e][e - 1 - (i + 1)] == buf[e - 1];
    assert BoundaryAt(buf[..e], i);
  }

  /** The sentence loop cuts the buffer into pieces: what it took, back to
      back, and what it left make up the buffer again. */
  lemma {:induction false} DrainKeepsText(buf: string, tts: string -> Run<AudioChunk>)
    ensures Flatten(Drain(buf, tts).taken) + Drain(buf, tts).rest == buf
    decreases |buf|
  {
    if buf != [] && SentenceEnd(buf).Some? {
      var e := SentenceEnd(buf).value;
      var head, tail := buf[..e], buf[e..];
      assert head + tail == buf;
      var d := Drain(tail, tts);
      DrainUnfold(buf, tts);
      DrainKeepsText(tail, tts);
      var taken := [head] + d.taken;
      assert taken[0] == head && taken[1..] == d.taken;
      assert Flatten(taken) == head + Flatten(d.taken);
      AppendAssoc(head, Flatten(d.taken), d.rest);
    }
  }

  /** A piece of text that ends a sentence: a terminator followed by
      whitespace in it, and whitespace at its end. */
  ghost predicate EndsSentence(p: string) {
    p != [] && IsSpace(p[|p| - 1]) && exists i :: BoundaryAt(p, i)
  }

  /** Every piece the sentence loop takes ends a sentence. */
  lemma {:induction false} DrainTakesSentences(buf: string, tts: string -> Run<AudioChunk>)
    ensures forall p :: p in Drain(buf, tts).taken ==> EndsSentence(p)
    decreases |buf|
  {
    if buf != [] && SentenceEnd(buf).Some? {
      var e := SentenceEnd(buf).value;
      SentencePiece(buf);
      assert EndsSentence(buf[..e]);
      DrainTakesSentences(buf[e..], tts);
    }
  }

  /** Every sentence sent to synthesis has text and no surrounding
      whitespace. */
  lemma {:induction false} DrainSentencesStripped(buf: string, tts: string -> Run<AudioChunk>)
    ensures forall s :: s in Drain(buf, tts).sentences ==> s != [] && IsStripped(s)
    decreases |buf|
  {
    if buf != [] && SentenceEnd(buf).Some? {
      var e := SentenceEnd(buf).value;
      var sentence := Strip(buf[..e]);
      var later := Drain(buf[e..], tts).sentences;
      DrainSentencesStripped(buf[e..], tts);
      if sentence != [] {
        assert Drain(buf, tts).sentences == [sentence] + later;
      } else {
        assert Drain(buf, tts).sentences == later;
      }
    }
  }

  /** What the sentence loop leaves holds no sentence end: no terminator in
      it is followed by whitespace. */
  lemma {:induction false} DrainLeavesNoBoundary(buf: string, tts: string -> Run<AudioChunk>)
    ensures forall i :: !BoundaryAt(Drain(buf, tts).rest, i)
    decreases |buf|
  {
    if buf != [] {
      SentenceEndIff(buf);
      if SentenceEnd(buf).Some? {
        DrainLeavesNoBoundary(buf[SentenceEnd(buf).value..], tts);
      }
    }
  }

  /** Only audio events come out of the sentence loop. */
  lemma {:induction false} DrainOnlyAudio(buf: string, tts: string -> Run<AudioChunk>)
    ensures forall e :: e in Drain(buf, tts).events ==> e.AgentAudioChunk?
    decreases |buf|
  {
    if buf != [] && SentenceEnd(buf).Some? {
      DrainOnlyAudio(buf[SentenceEnd(buf).value..], tts);
      VoicedEach(tts(Strip(buf[..SentenceEnd(buf).value])).items);
    }
  }

  /** The text events, in order. */
  function TextsOf(ev: seq<VoiceEvent>): (t: seq<VoiceEvent>)
    ensures forall e :: e in t ==> e.AgentTextChunk? && e in ev
  {
    if ev == [] then [] else (if ev[0].AgentTextChunk? then [ev[0]] else []) + TextsOf(ev[1..])
  }

  lemma {:induction false} TextsOfAppend(a: seq<VoiceEvent>, b: seq<VoiceEvent>)
    ensures TextsOf(a + b) == TextsOf(a) + TextsOf(b)
  {
    if a != [] {
      assert (a + b)[0] == a[0] && (a + b)[1..] == a[1..] + b;
      TextsOfAppend(a[1..], b);
      AppendAssoc(if a[0].AgentTextChunk? then [a[0]] else [], TextsOf(a[1..]), TextsOf(b));
    } else {
      assert a + b == b;
    }
  }

  lemma {:induction false} TextsOfAudio(ev: seq<VoiceEvent>)
    requires forall e :: e in ev ==> e.AgentAudioChunk?
    ensures TextsOf(ev) == []
  {
    if ev != [] {
      assert ev[0] in ev;
      assert forall e :: e in ev[1..] ==> e in ev;
      TextsOfAudio(ev[1..]);
    }
  }

  /** One text event per model response, up to and including the first
      final one. */
  function Echoed(items: seq<LlmResponse>): (ev: seq<VoiceEvent>)
    ensures |ev| <= |items|
  {
    if items == [] then []
    else [AgentTextChunk(items[0].text, items[0].final)] + (if items[0].final then [] else Echoed(items[1..]))
  }

  /** The client sees every response's text as it streams in, unchanged and
      in order, up to the final one. */
  lemma {:induction false} ConverseEchoes(items: seq<LlmResponse>, fails: bool, buf: string, tts: string -> Run<AudioChunk>)
    ensures TextsOf(Converse(items, fails, buf, tts).events) == Echoed(items)
    decreases |items|
  {
    if items != [] {
      var r := items[0];
      var d := Drain(Append(buf, r.text), tts);
      DrainOnlyAudio(Append(buf, r.text), tts);
      TextsOfAudio(d.events);
      TextsOfAppend([AgentTextChunk(r.text, r.final)], d.events);
      assert TextsOf([AgentTextChunk(r.text, r.final)]) == [AgentTextChunk(r.text, r.final)];
      if !r.final {
        ConverseEchoes(items[1..], fails, d.rest, tts);
        TextsOfAppend(Answered(r, buf, tts), Converse(items[1..], fails, d.rest, tts).events);
      }
    }
  }

  /** The text of the responses the loop reads, up to the final one, back
      to back. */
  function Fed(items: seq<LlmResponse>): (t: string)
    ensures items != [] ==> |t| >= |items[0].text|
  {
    if items == [] then []
    else items[0].text + (if items[0].final then [] else Fed(items[1..]))
  }

  /** The raw prefixes the sentence loop removes from the buffer over the
      whole language-model loop. */
  function Removed(items: seq<LlmResponse>, buf: string, tts: string -> Run<AudioChunk>): (ps: seq<string>)
    decreases |items|
  {
    if items == [] then []
    else
      var d := Drain(Append(buf, items[0].text), tts);
      d.taken + (if items[0].final then [] else Removed(items[1..], d.rest, tts))
  }

  /** Nothing the model says is lost or invented: what the sentence loop
      removed, back to back, followed by the buffer left at the end, is the
      starting buffer followed by every response text read. */
  lemma {:induction false} ConverseKeepsText(items: seq<LlmResponse>, fails: bool, buf: string, tts: string -> Run<AudioChunk>)
    ensures Flatten(Removed(items, buf, tts)) + Converse(items, fails, buf, tts).buffer == buf + Fed(items)
    decreases |items|
  {
    if items == [] {
      assert buf + Fed(items) == buf;
    } else {
      var r := items[0];
      var b1 := Append(buf, r.text);
      var d := Drain(b1, tts);
      assert b1 == buf + r.text;
      DrainKeepsText(b1, tts);
      if r.final {
        assert Removed(items, buf, tts) == d.taken;
        assert Fed(items) == r.text;
      } else {
        var tail := Removed(items[1..], d.rest, tts);
        ConverseKeepsText(items[1..], fails, d.rest, tts);
        FlattenAppend(d.taken, tail);
        assert Removed(items, buf, tts) == d.taken + tail;
        assert Converse(items, fails, buf, tts).buffer == Converse(items[1..], fails, d.rest, tts).buffer;
        assert Fed(items) == r.text + Fed(items[1..]);
        Regroup(Flatten(d.taken), d.rest, Flatten(tail), Converse(items[1..], fails, d.rest, tts).buffer,
          buf, r.text, Fed(items[1..]));
      }
    }
  }

  /** Bookkeeping for `ConverseKeepsText`: two cuts, one after the other. */
  lemma Regroup(f: string, rest: string, g: string, left: string, buf: string, t: string, more: string)
    requires f + rest == buf + t && g + left == rest + more
    ensures (f + g) + left == buf + (t + more)
  {
    calc {
      (f + g) + left;
      f + (g + left);
      f + (rest + more);
      (f + rest) + more;
      (buf + t) + more;
    }
  }

  /** The model loop raises exactly when the stream raises before any final
      response. */
  lemma {:induction false} ConverseRaises(items: seq<LlmResponse>, fails: bool, buf: string, tts: string -> Run<AudioChunk>)
    ensures Converse(items, fails, buf, tts).raised <==> fails && forall i :: 0 <= i < |items| ==> !items[i].final
    decreases |items|
  {
    if items != [] && !items[0].final {
      var d := Drain(Append(buf, items[0].text), tts);
      ConverseRaises(items[1..], fails, d.rest, tts);
      assert forall i :: 1 <= i < |items| ==> items[i] == items[1..][i - 1];
    }
  }

  /** Only text and audio events come out of the model loop. */
  lemma {:induction false} ConverseKinds(items: seq<LlmResponse>, fails: bool, buf: string, tts: string -> Run<AudioChunk>)
    ensures forall e :: e in Converse(items, fails, buf, tts).events ==> e.AgentTextChunk? || e.AgentAudioChunk?
    decreases |items|
  {
    if items != [] {
      var r := items[0];
      var d := Drain(Append(buf, r.text), tts);
      DrainOnlyAudio(Append(buf, r.text), tts);
      if !r.final {
        ConverseKinds(items[1..], fails, d.rest, tts);
      }
    }
  }

  /** Only text and audio events follow the transcript. */
  lemma ResponseKinds(t: string, llm: string -> Run<LlmResponse>, tts: string -> Run<AudioChunk>)
    ensures forall e :: e in Response(t, llm, tts).events ==> e.AgentTextChunk? || e.AgentAudioChunk?
  {
    var c := Converse(llm(t).items, llm(t).fails, [], tts);
    ConverseKinds(llm(t).items, llm(t).fails, [], tts);
    if !c.raised {
      VoicedEach(tts(Strip(c.buffer)).items);
      assert forall e :: e in Flush(c.buffer, tts) ==> e.AgentAudioChunk?;
    }
  }

  /** A turn yields something exactly when there is a transcript; the
      transcript event comes first and only once; a blank transcript is all
      the turn yields. */
  lemma TurnTranscriptFirst(stt: Run<Transcript>, llm: string -> Run<LlmResponse>, tts: string -> Run<AudioChunk>)
    ensures Turn(stt, llm, tts).events != [] <==> Heard(stt.items) != []
    ensures Turn(stt, llm, tts).events != [] ==>
      && Turn(stt, llm, tts).events[0] == TranscriptChunk(Heard(stt.items), true)
      && forall k :: 0 < k < |Turn(stt, llm, tts).events| ==> !Turn(stt, llm, tts).events[k].TranscriptChunk?
    ensures Blank(Heard(stt.items)) ==> |Turn(stt, llm, tts).events| <= 1
  {
    var t := Heard(stt.items);
    StripEmpty(t);
    if t != [] && Strip(t) != [] {
      var r := Response(t, llm, tts);
      ResponseKinds(t, llm, tts);
      var ev := [TranscriptChunk(t, true)] + r.events;
      assert Turn(stt, llm, tts).events == ev;
      assert forall k :: 0 < k < |ev| ==> ev[k] == r.events[k - 1] && ev[k] in r.events;
    }
  }

  /** A turn raises exactly when the speech-to-text stream raised without a
      transcript, or the model stream raised before a final response to a
      transcript with text. */
  lemma TurnRaises(stt: Run<Transcript>, llm: string -> Run<LlmResponse>, tts: string -> Run<AudioChunk>)
    ensures var t := Heard(stt.items);
      Turn(stt, llm, tts).raised <==>
        || (t == [] && stt.fails)
        || (!Blank(t) && llm(t).fails && forall i :: 0 <= i < |llm(t).items| ==> !llm(t).items[i].final)
  {
    var t := Heard(stt.items);
    StripEmpty(t);
    ConverseRaises(llm(t).items, llm(t).fails, [], tts);
  }

  /** Two synthesis services that stream the same chunks for every sentence
      lead to the same turn, whether or not they raise afterwards: a failing
      synthesis is logged and the turn goes on. */
  lemma {:induction false} DrainIgnoresTtsFailure(buf: string, tts1: string -> Run<AudioChunk>, tts2: string -> Run<AudioChunk>)
    requires forall s :: tts1(s).items == tts2(s).items
    ensures Drain(buf, tts1) == Drain(buf, tts2)
    decreases |buf|
  {
    if buf != [] && SentenceEnd(buf).Some? {
      DrainIgnoresTtsFailure(buf[SentenceEnd(buf).value..], tts1, tts2);
    }
  }

  lemma {:induction false} ConverseIgnoresTtsFailure(items: seq<LlmResponse>, fails: bool, buf: string,
                                                     tts1: string -> Run<AudioChunk>, tts2: string -> Run<AudioChunk>)
    requires forall s :: tts1(s).items == tts2(s).items
    ensures Converse(items, fails, buf, tts1) == Converse(items, fails, buf, tts2)
    decreases |items|
  {
    if items != [] {
      var r := items[0];
      DrainIgnoresTtsFailure(Append(buf, r.text), tts1, tts2);
      if !r.final {
        ConverseIgnoresTtsFailure(items[1..], fails, Drain(Append(buf, r.text), tts1).rest, tts1, tts2);
      }
    }
  }

  lemma TurnIgnoresTtsFailure(stt: Run<Transcript>, llm: string -> Run<LlmResponse>,
                              tts1: string -> Run<AudioChunk>, tts2: string -> Run<AudioChunk>)
    requires forall s :: tts1(s).items == tts2(s).items
    ensures Turn(stt, llm, tts1) == Turn(stt, llm, tts2)
  {
    var t := Heard(stt.items);
    ConverseIgnoresTtsFailure(llm(t).items, llm(t).fails, [], tts1, tts2);
  }

  // ---------------------------------------------------------------------
  // Interrupts
  // ---------------------------------------------------------------------

  /** No interrupt arrived before the `c`-th read of the flag. */
  ghost predicate Quiet(arrives: nat -> bool, c: nat) {
    forall j :: 0 <= j < c ==> !arrives(j)
  }

  /** A stage that reads the flag from the `c`-th to the `c2`-th time and
      whose uninterrupted events are `spec` yielded `ev`: all of `spec` when
      no interrupt arrived, else a prefix of it, yielded before the read that
      saw the interrupt; never more events than reads. */
  ghost predicate Ran(spec: seq<VoiceEvent>, ev: seq<VoiceEvent>, arrives: nat -> bool, c: nat, c2: nat, stopped: bool) {
    && c <= c2
    && (!stopped ==> Quiet(arrives, c2) && ev == spec && |ev| <= c2 - c)
    && (stopped ==> c < c2 && Quiet(arrives, c2 - 1) && arrives(c2 - 1) && |ev| <= c2 - 1 - c
                    && |ev| <= |spec| && ev == spec[..|ev|])
  }

  /** Two stages one after the other. */
  lemma RanThen(s1: seq<VoiceEvent>, e1: seq<VoiceEvent>, s2: seq<VoiceEvent>, e2: seq<VoiceEvent>,
                arrives: nat -> bool, c0: nat, c1: nat, c2: nat, stopped: bool)
    requires Ran(s1, e1, arrives, c0, c1, false) && Ran(s2, e2, arrives, c1, c2, stopped)
    ensures Ran(s1 + s2, e1 + e2, arrives, c0, c2, stopped)
  {
    if stopped {
      assert (s1 + s2)[..|e1 + e2|] == s1 + s2[..|e2|];
    }
  }

  /** A stopped stage stays a prefix of anything its events are extended by. */
  lemma RanExtend(s: seq<VoiceEvent>, e: seq<VoiceEvent>, more: seq<VoiceEvent>, arrives: nat -> bool, c: nat, c2: nat)
    requires Ran(s, e, arrives, c, c2, true)
    ensures Ran(s + more, e, arrives, c, c2, true)
  {
    assert (s + more)[..|e|] == s[..|e|];
  }

  /** The audio events of one sentence: none for an empty one. */
  function Said(sentence: string, tts: string -> Run<AudioChunk>): (ev: seq<VoiceEvent>)
    ensures sentence == [] ==> ev == []
  {
    if sentence != [] then Speak(tts(sentence)) else []
  }

  /** One turn of the sentence loop. */
  lemma DrainUnfold(buf: string, tts: string -> Run<AudioChunk>)
    requires buf != [] && SentenceEnd(buf).Some?
    ensures var e := SentenceEnd(buf).value;
      && Drain(buf, tts).events == Said(Strip(buf[..e]), tts) + Drain(buf[e..], tts).events
      && Drain(buf, tts).taken == [buf[..e]] + Drain(buf[e..], tts).taken
      && Drain(buf, tts).rest == Drain(buf[e..], tts).rest
  {
  }

  /** The sentence loop stops with nothing more to say. */
  lemma DrainStops(buf: string, tts: string -> Run<AudioChunk>)
    requires buf == [] || SentenceEnd(buf).None?
    ensures Drain(buf, tts).events == [] && Drain(buf, tts).rest == buf
  {
  }

  /** A read that finds no interrupt lets one more event out. */
  lemma RanRead(ev: seq<VoiceEvent>, x: VoiceEvent, arrives: nat -> bool, c: nat, c2: nat)
    requires Ran(ev, ev, arrives, c, c2, false) && !arrives(c2)
    ensures Ran(ev + [x], ev + [x], arrives, c, c2 + 1, false)
  {
  }

  /** A read that finds the interrupt ends the stage with what it has
      yielded so far. */
  lemma RanStop(ev: seq<VoiceEvent>, more: seq<VoiceEvent>, arrives: nat -> bool, c: nat, c2: nat)
    requires Ran(ev, ev, arrives, c, c2, false) && arrives(c2)
    ensures Ran(ev + more, ev, arrives, c, c2 + 1, true)
  {
    assert (ev + more)[..|ev|] == ev;
  }

  class VoicePipeline {
    /** `_interrupted`. (`_current_tts_task` is never assigned, so the
        cancellation in `interrupt()` never runs; it is not modelled.) */
    var interrupted: bool

    constructor()
      ensures !interrupted
    {
      interrupted := false;
    }

    /** `interrupt()`. */
    method Interrupt()
      modifies this
      ensures interrupted
    {
      interrupted := true;
    }

    /** The `c`-th read of `self._interrupted`; just before it the other side
        may have called `interrupt()`. */
    method ReadFlag(arrives: nat -> bool, c: nat) returns (flag: bool, next: nat)
      modifies this
      ensures next == c + 1
      ensures interrupted == (old(interrupted) || arrives(c))
      ensures flag == interrupted
    {
      if arrives(c) {
        Interrupt();
      }
      flag := interrupted;
      next := c + 1;
    }

    /** One `async for audio_chunk in self.tts_provider.stream_speech(...)`
        loop: each chunk is passed on after a read of the flag. */
    method SpeakAll(r: Run<AudioChunk>, arrives: nat -> bool, c: nat) returns (ev: seq<VoiceEvent>, c2: nat)
      requires !interrupted && Quiet(arrives, c)
      modifies this
      ensures Ran(Speak(r), ev, arrives, c, c2, interrupted)
    {
      ev := [];
      c2 := c;
      var j := 0;
      while j < |r.items|
        invariant 0 <= j <= |r.items| && c2 == c + j
        invariant !interrupted && Quiet(arrives, c2)
        invariant ev == Voiced(r.items[..j])
      {
        var flag;
        flag, c2 := ReadFlag(arrives, c2);
        if flag {
          VoicedPrefix(r.items, j);
          return;
        }
        assert r.items[..j + 1][..j] == r.items[..j];
        ev := ev + [AgentAudioChunk(r.items[j].audio, r.items[j].final)];
        j := j + 1;
      }
      assert r.items[..j] == r.items;
    }

    /** The `while text_buffer` loop (pipeline.py:102-131). */
    method DrainBuffer(buf0: string, tts: string -> Run<AudioChunk>, arrives: nat -> bool, c: nat)
      returns (ev: seq<VoiceEvent>, buf: string, c2: nat)
      requires !interrupted && Quiet(arrives, c)
      modifies this
      ensures Ran(Drain(buf0, tts).events, ev, arrives, c, c2, interrupted)
      ensures !interrupted ==> buf == Drain(buf0, tts).rest
    {
      ghost var whole := Drain(buf0, tts);
      ev, buf, c2 := [], buf0, c;
      assert [] + whole.events == whole.events;
      var waiting := false;
      while !waiting
        invariant !interrupted && Ran(ev, ev, arrives, c, c2, false)
        invariant whole.events == ev + Drain(buf, tts).events
        invariant whole.rest == Drain(buf, tts).rest
        invariant waiting ==> Drain(buf, tts).events == [] && Drain(buf, tts).rest == buf
        decreases |buf|, !waiting
      {
        var e, rest, c3;
        e, rest, c3, waiting := SpeakSentence(whole, ev, buf, tts, arrives, c, c2);
        ev, c2 := e, c3;
        if interrupted {
          return;
        }
        buf := rest;
      }
      assert ev + [] == ev;
    }

    /** One pass of the sentence loop that finds a sentence end: the buffer
        is cut after it and the stripped sentence, if any, is synthesised. */
    method SpeakSentence(ghost whole: Drained, ev: seq<VoiceEvent>, buf: string, tts: string -> Run<AudioChunk>,
                         arrives: nat -> bool, c: nat, c2: nat)
      returns (ev2: seq<VoiceEvent>, rest: string, c3: nat, waiting: bool)
      requires !interrupted && Ran(ev, ev, arrives, c, c2, false)
      requires whole.events == ev + Drain(buf, tts).events
      requires whole.rest == Drain(buf, tts).rest
      modifies this
      ensures waiting ==> !interrupted && ev2 == ev && rest == buf && c3 == c2
      ensures waiting ==> Drain(buf, tts).events == [] && Drain(buf, tts).rest == buf
      ensures !waiting ==> |rest| < |buf|
      ensures interrupted ==> Ran(whole.events, ev2, arrives, c, c3, true)
      ensures !interrupted ==>
        && Ran(ev2, ev2, arrives, c, c3, false)
        && whole.events == ev2 + Drain(rest, tts).events
        && whole.rest == Drain(rest, tts).rest
    {
      ev2, rest, c3 := ev, buf, c2;
      var m := if buf == [] then None else SentenceEnd(buf);
      waiting := m.None?;
      if waiting {
        DrainStops(buf, tts);
        return;
      }
      var e := m.value;
      var sentence := Strip(buf[..e]);
      rest := buf[e..];
      var later := Drain(rest, tts).events;
      DrainUnfold(buf, tts);
      AppendAssoc(ev, Said(sentence, tts), later);
      if sentence == [] {
        assert ev + Said(sentence, tts) == ev;
        return;
      }
      var said, c4 := SpeakAll(tts(sentence), arrives, c2);
      RanThen(ev, ev, Said(sentence, tts), said, arrives, c, c2, c4, interrupted);
      if interrupted {
        RanExtend(ev + Said(sentence, tts), ev + said, later, arrives, c, c4);
      }
      ev2, c3 := ev + said, c4;
    }

    /** One pass of the `async for llm_response` loop body: the flag check,
        the text event, the buffer update and the sentence loop
        (pipeline.py:87-131). */
    method Answer(r: LlmResponse, buf: string, tts: string -> Run<AudioChunk>, arrives: nat -> bool, c: nat)
      returns (ev: seq<VoiceEvent>, rest: string, c2: nat)
      requires !interrupted && Quiet(arrives, c)
      modifies this
      ensures Ran(Answered(r, buf, tts), ev, arrives, c, c2, interrupted)
      ensures !interrupted ==> rest == Drain(Append(buf, r.text), tts).rest
    {
      var flag;
      flag, c2 := ReadFlag(arrives, c);
      if flag {
        ev, rest := [], buf;
        RanStop([], Answered(r, buf, tts), arrives, c, c);
        return;
      }
      var text := [AgentTextChunk(r.text, r.final)];
      RanRead([], text[0], arrives, c, c);
      var e;
      e, rest, c2 := DrainBuffer(Append(buf, r.text), tts, arrives, c2);
      RanThen(text, text, Drain(Append(buf, r.text), tts).events, e, arrives, c, c + 1, c2, interrupted);
      ev := text + e;
    }

    /** The `async for llm_response` loop (pipeline.py:86-137), sentence
        loop included, from an empty buffer. */
    method Respond(run: Run<LlmResponse>, tts: string -> Run<AudioChunk>, arrives: nat -> bool, c: nat)
      returns (ev: seq<VoiceEvent>, buf: string, raised: bool, c2: nat)
      requires !interrupted && Quiet(arrives, c)
      modifies this
      ensures Ran(Converse(run.items, run.fails, [], tts).events, ev, arrives, c, c2, interrupted)
      ensures !interrupted ==> buf == Converse(run.items, run.fails, [], tts).buffer
      ensures raised == (!interrupted && Converse(run.items, run.fails, [], tts).raised)
    {
      ghost var whole := Converse(run.items, run.fails, [], tts);
      ghost var todo := whole;
      ev, buf, raised, c2 := [], [], false, c;
      var rem := run.items;
      assert [] + todo.events == todo.events;
      while rem != []
        invariant !interrupted && Ran(ev, ev, arrives, c, c2, false)
        invariant whole.events == ev + todo.events && whole.buffer == todo.buffer && whole.raised == todo.raised
        invariant todo == Converse(rem, run.fails, buf, tts)
      {
        var stop;
        ev, buf, c2, stop, todo := Continue(whole, todo, rem, run.fails, tts, ev, buf, arrives, c, c2);
        if stop {
          return;
        }
        rem := rem[1..];
      }
      assert ev + [] == ev;
      raised := run.fails;
    }

    /** One pass of the `async for llm_response` loop, with `items` still to
        come and `buf` in the buffer; `todo` is what the rest of the loop
        yields, `whole` what the loop yields from its start. The loop stops
        after an interrupt or a final response. */
    method Continue(ghost whole: Outcome, ghost todo: Outcome, items: seq<LlmResponse>, fails: bool,
                    tts: string -> Run<AudioChunk>, ev: seq<VoiceEvent>, buf: string, arrives: nat -> bool, c: nat, c2: nat)
      returns (ev2: seq<VoiceEvent>, rest: string, c3: nat, stop: bool, ghost todo2: Outcome)
      requires items != [] && todo == Converse(items, fails, buf, tts)
      requires !interrupted && Ran(ev, ev, arrives, c, c2, false)
      requires whole.events == ev + todo.events && whole.buffer == todo.buffer && whole.raised == todo.raised
      modifies this
      ensures stop == (interrupted || items[0].final)
      ensures stop ==> Ran(whole.events, ev2, arrives, c, c3, interrupted)
      ensures stop && !interrupted ==> rest == whole.buffer && !whole.raised
      ensures !stop ==>
        && Ran(ev2, ev2, arrives, c, c3, false)
        && whole.events == ev2 + todo2.events && whole.buffer == todo2.buffer && whole.raised == todo2.raised
        && todo2 == Converse(items[1..], fails, rest, tts)
    {
      var r := items[0];
      var e, c4;
      e, rest, c4 := Answer(r, buf, tts, arrives, c2);
      RanThen(ev, ev, Answered(r, buf, tts), e, arrives, c, c2, c4, interrupted);
      ev2, c3 := ev + e, c4;
      stop := interrupted || r.final;
      if r.final {
        todo2 := Outcome([], rest, false);
        assert Answered(r, buf, tts) + [] == Answered(r, buf, tts);
      } else {
        todo2 := Converse(items[1..], fails, rest, tts);
        AppendAssoc(ev, Answered(r, buf, tts), todo2.events);
        if interrupted {
          RanExtend(ev + Answered(r, buf, tts), ev2, todo2.events, arrives, c, c4);
        }
      }
    }

    /** The synthesis of the rest of the buffer (pipeline.py:140-150). */
    method FlushBuffer(buf: string, tts: string -> Run<AudioChunk>, arrives: nat -> bool, c: nat)
      returns (ev: seq<VoiceEvent>, c2: nat)
      requires !interrupted && Quiet(arrives, c)
      modifies this
      ensures Ran(Flush(buf, tts), ev, arrives, c, c2, interrupted)
    {
      ev, c2 := [], c;
      var remaining := Strip(buf);
      if remaining != [] {
        var flag;
        flag, c2 := ReadFlag(arrives, c2);
        if flag {
          RanStop([], Flush(buf, tts), arrives, c, c);
          return;
        }
        ev, c2 := SpeakAll(tts(remaining), arrives, c2);
        RanThen([], [], Flush(buf, tts), ev, arrives, c, c + 1, c2, interrupted);
      }
    }

    /** The `async for transcript` loop (pipeline.py:61-71): the flag is read
        before each result is looked at; the first final result with text is
        the transcript. The empty text stands for no transcript. */
    method Listen(stt: Run<Transcript>, arrives: nat -> bool) returns (transcript: string, checks: nat)
      requires !interrupted
      modifies this
      ensures interrupted ==> transcript == [] && 0 < checks && Quiet(arrives, checks - 1) && arrives(checks - 1)
      ensures !interrupted ==> Quiet(arrives, checks)
      ensures !interrupted ==> transcript == Heard(stt.items)
      ensures !interrupted && transcript != [] ==> checks == Chosen(stt.items).value + 1
    {
      transcript, checks := [], 0;
      var i := 0;
      while i < |stt.items|
        invariant 0 <= i <= |stt.items| && checks == i
        invariant !interrupted && Quiet(arrives, checks)
        invariant transcript == []
        invariant forall j :: 0 <= j < i ==> !(stt.items[j].final && stt.items[j].text != [])
      {
        var flag;
        flag, checks := ReadFlag(arrives, checks);
        if flag {
          return;
        }
        if stt.items[i].final && stt.items[i].text != [] {
          transcript := stt.items[i].text;
          assert Chosen(stt.items) == Some(i);
          return;
        }
        i := i + 1;
      }
    }

    /** The rest of the turn once a transcript with text is in
        (pipeline.py:73-150): the flag check, the language-model loop and
        the synthesis of what is left. */
    method Reply(transcript: string, llm: string -> Run<LlmResponse>, tts: string -> Run<AudioChunk>,
                 arrives: nat -> bool, c: nat)
      returns (events: seq<VoiceEvent>, raised: bool, c2: nat)
      requires !interrupted && Quiet(arrives, c)
      modifies this
      ensures Ran(Response(transcript, llm, tts).events, events, arrives, c, c2, interrupted)
      ensures raised == (!interrupted && Response(transcript, llm, tts).raised)
    {
      ghost var whole := Response(transcript, llm, tts);
      events, raised := [], false;
      var flag;
      flag, c2 := ReadFlag(arrives, c);
      if flag {
        RanStop([], whole.events, arrives, c, c);
        return;
      }
      var run := llm(transcript);
      ghost var o := Converse(run.items, run.fails, [], tts);
      var ev, buf, failed, c3 := Respond(run, tts, arrives, c2);
      RanThen([], [], o.events, ev, arrives, c, c2, c3, interrupted);
      if interrupted || failed {
        if interrupted && !o.raised {
          RanExtend(o.events, ev, Flush(o.buffer, tts), arrives, c, c3);
        }
        events, raised, c2 := ev, failed, c3;
        return;
      }
      var tail;
      tail, c2 := FlushBuffer(buf, tts, arrives, c3);
      RanThen(ev, ev, Flush(buf, tts), tail, arrives, c, c3, c2, interrupted);
      events := ev + tail;
    }

    /** The turn once the transcript loop, which started at flag read `c0`,
        has ended with `transcript` after `c` reads (pipeline.py:70-150). */
    method Proceed(transcript: string, sttFails: bool, llm: string -> Run<LlmResponse>,
                   tts: string -> Run<AudioChunk>, arrives: nat -> bool, c0: nat, c: nat)
      returns (events: seq<VoiceEvent>, raised: bool, c2: nat)
      requires !interrupted && Quiet(arrives, c) && c0 <= c && (transcript != [] ==> c0 < c)
      modifies this
      ensures Ran(TurnWith(transcript, sttFails, llm, tts).events, events, arrives, c0, c2, interrupted)
      ensures raised == (!interrupted && TurnWith(transcript, sttFails, llm, tts).raised)
    {
      if transcript == [] {
        return [], sttFails, c;
      }
      events := [TranscriptChunk(transcript, true)];
      if Strip(transcript) == [] {
        return events, false, c;
      }
      assert Ran(events, events, arrives, c0, c, false);
      var more, failed;
      more, failed, c2 := Reply(transcript, llm, tts, arrives, c);
      RanThen(events, events, Response(transcript, llm, tts).events, more, arrives, c0, c, c2, interrupted);
      events, raised := events + more, failed;
    }

    /** `process_audio_chunk` (pipeline.py:41-153): the turn yields what
        `Turn` yields, or, once a read of the flag sees an interrupt, a prefix
        of it and nothing after; an interrupted turn raises nothing. */
    method ProcessAudioChunk(stt: Run<Transcript>, llm: string -> Run<LlmResponse>,
                             tts: string -> Run<AudioChunk>, arrives: nat -> bool)
      returns (events: seq<VoiceEvent>, raised: bool, checks: nat)
      modifies this
      ensures Ran(Turn(stt, llm, tts).events, events, arrives, 0, checks, interrupted)
      ensures raised == (!interrupted && Turn(stt, llm, tts).raised)
    {
      interrupted := false;
      var transcript, c := Listen(stt, arrives);
      if interrupted {
        RanStop([], Turn(stt, llm, tts).events, arrives, 0, c - 1);
        return [], false, c;
      }
      events, raised, checks := Proceed(transcript, stt.fails, llm, tts, arrives, 0, c);
    }
  }
}
