/** `RunpodLLMProvider.stream_response` (voice_pipeline/llm/runpod.py): the
    request built from the settings, and the reading of the streamed reply
    as server-sent-event lines, each `data: ` line carrying a JSON delta.

    The HTTP exchange is the given `server`, and `json.loads` followed by
    the walk to `choices[0].delta.content` is the given `parse`. */
module RunpodLlm {
  import opened Text
  import opened Events
  import opened Orchestrator

  // ---------------------------------------------------------------------
  // The request
  // ---------------------------------------------------------------------

  /** The three settings the provider reads; `""` stands for unset. */
  datatype Settings = Settings(baseUrl: string, apiKey: string, model: string)

  /** An HTTP header. */
  datatype Header = Header(name: string, value: string)

  /** The streaming `POST` of an OpenAI-style chat completion with a single
      user message; `"stream": true` is always set. */
  datatype Request = Post(url: string, headers: seq<Header>, model: string, content: string)

  const V1: string := "/v1"
  const COMPLETIONS: string := "/chat/completions"
  /** `/v1/chat/completions`. */
  const VERSIONED_COMPLETIONS: string := V1 + COMPLETIONS
  const DEFAULT_MODEL: string := "gpt-4o-mini"
  const CONTENT_TYPE: string := "Content-Type"
  const JSON: string := "application/json"
  const AUTHORIZATION: string := "Authorization"
  const BEARER: string := "Bearer "

  /** `s.rstrip(c)` for one character `c`. */
  function RStrip(s: string, c: char): (r: string)
    ensures r <= s
    ensures r == [] || r[|r| - 1] != c
    ensures forall i :: |r| <= i < |s| ==> s[i] == c
  {
    if s != [] && s[|s| - 1] == c then RStrip(s[..|s| - 1], c) else s
  }

  /** The chat-completions URL for a base URL (runpod.py:33-39). */
  function Endpoint(base: string): (url: string)
  {
    var b := RStrip(base, '/');
    if EndsWith(b, V1) then b + COMPLETIONS else b + VERSIONED_COMPLETIONS
  }

  /** Whatever the base, the URL ends with `/v1/chat/completions`, and it is
      the base without its trailing slashes followed by at most that much. */
  lemma EndpointShape(base: string)
    ensures EndsWith(Endpoint(base), VERSIONED_COMPLETIONS)
    ensures StartsWith(Endpoint(base), RStrip(base, '/'))
    ensures |Endpoint(base)| - |RStrip(base, '/')| in {|COMPLETIONS|, |VERSIONED_COMPLETIONS|}
  {
    var b := RStrip(base, '/');
    if EndsWith(b, V1) {
      var stem := b[..|b| - 3];
      assert b == stem + V1;
      AppendAssoc(stem, V1, COMPLETIONS);
      Affix(stem, VERSIONED_COMPLETIONS);
      Affix(b, COMPLETIONS);
    } else {
      Affix(b, VERSIONED_COMPLETIONS);
    }
  }

  /** `a + x` starts with `a` and ends with `x`. */
  lemma Affix(a: string, x: string)
    ensures StartsWith(a + x, a) && EndsWith(a + x, x)
  {
    assert (a + x)[..|a|] == a;
    assert (a + x)[|a + x| - |x|..] == x;
  }

  /** Trailing slashes on the base do not change the URL. */
  lemma EndpointIgnoresSlash(base: string)
    ensures Endpoint(base + "/") == Endpoint(base)
  {
    assert (base + "/")[..|base + "/"| - 1] == base;
  }

  /** A base that already names `/v1` gives the URL of the same base
      without it. */
  lemma EndpointVersioned(base: string)
    requires base == [] || base[|base| - 1] != '/'
    requires !EndsWith(base, V1)
    ensures Endpoint(base + V1) == Endpoint(base)
  {
    var v := base + V1;
    assert v[|v| - 1] == '1';
    assert RStrip(v, '/') == v;
    Affix(base, V1);
    assert RStrip(base, '/') == base;
    AppendAssoc(base, V1, COMPLETIONS);
  }

  /** The headers of runpod.py:49-53. */
  function Headers(apiKey: string): (hs: seq<Header>)
    ensures |hs| == (if apiKey != [] then 2 else 1)
    ensures hs[0] == Header(CONTENT_TYPE, JSON)
    ensures apiKey != [] ==> hs[1] == Header(AUTHORIZATION, BEARER + apiKey)
    ensures forall i :: 0 <= i < |hs| && hs[i].name == AUTHORIZATION ==> apiKey != [] && hs[i].value == BEARER + apiKey
  {
    [Header(CONTENT_TYPE, JSON)] + (if apiKey != [] then [Header(AUTHORIZATION, BEARER + apiKey)] else [])
  }

  /** The model named in the payload (runpod.py:42). */
  function ModelName(model: string): (name: string)
    ensures name != []
    ensures model != [] ==> name == model
    ensures model == [] ==> name == DEFAULT_MODEL
  {
    if model != [] then model else DEFAULT_MODEL
  }

  /** What the provider does before reading anything: nothing for a blank
      transcript, an error without a base URL, otherwise a request. */
  datatype Plan = Skip | Unconfigured | Send(request: Request)

  function Prepare(transcript: string, settings: Settings): (p: Plan)
  {
    if Strip(transcript) == [] then Skip
    else if settings.baseUrl == [] then Unconfigured
    else Send(Post(Endpoint(settings.baseUrl), Headers(settings.apiKey), ModelName(settings.model), transcript))
  }

  /** The request is skipped exactly for a blank transcript, refused exactly
      for a missing base URL, and otherwise carries the transcript as it
      is, not stripped. */
  lemma PrepareCases(transcript: string, settings: Settings)
    ensures Prepare(transcript, settings).Skip? <==> Blank(transcript)
    ensures Prepare(transcript, settings).Unconfigured? <==> !Blank(transcript) && settings.baseUrl == []
    ensures Prepare(transcript, settings).Send? ==>
      Prepare(transcript, settings).request.content == transcript &&
      Prepare(transcript, settings).request.url == Endpoint(settings.baseUrl)
  {
    StripEmpty(transcript);
  }

  // ---------------------------------------------------------------------
  // Line framing
  // ---------------------------------------------------------------------

  /** The index of the first `"\n"` in `t`, or `|t|`. */
  function NewlineFrom(t: string, i: nat): (k: nat)
    requires i <= |t|
    ensures i <= k <= |t|
    ensures forall j :: i <= j < k ==> t[j] != '\n'
    ensures k < |t| ==> t[k] == '\n'
    decreases |t| - i
  {
    if i == |t| || t[i] == '\n' then i else NewlineFrom(t, i + 1)
  }

  function Newline(t: string): (k: nat)
    ensures k <= |t|
    ensures forall j :: 0 <= j < k ==> t[j] != '\n'
    ensures k < |t| ==> t[k] == '\n'
  {
    NewlineFrom(t, 0)
  }

  /** The complete lines of `t`, each without its `"\n"`. */
  function Lines(t: string): (ls: seq<string>)
    decreases |t|
  {
    var k := Newline(t);
    if k == |t| then [] else [t[..k]] + Lines(t[k + 1..])
  }

  /** No complete line holds a `"\n"`. */
  lemma {:induction false} LinesHaveNoNewline(t: string)
    ensures forall i :: 0 <= i < |Lines(t)| ==> '\n' !in Lines(t)[i]
    decreases |t|
  {
    var k := Newline(t);
    if k < |t| {
      var u := t[k + 1..];
      LinesHaveNoNewline(u);
      var ls := [t[..k]] + Lines(u);
      assert Lines(t) == ls;
      forall i | 0 <= i < |ls|
        ensures '\n' !in ls[i]
      {
        if i > 0 {
          assert ls[i] == Lines(u)[i - 1];
        }
      }
    }
  }

  /** What follows the last `"\n"` of `t`: a line not yet complete. */
  function Partial(t: string): (p: string)
    ensures '\n' !in p
    ensures |p| <= |t|
    decreases |t|
  {
    var k := Newline(t);
    if k == |t| then t else Partial(t[k + 1..])
  }

  /** The lines, each with its `"\n"` put back, followed by the partial
      line, are the text. */
  lemma {:induction false} LinesRebuild(t: string)
    ensures Flatten(Terminated(Lines(t))) + Partial(t) == t
    decreases |t|
  {
    var k := Newline(t);
    if k < |t| {
      var u := t[k + 1..];
      assert t == t[..k] + "\n" + u;
      RebuildStep(t);
      LinesRebuild(u);
    } else {
      assert Flatten(Terminated([])) == [];
    }
  }

  /** The first line of `t` comes first in the rebuilt text. */
  lemma RebuildStep(t: string)
    requires Newline(t) < |t|
    ensures var u := t[Newline(t) + 1..];
      Flatten(Terminated(Lines(t))) + Partial(t)
        == (t[..Newline(t)] + "\n") + (Flatten(Terminated(Lines(u))) + Partial(u))
  {
    var k := Newline(t);
    var u := t[k + 1..];
    var line := t[..k] + "\n";
    LinesStep(t);
    var ls := [t[..k]] + Lines(u);
    assert ls[0] == t[..k] && ls[1..] == Lines(u);
    var ts := Terminated(ls);
    assert ts[0] == line && ts[1..] == Terminated(Lines(u));
    assert Flatten(ts) == line + Flatten(Terminated(Lines(u)));
    AppendAssoc(line, Flatten(Terminated(Lines(u))), Partial(u));
  }

  /** Each line with its terminator. */
  function Terminated(ls: seq<string>): (ts: seq<string>)
    ensures |ts| == |ls|
    ensures forall i :: 0 <= i < |ls| ==> ts[i] == ls[i] + "\n"
  {
    if ls == [] then [] else [ls[0] + "\n"] + Terminated(ls[1..])
  }

  /** `Newline` is the first `"\n"`. */
  lemma NewlineIs(t: string, k: nat)
    requires k < |t| && t[k] == '\n'
    requires forall j :: 0 <= j < k ==> t[j] != '\n'
    ensures Newline(t) == k
  {
  }

  /** Cutting the first complete line off the text. */
  lemma LinesStep(t: string)
    requires Newline(t) < |t|
    ensures Lines(t) == [t[..Newline(t)]] + Lines(t[Newline(t) + 1..])
    ensures Partial(t) == Partial(t[Newline(t) + 1..])
  {
  }

  /** Appending text does not move a `"\n"` that is already there. */
  lemma NewlineAppend(t: string, c: string)
    requires Newline(t) < |t|
    ensures Newline(t + c) == Newline(t)
    ensures (t + c)[..Newline(t)] == t[..Newline(t)]
    ensures (t + c)[Newline(t) + 1..] == t[Newline(t) + 1..] + c
  {
    var k := Newline(t);
    assert (t + c)[k] == t[k];
    assert forall j :: 0 <= j < k ==> (t + c)[j] == t[j];
    NewlineIs(t + c, k);
  }

  /** Text that arrives later only completes the partial line: the lines
      already complete stay as they are. */
  lemma {:induction false} LinesExtend(t: string, c: string)
    ensures Lines(t + c) == Lines(t) + Lines(Partial(t) + c)
    decreases |t|
  {
    var k := Newline(t);
    if k < |t| {
      var u := t[k + 1..];
      NewlineAppend(t, c);
      LinesStep(t);
      LinesStep(t + c);
      LinesExtend(u, c);
      assert Partial(u) == Partial(t);
      AppendAssoc([t[..k]], Lines(u), Lines(Partial(t) + c));
    } else {
      assert Partial(t) == t && Lines(t) == [];
      assert [] + Lines(t + c) == Lines(t + c);
    }
  }

  /** ... and what stays partial is the partial line with the new text. */
  lemma {:induction false} PartialExtend(t: string, c: string)
    ensures Partial(t + c) == Partial(Partial(t) + c)
    decreases |t|
  {
    var k := Newline(t);
    if k < |t| {
      var u := t[k + 1..];
      NewlineAppend(t, c);
      LinesStep(t);
      LinesStep(t + c);
      PartialExtend(u, c);
      assert Partial(t + c) == Partial(u + c);
      assert Partial(u) == Partial(t);
    } else {
      assert Partial(t) == t;
    }
  }

  /** A trailing piece without `"\n"` adds no line. */
  lemma PartialLineUnread(t: string, c: string)
    requires '\n' !in c
    ensures Lines(t + c) == Lines(t)
  {
    LinesExtend(t, c);
    var p := Partial(t) + c;
    assert forall j :: 0 <= j < |p| ==> p[j] != '\n' by {
      forall j | 0 <= j < |p|
        ensures p[j] != '\n'
      {
        if j < |Partial(t)| {
          assert p[j] == Partial(t)[j];
        } else {
          assert p[j] == c[j - |Partial(t)|];
        }
      }
    }
    assert Newline(p) == |p|;
  }

  // ---------------------------------------------------------------------
  // Line interpretation
  // ---------------------------------------------------------------------

  /** What the JSON of a `data: ` line gives: it does not decode (logged and
      skipped), it is not shaped as expected so that a `.get` raises, or the
      content of `choices[0].delta` (`""` when any level is missing or
      empty). */
  datatype Delta = Undecodable | Misshapen | Content(text: string)

  /** What one line does. */
  datatype Effect = Ignore | Yield(text: string) | Raise

  const DATA_PREFIX: string := "data: "
  const DONE_LINE: string := "data: [DONE]"

  /** runpod.py:77-97 for one line. */
  function Interpret(line: string, parse: string -> Delta): (e: Effect)
    ensures e.Yield? ==> e.text != []
  {
    var l := Strip(line);
    if l == [] || l == DONE_LINE then Ignore
    else if StartsWith(l, DATA_PREFIX) then
      match parse(l[|DATA_PREFIX|..])
      case Undecodable => Ignore
      case Misshapen => Raise
      case Content(text) => if text != [] then Yield(text) else Ignore
    else Ignore
  }

  /** The errors `stream_response` raises. */
  datatype LlmError =
    | NotConfigured          // RuntimeError: no base URL
    | ConnectFailed(message: string)   // httpx.RequestError, re-raised as RuntimeError
    | StatusFailed(status: int)        // raise_for_status
    | BadShape                         // a `.get` on a value that is not a dict

  /** The responses yielded and the error raised, if any. */
  datatype Answer = Answer(items: seq<LlmResponse>, error: Option<LlmError>)

  /** The responses the lines yield, up to the first line that raises. */
  function Interpreted(lines: seq<string>, parse: string -> Delta): (a: Answer)
    ensures a.error.Some? ==> a.error == Some(BadShape)
    ensures forall i :: 0 <= i < |a.items| ==> !a.items[i].final && a.items[i].text != []
  {
    if lines == [] then Answer([], None)
    else
      match Interpret(lines[0], parse)
      case Ignore => Interpreted(lines[1..], parse)
      case Raise => Answer([], Some(BadShape))
      case Yield(text) =>
        var rest := Interpreted(lines[1..], parse);
        Answer([LlmResponse(text, false)] + rest.items, rest.error)
  }

  /** One more line. */
  lemma InterpretedSnoc(ls: seq<string>, line: string, parse: string -> Delta)
    ensures Interpreted(ls + [line], parse) ==
      var a := Interpreted(ls, parse);
      if a.error.Some? then a
      else match Interpret(line, parse)
        case Ignore => a
        case Raise => Answer(a.items, Some(BadShape))
        case Yield(text) => Answer(a.items + [LlmResponse(text, false)], None)
  {
    InterpretedAppend(ls, [line], parse);
    assert [line][1..] == [];
  }

  /** Reading more lines extends what earlier lines yielded, unless one of
      them raised. */
  lemma {:induction false} InterpretedAppend(a: seq<string>, b: seq<string>, parse: string -> Delta)
    ensures Interpreted(a + b, parse) ==
      (if Interpreted(a, parse).error.Some? then Interpreted(a, parse)
       else Answer(Interpreted(a, parse).items + Interpreted(b, parse).items, Interpreted(b, parse).error))
  {
    if a == [] {
      assert a + b == b;
    } else {
      assert (a + b)[0] == a[0] && (a + b)[1..] == a[1..] + b;
      InterpretedAppend(a[1..], b, parse);
      match Interpret(a[0], parse)
      case Ignore =>
      case Raise =>
      case Yield(text) =>
        AppendAssoc([LlmResponse(text, false)], Interpreted(a[1..], parse).items, Interpreted(b, parse).items);
    }
  }

  /** Everything `stream_response` does, given the server's reply: nothing
      for a blank transcript, the configuration error, the transport and
      status errors, else what the complete lines of the body yield and
      then one final empty response, unless a line or the transport
      failed first. */
  function Streamed(transcript: string, settings: Settings, server: Request -> Reply, parse: string -> Delta): (a: Answer)
  {
    match Prepare(transcript, settings)
    case Skip => Answer([], None)
    case Unconfigured => Answer([], Some(NotConfigured))
    case Send(request) =>
      match server(request)
      case Unreachable(message) => Answer([], Some(ConnectFailed(message)))
      case Replied(status, chunks, broken) =>
        if !(200 <= status < 300) then Answer([], Some(StatusFailed(status)))
        else
          var body := Interpreted(Lines(Flatten(chunks)), parse);
          if body.error.Some? then body
          else if broken.Some? then Answer(body.items, Some(ConnectFailed(broken.value)))
          else Answer(body.items + [LlmResponse([], true)], None)
  }

  /** The server's side of the exchange: the connection fails, or a status
      and the body's text pieces arrive, possibly cut short by a transport
      error. */
  datatype Reply = Unreachable(message: string) | Replied(status: int, chunks: seq<string>, broken: Option<string>)

  /** A stream that ends without error ends with exactly one final
      response, the empty one; every response before it has text. A blank
      transcript yields nothing at all. */
  lemma StreamedFinalLast(transcript: string, settings: Settings, server: Request -> Reply, parse: string -> Delta)
    ensures var a := Streamed(transcript, settings, server, parse);
      && (Blank(transcript) ==> a == Answer([], None))
      && (a.error.None? && !Blank(transcript) ==>
            a.items != [] && a.items[|a.items| - 1] == LlmResponse([], true)
            && forall i :: 0 <= i < |a.items| - 1 ==> !a.items[i].final && a.items[i].text != [])
      && forall i :: 0 <= i < |a.items| && a.error.Some? ==> !a.items[i].final
  {
    StripEmpty(transcript);
    var p := Prepare(transcript, settings);
    if p.Send? {
      match server(p.request)
      case Unreachable(_) =>
      case Replied(status, chunks, broken) =>
        if 200 <= status < 300 {
          var body := Interpreted(Lines(Flatten(chunks)), parse);
          if body.error.None? && broken.None? {
            var a := body.items + [LlmResponse([], true)];
            assert Streamed(transcript, settings, server, parse) == Answer(a, None);
            assert forall i :: 0 <= i < |a| - 1 ==> a[i] == body.items[i];
          }
        }
    }
  }

  /** The stream as the turn orchestrator consumes it. */
  function AsRun(a: Answer): (r: Run<LlmResponse>)
    ensures r.items == a.items && (r.fails <==> a.error.Some?)
  {
    Run(a.items, a.error.Some?)
  }

  // ---------------------------------------------------------------------
  // The provider
  // ---------------------------------------------------------------------

  /** The inner loop of runpod.py:75-97: every complete line of `buffer0`
      is cut off and interpreted in turn, and what is left is the partial
      line; `raised` is the first line whose JSON has the wrong shape. */
  method TakeLines(buffer0: string, parse: string -> Delta) returns (items: seq<LlmResponse>, raised: bool, buffer: string)
    ensures Answer(items, if raised then Some(BadShape) else None) == Interpreted(Lines(buffer0), parse)
    ensures !raised ==> buffer == Partial(buffer0)
  {
    items, raised, buffer := [], false, buffer0;
    ghost var consumed: seq<string> := [];
    while Newline(buffer) < |buffer|
      invariant Lines(buffer0) == consumed + Lines(buffer)
      invariant Partial(buffer0) == Partial(buffer)
      invariant Interpreted(consumed, parse).items == items && Interpreted(consumed, parse).error.None?
      decreases |buffer|
    {
      var k := Newline(buffer);
      var line := buffer[..k];
      LinesStep(buffer);
      buffer := buffer[k + 1..];
      AppendAssoc(consumed, [line], Lines(buffer));
      InterpretedSnoc(consumed, line, parse);
      consumed := consumed + [line];
      match Interpret(line, parse)
      case Raise =>
        InterpretedAppend(consumed, Lines(buffer), parse);
        ghost var a := Interpreted(Lines(buffer0), parse);
        assert a.items == items && a.error == Some(BadShape);
        return items, true, buffer;
      case Yield(text) =>
        items := items + [LlmResponse(text, false)];
      case Ignore =>
    }
    assert Lines(buffer) == [] && Partial(buffer) == buffer;
    assert consumed + [] == consumed;
  }

  /** runpod.py:69-97: each text piece is appended to the buffer and the
      complete lines in it are interpreted at once. Only complete lines are
      read, so the partial line left when the body ends never is. */
  method ReadLines(chunks: seq<string>, parse: string -> Delta) returns (items: seq<LlmResponse>, raised: bool)
    ensures Answer(items, if raised then Some(BadShape) else None) == Interpreted(Lines(Flatten(chunks)), parse)
  {
    items, raised := [], false;
    var buffer: string := [];
    ghost var seen: string := [];
    var i := 0;
    while i < |chunks|
      invariant i <= |chunks|
      invariant seen == Flatten(chunks[..i])
      invariant buffer == Partial(seen)
      invariant Interpreted(Lines(seen), parse) == Answer(items, None)
    {
      ghost var next := seen + chunks[i];
      LinesExtend(seen, chunks[i]);
      PartialExtend(seen, chunks[i]);
      FlattenSnoc(chunks, i);
      var more, r, rest := TakeLines(buffer + chunks[i], parse);
      InterpretedAppend(Lines(seen), Lines(buffer + chunks[i]), parse);
      if r {
        FinishRead(chunks, i, next, parse);
        return items + more, true;
      }
      items, buffer, seen := items + more, rest, next;
      i := i + 1;
    }
    assert chunks[..i] == chunks;
  }

  /** A line that raises ends the reading: the later text cannot change
      the answer. */
  lemma FinishRead(chunks: seq<string>, i: nat, seen: string, parse: string -> Delta)
    requires i < |chunks| && seen == Flatten(chunks[..i + 1])
    requires Interpreted(Lines(seen), parse).error.Some?
    ensures Interpreted(Lines(Flatten(chunks)), parse) == Interpreted(Lines(seen), parse)
  {
    var pre, post := chunks[..i + 1], chunks[i + 1..];
    assert chunks == pre + post;
    FlattenAppend(pre, post);
    var later := Flatten(post);
    LinesExtend(seen, later);
    InterpretedAppend(Lines(seen), Lines(Partial(seen) + later), parse);
  }

  /** `stream_response` (runpod.py:17-104). `request` is the request sent,
      if any. */
  method StreamResponse(transcript: string, settings: Settings, server: Request -> Reply, parse: string -> Delta)
    returns (items: seq<LlmResponse>, error: Option<LlmError>, request: Option<Request>)
    ensures Answer(items, error) == Streamed(transcript, settings, server, parse)
    ensures request.Some? <==> !Blank(transcript) && settings.baseUrl != []
    ensures request.Some? ==> request.value == Post(Endpoint(settings.baseUrl), Headers(settings.apiKey),
                                                    ModelName(settings.model), transcript)
  {
    PrepareCases(transcript, settings);
    items, error, request := [], None, None;
    var plan := Prepare(transcript, settings);
    if plan.Skip? {
      return;
    } else if plan.Unconfigured? {
      error := Some(NotConfigured);
      return;
    }
    var post := plan.request;
    request := Some(post);
    match server(post)
    case Unreachable(message) =>
      error := Some(ConnectFailed(message));
    case Replied(status, chunks, broken) =>
      if !(200 <= status < 300) {
        error := Some(StatusFailed(status));
        return;
      }
      var raised;
      items, raised := ReadLines(chunks, parse);
      if raised {
        error := Some(BadShape);
      } else if broken.Some? {
        error := Some(ConnectFailed(broken.value));
      } else {
        items := items + [LlmResponse([], true)];
      }
  }
}
