/** `GeminiSTTProvider` (voice_pipeline/stt/gemini.py): the audio of one
    utterance is gathered, sent to Gemini in a single request, and the text
    of the reply becomes at most one final transcript.

    The HTTP exchange is the given `server`; the reply body and any JSON
    inside its text are given already decoded, as the datatypes `Body` and
    `Segments`. */
module GeminiStt {
  import opened Text
  import opened Events

  // ---------------------------------------------------------------------
  // The request and the reply
  // ---------------------------------------------------------------------

  const API_URL: string := "https://generativelanguage.googleapis.com/v1beta"

  /** The `generateContent` request: the URL names the model, the key goes
      in the query, the audio inline with its MIME type. */
  datatype Request = Post(url: string, key: string, mimeType: string, audio: Bytes)

  /** The reply body as `_extract_transcript` walks it. */
  datatype Body =
    | Unparsable                // `response.json()` raises
    | NoCandidates              // `candidates` absent or empty
    | NoParts                   // `candidates[0].content.parts` absent or empty
    | Unexpected                // a lookup raises KeyError, IndexError or AttributeError
    | FirstPart(text: string)   // `parts[0]["text"]`, `""` when absent

  /** What the server does with the request. */
  datatype Reply = NetworkError(message: string) | Replied(status: int, text: string, body: Body)

  /** The text of the first part decoded as JSON: not JSON, a list, an
      object with its `text` field (`""` when absent or falsy), or some
      other value. */
  datatype Segments = Invalid | ListOf(items: seq<Item>) | DictWith(text: string) | OtherJson

  /** A list element: an object with its `text` field, or anything else. */
  datatype Item = Entry(text: string) | NotADict

  /** The errors the provider raises. */
  datatype SttError =
    | NoKey                           // RuntimeError: no API key
    | NetworkFailed(message: string)  // the transport's own exception
    | ApiError(status: int, text: string)   // RuntimeError for a status outside 2xx
    | BadBody                         // `response.json()` on a body that is not JSON

  datatype Result<T> = Ok(value: T) | Err(error: SttError)

  function Endpoint(model: string): (url: string)
  {
    API_URL + "/models/" + model + ":generateContent"
  }

  // ---------------------------------------------------------------------
  // Timestamps
  // ---------------------------------------------------------------------

  predicate IsDigit(c: char) {
    '0' <= c <= '9'
  }

  /** `^` under `re.MULTILINE`: the start of the text or of a line. */
  predicate LineStart(t: string, p: nat)
    requires p <= |t|
  {
    p == 0 || t[p - 1] == '\n'
  }

  /** Two digits at `p`. */
  predicate TwoDigits(t: string, p: nat) {
    p + 2 <= |t| && IsDigit(t[p]) && IsDigit(t[p + 1])
  }

  /** The length of the match of `\d{2}:\d{2}(:\d{2})?\s+` at `p`, 0 when
      there is none: the optional seconds are taken when whitespace follows
      them, and the whitespace run is taken whole. */
  function StampLen(t: string, p: nat): (n: nat)
    requires p <= |t|
    ensures n == 0 || (6 <= n && p + n <= |t|)
    ensures n > 0 ==> p + n == |t| || !IsSpace(t[p + n])
  {
    if TwoDigits(t, p) && p + 2 < |t| && t[p + 2] == ':' && TwoDigits(t, p + 3) then
      if p + 5 < |t| && t[p + 5] == ':' && TwoDigits(t, p + 6) && p + 8 < |t| && IsSpace(t[p + 8]) then
        SpaceRunEnd(t, p + 8) - p
      else if p + 5 < |t| && IsSpace(t[p + 5]) then
        SpaceRunEnd(t, p + 5) - p
      else 0
    else 0
  }

  /** `re.sub(r'^\d{2}:\d{2}(:\d{2})?\s+', '', t[p..], flags=re.MULTILINE)`
      scanning from `p`, with `^` judged on the whole text. */
  function UnstampFrom(t: string, p: nat): (r: string)
    requires p <= |t|
    ensures |r| <= |t| - p
    decreases |t| - p
  {
    if p == |t| then []
    else if LineStart(t, p) && StampLen(t, p) > 0 then UnstampFrom(t, p + StampLen(t, p))
    else [t[p]] + UnstampFrom(t, p + 1)
  }

  /** The timestamps removed from the start of every line (gemini.py:140). */
  function Unstamp(t: string): (r: string)
    ensures |r| <= |t|
  {
    UnstampFrom(t, 0)
  }

  /** No line starts with a timestamp at or after `p`. */
  predicate Unstamped(t: string, p: nat)
    requires p <= |t|
  {
    forall q :: p <= q < |t| && LineStart(t, q) ==> StampLen(t, q) == 0
  }

  /** Text without timestamps is left as it is. */
  lemma {:induction false} UnstampFromKeeps(t: string, p: nat)
    requires p <= |t| && Unstamped(t, p)
    ensures UnstampFrom(t, p) == t[p..]
    decreases |t| - p
  {
    if p < |t| {
      UnstampFromKeeps(t, p + 1);
      assert t[p..] == [t[p]] + t[p + 1..];
    }
  }

  lemma UnstampKeeps(t: string)
    requires Unstamped(t, 0)
    ensures Unstamp(t) == t
  {
    UnstampFromKeeps(t, 0);
  }

  /** A line that starts `mm:ss ` (or `hh:mm:ss `) loses exactly that, and
      the rest, with no timestamps of its own, stays. */
  lemma UnstampLeading(stamp: string, rest: string)
    requires |stamp| in {6, 9} && StampLen(stamp + rest, 0) == |stamp|
    requires Unstamped(stamp + rest, |stamp|)
    ensures Unstamp(stamp + rest) == rest
  {
    var t := stamp + rest;
    UnstampFromKeeps(t, |stamp|);
    assert t[|stamp|..] == rest;
  }

  // ---------------------------------------------------------------------
  // `_extract_transcript`
  // ---------------------------------------------------------------------

  /** The non-empty `text` fields of the objects in a list, in order. */
  function TextsOf(items: seq<Item>): (ps: seq<string>)
    ensures forall i :: 0 <= i < |ps| ==> ps[i] != []
    ensures |ps| <= |items|
  {
    if items == [] then []
    else (if items[0].Entry? && items[0].text != [] then [items[0].text] else []) + TextsOf(items[1..])
  }

  /** `_extract_transcript` (gemini.py:102-145) on a body that parsed. */
  function Extract(body: Body, parse: string -> Segments): (text: string)
    requires !body.Unparsable?
  {
    match body
    case FirstPart(raw) =>
      var text := Strip(raw);
      if StartsWith(text, "[") || StartsWith(text, "{") then
        match parse(text)
        case ListOf(items) => if TextsOf(items) != [] then Join(" ", TextsOf(items)) else Unstamp(text)
        case DictWith(field) => if field != [] then field else Unstamp(text)
        case _ => Unstamp(text)
      else Unstamp(text)
    case _ => []
  }

  /** Without candidates or parts, or when a lookup fails, the text is
      empty; JSON-shaped text gives its segments joined by single spaces,
      or the object's `text`; any other text loses its timestamps. */
  lemma ExtractCases(body: Body, parse: string -> Segments)
    requires !body.Unparsable?
    ensures !body.FirstPart? ==> Extract(body, parse) == []
    ensures body.FirstPart? ==>
      var text := Strip(body.text);
      var shaped := StartsWith(text, "[") || StartsWith(text, "{");
      && (shaped && parse(text).ListOf? && TextsOf(parse(text).items) != [] ==>
            Extract(body, parse) == Join(" ", TextsOf(parse(text).items)))
      && (shaped && parse(text).DictWith? && parse(text).text != [] ==>
            Extract(body, parse) == parse(text).text)
      && (!shaped ==> Extract(body, parse) == Unstamp(text))
      && (Unstamped(text, 0) && !shaped ==> Extract(body, parse) == text)
  {
    if body.FirstPart? && Unstamped(Strip(body.text), 0) {
      UnstampKeeps(Strip(body.text));
    }
  }

  /** Joining non-empty segments gives non-empty text. */
  lemma {:induction false} JoinNonEmpty(ps: seq<string>)
    requires ps != [] && forall i :: 0 <= i < |ps| ==> ps[i] != []
    ensures Join(" ", ps) != []
    ensures |Join(" ", ps)| >= |ps[0]|
  {
    if |ps| > 1 {
      JoinNonEmpty(ps[1..]);
    }
  }

  // ---------------------------------------------------------------------
  // The provider
  // ---------------------------------------------------------------------

  /** `_transcribe_audio` (gemini.py:48-75): no request for no audio; an
      error for a failed exchange, a status outside 2xx or a body that is
      not JSON; otherwise the extracted text. */
  function Transcribe(audio: Bytes, key: string, model: string, mimeType: string,
                      server: Request -> Reply, parse: string -> Segments): (r: Result<string>)
  {
    if audio == [] then Ok([])
    else
      match server(Post(Endpoint(model), key, mimeType, audio))
      case NetworkError(message) => Err(NetworkFailed(message))
      case Replied(status, text, body) =>
        if !(200 <= status < 300) then Err(ApiError(status, text))
        else if body.Unparsable? then Err(BadBody)
        else Ok(Extract(body, parse))
  }

  /** `stream` (gemini.py:17-46): the key is required before any audio is
      read; empty chunks are skipped; no audio means no transcript and no
      request; otherwise one final transcript when the text is not empty.
      `request` is the request made, if any. */
  method Stream(chunks: seq<Bytes>, key: string, model: string, mimeType: string,
                server: Request -> Reply, parse: string -> Segments)
    returns (transcripts: seq<Transcript>, error: Option<SttError>, request: Option<Request>)
    ensures key == [] ==> transcripts == [] && error == Some(NoKey) && request == None
    ensures key != [] ==> (request.Some? <==> Flatten(chunks) != [])
    ensures request.Some? ==> request.value == Post(Endpoint(model), key, mimeType, Flatten(chunks))
    ensures key != [] ==>
      match Transcribe(Flatten(chunks), key, model, mimeType, server, parse)
      case Err(e) => transcripts == [] && error == Some(e)
      case Ok(text) => error == None && transcripts == (if text != [] then [Transcript(text, true)] else [])
  {
    transcripts, error, request := [], None, None;
    if key == [] {
      error := Some(NoKey);
      return;
    }
    var audio: Bytes := [];
    var i := 0;
    while i < |chunks|
      invariant i <= |chunks|
      invariant audio == Flatten(chunks[..i])
    {
      FlattenSnoc(chunks, i);
      if chunks[i] != [] {
        audio := audio + chunks[i];
      } else {
        assert audio + chunks[i] == audio;
      }
      i := i + 1;
    }
    assert chunks[..i] == chunks;
    if audio == [] {
      return;
    }
    var post := Post(Endpoint(model), key, mimeType, audio);
    request := Some(post);
    match server(post)
    case NetworkError(message) =>
      error := Some(NetworkFailed(message));
    case Replied(status, text, body) =>
      if !(200 <= status < 300) {
        error := Some(ApiError(status, text));
      } else if body.Unparsable? {
        error := Some(BadBody);
      } else {
        var heard := Extract(body, parse);
        if heard != [] {
          transcripts := [Transcript(heard, true)];
        }
      }
  }

  /** Empty chunks carry no audio: dropping them changes nothing. */
  lemma {:induction false} FlattenSkipsEmpty(chunks: seq<Bytes>)
    ensures Flatten(chunks) == Flatten(NonEmpty(chunks))
  {
    if chunks != [] {
      FlattenSkipsEmpty(chunks[1..]);
      if chunks[0] == [] {
        assert Flatten(chunks) == chunks[0] + Flatten(chunks[1..]) == Flatten(chunks[1..]);
        assert NonEmpty(chunks) == [] + NonEmpty(chunks[1..]) == NonEmpty(chunks[1..]);
      } else {
        var ne := [chunks[0]] + NonEmpty(chunks[1..]);
        assert ne[0] == chunks[0] && ne[1..] == NonEmpty(chunks[1..]);
        assert NonEmpty(chunks) == ne;
        assert Flatten(ne) == chunks[0] + Flatten(NonEmpty(chunks[1..]));
      }
    }
  }

  function NonEmpty(chunks: seq<Bytes>): (r: seq<Bytes>)
    ensures forall i :: 0 <= i < |r| ==> r[i] != []
  {
    if chunks == [] then []
    else (if chunks[0] != [] then [chunks[0]] else []) + NonEmpty(chunks[1..])
  }
}
