/** The fixed-length text chunker that runs before every call to the XTTS
    service (`split_text_into_chunks`, voice_pipeline/tts/coqui.py).

    The two regular expressions it searches with, `.{0,m}[.!?]\s+` and
    `.{0,m}\s+`, are modelled as Python's `re.search` runs them: the leftmost
    start position wins; at that position `.{0,m}` first takes as many
    characters as it can (`.` never matches a newline) and gives them back one
    at a time until the rest of the pattern matches; `\s+` is greedy. */
module Chunker {
  import opened Text

  /** Characters per request to XTTS (its limit is 400 tokens). */
  const MAX_CHUNK_LENGTH: nat := 250

  /** How many characters the greedy `.{0,m}` takes from position `s`. */
  function DotReach(t: string, s: nat, m: nat): (k: nat)
    requires s <= |t|
    ensures k <= m && s + k <= |t|
    ensures forall i :: s <= i < s + k ==> t[i] != '\n'
    ensures k < m && s + k < |t| ==> t[s + k] == '\n'
    decreases m
  {
    if m == 0 || s == |t| || t[s] == '\n' then 0 else 1 + DotReach(t, s + 1, m - 1)
  }

  /** The part of a pattern after `.{0,m}`: `[.!?]\s+` or `\s+`. */
  datatype Tail = SentenceEnd | WordGap

  /** Where the tail ends when it is tried at position `p`, if it matches there. */
  function TailEnd(t: string, p: nat, tail: Tail): (r: Option<nat>)
  {
    match tail
    case SentenceEnd =>
      if p + 1 < |t| && IsTerminator(t[p]) && IsSpace(t[p + 1]) then Some(SpaceRunEnd(t, p + 1)) else None
    case WordGap =>
      if p < |t| && IsSpace(t[p]) then Some(SpaceRunEnd(t, p)) else None
  }

  /** A match: it begins at `start`, `.{0,m}` took `dots` characters, and the
      whole match ends before `end` (Python's `group(0)` is `t[start..end]`). */
  datatype Match = Match(start: nat, dots: nat, end: nat)

  /** What every match of `.{0,m}` followed by `tail` looks like. */
  ghost predicate Matches(t: string, mt: Match, m: nat, tail: Tail) {
    && mt.dots <= m && mt.start + mt.dots < mt.end <= |t|
    && (forall i :: mt.start <= i < mt.start + mt.dots ==> t[i] != '\n')
    && (mt.end == |t| || !IsSpace(t[mt.end]))
    && match tail
       case SentenceEnd =>
         && mt.start + mt.dots + 1 < mt.end
         && IsTerminator(t[mt.start + mt.dots])
         && Blank(t[mt.start + mt.dots + 1..mt.end])
       case WordGap => Blank(t[mt.start + mt.dots..mt.end])
  }

  /** `.{0,k}` giving back characters one at a time, from `k` down to none. */
  function Backtrack(t: string, s: nat, k: nat, m: nat, tail: Tail): (r: Option<Match>)
    requires k <= m && s + k <= |t|
    requires forall i :: s <= i < s + k ==> t[i] != '\n'
    ensures r.Some? ==> r.value.start == s && r.value.dots <= k && Matches(t, r.value, m, tail)
    decreases k
  {
    match TailEnd(t, s + k, tail)
    case Some(e) =>
      var p := if tail == SentenceEnd then s + k + 1 else s + k;
      SpaceRunBlank(t, p);
      Some(Match(s, k, e))
    case None => if k == 0 then None else Backtrack(t, s, k - 1, m, tail)
  }

  /** The pattern tried at start position `s` only (a Python `re.match` at `s`). */
  function MatchAt(t: string, s: nat, m: nat, tail: Tail): (r: Option<Match>)
    requires s <= |t|
    ensures r.Some? ==> r.value.start == s && Matches(t, r.value, m, tail)
  {
    Backtrack(t, s, DotReach(t, s, m), m, tail)
  }

  /** Python's `re.search` from position `s` on: the leftmost start at which
      the pattern matches. */
  function SearchFrom(t: string, s: nat, m: nat, tail: Tail): (r: Option<Match>)
    requires s <= |t|
    ensures r.Some? ==> s <= r.value.start <= |t| && MatchAt(t, r.value.start, m, tail) == r
    ensures r.Some? ==> forall j :: s <= j < r.value.start ==> MatchAt(t, j, m, tail).None?
    ensures r.None? ==> forall j :: s <= j <= |t| ==> MatchAt(t, j, m, tail).None?
    decreases |t| - s
  {
    match MatchAt(t, s, m, tail)
    case Some(mt) => Some(mt)
    case None => if s == |t| then None else SearchFrom(t, s + 1, m, tail)
  }

  /** `re.search(pattern, t)`. */
  function Search(t: string, m: nat, tail: Tail): (r: Option<Match>)
    ensures r.Some? ==> r.value.start <= |t| && MatchAt(t, r.value.start, m, tail) == r
    ensures r.Some? ==> Matches(t, r.value, m, tail)
  {
    SearchFrom(t, 0, m, tail)
  }

  /** Backtracking finds the tail wherever it can start within reach. */
  lemma {:induction false} BacktrackFinds(t: string, s: nat, k: nat, m: nat, tail: Tail, j: nat)
    requires k <= m && s + k <= |t|
    requires forall i :: s <= i < s + k ==> t[i] != '\n'
    requires j <= k && TailEnd(t, s + j, tail).Some?
    ensures Backtrack(t, s, k, m, tail).Some?
    decreases k
  {
    if TailEnd(t, s + k, tail).None? {
      assert j < k;
      BacktrackFinds(t, s, k - 1, m, tail, j);
    }
  }

  /** `.{0,m}` reaches any point within `m` characters that no newline blocks. */
  lemma DotReachCovers(t: string, s: nat, m: nat, j: nat)
    requires s + j <= |t| && j <= m
    requires forall i :: s <= i < s + j ==> t[i] != '\n'
    ensures j <= DotReach(t, s, m)
  {
  }

  /** The pattern matches at `s` when its tail can start `j <= m` characters
      later and no newline lies in between. */
  lemma MatchAtFinds(t: string, s: nat, m: nat, tail: Tail, j: nat)
    requires s + j <= |t| && j <= m
    requires forall i :: s <= i < s + j ==> t[i] != '\n'
    requires TailEnd(t, s + j, tail).Some?
    ensures MatchAt(t, s, m, tail).Some?
  {
    DotReachCovers(t, s, m, j);
    BacktrackFinds(t, s, DotReach(t, s, m), m, tail, j);
  }

  /** The index of the first whitespace character at or after `i`, or `|t|`. */
  function FirstSpace(t: string, i: nat): (p: nat)
    requires i <= |t|
    ensures i <= p <= |t|
    ensures p < |t| ==> IsSpace(t[p])
    ensures forall q :: i <= q < p ==> !IsSpace(t[q])
    decreases |t| - i
  {
    if i == |t| || IsSpace(t[i]) then i else FirstSpace(t, i + 1)
  }

  /** The word pattern `.{0,m}\s+` is found exactly when the text holds a
      whitespace character somewhere. */
  lemma WordSearchIffSpace(t: string, m: nat)
    ensures Search(t, m, WordGap).Some? <==> exists p :: 0 <= p < |t| && IsSpace(t[p])
  {
    var p0 := FirstSpace(t, 0);
    if p0 < |t| {
      var s0 := if p0 > m then p0 - m else 0;
      assert TailEnd(t, s0 + (p0 - s0), WordGap).Some?;
      MatchAtFinds(t, s0, m, WordGap, p0 - s0);
    }
    if Search(t, m, WordGap).Some? {
      WordMatchHasSpace(t, m, Search(t, m, WordGap).value);
    }
  }

  /** A word match holds whitespace where its dots end. */
  lemma WordMatchHasSpace(t: string, m: nat, mt: Match)
    requires Search(t, m, WordGap) == Some(mt)
    ensures mt.start + mt.dots < |t| && IsSpace(t[mt.start + mt.dots])
  {
    var gap := t[mt.start + mt.dots..mt.end];
    assert gap[0] == t[mt.start + mt.dots];
  }

  /** With `m >= 1`, the leftmost word match starts on a whitespace character
      only when it starts at index 0. */
  lemma WordMatchStartsOnSpaceOnlyAtZero(t: string, m: nat)
    requires m >= 1 && Search(t, m, WordGap).Some?
    requires IsSpace(t[Search(t, m, WordGap).value.start])
    ensures Search(t, m, WordGap).value.start == 0
  {
    var s := Search(t, m, WordGap).value.start;
    if s > 0 {
      if t[s - 1] == '\n' {
        MatchAtFinds(t, s - 1, m, WordGap, 0);
      } else {
        MatchAtFinds(t, s - 1, m, WordGap, 1);
      }
      assert false;
    }
  }

  /** The branch of the loop body that produced a chunk. */
  datatype Branch = AtSentence | AtWord | Forced

  /** One turn of the loop: the chunk it appends (when non-empty), what is
      left to split, and which branch ran. */
  datatype Cut = Cut(chunk: string, rest: string, branch: Branch)

  /** The chunk taken from a match, `group(0).strip()`, and what the source
      keeps: `remaining[len(chunk):].strip()`, counted from index 0 of
      `remaining` and not from the end of the match. */
  function CutAt(t: string, mt: Match, branch: Branch): (c: Cut)
    requires mt.start <= mt.end <= |t|
  {
    var chunk := Strip(t[mt.start..mt.end]);
    Cut(chunk, Strip(t[|chunk|..]), branch)
  }

  /** A cut at a sentence match: the chunk ends with the terminator and
      holds at most `m` characters before it. */
  lemma SentenceCutFacts(t: string, m: nat, mt: Match)
    requires Matches(t, mt, m, SentenceEnd)
    ensures CutAt(t, mt, AtSentence).chunk != []
    ensures |CutAt(t, mt, AtSentence).chunk| <= mt.dots + 1
    ensures IsTerminator(Last(CutAt(t, mt, AtSentence).chunk))
  {
    var g := t[mt.start..mt.end];
    var d := mt.dots;
    assert g[d] == t[mt.start + d];
    forall k | d + 1 <= k < |g|
      ensures IsSpace(g[k])
    {
      assert g[k] == t[mt.start + d + 1..mt.end][k - d - 1];
    }
    StripEndsAt(g, d + 1);
  }

  /** A cut at a word match: the chunk is at most `m` characters, and it is
      empty only when `t` starts with whitespace. */
  lemma WordCutFacts(t: string, m: nat, mt: Match)
    requires m >= 1 && Search(t, m, WordGap) == Some(mt)
    ensures |CutAt(t, mt, AtWord).chunk| <= mt.dots
    ensures CutAt(t, mt, AtWord).chunk == [] ==> IsSpace(t[0])
  {
    var g := t[mt.start..mt.end];
    assert g[mt.dots..] == t[mt.start + mt.dots..mt.end];
    StripWithin(g, mt.dots);
    if CutAt(t, mt, AtWord).chunk == [] {
      StripEmpty(g);
      assert IsSpace(g[0]);
      WordMatchStartsOnSpaceOnlyAtZero(t, m);
    }
  }

  /** Stripping a text that starts with whitespace shortens it. */
  lemma StripShortens(t: string)
    requires t != [] && IsSpace(t[0])
    ensures |Strip(t)| < |t|
  {
    assert Lead(t) >= 1;
  }

  /** One turn of the loop body on a `remaining` longer than `m`: split at a
      sentence end, else at a word gap, else cut `m` characters off. */
  function CutOnce(t: string, m: nat): (c: Cut)
    requires 1 <= m < |t|
    ensures |c.rest| < |t|
    ensures IsStripped(c.chunk) && IsStripped(c.rest)
    ensures c.chunk == [] ==> c.branch == AtWord && IsSpace(t[0])
    ensures c.branch == AtSentence ==> c.chunk != [] && |c.chunk| <= m + 1 && IsTerminator(Last(c.chunk))
    ensures c.branch == AtWord ==> |c.chunk| <= m
    ensures c.branch == Forced ==> |c.chunk| == m && forall i :: 0 <= i < |t| ==> !IsSpace(t[i])
    ensures c.branch != AtSentence ==> Search(t, m, SentenceEnd).None?
  {
    var sentence := Search(t, m, SentenceEnd);
    var word := Search(t, m, WordGap);
    if sentence.Some? then
      SentenceCutFacts(t, m, sentence.value);
      CutAt(t, sentence.value, AtSentence)
    else if word.Some? then
      WordCutFacts(t, m, word.value);
      var c := CutAt(t, word.value, AtWord);
      if c.chunk == [] then
        StripShortens(t);
        c
      else c
    else
      WordSearchIffSpace(t, m);
      Cut(t[..m], Strip(t[m..]), Forced)
  }

  /** The chunks the loop (coqui.py:30-56) appends, starting from `remaining`. */
  function SplitLoop(remaining: string, m: nat): (chunks: seq<string>)
    requires m >= 1
    decreases |remaining|
  {
    if |remaining| > m then
      var c := CutOnce(remaining, m);
      (if c.chunk != [] then [c.chunk] else []) + SplitLoop(c.rest, m)
    else if remaining != [] then [remaining]
    else []
  }

  /** `split_text_into_chunks(text, m)`. A `m` of 0 is excluded: the source
      never returns then on a text with a space in it ("a b"). */
  function Split(text: string, m: nat): (chunks: seq<string>)
    requires m >= 1
  {
    if |text| <= m then [text] else SplitLoop(text, m)
  }

  /** The last character of a non-empty text. */
  function Last(s: string): char
    requires s != []
  {
    s[|s| - 1]
  }

  /** A chunk the loop can emit: non-empty, no surrounding whitespace, within
      the limit, or one character over it when that character ends a
      sentence. */
  predicate Clean(chunk: string, m: nat) {
    && chunk != [] && IsStripped(chunk)
    && (|chunk| <= m || (|chunk| == m + 1 && IsTerminator(Last(chunk))))
  }

  /** The three branches of `CutOnce`, one at a time. */
  lemma CutOnceBranches(t: string, m: nat)
    requires 1 <= m < |t|
    ensures Search(t, m, SentenceEnd).Some? ==> CutOnce(t, m) == CutAt(t, Search(t, m, SentenceEnd).value, AtSentence)
    ensures Search(t, m, SentenceEnd).None? && Search(t, m, WordGap).Some? ==> CutOnce(t, m) == CutAt(t, Search(t, m, WordGap).value, AtWord)
    ensures Search(t, m, SentenceEnd).None? && Search(t, m, WordGap).None? ==> CutOnce(t, m) == Cut(t[..m], Strip(t[m..]), Forced)
  {
  }

  /** One turn of the loop seen from `SplitLoop`. */
  lemma SplitLoopStep(r: string, m: nat)
    requires 1 <= m < |r|
    ensures SplitLoop(r, m) == (if CutOnce(r, m).chunk != [] then [CutOnce(r, m).chunk] else []) + SplitLoop(CutOnce(r, m).rest, m)
  {
  }

  /** Every chunk the loop appends is clean, whichever branch produced it. */
  lemma {:induction false} SplitLoopClean(r: string, m: nat)
    requires m >= 1
    requires |r| > m || IsStripped(r)
    ensures forall i :: 0 <= i < |SplitLoop(r, m)| ==> Clean(SplitLoop(r, m)[i], m)
    decreases |r|
  {
    if |r| > m {
      var c := CutOnce(r, m);
      SplitLoopClean(c.rest, m);
    }
  }

  /** Runs the loop of coqui.py:18-58 step by step on `text`. */
  method SplitTextIntoChunks(text: string, maxLength: nat) returns (chunks: seq<string>)
    requires maxLength >= 1
    ensures chunks == Split(text, maxLength)
    ensures |text| <= maxLength ==> chunks == [text]
    ensures |text| > maxLength ==> forall i :: 0 <= i < |chunks| ==> Clean(chunks[i], maxLength)
  {
    if |text| <= maxLength {
      return [text];
    }
    chunks := [];
    var remaining := text;
    while |remaining| > maxLength
      invariant chunks + SplitLoop(remaining, maxLength) == SplitLoop(text, maxLength)
      decreases |remaining|
    {
      ghost var before := remaining;
      ghost var previous := chunks;
      ghost var cut := CutOnce(before, maxLength);
      CutOnceBranches(before, maxLength);
      var sentenceMatch := Search(remaining, maxLength, SentenceEnd);
      var chunk: string;
      if sentenceMatch.Some? {
        chunk := Strip(remaining[sentenceMatch.value.start..sentenceMatch.value.end]);
        remaining := Strip(remaining[|chunk|..]);

      } else {
        var wordMatch := Search(remaining, maxLength, WordGap);
        if wordMatch.Some? {
          chunk := Strip(remaining[wordMatch.value.start..wordMatch.value.end]);
          remaining := Strip(remaining[|chunk|..]);

        } else {
          chunk := remaining[..maxLength];
          remaining := Strip(remaining[maxLength..]);

        }
      }
      assert chunk == cut.chunk && remaining == cut.rest;
      SplitLoopStep(before, maxLength);
      ghost var added := if chunk != [] then [chunk] else [];
      if chunk != [] {
        chunks := chunks + [chunk];
      }
      assert chunks == previous + added;
      ghost var later := SplitLoop(remaining, maxLength);
      assert SplitLoop(before, maxLength) == added + later;
      AppendAssoc(previous, added, later);
    }
    if remaining != [] {
      chunks := chunks + [remaining];
    }
    SplitLoopClean(text, maxLength);
  }

  /** A whitespace character within the first `m + 1` positions is always
      reached by the anchored word pattern, so when it fails there is none. */
  lemma NoAnchoredWordGap(t: string, m: nat)
    requires m < |t| && MatchAt(t, 0, m, WordGap).None?
    ensures forall i :: 0 <= i <= m ==> !IsSpace(t[i])
  {
    var p := FirstSpace(t, 0);
    if p <= m {
      assert forall i :: 0 <= i < p ==> t[i] != '\n';
      MatchAtFinds(t, 0, m, WordGap, p);
    }
  }

  /** Cutting `t` anywhere and stripping both halves keeps every
      non-whitespace character, in order. */
  lemma CutKeepsText(t: string, e: nat)
    requires e <= |t|
    ensures Squeeze(Strip(t[..e])) + Squeeze(Strip(t[e..])) == Squeeze(t)
  {
    SqueezeStrip(t[..e]);
    SqueezeStrip(t[e..]);
    SqueezeSplit(t, e);
  }

  /** The cut the loop evidently intends: the patterns anchored at the start
      of `remaining` (Python's `re.match`), and the rest taken from the end of
      the match, so no text is skipped or repeated. */
  function CutAnchored(t: string, m: nat): (c: Cut)
    requires 1 <= m < |t|
    ensures |c.rest| < |t|
    ensures IsStripped(c.chunk) && IsStripped(c.rest)
    ensures Squeeze(c.chunk) + Squeeze(c.rest) == Squeeze(t)
    ensures c.branch == AtSentence ==> c.chunk != [] && |c.chunk| <= m + 1 && IsTerminator(Last(c.chunk))
    ensures c.branch != AtSentence ==> |c.chunk| <= m
    ensures c.branch == Forced ==> c.chunk != [] && forall i :: 0 <= i <= m ==> !IsSpace(t[i])
  {
    var sentence := MatchAt(t, 0, m, SentenceEnd);
    var word := MatchAt(t, 0, m, WordGap);
    if sentence.Some? then SentenceCut(t, m, sentence.value)
    else if word.Some? then WordCut(t, m, word.value)
    else ForcedCut(t, m)
  }

  /** The cut after an anchored sentence end. */
  function SentenceCut(t: string, m: nat, mt: Match): (c: Cut)
    requires 1 <= m < |t| && MatchAt(t, 0, m, SentenceEnd) == Some(mt)
    ensures |c.rest| < |t| && c.branch == AtSentence
    ensures IsStripped(c.chunk) && IsStripped(c.rest)
    ensures Squeeze(c.chunk) + Squeeze(c.rest) == Squeeze(t)
    ensures c.chunk != [] && |c.chunk| <= m + 1 && IsTerminator(Last(c.chunk))
  {
    SentenceCutFacts(t, m, mt);
    assert t[mt.start..mt.end] == t[..mt.end];
    CutKeepsText(t, mt.end);
    Cut(Strip(t[..mt.end]), Strip(t[mt.end..]), AtSentence)
  }

  /** The cut after an anchored word gap. */
  function WordCut(t: string, m: nat, mt: Match): (c: Cut)
    requires 1 <= m < |t| && MatchAt(t, 0, m, WordGap) == Some(mt)
    ensures |c.rest| < |t| && c.branch == AtWord
    ensures IsStripped(c.chunk) && IsStripped(c.rest)
    ensures Squeeze(c.chunk) + Squeeze(c.rest) == Squeeze(t)
    ensures |c.chunk| <= m
  {
    assert t[..mt.end][mt.dots..] == t[mt.dots..mt.end];
    StripWithin(t[..mt.end], mt.dots);
    CutKeepsText(t, mt.end);
    Cut(Strip(t[..mt.end]), Strip(t[mt.end..]), AtWord)
  }

  /** The forced cut at `m` when neither pattern matches. */
  function ForcedCut(t: string, m: nat): (c: Cut)
    requires 1 <= m < |t| && MatchAt(t, 0, m, WordGap).None?
    ensures |c.rest| < |t| && c.branch == Forced
    ensures IsStripped(c.chunk) && IsStripped(c.rest)
    ensures Squeeze(c.chunk) + Squeeze(c.rest) == Squeeze(t)
    ensures |c.chunk| <= m && c.chunk != [] && forall i :: 0 <= i <= m ==> !IsSpace(t[i])
  {
    NoAnchoredWordGap(t, m);
    CutKeepsText(t, m);
    StripStripped(t[..m]);
    Cut(t[..m], Strip(t[m..]), Forced)
  }

  /** The corrected loop, starting from `remaining`. */
  function SplitAnchoredLoop(remaining: string, m: nat): (chunks: seq<string>)
    requires m >= 1
    decreases |remaining|
  {
    if |remaining| > m then
      var c := CutAnchored(remaining, m);
      (if c.chunk != [] then [c.chunk] else []) + SplitAnchoredLoop(c.rest, m)
    else if remaining != [] then [remaining]
    else []
  }

  /** `split_text_into_chunks` with the corrected cut. */
  function SplitAnchored(text: string, m: nat): (chunks: seq<string>)
    requires m >= 1
  {
    if |text| <= m then [text] else SplitAnchoredLoop(text, m)
  }

  lemma {:induction false} SplitAnchoredLoopKeepsText(r: string, m: nat)
    requires m >= 1
    ensures Squeeze(Flatten(SplitAnchoredLoop(r, m))) == Squeeze(r)
    decreases |r|
  {
    if |r| > m {
      var c := CutAnchored(r, m);
      var added: seq<string> := if c.chunk != [] then [c.chunk] else [];
      SplitAnchoredLoopKeepsText(c.rest, m);
      FlattenAppend(added, SplitAnchoredLoop(c.rest, m));
      assert Flatten(added) == c.chunk;
      SqueezeAppend(c.chunk, Flatten(SplitAnchoredLoop(c.rest, m)));
    } else if r != [] {
      assert Flatten([r]) == r;
    }
  }

  /** The corrected split loses and repeats nothing: joined together, the
      chunks hold every non-whitespace character of the text, in order. */
  lemma SplitAnchoredKeepsText(text: string, m: nat)
    requires m >= 1
    ensures Squeeze(Flatten(SplitAnchored(text, m))) == Squeeze(text)
  {
    if |text| <= m {
      assert Flatten([text]) == text;
    } else {
      SplitAnchoredLoopKeepsText(text, m);
    }
  }

  lemma {:induction false} SplitAnchoredLoopClean(r: string, m: nat)
    requires m >= 1
    requires |r| > m || IsStripped(r)
    ensures forall i :: 0 <= i < |SplitAnchoredLoop(r, m)| ==> Clean(SplitAnchoredLoop(r, m)[i], m)
    decreases |r|
  {
    if |r| > m {
      SplitAnchoredLoopClean(CutAnchored(r, m).rest, m);
    }
  }

  /** Every chunk of a text longer than the limit is clean; a text within the
      limit is returned as it is. */
  lemma SplitAnchoredClean(text: string, m: nat)
    requires m >= 1
    ensures |text| <= m ==> SplitAnchored(text, m) == [text]
    ensures |text| > m ==> forall i :: 0 <= i < |SplitAnchored(text, m)| ==> Clean(SplitAnchored(text, m)[i], m)
  {
    if |text| > m {
      SplitAnchoredLoopClean(text, m);
    }
  }

  /** `t` is the pieces in order, with nothing but whitespace before, between
      and after them. */
  ghost predicate Spaced(t: string, pieces: seq<string>)
    decreases |pieces|
  {
    if pieces == [] then Blank(t)
    else exists i: nat :: PieceAt(t, i, pieces[0]) && Spaced(t[i + |pieces[0]|..], pieces[1..])
  }

  /** `t` holds `p` at index `i`, with only whitespace before it. */
  ghost predicate PieceAt(t: string, i: nat, p: string) {
    i + |p| <= |t| && Blank(t[..i]) && t[i..i + |p|] == p
  }

  /** Whitespace on either side of a spaced slice keeps the whole text
      spaced. */
  lemma {:induction false} SpacedWiden(t: string, i: nat, j: nat, pieces: seq<string>)
    requires i <= j <= |t| && Blank(t[..i]) && Blank(t[j..]) && Spaced(t[i..j], pieces)
    ensures Spaced(t, pieces)
    decreases |pieces|, 0
  {
    if pieces == [] {
      BlankJoin(t, i, j);
    } else {
      var w, p := t[i..j], pieces[0];
      var k: nat :| PieceAt(w, k, p) && Spaced(w[k + |p|..], pieces[1..]);
      var a := i + k + |p|;
      SpacedTail(t, i, j, k + |p|, pieces[1..]);
      PieceWiden(t, i, j, k, p);
      assert PieceAt(t, i + k, p) && Spaced(t[a..], pieces[1..]);
    }
  }

  lemma SpacedTail(t: string, i: nat, j: nat, q: nat, rest: seq<string>)
    requires i <= j <= |t| && q <= j - i && Blank(t[j..]) && Spaced(t[i..j][q..], rest)
    ensures Spaced(t[i + q..], rest)
    decreases |rest|, 1
  {
    var u := t[i + q..];
    assert u[0..j - i - q] == t[i..j][q..];
    assert u[..0] == [] && u[j - i - q..] == t[j..];
    SpacedWiden(u, 0, j - i - q, rest);
  }

  lemma PieceWiden(t: string, i: nat, j: nat, k: nat, p: string)
    requires i <= j <= |t| && Blank(t[..i]) && PieceAt(t[i..j], k, p)
    ensures PieceAt(t, i + k, p)
  {
    SliceWithin(t, i, j, k, k + |p|);
    BlankGrow(t, i, k, t[i..j]);
  }

  lemma SliceWithin(t: string, i: nat, j: nat, k: nat, l: nat)
    requires i <= j <= |t| && k <= l <= j - i
    ensures t[i..j][k..l] == t[i + k..i + l]
  {
    assert |t[i..j][k..l]| == l - k;
    forall x | 0 <= x < l - k
      ensures t[i..j][k..l][x] == t[i + k..i + l][x]
    {
    }
  }

  /** A text blank before `i`, between `i` and `j` and after `j` is blank. */
  lemma BlankJoin(t: string, i: nat, j: nat)
    requires i <= j <= |t| && Blank(t[..i]) && Blank(t[i..j]) && Blank(t[j..])
    ensures Blank(t)
  {
    forall k | 0 <= k < |t|
      ensures IsSpace(t[k])
    {
      if k < i {
        assert t[k] == t[..i][k];
      } else if k < j {
        assert t[k] == t[i..j][k - i];
      } else {
        assert t[k] == t[j..][k - j];
      }
    }
  }

  /** A blank prefix of `t` followed by a blank prefix of `w == t[i..]`. */
  lemma BlankGrow(t: string, i: nat, k: nat, w: string)
    requires i + k <= |t| && k <= |w| && w[..k] == t[i..i + k] && Blank(t[..i]) && Blank(w[..k])
    ensures Blank(t[..i + k])
  {
    forall x | 0 <= x < i + k
      ensures IsSpace(t[x])
    {
      if x < i {
        assert t[x] == t[..i][x];
      } else {
        assert t[x] == w[..k][x - i];
      }
    }
  }

  /** A text on its own is spaced. */
  lemma SpacedWhole(t: string)
    ensures Spaced(t, [t])
  {
    assert t[..0] == [] && t[0..|t|] == t && t[|t|..] == [];
    assert [t][1..] == [];
    assert PieceAt(t, 0, [t][0]);
  }

  /** Where the corrected cut divides `t`: both halves, each stripped. */
  lemma CutAnchoredAt(t: string, m: nat) returns (e: nat)
    requires 1 <= m < |t|
    ensures e <= |t|
    ensures CutAnchored(t, m).chunk == Strip(t[..e]) && CutAnchored(t, m).rest == Strip(t[e..])
  {
    var sentence := MatchAt(t, 0, m, SentenceEnd);
    var word := MatchAt(t, 0, m, WordGap);
    if sentence.Some? {
      e := sentence.value.end;
    } else if word.Some? {
      e := word.value.end;
    } else {
      e := m;
      assert CutAnchored(t, m) == ForcedCut(t, m);
      StripStripped(t[..m]);
    }
  }

  /** Cutting `t` at `e` and stripping both halves keeps it spaced: the chunk
      (when not blank) followed by the pieces of the second half. */
  lemma SpacedHalves(t: string, e: nat, pieces: seq<string>)
    requires e <= |t| && Spaced(Strip(t[e..]), pieces)
    ensures Spaced(t, (if Strip(t[..e]) != [] then [Strip(t[..e])] else []) + pieces)
  {
    SpacedStripped(t[e..], pieces);
    if Strip(t[..e]) == [] {
      StripEmpty(t[..e]);
      assert t[..0] == [] && t[0..e] == t[..e];
      SpacedBehind(t, 0, e, pieces);
      assert t[0..] == t && [] + pieces == pieces;
    } else {
      SpacedChunk(t, e, pieces);
    }
  }

  /** A spaced stripped text is spaced with its whitespace put back. */
  lemma SpacedStripped(g: string, pieces: seq<string>)
    requires Spaced(Strip(g), pieces)
    ensures Spaced(g, pieces)
  {
    StripSlice(g);
    StripCut(g);
    SpacedWiden(g, Lead(g), Lead(g) + |Strip(g)|, pieces);
  }

  lemma SpacedChunk(t: string, e: nat, pieces: seq<string>)
    requires e <= |t| && Spaced(t[e..], pieces) && Strip(t[..e]) != []
    ensures Spaced(t, [Strip(t[..e])] + pieces)
  {
    var h := t[..e];
    var c := Strip(h);
    StripSlice(h);
    StripCut(h);
    var l := Lead(h);
    var a := l + |c|;
    assert h[a..] == t[a..e];
    SpacedBehind(t, a, e, pieces);
    assert t[0..e] == h && t[..0] == [];
    PieceWiden(t, 0, e, l, c);
    var all := [c] + pieces;
    assert all[0] == c && all[1..] == pieces;
    assert PieceAt(t, l, all[0]) && Spaced(t[l + |all[0]|..], all[1..]);
  }

  /** Whitespace in front of a spaced suffix keeps it spaced. */
  lemma SpacedBehind(t: string, a: nat, e: nat, pieces: seq<string>)
    requires a <= e <= |t| && Blank(t[a..e]) && Spaced(t[e..], pieces)
    ensures Spaced(t[a..], pieces)
  {
    var u := t[a..];
    assert u[..e - a] == t[a..e];
    assert u[e - a..|t| - a] == t[e..] && u[|t| - a..] == [];
    SpacedWiden(u, e - a, |t| - a, pieces);
  }

  lemma {:induction false} SplitAnchoredLoopSpaced(r: string, m: nat)
    requires m >= 1
    ensures Spaced(r, SplitAnchoredLoop(r, m))
    decreases |r|
  {
    if |r| > m {
      var c := CutAnchored(r, m);
      var e := CutAnchoredAt(r, m);
      SplitAnchoredLoopSpaced(c.rest, m);
      SpacedHalves(r, e, SplitAnchoredLoop(c.rest, m));
    } else if r != [] {
      SpacedWhole(r);
    }
  }

  /** The corrected split keeps the text as it is: its chunks are slices of
      the text, in order, with only whitespace between them. */
  lemma SplitAnchoredSpaced(text: string, m: nat)
    requires m >= 1
    ensures Spaced(text, SplitAnchored(text, m))
  {
    if |text| <= m {
      SpacedWhole(text);
    } else {
      SplitAnchoredLoopSpaced(text, m);
    }
  }

  /** Every turn of the loop on `r` starts on a non-space and finds its
      match, if any, at index 0: the case where skipping `len(chunk)`
      characters skips exactly the match. */
  ghost predicate AnchoredRun(r: string, m: nat)
    requires m >= 1
    decreases |r|
  {
    |r| > m ==>
      && !IsSpace(r[0])
      && (Search(r, m, SentenceEnd).Some? ==> Search(r, m, SentenceEnd).value.start == 0)
      && (Search(r, m, SentenceEnd).None? && Search(r, m, WordGap).Some? ==> Search(r, m, WordGap).value.start == 0)
      && AnchoredRun(CutOnce(r, m).rest, m)
  }

  /** After a chunk taken from index 0 of a text that starts on a non-space,
      what follows the chunk and what follows the match strip alike. */
  lemma SkipChunk(t: string, e: nat)
    requires 0 < e <= |t| && !IsSpace(t[0])
    ensures Strip(t[|Strip(t[..e])|..]) == Strip(t[e..])
  {
    var n := |Strip(t[..e])|;
    StrippedHead(t[..e], t[0]);
    var q := t[n..];
    assert q[e - n..] == t[e..];
    assert q[..e - n] == t[..e][n..];
    StripSkipBlank(q, e - n);
  }

  /** A text that starts on a non-space strips only at its end. */
  lemma StrippedHead(s: string, first: char)
    requires s != [] && s[0] == first && !IsSpace(first)
    ensures |Strip(s)| <= |s| && Blank(s[|Strip(s)|..])
  {
    StripFrame(s);
    assert Lead(s) == 0;
  }

  /** On an anchored turn the cut as written and the corrected cut agree. */
  lemma CutOnceAnchored(t: string, m: nat)
    requires 1 <= m < |t| && !IsSpace(t[0])
    requires Search(t, m, SentenceEnd).Some? ==> Search(t, m, SentenceEnd).value.start == 0
    requires Search(t, m, SentenceEnd).None? && Search(t, m, WordGap).Some? ==> Search(t, m, WordGap).value.start == 0
    ensures CutOnce(t, m).chunk == CutAnchored(t, m).chunk
    ensures CutOnce(t, m).rest == CutAnchored(t, m).rest
  {
    CutOnceBranches(t, m);
    var sentence := Search(t, m, SentenceEnd);
    var word := Search(t, m, WordGap);
    if sentence.Some? {
      assert MatchAt(t, 0, m, SentenceEnd) == sentence;
      SkipChunk(t, sentence.value.end);
    } else {
      assert MatchAt(t, 0, m, SentenceEnd).None?;
      if word.Some? {
        assert MatchAt(t, 0, m, WordGap) == word;
        SkipChunk(t, word.value.end);
      } else {
        assert MatchAt(t, 0, m, WordGap).None?;
      }
    }
  }

  lemma {:induction false} SplitLoopAnchored(r: string, m: nat)
    requires m >= 1 && AnchoredRun(r, m)
    ensures SplitLoop(r, m) == SplitAnchoredLoop(r, m)
    decreases |r|
  {
    if |r| > m {
      CutOnceAnchored(r, m);
      SplitLoopAnchored(CutOnce(r, m).rest, m);
    }
  }

  /** When every turn is anchored, the split as written is the corrected one
      and keeps the text: its chunks in order with only whitespace between. */
  lemma SplitKeepsTextWhenAnchored(text: string, m: nat)
    requires m >= 1 && AnchoredRun(text, m)
    ensures Split(text, m) == SplitAnchored(text, m)
    ensures Spaced(text, Split(text, m))
  {
    if |text| > m {
      SplitLoopAnchored(text, m);
    }
    SplitAnchoredSpaced(text, m);
  }
}

module ChunkerExamples {
  import opened Text
  import opened Chunker

  /** No sentence match starts at indices 0, 1 or 2 of the sample. */
  lemma SampleNoEarlyMatch()
    ensures MatchAt("ab c. d", 0, 1, SentenceEnd) == None
    ensures MatchAt("ab c. d", 1, 1, SentenceEnd) == None
    ensures MatchAt("ab c. d", 2, 1, SentenceEnd) == None
  {
  }

  lemma SampleFirstSearch()
    ensures Search("ab c. d", 1, SentenceEnd) == Some(Match(3, 1, 6))
  {
    var t := "ab c. d";
    SampleNoEarlyMatch();
    calc {
      SearchFrom(t, 0, 1, SentenceEnd);
      SearchFrom(t, 1, 1, SentenceEnd);
      SearchFrom(t, 2, 1, SentenceEnd);
      SearchFrom(t, 3, 1, SentenceEnd);
    == { assert MatchAt(t, 3, 1, SentenceEnd) == Some(Match(3, 1, 6)); }
      Some(Match(3, 1, 6));
    }
  }

  lemma SampleSecondSearch()
    ensures Search("c. d", 1, SentenceEnd) == Some(Match(0, 1, 3))
  {
    assert MatchAt("c. d", 0, 1, SentenceEnd) == Some(Match(0, 1, 3));
  }

  lemma StripSentence()
    ensures Strip("c. ") == "c."
  {
    StripIs("c. ", 0, 2);
    assert "c. "[0..2] == "c.";
  }

  lemma StripRest()
    ensures Strip(" c. d") == "c. d"
  {
    StripIs(" c. d", 1, 5);
    assert " c. d"[1..5] == "c. d";
  }

  lemma StripLast()
    ensures Strip(" d") == "d"
  {
    StripIs(" d", 1, 2);
    assert " d"[1..2] == "d";
  }

  lemma SampleFirstCut()
    ensures CutOnce("ab c. d", 1) == Cut("c.", "c. d", AtSentence)
  {
    SampleFirstSearch();
    assert "ab c. d"[3..6] == "c. ";
    StripSentence();
    assert "ab c. d"[2..] == " c. d";
    StripRest();
  }

  lemma SampleSecondCut()
    ensures CutOnce("c. d", 1) == Cut("c.", "d", AtSentence)
  {
    SampleSecondSearch();
    assert "c. d"[0..3] == "c. ";
    StripSentence();
    assert "c. d"[2..] == " d";
    StripLast();
  }

  /** `split_text_into_chunks("ab c. d", 1)` as written: "ab" is lost and
      "c." is emitted twice, because the rest is cut `len(chunk)` characters
      from the start of `remaining` instead of at the end of the match. */
  lemma SplitLosesText()
    ensures Split("ab c. d", 1) == ["c.", "c.", "d"]
  {
    SampleHead();
    SampleTail();
  }

  lemma SampleHead()
    ensures SplitLoop("ab c. d", 1) == ["c."] + SplitLoop("c. d", 1)
  {
    SampleFirstCut();
    SplitLoopStep("ab c. d", 1);
  }

  lemma SampleTail()
    ensures SplitLoop("c. d", 1) == ["c.", "d"]
  {
    SampleSecondCut();
    SplitLoopStep("c. d", 1);
  }

  /** The sentence pattern on the greeting, with at most 12 characters
      before the terminator: `.{0,12}` backtracks from "Hello world. " to
      "Hello world", so the match is "Hello world. ". */
  lemma GreetingSearch()
    ensures Search("Hello world. How are you?", 12, SentenceEnd) == Some(Match(0, 11, 13))
  {
    var t := "Hello world. How are you?";
    GreetingReach();
    GreetingTails();
    assert Backtrack(t, 0, 11, 12, SentenceEnd) == Some(Match(0, 11, 13));
    assert MatchAt(t, 0, 12, SentenceEnd) == Some(Match(0, 11, 13));
  }

  lemma GreetingReach()
    ensures DotReach("Hello world. How are you?", 0, 12) == 12
  {
    var t := "Hello world. How are you?";
    assert forall i :: 0 <= i < |t| ==> t[i] != '\n';
  }

  lemma GreetingTails()
    ensures TailEnd("Hello world. How are you?", 12, SentenceEnd) == None
    ensures TailEnd("Hello world. How are you?", 11, SentenceEnd) == Some(13)
  {
    var t := "Hello world. How are you?";
    assert t[12] == ' ' && t[11] == '.' && t[13] == 'H';
    assert SpaceRunEnd(t, 13) == 13;
  }

  lemma GreetingStrips()
    ensures Strip("Hello world. ") == "Hello world."
  {
    StripIs("Hello world. ", 0, 12);
    assert "Hello world. "[0..12] == "Hello world.";
  }

  lemma GreetingRest()
    ensures Strip(" How are you?") == "How are you?"
  {
    StripIs(" How are you?", 1, 13);
    assert " How are you?"[1..13] == "How are you?";
  }

  lemma GreetingCut()
    ensures CutOnce("Hello world. How are you?", 12) == Cut("Hello world.", "How are you?", AtSentence)
  {
    var t := "Hello world. How are you?";
    GreetingSearch();
    CutOnceBranches(t, 12);
    GreetingSlices();
    GreetingStrips();
    GreetingRest();
    assert CutAt(t, Match(0, 11, 13), AtSentence) == Cut("Hello world.", "How are you?", AtSentence);
  }

  lemma GreetingSlices()
    ensures "Hello world. How are you?"[0..13] == "Hello world. "
    ensures "Hello world. How are you?"[12..] == " How are you?"
  {
  }

  /** `split_text_into_chunks("Hello world. How are you?", 12)` gives the
      two sentences. */
  lemma GreetingSplit()
    ensures Split("Hello world. How are you?", 12) == ["Hello world.", "How are you?"]
  {
    GreetingCut();
    SplitLoopStep("Hello world. How are you?", 12);
  }

  /** The greeting's only match starts at index 0, so the split as written
      keeps its text. */
  lemma GreetingKept()
    ensures Spaced("Hello world. How are you?", Split("Hello world. How are you?", 12))
  {
    GreetingCut();
    GreetingSearch();
    assert AnchoredRun("How are you?", 12);
    assert AnchoredRun("Hello world. How are you?", 12);
    SplitKeepsTextWhenAnchored("Hello world. How are you?", 12);
  }
}
