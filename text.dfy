/** String and byte helpers shared by every component: Python's notion of
    whitespace (what both `str.strip()` and the regular-expression class `\s`
    use), stripping, prefixes and suffixes, joining and flattening. */
module Text {

  datatype Option<+T> = None | Some(value: T)

  /** A byte of audio or of an HTTP body. */
  newtype byte = x: int | 0 <= x < 256

  type Bytes = seq<byte>

  /** Python's `str.isspace()`: the ASCII controls 9-13 and 28-31, the space,
      U+0085, U+00A0 and the Unicode space separators. */
  predicate IsSpace(c: char) {
    ('\t' <= c <= '\r') || ('\U{1C}' <= c <= ' ') || c == '\U{85}' || c == '\U{A0}' ||
    c == '\U{1680}' || ('\U{2000}' <= c <= '\U{200A}') || c == '\U{2028}' || c == '\U{2029}' ||
    c == '\U{202F}' || c == '\U{205F}' || c == '\U{3000}'
  }

  /** A sentence terminator, the class `[.!?]`. */
  predicate IsTerminator(c: char) {
    c == '.' || c == '!' || c == '?'
  }

  /** Every character is whitespace (also true of the empty string). */
  predicate Blank(s: string) {
    forall i :: 0 <= i < |s| ==> IsSpace(s[i])
  }

  /** Neither end of `s` is whitespace. */
  predicate IsStripped(s: string) {
    s == [] || (!IsSpace(s[0]) && !IsSpace(s[|s| - 1]))
  }

  /** The index of the first non-whitespace character of `s` at or after
      `i`, or `|s|`. */
  function LeadFrom(s: string, i: nat): (n: nat)
    requires i <= |s|
    ensures i <= n <= |s|
    ensures forall k :: i <= k < n ==> IsSpace(s[k])
    ensures n < |s| ==> !IsSpace(s[n])
    decreases |s| - i
  {
    if i < |s| && IsSpace(s[i]) then LeadFrom(s, i + 1) else i
  }

  /** How many whitespace characters `s.lstrip()` removes. */
  function Lead(s: string): (n: nat)
    ensures n <= |s|
    ensures forall k :: 0 <= k < n ==> IsSpace(s[k])
    ensures n < |s| ==> !IsSpace(s[n])
  {
    LeadFrom(s, 0)
  }

  /** The index just after the last non-whitespace character of `s` before
      `j`, or 0. */
  function TrailTo(s: string, j: nat): (n: nat)
    requires j <= |s|
    ensures n <= j
    ensures forall k :: n <= k < j ==> IsSpace(s[k])
    ensures n > 0 ==> !IsSpace(s[n - 1])
  {
    if j > 0 && IsSpace(s[j - 1]) then TrailTo(s, j - 1) else j
  }

  /** Where `s.rstrip()` cuts. */
  function Trail(s: string): (n: nat)
    ensures n <= |s|
    ensures forall k :: n <= k < |s| ==> IsSpace(s[k])
    ensures n > 0 ==> !IsSpace(s[n - 1])
  {
    TrailTo(s, |s|)
  }

  /** `s.strip()`: the slice of `s` between the first and the last
      non-whitespace character, empty when there is none. */
  function Strip(s: string): (r: string)
    ensures IsStripped(r)
    ensures |r| <= |s|
  {
    if Lead(s) < Trail(s) then s[Lead(s)..Trail(s)] else []
  }

  /** The cuts of `Strip` are ordered unless the text is blank. */
  lemma LeadTrail(s: string)
    ensures Lead(s) < Trail(s) || Blank(s)
  {
    if Trail(s) <= Lead(s) {
      assert forall k :: 0 <= k < |s| ==> IsSpace(s[k]) by {
        forall k | 0 <= k < |s|
          ensures IsSpace(s[k])
        {
          if k >= Trail(s) {
          } else {
            assert k < Lead(s);
          }
        }
      }
    }
  }

  /** What `Strip` keeps is a slice of `s`. */
  lemma StripSlice(s: string)
    ensures Lead(s) + |Strip(s)| <= |s|
    ensures Strip(s) == s[Lead(s)..Lead(s) + |Strip(s)|]
  {
  }

  /** What `Strip` cuts off is whitespace. */
  lemma StripCut(s: string)
    ensures Lead(s) + |Strip(s)| <= |s|
    ensures Blank(s[..Lead(s)]) && Blank(s[Lead(s) + |Strip(s)|..])
  {
    LeadTrail(s);
  }

  /** Only a blank text strips to nothing. */
  lemma StripEmpty(s: string)
    ensures Strip(s) == [] <==> Blank(s)
  {
    LeadTrail(s);
  }

  /** `Strip` is pinned down by where it cuts: a stripped slice with only
      whitespace around it. */
  lemma StripIs(s: string, i: nat, j: nat)
    requires i < j <= |s|
    requires forall k :: 0 <= k < i ==> IsSpace(s[k])
    requires forall k :: j <= k < |s| ==> IsSpace(s[k])
    requires !IsSpace(s[i]) && !IsSpace(s[j - 1])
    ensures Strip(s) == s[i..j]
  {
    assert Lead(s) == i;
    assert Trail(s) == j;
  }

  /** Where the whitespace run starting at `p` ends. */
  function SpaceRunEnd(t: string, p: nat): (e: nat)
    requires p <= |t|
    ensures p <= e <= |t|
    ensures e == |t| || !IsSpace(t[e])
    decreases |t| - p
  {
    if p < |t| && IsSpace(t[p]) then
      SpaceRunEnd(t, p + 1)
    else p
  }

  /** The whitespace run really is whitespace. */
  lemma {:induction false} SpaceRunBlank(t: string, p: nat)
    requires p <= |t|
    ensures Blank(t[p..SpaceRunEnd(t, p)])
    decreases |t| - p
  {
    if p < |t| && IsSpace(t[p]) {
      var e := SpaceRunEnd(t, p);
      SpaceRunBlank(t, p + 1);
      assert t[p..e] == [t[p]] + t[p + 1..e];
    }
  }

  /** Python's `s.startswith(p)`. */
  predicate StartsWith(s: string, p: string) {
    |p| <= |s| && s[..|p|] == p
  }

  /** Python's `s.endswith(p)`. */
  predicate EndsWith(s: string, p: string) {
    |p| <= |s| && s[|s| - |p|..] == p
  }

  /** The text with every whitespace character removed: what survives any
      amount of re-spacing. */
  function Squeeze(s: string): (r: string)
    ensures |r| <= |s|
  {
    if s == [] then [] else (if IsSpace(s[0]) then [] else [s[0]]) + Squeeze(s[1..])
  }

  lemma {:induction false} SqueezeAppend(a: string, b: string)
    ensures Squeeze(a + b) == Squeeze(a) + Squeeze(b)
  {
    if a != [] {
      assert (a + b)[0] == a[0];
      assert (a + b)[1..] == a[1..] + b;
      SqueezeAppend(a[1..], b);
    } else {
      assert a + b == b;
    }
  }

  /** Squeeze of a text is the Squeeze of its two halves, wherever it is cut. */
  lemma {:induction false} SqueezeSplit(t: string, e: nat)
    requires e <= |t|
    ensures Squeeze(t[..e]) + Squeeze(t[e..]) == Squeeze(t)
    decreases e
  {
    if e == 0 {
      assert t[..0] == [] && t[0..] == t;
    } else {
      SqueezeSplit(t[1..], e - 1);
      assert t[..e][0] == t[0];
      assert t[..e][1..] == t[1..][..e - 1];
      assert t[1..][e - 1..] == t[e..];
    }
  }

  lemma {:induction false} SqueezeBlank(s: string)
    requires Blank(s)
    ensures Squeeze(s) == []
  {
    if s != [] {
      SqueezeBlank(s[1..]);
    }
  }

  /** Stripping never changes what Squeeze sees. */
  lemma SqueezeStrip(s: string)
    ensures Squeeze(Strip(s)) == Squeeze(s)
  {
    StripSlice(s);
    StripCut(s);
    var r := Strip(s);
    var a := Lead(s);
    assert s == s[..a] + (r + s[a + |r|..]);
    SqueezeAppend(s[..a], r + s[a + |r|..]);
    SqueezeAppend(r, s[a + |r|..]);
    SqueezeBlank(s[..a]);
    SqueezeBlank(s[a + |r|..]);
  }

  /** If everything from index `j` on is whitespace, the stripped text is at
      most `j` characters long. */
  lemma StripWithin(s: string, j: nat)
    requires j <= |s|
    requires Blank(s[j..])
    ensures |Strip(s)| <= j
  {
    forall k | j <= k < |s|
      ensures IsSpace(s[k])
    {
      assert s[k] == s[j..][k - j];
    }
  }

  /** When the last non-whitespace character of `s` sits at `j - 1`, the
      stripped text ends with it. */
  lemma StripEndsAt(s: string, j: nat)
    requires 0 < j <= |s| && !IsSpace(s[j - 1])
    requires forall k :: j <= k < |s| ==> IsSpace(s[k])
    ensures Strip(s) != [] && |Strip(s)| <= j
    ensures Strip(s)[|Strip(s)| - 1] == s[j - 1]
  {
    assert Trail(s) == j;
  }

  /** A text that starts with a non-space keeps its start when stripped. */
  lemma StripKeepsStart(s: string)
    requires s != [] && !IsSpace(s[0])
    ensures Strip(s) == s[..|Strip(s)|]
  {
  }

  /** Stripping a stripped text changes nothing. */
  lemma StripStripped(s: string)
    requires IsStripped(s)
    ensures Strip(s) == s
  {
    if s != [] {
      StripIs(s, 0, |s|);
    }
  }

  /** `s` is its stripped text with the whitespace `strip` removes on either
      side. */
  lemma StripFrame(s: string)
    ensures Lead(s) + |Strip(s)| <= |s|
    ensures s == s[..Lead(s)] + Strip(s) + s[Lead(s) + |Strip(s)|..]
    ensures Blank(s[..Lead(s)]) && Blank(s[Lead(s) + |Strip(s)|..])
  {
    StripSlice(s);
    StripCut(s);
  }

  lemma BlankAppend(a: string, b: string)
    requires Blank(a) && Blank(b)
    ensures Blank(a + b)
  {
    forall k | 0 <= k < |a + b|
      ensures IsSpace((a + b)[k])
    {
      if k >= |a| {
        assert (a + b)[k] == b[k - |a|];
      }
    }
  }

  /** `Lead` is pinned down by the whitespace before it and the character at it. */
  lemma LeadIs(s: string, n: nat)
    requires n <= |s| && (forall k :: 0 <= k < n ==> IsSpace(s[k])) && (n < |s| ==> !IsSpace(s[n]))
    ensures Lead(s) == n
  {
  }

  /** `Trail` is pinned down by the whitespace after it and the character before it. */
  lemma TrailIs(s: string, n: nat)
    requires n <= |s| && (forall k :: n <= k < |s| ==> IsSpace(s[k])) && (n > 0 ==> !IsSpace(s[n - 1]))
    ensures Trail(s) == n
  {
  }

  /** Behind a blank prefix of length `p`, `lstrip` stops where it stops on
      the rest. */
  lemma LeadBehindBlank(s: string, p: nat)
    requires p <= |s| && Blank(s[..p])
    ensures Lead(s) == p + Lead(s[p..])
  {
    var r := s[p..];
    var l := Lead(r);
    forall k | 0 <= k < p + l
      ensures IsSpace(s[k])
    {
      if k < p {
        assert s[k] == s[..p][k];
      } else {
        assert s[k] == r[k - p];
      }
    }
    if p + l < |s| {
      assert s[p + l] == r[l];
    }
    LeadIs(s, p + l);
  }

  /** Behind a blank prefix of length `p`, `rstrip` cuts where it cuts the
      rest, unless the rest is blank. */
  lemma TrailBehindBlank(s: string, p: nat)
    requires p <= |s| && Blank(s[..p]) && Trail(s[p..]) > 0
    ensures Trail(s) == p + Trail(s[p..])
  {
    var r := s[p..];
    var t := Trail(r);
    forall k | p + t <= k < |s|
      ensures IsSpace(s[k])
    {
      assert s[k] == r[k - p];
    }
    assert s[p + t - 1] == r[t - 1];
    TrailIs(s, p + t);
  }

  /** Whitespace at the front of a text does not change what `strip` keeps. */
  lemma StripSkipBlank(s: string, p: nat)
    requires p <= |s| && Blank(s[..p])
    ensures Strip(s) == Strip(s[p..])
  {
    LeadTrail(s[p..]);
    if Lead(s[p..]) < Trail(s[p..]) {
      StripSkipBlankText(s, p);
    } else {
      StripSkipBlankOnly(s, p);
    }
  }

  lemma StripSkipBlankText(s: string, p: nat)
    requires p <= |s| && Blank(s[..p]) && Lead(s[p..]) < Trail(s[p..])
    ensures Strip(s) == Strip(s[p..])
  {
    LeadBehindBlank(s, p);
    TrailBehindBlank(s, p);
    SliceOfSlice(s, p, Lead(s[p..]), Trail(s[p..]));
  }

  lemma StripSkipBlankOnly(s: string, p: nat)
    requires p <= |s| && Blank(s[..p]) && Blank(s[p..])
    ensures Strip(s) == Strip(s[p..]) == []
  {
    LeadBehindBlank(s, p);
    assert Lead(s[p..]) == |s| - p;
  }

  lemma SliceOfSlice(s: string, p: nat, i: nat, j: nat)
    requires p <= |s| && i <= j <= |s| - p
    ensures s[p + i..p + j] == s[p..][i..j]
  {
  }

  /** Concatenation of a sequence of sequences. */
  function Flatten<T>(ss: seq<seq<T>>): (r: seq<T>)
  {
    if ss == [] then [] else ss[0] + Flatten(ss[1..])
  }

  lemma {:induction false} FlattenAppend<T>(a: seq<seq<T>>, b: seq<seq<T>>)
    ensures Flatten(a + b) == Flatten(a) + Flatten(b)
  {
    if a != [] {
      assert (a + b)[0] == a[0];
      assert (a + b)[1..] == a[1..] + b;
      FlattenAppend(a[1..], b);
      assert Flatten(a + b) == a[0] + Flatten(a[1..] + b);
    } else {
      assert a + b == b;
    }
  }

  /** One more piece. */
  lemma FlattenSnoc<T>(ss: seq<seq<T>>, i: nat)
    requires i < |ss|
    ensures Flatten(ss[..i + 1]) == Flatten(ss[..i]) + ss[i]
  {
    assert ss[..i + 1] == ss[..i] + [ss[i]];
    FlattenAppend(ss[..i], [ss[i]]);
    assert Flatten([ss[i]]) == ss[i] + Flatten([ss[i]][1..]);
    assert [ss[i]][1..] == [];
  }

  lemma AppendAssoc<T>(a: seq<T>, b: seq<T>, c: seq<T>)
    ensures (a + b) + c == a + (b + c)
  {
  }

  /** Python's `sep.join(parts)`. */
  function Join(sep: string, parts: seq<string>): (r: string)
  {
    if parts == [] then []
    else if |parts| == 1 then parts[0]
    else parts[0] + sep + Join(sep, parts[1..])
  }

  /** Python's ASCII-range `str.lower()` for one character. */
  function LowerChar(c: char): (d: char)
  {
    if 'A' <= c <= 'Z' then (c as int + 32) as char else c
  }

  /** `s.lower()`, with case mapping limited to ASCII letters. */
  function Lower(s: string): (r: string)
    ensures |r| == |s|
    ensures forall i :: 0 <= i < |s| ==> r[i] == LowerChar(s[i])
  {
    if s == [] then [] else [LowerChar(s[0])] + Lower(s[1..])
  }
}
