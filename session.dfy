/** `VoiceWebSocketServer` (voice_pipeline/transport/websocket.py): the
    message loop of one connection, the forwarding of one turn's events and
    the framing of audio on the wire.

    The socket is closed once: the first `live` connectivity checks succeed
    and every later one fails. Base64 encoding is the given `encode`. */
module Session {
  import opened Text
  import opened Events
  import opened Orchestrator

  // ---------------------------------------------------------------------
  // Wire messages and audio framing
  // ---------------------------------------------------------------------

  /** The JSON messages the server sends. */
  datatype Outbound =
    | ModeChange(mode: string)                                  // {"type": "mode_change", "mode"}
    | TranscriptMsg(text: string, final: bool)                  // {"type": "transcript", ...}
    | AgentTextMsg(text: string, final: bool)                   // {"type": "agent_text", ...}
    | AudioMsg(audio: string, final: bool)                      // {"type": "agent_audio", "audio", "final"}
    | AudioPiece(audio: string, final: bool, index: nat, total: nat)  // ... with "chunk_index", "total_chunks"
    | ErrorMsg(message: string)                                 // {"type": "error", "message"}

  /** The `type` field of a message. */
  function Kind(m: Outbound): (kind: string)
  {
    match m
    case ModeChange(_) => "mode_change"
    case TranscriptMsg(_, _) => "transcript"
    case AgentTextMsg(_, _) => "agent_text"
    case AudioMsg(_, _) => "agent_audio"
    case AudioPiece(_, _, _, _) => "agent_audio"
    case ErrorMsg(_) => "error"
  }

  /** Base64 text longer than this is split. */
  const MAX_BASE64_SIZE: nat := 1024 * 1024
  /** The size of one piece of split base64 text. */
  const CHUNK_SIZE: nat := 32 * 1024

  /** `total_chunks`: the ceiling of `n / CHUNK_SIZE`. */
  function Total(n: nat): (t: nat)
    ensures (t - 1) * CHUNK_SIZE < n <= t * CHUNK_SIZE || (n == 0 && t == 0)
  {
    (n + CHUNK_SIZE - 1) / CHUNK_SIZE
  }

  /** The pieces sent for the offsets `i, i + CHUNK_SIZE, ...` below `|s|`. */
  function PiecesFrom(s: string, final: bool, i: nat): (ps: seq<Outbound>)
    decreases |s| - i
  {
    if i >= |s| then []
    else
      var j := if i + CHUNK_SIZE <= |s| then i + CHUNK_SIZE else |s|;
      [AudioPiece(s[i..j], i + CHUNK_SIZE >= |s| && final, i / CHUNK_SIZE, Total(|s|))]
        + PiecesFrom(s, final, i + CHUNK_SIZE)
  }

  /** The audio of a sequence of messages, back to back. */
  function AudioText(ms: seq<Outbound>): (s: string)
  {
    if ms == [] then []
    else (if ms[0].AudioPiece? || ms[0].AudioMsg? then ms[0].audio else []) + AudioText(ms[1..])
  }

  /** Split base64 text: `Total(|s|)` pieces numbered from 0, each of at most
      `CHUNK_SIZE` characters and all but the last exactly that long, the
      last one final exactly when the event is, and together the text. */
  lemma {:induction false} PiecesFromSplit(s: string, final: bool, k: nat)
    requires k * CHUNK_SIZE < |s| + CHUNK_SIZE
    ensures var ps := PiecesFrom(s, final, k * CHUNK_SIZE);
      && |ps| == Total(|s|) - k
      && AudioText(ps) == s[if k * CHUNK_SIZE <= |s| then k * CHUNK_SIZE else |s|..]
      && forall j :: 0 <= j < |ps| ==>
           && ps[j].AudioPiece?
           && ps[j].index == k + j && ps[j].total == Total(|s|)
           && |ps[j].audio| <= CHUNK_SIZE
           && (j < |ps| - 1 ==> |ps[j].audio| == CHUNK_SIZE)
           && (ps[j].final <==> final && j == |ps| - 1)
    decreases |s| + CHUNK_SIZE - k * CHUNK_SIZE
  {
    var i := k * CHUNK_SIZE;
    if i < |s| {
      assert i / CHUNK_SIZE == k;
      assert (k + 1) * CHUNK_SIZE == i + CHUNK_SIZE;
      PiecesFromSplit(s, final, k + 1);
      var j := if i + CHUNK_SIZE <= |s| then i + CHUNK_SIZE else |s|;
      var rest := PiecesFrom(s, final, i + CHUNK_SIZE);
      var ps := PiecesFrom(s, final, i);
      assert ps[1..] == rest;
      assert AudioText(ps) == s[i..j] + AudioText(rest);
      if i + CHUNK_SIZE < |s| {
        assert s[i..j] + s[j..] == s[i..];
      } else {
        assert rest == [];
      }
    }
  }

  /** The framing the source promises for a long base64 text. */
  lemma PiecesSplit(s: string, final: bool)
    ensures var ps := PiecesFrom(s, final, 0);
      && |ps| == Total(|s|)
      && AudioText(ps) == s
      && forall j :: 0 <= j < |ps| ==>
           && ps[j].AudioPiece? && ps[j].index == j && ps[j].total == |ps|
           && |ps[j].audio| <= CHUNK_SIZE
           && (ps[j].final <==> final && j == |ps| - 1)
  {
    PiecesFromSplit(s, final, 0);
  }

  /** The messages `_send_event` sends for one event on a connected socket. */
  function Frames(e: VoiceEvent, encode: Bytes -> string): (ms: seq<Outbound>)
  {
    match e
    case TranscriptChunk(text, final) => [TranscriptMsg(text, final)]
    case AgentTextChunk(text, final) => [AgentTextMsg(text, final)]
    case AgentAudioChunk(audio, final) =>
      if audio != [] then
        var s := encode(audio);
        if |s| > MAX_BASE64_SIZE then PiecesFrom(s, final, 0) else [AudioMsg(s, final)]
      else if final then [AudioMsg([], true)]
      else []
    case ModeChangeEvent(mode) => [ModeChange(mode)]
  }

  /** Every message sent for an event carries the event's own tag as its
      `type`; audio goes out whole, and empty audio only when final. */
  lemma FramesTagged(e: VoiceEvent, encode: Bytes -> string)
    ensures forall m :: m in Frames(e, encode) ==> Kind(m) == Tag(e)
    ensures e.AgentAudioChunk? && e.audio != [] ==> AudioText(Frames(e, encode)) == encode(e.audio)
    ensures e.AgentAudioChunk? ==> (Frames(e, encode) == [] <==> e.audio == [] && !e.final)
  {
    if e.AgentAudioChunk? && e.audio != [] {
      var s := encode(e.audio);
      PiecesSplit(s, e.final);
      if |s| > MAX_BASE64_SIZE {
        var ps := PiecesFrom(s, e.final, 0);
        assert forall m :: m in ps ==> m.AudioPiece? by {
          forall m | m in ps ensures m.AudioPiece? {
            var j :| 0 <= j < |ps| && ps[j] == m;
          }
        }
      } else {
        assert AudioText([AudioMsg(s, e.final)]) == s + AudioText([]);
      }
    }
  }

  /** What `_process_audio` forwards for a turn's events on a connected
      socket: `mode_change speaking` once, right before the first audio
      event, then every event's messages in order. */
  function Forwarded(events: seq<VoiceEvent>, speaking: bool, encode: Bytes -> string): (ms: seq<Outbound>)
  {
    if events == [] then []
    else
      var cue := events[0].AgentAudioChunk? && !speaking;
      (if cue then [ModeChange("speaking")] else []) + Frames(events[0], encode)
        + Forwarded(events[1..], speaking || cue, encode)
  }

  /** How a turn's task ends. */
  datatype Ending = Completed | Cancelled | Failed(reason: string)

  /** Everything `_process_audio` sends on a connected socket: the forwarded
      events, then `listening`, after the error message when the turn failed. */
  function Processed(events: seq<VoiceEvent>, ending: Ending, encode: Bytes -> string): (ms: seq<Outbound>)
  {
    Forwarded(events, false, encode) + Closing(ending)
  }

  /** The messages that close a turn: `listening`, after the error message
      when the turn failed. */
  function Closing(ending: Ending): (ms: seq<Outbound>)
  {
    (if ending.Failed? then [ErrorMsg(ending.reason)] else []) + [ModeChange("listening")]
  }

  /** The number of `mode_change speaking` messages. */
  function Cues(ms: seq<Outbound>): (n: nat)
    ensures n <= |ms|
  {
    if ms == [] then 0 else (if ms[0] == ModeChange("speaking") then 1 else 0) + Cues(ms[1..])
  }

  lemma {:induction false} CuesAppend(a: seq<Outbound>, b: seq<Outbound>)
    ensures Cues(a + b) == Cues(a) + Cues(b)
  {
    if a != [] {
      assert (a + b)[0] == a[0] && (a + b)[1..] == a[1..] + b;
      CuesAppend(a[1..], b);
    } else {
      assert a + b == b;
    }
  }

  lemma FramesHaveNoCue(e: VoiceEvent, encode: Bytes -> string)
    requires !e.ModeChangeEvent?
    ensures Cues(Frames(e, encode)) == 0
  {
    FramesTagged(e, encode);
    var ms := Frames(e, encode);
    assert forall m :: m in ms ==> m != ModeChange("speaking");
    NoCue(ms);
  }

  lemma {:induction false} NoCue(ms: seq<Outbound>)
    requires forall m :: m in ms ==> m != ModeChange("speaking")
    ensures Cues(ms) == 0
  {
    if ms != [] {
      assert ms[0] in ms;
      assert forall m :: m in ms[1..] ==> m in ms;
      NoCue(ms[1..]);
    }
  }

  /** The speaking cue is sent once when the turn has audio and never
      otherwise. */
  lemma {:induction false} CueOnce(events: seq<VoiceEvent>, speaking: bool, encode: Bytes -> string)
    requires forall i :: 0 <= i < |events| ==> !events[i].ModeChangeEvent?
    ensures Cues(Forwarded(events, speaking, encode)) ==
      (if !speaking && exists i :: 0 <= i < |events| && events[i].AgentAudioChunk? then 1 else 0)
    decreases |events|
  {
    if events != [] {
      var e := events[0];
      var cue := e.AgentAudioChunk? && !speaking;
      var rest := Forwarded(events[1..], speaking || cue, encode);
      CueOnce(events[1..], speaking || cue, encode);
      FramesHaveNoCue(e, encode);
      CuesAppend((if cue then [ModeChange("speaking")] else []) + Frames(e, encode), rest);
      CuesAppend(if cue then [ModeChange("speaking")] else [], Frames(e, encode));
      if !speaking && !cue {
        if exists i :: 0 <= i < |events| && events[i].AgentAudioChunk? {
          var i :| 0 <= i < |events| && events[i].AgentAudioChunk?;
          assert events[1..][i - 1].AgentAudioChunk?;
        }
        if exists i :: 0 <= i < |events[1..]| && events[1..][i].AgentAudioChunk? {
          var i :| 0 <= i < |events[1..]| && events[1..][i].AgentAudioChunk?;
          assert events[i + 1].AgentAudioChunk?;
        }
      }
    }
  }

  /** Events without audio go out one after the other, without the cue. */
  lemma {:induction false} ForwardedSplit(events: seq<VoiceEvent>, speaking: bool, encode: Bytes -> string, k: nat)
    requires k <= |events|
    requires forall i :: 0 <= i < k ==> !events[i].AgentAudioChunk?
    ensures Forwarded(events, speaking, encode) ==
      Forwarded(events[..k], speaking, encode) + Forwarded(events[k..], speaking, encode)
    decreases k
  {
    if k == 0 {
      assert events[..0] == [] && events[0..] == events;
    } else {
      var head, tail := events[..k], events[1..];
      var first := Forwarded([events[0]], speaking, encode);
      ForwardedSplit(tail, speaking, encode, k - 1);
      assert tail[..k - 1] == head[1..];
      assert tail[k - 1..] == events[k..];
      assert head[0] == events[0];
      ForwardedCons(events, speaking, encode);
      ForwardedCons(head, speaking, encode);
      AppendAssoc(first, Forwarded(head[1..], speaking, encode), Forwarded(events[k..], speaking, encode));
    }
  }

  /** The cue comes right before the messages of the first audio event. */
  lemma CueBeforeFirstAudio(events: seq<VoiceEvent>, encode: Bytes -> string, k: nat)
    requires k < |events| && events[k].AgentAudioChunk?
    requires forall i :: 0 <= i < k ==> !events[i].AgentAudioChunk?
    ensures Forwarded(events, false, encode) ==
      Forwarded(events[..k], false, encode) + [ModeChange("speaking")] + Frames(events[k], encode)
        + Forwarded(events[k + 1..], true, encode)
  {
    var rest := events[k..];
    var cue := [ModeChange("speaking")];
    ForwardedSplit(events, false, encode, k);
    assert rest[0] == events[k] && rest[1..] == events[k + 1..];
    ForwardedCons(rest, false, encode);
    assert [events[k]][1..] == [];
    assert Forwarded([events[k]], false, encode) == cue + Frames(events[k], encode) + [];
    AppendAssoc(Forwarded(events[..k], false, encode), cue + Frames(events[k], encode),
      Forwarded(events[k + 1..], true, encode));
  }

  // ---------------------------------------------------------------------
  // Sending on a socket that may close
  // ---------------------------------------------------------------------

  /** A stage that began after `c0` connectivity checks with `sent0` on the
      wire, and ended after `c` checks with `sent`, delivered `spec`: all of
      it while every check succeeded, else a prefix of it, and nothing at all
      when the socket was closed from the start. Check `k` succeeds exactly
      when `k < live`. */
  ghost predicate Delivered(spec: seq<Outbound>, sent0: seq<Outbound>, c0: nat,
                            sent: seq<Outbound>, c: nat, live: nat)
  {
    && c0 <= c
    && (c <= live ==> sent == sent0 + spec)
    && (live < c ==> sent0 <= sent && sent <= sent0 + spec)
    && (live <= c0 ==> sent == sent0)
  }

  /** Two stages one after the other. */
  lemma DeliveredThen(s1: seq<Outbound>, s2: seq<Outbound>, sent0: seq<Outbound>, c0: nat,
                      sent1: seq<Outbound>, c1: nat, sent2: seq<Outbound>, c2: nat, live: nat)
    requires Delivered(s1, sent0, c0, sent1, c1, live) && Delivered(s2, sent1, c1, sent2, c2, live)
    ensures Delivered(s1 + s2, sent0, c0, sent2, c2, live)
  {
    AppendAssoc(sent0, s1, s2);
    if live < c2 && c1 <= live {
      assert sent0 <= sent0 + s1;
    }
  }

  /** Once the socket is closed, a stage delivers nothing, whatever it was
      to deliver. */
  lemma DeliveredClosed(spec: seq<Outbound>, other: seq<Outbound>, sent0: seq<Outbound>, c0: nat,
                        sent: seq<Outbound>, c: nat, live: nat)
    requires live < c0 && Delivered(spec, sent0, c0, sent, c, live)
    ensures Delivered(other, sent0, c0, sent, c, live)
  {
    assert sent == sent0;
    assert sent0 <= sent0 + other;
  }

  /** A stage that delivered `done`, then a stage that delivered `tail`,
      together delivered `done + rest + tail` when `rest` is empty or the
      socket had closed before the second stage began. */
  lemma DeliveredSkipping(done: seq<Outbound>, rest: seq<Outbound>, tail: seq<Outbound>,
                          sent0: seq<Outbound>, c0: nat, sent1: seq<Outbound>, c1: nat,
                          sent: seq<Outbound>, c: nat, live: nat)
    requires Delivered(done, sent0, c0, sent1, c1, live) && Delivered(tail, sent1, c1, sent, c, live)
    requires rest == [] || live < c1
    ensures Delivered(done + rest + tail, sent0, c0, sent, c, live)
  {
    if rest == [] {
      assert rest + tail == tail;
    } else {
      DeliveredClosed(tail, rest + tail, sent1, c1, sent, c, live);
    }
    DeliveredThen(done, rest + tail, sent0, c0, sent1, c1, sent, c, live);
    AppendAssoc(done, rest, tail);
  }

  /** The first event, then the others. */
  lemma ForwardedCons(events: seq<VoiceEvent>, speaking: bool, encode: Bytes -> string)
    requires events != []
    ensures Forwarded(events, speaking, encode) ==
      Forwarded([events[0]], speaking, encode) + Forwarded(events[1..], speaking || events[0].AgentAudioChunk?, encode)
  {
    var e := events[0];
    var cue := e.AgentAudioChunk? && !speaking;
    var first := (if cue then [ModeChange("speaking")] else []) + Frames(e, encode);
    assert [e][1..] == [];
    assert Forwarded([e], speaking, encode) == first + [];
  }

  /** The connection as the server sees it: what it has sent so far and how
      many times it has asked whether the client is still connected. */
  class Socket {
    var sent: seq<Outbound>
    var checks: nat
    const live: nat

    constructor(live: nat)
      ensures sent == [] && checks == 0 && this.live == live
    {
      sent, checks, this.live := [], 0, live;
    }

    /** `_is_connected`. */
    method IsConnected() returns (up: bool)
      modifies this
      ensures up == (old(checks) < live)
      ensures checks == old(checks) + 1 && sent == old(sent)
    {
      up := checks < live;
      checks := checks + 1;
    }

    /** `send_json`, on a socket just found connected. */
    method Send(m: Outbound)
      modifies this
      ensures sent == old(sent) + [m] && checks == old(checks)
    {
      sent := sent + [m];
    }

    /** `_send_mode_change` (websocket.py:266-275). */
    method SendModeChange(mode: string)
      modifies this
      ensures Delivered([ModeChange(mode)], old(sent), old(checks), sent, checks, live)
    {
      var up := IsConnected();
      if up {
        Send(ModeChange(mode));
      }
    }

    /** The error report of websocket.py:136-140 and 190-195: sent only when
        the socket is connected. */
    method SendError(message: string)
      modifies this
      ensures Delivered([ErrorMsg(message)], old(sent), old(checks), sent, checks, live)
    {
      var up := IsConnected();
      if up {
        Send(ErrorMsg(message));
      }
    }

    /** The loop of websocket.py:228-243: one connectivity check before each
        piece of a long base64 text. */
    method SendPieces(s: string, final: bool)
      modifies this
      ensures Delivered(PiecesFrom(s, final, 0), old(sent), old(checks), sent, checks, live)
    {
      ghost var sent0, c0 := sent, checks;
      var total := (|s| + CHUNK_SIZE - 1) / CHUNK_SIZE;
      ghost var done: seq<Outbound> := [];
      var i := 0;
      while i < |s|
        invariant PiecesFrom(s, final, 0) == done + PiecesFrom(s, final, i)
        invariant c0 <= checks && sent == sent0 + done
        invariant checks <= live || checks == c0
        invariant live <= c0 ==> i == 0 && done == [] && checks == c0
        decreases |s| - i
      {
        var up := IsConnected();
        if !up {
          return;
        }
        var j := if i + CHUNK_SIZE <= |s| then i + CHUNK_SIZE else |s|;
        var piece := AudioPiece(s[i..j], i + CHUNK_SIZE >= |s| && final, i / CHUNK_SIZE, total);
        Send(piece);
        AppendAssoc(done, [piece], PiecesFrom(s, final, i + CHUNK_SIZE));
        done := done + [piece];
        i := i + CHUNK_SIZE;
      }
      assert done + [] == done;
    }

    /** `_send_event` (websocket.py:197-264). */
    method SendEvent(e: VoiceEvent, encode: Bytes -> string)
      modifies this
      ensures Delivered(Frames(e, encode), old(sent), old(checks), sent, checks, live)
    {
      ghost var sent0, c0 := sent, checks;
      var up := IsConnected();
      if !up {
        return;
      }
      match e
      case TranscriptChunk(text, final) =>
        Send(TranscriptMsg(text, final));
      case AgentTextChunk(text, final) =>
        Send(AgentTextMsg(text, final));
      case AgentAudioChunk(audio, final) =>
        if audio != [] {
          var s := encode(audio);
          if |s| > MAX_BASE64_SIZE {
            SendPieces(s, final);
            DeliveredThen([], PiecesFrom(s, final, 0), sent0, c0, sent0, c0 + 1, sent, checks, live);
          } else {
            Send(AudioMsg(s, final));
          }
        } else if final {
          Send(AudioMsg([], true));
        }
      case ModeChangeEvent(mode) =>
        Send(ModeChange(mode));
    }

    /** One pass of the `async for event` loop of `_process_audio`
        (websocket.py:166-178): the connectivity check, the speaking cue before
        the first audio event, and the event. */
    method ForwardEvent(e: VoiceEvent, speaking: bool, encode: Bytes -> string) returns (stop: bool, spoke: bool)
      modifies this
      ensures spoke == (speaking || e.AgentAudioChunk?)
      ensures Delivered(Forwarded([e], speaking, encode), old(sent), old(checks), sent, checks, live)
      ensures stop ==> live < checks && sent == old(sent)
    {
      ghost var sent0, c0 := sent, checks;
      var cue := e.AgentAudioChunk? && !speaking;
      ghost var cueMsgs: seq<Outbound> := if cue then [ModeChange("speaking")] else [];
      assert Forwarded([e], speaking, encode) == cueMsgs + Frames(e, encode) + [];
      spoke := speaking || cue;
      stop := false;
      var up := IsConnected();
      if !up {
        return true, spoke;
      }
      ghost var sent1, c1 := sent, checks;
      if cue {
        SendModeChange("speaking");
      }
      DeliveredThen([], cueMsgs, sent0, c0, sent1, c1, sent, checks, live);
      ghost var sent2, c2 := sent, checks;
      SendEvent(e, encode);
      DeliveredThen(cueMsgs, Frames(e, encode), sent0, c0, sent2, c2, sent, checks, live);
    }

    /** How `_process_audio` ends (websocket.py:180-195): `listening` when
        the socket is connected, after the error message when the turn
        failed. */
    method Finish(ending: Ending)
      modifies this
      ensures Delivered(Closing(ending), old(sent), old(checks), sent, checks, live)
    {
      ghost var sent0, c0 := sent, checks;
      ghost var first: seq<Outbound> := if ending.Failed? then [ErrorMsg(ending.reason)] else [];
      var up := IsConnected();
      if !up {
        return;
      }
      if ending.Failed? {
        Send(ErrorMsg(ending.reason));
      }
      ghost var sent1, c1 := sent, checks;
      SendModeChange("listening");
      DeliveredThen(first, [ModeChange("listening")], sent0, c0, sent1, c1, sent, checks, live);
    }

    /** `_process_audio` (websocket.py:154-195) for a turn that yields
        `events` and then ends as `ending`: each event is forwarded after a
        connectivity check, with the speaking cue before the first audio;
        `listening` follows, after the error message when the turn failed. */
    method ProcessAudio(events: seq<VoiceEvent>, ending: Ending, encode: Bytes -> string)
      modifies this
      ensures Delivered(Processed(events, ending, encode), old(sent), old(checks), sent, checks, live)
    {
      ghost var sent0, c0 := sent, checks;
      ghost var done: seq<Outbound> := [];
      var speaking := false;
      var stop := false;
      var n := 0;
      assert events[0..] == events;
      while n < |events| && !stop
        invariant n <= |events|
        invariant Forwarded(events, false, encode) == done + Forwarded(events[n..], speaking, encode)
        invariant Delivered(done, sent0, c0, sent, checks, live)
        invariant stop ==> live < checks
        decreases |events| - n, !stop
      {
        ghost var sent1, c1 := sent, checks;
        var e := events[n];
        assert events[n..][0] == e && events[n..][1..] == events[n + 1..];
        ForwardedCons(events[n..], speaking, encode);
        ghost var step := Forwarded([e], speaking, encode);
        ghost var later := Forwarded(events[n + 1..], speaking || e.AgentAudioChunk?, encode);
        var spoke;
        stop, spoke := ForwardEvent(e, speaking, encode);
        if !stop {
          DeliveredThen(done, step, sent0, c0, sent1, c1, sent, checks, live);
          AppendAssoc(done, step, later);
          done := done + step;
          n := n + 1;
          speaking := spoke;
        }
      }
      ghost var rest := Forwarded(events[n..], speaking, encode);
      assert !stop ==> events[n..] == [];
      ghost var sent2, c2 := sent, checks;
      Finish(ending);
      DeliveredSkipping(done, rest, Closing(ending), sent0, c0, sent2, c2, sent, checks, live);
    }
  }

  // ---------------------------------------------------------------------
  // The message loop of `handle_session`
  // ---------------------------------------------------------------------

  /** The session's own `mode` variable. */
  datatype Mode = Idle | Listening | Speaking

  /** The text of a mode on the wire. */
  function Name(m: Mode): string
  {
    match m
    case Idle => "idle"
    case Listening => "listening"
    case Speaking => "speaking"
  }

  /** The client can tell the modes apart: different modes go out under
      different names. */
  lemma NameIdentifiesMode(a: Mode, b: Mode)
    ensures Name(a) == Name(b) <==> a == b
  {
    if a != b {
      assert Name(a)[0] != Name(b)[0];
    }
  }

  /** `processing_task` as the loop sees it: none yet, a task it has not
      seen finish (and whether it asked it to cancel), or one whose `done()`
      it has seen return true. */
  datatype TaskState = NoTask | Running(cancelRequested: bool) | Done

  /** The handle after a `done()` check at which the environment says
      whether a running task has finished. */
  function Settle(t: TaskState, finished: bool): (r: TaskState)
    ensures r.Running? <==> t.Running? && !finished
    ensures !t.Running? ==> r == t
  {
    if t.Running? && finished then Done else t
  }

  /** The outcome of `base64.b64decode` on the `audio` field. */
  datatype Decoded = Decoded(bytes: Bytes) | Undecodable(message: string)

  /** An incoming text frame after `json.loads` and `data.get`: not JSON at
      all, JSON that is not an object (so `data.get` raises), or an object
      with its `type` and `audio` fields (`""` when absent or falsy). */
  datatype Inbound =
    | InvalidJson
    | NotAnObject(error: string)
    | Message(kind: string, audio: string)

  const STREAM_START: string := "voice_audio_stream_start"
  const AUDIO_CHUNK: string := "voice_audio_chunk"
  const STREAM_END: string := "voice_audio_stream_end"
  const INTERRUPT: string := "interrupt"
  const DISCONNECT: string := "disconnect"

  predicate IsDisconnect(m: Inbound) {
    m.Message? && m.kind == DISCONNECT
  }

  /** How many messages the loop reads: up to and including the first
      `disconnect`, else all of them. */
  function Consumed(ms: seq<Inbound>): (n: nat)
    ensures n <= |ms|
    ensures forall i :: 0 <= i < n - 1 ==> !IsDisconnect(ms[i])
    ensures n < |ms| ==> 0 < n && IsDisconnect(ms[n - 1])
  {
    if ms == [] then 0
    else if IsDisconnect(ms[0]) then 1
    else 1 + Consumed(ms[1..])
  }

  /** What the message loop keeps between messages: its local variables and
      the pipeline's `interrupted` flag. */
  datatype SessionState = SessionState(mode: Mode, buffer: Bytes, recording: bool, task: TaskState,
                                       launched: seq<Bytes>, interrupted: bool)

  /** `voice_audio_stream_start`: a task is interrupted and cancelled only
      while speaking; the buffer is cleared and recording starts. */
  function Started(s: SessionState): SessionState {
    var cancel := s.mode == Speaking && !s.task.NoTask?;
    SessionState(Listening, [], true, if cancel && s.task.Running? then Running(true) else s.task,
                 s.launched, s.interrupted || cancel)
  }

  /** `voice_audio_chunk`: decoded audio is appended only while recording. */
  function Received(s: SessionState, audio: string, decode: string -> Decoded): SessionState {
    if s.recording && audio != [] && decode(audio).Decoded? then s.(buffer := s.buffer + decode(audio).bytes) else s
  }

  /** `voice_audio_stream_end`, with `doneBefore` and `doneAfter` the
      answers of the two `done()` checks. */
  function Ended(s: SessionState, doneBefore: bool, doneAfter: bool): SessionState {
    if s.buffer == [] then s.(mode := Idle, recording := false)
    else
      var first := Settle(s.task, doneBefore);
      var second := Settle(if first.Running? then Running(true) else first, doneAfter);
      SessionState(Idle, [], false, if second.Running? then second else Running(false),
                   if second.Running? then s.launched else s.launched + [s.buffer],
                   s.interrupted || first.Running?)
  }

  /** `interrupt`. */
  function Interrupted(s: SessionState, done: bool): SessionState {
    var t := Settle(s.task, done);
    s.(mode := Listening, task := if t.Running? then Running(true) else t, interrupted := true)
  }

  /** The state after one message. */
  function Next(s: SessionState, m: Inbound, decode: string -> Decoded, doneBefore: bool, doneAfter: bool): SessionState {
    match m
    case Message(kind, audio) =>
      if kind == STREAM_START then Started(s)
      else if kind == AUDIO_CHUNK then Received(s, audio, decode)
      else if kind == STREAM_END then Ended(s, doneBefore, doneAfter)
      else if kind == INTERRUPT then Interrupted(s, doneBefore)
      else s
    case _ => s
  }

  /** What the loop sends for one message in state `s`. */
  function Replies(s: SessionState, m: Inbound, decode: string -> Decoded): seq<Outbound> {
    match m
    case InvalidJson => []
    case NotAnObject(error) => [ErrorMsg(error)]
    case Message(kind, audio) =>
      if kind == STREAM_START || kind == INTERRUPT then [ModeChange(Name(Listening))]
      else if kind == STREAM_END then [ModeChange(Name(Idle))]
      else if kind == AUDIO_CHUNK && s.recording && audio != [] && decode(audio).Undecodable? then
        [ErrorMsg(decode(audio).message)]
      else []
  }

  /** The state after the first `k` messages. */
  function StateAfter(s0: SessionState, ms: seq<Inbound>, k: nat, decode: string -> Decoded,
                      doneBefore: nat -> bool, doneAfter: nat -> bool): SessionState
    requires k <= |ms|
  {
    if k == 0 then s0
    else Next(StateAfter(s0, ms, k - 1, decode, doneBefore, doneAfter), ms[k - 1], decode, doneBefore(k - 1), doneAfter(k - 1))
  }

  /** Everything sent for the first `k` messages. */
  function RepliesUpTo(s0: SessionState, ms: seq<Inbound>, k: nat, decode: string -> Decoded,
                       doneBefore: nat -> bool, doneAfter: nat -> bool): seq<Outbound>
    requires k <= |ms|
  {
    if k == 0 then []
    else RepliesUpTo(s0, ms, k - 1, decode, doneBefore, doneAfter)
         + Replies(StateAfter(s0, ms, k - 1, decode, doneBefore, doneAfter), ms[k - 1], decode)
  }

  /** What holds between messages: the mode is never `speaking`, audio is
      buffered only while recording, and every turn task got audio. */
  predicate Settled(s: SessionState) {
    && s.mode != Speaking
    && (!s.recording ==> s.buffer == [])
    && forall i :: 0 <= i < |s.launched| ==> s.launched[i] != []
  }

  /** One message keeps `Settled`. */
  lemma NextSettled(s: SessionState, m: Inbound, decode: string -> Decoded, doneBefore: bool, doneAfter: bool)
    requires Settled(s)
    ensures Settled(Next(s, m, decode, doneBefore, doneAfter))
  {
    var n := Next(s, m, decode, doneBefore, doneAfter);
    if m.Message? && m.kind == STREAM_END && s.buffer != [] {
      forall i | 0 <= i < |n.launched|
        ensures n.launched[i] != []
      {
        if i < |s.launched| {
          assert n.launched[i] == s.launched[i] || n.launched == s.launched + [s.buffer];
        }
      }
    }
  }

  /** Every message keeps `Settled`: only audio gathered between a
      `voice_audio_stream_start` and a `voice_audio_stream_end` is ever
      buffered, `stream_end` always empties the buffer, and no turn starts
      without audio. */
  lemma {:induction false} StateAfterSettled(s0: SessionState, ms: seq<Inbound>, k: nat, decode: string -> Decoded,
                                             doneBefore: nat -> bool, doneAfter: nat -> bool)
    requires k <= |ms| && Settled(s0)
    ensures Settled(StateAfter(s0, ms, k, decode, doneBefore, doneAfter))
  {
    if k > 0 {
      StateAfterSettled(s0, ms, k - 1, decode, doneBefore, doneAfter);
      NextSettled(StateAfter(s0, ms, k - 1, decode, doneBefore, doneAfter), ms[k - 1], decode, doneBefore(k - 1), doneAfter(k - 1));
    }
  }

  /** One connection's `handle_session` (websocket.py:33-140), with the
      socket and the pipeline it drives. `launched` is the audio handed to
      each turn task in creation order, and `finished` says which of those
      tasks the loop has seen finish. */
  class VoiceSession {
    var mode: Mode
    var buffer: Bytes
    var recording: bool
    var task: TaskState
    var launched: seq<Bytes>
    ghost var finished: seq<bool>
    const socket: Socket
    const pipeline: VoicePipeline

    /** The loop's invariant: `mode` is never `speaking`, and every turn
        task but the newest has been seen to finish, so at most one is
        running; the handle is that newest task. */
    ghost predicate Valid()
      reads this
    {
      && mode != Speaking
      && |finished| == |launched|
      && (task.NoTask? <==> launched == [])
      && (forall i :: 0 <= i < |finished| - 1 ==> finished[i])
      && (launched != [] ==> (task.Done? <==> finished[|finished| - 1]))
    }

    /** The loop's variables and the pipeline's flag, as a value. */
    ghost function State(): SessionState
      reads this, pipeline
    {
      SessionState(mode, buffer, recording, task, launched, pipeline.interrupted)
    }

    /** websocket.py:45-54: the initial state, announced as `idle`. */
    constructor(socket: Socket, pipeline: VoicePipeline)
      modifies socket
      ensures Valid()
      ensures mode == Idle && buffer == [] && !recording && task == NoTask && launched == []
      ensures this.socket == socket && this.pipeline == pipeline
      ensures Delivered([ModeChange(Name(mode))], old(socket.sent), old(socket.checks), socket.sent, socket.checks, socket.live)
    {
      mode, buffer, recording, task, launched, finished := Idle, [], false, NoTask, [], [];
      this.socket, this.pipeline := socket, pipeline;
      new;
      socket.SendModeChange(Name(mode));
    }

    /** `processing_task and not processing_task.done()`, where the task may
        have finished since it was last looked at. */
    method Poll(done: bool) returns (running: bool)
      requires Valid()
      modifies this
      ensures Valid()
      ensures task == Settle(old(task), done) && running == task.Running?
      ensures mode == old(mode) && buffer == old(buffer) && recording == old(recording)
      ensures launched == old(launched)
    {
      if task.Running? && done {
        task := Done;
        finished := finished[..|finished| - 1] + [true];
      }
      running := task.Running?;
    }

    /** `voice_audio_stream_start` (websocket.py:62-72). */
    method StreamStart()
      modifies this, pipeline, socket
      ensures buffer == [] && recording && mode == Listening
      ensures launched == old(launched) && finished == old(finished)
      ensures old(mode) != Speaking ==> task == old(task) && pipeline.interrupted == old(pipeline.interrupted)
      ensures Delivered([ModeChange(Name(mode))], old(socket.sent), old(socket.checks), socket.sent, socket.checks, socket.live)
    {
      if mode == Speaking && !task.NoTask? {
        pipeline.Interrupt();
        if task.Running? {
          task := Running(true);
        }
      }
      buffer, recording, mode := [], true, Listening;
      socket.SendModeChange(Name(mode));
    }

    /** `voice_audio_chunk` (websocket.py:74-80): while recording, a
        non-empty `audio` field is decoded and appended; a field that does
        not decode is reported as an error. */
    method Chunk(audio: string, decode: string -> Decoded)
      modifies this, socket
      ensures mode == old(mode) && recording == old(recording) && task == old(task)
      ensures launched == old(launched) && finished == old(finished)
      ensures buffer == (if old(recording) && audio != [] && decode(audio).Decoded?
                         then old(buffer) + decode(audio).bytes else old(buffer))
      ensures old(recording) && audio != [] && decode(audio).Undecodable? ==>
        Delivered([ErrorMsg(decode(audio).message)], old(socket.sent), old(socket.checks),
                  socket.sent, socket.checks, socket.live)
      ensures !(old(recording) && audio != [] && decode(audio).Undecodable?) ==>
        socket.sent == old(socket.sent) && socket.checks == old(socket.checks)
    {
      if recording && audio != [] {
        match decode(audio)
        case Decoded(bytes) =>
          buffer := buffer + bytes;
        case Undecodable(message) =>
          socket.SendError(message);
      }
    }

    /** `voice_audio_stream_end` (websocket.py:82-118). Recording stops and
        the session goes `idle`. With audio buffered, a task still running at
        the first check is interrupted and cancelled, the audio is taken out
        of the buffer, and a new turn task gets it only when no task is
        running at the second check; the environment says, through
        `doneBefore` and `doneAfter`, whether a running task has finished by
        each check. */
    method StreamEnd(doneBefore: bool, doneAfter: bool)
      requires Valid()
      modifies this, pipeline, socket
      ensures Valid()
      ensures !recording && mode == Idle && buffer == []
      ensures Delivered([ModeChange(Name(mode))], old(socket.sent), old(socket.checks), socket.sent, socket.checks, socket.live)
      ensures old(buffer) == [] ==>
        task == old(task) && launched == old(launched) && pipeline.interrupted == old(pipeline.interrupted)
      ensures old(buffer) != [] ==>
        pipeline.interrupted == (old(pipeline.interrupted) || (old(task).Running? && !doneBefore))
      ensures old(buffer) != [] ==>
        if !old(task).Running? || doneBefore || doneAfter
        then launched == old(launched) + [old(buffer)] && task == Running(false)
        else launched == old(launched) && task == Running(true)
    {
      recording := false;
      if buffer != [] {
        LaunchBuffered(doneBefore, doneAfter);
      } else {
        mode := Idle;
        socket.SendModeChange(Name(mode));
      }
    }

    /** The part of `stream_end` with audio buffered (websocket.py:107-118):
        a running turn is interrupted, the session goes idle, and a new turn
        is launched on the buffered audio unless a task is still running. */
    method LaunchBuffered(doneBefore: bool, doneAfter: bool)
      requires Valid() && buffer != [] && !recording
      modifies this, pipeline, socket
      ensures Valid()
      ensures !recording && mode == Idle && buffer == []
      ensures Delivered([ModeChange(Name(mode))], old(socket.sent), old(socket.checks), socket.sent, socket.checks, socket.live)
      ensures pipeline.interrupted == (old(pipeline.interrupted) || (old(task).Running? && !doneBefore))
      ensures if !old(task).Running? || doneBefore || doneAfter
        then launched == old(launched) + [old(buffer)] && task == Running(false)
        else launched == old(launched) && task == Running(true)
    {
      var running := Poll(doneBefore);
      if running {
        pipeline.Interrupt();
        task := Running(true);
      }
      mode := Idle;
      socket.SendModeChange(Name(mode));
      var audio := buffer;
      buffer := [];
      running := Poll(doneAfter);
      if !running {
        task := Running(false);
        launched := launched + [audio];
        finished := finished + [false];
      }
    }

    /** `interrupt` (websocket.py:120-127): the pipeline is interrupted, a
        task still running is cancelled, and the session goes `listening`;
        the buffer and the recording flag stay as they are. */
    method InterruptTurn(done: bool)
      requires Valid()
      modifies this, pipeline, socket
      ensures Valid()
      ensures pipeline.interrupted && mode == Listening
      ensures buffer == old(buffer) && recording == old(recording) && launched == old(launched)
      ensures task == (if old(task).Running? && !done then Running(true) else Settle(old(task), done))
      ensures Delivered([ModeChange(Name(mode))], old(socket.sent), old(socket.checks), socket.sent, socket.checks, socket.live)
    {
      pipeline.Interrupt();
      var running := Poll(done);
      if running {
        task := Running(true);
      }
      mode := Listening;
      socket.SendModeChange(Name(mode));
    }

    /** One pass of the message loop (websocket.py:57-140); `stop` is the
        `break` of `disconnect`. Invalid JSON is only logged, a message that
        is not an object is answered with an error, and an unknown type is
        ignored. */
    method Handle(m: Inbound, decode: string -> Decoded, doneBefore: bool, doneAfter: bool) returns (stop: bool)
      requires Valid()
      modifies this, pipeline, socket
      ensures Valid()
      ensures stop <==> IsDisconnect(m)
      ensures m.InvalidJson? || stop ==>
        unchanged(this) && socket.sent == old(socket.sent) && socket.checks == old(socket.checks)
      ensures m.NotAnObject? ==>
        unchanged(this) && Delivered([ErrorMsg(m.error)], old(socket.sent), old(socket.checks), socket.sent, socket.checks, socket.live)
      ensures m.Message? && m.kind !in {STREAM_START, AUDIO_CHUNK, STREAM_END, INTERRUPT, DISCONNECT} ==>
        unchanged(this) && socket.sent == old(socket.sent) && socket.checks == old(socket.checks)
      ensures State() == Next(old(State()), m, decode, doneBefore, doneAfter)
      ensures Delivered(Replies(old(State()), m, decode), old(socket.sent), old(socket.checks),
                        socket.sent, socket.checks, socket.live)
    {
      stop := false;
      match m
      case InvalidJson =>
      case NotAnObject(error) =>
        socket.SendError(error);
      case Message(kind, audio) =>
        if kind == STREAM_START {
          StreamStart();
        } else if kind == AUDIO_CHUNK {
          Chunk(audio, decode);
        } else if kind == STREAM_END {
          StreamEnd(doneBefore, doneAfter);
        } else if kind == INTERRUPT {
          InterruptTurn(doneBefore);
        } else if kind == DISCONNECT {
          stop := true;
        }
    }

    /** The `async for message` loop (websocket.py:57-130) over the frames
        the client sends; `doneBefore(i)` and `doneAfter(i)` say whether a
        running turn task has finished by the checks made for message `i`.
        The loop reads up to the first `disconnect`, and every handler keeps
        the session's invariant. */
    method Serve(messages: seq<Inbound>, decode: string -> Decoded,
                 doneBefore: nat -> bool, doneAfter: nat -> bool) returns (read: nat)
      requires Valid()
      modifies this, pipeline, socket
      ensures Valid()
      ensures read == Consumed(messages)
      ensures State() == StateAfter(old(State()), messages, read, decode, doneBefore, doneAfter)
      ensures Delivered(RepliesUpTo(old(State()), messages, read, decode, doneBefore, doneAfter),
                        old(socket.sent), old(socket.checks), socket.sent, socket.checks, socket.live)
    {
      ghost var s0, sent0, c0 := State(), socket.sent, socket.checks;
      read := 0;
      var stop := false;
      assert sent0 + [] == sent0;
      while read < |messages| && !stop
        invariant Valid()
        invariant read <= |messages|
        invariant State() == StateAfter(s0, messages, read, decode, doneBefore, doneAfter)
        invariant Delivered(RepliesUpTo(s0, messages, read, decode, doneBefore, doneAfter),
                            sent0, c0, socket.sent, socket.checks, socket.live)
        invariant stop ==> read == Consumed(messages)
        invariant !stop ==> Consumed(messages) == read + Consumed(messages[read..])
        decreases |messages| - read
      {
        assert messages[read..][1..] == messages[read + 1..];
        ghost var sent1, c1 := socket.sent, socket.checks;
        stop := Handle(messages[read], decode, doneBefore(read), doneAfter(read));
        DeliveredThen(RepliesUpTo(s0, messages, read, decode, doneBefore, doneAfter),
                      Replies(StateAfter(s0, messages, read, decode, doneBefore, doneAfter), messages[read], decode),
                      sent0, c0, sent1, c1, socket.sent, socket.checks, socket.live);
        read := read + 1;
      }
      if !stop {
        assert messages[read..] == [];
      }
    }
  }
}
