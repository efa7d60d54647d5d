/**
 How the event-watch relay (bdd/lib/hub-event-watch-relay.ts) cuts a selected response into lines
 and, by mode, forwards, drops or silences them.  Bytes arrive in chunks of any size; the results
 below say what the relay did in terms of the whole stream.
 */
module RelayFraming {
  import opened Common

  newtype Byte = b: int | 0 <= b < 256
  type Bytes = seq<Byte>

  const NEWLINE: Byte := 10
  const BUFFER_LIMIT: nat := 1024 * 1024
  const FRAME_LIMIT: nat := 64

  datatype Mode = Pass | SilenceAfterSnapshot | DropNextChange | ResetWatch | HoldResponseHeaders

  /** A parsed line with a string `type`; a change carries a cursor or not. */
  datatype Kind = Snapshot | Heartbeat | Change(cursor: Option<string>) | Other(kind: string)

  /** JSON.parse of a line without its newline, reduced to what the relay looks at. */
  type Parser = Bytes -> Option<Kind>

  datatype Frame = Frame(kind: Kind, mode: Mode)
  datatype Tally = Tally(snapshots: nat, heartbeats: nat, changes: nat)

  /** What the lines of a response change: counts, recorded frames, byte counts, downstream bytes. */
  datatype Flow = Flow(
    seen: Tally, forwarded: Tally, frames: seq<Frame>, droppedCursor: Option<string>,
    forwardedBytes: nat, droppedBytes: nat, written: Bytes)

  /** The evidence kept for one selected watch, with its line buffer. */
  datatype Watch = Watch(flow: Flow, buffer: Bytes, responseBytes: nat, reset: bool, closed: bool)

  const NOTHING := Tally(0, 0, 0)
  const FRESH_FLOW := Flow(NOTHING, NOTHING, [], None, 0, 0, [])
  const FRESH := Watch(FRESH_FLOW, [], 0, false, false)

  // ----- Lines of a byte stream --------------------------------------------------------------

  /** The complete lines of a stream, newlines included. */
  function Lines(bytes: Bytes): seq<Bytes> {
    if bytes == [] then []
    else
      var front, last := bytes[..|bytes| - 1], bytes[|bytes| - 1];
      if last == NEWLINE then Lines(front) + [Tail(front) + [NEWLINE]] else Lines(front)
  }

  /** What follows the last newline. */
  function Tail(bytes: Bytes): (rest: Bytes)
    ensures |rest| <= |bytes|
  {
    if bytes == [] then []
    else
      var front, last := bytes[..|bytes| - 1], bytes[|bytes| - 1];
      if last == NEWLINE then [] else Tail(front) + [last]
  }

  function Join(lines: seq<Bytes>): Bytes {
    if lines == [] then [] else Join(lines[..|lines| - 1]) + lines[|lines| - 1]
  }

  lemma {:induction false} JoinAppend(a: seq<Bytes>, b: seq<Bytes>)
    ensures Join(a + b) == Join(a) + Join(b)
  {
    if b == [] {
      assert a + b == a;
    } else {
      assert (a + b)[..|a + b| - 1] == a + b[..|b| - 1];
      JoinAppend(a, b[..|b| - 1]);
    }
  }

  /** Lines and tail are the stream cut up, nothing lost. */
  lemma {:induction false} LinesAndTail(bytes: Bytes)
    ensures Join(Lines(bytes)) + Tail(bytes) == bytes
  {
    if bytes != [] {
      var front, last := bytes[..|bytes| - 1], bytes[|bytes| - 1];
      LinesAndTail(front);
      Associate(Join(Lines(front)), Tail(front), [last]);
      assert bytes == front + [last];
      if last == NEWLINE {
        JoinOne(Lines(front), Tail(front) + [last]);
        assert Join(Lines(bytes)) + [] == Join(Lines(bytes));
      }
    }
  }

  lemma {:induction false} JoinOne(lines: seq<Bytes>, line: Bytes)
    ensures Join(lines + [line]) == Join(lines) + line
  {
    assert (lines + [line])[..|lines|] == lines;
  }

  lemma {:induction false} TailHasNoLines(bytes: Bytes)
    ensures Lines(Tail(bytes)) == [] && Tail(Tail(bytes)) == Tail(bytes)
  {
    if bytes != [] && bytes[|bytes| - 1] != NEWLINE {
      var front := bytes[..|bytes| - 1];
      TailHasNoLines(front);
      OneByte(Tail(front), bytes[|bytes| - 1]);
    }
  }

  lemma {:induction false} OneByte(bytes: Bytes, last: Byte)
    ensures Lines(bytes + [last]) == if last == NEWLINE then Lines(bytes) + [Tail(bytes) + [NEWLINE]] else Lines(bytes)
    ensures Tail(bytes + [last]) == if last == NEWLINE then [] else Tail(bytes) + [last]
  {
    assert (bytes + [last])[..|bytes|] == bytes;
  }

  /** Cutting at any point between two chunks changes nothing. */
  lemma {:induction false} LinesOfAppend(a: Bytes, b: Bytes)
    ensures Lines(a + b) == Lines(a) + Lines(Tail(a) + b)
    ensures Tail(a + b) == Tail(Tail(a) + b)
  {
    if b == [] {
      TailHasNoLines(a);
      AddNothing(a);
      AddNothing(Tail(a));
      AddNothing(Lines(a));
    } else {
      FrontAndLast(b);
      LinesOfAppend(a, b[..|b| - 1]);
      LinesOfAppendByte(a, b[..|b| - 1], b[|b| - 1]);
    }
  }

  lemma {:induction false} LinesOfAppendByte(a: Bytes, b: Bytes, last: Byte)
    requires Lines(a + b) == Lines(a) + Lines(Tail(a) + b) && Tail(a + b) == Tail(Tail(a) + b)
    ensures Lines(a + (b + [last])) == Lines(a) + Lines(Tail(a) + (b + [last]))
    ensures Tail(a + (b + [last])) == Tail(Tail(a) + (b + [last]))
  {
    Associate(a, b, [last]);
    Associate(Tail(a), b, [last]);
    OneByte(a + b, last);
    OneByte(Tail(a) + b, last);
    Associate(Lines(a), Lines(Tail(a) + b), [Tail(a + b) + [NEWLINE]]);
  }

  // ----- One line ----------------------------------------------------------------------------

  function KindOf(parse: Parser, line: Bytes): Option<Kind> {
    if line == [] then None else parse(line[..|line| - 1])
  }

  function Count(tally: Tally, kind: Option<Kind>): Tally {
    match kind
    case Some(Snapshot) => tally.(snapshots := tally.snapshots + 1)
    case Some(Heartbeat) => tally.(heartbeats := tally.heartbeats + 1)
    case Some(Change(_)) => tally.(changes := tally.changes + 1)
    case _ => tally
  }

  function Record(frames: seq<Frame>, kind: Option<Kind>, mode: Mode): seq<Frame> {
    if kind.Some? && |frames| < FRAME_LIMIT then frames + [Frame(kind.value, mode)] else frames
  }

  function Observe(flow: Flow, kind: Option<Kind>, mode: Mode): Flow {
    flow.(seen := Count(flow.seen, kind), frames := Record(flow.frames, kind, mode))
  }

  predicate IsChange(kind: Option<Kind>) {
    kind.Some? && kind.value.Change?
  }

  predicate HasCursor(kind: Option<Kind>) {
    IsChange(kind) && kind.value.cursor.Some?
  }

  function Send(flow: Flow, kind: Option<Kind>, line: Bytes): Flow {
    flow.(forwardedBytes := flow.forwardedBytes + |line|, forwarded := Count(flow.forwarded, kind),
      written := flow.written + line)
  }

  function Discard(flow: Flow, line: Bytes): Flow {
    flow.(droppedBytes := flow.droppedBytes + |line|)
  }

  /** A complete line: in pass mode its bytes went out with their chunk, otherwise they go out now or never. */
  function RelayLine(parse: Parser, mode: Mode, flow: Flow, line: Bytes): Flow {
    var kind := KindOf(parse, line);
    var seen := Observe(flow, kind, mode);
    if mode.Pass? then seen.(forwarded := Count(seen.forwarded, kind))
    else if mode.SilenceAfterSnapshot? && seen.seen.snapshots > 0 && kind != Some(Snapshot) then Discard(seen, line)
    else if mode.DropNextChange? && IsChange(kind) && seen.droppedCursor.None? then
      Discard(seen.(droppedCursor := kind.value.cursor), line)
    else Send(seen, kind, line)
  }

  function RelayLines(parse: Parser, mode: Mode, flow: Flow, lines: seq<Bytes>): Flow {
    if lines == [] then flow
    else RelayLine(parse, mode, RelayLines(parse, mode, flow, lines[..|lines| - 1]), lines[|lines| - 1])
  }

  lemma {:induction false} RelayLinesAppend(parse: Parser, mode: Mode, flow: Flow, a: seq<Bytes>, b: seq<Bytes>)
    ensures RelayLines(parse, mode, flow, a + b) == RelayLines(parse, mode, RelayLines(parse, mode, flow, a), b)
  {
    if b == [] {
      assert a + b == a;
    } else {
      assert (a + b)[..|a + b| - 1] == a + b[..|b| - 1];
      RelayLinesAppend(parse, mode, flow, a, b[..|b| - 1]);
    }
  }

  /** The first line after a snapshot that is not itself a snapshot silences the rest of the chunk. */
  predicate Silences(parse: Parser, before: Flow, line: Bytes) {
    var kind := KindOf(parse, line);
    Count(before.seen, kind).snapshots > 0 && kind != Some(Snapshot)
  }

  /** One line in silence mode; once silenced, the rest of the chunk is dropped unread. */
  function SilenceNext(parse: Parser, state: (Flow, bool), line: Bytes): (Flow, bool) {
    if state.1 then (Discard(state.0, line), true)
    else (RelayLine(parse, SilenceAfterSnapshot, state.0, line), Silences(parse, state.0, line))
  }

  /** The lines of one chunk in silence mode, and whether the rest of the chunk is silenced. */
  function SilenceLines(parse: Parser, state: (Flow, bool), lines: seq<Bytes>): (Flow, bool) {
    if lines == [] then state
    else SilenceNext(parse, SilenceLines(parse, state, lines[..|lines| - 1]), lines[|lines| - 1])
  }

  // ----- One chunk ---------------------------------------------------------------------------

  /** A chunk sent downstream as it came. */
  function SendChunk(flow: Flow, chunk: Bytes): Flow {
    flow.(forwardedBytes := flow.forwardedBytes + |chunk|, written := flow.written + chunk)
  }

  /** Silence at the end of a chunk: once a snapshot was seen, the rest is dropped. */
  function EndSilence(flow: Flow, rest: Bytes): (Flow, Bytes) {
    if flow.seen.snapshots > 0 then (Discard(flow, rest), []) else (flow, rest)
  }

  /** The flow and the line buffer once the pending bytes have been gone through outside pass mode. */
  function Relayed(parse: Parser, mode: Mode, flow: Flow, pending: Bytes): (Flow, Bytes) {
    if mode.SilenceAfterSnapshot?
    then EndSilence(SilenceLines(parse, (flow, false), Lines(pending)).0, Tail(pending))
    else (RelayLines(parse, mode, flow, Lines(pending)), Tail(pending))
  }

  function Deliver(parse: Parser, mode: Mode, w: Watch, chunk: Bytes): Watch {
    var pending, arrived := w.buffer + chunk, w.responseBytes + |chunk|;
    if |pending| > BUFFER_LIMIT then w.(responseBytes := arrived, closed := true)
    else
      match mode
      case Pass =>
        Watch(SendChunk(RelayLines(parse, Mode.Pass, w.flow, Lines(pending)), chunk), Tail(pending), arrived, w.reset,
          w.closed)
      case ResetWatch =>
        if Lines(pending) == [] then w.(buffer := pending, responseBytes := arrived)
        else Watch(Observe(w.flow, KindOf(parse, Lines(pending)[0]), mode), w.buffer, arrived, true, true)
      case _ =>
        if mode.SilenceAfterSnapshot? && w.flow.seen.snapshots > 0
        then Watch(Discard(w.flow, chunk), [], arrived, w.reset, w.closed)
        else
          var (flow, rest) := Relayed(parse, mode, w.flow, pending);
          Watch(flow, rest, arrived, w.reset, w.closed)
  }

  /** A response arriving chunk by chunk in one mode. */
  function Feed(parse: Parser, mode: Mode, w: Watch, chunks: seq<Bytes>): Watch {
    if chunks == [] then w
    else Deliver(parse, mode, Feed(parse, mode, w, chunks[..|chunks| - 1]), chunks[|chunks| - 1])
  }

  /** No chunk overflows the line buffer. */
  predicate Fits(parse: Parser, mode: Mode, w: Watch, chunks: seq<Bytes>) {
    chunks == [] ||
    (Fits(parse, mode, w, chunks[..|chunks| - 1])
     && |Feed(parse, mode, w, chunks[..|chunks| - 1]).buffer| + |chunks[|chunks| - 1]| <= BUFFER_LIMIT)
  }

  // ----- Pass mode: the whole stream, whatever the chunks --------------------------------------

  /** The counts of a list of lines. */
  function TallyOf(parse: Parser, from: Tally, lines: seq<Bytes>): Tally {
    if lines == [] then from else Count(TallyOf(parse, from, lines[..|lines| - 1]), KindOf(parse, lines[|lines| - 1]))
  }

  /** The recorded frames: the first 64 typed lines. */
  function FramesOf(parse: Parser, mode: Mode, from: seq<Frame>, lines: seq<Bytes>): seq<Frame> {
    if lines == [] then from
      else Record(FramesOf(parse, mode, from, lines[..|lines| - 1]), KindOf(parse, lines[|lines| - 1]), mode)
  }

  lemma {:induction false} PassLines(parse: Parser, flow: Flow, lines: seq<Bytes>)
    ensures RelayLines(parse, Mode.Pass, flow, lines)
      == flow.(seen := TallyOf(parse, flow.seen, lines), forwarded := TallyOf(parse, flow.forwarded, lines),
               frames := FramesOf(parse, Mode.Pass, flow.frames, lines))
  {
    if lines != [] {
      PassLines(parse, flow, lines[..|lines| - 1]);
    }
  }

  lemma {:induction false} TallyAppend(parse: Parser, from: Tally, a: seq<Bytes>, b: seq<Bytes>)
    ensures TallyOf(parse, from, a + b) == TallyOf(parse, TallyOf(parse, from, a), b)
  {
    if b == [] {
      assert a + b == a;
    } else {
      assert (a + b)[..|a + b| - 1] == a + b[..|b| - 1];
      TallyAppend(parse, from, a, b[..|b| - 1]);
    }
  }

  lemma {:induction false} FramesAppend(parse: Parser, mode: Mode, from: seq<Frame>, a: seq<Bytes>, b: seq<Bytes>)
    ensures FramesOf(parse, mode, from, a + b) == FramesOf(parse, mode, FramesOf(parse, mode, from, a), b)
  {
    if b == [] {
      assert a + b == a;
    } else {
      assert (a + b)[..|a + b| - 1] == a + b[..|b| - 1];
      FramesAppend(parse, mode, from, a, b[..|b| - 1]);
    }
  }

  /** The evidence of a stream passed through whole. */
  function Passed(parse: Parser, stream: Bytes): Watch {
    var lines := Lines(stream);
    var tally := TallyOf(parse, NOTHING, lines);
    Watch(Flow(tally, tally, FramesOf(parse, Mode.Pass, [], lines), None, |stream|, 0, stream), Tail(stream), |stream|,
      false, false)
  }

  /** Pass mode forwards exactly the received bytes and counts the frames of the whole stream. */
  lemma {:induction false} PassForwardsEverything(parse: Parser, chunks: seq<Bytes>)
    requires Fits(parse, Mode.Pass, FRESH, chunks)
    ensures Feed(parse, Mode.Pass, FRESH, chunks) == Passed(parse, Join(chunks))
  {
    if chunks != [] {
      var front, chunk := chunks[..|chunks| - 1], chunks[|chunks| - 1];
      PassForwardsEverything(parse, front);
      PassStep(parse, Join(front), chunk);
    }
  }

  lemma {:induction false} PassedFlow(parse: Parser, stream: Bytes, chunk: Bytes)
    ensures var flow := Passed(parse, stream).flow;
      SendChunk(RelayLines(parse, Mode.Pass, flow, Lines(Tail(stream) + chunk)), chunk)
        == Passed(parse, stream + chunk).flow
  {
    var flow, more := Passed(parse, stream).flow, Lines(Tail(stream) + chunk);
    LinesOfAppend(stream, chunk);
    PassLines(parse, flow, more);
    TallyAppend(parse, NOTHING, Lines(stream), more);
    FramesAppend(parse, Mode.Pass, [], Lines(stream), more);
  }

  lemma {:induction false} PassStep(parse: Parser, stream: Bytes, chunk: Bytes)
    requires |Tail(stream)| + |chunk| <= BUFFER_LIMIT
    ensures Deliver(parse, Mode.Pass, Passed(parse, stream), chunk) == Passed(parse, stream + chunk)
  {
    PassedFlow(parse, stream, chunk);
    LinesOfAppend(stream, chunk);
  }

  // ----- Line modes: what is written does not depend on the chunks ------------------------------

  /** The evidence of a stream relayed by complete lines. */
  function Lined(parse: Parser, mode: Mode, stream: Bytes): Watch {
    Watch(RelayLines(parse, mode, FRESH_FLOW, Lines(stream)), Tail(stream), |stream|, false, false)
  }

  lemma {:induction false} LinedStep(parse: Parser, mode: Mode, stream: Bytes, chunk: Bytes)
    requires (mode.DropNextChange? || mode.HoldResponseHeaders?) && |Tail(stream)| + |chunk| <= BUFFER_LIMIT
    ensures Deliver(parse, mode, Lined(parse, mode, stream), chunk) == Lined(parse, mode, stream + chunk)
  {
    LinesOfAppend(stream, chunk);
    RelayLinesAppend(parse, mode, FRESH_FLOW, Lines(stream), Lines(Tail(stream) + chunk));
  }

  /** dropNextChange and holdResponseHeaders relay complete lines and nothing else. */
  lemma {:induction false} LineModesIgnoreChunks(parse: Parser, mode: Mode, chunks: seq<Bytes>)
    requires mode.DropNextChange? || mode.HoldResponseHeaders?
    requires Fits(parse, mode, FRESH, chunks)
    ensures Feed(parse, mode, FRESH, chunks) == Lined(parse, mode, Join(chunks))
  {
    if chunks != [] {
      LineModesIgnoreChunks(parse, mode, chunks[..|chunks| - 1]);
      LinedStep(parse, mode, Join(chunks[..|chunks| - 1]), chunks[|chunks| - 1]);
    }
  }

  function Kinds(parse: Parser, lines: seq<Bytes>): seq<Option<Kind>> {
    if lines == [] then [] else Kinds(parse, lines[..|lines| - 1]) + [KindOf(parse, lines[|lines| - 1])]
  }

  lemma {:induction false} KindsAt(parse: Parser, lines: seq<Bytes>, i: nat)
    requires i < |lines|
    ensures |Kinds(parse, lines)| == |lines| && Kinds(parse, lines)[i] == KindOf(parse, lines[i])
  {
    if i < |lines| - 1 {
      KindsAt(parse, lines[..|lines| - 1], i);
    } else if |lines| > 1 {
      KindsAt(parse, lines[..|lines| - 1], 0);
    }
  }

  predicate NoCursorYet(kinds: seq<Option<Kind>>) {
    forall i :: 0 <= i < |kinds| ==> !HasCursor(kinds[i])
  }

  /** The lines dropNextChange lets through: all but the changes up to the first one with a cursor. */
  function Kept(parse: Parser, lines: seq<Bytes>): seq<Bytes> {
    if lines == [] then []
    else
      var front, last := lines[..|lines| - 1], lines[|lines| - 1];
      Kept(parse, front) + if IsChange(KindOf(parse, last)) && NoCursorYet(Kinds(parse, front)) then [] else [last]
  }

  ghost predicate DropAccount(parse: Parser, flow: Flow, kept: seq<Bytes>, lines: seq<Bytes>) {
    && flow.written == Join(kept)
    && flow.forwardedBytes == |flow.written|
    && flow.forwardedBytes + flow.droppedBytes == |Join(lines)|
    && (flow.droppedCursor.None? <==> NoCursorYet(Kinds(parse, lines)))
    && flow.seen == TallyOf(parse, NOTHING, lines)
    && flow.forwarded == TallyOf(parse, NOTHING, kept)
  }

  /** What dropNextChange writes, drops and counts, line by line of the whole stream. */
  lemma {:induction false} DropForwardsKept(parse: Parser, lines: seq<Bytes>)
    ensures DropAccount(parse, RelayLines(parse, DropNextChange, FRESH_FLOW, lines), Kept(parse, lines), lines)
  {
    if lines != [] {
      var front := lines[..|lines| - 1];
      DropForwardsKept(parse, front);
      DropLine(parse, RelayLines(parse, DropNextChange, FRESH_FLOW, front), Kept(parse, front), lines);
    }
  }

  lemma {:induction false} DropLine(parse: Parser, flow: Flow, kept: seq<Bytes>, lines: seq<Bytes>)
    requires lines != [] && DropAccount(parse, flow, kept, lines[..|lines| - 1])
    ensures var front, last := lines[..|lines| - 1], lines[|lines| - 1];
      DropAccount(parse, RelayLine(parse, DropNextChange, flow, last),
        kept + if IsChange(KindOf(parse, last)) && NoCursorYet(Kinds(parse, front)) then [] else [last], lines)
  {
    var front, last := lines[..|lines| - 1], lines[|lines| - 1];
    NoCursorExtends(Kinds(parse, front), KindOf(parse, last));
    assert kept + [] == kept;
    assert (kept + [last])[..|kept|] == kept;
  }

  lemma {:induction false} NoCursorExtends(kinds: seq<Option<Kind>>, kind: Option<Kind>)
    ensures NoCursorYet(kinds + [kind]) <==> NoCursorYet(kinds) && !HasCursor(kind)
  {
    if NoCursorYet(kinds + [kind]) {
      assert (kinds + [kind])[|kinds|] == kind;
      forall i | 0 <= i < |kinds| ensures !HasCursor(kinds[i]) {
        assert (kinds + [kind])[i] == kinds[i];
      }
    }
  }

  predicate FirstChangeAt(parse: Parser, lines: seq<Bytes>, f: nat) {
    && f < |lines|
    && IsChange(KindOf(parse, lines[f]))
    && forall i :: 0 <= i < f ==> !IsChange(KindOf(parse, lines[i]))
  }

  lemma {:induction false} KeptBeforeChanges(parse: Parser, lines: seq<Bytes>)
    requires forall i :: 0 <= i < |lines| ==> !IsChange(KindOf(parse, lines[i]))
    ensures Kept(parse, lines) == lines && NoCursorYet(Kinds(parse, lines))
  {
    if lines != [] {
      KeptBeforeChanges(parse, lines[..|lines| - 1]);
      NoCursorExtends(Kinds(parse, lines[..|lines| - 1]), KindOf(parse, lines[|lines| - 1]));
      assert lines == lines[..|lines| - 1] + [lines[|lines| - 1]];
    }
  }

  /** No further change is dropped: the first one carried a cursor, or there is no other. */
  predicate OnlyFirstDropped(parse: Parser, lines: seq<Bytes>, f: nat)
    requires f < |lines|
  {
    HasCursor(KindOf(parse, lines[f])) || forall i :: f < i < |lines| ==> !IsChange(KindOf(parse, lines[i]))
  }

  /**
   dropNextChange removes exactly the first change line if and only if that line carries a cursor
   or no other change follows: a change without a cursor does not disarm the fault.
   */
  lemma {:induction false} DropRemovesFirstChange(parse: Parser, lines: seq<Bytes>, f: nat)
    requires FirstChangeAt(parse, lines, f)
    ensures |Kept(parse, lines)| < |lines|
    ensures OnlyFirstDropped(parse, lines, f) <==> |Kept(parse, lines)| == |lines| - 1
    ensures OnlyFirstDropped(parse, lines, f) ==> Kept(parse, lines) == lines[..f] + lines[f + 1..]
  {
    if f == |lines| - 1 {
      DropsLast(parse, lines);
    } else {
      DropRemovesFirstChange(parse, lines[..|lines| - 1], f);
      CursorAfterFirst(parse, lines[..|lines| - 1], f);
      DropsOneMore(parse, lines, f);
    }
  }

  lemma {:induction false} DropsLast(parse: Parser, lines: seq<Bytes>)
    requires lines != [] && FirstChangeAt(parse, lines, |lines| - 1)
    ensures Kept(parse, lines) == lines[..|lines| - 1] == lines[..|lines| - 1] + lines[|lines|..]
  {
    KeptBeforeChanges(parse, lines[..|lines| - 1]);
  }

  /** Past the first change, no cursor was seen exactly when it carried none and no later change carried one. */
  lemma {:induction false} CursorAfterFirst(parse: Parser, lines: seq<Bytes>, f: nat)
    requires FirstChangeAt(parse, lines, f)
    ensures NoCursorYet(Kinds(parse, lines)) ==> !HasCursor(KindOf(parse, lines[f]))
    ensures OnlyFirstDropped(parse, lines, f) && !HasCursor(KindOf(parse, lines[f])) ==>
      NoCursorYet(Kinds(parse, lines))
  {
    var front := lines[..|lines| - 1];
    NoCursorExtends(Kinds(parse, front), KindOf(parse, lines[|lines| - 1]));
    if f == |lines| - 1 {
      KeptBeforeChanges(parse, front);
    } else {
      CursorAfterFirst(parse, front, f);
      OnlyFirstExtends(parse, lines, f);
    }
  }

  lemma {:induction false} OnlyFirstExtends(parse: Parser, lines: seq<Bytes>, f: nat)
    requires f < |lines| - 1
    ensures var front, last := lines[..|lines| - 1], lines[|lines| - 1];
      OnlyFirstDropped(parse, lines, f)
      <==> OnlyFirstDropped(parse, front, f) && (HasCursor(KindOf(parse, lines[f])) || !IsChange(KindOf(parse, last)))
  {
  }

  lemma {:induction false} DropsOneMore(parse: Parser, lines: seq<Bytes>, f: nat)
    requires f < |lines| - 1
    requires var front := lines[..|lines| - 1];
      && |Kept(parse, front)| < |front|
      && (OnlyFirstDropped(parse, front, f) <==> |Kept(parse, front)| == |front| - 1)
      && (OnlyFirstDropped(parse, front, f) ==> Kept(parse, front) == front[..f] + front[f + 1..])
      && (NoCursorYet(Kinds(parse, front)) ==> !HasCursor(KindOf(parse, front[f])))
      && (OnlyFirstDropped(parse, front, f) && !HasCursor(KindOf(parse, front[f])) ==> NoCursorYet(Kinds(parse, front)))
    ensures |Kept(parse, lines)| < |lines|
    ensures OnlyFirstDropped(parse, lines, f) <==> |Kept(parse, lines)| == |lines| - 1
    ensures OnlyFirstDropped(parse, lines, f) ==> Kept(parse, lines) == lines[..f] + lines[f + 1..]
  {
    var front, last := lines[..|lines| - 1], lines[|lines| - 1];
    OnlyFirstExtends(parse, lines, f);
    WithoutOne(lines, f);
  }

  lemma {:induction false} WithoutOne(lines: seq<Bytes>, f: nat)
    requires f < |lines| - 1
    ensures var front, last := lines[..|lines| - 1], lines[|lines| - 1];
      lines[..f] + lines[f + 1..] == (front[..f] + front[f + 1..]) + [last]
  {
  }

  /** A run that drops two: the first change has no cursor, so the fault stays armed for the second. */
  lemma {:induction false} TwoChangesDropped(parse: Parser, first: Bytes, second: Bytes)
    requires IsChange(KindOf(parse, first)) && !HasCursor(KindOf(parse, first)) && IsChange(KindOf(parse, second))
    ensures Kept(parse, [first, second]) == []
  {
    var lines := [first, second];
    assert lines[..1] == [first] && [first][..0] == [];
    assert FirstChangeAt(parse, lines, 0) && FirstChangeAt(parse, [first], 0);
    DropsLast(parse, [first]);
    CursorAfterFirst(parse, [first], 0);
  }

  // ----- The bytes dropNextChange writes ------------------------------------------------------------

  /** A single line with its newline. */
  predicate Complete(line: Bytes) {
    Lines(line) == [line] && Tail(line) == []
  }

  predicate AllComplete(lines: seq<Bytes>) {
    lines == [] || (AllComplete(lines[..|lines| - 1]) && Complete(lines[|lines| - 1]))
  }

  lemma {:induction false} CompleteSnoc(lines: seq<Bytes>, line: Bytes)
    requires AllComplete(lines) && Complete(line)
    ensures AllComplete(lines + [line])
  {
    SnocFront(lines, line);
  }

  lemma {:induction false} LinesAreComplete(bytes: Bytes)
    ensures AllComplete(Lines(bytes))
  {
    if bytes != [] {
      var front := bytes[..|bytes| - 1];
      LinesAreComplete(front);
      if bytes[|bytes| - 1] == NEWLINE {
        TailHasNoLines(front);
        OneByte(Tail(front), NEWLINE);
        AddNothing([Tail(front) + [NEWLINE]]);
        CompleteSnoc(Lines(front), Tail(front) + [NEWLINE]);
      }
    }
  }

  lemma {:induction false} KeptAreComplete(parse: Parser, lines: seq<Bytes>)
    requires AllComplete(lines)
    ensures AllComplete(Kept(parse, lines))
  {
    if lines != [] {
      var front, last := lines[..|lines| - 1], lines[|lines| - 1];
      KeptAreComplete(parse, front);
      CompleteSnoc(Kept(parse, front), last);
      AddNothing(Kept(parse, front));
    }
  }

  lemma {:induction false} OneMoreLine(bytes: Bytes, line: Bytes)
    requires Tail(bytes) == [] && Complete(line)
    ensures Lines(bytes + line) == Lines(bytes) + [line] && Tail(bytes + line) == []
  {
    LinesOfAppend(bytes, line);
    AddNothing(line);
  }

  /** Complete lines written one after another are read as the same lines. */
  lemma {:induction false} LinesOfJoin(lines: seq<Bytes>)
    requires AllComplete(lines)
    ensures Lines(Join(lines)) == lines && Tail(Join(lines)) == []
  {
    if lines != [] {
      var front, last := lines[..|lines| - 1], lines[|lines| - 1];
      LinesOfJoin(front);
      OneMoreLine(Join(front), last);
      FrontAndLast(lines);
    }
  }

  /** For any chunks, the lines of what dropNextChange writes are the kept lines of the stream. */
  lemma {:induction false} DropWritesKeptLines(parse: Parser, chunks: seq<Bytes>)
    requires Fits(parse, DropNextChange, FRESH, chunks)
    ensures Lines(Feed(parse, DropNextChange, FRESH, chunks).flow.written) == Kept(parse, Lines(Join(chunks)))
  {
    var lines := Lines(Join(chunks));
    LineModesIgnoreChunks(parse, DropNextChange, chunks);
    DropForwardsKept(parse, lines);
    LinesAreComplete(Join(chunks));
    KeptAreComplete(parse, lines);
    LinesOfJoin(Kept(parse, lines));
  }

  // ----- Silence ---------------------------------------------------------------------------------

  predicate IsSnapshot(parse: Parser, line: Bytes) {
    KindOf(parse, line) == Some(Snapshot)
  }

  predicate HasSnapshot(parse: Parser, lines: seq<Bytes>) {
    lines != [] && (HasSnapshot(parse, lines[..|lines| - 1]) || IsSnapshot(parse, lines[|lines| - 1]))
  }

  /** The lines up to and including the first snapshot. */
  function Through(parse: Parser, lines: seq<Bytes>): (through: seq<Bytes>)
    ensures through <= lines
  {
    if lines == [] then []
    else if HasSnapshot(parse, lines[..|lines| - 1]) then Through(parse, lines[..|lines| - 1])
    else lines
  }

  /** The lines up to and including the first run of consecutive snapshots. */
  function ThroughRun(parse: Parser, lines: seq<Bytes>): (through: seq<Bytes>)
    ensures through <= lines
  {
    if lines == [] then []
    else
      var front, last := lines[..|lines| - 1], lines[|lines| - 1];
      if |ThroughRun(parse, front)| < |front| || (HasSnapshot(parse, front) && !IsSnapshot(parse, last))
      then ThroughRun(parse, front)
      else lines
  }

  /** No snapshot line directly follows the first one. */
  predicate SnapshotAlone(parse: Parser, lines: seq<Bytes>) {
    lines == [] ||
    (var front, last := lines[..|lines| - 1], lines[|lines| - 1];
     && SnapshotAlone(parse, front)
     && !(IsSnapshot(parse, last) && HasSnapshot(parse, front) && Through(parse, front) == front))
  }

  lemma {:induction false} AloneMeansOneSnapshotSent(parse: Parser, lines: seq<Bytes>)
    ensures Through(parse, lines) <= ThroughRun(parse, lines)
    ensures SnapshotAlone(parse, lines) <==> ThroughRun(parse, lines) == Through(parse, lines)
    ensures !HasSnapshot(parse, lines) ==> ThroughRun(parse, lines) == lines
  {
    if lines != [] {
      AloneMeansOneSnapshotSent(parse, lines[..|lines| - 1]);
    }
  }

  /** What has become of the lines met so far, the last of them in the current chunk. */
  ghost predicate Quieted(parse: Parser, state: (Flow, bool), lines: seq<Bytes>) {
    var (flow, silenced) := state;
    && (flow.seen.snapshots > 0 <==> HasSnapshot(parse, lines))
    && (silenced <==> |ThroughRun(parse, lines)| < |lines|)
    && flow.written == Join(ThroughRun(parse, lines))
    && flow.forwardedBytes == |flow.written|
    && flow.forwardedBytes + flow.droppedBytes == |Join(lines)|
  }

  lemma {:induction false} SilenceLine(parse: Parser, state: (Flow, bool), lines: seq<Bytes>)
    requires lines != [] && Quieted(parse, state, lines[..|lines| - 1])
    ensures Quieted(parse, SilenceNext(parse, state, lines[|lines| - 1]), lines)
  {
    AloneMeansOneSnapshotSent(parse, lines[..|lines| - 1]);
  }

  /** A chunk met before any snapshot: everything through its first run of snapshots is written. */
  lemma {:induction false} SilenceWithinChunk(parse: Parser, flow: Flow, lines: seq<Bytes>, more: seq<Bytes>)
    requires Quieted(parse, (flow, false), lines)
    ensures Quieted(parse, SilenceLines(parse, (flow, false), more), lines + more)
  {
    if more == [] {
      assert lines + more == lines;
    } else {
      var front := more[..|more| - 1];
      SilenceWithinChunk(parse, flow, lines, front);
      assert (lines + more)[..|lines + more| - 1] == lines + front;
      SilenceLine(parse, SilenceLines(parse, (flow, false), front), lines + more);
    }
  }

  /** What silence mode has done with the stream so far. */
  ghost predicate SilencedAs(parse: Parser, w: Watch, stream: Bytes, sent: seq<Bytes>) {
    var loud := HasSnapshot(parse, Lines(stream));
    && (w.flow.seen.snapshots > 0 <==> loud)
    && w.buffer == (if loud then [] else Tail(stream))
    && w.flow.written == Join(sent)
    && w.responseBytes == |stream|
    && Accounted(w)
  }

  /** Before any snapshot, what silence mode has done is what it does line by line. */
  lemma {:induction false} SilencedIsQuiet(parse: Parser, w: Watch, stream: Bytes)
    requires w.flow.seen.snapshots == 0 && SilencedAs(parse, w, stream, Lines(stream))
    ensures w.buffer == Tail(stream) && Quieted(parse, (w.flow, false), Lines(stream))
  {
    LinesAndTail(stream);
    AloneMeansOneSnapshotSent(parse, Lines(stream));
  }

  lemma {:induction false} QuietChunk(parse: Parser, flow: Flow, stream: Bytes, chunk: Bytes)
    requires Quieted(parse, (flow, false), Lines(stream))
    ensures Quieted(parse, SilenceLines(parse, (flow, false), Lines(Tail(stream) + chunk)), Lines(stream + chunk))
    ensures Tail(stream + chunk) == Tail(Tail(stream) + chunk)
  {
    LinesOfAppend(stream, chunk);
    SilenceWithinChunk(parse, flow, Lines(stream), Lines(Tail(stream) + chunk));
  }

  /** At the end of the chunk the bytes after the last newline are kept, or dropped once a snapshot was seen. */
  lemma {:induction false} QuietIsSilenced(parse: Parser, state: (Flow, bool), stream: Bytes, reset: bool, closed: bool)
    requires Quieted(parse, state, Lines(stream))
    ensures var (flow, rest) := EndSilence(state.0, Tail(stream));
      SilencedAs(parse, Watch(flow, rest, |stream|, reset, closed), stream, ThroughRun(parse, Lines(stream)))
  {
    LinesAndTail(stream);
  }

  /** A chunk in silence mode before any snapshot. */
  lemma {:induction false} DeliveredInSilence(parse: Parser, w: Watch, chunk: Bytes)
    requires w.flow.seen.snapshots == 0 && |w.buffer + chunk| <= BUFFER_LIMIT
    ensures Deliver(parse, SilenceAfterSnapshot, w, chunk)
      == var (flow, rest) :=
           EndSilence(SilenceLines(parse, (w.flow, false), Lines(w.buffer + chunk)).0, Tail(w.buffer + chunk));
         Watch(flow, rest, w.responseBytes + |chunk|, w.reset, w.closed)
  {
  }

  /** The chunk that brings the first snapshot, or none. */
  lemma {:induction false} SilenceFirstChunk(parse: Parser, w: Watch, stream: Bytes, chunk: Bytes)
    requires w.flow.seen.snapshots == 0 && SilencedAs(parse, w, stream, Lines(stream))
      && |w.buffer + chunk| <= BUFFER_LIMIT
    ensures SilencedAs(parse, Deliver(parse, SilenceAfterSnapshot, w, chunk), stream + chunk,
                       ThroughRun(parse, Lines(stream + chunk)))
  {
    SilencedIsQuiet(parse, w, stream);
    DeliveredInSilence(parse, w, chunk);
    QuietChunk(parse, w.flow, stream, chunk);
    var state := SilenceLines(parse, (w.flow, false), Lines(w.buffer + chunk));
    QuietIsSilenced(parse, state, stream + chunk, w.reset, w.closed);
  }

  lemma {:induction false} SnapshotStays(parse: Parser, a: seq<Bytes>, b: seq<Bytes>)
    ensures HasSnapshot(parse, a) ==> HasSnapshot(parse, a + b) && Through(parse, a + b) == Through(parse, a)
    ensures SnapshotAlone(parse, a + b) ==> SnapshotAlone(parse, a)
  {
    if b == [] {
      assert a + b == a;
    } else {
      assert (a + b)[..|a + b| - 1] == a + b[..|b| - 1];
      SnapshotStays(parse, a, b[..|b| - 1]);
    }
  }

  /** A chunk after the first snapshot is dropped whole. */
  lemma {:induction false} SilenceLaterChunk(parse: Parser, w: Watch, stream: Bytes, sent: seq<Bytes>, chunk: Bytes)
    requires SilencedAs(parse, w, stream, sent) && |w.buffer + chunk| <= BUFFER_LIMIT
    requires w.flow.seen.snapshots > 0
    ensures SilencedAs(parse, Deliver(parse, SilenceAfterSnapshot, w, chunk), stream + chunk, sent)
  {
    LinesOfAppend(stream, chunk);
    SnapshotStays(parse, Lines(stream), Lines(Tail(stream) + chunk));
  }

  /** The lines silence has written: all, or through the run of snapshots that the first one's chunk brings. */
  function Sent(parse: Parser, chunks: seq<Bytes>): seq<Bytes> {
    if chunks == [] then []
    else
      var front := chunks[..|chunks| - 1];
      if HasSnapshot(parse, Lines(Join(front))) then Sent(parse, front)
      else ThroughRun(parse, Lines(Join(chunks)))
  }

  lemma {:induction false} AllSentBefore(parse: Parser, chunks: seq<Bytes>)
    requires !HasSnapshot(parse, Lines(Join(chunks)))
    ensures Sent(parse, chunks) == Lines(Join(chunks))
  {
    if chunks != [] {
      var front, chunk := chunks[..|chunks| - 1], chunks[|chunks| - 1];
      LinesOfAppend(Join(front), chunk);
      SnapshotStays(parse, Lines(Join(front)), Lines(Tail(Join(front)) + chunk));
      AloneMeansOneSnapshotSent(parse, Lines(Join(chunks)));
    }
  }

  /** What silence mode has done after any chunks. */
  lemma {:induction false} SilenceSends(parse: Parser, chunks: seq<Bytes>)
    requires Fits(parse, SilenceAfterSnapshot, FRESH, chunks)
    ensures SilencedAs(parse, Feed(parse, SilenceAfterSnapshot, FRESH, chunks), Join(chunks), Sent(parse, chunks))
  {
    if chunks != [] {
      var front, chunk := chunks[..|chunks| - 1], chunks[|chunks| - 1];
      var w := Feed(parse, SilenceAfterSnapshot, FRESH, front);
      SilenceSends(parse, front);
      if HasSnapshot(parse, Lines(Join(front))) {
        SilenceLaterChunk(parse, w, Join(front), Sent(parse, front), chunk);
      } else {
        AllSentBefore(parse, front);
        SilenceFirstChunk(parse, w, Join(front), chunk);
      }
    }
  }

  /** The chunk that brings the first snapshot line brings no further one directly after it. */
  predicate ComesAlone(parse: Parser, chunks: seq<Bytes>) {
    chunks == [] ||
    (var front := chunks[..|chunks| - 1];
     if HasSnapshot(parse, Lines(Join(front))) then ComesAlone(parse, front)
     else SnapshotAlone(parse, Lines(Join(chunks))))
  }

  lemma {:induction false} SentWhenAlone(parse: Parser, chunks: seq<Bytes>)
    ensures Join(Sent(parse, chunks)) == Join(Through(parse, Lines(Join(chunks)))) <==> ComesAlone(parse, chunks)
  {
    if chunks != [] {
      var front, chunk := chunks[..|chunks| - 1], chunks[|chunks| - 1];
      if HasSnapshot(parse, Lines(Join(front))) {
        SentWhenAlone(parse, front);
        LinesOfAppend(Join(front), chunk);
        SnapshotStays(parse, Lines(Join(front)), Lines(Tail(Join(front)) + chunk));
      } else {
        RunIsMore(parse, Join(chunks));
      }
    }
  }

  /** The run of snapshots is longer than its first one exactly when another directly follows. */
  lemma {:induction false} RunIsMore(parse: Parser, stream: Bytes)
    ensures var lines := Lines(stream);
      Join(ThroughRun(parse, lines)) == Join(Through(parse, lines)) <==> SnapshotAlone(parse, lines)
  {
    var lines := Lines(stream);
    AloneMeansOneSnapshotSent(parse, lines);
    if Through(parse, lines) != ThroughRun(parse, lines) {
      MoreSent(stream, ThroughRun(parse, lines), Through(parse, lines));
    }
  }

  /**
   For any chunks, silence forwards exactly the stream through the first snapshot line if and only if the chunk
   that brings this line brings no snapshot directly after it.
   */
  lemma {:induction false} SilenceForwardsThroughSnapshot(parse: Parser, chunks: seq<Bytes>)
    requires Fits(parse, SilenceAfterSnapshot, FRESH, chunks)
    ensures var written := Feed(parse, SilenceAfterSnapshot, FRESH, chunks).flow.written;
      written == Join(Through(parse, Lines(Join(chunks)))) <==> ComesAlone(parse, chunks)
  {
    SilenceSends(parse, chunks);
    SentWhenAlone(parse, chunks);
  }

  /** With no snapshot directly after the first, the chunks do not matter. */
  lemma {:induction false} AloneComesAlone(parse: Parser, chunks: seq<Bytes>)
    requires SnapshotAlone(parse, Lines(Join(chunks)))
    ensures ComesAlone(parse, chunks)
  {
    if chunks != [] {
      var front, chunk := chunks[..|chunks| - 1], chunks[|chunks| - 1];
      LinesOfAppend(Join(front), chunk);
      SnapshotStays(parse, Lines(Join(front)), Lines(Tail(Join(front)) + chunk));
      AloneComesAlone(parse, front);
    }
  }

  lemma {:induction false} LinesAreNotEmpty(bytes: Bytes, i: nat)
    requires i < |Lines(bytes)|
    ensures Lines(bytes)[i] != []
  {
    if i < |Lines(bytes[..|bytes| - 1])| {
      LinesAreNotEmpty(bytes[..|bytes| - 1], i);
    }
  }

  lemma {:induction false} LongerJoin(lines: seq<Bytes>, fewer: seq<Bytes>)
    requires fewer < lines && forall i :: 0 <= i < |lines| ==> lines[i] != []
    ensures |Join(fewer)| < |Join(lines)|
  {
    var front := lines[..|lines| - 1];
    if fewer == front {
    } else {
      LongerJoin(front, fewer);
    }
  }

  lemma {:induction false} SentInOneChunk(parse: Parser, stream: Bytes)
    requires |stream| <= BUFFER_LIMIT
    ensures Deliver(parse, SilenceAfterSnapshot, FRESH, stream).flow.written == Join(ThroughRun(parse, Lines(stream)))
  {
    assert Lines([]) == [] && [] + stream == stream;
    SilenceFirstChunk(parse, FRESH, [], stream);
  }

  lemma {:induction false} MoreSent(stream: Bytes, more: seq<Bytes>, fewer: seq<Bytes>)
    requires fewer < more <= Lines(stream)
    ensures Join(fewer) != Join(more)
  {
    forall i | 0 <= i < |more| ensures more[i] != [] {
      LinesAreNotEmpty(stream, i);
    }
    LongerJoin(more, fewer);
  }

  lemma {:induction false} TwoSnapshotLines(parse: Parser, line: Bytes)
    requires Lines(line) == [line] && Tail(line) == [] && IsSnapshot(parse, line)
    ensures Lines(line + line) == [line, line] && Join([line]) == line && Join([line, line]) == line + line
    ensures HasSnapshot(parse, [line]) && ThroughRun(parse, [line]) == [line]
    ensures ThroughRun(parse, [line, line]) == [line, line]
  {
    AddNothing(line);
    LinesOfAppend(line, line);
    assert [line][..0] == [] && [line, line][..1] == [line];
  }

  lemma {:induction false} FirstSnapshotSilences(parse: Parser, stream: Bytes)
    requires |stream| <= BUFFER_LIMIT && HasSnapshot(parse, Lines(stream))
    ensures var w := Deliver(parse, SilenceAfterSnapshot, FRESH, stream); w.flow.seen.snapshots > 0 && w.buffer == []
  {
    assert Lines([]) == [] && [] + stream == stream;
    SilenceFirstChunk(parse, FRESH, [], stream);
  }

  lemma {:induction false} SilentStaysSilent(parse: Parser, w: Watch, chunk: Bytes)
    requires w.flow.seen.snapshots > 0
    ensures Deliver(parse, SilenceAfterSnapshot, w, chunk).flow.written == w.flow.written
  {
  }

  lemma {:induction false} FeedTwo(parse: Parser, mode: Mode, a: Bytes, b: Bytes)
    ensures Feed(parse, mode, FRESH, [a]) == Deliver(parse, mode, FRESH, a)
    ensures Feed(parse, mode, FRESH, [a, b]) == Deliver(parse, mode, Deliver(parse, mode, FRESH, a), b)
  {
    assert [a][..0] == [] && [a, b][..1] == [a];
  }

  /** Two snapshot lines are both forwarded when they come in one chunk, and only the first from two chunks. */
  lemma {:induction false} ChunksDecideRepeatedSnapshots(parse: Parser, line: Bytes)
    requires Lines(line) == [line] && Tail(line) == [] && IsSnapshot(parse, line) && 2 * |line| <= BUFFER_LIMIT
    ensures Feed(parse, SilenceAfterSnapshot, FRESH, [line, line]).flow.written == line
    ensures Feed(parse, SilenceAfterSnapshot, FRESH, [line + line]).flow.written == line + line
  {
    TwoSnapshotLines(parse, line);
    SentInOneChunk(parse, line);
    SentInOneChunk(parse, line + line);
    FirstSnapshotSilences(parse, line);
    SilentStaysSilent(parse, Deliver(parse, SilenceAfterSnapshot, FRESH, line), line);
    FeedTwo(parse, SilenceAfterSnapshot, line, line);
    FeedTwo(parse, SilenceAfterSnapshot, line + line, line);
  }

  // ----- Byte accounting across modes -----------------------------------------------------------

  /** In the line modes every received byte is forwarded, dropped or still buffered. */
  predicate Accounted(w: Watch) {
    w.flow.forwardedBytes == |w.flow.written|
      && w.flow.forwardedBytes + w.flow.droppedBytes + |w.buffer| == w.responseBytes
  }

  /** In pass mode the buffered bytes have already been forwarded. */
  predicate PassAccounted(w: Watch) {
    w.flow.forwardedBytes == |w.flow.written| && w.flow.forwardedBytes + w.flow.droppedBytes == w.responseBytes
  }

  lemma {:induction false} LinesAreAccounted(parse: Parser, mode: Mode, flow: Flow, lines: seq<Bytes>)
    requires !mode.Pass? && flow.forwardedBytes == |flow.written|
    ensures var after := RelayLines(parse, mode, flow, lines);
      && after.forwardedBytes == |after.written|
      && after.forwardedBytes + after.droppedBytes == flow.forwardedBytes + flow.droppedBytes + |Join(lines)|
  {
    if lines != [] {
      LinesAreAccounted(parse, mode, flow, lines[..|lines| - 1]);
    }
  }

  lemma {:induction false} SilenceIsAccounted(parse: Parser, flow: Flow, lines: seq<Bytes>)
    requires flow.forwardedBytes == |flow.written|
    ensures var after := SilenceLines(parse, (flow, false), lines).0;
      && after.forwardedBytes == |after.written|
      && after.forwardedBytes + after.droppedBytes == flow.forwardedBytes + flow.droppedBytes + |Join(lines)|
  {
    if lines != [] {
      SilenceIsAccounted(parse, flow, lines[..|lines| - 1]);
    }
  }

  predicate LineMode(mode: Mode) {
    mode.SilenceAfterSnapshot? || mode.DropNextChange? || mode.HoldResponseHeaders?
  }

  /** Silence that has begun: from here on every chunk is dropped and nothing is kept. */
  predicate Silent(mode: Mode, w: Watch) {
    mode.SilenceAfterSnapshot? && w.flow.seen.snapshots > 0
  }

  /** What the accounts say after a chunk in the given mode. */
  predicate Books(mode: Mode, w: Watch) {
    if mode.Pass? then PassAccounted(w) else Accounted(w) && (Silent(mode, w) ==> w.buffer == [])
  }

  /**
   A chunk in mode `next` after one in mode `mode` loses no byte and counts none twice: nothing is
   buffered, or the buffer is read again the way it was filled, or it was sent already and is thrown away.
   */
  predicate Harmless(mode: Mode, next: Mode, w: Watch) {
    w.buffer == [] || (if mode.Pass? then next.Pass? || Silent(next, w) else !next.Pass? && !Silent(next, w))
  }

  lemma {:induction false} SilentChunk(parse: Parser, w: Watch, chunk: Bytes)
    requires Silent(SilenceAfterSnapshot, w) && |w.buffer + chunk| <= BUFFER_LIMIT
    ensures Deliver(parse, SilenceAfterSnapshot, w, chunk)
      == Watch(Discard(w.flow, chunk), [], w.responseBytes + |chunk|, w.reset, w.closed)
  {
  }

  /** A chunk read line by line adds its pending bytes, buffer included, to the bytes accounted for. */
  lemma {:induction false} LineChunkCounts(parse: Parser, mode: Mode, w: Watch, chunk: Bytes)
    requires LineMode(mode) && !Silent(mode, w) && |w.buffer + chunk| <= BUFFER_LIMIT
    requires w.flow.forwardedBytes == |w.flow.written|
    ensures var after := Deliver(parse, mode, w, chunk);
      && after.flow.forwardedBytes == |after.flow.written| && after.responseBytes == w.responseBytes + |chunk|
      && after.flow.forwardedBytes + after.flow.droppedBytes + |after.buffer|
         == w.flow.forwardedBytes + w.flow.droppedBytes + |w.buffer| + |chunk|
      && (Silent(mode, after) ==> after.buffer == [])
  {
    LinesAndTail(w.buffer + chunk);
    if mode.SilenceAfterSnapshot? {
      SilenceIsAccounted(parse, w.flow, Lines(w.buffer + chunk));
    } else {
      LinesAreAccounted(parse, mode, w.flow, Lines(w.buffer + chunk));
    }
  }

  /** A chunk in pass mode sends itself and none of the bytes buffered before it. */
  lemma {:induction false} PassChunkCounts(parse: Parser, w: Watch, chunk: Bytes)
    requires |w.buffer + chunk| <= BUFFER_LIMIT
    ensures var after := Deliver(parse, Mode.Pass, w, chunk);
      && after.flow.written == w.flow.written + chunk && after.responseBytes == w.responseBytes + |chunk|
      && after.flow.forwardedBytes == w.flow.forwardedBytes + |chunk|
      && after.flow.droppedBytes == w.flow.droppedBytes
  {
    PassLines(parse, w.flow, Lines(w.buffer + chunk));
  }

  /**
   Leaving pass mode counts the buffered bytes a second time: the accounts hold exactly when there are
   none, or when silence has begun, which throws them away uncounted.
   */
  lemma {:induction false} LeavingPassDoubleCounts(parse: Parser, mode: Mode, w: Watch, chunk: Bytes)
    requires PassAccounted(w) && LineMode(mode) && |w.buffer + chunk| <= BUFFER_LIMIT
    ensures Books(mode, Deliver(parse, mode, w, chunk)) <==> w.buffer == [] || Silent(mode, w)
  {
    if Silent(mode, w) {
      SilentChunk(parse, w, chunk);
    } else {
      LineChunkCounts(parse, mode, w, chunk);
    }
  }

  /** Entering pass mode never sends the buffered bytes: the accounts hold exactly when there are none. */
  lemma {:induction false} EnteringPassLosesBuffer(parse: Parser, w: Watch, chunk: Bytes)
    requires Accounted(w) && |w.buffer + chunk| <= BUFFER_LIMIT
    ensures Books(Mode.Pass, Deliver(parse, Mode.Pass, w, chunk)) <==> w.buffer == []
  {
    PassChunkCounts(parse, w, chunk);
  }

  /** Between line modes the buffer is read again, unless silence has begun, which throws it away uncounted. */
  lemma {:induction false} LineModesShareBuffer(parse: Parser, mode: Mode, w: Watch, chunk: Bytes)
    requires Accounted(w) && LineMode(mode) && |w.buffer + chunk| <= BUFFER_LIMIT
    ensures Books(mode, Deliver(parse, mode, w, chunk)) <==> w.buffer == [] || !Silent(mode, w)
  {
    if Silent(mode, w) {
      SilentChunk(parse, w, chunk);
    } else {
      LineChunkCounts(parse, mode, w, chunk);
    }
  }

  predicate Relays(mode: Mode) {
    mode.Pass? || LineMode(mode)
  }

  /** Whatever the two modes, the accounts outlive a switch exactly when it is harmless. */
  lemma {:induction false} SwitchKeepsBooks(parse: Parser, mode: Mode, next: Mode, w: Watch, chunk: Bytes)
    requires Relays(mode) && Relays(next) && Books(mode, w) && |w.buffer + chunk| <= BUFFER_LIMIT
    ensures Books(next, Deliver(parse, next, w, chunk)) <==> Harmless(mode, next, w)
  {
    if next.Pass? {
      PassChunkCounts(parse, w, chunk);
      if !mode.Pass? {
        EnteringPassLosesBuffer(parse, w, chunk);
      }
    } else if mode.Pass? {
      LeavingPassDoubleCounts(parse, next, w, chunk);
    } else {
      LineModesShareBuffer(parse, next, w, chunk);
    }
  }

  /** A response arriving while the mode is changed between chunks. */
  function FeedModes(parse: Parser, w: Watch, steps: seq<(Mode, Bytes)>): Watch {
    if steps == [] then w
    else Deliver(parse, steps[|steps| - 1].0, FeedModes(parse, w, steps[..|steps| - 1]), steps[|steps| - 1].1)
  }

  /** Pass and line modes only, and no chunk overflows the line buffer. */
  predicate FitsModes(parse: Parser, w: Watch, steps: seq<(Mode, Bytes)>) {
    steps == [] ||
    (var front, last := steps[..|steps| - 1], steps[|steps| - 1];
     FitsModes(parse, w, front) && Relays(last.0) && |FeedModes(parse, w, front).buffer + last.1| <= BUFFER_LIMIT)
  }

  /** Every switch of the run is harmless; the first chunk finds nothing buffered. */
  predicate Switchable(parse: Parser, w: Watch, steps: seq<(Mode, Bytes)>) {
    |steps| <= 1 ||
    (var front, last := steps[..|steps| - 1], steps[|steps| - 1];
     Switchable(parse, w, front) && Harmless(front[|front| - 1].0, last.0, FeedModes(parse, w, front)))
  }

  /** The accounts hold after every chunk of the run. */
  predicate AlwaysAccounted(parse: Parser, w: Watch, steps: seq<(Mode, Bytes)>) {
    steps == [] ||
    (AlwaysAccounted(parse, w, steps[..|steps| - 1]) && Books(steps[|steps| - 1].0, FeedModes(parse, w, steps)))
  }

  /** Over any run through the modes, the accounts hold after every chunk exactly when every switch is harmless. */
  lemma {:induction false} EveryByteIsAccounted(parse: Parser, steps: seq<(Mode, Bytes)>)
    requires FitsModes(parse, FRESH, steps)
    ensures AlwaysAccounted(parse, FRESH, steps) <==> Switchable(parse, FRESH, steps)
  {
    if steps != [] {
      var front, last := steps[..|steps| - 1], steps[|steps| - 1];
      EveryByteIsAccounted(parse, front);
      if front == [] {
        SwitchKeepsBooks(parse, last.0, last.0, FRESH, last.1);
      } else if AlwaysAccounted(parse, FRESH, front) {
        SwitchKeepsBooks(parse, front[|front| - 1].0, last.0, FeedModes(parse, FRESH, front), last.1);
      }
    }
  }

  lemma {:induction false} TwoSteps(parse: Parser, first: (Mode, Bytes), second: (Mode, Bytes))
    ensures var w := Deliver(parse, first.0, FRESH, first.1);
      && FeedModes(parse, FRESH, [first, second]) == Deliver(parse, second.0, w, second.1)
      && (Switchable(parse, FRESH, [first, second]) <==> Harmless(first.0, second.0, w))
  {
    var steps := [first, second];
    assert steps[..1] == [first] && [first][..0] == [];
    assert FeedModes(parse, FRESH, [first]) == Deliver(parse, first.0, FRESH, first.1);
  }

  lemma {:induction false} HeldByte(parse: Parser, byte: Byte)
    requires byte != NEWLINE
    ensures Deliver(parse, HoldResponseHeaders, FRESH, [byte]) == FRESH.(buffer := [byte], responseBytes := 1)
  {
    assert Lined(parse, HoldResponseHeaders, []) == FRESH;
    LinedStep(parse, HoldResponseHeaders, [], [byte]);
    OneByte([], byte);
    AddNothing([byte]);
  }

  /** A run that loses a byte on entering pass mode: the first one is never sent, and is not counted as dropped. */
  lemma {:induction false} EnteringPassLosesByte(parse: Parser, first: Byte, second: Byte)
    requires first != NEWLINE
    ensures var steps := [(HoldResponseHeaders, [first]), (Mode.Pass, [second])];
      var w := FeedModes(parse, FRESH, steps);
      && !Switchable(parse, FRESH, steps)
      && w.flow.written == [second] && w.responseBytes == 2
      && w.flow.forwardedBytes == 1 && w.flow.droppedBytes == 0
  {
    var held := FRESH.(buffer := [first], responseBytes := 1);
    TwoSteps(parse, (HoldResponseHeaders, [first]), (Mode.Pass, [second]));
    HeldByte(parse, first);
    PassChunkCounts(parse, held, [second]);
    AddNothing([second]);
  }

  // ----- Bounds ---------------------------------------------------------------------------------

  predicate Bounded(w: Watch) {
    && |w.flow.frames| <= FRAME_LIMIT
    && |w.buffer| <= BUFFER_LIMIT
  }

  lemma {:induction false} LinesKeepBounds(parse: Parser, mode: Mode, flow: Flow, lines: seq<Bytes>)
    requires |flow.frames| <= FRAME_LIMIT
    ensures |RelayLines(parse, mode, flow, lines).frames| <= FRAME_LIMIT
  {
    if lines != [] {
      LinesKeepBounds(parse, mode, flow, lines[..|lines| - 1]);
    }
  }

  lemma {:induction false} SilenceKeepsBounds(parse: Parser, flow: Flow, lines: seq<Bytes>)
    requires |flow.frames| <= FRAME_LIMIT
    ensures |SilenceLines(parse, (flow, false), lines).0.frames| <= FRAME_LIMIT
  {
    if lines != [] {
      SilenceKeepsBounds(parse, flow, lines[..|lines| - 1]);
    }
  }

  /** Whatever the mode and the chunk, at most 64 frames and 1 MiB are retained. */
  lemma {:induction false} DeliverKeepsBounds(parse: Parser, mode: Mode, w: Watch, chunk: Bytes)
    requires Bounded(w)
    ensures Bounded(Deliver(parse, mode, w, chunk))
  {
    LinesKeepBounds(parse, mode, w.flow, Lines(w.buffer + chunk));
    SilenceKeepsBounds(parse, w.flow, Lines(w.buffer + chunk));
  }

  // ----- The relay's data handler ----------------------------------------------------------------

  /** `indexOf(0x0a, from)`, or the length when there is none. */
  function NewlineFrom(bytes: Bytes, from: nat): (n: nat)
    requires from <= |bytes|
    ensures from <= n <= |bytes|
    decreases |bytes| - from
  {
    if from == |bytes| || bytes[from] == NEWLINE then from else NewlineFrom(bytes, from + 1)
  }

  lemma {:induction false} BeforeNewline(bytes: Bytes, from: nat)
    requires from <= |bytes|
    ensures var n := NewlineFrom(bytes, from);
      && Lines(bytes[from..n]) == [] && Tail(bytes[from..n]) == bytes[from..n]
      && (n < |bytes| ==> bytes[n] == NEWLINE)
    decreases |bytes| - from
  {
    var n := NewlineFrom(bytes, from);
    if n > from {
      BeforeNewline(bytes, from + 1);
      SliceCons(bytes, from, n);
      NoNewlineFirst(bytes[from], bytes[from + 1..n]);
    }
  }

  lemma {:induction false} NoNewlineFirst(first: Byte, rest: Bytes)
    requires first != NEWLINE && Lines(rest) == [] && Tail(rest) == rest
    ensures Lines([first] + rest) == [] && Tail([first] + rest) == [first] + rest
    decreases |rest|, 1
  {
    OneByte([], first);
    AddNothing([first]);
    LinesOfAppend([first], rest);
    if rest != [] {
      NoNewlineLater(first, rest);
    }
  }

  lemma {:induction false} NoNewlineLater(first: Byte, rest: Bytes)
    requires rest != [] && first != NEWLINE && Lines(rest) == [] && Tail(rest) == rest
    ensures Lines([first] + rest) == [] && Tail([first] + rest) == [first] + rest
    decreases |rest|, 0
  {
    var front, last := rest[..|rest| - 1], rest[|rest| - 1];
    FrontAndLast(rest);
    OneByte(front, last);
    SnocFront(front, last);
    SnocFront(Tail(front), last);
    NoNewlineFirst(first, front);
    OneByte([first] + front, last);
    Associate([first], front, [last]);
  }

  lemma {:induction false} NewlineAhead(pending: Bytes, consumed: nat)
    requires consumed <= |pending|
    ensures var n := NewlineFrom(pending, consumed);
      if n < |pending|
      then Lines(pending[consumed..]) == [pending[consumed..n + 1]] + Lines(pending[n + 1..])
           && Tail(pending[consumed..]) == Tail(pending[n + 1..])
      else Lines(pending[consumed..]) == [] && Tail(pending[consumed..]) == pending[consumed..]
  {
    BeforeNewline(pending, consumed);
    var n := NewlineFrom(pending, consumed);
    if n < |pending| {
      SliceSnoc(pending, consumed, n);
      SplitAt(pending, consumed, n + 1);
      LineAndRest(pending[consumed..n], pending[n + 1..]);
    } else {
      assert pending[consumed..n] == pending[consumed..];
    }
  }

  lemma {:induction false} LineAndRest(text: Bytes, rest: Bytes)
    requires Lines(text) == [] && Tail(text) == text
    ensures var line := text + [NEWLINE];
      Lines(line + rest) == [line] + Lines(rest) && Tail(line + rest) == Tail(rest)
  {
    OneByte(text, NEWLINE);
    AddNothing([text + [NEWLINE]]);
    LinesOfAppend(text + [NEWLINE], rest);
    AddNothing(rest);
  }

  /** The evidence of one selected watch together with its line buffer and downstream stream. */
  class Evidence {
    var seen: Tally
    var forwarded: Tally
    var frames: seq<Frame>
    var droppedCursor: Option<string>
    var reset: bool
    var closed: bool
    var responseBytes: nat
    var forwardedBytes: nat
    var droppedBytes: nat
    var lineBuffer: Bytes
    var written: Bytes

    constructor ()
      ensures Watched() == FRESH
    {
      seen, forwarded, frames, droppedCursor := NOTHING, NOTHING, [], None;
      reset, closed, responseBytes, forwardedBytes, droppedBytes := false, false, 0, 0, 0;
      lineBuffer, written := [], [];
    }

    function Current(): Flow reads this {
      Flow(seen, forwarded, frames, droppedCursor, forwardedBytes, droppedBytes, written)
    }

    function Watched(): Watch reads this {
      Watch(Current(), lineBuffer, responseBytes, reset, closed)
    }

    method ObserveFrame(kind: Option<Kind>, mode: Mode)
      modifies this`seen, this`frames
      ensures Current() == Observe(old(Current()), kind, mode)
    {
      if kind.None? {
        return;
      }
      match kind.value {
        case Snapshot => seen := seen.(snapshots := seen.snapshots + 1);
        case Heartbeat => seen := seen.(heartbeats := seen.heartbeats + 1);
        case Change(_) => seen := seen.(changes := seen.changes + 1);
        case Other(_) =>
      }
      if |frames| < FRAME_LIMIT {
        frames := frames + [Frame(kind.value, mode)];
      }
    }

    /** The next complete line in pass mode is counted as seen and as forwarded. */
    method PassNext(parse: Parser, pending: Bytes, consumed: nat, newline: nat, ghost goal: Flow)
      requires consumed <= |pending| && newline == NewlineFrom(pending, consumed) < |pending|
      requires goal == RelayLines(parse, Mode.Pass, Current(), Lines(pending[consumed..]))
      modifies this`seen, this`forwarded, this`frames
      ensures goal == RelayLines(parse, Mode.Pass, Current(), Lines(pending[newline + 1..]))
      ensures Tail(pending[consumed..]) == Tail(pending[newline + 1..])
    {
      NextPassed(parse, Current(), pending, consumed);
      var kind := parse(pending[consumed..newline]);
      ObserveFrame(kind, Mode.Pass);
      forwarded := Count(forwarded, kind);
    }

    /** The first loop: count frames, then send the chunk as it came. */
    method PassChunk(parse: Parser, pending: Bytes, chunk: Bytes)
      modifies this`seen, this`forwarded, this`frames, this`lineBuffer, this`forwardedBytes, this`written
      ensures Current() == SendChunk(RelayLines(parse, Mode.Pass, old(Current()), Lines(pending)), chunk)
      ensures lineBuffer == Tail(pending)
    {
      var consumed := 0;
      assert pending[0..] == pending;
      ghost var goal := RelayLines(parse, Mode.Pass, Current(), Lines(pending));
      while true
        invariant consumed <= |pending|
        invariant goal == RelayLines(parse, Mode.Pass, Current(), Lines(pending[consumed..]))
        invariant Tail(pending) == Tail(pending[consumed..])
        decreases |pending| - consumed
      {
        var newline := NewlineFrom(pending, consumed);
        if newline == |pending| {
          PassEnds(parse, Current(), pending, consumed);
          break;
        }
        PassNext(parse, pending, consumed, newline, goal);
        consumed := newline + 1;
      }
      lineBuffer := pending[consumed..];
      forwardedBytes := forwardedBytes + |chunk|;
      written := written + chunk;
    }

    /** One complete line outside pass mode: forward it or drop it. */
    method RelayOne(kind: Option<Kind>, mode: Mode, line: Bytes, ghost parse: Parser)
      requires kind == KindOf(parse, line) && LineMode(mode)
      modifies this`seen, this`forwarded, this`frames, this`droppedCursor, this`forwardedBytes, this`droppedBytes,
        this`written
      ensures Current() == RelayLine(parse, mode, old(Current()), line)
    {
      ObserveFrame(kind, mode);
      var drop := mode.SilenceAfterSnapshot? && seen.snapshots > 0 && kind != Some(Snapshot);
      if mode.DropNextChange? && IsChange(kind) && droppedCursor.None? {
        droppedCursor := kind.value.cursor;
        drop := true;
      }
      if !drop {
        forwardedBytes := forwardedBytes + |line|;
        forwarded := Count(forwarded, kind);
        written := written + line;
      } else {
        droppedBytes := droppedBytes + |line|;
      }
    }

    /** The next complete line of the pending bytes; false when nothing after it is looked at. */
    method RelayNext(parse: Parser, mode: Mode, pending: Bytes, consumed: nat, newline: nat, ghost goal: (Flow, Bytes))
      returns (goOn: bool)
      requires LineMode(mode) && consumed <= |pending| && newline == NewlineFrom(pending, consumed) < |pending|
      requires goal == Relayed(parse, mode, Current(), pending[consumed..])
      modifies this`seen, this`forwarded, this`frames, this`droppedCursor, this`forwardedBytes, this`droppedBytes,
        this`written
      ensures goOn ==> goal == Relayed(parse, mode, Current(), pending[newline + 1..])
      ensures !goOn ==> goal == (Discard(Current(), pending[newline + 1..]), [])
    {
      NextPending(parse, mode, Current(), pending, consumed);
      var kind, line := parse(pending[consumed..newline]), pending[consumed..newline + 1];
      RelayOne(kind, mode, line, parse);
      goOn := !(mode.SilenceAfterSnapshot? && seen.snapshots > 0 && kind != Some(Snapshot));
    }

    /** The second loop, for the modes that forward or drop line by line. */
    method RelayChunk(parse: Parser, mode: Mode, pending: Bytes)
      requires LineMode(mode)
      modifies this`seen, this`forwarded, this`frames, this`droppedCursor, this`forwardedBytes, this`droppedBytes,
               this`written, this`lineBuffer
      ensures (Current(), lineBuffer) == Relayed(parse, mode, old(Current()), pending)
    {
      var consumed, newline := 0, NewlineFrom(pending, 0);
      assert pending[0..] == pending;
      ghost var goal := Relayed(parse, mode, Current(), pending);
      while newline < |pending|
        invariant consumed <= |pending| && newline == NewlineFrom(pending, consumed)
        invariant goal == Relayed(parse, mode, Current(), pending[consumed..])
        decreases |pending| - consumed
      {
        var goOn := RelayNext(parse, mode, pending, consumed, newline, goal);
        consumed := newline + 1;
        if !goOn {
          DropRest(pending[consumed..]);
          return;
        }
        newline := NewlineFrom(pending, consumed);
      }
      EndChunk(parse, mode, pending, consumed);
    }

    /** No complete line is left: what remains is kept, or dropped in silence. */
    method EndChunk(parse: Parser, mode: Mode, pending: Bytes, consumed: nat)
      requires LineMode(mode) && consumed <= |pending| && NewlineFrom(pending, consumed) == |pending|
      modifies this`droppedBytes, this`lineBuffer
      ensures (Current(), lineBuffer) == Relayed(parse, mode, old(Current()), pending[consumed..])
    {
      NothingPending(parse, mode, Current(), pending, consumed);
      KeepRest(mode, pending[consumed..]);
    }

    /** Bytes no longer looked at are dropped at once. */
    method DropRest(rest: Bytes)
      modifies this`droppedBytes, this`lineBuffer
      ensures Current() == Discard(old(Current()), rest) && lineBuffer == []
    {
      droppedBytes := droppedBytes + |rest|;
      lineBuffer := [];
    }

    /** The bytes after the last newline. */
    method KeepRest(mode: Mode, rest: Bytes)
      modifies this`droppedBytes, this`lineBuffer
      ensures (Current(), lineBuffer) == if mode.SilenceAfterSnapshot? then EndSilence(old(Current()), rest)
        else (old(Current()), rest)
    {
      if mode.SilenceAfterSnapshot? && seen.snapshots > 0 {
        DropRest(rest);
      } else {
        lineBuffer := rest;
      }
    }

    /** The second loop in reset mode: it ends at the first complete line. */
    method ResetChunk(parse: Parser, pending: Bytes)
      modifies this`seen, this`frames, this`reset, this`closed, this`lineBuffer
      ensures Lines(pending) == [] ==>
        Current() == old(Current()) && lineBuffer == pending && reset == old(reset) && closed == old(closed)
      ensures Lines(pending) != [] ==>
        && Current() == Observe(old(Current()), KindOf(parse, Lines(pending)[0]), ResetWatch)
        && lineBuffer == old(lineBuffer) && reset && closed
    {
      var newline := NewlineFrom(pending, 0);
      NewlineAhead(pending, 0);
      assert pending[0..] == pending;
      if newline == |pending| {
        lineBuffer := pending;
        return;
      }
      LineText(pending, 0, newline);
      ObserveFrame(parse(pending[0..newline]), ResetWatch);
      reset := true;
      closed := true;
    }

    /** `forwardSelectedData`, with the byte count its caller keeps. */
    method ForwardSelectedData(parse: Parser, mode: Mode, chunk: Bytes)
      modifies this
      ensures Watched() == Deliver(parse, mode, old(Watched()), chunk)
    {
      responseBytes := responseBytes + |chunk|;
      var pending := lineBuffer + chunk;
      if |pending| > BUFFER_LIMIT {
        closed := true;
        return;
      }
      if mode.Pass? {
        PassChunk(parse, pending, chunk);
        return;
      }
      if mode.SilenceAfterSnapshot? && seen.snapshots > 0 {
        droppedBytes := droppedBytes + |chunk|;
        lineBuffer := [];
        return;
      }
      if mode.ResetWatch? {
        ResetChunk(parse, pending);
      } else {
        RelayChunk(parse, mode, pending);
      }
    }
  }

  lemma {:induction false} RelayFromFront(parse: Parser, mode: Mode, flow: Flow, line: Bytes, rest: seq<Bytes>)
    ensures RelayLines(parse, mode, flow, [line] + rest)
      == RelayLines(parse, mode, RelayLine(parse, mode, flow, line), rest)
  {
    RelayLinesAppend(parse, mode, flow, [line], rest);
    assert [line][..0] == [];
  }

  /** What is left to relay before and after the next complete line. */
  lemma {:induction false} PassEnds(parse: Parser, flow: Flow, pending: Bytes, consumed: nat)
    requires consumed <= |pending| && NewlineFrom(pending, consumed) == |pending|
    ensures Tail(pending[consumed..]) == pending[consumed..]
    ensures RelayLines(parse, Mode.Pass, flow, Lines(pending[consumed..])) == flow
  {
    NextLine(parse, Mode.Pass, flow, pending, consumed);
  }

  lemma {:induction false} NextLine(parse: Parser, mode: Mode, flow: Flow, pending: Bytes, consumed: nat)
    requires consumed <= |pending|
    ensures var n := NewlineFrom(pending, consumed);
      if n < |pending|
      then
        && KindOf(parse, pending[consumed..n + 1]) == parse(pending[consumed..n])
        && Tail(pending[consumed..]) == Tail(pending[n + 1..])
        && RelayLines(parse, mode, flow, Lines(pending[consumed..]))
           == RelayLines(parse, mode, RelayLine(parse, mode, flow, pending[consumed..n + 1]), Lines(pending[n + 1..]))
      else
        && Tail(pending[consumed..]) == pending[consumed..]
        && RelayLines(parse, mode, flow, Lines(pending[consumed..])) == flow
  {
    NewlineAhead(pending, consumed);
    var n := NewlineFrom(pending, consumed);
    if n < |pending| {
      LineText(pending, consumed, n);
      RelayFromFront(parse, mode, flow, pending[consumed..n + 1], Lines(pending[n + 1..]));
    }
  }

  /** A frame counted as seen and as forwarded. */
  function PassFrame(flow: Flow, kind: Option<Kind>): Flow {
    var seen := Observe(flow, kind, Mode.Pass);
    seen.(forwarded := Count(seen.forwarded, kind))
  }

  /** The same for pass mode, by the kind of the line. */
  lemma {:induction false} NextPassed(parse: Parser, flow: Flow, pending: Bytes, consumed: nat)
    requires consumed <= |pending| && NewlineFrom(pending, consumed) < |pending|
    ensures var n := NewlineFrom(pending, consumed);
      && Tail(pending[consumed..]) == Tail(pending[n + 1..])
      && RelayLines(parse, Mode.Pass, flow, Lines(pending[consumed..]))
         == RelayLines(parse, Mode.Pass, PassFrame(flow, parse(pending[consumed..n])), Lines(pending[n + 1..]))
  {
    NextLine(parse, Mode.Pass, flow, pending, consumed);
  }

  lemma {:induction false} LineText(pending: Bytes, consumed: nat, n: nat)
    requires consumed <= n < |pending|
    ensures var line := pending[consumed..n + 1]; line[..|line| - 1] == pending[consumed..n]
  {
    SliceSnoc(pending, consumed, n);
    SnocFront(pending[consumed..n], pending[n]);
  }

  lemma {:induction false} SilencedRest(parse: Parser, flow: Flow, lines: seq<Bytes>)
    ensures SilenceLines(parse, (flow, true), lines) == (flow.(droppedBytes := flow.droppedBytes + |Join(lines)|), true)
  {
    if lines != [] {
      SilencedRest(parse, flow, lines[..|lines| - 1]);
    }
  }

  lemma {:induction false} SilenceFromFront(parse: Parser, state: (Flow, bool), line: Bytes, rest: seq<Bytes>)
    ensures SilenceLines(parse, state, [line] + rest) == SilenceLines(parse, SilenceNext(parse, state, line), rest)
  {
    var lines := [line] + rest;
    if rest == [] {
      assert lines[..0] == [];
    } else {
      assert lines[..|lines| - 1] == [line] + rest[..|rest| - 1];
      SilenceFromFront(parse, state, line, rest[..|rest| - 1]);
    }
  }

  /** Silence mode before and after the next complete line. */
  lemma {:induction false} NextSilent(parse: Parser, flow: Flow, line: Bytes, lines: seq<Bytes>, tail: Bytes)
    ensures var after := RelayLine(parse, SilenceAfterSnapshot, flow, line);
      EndSilence(SilenceLines(parse, (flow, false), [line] + lines).0, tail)
      == if Silences(parse, flow, line)
         then (Discard(after, Join(lines) + tail), [])
         else EndSilence(SilenceLines(parse, (after, false), lines).0, tail)
  {
    SilenceFromFront(parse, (flow, false), line, lines);
    if Silences(parse, flow, line) {
      SilencedRest(parse, RelayLine(parse, SilenceAfterSnapshot, flow, line), lines);
    }
  }

  lemma {:induction false} NothingPending(parse: Parser, mode: Mode, flow: Flow, pending: Bytes, consumed: nat)
    requires consumed <= |pending| && NewlineFrom(pending, consumed) == |pending|
    ensures Relayed(parse, mode, flow, pending[consumed..])
         == if mode.SilenceAfterSnapshot? then EndSilence(flow, pending[consumed..]) else (flow, pending[consumed..])
  {
    NewlineAhead(pending, consumed);
  }

  /** The pending bytes before and after the next complete line, in the modes that read every line. */
  lemma {:induction false} NextRelayed(parse: Parser, mode: Mode, flow: Flow, pending: Bytes, consumed: nat)
    requires consumed <= |pending| && !mode.SilenceAfterSnapshot? && NewlineFrom(pending, consumed) < |pending|
    ensures var n := NewlineFrom(pending, consumed);
      Relayed(parse, mode, flow, pending[consumed..])
      == Relayed(parse, mode, RelayLine(parse, mode, flow, pending[consumed..n + 1]), pending[n + 1..])
  {
    NextLine(parse, mode, flow, pending, consumed);
  }

  lemma {:induction false} RelayedFromLine(
      parse: Parser, flow: Flow, pending: Bytes, line: Bytes, rest: Bytes)
    requires Lines(pending) == [line] + Lines(rest) && Tail(pending) == Tail(rest)
    ensures var after := RelayLine(parse, SilenceAfterSnapshot, flow, line);
      Relayed(parse, SilenceAfterSnapshot, flow, pending)
      == if Silences(parse, flow, line) then (Discard(after, rest), [])
        else Relayed(parse, SilenceAfterSnapshot, after, rest)
  {
    LinesAndTail(rest);
    NextSilent(parse, flow, line, Lines(rest), Tail(rest));
  }

  /** The same in silence mode, where a line may silence the rest. */
  lemma {:induction false} NextSilenced(parse: Parser, flow: Flow, pending: Bytes, consumed: nat)
    requires consumed <= |pending| && NewlineFrom(pending, consumed) < |pending|
    ensures var n := NewlineFrom(pending, consumed);
      var line, rest := pending[consumed..n + 1], pending[n + 1..];
      var after := RelayLine(parse, SilenceAfterSnapshot, flow, line);
      Relayed(parse, SilenceAfterSnapshot, flow, pending[consumed..])
      == if Silences(parse, flow, line) then (Discard(after, rest), [])
        else Relayed(parse, SilenceAfterSnapshot, after, rest)
  {
    var n := NewlineFrom(pending, consumed);
    NewlineAhead(pending, consumed);
    RelayedFromLine(parse, flow, pending[consumed..], pending[consumed..n + 1], pending[n + 1..]);
  }

  lemma {:induction false} NextKind(parse: Parser, pending: Bytes, consumed: nat)
    requires consumed <= |pending| && NewlineFrom(pending, consumed) < |pending|
    ensures var n := NewlineFrom(pending, consumed);
      KindOf(parse, pending[consumed..n + 1]) == parse(pending[consumed..n])
  {
    LineText(pending, consumed, NewlineFrom(pending, consumed));
  }

  /** The pending bytes before and after the next complete line, outside pass mode. */
  lemma {:induction false} NextPending(parse: Parser, mode: Mode, flow: Flow, pending: Bytes, consumed: nat)
    requires consumed <= |pending| && !mode.Pass? && NewlineFrom(pending, consumed) < |pending|
    ensures var n := NewlineFrom(pending, consumed);
      var line, rest := pending[consumed..n + 1], pending[n + 1..];
      var after := RelayLine(parse, mode, flow, line);
      && KindOf(parse, line) == parse(pending[consumed..n])
      && Relayed(parse, mode, flow, pending[consumed..])
         == if mode.SilenceAfterSnapshot? && Silences(parse, flow, line)
            then (Discard(after, rest), [])
            else Relayed(parse, mode, after, rest)
  {
    NextKind(parse, pending, consumed);
    if mode.SilenceAfterSnapshot? {
      NextSilenced(parse, flow, pending, consumed);
    } else {
      NextRelayed(parse, mode, flow, pending, consumed);
    }
  }
}
