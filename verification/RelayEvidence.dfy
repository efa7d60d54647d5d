/**
 What the evidence of a watch says about the bytes that arrived (bdd/lib/hub-event-watch-relay.ts): the reset of a
 watch at its first line, and in every mode the counts and the recorded frames.
 */
module RelayEvidence {
  import opened Common
  import opened RelayFraming

  // ----- Reset ------------------------------------------------------------------------------------------

  lemma {:induction false} NoLines(bytes: Bytes)
    ensures Lines(bytes) == [] <==> NEWLINE !in bytes
    ensures NEWLINE !in bytes ==> Tail(bytes) == bytes
  {
    if bytes != [] {
      NoLines(bytes[..|bytes| - 1]);
      FrontAndLast(bytes);
    }
  }

  /** The first line of a text with a newline, and what is parsed of it. */
  lemma {:induction false} FirstLine(parse: Parser, bytes: Bytes, n: nat)
    requires n < |bytes| && bytes[n] == NEWLINE && NEWLINE !in bytes[..n]
    ensures Lines(bytes) != [] && Lines(bytes)[0] == bytes[..n + 1]
    ensures KindOf(parse, Lines(bytes)[0]) == parse(bytes[..n])
  {
    var line, rest := bytes[..n + 1], bytes[n + 1..];
    assert bytes == line + rest;
    NoLines(bytes[..n]);
    FrontAndLast(line);
    assert line[..|line| - 1] == bytes[..n];
    LinesOfAppend(line, rest);
  }

  /** What a watch in reset mode has done with the stream so far. */
  ghost predicate ResetAt(w: Watch, stream: Bytes) {
    && (w.reset <==> NEWLINE in stream) && (w.closed <==> NEWLINE in stream)
    && w.flow.written == [] && w.flow.forwardedBytes == 0 && w.flow.droppedBytes == 0
    && w.flow.forwarded == Tally(0, 0, 0) && w.flow.droppedCursor == None
    && w.responseBytes == |stream|
    && (NEWLINE !in stream ==> w.buffer == stream && w.flow.seen == Tally(0, 0, 0) && w.flow.frames == [])
  }

  lemma {:induction false} ResetStep(parse: Parser, w: Watch, stream: Bytes, chunk: Bytes)
    requires ResetAt(w, stream) && |w.buffer| + |chunk| <= BUFFER_LIMIT
    ensures ResetAt(Deliver(parse, ResetWatch, w, chunk), stream + chunk)
  {
    NoLines(w.buffer + chunk);
  }

  /**
   In reset mode, for any chunks, the watch is reset and closed if and only if the stream holds a newline; nothing is
   ever written, forwarded or counted as dropped, and before the first newline everything is still buffered.
   */
  lemma {:induction false} ResetClosesAtFirstLine(parse: Parser, chunks: seq<Bytes>)
    requires Fits(parse, ResetWatch, FRESH, chunks)
    ensures ResetAt(Feed(parse, ResetWatch, FRESH, chunks), Join(chunks))
  {
    if chunks != [] {
      var front, chunk := chunks[..|chunks| - 1], chunks[|chunks| - 1];
      ResetClosesAtFirstLine(parse, front);
      ResetStep(parse, Feed(parse, ResetWatch, FRESH, front), Join(front), chunk);
    }
  }

  /** The chunk that completes the first line leaves exactly this line observed. */
  lemma {:induction false} ResetObservesFirstLine(parse: Parser, chunks: seq<Bytes>, chunk: Bytes, n: nat)
    requires Fits(parse, ResetWatch, FRESH, chunks + [chunk]) && NEWLINE !in Join(chunks)
    requires var stream := Join(chunks) + chunk;
      n < |stream| && stream[n] == NEWLINE && NEWLINE !in stream[..n]
    ensures var w, kind := Feed(parse, ResetWatch, FRESH, chunks + [chunk]), parse((Join(chunks) + chunk)[..n]);
      && w.reset && w.closed
      && w.flow.frames == (if kind.Some? then [Frame(kind.value, ResetWatch)] else [])
      && w.flow.seen == (match kind
         case Some(Snapshot) => Tally(1, 0, 0)
         case Some(Heartbeat) => Tally(0, 1, 0)
         case Some(Change(_)) => Tally(0, 0, 1)
         case _ => Tally(0, 0, 0))
  {
    SnocFront(chunks, chunk);
    ResetClosesAtFirstLine(parse, chunks);
    FirstLine(parse, Join(chunks) + chunk, n);
  }

  /** A chunk that would overflow the line buffer closes the watch and is not looked at. */
  lemma {:induction false} OversizedChunkCloses(parse: Parser, mode: Mode, w: Watch, chunk: Bytes)
    ensures |w.buffer| + |chunk| > 1024 * 1024 ==>
      Deliver(parse, mode, w, chunk) == w.(responseBytes := w.responseBytes + |chunk|, closed := true)
    ensures |w.buffer| + |chunk| <= 1024 * 1024 && !mode.ResetWatch? ==>
      Deliver(parse, mode, w, chunk).closed == w.closed && Deliver(parse, mode, w, chunk).reset == w.reset
  {
  }

  // ----- Counts and frames --------------------------------------------------------------------------------

  /** The line, without its newline, parses to something of a kind. */
  predicate Reads(parse: Parser, line: Bytes, good: Kind -> bool) {
    line != [] && parse(line[..|line| - 1]).Some? && good(parse(line[..|line| - 1]).value)
  }

  /** The positions of the lines that read as something. */
  function Reading(parse: Parser, lines: seq<Bytes>, good: Kind -> bool): set<nat> {
    set i: nat | i < |lines| && Reads(parse, lines[i], good)
  }

  lemma {:induction false} ReadingSnoc(parse: Parser, lines: seq<Bytes>, line: Bytes, good: Kind -> bool)
    ensures |Reading(parse, lines + [line], good)|
      == |Reading(parse, lines, good)| + if Reads(parse, line, good) then 1 else 0
  {
    hide Reads;
    var all, before := Reading(parse, lines + [line], good), Reading(parse, lines, good);
    forall i: nat ensures i in all <==> i in before || (i == |lines| && Reads(parse, line, good)) {
      if i < |lines| {
        assert (lines + [line])[i] == lines[i];
      }
    }
    if Reads(parse, line, good) {
      assert all == before + {|lines|};
    } else {
      assert all == before;
    }
  }

  /** A tally holds the number of snapshot lines, of heartbeat lines and of change lines. */
  lemma {:induction false} TallyCounts(parse: Parser, lines: seq<Bytes>)
    ensures TallyOf(parse, Tally(0, 0, 0), lines)
      == Tally(|Reading(parse, lines, (k: Kind) => k.Snapshot?)|, |Reading(parse, lines, (k: Kind) => k.Heartbeat?)|,
               |Reading(parse, lines, (k: Kind) => k.Change?)|)
  {
    var snapshot, heartbeat, change := (k: Kind) => k.Snapshot?, (k: Kind) => k.Heartbeat?, (k: Kind) => k.Change?;
    if lines == [] {
      assert Reading(parse, lines, snapshot) == {} && Reading(parse, lines, heartbeat) == {};
      assert Reading(parse, lines, change) == {};
    } else {
      var front, last := lines[..|lines| - 1], lines[|lines| - 1];
      TallyCounts(parse, front);
      FrontAndLast(lines);
      ReadingSnoc(parse, front, last, snapshot);
      ReadingSnoc(parse, front, last, heartbeat);
      ReadingSnoc(parse, front, last, change);
    }
  }

  /** The lines with a type, as frames, in order. */
  function Typed(parse: Parser, mode: Mode, lines: seq<Bytes>): seq<Frame> {
    if lines == [] then []
    else
      var line := lines[|lines| - 1];
      var kind := if line == [] then None else parse(line[..|line| - 1]);
      Typed(parse, mode, lines[..|lines| - 1]) + if kind.Some? then [Frame(kind.value, mode)] else []
  }

  /** The recorded frames are the first 64 lines that have a type. */
  lemma {:induction false} FramesAreTheFirst(parse: Parser, mode: Mode, lines: seq<Bytes>)
    ensures var typed := Typed(parse, mode, lines);
      FramesOf(parse, mode, [], lines) == if |typed| <= 64 then typed else typed[..64]
  {
    if lines != [] {
      FramesAreTheFirst(parse, mode, lines[..|lines| - 1]);
    }
  }

  // ----- Line by line -----------------------------------------------------------------------------------------

  /** What relaying lines one by one has observed and forwarded. */
  ghost predicate Evidenced(parse: Parser, mode: Mode, flow: Flow, heard: seq<Bytes>, sent: seq<Bytes>) {
    && flow.seen == TallyOf(parse, Tally(0, 0, 0), heard)
    && flow.frames == FramesOf(parse, mode, [], heard)
    && flow.forwarded == TallyOf(parse, Tally(0, 0, 0), sent)
    && flow.written == Join(sent)
  }

  lemma {:induction false} TallySnoc(parse: Parser, lines: seq<Bytes>, line: Bytes)
    ensures TallyOf(parse, Tally(0, 0, 0), lines + [line])
      == Count(TallyOf(parse, Tally(0, 0, 0), lines), KindOf(parse, line))
  {
    SnocFront(lines, line);
  }

  lemma {:induction false} FramesSnoc(parse: Parser, mode: Mode, lines: seq<Bytes>, line: Bytes)
    ensures FramesOf(parse, mode, [], lines + [line])
      == Record(FramesOf(parse, mode, [], lines), KindOf(parse, line), mode)
  {
    SnocFront(lines, line);
  }

  /** holdResponseHeaders observes and forwards every line. */
  lemma {:induction false} HoldForwardsEverything(parse: Parser, lines: seq<Bytes>)
    ensures Evidenced(
      parse, HoldResponseHeaders, RelayLines(parse, HoldResponseHeaders, FRESH_FLOW, lines), lines, lines)
    ensures RelayLines(parse, HoldResponseHeaders, FRESH_FLOW, lines).droppedBytes == 0
  {
    if lines != [] {
      HoldForwardsEverything(parse, lines[..|lines| - 1]);
    }
  }

  /** dropNextChange observes every line and forwards the kept ones. */
  lemma {:induction false} DropObservesEverything(parse: Parser, lines: seq<Bytes>)
    ensures Evidenced(
      parse, DropNextChange, RelayLines(parse, DropNextChange, FRESH_FLOW, lines), lines, Kept(parse, lines))
    ensures RelayLines(parse, DropNextChange, FRESH_FLOW, lines).droppedCursor.None?
      <==> NoCursorYet(Kinds(parse, lines))
  {
    if lines != [] {
      var front, last := lines[..|lines| - 1], lines[|lines| - 1];
      DropObservesEverything(parse, front);
      NoCursorExtends(Kinds(parse, front), KindOf(parse, last));
      TallySnoc(parse, Kept(parse, front), last);
      JoinOne(Kept(parse, front), last);
      AddNothing(Kept(parse, front));
    }
  }

  // ----- Silence -------------------------------------------------------------------------------------------------

  /** The lines silence looks at: through the run of snapshots, and the one that silences the rest. */
  function HeardIn(parse: Parser, lines: seq<Bytes>): seq<Bytes> {
    var n := |ThroughRun(parse, lines)|;
    if n < |lines| then lines[..n + 1] else lines
  }

  ghost predicate Hushed(parse: Parser, state: (Flow, bool), lines: seq<Bytes>) {
    && Evidenced(parse, SilenceAfterSnapshot, state.0, HeardIn(parse, lines), ThroughRun(parse, lines))
    && (state.0.seen.snapshots > 0 <==> HasSnapshot(parse, lines))
    && (state.1 <==> |ThroughRun(parse, lines)| < |lines|)
  }

  lemma {:induction false} HushedNext(parse: Parser, state: (Flow, bool), front: seq<Bytes>, line: Bytes)
    requires Hushed(parse, state, front)
    ensures Hushed(parse, SilenceNext(parse, state, line), front + [line])
  {
    var lines := front + [line];
    SnocFront(front, line);
    AloneMeansOneSnapshotSent(parse, front);
    if state.1 {
      assert ThroughRun(parse, lines) == ThroughRun(parse, front);
      assert HeardIn(parse, lines) == HeardIn(parse, front);
    } else {
      assert ThroughRun(parse, front) == front;
      TallySnoc(parse, front, line);
      FramesSnoc(parse, SilenceAfterSnapshot, front, line);
      JoinOne(front, line);
      assert HeardIn(parse, lines) == lines;
    }
  }

  lemma {:induction false} HushedWithinChunk(parse: Parser, flow: Flow, lines: seq<Bytes>, more: seq<Bytes>)
    requires Hushed(parse, (flow, false), lines)
    ensures Hushed(parse, SilenceLines(parse, (flow, false), more), lines + more)
  {
    if more == [] {
      AddNothing(lines);
    } else {
      var front := more[..|more| - 1];
      HushedWithinChunk(parse, flow, lines, front);
      FrontAndLast(more);
      Associate(lines, front, [more[|more| - 1]]);
      HushedNext(parse, SilenceLines(parse, (flow, false), front), lines + front, more[|more| - 1]);
    }
  }

  /** The lines silence has looked at: all, or those of the chunk that brings the first snapshot and before. */
  function Heard(parse: Parser, chunks: seq<Bytes>): seq<Bytes> {
    if chunks == [] then []
    else
      var front := chunks[..|chunks| - 1];
      if HasSnapshot(parse, Lines(Join(front))) then Heard(parse, front) else HeardIn(parse, Lines(Join(chunks)))
  }

  lemma {:induction false} AllHeardBefore(parse: Parser, chunks: seq<Bytes>)
    requires !HasSnapshot(parse, Lines(Join(chunks)))
    ensures Heard(parse, chunks) == Sent(parse, chunks) == Lines(Join(chunks)) == HeardIn(parse, Lines(Join(chunks)))
    ensures ThroughRun(parse, Lines(Join(chunks))) == Lines(Join(chunks))
  {
    AllSentBefore(parse, chunks);
    AloneMeansOneSnapshotSent(parse, Lines(Join(chunks)));
    if chunks != [] {
      var front, chunk := chunks[..|chunks| - 1], chunks[|chunks| - 1];
      LinesOfAppend(Join(front), chunk);
      SnapshotStays(parse, Lines(Join(front)), Lines(Tail(Join(front)) + chunk));
    }
  }

  /** For any chunks silence counts and records what it has looked at, and counts as forwarded what it has sent. */
  lemma {:induction false} SilenceCounts(parse: Parser, chunks: seq<Bytes>)
    requires Fits(parse, SilenceAfterSnapshot, FRESH, chunks)
    ensures Evidenced(
      parse, SilenceAfterSnapshot, Feed(parse, SilenceAfterSnapshot, FRESH, chunks).flow, Heard(parse, chunks),
      Sent(parse, chunks))
  {
    if chunks != [] {
      var front, chunk := chunks[..|chunks| - 1], chunks[|chunks| - 1];
      var w := Feed(parse, SilenceAfterSnapshot, FRESH, front);
      SilenceCounts(parse, front);
      SilenceSends(parse, front);
      if !HasSnapshot(parse, Lines(Join(front))) {
        AllHeardBefore(parse, front);
        LinesOfAppend(Join(front), chunk);
        HushedWithinChunk(parse, w.flow, Lines(Join(front)), Lines(Tail(Join(front)) + chunk));
      }
    }
  }
}
