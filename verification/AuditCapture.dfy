/**
 The audit stream capture of bdd/lib/runtime-manifest-audit.ts: records are cut from a chunked
 stream of lines, and waiters are settled by the first record that matches them.
 */
module AuditCapture {
  import opened Common
  import opened RelayFraming

  const CARRIAGE_RETURN: Byte := 13

  /** An audit record, by its text. */
  datatype Record = Record(text: Bytes)

  /** JSON.parse of a line: malformed, some other value, or a record with the audited opCode. */
  datatype Parsed = Malformed | Ignored | Audited(record: Record)

  /** How a line, with its newline, is read; `LineReader` makes one from JSON.parse. */
  type LineParser = Bytes -> Parsed

  /** What a waiter's predicate does with a record. */
  datatype Verdict = Yes | No | Throws
  type Predicate = Record -> Verdict

  /**
   What a call of `waitFor` comes to: a promise that is pending, resolved or rejected, one that is turned away
   because the response is complete, or an exception of the predicate thrown to the caller.
   */
  datatype Outcome = Pending | Resolved(record: Record) | Rejected | TurnedAway | Thrown
  datatype Waiter = Waiter(test: Predicate, outcome: Outcome)

  /** The response is complete once its last byte has arrived, and over once its end has been delivered. */
  datatype Capture = Capture(
    buffer: Bytes, records: seq<Record>, waiters: seq<Waiter>, failed: bool, complete: bool, over: bool)

  const OPENED := Capture([], [], [], false, false, false)

  // ----- Lines ------------------------------------------------------------------------------------

  /** A line without its newline and one carriage return before it. */
  function Content(line: Bytes): Bytes {
    var text := if line != [] && line[|line| - 1] == NEWLINE then line[..|line| - 1] else line;
    if text != [] && text[|text| - 1] == CARRIAGE_RETURN then text[..|text| - 1] else text
  }

  /** Empty lines are skipped; any other is given to JSON.parse without its line end. */
  function LineReader(json: Bytes -> Parsed): LineParser {
    line => if Content(line) == [] then Ignored else json(Content(line))
  }

  /** A text reads alike with a newline, with a carriage return and a newline, and as the last line without one. */
  lemma {:induction false} LineEndsDoNotMatter(json: Bytes -> Parsed, text: Bytes)
    requires NEWLINE !in text && (text == [] || text[|text| - 1] != CARRIAGE_RETURN)
    ensures var parsed := if text == [] then Ignored else json(text);
      && LineReader(json)(text + [NEWLINE]) == parsed
      && LineReader(json)(text + [CARRIAGE_RETURN, NEWLINE]) == parsed
      && LineReader(json)(text) == parsed && LineReader(json)(text + [CARRIAGE_RETURN]) == parsed
  {
    var ended := text + [CARRIAGE_RETURN];
    assert text + [CARRIAGE_RETURN, NEWLINE] == ended + [NEWLINE];
    assert (text + [NEWLINE])[..|text|] == text;
    assert (ended + [NEWLINE])[..|text| + 1] == ended && ended[..|text|] == text;
    assert text != [] ==> text[|text| - 1] in text;
    assert Content(text + [NEWLINE]) == Content(ended + [NEWLINE]) == Content(text) == Content(ended) == text;
  }

  // ----- Waiters ------------------------------------------------------------------------------------

  /** A new record is offered to one waiter. */
  function Offer(w: Waiter, record: Record): Waiter {
    if !w.outcome.Pending? then w
    else
      match w.test(record)
      case Yes => w.(outcome := Resolved(record))
      case Throws => w.(outcome := Rejected)
      case No => w
  }

  function OfferAll(waiters: seq<Waiter>, record: Record): (r: seq<Waiter>)
    ensures |r| == |waiters|
  {
    if waiters == [] then [] else OfferAll(waiters[..|waiters| - 1], record) + [Offer(waiters[|waiters| - 1], record)]
  }

  /** `settle`: every pending waiter is rejected. */
  function Settle(waiters: seq<Waiter>): (r: seq<Waiter>)
    ensures |r| == |waiters|
  {
    if waiters == [] then []
    else
      var last := waiters[|waiters| - 1];
      Settle(waiters[..|waiters| - 1]) + [if last.outcome.Pending? then last.(outcome := Rejected) else last]
  }

  /** `parseLine`: a malformed line ends the capture. */
  function TakeLine(parse: LineParser, c: Capture, line: Bytes): Capture {
    match parse(line)
    case Ignored => c
    case Malformed => c.(waiters := Settle(c.waiters), failed := true, over := true)
    case Audited(record) => c.(records := c.records + [record], waiters := OfferAll(c.waiters, record))
  }

  /** Lines are taken until one is malformed. */
  function TakeLines(parse: LineParser, c: Capture, lines: seq<Bytes>): Capture {
    if lines == [] then c
    else
      var before := TakeLines(parse, c, lines[..|lines| - 1]);
      if before.failed then before else TakeLine(parse, before, lines[|lines| - 1])
  }

  // ----- Events --------------------------------------------------------------------------------------

  datatype Event = Data(chunk: Bytes) | Complete | End | Error | Wait(test: Predicate) | Close

  /** `records.find(predicate)`, where a throwing predicate stops the search and reaches the caller. */
  function Find(records: seq<Record>, test: Predicate): Outcome {
    if records == [] then Pending
    else
      var before := Find(records[..|records| - 1], test);
      if !before.Pending? then before
      else
        match test(records[|records| - 1])
        case Yes => Resolved(records[|records| - 1])
        case Throws => Thrown
        case No => Pending
  }

  /** A waiter as it is registered: decided at once by a record, an error, or a complete or closed response. */
  function Register(c: Capture, test: Predicate): Waiter {
    var found := Find(c.records, test);
    Waiter(test,
      if !found.Pending? then found
      else if c.failed then Rejected
      else if c.complete || c.over then TurnedAway
      else Pending)
  }

  function Handle(parse: LineParser, c: Capture, event: Event): Capture {
    match event
    case Data(chunk) =>
      if c.over then c
      else
        var pending := c.buffer + chunk;
        var after := TakeLines(parse, c, Lines(pending));
        if after.failed then after.(buffer := []) else after.(buffer := Tail(pending))
    case Complete => c.(complete := true)
    case End =>
      if c.over then c
      else
        var after := if c.buffer == [] then c else TakeLine(parse, c, c.buffer);
        after.(buffer := [], waiters := Settle(after.waiters), over := true)
    case Error => c.(buffer := [], waiters := Settle(c.waiters), failed := true, over := true)
    case Wait(test) => c.(waiters := c.waiters + [Register(c, test)])
    case Close => if c.over then c else c.(buffer := [], waiters := Settle(c.waiters), over := true)
  }

  function HandleAll(parse: LineParser, events: seq<Event>): Capture {
    if events == [] then OPENED else Handle(parse, HandleAll(parse, events[..|events| - 1]), events[|events| - 1])
  }

  // ----- Records are the audited lines of the whole stream ----------------------------------------------

  /** The audited records of a list of lines, up to the first malformed one, and whether there was one. */
  function Audit(parse: LineParser, lines: seq<Bytes>): (seq<Record>, bool) {
    if lines == [] then ([], false)
    else
      var before := Audit(parse, lines[..|lines| - 1]);
      if before.1 then before
      else
        match parse(lines[|lines| - 1])
        case Ignored => before
        case Malformed => (before.0, true)
        case Audited(record) => (before.0 + [record], false)
  }

  lemma {:induction false} TakeLinesAppend(parse: LineParser, c: Capture, a: seq<Bytes>, b: seq<Bytes>)
    ensures TakeLines(parse, c, a + b)
      == if TakeLines(parse, c, a).failed then TakeLines(parse, c, a) else TakeLines(parse, TakeLines(parse, c, a), b)
  {
    if b == [] {
      AddNothing(a);
    } else {
      assert (a + b)[..|a + b| - 1] == a + b[..|b| - 1];
      TakeLinesAppend(parse, c, a, b[..|b| - 1]);
    }
  }

  lemma {:induction false} AuditOf(parse: LineParser, c: Capture, a: seq<Bytes>, b: seq<Bytes>)
    requires (c.records, c.failed) == Audit(parse, a) && !c.failed
    ensures var after := TakeLines(parse, c, b); (after.records, after.failed) == Audit(parse, a + b)
  {
    if b == [] {
      AddNothing(a);
    } else {
      assert (a + b)[..|a + b| - 1] == a + b[..|b| - 1];
      AuditOf(parse, c, a, b[..|b| - 1]);
    }
  }

  lemma {:induction false} FailedAuditStays(parse: LineParser, a: seq<Bytes>, b: seq<Bytes>)
    requires Audit(parse, a).1
    ensures Audit(parse, a + b) == Audit(parse, a)
  {
    if b == [] {
      AddNothing(a);
    } else {
      assert (a + b)[..|a + b| - 1] == a + b[..|b| - 1];
      FailedAuditStays(parse, a, b[..|b| - 1]);
    }
  }

  /** The bytes an event brings. */
  function Brings(event: Event): Bytes {
    if event.Data? then event.chunk else []
  }

  function Stream(events: seq<Event>): Bytes {
    if events == [] then [] else Stream(events[..|events| - 1]) + Brings(events[|events| - 1])
  }

  /** Neither an end nor an error nor a close has been delivered. */
  predicate StillOpen(events: seq<Event>) {
    forall i :: 0 <= i < |events| ==> events[i].Data? || events[i].Wait? || events[i].Complete?
  }

  ghost predicate Captured(parse: LineParser, c: Capture, stream: Bytes) {
    && (c.records, c.failed) == Audit(parse, Lines(stream))
    && c.over == c.failed
    && (!c.failed ==> c.buffer == Tail(stream))
  }

  lemma {:induction false} DataIsCaptured(parse: LineParser, c: Capture, stream: Bytes, chunk: Bytes)
    requires Captured(parse, c, stream)
    ensures Captured(parse, Handle(parse, c, Data(chunk)), stream + chunk)
  {
    LinesOfAppend(stream, chunk);
    var more := Lines(Tail(stream) + chunk);
    if c.failed {
      FailedAuditStays(parse, Lines(stream), more);
    } else {
      AuditOf(parse, c, Lines(stream), more);
      TakenIsOver(parse, c, more);
    }
  }

  lemma {:induction false} TakenIsOver(parse: LineParser, c: Capture, lines: seq<Bytes>)
    requires c.over == c.failed
    ensures var after := TakeLines(parse, c, lines); after.over == after.failed && after.buffer == c.buffer
  {
    if lines != [] {
      TakenIsOver(parse, c, lines[..|lines| - 1]);
    }
  }

  /** For any chunking and any waiters, the records are the audited lines of the stream so far, in order. */
  lemma {:induction false} RecordsAreTheAuditedLines(parse: LineParser, events: seq<Event>)
    requires StillOpen(events)
    ensures Captured(parse, HandleAll(parse, events), Stream(events))
  {
    if events != [] {
      var front, last := events[..|events| - 1], events[|events| - 1];
      RecordsAreTheAuditedLines(parse, front);
      if last.Data? {
        DataIsCaptured(parse, HandleAll(parse, front), Stream(front), last.chunk);
      } else {
        AddNothing(Stream(front));
      }
    }
  }

  /** The lines of a stream that has ended: the text after the last newline is a line too. */
  function AllLines(stream: Bytes): seq<Bytes> {
    if Tail(stream) == [] then Lines(stream) else Lines(stream) + [Tail(stream)]
  }

  /** At the end every line of the stream has been taken, up to a malformed one. */
  lemma {:induction false} EndTakesTheLastLine(parse: LineParser, events: seq<Event>)
    requires StillOpen(events)
    ensures var c := HandleAll(parse, events + [End]);
      c.over && (c.records, c.failed) == Audit(parse, AllLines(Stream(events)))
  {
    var c, stream := HandleAll(parse, events), Stream(events);
    RecordsAreTheAuditedLines(parse, events);
    SnocFront(events, End);
    if Tail(stream) != [] {
      if c.failed {
        FailedAuditStays(parse, Lines(stream), [Tail(stream)]);
      } else {
        LastLineIsAudited(parse, c, Lines(stream), Tail(stream));
      }
    }
  }

  lemma {:induction false} LastLineIsAudited(parse: LineParser, c: Capture, lines: seq<Bytes>, last: Bytes)
    requires (c.records, c.failed) == Audit(parse, lines) && !c.failed
    ensures var after := TakeLine(parse, c, last); (after.records, after.failed) == Audit(parse, lines + [last])
  {
    SnocFront(lines, last);
  }

  // ----- Waiters -------------------------------------------------------------------------------------------

  /**
   A waiter's outcome is what its predicate finds first among the records; a rejection stands in for an exception
   on a record that came later, and for a search that the end of the capture leaves without a match.
   */
  predicate Fair(c: Capture, w: Waiter) {
    var found := Find(c.records, w.test);
    if found.Pending? && c.over then w.outcome.Rejected? || w.outcome.TurnedAway?
    else w.outcome == found || (found.Thrown? && w.outcome.Rejected?)
  }

  predicate AllFair(c: Capture) {
    forall i :: 0 <= i < |c.waiters| ==> FairOrAway(c, c.waiters[i])
  }

  predicate FairOrAway(c: Capture, w: Waiter) {
    w.outcome.TurnedAway? || Fair(c, w)
  }

  lemma {:induction false} OfferAt(waiters: seq<Waiter>, record: Record, i: nat)
    requires i < |waiters|
    ensures OfferAll(waiters, record)[i] == Offer(waiters[i], record)
  {
    if i < |waiters| - 1 {
      OfferAt(waiters[..|waiters| - 1], record, i);
    }
  }

  lemma {:induction false} SettleAt(waiters: seq<Waiter>, i: nat)
    requires i < |waiters|
    ensures Settle(waiters)[i] == if waiters[i].outcome.Pending? then waiters[i].(outcome := Rejected) else waiters[i]
  {
    if i < |waiters| - 1 {
      SettleAt(waiters[..|waiters| - 1], i);
    }
  }

  lemma {:induction false} FindNext(records: seq<Record>, record: Record, test: Predicate)
    ensures Find(records + [record], test)
      == if !Find(records, test).Pending? then Find(records, test)
        else if test(record).Throws? then Thrown else Offer(Waiter(test, Pending), record).outcome
  {
    SnocFront(records, record);
  }

  lemma {:induction false} OfferIsFair(c: Capture, record: Record, i: nat)
    requires i < |c.waiters| && FairOrAway(c, c.waiters[i]) && !c.over
    ensures var after := c.(records := c.records + [record], waiters := OfferAll(c.waiters, record));
      FairOrAway(after, after.waiters[i])
  {
    OfferAt(c.waiters, record, i);
    FindNext(c.records, record, c.waiters[i].test);
  }

  /** The predicate says no to the first i records. */
  predicate NoneBefore(records: seq<Record>, test: Predicate, i: nat)
    requires i <= |records|
  {
    forall k :: 0 <= k < i ==> test(records[k]).No?
  }

  /** The search ends at the first record the predicate does not say no to, with that record or with its exception. */
  lemma {:induction false} FindsTheFirst(records: seq<Record>, test: Predicate)
    ensures match Find(records, test)
      case Pending => NoneBefore(records, test, |records|)
      case Resolved(record) =>
        exists i :: 0 <= i < |records| && record == records[i] && test(records[i]).Yes? && NoneBefore(records, test, i)
      case Thrown => exists i :: 0 <= i < |records| && test(records[i]).Throws? && NoneBefore(records, test, i)
      case _ => false
  {
    if records != [] {
      var front, n := records[..|records| - 1], |records| - 1;
      FindsTheFirst(front, test);
      match Find(front, test) {
        case Pending => assert NoneBefore(records, test, n);
        case Resolved(record) =>
          var i :| 0 <= i < |front| && record == front[i] && test(front[i]).Yes? && NoneBefore(front, test, i);
          assert records[i] == front[i] && NoneBefore(records, test, i);
        case Thrown =>
          var i :| 0 <= i < |front| && test(front[i]).Throws? && NoneBefore(front, test, i);
          assert records[i] == front[i] && NoneBefore(records, test, i);
        case _ =>
      }
    }
  }

  /** Ending a capture rejects exactly the waiters no record has settled. */
  lemma {:induction false} SettlingIsFair(c: Capture, buffer: Bytes, failed: bool)
    requires AllFair(c)
    ensures AllFair(Capture(buffer, c.records, Settle(c.waiters), failed, c.complete, true))
  {
    var after := Capture(buffer, c.records, Settle(c.waiters), failed, c.complete, true);
    forall i | 0 <= i < |after.waiters| ensures FairOrAway(after, after.waiters[i]) {
      assert FairOrAway(c, c.waiters[i]);
      SettleAt(c.waiters, i);
    }
  }

  lemma {:induction false} TakeLineIsFair(parse: LineParser, c: Capture, line: Bytes)
    requires AllFair(c) && !c.over
    ensures AllFair(TakeLine(parse, c, line))
  {
    match parse(line) {
      case Ignored =>
      case Malformed => SettlingIsFair(c, c.buffer, true);
      case Audited(record) =>
        var after := TakeLine(parse, c, line);
        forall i | 0 <= i < |after.waiters| ensures FairOrAway(after, after.waiters[i]) {
          OfferIsFair(c, record, i);
        }
    }
  }

  lemma {:induction false} TakeLinesIsFair(parse: LineParser, c: Capture, lines: seq<Bytes>)
    requires AllFair(c) && c.over == c.failed
    ensures AllFair(TakeLines(parse, c, lines))
  {
    if lines != [] {
      var front := lines[..|lines| - 1];
      TakeLinesIsFair(parse, c, front);
      TakenIsOver(parse, c, front);
      if !TakeLines(parse, c, front).failed {
        TakeLineIsFair(parse, TakeLines(parse, c, front), lines[|lines| - 1]);
      }
    }
  }

  lemma {:induction false} SameRecordsSameFairness(c: Capture, buffer: Bytes)
    requires AllFair(c)
    ensures AllFair(c.(buffer := buffer)) && AllFair(c.(complete := true))
  {
    forall i | 0 <= i < |c.waiters|
      ensures FairOrAway(c.(buffer := buffer), c.waiters[i]) && FairOrAway(c.(complete := true), c.waiters[i])
    {
      assert FairOrAway(c, c.waiters[i]);
    }
  }

  lemma {:induction false} HandleIsFair(parse: LineParser, c: Capture, event: Event)
    requires AllFair(c) && (c.failed ==> c.over)
    ensures AllFair(Handle(parse, c, event)) && (Handle(parse, c, event).failed ==> Handle(parse, c, event).over)
  {
    match event {
      case Data(chunk) =>
        if !c.over {
          var lines := Lines(c.buffer + chunk);
          TakeLinesIsFair(parse, c, lines);
          TakenIsOver(parse, c, lines);
          SameRecordsSameFairness(TakeLines(parse, c, lines), Handle(parse, c, event).buffer);
        }
      case Complete => SameRecordsSameFairness(c, c.buffer);
      case End =>
        if !c.over {
          if c.buffer != [] {
            TakeLineIsFair(parse, c, c.buffer);
          }
          var after := if c.buffer == [] then c else TakeLine(parse, c, c.buffer);
          SettlingIsFair(after, [], after.failed);
        }
      case Error => SettlingIsFair(c, [], true);
      case Wait(test) =>
        var after := Handle(parse, c, event);
        forall i | 0 <= i < |after.waiters| ensures FairOrAway(after, after.waiters[i]) {
          assert i < |c.waiters| ==> FairOrAway(c, c.waiters[i]);
        }
      case Close => SettlingIsFair(c, [], c.failed);
    }
  }

  /**
   Unless it is turned away, a waiter's outcome is the first record ever captured that matches it; it is
   rejected only by a throwing predicate or the end of the capture, and then none is left pending.
   */
  lemma {:induction false} WaitersGetTheFirstMatch(parse: LineParser, events: seq<Event>)
    ensures AllFair(HandleAll(parse, events)) && (HandleAll(parse, events).failed ==> HandleAll(parse, events).over)
    ensures HandleAll(parse, events).over ==>
      forall i :: 0 <= i < |HandleAll(parse, events).waiters| ==> !HandleAll(parse, events).waiters[i].outcome.Pending?
  {
    if events != [] {
      var front := events[..|events| - 1];
      WaitersGetTheFirstMatch(parse, front);
      HandleIsFair(parse, HandleAll(parse, front), events[|events| - 1]);
    }
    var c := HandleAll(parse, events);
    if c.over {
      forall i | 0 <= i < |c.waiters| ensures !c.waiters[i].outcome.Pending? {
        assert FairOrAway(c, c.waiters[i]);
      }
    }
  }

  predicate HasMalformed(parse: LineParser, lines: seq<Bytes>) {
    exists i :: 0 <= i < |lines| && parse(lines[i]).Malformed?
  }

  lemma {:induction false} LinesFail(parse: LineParser, c: Capture, lines: seq<Bytes>)
    requires c.failed ==> c.over
    ensures var after := TakeLines(parse, c, lines);
      && (after.failed <==> c.failed || HasMalformed(parse, lines)) && (after.over <==> c.over || after.failed)
      && after.complete == c.complete
  {
    if lines != [] {
      var front, last := lines[..|lines| - 1], lines[|lines| - 1];
      LinesFail(parse, c, front);
      assert HasMalformed(parse, lines) <==> HasMalformed(parse, front) || parse(last).Malformed? by {
        if HasMalformed(parse, front) {
          var i :| 0 <= i < |front| && parse(front[i]).Malformed?;
          assert lines[i] == front[i];
        }
        assert lines[|lines| - 1] == last;
      }
    }
  }

  /**
   A capture fails exactly at an error or a malformed line, is over exactly once it has failed, ended or been
   closed, is complete from the completion on, and once over it takes no record any more.
   */
  lemma {:induction false} StatesOfACapture(parse: LineParser, c: Capture, event: Event)
    requires c.failed ==> c.over
    ensures var after := Handle(parse, c, event);
      && (after.failed <==>
            || c.failed || event.Error?
            || (!c.over && event.Data? && HasMalformed(parse, Lines(c.buffer + event.chunk)))
            || (!c.over && event.End? && c.buffer != [] && parse(c.buffer).Malformed?))
      && (after.over <==> c.over || after.failed || event.End? || event.Close?)
      && (after.complete <==> c.complete || event.Complete?)
      && (c.over ==> after.records == c.records)
  {
    if event.Data? {
      LinesFail(parse, c, Lines(c.buffer + event.chunk));
    }
  }

  /** In every run the response is complete once it was completed, and nothing stays buffered once it is over. */
  lemma {:induction false} StatesOfARun(parse: LineParser, events: seq<Event>)
    ensures var c := HandleAll(parse, events);
      (c.complete <==> Complete in events) && (c.failed ==> c.over) && (c.over ==> c.buffer == [])
  {
    if events != [] {
      var front, last := events[..|events| - 1], events[|events| - 1];
      var c := HandleAll(parse, front);
      StatesOfARun(parse, front);
      StatesOfACapture(parse, c, last);
      FrontAndLast(events);
      if last.Data? && !c.over {
        LinesFail(parse, c, Lines(c.buffer + last.chunk));
      }
    }
  }

  /** What a new waiter gets: what is found, else a rejection after a failure, else it is turned away or waits. */
  lemma {:induction false} RegistersAs(parse: LineParser, c: Capture, test: Predicate)
    ensures var after := Handle(parse, c, Wait(test)).waiters; var found := Find(c.records, test);
      && |after| == |c.waiters| + 1 && after[..|c.waiters|] == c.waiters && after[|c.waiters|].test == test
      && (!found.Pending? ==> after[|c.waiters|].outcome == found)
      && (found.Pending? && c.failed ==> after[|c.waiters|].outcome.Rejected?)
      && (found.Pending? && !c.failed && (c.complete || c.over) ==> after[|c.waiters|].outcome.TurnedAway?)
      && (found.Pending? && !c.failed && !c.complete && !c.over ==> after[|c.waiters|].outcome.Pending?)
  {
    SnocFront(c.waiters, Register(c, test));
  }

  /** A settled waiter never changes: it is resolved or rejected at most once. */
  lemma {:induction false} SettledOnce(parse: LineParser, c: Capture, event: Event, i: nat)
    requires i < |c.waiters| && !c.waiters[i].outcome.Pending?
    ensures i < |Handle(parse, c, event).waiters| && Handle(parse, c, event).waiters[i] == c.waiters[i]
  {
    match event {
      case Data(chunk) => TakenKeeps(parse, c, Lines(c.buffer + chunk), i);
      case End =>
        if !c.over {
          if c.buffer != [] {
            TakenLineKeeps(parse, c, c.buffer, i);
          }
          var after := if c.buffer == [] then c else TakeLine(parse, c, c.buffer);
          SettleAt(after.waiters, i);
        }
      case Wait(_) =>
      case Complete =>
      case _ => SettleAt(c.waiters, i);
    }
  }

  lemma {:induction false} TakenLineKeeps(parse: LineParser, c: Capture, line: Bytes, i: nat)
    requires i < |c.waiters| && !c.waiters[i].outcome.Pending?
    ensures i < |TakeLine(parse, c, line).waiters| && TakeLine(parse, c, line).waiters[i] == c.waiters[i]
  {
    match parse(line) {
      case Ignored =>
      case Malformed => SettleAt(c.waiters, i);
      case Audited(record) => OfferAt(c.waiters, record, i);
    }
  }

  lemma {:induction false} TakenKeeps(parse: LineParser, c: Capture, lines: seq<Bytes>, i: nat)
    requires i < |c.waiters| && !c.waiters[i].outcome.Pending?
    ensures i < |TakeLines(parse, c, lines).waiters| && TakeLines(parse, c, lines).waiters[i] == c.waiters[i]
  {
    if lines != [] {
      TakenKeeps(parse, c, lines[..|lines| - 1], i);
      TakenLineKeeps(parse, TakeLines(parse, c, lines[..|lines| - 1]), lines[|lines| - 1], i);
    }
  }

  /** A waiter keeps its place and its predicate, and is turned away or thrown at when it registers or never. */
  ghost predicate Keeps(c: Capture, after: Capture, i: nat) {
    && i < |c.waiters| && i < |after.waiters|
    && after.waiters[i].test == c.waiters[i].test
    && (after.waiters[i].outcome.TurnedAway? <==> c.waiters[i].outcome.TurnedAway?)
    && (after.waiters[i].outcome.Thrown? <==> c.waiters[i].outcome.Thrown?)
  }

  lemma {:induction false} LineKeepsWaiter(parse: LineParser, c: Capture, line: Bytes, i: nat)
    requires i < |c.waiters|
    ensures Keeps(c, TakeLine(parse, c, line), i)
  {
    match parse(line) {
      case Ignored =>
      case Malformed => SettleAt(c.waiters, i);
      case Audited(record) => OfferAt(c.waiters, record, i);
    }
  }

  lemma {:induction false} LinesKeepWaiter(parse: LineParser, c: Capture, lines: seq<Bytes>, i: nat)
    requires i < |c.waiters|
    ensures Keeps(c, TakeLines(parse, c, lines), i)
  {
    if lines != [] {
      var before := TakeLines(parse, c, lines[..|lines| - 1]);
      LinesKeepWaiter(parse, c, lines[..|lines| - 1], i);
      LineKeepsWaiter(parse, before, lines[|lines| - 1], i);
    }
  }

  lemma {:induction false} EventKeepsWaiter(parse: LineParser, c: Capture, event: Event, i: nat)
    requires i < |c.waiters|
    ensures Keeps(c, Handle(parse, c, event), i)
  {
    match event {
      case Data(chunk) => LinesKeepWaiter(parse, c, Lines(c.buffer + chunk), i);
      case End =>
        if !c.over {
          LineKeepsWaiter(parse, c, c.buffer, i);
          var after := if c.buffer == [] then c else TakeLine(parse, c, c.buffer);
          SettleAt(after.waiters, i);
        }
      case Complete =>
      case Wait(_) =>
      case _ => SettleAt(c.waiters, i);
    }
  }

  lemma {:induction false} RunKeepsWaiter(parse: LineParser, before: seq<Event>, after: seq<Event>, i: nat)
    requires i < |HandleAll(parse, before).waiters|
    ensures Keeps(HandleAll(parse, before), HandleAll(parse, before + after), i)
  {
    if after == [] {
      AddNothing(before);
    } else {
      var front, last := after[..|after| - 1], after[|after| - 1];
      RunKeepsWaiter(parse, before, front, i);
      FrontAndLast(after);
      Associate(before, front, [last]);
      OneEventMore(parse, before + front, last);
      EventKeepsWaiter(parse, HandleAll(parse, before + front), last, i);
    }
  }

  /** Whether a waiter that registers now is turned away. */
  predicate TurnsAway(c: Capture, test: Predicate) {
    Find(c.records, test).Pending? && !c.failed && (c.complete || c.over)
  }

  /**
   A waiter is turned away exactly when it registers on a complete or closed response that has shown no match
   and no error, and its caller gets an exception exactly when its predicate throws on a record captured before it
   finds a match.  It gets what the capture owes it unless it was turned away and a match still came.
   */
  lemma {:induction false} LateWaitersMayMiss(
      parse: LineParser, before: seq<Event>, test: Predicate, after: seq<Event>)
    ensures var i := |HandleAll(parse, before).waiters|;
      var c := HandleAll(parse, before + [Wait(test)] + after);
      && i < |c.waiters| && c.waiters[i].test == test
      && (c.waiters[i].outcome.TurnedAway? <==> TurnsAway(HandleAll(parse, before), test))
      && (c.waiters[i].outcome.Thrown? <==> Find(HandleAll(parse, before).records, test).Thrown?)
      && (Fair(c, c.waiters[i])
          <==> !TurnsAway(HandleAll(parse, before), test) || (c.over && Find(c.records, test).Pending?))
  {
    var i, whole := |HandleAll(parse, before).waiters|, before + [Wait(test)] + after;
    SnocFront(before, Wait(test));
    RegisteredOutcome(HandleAll(parse, before), test);
    RunKeepsWaiter(parse, before + [Wait(test)], after, i);
    WaitersGetTheFirstMatch(parse, whole);
    assert FairOrAway(HandleAll(parse, whole), HandleAll(parse, whole).waiters[i]);
    FoundIsNotAway(HandleAll(parse, whole).records, test);
  }

  lemma {:induction false} FoundIsNotAway(records: seq<Record>, test: Predicate)
    ensures !Find(records, test).TurnedAway?
  {
    if records != [] {
      FoundIsNotAway(records[..|records| - 1], test);
    }
  }

  lemma {:induction false} RegisteredOutcome(c: Capture, test: Predicate)
    ensures Register(c, test).outcome.TurnedAway? <==> TurnsAway(c, test)
    ensures Register(c, test).outcome.Thrown? <==> Find(c.records, test).Thrown?
  {
    FoundIsNotAway(c.records, test);
  }

  /** The state after an unterminated line and a complete response. */
  lemma {:induction false} CompleteWithText(parse: LineParser, text: Bytes)
    requires NEWLINE !in text
    ensures HandleAll(parse, [Data(text)] + [Complete]) == OPENED.(buffer := text, complete := true)
  {
    NoLines(text);
    assert [Data(text)] == [] + [Data(text)];
    OneEventMore(parse, [], Data(text));
    OneEventMore(parse, [Data(text)], Complete);
    AddNothing(text);
  }

  lemma {:induction false} AwayStaysAway(waiters: seq<Waiter>, record: Record)
    requires |waiters| == 1 && waiters[0].outcome.TurnedAway?
    ensures OfferAll(waiters, record) == waiters && Settle(waiters) == waiters
  {
    OfferAt(waiters, record, 0);
    SettleAt(waiters, 0);
  }

  /** The end of a response takes the text and offers its record to nobody who was turned away. */
  lemma {:induction false} EndAfterTurningAway(parse: LineParser, c: Capture, record: Record)
    requires !c.over && c.buffer != [] && parse(c.buffer) == Audited(record)
    requires |c.waiters| == 1 && c.waiters[0].outcome.TurnedAway?
    ensures Handle(parse, c, End).records == c.records + [record] && Handle(parse, c, End).waiters == c.waiters
  {
    AwayStaysAway(c.waiters, record);
    assert TakeLine(parse, c, c.buffer) == c.(records := c.records + [record]);
  }

  /** The last line is still to be taken when the response is complete: a waiter for it is turned away. */
  lemma {:induction false} LastLineIsMissed(parse: LineParser, text: Bytes, record: Record, test: Predicate)
    requires text != [] && NEWLINE !in text && parse(text) == Audited(record) && test(record).Yes?
    ensures var c := HandleAll(parse, [Data(text)] + [Complete] + [Wait(test)] + [End]);
      c.records == [record] && |c.waiters| == 1 && c.waiters[0] == Waiter(test, TurnedAway)
  {
    var complete := [Data(text)] + [Complete];
    CompleteWithText(parse, text);
    OneEventMore(parse, complete, Wait(test));
    OneEventMore(parse, complete + [Wait(test)], End);
    EndAfterTurningAway(parse, HandleAll(parse, complete + [Wait(test)]), record);
  }

  lemma {:induction false} OneEventMore(parse: LineParser, events: seq<Event>, event: Event)
    ensures HandleAll(parse, events + [event]) == Handle(parse, HandleAll(parse, events), event)
  {
    SnocFront(events, event);
  }

  lemma {:induction false} NoLines(text: Bytes)
    requires NEWLINE !in text
    ensures Lines(text) == [] && Tail(text) == text
  {
    if text != [] {
      NoLines(text[..|text| - 1]);
      FrontAndLast(text);
    }
  }

  // ----- The capture -----------------------------------------------------------------------------------------

  class AuditStream {
    var buffer: Bytes
    var records: seq<Record>
    var waiters: seq<Waiter>
    var failed: bool
    var complete: bool
    var over: bool

    constructor ()
      ensures Now() == OPENED
    {
      buffer, records, waiters, failed, complete, over := [], [], [], false, false, false;
    }

    function Now(): Capture reads this { Capture(buffer, records, waiters, failed, complete, over) }

    method SettleWaiters()
      modifies this`waiters
      ensures waiters == Settle(old(waiters))
    {
      ghost var start := waiters;
      for i := 0 to |waiters|
        invariant |waiters| == |start|
        invariant forall k :: 0 <= k < i ==> waiters[k] == Settle(start)[k]
        invariant forall k :: i <= k < |start| ==> waiters[k] == start[k]
      {
        SettleAt(start, i);
        if waiters[i].outcome.Pending? {
          waiters := waiters[i := waiters[i].(outcome := Rejected)];
        }
      }
    }

    method OfferToWaiters(record: Record)
      modifies this`waiters
      ensures waiters == OfferAll(old(waiters), record)
    {
      ghost var start := waiters;
      for i := 0 to |waiters|
        invariant |waiters| == |start|
        invariant forall k :: 0 <= k < i ==> waiters[k] == OfferAll(start, record)[k]
        invariant forall k :: i <= k < |start| ==> waiters[k] == start[k]
      {
        OfferAt(start, record, i);
        waiters := waiters[i := Offer(waiters[i], record)];
      }
    }

    method TakeOne(parse: LineParser, line: Bytes)
      modifies this`records, this`waiters, this`failed, this`over
      ensures Now() == TakeLine(parse, old(Now()), line)
    {
      match parse(line) {
        case Ignored =>
        case Malformed =>
          failed, over := true, true;
          SettleWaiters();
        case Audited(record) =>
          records := records + [record];
          OfferToWaiters(record);
      }
    }

    /** The next complete line of the pending text. */
    method TakeNext(parse: LineParser, pending: Bytes, consumed: nat, newline: nat, ghost goal: Capture)
      requires consumed <= |pending| && newline == NewlineFrom(pending, consumed) < |pending|
      requires !failed && goal == TakeLines(parse, Now(), Lines(pending[consumed..]))
      modifies this`records, this`waiters, this`failed, this`over
      ensures goal == if failed then Now() else TakeLines(parse, Now(), Lines(pending[newline + 1..]))
      ensures Tail(pending[newline + 1..]) == Tail(pending[consumed..])
    {
      NextTaken(parse, Now(), pending, consumed);
      TakeOne(parse, pending[consumed..newline + 1]);
    }

    /** The loop over complete lines, until one is malformed. */
    method TakeComplete(parse: LineParser, pending: Bytes) returns (consumed: nat)
      requires !failed
      modifies this`records, this`waiters, this`failed, this`over
      ensures Now() == TakeLines(parse, old(Now()), Lines(pending))
      ensures consumed <= |pending| && (!failed ==> pending[consumed..] == Tail(pending))
    {
      consumed := 0;
      var newline := NewlineFrom(pending, 0);
      ghost var goal := TakeLines(parse, Now(), Lines(pending));
      assert pending[0..] == pending;
      while newline < |pending| && !failed
        invariant consumed <= |pending| && newline == NewlineFrom(pending, consumed)
        invariant goal == if failed then Now() else TakeLines(parse, Now(), Lines(pending[consumed..]))
        invariant Tail(pending) == Tail(pending[consumed..])
        decreases |pending| - consumed
      {
        TakeNext(parse, pending, consumed, newline, goal);
        consumed := newline + 1;
        newline := NewlineFrom(pending, consumed);
      }
      if !failed {
        NothingLeft(parse, Now(), pending, consumed);
      }
    }

    /** The data handler. */
    method OnData(parse: LineParser, chunk: Bytes)
      requires failed ==> over
      modifies this
      ensures Now() == Handle(parse, old(Now()), Data(chunk))
    {
      if over {
        return;
      }
      var pending := buffer + chunk;
      TakenBuffer(parse, Now(), Lines(pending));
      var consumed := TakeComplete(parse, pending);
      buffer := if failed then [] else pending[consumed..];
    }

    method OnEnd(parse: LineParser)
      modifies this
      ensures Now() == Handle(parse, old(Now()), End)
    {
      if over {
        return;
      }
      if buffer != [] {
        TakeOne(parse, buffer);
      }
      buffer := [];
      SettleWaiters();
      over := true;
    }

    /** The response has arrived in full; its last bytes may still be undelivered. */
    method OnComplete(parse: LineParser)
      modifies this`complete
      ensures Now() == Handle(parse, old(Now()), Complete)
    {
      complete := true;
    }

    /** The error handlers of the response and of the request. */
    method OnError(parse: LineParser)
      modifies this
      ensures Now() == Handle(parse, old(Now()), Error)
    {
      failed, over := true, true;
      buffer := [];
      SettleWaiters();
    }

    /** `records.find(predicate)`. */
    method FindRecord(test: Predicate) returns (outcome: Outcome)
      ensures outcome == Find(records, test)
    {
      outcome := Pending;
      for i := 0 to |records|
        invariant outcome == Find(records[..i], test)
      {
        FindNext(records[..i], records[i], test);
        assert records[..i + 1] == records[..i] + [records[i]];
        if outcome.Pending? {
          match test(records[i]) {
            case Yes => outcome := Resolved(records[i]);
            case Throws => outcome := Thrown;
            case No =>
          }
        }
      }
      assert records[..|records|] == records;
    }

    method WaitFor(parse: LineParser, test: Predicate)
      modifies this`waiters
      ensures Now() == Handle(parse, old(Now()), Wait(test))
    {
      var outcome := FindRecord(test);
      if outcome.Pending? && failed {
        outcome := Rejected;
      } else if outcome.Pending? && (complete || over) {
        outcome := TurnedAway;
      }
      waiters := waiters + [Waiter(test, outcome)];
    }

    method Shut(parse: LineParser)
      modifies this
      ensures Now() == Handle(parse, old(Now()), Close)
    {
      if over {
        return;
      }
      buffer := [];
      SettleWaiters();
      over := true;
    }
  }

  lemma {:induction false} TakeFromFront(parse: LineParser, c: Capture, line: Bytes, rest: seq<Bytes>)
    requires !c.failed
    ensures TakeLines(parse, c, [line] + rest)
      == if TakeLine(parse, c, line).failed then TakeLine(parse, c, line)
        else TakeLines(parse, TakeLine(parse, c, line), rest)
  {
    TakeLinesAppend(parse, c, [line], rest);
    assert [line][..0] == [];
  }

  lemma {:induction false} NextTaken(parse: LineParser, c: Capture, pending: Bytes, consumed: nat)
    requires consumed <= |pending| && NewlineFrom(pending, consumed) < |pending| && !c.failed
    ensures var n := NewlineFrom(pending, consumed);
      var next, rest := TakeLine(parse, c, pending[consumed..n + 1]), pending[n + 1..];
      && TakeLines(parse, c, Lines(pending[consumed..]))
        == (if next.failed then next else TakeLines(parse, next, Lines(rest)))
      && Tail(rest) == Tail(pending[consumed..])
  {
    NewlineAhead(pending, consumed);
    var n := NewlineFrom(pending, consumed);
    TakeFromFront(parse, c, pending[consumed..n + 1], Lines(pending[n + 1..]));
  }

  lemma {:induction false} NothingLeft(parse: LineParser, c: Capture, pending: Bytes, consumed: nat)
    requires consumed <= |pending| && NewlineFrom(pending, consumed) == |pending|
    ensures TakeLines(parse, c, Lines(pending[consumed..])) == c && Tail(pending[consumed..]) == pending[consumed..]
  {
    NewlineAhead(pending, consumed);
  }

  lemma {:induction false} TakenBuffer(parse: LineParser, c: Capture, lines: seq<Bytes>)
    ensures TakeLines(parse, c, lines).buffer == c.buffer
  {
    if lines != [] {
      TakenBuffer(parse, c, lines[..|lines| - 1]);
    }
  }
}
