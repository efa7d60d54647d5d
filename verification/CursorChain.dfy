/**
 Gap detection on linked cursors (the `receive` closures of bdd/lib/hub-event-watch.ts): the observer
 polls a history, takes the changes newer than its cursor in order, and requires each one to name
 the cursor it last accepted.  The lemmas say exactly which deliveries that accepts.
 */
module CursorChain {
  import opened Common
  import opened RelayFraming

  datatype Cursor = Cursor(id: string, position: int)
  datatype ChangeEvent = ChangeEvent(previous: Cursor, cursor: Cursor, content: string)
  datatype HistoryRecord = Observed(change: ChangeEvent) | Unrelated(kind: string)

  type Matcher = ChangeEvent -> bool

  datatype Outcome = Waiting | Found(change: ChangeEvent) | Broken(change: ChangeEvent)

  // ----- One poll ------------------------------------------------------------------------------

  /** The filter: change records beyond a position. */
  function Newer(records: seq<HistoryRecord>, position: int): seq<ChangeEvent> {
    if records == [] then []
    else
      var front, last := Newer(records[..|records| - 1], position), records[|records| - 1];
      if last.Observed? && last.change.cursor.position > position then front + [last.change] else front
  }

  function Insert(sorted: seq<ChangeEvent>, change: ChangeEvent): seq<ChangeEvent> {
    if sorted == [] || sorted[|sorted| - 1].cursor.position <= change.cursor.position then sorted + [change]
    else Insert(sorted[..|sorted| - 1], change) + [sorted[|sorted| - 1]]
  }

  /** The stable sort by cursor position. */
  function SortByPosition(changes: seq<ChangeEvent>): seq<ChangeEvent> {
    if changes == [] then [] else Insert(SortByPosition(changes[..|changes| - 1]), changes[|changes| - 1])
  }

  /** One change: the chain must continue from the cursor accepted last. */
  function Accept(state: (Cursor, Outcome), change: ChangeEvent, matches: Matcher): (Cursor, Outcome) {
    if !state.1.Waiting? then state
    else if change.previous != state.0 then (state.0, Broken(change))
    else (change.cursor, if matches(change) then Found(change) else Waiting)
  }

  function Walk(cursor: Cursor, changes: seq<ChangeEvent>, matches: Matcher): (Cursor, Outcome) {
    if changes == [] then (cursor, Waiting)
    else Accept(Walk(cursor, changes[..|changes| - 1], matches), changes[|changes| - 1], matches)
  }

  function Poll(cursor: Cursor, records: seq<HistoryRecord>, matches: Matcher): (Cursor, Outcome) {
    Walk(cursor, SortByPosition(Newer(records, cursor.position)), matches)
  }

  /** `receive`: polls until a match, a broken chain, or the deadline. */
  function Received(cursor: Cursor, polls: seq<seq<HistoryRecord>>, matches: Matcher): (Cursor, Outcome) {
    if polls == [] then (cursor, Waiting)
    else
      var before := Received(cursor, polls[..|polls| - 1], matches);
      if before.1.Waiting? then Poll(before.0, polls[|polls| - 1], matches) else before
  }

  class Watch {
    var cursor: Cursor

    constructor (snapshot: Cursor)
      ensures cursor == snapshot
    {
      cursor := snapshot;
    }

    method ReceiveOne(records: seq<HistoryRecord>, matches: Matcher) returns (r: Outcome)
      modifies this
      ensures (cursor, r) == Poll(old(cursor), records, matches)
    {
      var changes := SortByPosition(Newer(records, cursor.position));
      ghost var start := cursor;
      for i := 0 to |changes|
        invariant Walk(start, changes[..i], matches) == (cursor, Waiting)
      {
        var change := changes[i];
        WalkStep(start, changes, i, matches);
        if change.previous != cursor {
          WalkStops(start, changes, i + 1, matches);
          return Broken(change);
        }
        cursor := change.cursor;
        if matches(change) {
          WalkStops(start, changes, i + 1, matches);
          return Found(change);
        }
      }
      assert changes[..|changes|] == changes;
      return Waiting;
    }

    /** The polls that happen before the deadline. */
    method Receive(polls: seq<seq<HistoryRecord>>, matches: Matcher) returns (r: Outcome)
      modifies this
      ensures (cursor, r) == Received(old(cursor), polls, matches)
    {
      ghost var start := cursor;
      for i := 0 to |polls|
        invariant Received(start, polls[..i], matches) == (cursor, Waiting)
      {
        ReceivedStep(start, polls, i, matches);
        r := ReceiveOne(polls[i], matches);
        if !r.Waiting? {
          ReceivedStops(start, polls, i + 1, matches);
          return r;
        }
      }
      assert polls[..|polls|] == polls;
      return Waiting;
    }
  }

  lemma {:induction false} WalkStep(cursor: Cursor, changes: seq<ChangeEvent>, i: nat, matches: Matcher)
    requires i < |changes|
    ensures Walk(cursor, changes[..i + 1], matches) == Accept(Walk(cursor, changes[..i], matches), changes[i], matches)
  {
    assert changes[..i + 1][..i] == changes[..i];
  }

  lemma {:induction false} WalkStops(cursor: Cursor, changes: seq<ChangeEvent>, i: nat, matches: Matcher)
    requires i <= |changes| && !Walk(cursor, changes[..i], matches).1.Waiting?
    ensures Walk(cursor, changes, matches) == Walk(cursor, changes[..i], matches)
  {
    if i < |changes| {
      assert changes[..|changes| - 1][..i] == changes[..i];
      WalkStops(cursor, changes[..|changes| - 1], i, matches);
    } else {
      assert changes[..i] == changes;
    }
  }

  lemma {:induction false} ReceivedStep(cursor: Cursor, polls: seq<seq<HistoryRecord>>, i: nat, matches: Matcher)
    requires i < |polls| && Received(cursor, polls[..i], matches).1.Waiting?
    ensures Received(cursor, polls[..i + 1], matches)
      == Poll(Received(cursor, polls[..i], matches).0, polls[i], matches)
  {
    assert polls[..i + 1][..i] == polls[..i];
  }

  lemma {:induction false} ReceivedStops(cursor: Cursor, polls: seq<seq<HistoryRecord>>, i: nat, matches: Matcher)
    requires i <= |polls| && !Received(cursor, polls[..i], matches).1.Waiting?
    ensures Received(cursor, polls, matches) == Received(cursor, polls[..i], matches)
  {
    if i < |polls| {
      assert polls[..|polls| - 1][..i] == polls[..i];
      ReceivedStops(cursor, polls[..|polls| - 1], i, matches);
    } else {
      assert polls[..i] == polls;
    }
  }

  // ----- The order the filter and the sort produce ---------------------------------------------

  predicate AtMost(changes: seq<ChangeEvent>, position: int) {
    forall change :: change in changes ==> change.cursor.position <= position
  }

  predicate Below(changes: seq<ChangeEvent>, position: int) {
    forall change :: change in changes ==> change.cursor.position < position
  }

  predicate Ordered(changes: seq<ChangeEvent>) {
    changes == [] ||
    (Ordered(changes[..|changes| - 1]) && AtMost(changes[..|changes| - 1], changes[|changes| - 1].cursor.position))
  }

  predicate Increasing(changes: seq<ChangeEvent>) {
    changes == [] ||
    (Increasing(changes[..|changes| - 1]) && Below(changes[..|changes| - 1], changes[|changes| - 1].cursor.position))
  }

  lemma {:induction false} InsertKeepsBound(sorted: seq<ChangeEvent>, change: ChangeEvent, position: int)
    requires AtMost(sorted, position) && change.cursor.position <= position
    ensures AtMost(Insert(sorted, change), position)
  {
    if sorted != [] && sorted[|sorted| - 1].cursor.position > change.cursor.position {
      InsertKeepsBound(sorted[..|sorted| - 1], change, position);
    }
  }

  lemma {:induction false} InsertKeepsOrder(sorted: seq<ChangeEvent>, change: ChangeEvent)
    requires Ordered(sorted)
    ensures Ordered(Insert(sorted, change))
  {
    if sorted == [] {
    } else if sorted[|sorted| - 1].cursor.position > change.cursor.position {
      var front, last := sorted[..|sorted| - 1], sorted[|sorted| - 1];
      InsertKeepsOrder(front, change);
      InsertKeepsBound(front, change, last.cursor.position);
      SnocFront(Insert(front, change), last);
    } else {
      FrontAndLast(sorted);
      SnocFront(sorted, change);
    }
  }

  lemma {:induction false} InsertAddsOne(sorted: seq<ChangeEvent>, change: ChangeEvent)
    ensures multiset(Insert(sorted, change)) == multiset(sorted) + multiset{change}
  {
    if sorted != [] && sorted[|sorted| - 1].cursor.position > change.cursor.position {
      InsertAddsOne(sorted[..|sorted| - 1], change);
      FrontAndLast(sorted);
    }
  }

  lemma {:induction false} SortIsSorted(changes: seq<ChangeEvent>)
    ensures Ordered(SortByPosition(changes)) && multiset(SortByPosition(changes)) == multiset(changes)
  {
    if changes != [] {
      var front, last := changes[..|changes| - 1], changes[|changes| - 1];
      SortIsSorted(front);
      InsertKeepsOrder(SortByPosition(front), last);
      InsertAddsOne(SortByPosition(front), last);
      FrontAndLast(changes);
    }
  }

  lemma {:induction false} SameLast(a: seq<ChangeEvent>, b: seq<ChangeEvent>)
    requires a != [] && b != [] && Ordered(a) && Increasing(b) && multiset(a) == multiset(b)
    ensures a[|a| - 1] == b[|b| - 1]
  {
    var x, y := a[|a| - 1], b[|b| - 1];
    assert x in multiset(b) && y in multiset(a);
    LastOrBefore(a, y);
    LastOrBefore(b, x);
  }

  lemma {:induction false} LastOrBefore(s: seq<ChangeEvent>, x: ChangeEvent)
    requires x in s
    ensures x == s[|s| - 1] || x in s[..|s| - 1]
  {
    FrontAndLast(s);
  }

  /** An ordered arrangement of a strictly increasing list is that list. */
  lemma {:induction false} OrderIsUnique(a: seq<ChangeEvent>, b: seq<ChangeEvent>)
    requires Ordered(a) && Increasing(b) && multiset(a) == multiset(b)
    ensures a == b
  {
    assert |a| == |multiset(a)| == |multiset(b)| == |b|;
    if a != [] {
      SameLast(a, b);
      var front, front', last := a[..|a| - 1], b[..|b| - 1], a[|a| - 1];
      FrontAndLast(a);
      FrontAndLast(b);
      assert multiset(front) + multiset{last} == multiset(front') + multiset{last};
      assert multiset(front) == multiset(front') by {
        assert multiset(front) + multiset{last} - multiset{last} == multiset(front);
      }
      OrderIsUnique(front, front');
    }
  }

  /** The changes of a history, whatever their position. */
  function Changes(records: seq<HistoryRecord>): seq<ChangeEvent> {
    if records == [] then []
    else
      var front, last := Changes(records[..|records| - 1]), records[|records| - 1];
      if last.Observed? then front + [last.change] else front
  }

  lemma {:induction false} NewerCounts(records: seq<HistoryRecord>, position: int, change: ChangeEvent)
    ensures multiset(Newer(records, position))[change]
      == if change.cursor.position > position then multiset(Changes(records))[change] else 0
  {
    if records != [] {
      NewerCounts(records[..|records| - 1], position, change);
    }
  }

  /** The history of a poll shows these changes, in any order and among other records. */
  ghost predicate Shows(records: seq<HistoryRecord>, delivered: seq<ChangeEvent>) {
    multiset(Changes(records)) == multiset(delivered)
  }

  /** The changes beyond a position are those from the k-th on. */
  predicate SplitsAt(delivered: seq<ChangeEvent>, k: nat, position: int) {
    && k <= |delivered|
    && AtMost(delivered[..k], position)
    && forall change :: change in delivered[k..] ==> change.cursor.position > position
  }

  lemma {:induction false} CountInSuffix(delivered: seq<ChangeEvent>, k: nat, position: int, change: ChangeEvent)
    requires SplitsAt(delivered, k, position)
    ensures multiset(delivered[k..])[change]
      == if change.cursor.position > position then multiset(delivered)[change] else 0
  {
    assert delivered == delivered[..k] + delivered[k..];
    if change.cursor.position > position {
      assert change !in delivered[..k];
    } else {
      assert change !in delivered[k..];
    }
  }

  lemma {:induction false} IncreasingSuffix(delivered: seq<ChangeEvent>, k: nat)
    requires Increasing(delivered) && k <= |delivered|
    ensures Increasing(delivered[k..])
  {
    if k < |delivered| {
      var front, rest := delivered[..|delivered| - 1], delivered[k..];
      IncreasingSuffix(front, k);
      assert rest[..|rest| - 1] == front[k..];
      assert Below(front[k..], delivered[|delivered| - 1].cursor.position);
    }
  }

  lemma {:induction false} NewerThan(records: seq<HistoryRecord>, delivered: seq<ChangeEvent>, k: nat, position: int)
    requires Shows(records, delivered) && SplitsAt(delivered, k, position)
    ensures multiset(Newer(records, position)) == multiset(delivered[k..])
  {
    forall change: ChangeEvent ensures multiset(Newer(records, position))[change] == multiset(delivered[k..])[change] {
      NewerCounts(records, position, change);
      CountInSuffix(delivered, k, position, change);
    }
  }

  /** What a poll walks through: the delivered changes not yet accepted, in their own order. */
  lemma {:induction false} PollWalksTheRest(
      records: seq<HistoryRecord>, delivered: seq<ChangeEvent>, k: nat, position: int)
    requires Shows(records, delivered) && Increasing(delivered) && SplitsAt(delivered, k, position)
    ensures SortByPosition(Newer(records, position)) == delivered[k..]
  {
    NewerThan(records, delivered, k, position);
    SortIsSorted(Newer(records, position));
    IncreasingSuffix(delivered, k);
    OrderIsUnique(SortByPosition(Newer(records, position)), delivered[k..]);
  }

  // ----- Which deliveries the check accepts ------------------------------------------------------

  /** Each change names its predecessor's cursor and moves the position forward. */
  predicate Linked(start: Cursor, stream: seq<ChangeEvent>) {
    stream == [] ||
    (var front, last := stream[..|stream| - 1], stream[|stream| - 1];
     && Linked(start, front)
     && last.previous == CursorAfter(start, front)
     && last.cursor.position > last.previous.position)
  }

  function CursorAfter(start: Cursor, stream: seq<ChangeEvent>): Cursor {
    if stream == [] then start else stream[|stream| - 1].cursor
  }

  /** `delivered` is the stream with some changes left out, the others in order. */
  predicate InOrderSubset(delivered: seq<ChangeEvent>, stream: seq<ChangeEvent>) {
    if stream == [] then delivered == []
    else
      var front, last := stream[..|stream| - 1], stream[|stream| - 1];
      || InOrderSubset(delivered, front)
      || (delivered != [] && delivered[|delivered| - 1] == last && InOrderSubset(delivered[..|delivered| - 1], front))
  }

  lemma {:induction false} LinkedIncreases(start: Cursor, stream: seq<ChangeEvent>)
    requires Linked(start, stream)
    ensures Increasing(stream) && start.position <= CursorAfter(start, stream).position
    ensures AtMost(stream, CursorAfter(start, stream).position)
    ensures forall change :: change in stream ==> change.cursor.position > start.position
  {
    if stream != [] {
      LinkedIncreases(start, stream[..|stream| - 1]);
      FrontAndLast(stream);
    }
  }

  lemma {:induction false} SubsetIncreases(delivered: seq<ChangeEvent>, stream: seq<ChangeEvent>)
    requires InOrderSubset(delivered, stream) && Increasing(stream)
    ensures Increasing(delivered) && forall change :: change in delivered ==> change in stream
  {
    if stream != [] {
      var front := stream[..|stream| - 1];
      if InOrderSubset(delivered, front) {
        SubsetIncreases(delivered, front);
      } else {
        SubsetIncreases(delivered[..|delivered| - 1], front);
        FrontAndLast(delivered);
      }
    }
  }

  lemma {:induction false} LinkAt(start: Cursor, stream: seq<ChangeEvent>, j: nat)
    requires Linked(start, stream) && j < |stream|
    ensures stream[j].previous == CursorAfter(start, stream[..j])
    ensures Linked(start, stream[..j])
  {
    var front := stream[..|stream| - 1];
    if j < |front| {
      LinkAt(start, front, j);
      assert front[..j] == stream[..j];
    } else {
      assert stream[..j] == front;
    }
  }

  lemma {:induction false} LaterCursor(start: Cursor, stream: seq<ChangeEvent>, i: nat, j: nat)
    requires Linked(start, stream) && i < j <= |stream|
    ensures CursorAfter(start, stream[..i]).position < CursorAfter(start, stream[..j]).position
  {
    StepForward(start, stream, j - 1);
    if i < j - 1 {
      LaterCursor(start, stream, i, j - 1);
    }
  }

  lemma {:induction false} StepForward(start: Cursor, stream: seq<ChangeEvent>, j: nat)
    requires Linked(start, stream) && j < |stream|
    ensures stream[j].cursor.position > CursorAfter(start, stream[..j]).position
  {
    var front := stream[..|stream| - 1];
    if j < |front| {
      StepForward(start, front, j);
      assert front[..j] == stream[..j];
    } else {
      assert stream[..j] == front;
    }
  }

  /** Among the changes of a linked stream, only the next one names the current cursor. */
  lemma {:induction false} OnlyNextContinues(start: Cursor, stream: seq<ChangeEvent>, m: nat, change: ChangeEvent)
    requires Linked(start, stream) && m <= |stream| && change in stream
    ensures change.previous == CursorAfter(start, stream[..m]) <==> m < |stream| && change == stream[m]
  {
    var j :| 0 <= j < |stream| && stream[j] == change;
    LinkAt(start, stream, j);
    if m < |stream| {
      LinkAt(start, stream, m);
    }
    if j < m {
      LaterCursor(start, stream, j, m);
    }
    if m < j {
      LaterCursor(start, stream, m, j);
    }
  }

  /** Where the check stands: it has accepted the first m of the seen changes, which are the stream's own first m. */
  predicate Standing(
      start: Cursor, stream: seq<ChangeEvent>, seen: seq<ChangeEvent>, m: nat, state: (Cursor, Outcome))
  {
    && m <= |seen| && seen[..m] <= stream
    && state.0 == CursorAfter(start, seen[..m])
    && (state.1.Waiting? ==> m == |seen|)
    && (state.1.Found? ==> m > 0 && state.1.change == seen[m - 1])
    && (state.1.Broken? ==> m < |seen| && state.1.change == seen[m] && !(seen[..m + 1] <= stream))
  }

  lemma {:induction false} AcceptOneMore(
      start: Cursor, stream: seq<ChangeEvent>, seen: seq<ChangeEvent>, cursor: Cursor, matches: Matcher)
    requires Linked(start, stream) && seen != [] && seen[|seen| - 1] in stream
    requires Standing(start, stream, seen[..|seen| - 1], |seen| - 1, (cursor, Waiting))
    ensures var state := Accept((cursor, Waiting), seen[|seen| - 1], matches);
      Standing(start, stream, seen, if state.1.Broken? then |seen| - 1 else |seen|, state)
  {
    var k := |seen| - 1;
    assert seen[..k][..k] == seen[..k] && seen[..|seen|] == seen;
    assert seen[..k] == stream[..k];
    OnlyNextContinues(start, stream, k, seen[k]);
    assert seen == seen[..k] + [seen[k]];
    assert k < |stream| ==> stream[..k + 1] == stream[..k] + [stream[k]];
  }

  /** Walking the changes of a history after the first k. */
  lemma {:induction false} WalkStands(
      start: Cursor, stream: seq<ChangeEvent>, seen: seq<ChangeEvent>, k: nat, matches: Matcher)
      returns (m: nat)
    requires Linked(start, stream) && k <= |seen| && seen[..k] <= stream
    requires forall change :: change in seen ==> change in stream
    ensures k <= m && Standing(start, stream, seen, m, Walk(CursorAfter(start, seen[..k]), seen[k..], matches))
  {
    if k == |seen| {
      assert seen[..k] == seen;
      return k;
    }
    var front, last := seen[..|seen| - 1], seen[|seen| - 1];
    assert front[..k] == seen[..k] && seen[k..] == front[k..] + [last];
    m := WalkStands(start, stream, front, k, matches);
    var before := Walk(CursorAfter(start, seen[..k]), front[k..], matches);
    SnocFront(front[k..], last);
    m := StandsNext(start, stream, seen, m, before, matches);
  }

  lemma {:induction false} StandsNext(
      start: Cursor, stream: seq<ChangeEvent>, seen: seq<ChangeEvent>, m: nat, before: (Cursor, Outcome),
      matches: Matcher)
      returns (m': nat)
    requires Linked(start, stream) && seen != [] && seen[|seen| - 1] in stream
    requires Standing(start, stream, seen[..|seen| - 1], m, before)
    ensures m <= m' && Standing(start, stream, seen, m', Accept(before, seen[|seen| - 1], matches))
  {
    if before.1.Waiting? {
      AcceptOneMore(start, stream, seen, before.0, matches);
      m' := if Accept(before, seen[|seen| - 1], matches).1.Broken? then |seen| - 1 else |seen|;
    } else {
      StillStanding(start, stream, seen, m, before);
      m' := m;
    }
  }

  lemma {:induction false} StillStanding(
      start: Cursor, stream: seq<ChangeEvent>, seen: seq<ChangeEvent>, m: nat, state: (Cursor, Outcome))
    requires seen != [] && Standing(start, stream, seen[..|seen| - 1], m, state) && !state.1.Waiting?
    ensures Standing(start, stream, seen, m, state)
  {
    var front := seen[..|seen| - 1];
    assert front[..m] == seen[..m];
    assert m < |front| ==> front[..m + 1] == seen[..m + 1];
  }

  // ----- Any number of polls ---------------------------------------------------------------------

  /** A run of polls, a match ending one `receive` and starting the next. */
  function RunPolls(start: Cursor, polls: seq<(seq<HistoryRecord>, Matcher)>): (Cursor, Outcome) {
    if polls == [] then (start, Waiting)
    else
      var before, last := RunPolls(start, polls[..|polls| - 1]), polls[|polls| - 1];
      if before.1.Broken? then before else Poll(before.0, last.0, last.1)
  }

  /** The polls show longer and longer beginnings of an in-order subset of the stream. */
  ghost predicate Observes(
      polls: seq<(seq<HistoryRecord>, Matcher)>, seens: seq<seq<ChangeEvent>>, stream: seq<ChangeEvent>)
  {
    && |seens| == |polls|
    && (polls == [] ||
        (var front, last := seens[..|seens| - 1], seens[|seens| - 1];
         && Observes(polls[..|polls| - 1], front, stream)
         && InOrderSubset(last, stream)
         && Shows(polls[|polls| - 1].0, last)
         && (front == [] || front[|front| - 1] <= last)))
  }

  function LastSeen(seens: seq<seq<ChangeEvent>>): seq<ChangeEvent> {
    if seens == [] then [] else seens[|seens| - 1]
  }

  lemma {:induction false} PrefixOfSubset(seen: seq<ChangeEvent>, stream: seq<ChangeEvent>, m: nat)
    requires Increasing(seen) && m <= |seen|
    ensures Increasing(seen[..m])
  {
    if m < |seen| {
      PrefixOfSubset(seen[..|seen| - 1], stream, m);
      assert seen[..|seen| - 1][..m] == seen[..m];
    } else {
      assert seen[..m] == seen;
    }
  }

  lemma {:induction false} BeyondPrefix(seen: seq<ChangeEvent>, m: nat, i: nat)
    requires Increasing(seen) && m <= i < |seen| && m > 0
    ensures seen[i].cursor.position > seen[m - 1].cursor.position
  {
    var front := seen[..|seen| - 1];
    if i < |front| {
      BeyondPrefix(front, m, i);
    } else {
      assert front[m - 1] in front;
    }
  }

  lemma {:induction false} AcceptedSplits(start: Cursor, stream: seq<ChangeEvent>, seen: seq<ChangeEvent>, m: nat)
    requires Linked(start, stream) && Increasing(seen) && m <= |seen| && seen[..m] <= stream
    requires forall change :: change in seen ==> change in stream
    ensures SplitsAt(seen, m, CursorAfter(start, seen[..m]).position)
  {
    LinkedIncreases(start, stream);
    if m > 0 {
      assert seen[..m] == stream[..m];
      if m < |stream| {
        LinkAt(start, stream, m);
      } else {
        assert stream[..m] == stream;
      }
      LinkedIncreases(start, stream[..m]);
      forall change | change in seen[m..] ensures change.cursor.position > seen[m - 1].cursor.position {
        var i :| 0 <= i < |seen[m..]| && seen[m..][i] == change;
        BeyondPrefix(seen, m, m + i);
      }
    }
  }

  /** One poll from where the check stands. */
  lemma {:induction false} PollStands(
      start: Cursor, stream: seq<ChangeEvent>, before: seq<ChangeEvent>, m: nat, state: (Cursor, Outcome),
      seen: seq<ChangeEvent>, records: seq<HistoryRecord>, matches: Matcher)
      returns (m': nat)
    requires Linked(start, stream) && Standing(start, stream, before, m, state) && before <= seen
    requires InOrderSubset(seen, stream) && Shows(records, seen)
    ensures Standing(start, stream, seen, m', Poll(state.0, records, matches))
  {
    LinkedIncreases(start, stream);
    SubsetIncreases(seen, stream);
    assert seen[..m] == before[..m];
    AcceptedSplits(start, stream, seen, m);
    PollWalksTheRest(records, seen, m, state.0.position);
    m' := WalkStands(start, stream, seen, m, matches);
  }

  lemma {:induction false} LastSeenGrows(
      polls: seq<(seq<HistoryRecord>, Matcher)>, seens: seq<seq<ChangeEvent>>, stream: seq<ChangeEvent>)
    requires Observes(polls, seens, stream) && polls != []
    ensures var n := |polls| - 1;
      && |seens| == |polls| && Observes(polls[..n], seens[..n], stream)
      && LastSeen(seens[..n]) <= seens[n] == LastSeen(seens)
      && InOrderSubset(seens[n], stream) && Shows(polls[n].0, seens[n])
  {
  }

  /** After any run of polls the accepted changes are the stream's own beginning, and a break means a gap. */
  lemma {:induction false} RunStands(
      start: Cursor, stream: seq<ChangeEvent>, polls: seq<(seq<HistoryRecord>, Matcher)>, seens: seq<seq<ChangeEvent>>)
      returns (m: nat)
    requires Linked(start, stream) && Observes(polls, seens, stream)
    ensures var state := RunPolls(start, polls);
      if state.1.Broken? then !(LastSeen(seens) <= stream)
      else Standing(start, stream, LastSeen(seens), m, state)
  {
    m := 0;
    if polls != [] {
      var n := |polls| - 1;
      var front := seens[..n];
      m := RunStands(start, stream, polls[..n], front);
      LastSeenGrows(polls, seens, stream);
      if !RunPolls(start, polls[..n]).1.Broken? {
        m := PollStands(
          start, stream, LastSeen(front), m, RunPolls(start, polls[..n]), seens[n], polls[n].0, polls[n].1);
      }
    }
  }

  /**
   Split over any number of polls, a poll that matches nothing accepts exactly when what has been
   delivered so far is a gap-free beginning of the stream.
   */
  lemma {:induction false} AcceptsExactlyGapFree(
      start: Cursor, stream: seq<ChangeEvent>, polls: seq<(seq<HistoryRecord>, Matcher)>, seens: seq<seq<ChangeEvent>>)
    requires Linked(start, stream) && Observes(polls, seens, stream)
    ensures var (cursor, outcome) := RunPolls(start, polls);
      && (LastSeen(seens) <= stream ==> !outcome.Broken?)
      && (outcome.Waiting? ==> LastSeen(seens) <= stream && cursor == CursorAfter(start, LastSeen(seens)))
      && (!outcome.Found? ==> (outcome.Waiting? <==> LastSeen(seens) <= stream))
  {
    var seen := LastSeen(seens);
    var m := RunStands(start, stream, polls, seens);
    assert seen[..|seen|] == seen;
    if seen <= stream && m < |seen| {
      assert seen[..m + 1] <= stream;
    }
  }

  // ----- What one `receive` tells ------------------------------------------------------------------

  /** Each change names the cursor of the one before it, the first one the cursor given. */
  predicate Chained(cursor: Cursor, changes: seq<ChangeEvent>) {
    forall i :: 0 <= i < |changes| ==> changes[i].previous == CursorBefore(cursor, changes, i)
  }

  function CursorBefore(cursor: Cursor, changes: seq<ChangeEvent>, i: nat): Cursor
    requires i < |changes|
  {
    if i == 0 then cursor else changes[i - 1].cursor
  }

  lemma {:induction false} ChainsJoin(cursor: Cursor, a: seq<ChangeEvent>, b: seq<ChangeEvent>)
    requires Chained(cursor, a) && Chained(CursorAfter(cursor, a), b)
    ensures Chained(cursor, a + b)
  {
    forall i | 0 <= i < |a + b| ensures (a + b)[i].previous == CursorBefore(cursor, a + b, i) {
      if i < |a| {
        assert a[i].previous == CursorBefore(cursor, a, i);
      } else {
        assert b[i - |a|].previous == CursorBefore(CursorAfter(cursor, a), b, i - |a|);
      }
    }
  }

  predicate NoneMatches(changes: seq<ChangeEvent>, matches: Matcher) {
    forall i :: 0 <= i < |changes| ==> !matches(changes[i])
  }

  /**
   What an outcome says of the accepted changes: they are chained, the cursor is that of the last one,
   a found change is the last one and the only match, and a break is a change that names another cursor.
   */
  ghost predicate Tells(
      cursor: Cursor, accepted: seq<ChangeEvent>, after: Cursor, outcome: Outcome, matches: Matcher)
  {
    && Chained(cursor, accepted)
    && after == (if accepted == [] then cursor else accepted[|accepted| - 1].cursor)
    && (outcome.Found? ==>
          && accepted != [] && outcome.change == accepted[|accepted| - 1] && matches(outcome.change)
          && NoneMatches(accepted[..|accepted| - 1], matches))
    && (!outcome.Found? ==> NoneMatches(accepted, matches))
    && (outcome.Broken? ==> outcome.change.previous != after)
  }

  lemma {:induction false} TellsOfBoth(
      cursor: Cursor, a: seq<ChangeEvent>, middle: Cursor, b: seq<ChangeEvent>, after: Cursor, outcome: Outcome,
      matches: Matcher)
    requires Tells(cursor, a, middle, Waiting, matches) && Tells(middle, b, after, outcome, matches)
    ensures Tells(cursor, a + b, after, outcome, matches)
  {
    hide Chained, NoneMatches;
    ChainsJoin(cursor, a, b);
    NoneOfBoth(a, b, matches);
    if b == [] {
      AddNothing(a);
    } else {
      var last := b[|b| - 1];
      NoneOfBoth(a, b[..|b| - 1], matches);
      assert (a + b)[|a + b| - 1] == last && (a + b)[..|a + b| - 1] == a + b[..|b| - 1];
    }
  }

  lemma {:induction false} NoneOfBoth(a: seq<ChangeEvent>, b: seq<ChangeEvent>, matches: Matcher)
    requires NoneMatches(a, matches)
    ensures NoneMatches(b, matches) ==> NoneMatches(a + b, matches)
  {
    if NoneMatches(b, matches) {
      forall i | 0 <= i < |a + b| ensures !matches((a + b)[i]) {
        if i >= |a| {
          assert (a + b)[i] == b[i - |a|];
        }
      }
    }
  }

  lemma {:induction false} AcceptTells(cursor: Cursor, change: ChangeEvent, matches: Matcher)
    ensures var (after, outcome) := Accept((cursor, Waiting), change, matches);
      Tells(cursor, if outcome.Broken? then [] else [change], after, outcome, matches)
  {
  }

  lemma {:induction false} WalkTells(cursor: Cursor, changes: seq<ChangeEvent>, matches: Matcher) returns (n: nat)
    ensures n <= |changes|
    ensures var (after, outcome) := Walk(cursor, changes, matches);
      && Tells(cursor, changes[..n], after, outcome, matches)
      && (outcome.Waiting? ==> n == |changes|)
      && (outcome.Broken? ==> n < |changes| && outcome.change == changes[n])
  {
    n := 0;
    if changes != [] {
      var front := changes[..|changes| - 1];
      n := WalkTells(cursor, front, matches);
      assert front[..n] == changes[..n];
      var before, last := Walk(cursor, front, matches), changes[|changes| - 1];
      if before.1.Waiting? {
        var (after, outcome) := Accept(before, last, matches);
        AcceptTells(before.0, last, matches);
        assert front[..n] == front;
        TellsOfBoth(cursor, front, before.0, if outcome.Broken? then [] else [last], after, outcome, matches);
        n := if outcome.Broken? then n else |changes|;
        assert changes[..n] == front + if outcome.Broken? then [] else [last];
      }
    }
  }

  lemma {:induction false} NewerAreObserved(records: seq<HistoryRecord>, position: int, change: ChangeEvent)
    ensures change in Newer(records, position) <==> Observed(change) in records && change.cursor.position > position
  {
    if records != [] {
      var front, last := records[..|records| - 1], records[|records| - 1];
      NewerAreObserved(front, position, change);
      assert records == front + [last];
    }
  }

  lemma {:induction false} SortedAreObserved(records: seq<HistoryRecord>, position: int, change: ChangeEvent)
    ensures change in SortByPosition(Newer(records, position))
      <==> Observed(change) in records && change.cursor.position > position
  {
    var newer := Newer(records, position);
    SortIsSorted(newer);
    NewerAreObserved(records, position, change);
    assert change in SortByPosition(newer) <==> change in multiset(newer);
  }

  predicate IsObserved(change: ChangeEvent, records: seq<HistoryRecord>) {
    Observed(change) in records
  }

  /** A poll that neither matched nor broke took every observed change beyond the cursor it started from. */
  ghost predicate TakesAll(cursor: Cursor, accepted: seq<ChangeEvent>, records: seq<HistoryRecord>) {
    forall change :: IsObserved(change, records) && change.cursor.position > cursor.position ==> change in accepted
  }

  /** One poll, told by the changes it accepted. */
  lemma {:induction false} PollTells(cursor: Cursor, records: seq<HistoryRecord>, matches: Matcher)
      returns (accepted: seq<ChangeEvent>)
    ensures var (after, outcome) := Poll(cursor, records, matches);
      && Tells(cursor, accepted, after, outcome, matches)
      && (forall change :: change in accepted ==> IsObserved(change, records))
      && (outcome.Waiting? ==> TakesAll(cursor, accepted, records))
      && (outcome.Broken? ==> IsObserved(outcome.change, records))
      && (outcome.Broken? ==> outcome.change.cursor.position > cursor.position)
  {
    var changes := SortByPosition(Newer(records, cursor.position));
    var n := WalkTells(cursor, changes, matches);
    accepted := changes[..n];
    forall change ensures change in changes
      <==> IsObserved(change, records) && change.cursor.position > cursor.position
    {
      SortedAreObserved(records, cursor.position, change);
    }
    assert changes[..|changes|] == changes;
  }

  predicate SeenIn(change: ChangeEvent, polls: seq<seq<HistoryRecord>>) {
    exists i :: 0 <= i < |polls| && IsObserved(change, polls[i])
  }

  /** The poll started after some of the accepted changes and took everything beyond them. */
  ghost predicate TakenFrom(cursor: Cursor, accepted: seq<ChangeEvent>, records: seq<HistoryRecord>) {
    exists k :: 0 <= k <= |accepted| && TakesAll(CursorAfter(cursor, accepted[..k]), accepted[k..], records)
  }

  lemma {:induction false} StillTaken(
      cursor: Cursor, accepted: seq<ChangeEvent>, more: seq<ChangeEvent>, records: seq<HistoryRecord>)
    requires TakenFrom(cursor, accepted, records)
    ensures TakenFrom(cursor, accepted + more, records)
  {
    var k :| 0 <= k <= |accepted| && TakesAll(CursorAfter(cursor, accepted[..k]), accepted[k..], records);
    assert (accepted + more)[..k] == accepted[..k] && (accepted + more)[k..] == accepted[k..] + more;
  }

  /** The accepted and the breaking changes were observed, and waiting means that no poll was left unread. */
  ghost predicate ReadsAll(
      cursor: Cursor, accepted: seq<ChangeEvent>, outcome: Outcome, polls: seq<seq<HistoryRecord>>)
  {
    && (forall change :: change in accepted ==> SeenIn(change, polls))
    && (outcome.Waiting? ==> forall i :: 0 <= i < |polls| ==> TakenFrom(cursor, accepted, polls[i]))
    && (outcome.Broken? ==> SeenIn(outcome.change, polls))
  }

  lemma {:induction false} ReadsOneMore(
      cursor: Cursor, accepted: seq<ChangeEvent>, polls: seq<seq<HistoryRecord>>, more: seq<ChangeEvent>,
      records: seq<HistoryRecord>, outcome: Outcome)
    requires ReadsAll(cursor, accepted, Waiting, polls)
    requires forall change :: change in more ==> IsObserved(change, records)
    requires outcome.Waiting? ==> TakesAll(CursorAfter(cursor, accepted), more, records)
    requires outcome.Broken? ==> IsObserved(outcome.change, records)
    ensures ReadsAll(cursor, accepted + more, outcome, polls + [records])
  {
    var all, longer := accepted + more, polls + [records];
    assert longer[|polls|] == records;
    forall change | SeenIn(change, polls) ensures SeenIn(change, longer) {
      var i :| 0 <= i < |polls| && IsObserved(change, polls[i]);
      assert longer[i] == polls[i];
    }
    forall change | IsObserved(change, records) ensures SeenIn(change, longer) {
    }
    if outcome.Waiting? {
      forall i | 0 <= i < |longer| ensures TakenFrom(cursor, all, longer[i]) {
        if i < |polls| {
          StillTaken(cursor, accepted, more, polls[i]);
        } else {
          assert all[..|accepted|] == accepted && all[|accepted|..] == more;
        }
      }
    }
  }

  /**
   `receive` over its polls: a found change is the first match among the accepted ones, a broken chain
   is an observed change that does not continue from the last accepted one, and waiting until the
   deadline means that every poll's new changes were accepted and none of them matched.
   */
  lemma {:induction false} ReceiveTells(cursor: Cursor, polls: seq<seq<HistoryRecord>>, matches: Matcher)
      returns (accepted: seq<ChangeEvent>)
    ensures var (after, outcome) := Received(cursor, polls, matches);
      Tells(cursor, accepted, after, outcome, matches) && ReadsAll(cursor, accepted, outcome, polls)
  {
    hide Poll, TakesAll, TakenFrom;
    accepted := [];
    if polls != [] {
      var front, last := polls[..|polls| - 1], polls[|polls| - 1];
      var before := Received(cursor, front, matches);
      accepted := ReceiveTells(cursor, front, matches);
      assert polls == front + [last];
      if before.1.Waiting? {
        var more := PollTells(before.0, last, matches);
        var (after, outcome) := Poll(before.0, last, matches);
        TellsOfBoth(cursor, accepted, before.0, more, after, outcome, matches);
        ReadsOneMore(cursor, accepted, front, more, last, outcome);
        accepted := accepted + more;
      } else {
        ReadsStay(cursor, accepted, before.1, front, last);
      }
    }
  }

  lemma {:induction false} ReadsStay(
      cursor: Cursor, accepted: seq<ChangeEvent>, outcome: Outcome, polls: seq<seq<HistoryRecord>>,
      records: seq<HistoryRecord>)
    requires ReadsAll(cursor, accepted, outcome, polls) && !outcome.Waiting?
    ensures ReadsAll(cursor, accepted, outcome, polls + [records])
  {
    var longer := polls + [records];
    forall change | SeenIn(change, polls) ensures SeenIn(change, longer) {
      var i :| 0 <= i < |polls| && IsObserved(change, polls[i]);
      assert longer[i] == polls[i];
    }
  }

  // ----- A dropped change ------------------------------------------------------------------------

  /** The stream without its change number f. */
  function Without(stream: seq<ChangeEvent>, f: nat): seq<ChangeEvent>
    requires f < |stream|
  {
    stream[..f] + stream[f + 1..]
  }

  /** With one change dropped, what is delivered stays gap-free exactly until the change after it. */
  lemma {:induction false} DropShowsAtNextChange(start: Cursor, stream: seq<ChangeEvent>, f: nat, n: nat)
    requires Linked(start, stream) && f < |stream| && n < |stream|
    ensures Without(stream, f)[..n] <= stream <==> n <= f
  {
    var delivered := Without(stream, f);
    if n <= f {
      assert delivered[..n] == stream[..n];
    } else {
      assert delivered[..n][f] == stream[f + 1];
      StepForward(start, stream, f + 1);
      LinkAt(start, stream, f + 1);
      assert stream[..f + 1][|stream[..f + 1]| - 1] == stream[f];
    }
  }

  /** The change events of a list of lines. */
  function Events(parse: Parser, decode: Bytes -> ChangeEvent, lines: seq<Bytes>): seq<ChangeEvent> {
    if lines == [] then []
    else
      Events(parse, decode, lines[..|lines| - 1])
      + if IsChange(KindOf(parse, lines[|lines| - 1])) then [decode(lines[|lines| - 1])] else []
  }

  lemma {:induction false} EventsAppend(parse: Parser, decode: Bytes -> ChangeEvent, a: seq<Bytes>, b: seq<Bytes>)
    ensures Events(parse, decode, a + b) == Events(parse, decode, a) + Events(parse, decode, b)
  {
    if b == [] {
      AddNothing(a);
      AddNothing(Events(parse, decode, a));
    } else {
      var front := b[..|b| - 1];
      EventsAppend(parse, decode, a, front);
      assert (a + b)[..|a + b| - 1] == a + front;
      Associate(Events(parse, decode, a), Events(parse, decode, front),
        Events(parse, decode, b)[|Events(parse, decode, front)|..]);
    }
  }

  lemma {:induction false} NoEvents(parse: Parser, decode: Bytes -> ChangeEvent, lines: seq<Bytes>, f: nat)
    requires f <= |lines| && forall i :: 0 <= i < f ==> !IsChange(KindOf(parse, lines[i]))
    ensures Events(parse, decode, lines[..f]) == []
  {
    if f > 0 {
      assert lines[..f][..f - 1] == lines[..f - 1];
      NoEvents(parse, decode, lines, f - 1);
    }
  }

  /** What dropNextChange leaves of the change events: all but the first. */
  lemma {:induction false} RelayDropsFirstEvent(parse: Parser, decode: Bytes -> ChangeEvent, lines: seq<Bytes>, f: nat)
    requires FirstChangeAt(parse, lines, f) && HasCursor(KindOf(parse, lines[f]))
    ensures Events(parse, decode, lines) != []
    ensures Events(parse, decode, Kept(parse, lines)) == Without(Events(parse, decode, lines), 0)
  {
    DropRemovesFirstChange(parse, lines, f);
    NoEvents(parse, decode, lines, f);
    assert lines == lines[..f] + [lines[f]] + lines[f + 1..];
    EventsAppend(parse, decode, lines[..f] + [lines[f]], lines[f + 1..]);
    EventsAppend(parse, decode, lines[..f], [lines[f]]);
    EventsAppend(parse, decode, lines[..f], lines[f + 1..]);
    assert [lines[f]][..0] == [];
  }

  /**
   The relay's dropped change is always caught: as soon as any later change has been observed, the
   check has failed, whatever the polls looked for.
   */
  lemma {:induction false} DroppedChangeIsCaught(
      parse: Parser, decode: Bytes -> ChangeEvent, lines: seq<Bytes>, f: nat, start: Cursor,
      polls: seq<(seq<HistoryRecord>, Matcher)>, seens: seq<seq<ChangeEvent>>)
    requires FirstChangeAt(parse, lines, f) && HasCursor(KindOf(parse, lines[f]))
    requires Linked(start, Events(parse, decode, lines)) && Observes(polls, seens, Events(parse, decode, lines))
    requires LastSeen(seens) <= Events(parse, decode, Kept(parse, lines)) && LastSeen(seens) != []
    ensures RunPolls(start, polls).1.Broken?
  {
    var stream, seen := Events(parse, decode, lines), LastSeen(seens);
    RelayDropsFirstEvent(parse, decode, lines, f);
    DropShowsAtNextChange(start, stream, 0, 1);
    assert seen[..1] == Without(stream, 0)[..1];
    var m := RunStands(start, stream, polls, seens);
  }

  /**
   From the bytes on: whatever the chunks of the response, an observer that decodes what dropNextChange
   wrote has failed as soon as it has seen any change.
   */
  lemma {:induction false} DropIsCaughtFromBytes(
      parse: Parser, decode: Bytes -> ChangeEvent, chunks: seq<Bytes>, f: nat, start: Cursor,
      polls: seq<(seq<HistoryRecord>, Matcher)>, seens: seq<seq<ChangeEvent>>)
    requires Fits(parse, DropNextChange, FRESH, chunks)
    requires var lines := Lines(Join(chunks));
      && FirstChangeAt(parse, lines, f) && HasCursor(KindOf(parse, lines[f]))
      && Linked(start, Events(parse, decode, lines)) && Observes(polls, seens, Events(parse, decode, lines))
    requires var written := Feed(parse, DropNextChange, FRESH, chunks).flow.written;
      LastSeen(seens) <= Events(parse, decode, Lines(written)) && LastSeen(seens) != []
    ensures RunPolls(start, polls).1.Broken?
  {
    DropWritesKeptLines(parse, chunks);
    DroppedChangeIsCaught(parse, decode, Lines(Join(chunks)), f, start, polls, seens);
  }
}
