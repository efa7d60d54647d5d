/**
 The session and stream ledger of the event-watch relay (bdd/lib/hub-event-watch-relay.ts): what its
 event handlers count, in any order the events come, late ones included.
 */
module RelayLedger {
  import opened Common
  import opened RelayFraming

  const WATCH_LIMIT: nat := 8

  /** Live streams by live session; the numbers are handed out once and never reused. */
  type Connections = map<nat, set<nat>>

  datatype Ledger = Ledger(
    mode: Mode, closed: bool, nextConnection: nat, nextStream: nat, connections: Connections,
    sessionsOpened: nat, sessionsClosed: nat, streamsOpened: nat, streamsClosed: nat,
    matches: nat, watches: seq<Watch>, selectedStreams: map<nat, nat>)

  const START := Ledger(Mode.Pass, false, 1, 0, map[], 0, 0, 0, 0, 0, [], map[])

  datatype Event =
    | SessionOpened
    | RequestOpened(connection: nat, selected: bool)
    | DataArrived(watch: nat, chunk: Bytes)
    | WatchReset(watch: nat)
    | ModeSet(mode: Mode)
    | StreamClosed(connection: nat, stream: nat)
    | SessionClosed(connection: nat)
    | RelayClosed
    | ServerClosed

  /** The streams live in the sessions numbered below n. */
  function LiveStreams(connections: Connections, n: nat): nat {
    if n == 0 then 0
    else LiveStreams(connections, n - 1) + if n - 1 in connections then |connections[n - 1]| else 0
  }

  /** The sessions numbered below n that are live. */
  function LiveSessions(connections: Connections, n: nat): nat {
    if n == 0 then 0 else LiveSessions(connections, n - 1) + if n - 1 in connections then 1 else 0
  }

  /** A removed stream no longer backs a selected watch. */
  function Forget(selectedStreams: map<nat, nat>, stream: nat): map<nat, nat> {
    map watch | watch in selectedStreams && selectedStreams[watch] != stream :: selectedStreams[watch]
  }

  function Handle(parse: Parser, l: Ledger, event: Event): Ledger {
    match event
    case SessionOpened =>
      if l.closed then l
      else l.(connections := l.connections[l.nextConnection := {}],
              nextConnection := l.nextConnection + 1, sessionsOpened := l.sessionsOpened + 1)
    case RequestOpened(id, selected) =>
      if l.closed || id !in l.connections then l
      else
        var added := l.(connections := l.connections[id := l.connections[id] + {l.nextStream}],
                         nextStream := l.nextStream + 1, streamsOpened := l.streamsOpened + 1,
                         matches := l.matches + if selected then 1 else 0);
        if selected && |l.watches| < WATCH_LIMIT
        then added.(watches := l.watches + [FRESH], selectedStreams := l.selectedStreams[|l.watches| := l.nextStream])
        else added
    case DataArrived(watch, chunk) =>
      if watch < |l.watches| then l.(watches := l.watches[watch := Deliver(parse, l.mode, l.watches[watch], chunk)])
        else l
    case WatchReset(watch) =>
      if watch < |l.watches| then l.(watches := l.watches[watch := l.watches[watch].(reset := true)]) else l
    case ModeSet(mode) => l.(mode := mode)
    case StreamClosed(id, stream) =>
      var forgot := l.(selectedStreams := Forget(l.selectedStreams, stream));
      if id in l.connections && stream in l.connections[id]
      then
        forgot.(connections := l.connections[id := l.connections[id] - {stream}],
          streamsClosed := l.streamsClosed + 1)
      else forgot
    case SessionClosed(id) =>
      if id !in l.connections then l
      else l.(connections := l.connections - {id}, sessionsClosed := l.sessionsClosed + 1,
              streamsClosed := l.streamsClosed + |l.connections[id]|)
    case RelayClosed =>
      if l.closed then l
      else l.(closed := true, connections := map[],
              sessionsClosed := l.sessionsClosed + LiveSessions(l.connections, l.nextConnection),
              streamsClosed := l.streamsClosed + LiveStreams(l.connections, l.nextConnection))
    case ServerClosed =>
      if l.closed then l.(watches := [], selectedStreams := map[]) else l
  }

  function HandleAll(parse: Parser, events: seq<Event>): Ledger {
    if events == [] then START else Handle(parse, HandleAll(parse, events[..|events| - 1]), events[|events| - 1])
  }

  // ----- The books balance ---------------------------------------------------------------------

  predicate Numbered(l: Ledger) {
    forall id :: id in l.connections ==>
      id < l.nextConnection && forall stream :: stream in l.connections[id] ==> stream < l.nextStream
  }

  /** Opened sessions and streams are the closed ones and the live ones. */
  predicate Balanced(l: Ledger) {
    && l.sessionsOpened == l.sessionsClosed + LiveSessions(l.connections, l.nextConnection)
    && l.streamsOpened == l.streamsClosed + LiveStreams(l.connections, l.nextConnection)
  }

  predicate Retains(l: Ledger) {
    |l.watches| <= WATCH_LIMIT && forall i :: 0 <= i < |l.watches| ==> RelayFraming.Bounded(l.watches[i])
  }

  predicate Valid(l: Ledger) {
    && Numbered(l) && Balanced(l) && Retains(l)
    && (l.closed ==> l.connections == map[])
  }

  lemma {:induction false} SumsOfUpdate(connections: Connections, id: nat, streams: set<nat>, n: nat)
    ensures LiveStreams(connections[id := streams], n)
      == LiveStreams(connections, n)
        + (if id < n then |streams| - (if id in connections then |connections[id]| else 0) else 0)
    ensures LiveSessions(connections[id := streams], n)
      == LiveSessions(connections, n) + (if id < n && id !in connections then 1 else 0)
  {
    if n > 0 {
      SumsOfUpdate(connections, id, streams, n - 1);
    }
  }

  lemma {:induction false} SumsOfRemoval(connections: Connections, id: nat, n: nat)
    requires id in connections
    ensures LiveStreams(connections - {id}, n)
      == LiveStreams(connections, n) - (if id < n then |connections[id]| else 0)
    ensures LiveSessions(connections - {id}, n) == LiveSessions(connections, n) - (if id < n then 1 else 0)
  {
    if n > 0 {
      SumsOfRemoval(connections, id, n - 1);
    }
  }

  lemma {:induction false} SumsOfNothing(n: nat)
    ensures LiveStreams(map[], n) == 0 && LiveSessions(map[], n) == 0
  {
    if n > 0 {
      SumsOfNothing(n - 1);
    }
  }

  /** The live sessions counted one by one are the size of the map. */
  lemma {:induction false} SessionsAreCounted(connections: Connections, n: nat)
    requires forall id :: id in connections.Keys ==> id < n
    ensures LiveSessions(connections, n) == |connections.Keys|
  {
    CountedKeys(connections, n, connections.Keys);
  }

  lemma {:induction false} CountedKeys(connections: Connections, n: nat, keys: set<nat>)
    requires forall id :: id in keys <==> id in connections.Keys && id < n
    ensures LiveSessions(connections, n) == |keys|
  {
    if n > 0 {
      var last := n - 1;
      CountedKeys(connections, last, keys - {last});
    } else {
      assert keys == {};
    }
  }

  lemma {:induction false} RequestKeepsBalance(parse: Parser, l: Ledger, id: nat, selected: bool)
    requires Numbered(l) && Balanced(l) && !l.closed && id in l.connections
    ensures Balanced(Handle(parse, l, RequestOpened(id, selected)))
  {
    var streams := l.connections[id] + {l.nextStream};
    assert l.nextStream !in l.connections[id];
    SumsOfUpdate(l.connections, id, streams, l.nextConnection);
  }

  lemma {:induction false} HandleKeepsBalance(parse: Parser, l: Ledger, event: Event)
    requires Numbered(l) && Balanced(l)
    ensures Balanced(Handle(parse, l, event))
  {
    hide Deliver;
    var n := l.nextConnection;
    match event {
      case SessionOpened =>
        SumsOfUpdate(l.connections, n, {}, n + 1);
      case RequestOpened(id, selected) =>
        if !l.closed && id in l.connections {
          RequestKeepsBalance(parse, l, id, selected);
        }
      case StreamClosed(id, stream) =>
        if id in l.connections {
          SumsOfUpdate(l.connections, id, l.connections[id] - {stream}, n);
        }
      case SessionClosed(id) =>
        if id in l.connections {
          SumsOfRemoval(l.connections, id, n);
        }
      case RelayClosed =>
        SumsOfNothing(n);
      case _ =>
    }
  }

  lemma {:induction false} HandleKeepsRetention(parse: Parser, l: Ledger, event: Event)
    requires Retains(l)
    ensures Retains(Handle(parse, l, event))
  {
    if event.DataArrived? && event.watch < |l.watches| {
      DeliverKeepsBounds(parse, l.mode, l.watches[event.watch], event.chunk);
    }
  }

  /** Every event, at any time, keeps the books balanced and the evidence bounded. */
  lemma {:induction false} HandleKeepsValid(parse: Parser, l: Ledger, event: Event)
    requires Valid(l)
    ensures Valid(Handle(parse, l, event))
  {
    HandleKeepsBalance(parse, l, event);
    HandleKeepsRetention(parse, l, event);
  }

  /** In every reachable state the ledger balances and retains at most 8 watches of 64 frames and 1 MiB. */
  lemma {:induction false} ReachableLedgersAreValid(parse: Parser, events: seq<Event>)
    ensures Valid(HandleAll(parse, events))
  {
    if events != [] {
      ReachableLedgersAreValid(parse, events[..|events| - 1]);
      HandleKeepsValid(parse, HandleAll(parse, events[..|events| - 1]), events[|events| - 1]);
    }
  }

  /** The numbers `snapshot()` reports: as many sessions opened as closed plus those in the map. */
  lemma {:induction false} ReportedSessionsBalance(parse: Parser, events: seq<Event>)
    ensures var l := HandleAll(parse, events); l.sessionsOpened == l.sessionsClosed + |l.connections.Keys|
  {
    ReachableLedgersAreValid(parse, events);
    SessionsAreCounted(HandleAll(parse, events).connections, HandleAll(parse, events).nextConnection);
  }

  // ----- Streams end once ------------------------------------------------------------------------

  predicate Live(l: Ledger, id: nat, stream: nat) {
    id in l.connections && stream in l.connections[id]
  }

  /** The events that end a stream. */
  predicate Ends(event: Event, id: nat, stream: nat) {
    event == StreamClosed(id, stream) || event == SessionClosed(id) || event == RelayClosed
  }

  lemma {:induction false} OneEventEnds(parse: Parser, l: Ledger, event: Event, id: nat, stream: nat)
    requires Valid(l)
    ensures Live(l, id, stream) ==> (Live(Handle(parse, l, event), id, stream) <==> !Ends(event, id, stream))
    ensures !Live(l, id, stream) && stream < l.nextStream && id < l.nextConnection ==>
      !Live(Handle(parse, l, event), id, stream)
    ensures l.nextStream <= Handle(parse, l, event).nextStream
      && l.nextConnection <= Handle(parse, l, event).nextConnection
  {
  }

  function HandleFrom(parse: Parser, l: Ledger, events: seq<Event>): Ledger {
    if events == [] then l else Handle(parse, HandleFrom(parse, l, events[..|events| - 1]), events[|events| - 1])
  }

  lemma {:induction false} HandleFromKeepsValid(parse: Parser, l: Ledger, events: seq<Event>)
    requires Valid(l)
    ensures Valid(HandleFrom(parse, l, events))
    ensures l.nextStream <= HandleFrom(parse, l, events).nextStream
    ensures l.nextConnection <= HandleFrom(parse, l, events).nextConnection
  {
    if events != [] {
      HandleFromKeepsValid(parse, l, events[..|events| - 1]);
      HandleKeepsValid(parse, HandleFrom(parse, l, events[..|events| - 1]), events[|events| - 1]);
      OneEventEnds(parse, HandleFrom(parse, l, events[..|events| - 1]), events[|events| - 1], 0, 0);
    }
  }

  predicate NoneEnds(events: seq<Event>, id: nat, stream: nat) {
    forall i :: 0 <= i < |events| ==> !Ends(events[i], id, stream)
  }

  /** Over any events, a live stream is live in the end exactly when none of them was one of its own closing events. */
  lemma {:induction false} StreamLivesUntilEnded(parse: Parser, l: Ledger, events: seq<Event>, id: nat, stream: nat)
    requires Valid(l) && Live(l, id, stream) && stream < l.nextStream && id < l.nextConnection
    ensures Live(HandleFrom(parse, l, events), id, stream) <==> NoneEnds(events, id, stream)
  {
    hide Handle, Valid, Ends;
    if events != [] {
      var front, last := events[..|events| - 1], events[|events| - 1];
      StreamLivesUntilEnded(parse, l, front, id, stream);
      HandleFromKeepsValid(parse, l, front);
      OneEventEnds(parse, HandleFrom(parse, l, front), last, id, stream);
    }
  }

  /** A stream that has ended never comes back, whatever events follow. */
  lemma {:induction false} EndedStreamsStayEnded(parse: Parser, l: Ledger, events: seq<Event>, id: nat, stream: nat)
    requires Valid(l) && !Live(l, id, stream) && stream < l.nextStream && id < l.nextConnection
    ensures !Live(HandleFrom(parse, l, events), id, stream)
  {
    if events != [] {
      var front := events[..|events| - 1];
      EndedStreamsStayEnded(parse, l, front, id, stream);
      HandleFromKeepsValid(parse, l, front);
      OneEventEnds(parse, HandleFrom(parse, l, front), events[|events| - 1], id, stream);
    }
  }

  predicate AfterClose(l: Ledger, later: Ledger) {
    && later.closed && later.connections == map[]
    && later.sessionsOpened == later.sessionsClosed == l.sessionsOpened
    && later.streamsOpened == later.streamsClosed == l.streamsOpened
  }

  /** Once the relay is closed no session or stream remains, whatever late events arrive. */
  lemma {:induction false} CloseIsFinal(parse: Parser, l: Ledger, late: seq<Event>)
    requires Valid(l)
    ensures AfterClose(l, HandleFrom(parse, Handle(parse, l, RelayClosed), late))
  {
    var closed := Handle(parse, l, RelayClosed);
    if late == [] {
      SumsOfNothing(l.nextConnection);
    } else {
      CloseIsFinal(parse, l, late[..|late| - 1]);
    }
  }

  // ----- What one event does, and what is counted over a run -----------------------------------------------

  /** A request that the relay takes: it is open, and so is the session. */
  predicate Takes(l: Ledger, event: Event) {
    event.RequestOpened? && !l.closed && event.connection in l.connections
  }

  /** Which sessions and streams live after an event, and what it opens. */
  lemma {:induction false} OneEventOpens(parse: Parser, l: Ledger, event: Event, id: nat, stream: nat)
    requires Valid(l)
    ensures var after := Handle(parse, l, event);
      && (id in after.connections
          <==> (id in l.connections && event != SessionClosed(id) && event != RelayClosed)
               || (event == SessionOpened && !l.closed && id == l.nextConnection))
      && (Live(after, id, stream)
          <==> (Live(l, id, stream) && event != StreamClosed(id, stream) && event != SessionClosed(id)
                && event != RelayClosed)
               || (Takes(l, event) && event.connection == id && stream == l.nextStream))
    ensures var after := Handle(parse, l, event);
      && after.sessionsOpened == l.sessionsOpened + (if event == SessionOpened && !l.closed then 1 else 0)
      && after.nextConnection == l.nextConnection + (if event == SessionOpened && !l.closed then 1 else 0)
      && after.streamsOpened == l.streamsOpened + (if Takes(l, event) then 1 else 0)
      && after.nextStream == l.nextStream + (if Takes(l, event) then 1 else 0)
      && (after.closed <==> l.closed || event == RelayClosed)
      && after.mode == if event.ModeSet? then event.mode else l.mode
  {
  }

  /** Which event changes the evidence, and how. */
  lemma {:induction false} OneEventObserves(parse: Parser, l: Ledger, event: Event, i: nat)
    ensures var after := Handle(parse, l, event);
      && (Takes(l, event) && event.selected && |l.watches| < 8 ==> after.watches == l.watches + [FRESH])
      && (!(Takes(l, event) && event.selected && |l.watches| < 8) && !(event == ServerClosed && l.closed) ==>
           |after.watches| == |l.watches|)
      && (event == ServerClosed && l.closed ==> after.watches == [])
    ensures var after := Handle(parse, l, event);
      i < |l.watches| && i < |after.watches| ==>
        after.watches[i] == match event
          case DataArrived(watch, chunk) =>
            if watch == i then Deliver(parse, l.mode, l.watches[i], chunk) else l.watches[i]
          case WatchReset(watch) => if watch == i then l.watches[i].(reset := true) else l.watches[i]
          case _ => l.watches[i]
  {
  }

  /** Which watches have a stream of their own after an event: a new one gets that of its request, a closed one goes. */
  lemma {:induction false} OneEventSelects(parse: Parser, l: Ledger, event: Event, i: nat)
    ensures var before, after := l.selectedStreams, Handle(parse, l, event).selectedStreams;
      if Takes(l, event) && event.selected && |l.watches| < 8 && i == |l.watches| then
        i in after && after[i] == l.nextStream
      else
        && (i in after <==>
              && i in before && !(event == ServerClosed && l.closed)
              && !(event.StreamClosed? && event.stream == before[i]))
        && (i in after ==> after[i] == before[i])
  {
  }

  /** Sessions are numbered from 1 and streams from 0, the mode is the last one set, and only closing closes. */
  lemma {:induction false} NumbersCountUp(parse: Parser, events: seq<Event>)
    ensures var l := HandleAll(parse, events);
      && l.nextConnection == l.sessionsOpened + 1 && l.nextStream == l.streamsOpened
      && (l.closed <==> RelayClosed in events) && l.mode == LastMode(events)
  {
    hide Handle, Valid, Live, Takes;
    if events != [] {
      var front, last := events[..|events| - 1], events[|events| - 1];
      NumbersCountUp(parse, front);
      ReachableLedgersAreValid(parse, front);
      OneEventOpens(parse, HandleAll(parse, front), last, 0, 0);
      FrontAndLast(events);
    }
  }

  function LastMode(events: seq<Event>): Mode {
    if events == [] then Mode.Pass
    else if events[|events| - 1].ModeSet? then events[|events| - 1].mode else LastMode(events[..|events| - 1])
  }

  /** The streams of the selected requests that were taken, in order. */
  function Selected(parse: Parser, events: seq<Event>): seq<nat> {
    if events == [] then []
    else
      var before, event := events[..|events| - 1], events[|events| - 1];
      var l := HandleAll(parse, before);
      Selected(parse, before) + if Takes(l, event) && event.selected then [l.nextStream] else []
  }

  predicate ServerStaysOpen(events: seq<Event>) {
    forall i :: 0 <= i < |events| ==> events[i] != ServerClosed
  }

  /**
   Over any events, the matches are the selected requests that were taken.  While the server stays open there is one
   watch for each of the first eight of them, in their order, and a watch that still has a stream has that of its
   request.
   */
  lemma {:induction false} SelectedRequestsAreWatched(parse: Parser, events: seq<Event>)
    ensures var l, selected := HandleAll(parse, events), Selected(parse, events);
      && l.matches == |selected|
      && (ServerStaysOpen(events) ==>
            && |l.watches| == (if |selected| <= 8 then |selected| else 8)
            && forall i: nat :: i in l.selectedStreams ==> i < |l.watches| && l.selectedStreams[i] == selected[i])
  {
    if events != [] {
      var front, event := events[..|events| - 1], events[|events| - 1];
      SelectedRequestsAreWatched(parse, front);
      OneEventObserves(parse, HandleAll(parse, front), event, 0);
      if ServerStaysOpen(events) {
        assert forall i :: 0 <= i < |front| ==> front[i] == events[i];
      }
    }
  }

  // ----- The relay -------------------------------------------------------------------------------

  class Relay {
    var mode: Mode
    var closed: bool
    var nextConnection: nat
    var nextStream: nat
    var connections: Connections
    var sessionsOpened: nat
    var sessionsClosed: nat
    var streamsOpened: nat
    var streamsClosed: nat
    var matches: nat
    var watches: seq<Watch>
    var selectedStreams: map<nat, nat>

    constructor ()
      ensures State() == START
    {
      mode, closed, nextConnection, nextStream, connections := Mode.Pass, false, 1, 0, map[];
      sessionsOpened, sessionsClosed, streamsOpened, streamsClosed := 0, 0, 0, 0;
      matches, watches, selectedStreams := 0, [], map[];
    }

    function State(): Ledger reads this {
      Ledger(mode, closed, nextConnection, nextStream, connections,
             sessionsOpened, sessionsClosed, streamsOpened, streamsClosed, matches, watches, selectedStreams)
    }

    method AttachSession(parse: Parser)
      modifies this
      ensures State() == Handle(parse, old(State()), SessionOpened)
    {
      if closed {
        return;
      }
      sessionsOpened := sessionsOpened + 1;
      connections := connections[nextConnection := {}];
      nextConnection := nextConnection + 1;
    }

    method ForwardRequest(parse: Parser, connection: nat, selected: bool)
      modifies this
      ensures State() == Handle(parse, old(State()), RequestOpened(connection, selected))
    {
      if connection !in connections || closed {
        return;
      }
      var stream := nextStream;
      nextStream := nextStream + 1;
      connections := connections[connection := connections[connection] + {stream}];
      streamsOpened := streamsOpened + 1;
      if selected {
        matches := matches + 1;
      }
      if selected && |watches| < WATCH_LIMIT {
        selectedStreams := selectedStreams[|watches| := stream];
        watches := watches + [FRESH];
      }
    }

    method CloseStream(parse: Parser, connection: nat, stream: nat)
      modifies this
      ensures State() == Handle(parse, old(State()), StreamClosed(connection, stream))
    {
      if connection in connections && stream in connections[connection] {
        connections := connections[connection := connections[connection] - {stream}];
        streamsClosed := streamsClosed + 1;
      }
      selectedStreams := Forget(selectedStreams, stream);
    }

    method CloseConnection(parse: Parser, connection: nat)
      modifies this
      ensures State() == Handle(parse, old(State()), SessionClosed(connection))
    {
      if connection !in connections {
        return;
      }
      streamsClosed := streamsClosed + |connections[connection]|;
      connections := connections - {connection};
      sessionsClosed := sessionsClosed + 1;
    }

    /** The stream count of `snapshot()`. */
    method ActiveStreams() returns (active: nat)
      ensures active == LiveStreams(connections, nextConnection)
    {
      active := 0;
      for id := 0 to nextConnection
        invariant active == LiveStreams(connections, id)
      {
        if id in connections {
          active := active + |connections[id]|;
        }
      }
    }

    /** `close()`, up to the point where it waits for the server. */
    method Close(parse: Parser)
      modifies this
      ensures State() == Handle(parse, old(State()), RelayClosed)
    {
      if closed {
        return;
      }
      closed := true;
      for id := 0 to nextConnection
        invariant streamsClosed == old(streamsClosed) + LiveStreams(connections, id)
        invariant sessionsClosed == old(sessionsClosed) + LiveSessions(connections, id)
        invariant State()
          == old(State()).(closed := true, streamsClosed := streamsClosed, sessionsClosed := sessionsClosed)
      {
        if id in connections {
          streamsClosed := streamsClosed + |connections[id]|;
          sessionsClosed := sessionsClosed + 1;
        }
      }
      connections := map[];
    }
  }
}
