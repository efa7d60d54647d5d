/**
 The host-wide run lock (acquireRunLock of bdd/lib/ownership.js). Each acquisition and release is one
 atomic step; processes start and crash at any point in between.
 */
module RunLock {

  /** The lock file: absent, readable with its owner's pid and token, or text that does not parse. */
  datatype Lock = Free | Held(pid: nat, token: nat) | Unreadable

  /** A handle that an acquisition returned and that has not been released. */
  datatype Handle = Handle(pid: nat, token: nat)

  datatype System = System(lock: Lock, alive: set<nat>, handles: set<Handle>)

  datatype Event =
    | Start(pid: nat)
    | Crash(pid: nat)
    | Acquire(pid: nat, token: nat)
    | Release(pid: nat, token: nat)

  /** A lock is stale unless it is readable and its pid is that of a live process. */
  predicate Stale(lock: Lock, alive: set<nat>) {
    !lock.Held? || lock.pid !in alive
  }

  predicate Succeeds(s: System, e: Event) {
    e.Acquire? && e.pid in s.alive && Stale(s.lock, s.alive)
  }

  /**
   A crash takes the process's handles with it and leaves the lock file; a dead process does nothing, and
   only a handle can be released.
   */
  function Step(s: System, e: Event): System {
    match e
    case Start(pid) => s.(alive := s.alive + {pid})
    case Crash(pid) =>
      System(s.lock, s.alive - {pid}, set h | h in s.handles && h.pid != pid)
    case Acquire(pid, token) =>
      if Succeeds(s, e) then System(Held(pid, token), s.alive, s.handles + {Handle(pid, token)}) else s
    case Release(pid, token) =>
      if pid !in s.alive || Handle(pid, token) !in s.handles then s
      else System(if s.lock == Held(pid, token) then Free else s.lock, s.alive, s.handles - {Handle(pid, token)})
  }

  function After(s: System, events: seq<Event>): System
    decreases |events|
  {
    if events == [] then s else After(Step(s, events[0]), events[1..])
  }

  class LockFile {
    var content: Lock

    /** Creates the file exclusively; an existing file is replaced only when it is stale. */
    method Acquire(pid: nat, token: nat, alive: set<nat>) returns (acquired: bool)
      requires pid in alive
      modifies this
      ensures acquired == Succeeds(System(old(content), alive, {}), Event.Acquire(pid, token))
      ensures forall handles: set<Handle> ::
        content == Step(System(old(content), alive, handles), Event.Acquire(pid, token)).lock
    {
      if content != Free {
        var stale := true;
        if content.Held? {
          stale := content.pid !in alive;
        }
        if !stale {
          return false;
        }
        content := Free;
      }
      content := Held(pid, token);
      return true;
    }

    method Release(pid: nat, token: nat, alive: set<nat>)
      requires pid in alive
      modifies this
      ensures forall handles: set<Handle> :: Handle(pid, token) in handles ==>
        content == Step(System(old(content), alive, handles), Event.Release(pid, token)).lock
      ensures old(content) != Held(pid, token) ==> content == old(content)
    {
      if content.Held? && content.token == token && content.pid == pid {
        content := Free;
      }
    }
  }

  // ----- Mutual exclusion --------------------------------------------------------------------------

  /** Every handle belongs to a live process and is the one the lock file names. */
  ghost predicate Exclusive(s: System) {
    forall h :: h in s.handles ==> h.pid in s.alive && s.lock == Held(h.pid, h.token)
  }

  lemma {:induction false} StepKeepsExclusive(s: System, e: Event)
    requires Exclusive(s)
    ensures Exclusive(Step(s, e))
    ensures Succeeds(s, e) ==> s.handles == {}
  {
  }

  /** Whatever starts, crashes, acquires and releases happen, at most one live process holds the lock. */
  lemma {:induction false} AtMostOneHolder(s: System, events: seq<Event>)
    requires Exclusive(s)
    ensures Exclusive(After(s, events))
    ensures forall g, h :: g in After(s, events).handles && h in After(s, events).handles ==> g == h
    decreases |events|
  {
    if events != [] {
      StepKeepsExclusive(s, events[0]);
      AtMostOneHolder(Step(s, events[0]), events[1..]);
    }
  }

  /** Between two acquisitions that succeed, the first holder has released the lock or crashed. */
  lemma {:induction false} HoldersTakeTurns(s: System, first: Event, between: seq<Event>, second: Event)
    requires Exclusive(s) && Succeeds(s, first)
    requires Succeeds(After(Step(s, first), between), second)
    ensures Release(first.pid, first.token) in between || Crash(first.pid) in between
  {
    StepKeepsExclusive(s, first);
    if Release(first.pid, first.token) !in between && Crash(first.pid) !in between {
      HandleLasts(Step(s, first), Handle(first.pid, first.token), between);
      StepKeepsExclusive(After(Step(s, first), between), second);
      assert false;
    }
  }

  lemma {:induction false} HandleLasts(s: System, h: Handle, events: seq<Event>)
    requires Exclusive(s) && h in s.handles
    requires Release(h.pid, h.token) !in events && Crash(h.pid) !in events
    ensures Exclusive(After(s, events)) && h in After(s, events).handles
    decreases |events|
  {
    if events != [] {
      StepKeepsExclusive(s, events[0]);
      assert events[0] in events;
      HandleLasts(Step(s, events[0]), h, events[1..]);
    }
  }

  // ----- Progress ------------------------------------------------------------------------------------

  /** Event k of the run took the lock, and no later event did. */
  ghost predicate LastTaken(s: System, events: seq<Event>, k: nat) {
    && k < |events| && Succeeds(After(s, events[..k]), events[k])
    && forall j :: k < j < |events| ==> !Succeeds(After(s, events[..j]), events[j])
  }

  /** Since it took the lock, the process crashed without having released it, and its pid lives again. */
  ghost predicate Reborn(taken: Event, since: seq<Event>)
    requires taken.Acquire?
  {
    exists c, r :: 0 <= c < r < |since| && CrashesHolding(taken, since, c) && StartsForGood(taken, since, r)
  }

  predicate CrashesHolding(taken: Event, since: seq<Event>, c: int)
    requires taken.Acquire?
  {
    0 <= c < |since| && since[c] == Crash(taken.pid) && Release(taken.pid, taken.token) !in since[..c]
  }

  predicate StartsForGood(taken: Event, since: seq<Event>, r: int)
    requires taken.Acquire?
  {
    0 <= r < |since| && since[r] == Start(taken.pid) && Crash(taken.pid) !in since[r + 1..]
  }

  /** What has become of an acquisition: held, released, or orphaned by a crash with its pid alive again or not. */
  datatype Fate = Holding | Released | Orphaned(alive: bool)

  function FateOf(taken: Event, since: seq<Event>): Fate
    requires taken.Acquire?
  {
    if since == [] then Holding
    else
      var before, last := FateOf(taken, since[..|since| - 1]), since[|since| - 1];
      match before
      case Holding =>
        if last == Crash(taken.pid) then Orphaned(false)
        else if last == Release(taken.pid, taken.token) then Released
        else Holding
      case Released => Released
      case Orphaned(alive) =>
        if last == Crash(taken.pid) then Orphaned(false) else if last == Start(taken.pid) then Orphaned(true)
          else before
  }

  /** The state that an acquisition with the given fate leaves. */
  predicate Leaves(taken: Event, fate: Fate, s: System)
    requires taken.Acquire?
  {
    match fate
    case Holding =>
      s.lock == Held(taken.pid, taken.token) && s.handles == {Handle(taken.pid, taken.token)} && taken.pid in s.alive
    case Released => s.lock == Free && s.handles == {}
    case Orphaned(alive) =>
      s.lock == Held(taken.pid, taken.token) && s.handles == {} && (taken.pid in s.alive <==> alive)
  }

  lemma {:induction false} AfterSnoc(s: System, events: seq<Event>, e: Event)
    ensures After(s, events + [e]) == Step(After(s, events), e)
    decreases |events|
  {
    var all := events + [e];
    if events == [] {
      assert all[1..] == [] && all[0] == e;
    } else {
      assert all[0] == events[0] && all[1..] == events[1..] + [e];
      AfterSnoc(Step(s, events[0]), events[1..], e);
    }
  }

  lemma {:induction false} FateSnoc(taken: Event, since: seq<Event>, e: Event, s: System)
    requires taken.Acquire? && Leaves(taken, FateOf(taken, since), s) && !Succeeds(s, e)
    ensures Leaves(taken, FateOf(taken, since + [e]), Step(s, e))
  {
    assert (since + [e])[..|since|] == since;
  }

  /** From a free lock, the state of a run is decided by the fate of the last acquisition that succeeded. */
  ghost predicate Decided(s: System, events: seq<Event>) {
    NeverTaken(s, events) || exists k: nat :: DecidedBy(s, events, k)
  }

  ghost predicate NeverTaken(s: System, events: seq<Event>) {
    After(s, events).lock == Free && After(s, events).handles == {} && forall k: nat :: !LastTaken(s, events, k)
  }

  ghost predicate DecidedBy(s: System, events: seq<Event>, k: nat) {
    LastTaken(s, events, k) && Leaves(events[k], FateOf(events[k], events[k + 1..]), After(s, events))
  }

  lemma {:induction false} RunIsDecided(s: System, events: seq<Event>)
    requires s.lock == Free && s.handles == {}
    ensures Decided(s, events)
  {
    if events != [] {
      var front, last := events[..|events| - 1], events[|events| - 1];
      RunIsDecided(s, front);
      assert events == front + [last];
      AfterSnoc(s, front, last);
      StepIsDecided(s, front, last);
    }
  }

  lemma {:induction false} PrefixAfter(s: System, front: seq<Event>, last: Event, j: nat)
    requires j <= |front|
    ensures (front + [last])[..j] == front[..j]
  {
  }

  lemma {:induction false} TakenLater(s: System, front: seq<Event>, last: Event, k: nat)
    requires k < |front|
    ensures LastTaken(s, front + [last], k) <==> LastTaken(s, front, k) && !Succeeds(After(s, front), last)
  {
    var events := front + [last];
    assert events[..|front|] == front;
    forall j: nat | j < |front|
      ensures events[..j] == front[..j] && events[j] == front[j]
    {
      PrefixAfter(s, front, last, j);
    }
    if LastTaken(s, events, k) {
      assert !Succeeds(After(s, events[..|front|]), events[|front|]);
      forall j | k < j < |front|
        ensures !Succeeds(After(s, front[..j]), front[j])
      {
        assert !Succeeds(After(s, events[..j]), events[j]);
      }
    }
  }

  lemma {:induction false} TakenNow(s: System, front: seq<Event>, last: Event)
    ensures LastTaken(s, front + [last], |front|) <==> Succeeds(After(s, front), last)
  {
    assert (front + [last])[..|front|] == front;
  }

  lemma {:induction false} StepIsDecided(s: System, front: seq<Event>, last: Event)
    requires s.lock == Free && s.handles == {} && Decided(s, front)
    ensures Decided(s, front + [last])
  {
    var before := After(s, front);
    if Succeeds(before, last) {
      TakingDecides(s, front, last);
    } else if k: nat :| DecidedBy(s, front, k) {
      StillDecided(s, front, last, k);
    } else {
      StillNever(s, front, last);
    }
  }

  lemma {:induction false} TakingDecides(s: System, front: seq<Event>, last: Event)
    requires Decided(s, front) && Succeeds(After(s, front), last)
    ensures DecidedBy(s, front + [last], |front|)
  {
    AfterSnoc(s, front, last);
    TakenNow(s, front, last);
    TakingLeavesHolding(s, front, last);
    assert (front + [last])[|front| + 1..] == [];
  }

  lemma {:induction false} StillDecided(s: System, front: seq<Event>, last: Event, k: nat)
    requires DecidedBy(s, front, k) && !Succeeds(After(s, front), last)
    ensures DecidedBy(s, front + [last], k)
  {
    AfterSnoc(s, front, last);
    TakenLater(s, front, last, k);
    assert (front + [last])[k + 1..] == front[k + 1..] + [last];
    FateSnoc(front[k], front[k + 1..], last, After(s, front));
  }

  lemma {:induction false} StillNever(s: System, front: seq<Event>, last: Event)
    requires NeverTaken(s, front) && !Succeeds(After(s, front), last)
    ensures NeverTaken(s, front + [last])
  {
    AfterSnoc(s, front, last);
    TakenNow(s, front, last);
    forall k: nat
      ensures !LastTaken(s, front + [last], k)
    {
      if k < |front| {
        TakenLater(s, front, last, k);
      }
    }
  }

  lemma {:induction false} TakingLeavesHolding(s: System, front: seq<Event>, last: Event)
    requires Decided(s, front) && Succeeds(After(s, front), last)
    ensures Leaves(last, Holding, Step(After(s, front), last))
  {
  }

  // ----- The same by the history alone ------------------------------------------------------------------

  ghost predicate CrashedHolding(taken: Event, since: seq<Event>)
    requires taken.Acquire?
  {
    exists c :: 0 <= c < |since| && CrashesHolding(taken, since, c)
  }

  lemma {:induction false} CrashedHoldingSnoc(taken: Event, since: seq<Event>, e: Event)
    requires taken.Acquire?
    ensures CrashedHolding(taken, since + [e])
      <==> CrashedHolding(taken, since) || (e == Crash(taken.pid) && Release(taken.pid, taken.token) !in since)
  {
    var all := since + [e];
    assert all[..|since|] == since;
    forall c | 0 <= c < |since|
      ensures CrashesHolding(taken, all, c) <==> CrashesHolding(taken, since, c)
    {
      assert all[..c] == since[..c];
    }
    if e == Crash(taken.pid) && Release(taken.pid, taken.token) !in since {
      assert CrashesHolding(taken, all, |since|);
    }
    if c :| 0 <= c < |since| && CrashesHolding(taken, since, c) {
      assert CrashesHolding(taken, all, c);
    }
  }

  lemma {:induction false} RebornSnoc(taken: Event, since: seq<Event>, e: Event)
    requires taken.Acquire?
    ensures Reborn(taken, since + [e])
      <==> if e == Start(taken.pid) then CrashedHolding(taken, since) else Reborn(taken, since) && e != Crash(taken.pid)
  {
    var all := since + [e];
    assert all[..|since|] == since && all[|since| + 1..] == [];
    forall c | 0 <= c < |since|
      ensures CrashesHolding(taken, all, c) <==> CrashesHolding(taken, since, c)
      ensures StartsForGood(taken, all, c) <==> StartsForGood(taken, since, c) && e != Crash(taken.pid)
    {
      assert all[..c] == since[..c] && all[c + 1..] == since[c + 1..] + [e];
    }
    if e == Start(taken.pid) {
      assert StartsForGood(taken, all, |since|);
    }
  }

  lemma {:induction false} FateByHistory(taken: Event, since: seq<Event>)
    requires taken.Acquire?
    ensures FateOf(taken, since).Holding? ==> Release(taken.pid, taken.token) !in since
    ensures FateOf(taken, since).Released? ==> Release(taken.pid, taken.token) in since
    ensures FateOf(taken, since).Orphaned? <==> CrashedHolding(taken, since)
    ensures FateOf(taken, since) == Orphaned(true) <==> Reborn(taken, since)
  {
    if since != [] {
      var front, last := since[..|since| - 1], since[|since| - 1];
      FateByHistory(taken, front);
      assert since == front + [last];
      CrashedHoldingSnoc(taken, front, last);
      RebornSnoc(taken, front, last);
      if Reborn(taken, front) {
        var c, r :| 0 <= c < r < |front| && CrashesHolding(taken, front, c) && StartsForGood(taken, front, r);
        assert CrashedHolding(taken, front);
      }
    }
  }

  /** The process that took the lock last crashed holding it, and its pid has been started again. */
  ghost predicate TakerReborn(s: System, events: seq<Event>, k: nat) {
    LastTaken(s, events, k) && Reborn(events[k], events[k + 1..])
  }

  lemma {:induction false} OneLastTaken(s: System, events: seq<Event>, i: nat, k: nat)
    requires LastTaken(s, events, i) && LastTaken(s, events, k)
    ensures i == k
  {
  }

  lemma {:induction false} RebornOnlyAt(s: System, events: seq<Event>, k: nat)
    requires LastTaken(s, events, k)
    ensures FateOf(events[k], events[k + 1..]) == Orphaned(true) <==> exists i: nat :: TakerReborn(s, events, i)
  {
    FateByHistory(events[k], events[k + 1..]);
    forall i: nat | TakerReborn(s, events, i)
      ensures i == k
    {
      OneLastTaken(s, events, i, k);
    }
    assert TakerReborn(s, events, k) <==> FateOf(events[k], events[k + 1..]) == Orphaned(true);
  }

  /**
   Over any run from a free lock, a live process is refused a lock that nobody holds if and only if the
   process that took it last crashed without releasing it and its pid was started again since.
   */
  lemma {:induction false} RefusedOnlyByReuse(s: System, events: seq<Event>, pid: nat, token: nat)
    requires s.lock == Free && s.handles == {} && pid in After(s, events).alive
    ensures After(s, events).handles == {} && !Succeeds(After(s, events), Acquire(pid, token))
      <==> exists k: nat :: TakerReborn(s, events, k)
  {
    RunIsDecided(s, events);
    if k: nat :| DecidedBy(s, events, k) {
      RebornOnlyAt(s, events, k);
    } else {
      assert NeverTaken(s, events);
    }
  }

  /** Every start takes the pid of no lock file and of no live process: pids are not reused while a file names them. */
  predicate FreshPids(s: System, events: seq<Event>)
    decreases |events|
  {
    events == [] ||
    ((events[0].Start? ==> events[0].pid in s.alive || !s.lock.Held? || s.lock.pid != events[0].pid)
    && FreshPids(Step(s, events[0]), events[1..]))
  }

  /** A lock file that names a live process was left by a handle of that process. */
  predicate Honest(s: System) {
    s.lock.Held? && s.lock.pid in s.alive ==> Handle(s.lock.pid, s.lock.token) in s.handles
  }

  /** Without pid reuse a live process gets the lock exactly when nobody holds it: a crash never blocks it. */
  lemma {:induction false} CrashedHoldersNeverBlock(s: System, events: seq<Event>, pid: nat, token: nat)
    requires Exclusive(s) && Honest(s) && FreshPids(s, events)
    requires pid in After(s, events).alive
    ensures Succeeds(After(s, events), Acquire(pid, token)) <==> After(s, events).handles == {}
    decreases |events|
  {
    if events != [] {
      StepKeepsExclusive(s, events[0]);
      assert Honest(Step(s, events[0]));
      CrashedHoldersNeverBlock(Step(s, events[0]), events[1..], pid, token);
    }
  }

  /** No process with the owner's pid starts, and nobody takes the lock. */
  predicate NobodyComes(s: System, owner: nat, events: seq<Event>)
    decreases |events|
  {
    events == [] ||
    (events[0] != Start(owner) && !Succeeds(s, events[0]) && NobodyComes(Step(s, events[0]), owner, events[1..]))
  }

  lemma {:induction false} StaysStale(s: System, owner: nat, events: seq<Event>)
    requires Exclusive(s) && NobodyComes(s, owner, events)
    requires s.lock.Held? ==> s.lock.pid == owner && owner !in s.alive
    ensures Stale(After(s, events).lock, After(s, events).alive) && After(s, events).handles == {}
    decreases |events|
  {
    if events == [] {
      assert forall h :: h in s.handles ==> h.pid in s.alive && s.lock == Held(h.pid, h.token);
    } else {
      StepKeepsExclusive(s, events[0]);
      StaysStale(Step(s, events[0]), owner, events[1..]);
    }
  }

  /** Once the owner has crashed the lock stays free to take until someone takes it or the pid starts again. */
  lemma {:induction false} TakenOverAfterCrash(s: System, owner: nat, between: seq<Event>, pid: nat, token: nat)
    requires Exclusive(s) && s.lock.Held? && s.lock.pid == owner
    requires NobodyComes(Step(s, Crash(owner)), owner, between)
    requires pid in After(Step(s, Crash(owner)), between).alive
    ensures var t := After(Step(s, Crash(owner)), between);
      Succeeds(t, Acquire(pid, token)) && Step(t, Acquire(pid, token)).handles == {Handle(pid, token)}
  {
    StepKeepsExclusive(s, Crash(owner));
    StaysStale(Step(s, Crash(owner)), owner, between);
  }

  /** A run that ends so: the pid of a crashed holder is reused, and everyone is refused a lock nobody holds. */
  lemma {:induction false} ReusedPidBlocks()
    ensures var s, events := System(Free, {1, 2}, {}), [Acquire(1, 7), Crash(1), Start(1)];
      && 2 in After(s, events).alive && After(s, events).handles == {} && !Succeeds(After(s, events), Acquire(2, 8))
      && exists k: nat :: TakerReborn(s, events, k)
  {
    var s, events := System(Free, {1, 2}, {}), [Acquire(1, 7), Crash(1), Start(1)];
    var a := Step(s, events[0]);
    var b := Step(a, events[1]);
    var c := Step(b, events[2]);
    assert events[1..] == [Crash(1), Start(1)] && events[1..][1..] == [Start(1)] && events[1..][1..][1..] == [];
    assert After(s, events) == c by {
      assert After(c, []) == c && After(b, [Start(1)]) == c && After(a, events[1..]) == c;
    }
    RefusedOnlyByReuse(s, events, 2, 8);
  }
}
