/**
 Exit reconciliation of the memory registry (bdd/lib/memory-registry.ts): which process exits are
 reported by the assertions of a run, which are kept for the summary, and what the peaks bound.
 */
module MemoryRegistry {
  import opened Common

  datatype ExitInfo = ExitInfo(code: Option<int>, signal: Option<string>)

  datatype Tracked = Tracked(
    name: string,
    baseline: Option<nat>,
    peak: Option<nat>,
    final: Option<nat>,
    ready: Option<nat>,
    expectExit: bool,
    exit: Option<ExitInfo>)

  /** The three maps of the registry, by pid: tracked, exits not yet reported, all exits. */
  datatype Registry = Registry(processes: map<nat, Tracked>, exited: map<nat, Tracked>, completed: map<nat, Tracked>)

  /**
   What happens to a registry; resident set sizes are what the system returned, None when it had none.
   An assertion walks the two maps in some order.
   */
  datatype Event =
    | Track(pid: nat, name: string, expectExit: bool, rss: Option<nat>)
    | Exit(pid: nat, info: ExitInfo, rss: Option<nat>)
    | Untrack(pid: nat)
    | Mark(pids: seq<nat>)
    | Ready(pid: nat, rss: Option<nat>)
    | Sample(readings: map<nat, nat>)
    | Assert(walk: seq<nat>, exits: seq<nat>, check: Check)

  /** The readings of one assertion: of the polls, of the exits it records, and the threshold. */
  datatype Check = Check(polled: map<nat, nat>, gone: map<nat, nat>, threshold: int)

  datatype Report =
    | StillRunning(pid: nat)
    | Inaccessible(pid: nat)
    | OverThreshold(pid: nat, delta: int)
    | Unexpected(pid: nat, info: Option<ExitInfo>)

  const NO_INFO := ExitInfo(None, None)

  function Lookup(readings: map<nat, nat>, pid: nat): Option<nat> {
    if pid in readings then Some(readings[pid]) else None
  }

  function Higher(a: Option<nat>, b: nat): Option<nat> {
    if a.None? || b > a.value then Some(b) else a
  }

  // ----- One record ------------------------------------------------------------------------------------

  function NewRecord(name: string, expectExit: bool, rss: Option<nat>): Tracked {
    Tracked(name, rss, rss, None, None, expectExit, None)
  }

  function Exited(t: Tracked, info: ExitInfo, rss: Option<nat>): Tracked {
    var u := t.(exit := Some(info));
    if rss.Some? then u.(final := rss, peak := Higher(t.peak, rss.value))
    else if t.final.None? then u.(final := t.peak)
    else u
  }

  function Sampled(t: Tracked, rss: Option<nat>): Tracked {
    if rss.Some? then t.(peak := Higher(t.peak, rss.value), final := rss) else t
  }

  /** The record after an assertion that leaves it tracked; the first reading is the missing baseline. */
  function Checked(t: Tracked, rss: Option<nat>): Tracked {
    if rss.None? then t
    else
      var u := t.(peak := Higher(t.peak, rss.value));
      if !t.expectExit && t.ready.None? && t.baseline.None? then u.(baseline := rss) else u
  }

  function Complaint(t: Tracked, pid: nat, rss: Option<nat>, threshold: int): seq<Report> {
    if t.expectExit then (if rss.Some? then [StillRunning(pid)] else [])
    else if rss.None? then [Inaccessible(pid)]
    else
      var from := if t.ready.Some? then t.ready else t.baseline;
      if from.Some? && rss.value - from.value > threshold then [OverThreshold(pid, rss.value - from.value)] else []
  }

  // ----- The registry ------------------------------------------------------------------------------------

  function RecordExit(r: Registry, pid: nat, info: ExitInfo, rss: Option<nat>): Registry {
    if pid !in r.processes then r
    else
      var t := Exited(r.processes[pid], info, rss);
      Registry(r.processes - {pid}, if t.expectExit then r.exited else r.exited[pid := t], r.completed[pid := t])
  }

  /** An assertion's look at one tracked process. */
  function CheckOne(r: Registry, pid: nat, c: Check): Registry {
    if pid !in r.processes then r
    else
      var t, rss := r.processes[pid], Lookup(c.polled, pid);
      if t.expectExit && rss.None? then RecordExit(r, pid, NO_INFO, Lookup(c.gone, pid))
      else r.(processes := r.processes[pid := Checked(t, rss)])
  }

  function ComplaintOf(r: Registry, pid: nat, c: Check): seq<Report> {
    if pid in r.processes then Complaint(r.processes[pid], pid, Lookup(c.polled, pid), c.threshold) else []
  }

  function CheckAll(r: Registry, walk: seq<nat>, c: Check): Registry {
    if walk == [] then r else CheckOne(CheckAll(r, walk[..|walk| - 1], c), walk[|walk| - 1], c)
  }

  function ComplaintsOf(r: Registry, walk: seq<nat>, c: Check): seq<Report> {
    if walk == [] then []
    else
      var before, pid := CheckAll(r, walk[..|walk| - 1], c), walk[|walk| - 1];
      ComplaintsOf(r, walk[..|walk| - 1], c) + ComplaintOf(before, pid, c)
  }

  /** The unreported exits, all of processes that were not expected to exit. */
  function ExitReports(exited: map<nat, Tracked>, exits: seq<nat>): seq<Report> {
    if exits == [] then []
    else
      var pid := exits[|exits| - 1];
      ExitReports(exited, exits[..|exits| - 1])
      + (if pid in exited && !exited[pid].expectExit then [Unexpected(pid, exited[pid].exit)] else [])
  }

  function Step(r: Registry, e: Event): Registry {
    match e
    case Track(pid, name, expectExit, rss) =>
      if pid in r.processes then r else r.(processes := r.processes[pid := NewRecord(name, expectExit, rss)])
    case Exit(pid, info, rss) => RecordExit(r, pid, info, rss)
    case Untrack(pid) => r.(processes := r.processes - {pid})
    case Mark(pids) =>
      r.(processes := map pid | pid in r.processes ::
        r.processes[pid].(expectExit := r.processes[pid].expectExit || pid in pids))
    case Ready(pid, rss) =>
      if pid in r.processes then r.(processes := r.processes[pid := r.processes[pid].(ready := rss)]) else r
    case Sample(readings) =>
      r.(processes := map pid | pid in r.processes :: Sampled(r.processes[pid], Lookup(readings, pid)))
    case Assert(walk, exits, c) => CheckAll(r, walk, c).(exited := map[])
  }

  function Reports(r: Registry, e: Event): seq<Report> {
    if e.Assert? then ComplaintsOf(r, e.walk, e.check) + ExitReports(CheckAll(r, e.walk, e.check).exited, e.exits)
    else []
  }

  /** An assertion walks every tracked process and every unreported exit once. */
  ghost predicate Possible(r: Registry, e: Event) {
    e.Assert? ==> Walks(r, e.walk, e.exits)
  }

  ghost predicate Walks(r: Registry, walk: seq<nat>, exits: seq<nat>) {
    && Distinct(walk) && ToSet(walk) == r.processes.Keys
    && Distinct(exits) && ToSet(exits) == r.exited.Keys
  }

  class Memory {
    var processes: map<nat, Tracked>
    var exitedProcesses: map<nat, Tracked>
    var completedProcesses: map<nat, Tracked>

    function State(): Registry
      reads this
    {
      Registry(processes, exitedProcesses, completedProcesses)
    }

    method TrackProcess(pid: nat, name: string, expectExit: bool, rss: Option<nat>)
      modifies this
      ensures State() == Step(old(State()), Track(pid, name, expectExit, rss))
    {
      if pid in processes {
        return;
      }
      processes := processes[pid := NewRecord(name, expectExit, rss)];
    }

    method RecordProcessExit(pid: nat, info: ExitInfo, rss: Option<nat>)
      modifies this
      ensures State() == Step(old(State()), Exit(pid, info, rss))
    {
      if pid !in processes {
        return;
      }
      var tracked := processes[pid].(exit := Some(info));
      if rss.Some? {
        tracked := tracked.(final := rss, peak := Higher(tracked.peak, rss.value));
      } else if tracked.final.None? {
        tracked := tracked.(final := tracked.peak);
      }
      if !tracked.expectExit {
        exitedProcesses := exitedProcesses[pid := tracked];
      }
      completedProcesses := completedProcesses[pid := tracked];
      processes := processes - {pid};
    }

    method MarkProcessesAsExpectedToExit(pids: seq<nat>)
      modifies this`processes
      ensures State() == Step(old(State()), Mark(pids))
    {
      var i := 0;
      while i < |pids|
        invariant 0 <= i <= |pids|
        invariant processes.Keys == old(processes).Keys
        invariant forall pid :: pid in processes ==>
          processes[pid] == old(processes)[pid].(expectExit := old(processes)[pid].expectExit || pid in pids[..i])
      {
        assert pids[..i + 1] == pids[..i] + [pids[i]];
        if pids[i] in processes {
          processes := processes[pids[i] := processes[pids[i]].(expectExit := true)];
        }
        i := i + 1;
      }
      assert pids[..i] == pids;
    }

    method RecordProcessReady(pid: nat, rss: Option<nat>)
      modifies this`processes
      ensures State() == Step(old(State()), Ready(pid, rss))
    {
      if pid in processes {
        processes := processes[pid := processes[pid].(ready := rss)];
      }
    }

    method SampleAll(readings: map<nat, nat>)
      modifies this`processes
      ensures State() == Step(old(State()), Sample(readings))
    {
      var todo := processes.Keys;
      while todo != {}
        invariant SampledBut(old(processes), processes, readings, todo)
        decreases |todo|
      {
        var pid :| pid in todo;
        SampledNext(old(processes), processes, readings, todo, pid);
        todo := todo - {pid};
        if pid in readings {
          var t := processes[pid];
          processes := processes[pid := t.(peak := Higher(t.peak, readings[pid]), final := Some(readings[pid]))];
        }
      }
    }

    /** The order of the walk is the map's own; whatever it is, every entry is met once. */
    method AssertAll(c: Check) returns (reports: seq<Report>, ghost walk: seq<nat>, ghost exits: seq<nat>)
      modifies this
      ensures Walks(old(State()), walk, exits)
      ensures State() == Step(old(State()), Assert(walk, exits, c))
      ensures reports == Reports(old(State()), Assert(walk, exits, c))
    {
      reports, walk := CheckProcesses(c);
      ghost var middle := State();
      CheckAllKeepsExited(old(State()), walk, c);
      var more;
      more, exits := ReportExits();
      reports := reports + more;
      exitedProcesses := map[];
    }

    method CheckProcesses(c: Check) returns (reports: seq<Report>, ghost walk: seq<nat>)
      modifies this
      ensures Distinct(walk) && ToSet(walk) == old(processes).Keys
      ensures State() == CheckAll(old(State()), walk, c)
      ensures reports == ComplaintsOf(old(State()), walk, c)
    {
      reports, walk := [], [];
      var todo := processes.Keys;
      while todo != {}
        invariant Covers(walk, todo, old(processes).Keys)
        invariant todo <= processes.Keys
        invariant State() == CheckAll(old(State()), walk, c)
        invariant reports == ComplaintsOf(old(State()), walk, c)
        decreases |todo|
      {
        var pid :| pid in todo;
        CoversNext(walk, todo, pid);
        todo := todo - {pid};
        walk := walk + [pid];
        var complaint := CheckProcess(pid, c);
        reports := reports + complaint;
      }
      CoversAll(walk, {}, old(processes).Keys);
    }

    method CheckProcess(pid: nat, c: Check) returns (reports: seq<Report>)
      requires pid in processes
      modifies this
      ensures State() == CheckOne(old(State()), pid, c)
      ensures reports == ComplaintOf(old(State()), pid, c)
      ensures processes.Keys == old(processes).Keys || processes.Keys == old(processes).Keys - {pid}
    {
      var tracked, rss := processes[pid], Lookup(c.polled, pid);
      reports := [];
      if tracked.expectExit {
        if rss.Some? {
          processes := processes[pid := tracked.(peak := Higher(tracked.peak, rss.value))];
          return [StillRunning(pid)];
        }
        RecordProcessExit(pid, NO_INFO, Lookup(c.gone, pid));
        return;
      }
      if rss.None? {
        assert processes[pid := tracked] == processes;
        return [Inaccessible(pid)];
      }
      tracked := tracked.(peak := Higher(tracked.peak, rss.value));
      if tracked.ready.None? && tracked.baseline.None? {
        processes := processes[pid := tracked.(baseline := rss)];
        return;
      }
      processes := processes[pid := tracked];
      var baseline := if tracked.ready.Some? then tracked.ready.value else tracked.baseline.value;
      var delta := rss.value - baseline;
      if delta > c.threshold {
        return [OverThreshold(pid, delta)];
      }
    }

    method ReportExits() returns (reports: seq<Report>, ghost exits: seq<nat>)
      ensures Distinct(exits) && ToSet(exits) == exitedProcesses.Keys
      ensures reports == ExitReports(exitedProcesses, exits)
    {
      reports, exits := [], [];
      var todo := exitedProcesses.Keys;
      while todo != {}
        invariant Covers(exits, todo, exitedProcesses.Keys) && todo <= exitedProcesses.Keys
        invariant reports == ExitReports(exitedProcesses, exits)
        decreases |todo|
      {
        var pid :| pid in todo;
        CoversNext(exits, todo, pid);
        todo := todo - {pid};
        exits := exits + [pid];
        var tracked := exitedProcesses[pid];
        reports := reports + (if !tracked.expectExit then [Unexpected(pid, tracked.exit)] else []);
      }
      CoversAll(exits, {}, exitedProcesses.Keys);
    }
  }

  /** All records but those still to do have had their sample. */
  ghost predicate SampledBut(was: map<nat, Tracked>, now: map<nat, Tracked>, readings: map<nat, nat>, todo: set<nat>) {
    && todo <= now.Keys == was.Keys
    && (forall pid :: pid in was ==>
      now[pid] == if pid in todo then was[pid] else Sampled(was[pid], Lookup(readings, pid)))
  }

  lemma {:induction false} SampledNext(
      was: map<nat, Tracked>, now: map<nat, Tracked>, readings: map<nat, nat>, todo: set<nat>, pid: nat)
    requires SampledBut(was, now, readings, todo) && pid in todo
    ensures pid in now
    ensures pid !in readings ==> SampledBut(was, now, readings, todo - {pid})
    ensures pid in readings ==>
      SampledBut(was, now[pid := Sampled(now[pid], Some(readings[pid]))], readings, todo - {pid})
  {
  }

  /** The pids done were taken one by one from `all`, and `todo` is what is left. */
  predicate Covers(done: seq<nat>, todo: set<nat>, all: set<nat>) {
    if done == [] then todo == all
    else
      var last := done[|done| - 1];
      last !in todo && Covers(done[..|done| - 1], todo + {last}, all)
  }

  lemma {:induction false} CoversNext(done: seq<nat>, todo: set<nat>, pid: nat)
    requires pid in todo
    ensures (todo - {pid}) + {pid} == todo
    ensures (done + [pid])[..|done + [pid]| - 1] == done
  {
  }

  lemma {:induction false} CoversAll(done: seq<nat>, todo: set<nat>, all: set<nat>)
    requires Covers(done, todo, all)
    ensures Distinct(done) && ToSet(done) !! todo && ToSet(done) + todo == all
  {
    if done != [] {
      var front, last := done[..|done| - 1], done[|done| - 1];
      CoversAll(front, todo + {last}, all);
      FrontAndLast(done);
      SnocDistinct(front, last);
    }
  }

  lemma {:induction false} SnocDistinct<T>(s: seq<T>, x: T)
    requires Distinct(s) && x !in ToSet(s)
    ensures Distinct(s + [x]) && ToSet(s + [x]) == ToSet(s) + {x}
  {
  }

  lemma {:induction false} CheckAllKeepsExited(r: Registry, walk: seq<nat>, c: Check)
    ensures CheckAll(r, walk, c).exited == r.exited
  {
    if walk != [] {
      CheckAllKeepsExited(r, walk[..|walk| - 1], c);
    }
  }

  // ----- Each process on its own ---------------------------------------------------------------------------

  /** What the registry holds about one pid. */
  datatype Slot = Slot(tracked: Option<Tracked>, pending: Option<Tracked>, completed: Option<Tracked>)

  function At(entries: map<nat, Tracked>, pid: nat): Option<Tracked> {
    if pid in entries then Some(entries[pid]) else None
  }

  function SlotOf(r: Registry, pid: nat): Slot {
    Slot(At(r.processes, pid), At(r.exited, pid), At(r.completed, pid))
  }

  function SlotExit(s: Slot, info: ExitInfo, rss: Option<nat>): Slot {
    if s.tracked.None? then s
    else
      var t := Exited(s.tracked.value, info, rss);
      Slot(None, if t.expectExit then s.pending else Some(t), Some(t))
  }

  function SlotCheck(s: Slot, pid: nat, c: Check): Slot {
    if s.tracked.None? then s
    else
      var t, rss := s.tracked.value, Lookup(c.polled, pid);
      if t.expectExit && rss.None? then SlotExit(s, NO_INFO, Lookup(c.gone, pid))
      else s.(tracked := Some(Checked(t, rss)))
  }

  /** One event as it concerns one pid alone. */
  function SlotStep(s: Slot, e: Event, pid: nat): Slot {
    match e
    case Track(p, name, expectExit, rss) =>
      if p == pid && s.tracked.None? then s.(tracked := Some(NewRecord(name, expectExit, rss))) else s
    case Exit(p, info, rss) => if p == pid then SlotExit(s, info, rss) else s
    case Untrack(p) => if p == pid then s.(tracked := None) else s
    case Mark(pids) =>
      if s.tracked.Some? && pid in pids then s.(tracked := Some(s.tracked.value.(expectExit := true))) else s
    case Ready(p, rss) =>
      if p == pid && s.tracked.Some? then s.(tracked := Some(s.tracked.value.(ready := rss))) else s
    case Sample(readings) =>
      if s.tracked.Some? then s.(tracked := Some(Sampled(s.tracked.value, Lookup(readings, pid)))) else s
    case Assert(_, _, c) => SlotCheck(s, pid, c).(pending := None)
  }

  /** The reports an event makes about one pid. */
  function SlotReports(s: Slot, e: Event, pid: nat): seq<Report> {
    if !e.Assert? then []
    else
      (if s.tracked.Some? then Complaint(s.tracked.value, pid, Lookup(e.check.polled, pid), e.check.threshold) else [])
      + (if s.pending.Some? && !s.pending.value.expectExit then [Unexpected(pid, s.pending.value.exit)] else [])
  }

  /** The reports about one pid, in order. */
  function About(reports: seq<Report>, pid: nat): seq<Report> {
    if reports == [] then []
    else
      var last := reports[|reports| - 1];
      if last.pid == pid then About(reports[..|reports| - 1], pid) + [last] else About(reports[..|reports| - 1], pid)
  }

  lemma {:induction false} AboutAppend(a: seq<Report>, b: seq<Report>, pid: nat)
    ensures About(a + b, pid) == About(a, pid) + About(b, pid)
  {
    if b == [] {
      AddNothing(a);
      AddNothing(About(a, pid));
    } else {
      var front, last := b[..|b| - 1], b[|b| - 1];
      AboutAppend(a, front, pid);
      FrontAndLast(b);
      Associate(a, front, [last]);
      SnocFront(a + front, last);
      Associate(About(a, pid), About(front, pid), [last]);
    }
  }

  lemma {:induction false} AboutOne(report: Report, pid: nat)
    ensures About([report], pid) == if report.pid == pid then [report] else []
  {
    assert [report][..0] == [];
  }

  lemma {:induction false} CheckOneAt(r: Registry, p: nat, c: Check, pid: nat)
    ensures SlotOf(CheckOne(r, p, c), pid) == if p == pid then SlotCheck(SlotOf(r, pid), pid, c) else SlotOf(r, pid)
  {
  }

  lemma {:induction false} ComplaintIsAbout(r: Registry, p: nat, c: Check, pid: nat)
    ensures About(ComplaintOf(r, p, c), pid) == if p == pid then ComplaintOf(r, p, c) else []
  {
    var complaint := ComplaintOf(r, p, c);
    if complaint != [] {
      AboutOne(complaint[0], pid);
    }
  }

  /** Walking distinct pids checks each of them once and leaves every other pid alone. */
  lemma {:induction false} CheckAllAt(r: Registry, walk: seq<nat>, c: Check, pid: nat)
    requires Distinct(walk)
    ensures SlotOf(CheckAll(r, walk, c), pid) == if pid in walk then SlotCheck(SlotOf(r, pid), pid, c)
      else SlotOf(r, pid)
    ensures About(ComplaintsOf(r, walk, c), pid) == if pid in walk then ComplaintOf(r, pid, c) else []
  {
    if walk != [] {
      var front, last := walk[..|walk| - 1], walk[|walk| - 1];
      CheckAllAt(r, front, c, pid);
      FrontAndLast(walk);
      var before := CheckAll(r, front, c);
      CheckOneAt(before, last, c, pid);
      AboutAppend(ComplaintsOf(r, front, c), ComplaintOf(before, last, c), pid);
      ComplaintIsAbout(before, last, c, pid);
      if last == pid {
        assert pid !in front;
        SameSlotSameComplaint(r, before, pid, c);
      }
    }
  }

  lemma {:induction false} SameSlotSameComplaint(r: Registry, q: Registry, pid: nat, c: Check)
    requires SlotOf(r, pid) == SlotOf(q, pid)
    ensures ComplaintOf(r, pid, c) == ComplaintOf(q, pid, c)
  {
  }

  lemma {:induction false} ExitReportsAt(exited: map<nat, Tracked>, exits: seq<nat>, pid: nat)
    requires Distinct(exits)
    ensures About(ExitReports(exited, exits), pid) ==
      if pid in exits && pid in exited && !exited[pid].expectExit then [Unexpected(pid, exited[pid].exit)] else []
  {
    if exits != [] {
      var front, last := exits[..|exits| - 1], exits[|exits| - 1];
      ExitReportsAt(exited, front, pid);
      FrontAndLast(exits);
      var reports := if last in exited && !exited[last].expectExit then [Unexpected(last, exited[last].exit)] else [];
      AboutAppend(ExitReports(exited, front), reports, pid);
      if reports != [] {
        AboutOne(reports[0], pid);
      }
    }
  }

  lemma {:induction false} AssertIsIndependent(r: Registry, e: Event, pid: nat)
    requires Possible(r, e) && e.Assert?
    ensures SlotOf(Step(r, e), pid) == SlotStep(SlotOf(r, pid), e, pid)
    ensures About(Reports(r, e), pid) == SlotReports(SlotOf(r, pid), e, pid)
  {
    CheckAllAt(r, e.walk, e.check, pid);
    CheckAllKeepsExited(r, e.walk, e.check);
    ExitReportsAt(r.exited, e.exits, pid);
    AboutAppend(ComplaintsOf(r, e.walk, e.check), ExitReports(r.exited, e.exits), pid);
    assert pid in e.walk <==> pid in ToSet(e.walk);
    assert pid in e.exits <==> pid in ToSet(e.exits);
  }

  lemma {:induction false} ChangeIsIndependent(r: Registry, e: Event, pid: nat)
    requires Possible(r, e) && !e.Assert?
    ensures SlotOf(Step(r, e), pid) == SlotStep(SlotOf(r, pid), e, pid)
  {
  }

  /** The maps keep processes apart: every event acts on each pid as if it were the only one. */
  lemma {:induction false} ProcessesAreIndependent(r: Registry, e: Event, pid: nat)
    requires Possible(r, e)
    ensures SlotOf(Step(r, e), pid) == SlotStep(SlotOf(r, pid), e, pid)
    ensures About(Reports(r, e), pid) == SlotReports(SlotOf(r, pid), e, pid)
  {
    if e.Assert? {
      AssertIsIndependent(r, e, pid);
    } else {
      ChangeIsIndependent(r, e, pid);
    }
  }

  // ----- Whole runs ------------------------------------------------------------------------------------------

  function After(r: Registry, h: seq<Event>): Registry
    decreases |h|
  {
    if h == [] then r else After(Step(r, h[0]), h[1..])
  }

  function AllReports(r: Registry, h: seq<Event>): seq<Report>
    decreases |h|
  {
    if h == [] then [] else Reports(r, h[0]) + AllReports(Step(r, h[0]), h[1..])
  }

  ghost predicate PossibleRun(r: Registry, h: seq<Event>)
    decreases |h|
  {
    h == [] || (Possible(r, h[0]) && PossibleRun(Step(r, h[0]), h[1..]))
  }

  function SlotAfter(s: Slot, h: seq<Event>, pid: nat): Slot
    decreases |h|
  {
    if h == [] then s else SlotAfter(SlotStep(s, h[0], pid), h[1..], pid)
  }

  function SlotAll(s: Slot, h: seq<Event>, pid: nat): seq<Report>
    decreases |h|
  {
    if h == [] then [] else SlotReports(s, h[0], pid) + SlotAll(SlotStep(s, h[0], pid), h[1..], pid)
  }

  lemma {:induction false} RunsAreIndependent(r: Registry, h: seq<Event>, pid: nat)
    requires PossibleRun(r, h)
    ensures SlotOf(After(r, h), pid) == SlotAfter(SlotOf(r, pid), h, pid)
    ensures About(AllReports(r, h), pid) == SlotAll(SlotOf(r, pid), h, pid)
    decreases |h|
  {
    if h != [] {
      ProcessesAreIndependent(r, h[0], pid);
      RunsAreIndependent(Step(r, h[0]), h[1..], pid);
      AboutAppend(Reports(r, h[0]), AllReports(Step(r, h[0]), h[1..]), pid);
    }
  }

  lemma {:induction false} SlotAppend(s: Slot, a: seq<Event>, b: seq<Event>, pid: nat)
    ensures SlotAfter(s, a + b, pid) == SlotAfter(SlotAfter(s, a, pid), b, pid)
    ensures SlotAll(s, a + b, pid) == SlotAll(s, a, pid) + SlotAll(SlotAfter(s, a, pid), b, pid)
    decreases |a|
  {
    if a == [] {
      AddNothing(b);
      AddNothing(SlotAll(s, b, pid));
    } else {
      var next := SlotStep(s, a[0], pid);
      SlotAppend(next, a[1..], b, pid);
      assert (a + b)[1..] == a[1..] + b;
      Associate(SlotReports(s, a[0], pid), SlotAll(next, a[1..], pid), SlotAll(SlotAfter(next, a[1..], pid), b, pid));
    }
  }

  /** The process is tracked anew. */
  predicate TracksAgain(h: seq<Event>, pid: nat) {
    exists e | e in h :: e.Track? && e.pid == pid
  }

  /** Something decides the process's fate: a mark, its exit, or its removal from tracking. */
  predicate Settles(e: Event, pid: nat) {
    (e.Mark? && pid in e.pids) || ((e.Exit? || e.Untrack?) && e.pid == pid)
  }

  predicate Asserts(h: seq<Event>) {
    exists e | e in h :: e.Assert?
  }

  /** How many assertions found the process gone although its exit had not been delivered. */
  function Undrained(h: seq<Event>, pid: nat): nat {
    if h == [] then 0
    else (if h[0].Assert? && pid !in h[0].check.polled then 1 else 0) + Undrained(h[1..], pid)
  }

  function Unexpecteds(reports: seq<Report>): seq<Report> {
    if reports == [] then []
    else (if reports[0].Unexpected? then [reports[0]] else []) + Unexpecteds(reports[1..])
  }

  function Inaccessibles(reports: seq<Report>): nat {
    if reports == [] then 0 else (if reports[0].Inaccessible? then 1 else 0) + Inaccessibles(reports[1..])
  }

  lemma {:induction false} ReportsAppend(a: seq<Report>, b: seq<Report>)
    ensures Unexpecteds(a + b) == Unexpecteds(a) + Unexpecteds(b)
    ensures Inaccessibles(a + b) == Inaccessibles(a) + Inaccessibles(b)
  {
    if a == [] {
      AddNothing(b);
      AddNothing(Unexpecteds(b));
    } else {
      ReportsAppend(a[1..], b);
      assert (a + b)[1..] == a[1..] + b;
      Associate(if a[0].Unexpected? then [a[0]] else [], Unexpecteds(a[1..]), Unexpecteds(b));
    }
  }

  lemma {:induction false} NotTrackedAgain(h: seq<Event>, pid: nat)
    requires h != [] && !TracksAgain(h, pid)
    ensures !(h[0].Track? && h[0].pid == pid) && !TracksAgain(h[1..], pid)
  {
    assert h[0] in h;
    assert forall e :: e in h[1..] ==> e in h;
  }

  // ----- Marked exits --------------------------------------------------------------------------------------

  /** Nothing about the process can be held against it: it is expected to exit, or has gone without trace. */
  predicate Excused(s: Slot) {
    s.pending.None? && (s.tracked.Some? ==> s.tracked.value.expectExit)
  }

  lemma {:induction false} ExcusedStays(s: Slot, h: seq<Event>, pid: nat)
    requires Excused(s) && !TracksAgain(h, pid)
    ensures Excused(SlotAfter(s, h, pid))
    ensures Unexpecteds(SlotAll(s, h, pid)) == [] && Inaccessibles(SlotAll(s, h, pid)) == 0
    decreases |h|
  {
    if h != [] {
      NotTrackedAgain(h, pid);
      var next := SlotStep(s, h[0], pid);
      assert Excused(next);
      ExcusedStays(next, h[1..], pid);
      ReportsAppend(SlotReports(s, h[0], pid), SlotAll(next, h[1..], pid));
    }
  }

  /** Once a tracked process is marked, no assertion of the run ever reports its exit. */
  lemma {:induction false} MarkedExitsAreNeverReported(r: Registry, mark: Event, h: seq<Event>, pid: nat)
    requires PossibleRun(r, [mark] + h) && mark.Mark? && pid in mark.pids
    requires pid in r.processes && pid !in r.exited && !TracksAgain(h, pid)
    ensures var reports := About(AllReports(r, [mark] + h), pid);
      Unexpecteds(reports) == [] && Inaccessibles(reports) == 0
  {
    RunsAreIndependent(r, [mark] + h, pid);
    var s := SlotOf(r, pid);
    assert ([mark] + h)[1..] == h;
    AddNothing(SlotAll(SlotStep(s, mark, pid), h, pid));
    ExcusedStays(SlotStep(s, mark, pid), h, pid);
  }

  // ----- Unmarked exits ------------------------------------------------------------------------------------

  predicate LongLived(s: Slot) {
    s.tracked.Some? && !s.tracked.value.expectExit && s.pending.None?
  }

  predicate NothingSettles(h: seq<Event>, pid: nat) {
    forall e | e in h :: !Settles(e, pid)
  }

  lemma {:induction false} LongLivedStays(s: Slot, h: seq<Event>, pid: nat)
    requires LongLived(s) && NothingSettles(h, pid)
    ensures LongLived(SlotAfter(s, h, pid))
    ensures Unexpecteds(SlotAll(s, h, pid)) == [] && Inaccessibles(SlotAll(s, h, pid)) == Undrained(h, pid)
    decreases |h|
  {
    if h != [] {
      assert h[0] in h && forall e :: e in h[1..] ==> e in h;
      var next := SlotStep(s, h[0], pid);
      LongLivedStep(s, h[0], pid);
      LongLivedStays(next, h[1..], pid);
      ReportsAppend(SlotReports(s, h[0], pid), SlotAll(next, h[1..], pid));
    }
  }

  lemma {:induction false} LongLivedStep(s: Slot, e: Event, pid: nat)
    requires LongLived(s) && !Settles(e, pid)
    ensures LongLived(SlotStep(s, e, pid))
    ensures Unexpecteds(SlotReports(s, e, pid)) == []
    ensures Inaccessibles(SlotReports(s, e, pid)) == if e.Assert? && pid !in e.check.polled then 1 else 0
  {
  }

  /** The exit is waiting to be reported, with the given information. */
  predicate Waiting(s: Slot, info: ExitInfo) {
    s.tracked.None? && s.pending.Some? && !s.pending.value.expectExit && s.pending.value.exit == Some(info)
  }

  lemma {:induction false} WaitingIsReportedOnce(s: Slot, h: seq<Event>, pid: nat, info: ExitInfo)
    requires Waiting(s, info) && !TracksAgain(h, pid)
    ensures Unexpecteds(SlotAll(s, h, pid)) == if Asserts(h) then [Unexpected(pid, Some(info))] else []
    ensures Inaccessibles(SlotAll(s, h, pid)) == 0
    decreases |h|
  {
    if h != [] {
      NotTrackedAgain(h, pid);
      var next := SlotStep(s, h[0], pid);
      var now := SlotReports(s, h[0], pid);
      ReportsAppend(now, SlotAll(next, h[1..], pid));
      if h[0].Assert? {
        ExcusedStays(next, h[1..], pid);
        assert now == [Unexpected(pid, Some(info))];
        AddNothing(Unexpecteds(now));
      } else {
        WaitingIsReportedOnce(next, h[1..], pid, info);
        assert Asserts(h) <==> Asserts(h[1..]) by {
          assert h == [h[0]] + h[1..];
        }
      }
    }
  }

  /**
   A long-lived process that nobody marks and that exits on its own is reported as an unexpected exit
   exactly once, by the first assertion after its exit was delivered; besides that, an assertion calls
   it inaccessible each time it finds it gone before the exit was delivered.
   */
  lemma {:induction false} UnmarkedExitIsReportedOnce(
      r: Registry, before: seq<Event>, exit: Event, after: seq<Event>, pid: nat)
    requires PossibleRun(r, before + ([exit] + after))
    requires pid in r.processes && !r.processes[pid].expectExit && pid !in r.exited
    requires NothingSettles(before, pid) && exit.Exit? && exit.pid == pid && !TracksAgain(after, pid)
    ensures var reports := About(AllReports(r, before + ([exit] + after)), pid);
      && Unexpecteds(reports) == (if Asserts(after) then [Unexpected(pid, Some(exit.info))] else [])
      && Inaccessibles(reports) == Undrained(before, pid)
  {
    RunsAreIndependent(r, before + ([exit] + after), pid);
    var s := SlotOf(r, pid);
    SlotAppend(s, before, [exit] + after, pid);
    LongLivedStays(s, before, pid);
    var middle := SlotAfter(s, before, pid);
    var gone := SlotStep(middle, exit, pid);
    assert ([exit] + after)[1..] == after;
    AddNothing(SlotAll(gone, after, pid));
    WaitingIsReportedOnce(gone, after, pid, exit.info);
    ReportsAppend(SlotAll(s, before, pid), SlotAll(gone, after, pid));
    AddNothing(Unexpecteds(SlotAll(gone, after, pid)));
  }

  // ----- Completed exits -----------------------------------------------------------------------------------

  lemma {:induction false} CompletedStays(s: Slot, h: seq<Event>, pid: nat)
    requires s.completed.Some?
    ensures SlotAfter(s, h, pid).completed.Some?
    ensures s.tracked.None? && !TracksAgain(h, pid) ==> SlotAfter(s, h, pid).completed == s.completed
    decreases |h|
  {
    if h != [] {
      CompletedStays(SlotStep(s, h[0], pid), h[1..], pid);
      if !TracksAgain(h, pid) {
        NotTrackedAgain(h, pid);
      }
    }
  }

  /** Every exit of a tracked process, marked or not, stays in the completed map whatever is reported later. */
  lemma {:induction false} ExitsAreKept(r: Registry, exit: Event, h: seq<Event>, pid: nat)
    requires PossibleRun(r, [exit] + h) && exit.Exit? && exit.pid == pid && pid in r.processes
    ensures pid in After(r, [exit] + h).completed
    ensures !TracksAgain(h, pid)
      ==> After(r, [exit] + h).completed[pid] == Exited(r.processes[pid], exit.info, exit.rss)
  {
    RunsAreIndependent(r, [exit] + h, pid);
    assert ([exit] + h)[1..] == h;
    var s := SlotStep(SlotOf(r, pid), exit, pid);
    CompletedStays(s, h, pid);
    assert SlotOf(After(r, [exit] + h), pid) == SlotAfter(s, h, pid);
  }

  // ----- Peaks -----------------------------------------------------------------------------------------------

  predicate AtLeast(peak: Option<nat>, low: Option<nat>) {
    low.Some? ==> peak.Some? && peak.value >= low.value
  }

  /** The peak is no lower than the spawn baseline and the last reading kept as final. */
  predicate Bounded(t: Tracked) {
    AtLeast(t.peak, t.baseline) && AtLeast(t.peak, t.final)
  }

  predicate SlotBounded(s: Slot) {
    && (s.tracked.Some? ==> Bounded(s.tracked.value))
    && (s.pending.Some? ==> Bounded(s.pending.value))
    && (s.completed.Some? ==> Bounded(s.completed.value))
  }

  lemma {:induction false} ExitKeepsBounds(s: Slot, info: ExitInfo, rss: Option<nat>)
    requires SlotBounded(s)
    ensures SlotBounded(SlotExit(s, info, rss))
  {
  }

  lemma {:induction false} CheckKeepsBounds(s: Slot, pid: nat, c: Check)
    requires SlotBounded(s)
    ensures SlotBounded(SlotCheck(s, pid, c))
    ensures s.tracked.Some? && SlotCheck(s, pid, c).tracked.Some?
      ==> AtLeast(SlotCheck(s, pid, c).tracked.value.peak, s.tracked.value.peak)
  {
    ExitKeepsBounds(s, NO_INFO, Lookup(c.gone, pid));
  }

  /** No event breaks the bounds, and while a process stays tracked its peak never falls. */
  lemma {:induction false} StepKeepsBounds(s: Slot, e: Event, pid: nat)
    requires SlotBounded(s)
    ensures SlotBounded(SlotStep(s, e, pid))
    ensures s.tracked.Some? && SlotStep(s, e, pid).tracked.Some?
      ==> AtLeast(SlotStep(s, e, pid).tracked.value.peak, s.tracked.value.peak)
  {
    match e
    case Exit(_, info, rss) => ExitKeepsBounds(s, info, rss);
    case Assert(_, _, c) => CheckKeepsBounds(s, pid, c);
    case _ =>
  }

  lemma {:induction false} RunKeepsBounds(s: Slot, h: seq<Event>, pid: nat)
    requires SlotBounded(s)
    ensures SlotBounded(SlotAfter(s, h, pid))
    decreases |h|
  {
    if h != [] {
      StepKeepsBounds(s, h[0], pid);
      RunKeepsBounds(SlotStep(s, h[0], pid), h[1..], pid);
    }
  }

  const EMPTY := Registry(map[], map[], map[])

  /** In every reachable registry, every record's peak is at least its spawn baseline and its final reading. */
  lemma {:induction false} PeaksBoundBaselines(h: seq<Event>, pid: nat)
    requires PossibleRun(EMPTY, h)
    ensures SlotBounded(SlotOf(After(EMPTY, h), pid))
  {
    RunsAreIndependent(EMPTY, h, pid);
    RunKeepsBounds(SlotOf(EMPTY, pid), h, pid);
  }

  predicate ReadyAbovePeak(r: Registry) {
    exists pid | pid in r.processes :: !AtLeast(r.processes[pid].peak, r.processes[pid].ready)
  }

  /** The readiness baseline is no such bound: it is recorded without raising the peak. */
  lemma {:induction false} ReadyBaselineMayExceedPeak()
    ensures exists h: seq<Event> :: PossibleRun(EMPTY, h) && ReadyAbovePeak(After(EMPTY, h))
  {
    var h := [Track(1, "hub", false, Some(10)), Ready(1, Some(20))];
    var a := Step(EMPTY, h[0]);
    var b := Step(a, h[1]);
    assert h[1..] == [Ready(1, Some(20))] && h[1..][1..] == [];
    assert 1 in b.processes && !AtLeast(b.processes[1].peak, b.processes[1].ready);
    assert After(EMPTY, h) == b && PossibleRun(EMPTY, h) by {
      assert After(b, []) == b && PossibleRun(b, []);
      assert After(a, h[1..]) == b && PossibleRun(a, h[1..]);
    }
  }
}
