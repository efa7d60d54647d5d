/**
 What the memory registry (bdd/lib/memory-registry.ts) knows and reports about a process, by the readings that were
 taken of it since it was tracked.
 */
module MemoryEvidence {
  import opened Common
  import opened MemoryRegistry

  // ----- A history of one process -----------------------------------------------------------------------

  /** Some event of the history marked the process as expected to exit. */
  predicate Marked(h: seq<Event>, pid: nat) {
    exists i :: 0 <= i < |h| && h[i].Mark? && pid in h[i].pids
  }

  /** What was read when the process last became ready. */
  function LastReady(h: seq<Event>, pid: nat): Option<nat> {
    if h == [] then None
    else
      var last := h[|h| - 1];
      if last.Ready? && last.pid == pid then last.rss else LastReady(h[..|h| - 1], pid)
  }

  /** The reading that an event takes of the process. */
  function Read(e: Event, pid: nat): Option<nat> {
    match e
    case Sample(readings) => if pid in readings then Some(readings[pid]) else None
    case Assert(_, _, c) => if pid in c.polled then Some(c.polled[pid]) else None
    case _ => None
  }

  /** What the last sample read. */
  function LastSample(h: seq<Event>, pid: nat): Option<nat> {
    if h == [] then None
    else
      var last := h[|h| - 1];
      if last.Sample? && Read(last, pid).Some? then Read(last, pid) else LastSample(h[..|h| - 1], pid)
  }

  /**
   The baseline of a process of which nothing was read when it was tracked: the first reading of an assertion that finds
   it neither marked nor ready.
   */
  function FirstBase(h: seq<Event>, marked: bool, pid: nat): Option<nat> {
    if h == [] then None
    else
      var front, last := h[..|h| - 1], h[|h| - 1];
      var before := FirstBase(front, marked, pid);
      if before.Some? || !last.Assert? || marked || Marked(front, pid) || LastReady(front, pid).Some? then before
      else Read(last, pid)
  }

  /** The process neither exits nor is removed, and no assertion finds it gone once it is expected to exit. */
  predicate StaysTracked(h: seq<Event>, marked: bool, pid: nat) {
    forall i :: 0 <= i < |h| ==>
      && !(h[i].Exit? && h[i].pid == pid) && !(h[i].Untrack? && h[i].pid == pid)
      && (h[i].Assert? && (marked || Marked(h[..i], pid)) ==> pid in h[i].check.polled)
  }

  /** Every reading is at most the peak, which is one of them; there is a peak if there was a reading. */
  predicate IsPeak(peak: Option<nat>, spawn: Option<nat>, h: seq<Event>, pid: nat) {
    && (spawn.Some? ==> peak.Some? && spawn.value <= peak.value)
    && (forall i :: 0 <= i < |h| && Read(h[i], pid).Some? ==> peak.Some? && Read(h[i], pid).value <= peak.value)
    && (peak.Some? ==> peak == spawn || exists i :: 0 <= i < |h| && Read(h[i], pid) == peak)
  }

  /** The record of a process that was tracked with a reading and then had this history. */
  predicate Knows(t: Tracked, name: string, marked: bool, spawn: Option<nat>, h: seq<Event>, pid: nat) {
    && t.name == name && t.exit == None
    && t.expectExit == (marked || Marked(h, pid))
    && t.ready == LastReady(h, pid)
    && t.baseline == (if spawn.Some? then spawn else FirstBase(h, marked, pid))
    && t.final == LastSample(h, pid)
    && IsPeak(t.peak, spawn, h, pid)
  }

  // ----- One event more ------------------------------------------------------------------------------------

  lemma {:induction false} MarkedSnoc(h: seq<Event>, e: Event, pid: nat)
    ensures Marked(h + [e], pid) <==> Marked(h, pid) || (e.Mark? && pid in e.pids)
  {
    var all := h + [e];
    if i :| 0 <= i < |h| && h[i].Mark? && pid in h[i].pids {
      assert all[i] == h[i];
    }
    assert all[|h|] == e;
  }

  lemma {:induction false} StaysSnoc(h: seq<Event>, e: Event, marked: bool, pid: nat)
    requires StaysTracked(h + [e], marked, pid)
    ensures StaysTracked(h, marked, pid)
    ensures !(e.Exit? && e.pid == pid) && !(e.Untrack? && e.pid == pid)
    ensures e.Assert? && (marked || Marked(h, pid)) ==> pid in e.check.polled
  {
    var all := h + [e];
    assert all[|h|] == e && all[..|h|] == h;
    forall i | 0 <= i < |h|
      ensures !(h[i].Exit? && h[i].pid == pid) && !(h[i].Untrack? && h[i].pid == pid)
      ensures h[i].Assert? && (marked || Marked(h[..i], pid)) ==> pid in h[i].check.polled
    {
      assert all[i] == h[i] && all[..i] == h[..i];
    }
  }

  lemma {:induction false} PeakSnoc(
      before: Option<nat>, after: Option<nat>, spawn: Option<nat>, h: seq<Event>, e: Event, pid: nat)
    requires IsPeak(before, spawn, h, pid)
    requires after == match Read(e, pid)
      case None => before
      case Some(reading) => if before.Some? && reading <= before.value then before else Some(reading)
    ensures IsPeak(after, spawn, h + [e], pid)
  {
    var all := h + [e];
    assert all[|h|] == e;
    assert forall i :: 0 <= i < |h| ==> all[i] == h[i];
    if after.Some? && after != spawn {
      if after == before {
        var i :| 0 <= i < |h| && Read(h[i], pid) == before;
        assert Read(all[i], pid) == after;
      } else {
        assert Read(all[|h|], pid) == after;
      }
    }
  }

  lemma {:induction false} KnowsNext(
      s: Slot, name: string, marked: bool, spawn: Option<nat>, h: seq<Event>, e: Event, pid: nat)
    requires s.tracked.Some? && Knows(s.tracked.value, name, marked, spawn, h, pid)
    requires StaysTracked(h + [e], marked, pid)
    ensures var after := SlotStep(s, e, pid).tracked;
      after.Some? && Knows(after.value, name, marked, spawn, h + [e], pid)
  {
    hide IsPeak, Marked, StaysTracked;
    SnocFront(h, e);
    MarkedSnoc(h, e, pid);
    StaysSnoc(h, e, marked, pid);
    PeakSnoc(s.tracked.value.peak, SlotStep(s, e, pid).tracked.value.peak, spawn, h, e, pid);
  }

  lemma {:induction false} KnowsAtFirst(name: string, marked: bool, spawn: Option<nat>, pid: nat)
    ensures Knows(NewRecord(name, marked, spawn), name, marked, spawn, [], pid)
  {
  }

  lemma {:induction false} KnowsHistory(
      s: Slot, name: string, marked: bool, spawn: Option<nat>, h: seq<Event>, pid: nat)
    requires s.tracked == Some(NewRecord(name, marked, spawn)) && StaysTracked(h, marked, pid)
    ensures var after := SlotAfter(s, h, pid).tracked;
      after.Some? && Knows(after.value, name, marked, spawn, h, pid)
  {
    hide Knows, StaysTracked;
    if h == [] {
      KnowsAtFirst(name, marked, spawn, pid);
    } else {
      var front, last := h[..|h| - 1], h[|h| - 1];
      FrontAndLast(h);
      StaysSnoc(front, last, marked, pid);
      KnowsHistory(s, name, marked, spawn, front, pid);
      SlotAppend(s, front, [last], pid);
      KnowsNext(SlotAfter(s, front, pid), name, marked, spawn, front, last, pid);
      assert [last][1..] == [];
    }
  }

  /** The record that the registry keeps of a process, by everything that was read of it since it was tracked. */
  lemma {:induction false} RecordTellsReadings(
      r: Registry, pid: nat, name: string, marked: bool, spawn: Option<nat>, h: seq<Event>)
    requires pid !in r.processes && StaysTracked(h, marked, pid)
    requires PossibleRun(r, [Track(pid, name, marked, spawn)] + h)
    ensures var after := After(r, [Track(pid, name, marked, spawn)] + h);
      pid in after.processes && Knows(after.processes[pid], name, marked, spawn, h, pid)
  {
    hide Knows, StaysTracked, PossibleRun;
    var first := Track(pid, name, marked, spawn);
    RunsAreIndependent(r, [first] + h, pid);
    SlotAppend(SlotOf(r, pid), [first], h, pid);
    assert [first][1..] == [];
    KnowsHistory(SlotStep(SlotOf(r, pid), first, pid), name, marked, spawn, h, pid);
  }

  /** What its exit leaves: the record with the last readings, kept, and pending unless the exit was expected. */
  lemma {:induction false} ExitKeepsRecord(
      r: Registry, pid: nat, name: string, marked: bool, spawn: Option<nat>, h: seq<Event>, info: ExitInfo,
      rss: Option<nat>)
    requires pid !in r.processes && StaysTracked(h, marked, pid)
    requires PossibleRun(r, [Track(pid, name, marked, spawn)] + h)
    ensures var now := After(r, [Track(pid, name, marked, spawn)] + h);
      var after := Step(now, Exit(pid, info, rss));
      && pid in now.processes && pid !in after.processes && pid in after.completed
      && var was, t := now.processes[pid], after.completed[pid];
      && t.name == name && t.exit == Some(info) && t.expectExit == (marked || Marked(h, pid))
      && t.baseline == was.baseline && t.ready == LastReady(h, pid)
      && t.final == (if rss.Some? then rss else if LastSample(h, pid).Some? then LastSample(h, pid) else was.peak)
      && t.peak == (if rss.Some? && (was.peak.None? || was.peak.value < rss.value) then rss else was.peak)
      && (if t.expectExit then after.exited == now.exited else after.exited == now.exited[pid := t])
  {
    hide StaysTracked, PossibleRun, After, Marked, LastReady, LastSample, IsPeak;
    RecordTellsReadings(r, pid, name, marked, spawn, h);
  }

  // ----- What an assertion reports ------------------------------------------------------------------------------

  lemma {:induction false} AboutKeeps(reports: seq<Report>, report: Report)
    ensures report in reports <==> report in About(reports, report.pid)
  {
    if reports != [] {
      AboutKeeps(reports[..|reports| - 1], report);
      FrontAndLast(reports);
    }
  }

  lemma {:induction false} ReportsOfRecord(s: Slot, e: Event, pid: nat, report: Report)
    requires e.Assert? && s.tracked.Some? && !report.Unexpected?
    ensures report in SlotReports(s, e, pid)
      <==> report in Complaint(s.tracked.value, pid, Lookup(e.check.polled, pid), e.check.threshold)
  {
  }

  lemma {:induction false} ComplaintMeans(t: Tracked, pid: nat, rss: Option<nat>, threshold: int, report: Report)
    requires report.pid == pid
    ensures var base := if t.ready.Some? then t.ready else t.baseline;
      report in Complaint(t, pid, rss, threshold) <==> match report
        case StillRunning(_) => t.expectExit && rss.Some?
        case Inaccessible(_) => !t.expectExit && rss.None?
        case OverThreshold(_, delta) =>
          !t.expectExit && rss.Some? && base.Some? && delta == rss.value - base.value && delta > threshold
        case Unexpected(_, _) => false
  {
  }

  /**
   For any registry and any history of a process that stays tracked, an assertion reports it as still running exactly
   when it is marked and something was read of it, as inaccessible exactly when it is not marked and nothing was read,
   and as over the threshold exactly when it is not marked and the reading exceeds the baseline by more than that: the
   reading at its last readiness, or else the one it was tracked with, or else the first one of an assertion.
   */
  lemma {:induction false} ReportedByReadings(
      r: Registry, pid: nat, name: string, marked: bool, spawn: Option<nat>, h: seq<Event>,
      walk: seq<nat>, exits: seq<nat>, c: Check, report: Report)
    requires pid !in r.processes && StaysTracked(h, marked, pid) && report.pid == pid && !report.Unexpected?
    requires PossibleRun(r, [Track(pid, name, marked, spawn)] + h)
    requires Walks(After(r, [Track(pid, name, marked, spawn)] + h), walk, exits)
    ensures var expected := marked || Marked(h, pid);
      var base :=
        if LastReady(h, pid).Some? then LastReady(h, pid)
        else if spawn.Some? then spawn else FirstBase(h, marked, pid);
      report in Reports(After(r, [Track(pid, name, marked, spawn)] + h), Assert(walk, exits, c))
      <==> match report
        case StillRunning(_) => expected && pid in c.polled
        case Inaccessible(_) => !expected && pid !in c.polled
        case OverThreshold(_, delta) =>
          !expected && pid in c.polled && base.Some? && c.polled[pid] == base.value + delta && delta > c.threshold
        case Unexpected(_, _) => false
  {
    hide StaysTracked, PossibleRun, Marked, LastReady, FirstBase, Complaint, After, Reports, Walks;
    var now, e := After(r, [Track(pid, name, marked, spawn)] + h), Assert(walk, exits, c);
    RecordTellsReadings(r, pid, name, marked, spawn, h);
    assert Possible(now, e);
    ProcessesAreIndependent(now, e, pid);
    AboutKeeps(Reports(now, e), report);
    ReportsOfRecord(SlotOf(now, pid), e, pid, report);
    ComplaintMeans(now.processes[pid], pid, Lookup(c.polled, pid), c.threshold, report);
  }
}
