/**
 The serial life of one mode (runMode of scripts/run-bdd-modes.js): take the host-wide lock, run the
 chunks one after another, ramp down, clean up what was started, and give the lock back.  Whatever a
 call does is decided by the world, a function of the calls made so far.
 */
module BddLifecycle {
  import opened Common
  import BddChunks

  datatype Call =
    | AcquireLock
    | RampDown(previous: Option<string>, next: Option<string>)
    | RampUp(previous: Option<string>, next: Option<string>)
    | RunChunk(chunk: string)
    | Cleanup(chunk: string)
    | ReleaseLock

  datatype Reply = Returns(status: int) | Throws(error: string)

  /** The reply to the last call of a history. */
  type World = seq<Call> -> Reply

  /** What runMode keeps while it runs: the calls made so far and its local variables. */
  datatype Progress = Progress(
    calls: seq<Call>,
    started: seq<string>,
    previous: Option<string>,
    active: Option<string>,
    result: int,
    thrown: Option<string>)

  predicate Stopped(p: Progress) {
    p.thrown.Some? || p.result != 0
  }

  /** Makes one call and records what it threw; its status is left to the caller. */
  function Make(p: Progress, call: Call, world: World): Progress {
    var calls := p.calls + [call];
    var reply := world(calls);
    p.(calls := calls, thrown := if reply.Throws? then Some(reply.error) else None)
  }

  function Ramped(p: Progress, chunk: string, world: World): Progress {
    var a := p.(active := Some(chunk));
    var b := if p.previous.Some? then Make(a, RampDown(p.previous, Some(chunk)), world) else a;
    if b.thrown.Some? then b else Make(b, RampUp(p.previous, Some(chunk)), world)
  }

  /** One round of the loop: ramp down from the previous chunk, ramp up, run. */
  function Attempt(p: Progress, chunk: string, world: World): Progress
    requires !Stopped(p)
  {
    var r := Ramped(p, chunk, world);
    if r.thrown.Some? then r
    else
      var s := Make(r.(started := r.started + [chunk]), RunChunk(chunk), world);
      var reply := world(s.calls);
      if reply.Throws? then s
      else if reply.status != 0 then s.(result := reply.status)
      else s.(previous := Some(chunk), active := None)
  }

  function RunAll(p: Progress, chunks: seq<string>, world: World): Progress
    decreases |chunks|
  {
    if chunks == [] || Stopped(p) then p else RunAll(Attempt(p, chunks[0], world), chunks[1..], world)
  }

  /** Cleans every started chunk whatever the cleanups throw; the first error is kept. */
  function CleanAll(
      calls: seq<Call>, chunks: seq<string>, error: Option<string>, world: World): (seq<Call>, Option<string>)
    decreases |chunks|
  {
    if chunks == [] then (calls, error)
    else
      var now := calls + [Cleanup(chunks[0])];
      var reply := world(now);
      CleanAll(now, chunks[1..], if error.None? && reply.Throws? then Some(reply.error) else error, world)
  }

  function First(a: Option<string>, b: Option<string>, c: Option<string>, status: int): Reply {
    if a.Some? then Throws(a.value)
    else if b.Some? then Throws(b.value)
    else if c.Some? then Throws(c.value)
    else Returns(status)
  }

  const START: Progress := Progress([AcquireLock], [], None, None, 0, None)

  /** The whole life after the lock was taken: all calls, and how the run ends. */
  function Life(chunks: seq<string>, world: World): (seq<Call>, Reply) {
    var p := RunAll(START, chunks, world);
    var last := if p.active.Some? then p.active else p.previous;
    var down := Make(p, RampDown(last, None), world);
    var (calls, cleanupError) := CleanAll(down.calls, p.started, None, world);
    (calls + [ReleaseLock], First(p.thrown, down.thrown, cleanupError, p.result))
  }

  class Runner {
    var calls: seq<Call>
    /** The environment's SCRAMJET_BDD_RUN_LOCK_HELD. */
    var marker: Option<string>

    method Perform(call: Call, world: World) returns (reply: Reply)
      modifies this`calls
      ensures calls == old(calls) + [call] && reply == world(calls)
    {
      calls := calls + [call];
      reply := world(calls);
    }

    /**
     Serial mode on a fresh history.  A refused lock ends the run at once with nothing else touched;
     otherwise the calls and the ending are those of `Life`, and the marker is what it was.
     */
    method RunMode(chunks: seq<string>, world: World) returns (ending: Reply)
      requires calls == []
      modifies this
      ensures marker == old(marker)
      ensures world([AcquireLock]).Throws? ==> calls == [AcquireLock] && ending == world([AcquireLock])
      ensures world([AcquireLock]).Returns? ==> (calls, ending) == Life(chunks, world)
    {
      assert calls + [AcquireLock] == [AcquireLock];
      var reply := Perform(AcquireLock, world);
      if reply.Throws? {
        return reply;
      }
      var previousMarker := marker;
      marker := Some("1");
      var p := RunChunks(chunks, world);
      var down := Perform(RampDown(if p.active.Some? then p.active else p.previous, None), world);
      var rampDownError := if down.Throws? then Some(down.error) else None;
      var cleanupError := CleanStarted(p.started, world);
      marker := previousMarker;
      calls := calls + [ReleaseLock];
      return First(p.thrown, rampDownError, cleanupError, p.result);
    }

    method RunChunks(chunks: seq<string>, world: World) returns (p: Progress)
      requires calls == START.calls
      modifies this`calls
      ensures p == RunAll(START, chunks, world) && calls == p.calls
    {
      p := START;
      var i := 0;
      while i < |chunks| && !Stopped(p)
        invariant 0 <= i <= |chunks| && calls == p.calls
        invariant RunAll(START, chunks, world) == RunAll(p, chunks[i..], world)
      {
        assert chunks[i..][0] == chunks[i] && chunks[i..][1..] == chunks[i + 1..];
        p := RunOne(p, chunks[i], world);
        i := i + 1;
      }
    }

    method RunOne(p: Progress, chunk: string, world: World) returns (q: Progress)
      requires calls == p.calls && !Stopped(p)
      modifies this`calls
      ensures q == Attempt(p, chunk, world) && calls == q.calls
    {
      q := p.(active := Some(chunk));
      if p.previous.Some? {
        var down := Perform(RampDown(p.previous, Some(chunk)), world);
        q := q.(calls := calls);
        if down.Throws? {
          return q.(thrown := Some(down.error));
        }
      }
      var up := Perform(RampUp(p.previous, Some(chunk)), world);
      q := q.(calls := calls);
      if up.Throws? {
        return q.(thrown := Some(up.error));
      }
      q := q.(started := q.started + [chunk]);
      var run := Perform(RunChunk(chunk), world);
      q := q.(calls := calls);
      if run.Throws? {
        return q.(thrown := Some(run.error));
      }
      if run.status != 0 {
        return q.(result := run.status);
      }
      return q.(previous := Some(chunk), active := None);
    }

    method CleanStarted(chunks: seq<string>, world: World) returns (error: Option<string>)
      modifies this`calls
      ensures (calls, error) == CleanAll(old(calls), chunks, None, world)
    {
      error := None;
      var i := 0;
      while i < |chunks|
        invariant 0 <= i <= |chunks|
        invariant CleanAll(old(calls), chunks, None, world) == CleanAll(calls, chunks[i..], error, world)
      {
        assert chunks[i..][0] == chunks[i] && chunks[i..][1..] == chunks[i + 1..];
        var reply := Perform(Cleanup(chunks[i]), world);
        if error.None? && reply.Throws? {
          error := Some(reply.error);
        }
        i := i + 1;
      }
    }
  }

  // ----- What a life looks like ----------------------------------------------------------------------

  /** The chunks run, and the chunks cleaned, by a history. */
  function Runs(calls: seq<Call>): seq<string> {
    if calls == [] then []
    else
      var rest, c := Runs(calls[..|calls| - 1]), calls[|calls| - 1];
      if c.RunChunk? then rest + [c.chunk] else rest
  }

  function Cleanups(calls: seq<Call>): seq<string> {
    if calls == [] then []
    else
      var rest, c := Cleanups(calls[..|calls| - 1]), calls[|calls| - 1];
      if c.Cleanup? then rest + [c.chunk] else rest
  }

  lemma {:induction false} Snoc(calls: seq<Call>, c: Call)
    ensures Runs(calls + [c]) == if c.RunChunk? then Runs(calls) + [c.chunk] else Runs(calls)
    ensures Cleanups(calls + [c]) == if c.Cleanup? then Cleanups(calls) + [c.chunk] else Cleanups(calls)
  {
    assert (calls + [c])[..|calls|] == calls;
  }

  /**
   How a history ends when errors are reported in the order they happen: with the first error thrown
   after the lock was taken, else with the first status that is not 0, else with 0.
   */
  function Ending(calls: seq<Call>, world: World): Reply {
    if |calls| <= 1 then Returns(0)
    else
      var before, reply := Ending(calls[..|calls| - 1], world), world(calls);
      if before.Throws? then before
      else if reply.Throws? then reply
      else if calls[|calls| - 1].RunChunk? && before.status == 0 then reply
      else before
  }

  lemma {:induction false} EndingSnoc(calls: seq<Call>, c: Call, world: World)
    requires calls != []
    ensures var before, reply := Ending(calls, world), world(calls + [c]);
      Ending(calls + [c], world) ==
        if before.Throws? then before
        else if reply.Throws? then reply
        else if c.RunChunk? && before.status == 0 then reply
        else before
  {
    assert (calls + [c])[..|calls|] == calls;
  }

  /** No chunk is started once something has gone wrong. */
  predicate FailsFast(calls: seq<Call>, world: World) {
    calls == [] ||
    (var front := calls[..|calls| - 1];
     (calls[|calls| - 1].RunChunk? ==> Ending(front, world) == Returns(0)) && FailsFast(front, world))
  }

  lemma {:induction false} FailsFastSnoc(calls: seq<Call>, c: Call, world: World)
    requires FailsFast(calls, world) && (c.RunChunk? ==> Ending(calls, world) == Returns(0))
    ensures FailsFast(calls + [c], world)
  {
    assert (calls + [c])[..|calls|] == calls;
  }

  /** A history of chunks and ramps whose ending is what the local variables hold. */
  ghost predicate Underway(p: Progress, world: World) {
    && p.calls != [] && ReleaseLock !in p.calls
    && Runs(p.calls) == p.started && Cleanups(p.calls) == []
    && FailsFast(p.calls, world)
    && Ending(p.calls, world) == First(p.thrown, None, None, p.result)
  }

  lemma {:induction false} MakeKeeps(p: Progress, call: Call, world: World)
    requires Underway(p, world) && !Stopped(p)
    requires call.RampDown? || call.RampUp?
    ensures Underway(Make(p, call, world), world)
    ensures Make(p, call, world).result == 0 && Make(p, call, world).started == p.started
  {
    Snoc(p.calls, call);
    EndingSnoc(p.calls, call, world);
    FailsFastSnoc(p.calls, call, world);
  }

  lemma {:induction false} RampedKeeps(p: Progress, chunk: string, world: World)
    requires Underway(p, world) && !Stopped(p)
    ensures var r := Ramped(p, chunk, world); Underway(r, world) && r.started == p.started && r.result == 0
  {
    var a := p.(active := Some(chunk));
    assert Underway(a, world);
    if p.previous.Some? {
      MakeKeeps(a, RampDown(p.previous, Some(chunk)), world);
    }
    var b := if p.previous.Some? then Make(a, RampDown(p.previous, Some(chunk)), world) else a;
    if b.thrown.None? {
      MakeKeeps(b, RampUp(p.previous, Some(chunk)), world);
    }
  }

  lemma {:induction false} AttemptKeeps(p: Progress, chunk: string, world: World)
    requires Underway(p, world) && !Stopped(p)
    ensures var q := Attempt(p, chunk, world);
      Underway(q, world) && (q.started == p.started + [chunk] || (q.started == p.started && Stopped(q)))
  {
    RampedKeeps(p, chunk, world);
    var r := Ramped(p, chunk, world);
    if r.thrown.None? {
      Snoc(r.calls, RunChunk(chunk));
      EndingSnoc(r.calls, RunChunk(chunk), world);
      FailsFastSnoc(r.calls, RunChunk(chunk), world);
    }
  }

  lemma {:induction false} RunAllKeeps(p: Progress, chunks: seq<string>, world: World)
    requires Underway(p, world)
    ensures Underway(RunAll(p, chunks, world), world)
    ensures RunAll(p, chunks, world).started <= p.started + chunks
    ensures !Stopped(RunAll(p, chunks, world)) ==> RunAll(p, chunks, world).started == p.started + chunks
    decreases |chunks|
  {
    if chunks == [] {
      AddNothing(p.started);
    } else if !Stopped(p) {
      var next := Attempt(p, chunks[0], world);
      AttemptKeeps(p, chunks[0], world);
      RunAllKeeps(next, chunks[1..], world);
      assert chunks == [chunks[0]] + chunks[1..];
      Associate(p.started, [chunks[0]], chunks[1..]);
    }
  }

  /** Cleaning appends one cleanup a chunk, in order; its error is the first one thrown. */
  lemma {:induction false} CleanAllKeeps(calls: seq<Call>, chunks: seq<string>, error: Option<string>, world: World)
    requires calls != [] && ReleaseLock !in calls && FailsFast(calls, world)
    ensures var after := CleanAll(calls, chunks, error, world).0;
      after != [] && ReleaseLock !in after && FailsFast(after, world)
      && Runs(after) == Runs(calls) && Cleanups(after) == Cleanups(calls) + chunks
    decreases |chunks|
  {
    if chunks == [] {
      AddNothing(Cleanups(calls));
    } else {
      var now := calls + [Cleanup(chunks[0])];
      Snoc(calls, Cleanup(chunks[0]));
      FailsFastSnoc(calls, Cleanup(chunks[0]), world);
      var reply := world(now);
      CleanAllKeeps(now, chunks[1..], if error.None? && reply.Throws? then Some(reply.error) else error, world);
      assert chunks == [chunks[0]] + chunks[1..];
      Associate(Cleanups(calls), [chunks[0]], chunks[1..]);
    }
  }

  lemma {:induction false} CleanAllEnding(calls: seq<Call>, chunks: seq<string>, error: Option<string>, world: World)
    requires calls != [] && (error.Some? ==> Ending(calls, world).Throws?)
    ensures var (after, e) := CleanAll(calls, chunks, error, world); var before := Ending(calls, world);
      Ending(after, world) == (if before.Throws? then before else if e.Some? then Throws(e.value) else before)
      && (error.Some? ==> e == error)
    decreases |chunks|
  {
    if chunks != [] {
      var now := calls + [Cleanup(chunks[0])];
      EndingSnoc(calls, Cleanup(chunks[0]), world);
      var reply := world(now);
      CleanAllEnding(now, chunks[1..], if error.None? && reply.Throws? then Some(reply.error) else error, world);
    }
  }

  /**
   Whatever the chunks, ramps and cleanups return or throw: the chunks run are the first ones of the
   mode, none is started after something went wrong, exactly the chunks run are cleaned, once each and
   in order, and the lock is released exactly once, last.
   */
  lemma {:induction false} LifeIsOrderly(chunks: seq<string>, world: World)
    ensures var calls := Life(chunks, world).0; var body := calls[..|calls| - 1];
      && calls == body + [ReleaseLock] && ReleaseLock !in body
      && Runs(calls) <= chunks && Cleanups(calls) == Runs(calls)
      && FailsFast(calls, world)
  {
    var p := RunAll(START, chunks, world);
    RunAllKeeps(START, chunks, world);
    AddNothing(chunks);
    var down := RampDown(if p.active.Some? then p.active else p.previous, None);
    Snoc(p.calls, down);
    FailsFastSnoc(p.calls, down, world);
    CleanAllKeeps(p.calls + [down], p.started, None, world);
    AddNothing(p.started);
    ReleasedLast(CleanAll(p.calls + [down], p.started, None, world).0, world);
  }

  lemma {:induction false} ReleasedLast(body: seq<Call>, world: World)
    requires FailsFast(body, world)
    ensures var calls := body + [ReleaseLock];
      && calls[..|calls| - 1] == body && FailsFast(calls, world)
      && Runs(calls) == Runs(body) && Cleanups(calls) == Cleanups(body)
  {
    Snoc(body, ReleaseLock);
    FailsFastSnoc(body, ReleaseLock, world);
    SnocFront(body, ReleaseLock);
  }

  /** The run ends with the first error thrown anywhere, else with the first failing status, else with 0. */
  lemma {:induction false} FirstErrorIsReported(chunks: seq<string>, world: World)
    ensures var (calls, ending) := Life(chunks, world); ending == Ending(calls[..|calls| - 1], world)
  {
    var p := RunAll(START, chunks, world);
    RunAllKeeps(START, chunks, world);
    var down := RampDown(if p.active.Some? then p.active else p.previous, None);
    EndingSnoc(p.calls, down, world);
    CleanAllEnding(p.calls + [down], p.started, None, world);
    var body := CleanAll(p.calls + [down], p.started, None, world).0;
    assert (body + [ReleaseLock])[..|body|] == body;
  }

  /** A mode that ends with 0 has run every one of its chunks. */
  lemma {:induction false} GreenMeansAllRan(chunks: seq<string>, world: World)
    requires Life(chunks, world).1 == Returns(0)
    ensures Runs(Life(chunks, world).0) == chunks
  {
    LifeRuns(chunks, world);
    RunAllKeeps(START, chunks, world);
    AddNothing(chunks);
  }

  /** The chunks run are those that were started. */
  lemma {:induction false} LifeRuns(chunks: seq<string>, world: World)
    ensures Runs(Life(chunks, world).0) == RunAll(START, chunks, world).started
  {
    var p := RunAll(START, chunks, world);
    RunAllKeeps(START, chunks, world);
    var down := RampDown(if p.active.Some? then p.active else p.previous, None);
    Snoc(p.calls, down);
    FailsFastSnoc(p.calls, down, world);
    CleanAllKeeps(p.calls + [down], p.started, None, world);
    Snoc(CleanAll(p.calls + [down], p.started, None, world).0, ReleaseLock);
  }

  // ----- The calls, one by one -------------------------------------------------------------------------

  /** One chunk: the previous one is ramped down, this one up, and then it is run. */
  function Round(previous: Option<string>, chunk: string): seq<Call> {
    (if previous.Some? then [RampDown(previous, Some(chunk))] else [])
    + [RampUp(previous, Some(chunk)), RunChunk(chunk)]
  }

  /** The chunks one after another, when nothing fails. */
  function Script(previous: Option<string>, chunks: seq<string>): seq<Call>
    decreases |chunks|
  {
    if chunks == [] then [] else Round(previous, chunks[0]) + Script(Some(chunks[0]), chunks[1..])
  }

  /** The last call throws, or is a chunk that returns a status other than 0. */
  predicate Fails(calls: seq<Call>, world: World)
    requires calls != []
  {
    world(calls).Throws? || (calls[|calls| - 1].RunChunk? && world(calls).status != 0)
  }

  /** The first n calls of a script: none before the last fails, and the last does unless the script is at its end. */
  predicate CutAt(before: seq<Call>, script: seq<Call>, n: nat, world: World) {
    && n <= |script|
    && (forall k :: 0 < k < n ==> !Fails(before + script[..k], world))
    && (n < |script| ==> n > 0 && Fails(before + script[..n], world))
  }

  /** The chunk the last call was for. */
  function LastChunk(calls: seq<Call>): Option<string> {
    if calls == [] then None
    else
      match calls[|calls| - 1]
      case RampDown(_, next) => next
      case RampUp(_, next) => next
      case RunChunk(chunk) => Some(chunk)
      case _ => None
  }

  lemma {:induction false} RoundIsFollowed(p: Progress, chunk: string, world: World) returns (n: nat)
    requires !Stopped(p)
    ensures var q, round := Attempt(p, chunk, world), Round(p.previous, chunk);
      && n > 0 && CutAt(p.calls, round, n, world) && q.calls == p.calls + round[..n]
      && LastChunk(q.calls) == Some(chunk) && (Stopped(q) <==> Fails(q.calls, world))
      && (Stopped(q) ==> q.active == Some(chunk))
      && (!Stopped(q) ==> q.active == None && q.previous == Some(chunk) && n == |round|)
  {
    var q, round := Attempt(p, chunk, world), Round(p.previous, chunk);
    n := |q.calls| - |p.calls|;
    var down := if p.previous.Some? then 1 else 0;
    assert down == 1 ==> p.calls + round[..1] == p.calls + [RampDown(p.previous, Some(chunk))];
    assert p.calls + round[..down + 1] == p.calls + round[..down] + [RampUp(p.previous, Some(chunk))];
    assert p.calls + round[..down + 2] == p.calls + round[..down + 1] + [RunChunk(chunk)];
    assert p.calls + round[..0] == p.calls;
  }

  lemma {:induction false} CutLater(before: seq<Call>, a: seq<Call>, b: seq<Call>, n: nat, world: World)
    requires CutAt(before + a, b, n, world) && CutAt(before, a, |a|, world)
    requires a != [] && !Fails(before + a, world)
    ensures CutAt(before, a + b, |a| + n, world) && before + (a + b)[..|a| + n] == before + a + b[..n]
  {
    assert (a + b)[..|a| + n] == a + b[..n];
    forall k | 0 < k < |a| + n ensures !Fails(before + (a + b)[..k], world) {
      if k < |a| {
        assert (a + b)[..k] == a[..k];
      } else {
        assert (a + b)[..k] == a + b[..k - |a|];
        assert before + (a + b)[..k] == before + a + b[..k - |a|];
        assert k == |a| ==> before + (a + b)[..k] == before + a;
      }
    }
    assert before + (a + b)[..|a| + n] == before + a + b[..n];
  }

  lemma {:induction false} NothingToCut(before: seq<Call>, world: World)
    ensures CutAt(before, [], 0, world)
  {
  }

  lemma {:induction false} ScriptIsFollowed(p: Progress, chunks: seq<string>, world: World) returns (n: nat)
    requires !Stopped(p) && p.active.None?
    ensures var q, script := RunAll(p, chunks, world), Script(p.previous, chunks);
      && CutAt(p.calls, script, n, world) && q.calls == p.calls + script[..n]
      && (if q.active.Some? then q.active else q.previous) == (if n == 0 then p.previous else LastChunk(q.calls))
    decreases |chunks|
  {
    hide Attempt, Round, CutAt, Fails;
    if chunks == [] {
      n := 0;
      NothingToCut(p.calls, world);
      AddNothing(p.calls);
    } else {
      var q, round, rest := Attempt(p, chunks[0], world), Round(p.previous, chunks[0]), chunks[1..];
      n := RoundIsFollowed(p, chunks[0], world);
      if Stopped(q) {
        assert (round + Script(Some(chunks[0]), rest))[..n] == round[..n];
        CutEarlier(p.calls, round, Script(Some(chunks[0]), rest), n, world);
      } else {
        assert round[..|round|] == round;
        var m := ScriptIsFollowed(q, rest, world);
        CutLater(p.calls, round, Script(Some(chunks[0]), rest), m, world);
        n := n + m;
        assert m == 0 ==> RunAll(q, rest, world).calls == q.calls by {
          AddNothing(q.calls);
        }
      }
    }
  }

  lemma {:induction false} CutEarlier(before: seq<Call>, a: seq<Call>, b: seq<Call>, n: nat, world: World)
    requires CutAt(before, a, n, world) && n > 0 && before + a[..n] != [] && Fails(before + a[..n], world)
    ensures CutAt(before, a + b, n, world)
  {
    assert (a + b)[..n] == a[..n];
    forall k | 0 < k < n ensures !Fails(before + (a + b)[..k], world) {
      assert (a + b)[..k] == a[..k];
    }
  }

  function CleanupsOf(chunks: seq<string>): seq<Call> {
    seq(|chunks|, i requires 0 <= i < |chunks| => Cleanup(chunks[i]))
  }

  lemma {:induction false} CleansInOrder(calls: seq<Call>, chunks: seq<string>, error: Option<string>, world: World)
    ensures CleanAll(calls, chunks, error, world).0 == calls + CleanupsOf(chunks)
    decreases |chunks|
  {
    if chunks == [] {
      AddNothing(calls);
    } else {
      var now := calls + [Cleanup(chunks[0])];
      var reply := world(now);
      CleansInOrder(now, chunks[1..], if error.None? && reply.Throws? then Some(reply.error) else error, world);
      assert CleanupsOf(chunks) == [Cleanup(chunks[0])] + CleanupsOf(chunks[1..]);
    }
  }

  /**
   Every call of a life: the lock, the script up to its first failing call, one ramp down from the chunk of the last
   call, the cleanups of the chunks run, and the release of the lock.
   */
  lemma {:induction false} LifeFollowsTheScript(chunks: seq<string>, world: World) returns (n: nat)
    ensures var script, calls := Script(None, chunks), Life(chunks, world).0;
      && CutAt([AcquireLock], script, n, world)
      && calls == [AcquireLock] + script[..n] + [RampDown(LastChunk([AcquireLock] + script[..n]), None)]
        + CleanupsOf(Runs(calls)) + [ReleaseLock]
  {
    var p := RunAll(START, chunks, world);
    n := ScriptIsFollowed(START, chunks, world);
    LifeRuns(chunks, world);
    var down := RampDown(if p.active.Some? then p.active else p.previous, None);
    CleansInOrder(p.calls + [down], p.started, None, world);
  }

  /**
   Base and extra mode both ending with 0 under accepted manifest and split: each eligible feature on
   disk has been run exactly once, and no excluded one.
   */
  lemma {:induction false} BothGreenMeansAllFeaturesRan(
      m: BddChunks.Manifest, disk: BddChunks.Disk, base: seq<string>, extra: seq<string>, world: World, later: World,
      feature: string)
    requires BddChunks.ManifestHolds(m, disk) && BddChunks.Splits(base, extra, m.defaults)
    requires Life(base, world).1 == Returns(0) && Life(extra, later).1 == Returns(0)
    ensures var ran := BddChunks.Features(m, Runs(Life(base, world).0) + Runs(Life(extra, later).0));
      && (feature in disk.features && !BddChunks.Excluded(m, feature) ==> multiset(ran)[feature] == 1)
      && (BddChunks.Excluded(m, feature) ==> feature !in ran)
  {
    GreenMeansAllRan(base, world);
    GreenMeansAllRan(extra, later);
    BddChunks.EveryFeatureRunsOnce(m, disk, base, extra, feature);
  }
}
