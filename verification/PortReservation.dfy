/**
 Port reservation by marker files (allocateOwnedPort of bdd/lib/ownership.js), run by one process at
 a time: a marker whose owner is gone is reclaimed and its port tried again.
 */
module PortReservation {
  import opened Common

  // ----- Where the search starts -----------------------------------------------------------------

  const WORD: nat := 0x1_0000_0000

  function Pow31(n: nat): nat {
    if n == 0 then 1 else 31 * Pow31(n - 1)
  }

  /** The characters of the chunk id as the coefficients of a polynomial at 31, the first highest. */
  function Polynomial(s: string): nat {
    if s == "" then 0 else s[0] as nat * Pow31(|s| - 1) + Polynomial(s[1..])
  }

  lemma {:induction false} NextCoefficient(s: string, c: char)
    ensures Polynomial(s + [c]) == 31 * Polynomial(s) + c as nat
  {
    var t := s + [c];
    if s == "" {
      assert t[1..] == "" && Pow31(0) == 1;
    } else {
      var first, power := s[0] as nat, Pow31(|s| - 1);
      assert t[1..] == s[1..] + [c];
      NextCoefficient(s[1..], c);
      assert Pow31(|s|) == 31 * power;
      assert first * (31 * power) == 31 * (first * power);
    }
  }

  lemma {:induction false} FoldModulo(value: nat, c: nat)
    ensures ((value % WORD) * 31 + c) % WORD == (31 * value + c) % WORD
  {
    var q, r := value / WORD, value % WORD;
    assert value == q * WORD + r;
    assert 31 * value + c == (r * 31 + c) + (31 * q) * WORD;
    AddMultiple(r * 31 + c, 31 * q);
  }

  lemma {:induction false} AddMultiple(a: nat, k: nat)
    ensures (a + k * WORD) % WORD == a % WORD
  {
    if k > 0 {
      AddMultiple(a, k - 1);
      assert a + k * WORD == (a + (k - 1) * WORD) + WORD;
    }
  }

  /** The fold `(sum * 31 + code) >>> 0` computes the polynomial modulo 2^32. */
  method ChunkHash(chunkId: string) returns (hash: nat)
    ensures hash == Polynomial(chunkId) % WORD
  {
    hash := 0;
    for i := 0 to |chunkId|
      invariant hash == Polynomial(chunkId[..i]) % WORD
    {
      assert chunkId[..i + 1] == chunkId[..i] + [chunkId[i]];
      NextCoefficient(chunkId[..i], chunkId[i]);
      FoldModulo(Polynomial(chunkId[..i]), chunkId[i] as nat);
      hash := (hash * 31 + chunkId[i] as nat) % WORD;
    }
    assert chunkId[..|chunkId|] == chunkId;
  }

  function Spread(width: nat): (spread: nat)
    ensures spread > 0
  {
    if width <= 50 then 1 else width - 50
  }

  function StartPort(base: nat, width: nat, hash: nat): nat {
    base + hash % Spread(width)
  }

  /** The search stays within `width` ports of its start, which is past base + width unless it starts at base. */
  lemma {:induction false} SearchedRange(base: nat, width: nat, hash: nat)
    ensures base <= StartPort(base, width, hash)
    ensures width > 50 ==> StartPort(base, width, hash) < base + width - 50
    ensures StartPort(base, width, hash) + width <= base + width <==> hash % Spread(width) == 0
  {
  }

  // ----- Markers -----------------------------------------------------------------------------------

  /** A marker file: the pid and token it records, or text that does not parse. */
  datatype Marker = Marker(pid: Option<nat>, token: nat) | Unreadable

  type Markers = map<nat, Marker>

  /** What the host looks like during one search: live pids, ports in use, ports that fail otherwise. */
  datatype Host = Host(alive: set<nat>, busy: set<nat>, faulty: set<nat>)

  predicate Reclaimable(host: Host, marker: Marker) {
    marker.Marker? && (marker.pid.None? || marker.pid.value !in host.alive)
  }

  /** No live or unreadable marker stands in the way. */
  predicate Claimable(host: Host, markers: Markers, port: nat) {
    port !in markers || Reclaimable(host, markers[port])
  }

  predicate Available(host: Host, markers: Markers, port: nat) {
    Claimable(host, markers, port) && port !in host.busy
  }

  /** The markers without the reclaimable ones of a range of ports, from the first port to the last. */
  function Cleaned(host: Host, markers: Markers, lo: nat, hi: nat): Markers
    decreases hi
  {
    if hi <= lo then markers
    else
      var rest := Cleaned(host, markers, lo, hi - 1);
      if hi - 1 in rest && Reclaimable(host, rest[hi - 1]) then rest - {hi - 1} else rest
  }

  /** Exactly the reclaimable markers of the range go, and the others keep what they record. */
  lemma {:induction false} CleanedAt(host: Host, markers: Markers, lo: nat, hi: nat, port: nat)
    ensures port in Cleaned(host, markers, lo, hi)
      <==> port in markers && !(lo <= port < hi && Reclaimable(host, markers[port]))
    ensures port in Cleaned(host, markers, lo, hi) ==> Cleaned(host, markers, lo, hi)[port] == markers[port]
    decreases hi
  {
    if lo < hi {
      CleanedAt(host, markers, lo, hi - 1, port);
    }
  }

  predicate NoneAvailable(host: Host, markers: Markers, lo: nat, hi: nat)
    decreases hi
  {
    hi <= lo || (!Available(host, markers, hi - 1) && NoneAvailable(host, markers, lo, hi - 1))
  }

  lemma {:induction false} NoneAvailableAt(host: Host, markers: Markers, lo: nat, hi: nat, port: nat)
    requires NoneAvailable(host, markers, lo, hi) && lo <= port < hi
    ensures !Available(host, markers, port)
    decreases hi
  {
    if port < hi - 1 {
      NoneAvailableAt(host, markers, lo, hi - 1, port);
    }
  }

  datatype Result = Allocated(port: nat) | Exhausted | Failed(at: nat)

  /** The first available port of the range is taken; on the way only dead owners' markers are removed. */
  predicate Allocates(
      host: Host, pid: nat, token: nat, start: nat, width: nat, before: Markers, r: Result, after: Markers)
  {
    match r
    case Allocated(port) =>
      && start <= port < start + width
      && Available(host, before, port) && port !in host.faulty
      && NoneAvailable(host, before, start, port)
      && after == Cleaned(host, before, start, port + 1)[port := Marker(Some(pid), token)]
    case Failed(port) =>
      && start <= port < start + width
      && Available(host, before, port) && port in host.faulty
      && NoneAvailable(host, before, start, port)
      && after == Cleaned(host, before, start, port + 1)
    case Exhausted =>
      && NoneAvailable(host, before, start, start + width)
      && after == Cleaned(host, before, start, start + width)
  }

  /** What one attempt at a port came to. */
  datatype Attempt = Claimed | Broken | Reclaimed | Skipped

  class Reservations {
    var markers: Markers

    /** Creates the marker exclusively and probes the port; a dead owner's marker is only removed. */
    method TryPort(host: Host, pid: nat, token: nat, port: nat) returns (attempt: Attempt)
      modifies this
      ensures port in old(markers) && Reclaimable(host, old(markers)[port])
        ==> attempt == Reclaimed && markers == old(markers) - {port}
      ensures port in old(markers) && !Reclaimable(host, old(markers)[port])
        ==> attempt == Skipped && markers == old(markers)
      ensures port !in old(markers) && port in host.busy ==> attempt == Skipped && markers == old(markers)
      ensures port !in old(markers) && port !in host.busy && port in host.faulty
        ==> attempt == Broken && markers == old(markers)
      ensures port !in old(markers) && port !in host.busy && port !in host.faulty
        ==> attempt == Claimed && markers == old(markers)[port := Marker(Some(pid), token)]
    {
      if port !in markers {
        markers := markers[port := Unreadable];
        if port !in host.busy && port !in host.faulty {
          markers := markers[port := Marker(Some(pid), token)];
          return Claimed;
        }
        markers := markers - {port};
        return if port in host.busy then Skipped else Broken;
      }
      if Reclaimable(host, markers[port]) {
        markers := markers - {port};
        return Reclaimed;
      }
      return Skipped;
    }

    method AllocateOwnedPort(host: Host, pid: nat, token: nat, start: nat, width: nat) returns (r: Result)
      modifies this
      ensures Allocates(host, pid, token, start, width, old(markers), r, markers)
    {
      ghost var before := markers;
      ghost var again := false;
      var offset := 0;
      while offset < width
        invariant 0 <= offset <= width
        invariant NoneAvailable(host, before, start, start + offset)
        invariant !again ==> markers == Cleaned(host, before, start, start + offset)
        invariant again ==> offset < width && Claimable(host, before, start + offset)
        invariant again ==> markers == Cleaned(host, before, start, start + offset + 1)
        decreases width - offset, !again
      {
        var port := start + offset;
        CleanedStep(host, before, start, port);
        var attempt := TryPort(host, pid, token, port);
        match attempt
        case Claimed =>
          return Allocated(port);
        case Broken =>
          return Failed(port);
        case Reclaimed =>
          again := true;
        case Skipped =>
          again := false;
          offset := offset + 1;
      }
      return Exhausted;
    }

    /** `release`: only the reservation that still carries the token is removed. */
    method Release(port: nat, token: nat)
      modifies this
      ensures markers == if port in old(markers) && old(markers)[port].Marker? && old(markers)[port].token == token
                         then old(markers) - {port} else old(markers)
    {
      if port in markers && markers[port].Marker? && markers[port].token == token {
        markers := markers - {port};
      }
    }
  }

  lemma {:induction false} CleanedStep(host: Host, markers: Markers, start: nat, port: nat)
    requires start <= port
    ensures var before, after := Cleaned(host, markers, start, port), Cleaned(host, markers, start, port + 1);
      && (port in before <==> port in markers)
      && (port in before ==> before[port] == markers[port])
      && after == (if port in before && Reclaimable(host, before[port]) then before - {port} else before)
      && (Claimable(host, markers, port) ==> port !in after)
      && (!Claimable(host, markers, port) ==> port in after && !Reclaimable(host, after[port]))
  {
    CleanedAt(host, markers, start, port, port);
  }

  // ----- What a search guarantees ---------------------------------------------------------------------

  /** No search removes or changes a live owner's marker. */
  lemma {:induction false} LiveMarkersStay(
      host: Host, pid: nat, token: nat, start: nat, width: nat, before: Markers, r: Result, after: Markers, port: nat)
    requires Allocates(host, pid, token, start, width, before, r, after)
    requires port in before && !Reclaimable(host, before[port])
    ensures port in after && after[port] == before[port]
  {
    var hi := if r.Exhausted? then start + width else if r.Allocated? then r.port + 1 else r.at + 1;
    CleanedAt(host, before, start, hi, port);
  }

  /** Ports outside the searched range keep their markers, whoever owns them. */
  lemma {:induction false} OutsideStays(
      host: Host, pid: nat, token: nat, start: nat, width: nat, before: Markers, r: Result, after: Markers, port: nat)
    requires Allocates(host, pid, token, start, width, before, r, after)
    requires !(start <= port < start + width)
    ensures port in before <==> port in after
    ensures port in before ==> after[port] == before[port]
  {
    var hi := if r.Exhausted? then start + width else if r.Allocated? then r.port + 1 else r.at + 1;
    CleanedAt(host, before, start, hi, port);
  }

  /** While the first owner lives, a second search never hands out the same port. */
  lemma {:induction false} PortsAreNotShared(
      host: Host, pid: nat, token: nat, start: nat, width: nat, before: Markers, r: Result, middle: Markers,
      later: Host, pid': nat, token': nat, start': nat, width': nat, r': Result, after: Markers)
    requires Allocates(host, pid, token, start, width, before, r, middle) && r.Allocated?
    requires pid in later.alive && Allocates(later, pid', token', start', width', middle, r', after)
    ensures r'.Allocated? ==> r'.port != r.port
    ensures r.port in after && after[r.port] == Marker(Some(pid), token)
  {
    LiveMarkersStay(later, pid', token', start', width', middle, r', after, r.port);
  }

  /** The first available port is taken, and the search gives up exactly when there is none. */
  lemma {:induction false} FirstAvailableIsTaken(
      host: Host, pid: nat, token: nat, start: nat, width: nat, before: Markers, r: Result, after: Markers)
    requires Allocates(host, pid, token, start, width, before, r, after)
    ensures r.Exhausted? <==> forall p :: start <= p < start + width ==> !Available(host, before, p)
    ensures r.Allocated? ==> Available(host, before, r.port)
    ensures r.Allocated? ==> forall p :: start <= p < r.port ==> !Available(host, before, p)
  {
    var hi := if r.Exhausted? then start + width else if r.Allocated? then r.port else r.at;
    forall p | start <= p < hi
      ensures !Available(host, before, p)
    {
      NoneAvailableAt(host, before, start, hi, p);
    }
  }

  /** A marker file of a process that is not alive, or of none. */
  predicate IsDead(host: Host, markers: Markers, port: nat) {
    && port in markers && markers[port].Marker?
    && (markers[port].pid == None || markers[port].pid.value !in host.alive)
  }

  predicate IsFree(host: Host, markers: Markers, port: nat) {
    port !in host.busy && (port !in markers || IsDead(host, markers, port))
  }

  /**
   The outcome of a search, port by port: it ends at the first port that is free, in an error exactly when that port
   fails otherwise; the dead markers up to there are removed, and a port that was taken is marked as the caller's.
   */
  lemma {:induction false} SearchExactly(
      host: Host, pid: nat, token: nat, start: nat, width: nat, before: Markers, r: Result, after: Markers)
    requires Allocates(host, pid, token, start, width, before, r, after)
    ensures r.Exhausted? <==> forall p: nat :: start <= p < start + width ==> !IsFree(host, before, p)
    ensures !r.Exhausted? ==>
      var at := if r.Allocated? then r.port else r.at;
      && start <= at < start + width && IsFree(host, before, at) && (r.Failed? <==> at in host.faulty)
      && forall p: nat :: start <= p < at ==> !IsFree(host, before, p)
    ensures var end := if r.Allocated? then r.port + 1 else if r.Failed? then r.at + 1 else start + width;
      forall q: nat ::
        && (q in after <==>
              (r.Allocated? && q == r.port) || (q in before && !(start <= q < end && IsDead(host, before, q))))
        && (q in after ==>
              after[q] == if r.Allocated? && q == r.port then Marker(Some(pid), token) else before[q])
  {
    FirstAvailableIsTaken(host, pid, token, start, width, before, r, after);
    var end := if r.Allocated? then r.port + 1 else if r.Failed? then r.at + 1 else start + width;
    forall q: nat
      ensures (IsFree(host, before, q) <==> Available(host, before, q))
        && (q in Cleaned(host, before, start, end)
            <==> q in before && !(start <= q < end && IsDead(host, before, q)))
        && (q in Cleaned(host, before, start, end) ==> Cleaned(host, before, start, end)[q] == before[q])
    {
      CleanedAt(host, before, start, end, q);
    }
    if r.Failed? {
      forall p: nat | start <= p < r.at ensures !IsFree(host, before, p) {
        NoneAvailableAt(host, before, start, r.at, p);
      }
    }
  }

  /**
   The port returned for a chunk is at or past base + width exactly when every port from the hashed start
   up to base + width was unavailable.
   */
  lemma {:induction false} AllocatedPastRange(
      host: Host, pid: nat, token: nat, chunkId: string, base: nat, width: nat, before: Markers, r: Result,
      after: Markers)
    requires var start := StartPort(base, width, Polynomial(chunkId) % WORD);
      Allocates(host, pid, token, start, width, before, r, after) && r.Allocated?
    ensures var start := StartPort(base, width, Polynomial(chunkId) % WORD);
      r.port >= base + width <==> forall p :: start <= p < base + width ==> !Available(host, before, p)
  {
    var start := StartPort(base, width, Polynomial(chunkId) % WORD);
    if r.port >= base + width {
      forall p | start <= p < base + width
        ensures !Available(host, before, p)
      {
        NoneAvailableAt(host, before, start, r.port, p);
      }
    }
  }

  lemma {:induction false} BusyPorts(host: Host, markers: Markers, lo: nat, hi: nat)
    requires forall p :: lo <= p < hi ==> p in host.busy
    ensures NoneAvailable(host, markers, lo, hi)
    decreases hi
  {
    if lo < hi {
      BusyPorts(host, markers, lo, hi - 1);
    }
  }

  lemma {:induction false} NothingToClean(host: Host, lo: nat, hi: nat)
    ensures Cleaned(host, map[], lo, hi) == map[]
    decreases hi
  {
    if lo < hi {
      NothingToClean(host, lo, hi - 1);
    }
  }

  /** A search that ends past its range: chunk "a" starts at 47 of 100 ports; with 47 to 99 in use it gets 100. */
  lemma {:induction false} PastRangeHappens(busy: set<nat>)
    requires (forall p :: 47 <= p < 100 ==> p in busy) && 100 !in busy
    ensures StartPort(0, 100, Polynomial("a") % WORD) == 47
    ensures Allocates(Host({}, busy, {}), 7, 9, 47, 100, map[], Allocated(100), map[100 := Marker(Some(7), 9)])
  {
    NextCoefficient("", 'a');
    assert "" + "a" == "a" && Polynomial("a") == 97;
    BusyPorts(Host({}, busy, {}), map[], 47, 100);
    NothingToClean(Host({}, busy, {}), 47, 101);
  }
}
