/**
 Publishing a bundle (scripts/release-main.js): packages go to the registry in wave order, versions
 that are already there with the recorded identity and checksum are reused, and the command may
 stop anywhere and be started again.
 */
module Publication {
  import opened Common
  import opened CanonicalJson
  import opened ReleaseDocument
  import opened VerifyBundle
  import opened PublicationReport
  import ReleaseWaves
  import RepeatedIdentity

  /** The properties of a package.json that publication reads back from the registry. */
  datatype Manifest = Manifest(
    name: Option<Json>, version: Option<Json>, identityDigest: Option<Json>, packageChecksum: Option<Json>)

  function Reading(json: seq<Field>): Manifest {
    var release := Member(Lookup(json, "scramjet"), "release");
    Manifest(Lookup(json, "name"), Lookup(json, "version"),
             Member(release, "identityDigest"), Member(release, "packageChecksum"))
  }

  datatype Key = Key(name: string, version: string)

  /** A publication that reached the registry, with what the registry held just before it. */
  datatype Event = Event(key: Key, before: map<Key, Manifest>)

  datatype State = State(versions: map<Key, Manifest>, log: seq<Event>)

  // ----- What can go wrong ------------------------------------------------------------------

  datatype Failure = Failure(message: string, stderr: string)

  /** The registry answers a view, or the view fails. */
  datatype View = Answers | Fails(failure: Failure)

  /** `npm publish` succeeds, fails without effect, or fails after the registry took the package. */
  datatype Landing = Lands | FailsBefore | FailsAfter

  /** What happens to the view and to the publication of one package; a kill is a failure. */
  datatype Fault = Fault(view: View, publish: Landing)

  function LowerCase(text: string): string {
    seq(|text|, i requires 0 <= i < |text| => if 'A' <= text[i] <= 'Z' then (text[i] as int + 32) as char else text[i])
  }

  /** A failed view is read as "no such version" when what it says mentions 404 or "not found". */
  predicate SaysMissing(view: View) {
    view.Fails? && MentionsMissing(view.failure.message, view.failure.message + "\n" + view.failure.stderr)
  }

  predicate MentionsMissing(message: string, text: string) {
    !Contains(message, "Immutable production") && (Contains(text, "404") || Contains(LowerCase(text), "not found"))
  }

  /** "not found" in any mixture of capital and small letters. */
  predicate NotFoundAt(text: string, i: nat) {
    i + 9 <= |text| && forall k :: 0 <= k < 9 ==> text[i + k] == "not found"[k] || text[i + k] == "NOT FOUND"[k]
  }

  /** Which failures count as a missing version. */
  lemma {:induction false} MisreadExactly(message: string, stderr: string)
    ensures var text := message + "\n" + stderr;
      SaysMissing(Fails(Failure(message, stderr)))
      <==> !Contains(message, "Immutable production") && (Contains(text, "404") || exists i: nat :: NotFoundAt(text, i))
    ensures !SaysMissing(Answers)
  {
    var text := message + "\n" + stderr;
    forall i: nat ensures NotFoundAt(text, i) <==> OccursAt(LowerCase(text), "not found", i) {
      LowerNotFound(text, i);
    }
    if Contains(LowerCase(text), "not found") {
      var i :| 0 <= i <= |text| && OccursAt(LowerCase(text), "not found", i);
      assert NotFoundAt(text, i);
    }
    if i: nat :| NotFoundAt(text, i) {
      assert OccursAt(LowerCase(text), "not found", i);
    }
  }

  lemma {:induction false} LowerNotFound(text: string, i: nat)
    ensures NotFoundAt(text, i) <==> OccursAt(LowerCase(text), "not found", i)
  {
    var lower := LowerCase(text);
    if i + 9 <= |text| {
      var part := lower[i..i + 9];
      assert forall k :: 0 <= k < 9 ==> part[k] == lower[i + k];
      forall k | 0 <= k < 9
        ensures part[k] == "not found"[k] <==> text[i + k] == "not found"[k] || text[i + k] == "NOT FOUND"[k]
      {
        LowerLetter(text[i + k], k);
      }
      assert part == "not found" <==> forall k :: 0 <= k < 9 ==> part[k] == "not found"[k];
    }
  }

  lemma {:induction false} LowerLetter(c: char, k: nat)
    requires k < 9
    ensures (if 'A' <= c <= 'Z' then (c as int + 32) as char else c) == "not found"[k]
      <==> c == "not found"[k] || c == "NOT FOUND"[k]
  {
  }

  // ----- One package ------------------------------------------------------------------------

  function FindTarball(tarballs: seq<Tarball>, name: string): Option<Tarball> {
    if tarballs == [] then None
    else if tarballs[0].package == name then Some(tarballs[0])
    else FindTarball(tarballs[1..], name)
  }

  /** What the registry must show for a recorded package to be reused. */
  function Recorded(bundle: Bundle, entry: PackageEntry): Manifest {
    Manifest(Some(String(entry.name)), Some(String(entry.version)),
             Some(String(bundle.identityDigest)), Some(String(entry.packageChecksum)))
  }

  /** The registry key a tarball's own manifest claims. */
  function KeyOf(json: Manifest): Option<Key> {
    match (json.name, json.version)
    case (Some(String(name)), Some(String(version))) => Some(Key(name, version))
    case _ => None
  }

  datatype Reuse = Reusable | Missing | Refused

  /** `publishedReuse`: what a view of the registry decides. */
  function PublishedReuse(bundle: Bundle, versions: map<Key, Manifest>, entry: PackageEntry, view: View): Reuse {
    var key := Key(entry.name, entry.version);
    if SaysMissing(view) then Missing
    else if view.Fails? then Refused
    else if key !in versions then Missing
    else if versions[key] == Recorded(bundle, entry) then Reusable
    else Refused
  }

  /** `npm publish` of a tarball: the registry stores the manifest under the key it names. */
  function Upload(state: State, json: Manifest): State {
    match KeyOf(json)
    case None => state
    case Some(key) => State(state.versions[key := json], state.log + [Event(key, state.versions)])
  }

  datatype Visit = Reused | Published | Stopped

  /** The release bundle together with the manifests inside its tarballs, by asset name. */
  datatype Cargo = Cargo(bundle: Bundle, shelf: map<string, Manifest>)

  function VisitPackage(cargo: Cargo, state: State, name: string, fault: Fault): (State, Visit) {
    var entry, item := FindPackage(cargo.bundle.packages, name), FindTarball(cargo.bundle.tarballs, name);
    if entry.None? then (state, Stopped)
    else
      match PublishedReuse(cargo.bundle, state.versions, entry.value, fault.view)
      case Reusable => (state, Reused)
      case Refused => (state, Stopped)
      case Missing =>
        if item.None? || item.value.name !in cargo.shelf || KeyOf(cargo.shelf[item.value.name]).None?
          || fault.publish.FailsBefore?
        then (state, Stopped)
        else (Upload(state, cargo.shelf[item.value.name]), if fault.publish.FailsAfter? then Stopped else Published)
  }

  // ----- One run and many runs --------------------------------------------------------------

  datatype Progress = Progress(state: State, published: seq<string>, reused: seq<string>, done: nat, stopped: bool)

  /** One more package of a run; a run that stopped stays where it is. */
  function Advance(cargo: Cargo, before: Progress, name: string, fault: Fault): Progress {
    if before.stopped then before
    else
      var (after, visit) := VisitPackage(cargo, before.state, name, fault);
      match visit
      case Stopped => before.(state := after, stopped := true)
      case Published => before.(state := after, published := before.published + [name], done := before.done + 1)
      case Reused => before.(state := after, reused := before.reused + [name], done := before.done + 1)
  }

  /** One run over a list of packages, met with the given faults. */
  function Run(cargo: Cargo, state: State, names: seq<string>, faults: seq<Fault>): (p: Progress)
    requires |faults| >= |names|
    ensures if p.stopped then p.done < |names| else p.done == |names|
  {
    if names == [] then Progress(state, [], [], 0, false)
    else Advance(cargo, Run(cargo, state, names[..|names| - 1], faults), names[|names| - 1], faults[|names| - 1])
  }

  function ReleaseOrder(bundle: Bundle): seq<string> {
    ReleaseWaves.Flatten(WavePackages(bundle.waves))
  }

  datatype Attempt = Attempt(cargo: Cargo, faults: seq<Fault>)

  predicate Scripted(attempt: Attempt) {
    |attempt.faults| >= |ReleaseOrder(attempt.cargo.bundle)|
  }

  function Runs(state: State, attempts: seq<Attempt>): State
    requires forall i :: 0 <= i < |attempts| ==> Scripted(attempts[i])
  {
    if attempts == [] then state
    else
      var last := attempts[|attempts| - 1];
      assert Scripted(last);
      Run(last.cargo, Runs(state, attempts[..|attempts| - 1]), ReleaseOrder(last.cargo.bundle), last.faults).state
  }

  // ----- What a verified bundle gives -----------------------------------------------------------

  /** The bundle records the package and its tarball carries the recorded identity. */
  predicate Ready(cargo: Cargo, name: string) {
    var entry, item := FindPackage(cargo.bundle.packages, name), FindTarball(cargo.bundle.tarballs, name);
    && entry.Some? && item.Some?
    && entry.value.name == name
    && item.value.name in cargo.shelf
    && cargo.shelf[item.value.name] == Recorded(cargo.bundle, entry.value)
  }

  ghost predicate AllReady(cargo: Cargo, names: seq<string>) {
    forall i :: 0 <= i < |names| ==> Ready(cargo, names[i])
  }

  function KeyFor(bundle: Bundle, name: string): Option<Key> {
    var entry := FindPackage(bundle.packages, name);
    if entry.None? then None else Some(Key(entry.value.name, entry.value.version))
  }

  /** The registry holds this package with the bundle's identity and checksum. */
  predicate InRegistry(bundle: Bundle, versions: map<Key, Manifest>, name: string) {
    var entry := FindPackage(bundle.packages, name);
    && entry.Some?
    && Key(entry.value.name, entry.value.version) in versions
    && versions[Key(entry.value.name, entry.value.version)] == Recorded(bundle, entry.value)
  }

  /** The manifests in the tarballs of a directory. */
  function Shelf(tools: Tools, dir: Directory): map<string, Manifest> {
    map name | name in dir.files && tools.unpack(dir.files[name]).Some? :: Reading(tools.unpack(dir.files[name]).value)
  }

  lemma {:induction false} FoundTarball(tarballs: seq<Tarball>, name: string)
    requires name in TarballPackages(tarballs)
    ensures FindTarball(tarballs, name).Some?
    ensures FindTarball(tarballs, name).value in tarballs && FindTarball(tarballs, name).value.package == name
  {
    if tarballs[0].package != name {
      assert TarballPackages(tarballs) == [tarballs[0].package] + TarballPackages(tarballs[1..]);
      FoundTarball(tarballs[1..], name);
    }
  }

  lemma {:induction false} HeldTarballIsReady(tools: Tools, bundle: Bundle, dir: Directory, name: string)
    requires FindTarball(bundle.tarballs, name).Some?
    requires var item := FindTarball(bundle.tarballs, name).value;
      item.package == name && TarballHolds(tools, bundle, dir, item)
    requires FindPackage(bundle.packages, name).Some?
    requires var entry := FindPackage(bundle.packages, name).value;
      entry.name == name && entry.version == bundle.version
    ensures Ready(Cargo(bundle, Shelf(tools, dir)), name)
  {
  }

  /** Every package of an accepted bundle is ready to be published. */
  lemma {:induction false} AcceptedBundleIsReady(tools: Tools, boundary: set<string>, bundle: Bundle, dir: Directory)
    requires PackagesHold(boundary, bundle) && TarballsHold(tools, boundary, bundle, dir)
    requires ReleaseWaves.Partitions(WavePackages(bundle.waves), boundary)
    ensures AllReady(Cargo(bundle, Shelf(tools, dir)), ReleaseOrder(bundle))
  {
    var names := ReleaseOrder(bundle);
    EnumeratesMeansDistinct(names, boundary);
    EnumeratesMeansDistinct(PackageNames(bundle.packages), boundary);
    EnumeratesMeansDistinct(TarballPackages(bundle.tarballs), boundary);
    forall i | 0 <= i < |names| ensures Ready(Cargo(bundle, Shelf(tools, dir)), names[i]) {
      assert names[i] in ToSet(names);
      assert names[i] in ToSet(PackageNames(bundle.packages)) && names[i] in ToSet(TarballPackages(bundle.tarballs));
      FoundPackage(bundle.packages, names[i]);
      FoundTarball(bundle.tarballs, names[i]);
      HeldTarballIsReady(tools, bundle, dir, names[i]);
    }
  }

  // ----- Safety of one visit --------------------------------------------------------------------

  lemma {:induction false} VisitOfReadyPackage(cargo: Cargo, state: State, name: string, fault: Fault)
    requires Ready(cargo, name)
    ensures var (after, visit) := VisitPackage(cargo, state, name, fault);
      var key := KeyFor(cargo.bundle, name).value;
      && (visit != Stopped ==> InRegistry(cargo.bundle, after.versions, name))
      && (after == state
          || (after.log == state.log + [Event(key, state.versions)]
              && after.versions.Keys == state.versions.Keys + {key}
              && InRegistry(cargo.bundle, after.versions, name)))
      && (forall k :: k in state.versions && k != key ==> k in after.versions && after.versions[k] == state.versions[k])
  {
  }

  /** A visit keeps every package that is already in the registry with the right identity. */
  lemma {:induction false} VisitKeepsOthers(cargo: Cargo, state: State, name: string, fault: Fault, other: string)
    requires Ready(cargo, name) && InRegistry(cargo.bundle, state.versions, other)
    ensures InRegistry(cargo.bundle, VisitPackage(cargo, state, name, fault).0.versions, other)
  {
    FoundPackage(cargo.bundle.packages, other);
    VisitOfReadyPackage(cargo, state, name, fault);
  }

  /**
   A version that is already in the registry is published again exactly when a failing view is
   misread as "not found".
   */
  lemma {:induction false} RepublishedExactlyWhenMisled(cargo: Cargo, state: State, name: string, fault: Fault)
    requires Ready(cargo, name) && KeyFor(cargo.bundle, name).value in state.versions && !fault.publish.FailsBefore?
    ensures VisitPackage(cargo, state, name, fault).0.log != state.log <==> SaysMissing(fault.view)
  {
    VisitOfReadyPackage(cargo, state, name, fault);
  }

  // ----- Order: nothing is published before what comes earlier in the plan ----------------------

  /** An event of this run, at its place in the plan, with everything before it in the registry. */
  ghost predicate InOrder(cargo: Cargo, names: seq<string>, event: Event, place: nat) {
    && place < |names|
    && KeyFor(cargo.bundle, names[place]) == Some(event.key)
    && forall i :: 0 <= i < place ==> InRegistry(cargo.bundle, event.before, names[i])
  }

  ghost predicate HasPlace(cargo: Cargo, names: seq<string>, event: Event) {
    exists place: nat :: InOrder(cargo, names, event, place)
  }

  ghost predicate EventsInOrder(cargo: Cargo, names: seq<string>, log: seq<Event>, from: nat) {
    forall e :: from <= e < |log| ==> HasPlace(cargo, names, log[e])
  }

  ghost predicate Registered(bundle: Bundle, versions: map<Key, Manifest>, names: seq<string>, count: nat) {
    count <= |names| && forall i :: 0 <= i < count ==> InRegistry(bundle, versions, names[i])
  }

  lemma {:induction false} AdvanceRegisters(cargo: Cargo, before: Progress, names: seq<string>, fault: Fault)
    requires names != [] && Ready(cargo, names[|names| - 1])
    requires Registered(cargo.bundle, before.state.versions, names[..|names| - 1], before.done)
    requires !before.stopped ==> before.done == |names| - 1
    ensures var end := Advance(cargo, before, names[|names| - 1], fault);
      Registered(cargo.bundle, end.state.versions, names, end.done)
  {
    var last := |names| - 1;
    forall i | 0 <= i < before.done ensures InRegistry(cargo.bundle, before.state.versions, names[i]) {
      assert names[..last][i] == names[i];
    }
    if !before.stopped {
      VisitOfReadyPackage(cargo, before.state, names[last], fault);
      forall i | 0 <= i < before.done
        ensures InRegistry(cargo.bundle, Advance(cargo, before, names[last], fault).state.versions, names[i])
      {
        VisitKeepsOthers(cargo, before.state, names[last], fault, names[i]);
      }
    }
  }

  /** Everything a run has gone past is in the registry. */
  lemma {:induction false} RunLeavesRegistered(cargo: Cargo, state: State, names: seq<string>, faults: seq<Fault>)
    requires |faults| >= |names| && AllReady(cargo, names)
    ensures var end := Run(cargo, state, names, faults);
      Registered(cargo.bundle, end.state.versions, names, end.done)
  {
    if names != [] {
      var front, last := names[..|names| - 1], |names| - 1;
      RunLeavesRegistered(cargo, state, front, faults);
      AdvanceRegisters(cargo, Run(cargo, state, front, faults), names, faults[last]);
    }
  }

  lemma {:induction false} RunKeepsOrder(cargo: Cargo, state: State, names: seq<string>, faults: seq<Fault>)
    requires |faults| >= |names| && AllReady(cargo, names)
    ensures state.log <= Run(cargo, state, names, faults).state.log
    ensures EventsInOrder(cargo, names, Run(cargo, state, names, faults).state.log, |state.log|)
  {
    if names != [] {
      var front, last := names[..|names| - 1], |names| - 1;
      RunKeepsOrder(cargo, state, front, faults);
      RunLeavesRegistered(cargo, state, front, faults);
      AdvanceKeepsOrder(cargo, Run(cargo, state, front, faults), names, faults[last], |state.log|);
    }
  }

  lemma {:induction false} AdvanceKeepsOrder(
      cargo: Cargo, before: Progress, names: seq<string>, fault: Fault, from: nat)
    requires names != [] && Ready(cargo, names[|names| - 1]) && from <= |before.state.log|
    requires EventsInOrder(cargo, names[..|names| - 1], before.state.log, from)
    requires Registered(cargo.bundle, before.state.versions, names[..|names| - 1], before.done)
    requires !before.stopped ==> before.done == |names| - 1
    ensures var end := Advance(cargo, before, names[|names| - 1], fault);
      before.state.log <= end.state.log && EventsInOrder(cargo, names, end.state.log, from)
  {
    var last := |names| - 1;
    forall e | from <= e < |before.state.log| ensures HasPlace(cargo, names, before.state.log[e]) {
      PlaceExtends(cargo, names, before.state.log[e]);
    }
    if !before.stopped {
      VisitOfReadyPackage(cargo, before.state, names[last], fault);
      var event := Event(KeyFor(cargo.bundle, names[last]).value, before.state.versions);
      assert forall i :: 0 <= i < last ==> names[..last][i] == names[i];
      assert InOrder(cargo, names, event, last);
    }
  }

  lemma {:induction false} PlaceExtends(cargo: Cargo, names: seq<string>, event: Event)
    requires names != [] && HasPlace(cargo, names[..|names| - 1], event)
    ensures HasPlace(cargo, names, event)
  {
    var front := names[..|names| - 1];
    var place: nat :| InOrder(cargo, front, event, place);
    assert forall i :: 0 <= i < place ==> front[i] == names[i];
    assert InOrder(cargo, names, event, place);
  }

  /** When a package of a wave is published, every package of every earlier wave is in the registry. */
  lemma {:induction false} EarlierWavesComeFirst(
      cargo: Cargo, boundary: set<string>, state: State, faults: seq<Fault>, e: nat, first: string, second: string)
    requires |faults| >= |ReleaseOrder(cargo.bundle)| && AllReady(cargo, ReleaseOrder(cargo.bundle))
    requires ReleaseWaves.Partitions(WavePackages(cargo.bundle.waves), boundary)
    requires ReleaseWaves.Earlier(WavePackages(cargo.bundle.waves), first, second)
    requires var end := Run(cargo, state, ReleaseOrder(cargo.bundle), faults).state;
      |state.log| <= e < |end.log| && end.log[e].key.name == second
    ensures InRegistry(cargo.bundle, Run(cargo, state, ReleaseOrder(cargo.bundle), faults).state.log[e].before, first)
  {
    var waves, names := WavePackages(cargo.bundle.waves), ReleaseOrder(cargo.bundle);
    RunKeepsOrder(cargo, state, names, faults);
    var event := Run(cargo, state, names, faults).state.log[e];
    var place: nat :| InOrder(cargo, names, event, place);
    assert Ready(cargo, names[place]);
    assert names[place] == second;
    var i, j :| 0 <= i < j < |waves| && first in waves[i] && second in waves[j];
    var p := ReleaseWaves.PositionInFlatten(waves, i, first);
    var q := ReleaseWaves.PositionInFlatten(waves, j, second);
    ReleaseWaves.FlattenMonotone(waves, i + 1, j);
    EnumeratesMeansDistinct(names, boundary);
    assert q == place;
  }

  /** Every dependency a published package has inside the release is in the registry before it. */
  lemma {:induction false} DependenciesComeFirst(
      cargo: Cargo, boundary: set<string>, manifests: seq<ReleaseWaves.Needs>, state: State, faults: seq<Fault>, e: nat,
      needs: ReleaseWaves.Needs, dependency: string)
    requires |faults| >= |ReleaseOrder(cargo.bundle)| && AllReady(cargo, ReleaseOrder(cargo.bundle))
    requires ReleaseWaves.Partitions(WavePackages(cargo.bundle.waves), boundary)
    requires ReleaseWaves.DependencySafe(WavePackages(cargo.bundle.waves), boundary, manifests)
    requires needs in manifests && dependency in needs.dependencies && dependency in boundary
    requires var end := Run(cargo, state, ReleaseOrder(cargo.bundle), faults).state;
      |state.log| <= e < |end.log| && end.log[e].key.name == needs.name
    ensures InRegistry(cargo.bundle, Run(cargo, state, ReleaseOrder(cargo.bundle), faults).state.log[e].before,
      dependency)
  {
    assert ReleaseWaves.NeedsMetEarlier(WavePackages(cargo.bundle.waves), boundary, needs);
    EarlierWavesComeFirst(cargo, boundary, state, faults, e, dependency, needs.name);
  }

  // ----- No version is published twice ----------------------------------------------------------

  /** The history never publishes a version the registry already has. */
  ghost predicate NeverTwice(state: State) {
    && (forall e :: 0 <= e < |state.log| ==>
      state.log[e].key in state.versions && state.log[e].key !in state.log[e].before)
    && forall e, f :: 0 <= e < f < |state.log| ==> state.log[e].key != state.log[f].key
  }

  /** Nothing the registry held is changed or removed. */
  ghost predicate Grows(before: map<Key, Manifest>, after: map<Key, Manifest>) {
    forall key :: key in before ==> key in after && after[key] == before[key]
  }

  /** Only the registry itself says that a version is missing. */
  ghost predicate AllHonest(faults: seq<Fault>) {
    forall i :: 0 <= i < |faults| ==> !SaysMissing(faults[i].view)
  }

  lemma {:induction false} HonestVisit(cargo: Cargo, state: State, name: string, fault: Fault)
    requires Ready(cargo, name) && !SaysMissing(fault.view) && NeverTwice(state)
    ensures var (after, visit) := VisitPackage(cargo, state, name, fault);
      NeverTwice(after) && Grows(state.versions, after.versions)
  {
    VisitOfReadyPackage(cargo, state, name, fault);
  }

  lemma {:induction false} HonestRun(cargo: Cargo, state: State, names: seq<string>, faults: seq<Fault>)
    requires |faults| >= |names| && AllReady(cargo, names) && AllHonest(faults) && NeverTwice(state)
    ensures NeverTwice(Run(cargo, state, names, faults).state)
    ensures Grows(state.versions, Run(cargo, state, names, faults).state.versions)
  {
    if names != [] {
      var front, last := names[..|names| - 1], |names| - 1;
      HonestRun(cargo, state, front, faults);
      HonestVisit(cargo, Run(cargo, state, front, faults).state, names[last], faults[last]);
    }
  }

  ghost predicate Sound(attempt: Attempt) {
    AllReady(attempt.cargo, ReleaseOrder(attempt.cargo.bundle)) && AllHonest(attempt.faults)
  }

  /** Over any number of runs, each stopped anywhere, no version is published twice or replaced. */
  lemma {:induction false} NothingIsPublishedTwice(state: State, attempts: seq<Attempt>)
    requires forall i :: 0 <= i < |attempts| ==> Scripted(attempts[i])
    requires forall i :: 0 <= i < |attempts| ==> Sound(attempts[i])
    requires NeverTwice(state)
    ensures NeverTwice(Runs(state, attempts)) && Grows(state.versions, Runs(state, attempts).versions)
  {
    if attempts != [] {
      var front, last := attempts[..|attempts| - 1], attempts[|attempts| - 1];
      NothingIsPublishedTwice(state, front);
      HonestRun(last.cargo, Runs(state, front), ReleaseOrder(last.cargo.bundle), last.faults);
    }
  }

  // ----- When a version is published twice --------------------------------------------------------

  /** No publication reached the registry while it already had the version. */
  ghost predicate NoRepeat(log: seq<Event>) {
    forall e :: 0 <= e < |log| ==> log[e].key !in log[e].before
  }

  /** The visit of a version the registry has, where the failing view is misread and the publication goes through. */
  predicate Misled(cargo: Cargo, before: Progress, name: string, fault: Fault) {
    && !before.stopped && KeyFor(cargo.bundle, name).Some? && KeyFor(cargo.bundle, name).value in before.state.versions
    && SaysMissing(fault.view) && !fault.publish.FailsBefore?
  }

  predicate NeverMisled(cargo: Cargo, state: State, names: seq<string>, faults: seq<Fault>)
    requires |faults| >= |names|
  {
    names == [] ||
    (var front, last := names[..|names| - 1], |names| - 1;
     NeverMisled(cargo, state, front, faults)
       && !Misled(cargo, Run(cargo, state, front, faults), names[last], faults[last]))
  }

  lemma {:induction false} AdvanceRepeatsExactlyWhenMisled(cargo: Cargo, before: Progress, name: string, fault: Fault)
    requires Ready(cargo, name)
    ensures NoRepeat(Advance(cargo, before, name, fault).state.log)
      <==> NoRepeat(before.state.log) && !Misled(cargo, before, name, fault)
  {
    var state, key := before.state, KeyFor(cargo.bundle, name).value;
    VisitOfReadyPackage(cargo, state, name, fault);
    var after := VisitPackage(cargo, state, name, fault).0;
    RepeatsWithLast(state.log, Event(key, state.versions));
    if key in state.versions && !fault.publish.FailsBefore? {
      RepublishedExactlyWhenMisled(cargo, state, name, fault);
    }
  }

  lemma {:induction false} RepeatsWithLast(log: seq<Event>, last: Event)
    ensures NoRepeat(log + [last]) <==> NoRepeat(log) && last.key !in last.before
  {
    var all := log + [last];
    assert all[|log|] == last;
    if NoRepeat(all) {
      forall e | 0 <= e < |log|
        ensures log[e].key !in log[e].before
      {
        assert all[e] == log[e];
      }
    }
  }

  lemma {:induction false} RunRepeatsExactlyWhenMisled(
      cargo: Cargo, state: State, names: seq<string>, faults: seq<Fault>)
    requires |faults| >= |names| && AllReady(cargo, names)
    ensures NoRepeat(Run(cargo, state, names, faults).state.log)
      <==> NoRepeat(state.log) && NeverMisled(cargo, state, names, faults)
  {
    if names != [] {
      var front, last := names[..|names| - 1], |names| - 1;
      RunRepeatsExactlyWhenMisled(cargo, state, front, faults);
      AdvanceRepeatsExactlyWhenMisled(cargo, Run(cargo, state, front, faults), names[last], faults[last]);
    }
  }

  predicate RunsNeverMisled(state: State, attempts: seq<Attempt>)
    requires forall i :: 0 <= i < |attempts| ==> Scripted(attempts[i])
  {
    attempts == [] ||
    (var front, last := attempts[..|attempts| - 1], attempts[|attempts| - 1];
     RunsNeverMisled(state, front) && Scripted(last)
     && NeverMisled(last.cargo, Runs(state, front), ReleaseOrder(last.cargo.bundle), last.faults))
  }

  /**
   Over any number of runs, each stopped anywhere, some version is published while the registry has it
   already if and only if one of the visits was misled and its publication reached the registry.
   */
  lemma {:induction false} PublishedTwiceExactlyWhenMisled(state: State, attempts: seq<Attempt>)
    requires forall i :: 0 <= i < |attempts| ==> Scripted(attempts[i])
    requires forall i :: 0 <= i < |attempts| ==> AllReady(attempts[i].cargo, ReleaseOrder(attempts[i].cargo.bundle))
    ensures NoRepeat(Runs(state, attempts).log) <==> NoRepeat(state.log) && RunsNeverMisled(state, attempts)
  {
    if attempts != [] {
      var front, last := attempts[..|attempts| - 1], attempts[|attempts| - 1];
      PublishedTwiceExactlyWhenMisled(state, front);
      RunRepeatsExactlyWhenMisled(last.cargo, Runs(state, front), ReleaseOrder(last.cargo.bundle), last.faults);
    }
  }

  // ----- Completion -----------------------------------------------------------------------------

  /** `visited` is the two lists interleaved, each kept in its own order. */
  predicate Weaves(visited: seq<string>, published: seq<string>, reused: seq<string>) {
    if visited == [] then published == [] && reused == []
    else
      var front, last := visited[..|visited| - 1], visited[|visited| - 1];
      || (published != [] && published[|published| - 1] == last && Weaves(front, published[..|published| - 1], reused))
      || (reused != [] && reused[|reused| - 1] == last && Weaves(front, published, reused[..|reused| - 1]))
  }

  lemma {:induction false} WeavesIsPartition(visited: seq<string>, published: seq<string>, reused: seq<string>)
    requires Weaves(visited, published, reused)
    ensures multiset(published) + multiset(reused) == multiset(visited)
  {
    if visited != [] {
      var front, last := visited[..|visited| - 1], visited[|visited| - 1];
      assert visited == front + [last];
      if published != [] && published[|published| - 1] == last && Weaves(front, published[..|published| - 1], reused) {
        assert published == published[..|published| - 1] + [last];
        WeavesIsPartition(front, published[..|published| - 1], reused);
      } else {
        assert reused == reused[..|reused| - 1] + [last];
        WeavesIsPartition(front, published, reused[..|reused| - 1]);
      }
    }
  }

  ghost predicate Parted(p: Progress, names: seq<string>) {
    p.done <= |names| && Weaves(names[..p.done], p.published, p.reused)
  }

  /** What a run went past splits into what it published and what it reused, in plan order. */
  lemma {:induction false} RunPartitions(cargo: Cargo, state: State, names: seq<string>, faults: seq<Fault>)
    requires |faults| >= |names|
    ensures Parted(Run(cargo, state, names, faults), names)
  {
    if names != [] {
      var front := names[..|names| - 1];
      RunPartitions(cargo, state, front, faults);
      RunStep(cargo, state, names, faults);
      AdvanceWeaves(cargo, Run(cargo, state, front, faults), names, faults[|names| - 1]);
    }
  }

  lemma {:induction false} RunStep(cargo: Cargo, state: State, names: seq<string>, faults: seq<Fault>)
    requires names != [] && |faults| >= |names|
    ensures var before := Run(cargo, state, names[..|names| - 1], faults);
      && Run(cargo, state, names, faults) == Advance(cargo, before, names[|names| - 1], faults[|names| - 1])
      && (!before.stopped ==> before.done == |names| - 1)
  {
  }

  lemma {:induction false} AdvanceWeaves(cargo: Cargo, before: Progress, names: seq<string>, fault: Fault)
    requires names != [] && (!before.stopped ==> before.done == |names| - 1)
    requires Parted(before, names[..|names| - 1])
    ensures Parted(Advance(cargo, before, names[|names| - 1], fault), names)
  {
    var last := |names| - 1;
    assert names[..last][..before.done] == names[..before.done];
    if !before.stopped {
      WeaveOne(names[..last], before.published, before.reused, names[last]);
      assert names[..last + 1] == names[..last] + [names[last]];
    }
  }

  lemma {:induction false} WeaveOne(visited: seq<string>, published: seq<string>, reused: seq<string>, name: string)
    requires Weaves(visited, published, reused)
    ensures Weaves(visited + [name], published + [name], reused)
    ensures Weaves(visited + [name], published, reused + [name])
  {
    assert (visited + [name])[..|visited|] == visited;
    assert (published + [name])[..|published|] == published;
    assert (reused + [name])[..|reused|] == reused;
  }

  /** A registry entry made by visiting a package of the list. */
  predicate AddedFor(bundle: Bundle, after: map<Key, Manifest>, names: seq<string>, key: Key) {
    key.name in names && KeyFor(bundle, key.name) == Some(key) && InRegistry(bundle, after, key.name)
  }

  /** What an honest run may change: recorded manifests of packages it visited, nothing it found there. */
  ghost predicate AddsOnly(bundle: Bundle, before: map<Key, Manifest>, after: map<Key, Manifest>, names: seq<string>) {
    && Grows(before, after)
    && forall key :: key in after && key !in before ==> AddedFor(bundle, after, names, key)
  }

  lemma {:induction false} HonestRunAddsOnly(cargo: Cargo, state: State, names: seq<string>, faults: seq<Fault>)
    requires |faults| >= |names| && AllReady(cargo, names) && AllHonest(faults)
    ensures AddsOnly(cargo.bundle, state.versions, Run(cargo, state, names, faults).state.versions, names)
  {
    if names != [] {
      var front, last := names[..|names| - 1], |names| - 1;
      HonestRunAddsOnly(cargo, state, front, faults);
      assert Ready(cargo, names[last]) && !SaysMissing(faults[last].view);
      HonestAdvanceAddsOnly(cargo, state.versions, Run(cargo, state, front, faults), names, faults[last]);
    }
  }

  lemma {:induction false} HonestAdvanceAddsOnly(
      cargo: Cargo, start: map<Key, Manifest>, before: Progress, names: seq<string>, fault: Fault)
    requires names != [] && Ready(cargo, names[|names| - 1]) && !SaysMissing(fault.view)
    requires AddsOnly(cargo.bundle, start, before.state.versions, names[..|names| - 1])
    ensures AddsOnly(cargo.bundle, start, Advance(cargo, before, names[|names| - 1], fault).state.versions, names)
  {
    var last := |names| - 1;
    var after := Advance(cargo, before, names[last], fault).state.versions;
    forall key | key in after && key !in start ensures AddedFor(cargo.bundle, after, names, key) {
      HonestAdvanceAdds(cargo, start, before, names, fault, key);
    }
    HonestVisitGrows(cargo, before.state, names[last], fault);
  }

  lemma {:induction false} HonestVisitGrows(cargo: Cargo, state: State, name: string, fault: Fault)
    requires Ready(cargo, name) && !SaysMissing(fault.view)
    ensures Grows(state.versions, VisitPackage(cargo, state, name, fault).0.versions)
  {
    VisitOfReadyPackage(cargo, state, name, fault);
  }

  lemma {:induction false} HonestAdvanceAdds(
      cargo: Cargo, start: map<Key, Manifest>, before: Progress, names: seq<string>, fault: Fault, key: Key)
    requires names != [] && Ready(cargo, names[|names| - 1]) && key !in start
    requires key in Advance(cargo, before, names[|names| - 1], fault).state.versions
    requires key in before.state.versions ==> AddedFor(cargo.bundle, before.state.versions, names[..|names| - 1], key)
    ensures AddedFor(cargo.bundle, Advance(cargo, before, names[|names| - 1], fault).state.versions, names, key)
  {
    var last := |names| - 1;
    VisitOfReadyPackage(cargo, before.state, names[last], fault);
    if key in before.state.versions && !before.stopped {
      VisitKeepsOthers(cargo, before.state, names[last], fault, key.name);
    }
  }

  lemma {:induction false} LastIsReady(cargo: Cargo, names: seq<string>)
    requires names != [] && AllReady(cargo, names) && Distinct(names)
    ensures Ready(cargo, names[|names| - 1]) && names[|names| - 1] !in names[..|names| - 1]
    ensures AllReady(cargo, names[..|names| - 1]) && Distinct(names[..|names| - 1])
  {
  }

  /** In an honest run a package is reused exactly when its version was there at the start. */
  lemma {:induction false} ReusedExactlyWhenThere(
      cargo: Cargo, state: State, names: seq<string>, faults: seq<Fault>, name: string)
    requires |faults| >= |names| && AllReady(cargo, names) && AllHonest(faults) && Distinct(names)
    requires name in names[..Run(cargo, state, names, faults).done]
    ensures var end, there := Run(cargo, state, names, faults), KeyFor(cargo.bundle, name).value in state.versions;
      (name in end.reused <==> there) && (name in end.published <==> !there)
  {
    var front, last := names[..|names| - 1], |names| - 1;
    var before, end := Run(cargo, state, front, faults), Run(cargo, state, names, faults);
    RunPartitions(cargo, state, front, faults);
    WeavesIsPartition(front[..before.done], before.published, before.reused);
    HonestRunAddsOnly(cargo, state, front, faults);
    LastIsReady(cargo, names);
    if name in front[..before.done] {
      ReusedExactlyWhenThere(cargo, state, front, faults, name);
      AdvanceKeepsOther(cargo, before, names[last], faults[last], name);
    } else {
      LastVisited(names, before.done, end.done, name);
      NotAmong(front, before.done, before.published, before.reused, name);
      LastReusedWhenThere(cargo, state.versions, before, front, name, faults[last]);
    }
  }

  lemma {:induction false} AdvanceKeepsOther(cargo: Cargo, before: Progress, name: string, fault: Fault, other: string)
    requires other != name
    ensures var after := Advance(cargo, before, name, fault);
      (other in after.published <==> other in before.published) && (other in after.reused <==> other in before.reused)
  {
  }

  lemma {:induction false} LastReusedWhenThere(
      cargo: Cargo, start: map<Key, Manifest>, before: Progress, front: seq<string>, name: string, fault: Fault)
    requires Ready(cargo, name) && !SaysMissing(fault.view)
      && AddsOnly(cargo.bundle, start, before.state.versions, front)
    requires name !in front && name !in before.published && name !in before.reused
    requires Advance(cargo, before, name, fault).done > before.done
    ensures var after, there := Advance(cargo, before, name, fault), KeyFor(cargo.bundle, name).value in start;
      (name in after.reused <==> there) && (name in after.published <==> !there)
  {
    var key := KeyFor(cargo.bundle, name).value;
    var versions := before.state.versions;
    assert key in versions && key !in start ==> AddedFor(cargo.bundle, versions, front, key);
    assert key in start <==> key in versions;
  }

  lemma {:induction false} LastVisited(names: seq<string>, before: nat, after: nat, name: string)
    requires names != [] && before <= |names| - 1 && before <= after <= |names| && (after == before || after == |names|)
    requires name in names[..after] && name !in names[..|names| - 1][..before]
      && (after != before ==> before == |names| - 1)
    ensures after == |names| && name == names[|names| - 1]
  {
    assert names[..|names| - 1][..before] == names[..before];
    assert names == names[..|names| - 1] + [names[|names| - 1]];
  }

  lemma {:induction false} NotAmong(
      front: seq<string>, done: nat, published: seq<string>, reused: seq<string>, name: string)
    requires done <= |front| && multiset(published) + multiset(reused) == multiset(front[..done]) && name !in front
    ensures name !in published && name !in reused
  {
    assert name !in multiset(front[..done]);
    assert name in published ==> name in multiset(published) + multiset(reused);
    assert name in reused ==> name in multiset(published) + multiset(reused);
  }

  // ----- Resuming -------------------------------------------------------------------------------

  /** No fault: every view answers and every publication lands. */
  predicate Undisturbed(faults: seq<Fault>) {
    forall i :: 0 <= i < |faults| ==> faults[i] == Fault(Answers, Lands)
  }

  predicate Agrees(bundle: Bundle, versions: map<Key, Manifest>, name: string) {
    KeyFor(bundle, name).Some? && KeyFor(bundle, name).value in versions ==> InRegistry(bundle, versions, name)
  }

  /** The registry holds no version of the plan under another identity. */
  ghost predicate NoConflict(bundle: Bundle, versions: map<Key, Manifest>, names: seq<string>) {
    forall i :: 0 <= i < |names| ==> Agrees(bundle, versions, names[i])
  }

  /** A run changes nothing about which packages conflict. */
  lemma {:induction false} ConflictsStay(
      cargo: Cargo, state: State, names: seq<string>, faults: seq<Fault>, name: string)
    requires |faults| >= |names| && AllReady(cargo, names) && AllHonest(faults) && Ready(cargo, name)
    ensures Agrees(cargo.bundle, state.versions, name)
      <==> Agrees(cargo.bundle, Run(cargo, state, names, faults).state.versions, name)
  {
    HonestRunAddsOnly(cargo, state, names, faults);
  }

  /** An undisturbed run completes exactly when no version of the plan is taken by another identity. */
  lemma {:induction false} CompletesExactlyWithoutConflict(
      cargo: Cargo, state: State, names: seq<string>, faults: seq<Fault>)
    requires |faults| >= |names| && AllReady(cargo, names) && Undisturbed(faults)
    ensures !Run(cargo, state, names, faults).stopped <==> NoConflict(cargo.bundle, state.versions, names)
  {
    if names != [] {
      var front, last := names[..|names| - 1], |names| - 1;
      CompletesExactlyWithoutConflict(cargo, state, front, faults);
      var before := Run(cargo, state, front, faults);
      assert Ready(cargo, names[last]) && faults[last] == Fault(Answers, Lands);
      ConflictsStay(cargo, state, front, faults, names[last]);
      assert NoConflict(cargo.bundle, state.versions, names)
        <==> NoConflict(cargo.bundle, state.versions, front) && Agrees(cargo.bundle, state.versions, names[last]) by {
        assert forall i :: 0 <= i < last ==> front[i] == names[i];
      }
      AgreeingVisitGoesOn(cargo, before.state, names[last]);
    }
  }

  lemma {:induction false} AgreeingVisitGoesOn(cargo: Cargo, state: State, name: string)
    requires Ready(cargo, name)
    ensures VisitPackage(cargo, state, name, Fault(Answers, Lands)).1 != Stopped
      <==> Agrees(cargo.bundle, state.versions, name)
  {
  }

  /** Once everything is registered, running again publishes nothing. */
  lemma {:induction false} RegisteredPlanIsReused(cargo: Cargo, state: State, names: seq<string>, faults: seq<Fault>)
    requires |faults| >= |names| && Undisturbed(faults) && Registered(cargo.bundle, state.versions, names, |names|)
    ensures Run(cargo, state, names, faults) == Progress(state, [], names, |names|, false)
  {
    if names != [] {
      var front, last := names[..|names| - 1], |names| - 1;
      assert Registered(cargo.bundle, state.versions, front, |front|) by {
        assert forall i :: 0 <= i < last ==> front[i] == names[i];
      }
      RegisteredPlanIsReused(cargo, state, front, faults);
      assert names == front + [names[last]];
      RegisteredPackageIsReused(cargo, state, names[last]);
      assert faults[last] == Fault(Answers, Lands);
    }
  }

  lemma {:induction false} RegisteredPackageIsReused(cargo: Cargo, state: State, name: string)
    requires InRegistry(cargo.bundle, state.versions, name)
    ensures VisitPackage(cargo, state, name, Fault(Answers, Lands)) == (state, Reused)
  {
  }

  ghost predicate SameCargo(attempts: seq<Attempt>, cargo: Cargo) {
    forall i :: 0 <= i < |attempts| ==> attempts[i].cargo == cargo
  }

  lemma {:induction false} RunsKeepAgreement(cargo: Cargo, state: State, attempts: seq<Attempt>)
    requires forall i :: 0 <= i < |attempts| ==> Scripted(attempts[i])
    requires forall i :: 0 <= i < |attempts| ==> AllHonest(attempts[i].faults)
    requires SameCargo(attempts, cargo) && AllReady(cargo, ReleaseOrder(cargo.bundle))
    ensures NoConflict(cargo.bundle, state.versions, ReleaseOrder(cargo.bundle))
      <==> NoConflict(cargo.bundle, Runs(state, attempts).versions, ReleaseOrder(cargo.bundle))
  {
    if attempts != [] {
      var front, last := attempts[..|attempts| - 1], attempts[|attempts| - 1];
      var names := ReleaseOrder(cargo.bundle);
      assert last.cargo == cargo && AllHonest(last.faults) && Scripted(last);
      RunsKeepAgreement(cargo, state, front);
      forall i | 0 <= i < |names|
        ensures Agrees(cargo.bundle, Runs(state, front).versions, names[i])
          <==> Agrees(cargo.bundle, Runs(state, attempts).versions, names[i])
      {
        assert Ready(cargo, names[i]);
        ConflictsStay(cargo, Runs(state, front), names, last.faults, names[i]);
      }
    }
  }

  /**
   However often a release was interrupted, one undisturbed run completes it exactly when the
   registry started without a conflicting version, and a further run publishes nothing.
   */
  lemma {:induction false} InterruptedReleaseResumes(
      cargo: Cargo, state: State, attempts: seq<Attempt>, faults: seq<Fault>)
    requires forall i :: 0 <= i < |attempts| ==> Scripted(attempts[i])
    requires forall i :: 0 <= i < |attempts| ==> AllHonest(attempts[i].faults)
    requires SameCargo(attempts, cargo) && AllReady(cargo, ReleaseOrder(cargo.bundle))
    requires |faults| >= |ReleaseOrder(cargo.bundle)| && Undisturbed(faults)
    ensures var names := ReleaseOrder(cargo.bundle);
      var last := Run(cargo, Runs(state, attempts), names, faults);
      && (!last.stopped <==> NoConflict(cargo.bundle, state.versions, names))
      && (!last.stopped ==> Run(cargo, last.state, names, faults) == Progress(last.state, [], names, |names|, false))
  {
    var names := ReleaseOrder(cargo.bundle);
    RunsKeepAgreement(cargo, state, attempts);
    var last := Run(cargo, Runs(state, attempts), names, faults);
    CompletesExactlyWithoutConflict(cargo, Runs(state, attempts), names, faults);
    RunLeavesRegistered(cargo, Runs(state, attempts), names, faults);
    if !last.stopped {
      RegisteredPlanIsReused(cargo, last.state, names, faults);
    }
  }

  // ----- A completed release published again ------------------------------------------------------

  /** A view that fails for another reason and is misread all the same, before a publication that goes through. */
  const TIMED_OUT := Fault(Fails(Failure("timeout", "request 404 aborted")), Lands)

  lemma {:induction false} TimeoutIsMisread()
    ensures SaysMissing(TIMED_OUT.view)
  {
    var text := "timeout" + "\n" + "request 404 aborted";
    assert text[16..19] == "404" && OccursAt(text, "404", 16);
    forall i | 0 <= i <= |"timeout"|
      ensures !OccursAt("timeout", "Immutable production", i)
    {
      assert |"timeout"| < |"Immutable production"|;
    }
  }

  /** A run that finds its first package in the registry, but whose first view ends with that text. */
  lemma {:induction false} MisledAtFirst(cargo: Cargo, state: State, names: seq<string>, faults: seq<Fault>)
    requires names != [] && |faults| >= |names| && Ready(cargo, names[0])
    requires KeyFor(cargo.bundle, names[0]).value in state.versions && faults[0] == TIMED_OUT
    ensures !NeverMisled(cargo, state, names, faults)
  {
    if |names| > 1 {
      MisledAtFirst(cargo, state, names[..|names| - 1], faults);
    } else {
      TimeoutIsMisread();
      assert Run(cargo, state, names[..0], faults) == Progress(state, [], [], 0, false);
    }
  }

  function Calm(count: nat): (faults: seq<Fault>)
    ensures |faults| == count && Undisturbed(faults)
  {
    seq(count, _ => Fault(Answers, Lands))
  }

  /**
   An undisturbed release into an empty registry completes and repeats nothing.  Started again, with a first view
   that ends with that text, it publishes a version that the registry holds already.
   */
  ghost predicate PublishedAgain(cargo: Cargo, names: seq<string>) {
    var first := Run(cargo, State(map[], []), names, Calm(|names|));
    && !first.stopped && NoRepeat(first.state.log)
    && Registered(cargo.bundle, first.state.versions, names, |names|)
    && !NoRepeat(Run(cargo, first.state, names, [TIMED_OUT] + Calm(|names|)).state.log)
  }

  lemma {:induction false} CompletedReleaseIsPublishedAgain(cargo: Cargo, names: seq<string>)
    requires names != [] && AllReady(cargo, names)
    ensures PublishedAgain(cargo, names)
  {
    var empty, calm, rough := State(map[], []), Calm(|names|), [TIMED_OUT] + Calm(|names|);
    var first := Run(cargo, empty, names, calm);
    CompletesExactlyWithoutConflict(cargo, empty, names, calm);
    RunLeavesRegistered(cargo, empty, names, calm);
    HonestRun(cargo, empty, names, calm);
    assert InRegistry(cargo.bundle, first.state.versions, names[0]) && Ready(cargo, names[0]);
    MisledAtFirst(cargo, first.state, names, rough);
    RunRepeatsExactlyWhenMisled(cargo, first.state, names, rough);
  }

  lemma {:induction false} OnlyPackage(tools: Tools, p: RepeatedIdentity.Parts, bundle: Bundle, site: Site)
    requires Accepts(tools, {p.name}, RepeatedIdentity.PlanOf(p), bundle, site)
    ensures ReleaseOrder(bundle) == [p.name] && site.Tarballs().Some?
    ensures AllReady(Cargo(bundle, Shelf(tools, site.Tarballs().value)), [p.name])
  {
    AcceptedBundleIsReady(tools, {p.name}, bundle, site.Tarballs().value);
    assert ReleaseWaves.Flatten([[p.name]]) == [p.name];
  }

  /** So it goes for a bundle the verifier accepts, whatever the parts of its only package. */
  lemma {:induction false} AcceptedReleaseIsPublishedAgain(hash: Hasher, p: RepeatedIdentity.Parts)
      returns (tools: Tools, bundle: Bundle, site: Site)
    requires RepeatedIdentity.Fit(p)
    ensures Accepts(tools, {p.name}, RepeatedIdentity.PlanOf(p), bundle, site) && ReleaseOrder(bundle) == [p.name]
    ensures site.Tarballs().Some? && PublishedAgain(Cargo(bundle, Shelf(tools, site.Tarballs().value)), [p.name])
  {
    tools, bundle, site := RepeatedIdentity.RepeatedIdentityIsAccepted(hash, p);
    OnlyPackage(tools, p, bundle, site);
    CompletedReleaseIsPublishedAgain(Cargo(bundle, Shelf(tools, site.Tarballs().value)), [p.name]);
  }

  // ----- The publisher --------------------------------------------------------------------------

  class Registry {
    var versions: map<Key, Manifest>
    var log: seq<Event>

    function Snapshot(): State reads this { State(versions, log) }

    /** `npm publish`: true when the command reports success. */
    method Publish(json: Manifest, landing: Landing) returns (ok: bool)
      modifies this
      ensures ok <==> KeyOf(json).Some? && landing.Lands?
      ensures Snapshot() == if landing.FailsBefore? then old(Snapshot()) else Upload(old(Snapshot()), json)
    {
      var key := KeyOf(json);
      if key.None? || landing.FailsBefore? {
        return false;
      }
      log := log + [Event(key.value, versions)];
      versions := versions[key.value := json];
      return landing.Lands?;
    }
  }

  /** What a run returns; its publication document repeats the waves. */
  datatype Report = Report(published: seq<string>, reused: seq<string>, publication: Document)

  /** The environment variables that publishing reads; an empty text is one that is not set. */
  datatype Environment = Environment(
    enabled: string, tokenUrl: string, token: string, npmToken: string, nodeAuthToken: string)

  /** Publishing is enabled with short-lived credentials and no long-lived ones. */
  predicate MayPublish(e: Environment) {
    e.enabled == "true" && e.tokenUrl != "" && e.token != "" && e.npmToken == "" && e.nodeAuthToken == ""
  }

  method PublishPackage(registry: Registry, cargo: Cargo, name: string, fault: Fault) returns (visit: Visit)
    modifies registry
    ensures (registry.Snapshot(), visit) == VisitPackage(cargo, old(registry.Snapshot()), name, fault)
  {
    var item := FindTarball(cargo.bundle.tarballs, name);
    var entry := FindPackage(cargo.bundle.packages, name);
    if entry.None? {
      return Stopped;
    }
    match PublishedReuse(cargo.bundle, registry.versions, entry.value, fault.view)
    case Reusable => return Reused;
    case Refused => return Stopped;
    case Missing =>
      if item.None? || item.value.name !in cargo.shelf {
        return Stopped;
      }
      var ok := registry.Publish(cargo.shelf[item.value.name], fault.publish);
      return if ok then Published else Stopped;
  }

  /** Every wave is reported under its number with its packages split in plan order. */
  ghost predicate WavesReport(waves: seq<Wave>, results: seq<WaveResult>) {
    |results| == |waves| && forall i :: 0 <= i < |waves| ==>
      results[i].number == waves[i].number && Weaves(waves[i].packages, results[i].published, results[i].reused)
  }

  /** The published lists of the waves, one after another, and the reused ones. */
  function PublishedIn(results: seq<WaveResult>): seq<string> {
    if results == [] then [] else PublishedIn(results[..|results| - 1]) + results[|results| - 1].published
  }

  function ReusedIn(results: seq<WaveResult>): seq<string> {
    if results == [] then [] else ReusedIn(results[..|results| - 1]) + results[|results| - 1].reused
  }

  lemma {:induction false} OneWaveMore(results: seq<WaveResult>, last: WaveResult)
    ensures PublishedIn(results + [last]) == PublishedIn(results) + last.published
    ensures ReusedIn(results + [last]) == ReusedIn(results) + last.reused
  {
    SnocFront(results, last);
  }

  lemma {:induction false} NothingReported()
    ensures WavesReport([], []) && PublishedIn([]) == [] && ReusedIn([]) == []
  {
  }

  lemma {:induction false} ReportsGrow(waves: seq<Wave>, i: nat, results: seq<WaveResult>, last: WaveResult)
    requires i < |waves| && WavesReport(waves[..i], results)
    requires last.number == waves[i].number && Weaves(waves[i].packages, last.published, last.reused)
    ensures WavesReport(waves[..i + 1], results + [last])
  {
    var now, all := waves[..i + 1], results + [last];
    forall k | 0 <= k < |now|
      ensures all[k].number == now[k].number && Weaves(now[k].packages, all[k].published, all[k].reused)
    {
      if k < i {
        assert waves[..i][k] == now[k] && results[k] == all[k];
      }
    }
  }

  lemma {:induction false} InSomeWave(results: seq<WaveResult>, name: string)
    ensures name in PublishedIn(results) <==> exists i :: 0 <= i < |results| && name in results[i].published
    ensures name in ReusedIn(results) <==> exists i :: 0 <= i < |results| && name in results[i].reused
  {
    if results != [] {
      var front, last := results[..|results| - 1], |results| - 1;
      InSomeWave(front, name);
      if i :| 0 <= i < |results| && name in results[i].published {
        assert i < last ==> front[i] == results[i];
      }
      if i :| 0 <= i < |results| && name in results[i].reused {
        assert i < last ==> front[i] == results[i];
      }
      if i :| 0 <= i < |front| && name in front[i].published {
        assert results[i] == front[i];
      }
      if i :| 0 <= i < |front| && name in front[i].reused {
        assert results[i] == front[i];
      }
    }
  }

  /** Where the packages of a wave stand in its report, by what the registry held before the run. */
  ghost predicate TellsReuse(cargo: Cargo, versions: map<Key, Manifest>, packages: seq<string>, report: WaveResult) {
    forall name :: name in packages ==>
      var entry := FindPackage(cargo.bundle.packages, name);
      && entry.Some?
      && (name in report.reused <==> Key(entry.value.name, entry.value.version) in versions)
      && (name in report.published <==> Key(entry.value.name, entry.value.version) !in versions)
  }

  lemma {:induction false} PlannedOnce(plan: ReleaseWaves.Plan, i: nat, k: nat, name: string)
    requires Distinct(ReleaseWaves.Flatten(plan)) && i < |plan| && k < |plan| && name in plan[i] && name in plan[k]
    ensures i == k
  {
    var order := ReleaseWaves.Flatten(plan);
    if i < k {
      PlannedApart(plan, i, k, name);
    } else if k < i {
      PlannedApart(plan, k, i, name);
    }
  }

  lemma {:induction false} PlannedApart(plan: ReleaseWaves.Plan, i: nat, k: nat, name: string)
    requires i < k < |plan| && name in plan[i] && name in plan[k]
    ensures !Distinct(ReleaseWaves.Flatten(plan))
  {
    var order := ReleaseWaves.Flatten(plan);
    var a, b := |ReleaseWaves.Flatten(plan[..i])|, |ReleaseWaves.Flatten(plan[..k])|;
    var x :| 0 <= x < |plan[i]| && plan[i][x] == name;
    var y :| 0 <= y < |plan[k]| && plan[k][y] == name;
    PlannedAt(plan, i, x);
    PlannedAt(plan, k, y);
    FlattenGrows(plan, i + 1, k);
    ReleaseWaves.FlattenStep(plan, i);
    assert order[a + x] == order[b + y] && a + x < b + y;
  }

  lemma {:induction false} PlannedAt(plan: ReleaseWaves.Plan, i: nat, x: nat)
    requires i < |plan| && x < |plan[i]|
    ensures var order, at := ReleaseWaves.Flatten(plan), |ReleaseWaves.Flatten(plan[..i])|;
      at + x < |order| && order[at + x] == plan[i][x]
  {
    var order, at := ReleaseWaves.Flatten(plan), |ReleaseWaves.Flatten(plan[..i])|;
    WaveInPlan(plan, i);
    assert order[at + x] == order[at..at + |plan[i]|][x];
  }

  lemma {:induction false} FlattenGrows(plan: ReleaseWaves.Plan, i: nat, k: nat)
    requires i <= k <= |plan|
    ensures |ReleaseWaves.Flatten(plan[..i])| <= |ReleaseWaves.Flatten(plan[..k])|
  {
    if i < k {
      FlattenGrows(plan, i, k - 1);
      ReleaseWaves.FlattenStep(plan, k - 1);
    }
  }

  lemma {:induction false} InFlatten(plan: ReleaseWaves.Plan, i: nat, name: string)
    requires i < |plan| && name in plan[i]
    ensures name in ReleaseWaves.Flatten(plan)
  {
    var at, order := |ReleaseWaves.Flatten(plan[..i])|, ReleaseWaves.Flatten(plan);
    WaveInPlan(plan, i);
    var x :| 0 <= x < |plan[i]| && plan[i][x] == name;
    assert order[at + x] == order[at..at + |plan[i]|][x];
  }

  lemma {:induction false} ReportedInItsWave(
      plan: ReleaseWaves.Plan, waves: seq<Wave>, results: seq<WaveResult>, i: nat, name: string)
    requires plan == WavePackages(waves) && WavesReport(waves, results) && Distinct(ReleaseWaves.Flatten(plan))
    requires i < |plan| && name in plan[i]
    ensures name in PublishedIn(results) <==> name in results[i].published
    ensures name in ReusedIn(results) <==> name in results[i].reused
  {
    InSomeWave(results, name);
    forall k | 0 <= k < |results| && (name in results[k].published || name in results[k].reused) ensures k == i {
      WeavesIsPartition(waves[k].packages, results[k].published, results[k].reused);
      assert name in multiset(results[k].published) + multiset(results[k].reused);
      assert name in multiset(waves[k].packages);
      PlannedOnce(plan, i, k, name);
    }
  }

  /** In a completed run without misread views every wave reports what was there as reused, the rest as published. */
  lemma {:induction false} ReportTellsReuse(
      cargo: Cargo, state: State, faults: seq<Fault>, results: seq<WaveResult>)
    requires |faults| >= |ReleaseOrder(cargo.bundle)| && AllReady(cargo, ReleaseOrder(cargo.bundle))
    requires AllHonest(faults) && Distinct(ReleaseOrder(cargo.bundle)) && WavesReport(cargo.bundle.waves, results)
    requires var end := Run(cargo, state, ReleaseOrder(cargo.bundle), faults);
      !end.stopped && end.published == PublishedIn(results) && end.reused == ReusedIn(results)
    ensures forall i :: 0 <= i < |results| ==>
      TellsReuse(cargo, state.versions, cargo.bundle.waves[i].packages, results[i])
  {
    var order, plan := ReleaseOrder(cargo.bundle), WavePackages(cargo.bundle.waves);
    forall i, name | 0 <= i < |results| && name in cargo.bundle.waves[i].packages
      ensures var entry := FindPackage(cargo.bundle.packages, name);
        && entry.Some?
        && (name in results[i].reused <==> Key(entry.value.name, entry.value.version) in state.versions)
        && (name in results[i].published <==> Key(entry.value.name, entry.value.version) !in state.versions)
    {
      InFlatten(plan, i, name);
      var k :| 0 <= k < |order| && order[k] == name;
      assert Ready(cargo, order[k]);
      assert order[..|order|] == order;
      ReusedExactlyWhenThere(cargo, state, order, faults, name);
      ReportedInItsWave(plan, cargo.bundle.waves, results, i, name);
    }
  }

  /** The states of a run: before the first package, and after each of the first k. */
  ghost predicate IsTrace(trace: seq<Progress>, cargo: Cargo, order: seq<string>, faults: seq<Fault>, k: nat)
    requires k < |trace| && k <= |order| <= |faults|
  {
    k > 0 ==>
      IsTrace(trace, cargo, order, faults, k - 1)
      && trace[k] == Advance(cargo, trace[k - 1], order[k - 1], faults[k - 1])
  }

  lemma {:induction false} TraceOfRun(cargo: Cargo, state: State, order: seq<string>, faults: seq<Fault>)
      returns (trace: seq<Progress>)
    requires |faults| >= |order|
    ensures |trace| == |order| + 1 && trace[0] == Progress(state, [], [], 0, false)
    ensures IsTrace(trace, cargo, order, faults, |order|)
    ensures trace[|order|] == Run(cargo, state, order, faults)
  {
    if order == [] {
      trace := [Progress(state, [], [], 0, false)];
    } else {
      var last := |order| - 1;
      var front := TraceOfRun(cargo, state, order[..last], faults);
      trace := front + [Advance(cargo, front[last], order[last], faults[last])];
      TraceExtends(front, trace, cargo, order[..last], order, faults, last);
    }
  }

  lemma {:induction false} TraceExtends(
      a: seq<Progress>, b: seq<Progress>, cargo: Cargo, order: seq<string>, longer: seq<string>, faults: seq<Fault>,
      k: nat)
    requires a <= b && order <= longer && k < |a| && k <= |order| && |longer| <= |faults|
    requires IsTrace(a, cargo, order, faults, k)
    ensures IsTrace(b, cargo, longer, faults, k)
  {
    if k > 0 {
      TraceExtends(a, b, cargo, order, longer, faults, k - 1);
    }
  }

  lemma {:induction false} TraceAt(
      trace: seq<Progress>, cargo: Cargo, order: seq<string>, faults: seq<Fault>, k: nat, n: nat)
    requires k < n < |trace| && n <= |order| <= |faults| && IsTrace(trace, cargo, order, faults, n)
    ensures trace[k + 1] == Advance(cargo, trace[k], order[k], faults[k])
  {
    if k + 1 < n {
      TraceAt(trace, cargo, order, faults, k, n - 1);
    }
  }

  /** A stopped run does not look at the rest of the plan. */
  lemma {:induction false} StoppedRunStays(
      trace: seq<Progress>, cargo: Cargo, order: seq<string>, faults: seq<Fault>, k: nat, n: nat)
    requires k <= n < |trace| && n <= |order| <= |faults| && IsTrace(trace, cargo, order, faults, n) && trace[k].stopped
    ensures trace[n] == trace[k]
  {
    if k < n {
      StoppedRunStays(trace, cargo, order, faults, k, n - 1);
    }
  }

  /** One iteration: package k of the plan. */
  method PublishNext(
      registry: Registry, cargo: Cargo, order: seq<string>, faults: seq<Fault>, k: nat, ghost trace: seq<Progress>)
    returns (visit: Visit)
    requires |trace| - 1 == |order| <= |faults| && k < |order| && IsTrace(trace, cargo, order, faults, |order|)
    requires trace[k].state == registry.Snapshot() && !trace[k].stopped
    modifies registry
    ensures trace[k + 1].state == registry.Snapshot() && trace[k + 1].stopped == visit.Stopped?
    ensures trace[k + 1].published == trace[k].published + (if visit.Published? then [order[k]] else [])
    ensures trace[k + 1].reused == trace[k].reused + (if visit.Reused? then [order[k]] else [])
    ensures visit.Stopped? ==> trace[|order|] == trace[k + 1]
  {
    TraceAt(trace, cargo, order, faults, k, |order|);
    visit := PublishPackage(registry, cargo, order[k], faults[k]);
    if visit.Stopped? {
      StoppedRunStays(trace, cargo, order, faults, k + 1, |order|);
    }
  }

  /** What a wave adds to the run before it. */
  ghost predicate Continues(before: Progress, now: Progress, published: seq<string>, reused: seq<string>) {
    !now.stopped && now.published == before.published + published && now.reused == before.reused + reused
  }

  lemma {:induction false} ContinuesNext(
      before: Progress, now: Progress, next: Progress, published: seq<string>, reused: seq<string>, name: string)
    requires Continues(before, now, published, reused) && !next.stopped
    ensures next.published == now.published + [name] && next.reused == now.reused
      ==> Continues(before, next, published + [name], reused)
    ensures next.published == now.published && next.reused == now.reused + [name]
      ==> Continues(before, next, published, reused + [name])
  {
    Associate(before.published, published, [name]);
    Associate(before.reused, reused, [name]);
  }

  /** The inner loop: one wave, from position `at` of the plan. */
  method PublishWave(
      registry: Registry, cargo: Cargo, order: seq<string>, faults: seq<Fault>, at: nat, size: nat,
      ghost trace: seq<Progress>)
    returns (ok: bool, published: seq<string>, reused: seq<string>)
    requires |trace| - 1 == |order| <= |faults| && at + size <= |order| && IsTrace(trace, cargo, order, faults, |order|)
    requires trace[at].state == registry.Snapshot() && !trace[at].stopped
    modifies registry
    ensures trace[if ok then at + size else |order|].state == registry.Snapshot()
    ensures if ok then Continues(trace[at], trace[at + size], published, reused) else trace[|order|].stopped
    ensures ok ==> Weaves(order[at..at + size], published, reused)
  {
    published, reused := [], [];
    for j := 0 to size
      invariant trace[at + j].state == registry.Snapshot() && Continues(trace[at], trace[at + j], published, reused)
      invariant Weaves(order[at..at + j], published, reused)
    {
      var name := order[at + j];
      assert order[at..at + j + 1] == order[at..at + j] + [name];
      WeaveOne(order[at..at + j], published, reused, name);
      var visit := PublishNext(registry, cargo, order, faults, at + j, trace);
      AddNothing(trace[at + j].published);
      AddNothing(trace[at + j].reused);
      if !visit.Stopped? {
        ContinuesNext(trace[at], trace[at + j], trace[at + j + 1], published, reused, name);
      }
      match visit {
        case Stopped =>
          return false, [], [];
        case Published =>
          published := published + [name];
        case Reused =>
          reused := reused + [name];
      }
    }
    ok := true;
  }

  lemma {:induction false} WaveInPlan(plan: ReleaseWaves.Plan, i: nat)
    requires i < |plan|
    ensures var at, order := |ReleaseWaves.Flatten(plan[..i])|, ReleaseWaves.Flatten(plan);
      && at + |plan[i]| == |ReleaseWaves.Flatten(plan[..i + 1])| <= |order|
      && order[at..at + |plan[i]|] == plan[i]
  {
    ReleaseWaves.FlattenStep(plan, i);
    ReleaseWaves.FlattenAt(plan, i, |plan[i]|);
  }

  /** The outer loop, over the waves of the plan. */
  method PublishWaves(
      registry: Registry, cargo: Cargo, waves: seq<Wave>, order: seq<string>, faults: seq<Fault>,
      ghost trace: seq<Progress>)
    returns (ok: bool, published: seq<string>, reused: seq<string>, results: seq<WaveResult>)
    requires order == ReleaseWaves.Flatten(WavePackages(waves))
    requires |trace| - 1 == |order| <= |faults| && IsTrace(trace, cargo, order, faults, |order|)
    requires trace[0] == Progress(registry.Snapshot(), [], [], 0, false)
    modifies registry
    ensures trace[|order|].state == registry.Snapshot() && trace[|order|].stopped == !ok
    ensures ok ==> trace[|order|].published == published && trace[|order|].reused == reused
    ensures ok ==> WavesReport(waves, results) && PublishedIn(results) == published && ReusedIn(results) == reused
  {
    hide Weaves, WavesReport, PublishedIn, ReusedIn, IsTrace;
    published, reused, results := [], [], [];
    NothingReported();
    var at := 0;
    ghost var plan := WavePackages(waves);
    for i := 0 to |waves|
      invariant at <= |order| && at == |ReleaseWaves.Flatten(plan[..i])|
      invariant trace[at].state == registry.Snapshot() && !trace[at].stopped
      invariant trace[at].published == published && trace[at].reused == reused
      invariant WavesReport(waves[..i], results) && PublishedIn(results) == published && ReusedIn(results) == reused
    {
      WaveInPlan(plan, i);
      var done, wavePublished, waveReused :=
        PublishWave(registry, cargo, order, faults, at, |waves[i].packages|, trace);
      if !done {
        return false, [], [], [];
      }
      at := at + |waves[i].packages|;
      OneWaveMore(results, WaveResult(waves[i].number, wavePublished, waveReused));
      ReportsGrow(waves, i, results, WaveResult(waves[i].number, wavePublished, waveReused));
      published, reused := published + wavePublished, reused + waveReused;
      results := results + [WaveResult(waves[i].number, wavePublished, waveReused)];
    }
    assert plan[..|plan|] == plan && waves[..|waves|] == waves;
    ok := true;
  }

  /**
   Without the right credentials nothing is touched.  Otherwise a completed run reports every wave, and a
   run that throws leaves what it published so far.
   */
  method PublishBundle(registry: Registry, cargo: Cargo, hash: Hasher, environment: Environment, faults: seq<Fault>)
      returns (r: Option<Report>)
    requires |faults| >= |ReleaseOrder(cargo.bundle)|
    modifies registry
    ensures !MayPublish(environment) ==> r.None? && registry.Snapshot() == old(registry.Snapshot())
    ensures MayPublish(environment) ==>
      var end := Run(cargo, old(registry.Snapshot()), ReleaseOrder(cargo.bundle), faults);
      && registry.Snapshot() == end.state
      && (r.None? <==> end.stopped)
      && (r.Some? ==> r.value.published == end.published && r.value.reused == end.reused)
    ensures r.Some? ==> WavesReport(cargo.bundle.waves, r.value.publication.waves)
    ensures r.Some? ==>
      && PublishedIn(r.value.publication.waves) == r.value.published
      && ReusedIn(r.value.publication.waves) == r.value.reused
    ensures var order := ReleaseOrder(cargo.bundle);
      r.Some? && AllReady(cargo, order) && Distinct(order) && AllHonest(faults) ==>
      forall i :: 0 <= i < |cargo.bundle.waves| ==>
        TellsReuse(cargo, old(registry.versions), cargo.bundle.waves[i].packages, r.value.publication.waves[i])
    ensures r.Some? ==>
      r.value.publication == DocumentFor(hash, cargo.bundle.identityDigest, r.value.publication.waves)
    ensures r.Some? ==>
      && environment.enabled == "true" && environment.tokenUrl != "" && environment.token != ""
      && environment.npmToken == "" && environment.nodeAuthToken == ""
  {
    if !MayPublish(environment) {
      return None;
    }
    var waves := cargo.bundle.waves;
    ghost var trace := TraceOfRun(cargo, registry.Snapshot(), ReleaseOrder(cargo.bundle), faults);
    var ok, published, reused, results :=
      PublishWaves(registry, cargo, waves, ReleaseOrder(cargo.bundle), faults, trace);
    if !ok {
      return None;
    }
    ghost var order := ReleaseOrder(cargo.bundle);
    if AllReady(cargo, order) && Distinct(order) && AllHonest(faults) {
      ReportTellsReuse(cargo, old(registry.Snapshot()), faults, results);
    }
    return Some(Report(published, reused, DocumentFor(hash, cargo.bundle.identityDigest, results)));
  }
}
