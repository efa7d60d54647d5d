/**
 The behaviour-test manifest and its split into modes (scripts/run-bdd-waves.js and
 scripts/run-bdd-modes.js): what both validators accept, and what that means for the features run.
 */
module BddChunks {
  import opened Common
  import ReleaseText

  datatype Exclusion = Exclusion(feature: string, reason: string)

  /** CHUNKS as an object (its keys in order and what they hold), DEFAULT_CHUNKS and EXCLUDED_FEATURES. */
  datatype Manifest = Manifest(
    names: seq<string>,
    chunks: map<string, seq<string>>,
    defaults: seq<string>,
    excluded: seq<Exclusion>)

  /** The paths that exist, and whether each is a file; and the feature files found by the walk. */
  datatype Disk = Disk(paths: map<string, bool>, features: seq<string>)

  /** The keys of an object: each occurs once. */
  ghost predicate WellFormed(m: Manifest) {
    Distinct(m.names) && ToSet(m.names) == m.chunks.Keys
  }

  datatype Problem =
    | EmptyChunk(name: string)
    | DeclaredTwice(feature: string, first: string, second: string)
    | Missing(name: string, feature: string)
    | NotAFile(name: string, feature: string)
    | UndeclaredExclusion(feature: string)
    | ExcludedByDefault(feature: string)
    | NoReason(feature: string)
    | Orphans(features: seq<string>)
    | SharedDefaults(shared: set<string>)
    | UndefinedDefault(name: string)

  function Chunk(m: Manifest, name: string): seq<string> {
    if name in m.chunks then m.chunks[name] else []
  }

  /** The features of the named chunks, in order; an undefined chunk has none. */
  function Features(m: Manifest, names: seq<string>): seq<string> {
    if names == [] then [] else Chunk(m, names[0]) + Features(m, names[1..])
  }

  predicate Declared(m: Manifest, feature: string) {
    exists name | name in m.chunks :: feature in m.chunks[name]
  }

  predicate Excluded(m: Manifest, feature: string) {
    exists e | e in m.excluded :: e.feature == feature
  }

  /** How many of the named chunks list the feature. */
  function Owners(m: Manifest, names: seq<string>, feature: string): nat {
    if names == [] then 0 else (if feature in Chunk(m, names[0]) then 1 else 0) + Owners(m, names[1..], feature)
  }

  /** The reason is empty once trimmed. */
  predicate Blank(text: string) {
    forall i | 0 <= i < |text| :: ReleaseText.IsSpace(text[i])
  }

  // ----- What validateManifest accepts ---------------------------------------------------------------

  /** Every chunk lists existing files, and no feature is listed twice anywhere. */
  ghost predicate DeclaredOnce(m: Manifest, disk: Disk) {
    && (forall name :: name in m.chunks ==> m.chunks[name] != [] && Distinct(m.chunks[name]))
    && (forall a, b, f :: a in m.chunks && b in m.chunks && f in m.chunks[a] && f in m.chunks[b] ==> a == b)
    && (forall name, f :: name in m.chunks && f in m.chunks[name] ==> IsFile(disk, f))
  }

  predicate IsFile(disk: Disk, feature: string) {
    feature in disk.paths && disk.paths[feature]
  }

  predicate ExclusionHolds(m: Manifest, e: Exclusion) {
    Declared(m, e.feature) && e.feature !in Features(m, m.defaults) && !Blank(e.reason)
  }

  /** Every feature of the named chunks has one owner among them. */
  ghost predicate OwnsOnce(m: Manifest, names: seq<string>) {
    forall f :: f in Features(m, names) ==> Owners(m, names, f) == 1
  }

  /** The default chunks own every eligible feature on disk, each feature once, and are all defined. */
  ghost predicate DefaultsHold(m: Manifest, disk: Disk) {
    && (forall f :: f in disk.features && !Excluded(m, f) ==> f in Features(m, m.defaults))
    && OwnsOnce(m, m.defaults)
    && (forall name :: name in m.defaults ==> name in m.chunks)
  }

  ghost predicate ManifestHolds(m: Manifest, disk: Disk) {
    && DeclaredOnce(m, disk)
    && (forall e :: e in m.excluded ==> ExclusionHolds(m, e))
    && DefaultsHold(m, disk)
  }

  /** What an error report claims is so. */
  ghost predicate Explains(m: Manifest, disk: Disk, p: Problem) {
    match p
    case EmptyChunk(name) => name in m.chunks && m.chunks[name] == []
    case DeclaredTwice(f, a, b) => f in Chunk(m, a) && f in Chunk(m, b)
    case Missing(name, f) => f in Chunk(m, name) && f !in disk.paths
    case NotAFile(name, f) => f in Chunk(m, name) && f in disk.paths && !disk.paths[f]
    case UndeclaredExclusion(f) => Excluded(m, f) && !Declared(m, f)
    case ExcludedByDefault(f) => Excluded(m, f) && f in Features(m, m.defaults)
    case NoReason(f) => exists e | e in m.excluded :: e.feature == f && Blank(e.reason)
    case Orphans(fs) =>
      fs != [] && forall f :: f in fs <==> f in disk.features && !Excluded(m, f) && f !in Features(m, m.defaults)
    case SharedDefaults(fs) =>
      fs != {} && forall f :: f in fs <==> f in Features(m, m.defaults) && Owners(m, m.defaults, f) != 1
    case UndefinedDefault(name) => name in m.defaults && name !in m.chunks
  }

  // ----- The validator -------------------------------------------------------------------------------

  /** The features of one chunk from position j on can be added to those seen. */
  predicate ChunkFits(disk: Disk, features: seq<string>, seen: set<string>, j: nat)
    requires j <= |features|
    decreases |features| - j
  {
    j == |features|
    || (features[j] !in seen && IsFile(disk, features[j]) && ChunkFits(disk, features, seen + {features[j]}, j + 1))
  }

  /** The chunks from position i on can be added to the features seen. */
  predicate ChunksFit(m: Manifest, disk: Disk, seen: set<string>, i: nat)
    requires i <= |m.names|
    decreases |m.names| - i
  {
    i == |m.names|
    || (Chunk(m, m.names[i]) != [] && ChunkFits(disk, Chunk(m, m.names[i]), seen, 0)
        && ChunksFit(m, disk, seen + ToSet(Chunk(m, m.names[i])), i + 1))
  }

  /** Every feature seen is listed by the chunk it is recorded with. */
  ghost predicate Recorded(m: Manifest, seen: map<string, string>) {
    forall f :: f in seen ==> f in Chunk(m, seen[f])
  }

  method CheckChunk(m: Manifest, disk: Disk, name: string, seen: map<string, string>)
    returns (problem: Option<Problem>, after: map<string, string>)
    requires name in m.chunks && Recorded(m, seen)
    ensures problem.None? <==> ChunkFits(disk, m.chunks[name], seen.Keys, 0)
    ensures problem.Some? ==> Explains(m, disk, problem.value)
    ensures problem.None? ==> after.Keys == seen.Keys + ToSet(m.chunks[name])
    ensures Recorded(m, after)
  {
    var features := m.chunks[name];
    after := seen;
    var j := 0;
    while j < |features|
      invariant 0 <= j <= |features|
      invariant ChunkFits(disk, features, seen.Keys, 0) == ChunkFits(disk, features, after.Keys, j)
      invariant after.Keys == seen.Keys + ToSet(features[..j])
      invariant Recorded(m, after)
    {
      var f := features[j];
      if f in after {
        return Some(DeclaredTwice(f, after[f], name)), after;
      }
      if f !in disk.paths {
        return Some(Missing(name, f)), after;
      }
      if !disk.paths[f] {
        return Some(NotAFile(name, f)), after;
      }
      assert features[..j + 1] == features[..j] + [f];
      assert (after[f := name]).Keys == after.Keys + {f};
      after := after[f := name];
      j := j + 1;
    }
    assert features[..j] == features;
    return None, after;
  }

  method CheckDeclarations(m: Manifest, disk: Disk) returns (problem: Option<Problem>)
    requires WellFormed(m)
    ensures problem.None? <==> ChunksFit(m, disk, {}, 0)
    ensures problem.Some? ==> Explains(m, disk, problem.value)
  {
    var seen: map<string, string> := map[];
    assert seen.Keys == {};
    var i := 0;
    while i < |m.names|
      invariant 0 <= i <= |m.names|
      invariant ChunksFit(m, disk, {}, 0) == ChunksFit(m, disk, seen.Keys, i)
      invariant Recorded(m, seen)
    {
      var name := m.names[i];
      assert name in ToSet(m.names);
      if m.chunks[name] == [] {
        return Some(EmptyChunk(name));
      }
      problem, seen := CheckChunk(m, disk, name, seen);
      if problem.Some? {
        return;
      }
      i := i + 1;
    }
    return None;
  }

  method CheckExclusions(m: Manifest) returns (problem: Option<Problem>)
    ensures problem.None? <==> forall e :: e in m.excluded ==> ExclusionHolds(m, e)
    ensures problem.Some? ==> forall disk: Disk :: Explains(m, disk, problem.value)
  {
    var i := 0;
    while i < |m.excluded|
      invariant 0 <= i <= |m.excluded|
      invariant forall e :: e in m.excluded[..i] ==> ExclusionHolds(m, e)
    {
      var e := m.excluded[i];
      assert e in m.excluded;
      if !Declared(m, e.feature) {
        return Some(UndeclaredExclusion(e.feature));
      }
      if e.feature in Features(m, m.defaults) {
        return Some(ExcludedByDefault(e.feature));
      }
      if Blank(e.reason) {
        return Some(NoReason(e.feature));
      }
      assert m.excluded[..i + 1] == m.excluded[..i] + [e];
      i := i + 1;
    }
    assert m.excluded[..i] == m.excluded;
    return None;
  }

  function Filter(keep: string -> bool, s: seq<string>): (r: seq<string>)
    ensures forall x :: x in r <==> x in s && keep(x)
  {
    if s == [] then []
    else
      assert s == [s[0]] + s[1..];
      (if keep(s[0]) then [s[0]] else []) + Filter(keep, s[1..])
  }

  method ValidateManifest(m: Manifest, disk: Disk) returns (problem: Option<Problem>)
    requires WellFormed(m)
    ensures problem.None? <==> ManifestHolds(m, disk)
    ensures problem.Some? ==> Explains(m, disk, problem.value)
  {
    FitsExactlyWhenDeclaredOnce(m, disk);
    problem := CheckDeclarations(m, disk);
    if problem.Some? {
      return;
    }
    problem := CheckExclusions(m);
    if problem.Some? {
      return;
    }
    problem := CheckDefaults(m, disk);
  }

  method CheckDefaults(m: Manifest, disk: Disk) returns (problem: Option<Problem>)
    ensures problem.None? <==> DefaultsHold(m, disk)
    ensures problem.Some? ==> Explains(m, disk, problem.value)
  {
    var admitted := Features(m, m.defaults);
    var orphans := Filter(f => !Excluded(m, f) && f !in admitted, disk.features);
    if orphans != [] {
      assert orphans[0] in orphans;
      return Some(Orphans(orphans));
    }
    var shared := set f | f in admitted && Owners(m, m.defaults, f) != 1;
    if shared != {} {
      var f :| f in shared;
      return Some(SharedDefaults(shared));
    }
    forall f | f in admitted
      ensures Owners(m, m.defaults, f) == 1
    {
      assert f !in shared;
    }
    var undefined := Filter(name => name !in m.chunks, m.defaults);
    if undefined != [] {
      assert undefined[0] in undefined;
      return Some(UndefinedDefault(undefined[0]));
    }
    return None;
  }

  lemma {:induction false} ChunkFitsWhen(disk: Disk, features: seq<string>, seen: set<string>, j: nat)
    requires j <= |features|
    ensures ChunkFits(disk, features, seen, j)
      <==> Distinct(features[j..]) && forall f :: f in features[j..] ==> f !in seen && IsFile(disk, f)
    decreases |features| - j
  {
    if j < |features| {
      var f, rest := features[j], features[j + 1..];
      assert features[j..] == [f] + rest;
      ChunkFitsWhen(disk, features, seen + {f}, j + 1);
      DistinctCons(f, rest);
    }
  }

  lemma {:induction false} DistinctCons<T>(x: T, rest: seq<T>)
    ensures Distinct([x] + rest) <==> x !in rest && Distinct(rest)
  {
    var s := [x] + rest;
    assert forall i :: 0 <= i < |rest| ==> s[i + 1] == rest[i];
    if Distinct(s) {
      forall y | y in rest
        ensures y != x
      {
        var i :| 0 <= i < |rest| && rest[i] == y;
        assert s[0] != s[i + 1];
      }
      forall i, j | 0 <= i < j < |rest|
        ensures rest[i] != rest[j]
      {
        assert s[i + 1] != s[j + 1];
      }
    }
  }

  /** The chunks from position i on are sound and share nothing with each other or with what was seen. */
  ghost predicate Apart(m: Manifest, disk: Disk, seen: set<string>, i: nat)
    requires i <= |m.names|
  {
    && (forall k :: i <= k < |m.names| ==> Sound(disk, Chunk(m, m.names[k]), seen))
    && (forall k, l, f :: i <= k < l < |m.names| && f in Chunk(m, m.names[k]) ==> f !in Chunk(m, m.names[l]))
  }

  ghost predicate Sound(disk: Disk, features: seq<string>, seen: set<string>) {
    features != [] && Distinct(features) && forall f :: f in features ==> f !in seen && IsFile(disk, f)
  }

  lemma {:induction false} ChunksFitWhen(m: Manifest, disk: Disk, seen: set<string>, i: nat)
    requires i <= |m.names|
    ensures ChunksFit(m, disk, seen, i) <==> Apart(m, disk, seen, i)
    decreases |m.names| - i
  {
    if i < |m.names| {
      var features := Chunk(m, m.names[i]);
      ChunkFitsWhen(disk, features, seen, 0);
      assert features[0..] == features;
      ChunksFitWhen(m, disk, seen + ToSet(features), i + 1);
    }
  }

  lemma {:induction false} NameAt(m: Manifest, name: string) returns (k: nat)
    requires WellFormed(m) && name in m.chunks
    ensures k < |m.names| && m.names[k] == name && Chunk(m, name) == m.chunks[name]
  {
    assert name in ToSet(m.names);
    k :| 0 <= k < |m.names| && m.names[k] == name;
  }

  lemma {:induction false} ApartMeansDeclaredOnce(m: Manifest, disk: Disk)
    requires WellFormed(m) && Apart(m, disk, {}, 0)
    ensures DeclaredOnce(m, disk)
  {
    forall name | name in m.chunks
      ensures Sound(disk, m.chunks[name], {})
    {
      var k := NameAt(m, name);
      assert Sound(disk, Chunk(m, m.names[k]), {});
    }
    forall a, b, f | a in m.chunks && b in m.chunks && f in m.chunks[a] && f in m.chunks[b]
      ensures a == b
    {
      var k := NameAt(m, a);
      var l := NameAt(m, b);
      assert f in Chunk(m, m.names[k]) && f in Chunk(m, m.names[l]);
    }
  }

  lemma {:induction false} DeclaredOnceMeansApart(m: Manifest, disk: Disk)
    requires WellFormed(m) && DeclaredOnce(m, disk)
    ensures Apart(m, disk, {}, 0)
  {
    forall k | 0 <= k < |m.names|
      ensures m.names[k] in m.chunks && Sound(disk, Chunk(m, m.names[k]), {})
    {
      assert m.names[k] in ToSet(m.names);
    }
  }

  lemma {:induction false} FitsExactlyWhenDeclaredOnce(m: Manifest, disk: Disk)
    requires WellFormed(m)
    ensures ChunksFit(m, disk, {}, 0) <==> DeclaredOnce(m, disk)
  {
    ChunksFitWhen(m, disk, {}, 0);
    if Apart(m, disk, {}, 0) {
      ApartMeansDeclaredOnce(m, disk);
    }
    if DeclaredOnce(m, disk) {
      DeclaredOnceMeansApart(m, disk);
    }
  }

  // ----- The split into modes --------------------------------------------------------------------------

  /** EXTRA_CHUNKS: the default chunks that are not base chunks. */
  function ExtraChunks(defaults: seq<string>, base: seq<string>): seq<string> {
    Filter(name => name !in base, defaults)
  }

  /** Base and extra split the default chunks between them. */
  ghost predicate Splits(base: seq<string>, extra: seq<string>, defaults: seq<string>) {
    && Distinct(base) && Distinct(extra)
    && (forall name :: name in defaults <==> name in base || name in extra)
    && (forall name :: !(name in base && name in extra))
  }

  /** `partition`: sizes, membership and disjointness tests alone establish the split. */
  method Partition(base: seq<string>, extra: seq<string>, defaults: seq<string>) returns (r: Outcome)
    ensures r.Pass? <==> Splits(base, extra, defaults)
  {
    SizeTestIsDistinctness(base);
    SizeTestIsDistinctness(extra);
    if |ToSet(base)| != |base| || |ToSet(extra)| != |extra| {
      return Fail("duplicate chunk names");
    }
    var i := 0;
    while i < |base|
      invariant 0 <= i <= |base|
      invariant forall k :: 0 <= k < i ==> base[k] in defaults
    {
      if base[i] !in defaults {
        return Fail("base chunk not in defaults");
      }
      i := i + 1;
    }
    i := 0;
    while i < |extra|
      invariant 0 <= i <= |extra|
      invariant forall k :: 0 <= k < i ==> extra[k] in defaults && extra[k] !in base
    {
      if extra[i] !in defaults {
        return Fail("extra chunk not in defaults");
      }
      if extra[i] in base {
        return Fail("assigned to both");
      }
      i := i + 1;
    }
    SizesCover(ToSet(base), ToSet(extra), ToSet(defaults));
    SetsCover(base, extra, defaults);
    if |ToSet(base)| + |ToSet(extra)| != |ToSet(defaults)| {
      return Fail("incomplete");
    }
    return Pass;
  }

  /** With extra computed as the rest, the split holds exactly when base is a set of default chunks
      and the rest has no repetition. */
  lemma {:induction false} ExtraIsTheRest(base: seq<string>, defaults: seq<string>)
    ensures var extra := ExtraChunks(defaults, base);
      Splits(base, extra, defaults) <==>
        Distinct(base) && Distinct(extra) && forall name :: name in base ==> name in defaults
  {
    var extra := ExtraChunks(defaults, base);
    assert forall name :: name in extra <==> name in defaults && name !in base;
  }

  /** Two disjoint subsets cover a set exactly when their sizes add up. */
  lemma {:induction false} SizesCover<T>(a: set<T>, b: set<T>, all: set<T>)
    requires a <= all && b <= all && a !! b
    ensures |a| + |b| == |all| <==> a + b == all
  {
    assert |a + b| == |a| + |b|;
    if |a| + |b| == |all| {
      SubsetOfSameSize(a + b, all);
    }
  }

  lemma {:induction false} SetsCover(base: seq<string>, extra: seq<string>, defaults: seq<string>)
    ensures ToSet(base) + ToSet(extra) == ToSet(defaults)
      <==> forall name :: name in defaults <==> name in base || name in extra
  {
    if ToSet(base) + ToSet(extra) == ToSet(defaults) {
      forall name
        ensures name in defaults <==> name in base || name in extra
      {
        assert name in ToSet(defaults) <==> name in ToSet(base) + ToSet(extra);
      }
    }
  }

  // ----- Which chunks a request selects ------------------------------------------------------------------

  /** A request names one chunk, a list of chunks, or neither; an empty name is none. */
  datatype Selection = Selection(chunkName: Option<string>, chunkNames: Option<seq<string>>)

  datatype Chosen = Names(names: seq<string>) | Refused(reason: string)

  /** The entries that occur earlier in the list already, from position i on. */
  function Duplicates(names: seq<string>, i: nat): seq<string>
    requires i <= |names|
    decreases |names| - i
  {
    if i == |names| then []
    else (if names[i] in names[..i] then [names[i]] else []) + Duplicates(names, i + 1)
  }

  lemma {:induction false} NoDuplicates(names: seq<string>, i: nat)
    requires i <= |names|
    ensures Duplicates(names, i) == [] <==> forall j, k :: i <= k < |names| && 0 <= j < k ==> names[j] != names[k]
    decreases |names| - i
  {
    if i < |names| {
      NoDuplicates(names, i + 1);
      if names[i] in names[..i] {
        var j :| 0 <= j < i && names[..i][j] == names[i];
        assert names[j] == names[i];
      } else {
        assert forall j :: 0 <= j < i ==> names[j] in names[..i];
      }
    }
  }

  function NormalizeChunks(m: Manifest, s: Selection): Chosen {
    var one := s.chunkName.Some? && s.chunkName.value != "";
    if one && s.chunkNames.Some? then Refused("either one chunk or a list")
    else
      var names :=
        if s.chunkNames.Some? then s.chunkNames.value else if one then [s.chunkName.value] else m.defaults;
      if names == [] then Refused("nothing selected")
      else if Duplicates(names, 0) != [] then Refused("duplicates")
      else if exists name | name in names :: name !in m.chunks then Refused("unknown chunk")
      else Names(names)
  }

  /** The list, the one chunk, or the default chunks; nothing when both are given. */
  function Asked(m: Manifest, s: Selection): Option<seq<string>> {
    match (if s.chunkName == Some("") then None else s.chunkName, s.chunkNames)
    case (Some(_), Some(_)) => None
    case (None, Some(list)) => Some(list)
    case (Some(name), None) => Some([name])
    case (None, None) => Some(m.defaults)
  }

  /** What is asked for is taken as it stands exactly when it names known chunks, at least one and none twice. */
  lemma {:induction false} SelectionsAreTakenWhole(m: Manifest, s: Selection, names: seq<string>)
    ensures NormalizeChunks(m, s) == Names(names)
      <==> && Asked(m, s) == Some(names) && names != [] && Distinct(names)
           && forall name :: name in names ==> name in m.chunks
  {
    NoDuplicates(names, 0);
    assert Duplicates(names, 0) == [] <==> Distinct(names);
    if Asked(m, s) == Some(names) && names != [] && Distinct(names) {
      assert NormalizeChunks(m, s) ==
        if exists name | name in names :: name !in m.chunks then Refused("unknown chunk") else Names(names);
    }
  }

  // ----- Every feature runs once -----------------------------------------------------------------------

  /** A feature of a single chunk is run as often as that chunk is named. */
  lemma {:induction false} RunsAsOftenAsItsChunk(
      m: Manifest, disk: Disk, names: seq<string>, feature: string, owner: string)
    requires DeclaredOnce(m, disk)
    requires owner in m.chunks && feature in m.chunks[owner]
    ensures multiset(Features(m, names))[feature] == multiset(names)[owner]
    ensures Owners(m, names, feature) == multiset(names)[owner]
  {
    if names != [] {
      RunsAsOftenAsItsChunk(m, disk, names[1..], feature, owner);
      assert names == [names[0]] + names[1..];
      InOneChunk(m, disk, names[0], feature, owner);
      assert multiset(Features(m, names))
        == multiset(Chunk(m, names[0])) + multiset(Features(m, names[1..]));
    }
  }

  lemma {:induction false} InOneChunk(m: Manifest, disk: Disk, name: string, feature: string, owner: string)
    requires DeclaredOnce(m, disk)
    requires owner in m.chunks && feature in m.chunks[owner]
    ensures multiset(Chunk(m, name))[feature] == if name == owner then 1 else 0
    ensures feature in Chunk(m, name) <==> name == owner
  {
    if name == owner {
      DistinctMultiset(Chunk(m, name));
    } else {
      assert feature !in Chunk(m, name);
      assert feature !in multiset(Chunk(m, name));
    }
  }

  lemma {:induction false} FeatureHasChunk(m: Manifest, names: seq<string>, feature: string) returns (owner: string)
    requires feature in Features(m, names)
    ensures owner in names && feature in Chunk(m, owner)
  {
    if feature in Chunk(m, names[0]) {
      owner := names[0];
    } else {
      owner := FeatureHasChunk(m, names[1..], feature);
    }
  }

  lemma {:induction false} ChunkIsRun(m: Manifest, names: seq<string>, name: string, feature: string)
    requires name in names && feature in Chunk(m, name)
    ensures feature in Features(m, names)
  {
    if name != names[0] {
      ChunkIsRun(m, names[1..], name, feature);
    }
  }

  lemma {:induction false} SplitRunsTheDefaults(m: Manifest, base: seq<string>, extra: seq<string>, feature: string)
    requires Splits(base, extra, m.defaults)
    ensures feature in Features(m, base + extra) <==> feature in Features(m, m.defaults)
  {
    if feature in Features(m, base + extra) {
      var owner := FeatureHasChunk(m, base + extra, feature);
      ChunkIsRun(m, m.defaults, owner, feature);
    }
    if feature in Features(m, m.defaults) {
      var owner := FeatureHasChunk(m, m.defaults, feature);
      ChunkIsRun(m, base + extra, owner, feature);
    }
  }

  lemma {:induction false} OnceInSplit(base: seq<string>, extra: seq<string>, defaults: seq<string>, name: string)
    requires Splits(base, extra, defaults)
    ensures multiset(base + extra)[name] == if name in defaults then 1 else 0
  {
    DistinctMultiset(base);
    DistinctMultiset(extra);
    assert multiset(base)[name] == if name in ToSet(base) then 1 else 0;
    assert multiset(extra)[name] == if name in ToSet(extra) then 1 else 0;
  }

  // ----- What an accepted manifest is ------------------------------------------------------------------

  predicate ListedAt(m: Manifest, name: string, i: int) {
    name in m.chunks && 0 <= i < |m.chunks[name]|
  }

  /** Every chunk lists existing files, at least one, and no file has two places. */
  ghost predicate ListsFilesOnce(m: Manifest, disk: Disk) {
    && (forall name :: name in m.chunks ==> m.chunks[name] != [])
    && (forall name, i :: ListedAt(m, name, i) ==>
          m.chunks[name][i] in disk.paths && disk.paths[m.chunks[name][i]] == true)
    && (forall a, b, i, j :: ListedAt(m, a, i) && ListedAt(m, b, j) && m.chunks[a][i] == m.chunks[b][j] ==>
          a == b && i == j)
  }

  /** Some chunk of these lists the feature. */
  predicate ListedBy(m: Manifest, names: seq<string>, feature: string) {
    exists k :: 0 <= k < |names| && names[k] in m.chunks && feature in m.chunks[names[k]]
  }

  /** An excluded feature is in some chunk but in no default one, for a reason that is not blank. */
  ghost predicate IsExclusion(m: Manifest, e: Exclusion) {
    && (exists name :: name in m.chunks && e.feature in m.chunks[name])
    && !ListedBy(m, m.defaults, e.feature)
    && exists i :: 0 <= i < |e.reason| && !ReleaseText.IsSpace(e.reason[i])
  }

  lemma {:induction false} ListedFiles(m: Manifest, disk: Disk)
    requires ListsFilesOnce(m, disk)
    ensures DeclaredOnce(m, disk)
  {
    forall name | name in m.chunks ensures Distinct(m.chunks[name]) {
      forall i, j | 0 <= i < j < |m.chunks[name]| ensures m.chunks[name][i] != m.chunks[name][j] {
        assert ListedAt(m, name, i) && ListedAt(m, name, j);
      }
    }
    forall a, b, f | a in m.chunks && b in m.chunks && f in m.chunks[a] && f in m.chunks[b] ensures a == b {
      var i :| 0 <= i < |m.chunks[a]| && m.chunks[a][i] == f;
      var j :| 0 <= j < |m.chunks[b]| && m.chunks[b][j] == f;
      assert ListedAt(m, a, i) && ListedAt(m, b, j);
    }
    forall name, f | name in m.chunks && f in m.chunks[name] ensures IsFile(disk, f) {
      var i :| 0 <= i < |m.chunks[name]| && m.chunks[name][i] == f;
      assert ListedAt(m, name, i);
    }
  }

  lemma {:induction false} FilesAreListed(m: Manifest, disk: Disk)
    requires DeclaredOnce(m, disk)
    ensures ListsFilesOnce(m, disk)
  {
    forall name, i | ListedAt(m, name, i)
      ensures m.chunks[name][i] in m.chunks[name] && IsFile(disk, m.chunks[name][i])
    {
    }
    forall a, b, i, j | ListedAt(m, a, i) && ListedAt(m, b, j) && m.chunks[a][i] == m.chunks[b][j]
      ensures a == b && i == j
    {
      assert m.chunks[a][i] in m.chunks[a] && m.chunks[b][j] in m.chunks[b];
      assert Distinct(m.chunks[a]);
    }
  }

  lemma {:induction false} ListedOnce(m: Manifest, disk: Disk)
    ensures DeclaredOnce(m, disk) <==> ListsFilesOnce(m, disk)
  {
    hide DeclaredOnce, ListsFilesOnce;
    if DeclaredOnce(m, disk) {
      FilesAreListed(m, disk);
    }
    if ListsFilesOnce(m, disk) {
      ListedFiles(m, disk);
    }
  }

  lemma {:induction false} FeaturesAreListed(m: Manifest, names: seq<string>, feature: string)
    ensures feature in Features(m, names) <==> ListedBy(m, names, feature)
  {
    if feature in Features(m, names) {
      var owner := FeatureHasChunk(m, names, feature);
      var k :| 0 <= k < |names| && names[k] == owner;
    }
    if ListedBy(m, names, feature) {
      var k :| 0 <= k < |names| && names[k] in m.chunks && feature in m.chunks[names[k]];
      ChunkIsRun(m, names, names[k], feature);
    }
  }

  lemma {:induction false} TwoNamesOwnTwice(m: Manifest, disk: Disk, names: seq<string>, i: int, j: int)
    requires DeclaredOnce(m, disk) && forall name :: name in names ==> name in m.chunks
    requires 0 <= i < j < |names| && names[i] == names[j]
    ensures !OwnsOnce(m, names)
  {
    assert names[i] in names;
    var f := m.chunks[names[i]][0];
    ChunkIsRun(m, names, names[i], f);
    RunsAsOftenAsItsChunk(m, disk, names, f, names[i]);
    TwiceInMultiset(names, i, j);
  }

  /** The defaults own each of their features once exactly when none of them is named twice. */
  lemma {:induction false} OwnedOnce(m: Manifest, disk: Disk, names: seq<string>)
    requires DeclaredOnce(m, disk) && forall name :: name in names ==> name in m.chunks
    ensures OwnsOnce(m, names) <==> Distinct(names)
  {
    if Distinct(names) {
      DistinctMultiset(names);
      forall f | f in Features(m, names) ensures Owners(m, names, f) == 1 {
        var owner := FeatureHasChunk(m, names, f);
        RunsAsOftenAsItsChunk(m, disk, names, f, owner);
      }
    } else {
      var i, j :| 0 <= i < j < |names| && names[i] == names[j];
      TwoNamesOwnTwice(m, disk, names, i, j);
    }
  }

  /**
   A manifest is accepted exactly when every chunk lists existing files and no file has two places, every exclusion is
   one of a listed file outside the default chunks with a reason, the default chunks are defined and different, and
   they list every feature on disk that is not excluded.
   */
  lemma {:induction false} AcceptedExactly(m: Manifest, disk: Disk)
    ensures ManifestHolds(m, disk) <==>
      && ListsFilesOnce(m, disk)
      && (forall k :: 0 <= k < |m.excluded| ==> IsExclusion(m, m.excluded[k]))
      && Distinct(m.defaults) && (forall k :: 0 <= k < |m.defaults| ==> m.defaults[k] in m.chunks)
      && forall k :: 0 <= k < |disk.features| ==>
           || ListedBy(m, m.defaults, disk.features[k])
           || (exists l :: 0 <= l < |m.excluded| && m.excluded[l].feature == disk.features[k])
  {
    hide DeclaredOnce, ListsFilesOnce, Features, Owners, ListedBy;
    ListedOnce(m, disk);
    forall f ensures f in Features(m, m.defaults) <==> ListedBy(m, m.defaults, f) {
      FeaturesAreListed(m, m.defaults, f);
    }
    forall e ensures ExclusionHolds(m, e) <==> IsExclusion(m, e) {
    }
    forall f ensures Excluded(m, f) <==> exists l :: 0 <= l < |m.excluded| && m.excluded[l].feature == f {
    }
    if DeclaredOnce(m, disk) && forall name :: name in m.defaults ==> name in m.chunks {
      OwnedOnce(m, disk, m.defaults);
    }
  }

  /**
   Both validators accepting, base and extra mode together run every eligible feature on disk exactly
   once and no excluded one, and all mode runs exactly the same features.
   */
  lemma {:induction false} EveryFeatureRunsOnce(
      m: Manifest, disk: Disk, base: seq<string>, extra: seq<string>, feature: string)
    requires ManifestHolds(m, disk) && Splits(base, extra, m.defaults)
    ensures feature in disk.features && !Excluded(m, feature) ==> multiset(Features(m, base + extra))[feature] == 1
    ensures Excluded(m, feature) ==> feature !in Features(m, base + extra)
    ensures multiset(Features(m, base + extra))[feature] == multiset(Features(m, m.defaults))[feature]
  {
    if feature in Features(m, m.defaults) {
      var owner := FeatureHasChunk(m, m.defaults, feature);
      RunsAsOftenAsItsChunk(m, disk, m.defaults, feature, owner);
      RunsAsOftenAsItsChunk(m, disk, base + extra, feature, owner);
      OnceInSplit(base, extra, m.defaults, owner);
    } else {
      SplitRunsTheDefaults(m, base, extra, feature);
    }
  }
}
