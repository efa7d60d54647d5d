/**
 The bundle verifier of scripts/release-main.js.  The code decides with lengths, set sizes and
 membership; `Accepts` says what those tests amount to: every list of the bundle enumerates the
 release boundary, the expected assets or the expected checksum lines, with the right contents.
 */
module VerifyBundle {
  import opened Common
  import opened CanonicalJson
  import opened ReleaseDocument
  import opened ReleaseText
  import ReleaseWaves

  // ----- What is on disk --------------------------------------------------------------------

  /** A directory of plain files: what readdir lists and what the files hold. */
  datatype Directory = Directory(listing: seq<string>, files: map<string, string>) {
    ghost predicate Valid() { Enumerates(listing, files.Keys) }
  }

  datatype Node = File(content: string) | Folder(dir: Directory)

  datatype Root = Root(listing: seq<string>, nodes: map<string, Node>) {
    ghost predicate Valid() {
      && Enumerates(listing, nodes.Keys)
      && forall name :: name in nodes && nodes[name].Folder? ==> nodes[name].dir.Valid()
    }

    function Read(name: string): Option<string> {
      if name in nodes && nodes[name].File? then Some(nodes[name].content) else None
    }
  }

  /** The bundle directory, a separate tarball directory if one is given, and a published asset list if one is given. */
  datatype Site = Site(root: Root, elsewhere: Option<Directory>, assets: Option<seq<string>>) {
    ghost predicate Valid() {
      root.Valid() && (elsewhere.Some? ==> elsewhere.value.Valid())
    }

    function Tarballs(): Option<Directory> {
      if elsewhere.Some? then elsewhere
      else if "tarballs" in root.nodes && root.nodes["tarballs"].Folder? then Some(root.nodes["tarballs"].dir)
      else None
    }
  }

  /** SHA-256, and `tar -xO package/package.json` followed by JSON.parse. */
  datatype Tools = Tools(hash: Hasher, unpack: string -> Option<seq<Field>>)

  const FIXED_ASSETS: seq<string> := ["manifest.json", "SHA256SUMS"]

  // ----- What acceptance means --------------------------------------------------------------

  function PackageNames(entries: seq<PackageEntry>): seq<string> {
    seq(|entries|, i requires 0 <= i < |entries| => entries[i].name)
  }

  function IdentityNames(entries: seq<IdentityPackage>): seq<string> {
    seq(|entries|, i requires 0 <= i < |entries| => entries[i].name)
  }

  function AssetNames(tarballs: seq<Tarball>): seq<string> {
    seq(|tarballs|, i requires 0 <= i < |tarballs| => tarballs[i].name)
  }

  function TarballPackages(tarballs: seq<Tarball>): seq<string> {
    seq(|tarballs|, i requires 0 <= i < |tarballs| => tarballs[i].package)
  }

  function WavePackages(waves: seq<Wave>): ReleaseWaves.Plan {
    seq(|waves|, i requires 0 <= i < |waves| => waves[i].packages)
  }

  function ExpectedAssets(bundle: Bundle): set<string> {
    ToSet(FIXED_ASSETS) + ToSet(AssetNames(bundle.tarballs))
  }

  ghost predicate HeaderHolds(hash: Hasher, boundary: set<string>, plan: ReleaseWaves.Plan, bundle: Bundle) {
    && bundle.format == FORMAT
    && bundle.outerChecksum == BundleChecksum(hash, bundle)
    && bundle.identityDigest == IdentityDigest(hash, bundle.identity)
    && bundle.version != ""
    && bundle.tag == "v" + bundle.version
    && bundle.branch == "release/" + bundle.version
    && IsSha(bundle.head) && IsSha(bundle.tree)
    && WavePackages(bundle.waves) == plan && ReleaseWaves.Partitions(plan, boundary)
    && bundle.identity.sha == bundle.head
  }

  ghost predicate AssetsHold(bundle: Bundle, site: Site) {
    && site.Tarballs().Some?
    && Enumerates(site.root.listing, ToSet(FIXED_ASSETS) + if site.elsewhere.Some? then {} else {"tarballs"})
    && Enumerates(FIXED_ASSETS + site.Tarballs().value.listing, ExpectedAssets(bundle))
    && (site.assets.Some? ==> Enumerates(site.assets.value, ExpectedAssets(bundle)))
    && forall name :: name in ExpectedAssets(bundle) ==> IsFlatAsset(name)
  }

  /** The entry a `Map` built from the list holds for a name: the last one. */
  function LastEntry(entries: seq<IdentityPackage>, name: string): Option<IdentityPackage> {
    if entries == [] then None
    else if entries[|entries| - 1].name == name then Some(entries[|entries| - 1])
    else LastEntry(entries[..|entries| - 1], name)
  }

  predicate EntryHolds(bundle: Bundle, entry: PackageEntry, recorded: Option<IdentityPackage>) {
    && recorded.Some?
    && entry.version == bundle.version
    && recorded.value.version == entry.version
    && recorded.value.sourceChecksum == entry.sourceChecksum
    && IsDigest(entry.packageChecksum)
  }

  ghost predicate PackagesHold(boundary: set<string>, bundle: Bundle) {
    && Enumerates(PackageNames(bundle.packages), boundary)
    && ToSet(IdentityNames(bundle.identity.packages)) == boundary
    && forall entry :: entry in bundle.packages ==>
         EntryHolds(bundle, entry, LastEntry(bundle.identity.packages, entry.name))
  }

  /** `packages.find(entry => entry.name === name)`. */
  function FindPackage(entries: seq<PackageEntry>, name: string): Option<PackageEntry> {
    if entries == [] then None
    else if entries[0].name == name then Some(entries[0])
    else FindPackage(entries[1..], name)
  }

  predicate TarballHolds(tools: Tools, bundle: Bundle, dir: Directory, item: Tarball) {
    && IsSafeAsset(item.name)
    && item.name in dir.files
    && |dir.files[item.name]| == item.size
    && Sha256(tools.hash, dir.files[item.name]) == item.sha256
    && var unpacked, expected := tools.unpack(dir.files[item.name]), FindPackage(bundle.packages, item.package);
    && unpacked.Some?
    && expected.Some?
    && item.version == bundle.version
    && var json := unpacked.value;
    && var release := Member(Lookup(json, "scramjet"), "release");
    && Lookup(json, "name") == Some(String(item.package))
    && Lookup(json, "version") == Some(String(item.version))
    && Member(release, "identityDigest") == Some(String(bundle.identityDigest))
    && Member(release, "packageChecksum") == Some(String(expected.value.packageChecksum))
    && PackageChecksum(tools.hash, json) == expected.value.packageChecksum
  }

  ghost predicate TarballsHold(tools: Tools, boundary: set<string>, bundle: Bundle, dir: Directory) {
    && Enumerates(TarballPackages(bundle.tarballs), boundary)
    && Distinct(AssetNames(bundle.tarballs))
    && forall item :: item in bundle.tarballs ==> TarballHolds(tools, bundle, dir, item)
  }

  /** `digest.slice(7)`: a recorded digest without its "sha256:" prefix. */
  function WithoutPrefix(digest: string): string {
    if |digest| < 7 then "" else digest[7..]
  }

  function TarballSums(tarballs: seq<Tarball>): seq<Sum> {
    seq(|tarballs|, i requires 0 <= i < |tarballs| => Sum(WithoutPrefix(tarballs[i].sha256), tarballs[i].name))
  }

  /** Every recorded asset but SHA256SUMS itself, with its digest. */
  function ExpectedSums(hash: Hasher, tarballs: seq<Tarball>, manifest: string): seq<Sum> {
    [Sum(hash(manifest), "manifest.json")] + TarballSums(tarballs)
  }

  ghost predicate SumsHold(tools: Tools, bundle: Bundle, root: Root) {
    && root.Read("manifest.json").Some?
    && root.Read("SHA256SUMS").Some?
    && var sums := ParseSums(root.Read("SHA256SUMS").value);
    && sums.Some?
    && multiset(sums.value) == multiset(ExpectedSums(tools.hash, bundle.tarballs, root.Read("manifest.json").value))
  }

  ghost predicate Accepts(tools: Tools, boundary: set<string>, plan: ReleaseWaves.Plan, bundle: Bundle, site: Site) {
    && HeaderHolds(tools.hash, boundary, plan, bundle)
    && AssetsHold(bundle, site)
    && PackagesHold(boundary, bundle)
    && TarballsHold(tools, boundary, bundle, site.Tarballs().value)
    && SumsHold(tools, bundle, site.root)
  }

  // ----- The verifier -----------------------------------------------------------------------

  function PlanJson(plan: ReleaseWaves.Plan): Json {
    Array(seq(|plan|, i requires 0 <= i < |plan| => Strings(plan[i])))
  }

  /** Comparing printed wave plans is comparing wave plans. */
  lemma {:induction false} PlanTextIdentifiesPlan(a: ReleaseWaves.Plan, b: ReleaseWaves.Plan)
    ensures Canonical(PlanJson(a)) == Canonical(PlanJson(b)) <==> a == b
  {
    CanonicalTextIdentifiesValue(PlanJson(a), PlanJson(b));
    if Same(PlanJson(a), PlanJson(b)) {
      forall i | 0 <= i < |a| ensures a[i] == b[i] {
        assert Same(PlanJson(a).items[i], PlanJson(b).items[i]);
        forall j | 0 <= j < |a[i]| ensures a[i][j] == b[i][j] {
          assert Same(Strings(a[i]).items[j], Strings(b[i]).items[j]);
        }
      }
    }
  }

  method CheckHeader(hash: Hasher, boundary: set<string>, plan: ReleaseWaves.Plan, bundle: Bundle) returns (r: Outcome)
    ensures r.Pass? <==> HeaderHolds(hash, boundary, plan, bundle)
  {
    if bundle.format != FORMAT || bundle.outerChecksum != BundleChecksum(hash, bundle) {
      return Fail("immutable bundle manifest checksum is invalid");
    }
    if bundle.identityDigest != IdentityDigest(hash, bundle.identity) {
      return Fail("immutable bundle identity digest is invalid");
    }
    if bundle.version == "" || bundle.tag != "v" + bundle.version || bundle.branch != "release/" + bundle.version {
      return Fail("bundle version, tag, or branch is invalid");
    }
    if CanonicalSha(bundle.head).None? || CanonicalSha(bundle.tree).None? {
      return Fail("a 40-character SHA is required");
    }
    var waves := WavePackages(bundle.waves);
    r := ReleaseWaves.ValidateReleaseWaves(waves, boundary, None);
    if r.Fail? {
      return;
    }
    PlanTextIdentifiesPlan(waves, plan);
    if Canonical(PlanJson(waves)) != Canonical(PlanJson(plan)) {
      return Fail("wave plan does not match the approved plan");
    }
    if bundle.identity.sha != bundle.head {
      return Fail("bundle source identity does not match candidate head");
    }
  }

  /** The counting test on a list of asset names. */
  predicate ListsExactly(actual: seq<string>, expected: set<string>) {
    |ToSet(actual)| == |actual| && |actual| == |expected| && forall name :: name in actual ==> name in expected
  }

  method ValidateAssetList(bundle: Bundle, site: Site) returns (r: Outcome)
    requires site.Valid()
    ensures r.Pass? <==> AssetsHold(bundle, site)
  {
    var expected := ExpectedAssets(bundle);
    if site.Tarballs().None? {
      return Fail("the tarball directory cannot be read");
    }
    var local := FIXED_ASSETS + site.Tarballs().value.listing;
    var actual := if site.assets.Some? then site.assets.value else local;
    var rootEntries := site.root.listing;
    RootListing(site.root, site.elsewhere.Some?);
    if (site.elsewhere.None? && (|rootEntries| != 3 || "tarballs" !in rootEntries)) ||
       (site.elsewhere.Some? && |rootEntries| != 2) ||
       "manifest.json" !in rootEntries || "SHA256SUMS" !in rootEntries {
      return Fail("bundle directory contains extra or missing release assets");
    }
    CountingTest(local, expected);
    CountingTest(actual, expected);
    if site.assets.Some? && !ListsExactly(local, expected) {
      return Fail("downloaded assets do not match the published asset list");
    }
    EnumeratesMeansDistinct(actual, expected);
    if exists name :: name in actual && !IsFlatAsset(name) {
      return Fail("release assets contain an unsafe name");
    }
    if !ListsExactly(actual, expected) {
      return Fail("release assets do not match the recorded tarballs");
    }
    assert forall name :: name in expected ==> name in ToSet(actual);
    return Pass;
  }

  lemma {:induction false} ExactListing(listing: seq<string>, required: set<string>)
    requires Distinct(listing)
    ensures |listing| == |required| && required <= ToSet(listing) <==> Enumerates(listing, required)
  {
    EnumeratesMeansDistinct(listing, required);
    SizeTestIsDistinctness(listing);
    if |listing| == |required| && required <= ToSet(listing) {
      SubsetOfSameSize(required, ToSet(listing));
    }
  }

  /** Two or three entries that include the required ones are exactly the required ones. */
  lemma {:induction false} RootListing(root: Root, elsewhere: bool)
    requires root.Valid()
    ensures (&& (if elsewhere then |root.listing| == 2 else |root.listing| == 3 && "tarballs" in root.listing)
             && "manifest.json" in root.listing && "SHA256SUMS" in root.listing)
      <==> Enumerates(root.listing, ToSet(FIXED_ASSETS) + if elsewhere then {} else {"tarballs"})
  {
    RequiredEntries();
    EnumeratesMeansDistinct(root.listing, root.nodes.Keys);
    ExactListing(root.listing, {"manifest.json", "SHA256SUMS"});
    ExactListing(root.listing, {"manifest.json", "SHA256SUMS", "tarballs"});
  }

  lemma {:induction false} RequiredEntries()
    ensures ToSet(FIXED_ASSETS) == {"manifest.json", "SHA256SUMS"} && |ToSet(FIXED_ASSETS)| == 2
    ensures ToSet(FIXED_ASSETS) + {"tarballs"} == {"manifest.json", "SHA256SUMS", "tarballs"}
    ensures |{"manifest.json", "SHA256SUMS", "tarballs"}| == 3
  {
    assert "manifest.json"[0] != "SHA256SUMS"[0] && "manifest.json"[0] != "tarballs"[0]
      && "SHA256SUMS"[0] != "tarballs"[0];
  }

  lemma {:induction false} LastEntryIsRecorded(entries: seq<IdentityPackage>, name: string)
    ensures LastEntry(entries, name).Some? <==> name in IdentityNames(entries)
  {
    if entries != [] {
      var front := entries[..|entries| - 1];
      LastEntryIsRecorded(front, name);
      assert IdentityNames(entries) == IdentityNames(front) + [entries[|entries| - 1].name];
    }
  }

  method IdentityMap(entries: seq<IdentityPackage>) returns (m: map<string, IdentityPackage>)
    ensures m.Keys == ToSet(IdentityNames(entries))
    ensures forall name :: name in m ==> LastEntry(entries, name) == Some(m[name])
  {
    m := map[];
    for i := 0 to |entries|
      invariant m.Keys == ToSet(IdentityNames(entries[..i]))
      invariant forall name :: name in m ==> LastEntry(entries[..i], name) == Some(m[name])
    {
      assert entries[..i + 1][..i] == entries[..i];
      assert IdentityNames(entries[..i + 1]) == IdentityNames(entries[..i]) + [entries[i].name];
      m := m[entries[i].name := entries[i]];
    }
    assert entries[..|entries|] == entries;
  }

  method CheckPackages(boundary: set<string>, bundle: Bundle) returns (r: Outcome)
    ensures r.Pass? <==> PackagesHold(boundary, bundle) && |bundle.tarballs| == |boundary|
  {
    var identityPackages := IdentityMap(bundle.identity.packages);
    var listed := PackageNames(bundle.packages);
    var packageNames := ToSet(listed);
    CountingTest(listed, boundary);
    EnumeratesMeansDistinct(listed, boundary);
    if |bundle.packages| != |boundary| || |packageNames| != |bundle.packages| ||
       |identityPackages.Keys| != |boundary| ||
       (exists name :: name in packageNames && name !in boundary) ||
       (exists name :: name in boundary && name !in packageNames) || |bundle.tarballs| != |boundary| {
      return Fail("bundle does not contain exactly the release boundary assets");
    }
    var hold := CheckEntries(bundle, identityPackages);
    if !hold {
      return Fail("bundle package identity is invalid");
    }
    RecordedNamesCoverBoundary(boundary, bundle);
    return Pass;
  }

  method CheckEntries(bundle: Bundle, identityPackages: map<string, IdentityPackage>) returns (hold: bool)
    requires identityPackages.Keys == ToSet(IdentityNames(bundle.identity.packages))
    requires forall name :: name in identityPackages ==>
      LastEntry(bundle.identity.packages, name) == Some(identityPackages[name])
    ensures hold <==> forall entry :: entry in bundle.packages ==>
      EntryHolds(bundle, entry, LastEntry(bundle.identity.packages, entry.name))
  {
    for i := 0 to |bundle.packages|
      invariant forall k :: 0 <= k < i ==>
        EntryHolds(bundle, bundle.packages[k], LastEntry(bundle.identity.packages, bundle.packages[k].name))
    {
      var entry := bundle.packages[i];
      LastEntryIsRecorded(bundle.identity.packages, entry.name);
      var recorded := if entry.name in identityPackages then Some(identityPackages[entry.name]) else None;
      if !EntryHolds(bundle, entry, recorded) {
        return false;
      }
    }
    return true;
  }

  /** As many recorded identities as boundary packages, one for each package: they are the boundary. */
  lemma {:induction false} RecordedNamesCoverBoundary(boundary: set<string>, bundle: Bundle)
    requires ToSet(PackageNames(bundle.packages)) == boundary
    requires |ToSet(IdentityNames(bundle.identity.packages))| == |boundary|
    requires forall entry :: entry in bundle.packages ==> LastEntry(bundle.identity.packages, entry.name).Some?
    ensures ToSet(IdentityNames(bundle.identity.packages)) == boundary
  {
    forall name | name in boundary ensures name in IdentityNames(bundle.identity.packages) {
      var i :| 0 <= i < |bundle.packages| && PackageNames(bundle.packages)[i] == name;
      assert bundle.packages[i] in bundle.packages;
      LastEntryIsRecorded(bundle.identity.packages, name);
    }
    SubsetOfSameSize(boundary, ToSet(IdentityNames(bundle.identity.packages)));
  }

  lemma {:induction false} FoundPackage(entries: seq<PackageEntry>, name: string)
    ensures FindPackage(entries, name).Some? <==> name in PackageNames(entries)
    ensures FindPackage(entries, name).Some? ==>
      FindPackage(entries, name).value in entries && FindPackage(entries, name).value.name == name
  {
    if entries != [] {
      FoundPackage(entries[1..], name);
      assert PackageNames(entries) == [entries[0].name] + PackageNames(entries[1..]);
    }
  }

  /** As many items as members: the items enumerate the members exactly when each member was seen. */
  lemma {:induction false} SeenIsEnumerated(packages: seq<string>, boundary: set<string>)
    requires |packages| == |boundary|
    ensures ToSet(packages) == boundary <==> Enumerates(packages, boundary)
  {
    SizeTestIsDistinctness(packages);
    EnumeratesMeansDistinct(packages, boundary);
  }

  method CheckTarballs(tools: Tools, boundary: set<string>, bundle: Bundle, dir: Directory) returns (r: Outcome)
    requires |bundle.tarballs| == |boundary|
    ensures r.Pass? <==> TarballsHold(tools, boundary, bundle, dir)
  {
    var walked := WalkTarballs(bundle.tarballs, item => TarballHolds(tools, bundle, dir, item));
    if walked.None? {
      return Fail("duplicate tarball, or a tarball that does not match its record");
    }
    var seen := walked.value;
    SeenIsEnumerated(TarballPackages(bundle.tarballs), boundary);
    if |seen| != |boundary| || (exists name :: name in boundary && name !in seen) ||
       (exists name :: name in seen && name !in boundary) {
      return Fail("bundle tarballs contain duplicate, missing, or extra packages");
    }
    return Pass;
  }

  /** The loop over tarballs: names may not repeat and each item passes its own test. */
  method WalkTarballs(tarballs: seq<Tarball>, holds: Tarball -> bool) returns (seen: Option<set<string>>)
    ensures seen.Some? <==> Distinct(AssetNames(tarballs)) && forall item :: item in tarballs ==> holds(item)
    ensures seen.Some? ==> seen.value == ToSet(TarballPackages(tarballs))
  {
    var packages: set<string> := {};
    var tarballNames: set<string> := {};
    for i := 0 to |tarballs|
      invariant packages == ToSet(TarballPackages(tarballs[..i]))
      invariant tarballNames == ToSet(AssetNames(tarballs[..i])) && Distinct(AssetNames(tarballs[..i]))
      invariant forall item :: item in tarballs[..i] ==> holds(item)
    {
      var item := tarballs[i];
      assert tarballs[..i + 1] == tarballs[..i] + [item];
      assert AssetNames(tarballs[..i + 1]) == AssetNames(tarballs[..i]) + [item.name];
      assert TarballPackages(tarballs[..i + 1]) == TarballPackages(tarballs[..i]) + [item.package];
      if item.name in tarballNames {
        RepeatedAsset(tarballs, i);
        return None;
      }
      if !holds(item) {
        return None;
      }
      tarballNames := tarballNames + {item.name};
      packages := packages + {item.package};
    }
    assert tarballs[..|tarballs|] == tarballs;
    return Some(packages);
  }

  lemma {:induction false} RepeatedAsset(tarballs: seq<Tarball>, i: nat)
    requires i < |tarballs| && tarballs[i].name in AssetNames(tarballs[..i])
    ensures !Distinct(AssetNames(tarballs))
  {
    var k :| 0 <= k < i && AssetNames(tarballs[..i])[k] == tarballs[i].name;
    assert AssetNames(tarballs)[k] == AssetNames(tarballs)[i];
  }

  // ----- SHA256SUMS -------------------------------------------------------------------------

  function Names(sums: seq<Sum>): seq<string> {
    seq(|sums|, i requires 0 <= i < |sums| => sums[i].name)
  }

  function CountName(sums: seq<Sum>, name: string): nat {
    if sums == [] then 0 else (if sums[0].name == name then 1 else 0) + CountName(sums[1..], name)
  }

  lemma {:induction false} CountIsMultiplicity(sums: seq<Sum>, name: string)
    ensures CountName(sums, name) == multiset(Names(sums))[name]
  {
    if sums != [] {
      CountIsMultiplicity(sums[1..], name);
      assert Names(sums) == [sums[0].name] + Names(sums[1..]);
    }
  }

  function SumMap(sums: seq<Sum>): map<string, string> {
    if sums == [] then map[] else SumMap(sums[..|sums| - 1])[sums[|sums| - 1].name := sums[|sums| - 1].digest]
  }

  lemma {:induction false} SumMapKeys(sums: seq<Sum>)
    ensures SumMap(sums).Keys == ToSet(Names(sums))
  {
    if sums != [] {
      SumMapKeys(sums[..|sums| - 1]);
      assert Names(sums) == Names(sums[..|sums| - 1]) + [sums[|sums| - 1].name];
    }
  }

  lemma {:induction false} SumMapOfDistinct(sums: seq<Sum>, i: nat)
    requires Distinct(Names(sums)) && i < |sums|
    ensures sums[i].name in SumMap(sums) && SumMap(sums)[sums[i].name] == sums[i].digest
  {
    var last := |sums| - 1;
    if i < last {
      var front := sums[..last];
      assert Names(front) == Names(sums)[..last];
      SumMapOfDistinct(front, i);
      assert Names(sums)[i] != Names(sums)[last];
    }
  }

  /** The tests on the checksum lines, given the recorded digests by name. */
  predicate LinesMatch(sums: seq<Sum>, expected: map<string, string>) {
    && |sums| == |expected.Keys|
    && (forall s :: s in sums ==> s.name in expected && CountName(sums, s.name) == 1)
    && forall s :: s in sums ==> s.digest == expected[s.name]
  }

  lemma {:induction false} LinesMatchMeansSameSums(sums: seq<Sum>, expected: seq<Sum>)
    requires Distinct(Names(expected))
    ensures LinesMatch(sums, SumMap(expected)) <==> multiset(sums) == multiset(expected)
  {
    SumMapKeys(expected);
    SizeTestIsDistinctness(Names(expected));
    DistinctNamesDistinctSums(expected);
    EnumeratesMeansDistinct(sums, ToSet(expected));
    DistinctMultiset(expected);
    if LinesMatch(sums, SumMap(expected)) {
      MatchingLinesAreExpected(sums, expected);
    }
    if multiset(sums) == multiset(expected) {
      forall s | s in sums
        ensures s.name in SumMap(expected) && CountName(sums, s.name) == 1 && s.digest == SumMap(expected)[s.name] {
        ExpectedLine(sums, expected, s);
      }
      assert |sums| == |multiset(sums)| == |multiset(expected)| == |expected|;
    }
  }

  lemma {:induction false} DistinctNamesDistinctSums(sums: seq<Sum>)
    requires Distinct(Names(sums))
    ensures Distinct(sums)
  {
    forall i, j | 0 <= i < j < |sums| ensures sums[i] != sums[j] {
      assert Names(sums)[i] != Names(sums)[j];
    }
  }

  /** A line of a rearranged expected list carries an expected name once, with its digest. */
  lemma {:induction false} ExpectedLine(sums: seq<Sum>, expected: seq<Sum>, s: Sum)
    requires Distinct(Names(expected)) && Distinct(sums) && ToSet(sums) == ToSet(expected)
    requires s in sums
    ensures s.name in SumMap(expected) && s.digest == SumMap(expected)[s.name] && CountName(sums, s.name) == 1
  {
    assert s in ToSet(expected);
    var i :| 0 <= i < |expected| && expected[i] == s;
    SumMapOfDistinct(expected, i);
    forall j, k | 0 <= j < k < |sums| ensures Names(sums)[j] != Names(sums)[k] {
      assert sums[j] in ToSet(expected) && sums[k] in ToSet(expected);
      var j' :| 0 <= j' < |expected| && expected[j'] == sums[j];
      var k' :| 0 <= k' < |expected| && expected[k'] == sums[k];
      assert Names(expected)[j'] == Names(sums)[j] && Names(expected)[k'] == Names(sums)[k];
    }
    CountIsMultiplicity(sums, s.name);
    DistinctMultiset(Names(sums));
    var m :| 0 <= m < |sums| && sums[m] == s;
    assert Names(sums)[m] == s.name;
  }

  lemma {:induction false} OnceEach(sums: seq<Sum>)
    requires forall s :: s in sums ==> CountName(sums, s.name) == 1
    ensures Distinct(Names(sums))
  {
    forall i, j | 0 <= i < j < |sums| ensures Names(sums)[i] != Names(sums)[j] {
      CountIsMultiplicity(sums, sums[i].name);
      assert sums[i] in sums;
      if Names(sums)[i] == Names(sums)[j] {
        TwiceInMultiset(Names(sums), i, j);
      }
    }
  }

  lemma {:induction false} MatchingLinesAreExpected(sums: seq<Sum>, expected: seq<Sum>)
    requires Distinct(Names(expected)) && Distinct(expected) && LinesMatch(sums, SumMap(expected))
    requires |SumMap(expected).Keys| == |expected|
    ensures multiset(sums) == multiset(expected)
  {
    OnceEach(sums);
    DistinctNamesDistinctSums(sums);
    SumMapKeys(expected);
    forall s | s in sums ensures s in expected {
      assert s.name in ToSet(Names(expected));
      var k :| 0 <= k < |expected| && Names(expected)[k] == s.name;
      SumMapOfDistinct(expected, k);
      assert expected[k] == s;
    }
    SizeTestIsDistinctness(sums);
    SizeTestIsDistinctness(expected);
    SubsetOfSameSize(ToSet(sums), ToSet(expected));
    DistinctMultiset(sums);
    DistinctMultiset(expected);
  }

  method CheckSums(tools: Tools, bundle: Bundle, root: Root) returns (r: Outcome)
    requires Distinct(["manifest.json"] + AssetNames(bundle.tarballs))
    ensures r.Pass? <==> SumsHold(tools, bundle, root)
  {
    var text, manifest := root.Read("SHA256SUMS"), root.Read("manifest.json");
    if text.None? || manifest.None? {
      return Fail("a release file cannot be read");
    }
    var sums := ParseSums(text.value);
    if sums.None? {
      return Fail("SHA256SUMS contains an invalid line");
    }
    var expected := ExpectedSums(tools.hash, bundle.tarballs, manifest.value);
    assert Names(expected) == ["manifest.json"] + AssetNames(bundle.tarballs);
    LinesMatchMeansSameSums(sums.value, expected);
    if !LinesMatch(sums.value, SumMap(expected)) {
      return Fail("SHA256SUMS does not match the recorded assets");
    }
    return Pass;
  }

  /** In an accepted asset list no tarball shares a name with another or with a fixed file. */
  lemma {:induction false} AssetNamesAreDistinct(bundle: Bundle, site: Site, tools: Tools)
    requires AssetsHold(bundle, site) && site.Valid()
    requires Distinct(AssetNames(bundle.tarballs))
    requires forall item :: item in bundle.tarballs ==> item.name in site.Tarballs().value.files
    ensures Distinct(["manifest.json"] + AssetNames(bundle.tarballs))
  {
    var dir := site.Tarballs().value;
    var local := FIXED_ASSETS + dir.listing;
    EnumeratesMeansDistinct(local, ExpectedAssets(bundle));
    EnumeratesMeansDistinct(dir.listing, dir.files.Keys);
    forall j | 0 <= j < |bundle.tarballs| ensures bundle.tarballs[j].name != "manifest.json" {
      assert bundle.tarballs[j] in bundle.tarballs;
      var k :| 0 <= k < |dir.listing| && dir.listing[k] == bundle.tarballs[j].name;
      assert local[0] != local[k + 2];
    }
  }

  /** What acceptance asks of everything below the header. */
  ghost predicate ContentsHold(tools: Tools, boundary: set<string>, bundle: Bundle, site: Site) {
    && AssetsHold(bundle, site)
    && PackagesHold(boundary, bundle)
    && TarballsHold(tools, boundary, bundle, site.Tarballs().value)
    && SumsHold(tools, bundle, site.root)
  }

  method CheckContents(tools: Tools, boundary: set<string>, bundle: Bundle, site: Site) returns (r: Outcome)
    requires site.Valid()
    ensures r.Pass? <==> ContentsHold(tools, boundary, bundle, site)
  {
    r := ValidateAssetList(bundle, site);
    if r.Fail? { return; }
    r := CheckPackages(boundary, bundle);
    if r.Fail? {
      if Enumerates(TarballPackages(bundle.tarballs), boundary) {
        EnumeratedLength(TarballPackages(bundle.tarballs), boundary);
      }
      return;
    }
    var dir := site.Tarballs().value;
    r := CheckTarballs(tools, boundary, bundle, dir);
    if r.Fail? { return; }
    AssetNamesAreDistinct(bundle, site, tools);
    r := CheckSums(tools, bundle, site.root);
  }

  /** Lengths, set sizes and membership decide exactly the bijections `Accepts` states. */
  method Verify(tools: Tools, boundary: set<string>, plan: ReleaseWaves.Plan, bundle: Bundle, site: Site)
      returns (r: Outcome)
    requires site.Valid()
    ensures r.Pass? <==> Accepts(tools, boundary, plan, bundle, site)
  {
    r := CheckHeader(tools.hash, boundary, plan, bundle);
    if r.Fail? { return; }
    r := CheckContents(tools, boundary, bundle, site);
  }

  // ----- What acceptance pins down -------------------------------------------------------------

  /** Every recorded tarball is in the directory with the recorded digest. */
  ghost predicate Digested(hash: Hasher, tarballs: seq<Tarball>, dir: Directory) {
    forall item :: item in tarballs ==> item.name in dir.files && Sha256(hash, dir.files[item.name]) == item.sha256
  }

  /** Some file of the first directory collides with its namesake in the second. */
  predicate FilesCollide(hash: Hasher, a: Directory, b: Directory) {
    exists name :: name in a.files && name in b.files && Collide(hash, a.files[name], b.files[name])
  }

  lemma {:induction false} DigestsPinContents(hash: Hasher, tarballs: seq<Tarball>, a: Directory, b: Directory)
    requires Digested(hash, tarballs, a) && Digested(hash, tarballs, b)
    requires a.files.Keys == b.files.Keys == ToSet(AssetNames(tarballs))
    ensures a.files == b.files <==> !FilesCollide(hash, a, b)
  {
    if !FilesCollide(hash, a, b) {
      forall name | name in a.files ensures a.files[name] == b.files[name] {
        var i :| 0 <= i < |tarballs| && AssetNames(tarballs)[i] == name;
        assert tarballs[i] in tarballs;
        SameDigest(hash, a.files[name], b.files[name]);
      }
    }
  }

  /** A bundle accepts one set of tarball contents only, exactly unless two of the files collide. */
  lemma {:induction false} BundlePinsTarballs(
      tools: Tools, boundary: set<string>, bundle: Bundle, site: Site, other: Site)
    requires site.Valid() && other.Valid()
    requires AssetsHold(bundle, site) && TarballsHold(tools, boundary, bundle, site.Tarballs().value)
    requires AssetsHold(bundle, other) && TarballsHold(tools, boundary, bundle, other.Tarballs().value)
    ensures site.Tarballs().value.files == other.Tarballs().value.files
      <==> !FilesCollide(tools.hash, site.Tarballs().value, other.Tarballs().value)
  {
    AcceptedFiles(tools, bundle, site);
    AcceptedFiles(tools, bundle, other);
    DigestsPinContents(tools.hash, bundle.tarballs, site.Tarballs().value, other.Tarballs().value);
  }

  /** The tarball directory of an accepted bundle holds the recorded files and no others. */
  lemma {:induction false} AcceptedFiles(tools: Tools, bundle: Bundle, site: Site)
    requires site.Valid() && AssetsHold(bundle, site)
    requires forall item :: item in bundle.tarballs ==> item.name in site.Tarballs().value.files
    ensures site.Tarballs().value.files.Keys == ToSet(AssetNames(bundle.tarballs))
  {
    var dir := site.Tarballs().value;
    var local := FIXED_ASSETS + dir.listing;
    EnumeratesMeansDistinct(local, ExpectedAssets(bundle));
    EnumeratesMeansDistinct(dir.listing, dir.files.Keys);
    forall name | name in dir.files ensures name in ToSet(AssetNames(bundle.tarballs)) {
      assert name in ToSet(dir.listing);
      var k :| 0 <= k < |dir.listing| && dir.listing[k] == name;
      assert local[k + 2] == name && local[k + 2] in ToSet(local) && local[0] != local[k + 2]
        && local[1] != local[k + 2];
    }
    forall name | name in ToSet(AssetNames(bundle.tarballs)) ensures name in dir.files {
      var i :| 0 <= i < |bundle.tarballs| && AssetNames(bundle.tarballs)[i] == name;
      assert bundle.tarballs[i] in bundle.tarballs;
    }
  }

  /**
   The recorded identities cover the boundary, but their list may repeat a package: the verifier
   reads it into a `Map`.  The list enumerates the boundary exactly when it is as long as it.
   */
  lemma {:induction false} IdentityListEnumerates(boundary: set<string>, bundle: Bundle)
    requires PackagesHold(boundary, bundle)
    ensures Enumerates(IdentityNames(bundle.identity.packages), boundary) <==> |bundle.identity.packages| == |boundary|
  {
    var names := IdentityNames(bundle.identity.packages);
    EnumeratesMeansDistinct(names, boundary);
    SizeTestIsDistinctness(names);
  }
}
