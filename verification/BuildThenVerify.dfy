/** What the bundle builder writes, the bundle verifier accepts. */
module BuildThenVerify {
  import opened Common
  import opened CanonicalJson
  import opened ReleaseDocument
  import opened ReleaseText
  import opened VerifyBundle
  import opened CreateBundle
  import ReleaseWaves

  const WRITTEN_ENTRIES: set<string> := {"manifest.json", "SHA256SUMS", "tarballs"}

  /** The output directory after the build; `prior` names what it held before. */
  ghost predicate Shows(site: Site, output: Output, prior: set<string>) {
    && site.Valid() && site.elsewhere.None? && site.assets.None?
    && site.root.nodes.Keys == WRITTEN_ENTRIES + prior
    && site.root.nodes["manifest.json"] == File(output.manifest)
    && site.root.nodes["SHA256SUMS"] == File(output.sums)
    && site.root.nodes["tarballs"].Folder? && site.root.nodes["tarballs"].dir.files == output.tarballs
  }

  /** npm named every tarball differently, and none of the names is a path. */
  ghost predicate NamedApart(tarballs: seq<Tarball>) {
    Distinct(AssetNames(tarballs)) && forall item :: item in tarballs ==> IsFlatAsset(item.name)
  }

  // ----- The lists a release consists of -------------------------------------------------------

  lemma {:induction false} EntriesAt(release: Release, c: Checksums, digest: string, names: seq<string>)
    ensures |release.Entries(c, digest, names)| == |names|
    ensures forall i :: 0 <= i < |names| ==> release.Entries(c, digest, names)[i] == release.Entry(c, digest, names[i])
  {
    if names != [] {
      EntriesAt(release, c, digest, names[..|names| - 1]);
    }
  }

  lemma {:induction false} RecordsAt(release: Release, c: Checksums, packer: Packer, digest: string, names: seq<string>)
    ensures |release.Records(c, packer, digest, names)| == |names|
    ensures forall i :: 0 <= i < |names| ==>
      release.Records(c, packer, digest, names)[i]
      == release.Record(c, digest, names[i], release.Archive(c, packer, digest, names[i]))
  {
    if names != [] {
      RecordsAt(release, c, packer, digest, names[..|names| - 1]);
    }
  }

  lemma {:induction false} IdentitiesAt(release: Release, names: seq<string>, name: string)
    ensures IdentityNames(release.Identities(names)) == names
    ensures name in names ==>
      LastEntry(release.Identities(names), name)
      == Some(IdentityPackage(name, Find(release.manifests, name).sourceChecksum, release.request.version))
  {
    if names != [] {
      var front, ids := names[..|names| - 1], release.Identities(names);
      IdentitiesAt(release, front, name);
      assert ids[..|ids| - 1] == release.Identities(front);
      assert names == front + [names[|names| - 1]];
    }
  }

  lemma {:induction false} StoredNames(
      release: Release, c: Checksums, packer: Packer, digest: string, names: seq<string>)
    ensures release.Stored(c, packer, digest, names).Keys
      == ToSet(AssetNames(release.Records(c, packer, digest, names)))
  {
    if names != [] {
      var front, last := names[..|names| - 1], names[|names| - 1];
      StoredNames(release, c, packer, digest, front);
      assert AssetNames(release.Records(c, packer, digest, names))
        == AssetNames(release.Records(c, packer, digest, front)) + [release.Archive(c, packer, digest, last).name];
    }
  }

  /** When names differ, each tarball file still holds its own archive. */
  lemma {:induction false} StoredAt(
      release: Release, c: Checksums, packer: Packer, digest: string, names: seq<string>, i: nat)
    requires i < |names| && Distinct(AssetNames(release.Records(c, packer, digest, names)))
    ensures var archive := release.Archive(c, packer, digest, names[i]);
      archive.name in release.Stored(c, packer, digest, names)
        && release.Stored(c, packer, digest, names)[archive.name] == archive.content
  {
    var last := |names| - 1;
    var assets := AssetNames(release.Records(c, packer, digest, names));
    RecordsAt(release, c, packer, digest, names);
    if i < last {
      RecordsAt(release, c, packer, digest, names[..last]);
      assert AssetNames(release.Records(c, packer, digest, names[..last])) == assets[..last];
      StoredAt(release, c, packer, digest, names[..last], i);
      assert assets[i] != assets[last];
    }
  }

  // ----- The header ----------------------------------------------------------------------------

  /** The request uses the default tag and branch, and the candidate head as source. */
  predicate IsDefault(request: Request) {
    && request.tag == "v" + request.version
    && request.branch == "release/" + request.version
    && request.sourceSha == request.head
  }

  /** Where the fields of a built bundle come from. */
  lemma {:induction false} BuiltFields(hash: Hasher, packer: Packer, release: Release)
    ensures var bundle, request := release.SignedBundle(Sha256Checksums(hash), packer), release.request;
      && bundle.format == FORMAT
      && bundle.version == request.version && bundle.tag == request.tag && bundle.branch == request.branch
      && bundle.head == Lower(request.head) && bundle.tree == Lower(request.tree)
      && bundle.repository == request.repository
      && bundle.sourceRepository == bundle.identity.repository == SOURCE_REPOSITORY
      && bundle.sourceSha == bundle.identity.sha == Lower(request.sourceSha)
      && bundle.waves == NumberedWaves(release.plan)
  {
  }

  lemma {:induction false} BuiltDigestsHold(hash: Hasher, packer: Packer, release: Release)
    ensures var bundle := release.SignedBundle(Sha256Checksums(hash), packer);
      && bundle.outerChecksum == BundleChecksum(hash, bundle)
      && bundle.identityDigest == IdentityDigest(hash, bundle.identity)
  {
    var c := Sha256Checksums(hash);
    var digest, names := release.Digest(c), release.Names();
    SignedChecksum(hash, release.Assemble(
      release.Entries(c, digest, names), release.Records(c, packer, digest, names), digest));
  }

  lemma {:induction false} NumberedPackages(plan: ReleaseWaves.Plan)
    ensures WavePackages(NumberedWaves(plan)) == plan
  {
  }

  lemma {:induction false} BuiltHeaderHolds(hash: Hasher, packer: Packer, boundary: set<string>, release: Release)
    requires IsDefault(release.request) && release.request.version != ""
    requires IsSha(release.request.head) && IsSha(release.request.tree)
    requires ReleaseWaves.Partitions(release.plan, boundary)
    ensures HeaderHolds(hash, boundary, release.plan, release.SignedBundle(Sha256Checksums(hash), packer))
  {
    BuiltFields(hash, packer, release);
    BuiltDigestsHold(hash, packer, release);
    LowerIsStable(release.request.head);
    LowerIsStable(release.request.tree);
    NumberedPackages(release.plan);
  }

  lemma {:induction false} SignedChecksum(hash: Hasher, unsigned: Bundle)
    ensures var signed := Sign(Sha256Checksums(hash), unsigned);
      signed == unsigned.(outerChecksum := signed.outerChecksum) && signed.outerChecksum == BundleChecksum(hash, signed)
  {
    OuterChecksumIgnoresItself(hash, unsigned, BundleChecksum(hash, unsigned));
  }

  // ----- The package lists ---------------------------------------------------------------------

  lemma {:induction false} BuiltEntryHolds(hash: Hasher, packer: Packer, release: Release, i: nat)
    requires i < |release.Names()|
    ensures var bundle := release.SignedBundle(Sha256Checksums(hash), packer);
      && i < |bundle.packages|
      && EntryHolds(bundle, bundle.packages[i], LastEntry(bundle.identity.packages, bundle.packages[i].name))
  {
    var c, names := Sha256Checksums(hash), release.Names();
    EntriesAt(release, c, release.Digest(c), names);
    IdentitiesAt(release, names, names[i]);
    ChecksumIsDigest(hash, release.Written(c, release.Digest(c), names[i]));
  }

  lemma {:induction false} BuiltLists(hash: Hasher, packer: Packer, release: Release)
    ensures var bundle := release.SignedBundle(Sha256Checksums(hash), packer);
      PackageNames(bundle.packages) == release.Names() && IdentityNames(bundle.identity.packages) == release.Names()
  {
    var c := Sha256Checksums(hash);
    EntriesAt(release, c, release.Digest(c), release.Names());
    IdentitiesAt(release, release.Names(), "");
    NamesByIndex(release.SignedBundle(c, packer).packages, release.Names());
  }

  lemma {:induction false} NamesByIndex(entries: seq<PackageEntry>, names: seq<string>)
    requires |entries| == |names| && forall i :: 0 <= i < |names| ==> entries[i].name == names[i]
    ensures PackageNames(entries) == names
  {
  }

  lemma {:induction false} PackagesHoldByIndex(boundary: set<string>, bundle: Bundle, names: seq<string>)
    requires Enumerates(names, boundary)
    requires PackageNames(bundle.packages) == names && IdentityNames(bundle.identity.packages) == names
    requires forall i :: 0 <= i < |bundle.packages| ==>
      EntryHolds(bundle, bundle.packages[i], LastEntry(bundle.identity.packages, bundle.packages[i].name))
    ensures PackagesHold(boundary, bundle)
  {
    EnumeratesMeansDistinct(names, boundary);
  }

  lemma {:induction false} BuiltPackagesHold(hash: Hasher, packer: Packer, boundary: set<string>, release: Release)
    requires ReleaseWaves.Partitions(release.plan, boundary)
    ensures PackagesHold(boundary, release.SignedBundle(Sha256Checksums(hash), packer))
  {
    var bundle := release.SignedBundle(Sha256Checksums(hash), packer);
    BuiltLists(hash, packer, release);
    forall i | 0 <= i < |bundle.packages|
      ensures EntryHolds(bundle, bundle.packages[i], LastEntry(bundle.identity.packages, bundle.packages[i].name))
    {
      BuiltEntryHolds(hash, packer, release, i);
    }
    PackagesHoldByIndex(boundary, bundle, release.Names());
  }

  lemma {:induction false} ChecksumIsDigest(hash: Hasher, json: seq<Field>)
    ensures IsDigest(Sha256Checksums(hash).package(json))
  {
    PrintedDigestIsDigest(hash, Canonical(Object(WithoutChecksum(json))));
  }

  // ----- The tarballs --------------------------------------------------------------------------

  lemma {:induction false} AnnotatedReads(
      hash: Hasher, json: seq<Field>, version: string, digest: string, sourceChecksum: string)
    ensures var written := Annotated(hash, Set(json, "version", String(version)), version, digest, sourceChecksum);
      var release := Member(Lookup(written, "scramjet"), "release");
      && Lookup(written, "name") == Lookup(json, "name")
      && Lookup(written, "version") == Some(String(version))
      && Member(release, "identityDigest") == Some(String(digest))
      && Member(release, "packageChecksum") == Some(String(PackageChecksum(hash, written)))
  {
    var pkg := Set(json, "version", String(version));
    var fields := ReleaseFields(digest, sourceChecksum);
    var checksum := PackageChecksum(hash, Released(pkg, version, fields));
    var signed := fields + [Field("packageChecksum", String(checksum))];
    ReadBack(pkg, version, signed, "identityDigest");
    ReleaseFieldsAreUnsigned(digest, sourceChecksum);
    AppendLookup(fields, "packageChecksum", String(checksum), "identityDigest");
    SetKeepsOthers(json, "version", String(version), "name");
    EmbeddedChecksumVerifies(hash, pkg, version, digest, sourceChecksum);
  }

  lemma {:induction false} WrittenReads(hash: Hasher, release: Release, digest: string, name: string)
    requires Lookup(Find(release.manifests, name).json, "name") == Some(String(name))
    ensures var c := Sha256Checksums(hash);
      var written := release.Written(c, digest, name);
      var member := Member(Lookup(written, "scramjet"), "release");
      && Lookup(written, "name") == Some(String(name))
      && Lookup(written, "version") == Some(String(release.request.version))
      && Member(member, "identityDigest") == Some(String(digest))
      && Member(member, "packageChecksum") == Some(String(c.package(written)))
      && PackageChecksum(hash, written) == c.package(written)
  {
    var m := Find(release.manifests, name);
    AnnotatedReads(hash, m.json, release.request.version, digest, m.sourceChecksum);
  }

  lemma {:induction false} FoundEntry(release: Release, c: Checksums, digest: string, name: string)
    requires name in release.Names()
    ensures FindPackage(release.Entries(c, digest, release.Names()), name) == Some(release.Entry(c, digest, name))
  {
    var entries := release.Entries(c, digest, release.Names());
    EntriesAt(release, c, digest, release.Names());
    FoundPackage(entries, name);
    var i :| 0 <= i < |release.Names()| && release.Names()[i] == name;
    assert PackageNames(entries)[i] == name;
    var found := FindPackage(entries, name).value;
    var k :| 0 <= k < |entries| && entries[k] == found;
  }

  lemma {:induction false} BuiltTarballHolds(tools: Tools, packer: Packer, release: Release, dir: Directory, i: nat)
    requires Faithful(tools, packer) && i < |release.Names()|
    requires var c := Sha256Checksums(tools.hash);
      dir.files == release.Stored(c, packer, release.Digest(c), release.Names())
    requires Lookup(Find(release.manifests, release.Names()[i]).json, "name") == Some(String(release.Names()[i]))
    requires NamedApart(release.SignedBundle(Sha256Checksums(tools.hash), packer).tarballs)
    ensures var bundle := release.SignedBundle(Sha256Checksums(tools.hash), packer);
      i < |bundle.tarballs| && TarballHolds(tools, bundle, dir, bundle.tarballs[i])
  {
    var c, names := Sha256Checksums(tools.hash), release.Names();
    var digest, bundle := release.Digest(c), release.SignedBundle(c, packer);
    RecordsAt(release, c, packer, digest, names);
    StoredAt(release, c, packer, digest, names, i);
    FoundEntry(release, c, digest, names[i]);
    WrittenReads(tools.hash, release, digest, names[i]);
    assert bundle.tarballs[i] in bundle.tarballs;
    var written := release.Written(c, digest, names[i]);
    assert tools.unpack(packer.pack(release.Path(names[i]), written).content) == Some(written);
  }

  /** Every collected package.json carries the name it is released under. */
  ghost predicate NamesRecorded(release: Release) {
    forall name :: name in release.Names() ==> Lookup(Find(release.manifests, name).json, "name") == Some(String(name))
  }

  lemma {:induction false} BuiltRecords(hash: Hasher, packer: Packer, release: Release)
    ensures var tarballs := release.SignedBundle(Sha256Checksums(hash), packer).tarballs;
      |tarballs| == |release.Names()| && TarballPackages(tarballs) == release.Names()
  {
    var c := Sha256Checksums(hash);
    RecordsAt(release, c, packer, release.Digest(c), release.Names());
    PackagesByIndex(release.SignedBundle(c, packer).tarballs, release.Names());
  }

  lemma {:induction false} PackagesByIndex(tarballs: seq<Tarball>, names: seq<string>)
    requires |tarballs| == |names| && forall i :: 0 <= i < |names| ==> tarballs[i].package == names[i]
    ensures TarballPackages(tarballs) == names
  {
  }

  lemma {:induction false} BuiltTarballsHold(
      tools: Tools, packer: Packer, boundary: set<string>, release: Release, dir: Directory)
    requires Faithful(tools, packer) && ReleaseWaves.Partitions(release.plan, boundary) && NamesRecorded(release)
    requires var c := Sha256Checksums(tools.hash);
      dir.files == release.Stored(c, packer, release.Digest(c), release.Names())
    requires NamedApart(release.SignedBundle(Sha256Checksums(tools.hash), packer).tarballs)
    ensures TarballsHold(tools, boundary, release.SignedBundle(Sha256Checksums(tools.hash), packer), dir)
  {
    var bundle := release.SignedBundle(Sha256Checksums(tools.hash), packer);
    BuiltRecords(tools.hash, packer, release);
    forall i | 0 <= i < |bundle.tarballs| ensures TarballHolds(tools, bundle, dir, bundle.tarballs[i]) {
      assert release.Names()[i] in release.Names();
      BuiltTarballHolds(tools, packer, release, dir, i);
    }
  }

  // ----- The checksum file and the asset list ---------------------------------------------------

  lemma {:induction false} FixedAssetsAreFlat()
    ensures IsFlatAsset("manifest.json") && IsFlatAsset("SHA256SUMS")
    ensures IsSafeAsset("manifest.json")
  {
  }

  lemma {:induction false} SumsArePrintable(tarballs: seq<Tarball>)
    requires forall item :: item in tarballs ==> IsFlatAsset(item.name) && IsHex64(WithoutPrefix(item.sha256))
    ensures forall s :: s in TarballSums(tarballs) ==> Printable(s)
  {
    forall s | s in TarballSums(tarballs) ensures Printable(s) {
      var i :| 0 <= i < |tarballs| && TarballSums(tarballs)[i] == s;
      assert tarballs[i] in tarballs;
    }
  }

  lemma {:induction false} BuiltDigest(hash: Hasher, packer: Packer, release: Release, i: nat)
    requires i < |release.Names()|
    ensures var c := Sha256Checksums(hash);
      var tarballs := release.SignedBundle(c, packer).tarballs;
      && i < |tarballs|
      && IsHex64(WithoutPrefix(tarballs[i].sha256))
      && tarballs[i].name == release.Archive(c, packer, release.Digest(c), release.Names()[i]).name
  {
    var c := Sha256Checksums(hash);
    RecordsAt(release, c, packer, release.Digest(c), release.Names());
    PrintedDigestIsDigest(hash, release.Archive(c, packer, release.Digest(c), release.Names()[i]).content);
  }

  lemma {:induction false} BuiltDigests(hash: Hasher, packer: Packer, release: Release)
    ensures forall item :: item in release.SignedBundle(Sha256Checksums(hash), packer).tarballs ==>
      IsHex64(WithoutPrefix(item.sha256))
  {
    var tarballs := release.SignedBundle(Sha256Checksums(hash), packer).tarballs;
    BuiltRecords(hash, packer, release);
    forall i | 0 <= i < |tarballs| ensures IsHex64(WithoutPrefix(tarballs[i].sha256)) {
      BuiltDigest(hash, packer, release, i);
    }
  }

  lemma {:induction false} BuiltNames(hash: Hasher, packer: Packer, release: Release)
    requires var c := Sha256Checksums(hash); release.NamesSafe(c, packer, release.Digest(c), release.Names())
    ensures forall item :: item in release.SignedBundle(Sha256Checksums(hash), packer).tarballs ==>
      IsTarballName(item.name)
  {
    var tarballs := release.SignedBundle(Sha256Checksums(hash), packer).tarballs;
    BuiltRecords(hash, packer, release);
    forall i | 0 <= i < |tarballs| ensures IsTarballName(tarballs[i].name) {
      BuiltDigest(hash, packer, release, i);
      assert release.Names()[i] in release.Names();
    }
  }

  lemma {:induction false} PrintedSumsHold(tools: Tools, bundle: Bundle, root: Root, manifest: string)
    requires root.Read("manifest.json") == Some(manifest)
    requires root.Read("SHA256SUMS")
      == Some(PrintSums(TarballSums(bundle.tarballs), Sum(tools.hash(manifest), "manifest.json")))
    requires forall item :: item in bundle.tarballs ==> IsFlatAsset(item.name) && IsHex64(WithoutPrefix(item.sha256))
    ensures SumsHold(tools, bundle, root)
  {
    var sums, last := TarballSums(bundle.tarballs), Sum(tools.hash(manifest), "manifest.json");
    SumsArePrintable(bundle.tarballs);
    FixedAssetsAreFlat();
    SumsRoundTrip(sums, last);
    assert multiset(sums + [last]) == multiset([last] + sums);
  }

  lemma {:induction false} BuiltSumsHold(tools: Tools, packer: Packer, release: Release, root: Root)
    requires var output := release.WrittenOutput(Sha256Checksums(tools.hash), packer);
      root.Read("manifest.json") == Some(output.manifest) && root.Read("SHA256SUMS") == Some(output.sums)
    requires NamedApart(release.SignedBundle(Sha256Checksums(tools.hash), packer).tarballs)
    ensures SumsHold(tools, release.SignedBundle(Sha256Checksums(tools.hash), packer), root)
  {
    var c := Sha256Checksums(tools.hash);
    BuiltDigests(tools.hash, packer, release);
    PrintedSumsHold(tools, release.SignedBundle(c, packer), root, release.WrittenOutput(c, packer).manifest);
  }

  lemma {:induction false} TarballNamesDiffer(name: string)
    requires IsTarballName(name)
    ensures name != "manifest.json" && name != "SHA256SUMS"
  {
    assert name[|name| - 4..][3] == name[|name| - 1] == 'z';
  }

  lemma {:induction false} TarballListing(tarballs: seq<Tarball>, listing: seq<string>)
    requires ToSet(listing) == ToSet(AssetNames(tarballs))
    requires forall item :: item in tarballs ==> IsTarballName(item.name)
    ensures forall k :: 0 <= k < |listing| ==> listing[k] != "manifest.json" && listing[k] != "SHA256SUMS"
  {
    forall k | 0 <= k < |listing| ensures listing[k] != "manifest.json" && listing[k] != "SHA256SUMS" {
      assert listing[k] in ToSet(listing);
      var i :| 0 <= i < |tarballs| && AssetNames(tarballs)[i] == listing[k];
      assert tarballs[i] in tarballs;
      TarballNamesDiffer(listing[k]);
    }
  }

  lemma {:induction false} BuiltAssetsHold(bundle: Bundle, site: Site, output: Output, prior: set<string>)
    requires Shows(site, output, prior)
    requires output.tarballs.Keys == ToSet(AssetNames(bundle.tarballs))
    requires forall item :: item in bundle.tarballs ==> IsTarballName(item.name)
    ensures AssetsHold(bundle, site) <==>
      prior <= WRITTEN_ENTRIES && forall item :: item in bundle.tarballs ==> IsFlatAsset(item.name)
  {
    var listing, names := site.Tarballs().value.listing, ToSet(AssetNames(bundle.tarballs));
    EnumeratesMeansDistinct(listing, names);
    TarballListing(bundle.tarballs, listing);
    LocalListing(listing, ExpectedAssets(bundle), names);
    BuiltRootListing(site.root, prior);
    FlatEverywhere(bundle.tarballs, ExpectedAssets(bundle));
  }

  lemma {:induction false} BuiltRootListing(root: Root, prior: set<string>)
    requires Enumerates(root.listing, root.nodes.Keys) && root.nodes.Keys == WRITTEN_ENTRIES + prior
    ensures Enumerates(root.listing, ToSet(FIXED_ASSETS) + {"tarballs"}) <==> prior <= WRITTEN_ENTRIES
  {
    assert ToSet(FIXED_ASSETS) + {"tarballs"} == WRITTEN_ENTRIES;
    EnumeratesMeansDistinct(root.listing, root.nodes.Keys);
    EnumeratesMeansDistinct(root.listing, WRITTEN_ENTRIES);
  }

  lemma {:induction false} LocalListing(listing: seq<string>, expected: set<string>, names: set<string>)
    requires Enumerates(listing, names) && expected == ToSet(FIXED_ASSETS) + names
    requires forall k :: 0 <= k < |listing| ==> listing[k] != "manifest.json" && listing[k] != "SHA256SUMS"
    ensures Enumerates(FIXED_ASSETS + listing, expected)
  {
    var local := FIXED_ASSETS + listing;
    EnumeratesMeansDistinct(listing, names);
    EnumeratesMeansDistinct(local, expected);
    forall i, j | 0 <= i < j < |local| ensures local[i] != local[j] {
      if j >= 2 { assert local[j] == listing[j - 2]; }
      if i >= 2 { assert local[i] == listing[i - 2]; }
    }
    assert ToSet(local) == expected;
  }

  lemma {:induction false} FlatNames(tarballs: seq<Tarball>)
    ensures (forall name :: name in AssetNames(tarballs) ==> IsFlatAsset(name))
      <==> forall item :: item in tarballs ==> IsFlatAsset(item.name)
  {
    if tarballs != [] {
      var front, last := tarballs[..|tarballs| - 1], tarballs[|tarballs| - 1];
      FlatNames(front);
      assert AssetNames(tarballs) == AssetNames(front) + [last.name];
      assert tarballs == front + [last];
    }
  }

  lemma {:induction false} FlatEverywhere(tarballs: seq<Tarball>, expected: set<string>)
    requires expected == ToSet(FIXED_ASSETS) + ToSet(AssetNames(tarballs))
    ensures (forall name :: name in expected ==> IsFlatAsset(name))
      <==> forall item :: item in tarballs ==> IsFlatAsset(item.name)
  {
    FixedAssetsAreFlat();
    FlatNames(tarballs);
    var names := AssetNames(tarballs);
    assert forall name :: name in names ==> name in expected;
    assert forall name :: name in expected ==> name in names || name == "manifest.json" || name == "SHA256SUMS";
  }

  // ----- The round trip -------------------------------------------------------------------------

  lemma {:induction false} CollectedNames(hash: Hasher, files: seq<PackageFile>, boundary: set<string>, name: string)
    requires Offers(files, boundary) && name in boundary
    ensures Lookup(Find(ManifestsOf(hash, Candidates(files)), name).json, "name") == Some(String(name))
  {
    OfferedNames(hash, files, boundary);
    ManifestsByName(hash, Candidates(files));
    var manifests := ManifestsOf(hash, Candidates(files));
    var file :| file in Candidates(files) && NameOf(file) == name && manifests[name] == ManifestOf(hash, file);
    assert IsNamed(file);
  }

  /**
   For every package set and wave plan, with the default tag, branch and source SHA, the verifier
   accepts the built bundle exactly when the output directory held nothing but earlier output and
   npm gave the tarballs different flat names.
   */
  lemma {:induction false} BuiltBundleVerifies(
      tools: Tools, packer: Packer, boundary: set<string>, plan: ReleaseWaves.Plan, files: seq<PackageFile>,
      request: Request, prior: set<string>, site: Site)
    requires Faithful(tools, packer) && PathsDiffer(files)
    requires IsDefault(request) && Buildable(Sha256Checksums(tools.hash), packer, boundary, plan, files, request)
    requires Shows(site, ReleaseOf(tools.hash, plan, files, request).WrittenOutput(Sha256Checksums(tools.hash), packer),
      prior)
    ensures var bundle := ReleaseOf(tools.hash, plan, files, request).SignedBundle(Sha256Checksums(tools.hash), packer);
      Accepts(tools, boundary, plan, bundle, site) <==> prior <= WRITTEN_ENTRIES && NamedApart(bundle.tarballs)
  {
    var c, release := Sha256Checksums(tools.hash), ReleaseOf(tools.hash, plan, files, request);
    var bundle, output := release.SignedBundle(c, packer), release.WrittenOutput(c, packer);
    StoredNames(release, c, packer, release.Digest(c), release.Names());
    BuiltNames(tools.hash, packer, release);
    BuiltAssetsHold(bundle, site, output, prior);
    if prior <= WRITTEN_ENTRIES && NamedApart(bundle.tarballs) {
      BuiltHeaderHolds(tools.hash, packer, boundary, release);
      BuiltPackagesHold(tools.hash, packer, boundary, release);
      EnumeratesMeansDistinct(release.Names(), boundary);
      forall name | name in release.Names()
        ensures Lookup(Find(release.manifests, name).json, "name") == Some(String(name)) {
        assert name in ToSet(release.Names());
        CollectedNames(tools.hash, files, boundary, name);
      }
      BuiltTarballsHold(tools, packer, boundary, release, site.Tarballs().value);
      BuiltSumsHold(tools, packer, release, site.root);
    }
  }
}
