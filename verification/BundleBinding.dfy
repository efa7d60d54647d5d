/**
 verifyBundle of scripts/release-main.js with its optional arguments: the values a caller expects of the
 bundle, which a publication takes from its identity, and a packages directory to re-check.
 */
module BundleBinding {
  import opened Common
  import opened CanonicalJson
  import opened ReleaseDocument
  import opened ReleaseText
  import opened VerifyBundle
  import opened CreateBundle
  import opened BuildThenVerify
  import opened CreatedRelease
  import opened DocumentDigests
  import opened RepeatedIdentity
  import PublicationIdentity
  import ReleaseVersions
  import ReleaseWaves

  // ----- The expected values -----------------------------------------------------------------------

  /** An empty text is an argument that was not given. */
  predicate ShaHolds(expected: string, actual: string) {
    expected == "" || CanonicalSha(expected) == Some(actual)
  }

  predicate RepositoryHolds(bundle: Bundle, expected: string) {
    expected == "" ||
    (&& expected == DEFAULT_REPOSITORY && bundle.repository == expected
     && bundle.sourceRepository == SOURCE_REPOSITORY && bundle.identity.repository == SOURCE_REPOSITORY
     && IsSha(bundle.sourceSha) && IsSha(bundle.head) && IsSha(bundle.identity.sha)
     && Lower(bundle.sourceSha) == Lower(bundle.head) && Lower(bundle.identity.sha) == Lower(bundle.head))
  }

  predicate BindingHolds(bundle: Bundle, e: PublicationIdentity.Bindings) {
    && (e.version == "" || bundle.version == e.version)
    && (e.branch == "" || bundle.branch == e.branch)
    && ShaHolds(e.candidateHead, bundle.head)
    && ShaHolds(e.candidateTree, bundle.tree)
    && ShaHolds(e.mainTree, bundle.tree)
    && RepositoryHolds(bundle, e.repository)
    && (e.bundleChecksum.Some? ==>
          IsDigest(e.bundleChecksum.value) && bundle.outerChecksum == Lower(e.bundleChecksum.value))
  }

  /** A commit or tree, given in any letters, is the one recorded in small ones. */
  predicate IsCommit(expected: string, actual: string) {
    |expected| == 40 && IsHex(Lower(expected)) && actual == Lower(expected)
  }

  /** What each expected value asks; an empty text asks nothing. */
  lemma {:induction false} BindingHoldsExactly(bundle: Bundle, e: PublicationIdentity.Bindings)
    ensures BindingHolds(bundle, e) <==>
      && (e.version != "" ==> bundle.version == e.version)
      && (e.branch != "" ==> bundle.branch == e.branch)
      && (e.candidateHead != "" ==> IsCommit(e.candidateHead, bundle.head))
      && (e.candidateTree != "" ==> IsCommit(e.candidateTree, bundle.tree))
      && (e.mainTree != "" ==> IsCommit(e.mainTree, bundle.tree))
      && (e.repository != "" ==>
            && e.repository == bundle.repository == "scramjetorg/transform-hub"
            && bundle.sourceRepository == bundle.identity.repository == "https://github.com/scramjetorg/transform-hub"
            && |bundle.sourceSha| == |bundle.head| == |bundle.identity.sha| == 40
            && IsHex(Lower(bundle.head))
            && Lower(bundle.sourceSha) == Lower(bundle.head) == Lower(bundle.identity.sha))
      && (e.bundleChecksum.Some? ==>
            && |e.bundleChecksum.value| == 71 && bundle.outerChecksum == Lower(e.bundleChecksum.value)
            && bundle.outerChecksum[..7] == "sha256:" && IsHex(bundle.outerChecksum[7..]))
  {
  }

  /** No expected values. */
  const NO_BINDINGS := PublicationIdentity.Bindings("", "", "", "", "", "", None)

  /** The bundle as verifyRelease gets it: its package entries replace the identity's packages. */
  function WithEntries(id: Identity, entries: seq<PackageEntry>): Json {
    Object(Set(IdentityJson(id).fields, "packages", EntriesJson(entries)))
  }

  function RecordOfBundle(bundle: Bundle): Record {
    Record(bundle.format, WithEntries(bundle.identity, bundle.packages), bundle.identityDigest, bundle.packages)
  }

  ghost predicate FullyAccepts(
      tools: Tools, boundary: set<string>, plan: ReleaseWaves.Plan, bundle: Bundle, site: Site,
      expected: PublicationIdentity.Bindings, packages: Option<Packages>)
  {
    && Accepts(tools, boundary, plan, bundle, site)
    && BindingHolds(bundle, expected)
    && (packages.Some? ==> ReleaseHolds(tools.hash, boundary, RecordOfBundle(bundle), packages.value))
  }

  method VerifyFully(
      tools: Tools, boundary: set<string>, plan: ReleaseWaves.Plan, bundle: Bundle, site: Site,
      expected: PublicationIdentity.Bindings, packages: Option<Packages>)
      returns (r: Outcome)
    requires site.Valid()
    ensures r.Pass? <==> FullyAccepts(tools, boundary, plan, bundle, site, expected, packages)
  {
    r := CheckHeader(tools.hash, boundary, plan, bundle);
    if r.Fail? { return; }
    if !BindingHolds(bundle, expected) {
      return Fail("the bundle does not match an expected value");
    }
    r := CheckContents(tools, boundary, bundle, site);
    if r.Fail? || packages.None? { return; }
    r := VerifyRelease(tools.hash, boundary, RecordOfBundle(bundle), packages.value);
  }

  // ----- The packages directory --------------------------------------------------------------------

  lemma {:induction false} SetSkips(first: Field, rest: seq<Field>, key: string, value: Json)
    requires first.key != key
    ensures Set([first] + rest, key, value) == [first] + Set(rest, key, value)
  {
    assert ([first] + rest)[1..] == rest;
  }

  lemma {:induction false} UpdateRest(first: Field, rest: seq<Field>, i: nat, f: Field)
    requires i < |rest|
    ensures [first] + rest[i := f] == ([first] + rest)[i + 1 := f]
  {
  }

  lemma {:induction false} DistinctRest(first: Field, rest: seq<Field>, i: nat)
    requires i < |rest| && Distinct(Keys([first] + rest))
    ensures Distinct(Keys(rest)) && first.key != rest[i].key
  {
    var keys := Keys([first] + rest);
    assert keys[0] != keys[i + 1] && keys[1..] == Keys(rest);
  }

  lemma {:induction false} SetAt(fields: seq<Field>, i: nat, value: Json)
    requires i < |fields| && Distinct(Keys(fields))
    ensures Set(fields, fields[i].key, value) == fields[i := Field(fields[i].key, value)]
  {
    if i > 0 {
      var first, rest := fields[0], fields[1..];
      assert fields == [first] + rest;
      DistinctRest(first, rest, i - 1);
      SetAt(rest, i - 1, value);
      SetSkips(first, rest, rest[i - 1].key, value);
      UpdateRest(first, rest, i - 1, Field(rest[i - 1].key, value));
    }
  }

  /** Replacing the identity's packages changes the fourth field alone. */
  lemma {:induction false} ReplacedFields(id: Identity, entries: seq<PackageEntry>)
    ensures var f := IdentityJson(id).fields;
      |f| == 5 && WithEntries(id, entries) == Object(f[3 := Field("packages", EntriesJson(entries))])
    ensures Keys(WithEntries(id, entries).fields) == IDENTITY_KEYS
  {
    var f := IdentityJson(id).fields;
    IdentityKeys(id);
    assert Keys(f)[3] == "packages";
    SetAt(f, 3, EntriesJson(entries));
    assert Keys(f[3 := Field("packages", EntriesJson(entries))]) == Keys(f);
  }

  lemma {:induction false} ReplacedIsWellFormed(id: Identity, entries: seq<PackageEntry>)
    ensures WellFormed(WithEntries(id, entries))
  {
    var f, g := IdentityJson(id).fields, WithEntries(id, entries).fields;
    IdentityIsWellFormed(id);
    EntriesDetermine(entries, entries);
    IdentityKeys(id);
    ReplacedFields(id, entries);
    forall i | 0 <= i < |g| ensures WellFormed(g[i].value) {
      assert f[i] in f;
    }
    WellFormedRecord(g);
  }

  /** A package entry of the bundle is never the same as a package of the identity. */
  lemma {:induction false} EntriesAreNoIdentities(p: IdentityPackage, e: PackageEntry)
    ensures !Same(IdentityPackageJson(p), PackageEntryJson(e))
  {
    var f, g := IdentityPackageJson(p).fields, PackageEntryJson(e).fields;
    HasIsMembership(f, "path");
    HasIsMembership(g, "path");
    assert Keys(f) == ["name", "sourceChecksum", "version"] && "name"[0] != "path"[0];
    assert Keys(g)[5] == "path";
    assert !Has(f, "path") && Has(g, "path");
  }

  lemma {:induction false} ReplacedDiffers(id: Identity, entries: seq<PackageEntry>)
    ensures Same(IdentityJson(id), WithEntries(id, entries)) ==> entries == [] && id.packages == []
    ensures entries == [] && id.packages == [] ==> IdentityJson(id) == WithEntries(id, entries)
  {
    var f, g := IdentityJson(id).fields, WithEntries(id, entries).fields;
    IdentityKeys(id);
    ReplacedFields(id, entries);
    if Same(IdentityJson(id), WithEntries(id, entries)) {
      SameByPosition(f, g);
      assert Same(f[3].value, g[3].value);
      if entries != [] {
        assert Same(IdentityPackagesJson(id.packages).items[0], EntriesJson(entries).items[0]);
        EntriesAreNoIdentities(id.packages[0], entries[0]);
      }
    }
    if entries == [] && id.packages == [] {
      assert f[3] == Field("packages", EntriesJson(entries));
    }
  }

  /** The text that is digested again when a packages directory is given. */
  function RecheckedText(id: Identity, entries: seq<PackageEntry>): string {
    Canonical(WithEntries(id, entries))
  }

  lemma {:induction false} RecheckedTextDiffers(id: Identity, entries: seq<PackageEntry>)
    ensures IdentityText(id) == RecheckedText(id, entries) <==> entries == [] && id.packages == []
  {
    IdentityIsWellFormed(id);
    ReplacedIsWellFormed(id, entries);
    CanonicalTextIdentifiesValue(IdentityJson(id), WithEntries(id, entries));
    ReplacedDiffers(id, entries);
  }

  /** The recorded digest is found again exactly when nothing is listed, or the two texts collide. */
  lemma {:induction false} ReplacedDigest(hash: Hasher, id: Identity, entries: seq<PackageEntry>)
    ensures IdentityDigest(hash, id) == Sha256(hash, RecheckedText(id, entries))
      <==> (entries == [] && id.packages == []) || Collide(hash, IdentityText(id), RecheckedText(id, entries))
  {
    SameDigest(hash, IdentityText(id), RecheckedText(id, entries));
    RecheckedTextDiffers(id, entries);
  }

  lemma {:induction false} NoPackages(boundary: set<string>, bundle: Bundle)
    requires PackagesHold(boundary, bundle)
    ensures boundary == {} <==> bundle.packages == [] && bundle.identity.packages == []
  {
    EnumeratesMeansDistinct(PackageNames(bundle.packages), boundary);
    if bundle.packages != [] {
      assert PackageNames(bundle.packages)[0] in ToSet(PackageNames(bundle.packages));
    }
    if bundle.identity.packages != [] {
      assert IdentityNames(bundle.identity.packages)[0] in ToSet(IdentityNames(bundle.identity.packages));
    }
  }

  /** The digest of the identity and the digest of the re-checked text come out equal although the texts differ. */
  predicate RecheckCollides(hash: Hasher, bundle: Bundle) {
    Collide(hash, IdentityText(bundle.identity), RecheckedText(bundle.identity, bundle.packages))
  }

  /** The directory offers the boundary and every listed package.json carries what the bundle records. */
  ghost predicate DirectoryHolds(hash: Hasher, boundary: set<string>, bundle: Bundle, dir: Packages) {
    Offers(dir.files, boundary) && EntriesHold(hash, boundary, RecordOfBundle(bundle), dir.texts, bundle.packages)
  }

  lemma {:induction false} RecheckNeedsCollision(hash: Hasher, boundary: set<string>, bundle: Bundle, dir: Packages)
    requires PackagesHold(boundary, bundle) && bundle.format == FORMAT
    requires bundle.identityDigest == IdentityDigest(hash, bundle.identity)
    ensures ReleaseHolds(hash, boundary, RecordOfBundle(bundle), dir)
      <==> (boundary == {} || RecheckCollides(hash, bundle)) && DirectoryHolds(hash, boundary, bundle, dir)
  {
    ReplacedDigest(hash, bundle.identity, bundle.packages);
    NoPackages(boundary, bundle);
  }

  /**
   With a packages directory the verifier re-computes the identity digest over the bundle's package entries, which
   are not what the digest was taken over.  It accepts a bundle exactly when it accepts it without the directory,
   the directory holds what the bundle records, and there is nothing to release or the two texts collide.
   */
  lemma {:induction false} PackagesDirectoryIsRefused(
      tools: Tools, boundary: set<string>, plan: ReleaseWaves.Plan, bundle: Bundle, site: Site,
      expected: PublicationIdentity.Bindings, dir: Packages)
    ensures FullyAccepts(tools, boundary, plan, bundle, site, expected, Some(dir))
      <==> FullyAccepts(tools, boundary, plan, bundle, site, expected, None)
           && (boundary == {} || RecheckCollides(tools.hash, bundle))
           && DirectoryHolds(tools.hash, boundary, bundle, dir)
  {
    if FullyAccepts(tools, boundary, plan, bundle, site, expected, None) {
      RecheckNeedsCollision(tools.hash, boundary, bundle, dir);
    }
  }

  /** What createRelease leaves in the packages directory is what the built bundle records. */
  lemma {:induction false} CreatedDirectoryHolds(
      hash: Hasher, packer: Packer, boundary: set<string>, plan: ReleaseWaves.Plan, files: seq<PackageFile>,
      request: Request, disk: map<string, seq<Field>>, dir: Packages)
    requires PathsDiffer(files) && Collectable(boundary, plan, files)
    requires Annotates(Sha256Checksums(hash), ReleaseOf(hash, plan, files, request), disk)
    requires Leaves(packer.render, files, disk, dir)
    ensures var bundle := ReleaseOf(hash, plan, files, request).SignedBundle(Sha256Checksums(hash), packer);
      DirectoryHolds(hash, boundary, bundle, dir)
  {
    var release := ReleaseOf(hash, plan, files, request);
    var bundle, created := release.SignedBundle(Sha256Checksums(hash), packer), RecordOf(hash, release);
    CreatedReleaseVerifies(hash, packer.render, boundary, plan, files, request, disk, dir);
    forall entry | entry in bundle.packages
      ensures EntryOnDisk(hash, boundary, RecordOfBundle(bundle), dir.texts, entry)
    {
      assert EntryOnDisk(hash, boundary, created, dir.texts, entry);
    }
  }

  /** Without expected values and without a directory, the acceptance is that of the bundle itself. */
  lemma {:induction false} UnboundAcceptance(
      tools: Tools, boundary: set<string>, plan: ReleaseWaves.Plan, bundle: Bundle, site: Site)
    ensures FullyAccepts(tools, boundary, plan, bundle, site, NO_BINDINGS, None)
      <==> Accepts(tools, boundary, plan, bundle, site)
  {
    assert BindingHolds(bundle, NO_BINDINGS);
  }

  /**
   The built bundle with the very directory that the build left: given that directory it is accepted only if, beside
   what it takes without one, the printed identity and its re-checked form collide.
   */
  lemma {:induction false} BuiltBundleIsRefused(
      tools: Tools, packer: Packer, boundary: set<string>, plan: ReleaseWaves.Plan, files: seq<PackageFile>,
      request: Request, prior: set<string>, site: Site, disk: map<string, seq<Field>>, dir: Packages)
    requires boundary != {} && Faithful(tools, packer) && PathsDiffer(files)
    requires IsDefault(request) && Buildable(Sha256Checksums(tools.hash), packer, boundary, plan, files, request)
    requires Shows(site, ReleaseOf(tools.hash, plan, files, request).WrittenOutput(Sha256Checksums(tools.hash), packer),
      prior)
    requires Annotates(Sha256Checksums(tools.hash), ReleaseOf(tools.hash, plan, files, request), disk)
    requires Leaves(packer.render, files, disk, dir)
    ensures var bundle := ReleaseOf(tools.hash, plan, files, request).SignedBundle(Sha256Checksums(tools.hash), packer);
      && (FullyAccepts(tools, boundary, plan, bundle, site, NO_BINDINGS, None)
          <==> prior <= WRITTEN_ENTRIES && NamedApart(bundle.tarballs))
      && (FullyAccepts(tools, boundary, plan, bundle, site, NO_BINDINGS, Some(dir))
          <==> prior <= WRITTEN_ENTRIES && NamedApart(bundle.tarballs) && RecheckCollides(tools.hash, bundle))
  {
    var bundle := ReleaseOf(tools.hash, plan, files, request).SignedBundle(Sha256Checksums(tools.hash), packer);
    assert DirectoryHolds(tools.hash, boundary, bundle, dir) by {
      CreatedDirectoryHolds(tools.hash, packer, boundary, plan, files, request, disk, dir);
    }
    assert Accepts(tools, boundary, plan, bundle, site)
      <==> prior <= WRITTEN_ENTRIES && NamedApart(bundle.tarballs) by
    {
      BuiltBundleVerifies(tools, packer, boundary, plan, files, request, prior, site);
    }
    UnboundAcceptance(tools, boundary, plan, bundle, site);
    PackagesDirectoryIsRefused(tools, boundary, plan, bundle, site, NO_BINDINGS, dir);
  }

  // ----- A digest without that collision -------------------------------------------------------------

  /** No identity with entries put in has the digest of a printed identity. */
  ghost predicate TellsEntriesApart(hash: Hasher) {
    forall id: Identity, entries: seq<PackageEntry> :: entries != [] ==>
      !Collide(hash, IdentityText(id), RecheckedText(id, entries))
  }

  /** Entries put into one identity never print like another identity. */
  lemma {:induction false} EntriesPrintOtherwise(a: Identity, b: Identity, entries: seq<PackageEntry>)
    requires entries != []
    ensures IdentityText(a) != RecheckedText(b, entries)
  {
    if IdentityText(a) == RecheckedText(b, entries) {
      IdentityIsWellFormed(a);
      ReplacedIsWellFormed(b, entries);
      CanonicalTextIdentifiesValue(IdentityJson(a), WithEntries(b, entries));
      PackagesDiffer(a, b, entries);
    }
  }

  lemma {:induction false} PackagesDiffer(a: Identity, b: Identity, entries: seq<PackageEntry>)
    requires entries != []
    ensures !Same(IdentityJson(a), WithEntries(b, entries))
  {
    var f, g := IdentityJson(a).fields, WithEntries(b, entries).fields;
    IdentityKeys(a);
    ReplacedFields(b, entries);
    if Same(IdentityJson(a), WithEntries(b, entries)) {
      SameByPosition(f, g);
      assert Same(f[3].value, g[3].value);
      assert Same(IdentityPackagesJson(a.packages).items[0], EntriesJson(entries).items[0]);
      EntriesAreNoIdentities(a.packages[0], entries[0]);
    }
  }

  ghost predicate IsIdentityText(text: string) {
    exists id: Identity :: IdentityText(id) == text
  }

  /** There is such a digest: one that marks the texts of identities. */
  lemma {:induction false} SomeDigestTellsEntriesApart() returns (hash: Hasher)
    ensures TellsEntriesApart(hash)
  {
    var zeros: Hex64, ones: Hex64 := seq(64, _ => '0'), seq(64, _ => '1');
    hash := text => if IsIdentityText(text) then ones else zeros;
    assert zeros[0] != ones[0];
    forall id: Identity, entries: seq<PackageEntry> | entries != []
      ensures !Collide(hash, IdentityText(id), RecheckedText(id, entries))
    {
      assert IsIdentityText(IdentityText(id));
      forall other: Identity ensures IdentityText(other) != RecheckedText(id, entries) {
        EntriesPrintOtherwise(other, id, entries);
      }
    }
  }

  /**
   With that digest, a bundle that is accepted without a packages directory and refused with any, whatever the name,
   version, commit and source digest of its only package.
   */
  lemma {:induction false} AcceptedBundleIsRefused(p: Parts)
      returns (tools: Tools, bundle: Bundle, site: Site)
    requires Fit(p)
    ensures FullyAccepts(tools, {p.name}, PlanOf(p), bundle, site, NO_BINDINGS, None)
    ensures forall dir :: !FullyAccepts(tools, {p.name}, PlanOf(p), bundle, site, NO_BINDINGS, Some(dir))
  {
    var hash := SomeDigestTellsEntriesApart();
    tools, bundle, site := RepeatedIdentityIsAccepted(hash, p);
    NoPackages({p.name}, bundle);
    forall dir ensures !FullyAccepts(tools, {p.name}, PlanOf(p), bundle, site, NO_BINDINGS, Some(dir)) {
      PackagesDirectoryIsRefused(tools, {p.name}, PlanOf(p), bundle, site, NO_BINDINGS, dir);
    }
  }

  // ----- The bundle built for a publication --------------------------------------------------------

  /** The request a bundle is built from is the one the publication identity names. */
  predicate Requests(request: Request, d: PublicationIdentity.Identity) {
    && request.version == d.version
    && Lower(request.head) == Lower(d.candidateHead)
    && Lower(request.tree) == Lower(d.candidateTree)
    && request.repository == DEFAULT_REPOSITORY
  }

  /** The bundle has the checksum the identity records, if it records one. */
  predicate Recorded(bundle: Bundle, d: PublicationIdentity.Identity) {
    d.expectedBundleChecksum.Some? ==> bundle.outerChecksum == Lower(d.expectedBundleChecksum.value)
  }

  lemma {:induction false} BuiltBundleBinds(
      hash: Hasher, packer: Packer, release: Release, d: PublicationIdentity.Identity)
    requires IsDefault(release.request) && IsSha(release.request.head) && IsSha(release.request.tree)
    requires PublicationIdentity.Bind(d).Some?
    ensures var bundle := release.SignedBundle(Sha256Checksums(hash), packer);
      BindingHolds(bundle, PublicationIdentity.Bind(d).value) <==> Requests(release.request, d) && Recorded(bundle, d)
  {
    BuiltFields(hash, packer, release);
    LowerIsStable(release.request.head);
    LowerIsStable(release.request.tree);
    LowerIsStable(d.candidateHead);
    LowerIsStable(d.candidateTree);
    if d.expectedBundleChecksum.Some? {
      PublicationIdentity.LowerDigest(d.expectedBundleChecksum.value);
    }
  }

  /**
   What is built for a publication identity passes the verification before publishing, exactly when the request
   is the one the identity names, the checksum is the recorded one, and the build's own conditions hold.
   */
  lemma {:induction false} BuiltBundlePublishes(
      tools: Tools, packer: Packer, boundary: set<string>, plan: ReleaseWaves.Plan, files: seq<PackageFile>,
      request: Request, prior: set<string>, site: Site, d: PublicationIdentity.Identity)
    requires Faithful(tools, packer) && PathsDiffer(files) && PublicationIdentity.Bind(d).Some?
    requires IsDefault(request) && Buildable(Sha256Checksums(tools.hash), packer, boundary, plan, files, request)
    requires Shows(site, ReleaseOf(tools.hash, plan, files, request).WrittenOutput(Sha256Checksums(tools.hash), packer),
      prior)
    ensures var bundle := ReleaseOf(tools.hash, plan, files, request).SignedBundle(Sha256Checksums(tools.hash), packer);
      FullyAccepts(tools, boundary, plan, bundle, site, PublicationIdentity.Bind(d).value, None)
      <==> prior <= WRITTEN_ENTRIES && NamedApart(bundle.tarballs) && Requests(request, d) && Recorded(bundle, d)
  {
    BuiltBundleVerifies(tools, packer, boundary, plan, files, request, prior, site);
    BuiltBundleBinds(tools.hash, packer, ReleaseOf(tools.hash, plan, files, request), d);
  }

  /**
   A recorded checksum leaves one bundle to accept unless two bundle texts collide, and that bundle leaves one set of
   tarballs unless two tarballs of the same name collide.
   */
  lemma {:induction false} RecordedChecksumPinsRelease(
      tools: Tools, boundary: set<string>, plan: ReleaseWaves.Plan, expected: PublicationIdentity.Bindings,
      a: Bundle, b: Bundle, site: Site, other: Site)
    requires site.Valid() && other.Valid() && expected.bundleChecksum.Some?
    requires FullyAccepts(tools, boundary, plan, a, site, expected, None)
    requires FullyAccepts(tools, boundary, plan, b, other, expected, None)
    ensures a == b <==> !Collide(tools.hash, BundleText(a), BundleText(b))
    ensures a == b ==>
      (site.Tarballs().value.files == other.Tarballs().value.files
       <==> !FilesCollide(tools.hash, site.Tarballs().value, other.Tarballs().value))
  {
    ChecksumPinsBundle(tools.hash, a, b);
    TextPinsBundle(a, b);
    if a == b {
      BundlePinsTarballs(tools, boundary, a, site, other);
    }
  }
}
