/**
 What an accepted bundle shows about the files beside it (verifyBundle of scripts/release-main.js), field by field,
 and what nobody can put into such a bundle unnoticed.
 */
module BundleEvidence {
  import opened Common
  import opened CanonicalJson
  import opened ReleaseDocument
  import opened ReleaseText
  import opened VerifyBundle
  import ReleaseWaves

  // ----- The document ---------------------------------------------------------------------------------

  /** The header of an accepted bundle. */
  lemma {:induction false} AcceptedHeader(
      tools: Tools, boundary: set<string>, plan: ReleaseWaves.Plan, bundle: Bundle, site: Site)
    requires Accepts(tools, boundary, plan, bundle, site)
    ensures bundle.format == "transform-hub-main-release-v2"
    ensures bundle.outerChecksum
      == "sha256:" + tools.hash(Canonical(Object(Delete(BundleFields(bundle), "outerChecksum"))))
    ensures bundle.identityDigest == "sha256:" + tools.hash(Canonical(IdentityJson(bundle.identity)))
    ensures bundle.version != "" && bundle.tag == "v" + bundle.version && bundle.branch == "release/" + bundle.version
    ensures |bundle.head| == |bundle.tree| == 40
    ensures forall i :: 0 <= i < 40 ==> IsHexDigit(LowerChar(bundle.head[i])) && IsHexDigit(LowerChar(bundle.tree[i]))
    ensures bundle.identity.sha == bundle.head
    ensures |bundle.waves| == |plan| && forall i :: 0 <= i < |plan| ==> bundle.waves[i].packages == plan[i] != []
    ensures Distinct(ReleaseWaves.Flatten(plan)) && ToSet(ReleaseWaves.Flatten(plan)) == boundary
  {
    hide PackagesHold, AssetsHold, TarballsHold, SumsHold;
    assert HeaderHolds(tools.hash, boundary, plan, bundle);
    EnumeratesMeansDistinct(ReleaseWaves.Flatten(plan), boundary);
    assert |WavePackages(bundle.waves)| == |plan|;
    assert forall i :: 0 <= i < |plan| ==> WavePackages(bundle.waves)[i] == bundle.waves[i].packages;
    forall i | 0 <= i < 40
      ensures IsHexDigit(LowerChar(bundle.head[i])) && IsHexDigit(LowerChar(bundle.tree[i]))
    {
      assert Lower(bundle.head)[i] == LowerChar(bundle.head[i]) && Lower(bundle.tree)[i] == LowerChar(bundle.tree[i]);
    }
  }

  /** Some identity package after which none of the same name stands records this name, version and source checksum. */
  ghost predicate RecordedLast(packages: seq<IdentityPackage>, name: string, version: string, source: string) {
    exists j :: 0 <= j < |packages| && packages[j] == IdentityPackage(name, source, version)
      && forall k :: j < k < |packages| ==> packages[k].name != name
  }

  lemma {:induction false} LastIsRecorded(packages: seq<IdentityPackage>, name: string)
    requires LastEntry(packages, name).Some?
    ensures var p := LastEntry(packages, name).value;
      p.name == name && RecordedLast(packages, name, p.version, p.sourceChecksum)
  {
    var last, p := |packages| - 1, LastEntry(packages, name).value;
    if packages[last].name == name {
      assert packages[last] == IdentityPackage(name, p.sourceChecksum, p.version);
    } else {
      var front := packages[..last];
      LastIsRecorded(front, name);
      var j :| 0 <= j < |front| && front[j] == IdentityPackage(name, p.sourceChecksum, p.version)
        && forall k :: j < k < |front| ==> front[k].name != name;
      assert packages[j] == front[j];
      assert forall k :: j < k < last ==> packages[k] == front[k];
    }
  }

  /** Each boundary package has one entry, of the bundle's version, that the identity records likewise. */
  lemma {:induction false} AcceptedPackages(
      tools: Tools, boundary: set<string>, plan: ReleaseWaves.Plan, bundle: Bundle, site: Site)
    requires Accepts(tools, boundary, plan, bundle, site)
    ensures Distinct(PackageNames(bundle.packages)) && |bundle.packages| == |boundary|
    ensures forall i :: 0 <= i < |bundle.packages| ==> var entry := bundle.packages[i];
      && entry.name in boundary && entry.version == bundle.version && IsDigest(entry.packageChecksum)
      && RecordedLast(bundle.identity.packages, entry.name, bundle.version, entry.sourceChecksum)
    ensures forall j :: 0 <= j < |bundle.identity.packages| ==> bundle.identity.packages[j].name in boundary
  {
    hide HeaderHolds, AssetsHold, TarballsHold, SumsHold;
    EnumeratesMeansDistinct(PackageNames(bundle.packages), boundary);
    EnumeratedLength(PackageNames(bundle.packages), boundary);
    forall i | 0 <= i < |bundle.packages|
      ensures var entry := bundle.packages[i];
        && entry.name in boundary && entry.version == bundle.version && IsDigest(entry.packageChecksum)
        && RecordedLast(bundle.identity.packages, entry.name, bundle.version, entry.sourceChecksum)
    {
      var entry := bundle.packages[i];
      assert PackageNames(bundle.packages)[i] == entry.name && entry in bundle.packages;
      assert entry.name in ToSet(PackageNames(bundle.packages));
      LastIsRecorded(bundle.identity.packages, entry.name);
    }
    forall j | 0 <= j < |bundle.identity.packages| ensures bundle.identity.packages[j].name in boundary {
      assert IdentityNames(bundle.identity.packages)[j] == bundle.identity.packages[j].name;
    }
  }

  // ----- The tarballs ------------------------------------------------------------------------------------

  lemma {:induction false} EntryOfPackage(bundle: Bundle, boundary: set<string>, entry: PackageEntry)
    requires Enumerates(PackageNames(bundle.packages), boundary) && entry in bundle.packages
    ensures FindPackage(bundle.packages, entry.name) == Some(entry)
  {
    EnumeratesMeansDistinct(PackageNames(bundle.packages), boundary);
    var i :| 0 <= i < |bundle.packages| && bundle.packages[i] == entry;
    assert PackageNames(bundle.packages)[i] == entry.name;
    FoundPackage(bundle.packages, entry.name);
    var found := FindPackage(bundle.packages, entry.name).value;
    var j :| 0 <= j < |bundle.packages| && bundle.packages[j] == found;
    assert PackageNames(bundle.packages)[j] == found.name;
  }

  /** Every boundary package has one tarball, and its file holds what the package's entry records. */
  lemma {:induction false} AcceptedTarball(
      tools: Tools, boundary: set<string>, plan: ReleaseWaves.Plan, bundle: Bundle, site: Site,
      item: Tarball, entry: PackageEntry)
    requires Accepts(tools, boundary, plan, bundle, site)
    requires item in bundle.tarballs && entry in bundle.packages && entry.name == item.package
    ensures item.version == bundle.version && site.Tarballs().Some? && item.name in site.Tarballs().value.files
    ensures var content := site.Tarballs().value.files[item.name];
      && |content| == item.size && "sha256:" + tools.hash(content) == item.sha256
      && tools.unpack(content).Some?
      && var json := tools.unpack(content).value;
      && var release := Member(Lookup(json, "scramjet"), "release");
      && Lookup(json, "name") == Some(String(entry.name)) && Lookup(json, "version") == Some(String(bundle.version))
      && Member(release, "identityDigest") == Some(String(bundle.identityDigest))
      && Member(release, "packageChecksum") == Some(String(entry.packageChecksum))
      && "sha256:" + tools.hash(Canonical(Object(WithoutChecksum(json)))) == entry.packageChecksum
  {
    hide HeaderHolds, SumsHold, EntryHolds;
    assert PackagesHold(boundary, bundle) && TarballsHold(tools, boundary, bundle, site.Tarballs().value);
    EntryOfPackage(bundle, boundary, entry);
    assert TarballHolds(tools, bundle, site.Tarballs().value, item);
  }

  lemma {:induction false} AcceptedTarballList(
      tools: Tools, boundary: set<string>, plan: ReleaseWaves.Plan, bundle: Bundle, site: Site)
    requires Accepts(tools, boundary, plan, bundle, site)
    ensures |bundle.tarballs| == |boundary|
    ensures forall i :: 0 <= i < |bundle.tarballs| ==> bundle.tarballs[i].package in boundary
    ensures forall i, j :: 0 <= i < j < |bundle.tarballs| ==>
      bundle.tarballs[i].package != bundle.tarballs[j].package && bundle.tarballs[i].name != bundle.tarballs[j].name
  {
    hide HeaderHolds, SumsHold, PackagesHold, TarballHolds;
    var packages, names := TarballPackages(bundle.tarballs), AssetNames(bundle.tarballs);
    assert TarballsHold(tools, boundary, bundle, site.Tarballs().value);
    EnumeratesMeansDistinct(packages, boundary);
    EnumeratedLength(packages, boundary);
    forall i | 0 <= i < |bundle.tarballs| ensures bundle.tarballs[i].package in boundary {
      assert packages[i] in ToSet(packages);
    }
    forall i, j | 0 <= i < j < |bundle.tarballs|
      ensures bundle.tarballs[i].package != bundle.tarballs[j].package
      ensures bundle.tarballs[i].name != bundle.tarballs[j].name
    {
      assert packages[i] != packages[j] && names[i] != names[j];
    }
  }

  // ----- The files and the sums ------------------------------------------------------------------------------

  /** What an accepted bundle says about the names in the directories. */
  ghost predicate ListsAssets(bundle: Bundle, site: Site) {
    && site.Tarballs().Some?
    && ToSet(site.root.listing)
       == (if site.elsewhere.Some? then {"manifest.json", "SHA256SUMS"}
           else {"manifest.json", "SHA256SUMS", "tarballs"})
    && site.Tarballs().value.files.Keys == ToSet(AssetNames(bundle.tarballs))
    && (site.assets.Some? ==>
          Distinct(site.assets.value)
          && ToSet(site.assets.value) == {"manifest.json", "SHA256SUMS"} + ToSet(AssetNames(bundle.tarballs)))
    && forall i :: 0 <= i < |bundle.tarballs| ==> var name := bundle.tarballs[i].name;
         name != "" && '/' !in name && !HasDotDot(name) && name != "manifest.json" && name != "SHA256SUMS"
  }

  lemma {:induction false} TarballFilesAreThere(
      tools: Tools, boundary: set<string>, plan: ReleaseWaves.Plan, bundle: Bundle, site: Site)
    requires Accepts(tools, boundary, plan, bundle, site)
    ensures site.Tarballs().Some? && AssetsHold(bundle, site) && Distinct(AssetNames(bundle.tarballs))
    ensures forall item :: item in bundle.tarballs ==>
      item.name in site.Tarballs().value.files
      && "sha256:" + tools.hash(site.Tarballs().value.files[item.name]) == item.sha256
  {
    hide HeaderHolds, SumsHold, PackagesHold;
    assert TarballsHold(tools, boundary, bundle, site.Tarballs().value);
  }

  /** The bundle directory, the tarball directory and a published list hold the recorded assets and nothing else. */
  lemma {:induction false} AcceptedAssets(
      tools: Tools, boundary: set<string>, plan: ReleaseWaves.Plan, bundle: Bundle, site: Site)
    requires site.Valid() && Accepts(tools, boundary, plan, bundle, site)
    ensures ListsAssets(bundle, site)
  {
    hide Accepts;
    TarballFilesAreThere(tools, boundary, plan, bundle, site);
    AcceptedFiles(tools, bundle, site);
    ListedAssets(bundle, site);
  }

  lemma {:induction false} ListedAssets(bundle: Bundle, site: Site)
    requires site.Valid() && AssetsHold(bundle, site) && Distinct(AssetNames(bundle.tarballs))
    requires site.Tarballs().value.files.Keys == ToSet(AssetNames(bundle.tarballs))
    ensures ListsAssets(bundle, site)
  {
    var dir, names := site.Tarballs().value, AssetNames(bundle.tarballs);
    var local := FIXED_ASSETS + dir.listing;
    assert ToSet(FIXED_ASSETS) == {"manifest.json", "SHA256SUMS"};
    EnumeratesMeansDistinct(site.root.listing, ToSet(FIXED_ASSETS) + if site.elsewhere.Some? then {} else {"tarballs"});
    EnumeratesMeansDistinct(local, ExpectedAssets(bundle));
    EnumeratesMeansDistinct(dir.listing, dir.files.Keys);
    if site.assets.Some? {
      EnumeratesMeansDistinct(site.assets.value, ExpectedAssets(bundle));
    }
    forall i | 0 <= i < |bundle.tarballs|
      ensures var name := bundle.tarballs[i].name;
        name != "" && '/' !in name && !HasDotDot(name) && name != "manifest.json" && name != "SHA256SUMS"
    {
      assert names[i] in ToSet(names) && IsFlatAsset(names[i]) && names[i] in ToSet(dir.listing);
      var k :| 0 <= k < |dir.listing| && dir.listing[k] == names[i];
      assert local[0] != local[k + 2] && local[1] != local[k + 2];
    }
  }

  /** The sums file has a line with the digest of the stored file for each tarball and the manifest, and no more. */
  lemma {:induction false} AcceptedSums(
      tools: Tools, boundary: set<string>, plan: ReleaseWaves.Plan, bundle: Bundle, site: Site)
    requires Accepts(tools, boundary, plan, bundle, site)
    ensures site.root.Read("SHA256SUMS").Some? && ParseSums(site.root.Read("SHA256SUMS").value).Some?
    ensures site.root.Read("manifest.json").Some? && site.Tarballs().Some?
    ensures var lines := ParseSums(site.root.Read("SHA256SUMS").value).value;
      && |lines| == |bundle.tarballs| + 1
      && Sum(tools.hash(site.root.Read("manifest.json").value), "manifest.json") in lines
      && forall item :: item in bundle.tarballs ==>
           item.name in site.Tarballs().value.files
           && Sum(tools.hash(site.Tarballs().value.files[item.name]), item.name) in lines
  {
    hide HeaderHolds, AssetsHold, PackagesHold, TarballsHold;
    TarballFilesAreThere(tools, boundary, plan, bundle, site);
    var lines := ParseSums(site.root.Read("SHA256SUMS").value).value;
    var manifest, sums := site.root.Read("manifest.json").value, TarballSums(bundle.tarballs);
    var expected := [Sum(tools.hash(manifest), "manifest.json")] + sums;
    assert expected == ExpectedSums(tools.hash, bundle.tarballs, manifest);
    SameLines(lines, expected);
    assert expected[0] in expected;
    forall item | item in bundle.tarballs
      ensures Sum(tools.hash(site.Tarballs().value.files[item.name]), item.name) in lines
    {
      var i :| 0 <= i < |bundle.tarballs| && bundle.tarballs[i] == item;
      assert expected[i + 1] == sums[i] && expected[i + 1] in expected;
      assert item.sha256[7..] == tools.hash(site.Tarballs().value.files[item.name]);
    }
  }

  lemma {:induction false} SameLines(a: seq<Sum>, b: seq<Sum>)
    requires multiset(a) == multiset(b)
    ensures |a| == |b| && forall x :: x in a <==> x in b
  {
    assert |multiset(a)| == |multiset(b)|;
    forall x ensures x in a <==> x in b {
      assert x in multiset(a) <==> x in multiset(b);
    }
  }

  // ----- Nothing is altered unnoticed ----------------------------------------------------------------------------

  /** The file recorded for a tarball of a bundle on a site holds this package.json. */
  predicate Packs(tools: Tools, site: Site, item: Tarball, json: seq<Field>) {
    && site.Tarballs().Some? && item.name in site.Tarballs().value.files
    && tools.unpack(site.Tarballs().value.files[item.name]) == Some(json)
  }

  /** Both package.json files are the same in everything but the checksum recorded in them. */
  ghost predicate SameManifest(p: seq<Field>, q: seq<Field>) {
    Same(Object(WithoutChecksum(p)), Object(WithoutChecksum(q)))
  }

  /**
   Whenever two accepted bundles, anywhere, record the same checksum for a package, the package.json files in the two
   tarballs agree in everything but the recorded checksum, or the two texts collide.
   */
  lemma {:induction false} PackedManifestsAgree(
      tools: Tools,
      boundary: set<string>, plan: ReleaseWaves.Plan, a: Bundle, site: Site, item: Tarball, entry: PackageEntry,
      otherBoundary: set<string>, otherPlan: ReleaseWaves.Plan, b: Bundle, other: Site, otherItem: Tarball,
      otherEntry: PackageEntry, p: seq<Field>, q: seq<Field>)
    requires Accepts(tools, boundary, plan, a, site) && Accepts(tools, otherBoundary, otherPlan, b, other)
    requires item in a.tarballs && entry in a.packages && entry.name == item.package
    requires otherItem in b.tarballs && otherEntry in b.packages && otherEntry.name == otherItem.package
    requires entry.packageChecksum == otherEntry.packageChecksum
    requires Packs(tools, site, item, p) && Packs(tools, other, otherItem, q)
    requires WellFormed(Object(WithoutChecksum(p))) && WellFormed(Object(WithoutChecksum(q)))
    ensures SameManifest(p, q) <==> !Collide(tools.hash, PackageText(p), PackageText(q))
    ensures Lookup(p, "name") == Some(String(entry.name)) && Lookup(q, "name") == Some(String(otherEntry.name))
  {
    hide Accepts;
    AcceptedTarball(tools, boundary, plan, a, site, item, entry);
    AcceptedTarball(tools, otherBoundary, otherPlan, b, other, otherItem, otherEntry);
    ChecksumCoversTheRest(tools.hash, p, q);
    CanonicalTextIdentifiesValue(Object(WithoutChecksum(p)), Object(WithoutChecksum(q)));
  }

  /** The bundle with one tarball recorded anew for another content, and its outer checksum taken again. */
  function Rerecorded(hash: Hasher, bundle: Bundle, k: nat, content: string): Bundle
    requires k < |bundle.tarballs|
  {
    var item := bundle.tarballs[k].(size := |content|, sha256 := Sha256(hash, content));
    var changed := bundle.(tarballs := bundle.tarballs[k := item]);
    changed.(outerChecksum := BundleChecksum(hash, changed))
  }

  /**
   An accepted bundle that is recorded anew around a tarball with an altered package.json is refused on every site that
   stores that tarball, whatever the sums file says, unless the two texts collide.
   */
  lemma {:induction false} AlteredManifestIsRefused(
      tools: Tools, boundary: set<string>, plan: ReleaseWaves.Plan, bundle: Bundle, site: Site, k: nat,
      content: string, other: Site, p: seq<Field>, q: seq<Field>)
    requires Accepts(tools, boundary, plan, bundle, site) && k < |bundle.tarballs|
    requires Packs(tools, site, bundle.tarballs[k], p) && tools.unpack(content) == Some(q)
    requires WellFormed(Object(WithoutChecksum(p))) && WellFormed(Object(WithoutChecksum(q)))
    requires !SameManifest(p, q) && !Collide(tools.hash, PackageText(p), PackageText(q))
    requires other.Tarballs().Some? && bundle.tarballs[k].name in other.Tarballs().value.files
    requires other.Tarballs().value.files[bundle.tarballs[k].name] == content
    ensures !Accepts(tools, boundary, plan, Rerecorded(tools.hash, bundle, k, content), other)
  {
    hide Accepts;
    var altered, item := Rerecorded(tools.hash, bundle, k, content), bundle.tarballs[k];
    if Accepts(tools, boundary, plan, altered, other) {
      var entry := EntryOfTarball(tools, boundary, plan, bundle, site, item);
      assert altered.tarballs[k].name == item.name && altered.tarballs[k] in altered.tarballs;
      PackedManifestsAgree(tools, boundary, plan, bundle, site, item, entry,
        boundary, plan, altered, other, altered.tarballs[k], entry, p, q);
    }
  }

  lemma {:induction false} EachTarballHolds(
      tools: Tools, boundary: set<string>, plan: ReleaseWaves.Plan, bundle: Bundle, site: Site, item: Tarball)
    requires Accepts(tools, boundary, plan, bundle, site) && item in bundle.tarballs
    ensures site.Tarballs().Some? && TarballHolds(tools, bundle, site.Tarballs().value, item)
  {
    hide HeaderHolds, SumsHold, PackagesHold, TarballHolds;
    assert TarballsHold(tools, boundary, bundle, site.Tarballs().value);
  }

  lemma {:induction false} EntryOfTarball(
      tools: Tools, boundary: set<string>, plan: ReleaseWaves.Plan, bundle: Bundle, site: Site, item: Tarball)
      returns (entry: PackageEntry)
    requires Accepts(tools, boundary, plan, bundle, site) && item in bundle.tarballs
    ensures entry in bundle.packages && entry.name == item.package
  {
    hide Accepts;
    EachTarballHolds(tools, boundary, plan, bundle, site, item);
    FoundPackage(bundle.packages, item.package);
    entry := FindPackage(bundle.packages, item.package).value;
  }
}
