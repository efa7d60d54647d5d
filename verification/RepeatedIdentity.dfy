/**
 Release bundles that the verifier of scripts/release-main.js accepts although the identity in them lists
 a package twice: the identity list is read into a Map, and nothing compares its length.
 */
module RepeatedIdentity {
  import opened Common
  import opened CanonicalJson
  import opened ReleaseDocument
  import opened ReleaseText
  import opened VerifyBundle
  import opened BuildThenVerify
  import ReleaseWaves

  /** A release of one package: name, version, candidate, source digest, the tarball's name and manifest.json. */
  datatype Parts = Parts(name: string, version: string, head: string, source: string, asset: string, manifest: string)

  predicate Fit(p: Parts) {
    && p.version != "" && IsSha(p.head)
    && IsFlatAsset(p.asset) && p.asset != "manifest.json" && p.asset != "SHA256SUMS"
  }

  function PlanOf(p: Parts): ReleaseWaves.Plan {
    [[p.name]]
  }

  /** The identity of the release, with its package listed twice. */
  function Doubled(p: Parts): Identity {
    Identity(
      IDENTITY_SCHEMA, SOURCE_REPOSITORY, p.head, "", "",
      [IdentityPackage(p.name, p.source, p.version), IdentityPackage(p.name, p.source, p.version)], [Wave(1, [p.name])])
  }

  /** The digests a bundle records: of the identity, of the package, of the tarball and of itself. */
  datatype Digests = Digests(identity: string, package: string, tarball: string, outer: string)

  function BundleWith(p: Parts, d: Digests): Bundle {
    Bundle(
      FORMAT, p.version, "v" + p.version, "release/" + p.version, p.head, p.head,
      DEFAULT_REPOSITORY, "", "", SOURCE_REPOSITORY, p.head,
      Doubled(p), d.identity, [PackageEntry(p.name, p.version, p.source, d.package, d.package, "package.json")],
      [Wave(1, [p.name])], [Tarball(p.name, p.version, d.package, p.asset, 0, d.tarball)], d.outer)
  }

  /** The package.json inside the only tarball, annotated with the identity's digest. */
  function Packaged(hash: Hasher, p: Parts, identity: string): seq<Field> {
    Annotated(hash, Set([Field("name", String(p.name))], "version", String(p.version)), p.version, identity, p.source)
  }

  function TarballDir(p: Parts): Directory {
    Directory([p.asset], map[p.asset := ""])
  }

  function SiteWith(p: Parts, sums: string): Site {
    Site(Root(["manifest.json", "SHA256SUMS", "tarballs"],
              map["manifest.json" := File(p.manifest), "SHA256SUMS" := File(sums),
                "tarballs" := Folder(TarballDir(p))]),
         None, None)
  }

  lemma {:induction false} OneName(names: seq<string>, name: string)
    requires names == [name]
    ensures Enumerates(names, {name})
  {
    EnumeratesMeansDistinct(names, {name});
  }

  lemma {:induction false} OneWave(p: Parts)
    ensures ReleaseWaves.Partitions(PlanOf(p), {p.name})
    ensures WavePackages([Wave(1, [p.name])]) == PlanOf(p)
  {
    var plan := PlanOf(p);
    assert plan[1..] == [] && ReleaseWaves.Flatten(plan) == [p.name] + ReleaseWaves.Flatten([]);
    OneName(ReleaseWaves.Flatten(plan), p.name);
  }

  lemma {:induction false} HeaderPasses(hash: Hasher, p: Parts, d: Digests)
    requires Fit(p) && d.identity == IdentityDigest(hash, Doubled(p))
    requires d.outer == BundleChecksum(hash, BundleWith(p, d))
    ensures HeaderHolds(hash, {p.name}, PlanOf(p), BundleWith(p, d))
  {
    OneWave(p);
  }

  lemma {:induction false} DoubledNames(p: Parts)
    ensures IdentityNames(Doubled(p).packages) == [p.name, p.name]
  {
  }

  lemma {:induction false} PackagesPass(p: Parts, d: Digests)
    requires IsDigest(d.package)
    ensures PackagesHold({p.name}, BundleWith(p, d))
  {
    var bundle := BundleWith(p, d);
    DoubledNames(p);
    assert PackageNames(bundle.packages) == [p.name];
    OneName(PackageNames(bundle.packages), p.name);
  }

  lemma {:induction false} RootEntries()
    ensures Enumerates(["manifest.json", "SHA256SUMS", "tarballs"], {"manifest.json", "SHA256SUMS", "tarballs"})
  {
    RequiredEntries();
    EnumeratesMeansDistinct(["manifest.json", "SHA256SUMS", "tarballs"], {"manifest.json", "SHA256SUMS", "tarballs"});
  }

  lemma {:induction false} RootIsListed(p: Parts, sums: string)
    ensures Enumerates(SiteWith(p, sums).root.listing, ToSet(FIXED_ASSETS) + {"tarballs"})
  {
    RootEntries();
    RequiredEntries();
  }

  lemma {:induction false} SiteIsValid(p: Parts, sums: string)
    ensures SiteWith(p, sums).Valid()
  {
    RootEntries();
    assert SiteWith(p, sums).root.nodes.Keys == {"manifest.json", "SHA256SUMS", "tarballs"};
    assert TarballDir(p).files.Keys == {p.asset};
    OneName([p.asset], p.asset);
  }

  lemma {:induction false} OneAsset(tarballs: seq<Tarball>)
    requires |tarballs| == 1
    ensures AssetNames(tarballs) == [tarballs[0].name] && ToSet(AssetNames(tarballs)) == {tarballs[0].name}
  {
  }

  lemma {:induction false} AssetsListed(asset: string, expected: set<string>)
    requires asset != "manifest.json" && asset != "SHA256SUMS" && expected == ToSet(FIXED_ASSETS) + {asset}
    ensures Enumerates(FIXED_ASSETS + [asset], expected)
  {
    OneName([asset], asset);
    LocalListing([asset], expected, {asset});
  }

  lemma {:induction false} AssetsAreFlat(asset: string, expected: set<string>)
    requires IsFlatAsset(asset) && expected == ToSet(FIXED_ASSETS) + {asset}
    ensures forall name :: name in expected ==> IsFlatAsset(name)
  {
    FixedAssetsAreFlat();
    forall name | name in expected
      ensures name == asset || name == "manifest.json" || name == "SHA256SUMS"
    {
    }
  }

  /** A site without extra entries passes for a bundle with one tarball that it holds. */
  lemma {:induction false} OneAssetPasses(bundle: Bundle, site: Site, asset: string)
    requires site.elsewhere.None? && site.assets.None? && site.Tarballs().Some?
      && site.Tarballs().value.listing == [asset]
    requires Enumerates(site.root.listing, ToSet(FIXED_ASSETS) + {"tarballs"})
    requires |bundle.tarballs| == 1 && bundle.tarballs[0].name == asset
    requires IsFlatAsset(asset) && asset != "manifest.json" && asset != "SHA256SUMS"
    ensures AssetsHold(bundle, site)
  {
    OneAsset(bundle.tarballs);
    AssetsListed(asset, ExpectedAssets(bundle));
    AssetsAreFlat(asset, ExpectedAssets(bundle));
  }

  lemma {:induction false} AssetsPass(p: Parts, bundle: Bundle, sums: string)
    requires Fit(p) && |bundle.tarballs| == 1 && bundle.tarballs[0].name == p.asset
    ensures AssetsHold(bundle, SiteWith(p, sums))
  {
    RootIsListed(p, sums);
    OneAssetPasses(bundle, SiteWith(p, sums), p.asset);
  }

  lemma {:induction false} TarballPasses(tools: Tools, p: Parts, d: Digests, json: seq<Field>)
    requires Fit(p) && tools.unpack("") == Some(json)
    requires Lookup(json, "name") == Some(String(p.name)) && Lookup(json, "version") == Some(String(p.version))
    requires var release := Member(Lookup(json, "scramjet"), "release");
      && Member(release, "identityDigest") == Some(String(d.identity))
      && Member(release, "packageChecksum") == Some(String(d.package))
    requires PackageChecksum(tools.hash, json) == d.package && Sha256(tools.hash, "") == d.tarball
    ensures TarballsHold(tools, {p.name}, BundleWith(p, d), TarballDir(p))
  {
    var bundle := BundleWith(p, d);
    assert TarballPackages(bundle.tarballs) == [p.name] && AssetNames(bundle.tarballs) == [p.asset];
    OneName(TarballPackages(bundle.tarballs), p.name);
    FlatIsSafe(p.asset);
    assert FindPackage(bundle.packages, p.name) == Some(bundle.packages[0]);
    assert TarballHolds(tools, bundle, TarballDir(p), bundle.tarballs[0]);
  }

  lemma {:induction false} FlatIsSafe(name: string)
    requires IsFlatAsset(name)
    ensures IsSafeAsset(name)
  {
    assert name[0] in name;
  }

  lemma {:induction false} SumsPass(tools: Tools, p: Parts, bundle: Bundle, sums: string)
    requires Fit(p) && |bundle.tarballs| == 1 && bundle.tarballs[0].name == p.asset
    requires bundle.tarballs[0].sha256 == Sha256(tools.hash, "")
    requires sums == PrintSums([Sum(tools.hash(""), p.asset)], Sum(tools.hash(p.manifest), "manifest.json"))
    ensures SumsHold(tools, bundle, SiteWith(p, sums).root)
  {
    assert Sha256(tools.hash, "")[7..] == tools.hash("");
    assert TarballSums(bundle.tarballs) == [Sum(tools.hash(""), p.asset)];
    PrintedSumsHold(tools, bundle, SiteWith(p, sums).root, p.manifest);
  }

  /** The digests of the doubled release, each over what it covers. */
  function DigestsOf(hash: Hasher, p: Parts): Digests {
    var identity := IdentityDigest(hash, Doubled(p));
    var unsigned := Digests(identity, PackageChecksum(hash, Packaged(hash, p, identity)), Sha256(hash, ""), "");
    unsigned.(outer := BundleChecksum(hash, BundleWith(p, unsigned)))
  }

  lemma {:induction false} OuterIsChecksum(hash: Hasher, p: Parts, d: Digests, outer: string)
    requires outer == BundleChecksum(hash, BundleWith(p, d))
    ensures BundleChecksum(hash, BundleWith(p, d.(outer := outer))) == outer
  {
    OuterChecksumIgnoresItself(hash, BundleWith(p, d), outer);
    assert BundleWith(p, d).(outerChecksum := outer) == BundleWith(p, d.(outer := outer));
  }

  function SumsOf(hash: Hasher, p: Parts): string {
    PrintSums([Sum(hash(""), p.asset)], Sum(hash(p.manifest), "manifest.json"))
  }

  function ToolsFor(hash: Hasher, json: seq<Field>): Tools {
    Tools(hash, content => Some(json))
  }

  /** The package.json in the tarball reads as the verifier expects it. */
  lemma {:induction false} PackagedReads(hash: Hasher, p: Parts, identity: string)
    ensures var json := Packaged(hash, p, identity);
      var release := Member(Lookup(json, "scramjet"), "release");
      && Lookup(json, "name") == Some(String(p.name)) && Lookup(json, "version") == Some(String(p.version))
      && Member(release, "identityDigest") == Some(String(identity))
      && Member(release, "packageChecksum") == Some(String(PackageChecksum(hash, json)))
  {
    AnnotatedReads(hash, [Field("name", String(p.name))], p.version, identity, p.source);
    assert Lookup([Field("name", String(p.name))], "name") == Some(String(p.name));
  }

  lemma {:induction false} HeaderAndPackages(hash: Hasher, p: Parts, d: Digests)
    requires Fit(p) && d == DigestsOf(hash, p)
    ensures HeaderHolds(hash, {p.name}, PlanOf(p), BundleWith(p, d)) && PackagesHold({p.name}, BundleWith(p, d))
  {
    OuterIsChecksum(hash, p, d.(outer := ""), d.outer);
    PrintedDigestIsDigest(hash, Canonical(Object(WithoutChecksum(Packaged(hash, p, d.identity)))));
    HeaderPasses(hash, p, d);
    PackagesPass(p, d);
  }

  lemma {:induction false} TarballPassesFor(hash: Hasher, p: Parts, d: Digests)
    requires Fit(p) && d == DigestsOf(hash, p)
    ensures TarballsHold(ToolsFor(hash, Packaged(hash, p, d.identity)), {p.name}, BundleWith(p, d), TarballDir(p))
  {
    var json := Packaged(hash, p, d.identity);
    PackagedReads(hash, p, d.identity);
    TarballPasses(ToolsFor(hash, json), p, d, json);
  }

  /** The verifier's verdict on a bundle, put together from its parts. */
  lemma {:induction false} Together(
      tools: Tools, boundary: set<string>, plan: ReleaseWaves.Plan, bundle: Bundle, site: Site, dir: Directory)
    requires HeaderHolds(tools.hash, boundary, plan, bundle) && PackagesHold(boundary, bundle)
    requires AssetsHold(bundle, site) && SumsHold(tools, bundle, site.root)
    requires site.Tarballs() == Some(dir) && TarballsHold(tools, boundary, bundle, dir)
    ensures Accepts(tools, boundary, plan, bundle, site)
  {
  }

  lemma {:induction false} SiteOf(tools: Tools, p: Parts, bundle: Bundle) returns (site: Site)
    requires Fit(p) && |bundle.tarballs| == 1 && bundle.tarballs[0].name == p.asset
    requires bundle.tarballs[0].sha256 == Sha256(tools.hash, "")
    ensures site.Valid() && site.Tarballs() == Some(TarballDir(p))
    ensures AssetsHold(bundle, site) && SumsHold(tools, bundle, site.root)
  {
    var sums := SumsOf(tools.hash, p);
    site := SiteWith(p, sums);
    SiteIsValid(p, sums);
    AssetsPass(p, bundle, sums);
    SumsPass(tools, p, bundle, sums);
  }

  lemma {:induction false} BundleOf(hash: Hasher, p: Parts) returns (tools: Tools, bundle: Bundle)
    requires Fit(p)
    ensures tools.hash == hash && bundle.identity == Doubled(p)
    ensures |bundle.tarballs| == 1 && bundle.tarballs[0].name == p.asset
      && bundle.tarballs[0].sha256 == Sha256(hash, "")
    ensures HeaderHolds(hash, {p.name}, PlanOf(p), bundle) && PackagesHold({p.name}, bundle)
    ensures TarballsHold(tools, {p.name}, bundle, TarballDir(p))
  {
    var d := DigestsOf(hash, p);
    bundle, tools := BundleWith(p, d), ToolsFor(hash, Packaged(hash, p, d.identity));
    HeaderAndPackages(hash, p, d);
    TarballPassesFor(hash, p, d);
  }

  /** For any parts the verifier accepts a bundle whose identity lists the only package twice. */
  lemma {:induction false} RepeatedIdentityIsAccepted(hash: Hasher, p: Parts)
      returns (tools: Tools, bundle: Bundle, site: Site)
    requires Fit(p)
    ensures tools.hash == hash && site.Valid() && Accepts(tools, {p.name}, PlanOf(p), bundle, site)
    ensures IdentityNames(bundle.identity.packages) == [p.name, p.name]
  {
    tools, bundle := BundleOf(hash, p);
    DoubledNames(p);
    site := SiteOf(tools, p, bundle);
    Together(tools, {p.name}, PlanOf(p), bundle, site, TarballDir(p));
  }

  /** There are such parts. */
  lemma {:induction false} SomePartsFit()
    ensures exists p: Parts :: Fit(p)
  {
    var p := Parts("a", "1.0.0", seq(40, _ => 'a'), "s", "a.tgz", "");
    assert Lower(p.head) == p.head;
    assert p.asset[0] != "manifest.json"[0] && p.asset[0] != "SHA256SUMS"[0];
    assert Fit(p);
  }
}
