/**
 The bundle builder of scripts/release-main.js: collecting the built packages, annotating each
 package.json in place, packing them wave by wave and writing manifest.json and SHA256SUMS.
 */
module CreateBundle {
  import opened Common
  import opened CanonicalJson
  import opened ReleaseDocument
  import opened ReleaseText
  import opened VerifyBundle
  import ReleaseWaves

  /** A package.json found under the packages directory: its path, its text and its parsed form. */
  datatype PackageFile = PackageFile(path: string, source: string, json: seq<Field>)

  datatype Manifest = Manifest(json: seq<Field>, path: string, sourceChecksum: string)

  datatype Packed = Packed(name: string, content: string)

  /** `npm pack` in the directory of a package.json, and JSON.stringify with indentation. */
  datatype Packer = Packer(pack: (string, seq<Field>) -> Packed, render: Json -> string)

  /** What packing stores is what unpacking reads. */
  ghost predicate Faithful(tools: Tools, packer: Packer) {
    forall path, json :: tools.unpack(packer.pack(path, json).content) == Some(json)
  }

  /**
   What the builder computes with SHA-256: digests of texts, the annotated package.json and its
   checksum, the digest of the release identity and the outer checksum of the bundle manifest.
   Keeping them as functions lets the builder be read without the printer beneath them.
   */
  datatype Checksums = Checksums(
    hash: Hasher,
    annotate: (seq<Field>, string, string, string) -> seq<Field>,
    package: seq<Field> -> string,
    identity: Identity -> string,
    bundle: Bundle -> string)

  function Sha256Checksums(hash: Hasher): Checksums {
    Checksums(
      hash,
      (json, version, digest, sourceChecksum) => Annotated(hash, json, version, digest, sourceChecksum),
      json => PackageChecksum(hash, json),
      id => IdentityDigest(hash, id),
      bundle => BundleChecksum(hash, bundle))
  }

  datatype Request = Request(
    version: string, tag: string, branch: string, head: string, tree: string, sourceSha: string,
    node: string, npm: string, repository: string)

  /** What the builder leaves in the output directory besides entries that were already there. */
  datatype Output = Output(manifest: string, sums: string, tarballs: map<string, string>)

  datatype Built = Built(bundle: Bundle, output: Output, disk: map<string, seq<Field>>)

  // ----- Collecting the built packages -------------------------------------------------------

  /** `!value` in JavaScript. */
  predicate Falsy(value: Option<Json>) {
    match value
    case None => true
    case Some(Null) => true
    case Some(Bool(flag)) => !flag
    case Some(String(chars)) => chars == ""
    case Some(Number(text)) => text == "0"
    case _ => false
  }

  /** Package files without a name, or marked private, are not released. */
  predicate IsSkipped(file: PackageFile) {
    Falsy(Lookup(file.json, "name")) || Lookup(file.json, "private") == Some(Bool(true))
  }

  function Candidates(files: seq<PackageFile>): seq<PackageFile> {
    if files == [] then []
    else Candidates(files[..|files| - 1]) + if IsSkipped(files[|files| - 1]) then [] else [files[|files| - 1]]
  }

  predicate IsNamed(file: PackageFile) {
    var name := Lookup(file.json, "name");
    name.Some? && name.value.String?
  }

  function NameOf(file: PackageFile): string {
    if IsNamed(file) then Lookup(file.json, "name").value.chars else ""
  }

  function ManifestOf(hash: Hasher, file: PackageFile): Manifest {
    Manifest(file.json, file.path, Sha256(hash, file.source))
  }

  /** The `Map` of collected packages by name. */
  function ManifestsOf(hash: Hasher, files: seq<PackageFile>): map<string, Manifest> {
    if files == [] then map[]
    else
      var last := files[|files| - 1];
      ManifestsOf(hash, files[..|files| - 1])[NameOf(last) := ManifestOf(hash, last)]
  }

  lemma {:induction false} ManifestsByName(hash: Hasher, files: seq<PackageFile>)
    ensures ManifestsOf(hash, files).Keys == ToSet(Named(files))
    ensures forall name :: name in ManifestsOf(hash, files) ==>
      exists file :: file in files && NameOf(file) == name && ManifestsOf(hash, files)[name] == ManifestOf(hash, file)
  {
    if files != [] {
      var front, last := files[..|files| - 1], files[|files| - 1];
      ManifestsByName(hash, front);
    }
  }

  function Named(files: seq<PackageFile>): (r: seq<string>)
    ensures |r| == |files|
  {
    if files == [] then [] else Named(files[..|files| - 1]) + [NameOf(files[|files| - 1])]
  }

  lemma {:induction false} NamedAt(files: seq<PackageFile>, i: nat)
    requires i < |files|
    ensures Named(files)[i] == NameOf(files[i])
    ensures Named(files[..i]) == Named(files)[..i]
  {
    if i < |files| - 1 {
      NamedAt(files[..|files| - 1], i);
      assert files[..|files| - 1][..i] == files[..i];
    }
  }

  /** The files offer the release boundary: each package once, nothing else. */
  ghost predicate Offers(files: seq<PackageFile>, boundary: set<string>) {
    && (forall file :: file in Candidates(files) ==> IsNamed(file))
    && Enumerates(Named(Candidates(files)), boundary)
  }

  lemma {:induction false} CandidatesStep(files: seq<PackageFile>, i: nat)
    requires i < |files|
    ensures Candidates(files[..i + 1]) == Candidates(files[..i]) + if IsSkipped(files[i]) then [] else [files[i]]
    ensures Candidates(files[..i + 1]) <= Candidates(files)
    decreases |files| - i
  {
    assert files[..i + 1][..i] == files[..i];
    if i + 1 < |files| {
      CandidatesStep(files, i + 1);
      assert files[..i + 2][..i + 1] == files[..i + 1];
    } else {
      assert files[..i + 1] == files;
    }
  }

  /** The state of the collecting loop after the given candidates. */
  ghost predicate Collected(
      hash: Hasher, boundary: set<string>, candidates: seq<PackageFile>, manifests: map<string, Manifest>)
  {
    && manifests == ManifestsOf(hash, candidates)
    && manifests.Keys == ToSet(Named(candidates)) && manifests.Keys <= boundary
    && Distinct(Named(candidates))
    && forall file :: file in candidates ==> IsNamed(file)
  }

  lemma {:induction false} CollectOneMore(
      hash: Hasher, boundary: set<string>, candidates: seq<PackageFile>, manifests: map<string, Manifest>,
      file: PackageFile)
    requires Collected(hash, boundary, candidates, manifests)
    requires IsNamed(file) && NameOf(file) in boundary && NameOf(file) !in manifests
    ensures Collected(hash, boundary, candidates + [file], manifests[NameOf(file) := ManifestOf(hash, file)])
  {
    var more := candidates + [file];
    assert more[..|more| - 1] == candidates;
    assert Named(more) == Named(candidates) + [NameOf(file)];
  }

  method ReleasePackages(hash: Hasher, files: seq<PackageFile>, boundary: set<string>)
      returns (r: Option<(seq<PackageFile>, map<string, Manifest>)>)
    ensures r.Some? <==> Offers(files, boundary)
    ensures r.Some? ==> r.value.0 == Candidates(files) && r.value.1 == ManifestsOf(hash, Candidates(files))
  {
    var candidates: seq<PackageFile> := [];
    var manifests: map<string, Manifest> := map[];
    for i := 0 to |files|
      invariant candidates == Candidates(files[..i])
      invariant Collected(hash, boundary, candidates, manifests)
    {
      var file := files[i];
      CandidatesStep(files, i);
      if !IsSkipped(file) {
        if !IsNamed(file) || NameOf(file) !in boundary || NameOf(file) in manifests {
          NotOffered(files, boundary, candidates, file);
          return None;
        }
        CollectOneMore(hash, boundary, candidates, manifests, file);
        candidates := candidates + [file];
        manifests := manifests[NameOf(file) := ManifestOf(hash, file)];
      }
    }
    assert files[..|files|] == files;
    OfferedWhenComplete(hash, files, boundary, manifests);
    if exists name :: name in boundary && name !in manifests {
      return None;
    }
    return Some((candidates, manifests));
  }

  lemma {:induction false} OfferedWhenComplete(
      hash: Hasher, files: seq<PackageFile>, boundary: set<string>, manifests: map<string, Manifest>)
    requires Collected(hash, boundary, Candidates(files), manifests)
    ensures Offers(files, boundary) <==> boundary <= manifests.Keys
  {
    EnumeratesMeansDistinct(Named(Candidates(files)), boundary);
  }

  lemma {:induction false} NotOffered(
      files: seq<PackageFile>, boundary: set<string>, collected: seq<PackageFile>, file: PackageFile)
    requires collected + [file] <= Candidates(files)
    requires !IsNamed(file) || NameOf(file) !in boundary || NameOf(file) in Named(collected)
    ensures !Offers(files, boundary)
  {
    var all, k := Candidates(files), |collected|;
    var names := Named(all);
    EnumeratesMeansDistinct(names, boundary);
    assert (collected + [file])[k] == all[k] == file && all[..k] == collected;
    NamedAt(all, k);
    assert file in all && names[k] in ToSet(names);
    if names[k] in names[..k] {
      var j :| 0 <= j < k && names[..k][j] == names[k];
    }
  }

  // ----- The release, package by package ------------------------------------------------------

  /** `manifests.get(name)`; the plan only names packages that were collected. */
  function Find(manifests: map<string, Manifest>, name: string): Manifest {
    if name in manifests then manifests[name] else Manifest([], "", "")
  }

  ghost predicate PathsApart(manifests: map<string, Manifest>) {
    forall a, b :: a in manifests && b in manifests && a != b ==> manifests[a].path != manifests[b].path
  }

  /** The collected packages, the validated plan and the request they are released under. */
  datatype Release = Release(manifests: map<string, Manifest>, plan: ReleaseWaves.Plan, request: Request) {
    function Names(): seq<string> { ReleaseWaves.Flatten(plan) }

    ghost predicate Valid() {
      (forall name :: name in Names() ==> name in manifests) && PathsApart(manifests)
    }

    function Path(name: string): string { Find(manifests, name).path }

    function Identities(names: seq<string>): seq<IdentityPackage> {
      if names == [] then []
      else
        var last := names[|names| - 1];
        Identities(names[..|names| - 1])
          + [IdentityPackage(last, Find(manifests, last).sourceChecksum, request.version)]
    }

    function IdentityDocument(): Identity {
      Identity(
        IDENTITY_SCHEMA, SOURCE_REPOSITORY, Lower(request.sourceSha), request.node, request.npm,
        Identities(Names()),
        NumberedWaves(plan))
    }

    /** The package.json written back for a package. */
    function Written(c: Checksums, digest: string, name: string): seq<Field> {
      var m := Find(manifests, name);
      c.annotate(Set(m.json, "version", String(request.version)), request.version, digest, m.sourceChecksum)
    }

    function Entry(c: Checksums, digest: string, name: string): PackageEntry {
      var m, checksum := Find(manifests, name), c.package(Written(c, digest, name));
      PackageEntry(name, request.version, m.sourceChecksum, checksum, checksum, m.path)
    }

    function Archive(c: Checksums, packer: Packer, digest: string, name: string): Packed {
      packer.pack(Path(name), Written(c, digest, name))
    }

    function Record(c: Checksums, digest: string, name: string, archive: Packed): Tarball {
      Tarball(name, request.version, c.package(Written(c, digest, name)), archive.name, |archive.content|,
        Sha256(c.hash, archive.content))
    }

    function Entries(c: Checksums, digest: string, names: seq<string>): seq<PackageEntry> {
      if names == [] then [] else Entries(c, digest, names[..|names| - 1]) + [Entry(c, digest, names[|names| - 1])]
    }

    function Records(c: Checksums, packer: Packer, digest: string, names: seq<string>): seq<Tarball> {
      if names == [] then []
      else
        var last := names[|names| - 1];
        Records(c, packer, digest, names[..|names| - 1]) + [Record(c, digest, last, Archive(c, packer, digest, last))]
    }

    /** Tarball files as they accumulate; a repeated file name overwrites. */
    function Stored(c: Checksums, packer: Packer, digest: string, names: seq<string>): map<string, string> {
      if names == [] then map[]
      else
        var last := Archive(c, packer, digest, names[|names| - 1]);
        Stored(c, packer, digest, names[..|names| - 1])[last.name := last.content]
    }

    ghost predicate NamesSafe(c: Checksums, packer: Packer, digest: string, names: seq<string>) {
      forall name :: name in names ==> IsTarballName(Archive(c, packer, digest, name).name)
    }

    function Assemble(entries: seq<PackageEntry>, tarballs: seq<Tarball>, digest: string): Bundle {
      var id := IdentityDocument();
      Bundle(
        FORMAT, request.version, request.tag, request.branch, Lower(request.head), Lower(request.tree),
        request.repository, request.node, request.npm, id.repository, id.sha, id, digest,
        entries, id.waves, tarballs, "")
    }

    function Digest(c: Checksums): string {
      c.identity(IdentityDocument())
    }

    function SignedBundle(c: Checksums, packer: Packer): Bundle {
      Sign(c, Assemble(Entries(c, Digest(c), Names()), Records(c, packer, Digest(c), Names()), Digest(c)))
    }

    function WrittenOutput(c: Checksums, packer: Packer): Output {
      OutputOf(c.hash, packer, SignedBundle(c, packer), Stored(c, packer, Digest(c), Names()))
    }
  }

  function Sign(c: Checksums, unsigned: Bundle): Bundle {
    unsigned.(outerChecksum := c.bundle(unsigned))
  }

  function OutputOf(hash: Hasher, packer: Packer, bundle: Bundle, tarballs: map<string, string>): Output {
    var text := packer.render(Object(BundleFields(bundle))) + "\n";
    Output(text, PrintSums(TarballSums(bundle.tarballs), Sum(hash(text), "manifest.json")), tarballs)
  }

  function NumberedWaves(plan: ReleaseWaves.Plan): seq<Wave> {
    seq(|plan|, i requires 0 <= i < |plan| => Wave(i + 1, plan[i]))
  }

  /** The tarball name test of the packer: a safe name ending in ".tgz". */
  predicate IsTarballName(name: string) {
    IsSafeName(name) && |name| >= 4 && name[|name| - 4..] == ".tgz"
  }

  function NeedsOf(files: seq<PackageFile>): seq<ReleaseWaves.Needs> {
    if files == [] then []
    else
      var last := files[|files| - 1];
      NeedsOf(files[..|files| - 1]) + [ReleaseWaves.Needs(
        NameOf(last), DependencyNames(last.json, "dependencies") + DependencyNames(last.json, "optionalDependencies"))]
  }

  /** `Object.keys(packageJson[section] || {})`. */
  function DependencyNames(json: seq<Field>, section: string): seq<string> {
    Keys(Spread(Lookup(json, section)))
  }

  /** The collected packages, under the wave plan and the request. */
  function ReleaseOf(hash: Hasher, plan: ReleaseWaves.Plan, files: seq<PackageFile>, request: Request): Release {
    Release(ManifestsOf(hash, Candidates(files)), plan, request)
  }

  ghost predicate Collectable(boundary: set<string>, plan: ReleaseWaves.Plan, files: seq<PackageFile>) {
    && Offers(files, boundary)
    && ReleaseWaves.Partitions(plan, boundary)
    && ReleaseWaves.DependencySafe(plan, boundary, NeedsOf(Candidates(files)))
  }

  /** Everything that must hold for the builder not to throw. */
  ghost predicate Buildable(
      c: Checksums, packer: Packer, boundary: set<string>, plan: ReleaseWaves.Plan, files: seq<PackageFile>,
      request: Request)
  {
    && request.version != "" && request.tag != "" && request.branch != ""
    && IsSha(request.sourceSha) && IsSha(request.head) && IsSha(request.tree)
    && Collectable(boundary, plan, files)
    && var release := ReleaseOf(c.hash, plan, files, request);
    && release.NamesSafe(c, packer, release.Digest(c), release.Names())
  }

  // ----- The builder --------------------------------------------------------------------------

  lemma {:induction false} OfferedNames(hash: Hasher, files: seq<PackageFile>, boundary: set<string>)
    requires Offers(files, boundary)
    ensures ManifestsOf(hash, Candidates(files)).Keys == ToSet(Named(Candidates(files))) == boundary
    ensures ReleaseWaves.Covers(NeedsOf(Candidates(files)), boundary)
  {
    ManifestsByName(hash, Candidates(files));
    EnumeratesMeansDistinct(Named(Candidates(files)), boundary);
    NeedsCover(Candidates(files), boundary);
  }

  lemma {:induction false} NeedsCover(files: seq<PackageFile>, boundary: set<string>)
    requires ToSet(Named(files)) == boundary
    ensures ReleaseWaves.Covers(NeedsOf(files), boundary)
  {
    if files != [] {
      var front, last := files[..|files| - 1], NeedsOf(files)[|NeedsOf(files)| - 1];
      NeedsCover(front, ToSet(Named(front)));
      assert NeedsOf(files) == NeedsOf(front) + [last] && last.name == NameOf(files[|files| - 1]);
      forall name | name in boundary ensures exists m :: m in NeedsOf(files) && m.name == name {
        if name in ToSet(Named(front)) {
          var m :| m in NeedsOf(front) && m.name == name;
          assert m in NeedsOf(files);
        } else {
          assert last in NeedsOf(files);
        }
      }
    }
  }

  ghost predicate OnDisk(
      disk: map<string, seq<Field>>, c: Checksums, release: Release, digest: string, names: seq<string>)
  {
    forall name :: name in names ==>
      release.Path(name) in disk && disk[release.Path(name)] == release.Written(c, digest, name)
  }

  /** Nothing was written but the package.json files of the given packages. */
  ghost predicate WritesOnly(disk: map<string, seq<Field>>, release: Release, names: seq<string>) {
    forall path :: path in disk ==> exists name :: name in names && release.Path(name) == path
  }

  /** The package.json files a release annotates are on disk, and nothing else was written. */
  ghost predicate Annotates(c: Checksums, release: Release, disk: map<string, seq<Field>>) {
    OnDisk(disk, c, release, release.Digest(c), release.Names()) && WritesOnly(disk, release, release.Names())
  }

  /** Writes each package.json in place, in plan order, and lists what was written. */
  method AnnotatePackages(c: Checksums, release: Release, digest: string)
      returns (entries: seq<PackageEntry>, disk: map<string, seq<Field>>)
    requires release.Valid()
    ensures entries == release.Entries(c, digest, release.Names())
    ensures OnDisk(disk, c, release, digest, release.Names()) && WritesOnly(disk, release, release.Names())
  {
    var names := release.Names();
    entries, disk := [], map[];
    for i := 0 to |names|
      invariant Annotating(c, release, digest, names[..i], entries, disk)
    {
      var name := names[i];
      var written := release.Written(c, digest, name);
      AnnotateOneMore(c, release, digest, i, entries, disk);
      disk := disk[release.Path(name) := written];
      entries := entries + [release.Entry(c, digest, name)];
    }
    assert names[..|names|] == names;
  }

  /** What has been listed and written after annotating the given packages. */
  ghost predicate Annotating(
      c: Checksums, release: Release, digest: string, names: seq<string>,
      entries: seq<PackageEntry>, disk: map<string, seq<Field>>)
  {
    && entries == release.Entries(c, digest, names)
    && OnDisk(disk, c, release, digest, names) && WritesOnly(disk, release, names)
  }

  lemma {:induction false} AnnotateOneMore(
      c: Checksums, release: Release, digest: string, i: nat,
      entries: seq<PackageEntry>, disk: map<string, seq<Field>>)
    requires release.Valid() && i < |release.Names()|
    requires Annotating(c, release, digest, release.Names()[..i], entries, disk)
    ensures var name := release.Names()[i];
      Annotating(c, release, digest, release.Names()[..i + 1], entries + [release.Entry(c, digest, name)],
                 disk[release.Path(name) := release.Written(c, digest, name)])
  {
    var done, name := release.Names()[..i], release.Names()[i];
    var more := release.Names()[..i + 1];
    assert more == done + [name] && more[..|more| - 1] == done && more[|more| - 1] == name;
    assert forall n :: n in more ==> n in release.Names();
    WrittenApart(disk, c, release, digest, done, name);
    WrittenHere(disk, c, release, digest, done, name);
  }

  /** Writing one package's file leaves the others as they were. */
  lemma {:induction false} WrittenApart(
      disk: map<string, seq<Field>>, c: Checksums, release: Release, digest: string, names: seq<string>, name: string)
    requires release.Valid() && OnDisk(disk, c, release, digest, names)
    requires forall n :: n in names + [name] ==> n in release.manifests
    ensures OnDisk(disk[release.Path(name) := release.Written(c, digest, name)], c, release, digest, names + [name])
  {
    forall n | n in names + [name] && n != name ensures release.Path(n) != release.Path(name) {
      assert n in release.manifests && name in names + [name];
    }
  }

  lemma {:induction false} WrittenHere(
      disk: map<string, seq<Field>>, c: Checksums, release: Release, digest: string, names: seq<string>, name: string)
    requires WritesOnly(disk, release, names)
    ensures WritesOnly(disk[release.Path(name) := release.Written(c, digest, name)], release, names + [name])
  {
    var after := disk[release.Path(name) := release.Written(c, digest, name)];
    forall path | path in after ensures exists n :: n in names + [name] && release.Path(n) == path {
      if path == release.Path(name) {
        assert name in names + [name];
      } else {
        var n :| n in names && release.Path(n) == path;
        assert n in names + [name];
      }
    }
  }

  /** Packs the packages wave by wave; stops at the first unsafe tarball name. */
  method PackWaves(c: Checksums, packer: Packer, release: Release, digest: string, disk: map<string, seq<Field>>)
      returns (r: Option<(seq<Tarball>, map<string, string>)>)
    requires OnDisk(disk, c, release, digest, release.Names())
    ensures r.Some? <==> release.NamesSafe(c, packer, digest, release.Names())
    ensures r.Some? ==> Packing(c, packer, release, digest, release.Names(), r.value.0, r.value.1)
  {
    var plan := release.plan;
    var tarballs: seq<Tarball>, files: map<string, string> := [], map[];
    for w := 0 to |plan|
      invariant Packing(c, packer, release, digest, ReleaseWaves.Flatten(plan[..w]), tarballs, files)
      invariant release.NamesSafe(c, packer, digest, ReleaseWaves.Flatten(plan[..w]))
    {
      ReleaseWaves.FlattenAt(plan, w, 0);
      var packed :=
        PackWave(c, packer, release, digest, disk, plan[w], ReleaseWaves.Flatten(plan[..w]), tarballs, files);
      if packed.None? {
        return None;
      }
      tarballs, files := packed.value.0, packed.value.1;
      ReleaseWaves.FlattenStep(plan, w);
    }
    assert plan[..|plan|] == plan;
    return Some((tarballs, files));
  }

  /** What has been recorded and stored after packing the given packages. */
  ghost predicate Packing(
      c: Checksums, packer: Packer, release: Release, digest: string, names: seq<string>,
      tarballs: seq<Tarball>, files: map<string, string>)
  {
    tarballs == release.Records(c, packer, digest, names) && files == release.Stored(c, packer, digest, names)
  }

  method PackWave(
      c: Checksums, packer: Packer, release: Release, digest: string, disk: map<string, seq<Field>>,
      wave: seq<string>, ghost before: seq<string>, tarballs0: seq<Tarball>, files0: map<string, string>)
      returns (r: Option<(seq<Tarball>, map<string, string>)>)
    requires OnDisk(disk, c, release, digest, wave)
    requires Packing(c, packer, release, digest, before, tarballs0, files0)
    ensures r.Some? <==> release.NamesSafe(c, packer, digest, wave)
    ensures r.Some? ==> Packing(c, packer, release, digest, before + wave, r.value.0, r.value.1)
  {
    var tarballs, files := tarballs0, files0;
    ghost var now := before;
    for k := 0 to |wave|
      invariant now == before + wave[..k]
      invariant Packing(c, packer, release, digest, now, tarballs, files)
      invariant release.NamesSafe(c, packer, digest, wave[..k])
    {
      var name := wave[k];
      WrittenIsRead(disk, c, packer, release, digest, wave, k);
      var archive := packer.pack(release.Path(name), disk[release.Path(name)]);
      if !IsTarballName(archive.name) {
        return None;
      }
      PackOneMore(c, packer, release, digest, now, tarballs, files, name);
      tarballs := tarballs + [release.Record(c, digest, name, archive)];
      files := files[archive.name := archive.content];
      now := now + [name];
    }
    assert wave[..|wave|] == wave;
    return Some((tarballs, files));
  }

  /** npm packs what was written, and the names stay safe exactly when the next one is. */
  lemma {:induction false} WrittenIsRead(
      disk: map<string, seq<Field>>, c: Checksums, packer: Packer, release: Release, digest: string,
      wave: seq<string>, k: nat)
    requires OnDisk(disk, c, release, digest, wave) && k < |wave|
    ensures release.Path(wave[k]) in disk
    ensures packer.pack(release.Path(wave[k]), disk[release.Path(wave[k])])
      == release.Archive(c, packer, digest, wave[k])
    ensures release.NamesSafe(c, packer, digest, wave[..k + 1])
      <==> release.NamesSafe(c, packer, digest, wave[..k])
           && IsTarballName(release.Archive(c, packer, digest, wave[k]).name)
    ensures release.NamesSafe(c, packer, digest, wave) ==>
      IsTarballName(release.Archive(c, packer, digest, wave[k]).name)
  {
    assert wave[..k + 1] == wave[..k] + [wave[k]];
    assert wave[k] in wave;
  }

  lemma {:induction false} PackOneMore(
      c: Checksums, packer: Packer, release: Release, digest: string, names: seq<string>,
      tarballs: seq<Tarball>, files: map<string, string>, name: string)
    requires Packing(c, packer, release, digest, names, tarballs, files)
    ensures var archive := release.Archive(c, packer, digest, name);
      Packing(c, packer, release, digest, names + [name],
              tarballs + [release.Record(c, digest, name, archive)], files[archive.name := archive.content])
  {
    assert (names + [name])[..|names|] == names;
  }

  method CollectRelease(
      hash: Hasher, boundary: set<string>, plan: ReleaseWaves.Plan, files: seq<PackageFile>, request: Request)
      returns (r: Option<Release>)
    requires PathsDiffer(files)
    ensures r.Some? <==> Collectable(boundary, plan, files)
    ensures r.Some? ==> r.value == ReleaseOf(hash, plan, files, request) && r.value.Valid()
  {
    var collected := ReleasePackages(hash, files, boundary);
    if collected.None? {
      return None;
    }
    var (candidates, manifests) := collected.value;
    OfferedNames(hash, files, boundary);
    var approved := ReleaseWaves.ValidateReleaseWaves(plan, boundary, Some(NeedsOf(candidates)));
    if approved.Fail? {
      return None;
    }
    ReleaseIsValid(hash, files, boundary, Release(manifests, plan, request));
    return Some(Release(manifests, plan, request));
  }

  /** Annotating, packing and signing a collected release. */
  method WriteRelease(c: Checksums, packer: Packer, release: Release) returns (r: Option<Built>)
    requires release.Valid()
    ensures r.Some? <==> release.NamesSafe(c, packer, release.Digest(c), release.Names())
    ensures r.Some? ==> r.value.bundle == release.SignedBundle(c, packer)
    ensures r.Some? ==> r.value.output == release.WrittenOutput(c, packer)
    ensures r.Some? ==> Annotates(c, release, r.value.disk)
  {
    var digest := release.Digest(c);
    var entries, disk := AnnotatePackages(c, release, digest);
    var packed := PackWaves(c, packer, release, digest, disk);
    if packed.None? {
      return None;
    }
    var bundle := Sign(c, release.Assemble(entries, packed.value.0, digest));
    return Some(Built(bundle, OutputOf(c.hash, packer, bundle, packed.value.1), disk));
  }

  /** The builder succeeds exactly on a buildable request, and writes the bundle described by `ReleaseOf`. */
  method Build(
      c: Checksums, packer: Packer, boundary: set<string>, plan: ReleaseWaves.Plan, files: seq<PackageFile>,
      request: Request)
      returns (r: Option<Built>)
    requires PathsDiffer(files)
    ensures r.Some? <==> Buildable(c, packer, boundary, plan, files, request)
    ensures r.Some? ==> r.value.bundle == ReleaseOf(c.hash, plan, files, request).SignedBundle(c, packer)
    ensures r.Some? ==> r.value.output == ReleaseOf(c.hash, plan, files, request).WrittenOutput(c, packer)
    ensures r.Some? ==> Annotates(c, ReleaseOf(c.hash, plan, files, request), r.value.disk)
  {
    if request.version == "" || request.tag == "" || request.branch == "" {
      return None;
    }
    var collected := CollectRelease(c.hash, boundary, plan, files, request);
    if collected.None? || CanonicalSha(request.sourceSha).None? || CanonicalSha(request.head).None?
      || CanonicalSha(request.tree).None? {
      return None;
    }
    r := WriteRelease(c, packer, collected.value);
  }

  /** Different files have different paths. */
  ghost predicate PathsDiffer(files: seq<PackageFile>) {
    forall f, g :: f in files && g in files && f != g ==> f.path != g.path
  }

  lemma {:induction false} ReleaseIsValid(
      hash: Hasher, files: seq<PackageFile>, boundary: set<string>, release: Release)
    requires PathsDiffer(files) && Offers(files, boundary)
    requires release.manifests == ManifestsOf(hash, Candidates(files))
    requires ReleaseWaves.Partitions(release.plan, boundary)
    ensures release.Valid()
  {
    OfferedNames(hash, files, boundary);
    EnumeratesMeansDistinct(release.Names(), boundary);
    CandidatesAreFiles(files);
    ManifestPaths(hash, Candidates(files));
    PlannedNames(release.plan, release.manifests);
  }

  lemma {:induction false} PlannedNames(plan: ReleaseWaves.Plan, manifests: map<string, Manifest>)
    requires ToSet(ReleaseWaves.Flatten(plan)) == manifests.Keys
    ensures forall name :: name in ReleaseWaves.Flatten(plan) ==> name in manifests
  {
    forall name | name in ReleaseWaves.Flatten(plan) ensures name in manifests {
      assert name in ToSet(ReleaseWaves.Flatten(plan));
    }
  }

  lemma {:induction false} ManifestPaths(hash: Hasher, files: seq<PackageFile>)
    requires PathsDiffer(files)
    ensures PathsApart(ManifestsOf(hash, files))
  {
    ManifestsByName(hash, files);
    var manifests := ManifestsOf(hash, files);
    forall a, b | a in manifests && b in manifests && a != b ensures manifests[a].path != manifests[b].path {
      var f :| f in files && NameOf(f) == a && manifests[a] == ManifestOf(hash, f);
      var g :| g in files && NameOf(g) == b && manifests[b] == ManifestOf(hash, g);
      assert f.path != g.path;
    }
  }

  lemma {:induction false} CandidatesAreFiles(files: seq<PackageFile>)
    ensures forall f :: f in Candidates(files) ==> f in files
  {
    if files != [] {
      CandidatesAreFiles(files[..|files| - 1]);
    }
  }
}
