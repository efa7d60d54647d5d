/**
 What the bundle builder of scripts/release-main.js takes from the packages directory and the request, and where its
 documents say it, field by field.
 */
module BuildEvidence {
  import opened Common
  import opened CanonicalJson
  import opened ReleaseDocument
  import opened ReleaseText
  import opened VerifyBundle
  import opened CreateBundle
  import opened BuildThenVerify
  import opened CreatedRelease
  import opened DocumentDigests
  import ReleaseWaves

  // ----- Which package files count ------------------------------------------------------------------------

  /** A package file with a name that is not marked private. */
  predicate IsPublic(file: PackageFile, name: string) {
    name != "" && Lookup(file.json, "name") == Some(String(name)) && Lookup(file.json, "private") != Some(Bool(true))
  }

  /** A package file that is passed over: marked private, or with a name that JavaScript takes for false. */
  predicate IsPassedOver(file: PackageFile) {
    || Lookup(file.json, "private") == Some(Bool(true))
    || Lookup(file.json, "name") in {None, Some(Null), Some(Bool(false)), Some(Number("0")), Some(String(""))}
  }

  lemma {:induction false} PublicIsTaken(file: PackageFile, name: string)
    ensures IsSkipped(file) <==> IsPassedOver(file)
    ensures !IsSkipped(file) && IsNamed(file) && NameOf(file) == name <==> IsPublic(file, name)
  {
  }

  /** Each boundary package has one public file, and every other file is passed over. */
  ghost predicate OffersEach(files: seq<PackageFile>, boundary: set<string>) {
    && (forall i :: 0 <= i < |files| ==>
          IsPassedOver(files[i]) || exists name :: name in boundary && IsPublic(files[i], name))
    && (forall name :: name in boundary ==> exists i :: 0 <= i < |files| && IsPublic(files[i], name))
    && forall i, j, name :: 0 <= i < j < |files| && IsPublic(files[i], name) ==> !IsPublic(files[j], name)
  }

  lemma {:induction false} PublicNames(files: seq<PackageFile>, name: string)
    requires forall file :: file in Candidates(files) ==> IsNamed(file)
    ensures name in Named(Candidates(files)) <==> exists i :: 0 <= i < |files| && IsPublic(files[i], name)
  {
    hide IsSkipped, IsPublic, NameOf, IsNamed;
    if files != [] {
      var front, last := files[..|files| - 1], files[|files| - 1];
      PublicNames(front, name);
      PublicIsTaken(last, name);
      if IsSkipped(last) {
        assert Candidates(files) == Candidates(front);
      } else {
        assert last in Candidates(files);
        SnocFront(Candidates(front), last);
      }
      if name in Named(Candidates(files)) && !IsPublic(last, name) {
        var i :| 0 <= i < |front| && IsPublic(front[i], name);
        assert files[i] == front[i];
      }
      if i :| 0 <= i < |files| && IsPublic(files[i], name) {
        assert i < |front| ==> front[i] == files[i];
      }
    }
  }

  lemma {:induction false} DistinctSnoc(names: seq<string>, name: string)
    ensures Distinct(names + [name]) <==> Distinct(names) && name !in names
  {
    var all := names + [name];
    if Distinct(all) {
      forall i | 0 <= i < |names| ensures names[i] != name {
        assert all[i] != all[|names|];
      }
      forall i, j | 0 <= i < j < |names| ensures names[i] != names[j] {
        assert all[i] != all[j];
      }
    }
  }

  ghost predicate NoTwoPublic(files: seq<PackageFile>) {
    forall i, j, name :: 0 <= i < j < |files| && IsPublic(files[i], name) ==> !IsPublic(files[j], name)
  }

  lemma {:induction false} NoTwoPublicSnoc(front: seq<PackageFile>, last: PackageFile)
    ensures NoTwoPublic(front + [last])
      <==> NoTwoPublic(front)
           && forall i, name :: 0 <= i < |front| && IsPublic(front[i], name) ==> !IsPublic(last, name)
  {
    var all := front + [last];
    if NoTwoPublic(all) {
      forall i, j, name | 0 <= i < j < |front| && IsPublic(front[i], name) ensures !IsPublic(front[j], name) {
        assert all[i] == front[i] && all[j] == front[j];
      }
      forall i, name | 0 <= i < |front| && IsPublic(front[i], name) ensures !IsPublic(last, name) {
        assert all[i] == front[i] && all[|front|] == last;
      }
    }
  }

  lemma {:induction false} SkippedIsNotPublic(front: seq<PackageFile>, last: PackageFile)
    requires IsSkipped(last)
    ensures Candidates(front + [last]) == Candidates(front) && (NoTwoPublic(front + [last]) <==> NoTwoPublic(front))
  {
    hide IsSkipped, IsPublic, NoTwoPublic;
    SnocFront(front, last);
    NoTwoPublicSnoc(front, last);
    forall other ensures !IsPublic(last, other) {
      PublicIsTaken(last, other);
    }
  }

  lemma {:induction false} TakenIsPublic(front: seq<PackageFile>, last: PackageFile)
    requires !IsSkipped(last) && IsNamed(last) && forall file :: file in Candidates(front) ==> IsNamed(file)
    ensures Candidates(front + [last]) == Candidates(front) + [last]
    ensures Named(Candidates(front + [last])) == Named(Candidates(front)) + [NameOf(last)]
    ensures NoTwoPublic(front + [last]) <==> NoTwoPublic(front) && NameOf(last) !in Named(Candidates(front))
  {
    hide IsSkipped, IsPublic, NoTwoPublic, IsNamed, NameOf;
    SnocFront(front, last);
    SnocFront(Candidates(front), last);
    NoTwoPublicSnoc(front, last);
    PublicNames(front, NameOf(last));
    forall other ensures IsPublic(last, other) <==> other == NameOf(last) {
      PublicIsTaken(last, other);
    }
    assert IsPublic(last, NameOf(last));
  }

  lemma {:induction false} PublicNamesDiffer(files: seq<PackageFile>)
    requires forall file :: file in Candidates(files) ==> IsNamed(file)
    ensures Distinct(Named(Candidates(files))) <==> NoTwoPublic(files)
  {
    hide IsSkipped, IsPublic, IsNamed, NameOf;
    if files != [] {
      var front, last := files[..|files| - 1], files[|files| - 1];
      FrontAndLast(files);
      PublicNamesDiffer(front);
      if IsSkipped(last) {
        SkippedIsNotPublic(front, last);
      } else {
        assert last in Candidates(files);
        TakenIsPublic(front, last);
        DistinctSnoc(Named(Candidates(front)), NameOf(last));
      }
    }
  }

  lemma {:induction false} AllNamed(files: seq<PackageFile>)
    ensures (forall file :: file in Candidates(files) ==> IsNamed(file))
      <==> forall i :: 0 <= i < |files| ==> IsPassedOver(files[i]) || IsPublic(files[i], NameOf(files[i]))
  {
    CandidatesAreTaken(files);
    forall i | 0 <= i < |files|
      ensures IsPassedOver(files[i]) || IsPublic(files[i], NameOf(files[i]))
        <==> IsSkipped(files[i]) || IsNamed(files[i])
    {
      PublicIsTaken(files[i], NameOf(files[i]));
    }
  }

  /** A packages directory is accepted exactly when it offers each boundary package by one public file. */
  lemma {:induction false} OffersExactly(files: seq<PackageFile>, boundary: set<string>)
    ensures Offers(files, boundary) <==> OffersEach(files, boundary)
  {
    AllNamed(files);
    if forall file :: file in Candidates(files) ==> IsNamed(file) {
      var names := Named(Candidates(files));
      EnumeratesMeansDistinct(names, boundary);
      PublicNamesDiffer(files);
      forall name ensures name in names <==> exists i :: 0 <= i < |files| && IsPublic(files[i], name) {
        PublicNames(files, name);
      }
      if OffersEach(files, boundary) {
        NamesInBoundary(files, boundary, names);
      }
      if Offers(files, boundary) {
        assert forall name :: name in boundary <==> name in ToSet(names);
        forall i | 0 <= i < |files| && !IsPassedOver(files[i])
          ensures exists name :: name in boundary && IsPublic(files[i], name)
        {
          assert IsPublic(files[i], NameOf(files[i]));
          assert NameOf(files[i]) in names;
        }
        assert OffersEach(files, boundary);
      }
    }
  }

  lemma {:induction false} NamesInBoundary(files: seq<PackageFile>, boundary: set<string>, names: seq<string>)
    requires OffersEach(files, boundary)
    requires forall name :: name in names <==> exists i :: 0 <= i < |files| && IsPublic(files[i], name)
    ensures ToSet(names) == boundary
  {
    forall name | name in names ensures name in boundary {
      var i :| 0 <= i < |files| && IsPublic(files[i], name);
      var other :| other in boundary && IsPublic(files[i], other);
    }
    forall name | name in boundary ensures name in names {
    }
  }

  lemma {:induction false} CandidatesAppend(a: seq<PackageFile>, b: seq<PackageFile>)
    ensures Candidates(a + b) == Candidates(a) + Candidates(b)
  {
    if b == [] {
      AddNothing(a);
    } else {
      assert (a + b)[..|a + b| - 1] == a + b[..|b| - 1];
      CandidatesAppend(a, b[..|b| - 1]);
    }
  }

  /** What the check of a release asks of the release record and the packages directory. */
  lemma {:induction false} ReleaseHoldsExactly(hash: Hasher, boundary: set<string>, record: Record, dir: Packages)
    ensures ReleaseHolds(hash, boundary, record, dir) <==>
      && record.format == "transform-hub-main-release-v2"
      && record.identityDigest == "sha256:" + hash(Canonical(record.identity))
      && OffersEach(dir.files, boundary)
      && forall entry :: entry in record.packages ==>
           && entry.name in boundary && entry.path in dir.texts
           && var json := dir.texts[entry.path];
           && var release := Member(Lookup(json, "scramjet"), "release");
           && Lookup(json, "name") == Some(String(entry.name))
           && Lookup(json, "version") == Some(String(entry.version))
           && Member(release, "identityDigest") == Some(String(record.identityDigest))
           && Member(release, "packageChecksum") == Some(String(entry.packageChecksum))
           && "sha256:" + hash(Canonical(Object(WithoutChecksum(json)))) == entry.packageChecksum
  {
    hide Offers, OffersEach, Lookup, Member, WithoutChecksum;
    OffersExactly(dir.files, boundary);
  }

  /** A private or nameless file among the others changes neither the success nor anything that is built. */
  lemma {:induction false} IgnoredFileChangesNothing(
      c: Checksums, packer: Packer, boundary: set<string>, plan: ReleaseWaves.Plan, files: seq<PackageFile>,
      request: Request, i: nat, extra: PackageFile)
    requires i <= |files|
    requires Lookup(extra.json, "private") == Some(Bool(true))
      || Lookup(extra.json, "name") == None || Lookup(extra.json, "name") == Some(String(""))
    ensures var more := files[..i] + [extra] + files[i..];
      && (Buildable(c, packer, boundary, plan, more, request) <==> Buildable(c, packer, boundary, plan, files, request))
      && ReleaseOf(c.hash, plan, more, request) == ReleaseOf(c.hash, plan, files, request)
  {
    hide IsSkipped, NeedsOf;
    PublicIsTaken(extra, "");
    CandidatesAppend(files[..i], files[i..]);
    CandidatesAppend(files[..i], [extra]);
    CandidatesAppend(files[..i] + [extra], files[i..]);
    assert files[..i] + files[i..] == files && [extra][..0] == [];
    assert Candidates([extra]) == [];
    AddNothing(Candidates(files[..i]));
  }

  /** A public file with a name outside the boundary, or with the name of another one, stops the build. */
  lemma {:induction false} StrayFileStopsBuild(
      c: Checksums, packer: Packer, boundary: set<string>, plan: ReleaseWaves.Plan, files: seq<PackageFile>,
      request: Request, i: nat, name: string)
    requires i < |files| && name != ""
    requires Lookup(files[i].json, "name") == Some(String(name))
    requires Lookup(files[i].json, "private") != Some(Bool(true))
    requires name !in boundary || exists j :: 0 <= j < |files| && j != i && IsPublic(files[j], name)
    ensures !Buildable(c, packer, boundary, plan, files, request)
  {
    OffersExactly(files, boundary);
    assert IsPublic(files[i], name);
  }

  lemma {:induction false} NeedsOfFile(files: seq<PackageFile>, file: PackageFile) returns (needs: ReleaseWaves.Needs)
    requires file in files
    ensures needs in NeedsOf(files) && needs.name == NameOf(file)
    ensures needs.dependencies
      == DependencyNames(file.json, "dependencies") + DependencyNames(file.json, "optionalDependencies")
  {
    var front, last := files[..|files| - 1], files[|files| - 1];
    if last == file {
      needs := NeedsOf(files)[|NeedsOf(files)| - 1];
    } else {
      FrontAndLast(files);
      needs := NeedsOfFile(front, file);
    }
  }

  // ----- When it builds ---------------------------------------------------------------------------------------

  /** What the runtime sections of a package.json name. */
  predicate Names(json: seq<Field>, dependency: string) {
    || dependency in Keys(Spread(Lookup(json, "dependencies")))
    || dependency in Keys(Spread(Lookup(json, "optionalDependencies")))
  }

  ghost predicate DependenciesComeEarlier(boundary: set<string>, plan: ReleaseWaves.Plan, files: seq<PackageFile>) {
    forall i, name, d :: 0 <= i < |files| && IsPublic(files[i], name) && d in boundary && Names(files[i].json, d) ==>
      ReleaseWaves.Earlier(plan, d, name)
  }

  lemma {:induction false} NeedsAreNames(files: seq<PackageFile>, needs: ReleaseWaves.Needs) returns (file: PackageFile)
    requires needs in NeedsOf(files)
    ensures file in files && needs.name == NameOf(file)
    ensures forall d :: d in needs.dependencies <==> Names(file.json, d)
  {
    var front, last := files[..|files| - 1], files[|files| - 1];
    if needs in NeedsOf(front) {
      FrontAndLast(files);
      file := NeedsAreNames(front, needs);
    } else {
      file := last;
    }
  }

  lemma {:induction false} SafetyIsOrder(boundary: set<string>, plan: ReleaseWaves.Plan, files: seq<PackageFile>)
    requires forall file :: file in Candidates(files) ==> IsNamed(file)
    ensures ReleaseWaves.DependencySafe(plan, boundary, NeedsOf(Candidates(files)))
      <==> DependenciesComeEarlier(boundary, plan, files)
  {
    hide IsSkipped, IsPublic, IsNamed, NameOf, Names, ReleaseWaves.Earlier;
    var all := Candidates(files);
    CandidatesAreTaken(files);
    if ReleaseWaves.DependencySafe(plan, boundary, NeedsOf(all)) {
      forall i, name, d | 0 <= i < |files| && IsPublic(files[i], name) && d in boundary && Names(files[i].json, d)
        ensures ReleaseWaves.Earlier(plan, d, name)
      {
        PublicIsTaken(files[i], name);
        var needs := NeedsOfFile(all, files[i]);
        NamedIsNeeded(files[i].json, needs, d);
        assert ReleaseWaves.NeedsMetEarlier(plan, boundary, needs);
      }
    }
    if DependenciesComeEarlier(boundary, plan, files) {
      forall needs | needs in NeedsOf(all) ensures ReleaseWaves.NeedsMetEarlier(plan, boundary, needs) {
        var file := NeedsAreNames(all, needs);
        var i :| 0 <= i < |files| && files[i] == file;
        PublicIsTaken(file, needs.name);
        assert IsPublic(files[i], needs.name);
      }
    }
  }

  lemma {:induction false} NamedIsNeeded(json: seq<Field>, needs: ReleaseWaves.Needs, d: string)
    requires Names(json, d)
    requires needs.dependencies
      == DependencyNames(json, "dependencies") + DependencyNames(json, "optionalDependencies")
    ensures d in needs.dependencies
  {
  }

  /** A safe tarball name: the characters of `SAFE_NAME`, and the extension. */
  predicate IsArchiveName(name: string) {
    && |name| >= 4 && name[|name| - 4..] == ".tgz"
    && forall i :: 0 <= i < |name| ==> IsNameChar(name[i])
  }

  /**
   The builder succeeds exactly when the request names a version, tag and branch and three commit hashes, each boundary
   package is offered by one public file, the plan lists the boundary once with dependencies first, and every name npm
   gives is safe.
   */
  lemma {:induction false} BuildsExactly(
      c: Checksums, packer: Packer, boundary: set<string>, plan: ReleaseWaves.Plan, files: seq<PackageFile>,
      request: Request)
    ensures Buildable(c, packer, boundary, plan, files, request) <==>
      && request.version != "" && request.tag != "" && request.branch != ""
      && |request.sourceSha| == 40 && |request.head| == 40 && |request.tree| == 40
      && (forall i :: 0 <= i < 40 ==>
           IsHexDigit(LowerChar(request.sourceSha[i])) && IsHexDigit(LowerChar(request.head[i]))
           && IsHexDigit(LowerChar(request.tree[i])))
      && OffersEach(files, boundary)
      && plan != [] && (forall i :: 0 <= i < |plan| ==> plan[i] != [])
      && Distinct(ReleaseWaves.Flatten(plan)) && ToSet(ReleaseWaves.Flatten(plan)) == boundary
      && DependenciesComeEarlier(boundary, plan, files)
      && var release := ReleaseOf(c.hash, plan, files, request);
         forall name :: name in ReleaseWaves.Flatten(plan) ==>
           IsArchiveName(
             packer.pack(release.Path(name), release.Written(c, c.identity(release.IdentityDocument()), name)).name)
  {
    hide Offers, OffersEach, DependenciesComeEarlier, ReleaseWaves.DependencySafe, IsTarballName, IsArchiveName, IsSha;
    OffersExactly(files, boundary);
    EnumeratesMeansDistinct(ReleaseWaves.Flatten(plan), boundary);
    ShaIsHex(request.sourceSha);
    ShaIsHex(request.head);
    ShaIsHex(request.tree);
    if Offers(files, boundary) {
      OfferedAreNamed(files, boundary);
      SafetyIsOrder(boundary, plan, files);
    }
    forall name ensures IsTarballName(name) <==> IsArchiveName(name) {
      ArchiveNames(name);
    }
  }

  lemma {:induction false} OfferedAreNamed(files: seq<PackageFile>, boundary: set<string>)
    requires Offers(files, boundary)
    ensures forall file :: file in Candidates(files) ==> IsNamed(file)
  {
  }

  lemma {:induction false} ArchiveNames(name: string)
    ensures IsTarballName(name) <==> IsArchiveName(name)
  {
  }

  lemma {:induction false} ShaIsHex(s: string)
    ensures IsSha(s) <==> |s| == 40 && forall i :: 0 <= i < 40 ==> IsHexDigit(LowerChar(s[i]))
  {
    if |s| == 40 {
      forall i | 0 <= i < 40 ensures Lower(s)[i] == LowerChar(s[i]) {
      }
    }
  }

  // ----- What is built ---------------------------------------------------------------------------------------

  /** The fields of an assembled bundle that come from the request and the plan. */
  lemma {:induction false} AssembledOfTheRequest(
      release: Release, entries: seq<PackageEntry>, tarballs: seq<Tarball>, digest: string)
    ensures var bundle, request := release.Assemble(entries, tarballs, digest), release.request;
      && bundle.format == "transform-hub-main-release-v2"
      && bundle.version == request.version && bundle.tag == request.tag && bundle.branch == request.branch
      && bundle.head == Lower(request.head) && bundle.tree == Lower(request.tree)
      && bundle.repository == request.repository
      && bundle.node == request.node && bundle.npm == request.npm
      && bundle.sourceSha == Lower(request.sourceSha)
      && bundle.sourceRepository == "https://github.com/scramjetorg/transform-hub"
    ensures var id, request := release.Assemble(entries, tarballs, digest).identity, release.request;
      && id.schema == "https://scramjet.org/transform-hub/release/identity/v2"
      && id.repository == "https://github.com/scramjetorg/transform-hub" && id.sha == Lower(request.sourceSha)
      && id.node == request.node && id.npm == request.npm
    ensures var bundle := release.Assemble(entries, tarballs, digest);
      && |bundle.waves| == |release.plan| && bundle.identity.waves == bundle.waves
      && forall i :: 0 <= i < |release.plan| ==> bundle.waves[i] == Wave(i + 1, release.plan[i])
  {
  }

  /** Signing sets the outer checksum and nothing else. */
  lemma {:induction false} BuiltBundleIsOfTheRequest(hash: Hasher, packer: Packer, release: Release)
      returns (entries: seq<PackageEntry>, tarballs: seq<Tarball>, digest: string)
    ensures var bundle := release.SignedBundle(Sha256Checksums(hash), packer);
      && bundle == release.Assemble(entries, tarballs, digest).(outerChecksum := bundle.outerChecksum)
      && bundle.packages == entries && bundle.tarballs == tarballs && bundle.identityDigest == digest
      && digest == "sha256:" + hash(Canonical(IdentityJson(bundle.identity)))
  {
    var c := Sha256Checksums(hash);
    digest := release.Digest(c);
    entries := release.Entries(c, digest, release.Names());
    tarballs := release.Records(c, packer, digest, release.Names());
  }

  lemma {:induction false} IdentitiesByIndex(release: Release, names: seq<string>, k: nat)
    requires k < |names|
    ensures |release.Identities(names)| == |names|
    ensures release.Identities(names)[k]
      == IdentityPackage(names[k], Find(release.manifests, names[k]).sourceChecksum, release.request.version)
  {
    IdentitiesAt(release, names, names[k]);
    if |names| > 1 && k < |names| - 1 {
      IdentitiesByIndex(release, names[..|names| - 1], k);
    } else {
      assert |IdentityNames(release.Identities(names))| == |names|;
    }
  }

  /** What a manifest of the collected ones is made of. */
  lemma {:induction false} CollectedFrom(
      hash: Hasher, boundary: set<string>, files: seq<PackageFile>, i: nat, name: string)
    requires Offers(files, boundary) && i < |files| && IsPublic(files[i], name)
    ensures Find(ManifestsOf(hash, Candidates(files)), name)
      == Manifest(files[i].json, files[i].path, "sha256:" + hash(files[i].source))
  {
    PublicIsTaken(files[i], name);
    CandidatesAreTaken(files);
    CandidateManifest(hash, boundary, files, files[i]);
  }

  /** What is recorded of the package at position k, when its package.json has this path, text and form. */
  lemma {:induction false} RecordedPackage(hash: Hasher, packer: Packer, release: Release, k: nat, file: PackageFile)
    requires k < |release.Names()|
    requires Find(release.manifests, release.Names()[k])
      == Manifest(file.json, file.path, "sha256:" + hash(file.source))
    ensures var c, name := Sha256Checksums(hash), release.Names()[k];
      var bundle, written := release.SignedBundle(c, packer), release.Written(c, release.Digest(c), name);
      var source, checksum := "sha256:" + hash(file.source), PackageChecksum(hash, written);
      var archive := packer.pack(file.path, written);
      && k < |bundle.packages| && k < |bundle.tarballs| && k < |bundle.identity.packages|
      && bundle.packages[k] == PackageEntry(name, release.request.version, source, checksum, checksum, file.path)
      && bundle.identity.packages[k] == IdentityPackage(name, source, release.request.version)
      && bundle.tarballs[k] == Tarball(
           name, release.request.version, checksum, archive.name, |archive.content|, "sha256:" + hash(archive.content))
  {
    var c, names := Sha256Checksums(hash), release.Names();
    EntriesAt(release, c, release.Digest(c), names);
    RecordsAt(release, c, packer, release.Digest(c), names);
    IdentitiesByIndex(release, names, k);
  }

  /** The release record that is written into a package.json. */
  function ReleaseRecord(digest: string, source: string, checksum: string): seq<Field> {
    [Field("identityDigest", String(digest)), Field("sourceChecksum", String(source)),
     Field("packageChecksum", String(checksum))]
  }

  lemma {:induction false} AnnotatedIs(hash: Hasher, pkg: seq<Field>, version: string, digest: string, source: string)
    ensures var written := Annotated(hash, pkg, version, digest, source);
      written == Released(pkg, version, ReleaseRecord(digest, source, PackageChecksum(hash, written)))
  {
    hide PackageChecksum, Released, Lookup, Member, Has;
    var fields := ReleaseFields(digest, source);
    var checksum := PackageChecksum(hash, Released(pkg, version, fields));
    var signed := fields + [Field("packageChecksum", String(checksum))];
    EmbeddedChecksumVerifies(hash, pkg, version, digest, source);
    ReadBack(pkg, version, signed, "packageChecksum");
    ReleaseFieldsAreUnsigned(digest, source);
    AppendLookup(fields, "packageChecksum", String(checksum), "packageChecksum");
    assert signed == ReleaseRecord(digest, source, checksum);
  }

  /** The package.json that is written: the version and the release record are set, everything else stays. */
  lemma {:induction false} WrittenManifest(
      hash: Hasher, release: Release, digest: string, name: string, key: string, inner: string)
    requires key != "version" && key != "scramjet" && inner != "release"
    ensures var m, written := Find(release.manifests, name), release.Written(Sha256Checksums(hash), digest, name);
      && Lookup(written, "version") == Some(String(release.request.version))
      && Lookup(written, key) == Lookup(m.json, key)
      && Member(Lookup(written, "scramjet"), inner) == Lookup(Spread(Lookup(m.json, "scramjet")), inner)
      && Member(Lookup(written, "scramjet"), "release")
         == Some(Object(ReleaseRecord(digest, m.sourceChecksum, PackageChecksum(hash, written))))
  {
    var m, version := Find(release.manifests, name), release.request.version;
    var pkg := Set(m.json, "version", String(version));
    var written := Annotated(hash, pkg, version, digest, m.sourceChecksum);
    assert release.Written(Sha256Checksums(hash), digest, name) == written;
    AnnotatedIs(hash, pkg, version, digest, m.sourceChecksum);
    ReleasedManifest(
      m.json, version, ReleaseRecord(digest, m.sourceChecksum, PackageChecksum(hash, written)), key, inner);
  }

  lemma {:induction false} ReleasedManifest(
      json: seq<Field>, version: string, record: seq<Field>, key: string, inner: string)
    requires key != "version" && key != "scramjet" && inner != "release"
    ensures var written := Released(Set(json, "version", String(version)), version, record);
      && Lookup(written, "version") == Some(String(version)) && Lookup(written, key) == Lookup(json, key)
      && Member(Lookup(written, "scramjet"), inner) == Lookup(Spread(Lookup(json, "scramjet")), inner)
      && Member(Lookup(written, "scramjet"), "release") == Some(Object(record))
  {
    var pkg := Set(json, "version", String(version));
    ReadBack(pkg, version, record, "");
    ReleasedKeeps(pkg, version, record, key);
    SetKeepsOthers(json, "version", String(version), key);
    SetKeepsOthers(json, "version", String(version), "scramjet");
    AnnotatedScramjet(pkg, version, record, inner);
  }

  lemma {:induction false} AnnotatedScramjet(pkg: seq<Field>, version: string, record: seq<Field>, inner: string)
    requires inner != "release"
    ensures var scramjet := Lookup(Released(pkg, version, record), "scramjet");
      && Member(scramjet, "release") == Some(Object(record))
      && Member(scramjet, inner) == Lookup(Spread(Lookup(pkg, "scramjet")), inner)
  {
    SetKeepsOthers(Spread(Lookup(pkg, "scramjet")), "release", Object(record), inner);
  }

  /** The manifest file holds the printed bundle, and the sums file a line for every tarball in order, then its own. */
  lemma {:induction false} OutputHolds(
      hash: Hasher, packer: Packer, bundle: Bundle, tarballs: map<string, string>)
    requires forall item :: item in bundle.tarballs ==>
      IsSafeAsset(item.name) && |item.sha256| == 71 && IsHex(item.sha256[7..])
    ensures var output := OutputOf(hash, packer, bundle, tarballs);
      && output.manifest == packer.render(Object(BundleFields(bundle))) + "\n" && output.tarballs == tarballs
      && ParseSums(output.sums).Some?
      && var lines := ParseSums(output.sums).value;
      && |lines| == |bundle.tarballs| + 1
      && lines[|bundle.tarballs|] == Sum(hash(output.manifest), "manifest.json")
      && forall i :: 0 <= i < |bundle.tarballs| ==>
           lines[i] == Sum(bundle.tarballs[i].sha256[7..], bundle.tarballs[i].name)
  {
    hide BundleFields;
    var text := packer.render(Object(BundleFields(bundle))) + "\n";
    var sums, last := TarballSums(bundle.tarballs), Sum(hash(text), "manifest.json");
    FixedAssetsAreFlat();
    forall s | s in sums ensures Printable(s) {
      var i :| 0 <= i < |sums| && sums[i] == s;
      assert bundle.tarballs[i] in bundle.tarballs;
    }
    SumsRoundTrip(sums, last);
  }

  // ----- Where the documents say it -----------------------------------------------------------------------------

  lemma {:induction false} FieldAt(fields: seq<Field>, i: nat, key: string, value: Json)
    requires i < |fields| && Distinct(Keys(fields)) && fields[i] == Field(key, value)
    ensures Lookup(fields, key) == Some(value) && Member(Some(Object(fields)), key) == Some(value)
  {
    if i > 0 {
      var rest := fields[1..];
      assert Keys(fields)[0] != Keys(fields)[i];
      assert Keys(rest) == Keys(fields)[1..];
      FieldAt(rest, i - 1, key, value);
    }
  }

  /** Two fields, as in the nested records. */
  lemma {:induction false} TwoFields(a: string, x: Json, b: string, y: Json)
    requires a != b
    ensures var json := Some(Object([Field(a, x), Field(b, y)]));
      Member(json, a) == Some(x) && Member(json, b) == Some(y)
  {
    var fields := [Field(a, x), Field(b, y)];
    assert Keys(fields) == [a, b];
    FieldAt(fields, 0, a, x);
    FieldAt(fields, 1, b, y);
  }

  /** The nested records of the documents. */
  lemma {:induction false} NestedReads(a: string, b: string)
    ensures Member(Some(ToolchainJson(a, b)), "node") == Some(String(a))
    ensures Member(Some(ToolchainJson(a, b)), "npm") == Some(String(b))
    ensures Member(Some(SourceJson(a, b)), "repository") == Some(String(a))
    ensures Member(Some(SourceJson(a, b)), "sha") == Some(String(b))
    ensures var json := Some(Object([Field("head", String(a)), Field("tree", String(b))]));
      Member(json, "head") == Some(String(a)) && Member(json, "tree") == Some(String(b))
  {
    assert "node"[1] != "npm"[1] && "repository"[0] != "sha"[0] && "head"[0] != "tree"[0];
    TwoFields("node", String(a), "npm", String(b));
    TwoFields("repository", String(a), "sha", String(b));
    TwoFields("head", String(a), "tree", String(b));
  }

  predicate WaveReads(json: Option<Json>, wave: Wave) {
    && Member(json, "number") == Some(Number(Decimal(wave.number)))
    && Member(json, "packages") == Some(Strings(wave.packages))
  }

  /** A list of waves with their numbers and packages. */
  predicate WavesRead(json: Option<Json>, waves: seq<Wave>) {
    && json.Some? && json.value.Array? && |json.value.items| == |waves|
    && forall i :: 0 <= i < |waves| ==> WaveReads(Some(json.value.items[i]), waves[i])
  }

  lemma {:induction false} WavesDocumentReads(waves: seq<Wave>)
    ensures WavesRead(Some(WavesJson(waves)), waves)
  {
    hide WaveReads;
    forall i | 0 <= i < |waves| ensures WaveReads(Some(WaveJson(waves[i])), waves[i]) {
      WaveDocumentReads(waves[i]);
    }
  }

  lemma {:induction false} WaveDocumentReads(wave: Wave)
    ensures WaveReads(Some(WaveJson(wave)), wave)
  {
    assert "number"[0] != "packages"[0];
    TwoFields("number", Number(Decimal(wave.number)), "packages", Strings(wave.packages));
  }

  predicate IdentityPackageReads(json: Option<Json>, p: IdentityPackage) {
    && Member(json, "name") == Some(String(p.name)) && Member(json, "sourceChecksum") == Some(String(p.sourceChecksum))
    && Member(json, "version") == Some(String(p.version))
  }

  lemma {:induction false} IdentityPackageDocumentReads(p: IdentityPackage)
    ensures IdentityPackageReads(Some(IdentityPackageJson(p)), p)
  {
    var fields := IdentityPackageJson(p).fields;
    assert Keys(fields) == ["name", "sourceChecksum", "version"];
    assert "name"[0] != "sourceChecksum"[0] && "name"[0] != "version"[0] && "sourceChecksum"[0] != "version"[0];
    FieldAt(fields, 0, "name", String(p.name));
    FieldAt(fields, 1, "sourceChecksum", String(p.sourceChecksum));
    FieldAt(fields, 2, "version", String(p.version));
  }

  /** The fields under which the identity document carries what. */
  lemma {:induction false} IdentityDocumentReads(id: Identity)
    ensures var json := Some(IdentityJson(id));
      && Member(json, "schema") == Some(String(id.schema))
      && Member(Member(json, "source"), "repository") == Some(String(id.repository))
      && Member(Member(json, "source"), "sha") == Some(String(id.sha))
      && Member(Member(json, "toolchain"), "node") == Some(String(id.node))
      && Member(Member(json, "toolchain"), "npm") == Some(String(id.npm))
    ensures WavesRead(Member(Some(IdentityJson(id)), "waves"), id.waves)
    ensures var packages := Member(Some(IdentityJson(id)), "packages");
      && packages.Some? && packages.value.Array? && |packages.value.items| == |id.packages|
      && forall i :: 0 <= i < |id.packages| ==> IdentityPackageReads(Some(packages.value.items[i]), id.packages[i])
  {
    hide WavesJson, ToolchainJson, SourceJson, IdentityPackageJson, IdentityPackageReads, WavesRead, Member, Lookup;
    var fields := IdentityJson(id).fields;
    IdentityKeys(id);
    FieldAt(fields, 0, "schema", String(id.schema));
    FieldAt(fields, 1, "source", SourceJson(id.repository, id.sha));
    FieldAt(fields, 2, "toolchain", ToolchainJson(id.node, id.npm));
    FieldAt(fields, 3, "packages", fields[3].value);
    FieldAt(fields, 4, "waves", WavesJson(id.waves));
    NestedReads(id.repository, id.sha);
    NestedReads(id.node, id.npm);
    WavesDocumentReads(id.waves);
    forall i | 0 <= i < |id.packages|
      ensures IdentityPackageReads(Some(IdentityPackageJson(id.packages[i])), id.packages[i])
    {
      IdentityPackageDocumentReads(id.packages[i]);
    }
  }

  /** A field of the manifest, and its outer checksum. */
  lemma {:induction false} ManifestField(b: Bundle, i: nat, key: string, value: Json)
    requires i < 13 && UnsignedBundleFields(b)[i] == Field(key, value)
    ensures Member(Some(Object(BundleFields(b))), key) == Some(value)
    ensures Member(Some(Object(BundleFields(b))), "outerChecksum") == Some(String(b.outerChecksum))
  {
    hide WavesJson, IdentityJson, PackageEntryJson, TarballJson, ToolchainJson, SourceJson;
    var fields := UnsignedBundleFields(b);
    BundleKeysAre(b);
    BundleKeysDiffer();
    NotAmongKeys();
    HasIsMembership(fields, "outerChecksum");
    FieldAt(fields, i, key, value);
    assert Keys(fields)[i] == key && key in BUNDLE_KEYS;
    AppendLookup(fields, "outerChecksum", String(b.outerChecksum), key);
    AppendLookup(fields, "outerChecksum", String(b.outerChecksum), "outerChecksum");
  }

  /** The fields under which the manifest carries what the bundle is. */
  lemma {:induction false} ManifestReads(b: Bundle)
    ensures var json := Some(Object(BundleFields(b)));
      && Member(json, "format") == Some(String(b.format)) && Member(json, "version") == Some(String(b.version))
      && Member(json, "tag") == Some(String(b.tag)) && Member(json, "branch") == Some(String(b.branch))
      && Member(json, "repository") == Some(String(b.repository))
      && Member(json, "identityDigest") == Some(String(b.identityDigest))
      && Member(json, "outerChecksum") == Some(String(b.outerChecksum))
      && Member(json, "identity") == Some(IdentityJson(b.identity))
    ensures var json := Some(Object(BundleFields(b)));
      && Member(Member(json, "candidate"), "head") == Some(String(b.head))
      && Member(Member(json, "candidate"), "tree") == Some(String(b.tree))
      && Member(Member(json, "toolchain"), "node") == Some(String(b.node))
      && Member(Member(json, "toolchain"), "npm") == Some(String(b.npm))
      && Member(Member(json, "source"), "repository") == Some(String(b.sourceRepository))
      && Member(Member(json, "source"), "sha") == Some(String(b.sourceSha))
  {
    hide BundleFields, WavesJson, IdentityJson, PackageEntryJson, TarballJson, ToolchainJson, SourceJson, Member,
      Lookup;
    ManifestField(b, 0, "format", String(b.format));
    ManifestField(b, 1, "version", String(b.version));
    ManifestField(b, 2, "tag", String(b.tag));
    ManifestField(b, 3, "branch", String(b.branch));
    ManifestField(b, 4, "candidate", Object([Field("head", String(b.head)), Field("tree", String(b.tree))]));
    ManifestField(b, 5, "repository", String(b.repository));
    ManifestField(b, 6, "toolchain", ToolchainJson(b.node, b.npm));
    ManifestField(b, 7, "source", SourceJson(b.sourceRepository, b.sourceSha));
    ManifestField(b, 8, "identity", IdentityJson(b.identity));
    ManifestField(b, 9, "identityDigest", String(b.identityDigest));
    NestedReads(b.head, b.tree);
    NestedReads(b.node, b.npm);
    NestedReads(b.sourceRepository, b.sourceSha);
  }

  /** The lists of the manifest, entry by entry. */
  lemma {:induction false} ManifestListsRead(b: Bundle)
    ensures WavesRead(Member(Some(Object(BundleFields(b))), "waves"), b.waves)
    ensures var packages := Member(Some(Object(BundleFields(b))), "packages");
      && packages.Some? && packages.value.Array? && |packages.value.items| == |b.packages|
      && forall i :: 0 <= i < |b.packages| ==> EntryReads(Some(packages.value.items[i]), b.packages[i])
    ensures var tarballs := Member(Some(Object(BundleFields(b))), "tarballs");
      && tarballs.Some? && tarballs.value.Array? && |tarballs.value.items| == |b.tarballs|
      && forall i :: 0 <= i < |b.tarballs| ==> TarballReads(Some(tarballs.value.items[i]), b.tarballs[i])
  {
    hide BundleFields, IdentityJson, PackageEntryJson, TarballJson, EntryReads, TarballReads, WavesJson, WavesRead,
      Member, Lookup;
    var fields := UnsignedBundleFields(b);
    ManifestField(b, 10, "packages", fields[10].value);
    ManifestField(b, 11, "waves", WavesJson(b.waves));
    ManifestField(b, 12, "tarballs", fields[12].value);
    WavesDocumentReads(b.waves);
    forall i | 0 <= i < |b.packages| ensures EntryReads(Some(PackageEntryJson(b.packages[i])), b.packages[i]) {
      EntryDocumentReads(b.packages[i]);
    }
    forall i | 0 <= i < |b.tarballs| ensures TarballReads(Some(TarballJson(b.tarballs[i])), b.tarballs[i]) {
      TarballDocumentReads(b.tarballs[i]);
    }
  }

  predicate EntryReads(json: Option<Json>, p: PackageEntry) {
    && Member(json, "name") == Some(String(p.name)) && Member(json, "version") == Some(String(p.version))
    && Member(json, "sourceChecksum") == Some(String(p.sourceChecksum))
    && Member(json, "packageChecksum") == Some(String(p.packageChecksum))
    && Member(json, "checksum") == Some(String(p.checksum)) && Member(json, "path") == Some(String(p.path))
  }

  predicate TarballReads(json: Option<Json>, t: Tarball) {
    && Member(json, "package") == Some(String(t.package)) && Member(json, "version") == Some(String(t.version))
    && Member(json, "packageChecksum") == Some(String(t.packageChecksum))
    && Member(json, "name") == Some(String(t.name)) && Member(json, "size") == Some(Number(Decimal(t.size)))
    && Member(json, "sha256") == Some(String(t.sha256))
  }

  lemma {:induction false} EntryDocumentReads(p: PackageEntry)
    ensures EntryReads(Some(PackageEntryJson(p)), p)
  {
    hide Member, Lookup;
    var fields := PackageEntryJson(p).fields;
    EntryIsTextRecord(p);
    assert Keys(fields) == ENTRY_KEYS;
    FieldAt(fields, 0, "name", String(p.name));
    FieldAt(fields, 1, "version", String(p.version));
    FieldAt(fields, 2, "sourceChecksum", String(p.sourceChecksum));
    FieldAt(fields, 3, "packageChecksum", String(p.packageChecksum));
    FieldAt(fields, 4, "checksum", String(p.checksum));
    FieldAt(fields, 5, "path", String(p.path));
  }

  lemma {:induction false} TarballDocumentReads(t: Tarball)
    ensures TarballReads(Some(TarballJson(t)), t)
  {
    hide Member, Lookup;
    var fields := TarballJson(t).fields;
    TarballKeys(t);
    FieldAt(fields, 0, "package", String(t.package));
    FieldAt(fields, 1, "version", String(t.version));
    FieldAt(fields, 2, "packageChecksum", String(t.packageChecksum));
    FieldAt(fields, 3, "name", String(t.name));
    FieldAt(fields, 4, "size", Number(Decimal(t.size)));
    FieldAt(fields, 5, "sha256", String(t.sha256));
  }
}
