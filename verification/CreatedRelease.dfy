/**
 verifyRelease of scripts/release-main.js: re-checking the annotated package.json files of a release in
 place, as a release record lists them.  The record comes from createRelease, or from verifyBundle, which
 puts the package entries of the bundle where the identity lists its packages.
 */
module CreatedRelease {
  import opened Common
  import opened CanonicalJson
  import opened ReleaseDocument
  import opened ReleaseText
  import opened VerifyBundle
  import opened CreateBundle
  import opened BuildThenVerify
  import ReleaseWaves

  /** What the check reads of a release record; the identity is any JSON document. */
  datatype Record = Record(format: string, identity: Json, identityDigest: string, packages: seq<PackageEntry>)

  /** The packages directory: the package.json files of the walk, and what reading a path yields. */
  datatype Packages = Packages(files: seq<PackageFile>, texts: map<string, seq<Field>>)

  predicate EntryReads(hash: Hasher, record: Record, entry: PackageEntry, json: seq<Field>) {
    var release := Member(Lookup(json, "scramjet"), "release");
    && Lookup(json, "name") == Some(String(entry.name))
    && Lookup(json, "version") == Some(String(entry.version))
    && Member(release, "identityDigest") == Some(String(record.identityDigest))
    && Member(release, "packageChecksum") == Some(String(entry.packageChecksum))
    && PackageChecksum(hash, json) == entry.packageChecksum
  }

  predicate EntryOnDisk(hash: Hasher, boundary: set<string>, record: Record, texts: map<string, seq<Field>>,
                        entry: PackageEntry)
  {
    entry.name in boundary && entry.path in texts && EntryReads(hash, record, entry, texts[entry.path])
  }

  predicate IdentityHolds(hash: Hasher, record: Record) {
    record.format == FORMAT && record.identityDigest == Sha256(hash, Canonical(record.identity))
  }

  ghost predicate ReleaseHolds(hash: Hasher, boundary: set<string>, record: Record, dir: Packages) {
    && IdentityHolds(hash, record)
    && Offers(dir.files, boundary)
    && EntriesHold(hash, boundary, record, dir.texts, record.packages)
  }

  ghost predicate EntriesHold(
      hash: Hasher, boundary: set<string>, record: Record, texts: map<string, seq<Field>>, entries: seq<PackageEntry>)
  {
    forall entry :: entry in entries ==> EntryOnDisk(hash, boundary, record, texts, entry)
  }

  lemma {:induction false} OneEntryMore(
      hash: Hasher, boundary: set<string>, record: Record, texts: map<string, seq<Field>>, i: nat)
    requires i < |record.packages|
    ensures EntriesHold(hash, boundary, record, texts, record.packages[..i + 1])
      <==> EntriesHold(hash, boundary, record, texts, record.packages[..i])
           && EntryOnDisk(hash, boundary, record, texts, record.packages[i])
    ensures EntriesHold(hash, boundary, record, texts, record.packages) ==>
      EntryOnDisk(hash, boundary, record, texts, record.packages[i])
  {
    SnocFront(record.packages[..i], record.packages[i]);
    assert record.packages[..i + 1] == record.packages[..i] + [record.packages[i]];
  }

  method CheckEntries(hash: Hasher, boundary: set<string>, record: Record, texts: map<string, seq<Field>>)
      returns (held: bool)
    ensures held <==> EntriesHold(hash, boundary, record, texts, record.packages)
  {
    for i := 0 to |record.packages|
      invariant EntriesHold(hash, boundary, record, texts, record.packages[..i])
    {
      OneEntryMore(hash, boundary, record, texts, i);
      if !EntryOnDisk(hash, boundary, record, texts, record.packages[i]) {
        return false;
      }
    }
    assert record.packages[..|record.packages|] == record.packages;
    return true;
  }

  method VerifyRelease(hash: Hasher, boundary: set<string>, record: Record, dir: Packages) returns (r: Outcome)
    ensures r.Pass? <==> ReleaseHolds(hash, boundary, record, dir)
  {
    if record.format != FORMAT || record.identityDigest != Sha256(hash, Canonical(record.identity)) {
      return Fail("main release identity is invalid");
    }
    var collected := ReleasePackages(hash, dir.files, boundary);
    if collected.None? {
      return Fail("the packages directory does not hold the release boundary");
    }
    OfferedNames(hash, dir.files, boundary);
    var held := CheckEntries(hash, collected.value.1.Keys, record, dir.texts);
    if !held {
      return Fail("main release package checksum mismatch");
    }
    return Pass;
  }

  // ----- A created release verifies --------------------------------------------------------------

  /** The walk of the packages directory after some of its files were written. */
  function Rewritten(render: Json -> string, files: seq<PackageFile>, disk: map<string, seq<Field>>): seq<PackageFile> {
    seq(|files|, i requires 0 <= i < |files| => RewrittenFile(render, files[i], disk))
  }

  function RewrittenFile(render: Json -> string, file: PackageFile, disk: map<string, seq<Field>>): PackageFile {
    if file.path in disk then PackageFile(file.path, render(Object(disk[file.path])), disk[file.path]) else file
  }

  /** The directory as createRelease leaves it; reading a walked file gives its object. */
  ghost predicate Leaves(
      render: Json -> string, files: seq<PackageFile>, disk: map<string, seq<Field>>, dir: Packages)
  {
    && dir.files == Rewritten(render, files, disk)
    && forall file :: file in dir.files ==> file.path in dir.texts && dir.texts[file.path] == file.json
  }

  /** The walk treats two files alike: both are skipped or both released, under the same name. */
  predicate SameRole(a: PackageFile, b: PackageFile) {
    && Lookup(a.json, "name") == Lookup(b.json, "name")
    && Lookup(a.json, "private") == Lookup(b.json, "private")
  }

  ghost predicate SameRoles(a: seq<PackageFile>, b: seq<PackageFile>) {
    |a| == |b| && forall i :: 0 <= i < |a| ==> SameRole(a[i], b[i])
  }

  lemma {:induction false} OneRoleMore(a: seq<PackageFile>, b: seq<PackageFile>, x: PackageFile, y: PackageFile)
    requires SameRoles(a, b) && SameRole(x, y)
    ensures SameRoles(a + [x], b + [y])
    ensures IsSkipped(x) <==> IsSkipped(y)
  {
  }

  lemma {:induction false} FrontRoles(a: seq<PackageFile>, b: seq<PackageFile>)
    requires SameRoles(a, b) && a != []
    ensures SameRoles(a[..|a| - 1], b[..|a| - 1]) && SameRole(a[|a| - 1], b[|a| - 1])
  {
    var c, d := a[..|a| - 1], b[..|a| - 1];
    forall i | 0 <= i < |c| ensures SameRole(c[i], d[i]) {
      assert SameRole(a[i], b[i]);
    }
  }

  lemma {:induction false} SameCandidates(a: seq<PackageFile>, b: seq<PackageFile>)
    requires SameRoles(a, b)
    ensures SameRoles(Candidates(a), Candidates(b))
  {
    if a != [] {
      var n := |a| - 1;
      FrontRoles(a, b);
      SameCandidates(a[..n], b[..n]);
      OneRoleMore(Candidates(a[..n]), Candidates(b[..n]), a[n], b[n]);
    }
  }

  lemma {:induction false} SameNames(a: seq<PackageFile>, b: seq<PackageFile>)
    requires SameRoles(a, b)
    ensures Named(a) == Named(b)
    ensures (forall file :: file in a ==> IsNamed(file)) ==> forall file :: file in b ==> IsNamed(file)
  {
    forall i | 0 <= i < |a| ensures Named(a)[i] == Named(b)[i] {
      NamedAt(a, i);
      NamedAt(b, i);
      assert SameRole(a[i], b[i]);
    }
    forall file | file in b && (forall other :: other in a ==> IsNamed(other)) ensures IsNamed(file) {
      var i :| 0 <= i < |b| && b[i] == file;
      assert SameRole(a[i], b[i]) && a[i] in a;
    }
  }

  lemma {:induction false} SameOffer(a: seq<PackageFile>, b: seq<PackageFile>, boundary: set<string>)
    requires SameRoles(a, b) && Offers(a, boundary)
    ensures Offers(b, boundary)
  {
    SameCandidates(a, b);
    SameNames(Candidates(a), Candidates(b));
  }

  lemma {:induction false} ReleasedKeeps(pkg: seq<Field>, version: string, release: seq<Field>, key: string)
    requires key != "version" && key != "scramjet"
    ensures Lookup(Released(pkg, version, release), key) == Lookup(pkg, key)
  {
    var base := Set(pkg, "version", String(version));
    var scramjet := Object(Set(Spread(Lookup(pkg, "scramjet")), "release", Object(release)));
    SetKeepsOthers(pkg, "version", String(version), key);
    SetKeepsOthers(base, "scramjet", scramjet, key);
  }

  lemma {:induction false} AnnotatedKeeps(
      hash: Hasher, pkg: seq<Field>, version: string, digest: string, source: string, key: string)
    requires key != "version" && key != "scramjet"
    ensures Lookup(Annotated(hash, pkg, version, digest, source), key) == Lookup(pkg, key)
  {
    var fields := ReleaseFields(digest, source);
    var checksum := PackageChecksum(hash, Released(pkg, version, fields));
    ReleasedKeeps(pkg, version, fields + [Field("packageChecksum", String(checksum))], key);
  }

  /** Annotating leaves a package's name and its `private` flag alone. */
  lemma {:induction false} WrittenKeeps(hash: Hasher, release: Release, digest: string, name: string, key: string)
    requires key != "version" && key != "scramjet"
    ensures Lookup(release.Written(Sha256Checksums(hash), digest, name), key)
      == Lookup(Find(release.manifests, name).json, key)
  {
    var m, version := Find(release.manifests, name), String(release.request.version);
    AnnotatedKeeps(hash, Set(m.json, "version", version), release.request.version, digest, m.sourceChecksum, key);
    SetKeepsOthers(m.json, "version", version, key);
  }

  lemma {:induction false} CandidatesAreTaken(files: seq<PackageFile>)
    ensures forall file :: file in Candidates(files) <==> file in files && !IsSkipped(file)
  {
    if files != [] {
      CandidatesAreTaken(files[..|files| - 1]);
      FrontAndLast(files);
    }
  }

  lemma {:induction false} IsListed(files: seq<PackageFile>, file: PackageFile)
    requires file in files
    ensures NameOf(file) in Named(files)
  {
    var i :| 0 <= i < |files| && files[i] == file;
    NamedAt(files, i);
  }

  lemma {:induction false} OnlyOneNamed(files: seq<PackageFile>, a: PackageFile, b: PackageFile)
    requires Distinct(Named(files)) && a in files && b in files && NameOf(a) == NameOf(b)
    ensures a == b
  {
    var i :| 0 <= i < |files| && files[i] == a;
    var j :| 0 <= j < |files| && files[j] == b;
    NamedAt(files, i);
    NamedAt(files, j);
  }

  lemma {:induction false} ManifestUnder(hash: Hasher, files: seq<PackageFile>, file: PackageFile)
    requires Distinct(Named(files)) && file in files && NameOf(file) in ManifestsOf(hash, files)
    ensures ManifestsOf(hash, files)[NameOf(file)] == ManifestOf(hash, file)
  {
    ManifestsByName(hash, files);
    var other :| other in files && NameOf(other) == NameOf(file)
      && ManifestsOf(hash, files)[NameOf(file)] == ManifestOf(hash, other);
    OnlyOneNamed(files, file, other);
  }

  /** The manifest under a candidate's name is that of the candidate. */
  lemma {:induction false} CandidateManifest(
      hash: Hasher, boundary: set<string>, files: seq<PackageFile>, file: PackageFile)
    requires Offers(files, boundary) && file in Candidates(files)
    ensures NameOf(file) in boundary
    ensures Find(ManifestsOf(hash, Candidates(files)), NameOf(file)) == ManifestOf(hash, file)
  {
    var all := Candidates(files);
    OfferedNames(hash, files, boundary);
    EnumeratesMeansDistinct(Named(all), boundary);
    IsListed(all, file);
    ManifestUnder(hash, all, file);
  }

  /** The package planned under a name comes from a candidate of that name. */
  lemma {:induction false} PlannedFile(
      hash: Hasher, boundary: set<string>, files: seq<PackageFile>, release: Release, name: string)
      returns (file: PackageFile)
    requires Offers(files, boundary) && release.manifests == ManifestsOf(hash, Candidates(files))
    requires ReleaseWaves.Partitions(release.plan, boundary) && name in release.Names()
    ensures file in Candidates(files) && NameOf(file) == name && file.path == release.Path(name)
  {
    OfferedNames(hash, files, boundary);
    ManifestsByName(hash, Candidates(files));
    EnumeratesMeansDistinct(release.Names(), boundary);
    assert name in ToSet(release.Names());
    file :| file in Candidates(files) && NameOf(file) == name
      && release.manifests[name] == ManifestOf(hash, file);
  }

  lemma {:induction false} TakenIsWritten(
      hash: Hasher, boundary: set<string>, files: seq<PackageFile>, release: Release, disk: map<string, seq<Field>>,
      file: PackageFile)
    requires Offers(files, boundary) && release.manifests == ManifestsOf(hash, Candidates(files))
    requires ReleaseWaves.Partitions(release.plan, boundary) && Annotates(Sha256Checksums(hash), release, disk)
    requires file in Candidates(files)
    ensures var c := Sha256Checksums(hash);
      file.path in disk && disk[file.path] == release.Written(c, release.Digest(c), NameOf(file))
    ensures Find(release.manifests, NameOf(file)) == ManifestOf(hash, file) && NameOf(file) in release.Names()
  {
    CandidateManifest(hash, boundary, files, file);
    EnumeratesMeansDistinct(release.Names(), boundary);
    assert NameOf(file) in ToSet(release.Names());
  }

  lemma {:induction false} SkippedIsKept(
      hash: Hasher, boundary: set<string>, files: seq<PackageFile>, release: Release, disk: map<string, seq<Field>>,
      file: PackageFile)
    requires PathsDiffer(files)
    requires Offers(files, boundary) && release.manifests == ManifestsOf(hash, Candidates(files))
    requires ReleaseWaves.Partitions(release.plan, boundary) && Annotates(Sha256Checksums(hash), release, disk)
    requires file in files && IsSkipped(file)
    ensures file.path !in disk
  {
    CandidatesAreTaken(files);
    if file.path in disk {
      var name :| name in release.Names() && release.Path(name) == file.path;
      var other := PlannedFile(hash, boundary, files, release, name);
    }
  }

  lemma {:induction false} RewrittenRoles(
      hash: Hasher, render: Json -> string, boundary: set<string>, files: seq<PackageFile>, release: Release,
      disk: map<string, seq<Field>>)
    requires PathsDiffer(files)
    requires Offers(files, boundary) && release.manifests == ManifestsOf(hash, Candidates(files))
    requires ReleaseWaves.Partitions(release.plan, boundary) && Annotates(Sha256Checksums(hash), release, disk)
    ensures SameRoles(files, Rewritten(render, files, disk))
  {
    CandidatesAreTaken(files);
    forall i | 0 <= i < |files| ensures SameRole(files[i], Rewritten(render, files, disk)[i]) {
      var file := files[i];
      if IsSkipped(file) {
        SkippedIsKept(hash, boundary, files, release, disk, file);
      } else {
        var digest := release.Digest(Sha256Checksums(hash));
        TakenIsWritten(hash, boundary, files, release, disk, file);
        WrittenKeeps(hash, release, digest, NameOf(file), "name");
        WrittenKeeps(hash, release, digest, NameOf(file), "private");
      }
    }
  }

  function RecordOf(hash: Hasher, release: Release): Record {
    var c := Sha256Checksums(hash);
    var digest := release.Digest(c);
    Record(FORMAT, IdentityJson(release.IdentityDocument()), digest, release.Entries(c, digest, release.Names()))
  }

  lemma {:induction false} CreatedEntryHolds(
      hash: Hasher, render: Json -> string, boundary: set<string>, files: seq<PackageFile>, release: Release,
      disk: map<string, seq<Field>>, dir: Packages, i: nat)
    requires Offers(files, boundary) && release.manifests == ManifestsOf(hash, Candidates(files))
    requires ReleaseWaves.Partitions(release.plan, boundary) && Annotates(Sha256Checksums(hash), release, disk)
    requires Leaves(render, files, disk, dir) && i < |release.Names()|
    ensures |RecordOf(hash, release).packages| == |release.Names()|
    ensures EntryOnDisk(hash, boundary, RecordOf(hash, release), dir.texts, RecordOf(hash, release).packages[i])
  {
    var c, names := Sha256Checksums(hash), release.Names();
    EntriesAt(release, c, release.Digest(c), names);
    EnumeratesMeansDistinct(names, boundary);
    assert names[i] in ToSet(names);
    var file := PlannedFile(hash, boundary, files, release, names[i]);
    CandidatesAreTaken(files);
    TakenIsWritten(hash, boundary, files, release, disk, file);
    var k :| 0 <= k < |files| && files[k] == file;
    assert Rewritten(render, files, disk)[k] in dir.files;
    CollectedNames(hash, files, boundary, names[i]);
    WrittenReads(hash, release, release.Digest(c), names[i]);
  }

  /** What createRelease leaves in the packages directory, verifyRelease accepts. */
  lemma {:induction false} CreatedReleaseVerifies(
      hash: Hasher, render: Json -> string, boundary: set<string>, plan: ReleaseWaves.Plan, files: seq<PackageFile>,
      request: Request, disk: map<string, seq<Field>>, dir: Packages)
    requires PathsDiffer(files) && Collectable(boundary, plan, files)
    requires Annotates(Sha256Checksums(hash), ReleaseOf(hash, plan, files, request), disk)
    requires Leaves(render, files, disk, dir)
    ensures ReleaseHolds(hash, boundary, RecordOf(hash, ReleaseOf(hash, plan, files, request)), dir)
  {
    var release := ReleaseOf(hash, plan, files, request);
    var record := RecordOf(hash, release);
    RewrittenRoles(hash, render, boundary, files, release, disk);
    SameOffer(files, dir.files, boundary);
    EntriesAt(release, Sha256Checksums(hash), record.identityDigest, release.Names());
    forall entry | entry in record.packages ensures EntryOnDisk(hash, boundary, record, dir.texts, entry) {
      var i :| 0 <= i < |record.packages| && record.packages[i] == entry;
      CreatedEntryHolds(hash, render, boundary, files, release, disk, dir, i);
    }
  }

  /**
   A release record leaves one reading of each listed package.json: two directories that pass for it agree on the
   file up to the recorded checksum exactly when the texts of the two files do not collide.
   */
  lemma {:induction false} ReleasePinsPackages(
      hash: Hasher, boundary: set<string>, record: Record, a: Packages, b: Packages, entry: PackageEntry)
    requires entry in record.packages
    requires ReleaseHolds(hash, boundary, record, a) && ReleaseHolds(hash, boundary, record, b)
    requires entry.path in a.texts && WellFormed(Object(WithoutChecksum(a.texts[entry.path])))
    requires entry.path in b.texts && WellFormed(Object(WithoutChecksum(b.texts[entry.path])))
    ensures Same(Object(WithoutChecksum(a.texts[entry.path])), Object(WithoutChecksum(b.texts[entry.path])))
      <==> !Collide(hash, PackageText(a.texts[entry.path]), PackageText(b.texts[entry.path]))
    ensures forall json :: json in {a.texts[entry.path], b.texts[entry.path]} ==>
      Member(Member(Lookup(json, "scramjet"), "release"), "packageChecksum") == Some(String(entry.packageChecksum))
  {
    var p, q := a.texts[entry.path], b.texts[entry.path];
    assert EntryOnDisk(hash, boundary, record, a.texts, entry) && EntryOnDisk(hash, boundary, record, b.texts, entry);
    ChecksumCoversTheRest(hash, p, q);
    CanonicalTextIdentifiesValue(Object(WithoutChecksum(p)), Object(WithoutChecksum(q)));
  }
}
