/**
 The release documents of scripts/release-main.js: package manifests with their embedded checksum,
 the release identity, and the bundle manifest, together with the digests taken over them.

 SHA-256 is a parameter: any function from text to 64 lower-case hexadecimal characters.  Different texts
 may have the same digest; where that matters, the texts concerned are named.
 */
module ReleaseDocument {
  import opened Common
  import opened CanonicalJson

  type Hex64 = h: string | IsHex64(h)
    witness seq(64, _ => '0')

  predicate IsHexDigit(c: char) {
    '0' <= c <= '9' || 'a' <= c <= 'f'
  }

  predicate IsHex(s: string) {
    forall i :: 0 <= i < |s| ==> IsHexDigit(s[i])
  }

  predicate IsHex64(h: string) {
    |h| == 64 && IsHex(h)
  }

  type Hasher = string -> Hex64

  /** The digest does not tell these two texts apart. */
  predicate Collide(hash: Hasher, s: string, t: string) {
    s != t && hash(s) == hash(t)
  }

  function Sha256(hash: Hasher, text: string): string {
    "sha256:" + hash(text)
  }

  lemma {:induction false} SameDigest(hash: Hasher, s: string, t: string)
    ensures Sha256(hash, s) == Sha256(hash, t) <==> s == t || Collide(hash, s, t)
  {
    if Sha256(hash, s) == Sha256(hash, t) {
      assert Sha256(hash, s)[7..] == hash(s) && Sha256(hash, t)[7..] == hash(t);
    }
  }

  // ----- JavaScript object operations -------------------------------------------------------

  function Lookup(fields: seq<Field>, key: string): Option<Json> {
    if Has(fields, key) then Some(Get(fields, key)) else None
  }

  /** `{ ...fields, [key]: value }` and `fields[key] = value`. */
  function Set(fields: seq<Field>, key: string, value: Json): (r: seq<Field>)
    ensures Has(r, key) && Get(r, key) == value
  {
    if fields == [] then [Field(key, value)]
    else if fields[0].key == key then [Field(key, value)] + fields[1..]
    else [fields[0]] + Set(fields[1..], key, value)
  }

  /** `delete fields[key]`. */
  function Delete(fields: seq<Field>, key: string): (r: seq<Field>)
    ensures !Has(r, key)
  {
    if fields == [] then []
    else if fields[0].key == key then Delete(fields[1..], key)
    else [fields[0]] + Delete(fields[1..], key)
  }

  function Decimal(n: nat): (r: Numeral)
    ensures forall i :: 0 <= i < |r| ==> r[i] in "0123456789"
  {
    if n < 10 then ["0123456789"[n]] else Decimal(n / 10) + ["0123456789"[n % 10]]
  }

  function IndexedFields(items: seq<Json>, from: nat): seq<Field> {
    if items == [] then [] else [Field(Decimal(from), items[0])] + IndexedFields(items[1..], from + 1)
  }

  /** The properties `{ ...value }` copies. */
  function Spread(value: Option<Json>): seq<Field> {
    match value
    case Some(Object(fields)) => fields
    case Some(Array(items)) => IndexedFields(items, 0)
    case Some(String(chars)) => IndexedFields(seq(|chars|, i requires 0 <= i < |chars| => String([chars[i]])), 0)
    case _ => []
  }

  /** `value?.key` for a value that may be absent or not an object. */
  function Member(value: Option<Json>, key: string): Option<Json> {
    match value
    case Some(Object(fields)) => Lookup(fields, key)
    case _ => None
  }

  lemma {:induction false} SetKeepsOthers(fields: seq<Field>, key: string, value: Json, other: string)
    requires other != key
    ensures Lookup(Set(fields, key, value), other) == Lookup(fields, other)
  {
    if fields != [] && fields[0].key != key {
      SetKeepsOthers(fields[1..], key, value, other);
    }
  }

  lemma {:induction false} SetOverwrites(fields: seq<Field>, key: string, a: Json, b: Json)
    ensures Set(Set(fields, key, a), key, b) == Set(fields, key, b)
  {
    if fields != [] && fields[0].key != key {
      SetOverwrites(fields[1..], key, a, b);
    }
  }

  lemma {:induction false} DeleteUndoesAppend(fields: seq<Field>, key: string, value: Json)
    requires !Has(fields, key)
    ensures Delete(fields, key) == fields
    ensures Delete(fields + [Field(key, value)], key) == fields
  {
    var signed := fields + [Field(key, value)];
    if fields == [] {
      assert signed[1..] == [];
    } else {
      DeleteUndoesAppend(fields[1..], key, value);
      assert signed[0] == fields[0] && signed[1..] == fields[1..] + [Field(key, value)];
      assert fields == [fields[0]] + fields[1..];
    }
  }

  // ----- Package manifests ------------------------------------------------------------------

  /** A package.json without the checksum recorded inside it: what the checksum is taken over. */
  function WithoutChecksum(pkg: seq<Field>): seq<Field> {
    var scramjet := Lookup(pkg, "scramjet");
    var release := Delete(Spread(Member(scramjet, "release")), "packageChecksum");
    Set(pkg, "scramjet", Object(Set(Spread(scramjet), "release", Object(release))))
  }

  /** The text a package checksum is taken over. */
  function PackageText(pkg: seq<Field>): string {
    Canonical(Object(WithoutChecksum(pkg)))
  }

  function PackageChecksum(hash: Hasher, pkg: seq<Field>): string {
    Sha256(hash, PackageText(pkg))
  }

  function Released(pkg: seq<Field>, version: string, release: seq<Field>): seq<Field> {
    Set(Set(pkg, "version", String(version)), "scramjet",
        Object(Set(Spread(Lookup(pkg, "scramjet")), "release", Object(release))))
  }

  function ReleaseFields(digest: string, sourceChecksum: string): seq<Field> {
    [Field("identityDigest", String(digest)), Field("sourceChecksum", String(sourceChecksum))]
  }

  /** The package.json the annotator writes: version, identity and the checksum of all the rest. */
  function Annotated(
      hash: Hasher, pkg: seq<Field>, version: string, digest: string, sourceChecksum: string): seq<Field>
  {
    var release := ReleaseFields(digest, sourceChecksum);
    var checksum := PackageChecksum(hash, Released(pkg, version, release));
    Released(pkg, version, release + [Field("packageChecksum", String(checksum))])
  }

  /** Dropping the recorded checksum from a released manifest only touches its release record. */
  lemma {:induction false} UnsignedRelease(pkg: seq<Field>, version: string, release: seq<Field>)
    ensures WithoutChecksum(Released(pkg, version, release))
         == Released(pkg, version, Delete(release, "packageChecksum"))
  {
    var base, scramjet := Set(pkg, "version", String(version)), Spread(Lookup(pkg, "scramjet"));
    var signed, unsigned := Object(release), Object(Delete(release, "packageChecksum"));
    SetOverwrites(scramjet, "release", signed, unsigned);
    var outer, outer' := Object(Set(scramjet, "release", signed)), Object(Set(scramjet, "release", unsigned));
    SetOverwrites(base, "scramjet", outer, outer');
    assert Lookup(Set(base, "scramjet", outer), "scramjet") == Some(outer);
    assert Member(Some(outer), "release") == Some(signed);
  }

  lemma {:induction false} AppendLookup(fields: seq<Field>, key: string, value: Json, k: string)
    requires !Has(fields, key)
    ensures Lookup(fields + [Field(key, value)], k) == if k == key then Some(value) else Lookup(fields, k)
  {
    var signed := fields + [Field(key, value)];
    if fields == [] {
      assert signed[1..] == [];
    } else {
      AppendLookup(fields[1..], key, value, k);
      assert signed[0] == fields[0] && signed[1..] == fields[1..] + [Field(key, value)];
    }
  }

  lemma {:induction false} ReleaseFieldsAreUnsigned(digest: string, sourceChecksum: string)
    ensures !Has(ReleaseFields(digest, sourceChecksum), "packageChecksum")
    ensures Lookup(ReleaseFields(digest, sourceChecksum), "identityDigest") == Some(String(digest))
  {
    var release := ReleaseFields(digest, sourceChecksum);
    HasIsMembership(release, "packageChecksum");
    assert Keys(release) == ["identityDigest", "sourceChecksum"];
  }

  /** What the verifier reads back from an annotated manifest, checksum included. */
  lemma {:induction false} ReadBack(pkg: seq<Field>, version: string, release: seq<Field>, key: string)
    ensures Member(Member(Lookup(Released(pkg, version, release), "scramjet"), "release"), key) == Lookup(release, key)
    ensures Lookup(Released(pkg, version, release), "version") == Some(String(version))
    ensures Lookup(Released(pkg, version, release), "name") == Lookup(pkg, "name")
  {
    var base := Set(pkg, "version", String(version));
    var scramjet := Object(Set(Spread(Lookup(pkg, "scramjet")), "release", Object(release)));
    SetKeepsOthers(base, "scramjet", scramjet, "version");
    SetKeepsOthers(base, "scramjet", scramjet, "name");
    SetKeepsOthers(pkg, "version", String(version), "name");
  }

  /** The checksum stored in a package.json is the checksum of that very package.json. */
  lemma {:induction false} EmbeddedChecksumVerifies(
      hash: Hasher, pkg: seq<Field>, version: string, digest: string, sourceChecksum: string)
    ensures var written := Annotated(hash, pkg, version, digest, sourceChecksum);
      Member(Member(Lookup(written, "scramjet"), "release"), "packageChecksum")
      == Some(String(PackageChecksum(hash, written)))
  {
    var release := ReleaseFields(digest, sourceChecksum);
    var checksum := PackageChecksum(hash, Released(pkg, version, release));
    var signed := release + [Field("packageChecksum", String(checksum))];
    ReleaseFieldsAreUnsigned(digest, sourceChecksum);
    AppendLookup(release, "packageChecksum", String(checksum), "packageChecksum");
    DeleteUndoesAppend(release, "packageChecksum", String(checksum));
    UnsignedRelease(pkg, version, release);
    UnsignedRelease(pkg, version, signed);
    ReadBack(pkg, version, signed, "packageChecksum");
  }

  /** Two manifests share a checksum exactly when they agree in all but that checksum, or their texts collide. */
  lemma {:induction false} ChecksumCoversTheRest(hash: Hasher, p: seq<Field>, q: seq<Field>)
    requires WellFormed(Object(WithoutChecksum(p))) && WellFormed(Object(WithoutChecksum(q)))
    ensures PackageChecksum(hash, p) == PackageChecksum(hash, q)
      <==> Same(Object(WithoutChecksum(p)), Object(WithoutChecksum(q)))
           || Collide(hash, PackageText(p), PackageText(q))
  {
    SameDigest(hash, PackageText(p), PackageText(q));
    CanonicalTextIdentifiesValue(Object(WithoutChecksum(p)), Object(WithoutChecksum(q)));
  }

  // ----- Release identity and bundle manifest -----------------------------------------------

  datatype IdentityPackage = IdentityPackage(name: string, sourceChecksum: string, version: string)
  datatype Wave = Wave(number: nat, packages: seq<string>)
  datatype Identity = Identity(
    schema: string, repository: string, sha: string, node: string, npm: string,
    packages: seq<IdentityPackage>, waves: seq<Wave>)

  datatype PackageEntry = PackageEntry(
    name: string, version: string, sourceChecksum: string, packageChecksum: string, checksum: string, path: string)

  datatype Tarball = Tarball(
    package: string, version: string, packageChecksum: string, name: string, size: nat, sha256: string)

  datatype Bundle = Bundle(
    format: string, version: string, tag: string, branch: string, head: string, tree: string,
    repository: string, node: string, npm: string, sourceRepository: string, sourceSha: string,
    identity: Identity, identityDigest: string, packages: seq<PackageEntry>, waves: seq<Wave>,
    tarballs: seq<Tarball>, outerChecksum: string)

  const FORMAT := "transform-hub-main-release-v2"
  const IDENTITY_SCHEMA := "https://scramjet.org/transform-hub/release/identity/v2"
  const SOURCE_REPOSITORY := "https://github.com/scramjetorg/transform-hub"
  const DEFAULT_REPOSITORY := "scramjetorg/transform-hub"

  function Strings(names: seq<string>): Json {
    Array(seq(|names|, i requires 0 <= i < |names| => String(names[i])))
  }

  function WaveJson(wave: Wave): Json {
    Object([Field("number", Number(Decimal(wave.number))), Field("packages", Strings(wave.packages))])
  }

  function WavesJson(waves: seq<Wave>): Json {
    Array(seq(|waves|, i requires 0 <= i < |waves| => WaveJson(waves[i])))
  }

  function IdentityPackageJson(p: IdentityPackage): Json {
    Object([Field("name", String(p.name)), Field("sourceChecksum", String(p.sourceChecksum)),
      Field("version", String(p.version))])
  }

  function SourceJson(repository: string, sha: string): Json {
    Object([Field("repository", String(repository)), Field("sha", String(sha))])
  }

  function ToolchainJson(node: string, npm: string): Json {
    Object([Field("node", String(node)), Field("npm", String(npm))])
  }

  function IdentityJson(id: Identity): Json {
    Object([
      Field("schema", String(id.schema)),
      Field("source", SourceJson(id.repository, id.sha)),
      Field("toolchain", ToolchainJson(id.node, id.npm)),
      Field("packages",
        Array(seq(|id.packages|, i requires 0 <= i < |id.packages| => IdentityPackageJson(id.packages[i])))),
      Field("waves", WavesJson(id.waves))])
  }

  /** The text the identity digest is taken over. */
  function IdentityText(id: Identity): string {
    Canonical(IdentityJson(id))
  }

  function IdentityDigest(hash: Hasher, id: Identity): string {
    Sha256(hash, IdentityText(id))
  }

  function PackageEntryJson(p: PackageEntry): Json {
    Object([
      Field("name", String(p.name)), Field("version", String(p.version)),
      Field("sourceChecksum", String(p.sourceChecksum)), Field("packageChecksum", String(p.packageChecksum)),
      Field("checksum", String(p.checksum)), Field("path", String(p.path))])
  }

  function TarballJson(t: Tarball): Json {
    Object([
      Field("package", String(t.package)), Field("version", String(t.version)),
      Field("packageChecksum", String(t.packageChecksum)), Field("name", String(t.name)),
      Field("size", Number(Decimal(t.size))), Field("sha256", String(t.sha256))])
  }

  function UnsignedBundleFields(b: Bundle): seq<Field> {
    [Field("format", String(b.format)), Field("version", String(b.version)), Field("tag", String(b.tag)),
     Field("branch", String(b.branch)),
     Field("candidate", Object([Field("head", String(b.head)), Field("tree", String(b.tree))])),
     Field("repository", String(b.repository)), Field("toolchain", ToolchainJson(b.node, b.npm)),
     Field("source", SourceJson(b.sourceRepository, b.sourceSha)), Field("identity", IdentityJson(b.identity)),
     Field("identityDigest", String(b.identityDigest)),
     Field("packages", Array(seq(|b.packages|, i requires 0 <= i < |b.packages| => PackageEntryJson(b.packages[i])))),
     Field("waves", WavesJson(b.waves)),
     Field("tarballs", Array(seq(|b.tarballs|, i requires 0 <= i < |b.tarballs| => TarballJson(b.tarballs[i]))))]
  }

  function BundleFields(b: Bundle): seq<Field> {
    UnsignedBundleFields(b) + [Field("outerChecksum", String(b.outerChecksum))]
  }

  /** `checksumDocument(bundle, "outerChecksum")`: the digest of the document without that field. */
  function BundleChecksum(hash: Hasher, b: Bundle): string {
    Sha256(hash, Canonical(Object(Delete(BundleFields(b), "outerChecksum"))))
  }

  /** The outer checksum does not depend on what is already recorded in its own field. */
  lemma {:induction false} OuterChecksumIgnoresItself(hash: Hasher, b: Bundle, recorded: string)
    ensures BundleChecksum(hash, b.(outerChecksum := recorded)) == BundleChecksum(hash, b)
  {
    var fields := UnsignedBundleFields(b);
    HasIsMembership(fields, "outerChecksum");
    DeleteUndoesAppend(fields, "outerChecksum", String(b.outerChecksum));
    DeleteUndoesAppend(fields, "outerChecksum", String(recorded));
  }
}
