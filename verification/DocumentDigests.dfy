/**
 What the digests of scripts/release-main.js pin down: the identity digest fixes every field of a release
 identity, and the outer checksum every other field of a bundle, unless two printed texts collide.
 */
module DocumentDigests {
  import opened Common
  import opened CanonicalJson
  import opened ReleaseDocument
  import ReleaseVersions

  // ----- Records as JSON objects -------------------------------------------------------------------

  /** Objects with the same keys in the same order are the same exactly when their values are. */
  ghost predicate SameValues(f: seq<Field>, g: seq<Field>) {
    forall i :: 0 <= i < |f| && i < |g| ==> Same(f[i].value, g[i].value)
  }

  lemma {:induction false} GetAt(fields: seq<Field>, i: nat)
    requires i < |fields| && Distinct(Keys(fields))
    ensures Has(fields, fields[i].key) && Get(fields, fields[i].key) == fields[i].value
  {
    var keys := Keys(fields);
    HasIsMembership(fields, keys[i]);
    assert keys[i] in keys;
    if i > 0 {
      assert keys[0] != keys[i];
      assert Keys(fields[1..]) == keys[1..];
      GetAt(fields[1..], i - 1);
    }
  }

  lemma {:induction false} SameByPosition(f: seq<Field>, g: seq<Field>)
    requires Keys(f) == Keys(g) && Distinct(Keys(f)) && Same(Object(f), Object(g))
    ensures SameValues(f, g)
  {
    forall i | 0 <= i < |f| && i < |g| ensures Same(f[i].value, g[i].value) {
      GetAt(f, i);
      GetAt(g, i);
      assert Keys(f)[i] == Keys(g)[i];
    }
  }

  ghost predicate WellFormedValues(fields: seq<Field>) {
    forall i :: 0 <= i < |fields| ==> WellFormed(fields[i].value)
  }

  lemma {:induction false} WellFormedRecord(fields: seq<Field>)
    requires Distinct(Keys(fields)) && WellFormedValues(fields)
    ensures WellFormed(Object(fields))
  {
    forall f | f in fields ensures WellFormed(f.value) {
      var i :| 0 <= i < |fields| && fields[i] == f;
    }
  }

  lemma {:induction false} WellFormedList(items: seq<Json>)
    requires forall i :: 0 <= i < |items| ==> WellFormed(items[i])
    ensures WellFormed(Array(items))
  {
  }

  lemma {:induction false} DecimalIsInjective(m: nat, n: nat)
    ensures Decimal(m) == Decimal(n) <==> m == n
  {
    ReleaseVersions.DecimalIsNumber(m);
    ReleaseVersions.DecimalIsNumber(n);
  }

  lemma {:induction false} StringsDetermine(a: seq<string>, b: seq<string>)
    ensures WellFormed(Strings(a))
    ensures Same(Strings(a), Strings(b)) <==> a == b
  {
    WellFormedList(Strings(a).items);
    if Same(Strings(a), Strings(b)) {
      forall i | 0 <= i < |a| ensures a[i] == b[i] {
        assert Same(Strings(a).items[i], Strings(b).items[i]);
      }
    }
  }

  /** An object of texts under fixed keys. */
  function TextRecord(keys: seq<string>, texts: seq<string>): Json
    requires |keys| == |texts|
  {
    Object(seq(|keys|, i requires 0 <= i < |keys| => Field(keys[i], String(texts[i]))))
  }

  lemma {:induction false} TextsDetermine(keys: seq<string>, a: seq<string>, b: seq<string>)
    requires |keys| == |a| == |b| && Distinct(keys)
    ensures WellFormed(TextRecord(keys, a))
    ensures Same(TextRecord(keys, a), TextRecord(keys, b)) ==> a == b
  {
    var f, g := TextRecord(keys, a).fields, TextRecord(keys, b).fields;
    assert Keys(f) == Keys(g) == keys;
    WellFormedRecord(f);
    if Same(TextRecord(keys, a), TextRecord(keys, b)) {
      SameByPosition(f, g);
      forall i | 0 <= i < |a| ensures a[i] == b[i] {
        assert Same(f[i].value, g[i].value);
      }
    }
  }

  lemma {:induction false} WaveKeys(wave: Wave)
    ensures Distinct(["number", "packages"]) && Keys(WaveJson(wave).fields) == ["number", "packages"]
  {
    assert "number"[0] != "packages"[0];
  }

  lemma {:induction false} WaveIsWellFormed(wave: Wave)
    ensures WellFormed(WaveJson(wave))
  {
    WaveKeys(wave);
    StringsDetermine(wave.packages, wave.packages);
    WellFormedRecord(WaveJson(wave).fields);
  }

  lemma {:induction false} WaveDetermines(a: Wave, b: Wave)
    requires Same(WaveJson(a), WaveJson(b))
    ensures a == b
  {
    var f, g := WaveJson(a).fields, WaveJson(b).fields;
    WaveKeys(a);
    WaveKeys(b);
    SameByPosition(f, g);
    assert Same(f[0].value, g[0].value) && Same(f[1].value, g[1].value);
    StringsDetermine(a.packages, b.packages);
    DecimalIsInjective(a.number, b.number);
  }

  lemma {:induction false} WavesDetermine(a: seq<Wave>, b: seq<Wave>)
    ensures WellFormed(WavesJson(a))
    ensures Same(WavesJson(a), WavesJson(b)) ==> a == b
  {
    forall i | 0 <= i < |a| ensures WellFormed(WavesJson(a).items[i]) {
      WaveIsWellFormed(a[i]);
    }
    WellFormedList(WavesJson(a).items);
    if Same(WavesJson(a), WavesJson(b)) {
      forall i | 0 <= i < |a| ensures a[i] == b[i] {
        assert Same(WavesJson(a).items[i], WavesJson(b).items[i]);
        WaveDetermines(a[i], b[i]);
      }
    }
  }

  lemma {:induction false} SourceDetermines(r: string, s: string, r': string, s': string)
    ensures WellFormed(SourceJson(r, s))
    ensures Same(SourceJson(r, s), SourceJson(r', s')) ==> [r, s] == [r', s']
  {
    var keys := ["repository", "sha"];
    assert "repository"[0] != "sha"[0];
    TextsDetermine(keys, [r, s], [r', s']);
    assert SourceJson(r, s) == TextRecord(keys, [r, s]) && SourceJson(r', s') == TextRecord(keys, [r', s']);
  }

  lemma {:induction false} ToolchainDetermines(n: string, m: string, n': string, m': string)
    ensures WellFormed(ToolchainJson(n, m))
    ensures Same(ToolchainJson(n, m), ToolchainJson(n', m')) ==> [n, m] == [n', m']
  {
    var keys := ["node", "npm"];
    assert "node"[1] != "npm"[1];
    TextsDetermine(keys, [n, m], [n', m']);
    assert ToolchainJson(n, m) == TextRecord(keys, [n, m]) && ToolchainJson(n', m') == TextRecord(keys, [n', m']);
  }

  // ----- The release identity ----------------------------------------------------------------------

  lemma {:induction false} IdentityPackageDetermines(a: IdentityPackage, b: IdentityPackage)
    ensures WellFormed(IdentityPackageJson(a))
    ensures Same(IdentityPackageJson(a), IdentityPackageJson(b)) ==> a == b
  {
    var keys := ["name", "sourceChecksum", "version"];
    var s, t := [a.name, a.sourceChecksum, a.version], [b.name, b.sourceChecksum, b.version];
    TextsDetermine(keys, s, t);
    assert IdentityPackageJson(a) == TextRecord(keys, s) && IdentityPackageJson(b) == TextRecord(keys, t);
    assert s == t ==> s[0] == t[0] && s[1] == t[1] && s[2] == t[2];
  }

  function IdentityPackagesJson(packages: seq<IdentityPackage>): Json {
    Array(seq(|packages|, i requires 0 <= i < |packages| => IdentityPackageJson(packages[i])))
  }

  lemma {:induction false} IdentityPackagesDetermine(a: seq<IdentityPackage>, b: seq<IdentityPackage>)
    ensures WellFormed(IdentityPackagesJson(a))
    ensures Same(IdentityPackagesJson(a), IdentityPackagesJson(b)) ==> a == b
  {
    var items := IdentityPackagesJson(a).items;
    forall i | 0 <= i < |a| ensures WellFormed(items[i]) {
      IdentityPackageDetermines(a[i], a[i]);
    }
    WellFormedList(items);
    if Same(IdentityPackagesJson(a), IdentityPackagesJson(b)) {
      forall i | 0 <= i < |a| ensures a[i] == b[i] {
        assert Same(items[i], IdentityPackagesJson(b).items[i]);
        IdentityPackageDetermines(a[i], b[i]);
      }
    }
  }

  const IDENTITY_KEYS := ["schema", "source", "toolchain", "packages", "waves"]

  lemma {:induction false} IdentityKeys(id: Identity)
    ensures Keys(IdentityJson(id).fields) == IDENTITY_KEYS && Distinct(IDENTITY_KEYS)
    ensures IdentityJson(id).fields[3].value == IdentityPackagesJson(id.packages)
  {
    assert "schema"[1] != "source"[1];
    assert IdentityJson(id).fields[3].value.items == IdentityPackagesJson(id.packages).items;
  }

  lemma {:induction false} IdentityIsWellFormed(id: Identity)
    ensures WellFormed(IdentityJson(id))
  {
    var f := IdentityJson(id).fields;
    IdentityKeys(id);
    SourceDetermines(id.repository, id.sha, id.repository, id.sha);
    ToolchainDetermines(id.node, id.npm, id.node, id.npm);
    IdentityPackagesDetermine(id.packages, id.packages);
    WavesDetermine(id.waves, id.waves);
    assert WellFormed(f[0].value) && WellFormed(f[1].value) && WellFormed(f[2].value);
    assert WellFormed(f[3].value) && WellFormed(f[4].value) && |f| == 5;
    WellFormedRecord(f);
  }

  lemma {:induction false} IdentityDetermines(a: Identity, b: Identity)
    requires Same(IdentityJson(a), IdentityJson(b))
    ensures a == b
  {
    var f, g := IdentityJson(a).fields, IdentityJson(b).fields;
    IdentityKeys(a);
    IdentityKeys(b);
    SameByPosition(f, g);
    assert Same(f[0].value, g[0].value) && Same(f[1].value, g[1].value) && Same(f[2].value, g[2].value);
    assert Same(f[3].value, g[3].value) && Same(f[4].value, g[4].value);
    SourceDetermines(a.repository, a.sha, b.repository, b.sha);
    ToolchainDetermines(a.node, a.npm, b.node, b.npm);
    IdentityPackagesDetermine(a.packages, b.packages);
    WavesDetermine(a.waves, b.waves);
  }

  /** Two identities print the same text exactly when they are equal in every field. */
  lemma {:induction false} TextPinsIdentity(a: Identity, b: Identity)
    ensures IdentityText(a) == IdentityText(b) <==> a == b
  {
    if IdentityText(a) == IdentityText(b) {
      IdentityIsWellFormed(a);
      IdentityIsWellFormed(b);
      CanonicalTextIdentifiesValue(IdentityJson(a), IdentityJson(b));
      IdentityDetermines(a, b);
    }
  }

  /** Two identities share a digest exactly when they are equal in every field, or their texts collide. */
  lemma {:induction false} DigestPinsIdentity(hash: Hasher, a: Identity, b: Identity)
    ensures IdentityDigest(hash, a) == IdentityDigest(hash, b)
      <==> a == b || Collide(hash, IdentityText(a), IdentityText(b))
  {
    SameDigest(hash, IdentityText(a), IdentityText(b));
    TextPinsIdentity(a, b);
  }

  // ----- The bundle manifest -----------------------------------------------------------------------

  const ENTRY_KEYS := ["name", "version", "sourceChecksum", "packageChecksum", "checksum", "path"]

  const TARBALL_KEYS := ["package", "version", "packageChecksum", "name", "size", "sha256"]

  function EntryTexts(e: PackageEntry): seq<string> {
    [e.name, e.version, e.sourceChecksum, e.packageChecksum, e.checksum, e.path]
  }

  lemma {:induction false} EntryIsTextRecord(e: PackageEntry)
    ensures Distinct(ENTRY_KEYS) && |ENTRY_KEYS| == |EntryTexts(e)|
    ensures PackageEntryJson(e) == TextRecord(ENTRY_KEYS, EntryTexts(e))
  {
    assert "name"[0] != "path"[0];
  }

  lemma {:induction false} EntryDetermines(a: PackageEntry, b: PackageEntry)
    ensures WellFormed(PackageEntryJson(a))
    ensures Same(PackageEntryJson(a), PackageEntryJson(b)) ==> a == b
  {
    var s, t := EntryTexts(a), EntryTexts(b);
    EntryIsTextRecord(a);
    EntryIsTextRecord(b);
    TextsDetermine(ENTRY_KEYS, s, t);
    assert s == t ==> s[0] == t[0] && s[1] == t[1] && s[2] == t[2] && s[3] == t[3] && s[4] == t[4] && s[5] == t[5];
  }

  lemma {:induction false} TarballKeys(t: Tarball)
    ensures Distinct(TARBALL_KEYS) && Keys(TarballJson(t).fields) == TARBALL_KEYS
  {
    assert "package"[0] != "version"[0] && "name"[0] != "size"[0];
  }

  lemma {:induction false} TarballIsWellFormed(t: Tarball)
    ensures WellFormed(TarballJson(t))
  {
    TarballKeys(t);
    WellFormedRecord(TarballJson(t).fields);
  }

  lemma {:induction false} TarballDetermines(a: Tarball, b: Tarball)
    requires Same(TarballJson(a), TarballJson(b))
    ensures a == b
  {
    TarballKeys(a);
    TarballKeys(b);
    SameByPosition(TarballJson(a).fields, TarballJson(b).fields);
    TarballValuesDetermine(a, b);
  }

  lemma {:induction false} TarballValuesDetermine(a: Tarball, b: Tarball)
    requires SameValues(TarballJson(a).fields, TarballJson(b).fields)
    ensures a == b
  {
    var f, g := TarballJson(a).fields, TarballJson(b).fields;
    assert Same(f[0].value, g[0].value) && Same(f[1].value, g[1].value) && Same(f[2].value, g[2].value);
    assert Same(f[3].value, g[3].value) && Same(f[4].value, g[4].value) && Same(f[5].value, g[5].value);
    DecimalIsInjective(a.size, b.size);
  }

  function EntriesJson(entries: seq<PackageEntry>): Json {
    Array(seq(|entries|, i requires 0 <= i < |entries| => PackageEntryJson(entries[i])))
  }

  function TarballsJson(tarballs: seq<Tarball>): Json {
    Array(seq(|tarballs|, i requires 0 <= i < |tarballs| => TarballJson(tarballs[i])))
  }

  lemma {:induction false} EntriesDetermine(a: seq<PackageEntry>, b: seq<PackageEntry>)
    ensures WellFormed(EntriesJson(a))
    ensures Same(EntriesJson(a), EntriesJson(b)) ==> a == b
  {
    var items := EntriesJson(a).items;
    forall i | 0 <= i < |a| ensures WellFormed(items[i]) {
      EntryDetermines(a[i], a[i]);
    }
    WellFormedList(items);
    if Same(EntriesJson(a), EntriesJson(b)) {
      forall i | 0 <= i < |a| ensures a[i] == b[i] {
        assert Same(items[i], EntriesJson(b).items[i]);
        EntryDetermines(a[i], b[i]);
      }
    }
  }

  lemma {:induction false} TarballsDetermine(a: seq<Tarball>, b: seq<Tarball>)
    ensures WellFormed(TarballsJson(a))
    ensures Same(TarballsJson(a), TarballsJson(b)) ==> a == b
  {
    var items := TarballsJson(a).items;
    forall i | 0 <= i < |a| ensures WellFormed(items[i]) {
      TarballIsWellFormed(a[i]);
    }
    WellFormedList(items);
    if Same(TarballsJson(a), TarballsJson(b)) {
      forall i | 0 <= i < |a| ensures a[i] == b[i] {
        assert Same(items[i], TarballsJson(b).items[i]);
        TarballDetermines(a[i], b[i]);
      }
    }
  }

  function CandidateJson(head: string, tree: string): Json {
    Object([Field("head", String(head)), Field("tree", String(tree))])
  }

  lemma {:induction false} CandidateDetermines(h: string, t: string, h': string, t': string)
    ensures WellFormed(CandidateJson(h, t))
    ensures Same(CandidateJson(h, t), CandidateJson(h', t')) ==> [h, t] == [h', t']
  {
    var keys := ["head", "tree"];
    assert "head"[0] != "tree"[0];
    TextsDetermine(keys, [h, t], [h', t']);
    assert CandidateJson(h, t) == TextRecord(keys, [h, t]) && CandidateJson(h', t') == TextRecord(keys, [h', t']);
  }

  const BUNDLE_KEYS := [
    "format", "version", "tag", "branch", "candidate", "repository", "toolchain", "source", "identity",
    "identityDigest", "packages", "waves", "tarballs"]

  lemma {:induction false} BundleKeysDiffer()
    ensures Distinct(BUNDLE_KEYS)
  {
    assert "format"[0] != "branch"[0] && "format"[0] != "source"[0] && "branch"[0] != "source"[0];
    assert "candidate"[0] != "toolchain"[0];
    assert "identity"[0] != "packages"[0] && "identity"[0] != "tarballs"[0] && "packages"[0] != "tarballs"[0];
  }

  /** The bundle's values in the order of its keys. */
  function BundleValues(b: Bundle): seq<Json> {
    NamingValues(b) + OriginValues(b) + ContentValues(b)
  }

  function NamingValues(b: Bundle): seq<Json> {
    [String(b.format), String(b.version), String(b.tag), String(b.branch), CandidateJson(b.head, b.tree)]
  }

  function OriginValues(b: Bundle): seq<Json> {
    [String(b.repository), ToolchainJson(b.node, b.npm), SourceJson(b.sourceRepository, b.sourceSha),
     IdentityJson(b.identity)]
  }

  function ContentValues(b: Bundle): seq<Json> {
    [String(b.identityDigest), EntriesJson(b.packages), WavesJson(b.waves), TarballsJson(b.tarballs)]
  }

  lemma {:induction false} BundleKeysAre(b: Bundle)
    ensures Keys(UnsignedBundleFields(b)) == BUNDLE_KEYS && |BUNDLE_KEYS| == 13
  {
  }

  lemma {:induction false} BundleFieldsAre(b: Bundle)
    ensures Keys(UnsignedBundleFields(b)) == BUNDLE_KEYS && |BundleValues(b)| == |BUNDLE_KEYS| == 13
    ensures forall i :: 0 <= i < 13 ==> UnsignedBundleFields(b)[i].value == BundleValues(b)[i]
  {
    BundleKeysAre(b);
    assert UnsignedBundleFields(b)[10].value.items == EntriesJson(b.packages).items;
    assert UnsignedBundleFields(b)[12].value.items == TarballsJson(b.tarballs).items;
  }

  lemma {:induction false} NestedAreWellFormed(b: Bundle)
    ensures WellFormed(CandidateJson(b.head, b.tree)) && WellFormed(ToolchainJson(b.node, b.npm))
    ensures WellFormed(SourceJson(b.sourceRepository, b.sourceSha)) && WellFormed(IdentityJson(b.identity))
    ensures WellFormed(EntriesJson(b.packages)) && WellFormed(WavesJson(b.waves))
    ensures WellFormed(TarballsJson(b.tarballs))
  {
    CandidateDetermines(b.head, b.tree, b.head, b.tree);
    ToolchainDetermines(b.node, b.npm, b.node, b.npm);
    SourceDetermines(b.sourceRepository, b.sourceSha, b.sourceRepository, b.sourceSha);
    IdentityIsWellFormed(b.identity);
    EntriesDetermine(b.packages, b.packages);
    WavesDetermine(b.waves, b.waves);
    TarballsDetermine(b.tarballs, b.tarballs);
  }

  ghost predicate AllWellFormed(items: seq<Json>) {
    forall i :: 0 <= i < |items| ==> WellFormed(items[i])
  }

  lemma {:induction false} JoinWellFormed(s: seq<Json>, t: seq<Json>)
    requires AllWellFormed(s) && AllWellFormed(t)
    ensures AllWellFormed(s + t)
  {
  }

  lemma {:induction false} FourWellFormed(w: Json, x: Json, y: Json, z: Json)
    requires WellFormed(w) && WellFormed(x) && WellFormed(y) && WellFormed(z)
    ensures AllWellFormed([w, x, y, z])
  {
  }

  lemma {:induction false} FiveWellFormed(v: Json, w: Json, x: Json, y: Json, z: Json)
    requires WellFormed(v) && WellFormed(w) && WellFormed(x) && WellFormed(y) && WellFormed(z)
    ensures AllWellFormed([v, w, x, y, z])
  {
  }

  lemma {:induction false} BundleValuesAreWellFormed(b: Bundle)
    ensures AllWellFormed(BundleValues(b))
  {
    NestedAreWellFormed(b);
    FiveWellFormed(
      String(b.format), String(b.version), String(b.tag), String(b.branch), CandidateJson(b.head, b.tree));
    FourWellFormed(
      String(b.repository), ToolchainJson(b.node, b.npm), SourceJson(b.sourceRepository, b.sourceSha),
      IdentityJson(b.identity));
    FourWellFormed(
      String(b.identityDigest), EntriesJson(b.packages), WavesJson(b.waves), TarballsJson(b.tarballs));
    JoinWellFormed(NamingValues(b), OriginValues(b));
    JoinWellFormed(NamingValues(b) + OriginValues(b), ContentValues(b));
  }

  lemma {:induction false} BundleIsWellFormed(b: Bundle)
    ensures WellFormed(Object(UnsignedBundleFields(b)))
  {
    BundleKeysDiffer();
    BundleFieldsAre(b);
    BundleValuesAreWellFormed(b);
    WellFormedRecord(UnsignedBundleFields(b));
  }

  /** Two bundles agree in everything but the outer checksum recorded in them. */
  predicate SameBut(a: Bundle, b: Bundle) {
    a == b.(outerChecksum := a.outerChecksum)
  }

  ghost predicate SameItems(s: seq<Json>, t: seq<Json>) {
    |s| == |t| && forall i :: 0 <= i < |s| ==> Same(s[i], t[i])
  }

  lemma {:induction false} SplitSame(s: seq<Json>, t: seq<Json>, s': seq<Json>, t': seq<Json>)
    requires |s| == |s'| && SameItems(s + t, s' + t')
    ensures SameItems(s, s') && SameItems(t, t')
  {
    forall i | 0 <= i < |s| ensures Same(s[i], s'[i]) {
      assert Same((s + t)[i], (s' + t')[i]);
    }
    forall i | 0 <= i < |t| ensures Same(t[i], t'[i]) {
      assert Same((s + t)[|s| + i], (s' + t')[|s| + i]);
    }
  }

  lemma {:induction false} NamingDetermines(a: Bundle, b: Bundle)
    requires SameItems(NamingValues(a), NamingValues(b))
    ensures [a.format, a.version, a.tag, a.branch, a.head, a.tree]
      == [b.format, b.version, b.tag, b.branch, b.head, b.tree]
  {
    var v, w := NamingValues(a), NamingValues(b);
    assert Same(v[0], w[0]) && Same(v[1], w[1]) && Same(v[2], w[2]) && Same(v[3], w[3]) && Same(v[4], w[4]);
    CandidateDetermines(a.head, a.tree, b.head, b.tree);
  }

  lemma {:induction false} OriginDetermines(a: Bundle, b: Bundle)
    requires SameItems(OriginValues(a), OriginValues(b))
    ensures [a.repository, a.node, a.npm, a.sourceRepository, a.sourceSha]
      == [b.repository, b.node, b.npm, b.sourceRepository, b.sourceSha]
    ensures a.identity == b.identity
  {
    var v, w := OriginValues(a), OriginValues(b);
    assert Same(v[0], w[0]) && Same(v[1], w[1]) && Same(v[2], w[2]) && Same(v[3], w[3]);
    ToolchainDetermines(a.node, a.npm, b.node, b.npm);
    SourceDetermines(a.sourceRepository, a.sourceSha, b.sourceRepository, b.sourceSha);
    IdentityDetermines(a.identity, b.identity);
  }

  lemma {:induction false} ContentDetermines(a: Bundle, b: Bundle)
    requires SameItems(ContentValues(a), ContentValues(b))
    ensures a.identityDigest == b.identityDigest && a.packages == b.packages
    ensures a.waves == b.waves && a.tarballs == b.tarballs
  {
    var v, w := ContentValues(a), ContentValues(b);
    assert Same(v[0], w[0]) && Same(v[1], w[1]) && Same(v[2], w[2]) && Same(v[3], w[3]);
    EntriesDetermine(a.packages, b.packages);
    WavesDetermine(a.waves, b.waves);
    TarballsDetermine(a.tarballs, b.tarballs);
  }

  lemma {:induction false} ValuesDetermine(a: Bundle, b: Bundle)
    requires SameItems(BundleValues(a), BundleValues(b))
    ensures SameBut(a, b)
  {
    SplitSame(NamingValues(a) + OriginValues(a), ContentValues(a), NamingValues(b) + OriginValues(b), ContentValues(b));
    SplitSame(NamingValues(a), OriginValues(a), NamingValues(b), OriginValues(b));
    NamingDetermines(a, b);
    OriginDetermines(a, b);
    ContentDetermines(a, b);
    SameFieldByField(a, b);
  }

  lemma {:induction false} SameFieldByField(a: Bundle, b: Bundle)
    requires [a.format, a.version, a.tag, a.branch, a.head, a.tree]
      == [b.format, b.version, b.tag, b.branch, b.head, b.tree]
    requires [a.repository, a.node, a.npm, a.sourceRepository, a.sourceSha]
      == [b.repository, b.node, b.npm, b.sourceRepository, b.sourceSha]
    requires a.identity == b.identity && a.identityDigest == b.identityDigest && a.packages == b.packages
    requires a.waves == b.waves && a.tarballs == b.tarballs
    ensures SameBut(a, b)
  {
    var n, m := [a.format, a.version, a.tag, a.branch, a.head, a.tree],
                [b.format, b.version, b.tag, b.branch, b.head, b.tree];
    assert n[0] == m[0] && n[1] == m[1] && n[2] == m[2] && n[3] == m[3] && n[4] == m[4] && n[5] == m[5];
    var o, p := [a.repository, a.node, a.npm, a.sourceRepository, a.sourceSha],
                [b.repository, b.node, b.npm, b.sourceRepository, b.sourceSha];
    assert o[0] == p[0] && o[1] == p[1] && o[2] == p[2] && o[3] == p[3] && o[4] == p[4];
  }

  lemma {:induction false} BundleDetermines(a: Bundle, b: Bundle)
    requires Same(Object(UnsignedBundleFields(a)), Object(UnsignedBundleFields(b)))
    ensures SameBut(a, b)
  {
    var f, g := UnsignedBundleFields(a), UnsignedBundleFields(b);
    BundleKeysDiffer();
    BundleFieldsAre(a);
    BundleFieldsAre(b);
    SameByPosition(f, g);
    var v, w := BundleValues(a), BundleValues(b);
    forall i | 0 <= i < |v| ensures Same(v[i], w[i]) {
      assert Same(f[i].value, g[i].value);
    }
    ValuesDetermine(a, b);
  }

  lemma {:induction false} NotAmongKeys()
    ensures "outerChecksum" !in BUNDLE_KEYS
  {
    forall i | 0 <= i < |BUNDLE_KEYS| ensures |BUNDLE_KEYS[i]| != |"outerChecksum"| {
    }
  }

  /** The text the outer checksum is taken over. */
  function BundleText(b: Bundle): string {
    Canonical(Object(UnsignedBundleFields(b)))
  }

  lemma {:induction false} ChecksumIsOfTheRest(hash: Hasher, b: Bundle)
    ensures BundleChecksum(hash, b) == Sha256(hash, BundleText(b))
  {
    var fields := UnsignedBundleFields(b);
    BundleFieldsAre(b);
    NotAmongKeys();
    HasIsMembership(fields, "outerChecksum");
    DeleteUndoesAppend(fields, "outerChecksum", String(b.outerChecksum));
  }

  /** Two bundles print the same text exactly when they agree in everything but the recorded checksum. */
  lemma {:induction false} TextPinsBundle(a: Bundle, b: Bundle)
    ensures BundleText(a) == BundleText(b) <==> SameBut(a, b)
  {
    if BundleText(a) == BundleText(b) {
      BundleIsWellFormed(a);
      BundleIsWellFormed(b);
      CanonicalTextIdentifiesValue(Object(UnsignedBundleFields(a)), Object(UnsignedBundleFields(b)));
      BundleDetermines(a, b);
    }
  }

  /** Two bundles share an outer checksum exactly when every other field is equal, or their texts collide. */
  lemma {:induction false} ChecksumPinsBundle(hash: Hasher, a: Bundle, b: Bundle)
    ensures BundleChecksum(hash, a) == BundleChecksum(hash, b)
      <==> SameBut(a, b) || Collide(hash, BundleText(a), BundleText(b))
  {
    ChecksumIsOfTheRest(hash, a);
    ChecksumIsOfTheRest(hash, b);
    SameDigest(hash, BundleText(a), BundleText(b));
    TextPinsBundle(a, b);
  }
}
