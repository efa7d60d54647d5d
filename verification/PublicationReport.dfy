/** The publication document of scripts/release-main.js and what its checksum covers. */
module PublicationReport {
  import opened Common
  import opened CanonicalJson
  import opened ReleaseDocument
  import opened DocumentDigests

  datatype WaveResult = WaveResult(number: nat, published: seq<string>, reused: seq<string>)

  datatype Document = Document(
    format: string, identityDigest: string, publicationVerified: bool, waves: seq<WaveResult>, checksum: string)

  const PUBLICATION_FORMAT := "transform-hub-main-release-publication-v2"

  function WaveResultJson(w: WaveResult): Json {
    Object([Field("number", Number(Decimal(w.number))), Field("published", Strings(w.published)),
            Field("reused", Strings(w.reused))])
  }

  function WaveResultsJson(waves: seq<WaveResult>): Json {
    Array(seq(|waves|, i requires 0 <= i < |waves| => WaveResultJson(waves[i])))
  }

  function DocumentFields(identityDigest: string, waves: seq<WaveResult>): seq<Field> {
    [Field("format", String(PUBLICATION_FORMAT)), Field("identityDigest", String(identityDigest)),
     Field("publicationVerified", Bool(true)), Field("waves", WaveResultsJson(waves))]
  }

  /** The text the publication checksum is taken over. */
  function DocumentText(identityDigest: string, waves: seq<WaveResult>): string {
    Canonical(Object(DocumentFields(identityDigest, waves)))
  }

  function DocumentFor(hash: Hasher, identityDigest: string, waves: seq<WaveResult>): Document {
    Document(PUBLICATION_FORMAT, identityDigest, true, waves, Sha256(hash, DocumentText(identityDigest, waves)))
  }

  lemma {:induction false} ResultKeys(w: WaveResult)
    ensures Distinct(["number", "published", "reused"])
    ensures Keys(WaveResultJson(w).fields) == ["number", "published", "reused"]
  {
    assert "number"[0] != "reused"[0];
  }

  lemma {:induction false} ResultIsWellFormed(w: WaveResult)
    ensures WellFormed(WaveResultJson(w))
  {
    ResultKeys(w);
    StringsDetermine(w.published, w.published);
    StringsDetermine(w.reused, w.reused);
    WellFormedRecord(WaveResultJson(w).fields);
  }

  lemma {:induction false} ResultDetermines(a: WaveResult, b: WaveResult)
    requires Same(WaveResultJson(a), WaveResultJson(b))
    ensures a == b
  {
    var f, g := WaveResultJson(a).fields, WaveResultJson(b).fields;
    ResultKeys(a);
    ResultKeys(b);
    SameByPosition(f, g);
    assert Same(f[0].value, g[0].value) && Same(f[1].value, g[1].value) && Same(f[2].value, g[2].value);
    StringsDetermine(a.published, b.published);
    StringsDetermine(a.reused, b.reused);
    DecimalIsInjective(a.number, b.number);
  }

  lemma {:induction false} ResultsDetermine(a: seq<WaveResult>, b: seq<WaveResult>)
    ensures WellFormed(WaveResultsJson(a))
    ensures Same(WaveResultsJson(a), WaveResultsJson(b)) ==> a == b
  {
    var items := WaveResultsJson(a).items;
    forall i | 0 <= i < |a| ensures WellFormed(items[i]) {
      ResultIsWellFormed(a[i]);
    }
    WellFormedList(items);
    if Same(WaveResultsJson(a), WaveResultsJson(b)) {
      forall i | 0 <= i < |a| ensures a[i] == b[i] {
        assert Same(items[i], WaveResultsJson(b).items[i]);
        ResultDetermines(a[i], b[i]);
      }
    }
  }

  lemma {:induction false} DocumentKeys(identityDigest: string, waves: seq<WaveResult>)
    ensures Distinct(["format", "identityDigest", "publicationVerified", "waves"])
    ensures Keys(DocumentFields(identityDigest, waves)) == ["format", "identityDigest", "publicationVerified", "waves"]
  {
  }

  lemma {:induction false} DocumentIsWellFormed(identityDigest: string, waves: seq<WaveResult>)
    ensures WellFormed(Object(DocumentFields(identityDigest, waves)))
  {
    DocumentKeys(identityDigest, waves);
    ResultsDetermine(waves, waves);
    WellFormedRecord(DocumentFields(identityDigest, waves));
  }

  lemma {:induction false} DocumentDetermines(
      digest: string, waves: seq<WaveResult>, other: string, others: seq<WaveResult>)
    requires Same(Object(DocumentFields(digest, waves)), Object(DocumentFields(other, others)))
    ensures digest == other && waves == others
  {
    var f, g := DocumentFields(digest, waves), DocumentFields(other, others);
    DocumentKeys(digest, waves);
    DocumentKeys(other, others);
    SameByPosition(f, g);
    assert Same(f[1].value, g[1].value) && Same(f[3].value, g[3].value);
    ResultsDetermine(waves, others);
  }

  lemma {:induction false} TextPinsPublication(
      digest: string, waves: seq<WaveResult>, other: string, others: seq<WaveResult>)
    ensures DocumentText(digest, waves) == DocumentText(other, others) <==> digest == other && waves == others
  {
    if DocumentText(digest, waves) == DocumentText(other, others) {
      DocumentIsWellFormed(digest, waves);
      DocumentIsWellFormed(other, others);
      CanonicalTextIdentifiesValue(Object(DocumentFields(digest, waves)), Object(DocumentFields(other, others)));
      DocumentDetermines(digest, waves, other, others);
    }
  }

  /**
   Two publication documents share a checksum exactly when they are about the same release and say the same of
   every wave, or their texts collide.
   */
  lemma {:induction false} ChecksumPinsPublication(
      hash: Hasher, digest: string, waves: seq<WaveResult>, other: string, others: seq<WaveResult>)
    ensures DocumentFor(hash, digest, waves).checksum == DocumentFor(hash, other, others).checksum
      <==> (digest == other && waves == others)
           || Collide(hash, DocumentText(digest, waves), DocumentText(other, others))
  {
    SameDigest(hash, DocumentText(digest, waves), DocumentText(other, others));
    TextPinsPublication(digest, waves, other, others);
  }

  /** Under which names the document carries what, and which text its checksum is of. */
  lemma {:induction false} DocumentReads(hash: Hasher, digest: string, waves: seq<WaveResult>)
    ensures var document, json := DocumentFor(hash, digest, waves), Some(Object(DocumentFields(digest, waves)));
      && document.format == "transform-hub-main-release-publication-v2" && document.identityDigest == digest
      && document.publicationVerified && document.waves == waves
      && document.checksum == "sha256:" + hash(Canonical(json.value))
      && Member(json, "format") == Some(String(document.format))
      && Member(json, "identityDigest") == Some(String(digest))
      && Member(json, "publicationVerified") == Some(Bool(true))
      && Member(json, "waves") == Some(WaveResultsJson(waves))
  {
    assert "format"[0] != "waves"[0] && "identityDigest"[0] != "waves"[0];
    var fields := DocumentFields(digest, waves);
    DocumentKeys(digest, waves);
    LookupAt(fields, 0);
    LookupAt(fields, 1);
    LookupAt(fields, 2);
    LookupAt(fields, 3);
  }

  lemma {:induction false} ResultReads(waves: seq<WaveResult>, i: nat)
    requires i < |waves|
    ensures |WaveResultsJson(waves).items| == |waves|
    ensures var json := Some(WaveResultsJson(waves).items[i]);
      && Member(json, "number") == Some(Number(Decimal(waves[i].number)))
      && Member(json, "published") == Some(Strings(waves[i].published))
      && Member(json, "reused") == Some(Strings(waves[i].reused))
  {
    var fields := WaveResultJson(waves[i]).fields;
    ResultKeys(waves[i]);
    LookupAt(fields, 0);
    LookupAt(fields, 1);
    LookupAt(fields, 2);
  }

  lemma {:induction false} LookupAt(fields: seq<Field>, i: nat)
    requires i < |fields| && Distinct(Keys(fields))
    ensures Lookup(fields, fields[i].key) == Some(fields[i].value)
  {
    if i > 0 {
      var rest := fields[1..];
      assert Keys(fields)[0] != Keys(fields)[i];
      assert Keys(rest) == Keys(fields)[1..];
      LookupAt(rest, i - 1);
    }
  }
}
