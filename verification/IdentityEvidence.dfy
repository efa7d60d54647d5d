/**
 What a resolved publication identity says about the invocation, the repository and its host
 (resolvePublicationIdentity and publicationBindings of scripts/release-main.js), field by field.
 */
module IdentityEvidence {
  import opened Common
  import opened PublicationIdentity
  import ReleaseDocument
  import ReleaseText
  import ReleaseVersions

  /** A pull request that merged the release branch of the repository into main as this commit. */
  predicate IsReleasePull(p: Pull, version: string, commit: string) {
    && p.mergedAt != "" && |p.mergeCommit| == 40 && ReleaseText.Lower(p.mergeCommit) == commit
    && p.baseRef == "main" && p.baseRepository == "scramjetorg/transform-hub"
    && p.headRepository == "scramjetorg/transform-hub" && p.headRef == "release/" + version
  }

  /** A commit hash in small letters, whatever letters it was given in. */
  predicate IsHash(sha: string, given: string) {
    && |given| == 40 && sha == ReleaseText.Lower(given)
    && forall i :: 0 <= i < |sha| ==> ReleaseDocument.IsHexDigit(sha[i])
  }

  lemma {:induction false} CanonicalIsHash(given: string)
    ensures ReleaseText.CanonicalSha(given).Some? ==> IsHash(ReleaseText.CanonicalSha(given).value, given)
  {
  }

  /** How the mode follows from the event, and what the recovery inputs ask for. */
  lemma {:induction false} ResolvedMode(i: Invocation, w: World)
    requires Resolve(i, w).Some?
    ensures var d := Resolve(i, w).value;
      && i.repository == d.repository == "scramjetorg/transform-hub" && i.token != ""
      && d.tag == "v" + d.version && d.branch == "release/" + d.version && w.packageVersion == Some(d.version)
      && ReleaseVersions.IsStable(d.version)
    ensures var d := Resolve(i, w).value;
      match d.mode
      case TagPush =>
        && i.event == "push" && i.gitRef == "refs/tags/" + d.tag && d.expectedBundleChecksum == None
        && d.tagCommitSha == d.executionSha
      case Recovery =>
        && i.event == "workflow_dispatch" && i.gitRef == "refs/heads/main" && i.isProtected && i.stableTag == d.tag
        && |i.expectedTagSha| == 40 && d.tagCommitSha == ReleaseText.Lower(i.expectedTagSha) && w.tagIsAncestor
        && d.expectedBundleChecksum
           == (if i.expectedBundleChecksum == "" then None else Some(ReleaseText.Lower(i.expectedBundleChecksum)))
        && (i.expectedBundleChecksum != "" ==> ReleaseText.IsDigest(i.expectedBundleChecksum))
  {
    RequestHolds(i);
    if i.event == "push" {
      assert i.gitRef == i.gitRef[..10] + i.gitRef[10..];
    }
  }

  /** The commits and trees: all that git shows agrees with the invocation and with each other. */
  lemma {:induction false} ResolvedCommits(i: Invocation, w: World)
    requires Resolve(i, w).Some?
    ensures var d := Resolve(i, w).value;
      && IsHash(d.executionSha, i.executionSha) && IsHash(d.executionSha, w.head) && IsHash(d.executionSha, w.main)
      && IsHash(d.tagObjectSha, w.tagObject) && IsHash(d.tagCommitSha, w.tagCommit)
      && IsHash(d.tagTree, w.tagTree) && d.candidateTree == d.tagTree
      && IsHash(d.candidateTree, w.treeOf(d.candidateHead))
  {
    CanonicalIsHash(i.executionSha);
    CanonicalIsHash(w.head);
    CanonicalIsHash(w.main);
    CanonicalIsHash(w.tagObject);
    CanonicalIsHash(w.tagCommit);
    CanonicalIsHash(w.tagTree);
    CanonicalIsHash(w.treeOf(Resolve(i, w).value.candidateHead));
  }

  /** The pull request is the only one that merged the release, and its head is the candidate. */
  lemma {:induction false} ResolvedPull(i: Invocation, w: World) returns (k: nat)
    requires Resolve(i, w).Some?
    ensures var d := Resolve(i, w).value;
      && k < |w.pulls| && IsReleasePull(w.pulls[k], d.version, d.tagCommitSha)
      && (forall j :: 0 <= j < |w.pulls| && j != k ==> !IsReleasePull(w.pulls[j], d.version, d.tagCommitSha))
      && IsHash(d.candidateHead, w.pulls[k].headSha) && CanonicalId(w.pulls[k].number) == Some(d.prNumber)
  {
    var d := Resolve(i, w).value;
    var keep := MatchesPull(d.version, d.tagCommitSha);
    KeptOne(keep, w.pulls);
    var only :| 0 <= only < |w.pulls| && OnlyAt(keep, w.pulls, only);
    k := only;
    CanonicalIsHash(w.pulls[k].headSha);
    CanonicalIsHash(w.tagCommit);
    forall j | 0 <= j < |w.pulls| ensures IsReleasePull(w.pulls[j], d.version, d.tagCommitSha) <==> keep(w.pulls[j]) {
      SameHash(w.pulls[j].mergeCommit, d.tagCommitSha);
    }
  }

  lemma {:induction false} SameHash(given: string, sha: string)
    requires forall i :: 0 <= i < |sha| ==> ReleaseDocument.IsHexDigit(sha[i])
    ensures |given| == 40 && ReleaseText.Lower(given) == sha
      <==> ReleaseText.IsSha(given) && ReleaseText.Lower(given) == sha
  {
  }

  /** The release is the only one of its tag; it is no prerelease, and a recovery asks for a public one. */
  lemma {:induction false} ResolvedRelease(i: Invocation, w: World) returns (k: nat)
    requires Resolve(i, w).Some?
    ensures var d := Resolve(i, w).value;
      && k < |w.releases| && w.releases[k].tag == d.tag
      && (forall j :: 0 <= j < |w.releases| && j != k ==> w.releases[j].tag != d.tag)
      && CanonicalId(w.releases[k].id) == Some(d.releaseId)
      && w.releases[k].draft == d.releaseDraft && !w.releases[k].prerelease && (d.mode.Recovery? ==> !d.releaseDraft)
  {
    var d := Resolve(i, w).value;
    var keep := HasTag(d.tag);
    KeptOne(keep, w.releases);
    var only :| 0 <= only < |w.releases| && OnlyAt(keep, w.releases, only);
    k := only;
  }

  predicate IsHex40(sha: string) {
    |sha| == 40 && ReleaseDocument.IsHex(ReleaseText.Lower(sha))
  }

  // ----- How a paginated read ends ----------------------------------------------------------------------------

  function Flat<Row>(pages: seq<seq<Row>>): seq<Row> {
    if pages == [] then [] else Flat(pages[..|pages| - 1]) + pages[|pages| - 1]
  }

  /** The answers that bring these pages, each with its number of rows. */
  function Served<Row>(pages: seq<seq<Row>>): (answers: seq<Answer<Row>>)
    ensures |answers| == |pages|
  {
    seq(|pages|, i requires 0 <= i < |pages| => Envelope(Some(|pages[i]|), Some(pages[i])))
  }

  lemma {:induction false} FullUntilIs<Row>(answers: seq<Answer<Row>>, size: nat, i: nat, n: nat)
    requires i <= n <= |answers| && (forall k :: i <= k < n ==> IsFull(answers[k], size))
    requires n < |answers| ==> !IsFull(answers[n], size)
    ensures FullUntil(answers, size, i) == n
    decreases n - i
  {
    if i < n {
      FullUntilIs(answers, size, i + 1, n);
    }
  }

  lemma {:induction false} RowsAreFlat<Row>(pages: seq<seq<Row>>, answers: seq<Answer<Row>>, size: nat, n: nat)
    requires n <= |pages| && Served(pages) <= answers && forall k :: 0 <= k < |pages| ==> |pages[k]| == size
    ensures RowsOf(answers, size, n) == Flat(pages[..n])
  {
    if n > 0 {
      RowsAreFlat(pages, answers, size, n - 1);
      assert answers[n - 1] == Served(pages)[n - 1];
      assert pages[..n][..n - 1] == pages[..n - 1];
    }
  }

  lemma {:induction false} ServedAreFull<Row>(pages: seq<seq<Row>>, answers: seq<Answer<Row>>, size: nat)
    requires Served(pages) <= answers && forall k :: 0 <= k < |pages| ==> |pages[k]| == size
    ensures forall k :: 0 <= k < |pages| ==> IsFull(answers[k], size)
  {
    forall k | 0 <= k < |pages| ensures IsFull(answers[k], size) {
      assert answers[k] == Served(pages)[k];
    }
  }

  /** After full pages and one short one the kept rows of all are returned, unless they are too many. */
  lemma {:induction false} ShortPageEnds<Row>(
      pages: seq<seq<Row>>, last: seq<Row>, later: seq<Answer<Row>>, size: nat, keep: Row -> bool, maxItems: nat)
    requires |last| < size && forall k :: 0 <= k < |pages| ==> |pages[k]| == size
    ensures var kept := Kept(keep, Flat(pages) + last);
      PublicationIdentity.Outcome(Served(pages) + [Envelope(Some(|last|), Some(last))] + later, size, keep, maxItems)
      == if |kept| <= maxItems then Rows(kept) else Overflow
  {
    var n, next := |pages|, Envelope(Some(|last|), Some(last));
    var answers := Served(pages) + [next] + later;
    assert answers[n] == next && pages[..n] == pages;
    ServedAreFull(pages, answers, size);
    FullUntilIs(answers, size, 0, n);
    RowsAreFlat(pages, answers, size, n);
  }

  lemma {:induction false} PageIsEnvelope<Row>(answer: Answer<Row>, size: nat)
    requires IsPage(answer, size)
    ensures exists items: seq<Row> :: |items| <= size && answer == Envelope(Some(|items|), Some(items))
  {
    var items := answer.items.value;
    assert |items| <= size && answer == Envelope(Some(|items|), Some(items));
  }

  /** After full pages an answer that is no envelope with as many rows as it says, at most a page, is refused. */
  lemma {:induction false} BadAnswerIsRefused<Row>(
      pages: seq<seq<Row>>, next: Answer<Row>, later: seq<Answer<Row>>, size: nat, keep: Row -> bool, maxItems: nat)
    requires forall k :: 0 <= k < |pages| ==> |pages[k]| == size
    requires forall items: seq<Row> :: |items| <= size ==> next != Envelope(Some(|items|), Some(items))
    ensures PublicationIdentity.Outcome(Served(pages) + [next] + later, size, keep, maxItems)
      == if |Kept(keep, Flat(pages))| <= maxItems then Refused else Overflow
  {
    var n := |pages|;
    var answers := Served(pages) + [next] + later;
    assert answers[n] == next && pages[..n] == pages;
    ServedAreFull(pages, answers, size);
    if IsPage(next, size) {
      PageIsEnvelope(next, size);
    }
    FullUntilIs(answers, size, 0, n);
    RowsAreFlat(pages, answers, size, n);
    AddNothing(Flat(pages));
  }

  /** Full pages alone do not end a read, unless the rows kept are too many. */
  lemma {:induction false} FullPagesGoOn<Row>(pages: seq<seq<Row>>, size: nat, keep: Row -> bool, maxItems: nat)
    requires forall k :: 0 <= k < |pages| ==> |pages[k]| == size
    ensures PublicationIdentity.Outcome(Served(pages), size, keep, maxItems)
      == if |Kept(keep, Flat(pages))| <= maxItems then Reading else Overflow
  {
    ServedAreFull(pages, Served(pages), size);
    FullUntilIs(Served(pages), size, 0, |pages|);
    RowsAreFlat(pages, Served(pages), size, |pages|);
    assert pages[..|pages|] == pages;
  }

  // ----- Which invocations are resolved ---------------------------------------------------------------------

  /** Two spellings of one commit hash. */
  predicate SameCommit(a: string, b: string) {
    IsHex40(a) && IsHex40(b) && ReleaseText.Lower(a) == ReleaseText.Lower(b)
  }

  /** A pushed tag of the version. */
  predicate AsksToPublish(i: Invocation, version: string) {
    i.event == "push" && i.gitRef == "refs/tags/v" + version
  }

  /** A dispatch on the protected main branch that names the version's tag and its commit, and maybe a bundle. */
  predicate AsksToRecover(i: Invocation, version: string) {
    && i.event == "workflow_dispatch" && i.gitRef == "refs/heads/main" && i.isProtected && i.stableTag == "v" + version
    && IsHex40(i.expectedTagSha)
    && (i.expectedBundleChecksum == "" || ReleaseText.IsDigest(i.expectedBundleChecksum))
  }

  /** The checkout is main at the executed commit, and the tag is that commit, or the recorded one on main. */
  predicate CommitsAgree(i: Invocation, w: World, version: string) {
    && SameCommit(w.head, i.executionSha) && SameCommit(w.main, i.executionSha) && IsHex40(w.tagObject)
    && (if i.event == "push" then SameCommit(w.tagCommit, i.executionSha)
        else SameCommit(w.tagCommit, i.expectedTagSha) && w.tagIsAncestor)
    && w.packageVersion == Some(version)
  }

  /** Pull request k alone merged the release, release m alone has its tag, and candidate and tag have one tree. */
  ghost predicate Singles(i: Invocation, w: World, version: string, k: nat, m: nat) {
    && k < |w.pulls| && m < |w.releases|
    && (forall j :: 0 <= j < |w.pulls| ==>
          (IsReleasePull(w.pulls[j], version, ReleaseText.Lower(w.tagCommit)) <==> j == k))
    && (forall j :: 0 <= j < |w.releases| ==> (w.releases[j].tag == "v" + version <==> j == m))
    && CanonicalId(w.pulls[k].number).Some? && CanonicalId(w.releases[m].id).Some?
    && !w.releases[m].prerelease && (i.event != "push" ==> !w.releases[m].draft)
    && IsHex40(w.pulls[k].headSha) && SameCommit(w.treeOf(ReleaseText.Lower(w.pulls[k].headSha)), w.tagTree)
  }

  ghost predicate Resolvable(i: Invocation, w: World, version: string) {
    && ReleaseVersions.IsStable(version) && (AsksToPublish(i, version) || AsksToRecover(i, version))
    && CommitsAgree(i, w, version) && exists k: nat, m: nat :: Singles(i, w, version, k, m)
  }

  lemma {:induction false} HashIsSha(sha: string)
    ensures ReleaseText.CanonicalSha(sha) == if IsHex40(sha) then Some(ReleaseText.Lower(sha)) else None
  {
  }

  lemma {:induction false} RequestedExactly(i: Invocation, version: string)
    requires ReleaseVersions.IsStable(version)
    ensures AsksToPublish(i, version) ==> Requested(i) == Some(Request(TagPush, "v" + version, None, None))
    ensures AsksToRecover(i, version) ==>
      && Requested(i).Some? && Requested(i).value.mode == Recovery && Requested(i).value.tag == "v" + version
      && Requested(i).value.tagSha == Some(ReleaseText.Lower(i.expectedTagSha))
  {
    assert ("v" + version)[1..] == version;
    if AsksToPublish(i, version) {
      assert i.gitRef == "refs/tags/" + ("v" + version);
      assert i.gitRef[..10] == "refs/tags/" && i.gitRef[10..] == "v" + version;
    }
  }

  lemma {:induction false} RequestAsks(i: Invocation)
    requires Requested(i).Some?
    ensures var version := Requested(i).value.tag[1..];
      && ReleaseVersions.IsStable(version) && Requested(i).value.tag == "v" + version
      && (AsksToPublish(i, version) || AsksToRecover(i, version))
  {
    RequestHolds(i);
    if i.event == "push" {
      assert i.gitRef == i.gitRef[..10] + i.gitRef[10..];
    }
  }

  /** The rows that are kept are single exactly when the collections hold single matches. */
  lemma {:induction false} SinglesAreKept(i: Invocation, w: World, version: string, k: nat, m: nat)
    requires IsHex40(w.tagCommit)
    ensures Singles(i, w, version, k, m) ==>
      && Kept(MatchesPull(version, ReleaseText.Lower(w.tagCommit)), w.pulls) == [w.pulls[k]]
      && Kept(HasTag("v" + version), w.releases) == [w.releases[m]]
  {
    if Singles(i, w, version, k, m) {
      var sha := ReleaseText.Lower(w.tagCommit);
      var keep := MatchesPull(version, sha);
      forall j | 0 <= j < |w.pulls| ensures IsReleasePull(w.pulls[j], version, sha) <==> keep(w.pulls[j]) {
        SameHash(w.pulls[j].mergeCommit, sha);
      }
      KeptOne(keep, w.pulls);
      KeptOne(HasTag("v" + version), w.releases);
      assert OnlyAt(keep, w.pulls, k) && OnlyAt(HasTag("v" + version), w.releases, m);
    }
  }

  lemma {:induction false} ResolvableIsResolved(i: Invocation, w: World, version: string)
    requires i.repository == "scramjetorg/transform-hub" && i.token != "" && Resolvable(i, w, version)
    ensures Resolve(i, w).Some?
  {
    var k: nat, m: nat :| Singles(i, w, version, k, m);
    RequestedExactly(i, version);
    assert ("v" + version)[1..] == version;
    SinglesAreKept(i, w, version, k, m);
    HashIsSha(i.executionSha);
    HashIsSha(w.head);
    HashIsSha(w.main);
    HashIsSha(w.tagObject);
    HashIsSha(w.tagCommit);
    HashIsSha(w.tagTree);
    HashIsSha(w.pulls[k].headSha);
    HashIsSha(w.treeOf(ReleaseText.Lower(w.pulls[k].headSha)));
  }

  lemma {:induction false} ResolvedIsResolvable(i: Invocation, w: World)
    requires Resolve(i, w).Some?
    ensures Resolvable(i, w, Resolve(i, w).value.version)
  {
    var d := Resolve(i, w).value;
    RequestAsks(i);
    ResolvedMode(i, w);
    ResolvedCommits(i, w);
    HashIsSha(i.expectedTagSha);
    HashIsSha(w.tagTree);
    HashIsSha(w.tagCommit);
    HashIsSha(w.treeOf(d.candidateHead));
    var k := ResolvedPull(i, w);
    var m := ResolvedRelease(i, w);
    HashIsSha(w.pulls[k].headSha);
    assert Singles(i, w, d.version, k, m);
  }

  /**
   An invocation is resolved exactly when it pushes the tag of a stable version or asks to recover it, all commits
   agree, and one pull request and one release belong to the version.
   */
  lemma {:induction false} ResolvesExactly(i: Invocation, w: World)
    ensures Resolve(i, w).Some?
      <==> i.repository == "scramjetorg/transform-hub" && i.token != "" && exists version :: Resolvable(i, w, version)
  {
    if Resolve(i, w).Some? {
      ResolvedIsResolvable(i, w);
    }
    if i.repository == "scramjetorg/transform-hub" && i.token != "" {
      if version :| Resolvable(i, w, version) {
        ResolvableIsResolved(i, w, version);
      }
    }
  }

  // ----- What later steps accept -----------------------------------------------------------------------------

  /** Which identities later steps accept, and what they must match. */
  lemma {:induction false} BindsExactly(d: Identity)
    ensures Bind(d).Some? <==>
      && d.repository == "scramjetorg/transform-hub"
      && IsHex40(d.executionSha) && IsHex40(d.tagObjectSha) && IsHex40(d.tagCommitSha)
      && IsHex40(d.candidateHead) && IsHex40(d.candidateTree) && IsHex40(d.tagTree)
      && ReleaseVersions.IsStable(d.version) && d.tag == "v" + d.version && d.branch == "release/" + d.version
      && ReleaseText.Lower(d.candidateTree) == ReleaseText.Lower(d.tagTree)
      && CanonicalId(TextId(d.releaseId)).Some? && CanonicalId(TextId(d.prNumber)).Some?
      && (d.mode.TagPush? ==>
            ReleaseText.Lower(d.executionSha) == ReleaseText.Lower(d.tagCommitSha) && d.expectedBundleChecksum.None?)
      && (d.mode.Recovery? ==>
            !d.releaseDraft
            && (d.expectedBundleChecksum.Some? ==> ReleaseText.IsDigest(d.expectedBundleChecksum.value)))
    ensures Bind(d).Some? ==> Bind(d).value == Bindings(
      d.version, d.branch, ReleaseText.Lower(d.candidateHead), ReleaseText.Lower(d.candidateTree),
      ReleaseText.Lower(d.tagTree), d.repository,
      if d.expectedBundleChecksum.Some? then Some(ReleaseText.Lower(d.expectedBundleChecksum.value)) else None)
  {
  }

  /** Identifiers are positive safe integers, written without a sign or a leading zero. */
  lemma {:induction false} IdentifiersAre(id: Id)
    requires CanonicalId(id).Some?
    ensures var text := CanonicalId(id).value;
      && text != "" && text[0] != '0' && ReleaseVersions.AllDigits(text)
      && 0 <= ReleaseVersions.NumberOf(text) <= 9007199254740991
      && (id.TextId? ==> text == id.text)
      && (id.NumberId? ==> 0 < id.n == ReleaseVersions.NumberOf(text))
  {
    if id.NumberId? {
      ReleaseVersions.DecimalIsNumber(id.n);
    }
  }
}
