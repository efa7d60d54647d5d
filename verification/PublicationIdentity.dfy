/**
 What a publication is bound to (scripts/release-main.js): paginated reads of the repository host, the
 selection of the one matching release and pull request, and the identity that later steps re-check.
 */
module PublicationIdentity {
  import opened Common
  import ReleaseDocument
  import ReleaseText
  import ReleaseVersions

  // ----- Paginated reads ---------------------------------------------------------------------------------

  /** What the host answers for a page: nothing usable, or an envelope whose fields may be missing. */
  datatype Answer<Row> = Fails | Envelope(count: Option<int>, items: Option<seq<Row>>)

  /** What a read comes to; it goes on reading as long as the host sends full pages. */
  datatype Retained<Row> = Rows(rows: seq<Row>) | Overflow | Refused | Reading

  /** The rows to keep, in order. */
  function Kept<Row>(keep: Row -> bool, rows: seq<Row>): seq<Row> {
    if rows == [] then []
    else
      var rest, last := Kept(keep, rows[..|rows| - 1]), rows[|rows| - 1];
      if keep(last) then rest + [last] else rest
  }

  lemma {:induction false} KeptSnoc<Row>(keep: Row -> bool, rows: seq<Row>, row: Row)
    ensures Kept(keep, rows + [row]) == if keep(row) then Kept(keep, rows) + [row] else Kept(keep, rows)
  {
    assert (rows + [row])[..|rows|] == rows;
  }

  lemma {:induction false} KeptGrows<Row>(keep: Row -> bool, rows: seq<Row>, n: nat)
    requires n <= |rows|
    ensures |Kept(keep, rows[..n])| <= |Kept(keep, rows)|
    decreases |rows|
  {
    if n < |rows| {
      KeptGrows(keep, rows[..|rows| - 1], n);
      assert rows[..|rows| - 1][..n] == rows[..n];
    } else {
      assert rows[..n] == rows;
    }
  }

  lemma {:induction false} KeptNext<Row>(keep: Row -> bool, before: seq<Row>, items: seq<Row>, i: nat)
    requires i < |items|
    ensures Kept(keep, before + items[..i + 1])
      == if keep(items[i]) then Kept(keep, before + items[..i]) + [items[i]] else Kept(keep, before + items[..i])
  {
    assert before + items[..i + 1] == (before + items[..i]) + [items[i]];
    KeptSnoc(keep, before + items[..i], items[i]);
  }

  lemma {:induction false} KeptOfFront<Row>(keep: Row -> bool, before: seq<Row>, items: seq<Row>, i: nat)
    requires i <= |items|
    ensures |Kept(keep, before + items[..i])| <= |Kept(keep, before + items)|
  {
    assert (before + items)[..|before| + i] == before + items[..i];
    KeptGrows(keep, before + items, |before| + i);
  }

  /** The rows of one page: the kept ones are added, as long as there is room. */
  method ReadPage<Row>(items: seq<Row>, keep: Row -> bool, maxItems: nat, retained0: seq<Row>, ghost before: seq<Row>)
    returns (r: Retained<Row>)
    requires retained0 == Kept(keep, before) && |retained0| <= maxItems
    ensures r == if |Kept(keep, before + items)| <= maxItems then Rows(Kept(keep, before + items)) else Overflow
  {
    var retained := retained0;
    assert before + items[..0] == before && before + items[..|items|] == before + items;
    for i := 0 to |items|
      invariant retained == Kept(keep, before + items[..i]) && |retained| <= maxItems
    {
      KeptNext(keep, before, items, i);
      if keep(items[i]) {
        if |retained| >= maxItems {
          KeptOfFront(keep, before, items, i + 1);
          return Overflow;
        }
        retained := retained + [items[i]];
      }
    }
    return Rows(retained);
  }

  /** The test of the page envelope. */
  predicate IsPage<Row>(answer: Answer<Row>, size: nat) {
    && answer.Envelope? && answer.count.Some? && 0 <= answer.count.value <= size
    && answer.items.Some? && |answer.items.value| == answer.count.value
  }

  predicate IsFull<Row>(answer: Answer<Row>, size: nat) {
    IsPage(answer, size) && answer.count.value == size
  }

  /** The first answer from i on that is no full page, or the end of the answers. */
  function FullUntil<Row>(answers: seq<Answer<Row>>, size: nat, i: nat): (n: nat)
    requires i <= |answers|
    ensures i <= n <= |answers| && (forall k :: i <= k < n ==> IsFull(answers[k], size))
    ensures n < |answers| ==> !IsFull(answers[n], size)
    decreases |answers| - i
  {
    if i < |answers| && IsFull(answers[i], size) then FullUntil(answers, size, i + 1) else i
  }

  /** The rows of the first n answers that are pages. */
  function RowsOf<Row>(answers: seq<Answer<Row>>, size: nat, n: nat): seq<Row>
    requires n <= |answers|
  {
    if n == 0 then []
    else RowsOf(answers, size, n - 1) + if IsPage(answers[n - 1], size) then answers[n - 1].items.value else []
  }

  /** The rows a read goes through: full pages, and a short one after them. */
  function RowsRead<Row>(answers: seq<Answer<Row>>, size: nat): seq<Row> {
    var n := FullUntil(answers, size, 0);
    RowsOf(answers, size, if n < |answers| then n + 1 else n)
  }

  /** How a read ends on the answers it gets, whatever they are. */
  function Outcome<Row>(answers: seq<Answer<Row>>, size: nat, keep: Row -> bool, maxItems: nat): Retained<Row> {
    var n, kept := FullUntil(answers, size, 0), Kept(keep, RowsRead(answers, size));
    if |kept| > maxItems then Overflow
    else if n == |answers| then Reading
    else if IsPage(answers[n], size) then Rows(kept)
    else Refused
  }

  lemma {:induction false} RowsPrefix<Row>(answers: seq<Answer<Row>>, size: nat, i: nat, n: nat)
    requires i <= n <= |answers|
    ensures RowsOf(answers, size, i) <= RowsOf(answers, size, n)
  {
    if i < n {
      RowsPrefix(answers, size, i, n - 1);
    }
  }

  lemma {:induction false} OverflowStays<Row>(
      answers: seq<Answer<Row>>, size: nat, keep: Row -> bool, maxItems: nat, i: nat)
    requires i < |answers| && i <= FullUntil(answers, size, 0)
    requires |Kept(keep, RowsOf(answers, size, i + 1))| > maxItems
    ensures Outcome(answers, size, keep, maxItems) == Overflow
  {
    var all, front := RowsRead(answers, size), RowsOf(answers, size, i + 1);
    var n := FullUntil(answers, size, 0);
    RowsPrefix(answers, size, i + 1, if n < |answers| then n + 1 else n);
    assert all[..|front|] == front;
    KeptGrows(keep, all, |front|);
  }

  /** Pages are read until a short one, an answer that is none, or one row too many. */
  method ReadPaginated<Row>(answers: seq<Answer<Row>>, size: nat, keep: Row -> bool, maxItems: nat)
      returns (r: Retained<Row>)
    ensures r == Outcome(answers, size, keep, maxItems)
  {
    var retained: seq<Row> := [];
    for page := 0 to |answers|
      invariant FullUntil(answers, size, 0) == FullUntil(answers, size, page)
      invariant retained == Kept(keep, RowsOf(answers, size, page)) && |retained| <= maxItems
    {
      if !IsPage(answers[page], size) {
        AddNothing(RowsOf(answers, size, page));
        return Refused;
      }
      r := ReadPage(answers[page].items.value, keep, maxItems, retained, RowsOf(answers, size, page));
      if r.Overflow? {
        OverflowStays(answers, size, keep, maxItems, page);
        return;
      }
      retained := r.rows;
      if answers[page].count.value < size {
        return;
      }
    }
    return Reading;
  }

  /** One page of a collection, the first page being page 1. */
  function PageOf<Row>(rows: seq<Row>, size: nat, page: nat): seq<Row>
    requires page >= 1
  {
    var start := (page - 1) * size;
    if start >= |rows| then [] else rows[start..if start + size <= |rows| then start + size else |rows|]
  }

  /** The host answers from a collection that does not change while it is read. */
  ghost predicate Serves<Row>(answers: seq<Answer<Row>>, rows: seq<Row>, size: nat) {
    forall i :: 0 <= i < |answers| ==> answers[i] == ServedPage(rows, size, i + 1)
  }

  function ServedPage<Row>(rows: seq<Row>, size: nat, page: nat): Answer<Row>
    requires page >= 1
  {
    Envelope(Some(|PageOf(rows, size, page)|), Some(PageOf(rows, size, page)))
  }

  lemma {:induction false} PageContinues<Row>(rows: seq<Row>, size: nat, page: nat, start: nat)
    requires size > 0 && page >= 1 && start == (page - 1) * size && start <= |rows|
    ensures var items := PageOf(rows, size, page);
      && start + |items| <= |rows| && rows[..start] + items == rows[..start + |items|]
      && (|items| == size || rows[..start] + items == rows)
      && |items| <= size && start + size == page * size
  {
  }

  /** The first i pages have been read, and the answers reach past the collection. */
  ghost predicate ReadUpTo<Row>(answers: seq<Answer<Row>>, rows: seq<Row>, size: nat, i: nat) {
    && size > 0 && Serves(answers, rows, size) && |answers| * size > |rows|
    && i < |answers| && i * size <= |rows| && RowsOf(answers, size, i) == rows[..i * size]
  }

  lemma {:induction false} ServedNext<Row>(answers: seq<Answer<Row>>, rows: seq<Row>, size: nat, i: nat)
    requires ReadUpTo(answers, rows, size, i)
    ensures IsPage(answers[i], size)
    ensures if IsFull(answers[i], size) then ReadUpTo(answers, rows, size, i + 1)
      else RowsOf(answers, size, i + 1) == rows
  {
    var start := i * size;
    PageContinues(rows, size, i + 1, start);
    assert answers[i] == ServedPage(rows, size, i + 1);
    assert (i + 1) * size == start + size;
  }

  lemma {:induction false} ServedRows<Row>(answers: seq<Answer<Row>>, rows: seq<Row>, size: nat, i: nat)
    requires ReadUpTo(answers, rows, size, i) && i < |answers|
    ensures var n := FullUntil(answers, size, i);
      n < |answers| && IsPage(answers[n], size) && RowsOf(answers, size, n + 1) == rows
    decreases |answers| - i
  {
    hide ReadUpTo, IsPage;
    ServedNext(answers, rows, size, i);
    if IsFull(answers[i], size) {
      ServedRows(answers, rows, size, i + 1);
    }
  }

  /** From a collection that does not change, reading page after page is the same as filtering all of it. */
  lemma {:induction false} StableCollectionIsRead<Row>(
      answers: seq<Answer<Row>>, rows: seq<Row>, size: nat, keep: Row -> bool, maxItems: nat)
    requires size > 0 && Serves(answers, rows, size) && |answers| * size > |rows|
    ensures Outcome(answers, size, keep, maxItems)
      == if |Kept(keep, rows)| <= maxItems then Rows(Kept(keep, rows)) else Overflow
  {
    assert |answers| > 0 by {
      assert |answers| == 0 ==> |answers| * size == 0;
    }
    assert rows[..0] == [] && 0 * size == 0;
    ServedRows(answers, rows, size, 0);
  }

  /** The index of the only kept row, when there is exactly one. */
  ghost predicate OnlyAt<Row>(keep: Row -> bool, rows: seq<Row>, i: int) {
    0 <= i < |rows| && keep(rows[i]) && forall j :: 0 <= j < |rows| && keep(rows[j]) ==> j == i
  }

  lemma {:induction false} KeptNothing<Row>(keep: Row -> bool, rows: seq<Row>)
    ensures Kept(keep, rows) == [] <==> forall j :: 0 <= j < |rows| ==> !keep(rows[j])
  {
    if rows != [] {
      var front := rows[..|rows| - 1];
      KeptNothing(keep, front);
      assert forall j :: 0 <= j < |front| ==> front[j] == rows[j];
    }
  }

  /** Reading at most one row leaves exactly one exactly when one row of the whole collection matches. */
  lemma {:induction false} KeptOne<Row>(keep: Row -> bool, rows: seq<Row>)
    ensures |Kept(keep, rows)| == 1 <==> exists i :: OnlyAt(keep, rows, i)
    ensures forall i :: OnlyAt(keep, rows, i) ==> Kept(keep, rows) == [rows[i]]
  {
    if rows != [] {
      var front, n := rows[..|rows| - 1], |rows| - 1;
      assert forall j :: 0 <= j < n ==> front[j] == rows[j];
      if keep(rows[n]) {
        KeptNothing(keep, front);
        forall i | OnlyAt(keep, rows, i)
          ensures i == n && Kept(keep, front) == []
        {
        }
        if Kept(keep, front) == [] {
          assert OnlyAt(keep, rows, n);
        }
      } else {
        KeptOne(keep, front);
        forall i
          ensures OnlyAt(keep, rows, i) <==> OnlyAt(keep, front, i)
        {
        }
        if |Kept(keep, rows)| == 1 {
          var i :| OnlyAt(keep, front, i);
          assert OnlyAt(keep, rows, i);
        }
      }
    }
  }

  // ----- Identifiers -------------------------------------------------------------------------------------

  datatype Id = NumberId(n: int) | TextId(text: string)

  predicate IsPositiveId(text: string) {
    ReleaseVersions.IsNumber(text) && text[0] != '0' && ReleaseVersions.NumberOf(text) <= ReleaseVersions.MAX_SAFE
  }

  /** `assertPositiveId`. */
  function CanonicalId(id: Id): Option<string> {
    match id
    case NumberId(n) => if 0 < n <= ReleaseVersions.MAX_SAFE then Some(ReleaseDocument.Decimal(n)) else None
    case TextId(text) => if IsPositiveId(text) then Some(text) else None
  }

  lemma {:induction false} CanonicalIdIsStable(id: Id)
    requires CanonicalId(id).Some?
    ensures CanonicalId(TextId(CanonicalId(id).value)) == CanonicalId(id)
  {
    if id.NumberId? {
      ReleaseVersions.DecimalIsNumber(id.n);
    }
  }

  // ----- Resolving ---------------------------------------------------------------------------------------

  datatype Mode = TagPush | Recovery

  datatype Release = Release(id: Id, tag: string, draft: bool, prerelease: bool)

  datatype Pull = Pull(
    number: Id, mergedAt: string, mergeCommit: string,
    baseRef: string, baseRepository: string,
    headRef: string, headSha: string, headRepository: string)

  /** The environment of the invocation: a pushed tag, or a recovery dispatch with its inputs. */
  datatype Invocation = Invocation(
    event: string, gitRef: string, isProtected: bool, repository: string, executionSha: string, token: string,
    stableTag: string, expectedTagSha: string, expectedBundleChecksum: string)

  /** What git and the repository host answer. */
  datatype World = World(
    head: string, main: string, tagObject: string, tagCommit: string,
    tagIsAncestor: bool, packageVersion: Option<string>, tagTree: string,
    treeOf: string -> string, pulls: seq<Pull>, releases: seq<Release>)

  datatype Identity = Identity(
    mode: Mode, repository: string, executionSha: string, tag: string, tagObjectSha: string,
    tagCommitSha: string, version: string, branch: string, releaseId: string, releaseDraft: bool,
    prNumber: string, candidateHead: string, candidateTree: string, tagTree: string,
    expectedBundleChecksum: Option<string>)

  function ReleaseBranch(version: string): string {
    "release/" + version
  }

  function MatchesPull(version: string, tagCommit: string): Pull -> bool {
    (p: Pull) =>
      p.mergedAt != "" && ReleaseText.IsSha(p.mergeCommit) && ReleaseText.Lower(p.mergeCommit) == tagCommit
      && p.baseRef == "main" && p.baseRepository == ReleaseDocument.DEFAULT_REPOSITORY
      && p.headRepository == ReleaseDocument.DEFAULT_REPOSITORY && p.headRef == ReleaseBranch(version)
  }

  function HasTag(tag: string): Release -> bool {
    (r: Release) => r.tag == tag
  }

  /** What the invocation asks for: mode, tag, the commit it must be, and the bundle it expects. */
  datatype Request = Request(mode: Mode, tag: string, tagSha: Option<string>, bundleChecksum: Option<string>)

  function Requested(i: Invocation): Option<Request> {
    if i.event == "push" then
      if |i.gitRef| < 10 || i.gitRef[..10] != "refs/tags/" then None
      else CheckedTag(Request(TagPush, i.gitRef[10..], None, None))
    else if i.event == "workflow_dispatch" then
      if i.gitRef != "refs/heads/main" || !i.isProtected then None
      else if ReleaseText.CanonicalSha(i.expectedTagSha).None? then None
      else if i.expectedBundleChecksum != "" && !ReleaseText.IsDigest(i.expectedBundleChecksum) then None
      else CheckedTag(Request(Recovery, i.stableTag, ReleaseText.CanonicalSha(i.expectedTagSha),
        if i.expectedBundleChecksum == "" then None else Some(ReleaseText.Lower(i.expectedBundleChecksum))))
    else None
  }

  function CheckedTag(q: Request): Option<Request> {
    if q.tag != "" && q.tag[0] == 'v' && ReleaseVersions.IsStable(q.tag[1..]) then Some(q) else None
  }

  /** The tag's commit is the one executed, or the recorded one on main, and has the tag's version. */
  predicate CommitHolds(q: Request, w: World, executionSha: string, tagCommit: string)
    requires q.tag != ""
  {
    && ReleaseText.CanonicalSha(w.head) == Some(executionSha)
    && ReleaseText.CanonicalSha(w.main) == Some(executionSha)
    && (if q.mode.TagPush? then tagCommit == executionSha else Some(tagCommit) == q.tagSha && w.tagIsAncestor)
    && w.packageVersion == Some(q.tag[1..])
  }

  function Resolve(i: Invocation, w: World): Option<Identity> {
    var request, executionSha := Requested(i), ReleaseText.CanonicalSha(i.executionSha);
    var tagObject, tagCommit := ReleaseText.CanonicalSha(w.tagObject), ReleaseText.CanonicalSha(w.tagCommit);
    if i.repository != ReleaseDocument.DEFAULT_REPOSITORY || i.token == "" || request.None? || executionSha.None?
      || tagObject.None? || tagCommit.None? then None
    else if request.value.tag == "" || !CommitHolds(request.value, w, executionSha.value, tagCommit.value) then None
    else Select(request.value, w, executionSha.value, tagObject.value, tagCommit.value)
  }

  /** The pull request and the release are each the only one of their kind. */
  function Select(q: Request, w: World, executionSha: string, tagObject: string, tagCommit: string): Option<Identity>
    requires q.tag != ""
  {
    var version := q.tag[1..];
    var pulls, releases := Kept(MatchesPull(version, tagCommit), w.pulls), Kept(HasTag(q.tag), w.releases);
    if |pulls| != 1 || |releases| != 1 then None
    else
      var pull, release := pulls[0], releases[0];
      var head, tagTree := ReleaseText.CanonicalSha(pull.headSha), ReleaseText.CanonicalSha(w.tagTree);
      var number, id := CanonicalId(pull.number), CanonicalId(release.id);
      if head.None? || tagTree.None? || number.None? || id.None? || release.prerelease
        || (q.mode.Recovery? && release.draft) then None
      else if ReleaseText.CanonicalSha(w.treeOf(head.value)) != tagTree then None
      else
        Some(Identity(q.mode, ReleaseDocument.DEFAULT_REPOSITORY, executionSha, q.tag, tagObject, tagCommit, version,
          ReleaseBranch(version),
          id.value, release.draft, number.value, head.value, tagTree.value, tagTree.value, q.bundleChecksum))
  }

  // ----- Binding -----------------------------------------------------------------------------------------

  datatype Bindings = Bindings(
    version: string, branch: string, candidateHead: string, candidateTree: string, mainTree: string,
    repository: string, bundleChecksum: Option<string>)

  /** `publicationBindings`: what later steps must match, or nothing when the identity does not hold together. */
  function Bind(d: Identity): Option<Bindings> {
    var executionSha, tagObject, tagCommit :=
      ReleaseText.CanonicalSha(d.executionSha), ReleaseText.CanonicalSha(d.tagObjectSha),
        ReleaseText.CanonicalSha(d.tagCommitSha);
    var head, tree, tagTree :=
      ReleaseText.CanonicalSha(d.candidateHead), ReleaseText.CanonicalSha(d.candidateTree),
        ReleaseText.CanonicalSha(d.tagTree);
    if d.repository != ReleaseDocument.DEFAULT_REPOSITORY || executionSha.None? || tagObject.None? || tagCommit.None?
      || head.None? || tree.None? || tagTree.None? then None
    else if !ReleaseVersions.IsStable(d.version) || d.tag != "v" + d.version || d.branch != ReleaseBranch(d.version)
      || tree != tagTree then None
    else if CanonicalId(TextId(d.releaseId)).None? || CanonicalId(TextId(d.prNumber)).None? then None
    else if d.mode.TagPush? && (executionSha != tagCommit || d.expectedBundleChecksum.Some?) then None
    else if d.mode.Recovery? &&
      (d.releaseDraft ||
       (d.expectedBundleChecksum.Some? && !ReleaseText.IsDigest(d.expectedBundleChecksum.value))) then None
    else
      var checksum := if d.expectedBundleChecksum.Some? then Some(ReleaseText.Lower(d.expectedBundleChecksum.value))
        else None;
      Some(Bindings(d.version, d.branch, head.value, tree.value, tagTree.value, d.repository, checksum))
  }

  lemma {:induction false} LowerDigest(s: string)
    requires ReleaseText.IsDigest(s)
    ensures ReleaseText.IsDigest(ReleaseText.Lower(s))
      && ReleaseText.Lower(ReleaseText.Lower(s)) == ReleaseText.Lower(s)
  {
    ReleaseText.LowerIsStable(s);
  }

  /** The values an identity needs so that binding accepts it and changes none of them. */
  ghost predicate Settled(d: Identity) {
    && d.repository == ReleaseDocument.DEFAULT_REPOSITORY
    && (forall sha :: sha in
           {d.executionSha, d.tagObjectSha, d.tagCommitSha, d.candidateHead, d.candidateTree, d.tagTree}
          ==> ReleaseText.CanonicalSha(sha) == Some(sha))
    && ReleaseVersions.IsStable(d.version) && d.tag == "v" + d.version && d.branch == ReleaseBranch(d.version)
    && d.candidateTree == d.tagTree
    && CanonicalId(TextId(d.releaseId)).Some? && CanonicalId(TextId(d.prNumber)).Some?
    && (d.mode.TagPush? ==> d.executionSha == d.tagCommitSha && d.expectedBundleChecksum.None?)
    && (d.mode.Recovery? ==> !d.releaseDraft)
    && (d.expectedBundleChecksum.Some? ==> ReleaseText.IsDigest(d.expectedBundleChecksum.value))
    && (d.expectedBundleChecksum.Some? ==>
          ReleaseText.Lower(d.expectedBundleChecksum.value) == d.expectedBundleChecksum.value)
  }

  lemma {:induction false} SettledBinds(d: Identity)
    requires Settled(d)
    ensures Bind(d) == Some(Bindings(
      d.version, d.branch, d.candidateHead, d.candidateTree, d.tagTree, d.repository, d.expectedBundleChecksum))
  {
  }

  lemma {:induction false} RequestHolds(i: Invocation)
    requires Requested(i).Some?
    ensures var q := Requested(i).value;
      && q.tag != "" && q.tag == "v" + q.tag[1..] && ReleaseVersions.IsStable(q.tag[1..])
      && (q.mode.TagPush? ==> q.bundleChecksum.None?)
      && (q.bundleChecksum.Some? ==> ReleaseText.IsDigest(q.bundleChecksum.value))
      && (q.bundleChecksum.Some? ==> ReleaseText.Lower(q.bundleChecksum.value) == q.bundleChecksum.value)
  {
    if i.event == "workflow_dispatch" && i.expectedBundleChecksum != "" {
      LowerDigest(i.expectedBundleChecksum);
    }
  }

  /** The identity's candidate is the head of the only merged pull request that matches. */
  ghost predicate NamesOnlyPull(d: Identity, w: World) {
    exists k | 0 <= k < |w.pulls| :: OnlyAt(MatchesPull(d.version, d.tagCommitSha), w.pulls, k)
      && ReleaseText.CanonicalSha(w.pulls[k].headSha) == Some(d.candidateHead)
  }

  ghost predicate NamesOnlyRelease(d: Identity, w: World) {
    exists k | 0 <= k < |w.releases| :: OnlyAt(HasTag(d.tag), w.releases, k)
      && CanonicalId(w.releases[k].id) == Some(d.releaseId) && w.releases[k].draft == d.releaseDraft
  }

  /**
   Every identity that resolution returns is accepted unchanged by the steps that re-check it, and it
   names the only merged pull request and the only release that match.
   */
  lemma {:induction false} ResolvedIdentityBinds(i: Invocation, w: World)
    requires Resolve(i, w).Some?
    ensures var d := Resolve(i, w).value;
      && Bind(d) == Some(Bindings(
           d.version, d.branch, d.candidateHead, d.candidateTree, d.tagTree, d.repository, d.expectedBundleChecksum))
      && NamesOnlyPull(d, w) && NamesOnlyRelease(d, w)
  {
    var d := Resolve(i, w).value;
    RequestHolds(i);
    SelectedIsSettled(i, w);
    SettledBinds(d);
    KeptOne(MatchesPull(d.version, d.tagCommitSha), w.pulls);
    KeptOne(HasTag(d.tag), w.releases);
  }

  lemma {:induction false} SelectedIsSettled(i: Invocation, w: World)
    requires Resolve(i, w).Some?
    ensures Settled(Resolve(i, w).value)
  {
    RequestHolds(i);
    var q := Requested(i).value;
    ReleaseText.LowerIsStable(i.executionSha);
    ReleaseText.LowerIsStable(w.tagObject);
    ReleaseText.LowerIsStable(w.tagCommit);
    ReleaseText.LowerIsStable(w.tagTree);
    var pull := Kept(MatchesPull(q.tag[1..], ReleaseText.Lower(w.tagCommit)), w.pulls)[0];
    ReleaseText.LowerIsStable(pull.headSha);
    CanonicalIdIsStable(pull.number);
    CanonicalIdIsStable(Kept(HasTag(q.tag), w.releases)[0].id);
  }
}
