/**
 Rewriting runner image tags (updateImageTags of scripts/release-align.js).  The code replaces the
 first occurrence of each matched text; the result is shown to be every tag rewritten in place.
 */
module ImageTags {
  import opened Common

  const OWNER: string := "scramjetorg/"

  /** The first k characters of the owner prefix stand at position s. */
  predicate OwnerAt(text: string, s: nat, k: nat)
    requires k <= |OWNER|
  {
    k == 0 || (OwnerAt(text, s, k - 1) && s + k <= |text| && text[s + k - 1] == OWNER[k - 1])
  }

  lemma {:induction false} OwnerCharacter(text: string, s: nat, k: nat, i: nat)
    requires i < k <= |OWNER| && OwnerAt(text, s, k)
    ensures s + i < |text| && text[s + i] == OWNER[i]
  {
    if i < k - 1 {
      OwnerCharacter(text, s, k - 1, i);
    }
  }

  lemma {:induction false} OwnerMoves(text: string, other: string, s: nat, t: nat, k: nat)
    requires k <= |OWNER| && OwnerAt(text, s, k) && t + k <= |other|
    requires forall i :: t <= i < t + k ==> s + (i - t) < |text| && other[i] == text[s + (i - t)]
    ensures OwnerAt(other, t, k)
  {
    if k > 0 {
      OwnerMoves(text, other, s, t, k - 1);
    }
  }

  predicate IsImageChar(c: char) {
    c == '-' || c == '_' || '0' <= c <= '9' || 'a' <= c <= 'z' || 'A' <= c <= 'Z'
  }

  predicate IsTagChar(c: char) {
    c == '.' || '0' <= c <= '9'
  }

  predicate IsTag(tag: string) {
    tag != "" && forall i :: 0 <= i < |tag| ==> IsTagChar(tag[i])
  }

  function ImageEnd(text: string, i: nat): (end: nat)
    requires i <= |text|
    ensures i <= end <= |text|
    decreases |text| - i
  {
    if i < |text| && IsImageChar(text[i]) then ImageEnd(text, i + 1) else i
  }

  function TagEnd(text: string, i: nat): (end: nat)
    requires i <= |text|
    ensures i <= end <= |text|
    decreases |text| - i
  {
    if i < |text| && IsTagChar(text[i]) then TagEnd(text, i + 1) else i
  }

  /** A match: the colon between image and tag, and the position after the closing quote. */
  datatype Hit = Hit(colon: nat, end: nat)

  /** `(scramjetorg\/[-\w]+):([\d.]+)"` at position s. */
  function HitAt(text: string, s: nat): (hit: Option<Hit>)
    ensures hit.Some? ==> s + |OWNER| < hit.value.colon && hit.value.colon + 2 < hit.value.end <= |text|
  {
    if !OwnerAt(text, s, |OWNER|) then None
    else if s + |OWNER| > |text| then None
    else
      var colon := ImageEnd(text, s + |OWNER|);
      if colon == s + |OWNER| || colon == |text| || text[colon] != ':' then None
      else
        var quote := TagEnd(text, colon + 1);
        if quote == colon + 1 || quote == |text| || text[quote] != '"' then None else Some(Hit(colon, quote + 1))
  }

  function TagAt(text: string, hit: Hit): string
    requires hit.colon + 2 < hit.end <= |text|
  {
    text[hit.colon + 1..hit.end - 1]
  }

  /** The first match at or after a position, or the length. */
  function NextHit(text: string, from: nat): (s: nat)
    requires from <= |text|
    ensures from <= s <= |text| && (s < |text| ==> HitAt(text, s).Some?)
    decreases |text| - from
  {
    if from == |text| || HitAt(text, from).Some? then from else NextHit(text, from + 1)
  }

  /** A match with its tag rewritten. */
  function Retagged(text: string, s: nat, version: string): string
    requires HitAt(text, s).Some?
  {
    text[s..HitAt(text, s).value.colon] + [':'] + version + ['"']
  }

  /** The text from a position on with every tag rewritten. */
  function RetagFrom(text: string, from: nat, version: string): string
    requires from <= |text|
    decreases |text| - from
  {
    var s := NextHit(text, from);
    if s == |text| then text[from..]
    else text[from..s] + Retagged(text, s, version) + RetagFrom(text, HitAt(text, s).value.end, version)
  }

  function Retag(text: string, version: string): string {
    RetagFrom(text, 0, version)
  }

  predicate TagIs(text: string, p: nat, version: string) {
    HitAt(text, p).Some? ==> TagAt(text, HitAt(text, p).value) == version
  }

  /** Every match starting before position n carries the version. */
  predicate TagsBefore(text: string, n: nat, version: string) {
    forall p :: 0 <= p < n ==> TagIs(text, p, version)
  }

  predicate AllTags(text: string, version: string) {
    TagsBefore(text, |text|, version)
  }

  // ----- A match depends on its own characters only ----------------------------------------------

  lemma {:induction false} ImageRun(text: string, i: nat, k: nat)
    requires i <= k < |text| && k <= ImageEnd(text, i)
    ensures k < ImageEnd(text, i) <==> IsImageChar(text[k])
    decreases k - i
  {
    if i < k {
      ImageRun(text, i + 1, k);
    }
  }

  lemma {:induction false} TagRun(text: string, i: nat, k: nat)
    requires i <= k < |text| && k <= TagEnd(text, i)
    ensures k < TagEnd(text, i) <==> IsTagChar(text[k])
    decreases k - i
  {
    if i < k {
      TagRun(text, i + 1, k);
    }
  }

  lemma {:induction false} ImageEndIs(text: string, i: nat, end: nat)
    requires i <= end < |text| && !IsImageChar(text[end]) && forall k :: i <= k < end ==> IsImageChar(text[k])
    ensures ImageEnd(text, i) == end
    decreases end - i
  {
    if i < end {
      ImageEndIs(text, i + 1, end);
    }
  }

  lemma {:induction false} TagEndIs(text: string, i: nat, end: nat)
    requires i <= end < |text| && !IsTagChar(text[end]) && forall k :: i <= k < end ==> IsTagChar(text[k])
    ensures TagEnd(text, i) == end
    decreases end - i
  {
    if i < end {
      TagEndIs(text, i + 1, end);
    }
  }

  /** The shape of a match, character by character. */
  predicate Shape(text: string, s: nat, colon: nat, end: nat) {
    && s + |OWNER| < colon && colon + 2 < end <= |text|
    && OwnerAt(text, s, |OWNER|)
    && (forall k :: s + |OWNER| <= k < colon ==> IsImageChar(text[k]))
    && text[colon] == ':'
    && (forall k :: colon < k < end - 1 ==> IsTagChar(text[k]))
    && text[end - 1] == '"'
  }

  lemma {:induction false} HitIsShape(text: string, s: nat, colon: nat, end: nat)
    ensures HitAt(text, s) == Some(Hit(colon, end)) <==> Shape(text, s, colon, end)
  {
    if HitAt(text, s) == Some(Hit(colon, end)) {
      forall k | s + |OWNER| <= k < colon ensures IsImageChar(text[k]) {
        ImageRun(text, s + |OWNER|, k);
      }
      forall k | colon < k < end - 1 ensures IsTagChar(text[k]) {
        TagRun(text, colon + 1, k);
      }
    }
    if Shape(text, s, colon, end) {
      ImageEndIs(text, s + |OWNER|, colon);
      TagEndIs(text, colon + 1, end - 1);
    }
  }

  /** The same characters elsewhere are the same match. */
  lemma {:induction false} SameCharactersMatch(text: string, other: string, s: nat, t: nat)
    requires HitAt(text, s).Some?
    requires var end := HitAt(text, s).value.end;
      t + (end - s) <= |other| && text[s..end] == other[t..t + (end - s)]
    ensures HitAt(other, t) == Some(Hit(HitAt(text, s).value.colon - s + t, HitAt(text, s).value.end - s + t))
    ensures TagAt(other, HitAt(other, t).value) == TagAt(text, HitAt(text, s).value)
  {
    var hit := HitAt(text, s).value;
    var colon, end := hit.colon - s + t, hit.end - s + t;
    HitIsShape(text, s, hit.colon, hit.end);
    ShapeMoves(text, other, s, t, hit);
    HitIsShape(other, t, colon, end);
    SameTag(text, other, s, t, hit);
  }

  lemma {:induction false} SameTag(text: string, other: string, s: nat, t: nat, hit: Hit)
    requires s <= hit.colon && hit.colon + 2 < hit.end <= |text| && t + (hit.end - s) <= |other|
    requires text[s..hit.end] == other[t..t + (hit.end - s)]
    ensures text[hit.colon + 1..hit.end - 1] == other[hit.colon - s + t + 1..hit.end - s + t - 1]
  {
    SliceOfSlice(text, s, hit.end, hit.colon + 1, hit.end - 1);
    SliceOfSlice(other, t, hit.end - s + t, hit.colon - s + t + 1, hit.end - s + t - 1);
  }

  lemma {:induction false} ShapeMoves(text: string, other: string, s: nat, t: nat, hit: Hit)
    requires Shape(text, s, hit.colon, hit.end)
    requires t + (hit.end - s) <= |other| && text[s..hit.end] == other[t..t + (hit.end - s)]
    ensures Shape(other, t, hit.colon - s + t, hit.end - s + t)
  {
    CopiedAt(text, other, s, hit.end, t);
    OwnerMoves(text, other, s, t, |OWNER|);
  }

  lemma {:induction false} CopiedAt(text: string, other: string, s: nat, end: nat, t: nat)
    requires s <= end <= |text| && t + (end - s) <= |other| && text[s..end] == other[t..t + (end - s)]
    ensures forall k :: t <= k < t + (end - s) ==> other[k] == text[k - t + s]
  {
    forall k | t <= k < t + (end - s)
      ensures other[k] == text[k - t + s]
    {
      assert other[t..t + (end - s)][k - t] == text[s..end][k - t];
    }
  }

  lemma {:induction false} OwnerCharacters(text: string, p: nat)
    requires OwnerAt(text, p, |OWNER|)
    ensures p + 11 < |text| && text[p + 11] == '/' && forall k :: p <= k < p + 12 ==> text[k] != '"'
  {
    OwnerCharacter(text, p, 12, 11);
    forall k | p <= k < p + 12 ensures text[k] != '"' {
      OwnerCharacter(text, p, 12, k - p);
    }
  }

  /** No match starts inside another. */
  lemma {:induction false} MatchesAreApart(text: string, s: nat, p: nat)
    requires HitAt(text, s).Some? && s < p < HitAt(text, s).value.end
    ensures HitAt(text, p).None?
  {
    var hit := HitAt(text, s).value;
    HitIsShape(text, s, hit.colon, hit.end);
    if OwnerAt(text, p, |OWNER|) {
      OwnerCharacters(text, p);
    }
  }

  lemma {:induction false} NoHitBefore(text: string, from: nat, p: nat)
    requires from <= |text| && from <= p < NextHit(text, from)
    ensures HitAt(text, p).None?
    decreases p - from
  {
    if from < p {
      NoHitBefore(text, from + 1, p);
    }
  }

  /** A rewritten match has the shape of a match wherever it stands, with the new tag for its tag. */
  lemma {:induction false} RetaggedShape(text: string, s: nat, version: string, front: string, rest: string, hit: Hit)
    requires HitAt(text, s) == Some(hit) && Shape(text, s, hit.colon, hit.end) && IsTag(version)
    ensures var whole, colon := front + Retagged(text, s, version) + rest, |front| + (hit.colon - s);
      Shape(whole, |front|, colon, |front| + |Retagged(text, s, version)|)
  {
    var piece := Retagged(text, s, version);
    var whole, p, colon := front + piece + rest, |front|, |front| + (hit.colon - s);
    forall k | s <= k < hit.colon ensures whole[k - s + p] == text[k] {
      assert piece[k - s] == text[s..hit.colon][k - s];
    }
    OwnerMoves(text, whole, s, p, |OWNER|);
    forall k | p + |OWNER| <= k < colon ensures IsImageChar(whole[k]) {
      assert whole[k] == text[k - p + s];
    }
    forall k | colon < k < p + |piece| - 1 ensures IsTagChar(whole[k]) {
      assert whole[k] == version[k - colon - 1];
    }
  }

  lemma {:induction false} Middle(a: string, b: string, c: string)
    ensures (a + b + c)[|a|..|a| + |b|] == b
  {
  }

  lemma {:induction false} RetaggedTag(text: string, s: nat, version: string, front: string, rest: string, hit: Hit)
    requires HitAt(text, s) == Some(hit)
    ensures var whole, colon := front + Retagged(text, s, version) + rest, |front| + (hit.colon - s);
      && colon + 1 + |version| == |front| + |Retagged(text, s, version)| - 1 < |whole|
      && whole[colon + 1..colon + 1 + |version|] == version
  {
    var head, end := front + text[s..hit.colon] + ":", "\"" + rest;
    assert front + Retagged(text, s, version) + rest == head + version + end;
    Middle(head, version, end);
  }

  /** A rewritten match, wherever it stands, is a match with the new tag. */
  lemma {:induction false} RetaggedMatches(text: string, s: nat, version: string, front: string, rest: string)
    requires HitAt(text, s).Some? && IsTag(version)
    ensures var whole, p := front + Retagged(text, s, version) + rest, |front|;
      && HitAt(whole, p).Some? && HitAt(whole, p).value.end == p + |Retagged(text, s, version)|
      && TagAt(whole, HitAt(whole, p).value) == version
  {
    var hit, end := HitAt(text, s).value, |front| + |Retagged(text, s, version)|;
    HitIsShape(text, s, hit.colon, hit.end);
    RetaggedShape(text, s, version, front, rest, hit);
    RetaggedTag(text, s, version, front, rest, hit);
    HitIsShape(front + Retagged(text, s, version) + rest, |front|, |front| + (hit.colon - s), end);
  }

  // ----- Replacing first occurrences ------------------------------------------------------------------

  function IndexFrom(text: string, part: string, i: nat): (k: nat)
    requires i <= |text|
    ensures i <= k <= |text|
    decreases |text| - i
  {
    if i == |text| || OccursAt(text, part, i) then i else IndexFrom(text, part, i + 1)
  }

  /** `text.replace(old, with)` for a plain string. */
  function ReplaceFirst(text: string, old_: string, with: string): string {
    var i := IndexFrom(text, old_, 0);
    if OccursAt(text, old_, i) then text[..i] + with + text[i + |old_|..] else text
  }

  lemma {:induction false} IndexIs(text: string, part: string, i: nat, k: nat)
    requires i <= k <= |text| && OccursAt(text, part, k) && forall p :: i <= p < k ==> !OccursAt(text, part, p)
    ensures IndexFrom(text, part, i) == k
    decreases k - i
  {
    if i < k {
      IndexIs(text, part, i + 1, k);
    }
  }

  /** The state of the loop: the part already rewritten, and the original text from `last` on. */
  ghost predicate Rewriting(front: string, content: string, last: nat, version: string) {
    last <= |content| && TagsBefore(front + content[last..], |front|, version)
  }

  /** Before the next match, every match in the partly rewritten text carries the new tag. */
  lemma {:induction false} TagBeforeNext(front: string, content: string, last: nat, version: string, p: nat)
    requires Rewriting(front, content, last, version) && p < |front| + (NextHit(content, last) - last)
    ensures TagIs(front + content[last..], p, version)
  {
    var text := front + content[last..];
    if p >= |front| && HitAt(text, p).Some? {
      var q, end := last + (p - |front|), HitAt(text, p).value.end;
      assert text[p..end] == content[q..q + (end - p)];
      SameCharactersMatch(text, content, p, q);
      NoHitBefore(content, last, q);
    }
  }

  lemma {:induction false} NotEarlier(front: string, content: string, last: nat, version: string, p: nat)
    requires Rewriting(front, content, last, version) && NextHit(content, last) < |content|
    requires TagAt(content, HitAt(content, NextHit(content, last)).value) != version
    requires p < |front| + (NextHit(content, last) - last)
    ensures var s := NextHit(content, last);
      !OccursAt(front + content[last..], content[s..HitAt(content, s).value.end], p)
  {
    var s := NextHit(content, last);
    var text, part := front + content[last..], content[s..HitAt(content, s).value.end];
    if OccursAt(text, part, p) {
      SameCharactersMatch(content, text, s, p);
      TagBeforeNext(front, content, last, version, p);
    }
  }

  predicate NotBefore(text: string, part: string, at: nat) {
    forall p :: 0 <= p < at ==> !OccursAt(text, part, p)
  }

  lemma {:induction false} NoneEarlier(front: string, content: string, last: nat, version: string)
    requires Rewriting(front, content, last, version) && NextHit(content, last) < |content|
    requires TagAt(content, HitAt(content, NextHit(content, last)).value) != version
    ensures var s := NextHit(content, last);
      NotBefore(front + content[last..], content[s..HitAt(content, s).value.end], |front| + (s - last))
  {
    var s := NextHit(content, last);
    var text, part := front + content[last..], content[s..HitAt(content, s).value.end];
    forall p | 0 <= p < |front| + (s - last) ensures !OccursAt(text, part, p) {
      NotEarlier(front, content, last, version, p);
    }
  }

  lemma {:induction false} ReplaceAt(text: string, part: string, with: string, at: nat)
    requires OccursAt(text, part, at) && NotBefore(text, part, at)
    ensures ReplaceFirst(text, part, with) == text[..at] + with + text[at + |part|..]
  {
    IndexIs(text, part, 0, at);
  }

  lemma {:induction false} InTheRest(front: string, content: string, last: nat, s: nat, end: nat)
    requires last <= s <= end <= |content|
    ensures var text, at := front + content[last..], |front| + (s - last);
      && OccursAt(text, content[s..end], at)
      && text[..at] == front + content[last..s] && text[at + (end - s)..] == content[end..]
  {
    var text, at := front + content[last..], |front| + (s - last);
    assert text[at..at + (end - s)] == content[s..end];
  }

  lemma {:induction false} ReplaceInRest(front: string, content: string, last: nat, s: nat, end: nat, with: string)
    requires last <= s <= end <= |content|
    requires NotBefore(front + content[last..], content[s..end], |front| + (s - last))
    ensures ReplaceFirst(front + content[last..], content[s..end], with)
      == front + content[last..s] + with + content[end..]
  {
    InTheRest(front, content, last, s, end);
    ReplaceAt(front + content[last..], content[s..end], with, |front| + (s - last));
  }

  /** The first occurrence of the next match's text is the next match. */
  lemma {:induction false} FirstOccurrenceIsNext(front: string, content: string, last: nat, version: string)
    requires Rewriting(front, content, last, version) && NextHit(content, last) < |content|
    requires TagAt(content, HitAt(content, NextHit(content, last)).value) != version
    ensures var s := NextHit(content, last);
      var end := HitAt(content, s).value.end;
      ReplaceFirst(front + content[last..], content[s..end], Retagged(content, s, version))
      == front + content[last..s] + Retagged(content, s, version) + content[end..]
  {
    var s := NextHit(content, last);
    NoneEarlier(front, content, last, version);
    ReplaceInRest(front, content, last, s, HitAt(content, s).value.end, Retagged(content, s, version));
  }

  lemma {:induction false} SamePrefixSameSlice(a: string, b: string, n: nat, i: nat, j: nat)
    requires i <= j <= n <= |a| && n <= |b| && a[..n] == b[..n]
    ensures a[i..j] == b[i..j]
  {
    SliceOfSlice(a, 0, n, i, j);
    SliceOfSlice(b, 0, n, i, j);
    assert a[0..n] == a[..n] && b[0..n] == b[..n];
  }

  /** Before a rewritten match, what the text shows is what it showed before the rewriting. */
  lemma {:induction false} TagBeforePiece(
      front: string, content: string, last: nat, version: string, after: string, p: nat)
    requires Rewriting(front, content, last, version)
    requires var at := |front| + (NextHit(content, last) - last);
      p < at <= |after| && after[..at] == front + content[last..NextHit(content, last)]
      && (at < |after| ==> HitAt(after, at).Some?)
    ensures TagIs(after, p, version)
  {
    var before, at := front + content[last..], |front| + (NextHit(content, last) - last);
    EndsBefore(after, p, at);
    PrefixOfRest(front, content, last, NextHit(content, last));
    TagBeforeNext(front, content, last, version, p);
    TagInPrefix(before, after, at, p, version);
  }

  lemma {:induction false} EndsBefore(text: string, p: nat, at: nat)
    requires p < at <= |text| && (at < |text| ==> HitAt(text, at).Some?)
    ensures HitAt(text, p).Some? ==> HitAt(text, p).value.end <= at
  {
    if HitAt(text, p).Some? && HitAt(text, p).value.end > at {
      MatchesAreApart(text, p, at);
    }
  }

  lemma {:induction false} PrefixOfRest(front: string, content: string, last: nat, s: nat)
    requires last <= s <= |content|
    ensures (front + content[last..])[..|front| + (s - last)] == front + content[last..s]
  {
  }

  /** A match that ends within a common prefix has the same tag in both texts. */
  lemma {:induction false} TagInPrefix(before: string, after: string, at: nat, p: nat, version: string)
    requires at <= |before| && at <= |after| && before[..at] == after[..at] && TagIs(before, p, version)
    requires HitAt(after, p).Some? ==> HitAt(after, p).value.end <= at
    ensures TagIs(after, p, version)
  {
    if HitAt(after, p).Some? {
      SamePrefixSameSlice(before, after, at, p, HitAt(after, p).value.end);
      SameCharactersMatch(after, before, p, p);
    }
  }

  /** Inside a match no other match starts, so there is no tag to look at. */
  lemma {:induction false} NoMatchInside(text: string, s: nat, p: nat, version: string)
    requires HitAt(text, s).Some? && s < p < HitAt(text, s).value.end
    ensures TagIs(text, p, version)
  {
    MatchesAreApart(text, s, p);
  }

  /** Rewriting the next match keeps the loop's state. */
  lemma {:induction false} RewriteNext(front: string, content: string, last: nat, version: string)
    requires Rewriting(front, content, last, version) && NextHit(content, last) < |content| && IsTag(version)
    ensures var s := NextHit(content, last);
      Rewriting(front + content[last..s] + Retagged(content, s, version), content, HitAt(content, s).value.end, version)
  {
    var s := NextHit(content, last);
    var before, piece := front + content[last..s], Retagged(content, s, version);
    var rest := content[HitAt(content, s).value.end..];
    RetaggedMatches(content, s, version, before, rest);
    assert (before + piece + rest)[..|before|] == before;
    forall p | 0 <= p < |before + piece| ensures TagIs(before + piece + rest, p, version) {
      TagThroughPiece(front, content, last, version, before + piece + rest, p);
    }
  }

  /** Through the rewritten match every match carries the new tag. */
  lemma {:induction false} TagThroughPiece(
      front: string, content: string, last: nat, version: string, after: string, p: nat)
    requires Rewriting(front, content, last, version)
    requires var at := |front| + (NextHit(content, last) - last);
      && at < |after| && after[..at] == front + content[last..NextHit(content, last)]
      && HitAt(after, at).Some? && TagAt(after, HitAt(after, at).value) == version && p < HitAt(after, at).value.end
    ensures TagIs(after, p, version)
  {
    var at := |front| + (NextHit(content, last) - last);
    if p > at {
      NoMatchInside(after, at, p, version);
    } else if p < at {
      TagBeforePiece(front, content, last, version, after, p);
    }
  }

  /** A match that has the version already is rewritten to itself. */
  lemma {:induction false} SameTagStays(content: string, s: nat, version: string)
    requires HitAt(content, s).Some? && TagAt(content, HitAt(content, s).value) == version
    ensures Retagged(content, s, version) == content[s..HitAt(content, s).value.end]
  {
    var hit := HitAt(content, s).value;
    HitIsShape(content, s, hit.colon, hit.end);
    assert content[s..hit.end]
      == content[s..hit.colon] + [content[hit.colon]] + content[hit.colon + 1..hit.end - 1] + [content[hit.end - 1]];
  }

  method UpdateImageTags(content: string, version: string) returns (result: string, changed: bool)
    requires IsTag(version)
    ensures result == Retag(content, version) && AllTags(result, version)
    ensures changed <==> !AllTags(content, version)
  {
    result, changed := content, false;
    var last := 0;
    ghost var front := "";
    assert "" + content[0..] == content;
    while true
      invariant last <= |content| && Rewriting(front, content, last, version)
      invariant result == front + content[last..]
      invariant front + RetagFrom(content, last, version) == Retag(content, version)
      invariant changed <==> !TagsBefore(content, last, version)
      decreases |content| - last
    {
      var s := NextHit(content, last);
      TagsUpTo(content, last, version);
      if s == |content| {
        break;
      }
      var hit := HitAt(content, s).value;
      RewriteNext(front, content, last, version);
      RewriteTo(front, content, last, version);
      if TagAt(content, hit) != version {
        FirstOccurrenceIsNext(front, content, last, version);
        result := ReplaceFirst(result, content[s..hit.end], Retagged(content, s, version));
        changed := true;
      } else {
        SameTagStays(content, s, version);
        SplitAt(content, last, s);
        SplitAt(content, s, hit.end);
        Associate(front, content[last..s], content[s..hit.end] + content[hit.end..]);
        Associate(front + content[last..s], content[s..hit.end], content[hit.end..]);
      }
      front := front + content[last..s] + Retagged(content, s, version);
      last := hit.end;
    }
    forall p | 0 <= p < |result| ensures TagIs(result, p, version) {
      TagBeforeNext(front, content, last, version, p);
    }
  }

  lemma {:induction false} RewriteTo(front: string, content: string, last: nat, version: string)
    requires last <= |content| && NextHit(content, last) < |content|
    ensures var s := NextHit(content, last);
      front + content[last..s] + Retagged(content, s, version)
        + RetagFrom(content, HitAt(content, s).value.end, version)
      == front + RetagFrom(content, last, version)
  {
    var s := NextHit(content, last);
    var rest := RetagFrom(content, HitAt(content, s).value.end, version);
    Associate(front, content[last..s], Retagged(content, s, version));
    Associate(front, content[last..s] + Retagged(content, s, version), rest);
  }

  /** Between a visited position and the next match there is nothing, and nothing inside the match. */
  lemma {:induction false} TagsUpTo(content: string, last: nat, version: string)
    requires last <= |content|
    ensures var s := NextHit(content, last);
      if s == |content| then AllTags(content, version) <==> TagsBefore(content, last, version)
      else TagsBefore(content, HitAt(content, s).value.end, version)
           <==> TagsBefore(content, last, version) && TagAt(content, HitAt(content, s).value) == version
  {
    var s := NextHit(content, last);
    forall p | last <= p < s ensures HitAt(content, p).None? {
      NoHitBefore(content, last, p);
    }
    if s < |content| {
      forall p | s < p < HitAt(content, s).value.end ensures HitAt(content, p).None? {
        MatchesAreApart(content, s, p);
      }
      assert TagIs(content, s, version) <==> TagAt(content, HitAt(content, s).value) == version;
    }
  }

  // ----- The rewritten text is final --------------------------------------------------------------------

  lemma {:induction false} RetagFromHolds(front: string, content: string, last: nat, version: string)
    requires Rewriting(front, content, last, version) && IsTag(version)
    ensures AllTags(front + RetagFrom(content, last, version), version)
    decreases |content| - last
  {
    var s := NextHit(content, last);
    if s == |content| {
      forall p | 0 <= p < |front + content[last..]| ensures TagIs(front + content[last..], p, version) {
        TagBeforeNext(front, content, last, version, p);
      }
    } else {
      RewriteNext(front, content, last, version);
      RewriteTo(front, content, last, version);
      RetagFromHolds(
        front + content[last..s] + Retagged(content, s, version), content, HitAt(content, s).value.end, version);
    }
  }

  /** After one rewriting every tag is the version. */
  lemma {:induction false} RetagHolds(content: string, version: string)
    requires IsTag(version)
    ensures AllTags(Retag(content, version), version)
  {
    AddNothing(content);
    assert content[0..] == content;
    AddNothing(Retag(content, version));
    RetagFromHolds("", content, 0, version);
  }

  lemma {:induction false} RetagFromStays(content: string, from: nat, version: string)
    requires from <= |content| && AllTags(content, version)
    ensures RetagFrom(content, from, version) == content[from..]
    decreases |content| - from
  {
    var s := NextHit(content, from);
    if s < |content| {
      var end := HitAt(content, s).value.end;
      assert TagIs(content, s, version);
      SameTagStays(content, s, version);
      RetagFromStays(content, end, version);
      SplitAt(content, from, s);
      SplitAt(content, s, end);
      Associate(content[from..s], content[s..end], content[end..]);
    }
  }

  /** The tags are all the version exactly when rewriting changes nothing. */
  lemma {:induction false} RetagChangesNothing(content: string, version: string)
    requires IsTag(version)
    ensures AllTags(content, version) <==> Retag(content, version) == content
  {
    RetagHolds(content, version);
    if AllTags(content, version) {
      RetagFromStays(content, 0, version);
      assert content[0..] == content;
    }
  }

  // ----- Nothing but the tags changes -------------------------------------------------------------------

  /** The text from a position on with every tag, and the quote after it, cut out. */
  function UntaggedFrom(text: string, from: nat): string
    requires from <= |text|
    decreases |text| - from
  {
    var s := NextHit(text, from);
    if s == |text| then text[from..]
    else
      var hit := HitAt(text, s).value;
      text[from..s] + text[s..hit.colon + 1] + UntaggedFrom(text, hit.end)
  }

  /** A match before a common part ends shows in both texts. */
  lemma {:induction false} NoNewMatch(front: string, content: string, last: nat, s: nat, after: string, p: nat)
    requires last <= s <= |content| && s <= NextHit(content, last)
    requires |front| <= p < |front| + (s - last) <= |after|
    requires after[..|front| + (s - last)] == front + content[last..s]
    requires HitAt(after, p).Some? ==> HitAt(after, p).value.end <= |front| + (s - last)
    ensures HitAt(after, p).None?
  {
    if HitAt(after, p).Some? {
      var at, end, q := |front| + (s - last), HitAt(after, p).value.end, last + (p - |front|);
      SamePrefixSameSlice(after, front + content[last..s], at, p, end);
      assert (front + content[last..s])[p..end] == content[q..q + (end - p)];
      SameCharactersMatch(after, content, p, q);
      NoHitBefore(content, last, q);
    }
  }

  lemma {:induction false} NextHitIs(text: string, from: nat, s: nat)
    requires from <= s <= |text| && (s < |text| ==> HitAt(text, s).Some?)
    requires forall p :: from <= p < s ==> HitAt(text, p).None?
    ensures NextHit(text, from) == s
    decreases s - from
  {
    if from < s {
      NextHitIs(text, from + 1, s);
    }
  }

  lemma {:induction false} NextHitMoves(front: string, content: string, last: nat, after: string)
    requires last <= |content|
    requires var s := NextHit(content, last); var at := |front| + (s - last);
      && at <= |after| && after[..at] == front + content[last..s]
      && if s == |content| then at == |after| else at < |after| && HitAt(after, at).Some?
    ensures NextHit(after, |front|) == |front| + (NextHit(content, last) - last)
  {
    var s := NextHit(content, last);
    var at := |front| + (s - last);
    forall p | |front| <= p < at ensures HitAt(after, p).None? {
      EndsBefore(after, p, at);
      NoNewMatch(front, content, last, s, after, p);
    }
    NextHitIs(after, |front|, at);
  }

  lemma {:induction false} UntaggedNext(text: string, from: nat, colon: nat, end: nat)
    requires from <= |text| && NextHit(text, from) < |text|
    requires HitAt(text, NextHit(text, from)) == Some(Hit(colon, end))
    ensures UntaggedFrom(text, from)
      == text[from..NextHit(text, from)] + text[NextHit(text, from)..colon + 1] + UntaggedFrom(text, end)
  {
  }

  lemma {:induction false} NoneToCut(front: string, content: string, last: nat, version: string)
    requires last <= |content| && NextHit(content, last) == |content|
    ensures UntaggedFrom(front + RetagFrom(content, last, version), |front|) == UntaggedFrom(content, last)
  {
    assert content[last..|content|] == content[last..];
    NextHitMoves(front, content, last, front + content[last..]);
    assert (front + content[last..])[|front|..] == content[last..];
  }

  lemma {:induction false} UntaggedStays(front: string, content: string, last: nat, version: string)
    requires last <= |content| && IsTag(version)
    ensures UntaggedFrom(front + RetagFrom(content, last, version), |front|) == UntaggedFrom(content, last)
    decreases |content| - last
  {
    hide HitAt, NextHit, UntaggedFrom, RetagFrom, IsTag;
    var s := NextHit(content, last);
    if s == |content| {
      NoneToCut(front, content, last, version);
    } else {
      var whole, hit := front + RetagFrom(content, last, version), HitAt(content, s).value;
      var piece, at := Retagged(content, s, version), |front| + (s - last);
      RewriteTo(front, content, last, version);
      RetaggedIsNext(front, content, last, version, whole);
      UntaggedStays(front + content[last..s] + piece, content, hit.end, version);
      UntaggedParts(front, content, last, version, whole);
      UntaggedNext(content, last, hit.colon, hit.end);
      UntaggedNext(whole, |front|, at + (hit.colon - s), at + |piece|);
      ColonIs(content, s, hit);
    }
  }

  lemma {:induction false} ColonIs(content: string, s: nat, hit: Hit)
    requires HitAt(content, s) == Some(hit)
    ensures content[s..hit.colon] + [':'] == content[s..hit.colon + 1]
  {
    HitIsShape(content, s, hit.colon, hit.end);
  }

  lemma {:induction false} RetaggedIsNext(front: string, content: string, last: nat, version: string, whole: string)
    requires last <= |content| && NextHit(content, last) < |content| && IsTag(version)
    requires var s := NextHit(content, last);
      front + content[last..s] + Retagged(content, s, version) <= whole
    ensures var s := NextHit(content, last);
      var at := |front| + (s - last);
      && NextHit(whole, |front|) == at < |whole|
      && HitAt(whole, at)
        == Some(Hit(at + (HitAt(content, s).value.colon - s), at + |Retagged(content, s, version)|))
  {
    var s := NextHit(content, last);
    var hit, before, piece := HitAt(content, s).value, front + content[last..s], Retagged(content, s, version);
    var rest := whole[|before + piece|..];
    assert whole == before + piece + rest;
    HitIsShape(content, s, hit.colon, hit.end);
    RetaggedShape(content, s, version, before, rest, hit);
    HitIsShape(whole, |before|, |before| + (hit.colon - s), |before + piece|);
    NextHitMoves(front, content, last, whole);
  }

  lemma {:induction false} UntaggedParts(front: string, content: string, last: nat, version: string, whole: string)
    requires last <= |content| && NextHit(content, last) < |content|
    requires var s := NextHit(content, last);
      front + content[last..s] + Retagged(content, s, version) <= whole
    ensures var s := NextHit(content, last);
      var colon, at := HitAt(content, s).value.colon, |front| + (s - last);
      whole[|front|..at] == content[last..s] && whole[at..at + (colon - s) + 1] == content[s..colon] + [':']
  {
    var s := NextHit(content, last);
    var piece, at := Retagged(content, s, version), |front| + (s - last);
    var start := front + content[last..s] + piece;
    assert start[|front|..at] == content[last..s];
    assert start[at..] == piece;
    assert whole[..|start|] == start;
    var n := HitAt(content, s).value.colon - s + 1;
    SliceOfSlice(whole, 0, |start|, |front|, at);
    SliceOfSlice(whole, 0, |start|, at, at + n);
    assert start[at..at + n] == piece[..n] == content[s..s + n - 1] + [':'];
  }

  function Untagged(text: string): string {
    UntaggedFrom(text, 0)
  }

  /** Rewriting changes nothing but the tags. */
  lemma {:induction false} RetagKeepsTheRest(content: string, version: string)
    requires IsTag(version)
    ensures Untagged(Retag(content, version)) == Untagged(content)
  {
    assert "" + RetagFrom(content, 0, version) == Retag(content, version);
    UntaggedStays("", content, 0, version);
  }
}
