/**
 What the next plan finds in a pyproject.toml that a plan has rewritten (planRuntimeMetadata of
 scripts/release-align.js), when the text that was replaced is not the version line itself.
 */
module ProjectSettles {
  import opened Common
  import opened ProjectVersion
  import CliCommands
  import ImageTags
  import ReleaseText

  // ----- Copied text -----------------------------------------------------------------------------------

  predicate SameAt(text: string, a: nat, other: string, b: nat, i: nat) {
    a + i < |text| && b + i < |other| && text[a + i] == other[b + i]
  }

  /** k characters of one text stand in another one. */
  predicate Copies(text: string, a: nat, other: string, b: nat, k: nat) {
    a + k <= |text| && b + k <= |other| && forall i: nat :: i < k ==> SameAt(text, a, other, b, i)
  }

  lemma {:induction false} SliceCopies(text: string, a: nat, other: string, b: nat, k: nat)
    requires a + k <= |text| && b + k <= |other|
    ensures text[a..a + k] == other[b..b + k] <==> Copies(text, a, other, b, k)
  {
    if text[a..a + k] == other[b..b + k] {
      forall i: nat | i < k ensures SameAt(text, a, other, b, i) {
        assert text[a..a + k][i] == text[a + i] && other[b..b + k][i] == other[b + i];
      }
    }
    if Copies(text, a, other, b, k) {
      var part, copy := text[a..a + k], other[b..b + k];
      forall i: nat | i < k ensures part[i] == copy[i] {
        assert SameAt(text, a, other, b, i);
      }
    }
  }

  lemma {:induction false} CopyIs(text: string, a: nat, other: string, b: nat, k: nat, i: nat)
    requires Copies(text, a, other, b, k) && i < k
    ensures text[a + i] == other[b + i]
  {
    assert SameAt(text, a, other, b, i);
  }

  lemma {:induction false} CopyPart(text: string, a: nat, other: string, b: nat, k: nat, i: nat, n: nat)
    requires Copies(text, a, other, b, k) && i + n <= k
    ensures Copies(text, a + i, other, b + i, n)
  {
    var c, d := a + i, b + i;
    forall j: nat | j < n ensures SameAt(text, c, other, d, j) {
      assert SameAt(text, a, other, b, i + j);
    }
  }

  lemma {:induction false} CopyFrom(text: string, a: nat, other: string, b: nat, k: nat, i: nat)
    requires Copies(text, a, other, b, k) && i <= k
    ensures Copies(text, a + i, other, b + i, k - i)
  {
    CopyPart(text, a, other, b, k, i, k - i);
  }

  /** The copied text is all that is left of both. */
  predicate Rests(text: string, a: nat, other: string, b: nat) {
    a <= |text| && b <= |other| && |text| - a == |other| - b && Copies(text, a, other, b, |text| - a)
  }

  /** White space that ends inside the copy is skipped alike, up to the same character. */
  lemma {:induction false} SpacesCopy(text: string, a: nat, other: string, b: nat, k: nat)
    requires Copies(text, a, other, b, k) && CliCommands.SkipSpaces(text, a) < a + k
    ensures var i := CliCommands.SkipSpaces(text, a) - a;
      && CliCommands.SkipSpaces(other, b) == b + i && text[a + i] == other[b + i]
      && Copies(text, a + i, other, b + i, k - i)
    decreases k
  {
    CopyIs(text, a, other, b, k, 0);
    if ReleaseText.IsSpace(text[a]) {
      CopyFrom(text, a, other, b, k, 1);
      SpacesCopy(text, a + 1, other, b + 1, k - 1);
    }
  }

  lemma {:induction false} RestFrom(text: string, a: nat, other: string, b: nat, i: nat)
    requires Rests(text, a, other, b) && a + i <= |text|
    ensures Rests(text, a + i, other, b + i)
    ensures a + i < |text| ==> text[a + i] == other[b + i]
  {
    CopyFrom(text, a, other, b, |text| - a, i);
    if a + i < |text| {
      CopyIs(text, a, other, b, |text| - a, i);
    }
  }

  lemma {:induction false} SpacesOfRest(text: string, a: nat, other: string, b: nat)
    requires Rests(text, a, other, b)
    ensures CliCommands.SkipSpaces(other, b) - b == CliCommands.SkipSpaces(text, a) - a
    decreases |text| - a
  {
    if a < |text| {
      RestFrom(text, a, other, b, 0);
      if ReleaseText.IsSpace(text[a]) {
        RestFrom(text, a, other, b, 1);
        SpacesOfRest(text, a + 1, other, b + 1);
      }
    }
  }

  lemma {:induction false} QuotesCopy(text: string, a: nat, other: string, b: nat, k: nat)
    requires Copies(text, a, other, b, k) && QuoteFrom(text, a) < a + k
    ensures QuoteFrom(other, b) - b == QuoteFrom(text, a) - a
    decreases k
  {
    CopyIs(text, a, other, b, k, 0);
    if text[a] != '"' {
      CopyFrom(text, a, other, b, k, 1);
      QuotesCopy(text, a + 1, other, b + 1, k - 1);
    }
  }

  lemma {:induction false} StopsOfRest(text: string, a: nat, other: string, b: nat, end: nat)
    requires Rests(text, a, other, b) && a <= end <= |text|
    ensures LastStop(text, a, end).Some? <==> LastStop(other, b, b + (end - a)).Some?
    decreases end
  {
    RestFrom(text, a, other, b, end - a);
    if a < end && !IsLineStop(text, end) {
      StopsOfRest(text, a, other, b, end - 1);
    }
  }

  lemma {:induction false} KeyCopies(text: string, a: nat, other: string, b: nat, k: nat)
    requires Copies(text, a, other, b, k) && |KEY| <= k && OccursAt(text, KEY, a)
    ensures OccursAt(other, KEY, b)
  {
    CopyPart(text, a, other, b, k, 0, |KEY|);
    SliceCopies(text, a, other, b, |KEY|);
  }

  /** An opening quote inside the copy is found again, at a line start. */
  lemma {:induction false} OpenCopies(text: string, a: nat, other: string, b: nat, k: nat)
    requires Copies(text, a, other, b, k) && IsLineStart(other, b)
    requires OpenAt(text, a).Some? && OpenAt(text, a).value < a + k
    ensures OpenAt(other, b) == Some(OpenAt(text, a).value - a + b)
  {
    hide IsLineStart, SameAt, OccursAt;
    var n := |KEY|;
    var i := CliCommands.SkipSpaces(text, a + n) - a;
    KeyCopies(text, a, other, b, k);
    CopyFrom(text, a, other, b, k, n);
    SpacesCopy(text, a + n, other, b + n, k - n);
    CopyFrom(text, a + i, other, b + i, k - i, 1);
    SpacesCopy(text, a + i + 1, other, b + i + 1, k - i - 1);
  }

  /** A value in quotes that stands in the rest of both texts is read alike. */
  lemma {:induction false} ClosesAlike(text: string, a: nat, other: string, b: nat)
    requires Rests(text, a, other, b) && a < |text| && QuoteFrom(text, a + 1) < |text|
    ensures var i := QuoteFrom(text, a + 1) - a;
      && QuoteFrom(other, b + 1) == b + i < |other| && Rests(text, a + i + 1, other, b + i + 1)
      && text[a + 1..a + i] == other[b + 1..b + i]
  {
    var k := |text| - a;
    var i := QuoteFrom(text, a + 1) - a;
    CopyFrom(text, a, other, b, k, 1);
    QuotesCopy(text, a + 1, other, b + 1, k - 1);
    RestFrom(text, a, other, b, i + 1);
    CopyPart(text, a, other, b, k, 1, i - 1);
    SliceCopies(text, a + 1, other, b + 1, i - 1);
  }

  lemma {:induction false} ValueCopies(text: string, a: nat, other: string, b: nat, s: nat, t: nat)
    requires Rests(text, a, other, b) && a < |text| && ValueAt(text, s, a).Some?
    ensures b < |other| && ValueAt(other, t, b).Some?
    ensures VersionIn(other, ValueAt(other, t, b).value) == VersionIn(text, ValueAt(text, s, a).value)
  {
    var i := QuoteFrom(text, a + 1) - a;
    ClosesAlike(text, a, other, b);
    SpacesOfRest(text, a + i + 1, other, b + i + 1);
    StopsOfRest(text, a + i + 1, other, b + i + 1, CliCommands.SkipSpaces(text, a + i + 1));
  }

  /** The version a line gives, if there is one. */
  function Gives(text: string, s: nat): Option<string> {
    if LineAt(text, s).Some? then Some(VersionIn(text, LineAt(text, s).value)) else None
  }

  lemma {:induction false} GivesValue(text: string, s: nat, open: nat)
    requires OpenAt(text, s) == Some(open)
    ensures LineAt(text, s) == ValueAt(text, s, open)
  {
  }

  lemma {:induction false} LineCopies(text: string, a: nat, other: string, b: nat)
    requires Rests(text, a, other, b) && IsLineStart(other, b) && LineAt(text, a).Some?
    ensures Gives(other, b) == Gives(text, a)
  {
    hide IsLineStart, OpenAt;
    var i := OpenAt(text, a).value - a;
    OpenCopies(text, a, other, b, |text| - a);
    RestFrom(text, a, other, b, i);
    GivesValue(text, a, a + i);
    GivesValue(other, b, b + i);
    ValueCopies(text, a + i, other, b + i, a, b);
  }

  lemma {:induction false} LineStarts(text: string, s: nat)
    requires LineAt(text, s).Some?
    ensures IsLineStart(text, s)
  {
  }

  lemma {:induction false} RestsAlike(text: string, a: nat, other: string, b: nat)
    requires Rests(text, a, other, b)
    ensures Rests(other, b, text, a)
  {
    forall i: nat | i < |text| - a ensures SameAt(other, b, text, a, i) {
      assert SameAt(text, a, other, b, i);
    }
  }

  /** Past the first character of the common rest, both texts have the same version lines. */
  lemma {:induction false} SameLineInRest(text: string, a: nat, other: string, b: nat)
    requires Rests(text, a, other, b) && (IsLineStart(text, a) <==> IsLineStart(other, b))
    ensures Gives(text, a) == Gives(other, b)
  {
    if LineAt(text, a).Some? {
      LineStarts(text, a);
      LineCopies(text, a, other, b);
    } else if LineAt(other, b).Some? {
      LineStarts(other, b);
      RestsAlike(text, a, other, b);
      LineCopies(other, b, text, a);
    }
  }

  // ----- The first version from a position on -----------------------------------------------------------

  function FirstSome(f: nat -> Option<string>, from: nat, end: nat): Option<string>
    requires from <= end
    decreases end - from
  {
    if from == end || f(from).Some? then f(from) else FirstSome(f, from + 1, end)
  }

  lemma {:induction false} SkipNones(f: nat -> Option<string>, from: nat, mid: nat, end: nat)
    requires from <= mid <= end && forall s: nat :: from <= s < mid ==> f(s).None?
    ensures FirstSome(f, from, end) == FirstSome(f, mid, end)
    decreases mid - from
  {
    if from < mid {
      SkipNones(f, from + 1, mid, end);
    }
  }

  lemma {:induction false} SomeIsFirst(f: nat -> Option<string>, holds: nat -> bool, from: nat, end: nat)
    requires from <= end && forall s: nat :: f(s).Some? <==> holds(s)
    ensures FirstSome(f, from, end) == f(FirstWhere(holds, from, end))
    decreases end - from
  {
    if from < end {
      SomeIsFirst(f, holds, from + 1, end);
    }
  }

  predicate Matching(f: nat -> Option<string>, a: nat, g: nat -> Option<string>, b: nat, i: nat) {
    f(a + i) == g(b + i)
  }

  lemma {:induction false} MatchingFirst(
      f: nat -> Option<string>, a: nat, g: nat -> Option<string>, b: nat, i: nat, n: nat)
    requires i <= n && forall j: nat :: i <= j <= n ==> Matching(f, a, g, b, j)
    ensures FirstSome(f, a + i, a + n) == FirstSome(g, b + i, b + n)
    decreases n - i
  {
    assert Matching(f, a, g, b, i);
    if i < n {
      MatchingFirst(f, a, g, b, i + 1, n);
    }
  }

  function Giving(text: string): nat -> Option<string> {
    (s: nat) => Gives(text, s)
  }

  /** The version of the first line found from a position on. */
  function FirstVersion(text: string, from: nat): Option<string>
    requires from <= |text|
  {
    FirstSome(Giving(text), from, |text|)
  }

  lemma {:induction false} StartsInRest(text: string, a: nat, other: string, b: nat, j: nat)
    requires Rests(text, a, other, b) && 0 < j && a + j <= |text|
    ensures Rests(text, a + j, other, b + j) && (IsLineStart(text, a + j) <==> IsLineStart(other, b + j))
  {
    RestFrom(text, a, other, b, j - 1);
    RestFrom(text, a, other, b, j);
  }

  lemma {:induction false} MatchesInRest(text: string, a: nat, other: string, b: nat, j: nat)
    requires Rests(text, a, other, b) && 0 < j && a + j <= |text|
    ensures Matching(Giving(text), a, Giving(other), b, j)
  {
    StartsInRest(text, a, other, b, j);
    SameLineInRest(text, a + j, other, b + j);
  }

  /** Past the first character of the common rest, the first version is the same. */
  lemma {:induction false} SameFirstInRest(text: string, a: nat, other: string, b: nat)
    requires Rests(text, a, other, b) && a < |text|
    ensures FirstVersion(text, a + 1) == FirstVersion(other, b + 1)
  {
    hide LineAt;
    var n := |text| - a;
    forall j: nat | 1 <= j <= n ensures Matching(Giving(text), a, Giving(other), b, j) {
      MatchesInRest(text, a, other, b, j);
    }
    MatchingFirst(Giving(text), a, Giving(other), b, 1, n);
  }

  lemma {:induction false} NoneUntil(text: string, end: nat)
    requires end <= |text| && NoneBefore(text, end)
    ensures FirstVersion(text, 0) == FirstVersion(text, end)
  {
    var f := Giving(text);
    forall s: nat | s < end ensures f(s).None? {
      assert LineAt(text, s).None?;
    }
    SkipNones(f, 0, end, |text|);
  }

  // ----- A rewritten occurrence -------------------------------------------------------------------------

  /** A line by the offsets of its quotes and its length. */
  ghost predicate Reads(text: string, s: nat, i: nat, j: nat, n: nat) {
    && 0 < i && i + 1 < j < n && s + n <= |text|
    && OpenAt(text, s) == Some(s + i) && QuoteFrom(text, s + i + 1) == s + j
    && s + n <= CliCommands.SkipSpaces(text, s + j + 1)
  }

  lemma {:induction false} LineReads(text: string, line: Line)
    requires LineAt(text, line.start) == Some(line)
    ensures line.start < line.open < line.close < line.end
    ensures var s := line.start; Reads(text, s, line.open - s, line.close - s, line.end - s)
  {
  }

  /** What the line at s matched stands earlier, at p. */
  ghost predicate Earlier(text: string, s: nat, i: nat, j: nat, n: nat, p: nat) {
    Reads(text, s, i, j, n) && p < s && Copies(text, s, text, p, n) && OccursAt(text, KEY, p)
  }

  lemma {:induction false} MatchedEarlier(text: string, line: Line, p: nat)
    requires LineAt(text, line.start) == Some(line) && p < line.start <= line.end <= |text|
    requires OccursAt(text, text[line.start..line.end], p)
    ensures line.start < line.open < line.close < line.end
    ensures var s := line.start; Earlier(text, s, line.open - s, line.close - s, line.end - s, p)
  {
    var s := line.start;
    LineReads(text, line);
    SliceCopies(text, s, text, p, line.end - s);
    LineIsQuoted(text, s);
    KeyCopies(text, s, text, p, line.end - s);
  }

  /** The text with the occurrence at p rewritten. */
  function Elsewhere(text: string, p: nat, n: nat, version: string): string
    requires p + n <= |text|
  {
    ReplacedAt(text, p, n, NewLine(version))
  }

  lemma {:induction false} ElsewhereParts(text: string, p: nat, n: nat, version: string)
    requires p + n < |text| && IsPlain(version)
    ensures var other, m := Elsewhere(text, p, n, version), |version| + 12;
      && p + m < |other| && Stands(other, version, p) && other[..p] == text[..p]
      && Rests(text, p + n, other, p + m)
  {
    var other, added := Elsewhere(text, p, n, version), NewLine(version);
    NewLineAt(version, 0);
    assert other[p..p + |added|] == added && other[..p] == text[..p];
    var past, end := p + n, p + |added|;
    forall i: nat | i < |text| - past ensures SameAt(text, past, other, end, i) {
      assert other[end..][i] == text[past..][i];
    }
  }

  lemma {:induction false} ElsewhereAgrees(text: string, other: string, version: string, p: nat)
    requires IsPlain(version) && Stands(other, version, p) && p < |text| && p < |other| && other[..p] == text[..p]
    requires OccursAt(text, KEY, p)
    ensures AgreeThrough(text, other, p) && OccursAt(other, KEY, p) && StartsSolid(other, p)
  {
    StandingKey(other, version, p);
    StandsSolid(other, version, p);
    KeyAt(text, p, 0);
    KeyAt(other, p, 0);
    FirstPart(text, other, p);
  }

  /** Inside the new line and right after it no line starts. */
  lemma {:induction false} NoneInsideNewLine(text: string, version: string, p: nat, s: nat)
    requires IsPlain(version) && Stands(text, version, p) && p < s <= p + |version| + 12
    ensures LineAt(text, s).None?
  {
    var i := s - 1 - p;
    NewLineAt(version, i);
    StandingAt(text, version, p, i);
    assert !CliCommands.IsLineEnd(text[s - 1]);
  }

  lemma {:induction false} SpacesReach(text: string, i: nat, j: nat)
    requires i <= |text| && i <= j <= CliCommands.SkipSpaces(text, i)
    ensures CliCommands.SkipSpaces(text, j) == CliCommands.SkipSpaces(text, i)
    decreases j - i
  {
    if i < j {
      SpacesReach(text, i + 1, j);
    }
  }

  /** White space up to the end of a copy is white space in the copy. */
  lemma {:induction false} CopiedSpaces(text: string, a: nat, b: nat, k: nat)
    requires Copies(text, a, text, b, k) && a + k <= CliCommands.SkipSpaces(text, a)
    ensures b + k <= CliCommands.SkipSpaces(text, b)
    decreases k
  {
    if k > 0 {
      CopyIs(text, a, text, b, k, 0);
      CopyFrom(text, a, text, b, k, 1);
      CopiedSpaces(text, a + 1, b + 1, k - 1);
    }
  }

  lemma {:induction false} CopiedQuotes(text: string, s: nat, i: nat, j: nat, n: nat, p: nat)
    requires i + 1 < j < n && Copies(text, s, text, p, n)
    requires QuoteFrom(text, s + i + 1) == s + j && s + n <= CliCommands.SkipSpaces(text, s + j + 1)
    ensures QuoteFrom(text, p + i + 1) == p + j && p + n <= CliCommands.SkipSpaces(text, p + j + 1)
  {
    hide Copies;
    CopyFrom(text, s, text, p, n, i + 1);
    QuotesCopy(text, s + i + 1, text, p + i + 1, n - i - 1);
    CopyFrom(text, s, text, p, n, j + 1);
    CopiedSpaces(text, s + j + 1, p + j + 1, n - j - 1);
  }

  /** The quotes of a copy stand as in the line, with white space up to its end. */
  lemma {:induction false} CopyReads(text: string, s: nat, i: nat, j: nat, n: nat, p: nat)
    requires Reads(text, s, i, j, n) && IsLineStart(text, p) && Copies(text, s, text, p, n)
    ensures Reads(text, p, i, j, n)
  {
    hide Copies, OpenAt, IsLineStart;
    OpenCopies(text, s, text, p, n);
    CopiedQuotes(text, s, i, j, n, p);
  }

  lemma {:induction false} NoStopAfter(text: string, s: nat, i: nat, j: nat, n: nat)
    requires LineAt(text, s).None? && Reads(text, s, i, j, n)
    ensures LastStop(text, s + j + 1, CliCommands.SkipSpaces(text, s + j + 1)).None?
  {
  }

  /** No stop in the white space of one text, none in what is left of it in the other. */
  lemma {:induction false} NoStopInRest(text: string, from: nat, a: nat, other: string, b: nat)
    requires Rests(text, a, other, b) && from <= a <= CliCommands.SkipSpaces(text, from)
    requires LastStop(text, from, CliCommands.SkipSpaces(text, from)).None?
    ensures LastStop(other, b, CliCommands.SkipSpaces(other, b)).None?
  {
    var spaces := CliCommands.SkipSpaces(text, from);
    SpacesReach(text, from, a);
    assert LastStop(text, a, spaces).None?;
    SpacesOfRest(text, a, other, b);
    StopsOfRest(text, a, other, b, spaces);
  }

  lemma {:induction false} StandingWithoutStop(text: string, version: string, s: nat)
    requires IsPlain(version) && Stands(text, version, s) && s + |version| + 12 <= |text|
    requires LastStop(text, s + |version| + 12, CliCommands.SkipSpaces(text, s + |version| + 12)).None?
    ensures LineAt(text, s).None?
  {
    if IsLineStart(text, s) {
      StandingOpens(text, version, s);
      StandingClose(text, version, s);
    }
  }

  lemma {:induction false} NotALineStart(text: string, other: string, p: nat)
    requires !IsLineStart(text, p) && p <= |text| && p <= |other| && other[..p] == text[..p]
    ensures LineAt(other, p).None?
  {
    assert other[..p][p - 1] == text[..p][p - 1];
    if LineAt(other, p).Some? {
      LineStarts(other, p);
    }
  }

  /** A copy that is no line has no line end in the white space behind it. */
  lemma {:induction false} CopyHasNoStop(text: string, s: nat, i: nat, j: nat, n: nat, p: nat)
    requires Reads(text, s, i, j, n) && Copies(text, s, text, p, n) && IsLineStart(text, p) && LineAt(text, p).None?
    ensures p + j + 1 <= p + n <= CliCommands.SkipSpaces(text, p + j + 1)
    ensures LastStop(text, p + j + 1, CliCommands.SkipSpaces(text, p + j + 1)).None?
  {
    CopyReads(text, s, i, j, n, p);
    NoStopAfter(text, p, i, j, n);
  }

  /** The occurrence was no version line, for want of a line end behind it, and the new line in its place is none. */
  lemma {:induction false} NoneInPlaceOfCopy(
      text: string, s: nat, i: nat, j: nat, n: nat, p: nat, other: string, version: string)
    requires Reads(text, s, i, j, n) && Copies(text, s, text, p, n) && LineAt(text, p).None?
    requires IsPlain(version) && Stands(other, version, p) && other[..p] == text[..p]
    requires Rests(text, p + n, other, p + |version| + 12)
    ensures LineAt(other, p).None?
  {
    hide Copies, LineAt;
    if IsLineStart(text, p) {
      CopyHasNoStop(text, s, i, j, n, p);
      NoStopInRest(text, p + j + 1, p + n, other, p + |version| + 12);
      StandingWithoutStop(other, version, p);
    } else {
      NotALineStart(text, other, p);
    }
  }

  /** No version line starts before the rest of the text. */
  lemma {:induction false} NoneUpToRest(
      text: string, s: nat, i: nat, j: nat, n: nat, p: nat, other: string, version: string, k: nat)
    requires Earlier(text, s, i, j, n, p) && (k < s ==> LineAt(text, k).None?) && k <= p + |version| + 12
    requires IsPlain(version) && Stands(other, version, p) && other[..p] == text[..p]
    requires Rests(text, p + n, other, p + |version| + 12)
    ensures LineAt(other, k).None?
  {
    hide LineAt, Reads, Copies;
    if k < p {
      ElsewhereAgrees(text, other, version, p);
      NoneAppears(text, other, p, k);
    } else if k == p {
      NoneInPlaceOfCopy(text, s, i, j, n, p, other, version);
    } else {
      NoneInsideNewLine(other, version, p, k);
    }
  }

  lemma {:induction false} FoundInRest(
      text: string, s: nat, i: nat, j: nat, n: nat, p: nat, other: string, version: string)
    requires Earlier(text, s, i, j, n, p) && NoneBefore(text, s) && p + n < |text|
    requires IsPlain(version) && Stands(other, version, p) && other[..p] == text[..p]
    requires Rests(text, p + n, other, p + |version| + 12)
    ensures FirstVersion(other, 0) == FirstVersion(text, p + n + 1)
  {
    hide LineAt, Reads, Copies, Stands;
    var m := |version| + 12;
    forall k | 0 <= k < p + m + 1 ensures LineAt(other, k).None? {
      NoneUpToRest(text, s, i, j, n, p, other, version, k);
    }
    NoneUntil(other, p + m + 1);
    SameFirstInRest(text, p + n, other, p + m);
  }

  /** After a rewriting elsewhere, the version found is the first one past the replaced text. */
  lemma {:induction false} FoundElsewhere(text: string, s: nat, i: nat, j: nat, n: nat, p: nat, version: string)
    requires Earlier(text, s, i, j, n, p) && NoneBefore(text, s) && IsPlain(version)
    ensures p + n < |text| && FirstVersion(Elsewhere(text, p, n, version), 0) == FirstVersion(text, p + n + 1)
  {
    hide LineAt, Copies, Rests, Stands;
    ElsewhereParts(text, p, n, version);
    FoundInRest(text, s, i, j, n, p, Elsewhere(text, p, n, version), version);
  }

  // ----- The next plan -----------------------------------------------------------------------------------

  /** The file after an application of the plan. */
  function Applied(text: string, version: string): string {
    var plan := Planned(text, version);
    if plan.Change? then plan.text else text
  }

  /** What a plan says, by the version it finds. */
  lemma {:induction false} PlannedByVersion(text: string, version: string)
    ensures var found, plan := FirstVersion(text, 0), Planned(text, version);
      && (plan.NoVersion? <==> found.None?) && (plan.UpToDate? <==> found == Some(version))
      && (plan.Change? ==> found == Some(plan.from))
  {
    var f, holds := Giving(text), IsLine(text);
    forall s: nat ensures f(s).Some? <==> holds(s) {
      assert f(s) == Gives(text, s) && holds(s) == LineAt(text, s).Some?;
    }
    SomeIsFirst(f, holds, 0, |text|);
  }

  /** The version line and the first occurrence of what it matched, which is what a plan replaces. */
  datatype Aim = Aim(line: Line, at: nat) {
    /** Where the replaced text ends. */
    function Past(): int { at + line.end - line.start }
  }

  function AimOf(text: string): Option<Aim> {
    var line := VersionLine(text);
    if line.None? then None
    else Some(Aim(line.value, ImageTags.IndexFrom(text, text[line.value.start..line.value.end], 0)))
  }

  lemma {:induction false} IndexIsFirst(text: string, part: string, from: nat, at: nat)
    requires from <= at <= |text| && OccursAt(text, part, at) && forall q :: 0 <= q < from ==> !OccursAt(text, part, q)
    ensures var p := ImageTags.IndexFrom(text, part, from);
      p <= at && OccursAt(text, part, p) && ImageTags.NotBefore(text, part, p)
    decreases at - from
  {
    if !OccursAt(text, part, from) {
      IndexIsFirst(text, part, from + 1, at);
    }
  }

  /** What is aimed at is the first line and the first occurrence of its text, in the line or before it. */
  ghost predicate AimsFirst(text: string, aim: Aim) {
    && IsFirst(text, aim.line) && aim.at <= aim.line.start <= aim.line.end <= |text|
    && OccursAt(text, text[aim.line.start..aim.line.end], aim.at)
    && ImageTags.NotBefore(text, text[aim.line.start..aim.line.end], aim.at)
  }

  lemma {:induction false} AimIsFirst(text: string)
    requires AimOf(text).Some?
    ensures AimsFirst(text, AimOf(text).value)
  {
    var line := VersionLine(text).value;
    FoundIsFirst(text, line);
    IndexIsFirst(text, text[line.start..line.end], 0, line.start);
  }

  /** The version that the next plan finds. */
  function NextVersion(text: string, version: string): Option<string> {
    var aim := AimOf(text);
    if aim.None? then None
    else if VersionIn(text, aim.value.line) == version || aim.value.at == aim.value.line.start then Some(version)
    else if 0 <= aim.value.Past() < |text| then FirstVersion(text, aim.value.Past() + 1)
    else None
  }

  lemma {:induction false} PlannedText(text: string, version: string, line: Line)
    requires VersionLine(text) == Some(line) && VersionIn(text, line) != version
    ensures Applied(text, version)
      == ImageTags.ReplaceFirst(text, text[line.start..line.end], NewLine(version))
  {
    hide LineAt, ImageTags.ReplaceFirst;
  }

  lemma {:induction false} AppliedText(text: string, version: string, aim: Aim)
    requires AimOf(text) == Some(aim) && AimsFirst(text, aim) && VersionIn(text, aim.line) != version
    ensures aim.at + (aim.line.end - aim.line.start) <= |text|
    ensures Applied(text, version) == Elsewhere(text, aim.at, aim.line.end - aim.line.start, version)
  {
    hide LineAt, IsFirst, Applied, ImageTags.IndexFrom, ImageTags.ReplaceFirst, ImageTags.NotBefore;
    PlannedText(text, version, aim.line);
    ReplacedFirst(text, text[aim.line.start..aim.line.end], NewLine(version), aim.at);
  }

  /** A planned change changes the text: it would not print another version's line. */
  lemma {:induction false} ChangeDiffers(text: string, version: string)
    requires IsPlain(version) && Planned(text, version).Change?
    ensures Applied(text, version) != text
  {
    hide LineAt;
    var aim := AimOf(text).value;
    var line := aim.line;
    AimIsFirst(text);
    AppliedText(text, version, aim);
    if Applied(text, version) == text {
      LineIsQuoted(text, line.start);
      StandsWhereReplaced(text, aim.at, line.end - line.start, version);
      SameQuotesSameVersion(text, line, version, aim.at);
    }
  }

  lemma {:induction false} StandsWhereReplaced(text: string, p: nat, n: nat, version: string)
    requires p + n <= |text| && Elsewhere(text, p, n, version) == text
    ensures Stands(text, version, p)
  {
    var added := NewLine(version);
    assert Elsewhere(text, p, n, version)[p..p + |added|] == added;
  }

  lemma {:induction false} AppliedElsewhere(text: string, version: string, aim: Aim)
    requires IsPlain(version) && AimsFirst(text, aim) && aim.at < aim.line.start
    requires aim.at + (aim.line.end - aim.line.start) <= |text|
    ensures 0 <= aim.Past() < |text|
    ensures FirstVersion(Elsewhere(text, aim.at, aim.line.end - aim.line.start, version), 0)
      == FirstVersion(text, aim.Past() + 1)
  {
    hide LineAt, Reads, Copies, FirstVersion;
    var line, s := aim.line, aim.line.start;
    MatchedEarlier(text, line, aim.at);
    FoundElsewhere(text, s, line.open - s, line.close - s, line.end - s, aim.at, version);
  }

  lemma {:induction false} AppliedInPlace(text: string, version: string)
    requires IsPlain(version) && AimOf(text).Some? && AimOf(text).value.at == AimOf(text).value.line.start
    requires VersionIn(text, AimOf(text).value.line) != version
    ensures FirstVersion(Applied(text, version), 0) == Some(version)
  {
    hide LineAt, FirstVersion;
    AimIsFirst(text);
    HitsWhenFirst(text, AimOf(text).value.line, version);
    InPlaceIsUpToDate(text, version);
    PlannedByVersion(Applied(text, version), version);
  }

  /**
   The version found after a plan was applied, for every file: the target if nothing had to be changed or if the
   matched text has no earlier occurrence, and otherwise what the first version line past the replaced text gives.
   */
  lemma {:induction false} NextPlanFinds(text: string, version: string)
    requires IsPlain(version)
    ensures FirstVersion(Applied(text, version), 0) == NextVersion(text, version)
  {
    hide LineAt, FirstVersion;
    PlannedByVersion(text, version);
    if AimOf(text).Some? && VersionIn(text, AimOf(text).value.line) != version {
      var aim := AimOf(text).value;
      AimIsFirst(text);
      if aim.at == aim.line.start {
        AppliedInPlace(text, version);
      } else {
        AppliedText(text, version, aim);
        AppliedElsewhere(text, version, aim);
      }
    }
  }

  /** One application settles the version. */
  predicate Settles(text: string, version: string) {
    NextVersion(text, version) == Some(version)
  }

  /** One application leaves nothing to do exactly when the version settles, and no version when it finds none. */
  lemma {:induction false} SettlesExactly(text: string, version: string)
    requires IsPlain(version)
    ensures Planned(Applied(text, version), version).UpToDate? <==> Settles(text, version)
    ensures Planned(Applied(text, version), version).NoVersion? <==> NextVersion(text, version).None?
  {
    hide LineAt, FirstVersion;
    NextPlanFinds(text, version);
    PlannedByVersion(Applied(text, version), version);
  }

  lemma {:induction false} LineGives(text: string, line: Line, from: nat)
    requires IsFirst(text, line) && from <= line.start <= |text|
    ensures FirstVersion(text, from) == Some(VersionIn(text, line))
  {
    var f := Giving(text);
    forall s: nat | from <= s < line.start ensures f(s).None? {
      assert LineAt(text, s).None?;
    }
    SkipNones(f, from, line.start, |text|);
    assert f(line.start) == Gives(text, line.start);
  }

  lemma {:induction false} MissedLineIsNext(text: string, version: string, aim: Aim)
    requires AimOf(text) == Some(aim) && 0 <= aim.Past() < aim.line.start <= |text| && aim.at != aim.line.start
    requires VersionIn(text, aim.line) != version
    requires FirstVersion(text, aim.Past() + 1) == Some(VersionIn(text, aim.line))
    ensures NextVersion(text, version) == Some(VersionIn(text, aim.line))
  {
    hide LineAt, FirstVersion;
  }

  /**
   When the matched text occurs earlier, the version settles only if the replaced text reached the version line and a
   later line has the version already: a line that lies past it keeps its version.
   */
  lemma {:induction false} MissedLineStays(text: string, version: string)
    requires AimOf(text).Some? && AimOf(text).value.at < AimOf(text).value.line.start
    requires AimOf(text).value.Past() < AimOf(text).value.line.start
    ensures VersionIn(text, AimOf(text).value.line) != version ==> !Settles(text, version)
  {
    hide LineAt, FirstVersion, OccursAt;
    var aim := AimOf(text).value;
    AimIsFirst(text);
    LineGives(text, aim.line, aim.Past() + 1);
    if VersionIn(text, aim.line) != version {
      MissedLineIsNext(text, version, aim);
    }
  }
}
