/**
 The project version of pyproject.toml (planRuntimeMetadata of scripts/release-align.js).  The version line is
 found by a pattern, but what is replaced is the first occurrence of the text it matched.
 */
module ProjectVersion {
  import opened Common
  import CliCommands
  import ImageTags
  import ReleaseText

  const KEY: string := "version"

  /** A match of `/^version\s*=\s*"([^"]+)"\s*$/m`: where it starts, its quotes, and where it ends. */
  datatype Line = Line(start: nat, open: nat, close: nat, end: nat)

  predicate IsLineStart(text: string, s: nat) {
    s == 0 || (s <= |text| && CliCommands.IsLineEnd(text[s - 1]))
  }

  predicate IsLineStop(text: string, e: nat) {
    e == |text| || (e < |text| && CliCommands.IsLineEnd(text[e]))
  }

  function QuoteFrom(text: string, i: nat): (q: nat)
    requires i <= |text|
    ensures i <= q <= |text| && (q < |text| ==> text[q] == '"')
    ensures forall k :: i <= k < q ==> text[k] != '"'
    decreases |text| - i
  {
    if i < |text| && text[i] != '"' then QuoteFrom(text, i + 1) else i
  }

  /** The last line end between two positions: `\s*$` gives back white space until it stands at one. */
  function LastStop(text: string, from: nat, to: nat): (stop: Option<nat>)
    requires from <= to
    ensures stop.Some? ==> from <= stop.value <= to && IsLineStop(text, stop.value)
    ensures stop.None? ==> forall e :: from <= e <= to ==> !IsLineStop(text, e)
  {
    if IsLineStop(text, to) then Some(to) else if from == to then None else LastStop(text, from, to - 1)
  }

  /** The value between quotes and the end of the line, once the opening quote is found. */
  function ValueAt(text: string, s: nat, open: nat): (line: Option<Line>)
    requires open < |text|
    ensures line.Some? ==> line.value.open + 1 < line.value.close < line.value.end <= |text|
  {
    var close := QuoteFrom(text, open + 1);
    if close == |text| || close == open + 1 then None
    else
      var stop := LastStop(text, close + 1, CliCommands.SkipSpaces(text, close + 1));
      if stop.None? then None else Some(Line(s, open, close, stop.value))
  }

  /** Where the opening quote of a version line at s would be. */
  function OpenAt(text: string, s: nat): (open: Option<nat>)
    ensures open.Some? ==> s + |KEY| < open.value < |text| && text[open.value] == '"'
  {
    if !IsLineStart(text, s) || !OccursAt(text, KEY, s) then None
    else
      var eq := CliCommands.SkipSpaces(text, s + |KEY|);
      if eq == |text| || text[eq] != '=' then None
      else
        var open := CliCommands.SkipSpaces(text, eq + 1);
        if open == |text| || text[open] != '"' then None else Some(open)
  }

  function LineAt(text: string, s: nat): (line: Option<Line>)
    ensures line.Some? ==>
      line.value.start == s < line.value.open && line.value.open + 1 < line.value.close < line.value.end <= |text|
  {
    var open := OpenAt(text, s);
    if open.None? then None else ValueAt(text, s, open.value)
  }

  /** The first position from `from` on at which something holds, or the end. */
  function FirstWhere(holds: nat -> bool, from: nat, end: nat): (k: nat)
    requires from <= end
    ensures from <= k <= end
    decreases end - from
  {
    if from == end || holds(from) then from else FirstWhere(holds, from + 1, end)
  }

  lemma {:induction false} NothingBeforeFirst(holds: nat -> bool, from: nat, end: nat, s: nat)
    requires from <= end && from <= s < FirstWhere(holds, from, end)
    ensures !holds(s)
    decreases end - from
  {
    if from < s {
      NothingBeforeFirst(holds, from + 1, end, s);
    }
  }

  lemma {:induction false} FirstWhereIs(holds: nat -> bool, from: nat, end: nat, k: nat)
    requires from <= k <= end && holds(k) && forall s: nat :: from <= s < k ==> !holds(s)
    ensures FirstWhere(holds, from, end) == k
    decreases end - from
  {
    if from < k {
      FirstWhereIs(holds, from + 1, end, k);
    }
  }

  function IsLine(text: string): nat -> bool {
    (s: nat) => LineAt(text, s).Some?
  }

  /** The first match in the text. */
  function VersionLine(text: string): (line: Option<Line>)
    ensures line.Some? ==> LineAt(text, line.value.start) == line && line.value.start <= line.value.end <= |text|
  {
    LineAt(text, FirstWhere(IsLine(text), 0, |text|))
  }

  /** A line ends before position s, or the text starts there. */
  predicate StartsLine(text: string, s: nat) {
    s == 0 || (s <= |text| && text[s - 1] as int in {10, 13, 0x2028, 0x2029})
  }

  predicate StopsLine(text: string, e: nat) {
    e == |text| || (e < |text| && text[e] as int in {10, 13, 0x2028, 0x2029})
  }

  /**
   What a version line is, character by character: at the start of a line the key, the sign at `eq`, and a quoted value,
   with spaces between, and after the value spaces as far as they still reach the end of a line.
   */
  predicate IsVersionLine(text: string, line: Line, eq: nat) {
    && line.start + 7 <= eq < line.open && line.open + 1 < line.close < line.end <= |text|
    && StartsLine(text, line.start) && OccursAt(text, "version", line.start)
    && CliCommands.AllSpaces(text, line.start + 7, eq) && text[eq] == '='
    && CliCommands.AllSpaces(text, eq + 1, line.open) && text[line.open] == '"'
    && (forall k :: line.open < k < line.close ==> text[k] != '"') && text[line.close] == '"'
    && CliCommands.AllSpaces(text, line.close + 1, line.end) && StopsLine(text, line.end)
    && forall e :: line.end < e <= |text| && CliCommands.AllSpaces(text, line.close + 1, e) ==> !StopsLine(text, e)
  }

  lemma {:induction false} OpensExactly(text: string, s: nat, open: nat)
    ensures OpenAt(text, s) == Some(open) <==>
      && StartsLine(text, s) && OccursAt(text, "version", s) && s + 7 < open < |text| && text[open] == '"'
      && exists eq :: s + 7 <= eq < open && IsSign(text, s, eq) && CliCommands.AllSpaces(text, eq + 1, open)
  {
    hide CliCommands.AllSpaces, CliCommands.SkipSpaces;
    assert IsLineStart(text, s) <==> StartsLine(text, s);
    if StartsLine(text, s) && OccursAt(text, KEY, s) {
      var eq := CliCommands.SkipSpaces(text, s + 7);
      CliCommands.SkipsTheSpaces(text, s + 7, eq);
      if open < |text| {
        if other :| s + 7 <= other < open && IsSign(text, s, other) && CliCommands.AllSpaces(text, other + 1, open) {
          CliCommands.SkipsTheSpaces(text, s + 7, other);
          CliCommands.SkipsTheSpaces(text, eq + 1, open);
        }
      }
      if eq < |text| {
        CliCommands.SkipsTheSpaces(text, eq + 1, CliCommands.SkipSpaces(text, eq + 1));
        assert IsSign(text, s, eq) <==> text[eq] == '=';
      }
    }
  }

  /** The sign after the key, with spaces between. */
  predicate IsSign(text: string, s: nat, eq: nat) {
    CliCommands.AllSpaces(text, s + 7, eq) && eq < |text| && text[eq] == '='
  }

  lemma {:induction false} StopExactly(text: string, close: nat, end: nat)
    requires close < |text|
    ensures LastStop(text, close + 1, CliCommands.SkipSpaces(text, close + 1)) == Some(end) <==>
      && CliCommands.AllSpaces(text, close + 1, end) && StopsLine(text, end)
      && forall e :: end < e <= |text| && CliCommands.AllSpaces(text, close + 1, e) ==> !StopsLine(text, e)
  {
    var to := CliCommands.SkipSpaces(text, close + 1);
    CliCommands.SkipsTheSpaces(text, close + 1, to);
    LastStopIs(text, close + 1, to, end);
  }

  lemma {:induction false} LastStopIs(text: string, from: nat, to: nat, end: nat)
    requires from <= to <= |text|
    ensures LastStop(text, from, to) == Some(end)
      <==> from <= end <= to && StopsLine(text, end) && forall e :: end < e <= to ==> !StopsLine(text, e)
  {
    assert IsLineStop(text, to) <==> StopsLine(text, to);
    if !IsLineStop(text, to) && from < to {
      LastStopIs(text, from, to - 1, end);
    }
    if forall e :: end < e <= to - 1 ==> !StopsLine(text, e) {
      assert !StopsLine(text, to) ==> forall e :: end < e <= to ==> !StopsLine(text, e);
    }
  }

  /** The pattern matches exactly the version lines. */
  lemma {:induction false} LineExactly(text: string, line: Line)
    ensures LineAt(text, line.start) == Some(line) <==> exists eq :: IsVersionLine(text, line, eq)
  {
    hide CliCommands.AllSpaces, CliCommands.SkipSpaces, LastStop, StartsLine, StopsLine;
    OpensExactly(text, line.start, line.open);
    if line.open < line.close < |text| {
      StopExactly(text, line.close, line.end);
    }
    if eq :| IsVersionLine(text, line, eq) {
      assert IsSign(text, line.start, eq);
      assert QuoteFrom(text, line.open + 1) == line.close;
    }
    if LineAt(text, line.start) == Some(line) {
      var eq :| line.start + 7 <= eq < line.open && IsSign(text, line.start, eq)
        && CliCommands.AllSpaces(text, eq + 1, line.open);
      assert IsVersionLine(text, line, eq);
    }
  }

  predicate NoneBefore(text: string, n: nat) {
    forall s :: 0 <= s < n ==> LineAt(text, s).None?
  }

  /** The first match, and none before it. */
  predicate IsFirst(text: string, line: Line) {
    LineAt(text, line.start) == Some(line) && NoneBefore(text, line.start)
  }

  lemma {:induction false} FoundIsFirst(text: string, line: Line)
    requires VersionLine(text) == Some(line)
    ensures IsFirst(text, line)
  {
    var hits := IsLine(text);
    forall s | 0 <= s < line.start ensures LineAt(text, s).None? {
      NothingBeforeFirst(hits, 0, |text|, s);
      assert hits(s) == LineAt(text, s).Some?;
    }
  }

  lemma {:induction false} FirstIsFound(text: string, n: nat)
    requires n <= |text| && NoneBefore(text, n) && LineAt(text, n).Some?
    ensures VersionLine(text) == LineAt(text, n)
  {
    FirstWhereIs(IsLine(text), 0, |text|, n);
  }

  // ----- The plan ----------------------------------------------------------------------------------

  function VersionIn(text: string, line: Line): string
    requires line.open < line.close <= |text|
  {
    text[line.open + 1..line.close]
  }

  function NewLine(version: string): string {
    "version = \"" + version + "\""
  }

  datatype Update = NoVersion | UpToDate | Change(from: string, text: string)

  /** `planRuntimeMetadata`: nothing to find, nothing to do, or the text with the first occurrence replaced. */
  function Planned(text: string, version: string): Update {
    var line := VersionLine(text);
    if line.None? then NoVersion
    else if VersionIn(text, line.value) == version then UpToDate
    else
      Change(VersionIn(text, line.value),
        ImageTags.ReplaceFirst(text, text[line.value.start..line.value.end], NewLine(version)))
  }

  /** The text with the version line itself rewritten. */
  function InPlace(text: string, line: Line, version: string): string
    requires line.start <= line.end <= |text|
  {
    text[..line.start] + NewLine(version) + text[line.end..]
  }

  /** A version has no quote, no white space and nothing that `replace` would expand. */
  predicate IsPlain(version: string) {
    version != "" && forall i :: 0 <= i < |version| ==>
      version[i] != '"' && version[i] != '$' && !ReleaseText.IsSpace(version[i])
  }

  lemma {:induction false} SpacesHaveNoQuote(text: string, i: nat, k: nat)
    requires i <= |text| && i <= k < CliCommands.SkipSpaces(text, i)
    ensures ReleaseText.IsSpace(text[k])
    decreases |text| - i
  {
    if i < k {
      SpacesHaveNoQuote(text, i + 1, k);
    }
  }

  /** The quotes of a version line, and nothing quoted before or between them. */
  predicate Quoted(text: string, line: Line) {
    && line.start + |KEY| < line.open && line.open + 1 < line.close < line.end <= |text|
    && text[line.open] == text[line.close] == '"'
    && (forall k :: line.start <= k < line.open ==> text[k] != '"')
    && (forall k :: line.open < k < line.close ==> text[k] != '"')
    && OccursAt(text, KEY, line.start) && IsLineStart(text, line.start) && IsLineStop(text, line.end)
  }

  lemma {:induction false} OpensWithoutQuotes(text: string, s: nat)
    requires OpenAt(text, s).Some?
    ensures forall k :: s <= k < OpenAt(text, s).value ==> text[k] != '"'
  {
    var eq, open := CliCommands.SkipSpaces(text, s + |KEY|), OpenAt(text, s).value;
    forall k | s <= k < open ensures text[k] != '"' {
      if k < s + |KEY| {
        assert text[s..s + |KEY|][k - s] == KEY[k - s];
      } else if k < eq {
        SpacesHaveNoQuote(text, s + |KEY|, k);
      } else if k > eq {
        SpacesHaveNoQuote(text, eq + 1, k);
      }
    }
  }

  lemma {:induction false} LineIsQuoted(text: string, s: nat)
    requires LineAt(text, s).Some?
    ensures LineAt(text, s).value.start == s && Quoted(text, LineAt(text, s).value)
  {
    OpensWithoutQuotes(text, s);
  }

  // ----- A rewritten line reads back -----------------------------------------------------------------

  /** The texts agree through position n, where a character stands that is no white space and no quote. */
  predicate AgreeThrough(text: string, other: string, n: nat) {
    && n < |text| && n < |other| && text[..n + 1] == other[..n + 1]
    && !ReleaseText.IsSpace(text[n]) && text[n] != '"' && text[n] != '='
  }

  lemma {:induction false} AgreeAt(text: string, other: string, n: nat, k: nat)
    requires AgreeThrough(text, other, n) && k <= n
    ensures text[k] == other[k]
  {
    assert text[..n + 1][k] == other[..n + 1][k];
  }

  lemma {:induction false} SpacesAgree(text: string, other: string, n: nat, i: nat)
    requires AgreeThrough(text, other, n) && i <= n
    ensures CliCommands.SkipSpaces(text, i) == CliCommands.SkipSpaces(other, i) <= n
    decreases n - i
  {
    AgreeAt(text, other, n, i);
    if ReleaseText.IsSpace(text[i]) {
      SpacesAgree(text, other, n, i + 1);
    }
  }

  lemma {:induction false} QuotesAgree(text: string, other: string, n: nat, i: nat)
    requires AgreeThrough(text, other, n) && i <= n
    ensures QuoteFrom(text, i) < n ==> QuoteFrom(other, i) == QuoteFrom(text, i)
    ensures QuoteFrom(text, i) >= n ==>
      QuoteFrom(text, i) == QuoteFrom(text, n) && QuoteFrom(other, i) == QuoteFrom(other, n)
    decreases n - i
  {
    AgreeAt(text, other, n, i);
    if i < n && text[i] != '"' {
      QuotesAgree(text, other, n, i + 1);
    }
  }

  lemma {:induction false} StopsAgree(text: string, other: string, n: nat, from: nat, to: nat)
    requires AgreeThrough(text, other, n) && from <= to <= n
    ensures LastStop(text, from, to) == LastStop(other, from, to)
  {
    AgreeAt(text, other, n, to);
    if from < to {
      StopsAgree(text, other, n, from, to - 1);
    }
  }

  lemma {:induction false} KeyAt(text: string, s: nat, i: nat)
    requires OccursAt(text, KEY, s) && i < |KEY|
    ensures text[s + i] == KEY[i]
  {
    assert text[s..s + |KEY|][i] == text[s + i];
  }

  /** The key ends before the place where the texts part, since it occurs there again. */
  lemma {:induction false} KeyEndsBefore(text: string, s: nat, n: nat)
    requires s < n && OccursAt(text, KEY, s) && OccursAt(text, KEY, n)
    ensures s + |KEY| <= n
  {
    KeyAt(text, n, 0);
    if n < s + |KEY| {
      KeyAt(text, s, n - s);
    }
  }

  lemma {:induction false} KeysAgree(text: string, other: string, n: nat, s: nat)
    requires AgreeThrough(text, other, n) && s < n
    requires OccursAt(text, KEY, n) && OccursAt(other, KEY, n)
    ensures OccursAt(text, KEY, s) <==> OccursAt(other, KEY, s)
  {
    if s + |KEY| <= n {
      assert text[s..s + |KEY|] == text[..n + 1][s..s + |KEY|] == other[..n + 1][s..s + |KEY|] == other[s..s + |KEY|];
    } else {
      if OccursAt(text, KEY, s) {
        KeyEndsBefore(text, s, n);
      }
      if OccursAt(other, KEY, s) {
        KeyEndsBefore(other, s, n);
      }
    }
  }

  lemma {:induction false} StartsAgree(text: string, other: string, n: nat, s: nat)
    requires AgreeThrough(text, other, n) && s < n
    ensures IsLineStart(text, s) <==> IsLineStart(other, s)
  {
    if s > 0 {
      AgreeAt(text, other, n, s - 1);
    }
  }

  /** After the key the texts have the same equals sign and the same opening quote. */
  lemma {:induction false} SignsAgree(text: string, other: string, n: nat, from: nat)
    requires AgreeThrough(text, other, n) && from <= n
    ensures var eq := CliCommands.SkipSpaces(text, from);
      && CliCommands.SkipSpaces(other, from) == eq <= n && text[eq] == other[eq]
      && (text[eq] == '=' ==>
            var open := CliCommands.SkipSpaces(text, eq + 1);
            eq < n && CliCommands.SkipSpaces(other, eq + 1) == open <= n && text[open] == other[open])
  {
    SpacesAgree(text, other, n, from);
    var eq := CliCommands.SkipSpaces(text, from);
    AgreeAt(text, other, n, eq);
    if text[eq] == '=' {
      SpacesAgree(text, other, n, eq + 1);
      AgreeAt(text, other, n, CliCommands.SkipSpaces(text, eq + 1));
    }
  }

  lemma {:induction false} OpensAgree(text: string, other: string, n: nat, s: nat)
    requires AgreeThrough(text, other, n) && s < n
    requires OccursAt(text, KEY, n) && OccursAt(other, KEY, n)
    ensures OpenAt(text, s) == OpenAt(other, s)
    ensures OpenAt(text, s).Some? ==> OpenAt(text, s).value < n
  {
    KeysAgree(text, other, n, s);
    StartsAgree(text, other, n, s);
    if OccursAt(text, KEY, s) {
      KeyEndsBefore(text, s, n);
      SignsAgree(text, other, n, s + |KEY|);
    }
  }

  /** The value at n starts with a character that is no white space. */
  predicate StartsSolid(text: string, n: nat) {
    var q := if n <= |text| then QuoteFrom(text, n) else n;
    q + 1 < |text| && text[q] == '"' && !ReleaseText.IsSpace(text[q + 1])
  }

  lemma {:induction false} NoStopBeforeSolid(text: string, i: nat)
    requires i < |text| && !ReleaseText.IsSpace(text[i])
    ensures LastStop(text, i, CliCommands.SkipSpaces(text, i)).None?
  {
  }

  /** A value that ends before the place where the texts part. */
  lemma {:induction false} ValuesAgree(text: string, other: string, n: nat, s: nat, open: nat)
    requires AgreeThrough(text, other, n) && open < n && QuoteFrom(text, open + 1) < n
    ensures ValueAt(text, s, open) == ValueAt(other, s, open)
  {
    QuotesAgree(text, other, n, open + 1);
    EndsAgree(text, other, n, QuoteFrom(text, open + 1) + 1);
  }

  lemma {:induction false} EndsAgree(text: string, other: string, n: nat, from: nat)
    requires AgreeThrough(text, other, n) && from <= n
    ensures LastStop(text, from, CliCommands.SkipSpaces(text, from))
      == LastStop(other, from, CliCommands.SkipSpaces(other, from))
  {
    SpacesAgree(text, other, n, from);
    StopsAgree(text, other, n, from, CliCommands.SkipSpaces(text, from));
  }

  /** A value that would end where a solid value opens is none. */
  lemma {:induction false} NoValueAcross(text: string, n: nat, s: nat, open: nat)
    requires open < n && n <= |text| && QuoteFrom(text, open + 1) == QuoteFrom(text, n) && StartsSolid(text, n)
    ensures ValueAt(text, s, open).None?
  {
    NoStopBeforeSolid(text, QuoteFrom(text, n) + 1);
  }

  /** Before position n no new version line appears when the text after n starts a solid value. */
  lemma {:induction false} NoneAppears(text: string, other: string, n: nat, s: nat)
    requires AgreeThrough(text, other, n) && s < n
    requires OccursAt(text, KEY, n) && OccursAt(other, KEY, n)
    requires LineAt(text, s).None? && StartsSolid(other, n)
    ensures LineAt(other, s).None?
  {
    OpensAgree(text, other, n, s);
    if OpenAt(text, s).Some? {
      var open := OpenAt(text, s).value;
      if QuoteFrom(text, open + 1) < n {
        ValuesAgree(text, other, n, s, open);
      } else {
        QuotesAgree(text, other, n, open + 1);
        NoValueAcross(other, n, s, open);
      }
    }
  }

  // ----- The line rewritten in place -----------------------------------------------------------------

  lemma {:induction false} NewLineAt(version: string, i: nat)
    requires IsPlain(version) && i < |NewLine(version)|
    ensures |NewLine(version)| == |version| + 12
    ensures NewLine(version)[i]
      == if i < 11 then "version = \""[i] else if i < |version| + 11 then version[i - 11] else '"'
    ensures NewLine(version)[i] == '"' <==> i == 10 || i == |version| + 11
    ensures ReleaseText.IsSpace(NewLine(version)[i]) <==> i == 7 || i == 9
  {
  }

  /** What stands in the text with the line rewritten. */
  lemma {:induction false} InPlaceAt(text: string, line: Line, version: string, k: nat)
    requires line.start <= line.end <= |text| && k < |InPlace(text, line, version)|
    ensures var added, s := NewLine(version), line.start;
      InPlace(text, line, version)[k]
        == if k < s then text[k] else if k < s + |added| then added[k - s] else text[k - s - |added| + line.end]
  {
  }

  lemma {:induction false} QuoteIs(text: string, i: nat, q: nat)
    requires i <= q < |text| && text[q] == '"' && forall k :: i <= k < q ==> text[k] != '"'
    ensures QuoteFrom(text, i) == q
    decreases q - i
  {
    if i < q {
      QuoteIs(text, i + 1, q);
    }
  }

  /** The new line stands at s. */
  predicate Stands(text: string, version: string, s: nat) {
    s + |NewLine(version)| <= |text| && text[s..s + |NewLine(version)|] == NewLine(version)
  }

  lemma {:induction false} StandingAt(text: string, version: string, s: nat, i: nat)
    requires IsPlain(version) && Stands(text, version, s) && i < |version| + 12
    ensures |NewLine(version)| == |version| + 12 && text[s + i] == NewLine(version)[i]
    ensures text[s + i] == '"' <==> i == 10 || i == |version| + 11
    ensures ReleaseText.IsSpace(text[s + i]) <==> i == 7 || i == 9
  {
    NewLineAt(version, i);
    assert text[s..s + |NewLine(version)|][i] == text[s + i];
  }

  lemma {:induction false} OneSpace(text: string, i: nat)
    requires i + 1 < |text| && ReleaseText.IsSpace(text[i]) && !ReleaseText.IsSpace(text[i + 1])
    ensures CliCommands.SkipSpaces(text, i) == i + 1
  {
    assert CliCommands.SkipSpaces(text, i + 1) == i + 1;
  }

  lemma {:induction false} StandingKey(text: string, version: string, s: nat)
    requires IsPlain(version) && Stands(text, version, s)
    ensures OccursAt(text, KEY, s)
  {
    NewLineAt(version, 0);
    var added := NewLine(version);
    SliceOfSlice(text, s, s + |added|, s, s + |KEY|);
    assert added[..|KEY|] == KEY;
  }

  lemma {:induction false} StandingOpens(text: string, version: string, s: nat)
    requires IsPlain(version) && Stands(text, version, s) && IsLineStart(text, s)
    ensures OpenAt(text, s) == Some(s + 10)
  {
    StandingKey(text, version, s);
    forall i | 7 <= i <= 10 ensures s + i < |text| && text[s + i] == NewLine(version)[i] == "version = \""[i] {
      NewLineAt(version, i);
      StandingAt(text, version, s, i);
    }
    OneSpace(text, s + 7);
    OneSpace(text, s + 9);
  }

  lemma {:induction false} StandingClose(text: string, version: string, s: nat)
    requires IsPlain(version) && Stands(text, version, s)
    ensures s + |version| + 11 < |text| && QuoteFrom(text, s + 11) == s + |version| + 11
  {
    StandingAt(text, version, s, |version| + 11);
    forall k | s + 11 <= k < s + |version| + 11 ensures text[k] != '"' {
      StandingAt(text, version, s, k - s);
    }
    QuoteIs(text, s + 11, s + |version| + 11);
  }

  lemma {:induction false} StandingValue(text: string, version: string, s: nat)
    requires IsPlain(version) && Stands(text, version, s) && IsLineStop(text, s + |version| + 12)
    ensures s + 10 < |text| && ValueAt(text, s, s + 10).Some?
    ensures var line := ValueAt(text, s, s + 10).value;
      line.open == s + 10 && line.close == s + |version| + 11 && VersionIn(text, line) == version
  {
    var added := NewLine(version);
    StandingClose(text, version, s);
    NewLineAt(version, 0);
    SliceOfSlice(text, s, s + |added|, s + 11, s + |version| + 11);
    assert added[11..|version| + 11] == version;
  }

  lemma {:induction false} StandingLine(text: string, version: string, s: nat)
    requires IsPlain(version) && Stands(text, version, s)
    requires IsLineStart(text, s) && IsLineStop(text, s + |version| + 12)
    ensures LineAt(text, s).Some? && VersionIn(text, LineAt(text, s).value) == version
  {
    StandingOpens(text, version, s);
    StandingValue(text, version, s);
  }

  lemma {:induction false} InPlaceStands(text: string, line: Line, version: string)
    requires line.start <= line.end <= |text|
    ensures Stands(InPlace(text, line, version), version, line.start)
    ensures InPlace(text, line, version)[..line.start] == text[..line.start]
    ensures IsLineStart(text, line.start) ==> IsLineStart(InPlace(text, line, version), line.start)
    ensures IsLineStop(text, line.end) ==>
      IsLineStop(InPlace(text, line, version), line.start + |NewLine(version)|)
  {
    var other, s, added := InPlace(text, line, version), line.start, NewLine(version);
    assert other[s..s + |added|] == added && other[..s] == text[..s] && other[s + |added|..] == text[line.end..];
  }

  /** The rewritten line is the version line, with the new version. */
  lemma {:induction false} RewrittenLine(text: string, line: Line, version: string)
    requires IsFirst(text, line) && IsPlain(version)
    ensures var other, s := InPlace(text, line, version), line.start;
      LineAt(other, s).Some? && VersionIn(other, LineAt(other, s).value) == version
  {
    LineIsQuoted(text, line.start);
    InPlaceStands(text, line, version);
    NewLineAt(version, 0);
    StandingLine(InPlace(text, line, version), version, line.start);
  }

  lemma {:induction false} StandsSolid(text: string, version: string, s: nat)
    requires IsPlain(version) && Stands(text, version, s)
    ensures StartsSolid(text, s)
  {
    NewLineAt(version, 0);
    StandingAt(text, version, s, 11);
    StandingAt(text, version, s, 10);
    forall k | s <= k < s + 10 ensures text[k] != '"' {
      StandingAt(text, version, s, k - s);
    }
    QuoteIs(text, s, s + 10);
  }

  lemma {:induction false} InPlaceAgrees(text: string, line: Line, version: string)
    requires IsFirst(text, line) && IsPlain(version)
    ensures var other, s := InPlace(text, line, version), line.start;
      && AgreeThrough(text, other, s) && OccursAt(text, KEY, s) && OccursAt(other, KEY, s)
      && StartsSolid(other, s)
  {
    var other, s := InPlace(text, line, version), line.start;
    LineIsQuoted(text, s);
    InPlaceStands(text, line, version);
    StandsSolid(other, version, s);
    StandingKey(other, version, s);
    KeyAt(text, s, 0);
    KeyAt(other, s, 0);
    FirstPart(text, other, s);
  }

  lemma {:induction false} FirstPart(text: string, other: string, s: nat)
    requires s < |text| && s < |other| && text[..s] == other[..s] && text[s] == other[s]
    ensures text[..s + 1] == other[..s + 1]
  {
    assert text[..s + 1] == text[..s] + [text[s]] && other[..s + 1] == other[..s] + [other[s]];
  }

  /** Once the line itself is rewritten, the next plan finds the new version and nothing to do. */
  lemma {:induction false} InPlaceIsUpToDate(text: string, version: string)
    requires VersionLine(text).Some? && IsPlain(version)
    ensures Planned(InPlace(text, VersionLine(text).value, version), version) == UpToDate
  {
    var line := VersionLine(text).value;
    var other := InPlace(text, line, version);
    FoundIsFirst(text, line);
    RewrittenLine(text, line, version);
    InPlaceAgrees(text, line, version);
    forall s | 0 <= s < line.start ensures LineAt(other, s).None? {
      NoneAppears(text, other, line.start, s);
    }
    FirstIsFound(other, line.start);
  }

  // ----- The first occurrence of the matched text ---------------------------------------------------

  /** The new line does not overlap itself. */
  lemma {:induction false} NoOverlap(version: string, d: nat)
    requires IsPlain(version) && 0 < d < |NewLine(version)|
    ensures exists i :: 0 <= i < |NewLine(version)| - d && NewLine(version)[d + i] != NewLine(version)[i]
  {
    var added := NewLine(version);
    NewLineAt(version, d);
    var last := |added| - 1;
    if d + 7 < |added| {
      NewLineAt(version, d + 7);
      NewLineAt(version, 7);
      NewLineAt(version, 0);
      if d == 2 {
        assert added[d + 0] != added[0];
      } else {
        assert added[d + 7] != added[7];
      }
    } else {
      NewLineAt(version, last);
      NewLineAt(version, last - d);
      assert added[d + (last - d)] != added[last - d];
    }
  }

  /** Where the matched text stands, a rewritten line would have the same quotes and so the same version. */
  lemma {:induction false} SameQuotesSameVersion(text: string, line: Line, version: string, p: nat)
    requires Quoted(text, line) && IsPlain(version) && Stands(text, version, p)
    requires OccursAt(text, text[line.start..line.end], p)
    ensures VersionIn(text, line) == version
  {
    FirstQuote(text, line, version, p);
    SecondQuote(text, line, version, p);
    forall i | 0 <= i < |version| ensures VersionIn(text, line)[i] == version[i] {
      SameCharacter(text, line, version, p, i);
    }
  }

  lemma {:induction false} SameCharacter(text: string, line: Line, version: string, p: nat, i: nat)
    requires IsPlain(version) && Stands(text, version, p) && i < |version|
    requires line.open == line.start + 10 && line.close == line.start + |version| + 11 < line.end <= |text|
    requires OccursAt(text, text[line.start..line.end], p)
    ensures VersionIn(text, line)[i] == version[i]
  {
    CopyAt(text, line, p, 11 + i);
    StandingAt(text, version, p, 11 + i);
    NewLineAt(version, 11 + i);
  }

  lemma {:induction false} CopyAt(text: string, line: Line, p: nat, i: nat)
    requires line.start <= line.end <= |text| && OccursAt(text, text[line.start..line.end], p)
    requires i < line.end - line.start
    ensures text[p + i] == text[line.start + i]
  {
    var part := text[line.start..line.end];
    assert text[p..p + |part|][i] == text[p + i] && part[i] == text[line.start + i];
  }

  lemma {:induction false} FirstQuote(text: string, line: Line, version: string, p: nat)
    requires Quoted(text, line) && IsPlain(version) && Stands(text, version, p)
    requires OccursAt(text, text[line.start..line.end], p)
    ensures line.open == line.start + 10
  {
    var a := line.open - line.start;
    if a < 10 {
      CopyAt(text, line, p, a);
      StandingAt(text, version, p, a);
    } else if a > 10 {
      CopyAt(text, line, p, 10);
      StandingAt(text, version, p, 10);
    }
  }

  lemma {:induction false} SecondQuote(text: string, line: Line, version: string, p: nat)
    requires Quoted(text, line) && IsPlain(version) && Stands(text, version, p)
    requires OccursAt(text, text[line.start..line.end], p) && line.open == line.start + 10
    ensures line.close == line.start + |version| + 11
  {
    var b, last := line.close - line.start, |version| + 11;
    if b < last {
      CopyAt(text, line, p, b);
      StandingAt(text, version, p, b);
    } else if b > last {
      CopyAt(text, line, p, last);
      StandingAt(text, version, p, last);
    }
  }

  /** The text with the part of length n at p replaced. */
  function ReplacedAt(text: string, p: nat, n: nat, added: string): string
    requires p + n <= |text|
  {
    text[..p] + added + text[p + n..]
  }

  lemma {:induction false} ApartByOverlap(text: string, line: Line, version: string, p: nat)
    requires line.start <= line.end <= |text| && IsPlain(version)
    requires p < line.start < p + |NewLine(version)| && p + (line.end - line.start) <= |text|
    ensures ReplacedAt(text, p, line.end - line.start, NewLine(version)) != InPlace(text, line, version)
  {
    var added, d := NewLine(version), line.start - p;
    var there := ReplacedAt(text, p, line.end - line.start, added);
    NoOverlap(version, d);
    var i :| 0 <= i < |added| - d && added[d + i] != added[i];
    assert there[line.start + i] == added[d + i];
    InPlaceAt(text, line, version, line.start + i);
  }

  lemma {:induction false} ApartByVersion(text: string, line: Line, version: string, p: nat)
    requires Quoted(text, line) && IsPlain(version) && VersionIn(text, line) != version
    requires p + |NewLine(version)| <= line.start && OccursAt(text, text[line.start..line.end], p)
    ensures ReplacedAt(text, p, line.end - line.start, NewLine(version)) != InPlace(text, line, version)
  {
    var added := NewLine(version);
    var there, here := ReplacedAt(text, p, line.end - line.start, added), InPlace(text, line, version);
    if there == here {
      assert there[p..p + |added|] == added;
      InPlaceStands(text, line, version);
      ImageTags.SamePrefixSameSlice(here, text, line.start, p, p + |added|);
      SameQuotesSameVersion(text, line, version, p);
    }
  }

  /** Replacing an earlier occurrence never gives the text with the line itself rewritten. */
  lemma {:induction false} EarlierIsElsewhere(text: string, line: Line, version: string, p: nat)
    requires Quoted(text, line) && IsPlain(version) && VersionIn(text, line) != version
    requires p < line.start && OccursAt(text, text[line.start..line.end], p)
    ensures ReplacedAt(text, p, line.end - line.start, NewLine(version)) != InPlace(text, line, version)
  {
    if line.start < p + |NewLine(version)| {
      ApartByOverlap(text, line, version, p);
    } else {
      ApartByVersion(text, line, version, p);
    }
  }

  lemma {:induction false} HitsWhenFirst(text: string, line: Line, version: string)
    requires line.start <= line.end <= |text| && ImageTags.NotBefore(text, text[line.start..line.end], line.start)
    ensures ImageTags.ReplaceFirst(text, text[line.start..line.end], NewLine(version)) == InPlace(text, line, version)
  {
    ImageTags.ReplaceAt(text, text[line.start..line.end], NewLine(version), line.start);
  }

  lemma {:induction false} EarlierIsReplaced(text: string, line: Line, version: string, p: nat)
    requires Quoted(text, line) && IsPlain(version) && VersionIn(text, line) != version && p < line.start
    requires OccursAt(text, text[line.start..line.end], p)
    requires ImageTags.NotBefore(text, text[line.start..line.end], p)
    ensures ImageTags.ReplaceFirst(text, text[line.start..line.end], NewLine(version)) != InPlace(text, line, version)
  {
    ReplacedFirst(text, text[line.start..line.end], NewLine(version), p);
    EarlierIsElsewhere(text, line, version, p);
  }

  lemma {:induction false} MissesWhenEarlier(text: string, line: Line, version: string)
    requires Quoted(text, line) && IsPlain(version) && VersionIn(text, line) != version
    requires !ImageTags.NotBefore(text, text[line.start..line.end], line.start)
    ensures ImageTags.ReplaceFirst(text, text[line.start..line.end], NewLine(version)) != InPlace(text, line, version)
  {
    var p := FirstOf(text, text[line.start..line.end], line.start, 0);
    EarlierIsReplaced(text, line, version, p);
  }

  lemma {:induction false} ReplacedFirst(text: string, part: string, with: string, p: nat)
    requires OccursAt(text, part, p) && ImageTags.NotBefore(text, part, p)
    ensures p + |part| <= |text| && ImageTags.ReplaceFirst(text, part, with) == ReplacedAt(text, p, |part|, with)
  {
    ImageTags.ReplaceAt(text, part, with, p);
  }

  /**
   The planned text is the text with the version line rewritten exactly when what the pattern matched does not
   occur earlier in the file.
   */
  lemma {:induction false} PlanHitsItsLine(text: string, version: string)
    requires VersionLine(text).Some? && IsPlain(version)
    requires VersionIn(text, VersionLine(text).value) != version
    ensures var line, plan := VersionLine(text).value, Planned(text, version);
      plan.Change? && (plan.text == InPlace(text, line, version)
        <==> ImageTags.NotBefore(text, text[line.start..line.end], line.start))
  {
    var line := VersionLine(text).value;
    LineIsQuoted(text, line.start);
    if ImageTags.NotBefore(text, text[line.start..line.end], line.start) {
      HitsWhenFirst(text, line, version);
    } else {
      MissesWhenEarlier(text, line, version);
    }
  }

  lemma {:induction false} FirstOf(text: string, part: string, end: nat, from: nat) returns (p: nat)
    requires from <= end && ImageTags.NotBefore(text, part, from) && !ImageTags.NotBefore(text, part, end)
    ensures p < end && OccursAt(text, part, p) && ImageTags.NotBefore(text, part, p)
    decreases end - from
  {
    if OccursAt(text, part, from) {
      p := from;
    } else {
      p := FirstOf(text, part, end, from + 1);
    }
  }

  /** A file in which another entry ends like the version line. */
  function TwoEntries(other: string, version: string): string {
    "x" + NewLine(other) + "\n" + NewLine(version) + "\nz"
  }

  lemma {:induction false} EntryAt(other: string, version: string, k: nat)
    requires IsPlain(other) && IsPlain(version) && k < |other| + 14
    ensures k < |TwoEntries(other, version)|
    ensures TwoEntries(other, version)[k]
      == if k == 0 then 'x' else if k < |other| + 13 then NewLine(other)[k - 1] else '\n'
  {
    NewLineAt(other, 0);
  }

  lemma {:induction false} NoLineInside(other: string, version: string, s: nat)
    requires IsPlain(other) && IsPlain(version) && s < |other| + 14
    ensures LineAt(TwoEntries(other, version), s).None?
  {
    var text := TwoEntries(other, version);
    if s == 0 {
      EntryAt(other, version, 0);
      if OccursAt(text, KEY, 0) {
        KeyAt(text, 0, 0);
      }
    } else {
      EntryAt(other, version, s - 1);
      if s > 1 {
        NewLineAt(other, s - 2);
      }
    }
  }

  lemma {:induction false} SecondEntry(other: string, version: string)
    requires IsPlain(other) && IsPlain(version)
    ensures var text, s := TwoEntries(other, version), |other| + 14;
      && Stands(text, other, 1) && Stands(text, version, s)
      && |text| == s + |version| + 14 && text[s + |version| + 12] == '\n' && text[s + |version| + 13] == 'z'
      && IsLineStart(text, s)
  {
    NewLineAt(other, 0);
    NewLineAt(version, 0);
    var text, a, b := TwoEntries(other, version), NewLine(other), NewLine(version);
    assert text[1..1 + |a|] == a && text[|a| + 2..|a| + 2 + |b|] == b;
  }

  /** A standing line that ends where the next line begins with more text. */
  lemma {:induction false} StandingEnd(text: string, version: string, s: nat)
    requires IsPlain(version) && Stands(text, version, s) && IsLineStart(text, s)
    requires var e := s + |version| + 12;
      e + 1 < |text| && CliCommands.IsLineEnd(text[e]) && !ReleaseText.IsSpace(text[e + 1])
    ensures LineAt(text, s) == Some(Line(s, s + 10, s + |version| + 11, s + |version| + 12))
    ensures VersionIn(text, LineAt(text, s).value) == version
  {
    StandingOpens(text, version, s);
    StandingValue(text, version, s);
    OneSpace(text, s + |version| + 12);
    StopsHere(text, s + |version| + 12);
  }

  lemma {:induction false} StopsHere(text: string, e: nat)
    requires e + 1 < |text| && IsLineStop(text, e) && !IsLineStop(text, e + 1)
    ensures LastStop(text, e, e + 1) == Some(e)
  {
  }

  lemma {:induction false} SecondIsTheLine(other: string, version: string)
    requires IsPlain(other) && IsPlain(version)
    ensures var text, s := TwoEntries(other, version), |other| + 14;
      VersionLine(text) == Some(Line(s, s + 10, s + |version| + 11, s + |version| + 12))
      && VersionIn(text, VersionLine(text).value) == version
      && text[s..s + |version| + 12] == NewLine(version)
  {
    var text, s := TwoEntries(other, version), |other| + 14;
    SecondEntry(other, version);
    NewLineAt(version, 0);
    StandingEnd(text, version, s);
    forall k | 0 <= k < s ensures LineAt(text, k).None? {
      NoLineInside(other, version, k);
    }
    FirstIsFound(text, s);
  }

  lemma {:induction false} FirstEntryIsFirst(old_: string, version: string)
    requires IsPlain(old_) && IsPlain(version)
    ensures OccursAt(TwoEntries(old_, version), NewLine(old_), 1)
    ensures ImageTags.NotBefore(TwoEntries(old_, version), NewLine(old_), 1)
  {
    var text, part := TwoEntries(old_, version), NewLine(old_);
    SecondEntry(old_, version);
    NewLineAt(old_, 0);
    EntryAt(old_, version, 0);
    assert text[0..|part|][0] == 'x' && part[0] == 'v';
  }

  /** Replacing the first of two equal entries. */
  lemma {:induction false} FirstEntryReplaced(old_: string, version: string)
    requires IsPlain(old_) && IsPlain(version)
    ensures ImageTags.ReplaceFirst(TwoEntries(old_, old_), NewLine(old_), NewLine(version)) == TwoEntries(version, old_)
  {
    var text, part, rest := TwoEntries(old_, old_), NewLine(old_), "\n" + NewLine(old_) + "\nz";
    FirstEntryIsFirst(old_, old_);
    ImageTags.ReplaceAt(text, part, NewLine(version), 1);
    InTheMiddle("x", part, rest);
    Regroup(part, old_);
    Regroup(NewLine(version), old_);
  }

  lemma {:induction false} InTheMiddle(a: string, b: string, c: string)
    ensures (a + (b + c))[..|a|] == a && (a + (b + c))[|a| + |b|..] == c
  {
  }

  lemma {:induction false} Regroup(entry: string, version: string)
    ensures "x" + entry + "\n" + NewLine(version) + "\nz" == "x" + (entry + ("\n" + NewLine(version) + "\nz"))
    ensures "x" + entry + ("\n" + NewLine(version) + "\nz") == "x" + (entry + ("\n" + NewLine(version) + "\nz"))
  {
  }

  /** The plan for such a file rewrites the other entry, and the next plan still has the version to change. */
  lemma {:induction false} PlanMissesItsLine(old_: string, version: string)
    requires IsPlain(old_) && IsPlain(version) && old_ != version
    ensures Planned(TwoEntries(old_, old_), version) == Change(old_, TwoEntries(version, old_))
    ensures Planned(TwoEntries(version, old_), version).Change?
  {
    SecondIsTheLine(old_, old_);
    SecondIsTheLine(version, old_);
    FirstEntryReplaced(old_, version);
  }
}
