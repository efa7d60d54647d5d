/**
 The command-descriptor parser of scripts/docs.js: bracket matching outside string literals, the
 search for `cmd("name"` calls, the recursive parse of nested calls and its flattening.
 */
module CliCommands {
  import opened Common
  import ReleaseText

  // ----- Brackets outside string literals -------------------------------------------------------

  datatype Quote = Outside | Inside(mark: char, escaped: bool)

  /** The scanner of `findMatching`: bracket depth and quotation. */
  datatype Scan = Scan(depth: int, quote: Quote)

  predicate IsQuote(c: char) {
    c == '"' || c == '\'' || c == '`'
  }

  function NextQuote(quote: Quote, c: char): Quote {
    match quote
    case Outside => if IsQuote(c) then Inside(c, false) else Outside
    case Inside(mark, true) => Inside(mark, false)
    case Inside(mark, false) => if c == '\\' then Inside(mark, true) else if c == mark then Outside else quote
  }

  function Shift(c: char): int {
    if c == '(' then 1 else if c == ')' then -1 else 0
  }

  function Next(s: Scan, c: char): Scan {
    Scan(s.depth + (if s.quote.Outside? then Shift(c) else 0), NextQuote(s.quote, c))
  }

  /** The scanner before position i, started just after an opening bracket at `from - 1`. */
  function ScanTo(text: string, from: nat, i: nat): Scan
    requires from <= i <= |text|
  {
    if i == from then Scan(1, Outside) else Next(ScanTo(text, from, i - 1), text[i - 1])
  }

  /** The first position where the depth returns to zero. */
  function Search(text: string, i: nat, s: Scan): (close: Option<nat>)
    requires i <= |text|
    ensures close.Some? ==> i <= close.value < |text|
    decreases |text| - i
  {
    if i == |text| then None
    else if Next(s, text[i]).depth == 0 then Some(i)
    else Search(text, i + 1, Next(s, text[i]))
  }

  function Matching(text: string, open: nat): (close: Option<nat>)
    requires open < |text|
    ensures close.Some? ==> open < close.value < |text|
  {
    Search(text, open + 1, Scan(1, Outside))
  }

  predicate IsOpen(text: string, open: nat, j: nat) {
    open < j <= |text| && ScanTo(text, open + 1, j).depth >= 1
  }

  /** Position i closes the bracket: unquoted, and the depth was positive all the way to it. */
  ghost predicate Closes(text: string, open: nat, i: nat) {
    && open < i < |text|
    && text[i] == ')'
    && ScanTo(text, open + 1, i) == Scan(1, Outside)
    && forall j :: open < j <= i ==> IsOpen(text, open, j)
  }

  lemma {:induction false} SearchFinds(text: string, open: nat, i: nat)
    requires open < i <= |text|
    requires forall j :: open < j <= i ==> IsOpen(text, open, j)
    ensures var close := Search(text, i, ScanTo(text, open + 1, i));
      && (close.Some? ==> Closes(text, open, close.value))
      && (close.None? ==> forall j :: open < j <= |text| ==> IsOpen(text, open, j))
    decreases |text| - i
  {
    assert IsOpen(text, open, i);
    if i < |text| {
      ScanStep(text, open, i);
      if Next(ScanTo(text, open + 1, i), text[i]).depth != 0 {
        SearchFinds(text, open, i + 1);
      }
    }
  }

  lemma {:induction false} ScanStep(text: string, open: nat, i: nat)
    requires open < i < |text|
    ensures ScanTo(text, open + 1, i + 1) == Next(ScanTo(text, open + 1, i), text[i])
  {
  }

  lemma {:induction false} ClosedAfter(text: string, open: nat, i: nat)
    requires Closes(text, open, i)
    ensures !IsOpen(text, open, i + 1)
  {
    ScanStep(text, open, i);
  }

  /** `findMatching` finds exactly the position that closes the bracket, if there is one. */
  lemma {:induction false} MatchingCloses(text: string, open: nat, i: nat)
    requires open < |text|
    ensures Matching(text, open) == Some(i) <==> Closes(text, open, i)
  {
    SearchFinds(text, open, open + 1);
    var close := Matching(text, open);
    if close.Some? {
      ClosedAfter(text, open, close.value);
    }
    if Closes(text, open, i) {
      ClosedAfter(text, open, i);
    }
  }

  method FindMatching(text: string, openIndex: nat) returns (close: int)
    requires openIndex < |text|
    ensures close == -1 || 0 <= close
    ensures if close == -1 then Matching(text, openIndex).None? else Matching(text, openIndex) == Some(close)
  {
    var depth := 1;
    var quote: Option<char> := None;
    var escaped := false;
    for i := openIndex + 1 to |text|
      invariant depth >= 1 && (escaped ==> quote.Some?)
      invariant Matching(text, openIndex)
        == Search(text, i, Scan(depth, if quote.Some? then Inside(quote.value, escaped) else Outside))
    {
      var ch := text[i];
      if quote.Some? {
        if escaped {
          escaped := false;
        } else if ch == '\\' {
          escaped := true;
        } else if ch == quote.value {
          quote := None;
        }
      } else if IsQuote(ch) {
        quote := Some(ch);
      } else if ch == '(' {
        depth := depth + 1;
      } else if ch == ')' {
        depth := depth - 1;
        if depth == 0 {
          return i;
        }
      }
    }
    return -1;
  }

  // ----- Brackets nest ---------------------------------------------------------------------------

  /** Past an unquoted inner bracket both scanners agree, up to the depth already open. */
  lemma {:induction false} InnerScan(text: string, outer: nat, inner: nat, i: nat)
    requires outer < inner < i <= |text| && text[inner] == '(' && ScanTo(text, outer + 1, inner).quote.Outside?
    ensures ScanTo(text, outer + 1, i)
      == Scan(ScanTo(text, inner + 1, i).depth + ScanTo(text, outer + 1, inner).depth, ScanTo(text, inner + 1, i).quote)
  {
    if i > inner + 1 {
      InnerScan(text, outer, inner, i - 1);
    }
  }

  /** An unquoted bracket opened inside a matched pair is closed before that pair is. */
  lemma {:induction false} BracketsNest(text: string, outer: nat, inner: nat)
    requires outer < inner < |text| && text[inner] == '('
    requires Matching(text, outer).Some? && inner < Matching(text, outer).value
    requires ScanTo(text, outer + 1, inner).quote.Outside?
    ensures Matching(text, inner).Some? && Matching(text, inner).value < Matching(text, outer).value
  {
    var close := Matching(text, outer).value;
    MatchingCloses(text, outer, close);
    InnerScan(text, outer, inner, close);
    assert IsOpen(text, outer, inner);
    assert ScanTo(text, inner + 1, close).depth <= 0;
    ClosedBefore(text, inner, close);
  }

  lemma {:induction false} ClosedBefore(text: string, open: nat, i: nat)
    requires open < i <= |text| && ScanTo(text, open + 1, i).depth <= 0
    ensures Matching(text, open).Some? && Matching(text, open).value < i
  {
    SearchFinds(text, open, open + 1);
    assert !IsOpen(text, open, i);
  }

  /** Quoted brackets need not nest: here the spans 0..5 and 2..7 overlap. */
  lemma {:induction false} QuotedBracketsMayOverlap()
    ensures var text := ['(', '"', '(', '"', ' ', ')', '"', ')'];
      Matching(text, 0) == Some(5) && Matching(text, 2) == Some(7)
  {
    var text := ['(', '"', '(', '"', ' ', ')', '"', ')'];
    var s := Scan(1, Inside('"', false));
    assert Search(text, 2, s) == Search(text, 3, s);
    assert Search(text, 3, s) == Search(text, 4, Scan(1, Outside));
    assert Search(text, 4, Scan(1, Outside)) == Search(text, 5, Scan(1, Outside)) == Some(5);
    assert Search(text, 4, s) == Search(text, 5, s) == Search(text, 6, s);
    assert Search(text, 6, s) == Search(text, 7, Scan(1, Outside)) == Some(7);
  }

  // ----- Finding cmd("name" calls -----------------------------------------------------------------

  function SkipSpaces(text: string, i: nat): (j: nat)
    requires i <= |text|
    ensures i <= j <= |text|
    decreases |text| - i
  {
    if i < |text| && ReleaseText.IsSpace(text[i]) then SkipSpaces(text, i + 1) else i
  }

  /** What `.` does not match. */
  predicate IsLineEnd(c: char) {
    var n := c as int;
    n == 10 || n == 13 || n == 0x2028 || n == 0x2029
  }

  /** `((?:\\.|[^"])*)"` from position i, with its backtracking: where the closing quote is. */
  function Body(text: string, i: nat): (stop: Option<nat>)
    requires i <= |text|
    ensures stop.Some? ==> i <= stop.value < |text| && text[stop.value] == '"'
    decreases |text| - i
  {
    var escaped := if i + 1 < |text| && text[i] == '\\' && !IsLineEnd(text[i + 1]) then Body(text, i + 2) else None;
    if escaped.Some? then escaped
    else if i == |text| then None
    else if text[i] == '"' then Some(i)
    else Body(text, i + 1)
  }

  /** `cmd\s*\(` at position s: where the bracket is. */
  function HeadAt(text: string, s: nat): (open: Option<nat>)
    ensures open.Some? ==> s + 3 <= open.value < |text| && text[open.value] == '('
  {
    if s + 3 > |text| || text[s] != 'c' || text[s + 1] != 'm' || text[s + 2] != 'd' then None
    else
      var open := SkipSpaces(text, s + 3);
      if open == |text| || text[open] != '(' then None else Some(open)
  }

  /** `\s*"` after the bracket: where the name starts. */
  function NameAt(text: string, open: nat): (name: Option<nat>)
    requires open < |text|
    ensures name.Some? ==> open + 1 < name.value <= |text| && text[name.value - 1] == '"'
  {
    var quote := SkipSpaces(text, open + 1);
    if quote == |text| || text[quote] != '"' then None else Some(quote + 1)
  }

  /** A match of the call pattern: its bracket, where the name starts, and where the match ends. */
  datatype Hit = Hit(open: nat, name: nat, stop: nat)

  /** `cmd\s*\(\s*"((?:\\.|[^"])*)"` at position s. */
  function HitAt(text: string, s: nat): (hit: Option<Hit>)
    ensures hit.Some? ==>
      s + 3 <= hit.value.open < hit.value.name < hit.value.stop <= |text| && text[hit.value.open] == '('
  {
    var open := HeadAt(text, s);
    if open.None? then None
    else
      var name := NameAt(text, open.value);
      if name.None? then None
      else
        var end := Body(text, name.value);
        if end.None? then None else Some(Hit(open.value, name.value, end.value + 1))
  }

  datatype Call = Call(start: nat, name: string, end: nat)

  /** `replace(/\\"/g, '"')`. */
  function Unescaped(name: string): string {
    if name == "" then ""
    else if |name| >= 2 && name[0] == '\\' && name[1] == '"' then ['"'] + Unescaped(name[2..])
    else [name[0]] + Unescaped(name[1..])
  }

  /** A match: where the search goes on, and the call unless its bracket is never closed. */
  datatype Mark = Mark(stop: nat, call: Option<Call>)

  function MarkAt(text: string, s: nat): (mark: Option<Mark>)
    ensures mark.Some? ==> s < mark.value.stop <= |text|
    ensures mark.Some? <==> HitAt(text, s).Some?
  {
    var hit := HitAt(text, s);
    if hit.None? then None
    else
      var close := Matching(text, hit.value.open);
      if close.None? then Some(Mark(hit.value.stop, None))
      else Some(Mark(hit.value.stop,
        Some(Call(s, Unescaped(text[hit.value.name..hit.value.stop - 1]), close.value + 1))))
  }

  /** What the pattern finds at the first n positions of a text. */
  function MarksTo(text: string, n: nat): (marks: seq<Option<Mark>>)
    ensures |marks| == n
  {
    if n == 0 then [] else MarksTo(text, n - 1) + [MarkAt(text, n - 1)]
  }

  function Marks(text: string): (marks: seq<Option<Mark>>)
    ensures |marks| == |text|
  {
    MarksTo(text, |text|)
  }

  lemma {:induction false} MarksShow(text: string, n: nat, i: nat)
    requires i < n
    ensures MarksTo(text, n)[i] == MarkAt(text, i)
  {
    if i < n - 1 {
      MarksShow(text, n - 1, i);
    }
  }

  predicate Forward(marks: seq<Option<Mark>>) {
    forall i :: 0 <= i < |marks| && marks[i].Some? ==> i < marks[i].value.stop <= |marks|
  }

  /** `re.exec` from `lastIndex`: the first position at which the pattern matches, or the length. */
  function NextMark(marks: seq<Option<Mark>>, from: nat): (s: nat)
    requires from <= |marks|
    ensures from <= s <= |marks| && (s < |marks| ==> marks[s].Some?)
    decreases |marks| - from
  {
    if from == |marks| || marks[from].Some? then from else NextMark(marks, from + 1)
  }

  function AsList<T>(value: Option<T>): seq<T> {
    if value.Some? then [value.value] else []
  }

  /** The calls found from `from` on, in source order; a call without a closing bracket is skipped. */
  function CallsFrom(marks: seq<Option<Mark>>, from: nat): seq<Call>
    requires Forward(marks) && from <= |marks|
    decreases |marks| - from
  {
    var s := NextMark(marks, from);
    if s == |marks| then [] else AsList(marks[s].value.call) + CallsFrom(marks, marks[s].value.stop)
  }

  lemma {:induction false} CallsStep(marks: seq<Option<Mark>>, from: nat)
    requires Forward(marks) && from < |marks|
    ensures CallsFrom(marks, from)
      == if marks[from].None? then CallsFrom(marks, from + 1)
         else AsList(marks[from].value.call) + CallsFrom(marks, marks[from].value.stop)
  {
  }

  lemma {:induction false} MarksGoForward(text: string)
    ensures Forward(Marks(text))
  {
    forall i | 0 <= i < |text| && Marks(text)[i].Some? ensures i < Marks(text)[i].value.stop <= |text| {
      MarksShow(text, |text|, i);
    }
  }

  /** The calls `re.exec` finds from a position on. */
  function CallsAfter(text: string, from: nat): seq<Call>
    requires from <= |text|
  {
    MarksGoForward(text);
    CallsFrom(Marks(text), from)
  }

  /** `findCmdCalls`. */
  function CmdCalls(text: string): seq<Call> {
    CallsAfter(text, 0)
  }

  /** `text.indexOf("(", from)`, or the length. */
  function IndexOfBracket(text: string, from: nat): (i: nat)
    requires from <= |text|
    ensures from <= i <= |text|
    decreases |text| - from
  {
    if from == |text| || text[from] == '(' then from else IndexOfBracket(text, from + 1)
  }

  lemma {:induction false} NoBracketInSpaces(text: string, i: nat)
    requires i <= |text|
    ensures IndexOfBracket(text, i) == IndexOfBracket(text, SkipSpaces(text, i))
    decreases |text| - i
  {
    if i < |text| && ReleaseText.IsSpace(text[i]) {
      NoBracketInSpaces(text, i + 1);
    }
  }

  /** The first bracket after the start of a match is the bracket the pattern matched. */
  lemma {:induction false} FirstBracketIsMatched(text: string, s: nat)
    requires HitAt(text, s).Some?
    ensures IndexOfBracket(text, s) == HitAt(text, s).value.open
  {
    assert IndexOfBracket(text, s) == IndexOfBracket(text, s + 1) == IndexOfBracket(text, s + 2)
      == IndexOfBracket(text, s + 3);
    NoBracketInSpaces(text, s + 3);
  }

  /** One match of the pattern: its call, unless the bracket is never closed. */
  method ReadCall(text: string, index: nat) returns (mark: Mark)
    requires HitAt(text, index).Some?
    ensures Some(mark) == MarkAt(text, index)
  {
    var hit := HitAt(text, index).value;
    FirstBracketIsMatched(text, index);
    var open := IndexOfBracket(text, index);
    var close := FindMatching(text, open);
    if close == -1 {
      return Mark(hit.stop, None);
    }
    return Mark(hit.stop, Some(Call(index, Unescaped(text[hit.name..hit.stop - 1]), close + 1)));
  }

  lemma {:induction false} CallsAfterStep(text: string, i: nat)
    requires i < |text|
    ensures CallsAfter(text, i)
      == if MarkAt(text, i).None? then CallsAfter(text, i + 1)
         else AsList(MarkAt(text, i).value.call) + CallsAfter(text, MarkAt(text, i).value.stop)
  {
    MarksGoForward(text);
    CallsStep(Marks(text), i);
    MarksShow(text, |text|, i);
  }

  /** One step of the search: past a position without a match, or past the match. */
  method SearchStep(text: string, lastIndex: nat) returns (found: seq<Call>, next: nat)
    requires lastIndex < |text|
    ensures lastIndex < next <= |text| && CallsAfter(text, lastIndex) == found + CallsAfter(text, next)
  {
    CallsAfterStep(text, lastIndex);
    if HitAt(text, lastIndex).None? {
      AddNothing(CallsAfter(text, lastIndex + 1));
      return [], lastIndex + 1;
    }
    var mark := ReadCall(text, lastIndex);
    return AsList(mark.call), mark.stop;
  }

  method FindCmdCalls(text: string) returns (calls: seq<Call>)
    ensures calls == CmdCalls(text)
  {
    calls := [];
    var lastIndex := 0;
    while lastIndex < |text|
      invariant lastIndex <= |text|
      invariant calls + CallsAfter(text, lastIndex) == CallsAfter(text, 0)
      decreases |text| - lastIndex
    {
      var found, next := SearchStep(text, lastIndex);
      Associate(calls, found, CallsAfter(text, next));
      calls, lastIndex := calls + found, next;
    }
    AddNothing(calls);
  }

  // ----- A string literal ends where the scanner leaves it ------------------------------------------

  /** The end of a double-quoted literal as the bracket scanner sees it. */
  function StringEnd(text: string, i: nat, escaped: bool): (end: Option<nat>)
    requires i <= |text|
    ensures end.Some? ==> i <= end.value < |text| && text[end.value] == '"'
    decreases |text| - i
  {
    if i == |text| then None
    else if escaped then StringEnd(text, i + 1, false)
    else if text[i] == '\\' then StringEnd(text, i + 1, true)
    else if text[i] == '"' then Some(i)
    else StringEnd(text, i + 1, false)
  }

  /** The pattern's backtracking never matters for a literal that is closed. */
  lemma {:induction false} BodyIsStringEnd(text: string, i: nat)
    requires i <= |text| && StringEnd(text, i, false).Some?
    ensures Body(text, i) == StringEnd(text, i, false)
    decreases |text| - i
  {
    if text[i] == '\\' {
      assert i + 1 < |text|;
      BodyIsStringEnd(text, i + 2);
      if IsLineEnd(text[i + 1]) {
        BodyIsStringEnd(text, i + 1);
      }
    } else if text[i] != '"' {
      BodyIsStringEnd(text, i + 1);
    }
  }

  /** The pattern finds a closing quote whenever there is one. */
  lemma {:induction false} BodyExists(text: string, i: nat, k: nat)
    requires i <= k < |text| && text[k] == '"'
    ensures Body(text, i).Some?
    decreases k - i
  {
    if i < k {
      BodyExists(text, i + 1, k);
    }
  }

  lemma {:induction false} LiteralCloses(text: string, open: nat, i: nat, escaped: bool, later: nat)
    requires open < i < later <= |text|
    requires ScanTo(text, open + 1, i).quote == Inside('"', escaped) && ScanTo(text, open + 1, later).quote.Outside?
    ensures StringEnd(text, i, escaped).Some? && StringEnd(text, i, escaped).value < later
    decreases later - i
  {
    ScanStep(text, open, i);
    if escaped || text[i] != '"' {
      LiteralCloses(text, open, i + 1, !escaped && text[i] == '\\', later);
    }
  }

  lemma {:induction false} SpacesKeepScan(text: string, open: nat, i: nat)
    requires open < i <= |text| && ScanTo(text, open + 1, i).quote.Outside?
    ensures ScanTo(text, open + 1, SkipSpaces(text, i)) == ScanTo(text, open + 1, i)
    decreases |text| - i
  {
    if i < |text| && ReleaseText.IsSpace(text[i]) {
      ScanStep(text, open, i);
      SpacesKeepScan(text, open, i + 1);
    }
  }

  /** The scanner passes the head of a call unchanged. */
  lemma {:induction false} HeadKeepsScan(text: string, outer: nat, s: nat)
    requires outer < s && HitAt(text, s).Some?
    ensures ScanTo(text, outer + 1, s).quote.Outside? ==>
      ScanTo(text, outer + 1, HitAt(text, s).value.open) == ScanTo(text, outer + 1, s)
  {
    if ScanTo(text, outer + 1, s).quote.Outside? {
      ScanStep(text, outer, s);
      ScanStep(text, outer, s + 1);
      ScanStep(text, outer, s + 2);
      SpacesKeepScan(text, outer, s + 3);
    }
  }

  /** A call whose bracket is closed has its whole name inside. */
  lemma {:induction false} NameIsInside(text: string, s: nat)
    requires HitAt(text, s).Some? && Matching(text, HitAt(text, s).value.open).Some?
    ensures var hit := HitAt(text, s).value;
      && hit.stop <= Matching(text, hit.open).value
      && StringEnd(text, hit.name, false) == Some(hit.stop - 1)
  {
    var hit := HitAt(text, s).value;
    var close := Matching(text, hit.open).value;
    MatchingCloses(text, hit.open, close);
    SpacesKeepScan(text, hit.open, hit.open + 1);
    var quote := SkipSpaces(text, hit.open + 1);
    assert ScanTo(text, hit.open + 1, quote) == Scan(1, Outside);
    ScanStep(text, hit.open, quote);
    if close <= quote {
      SpacesBefore(text, hit.open + 1, close);
    }
    LiteralCloses(text, hit.open, hit.name, false, close);
    BodyIsStringEnd(text, hit.name);
  }

  lemma {:induction false} SpacesBefore(text: string, i: nat, k: nat)
    requires i <= k < |text| && k <= SkipSpaces(text, i)
    ensures k < SkipSpaces(text, i) ==> ReleaseText.IsSpace(text[k])
    ensures k == SkipSpaces(text, i) ==> !ReleaseText.IsSpace(text[k])
    decreases |text| - i
  {
    if i < |text| && ReleaseText.IsSpace(text[i]) && i < k {
      SpacesBefore(text, i + 1, k);
    }
  }

  /** Between its start and its bracket a call has letters and spaces only. */
  lemma {:induction false} HeadOfHit(text: string, s: nat, k: nat)
    requires HitAt(text, s).Some? && s < k < HitAt(text, s).value.open
    ensures text[k] != 'c' && text[k] != ')'
    ensures HitAt(text, k).None?
  {
    if k >= s + 3 {
      SpacesBefore(text, s + 3, k);
    }
  }

  // ----- Calls nest -------------------------------------------------------------------------------

  /** A closed call none of whose inner pattern matches lies in a string literal. */
  ghost predicate Clean(text: string, s: nat) {
    && HitAt(text, s).Some?
    && var open := HitAt(text, s).value.open;
    && Matching(text, open).Some?
    && forall k :: open < k < Matching(text, open).value && HitAt(text, k).Some? ==> IsOutside(text, open, k)
  }

  predicate IsOutside(text: string, open: nat, k: nat) {
    open < k <= |text| && ScanTo(text, open + 1, k).quote.Outside?
  }

  function EndOf(text: string, s: nat): nat
    requires HitAt(text, s).Some? && Matching(text, HitAt(text, s).value.open).Some?
  {
    Matching(text, HitAt(text, s).value.open).value + 1
  }

  /** Unquoted, an inner call starts past the outer bracket, and its own bracket is inside. */
  lemma {:induction false} InnerBracket(text: string, s: nat, k: nat)
    requires Clean(text, s) && s < k < EndOf(text, s) && HitAt(text, k).Some?
    ensures var outer, inner := HitAt(text, s).value.open, HitAt(text, k).value.open;
      && outer < k && inner < EndOf(text, s) - 1
      && IsOutside(text, outer, k) && IsOutside(text, outer, inner)
      && ScanTo(text, outer + 1, inner) == ScanTo(text, outer + 1, k)
  {
    var outer, inner, close := HitAt(text, s).value.open, HitAt(text, k).value.open, EndOf(text, s) - 1;
    if k < outer {
      HeadOfHit(text, s, k);
    }
    assert text[k] == 'c' && text[outer] == '(';
    MatchingCloses(text, outer, close);
    if k < close < inner {
      HeadOfHit(text, k, close);
    }
    HeadKeepsScan(text, outer, k);
  }

  /** Laminarity: unquoted calls are nested or disjoint, and nested ones inherit being unquoted. */
  lemma {:induction false} CallsAreLaminar(text: string, s: nat, k: nat)
    requires Clean(text, s) && s < k < EndOf(text, s) && HitAt(text, k).Some?
    ensures Clean(text, k) && EndOf(text, k) < EndOf(text, s)
  {
    var outer, inner := HitAt(text, s).value.open, HitAt(text, k).value.open;
    InnerBracket(text, s, k);
    BracketsNest(text, outer, inner);
    forall j | inner < j < Matching(text, inner).value && HitAt(text, j).Some? ensures IsOutside(text, inner, j) {
      assert IsOutside(text, outer, j);
      InnerScan(text, outer, inner, j);
    }
  }

  // ----- A call's own text -------------------------------------------------------------------------

  lemma {:induction false} ScanInWindow(text: string, lo: nat, hi: nat, from: nat, i: nat)
    requires lo <= from <= i <= hi <= |text|
    ensures ScanTo(text[lo..hi], from - lo, i - lo) == ScanTo(text, from, i)
  {
    if i > from {
      ScanInWindow(text, lo, hi, from, i - 1);
    }
  }

  lemma {:induction false} MatchingInWindow(text: string, lo: nat, hi: nat, open: nat)
    requires lo <= open < hi <= |text| && Matching(text, open).Some? && Matching(text, open).value < hi
    ensures Matching(text[lo..hi], open - lo) == Some(Matching(text, open).value - lo)
  {
    var window, close := text[lo..hi], Matching(text, open).value;
    var open', close' := open - lo, close - lo;
    MatchingCloses(text, open, close);
    ScanInWindow(text, lo, hi, open + 1, close);
    forall j | open' < j <= close' ensures IsOpen(window, open', j) {
      ScanInWindow(text, lo, hi, open + 1, j + lo);
      assert IsOpen(text, open, j + lo);
    }
    MatchingCloses(window, open', close');
  }

  lemma {:induction false} SpacesInWindow(text: string, lo: nat, hi: nat, i: nat)
    requires lo <= i <= hi <= |text|
    ensures SkipSpaces(text[lo..hi], i - lo) + lo == if SkipSpaces(text, i) < hi then SkipSpaces(text, i) else hi
    decreases hi - i
  {
    if i < hi && ReleaseText.IsSpace(text[i]) {
      SpacesInWindow(text, lo, hi, i + 1);
    }
  }

  lemma {:induction false} LiteralInWindow(text: string, lo: nat, hi: nat, i: nat, escaped: bool)
    requires lo <= i <= hi <= |text| && StringEnd(text, i, escaped).Some? && StringEnd(text, i, escaped).value < hi
    ensures StringEnd(text[lo..hi], i - lo, escaped) == Some(StringEnd(text, i, escaped).value - lo)
    decreases hi - i
  {
    if i < hi && (escaped || text[i] != '"') {
      LiteralInWindow(text, lo, hi, i + 1, !escaped && text[i] == '\\');
    }
  }

  lemma {:induction false} HeadInWindow(text: string, lo: nat, hi: nat, s: nat)
    requires lo <= s < hi <= |text|
    ensures HeadAt(text[lo..hi], s - lo)
      == if HeadAt(text, s).Some? && HeadAt(text, s).value < hi then Some(HeadAt(text, s).value - lo) else None
  {
    if s + 3 <= hi {
      SpacesInWindow(text, lo, hi, s + 3);
    }
  }

  lemma {:induction false} NameInWindow(text: string, lo: nat, hi: nat, open: nat)
    requires lo <= open < hi <= |text|
    ensures NameAt(text[lo..hi], open - lo)
      == if NameAt(text, open).Some? && NameAt(text, open).value <= hi then Some(NameAt(text, open).value - lo)
        else None
  {
    SpacesInWindow(text, lo, hi, open + 1);
  }

  /** A closed call inside a window is the same call there. */
  lemma {:induction false} HitInWindow(text: string, lo: nat, hi: nat, s: nat)
    requires lo <= s && HitAt(text, s).Some? && Matching(text, HitAt(text, s).value.open).Some?
    requires EndOf(text, s) <= hi <= |text|
    ensures var hit := HitAt(text, s).value;
      HitAt(text[lo..hi], s - lo) == Some(Hit(hit.open - lo, hit.name - lo, hit.stop - lo))
  {
    var hit := HitAt(text, s).value;
    NameIsInside(text, s);
    PartsInWindow(text, lo, hi, s, hit);
    HitOf(text[lo..hi], s - lo, hit.open - lo, hit.name - lo, hit.stop - 1 - lo);
  }

  lemma {:induction false} PartsInWindow(text: string, lo: nat, hi: nat, s: nat, hit: Hit)
    requires lo <= s && HitAt(text, s) == Some(hit) && hit.stop <= hi <= |text|
    requires StringEnd(text, hit.name, false) == Some(hit.stop - 1)
    ensures HeadAt(text[lo..hi], s - lo) == Some(hit.open - lo)
    ensures NameAt(text[lo..hi], hit.open - lo) == Some(hit.name - lo)
    ensures StringEnd(text[lo..hi], hit.name - lo, false) == Some(hit.stop - 1 - lo)
  {
    HeadInWindow(text, lo, hi, s);
    NameInWindow(text, lo, hi, hit.open);
    LiteralInWindow(text, lo, hi, hit.name, false);
  }

  lemma {:induction false} HitOf(text: string, s: nat, open: nat, name: nat, end: nat)
    requires HeadAt(text, s) == Some(open) && NameAt(text, open) == Some(name)
    requires name <= |text| && StringEnd(text, name, false) == Some(end)
    ensures HitAt(text, s) == Some(Hit(open, name, end + 1))
  {
    BodyIsStringEnd(text, name);
  }

  /** The pattern cannot match in a window where it does not match in the text. */
  lemma {:induction false} HitOutOfWindow(text: string, lo: nat, hi: nat, s: nat)
    requires lo <= s < hi <= |text| && HitAt(text[lo..hi], s - lo).Some?
    ensures HitAt(text, s).Some?
  {
    var hit := HitAt(text[lo..hi], s - lo).value;
    HeadInWindow(text, lo, hi, s);
    NameInWindow(text, lo, hi, hit.open + lo);
    BodyExists(text, hit.name + lo, hit.stop - 1 + lo);
  }

  lemma {:induction false} OutsideInWindow(text: string, lo: nat, hi: nat, open: nat, k: nat)
    requires lo <= open < k <= hi <= |text| && IsOutside(text, open, k)
    ensures IsOutside(text[lo..hi], open - lo, k - lo)
  {
    ScanInWindow(text, lo, hi, open + 1, k);
  }

  lemma {:induction false} InnerOutside(text: string, s: nat, k: nat)
    requires Clean(text, s) && HitAt(text, s).value.open < s + k < EndOf(text, s) - 1
    requires HitAt(text[s..EndOf(text, s)], k).Some?
    ensures IsOutside(text[s..EndOf(text, s)], HitAt(text, s).value.open - s, k)
  {
    HitOutOfWindow(text, s, EndOf(text, s), s + k);
    OutsideInWindow(text, s, EndOf(text, s), HitAt(text, s).value.open, s + k);
  }

  /** The text of the call at s is itself a clean call. */
  lemma {:induction false} CallText(text: string, s: nat)
    requires Clean(text, s)
    ensures var window := text[s..EndOf(text, s)];
      Clean(window, 0) && EndOf(window, 0) == |window|
  {
    var hi, open := EndOf(text, s), HitAt(text, s).value.open;
    var window, open' := text[s..hi], open - s;
    HitInWindow(text, s, hi, s);
    MatchingInWindow(text, s, hi, open);
    forall k | open' < k < Matching(window, open').value && HitAt(window, k).Some? ensures IsOutside(window, open', k) {
      InnerOutside(text, s, k);
    }
  }

  function MovedCall(call: Call, offset: nat): Call {
    Call(call.start + offset, call.name, call.end + offset)
  }

  function Moved(calls: seq<Call>, offset: nat): seq<Call> {
    if calls == [] then [] else [MovedCall(calls[0], offset)] + Moved(calls[1..], offset)
  }

  function MovedMark(mark: Option<Mark>, offset: nat): Option<Mark> {
    match mark
    case None => None
    case Some(Mark(stop, call)) => Some(Mark(stop + offset, MovedOption(call, offset)))
  }

  /** The window shows at position k what the text shows there. */
  predicate AgreesAt(text: string, lo: nat, hi: nat, k: nat) {
    lo <= k < hi <= |text| && MarkAt(text, k) == MovedMark(MarkAt(text[lo..hi], k - lo), lo)
  }

  lemma {:induction false} MarkOf(text: string, k: nat, hit: Hit, close: nat, name: string)
    requires HitAt(text, k) == Some(hit) && Matching(text, hit.open) == Some(close)
    requires text[hit.name..hit.stop - 1] == name
    ensures MarkAt(text, k) == Some(Mark(hit.stop, Some(Call(k, Unescaped(name), close + 1))))
  {
  }

  /** A closed call inside a window: its bracket and its name there. */
  lemma {:induction false} BracketInWindow(text: string, lo: nat, hi: nat, k: nat)
    requires lo <= k && HitAt(text, k).Some? && Matching(text, HitAt(text, k).value.open).Some?
      && EndOf(text, k) <= hi <= |text|
    ensures var hit := HitAt(text, k).value;
      && hit.stop < EndOf(text, k)
      && Matching(text[lo..hi], hit.open - lo) == Some(EndOf(text, k) - 1 - lo)
      && text[lo..hi][hit.name - lo..hit.stop - 1 - lo] == text[hit.name..hit.stop - 1]
  {
    var hit := HitAt(text, k).value;
    NameIsInside(text, k);
    MatchingInWindow(text, lo, hi, hit.open);
    SliceOfSlice(text, lo, hi, hit.name, hit.stop - 1);
  }

  lemma {:induction false} ClosedCallAgrees(text: string, lo: nat, hi: nat, k: nat)
    requires lo <= k && HitAt(text, k).Some? && Matching(text, HitAt(text, k).value.open).Some?
      && EndOf(text, k) <= hi <= |text|
    ensures AgreesAt(text, lo, hi, k)
  {
    var hit, end := HitAt(text, k).value, EndOf(text, k);
    BracketInWindow(text, lo, hi, k);
    HitInWindow(text, lo, hi, k);
    MarksAgree(text, text[lo..hi], lo, k, hit, end - 1, text[hit.name..hit.stop - 1]);
  }

  lemma {:induction false} MarksAgree(
      text: string, window: string, lo: nat, k: nat, hit: Hit, close: nat, name: string)
    requires lo <= k < hit.open < hit.name < hit.stop <= |text| && hit.stop - lo <= |window| && lo <= close
    requires HitAt(text, k) == Some(hit) && Matching(text, hit.open) == Some(close)
    requires HitAt(window, k - lo) == Some(Hit(hit.open - lo, hit.name - lo, hit.stop - lo))
    requires Matching(window, hit.open - lo) == Some(close - lo)
    requires text[hit.name..hit.stop - 1] == window[hit.name - lo..hit.stop - 1 - lo] == name
    ensures MarkAt(text, k) == MovedMark(MarkAt(window, k - lo), lo)
  {
    MarkOf(text, k, hit, close, name);
    MarkOf(window, k - lo, Hit(hit.open - lo, hit.name - lo, hit.stop - lo), close - lo, name);
  }

  lemma {:induction false} NoCallAgrees(text: string, lo: nat, hi: nat, k: nat)
    requires lo <= k < hi <= |text| && HitAt(text, k).None?
    ensures AgreesAt(text, lo, hi, k)
  {
    if HitAt(text[lo..hi], k - lo).Some? {
      HitOutOfWindow(text, lo, hi, k);
    }
  }

  /** At every position of a clean call, its own text shows what the whole text shows. */
  lemma {:induction false} CallAgrees(text: string, s: nat, k: nat)
    requires Clean(text, s) && s <= k < EndOf(text, s)
    ensures AgreesAt(text, s, EndOf(text, s), k)
  {
    if HitAt(text, k).None? {
      NoCallAgrees(text, s, EndOf(text, s), k);
    } else {
      if s < k {
        CallsAreLaminar(text, s, k);
      }
      ClosedCallAgrees(text, s, EndOf(text, s), k);
    }
  }

  /** `inner` is what `marks` shows from s on. */
  ghost predicate IsWindow(marks: seq<Option<Mark>>, inner: seq<Option<Mark>>, s: nat) {
    && s + |inner| <= |marks|
    && forall i :: 0 <= i < |inner| ==> marks[s + i] == MovedMark(inner[i], s)
  }

  lemma {:induction false} AgreementIsWindow(text: string, lo: nat, hi: nat)
    requires lo <= hi <= |text| && forall k :: lo <= k < hi ==> AgreesAt(text, lo, hi, k)
    ensures IsWindow(Marks(text), Marks(text[lo..hi]), lo)
  {
    var marks, inner := Marks(text), Marks(text[lo..hi]);
    forall i | 0 <= i < |inner| ensures marks[lo + i] == MovedMark(inner[i], lo) {
      assert AgreesAt(text, lo, hi, lo + i);
      MarksShow(text, |text|, lo + i);
      MarksShow(text[lo..hi], hi - lo, i);
    }
  }

  lemma {:induction false} CallIsWindow(text: string, s: nat)
    requires Clean(text, s)
    ensures IsWindow(Marks(text), Marks(text[s..EndOf(text, s)]), s)
  {
    forall k | s <= k < EndOf(text, s) ensures AgreesAt(text, s, EndOf(text, s), k) {
      CallAgrees(text, s, k);
    }
    AgreementIsWindow(text, s, EndOf(text, s));
  }

  lemma {:induction false} NextInWindow(marks: seq<Option<Mark>>, inner: seq<Option<Mark>>, s: nat, from: nat)
    requires IsWindow(marks, inner, s) && from <= |inner|
    ensures var next := NextMark(marks, s + from);
      s + NextMark(inner, from) == if next < s + |inner| then next else s + |inner|
    decreases |inner| - from
  {
    if from < |inner| && inner[from].None? {
      assert marks[s + from] == MovedMark(inner[from], s);
      NextInWindow(marks, inner, s, from + 1);
    }
  }

  lemma {:induction false} NextSkips(marks: seq<Option<Mark>>, from: nat, to: nat)
    requires from <= |marks| && from <= to <= NextMark(marks, from)
    ensures NextMark(marks, to) == NextMark(marks, from)
    decreases |marks| - from
  {
    if from < to {
      NextSkips(marks, from + 1, to);
    }
  }

  lemma {:induction false} SplitEnds(marks: seq<Option<Mark>>, inner: seq<Option<Mark>>, s: nat, from: nat)
    requires Forward(marks) && Forward(inner) && s + |inner| <= |marks|
    requires from <= |inner| && NextMark(inner, from) == |inner| && s + |inner| <= NextMark(marks, s + from)
    ensures CallsFrom(inner, from) == [] && CallsFrom(marks, s + from) == CallsFrom(marks, s + |inner|)
  {
    NextSkips(marks, s + from, s + |inner|);
  }

  lemma {:induction false} SplitGoesOn(
      marks: seq<Option<Mark>>, inner: seq<Option<Mark>>, s: nat, from: nat, next: nat, tail: seq<Call>)
    requires Forward(marks) && Forward(inner) && s + |inner| <= |marks|
    requires from <= next < |inner| && NextMark(inner, from) == next && NextMark(marks, s + from) == s + next
    requires inner[next].Some? && marks[s + next] == MovedMark(inner[next], s)
    requires var stop := inner[next].value.stop;
      stop <= |inner| && CallsFrom(marks, s + stop) == Moved(CallsFrom(inner, stop), s) + tail
    ensures CallsFrom(marks, s + from) == Moved(CallsFrom(inner, from), s) + tail
  {
    var mark := inner[next].value;
    SplitStep(mark.call, CallsFrom(inner, mark.stop), tail, s);
  }

  /** The next mark inside a window is the next mark of the text. */
  lemma {:induction false} NextShown(marks: seq<Option<Mark>>, inner: seq<Option<Mark>>, s: nat, from: nat)
    requires Forward(inner) && IsWindow(marks, inner, s) && from <= |inner|
    ensures var next := NextMark(inner, from);
      if next == |inner| then s + |inner| <= NextMark(marks, s + from)
      else
        && NextMark(marks, s + from) == s + next && inner[next].Some?
        && next < inner[next].value.stop <= |inner| && marks[s + next] == MovedMark(inner[next], s)
  {
    NextInWindow(marks, inner, s, from);
  }

  /** The calls from a position inside a window: those of the window, then those after it. */
  lemma {:induction false} CallsSplit(marks: seq<Option<Mark>>, inner: seq<Option<Mark>>, s: nat, from: nat)
    requires Forward(marks) && Forward(inner) && IsWindow(marks, inner, s) && from <= |inner|
    ensures CallsFrom(marks, s + from) == Moved(CallsFrom(inner, from), s) + CallsFrom(marks, s + |inner|)
    decreases |inner| - from
  {
    var next := NextMark(inner, from);
    NextShown(marks, inner, s, from);
    if next == |inner| {
      SplitEnds(marks, inner, s, from);
      AddNothing(CallsFrom(marks, s + |inner|));
    } else {
      var stop := inner[next].value.stop;
      CallsSplit(marks, inner, s, stop);
      SplitGoesOn(marks, inner, s, from, next, CallsFrom(marks, s + |inner|));
    }
  }

  function MovedOption(call: Option<Call>, offset: nat): Option<Call> {
    if call.Some? then Some(MovedCall(call.value, offset)) else None
  }

  lemma {:induction false} SplitStep(call: Option<Call>, calls: seq<Call>, tail: seq<Call>, offset: nat)
    ensures AsList(MovedOption(call, offset)) + (Moved(calls, offset) + tail)
      == Moved(AsList(call) + calls, offset) + tail
  {
    MovedAppend(call, calls, offset);
    Associate(AsList(MovedOption(call, offset)), Moved(calls, offset), tail);
  }

  lemma {:induction false} MovedAppend(call: Option<Call>, calls: seq<Call>, offset: nat)
    ensures Moved(AsList(call) + calls, offset) == AsList(MovedOption(call, offset)) + Moved(calls, offset)
  {
    AddNothing(calls);
    AddNothing(Moved(calls, offset));
  }

  lemma {:induction false} CallsAre(text: string, from: nat)
    requires from <= |text|
    ensures Forward(Marks(text)) && CallsAfter(text, from) == CallsFrom(Marks(text), from)
  {
    MarksGoForward(text);
  }

  /** What the marks of a text and of a window of it say about the calls from a position on. */
  ghost predicate MarksSplit(marks: seq<Option<Mark>>, inner: seq<Option<Mark>>, s: nat, at: nat) {
    && Forward(marks) && Forward(inner) && at <= |inner| && s + |inner| <= |marks|
    && CallsFrom(marks, s + at) == Moved(CallsFrom(inner, at), s) + CallsFrom(marks, s + |inner|)
  }

  lemma {:induction false} WindowSplits(marks: seq<Option<Mark>>, inner: seq<Option<Mark>>, s: nat, at: nat)
    requires Forward(marks) && Forward(inner) && IsWindow(marks, inner, s) && at <= |inner|
    ensures MarksSplit(marks, inner, s, at)
  {
    CallsSplit(marks, inner, s, at);
  }

  lemma {:induction false} CallsInWindow(text: string, window: string, s: nat, at: nat, from: nat, end: nat)
    requires MarksSplit(Marks(text), Marks(window), s, at) && from == s + at && end == s + |window|
    ensures CallsAfter(text, from) == Moved(CallsAfter(window, at), s) + CallsAfter(text, end)
  {
    CallsAre(text, from);
    CallsAre(text, end);
    CallsAre(window, at);
  }

  lemma {:induction false} CallSplits(text: string, s: nat, at: nat)
    requires Clean(text, s) && s + at <= EndOf(text, s)
    ensures MarksSplit(Marks(text), Marks(text[s..EndOf(text, s)]), s, at)
  {
    CallIsWindow(text, s);
    MarksGoForward(text);
    MarksGoForward(text[s..EndOf(text, s)]);
    WindowSplits(Marks(text), Marks(text[s..EndOf(text, s)]), s, at);
  }

  /** The calls from inside a clean call on: those of its own text, then those after it. */
  lemma {:induction false} GroupOfCall(text: string, s: nat, from: nat)
    requires Clean(text, s) && s <= from <= EndOf(text, s)
    ensures var hi := EndOf(text, s);
      CallsAfter(text, from) == Moved(CallsAfter(text[s..hi], from - s), s) + CallsAfter(text, hi)
  {
    CallSplits(text, s, from - s);
    CallsInWindow(text, text[s..EndOf(text, s)], s, from - s, from, EndOf(text, s));
  }

  // ----- What is a call ----------------------------------------------------------------------------

  predicate AllSpaces(text: string, from: nat, to: nat) {
    from <= to <= |text| && forall k :: from <= k < to ==> ReleaseText.IsSpace(text[k])
  }

  lemma {:induction false} SkipsTheSpaces(text: string, i: nat, j: nat)
    requires i <= |text|
    ensures SkipSpaces(text, i) == j <==> AllSpaces(text, i, j) && (j == |text| || !ReleaseText.IsSpace(text[j]))
    decreases |text| - i
  {
    if i < |text| && ReleaseText.IsSpace(text[i]) {
      SkipsTheSpaces(text, i + 1, j);
    }
  }

  /** What stands where the pattern matches: the word, a bracket, a quote and a literal, with spaces between. */
  predicate IsCallHead(text: string, s: nat, hit: Hit) {
    && s + 3 <= hit.open < hit.name < hit.stop <= |text|
    && text[s] == 'c' && text[s + 1] == 'm' && text[s + 2] == 'd'
    && AllSpaces(text, s + 3, hit.open) && text[hit.open] == '('
    && AllSpaces(text, hit.open + 1, hit.name - 1) && text[hit.name - 1] == '"'
  }

  lemma {:induction false} HitExactly(text: string, s: nat, hit: Hit)
    ensures HitAt(text, s) == Some(hit) <==> IsCallHead(text, s, hit) && Body(text, hit.name) == Some(hit.stop - 1)
  {
    if s + 3 <= |text| {
      SkipsTheSpaces(text, s + 3, SkipSpaces(text, s + 3));
      if IsCallHead(text, s, hit) {
        SkipsTheSpaces(text, s + 3, hit.open);
        SkipsTheSpaces(text, hit.open + 1, hit.name - 1);
      }
      if HeadAt(text, s).Some? {
        SkipsTheSpaces(text, HeadAt(text, s).value + 1, SkipSpaces(text, HeadAt(text, s).value + 1));
      }
    }
  }

  /** A name as a string literal spells it. */
  function Spelled(name: string): string {
    if name == "" then "" else (if name[0] == '"' then ['\\', '"'] else [name[0]]) + Spelled(name[1..])
  }

  /** A spelled name reads back, unless it has a backslash. */
  lemma {:induction false} NameReadsBack(text: string, i: nat, name: string)
    requires '\\' !in name && i + |Spelled(name)| < |text|
    requires text[i..i + |Spelled(name)|] == Spelled(name) && text[i + |Spelled(name)|] == '"'
    ensures Body(text, i) == Some(i + |Spelled(name)|) && Unescaped(Spelled(name)) == name
    decreases |name|
  {
    var spelled := Spelled(name);
    if name != "" {
      var first, rest := if name[0] == '"' then ['\\', '"'] else [name[0]], Spelled(name[1..]);
      assert spelled == first + rest;
      assert text[i..i + |spelled|][|first|..] == text[i + |first|..i + |spelled|] == spelled[|first|..] == rest;
      assert text[i] == text[i..i + |spelled|][0] == first[0];
      assert name[0] == '"' ==> text[i + 1] == text[i..i + |spelled|][1] == '"';
      NameReadsBack(text, i + |first|, name[1..]);
      assert name == [name[0]] + name[1..];
    }
  }

  /** A call written out is found with its own name, whatever is around it. */
  lemma {:induction false} WrittenCallIsFound(text: string, s: nat, hit: Hit, name: string)
    requires '\\' !in name && IsCallHead(text, s, hit) && hit.stop == hit.name + |Spelled(name)| + 1
    requires text[hit.name..hit.stop - 1] == Spelled(name) && text[hit.stop - 1] == '"'
    ensures match MarkAt(text, s)
      case None => false
      case Some(mark) =>
        && mark.stop == hit.stop && mark.call.Some? == Matching(text, hit.open).Some?
        && (mark.call.Some? ==> mark.call.value == Call(s, name, Matching(text, hit.open).value + 1))
  {
    NameReadsBack(text, hit.name, name);
    HitExactly(text, s, hit);
  }
}
