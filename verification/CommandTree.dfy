/**
 Nested command calls (scripts/docs.js): direct children, the recursive parse with its children
 blanked out, and the flattened list.  In unquoted source the flattened tree is exactly the list of
 calls in source order.
 */
module CommandTree {
  import opened Common
  import opened CliCommands

  // ----- Where calls are ------------------------------------------------------------------------------

  /** A call of a list is the one the marks show at its start. */
  predicate Shown(marks: seq<Option<Mark>>, call: Call) {
    call.start < |marks| && marks[call.start].Some? && marks[call.start].value.call == Some(call)
  }

  lemma {:induction false} CallsAreShown(text: string, from: nat, call: Call)
    requires from <= |text| && call in CallsAfter(text, from)
    ensures from <= call.start < call.end <= |text| && Shown(Marks(text), call)
    decreases |text| - from
  {
    var marks := Marks(text);
    var s := NextMark(marks, from);
    MarksGoForward(text);
    if s < |text| {
      MarksShow(text, |text|, s);
    }
    if call !in AsList(marks[s].value.call) {
      CallsAreShown(text, marks[s].value.stop, call);
    }
  }

  lemma {:induction false} NotFirstIn(calls: seq<Call>, i: nat)
    requires i < |NotFirst(calls)|
    ensures NotFirst(calls)[i] in calls && NotFirst(calls)[i].start != 0
  {
    if calls[0].start == 0 {
      NotFirstIn(calls[1..], i);
    } else if i > 0 {
      NotFirstIn(calls[1..], i - 1);
    }
  }

  lemma {:induction false} CallsFit(text: string)
    ensures Fits(NotFirst(CmdCalls(text)), |text|)
    ensures forall i :: 0 <= i < |NotFirst(CmdCalls(text))| ==> NotFirst(CmdCalls(text))[i].start > 0
  {
    var calls := NotFirst(CmdCalls(text));
    forall i | 0 <= i < |calls| ensures 0 < calls[i].start <= calls[i].end <= |text| {
      NotFirstIn(CmdCalls(text), i);
      CallsAreShown(text, 0, calls[i]);
    }
  }

  // ----- Direct children ----------------------------------------------------------------------------

  /** `calls.filter((call) => call.start !== 0)`. */
  function NotFirst(calls: seq<Call>): seq<Call> {
    if calls == [] then []
    else (if calls[0].start != 0 then [calls[0]] else []) + NotFirst(calls[1..])
  }

  predicate Contains(other: Call, call: Call) {
    other.start < call.start && call.end <= other.end
  }

  predicate IsInside(all: seq<Call>, call: Call) {
    exists other :: other in all && Contains(other, call)
  }

  /** The calls that lie inside no other call of the list. */
  function Direct(all: seq<Call>, calls: seq<Call>): seq<Call> {
    if calls == [] then []
    else (if IsInside(all, calls[0]) then [] else [calls[0]]) + Direct(all, calls[1..])
  }

  function DirectNestedCmdCalls(text: string): seq<Call> {
    Direct(NotFirst(CmdCalls(text)), NotFirst(CmdCalls(text)))
  }

  // ----- Blanking -----------------------------------------------------------------------------------

  function Spaces(n: nat): string {
    seq(n, _ => ' ')
  }

  function Blank(text: string, call: Call): (r: string)
    requires call.start <= call.end <= |text|
    ensures |r| == |text|
  {
    text[..call.start] + Spaces(call.end - call.start) + text[call.end..]
  }

  predicate Fits(calls: seq<Call>, n: nat) {
    forall i :: 0 <= i < |calls| ==> calls[i].start <= calls[i].end <= n
  }

  /** Blanking from the last start to the first. */
  function BlankAll(text: string, calls: seq<Call>): (r: string)
    requires Fits(calls, |text|)
    ensures |r| == |text|
    decreases |calls|
  {
    if calls == [] then text else BlankAll(Blank(text, calls[|calls| - 1]), calls[..|calls| - 1])
  }

  predicate Covers(call: Call, i: int) {
    call.start <= i < call.end
  }

  predicate Covered(calls: seq<Call>, i: int) {
    exists k :: 0 <= k < |calls| && Covers(calls[k], i)
  }

  /** Blanking keeps the length and every character outside the calls, and leaves spaces inside. */
  lemma {:induction false} BlankingKeepsTheRest(text: string, calls: seq<Call>, i: nat)
    requires Fits(calls, |text|) && i < |text|
    ensures BlankAll(text, calls)[i] == if Covered(calls, i) then ' ' else text[i]
    decreases |calls|
  {
    if calls != [] {
      var front, last := calls[..|calls| - 1], calls[|calls| - 1];
      BlankingKeepsTheRest(Blank(text, last), front, i);
      BlankAt(text, last, i);
      if Covered(calls, i) && !Covers(last, i) {
        var k :| 0 <= k < |calls| && Covers(calls[k], i);
        assert Covers(front[k], i);
      }
      if Covered(front, i) {
        var k :| 0 <= k < |front| && Covers(front[k], i);
        assert Covers(calls[k], i);
      }
    }
  }

  lemma {:induction false} BlankAt(text: string, call: Call, i: nat)
    requires call.start <= call.end <= |text| && i < |text|
    ensures Blank(text, call)[i] == if Covers(call, i) then ' ' else text[i]
  {
  }

  /** A command's own text: what is left of its call when every nested call is blanked out. */
  function OwnText(text: string): string {
    CallsFit(text);
    BlankAll(text, NotFirst(CmdCalls(text)))
  }

  /** Anything found in a command's own text that is not a space stands outside its children. */
  lemma {:induction false} OwnTextIsOwn(text: string, part: string, at: nat, i: nat)
    requires OccursAt(OwnText(text), part, at) && i < |part| && part[i] != ' '
    ensures !Covered(NotFirst(CmdCalls(text)), at + i) && at + i < |text| && text[at + i] == part[i]
  {
    CallsFit(text);
    BlankingKeepsTheRest(text, NotFirst(CmdCalls(text)), at + i);
    assert OwnText(text)[at + i] == part[i] by {
      assert OwnText(text)[at..at + |part|][i] == part[i];
    }
  }

  // ----- The parse ------------------------------------------------------------------------------------

  datatype Command = Command(name: string, text: string, own: string, children: seq<Command>)

  predicate Within(calls: seq<Call>, n: nat) {
    forall i :: 0 <= i < |calls| ==> 0 < calls[i].start <= calls[i].end <= n
  }

  lemma {:induction false} DirectIn(all: seq<Call>, calls: seq<Call>, i: nat)
    requires i < |Direct(all, calls)|
    ensures Direct(all, calls)[i] in calls
  {
    if IsInside(all, calls[0]) {
      DirectIn(all, calls[1..], i);
    } else if i > 0 {
      DirectIn(all, calls[1..], i - 1);
    }
  }

  lemma {:induction false} DirectFit(text: string)
    ensures Within(DirectNestedCmdCalls(text), |text|)
  {
    var direct, nested := DirectNestedCmdCalls(text), NotFirst(CmdCalls(text));
    CallsFit(text);
    forall i | 0 <= i < |direct| ensures 0 < direct[i].start <= direct[i].end <= |text| {
      DirectIn(nested, nested, i);
    }
  }

  /** `parseCliCommandCall`: a call's text with its children parsed in turn. */
  function Parse(name: string, text: string): Command
    decreases |text|, 1, 0
  {
    DirectFit(text);
    Command(name, text, OwnText(text), ParseAll(text, DirectNestedCmdCalls(text)))
  }

  function ParseAll(text: string, calls: seq<Call>): (commands: seq<Command>)
    requires Within(calls, |text|)
    ensures |commands| == |calls|
    decreases |text|, 0, |calls|
  {
    if calls == [] then []
    else [Parse(calls[0].name, text[calls[0].start..calls[0].end])] + ParseAll(text, calls[1..])
  }

  datatype Row = Row(fullName: string, name: string, text: string)

  /** `flattenCliCommands`. */
  function Flatten(command: Command, parent: string): seq<Row> {
    var fullName := if parent != "" then parent + " " + command.name else command.name;
    [Row(fullName, command.name, command.text)] + FlattenAll(command.children, fullName)
  }

  function FlattenAll(commands: seq<Command>, parent: string): seq<Row> {
    if commands == [] then [] else Flatten(commands[0], parent) + FlattenAll(commands[1..], parent)
  }

  lemma {:induction false} BlankStep(text: string, calls: seq<Call>, k: nat)
    requires Fits(calls, |text|) && k < |calls|
    ensures Fits(calls[..k], |text|) && Fits(calls[..k + 1], |text|)
    ensures BlankAll(text, calls[..k + 1]) == BlankAll(Blank(text, calls[k]), calls[..k])
  {
    assert calls[..k + 1][..k] == calls[..k];
  }

  /** The loop that blanks nested calls, the last start first. */
  method BlankNested(text: string, nested: seq<Call>) returns (own: string)
    requires Fits(nested, |text|)
    ensures own == BlankAll(text, nested)
  {
    own := text;
    var k := |nested|;
    assert nested[..k] == nested;
    while k > 0
      invariant 0 <= k <= |nested| && |own| == |text| && Fits(nested[..k], |own|)
      invariant BlankAll(own, nested[..k]) == BlankAll(text, nested)
    {
      k := k - 1;
      BlankStep(own, nested, k);
      own := own[..nested[k].start] + Spaces(nested[k].end - nested[k].start) + own[nested[k].end..];
    }
  }

  method ParseCliCommandCall(name: string, text: string) returns (command: Command)
    ensures command == Parse(name, text)
    decreases |text|
  {
    DirectFit(text);
    CallsFit(text);
    var nested := FindCmdCalls(text);
    nested := NotFirst(nested);
    var direct := Direct(nested, nested);
    var children: seq<Command> := [];
    ghost var goal := ParseAll(text, direct);
    for i := 0 to |direct|
      invariant Within(direct[i..], |text|)
      invariant children + ParseAll(text, direct[i..]) == goal
    {
      var child := ParseCliCommandCall(direct[i].name, text[direct[i].start..direct[i].end]);
      ParseStep(text, direct, i);
      Associate(children, [child], ParseAll(text, direct[i + 1..]));
      children := children + [child];
    }
    AddNothing(children);
    var own := BlankNested(text, nested);
    return Command(name, text, own, children);
  }

  lemma {:induction false} ParseStep(text: string, calls: seq<Call>, i: nat)
    requires i < |calls| && Within(calls[i..], |text|)
    ensures Within(calls[i + 1..], |text|) && 0 < calls[i].start <= calls[i].end <= |text|
    ensures ParseAll(text, calls[i..])
      == [Parse(calls[i].name, text[calls[i].start..calls[i].end])] + ParseAll(text, calls[i + 1..])
  {
    assert calls[i..][0] == calls[i] && calls[i..][1..] == calls[i + 1..];
    var rest := calls[i + 1..];
    forall k | 0 <= k < |rest| ensures 0 < rest[k].start <= rest[k].end <= |text| {
      assert rest[k] == calls[i..][k + 1];
    }
  }

  method FlattenCliCommands(command: Command, parent: string) returns (rows: seq<Row>)
    ensures rows == Flatten(command, parent)
    decreases command
  {
    var fullName := if parent != "" then parent + " " + command.name else command.name;
    var children := command.children;
    rows := [Row(fullName, command.name, command.text)];
    ghost var goal := Flatten(command, parent);
    for i := 0 to |children|
      invariant rows + FlattenAll(children[i..], fullName) == goal
    {
      var more := FlattenCliCommands(children[i], fullName);
      assert children[i..][0] == children[i] && children[i..][1..] == children[i + 1..];
      Associate(rows, more, FlattenAll(children[i + 1..], fullName));
      rows := rows + more;
    }
    AddNothing(rows);
  }

  // ----- The outermost calls ----------------------------------------------------------------------------

  predicate Closing(marks: seq<Option<Mark>>) {
    forall i :: 0 <= i < |marks| && marks[i].Some? ==>
      && i < marks[i].value.stop <= |marks|
      && (marks[i].value.call.Some? ==> marks[i].value.call.value.start == i < marks[i].value.call.value.end <= |marks|)
  }

  lemma {:induction false} MarksAreClosing(text: string)
    ensures Closing(Marks(text))
  {
    var marks := Marks(text);
    forall i | 0 <= i < |marks| && marks[i].Some?
      ensures i < marks[i].value.stop <= |marks|
      ensures marks[i].value.call.Some? ==>
        marks[i].value.call.value.start == i < marks[i].value.call.value.end <= |marks|
    {
      MarksShow(text, |text|, i);
    }
  }

  /** The calls met when the search jumps over each call it finds. */
  function Top(marks: seq<Option<Mark>>, from: nat): (calls: seq<Call>)
    requires Closing(marks) && from <= |marks|
    ensures forall i :: 0 <= i < |calls| ==> from <= calls[i].start <= calls[i].end <= |marks|
    decreases |marks| - from
  {
    var s := NextMark(marks, from);
    if s == |marks| then []
    else if marks[s].value.call.None? then Top(marks, marks[s].value.stop)
    else [marks[s].value.call.value] + Top(marks, marks[s].value.call.value.end)
  }

  /** The text of one call whose nested calls are all unquoted. */
  ghost predicate IsCall(text: string) {
    Clean(text, 0) && EndOf(text, 0) == |text|
  }

  lemma {:induction false} InnerMark(text: string, k: nat)
    requires IsCall(text) && 0 < k < |text| && Marks(text)[k].Some?
    ensures Clean(text, k) && EndOf(text, k) < |text|
    ensures var mark := Marks(text)[k].value;
      mark.call.Some? && mark.call.value.start == k && mark.call.value.end == EndOf(text, k)
        && k < mark.stop <= EndOf(text, k)
  {
    MarksShow(text, |text|, k);
    CallsAreLaminar(text, 0, k);
    NameIsInside(text, k);
  }

  lemma {:induction false} CallsFromNext(marks: seq<Option<Mark>>, from: nat)
    requires Forward(marks) && from <= |marks|
    ensures CallsFrom(marks, from) == CallsFrom(marks, NextMark(marks, from))
  {
    NextSkips(marks, from, NextMark(marks, from));
  }

  lemma {:induction false} NoMarkBefore(marks: seq<Option<Mark>>, from: nat, k: nat)
    requires from <= |marks| && from <= k < NextMark(marks, from)
    ensures marks[k].None?
    decreases k - from
  {
    if from < k {
      NoMarkBefore(marks, from + 1, k);
    }
  }

  lemma {:induction false} DirectAppend(all: seq<Call>, a: seq<Call>, b: seq<Call>)
    ensures Direct(all, a + b) == Direct(all, a) + Direct(all, b)
  {
    if a == [] {
      AddNothing(b);
      AddNothing(Direct(all, b));
    } else {
      assert (a + b)[1..] == a[1..] + b;
      DirectAppend(all, a[1..], b);
      Associate(if IsInside(all, a[0]) then [] else [a[0]], Direct(all, a[1..]), Direct(all, b));
    }
  }

  lemma {:induction false} DirectNone(all: seq<Call>, calls: seq<Call>)
    requires forall i :: 0 <= i < |calls| ==> IsInside(all, calls[i])
    ensures Direct(all, calls) == []
  {
    if calls != [] {
      DirectNone(all, calls[1..]);
    }
  }

  lemma {:induction false} MovedAt(calls: seq<Call>, offset: nat, i: nat)
    requires i < |Moved(calls, offset)|
    ensures i < |calls| && Moved(calls, offset)[i] == MovedCall(calls[i], offset)
  {
    if i > 0 {
      MovedAt(calls[1..], offset, i - 1);
    }
  }

  lemma {:induction false} MovedCallsFit(window: string, from: nat, offset: nat, i: nat)
    requires from <= |window| && i < |Moved(CallsAfter(window, from), offset)|
    ensures var call := Moved(CallsAfter(window, from), offset)[i];
      offset + from <= call.start && call.end <= offset + |window|
  {
    MovedAt(CallsAfter(window, from), offset, i);
    CallsAreShown(window, from, CallsAfter(window, from)[i]);
  }

  /** No call of the list starts before a position and ends after it. */
  predicate CutsNone(all: seq<Call>, at: nat) {
    forall i :: 0 <= i < |all| && all[i].start < at ==> all[i].end <= at
  }

  ghost predicate AllShown(text: string, all: seq<Call>) {
    forall i :: 0 <= i < |all| ==> Shown(Marks(text), all[i])
  }

  /** The next outermost call lies inside no other. */
  lemma {:induction false} NextIsDirect(text: string, all: seq<Call>, from: nat, call: Call)
    requires from <= |text| && AllShown(text, all) && CutsNone(all, from)
    requires call.start == NextMark(Marks(text), from) && call.start < call.end
    ensures !IsInside(all, call)
  {
    forall i | 0 <= i < |all| ensures !Contains(all[i], call) {
      if from <= all[i].start < call.start {
        NoMarkBefore(Marks(text), from, all[i].start);
      }
    }
  }

  /** Past an outermost call, again no call is cut. */
  lemma {:induction false} NextCutsNone(text: string, all: seq<Call>, from: nat, s: nat)
    requires from <= |text| && AllShown(text, all) && CutsNone(all, from)
    requires s == NextMark(Marks(text), from) < |text| && Clean(text, s)
    ensures CutsNone(all, EndOf(text, s))
  {
    forall i | 0 <= i < |all| && all[i].start < EndOf(text, s) ensures all[i].end <= EndOf(text, s) {
      if from <= all[i].start {
        if all[i].start < s {
          NoMarkBefore(Marks(text), from, all[i].start);
        } else {
          ShownEnd(text, s, all[i]);
        }
      }
    }
  }

  lemma {:induction false} ShownEnd(text: string, s: nat, call: Call)
    requires Clean(text, s) && s <= call.start < EndOf(text, s) && Shown(Marks(text), call)
    ensures call.end <= EndOf(text, s)
  {
    MarksShow(text, |text|, call.start);
    if s < call.start {
      CallsAreLaminar(text, s, call.start);
    }
  }

  // ----- Direct children are the outermost calls -----------------------------------------------------------

  /** `all` lists these calls. */
  ghost predicate Lists(all: seq<Call>, calls: seq<Call>) {
    forall i :: 0 <= i < |calls| ==> calls[i] in all
  }

  lemma {:induction false} ShownInside(all: seq<Call>, outer: Call, inner: Call)
    requires outer in all && Contains(outer, inner)
    ensures IsInside(all, inner)
  {
  }

  /** Of a call and those inside it, only the call itself is direct. */
  lemma {:induction false} OneOfGroup(text: string, all: seq<Call>, s: nat, call: Call, group: seq<Call>)
    requires call in all && !IsInside(all, call)
    requires forall i :: 0 <= i < |group| ==> call.start < group[i].start && group[i].end <= call.end
    ensures Direct(all, [call] + group) == [call]
  {
    forall i | 0 <= i < |group| ensures IsInside(all, group[i]) {
      ShownInside(all, call, group[i]);
    }
    DirectNone(all, group);
    assert ([call] + group)[1..] == group;
  }

  ghost predicate IsGroup(text: string, call: Call, group: seq<Call>) {
    && call.start < call.end <= |text|
    && CallsAfter(text, call.start) == [call] + group + CallsAfter(text, call.end)
    && LieInside(call, group)
  }

  predicate LieInside(call: Call, group: seq<Call>) {
    forall i :: 0 <= i < |group| ==> call.start < group[i].start && group[i].end <= call.end
  }

  lemma {:induction false} MovedLieInside(window: string, from: nat, call: Call)
    requires 0 < from <= |window| && call.end == call.start + |window|
    ensures LieInside(call, Moved(CallsAfter(window, from), call.start))
  {
    var group := Moved(CallsAfter(window, from), call.start);
    forall i | 0 <= i < |group| ensures call.start < group[i].start && group[i].end <= call.end {
      MovedCallsFit(window, from, call.start, i);
    }
  }

  lemma {:induction false} MovedIsGroup(text: string, stop: nat, call: Call)
    requires call.start < stop <= call.end <= |text|
    requires CallsAfter(text, call.start) == [call] + CallsAfter(text, stop)
    requires CallsAfter(text, stop)
      == Moved(CallsAfter(text[call.start..call.end], stop - call.start), call.start) + CallsAfter(text, call.end)
    ensures IsGroup(text, call, Moved(CallsAfter(text[call.start..call.end], stop - call.start), call.start))
  {
    var window := text[call.start..call.end];
    Associate([call], Moved(CallsAfter(window, stop - call.start), call.start), CallsAfter(text, call.end));
    MovedLieInside(window, stop - call.start, call);
  }

  /** The group of calls an outermost call starts. */
  lemma {:induction false} GroupAt(text: string, s: nat) returns (call: Call, group: seq<Call>)
    requires IsCall(text) && 0 < s < |text| && Marks(text)[s].Some?
    ensures Clean(text, s) && EndOf(text, s) < |text| && call.start == s && call.end == EndOf(text, s)
    ensures Marks(text)[s].value.call == Some(call)
    ensures IsGroup(text, call, group)
  {
    InnerMark(text, s);
    var stop := Marks(text)[s].value.stop;
    MarksShow(text, |text|, s);
    GroupOfCall(text, s, stop);
    call := Marks(text)[s].value.call.value;
    CallsAfterStep(text, s);
    MovedIsGroup(text, stop, call);
    group := Moved(CallsAfter(text[s..EndOf(text, s)], stop - s), s);
  }

  /** From any place where no call is cut, the direct calls are the outermost ones. */
  lemma {:induction false} DirectIsTop(text: string, all: seq<Call>, from: nat)
    requires IsCall(text) && 0 < from <= |text| && AllShown(text, all) && CutsNone(all, from)
      && Lists(all, CallsAfter(text, from))
    ensures Closing(Marks(text)) && Direct(all, CallsAfter(text, from)) == Top(Marks(text), from)
    decreases |text| - from
  {
    MarksAreClosing(text);
    MarksGoForward(text);
    CallsFromNext(Marks(text), from);
    var s := NextMark(Marks(text), from);
    if s < |text| {
      var call, group := GroupAt(text, s);
      var rest := CallsAfter(text, call.end);
      assert ([call] + group + rest)[0] == call;
      NextIsDirect(text, all, from, call);
      NextCutsNone(text, all, from, s);
      OneOfGroup(text, all, s, call, group);
      DirectAppend(all, [call] + group, rest);
      RestListed(all, [call] + group, rest);
      DirectIsTop(text, all, call.end);
    }
  }

  lemma {:induction false} RestListed(all: seq<Call>, front: seq<Call>, rest: seq<Call>)
    requires Lists(all, front + rest)
    ensures Lists(all, rest)
  {
    forall i | 0 <= i < |rest| ensures rest[i] in all {
      assert (front + rest)[|front| + i] == rest[i];
    }
  }

  lemma {:induction false} NotFirstKeeps(calls: seq<Call>)
    requires forall i :: 0 <= i < |calls| ==> calls[i].start != 0
    ensures NotFirst(calls) == calls
  {
    if calls != [] {
      NotFirstKeeps(calls[1..]);
    }
  }

  /** The calls of a call's text: itself, then those after its name. */
  lemma {:induction false} CallsOfCall(text: string) returns (call: Call, stop: nat)
    requires IsCall(text)
    ensures 0 < stop <= |text| && call.start == 0 && call.end == |text|
    ensures MarkAt(text, 0) == Some(Mark(stop, Some(call)))
    ensures CmdCalls(text) == [call] + CallsAfter(text, stop)
    ensures NotFirst(CmdCalls(text)) == CallsAfter(text, stop)
  {
    call, stop := MarkAt(text, 0).value.call.value, MarkAt(text, 0).value.stop;
    CallsAfterStep(text, 0);
    var rest := CallsAfter(text, stop);
    forall i | 0 <= i < |rest| ensures rest[i].start != 0 {
      CallsAreShown(text, stop, rest[i]);
    }
    NotFirstKeeps(rest);
    assert ([call] + rest)[1..] == rest;
  }

  /** The direct nested calls are those met by jumping over each call found. */
  lemma {:induction false} DirectNestedIsTop(text: string) returns (stop: nat)
    requires IsCall(text)
    ensures 0 < stop <= |text| && Closing(Marks(text))
    ensures NotFirst(CmdCalls(text)) == CallsAfter(text, stop)
    ensures DirectNestedCmdCalls(text) == Top(Marks(text), stop)
  {
    var call: Call;
    call, stop := CallsOfCall(text);
    var all := CallsAfter(text, stop);
    forall i | 0 <= i < |all| ensures Shown(Marks(text), all[i]) && stop <= all[i].start {
      CallsAreShown(text, stop, all[i]);
    }
    DirectIsTop(text, all, stop);
  }

  // ----- Flattening lists every call once, in source order -----------------------------------------------------

  /** A call is around itself and around the calls inside it. */
  predicate Encloses(outer: Call, inner: Call) {
    outer.start <= inner.start && inner.end <= outer.end
  }

  function NameAround(parent: string, outer: Call, call: Call): string {
    if !Encloses(outer, call) then parent else if parent == "" then outer.name else parent + " " + outer.name
  }

  /** The names of the listed calls around a call, outermost first, after a parent's. */
  function PathName(parent: string, calls: seq<Call>, call: Call): string
    decreases |calls|
  {
    if calls == [] then parent else PathName(NameAround(parent, calls[0], call), calls[1..], call)
  }

  /** One row a call: the names of the calls around it, its own name and its text. */
  function Listing(text: string, parent: string, calls: seq<Call>): (rows: seq<Row>)
    requires Fits(calls, |text|)
    ensures |rows| == |calls|
  {
    seq(|calls|, i requires 0 <= i < |calls| =>
      Row(PathName(parent, calls, calls[i]), calls[i].name, text[calls[i].start..calls[i].end]))
  }

  lemma {:induction false} PathOfBoth(parent: string, a: seq<Call>, b: seq<Call>, call: Call)
    ensures PathName(parent, a + b, call) == PathName(PathName(parent, a, call), b, call)
    decreases |a|
  {
    if a == [] {
      AddNothing(b);
    } else {
      assert (a + b)[1..] == a[1..] + b;
      PathOfBoth(NameAround(parent, a[0], call), a[1..], b, call);
    }
  }

  lemma {:induction false} NoneAround(parent: string, calls: seq<Call>, call: Call)
    requires forall i :: 0 <= i < |calls| ==> !Encloses(calls[i], call)
    ensures PathName(parent, calls, call) == parent
    decreases |calls|
  {
    if calls != [] {
      NoneAround(parent, calls[1..], call);
    }
  }

  predicate Before(calls: seq<Call>, at: nat) {
    forall i :: 0 <= i < |calls| ==> calls[i].start < calls[i].end <= at
  }

  predicate After(calls: seq<Call>, at: nat) {
    forall i :: 0 <= i < |calls| ==> at <= calls[i].start < calls[i].end
  }

  /** Calls on two sides of a position are not around each other. */
  lemma {:induction false} ListingOfBoth(text: string, parent: string, a: seq<Call>, b: seq<Call>, at: nat)
    requires Fits(a + b, |text|) && Before(a, at) && After(b, at)
    ensures Fits(a, |text|) && Fits(b, |text|)
    ensures Listing(text, parent, a + b) == Listing(text, parent, a) + Listing(text, parent, b)
  {
    FitsParts(a, b, |text|);
    var calls := a + b;
    forall i | 0 <= i < |calls|
      ensures Listing(text, parent, calls)[i] == (Listing(text, parent, a) + Listing(text, parent, b))[i]
    {
      PathOfBoth(parent, a, b, calls[i]);
      if i < |a| {
        NoneAround(PathName(parent, a, a[i]), b, a[i]);
      } else {
        NoneAround(parent, a, b[i - |a|]);
      }
    }
  }

  lemma {:induction false} PathMoved(parent: string, calls: seq<Call>, offset: nat, call: Call)
    ensures PathName(parent, Moved(calls, offset), MovedCall(call, offset)) == PathName(parent, calls, call)
    decreases |calls|
  {
    if calls != [] {
      assert Moved(calls, offset)[1..] == Moved(calls[1..], offset);
      PathMoved(NameAround(parent, calls[0], call), calls[1..], offset, call);
    }
  }

  /** Calls of a window and the same calls moved into the text make the same rows. */
  lemma {:induction false} ListingMoved(text: string, parent: string, lo: nat, hi: nat, calls: seq<Call>)
    requires lo <= hi <= |text| && Fits(calls, hi - lo)
    ensures Fits(Moved(calls, lo), |text|)
    ensures Listing(text, parent, Moved(calls, lo)) == Listing(text[lo..hi], parent, calls)
  {
    var moved := Moved(calls, lo);
    MovedLength(calls, lo);
    forall i | 0 <= i < |moved| ensures moved[i].start <= moved[i].end <= |text| {
      MovedAt(calls, lo, i);
    }
    forall i | 0 <= i < |calls| ensures Listing(text, parent, moved)[i] == Listing(text[lo..hi], parent, calls)[i] {
      MovedAt(calls, lo, i);
      PathMoved(parent, calls, lo, calls[i]);
      SliceOfSlice(text, lo, hi, moved[i].start, moved[i].end);
    }
  }

  lemma {:induction false} MovedLength(calls: seq<Call>, offset: nat)
    ensures |Moved(calls, offset)| == |calls|
  {
    if calls != [] {
      MovedLength(calls[1..], offset);
    }
  }

  /** A call of the whole text is around all the others. */
  lemma {:induction false} ListingUnder(text: string, parent: string, call: Call, rest: seq<Call>)
    requires call.start == 0 && call.end == |text| && After(rest, 1)
    requires Fits([call] + rest, |text|) && Fits(rest, |text|)
    ensures var fullName := if parent != "" then parent + " " + call.name else call.name;
      Listing(text, parent, [call] + rest) == [Row(fullName, call.name, text)] + Listing(text, fullName, rest)
  {
    var fullName := if parent != "" then parent + " " + call.name else call.name;
    var calls := [call] + rest;
    assert calls[1..] == rest && text[0..|text|] == text;
    NoneAround(fullName, rest, call);
    forall i | 0 <= i < |calls|
      ensures Listing(text, parent, calls)[i] == ([Row(fullName, call.name, text)] + Listing(text, fullName, rest))[i]
    {
      assert i > 0 ==> calls[i] == rest[i - 1];
    }
  }

  lemma {:induction false} FitsParts(a: seq<Call>, b: seq<Call>, n: nat)
    requires Fits(a + b, n)
    ensures Fits(a, n) && Fits(b, n)
  {
    forall i | 0 <= i < |a| ensures a[i].start <= a[i].end <= n {
      assert (a + b)[i] == a[i];
    }
    forall i | 0 <= i < |b| ensures b[i].start <= b[i].end <= n {
      assert (a + b)[|a| + i] == b[i];
    }
  }

  lemma {:induction false} CallsAfterFit(text: string, from: nat)
    requires from <= |text|
    ensures Fits(CallsAfter(text, from), |text|)
  {
    var calls := CallsAfter(text, from);
    forall i | 0 <= i < |calls| ensures calls[i].start <= calls[i].end <= |text| {
      CallsAreShown(text, from, calls[i]);
    }
  }

  lemma {:induction false} ParseFirst(text: string, call: Call, rest: seq<Call>, parent: string)
    requires Within([call] + rest, |text|)
    ensures Within(rest, |text|) && 0 < call.start <= call.end <= |text|
    ensures FlattenAll(ParseAll(text, [call] + rest), parent)
      == Flatten(Parse(call.name, text[call.start..call.end]), parent) + FlattenAll(ParseAll(text, rest), parent)
  {
    assert ([call] + rest)[0] == call && ([call] + rest)[1..] == rest;
    forall i | 0 <= i < |rest| ensures 0 < rest[i].start <= rest[i].end <= |text| {
      assert ([call] + rest)[i + 1] == rest[i];
    }
    var first, others := Parse(call.name, text[call.start..call.end]), ParseAll(text, rest);
    assert ([first] + others)[1..] == others;
  }

  lemma {:induction false} FlattenStep(text: string, call: Call, top: seq<Call>, parent: string)
    requires 0 < call.start <= call.end <= |text| && Within([call] + top, |text|) && Within(top, |text|)
    requires Fits(CallsAfter(text, call.start), |text|) && Fits(CallsAfter(text, call.end), |text|)
    requires FlattenAll(ParseAll(text, top), parent) == Listing(text, parent, CallsAfter(text, call.end))
    requires Flatten(Parse(call.name, text[call.start..call.end]), parent)
      + Listing(text, parent, CallsAfter(text, call.end))
      == Listing(text, parent, CallsAfter(text, call.start))
    ensures FlattenAll(ParseAll(text, [call] + top), parent) == Listing(text, parent, CallsAfter(text, call.start))
  {
    ParseFirst(text, call, top, parent);
  }

  lemma {:induction false} NothingAfter(text: string, from: nat)
    requires from <= |text| && NextMark(Marks(text), from) == |text|
    ensures Closing(Marks(text)) && Top(Marks(text), from) == [] && CallsAfter(text, from) == []
  {
    MarksAreClosing(text);
    MarksGoForward(text);
  }

  lemma {:induction false} NextAfter(text: string, from: nat, call: Call)
    requires from <= |text| && NextMark(Marks(text), from) == call.start < |text|
    requires Marks(text)[call.start].value.call == Some(call) && call.end <= |text|
    ensures Closing(Marks(text)) && CallsAfter(text, from) == CallsAfter(text, call.start)
    ensures Top(Marks(text), from) == [call] + Top(Marks(text), call.end)
  {
    MarksAreClosing(text);
    MarksGoForward(text);
    CallsFromNext(Marks(text), from);
  }

  /** The rows of the outermost calls from a position on are all the calls from there on. */
  lemma {:induction false} FlattenFrom(text: string, from: nat, parent: string)
    requires IsCall(text) && 0 < from <= |text|
    ensures Closing(Marks(text)) && Within(Top(Marks(text), from), |text|) && Fits(CallsAfter(text, from), |text|)
    ensures FlattenAll(ParseAll(text, Top(Marks(text), from)), parent) == Listing(text, parent, CallsAfter(text, from))
    decreases |text|, 0, |text| - from, 1
  {
    MarksAreClosing(text);
    CallsAfterFit(text, from);
    var s := NextMark(Marks(text), from);
    if s == |text| {
      NothingAfter(text, from);
    } else {
      var call := FlattenAt(text, s, parent);
      NextAfter(text, from, call);
      FlattenStep(text, call, Top(Marks(text), call.end), parent);
    }
  }

  lemma {:induction false} FlattenAt(text: string, s: nat, parent: string) returns (call: Call)
    requires IsCall(text) && 0 < s < |text| && Marks(text)[s].Some?
    ensures Marks(text)[s].value.call == Some(call) && call.start == s < call.end <= |text|
    ensures Closing(Marks(text)) && Within(Top(Marks(text), call.end), |text|)
    ensures Fits(CallsAfter(text, s), |text|) && Fits(CallsAfter(text, call.end), |text|)
    ensures FlattenAll(ParseAll(text, Top(Marks(text), call.end)), parent)
      == Listing(text, parent, CallsAfter(text, call.end))
    ensures Flatten(Parse(call.name, text[s..call.end]), parent) + Listing(text, parent, CallsAfter(text, call.end))
      == Listing(text, parent, CallsAfter(text, s))
    decreases |text|, 0, |text| - s, 0
  {
    var group;
    call, group := GroupAt(text, s);
    CallText(text, s);
    MarksShow(text, |text|, s);
    FlattenFrom(text, call.end, parent);
    FlattenGroup(text, call, parent);
  }

  lemma {:induction false} SidesOf(text: string, call: Call)
    requires call.start <= call.end <= |text|
    ensures Before(Moved(CmdCalls(text[call.start..call.end]), call.start), call.end)
    ensures After(CallsAfter(text, call.end), call.end)
  {
    var window := text[call.start..call.end];
    var inside, rest := Moved(CmdCalls(window), call.start), CallsAfter(text, call.end);
    forall i | 0 <= i < |inside| ensures inside[i].start < inside[i].end <= call.end {
      MovedAt(CmdCalls(window), call.start, i);
      CallsAreShown(window, 0, CmdCalls(window)[i]);
    }
    forall i | 0 <= i < |rest| ensures call.end <= rest[i].start < rest[i].end {
      CallsAreShown(text, call.end, rest[i]);
    }
  }

  /** One outermost call and everything inside it. */
  lemma {:induction false} FlattenGroup(text: string, call: Call, parent: string)
    requires Clean(text, call.start) && call.end == EndOf(text, call.start) && 0 < call.start
    requires IsCall(text[call.start..call.end]) && MarkAt(text, call.start).value.call == Some(call)
    ensures Fits(CallsAfter(text, call.start), |text|) && Fits(CallsAfter(text, call.end), |text|)
    ensures Flatten(Parse(call.name, text[call.start..call.end]), parent)
      + Listing(text, parent, CallsAfter(text, call.end))
      == Listing(text, parent, CallsAfter(text, call.start))
    decreases call.end - call.start, 2
  {
    var s, window := call.start, text[call.start..call.end];
    CallsAfterFit(text, s);
    CallsAfterFit(text, call.end);
    CallsAfterFit(window, 0);
    GroupOfCall(text, s, s);
    ListingMoved(text, parent, s, call.end, CmdCalls(window));
    SidesOf(text, call);
    ListingOfBoth(text, parent, Moved(CmdCalls(window), s), CallsAfter(text, call.end), call.end);
    CallAgrees(text, s, s);
    FlattenListsEveryCall(call.name, window, parent);
  }

  /**
   In unquoted source the flattened tree of a call is the list of the calls in its text: every nested
   call once, in source order, each under the names of the calls around it.
   */
  lemma {:induction false} FlattenListsEveryCall(name: string, text: string, parent: string)
    requires IsCall(text) && MarkAt(text, 0).value.call.value.name == name
    ensures Fits(CmdCalls(text), |text|)
    ensures Flatten(Parse(name, text), parent) == Listing(text, parent, CmdCalls(text))
    decreases |text|, 1
  {
    CallsAfterFit(text, 0);
    var call, stop := CallsOfCall(text);
    var stop' := DirectNestedIsTop(text);
    var fullName := if parent != "" then parent + " " + name else name;
    FlattenFrom(text, stop', fullName);
    CallsAfterFit(text, stop);
    forall i | 0 <= i < |CallsAfter(text, stop)|
      ensures 1 <= CallsAfter(text, stop)[i].start < CallsAfter(text, stop)[i].end
    {
      CallsAreShown(text, stop, CallsAfter(text, stop)[i]);
    }
    ListingUnder(text, parent, call, CallsAfter(text, stop));
  }
}
