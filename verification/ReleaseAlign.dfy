/**
 Release alignment (scripts/release-align.js): one change plan over the workspace and fixture manifests, the
 project version of the Python runner and the image tags, its application, and the check of both.
 */
module ReleaseAlign {
  import opened Common
  import ImageTags
  import ProjectSettles
  import ProjectVersion
  import ReleaseText

  /** The release boundary of scripts/lib/release-boundary.js, with the license text. */
  datatype Boundary = Boundary(included: set<string>, excluded: set<string>, licenseOnly: set<string>, text: string) {
    predicate Valid() { included !! excluded && licenseOnly <= excluded }
  }

  predicate StartsWith(s: string, prefix: string) {
    prefix <= s
  }

  predicate IsScramjet(name: string) {
    StartsWith(name, "@scramjet/")
  }

  /** `getRangePrefix`: the leading `^` or `~` of a range. */
  function RangePrefix(range: string): string {
    if range != "" && (range[0] == '^' || range[0] == '~') then range[..1] else ""
  }

  /** `range.replace(/^[\^~]/, "")`. */
  function WithoutPrefix(range: string): string {
    if range != "" && (range[0] == '^' || range[0] == '~') then range[1..] else range
  }

  /** A version that is no range: it starts with a digit. */
  predicate IsVersion(version: string) {
    version != "" && '0' <= version[0] <= '9'
  }

  // ----- Manifests --------------------------------------------------------------------------------

  datatype Dep = Dep(name: string, range: string)

  /** The dependency sections in their fixed order; a missing section is None. */
  const SECTIONS: nat := 4

  /** A manifest, with its license field, if that is a text, and the license file beside it. */
  datatype Manifest = Manifest(
    name: string, version: string, sections: seq<Option<seq<Dep>>>, license: Option<string>, file: Option<string>)

  predicate DistinctNames(deps: seq<Dep>) {
    forall i, j :: 0 <= i < j < |deps| ==> deps[i].name != deps[j].name
  }

  predicate WellFormed(m: Manifest) {
    |m.sections| == SECTIONS && UniqueNames(m.sections)
  }

  /** The dependencies that alignment may rewrite. */
  predicate Alignable(b: Boundary, name: string) {
    IsScramjet(name) && name !in b.excluded && name in b.included
  }

  function ExpectedRange(b: Boundary, version: string, dep: Dep): string {
    if Alignable(b, dep.name) then RangePrefix(dep.range) + version else dep.range
  }

  datatype DepChange = DepChange(section: nat, name: string, to: string)

  /** The changes one section needs. */
  function SectionChanges(b: Boundary, version: string, section: nat, deps: seq<Dep>): seq<DepChange> {
    if deps == [] then []
    else
      var front, last := SectionChanges(b, version, section, deps[..|deps| - 1]), deps[|deps| - 1];
      if last.range == ExpectedRange(b, version, last) then front
      else front + [DepChange(section, last.name, ExpectedRange(b, version, last))]
  }

  function DepsOf(section: Option<seq<Dep>>): seq<Dep> {
    if section.Some? then section.value else []
  }

  /** The changes of a manifest, section by section. */
  function Changes(b: Boundary, version: string, sections: seq<Option<seq<Dep>>>): (changes: seq<seq<DepChange>>)
    ensures |changes| == |sections|
  {
    seq(|sections|, i requires 0 <= i < |sections| => SectionChanges(b, version, i, DepsOf(sections[i])))
  }

  predicate Nothing(changes: seq<seq<DepChange>>) {
    forall i :: 0 <= i < |changes| ==> changes[i] == []
  }

  /** `manifest[section][name] = to`, when the section has that name. */
  function SetDep(deps: seq<Dep>, name: string, to: string): (r: seq<Dep>)
    ensures |r| == |deps|
  {
    if deps == [] then []
    else
      var last := deps[|deps| - 1];
      SetDep(deps[..|deps| - 1], name, to) + [if last.name == name then Dep(name, to) else last]
  }

  function ApplyChange(sections: seq<Option<seq<Dep>>>, change: DepChange): (r: seq<Option<seq<Dep>>>)
    ensures |r| == |sections|
  {
    if change.section < |sections| && sections[change.section].Some?
    then sections[change.section := Some(SetDep(sections[change.section].value, change.name, change.to))]
    else sections
  }

  function ApplyAll(sections: seq<Option<seq<Dep>>>, changes: seq<DepChange>): (r: seq<Option<seq<Dep>>>)
    ensures |r| == |sections|
  {
    if changes == [] then sections
    else ApplyChange(ApplyAll(sections, changes[..|changes| - 1]), changes[|changes| - 1])
  }

  /** Applying the changes of the first n sections. */
  function ApplyTo(sections: seq<Option<seq<Dep>>>, changes: seq<seq<DepChange>>, n: nat): (r: seq<Option<seq<Dep>>>)
    requires n <= |changes|
    ensures |r| == |sections|
  {
    if n == 0 then sections else ApplyAll(ApplyTo(sections, changes, n - 1), changes[n - 1])
  }

  // ----- What alignment is -------------------------------------------------------------------------

  function AlignDeps(b: Boundary, version: string, deps: seq<Dep>): (r: seq<Dep>)
    ensures |r| == |deps|
  {
    if deps == [] then []
    else
      var last := deps[|deps| - 1];
      AlignDeps(b, version, deps[..|deps| - 1]) + [Dep(last.name, ExpectedRange(b, version, last))]
  }

  lemma {:induction false} AlignDepsAt(b: Boundary, version: string, deps: seq<Dep>, i: nat)
    requires i < |deps|
    ensures AlignDeps(b, version, deps)[i] == Dep(deps[i].name, ExpectedRange(b, version, deps[i]))
  {
    if i < |deps| - 1 {
      AlignDepsAt(b, version, deps[..|deps| - 1], i);
    }
  }

  function AlignSection(b: Boundary, version: string, section: Option<seq<Dep>>): Option<seq<Dep>> {
    if section.Some? then Some(AlignDeps(b, version, section.value)) else None
  }

  /** The sections with the first n of them aligned. */
  function AlignTo(b: Boundary, version: string, sections: seq<Option<seq<Dep>>>, n: nat): (r: seq<Option<seq<Dep>>>)
    requires n <= |sections|
    ensures |r| == |sections|
  {
    if n == 0 then sections
    else AlignTo(b, version, sections, n - 1)[n - 1 := AlignSection(b, version, sections[n - 1])]
  }

  lemma {:induction false} AlignToAt(b: Boundary, version: string, sections: seq<Option<seq<Dep>>>, n: nat, i: nat)
    requires n <= |sections| && i < |sections|
    ensures AlignTo(b, version, sections, n)[i] == if i < n then AlignSection(b, version, sections[i]) else sections[i]
  {
    if n > 0 {
      AlignToAt(b, version, sections, n - 1, i);
    }
  }

  lemma {:induction false} SetDepAt(deps: seq<Dep>, name: string, to: string, i: nat)
    requires i < |deps|
    ensures SetDep(deps, name, to)[i] == if deps[i].name == name then Dep(name, to) else deps[i]
  {
    if i < |deps| - 1 {
      SetDepAt(deps[..|deps| - 1], name, to, i);
    }
  }

  /** The first n dependencies aligned, the others as they are. */
  function Partly(b: Boundary, version: string, deps: seq<Dep>, n: nat): seq<Dep>
    requires n <= |deps|
  {
    AlignDeps(b, version, deps[..n]) + deps[n..]
  }

  lemma {:induction false} PartlyAt(b: Boundary, version: string, deps: seq<Dep>, n: nat, i: nat)
    requires n <= |deps| && i < |deps|
    ensures |Partly(b, version, deps, n)| == |deps|
    ensures Partly(b, version, deps, n)[i]
      == if i < n then Dep(deps[i].name, ExpectedRange(b, version, deps[i])) else deps[i]
  {
    if i < n {
      AlignDepsAt(b, version, deps[..n], i);
    }
  }

  /** Names are distinct, so setting one dependency aligns that one only. */
  lemma {:induction false} SetAlignsNext(b: Boundary, version: string, deps: seq<Dep>, n: nat)
    requires DistinctNames(deps) && n < |deps|
    ensures var dep := deps[n];
      SetDep(Partly(b, version, deps, n), dep.name, ExpectedRange(b, version, dep)) == Partly(b, version, deps, n + 1)
  {
    var dep := deps[n];
    var before, after := Partly(b, version, deps, n), Partly(b, version, deps, n + 1);
    PartlyAt(b, version, deps, n, n);
    PartlyAt(b, version, deps, n + 1, n);
    forall i | 0 <= i < |deps| ensures SetDep(before, dep.name, ExpectedRange(b, version, dep))[i] == after[i] {
      SetDepAt(before, dep.name, ExpectedRange(b, version, dep), i);
      PartlyAt(b, version, deps, n, i);
      PartlyAt(b, version, deps, n + 1, i);
    }
  }

  lemma {:induction false} AlignedAlready(b: Boundary, version: string, deps: seq<Dep>, n: nat)
    requires n < |deps| && deps[n].range == ExpectedRange(b, version, deps[n])
    ensures Partly(b, version, deps, n) == Partly(b, version, deps, n + 1)
  {
    PartlyAt(b, version, deps, n, n);
    PartlyAt(b, version, deps, n + 1, n);
    forall i | 0 <= i < |deps| ensures Partly(b, version, deps, n)[i] == Partly(b, version, deps, n + 1)[i] {
      PartlyAt(b, version, deps, n, i);
      PartlyAt(b, version, deps, n + 1, i);
    }
  }

  lemma {:induction false} SectionChangesStep(b: Boundary, version: string, section: nat, deps: seq<Dep>, n: nat)
    requires n < |deps|
    ensures var dep := deps[n];
      SectionChanges(b, version, section, deps[..n + 1])
      == if dep.range == ExpectedRange(b, version, dep) then SectionChanges(b, version, section, deps[..n])
         else
           SectionChanges(b, version, section, deps[..n]) +
           [DepChange(section, dep.name, ExpectedRange(b, version, dep))]
  {
    assert deps[..n + 1][..n] == deps[..n];
  }

  lemma {:induction false} ApplyOneMore(sections: seq<Option<seq<Dep>>>, changes: seq<DepChange>, change: DepChange)
    ensures ApplyAll(sections, changes + [change]) == ApplyChange(ApplyAll(sections, changes), change)
  {
    SnocFront(changes, change);
  }

  lemma {:induction false} ApplyInSection(
      sections: seq<Option<seq<Dep>>>, section: nat, deps: seq<Dep>, change: DepChange)
    requires section < |sections| && change.section == section
    ensures ApplyChange(sections[section := Some(deps)], change)
      == sections[section := Some(SetDep(deps, change.name, change.to))]
  {
  }

  lemma {:induction false} NothingApplied(
      b: Boundary, version: string, sections: seq<Option<seq<Dep>>>, section: nat, deps: seq<Dep>)
    requires section < |sections| && sections[section] == Some(deps)
    ensures sections[section := Some(Partly(b, version, deps, 0))] == sections
    ensures SectionChanges(b, version, section, deps[..0]) == []
  {
    assert Partly(b, version, deps, 0) == deps;
  }

  /** The changes of a section, applied one after another, align it. */
  lemma {:induction false} SectionChangesAlign(
      b: Boundary, version: string, sections: seq<Option<seq<Dep>>>, section: nat, deps: seq<Dep>, n: nat)
    requires section < |sections| && sections[section] == Some(deps) && DistinctNames(deps) && n <= |deps|
    ensures ApplyAll(sections, SectionChanges(b, version, section, deps[..n]))
      == sections[section := Some(Partly(b, version, deps, n))]
  {
    if n == 0 {
      NothingApplied(b, version, sections, section, deps);
    } else {
      SectionChangesAlign(b, version, sections, section, deps, n - 1);
      SectionChangesNext(b, version, sections, section, deps, n - 1);
    }
  }

  lemma {:induction false} SectionChangesNext(
      b: Boundary, version: string, sections: seq<Option<seq<Dep>>>, section: nat, deps: seq<Dep>, n: nat)
    requires section < |sections| && DistinctNames(deps) && n < |deps|
    requires ApplyAll(sections, SectionChanges(b, version, section, deps[..n]))
      == sections[section := Some(Partly(b, version, deps, n))]
    ensures ApplyAll(sections, SectionChanges(b, version, section, deps[..n + 1]))
      == sections[section := Some(Partly(b, version, deps, n + 1))]
  {
    var dep, changes := deps[n], SectionChanges(b, version, section, deps[..n]);
    SectionChangesStep(b, version, section, deps, n);
    if dep.range == ExpectedRange(b, version, dep) {
      AlignedAlready(b, version, deps, n);
    } else {
      var change := DepChange(section, dep.name, ExpectedRange(b, version, dep));
      SetAlignsNext(b, version, deps, n);
      ApplyOneMore(sections, changes, change);
      ApplyInSection(sections, section, Partly(b, version, deps, n), change);
    }
  }

  lemma {:induction false} NextSectionAligns(b: Boundary, version: string, sections: seq<Option<seq<Dep>>>, n: nat)
    requires n < |sections| && UniqueAt(sections, n)
    ensures ApplyAll(AlignTo(b, version, sections, n), SectionChanges(b, version, n, DepsOf(sections[n])))
      == AlignTo(b, version, sections, n + 1)
  {
    var before := AlignTo(b, version, sections, n);
    AlignToAt(b, version, sections, n, n);
    if sections[n].Some? {
      var deps := sections[n].value;
      SectionChangesAlign(b, version, before, n, deps, |deps|);
      assert deps[..|deps|] == deps && Partly(b, version, deps, |deps|) == AlignDeps(b, version, deps);
    } else {
      assert before[n := None] == before;
    }
  }

  predicate UniqueAt(sections: seq<Option<seq<Dep>>>, i: nat) {
    i < |sections| && sections[i].Some? ==> DistinctNames(sections[i].value)
  }

  predicate UniqueNames(sections: seq<Option<seq<Dep>>>) {
    forall i :: 0 <= i < |sections| ==> UniqueAt(sections, i)
  }

  predicate Plans(b: Boundary, version: string, sections: seq<Option<seq<Dep>>>, changes: seq<seq<DepChange>>, i: nat) {
    i < |sections| && i < |changes| && changes[i] == SectionChanges(b, version, i, DepsOf(sections[i]))
      && UniqueAt(sections, i)
  }

  lemma {:induction false} AlignNext(
      b: Boundary, version: string, sections: seq<Option<seq<Dep>>>, changes: seq<seq<DepChange>>, n: nat)
    requires Plans(b, version, sections, changes, n)
    requires ApplyTo(sections, changes, n) == AlignTo(b, version, sections, n)
    ensures ApplyTo(sections, changes, n + 1) == AlignTo(b, version, sections, n + 1)
  {
    NextSectionAligns(b, version, sections, n);
  }

  lemma {:induction false} PlannedChangesAlign(
      b: Boundary, version: string, sections: seq<Option<seq<Dep>>>, changes: seq<seq<DepChange>>, n: nat)
    requires |changes| == |sections| >= n && forall i :: 0 <= i < n ==> Plans(b, version, sections, changes, i)
    ensures ApplyTo(sections, changes, n) == AlignTo(b, version, sections, n)
  {
    if n > 0 {
      PlannedChangesAlign(b, version, sections, changes, n - 1);
      AlignNext(b, version, sections, changes, n - 1);
    }
  }

  /** Planning on the manifest as it is and applying the plan change by change aligns every section. */
  lemma {:induction false} ChangesAlign(b: Boundary, version: string, sections: seq<Option<seq<Dep>>>)
    requires UniqueNames(sections)
    ensures ApplyTo(sections, Changes(b, version, sections), |sections|) == AlignTo(b, version, sections, |sections|)
  {
    var changes := Changes(b, version, sections);
    forall i | 0 <= i < |sections| ensures Plans(b, version, sections, changes, i) {
      assert UniqueAt(sections, i);
    }
    PlannedChangesAlign(b, version, sections, changes, |sections|);
  }

  // ----- Aligned once, aligned for good --------------------------------------------------------------

  lemma {:induction false} AlignedRangeStays(b: Boundary, version: string, dep: Dep)
    requires IsVersion(version)
    ensures var aligned := Dep(dep.name, ExpectedRange(b, version, dep));
      ExpectedRange(b, version, aligned) == aligned.range
  {
    var prefix := RangePrefix(dep.range);
    if prefix != "" {
      assert (prefix + version)[..1] == prefix;
    }
  }

  lemma {:induction false} AlignedDepsNeedNothing(b: Boundary, version: string, section: nat, deps: seq<Dep>)
    requires IsVersion(version)
    ensures SectionChanges(b, version, section, AlignDeps(b, version, deps)) == []
  {
    if deps != [] {
      AlignedDepsNeedNothing(b, version, section, deps[..|deps| - 1]);
      AlignedRangeStays(b, version, deps[|deps| - 1]);
      SnocFront(AlignDeps(b, version, deps[..|deps| - 1]), AlignDeps(b, version, deps)[|deps| - 1]);
    }
  }

  function Align(b: Boundary, version: string, sections: seq<Option<seq<Dep>>>): (r: seq<Option<seq<Dep>>>)
    ensures |r| == |sections|
  {
    AlignTo(b, version, sections, |sections|)
  }

  /** Planning again on aligned sections finds nothing to change. */
  lemma {:induction false} AlignedNeedsNothing(b: Boundary, version: string, sections: seq<Option<seq<Dep>>>)
    requires IsVersion(version)
    ensures Nothing(Changes(b, version, Align(b, version, sections)))
  {
    var aligned := Align(b, version, sections);
    forall i | 0 <= i < |sections| ensures Changes(b, version, aligned)[i] == [] {
      AlignToAt(b, version, sections, |sections|, i);
      AlignedDepsNeedNothing(b, version, i, DepsOf(sections[i]));
    }
  }

  lemma {:induction false} NothingToApply(sections: seq<Option<seq<Dep>>>, changes: seq<seq<DepChange>>, n: nat)
    requires Nothing(changes) && n <= |changes|
    ensures ApplyTo(sections, changes, n) == sections
  {
    if n > 0 {
      NothingToApply(sections, changes, n - 1);
    }
  }

  /** No change is planned exactly when the sections are aligned already. */
  lemma {:induction false} NothingPlannedWhenAligned(b: Boundary, version: string, sections: seq<Option<seq<Dep>>>)
    requires IsVersion(version) && UniqueNames(sections)
    ensures Nothing(Changes(b, version, sections)) <==> Align(b, version, sections) == sections
  {
    ChangesAlign(b, version, sections);
    AlignedNeedsNothing(b, version, sections);
    if Nothing(Changes(b, version, sections)) {
      NothingToApply(sections, Changes(b, version, sections), |sections|);
    }
  }

  // ----- Manifests and their plans ---------------------------------------------------------------------

  /** Packages whose dependencies are aligned: the release boundary and the license-only workspaces. */
  predicate IsTarget(b: Boundary, name: string) {
    name in b.included || name in b.licenseOnly
  }

  datatype Entry = Entry(versionChange: bool, changes: seq<seq<DepChange>>)

  function WorkspaceEntry(b: Boundary, version: string, m: Manifest): Entry {
    Entry(m.name in b.included && m.version != version,
          if IsTarget(b, m.name) then Changes(b, version, m.sections) else [])
  }

  /** Whether applying an entry writes the file. */
  predicate Writes(entry: Entry) {
    entry.versionChange || !Nothing(entry.changes)
  }

  function ApplyEntry(version: string, m: Manifest, entry: Entry): Manifest {
    m.(version := if entry.versionChange then version else m.version,
       sections := ApplyTo(m.sections, entry.changes, |entry.changes|))
  }

  /** What alignment makes of a workspace manifest and of a fixture manifest. */
  function AlignedWorkspace(b: Boundary, version: string, m: Manifest): Manifest {
    m.(version := if m.name in b.included then version else m.version,
       sections := if IsTarget(b, m.name) then Align(b, version, m.sections) else m.sections)
  }

  function AlignedFixture(b: Boundary, version: string, m: Manifest): Manifest {
    m.(sections := Align(b, version, m.sections))
  }

  lemma {:induction false} WorkspaceEntryAligns(b: Boundary, version: string, m: Manifest)
    requires IsVersion(version) && WellFormed(m)
    ensures ApplyEntry(version, m, WorkspaceEntry(b, version, m)) == AlignedWorkspace(b, version, m)
    ensures Writes(WorkspaceEntry(b, version, m)) <==> AlignedWorkspace(b, version, m) != m
  {
    if IsTarget(b, m.name) {
      ChangesAlign(b, version, m.sections);
      NothingPlannedWhenAligned(b, version, m.sections);
    }
  }

  lemma {:induction false} FixtureEntryAligns(b: Boundary, version: string, m: Manifest)
    requires IsVersion(version) && WellFormed(m)
    ensures ApplyEntry(version, m, Entry(false, Changes(b, version, m.sections))) == AlignedFixture(b, version, m)
    ensures Nothing(Changes(b, version, m.sections)) <==> AlignedFixture(b, version, m) == m
  {
    ChangesAlign(b, version, m.sections);
    NothingPlannedWhenAligned(b, version, m.sections);
  }

  lemma {:induction false} AlignTwice(b: Boundary, version: string, sections: seq<Option<seq<Dep>>>)
    requires IsVersion(version)
    ensures Align(b, version, Align(b, version, sections)) == Align(b, version, sections)
  {
    var once := Align(b, version, sections);
    forall i | 0 <= i < |sections| ensures Align(b, version, once)[i] == once[i] {
      AlignToAt(b, version, sections, |sections|, i);
      AlignToAt(b, version, once, |sections|, i);
      if sections[i].Some? {
        AlignDepsTwice(b, version, sections[i].value);
      }
    }
  }

  lemma {:induction false} AlignDepsTwice(b: Boundary, version: string, deps: seq<Dep>)
    requires IsVersion(version)
    ensures AlignDeps(b, version, AlignDeps(b, version, deps)) == AlignDeps(b, version, deps)
  {
    var once := AlignDeps(b, version, deps);
    forall i | 0 <= i < |deps| ensures AlignDeps(b, version, once)[i] == once[i] {
      AlignDepsAt(b, version, deps, i);
      AlignDepsAt(b, version, once, i);
      AlignedRangeStays(b, version, deps[i]);
    }
  }

  // ----- Problems that block the application --------------------------------------------------------------

  /** A first-party dependency that the boundary neither includes nor excludes. */
  predicate Unexpected(b: Boundary, dep: Dep) {
    IsScramjet(dep.name) && dep.name !in b.excluded && dep.name !in b.included
  }

  /** An excluded dependency at the release version. */
  predicate OnVersion(b: Boundary, version: string, dep: Dep) {
    dep.name in b.excluded && dep.name !in b.licenseOnly && WithoutPrefix(dep.range) == version
  }

  predicate DepProblem(b: Boundary, version: string, scanned: bool, bounded: bool, dep: Dep) {
    (scanned && Unexpected(b, dep)) || (bounded && OnVersion(b, version, dep))
  }

  /** No problem in the sections; `scanned` files are aligned, `bounded` ones may not touch excluded packages. */
  predicate CleanDeps(b: Boundary, version: string, scanned: bool, bounded: bool, deps: seq<Dep>) {
    forall i :: 0 <= i < |deps| ==> !DepProblem(b, version, scanned, bounded, deps[i])
  }

  predicate CleanSections(b: Boundary, version: string, scanned: bool, bounded: bool, sections: seq<Option<seq<Dep>>>) {
    forall i :: 0 <= i < |sections| ==> CleanDeps(b, version, scanned, bounded, DepsOf(sections[i]))
  }

  predicate CleanWorkspace(b: Boundary, version: string, m: Manifest) {
    && CleanSections(b, version, IsTarget(b, m.name), m.name in b.included, m.sections)
    && (m.name !in b.included && m.name in b.excluded && m.name !in b.licenseOnly ==> m.version != version)
  }

  predicate CleanFixture(b: Boundary, version: string, m: Manifest) {
    CleanSections(b, version, true, true, m.sections)
  }

  lemma {:induction false} AlignedDepStaysClean(b: Boundary, version: string, scanned: bool, bounded: bool, dep: Dep)
    ensures DepProblem(b, version, scanned, bounded, Dep(dep.name, ExpectedRange(b, version, dep)))
      <==> DepProblem(b, version, scanned, bounded, dep)
  {
  }

  /** Alignment neither cures nor causes a problem: it only rewrites dependencies that cannot be one. */
  lemma {:induction false} AlignKeepsProblems(
      b: Boundary, version: string, scanned: bool, bounded: bool, sections: seq<Option<seq<Dep>>>)
    ensures CleanSections(b, version, scanned, bounded, Align(b, version, sections))
      <==> CleanSections(b, version, scanned, bounded, sections)
  {
    var aligned := Align(b, version, sections);
    forall i | 0 <= i < |sections|
      ensures CleanDeps(b, version, scanned, bounded, DepsOf(aligned[i]))
        <==> CleanDeps(b, version, scanned, bounded, DepsOf(sections[i]))
    {
      AlignToAt(b, version, sections, |sections|, i);
      AlignedDepsStayClean(b, version, scanned, bounded, DepsOf(sections[i]));
    }
  }

  lemma {:induction false} AlignedDepsStayClean(
      b: Boundary, version: string, scanned: bool, bounded: bool, deps: seq<Dep>)
    ensures CleanDeps(b, version, scanned, bounded, AlignDeps(b, version, deps))
      <==> CleanDeps(b, version, scanned, bounded, deps)
  {
    var aligned := AlignDeps(b, version, deps);
    forall i | 0 <= i < |deps|
      ensures DepProblem(b, version, scanned, bounded, aligned[i])
        <==> DepProblem(b, version, scanned, bounded, deps[i])
    {
      AlignDepsAt(b, version, deps, i);
      AlignedDepStaysClean(b, version, scanned, bounded, deps[i]);
    }
  }

  // ----- Workspace groups ---------------------------------------------------------------------------------

  /** `workspaces.packages` and `workspaces.release` of the root manifest. */
  datatype Groups = Groups(packages: Option<seq<string>>, release: Option<seq<string>>)

  function ShortName(name: string): string {
    ImageTags.ReplaceFirst(name, "@scramjet/", "")
  }

  function PackageDir(name: string): string {
    "packages/" + ShortName(name)
  }

  function ExcludedDir(name: string): string {
    if name == "scramjet-bdd" then "bdd" else PackageDir(name)
  }

  const STATIC_EXCLUDED: set<string> := {"packages/verser", "packages/bpmux", "packages/frame-stream", "bdd"}

  function ExcludedDirs(b: Boundary, names: seq<string>): set<string> {
    STATIC_EXCLUDED + set name | name in names && name in b.excluded :: ExcludedDir(name)
  }

  /** Both groups exist, agree, hold every included package and no excluded directory. */
  ghost predicate GroupsHold(b: Boundary, names: seq<string>, groups: Groups) {
    && groups.packages.Some? && groups.release.Some?
    && multiset(groups.packages.value) == multiset(groups.release.value)
    && (forall i :: 0 <= i < |names| && names[i] in b.included ==> PackageDir(names[i]) in groups.packages.value)
    && forall dir :: dir in ExcludedDirs(b, names) ==> dir !in groups.packages.value
  }

  /** `checkWorkspaceGroups`, one error for each violated rule and package. */
  method CheckWorkspaceGroups(b: Boundary, names: seq<string>, groups: Groups) returns (errors: seq<string>)
    ensures errors == [] <==> GroupsHold(b, names, groups)
  {
    errors := [];
    if groups.packages.None? {
      errors := errors + ["workspaces.packages is missing or not an array"];
    }
    if groups.release.None? {
      errors := errors + ["workspaces.release is missing or not an array"];
    }
    if groups.packages.None? || groups.release.None? {
      return;
    }
    var packages, release := groups.packages.value, groups.release.value;
    var same := multiset(packages) == multiset(release);
    if same {
      SameMembers(packages, release);
    } else {
      errors := errors + ["workspaces.release does not match workspaces.packages"];
    }
    for i := 0 to |names|
      invariant errors == [] <==> same && forall k :: 0 <= k < i && names[k] in b.included ==>
        PackageDir(names[k]) in packages && PackageDir(names[k]) in release
    {
      if names[i] in b.included && PackageDir(names[i]) !in packages {
        errors := errors + [names[i] + " is missing from workspaces.packages"];
      }
      if names[i] in b.included && PackageDir(names[i]) !in release {
        errors := errors + [names[i] + " is missing from workspaces.release"];
      }
    }
    var dirs := ExcludedDirs(b, names);
    if exists dir :: dir in dirs && (dir in packages || dir in release) {
      errors := errors + ["an excluded directory is in a workspace group"];
    }
  }

  lemma {:induction false} SameMembers(a: seq<string>, b: seq<string>)
    requires multiset(a) == multiset(b)
    ensures forall x :: x in a <==> x in b
  {
    forall x ensures x in a <==> x in b {
      assert x in multiset(a) <==> x in multiset(b);
    }
  }

  // ----- The repository --------------------------------------------------------------------------------------

  /** The license field of the root manifest and the license file at the root. */
  datatype RootLicense = RootLicense(field: Option<string>, file: Option<string>)

  /** The image configuration and the pyproject.toml of the Python runner may be missing. */
  datatype State = State(
    rootVersion: string, groups: Groups, workspaces: seq<Manifest>, fixtures: seq<Manifest>,
    image: Option<string>, project: Option<string>, license: RootLicense)

  function NamesOf(manifests: seq<Manifest>): (names: seq<string>)
    ensures |names| == |manifests| && forall i :: 0 <= i < |names| ==> names[i] == manifests[i].name
  {
    seq(|manifests|, i requires 0 <= i < |manifests| => manifests[i].name)
  }

  /** Manifests parse, and no two workspaces share a name. */
  ghost predicate Sound(s: State) {
    && (forall i :: 0 <= i < |s.workspaces| ==> WellFormed(s.workspaces[i]))
    && (forall i :: 0 <= i < |s.fixtures| ==> WellFormed(s.fixtures[i]))
    && Distinct(NamesOf(s.workspaces))
  }

  predicate IsDevelopment(version: string) {
    |version| >= 6 && version[|version| - 6..] == "-devel"
  }

  /** A stable or a development version: digits and dots, which `-devel` may follow. */
  predicate IsTargetVersion(version: string) {
    IsVersion(version) && ImageTags.IsTag(if IsDevelopment(version) then version[..|version| - 6] else version)
  }

  lemma {:induction false} TargetVersionIsPlain(version: string)
    requires IsTargetVersion(version)
    ensures ProjectVersion.IsPlain(version)
  {
    var front := if IsDevelopment(version) then version[..|version| - 6] else version;
    forall i | 0 <= i < |version|
      ensures version[i] != '"' && version[i] != '$' && !ReleaseText.IsSpace(version[i])
    {
      if i < |front| {
        assert ImageTags.IsTagChar(front[i]);
      } else {
        assert version[i] == version[|version| - 6..][i - |front|] == "-devel"[i - |front|];
      }
    }
  }

  /** A fixture is left alone when a workspace has its name. */
  predicate Tracked(s: State, fixture: Manifest) {
    fixture.name !in NamesOf(s.workspaces)
  }

  ghost predicate NoProblems(b: Boundary, version: string, s: State) {
    && (forall i :: 0 <= i < |s.workspaces| ==> CleanWorkspace(b, version, s.workspaces[i]))
    && (forall i :: 0 <= i < |s.fixtures| && Tracked(s, s.fixtures[i]) ==> CleanFixture(b, version, s.fixtures[i]))
    && GroupsHold(b, NamesOf(s.workspaces), s.groups)
    && (IsDevelopment(version) || s.image.Some?)
    && (s.project.Some? ==> !ProjectVersion.Planned(s.project.value, version).NoVersion?)
  }

  function AlignedWorkspaces(b: Boundary, version: string, ms: seq<Manifest>): (r: seq<Manifest>)
    ensures |r| == |ms| && forall i :: 0 <= i < |r| ==> r[i] == AlignedWorkspace(b, version, ms[i])
  {
    seq(|ms|, i requires 0 <= i < |ms| => AlignedWorkspace(b, version, ms[i]))
  }

  function AlignedFixtures(b: Boundary, version: string, s: State): (r: seq<Manifest>)
    ensures |r| == |s.fixtures|
    ensures forall i :: 0 <= i < |r| ==>
      r[i] == if Tracked(s, s.fixtures[i]) then AlignedFixture(b, version, s.fixtures[i]) else s.fixtures[i]
  {
    seq(|s.fixtures|, i requires 0 <= i < |s.fixtures| =>
      if Tracked(s, s.fixtures[i]) then AlignedFixture(b, version, s.fixtures[i]) else s.fixtures[i])
  }

  function AlignedImage(version: string, image: Option<string>): Option<string> {
    if image.None? || IsDevelopment(version) then image else Some(ImageTags.Retag(image.value, version))
  }

  function AlignedProject(version: string, project: Option<string>): Option<string> {
    if project.None? then None else Some(ProjectSettles.Applied(project.value, version))
  }

  /** The project file has another version than the target. */
  predicate ProjectDrifts(version: string, project: Option<string>) {
    project.Some? && ProjectVersion.Planned(project.value, version).Change?
  }

  /** What one unblocked application makes of the repository. */
  function Aligned(b: Boundary, version: string, s: State): State {
    State(version, s.groups, AlignedWorkspaces(b, version, s.workspaces), AlignedFixtures(b, version, s),
          AlignedImage(version, s.image), AlignedProject(version, s.project), s.license)
  }

  /** The files an application writes. */
  function WorkspaceWrites(b: Boundary, version: string, ms: seq<Manifest>): nat {
    if ms == [] then 0
    else
      var n, m := WorkspaceWrites(b, version, ms[..|ms| - 1]), ms[|ms| - 1];
      if AlignedWorkspace(b, version, m) == m then n else n + 1
  }

  function FixtureWrites(b: Boundary, version: string, s: State, n: nat): nat
    requires n <= |s.fixtures|
  {
    if n == 0 then 0
    else
      var before, m := FixtureWrites(b, version, s, n - 1), s.fixtures[n - 1];
      if Tracked(s, m) && AlignedFixture(b, version, m) != m then before + 1 else before
  }

  function Drift(b: Boundary, version: string, s: State): nat {
    (if s.rootVersion == version then 0 else 1)
    + WorkspaceWrites(b, version, s.workspaces)
    + FixtureWrites(b, version, s, |s.fixtures|)
    + (if ProjectDrifts(version, s.project) then 1 else 0)
    + if AlignedImage(version, s.image) == s.image then 0 else 1
  }

  // ----- What is counted ------------------------------------------------------------------------------------------

  /** The positions among the first n at which two lists differ. */
  function DifferAt(a: seq<Manifest>, c: seq<Manifest>, n: nat): set<nat>
    requires n <= |a| == |c|
  {
    set i: nat | i < n && a[i] != c[i]
  }

  lemma {:induction false} OneMoreDiffers(a: seq<Manifest>, c: seq<Manifest>, n: nat)
    requires n < |a| == |c|
    ensures |DifferAt(a, c, n + 1)| == |DifferAt(a, c, n)| + if a[n] == c[n] then 0 else 1
  {
    if a[n] == c[n] {
      assert DifferAt(a, c, n + 1) == DifferAt(a, c, n);
    } else {
      assert DifferAt(a, c, n + 1) == DifferAt(a, c, n) + {n};
    }
  }

  /** The parts of a repository that differ: its version, manifests, project file and image configuration. */
  function Differences(before: State, after: State): nat
    requires |before.workspaces| == |after.workspaces| && |before.fixtures| == |after.fixtures|
  {
    (if before.rootVersion == after.rootVersion then 0 else 1)
    + |DifferAt(before.workspaces, after.workspaces, |before.workspaces|)|
    + |DifferAt(before.fixtures, after.fixtures, |before.fixtures|)|
    + (if before.project == after.project then 0 else 1)
    + if before.image == after.image then 0 else 1
  }

  lemma {:induction false} WorkspacesCounted(b: Boundary, version: string, ms: seq<Manifest>, n: nat)
    requires n <= |ms|
    ensures WorkspaceWrites(b, version, ms[..n]) == |DifferAt(ms, AlignedWorkspaces(b, version, ms), n)|
  {
    if n == 0 {
      assert DifferAt(ms, AlignedWorkspaces(b, version, ms), 0) == {};
    } else {
      WorkspacesCounted(b, version, ms, n - 1);
      OneMoreDiffers(ms, AlignedWorkspaces(b, version, ms), n - 1);
      assert ms[..n][..n - 1] == ms[..n - 1];
    }
  }

  lemma {:induction false} FixturesCounted(b: Boundary, version: string, s: State, n: nat)
    requires n <= |s.fixtures|
    ensures FixtureWrites(b, version, s, n) == |DifferAt(s.fixtures, AlignedFixtures(b, version, s), n)|
  {
    if n == 0 {
      assert DifferAt(s.fixtures, AlignedFixtures(b, version, s), 0) == {};
    } else {
      FixturesCounted(b, version, s, n - 1);
      OneMoreDiffers(s.fixtures, AlignedFixtures(b, version, s), n - 1);
    }
  }

  /** The drift is the number of parts that alignment changes. */
  lemma {:induction false} DriftCountsDifferences(b: Boundary, version: string, s: State)
    requires IsTargetVersion(version)
    ensures Drift(b, version, s) == Differences(s, Aligned(b, version, s))
  {
    WorkspacesCounted(b, version, s.workspaces, |s.workspaces|);
    FixturesCounted(b, version, s, |s.fixtures|);
    DriftChangesProject(version, s.project);
    assert s.workspaces[..|s.workspaces|] == s.workspaces;
  }

  // ----- One application converges -------------------------------------------------------------------------------

  lemma {:induction false} AlignedNames(b: Boundary, version: string, s: State)
    ensures NamesOf(Aligned(b, version, s).workspaces) == NamesOf(s.workspaces)
  {
  }

  lemma {:induction false} AlignedWorkspaceIsAligned(b: Boundary, version: string, m: Manifest)
    requires IsVersion(version)
    ensures AlignedWorkspace(b, version, AlignedWorkspace(b, version, m)) == AlignedWorkspace(b, version, m)
    ensures CleanWorkspace(b, version, m) ==> CleanWorkspace(b, version, AlignedWorkspace(b, version, m))
  {
    AlignTwice(b, version, m.sections);
    AlignKeepsProblems(b, version, IsTarget(b, m.name), m.name in b.included, m.sections);
  }

  lemma {:induction false} AlignedFixtureIsAligned(b: Boundary, version: string, m: Manifest)
    requires IsVersion(version)
    ensures AlignedFixture(b, version, AlignedFixture(b, version, m)) == AlignedFixture(b, version, m)
    ensures CleanFixture(b, version, m) ==> CleanFixture(b, version, AlignedFixture(b, version, m))
  {
    AlignTwice(b, version, m.sections);
    AlignKeepsProblems(b, version, true, true, m.sections);
  }

  lemma {:induction false} AlignedImageIsAligned(version: string, image: Option<string>)
    requires IsTargetVersion(version)
    ensures AlignedImage(version, AlignedImage(version, image)) == AlignedImage(version, image)
  {
    if image.Some? && !IsDevelopment(version) {
      ImageTags.RetagHolds(image.value, version);
      ImageTags.RetagChangesNothing(ImageTags.Retag(image.value, version), version);
    }
  }

  /** A change of the project file is a change: another version never prints the same line. */
  lemma {:induction false} DriftChangesProject(version: string, project: Option<string>)
    requires IsTargetVersion(version)
    ensures ProjectDrifts(version, project) <==> AlignedProject(version, project) != project
  {
    TargetVersionIsPlain(version);
    if ProjectDrifts(version, project) {
      ProjectSettles.ChangeDiffers(project.value, version);
    }
  }

  /** A second plan leaves the project file alone: it finds the target version, or none at all. */
  predicate ProjectRests(version: string, project: Option<string>) {
    project.Some? ==>
      ProjectSettles.Settles(project.value, version) || ProjectSettles.NextVersion(project.value, version).None?
  }

  /** One application gives the project file the target version. */
  predicate ProjectConverges(version: string, project: Option<string>) {
    project.Some? ==> ProjectSettles.Settles(project.value, version)
  }

  lemma {:induction false} NextProjectPlan(version: string, project: Option<string>)
    requires IsTargetVersion(version) && project.Some?
    ensures var next := ProjectVersion.Planned(AlignedProject(version, project).value, version);
      && (next.UpToDate? <==> ProjectConverges(version, project))
      && (next.Change? <==> !ProjectRests(version, project))
  {
    TargetVersionIsPlain(version);
    ProjectSettles.SettlesExactly(project.value, version);
  }

  lemma {:induction false} AlignedManifestsAreAligned(b: Boundary, version: string, s: State)
    requires IsTargetVersion(version)
    ensures var once := Aligned(b, version, s);
      && AlignedWorkspaces(b, version, once.workspaces) == once.workspaces
      && AlignedFixtures(b, version, once) == once.fixtures
  {
    var once := Aligned(b, version, s);
    AlignedNames(b, version, s);
    forall i | 0 <= i < |s.workspaces| ensures AlignedWorkspace(b, version, once.workspaces[i]) == once.workspaces[i] {
      AlignedWorkspaceIsAligned(b, version, s.workspaces[i]);
    }
    forall i | 0 <= i < |s.fixtures|
      ensures Tracked(s, s.fixtures[i]) ==> AlignedFixture(b, version, once.fixtures[i]) == once.fixtures[i] {
      AlignedFixtureIsAligned(b, version, s.fixtures[i]);
    }
  }

  /** Aligning an aligned repository changes nothing, unless the project file still has another version. */
  lemma {:induction false} AlignedIsAligned(b: Boundary, version: string, s: State)
    requires IsTargetVersion(version)
    ensures var once := Aligned(b, version, s);
      Aligned(b, version, once) == once <==> ProjectRests(version, s.project)
  {
    AlignedManifestsAreAligned(b, version, s);
    AlignedImageIsAligned(version, s.image);
    DriftChangesProject(version, AlignedProject(version, s.project));
    if s.project.Some? {
      NextProjectPlan(version, s.project);
    }
  }

  lemma {:induction false} SameSnoc(a: seq<Manifest>, x: Manifest, b: seq<Manifest>, y: Manifest)
    requires |a| == |b|
    ensures a + [x] == b + [y] <==> a == b && x == y
  {
    SnocFront(a, x);
    SnocFront(b, y);
  }

  lemma {:induction false} NoWorkspaceWrites(b: Boundary, version: string, ms: seq<Manifest>)
    ensures WorkspaceWrites(b, version, ms) == 0 <==> AlignedWorkspaces(b, version, ms) == ms
  {
    if ms != [] {
      var front, last := ms[..|ms| - 1], ms[|ms| - 1];
      var aligned := AlignedWorkspaces(b, version, front);
      NoWorkspaceWrites(b, version, front);
      FrontAndLast(ms);
      assert AlignedWorkspaces(b, version, ms) == aligned + [AlignedWorkspace(b, version, last)];
      SameSnoc(aligned, AlignedWorkspace(b, version, last), front, last);
    }
  }

  lemma {:induction false} NoFixtureWrites(b: Boundary, version: string, s: State, n: nat)
    requires n <= |s.fixtures|
    ensures FixtureWrites(b, version, s, n) == 0 <==>
      forall i :: 0 <= i < n ==> AlignedFixtures(b, version, s)[i] == s.fixtures[i]
  {
    if n > 0 {
      NoFixtureWrites(b, version, s, n - 1);
    }
  }

  /** Nothing is written exactly when the repository is aligned. */
  lemma {:induction false} NoDriftMeansAligned(b: Boundary, version: string, s: State)
    requires IsTargetVersion(version)
    ensures Drift(b, version, s) == 0 <==> Aligned(b, version, s) == s
  {
    NoWorkspaceWrites(b, version, s.workspaces);
    NoFixtureWrites(b, version, s, |s.fixtures|);
    DriftChangesProject(version, s.project);
    if Drift(b, version, s) == 0 {
      assert AlignedFixtures(b, version, s) == s.fixtures;
    }
  }

  /** No problem but one of the project file appears by alignment. */
  lemma {:induction false} AlignedHasNoProblem(b: Boundary, version: string, s: State)
    requires IsTargetVersion(version) && NoProblems(b, version, s)
    ensures var once := Aligned(b, version, s);
      NoProblems(b, version, once)
      <==> (once.project.Some? ==> !ProjectVersion.Planned(once.project.value, version).NoVersion?)
  {
    var once := Aligned(b, version, s);
    AlignedNames(b, version, s);
    forall i | 0 <= i < |once.workspaces| ensures CleanWorkspace(b, version, once.workspaces[i]) {
      AlignedWorkspaceIsAligned(b, version, s.workspaces[i]);
    }
    forall i | 0 <= i < |once.fixtures| && Tracked(once, once.fixtures[i])
      ensures CleanFixture(b, version, once.fixtures[i]) {
      AlignedFixtureIsAligned(b, version, s.fixtures[i]);
    }
  }

  /**
   One unblocked application converges, so that the repository it leaves has no drift and no problem, exactly when
   the project version settles.
   */
  lemma {:induction false} ApplyConverges(b: Boundary, version: string, s: State)
    requires IsTargetVersion(version) && NoProblems(b, version, s)
    ensures var once := Aligned(b, version, s);
      NoProblems(b, version, once) && Drift(b, version, once) == 0 <==> ProjectConverges(version, s.project)
  {
    var once := Aligned(b, version, s);
    AlignedHasNoProblem(b, version, s);
    AlignedIsAligned(b, version, s);
    NoDriftMeansAligned(b, version, once);
    if s.project.Some? {
      NextProjectPlan(version, s.project);
    }
  }

  /** What an application must leave alone: identities, versions outside the boundary, other dependencies. */
  lemma {:induction false} ApplyPreserves(b: Boundary, version: string, s: State, i: nat)
    requires b.Valid()
    ensures i < |s.workspaces| ==> var before, after := s.workspaces[i], Aligned(b, version, s).workspaces[i];
      && after.name == before.name
      && (before.name in b.excluded ==> after.version == before.version)
      && (before.name !in b.included && before.name !in b.licenseOnly ==> after == before)
    ensures i < |s.fixtures| ==> var before, after := s.fixtures[i], Aligned(b, version, s).fixtures[i];
      after.name == before.name && after.version == before.version
  {
  }

  /** The repository after applications to one version after another. */
  function AlignedTo(b: Boundary, versions: seq<string>, s: State): State {
    if versions == [] then s
    else Aligned(b, versions[|versions| - 1], AlignedTo(b, versions[..|versions| - 1], s))
  }

  /** Over any number of releases, identities, versions outside the boundary and fixture identities stay. */
  lemma {:induction false} ReleasesPreserve(b: Boundary, versions: seq<string>, s: State, i: nat)
    requires b.Valid()
    ensures |AlignedTo(b, versions, s).workspaces| == |s.workspaces|
      && |AlignedTo(b, versions, s).fixtures| == |s.fixtures|
    ensures i < |s.workspaces| ==> var before, after := s.workspaces[i], AlignedTo(b, versions, s).workspaces[i];
      && after.name == before.name
      && (before.name in b.excluded ==> after.version == before.version)
      && (before.name !in b.included && before.name !in b.licenseOnly ==> after == before)
    ensures i < |s.fixtures| ==> var before, after := s.fixtures[i], AlignedTo(b, versions, s).fixtures[i];
      after.name == before.name && after.version == before.version
  {
    if versions != [] {
      var front := versions[..|versions| - 1];
      ReleasesPreserve(b, front, s, i);
      ApplyPreserves(b, versions[|versions| - 1], AlignedTo(b, front, s), i);
    }
  }

  /** Alignment keeps every dependency's name, and every range but those of included packages. */
  lemma {:induction false} AlignKeepsOtherDeps(
      b: Boundary, version: string, sections: seq<Option<seq<Dep>>>, i: nat, j: nat)
    requires i < |sections| && j < |DepsOf(sections[i])|
    ensures var aligned, dep := DepsOf(Align(b, version, sections)[i]), DepsOf(sections[i])[j];
      && |aligned| == |DepsOf(sections[i])|
      && aligned[j].name == dep.name
      && (!Alignable(b, dep.name) ==> aligned[j] == dep)
      && (Alignable(b, dep.name) ==> aligned[j].range == RangePrefix(dep.range) + version)
  {
    AlignToAt(b, version, sections, |sections|, i);
    AlignDepsAt(b, version, DepsOf(sections[i]), j);
  }

  // ----- What a release puts into the files ------------------------------------------------------------------------

  /** A range with its `^` or `~` kept and the version after it. */
  predicate Retargeted(before: string, after: string, version: string) {
    if before != "" && (before[0] == '^' || before[0] == '~') then after == [before[0]] + version else after == version
  }

  /** A first-party dependency inside the release is put on the version; every other one stays as it is. */
  predicate DepFollows(b: Boundary, version: string, before: Dep, after: Dep) {
    && after.name == before.name
    && if |before.name| >= 10 && before.name[..10] == "@scramjet/"
          && before.name in b.included && before.name !in b.excluded
       then Retargeted(before.range, after.range, version)
       else after.range == before.range
  }

  predicate SectionFollows(b: Boundary, version: string, before: Option<seq<Dep>>, after: Option<seq<Dep>>) {
    match (before, after)
    case (None, None) => true
    case (Some(old_), Some(new_)) =>
      |new_| == |old_| && forall j :: 0 <= j < |old_| ==> DepFollows(b, version, old_[j], new_[j])
    case _ => false
  }

  predicate SectionsFollow(
      b: Boundary, version: string, before: seq<Option<seq<Dep>>>, after: seq<Option<seq<Dep>>>)
  {
    |after| == |before| && forall i :: 0 <= i < |before| ==> SectionFollows(b, version, before[i], after[i])
  }

  /**
   A workspace: a released package gets the version; released and license-only packages get their dependencies
   aligned; everything else in the file stays.
   */
  predicate WorkspaceFollows(b: Boundary, version: string, before: Manifest, after: Manifest) {
    && after.name == before.name && after.license == before.license && after.file == before.file
    && after.version == (if before.name in b.included then version else before.version)
    && if before.name in b.included || before.name in b.licenseOnly
       then SectionsFollow(b, version, before.sections, after.sections)
       else after.sections == before.sections
  }

  /** Some workspace has the name. */
  predicate IsShadowed(workspaces: seq<Manifest>, name: string) {
    exists k :: 0 <= k < |workspaces| && workspaces[k].name == name
  }

  /** A fixture that no workspace shadows gets its dependencies aligned and nothing else. */
  predicate FixtureFollows(b: Boundary, version: string, workspaces: seq<Manifest>, before: Manifest, after: Manifest) {
    && after.name == before.name && after.license == before.license && after.file == before.file
    && after.version == before.version
    && if IsShadowed(workspaces, before.name) then after.sections == before.sections
       else SectionsFollow(b, version, before.sections, after.sections)
  }

  /** Unless the version is a development version, every image tag is the version and the rest of the file stays. */
  predicate ImageFollows(version: string, before: Option<string>, after: Option<string>) {
    if |version| >= 6 && version[|version| - 6..] == "-devel" then after == before
    else
      && (before.Some? <==> after.Some?)
      && (after.Some? ==>
            && ImageTags.AllTags(after.value, version)
            && ImageTags.Untagged(after.value) == ImageTags.Untagged(before.value))
  }

  /** The project file is the one that the plan gives, if the plan has a change, and otherwise the same. */
  predicate ProjectFollows(version: string, before: Option<string>, after: Option<string>) {
    match before
    case None => after == None
    case Some(text) =>
      match ProjectVersion.Planned(text, version)
      case Change(_, updated) => after == Some(updated)
      case _ => after == Some(text)
  }

  /** What an application to a version makes of the repository, file by file and field by field. */
  predicate Follows(b: Boundary, version: string, before: State, after: State) {
    && after.rootVersion == version && after.groups == before.groups && after.license == before.license
    && |after.workspaces| == |before.workspaces|
    && (forall i :: 0 <= i < |before.workspaces| ==>
          WorkspaceFollows(b, version, before.workspaces[i], after.workspaces[i]))
    && |after.fixtures| == |before.fixtures|
    && (forall i :: 0 <= i < |before.fixtures| ==>
          FixtureFollows(b, version, before.workspaces, before.fixtures[i], after.fixtures[i]))
    && ImageFollows(version, before.image, after.image)
    && ProjectFollows(version, before.project, after.project)
  }

  lemma {:induction false} AlignedSectionsFollow(b: Boundary, version: string, sections: seq<Option<seq<Dep>>>)
    ensures SectionsFollow(b, version, sections, Align(b, version, sections))
  {
    forall i | 0 <= i < |sections| ensures SectionFollows(b, version, sections[i], Align(b, version, sections)[i]) {
      AlignToAt(b, version, sections, |sections|, i);
      if sections[i].Some? {
        forall j | 0 <= j < |sections[i].value|
          ensures DepFollows(b, version, sections[i].value[j], AlignDeps(b, version, sections[i].value)[j])
        {
          AlignDepsAt(b, version, sections[i].value, j);
        }
      }
    }
  }

  lemma {:induction false} ShadowedIsUntracked(s: State, fixture: Manifest)
    ensures Tracked(s, fixture) <==> !IsShadowed(s.workspaces, fixture.name)
  {
    var names := NamesOf(s.workspaces);
    if !Tracked(s, fixture) {
      var k :| 0 <= k < |names| && names[k] == fixture.name;
      assert s.workspaces[k].name == fixture.name;
    } else {
      forall k | 0 <= k < |s.workspaces| ensures s.workspaces[k].name != fixture.name {
        assert names[k] in names;
      }
    }
  }

  lemma {:induction false} AlignedImageFollows(version: string, image: Option<string>)
    requires IsTargetVersion(version)
    ensures ImageFollows(version, image, AlignedImage(version, image))
  {
    if image.Some? && !IsDevelopment(version) {
      ImageTags.RetagHolds(image.value, version);
      ImageTags.RetagKeepsTheRest(image.value, version);
    }
  }

  /** The released packages have the version, and all that is released points to it. */
  lemma {:induction false} AlignedFollows(b: Boundary, version: string, s: State)
    requires IsTargetVersion(version)
    ensures Follows(b, version, s, Aligned(b, version, s))
  {
    hide ProjectVersion.Planned;
    AlignedImageFollows(version, s.image);
    forall i | 0 <= i < |s.workspaces|
      ensures WorkspaceFollows(b, version, s.workspaces[i], AlignedWorkspace(b, version, s.workspaces[i]))
    {
      AlignedSectionsFollow(b, version, s.workspaces[i].sections);
    }
    forall i | 0 <= i < |s.fixtures|
      ensures FixtureFollows(b, version, s.workspaces, s.fixtures[i], AlignedFixtures(b, version, s)[i])
    {
      AlignedSectionsFollow(b, version, s.fixtures[i].sections);
      ShadowedIsUntracked(s, s.fixtures[i]);
    }
  }

  // ----- What blocks a release -----------------------------------------------------------------------------------

  /** A first-party dependency that is neither released nor excluded. */
  predicate IsStray(b: Boundary, dep: Dep) {
    |dep.name| >= 10 && dep.name[..10] == "@scramjet/" && dep.name !in b.included && dep.name !in b.excluded
  }

  /** An excluded dependency on the release version, with or without a range sign. */
  predicate IsPinned(b: Boundary, version: string, dep: Dep) {
    && dep.name in b.excluded && dep.name !in b.licenseOnly
    && (dep.range == version || dep.range == "^" + version || dep.range == "~" + version)
  }

  predicate NoDep(sections: seq<Option<seq<Dep>>>, bad: Dep -> bool) {
    forall i, j :: 0 <= i < |sections| && sections[i].Some? && 0 <= j < |sections[i].value| ==>
      !bad(sections[i].value[j])
  }

  /** Nothing in a workspace blocks the release. */
  predicate WorkspaceIsFree(b: Boundary, version: string, m: Manifest) {
    && (m.name in b.included || m.name in b.licenseOnly ==> NoDep(m.sections, dep => IsStray(b, dep)))
    && (m.name in b.included ==> NoDep(m.sections, dep => IsPinned(b, version, dep)))
    && (m.name in b.excluded && m.name !in b.included && m.name !in b.licenseOnly ==> m.version != version)
  }

  predicate FixtureIsFree(b: Boundary, version: string, m: Manifest) {
    NoDep(m.sections, dep => IsStray(b, dep)) && NoDep(m.sections, dep => IsPinned(b, version, dep))
  }

  /** The workspace groups name the same directories, each released package's and no excluded one. */
  predicate GroupsAgree(b: Boundary, names: seq<string>, groups: Groups) {
    && groups.packages.Some? && groups.release.Some?
    && (forall dir :: dir in groups.packages.value + groups.release.value ==>
          multiset(groups.packages.value)[dir] == multiset(groups.release.value)[dir])
    && (forall i :: 0 <= i < |names| && names[i] in b.included ==> PackageDir(names[i]) in groups.packages.value)
    && (forall i :: 0 <= i < |names| && names[i] in b.excluded ==>
          (if names[i] == "scramjet-bdd" then "bdd" else PackageDir(names[i])) !in groups.packages.value)
    && "packages/verser" !in groups.packages.value && "packages/bpmux" !in groups.packages.value
    && "packages/frame-stream" !in groups.packages.value && "bdd" !in groups.packages.value
  }

  /** The directory of a first-party package. */
  lemma {:induction false} PackageDirOf(rest: string)
    ensures PackageDir("@scramjet/" + rest) == "packages/" + rest
  {
    var name := "@scramjet/" + rest;
    assert name[0..10] == "@scramjet/" && name[10..] == rest && name[..0] == "";
    ImageTags.ReplaceAt(name, "@scramjet/", "", 0);
  }

  lemma {:induction false} PinnedIsOnVersion(b: Boundary, version: string, dep: Dep)
    requires IsVersion(version)
    ensures IsPinned(b, version, dep) <==> OnVersion(b, version, dep)
    ensures IsStray(b, dep) <==> Unexpected(b, dep)
  {
    if dep.range != "" {
      assert dep.range == [dep.range[0]] + dep.range[1..];
    }
    assert ("^" + version)[1..] == version && ("~" + version)[1..] == version;
    if |dep.name| >= 10 {
      assert StartsWith(dep.name, "@scramjet/") <==> dep.name[..10] == "@scramjet/";
    }
  }

  lemma {:induction false} CleanMeansNoDep(
      b: Boundary, version: string, scanned: bool, bounded: bool, sections: seq<Option<seq<Dep>>>)
    requires IsVersion(version)
    ensures CleanSections(b, version, scanned, bounded, sections)
      <==> (scanned ==> NoDep(sections, dep => IsStray(b, dep)))
           && (bounded ==> NoDep(sections, dep => IsPinned(b, version, dep)))
  {
    hide IsStray, IsPinned, OnVersion, Unexpected;
    var stray, pinned := (dep: Dep) => IsStray(b, dep), (dep: Dep) => IsPinned(b, version, dep);
    forall i, j | 0 <= i < |sections| && sections[i].Some? && 0 <= j < |sections[i].value|
      ensures DepProblem(b, version, scanned, bounded, sections[i].value[j])
        <==> (scanned && stray(sections[i].value[j])) || (bounded && pinned(sections[i].value[j]))
    {
      PinnedIsOnVersion(b, version, sections[i].value[j]);
    }
    if CleanSections(b, version, scanned, bounded, sections) {
      forall i, j | 0 <= i < |sections| && sections[i].Some? && 0 <= j < |sections[i].value|
        ensures !DepProblem(b, version, scanned, bounded, sections[i].value[j])
      {
        assert CleanDeps(b, version, scanned, bounded, DepsOf(sections[i]));
      }
    } else {
      var i :| 0 <= i < |sections| && !CleanDeps(b, version, scanned, bounded, DepsOf(sections[i]));
      var j :| 0 <= j < |DepsOf(sections[i])| && DepProblem(b, version, scanned, bounded, DepsOf(sections[i])[j]);
      assert sections[i].Some? && DepProblem(b, version, scanned, bounded, sections[i].value[j]);
    }
  }

  lemma {:induction false} GroupsHoldExactly(b: Boundary, names: seq<string>, groups: Groups)
    ensures GroupsHold(b, names, groups) <==> GroupsAgree(b, names, groups)
  {
    if groups.packages.Some? && groups.release.Some? {
      var packages, release := groups.packages.value, groups.release.value;
      if forall dir :: dir in packages + release ==> multiset(packages)[dir] == multiset(release)[dir] {
        forall dir ensures multiset(packages)[dir] == multiset(release)[dir] {
          assert dir in packages + release || (dir !in multiset(packages) && dir !in multiset(release));
        }
        assert multiset(packages) == multiset(release);
      }
      forall i | 0 <= i < |names| && names[i] in b.excluded ensures ExcludedDir(names[i]) in ExcludedDirs(b, names) {
      }
    }
  }

  /** An application is blocked by nothing but what is listed here. */
  lemma {:induction false} BlockedExactly(b: Boundary, version: string, s: State)
    requires IsTargetVersion(version)
    ensures NoProblems(b, version, s) <==>
      && (forall i :: 0 <= i < |s.workspaces| ==> WorkspaceIsFree(b, version, s.workspaces[i]))
      && (forall i :: 0 <= i < |s.fixtures| && !IsShadowed(s.workspaces, s.fixtures[i].name) ==>
            FixtureIsFree(b, version, s.fixtures[i]))
      && GroupsAgree(b, NamesOf(s.workspaces), s.groups)
      && (s.image.Some? || (|version| >= 6 && version[|version| - 6..] == "-devel"))
      && (s.project.Some? ==> ProjectVersion.VersionLine(s.project.value).Some?)
  {
    hide CleanSections, NoDep, GroupsHold, GroupsAgree, ProjectVersion.VersionLine, Tracked;
    GroupsHoldExactly(b, NamesOf(s.workspaces), s.groups);
    forall i | 0 <= i < |s.workspaces|
      ensures CleanWorkspace(b, version, s.workspaces[i]) <==> WorkspaceIsFree(b, version, s.workspaces[i])
    {
      var m := s.workspaces[i];
      CleanMeansNoDep(b, version, IsTarget(b, m.name), m.name in b.included, m.sections);
    }
    forall i | 0 <= i < |s.fixtures|
      ensures CleanFixture(b, version, s.fixtures[i]) <==> FixtureIsFree(b, version, s.fixtures[i])
      ensures Tracked(s, s.fixtures[i]) <==> !IsShadowed(s.workspaces, s.fixtures[i].name)
    {
      CleanMeansNoDep(b, version, true, true, s.fixtures[i].sections);
      ShadowedIsUntracked(s, s.fixtures[i]);
    }
  }

  /** A project file that needs no change has the version, and one that does is told so. */
  lemma {:induction false} ProjectPlanMeans(text: string, version: string)
    ensures var line, plan := ProjectVersion.VersionLine(text), ProjectVersion.Planned(text, version);
      && (plan.NoVersion? <==> line.None?)
      && (plan.UpToDate? <==> line.Some? && text[line.value.open + 1..line.value.close] == version)
      && (plan.Change? ==> plan.from == text[line.value.open + 1..line.value.close] != version)
  {
  }

  // ----- Licenses ------------------------------------------------------------------------------------------------

  const LICENSE := "MIT"

  /** A license target names the license and has its text beside it. */
  predicate LicenseHolds(b: Boundary, m: Manifest) {
    IsTarget(b, m.name) ==> m.license == Some(LICENSE) && m.file == Some(b.text)
  }

  predicate FixtureLicensesHold(b: Boundary, s: State) {
    forall i :: 0 <= i < |s.fixtures| && Tracked(s, s.fixtures[i]) ==> LicenseHolds(b, s.fixtures[i])
  }

  /** `checkLicenseState`, which does not look at the license field of the root manifest. */
  predicate LicensesHold(b: Boundary, s: State) {
    && s.license.file == Some(b.text)
    && (forall i :: 0 <= i < |s.workspaces| ==> LicenseHolds(b, s.workspaces[i]))
    && FixtureLicensesHold(b, s)
  }

  function LicensedOne(b: Boundary, m: Manifest): Manifest {
    if IsTarget(b, m.name) then m.(license := Some(LICENSE), file := Some(b.text)) else m
  }

  function LicensedAll(b: Boundary, ms: seq<Manifest>): (r: seq<Manifest>)
    ensures |r| == |ms| && forall i :: 0 <= i < |r| ==> r[i] == LicensedOne(b, ms[i])
  {
    seq(|ms|, i requires 0 <= i < |ms| => LicensedOne(b, ms[i]))
  }

  /** What `applyLicenses` makes of the repository: it sees the workspaces, not the fixtures. */
  function Licensed(b: Boundary, s: State): State {
    s.(workspaces := LicensedAll(b, s.workspaces), license := RootLicense(Some(LICENSE), Some(b.text)))
  }

  /** The root files and the packages that the license application counts as changed. */
  function RootWrites(b: Boundary, license: RootLicense): nat {
    (if license.file == Some(b.text) then 0 else 1) + if license.field == Some(LICENSE) then 0 else 1
  }

  function LicenseWrites(b: Boundary, ms: seq<Manifest>): nat {
    if ms == [] then 0
    else LicenseWrites(b, ms[..|ms| - 1]) + if LicenseHolds(b, ms[|ms| - 1]) then 0 else 1
  }

  /** Whether a manifest is one of those that must carry the license, and does. */
  predicate CarriesLicense(b: Boundary, m: Manifest) {
    m.name in b.included || m.name in b.licenseOnly ==> m.license == Some("MIT") && m.file == Some(b.text)
  }

  /** The root, every workspace, and every fixture that no workspace shadows have their licenses in place. */
  predicate Carries(b: Boundary, s: State) {
    && s.license.file == Some(b.text)
    && (forall i :: 0 <= i < |s.workspaces| ==> CarriesLicense(b, s.workspaces[i]))
    && (forall i :: 0 <= i < |s.fixtures| && !IsShadowed(s.workspaces, s.fixtures[i].name) ==>
          CarriesLicense(b, s.fixtures[i]))
  }

  lemma {:induction false} LicensesHoldExactly(b: Boundary, s: State)
    ensures LicensesHold(b, s) <==> Carries(b, s)
  {
    forall i | 0 <= i < |s.fixtures|
      ensures Tracked(s, s.fixtures[i]) <==> !IsShadowed(s.workspaces, s.fixtures[i].name)
    {
      ShadowedIsUntracked(s, s.fixtures[i]);
    }
  }

  /** A license application sets license and text at the root and in every released or license-only workspace. */
  predicate LicenseFollows(b: Boundary, before: State, after: State) {
    && |after.workspaces| == |before.workspaces|
    && after == before.(workspaces := after.workspaces, license := RootLicense(Some("MIT"), Some(b.text)))
    && forall i :: 0 <= i < |before.workspaces| ==>
         var m := before.workspaces[i];
         after.workspaces[i] == if m.name in b.included || m.name in b.licenseOnly
           then Manifest(m.name, m.version, m.sections, Some("MIT"), Some(b.text)) else m
  }

  lemma {:induction false} LicensedFollows(b: Boundary, s: State)
    ensures LicenseFollows(b, s, Licensed(b, s))
  {
  }

  /** What is counted are the root file, the root field, and the workspaces that change. */
  lemma {:induction false} LicensesCounted(b: Boundary, ms: seq<Manifest>, n: nat)
    requires n <= |ms|
    ensures LicenseWrites(b, ms[..n]) == |DifferAt(ms, LicensedAll(b, ms), n)|
  {
    if n == 0 {
      assert DifferAt(ms, LicensedAll(b, ms), 0) == {};
    } else {
      LicensesCounted(b, ms, n - 1);
      OneMoreDiffers(ms, LicensedAll(b, ms), n - 1);
      assert ms[..n][..n - 1] == ms[..n - 1];
    }
  }

  lemma {:induction false} LicensedNames(b: Boundary, s: State)
    ensures NamesOf(Licensed(b, s).workspaces) == NamesOf(s.workspaces)
  {
  }

  lemma {:induction false} LicensingCommutes(b: Boundary, version: string, s: State)
    ensures Aligned(b, version, Licensed(b, s)) == Licensed(b, Aligned(b, version, s))
    ensures NoProblems(b, version, Licensed(b, s)) <==> NoProblems(b, version, s)
  {
    var licensed := Licensed(b, s);
    LicensedNames(b, s);
    assert Aligned(b, version, licensed).workspaces == Licensed(b, Aligned(b, version, s)).workspaces;
    assert Aligned(b, version, licensed).fixtures == Aligned(b, version, s).fixtures;
    forall i | 0 <= i < |s.workspaces|
      ensures CleanWorkspace(b, version, licensed.workspaces[i]) <==> CleanWorkspace(b, version, s.workspaces[i]) {
    }
  }

  /** What the check looks at. */
  ghost predicate Passes(b: Boundary, version: string, s: State) {
    NoProblems(b, version, s) && Aligned(b, version, s) == s && LicensesHold(b, s)
  }

  lemma {:induction false} LicensesAfterBoth(b: Boundary, version: string, s: State)
    ensures LicensesHold(b, Licensed(b, Aligned(b, version, s))) <==> FixtureLicensesHold(b, s)
  {
    var both := Licensed(b, Aligned(b, version, s));
    AlignedNames(b, version, s);
    LicensedNames(b, Aligned(b, version, s));
    forall i | 0 <= i < |s.fixtures|
      ensures Tracked(both, both.fixtures[i]) <==> Tracked(s, s.fixtures[i])
      ensures LicenseHolds(b, both.fixtures[i]) <==> LicenseHolds(b, s.fixtures[i]) {
    }
  }

  /**
   After an unblocked application and the license application the check passes exactly when the project version
   settles and no fixture that carries the name of a license target lacks its license, which nothing repairs.
   */
  lemma {:induction false} BothApplicationsPass(b: Boundary, version: string, s: State)
    requires IsTargetVersion(version) && NoProblems(b, version, s)
    ensures Passes(b, version, Licensed(b, Aligned(b, version, s)))
      <==> ProjectConverges(version, s.project) && FixtureLicensesHold(b, s)
  {
    var once := Aligned(b, version, s);
    LicensingCommutes(b, version, once);
    LicensesAfterBoth(b, version, s);
    ApplyConverges(b, version, s);
    NoDriftMeansAligned(b, version, once);
    if ProjectConverges(version, s.project) {
      assert Aligned(b, version, once) == once;
    } else if NoProblems(b, version, once) {
      assert Aligned(b, version, once) != once;
      ProjectTellsApart(b, version, s);
    }
  }

  /** If alignment would still change an aligned repository, it is the project file. */
  lemma {:induction false} ProjectTellsApart(b: Boundary, version: string, s: State)
    requires IsTargetVersion(version)
    ensures var once := Aligned(b, version, s);
      Aligned(b, version, once) != once ==> Aligned(b, version, once).project != once.project
  {
    AlignedManifestsAreAligned(b, version, s);
    AlignedImageIsAligned(version, s.image);
  }

  // ----- The planner -----------------------------------------------------------------------------------------------

  /** The inner loops over one dependency section: what to change, and what is wrong. */
  method PlanSection(b: Boundary, version: string, section: nat, deps: seq<Dep>) returns (changes: seq<DepChange>)
    ensures changes == SectionChanges(b, version, section, deps)
  {
    changes := [];
    assert deps[..0] == [];
    for j := 0 to |deps|
      invariant changes == SectionChanges(b, version, section, deps[..j])
    {
      var dep := deps[j];
      SectionChangesStep(b, version, section, deps, j);
      if dep.range != ExpectedRange(b, version, dep) {
        changes := changes + [DepChange(section, dep.name, ExpectedRange(b, version, dep))];
      }
    }
    assert deps[..|deps|] == deps;
  }

  method JudgeSection(b: Boundary, version: string, scanned: bool, bounded: bool, deps: seq<Dep>) returns (clean: bool)
    ensures clean <==> CleanDeps(b, version, scanned, bounded, deps)
  {
    clean := true;
    for j := 0 to |deps|
      invariant clean <==> forall k :: 0 <= k < j ==> !DepProblem(b, version, scanned, bounded, deps[k])
    {
      var dep := deps[j];
      if scanned && Unexpected(b, dep) {
        clean := false;
      }
      if bounded && OnVersion(b, version, dep) {
        clean := false;
      }
    }
  }

  function Join(a: seq<string>, b: seq<string>): (r: seq<string>)
    ensures r == [] <==> a == [] && b == []
  {
    if b == [] then a else a + b
  }

  /** The loops over the dependency sections of a manifest. */
  method PlanSections(b: Boundary, version: string, sections: seq<Option<seq<Dep>>>)
      returns (changes: seq<seq<DepChange>>)
    ensures changes == Changes(b, version, sections)
  {
    changes := [];
    ghost var goal := Changes(b, version, sections);
    for i := 0 to |sections|
      invariant changes == goal[..i]
    {
      var found := PlanSection(b, version, i, DepsOf(sections[i]));
      changes := changes + [found];
    }
  }

  method JudgeSections(b: Boundary, version: string, scanned: bool, bounded: bool, sections: seq<Option<seq<Dep>>>)
    returns (clean: bool)
    ensures clean <==> CleanSections(b, version, scanned, bounded, sections)
  {
    clean := true;
    for i := 0 to |sections|
      invariant clean <==> forall k :: 0 <= k < i ==> CleanDeps(b, version, scanned, bounded, DepsOf(sections[k]))
    {
      var fine := JudgeSection(b, version, scanned, bounded, DepsOf(sections[i]));
      clean := clean && fine;
    }
  }

  method ScanWorkspace(b: Boundary, version: string, m: Manifest) returns (entry: Entry, problems: seq<string>)
    ensures entry == WorkspaceEntry(b, version, m)
    ensures problems == [] <==> CleanWorkspace(b, version, m)
  {
    var changes := PlanSections(b, version, m.sections);
    var clean := JudgeSections(b, version, IsTarget(b, m.name), m.name in b.included, m.sections);
    problems := if clean then []
      else ["a dependency of " + m.name + " is unexpected, or excluded and at the release version"];
    if m.name !in b.included && m.name in b.excluded && m.name !in b.licenseOnly && m.version == version {
      problems := problems + ["excluded package " + m.name + " at the release version"];
    }
    entry := Entry(m.name in b.included && m.version != version, if IsTarget(b, m.name) then changes else []);
  }

  function FixtureEntry(b: Boundary, version: string, s: State, m: Manifest): Option<Entry> {
    if Tracked(s, m) then Some(Entry(false, Changes(b, version, m.sections))) else None
  }

  datatype Plan = Plan(
    rootChanged: bool, workspaces: seq<Entry>, fixtures: seq<Option<Entry>>, image: Option<string>,
    project: Option<string>, problems: seq<string>)

  /** The plan says what alignment would change, and its problem list is empty exactly when nothing blocks it. */
  ghost predicate PlanFits(b: Boundary, version: string, s: State, plan: Plan) {
    && plan.rootChanged == (s.rootVersion != version)
    && |plan.workspaces| == |s.workspaces|
    && (forall i :: 0 <= i < |s.workspaces| ==> plan.workspaces[i] == WorkspaceEntry(b, version, s.workspaces[i]))
    && |plan.fixtures| == |s.fixtures|
    && (forall i :: 0 <= i < |s.fixtures| ==> plan.fixtures[i] == FixtureEntry(b, version, s, s.fixtures[i]))
    && plan.image == (if AlignedImage(version, s.image) == s.image then None else AlignedImage(version, s.image))
    && plan.project == (if ProjectDrifts(version, s.project) then AlignedProject(version, s.project) else None)
    && (plan.problems == [] <==> NoProblems(b, version, s))
  }

  method PlanWorkspaces(b: Boundary, version: string, ms: seq<Manifest>)
      returns (entries: seq<Entry>, problems: seq<string>)
    ensures |entries| == |ms| && forall i :: 0 <= i < |ms| ==> entries[i] == WorkspaceEntry(b, version, ms[i])
    ensures problems == [] <==> forall i :: 0 <= i < |ms| ==> CleanWorkspace(b, version, ms[i])
  {
    entries, problems := [], [];
    for i := 0 to |ms|
      invariant |entries| == i && forall k :: 0 <= k < i ==> entries[k] == WorkspaceEntry(b, version, ms[k])
      invariant problems == [] <==> forall k :: 0 <= k < i ==> CleanWorkspace(b, version, ms[k])
    {
      var entry, wrong := ScanWorkspace(b, version, ms[i]);
      entries := entries + [entry];
      problems := Join(problems, wrong);
    }
  }

  method PlanFixtures(b: Boundary, version: string, s: State)
      returns (entries: seq<Option<Entry>>, problems: seq<string>)
    ensures |entries| == |s.fixtures|
    ensures forall i :: 0 <= i < |s.fixtures| ==> entries[i] == FixtureEntry(b, version, s, s.fixtures[i])
    ensures problems == []
      <==> forall i :: 0 <= i < |s.fixtures| && Tracked(s, s.fixtures[i]) ==> CleanFixture(b, version, s.fixtures[i])
  {
    entries, problems := [], [];
    for i := 0 to |s.fixtures|
      invariant |entries| == i
      invariant forall k :: 0 <= k < i ==> entries[k] == FixtureEntry(b, version, s, s.fixtures[k])
      invariant problems == []
        <==> forall k :: 0 <= k < i && Tracked(s, s.fixtures[k]) ==> CleanFixture(b, version, s.fixtures[k])
    {
      if Tracked(s, s.fixtures[i]) {
        var changes := PlanSections(b, version, s.fixtures[i].sections);
        var clean := JudgeSections(b, version, true, true, s.fixtures[i].sections);
        entries := entries + [Some(Entry(false, changes))];
        if !clean {
          problems := problems + ["a dependency of fixture " + s.fixtures[i].name + " is unexpected or excluded"];
        }
      } else {
        entries := entries + [None];
      }
    }
  }

  /** The image part of the plan. */
  method PlanImage(version: string, image: Option<string>) returns (updated: Option<string>)
    requires IsTargetVersion(version)
    ensures updated == if AlignedImage(version, image) == image then None else AlignedImage(version, image)
  {
    if image.None? || IsDevelopment(version) {
      return None;
    }
    var content, changed := ImageTags.UpdateImageTags(image.value, version);
    ImageTags.RetagChangesNothing(image.value, version);
    return if changed then Some(content) else None;
  }

  /** `planRuntimeMetadata`. */
  method PlanProject(version: string, project: Option<string>)
      returns (updated: Option<string>, problems: seq<string>)
    ensures updated == if ProjectDrifts(version, project) then AlignedProject(version, project) else None
    ensures problems == []
      <==> (project.Some? ==> !ProjectVersion.Planned(project.value, version).NoVersion?)
  {
    if project.None? {
      return None, [];
    }
    match ProjectVersion.Planned(project.value, version) {
      case NoVersion => return None, ["pyproject.toml has no project version"];
      case UpToDate => return None, [];
      case Change(_, text) => return Some(text), [];
    }
  }

  method ComputeChangePlan(b: Boundary, version: string, s: State) returns (plan: Plan)
    requires IsTargetVersion(version)
    ensures PlanFits(b, version, s, plan)
  {
    hide ProjectVersion.Planned, ProjectSettles.Applied, CleanWorkspace, CleanFixture, GroupsHold;
    var workspaces, problems := PlanWorkspaces(b, version, s.workspaces);
    var fixtures, wrong := PlanFixtures(b, version, s);
    var drifted := CheckWorkspaceGroups(b, NamesOf(s.workspaces), s.groups);
    var image := PlanImage(version, s.image);
    var missing := if s.image.None? && !IsDevelopment(version) then ["image config not found"] else [];
    var project, unversioned := PlanProject(version, s.project);
    plan := Plan(s.rootVersion != version, workspaces, fixtures, image, project,
      Join(Join(Join(problems, wrong), Join(drifted, missing)), unversioned));
  }

  /** The lists differ somewhere before position n. */
  predicate Differ(a: seq<Manifest>, b: seq<Manifest>, n: nat)
    requires n <= |a| == |b|
  {
    exists k :: 0 <= k < n && a[k] != b[k]
  }

  // ----- The application --------------------------------------------------------------------

  /** One workspace file: its manifest after the entry, and whether the file is written. */
  method WriteWorkspace(b: Boundary, version: string, m: Manifest, entry: Entry)
      returns (after: Manifest, written: bool)
    requires IsVersion(version) && WellFormed(m) && entry == WorkspaceEntry(b, version, m)
    ensures after == AlignedWorkspace(b, version, m) && (written <==> after != m)
  {
    WorkspaceEntryAligns(b, version, m);
    return ApplyEntry(version, m, entry), Writes(entry);
  }

  /** One fixture file; one that a workspace shadows is not touched. */
  method WriteFixture(b: Boundary, version: string, ghost s: State, i: nat, m: Manifest, entry: Option<Entry>)
    returns (after: Manifest, written: bool)
    requires IsVersion(version) && i < |s.fixtures| && m == s.fixtures[i] && WellFormed(m)
    requires entry == FixtureEntry(b, version, s, m)
    ensures after == AlignedFixtures(b, version, s)[i] && (written <==> after != m)
    ensures FixtureWrites(b, version, s, i + 1) == FixtureWrites(b, version, s, i) + (if written then 1 else 0)
  {
    FixtureEntryAligns(b, version, m);
    if entry.None? {
      return m, false;
    }
    return ApplyEntry(version, m, entry.value), !Nothing(entry.value.changes);
  }

  method WorkspacesDrift(b: Boundary, version: string, ms: seq<Manifest>, entries: seq<Entry>) returns (drift: bool)
    requires IsVersion(version) && |entries| == |ms|
    requires forall i :: 0 <= i < |ms| ==> WellFormed(ms[i]) && entries[i] == WorkspaceEntry(b, version, ms[i])
    ensures drift <==> Differ(ms, AlignedWorkspaces(b, version, ms), |ms|)
  {
    drift := false;
    ghost var aligned := AlignedWorkspaces(b, version, ms);
    for i := 0 to |ms|
      invariant drift <==> Differ(ms, aligned, i)
    {
      WorkspaceEntryAligns(b, version, ms[i]);
      drift := drift || Writes(entries[i]);
    }
  }

  method FixturesDrift(b: Boundary, version: string, s: State, entries: seq<Option<Entry>>) returns (drift: bool)
    requires IsVersion(version) && Sound(s) && |entries| == |s.fixtures|
    requires forall i :: 0 <= i < |s.fixtures| ==> entries[i] == FixtureEntry(b, version, s, s.fixtures[i])
    ensures drift <==> Differ(s.fixtures, AlignedFixtures(b, version, s), |s.fixtures|)
  {
    drift := false;
    ghost var aligned := AlignedFixtures(b, version, s);
    for i := 0 to |s.fixtures|
      invariant drift <==> Differ(s.fixtures, aligned, i)
    {
      FixtureEntryAligns(b, version, s.fixtures[i]);
      drift := drift || (entries[i].Some? && !Nothing(entries[i].value.changes));
    }
  }

  /** The list after its first i entries have been written. */
  ghost predicate WorkspaceEntries(b: Boundary, version: string, ms: seq<Manifest>, entries: seq<Entry>) {
    |entries| == |ms| && forall i :: 0 <= i < |ms| ==> entries[i] == WorkspaceEntry(b, version, ms[i])
  }

  ghost predicate FixtureEntries(b: Boundary, version: string, s: State, entries: seq<Option<Entry>>) {
    |entries| == |s.fixtures|
    && forall i :: 0 <= i < |s.fixtures| ==> entries[i] == FixtureEntry(b, version, s, s.fixtures[i])
  }

  lemma {:induction false} FixtureEntryAt(
      b: Boundary, version: string, s: State, entries: seq<Option<Entry>>, i: nat)
    requires FixtureEntries(b, version, s, entries) && i < |entries|
    ensures entries[i] == FixtureEntry(b, version, s, s.fixtures[i])
  {
  }

  function Written(goal: seq<Manifest>, start: seq<Manifest>, i: nat): (now: seq<Manifest>)
    requires i <= |goal| == |start|
    ensures |now| == |start|
  {
    if i == 0 then start else Written(goal, start, i - 1)[i - 1 := goal[i - 1]]
  }

  lemma {:induction false} WrittenAt(goal: seq<Manifest>, start: seq<Manifest>, i: nat, k: nat)
    requires i <= |goal| == |start| && k < |start|
    ensures Written(goal, start, i)[k] == if k < i then goal[k] else start[k]
  {
    if i > 0 {
      WrittenAt(goal, start, i - 1, k);
    }
  }

  lemma {:induction false} AllWritten(goal: seq<Manifest>, start: seq<Manifest>)
    requires |goal| == |start|
    ensures Written(goal, start, |goal|) == goal
  {
    forall k | 0 <= k < |goal|
      ensures Written(goal, start, |goal|)[k] == goal[k]
    {
      WrittenAt(goal, start, |goal|, k);
    }
  }

  class Repository {
    var rootVersion: string
    const groups: Groups
    var workspaces: seq<Manifest>
    var fixtures: seq<Manifest>
    var image: Option<string>
    var project: Option<string>
    var license: RootLicense

    function Now(): State reads this { State(rootVersion, groups, workspaces, fixtures, image, project, license) }

    /** Step 2: workspace manifests, one file after another. */
    method ApplyWorkspaces(b: Boundary, version: string, entries: seq<Entry>) returns (modified: nat)
      requires IsVersion(version) && Sound(Now())
      requires WorkspaceEntries(b, version, workspaces, entries)
      modifies this`workspaces
      ensures workspaces == AlignedWorkspaces(b, version, old(workspaces))
      ensures modified == WorkspaceWrites(b, version, old(workspaces))
    {
      modified := 0;
      ghost var start, goal := workspaces, AlignedWorkspaces(b, version, workspaces);
      assert forall k :: 0 <= k < |start| ==> WellFormed(start[k]);
      for i := 0 to |entries|
        invariant modified == WorkspaceWrites(b, version, start[..i])
        invariant workspaces == Written(goal, start, i)
      {
        var written := ApplyWorkspace(b, version, start, goal, i, entries[i]);
        if written {
          modified := modified + 1;
        }
      }
      AllWritten(goal, start);
      assert start[..|start|] == start;
    }

    /** Workspace i, the ones before it being done. */
    method ApplyWorkspace(
        b: Boundary, version: string, ghost start: seq<Manifest>, ghost goal: seq<Manifest>, i: nat, entry: Entry)
      returns (written: bool)
      requires IsVersion(version) && i < |start| == |goal| && WellFormed(start[i])
      requires goal == AlignedWorkspaces(b, version, start) && entry == WorkspaceEntry(b, version, start[i])
      requires workspaces == Written(goal, start, i)
      modifies this`workspaces
      ensures workspaces == Written(goal, start, i + 1)
      ensures WorkspaceWrites(b, version, start[..i + 1])
        == WorkspaceWrites(b, version, start[..i]) + (if written then 1 else 0)
    {
      WrittenAt(goal, start, i, i);
      assert start[..i + 1][..i] == start[..i];
      var after;
      after, written := WriteWorkspace(b, version, workspaces[i], entry);
      if written {
        workspaces := workspaces[i := after];
      }
    }

    /** Step 3: fixture manifests. */
    method ApplyFixtures(b: Boundary, version: string, entries: seq<Option<Entry>>, ghost s: State)
        returns (modified: nat)
      requires IsVersion(version) && fixtures == s.fixtures && FixtureEntries(b, version, s, entries)
      requires forall i :: 0 <= i < |s.fixtures| ==> WellFormed(s.fixtures[i])
      modifies this`fixtures
      ensures fixtures == AlignedFixtures(b, version, s)
      ensures modified == FixtureWrites(b, version, s, |s.fixtures|)
    {
      modified := 0;
      ghost var goal := AlignedFixtures(b, version, s);
      for i := 0 to |entries|
        invariant modified == FixtureWrites(b, version, s, i)
        invariant fixtures == Written(goal, s.fixtures, i)
      {
        FixtureEntryAt(b, version, s, entries, i);
        var written := ApplyFixture(b, version, s, goal, i, entries[i]);
        if written {
          modified := modified + 1;
        }
      }
      AllWritten(goal, s.fixtures);
    }

    /** Fixture i, the ones before it being done. */
    method ApplyFixture(
        b: Boundary, version: string, ghost s: State, ghost goal: seq<Manifest>, i: nat, entry: Option<Entry>)
      returns (written: bool)
      requires IsVersion(version) && i < |s.fixtures| == |goal| && WellFormed(s.fixtures[i])
      requires goal == AlignedFixtures(b, version, s) && entry == FixtureEntry(b, version, s, s.fixtures[i])
      requires fixtures == Written(goal, s.fixtures, i)
      modifies this`fixtures
      ensures fixtures == Written(goal, s.fixtures, i + 1)
      ensures FixtureWrites(b, version, s, i + 1) == FixtureWrites(b, version, s, i) + (if written then 1 else 0)
    {
      WrittenAt(goal, s.fixtures, i, i);
      var after;
      after, written := WriteFixture(b, version, s, i, fixtures[i], entry);
      if written {
        fixtures := fixtures[i := after];
      }
    }

    /** Steps 4 and 5: the project file of the Python runner and the image configuration. */
    method ApplyTexts(newProject: Option<string>, newImage: Option<string>) returns (modified: nat)
      modifies this`project, this`image
      ensures project == if newProject.Some? then newProject else old(project)
      ensures image == if newImage.Some? then newImage else old(image)
      ensures modified == (if newProject.Some? then 1 else 0) + if newImage.Some? then 1 else 0
    {
      modified := 0;
      if newProject.Some? {
        project := newProject;
        modified := modified + 1;
      }
      if newImage.Some? {
        image := newImage;
        modified := modified + 1;
      }
    }

    /** The writes of a plan, file by file; each is counted. */
    method WritePlan(b: Boundary, version: string, plan: Plan, ghost s: State) returns (modified: nat)
      requires IsTargetVersion(version) && Sound(s) && s == Now() && PlanFits(b, version, s, plan)
      modifies this
      ensures Now() == Aligned(b, version, s) && modified == Drift(b, version, s)
    {
      hide ProjectVersion.Planned, ProjectSettles.Applied, NoProblems, WorkspaceEntry, FixtureEntry, WellFormed,
        WorkspaceWrites, FixtureWrites;
      DriftChangesProject(version, project);
      modified := 0;
      if plan.rootChanged {
        rootVersion := version;
        modified := modified + 1;
      }
      var n := ApplyWorkspaces(b, version, plan.workspaces);
      modified := modified + n;
      n := ApplyFixtures(b, version, plan.fixtures, s);
      modified := modified + n;
      n := ApplyTexts(plan.project, plan.image);
      modified := modified + n;
    }

    /** A blocked application writes nothing; an unblocked one leaves the aligned repository. */
    method ApplyChanges(b: Boundary, version: string) returns (ok: bool, modified: nat)
      requires IsTargetVersion(version) && Sound(Now())
      modifies this
      ensures ok <==> NoProblems(b, version, old(Now()))
      ensures !ok ==> Now() == old(Now()) && modified == 0
      ensures ok ==> Now() == Aligned(b, version, old(Now())) && modified == Drift(b, version, old(Now()))
      ensures ok ==> Follows(b, version, old(Now()), Now()) && modified == Differences(old(Now()), Now())
    {
      hide Follows, ProjectVersion.Planned, ProjectSettles.Applied, NoProblems;
      DriftCountsDifferences(b, version, Now());
      var plan := ComputeChangePlan(b, version, Now());
      if plan.problems != [] {
        return false, 0;
      }
      ok := true;
      AlignedFollows(b, version, Now());
      modified := WritePlan(b, version, plan, Now());
    }

    /** The license loops of `checkLicenseState`, over the workspaces and the fixtures of the plan. */
    method CheckLicenses(b: Boundary) returns (ok: bool)
      ensures ok <==> LicensesHold(b, Now())
    {
      ok := license.file == Some(b.text);
      for i := 0 to |workspaces|
        invariant ok <==> license.file == Some(b.text) && forall k :: 0 <= k < i ==> LicenseHolds(b, workspaces[k])
      {
        ok := ok && LicenseHolds(b, workspaces[i]);
      }
      ghost var before := ok;
      for i := 0 to |fixtures|
        invariant ok <==>
          before && forall k :: 0 <= k < i && Tracked(Now(), fixtures[k]) ==> LicenseHolds(b, fixtures[k])
      {
        ok := ok && (Tracked(Now(), fixtures[i]) ==> LicenseHolds(b, fixtures[i]));
      }
    }

    /** `check` passes exactly on an aligned repository without problems, with its licenses in place. */
    method Check(b: Boundary, version: string) returns (ok: bool)
      requires b.Valid() && IsTargetVersion(version) && Sound(Now())
      ensures ok <==> NoProblems(b, version, Now()) && Aligned(b, version, Now()) == Now() && LicensesHold(b, Now())
      ensures ok ==> Follows(b, version, Now(), Now()) && Carries(b, Now())
    {
      hide Follows, ProjectVersion.Planned, ProjectSettles.Applied, CleanWorkspace, CleanFixture, GroupsHold, Carries;
      var plan := ComputeChangePlan(b, version, Now());
      var first := WorkspacesDrift(b, version, workspaces, plan.workspaces);
      var second := FixturesDrift(b, version, Now(), plan.fixtures);
      DriftChangesProject(version, project);
      AlignedFollows(b, version, Now());
      LicensesHoldExactly(b, Now());
      var licensed := CheckLicenses(b);
      var hasDrift := plan.rootChanged || first || second || plan.image.Some? || plan.project.Some?
        || plan.problems != [];
      return !hasDrift && licensed;
    }

    /** `applyLicenses`: the root first, then one workspace after another. */
    method ApplyLicenses(b: Boundary) returns (modified: nat)
      modifies this`license, this`workspaces
      ensures Now() == Licensed(b, old(Now())) && LicenseFollows(b, old(Now()), Now())
      ensures modified == |DifferAt(old(workspaces), workspaces, |workspaces|)|
        + (if old(license).file == license.file then 0 else 1) + (if old(license).field == license.field then 0 else 1)
    {
      modified := RootWrites(b, license);
      license := RootLicense(Some(LICENSE), Some(b.text));
      ghost var start, goal := workspaces, LicensedAll(b, workspaces);
      for i := 0 to |workspaces|
        invariant workspaces == Written(goal, start, i) && license == RootLicense(Some(LICENSE), Some(b.text))
        invariant modified == RootWrites(b, old(license)) + LicenseWrites(b, start[..i])
      {
        assert start[..i + 1][..i] == start[..i];
        WrittenAt(goal, start, i, i);
        var after := LicensedOne(b, workspaces[i]);
        if after != workspaces[i] {
          workspaces := workspaces[i := after];
          modified := modified + 1;
        }
      }
      AllWritten(goal, start);
      assert start[..|start|] == start;
      LicensesCounted(b, start, |start|);
      LicensedFollows(b, old(Now()));
    }
  }
}
