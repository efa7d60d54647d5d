/** The wave plan of a release and its validation (scripts/lib/release-boundary.js). */
module ReleaseWaves {
  import opened Common

  type Plan = seq<seq<string>>

  /** A built package and the first-party names its runtime dependency sections mention. */
  datatype Needs = Needs(name: string, dependencies: seq<string>)

  function Flatten(waves: Plan): seq<string> {
    if waves == [] then [] else waves[0] + Flatten(waves[1..])
  }

  lemma {:induction false} FlattenAppend(a: Plan, b: Plan)
    ensures Flatten(a + b) == Flatten(a) + Flatten(b)
  {
    if a == [] {
      assert a + b == b;
    } else {
      assert (a + b)[1..] == a[1..] + b;
      FlattenAppend(a[1..], b);
    }
  }

  /** The names met before position j of wave i, and those from there on. */
  lemma {:induction false} FlattenAt(waves: Plan, i: nat, j: nat)
    requires i < |waves| && j <= |waves[i]|
    ensures Flatten(waves) == (Flatten(waves[..i]) + waves[i][..j]) + (waves[i][j..] + Flatten(waves[i + 1..]))
  {
    assert waves == waves[..i] + waves[i..];
    FlattenAppend(waves[..i], waves[i..]);
    assert waves[i..][1..] == waves[i + 1..];
    assert waves[i] == waves[i][..j] + waves[i][j..];
    calc {
      Flatten(waves);
      Flatten(waves[..i]) + (waves[i] + Flatten(waves[i + 1..]));
      Flatten(waves[..i]) + ((waves[i][..j] + waves[i][j..]) + Flatten(waves[i + 1..]));
    }
  }

  lemma {:induction false} FlattenStep(waves: Plan, i: nat)
    requires i < |waves|
    ensures Flatten(waves[..i + 1]) == Flatten(waves[..i]) + waves[i]
  {
    assert waves[..i + 1] == waves[..i] + [waves[i]];
    FlattenAppend(waves[..i], [waves[i]]);
    assert Flatten([waves[i]]) == waves[i] + Flatten([]);
  }

  /** No wave is empty, and together they list every package of the boundary exactly once. */
  ghost predicate Partitions(waves: Plan, boundary: set<string>) {
    && waves != []
    && (forall i :: 0 <= i < |waves| ==> waves[i] != [])
    && Enumerates(Flatten(waves), boundary)
  }

  ghost predicate Earlier(waves: Plan, first: string, second: string) {
    exists i, j :: 0 <= i < j < |waves| && first in waves[i] && second in waves[j]
  }

  /** Every dependency inside the boundary is released in a strictly earlier wave. */
  ghost predicate DependencySafe(waves: Plan, boundary: set<string>, manifests: seq<Needs>) {
    forall m :: m in manifests ==> NeedsMetEarlier(waves, boundary, m)
  }

  ghost predicate NeedsMetEarlier(waves: Plan, boundary: set<string>, needs: Needs) {
    forall d :: d in needs.dependencies && d in boundary ==> Earlier(waves, d, needs.name)
  }

  ghost predicate Covers(manifests: seq<Needs>, boundary: set<string>) {
    && (forall m :: m in manifests ==> m.name in boundary)
    && forall name :: name in boundary ==> exists m :: m in manifests && m.name == name
  }

  /** Where each package is, as recorded while walking the plan. */
  ghost predicate Locates(waveOf: map<string, nat>, waves: Plan) {
    forall name :: name in waveOf ==> waveOf[name] < |waves| && name in waves[waveOf[name]]
  }

  lemma {:induction false} ExcludedByPrefix(waves: Plan, boundary: set<string>, i: nat, j: nat)
    requires i < |waves| && j < |waves[i]|
    requires waves[i][j] !in boundary || waves[i][j] in Flatten(waves[..i]) + waves[i][..j]
    ensures !Partitions(waves, boundary)
  {
    FlattenAt(waves, i, j);
    var flat, seen := Flatten(waves), Flatten(waves[..i]) + waves[i][..j];
    assert flat[|seen|] == waves[i][j];
    EnumeratesMeansDistinct(flat, boundary);
    if waves[i][j] in seen {
      var k :| 0 <= k < |seen| && seen[k] == waves[i][j];
      assert flat[k] == flat[|seen|];
    }
  }

  method LocatePackages(waves: Plan, boundary: set<string>) returns (r: Option<map<string, nat>>)
    ensures r.Some? <==> Partitions(waves, boundary)
    ensures r.Some? ==> r.value.Keys == boundary && Locates(r.value, waves)
  {
    if waves == [] {
      return None;
    }
    var waveOf: map<string, nat> := map[];
    for i := 0 to |waves|
      invariant forall k :: 0 <= k < i ==> waves[k] != []
      invariant Distinct(Flatten(waves[..i]))
      invariant waveOf.Keys == ToSet(Flatten(waves[..i])) && waveOf.Keys <= boundary
      invariant Locates(waveOf, waves)
    {
      if waves[i] == [] {
        return None;
      }
      ghost var before := Flatten(waves[..i]);
      assert before + waves[i][..0] == before;
      for j := 0 to |waves[i]|
        invariant Distinct(before + waves[i][..j])
        invariant waveOf.Keys == ToSet(before + waves[i][..j]) && waveOf.Keys <= boundary
        invariant Locates(waveOf, waves)
      {
        var name := waves[i][j];
        if name !in boundary || name in waveOf {
          ExcludedByPrefix(waves, boundary, i, j);
          return None;
        }
        assert before + waves[i][..j + 1] == (before + waves[i][..j]) + [name];
        waveOf := waveOf[name := i];
      }
      assert before + waves[i][..|waves[i]|] == before + waves[i];
      FlattenStep(waves, i);
    }
    assert waves[..|waves|] == waves;
    EnumeratesMeansDistinct(Flatten(waves), boundary);
    if exists name :: name in boundary && name !in waveOf {
      return None;
    }
    return Some(waveOf);
  }

  /** A plan passes exactly when it partitions the boundary in dependency order. */
  method ValidateReleaseWaves(waves: Plan, boundary: set<string>, manifests: Option<seq<Needs>>) returns (r: Outcome)
    ensures r.Pass? <==>
      && Partitions(waves, boundary)
      && (manifests.Some? ==> Covers(manifests.value, boundary) && DependencySafe(waves, boundary, manifests.value))
  {
    var located := LocatePackages(waves, boundary);
    if located.None? {
      return Fail("release waves do not partition the boundary");
    }
    if manifests.None? {
      return Pass;
    }
    var waveOf, needs := located.value, manifests.value;
    var names := set m | m in needs :: m.name;
    if exists name :: name in boundary && name !in names {
      return Fail("wave dependency validation is missing a package");
    }
    for i := 0 to |needs|
      invariant forall m :: m in needs[..i] ==> m.name in boundary && NeedsMetEarlier(waves, boundary, m)
    {
      if needs[i].name !in boundary {
        return Fail("package outside the release boundary");
      }
      var met := CheckNeeds(waves, boundary, waveOf, needs[i]);
      if !met {
        return Fail("dependency must be in an earlier wave");
      }
    }
    assert needs[..|needs|] == needs;
    return Pass;
  }

  method CheckNeeds(waves: Plan, boundary: set<string>, waveOf: map<string, nat>, needs: Needs) returns (ok: bool)
    requires Partitions(waves, boundary) && Locates(waveOf, waves) && waveOf.Keys == boundary
    requires needs.name in boundary
    ensures ok <==> NeedsMetEarlier(waves, boundary, needs)
  {
    var dependencies := needs.dependencies;
    for j := 0 to |dependencies|
      invariant forall d :: d in dependencies[..j] && d in boundary ==> Earlier(waves, d, needs.name)
    {
      if dependencies[j] in boundary {
        OneWaveEach(waves, boundary, waveOf, dependencies[j], needs.name);
        if waveOf[dependencies[j]] >= waveOf[needs.name] {
          return false;
        }
      }
    }
    return true;
  }

  lemma {:induction false} PositionInFlatten(waves: Plan, i: nat, name: string) returns (k: nat)
    requires i < |waves| && name in waves[i]
    ensures |Flatten(waves[..i])| <= k < |Flatten(waves[..i + 1])|
    ensures k < |Flatten(waves)| && Flatten(waves)[k] == name
  {
    var j :| 0 <= j < |waves[i]| && waves[i][j] == name;
    FlattenAt(waves, i, j);
    FlattenStep(waves, i);
    k := |Flatten(waves[..i])| + j;
  }

  lemma {:induction false} FlattenMonotone(waves: Plan, i: nat, j: nat)
    requires i <= j <= |waves|
    ensures |Flatten(waves[..i])| <= |Flatten(waves[..j])|
  {
    assert waves[..j] == waves[..i] + waves[i..j];
    FlattenAppend(waves[..i], waves[i..j]);
  }

  /** In a partition a package sits in one wave only, so comparing recorded waves decides order. */
  lemma {:induction false} OneWaveEach(
      waves: Plan, boundary: set<string>, waveOf: map<string, nat>, first: string, second: string)
    requires Partitions(waves, boundary) && Locates(waveOf, waves) && waveOf.Keys == boundary
    requires first in boundary && second in boundary
    ensures Earlier(waves, first, second) <==> waveOf[first] < waveOf[second]
  {
    EnumeratesMeansDistinct(Flatten(waves), boundary);
    forall i, name | 0 <= i < |waves| && name in waves[i] && name in boundary ensures waveOf[name] == i {
      var k := PositionInFlatten(waves, i, name);
      var k' := PositionInFlatten(waves, waveOf[name], name);
      assert k == k';
      if i < waveOf[name] { FlattenMonotone(waves, i + 1, waveOf[name]); }
      if waveOf[name] < i { FlattenMonotone(waves, waveOf[name] + 1, i); }
    }
  }
}
