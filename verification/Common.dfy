/** Small vocabulary shared by the models: optional values, outcomes, and facts about sequences. */
module Common {

  datatype Option<+T> = None | Some(value: T)

  /** Result of a check that either passes or throws. */
  datatype Outcome = Pass | Fail(reason: string)

  /** `part` stands in `text` at position i. */
  predicate OccursAt<T(==)>(text: seq<T>, part: seq<T>, i: int) {
    0 <= i <= |text| - |part| && text[i..i + |part|] == part
  }

  /** JavaScript `text.includes(part)`. */
  predicate Contains<T(==)>(text: seq<T>, part: seq<T>) {
    exists i | 0 <= i <= |text| :: OccursAt(text, part, i)
  }

  /** No element occurs twice. */
  ghost predicate Distinct<T>(s: seq<T>) {
    forall i, j :: 0 <= i < j < |s| ==> s[i] != s[j]
  }

  function ToSet<T(==)>(s: seq<T>): set<T> {
    set x | x in s
  }

  /** JavaScript `new Set(s).size === s.length`: the two sizes agree exactly when nothing repeats. */
  lemma {:induction false} SizeTestIsDistinctness<T>(s: seq<T>)
    ensures |ToSet(s)| <= |s|
    ensures |ToSet(s)| == |s| <==> Distinct(s)
  {
    if s != [] {
      var front, last := s[..|s| - 1], s[|s| - 1];
      SizeTestIsDistinctness(front);
      assert s == front + [last];
      assert ToSet(s) == ToSet(front) + {last};
      if last in front {
        var i :| 0 <= i < |front| && front[i] == last;
        assert s[i] == s[|s| - 1];
        assert ToSet(s) == ToSet(front);
      } else {
        assert |ToSet(s)| == |ToSet(front)| + 1;
        if Distinct(front) {
          assert forall i :: 0 <= i < |front| ==> s[i] == front[i] && front[i] in front;
        } else {
          var i, j :| 0 <= i < j < |front| && front[i] == front[j];
          assert s[i] == s[j];
        }
      }
    }
  }

  /** A subset with the same number of elements is the whole set. */
  lemma {:induction false} SubsetOfSameSize<T>(a: set<T>, b: set<T>)
    requires a <= b && |a| >= |b|
    ensures a == b
  {
    if a != b {
      var x :| x in b && x !in a;
      assert a <= b - {x};
      SubsetSize(a, b - {x});
    }
  }

  lemma {:induction false} SubsetSize<T>(a: set<T>, b: set<T>)
    requires a <= b
    ensures |a| <= |b|
  {
    if a != {} {
      var x :| x in a;
      SubsetSize(a - {x}, b - {x});
    }
  }

  /** `s` lists every member of `members` exactly once and nothing else. */
  ghost predicate Enumerates<T>(s: seq<T>, members: set<T>) {
    multiset(s) == multiset(members)
  }

  lemma {:induction false} DistinctMultiset<T>(s: seq<T>)
    requires Distinct(s)
    ensures multiset(s) == multiset(ToSet(s))
  {
    if s != [] {
      var front, last := s[..|s| - 1], s[|s| - 1];
      assert s == front + [last];
      assert forall i :: 0 <= i < |front| ==> front[i] == s[i];
      DistinctMultiset(front);
      assert last !in front;
      assert ToSet(s) == ToSet(front) + {last};
    }
  }

  lemma {:induction false} EnumeratesMeansDistinct<T>(s: seq<T>, members: set<T>)
    ensures Enumerates(s, members) <==> Distinct(s) && ToSet(s) == members
  {
    if Enumerates(s, members) {
      forall x ensures x in ToSet(s) <==> x in members {
        assert x in ToSet(s) <==> x in multiset(s);
      }
      forall i, j | 0 <= i < j < |s| ensures s[i] != s[j] {
        if s[i] == s[j] {
          TwiceInMultiset(s, i, j);
        }
      }
    }
    if Distinct(s) && ToSet(s) == members {
      DistinctMultiset(s);
    }
  }

  lemma {:induction false} TwiceInMultiset<T>(s: seq<T>, i: int, j: int)
    requires 0 <= i < j < |s| && s[i] == s[j]
    ensures multiset(s)[s[i]] >= 2
  {
    assert s == s[..j] + [s[j]] + s[j + 1..];
    assert s[i] in s[..j];
  }

  /**
   The counting test the release scripts use: no repetition, the right number, and every entry
   expected.  It is exactly the test that the expected members are enumerated.
   */
  lemma {:induction false} CountingTest<T>(actual: seq<T>, expected: set<T>)
    ensures (|ToSet(actual)| == |actual| && |actual| == |expected| && forall x :: x in actual ==> x in expected)
      <==> Enumerates(actual, expected)
  {
    SizeTestIsDistinctness(actual);
    EnumeratesMeansDistinct(actual, expected);
    if |ToSet(actual)| == |actual| && |actual| == |expected| && forall x :: x in actual ==> x in expected {
      SubsetOfSameSize(ToSet(actual), expected);
    }
  }

  lemma {:induction false} EnumeratedLength<T>(s: seq<T>, members: set<T>)
    requires Enumerates(s, members)
    ensures |s| == |members|
  {
    EnumeratesMeansDistinct(s, members);
    SizeTestIsDistinctness(s);
  }

  // ----- Cutting and joining sequences --------------------------------------------------------

  lemma {:induction false} Associate<T>(a: seq<T>, b: seq<T>, c: seq<T>)
    ensures (a + b) + c == a + (b + c)
  {
  }

  lemma {:induction false} FrontAndLast<T>(s: seq<T>)
    requires s != []
    ensures s == s[..|s| - 1] + [s[|s| - 1]]
  {
  }

  lemma {:induction false} SnocFront<T>(s: seq<T>, x: T)
    ensures (s + [x])[..|s| + 1 - 1] == s && (s + [x])[|s|] == x
  {
  }

  lemma {:induction false} AddNothing<T>(s: seq<T>)
    ensures s + [] == s && [] + s == s
  {
  }

  lemma {:induction false} SplitAt<T>(s: seq<T>, i: nat, j: nat)
    requires i <= j <= |s|
    ensures s[i..] == s[i..j] + s[j..]
  {
  }

  lemma {:induction false} SliceSnoc<T>(s: seq<T>, i: nat, j: nat)
    requires i <= j < |s|
    ensures s[i..j + 1] == s[i..j] + [s[j]]
  {
  }

  lemma {:induction false} SliceCons<T>(s: seq<T>, i: nat, j: nat)
    requires i < j <= |s|
    ensures s[i..j] == [s[i]] + s[i + 1..j]
  {
  }

  lemma {:induction false} SliceOfSlice<T>(s: seq<T>, lo: nat, hi: nat, i: nat, j: nat)
    requires lo <= i <= j <= hi <= |s|
    ensures s[lo..hi][i - lo..j - lo] == s[i..j]
  {
    var slice, whole := s[lo..hi][i - lo..j - lo], s[i..j];
    forall k | 0 <= k < j - i
      ensures slice[k] == whole[k]
    {
      assert slice[k] == s[lo..hi][i - lo + k];
    }
  }
}
