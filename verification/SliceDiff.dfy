/** ContainsString, IsSliceEqual and GetArrayDiff of utils/util.go. */
module SliceDiff {
  import opened Text

  /** Some element of arr, trimmed, is elem; elem itself is not trimmed. */
  ghost predicate TrimsTo(arr: seq<string>, elem: string) {
    exists k :: 0 <= k < |arr| && TrimSpace(arr[k]) == elem
  }

  method ContainsString(arr: seq<string>, elem: string) returns (r: bool)
    ensures r <==> TrimsTo(arr, elem)
  {
    for i := 0 to |arr|
      invariant forall k :: 0 <= k < i ==> TrimSpace(arr[k]) != elem
    {
      if TrimSpace(arr[i]) == elem {
        return true;
      }
    }
    return false;
  }

  ghost predicate SliceEqual(slice1: seq<string>, slice2: seq<string>) {
    |slice1| == |slice2| && forall x :: x in slice1 ==> TrimsTo(slice2, x)
  }

  method IsSliceEqual(slice1: seq<string>, slice2: seq<string>) returns (r: bool)
    ensures r <==> SliceEqual(slice1, slice2)
  {
    if |slice1| != |slice2| {
      return false;
    }
    for i := 0 to |slice1|
      invariant forall k :: 0 <= k < i ==> TrimsTo(slice2, slice1[k])
    {
      var found := ContainsString(slice2, slice1[i]);
      if !found {
        return false;
      }
    }
    return true;
  }

  /** The items among the first n of `from` that no element of `other` trims to, in order and with repetitions. */
  ghost function LackingUpTo(from: seq<string>, other: seq<string>, n: nat): seq<string>
    requires n <= |from|
  {
    if n == 0 then []
    else LackingUpTo(from, other, n - 1) + if TrimsTo(other, from[n - 1]) then [] else [from[n - 1]]
  }

  ghost function Lacking(from: seq<string>, other: seq<string>): seq<string> {
    LackingUpTo(from, other, |from|)
  }

  lemma {:induction false} LackingMembers(from: seq<string>, other: seq<string>, n: nat, x: string)
    requires n <= |from|
    ensures x in LackingUpTo(from, other, n) <==> x in from[..n] && !TrimsTo(other, x)
  {
    if n > 0 {
      LackingMembers(from, other, n - 1, x);
      assert from[..n] == from[..n - 1] + [from[n - 1]];
    }
  }

  method GetArrayDiff(existingList: seq<string>, newList: seq<string>)
    returns (toCreate: seq<string>, toDelete: seq<string>)
    ensures toCreate == Lacking(newList, existingList)
    ensures toDelete == Lacking(existingList, newList)
  {
    toCreate, toDelete := [], [];
    for i := 0 to |newList|
      invariant toCreate == LackingUpTo(newList, existingList, i)
    {
      var found := ContainsString(existingList, newList[i]);
      if !found {
        toCreate := toCreate + [newList[i]];
      }
    }
    for i := 0 to |existingList|
      invariant toDelete == LackingUpTo(existingList, newList, i)
    {
      var found := ContainsString(newList, existingList[i]);
      if !found {
        toDelete := toDelete + [existingList[i]];
      }
    }
  }

  function Elems(s: seq<string>): set<string> {
    set x | x in s
  }

  /** The existing elements after the diff is applied. */
  ghost function Applied(existing: seq<string>, new': seq<string>): set<string> {
    (Elems(existing) - Elems(Lacking(existing, new'))) + Elems(Lacking(new', existing))
  }

  lemma AppliedMembers(existing: seq<string>, new': seq<string>, x: string)
    ensures x in Applied(existing, new') <==>
            (x in existing && TrimsTo(new', x)) || (x in new' && !TrimsTo(existing, x))
  {
    LackingMembers(existing, new', |existing|, x);
    LackingMembers(new', existing, |new'|, x);
    assert existing[..|existing|] == existing && new'[..|new'|] == new';
  }

  /** An element that the other list has up to white space, it has exactly. */
  ghost predicate ExactWhereTrimmed(a: seq<string>, b: seq<string>) {
    forall x :: x in a && TrimsTo(b, x) ==> x in b
  }

  /**
   The diff turns the existing elements into the new ones exactly when neither
   list has an element that the other one has only with white space around it.
   */
  lemma DiffReconcilesIff(existing: seq<string>, new': seq<string>)
    ensures Applied(existing, new') == Elems(new')
            <==> ExactWhereTrimmed(new', existing) && ExactWhereTrimmed(existing, new')
  {
    forall x ensures x in Applied(existing, new') <==>
                     (x in existing && TrimsTo(new', x)) || (x in new' && !TrimsTo(existing, x))
    {
      AppliedMembers(existing, new', x);
    }
    if Applied(existing, new') == Elems(new') {
      forall x | x in new' && TrimsTo(existing, x) ensures x in existing {
        assert x in Applied(existing, new');
      }
      forall x | x in existing && TrimsTo(new', x) ensures x in new' {
        assert x in Applied(existing, new');
      }
    } else if ExactWhereTrimmed(new', existing) && ExactWhereTrimmed(existing, new') {
      forall x | x in new' && TrimsTo(existing, x) ensures TrimsTo(new', x) {
        SharedIsTrimmed(existing, new', x);
      }
    }
  }

  lemma SharedIsTrimmed(a: seq<string>, b: seq<string>, x: string)
    requires TrimsTo(a, x) && x in b
    ensures TrimsTo(b, x)
  {
    var i :| 0 <= i < |a| && TrimSpace(a[i]) == x;
    TrimSpaceTrims(a[i]);
    var k :| 0 <= k < |b| && b[k] == x;
  }

  ghost predicate AllTrimmed(s: seq<string>) {
    forall k :: 0 <= k < |s| ==> Trimmed(s[k])
  }

  lemma TrimmedMembership(s: seq<string>, x: string)
    requires AllTrimmed(s)
    ensures TrimsTo(s, x) <==> x in s
  {
    forall k | 0 <= k < |s| ensures TrimSpace(s[k]) == s[k] { TrimSpaceTrims(s[k]); }
    if x in s {
      var k :| 0 <= k < |s| && s[k] == x;
      assert TrimSpace(s[k]) == x;
    }
  }

  lemma TrimmedLacking(from: seq<string>, other: seq<string>)
    requires AllTrimmed(other)
    ensures Elems(Lacking(from, other)) == Elems(from) - Elems(other)
  {
    forall x ensures x in Lacking(from, other) <==> x in from && x !in other {
      LackingMembers(from, other, |from|, x);
      TrimmedMembership(other, x);
      assert from[..|from|] == from;
    }
  }

  /** For trimmed slices: what is created was not there, and the diff reconciles. */
  lemma TrimmedDiffReconciles(existing: seq<string>, new': seq<string>)
    requires AllTrimmed(existing) && AllTrimmed(new')
    ensures Applied(existing, new') == Elems(new')
    ensures Elems(Lacking(new', existing)) == Elems(new') - Elems(existing)
    ensures Elems(Lacking(existing, new')) == Elems(existing) - Elems(new')
  {
    TrimmedLacking(existing, new');
    TrimmedLacking(new', existing);
  }

  ghost predicate NoDup(s: seq<string>) {
    forall i, j :: 0 <= i < j < |s| ==> s[i] != s[j]
  }

  lemma {:induction false} DistinctCount(s: seq<string>)
    requires NoDup(s)
    ensures |Elems(s)| == |s|
  {
    if s != [] {
      var init, last := s[..|s| - 1], s[|s| - 1];
      DistinctCount(init);
      assert s == init + [last];
      assert Elems(s) == Elems(init) + {last};
    }
  }

  lemma SubsetOfSameSize(a: set<string>, b: set<string>)
    requires a <= b && |a| == |b|
    ensures a == b
  {
    assert |b - a| == 0;
  }

  lemma EmptyElems(s: seq<string>)
    ensures s == [] <==> Elems(s) == {}
  {
    if s != [] { assert s[0] in Elems(s); }
  }

  lemma TrimmedEqual(slice1: seq<string>, slice2: seq<string>)
    requires AllTrimmed(slice2)
    ensures SliceEqual(slice1, slice2) <==> |slice1| == |slice2| && Elems(slice1) <= Elems(slice2)
  {
    forall x ensures TrimsTo(slice2, x) <==> x in slice2 { TrimmedMembership(slice2, x); }
    if Elems(slice1) <= Elems(slice2) {
      forall x | x in slice1 ensures x in slice2 { assert x in Elems(slice1); }
    }
  }

  /**
   Although only one inclusion is tested, for duplicate-free trimmed slices
   IsSliceEqual means that there is nothing to create and nothing to delete.
   */
  lemma EqualIffNoDiff(existing: seq<string>, new': seq<string>)
    requires AllTrimmed(existing) && AllTrimmed(new') && NoDup(existing) && NoDup(new')
    ensures SliceEqual(existing, new') <==> Lacking(new', existing) == [] && Lacking(existing, new') == []
  {
    TrimmedDiffReconciles(existing, new');
    TrimmedEqual(existing, new');
    EmptyElems(Lacking(new', existing));
    EmptyElems(Lacking(existing, new'));
    DistinctCount(existing);
    DistinctCount(new');
    if SliceEqual(existing, new') {
      SubsetOfSameSize(Elems(existing), Elems(new'));
    }
  }

  lemma {:induction false} AtMostCount(s: seq<string>)
    ensures |Elems(s)| <= |s|
  {
    if s != [] {
      var init, last := s[..|s| - 1], s[|s| - 1];
      AtMostCount(init);
      assert s == init + [last];
      assert Elems(s) == Elems(init) + {last};
    }
  }

  /** The test and the diff agree that nothing is to be done. */
  ghost predicate SameElements(a: seq<string>, b: seq<string>) {
    Lacking(b, a) == [] && Lacking(a, b) == []
  }

  lemma DistinctSlicesAreJudgedRight(a: seq<string>, b: seq<string>)
    requires AllTrimmed(a) && AllTrimmed(b) && NoDup(a) && SliceEqual(a, b)
    ensures SameElements(a, b)
  {
    TrimmedDiffReconciles(a, b);
    TrimmedEqual(a, b);
    DistinctCount(a);
    AtMostCount(b);
    SubsetIsLarge(Elems(a), Elems(b));
    EmptyElems(Lacking(b, a));
    EmptyElems(Lacking(a, b));
  }

  lemma SubsetIsLarge(a: set<string>, b: set<string>)
    requires a <= b && |b| <= |a|
    ensures a == b
  {
    assert b == a + (b - a);
  }

  /** A trimmed string longer than all in s. */
  lemma {:induction false} FreshString(s: seq<string>) returns (f: string)
    ensures Trimmed(f) && f != "" && forall k :: 0 <= k < |s| ==> |s[k]| < |f|
  {
    if s == [] {
      f := ['x'];
    } else {
      var n := |s| - 1;
      var g := FreshString(s[..n]);
      f := ['x'] + (if |g| > |s[n]| then g else s[n]) + ['x'];
      forall k | 0 <= k < |s| ensures |s[k]| < |f| {
        if k < n { assert s[..n][k] == s[k]; }
      }
    }
  }

  /** Replacing one of two equal elements by a fresh one goes unnoticed. */
  lemma RepeatedElementFoolsTheTest(a: seq<string>, i: nat, j: nat) returns (b: seq<string>)
    requires AllTrimmed(a) && i < j < |a| && a[i] == a[j]
    ensures AllTrimmed(b) && SliceEqual(a, b) && !SameElements(a, b)
  {
    var f := FreshString(a);
    b := a[j := f];
    forall x | x in a ensures x in b {
      var k :| 0 <= k < |a| && a[k] == x;
      assert b[if k == j then i else k] == x;
    }
    assert b[j] == f && f !in a;
    TrimmedEqual(a, b);
    TrimmedDiffReconciles(a, b);
    assert f in Elems(b) - Elems(a);
    EmptyElems(Lacking(b, a));
  }

  /** For a trimmed first slice, the length and one inclusion mean equality if and only if it has no duplicates. */
  lemma EqualityTestIsRightIff(a: seq<string>)
    requires AllTrimmed(a)
    ensures (forall b :: AllTrimmed(b) && SliceEqual(a, b) ==> SameElements(a, b)) <==> NoDup(a)
  {
    if NoDup(a) {
      forall b | AllTrimmed(b) && SliceEqual(a, b) ensures SameElements(a, b) {
        DistinctSlicesAreJudgedRight(a, b);
      }
    } else {
      var i, j :| 0 <= i < j < |a| && a[i] == a[j];
      var b := RepeatedElementFoolsTheTest(a, i, j);
    }
  }

  /** With duplicates it does not: these slices pass the test and differ. */
  lemma DuplicatesFoolTheTest()
    ensures SliceEqual(["a", "a"], ["a", "b"])
    ensures Lacking(["a", "b"], ["a", "a"]) == ["b"]
  {
    TrimSpaceTrims("a");
    assert TrimSpace(["a", "b"][0]) == "a" && TrimSpace(["a", "a"][0]) == "a";
    assert !TrimsTo(["a", "a"], "b") by { assert "b"[0] != "a"[0]; }
    var s := ["a", "b"];
    assert LackingUpTo(s, ["a", "a"], 1) == [];
    assert LackingUpTo(s, ["a", "a"], 2) == ["b"];
  }
}
