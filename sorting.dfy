/**
  * Array.prototype.sort with a comparator of the form (a, b) => key(b) - key(a):
  * descending by an integer key and stable, as ECMAScript 2019 requires. The
  * specification is an insertion sort on sequences; SortedPermutationIsUnique
  * shows that every stable descending sort yields the same sequence, so the
  * engine's own algorithm does not matter.
  */
module Sorting {

  predicate SortedDesc<T>(s: seq<T>, key: T -> int) {
    forall i, j | 0 <= i < j < |s| :: key(s[i]) >= key(s[j])
  }

  /** The elements of s whose key is k, in their order in s. */
  function WithKey<T>(s: seq<T>, key: T -> int, k: int): seq<T> {
    if |s| == 0 then []
    else WithKey(s[..|s| - 1], key, k) + (if key(s[|s| - 1]) == k then [s[|s| - 1]] else [])
  }

  /** Inserts x after every element whose key is at least key(x). */
  function InsertDesc<T>(s: seq<T>, x: T, key: T -> int): (r: seq<T>)
    ensures multiset(r) == multiset(s) + multiset{x}
    decreases |s|
  {
    if |s| == 0 || key(s[|s| - 1]) >= key(x) then
      s + [x]
    else
      var init := s[..|s| - 1];
      assert s == init + [s[|s| - 1]];
      InsertDesc(init, x, key) + [s[|s| - 1]]
  }

  /** The stable descending sort of s by key. */
  function SortDesc<T>(s: seq<T>, key: T -> int): (r: seq<T>)
    ensures multiset(r) == multiset(s)
    decreases |s|
  {
    if |s| == 0 then []
    else
      assert s == s[..|s| - 1] + [s[|s| - 1]];
      InsertDesc(SortDesc(s[..|s| - 1], key), s[|s| - 1], key)
  }

  /** The sum of the keys: Array.prototype.reduce((sum, x) => sum + key(x), 0). */
  function KeySum<T>(s: seq<T>, key: T -> int): int {
    if |s| == 0 then 0 else KeySum(s[..|s| - 1], key) + key(s[|s| - 1])
  }

  // ---------------------------------------------------------------------------
  // Sorted

  lemma {:induction false} InsertDescSorted<T>(s: seq<T>, x: T, key: T -> int)
    requires SortedDesc(s, key)
    ensures SortedDesc(InsertDesc(s, x, key), key)
    decreases |s|
  {
    if |s| == 0 || key(s[|s| - 1]) >= key(x) {
    } else {
      var init := s[..|s| - 1];
      var y := s[|s| - 1];
      InsertDescSorted(init, x, key);
      var r := InsertDesc(init, x, key);
      forall i | 0 <= i < |r|
        ensures key(r[i]) >= key(y)
      {
        assert r[i] in multiset(r);
        assert r[i] in multiset(init) || r[i] == x;
        if r[i] != x {
          assert r[i] in init;
        }
      }
    }
  }

  lemma {:induction false} SortDescSorted<T>(s: seq<T>, key: T -> int)
    ensures SortedDesc(SortDesc(s, key), key)
    decreases |s|
  {
    if |s| > 0 {
      SortDescSorted(s[..|s| - 1], key);
      InsertDescSorted(SortDesc(s[..|s| - 1], key), s[|s| - 1], key);
    }
  }

  // ---------------------------------------------------------------------------
  // Stable

  lemma {:induction false} WithKeyOfAppend<T>(a: seq<T>, b: seq<T>, key: T -> int, k: int)
    ensures WithKey(a + b, key, k) == WithKey(a, key, k) + WithKey(b, key, k)
    decreases |b|
  {
    if |b| == 0 {
      assert a + b == a;
    } else {
      assert (a + b)[..|a + b| - 1] == a + b[..|b| - 1];
      WithKeyOfAppend(a, b[..|b| - 1], key, k);
    }
  }

  lemma {:induction false} InsertDescStable<T>(s: seq<T>, x: T, key: T -> int, k: int)
    ensures WithKey(InsertDesc(s, x, key), key, k) == WithKey(s, key, k) + WithKey([x], key, k)
    decreases |s|
  {
    if |s| == 0 || key(s[|s| - 1]) >= key(x) {
      WithKeyOfAppend(s, [x], key, k);
    } else {
      var init := s[..|s| - 1];
      var y := s[|s| - 1];
      assert InsertDesc(s, x, key) == InsertDesc(init, x, key) + [y];
      InsertDescStable(init, x, key, k);
      WithKeyOfAppend(InsertDesc(init, x, key), [y], key, k);
      WithKeyOfAppend(init, [y], key, k);
      assert init + [y] == s;
      WithKeyOfSingleton(x, key, k);
      WithKeyOfSingleton(y, key, k);
    }
  }

  lemma WithKeyOfSingleton<T>(x: T, key: T -> int, k: int)
    ensures WithKey([x], key, k) == if key(x) == k then [x] else []
  {
    assert [x][..0] == [];
  }

  /** Elements with equal keys keep their relative order. */
  lemma {:induction false} SortDescStable<T>(s: seq<T>, key: T -> int, k: int)
    ensures WithKey(SortDesc(s, key), key, k) == WithKey(s, key, k)
    decreases |s|
  {
    if |s| > 0 {
      var init := s[..|s| - 1];
      SortDescStable(init, key, k);
      InsertDescStable(SortDesc(init, key), s[|s| - 1], key, k);
      WithKeyOfAppend(init, [s[|s| - 1]], key, k);
      assert init + [s[|s| - 1]] == s;
    }
  }

  // ---------------------------------------------------------------------------
  // Unique

  lemma {:induction false} LastHasLeastKey<T>(r: seq<T>, key: T -> int, z: T)
    requires |r| > 0 && SortedDesc(r, key) && z in multiset(r)
    ensures key(r[|r| - 1]) <= key(z)
  {
    assert z in r;
  }

  lemma {:induction false} WithKeyOfInit<T>(r: seq<T>, key: T -> int, k: int)
    requires |r| > 0
    ensures key(r[|r| - 1]) == k ==> WithKey(r, key, k) == WithKey(r[..|r| - 1], key, k) + [r[|r| - 1]]
    ensures key(r[|r| - 1]) != k ==> WithKey(r, key, k) == WithKey(r[..|r| - 1], key, k)
  {
  }

  lemma LastElementsAgree<T>(r1: seq<T>, r2: seq<T>, key: T -> int)
    requires |r1| > 0 && |r2| > 0 && multiset(r1) == multiset(r2)
    requires SortedDesc(r1, key) && SortedDesc(r2, key)
    requires WithKey(r1, key, key(r1[|r1| - 1])) == WithKey(r2, key, key(r1[|r1| - 1]))
    ensures r1[|r1| - 1] == r2[|r2| - 1]
  {
    var x1, x2 := r1[|r1| - 1], r2[|r2| - 1];
    assert x1 in multiset(r2) && x2 in multiset(r1);
    LastHasLeastKey(r1, key, x2);
    LastHasLeastKey(r2, key, x1);
    var m := key(x1);
    assert key(x2) == m;
    WithKeyOfInit(r1, key, m);
    WithKeyOfInit(r2, key, m);
    var w1, w2 := WithKey(r1[..|r1| - 1], key, m) + [x1], WithKey(r2[..|r2| - 1], key, m) + [x2];
    assert w1 == w2;
    assert w1[|w1| - 1] == x1 && w2[|w2| - 1] == x2;
  }

  lemma InitOfSorted<T>(r: seq<T>, key: T -> int)
    requires |r| > 0 && SortedDesc(r, key)
    ensures SortedDesc(r[..|r| - 1], key)
    ensures multiset(r[..|r| - 1]) == multiset(r) - multiset{r[|r| - 1]}
  {
    assert r == r[..|r| - 1] + [r[|r| - 1]];
  }

  lemma InitsAgree<T>(r1: seq<T>, r2: seq<T>, key: T -> int, k: int)
    requires |r1| > 0 && |r2| > 0 && r1[|r1| - 1] == r2[|r2| - 1]
    requires WithKey(r1, key, k) == WithKey(r2, key, k)
    ensures WithKey(r1[..|r1| - 1], key, k) == WithKey(r2[..|r2| - 1], key, k)
  {
    WithKeyOfInit(r1, key, k);
    WithKeyOfInit(r2, key, k);
  }

  /**
    * Two sorted rearrangements of the same elements that agree on the order of every
    * group of equal keys are the same sequence.
    */
  lemma {:induction false} SortedPermutationIsUnique<T>(r1: seq<T>, r2: seq<T>, key: T -> int)
    requires multiset(r1) == multiset(r2)
    requires SortedDesc(r1, key) && SortedDesc(r2, key)
    requires forall k :: WithKey(r1, key, k) == WithKey(r2, key, k)
    ensures r1 == r2
    decreases |r1|
  {
    assert |r1| == |multiset(r1)| == |r2|;
    if |r1| > 0 {
      var n := |r1| - 1;
      LastElementsAgree(r1, r2, key);
      var i1, i2 := r1[..n], r2[..n];
      forall k
        ensures WithKey(i1, key, k) == WithKey(i2, key, k)
      {
        InitsAgree(r1, r2, key, k);
      }
      InitOfSorted(r1, key);
      InitOfSorted(r2, key);
      SortedPermutationIsUnique(i1, i2, key);
    }
  }

  /** Any sorted, stable rearrangement of s is SortDesc(s). */
  lemma StableSortIsSortDesc<T>(s: seq<T>, r: seq<T>, key: T -> int)
    requires multiset(r) == multiset(s) && SortedDesc(r, key)
    requires forall k :: WithKey(r, key, k) == WithKey(s, key, k)
    ensures r == SortDesc(s, key)
  {
    SortDescSorted(s, key);
    forall k
      ensures WithKey(r, key, k) == WithKey(SortDesc(s, key), key, k)
    {
      SortDescStable(s, key, k);
    }
    SortedPermutationIsUnique(r, SortDesc(s, key), key);
  }

  // ---------------------------------------------------------------------------
  // In place

  lemma InsertDescShift<T>(s: seq<T>, x: T, key: T -> int)
    requires |s| > 0 && key(s[|s| - 1]) < key(x)
    ensures InsertDesc(s, x, key) == InsertDesc(s[..|s| - 1], x, key) + [s[|s| - 1]]
  {
  }

  lemma SortDescOfPrefix<T>(s: seq<T>, i: int, key: T -> int)
    requires 0 <= i < |s|
    ensures SortDesc(s[..i + 1], key) == InsertDesc(SortDesc(s[..i], key), s[i], key)
  {
    assert s[..i + 1][..i] == s[..i];
  }

  /**
    * The state of InsertInPlace with the gap at j: cur[..j] and cur[j + 1..i + 1] are the
    * sorted run around the gap, and inserting x into cur[..j] finishes the job.
    */
  ghost predicate Gap<T>(cur: seq<T>, i: int, j: int, x: T, sorted: seq<T>, key: T -> int) {
    0 <= j <= i < |cur|
    && cur[..j] + cur[j + 1..i + 1] == sorted
    && InsertDesc(sorted, x, key) == InsertDesc(cur[..j], x, key) + cur[j + 1..i + 1]
  }

  /** One step of InsertInPlace, on the array's contents before and after a[j] := a[j - 1]. */
  lemma ShiftStep<T>(before: seq<T>, after: seq<T>, i: int, j: int, x: T, sorted: seq<T>, key: T -> int)
    requires Gap(before, i, j, x, sorted, key) && 0 < j
    requires after == before[j := before[j - 1]] && key(before[j - 1]) < key(x)
    ensures Gap(after, i, j - 1, x, sorted, key)
    ensures after[i + 1..] == before[i + 1..]
  {
    var head, y, tail := before[..j - 1], before[j - 1], before[j + 1..i + 1];
    assert before[..j] == head + [y];
    InsertDescShift(head + [y], x, key);
    assert (head + [y])[..j - 1] == head;
    assert after[..j - 1] == head;
    assert after[j..i + 1] == [y] + tail;
    assert head + ([y] + tail) == (head + [y]) + tail;
    assert InsertDesc(head, x, key) + ([y] + tail) == (InsertDesc(head, x, key) + [y]) + tail;
  }

  /** The last step of InsertInPlace: x lands in the gap at j. */
  lemma PlaceStep<T>(before: seq<T>, after: seq<T>, i: int, j: int, x: T, sorted: seq<T>, key: T -> int)
    requires Gap(before, i, j, x, sorted, key) && after == before[j := x]
    requires j == 0 || key(before[j - 1]) >= key(x)
    ensures after[..i + 1] == InsertDesc(sorted, x, key)
    ensures after[i + 1..] == before[i + 1..]
  {
    var head, tail := before[..j], before[j + 1..i + 1];
    assert InsertDesc(head, x, key) == head + [x];
    assert after[..j] == head && after[j] == x && after[j + 1..i + 1] == tail;
    SplitAt(after, j, i + 1);
  }

  lemma SplitAt<T>(s: seq<T>, j: int, n: int)
    requires 0 <= j < n <= |s|
    ensures s[..n] == s[..j] + [s[j]] + s[j + 1..n]
  {
  }

  lemma GapAtStart<T>(cur: seq<T>, i: int, x: T, key: T -> int)
    requires 0 <= i < |cur|
    ensures Gap(cur, i, i, x, cur[..i], key)
  {
    assert cur[i + 1..i + 1] == [];
  }

  /** Moves a[i] left past every element of the sorted run a[..i] with a smaller key. */
  method InsertInPlace<T>(a: array<T>, i: int, key: T -> int)
    requires 0 <= i < a.Length
    modifies a
    ensures a[..i + 1] == InsertDesc(old(a[..i]), old(a[i]), key)
    ensures a[i + 1..] == old(a[i + 1..])
  {
    var x := a[i];
    ghost var sorted := a[..i];
    GapAtStart(a[..], i, x, key);
    var j := i;
    while j > 0 && key(a[j - 1]) < key(x)
      invariant Gap(a[..], i, j, x, sorted, key)
      invariant a[i + 1..] == old(a[i + 1..])
    {
      ghost var before := a[..];
      a[j] := a[j - 1];
      ShiftStep(before, a[..], i, j, x, sorted, key);
      j := j - 1;
    }
    ghost var before := a[..];
    a[j] := x;
    PlaceStep(before, a[..], i, j, x, sorted, key);
  }

  /** Sorts a in place, descending by key and stable: insertion sort. */
  method SortInPlace<T>(a: array<T>, key: T -> int)
    modifies a
    ensures a[..] == SortDesc(old(a[..]), key)
  {
    ghost var input := a[..];
    var i := 0;
    while i < a.Length
      invariant 0 <= i <= a.Length
      invariant a[..i] == SortDesc(input[..i], key)
      invariant a[i..] == input[i..]
    {
      ghost var prefix, rest := a[..i], a[i..];
      assert rest[0] == input[i] && rest[1..] == input[i + 1..];
      InsertInPlace(a, i, key);
      assert a[..i + 1] == InsertDesc(prefix, input[i], key);
      assert a[i + 1..] == rest[1..];
      SortDescOfPrefix(input, i, key);
      i := i + 1;
    }
    assert a[..] == a[..a.Length] && input == input[..a.Length];
  }

  // ---------------------------------------------------------------------------
  // Sums

  lemma KeySumOfSnoc<T>(s: seq<T>, x: T, key: T -> int)
    ensures KeySum(s + [x], key) == KeySum(s, key) + key(x)
  {
    assert (s + [x])[..|s|] == s;
  }

  lemma {:induction false} KeySumOfInsertDesc<T>(s: seq<T>, x: T, key: T -> int)
    ensures KeySum(InsertDesc(s, x, key), key) == KeySum(s, key) + key(x)
    decreases |s|
  {
    if |s| == 0 || key(s[|s| - 1]) >= key(x) {
      KeySumOfSnoc(s, x, key);
    } else {
      var init := s[..|s| - 1];
      KeySumOfInsertDesc(init, x, key);
      KeySumOfSnoc(InsertDesc(init, x, key), s[|s| - 1], key);
    }
  }

  /** Sorting does not change the sum of the keys. */
  lemma {:induction false} KeySumOfSortDesc<T>(s: seq<T>, key: T -> int)
    ensures KeySum(SortDesc(s, key), key) == KeySum(s, key)
    decreases |s|
  {
    if |s| > 0 {
      KeySumOfSortDesc(s[..|s| - 1], key);
      KeySumOfInsertDesc(SortDesc(s[..|s| - 1], key), s[|s| - 1], key);
    }
  }
}
