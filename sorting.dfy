/** `Array.prototype.sort` with a numeric comparator `(a, b) => key(a) - key(b)`:
    a stable sort, ascending by an integer key. The specification is the
    insertion sort `InsertionSort`; `SortInPlace` is the in-place version the
    callers run on their arrays. */
module Sorting {

  ghost predicate SortedBy<T>(s: seq<T>, key: T -> int)
  {
    forall i, j :: 0 <= i < j < |s| ==> key(s[i]) <= key(s[j])
  }

  /** The elements of `s` whose key is `k`, in their order in `s`. */
  function WithKey<T>(s: seq<T>, key: T -> int, k: int): (r: seq<T>)
    ensures forall x :: x in r ==> x in s && key(x) == k
  {
    if s == [] then []
    else WithKey(s[..|s| - 1], key, k) + (if key(s[|s| - 1]) == k then [s[|s| - 1]] else [])
  }

  /** Insert `x` after the last element of `s` whose key is at most `key(x)`,
      scanning from the right as an in-place insertion sort does. */
  function Insert<T>(s: seq<T>, x: T, key: T -> int): (r: seq<T>)
    ensures |r| == |s| + 1
    decreases |s|
  {
    if s == [] || key(s[|s| - 1]) <= key(x) then s + [x]
    else
      assert s == s[..|s| - 1] + [s[|s| - 1]];
      Insert(s[..|s| - 1], x, key) + [s[|s| - 1]]
  }

  function InsertionSort<T>(s: seq<T>, key: T -> int): (r: seq<T>)
    ensures |r| == |s|
    decreases |s|
  {
    if s == [] then []
    else Insert(InsertionSort(s[..|s| - 1], key), s[|s| - 1], key)
  }

  lemma {:induction false} InsertPermutes<T>(s: seq<T>, x: T, key: T -> int)
    ensures multiset(Insert(s, x, key)) == multiset(s) + multiset{x}
    decreases |s|
  {
    if s != [] && key(s[|s| - 1]) > key(x) {
      var init, last := s[..|s| - 1], s[|s| - 1];
      assert s == init + [last];
      InsertPermutes(init, x, key);
    }
  }

  /** The sort's result is ordered by key and is a permutation of its input. */
  lemma {:induction false} InsertionSortCorrect<T>(s: seq<T>, key: T -> int)
    ensures SortedBy(InsertionSort(s, key), key)
    ensures multiset(InsertionSort(s, key)) == multiset(s)
    decreases |s|
  {
    if s != [] {
      var init, last := s[..|s| - 1], s[|s| - 1];
      assert s == init + [last];
      InsertionSortCorrect(init, key);
      InsertKeepsSorted(InsertionSort(init, key), last, key);
      InsertPermutes(InsertionSort(init, key), last, key);
    }
  }

  lemma {:induction false} InsertKeepsSorted<T>(s: seq<T>, x: T, key: T -> int)
    requires SortedBy(s, key)
    ensures SortedBy(Insert(s, x, key), key)
    decreases |s|
  {
    if s == [] || key(s[|s| - 1]) <= key(x) {
    } else {
      var init, last := s[..|s| - 1], s[|s| - 1];
      InsertKeepsSorted(init, x, key);
      var r := Insert(init, x, key);
      InsertPermutes(init, x, key);
      forall y | y in r ensures key(y) <= key(last) {
        assert y in multiset(r);
        if y != x {
          assert y in multiset(init);
          var i :| 0 <= i < |init| && init[i] == y;
          assert s[i] == y;
        }
      }
      assert Insert(s, x, key) == r + [last];
      forall i, j | 0 <= i < j < |r| + 1
        ensures key((r + [last])[i]) <= key((r + [last])[j])
      {
        if j == |r| {
          assert (r + [last])[i] == r[i];
          assert r[i] in r;
        }
      }
    }
  }

  lemma WithKeyAppend<T>(a: seq<T>, b: seq<T>, key: T -> int, k: int)
    ensures WithKey(a + b, key, k) == WithKey(a, key, k) + WithKey(b, key, k)
    decreases |b|
  {
    if b == [] {
      assert a + b == a;
    } else {
      var init, last := b[..|b| - 1], b[|b| - 1];
      assert (a + b)[..|a + b| - 1] == a + init;
      WithKeyAppend(a, init, key, k);
    }
  }

  /** Inserting `x` adds it at the end of its key class and moves nothing else
      within a key class. */
  lemma {:induction false} InsertWithKey<T>(s: seq<T>, x: T, key: T -> int, k: int)
    ensures WithKey(Insert(s, x, key), key, k)
         == WithKey(s, key, k) + (if key(x) == k then [x] else [])
    decreases |s|
  {
    if s == [] || key(s[|s| - 1]) <= key(x) {
      WithKeyAppend(s, [x], key, k);
    } else {
      var init, last := s[..|s| - 1], s[|s| - 1];
      assert s == init + [last];
      var tail := if key(x) == k then [x] else [];
      calc {
        WithKey(Insert(s, x, key), key, k);
        { assert Insert(s, x, key) == Insert(init, x, key) + [last]; }
        WithKey(Insert(init, x, key) + [last], key, k);
        { WithKeyAppend(Insert(init, x, key), [last], key, k); }
        WithKey(Insert(init, x, key), key, k) + WithKey([last], key, k);
        { InsertWithKey(init, x, key, k); }
        WithKey(init, key, k) + tail + WithKey([last], key, k);
        { assert tail == [] || WithKey([last], key, k) == []; }
        WithKey(init, key, k) + WithKey([last], key, k) + tail;
        { WithKeyAppend(init, [last], key, k); }
        WithKey(s, key, k) + tail;
      }
    }
  }

  /** Stability: within each key class the sort keeps the input order. */
  lemma {:induction false} InsertionSortStable<T>(s: seq<T>, key: T -> int, k: int)
    ensures WithKey(InsertionSort(s, key), key, k) == WithKey(s, key, k)
    decreases |s|
  {
    if s != [] {
      var init, last := s[..|s| - 1], s[|s| - 1];
      assert s == init + [last];
      var tail := if key(last) == k then [last] else [];
      calc {
        WithKey(InsertionSort(s, key), key, k);
        WithKey(Insert(InsertionSort(init, key), last, key), key, k);
        { InsertWithKey(InsertionSort(init, key), last, key, k); }
        WithKey(InsertionSort(init, key), key, k) + tail;
        { InsertionSortStable(init, key, k); }
        WithKey(init, key, k) + tail;
        { WithKeyAppend(init, [last], key, k); }
        WithKey(s, key, k);
      }
    }
  }

  /** An input that is already in order is left exactly as it is. */
  lemma {:induction false} SortedIsFixpoint<T>(s: seq<T>, key: T -> int)
    requires SortedBy(s, key)
    ensures InsertionSort(s, key) == s
    decreases |s|
  {
    if s != [] {
      var init, last := s[..|s| - 1], s[|s| - 1];
      assert s == init + [last];
      assert InsertionSort(s, key) == Insert(InsertionSort(init, key), last, key);
      assert SortedBy(init, key) by {
        forall i, j | 0 <= i < j < |init| ensures key(init[i]) <= key(init[j]) {
          assert init[i] == s[i] && init[j] == s[j];
        }
      }
      SortedIsFixpoint(init, key);
      if init != [] {
        assert init[|init| - 1] == s[|s| - 2];
        assert key(s[|s| - 2]) <= key(s[|s| - 1]);
      }
      assert Insert(init, last, key) == init + [last];
    }
  }

  /** `Insert` puts `x` at one position and leaves `s` around it intact. */
  lemma {:induction false} InsertPosition<T>(s: seq<T>, x: T, key: T -> int) returns (p: nat)
    ensures p <= |s| && Insert(s, x, key) == s[..p] + [x] + s[p..]
    decreases |s|
  {
    if s == [] || key(s[|s| - 1]) <= key(x) {
      p := |s|;
      assert s[..p] == s && s[p..] == [];
    } else {
      var init, last := s[..|s| - 1], s[|s| - 1];
      p := InsertPosition(init, x, key);
      assert s[..p] == init[..p];
      assert s[p..] == init[p..] + [last];
    }
  }

  lemma InsertUnfold<T>(s: seq<T>, x: T, key: T -> int)
    requires s != []
    ensures key(s[|s| - 1]) > key(x) ==> Insert(s, x, key) == Insert(s[..|s| - 1], x, key) + [s[|s| - 1]]
    ensures key(s[|s| - 1]) <= key(x) ==> Insert(s, x, key) == s + [x]
  {
  }

  lemma InsertionSortExtend<T>(s: seq<T>, i: nat, key: T -> int)
    requires i < |s|
    ensures InsertionSort(s[..i + 1], key) == Insert(InsertionSort(s[..i], key), s[i], key)
  {
    assert s[..i + 1][..i] == s[..i];
  }

  /** Swapping `x` with the larger key on its left keeps the insertion result. */
  lemma SwapStep<T>(before: seq<T>, after: seq<T>, j: nat, i: nat, key: T -> int)
    requires 0 < j <= i < |before|
    requires key(before[j - 1]) > key(before[j])
    requires after == before[j - 1 := before[j]][j := before[j - 1]]
    ensures Insert(after[..j - 1], after[j - 1], key) + after[j..i + 1]
         == Insert(before[..j], before[j], key) + before[j + 1..i + 1]
  {
    assert after[..j - 1] == before[..j - 1];
    assert after[j..i + 1] == [before[j - 1]] + before[j + 1..i + 1];
    InsertUnfold(before[..j], before[j], key);
    assert before[..j][..j - 1] == before[..j - 1];
  }

  /** Once the key on its left is no larger, `x` is where insertion puts it. */
  lemma SwapDone<T>(s: seq<T>, j: nat, i: nat, key: T -> int)
    requires j <= i < |s|
    requires j > 0 ==> key(s[j - 1]) <= key(s[j])
    ensures Insert(s[..j], s[j], key) + s[j + 1..i + 1] == s[..i + 1]
  {
    if j > 0 {
      InsertUnfold(s[..j], s[j], key);
    }
    assert s[..i + 1] == s[..j] + [s[j]] + s[j + 1..i + 1];
  }

  /** Sorts `a` in place by insertion with adjacent swaps; equal keys are never
      swapped, so the sort is stable. */
  method SortInPlace<T>(a: array<T>, key: T -> int)
    modifies a
    ensures a[..] == InsertionSort(old(a[..]), key)
  {
    ghost var input := a[..];
    var i := 0;
    while i < a.Length
      invariant 0 <= i <= a.Length
      invariant a[..i] == InsertionSort(input[..i], key)
      invariant a[i..] == input[i..]
    {
      ghost var pre := a[..];
      assert pre[i] == input[i] by {
        assert pre[i] == pre[i..][0];
      }
      SinkLast(a, i, key);
      assert a[..i + 1] == InsertionSort(input[..i + 1], key) by {
        InsertionSortExtend(input, i, key);
      }
      assert a[i + 1..] == input[i + 1..] by {
        assert a[i + 1..] == pre[i + 1..];
        assert pre[i + 1..] == pre[i..][1..];
      }
      i := i + 1;
    }
    assert a[..] == a[..a.Length];
    assert input == input[..a.Length];
  }

  /** One pass of insertion sort: moves `a[i]` left past every larger key. */
  method SinkLast<T>(a: array<T>, i: nat, key: T -> int)
    requires i < a.Length
    modifies a
    ensures a[..i + 1] == Insert(old(a[..i]), old(a[i]), key)
    ensures a[i + 1..] == old(a[i + 1..])
  {
    ghost var x := a[i];
    ghost var prefix := a[..i];
    var j := i;
    while j > 0 && key(a[j - 1]) > key(a[j])
      invariant 0 <= j <= i
      invariant a[j] == x
      invariant Insert(a[..j], x, key) + a[j + 1..i + 1] == Insert(prefix, x, key)
      invariant a[i + 1..] == old(a[i + 1..])
    {
      ghost var before := a[..];
      a[j - 1], a[j] := a[j], a[j - 1];
      SwapStep(before, a[..], j, i, key);
      assert a[i + 1..] == old(a[i + 1..]) by {
        assert a[i + 1..] == before[i + 1..];
      }
      j := j - 1;
    }
    SwapDone(a[..], j, i, key);
  }
}
