/**
 * The randomised helpers every module defines: the Fisher-Yates `shuffle`,
 * `sampleItems` (draw without replacement with `splice`) and the name-column
 * reconciliation that `renderNames` performs. `Math.random` is modelled as an
 * arbitrary choice within the range the code computes, so each method promises
 * what holds for every sequence of random draws.
 */
module RandomOrder {
  import opened Seqs

  /** The smaller of two integers: `Math.min`. */
  function Min(a: int, b: int): int {
    if a < b then a else b
  }

  /**
   * `shuffle(arr)`: copy the input, then swap each position `i`, from the last
   * down to 1, with a position `j` in `0..i`. The result is a permutation of the
   * input; the input, a value, is untouched.
   */
  method Shuffle<T>(arr: seq<T>) returns (r: seq<T>)
    ensures |r| == |arr|
    ensures multiset(r) == multiset(arr)
  {
    var a := new T[|arr|](k requires 0 <= k < |arr| => arr[k]);
    assert a[..] == arr;
    var i := a.Length - 1;
    while i > 0
      invariant -1 <= i < a.Length
      invariant multiset(a[..]) == multiset(arr)
    {
      var j :| 0 <= j <= i;
      a[i], a[j] := a[j], a[i];
      i := i - 1;
    }
    r := a[..];
  }

  /**
   * `sampleItems(arr, count)`: draw `min(count, |arr|)` times a random position
   * of the remaining pool and move that entry to the result. The ghost `picks`
   * are the positions of `arr` that were drawn.
   */
  method SampleItems<T>(arr: seq<T>, count: int) returns (r: seq<T>, ghost picks: seq<nat>)
    ensures |r| == if count <= 0 then 0 else Min(count, |arr|)
    ensures |picks| == |r| && Distinct(picks)
    ensures forall k :: 0 <= k < |r| ==> picks[k] < |arr| && r[k] == arr[picks[k]]
    ensures multiset(r) <= multiset(arr)
  {
    r, picks := [], [];
    var pool := arr;
    ghost var rest: seq<nat> := seq(|arr|, k => k);
    DrawStart(arr);
    var n := Min(count, |pool|);
    var i := 0;
    while i < n
      invariant 0 <= i <= (if n <= 0 then 0 else n)
      invariant |r| == |picks| == i
      invariant Drawn(arr, r, picks, pool, rest)
    {
      var idx :| 0 <= idx < |pool|;
      DrawStep(arr, r, picks, pool, rest, idx);
      r := r + [pool[idx]];
      picks := picks + [rest[idx]];
      pool := RemoveAt(pool, idx);
      rest := RemoveAt(rest, idx);
      i := i + 1;
    }
  }

  /**
   * The bookkeeping of `sampleItems` after some draws: `r` holds the entries at
   * the drawn positions `picks`, `pool` the entries at the positions `rest` not
   * yet drawn, no position is in both or twice in either, and together they hold
   * exactly the entries of `arr`.
   */
  ghost predicate Drawn<T>(arr: seq<T>, r: seq<T>, picks: seq<nat>, pool: seq<T>, rest: seq<nat>) {
    && |r| == |picks| && |pool| == |rest| && |picks| + |rest| == |arr|
    && (forall k :: 0 <= k < |rest| ==> rest[k] < |arr| && pool[k] == arr[rest[k]])
    && (forall k :: 0 <= k < |picks| ==> picks[k] < |arr| && r[k] == arr[picks[k]])
    && Distinct(picks) && Distinct(rest)
    && (forall p :: p in picks ==> p !in rest)
    && multiset(r) + multiset(pool) == multiset(arr)
  }

  /** Before any draw, the pool is the whole input. */
  lemma DrawStart<T>(arr: seq<T>)
    ensures Drawn(arr, [], [], arr, seq(|arr|, k => k))
  {
  }

  /** `s` without its element at position `idx`: what `splice(idx, 1)` leaves. */
  function RemoveAt<T>(s: seq<T>, idx: nat): (r: seq<T>)
    requires idx < |s|
    ensures |r| == |s| - 1
    ensures forall k :: 0 <= k < |r| ==> r[k] == s[if k < idx then k else k + 1]
    ensures multiset(r) + multiset{s[idx]} == multiset(s)
  {
    assert s == s[..idx] + [s[idx]] + s[idx + 1..];
    s[..idx] + s[idx + 1..]
  }

  /** Removing one position of a distinct sequence removes exactly that element. */
  lemma RemoveAtDistinct<T>(s: seq<T>, idx: nat)
    requires idx < |s| && Distinct(s)
    ensures Distinct(RemoveAt(s, idx))
    ensures s[idx] !in RemoveAt(s, idx)
    ensures forall x :: x in RemoveAt(s, idx) ==> x in s
  {
    var r := RemoveAt(s, idx);
    forall a, b | 0 <= a < b < |r| ensures r[a] != r[b] {
      assert r[a] == s[if a < idx then a else a + 1];
      assert r[b] == s[if b < idx then b else b + 1];
    }
    forall k | 0 <= k < |r| ensures r[k] != s[idx] {
      assert r[k] == s[if k < idx then k else k + 1];
    }
  }

  /** Drawing position `idx` of the pool keeps the bookkeeping. */
  lemma DrawStep<T>(arr: seq<T>, r: seq<T>, picks: seq<nat>, pool: seq<T>, rest: seq<nat>, idx: nat)
    requires Drawn(arr, r, picks, pool, rest)
    requires idx < |pool|
    ensures Drawn(arr, r + [pool[idx]], picks + [rest[idx]], RemoveAt(pool, idx), RemoveAt(rest, idx))
  {
    var pool', rest' := RemoveAt(pool, idx), RemoveAt(rest, idx);
    var r', picks' := r + [pool[idx]], picks + [rest[idx]];
    assert multiset(r') == multiset(r) + multiset{pool[idx]};
    assert multiset(r') + multiset(pool') == multiset(arr);
    forall k | 0 <= k < |rest'| ensures rest'[k] < |arr| && pool'[k] == arr[rest'[k]] {
      var k0 := if k < idx then k else k + 1;
      assert rest'[k] == rest[k0] && pool'[k] == pool[k0];
    }
    forall k | 0 <= k < |picks'| ensures picks'[k] < |arr| && r'[k] == arr[picks'[k]] {
      if k == |picks| {
        assert picks'[k] == rest[idx] && r'[k] == pool[idx];
      } else {
        assert picks'[k] == picks[k] && r'[k] == r[k];
      }
    }
    RemoveAtDistinct(rest, idx);
    assert rest[idx] in rest && rest[idx] !in picks;
    PushDistinct(picks, rest[idx]);
    forall p | p in picks' ensures p !in rest' {
      if p != rest[idx] {
        assert p in picks;
      }
    }
  }

  /** Appending a new element keeps a sequence distinct. */
  lemma PushDistinct<T>(s: seq<T>, x: T)
    requires Distinct(s) && x !in s
    ensures Distinct(s + [x])
  {
    forall a, b | 0 <= a < b < |s + [x]| ensures (s + [x])[a] != (s + [x])[b] {
      if b == |s| {
        assert (s + [x])[a] == s[a] && s[a] in s;
      } else {
        assert (s + [x])[a] == s[a] && (s + [x])[b] == s[b];
      }
    }
  }

  /**
   * What `renderNames` leaves in the name column: the entries of `before` that are
   * still available, in their old order, followed by a shuffle of the available
   * entries that were missing from it.
   */
  ghost predicate Reconciled<T(!new)>(before: seq<T>, available: seq<T>, after: seq<T>) {
    var survivors := Keep(before, Elems(available));
    var missing := Drop(available, Elems(survivors));
    && |survivors| <= |after|
    && after[..|survivors|] == survivors
    && multiset(after[|survivors|..]) == multiset(missing)
  }

  /**
   * The reconciliation in `renderNames`: filter the current order down to the
   * available ids, then `push(...shuffle(missing))`.
   */
  method ReconcileNames<T(==,!new)>(before: seq<T>, available: seq<T>) returns (after: seq<T>)
    ensures Reconciled(before, available, after)
    ensures forall x :: x in after <==> x in available
    ensures Distinct(before) && Distinct(available) ==>
              Distinct(after) && multiset(after) == multiset(available)
  {
    var survivors := Keep(before, Elems(available));
    var missing := Drop(available, Elems(survivors));
    var tail := Shuffle(missing);
    after := survivors + tail;
    assert after[..|survivors|] == survivors && after[|survivors|..] == tail;
    ReconciledElements(before, available, after);
    if Distinct(before) && Distinct(available) {
      ReconciledPermutation(before, available, after);
    }
  }

  /** A reconciled column shows exactly the available entries. */
  lemma ReconciledElements<T(!new)>(before: seq<T>, available: seq<T>, after: seq<T>)
    requires Reconciled(before, available, after)
    ensures forall x :: x in after <==> x in available
  {
    var survivors := Keep(before, Elems(available));
    var missing := Drop(available, Elems(survivors));
    var tail := after[|survivors|..];
    assert after == survivors + tail;
    forall x ensures x in after <==> x in available {
      assert x in tail <==> multiset(tail)[x] > 0;
      assert x in missing <==> multiset(missing)[x] > 0;
    }
  }

  /**
   * When the old column and the available ids are both free of repeats, the
   * reconciled column is a permutation of the available ids (and free of repeats).
   */
  lemma ReconciledPermutation<T(!new)>(before: seq<T>, available: seq<T>, after: seq<T>)
    requires Reconciled(before, available, after)
    requires Distinct(before) && Distinct(available)
    ensures Distinct(after) && multiset(after) == multiset(available)
  {
    var survivors := Keep(before, Elems(available));
    var missing := Drop(available, Elems(survivors));
    var tail := after[|survivors|..];
    assert after == survivors + tail;
    KeepDistinct(before, Elems(available));
    DropDistinct(available, Elems(survivors));
    DistinctPermutation(missing, tail);
    forall x | x in survivors ensures x !in tail {
      assert multiset(tail)[x] == multiset(missing)[x];
    }
    DistinctConcat(survivors, tail);
    ReconciledElements(before, available, after);
    DistinctSameElements(after, available);
  }

  /** Reconciling a column that already is a permutation of the available ids changes nothing. */
  lemma ReconcileStable<T(!new)>(before: seq<T>, available: seq<T>, after: seq<T>)
    requires multiset(before) == multiset(available)
    requires Reconciled(before, available, after)
    ensures after == before
  {
    SameElements(before, available);
    KeepAll(before, Elems(available));
    var survivors := Keep(before, Elems(available));
    assert survivors == before;
    DropAll(available, Elems(before));
    var tail := after[|before|..];
    assert multiset(tail) == multiset{};
    assert |tail| == |multiset(tail)| == 0;
    assert after == before + tail;
  }

  /**
   * Re-rendering a reconciled column changes nothing: a second reconciliation
   * against the same available entries keeps the column as it is.
   */
  lemma ReconcileIdempotent<T(!new)>(before: seq<T>, available: seq<T>, once: seq<T>, twice: seq<T>)
    requires Reconciled(before, available, once)
    requires Reconciled(once, available, twice)
    ensures twice == once
  {
    ReconciledElements(before, available, once);
    KeepAll(once, Elems(available));
    var survivors := Keep(once, Elems(available));
    assert survivors == once;
    DropAll(available, Elems(once));
    var tail := twice[|once|..];
    assert multiset(tail) == multiset{};
    assert |tail| == |multiset(tail)| == 0;
    assert twice == once + tail;
  }

  /** Permutations have the same elements. */
  lemma SameElements<T>(a: seq<T>, b: seq<T>)
    requires multiset(a) == multiset(b)
    ensures forall x :: x in a <==> x in b
  {
    forall x ensures x in a <==> x in b {
      assert x in a <==> x in multiset(a);
      assert x in b <==> x in multiset(b);
    }
  }
}
