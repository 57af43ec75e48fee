/**
 * Sequence facts used throughout the game modules: distinctness, and the
 * order-preserving filters that `Array.prototype.filter` computes.
 */
module Seqs {

  /** No element occurs twice. */
  predicate Distinct<T(==)>(s: seq<T>) {
    forall i, j :: 0 <= i < j < |s| ==> s[i] != s[j]
  }

  /** The set of elements of a sequence: what `s.includes(x)` tests. */
  function Elems<T(!new)>(s: seq<T>): (r: set<T>)
    ensures forall x :: x in r <==> x in s
  {
    set x | x in s
  }

  /** `s.filter(x => allowed.has(x))`: the elements of `s` in `allowed`, in their order in `s`. */
  function Keep<T(==,!new)>(s: seq<T>, allowed: set<T>): (r: seq<T>)
    ensures |r| <= |s|
    ensures forall x :: x in r <==> x in s && x in allowed
  {
    if s == [] then []
    else (if s[0] in allowed then [s[0]] else []) + Keep(s[1..], allowed)
  }

  /** `s.filter(x => !excluded.has(x))`: the elements of `s` not in `excluded`, in their order in `s`. */
  function Drop<T(==,!new)>(s: seq<T>, excluded: set<T>): (r: seq<T>)
    ensures |r| <= |s|
    ensures forall x :: x in r <==> x in s && x !in excluded
  {
    if s == [] then []
    else (if s[0] in excluded then [] else [s[0]]) + Drop(s[1..], excluded)
  }

  /** A sequence is distinct exactly when its head is new and its tail is distinct. */
  lemma DistinctCons<T>(s: seq<T>)
    requires s != []
    ensures Distinct(s) <==> s[0] !in s[1..] && Distinct(s[1..])
  {
    if s[0] !in s[1..] && Distinct(s[1..]) {
      forall i, j | 0 <= i < j < |s| ensures s[i] != s[j] {
        if i > 0 {
          assert s[i] == s[1..][i - 1] && s[j] == s[1..][j - 1];
        } else {
          assert s[j] == s[1..][j - 1];
        }
      }
    }
    if Distinct(s) {
      forall i, j | 0 <= i < j < |s[1..]| ensures s[1..][i] != s[1..][j] {
        assert s[1..][i] == s[i + 1] && s[1..][j] == s[j + 1];
      }
    }
  }

  /** Distinctness is a property of the multiset of a sequence: every count is at most one. */
  lemma {:induction false} DistinctCounts<T>(s: seq<T>)
    ensures Distinct(s) <==> forall x :: multiset(s)[x] <= 1
  {
    if s != [] {
      DistinctCounts(s[1..]);
      DistinctCons(s);
      assert s == [s[0]] + s[1..];
      assert multiset(s) == multiset{s[0]} + multiset(s[1..]);
      if Distinct(s) {
        assert multiset(s[1..])[s[0]] == 0;
      } else if s[0] in s[1..] {
        assert multiset(s)[s[0]] >= 2;
      } else {
        var x :| multiset(s[1..])[x] > 1;
        assert multiset(s)[x] > 1;
      }
    }
  }

  /** A permutation of a distinct sequence is distinct. */
  lemma DistinctPermutation<T>(a: seq<T>, b: seq<T>)
    requires multiset(a) == multiset(b) && Distinct(a)
    ensures Distinct(b)
  {
    DistinctCounts(a);
    DistinctCounts(b);
  }

  /** In a distinct sequence every element occurs exactly once. */
  lemma {:induction false} DistinctCountIsMembership<T>(s: seq<T>, x: T)
    requires Distinct(s)
    ensures multiset(s)[x] == if x in s then 1 else 0
  {
    if s != [] {
      DistinctCons(s);
      DistinctCountIsMembership(s[1..], x);
      assert s == [s[0]] + s[1..];
      assert multiset(s) == multiset{s[0]} + multiset(s[1..]);
    }
  }

  /** Two distinct sequences with the same elements are permutations of each other. */
  lemma DistinctSameElements<T>(a: seq<T>, b: seq<T>)
    requires Distinct(a) && Distinct(b)
    requires forall x :: x in a <==> x in b
    ensures multiset(a) == multiset(b)
  {
    forall x ensures multiset(a)[x] == multiset(b)[x] {
      DistinctCountIsMembership(a, x);
      DistinctCountIsMembership(b, x);
    }
  }

  /** Two distinct sequences with no common element concatenate to a distinct sequence. */
  lemma DistinctConcat<T>(a: seq<T>, b: seq<T>)
    requires Distinct(a) && Distinct(b)
    requires forall x :: x in a ==> x !in b
    ensures Distinct(a + b)
  {
    forall i, j | 0 <= i < j < |a + b| ensures (a + b)[i] != (a + b)[j] {
      if j < |a| {
        assert (a + b)[i] == a[i] && (a + b)[j] == a[j];
      } else if i >= |a| {
        assert (a + b)[i] == b[i - |a|] && (a + b)[j] == b[j - |a|];
      } else {
        assert (a + b)[i] == a[i] && (a + b)[j] == b[j - |a|];
        assert a[i] in a && a[i] !in b;
      }
    }
  }

  /** Filtering keeps a distinct sequence distinct. */
  lemma {:induction false} KeepDistinct<T(!new)>(s: seq<T>, allowed: set<T>)
    requires Distinct(s)
    ensures Distinct(Keep(s, allowed))
  {
    if s != [] {
      DistinctCons(s);
      KeepDistinct(s[1..], allowed);
      var rest := Keep(s[1..], allowed);
      if s[0] in allowed {
        DistinctCons([s[0]] + rest);
        assert ([s[0]] + rest)[1..] == rest;
      }
    }
  }

  /** Filtering keeps a distinct sequence distinct. */
  lemma {:induction false} DropDistinct<T(!new)>(s: seq<T>, excluded: set<T>)
    requires Distinct(s)
    ensures Distinct(Drop(s, excluded))
  {
    if s != [] {
      DistinctCons(s);
      DropDistinct(s[1..], excluded);
      var rest := Drop(s[1..], excluded);
      if s[0] !in excluded {
        DistinctCons([s[0]] + rest);
        assert ([s[0]] + rest)[1..] == rest;
      }
    }
  }

  /** A filter that removes nothing is the identity. */
  lemma {:induction false} KeepAll<T(!new)>(s: seq<T>, allowed: set<T>)
    requires forall x :: x in s ==> x in allowed
    ensures Keep(s, allowed) == s
  {
    if s != [] {
      assert forall x :: x in s[1..] ==> x in s;
      KeepAll(s[1..], allowed);
      assert s == [s[0]] + s[1..];
    }
  }

  /** A filter whose excluded set covers the sequence leaves nothing. */
  lemma DropAll<T(!new)>(s: seq<T>, excluded: set<T>)
    requires forall x :: x in s ==> x in excluded
    ensures Drop(s, excluded) == []
  {
  }

  /** Dropping nothing from a sequence is the identity. */
  lemma {:induction false} DropNone<T(!new)>(s: seq<T>)
    ensures Drop(s, {}) == s
  {
    if s != [] {
      DropNone(s[1..]);
      assert s == [s[0]] + s[1..];
    }
  }

  /** For a distinct sequence, each element excluded by a filter shortens it by one. */
  lemma {:induction false} DropLength<T(!new)>(s: seq<T>, excluded: set<T>)
    ensures Distinct(s) && excluded <= Elems(s) ==> |Drop(s, excluded)| == |s| - |excluded|
  {
    if s != [] && Distinct(s) && excluded <= Elems(s) {
      DistinctCons(s);
      var tail := s[1..];
      assert Elems(s) == {s[0]} + Elems(tail);
      if s[0] in excluded {
        assert excluded - {s[0]} <= Elems(tail);
        DropLength(tail, excluded - {s[0]});
        DropOnlyMatters(tail, excluded, excluded - {s[0]});
        assert |excluded - {s[0]}| == |excluded| - 1;
      } else {
        assert excluded <= Elems(tail);
        DropLength(tail, excluded);
      }
    }
  }

  /** A filter only depends on the excluded elements that occur in the sequence. */
  lemma {:induction false} DropOnlyMatters<T(!new)>(s: seq<T>, e1: set<T>, e2: set<T>)
    requires forall x :: x in s ==> (x in e1 <==> x in e2)
    ensures Drop(s, e1) == Drop(s, e2)
  {
    if s != [] {
      assert forall x :: x in s[1..] ==> x in s;
      DropOnlyMatters(s[1..], e1, e2);
    }
  }

  /** Dropping the elements of a prefix of a distinct sequence leaves the rest of it. */
  lemma {:induction false} DropPrefix<T(!new)>(s: seq<T>, i: nat)
    requires Distinct(s) && i <= |s|
    ensures Drop(s, Elems(s[..i])) == s[i..]
  {
    if i == 0 {
      assert Elems(s[..0]) == {};
      DropNone(s);
    } else {
      DistinctCons(s);
      var tail := s[1..];
      assert s[..i] == [s[0]] + tail[..i - 1];
      forall x | x in tail ensures x in Elems(s[..i]) <==> x in Elems(tail[..i - 1]) {
        assert x != s[0];
      }
      DropOnlyMatters(tail, Elems(s[..i]), Elems(tail[..i - 1]));
      DropPrefix(tail, i - 1);
      assert s[i..] == tail[i - 1..];
    }
  }
}
