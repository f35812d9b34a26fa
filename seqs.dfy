/** Sequence operations behind the store's queries: filtering on a column,
    reversing (`ORDER BY ... DESC` over rows kept in insertion order, and
    `Array.prototype.reverse`), and the ordering facts the queries promise. */
module Seqs {

  function Reverse<T>(s: seq<T>): (r: seq<T>)
    ensures |r| == |s|
  {
    if s == [] then [] else [s[|s| - 1]] + Reverse(s[..|s| - 1])
  }

  lemma {:induction false} ReverseAt<T>(s: seq<T>, k: nat)
    requires k < |s|
    ensures Reverse(s)[k] == s[|s| - 1 - k]
  {
    if k > 0 {
      ReverseAt(s[..|s| - 1], k - 1);
    }
  }

  /** Reversing the first `k` elements of a reversed sequence gives back the
      last `k` elements of the original, in their original order. */
  lemma {:induction false} ReverseTake<T>(s: seq<T>, k: nat)
    requires k <= |s|
    ensures Reverse(Reverse(s)[..k]) == s[|s| - k..]
  {
    var t := Reverse(s)[..k];
    var a := Reverse(t);
    var b := s[|s| - k..];
    assert |a| == k == |b|;
    forall i | 0 <= i < k ensures a[i] == b[i] {
      ReverseAt(t, i);
      ReverseAt(s, k - 1 - i);
    }
  }

  /** The rows of `s` that satisfy `keep`, in the order of `s`. */
  function Filter<T(==, !new)>(s: seq<T>, keep: T -> bool): (r: seq<T>)
    ensures |r| <= |s|
    ensures forall x :: x in r <==> x in s && keep(x)
  {
    if s == [] then []
    else
      var init := s[..|s| - 1];
      assert s == init + [s[|s| - 1]];
      Filter(init, keep) + (if keep(s[|s| - 1]) then [s[|s| - 1]] else [])
  }

  lemma FilterAppend<T(!new)>(s: seq<T>, x: T, keep: T -> bool)
    ensures Filter(s + [x], keep) == Filter(s, keep) + (if keep(x) then [x] else [])
  {
    assert (s + [x])[..|s|] == s;
  }

  lemma {:induction false} FilterNone<T(!new)>(s: seq<T>, keep: T -> bool)
    requires forall i :: 0 <= i < |s| ==> !keep(s[i])
    ensures Filter(s, keep) == []
  {
    if s != [] {
      FilterNone(s[..|s| - 1], keep);
    }
  }

  ghost predicate StrictlyIncreasing<T>(s: seq<T>, key: T -> int) {
    forall i, j :: 0 <= i < j < |s| ==> key(s[i]) < key(s[j])
  }

  ghost predicate StrictlyDecreasing<T>(s: seq<T>, key: T -> int) {
    forall i, j :: 0 <= i < j < |s| ==> key(s[i]) > key(s[j])
  }

  lemma AppendIncreasing<T>(s: seq<T>, x: T, key: T -> int)
    requires StrictlyIncreasing(s, key)
    requires forall i :: 0 <= i < |s| ==> key(s[i]) < key(x)
    ensures StrictlyIncreasing(s + [x], key)
  {
  }

  /** Filtering keeps the relative order of the rows it keeps. */
  lemma {:induction false} FilterIncreasing<T(!new)>(s: seq<T>, keep: T -> bool, key: T -> int)
    requires StrictlyIncreasing(s, key)
    ensures StrictlyIncreasing(Filter(s, keep), key)
  {
    if s != [] {
      var init, last := s[..|s| - 1], s[|s| - 1];
      assert s == init + [last];
      FilterIncreasing(init, keep, key);
      FilterAppend(init, last, keep);
      var f := Filter(init, keep);
      forall i | 0 <= i < |f| ensures key(f[i]) < key(last) {
        assert f[i] in init;
        var j :| 0 <= j < |init| && init[j] == f[i];
      }
    }
  }

  lemma {:induction false} ReverseDecreasing<T>(s: seq<T>, key: T -> int)
    requires StrictlyIncreasing(s, key)
    ensures StrictlyDecreasing(Reverse(s), key)
  {
    var r := Reverse(s);
    forall i, j | 0 <= i < j < |r| ensures key(r[i]) > key(r[j]) {
      ReverseAt(s, i);
      ReverseAt(s, j);
    }
  }

  lemma {:induction false} ReverseMembers<T>(s: seq<T>)
    ensures forall x :: x in Reverse(s) <==> x in s
  {
    forall x ensures x in Reverse(s) <==> x in s {
      if x in s {
        var k :| 0 <= k < |s| && s[k] == x;
        ReverseAt(s, |s| - 1 - k);
      }
      if x in Reverse(s) {
        var k :| 0 <= k < |s| && Reverse(s)[k] == x;
        ReverseAt(s, k);
      }
    }
  }
}
