/** Linear searches and filters over the in-memory stores of the model: the
    repository `findFirst…`, `exists…` and `deleteAllBy…` queries and Java stream
    `filter`/`findFirst` pipelines all reduce to these two functions. */
module Seqs {
  import opened Wrappers

  /** The first index at or after `start` whose element satisfies `p`. */
  function FirstFrom<T>(s: seq<T>, start: nat, p: T -> bool): (r: Option<nat>)
    ensures r.Some? ==> start <= r.value < |s| && p(s[r.value])
    ensures r.Some? ==> forall k :: start <= k < r.value ==> !p(s[k])
    ensures r.None? ==> forall k :: start <= k < |s| ==> !p(s[k])
    decreases |s| - start
  {
    if start >= |s| then None
    else if p(s[start]) then Some(start)
    else FirstFrom(s, start + 1, p)
  }

  function First<T>(s: seq<T>, p: T -> bool): (r: Option<nat>)
    ensures r.Some? ==> r.value < |s| && p(s[r.value]) && forall k :: 0 <= k < r.value ==> !p(s[k])
    ensures r.None? ==> forall k :: 0 <= k < |s| ==> !p(s[k])
  {
    FirstFrom(s, 0, p)
  }

  /** The elements of `s` that satisfy `p`, in their original order. */
  function Filter<T>(s: seq<T>, p: T -> bool): (r: seq<T>)
    ensures |r| <= |s|
    ensures forall i :: 0 <= i < |r| ==> r[i] in s && p(r[i])
    ensures forall i :: 0 <= i < |s| && p(s[i]) ==> s[i] in r
    ensures multiset(r) <= multiset(s)
  {
    if s == [] then []
    else
      assert s == [s[0]] + s[1..];
      if p(s[0]) then [s[0]] + Filter(s[1..], p)
      else Filter(s[1..], p)
  }

  predicate Increasing(idx: seq<nat>) {
    forall i, j :: 0 <= i < j < |idx| ==> idx[i] < idx[j]
  }

  /** `r` is `s` read at the positions `idx`, each of which satisfies `p`. */
  predicate ReadsAt<T(==)>(s: seq<T>, p: T -> bool, r: seq<T>, idx: seq<nat>) {
    |idx| == |r| && forall i :: 0 <= i < |idx| ==> idx[i] < |s| && s[idx[i]] == r[i] && p(s[idx[i]])
  }

  /** Every position of `s` whose element satisfies `p` is among `idx`. */
  predicate Covers<T>(s: seq<T>, p: T -> bool, idx: seq<nat>) {
    forall k :: 0 <= k < |s| && p(s[k]) ==> k in idx
  }

  /** `r` is read off `s` at the strictly increasing positions `idx`, which are
      exactly the positions whose element satisfies `p`. */
  predicate Selects<T(==)>(s: seq<T>, p: T -> bool, r: seq<T>, idx: seq<nat>) {
    ReadsAt(s, p, r, idx) && Increasing(idx) && Covers(s, p, idx)
  }

  /** `Filter` keeps every satisfying element once, in its original order. */
  lemma {:induction false} FilterSelects<T>(s: seq<T>, p: T -> bool) returns (idx: seq<nat>)
    ensures Selects(s, p, Filter(s, p), idx)
  {
    if s == [] {
      idx := [];
    } else {
      var rest := FilterSelects(s[1..], p);
      var tail := Filter(s[1..], p);
      var shifted := Shift(rest);
      ShiftReads(s, p, tail, rest);
      ShiftIncreasing(rest);
      ShiftCovers(s, p, rest);
      if p(s[0]) {
        idx := [0] + shifted;
        assert Filter(s, p) == [s[0]] + tail;
        assert forall i :: 0 < i < |idx| ==> idx[i] == shifted[i - 1];
        assert 0 in idx;
      } else {
        idx := shifted;
        assert Filter(s, p) == tail;
      }
    }
  }

  /** Every position moved up by one. */
  function Shift(rest: seq<nat>): (r: seq<nat>)
    ensures |r| == |rest| && forall i :: 0 <= i < |r| ==> r[i] == rest[i] + 1
  {
    seq(|rest|, i requires 0 <= i < |rest| => rest[i] + 1)
  }

  lemma ShiftReads<T>(s: seq<T>, p: T -> bool, tail: seq<T>, rest: seq<nat>)
    requires s != [] && ReadsAt(s[1..], p, tail, rest)
    ensures ReadsAt(s, p, tail, Shift(rest))
  {
    forall i | 0 <= i < |rest|
      ensures s[Shift(rest)[i]] == s[1..][rest[i]]
    {
    }
  }

  lemma ShiftIncreasing(rest: seq<nat>)
    requires Increasing(rest)
    ensures Increasing(Shift(rest)) && Increasing([0] + Shift(rest))
  {
  }

  lemma ShiftCovers<T>(s: seq<T>, p: T -> bool, rest: seq<nat>)
    requires s != [] && Covers(s[1..], p, rest)
    ensures forall k :: 1 <= k < |s| && p(s[k]) ==> k in Shift(rest)
  {
    forall k | 1 <= k < |s| && p(s[k])
      ensures k in Shift(rest)
    {
      assert s[1..][k - 1] == s[k];
      var i :| 0 <= i < |rest| && rest[i] == k - 1;
      assert Shift(rest)[i] == k;
    }
  }

  /** Filtering by `p` then by `q` is filtering once by their conjunction. */
  lemma {:induction false} FilterTwice<T>(s: seq<T>, p: T -> bool, q: T -> bool, both: T -> bool)
    requires forall i :: 0 <= i < |s| ==> both(s[i]) == (p(s[i]) && q(s[i]))
    ensures Filter(Filter(s, p), q) == Filter(s, both)
  {
    if s != [] {
      FilterTwice(s[1..], p, q, both);
    }
  }

  /** The sequence without its element at index `k`. */
  function RemoveAt<T>(s: seq<T>, k: nat): (r: seq<T>)
    requires k < |s|
    ensures |r| == |s| - 1
    ensures forall i :: 0 <= i < k ==> r[i] == s[i]
    ensures forall i :: k <= i < |r| ==> r[i] == s[i + 1]
    ensures multiset(r) + multiset{s[k]} == multiset(s)
  {
    assert s == s[..k] + [s[k]] + s[k + 1..];
    s[..k] + s[k + 1..]
  }
}
