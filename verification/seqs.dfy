/**
 * Sequence operations that stand for MongoDB's collection primitives:
 * `Find` is `findOne` (the first match in natural order), `Filter` is
 * `find`/`deleteMany` (keep or drop every match), `RemoveAt` is
 * `findByIdAndDelete` once the document's position is known.
 */
module Seqs {
  import opened Wrappers

  /** Position of the first element satisfying `p`. */
  function Find<T>(s: seq<T>, p: T -> bool): (r: Option<nat>)
    ensures r.Some? ==> r.value < |s| && p(s[r.value])
    ensures r.Some? ==> forall j :: 0 <= j < r.value ==> !p(s[j])
    ensures r.None? <==> forall j :: 0 <= j < |s| ==> !p(s[j])
  {
    if s == [] then None
    else if p(s[0]) then Some(0)
    else match Find(s[1..], p)
      case None => None
      case Some(i) => Some(i + 1)
  }

  /** The elements satisfying `p`, in their original order. */
  function Filter<T(!new)>(s: seq<T>, p: T -> bool): (r: seq<T>)
    ensures |r| <= |s|
    ensures forall i :: 0 <= i < |r| ==> p(r[i])
  {
    if s == [] then []
    else (if p(s[0]) then [s[0]] else []) + Filter(s[1..], p)
  }

  /** An element is kept exactly when it occurs in `s` and satisfies `p`. */
  lemma {:induction false} FilterMembers<T(!new)>(s: seq<T>, p: T -> bool)
    ensures forall x :: x in Filter(s, p) <==> x in s && p(x)
  {
    if s != [] {
      FilterMembers(s[1..], p);
      assert s == [s[0]] + s[1..];
    }
  }

  /** `s` without its element at position `i`. */
  function RemoveAt<T>(s: seq<T>, i: nat): (r: seq<T>)
    requires i < |s|
    ensures |r| == |s| - 1
    ensures forall j :: 0 <= j < i ==> r[j] == s[j]
    ensures forall j :: i <= j < |r| ==> r[j] == s[j + 1]
  {
    s[..i] + s[i + 1..]
  }

  /** No two elements share a key. */
  ghost predicate UniqueBy<T, K>(s: seq<T>, key: T -> K) {
    forall i, j :: 0 <= i < j < |s| ==> key(s[i]) != key(s[j])
  }

  lemma {:induction false} FilterKeepsAll<T(!new)>(s: seq<T>, p: T -> bool)
    requires forall i :: 0 <= i < |s| ==> p(s[i])
    ensures Filter(s, p) == s
  {
    if s != [] {
      FilterKeepsAll(s[1..], p);
    }
  }

  lemma {:induction false} FilterDropsAll<T(!new)>(s: seq<T>, p: T -> bool)
    requires forall i :: 0 <= i < |s| ==> !p(s[i])
    ensures Filter(s, p) == []
  {
    if s != [] {
      FilterDropsAll(s[1..], p);
    }
  }

  /** Filtering twice is filtering once by the conjunction. */
  lemma {:induction false} FilterFilter<T(!new)>(s: seq<T>, p: T -> bool, q: T -> bool, pq: T -> bool)
    requires forall x :: pq(x) == (p(x) && q(x))
    ensures Filter(Filter(s, p), q) == Filter(s, pq)
  {
    if s != [] {
      FilterFilter(s[1..], p, q, pq);
      if p(s[0]) {
        assert Filter(s, p) == [s[0]] + Filter(s[1..], p);
        assert Filter(s, p)[1..] == Filter(s[1..], p);
      } else {
        assert Filter(s, p) == Filter(s[1..], p);
      }
    }
  }

  /** Splitting by `p` and its complement loses and duplicates nothing, element by element. */
  lemma {:induction false} FilterSplitCounts<T(!new)>(s: seq<T>, p: T -> bool, q: T -> bool, x: T)
    requires forall i :: 0 <= i < |s| ==> q(s[i]) == !p(s[i])
    ensures multiset(Filter(s, p))[x] + multiset(Filter(s, q))[x] == multiset(s)[x]
  {
    if s != [] {
      var t := s[1..];
      forall i | 0 <= i < |t| ensures q(t[i]) == !p(t[i]) {
        assert t[i] == s[i + 1];
      }
      FilterSplitCounts(t, p, q, x);
      assert s == [s[0]] + t;
      assert q(s[0]) == !p(s[0]);
      if p(s[0]) {
        assert Filter(s, p) == [s[0]] + Filter(t, p);
        assert Filter(s, q) == Filter(t, q);
      } else {
        assert Filter(s, p) == Filter(t, p);
        assert Filter(s, q) == [s[0]] + Filter(t, q);
      }
    }
  }

  /** Splitting by `p` and its complement loses and duplicates nothing. */
  lemma FilterSplit<T(!new)>(s: seq<T>, p: T -> bool, q: T -> bool)
    requires forall i :: 0 <= i < |s| ==> q(s[i]) == !p(s[i])
    ensures multiset(Filter(s, p)) + multiset(Filter(s, q)) == multiset(s)
  {
    forall x ensures (multiset(Filter(s, p)) + multiset(Filter(s, q)))[x] == multiset(s)[x] {
      FilterSplitCounts(s, p, q, x);
    }
  }

  lemma {:induction false} FilterUnique<T(!new), K>(s: seq<T>, p: T -> bool, key: T -> K)
    requires UniqueBy(s, key)
    ensures UniqueBy(Filter(s, p), key)
  {
    if s != [] {
      var t := s[1..];
      UniqueTail(s, key);
      FilterUnique(t, p, key);
      FilterMembers(t, p);
      if p(s[0]) {
        var r := Filter(s, p);
        assert r == [s[0]] + Filter(t, p);
        forall i, j | 0 <= i < j < |r| ensures key(r[i]) != key(r[j]) {
          if i == 0 {
            assert r[j] in t;
            var k :| 0 <= k < |t| && t[k] == r[j];
            assert s[k + 1] == r[j];
          }
        }
      }
    }
  }

  lemma RemoveAtUnique<T, K>(s: seq<T>, i: nat, key: T -> K)
    requires i < |s| && UniqueBy(s, key)
    ensures UniqueBy(RemoveAt(s, i), key)
    ensures forall j :: 0 <= j < |RemoveAt(s, i)| ==> key(RemoveAt(s, i)[j]) != key(s[i])
  {
    var r := RemoveAt(s, i);
    forall a, b | 0 <= a < b < |r| ensures key(r[a]) != key(r[b]) {
      var a' := if a < i then a else a + 1;
      var b' := if b < i then b else b + 1;
      assert r[a] == s[a'] && r[b] == s[b'];
    }
  }

  /** In a sequence with unique keys, removing position `i` is keeping every element whose key differs from its key. */
  lemma {:induction false} RemoveAtIsFilter<T(!new), K>(s: seq<T>, i: nat, key: T -> K, p: T -> bool)
    requires i < |s| && UniqueBy(s, key)
    requires forall x :: p(x) == (key(x) != key(s[i]))
    ensures RemoveAt(s, i) == Filter(s, p)
  {
    if i == 0 {
      RemoveHeadIsFilter(s, key, p);
    } else {
      var t := s[1..];
      UniqueTail(s, key);
      assert t[i - 1] == s[i];
      RemoveAtIsFilter(t, i - 1, key, p);
      assert p(s[0]) by {
        assert key(s[0]) != key(s[i]);
      }
      assert RemoveAt(s, i) == [s[0]] + RemoveAt(t, i - 1);
    }
  }

  lemma RemoveHeadIsFilter<T(!new), K>(s: seq<T>, key: T -> K, p: T -> bool)
    requires s != [] && UniqueBy(s, key)
    requires forall x :: p(x) == (key(x) != key(s[0]))
    ensures RemoveAt(s, 0) == Filter(s, p)
  {
    var t := s[1..];
    forall j | 0 <= j < |t| ensures p(t[j]) {
      assert t[j] == s[j + 1];
    }
    FilterKeepsAll(t, p);
    assert RemoveAt(s, 0) == t;
  }

  lemma UniqueTail<T, K>(s: seq<T>, key: T -> K)
    requires s != [] && UniqueBy(s, key)
    ensures UniqueBy(s[1..], key)
  {
    var t := s[1..];
    forall a, b | 0 <= a < b < |t| ensures key(t[a]) != key(t[b]) {
      assert t[a] == s[a + 1] && t[b] == s[b + 1];
    }
  }

  lemma AppendUnique<T, K>(s: seq<T>, x: T, key: T -> K)
    requires UniqueBy(s, key)
    requires forall i :: 0 <= i < |s| ==> key(s[i]) != key(x)
    ensures UniqueBy(s + [x], key)
  {
    var r := s + [x];
    forall a, b | 0 <= a < b < |r| ensures key(r[a]) != key(r[b]) {
      assert r[a] == s[a];
    }
  }

  lemma UpdateUnique<T, K>(s: seq<T>, i: nat, x: T, key: T -> K)
    requires i < |s| && UniqueBy(s, key) && key(x) == key(s[i])
    ensures UniqueBy(s[i := x], key)
  {
  }
}
