/**
 * Sequence operations that the JavaScript source expresses with `Array.prototype.filter`,
 * `new Set(xs.map(key))` and grouping `reduce`s, with the facts the rest of the model needs.
 * Recursive definitions peel off the LAST element so that loops that push onto an
 * accumulator can be related to them step by step.
 */
module Seqs {

  /** No element occurs twice. */
  predicate NoDup<T(==,!new)>(s: seq<T>) {
    forall i, j :: 0 <= i < j < |s| ==> s[i] != s[j]
  }

  /** Elements of `s` that satisfy `p`, in input order (`s.filter(p)`). */
  function Filter<T(==,!new)>(s: seq<T>, p: T -> bool): (r: seq<T>)
    ensures |r| <= |s|
    ensures forall x :: x in r <==> x in s && p(x)
    decreases |s|
  {
    if s == [] then []
    else
      var init, last := s[..|s| - 1], s[|s| - 1];
      assert s == init + [last];
      Filter(init, p) + (if p(last) then [last] else [])
  }

  lemma FilterSnoc<T(!new)>(s: seq<T>, x: T, p: T -> bool)
    ensures Filter(s + [x], p) == Filter(s, p) + (if p(x) then [x] else [])
  {
    assert (s + [x])[..|s|] == s;
  }

  /** Filtering distributes over concatenation. */
  lemma {:induction false} FilterAppend<T(!new)>(a: seq<T>, b: seq<T>, p: T -> bool)
    ensures Filter(a + b, p) == Filter(a, p) + Filter(b, p)
    decreases |b|
  {
    if b == [] {
      assert a + b == a;
    } else {
      var init, last := b[..|b| - 1], b[|b| - 1];
      var tail := if p(last) then [last] else [];
      assert b == init + [last];
      assert a + b == (a + init) + [last];
      calc {
        Filter(a + b, p);
        { FilterSnoc(a + init, last, p); }
        Filter(a + init, p) + tail;
        { FilterAppend(a, init, p); }
        Filter(a, p) + Filter(init, p) + tail;
        { FilterSnoc(init, last, p); }
        Filter(a, p) + Filter(b, p);
      }
    }
  }

  /** A filter whose predicate holds everywhere keeps the whole sequence. */
  lemma {:induction false} FilterAll<T(!new)>(s: seq<T>, p: T -> bool)
    requires forall x :: x in s ==> p(x)
    ensures Filter(s, p) == s
    decreases |s|
  {
    if s != [] {
      var init := s[..|s| - 1];
      assert s == init + [s[|s| - 1]];
      FilterAll(init, p);
    }
  }

  /** Two predicates that agree on the elements of `s` select the same elements. */
  lemma {:induction false} FilterCongruent<T(!new)>(s: seq<T>, p: T -> bool, q: T -> bool)
    requires forall x :: x in s ==> p(x) == q(x)
    ensures Filter(s, p) == Filter(s, q)
    decreases |s|
  {
    if s != [] {
      var init := s[..|s| - 1];
      assert s == init + [s[|s| - 1]];
      FilterCongruent(init, p, q);
    }
  }

  /** Complementary predicates split `s`: the two counts add up to its length. */
  lemma {:induction false} FilterPartition<T(!new)>(s: seq<T>, p: T -> bool, q: T -> bool)
    requires forall x :: x in s ==> (q(x) <==> !p(x))
    ensures |Filter(s, p)| + |Filter(s, q)| == |s|
    decreases |s|
  {
    if s != [] {
      var init := s[..|s| - 1];
      assert s == init + [s[|s| - 1]];
      FilterPartition(init, p, q);
    }
  }

  /** A weaker predicate selects at least as many elements. */
  lemma {:induction false} FilterMonotone<T(!new)>(s: seq<T>, p: T -> bool, q: T -> bool)
    requires forall x :: x in s && p(x) ==> q(x)
    ensures |Filter(s, p)| <= |Filter(s, q)|
    decreases |s|
  {
    if s != [] {
      var init := s[..|s| - 1];
      assert s == init + [s[|s| - 1]];
      FilterMonotone(init, p, q);
    }
  }

  /** Three predicates of which at most one holds on each element select at most `|s|` in all. */
  lemma {:induction false} FilterDisjoint3<T(!new)>(s: seq<T>, p: T -> bool, q: T -> bool, r: T -> bool)
    requires forall x :: x in s ==> !(p(x) && q(x)) && !(p(x) && r(x)) && !(q(x) && r(x))
    ensures |Filter(s, p)| + |Filter(s, q)| + |Filter(s, r)| <= |s|
    decreases |s|
  {
    if s != [] {
      var init, last := s[..|s| - 1], s[|s| - 1];
      assert s == init + [last];
      FilterDisjoint3(init, p, q, r);
      FilterSnoc(init, last, p);
      FilterSnoc(init, last, q);
      FilterSnoc(init, last, r);
    }
  }

  /** Four predicates of which at most one holds on each element select at most `|s|` in all. */
  lemma {:induction false} FilterDisjoint4<T(!new)>(s: seq<T>, p: T -> bool, q: T -> bool, r: T -> bool, t: T -> bool)
    requires forall x :: x in s ==>
      !(p(x) && q(x)) && !(p(x) && r(x)) && !(p(x) && t(x)) && !(q(x) && r(x)) && !(q(x) && t(x)) && !(r(x) && t(x))
    ensures |Filter(s, p)| + |Filter(s, q)| + |Filter(s, r)| + |Filter(s, t)| <= |s|
    decreases |s|
  {
    if s != [] {
      var init, last := s[..|s| - 1], s[|s| - 1];
      assert s == init + [last];
      FilterDisjoint4(init, p, q, r, t);
      FilterSnoc(init, last, p);
      FilterSnoc(init, last, q);
      FilterSnoc(init, last, r);
      FilterSnoc(init, last, t);
    }
  }

  /** A predicate that holds nowhere selects nothing. */
  lemma FilterNone<T(!new)>(s: seq<T>, p: T -> bool)
    requires forall x :: x in s ==> !p(x)
    ensures Filter(s, p) == []
  {
    if Filter(s, p) != [] {
      assert Filter(s, p)[0] in Filter(s, p);
    }
  }

  /** Filtering twice is filtering once by the conjunction. */
  lemma {:induction false} FilterFilter<T(!new)>(s: seq<T>, p: T -> bool, q: T -> bool, pq: T -> bool)
    requires forall x :: x in s ==> (pq(x) <==> p(x) && q(x))
    ensures Filter(Filter(s, p), q) == Filter(s, pq)
    decreases |s|
  {
    if s != [] {
      var init, last := s[..|s| - 1], s[|s| - 1];
      assert s == init + [last];
      FilterFilter(init, p, q, pq);
      FilterSnoc(init, last, p);
      FilterSnoc(init, last, pq);
      if p(last) {
        FilterSnoc(Filter(init, p), last, q);
      } else {
        assert Filter(s, p) == Filter(init, p);
      }
    }
  }

  /** Elements of `s` whose key is `k`, in input order (one group of a grouping `reduce`). */
  function Select<T(==,!new), K(==,!new)>(s: seq<T>, key: T -> K, k: K): (r: seq<T>)
    ensures |r| <= |s|
    ensures forall x :: x in r <==> x in s && key(x) == k
    decreases |s|
  {
    if s == [] then []
    else
      var init, last := s[..|s| - 1], s[|s| - 1];
      assert s == init + [last];
      Select(init, key, k) + (if key(last) == k then [last] else [])
  }

  lemma SelectSnoc<T(!new), K(!new)>(s: seq<T>, x: T, key: T -> K, k: K)
    ensures Select(s + [x], key, k) == Select(s, key, k) + (if key(x) == k then [x] else [])
  {
    assert (s + [x])[..|s|] == s;
  }

  /** Grouping a concatenation concatenates the groups: a group keeps the input order. */
  lemma {:induction false} SelectAppend<T(!new), K(!new)>(a: seq<T>, b: seq<T>, key: T -> K, k: K)
    ensures Select(a + b, key, k) == Select(a, key, k) + Select(b, key, k)
    decreases |b|
  {
    if b == [] {
      assert a + b == a;
    } else {
      var init, last := b[..|b| - 1], b[|b| - 1];
      var tail := if key(last) == k then [last] else [];
      calc {
        Select(a + b, key, k);
        == { assert a + b == (a + init) + [last]; SelectSnoc(a + init, last, key, k); }
        Select(a + init, key, k) + tail;
        == { SelectAppend(a, init, key, k); }
        (Select(a, key, k) + Select(init, key, k)) + tail;
        Select(a, key, k) + (Select(init, key, k) + tail);
        == { assert b == init + [last]; SelectSnoc(init, last, key, k); }
        Select(a, key, k) + Select(b, key, k);
      }
    }
  }

  /**
   * The keys of `s` without repetition, in order of first appearance
   * (`Array.from(new Set(s.map(key)))`, and also the key order of a `Map` or
   * string-keyed record filled in by scanning `s`).
   */
  function DistinctKeys<T(==,!new), K(==,!new)>(s: seq<T>, key: T -> K): (r: seq<K>)
    ensures NoDup(r)
    ensures forall x :: x in s ==> key(x) in r
    ensures forall k :: k in r ==> exists x :: x in s && key(x) == k
    decreases |s|
  {
    if s == [] then []
    else
      var init, last := s[..|s| - 1], s[|s| - 1];
      assert s == init + [last];
      var d := DistinctKeys(init, key);
      if key(last) in d then d else d + [key(last)]
  }

  lemma DistinctKeysSnoc<T(!new), K(!new)>(s: seq<T>, x: T, key: T -> K)
    ensures DistinctKeys(s + [x], key)
         == if key(x) in DistinctKeys(s, key) then DistinctKeys(s, key) else DistinctKeys(s, key) + [key(x)]
  {
    assert (s + [x])[..|s|] == s;
  }

  /** Every key that occurs has a non-empty group. */
  lemma SelectNonEmpty<T(!new), K(!new)>(s: seq<T>, key: T -> K, k: K)
    requires k in DistinctKeys(s, key)
    ensures |Select(s, key, k)| > 0
  {
    var x :| x in s && key(x) == k;
    assert x in Select(s, key, k);
  }

  /** Sum over the keys `ks` of the sizes of their groups. */
  function SumGroupSizes<T(==,!new), K(==,!new)>(s: seq<T>, key: T -> K, ks: seq<K>): nat
    decreases |ks|
  {
    if ks == [] then 0 else |Select(s, key, ks[0])| + SumGroupSizes(s, key, ks[1..])
  }

  /** Number of positions of `ks` holding `k`. */
  function Occurrences<K(==,!new)>(k: K, ks: seq<K>): nat
    decreases |ks|
  {
    if ks == [] then 0 else (if ks[0] == k then 1 else 0) + Occurrences(k, ks[1..])
  }

  lemma {:induction false} OccurrencesNoDup<K(!new)>(k: K, ks: seq<K>)
    requires NoDup(ks)
    ensures Occurrences(k, ks) == if k in ks then 1 else 0
    decreases |ks|
  {
    if ks != [] {
      assert NoDup(ks[1..]) by {
        forall i, j | 0 <= i < j < |ks[1..]| ensures ks[1..][i] != ks[1..][j] {
          assert ks[1..][i] == ks[i + 1] && ks[1..][j] == ks[j + 1];
        }
      }
      OccurrencesNoDup(k, ks[1..]);
      if ks[0] == k {
        assert k !in ks[1..] by {
          forall j | 0 <= j < |ks[1..]| ensures ks[1..][j] != k {
            assert ks[1..][j] == ks[j + 1];
          }
        }
      } else {
        assert k in ks <==> k in ks[1..] by {
          assert ks == [ks[0]] + ks[1..];
        }
      }
    }
  }

  lemma {:induction false} SumGroupSizesSnoc<T(!new), K(!new)>(s: seq<T>, x: T, key: T -> K, ks: seq<K>)
    ensures SumGroupSizes(s + [x], key, ks) == SumGroupSizes(s, key, ks) + Occurrences(key(x), ks)
    decreases |ks|
  {
    if ks != [] {
      SelectSnoc(s, x, key, ks[0]);
      SumGroupSizesSnoc(s, x, key, ks[1..]);
    }
  }

  /**
   * Grouping loses and duplicates nothing: when the keys `ks` are distinct and cover every
   * key of `s`, the group sizes add up to `|s|`.
   */
  lemma {:induction false} PartitionSum<T(!new), K(!new)>(s: seq<T>, key: T -> K, ks: seq<K>)
    requires NoDup(ks)
    requires forall x :: x in s ==> key(x) in ks
    ensures SumGroupSizes(s, key, ks) == |s|
    decreases |s|
  {
    if s == [] {
      SumEmpty(key, ks);
    } else {
      var init, last := s[..|s| - 1], s[|s| - 1];
      assert s == init + [last];
      PartitionSum(init, key, ks);
      SumGroupSizesSnoc(init, last, key, ks);
      OccurrencesNoDup(key(last), ks);
    }
  }

  lemma {:induction false} SumEmpty<T(!new), K(!new)>(key: T -> K, ks: seq<K>)
    ensures SumGroupSizes([], key, ks) == 0
    decreases |ks|
  {
    if ks != [] {
      SumEmpty(key, ks[1..]);
    }
  }

  /** The groups of all distinct keys of `s` add up to `|s|`. */
  lemma GroupsCoverAll<T(!new), K(!new)>(s: seq<T>, key: T -> K)
    ensures SumGroupSizes(s, key, DistinctKeys(s, key)) == |s|
  {
    PartitionSum(s, key, DistinctKeys(s, key));
  }
}
