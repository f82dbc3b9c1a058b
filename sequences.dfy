/**
 * The array operations the bookstore builds on (`filter`, `findIndex`, `find`,
 * `reduce` of a sum and a stable `sort` by a numeric key), as functions over
 * sequences, with the facts about them that the rest of the model uses.
 */
module Sequences {
  import opened Wrappers

  // ---------------------------------------------------------------------------
  // Subsequences and distinct keys
  // ---------------------------------------------------------------------------

  /** `r` can be obtained from `s` by deleting elements, keeping the order of the rest. */
  predicate IsSubsequence<T(==)>(r: seq<T>, s: seq<T>)
  {
    if r == [] then true
    else if s == [] then false
    else (r[0] == s[0] && IsSubsequence(r[1..], s[1..])) || IsSubsequence(r, s[1..])
  }

  lemma {:induction false} SubsequenceReflexive<T>(s: seq<T>)
    ensures IsSubsequence(s, s)
  {
    if s != [] {
      SubsequenceReflexive(s[1..]);
    }
  }

  /** No two elements of `s` share a key. */
  predicate DistinctBy<T, K(==)>(key: T -> K, s: seq<T>)
  {
    forall i, j :: 0 <= i < j < |s| ==> key(s[i]) != key(s[j])
  }

  // ---------------------------------------------------------------------------
  // filter
  // ---------------------------------------------------------------------------

  /** The elements of `s` that satisfy `p`, in their original order (`Array.prototype.filter`). */
  function Filter<T>(p: T -> bool, s: seq<T>): (r: seq<T>)
    ensures |r| <= |s|
    ensures forall i :: 0 <= i < |r| ==> r[i] in s && p(r[i])
    ensures forall i :: 0 <= i < |s| && p(s[i]) ==> s[i] in r
  {
    if s == [] then []
    else if p(s[0]) then [s[0]] + Filter(p, s[1..])
    else Filter(p, s[1..])
  }

  lemma {:induction false} FilterIsSubsequence<T>(p: T -> bool, s: seq<T>)
    ensures IsSubsequence(Filter(p, s), s)
  {
    if s != [] {
      FilterIsSubsequence(p, s[1..]);
      if p(s[0]) {
        assert Filter(p, s)[1..] == Filter(p, s[1..]);
      }
    }
  }

  /** Filtering keeps everything exactly when every element passes. */
  lemma {:induction false} FilterKeepsAll<T>(p: T -> bool, s: seq<T>)
    ensures Filter(p, s) == s <==> forall x :: x in s ==> p(x)
  {
    if s != [] {
      FilterKeepsAll(p, s[1..]);
      if !p(s[0]) {
        assert |Filter(p, s)| <= |s[1..]| < |s|;
      }
    }
  }

  /** The result is shorter than the input exactly when some element fails the test. */
  lemma {:induction false} FilterShrinks<T>(p: T -> bool, s: seq<T>)
    ensures |Filter(p, s)| < |s| <==> exists x :: x in s && !p(x)
  {
    if s != [] {
      FilterShrinks(p, s[1..]);
      if p(s[0]) {
        assert forall x :: x in s && !p(x) ==> x in s[1..];
      } else {
        assert s[0] in s;
      }
    }
  }

  /** Nothing passes, nothing is kept. */
  lemma {:induction false} FilterNone<T>(p: T -> bool, s: seq<T>)
    requires forall i :: 0 <= i < |s| ==> !p(s[i])
    ensures Filter(p, s) == []
  {
    if s != [] {
      FilterNone(p, s[1..]);
    }
  }

  lemma {:induction false} FilterAppend<T>(p: T -> bool, s: seq<T>, t: seq<T>)
    ensures Filter(p, s + t) == Filter(p, s) + Filter(p, t)
  {
    if s == [] {
      assert s + t == t;
    } else {
      assert (s + t)[0] == s[0];
      assert (s + t)[1..] == s[1..] + t;
      FilterAppend(p, s[1..], t);
    }
  }

  /** Filtering a sequence after one more element is filtering the prefix, then the element. */
  lemma FilterSnoc<T>(p: T -> bool, s: seq<T>, x: T)
    ensures Filter(p, s + [x]) == Filter(p, s) + (if p(x) then [x] else [])
  {
    FilterAppend(p, s, [x]);
    assert [x][1..] == [];
  }

  lemma {:induction false} FilterIdempotent<T>(p: T -> bool, s: seq<T>)
    ensures Filter(p, Filter(p, s)) == Filter(p, s)
  {
    FilterKeepsAll(p, Filter(p, s));
  }

  /** Filtering keeps keys distinct. */
  lemma {:induction false} FilterKeepsDistinct<T, K>(key: T -> K, p: T -> bool, s: seq<T>)
    requires DistinctBy(key, s)
    ensures DistinctBy(key, Filter(p, s))
  {
    if s != [] {
      assert DistinctBy(key, s[1..]) by {
        forall i, j | 0 <= i < j < |s[1..]| ensures key(s[1..][i]) != key(s[1..][j]) {
          assert s[1..][i] == s[i + 1] && s[1..][j] == s[j + 1];
        }
      }
      FilterKeepsDistinct(key, p, s[1..]);
      if p(s[0]) {
        var r := Filter(p, s);
        forall j | 0 < j < |r| ensures key(r[0]) != key(r[j]) {
          assert r[j] in Filter(p, s[1..]);
          var k :| 0 <= k < |s[1..]| && s[1..][k] == r[j];
          assert s[k + 1] == r[j];
        }
        forall i, j | 0 <= i < j < |r| ensures key(r[i]) != key(r[j]) {
          if i > 0 {
            assert r[i] == Filter(p, s[1..])[i - 1] && r[j] == Filter(p, s[1..])[j - 1];
          }
        }
      }
    }
  }

  // ---------------------------------------------------------------------------
  // findIndex and find
  // ---------------------------------------------------------------------------

  /** The first index whose element satisfies `p` (`Array.prototype.findIndex`, with -1 as `None`). */
  function FirstIndex<T>(p: T -> bool, s: seq<T>): (r: Option<nat>)
    ensures r.Some? ==> r.value < |s| && p(s[r.value]) && forall j :: 0 <= j < r.value ==> !p(s[j])
    ensures r.None? <==> forall j :: 0 <= j < |s| ==> !p(s[j])
  {
    if s == [] then None
    else if p(s[0]) then Some(0)
    else match FirstIndex(p, s[1..])
      case None => None
      case Some(i) => Some(i + 1)
  }

  /** The first element that satisfies `p` (`Array.prototype.find`, with `undefined` as `None`). */
  function Find<T>(p: T -> bool, s: seq<T>): (r: Option<T>)
    ensures r.Some? ==> exists i :: 0 <= i < |s| && s[i] == r.value && p(r.value) && forall j :: 0 <= j < i ==> !p(s[j])
    ensures r.None? <==> forall j :: 0 <= j < |s| ==> !p(s[j])
  {
    match FirstIndex(p, s)
    case None => None
    case Some(i) => Some(s[i])
  }

  // ---------------------------------------------------------------------------
  // reduce of a sum
  // ---------------------------------------------------------------------------

  /** `s.reduce((acc, x) => acc + f(x), 0)`: folds from the left, so the last element is added last. */
  function Sum<T>(f: T -> int, s: seq<T>): int
  {
    if s == [] then 0 else Sum(f, s[..|s| - 1]) + f(s[|s| - 1])
  }

  lemma SumSnoc<T>(f: T -> int, s: seq<T>, x: T)
    ensures Sum(f, s + [x]) == Sum(f, s) + f(x)
  {
    assert (s + [x])[..|s|] == s;
  }

  lemma {:induction false} SumAppend<T>(f: T -> int, s: seq<T>, t: seq<T>)
    ensures Sum(f, s + t) == Sum(f, s) + Sum(f, t)
    decreases |t|
  {
    if t == [] {
      assert s + t == s;
    } else {
      var t' := t[..|t| - 1];
      assert s + t == (s + t') + [t[|t| - 1]];
      assert t == t' + [t[|t| - 1]];
      SumSnoc(f, s + t', t[|t| - 1]);
      SumSnoc(f, t', t[|t| - 1]);
      SumAppend(f, s, t');
    }
  }

  /** Replacing one element changes the sum by the difference of the two values. */
  lemma {:induction false} SumUpdate<T>(f: T -> int, s: seq<T>, k: int, x: T)
    requires 0 <= k < |s|
    ensures Sum(f, s[k := x]) == Sum(f, s) - f(s[k]) + f(x)
  {
    var pre, post := s[..k], s[k + 1..];
    assert s == (pre + [s[k]]) + post;
    assert s[k := x] == (pre + [x]) + post;
    SumAppend(f, pre + [s[k]], post);
    SumAppend(f, pre + [x], post);
    SumSnoc(f, pre, s[k]);
    SumSnoc(f, pre, x);
  }

  /** Leaving out one element takes its value out of the sum. */
  lemma {:induction false} SumWithout<T>(f: T -> int, s: seq<T>, k: int)
    requires 0 <= k < |s|
    ensures Sum(f, s[..k] + s[k + 1..]) == Sum(f, s) - f(s[k])
  {
    var pre, post := s[..k], s[k + 1..];
    assert s == (pre + [s[k]]) + post;
    SumAppend(f, pre + [s[k]], post);
    SumSnoc(f, pre, s[k]);
    SumAppend(f, pre, post);
  }

  /** When every term is at least `lo`, the sum is at least `lo` times the number of terms. */
  lemma {:induction false} SumAtLeast<T>(f: T -> int, s: seq<T>, lo: int)
    requires forall x :: x in s ==> f(x) >= lo
    ensures Sum(f, s) >= lo * |s|
  {
    if s != [] {
      SumAtLeast(f, s[..|s| - 1], lo);
    }
  }

  // ---------------------------------------------------------------------------
  // stable sort by a numeric key, largest first
  // ---------------------------------------------------------------------------

  predicate SortedDesc<T>(key: T -> int, s: seq<T>)
  {
    forall i, j :: 0 <= i < j < |s| ==> key(s[i]) >= key(s[j])
  }

  /**
   * Puts `x` before the first element whose key is not larger than its own:
   * `x` comes earlier in the input than everything in `s`, so ties keep that order.
   */
  function Insert<T>(key: T -> int, x: T, s: seq<T>): (r: seq<T>)
    ensures multiset(r) == multiset(s) + multiset{x}
    ensures |r| == |s| + 1
  {
    if s == [] || key(s[0]) <= key(x) then [x] + s
    else
      assert s == [s[0]] + s[1..];
      [s[0]] + Insert(key, x, s[1..])
  }

  /** A bound on every key of `s` and on `x` bounds every key after the insertion. */
  lemma {:induction false} InsertBounded<T>(key: T -> int, x: T, s: seq<T>, hi: int)
    requires key(x) <= hi
    requires forall i :: 0 <= i < |s| ==> key(s[i]) <= hi
    ensures forall i :: 0 <= i < |Insert(key, x, s)| ==> key(Insert(key, x, s)[i]) <= hi
  {
    if s != [] && key(s[0]) > key(x) {
      InsertBounded(key, x, s[1..], hi);
    }
  }

  /** An element no smaller than anything in a sorted sequence can go in front of it. */
  lemma SortedCons<T>(key: T -> int, a: T, t: seq<T>)
    requires SortedDesc(key, t)
    requires forall j :: 0 <= j < |t| ==> key(t[j]) <= key(a)
    ensures SortedDesc(key, [a] + t)
  {
    var r := [a] + t;
    forall i, j | 0 <= i < j < |r| ensures key(r[i]) >= key(r[j]) {
      assert r[j] == t[j - 1];
      if i > 0 {
        assert r[i] == t[i - 1];
      }
    }
  }

  lemma {:induction false} InsertSorted<T>(key: T -> int, x: T, s: seq<T>)
    requires SortedDesc(key, s)
    ensures SortedDesc(key, Insert(key, x, s))
  {
    if s == [] || key(s[0]) <= key(x) {
      SortedCons(key, x, s);
    } else {
      var tail := s[1..];
      assert SortedDesc(key, tail) && forall j :: 0 <= j < |tail| ==> key(tail[j]) <= key(s[0]) by {
        assert forall j :: 0 <= j < |tail| ==> tail[j] == s[j + 1];
      }
      InsertSorted(key, x, tail);
      InsertBounded(key, x, tail, key(s[0]));
      SortedCons(key, s[0], Insert(key, x, tail));
    }
  }

  /** `[...s].sort((a, b) => key(b) - key(a))`: a stable sort that puts the largest key first. */
  function SortDesc<T>(key: T -> int, s: seq<T>): (r: seq<T>)
    ensures multiset(r) == multiset(s)
    ensures |r| == |s|
  {
    if s == [] then []
    else
      assert s == [s[0]] + s[1..];
      Insert(key, s[0], SortDesc(key, s[1..]))
  }

  lemma {:induction false} SortDescSorted<T>(key: T -> int, s: seq<T>)
    ensures SortedDesc(key, SortDesc(key, s))
  {
    if s != [] {
      SortDescSorted(key, s[1..]);
      InsertSorted(key, s[0], SortDesc(key, s[1..]));
    }
  }

  /** The elements that have key `k`. */
  function WithKey<T>(key: T -> int, k: int): T -> bool
  {
    x => key(x) == k
  }

  lemma {:induction false} InsertStable<T>(key: T -> int, x: T, s: seq<T>, k: int)
    requires SortedDesc(key, s)
    ensures Filter(WithKey(key, k), Insert(key, x, s))
         == Filter(WithKey(key, k), [x] + s)
  {
    var p := WithKey(key, k);
    if s != [] && key(s[0]) > key(x) {
      InsertStable(key, x, s[1..], k);
      assert Insert(key, x, s) == [s[0]] + Insert(key, x, s[1..]);
      FilterAppend(p, [s[0]], Insert(key, x, s[1..]));
      FilterAppend(p, [x], s[1..]);
      FilterAppend(p, [s[0]], s[1..]);
      FilterAppend(p, [x], s);
      assert [s[0]] + s[1..] == s;
      if p(x) {
        // every key in s[1..] is at most key(s[0]), which is larger than key(x) == k,
        // so the filter drops s[0] and the order of x against the rest of s[1..] does not matter
        assert !p(s[0]);
        assert Filter(p, [s[0]]) == [];
      } else {
        assert Filter(p, [x]) == [];
      }
    }
  }

  /** Elements with equal keys keep their relative order: the sort is stable. */
  lemma {:induction false} SortDescStable<T>(key: T -> int, s: seq<T>, k: int)
    ensures Filter(WithKey(key, k), SortDesc(key, s)) == Filter(WithKey(key, k), s)
  {
    if s != [] {
      var p := WithKey(key, k);
      SortDescStable(key, s[1..], k);
      SortDescSorted(key, s[1..]);
      InsertStable(key, s[0], SortDesc(key, s[1..]), k);
      FilterAppend(p, [s[0]], SortDesc(key, s[1..]));
      FilterAppend(p, [s[0]], s[1..]);
      assert [s[0]] + s[1..] == s;
    }
  }

  /** Dropping the first element keeps keys distinct. */
  lemma DistinctTail<T, K>(id: T -> K, s: seq<T>)
    requires s != [] && DistinctBy(id, s)
    ensures DistinctBy(id, s[1..])
    ensures forall j :: 0 <= j < |s[1..]| ==> id(s[1..][j]) != id(s[0])
  {
    forall i, j | 0 <= i < j < |s[1..]| ensures id(s[1..][i]) != id(s[1..][j]) {
      assert s[1..][i] == s[i + 1] && s[1..][j] == s[j + 1];
    }
    forall j | 0 <= j < |s[1..]| ensures id(s[1..][j]) != id(s[0]) {
      assert s[1..][j] == s[j + 1];
    }
  }

  /** An element whose key no element of a distinct sequence has can go in front of it. */
  lemma DistinctCons<T, K>(id: T -> K, a: T, t: seq<T>)
    requires DistinctBy(id, t)
    requires forall j :: 0 <= j < |t| ==> id(t[j]) != id(a)
    ensures DistinctBy(id, [a] + t)
  {
    var r := [a] + t;
    forall i, j | 0 <= i < j < |r| ensures id(r[i]) != id(r[j]) {
      assert r[j] == t[j - 1];
      if i > 0 {
        assert r[i] == t[i - 1];
      }
    }
  }

  /** Inserting keeps a key out if neither `x` nor `s` has it. */
  lemma {:induction false} InsertAvoids<T, K>(key: T -> int, id: T -> K, x: T, s: seq<T>, v: K)
    requires id(x) != v
    requires forall i :: 0 <= i < |s| ==> id(s[i]) != v
    ensures forall i :: 0 <= i < |Insert(key, x, s)| ==> id(Insert(key, x, s)[i]) != v
  {
    if s != [] && key(s[0]) > key(x) {
      InsertAvoids(key, id, x, s[1..], v);
    }
  }

  /** Sorting keeps a key out if the input does not have it. */
  lemma {:induction false} SortDescAvoids<T, K>(key: T -> int, id: T -> K, s: seq<T>, v: K)
    requires forall i :: 0 <= i < |s| ==> id(s[i]) != v
    ensures forall i :: 0 <= i < |SortDesc(key, s)| ==> id(SortDesc(key, s)[i]) != v
  {
    if s != [] {
      SortDescAvoids(key, id, s[1..], v);
      InsertAvoids(key, id, s[0], SortDesc(key, s[1..]), v);
    }
  }

  /** Sorting keeps keys distinct. */
  lemma {:induction false} SortDescKeepsDistinct<T, K>(key: T -> int, id: T -> K, s: seq<T>)
    requires DistinctBy(id, s)
    ensures DistinctBy(id, SortDesc(key, s))
  {
    if s != [] {
      DistinctTail(id, s);
      SortDescKeepsDistinct(key, id, s[1..]);
      SortDescAvoids(key, id, s[1..], id(s[0]));
      InsertKeepsDistinct(key, id, s[0], SortDesc(key, s[1..]));
    }
  }

  lemma {:induction false} InsertKeepsDistinct<T, K>(key: T -> int, id: T -> K, x: T, s: seq<T>)
    requires DistinctBy(id, s)
    requires forall j :: 0 <= j < |s| ==> id(s[j]) != id(x)
    ensures DistinctBy(id, Insert(key, x, s))
  {
    if s == [] || key(s[0]) <= key(x) {
      DistinctCons(id, x, s);
    } else {
      DistinctTail(id, s);
      InsertKeepsDistinct(key, id, x, s[1..]);
      InsertAvoids(key, id, x, s[1..], id(s[0]));
      DistinctCons(id, s[0], Insert(key, x, s[1..]));
    }
  }
}
