/**
 * Sequence helpers shared by the store's queries: a filter that keeps table
 * order, and a stable sort by an integer key, standing for the database's
 * `WHERE` and `ORDER BY` clauses.
 */
module Seqs {

  /** `s` is ordered by `key`, smallest first; equal keys may appear in any order. */
  ghost predicate Sorted<T>(s: seq<T>, key: T -> int) {
    forall i, j :: 0 <= i < j < |s| ==> key(s[i]) <= key(s[j])
  }

  /** `s` is ordered by `key` with no two equal keys. */
  ghost predicate StrictlySorted<T>(s: seq<T>, key: T -> int) {
    forall i, j :: 0 <= i < j < |s| ==> key(s[i]) < key(s[j])
  }

  /**
   * `s` is in order by `key`, and no key exceeds `bound`: read from the back,
   * each element's key is at most the bound and bounds everything before it.
   */
  ghost predicate Chronological<T>(s: seq<T>, key: T -> int, bound: int) {
    s == [] || (key(s[|s| - 1]) <= bound && Chronological(s[..|s| - 1], key, key(s[|s| - 1])))
  }

  /** Being chronological up to `bound` is being sorted with every key at most `bound`. */
  lemma {:induction false} ChronologicalIsSortedBounded<T>(s: seq<T>, key: T -> int, bound: int)
    ensures Chronological(s, key, bound) <==> Sorted(s, key) && forall x :: x in s ==> key(x) <= bound
  {
    if s != [] {
      var n := |s| - 1;
      var front := s[..n];
      ChronologicalIsSortedBounded(front, key, key(s[n]));
      assert s == front + [s[n]];
      if Chronological(s, key, bound) {
        forall i, j | 0 <= i < j < |s| ensures key(s[i]) <= key(s[j]) {
          if j == n {
            assert s[i] in front;
          } else {
            assert s[i] == front[i] && s[j] == front[j];
          }
        }
        forall x | x in s ensures key(x) <= bound {
          if x != s[n] {
            assert x in front;
          }
        }
      }
      if Sorted(s, key) && forall x :: x in s ==> key(x) <= bound {
        forall x | x in front ensures key(x) <= key(s[n]) {
          var i :| 0 <= i < n && front[i] == x;
          assert s[i] == x;
        }
        assert Sorted(front, key) by {
          forall i, j | 0 <= i < j < |front| ensures key(front[i]) <= key(front[j]) {
            assert front[i] == s[i] && front[j] == s[j];
          }
        }
      }
    }
  }

  /** Appending an element whose key lies between the old bound and the new one keeps a sequence chronological. */
  lemma ChronologicalAppend<T>(s: seq<T>, x: T, key: T -> int, bound: int, later: int)
    requires Chronological(s, key, bound) && bound <= key(x) <= later
    ensures Chronological(s + [x], key, later)
  {
    assert (s + [x])[..|s|] == s;
  }

  /** Chronological order depends on the keys alone: replacing elements by others with the same keys keeps it. */
  lemma {:induction false} ChronologicalSameKeys<T>(s: seq<T>, t: seq<T>, key: T -> int, bound: int)
    requires Chronological(s, key, bound)
    requires |s| == |t| && forall i :: 0 <= i < |s| ==> key(s[i]) == key(t[i])
    ensures Chronological(t, key, bound)
  {
    if s != [] {
      var n := |s| - 1;
      ChronologicalSameKeys(s[..n], t[..n], key, key(s[n]));
    }
  }

  /** The elements of `s` that satisfy `keep`, in their original order. */
  function Filter<T(!new)>(s: seq<T>, keep: T -> bool): (r: seq<T>)
    ensures |r| <= |s|
  {
    if s == [] then []
    else if keep(s[0]) then [s[0]] + Filter(s[1..], keep)
    else Filter(s[1..], keep)
  }

  /** The filter keeps exactly the elements that satisfy `keep`. */
  lemma {:induction false} FilterMembers<T(!new)>(s: seq<T>, keep: T -> bool)
    ensures forall x :: x in Filter(s, keep) <==> x in s && keep(x)
  {
    if s != [] {
      FilterMembers(s[1..], keep);
      assert s == [s[0]] + s[1..];
    }
  }

  lemma {:induction false} FilterAppend<T(!new)>(s: seq<T>, t: seq<T>, keep: T -> bool)
    ensures Filter(s + t, keep) == Filter(s, keep) + Filter(t, keep)
  {
    if s == [] {
      assert s + t == t;
    } else {
      assert (s + t)[1..] == s[1..] + t;
      FilterAppend(s[1..], t, keep);
    }
  }

  /** Every element of `s` after the first has a key at least the first's. */
  lemma HeadIsLeast<T>(s: seq<T>, key: T -> int)
    requires Sorted(s, key) && s != []
    ensures forall y :: y in s[1..] ==> key(s[0]) <= key(y)
    ensures StrictlySorted(s, key) ==> forall y :: y in s[1..] ==> key(s[0]) < key(y)
  {
    forall y | y in s[1..] ensures key(s[0]) <= key(y) && (StrictlySorted(s, key) ==> key(s[0]) < key(y)) {
      var k :| 0 <= k < |s[1..]| && s[1..][k] == y;
      assert s[k + 1] == y;
    }
  }

  /** Filtering keeps a sequence sorted (strictly sorted, too). */
  lemma {:induction false} FilterSorted<T(!new)>(s: seq<T>, keep: T -> bool, key: T -> int)
    requires Sorted(s, key)
    ensures Sorted(Filter(s, keep), key)
    ensures StrictlySorted(s, key) ==> StrictlySorted(Filter(s, keep), key)
  {
    if s != [] {
      FilterSorted(s[1..], keep, key);
      FilterMembers(s[1..], keep);
      HeadIsLeast(s, key);
      var rest := Filter(s[1..], keep);
      if keep(s[0]) {
        var r := [s[0]] + rest;
        assert Filter(s, keep) == r;
        forall i, j | 0 <= i < j < |r| ensures key(r[i]) <= key(r[j]) && (StrictlySorted(s, key) ==> key(r[i]) < key(r[j])) {
          assert r[j] == rest[j - 1] && rest[j - 1] in rest;
          if i > 0 {
            assert r[i] == rest[i - 1];
          }
        }
      }
    }
  }

  lemma {:induction false} FilterKeepsAll<T(!new)>(s: seq<T>, keep: T -> bool)
    requires forall x :: x in s ==> keep(x)
    ensures Filter(s, keep) == s
  {
    if s != [] {
      FilterKeepsAll(s[1..], keep);
    }
  }

  /** When exactly the element at `i` fails `keep`, filtering removes just that element. */
  lemma {:induction false} FilterDropsOne<T(!new)>(s: seq<T>, i: nat, keep: T -> bool)
    requires i < |s| && !keep(s[i])
    requires forall k :: 0 <= k < |s| && k != i ==> keep(s[k])
    ensures Filter(s, keep) == s[..i] + s[i + 1..]
  {
    if i == 0 {
      forall x | x in s[1..] ensures keep(x) {
        var k :| 0 <= k < |s[1..]| && s[1..][k] == x;
        assert s[k + 1] == x;
      }
      FilterKeepsAll(s[1..], keep);
    } else {
      FilterDropsOne(s[1..], i - 1, keep);
      assert s[..i] == [s[0]] + s[1..][..i - 1];
      assert s[i + 1..] == s[1..][i..];
    }
  }

  /** Places `x` in front of the first element with a larger key than its own. */
  function Insert<T>(x: T, s: seq<T>, key: T -> int): (r: seq<T>)
    ensures |r| == |s| + 1
  {
    if s == [] || key(x) <= key(s[0]) then [x] + s
    else [s[0]] + Insert(x, s[1..], key)
  }

  /** Inserting into a sorted sequence keeps it sorted; the new head is `x` or the old head. */
  lemma {:induction false} InsertSorted<T>(x: T, s: seq<T>, key: T -> int)
    requires Sorted(s, key)
    ensures Sorted(Insert(x, s, key), key)
    ensures Insert(x, s, key)[0] == x || (s != [] && Insert(x, s, key)[0] == s[0])
  {
    if s == [] || key(x) <= key(s[0]) {
      forall y | y in s ensures key(x) <= key(y) {
        HeadIsLeast(s, key);
        if y != s[0] {
          assert y in s[1..] by { SplitHead(s); }
        }
      }
      SortedCons(x, s, key);
    } else {
      var rest := Insert(x, s[1..], key);
      SortedTail(s, key);
      InsertSorted(x, s[1..], key);
      InsertPermutes(x, s[1..], key);
      HeadIsLeast(s, key);
      forall y | y in rest ensures key(s[0]) <= key(y) {
        assert y in multiset(rest);
        if y != x {
          assert y in multiset(s[1..]);
        }
      }
      SortedCons(s[0], rest, key);
    }
  }

  /** Putting an element no larger than any other in front keeps a sequence sorted. */
  lemma SortedCons<T>(h: T, s: seq<T>, key: T -> int)
    requires Sorted(s, key) && forall y :: y in s ==> key(h) <= key(y)
    ensures Sorted([h] + s, key)
  {
    var r := [h] + s;
    forall i, j | 0 <= i < j < |r| ensures key(r[i]) <= key(r[j]) {
      assert r[j] == s[j - 1] && s[j - 1] in s;
      if i > 0 {
        assert r[i] == s[i - 1];
      }
    }
  }

  /** Inserting adds exactly `x`. */
  lemma {:induction false} InsertPermutes<T>(x: T, s: seq<T>, key: T -> int)
    ensures multiset(Insert(x, s, key)) == multiset(s) + multiset{x}
  {
    if s != [] && key(x) > key(s[0]) {
      InsertPermutes(x, s[1..], key);
      assert s == [s[0]] + s[1..];
    }
  }

  /** Stable insertion sort: elements with equal keys keep their relative order. */
  function SortBy<T>(s: seq<T>, key: T -> int): (r: seq<T>)
    ensures |r| == |s|
  {
    if s == [] then [] else Insert(s[0], SortBy(s[1..], key), key)
  }

  /** The sort orders by `key`. */
  lemma {:induction false} SortBySorted<T>(s: seq<T>, key: T -> int)
    ensures Sorted(SortBy(s, key), key)
  {
    if s != [] {
      SortBySorted(s[1..], key);
      InsertSorted(s[0], SortBy(s[1..], key), key);
    }
  }

  /** The sort only rearranges. */
  lemma {:induction false} SortByPermutes<T>(s: seq<T>, key: T -> int)
    ensures multiset(SortBy(s, key)) == multiset(s)
  {
    if s != [] {
      SortByPermutes(s[1..], key);
      InsertPermutes(s[0], SortBy(s[1..], key), key);
      assert s == [s[0]] + s[1..];
    }
  }

  /** A sequence that is already in order comes out of the sort unchanged. */
  lemma {:induction false} SortByOfSorted<T>(s: seq<T>, key: T -> int)
    requires Sorted(s, key)
    ensures SortBy(s, key) == s
  {
    if s != [] {
      SortByOfSorted(s[1..], key);
    }
  }

  /**
   * When keys are distinct there is only one ordered arrangement of a
   * multiset: any sorted permutation of a strictly sorted sequence is that
   * sequence. So an `ORDER BY` over distinct keys fixes the result,
   * whatever the database does with ties.
   */
  lemma {:induction false} SortedPermutationUnique<T>(s: seq<T>, t: seq<T>, key: T -> int)
    requires StrictlySorted(s, key)
    requires Sorted(t, key)
    requires multiset(s) == multiset(t)
    ensures s == t
  {
    assert |s| == |multiset(s)| == |multiset(t)| == |t|;
    if s != [] {
      SameHead(s, t, key);
      SortedTail(s, key);
      SortedTail(t, key);
      SplitHead(s);
      SplitHead(t);
      SortedPermutationUnique(s[1..], t[1..], key);
    }
  }

  /** A strictly sorted sequence and a sorted permutation of it start with the same element. */
  lemma SameHead<T>(s: seq<T>, t: seq<T>, key: T -> int)
    requires StrictlySorted(s, key) && Sorted(t, key) && multiset(s) == multiset(t) && s != []
    ensures t != [] && s[0] == t[0]
  {
    assert s[0] in multiset(t);
    var j :| 0 <= j < |t| && t[j] == s[0];
    assert t[0] in multiset(s);
    var i :| 0 <= i < |s| && s[i] == t[0];
    assert key(t[0]) <= key(s[0]);
  }

  /** The tail of a (strictly) sorted sequence is (strictly) sorted. */
  lemma SortedTail<T>(s: seq<T>, key: T -> int)
    requires Sorted(s, key) && s != []
    ensures Sorted(s[1..], key)
    ensures StrictlySorted(s, key) ==> StrictlySorted(s[1..], key)
  {
    forall i, j | 0 <= i < j < |s[1..]| ensures key(s[1..][i]) <= key(s[1..][j]) && (StrictlySorted(s, key) ==> key(s[1..][i]) < key(s[1..][j])) {
      assert s[1..][i] == s[i + 1] && s[1..][j] == s[j + 1];
    }
  }

  /** A non-empty sequence is its head followed by its tail, as elements and as a multiset. */
  lemma SplitHead<T>(s: seq<T>)
    requires s != []
    ensures s == [s[0]] + s[1..]
    ensures multiset(s[1..]) == multiset(s) - multiset{s[0]}
  {
    assert s == [s[0]] + s[1..];
  }

  /** A chronological sequence stays chronological under a later bound. */
  lemma ChronologicalLater<T>(s: seq<T>, key: T -> int, bound: int, later: int)
    requires Chronological(s, key, bound) && bound <= later
    ensures Chronological(s, key, later)
  {
  }

  /** Removing one element keeps a sequence chronological. */
  lemma {:induction false} RemoveAtChronological<T>(s: seq<T>, key: T -> int, bound: int, i: nat)
    requires Chronological(s, key, bound) && i < |s|
    ensures Chronological(s[..i] + s[i + 1..], key, bound)
  {
    var n := |s| - 1;
    var rest := s[..i] + s[i + 1..];
    if i == n {
      assert rest == s[..n];
      ChronologicalLater(s[..n], key, key(s[n]), bound);
    } else {
      RemoveAtChronological(s[..n], key, key(s[n]), i);
      assert rest[|rest| - 1] == s[n];
      assert rest[..|rest| - 1] == s[..n][..i] + s[..n][i + 1..];
    }
  }

  /** A prefix of a strictly sorted sequence is strictly sorted. */
  lemma StrictlySortedPrefix<T>(s: seq<T>, t: seq<T>, key: T -> int)
    requires StrictlySorted(s + t, key)
    ensures StrictlySorted(s, key)
  {
    forall i, j | 0 <= i < j < |s| ensures key(s[i]) < key(s[j]) {
      assert (s + t)[i] == s[i] && (s + t)[j] == s[j];
    }
  }

  lemma AppendPair<T>(s: seq<T>, a: T, b: T)
    ensures s + [a] + [b] == s + [a, b]
  {
  }

  /** `s` back to front. */
  function Reverse<T>(s: seq<T>): (r: seq<T>)
    ensures |r| == |s|
    ensures forall i :: 0 <= i < |s| ==> r[i] == s[|s| - 1 - i]
  {
    if s == [] then [] else Reverse(s[1..]) + [s[0]]
  }

  lemma ReverseMultiset<T>(s: seq<T>)
    ensures multiset(Reverse(s)) == multiset(s)
  {
    if s != [] {
      assert s == [s[0]] + s[1..];
    }
  }
}
