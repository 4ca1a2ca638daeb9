/** Order-preserving filtering of sequences, the model of `Array.prototype.filter`. */
module Seqs {

  /** The elements of `s` for which `f` holds, in their original order. */
  function Filter<T>(s: seq<T>, f: T -> bool): (r: seq<T>)
    ensures |r| <= |s|
    ensures forall i :: 0 <= i < |r| ==> f(r[i])
  {
    if s == [] then [] else (if f(s[0]) then [s[0]] else []) + Filter(s[1..], f)
  }

  /** An element survives the filter exactly when it was there and satisfies the predicate. */
  lemma {:induction false} FilterMember<T>(s: seq<T>, f: T -> bool, x: T)
    ensures x in Filter(s, f) <==> x in s && f(x)
  {
    if s != [] {
      FilterMember(s[1..], f, x);
      assert s == [s[0]] + s[1..];
    }
  }

  /** Filtering distributes over concatenation: the relative order of the survivors is kept. */
  lemma {:induction false} FilterConcat<T>(s: seq<T>, t: seq<T>, f: T -> bool)
    ensures Filter(s + t, f) == Filter(s, f) + Filter(t, f)
  {
    if s == [] {
      assert s + t == t;
    } else {
      assert (s + t)[0] == s[0];
      assert (s + t)[1..] == s[1..] + t;
      FilterConcat(s[1..], t, f);
    }
  }

  /** Each survivor keeps its multiplicity; every other value disappears. */
  lemma {:induction false} FilterCount<T>(s: seq<T>, f: T -> bool, x: T)
    ensures multiset(Filter(s, f))[x] == if f(x) then multiset(s)[x] else 0
  {
    if s != [] {
      FilterCount(s[1..], f, x);
      assert s == [s[0]] + s[1..];
    }
  }

  /** A filter that every element passes changes nothing. */
  lemma {:induction false} FilterAll<T>(s: seq<T>, f: T -> bool)
    requires forall i :: 0 <= i < |s| ==> f(s[i])
    ensures Filter(s, f) == s
  {
    if s != [] {
      FilterAll(s[1..], f);
    }
  }

  /** A filter that no element passes leaves nothing. */
  lemma {:induction false} FilterNone<T>(s: seq<T>, f: T -> bool)
    requires forall i :: 0 <= i < |s| ==> !f(s[i])
    ensures Filter(s, f) == []
  {
    if s != [] {
      FilterNone(s[1..], f);
    }
  }

  // ---------------------------------------------------------------------------------------
  // Stable sorting by an integer key (`Array.prototype.sort((a, b) => key(a) - key(b))`)

  predicate SortedBy<T>(s: seq<T>, key: T -> int) {
    forall i, j :: 0 <= i < j < |s| ==> key(s[i]) <= key(s[j])
  }

  /** Places `a` after every element whose key is not greater than its own. */
  function InsertBy<T>(s: seq<T>, a: T, key: T -> int): (r: seq<T>)
    ensures |r| == |s| + 1
  {
    if s == [] then [a]
    else if key(a) < key(s[0]) then [a] + s
    else [s[0]] + InsertBy(s[1..], a, key)
  }

  /** Insertion adds the one element and loses none. */
  lemma {:induction false} InsertByPermutes<T>(s: seq<T>, a: T, key: T -> int)
    ensures multiset(InsertBy(s, a, key)) == multiset(s) + multiset{a}
  {
    if s != [] && key(a) >= key(s[0]) {
      InsertByPermutes(s[1..], a, key);
      assert s == [s[0]] + s[1..];
    }
  }

  /** Insertion sort, taking the elements front to back: each one goes after the elements with
      an equal key already placed, so the sort is stable. */
  function SortBy<T>(s: seq<T>, key: T -> int): (r: seq<T>)
    ensures |r| == |s|
  {
    if s == [] then [] else InsertBy(SortBy(s[..|s| - 1], key), s[|s| - 1], key)
  }

  lemma {:induction false} InsertKeepsSorted<T>(s: seq<T>, a: T, key: T -> int)
    requires SortedBy(s, key)
    ensures SortedBy(InsertBy(s, a, key), key)
  {
    if s != [] && key(a) >= key(s[0]) {
      InsertKeepsSorted(s[1..], a, key);
      var r := InsertBy(s[1..], a, key);
      InsertByPermutes(s[1..], a, key);
      forall x | x in r ensures key(s[0]) <= key(x) {
        assert x in multiset(r);
        assert x in multiset(s[1..]) + multiset{a};
      }
    }
  }

  /** The sort returns the same elements, ordered by key. */
  lemma {:induction false} SortBySorts<T>(s: seq<T>, key: T -> int)
    ensures SortedBy(SortBy(s, key), key) && multiset(SortBy(s, key)) == multiset(s)
  {
    if s != [] {
      SortBySorts(s[..|s| - 1], key);
      InsertKeepsSorted(SortBy(s[..|s| - 1], key), s[|s| - 1], key);
      InsertByPermutes(SortBy(s[..|s| - 1], key), s[|s| - 1], key);
      assert s == s[..|s| - 1] + [s[|s| - 1]];
    }
  }

  /** Inserting an element whose key is not smaller than any in a sorted list appends it. */
  lemma {:induction false} InsertAtEnd<T>(s: seq<T>, a: T, key: T -> int)
    requires SortedBy(s, key)
    requires forall i :: 0 <= i < |s| ==> key(s[i]) <= key(a)
    ensures InsertBy(s, a, key) == s + [a]
  {
    if s != [] {
      InsertAtEnd(s[1..], a, key);
      assert [s[0]] + (s[1..] + [a]) == s + [a];
    }
  }

  /** Sorting a sorted list changes nothing. */
  lemma {:induction false} SortSortedIsIdentity<T>(s: seq<T>, key: T -> int)
    requires SortedBy(s, key)
    ensures SortBy(s, key) == s
  {
    if s != [] {
      var init := s[..|s| - 1];
      SortSortedIsIdentity(init, key);
      InsertAtEnd(init, s[|s| - 1], key);
      assert init + [s[|s| - 1]] == s;
    }
  }

  /** Sorting a sorted list with one element appended is inserting that element. */
  lemma AppendThenSort<T>(s: seq<T>, a: T, key: T -> int)
    requires SortedBy(s, key)
    ensures SortBy(s + [a], key) == InsertBy(s, a, key)
  {
    assert (s + [a])[..|s + [a]| - 1] == s;
    SortSortedIsIdentity(s, key);
  }

  /** Holds of the elements whose key is `k`. */
  function HasKey<T>(key: T -> int, k: int): T -> bool {
    x => key(x) == k
  }

  /** Insertion keeps the elements of one key in order, the new one after those already there. */
  lemma {:induction false} InsertStable<T>(s: seq<T>, a: T, key: T -> int, k: int)
    requires SortedBy(s, key)
    ensures Filter(InsertBy(s, a, key), HasKey(key, k)) == Filter(s, HasKey(key, k)) + Filter([a], HasKey(key, k))
  {
    var f := HasKey(key, k);
    if s == [] {
      assert Filter(s, f) == [];
    } else if key(a) < key(s[0]) {
      FilterConcat([a], s, f);
      if key(a) == k {
        forall i | 0 <= i < |s| ensures !f(s[i]) {
          assert key(s[0]) <= key(s[i]);
        }
        FilterNone(s, f);
      } else {
        assert Filter([a], f) == [] + Filter([a][1..], f);
      }
    } else {
      InsertStable(s[1..], a, key, k);
      InsertBehindStable(s, a, key, f);
    }
  }

  /** The step of `InsertStable` past the first element. */
  lemma InsertBehindStable<T>(s: seq<T>, a: T, key: T -> int, f: T -> bool)
    requires s != [] && key(a) >= key(s[0])
    requires Filter(InsertBy(s[1..], a, key), f) == Filter(s[1..], f) + Filter([a], f)
    ensures Filter(InsertBy(s, a, key), f) == Filter(s, f) + Filter([a], f)
  {
    var rest := InsertBy(s[1..], a, key);
    assert InsertBy(s, a, key) == [s[0]] + rest;
    assert s == [s[0]] + s[1..];
    FilterCons(s[0], rest, f);
    FilterCons(s[0], s[1..], f);
  }

  lemma FilterCons<T>(h: T, t: seq<T>, f: T -> bool)
    ensures Filter([h] + t, f) == (if f(h) then [h] else []) + Filter(t, f)
  {
    assert ([h] + t)[1..] == t;
  }

  /** The sort is stable: the elements of any one key keep their relative order. */
  lemma {:induction false} SortByStable<T>(s: seq<T>, key: T -> int, k: int)
    ensures Filter(SortBy(s, key), HasKey(key, k)) == Filter(s, HasKey(key, k))
  {
    if s != [] {
      var init, last := s[..|s| - 1], s[|s| - 1];
      SortByStable(init, key, k);
      SortBySorts(init, key);
      InsertStable(SortBy(init, key), last, key, k);
      FilterConcat(init, [last], HasKey(key, k));
      assert init + [last] == s;
    }
  }

  /** Keeping a subset of a sorted list keeps it sorted. */
  lemma {:induction false} FilterKeepsSorted<T>(s: seq<T>, f: T -> bool, key: T -> int)
    requires SortedBy(s, key)
    ensures SortedBy(Filter(s, f), key)
  {
    if s != [] {
      FilterKeepsSorted(s[1..], f, key);
      forall x | x in Filter(s[1..], f) ensures key(s[0]) <= key(x) {
        FilterMember(s[1..], f, x);
      }
    }
  }

  // ---------------------------------------------------------------------------------------
  // Sequences without repeats (the iteration order of a JavaScript Set or Map's keys)

  predicate Distinct<T(==)>(s: seq<T>) {
    forall i, j :: 0 <= i < j < |s| ==> s[i] != s[j]
  }

  /** In a sequence without repeats no element occurs before its own position. */
  lemma DistinctNotInPrefix<T>(s: seq<T>, i: int)
    requires Distinct(s) && 0 <= i < |s|
    ensures s[i] !in s[..i] && s[i] !in s[i + 1..]
  {
  }

  /** The tail of a sequence without repeats has none, and lacks the head. */
  lemma DistinctTail<T>(s: seq<T>)
    requires Distinct(s) && s != []
    ensures Distinct(s[1..]) && s[0] !in s[1..]
  {
    DistinctNotInPrefix(s, 0);
  }

  /** The elements of a non-empty sequence are its head and the elements of its tail. */
  lemma ElementsOfCons<T>(s: seq<T>)
    requires s != []
    ensures (set x | x in s) == (set x | x in s[1..]) + {s[0]}
  {
    assert s == [s[0]] + s[1..];
  }

  /** A sequence without repeats has as many distinct elements as positions. */
  lemma {:induction false} DistinctCard<T>(s: seq<T>)
    requires Distinct(s)
    ensures |set x | x in s| == |s|
  {
    if s != [] {
      DistinctTail(s);
      DistinctCard(s[1..]);
      ElementsOfCons(s);
    }
  }

  /** Filtering keeps a sequence free of repeats. */
  lemma {:induction false} FilterKeepsDistinct<T>(s: seq<T>, f: T -> bool)
    requires Distinct(s)
    ensures Distinct(Filter(s, f))
  {
    if s != [] {
      FilterKeepsDistinct(s[1..], f);
      DistinctNotInPrefix(s, 0);
      FilterMember(s[1..], f, s[0]);
      var r := Filter(s[1..], f);
      forall j | 0 <= j < |r| ensures r[j] != s[0] {
        assert r[j] in r;
      }
    }
  }

  /** Holds of everything but `k`. */
  function NotKey<T(==)>(k: T): T -> bool {
    x => x != k
  }

  /** Holds of the elements of `s`. */
  function InSeq<T(==)>(s: seq<T>): T -> bool {
    x => x in s
  }

  /** Holds of everything not in `s`. */
  function NotInSeq<T(==)>(s: seq<T>): T -> bool {
    x => x !in s
  }

  /** Appending a new element keeps a sequence free of repeats. */
  lemma DistinctSnoc<T>(s: seq<T>, x: T)
    requires Distinct(s) && x !in s
    ensures Distinct(s + [x])
  {
  }

  /** Two sequences without repeats and without common elements concatenate to one. */
  lemma DistinctConcat<T>(s: seq<T>, t: seq<T>)
    requires Distinct(s) && Distinct(t) && forall x :: x in s ==> x !in t
    ensures Distinct(s + t)
  {
    forall i, j | 0 <= i < j < |s + t| ensures (s + t)[i] != (s + t)[j] {
      if i < |s| && j >= |s| {
        assert (s + t)[i] in s && (s + t)[j] == t[j - |s|];
      }
    }
  }

  /** Removing an element that is not there changes nothing. */
  lemma {:induction false} FilterNotKeyAbsent<T>(s: seq<T>, k: T)
    requires k !in s
    ensures Filter(s, NotKey(k)) == s
  {
    if s != [] {
      FilterNotKeyAbsent(s[1..], k);
    }
  }
}
