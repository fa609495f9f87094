/** Descending order by an integer key: the `orderBy: { field: 'desc' }` of the
    database queries. The store does not promise an order among rows with equal
    keys; this model keeps such rows in table order (a stable sort). */
module Sorting {

  /** Every element's key is at least the key of every later element. */
  predicate SortedDesc<T>(s: seq<T>, key: T -> int) {
    forall i, j | 0 <= i < j < |s| :: key(s[i]) >= key(s[j])
  }

  /** Puts `x` in front of the first element whose key is not greater than its own. */
  function InsertDesc<T>(x: T, s: seq<T>, key: T -> int): (r: seq<T>)
    ensures |r| == |s| + 1
  {
    if s == [] || key(x) >= key(s[0]) then [x] + s
    else [s[0]] + InsertDesc(x, s[1..], key)
  }

  /** Insertion sort, largest key first. */
  function SortDesc<T>(s: seq<T>, key: T -> int): (r: seq<T>)
    ensures |r| == |s|
  {
    if s == [] then [] else InsertDesc(s[0], SortDesc(s[1..], key), key)
  }

  lemma {:induction false} InsertDescPermutes<T>(x: T, s: seq<T>, key: T -> int)
    ensures multiset(InsertDesc(x, s, key)) == multiset(s) + multiset{x}
  {
    if s != [] && key(x) < key(s[0]) {
      InsertDescPermutes(x, s[1..], key);
      assert s == [s[0]] + s[1..];
    }
  }

  /** An upper bound of `x` and of every key in `s` bounds every key after insertion. */
  lemma {:induction false} InsertDescBounded<T>(x: T, s: seq<T>, key: T -> int, bound: int)
    requires key(x) <= bound
    requires forall i | 0 <= i < |s| :: key(s[i]) <= bound
    ensures forall i | 0 <= i < |InsertDesc(x, s, key)| :: key(InsertDesc(x, s, key)[i]) <= bound
  {
    if s != [] && key(x) < key(s[0]) {
      InsertDescBounded(x, s[1..], key, bound);
    }
  }

  lemma {:induction false} InsertDescSorted<T>(x: T, s: seq<T>, key: T -> int)
    requires SortedDesc(s, key)
    ensures SortedDesc(InsertDesc(x, s, key), key)
  {
    if s != [] && key(x) < key(s[0]) {
      InsertDescSorted(x, s[1..], key);
      InsertDescBounded(x, s[1..], key, key(s[0]));
    }
  }

  /** The sort returns the same elements, largest key first. */
  lemma {:induction false} SortDescCorrect<T>(s: seq<T>, key: T -> int)
    ensures SortedDesc(SortDesc(s, key), key)
    ensures multiset(SortDesc(s, key)) == multiset(s)
  {
    if s != [] {
      SortDescCorrect(s[1..], key);
      InsertDescSorted(s[0], SortDesc(s[1..], key), key);
      InsertDescPermutes(s[0], SortDesc(s[1..], key), key);
      assert s == [s[0]] + s[1..];
    }
  }
}
