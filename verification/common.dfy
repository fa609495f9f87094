/** Small value types and sequence helpers shared by every module of the model. */
module Common {

  /** An optional value: an absent JSON field, a row that was not found, a null. */
  datatype Option<T> = None | Some(value: T)

  /** The outcome of a client-side call into the REST API: the parsed body, or the
      error text that the API client throws. */
  datatype Result<T> = Success(value: T) | Failure(error: string)

  /** An HTTP reply: a status code with a JSON body, or a status code with the
      `{ error: message }` body every handler sends on failure. */
  datatype Response<T> = Ok(status: int, body: T) | Err(status: int, message: string)

  /** The index of the first element of `s` satisfying `p`, if any. */
  function FirstIndex<T>(s: seq<T>, p: T -> bool): (r: Option<nat>)
    ensures r.Some? ==> r.value < |s| && p(s[r.value])
    ensures r.Some? ==> forall j | 0 <= j < r.value :: !p(s[j])
    ensures r.None? <==> forall j | 0 <= j < |s| :: !p(s[j])
  {
    if s == [] then None
    else if p(s[0]) then Some(0)
    else match FirstIndex(s[1..], p)
      case None => None
      case Some(k) => Some(k + 1)
  }

  /** The elements of `s` that satisfy `p`, in their original order (JavaScript's
      `Array.prototype.filter`, a `where` clause over a table). */
  function Filter<T(!new)>(s: seq<T>, p: T -> bool): (r: seq<T>)
    ensures |r| <= |s|
    ensures forall i | 0 <= i < |r| :: r[i] in s && p(r[i])
    ensures forall i | 0 <= i < |s| && p(s[i]) :: s[i] in r
    ensures forall x :: multiset(r)[x] == if p(x) then multiset(s)[x] else 0
  {
    if s == [] then []
    else
      var rest := Filter(s[1..], p);
      assert s == [s[0]] + s[1..];
      assert multiset(s) == multiset{s[0]} + multiset(s[1..]);
      if p(s[0]) then
        assert multiset([s[0]] + rest) == multiset{s[0]} + multiset(rest);
        [s[0]] + rest
      else rest
  }

  /** `sub` can be obtained from `s` by deleting elements, keeping the order. */
  predicate IsSubsequence<T(==)>(sub: seq<T>, s: seq<T>)
    decreases |s|
  {
    if sub == [] then true
    else if s == [] then false
    else if sub[0] == s[0] then IsSubsequence(sub[1..], s[1..])
    else IsSubsequence(sub, s[1..])
  }

  lemma {:induction false} FilterIsSubsequence<T(!new)>(s: seq<T>, p: T -> bool)
    ensures IsSubsequence(Filter(s, p), s)
  {
    if s != [] {
      FilterIsSubsequence(s[1..], p);
      if p(s[0]) {
        assert Filter(s, p)[1..] == Filter(s[1..], p);
      } else {
        var f := Filter(s[1..], p);
        SubsequenceDropHead(f, s);
      }
    }
  }

  /** A subsequence of `s[1..]` is a subsequence of `s`. */
  lemma {:induction false} SubsequenceDropHead<T>(sub: seq<T>, s: seq<T>)
    requires s != [] && IsSubsequence(sub, s[1..])
    ensures IsSubsequence(sub, s)
    decreases |s|, 0
  {
    if sub != [] && sub[0] == s[0] {
      SubsequenceTail(sub, s[1..]);
    }
  }

  /** Dropping the first element of a subsequence keeps it a subsequence. */
  lemma {:induction false} SubsequenceTail<T>(sub: seq<T>, s: seq<T>)
    requires sub != [] && IsSubsequence(sub, s)
    ensures IsSubsequence(sub[1..], s)
    decreases |s|, 1
  {
    if sub[0] != s[0] {
      SubsequenceTail(sub, s[1..]);
    }
    if sub[1..] != [] {
      SubsequenceDropHead(sub[1..], s);
    }
  }

  /** Filtering the result of a filter by the same predicate changes nothing. */
  lemma {:induction false} FilterIdempotent<T(!new)>(s: seq<T>, p: T -> bool)
    ensures Filter(Filter(s, p), p) == Filter(s, p)
  {
    if s != [] {
      FilterIdempotent(s[1..], p);
      if p(s[0]) {
        var f := Filter(s[1..], p);
        assert ([s[0]] + f)[1..] == f;
      }
    }
  }

  /** A filter whose predicate holds everywhere keeps the whole sequence. */
  lemma {:induction false} FilterKeepsAll<T(!new)>(s: seq<T>, p: T -> bool)
    requires forall i | 0 <= i < |s| :: p(s[i])
    ensures Filter(s, p) == s
  {
    if s != [] {
      FilterKeepsAll(s[1..], p);
    }
  }

  /** The first `n` elements (all of them when there are fewer): a `take: n` query. */
  function Take<T>(s: seq<T>, n: nat): (r: seq<T>)
    ensures |r| <= n && |r| <= |s|
    ensures |s| <= n ==> r == s
    ensures n <= |s| ==> |r| == n
    ensures forall i | 0 <= i < |r| :: r[i] == s[i]
  {
    if |s| <= n then s else s[..n]
  }

  /** `s` has no element twice. */
  predicate Distinct<T(==)>(s: seq<T>) {
    forall i, j | 0 <= i < j < |s| :: s[i] != s[j]
  }
}
