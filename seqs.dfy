/** Order-preserving sequence operations shared by the server's owner filter and the
    client's image removal (`Array.prototype.filter`), and the `$limit` stage. */
module Seqs {

  /** `a` can be obtained from `b` by deleting elements, keeping the order of the rest. */
  predicate Sublist<T(==)>(a: seq<T>, b: seq<T>)
    decreases |b|
  {
    a == [] || (b != [] && if a[0] == b[0] then Sublist(a[1..], b[1..]) else Sublist(a, b[1..]))
  }

  /** `s.filter(keep)`: exactly the elements satisfying `keep`, as a sublist of `s`;
      KeepCounts adds that each is kept as often as it occurs in `s`. */
  function Keep<T(==,!new)>(s: seq<T>, keep: T -> bool): (r: seq<T>)
    ensures |r| <= |s|
    ensures forall i :: 0 <= i < |r| ==> r[i] in s && keep(r[i])
    ensures forall i :: 0 <= i < |s| && keep(s[i]) ==> s[i] in r
    ensures Sublist(r, s)
    ensures |r| == |s| <==> forall i :: 0 <= i < |s| ==> keep(s[i])
  {
    if s == [] then []
    else
      var rest := Keep(s[1..], keep);
      if keep(s[0]) then
        assert ([s[0]] + rest)[1..] == rest;
        [s[0]] + rest
      else
        SublistSkip(rest, s);
        assert !(forall i :: 0 <= i < |s| ==> keep(s[i])) by { assert !keep(s[0]); }
        rest
  }

  /** The filter keeps every element satisfying `keep` as often as it occurs, and no other. */
  lemma {:induction false} KeepCounts<T(!new)>(s: seq<T>, keep: T -> bool)
    ensures forall x :: multiset(Keep(s, keep))[x] == if keep(x) then multiset(s)[x] else 0
    decreases |s|
  {
    if s != [] {
      KeepCounts(s[1..], keep);
      assert s == [s[0]] + s[1..];
      assert multiset(s) == multiset([s[0]]) + multiset(s[1..]);
    }
  }

  /** A sublist of the tail is a sublist of the whole. */
  lemma {:induction false} SublistSkip<T>(a: seq<T>, b: seq<T>)
    requires b != [] && Sublist(a, b[1..])
    ensures Sublist(a, b)
    decreases |b|, 0
  {
    if a != [] && a[0] == b[0] {
      SublistDropHead(a, b[1..]);
    }
  }

  /** Dropping the head of a non-empty sublist leaves a sublist. */
  lemma {:induction false} SublistDropHead<T>(a: seq<T>, b: seq<T>)
    requires a != [] && Sublist(a, b)
    ensures Sublist(a[1..], b)
    decreases |b|, 1
  {
    if a[0] == b[0] {
      SublistSkip(a[1..], b);
    } else {
      SublistDropHead(a, b[1..]);
      SublistSkip(a[1..], b);
    }
  }

  /** The first `n` elements, or all of them when there are fewer: MongoDB's `$limit` stage. */
  function Take<T>(s: seq<T>, n: nat): (r: seq<T>)
    ensures |r| == if n < |s| then n else |s|
    ensures r <= s
  {
    if n < |s| then s[..n] else s
  }
}
