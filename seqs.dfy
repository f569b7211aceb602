/** Sequence helpers: Python's `set(list)`, a boolean row mask, and `head(n)` / `[:n]`. */
module Seqs {

  /** The elements of `s` as a set, as Python's `set(s)` builds it. */
  function Elems<T>(s: seq<T>): set<T>
  {
    set x | x in s
  }

  lemma ElemsEmpty<T>(s: seq<T>)
    ensures Elems(s) == {} <==> s == []
  {
    if s != [] {
      assert s[0] in Elems(s);
    }
  }

  /** The elements of `s` that satisfy `p`, in their original order: a boolean
      mask applied to the rows of a frame. */
  function Where<T>(s: seq<T>, p: T -> bool): (r: seq<T>)
    ensures |r| <= |s|
    decreases |s|
  {
    if s == [] then []
    else if p(s[0]) then [s[0]] + Where(s[1..], p)
    else Where(s[1..], p)
  }

  /** The mask keeps exactly the elements that satisfy `p`, and never more
      copies of one than there were. */
  lemma {:induction false} WhereElements<T>(s: seq<T>, p: T -> bool)
    ensures forall i :: 0 <= i < |Where(s, p)| ==> Where(s, p)[i] in s && p(Where(s, p)[i])
    ensures forall i :: 0 <= i < |s| && p(s[i]) ==> s[i] in Where(s, p)
    ensures multiset(Where(s, p)) <= multiset(s)
    decreases |s|
  {
    if s != [] {
      WhereElements(s[1..], p);
      assert s == [s[0]] + s[1..];
      var rest := Where(s[1..], p);
      assert forall i :: 0 < i < |s| ==> s[i] == s[1..][i - 1];
      if p(s[0]) {
        assert forall i :: 0 < i < |Where(s, p)| ==> Where(s, p)[i] == rest[i - 1];
      }
    }
  }

  /** The mask depends only on which elements the predicate admits. */
  lemma {:induction false} WhereExt<T>(s: seq<T>, p: T -> bool, q: T -> bool)
    requires forall x :: p(x) == q(x)
    ensures Where(s, p) == Where(s, q)
    decreases |s|
  {
    if s != [] {
      WhereExt(s[1..], p, q);
    }
  }

  /** A mask that admits everything keeps the whole sequence. */
  lemma {:induction false} WhereAll<T>(s: seq<T>, p: T -> bool)
    requires forall x :: p(x)
    ensures Where(s, p) == s
    decreases |s|
  {
    if s != [] {
      WhereAll(s[1..], p);
    }
  }

  /** Two successive masks select what one mask by the conjunction selects. */
  lemma {:induction false} WhereWhere<T>(s: seq<T>, p: T -> bool, q: T -> bool, pq: T -> bool)
    requires forall x :: pq(x) == (p(x) && q(x))
    ensures Where(Where(s, p), q) == Where(s, pq)
    decreases |s|
  {
    if s != [] {
      WhereWhere(s[1..], p, q, pq);
    }
  }

  /** pandas `head(n)` and Python's slice `[:n]`: at most the first `n` elements. */
  function Head<T>(s: seq<T>, n: nat): seq<T>
  {
    if |s| <= n then s else s[..n]
  }
}
