/** `Array.prototype.filter` and `Array.prototype.map`, which every list update in the
    pages is built from. */
module Seqs {

  /** The elements of `s` that satisfy `p`, in their original order. */
  function Filter<T(!new)>(s: seq<T>, p: T -> bool): (r: seq<T>)
    ensures |r| <= |s|
    ensures forall x :: x in r <==> x in s && p(x)
  {
    if s == [] then [] else (if p(s[0]) then [s[0]] else []) + Filter(s[1..], p)
  }

  /** `f` applied to every element of `s`, position by position. */
  function MapSeq<T, U>(s: seq<T>, f: T -> U): (r: seq<U>)
    ensures |r| == |s|
    ensures forall i :: 0 <= i < |s| ==> r[i] == f(s[i])
  {
    if s == [] then [] else [f(s[0])] + MapSeq(s[1..], f)
  }

  /** Filtering distributes over concatenation, so the kept elements stay in order. */
  lemma {:induction false} FilterConcat<T(!new)>(a: seq<T>, b: seq<T>, p: T -> bool)
    ensures Filter(a + b, p) == Filter(a, p) + Filter(b, p)
  {
    if a != [] {
      assert (a + b)[1..] == a[1..] + b;
      FilterConcat(a[1..], b, p);
    } else {
      assert a + b == b;
    }
  }

  /** A filter that rejects nothing leaves the sequence as it was. */
  lemma {:induction false} FilterKeepsAll<T(!new)>(s: seq<T>, p: T -> bool)
    requires forall x :: x in s ==> p(x)
    ensures Filter(s, p) == s
  {
    if s != [] {
      FilterKeepsAll(s[1..], p);
    }
  }

  /** A filter that rejects everything leaves nothing. */
  lemma {:induction false} FilterDropsAll<T(!new)>(s: seq<T>, p: T -> bool)
    requires forall x :: x in s ==> !p(x)
    ensures Filter(s, p) == []
  {
    if s != [] {
      FilterDropsAll(s[1..], p);
    }
  }

  /** Filtering twice by the same test is filtering once. */
  lemma FilterIdempotent<T(!new)>(s: seq<T>, p: T -> bool)
    ensures Filter(Filter(s, p), p) == Filter(s, p)
  {
    FilterKeepsAll(Filter(s, p), p);
  }

  /** What a filter keeps and what it drops add up to the whole sequence. */
  lemma {:induction false} FilterSplit<T(!new)>(s: seq<T>, p: T -> bool)
    ensures |Filter(s, p)| + |Filter(s, x => !p(x))| == |s|
    ensures multiset(Filter(s, p)) + multiset(Filter(s, x => !p(x))) == multiset(s)
  {
    if s != [] {
      FilterSplit(s[1..], p);
      assert s == [s[0]] + s[1..];
    }
  }
}
