/**
 * The subsequence relation on lists: what is left when some elements are dropped and the rest
 * keep their order. Both the del-routes splice and the order-preserving union are stated with it.
 */
module Seqs {

  /** `a` is `b` with some elements left out, the rest in the same order. */
  predicate IsSubseq<T(==)>(a: seq<T>, b: seq<T>)
    decreases |b|
  {
    if a == [] then true
    else if b == [] then false
    else if a[0] == b[0] then IsSubseq(a[1..], b[1..])
    else IsSubseq(a, b[1..])
  }

  lemma {:induction false} SubseqRefl<T>(a: seq<T>)
    ensures IsSubseq(a, a)
    decreases |a|
  {
    if a != [] { SubseqRefl(a[1..]); }
  }

  lemma {:induction false} SubseqTail<T>(a: seq<T>, b: seq<T>)
    requires a != [] && IsSubseq(a, b)
    ensures IsSubseq(a[1..], b)
    decreases |b|, 1
  {
    if a[0] == b[0] {
      if a[1..] != [] { SubseqTail(a[1..], b[1..]); }
      SubseqSkip(a[1..], b);
    } else {
      SubseqTail(a, b[1..]);
      SubseqSkip(a[1..], b);
    }
  }

  /** Dropping the head of the longer list keeps a subsequence of its tail one of the whole. */
  lemma {:induction false} SubseqSkip<T>(a: seq<T>, b: seq<T>)
    requires b != [] && IsSubseq(a, b[1..])
    ensures IsSubseq(a, b)
    decreases |b|, 0
  {
    if a != [] && a[0] == b[0] {
      SubseqTail(a, b[1..]);
    }
  }

  lemma {:induction false} SubseqTrans<T>(a: seq<T>, b: seq<T>, c: seq<T>)
    requires IsSubseq(a, b) && IsSubseq(b, c)
    ensures IsSubseq(a, c)
    decreases |c|
  {
    if a != [] {
      if b[0] == c[0] {
        if a[0] == b[0] {
          SubseqTrans(a[1..], b[1..], c[1..]);
        } else {
          SubseqTrans(a, b[1..], c[1..]);
        }
      } else {
        SubseqTrans(a, b, c[1..]);
        SubseqSkip(a, c);
      }
    }
  }

  lemma {:induction false} SubseqRemoveAt<T>(b: seq<T>, i: nat)
    requires i < |b|
    ensures IsSubseq(b[..i] + b[i + 1..], b)
    decreases i
  {
    var a := b[..i] + b[i + 1..];
    if i == 0 {
      assert a == b[1..];
      SubseqRefl(b[1..]);
      SubseqSkip(a, b);
    } else {
      SubseqRemoveAt(b[1..], i - 1);
      assert a[0] == b[0];
      assert a[1..] == b[1..][..i - 1] + b[1..][i..];
    }
  }

  /** A single element is a subsequence of any list that ends with it. */
  lemma {:induction false} SubseqLast<T>(b: seq<T>, x: T)
    ensures IsSubseq([x], b + [x])
    decreases |b|
  {
    if b != [] && b[0] != x {
      SubseqLast(b[1..], x);
      assert (b + [x])[1..] == b[1..] + [x];
    }
  }

  /**
   * Appending one element to the longer list keeps a subsequence a subsequence, and appending
   * it to both keeps them related.
   */
  lemma {:induction false} SubseqSnoc<T>(a: seq<T>, b: seq<T>, x: T)
    requires IsSubseq(a, b)
    ensures IsSubseq(a, b + [x]) && IsSubseq(a + [x], b + [x])
    decreases |b|
  {
    if a == [] {
      SubseqLast(b, x);
      assert a + [x] == [x];
    } else {
      SubseqSnoc(if a[0] == b[0] then a[1..] else a, b[1..], x);
      assert (b + [x])[1..] == b[1..] + [x];
      assert (a + [x])[1..] == a[1..] + [x];
    }
  }
}
