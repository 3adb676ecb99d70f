/** Facts about splitting and joining sequences, stated once so that the
    proofs about the reports do not have to rediscover them. */
module Seqs {

  /** A non-empty sequence is its prefix followed by its last element. */
  lemma SplitLast<T>(s: seq<T>)
    requires s != []
    ensures s == s[..|s| - 1] + [s[|s| - 1]]
  {
  }

  /** One more element of s extends the prefix by that element. */
  lemma PrefixSnoc<T>(s: seq<T>, i: int)
    requires 0 <= i < |s|
    ensures s[..i + 1] == s[..i] + [s[i]]
    ensures s[..i + 1][..i] == s[..i] && s[..i + 1][i] == s[i]
  {
  }

  /** Dropping the last element of a + b drops it from b. */
  lemma AppendInit<T>(a: seq<T>, b: seq<T>)
    requires b != []
    ensures (a + b)[..|a + b| - 1] == a + b[..|b| - 1]
    ensures (a + b)[|a + b| - 1] == b[|b| - 1]
  {
  }

  lemma ConcatAssoc<T>(a: seq<T>, b: seq<T>, c: seq<T>)
    ensures a + (b + c) == (a + b) + c
  {
  }

  lemma Assoc4<T>(a: seq<T>, b: seq<T>, c: seq<T>, d: seq<T>, e: seq<T>)
    ensures a + b + c + d + e == a + (b + c + d + e)
  {
  }

  /** A prefix of the image of xs under f, extended by the next image, is
      still that prefix of the image. */
  lemma MapSnoc<A, B>(xs: seq<A>, ys: seq<B>, f: A -> B)
    requires |ys| < |xs|
    requires forall k :: 0 <= k < |ys| ==> ys[k] == f(xs[k])
    ensures forall k :: 0 <= k < |ys| + 1 ==> (ys + [f(xs[|ys|])])[k] == f(xs[k])
  {
  }

  lemma AppendEmpty<T>(a: seq<T>)
    ensures a + [] == a
  {
  }

  /** The first index at or after start whose element passes p, or |s| when
      none does. */
  function FirstFrom<T>(s: seq<T>, p: T -> bool, start: nat): (i: nat)
    requires start <= |s|
    ensures start <= i <= |s|
    decreases |s| - start
  {
    if start == |s| then start
    else if p(s[start]) then start
    else FirstFrom(s, p, start + 1)
  }

  lemma {:induction false} FirstFromSpec<T>(s: seq<T>, p: T -> bool, start: nat)
    requires start <= |s|
    ensures var i := FirstFrom(s, p, start);
      (i < |s| ==> p(s[i])) && forall k :: start <= k < i ==> !p(s[k])
    decreases |s| - start
  {
    if start < |s| && !p(s[start]) {
      FirstFromSpec(s, p, start + 1);
    }
  }
}
