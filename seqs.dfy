/** Sequence helpers: the order-preserving filter, element-wise map and maximum
    that the forecast pipelines are built from. */
module Seqs {

  function Last<T>(s: seq<T>): T
    requires s != []
  {
    s[|s| - 1]
  }

  /** The elements of `xs` that satisfy `p`, in their original order
      (a list comprehension, `.filter`, or a push loop guarded by `p`). */
  function Filter<T>(xs: seq<T>, p: T -> bool): (ys: seq<T>)
    ensures |ys| <= |xs|
  {
    if xs == [] then []
    else Filter(xs[..|xs| - 1], p) + (if p(Last(xs)) then [Last(xs)] else [])
  }

  /** The filter of a prefix one element longer: that element is kept iff it satisfies `p`. */
  lemma FilterPrefix<T>(xs: seq<T>, i: nat, p: T -> bool)
    requires i < |xs|
    ensures Filter(xs[..i + 1], p) == Filter(xs[..i], p) + (if p(xs[i]) then [xs[i]] else [])
  {
    assert xs[..i + 1][..i] == xs[..i];
  }

  /** An element is kept iff it occurs in the input and satisfies `p`. */
  lemma {:induction false} FilterMembers<T>(xs: seq<T>, p: T -> bool, x: T)
    ensures x in Filter(xs, p) <==> x in xs && p(x)
  {
    if xs != [] {
      var xs' := xs[..|xs| - 1];
      assert xs == xs' + [Last(xs)];
      FilterMembers(xs', p, x);
    }
  }

  /** When every element satisfies `p`, nothing is dropped. */
  lemma {:induction false} FilterKeepsAll<T>(xs: seq<T>, p: T -> bool)
    requires forall i :: 0 <= i < |xs| ==> p(xs[i])
    ensures Filter(xs, p) == xs
  {
    if xs != [] {
      var xs' := xs[..|xs| - 1];
      FilterKeepsAll(xs', p);
      assert xs == xs' + [Last(xs)];
    }
  }

  /** `f` applied to every element, in order. */
  function Map<T, U>(xs: seq<T>, f: T -> U): (ys: seq<U>)
    ensures |ys| == |xs|
    ensures forall i :: 0 <= i < |xs| ==> ys[i] == f(xs[i])
  {
    seq(|xs|, i requires 0 <= i < |xs| => f(xs[i]))
  }

  lemma MapSnoc<T, U>(xs: seq<T>, x: T, f: T -> U)
    ensures Map(xs + [x], f) == Map(xs, f) + [f(x)]
  {
  }

  /** The longest prefix of `s` whose elements all satisfy `p`. */
  function TakeWhile<T>(s: seq<T>, p: T -> bool): (t: seq<T>)
    ensures t <= s
    ensures forall i :: 0 <= i < |t| ==> p(t[i])
    ensures |t| < |s| ==> !p(s[|t|])
  {
    if s == [] || !p(s[0]) then [] else [s[0]] + TakeWhile(s[1..], p)
  }

  /** A prefix of `p`-elements followed by a non-`p` element (or nothing) is
      exactly what `TakeWhile` takes. */
  lemma {:induction false} TakeWhileOf<T>(w: seq<T>, rest: seq<T>, p: T -> bool)
    requires forall i :: 0 <= i < |w| ==> p(w[i])
    requires rest != [] ==> !p(rest[0])
    ensures TakeWhile(w + rest, p) == w
  {
    if w != [] {
      assert (w + rest)[1..] == w[1..] + rest;
      TakeWhileOf(w[1..], rest, p);
    }
  }

  /** `s` without its leading run of `p`-elements (what is dropped all satisfies `p`). */
  function TrimStart<T>(s: seq<T>, p: T -> bool): (t: seq<T>)
    ensures |t| <= |s| && t == s[|s| - |t|..]
    ensures forall i :: 0 <= i < |s| - |t| ==> p(s[i])
    ensures t != [] ==> !p(t[0])
  {
    if s != [] && p(s[0]) then TrimStart(s[1..], p) else s
  }

  /** `s` without its trailing run of `p`-elements. */
  function TrimEnd<T>(s: seq<T>, p: T -> bool): (t: seq<T>)
    ensures t <= s
    ensures forall i :: |t| <= i < |s| ==> p(s[i])
    ensures t != [] ==> !p(Last(t))
  {
    if s != [] && p(Last(s)) then TrimEnd(s[..|s| - 1], p) else s
  }

  function Max2(a: int, b: int): int
  {
    if a < b then b else a
  }

  /** The largest element of a non-empty sequence. */
  function Max(s: seq<int>): (m: int)
    requires s != []
    ensures m in s
    ensures forall i :: 0 <= i < |s| ==> s[i] <= m
  {
    if |s| == 1 then s[0] else Max2(Max(s[..|s| - 1]), Last(s))
  }

  /** The maximum of an extended sequence is the running maximum. */
  lemma MaxSnoc(s: seq<int>, x: int)
    requires s != []
    ensures Max(s + [x]) == Max2(Max(s), x)
  {
    assert (s + [x])[..|s|] == s;
  }
}
