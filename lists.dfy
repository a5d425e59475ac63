/** List helpers: `[f(x) for x in xs]` and the concatenation of a list of lists. */
module Lists {

  /** `[f(x) for x in xs]`. */
  function Map<A, B>(f: A -> B, xs: seq<A>): (r: seq<B>)
    ensures |r| == |xs|
    ensures forall k :: 0 <= k < |xs| ==> r[k] == f(xs[k])
  {
    seq(|xs|, k requires 0 <= k < |xs| => f(xs[k]))
  }

  lemma MapAppend<A, B>(f: A -> B, xs: seq<A>, ys: seq<A>)
    ensures Map(f, xs + ys) == Map(f, xs) + Map(f, ys)
  {
  }

  /** The head of a non-empty list is one of its elements. */
  lemma FirstIsMember<T>(b: seq<T>)
    ensures b != [] ==> b[0] in b
  {
  }

  /** `a` is `b` with some elements left out, the rest in order. */
  predicate IsSubsequence<T(==)>(a: seq<T>, b: seq<T>)
  {
    a == [] || (b != [] && ((a[0] == b[0] && IsSubsequence(a[1..], b[1..])) || IsSubsequence(a, b[1..])))
  }

  /** Appending the same element to both lists keeps one a subsequence of the other, as does appending it to the longer alone. */
  lemma {:induction false} SubsequenceSnoc<T>(a: seq<T>, b: seq<T>, x: T)
    requires IsSubsequence(a, b)
    ensures IsSubsequence(a + [x], b + [x])
    ensures IsSubsequence(a, b + [x])
    decreases |b|
  {
    if b != [] {
      assert (b + [x])[1..] == b[1..] + [x];
    }
    if a == [] {
      if b != [] {
        SubsequenceSnoc(a, b[1..], x);
        assert a + [x] == [x];
      }
    } else {
      assert (a + [x])[1..] == a[1..] + [x];
      if a[0] == b[0] && IsSubsequence(a[1..], b[1..]) {
        SubsequenceSnoc(a[1..], b[1..], x);
      } else {
        SubsequenceSnoc(a, b[1..], x);
      }
    }
  }

  /** The lists of `xss` one after the other. */
  function Flatten<A>(xss: seq<seq<A>>): seq<A>
  {
    if xss == [] then [] else Flatten(xss[..|xss| - 1]) + xss[|xss| - 1]
  }

  lemma FlattenSnoc<A>(xss: seq<seq<A>>, p: nat)
    requires p < |xss|
    ensures Flatten(xss[..p + 1]) == Flatten(xss[..p]) + xss[p]
  {
    assert xss[..p + 1][..p] == xss[..p];
  }

  /** Every element of a flattened list comes from one of the lists, and every element of every list is in it. */
  lemma {:induction false} FlattenMembers<A>(xss: seq<seq<A>>)
    ensures forall x :: x in Flatten(xss) <==> exists p :: 0 <= p < |xss| && x in xss[p]
  {
    if xss != [] {
      var init := xss[..|xss| - 1];
      FlattenMembers(init);
      forall x ensures x in Flatten(xss) <==> exists p :: 0 <= p < |xss| && x in xss[p] {
        if x in Flatten(init) {
          var p :| 0 <= p < |init| && x in init[p];
          assert x in xss[p];
        }
        if p :| 0 <= p < |xss| && x in xss[p] {
          if p < |xss| - 1 {
            assert x in init[p];
          }
        }
      }
    }
  }

  /**
    The nested loop `for xs in xss: for x in xs: r.append(f(x))`: every
    element of every list, mapped, in order.
   */
  method MapFlatten<A, B>(f: A -> B, xss: seq<seq<A>>) returns (r: seq<B>)
    ensures r == Map(f, Flatten(xss))
  {
    r := [];
    for p := 0 to |xss|
      invariant r == Map(f, Flatten(xss[..p]))
    {
      var done := Flatten(xss[..p]);
      for k := 0 to |xss[p]|
        invariant r == Map(f, done + xss[p][..k])
      {
        var x := xss[p][k];
        MapAppend(f, done + xss[p][..k], [x]);
        assert done + xss[p][..k + 1] == (done + xss[p][..k]) + [x];
        r := r + [f(x)];
      }
      assert xss[p][..|xss[p]|] == xss[p];
      FlattenSnoc(xss, p);
    }
    assert xss[..|xss|] == xss;
  }
}
