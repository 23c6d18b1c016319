/** Whole-sequence transforms that the program's append loops compute:
  * one output per input in order, or the inputs that pass a test. */
module Seqs {

  /** A concatenation splits back into its two parts. */
  lemma ConcatSplit<A>(a: seq<A>, b: seq<A>)
    ensures (a + b)[..|a|] == a && (a + b)[|a|..] == b
  {
  }

  /** `f` applied to every element, in order; built by appending at the
    * end, as a Go `append` loop does. */
  function Map<A, B>(f: A -> B, xs: seq<A>): (ys: seq<B>)
    ensures |ys| == |xs|
  {
    if xs == [] then [] else Map(f, xs[..|xs| - 1]) + [f(xs[|xs| - 1])]
  }

  lemma {:induction false} MapEach<A, B>(f: A -> B, xs: seq<A>)
    ensures forall i :: 0 <= i < |xs| ==> Map(f, xs)[i] == f(xs[i])
  {
    if xs != [] {
      var pre := xs[..|xs| - 1];
      MapEach(f, pre);
      forall i | 0 <= i < |xs| ensures Map(f, xs)[i] == f(xs[i]) {
        if i < |xs| - 1 {
          assert xs[i] == pre[i];
        }
      }
    }
  }

  /** One more element appended to the input appends its image. */
  lemma MapSnoc<A, B>(f: A -> B, xs: seq<A>, x: A)
    ensures Map(f, xs + [x]) == Map(f, xs) + [f(x)]
  {
    assert (xs + [x])[..|xs|] == xs;
  }

  lemma {:induction false} MapConcat<A, B>(f: A -> B, xs: seq<A>, ys: seq<A>)
    ensures Map(f, xs + ys) == Map(f, xs) + Map(f, ys)
    decreases |ys|
  {
    if ys != [] {
      var pre := ys[..|ys| - 1];
      var y := ys[|ys| - 1];
      assert ys == pre + [y];
      assert xs + ys == (xs + pre) + [y];
      MapConcat(f, xs, pre);
      MapSnoc(f, xs + pre, y);
      MapSnoc(f, pre, y);
      calc {
        Map(f, xs + ys);
        Map(f, xs + pre) + [f(y)];
        (Map(f, xs) + Map(f, pre)) + [f(y)];
        Map(f, xs) + (Map(f, pre) + [f(y)]);
        Map(f, xs) + Map(f, ys);
      }
    } else {
      assert xs + ys == xs;
    }
  }

  /** The append loop `for _, x := range xs { ys = append(ys, f(x)) }`
    * that every decoder of the program runs over its records. */
  method MapLoop<A, B>(f: A -> B, xs: seq<A>) returns (ys: seq<B>)
    ensures ys == Map(f, xs)
    ensures |ys| == |xs| && forall i :: 0 <= i < |xs| ==> ys[i] == f(xs[i])
  {
    ys := [];
    var n := 0;
    while n < |xs|
      invariant 0 <= n <= |xs|
      invariant ys == Map(f, xs[..n])
    {
      MapSnoc(f, xs[..n], xs[n]);
      assert xs[..n + 1] == xs[..n] + [xs[n]];
      ys := ys + [f(xs[n])];
      n := n + 1;
    }
    assert xs[..n] == xs;
    MapEach(f, xs);
  }

  /** The same loop run over an array in place:
    * `for i := range a { a[i] = f(a[i]) }`. */
  method MapInPlace<A>(f: A -> A, a: array<A>)
    modifies a
    ensures a[..] == Map(f, old(a[..]))
  {
    ghost var before := a[..];
    var i := 0;
    while i < a.Length
      invariant 0 <= i <= a.Length
      invariant a[..i] == Map(f, before[..i])
      invariant a[i..] == before[i..]
    {
      ghost var done := a[..i];
      assert a[i] == before[i] by { assert a[i..][0] == before[i..][0]; }
      a[i] := f(a[i]);
      assert a[..i + 1] == done + [f(before[i])];
      assert before[..i + 1] == before[..i] + [before[i]];
      MapSnoc(f, before[..i], before[i]);
      assert a[i + 1..] == before[i + 1..];
      i := i + 1;
    }
    assert a[..] == a[..i];
    assert before == before[..i];
  }

  /** Writes a sequence back over an array of the same length, element by
    * element. */
  method CopyInto<A>(a: array<A>, xs: seq<A>)
    requires |xs| == a.Length
    modifies a
    ensures a[..] == xs
  {
    var i := 0;
    while i < a.Length
      invariant 0 <= i <= a.Length
      invariant a[..i] == xs[..i]
    {
      a[i] := xs[i];
      assert a[..i + 1] == xs[..i + 1];
      i := i + 1;
    }
    assert a[..] == a[..i];
  }

  /** The elements satisfying `keep`, in their original order. */
  function Filter<A>(keep: A -> bool, xs: seq<A>): seq<A>
  {
    if xs == [] then [] else
      var pre := Filter(keep, xs[..|xs| - 1]);
      if keep(xs[|xs| - 1]) then pre + [xs[|xs| - 1]] else pre
  }

  lemma FilterSnoc<A>(keep: A -> bool, xs: seq<A>, x: A)
    ensures Filter(keep, xs + [x]) == if keep(x) then Filter(keep, xs) + [x] else Filter(keep, xs)
  {
    assert (xs + [x])[..|xs|] == xs;
  }

  /** A test everything passes keeps the sequence whole. */
  lemma {:induction false} FilterAll<A>(keep: A -> bool, xs: seq<A>)
    requires forall x :: x in xs ==> keep(x)
    ensures Filter(keep, xs) == xs
  {
    if xs != [] {
      var pre := xs[..|xs| - 1];
      assert xs == pre + [xs[|xs| - 1]];
      FilterAll(keep, pre);
    }
  }

  /** Filtering distributes over concatenation, so kept elements stay in
    * their original order. */
  lemma {:induction false} FilterConcat<A>(keep: A -> bool, xs: seq<A>, ys: seq<A>)
    ensures Filter(keep, xs + ys) == Filter(keep, xs) + Filter(keep, ys)
    decreases |ys|
  {
    if ys == [] {
      assert xs + ys == xs;
    } else {
      var pre := ys[..|ys| - 1];
      var y := ys[|ys| - 1];
      assert ys == pre + [y];
      assert xs + ys == (xs + pre) + [y];
      FilterConcat(keep, xs, pre);
      FilterSnoc(keep, xs + pre, y);
      FilterSnoc(keep, pre, y);
      var tail := if keep(y) then [y] else [];
      calc {
        Filter(keep, xs + ys);
        Filter(keep, (xs + pre) + [y]);
        Filter(keep, xs + pre) + tail;
        (Filter(keep, xs) + Filter(keep, pre)) + tail;
        Filter(keep, xs) + (Filter(keep, pre) + tail);
        Filter(keep, xs) + Filter(keep, ys);
      }
    }
  }

  /** An element is kept exactly when it occurs and passes the test. */
  lemma {:induction false} FilterMembers<A>(keep: A -> bool, xs: seq<A>, x: A)
    ensures x in Filter(keep, xs) <==> x in xs && keep(x)
  {
    if xs != [] {
      var pre := xs[..|xs| - 1];
      assert xs == pre + [xs[|xs| - 1]];
      FilterMembers(keep, pre, x);
    }
  }

  /** The elements that pass and the elements that fail together make up
    * the input, counting repetitions. */
  lemma {:induction false} FilterSplit<A>(keep: A -> bool, drop: A -> bool, xs: seq<A>)
    requires forall x :: drop(x) == !keep(x)
    ensures multiset(Filter(keep, xs)) + multiset(Filter(drop, xs)) == multiset(xs)
  {
    if xs != [] {
      var pre := xs[..|xs| - 1];
      var x := xs[|xs| - 1];
      assert xs == pre + [x];
      FilterSplit(keep, drop, pre);
      FilterSnoc(keep, pre, x);
      FilterSnoc(drop, pre, x);
    }
  }

  /** The concatenation of a sequence of sequences, in order. */
  function Flatten<A>(xss: seq<seq<A>>): (ys: seq<A>)
  {
    if xss == [] then [] else Flatten(xss[..|xss| - 1]) + xss[|xss| - 1]
  }

  lemma FlattenSnoc<A>(xss: seq<seq<A>>, xs: seq<A>)
    ensures Flatten(xss + [xs]) == Flatten(xss) + xs
  {
    assert (xss + [xs])[..|xss|] == xss;
  }

  /** The total length is the sum of the lengths. */
  function TotalLength<A>(xss: seq<seq<A>>): nat
  {
    if xss == [] then 0 else TotalLength(xss[..|xss| - 1]) + |xss[|xss| - 1]|
  }

  lemma {:induction false} FlattenLength<A>(xss: seq<seq<A>>)
    ensures |Flatten(xss)| == TotalLength(xss)
  {
    if xss != [] { FlattenLength(xss[..|xss| - 1]); }
  }
}
