/**
 * Generic sequence operations that stand for the Python list idioms the
 * scripts use: `[x for x in xs if p(x)]` (Filter, Reject), `[f(x) for x in xs]`
 * (MapSeq) and concatenating a list of lists (Flatten).
 */
module Seqs {

  /** Python's `None` or a value. */
  datatype Option<T> = None | Some(value: T)

  /** The elements of `xs` that satisfy `p`, in their original order. */
  function Filter<T>(xs: seq<T>, p: T -> bool): (r: seq<T>)
    ensures |r| <= |xs|
    ensures forall i :: 0 <= i < |r| ==> p(r[i])
  {
    if xs == [] then []
    else (if p(xs[0]) then [xs[0]] else []) + Filter(xs[1..], p)
  }

  /** The elements of `xs` that do not satisfy `p`, in their original order. */
  function Reject<T>(xs: seq<T>, p: T -> bool): (r: seq<T>)
    ensures |r| <= |xs|
    ensures forall i :: 0 <= i < |r| ==> !p(r[i])
  {
    if xs == [] then []
    else (if p(xs[0]) then [] else [xs[0]]) + Reject(xs[1..], p)
  }

  /** `f` applied to every element, position by position. */
  function MapSeq<T, U>(xs: seq<T>, f: T -> U): (r: seq<U>)
    ensures |r| == |xs|
    ensures forall i :: 0 <= i < |xs| ==> r[i] == f(xs[i])
  {
    if xs == [] then [] else [f(xs[0])] + MapSeq(xs[1..], f)
  }

  /** The concatenation of a list of lists. */
  function Flatten<T>(xss: seq<seq<T>>): seq<T>
  {
    if xss == [] then [] else xss[0] + Flatten(xss[1..])
  }

  /** Filtering distributes over concatenation: it keeps the original order. */
  lemma {:induction false} FilterConcat<T>(a: seq<T>, b: seq<T>, p: T -> bool)
    ensures Filter(a + b, p) == Filter(a, p) + Filter(b, p)
  {
    if a == [] {
      assert a + b == b;
    } else {
      assert (a + b)[0] == a[0];
      assert (a + b)[1..] == a[1..] + b;
      FilterConcat(a[1..], b, p);
    }
  }

  lemma {:induction false} RejectConcat<T>(a: seq<T>, b: seq<T>, p: T -> bool)
    ensures Reject(a + b, p) == Reject(a, p) + Reject(b, p)
  {
    if a == [] {
      assert a + b == b;
    } else {
      assert (a + b)[0] == a[0];
      assert (a + b)[1..] == a[1..] + b;
      RejectConcat(a[1..], b, p);
    }
  }

  lemma {:induction false} MapConcat<T, U>(a: seq<T>, b: seq<T>, f: T -> U)
    ensures MapSeq(a + b, f) == MapSeq(a, f) + MapSeq(b, f)
  {
  }

  lemma {:induction false} FlattenConcat<T>(a: seq<seq<T>>, b: seq<seq<T>>)
    ensures Flatten(a + b) == Flatten(a) + Flatten(b)
  {
    if a == [] {
      assert a + b == b;
    } else {
      assert (a + b)[0] == a[0];
      assert (a + b)[1..] == a[1..] + b;
      FlattenConcat(a[1..], b);
    }
  }

  /** Filter on a single element: kept exactly when it satisfies `p`. */
  lemma FilterSingleton<T>(x: T, p: T -> bool)
    ensures Filter([x], p) == if p(x) then [x] else []
  {
    assert [x][1..] == [];
  }

  /** Appending one element to a filtered prefix: the step of an append loop. */
  lemma FilterSnoc<T>(xs: seq<T>, x: T, p: T -> bool)
    ensures Filter(xs + [x], p) == Filter(xs, p) + (if p(x) then [x] else [])
  {
    FilterConcat(xs, [x], p);
    FilterSingleton(x, p);
  }

  lemma RejectSnoc<T>(xs: seq<T>, x: T, p: T -> bool)
    ensures Reject(xs + [x], p) == Reject(xs, p) + (if p(x) then [] else [x])
  {
    RejectConcat(xs, [x], p);
    assert [x][1..] == [];
  }

  lemma MapSnoc<T, U>(xs: seq<T>, x: T, f: T -> U)
    ensures MapSeq(xs + [x], f) == MapSeq(xs, f) + [f(x)]
  {
  }

  /** An element is kept iff it occurs in the input and satisfies `p`. */
  lemma {:induction false} FilterMembership<T>(xs: seq<T>, p: T -> bool, x: T)
    ensures x in Filter(xs, p) <==> x in xs && p(x)
  {
    if xs != [] {
      FilterMembership(xs[1..], p, x);
      assert xs == [xs[0]] + xs[1..];
    }
  }

  /** Filter and Reject split the input: together they hold every element exactly once. */
  lemma {:induction false} FilterRejectPartition<T>(xs: seq<T>, p: T -> bool)
    ensures multiset(Filter(xs, p)) + multiset(Reject(xs, p)) == multiset(xs)
    ensures |Filter(xs, p)| + |Reject(xs, p)| == |xs|
  {
    if xs != [] {
      FilterRejectPartition(xs[1..], p);
      assert xs == [xs[0]] + xs[1..];
    }
  }

  /** Nothing is rejected exactly when every element satisfies `p`. */
  lemma {:induction false} RejectEmptyIff<T>(xs: seq<T>, p: T -> bool)
    ensures Reject(xs, p) == [] <==> forall i :: 0 <= i < |xs| ==> p(xs[i])
  {
    if xs != [] {
      RejectEmptyIff(xs[1..], p);
      assert forall i :: 1 <= i < |xs| ==> xs[i] == xs[1..][i - 1];
    }
  }

  /** One more element of the prefix: it is kept exactly when it satisfies `p`. */
  lemma FilterStep<T>(xs: seq<T>, i: nat, p: T -> bool)
    requires i < |xs|
    ensures Filter(xs[..i + 1], p) == Filter(xs[..i], p) + (if p(xs[i]) then [xs[i]] else [])
  {
    assert xs[..i + 1] == xs[..i] + [xs[i]];
    FilterSnoc(xs[..i], xs[i], p);
  }

  /** Filtering a prefix gives a prefix of the filtered whole. */
  lemma FilteredPrefix<T>(xs: seq<T>, i: nat, p: T -> bool)
    requires i <= |xs|
    ensures |Filter(xs[..i], p)| <= |Filter(xs, p)|
    ensures Filter(xs, p)[..|Filter(xs[..i], p)|] == Filter(xs[..i], p)
  {
    assert xs[..i] + xs[i..] == xs;
    FilterConcat(xs[..i], xs[i..], p);
  }

  lemma RejectStep<T>(xs: seq<T>, i: nat, p: T -> bool)
    requires i < |xs|
    ensures Reject(xs[..i + 1], p) == Reject(xs[..i], p) + (if p(xs[i]) then [] else [xs[i]])
  {
    assert xs[..i + 1] == xs[..i] + [xs[i]];
    RejectSnoc(xs[..i], xs[i], p);
  }

  /** Rejecting by `p` keeps what filtering by `not p` keeps. */
  lemma {:induction false} RejectIsFilterNot<T>(xs: seq<T>, p: T -> bool)
    ensures Reject(xs, p) == Filter(xs, (x: T) => !p(x))
  {
    if xs != [] {
      RejectIsFilterNot(xs[1..], p);
    }
  }
}
