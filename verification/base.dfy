/** Failure-carrying wrappers and two sequence combinators shared by the
    whole model: an order-preserving filter-map and a counter. */
module Base {

  /** Go's nil-able pointer or interface value. */
  datatype Option<+T> = None | Some(value: T)

  /** A Go `(value, error)` pair in which exactly one side is meaningful. */
  datatype Result<+T, +E> = Ok(value: T) | Err(error: E)

  /** Keeps, in input order, the value `f` yields for every element it accepts:
      the shape of a Go loop that appends to a slice under a condition. */
  function FilterMap<A, B>(f: A -> Option<B>, xs: seq<A>): (ys: seq<B>)
    ensures |ys| <= |xs|
    decreases |xs|
  {
    if |xs| == 0 then []
    else
      var rest := FilterMap(f, xs[1..]);
      match f(xs[0])
      case Some(y) => [y] + rest
      case None => rest
  }

  /** FilterMap distributes over concatenation: whatever the first part keeps
      comes first, then whatever the second part keeps. */
  lemma {:induction false} FilterMapAppend<A, B>(f: A -> Option<B>, xs: seq<A>, ys: seq<A>)
    ensures FilterMap(f, xs + ys) == FilterMap(f, xs) + FilterMap(f, ys)
    decreases |xs|
  {
    if |xs| == 0 {
      assert xs + ys == ys;
    } else {
      assert (xs + ys)[0] == xs[0];
      assert (xs + ys)[1..] == xs[1..] + ys;
      FilterMapAppend(f, xs[1..], ys);
    }
  }

  /** One unfolding step of FilterMap on a non-empty sequence. */
  lemma FilterMapCons<A, B>(f: A -> Option<B>, x: A, xs: seq<A>)
    ensures FilterMap(f, [x] + xs) == (if f(x).Some? then [f(x).value] else []) + FilterMap(f, xs)
  {
    assert ([x] + xs)[1..] == xs;
  }

  /** Nothing is kept when `f` accepts no element. */
  lemma {:induction false} FilterMapNone<A, B>(f: A -> Option<B>, xs: seq<A>)
    requires forall i :: 0 <= i < |xs| ==> f(xs[i]).None?
    ensures FilterMap(f, xs) == []
    decreases |xs|
  {
    if |xs| > 0 {
      FilterMapNone(f, xs[1..]);
    }
  }

  /** Exactly one value is kept when `f` accepts exactly one element. */
  lemma {:induction false} FilterMapOne<A, B>(f: A -> Option<B>, xs: seq<A>, k: nat)
    requires k < |xs| && f(xs[k]).Some?
    requires forall i :: 0 <= i < |xs| && i != k ==> f(xs[i]).None?
    ensures FilterMap(f, xs) == [f(xs[k]).value]
    decreases |xs|
  {
    if k == 0 {
      FilterMapNone(f, xs[1..]);
    } else {
      FilterMapOne(f, xs[1..], k - 1);
    }
  }

  /** A value is kept exactly when some input element produces it. */
  lemma {:induction false} FilterMapMembership<A, B>(f: A -> Option<B>, xs: seq<A>, y: B)
    ensures y in FilterMap(f, xs) <==> exists i :: 0 <= i < |xs| && f(xs[i]) == Some(y)
    decreases |xs|
  {
    if |xs| > 0 {
      FilterMapMembership(f, xs[1..], y);
      if y in FilterMap(f, xs[1..]) {
        var i :| 0 <= i < |xs[1..]| && f(xs[1..][i]) == Some(y);
        assert f(xs[i + 1]) == Some(y);
      }
      if exists i :: 0 <= i < |xs| && f(xs[i]) == Some(y) {
        var i :| 0 <= i < |xs| && f(xs[i]) == Some(y);
        if i > 0 {
          assert f(xs[1..][i - 1]) == Some(y);
        }
      }
    }
  }

  /** Number of elements satisfying `p`. */
  function CountWhere<T>(xs: seq<T>, p: T -> bool): (n: nat)
    ensures n <= |xs|
    ensures n == 0 <==> forall i :: 0 <= i < |xs| ==> !p(xs[i])
    decreases |xs|
  {
    if |xs| == 0 then 0
    else (if p(xs[0]) then 1 else 0) + CountWhere(xs[1..], p)
  }

  /** One unfolding step of CountWhere on a non-empty sequence. */
  lemma CountWhereCons<T>(x: T, xs: seq<T>, p: T -> bool)
    ensures CountWhere([x] + xs, p) == (if p(x) then 1 else 0) + CountWhere(xs, p)
  {
    assert ([x] + xs)[1..] == xs;
  }

  /** Exactly one element satisfies `p`. */
  lemma {:induction false} CountWhereOne<T>(xs: seq<T>, p: T -> bool, k: nat)
    requires k < |xs| && p(xs[k])
    requires forall i :: 0 <= i < |xs| && i != k ==> !p(xs[i])
    ensures CountWhere(xs, p) == 1
    decreases |xs|
  {
    if k > 0 {
      CountWhereOne(xs[1..], p, k - 1);
    }
  }

  /** Counting distributes over concatenation. */
  lemma {:induction false} CountWhereAppend<T>(xs: seq<T>, ys: seq<T>, p: T -> bool)
    ensures CountWhere(xs + ys, p) == CountWhere(xs, p) + CountWhere(ys, p)
    decreases |xs|
  {
    if |xs| == 0 {
      assert xs + ys == ys;
    } else {
      assert (xs + ys)[0] == xs[0];
      assert (xs + ys)[1..] == xs[1..] + ys;
      CountWhereAppend(xs[1..], ys, p);
    }
  }
}
