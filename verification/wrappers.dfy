/** Option and Result, used for the dictionary keys a decoded program description may lack
    and for the lookup failure the extractor raises when it indexes one of them. */
module Wrappers {

  /** A dictionary entry that may be absent: decoding a description drops empty lists. */
  datatype Option<+T> = None | Some(value: T)

  /** The value of a computation, or the error that aborted it. */
  datatype Result<+R, +E> = Success(value: R) | Failure(error: E)
}

/** Concatenating per-item results from left to right, where the first failing item
    aborts the whole computation with its error. Collecting the head and tail of an
    operator, walking the operators of a block and walking the blocks of a program are
    all this one fold. */
module Folds {
  import opened Wrappers

  /** Left-to-right concatenation of `f(xs[0]) + f(xs[1]) + ...`; the earliest failure wins.
      Defined on the last element so that it matches a loop over a growing prefix. */
  function ConcatMap<T, U, E>(xs: seq<T>, f: T -> Result<seq<U>, E>): Result<seq<U>, E>
    decreases |xs|
  {
    if xs == [] then Success([])
    else
      match ConcatMap(xs[..|xs| - 1], f)
      case Failure(e) => Failure(e)
      case Success(prefix) =>
        match f(xs[|xs| - 1])
        case Failure(e) => Failure(e)
        case Success(last) => Success(prefix + last)
  }

  /** Sequencing two results: the first failure, or both values concatenated. */
  function Then<U, E>(a: Result<seq<U>, E>, b: Result<seq<U>, E>): Result<seq<U>, E>
  {
    match a
    case Failure(e) => Failure(e)
    case Success(x) =>
      match b
      case Failure(e) => Failure(e)
      case Success(y) => Success(x + y)
  }

  /** The fold of a concatenation is the sequencing of the two folds: items are visited in
      order, and a failure in `xs` hides anything `ys` would have done. */
  lemma {:induction false} ConcatMapAppend<T, U, E>(xs: seq<T>, ys: seq<T>, f: T -> Result<seq<U>, E>)
    ensures ConcatMap(xs + ys, f) == Then(ConcatMap(xs, f), ConcatMap(ys, f))
    decreases |ys|
  {
    if ys == [] {
      assert xs + ys == xs;
      if ConcatMap(xs, f).Success? {
        assert ConcatMap(xs, f).value + [] == ConcatMap(xs, f).value;
      }
    } else {
      var ys' := ys[..|ys| - 1];
      var zs := xs + ys;
      assert zs[..|zs| - 1] == xs + ys';
      assert zs[|zs| - 1] == ys[|ys| - 1];
      ConcatMapAppend(xs, ys', f);
      ThenAssociative(ConcatMap(xs, f), ConcatMap(ys', f), f(ys[|ys| - 1]));
    }
  }

  lemma ThenAssociative<U, E>(a: Result<seq<U>, E>, b: Result<seq<U>, E>, c: Result<seq<U>, E>)
    ensures Then(Then(a, b), c) == Then(a, Then(b, c))
  {
    if a.Success? && b.Success? && c.Success? {
      assert (a.value + b.value) + c.value == a.value + (b.value + c.value);
    }
  }

  /** A single item folds to its own result. */
  lemma ConcatMapSingle<T, U, E>(x: T, f: T -> Result<seq<U>, E>)
    ensures ConcatMap([x], f) == Then(Success([]), f(x))
  {
    assert [x][..0] == [];
  }

  /** The fold fails exactly when some item fails. */
  lemma {:induction false} ConcatMapFailsIff<T, U, E>(xs: seq<T>, f: T -> Result<seq<U>, E>)
    ensures ConcatMap(xs, f).Failure? <==> exists i :: 0 <= i < |xs| && f(xs[i]).Failure?
    decreases |xs|
  {
    if xs != [] {
      var xs' := xs[..|xs| - 1];
      ConcatMapFailsIff(xs', f);
      if ConcatMap(xs', f).Failure? {
        var i :| 0 <= i < |xs'| && f(xs'[i]).Failure?;
        assert xs[i] == xs'[i];
      } else if f(xs[|xs| - 1]).Success? {
        forall i | 0 <= i < |xs|
          ensures f(xs[i]).Success?
        {
          if i < |xs'| {
            assert xs[i] == xs'[i];
          }
        }
      }
    }
  }

  /** On success the fold holds exactly the values the items produced. */
  lemma {:induction false} ConcatMapMembers<T, U, E>(xs: seq<T>, f: T -> Result<seq<U>, E>, u: U)
    requires ConcatMap(xs, f).Success?
    ensures forall i :: 0 <= i < |xs| ==> f(xs[i]).Success?
    ensures u in ConcatMap(xs, f).value <==> exists i :: 0 <= i < |xs| && u in f(xs[i]).value
    decreases |xs|
  {
    ConcatMapFailsIff(xs, f);
    if xs != [] {
      var xs' := xs[..|xs| - 1];
      var n := |xs| - 1;
      ConcatMapMembers(xs', f, u);
      if u in ConcatMap(xs, f).value {
        if u in ConcatMap(xs', f).value {
          var i :| 0 <= i < |xs'| && u in f(xs'[i]).value;
          assert xs[i] == xs'[i];
        } else {
          assert u in f(xs[n]).value;
        }
      } else {
        forall i | 0 <= i < |xs|
          ensures u !in f(xs[i]).value
        {
          if i < n {
            assert xs[i] == xs'[i];
          }
        }
      }
    }
  }

  /** If every item produces at most one value, the fold holds at most one value per item. */
  lemma {:induction false} ConcatMapAtMostOne<T, U, E>(xs: seq<T>, f: T -> Result<seq<U>, E>)
    requires forall i :: 0 <= i < |xs| && f(xs[i]).Success? ==> |f(xs[i]).value| <= 1
    requires ConcatMap(xs, f).Success?
    ensures |ConcatMap(xs, f).value| <= |xs|
    decreases |xs|
  {
    if xs != [] {
      var xs' := xs[..|xs| - 1];
      forall i | 0 <= i < |xs'| && f(xs'[i]).Success?
        ensures |f(xs'[i]).value| <= 1
      {
        assert xs'[i] == xs[i];
      }
      ConcatMapAtMostOne(xs', f);
    }
  }

  /** Growing the prefix by one item sequences in that item's result. */
  lemma ConcatMapSnoc<T, U, E>(xs: seq<T>, i: nat, f: T -> Result<seq<U>, E>)
    requires i < |xs|
    ensures ConcatMap(xs[..i + 1], f) == Then(ConcatMap(xs[..i], f), f(xs[i]))
  {
    assert xs[..i + 1][..i] == xs[..i];
  }

  /** A failure in a prefix is the failure of the whole fold. */
  lemma ConcatMapPrefixFailure<T, U, E>(xs: seq<T>, i: nat, f: T -> Result<seq<U>, E>)
    requires i <= |xs| && ConcatMap(xs[..i], f).Failure?
    ensures ConcatMap(xs, f) == ConcatMap(xs[..i], f)
  {
    assert xs == xs[..i] + xs[i..];
    ConcatMapAppend(xs[..i], xs[i..], f);
  }

  /** A failing fold names the earliest failing item, whose error it carries. */
  lemma {:induction false} ConcatMapFailureWitness<T, U, E>(xs: seq<T>, f: T -> Result<seq<U>, E>) returns (i: nat)
    requires ConcatMap(xs, f).Failure?
    ensures i < |xs| && f(xs[i]).Failure? && ConcatMap(xs, f).error == f(xs[i]).error
    ensures forall j :: 0 <= j < i ==> f(xs[j]).Success?
    decreases |xs|
  {
    var n := |xs| - 1;
    var xs' := xs[..n];
    if ConcatMap(xs', f).Failure? {
      i := ConcatMapFailureWitness(xs', f);
      assert xs[i] == xs'[i];
      assert forall j :: 0 <= j < i ==> xs[j] == xs'[j];
    } else {
      i := n;
      ConcatMapFailsIff(xs', f);
      assert forall j :: 0 <= j < n ==> xs[j] == xs'[j];
    }
  }
}
