/** Small result types shared by every module of the model. */
module Wrappers {

  /** Rust's `Option`. */
  datatype Option<+T> = None | Some(value: T)

  /**
   * The outcome of code that may panic: `Returns(v)` when it finishes with `v`,
   * `Panics` when it stops through `unwrap` on a missing value or an explicit `panic!`.
   */
  datatype Run<+T> = Returns(value: T) | Panics

  /** Puts `xs` in front of the list a computation returns; a panic stays a panic. */
  function Prepend<T>(xs: seq<T>, r: Run<seq<T>>): (p: Run<seq<T>>)
    ensures p.Panics? <==> r.Panics?
    ensures p.Returns? ==> |p.value| == |xs| + |r.value| && p.value[..|xs|] == xs && p.value[|xs|..] == r.value
  {
    match r
    case Panics => Panics
    case Returns(ys) => Returns(xs + ys)
  }

  /** Prepending twice is prepending the concatenation. */
  lemma PrependPrepend<T>(xs: seq<T>, ys: seq<T>, r: Run<seq<T>>)
    ensures Prepend(xs, Prepend(ys, r)) == Prepend(xs + ys, r)
  {
    if r.Returns? {
      assert xs + (ys + r.value) == (xs + ys) + r.value;
    }
  }

  /**
   * A loop that pushes, for each element in turn, the value `f` keeps for it
   * (`None`: nothing), and stops with a panic as soon as `f` panics.
   */
  function Collect<T, U>(xs: seq<T>, f: T -> Run<Option<U>>): Run<seq<U>>
  {
    if xs == [] then Returns([])
    else
      var first := f(xs[0]);
      if first.Panics? then Panics
      else Prepend(if first.value.Some? then [first.value.value] else [], Collect(xs[1..], f))
  }

  /** Collecting works element by element, so it keeps the input order. */
  lemma {:induction false} CollectAppend<T, U>(xs: seq<T>, ys: seq<T>, f: T -> Run<Option<U>>)
    ensures Collect(xs + ys, f) == if Collect(xs, f).Panics? then Panics else Prepend(Collect(xs, f).value, Collect(ys, f))
  {
    if xs == [] {
      assert xs + ys == ys;
    } else {
      assert (xs + ys)[0] == xs[0];
      assert (xs + ys)[1..] == xs[1..] + ys;
      CollectAppend(xs[1..], ys, f);
      var first := f(xs[0]);
      if first.Returns? && Collect(xs[1..], f).Returns? {
        PrependPrepend(if first.value.Some? then [first.value.value] else [], Collect(xs[1..], f).value, Collect(ys, f));
      }
    }
  }

  /** A value is collected exactly when some element produced it. */
  lemma {:induction false} CollectExact<T, U>(xs: seq<T>, f: T -> Run<Option<U>>, u: U)
    requires Collect(xs, f).Returns?
    ensures u in Collect(xs, f).value <==> exists i :: 0 <= i < |xs| && f(xs[i]) == Returns(Some(u))
  {
    if xs != [] {
      CollectExact(xs[1..], f, u);
      if exists i :: 1 <= i < |xs| && f(xs[i]) == Returns(Some(u)) {
        var i :| 1 <= i < |xs| && f(xs[i]) == Returns(Some(u));
        assert xs[1..][i - 1] == xs[i];
      }
      if exists i :: 0 <= i < |xs| - 1 && f(xs[1..][i]) == Returns(Some(u)) {
        var i :| 0 <= i < |xs| - 1 && f(xs[1..][i]) == Returns(Some(u));
        assert xs[i + 1] == xs[1..][i];
      }
    }
  }

  /** The run panics exactly when some element makes `f` panic. */
  lemma {:induction false} CollectPanics<T, U>(xs: seq<T>, f: T -> Run<Option<U>>)
    ensures Collect(xs, f).Panics? <==> exists i :: 0 <= i < |xs| && f(xs[i]).Panics?
  {
    if xs != [] {
      CollectPanics(xs[1..], f);
      if exists i :: 1 <= i < |xs| && f(xs[i]).Panics? {
        var i :| 1 <= i < |xs| && f(xs[i]).Panics?;
        assert xs[1..][i - 1] == xs[i];
      }
      if exists i :: 0 <= i < |xs| - 1 && f(xs[1..][i]).Panics? {
        var i :| 0 <= i < |xs| - 1 && f(xs[1..][i]).Panics?;
        assert xs[i + 1] == xs[1..][i];
      }
    }
  }
}
