/**
 * The loop shape several modules share: walk a list in order, keep what each
 * item yields, and stop at the first item that raises.
 */
module Gathering {
  import opened Wrappers

  /** The items `f` keeps from `xs`, in order, or the first error `f` reports. */
  function Gather<T, U, E>(xs: seq<T>, f: T -> Result<Option<U>, E>): Result<seq<U>, E> {
    if xs == [] then Ok([])
    else
      match Gather(xs[..|xs| - 1], f)
      case Err(e) => Err(e)
      case Ok(us) =>
        match f(xs[|xs| - 1])
        case Err(e) => Err(e)
        case Ok(None) => Ok(us)
        case Ok(Some(u)) => Ok(us + [u])
  }

  lemma GatherSnoc<T, U, E>(xs: seq<T>, f: T -> Result<Option<U>, E>, x: T)
    ensures Gather(xs + [x], f) ==
      match Gather(xs, f)
      case Err(e) => Err(e)
      case Ok(us) =>
        match f(x)
        case Err(e) => Err(e)
        case Ok(None) => Ok(us)
        case Ok(Some(u)) => Ok(us + [u])
  {
    assert (xs + [x])[..|xs|] == xs;
  }

  /** One more item of `xs`, by index. */
  lemma GatherNext<T, U, E>(xs: seq<T>, f: T -> Result<Option<U>, E>, i: nat)
    requires i < |xs|
    ensures Gather(xs[..i + 1], f) ==
      match Gather(xs[..i], f)
      case Err(e) => Err(e)
      case Ok(us) =>
        match f(xs[i])
        case Err(e) => Err(e)
        case Ok(None) => Ok(us)
        case Ok(Some(u)) => Ok(us + [u])
  {
    assert xs[..i + 1] == xs[..i] + [xs[i]];
    GatherSnoc(xs[..i], f, xs[i]);
  }

  /** The walk succeeds exactly when no item raises. */
  lemma {:induction false} GatherOk<T, U, E>(xs: seq<T>, f: T -> Result<Option<U>, E>)
    ensures Gather(xs, f).Ok? <==> forall x :: x in xs ==> f(x).Ok?
  {
    if xs != [] {
      var pre := xs[..|xs| - 1];
      GatherOk(pre, f);
      assert xs == pre + [xs[|xs| - 1]];
    }
  }

  /** The error reported is that of the first item that raises. */
  lemma {:induction false} GatherFirstError<T, U, E>(xs: seq<T>, f: T -> Result<Option<U>, E>, i: nat)
    requires i < |xs| && f(xs[i]).Err?
    requires forall y :: y in xs[..i] ==> f(y).Ok?
    ensures Gather(xs, f) == Err(f(xs[i]).error)
  {
    var n := |xs| - 1;
    var pre := xs[..n];
    if i < n {
      assert pre[..i] == xs[..i];
      assert pre[i] == xs[i];
      GatherFirstError(pre, f, i);
    } else {
      assert pre == xs[..i];
      GatherOk(pre, f);
    }
  }

  /** Everything kept comes from some item. */
  lemma {:induction false} GatherSound<T, U, E>(xs: seq<T>, f: T -> Result<Option<U>, E>, u: U)
    requires Gather(xs, f).Ok? && u in Gather(xs, f).value
    ensures exists x :: x in xs && f(x) == Ok(Some(u))
  {
    var n := |xs| - 1;
    var pre := xs[..n];
    if f(xs[n]) != Ok(Some(u)) {
      GatherSound(pre, f, u);
      var x :| x in pre && f(x) == Ok(Some(u));
      assert x in xs;
    }
  }

  /** Everything an item yields is kept, once no item raises. */
  lemma {:induction false} GatherComplete<T, U, E>(xs: seq<T>, f: T -> Result<Option<U>, E>, i: nat)
    requires Gather(xs, f).Ok? && i < |xs| && f(xs[i]).Ok? && f(xs[i]).value.Some?
    ensures f(xs[i]).value.value in Gather(xs, f).value
  {
    var n := |xs| - 1;
    var pre := xs[..n];
    if i < n {
      assert pre[i] == xs[i];
      GatherComplete(pre, f, i);
    }
  }

  /** When every item is kept, one result per item, in order. */
  lemma {:induction false} GatherAll<T, U, E>(xs: seq<T>, f: T -> Result<Option<U>, E>)
    requires forall x :: x in xs ==> f(x).Ok? && f(x).value.Some?
    ensures Gather(xs, f).Ok? && |Gather(xs, f).value| == |xs|
    ensures forall i :: 0 <= i < |xs| ==> Gather(xs, f).value[i] == f(xs[i]).value.value
  {
    if xs != [] {
      var n := |xs| - 1;
      var pre := xs[..n];
      assert forall x :: x in pre ==> x in xs;
      GatherAll(pre, f);
      assert forall i :: 0 <= i < n ==> pre[i] == xs[i];
    }
  }

  /** What a successful walk keeps is exactly what its items yield. */
  lemma GatherMember<T, U, E>(xs: seq<T>, f: T -> Result<Option<U>, E>, u: U)
    requires Gather(xs, f).Ok?
    ensures u in Gather(xs, f).value <==> exists x :: x in xs && f(x) == Ok(Some(u))
  {
    if u in Gather(xs, f).value {
      GatherSound(xs, f, u);
    }
    if x :| x in xs && f(x) == Ok(Some(u)) {
      var i :| 0 <= i < |xs| && xs[i] == x;
      GatherComplete(xs, f, i);
    }
  }

  /** A successful walk keeps something exactly when some item yields something. */
  lemma GatherNonEmpty<T, U, E>(xs: seq<T>, f: T -> Result<Option<U>, E>)
    requires Gather(xs, f).Ok?
    ensures Gather(xs, f).value != [] <==> exists x :: x in xs && f(x).Ok? && f(x).value.Some?
  {
    var us := Gather(xs, f).value;
    if us != [] {
      GatherSound(xs, f, us[0]);
    }
    if x :| x in xs && f(x).Ok? && f(x).value.Some? {
      var i :| 0 <= i < |xs| && xs[i] == x;
      GatherComplete(xs, f, i);
    }
  }

  /** Once a prefix has raised, the rest of the list is not looked at. */
  lemma {:induction false} GatherErrorStays<T, U, E>(xs: seq<T>, f: T -> Result<Option<U>, E>, i: nat)
    requires i <= |xs| && Gather(xs[..i], f).Err?
    ensures Gather(xs, f) == Gather(xs[..i], f)
    decreases |xs|
  {
    if i < |xs| {
      var n := |xs| - 1;
      assert xs[..n][..i] == xs[..i];
      GatherErrorStays(xs[..n], f, i);
    } else {
      assert xs[..i] == xs;
    }
  }

  /** The first thing `f` reports about an item of `xs`, in order: a finding, an error, or nothing at all. */
  function First<T, U, E>(xs: seq<T>, f: T -> Result<Option<U>, E>): Result<Option<U>, E> {
    if xs == [] then Ok(None)
    else if f(xs[0]) == Ok(None) then First(xs[1..], f)
    else f(xs[0])
  }

  /** `First` reports nothing exactly when no item has anything to report; otherwise it is the earliest report. */
  lemma {:induction false} FirstFound<T, U, E>(xs: seq<T>, f: T -> Result<Option<U>, E>)
    ensures First(xs, f) == Ok(None) <==> forall i :: 0 <= i < |xs| ==> f(xs[i]) == Ok(None)
    ensures First(xs, f) != Ok(None) ==> exists i :: (0 <= i < |xs| && First(xs, f) == f(xs[i]) &&
      forall j :: 0 <= j < i ==> f(xs[j]) == Ok(None))
  {
    if xs != [] && f(xs[0]) == Ok(None) {
      FirstFound(xs[1..], f);
      assert forall i :: 0 < i < |xs| ==> xs[i] == xs[1..][i - 1];
      if First(xs, f) != Ok(None) {
        var k :| 0 <= k < |xs[1..]| && First(xs[1..], f) == f(xs[1..][k]) &&
          forall j :: 0 <= j < k ==> f(xs[1..][j]) == Ok(None);
        assert First(xs, f) == f(xs[k + 1]);
      }
    }
  }

  /** The state after applying `f` to each item of `xs` in order, starting from `s`. */
  function Fold<S, T>(s: S, xs: seq<T>, f: (S, T) -> S): S {
    if xs == [] then s else f(Fold(s, xs[..|xs| - 1], f), xs[|xs| - 1])
  }

  lemma FoldSnoc<S, T>(s: S, xs: seq<T>, f: (S, T) -> S, x: T)
    ensures Fold(s, xs + [x], f) == f(Fold(s, xs, f), x)
  {
    assert (xs + [x])[..|xs|] == xs;
  }

  /** One more item of `xs`, by index. */
  lemma FoldNext<S, T>(s: S, xs: seq<T>, f: (S, T) -> S, i: nat)
    requires i < |xs|
    ensures Fold(s, xs[..i + 1], f) == f(Fold(s, xs[..i], f), xs[i])
  {
    assert xs[..i + 1] == xs[..i] + [xs[i]];
    FoldSnoc(s, xs[..i], f, xs[i]);
  }

  /** Folding in two halves is folding the whole. */
  lemma {:induction false} FoldAppend<S, T>(s: S, xs: seq<T>, ys: seq<T>, f: (S, T) -> S)
    ensures Fold(s, xs + ys, f) == Fold(Fold(s, xs, f), ys, f)
    decreases |ys|
  {
    if ys == [] {
      assert xs + ys == xs;
    } else {
      var n := |ys| - 1;
      assert (xs + ys)[..|xs + ys| - 1] == xs + ys[..n];
      FoldAppend(s, xs, ys[..n], f);
    }
  }

  /** Folding up to `i` and then the rest is folding the whole. */
  lemma FoldSplit<S, T>(s: S, xs: seq<T>, f: (S, T) -> S, i: nat)
    requires i <= |xs|
    ensures Fold(s, xs, f) == Fold(Fold(s, xs[..i], f), xs[i..], f)
  {
    FoldAppend(s, xs[..i], xs[i..], f);
    assert xs[..i] + xs[i..] == xs;
  }

  /** A state every item leaves alone stays. */
  lemma {:induction false} FoldFixed<S, T>(s: S, xs: seq<T>, f: (S, T) -> S)
    requires forall x :: x in xs ==> f(s, x) == s
    ensures Fold(s, xs, f) == s
  {
    if xs != [] {
      var pre := xs[..|xs| - 1];
      assert forall x :: x in pre ==> x in xs;
      FoldFixed(s, pre, f);
      assert xs[|xs| - 1] in xs;
    }
  }

  /** A property the start state has and every step keeps holds at the end. */
  lemma {:induction false} FoldInvariant<S, T>(s: S, xs: seq<T>, f: (S, T) -> S, p: S -> bool)
    requires p(s)
    requires forall a, x :: x in xs && p(a) ==> p(f(a, x))
    ensures p(Fold(s, xs, f))
  {
    if xs != [] {
      var pre := xs[..|xs| - 1];
      assert forall x :: x in pre ==> x in xs;
      FoldInvariant(s, pre, f, p);
      assert xs[|xs| - 1] in xs;
    }
  }
}
