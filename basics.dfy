// Option and Result: the error paths of the harness (a Python exception that
// ends the script) are modelled as values instead of preconditions.
module Basics {

  datatype Option<+T> = None | Some(value: T)

  datatype Result<+T, +E> = Ok(value: T) | Err(error: E) {
    predicate IsFailure() { Err? }

    function PropagateFailure<U>(): Result<U, E>
      requires Err?
    {
      Err(error)
    }

    function Extract(): T
      requires Ok?
    {
      value
    }
  }

  /** No element occurs twice. */
  predicate Distinct<T(==)>(s: seq<T>)
  {
    forall i, j :: 0 <= i < j < |s| ==> s[i] != s[j]
  }

  lemma DistinctAppend<T>(s: seq<T>, x: T)
    requires Distinct(s) && x !in s
    ensures Distinct(s + [x])
  {
  }

  /** The index of the last of the first `k` elements that satisfies `p`. */
  function LastWhere<X>(xs: seq<X>, p: X -> bool, k: nat): (r: Option<nat>)
    requires k <= |xs|
    ensures r.Some? ==> r.value < k && p(xs[r.value])
  {
    if k == 0 then None
    else if p(xs[k - 1]) then Some(k - 1)
    else LastWhere(xs, p, k - 1)
  }

  /** No element after the one found satisfies the test, and when none is
      found no element does. */
  lemma {:induction false} LastWhereIsLast<X>(xs: seq<X>, p: X -> bool, k: nat)
    requires k <= |xs|
    ensures var r := LastWhere(xs, p, k);
      && (r.Some? ==> forall j :: r.value < j < k ==> !p(xs[j]))
      && (r.None? ==> forall j :: 0 <= j < k ==> !p(xs[j]))
  {
    if k > 0 && !p(xs[k - 1]) {
      LastWhereIsLast(xs, p, k - 1);
    }
  }

  /** `step` applied to the first `k` elements in turn, from `init`, stopping
      at the first error: a loop whose body may raise. */
  function Fold<S, X, E>(step: (S, X) -> Result<S, E>, init: S, xs: seq<X>, k: nat): Result<S, E>
    requires k <= |xs|
  {
    if k == 0 then Ok(init)
    else
      var s :- Fold(step, init, xs, k - 1);
      step(s, xs[k - 1])
  }

  lemma FoldNext<S, X, E>(step: (S, X) -> Result<S, E>, init: S, xs: seq<X>, i: nat, s: S)
    requires i < |xs| && Fold(step, init, xs, i) == Ok(s)
    ensures Fold(step, init, xs, i + 1) == step(s, xs[i])
  {
  }

  /** Once the loop has raised, later elements change nothing. */
  lemma {:induction false} FoldErrorSticky<S, X, E>(step: (S, X) -> Result<S, E>, init: S, xs: seq<X>, k: nat, n: nat)
    requires k <= n <= |xs|
    requires Fold(step, init, xs, k).Err?
    ensures Fold(step, init, xs, n) == Fold(step, init, xs, k)
    decreases n
  {
    if n > k {
      FoldErrorSticky(step, init, xs, k, n - 1);
    }
  }

  /** Fold only looks at the elements it has passed. */
  lemma {:induction false} FoldLocal<S, X, E>(step: (S, X) -> Result<S, E>, init: S, p: seq<X>, q: seq<X>, k: nat)
    requires k <= |p| && k <= |q| && p[..k] == q[..k]
    ensures Fold(step, init, p, k) == Fold(step, init, q, k)
  {
    if k > 0 {
      assert p[k - 1] == p[..k][k - 1] == q[k - 1];
      FoldLocal(step, init, p, q, k - 1);
    }
  }

  /** Steps that agree everywhere give the same fold. */
  lemma {:induction false} FoldAgree<S, X, E>(f: (S, X) -> Result<S, E>, g: (S, X) -> Result<S, E>, init: S, xs: seq<X>, k: nat)
    requires k <= |xs|
    requires forall s, x :: f(s, x) == g(s, x)
    ensures Fold(f, init, xs, k) == Fold(g, init, xs, k)
  {
    if k > 0 {
      FoldAgree(f, g, init, xs, k - 1);
    }
  }

  /** Folding a concatenation folds the second part from where the first ended. */
  lemma {:induction false} FoldConcat<S, X, E>(step: (S, X) -> Result<S, E>, init: S, a: seq<X>, b: seq<X>, k: nat)
    requires k <= |b|
    ensures Fold(step, init, a, |a|).Err? ==> Fold(step, init, a + b, |a| + k) == Fold(step, init, a, |a|)
    ensures Fold(step, init, a, |a|).Ok? ==>
              Fold(step, init, a + b, |a| + k) == Fold(step, Fold(step, init, a, |a|).value, b, k)
  {
    if k == 0 {
      assert (a + b)[..|a|] == a[..|a|];
      FoldLocal(step, init, a + b, a, |a|);
    } else {
      FoldConcat(step, init, a, b, k - 1);
      assert (a + b)[|a| + k - 1] == b[k - 1];
    }
  }

  /** A count `r` started from `x` instead of 0. */
  function Shift<E>(x: int, r: Result<int, E>): Result<int, E>
  {
    match r
    case Ok(v) => Ok(x + v)
    case Err(e) => Err(e)
  }

  lemma ShiftZero<E>(r: Result<int, E>)
    ensures Shift(0, r) == r
  {
  }

  /** A step that adds to the running count what the element alone gives. */
  ghost predicate Adds<X(!new), E>(step: (int, X) -> Result<int, E>)
  {
    forall n: int, x: X :: step(n, x) == Shift(n, step(0, x))
  }

  lemma {:induction false} FoldShift<X(!new), E>(step: (int, X) -> Result<int, E>, n: int, xs: seq<X>, k: nat)
    requires k <= |xs| && Adds(step)
    ensures Fold(step, n, xs, k) == Shift(n, Fold(step, 0, xs, k))
  {
    if k > 0 {
      FoldShift(step, n, xs, k - 1);
    }
  }

  /** A count over a concatenation is the sum of the counts of its parts. */
  lemma FoldSum<X(!new), E>(step: (int, X) -> Result<int, E>, a: seq<X>, b: seq<X>)
    requires Adds(step)
    requires Fold(step, 0, a, |a|).Ok? && Fold(step, 0, b, |b|).Ok?
    ensures Fold(step, 0, a + b, |a + b|) == Ok(Fold(step, 0, a, |a|).value + Fold(step, 0, b, |b|).value)
  {
    FoldConcat(step, 0, a, b, |b|);
    FoldShift(step, Fold(step, 0, a, |a|).value, b, |b|);
  }

  /** The step of a count that adds, to the running count, what `f` gives
      for the element alone. */
  function AddEach<X, E>(f: X -> Result<int, E>): (int, X) -> Result<int, E>
  {
    (n, x) => Shift(n, f(x))
  }

  lemma AddEachAdds<X(!new), E>(f: X -> Result<int, E>)
    ensures Adds(AddEach(f))
  {
    forall n: int, x: X ensures AddEach(f)(n, x) == Shift(n, AddEach(f)(0, x)) {
      ShiftZero(f(x));
    }
  }

  /** Such a count over a concatenation is the sum of the counts of its parts. */
  lemma FoldSumEach<X(!new), E>(f: X -> Result<int, E>, a: seq<X>, b: seq<X>)
    requires Fold(AddEach(f), 0, a, |a|).Ok? && Fold(AddEach(f), 0, b, |b|).Ok?
    ensures Fold(AddEach(f), 0, a + b, |a + b|)
              == Ok(Fold(AddEach(f), 0, a, |a|).value + Fold(AddEach(f), 0, b, |b|).value)
  {
    AddEachAdds(f);
    FoldSum(AddEach(f), a, b);
  }

  /** The loop `for x in xs: s = step(s, x)`, leaving at the first error. */
  method FoldLoop<S, X, E>(step: (S, X) -> Result<S, E>, init: S, xs: seq<X>) returns (r: Result<S, E>)
    ensures r == Fold(step, init, xs, |xs|)
  {
    var s := init;
    var i := 0;
    while i < |xs|
      invariant 0 <= i <= |xs|
      invariant Fold(step, init, xs, i) == Ok(s)
    {
      var next := step(s, xs[i]);
      if next.Err? {
        FoldErrorSticky(step, init, xs, i + 1, |xs|);
        return next;
      }
      s := next.value;
      i := i + 1;
    }
    return Ok(s);
  }
}
