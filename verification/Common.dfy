/** Types and functions shared by the models of several components. */
module Common {

  datatype Option<+T> = None | Some(value: T)

  function One(b: bool): nat {
    if b then 1 else 0
  }

  function Pow2(n: nat): (p: nat)
    ensures p > 0
  {
    if n == 0 then 1 else 2 * Pow2(n - 1)
  }

  /** `xs` is `ys` with some elements left out. */
  predicate IsSubsequence<T(==)>(xs: seq<T>, ys: seq<T>) {
    xs == []
    || (ys != []
        && (IsSubsequence(xs, ys[..|ys| - 1])
            || (xs[|xs| - 1] == ys[|ys| - 1] && IsSubsequence(xs[..|xs| - 1], ys[..|ys| - 1]))))
  }

  lemma SubsequencePush<T>(xs: seq<T>, ys: seq<T>, y: T)
    requires IsSubsequence(xs, ys)
    ensures IsSubsequence(xs, ys + [y]) && IsSubsequence(xs + [y], ys + [y])
  {
    assert (ys + [y])[..|ys|] == ys && (xs + [y])[..|xs|] == xs;
  }

  // ----- whole numbers among the reals -----

  lemma Product(a: int, b: int)
    ensures (a * b) as real == a as real * b as real
  {
  }

  /** A product the solver is to take as it stands. */
  function Times(x: real, y: real): real {
    x * y
  }

  lemma TimesOfInts(a: int, b: int)
    ensures (a * b) as real == Times(a as real, b as real)
  {
  }

  lemma TimesIs(x: real, y: real)
    ensures Times(x, y) == x * y
  {
  }

  lemma TimesOfSum(f: real, d: real, w: real)
    ensures Times(f + d, w) == Times(f, w) + Times(d, w)
  {
  }

  lemma TimesOfFraction(d: real, w: real)
    requires 0.0 <= d < 1.0 && w > 0.0
    ensures 0.0 <= Times(d, w) < w
  {
  }

  lemma FloorScaled(q: real, w: int, x: int)
    requires w > 0 && q * w as real == x as real
    ensures q.Floor * w <= x < (q.Floor + 1) * w
  {
    hide Times;
    var f := q.Floor;
    var d := q - f as real;
    TimesIs(q, w as real);
    assert q == f as real + d;
    TimesOfSum(f as real, d, w as real);
    TimesOfFraction(d, w as real);
    TimesOfInts(f, w);
    Apart(f * w, w, x, Times(d, w as real), Times(f as real, w as real));
    OneMore(f, w);
  }

  lemma OneMore(f: int, w: int)
    ensures (f + 1) * w == f * w + w
  {
  }

  lemma Apart(p: int, w: int, x: int, rest: real, y: real)
    requires p as real == y && x as real == y + rest && 0.0 <= rest < w as real
    ensures p <= x < p + w
  {
  }
}
