/** Real vectors: scalar products and linear combinations. */
module Vectors {

  type Vector = seq<real>

  function Abs(x: real): real { if x < 0.0 then -x else x }

  /** A product that proofs can keep closed, so that their arithmetic stays linear. */
  function Times(a: real, b: real): real { a * b }

  function Over(a: real, b: real): real
    requires b != 0.0
  {
    a / b
  }

  lemma TimesSum(f: real, a: real, b: real)
    ensures Times(f, a + b) == Times(f, a) + Times(f, b)
  {
  }

  lemma TimesCommutes(a: real, b: real)
    ensures Times(a, b) == Times(b, a)
  {
  }

  lemma TimesPlus(a: real, f: real, b: real, y: real)
    ensures Times(a + Times(f, b), y) == Times(a, y) + Times(f, Times(b, y))
  {
  }

  lemma TimesNegative(f: real, x: real)
    ensures Times(-f, x) == -Times(f, x)
  {
  }

  lemma TimesOne(x: real)
    ensures Times(1.0, x) == x
  {
  }

  lemma Positive(a: real, b: real)
    requires a > 0.0 && b > 0.0
    ensures Times(a, b) > 0.0
  {
  }

  lemma OneMore(n: nat, x: real)
    ensures Times((n + 1) as real, x) == Times(n as real, x) + x
  {
    assert (n + 1) as real == n as real + 1.0;
    TimesSum(x, n as real, 1.0);
    TimesCommutes(x, n as real);
    TimesCommutes(x, n as real + 1.0);
  }

  function Total(v: Vector): real {
    if v == [] then 0.0 else Total(v[..|v| - 1]) + v[|v| - 1]
  }

  function Dot(u: Vector, v: Vector): real
    requires |u| == |v|
  {
    if u == [] then 0.0 else Dot(u[..|u| - 1], v[..|v| - 1]) + Times(u[|u| - 1], v[|v| - 1])
  }

  /** u + f v */
  function Plus(u: Vector, f: real, v: Vector): (r: Vector)
    requires |u| == |v|
    ensures |r| == |u| && forall i :: 0 <= i < |u| ==> r[i] == u[i] + Times(f, v[i])
  {
    seq(|u|, i requires 0 <= i < |u| => u[i] + Times(f, v[i]))
  }

  function Zero(n: nat): (r: Vector)
    ensures |r| == n && forall i :: 0 <= i < n ==> r[i] == 0.0
  {
    seq(n, _ => 0.0)
  }

  lemma PlusInit(u: Vector, f: real, v: Vector)
    requires |u| == |v| && u != []
    ensures Plus(u, f, v)[..|u| - 1] == Plus(u[..|u| - 1], f, v[..|u| - 1])
  {
    hide Times;
    var n := |u| - 1;
    var left, right := Plus(u, f, v)[..n], Plus(u[..n], f, v[..n]);
    assert forall i :: 0 <= i < n ==> left[i] == right[i];
  }

  lemma {:induction false} DotPlus(u: Vector, f: real, v: Vector, y: Vector)
    requires |u| == |v| == |y|
    ensures Dot(Plus(u, f, v), y) == Dot(u, y) + Times(f, Dot(v, y))
  {
    if u == [] {
    } else {
      hide Times;
      var n := |u| - 1;
      DotPlus(u[..n], f, v[..n], y[..n]);
      PlusInit(u, f, v);
      TimesPlus(u[n], f, v[n], y[n]);
      TimesSum(f, Dot(v[..n], y[..n]), Times(v[n], y[n]));
    }
  }

  lemma {:induction false} DotSymmetric(u: Vector, v: Vector)
    requires |u| == |v|
    ensures Dot(u, v) == Dot(v, u)
  {
    hide Times;
    if u != [] {
      DotSymmetric(u[..|u| - 1], v[..|v| - 1]);
      TimesCommutes(u[|u| - 1], v[|v| - 1]);
    }
  }

  lemma {:induction false} DotZero(u: Vector, y: Vector)
    requires |u| == |y| && forall i :: 0 <= i < |u| ==> u[i] == 0.0
    ensures Dot(u, y) == 0.0
  {
    if u != [] {
      DotZero(u[..|u| - 1], y[..|y| - 1]);
    }
  }

  lemma {:induction false} DotUpdate(u: Vector, k: nat, x: real, y: Vector)
    requires k < |u| == |y|
    ensures Dot(u[k := x], y) == Dot(u, y) + Times(x, y[k]) - Times(u[k], y[k])
  {
    hide Times;
    var n := |u| - 1;
    if k < n {
      DotUpdate(u[..n], k, x, y[..n]);
      assert u[k := x][..n] == u[..n][k := x];
    } else {
      assert u[k := x][..n] == u[..n];
    }
  }

  lemma {:induction false} SquareNonnegative(u: Vector)
    ensures Dot(u, u) >= 0.0
  {
    if u != [] {
      SquareNonnegative(u[..|u| - 1]);
      var x := u[|u| - 1];
      assert Times(x, x) >= 0.0;
    }
  }

  lemma DotLast(u: Vector, v: Vector)
    requires |u| == |v| && u != []
    ensures Dot(u, v) == Dot(u[..|u| - 1], v[..|v| - 1]) + Times(u[|u| - 1], v[|v| - 1])
  {
  }

  lemma DotPrefix(u: Vector, v: Vector, j: nat)
    requires |u| == |v| && j < |u|
    ensures Dot(u[..j + 1], v[..j + 1]) == Dot(u[..j], v[..j]) + Times(u[j], v[j])
  {
    assert u[..j + 1][..j] == u[..j] && v[..j + 1][..j] == v[..j];
  }

  predicate Indexes(p: seq<nat>, n: nat) {
    forall j :: 0 <= j < |p| ==> p[j] < n
  }

  function Through(v: Vector, p: seq<nat>): (r: Vector)
    requires Indexes(p, |v|)
    ensures |r| == |p| && forall j :: 0 <= j < |p| ==> r[j] == v[p[j]]
  {
    seq(|p|, j requires 0 <= j < |p| => v[p[j]])
  }

  // ------------------------------------------------------------------- matrices by rows

  type Matrix = seq<Vector>

  predicate Shaped(d: Matrix, q: nat) {
    forall r :: 0 <= r < |d| ==> |d[r]| == q
  }

  function Column(d: Matrix, q: nat, a: nat): (c: Vector)
    requires Shaped(d, q) && a < q
    ensures |c| == |d| && forall r :: 0 <= r < |d| ==> c[r] == d[r][a]
  {
    seq(|d|, r requires 0 <= r < |d| => d[r][a])
  }

  /** d times a vector of weights for its columns. */
  function Fit(d: Matrix, q: nat, beta: Vector): (f: Vector)
    requires Shaped(d, q) && |beta| == q
    ensures |f| == |d| && forall r :: 0 <= r < |d| ==> f[r] == Dot(d[r], beta)
  {
    seq(|d|, r requires 0 <= r < |d| => Dot(d[r], beta))
  }

  /** The weighted sum of the rows. */
  function Combine(d: Matrix, q: nat, w: Vector): (c: Vector)
    requires Shaped(d, q) && |w| == |d|
    ensures |c| == q
    decreases |d|
  {
    if d == [] then Zero(q)
    else
      var n := |d| - 1;
      Plus(Combine(d[..n], q, w[..n]), w[n], d[n])
  }

  /** Weighting the rows and then the columns, or the columns and then the rows. */
  lemma {:induction false} DotCombine(d: Matrix, q: nat, w: Vector, beta: Vector)
    requires Shaped(d, q) && |w| == |d| && |beta| == q
    ensures Dot(Combine(d, q, w), beta) == Dot(w, Fit(d, q, beta))
    decreases |d|
  {
    hide Times;
    if d == [] {
      DotZero(Zero(q), beta);
    } else {
      var n := |d| - 1;
      var rest, fit := Combine(d[..n], q, w[..n]), Fit(d, q, beta);
      DotLast(w, fit);
      assert fit[..n] == Fit(d[..n], q, beta);
      DotCombine(d[..n], q, w[..n], beta);
      DotPlus(rest, w[n], d[n], beta);
    }
  }

  lemma {:induction false} CombineAt(d: Matrix, q: nat, w: Vector, a: nat)
    requires Shaped(d, q) && |w| == |d| && a < q
    ensures Combine(d, q, w)[a] == Dot(w, Column(d, q, a))
    decreases |d|
  {
    hide Times;
    if d != [] {
      var n := |d| - 1;
      CombineAt(d[..n], q, w[..n], a);
      assert Column(d, q, a)[..n] == Column(d[..n], q, a);
    }
  }
}
