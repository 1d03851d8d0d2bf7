/** Fast splines: the second-difference penalty, its tensor product, and the normalised basis rows. */
module Spline {
  import opened Arith
  import opened Vectors

  /** The quadratic form of a square matrix. */
  function Quad(m: Matrix, c: Vector): real
    requires |m| == |c| && Shaped(m, |c|)
  {
    Dot(c, Fit(m, |c|, c))
  }

  function AddCell(m: Matrix, i: nat, j: nat, d: real): (r: Matrix)
    requires i < |m| && j < |m[i]|
    ensures |r| == |m| && forall q :: Shaped(m, q) ==> Shaped(r, q)
  {
    m[i := m[i][j := m[i][j] + d]]
  }

  lemma TimesDifference(x: real, d: real, y: real)
    ensures Times(x + d, y) - Times(x, y) == Times(d, y)
  {
  }

  lemma DotChange(c: Vector, f: Vector, i: nat, d: real)
    requires |c| == |f| && i < |c|
    ensures Dot(c, f[i := f[i] + d]) == Dot(c, f) + Times(d, c[i])
  {
    DotSymmetric(c, f);
    DotUpdate(f, i, f[i] + d, c);
    DotSymmetric(c, f[i := f[i] + d]);
    TimesDifference(f[i], d, c[i]);
  }

  /** Adding to one cell adds the product of the two coefficients it couples. */
  lemma QuadCell(m: Matrix, c: Vector, i: nat, j: nat, d: real)
    requires |m| == |c| && Shaped(m, |c|) && i < |c| && j < |c|
    ensures Quad(AddCell(m, i, j, d), c) == Quad(m, c) + Times(Times(d, c[j]), c[i])
  {
    hide Times, Dot;
    var r, f := AddCell(m, i, j, d), Fit(m, |c|, c);
    DotUpdate(m[i], j, m[i][j] + d, c);
    TimesDifference(m[i][j], d, c[j]);
    assert Fit(r, |c|, c) == f[i := f[i] + Times(d, c[j])];
    DotChange(c, f, i, Times(d, c[j]));
  }

  // --------------------------------------------------------- second differences

  function Difference(c: Vector, i: nat): real
    requires i + 2 < |c|
  {
    c[i] - 2.0 * c[i + 1] + c[i + 2]
  }

  /** The sum of the first n squared second differences. */
  function Roughness(c: Vector, n: nat): real
    requires n == 0 || n + 1 < |c|
  {
    if n == 0 then 0.0 else Roughness(c, n - 1) + Times(Difference(c, n - 1), Difference(c, n - 1))
  }

  /** What the penalty measures: squared second differences, or plain squares below three coefficients. */
  function Penalty(c: Vector): real {
    if |c| < 3 then Dot(c, c) else Roughness(c, |c| - 2)
  }

  function Weight(a: nat): real { if a == 1 then -2.0 else 1.0 }

  /** The first a terms of the second difference at row. */
  function Part(c: Vector, row: nat, a: nat): real
    requires row + a <= |c|
  {
    if a == 0 then 0.0 else Part(c, row, a - 1) + Times(Weight(a - 1), c[row + a - 1])
  }

  lemma PartAll(c: Vector, row: nat)
    requires row + 2 < |c|
    ensures Part(c, row, 3) == Difference(c, row)
  {
    assert Part(c, row, 1) == c[row] && Part(c, row, 2) == c[row] - 2.0 * c[row + 1];
  }

  function Target(c: Vector, row: nat, a: nat, b: nat): real
    requires row + 2 < |c| && a <= 3 && b <= 3
  {
    Roughness(c, row) + Times(Part(c, row, a), Difference(c, row))
    + (if a < 3 then Times(Times(Weight(a), c[row + a]), Part(c, row, b)) else 0.0)
  }

  ghost predicate FormSoFar(m: Matrix, n: nat, row: nat, a: nat, b: nat)
    requires row + 2 < n && a <= 3 && b <= 3
  {
    |m| == n && Shaped(m, n) && forall c: Vector :: |c| == n ==> Quad(m, c) == Target(c, row, a, b)
  }

  lemma Rearrange(v: real, w: real, x: real, y: real)
    ensures Times(Times(Times(v, w), y), x) == Times(Times(v, x), Times(w, y))
  {
    assert v * w * y * x == (v * x) * (w * y);
  }

  lemma FormCellAt(m: Matrix, c: Vector, row: nat, a: nat, b: nat, r: Matrix)
    requires row + 2 < |c| == |m| && a < 3 && b < 3 && Shaped(m, |c|) && Quad(m, c) == Target(c, row, a, b)
    requires r == AddCell(m, row + a, row + b, Times(Weight(a), Weight(b)))
    ensures |r| == |c| && Shaped(r, |c|) && Quad(r, c) == Target(c, row, a, b + 1)
  {
    hide Times, Weight, Quad, Difference, Roughness, AddCell;
    QuadCell(m, c, row + a, row + b, Times(Weight(a), Weight(b)));
    Rearrange(Weight(a), Weight(b), c[row + a], c[row + b]);
    TimesSum(Times(Weight(a), c[row + a]), Part(c, row, b), Times(Weight(b), c[row + b]));
  }

  lemma FormCell(m: Matrix, n: nat, row: nat, a: nat, b: nat, r: Matrix)
    requires row + 2 < n && a < 3 && b < 3 && |m| == n && Shaped(m, n)
    requires r == AddCell(m, row + a, row + b, Times(Weight(a), Weight(b)))
    requires FormSoFar(m, n, row, a, b)
    ensures FormSoFar(r, n, row, a, b + 1)
  {
    hide Times, Weight, Quad, Target, AddCell;
    forall c: Vector | |c| == n
      ensures Quad(r, c) == Target(c, row, a, b + 1)
    {
      FormCellAt(m, c, row, a, b, r);
    }
  }

  lemma FormRow(m: Matrix, n: nat, row: nat, a: nat)
    requires row + 2 < n && a < 3 && FormSoFar(m, n, row, a, 3)
    ensures FormSoFar(m, n, row, a + 1, 0)
  {
    hide Quad, Times, Weight, Difference, Roughness;
    forall c: Vector | |c| == n
      ensures Quad(m, c) == Target(c, row, a + 1, 0)
    {
      PartAll(c, row);
      var x := Times(Weight(a), c[row + a]);
      TimesSum(Difference(c, row), Part(c, row, a), x);
      TimesCommutes(Difference(c, row), Part(c, row, a + 1));
      TimesCommutes(Difference(c, row), Part(c, row, a));
      TimesCommutes(Difference(c, row), x);
      if a + 1 < 3 {
        TimesNothing(Times(Weight(a + 1), c[row + a + 1]));
      }
    }
  }

  lemma TimesNothing(x: real)
    ensures Times(x, 0.0) == 0.0 && Times(0.0, x) == 0.0
  {
  }

  ghost predicate RowsDone(m: Matrix, n: nat, row: nat) {
    |m| == n && Shaped(m, n) && row + 2 <= n && forall c: Vector :: |c| == n ==> Quad(m, c) == Roughness(c, row)
  }

  lemma RowStarts(m: Matrix, n: nat, row: nat)
    requires row + 2 < n && RowsDone(m, n, row)
    ensures FormSoFar(m, n, row, 0, 0)
  {
    hide Quad, Roughness, Difference, Times;
    forall c: Vector | |c| == n
      ensures Quad(m, c) == Target(c, row, 0, 0)
    {
      TimesNothing(Difference(c, row));
      TimesNothing(Times(Weight(0), c[row]));
    }
  }

  lemma RowEnds(m: Matrix, n: nat, row: nat)
    requires row + 2 < n && FormSoFar(m, n, row, 3, 0)
    ensures RowsDone(m, n, row + 1)
  {
    hide Quad, Difference, Times;
    forall c: Vector | |c| == n
      ensures Quad(m, c) == Roughness(c, row + 1)
    {
      PartAll(c, row);
    }
  }

  function Zeros(n: nat): (m: Matrix)
    ensures |m| == n && Shaped(m, n) && forall i :: 0 <= i < n ==> m[i] == Zero(n)
  {
    seq(n, _ => Zero(n))
  }

  lemma QuadZeros(n: nat)
    ensures forall c: Vector :: |c| == n ==> Quad(Zeros(n), c) == 0.0
  {
    forall c: Vector | |c| == n
      ensures Quad(Zeros(n), c) == 0.0
    {
      var f := Fit(Zeros(n), n, c);
      forall i | 0 <= i < n
        ensures f[i] == 0.0
      {
        DotZero(Zero(n), c);
      }
      DotSymmetric(c, f);
      DotZero(f, c);
    }
  }

  /** For every coefficient vector the form is its penalty. */
  ghost predicate Penalizes(m: Matrix, n: nat) {
    |m| == n && Shaped(m, n) && forall c: Vector :: |c| == n ==> Quad(m, c) == Penalty(c)
  }

  method SecondDifferencePenalty(n: nat) returns (m: Matrix)
    ensures Penalizes(m, n)
  {
    hide RowsDone, FormSoFar, Penalizes, Times, Weight, Zeros;
    if n < 3 {
      m := IdentityPenalty(n);
      return;
    }
    m := Zeros(n);
    ZerosDone(n);
    for row := 0 to n - 2
      invariant RowsDone(m, n, row)
    {
      RowStarts(m, n, row);
      for a := 0 to 3
        invariant FormSoFar(m, n, row, a, 0)
      {
        for b := 0 to 3
          invariant FormSoFar(m, n, row, a, b)
        {
          FormShape(m, n, row, a, b);
          var r := AddCell(m, row + a, row + b, Times(Weight(a), Weight(b)));
          FormCell(m, n, row, a, b, r);
          m := r;
        }
        FormRow(m, n, row, a);
      }
      RowEnds(m, n, row);
    }
    RowsPenalize(m, n);
  }

  lemma FormShape(m: Matrix, n: nat, row: nat, a: nat, b: nat)
    requires row + 2 < n && a <= 3 && b <= 3 && FormSoFar(m, n, row, a, b)
    ensures |m| == n && Shaped(m, n)
  {
  }

  lemma RowsPenalize(m: Matrix, n: nat)
    requires n >= 3 && RowsDone(m, n, n - 2)
    ensures Penalizes(m, n)
  {
    hide Quad, Roughness;
  }

  lemma ZerosDone(n: nat)
    requires n >= 3
    ensures RowsDone(Zeros(n), n, 0)
  {
    hide Quad;
    QuadZeros(n);
  }

  ghost predicate Diagonal(m: Matrix, n: nat, k: nat) {
    |m| == n && Shaped(m, n) && k <= n && forall c: Vector :: |c| == n ==> Quad(m, c) == Dot(c[..k], c[..k])
  }

  lemma DiagonalNext(m: Matrix, n: nat, k: nat, r: Matrix)
    requires |m| == n && Shaped(m, n) && k < n && r == AddCell(m, k, k, 1.0)
    requires Diagonal(m, n, k)
    ensures Diagonal(r, n, k + 1)
  {
    hide Quad, Dot, AddCell, Times;
    forall c: Vector | |c| == n
      ensures Quad(r, c) == Dot(c[..k + 1], c[..k + 1])
    {
      QuadCell(m, c, k, k, 1.0);
      TimesOne(c[k]);
      DotPrefix(c, c, k);
    }
  }

  lemma DiagonalStart(n: nat)
    ensures Diagonal(Zeros(n), n, 0)
  {
    hide Quad;
    QuadZeros(n);
  }

  lemma DiagonalPenalizes(m: Matrix, n: nat)
    requires n < 3 && Diagonal(m, n, n)
    ensures Penalizes(m, n)
  {
    hide Quad, Dot;
    forall c: Vector | |c| == n
      ensures Quad(m, c) == Penalty(c)
    {
      assert c[..n] == c;
    }
  }

  method IdentityPenalty(n: nat) returns (m: Matrix)
    requires n < 3
    ensures Penalizes(m, n)
  {
    hide Diagonal, Penalizes, Zeros;
    m := Zeros(n);
    DiagonalStart(n);
    for k := 0 to n
      invariant |m| == n && Shaped(m, n) && Diagonal(m, n, k)
    {
      var r := AddCell(m, k, k, 1.0);
      DiagonalNext(m, n, k, r);
      m := r;
    }
    DiagonalPenalizes(m, n);
  }

  predicate Affine(c: Vector)
    requires |c| >= 2
  {
    forall i :: 0 <= i < |c| ==> c[i] == c[0] + Times(i as real, c[1] - c[0])
  }

  lemma {:induction false} RoughnessZero(c: Vector, n: nat)
    requires n == 0 || n + 1 < |c|
    ensures Roughness(c, n) >= 0.0
    ensures Roughness(c, n) == 0.0 <==> forall i :: 0 <= i < n ==> Difference(c, i) == 0.0
  {
    if n > 0 {
      RoughnessZero(c, n - 1);
      SquareZero(Difference(c, n - 1));
    }
  }

  lemma SquareZero(x: real)
    ensures Times(x, x) >= 0.0 && (Times(x, x) == 0.0 <==> x == 0.0)
  {
    if x > 0.0 {
      Positive(x, x);
    } else if x < 0.0 {
      Positive(-x, -x);
      TimesNegative(x, -x);
      TimesCommutes(x, -x);
      TimesNegative(x, x);
    }
  }

  lemma {:induction false} Straight(c: Vector, i: nat)
    requires 2 <= |c| && i < |c| && forall k :: 0 <= k < |c| - 2 ==> Difference(c, k) == 0.0
    ensures c[i] == c[0] + Times(i as real, c[1] - c[0])
  {
    var step := c[1] - c[0];
    if i >= 2 {
      hide Times;
      Straight(c, i - 1);
      Straight(c, i - 2);
      assert Difference(c, i - 2) == 0.0;
      OneMore(i - 1, step);
      OneMore(i - 2, step);
    }
  }

  /** The penalty is never negative, and for three coefficients or more it vanishes exactly on affine
      sequences. */
  lemma PenaltyMeaning(c: Vector)
    ensures Penalty(c) >= 0.0
    ensures |c| >= 3 ==> (Penalty(c) == 0.0 <==> Affine(c))
  {
    if |c| < 3 {
      SquareNonnegative(c);
    } else {
      RoughnessZero(c, |c| - 2);
      if Penalty(c) == 0.0 {
        forall i | 0 <= i < |c|
          ensures c[i] == c[0] + Times(i as real, c[1] - c[0])
        {
          Straight(c, i);
        }
      }
      if Affine(c) {
        forall i | 0 <= i < |c| - 2
          ensures Difference(c, i) == 0.0
        {
          hide Times;
          OneMore(i, c[1] - c[0]);
          OneMore(i + 1, c[1] - c[0]);
          assert c[i + 1] == c[0] + Times((i + 1) as real, c[1] - c[0]);
          assert c[i + 2] == c[0] + Times((i + 2) as real, c[1] - c[0]);
        }
      }
    }
  }

  lemma {:induction false} RoughnessIs(c: Vector, d: Vector, n: nat)
    requires n <= |d| && |d| + 2 == |c| && forall i :: 0 <= i < |d| ==> d[i] == c[i] - 2.0 * c[i + 1] + c[i + 2]
    ensures Roughness(c, n) == Dot(d[..n], d[..n])
  {
    hide Times;
    if n > 0 {
      RoughnessIs(c, d, n - 1);
      assert Difference(c, n - 1) == d[n - 1];
      hide Dot, Difference;
      DotPrefix(d, d, n - 1);
    }
  }

  /** Its size: the squared length of the vector of second differences. */
  lemma PenaltyIs(c: Vector, d: Vector)
    requires |d| + 2 == |c| && d != [] && forall i :: 0 <= i < |d| ==> d[i] == c[i] - 2.0 * c[i + 1] + c[i + 2]
    ensures Penalty(c) == Dot(d, d)
  {
    RoughnessIs(c, d, |d|);
    assert d[..|d|] == d;
  }

  // ------------------------------------------------------------- tensor products

  /** The form of a block on one line of coefficients, up to row a1 and, in that row, column a2. */
  function PrefixQuad(block: Matrix, line: Vector, a1: nat, a2: nat): real
    requires |block| == |line| && Shaped(block, |line|) && a1 <= |line| && a2 <= |line|
  {
    Dot(line[..a1], Fit(block, |line|, line)[..a1])
    + (if a1 < |line| then Times(line[a1], Dot(block[a1][..a2], line[..a2])) else 0.0)
  }

  lemma PrefixStep(block: Matrix, line: Vector, a1: nat, a2: nat)
    requires |block| == |line| && Shaped(block, |line|) && a1 < |line| && a2 < |line|
    ensures PrefixQuad(block, line, a1, a2 + 1)
            == PrefixQuad(block, line, a1, a2) + Times(line[a1], Times(block[a1][a2], line[a2]))
  {
    hide Times, Dot;
    DotPrefix(block[a1], line, a2);
    TimesSum(line[a1], Dot(block[a1][..a2], line[..a2]), Times(block[a1][a2], line[a2]));
  }

  lemma PrefixRow(block: Matrix, line: Vector, a1: nat)
    requires |block| == |line| && Shaped(block, |line|) && a1 < |line|
    ensures PrefixQuad(block, line, a1, |line|) == PrefixQuad(block, line, a1 + 1, 0)
  {
    DotPrefix(line, Fit(block, |line|, line), a1);
    assert block[a1][..|line|] == block[a1] && line[..|line|] == line;
    if a1 + 1 < |line| {
      TimesNothing(line[a1 + 1]);
    }
  }

  lemma PrefixEnds(block: Matrix, line: Vector)
    requires |block| == |line| && Shaped(block, |line|)
    ensures PrefixQuad(block, line, 0, 0) == 0.0 && PrefixQuad(block, line, |line|, 0) == Quad(block, line)
  {
    if |line| > 0 {
      TimesNothing(line[0]);
    }
    var f := Fit(block, |line|, line);
    assert line[..|line|] == line && f[..|line|] == f;
  }

  /** Where each line's coefficients stand among all of them. */
  predicate Placed(pos: seq<seq<nat>>, n: nat, p: nat) {
    forall k :: 0 <= k < |pos| ==> |pos[k]| == n && Indexes(pos[k], p)
  }

  /** The forms of the first m lines, those before b being one column ahead. */
  function Along(block: Matrix, c: Vector, pos: seq<seq<nat>>, m: nat, a1: nat, a2: nat, b: nat): real
    requires Shaped(block, |block|) && Placed(pos, |block|, |c|) && m <= |pos|
    requires a1 <= |block| && a2 <= |block| && (b > 0 ==> a2 < |block|)
  {
    if m == 0 then 0.0
    else Along(block, c, pos, m - 1, a1, a2, b)
         + PrefixQuad(block, Through(c, pos[m - 1]), a1, if m - 1 < b then a2 + 1 else a2)
  }

  function Line(c: Vector, pos: seq<seq<nat>>, k: nat): Vector
    requires k < |pos| && Indexes(pos[k], |c|)
  {
    Through(c, pos[k])
  }

  lemma {:induction false} AlongStep(block: Matrix, c: Vector, pos: seq<seq<nat>>, m: nat, a1: nat, a2: nat, b: nat)
    requires Shaped(block, |block|) && Placed(pos, |block|, |c|) && m <= |pos|
    requires a1 < |block| && a2 < |block| && b < |pos|
    ensures Along(block, c, pos, m, a1, a2, b + 1)
            == Along(block, c, pos, m, a1, a2, b)
               + (if b < m then Times(Line(c, pos, b)[a1], Times(block[a1][a2], Line(c, pos, b)[a2])) else 0.0)
  {
    hide Times, PrefixQuad;
    if m > 0 {
      AlongStep(block, c, pos, m - 1, a1, a2, b);
      if m - 1 == b {
        PrefixStep(block, Through(c, pos[b]), a1, a2);
      }
    }
  }

  /** When every line has moved on, all are in the next column; after the last column, in the next row. */
  lemma {:induction false} AlongTurn(block: Matrix, c: Vector, pos: seq<seq<nat>>, m: nat, a1: nat, a2: nat)
    requires Shaped(block, |block|) && Placed(pos, |block|, |c|) && m <= |pos| && a1 < |block| && a2 < |block|
    ensures Along(block, c, pos, m, a1, a2, m) == Along(block, c, pos, m, a1, a2 + 1, 0)
    decreases m
  {
    AlongShift(block, c, pos, m, m, a1, a2);
  }

  lemma {:induction false} AlongShift(block: Matrix, c: Vector, pos: seq<seq<nat>>, m: nat, b: nat, a1: nat, a2: nat)
    requires Shaped(block, |block|) && Placed(pos, |block|, |c|) && m <= |pos| && m <= b && a1 < |block| && a2 < |block|
    ensures Along(block, c, pos, m, a1, a2, b) == Along(block, c, pos, m, a1, a2 + 1, 0)
  {
    hide PrefixQuad;
    if m > 0 {
      AlongShift(block, c, pos, m - 1, b, a1, a2);
    }
  }

  lemma {:induction false} AlongRow(block: Matrix, c: Vector, pos: seq<seq<nat>>, m: nat, a1: nat)
    requires Shaped(block, |block|) && Placed(pos, |block|, |c|) && m <= |pos| && a1 < |block|
    ensures Along(block, c, pos, m, a1, |block|, 0) == Along(block, c, pos, m, a1 + 1, 0, 0)
  {
    hide PrefixQuad;
    if m > 0 {
      AlongRow(block, c, pos, m - 1, a1);
      PrefixRow(block, Through(c, pos[m - 1]), a1);
    }
  }

  /** The sum of the block's forms over the first m lines. */
  function Forms(block: Matrix, c: Vector, pos: seq<seq<nat>>, m: nat): real
    requires Shaped(block, |block|) && Placed(pos, |block|, |c|) && m <= |pos|
  {
    if m == 0 then 0.0 else Forms(block, c, pos, m - 1) + Quad(block, Through(c, pos[m - 1]))
  }

  lemma {:induction false} AlongEnds(block: Matrix, c: Vector, pos: seq<seq<nat>>, m: nat)
    requires Shaped(block, |block|) && Placed(pos, |block|, |c|) && m <= |pos|
    ensures Along(block, c, pos, m, 0, 0, 0) == 0.0
    ensures Along(block, c, pos, m, |block|, 0, 0) == Forms(block, c, pos, m)
  {
    hide PrefixQuad, Quad;
    if m > 0 {
      AlongEnds(block, c, pos, m - 1);
      PrefixEnds(block, Through(c, pos[m - 1]));
    }
  }

  ghost predicate AddedAt(m0: Matrix, m: Matrix, c: Vector, block: Matrix, pos: seq<seq<nat>>, a1: nat, a2: nat, b: nat)
    requires Shaped(block, |block|) && Placed(pos, |block|, |c|)
    requires a1 <= |block| && a2 <= |block| && (b > 0 ==> a2 < |block|)
    requires |m0| == |c| == |m| && Shaped(m0, |c|) && Shaped(m, |c|)
  {
    Quad(m, c) == Quad(m0, c) + Along(block, c, pos, |pos|, a1, a2, b)
  }

  ghost predicate Adding(m0: Matrix, m: Matrix, p: nat, block: Matrix, pos: seq<seq<nat>>, a1: nat, a2: nat, b: nat)
    requires Shaped(block, |block|) && Placed(pos, |block|, p)
    requires a1 <= |block| && a2 <= |block| && (b > 0 ==> a2 < |block|)
    requires |m0| == p == |m| && Shaped(m0, p) && Shaped(m, p)
  {
    forall c: Vector :: |c| == p ==> AddedAt(m0, m, c, block, pos, a1, a2, b)
  }

  lemma AddedStep(m0: Matrix, m: Matrix, c: Vector, block: Matrix, pos: seq<seq<nat>>, a1: nat, a2: nat, b: nat, r: Matrix)
    requires Shaped(block, |block|) && Placed(pos, |block|, |c|) && a1 < |block| && a2 < |block| && b < |pos|
    requires |m0| == |c| == |m| && Shaped(m0, |c|) && Shaped(m, |c|)
    requires r == AddCell(m, pos[b][a1], pos[b][a2], block[a1][a2])
    requires AddedAt(m0, m, c, block, pos, a1, a2, b)
    ensures AddedAt(m0, r, c, block, pos, a1, a2, b + 1)
  {
    hide Times, Quad, Along, AddCell;
    QuadCell(m, c, pos[b][a1], pos[b][a2], block[a1][a2]);
    AlongStep(block, c, pos, |pos|, a1, a2, b);
    TimesCommutes(c[pos[b][a1]], Times(block[a1][a2], c[pos[b][a2]]));
  }

  lemma AddingStep(m0: Matrix, m: Matrix, p: nat, block: Matrix, pos: seq<seq<nat>>, a1: nat, a2: nat, b: nat, r: Matrix)
    requires Shaped(block, |block|) && Placed(pos, |block|, p) && a1 < |block| && a2 < |block| && b < |pos|
    requires |m0| == p == |m| && Shaped(m0, p) && Shaped(m, p)
    requires r == AddCell(m, pos[b][a1], pos[b][a2], block[a1][a2])
    requires Adding(m0, m, p, block, pos, a1, a2, b)
    ensures Adding(m0, r, p, block, pos, a1, a2, b + 1)
  {
    hide AddedAt, AddCell;
    forall c: Vector | |c| == p
      ensures AddedAt(m0, r, c, block, pos, a1, a2, b + 1)
    {
      assert AddedAt(m0, m, c, block, pos, a1, a2, b);
      AddedStep(m0, m, c, block, pos, a1, a2, b, r);
    }
  }

  lemma AddingTurn(m0: Matrix, m: Matrix, p: nat, block: Matrix, pos: seq<seq<nat>>, a1: nat, a2: nat)
    requires Shaped(block, |block|) && Placed(pos, |block|, p) && a1 < |block| && a2 < |block|
    requires |m0| == p == |m| && Shaped(m0, p) && Shaped(m, p)
    requires Adding(m0, m, p, block, pos, a1, a2, |pos|)
    ensures Adding(m0, m, p, block, pos, a1, a2 + 1, 0)
  {
    hide Quad, Along;
    forall c: Vector | |c| == p
      ensures AddedAt(m0, m, c, block, pos, a1, a2 + 1, 0)
    {
      assert AddedAt(m0, m, c, block, pos, a1, a2, |pos|);
      AlongTurn(block, c, pos, |pos|, a1, a2);
    }
  }

  lemma AddingRow(m0: Matrix, m: Matrix, p: nat, block: Matrix, pos: seq<seq<nat>>, a1: nat)
    requires Shaped(block, |block|) && Placed(pos, |block|, p) && a1 < |block|
    requires |m0| == p == |m| && Shaped(m0, p) && Shaped(m, p)
    requires Adding(m0, m, p, block, pos, a1, |block|, 0)
    ensures Adding(m0, m, p, block, pos, a1 + 1, 0, 0)
  {
    hide Quad, Along;
    forall c: Vector | |c| == p
      ensures AddedAt(m0, m, c, block, pos, a1 + 1, 0, 0)
    {
      assert AddedAt(m0, m, c, block, pos, a1, |block|, 0);
      AlongRow(block, c, pos, |pos|, a1);
    }
  }

  lemma AddingStarts(m0: Matrix, p: nat, block: Matrix, pos: seq<seq<nat>>)
    requires Shaped(block, |block|) && Placed(pos, |block|, p) && |m0| == p && Shaped(m0, p)
    ensures Adding(m0, m0, p, block, pos, 0, 0, 0)
  {
    hide Quad, Along;
    forall c: Vector | |c| == p
      ensures AddedAt(m0, m0, c, block, pos, 0, 0, 0)
    {
      AlongEnds(block, c, pos, |pos|);
    }
  }

  /** The form has grown by the block's form on every line. */
  ghost predicate Grown(m0: Matrix, m: Matrix, p: nat, block: Matrix, pos: seq<seq<nat>>) {
    && Shaped(block, |block|) && Placed(pos, |block|, p)
    && |m0| == p == |m| && Shaped(m0, p) && Shaped(m, p)
    && forall c: Vector :: |c| == p ==> GrownOn(m0, m, c, block, pos)
  }

  ghost predicate GrownOn(m0: Matrix, m: Matrix, c: Vector, block: Matrix, pos: seq<seq<nat>>)
    requires Shaped(block, |block|) && Placed(pos, |block|, |c|)
    requires |m0| == |c| == |m| && Shaped(m0, |c|) && Shaped(m, |c|)
  {
    Quad(m, c) == Quad(m0, c) + Forms(block, c, pos, |pos|)
  }

  lemma AddingEnds(m0: Matrix, m: Matrix, p: nat, block: Matrix, pos: seq<seq<nat>>)
    requires Shaped(block, |block|) && Placed(pos, |block|, p) && |m0| == p == |m| && Shaped(m0, p) && Shaped(m, p)
    requires Adding(m0, m, p, block, pos, |block|, 0, 0)
    ensures Grown(m0, m, p, block, pos)
  {
    hide Quad, Along, Forms;
    forall c: Vector | |c| == p
      ensures GrownOn(m0, m, c, block, pos)
    {
      assert AddedAt(m0, m, c, block, pos, |block|, 0, 0);
      AlongEnds(block, c, pos, |pos|);
    }
  }

  /** Adds a block's entries along every line, entry by entry. */
  method AddAlongLines(m0: Matrix, p: nat, block: Matrix, pos: seq<seq<nat>>) returns (m: Matrix)
    requires Shaped(block, |block|) && Placed(pos, |block|, p) && |m0| == p && Shaped(m0, p)
    ensures Grown(m0, m, p, block, pos)
  {
    hide Adding, Grown, AddCell;
    m := m0;
    AddingStarts(m0, p, block, pos);
    for a1 := 0 to |block|
      invariant |m| == p && Shaped(m, p) && Adding(m0, m, p, block, pos, a1, 0, 0)
    {
      for a2 := 0 to |block|
        invariant |m| == p && Shaped(m, p) && Adding(m0, m, p, block, pos, a1, a2, 0)
      {
        for b := 0 to |pos|
          invariant |m| == p && Shaped(m, p) && Adding(m0, m, p, block, pos, a1, a2, b)
        {
          var r := AddCell(m, pos[b][a1], pos[b][a2], block[a1][a2]);
          AddingStep(m0, m, p, block, pos, a1, a2, b, r);
          m := r;
        }
        AddingTurn(m0, m, p, block, pos, a1, a2);
      }
      AddingRow(m0, m, p, block, pos, a1);
    }
    AddingEnds(m0, m, p, block, pos);
  }

  /** Coefficient (a, b) of an n1 by n2 grid, behind the intercept. */
  function Place(n2: nat, a: nat, b: nat): nat { 1 + a * n2 + b }

  lemma PlaceFits(n1: nat, n2: nat, a: nat, b: nat)
    requires a < n1 && b < n2
    ensures Place(n2, a, b) < 1 + n1 * n2
  {
    MulMonotone(a + 1, n1, n2);
    assert (a + 1) * n2 == a * n2 + n2;
  }

  function GridColumns(n1: nat, n2: nat): (pos: seq<seq<nat>>)
    ensures |pos| == n2 && Placed(pos, n1, 1 + n1 * n2)
    ensures forall a, b :: 0 <= a < n1 && 0 <= b < n2 ==> pos[b][a] == Place(n2, a, b)
  {
    assert forall a, b :: 0 <= a < n1 && 0 <= b < n2 ==> Place(n2, a, b) < 1 + n1 * n2 by {
      forall a, b | 0 <= a < n1 && 0 <= b < n2 ensures Place(n2, a, b) < 1 + n1 * n2 { PlaceFits(n1, n2, a, b); }
    }
    seq(n2, b requires 0 <= b < n2 => seq(n1, a requires 0 <= a < n1 => Place(n2, a, b)))
  }

  function GridRows(n1: nat, n2: nat): (pos: seq<seq<nat>>)
    ensures |pos| == n1 && Placed(pos, n2, 1 + n1 * n2)
    ensures forall a, b :: 0 <= a < n1 && 0 <= b < n2 ==> pos[a][b] == Place(n2, a, b)
  {
    assert forall a, b :: 0 <= a < n1 && 0 <= b < n2 ==> Place(n2, a, b) < 1 + n1 * n2 by {
      forall a, b | 0 <= a < n1 && 0 <= b < n2 ensures Place(n2, a, b) < 1 + n1 * n2 { PlaceFits(n1, n2, a, b); }
    }
    seq(n1, a requires 0 <= a < n1 => seq(n2, b requires 0 <= b < n2 => Place(n2, a, b)))
  }

  /** The penalties of the first m lines. */
  function Penalties(c: Vector, pos: seq<seq<nat>>, m: nat): real
    requires m <= |pos| && forall k :: 0 <= k < |pos| ==> Indexes(pos[k], |c|)
  {
    if m == 0 then 0.0 else Penalties(c, pos, m - 1) + Penalty(Through(c, pos[m - 1]))
  }

  /** The penalties of all lines, added up. */
  lemma {:induction false} PenaltiesAddUp(c: Vector, pos: seq<seq<nat>>, m: nat, v: Vector)
    requires |v| == m <= |pos| && forall k :: 0 <= k < |pos| ==> Indexes(pos[k], |c|)
    requires forall k :: 0 <= k < m ==> v[k] == Penalty(Through(c, pos[k]))
    ensures Penalties(c, pos, m) == Total(v)
  {
    hide Penalty;
    if m > 0 {
      PenaltiesAddUp(c, pos, m - 1, v[..m - 1]);
    }
  }

  lemma {:induction false} FormsArePenalties(block: Matrix, n: nat, c: Vector, pos: seq<seq<nat>>, m: nat)
    requires Penalizes(block, n) && Placed(pos, n, |c|) && m <= |pos|
    ensures Forms(block, c, pos, m) == Penalties(c, pos, m)
  {
    hide Quad, Penalty;
    if m > 0 {
      FormsArePenalties(block, n, c, pos, m - 1);
    }
  }

  /** The form on c is the sum of the penalties of both families of lines. */
  ghost predicate Families(m: Matrix, c: Vector, pos1: seq<seq<nat>>, pos2: seq<seq<nat>>) {
    && |m| == |c| && Shaped(m, |c|)
    && (forall k :: 0 <= k < |pos1| ==> Indexes(pos1[k], |c|)) && (forall k :: 0 <= k < |pos2| ==> Indexes(pos2[k], |c|))
    && Quad(m, c) == Penalties(c, pos1, |pos1|) + Penalties(c, pos2, |pos2|)
  }

  /** For every coefficient vector the tensor form is the sum of the penalties of all grid columns and of
      all grid rows; the intercept is free. */
  ghost predicate TensorPenalizes(m: Matrix, n1: nat, n2: nat) {
    && |m| == 1 + n1 * n2 && Shaped(m, 1 + n1 * n2)
    && forall c: Vector :: |c| == 1 + n1 * n2 ==> Families(m, c, GridColumns(n1, n2), GridRows(n1, n2))
  }

  lemma ZerosAt(c: Vector)
    ensures Quad(Zeros(|c|), c) == 0.0
  {
    QuadZeros(|c|);
  }

  /** Two families of lines grown on zero. */
  lemma TwoFamilies(n1: nat, n2: nat, p1: Matrix, p2: Matrix, pos1: seq<seq<nat>>, pos2: seq<seq<nat>>,
                    m1: Matrix, m2: Matrix, c: Vector)
    requires Penalizes(p1, n1) && Penalizes(p2, n2)
    requires Grown(Zeros(|c|), m1, |c|, p1, pos1) && Grown(m1, m2, |c|, p2, pos2)
    ensures Families(m2, c, pos1, pos2)
  {
    hide Quad, Forms, Penalties, Zeros;
    assert GrownOn(Zeros(|c|), m1, c, p1, pos1) && GrownOn(m1, m2, c, p2, pos2);
    ZerosAt(c);
    FormsArePenalties(p1, n1, c, pos1, |pos1|);
    FormsArePenalties(p2, n2, c, pos2, |pos2|);
  }

  lemma TensorForms(p: nat, n1: nat, n2: nat, p1: Matrix, p2: Matrix, m1: Matrix, m2: Matrix)
    requires p == 1 + n1 * n2 && Penalizes(p1, n1) && Penalizes(p2, n2)
    requires Grown(Zeros(p), m1, p, p1, GridColumns(n1, n2)) && Grown(m1, m2, p, p2, GridRows(n1, n2))
    ensures TensorPenalizes(m2, n1, n2)
  {
    hide Families, Penalizes, GridColumns, GridRows, Zeros, Quad;
    forall c: Vector | |c| == p
      ensures Families(m2, c, GridColumns(n1, n2), GridRows(n1, n2))
    {
      TwoFamilies(n1, n2, p1, p2, GridColumns(n1, n2), GridRows(n1, n2), m1, m2, c);
    }
  }

  lemma PenalizesShape(m: Matrix, n: nat)
    requires Penalizes(m, n)
    ensures |m| == n && Shaped(m, n)
  {
  }

  method TensorPenalty(n1: nat, n2: nat) returns (m: Matrix)
    ensures TensorPenalizes(m, n1, n2)
  {
    hide Penalizes, Zeros, TensorPenalizes, GridColumns, GridRows, Grown;
    var p := 1 + n1 * n2;
    var p1 := SecondDifferencePenalty(n1);
    var p2 := SecondDifferencePenalty(n2);
    PenalizesShape(p1, n1);
    PenalizesShape(p2, n2);
    var m1 := AddAlongLines(Zeros(p), p, p1, GridColumns(n1, n2));
    GrownShape(Zeros(p), m1, p, p1, GridColumns(n1, n2));
    m := AddAlongLines(m1, p, p2, GridRows(n1, n2));
    TensorForms(p, n1, n2, p1, p2, m1, m);
  }

  lemma GrownShape(m0: Matrix, m: Matrix, p: nat, block: Matrix, pos: seq<seq<nat>>)
    requires Grown(m0, m, p, block, pos)
    ensures |m| == p && Shaped(m, p)
  {
  }

  // ------------------------------------------------------------------- basis rows

  function Least(a: real, b: real): real { if b < a then b else a }

  function Greatest(a: real, b: real): real { if b > a then b else a }

  const EPSILON: real := 1.0 / 4503599627370496.0

  /** No two values differ by more than rounding, relative to the largest of them. */
  ghost predicate Constant(x: Vector) {
    exists m: nat :: m < |x| && LargestAt(x, m) && SpreadWithin(x, 100.0 * EPSILON * Greatest(1.0, Abs(x[m])))
  }

  predicate LargestAt(x: Vector, m: nat)
    requires m < |x|
  {
    forall k :: 0 <= k < |x| ==> Abs(x[k]) <= Abs(x[m])
  }

  predicate SpreadWithin(x: Vector, bound: real) {
    forall i, j :: 0 <= i < |x| && 0 <= j < |x| ==> Abs(x[i] - x[j]) <= bound
  }

  ghost predicate Bounds(x: Vector, n: nat, lo: real, hi: real)
    requires n <= |x|
  {
    && (forall k :: 0 <= k < n ==> lo <= x[k] <= hi)
    && (exists i :: 0 <= i < n && x[i] == lo) && (exists j :: 0 <= j < n && x[j] == hi)
  }

  lemma BoundsNext(x: Vector, n: nat, lo: real, hi: real)
    requires 0 < n < |x| && Bounds(x, n, lo, hi)
    ensures Bounds(x, n + 1, Least(lo, x[n]), Greatest(hi, x[n]))
  {
    var i :| 0 <= i < n && x[i] == lo;
    var j :| 0 <= j < n && x[j] == hi;
    assert x[if x[n] < lo then n else i] == Least(lo, x[n]);
    assert x[if x[n] > hi then n else j] == Greatest(hi, x[n]);
  }

  lemma SpreadIs(x: Vector, lo: real, hi: real, bound: real)
    requires Bounds(x, |x|, lo, hi)
    ensures SpreadWithin(x, bound) <==> Abs(hi - lo) <= bound
  {
    var i :| 0 <= i < |x| && x[i] == lo;
    var j :| 0 <= j < |x| && x[j] == hi;
    if SpreadWithin(x, bound) {
      assert Abs(x[j] - x[i]) <= bound;
    }
  }

  lemma LargestIs(x: Vector, lo: real, hi: real) returns (m: nat)
    requires Bounds(x, |x|, lo, hi)
    ensures m < |x| && LargestAt(x, m) && Abs(x[m]) == Greatest(Abs(lo), Abs(hi))
  {
    var i :| 0 <= i < |x| && x[i] == lo;
    var j :| 0 <= j < |x| && x[j] == hi;
    m := if Abs(hi) > Abs(lo) then j else i;
  }

  lemma BoundsDecide(x: Vector, lo: real, hi: real)
    requires Bounds(x, |x|, lo, hi)
    ensures Constant(x) <==> Abs(hi - lo) <= 100.0 * EPSILON * Greatest(1.0, Greatest(Abs(lo), Abs(hi)))
  {
    var m := LargestIs(x, lo, hi);
    forall n: nat | n < |x| && LargestAt(x, n)
      ensures Abs(x[n]) == Abs(x[m])
    {
    }
    SpreadIs(x, lo, hi, 100.0 * EPSILON * Greatest(1.0, Abs(x[m])));
    hide Bounds, SpreadWithin, LargestAt, Abs, Greatest;
  }

  method NearConstant(x: Vector) returns (near: bool)
    ensures near <==> x == [] || Constant(x)
  {
    if x == [] {
      return true;
    }
    var lo, hi := x[0], x[0];
    for i := 0 to |x|
      invariant Bounds(x, if i == 0 then 1 else i, lo, hi)
    {
      if i > 0 {
        BoundsNext(x, i, lo, hi);
      }
      lo, hi := Least(lo, x[i]), Greatest(hi, x[i]);
    }
    BoundsDecide(x, lo, hi);
    near := Abs(hi - lo) <= 100.0 * EPSILON * Greatest(1.0, Greatest(Abs(lo), Abs(hi)));
  }

  /** A partition of unity. */
  ghost predicate Unit(row: Vector) {
    (forall i :: 0 <= i < |row| ==> row[i] >= 0.0) && Total(row) == 1.0
  }

  function Indicator(n: nat, k: nat): (r: Vector)
    requires k < n
    ensures |r| == n && forall i :: 0 <= i < n ==> r[i] == if i == k then 1.0 else 0.0
  {
    seq(n, i => if i == k then 1.0 else 0.0)
  }

  lemma {:induction false} IndicatorTotal(r: Vector, k: nat)
    requires forall i :: 0 <= i < |r| ==> r[i] == if i == k then 1.0 else 0.0
    ensures Total(r) == if k < |r| then 1.0 else 0.0
  {
    if r != [] {
      IndicatorTotal(r[..|r| - 1], k);
    }
  }

  lemma {:induction false} ScaledTotal(v: Vector, r: Vector, f: real)
    requires |r| == |v| && forall i :: 0 <= i < |v| ==> r[i] == Times(v[i], f)
    ensures Total(r) == Times(Total(v), f)
  {
    if v != [] {
      ScaledTotal(v[..|v| - 1], r[..|v| - 1], f);
    }
  }

  /** The cubic bump of a center, at a scaled distance. */
  function Bump(scaled: real): (v: real)
    ensures v >= 0.0 && (v > 0.0 <==> scaled < 1.0)
  {
    if scaled < 1.0 then
      var t := 1.0 - scaled;
      Positive(t, t);
      Positive(Times(t, t), t);
      Times(Times(t, t), t)
    else 0.0
  }

  lemma {:induction false} TotalNonnegative(v: Vector)
    requires forall i :: 0 <= i < |v| ==> v[i] >= 0.0
    ensures Total(v) >= 0.0
    ensures Total(v) == 0.0 <==> forall i :: 0 <= i < |v| ==> v[i] == 0.0
  {
    if v != [] {
      TotalNonnegative(v[..|v| - 1]);
    }
  }

  /** The first center nearest to x. */
  method Nearest(x: real, centers: Vector) returns (nearest: nat)
    requires centers != []
    ensures nearest < |centers|
    ensures forall i :: 0 <= i < |centers| ==> Abs(x - centers[nearest]) <= Abs(x - centers[i])
    ensures forall i :: 0 <= i < nearest ==> Abs(x - centers[nearest]) < Abs(x - centers[i])
  {
    nearest := 0;
    var best := Abs(x - centers[0]);
    for col := 1 to |centers|
      invariant nearest < col && best == Abs(x - centers[nearest])
      invariant forall i :: 0 <= i < col ==> best <= Abs(x - centers[i])
      invariant forall i :: 0 <= i < nearest ==> best < Abs(x - centers[i])
    {
      var candidate := Abs(x - centers[col]);
      if candidate < best {
        nearest, best := col, candidate;
      }
    }
  }

  /** How deep a center's reach goes at x: nothing from `width` away on. */
  function Depth(x: real, center: real, width: real): real {
    Greatest(0.0, width - Abs(x - center))
  }

  function Cube(t: real): real { Times(Times(t, t), t) }

  ghost predicate InReach(x: real, centers: Vector, width: real) {
    exists i :: 0 <= i < |centers| && Depth(x, centers[i], width) > 0.0
  }

  /** Weights proportional to the cubes of the depths. */
  ghost predicate Proportional(x: real, centers: Vector, width: real, row: Vector, f: real) {
    |row| == |centers| && forall i :: 0 <= i < |row| ==> row[i] == Times(Cube(Depth(x, centers[i], width)), f)
  }

  /** All weight on the first center nearest to x. */
  ghost predicate OnNearest(x: real, centers: Vector, row: Vector, k: nat) {
    && |row| == |centers| && k < |row|
    && (forall i :: 0 <= i < |row| ==> row[i] == if i == k then 1.0 else 0.0)
    && (forall i :: 0 <= i < |centers| ==> Abs(x - centers[k]) <= Abs(x - centers[i]))
    && (forall i :: 0 <= i < k ==> Abs(x - centers[k]) < Abs(x - centers[i]))
  }

  /** The weights of one row. */
  ghost predicate RowAt(x: real, centers: Vector, width: real, row: Vector) {
    && Unit(row)
    && if InReach(x, centers, width) then exists f :: Proportional(x, centers, width, row, f)
       else exists k: nat :: OnNearest(x, centers, row, k)
  }

  /** This determines them. */
  lemma RowOnce(x: real, centers: Vector, width: real, row: Vector, other: Vector)
    requires RowAt(x, centers, width, row) && RowAt(x, centers, width, other)
    ensures row == other
  {
    hide Times, Cube, Depth;
    if InReach(x, centers, width) {
      var f :| Proportional(x, centers, width, row, f);
      var g :| Proportional(x, centers, width, other, g);
      var cubes: Vector := seq(|centers|, i requires 0 <= i < |centers| => Cube(Depth(x, centers[i], width)));
      ScaledTotal(cubes, row, f);
      ScaledTotal(cubes, other, g);
      SameFactor(Total(cubes), f, g);
      assert forall i :: 0 <= i < |row| ==> row[i] == other[i];
    } else {
      var k: nat :| OnNearest(x, centers, row, k);
      var l: nat :| OnNearest(x, centers, other, l);
      assert Abs(x - centers[k]) == Abs(x - centers[l]);
      assert forall i :: 0 <= i < |row| ==> row[i] == other[i];
    }
  }

  lemma SameFactor(total: real, f: real, g: real)
    requires Times(total, f) == 1.0 == Times(total, g)
    ensures f == g
  {
    assert f == f * (total * g) == (total * f) * g == g;
  }

  /** The bump over its width is a cube over the width's cube. */
  lemma BumpIsCube(x: real, center: real, width: real)
    requires width > 0.0
    ensures var v := Bump(Times(Abs(x - center), 1.0 / width));
            && Cube(width) != 0.0 && v == Times(Cube(Depth(x, center, width)), Over(1.0, Cube(width)))
            && (v > 0.0 <==> Depth(x, center, width) > 0.0)
  {
    hide Times, Over;
    var d, scaled := Abs(x - center), Times(Abs(x - center), 1.0 / width);
    ScaledBelow(d, width);
    CubeOver(1.0, width);
    if scaled < 1.0 {
      var t := 1.0 - scaled;
      CubeOfProduct(t, width);
      CubeOver(Cube(t), width);
    } else {
      NoCube(Over(1.0, Cube(width)));
    }
  }

  lemma NoCube(f: real)
    ensures Times(Cube(0.0), f) == 0.0
  {
  }

  lemma ScaledBelow(d: real, width: real)
    requires width > 0.0
    ensures var scaled := Times(d, 1.0 / width);
            width - d == Times(1.0 - scaled, width) && (scaled < 1.0 <==> d < width)
  {
    var scaled := d * (1.0 / width);
    assert scaled * width == d by { TimesOver(d, width); assert (d * (1.0 / width)) * width == (d * width) * (1.0 / width); }
    assert (1.0 - scaled) * width == width - d;
    if scaled < 1.0 {
      Positive(1.0 - scaled, width);
    } else if scaled > 1.0 {
      Positive(scaled - 1.0, width);
    }
  }

  lemma CubeOfProduct(t: real, w: real)
    ensures Cube(Times(t, w)) == Times(Cube(t), Cube(w))
  {
    assert (t * w) * (t * w) == (t * t) * (w * w);
    assert ((t * t) * (w * w)) * (t * w) == ((t * t) * t) * ((w * w) * w);
  }

  lemma CubeOver(c: real, width: real)
    requires width > 0.0
    ensures Cube(width) != 0.0 && Times(Times(c, Cube(width)), Over(1.0, Cube(width))) == c
  {
    Positive(width, width);
    Positive(Times(width, width), width);
    TimesOver(c, Cube(width));
  }

  lemma TimesOver(c: real, w: real)
    requires w != 0.0
    ensures Times(Times(c, w), Over(1.0, w)) == c
  {
    assert w * (1.0 / w) == 1.0;
    assert (c * w) * (1.0 / w) == c * (w * (1.0 / w));
  }

  lemma TimesTogether(c: real, f: real, g: real)
    ensures Times(Times(c, f), g) == Times(c, Times(f, g))
  {
  }

  lemma ScaledBumps(x: real, centers: Vector, width: real, values: Vector, total: real, row: Vector)
    requires width > 0.0 && |values| == |centers| == |row| && total > 0.0
    requires forall i :: 0 <= i < |values| ==> values[i] == Bump(Times(Abs(x - centers[i]), 1.0 / width))
    requires forall i :: 0 <= i < |values| ==> row[i] == Times(values[i], 1.0 / total)
    ensures Cube(width) != 0.0 && Proportional(x, centers, width, row, Times(Over(1.0, Cube(width)), 1.0 / total))
  {
    hide Bump, Times, Over, Depth;
    CubeOver(1.0, width);
    forall i | 0 <= i < |row|
      ensures row[i] == Times(Cube(Depth(x, centers[i], width)), Times(Over(1.0, Cube(width)), 1.0 / total))
    {
      BumpIsCube(x, centers[i], width);
      TimesTogether(Cube(Depth(x, centers[i], width)), Over(1.0, Cube(width)), 1.0 / total);
    }
  }

  lemma BumpsReach(x: real, centers: Vector, width: real, values: Vector)
    requires width > 0.0 && |values| == |centers|
    requires forall i :: 0 <= i < |values| ==> values[i] == Bump(Times(Abs(x - centers[i]), 1.0 / width))
    ensures InReach(x, centers, width) <==> Total(values) > 0.0
  {
    hide Bump, Times, Over, Depth;
    forall i | 0 <= i < |values|
      ensures values[i] >= 0.0 && (values[i] > 0.0 <==> Depth(x, centers[i], width) > 0.0)
    {
      BumpIsCube(x, centers[i], width);
      assert Bump(Times(Abs(x - centers[i]), 1.0 / width)) >= 0.0;
    }
    TotalNonnegative(values);
  }

  /** One row: the bumps of all centers within reach, scaled to sum to one; out of every center's reach,
      all weight on the nearest center. */
  method BasisRow(x: real, centers: Vector, width: real) returns (row: Vector)
    requires centers != [] && width > 0.0
    ensures |row| == |centers| && RowAt(x, centers, width, row)
  {
    hide Bump, Times, InReach, Proportional, OnNearest;
    var values: Vector := [];
    var total := 0.0;
    for col := 0 to |centers|
      invariant |values| == col && total == Total(values)
      invariant forall i :: 0 <= i < col ==> values[i] == Bump(Times(Abs(x - centers[i]), 1.0 / width))
    {
      var value := Bump(Times(Abs(x - centers[col]), 1.0 / width));
      values := values + [value];
      total := total + value;
    }
    BumpsReach(x, centers, width, values);
    if total <= 0.0 {
      var nearest := Nearest(x, centers);
      row := Indicator(|centers|, nearest);
      IndicatorTotal(row, nearest);
      NearestRow(x, centers, row, nearest);
    } else {
      row := Scaled(values, total);
      ScaledBumps(x, centers, width, values, total, row);
    }
  }

  lemma NearestRow(x: real, centers: Vector, row: Vector, k: nat)
    requires |row| == |centers| && k < |row| && forall i :: 0 <= i < |row| ==> row[i] == if i == k then 1.0 else 0.0
    requires forall i :: 0 <= i < |centers| ==> Abs(x - centers[k]) <= Abs(x - centers[i])
    requires forall i :: 0 <= i < k ==> Abs(x - centers[k]) < Abs(x - centers[i])
    ensures OnNearest(x, centers, row, k)
  {
  }

  method Scaled(values: Vector, total: real) returns (row: Vector)
    requires total > 0.0 && total == Total(values) && forall i :: 0 <= i < |values| ==> values[i] >= 0.0
    ensures |row| == |values| && Unit(row) && forall i :: 0 <= i < |row| ==> row[i] == Times(values[i], 1.0 / total)
  {
    hide Times;
    row := [];
    for col := 0 to |values|
      invariant |row| == col && forall i :: 0 <= i < col ==> row[i] == Times(values[i], 1.0 / total)
    {
      row := row + [Times(values[col], 1.0 / total)];
    }
    ScaledTotal(values, row, 1.0 / total);
    forall i | 0 <= i < |row|
      ensures row[i] >= 0.0
    {
      ScaleKeeps(values[i], total);
    }
    ScaleKeeps(total, total);
  }

  lemma ScaleKeeps(v: real, total: real)
    requires total > 0.0 && v >= 0.0
    ensures Times(v, 1.0 / total) >= 0.0
    ensures Times(total, 1.0 / total) == 1.0
  {
    if v > 0.0 {
      Positive(v, 1.0 / total);
    }
  }

  /** The least positive step among the first n centers. */
  ghost predicate LeastStep(centers: Vector, n: nat, gap: real)
    requires n <= |centers|
  {
    && gap > 0.0
    && (forall i, next :: 0 <= i && next == i + 1 < n && centers[next] > centers[i] ==> gap <= centers[next] - centers[i])
    && (exists i, next :: 0 <= i && next == i + 1 < n && centers[next] - centers[i] == gap)
  }

  /** The least positive step from a center to the next; one, if there is none. */
  ghost predicate LeastGap(centers: Vector, gap: real) {
    if NoGap(centers, |centers|) then gap == 1.0 else LeastStep(centers, |centers|, gap)
  }

  ghost predicate NoGap(centers: Vector, n: nat)
    requires n <= |centers|
  {
    forall i, next :: 0 <= i && next == i + 1 < n ==> centers[next] <= centers[i]
  }

  /** The least positive step so far, or zero if there is none. */
  method MinimumGap(centers: Vector) returns (gap: real)
    requires centers != []
    ensures LeastGap(centers, gap)
  {
    gap := 0.0;
    for n := 1 to |centers|
      invariant gap == 0.0 ==> NoGap(centers, n)
      invariant gap != 0.0 ==> gap > 0.0 && LeastStep(centers, n, gap)
    {
      var step := centers[n] - centers[n - 1];
      GapNext(centers, n, gap, step);
      if step > 0.0 && (gap == 0.0 || step < gap) {
        gap := step;
      }
    }
    if gap <= 0.0 {
      gap := 1.0;
    } else {
      StepIsGap(centers, gap);
    }
  }

  lemma StepIsGap(centers: Vector, gap: real)
    requires LeastStep(centers, |centers|, gap)
    ensures !NoGap(centers, |centers|)
  {
    var i, next :| 0 <= i && next == i + 1 < |centers| && centers[next] - centers[i] == gap;
    assert centers[next] > centers[i];
  }

  lemma GapNext(centers: Vector, n: nat, gap: real, step: real)
    requires 0 < n < |centers| && step == centers[n] - centers[n - 1] && (gap == 0.0 || gap > 0.0)
    requires (gap == 0.0 ==> NoGap(centers, n)) && (gap != 0.0 ==> LeastStep(centers, n, gap))
    ensures step > 0.0 && (gap == 0.0 || step < gap) ==> LeastStep(centers, n + 1, step)
    ensures !(step > 0.0 && (gap == 0.0 || step < gap)) ==> if gap == 0.0 then NoGap(centers, n + 1) else LeastStep(centers, n + 1, gap)
  {
  }

  /** The basis of a sample. Of a near-constant one it is the first column; otherwise each row holds the
      weights at its value, for a width of 2.5 times the least gap. */
  method CubicBsplineBasis(x: Vector, centers: Vector) returns (rows: Matrix)
    requires centers != []
    ensures |rows| == |x| && Shaped(rows, |centers|) && forall r :: 0 <= r < |rows| ==> Unit(rows[r])
    ensures Constant(x) ==> forall r :: 0 <= r < |rows| ==> rows[r] == Indicator(|centers|, 0)
    ensures !Constant(x) ==> exists gap :: LeastGap(centers, gap)
                               && forall r :: 0 <= r < |rows| ==> RowAt(x[r], centers, 2.5 * gap, rows[r])
  {
    hide LeastGap, RowAt, Constant;
    var constant := NearConstant(x);
    var gap := MinimumGap(centers);
    assert gap > 0.0 by { GapPositive(centers, gap); }
    rows := [];
    for r := 0 to |x|
      invariant |rows| == r && Shaped(rows, |centers|) && forall i :: 0 <= i < r ==> Unit(rows[i])
      invariant forall i :: 0 <= i < r ==> if constant then rows[i] == Indicator(|centers|, 0) else RowAt(x[i], centers, 2.5 * gap, rows[i])
    {
      var row;
      if constant {
        row := Indicator(|centers|, 0);
        IndicatorTotal(row, 0);
      } else {
        row := BasisRow(x[r], centers, 2.5 * gap);
        RowIsUnit(x[r], centers, 2.5 * gap, row);
      }
      rows := rows + [row];
    }
  }

  lemma GapPositive(centers: Vector, gap: real)
    requires LeastGap(centers, gap)
    ensures gap > 0.0
  {
  }

  lemma RowIsUnit(x: real, centers: Vector, width: real, row: Vector)
    requires RowAt(x, centers, width, row)
    ensures Unit(row)
  {
  }
}
