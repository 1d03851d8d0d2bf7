/** Distance covariance: double centering and the permutation test on once-centered matrices. */
module Dcov {
  import opened Arith
  import opened Collections
  import opened Vectors
  import opened Shuffles

  function Totals(d: Matrix): (t: Vector)
    ensures |t| == |d| && forall i :: 0 <= i < |d| ==> t[i] == Total(d[i])
  {
    seq(|d|, i requires 0 <= i < |d| => Total(d[i]))
  }

  function Square(n: real): (r: real)
    requires n > 0.0
    ensures r > 0.0
  {
    Positive(n, n);
    Times(n, n)
  }

  function RowMean(d: Matrix, i: nat): real
    requires i < |d|
  {
    Over(Total(d[i]), |d| as real)
  }

  function Grand(d: Matrix): real
    requires |d| > 0
  {
    Over(Total(Totals(d)), Square(|d| as real))
  }

  /** An entry less its row's and its column's mean, plus the grand mean. */
  function CenteredAt(d: Matrix, i: nat, j: nat): real
    requires Shaped(d, |d|) && i < |d| && j < |d|
  {
    d[i][j] - RowMean(d, i) - RowMean(d, j) + Grand(d)
  }

  ghost predicate Centers(d: Matrix, c: Matrix) {
    && Shaped(d, |d|) && |c| == |d| && Shaped(c, |d|)
    && forall i, j :: 0 <= i < |d| && 0 <= j < |d| ==> c[i][j] == CenteredAt(d, i, j)
  }

  function Centered(d: Matrix): (c: Matrix)
    requires Shaped(d, |d|)
    ensures Centers(d, c)
  {
    seq(|d|, i requires 0 <= i < |d| => seq(|d|, j requires 0 <= j < |d| => CenteredAt(d, i, j)))
  }

  predicate Mirrored(d: Matrix)
    requires Shaped(d, |d|)
  {
    forall i, j :: 0 <= i < |d| && 0 <= j < |d| ==> d[i][j] == d[j][i]
  }

  method CenterDistance(d: Matrix) returns (c: Matrix)
    requires Shaped(d, |d|) && |d| > 0
    ensures c == Centered(d)
  {
    hide Over, Square;
    var n := |d|;
    var means: Vector := [];
    var grand := 0.0;
    for i := 0 to n
      invariant |means| == i && forall h :: 0 <= h < i ==> means[h] == RowMean(d, h)
      invariant grand == Total(Totals(d)[..i])
    {
      var sum := 0.0;
      for j := 0 to n
        invariant sum == Total(d[i][..j])
      {
        assert d[i][..j + 1] == d[i][..j] + [d[i][j]];
        sum := sum + d[i][j];
      }
      assert d[i][..n] == d[i];
      assert Totals(d)[..i + 1] == Totals(d)[..i] + [sum];
      means := means + [Over(sum, n as real)];
      grand := grand + sum;
    }
    assert Totals(d)[..n] == Totals(d);
    grand := Over(grand, Square(n as real));
    c := [];
    for i := 0 to n
      invariant |c| == i && forall h :: 0 <= h < i ==> c[h] == Centered(d)[h]
    {
      var row: Vector := [];
      for j := 0 to n
        invariant |row| == j && forall h :: 0 <= h < j ==> row[h] == Centered(d)[i][h]
      {
        row := row + [d[i][j] - means[i] - means[j] + grand];
      }
      c := c + [row];
    }
  }

  // ----------------------------------------------------------------- zero margins

  lemma {:induction false} TotalOfCentered(x: Vector, m: Vector, c: real, g: real, r: Vector)
    requires |x| == |m| == |r| && forall j :: 0 <= j < |r| ==> r[j] == x[j] - c - m[j] + g
    ensures Total(r) == Total(x) - Total(m) + Times(|r| as real, g - c)
  {
    if r == [] {
    } else {
      hide Times;
      var n := |r| - 1;
      TotalOfCentered(x[..n], m[..n], c, g, r[..n]);
      OneMore(n, g - c);
    }
  }

  lemma OverSum(a: real, b: real, n: real)
    requires n > 0.0
    ensures Over(a + b, n) == Over(a, n) + Over(b, n)
  {
  }

  lemma {:induction false} TotalDivided(t: Vector, m: Vector, n: real)
    requires n > 0.0 && |t| == |m| && forall i :: 0 <= i < |t| ==> m[i] == Over(t[i], n)
    ensures Total(m) == Over(Total(t), n)
  {
    if t != [] {
      TotalDivided(t[..|t| - 1], m[..|m| - 1], n);
      OverSum(Total(t[..|t| - 1]), t[|t| - 1], n);
    }
  }

  lemma MarginIsZero(n: real, t: real, all: real)
    requires n > 0.0
    ensures t - Over(all, n) + Times(n, Over(all, Square(n)) - Over(t, n)) == 0.0
  {
    assert n * (all / (n * n)) == all / n;
    assert n * (t / n) == t;
  }

  function Means(d: Matrix): (m: Vector)
    ensures |m| == |d| && forall i :: 0 <= i < |d| ==> m[i] == RowMean(d, i)
  {
    seq(|d|, i requires 0 <= i < |d| => RowMean(d, i))
  }

  /** Every row of a centered matrix sums to zero. */
  lemma CenteredRows(d: Matrix, i: nat)
    requires Shaped(d, |d|) && i < |d|
    ensures Total(Centered(d)[i]) == 0.0
  {
    hide Over, Square, Times;
    TotalOfCentered(d[i], Means(d), RowMean(d, i), Grand(d), Centered(d)[i]);
    TotalDivided(Totals(d), Means(d), |d| as real);
    MarginIsZero(|d| as real, Total(d[i]), Total(Totals(d)));
  }

  /** So does every column, if the distances are symmetric. */
  lemma CenteredColumns(d: Matrix, j: nat)
    requires Shaped(d, |d|) && Mirrored(d) && j < |d|
    ensures Total(Column(Centered(d), |d|, j)) == 0.0
  {
    CenteredRows(d, j);
    var column, row := Column(Centered(d), |d|, j), Centered(d)[j];
    assert forall i :: 0 <= i < |d| ==> column[i] == row[i];
    assert column == row;
  }

  /** The matrix less a number for each row and a number for each column. */
  ghost predicate Shifted(d: Matrix, c: Matrix, rows: Vector, columns: Vector) {
    && Shaped(d, |d|) && |c| == |d| && Shaped(c, |d|) && |rows| == |columns| == |d|
    && forall i, j :: 0 <= i < |d| && 0 <= j < |d| ==> c[i][j] == d[i][j] - rows[i] - columns[j]
  }

  ghost predicate ZeroMargins(c: Matrix)
    requires Shaped(c, |c|)
  {
    forall i :: 0 <= i < |c| ==> Total(c[i]) == 0.0 && Total(Column(c, |c|, i)) == 0.0
  }

  lemma TotalShifted(x: Vector, m: Vector, c: real, r: Vector)
    requires |x| == |m| == |r| && forall j :: 0 <= j < |r| ==> r[j] == x[j] - c - m[j]
    ensures Total(r) == Total(x) - Total(m) - Times(|r| as real, c)
  {
    hide Total, Times;
    TotalOfCentered(x, m, c, 0.0, r);
    TimesNegative(|r| as real, -c);
    TimesCommutes(|r| as real, c);
    TimesCommutes(|r| as real, -c);
    TimesNegative(c, |r| as real);
  }

  lemma OverTimes(n: real, x: real, total: real)
    requires n > 0.0 && total == Times(n, x)
    ensures x == Over(total, n)
  {
  }

  lemma ShiftedRow(d: Matrix, c: Matrix, rows: Vector, columns: Vector, i: nat)
    requires Shifted(d, c, rows, columns) && i < |d| && Total(c[i]) == 0.0
    ensures rows[i] == Over(Total(d[i]) - Total(columns), |d| as real)
  {
    hide Total, Times, Over;
    TotalShifted(d[i], columns, rows[i], c[i]);
    OverTimes(|d| as real, rows[i], Total(d[i]) - Total(columns));
  }

  lemma ShiftedColumnCells(d: Matrix, c: Matrix, rows: Vector, columns: Vector, j: nat, column: Vector)
    requires Shifted(d, c, rows, columns) && Mirrored(d) && j < |d| && column == Column(c, |d|, j)
    ensures forall i :: 0 <= i < |d| ==> column[i] == d[j][i] - columns[j] - rows[i]
  {
  }

  lemma ShiftedColumn(d: Matrix, c: Matrix, rows: Vector, columns: Vector, j: nat)
    requires Shifted(d, c, rows, columns) && Mirrored(d) && j < |d| && Total(Column(c, |d|, j)) == 0.0
    ensures columns[j] == Over(Total(d[j]) - Total(rows), |d| as real)
  {
    hide Total, Times, Over;
    var column := Column(c, |d|, j);
    ShiftedColumnCells(d, c, rows, columns, j, column);
    hide Mirrored, Column;
    TotalShifted(d[j], rows, columns[j], column);
    OverTimes(|d| as real, columns[j], Total(d[j]) - Total(rows));
  }

  lemma ShiftsTogether(n: real, rows: real, columns: real, all: real)
    requires n > 0.0 && rows == Over(all, n) - Times(n, Over(columns, n))
    ensures Over(rows, n) + Over(columns, n) == Over(all, Square(n))
  {
    assert n * (columns / n) == columns;
    OverTwice(all, n);
    OverSum(rows, columns, n);
  }

  lemma OverTwice(x: real, n: real)
    requires n > 0.0
    ensures Over(Over(x, n), n) == Over(x, Square(n))
  {
    var y := x / n / n;
    assert x == (y * n) * n == y * (n * n);
  }

  lemma OverDifference(a: real, b: real, n: real)
    requires n > 0.0
    ensures Over(a - b, n) == Over(a, n) - Over(b, n)
  {
  }

  lemma ShiftedMean(d: Matrix, c: Matrix, rows: Vector, columns: Vector, i: nat)
    requires Shifted(d, c, rows, columns) && i < |d| && Total(c[i]) == 0.0
    ensures rows[i] == RowMean(d, i) - Over(Total(columns), |d| as real)
  {
    hide Total, Over, Times;
    ShiftedRow(d, c, rows, columns, i);
    OverDifference(Total(d[i]), Total(columns), |d| as real);
  }

  lemma RowsTotal(d: Matrix, c: Matrix, rows: Vector, columns: Vector)
    requires Shifted(d, c, rows, columns) && ZeroMargins(c) && d != []
    ensures var n := |d| as real; Total(rows) == Over(Total(Totals(d)), n) - Times(n, Over(Total(columns), n))
  {
    hide Over, Times, Total, RowMean, ZeroMargins, Shifted;
    ShiftedSize(d, c, rows, columns);
    var n, means, zero := |d| as real, Means(d), Zero(|d|);
    forall i | 0 <= i < |d|
      ensures rows[i] == means[i] - Over(Total(columns), n) - zero[i]
    {
      MarginRow(c, i);
      ShiftedMean(d, c, rows, columns, i);
    }
    TotalShifted(means, zero, Over(Total(columns), n), rows);
    MeansTotal(d);
    ZeroTotal(|d|);
  }

  lemma MarginRow(c: Matrix, i: nat)
    requires Shaped(c, |c|) && ZeroMargins(c) && i < |c|
    ensures Total(c[i]) == 0.0
  {
  }

  lemma ShiftedSize(d: Matrix, c: Matrix, rows: Vector, columns: Vector)
    requires Shifted(d, c, rows, columns)
    ensures |rows| == |c| == |d| && Shaped(c, |c|)
  {
  }

  lemma MeansTotal(d: Matrix)
    requires d != []
    ensures Total(Means(d)) == Over(Total(Totals(d)), |d| as real)
  {
    hide Over, Total;
    TotalDivided(Totals(d), Means(d), |d| as real);
  }

  lemma {:induction false} ZeroTotal(n: nat)
    ensures Total(Zero(n)) == 0.0
  {
    if n > 0 {
      ZeroTotal(n - 1);
      assert Zero(n)[..n - 1] == Zero(n - 1);
    }
  }

  lemma CenteredShifts(d: Matrix)
    requires Shaped(d, |d|) && d != []
    ensures exists rows, columns :: Shifted(d, Centered(d), rows, columns)
  {
    hide RowMean, Grand;
    var m, g := Means(d), Grand(d);
    var rows: Vector := seq(|d|, i requires 0 <= i < |d| => m[i] - g);
    assert Shifted(d, Centered(d), rows, m);
  }

  /** Centering is the only way to shift the rows and the columns of a symmetric matrix so that all of them
      sum to zero. */
  lemma OnlyCentering(d: Matrix, c: Matrix)
    requires Shaped(d, |d|) && Mirrored(d) && d != [] && |c| == |d| && Shaped(c, |d|)
    ensures c == Centered(d) <==> ZeroMargins(c) && exists rows, columns :: Shifted(d, c, rows, columns)
  {
    CenteredMargins(d);
    CenteredShifts(d);
    hide Centered, ZeroMargins;
    if ZeroMargins(c) && exists rows, columns :: Shifted(d, c, rows, columns) {
      var rows, columns :| Shifted(d, c, rows, columns);
      forall i, j | 0 <= i < |d| && 0 <= j < |d|
        ensures c[i][j] == Centered(d)[i][j]
      {
        ShiftedCell(d, c, rows, columns, i, j);
      }
      SameMatrix(c, Centered(d));
    }
  }

  lemma CenteredMargins(d: Matrix)
    requires Shaped(d, |d|) && Mirrored(d)
    ensures ZeroMargins(Centered(d))
  {
    hide Centered, Total;
    forall i | 0 <= i < |d|
      ensures Total(Centered(d)[i]) == 0.0 && Total(Column(Centered(d), |d|, i)) == 0.0
    {
      CenteredRows(d, i);
      CenteredColumns(d, i);
    }
  }

  lemma ShiftedCell(d: Matrix, c: Matrix, rows: Vector, columns: Vector, i: nat, j: nat)
    requires Shifted(d, c, rows, columns) && Mirrored(d) && ZeroMargins(c) && i < |d| && j < |d|
    ensures c[i][j] == CenteredAt(d, i, j)
  {
    hide Over, Total, Times, Square, Mirrored;
    var n := |d| as real;
    ShiftedRow(d, c, rows, columns, i);
    ShiftedColumn(d, c, rows, columns, j);
    hide ZeroMargins;
    OverDifference(Total(d[i]), Total(columns), n);
    OverDifference(Total(d[j]), Total(rows), n);
    RowsTotal(d, c, rows, columns);
    ShiftsTogether(n, Total(rows), Total(columns), Total(Totals(d)));
  }

  // ---------------------------------------------------------------- relabelling

  function Relabelled(d: Matrix, p: seq<nat>): (r: Matrix)
    requires Shaped(d, |d|) && Indexes(p, |d|)
    ensures |r| == |p| && Shaped(r, |p|)
    ensures forall i, j :: 0 <= i < |p| && 0 <= j < |p| ==> r[i][j] == d[p[i]][p[j]]
  {
    seq(|p|, i requires 0 <= i < |p| => Through(d[p[i]], p))
  }

  lemma TotalLast(v: Vector)
    requires v != []
    ensures Total(v) == Total(v[..|v| - 1]) + v[|v| - 1]
  {
  }

  lemma {:induction false} TotalWithout(v: Vector, k: nat)
    requires k < |v|
    ensures Total(v) == Total(v[..k] + v[k + 1..]) + v[k]
  {
    var n := |v| - 1;
    var rest := v[..k] + v[k + 1..];
    if k < n {
      TotalWithout(v[..n], k);
      assert rest[..n - 1] == v[..n][..k] + v[..n][k + 1..] && rest[n - 1] == v[n];
      TotalLast(rest);
    } else {
      assert rest == v[..n];
    }
    TotalLast(v);
    hide Total;
  }

  lemma TakeOut(p: seq<nat>, q: seq<nat>) returns (k: nat)
    requires multiset(p) == multiset(q) && p != []
    ensures k < |q| && q[k] == p[|p| - 1]
    ensures multiset(p[..|p| - 1]) == multiset(q[..k] + q[k + 1..])
  {
    var x := p[|p| - 1];
    assert p == p[..|p| - 1] + [x];
    assert x in multiset(p);
    k :| 0 <= k < |q| && q[k] == x;
    assert q == q[..k] + [x] + q[k + 1..];
    assert multiset(p[..|p| - 1]) == multiset(p) - multiset{x} == multiset(q[..k] + q[k + 1..]);
  }

  lemma ThroughWithout(v: Vector, q: seq<nat>, k: nat)
    requires Indexes(q, |v|) && k < |q|
    ensures Indexes(q[..k] + q[k + 1..], |v|)
    ensures Total(Through(v, q)) == Total(Through(v, q[..k] + q[k + 1..])) + v[q[k]]
  {
    TotalWithout(Through(v, q), k);
    assert Through(v, q)[..k] + Through(v, q)[k + 1..] == Through(v, q[..k] + q[k + 1..]);
  }

  /** A sum does not depend on the order of its indices. */
  lemma {:induction false} TotalThrough(v: Vector, p: seq<nat>, q: seq<nat>)
    requires Indexes(p, |v|) && Indexes(q, |v|) && multiset(p) == multiset(q)
    ensures Total(Through(v, p)) == Total(Through(v, q))
    decreases |p|
  {
    SameSize(p, q);
    if p != [] {
      var n := |p| - 1;
      var k := TakeOut(p, q);
      ThroughWithout(v, q, k);
      TotalThrough(v, p[..n], q[..k] + q[k + 1..]);
      assert Through(v, p)[..n] == Through(v, p[..n]);
    }
  }

  predicate Permutation(p: seq<nat>, n: nat) {
    multiset(p) == multiset(Identity(n))
  }

  lemma PermutationIndexes(p: seq<nat>, n: nat)
    requires Permutation(p, n)
    ensures |p| == n && Indexes(p, n)
  {
    SameSize(p, Identity(n));
    forall j | 0 <= j < |p|
      ensures p[j] < n
    {
      assert p[j] in multiset(Identity(n));
      assert p[j] in Identity(n);
    }
  }

  lemma PermutedTotal(v: Vector, p: seq<nat>)
    requires Permutation(p, |v|)
    ensures Indexes(p, |v|) && Total(Through(v, p)) == Total(v)
  {
    PermutationIndexes(p, |v|);
    TotalThrough(v, p, Identity(|v|));
    assert Through(v, Identity(|v|)) == v;
  }

  lemma RelabelledMargins(d: Matrix, p: seq<nat>)
    requires Shaped(d, |d|) && Permutation(p, |d|)
    ensures |p| == |d| && Indexes(p, |d|)
    ensures forall i :: 0 <= i < |d| ==> Total(Relabelled(d, p)[i]) == Total(d[p[i]])
    ensures Total(Totals(Relabelled(d, p))) == Total(Totals(d))
  {
    PermutationIndexes(p, |d|);
    var r := Relabelled(d, p);
    forall i | 0 <= i < |d|
      ensures Total(r[i]) == Total(d[p[i]])
    {
      PermutedTotal(d[p[i]], p);
      assert r[i] == Through(d[p[i]], p);
    }
    assert Totals(r) == Through(Totals(d), p);
    PermutedTotal(Totals(d), p);
  }

  lemma CellCommutes(d: Matrix, p: seq<nat>, i: nat, j: nat)
    requires Shaped(d, |d|) && Permutation(p, |d|) && i < |d| && j < |d| && |p| == |d| && Indexes(p, |d|)
    ensures CenteredAt(Relabelled(d, p), i, j) == CenteredAt(d, p[i], p[j])
  {
    var r := Relabelled(d, p);
    RelabelledMargins(d, p);
    hide Over, Square, Total, Totals, Permutation;
  }

  /** Centering commutes with relabelling the sample. */
  lemma CenteringCommutes(d: Matrix, p: seq<nat>)
    requires Shaped(d, |d|) && Permutation(p, |d|)
    ensures Indexes(p, |d|) && Centered(Relabelled(d, p)) == Relabelled(Centered(d), p)
  {
    hide CenteredAt, Permutation;
    PermutationIndexes(p, |d|);
    var left, right := Centered(Relabelled(d, p)), Relabelled(Centered(d), p);
    forall i, j | 0 <= i < |d| && 0 <= j < |d|
      ensures left[i][j] == right[i][j]
    {
      CellCommutes(d, p, i, j);
    }
    SameMatrix(left, right);
  }

  lemma SameMatrix(a: Matrix, b: Matrix)
    requires |a| == |b| && Shaped(a, |a|) && Shaped(b, |a|)
    requires forall i, j :: 0 <= i < |a| && 0 <= j < |a| ==> a[i][j] == b[i][j]
    ensures a == b
  {
    forall i | 0 <= i < |a|
      ensures a[i] == b[i]
    {
    }
  }

  // ------------------------------------------------------------------- the statistic

  /** Distances between observations: some function of the absolute difference. */
  function Distances(x: Vector, power: real -> real): (d: Matrix)
    ensures |d| == |x| && Shaped(d, |x|) && Mirrored(d)
    ensures forall i, j :: 0 <= i < |x| && 0 <= j < |x| ==> d[i][j] == power(Abs(x[i] - x[j]))
  {
    seq(|x|, i requires 0 <= i < |x| => seq(|x|, j requires 0 <= j < |x| => power(Abs(x[i] - x[j]))))
  }

  function Inner(a: Matrix, b: Matrix): real
    requires |a| == |b| && forall i :: 0 <= i < |a| ==> |a[i]| == |b[i]|
  {
    if a == [] then 0.0 else Inner(a[..|a| - 1], b[..|b| - 1]) + Dot(a[|a| - 1], b[|b| - 1])
  }

  /** What the inner product of matrices is: it vanishes on the zero matrix, and changing one entry of one
      matrix changes it by that much of the other matrix's entry. */
  lemma {:induction false} InnerZero(a: Matrix, b: Matrix)
    requires |a| == |b| && forall i :: 0 <= i < |a| ==> |a[i]| == |b[i]| && a[i] == Zero(|a[i]|)
    ensures Inner(a, b) == 0.0
  {
    if a != [] {
      InnerZero(a[..|a| - 1], b[..|b| - 1]);
      DotZero(a[|a| - 1], b[|b| - 1]);
    }
  }

  lemma {:induction false} InnerUpdate(a: Matrix, b: Matrix, i: nat, j: nat, x: real)
    requires |a| == |b| && (forall h :: 0 <= h < |a| ==> |a[h]| == |b[h]|) && i < |a| && j < |a[i]|
    ensures Inner(a[i := a[i][j := x]], b) == Inner(a, b) + Times(x, b[i][j]) - Times(a[i][j], b[i][j])
    decreases |a|
  {
    hide Times, Dot;
    var n := |a| - 1;
    var c := a[i := a[i][j := x]];
    if i < n {
      InnerUpdate(a[..n], b[..n], i, j, x);
      assert c[..n] == a[..n][i := a[i][j := x]];
    } else {
      assert c[..n] == a[..n];
      DotUpdate(a[n], j, x, b[n]);
    }
  }

  /** The definition: center both samples' distances and average the products. */
  function Statistic(x: Vector, y: Vector, power: real -> real): real
    requires |x| == |y| > 0
  {
    Inner(Centered(Distances(x, power)), Centered(Distances(y, power))) / |x| as real
  }

  method RowProduct(u: Vector, v: Vector) returns (r: real)
    requires |u| == |v|
    ensures r == Dot(u, v)
  {
    hide Times;
    r := 0.0;
    for j := 0 to |u|
      invariant r == Dot(u[..j], v[..j])
    {
      DotPrefix(u, v, j);
      r := r + Times(u[j], v[j]);
    }
    assert u[..|u|] == u && v[..|v|] == v;
  }

  method StatisticFromCentered(a: Matrix, b: Matrix) returns (r: real)
    requires |a| == |b| > 0 && Shaped(a, |a|) && Shaped(b, |b|)
    ensures r == Inner(a, b) / |a| as real
  {
    var total := 0.0;
    for i := 0 to |a|
      invariant total == Inner(a[..i], b[..i])
    {
      var product := RowProduct(a[i], b[i]);
      assert a[..i + 1][..i] == a[..i] && b[..i + 1][..i] == b[..i];
      total := total + product;
    }
    assert a[..|a|] == a && b[..|b|] == b;
    r := total / |a| as real;
  }

  method PermutedRowProduct(u: Vector, v: Vector, p: seq<nat>) returns (r: real)
    requires |u| == |p| && Indexes(p, |v|)
    ensures r == Dot(u, Through(v, p))
  {
    hide Times;
    var w := Through(v, p);
    r := 0.0;
    for j := 0 to |u|
      invariant r == Dot(u[..j], w[..j])
    {
      DotPrefix(u, w, j);
      r := r + Times(u[j], v[p[j]]);
    }
    assert u[..|u|] == u && w[..|u|] == w;
  }

  method StatisticPermuted(a: Matrix, b: Matrix, p: seq<nat>) returns (r: real)
    requires |a| == |b| == |p| > 0 && Shaped(a, |a|) && Shaped(b, |b|) && Indexes(p, |b|)
    ensures r == Inner(a, Relabelled(b, p)) / |a| as real
  {
    var total := 0.0;
    ghost var c := Relabelled(b, p);
    for i := 0 to |a|
      invariant total == Inner(a[..i], c[..i])
    {
      var product := PermutedRowProduct(a[i], b[p[i]], p);
      assert c[i] == Through(b[p[i]], p);
      hide Relabelled, Through, Dot;
      assert a[..i + 1][..i] == a[..i] && c[..i + 1][..i] == c[..i];
      total := total + product;
    }
    assert a[..|a|] == a && c[..|a|] == c;
    r := total / |a| as real;
  }

  lemma DistancesCommute(y: Vector, p: seq<nat>, power: real -> real)
    requires Indexes(p, |y|) && |p| == |y|
    ensures Relabelled(Distances(y, power), p) == Distances(Through(y, p), power)
  {
    SameMatrix(Relabelled(Distances(y, power), p), Distances(Through(y, p), power));
  }

  /** On once-centered matrices the permuted statistic is the statistic of the permuted sample. */
  lemma PermutedIsRecomputed(x: Vector, y: Vector, p: seq<nat>, power: real -> real)
    requires |x| == |y| > 0 && Permutation(p, |y|)
    ensures Indexes(p, |y|) && |p| == |x|
    ensures Inner(Centered(Distances(x, power)), Relabelled(Centered(Distances(y, power)), p)) / |x| as real
            == Statistic(x, Through(y, p), power)
  {
    hide Permutation, Inner;
    PermutationIndexes(p, |y|);
    CenteringCommutes(Distances(y, power), p);
    DistancesCommute(y, p, power);
  }

  function Exceedances(x: Vector, y: Vector, ps: seq<seq<nat>>, power: real -> real): nat
    requires |x| == |y| > 0 && forall k :: 0 <= k < |ps| ==> Permutation(ps[k], |y|)
  {
    if ps == [] then 0
    else
      var p := ps[|ps| - 1];
      PermutationIndexes(p, |y|);
      Exceedances(x, y, ps[..|ps| - 1], power) + (if Statistic(x, Through(y, p), power) >= Statistic(x, y, power) then 1 else 0)
  }

  predicate Reached(x: Vector, y: Vector, ps: seq<seq<nat>>, power: real -> real, k: nat)
    requires |x| == |y| > 0 && (forall h :: 0 <= h < |ps| ==> Permutation(ps[h], |y|)) && k < |ps|
  {
    PermutationIndexes(ps[k], |y|);
    Statistic(x, Through(y, ps[k]), power) >= Statistic(x, y, power)
  }

  ghost function ReachedBy(x: Vector, y: Vector, ps: seq<seq<nat>>, power: real -> real): set<nat>
    requires |x| == |y| > 0 && forall h :: 0 <= h < |ps| ==> Permutation(ps[h], |y|)
  {
    set k: nat | k < |ps| && Reached(x, y, ps, power, k)
  }

  /** The exceedances are as many as the replicates whose recomputed statistic reaches the observed one. */
  lemma {:induction false} ExceedancesCount(x: Vector, y: Vector, ps: seq<seq<nat>>, power: real -> real)
    requires |x| == |y| > 0 && forall h :: 0 <= h < |ps| ==> Permutation(ps[h], |y|)
    ensures Exceedances(x, y, ps, power) == |ReachedBy(x, y, ps, power)|
    decreases |ps|
  {
    hide Statistic, Permutation;
    if ps == [] {
      assert ReachedBy(x, y, ps, power) == {};
    } else {
      var n := |ps| - 1;
      var before := ReachedBy(x, y, ps[..n], power);
      ExceedancesCount(x, y, ps[..n], power);
      PermutationIndexes(ps[n], |y|);
      assert forall k: nat :: k < n ==> (Reached(x, y, ps, power, k) <==> Reached(x, y, ps[..n], power, k));
      assert ReachedBy(x, y, ps, power) == if Reached(x, y, ps, power, n) then before + {n} else before;
    }
  }

  /** One replicate: whether the permuted sample's statistic reaches the observed one. */
  method Reaches(ghost x: Vector, ghost y: Vector, ghost power: real -> real, a: Matrix, b: Matrix, statistic: real, p: seq<nat>)
    returns (reaches: bool)
    requires |x| == |y| > 0 && Permutation(p, |y|)
    requires a == Centered(Distances(x, power)) && b == Centered(Distances(y, power)) && statistic == Statistic(x, y, power)
    ensures Indexes(p, |y|) && |p| == |y| && (reaches <==> Statistic(x, Through(y, p), power) >= Statistic(x, y, power))
  {
    hide Inner, Centered, Statistic, Permutation;
    PermutationIndexes(p, |y|);
    PermutedIsRecomputed(x, y, p, power);
    var permuted := StatisticPermuted(a, b, p);
    reaches := permuted >= statistic;
  }

  /** The permutation test centers each sample once. Its p-value is the share of permuted samples whose
      recomputed statistic reaches the observed one, the observed sample counted in if asked for. */
  method PermutationTest(x: Vector, y: Vector, power: real -> real, ps: seq<seq<nat>>, includeObserved: bool)
    returns (statistic: real, p: real)
    requires |x| == |y| >= 2 && forall k :: 0 <= k < |ps| ==> Permutation(ps[k], |y|)
    ensures statistic == Statistic(x, y, power)
    ensures var extra := if includeObserved then 1 else 0;
            p == if |ps| + extra == 0 then 1.0
                 else (Exceedances(x, y, ps, power) + extra) as real / (|ps| + extra) as real
  {
    hide Inner, Centered;
    var n := |x|;
    var a := CenterDistance(Distances(x, power));
    var b := CenterDistance(Distances(y, power));
    statistic := StatisticFromCentered(a, b);
    assert statistic == Statistic(x, y, power);
    hide Statistic;
    var exceedances := if includeObserved then 1 else 0;
    for k := 0 to |ps|
      invariant exceedances == Exceedances(x, y, ps[..k], power) + (if includeObserved then 1 else 0)
    {
      var reaches := Reaches(x, y, power, a, b, statistic, ps[k]);
      assert ps[..k + 1][..k] == ps[..k];
      if reaches {
        exceedances := exceedances + 1;
      }
    }
    assert ps[..|ps|] == ps;
    var denominator := |ps| + (if includeObserved then 1 else 0);
    p := if denominator > 0 then exceedances as real / denominator as real else 1.0;
  }

  // --------------------------------------------------------------- drawing by erasing

  /** The elements erased one after the other, those behind each closing the gap. */
  function Erased<T>(pool: seq<T>, picks: seq<nat>): (r: seq<T>)
    requires InRange(|pool|, picks)
    ensures |r| == |picks|
    decreases |picks|
  {
    if picks == [] then [] else [pool[picks[0]]] + Erased(DropAt(pool, picks[0]), picks[1..])
  }

  lemma DropAtElements<T>(s: seq<T>, i: nat)
    requires i < |s|
    ensures multiset(s) == multiset{s[i]} + multiset(DropAt(s, i))
  {
    assert s == s[..i] + [s[i]] + s[i + 1..];
    assert DropAt(s, i) == s[..i] + s[i + 1..];
  }

  /** Erasing everything gives a permutation. */
  lemma {:induction false} ErasedElements<T>(pool: seq<T>, picks: seq<nat>)
    requires InRange(|pool|, picks) && |picks| == |pool|
    ensures multiset(Erased(pool, picks)) == multiset(pool)
    decreases |picks|
  {
    if picks == [] {
      assert pool == [];
    } else {
      DropAtElements(pool, picks[0]);
      ErasedElements(DropAt(pool, picks[0]), picks[1..]);
    }
  }

  lemma DropAtDistinct<T>(s: seq<T>, i: nat)
    requires i < |s| && Distinct(s)
    ensures Distinct(DropAt(s, i))
  {
  }

  lemma ErasedHead<T>(pool: seq<T>, p: seq<nat>)
    requires InRange(|pool|, p) && p != []
    ensures InRange(|pool| - 1, p[1..]) && Erased(pool, p) == [pool[p[0]]] + Erased(DropAt(pool, p[0]), p[1..])
  {
  }

  lemma SameHead<T>(x: T, s: seq<T>, y: T, t: seq<T>)
    requires [x] + s == [y] + t
    ensures x == y && s == t
  {
    assert ([x] + s)[0] == x && ([y] + t)[0] == y;
    assert ([x] + s)[1..] == s && ([y] + t)[1..] == t;
  }

  /** Different picks erase different sequences. */
  lemma {:induction false} ErasedInjective<T(!new)>(pool: seq<T>, p: seq<nat>, q: seq<nat>)
    requires Distinct(pool) && InRange(|pool|, p) && InRange(|pool|, q) && Erased(pool, p) == Erased(pool, q)
    ensures p == q
    decreases |p|
  {
    assert |Erased(pool, p)| == |p| && |Erased(pool, q)| == |q|;
    if p != [] {
      ErasedHead(pool, p);
      ErasedHead(pool, q);
      hide Distinct, Erased;
      SameHead(pool[p[0]], Erased(DropAt(pool, p[0]), p[1..]), pool[q[0]], Erased(DropAt(pool, q[0]), q[1..]));
      OnePlace(pool, p[0], q[0]);
      DropAtDistinct(pool, p[0]);
      ErasedInjective(DropAt(pool, p[0]), p[1..], q[1..]);
      assert p == [p[0]] + p[1..] && q == [q[0]] + q[1..];
    }
  }

  lemma RestElements<T>(pool: seq<T>, out: seq<T>, i: nat)
    requires multiset(out) == multiset(pool) && out != [] && i < |pool| && pool[i] == out[0]
    ensures multiset(out[1..]) == multiset(DropAt(pool, i))
  {
    DropAtElements(pool, i);
    assert out == [out[0]] + out[1..];
    assert multiset(out[1..]) == multiset(out) - multiset{out[0]};
  }

  /** Every permutation is erased by some picks. */
  lemma {:induction false} ErasedSurjective<T>(pool: seq<T>, out: seq<T>) returns (picks: seq<nat>)
    requires multiset(out) == multiset(pool)
    ensures InRange(|pool|, picks) && |picks| == |pool| && Erased(pool, picks) == out
    decreases |out|
  {
    SameSize(out, pool);
    if out == [] {
      picks := [];
    } else {
      assert out[0] in multiset(pool);
      var i: nat :| i < |pool| && pool[i] == out[0];
      RestElements(pool, out, i);
      var rest := ErasedSurjective(DropAt(pool, i), out[1..]);
      picks := [i] + rest;
      assert picks[1..] == rest && [out[0]] + out[1..] == out;
    }
  }

  /** The numbers below n not among these. */
  function Unused(n: nat, p: seq<nat>): set<nat> {
    set v | 0 <= v < n && v !in p
  }

  function Below(s: set<nat>, x: nat): set<nat> {
    set v | v in s && v < x
  }

  /** What the i-th pick means: it takes the unused number with so many unused numbers below it. */
  ghost predicate TakesByRank(n: nat, p: seq<nat>, i: nat, pick: nat)
    requires i < |p|
  {
    p[i] in Unused(n, p[..i]) && |Below(Unused(n, p[..i]), p[i])| == pick
  }

  ghost predicate Ascends(s: seq<nat>) {
    forall i, j :: 0 <= i < j < |s| ==> s[i] < s[j]
  }

  lemma BelowNext(s: seq<nat>, all: set<nat>, k: nat)
    requires Ascends(s) && 0 < k < |s| && forall v :: v in all <==> v in s
    ensures Below(all, s[k]) == Below(all, s[k - 1]) + {s[k - 1]}
  {
    forall v | v in Below(all, s[k])
      ensures v in Below(all, s[k - 1]) + {s[k - 1]}
    {
      var i :| 0 <= i < |s| && s[i] == v;
      assert i <= k - 1;
    }
  }

  lemma {:induction false} RankInOrder(s: seq<nat>, all: set<nat>, k: nat)
    requires Ascends(s) && k < |s| && forall v :: v in all <==> v in s
    ensures |Below(all, s[k])| == k
    decreases k
  {
    if k == 0 {
      assert Below(all, s[0]) == {};
    } else {
      RankInOrder(s, all, k - 1);
      BelowNext(s, all, k);
      hide Ascends;
    }
  }

  /** The remaining elements are the unused numbers, in order. */
  ghost predicate RemainsOf(n: nat, p: seq<nat>, remaining: seq<nat>) {
    Ascends(remaining) && forall v :: v in remaining <==> v in Unused(n, p)
  }

  lemma RemainsNext(n: nat, p: seq<nat>, remaining: seq<nat>, pick: nat)
    requires RemainsOf(n, p, remaining) && pick < |remaining|
    ensures RemainsOf(n, p + [remaining[pick]], DropAt(remaining, pick))
  {
    var rest, x := DropAt(remaining, pick), remaining[pick];
    forall v
      ensures v in rest <==> v in remaining && v != x
    {
      if v in remaining && v != x {
        var i :| 0 <= i < |remaining| && remaining[i] == v;
        assert rest[if i < pick then i else i - 1] == v;
      }
    }
  }

  lemma {:induction false} ErasedRanks(n: nat, front: seq<nat>, remaining: seq<nat>, picks: seq<nat>, i: nat)
    requires RemainsOf(n, front, remaining) && InRange(|remaining|, picks) && i < |picks|
    ensures TakesByRank(n, front + Erased(remaining, picks), |front| + i, picks[i])
    decreases |picks|
  {
    var x := remaining[picks[0]];
    var p := front + Erased(remaining, picks);
    assert Erased(remaining, picks) == [x] + Erased(DropAt(remaining, picks[0]), picks[1..]);
    if i == 0 {
      assert p[..|front|] == front && p[|front|] == x;
      RankHere(n, front, remaining, picks[0]);
    } else {
      RemainsNext(n, front, remaining, picks[0]);
      assert p == (front + [x]) + Erased(DropAt(remaining, picks[0]), picks[1..]);
      ErasedRanks(n, front + [x], DropAt(remaining, picks[0]), picks[1..], i - 1);
    }
  }

  lemma RankHere(n: nat, front: seq<nat>, remaining: seq<nat>, pick: nat)
    requires RemainsOf(n, front, remaining) && pick < |remaining|
    ensures remaining[pick] in Unused(n, front) && |Below(Unused(n, front), remaining[pick])| == pick
  {
    assert remaining[pick] in remaining;
    hide Unused;
    RankInOrder(remaining, Unused(n, front), pick);
  }

  /** The permutation erased by given picks: its i-th element is the unused number of rank picks[i]. */
  lemma ErasedMeans(n: nat, picks: seq<nat>, i: nat)
    requires InRange(n, picks) && i < |picks|
    ensures TakesByRank(n, Erased(Identity(n), picks), i, picks[i])
  {
    assert RemainsOf(n, [], Identity(n)) by { IdentityRemains(n); }
    ErasedRanks(n, [], Identity(n), picks, i);
    assert [] + Erased(Identity(n), picks) == Erased(Identity(n), picks);
  }

  lemma IdentityRemains(n: nat)
    ensures RemainsOf(n, [], Identity(n))
  {
    var s := Identity(n);
    forall v | v in Unused(n, [])
      ensures v in s
    {
      assert s[v] == v;
    }
  }

  /** The picks drawn from this place on, among n elements, then n - 1, and so on. */
  function Picks(tape: Tape, start: nat, n: nat): (r: seq<nat>)
    requires start + n <= |tape|
    ensures InRange(n, r) && |r| == n
    ensures forall i :: 0 <= i < n ==> r[i] == Picked(tape[start + i], n - i)
  {
    var r := seq<nat>(n, i requires 0 <= i < n => Picked(tape[start + i], n - i));
    assert forall i :: 0 <= i < n ==> r[i] == Picked(tape[start + i], n - i);
    r
  }

  lemma PicksTail(tape: Tape, start: nat, n: nat)
    requires start + n <= |tape| && n > 0
    ensures Picks(tape, start, n)[0] == Picked(tape[start], n) && Picks(tape, start, n)[1..] == Picks(tape, start + 1, n - 1)
  {
    hide Picked;
  }

  /** The permutation these draws make. */
  function DrawnPermutation(tape: Tape, start: nat, n: nat): (p: seq<nat>)
    requires start + n <= |tape|
    ensures Permutation(p, n)
  {
    ErasedElements(Identity(n), Picks(tape, start, n));
    Erased(Identity(n), Picks(tape, start, n))
  }

  /** What is drawn so far, followed by what the draws to come will erase. */
  ghost predicate ErasedSoFar(tape: Tape, start: nat, n: nat, p: seq<nat>, remaining: seq<nat>) {
    && |p| + |remaining| == n && start + |p| <= |tape|
    && (start + n <= |tape| ==> p + Erased(remaining, Picks(tape, start + |p|, |remaining|)) == DrawnPermutation(tape, start, n))
  }

  lemma ErasedNext(tape: Tape, start: nat, n: nat, p: seq<nat>, remaining: seq<nat>)
    requires ErasedSoFar(tape, start, n, p, remaining) && remaining != [] && start + |p| < |tape|
    ensures var picked := Picked(tape[start + |p|], |remaining|);
            ErasedSoFar(tape, start, n, p + [remaining[picked]], DropAt(remaining, picked))
  {
    hide Picked, DrawnPermutation;
    if start + n <= |tape| {
      var at, k := start + |p|, |remaining|;
      PicksTail(tape, at, k);
      var picked := Picked(tape[at], k);
      var rest := Erased(DropAt(remaining, picked), Picks(tape, at + 1, k - 1));
      assert p + ([remaining[picked]] + rest) == (p + [remaining[picked]]) + rest;
    }
  }

  /** The permutation drawn by removing a random element of what remains, until nothing does. */
  method ErasePermutation(n: nat, tape: Tape, start: nat) returns (ok: bool, p: seq<nat>)
    requires start <= |tape|
    ensures ok <==> start + n <= |tape|
    ensures ok ==> p == DrawnPermutation(tape, start, n)
  {
    hide Picked, DrawnPermutation;
    var remaining := Identity(n);
    p := [];
    NothingErased(tape, start, n);
    hide ErasedSoFar, Identity;
    while remaining != []
      invariant |p| + |remaining| == n && start + |p| <= |tape| && ErasedSoFar(tape, start, n, p, remaining)
      decreases |remaining|
    {
      if start + |p| == |tape| {
        return false, p;
      }
      var picked := Picked(tape[start + |p|], |remaining|);
      ErasedNext(tape, start, n, p, remaining);
      p := p + [remaining[picked]];
      remaining := DropAt(remaining, picked);
    }
    AllErased(tape, start, n, p);
    ok := true;
  }

  lemma NothingErased(tape: Tape, start: nat, n: nat)
    requires start <= |tape|
    ensures ErasedSoFar(tape, start, n, [], Identity(n))
  {
    if start + n <= |tape| {
      var all := Erased(Identity(n), Picks(tape, start, n));
      assert [] + all == all;
    }
  }

  lemma AllErased(tape: Tape, start: nat, n: nat, p: seq<nat>)
    requires ErasedSoFar(tape, start, n, p, []) && start + n <= |tape|
    ensures p == DrawnPermutation(tape, start, n)
  {
    hide DrawnPermutation;
    assert p + [] == p;
  }

  /** Where the draws of replicate k begin. */
  function Place(k: nat, n: nat): nat { k * n }

  lemma NextPlace(k: nat, n: nat)
    ensures Place(0, n) == 0 && Place(k + 1, n) == Place(k, n) + n
  {
  }

  /** Replicate after replicate, the draws of the tape from its beginning. */
  ghost predicate ReplicatesDrawn(tape: Tape, n: nat, ps: seq<seq<nat>>) {
    forall k :: 0 <= k < |ps| ==> Place(k, n) + n <= |tape| && ps[k] == DrawnPermutation(tape, Place(k, n), n)
  }

  /** The permutation test that draws its permutations, one a replicate. It fails exactly if the tape ends
      within a replicate. */
  method DrawnPermutationTest(x: Vector, y: Vector, power: real -> real, replicates: nat, includeObserved: bool, tape: Tape)
    returns (ok: bool, statistic: real, p: real, ghost ps: seq<seq<nat>>)
    requires |x| == |y| >= 2
    ensures statistic == Statistic(x, y, power)
    ensures |ps| <= replicates && ReplicatesDrawn(tape, |y|, ps) && (ok <==> |ps| == replicates)
    ensures !ok ==> |tape| < Place(|ps| + 1, |y|)
    ensures forall k :: 0 <= k < |ps| ==> Permutation(ps[k], |y|)
    ensures var extra := if includeObserved then 1 else 0;
            ok ==> p == if |ps| + extra == 0 then 1.0
                        else (Exceedances(x, y, ps, power) + extra) as real / (|ps| + extra) as real
  {
    hide Inner, Centered, Place, DrawnPermutation, Permutation;
    var n := |y|;
    var a := CenterDistance(Distances(x, power));
    var b := CenterDistance(Distances(y, power));
    statistic := StatisticFromCentered(a, b);
    assert statistic == Statistic(x, y, power);
    hide Statistic;
    var exceedances := if includeObserved then 1 else 0;
    var at := 0;
    ps, p := [], 1.0;
    NextPlace(0, n);
    for k := 0 to replicates
      invariant |ps| == k && at == Place(k, n) <= |tape| && ReplicatesDrawn(tape, n, ps)
      invariant forall k :: 0 <= k < |ps| ==> Permutation(ps[k], |y|)
      invariant exceedances == Exceedances(x, y, ps, power) + (if includeObserved then 1 else 0)
    {
      NextPlace(k, n);
      var drawn, permutation := ErasePermutation(n, tape, at);
      if !drawn {
        return false, statistic, p, ps;
      }
      var reaches := Reaches(x, y, power, a, b, statistic, permutation);
      assert (ps + [permutation])[..k] == ps;
      ps, at := ps + [permutation], at + n;
      if reaches {
        exceedances := exceedances + 1;
      }
    }
    var denominator := replicates + (if includeObserved then 1 else 0);
    p := if denominator > 0 then exceedances as real / denominator as real else 1.0;
    ok := true;
  }
}
