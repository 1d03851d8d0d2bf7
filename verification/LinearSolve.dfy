/** Gaussian elimination with partial pivoting, over exact reals, and the linear residuals built on it. */
module LinearSolve {
  import opened Collections
  import opened Vectors

  const PIVOT_FLOOR: real := 0.000000000001
  const NUDGE: real := 0.00000001
  const SINGULAR_FLOOR: real := 0.00000000000001

  datatype System = System(a: Matrix, b: Vector)

  predicate Sized(s: System, n: nat) { |s.a| == n && |s.b| == n && Shaped(s.a, n) }

  predicate RowHolds(s: System, i: nat, y: Vector)
    requires Sized(s, |y|) && i < |y|
  {
    Dot(s.a[i], y) == s.b[i]
  }

  predicate Solves(s: System, y: Vector)
    requires Sized(s, |y|)
  {
    forall i :: 0 <= i < |y| ==> RowHolds(s, i, y)
  }

  // --------------------------------------------------------------- the row operations

  function Swapped(s: System, k: nat, p: nat): System
    requires Sized(s, |s.b|) && k < |s.b| && p < |s.b|
  {
    System(s.a[k := s.a[p]][p := s.a[k]], s.b[k := s.b[p]][p := s.b[k]])
  }

  function Nudged(s: System, k: nat): System
    requires Sized(s, |s.b|) && k < |s.b|
  {
    s.(a := s.a[k := s.a[k][k := s.a[k][k] + NUDGE]])
  }

  function Factor(s: System, k: nat, i: nat): real
    requires Sized(s, |s.b|) && k < |s.b| && i < |s.b| && s.a[k][k] != 0.0
  {
    s.a[i][k] / s.a[k][k]
  }

  /** Rows k + 1 to m - 1 have had their multiple of row k taken off. */
  ghost predicate Reduced(s: System, t: System, k: nat, m: nat)
    requires Sized(s, |s.b|) && k < |s.b| && m <= |s.b| && s.a[k][k] != 0.0
  {
    && Sized(t, |s.b|)
    && (forall i :: 0 <= i < |s.b| && !(k < i < m) ==> t.a[i] == s.a[i] && t.b[i] == s.b[i])
    && (forall i :: k < i < m ==> t.a[i] == Plus(s.a[i], -Factor(s, k, i), s.a[k]) && t.b[i] == s.b[i] - Times(Factor(s, k, i), s.b[k]))
  }

  /** The row operation on every row below k. */
  function ReducedBy(s: System, k: nat): (t: System)
    requires Sized(s, |s.b|) && k < |s.b| && s.a[k][k] != 0.0
    ensures Reduced(s, t, k, |s.b|)
  {
    var n := |s.b|;
    System(seq(n, i requires 0 <= i < n => if i > k then Plus(s.a[i], -Factor(s, k, i), s.a[k]) else s.a[i]),
           seq(n, i requires 0 <= i < n => if i > k then s.b[i] - Times(Factor(s, k, i), s.b[k]) else s.b[i]))
  }

  lemma ReducedUnique(s: System, t: System, k: nat)
    requires Sized(s, |s.b|) && k < |s.b| && s.a[k][k] != 0.0 && Reduced(s, t, k, |s.b|)
    ensures t == ReducedBy(s, k)
  {
    hide Plus, Times, Factor;
    var r := ReducedBy(s, k);
    assert forall i :: 0 <= i < |s.b| ==> t.a[i] == r.a[i] && t.b[i] == r.b[i];
  }

  /** The first row from k to m - 1 with the largest entry in column k. */
  function PivotRow(s: System, k: nat, m: nat): (r: nat)
    requires Sized(s, |s.b|) && k < m <= |s.b|
    ensures k <= r < m && forall i :: k <= i < m ==> Abs(s.a[i][k]) <= Abs(s.a[r][k])
    ensures forall i :: k <= i < r ==> Abs(s.a[i][k]) < Abs(s.a[r][k])
  {
    if m == k + 1 then k
    else
      var r := PivotRow(s, k, m - 1);
      if Abs(s.a[m - 1][k]) > Abs(s.a[r][k]) then m - 1 else r
  }

  /** Column k has no pivot worth the name. */
  predicate Tiny(s: System, k: nat)
    requires Sized(s, |s.b|) && k < |s.b|
  {
    Abs(s.a[PivotRow(s, k, |s.b|)][k]) < PIVOT_FLOOR
  }

  /** The rows in place for eliminating column k. */
  function Arranged(s: System, k: nat): (u: System)
    requires Sized(s, |s.b|) && k < |s.b|
    ensures Sized(u, |s.b|) && |u.b| == |s.b| && Abs(u.a[k][k]) >= SINGULAR_FLOOR
  {
    if Tiny(s, k) then Swapped(Nudged(s, k), k, k) else Swapped(s, k, PivotRow(s, k, |s.b|))
  }

  /** The pivots nudged when columns k and later are eliminated. */
  function Nudges(s: System, k: nat): set<nat>
    requires Sized(s, |s.b|) && k <= |s.b|
    decreases |s.b| - k
  {
    if k == |s.b| then {}
    else (if Tiny(s, k) then {k} else {}) + Nudges(ReducedBy(Arranged(s, k), k), k + 1)
  }

  // ------------------------------------------------------------------- the invariant

  /** Below the diagonal the first k columns are zero, and their pivots are not. */
  ghost predicate Triangular(s: System, n: nat, k: nat)
    requires Sized(s, n) && k <= n
  {
    && (forall i, j :: 0 <= j < k && j < i < n ==> s.a[i][j] == 0.0)
    && (forall j :: 0 <= j < k ==> s.a[j][j] != 0.0)
  }

  predicate NoneAt(nudged: set<nat>, y: Vector) {
    forall j :: j in nudged && j < |y| ==> y[j] == 0.0
  }

  /** How far a vector is from satisfying a row. */
  function Off(s: System, i: nat, y: Vector): real
    requires Sized(s, |y|) && i < |y|
  {
    Dot(s.a[i], y) - s.b[i]
  }

  /** Where each row was at first: every row is at one place. */
  ghost predicate Order(rows: seq<nat>, n: nat) {
    && |rows| == n && Distinct(rows) && (forall i :: 0 <= i < n ==> rows[i] < n)
    && forall i: nat :: i < n ==> i in rows
  }

  /** The system with the nudges added to the original entries they belong to. */
  ghost function Perturbed(s: System, rows: seq<nat>, nudged: set<nat>): (t: System)
    requires Sized(s, |s.b|) && Order(rows, |s.b|)
    ensures Sized(t, |s.b|) && t.b == s.b
    ensures forall i, j :: 0 <= i < |s.b| && 0 <= j < |s.b| ==>
              t.a[i][j] == if j in nudged && rows[j] == i then s.a[i][j] + NUDGE else s.a[i][j]
  {
    var n := |s.b|;
    System(seq(n, i requires 0 <= i < n => seq(n, j requires 0 <= j < n =>
             if j in nudged && rows[j] == i then s.a[i][j] + NUDGE else s.a[i][j])), s.b)
  }

  lemma SameRow(u: Vector, v: Vector)
    requires |u| == |v| && forall j :: 0 <= j < |u| ==> u[j] == v[j]
    ensures u == v
  {
  }

  /** Each nudge is alone in its row. */
  lemma PerturbedRow(s: System, rows: seq<nat>, nudged: set<nat>, k: nat)
    requires Sized(s, |s.b|) && Order(rows, |s.b|) && k < |s.b|
    ensures var row := s.a[rows[k]];
            Perturbed(s, rows, nudged).a[rows[k]] == if k in nudged then row[k := row[k] + NUDGE] else row
  {
    var row, t := s.a[rows[k]], Perturbed(s, rows, nudged);
    SameRow(t.a[rows[k]], if k in nudged then row[k := row[k] + NUDGE] else row);
  }

  predicate FirstHold(s: System, m: nat, y: Vector)
    requires Sized(s, |y|) && m <= |y|
  {
    forall j :: 0 <= j < m ==> RowHolds(s, j, y)
  }

  /** Where the finished rows before it hold, a row is as far off as the row of t it comes from. */
  ghost predicate RowKept(s: System, t: System, rows: seq<nat>, k: nat, i: nat, y: Vector)
    requires Sized(s, |y|) && Sized(t, |y|) && Order(rows, |y|) && k <= |y| && i < |y|
  {
    FirstHold(s, if i < k then i else k, y) ==> Off(s, i, y) == Off(t, rows[i], y)
  }

  ghost predicate Kept(s: System, t: System, rows: seq<nat>, k: nat, y: Vector)
    requires Sized(s, |y|) && Sized(t, |y|) && Order(rows, |y|) && k <= |y|
  {
    forall i :: 0 <= i < |y| ==> RowKept(s, t, rows, k, i, y)
  }

  lemma OffNudged(u: Vector, k: nat, y: Vector)
    requires k < |u| == |y|
    ensures Dot(u[k := u[k] + NUDGE], y) == Dot(u, y) + Times(NUDGE, y[k])
  {
    DotUpdate(u, k, u[k] + NUDGE, y);
  }

  lemma NudgeKeeps(s0: System, s: System, rows: seq<nat>, nudged: set<nat>, k: nat, y: Vector)
    requires Sized(s0, |y|) && Sized(s, |y|) && Order(rows, |y|) && k < |y| && k !in nudged
    requires Kept(s, Perturbed(s0, rows, nudged), rows, k, y)
    ensures Sized(Nudged(s, k), |y|) && Kept(Nudged(s, k), Perturbed(s0, rows, nudged + {k}), rows, k, y)
  {
    var t, u, r := Perturbed(s0, rows, nudged), Perturbed(s0, rows, nudged + {k}), Nudged(s, k);
    hide Order, Perturbed;
    forall i | 0 <= i < |y|
      ensures RowKept(r, u, rows, k, i, y)
    {
      assert RowKept(s, t, rows, k, i, y);
      NudgedFirst(s, k, if i < k then i else k, y);
      PerturbedRow(s0, rows, nudged, i);
      PerturbedRow(s0, rows, nudged + {k}, i);
      if i == k {
        OffNudged(s.a[k], k, y);
        OffNudged(s0.a[rows[k]], k, y);
      }
    }
  }

  lemma NudgedFirst(s: System, k: nat, m: nat, y: Vector)
    requires Sized(s, |y|) && m <= k < |y| && Sized(Nudged(s, k), |y|)
    ensures FirstHold(Nudged(s, k), m, y) <==> FirstHold(s, m, y)
  {
    assert forall j :: 0 <= j < m ==> (RowHolds(Nudged(s, k), j, y) <==> RowHolds(s, j, y));
  }

  function Exchanged(rows: seq<nat>, k: nat, p: nat): seq<nat>
    requires k < |rows| && p < |rows|
  {
    rows[k := rows[p]][p := rows[k]]
  }

  lemma SwapKeeps(s: System, t: System, rows: seq<nat>, k: nat, p: nat, y: Vector)
    requires Sized(s, |y|) && Sized(t, |y|) && Order(rows, |y|) && k <= p < |y| && Kept(s, t, rows, k, y)
    ensures Order(Exchanged(rows, k, p), |y|)
    ensures Sized(Swapped(s, k, p), |y|) && Kept(Swapped(s, k, p), t, Exchanged(rows, k, p), k, y)
  {
    ExchangedOrder(rows, k, p, |y|);
    var r, more := Swapped(s, k, p), Exchanged(rows, k, p);
    hide Order;
    forall i | 0 <= i < |y|
      ensures RowKept(r, t, more, k, i, y)
    {
      var from := if i == k then p else if i == p then k else i;
      assert RowKept(s, t, rows, k, from, y);
      SwappedFirst(s, k, p, if i < k then i else k, y);
    }
  }

  lemma SwappedFirst(s: System, k: nat, p: nat, m: nat, y: Vector)
    requires Sized(s, |y|) && m <= k <= p < |y| && Sized(Swapped(s, k, p), |y|)
    ensures FirstHold(Swapped(s, k, p), m, y) <==> FirstHold(s, m, y)
  {
    assert forall j :: 0 <= j < m ==> (RowHolds(Swapped(s, k, p), j, y) <==> RowHolds(s, j, y));
  }

  lemma ReducedOff(s: System, r: System, k: nat, i: nat, y: Vector)
    requires Sized(s, |y|) && k < i < |y| && s.a[k][k] != 0.0 && Reduced(s, r, k, |y|) && RowHolds(s, k, y)
    ensures Off(r, i, y) == Off(s, i, y)
  {
    hide Times, Factor;
    DotPlus(s.a[i], -Factor(s, k, i), s.a[k], y);
    TimesNegative(Factor(s, k, i), s.b[k]);
  }

  lemma ReduceKeeps(s: System, t: System, r: System, rows: seq<nat>, k: nat, y: Vector)
    requires Sized(s, |y|) && Sized(t, |y|) && Order(rows, |y|) && k < |y| && Kept(s, t, rows, k, y)
    requires s.a[k][k] != 0.0 && Reduced(s, r, k, |y|)
    ensures Kept(r, t, rows, k + 1, y)
  {
    assert forall i :: 0 <= i < |y| ==> rows[i] < |y|;
    hide Order;
    forall i | 0 <= i < |y| && FirstHold(r, if i < k + 1 then i else k + 1, y)
      ensures Off(r, i, y) == Off(t, rows[i], y)
    {
      var m := if i < k then i else k;
      assert FirstHold(s, m, y) by {
        assert forall j :: 0 <= j < m ==> RowHolds(r, j, y) && (RowHolds(r, j, y) <==> RowHolds(s, j, y));
      }
      assert RowKept(s, t, rows, k, i, y);
      if i > k {
        assert RowHolds(r, k, y);
        ReducedOff(s, r, k, i, y);
      }
    }
  }

  /** The system being eliminated, against the original one with the nudges so far added to it. */
  ghost predicate AllKept(s0: System, s: System, rows: seq<nat>, nudged: set<nat>, k: nat)
    requires Sized(s0, |s0.b|) && Sized(s, |s0.b|) && k <= |s0.b|
  {
    && Order(rows, |s0.b|)
    && forall y: Vector :: |y| == |s0.b| ==> Kept(s, Perturbed(s0, rows, nudged), rows, k, y)
  }

  lemma PerturbedSame(s: System, rows: seq<nat>, more: seq<nat>, nudged: set<nat>)
    requires Sized(s, |s.b|) && Order(rows, |s.b|) && Order(more, |s.b|)
    requires forall j :: j in nudged && j < |s.b| ==> rows[j] == more[j]
    ensures Perturbed(s, rows, nudged) == Perturbed(s, more, nudged)
  {
    var t, u := Perturbed(s, rows, nudged), Perturbed(s, more, nudged);
    forall i | 0 <= i < |s.b|
      ensures t.a[i] == u.a[i]
    {
      SameRow(t.a[i], u.a[i]);
    }
  }

  /** One column: an optional nudge, a swap, and the elimination below the diagonal. */
  lemma StepKeeps(s0: System, s: System, rows: seq<nat>, nudged: set<nat>, k: nat, p: nat, nudge: bool, t: System, y: Vector)
    requires Sized(s0, |y|) && Sized(s, |y|) && Order(rows, |y|) && k <= p < |y|
    requires Kept(s, Perturbed(s0, rows, nudged), rows, k, y)
    requires (forall j :: j in nudged ==> j < k) && (nudge ==> p == k)
    requires var u := Swapped(if nudge then Nudged(s, k) else s, k, p);
             u.a[k][k] != 0.0 && Reduced(u, t, k, |y|)
    ensures var more := Exchanged(rows, k, p);
            Sized(t, |y|) && Order(more, |y|)
            && Kept(t, Perturbed(s0, more, if nudge then nudged + {k} else nudged), more, k + 1, y)
  {
    var r, now := if nudge then Nudged(s, k) else s, if nudge then nudged + {k} else nudged;
    var u, more := Swapped(r, k, p), Exchanged(rows, k, p);
    NudgeKeeps(s0, s, rows, nudged, k, y);
    hide Kept, Nudged;
    SwapKeeps(r, Perturbed(s0, rows, now), rows, k, p, y);
    hide Swapped;
    ReduceKeeps(u, Perturbed(s0, rows, now), t, more, k, y);
    PerturbedSame(s0, rows, more, now);
  }

  // ----------------------------------------------------------------------- the solver

  method FindPivot(s: System, k: nat) returns (pivot: nat, size: real)
    requires Sized(s, |s.b|) && k < |s.b|
    ensures pivot == PivotRow(s, k, |s.b|) && size == Abs(s.a[pivot][k])
  {
    pivot, size := k, Abs(s.a[k][k]);
    for i := k + 1 to |s.b|
      invariant pivot == PivotRow(s, k, i) && size == Abs(s.a[pivot][k])
    {
      var candidate := Abs(s.a[i][k]);
      if candidate > size {
        pivot, size := i, candidate;
      }
    }
  }

  /** Only the columns from k on are swapped: before them both rows are zero. */
  method SwapRows(s: System, k: nat, p: nat) returns (t: System)
    requires Sized(s, |s.b|) && k <= p < |s.b| && Triangular(s, |s.b|, k)
    ensures t == Swapped(s, k, p)
  {
    var n := |s.b|;
    var top, low := s.a[k], s.a[p];
    for j := k to n
      invariant |top| == n && |low| == n
      invariant forall i :: 0 <= i < n ==> top[i] == (if k <= i < j then s.a[p][i] else s.a[k][i])
      invariant forall i :: 0 <= i < n ==> low[i] == (if k <= i < j then s.a[k][i] else s.a[p][i])
    {
      top, low := top[j := low[j]], low[j := top[j]];
    }
    assert top == s.a[p] && low == s.a[k];
    t := System(s.a[k := top][p := low], s.b[k := s.b[p]][p := s.b[k]]);
  }

  /** The factor clears column k exactly; the columns before it are zero already. */
  method ReduceRow(s: System, k: nat, i: nat) returns (row: Vector)
    requires Sized(s, |s.b|) && k < i < |s.b| && s.a[k][k] != 0.0
    requires forall j :: 0 <= j < k ==> s.a[i][j] == 0.0 && s.a[k][j] == 0.0
    ensures row == Plus(s.a[i], -Factor(s, k, i), s.a[k]) && row[k] == 0.0
  {
    var n := |s.b|;
    var factor := s.a[i][k] / s.a[k][k];
    row := s.a[i][k := 0.0];
    for j := k + 1 to n
      invariant |row| == n && row[k] == 0.0
      invariant forall h :: 0 <= h < n && h != k ==>
        row[h] == if k < h < j then s.a[i][h] - factor * s.a[k][h] else s.a[i][h]
    {
      row := row[j := row[j] - factor * s.a[k][j]];
    }
    var want := Plus(s.a[i], -factor, s.a[k]);
    assert forall h :: 0 <= h < n ==> row[h] == want[h];
  }

  ghost predicate ColumnSoFar(s: System, t: System, k: nat, m: nat)
    requires Sized(s, |s.b|) && k < m <= |s.b| && s.a[k][k] != 0.0
  {
    && Reduced(s, t, k, m) && Triangular(t, |s.b|, k)
    && forall h :: k < h < m ==> t.a[h][k] == 0.0
  }

  function WithRow(t: System, i: nat, row: Vector, b: real): System
    requires i < |t.a| && i < |t.b|
  {
    System(t.a[i := row], t.b[i := b])
  }

  lemma ColumnNext(s: System, t: System, k: nat, i: nat, row: Vector)
    requires Sized(s, |s.b|) && k < i < |s.b| && s.a[k][k] != 0.0 && Triangular(s, |s.b|, k) && ColumnSoFar(s, t, k, i)
    requires row == Plus(s.a[i], -Factor(s, k, i), s.a[k]) && row[k] == 0.0
    ensures ColumnSoFar(s, WithRow(t, i, row, s.b[i] - Times(Factor(s, k, i), s.b[k])), k, i + 1)
  {
    assert forall j :: 0 <= j < k ==> row[j] == 0.0;
    hide Factor, Plus, Times;
  }

  method ReduceColumn(s: System, k: nat) returns (t: System)
    requires Sized(s, |s.b|) && k < |s.b| && Triangular(s, |s.b|, k) && s.a[k][k] != 0.0
    ensures Reduced(s, t, k, |s.b|) && Triangular(t, |s.b|, k + 1)
  {
    var n := |s.b|;
    t := s;
    assert ColumnSoFar(s, t, k, k + 1);
    for i := k + 1 to n
      invariant ColumnSoFar(s, t, k, i)
    {
      assert t.a[i] == s.a[i] && t.a[k] == s.a[k] && t.b[i] == s.b[i] && t.b[k] == s.b[k];
      var row := ReduceRow(s, k, i);
      ColumnNext(s, t, k, i, row);
      hide ColumnSoFar;
      t := WithRow(t, i, row, t.b[i] - Times(s.a[i][k] / s.a[k][k], t.b[k]));
    }
  }

  lemma StepKeepsAll(s0: System, s: System, rows: seq<nat>, nudged: set<nat>, k: nat, p: nat, nudge: bool, t: System)
    requires Sized(s0, |s0.b|) && Sized(s, |s0.b|) && k <= p < |s0.b| && AllKept(s0, s, rows, nudged, k)
    requires (forall j :: j in nudged ==> j < k) && (nudge ==> p == k)
    requires var u := Swapped(if nudge then Nudged(s, k) else s, k, p);
             u.a[k][k] != 0.0 && Reduced(u, t, k, |s0.b|)
    ensures Sized(t, |s0.b|) && AllKept(s0, t, Exchanged(rows, k, p), if nudge then nudged + {k} else nudged, k + 1)
  {
    ReducedSized(Swapped(if nudge then Nudged(s, k) else s, k, p), t, k, |s0.b|);
    ExchangedOrder(rows, k, p, |s0.b|);
    hide Kept, Reduced, Nudged, Swapped, Perturbed, Order, Exchanged;
    var more, now := Exchanged(rows, k, p), if nudge then nudged + {k} else nudged;
    forall y: Vector | |y| == |s0.b|
      ensures Kept(t, Perturbed(s0, more, now), more, k + 1, y)
    {
      StepKeeps(s0, s, rows, nudged, k, p, nudge, t, y);
    }
  }

  lemma ExchangedOrder(rows: seq<nat>, k: nat, p: nat, n: nat)
    requires Order(rows, n) && k < n && p < n
    ensures Order(Exchanged(rows, k, p), n)
  {
    var more := Exchanged(rows, k, p);
    forall i: nat | i < n
      ensures i in more
    {
      var j := PlaceOf(rows, n, i);
      assert more[if j == k then p else if j == p then k else j] == i;
    }
  }

  lemma ReducedSized(s: System, t: System, k: nat, m: nat)
    requires Sized(s, |s.b|) && k < |s.b| && m <= |s.b| && s.a[k][k] != 0.0 && Reduced(s, t, k, m)
    ensures Sized(t, |s.b|)
  {
  }

  /** Pivot choice: the row with the largest entry, or row k itself, nudged, if all are tiny. */
  method Pivoted(s: System, k: nat) returns (r: System, pivot: nat, nudge: bool)
    requires Sized(s, |s.b|) && k < |s.b| && Triangular(s, |s.b|, k)
    ensures r == if nudge then Nudged(s, k) else s
    ensures k <= pivot < |s.b| && pivot == (if nudge then k else PivotRow(s, k, |s.b|))
    ensures Sized(r, |s.b|) && Triangular(r, |s.b|, k) && Abs(r.a[pivot][k]) >= SINGULAR_FLOOR
    ensures nudge == Tiny(s, k)
  {
    var size;
    pivot, size := FindPivot(s, k);
    r, nudge := s, size < PIVOT_FLOOR;
    if nudge {
      r := Nudged(s, k);
      size := Abs(r.a[k][k]);
      pivot := k;
    }
  }

  /** One elimination step. After a nudge the pivot is at least the nudge less the floor, so the
      program's singular-system error cannot occur. */
  method Step(ghost s0: System, s: System, ghost rows: seq<nat>, ghost nudged: set<nat>, k: nat)
    returns (t: System, ghost more: seq<nat>)
    requires Sized(s, |s.b|) && Sized(s0, |s.b|) && |s0.b| == |s.b| && k < |s.b| && Triangular(s, |s.b|, k)
    requires AllKept(s0, s, rows, nudged, k) && forall j :: j in nudged ==> j < k
    ensures t == ReducedBy(Arranged(s, k), k) && |t.b| == |s.b| && Triangular(t, |s.b|, k + 1)
    ensures AllKept(s0, t, more, if Tiny(s, k) then nudged + {k} else nudged, k + 1)
  {
    hide AllKept, Nudged, Reduced, PivotRow, Tiny, Exchanged;
    var r, pivot, nudge := Pivoted(s, k);
    var u := SwapRows(r, k, pivot);
    SwapTriangular(r, k, pivot);
    t := ReduceColumn(u, k);
    ReducedUnique(u, t, k);
    more := NextRows(s0, s, rows, nudged, k, pivot);
    StepKeepsAll(s0, s, rows, nudged, k, pivot, nudge, t);
  }

  ghost function NextRows(s0: System, s: System, rows: seq<nat>, nudged: set<nat>, k: nat, p: nat): seq<nat>
    requires Sized(s0, |s0.b|) && Sized(s, |s0.b|) && k <= p < |s0.b| && AllKept(s0, s, rows, nudged, k)
  {
    Exchanged(rows, k, p)
  }

  lemma SwapTriangular(s: System, k: nat, p: nat)
    requires Sized(s, |s.b|) && k <= p < |s.b| && Triangular(s, |s.b|, k) && Abs(s.a[p][k]) >= SINGULAR_FLOOR
    ensures var u := Swapped(s, k, p);
            Sized(u, |s.b|) && Triangular(u, |s.b|, k) && u.a[k][k] != 0.0
  {
  }

  method BackSubstitute(s: System) returns (x: Vector)
    requires Sized(s, |s.b|) && Triangular(s, |s.b|, |s.b|)
    ensures |x| == |s.b| && Solves(s, x)
  {
    var n := |s.b|;
    x := Zero(n);
    var i := n;
    while i > 0
      invariant 0 <= i <= n && |x| == n && forall h :: i <= h < n ==> RowHolds(s, h, x)
    {
      i := i - 1;
      var rhs := s.b[i];
      var j := i + 1;
      while j < n
        invariant i < j <= n && rhs == s.b[i] - (Dot(s.a[i][..j], x[..j]) - Dot(s.a[i][..i + 1], x[..i + 1]))
      {
        DotPrefix(s.a[i], x, j);
        rhs := rhs - s.a[i][j] * x[j];
        j := j + 1;
      }
      ghost var before := x;
      x := x[i := rhs / s.a[i][i]];
      RowSolved(s, i, before, rhs);
      forall h | i < h < n
        ensures RowHolds(s, h, x)
      {
        assert RowHolds(s, h, before);
        DotUpdate2(s.a[h], before, i, x[i]);
      }
    }
  }

  /** Changing an entry that meets a zero changes nothing. */
  lemma DotUpdate2(u: Vector, x: Vector, i: nat, v: real)
    requires |u| == |x| && i < |u| && u[i] == 0.0
    ensures Dot(u, x[i := v]) == Dot(u, x)
  {
    DotSymmetric(u, x);
    DotUpdate(x, i, v, u);
    DotSymmetric(x[i := v], u);
  }

  lemma RowSolved(s: System, i: nat, x: Vector, rhs: real)
    requires Sized(s, |x|) && i < |x| && s.a[i][i] != 0.0 && forall j :: 0 <= j < i ==> s.a[i][j] == 0.0
    requires rhs == s.b[i] - (Dot(s.a[i][..|x|], x[..|x|]) - Dot(s.a[i][..i + 1], x[..i + 1]))
    ensures RowHolds(s, i, x[i := rhs / s.a[i][i]])
  {
    var u, v := s.a[i], rhs / s.a[i][i];
    assert u[..|x|] == u && x[..|x|] == x;
    DotPrefix(u, x, i);
    DotZero(u[..i], x[..i]);
    DotSymmetric(u, x);
    DotUpdate(x, i, v, u);
    DotSymmetric(x[i := v], u);
    assert v * u[i] == rhs;
  }

  lemma NudgesStep(s: System, k: nat)
    requires Sized(s, |s.b|) && k < |s.b|
    ensures Nudges(s, k) == (if Tiny(s, k) then {k} else {}) + Nudges(ReducedBy(Arranged(s, k), k), k + 1)
  {
  }

  /** The system has a solution that vanishes where a pivot is nudged. */
  ghost predicate Solvable(s: System)
    requires Sized(s, |s.b|)
  {
    exists y: Vector :: |y| == |s.b| && Solves(s, y) && NoneAt(Nudges(s, 0), y)
  }

  lemma {:induction false} DotSingle(u: Vector, z: Vector, m: nat)
    requires |u| == |z| && m < |u| && forall j :: 0 <= j < |u| && j != m ==> u[j] == 0.0 || z[j] == 0.0
    ensures Dot(u, z) == Times(u[m], z[m])
  {
    var n := |u| - 1;
    if m < n {
      DotSingle(u[..n], z[..n], m);
    } else {
      DotNothing(u[..n], z[..n]);
    }
  }

  lemma {:induction false} DotNothing(u: Vector, z: Vector)
    requires |u| == |z| && forall j :: 0 <= j < |u| ==> u[j] == 0.0 || z[j] == 0.0
    ensures Dot(u, z) == 0.0
  {
    if u != [] {
      DotNothing(u[..|u| - 1], z[..|u| - 1]);
    }
  }

  lemma SameEntry(s: System, x: Vector, y: Vector, m: nat)
    requires Sized(s, |x|) && |y| == |x| && m < |x| && RowHolds(s, m, x) && RowHolds(s, m, y)
    requires s.a[m][m] != 0.0 && (forall j :: 0 <= j < m ==> s.a[m][j] == 0.0)
    requires forall j :: m < j < |x| ==> x[j] == y[j]
    ensures x[m] == y[m]
  {
    hide Times;
    var u, z := s.a[m], Plus(x, -1.0, y);
    DotPlus(x, -1.0, y, u);
    DotSymmetric(x, u);
    DotSymmetric(y, u);
    DotSymmetric(z, u);
    TimesNegative(1.0, Dot(u, y));
    TimesOne(Dot(u, y));
    forall j | 0 <= j < |x|
      ensures z[j] == x[j] - y[j]
    {
      TimesNegative(1.0, y[j]);
      TimesOne(y[j]);
    }
    DotSingle(u, z, m);
    TimesZero(u[m], z[m]);
  }

  lemma NonZero(a: real, b: real)
    requires a != 0.0 && b != 0.0
    ensures Times(a, b) != 0.0
  {
  }

  lemma TimesZero(a: real, b: real)
    requires a != 0.0 && Times(a, b) == 0.0
    ensures b == 0.0
  {
    if b != 0.0 {
      NonZero(a, b);
    }
  }

  /** A triangular system has one solution only. */
  lemma {:induction false} TriangularUnique(s: System, x: Vector, y: Vector, m: nat)
    requires Sized(s, |x|) && |y| == |x| && m <= |x| && Triangular(s, |x|, |x|) && Solves(s, x) && Solves(s, y)
    ensures forall j :: m <= j < |x| ==> x[j] == y[j]
    decreases |x| - m
  {
    hide RowHolds;
    if m < |x| {
      TriangularUnique(s, x, y, m + 1);
      SameEntry(s, x, y, m);
    }
  }

  /** A finished elimination has the solutions of the perturbed system. */
  lemma FinishedSolves(s0: System, s: System, rows: seq<nat>, nudged: set<nat>, y: Vector)
    requires Sized(s0, |y|) && Sized(s, |y|) && |s0.b| == |y| && AllKept(s0, s, rows, nudged, |y|)
    ensures Solves(s, y) <==> Solves(Perturbed(s0, rows, nudged), y)
  {
    var t := Perturbed(s0, rows, nudged);
    assert Kept(s, t, rows, |y|, y);
    if Solves(s, y) {
      forall i | 0 <= i < |y|
        ensures RowHolds(t, i, y)
      {
        var j := PlaceOf(rows, |y|, i);
        assert RowKept(s, t, rows, |y|, j, y);
        assert FirstHold(s, j, y) && RowHolds(s, j, y);
        assert Off(t, i, y) == 0.0;
      }
    }
    if Solves(t, y) {
      FirstRowsHold(s, t, rows, y, |y|);
    }
  }

  lemma {:induction false} FirstRowsHold(s: System, t: System, rows: seq<nat>, y: Vector, m: nat)
    requires Sized(s, |y|) && Sized(t, |y|) && Order(rows, |y|) && Kept(s, t, rows, |y|, y) && Solves(t, y) && m <= |y|
    ensures FirstHold(s, m, y)
  {
    if m > 0 {
      FirstRowsHold(s, t, rows, y, m - 1);
      assert RowKept(s, t, rows, |y|, m - 1, y);
      assert RowHolds(t, rows[m - 1], y);
    }
  }

  lemma PlaceOf(rows: seq<nat>, n: nat, i: nat) returns (j: nat)
    requires Order(rows, n) && i < n
    ensures j < n && rows[j] == i
  {
    assert i in rows;
    j :| 0 <= j < |rows| && rows[j] == i;
  }

  /** The nudges spoil a row of the original system exactly where the vector does not vanish. */
  lemma PerturbedSolves(s: System, rows: seq<nat>, nudged: set<nat>, y: Vector)
    requires Sized(s, |y|) && |s.b| == |y| && Order(rows, |y|)
    ensures NoneAt(nudged, y) ==> (Solves(s, y) <==> Solves(Perturbed(s, rows, nudged), y))
    ensures Solves(s, y) && Solves(Perturbed(s, rows, nudged), y) ==> NoneAt(nudged, y)
  {
    var t := Perturbed(s, rows, nudged);
    hide Perturbed, Order;
    forall k | 0 <= k < |y|
      ensures Off(t, rows[k], y) == Off(s, rows[k], y) + if k in nudged then Times(NUDGE, y[k]) else 0.0
    {
      PerturbedRow(s, rows, nudged, k);
      OffNudged(s.a[rows[k]], k, y);
    }
    if NoneAt(nudged, y) {
      forall i | 0 <= i < |y|
        ensures RowHolds(s, i, y) <==> RowHolds(t, i, y)
      {
        var k := PlaceOf(rows, |y|, i);
        assert Times(NUDGE, 0.0) == 0.0;
      }
    }
    if Solves(s, y) && Solves(t, y) {
      forall k | k in nudged && k < |y|
        ensures y[k] == 0.0
      {
        assert RowHolds(s, rows[k], y) && RowHolds(t, rows[k], y);
        assert Times(NUDGE, y[k]) == 0.0;
        TimesZero(NUDGE, y[k]);
      }
    }
  }

  ghost predicate OnlySolution(s: System, x: Vector)
    requires Sized(s, |x|)
  {
    Solves(s, x) && forall y: Vector :: |y| == |x| && Solves(s, y) ==> y == x
  }

  /** The exact and only solution of the original system with NUDGE added to one entry for every nudged
      pivot, each in a row and a column of its own. */
  ghost predicate SolvesNearby(s: System, x: Vector)
    requires Sized(s, |x|) && |s.b| == |x|
  {
    exists rows :: Order(rows, |x|) && OnlySolution(Perturbed(s, rows, Nudges(s, 0)), x)
  }

  lemma Concluded(s0: System, s: System, rows: seq<nat>, x: Vector)
    requires Sized(s0, |x|) && Sized(s, |x|) && |s0.b| == |x| && AllKept(s0, s, rows, Nudges(s0, 0), |x|)
    requires Triangular(s, |x|, |x|) && Solves(s, x)
    ensures SolvesNearby(s0, x)
  {
    hide Nudges, Triangular, Solves, Perturbed, Kept;
    var t := Perturbed(s0, rows, Nudges(s0, 0));
    FinishedSolves(s0, s, rows, Nudges(s0, 0), x);
    forall y: Vector | |y| == |x| && Solves(t, y)
      ensures y == x
    {
      FinishedSolves(s0, s, rows, Nudges(s0, 0), y);
      TriangularUnique(s, x, y, 0);
    }
    assert OnlySolution(t, x);
  }

  /** What the nearby solution is to the original system. */
  lemma NearbyAnswers(s: System, x: Vector)
    requires Sized(s, |x|) && |s.b| == |x| && SolvesNearby(s, x)
    ensures Solves(s, x) <==> Solvable(s)
    ensures Solves(s, x) <==> NoneAt(Nudges(s, 0), x)
  {
    hide Nudges, Solves, Perturbed, Order, NoneAt;
    var rows :| Order(rows, |x|) && OnlySolution(Perturbed(s, rows, Nudges(s, 0)), x);
    PerturbedSolves(s, rows, Nudges(s, 0), x);
    if y: Vector :| |y| == |s.b| && Solves(s, y) && NoneAt(Nudges(s, 0), y) {
      PerturbedSolves(s, rows, Nudges(s, 0), y);
      assert y == x;
    }
  }

  /** Solves the system exactly, or exactly the one nearby. So the result solves the original system if
      and only if that has a solution vanishing where a pivot is nudged; without a nudge it always does. */
  method SolveLinearSystem(a: Matrix, b: Vector) returns (x: Vector)
    requires Sized(System(a, b), |b|)
    ensures |x| == |b| && SolvesNearby(System(a, b), x)
    ensures Solves(System(a, b), x) <==> Solvable(System(a, b))
    ensures Solves(System(a, b), x) <==> NoneAt(Nudges(System(a, b), 0), x)
    ensures Nudges(System(a, b), 0) == {} ==> Solves(System(a, b), x)
  {
    hide Tiny, ReducedBy, Arranged, AllKept, Solves, Nudges, NoneAt, Solvable, SolvesNearby;
    var n := |b|;
    ghost var s0 := System(a, b);
    var s := System(a, b);
    ghost var nudged: set<nat> := {};
    ghost var rows := seq<nat>(n, i => i);
    NothingKept(s0, rows);
    for k := 0 to n
      invariant Sized(s, n) && |s.b| == n && Triangular(s, n, k) && AllKept(s0, s, rows, nudged, k)
      invariant (forall j :: j in nudged ==> j < k) && Nudges(s0, 0) == nudged + Nudges(s, k)
    {
      ghost var tiny := Tiny(s, k);
      NudgesStep(s, k);
      s, rows := Step(s0, s, rows, nudged, k);
      nudged := if tiny then nudged + {k} else nudged;
    }
    x := BackSubstitute(s);
    NoNudgesLeft(s);
    assert nudged + {} == nudged;
    Concluded(s0, s, rows, x);
    NearbyAnswers(s0, x);
    NoneNudged(x);
  }

  lemma NothingKept(s: System, rows: seq<nat>)
    requires Sized(s, |s.b|) && |rows| == |s.b| && forall i :: 0 <= i < |rows| ==> rows[i] == i
    ensures AllKept(s, s, rows, {}, 0) && Triangular(s, |s.b|, 0)
  {
    forall i: nat | i < |rows|
      ensures i in rows
    {
      assert rows[i] == i;
    }
    var t := Perturbed(s, rows, {});
    forall i | 0 <= i < |s.b|
      ensures t.a[i] == s.a[i]
    {
      SameRow(t.a[i], s.a[i]);
    }
  }

  lemma NoNudgesLeft(s: System)
    requires Sized(s, |s.b|)
    ensures Nudges(s, |s.b|) == {}
  {
  }

  lemma NoneNudged(x: Vector)
    ensures NoneAt({}, x)
  {
  }

  // ---------------------------------------------------------------------- linear residuals

  predicate Within(conditioning: seq<nat>, columns: nat) {
    forall j :: 0 <= j < |conditioning| ==> conditioning[j] < columns
  }

  /** The intercept and the conditioning columns of one observation. */
  function DesignRow(row: Vector, conditioning: seq<nat>): (d: Vector)
    requires Within(conditioning, |row|)
    ensures |d| == |conditioning| + 1 && d[0] == 1.0
    ensures forall j :: 0 <= j < |conditioning| ==> d[j + 1] == row[conditioning[j]]
  {
    [1.0] + seq(|conditioning|, j requires 0 <= j < |conditioning| => row[conditioning[j]])
  }

  predicate DataOk(data: Matrix, columns: nat, conditioning: seq<nat>) {
    Shaped(data, columns) && Within(conditioning, columns)
  }

  function Design(data: Matrix, columns: nat, conditioning: seq<nat>): (d: Matrix)
    requires DataOk(data, columns, conditioning)
    ensures |d| == |data| && Shaped(d, |conditioning| + 1)
    ensures forall r :: 0 <= r < |data| ==> d[r] == DesignRow(data[r], conditioning)
  {
    seq(|data|, r requires 0 <= r < |data| => DesignRow(data[r], conditioning))
  }

  function NormalSystem(d: Matrix, q: nat, y: Vector): (s: System)
    requires Shaped(d, q) && |y| == |d|
    ensures Normal(d, q, y, s)
  {
    System(seq(q, a requires 0 <= a < q => Combine(d, q, Column(d, q, a))), Combine(d, q, y))
  }

  lemma NormalUnique(d: Matrix, q: nat, y: Vector, s: System)
    requires Shaped(d, q) && |y| == |d| && Normal(d, q, y, s)
    ensures s == NormalSystem(d, q, y)
  {
    hide Combine;
    assert s.a == NormalSystem(d, q, y).a;
  }

  /** The normal equations of a regression of y on the columns of d. */
  ghost predicate Normal(d: Matrix, q: nat, y: Vector, s: System)
    requires Shaped(d, q) && |y| == |d|
  {
    Sized(s, q) && s.b == Combine(d, q, y) && forall a :: 0 <= a < q ==> s.a[a] == Combine(d, q, Column(d, q, a))
  }

  method AddObservation(s: System, design: Vector, response: real) returns (t: System)
    requires Sized(s, |design|)
    ensures Sized(t, |design|) && t.b == Plus(s.b, response, design)
    ensures forall a :: 0 <= a < |design| ==> t.a[a] == Plus(s.a[a], design[a], design)
  {
    hide Times;
    var q := |design|;
    t := s;
    for a := 0 to q
      invariant Sized(t, q)
      invariant forall i :: 0 <= i < q ==> t.b[i] == if i < a then s.b[i] + Times(response, design[i]) else s.b[i]
      invariant forall i :: 0 <= i < q ==> t.a[i] == if i < a then Plus(s.a[i], design[i], design) else s.a[i]
    {
      TimesCommutes(design[a], response);
      var row := t.a[a];
      for b := 0 to q
        invariant |row| == q
        invariant forall i :: 0 <= i < q ==> row[i] == if i < b then s.a[a][i] + Times(design[a], design[i]) else s.a[a][i]
      {
        row := row[b := row[b] + Times(design[a], design[b])];
      }
      assert row == Plus(s.a[a], design[a], design);
      t := System(t.a[a := row], t.b[a := t.b[a] + Times(design[a], response)]);
    }
    assert t.b == Plus(s.b, response, design);
  }

  lemma NormalNext(d: Matrix, q: nat, y: Vector, n: nat, s: System, t: System)
    requires Shaped(d, q) && |y| == |d| && n < |d| && Normal(d[..n], q, y[..n], s)
    requires Sized(t, q) && t.b == Plus(s.b, y[n], d[n]) && forall a :: 0 <= a < q ==> t.a[a] == Plus(s.a[a], d[n][a], d[n])
    ensures Normal(d[..n + 1], q, y[..n + 1], t)
  {
    hide Plus;
    var e := d[..n + 1];
    assert e[..n] == d[..n] && y[..n + 1][..n] == y[..n];
    forall a | 0 <= a < q
      ensures t.a[a] == Combine(e, q, Column(e, q, a))
    {
      assert Column(e, q, a)[..n] == Column(d[..n], q, a);
    }
  }

  method NormalEquations(data: Matrix, columns: nat, target: nat, conditioning: seq<nat>) returns (s: System)
    requires DataOk(data, columns, conditioning) && target < columns
    ensures Normal(Design(data, columns, conditioning), |conditioning| + 1, Column(data, columns, target), s)
  {
    hide Normal;
    var q := |conditioning| + 1;
    ghost var d, y := Design(data, columns, conditioning), Column(data, columns, target);
    s := System(seq(q, _ => Zero(q)), Zero(q));
    NormalNothing(d, q, y, s);
    for n := 0 to |data|
      invariant Sized(s, q) && Normal(d[..n], q, y[..n], s)
    {
      ghost var before := s;
      s := AddObservation(s, DesignRow(data[n], conditioning), data[n][target]);
      NormalNext(d, q, y, n, before, s);
    }
    assert d[..|data|] == d && y[..|data|] == y;
  }

  lemma NormalNothing(d: Matrix, q: nat, y: Vector, s: System)
    requires Shaped(d, q) && |y| == |d| && s == System(seq(q, _ => Zero(q)), Zero(q))
    ensures Normal(d[..0], q, y[..0], s)
  {
  }

  ghost predicate Orthogonal(d: Matrix, q: nat, r: Vector)
    requires Shaped(d, q) && |r| == |d|
  {
    forall a :: 0 <= a < q ==> Dot(r, Column(d, q, a)) == 0.0
  }

  ghost predicate Residual(d: Matrix, q: nat, y: Vector, beta: Vector, r: Vector)
    requires Shaped(d, q) && |y| == |d| && |beta| == q
  {
    |r| == |d| && forall i :: 0 <= i < |d| ==> r[i] == y[i] - Dot(d[i], beta)
  }

  lemma ResidualIs(d: Matrix, q: nat, y: Vector, beta: Vector, r: Vector)
    requires Shaped(d, q) && |y| == |d| && |beta| == q && Residual(d, q, y, beta, r)
    ensures r == Plus(y, -1.0, Fit(d, q, beta))
  {
    var want := Plus(y, -1.0, Fit(d, q, beta));
    assert forall i :: 0 <= i < |d| ==> r[i] == want[i];
  }

  /** Row a of the normal equations holds exactly when the residuals are orthogonal to column a. */
  lemma RowIsOrthogonality(d: Matrix, q: nat, y: Vector, s: System, beta: Vector, r: Vector, a: nat)
    requires Shaped(d, q) && |y| == |d| && |beta| == q && a < q
    requires Normal(d, q, y, s) && Residual(d, q, y, beta, r)
    ensures RowHolds(s, a, beta) <==> Dot(r, Column(d, q, a)) == 0.0
  {
    hide Combine, Plus, Times;
    var c, f := Column(d, q, a), Fit(d, q, beta);
    DotCombine(d, q, c, beta);
    CombineAt(d, q, y, a);
    ResidualIs(d, q, y, beta, r);
    DotPlus(y, -1.0, f, c);
    DotSymmetric(f, c);
    TimesNegative(1.0, Dot(f, c));
    TimesOne(Dot(f, c));
  }

  lemma DataRows(data: Matrix, columns: nat, conditioning: seq<nat>)
    requires DataOk(data, columns, conditioning)
    ensures forall r :: 0 <= r < |data| ==> |data[r]| == columns && Within(conditioning, |data[r]|)
  {
  }

  method Residuals(data: Matrix, columns: nat, target: nat, conditioning: seq<nat>, beta: Vector) returns (residuals: Vector)
    requires DataOk(data, columns, conditioning) && target < columns && |beta| == |conditioning| + 1
    ensures Residual(Design(data, columns, conditioning), |beta|, Column(data, columns, target), beta, residuals)
  {
    hide Dot, DesignRow, Shaped, Within;
    residuals := [];
    DataRows(data, columns, conditioning);
    for n := 0 to |data|
      invariant |residuals| == n
      invariant forall i :: 0 <= i < n ==> residuals[i] == data[i][target] - Dot(DesignRow(data[i], conditioning), beta)
    {
      var fitted := FittedValue(data[n], conditioning, beta);
      residuals := residuals + [data[n][target] - fitted];
    }
  }

  /** Residuals of the regression on the intercept and the conditioning columns. They are orthogonal to all
      of them if and only if the normal equations have a solution vanishing where a pivot is nudged, which
      the coefficients then are; without a nudge they always are. */
  method ResidualizeLm(data: Matrix, columns: nat, target: nat, conditioning: seq<nat>)
    returns (residuals: Vector, beta: Vector)
    requires DataOk(data, columns, conditioning) && target < columns
    ensures |beta| == |conditioning| + 1
    ensures Residual(Design(data, columns, conditioning), |beta|, Column(data, columns, target), beta, residuals)
    ensures SolvesNearby(NormalSystem(Design(data, columns, conditioning), |beta|, Column(data, columns, target)), beta)
    ensures var s := NormalSystem(Design(data, columns, conditioning), |beta|, Column(data, columns, target));
            && (Orthogonal(Design(data, columns, conditioning), |beta|, residuals) <==> Solvable(s))
            && (Nudges(s, 0) == {} ==> Orthogonal(Design(data, columns, conditioning), |beta|, residuals))
    ensures Orthogonal(Design(data, columns, conditioning), |beta|, residuals) <==>
            NoneAt(Nudges(NormalSystem(Design(data, columns, conditioning), |beta|, Column(data, columns, target)), 0), beta)
  {
    hide Normal, Solves, Nudges, NormalSystem, NoneAt, Residual, Orthogonal, Solvable, SolvesNearby;
    ghost var d, q, y := Design(data, columns, conditioning), |conditioning| + 1, Column(data, columns, target);
    var s := NormalEquations(data, columns, target, conditioning);
    NormalSized(d, q, y, s);
    NormalUnique(d, q, y, s);
    beta := SolveLinearSystem(s.a, s.b);
    residuals := Residuals(data, columns, target, conditioning, beta);
    SolvesIsOrthogonal(d, q, y, s, beta, residuals);
  }

  lemma NormalSized(d: Matrix, q: nat, y: Vector, s: System)
    requires Shaped(d, q) && |y| == |d| && Normal(d, q, y, s)
    ensures Sized(s, q)
  {
  }

  lemma SolvesIsOrthogonal(d: Matrix, q: nat, y: Vector, s: System, beta: Vector, r: Vector)
    requires Shaped(d, q) && |y| == |d| && |beta| == q && Normal(d, q, y, s) && Residual(d, q, y, beta, r)
    ensures Solves(s, beta) <==> Orthogonal(d, q, r)
  {
    NormalSized(d, q, y, s);
    hide RowHolds, Normal;
    forall a | 0 <= a < q
      ensures RowHolds(s, a, beta) <==> Dot(r, Column(d, q, a)) == 0.0
    {
      RowIsOrthogonality(d, q, y, s, beta, r, a);
    }
  }

  method FittedValue(row: Vector, conditioning: seq<nat>, beta: Vector) returns (fitted: real)
    requires |beta| == |conditioning| + 1 && Within(conditioning, |row|)
    ensures fitted == Dot(DesignRow(row, conditioning), beta)
  {
    var d := DesignRow(row, conditioning);
    fitted := beta[0];
    assert Dot(d[..0], beta[..0]) == 0.0;
    DotPrefix(d, beta, 0);
    for col := 1 to |beta|
      invariant fitted == Dot(d[..col], beta[..col])
    {
      DotPrefix(d, beta, col);
      TimesCommutes(beta[col], row[conditioning[col - 1]]);
      fitted := fitted + Times(beta[col], row[conditioning[col - 1]]);
    }
    assert d[..|beta|] == d && beta[..|beta|] == beta;
  }

  /** Orthogonal residuals are least-squares residuals: no other coefficients have a smaller sum of
      squares. */
  lemma LeastSquares(d: Matrix, q: nat, y: Vector, beta: Vector, r: Vector, gamma: Vector, e: Vector)
    requires Shaped(d, q) && |y| == |d| && |beta| == q && |gamma| == q
    requires Residual(d, q, y, beta, r) && Residual(d, q, y, gamma, e) && Orthogonal(d, q, r)
    ensures Dot(r, r) <= Dot(e, e)
  {
    assert |r| == |d| && |e| == |d|;
    hide Times, Combine, Residual, Orthogonal;
    var delta := Plus(beta, -1.0, gamma);
    var h := Fit(d, q, delta);
    Differ(d, q, y, beta, r, gamma, e, delta);
    OrthogonalFit(d, q, r, delta);
    DotPlus(r, 1.0, h, e);
    DotSymmetric(r, e);
    DotPlus(r, 1.0, h, r);
    DotSymmetric(h, e);
    DotPlus(r, 1.0, h, h);
    DotSymmetric(h, r);
    TimesOne(Dot(h, e));
    TimesOne(Dot(h, r));
    TimesOne(Dot(h, h));
    SquareNonnegative(h);
  }

  lemma Differ(d: Matrix, q: nat, y: Vector, beta: Vector, r: Vector, gamma: Vector, e: Vector, delta: Vector)
    requires Shaped(d, q) && |y| == |d| && |beta| == q && |gamma| == q && delta == Plus(beta, -1.0, gamma)
    requires Residual(d, q, y, beta, r) && Residual(d, q, y, gamma, e)
    ensures e == Plus(r, 1.0, Fit(d, q, delta))
  {
    var want := Plus(r, 1.0, Fit(d, q, delta));
    forall i | 0 <= i < |d|
      ensures e[i] == want[i]
    {
      DotSymmetric(d[i], beta);
      DotSymmetric(d[i], gamma);
      DotSymmetric(d[i], delta);
      DotPlus(beta, -1.0, gamma, d[i]);
    }
  }

  lemma OrthogonalFit(d: Matrix, q: nat, r: Vector, delta: Vector)
    requires Shaped(d, q) && |r| == |d| && |delta| == q && Orthogonal(d, q, r)
    ensures Dot(r, Fit(d, q, delta)) == 0.0
  {
    hide Combine;
    DotCombine(d, q, r, delta);
    var c := Combine(d, q, r);
    forall a | 0 <= a < q
      ensures c[a] == 0.0
    {
      CombineAt(d, q, r, a);
    }
    DotZero(c, delta);
  }

  // ------------------------------------------------------------- the nudge is not harmless

  /** Two observations of a response and of one conditioning column that hardly varies. */
  const TINY: real := 0.0000001
  const NEAR_CONSTANT: Matrix := [[0.0, 0.0], [1.0, TINY]]

  lemma DotTwo(a: real, b: real, c: real, d: real)
    ensures Dot([a, b], [c, d]) == a * c + b * d
  {
    assert [a, b][..1] == [a] && [c, d][..1] == [c];
    assert [a][..0] == [] && [c][..0] == [];
    assert Dot([a], [c]) == a * c;
  }

  function ExampleSystem(): System { System([[2.0, TINY], [TINY, TINY * TINY]], [1.0, TINY]) }

  lemma ExampleDesign()
    ensures DataOk(NEAR_CONSTANT, 2, [1])
    ensures Design(NEAR_CONSTANT, 2, [1]) == [[1.0, 0.0], [1.0, TINY]] && Column(NEAR_CONSTANT, 2, 0) == [0.0, 1.0]
  {
    assert DesignRow([0.0, 0.0], [1]) == [1.0, 0.0] && DesignRow([1.0, TINY], [1]) == [1.0, TINY];
  }

  lemma CombineTwo(r: Vector, s: Vector, u: real, v: real)
    requires |r| == |s| == 2
    ensures Combine([r, s], 2, [u, v]) == [u * r[0] + v * s[0], u * r[1] + v * s[1]]
  {
    var d, w := [r, s], [u, v];
    assert d[..1] == [r] && w[..1] == [u] && [r][..0] == [] && [u][..0] == [];
    assert Combine([], 2, []) == Zero(2);
    assert Combine([r], 2, [u]) == Plus(Zero(2), u, r);
    assert Combine(d, 2, w) == Plus(Plus(Zero(2), u, r), v, s);
  }

  lemma ExampleNormal()
    ensures NormalSystem([[1.0, 0.0], [1.0, TINY]], 2, [0.0, 1.0]) == ExampleSystem()
  {
    var d := [[1.0, 0.0], [1.0, TINY]];
    assert Column(d, 2, 0) == [1.0, 1.0] && Column(d, 2, 1) == [0.0, TINY];
    CombineTwo(d[0], d[1], 1.0, 1.0);
    CombineTwo(d[0], d[1], 0.0, TINY);
    CombineTwo(d[0], d[1], 0.0, 1.0);
    hide Combine;
    assert NormalSystem(d, 2, [0.0, 1.0]).a == ExampleSystem().a;
  }

  lemma ExampleArranged()
    ensures var s := ExampleSystem(); !Tiny(s, 0) && Arranged(s, 0) == s
  {
    var s := ExampleSystem();
    assert PivotRow(s, 0, 1) == 0 && PivotRow(s, 0, 2) == 0;
    hide PivotRow;
    assert s.a[0 := s.a[0]][0 := s.a[0]] == s.a && s.b[0 := s.b[0]][0 := s.b[0]] == s.b;
  }

  lemma ExampleReduced()
    ensures var t := ReducedBy(ExampleSystem(), 0); |t.b| == 2 && Sized(t, 2) && t.a[1][1] == TINY * TINY / 2.0
  {
    var s := ExampleSystem();
    var t := ReducedBy(s, 0);
    assert Reduced(s, t, 0, 2);
    hide ReducedBy;
    assert Factor(s, 0, 1) == TINY / 2.0;
    assert t.a[1] == Plus(s.a[1], -Factor(s, 0, 1), s.a[0]);
  }

  lemma LastTiny(t: System)
    requires |t.b| == 2 && Sized(t, 2) && 0.0 <= t.a[1][1] < PIVOT_FLOOR
    ensures 1 in Nudges(t, 1)
  {
    assert PivotRow(t, 1, 2) == 1;
    hide PivotRow;
    assert Tiny(t, 1);
    hide Tiny;
    NudgesStep(t, 1);
  }

  /** The second pivot of the example is nudged: what elimination leaves of the column is too small. */
  lemma ExampleNudged()
    ensures 1 in Nudges(ExampleSystem(), 0)
  {
    hide Tiny, Arranged, ReducedBy, Nudges;
    ExampleArranged();
    ExampleReduced();
    LastTiny(ReducedBy(ExampleSystem(), 0));
    NudgesStep(ExampleSystem(), 0);
  }

  lemma ExampleUnsolvable()
    ensures !Solvable(ExampleSystem())
  {
    var s := ExampleSystem();
    ExampleNudged();
    hide Nudges;
    forall y: Vector | |y| == 2 && Solves(s, y)
      ensures y[1] != 0.0
    {
      assert RowHolds(s, 0, y) && RowHolds(s, 1, y) && y == [y[0], y[1]];
      DotTwo(2.0, TINY, y[0], y[1]);
      DotTwo(TINY, TINY * TINY, y[0], y[1]);
    }
  }

  /** On this data the residuals are not orthogonal to the columns regressed on: the nudge spoils them. */
  method NudgedExample() returns (residuals: Vector, beta: Vector)
    ensures DataOk(NEAR_CONSTANT, 2, [1]) && |residuals| == |beta| == 2
    ensures Residual(Design(NEAR_CONSTANT, 2, [1]), 2, Column(NEAR_CONSTANT, 2, 0), beta, residuals)
    ensures !Orthogonal(Design(NEAR_CONSTANT, 2, [1]), 2, residuals)
  {
    hide Solvable, Nudges, NormalSystem, Orthogonal;
    ExampleDesign();
    ExampleNormal();
    ExampleUnsolvable();
    residuals, beta := ResidualizeLm(NEAR_CONSTANT, 2, 0, [1]);
  }
}
