/** Square matrices as rows of values; the program keeps them as row-major vectors. */
module Grids {

  type Grid<T> = seq<seq<T>>

  predicate Square<T>(m: Grid<T>, p: nat) {
    && |m| == p
    && forall i :: 0 <= i < p ==> |m[i]| == p
  }

  function Fill<T>(p: nat, v: T): (m: Grid<T>)
    ensures Square(m, p)
    ensures forall i, j :: 0 <= i < p && 0 <= j < p ==> m[i][j] == v
  {
    seq(p, i => seq(p, j => v))
  }

  function Put<T>(m: Grid<T>, i: nat, j: nat, v: T): (r: Grid<T>)
    requires Square(m, |m|) && i < |m| && j < |m|
    ensures Square(r, |m|)
    ensures forall a, b :: 0 <= a < |m| && 0 <= b < |m| ==> r[a][b] == if a == i && b == j then v else m[a][b]
  {
    m[i := m[i][j := v]]
  }

  /** Writes both triangles, as every symmetric update of the skeleton does. */
  function PutBoth<T>(m: Grid<T>, i: nat, j: nat, v: T): (r: Grid<T>)
    requires Square(m, |m|) && i < |m| && j < |m|
    ensures Square(r, |m|)
    ensures forall a, b :: 0 <= a < |m| && 0 <= b < |m| ==>
      r[a][b] == if (a == i && b == j) || (a == j && b == i) then v else m[a][b]
  {
    Put(Put(m, i, j, v), j, i, v)
  }

  ghost predicate Symmetric<T>(m: Grid<T>, p: nat)
    requires Square(m, p)
  {
    forall i, j :: 0 <= i < p && 0 <= j < p ==> m[i][j] == m[j][i]
  }

  lemma SameCells<T>(m: Grid<T>, w: Grid<T>, p: nat)
    requires Square(m, p) && Square(w, p)
    requires forall i, j :: 0 <= i < p && 0 <= j < p ==> m[i][j] == w[i][j]
    ensures m == w
  {
    forall i | 0 <= i < p
      ensures m[i] == w[i]
    {
    }
  }
}
