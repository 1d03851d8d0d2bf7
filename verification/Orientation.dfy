/** Edge orientation on the skeleton: colliders, and the closure under three orientation rules. */
module Orientation {
  import opened Grids

  const NONE: int := 0
  const PRESENT: int := 1
  const CONFLICT: int := 2

  type Marks = Grid<int>

  predicate In(m: Marks, a: nat, b: nat) { Square(m, |m|) && a < |m| && b < |m| }

  predicate AnyEdge(m: Marks, a: nat, b: nat)
    requires In(m, a, b)
  {
    m[a][b] != NONE || m[b][a] != NONE
  }

  predicate Undirected(m: Marks, a: nat, b: nat)
    requires In(m, a, b)
  {
    m[a][b] == PRESENT && m[b][a] == PRESENT
  }

  predicate Directed(m: Marks, a: nat, b: nat)
    requires In(m, a, b)
  {
    m[a][b] == PRESENT && m[b][a] == NONE
  }

  predicate Conflicting(m: Marks, a: nat, b: nat)
    requires In(m, a, b)
  {
    m[a][b] == CONFLICT && m[b][a] == CONFLICT
  }

  function Pointed(m: Marks, from: nat, to: nat): (r: Marks)
    requires In(m, from, to)
    ensures |r| == |m| && Square(r, |m|) && (from != to ==> Directed(r, from, to))
  {
    Put(Put(m, from, to, PRESENT), to, from, NONE)
  }

  class Pdag {
    var cells: Marks

    constructor (m: Marks)
      ensures cells == m
    {
      cells := m;
    }
  }

  // ------------------------------------------------------------------ colliders

  type Sepsets = seq<seq<seq<nat>>>

  predicate SepsetContains(sepsets: Sepsets, a: nat, b: nat, node: nat) {
    a < |sepsets| && b < |sepsets[a]| && node in sepsets[a][b]
  }

  /** x - y - z is unshielded in the skeleton and y separates x and z in neither recorded set. */
  predicate Triple(m: Marks, sepsets: Sepsets, x: nat, y: nat, z: nat)
    requires Square(m, |m|)
  {
    && x < |m| && y < |m| && z < |m| && x != y && z != x && z != y
    && m[x][y] != NONE && m[y][z] != NONE && !AnyEdge(m, x, z)
    && !SepsetContains(sepsets, x, z, y) && !SepsetContains(sepsets, z, x, y)
  }

  /** Some unshielded triple demands the direction u -> v. */
  ghost predicate Demanded(m: Marks, sepsets: Sepsets, u: nat, v: nat)
    requires Square(m, |m|)
  {
    exists z: nat :: Triple(m, sepsets, u, v, z)
  }

  ghost predicate Skeleton(m: Marks) {
    && Square(m, |m|) && Symmetric(m, |m|)
    && forall i, j :: 0 <= i < |m| && 0 <= j < |m| ==> m[i][j] == NONE || (m[i][j] == PRESENT && i != j)
  }

  /** The mark at (u, v) of an edge, given which of its two directions are demanded. */
  function Cell(solve: bool, u: nat, v: nat, there: bool, back: bool): int {
    if there && back then (if solve then CONFLICT else if u < v then PRESENT else NONE)
    else if back then NONE
    else PRESENT
  }

  ghost predicate Shows(init: Marks, m: Marks, demands: set<(nat, nat)>, solve: bool) {
    && Square(init, |init|) && Square(m, |m|) && |m| == |init|
    && forall u: nat, v: nat :: u < |m| && v < |m| ==>
        m[u][v] == if init[u][v] == NONE then NONE else Cell(solve, u, v, (u, v) in demands, (v, u) in demands)
  }

  function OrientEdge(m: Marks, from: nat, to: nat, solve: bool): Marks
    requires In(m, from, to)
  {
    if !solve then Pointed(m, from, to)
    else if m[from][to] == PRESENT then Put(m, to, from, NONE)
    else PutBoth(m, from, to, CONFLICT)
  }

  /** One demand joins the edge's state with the demanded direction. Without conflict solving the last
      demand wins, so demands must come in the order of their heads. */
  lemma OrientShows(init: Marks, m: Marks, demands: set<(nat, nat)>, from: nat, to: nat, solve: bool)
    requires Skeleton(init) && Shows(init, m, demands, solve) && In(init, from, to) && init[from][to] != NONE
    requires !solve ==> forall d :: d in demands ==> d.1 <= to
    ensures Shows(init, OrientEdge(m, from, to, solve), demands + {(from, to)}, solve)
  {
    var r, more := OrientEdge(m, from, to, solve), demands + {(from, to)};
    assert from != to && init[to][from] != NONE;
    forall u: nat, v: nat | u < |r| && v < |r|
      ensures r[u][v] == if init[u][v] == NONE then NONE else Cell(solve, u, v, (u, v) in more, (v, u) in more)
    {
      assert m[u][v] == if init[u][v] == NONE then NONE else Cell(solve, u, v, (u, v) in demands, (v, u) in demands);
      assert m[v][u] == if init[v][u] == NONE then NONE else Cell(solve, v, u, (v, u) in demands, (u, v) in demands);
    }
  }

  function OrientAll(m: Marks, demands: seq<(nat, nat)>, solve: bool): (r: Marks)
    requires Square(m, |m|) && forall i :: 0 <= i < |demands| ==> In(m, demands[i].0, demands[i].1)
    ensures |r| == |m| && Square(r, |m|)
    decreases |demands|
  {
    if demands == [] then m
    else
      var n := |demands| - 1;
      assert In(m, demands[n].0, demands[n].1);
      OrientEdge(OrientAll(m, demands[..n], solve), demands[n].0, demands[n].1, solve)
  }

  function AsSet(demands: seq<(nat, nat)>): (r: set<(nat, nat)>)
    ensures forall d :: d in r <==> d in demands
  {
    if demands == [] then {} else AsSet(demands[..|demands| - 1]) + {demands[|demands| - 1]}
  }

  ghost predicate OnEdges(init: Marks, demands: seq<(nat, nat)>) {
    forall i :: 0 <= i < |demands| ==> In(init, demands[i].0, demands[i].1) && init[demands[i].0][demands[i].1] != NONE
  }

  /** With conflict solving the outcome depends only on which directions are demanded: not on the order
      or the number of the demands. */
  lemma {:induction false} DemandsJoin(init: Marks, demands: seq<(nat, nat)>)
    requires Skeleton(init) && OnEdges(init, demands)
    ensures Shows(init, OrientAll(init, demands, true), AsSet(demands), true)
    decreases |demands|
  {
    if demands == [] {
      ShowsNothing(init);
    } else {
      hide OrientEdge, Square, Shows, Skeleton;
      var n := |demands| - 1;
      DemandsJoin(init, demands[..n]);
      OrientShows(init, OrientAll(init, demands[..n], true), AsSet(demands[..n]), demands[n].0, demands[n].1, true);
      assert (demands[n].0, demands[n].1) == demands[n];
    }
  }

  lemma ShowsNothing(init: Marks)
    requires Skeleton(init)
    ensures Shows(init, init, {}, true)
  {
  }

  lemma TripleMirrors(m: Marks, sepsets: Sepsets, x: nat, y: nat, z: nat)
    requires Skeleton(m)
    ensures Triple(m, sepsets, x, y, z) <==> Triple(m, sepsets, z, y, x)
  {
  }

  /** What collider orientation makes of a skeleton. */
  ghost predicate Collided(init: Marks, sepsets: Sepsets, solve: bool, m: Marks) {
    && Square(init, |init|) && Square(m, |m|) && |m| == |init|
    && forall u: nat, v: nat :: u < |m| && v < |m| ==>
        m[u][v] == if init[u][v] == NONE then NONE
                   else Cell(solve, u, v, Demanded(init, sepsets, u, v), Demanded(init, sepsets, v, u))
  }

  /** Every triple visited so far, and nothing else, has made its two demands. */
  ghost predicate Collected(init: Marks, sepsets: Sepsets, demands: set<(nat, nat)>, y: nat, x: nat, z: nat) {
    && Square(init, |init|)
    && (forall d :: d in demands ==> d.1 <= y && Demanded(init, sepsets, d.0, d.1))
    && (forall a: nat, b: nat, c: nat :: Visited(a, b, c, y, x, z) && Triple(init, sepsets, a, b, c) ==> (a, b) in demands)
  }

  predicate Visited(a: nat, b: nat, c: nat, y: nat, x: nat, z: nat) {
    b < y || (b == y && (a < x || (a == x && c < z)))
  }

  method Orient(pdag: Pdag, from: nat, to: nat, solve: bool) returns (changed: bool)
    requires In(pdag.cells, from, to)
    modifies pdag
    ensures pdag.cells == OrientEdge(old(pdag.cells), from, to, solve)
    ensures changed <==> pdag.cells[from][to] != old(pdag.cells)[from][to] || pdag.cells[to][from] != old(pdag.cells)[to][from]
  {
    var there, back := pdag.cells[from][to], pdag.cells[to][from];
    if !solve {
      pdag.cells := Pointed(pdag.cells, from, to);
    } else if there == PRESENT {
      pdag.cells := Put(pdag.cells, to, from, NONE);
    } else {
      pdag.cells := PutBoth(pdag.cells, from, to, CONFLICT);
    }
    changed := pdag.cells[from][to] != there || pdag.cells[to][from] != back;
  }

  lemma DemandedEdge(init: Marks, sepsets: Sepsets, x: nat, y: nat, z: nat)
    requires Skeleton(init) && Triple(init, sepsets, x, y, z)
    ensures Demanded(init, sepsets, x, y) && Demanded(init, sepsets, z, y)
    ensures In(init, x, y) && In(init, z, y) && init[x][y] != NONE && init[z][y] != NONE
  {
    TripleMirrors(init, sepsets, x, y, z);
  }

  lemma CollectTriple(init: Marks, sepsets: Sepsets, demands: set<(nat, nat)>, y: nat, x: nat, z: nat)
    requires Skeleton(init) && Collected(init, sepsets, demands, y, x, z) && Triple(init, sepsets, x, y, z)
    ensures Collected(init, sepsets, demands + {(x, y)} + {(z, y)}, y, x, z + 1)
  {
    DemandedEdge(init, sepsets, x, y, z);
    hide Triple, Demanded;
    assert forall a: nat, b: nat, c: nat :: Visited(a, b, c, y, x, z + 1) ==> Visited(a, b, c, y, x, z) || (a, b, c) == (x, y, z);
  }

  lemma CollectNothing(init: Marks, sepsets: Sepsets, demands: set<(nat, nat)>, y: nat, x: nat, z: nat)
    requires Collected(init, sepsets, demands, y, x, z) && !Triple(init, sepsets, x, y, z)
    ensures Collected(init, sepsets, demands, y, x, z + 1)
  {
    hide Triple, Demanded;
    assert forall a: nat, b: nat, c: nat :: Visited(a, b, c, y, x, z + 1) ==> Visited(a, b, c, y, x, z) || (a, b, c) == (x, y, z);
  }

  lemma CollectRow(init: Marks, sepsets: Sepsets, demands: set<(nat, nat)>, y: nat, x: nat)
    requires Collected(init, sepsets, demands, y, x, |init|)
    ensures Collected(init, sepsets, demands, y, x + 1, 0)
  {
    hide Demanded;
    assert forall a: nat, b: nat, c: nat :: Visited(a, b, c, y, x + 1, 0) && c < |init| ==> Visited(a, b, c, y, x, |init|);
  }

  lemma CollectSkip(init: Marks, sepsets: Sepsets, demands: set<(nat, nat)>, y: nat, x: nat)
    requires Collected(init, sepsets, demands, y, x, 0) && y < |init| && x < |init| && (x == y || init[x][y] == NONE)
    ensures Collected(init, sepsets, demands, y, x + 1, 0)
  {
    hide Demanded;
    assert forall a: nat, b: nat, c: nat :: Visited(a, b, c, y, x + 1, 0) ==> Visited(a, b, c, y, x, 0) || (a == x && b == y);
  }

  lemma CollectHead(init: Marks, sepsets: Sepsets, demands: set<(nat, nat)>, y: nat)
    requires Collected(init, sepsets, demands, y, |init|, 0)
    ensures Collected(init, sepsets, demands, y + 1, 0, 0)
  {
    hide Demanded;
    assert forall a: nat, b: nat, c: nat :: Visited(a, b, c, y + 1, 0, 0) && a < |init| ==> Visited(a, b, c, y, |init|, 0);
  }

  lemma CollectedAll(init: Marks, sepsets: Sepsets, demands: set<(nat, nat)>, m: Marks, solve: bool)
    requires Collected(init, sepsets, demands, |init|, 0, 0) && Shows(init, m, demands, solve)
    ensures Collided(init, sepsets, solve, m)
    ensures demands == {} <==> forall a: nat, b: nat, c: nat :: !Triple(init, sepsets, a, b, c)
  {
    forall u: nat, v: nat
      ensures (u, v) in demands <==> Demanded(init, sepsets, u, v)
    {
      if Demanded(init, sepsets, u, v) {
        var z: nat :| Triple(init, sepsets, u, v, z);
        assert Visited(u, v, z, |init|, 0, 0);
      }
    }
    hide Triple;
    if demands == {} {
      forall a: nat, b: nat, c: nat
        ensures !Triple(init, sepsets, a, b, c)
      {
        assert !Demanded(init, sepsets, a, b);
      }
    } else {
      var d :| d in demands;
      assert Demanded(init, sepsets, d.0, d.1);
    }
  }

  // The count: which triples change a mark when they are oriented in turn.

  /** A triple x, y, z as visited: head y in the middle. */
  type Corner = (nat, nat, nat)

  ghost predicate CornersIn(m: Marks, ts: seq<Corner>) {
    Square(m, |m|) && forall i :: 0 <= i < |ts| ==> ts[i].0 < |m| && ts[i].1 < |m| && ts[i].2 < |m|
  }

  ghost function Turned(m: Marks, ts: seq<Corner>, solve: bool): (r: Marks)
    requires CornersIn(m, ts)
    ensures |r| == |m| && Square(r, |m|)
    decreases |ts|
  {
    if ts == [] then m
    else
      var n := |ts| - 1;
      var t := ts[n];
      OrientEdge(OrientEdge(Turned(m, ts[..n], solve), t.0, t.1, solve), t.2, t.1, solve)
  }

  /** One of the triple's two orientations changes the marks. */
  ghost predicate Changes(m: Marks, t: Corner, solve: bool)
    requires Square(m, |m|) && t.0 < |m| && t.1 < |m| && t.2 < |m|
  {
    var between := OrientEdge(m, t.0, t.1, solve);
    between != m || OrientEdge(between, t.2, t.1, solve) != between
  }

  ghost function ChangeCount(m: Marks, ts: seq<Corner>, solve: bool): nat
    requires CornersIn(m, ts)
    decreases |ts|
  {
    if ts == [] then 0
    else
      var n := |ts| - 1;
      ChangeCount(m, ts[..n], solve) + (if Changes(Turned(m, ts[..n], solve), ts[n], solve) then 1 else 0)
  }

  /** The triples visited so far, in the order of the visit. */
  ghost predicate Listed(init: Marks, sepsets: Sepsets, ts: seq<Corner>, y: nat, x: nat, z: nat) {
    && Square(init, |init|)
    && (forall i :: 0 <= i < |ts| ==> Triple(init, sepsets, ts[i].0, ts[i].1, ts[i].2) && Visited(ts[i].0, ts[i].1, ts[i].2, y, x, z))
    && (forall a: nat, b: nat, c: nat :: Visited(a, b, c, y, x, z) && Triple(init, sepsets, a, b, c) ==> (a, b, c) in ts)
    && (forall i, j :: 0 <= i < j < |ts| ==> Visited(ts[i].0, ts[i].1, ts[i].2, ts[j].1, ts[j].0, ts[j].2))
  }

  /** All triples, head by head. */
  ghost predicate Corners(init: Marks, sepsets: Sepsets, ts: seq<Corner>) {
    CornersIn(init, ts) && Listed(init, sepsets, ts, |init|, 0, 0)
  }

  ghost predicate Tallied(init: Marks, m: Marks, ts: seq<Corner>, count: nat, solve: bool) {
    CornersIn(init, ts) && m == Turned(init, ts, solve) && count == ChangeCount(init, ts, solve)
  }

  lemma TallyNext(init: Marks, m: Marks, ts: seq<Corner>, count: nat, solve: bool, t: Corner)
    requires Tallied(init, m, ts, count, solve) && t.0 < |init| && t.1 < |init| && t.2 < |init|
    ensures var between := OrientEdge(m, t.0, t.1, solve);
            Tallied(init, OrientEdge(between, t.2, t.1, solve), ts + [t], count + (if Changes(m, t, solve) then 1 else 0), solve)
  {
    hide OrientEdge, Changes;
    assert (ts + [t])[..|ts|] == ts;
  }

  lemma ListedTriple(init: Marks, sepsets: Sepsets, ts: seq<Corner>, y: nat, x: nat, z: nat)
    requires Listed(init, sepsets, ts, y, x, z) && Triple(init, sepsets, x, y, z)
    ensures Listed(init, sepsets, ts + [(x, y, z)], y, x, z + 1)
  {
    hide Triple;
    var more := ts + [(x, y, z)];
    forall a: nat, b: nat, c: nat | Visited(a, b, c, y, x, z + 1) && Triple(init, sepsets, a, b, c)
      ensures (a, b, c) in more
    {
      if !Visited(a, b, c, y, x, z) {
        assert (a, b, c) == (x, y, z) && more[|ts|] == (x, y, z);
      }
    }
  }

  /** Moving on past positions that are no triples. */
  lemma ListedOn(init: Marks, sepsets: Sepsets, ts: seq<Corner>, y: nat, x: nat, z: nat, y': nat, x': nat, z': nat)
    requires Listed(init, sepsets, ts, y, x, z)
    requires forall a: nat, b: nat, c: nat :: Visited(a, b, c, y, x, z) ==> Visited(a, b, c, y', x', z')
    requires forall a: nat, b: nat, c: nat :: Visited(a, b, c, y', x', z') && Triple(init, sepsets, a, b, c) ==> Visited(a, b, c, y, x, z)
    ensures Listed(init, sepsets, ts, y', x', z')
  {
    hide Triple, Visited;
  }

  lemma ListedNothing(init: Marks, sepsets: Sepsets, ts: seq<Corner>, y: nat, x: nat, z: nat)
    requires Listed(init, sepsets, ts, y, x, z) && !Triple(init, sepsets, x, y, z)
    ensures Listed(init, sepsets, ts, y, x, z + 1)
  {
    hide Triple;
    assert forall a: nat, b: nat, c: nat :: Visited(a, b, c, y, x, z + 1) ==> Visited(a, b, c, y, x, z) || (a, b, c) == (x, y, z);
    ListedOn(init, sepsets, ts, y, x, z, y, x, z + 1);
  }

  lemma ListedRow(init: Marks, sepsets: Sepsets, ts: seq<Corner>, y: nat, x: nat)
    requires Listed(init, sepsets, ts, y, x, |init|)
    ensures Listed(init, sepsets, ts, y, x + 1, 0)
  {
    forall a: nat, b: nat, c: nat | Visited(a, b, c, y, x + 1, 0) && Triple(init, sepsets, a, b, c)
      ensures Visited(a, b, c, y, x, |init|)
    {
      assert c < |init|;
    }
    ListedOn(init, sepsets, ts, y, x, |init|, y, x + 1, 0);
  }

  lemma ListedSkip(init: Marks, sepsets: Sepsets, ts: seq<Corner>, y: nat, x: nat)
    requires Listed(init, sepsets, ts, y, x, 0) && y < |init| && x < |init| && (x == y || init[x][y] == NONE)
    ensures Listed(init, sepsets, ts, y, x + 1, 0)
  {
    forall a: nat, b: nat, c: nat | Visited(a, b, c, y, x + 1, 0) && Triple(init, sepsets, a, b, c)
      ensures Visited(a, b, c, y, x, 0)
    {
      assert !(a == x && b == y);
    }
    ListedOn(init, sepsets, ts, y, x, 0, y, x + 1, 0);
  }

  lemma ListedHead(init: Marks, sepsets: Sepsets, ts: seq<Corner>, y: nat)
    requires Listed(init, sepsets, ts, y, |init|, 0)
    ensures Listed(init, sepsets, ts, y + 1, 0, 0)
  {
    forall a: nat, b: nat, c: nat | Visited(a, b, c, y + 1, 0, 0) && Triple(init, sepsets, a, b, c)
      ensures Visited(a, b, c, y, |init|, 0)
    {
      assert a < |init|;
    }
    ListedOn(init, sepsets, ts, y, |init|, 0, y + 1, 0, 0);
  }

  /** What the loops keep: the marks show the demands made, which are those of the triples listed. */
  ghost predicate Orienting(init: Marks, sepsets: Sepsets, solve: bool, m: Marks, count: nat, demands: set<(nat, nat)>, ts: seq<Corner>,
                            y: nat, x: nat, z: nat) {
    && Shows(init, m, demands, solve) && Collected(init, sepsets, demands, y, x, z) && (count == 0 <==> demands == {})
    && Tallied(init, m, ts, count, solve) && Listed(init, sepsets, ts, y, x, z)
  }

  /** Visits the triples head by head; a triple counts when it changes a mark. */
  method OrientColliders(pdag: Pdag, sepsets: Sepsets, solve: bool) returns (count: nat)
    requires Skeleton(pdag.cells)
    modifies pdag
    ensures Collided(old(pdag.cells), sepsets, solve, pdag.cells)
    ensures count == 0 <==> forall a: nat, b: nat, c: nat :: !Triple(old(pdag.cells), sepsets, a, b, c)
    ensures exists ts :: Corners(old(pdag.cells), sepsets, ts) && Tallied(old(pdag.cells), pdag.cells, ts, count, solve)
  {
    hide Triple, Orienting, Collided, Cell, Corners, Tallied;
    count := 0;
    var init := pdag.cells;
    ghost var demands: set<(nat, nat)>, ts: seq<Corner> := {}, [];
    Start(init, sepsets, solve);
    for y := 0 to |init|
      invariant Orienting(init, sepsets, solve, pdag.cells, count, demands, ts, y, 0, 0)
    {
      for x := 0 to |init|
        invariant Orienting(init, sepsets, solve, pdag.cells, count, demands, ts, y, x, 0)
      {
        if x == y || init[x][y] == NONE {
          OrientingSkip(init, sepsets, solve, pdag.cells, count, demands, ts, y, x);
          continue;
        }
        for z := 0 to |init|
          invariant Orienting(init, sepsets, solve, pdag.cells, count, demands, ts, y, x, z)
        {
          if z == x || z == y || init[y][z] == NONE || AnyEdge(init, x, z)
             || SepsetContains(sepsets, x, z, y) || SepsetContains(sepsets, z, x, y)
          {
            NotTriple(init, sepsets, x, y, z);
            OrientingNothing(init, sepsets, solve, pdag.cells, count, demands, ts, y, x, z);
            continue;
          }
          IsTriple(init, sepsets, x, y, z);
          count := OrientTriple(pdag, init, sepsets, demands, ts, count, x, y, z, solve);
          demands, ts := demands + {(x, y)} + {(z, y)}, ts + [(x, y, z)];
        }
        OrientingRow(init, sepsets, solve, pdag.cells, count, demands, ts, y, x);
      }
      OrientingHead(init, sepsets, solve, pdag.cells, count, demands, ts, y);
    }
    OrientingAll(init, sepsets, solve, pdag.cells, count, demands, ts);
  }

  lemma OrientingSkip(init: Marks, sepsets: Sepsets, solve: bool, m: Marks, count: nat, demands: set<(nat, nat)>, ts: seq<Corner>, y: nat, x: nat)
    requires Orienting(init, sepsets, solve, m, count, demands, ts, y, x, 0)
    requires y < |init| && x < |init| && (x == y || init[x][y] == NONE)
    ensures Orienting(init, sepsets, solve, m, count, demands, ts, y, x + 1, 0)
  {
    hide Tallied;
    CollectSkip(init, sepsets, demands, y, x);
    ListedSkip(init, sepsets, ts, y, x);
    hide Shows, Collected, Listed;
  }

  lemma OrientingNothing(init: Marks, sepsets: Sepsets, solve: bool, m: Marks, count: nat, demands: set<(nat, nat)>, ts: seq<Corner>, y: nat, x: nat, z: nat)
    requires Orienting(init, sepsets, solve, m, count, demands, ts, y, x, z) && !Triple(init, sepsets, x, y, z)
    ensures Orienting(init, sepsets, solve, m, count, demands, ts, y, x, z + 1)
  {
    hide Tallied, Triple, Shows, Collected, Listed;
    CollectNothing(init, sepsets, demands, y, x, z);
    ListedNothing(init, sepsets, ts, y, x, z);
  }

  lemma OrientingRow(init: Marks, sepsets: Sepsets, solve: bool, m: Marks, count: nat, demands: set<(nat, nat)>, ts: seq<Corner>, y: nat, x: nat)
    requires Orienting(init, sepsets, solve, m, count, demands, ts, y, x, |init|)
    ensures Orienting(init, sepsets, solve, m, count, demands, ts, y, x + 1, 0)
  {
    hide Tallied, Shows, Collected, Listed;
    CollectRow(init, sepsets, demands, y, x);
    ListedRow(init, sepsets, ts, y, x);
  }

  lemma OrientingHead(init: Marks, sepsets: Sepsets, solve: bool, m: Marks, count: nat, demands: set<(nat, nat)>, ts: seq<Corner>, y: nat)
    requires Orienting(init, sepsets, solve, m, count, demands, ts, y, |init|, 0)
    ensures Orienting(init, sepsets, solve, m, count, demands, ts, y + 1, 0, 0)
  {
    hide Tallied, Shows, Collected, Listed;
    CollectHead(init, sepsets, demands, y);
    ListedHead(init, sepsets, ts, y);
  }

  lemma OrientingAll(init: Marks, sepsets: Sepsets, solve: bool, m: Marks, count: nat, demands: set<(nat, nat)>, ts: seq<Corner>)
    requires Orienting(init, sepsets, solve, m, count, demands, ts, |init|, 0, 0)
    ensures Collided(init, sepsets, solve, m) && Corners(init, sepsets, ts) && Tallied(init, m, ts, count, solve)
    ensures count == 0 <==> forall a: nat, b: nat, c: nat :: !Triple(init, sepsets, a, b, c)
  {
    assert CornersIn(init, ts);
    hide Tallied, Shows, Collected, Listed, Collided, Triple;
    CollectedAll(init, sepsets, demands, m, solve);
  }

  lemma Start(init: Marks, sepsets: Sepsets, solve: bool)
    requires Skeleton(init)
    ensures Orienting(init, sepsets, solve, init, 0, {}, [], 0, 0, 0)
  {
  }

  lemma NotTriple(init: Marks, sepsets: Sepsets, x: nat, y: nat, z: nat)
    requires Square(init, |init|) && x < |init| && y < |init| && z < |init|
    requires z == x || z == y || init[y][z] == NONE || AnyEdge(init, x, z)
             || SepsetContains(sepsets, x, z, y) || SepsetContains(sepsets, z, x, y)
    ensures !Triple(init, sepsets, x, y, z)
  {
  }

  lemma IsTriple(init: Marks, sepsets: Sepsets, x: nat, y: nat, z: nat)
    requires Square(init, |init|) && x < |init| && y < |init| && z < |init| && x != y && z != x && z != y
    requires init[x][y] != NONE && init[y][z] != NONE && !AnyEdge(init, x, z)
    requires !SepsetContains(sepsets, x, z, y) && !SepsetContains(sepsets, z, x, y)
    ensures Triple(init, sepsets, x, y, z)
  {
  }

  /** An edge's orientation changes the marks exactly when it changes the edge's own two. */
  lemma EdgeChanges(m: Marks, from: nat, to: nat, solve: bool)
    requires In(m, from, to)
    ensures var r := OrientEdge(m, from, to, solve);
            r == m <==> r[from][to] == m[from][to] && r[to][from] == m[to][from]
  {
    var r := OrientEdge(m, from, to, solve);
    if r[from][to] == m[from][to] && r[to][from] == m[to][from] {
      SameCells(r, m, |m|);
    }
  }

  /** Orients one triple and counts it if that changed a mark; the first triple of all does. */
  method OrientTriple(pdag: Pdag, init: Marks, ghost sepsets: Sepsets, ghost demands: set<(nat, nat)>, ghost ts: seq<Corner>,
                      count: nat, x: nat, y: nat, z: nat, solve: bool)
    returns (more: nat)
    requires Skeleton(init) && Triple(init, sepsets, x, y, z)
    requires Orienting(init, sepsets, solve, pdag.cells, count, demands, ts, y, x, z)
    modifies pdag
    ensures Orienting(init, sepsets, solve, pdag.cells, more, demands + {(x, y)} + {(z, y)}, ts + [(x, y, z)], y, x, z + 1)
  {
    hide Orienting, OrientEdge, Skeleton, Triple;
    OrientingTriple(init, sepsets, solve, pdag.cells, count, demands, ts, x, y, z);
    EdgeChanges(pdag.cells, x, y, solve);
    var first := Orient(pdag, x, y, solve);
    EdgeChanges(pdag.cells, z, y, solve);
    var second := Orient(pdag, z, y, solve);
    more := count + (if first || second then 1 else 0);
  }

  lemma OrientingTriple(init: Marks, sepsets: Sepsets, solve: bool, m: Marks, count: nat, demands: set<(nat, nat)>, ts: seq<Corner>,
                        x: nat, y: nat, z: nat)
    requires Skeleton(init) && Triple(init, sepsets, x, y, z) && Orienting(init, sepsets, solve, m, count, demands, ts, y, x, z)
    ensures In(m, x, y) && In(OrientEdge(m, x, y, solve), z, y)
    ensures Orienting(init, sepsets, solve, OrientEdge(OrientEdge(m, x, y, solve), z, y, solve),
                      count + (if Changes(m, (x, y, z), solve) then 1 else 0),
                      demands + {(x, y)} + {(z, y)}, ts + [(x, y, z)], y, x, z + 1)
  {
    hide Collected, Triple, Demanded, Listed, Tallied, Shows, OrientEdge, Skeleton, Changes;
    DemandedEdge(init, sepsets, x, y, z);
    TripleShows(init, sepsets, solve, m, demands, x, y, z);
    CollectTriple(init, sepsets, demands, y, x, z);
    ListedTriple(init, sepsets, ts, y, x, z);
    TallyNext(init, m, ts, count, solve, (x, y, z));
    assert (x, y) in demands + {(x, y)};
    if demands == {} {
      FirstChanges(init, m, x, y, z, solve);
    }
  }

  lemma TripleShows(init: Marks, sepsets: Sepsets, solve: bool, m: Marks, demands: set<(nat, nat)>, x: nat, y: nat, z: nat)
    requires Skeleton(init) && Triple(init, sepsets, x, y, z)
    requires Shows(init, m, demands, solve) && Collected(init, sepsets, demands, y, x, z)
    ensures In(m, x, y) && In(OrientEdge(m, x, y, solve), z, y)
    ensures Shows(init, OrientEdge(OrientEdge(m, x, y, solve), z, y, solve), demands + {(x, y)} + {(z, y)}, solve)
  {
    DemandedEdge(init, sepsets, x, y, z);
    HeadsBelow(init, sepsets, demands, y, x, z);
    hide Collected, Triple, Demanded, Cell;
    OrientShows(init, m, demands, x, y, solve);
    OrientShows(init, OrientEdge(m, x, y, solve), demands + {(x, y)}, z, y, solve);
  }

  /** The first demand of all changes a mark. */
  lemma FirstChanges(init: Marks, m: Marks, x: nat, y: nat, z: nat, solve: bool)
    requires Skeleton(init) && Shows(init, m, {}, solve) && In(init, x, y) && init[x][y] != NONE && z < |init|
    ensures In(m, x, y) && z < |m| && Changes(m, (x, y, z), solve)
  {
    assert m[x][y] == PRESENT && m[y][x] == PRESENT;
    var r := OrientEdge(m, x, y, solve);
    assert r[y][x] == NONE;
  }

  lemma HeadsBelow(init: Marks, sepsets: Sepsets, demands: set<(nat, nat)>, y: nat, x: nat, z: nat)
    requires Collected(init, sepsets, demands, y, x, z)
    ensures forall d :: d in demands ==> d.1 <= y
  {
  }

  /** Reading the outcome: the skeleton is kept; an edge is undirected, directed or conflicting as no,
      one or both of its directions are demanded; without conflict solving there are no conflict marks
      and a doubly demanded edge points into its higher-numbered node. */
  lemma CollidersRead(init: Marks, sepsets: Sepsets, solve: bool, m: Marks, u: nat, v: nat)
    requires Skeleton(init) && Collided(init, sepsets, solve, m) && In(init, u, v) && init[u][v] != NONE
    ensures AnyEdge(m, u, v)
    ensures Undirected(m, u, v) <==> !Demanded(init, sepsets, u, v) && !Demanded(init, sepsets, v, u)
    ensures solve ==> (Directed(m, u, v) <==> Demanded(init, sepsets, u, v) && !Demanded(init, sepsets, v, u))
    ensures solve ==> (Conflicting(m, u, v) <==> Demanded(init, sepsets, u, v) && Demanded(init, sepsets, v, u))
    ensures !solve ==> (Directed(m, u, v) <==> Demanded(init, sepsets, u, v) && (u < v || !Demanded(init, sepsets, v, u)))
    ensures !solve ==> m[u][v] != CONFLICT && m[v][u] != CONFLICT
  {
    hide Demanded;
    assert init[v][u] != NONE;
  }

  lemma CollidersKeepGaps(init: Marks, sepsets: Sepsets, solve: bool, m: Marks, u: nat, v: nat)
    requires Skeleton(init) && Collided(init, sepsets, solve, m) && In(init, u, v)
    ensures AnyEdge(m, u, v) <==> AnyEdge(init, u, v)
  {
    hide Demanded;
  }

  // ----------------------------------------------------------------------- rules

  /** One application of a rule to a - b (rule 1: to b - c). */
  datatype Step = Rule1(a: nat, b: nat, c: nat) | Rule2(a: nat, b: nat, c: nat) | Rule3(a: nat, b: nat, c: nat, d: nat)

  function Tail(s: Step): nat { if s.Rule1? then s.b else s.a }

  function Head(s: Step): nat { if s.Rule1? then s.c else s.b }

  /** The rule's premises hold: the edge it directs is undirected, and its pattern is present. */
  predicate Applicable(m: Marks, s: Step)
    requires Square(m, |m|)
  {
    match s
    case Rule1(a, b, c) =>
      a < |m| && b < |m| && c < |m| && a != b && c != a && c != b
      && Directed(m, a, b) && Undirected(m, b, c) && !AnyEdge(m, a, c)
    case Rule2(a, b, c) =>
      a < |m| && b < |m| && c < |m| && a != b && c != a && c != b
      && Undirected(m, a, b) && Directed(m, a, c) && Directed(m, c, b)
    case Rule3(a, b, c, d) =>
      a < |m| && b < |m| && c < d < |m| && a != b && c != a && c != b && d != a && d != b
      && Undirected(m, a, b) && Undirected(m, a, c) && Undirected(m, a, d)
      && Directed(m, c, b) && Directed(m, d, b) && !AnyEdge(m, c, d)
  }

  ghost predicate Derivable(m: Marks, steps: seq<Step>)
    requires Square(m, |m|)
    decreases |steps|, 0
  {
    steps == []
    || (Derivable(m, steps[..|steps| - 1]) && Applicable(After(m, steps[..|steps| - 1]), steps[|steps| - 1]))
  }

  ghost function After(m: Marks, steps: seq<Step>): (r: Marks)
    requires Square(m, |m|) && Derivable(m, steps)
    ensures |r| == |m| && Square(r, |m|)
    decreases |steps|, 1
  {
    if steps == [] then m
    else
      var s := steps[|steps| - 1];
      Pointed(After(m, steps[..|steps| - 1]), Tail(s), Head(s))
  }

  lemma Extend(m: Marks, steps: seq<Step>, s: Step)
    requires Square(m, |m|) && Derivable(m, steps) && Applicable(After(m, steps), s)
    ensures Derivable(m, steps + [s]) && After(m, steps + [s]) == Pointed(After(m, steps), Tail(s), Head(s))
  {
    assert (steps + [s])[..|steps|] == steps;
  }

  lemma {:induction false} Chain(m: Marks, first: seq<Step>, second: seq<Step>)
    requires Square(m, |m|) && Derivable(m, first) && Derivable(After(m, first), second)
    ensures Derivable(m, first + second) && After(m, first + second) == After(After(m, first), second)
    decreases |second|
  {
    hide Applicable, Pointed, Square;
    if second == [] {
      assert first + second == first;
    } else {
      var n := |second| - 1;
      Chain(m, first, second[..n]);
      Extend(m, first + second[..n], second[n]);
      assert first + second == first + second[..n] + [second[n]];
    }
  }

  ghost function UndirectedPairs(m: Marks): set<(nat, nat)>
    requires Square(m, |m|)
  {
    set a: nat, b: nat | a < b < |m| && Undirected(m, a, b) :: (a, b)
  }

  lemma PointedDrops(m: Marks, from: nat, to: nat)
    requires In(m, from, to) && from != to && Undirected(m, from, to)
    ensures |UndirectedPairs(Pointed(m, from, to))| == |UndirectedPairs(m)| - 1
  {
    var pair := if from < to then (from, to) else (to, from);
    var r := Pointed(m, from, to);
    assert forall a: nat, b: nat :: a < b < |m| && (a, b) != pair ==> (Undirected(r, a, b) <==> Undirected(m, a, b));
    assert UndirectedPairs(r) == UndirectedPairs(m) - {pair};
    assert pair in UndirectedPairs(m);
  }

  /** Every step uses up one undirected edge: the counts are bounded by their number and sum to the drop. */
  lemma {:induction false} DerivationDrops(m: Marks, steps: seq<Step>)
    requires Square(m, |m|) && Derivable(m, steps)
    ensures |UndirectedPairs(After(m, steps))| == |UndirectedPairs(m)| - |steps|
    decreases |steps|
  {
    if steps != [] {
      var n := |steps| - 1;
      DerivationDrops(m, steps[..n]);
      PointedDrops(After(m, steps[..n]), Tail(steps[n]), Head(steps[n]));
    }
  }

  /** Only undirected edges change, and only to directed ones. */
  ghost predicate OnlyDirects(m: Marks, r: Marks) {
    && Square(m, |m|) && Square(r, |r|) && |r| == |m|
    && forall a: nat, b: nat :: a < |m| && b < |m| ==> EdgeKept(m, r, a, b)
  }

  ghost predicate EdgeKept(m: Marks, r: Marks, a: nat, b: nat)
    requires In(m, a, b) && In(r, a, b)
  {
    (r[a][b] == m[a][b] && r[b][a] == m[b][a]) || (Undirected(m, a, b) && (Directed(r, a, b) || Directed(r, b, a)))
  }

  lemma {:induction false} DerivationKeeps(m: Marks, steps: seq<Step>)
    requires Square(m, |m|) && Derivable(m, steps)
    ensures OnlyDirects(m, After(m, steps))
    decreases |steps|
  {
    if steps != [] {
      var n := |steps| - 1;
      DerivationKeeps(m, steps[..n]);
      var q, r := After(m, steps[..n]), After(m, steps);
      forall a: nat, b: nat | a < |m| && b < |m|
        ensures EdgeKept(m, r, a, b)
      {
        assert EdgeKept(m, q, a, b);
      }
    }
  }

  /** Directing an undirected edge, whether conflicts are solved or not: the rules never meet a directed
      or conflicting edge, so they never set a conflict mark. */
  method OrientRuleEdge(pdag: Pdag, from: nat, to: nat, solve: bool) returns (changed: bool)
    requires In(pdag.cells, from, to) && from != to
    modifies pdag
    ensures solve && !Undirected(old(pdag.cells), from, to) && Directed(old(pdag.cells), to, from) ==>
      pdag.cells == PutBoth(old(pdag.cells), from, to, CONFLICT)
    ensures solve && !Undirected(old(pdag.cells), from, to) && !Directed(old(pdag.cells), to, from) ==> pdag.cells == old(pdag.cells)
    ensures !solve || Undirected(old(pdag.cells), from, to) ==> pdag.cells == Pointed(old(pdag.cells), from, to)
    ensures Undirected(old(pdag.cells), from, to) ==> changed
  {
    var there, back := pdag.cells[from][to], pdag.cells[to][from];
    if !solve || Undirected(pdag.cells, from, to) {
      pdag.cells := Pointed(pdag.cells, from, to);
    } else if Directed(pdag.cells, to, from) {
      pdag.cells := PutBoth(pdag.cells, from, to, CONFLICT);
    }
    changed := pdag.cells[from][to] != there || pdag.cells[to][from] != back;
  }

  type Pairs = seq<(nat, nat)>

  predicate PairBefore(p: (nat, nat), q: (nat, nat)) {
    p.1 < q.1 || (p.1 == q.1 && p.0 < q.0)
  }

  predicate Matches(m: Marks, directed: bool, a: nat, b: nat)
    requires In(m, a, b)
  {
    a != b && if directed then Directed(m, a, b) else Undirected(m, a, b)
  }

  /** All directed, or all undirected, pairs, by second and then by first node. */
  ghost predicate Snapshot(m: Marks, directed: bool, pairs: Pairs) {
    && Square(m, |m|)
    && (forall p: (nat, nat) :: p in pairs <==> p.0 < |m| && p.1 < |m| && Matches(m, directed, p.0, p.1))
    && (forall i, j :: 0 <= i < j < |pairs| ==> PairBefore(pairs[i], pairs[j]))
  }

  /** The directed, or the undirected, pairs in column-first order. */
  method ScanPairs(m: Marks, directed: bool) returns (pairs: Pairs)
    requires Square(m, |m|)
    ensures Snapshot(m, directed, pairs)
  {
    pairs := [];
    for b := 0 to |m|
      invariant Scanned(m, directed, pairs, b, 0)
    {
      for a := 0 to |m|
        invariant Scanned(m, directed, pairs, b, a)
      {
        ScanNext(m, directed, pairs, b, a);
        if Matches(m, directed, a, b) {
          pairs := pairs + [(a, b)];
        }
      }
    }
  }

  ghost predicate Scanned(m: Marks, directed: bool, pairs: Pairs, b: nat, a: nat)
    requires Square(m, |m|)
  {
    && (forall p: (nat, nat) :: p in pairs <==> p.0 < |m| && p.1 < |m| && Matches(m, directed, p.0, p.1) && PairBefore(p, (a, b)))
    && (forall i, j :: 0 <= i < j < |pairs| ==> PairBefore(pairs[i], pairs[j]))
  }

  lemma ScanNext(m: Marks, directed: bool, pairs: Pairs, b: nat, a: nat)
    requires Square(m, |m|) && a < |m| && b < |m| && Scanned(m, directed, pairs, b, a)
    ensures Scanned(m, directed, if Matches(m, directed, a, b) then pairs + [(a, b)] else pairs, b, a + 1)
    ensures a + 1 == |m| ==> Scanned(m, directed, if Matches(m, directed, a, b) then pairs + [(a, b)] else pairs, b + 1, 0)
  {
    hide Matches;
    forall i | 0 <= i < |pairs|
      ensures PairBefore(pairs[i], (a, b))
    {
      assert pairs[i] in pairs;
    }
  }

  ghost predicate Deriving(m: Marks, steps: seq<Step>, r: Marks) {
    Square(m, |m|) && Derivable(m, steps) && After(m, steps) == r
  }

  // ------------------------------------------------------------------ one pass of a rule

  datatype Rule = First | Second | Third

  function RuleOf(s: Step): Rule {
    match s
    case Rule1(_, _, _) => First
    case Rule2(_, _, _) => Second
    case Rule3(_, _, _, _) => Third
  }

  function Fourth(s: Step): nat { if s.Rule3? then s.d else 0 }

  function Place(rule: Rule, a: nat, b: nat, c: nat, d: nat): Step {
    match rule
    case First => Rule1(a, b, c)
    case Second => Rule2(a, b, c)
    case Third => Rule3(a, b, c, d)
  }

  /** The order of a scan: by the second node, then the first, then the others. */
  predicate Before(s: Step, t: Step) {
    s.b < t.b || (s.b == t.b && (s.a < t.a || (s.a == t.a && (s.c < t.c || (s.c == t.c && Fourth(s) < Fourth(t))))))
  }

  /** The pass looks at this step: its pair was directed (rule 1) or undirected when the pass began. */
  predicate Visits(m: Marks, rule: Rule, s: Step) {
    && Square(m, |m|) && s.a < |m| && s.b < |m| && s.c < |m| && Fourth(s) < |m|
    && RuleOf(s) == rule && Matches(m, rule.First?, s.a, s.b)
  }

  /** So many of the steps taken come before s. */
  ghost predicate TurnAt(steps: seq<Step>, i: nat, s: Step) {
    && i <= |steps| && (forall j :: 0 <= j < i ==> Before(steps[j], s))
    && (i < |steps| ==> !Before(steps[i], s))
  }

  /** s could not be taken when it was its turn. */
  ghost predicate PassedOver(m: Marks, steps: seq<Step>, s: Step) {
    && Square(m, |m|) && Derivable(m, steps)
    && forall i: nat :: TurnAt(steps, i, s) ==> StuckAt(m, steps, i, s)
  }

  ghost predicate StuckAt(m: Marks, steps: seq<Step>, i: nat, s: Step)
    requires Square(m, |m|) && i <= |steps|
  {
    Derivable(m, steps[..i]) && !Applicable(After(m, steps[..i]), s)
  }

  /** Up to this place, each step looked at was taken exactly if it could be when it was its turn. */
  ghost predicate TakenUpTo(m: Marks, rule: Rule, steps: seq<Step>, t: Step) {
    && Square(m, |m|) && Derivable(m, steps)
    && (forall i, j :: 0 <= i < j < |steps| ==> Before(steps[i], steps[j]))
    && (forall s :: s in steps ==> Visits(m, rule, s) && Before(s, t))
    && (forall s :: Visits(m, rule, s) && Before(s, t) && s !in steps ==> PassedOver(m, steps, s))
  }

  /** The steps of a whole pass. */
  ghost predicate Pass(m: Marks, rule: Rule, steps: seq<Step>) {
    && Square(m, |m|) && Derivable(m, steps)
    && (forall i, j :: 0 <= i < j < |steps| ==> Before(steps[i], steps[j]))
    && (forall s :: s in steps ==> Visits(m, rule, s))
    && (forall s :: Visits(m, rule, s) && s !in steps ==> PassedOver(m, steps, s))
  }

  method Direct(pdag: Pdag, s: Step, solve: bool, ghost m: Marks, ghost steps: seq<Step>)
    requires Deriving(m, steps, pdag.cells) && Applicable(pdag.cells, s)
    modifies pdag
    ensures Deriving(m, steps + [s], pdag.cells)
  {
    hide Derivable, After;
    ghost var before := pdag.cells;
    var changed := OrientRuleEdge(pdag, Tail(s), Head(s), solve);
    assert changed;
    Extend(m, steps, s);
  }

  lemma PassesOver(m: Marks, steps: seq<Step>, r: Marks, s: Step)
    requires Deriving(m, steps, r) && !Applicable(r, s) && forall j :: 0 <= j < |steps| ==> Before(steps[j], s)
    ensures PassedOver(m, steps, s)
  {
    hide Derivable, After, Applicable, Before;
    assert steps[..|steps|] == steps;
  }

  /** Moving on past steps that cannot be taken now. */
  lemma MoveOn(m: Marks, rule: Rule, steps: seq<Step>, r: Marks, t: Step, t': Step)
    requires TakenUpTo(m, rule, steps, t) && Deriving(m, steps, r) && (t == t' || Before(t, t'))
    requires forall s :: Visits(m, rule, s) && Before(s, t') && !Before(s, t) ==> !Applicable(r, s)
    ensures TakenUpTo(m, rule, steps, t')
  {
    hide Derivable, After, Applicable, Visits, PassedOver, Deriving;
    forall s | Visits(m, rule, s) && Before(s, t') && s !in steps
      ensures PassedOver(m, steps, s)
    {
      if !Before(s, t) {
        forall j | 0 <= j < |steps|
          ensures Before(steps[j], s)
        {
          assert steps[j] in steps && Before(steps[j], t);
        }
        PassesOver(m, steps, r, s);
      }
    }
  }

  lemma StillPassedOver(m: Marks, steps: seq<Step>, t: Step, s: Step)
    requires PassedOver(m, steps, s) && Before(s, t) && Derivable(m, steps + [t])
    ensures PassedOver(m, steps + [t], s)
  {
    hide Derivable, After, Applicable;
    var more := steps + [t];
    forall i: nat | TurnAt(more, i, s)
      ensures StuckAt(m, more, i, s)
    {
      assert i <= |steps| by { assert i == |more| ==> Before(more[|steps|], s); }
      assert forall j :: 0 <= j < |steps| ==> more[j] == steps[j];
      assert TurnAt(steps, i, s);
      assert more[..i] == steps[..i];
    }
  }

  /** Taking the step at this place. */
  lemma TakeHere(m: Marks, rule: Rule, steps: seq<Step>, t: Step, t': Step)
    requires TakenUpTo(m, rule, steps, t) && Visits(m, rule, t) && Derivable(m, steps + [t]) && Before(t, t')
    requires forall s :: Visits(m, rule, s) && Before(s, t') && !Before(s, t) ==> s == t
    ensures TakenUpTo(m, rule, steps + [t], t')
  {
    hide Derivable, After, Applicable, Visits, PassedOver;
    var more := steps + [t];
    forall i, j | 0 <= i < j < |more|
      ensures Before(more[i], more[j])
    {
      assert steps[i] in steps;
    }
    forall s | Visits(m, rule, s) && Before(s, t') && s !in more
      ensures PassedOver(m, more, s)
    {
      assert s !in steps && s != t by { assert more[|steps|] == t; }
      StillPassedOver(m, steps, t, s);
    }
  }

  lemma PassStart(m: Marks, rule: Rule)
    requires Square(m, |m|)
    ensures TakenUpTo(m, rule, [], Place(rule, 0, 0, 0, 0))
  {
    hide Visits, PassedOver;
  }

  lemma PassEnd(m: Marks, rule: Rule, steps: seq<Step>)
    requires TakenUpTo(m, rule, steps, Place(rule, 0, |m|, 0, 0))
    ensures Pass(m, rule, steps)
  {
    hide Matches, PassedOver;
  }

  /** Where a pass over these pairs stands before pair i. */
  function AtPair(m: Marks, rule: Rule, pairs: Pairs, i: nat): Step
    requires i <= |pairs|
  {
    if i < |pairs| then Place(rule, pairs[i].0, pairs[i].1, 0, 0) else Place(rule, 0, |m|, 0, 0)
  }

  lemma NoneBetween(m: Marks, rule: Rule, pairs: Pairs, i: nat, s: Step)
    requires Snapshot(m, rule.First?, pairs) && i <= |pairs| && Visits(m, rule, s) && Before(s, AtPair(m, rule, pairs, i))
    ensures i > 0 && !PairBefore(pairs[i - 1], (s.a, s.b))
  {
    hide Matches;
    assert (s.a, s.b) in pairs;
    var j :| 0 <= j < |pairs| && pairs[j] == (s.a, s.b);
    assert i < |pairs| ==> j < i;
    assert j == i - 1 || PairBefore(pairs[j], pairs[i - 1]);
  }

  /** From the end of one pair to the next. */
  lemma NextPair(m: Marks, rule: Rule, pairs: Pairs, i: nat, steps: seq<Step>, r: Marks)
    requires Snapshot(m, rule.First?, pairs) && i < |pairs| && Deriving(m, steps, r)
    requires TakenUpTo(m, rule, steps, Place(rule, pairs[i].0, pairs[i].1, |m|, 0))
    ensures TakenUpTo(m, rule, steps, AtPair(m, rule, pairs, i + 1))
  {
    var t, t' := Place(rule, pairs[i].0, pairs[i].1, |m|, 0), AtPair(m, rule, pairs, i + 1);
    assert pairs[i] in pairs;
    assert Before(t, t');
    forall s | Visits(m, rule, s) && Before(s, t')
      ensures Before(s, t)
    {
      NoneBetween(m, rule, pairs, i + 1, s);
    }
    hide Visits, Snapshot, Deriving, TakenUpTo;
    MoveOn(m, rule, steps, r, t, t');
  }

  lemma FirstPair(m: Marks, rule: Rule, pairs: Pairs)
    requires Snapshot(m, rule.First?, pairs)
    ensures TakenUpTo(m, rule, [], AtPair(m, rule, pairs, 0))
  {
    var t, t' := Place(rule, 0, 0, 0, 0), AtPair(m, rule, pairs, 0);
    PassStart(m, rule);
    EmptyDerivation(m);
    forall s | Visits(m, rule, s)
      ensures !Before(s, t')
    {
      if Before(s, t') {
        NoneBetween(m, rule, pairs, 0, s);
      }
    }
    hide Visits, Snapshot, Deriving, TakenUpTo;
    MoveOn(m, rule, [], m, t, t');
  }

  /** Nothing of a pair can be taken now: on to its end. */
  lemma SkipPair(m: Marks, rule: Rule, steps: seq<Step>, r: Marks, a: nat, b: nat, t: Step)
    requires TakenUpTo(m, rule, steps, t) && Deriving(m, steps, r) && t.a == a && t.b == b && t.c <= |m| && RuleOf(t) == rule
    requires t.c == |m| ==> Fourth(t) == 0
    requires forall s :: Visits(m, rule, s) && s.a == a && s.b == b && !Before(s, t) ==> !Applicable(r, s)
    ensures TakenUpTo(m, rule, steps, Place(rule, a, b, |m|, 0))
  {
    var t' := Place(rule, a, b, |m|, 0);
    forall s | Visits(m, rule, s) && Before(s, t') && !Before(s, t)
      ensures s.a == a && s.b == b
    {
    }
    hide Visits, Applicable, Deriving, TakenUpTo;
    MoveOn(m, rule, steps, r, t, t');
  }

  lemma StillDirected(m: Marks, steps: seq<Step>, r: Marks, a: nat, b: nat)
    requires Deriving(m, steps, r) && In(m, a, b) && Directed(m, a, b)
    ensures In(r, a, b) && Directed(r, a, b)
  {
    DerivationKeeps(m, steps);
    assert EdgeKept(m, r, a, b);
  }

  lemma DerivingSquare(m: Marks, steps: seq<Step>, r: Marks)
    requires Deriving(m, steps, r)
    ensures Square(r, |r|) && |r| == |m| && (steps == [] ==> r == m)
  {
  }

  /** One candidate of rule 1. */
  lemma Rule1Next(m: Marks, steps: seq<Step>, r: Marks, a: nat, b: nat, c: nat)
    requires TakenUpTo(m, First, steps, Rule1(a, b, c)) && Deriving(m, steps, r) && In(m, a, b) && Matches(m, true, a, b) && c < |m|
    ensures !Applicable(r, Rule1(a, b, c)) ==> TakenUpTo(m, First, steps, Rule1(a, b, c + 1))
    ensures Applicable(r, Rule1(a, b, c)) ==> TakenUpTo(m, First, steps + [Rule1(a, b, c)], Rule1(a, b, c + 1))
  {
    var t, t' := Rule1(a, b, c), Rule1(a, b, c + 1);
    assert forall s :: Visits(m, First, s) && Before(s, t') && !Before(s, t) ==> s == t;
    assert Visits(m, First, t);
    hide Visits, Applicable, TakenUpTo;
    if Applicable(r, t) {
      Extend(m, steps, t);
      TakeHere(m, First, steps, t, t');
    } else {
      MoveOn(m, First, steps, r, t, t');
    }
  }

  /** All candidates of one directed pair. */
  method Rule1Pair(pdag: Pdag, solve: bool, ghost m: Marks, before: seq<Step>, a: nat, b: nat) returns (steps: seq<Step>)
    requires Deriving(m, before, pdag.cells) && In(m, a, b) && Matches(m, true, a, b) && TakenUpTo(m, First, before, Rule1(a, b, 0))
    modifies pdag
    ensures Deriving(m, steps, pdag.cells) && TakenUpTo(m, First, steps, Rule1(a, b, |m|))
  {
    hide Derivable, After, TakenUpTo;
    steps := before;
    DerivingSquare(m, steps, pdag.cells);
    for c := 0 to |pdag.cells|
      invariant |pdag.cells| == |m| && Deriving(m, steps, pdag.cells) && TakenUpTo(m, First, steps, Rule1(a, b, c))
    {
      DerivingSquare(m, steps, pdag.cells);
      StillDirected(m, steps, pdag.cells, a, b);
      Rule1Next(m, steps, pdag.cells, a, b, c);
      if c == a || c == b || !Undirected(pdag.cells, b, c) || AnyEdge(pdag.cells, a, c) {
        continue;
      }
      Direct(pdag, Rule1(a, b, c), solve, m, steps);
      steps := steps + [Rule1(a, b, c)];
      DerivingSquare(m, steps, pdag.cells);
    }
  }

  method ApplyRule1(pdag: Pdag, solve: bool) returns (steps: seq<Step>)
    requires Square(pdag.cells, |pdag.cells|)
    modifies pdag
    ensures Deriving(old(pdag.cells), steps, pdag.cells) && Pass(old(pdag.cells), First, steps)
  {
    ghost var m := pdag.cells;
    var pairs := ScanPairs(pdag.cells, true);
    steps := [];
    EmptyDerivation(m);
    FirstPair(m, First, pairs);
    hide Deriving, TakenUpTo, Pass, Matches;
    for i := 0 to |pairs|
      invariant Deriving(m, steps, pdag.cells) && TakenUpTo(m, First, steps, AtPair(m, First, pairs, i))
    {
      assert pairs[i] in pairs;
      steps := Rule1Pair(pdag, solve, m, steps, pairs[i].0, pairs[i].1);
      NextPair(m, First, pairs, i, steps, pdag.cells);
    }
    PassEnd(m, First, steps);
  }

  lemma EmptyDerivation(m: Marks)
    requires Square(m, |m|)
    ensures Deriving(m, [], m)
  {
  }

  lemma NotUndirected(m: Marks, a: nat, b: nat)
    requires In(m, a, b) && !Undirected(m, a, b)
    ensures forall s: Step :: !s.Rule1? && s.a == a && s.b == b ==> !Applicable(m, s)
  {
  }

  /** The step of a pair that can be taken first, taken: no other of the pair can be taken after it. */
  lemma PairTaken(m: Marks, rule: Rule, steps: seq<Step>, r: Marks, t: Step, next: Marks)
    requires TakenUpTo(m, rule, steps, Place(rule, t.a, t.b, 0, 0)) && Deriving(m, steps, r) && !rule.First? && Visits(m, rule, t)
    requires forall s :: Visits(m, rule, s) && s.a == t.a && s.b == t.b && Before(s, t) ==> !Applicable(r, s)
    requires Applicable(r, t) && Deriving(m, steps + [t], next)
    ensures TakenUpTo(m, rule, steps + [t], Place(rule, t.a, t.b, |m|, 0))
  {
    var start := Place(rule, t.a, t.b, 0, 0);
    var t' := Place(rule, t.a, t.b, t.c, Fourth(t) + 1);
    if rule.Second? {
      t' := Place(rule, t.a, t.b, t.c + 1, 0);
    }
    assert start == t || Before(start, t);
    forall s | Visits(m, rule, s) && Before(s, t) && !Before(s, start)
      ensures s.a == t.a && s.b == t.b
    {
    }
    assert forall s :: Visits(m, rule, s) && Before(s, t') && !Before(s, t) ==> s == t;
    assert Before(t, t');
    Extend(m, steps, t);
    assert !Undirected(next, t.a, t.b);
    NotUndirected(next, t.a, t.b);
    hide Applicable, TakenUpTo, Before, Derivable, After;
    MoveOn(m, rule, steps, r, start, t);
    TakeHere(m, rule, steps, t, t');
    SkipPair(m, rule, steps + [t], next, t.a, t.b, t');
  }

  lemma PairSkipped(m: Marks, rule: Rule, steps: seq<Step>, r: Marks, a: nat, b: nat)
    requires TakenUpTo(m, rule, steps, Place(rule, a, b, 0, 0)) && Deriving(m, steps, r)
    requires forall s :: Visits(m, rule, s) && s.a == a && s.b == b ==> !Applicable(r, s)
    ensures TakenUpTo(m, rule, steps, Place(rule, a, b, |m|, 0))
  {
    hide Applicable, TakenUpTo, Visits, Deriving, Before;
    SkipPair(m, rule, steps, r, a, b, Place(rule, a, b, 0, 0));
  }

  /** Each pair is looked at again before it is directed, and directed at most once. */
  method ApplyRule2(pdag: Pdag, solve: bool) returns (steps: seq<Step>)
    requires Square(pdag.cells, |pdag.cells|)
    modifies pdag
    ensures Deriving(old(pdag.cells), steps, pdag.cells) && Pass(old(pdag.cells), Second, steps)
  {
    ghost var m := pdag.cells;
    var pairs := ScanPairs(pdag.cells, false);
    steps := [];
    EmptyDerivation(m);
    FirstPair(m, Second, pairs);
    hide Derivable, After, TakenUpTo, Pass, Before;
    for i := 0 to |pairs|
      invariant Deriving(m, steps, pdag.cells) && TakenUpTo(m, Second, steps, AtPair(m, Second, pairs, i))
    {
      var a, b := pairs[i].0, pairs[i].1;
      assert (a, b) in pairs;
      DerivingSquare(m, steps, pdag.cells);
      ghost var was, before := pdag.cells, steps;
      var hit, c := false, 0;
      if Undirected(pdag.cells, a, b) {
        hit, c := Middle(pdag.cells, a, b);
      } else {
        NotUndirected(pdag.cells, a, b);
      }
      if hit {
        Direct(pdag, Rule2(a, b, c), solve, m, steps);
        steps := steps + [Rule2(a, b, c)];
        PairTaken(m, Second, before, was, Rule2(a, b, c), pdag.cells);
      } else {
        PairSkipped(m, Second, steps, pdag.cells, a, b);
      }
      NextPair(m, Second, pairs, i, steps, pdag.cells);
    }
    PassEnd(m, Second, steps);
  }

  /** The first node on a directed path of length two from a to b. */
  method Middle(m: Marks, a: nat, b: nat) returns (hit: bool, c: nat)
    requires In(m, a, b) && a != b && Undirected(m, a, b)
    ensures hit ==> Applicable(m, Rule2(a, b, c))
    ensures forall s: Step :: s.Rule2? && s.a == a && s.b == b && (hit ==> s.c < c) ==> !Applicable(m, s)
  {
    c := 0;
    while c < |m|
      invariant c <= |m|
      invariant forall s: Step :: s.Rule2? && s.a == a && s.b == b && s.c < c ==> !Applicable(m, s)
    {
      if c != a && c != b && Directed(m, a, c) && Directed(m, c, b) {
        return true, c;
      }
      c := c + 1;
    }
    hit := false;
  }

  predicate Candidate(m: Marks, a: nat, b: nat, c: nat)
    requires In(m, a, b)
  {
    c < |m| && c != a && c != b && Undirected(m, a, c) && Directed(m, c, b)
  }

  ghost predicate CandidatesOf(m: Marks, a: nat, b: nat, found: seq<nat>)
    requires In(m, a, b)
  {
    && (forall i, j :: 0 <= i < j < |found| ==> found[i] < found[j])
    && (forall i :: 0 <= i < |found| ==> Candidate(m, a, b, found[i]))
    && (forall c: nat :: Candidate(m, a, b, c) ==> c in found)
  }

  /** The candidates of a pair, ascending. */
  method Candidates(m: Marks, a: nat, b: nat) returns (found: seq<nat>)
    requires In(m, a, b)
    ensures CandidatesOf(m, a, b, found)
  {
    found := [];
    for c := 0 to |m|
      invariant forall i, j :: 0 <= i < j < |found| ==> found[i] < found[j]
      invariant forall i :: 0 <= i < |found| ==> found[i] < c && Candidate(m, a, b, found[i])
      invariant forall d: nat :: d < c && Candidate(m, a, b, d) ==> d in found
    {
      if Candidate(m, a, b, c) {
        found := found + [c];
      }
    }
  }

  /** The first two candidates, in order, that are not adjacent to each other. */
  method Unlinked(m: Marks, a: nat, b: nat, found: seq<nat>) returns (hit: bool, c: nat, d: nat)
    requires In(m, a, b) && a != b && Undirected(m, a, b)
    requires CandidatesOf(m, a, b, found)
    ensures hit ==> Applicable(m, Rule3(a, b, c, d))
    ensures forall s: Step :: s.Rule3? && s.a == a && s.b == b && (hit ==> Before(s, Rule3(a, b, c, d))) ==> !Applicable(m, s)
  {
    assert forall i :: 0 <= i < |found| ==> found[i] < |m|;
    hide CandidatesOf, Applicable, Before;
    for i := 0 to |found|
      invariant forall h, j :: 0 <= h < i && h < j < |found| ==> AnyEdge(m, found[h], found[j])
    {
      for j := i + 1 to |found|
        invariant forall k :: i < k < j ==> AnyEdge(m, found[i], found[k])
      {
        if !AnyEdge(m, found[i], found[j]) {
          NoneSooner(m, a, b, found, i, j);
          UnlinkedPair(m, a, b, found, i, j);
          return true, found[i], found[j];
        }
      }
    }
    hit, c, d := false, 0, 0;
    NoneSooner(m, a, b, found, |found|, 0);
  }

  lemma UnlinkedPair(m: Marks, a: nat, b: nat, found: seq<nat>, i: nat, j: nat)
    requires In(m, a, b) && a != b && Undirected(m, a, b) && CandidatesOf(m, a, b, found) && i < j < |found|
    requires In(m, found[i], found[j]) && !AnyEdge(m, found[i], found[j])
    ensures Applicable(m, Rule3(a, b, found[i], found[j]))
  {
  }

  /** All candidate pairs before place (i, j) are adjacent, so none of their steps can be taken. */
  lemma NoneSooner(m: Marks, a: nat, b: nat, found: seq<nat>, i: nat, j: nat)
    requires In(m, a, b) && i <= |found| && (i < |found| ==> i < j < |found|)
    requires CandidatesOf(m, a, b, found)
    requires forall h, k :: 0 <= h < i && h < k < |found| ==> In(m, found[h], found[k]) && AnyEdge(m, found[h], found[k])
    requires i < |found| ==> forall k :: i < k < j ==> In(m, found[i], found[k]) && AnyEdge(m, found[i], found[k])
    ensures forall s: Step :: s.Rule3? && s.a == a && s.b == b && (i < |found| ==> Before(s, Rule3(a, b, found[i], found[j]))) ==> !Applicable(m, s)
  {
    forall s: Step | s.Rule3? && s.a == a && s.b == b && s.c in found && s.d in found && s.c < s.d
                     && (i < |found| ==> Before(s, Rule3(a, b, found[i], found[j])))
      ensures AnyEdge(m, s.c, s.d)
    {
      var h :| 0 <= h < |found| && found[h] == s.c;
      var k :| 0 <= k < |found| && found[k] == s.d;
      assert h < k;
      assert h < i || (h == i && k < j);
    }
  }

  /** The first step of rule 3 that can be taken for a pair, if there is one. */
  method FirstOfThird(m: Marks, a: nat, b: nat) returns (hit: bool, c: nat, d: nat)
    requires In(m, a, b) && a != b
    ensures hit ==> Applicable(m, Rule3(a, b, c, d))
    ensures forall s: Step :: s.Rule3? && s.a == a && s.b == b && (hit ==> Before(s, Rule3(a, b, c, d))) ==> !Applicable(m, s)
  {
    hide Applicable, Before, CandidatesOf;
    hit, c, d := false, 0, 0;
    if Undirected(m, a, b) {
      var found := Candidates(m, a, b);
      hit, c, d := Unlinked(m, a, b, found);
    } else {
      NotUndirected(m, a, b);
    }
  }

  method ApplyRule3(pdag: Pdag, solve: bool) returns (steps: seq<Step>)
    requires Square(pdag.cells, |pdag.cells|)
    modifies pdag
    ensures Deriving(old(pdag.cells), steps, pdag.cells) && Pass(old(pdag.cells), Third, steps)
  {
    ghost var m := pdag.cells;
    var pairs := ScanPairs(pdag.cells, false);
    steps := [];
    EmptyDerivation(m);
    FirstPair(m, Third, pairs);
    hide Derivable, After, TakenUpTo, Pass, Before;
    for i := 0 to |pairs|
      invariant Deriving(m, steps, pdag.cells) && TakenUpTo(m, Third, steps, AtPair(m, Third, pairs, i))
    {
      var a, b := pairs[i].0, pairs[i].1;
      assert (a, b) in pairs;
      DerivingSquare(m, steps, pdag.cells);
      ghost var was, before := pdag.cells, steps;
      var hit, c, d := FirstOfThird(pdag.cells, a, b);
      if hit {
        Direct(pdag, Rule3(a, b, c, d), solve, m, steps);
        steps := steps + [Rule3(a, b, c, d)];
        PairTaken(m, Third, before, was, Rule3(a, b, c, d), pdag.cells);
      } else {
        PairSkipped(m, Third, steps, pdag.cells, a, b);
      }
      NextPair(m, Third, pairs, i, steps, pdag.cells);
    }
    PassEnd(m, Third, steps);
  }

  // --------------------------------------------------------------------- closure

  datatype Options = Options(rule1: bool, rule2: bool, rule3: bool, solve: bool)

  datatype Counts = Counts(rule1: nat, rule2: nat, rule3: nat)

  predicate Enabled(options: Options, s: Step) {
    match s
    case Rule1(_, _, _) => options.rule1
    case Rule2(_, _, _) => options.rule2
    case Rule3(_, _, _, _) => options.rule3
  }

  /** One round: each enabled rule passes once. */
  datatype Round = Round(from: Marks, first: seq<Step>, second: seq<Step>, third: seq<Step>, to: Marks)

  function StepsOf(x: Round): seq<Step> { x.first + x.second + x.third }

  ghost predicate PassTo(on: bool, m: Marks, rule: Rule, steps: seq<Step>, r: Marks) {
    Deriving(m, steps, r) && if on then Pass(m, rule, steps) else steps == []
  }

  ghost predicate RoundOk(options: Options, x: Round) {
    exists q, p :: PassTo(options.rule1, x.from, First, x.first, q) && PassTo(options.rule2, q, Second, x.second, p)
                   && PassTo(options.rule3, p, Third, x.third, x.to)
  }

  /** Rounds, each from where the one before it ended, all but possibly the last of which change something. */
  ghost predicate Rounds(options: Options, m: Marks, rounds: seq<Round>, r: Marks) {
    && (if rounds == [] then m == r else rounds[0].from == m && rounds[|rounds| - 1].to == r)
    && (forall i :: 0 <= i < |rounds| ==> RoundOk(options, rounds[i]))
    && (forall i, next :: 0 <= i && next == i + 1 < |rounds| ==> rounds[i].to == rounds[next].from && StepsOf(rounds[i]) != [])
  }

  /** The rounds of the closure: the last one, and no other, changes nothing. */
  ghost predicate Closure(options: Options, m: Marks, rounds: seq<Round>, r: Marks) {
    Rounds(options, m, rounds, r) && rounds != [] && StepsOf(rounds[|rounds| - 1]) == []
  }

  function AllSteps(rounds: seq<Round>): seq<Step> {
    if rounds == [] then [] else AllSteps(rounds[..|rounds| - 1]) + StepsOf(rounds[|rounds| - 1])
  }

  function CountOf(steps: seq<Step>, rule: Rule): nat {
    if steps == [] then 0 else CountOf(steps[..|steps| - 1], rule) + (if RuleOf(steps[|steps| - 1]) == rule then 1 else 0)
  }

  lemma {:induction false} CountChain(first: seq<Step>, second: seq<Step>, rule: Rule)
    ensures CountOf(first + second, rule) == CountOf(first, rule) + CountOf(second, rule)
    decreases |second|
  {
    if second == [] {
      assert first + second == first;
    } else {
      var n := |second| - 1;
      CountChain(first, second[..n], rule);
      assert (first + second)[..|first| + n] == first + second[..n];
    }
  }

  lemma {:induction false} CountSame(steps: seq<Step>, rule: Rule, same: Rule)
    requires forall s :: s in steps ==> RuleOf(s) == same
    ensures CountOf(steps, rule) == if rule == same then |steps| else 0
  {
    if steps != [] {
      CountSame(steps[..|steps| - 1], rule, same);
      assert steps[|steps| - 1] in steps;
    }
  }

  lemma PassRule(on: bool, m: Marks, rule: Rule, steps: seq<Step>, r: Marks)
    requires PassTo(on, m, rule, steps, r)
    ensures forall s :: s in steps ==> on && RuleOf(s) == rule
  {
    hide Derivable, After, PassedOver;
  }

  lemma IdlePass(m: Marks, rule: Rule)
    requires Pass(m, rule, [])
    ensures forall s: Step :: RuleOf(s) == rule ==> !Applicable(m, s)
  {
    forall s: Step | RuleOf(s) == rule
      ensures !Applicable(m, s)
    {
      if Visits(m, rule, s) {
        assert PassedOver(m, [], s);
        assert TurnAt([], 0, s);
        assert StuckAt(m, [], 0, s);
      }
    }
  }

  lemma IdleRound(options: Options, x: Round)
    requires RoundOk(options, x) && StepsOf(x) == []
    ensures x.to == x.from && Square(x.to, |x.to|) && forall s: Step :: Enabled(options, s) ==> !Applicable(x.to, s)
  {
    var q, p :| PassTo(options.rule1, x.from, First, x.first, q) && PassTo(options.rule2, q, Second, x.second, p)
                && PassTo(options.rule3, p, Third, x.third, x.to);
    assert x.first == x.second == x.third == [];
    DerivingSquare(x.from, [], q);
    DerivingSquare(q, [], p);
    DerivingSquare(p, [], x.to);
    hide Pass, Applicable, Deriving;
    if options.rule1 {
      IdlePass(q, First);
    }
    if options.rule2 {
      IdlePass(q, Second);
    }
    if options.rule3 {
      IdlePass(q, Third);
    }
  }

  lemma ChainDeriving(m: Marks, first: seq<Step>, q: Marks, second: seq<Step>, r: Marks)
    requires Deriving(m, first, q) && Deriving(q, second, r)
    ensures Deriving(m, first + second, r)
  {
    hide Derivable, After;
    Chain(m, first, second);
  }

  lemma RoundDrops(m: Marks, steps: seq<Step>, r: Marks)
    requires Deriving(m, steps, r)
    ensures Square(m, |m|) && Square(r, |r|)
    ensures |UndirectedPairs(r)| == |UndirectedPairs(m)| - |steps| && (steps == [] <==> r == m)
  {
    hide Derivable;
    DerivationDrops(m, steps);
  }

  lemma PassNothing(m: Marks, rule: Rule)
    requires Square(m, |m|)
    ensures PassTo(false, m, rule, [], m)
  {
    EmptyDerivation(m);
  }

  /** One round: each enabled rule once. */
  method RunRound(pdag: Pdag, options: Options) returns (x: Round)
    requires Square(pdag.cells, |pdag.cells|)
    modifies pdag
    ensures RoundOk(options, x) && x.from == old(pdag.cells) && x.to == pdag.cells
    ensures Deriving(x.from, StepsOf(x), x.to)
    ensures CountOf(StepsOf(x), First) == |x.first| && CountOf(StepsOf(x), Second) == |x.second| && CountOf(StepsOf(x), Third) == |x.third|
    ensures forall s :: s in StepsOf(x) ==> Enabled(options, s)
  {
    hide Deriving, Pass;
    var first: seq<Step>, second: seq<Step>, third: seq<Step> := [], [], [];
    var m := pdag.cells;
    PassNothing(m, First);
    if options.rule1 {
      first := ApplyRule1(pdag, options.solve);
    }
    var q := pdag.cells;
    DerivingSquare(m, first, q);
    PassNothing(q, Second);
    if options.rule2 {
      second := ApplyRule2(pdag, options.solve);
    }
    var p := pdag.cells;
    DerivingSquare(q, second, p);
    PassNothing(p, Third);
    if options.rule3 {
      third := ApplyRule3(pdag, options.solve);
    }
    x := Round(m, first, second, third, pdag.cells);
    RoundDone(options, x, q, p);
  }

  lemma RoundDone(options: Options, x: Round, q: Marks, p: Marks)
    requires PassTo(options.rule1, x.from, First, x.first, q) && PassTo(options.rule2, q, Second, x.second, p)
    requires PassTo(options.rule3, p, Third, x.third, x.to)
    ensures RoundOk(options, x) && Deriving(x.from, StepsOf(x), x.to)
    ensures CountOf(StepsOf(x), First) == |x.first| && CountOf(StepsOf(x), Second) == |x.second| && CountOf(StepsOf(x), Third) == |x.third|
    ensures forall s :: s in StepsOf(x) ==> Enabled(options, s)
  {
    PassRule(options.rule1, x.from, First, x.first, q);
    PassRule(options.rule2, q, Second, x.second, p);
    PassRule(options.rule3, p, Third, x.third, x.to);
    hide Deriving, Pass, CountOf;
    ChainDeriving(x.from, x.first, q, x.second, p);
    ChainDeriving(x.from, x.first + x.second, p, x.third, x.to);
    forall rule: Rule
      ensures CountOf(StepsOf(x), rule) == CountOf(x.first, rule) + CountOf(x.second, rule) + CountOf(x.third, rule)
    {
      CountChain(x.first, x.second, rule);
      CountChain(x.first + x.second, x.third, rule);
    }
    forall rule: Rule
      ensures CountOf(x.first, rule) == (if rule == First then |x.first| else 0)
      ensures CountOf(x.second, rule) == (if rule == Second then |x.second| else 0)
      ensures CountOf(x.third, rule) == (if rule == Third then |x.third| else 0)
    {
      CountSame(x.first, rule, First);
      CountSame(x.second, rule, Second);
      CountSame(x.third, rule, Third);
    }
  }

  ghost predicate Converging(options: Options, m: Marks, rounds: seq<Round>, r: Marks, changed: bool) {
    && Rounds(options, m, rounds, r)
    && (rounds == [] ==> changed)
    && (rounds != [] ==> (changed <==> StepsOf(rounds[|rounds| - 1]) != []))
  }

  lemma MoreRounds(options: Options, m: Marks, rounds: seq<Round>, x: Round, changed: bool)
    requires Converging(options, m, rounds, x.from, true) && RoundOk(options, x) && (changed <==> StepsOf(x) != [])
    ensures Converging(options, m, rounds + [x], x.to, changed)
  {
    hide RoundOk, StepsOf;
    var more := rounds + [x];
    forall i, next | 0 <= i && next == i + 1 < |more|
      ensures more[i].to == more[next].from && StepsOf(more[i]) != []
    {
      assert more[i] == rounds[i];
      if next < |rounds| {
        assert more[next] == rounds[next];
      }
    }
  }

  ghost predicate Counted(options: Options, m: Marks, rounds: seq<Round>, r: Marks, total: Counts) {
    && Deriving(m, AllSteps(rounds), r) && (forall s :: s in AllSteps(rounds) ==> Enabled(options, s))
    && total == Counts(CountOf(AllSteps(rounds), First), CountOf(AllSteps(rounds), Second), CountOf(AllSteps(rounds), Third))
  }

  lemma MoreCounted(options: Options, m: Marks, rounds: seq<Round>, x: Round, total: Counts)
    requires Counted(options, m, rounds, x.from, total)
    requires Deriving(x.from, StepsOf(x), x.to) && forall s :: s in StepsOf(x) ==> Enabled(options, s)
    ensures Counted(options, m, rounds + [x], x.to, Counts(total.rule1 + CountOf(StepsOf(x), First),
                    total.rule2 + CountOf(StepsOf(x), Second), total.rule3 + CountOf(StepsOf(x), Third)))
  {
    hide CountOf, Deriving, StepsOf, Enabled;
    assert (rounds + [x])[..|rounds|] == rounds;
    ChainDeriving(m, AllSteps(rounds), x.from, StepsOf(x), x.to);
    CountChain(AllSteps(rounds), StepsOf(x), First);
    CountChain(AllSteps(rounds), StepsOf(x), Second);
    CountChain(AllSteps(rounds), StepsOf(x), Third);
  }

  lemma NothingCounted(options: Options, m: Marks)
    requires Square(m, |m|)
    ensures Closing(options, m, [], m, true, Counts(0, 0, 0))
  {
    EmptyDerivation(m);
  }

  /** What the closure's loop keeps. */
  ghost predicate Closing(options: Options, m: Marks, rounds: seq<Round>, r: Marks, changed: bool, total: Counts) {
    Converging(options, m, rounds, r, changed) && Counted(options, m, rounds, r, total)
  }

  lemma MoreClosing(options: Options, m: Marks, rounds: seq<Round>, x: Round, total: Counts, changed: bool)
    requires Closing(options, m, rounds, x.from, true, total) && RoundOk(options, x) && changed == (x.to != x.from)
    requires Deriving(x.from, StepsOf(x), x.to) && forall s :: s in StepsOf(x) ==> Enabled(options, s)
    requires CountOf(StepsOf(x), First) == |x.first| && CountOf(StepsOf(x), Second) == |x.second| && CountOf(StepsOf(x), Third) == |x.third|
    ensures Closing(options, m, rounds + [x], x.to, changed, Counts(total.rule1 + |x.first|, total.rule2 + |x.second|, total.rule3 + |x.third|))
    ensures Square(x.from, |x.from|) && Square(x.to, |x.to|)
    ensures |UndirectedPairs(x.to)| <= |UndirectedPairs(x.from)| && (changed ==> |UndirectedPairs(x.to)| < |UndirectedPairs(x.from)|)
  {
    hide RoundOk, CountOf, StepsOf, Converging, Counted, Deriving;
    RoundDrops(x.from, StepsOf(x), x.to);
    MoreRounds(options, m, rounds, x, changed);
    MoreCounted(options, m, rounds, x, total);
  }

  lemma Converged(options: Options, m: Marks, rounds: seq<Round>, r: Marks, total: Counts)
    requires Closing(options, m, rounds, r, false, total)
    ensures Closure(options, m, rounds, r)
    ensures Deriving(m, AllSteps(rounds), r) && forall s :: s in AllSteps(rounds) ==> Enabled(options, s)
    ensures total == Counts(CountOf(AllSteps(rounds), First), CountOf(AllSteps(rounds), Second), CountOf(AllSteps(rounds), Third))
    ensures Square(r, |r|) && forall s: Step :: Enabled(options, s) ==> !Applicable(r, s)
  {
    hide RoundOk, StepsOf, Applicable, Deriving, CountOf, AllSteps;
    IdleRound(options, rounds[|rounds| - 1]);
  }

  /** Applies the enabled rules in turn until a round changes nothing: round by round, each rule takes the
      steps of its scan that can be taken when it is their turn. The counts are the numbers of steps by
      rule, and no enabled rule applies to the result any more. */
  method ApplyRulesUntilConverged(pdag: Pdag, options: Options) returns (total: Counts, rounds: seq<Round>)
    requires Square(pdag.cells, |pdag.cells|)
    modifies pdag
    ensures Closure(options, old(pdag.cells), rounds, pdag.cells)
    ensures Deriving(old(pdag.cells), AllSteps(rounds), pdag.cells) && forall s :: s in AllSteps(rounds) ==> Enabled(options, s)
    ensures total == Counts(CountOf(AllSteps(rounds), First), CountOf(AllSteps(rounds), Second), CountOf(AllSteps(rounds), Third))
    ensures Square(pdag.cells, |pdag.cells|) && forall s: Step :: Enabled(options, s) ==> !Applicable(pdag.cells, s)
  {
    ghost var m := pdag.cells;
    total, rounds := Counts(0, 0, 0), [];
    var changed := true;
    NothingCounted(options, m);
    hide Applicable, Deriving, RoundOk, Closing, Closure, AllSteps, CountOf, Enabled, UndirectedPairs, StepsOf;
    while changed
      invariant Square(pdag.cells, |pdag.cells|) && Closing(options, m, rounds, pdag.cells, changed, total)
      decreases |UndirectedPairs(pdag.cells)|, if changed then 1 else 0
    {
      var x := RunRound(pdag, options);
      changed := x.to != x.from;
      MoreClosing(options, m, rounds, x, total, changed);
      total := Counts(total.rule1 + |x.first|, total.rule2 + |x.second|, total.rule3 + |x.third|);
      rounds := rounds + [x];
    }
    Converged(options, m, rounds, pdag.cells, total);
  }
}
