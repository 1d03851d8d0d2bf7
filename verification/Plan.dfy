/** The layer plan: every conditional-independence test of one level, in canonical order
    (skeleton_task_scheduler.cpp). */
module LayerPlan {
  import opened Grids

  datatype Task = Task(
    edgeX: nat, edgeY: nat, orientX: nat, orientY: nat,
    conditioning: seq<nat>, edgeKey: nat, opensNext: bool)

  // ---------------------------------------------------------------- subsets

  ghost predicate Ascending(s: seq<nat>) {
    forall i, j :: 0 <= i < j < |s| ==> s[i] < s[j]
  }

  /** std::lexicographical_compare. */
  predicate LexLess(a: seq<nat>, b: seq<nat>) {
    if b == [] then false
    else if a == [] then true
    else if a[0] != b[0] then a[0] < b[0]
    else LexLess(a[1..], b[1..])
  }

  function Prefixed(front: seq<nat>, sets: seq<seq<nat>>): (r: seq<seq<nat>>)
    ensures |r| == |sets| && forall i :: 0 <= i < |r| ==> r[i] == front + sets[i]
  {
    seq(|sets|, i requires 0 <= i < |sets| => front + sets[i])
  }

  /** All selections of `choose` entries of `values`, smallest first index first. */
  function Combos(values: seq<nat>, choose: nat): seq<seq<nat>>
    decreases |values|
  {
    if choose == 0 then [[]]
    else if |values| < choose then []
    else Prefixed([values[0]], Combos(values[1..], choose - 1)) + Combos(values[1..], choose)
  }

  /** The recursive enumerator: a stack of chosen values, extended from `start` on. */
  method Enumerate(values: seq<nat>, start: nat, remaining: nat, current: seq<nat>)
    returns (visited: seq<seq<nat>>)
    requires start + remaining <= |values|
    ensures visited == Prefixed(current, Combos(values[start..], remaining))
    decreases remaining
  {
    hide Combos, Prefixed;
    EnumerateEnds(values, start, remaining, current);
    if remaining == 0 {
      return [current];
    }
    visited := [];
    ghost var all := Prefixed(current, Combos(values[start..], remaining));
    ghost var left := all;
    var i := start;
    while i <= |values| - remaining
      invariant start <= i <= |values| - remaining + 1
      invariant left == Prefixed(current, Combos(values[i..], remaining))
      invariant visited + left == all
    {
      var deeper := Enumerate(values, i + 1, remaining - 1, current + [values[i]]);
      EnumerateStep(values, i, remaining, current);
      ghost var next := Prefixed(current, Combos(values[i + 1..], remaining));
      assert visited + (deeper + next) == (visited + deeper) + next;
      visited, left := visited + deeper, next;
      i := i + 1;
    }
    EnumerateEnds(values, i, remaining, current);
  }

  lemma EnumerateEnds(values: seq<nat>, i: nat, remaining: nat, current: seq<nat>)
    requires i <= |values|
    ensures remaining == 0 ==> Prefixed(current, Combos(values[i..], remaining)) == [current]
    ensures i + remaining > |values| ==> Prefixed(current, Combos(values[i..], remaining)) == []
  {
    assert current + [] == current;
  }

  lemma EnumerateStep(values: seq<nat>, i: nat, remaining: nat, current: seq<nat>)
    requires 0 < remaining && i + remaining <= |values|
    ensures Prefixed(current, Combos(values[i..], remaining)) ==
      Prefixed(current + [values[i]], Combos(values[i + 1..], remaining - 1)) +
      Prefixed(current, Combos(values[i + 1..], remaining))
  {
    assert values[i..][1..] == values[i + 1..];
    var rest := Combos(values[i + 1..], remaining - 1);
    assert Combos(values[i..], remaining) == Prefixed([values[i]], rest) + Combos(values[i + 1..], remaining);
    forall k | 0 <= k < |rest|
      ensures current + ([values[i]] + rest[k]) == (current + [values[i]]) + rest[k]
    {
    }
  }

  ghost predicate SelectionOf(c: seq<nat>, values: seq<nat>, choose: nat) {
    && |c| == choose
    && Ascending(c)
    && forall v :: v in c ==> v in values
  }

  lemma SelectionExtends(v: nat, rest: seq<nat>, choose: nat, c: seq<nat>)
    requires Ascending([v] + rest)
    ensures SelectionOf(c, rest, choose) ==> SelectionOf([v] + c, [v] + rest, choose + 1)
    ensures SelectionOf(c, rest, choose) ==> SelectionOf(c, [v] + rest, choose)
  {
    if SelectionOf(c, rest, choose) {
      forall k | 0 <= k < |c|
        ensures v < c[k]
      {
        assert c[k] in rest;
        var m :| 0 <= m < |rest| && rest[m] == c[k];
        assert ([v] + rest)[0] < ([v] + rest)[m + 1] == c[k];
      }
    }
  }

  lemma {:induction false} CombosShape(values: seq<nat>, choose: nat)
    requires Ascending(values)
    ensures forall i :: 0 <= i < |Combos(values, choose)| ==> SelectionOf(Combos(values, choose)[i], values, choose)
    ensures Combos(values, choose) == [] <==> |values| < choose
    decreases |values|
  {
    if choose != 0 && |values| >= choose {
      var v, rest := values[0], values[1..];
      assert values == [v] + rest;
      CombosShape(rest, choose - 1);
      CombosShape(rest, choose);
      forall c: seq<nat>
        ensures SelectionOf(c, rest, choose - 1) ==> SelectionOf([v] + c, values, choose)
        ensures SelectionOf(c, rest, choose) ==> SelectionOf(c, values, choose)
      {
        SelectionExtends(v, rest, choose - 1, c);
        SelectionExtends(v, rest, choose, c);
      }
    }
  }

  lemma LexLessPush(v: nat, a: seq<nat>, b: seq<nat>)
    requires LexLess(a, b)
    ensures LexLess([v] + a, [v] + b)
  {
    assert ([v] + a)[1..] == a && ([v] + b)[1..] == b;
  }

  lemma LexLessHead(v: nat, a: seq<nat>, b: seq<nat>)
    requires b != [] && v < b[0]
    ensures LexLess([v] + a, b)
  {
  }

  lemma {:induction false} CombosAscend(values: seq<nat>, choose: nat, i: nat, j: nat)
    requires Ascending(values) && i < j < |Combos(values, choose)|
    ensures LexLess(Combos(values, choose)[i], Combos(values, choose)[j])
    decreases |values|
  {
    hide LexLess;
    var v, rest := values[0], values[1..];
    var first, second := Combos(rest, choose - 1), Combos(rest, choose);
    var all := Combos(values, choose);
    assert all == Prefixed([v], first) + second;
    if j < |first| {
      CombosAscend(rest, choose - 1, i, j);
      LexLessPush(v, first[i], first[j]);
    } else if i >= |first| {
      CombosAscend(rest, choose, i - |first|, j - |first|);
    } else {
      CombosShape(rest, choose);
      assert SelectionOf(all[j], rest, choose);
      assert all[j][0] in rest;
      LexLessHead(v, first[i], all[j]);
    }
  }

  /** What is left of an ascending selection after its head lies in the tail of the list. */
  lemma SelectionTail(values: seq<nat>, choose: nat, c: seq<nat>)
    requires Ascending(values) && SelectionOf(c, values, choose) && choose > 0
    ensures |values| > 0 && |c| == choose
    ensures SelectionOf(c[1..], values[1..], choose - 1)
    ensures c[0] != values[0] ==> SelectionOf(c, values[1..], choose)
  {
    assert c[0] in values;
    var m :| 0 <= m < |values| && values[m] == c[0];
    forall k | 0 < k < |c|
      ensures c[k] in values[1..]
    {
      assert c[k] in values;
      var n :| 0 <= n < |values| && values[n] == c[k];
      assert c[0] < c[k];
      assert n > 0;
      assert values[1..][n - 1] == c[k];
    }
    if c[0] != values[0] {
      assert values[1..][m - 1] == c[0];
    }
  }

  lemma CombosParts(values: seq<nat>, choose: nat, c: seq<nat>)
    requires 0 < choose <= |values|
    ensures c in Combos(values[1..], choose - 1) ==> [values[0]] + c in Combos(values, choose)
    ensures c in Combos(values[1..], choose) ==> c in Combos(values, choose)
  {
    var first, second := Combos(values[1..], choose - 1), Combos(values[1..], choose);
    var front := Prefixed([values[0]], first);
    assert Combos(values, choose) == front + second;
    hide Combos;
    if c in first {
      var i :| 0 <= i < |first| && first[i] == c;
      assert front[i] == [values[0]] + c;
    }
  }

  lemma {:induction false} CombosComplete(values: seq<nat>, choose: nat, c: seq<nat>)
    requires Ascending(values) && SelectionOf(c, values, choose)
    ensures c in Combos(values, choose)
    decreases |values|
  {
    hide Combos, SelectionOf, Ascending;
    if choose == 0 {
      CombosNone(values, c);
    } else {
      SelectionTail(values, choose, c);
      SelectionNoLonger(values, choose, c);
      TailAscending(values);
      var rest := values[1..];
      if c[0] == values[0] {
        CombosComplete(rest, choose - 1, c[1..]);
        CombosParts(values, choose, c[1..]);
        assert c == [values[0]] + c[1..];
      } else {
        CombosComplete(rest, choose, c);
        CombosParts(values, choose, c);
      }
    }
  }

  lemma CombosNone(values: seq<nat>, c: seq<nat>)
    requires SelectionOf(c, values, 0)
    ensures c in Combos(values, 0)
  {
    assert c == [] && Combos(values, 0)[0] == [];
  }

  lemma TailAscending(values: seq<nat>)
    requires Ascending(values) && values != []
    ensures Ascending(values[1..])
  {
  }

  lemma {:induction false} SelectionNoLonger(values: seq<nat>, choose: nat, c: seq<nat>)
    requires Ascending(values) && SelectionOf(c, values, choose)
    ensures choose <= |values|
    decreases |values|
  {
    if choose > 0 {
      SelectionTail(values, choose, c);
      SelectionNoLonger(values[1..], choose - 1, c[1..]);
    }
  }

  lemma {:induction false} LexLessStrict(a: seq<nat>, b: seq<nat>)
    ensures !(LexLess(a, b) && LexLess(b, a))
    ensures !LexLess(a, a)
    ensures LexLess(a, b) || a == b || LexLess(b, a)
    decreases |a|
  {
    if a != [] {
      LexLessStrict(a[1..], if b != [] then b[1..] else []);
      if b != [] && a[0] == b[0] {
        assert a == [a[0]] + a[1..] && b == [b[0]] + b[1..];
      }
    }
  }

  lemma {:induction false} LexLessTransitive(a: seq<nat>, b: seq<nat>, c: seq<nat>)
    requires LexLess(a, b) && LexLess(b, c)
    ensures LexLess(a, c)
    decreases |a|
  {
    if a != [] && a[0] == b[0] == c[0] {
      LexLessTransitive(a[1..], b[1..], c[1..]);
    }
  }

  // -------------------------------------------------------------- neighbours

  /** Vertices below `n` adjacent to `v`, other than `excluded`, ascending. */
  function NeighborsBelow(adj: Grid<bool>, v: nat, excluded: nat, n: nat): seq<nat>
    requires Square(adj, |adj|) && v < |adj| && n <= |adj|
  {
    if n == 0 then []
    else NeighborsBelow(adj, v, excluded, n - 1) +
         if n - 1 != excluded && adj[n - 1][v] then [n - 1] else []
  }

  function Neighbors(adj: Grid<bool>, v: nat, excluded: nat): seq<nat>
    requires Square(adj, |adj|) && v < |adj|
  {
    NeighborsBelow(adj, v, excluded, |adj|)
  }

  method NeighborsFromSnapshot(adj: Grid<bool>, v: nat, excluded: nat) returns (out: seq<nat>)
    requires Square(adj, |adj|) && v < |adj|
    ensures out == Neighbors(adj, v, excluded)
  {
    out := [];
    for i := 0 to |adj|
      invariant out == NeighborsBelow(adj, v, excluded, i)
    {
      if i != excluded && adj[i][v] {
        out := out + [i];
      }
    }
  }

  lemma {:induction false} NeighborsShape(adj: Grid<bool>, v: nat, excluded: nat, n: nat)
    requires Square(adj, |adj|) && v < |adj| && n <= |adj|
    ensures Ascending(NeighborsBelow(adj, v, excluded, n))
    ensures forall u: nat :: u in NeighborsBelow(adj, v, excluded, n) <==> u < n && u != excluded && adj[u][v]
  {
    if n > 0 {
      NeighborsShape(adj, v, excluded, n - 1);
      var shorter := NeighborsBelow(adj, v, excluded, n - 1);
      forall i | 0 <= i < |shorter|
        ensures shorter[i] < n - 1
      {
        assert shorter[i] in shorter;
      }
    }
  }

  // ------------------------------------------------------------------- tasks

  function EdgeKey(p: nat, x: nat, y: nat): (k: nat)
  {
    x * p + y
  }

  lemma RowGap(p: nat, x: nat, u: nat)
    requires u < x
    ensures EdgeKey(p, x, 0) >= EdgeKey(p, u, 0) + p
  {
    assert (x - u - 1) * p >= 0;
    assert x * p == u * p + p + (x - u - 1) * p;
  }

  lemma EdgeKeyInjective(p: nat, x: nat, y: nat, u: nat, w: nat)
    requires y < p && w < p && EdgeKey(p, x, y) == EdgeKey(p, u, w)
    ensures x == u && y == w
  {
    if u < x {
      RowGap(p, x, u);
    } else if x < u {
      RowGap(p, u, x);
    }
  }

  lemma EdgeKeyBound(p: nat, x: nat, y: nat)
    requires x < p && y < p
    ensures EdgeKey(p, x, y) < p * p
  {
    RowGap(p, p, x);
  }

  /** The tests of edge {x,y} taken from the side of `ox`; only the first may open the next level. */
  function SideTasks(p: nat, level: nat, x: nat, y: nat, ox: nat, oy: nat, neighbors: seq<nat>): (r: seq<Task>)
    ensures |r| == |Combos(neighbors, level)|
    ensures forall i :: 0 <= i < |r| ==>
      r[i] == Task(x, y, ox, oy, Combos(neighbors, level)[i], EdgeKey(p, x, y), i == 0 && |neighbors| > level)
  {
    var sets := Combos(neighbors, level);
    seq(|sets|, i requires 0 <= i < |sets| =>
      Task(x, y, ox, oy, sets[i], EdgeKey(p, x, y), i == 0 && |neighbors| > level))
  }

  function EdgeTasks(adj: Grid<bool>, level: nat, x: nat, y: nat): seq<Task>
    requires Square(adj, |adj|) && x < |adj| && y < |adj|
  {
    SideTasks(|adj|, level, x, y, x, y, Neighbors(adj, x, y)) +
    SideTasks(|adj|, level, x, y, y, x, Neighbors(adj, y, x))
  }

  function RowTasks(adj: Grid<bool>, level: nat, x: nat, yEnd: nat): seq<Task>
    requires Square(adj, |adj|) && x < |adj| && yEnd <= |adj|
  {
    if yEnd <= x + 1 then []
    else RowTasks(adj, level, x, yEnd - 1) +
         if adj[x][yEnd - 1] then EdgeTasks(adj, level, x, yEnd - 1) else []
  }

  function TasksBelow(adj: Grid<bool>, level: nat, xEnd: nat): seq<Task>
    requires Square(adj, |adj|) && xEnd <= |adj|
  {
    if xEnd == 0 then []
    else TasksBelow(adj, level, xEnd - 1) + RowTasks(adj, level, xEnd - 1, |adj|)
  }

  function Plan(adj: Grid<bool>, level: nat): seq<Task>
    requires Square(adj, |adj|)
  {
    TasksBelow(adj, level, |adj|)
  }

  method AppendSide(p: nat, level: nat, x: nat, y: nat, ox: nat, oy: nat, neighbors: seq<nat>)
    returns (out: seq<Task>)
    ensures out == SideTasks(p, level, x, y, ox, oy, neighbors)
  {
    var sets: seq<seq<nat>> := [];
    if level == 0 {
      sets := [[]];
    } else if |neighbors| >= level {
      sets := Enumerate(neighbors, 0, level, []);
      assert neighbors[0..] == neighbors;
      assert forall i :: 0 <= i < |sets| ==> sets[i] == Combos(neighbors, level)[i];
    }
    out := [];
    var first := true;
    for i := 0 to |sets|
      invariant first == (i == 0)
      invariant out == SideTasks(p, level, x, y, ox, oy, neighbors)[..i]
    {
      out := out + [Task(x, y, ox, oy, sets[i], x * p + y, first && |neighbors| > level)];
      first := false;
    }
  }

  lemma EdgeTasksSides(adj: Grid<bool>, level: nat, x: nat, y: nat)
    requires Square(adj, |adj|) && x < |adj| && y < |adj|
    ensures EdgeTasks(adj, level, x, y) ==
      SideTasks(|adj|, level, x, y, x, y, Neighbors(adj, x, y)) + SideTasks(|adj|, level, x, y, y, x, Neighbors(adj, y, x))
  {
  }

  method MakeLayerPlan(adj: Grid<bool>, level: nat) returns (tasks: seq<Task>)
    requires Square(adj, |adj|)
    ensures tasks == Plan(adj, level)
  {
    hide EdgeTasks, SideTasks;
    tasks := [];
    var p := |adj|;
    var x := 0;
    while x < p - 1
      invariant 0 <= x <= p
      invariant p > 0 ==> x <= p - 1
      invariant tasks == TasksBelow(adj, level, x)
    {
      ghost var before := tasks;
      for y := x + 1 to p
        invariant tasks == before + RowTasks(adj, level, x, y)
      {
        if adj[x][y] {
          var nx := NeighborsFromSnapshot(adj, x, y);
          var xSide := AppendSide(p, level, x, y, x, y, nx);
          var ny := NeighborsFromSnapshot(adj, y, x);
          var ySide := AppendSide(p, level, x, y, y, x, ny);
          EdgeTasksSides(adj, level, x, y);
          tasks := tasks + (xSide + ySide);
        }
      }
      x := x + 1;
    }
    if p > 0 {
      assert RowTasks(adj, level, p - 1, p) == [];
    }
  }

  // ------------------------------------------------------- what a plan contains

  /** The order in which pcalg visits tests: by oriented pair, then by conditioning set. */
  predicate PcalgLess(s: Task, t: Task) {
    if s.orientX != t.orientX then s.orientX < t.orientX
    else if s.orientY != t.orientY then s.orientY < t.orientY
    else LexLess(s.conditioning, t.conditioning)
  }

  ghost predicate TaskOf(adj: Grid<bool>, level: nat, x: nat, y: nat, t: Task)
    requires Square(adj, |adj|)
  {
    && x < y < |adj| && adj[x][y]
    && t.edgeX == x && t.edgeY == y && t.edgeKey == EdgeKey(|adj|, x, y)
    && ((t.orientX == x && t.orientY == y) || (t.orientX == y && t.orientY == x))
    && SelectionOf(t.conditioning, Neighbors(adj, t.orientX, t.orientY), level)
    && (t.opensNext <==> Opens(Neighbors(adj, t.orientX, t.orientY), level, t.conditioning))
  }

  /** The first selection of its side, where the side has enough neighbours for the next level. */
  ghost predicate Opens(neighbors: seq<nat>, level: nat, c: seq<nat>) {
    |neighbors| > level && c == neighbors[..level]
  }

  /** The first selection is the first so many values, and no other is. */
  lemma {:induction false} FirstCombo(values: seq<nat>, choose: nat)
    requires choose <= |values|
    ensures Combos(values, choose) != [] && Combos(values, choose)[0] == values[..choose]
    decreases |values|
  {
    if choose > 0 {
      FirstCombo(values[1..], choose - 1);
      assert values[..choose] == [values[0]] + values[1..][..choose - 1];
    }
  }

  lemma SideOpens(values: seq<nat>, level: nat, i: nat)
    requires Ascending(values) && i < |Combos(values, level)|
    ensures Opens(values, level, Combos(values, level)[i]) <==> i == 0 && |values| > level
  {
    hide Combos;
    if |values| > level {
      FirstCombo(values, level);
      if i > 0 {
        CombosAscend(values, level, 0, i);
        LexLessStrict(Combos(values, level)[0], Combos(values, level)[0]);
      }
    }
  }

  /** In plan order, an earlier test is on an earlier edge, or on the same edge and pcalg-less. */
  ghost predicate Before(s: Task, t: Task) {
    || s.edgeX < t.edgeX
    || (s.edgeX == t.edgeX && s.edgeY < t.edgeY)
    || (s.edgeX == t.edgeX && s.edgeY == t.edgeY && PcalgLess(s, t))
  }

  lemma EdgeTasksShape(adj: Grid<bool>, level: nat, x: nat, y: nat)
    requires Square(adj, |adj|) && x < y < |adj| && adj[x][y]
    ensures var e := EdgeTasks(adj, level, x, y);
      && (forall i :: 0 <= i < |e| ==> TaskOf(adj, level, x, y, e[i]))
      && (forall i, j :: 0 <= i < j < |e| ==> Before(e[i], e[j]))
  {
    var e := EdgeTasks(adj, level, x, y);
    var nx, ny := Neighbors(adj, x, y), Neighbors(adj, y, x);
    NeighborsShape(adj, x, y, |adj|);
    NeighborsShape(adj, y, x, |adj|);
    CombosShape(nx, level);
    CombosShape(ny, level);
    forall i | 0 <= i < |Combos(nx, level)|
      ensures Opens(nx, level, Combos(nx, level)[i]) <==> i == 0 && |nx| > level
    {
      SideOpens(nx, level, i);
    }
    forall i | 0 <= i < |Combos(ny, level)|
      ensures Opens(ny, level, Combos(ny, level)[i]) <==> i == 0 && |ny| > level
    {
      SideOpens(ny, level, i);
    }
    var split := |Combos(nx, level)|;
    forall i, j | 0 <= i < j < |e|
      ensures Before(e[i], e[j])
    {
      if j < split {
        CombosAscend(nx, level, i, j);
      } else if i >= split {
        CombosAscend(ny, level, i - split, j - split);
      }
    }
  }

  ghost predicate PlanPart(adj: Grid<bool>, level: nat, tasks: seq<Task>)
    requires Square(adj, |adj|)
  {
    && (forall i :: 0 <= i < |tasks| ==> TaskOf(adj, level, tasks[i].edgeX, tasks[i].edgeY, tasks[i]))
    && (forall i, j :: 0 <= i < j < |tasks| ==> Before(tasks[i], tasks[j]))
  }

  lemma PlanPartConcat(adj: Grid<bool>, level: nat, a: seq<Task>, b: seq<Task>)
    requires Square(adj, |adj|) && PlanPart(adj, level, a) && PlanPart(adj, level, b)
    requires forall s, t :: s in a && t in b ==> Before(s, t)
    ensures PlanPart(adj, level, a + b)
  {

  }

  lemma PlanPartEmpty(adj: Grid<bool>, level: nat)
    requires Square(adj, |adj|)
    ensures PlanPart(adj, level, [])
  {
  }

  lemma EarlierRow(s: Task, t: Task)
    requires s.edgeX < t.edgeX
    ensures Before(s, t)
  {
  }

  lemma EarlierEdge(s: Task, t: Task)
    requires s.edgeX == t.edgeX && s.edgeY < t.edgeY
    ensures Before(s, t)
  {
  }

  lemma {:induction false} RowShape(adj: Grid<bool>, level: nat, x: nat, yEnd: nat)
    requires Square(adj, |adj|) && x < |adj| && yEnd <= |adj|
    ensures PlanPart(adj, level, RowTasks(adj, level, x, yEnd))
    ensures forall t :: t in RowTasks(adj, level, x, yEnd) ==> t.edgeX == x && t.edgeY < yEnd
    decreases yEnd
  {
    hide PlanPart, TaskOf, Before, EdgeTasks;
    PlanPartEmpty(adj, level);
    if yEnd > x + 1 {
      var y := yEnd - 1;
      RowShape(adj, level, x, y);
      if adj[x][y] {
        var row, e := RowTasks(adj, level, x, y), EdgeTasks(adj, level, x, y);
        EdgePart(adj, level, x, y);
        forall s, t | s in row && t in e
          ensures Before(s, t)
        {
          EarlierEdge(s, t);
        }
        PlanPartConcat(adj, level, row, e);
      } else {
        assert RowTasks(adj, level, x, yEnd) == RowTasks(adj, level, x, y);
      }
    }
  }

  lemma EdgePart(adj: Grid<bool>, level: nat, x: nat, y: nat)
    requires Square(adj, |adj|) && x < y < |adj| && adj[x][y]
    ensures PlanPart(adj, level, EdgeTasks(adj, level, x, y))
    ensures forall t :: t in EdgeTasks(adj, level, x, y) ==> t.edgeX == x && t.edgeY == y
  {
    EdgeTasksShape(adj, level, x, y);
  }

  lemma {:induction false} BelowShape(adj: Grid<bool>, level: nat, xEnd: nat)
    requires Square(adj, |adj|) && xEnd <= |adj|
    ensures PlanPart(adj, level, TasksBelow(adj, level, xEnd))
    ensures forall t :: t in TasksBelow(adj, level, xEnd) ==> t.edgeX < xEnd
  {
    hide PlanPart, TaskOf, Before, RowTasks;
    PlanPartEmpty(adj, level);
    if xEnd > 0 {
      BelowShape(adj, level, xEnd - 1);
      RowShape(adj, level, xEnd - 1, |adj|);
      var above, row := TasksBelow(adj, level, xEnd - 1), RowTasks(adj, level, xEnd - 1, |adj|);
      forall s, t | s in above && t in row
        ensures Before(s, t)
      {
        EarlierRow(s, t);
      }
      PlanPartConcat(adj, level, above, row);
    }
  }

  /** Every planned test is a test of a currently adjacent pair given `level` neighbours of the
      oriented source, and the tests of each edge stand in pcalg order. */
  lemma PlanShape(adj: Grid<bool>, level: nat)
    requires Square(adj, |adj|)
    ensures PlanPart(adj, level, Plan(adj, level))
  {
    BelowShape(adj, level, |adj|);
  }

  lemma {:induction false} EdgeInRow(adj: Grid<bool>, level: nat, x: nat, y: nat, yEnd: nat, t: Task)
    requires Square(adj, |adj|) && x < y < yEnd <= |adj| && adj[x][y]
    requires t in EdgeTasks(adj, level, x, y)
    ensures t in RowTasks(adj, level, x, yEnd)
    decreases yEnd
  {
    hide EdgeTasks;
    if y < yEnd - 1 {
      EdgeInRow(adj, level, x, y, yEnd - 1, t);
    }
  }

  lemma {:induction false} EdgeInBelow(adj: Grid<bool>, level: nat, x: nat, y: nat, xEnd: nat, t: Task)
    requires Square(adj, |adj|) && x < y < |adj| && x < xEnd <= |adj| && adj[x][y]
    requires t in EdgeTasks(adj, level, x, y)
    ensures t in TasksBelow(adj, level, xEnd)
    decreases xEnd
  {
    hide EdgeTasks, RowTasks;
    if x < xEnd - 1 {
      EdgeInBelow(adj, level, x, y, xEnd - 1, t);
    } else {
      EdgeInRow(adj, level, x, y, |adj|, t);
    }
  }

  /** Every selection of `level` neighbours of either end of an adjacent pair is planned. */
  lemma PlanComplete(adj: Grid<bool>, level: nat, x: nat, y: nat, ox: nat, oy: nat, c: seq<nat>) returns (t: Task)
    requires Square(adj, |adj|) && x < y < |adj| && adj[x][y]
    requires (ox == x && oy == y) || (ox == y && oy == x)
    requires SelectionOf(c, Neighbors(adj, ox, oy), level)
    ensures t in Plan(adj, level) && TaskOf(adj, level, x, y, t)
    ensures t.orientX == ox && t.orientY == oy && t.conditioning == c
  {
    var neighbors := Neighbors(adj, ox, oy);
    NeighborsShape(adj, ox, oy, |adj|);
    CombosComplete(neighbors, level, c);
    var side := SideTasks(|adj|, level, x, y, ox, oy, neighbors);
    var i :| 0 <= i < |Combos(neighbors, level)| && Combos(neighbors, level)[i] == c;
    t := side[i];
    assert t in side;
    var e := EdgeTasks(adj, level, x, y);
    assert t in e;
    EdgeTasksShape(adj, level, x, y);
    hide EdgeTasks, SideTasks, TaskOf, Before, Combos;
    var j :| 0 <= j < |e| && e[j] == t;
    EdgeInBelow(adj, level, x, y, |adj|, t);
  }
}
