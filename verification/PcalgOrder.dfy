/** The order in which pcalg performs the tests of a level, and the sequential search in it. */
module PcalgOrder {
  import opened Grids
  import opened LayerPlan
  import opened Skeleton

  /** A test that draws random numbers: its p-value and the generator state it leaves. */
  type DrawingOracle<!R> = (nat, nat, seq<nat>, R) -> (Probability, R)

  // -------------------------------------------------------------- the order itself

  function OrientedTasks(adj: Grid<bool>, level: nat, ox: nat, oy: nat): seq<Task>
    requires Square(adj, |adj|) && ox < |adj| && oy < |adj|
  {
    if ox < oy then SideTasks(|adj|, level, ox, oy, ox, oy, Neighbors(adj, ox, oy))
    else SideTasks(|adj|, level, oy, ox, ox, oy, Neighbors(adj, ox, oy))
  }

  function FromVertex(adj: Grid<bool>, level: nat, ox: nat, oyEnd: nat): seq<Task>
    requires Square(adj, |adj|) && ox < |adj| && oyEnd <= |adj|
  {
    if oyEnd == 0 then []
    else FromVertex(adj, level, ox, oyEnd - 1) +
         if oyEnd - 1 != ox && adj[ox][oyEnd - 1] then OrientedTasks(adj, level, ox, oyEnd - 1) else []
  }

  function OrderBelow(adj: Grid<bool>, level: nat, oxEnd: nat): seq<Task>
    requires Square(adj, |adj|) && oxEnd <= |adj|
  {
    if oxEnd == 0 then []
    else OrderBelow(adj, level, oxEnd - 1) + FromVertex(adj, level, oxEnd - 1, |adj|)
  }

  /** All tests of the level by source vertex, then target, then conditioning set. */
  function Order(adj: Grid<bool>, level: nat): seq<Task>
    requires Square(adj, |adj|)
  {
    OrderBelow(adj, level, |adj|)
  }

  // ------------------------------------------------------- it is strictly ascending

  lemma PcalgLessTransitive(r: Task, s: Task, t: Task)
    requires PcalgLess(r, s) && PcalgLess(s, t)
    ensures PcalgLess(r, t)
  {
    if LexLess(r.conditioning, s.conditioning) && LexLess(s.conditioning, t.conditioning) {
      LexLessTransitive(r.conditioning, s.conditioning, t.conditioning);
    }
  }

  lemma PcalgLessStrict(s: Task, t: Task)
    ensures !PcalgLess(s, s)
    ensures !(PcalgLess(s, t) && PcalgLess(t, s))
    ensures PcalgLess(s, t) || PcalgLess(t, s)
            || (s.orientX == t.orientX && s.orientY == t.orientY && s.conditioning == t.conditioning)
  {
    LexLessStrict(s.conditioning, s.conditioning);
    LexLessStrict(s.conditioning, t.conditioning);
  }

  ghost predicate PcalgAscending(tasks: seq<Task>) {
    forall i, j :: 0 <= i < j < |tasks| ==> PcalgLess(tasks[i], tasks[j])
  }

  lemma AscendingEmpty()
    ensures PcalgAscending([])
  {
  }

  lemma EarlierSource(s: Task, t: Task)
    requires s.orientX < t.orientX
    ensures PcalgLess(s, t)
  {
  }

  lemma EarlierTarget(s: Task, t: Task)
    requires s.orientX == t.orientX && s.orientY < t.orientY
    ensures PcalgLess(s, t)
  {
  }

  lemma AscendingConcat(a: seq<Task>, b: seq<Task>)
    requires PcalgAscending(a) && PcalgAscending(b) && forall s, t :: s in a && t in b ==> PcalgLess(s, t)
    ensures PcalgAscending(a + b)
  {
  }

  lemma OrientedShape(adj: Grid<bool>, level: nat, ox: nat, oy: nat)
    requires Square(adj, |adj|) && ox < |adj| && oy < |adj|
    ensures PcalgAscending(OrientedTasks(adj, level, ox, oy))
    ensures forall t :: t in OrientedTasks(adj, level, ox, oy) ==> t.orientX == ox && t.orientY == oy
  {
    var neighbors := Neighbors(adj, ox, oy);
    NeighborsShape(adj, ox, oy, |adj|);
    var side := OrientedTasks(adj, level, ox, oy);
    forall i, j | 0 <= i < j < |side|
      ensures PcalgLess(side[i], side[j])
    {
      CombosAscend(neighbors, level, i, j);
    }
  }

  lemma {:induction false} FromVertexShape(adj: Grid<bool>, level: nat, ox: nat, oyEnd: nat)
    requires Square(adj, |adj|) && ox < |adj| && oyEnd <= |adj|
    ensures PcalgAscending(FromVertex(adj, level, ox, oyEnd))
    ensures forall t :: t in FromVertex(adj, level, ox, oyEnd) ==> t.orientX == ox && t.orientY < oyEnd
  {
    hide OrientedTasks;
    hide PcalgAscending, PcalgLess;
    AscendingEmpty();
    if oyEnd > 0 {
      FromVertexShape(adj, level, ox, oyEnd - 1);
      OrientedShape(adj, level, ox, oyEnd - 1);
      var front := FromVertex(adj, level, ox, oyEnd - 1);
      if oyEnd - 1 != ox && adj[ox][oyEnd - 1] {
        var side := OrientedTasks(adj, level, ox, oyEnd - 1);
        forall s, t | s in front && t in side
          ensures PcalgLess(s, t)
        {
          EarlierTarget(s, t);
        }
        AscendingConcat(front, side);
      } else {
        assert FromVertex(adj, level, ox, oyEnd) == front;
      }
    }
  }

  lemma {:induction false} OrderBelowShape(adj: Grid<bool>, level: nat, oxEnd: nat)
    requires Square(adj, |adj|) && oxEnd <= |adj|
    ensures PcalgAscending(OrderBelow(adj, level, oxEnd))
    ensures forall t :: t in OrderBelow(adj, level, oxEnd) ==> t.orientX < oxEnd
  {
    hide PcalgAscending, PcalgLess, FromVertex;
    AscendingEmpty();
    if oxEnd > 0 {
      OrderBelowShape(adj, level, oxEnd - 1);
      FromVertexShape(adj, level, oxEnd - 1, |adj|);
      var front, side := OrderBelow(adj, level, oxEnd - 1), FromVertex(adj, level, oxEnd - 1, |adj|);
      forall s, t | s in front && t in side
        ensures PcalgLess(s, t)
      {
        EarlierSource(s, t);
      }
      AscendingConcat(front, side);
    }
  }

  // -------------------------------------------------- it has the tests of the plan

  lemma {:induction false} InFromVertex(adj: Grid<bool>, level: nat, ox: nat, oy: nat, oyEnd: nat, t: Task)
    requires Square(adj, |adj|) && ox < |adj| && oy < oyEnd <= |adj| && oy != ox && adj[ox][oy]
    requires t in OrientedTasks(adj, level, ox, oy)
    ensures t in FromVertex(adj, level, ox, oyEnd)
  {
    hide OrientedTasks;
    if oy < oyEnd - 1 {
      InFromVertex(adj, level, ox, oy, oyEnd - 1, t);
    }
  }

  lemma {:induction false} InOrderBelow(adj: Grid<bool>, level: nat, ox: nat, oy: nat, oxEnd: nat, t: Task)
    requires Square(adj, |adj|) && ox < oxEnd <= |adj| && oy < |adj| && oy != ox && adj[ox][oy]
    requires t in OrientedTasks(adj, level, ox, oy)
    ensures t in OrderBelow(adj, level, oxEnd)
  {
    hide OrientedTasks, FromVertex;
    if ox < oxEnd - 1 {
      InOrderBelow(adj, level, ox, oy, oxEnd - 1, t);
    } else {
      InFromVertex(adj, level, ox, oy, |adj|, t);
    }
  }

  lemma {:induction false} RowSource(adj: Grid<bool>, level: nat, x: nat, yEnd: nat, t: Task) returns (y: nat)
    requires Square(adj, |adj|) && x < |adj| && yEnd <= |adj| && t in RowTasks(adj, level, x, yEnd)
    ensures x < y < yEnd && adj[x][y] && t in EdgeTasks(adj, level, x, y)
    decreases yEnd
  {
    hide EdgeTasks;
    if t in RowTasks(adj, level, x, yEnd - 1) {
      y := RowSource(adj, level, x, yEnd - 1, t);
    } else {
      y := yEnd - 1;
    }
  }

  lemma {:induction false} PlanSource(adj: Grid<bool>, level: nat, xEnd: nat, t: Task) returns (x: nat, y: nat)
    requires Square(adj, |adj|) && xEnd <= |adj| && t in TasksBelow(adj, level, xEnd)
    ensures x < xEnd && x < y < |adj| && adj[x][y] && t in EdgeTasks(adj, level, x, y)
  {
    hide EdgeTasks, RowTasks;
    if t in TasksBelow(adj, level, xEnd - 1) {
      x, y := PlanSource(adj, level, xEnd - 1, t);
    } else {
      x := xEnd - 1;
      y := RowSource(adj, level, x, |adj|, t);
    }
  }

  lemma {:induction false} VertexSource(adj: Grid<bool>, level: nat, ox: nat, oyEnd: nat, t: Task) returns (oy: nat)
    requires Square(adj, |adj|) && ox < |adj| && oyEnd <= |adj| && t in FromVertex(adj, level, ox, oyEnd)
    ensures oy < oyEnd && oy != ox && adj[ox][oy] && t in OrientedTasks(adj, level, ox, oy)
  {
    hide OrientedTasks;
    if t in FromVertex(adj, level, ox, oyEnd - 1) {
      oy := VertexSource(adj, level, ox, oyEnd - 1, t);
    } else {
      oy := oyEnd - 1;
    }
  }

  lemma {:induction false} OrderSource(adj: Grid<bool>, level: nat, oxEnd: nat, t: Task) returns (ox: nat, oy: nat)
    requires Square(adj, |adj|) && oxEnd <= |adj| && t in OrderBelow(adj, level, oxEnd)
    ensures ox < oxEnd && oy < |adj| && oy != ox && adj[ox][oy] && t in OrientedTasks(adj, level, ox, oy)
  {
    hide OrientedTasks, FromVertex;
    if t in OrderBelow(adj, level, oxEnd - 1) {
      ox, oy := OrderSource(adj, level, oxEnd - 1, t);
    } else {
      ox := oxEnd - 1;
      oy := VertexSource(adj, level, ox, |adj|, t);
    }
  }

  /** On a symmetric graph the pcalg order and the plan hold the same tests. */
  lemma SameTests(adj: Grid<bool>, level: nat, t: Task)
    requires Square(adj, |adj|) && Symmetric(adj, |adj|)
    ensures t in Plan(adj, level) <==> t in Order(adj, level)
  {
    if t in Plan(adj, level) {
      var x, y := PlanSource(adj, level, |adj|, t);
      assert t in OrientedTasks(adj, level, x, y) || t in OrientedTasks(adj, level, y, x);
      if t in OrientedTasks(adj, level, x, y) {
        InOrderBelow(adj, level, x, y, |adj|, t);
      } else {
        InOrderBelow(adj, level, y, x, |adj|, t);
      }
    }
    if t in Order(adj, level) {
      var ox, oy := OrderSource(adj, level, |adj|, t);
      var x, y := if ox < oy then ox else oy, if ox < oy then oy else ox;
      assert t in EdgeTasks(adj, level, x, y);
      EdgeInBelow(adj, level, x, y, |adj|, t);
    }
  }

  // ---------------------------------------------------- the sequential search in it

  /** Performs the tests of `order` from position i on, skipping deleted edges and handing the
      generator state from test to test. */
  function Perform<R>(order: seq<Task>, i: nat, gone: set<nat>, rng: R, log: seq<Record>, oracle: DrawingOracle<R>, alpha: real)
    : (seq<Record>, R)
    requires i <= |order|
    decreases |order| - i
  {
    if i == |order| then (log, rng)
    else if order[i].edgeKey in gone then Perform(order, i + 1, gone, rng, log, oracle, alpha)
    else
      var (p, rng') := oracle(order[i].orientX, order[i].orientY, order[i].conditioning, rng);
      Perform(order, i + 1, if alpha <= p then gone + {order[i].edgeKey} else gone, rng',
              log + [Record(order[i], p)], oracle, alpha)
  }

  /** The tests performed stand in pcalg order, on tests of `order`, each possible p-value. */
  ghost predicate LogOf(order: seq<Task>, log: seq<Record>) {
    && AscendingLog(log)
    && (forall r :: r in log ==> r.task in order)
  }

  ghost predicate LogBefore(log: seq<Record>, order: seq<Task>, i: nat)
    requires i <= |order|
  {
    forall j, k :: 0 <= j < |log| && i <= k < |order| ==> PcalgLess(log[j].task, order[k])
  }

  lemma {:induction false} PerformLog<R>(order: seq<Task>, i: nat, gone: set<nat>, rng: R, log: seq<Record>, oracle: DrawingOracle<R>, alpha: real)
    requires i <= |order| && PcalgAscending(order) && LogOf(order, log) && LogBefore(log, order, i)
    ensures LogOf(order, Perform(order, i, gone, rng, log, oracle, alpha).0)
    decreases |order| - i
  {
    hide PcalgLess;
    if i < |order| {
      if order[i].edgeKey in gone {
        PerformLog(order, i + 1, gone, rng, log, oracle, alpha);
      } else {
        var (p, rng') := oracle(order[i].orientX, order[i].orientY, order[i].conditioning, rng);
        PerformLog(order, i + 1, if alpha <= p then gone + {order[i].edgeKey} else gone, rng',
                   log + [Record(order[i], p)], oracle, alpha);
      }
    }
  }

  /** The generator states between the tests: each test draws from the state the one before left. */
  ghost predicate Threaded<R(!new)>(log: seq<Record>, g: seq<R>, oracle: DrawingOracle<R>) {
    && |g| == |log| + 1
    && forall k :: 0 <= k < |log| ==>
      oracle(log[k].task.orientX, log[k].task.orientY, log[k].task.conditioning, g[k]) == (log[k].p, g[k + 1])
  }

  /** The log is that of a search in this order, its p-values drawn one after the other from the first
      generator state on, which leaves the last. */
  ghost predicate DrawnLog<R(!new)>(order: seq<Task>, log: seq<Record>, first: R, last: R, oracle: DrawingOracle<R>, alpha: real) {
    && SearchLog(order, log, alpha)
    && exists g: seq<R> :: Threaded(log, g, oracle) && g[0] == first && g[|log|] == last
  }

  /** The edges cut off are those with an accepted test. */
  ghost predicate GoneOf(log: seq<Record>, alpha: real, gone: set<nat>) {
    forall e :: e in gone <==> exists k :: 0 <= k < |log| && log[k].task.edgeKey == e && alpha <= log[k].p
  }

  lemma GoneNext(log: seq<Record>, alpha: real, gone: set<nat>, r: Record)
    requires GoneOf(log, alpha, gone)
    ensures GoneOf(log + [r], alpha, if alpha <= r.p then gone + {r.task.edgeKey} else gone)
  {
    var more, gone' := log + [r], if alpha <= r.p then gone + {r.task.edgeKey} else gone;
    forall e: nat
      ensures e in gone' <==> exists k :: 0 <= k < |more| && more[k].task.edgeKey == e && alpha <= more[k].p
    {
      if e in gone {
        var k :| 0 <= k < |log| && log[k].task.edgeKey == e && alpha <= log[k].p;
        assert more[k] == log[k];
      }
      assert more[|log|] == r;
    }
  }

  lemma GoneIsCut(order: seq<Task>, i: nat, log: seq<Record>, at: seq<nat>, alpha: real, gone: set<nat>)
    requires SearchUpTo(order, i, log, at, alpha) && GoneOf(log, alpha, gone) && i < |order|
    ensures order[i].edgeKey in gone <==> Cut(order, log, at, alpha, i)
  {
  }

  lemma ThreadedNext<R(!new)>(log: seq<Record>, g: seq<R>, oracle: DrawingOracle<R>, r: Record, next: R)
    requires Threaded(log, g, oracle)
    requires oracle(r.task.orientX, r.task.orientY, r.task.conditioning, g[|log|]) == (r.p, next)
    ensures Threaded(log + [r], g + [next], oracle)
  {
  }

  lemma {:induction false} PerformDraws<R(!new)>(order: seq<Task>, i: nat, gone: set<nat>, log: seq<Record>, oracle: DrawingOracle<R>,
                                            alpha: real, at: seq<nat>, g: seq<R>)
    requires i <= |order| && SearchUpTo(order, i, log, at, alpha) && GoneOf(log, alpha, gone) && Threaded(log, g, oracle)
    ensures var (full, last) := Perform(order, i, gone, g[|log|], log, oracle, alpha);
            DrawnLog(order, full, g[0], last, oracle, alpha)
    decreases |order| - i
  {
    hide SearchUpTo, GoneOf, Threaded, Cut;
    assert |g| == |log| + 1 by { ThreadedSize(log, g, oracle); }
    if i < |order| {
      GoneIsCut(order, i, log, at, alpha, gone);
      if order[i].edgeKey in gone {
        SearchNext(order, i, log, at, alpha, Record(order[i], 0.0));
        PerformDraws(order, i + 1, gone, log, oracle, alpha, at, g);
      } else {
        var (p, next) := oracle(order[i].orientX, order[i].orientY, order[i].conditioning, g[|log|]);
        var r := Record(order[i], p);
        SearchNext(order, i, log, at, alpha, r);
        GoneNext(log, alpha, gone, r);
        ThreadedNext(log, g, oracle, r, next);
        PerformDraws(order, i + 1, if alpha <= p then gone + {order[i].edgeKey} else gone, log + [r], oracle, alpha, at + [i], g + [next]);
      }
    } else {
      DrawnHere(order, log, oracle, alpha, at, g);
    }
  }

  lemma DrawnHere<R(!new)>(order: seq<Task>, log: seq<Record>, oracle: DrawingOracle<R>, alpha: real, at: seq<nat>, g: seq<R>)
    requires SearchUpTo(order, |order|, log, at, alpha) && Threaded(log, g, oracle)
    ensures DrawnLog(order, log, g[0], g[|log|], oracle, alpha)
  {
    hide SearchUpTo;
  }

  lemma ThreadedSize<R(!new)>(log: seq<Record>, g: seq<R>, oracle: DrawingOracle<R>)
    requires Threaded(log, g, oracle)
    ensures |g| == |log| + 1
  {
  }

  /** The sequential search in an order performs the tests not cut off, each drawing its p-value from the
      generator state the test before it left. */
  lemma PerformIsDrawn<R(!new)>(order: seq<Task>, rng: R, oracle: DrawingOracle<R>, alpha: real)
    ensures var (log, last) := Perform(order, 0, {}, rng, [], oracle, alpha); DrawnLog(order, log, rng, last, oracle, alpha)
  {
    PerformDraws(order, 0, {}, [], oracle, alpha, [], [rng]);
  }

  ghost predicate AscendingLog(log: seq<Record>) {
    forall j, k :: 0 <= j < k < |log| ==> PcalgLess(log[j].task, log[k].task)
  }

  lemma TailOfLog(log: seq<Record>, r: Record)
    requires AscendingLog(log) && log != []
    ensures AscendingLog(log[1..])
    ensures r in log[1..] <==> r in log && r != log[0]
    ensures r in log && r != log[0] ==> PcalgLess(log[0].task, r.task)
  {
    PcalgLessStrict(log[0].task, log[0].task);
    hide PcalgLess;
    if r in log && r != log[0] {
      var k :| 0 <= k < |log| && log[k] == r;
      assert log[1..][k - 1] == r;
    }
  }

  /** Two ascending logs with the same records are the same log. */
  lemma {:induction false} AscendingUnique(a: seq<Record>, b: seq<Record>)
    requires AscendingLog(a) && AscendingLog(b)
    requires forall r :: r in a <==> r in b
    ensures a == b
    decreases |a|
  {
    hide AscendingLog, PcalgLess;
    if b != [] {
      assert b[0] in b && b[0] in a;
    }
    if a != [] {
      assert a[0] in a && a[0] in b;
      assert b[0] in b && b[0] in a;
      PcalgLessStrict(a[0].task, b[0].task);
      TailOfLog(a, b[0]);
      TailOfLog(b, a[0]);
      assert a[0] == b[0];
      forall r
        ensures r in a[1..] <==> r in b[1..]
      {
        TailOfLog(a, r);
        TailOfLog(b, r);
      }
      AscendingUnique(a[1..], b[1..]);
      assert a == [a[0]] + a[1..] && b == [b[0]] + b[1..];
    }
  }
}
