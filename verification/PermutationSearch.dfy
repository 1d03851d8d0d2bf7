/** The permutation methods over all levels: p-values, graph and generator state of the
    sequential pcalg search. */
module PermutationSearch {
  import opened Collections
  import opened Grids
  import opened LayerPlan
  import opened Skeleton
  import opened Frontier
  import opened PcalgOrder
  import opened OneCall
  import PermutationRun

  ghost predicate ValidGraph(r: Run, p: nat) {
    ValidRun(r, p) && Symmetric(r.adj, p)
  }

  /** The tests of one level in pcalg order, and the generator state they leave. */
  function LevelLog<R>(adj: Grid<bool>, level: nat, rng: R, oracle: DrawingOracle<R>, alpha: real): (seq<Record>, R)
    requires Square(adj, |adj|)
  {
    Perform(Order(adj, level), 0, {}, rng, [], oracle, alpha)
  }

  lemma LogShape<R>(adj: Grid<bool>, level: nat, rng: R, oracle: DrawingOracle<R>, alpha: real)
    requires Square(adj, |adj|) && Symmetric(adj, |adj|)
    ensures var log := LevelLog(adj, level, rng, oracle, alpha).0;
      LogOf(Order(adj, level), log) && AllInRange(log, |adj|)
  {
    var order := Order(adj, level);
    OrderBelowShape(adj, level, |adj|);
    PerformLog(order, 0, {}, rng, [], oracle, alpha);
    var log := LevelLog(adj, level, rng, oracle, alpha).0;
    PlanInRange(adj, level);
    hide Order, Plan, LevelLog, AscendingLog;
    forall i | 0 <= i < |log|
      ensures InRange(log[i].task, |adj|)
    {
      assert log[i] in log;
      SameTests(adj, level, log[i].task);
      var k :| 0 <= k < |Plan(adj, level)| && Plan(adj, level)[k] == log[i].task;
    }
  }

  ghost function NextLevel<R>(r: Run, level: nat, rng: R, oracle: DrawingOracle<R>, alpha: real, p: nat): (s: (Run, R))
    requires ValidGraph(r, p)
    ensures ValidGraph(s.0, p)
  {
    var (log, rng') := LevelLog(r.adj, level, rng, oracle, alpha);
    LogShape(r.adj, level, rng, oracle, alpha);
    var start := State(r.pmax, r.sepsets, Fill(p, false));
    ReplaySymmetric(start, log, alpha, p);
    var end := Replay(start, log, alpha, p);
    (Run(Remove(r.adj, end.deletes, p), end.pmax, end.sepsets), rng')
  }

  /** The sequential pcalg search after its first `n` levels, none of them skipped. */
  ghost function After<R>(p: nat, rng: R, oracle: DrawingOracle<R>, alpha: real, n: nat): (s: (Run, R))
    ensures ValidGraph(s.0, p)
  {
    if n == 0 then (Start(p), rng)
    else
      var (r, rng') := After(p, rng, oracle, alpha, n - 1);
      NextLevel(r, n - 1, rng', oracle, alpha, p)
  }

  // ------------------------------------- replay in plan order, run in pcalg order

  lemma {:induction false} OfEdgeMembers(log: seq<Record>, x: nat, y: nat, r: Record)
    ensures r in OfEdge(log, x, y) <==> r in log && OnEdge(r.task, x, y)
    decreases |log|
  {
    if log != [] {
      OfEdgeMembers(log[..|log| - 1], x, y, r);
      assert log == log[..|log| - 1] + [log[|log| - 1]];
    }
  }

  ghost predicate AscendingOn(log: seq<Record>, x: nat, y: nat) {
    forall j, k :: 0 <= j < k < |log| && OnEdge(log[j].task, x, y) && OnEdge(log[k].task, x, y) ==>
      PcalgLess(log[j].task, log[k].task)
  }

  lemma {:induction false} OfEdgeAscending(log: seq<Record>, x: nat, y: nat)
    requires AscendingOn(log, x, y)
    ensures AscendingLog(OfEdge(log, x, y))
    decreases |log|
  {
    hide PcalgLess;
    if log != [] {
      var front, last := log[..|log| - 1], log[|log| - 1];
      OfEdgeAscending(front, x, y);
      var all := OfEdge(front, x, y);
      forall j | 0 <= j < |all| && OnEdge(last.task, x, y)
        ensures PcalgLess(all[j].task, last.task)
      {
        OfEdgeMembers(front, x, y, all[j]);
        assert all[j] in all;
        var k :| 0 <= k < |front| && front[k] == all[j];
        assert log[k] == front[k];
      }
    }
  }

  lemma {:induction false} KeptMembers(tasks: seq<Task>, results: map<nat, Probability>, n: nat, r: Record)
    requires n <= |tasks|
    ensures r in Kept(tasks, results, n) <==> exists i :: 0 <= i < n && i in results && r == Record(tasks[i], results[i])
  {
    if n > 0 {
      KeptMembers(tasks, results, n - 1, r);
    }
  }

  lemma {:induction false} KeptAscending(tasks: seq<Task>, results: map<nat, Probability>, n: nat, x: nat, y: nat)
    requires n <= |tasks|
    requires forall i, j :: 0 <= i < j < |tasks| && OnEdge(tasks[i], x, y) && OnEdge(tasks[j], x, y) ==>
      PcalgLess(tasks[i], tasks[j])
    ensures AscendingOn(Kept(tasks, results, n), x, y)
  {
    hide PcalgLess, OnEdge;
    if n > 0 {
      KeptAscending(tasks, results, n - 1, x, y);
      var front, all := Kept(tasks, results, n - 1), Kept(tasks, results, n);
      forall k | 0 <= k < |front| && OnEdge(front[k].task, x, y) && OnEdge(tasks[n - 1], x, y)
        ensures PcalgLess(front[k].task, tasks[n - 1])
      {
        KeptMembers(tasks, results, n - 1, front[k]);
        assert front[k] in front;
      }
    }
  }

  /** Replaying the finished tests in plan order leaves the state the pcalg order left. */
  lemma ReplayAgrees(tasks: seq<Task>, results: map<nat, Probability>, log: seq<Record>, s: State, alpha: real, p: nat)
    requires ValidState(s, p) && Symmetric(s.pmax, p) && AllTasksInRange(tasks, p)
    requires forall i, j :: 0 <= i < j < |tasks| ==> Before(tasks[i], tasks[j])
    requires (forall i :: i in results ==> i < |tasks|) && PermutationRun.RecordsOf(tasks, results, log)
    requires AscendingLog(log) && AllInRange(log, p)
    ensures AllInRange(Kept(tasks, results, |tasks|), p)
    ensures Replay(s, Kept(tasks, results, |tasks|), alpha, p) == Replay(s, log, alpha, p)
  {
    var kept := Kept(tasks, results, |tasks|);
    KeptInRange(tasks, results, |tasks|, p);
    forall x: nat, y: nat | x < p && y < p
      ensures OfEdge(kept, x, y) == OfEdge(log, x, y)
    {
      EdgeTasksAscend(tasks, p, x, y);
      KeptAscending(tasks, results, |tasks|, x, y);
      OfEdgeAscending(kept, x, y);
      OfEdgeAscending(log, x, y);
      forall r
        ensures r in OfEdge(kept, x, y) <==> r in OfEdge(log, x, y)
      {
        OfEdgeMembers(kept, x, y, r);
        OfEdgeMembers(log, x, y, r);
        KeptMembers(tasks, results, |tasks|, r);
      }
      AscendingUnique(OfEdge(kept, x, y), OfEdge(log, x, y));
    }
    ReplayIgnoresInterleaving(s, kept, log, alpha, p);
  }

  lemma EdgeTasksAscend(tasks: seq<Task>, p: nat, x: nat, y: nat)
    requires AllTasksInRange(tasks, p) && forall i, j :: 0 <= i < j < |tasks| ==> Before(tasks[i], tasks[j])
    ensures forall i, j :: 0 <= i < j < |tasks| && OnEdge(tasks[i], x, y) && OnEdge(tasks[j], x, y) ==>
      PcalgLess(tasks[i], tasks[j])
  {
    forall i, j | 0 <= i < j < |tasks| && OnEdge(tasks[i], x, y) && OnEdge(tasks[j], x, y)
      ensures PcalgLess(tasks[i], tasks[j])
    {
      assert InRange(tasks[i], p) && InRange(tasks[j], p);
    }
  }

  // -------------------------------------------------- counting, in either order

  lemma {:induction false} RecordCount(log: seq<Record>)
    requires Distinct(log)
    ensures |log| == |set r | r in log|
    decreases |log|
  {
    if log != [] {
      var front, last := log[..|log| - 1], log[|log| - 1];
      RecordCount(front);
      assert (set r | r in log) == (set r | r in front) + {last};
    }
  }

  lemma AcceptedLast(front: seq<Record>, last: Record, alpha: real)
    ensures (set r | r in front + [last] && alpha <= r.p)
            == (set r | r in front && alpha <= r.p) + (if alpha <= last.p then {last} else {})
  {
  }

  lemma {:induction false} AcceptedCount(log: seq<Record>, alpha: real)
    requires Distinct(log)
    ensures Accepted(log, alpha) == |set r | r in log && alpha <= r.p|
    decreases |log|
  {
    if log != [] {
      var front, last := log[..|log| - 1], log[|log| - 1];
      assert log == front + [last];
      assert Distinct(front) && last !in front;
      hide Distinct;
      AcceptedCount(front, alpha);
      AcceptedLast(front, last, alpha);
    }
  }

  /** Two logs of the same records count the same. */
  lemma SameCounts(a: seq<Record>, b: seq<Record>, alpha: real)
    requires Distinct(a) && Distinct(b) && forall r :: r in a <==> r in b
    ensures |a| == |b| && Accepted(a, alpha) == Accepted(b, alpha) && (OpensIn(a) <==> OpensIn(b))
  {
    RecordCount(a);
    RecordCount(b);
    AcceptedCount(a, alpha);
    AcceptedCount(b, alpha);
    assert (set r | r in a) == (set r | r in b);
    assert (set r | r in a && alpha <= r.p) == (set r | r in b && alpha <= r.p);
    OpensMember(a, b);
    OpensMember(b, a);
  }

  lemma OpensMember(a: seq<Record>, b: seq<Record>)
    requires forall r :: r in a ==> r in b
    ensures OpensIn(a) ==> OpensIn(b)
  {
    if k :| 0 <= k < |a| && a[k].task.opensNext {
      assert a[k] in b;
    }
  }

  lemma {:induction false} KeptDistinct(tasks: seq<Task>, results: map<nat, Probability>, n: nat)
    requires n <= |tasks| && forall i, j :: 0 <= i < j < |tasks| ==> tasks[i] != tasks[j]
    ensures Distinct(Kept(tasks, results, n))
  {
    if n > 0 {
      KeptDistinct(tasks, results, n - 1);
      var front := Kept(tasks, results, n - 1);
      forall k | 0 <= k < |front|
        ensures front[k].task != tasks[n - 1]
      {
        KeptMembers(tasks, results, n - 1, front[k]);
        assert front[k] in front;
      }
    }
  }

  lemma AscendingDistinct(log: seq<Record>)
    requires AscendingLog(log)
    ensures Distinct(log)
  {
    hide PcalgLess;
    forall i, j | 0 <= i < j < |log|
      ensures log[i] != log[j]
    {
      PcalgLessStrict(log[i].task, log[i].task);
    }
  }

  /** The finished tests, counted in plan order, count as the sequential log does. */
  lemma CountsAgree(tasks: seq<Task>, results: map<nat, Probability>, log: seq<Record>, alpha: real)
    requires PermutationRun.PlanContract(tasks) && (forall i :: i in results ==> i < |tasks|)
    requires PermutationRun.RecordsOf(tasks, results, log) && AscendingLog(log)
    ensures |Kept(tasks, results, |tasks|)| == |log| && Accepted(Kept(tasks, results, |tasks|), alpha) == Accepted(log, alpha)
    ensures OpensNext(tasks, results) <==> OpensIn(log)
  {
    hide AscendingLog, Accepted, OpensIn;
    var kept := Kept(tasks, results, |tasks|);
    KeptDistinct(tasks, results, |tasks|);
    AscendingDistinct(log);
    forall r
      ensures r in kept <==> r in log
    {
      KeptMembers(tasks, results, |tasks|, r);
    }
    SameCounts(kept, log, alpha);
    KeptOpens(tasks, results, |tasks|);
  }

  /** Every planned test counts once, as replayed or as ignored; the replayed ones are the tests of the
      sequential search and the deletions its accepted tests. */
  ghost predicate CountsOf<R>(c: LevelCounts, r: Run, level: nat, rng: R, oracle: DrawingOracle<R>, alpha: real)
    requires Square(r.adj, |r.adj|)
  {
    && c.level == level
    && c.planned == |Plan(r.adj, level)| == c.replayed + c.ignored
    && c.replayed == |LevelLog(r.adj, level, rng, oracle, alpha).0|
    && c.deletions == Accepted(LevelLog(r.adj, level, rng, oracle, alpha).0, alpha)
  }

  // ----------------------------------------------------------------- one level

  /** The plan meets what the scheduler relies on. */
  lemma PlanIsContract(adj: Grid<bool>, level: nat)
    requires Square(adj, |adj|) && Symmetric(adj, |adj|)
    ensures PermutationRun.PlanContract(Plan(adj, level))
    ensures PermutationRun.SameMembers(Plan(adj, level), Order(adj, level))
    ensures PcalgAscending(Order(adj, level))
    ensures forall i, j :: 0 <= i < j < |Plan(adj, level)| ==> Before(Plan(adj, level)[i], Plan(adj, level)[j])
  {
    var tasks := Plan(adj, level);
    PlanShape(adj, level);
    OrderBelowShape(adj, level, |adj|);
    forall t: Task
      ensures t in tasks <==> t in Order(adj, level)
    {
      SameTests(adj, level, t);
    }
    forall i, j | 0 <= i < j < |tasks|
      ensures tasks[i] != tasks[j]
      ensures tasks[i].edgeKey == tasks[j].edgeKey ==> PcalgLess(tasks[i], tasks[j])
    {
      PlannedBefore(adj, level, i, j);
    }
  }

  lemma PlannedBefore(adj: Grid<bool>, level: nat, i: nat, j: nat)
    requires Square(adj, |adj|) && i < j < |Plan(adj, level)|
    ensures var s, t := Plan(adj, level)[i], Plan(adj, level)[j];
      s != t && (s.edgeKey == t.edgeKey ==> PcalgLess(s, t))
  {
    hide Plan;
    PlanShape(adj, level);
    var s, t := Plan(adj, level)[i], Plan(adj, level)[j];
    PcalgLessStrict(s, t);
    if s.edgeKey == t.edgeKey {
      EdgeKeyInjective(|adj|, s.edgeX, s.edgeY, t.edgeX, t.edgeY);
    }
  }

  /** One level of a permutation method. */
  method RunLevel<R(!new)>(r: Run, level: nat, rng: R, oracle: DrawingOracle<R>, alpha: real, p: nat)
    returns (r': Run, rng': R, counts: LevelCounts, done: bool)
    requires ValidGraph(r, p)
    ensures (r', rng') == NextLevel(r, level, rng, oracle, alpha, p)
    ensures done <==> !OpensIn(LevelLog(r.adj, level, rng, oracle, alpha).0)
    ensures done ==> forall later :: later > level ==> NothingToTest(r'.adj, later)
    ensures CountsOf(counts, r, level, rng, oracle, alpha)
  {
    hide Plan, Order, DeletesOk, OpensNext, Kept, Accepted, Symmetric, PermutationRun.RecordsOf, PermutationRun.PlanContract,
      PermutationRun.SameMembers, PcalgAscending, Before, AscendingLog, PermutationRun.GoneEdge, OpensIn;
    var tasks := MakeLayerPlan(r.adj, level);
    PlanInRange(r.adj, level);
    PlanIsContract(r.adj, level);
    LogShape(r.adj, level, rng, oracle, alpha);
    var b;
    ghost var log;
    b, rng', log := PermutationRun.RunFrontier(tasks, p * p, p, alpha, oracle, rng, Order(r.adj, level));
    ghost var start := State(r.pmax, r.sepsets, Fill(p, false));
    ReplayAgrees(tasks, b.results, log, start, alpha, p);
    FrontierDeletes(tasks, b.results, alpha, b.deletes, p, start);
    var pmax, sepsets, replayed, deletions := CanonicalReplay(tasks, b.results, alpha, p, r.pmax, r.sepsets);
    r' := Run(Remove(r.adj, b.deletes, p), pmax, sepsets);
    KeptCount(tasks, b.results);
    CountsAgree(tasks, b.results, log, alpha);
    counts := LevelCounts(level, |tasks|, replayed, b.ignored, deletions, replayed);
    done := b.pcalgDone;
    if done {
      forall later | later > level
        ensures NothingToTest(r'.adj, later)
      {
        LevelStops(r, level, later, tasks, b.results, alpha, b.deletes, p);
      }
    }
  }

  lemma KeptCount(tasks: seq<Task>, results: map<nat, Probability>)
    requires forall i :: i in results ==> i < |tasks|
    ensures |Kept(tasks, results, |tasks|)| == |results|
  {
    KeptSize(tasks, results, |tasks|);
    assert (set i | i in results && i < |tasks|) == results.Keys;
  }

  lemma LevelStops(r: Run, level: nat, later: nat, tasks: seq<Task>, results: map<nat, Probability>, alpha: real,
                   deletes: Grid<bool>, p: nat)
    requires ValidGraph(r, p) && later > level && tasks == Plan(r.adj, level)
    requires Square(deletes, p) && DeletesOk(tasks, results, alpha, deletes, p) && !OpensNext(tasks, results)
    requires forall t :: 0 <= t < |tasks| ==> t in results || PermutationRun.GoneEdge(tasks, results, alpha, tasks[t].edgeKey)
    ensures NothingToTest(Remove(r.adj, deletes, p), later)
  {
    var log := Kept(tasks, results, |tasks|);
    KeptOpens(tasks, results, |tasks|);
    forall x: nat, y: nat, t | x < y < p && r.adj[x][y] && !deletes[x][y] && t in EdgeTasks(r.adj, level, x, y)
      ensures TestedIn(log, t)
    {
      SurvivorRan(r.adj, level, x, y, t, results, alpha, deletes);
    }
    StopIsFinal(r.adj, level, later, log, deletes, p);
  }

  lemma SurvivorRan(adj: Grid<bool>, level: nat, x: nat, y: nat, t: Task, results: map<nat, Probability>, alpha: real, deletes: Grid<bool>)
    requires Square(adj, |adj|) && x < y < |adj| && adj[x][y] && t in EdgeTasks(adj, level, x, y)
    requires Square(deletes, |adj|) && DeletesOk(Plan(adj, level), results, alpha, deletes, |adj|) && !deletes[x][y]
    requires forall i :: 0 <= i < |Plan(adj, level)| ==>
      i in results || PermutationRun.GoneEdge(Plan(adj, level), results, alpha, Plan(adj, level)[i].edgeKey)
    ensures TestedIn(Kept(Plan(adj, level), results, |Plan(adj, level)|), t)
  {
    var tasks := Plan(adj, level);
    EdgeInBelow(adj, level, x, y, |adj|, t);
    EdgeTasksShape(adj, level, x, y);
    var i :| 0 <= i < |tasks| && tasks[i] == t;
    if PermutationRun.GoneEdge(tasks, results, alpha, t.edgeKey) {
      var j :| j in results && j < |tasks| && tasks[j].edgeKey == t.edgeKey && alpha <= results[j];
      PlannedTask(adj, level, j);
      EdgeKeyInjective(|adj|, tasks[j].edgeX, tasks[j].edgeY, x, y);
    }
    var r := Record(t, results[i]);
    KeptMembers(tasks, results, |tasks|, r);
    var log := Kept(tasks, results, |tasks|);
    var k :| 0 <= k < |log| && log[k] == r;
  }

  // ---------------------------------------------------------------- the whole run

  lemma {:induction false} EmptyFrom(adj: Grid<bool>, level: nat, ox: nat, oyEnd: nat)
    requires NothingToTest(adj, level) && Symmetric(adj, |adj|) && ox < |adj| && oyEnd <= |adj|
    ensures FromVertex(adj, level, ox, oyEnd) == []
  {
    if oyEnd > 0 {
      EmptyFrom(adj, level, ox, oyEnd - 1);
      if oyEnd - 1 != ox && adj[ox][oyEnd - 1] {
        assert OrientedTasks(adj, level, ox, oyEnd - 1) == [];
      }
    }
  }

  lemma NothingSquare(adj: Grid<bool>, level: nat)
    requires NothingToTest(adj, level)
    ensures Square(adj, |adj|)
  {
  }

  lemma {:induction false} EmptyOrder(adj: Grid<bool>, level: nat, oxEnd: nat)
    requires NothingToTest(adj, level) && Symmetric(adj, |adj|) && oxEnd <= |adj|
    ensures OrderBelow(adj, level, oxEnd) == []
  {
    hide FromVertex, NothingToTest, Symmetric;
    NothingSquare(adj, level);
    if oxEnd > 0 {
      EmptyOrder(adj, level, oxEnd - 1);
      EmptyFrom(adj, level, oxEnd - 1, |adj|);
    }
  }

  lemma IdleLevel<R>(r: Run, level: nat, rng: R, oracle: DrawingOracle<R>, alpha: real, p: nat)
    requires ValidGraph(r, p) && NothingToTest(r.adj, level)
    ensures NextLevel(r, level, rng, oracle, alpha, p) == (r, rng)
  {
    EmptyOrder(r.adj, level, |r.adj|);
    var next := NextLevel(r, level, rng, oracle, alpha, p).0;
    assert LevelLog(r.adj, level, rng, oracle, alpha) == ([], rng);
    SameCells(next.adj, r.adj, p);
  }

  lemma {:induction false} IdleForever<R>(p: nat, rng: R, oracle: DrawingOracle<R>, alpha: real, stop: nat, n: nat)
    requires stop <= n
    requires forall later :: stop <= later ==> NothingToTest(After(p, rng, oracle, alpha, stop).0.adj, later)
    ensures After(p, rng, oracle, alpha, n) == After(p, rng, oracle, alpha, stop)
    decreases n
  {
    hide NothingToTest, NextLevel;
    if n > stop {
      IdleForever(p, rng, oracle, alpha, stop, n - 1);
      var (r, rng') := After(p, rng, oracle, alpha, stop);
      IdleLevel(r, n - 1, rng', oracle, alpha, p);
    }
  }

  lemma StartGraph(p: nat)
    ensures ValidGraph(Start(p), p)
  {
  }

  ghost predicate CountsAfter<R>(c: LevelCounts, p: nat, rng: R, oracle: DrawingOracle<R>, alpha: real, k: nat) {
    CountsOf(c, After(p, rng, oracle, alpha, k).0, k, After(p, rng, oracle, alpha, k).1, oracle, alpha)
  }

  /** Some test of level k lets the search go on to the next. */
  ghost predicate GoesOn<R>(p: nat, rng: R, oracle: DrawingOracle<R>, alpha: real, k: nat) {
    var s := After(p, rng, oracle, alpha, k);
    OpensIn(LevelLog(s.0.adj, k, s.1, oracle, alpha).0)
  }

  /** The permutation search over all levels returns graph, maxima, separating sets and generator
      state of the sequential pcalg search that never stops early. */
  method RunSkeleton<R(!new)>(p: nat, rng: R, oracle: DrawingOracle<R>, alpha: real, maxLevel: nat)
    returns (r: Run, rng': R, counts: seq<LevelCounts>)
    ensures (r, rng') == After(p, rng, oracle, alpha, maxLevel + 1)
    ensures 1 <= |counts| <= maxLevel + 1
    ensures forall k :: 0 <= k < |counts| ==> CountsAfter(counts[k], p, rng, oracle, alpha, k)
    ensures forall k :: |counts| <= k <= maxLevel ==> After(p, rng, oracle, alpha, k) == (r, rng')
    ensures forall k :: 0 <= k < |counts| - 1 ==> GoesOn(p, rng, oracle, alpha, k)
    ensures |counts| <= maxLevel ==> !GoesOn(p, rng, oracle, alpha, |counts| - 1)
  {
    hide Plan, NextLevel, ValidGraph, CountsOf, LevelLog, OpensIn;
    StartGraph(p);
    r, rng', counts := Start(p), rng, [];
    var level := 0;
    while level <= maxLevel
      invariant level <= maxLevel + 1 && |counts| == level
      invariant ValidGraph(r, p) && (r, rng') == After(p, rng, oracle, alpha, level)
      invariant forall k :: 0 <= k < level ==> CountsAfter(counts[k], p, rng, oracle, alpha, k)
      invariant forall k :: 0 <= k < level ==> GoesOn(p, rng, oracle, alpha, k)
    {
      var c, done;
      r, rng', c, done := RunLevel(r, level, rng', oracle, alpha, p);
      counts := counts + [c];
      level := level + 1;
      assert (r, rng') == After(p, rng, oracle, alpha, level);
      if done {
        forall n | level <= n <= maxLevel + 1
          ensures After(p, rng, oracle, alpha, n) == After(p, rng, oracle, alpha, level)
        {
          IdleForever(p, rng, oracle, alpha, level, n);
        }
        return;
      }
    }
  }
}
