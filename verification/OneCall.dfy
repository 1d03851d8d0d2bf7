/** The one-call skeleton search over all levels, and the sequential search it must equal. */
module OneCall {
  import opened Grids
  import opened LayerPlan
  import opened Skeleton
  import opened Frontier
  import opened FrontierRun
  import LruCache

  /** What the search returns. */
  datatype Run = Run(adj: Grid<bool>, pmax: Grid<Bound>, sepsets: Grid<seq<nat>>)

  ghost predicate ValidRun(r: Run, p: nat) {
    && |r.adj| == p && Square(r.adj, p) && Square(r.pmax, p) && Square(r.sepsets, p)
    && Symmetric(r.pmax, p)
  }

  function Start(p: nat): (r: Run)
    ensures ValidRun(r, p)
    ensures forall x, y :: 0 <= x < p && 0 <= y < p ==>
      r.adj[x][y] == (x != y) && r.pmax[x][y] == (if x == y then Val(1.0) else NegInf) && r.sepsets[x][y] == []
  {
    Run(seq(p, x => seq(p, y => x != y)), seq(p, x => seq(p, y => if x == y then Val(1.0) else NegInf)), Fill(p, []))
  }

  /** `adjacency[i] = 0` wherever the level marked a deletion. */
  function Remove(adj: Grid<bool>, deletes: Grid<bool>, p: nat): (r: Grid<bool>)
    requires Square(adj, p) && Square(deletes, p)
    ensures Square(r, p)
    ensures forall x, y :: 0 <= x < p && 0 <= y < p ==> r[x][y] == (adj[x][y] && !deletes[x][y])
  {
    seq(p, x requires 0 <= x < p => seq(p, y requires 0 <= y < p => adj[x][y] && !deletes[x][y]))
  }

  lemma PlannedTask(adj: Grid<bool>, level: nat, i: nat)
    requires Square(adj, |adj|) && i < |Plan(adj, level)|
    ensures var t := Plan(adj, level)[i]; TaskOf(adj, level, t.edgeX, t.edgeY, t)
  {
    hide Plan;
    PlanShape(adj, level);
  }

  /** A record of a planned test of a currently adjacent pair. */
  ghost predicate PlannedRecord(adj: Grid<bool>, level: nat, oracle: Oracle, r: Record)
    requires Square(adj, |adj|)
  {
    TaskOf(adj, level, r.task.edgeX, r.task.edgeY, r.task) && r.p == PValue(oracle, r.task)
  }

  lemma {:induction false} RecordsOfPlan(adj: Grid<bool>, level: nat, oracle: Oracle, alpha: real, n: nat)
    requires Square(adj, |adj|) && n <= |Plan(adj, level)|
    ensures forall r :: r in ReachedRecords(Plan(adj, level), oracle, alpha, n) ==> PlannedRecord(adj, level, oracle, r)
  {
    hide TaskOf, Plan, Reached;
    if n > 0 {
      RecordsOfPlan(adj, level, oracle, alpha, n - 1);
      PlannedTask(adj, level, n - 1);
    }
  }

  lemma LevelRecordsShape(adj: Grid<bool>, level: nat, oracle: Oracle, alpha: real)
    requires Square(adj, |adj|)
    ensures forall r :: r in LevelRecords(adj, level, oracle, alpha) ==> PlannedRecord(adj, level, oracle, r)
  {
    RecordsOfPlan(adj, level, oracle, alpha, |Plan(adj, level)|);
    ReachedIsSequential(adj, level, oracle, alpha);
  }

  lemma LevelInRange(adj: Grid<bool>, level: nat, oracle: Oracle, alpha: real)
    requires Square(adj, |adj|)
    ensures AllInRange(LevelRecords(adj, level, oracle, alpha), |adj|)
  {
    LevelRecordsShape(adj, level, oracle, alpha);
    var log := LevelRecords(adj, level, oracle, alpha);
    forall i | 0 <= i < |log|
      ensures InRange(log[i].task, |adj|)
    {
      assert PlannedRecord(adj, level, oracle, log[i]);
    }
  }

  /** One level of the sequential search. */
  ghost function LevelState(r: Run, level: nat, oracle: Oracle, alpha: real, p: nat): (s: State)
    requires ValidRun(r, p)
    ensures ValidState(s, p)
  {
    LevelInRange(r.adj, level, oracle, alpha);
    Replay(State(r.pmax, r.sepsets, Fill(p, false)), LevelRecords(r.adj, level, oracle, alpha), alpha, p)
  }

  ghost function NextLevel(r: Run, level: nat, oracle: Oracle, alpha: real, p: nat): (r': Run)
    requires ValidRun(r, p)
    ensures ValidRun(r', p)
  {
    LevelInRange(r.adj, level, oracle, alpha);
    ReplaySymmetric(State(r.pmax, r.sepsets, Fill(p, false)), LevelRecords(r.adj, level, oracle, alpha), alpha, p);
    var s := LevelState(r, level, oracle, alpha, p);
    Run(Remove(r.adj, s.deletes, p), s.pmax, s.sepsets)
  }

  /** The sequential search after its first `n` levels, none of them skipped. */
  ghost function After(p: nat, oracle: Oracle, alpha: real, n: nat): (r: Run)
    ensures ValidRun(r, p)
  {
    if n == 0 then Start(p) else NextLevel(After(p, oracle, alpha, n - 1), n - 1, oracle, alpha, p)
  }

  // ------------------------------------------------------------ canonical replay

  /** The finished tests in plan order. */
  function Kept(tasks: seq<Task>, results: map<nat, Probability>, n: nat): seq<Record>
    requires n <= |tasks|
  {
    if n == 0 then []
    else Kept(tasks, results, n - 1) + if n - 1 in results then [Record(tasks[n - 1], results[n - 1])] else []
  }

  function Accepted(log: seq<Record>, alpha: real): nat {
    if log == [] then 0
    else Accepted(log[..|log| - 1], alpha) + if alpha <= log[|log| - 1].p then 1 else 0
  }

  lemma {:induction false} KeptInRange(tasks: seq<Task>, results: map<nat, Probability>, n: nat, p: nat)
    requires n <= |tasks| && AllTasksInRange(tasks, p)
    ensures AllInRange(Kept(tasks, results, n), p)
  {
    if n > 0 {
      KeptInRange(tasks, results, n - 1, p);
    }
  }

  /** Replays the finished tests in plan order, whatever order they ran in. */
  method CanonicalReplay(tasks: seq<Task>, results: map<nat, Probability>, alpha: real, p: nat,
                         pmax: Grid<Bound>, sepsets: Grid<seq<nat>>)
    returns (pmax': Grid<Bound>, sepsets': Grid<seq<nat>>, replayed: nat, deletions: nat)
    requires AllTasksInRange(tasks, p) && Square(pmax, p) && Square(sepsets, p)
    ensures AllInRange(Kept(tasks, results, |tasks|), p)
    ensures var s := Replay(State(pmax, sepsets, Fill(p, false)), Kept(tasks, results, |tasks|), alpha, p);
      pmax' == s.pmax && sepsets' == s.sepsets
    ensures replayed == |Kept(tasks, results, |tasks|)|
    ensures deletions == Accepted(Kept(tasks, results, |tasks|), alpha)
  {
    KeptInRange(tasks, results, |tasks|, p);
    ghost var s := State(pmax, sepsets, Fill(p, false));
    pmax', sepsets', replayed, deletions := pmax, sepsets, 0, 0;
    for i := 0 to |tasks|
      invariant AllInRange(Kept(tasks, results, i), p)
      invariant s == Replay(State(pmax, sepsets, Fill(p, false)), Kept(tasks, results, i), alpha, p)
      invariant pmax' == s.pmax && sepsets' == s.sepsets
      invariant replayed == |Kept(tasks, results, i)| && deletions == Accepted(Kept(tasks, results, i), alpha)
    {
      KeptInRange(tasks, results, i + 1, p);
      if i in results {
        var task, pv := tasks[i], results[i];
        var (x, y) := (task.edgeX, task.edgeY);
        assert Kept(tasks, results, i + 1)[..|Kept(tasks, results, i)|] == Kept(tasks, results, i);
        s := Note(s, Record(task, pv), alpha, p);
        replayed := replayed + 1;
        if pmax'[x][y].Below(pv) {
          pmax' := PutBoth(pmax', x, y, Val(pv));
        }
        if alpha <= pv {
          deletions := deletions + 1;
          sepsets' := PutBoth(sepsets', x, y, task.conditioning);
        }
      } else {
        assert Kept(tasks, results, i + 1) == Kept(tasks, results, i);
      }
    }
  }

  lemma {:induction false} KeptIsReached(tasks: seq<Task>, results: map<nat, Probability>, oracle: Oracle, alpha: real, n: nat)
    requires n <= |tasks|
    requires forall i :: i in results ==> i < |tasks| && results[i] == PValue(oracle, tasks[i])
    requires forall i :: 0 <= i < |tasks| ==> (i in results <==> Reached(tasks, oracle, alpha, i))
    ensures Kept(tasks, results, n) == ReachedRecords(tasks, oracle, alpha, n)
  {
    hide Reached;
    if n > 0 {
      KeptIsReached(tasks, results, oracle, alpha, n - 1);
    }
  }

  ghost predicate AcceptedOn(log: seq<Record>, alpha: real, x: nat, y: nat) {
    exists k :: 0 <= k < |log| && OnEdge(log[k].task, x, y) && alpha <= log[k].p
  }

  lemma {:induction false} ReplayDeletes(s: State, log: seq<Record>, alpha: real, p: nat, x: nat, y: nat)
    requires ValidState(s, p) && AllInRange(log, p) && x < p && y < p
    ensures Replay(s, log, alpha, p).deletes[x][y] <==> s.deletes[x][y] || AcceptedOn(log, alpha, x, y)
    decreases |log|
  {
    if log != [] {
      var front, last := log[..|log| - 1], log[|log| - 1];
      ReplayDeletes(s, front, alpha, p, x, y);
      if AcceptedOn(front, alpha, x, y) {
        var k :| 0 <= k < |front| && OnEdge(front[k].task, x, y) && alpha <= front[k].p;
        assert log[k] == front[k];
      }
      if AcceptedOn(log, alpha, x, y) && !(OnEdge(last.task, x, y) && alpha <= last.p) {
        var k :| 0 <= k < |log| && OnEdge(log[k].task, x, y) && alpha <= log[k].p;
        assert front[k] == log[k];
      }
    }
  }

  lemma {:induction false} KeptDeletes(tasks: seq<Task>, results: map<nat, Probability>, alpha: real, n: nat, x: nat, y: nat)
    requires n <= |tasks|
    ensures AcceptedOn(Kept(tasks, results, n), alpha, x, y) <==>
      exists i :: 0 <= i < n && i in results && OnEdge(tasks[i], x, y) && alpha <= results[i]
  {
    if n > 0 {
      KeptDeletes(tasks, results, alpha, n - 1, x, y);
      var front, all := Kept(tasks, results, n - 1), Kept(tasks, results, n);
      assert forall k :: 0 <= k < |front| ==> all[k] == front[k];
      if n - 1 in results {
        assert all[|front|] == Record(tasks[n - 1], results[n - 1]);
      }
    }
  }

  /** The marks the frontier set while running are the marks of the replay. */
  lemma FrontierDeletes(tasks: seq<Task>, results: map<nat, Probability>, alpha: real, deletes: Grid<bool>, p: nat, s: State)
    requires ValidState(s, p) && (forall x, y :: 0 <= x < p && 0 <= y < p ==> !s.deletes[x][y])
    requires Square(deletes, p) && DeletesOk(tasks, results, alpha, deletes, p)
    requires AllInRange(Kept(tasks, results, |tasks|), p)
    ensures deletes == Replay(s, Kept(tasks, results, |tasks|), alpha, p).deletes
  {
    var log := Kept(tasks, results, |tasks|);
    var marks := Replay(s, log, alpha, p).deletes;
    forall x, y | 0 <= x < p && 0 <= y < p
      ensures deletes[x][y] == marks[x][y]
    {
      ReplayDeletes(s, log, alpha, p, x, y);
      KeptDeletes(tasks, results, alpha, |tasks|, x, y);
      assert DeletedBy(tasks, results, alpha, x, y) <==>
        exists i :: 0 <= i < |tasks| && i in results && OnEdge(tasks[i], x, y) && alpha <= results[i];
    }
    SameCells(deletes, marks, p);
  }

  // -------------------------------------------------- stopping early loses nothing

  ghost predicate Subgraph(adj': Grid<bool>, adj: Grid<bool>) {
    && Square(adj, |adj|) && Square(adj', |adj|)
    && forall x, y :: 0 <= x < |adj| && 0 <= y < |adj| && adj'[x][y] ==> adj[x][y]
  }

  lemma {:induction false} FewerNeighbors(adj': Grid<bool>, adj: Grid<bool>, v: nat, excluded: nat, n: nat)
    requires Subgraph(adj', adj) && v < |adj| && n <= |adj|
    ensures |NeighborsBelow(adj', v, excluded, n)| <= |NeighborsBelow(adj, v, excluded, n)|
  {
    if n > 0 {
      FewerNeighbors(adj', adj, v, excluded, n - 1);
    }
  }

  lemma {:induction false} ReachedMember(tasks: seq<Task>, oracle: Oracle, alpha: real, n: nat, i: nat)
    requires i < n <= |tasks| && Reached(tasks, oracle, alpha, i)
    ensures Record(tasks[i], PValue(oracle, tasks[i])) in ReachedRecords(tasks, oracle, alpha, n)
  {
    hide Reached;
    if i < n - 1 {
      ReachedMember(tasks, oracle, alpha, n - 1, i);
    }
  }

  /** The first test of an edge that accepts independence is reached. */
  lemma {:induction false} FirstAcceptance(tasks: seq<Task>, oracle: Oracle, alpha: real, i: nat) returns (j: nat)
    requires i < |tasks| && alpha <= PValue(oracle, tasks[i])
    ensures j <= i && tasks[j].edgeKey == tasks[i].edgeKey
    ensures alpha <= PValue(oracle, tasks[j]) && Reached(tasks, oracle, alpha, j)
  {
    if Reached(tasks, oracle, alpha, i) {
      j := i;
    } else {
      var k :| 0 <= k < i && tasks[k].edgeKey == tasks[i].edgeKey && alpha <= PValue(oracle, tasks[k]);
      j := FirstAcceptance(tasks, oracle, alpha, k);
    }
  }

  /** Every planned test of an edge that survives the level was performed. */
  lemma SurvivorTested(adj: Grid<bool>, level: nat, oracle: Oracle, alpha: real, x: nat, y: nat, t: Task)
    requires Square(adj, |adj|) && x < y < |adj| && adj[x][y]
    requires t in EdgeTasks(adj, level, x, y)
    requires !AcceptedOn(LevelRecords(adj, level, oracle, alpha), alpha, x, y)
    ensures Record(t, PValue(oracle, t)) in LevelRecords(adj, level, oracle, alpha)
  {
    var tasks := Plan(adj, level);
    EdgeInBelow(adj, level, x, y, |adj|, t);
    EdgeTasksShape(adj, level, x, y);
    PlanShape(adj, level);
    ReachedIsSequential(adj, level, oracle, alpha);
    var i :| 0 <= i < |tasks| && tasks[i] == t;
    if !Reached(tasks, oracle, alpha, i) {
      var k :| 0 <= k < i && tasks[k].edgeKey == t.edgeKey && alpha <= PValue(oracle, tasks[k]);
      var j := FirstAcceptance(tasks, oracle, alpha, k);
      ReachedMember(tasks, oracle, alpha, |tasks|, j);
      EdgeKeyInjective(|adj|, tasks[j].edgeX, tasks[j].edgeY, x, y);
    }
    ReachedMember(tasks, oracle, alpha, |tasks|, i);
  }

  ghost predicate OpensIn(log: seq<Record>) {
    exists k :: 0 <= k < |log| && log[k].task.opensNext
  }

  ghost predicate TestedIn(log: seq<Record>, t: Task) {
    exists k :: 0 <= k < |log| && log[k].task == t
  }

  /** An edge all of whose tests ran without opening the next level has too few neighbours for it. */
  lemma SideIsSmall(adj: Grid<bool>, level: nat, log: seq<Record>, x: nat, y: nat, ox: nat, oy: nat)
    requires Square(adj, |adj|) && x < y < |adj| && adj[x][y]
    requires (ox == x && oy == y) || (ox == y && oy == x)
    requires forall t :: t in EdgeTasks(adj, level, x, y) ==> TestedIn(log, t)
    requires !OpensIn(log)
    ensures |Neighbors(adj, ox, oy)| <= level
  {
    var neighbors := Neighbors(adj, ox, oy);
    NeighborsShape(adj, ox, oy, |adj|);
    CombosShape(neighbors, level);
    var side := SideTasks(|adj|, level, x, y, ox, oy, neighbors);
    forall k | 0 <= k < |side|
      ensures TestedIn(log, side[k])
    {
      assert side[k] in side;
      assert side[k] in EdgeTasks(adj, level, x, y);
    }
    assert |neighbors| > level ==> side != [] && side[0].opensNext;
  }

  ghost predicate NothingToTest(adj: Grid<bool>, level: nat) {
    && Square(adj, |adj|)
    && forall x: nat, y: nat :: x < y < |adj| && adj[x][y] ==>
         |Neighbors(adj, x, y)| < level && |Neighbors(adj, y, x)| < level
  }

  lemma {:induction false} EmptyRow(adj: Grid<bool>, level: nat, oracle: Oracle, alpha: real, x: nat, yEnd: nat)
    requires NothingToTest(adj, level) && x < |adj| && yEnd <= |adj|
    ensures RowRecords(adj, level, oracle, alpha, x, yEnd) == []
    decreases yEnd
  {
    if yEnd > x + 1 {
      EmptyRow(adj, level, oracle, alpha, x, yEnd - 1);
      if adj[x][yEnd - 1] {
        assert EdgeTasks(adj, level, x, yEnd - 1) == [];
      }
    }
  }

  lemma {:induction false} EmptyBelow(adj: Grid<bool>, level: nat, oracle: Oracle, alpha: real, xEnd: nat)
    requires NothingToTest(adj, level) && xEnd <= |adj|
    ensures RecordsBelow(adj, level, oracle, alpha, xEnd) == []
  {
    if xEnd > 0 {
      EmptyBelow(adj, level, oracle, alpha, xEnd - 1);
      EmptyRow(adj, level, oracle, alpha, xEnd - 1, |adj|);
    }
  }

  lemma IdleLevel(r: Run, level: nat, oracle: Oracle, alpha: real, p: nat)
    requires ValidRun(r, p) && NothingToTest(r.adj, level)
    ensures NextLevel(r, level, oracle, alpha, p) == r
  {
    EmptyBelow(r.adj, level, oracle, alpha, |r.adj|);
    SameCells(NextLevel(r, level, oracle, alpha, p).adj, r.adj, p);
  }

  /** After a level none of whose tests opened the next, there is nothing to test at any later level. */
  lemma StopIsFinal(adj: Grid<bool>, level: nat, later: nat, log: seq<Record>, deletes: Grid<bool>, p: nat)
    requires Square(adj, p) && |adj| == p && Square(deletes, p) && later > level && !OpensIn(log)
    requires forall x: nat, y: nat, t :: x < y < p && adj[x][y] && !deletes[x][y] && t in EdgeTasks(adj, level, x, y) ==>
      TestedIn(log, t)
    ensures NothingToTest(Remove(adj, deletes, p), later)
  {
    var adj' := Remove(adj, deletes, p);
    hide EdgeTasks;
    forall x: nat, y: nat | x < y < p && adj'[x][y]
      ensures |Neighbors(adj', x, y)| < later && |Neighbors(adj', y, x)| < later
    {
      SideIsSmall(adj, level, log, x, y, x, y);
      SideIsSmall(adj, level, log, x, y, y, x);
      FewerNeighbors(adj', adj, x, y, p);
      FewerNeighbors(adj', adj, y, x, p);
    }
  }

  lemma LevelStops(r: Run, level: nat, later: nat, oracle: Oracle, alpha: real, p: nat)
    requires ValidRun(r, p) && later > level
    requires !OpensIn(LevelRecords(r.adj, level, oracle, alpha))
    ensures NothingToTest(NextLevel(r, level, oracle, alpha, p).adj, later)
  {
    var log := LevelRecords(r.adj, level, oracle, alpha);
    LevelInRange(r.adj, level, oracle, alpha);
    var s := State(r.pmax, r.sepsets, Fill(p, false));
    var deletes := Replay(s, log, alpha, p).deletes;
    forall x: nat, y: nat, t | x < y < p && r.adj[x][y] && !deletes[x][y] && t in EdgeTasks(r.adj, level, x, y)
      ensures TestedIn(log, t)
    {
      ReplayDeletes(s, log, alpha, p, x, y);
      SurvivorTested(r.adj, level, oracle, alpha, x, y, t);
      var k :| 0 <= k < |log| && log[k] == Record(t, PValue(oracle, t));
    }
    StopIsFinal(r.adj, level, later, log, deletes, p);
  }

  /** Once a level opens no next one, all later levels leave the search as it is. */
  lemma {:induction false} IdleForever(p: nat, oracle: Oracle, alpha: real, stop: nat, n: nat)
    requires stop >= 1 && stop <= n
    requires !OpensIn(LevelRecords(After(p, oracle, alpha, stop - 1).adj, stop - 1, oracle, alpha))
    ensures After(p, oracle, alpha, n) == After(p, oracle, alpha, stop)
    decreases n
  {
    hide NextLevel, NothingToTest, OpensIn, LevelRecords;
    if n > stop {
      IdleForever(p, oracle, alpha, stop, n - 1);
      LevelStops(After(p, oracle, alpha, stop - 1), stop - 1, n - 1, oracle, alpha, p);
      IdleLevel(After(p, oracle, alpha, stop), n - 1, oracle, alpha, p);
    }
  }

  // ---------------------------------------------------------------- the whole run

  datatype LevelCounts = LevelCounts(level: nat, planned: nat, replayed: nat, ignored: nat, deletions: nat, rounds: nat)

  /** Every planned test counts once, as replayed or as ignored; the replayed ones are the tests
      of the sequential search and the deletions its accepted tests. */
  ghost predicate CountsOf(c: LevelCounts, r: Run, level: nat, oracle: Oracle, alpha: real)
    requires Square(r.adj, |r.adj|)
  {
    && c.level == level
    && c.planned == |Plan(r.adj, level)| == c.replayed + c.ignored
    && c.replayed == |LevelRecords(r.adj, level, oracle, alpha)|
    && c.deletions == Accepted(LevelRecords(r.adj, level, oracle, alpha), alpha)
  }

  lemma {:induction false} KeptOpens(tasks: seq<Task>, results: map<nat, Probability>, n: nat)
    requires n <= |tasks|
    ensures OpensIn(Kept(tasks, results, n)) <==> exists i :: 0 <= i < n && i in results && tasks[i].opensNext
  {
    if n > 0 {
      KeptOpens(tasks, results, n - 1);
      var front, all := Kept(tasks, results, n - 1), Kept(tasks, results, n);
      assert forall k :: 0 <= k < |front| ==> all[k] == front[k];
      if n - 1 in results {
        assert all[|front|] == Record(tasks[n - 1], results[n - 1]);
      }
    }
  }

  lemma {:induction false} KeptSize(tasks: seq<Task>, results: map<nat, Probability>, n: nat)
    requires n <= |tasks|
    ensures |Kept(tasks, results, n)| == |set i | i in results && i < n|
  {
    var upTo := set i | i in results && i < n;
    if n == 0 {
      assert upTo == {};
    } else {
      KeptSize(tasks, results, n - 1);
      var before := set i | i in results && i < n - 1;
      assert upTo == if n - 1 in results then before + {n - 1} else before;
    }
  }

  lemma PlanInRange(adj: Grid<bool>, level: nat)
    requires Square(adj, |adj|)
    ensures AllTasksInRange(Plan(adj, level), |adj|)
    ensures forall i :: 0 <= i < |Plan(adj, level)| ==> Plan(adj, level)[i].edgeKey < |adj| * |adj|
  {
    hide Plan;
    var tasks := Plan(adj, level);
    forall i | 0 <= i < |tasks|
      ensures InRange(tasks[i], |adj|) && tasks[i].edgeKey < |adj| * |adj|
    {
      PlannedTask(adj, level, i);
      EdgeKeyBound(|adj|, tasks[i].edgeX, tasks[i].edgeY);
    }
  }

  /** What the frontier found out about a level is what the sequential search records. */
  lemma LevelAgrees(r: Run, level: nat, oracle: Oracle, alpha: real, p: nat, b: Books)
    requires ValidRun(r, p)
    requires var tasks := Plan(r.adj, level);
      && (forall i :: i in b.results ==> i < |tasks| && b.results[i] == PValue(oracle, tasks[i]))
      && (forall i :: 0 <= i < |tasks| ==> (i in b.results <==> Reached(tasks, oracle, alpha, i)))
      && Square(b.deletes, p) && DeletesOk(tasks, b.results, alpha, b.deletes, p)
    ensures Kept(Plan(r.adj, level), b.results, |Plan(r.adj, level)|) == LevelRecords(r.adj, level, oracle, alpha)
    ensures b.deletes == LevelState(r, level, oracle, alpha, p).deletes
    ensures OpensNext(Plan(r.adj, level), b.results) <==> OpensIn(LevelRecords(r.adj, level, oracle, alpha))
    ensures |LevelRecords(r.adj, level, oracle, alpha)| == |b.results|
  {
    var tasks := Plan(r.adj, level);
    KeptIsReached(tasks, b.results, oracle, alpha, |tasks|);
    ReachedIsSequential(r.adj, level, oracle, alpha);
    LevelInRange(r.adj, level, oracle, alpha);
    FrontierDeletes(tasks, b.results, alpha, b.deletes, p, State(r.pmax, r.sepsets, Fill(p, false)));
    KeptOpens(tasks, b.results, |tasks|);
    KeptSize(tasks, b.results, |tasks|);
    assert (set i | i in b.results && i < |tasks|) == b.results.Keys;
  }

  /** One level: plan, frontier, canonical replay, deletion. */
  method RunLevel(r: Run, level: nat, oracle: Oracle, alpha: real, p: nat, capacity: nat,
                  scope: string, cache: LruCache.Cache<ResultKey, Probability>)
    returns (r': Run, counts: LevelCounts, done: bool)
    requires ValidRun(r, p) && capacity >= 1 && CacheOk(cache, scope, oracle)
    modifies cache
    ensures CacheOk(cache, scope, oracle)
    ensures r' == NextLevel(r, level, oracle, alpha, p)
    ensures done <==> !OpensIn(LevelRecords(r.adj, level, oracle, alpha))
    ensures CountsOf(counts, r, level, oracle, alpha)
  {
    hide CacheOk, Plan, Reached, DeletesOk, OpensNext, OpensIn, LevelRecords, Kept, Accepted, Symmetric;
    var tasks := MakeLayerPlan(r.adj, level);
    PlanInRange(r.adj, level);
    var b, rounds := RunFrontier(tasks, p * p, p, alpha, oracle, capacity, scope, level, cache);
    LevelAgrees(r, level, oracle, alpha, p, b);
    var pmax, sepsets, replayed, deletions := CanonicalReplay(tasks, b.results, alpha, p, r.pmax, r.sepsets);
    r' := Run(Remove(r.adj, b.deletes, p), pmax, sepsets);
    counts := LevelCounts(level, |tasks|, replayed, b.ignored, deletions, rounds);
    done := b.pcalgDone;
  }

  /** Some test of level k lets the search go on to the next. */
  ghost predicate GoesOn(p: nat, oracle: Oracle, alpha: real, k: nat) {
    OpensIn(LevelRecords(After(p, oracle, alpha, k).adj, k, oracle, alpha))
  }

  /** The search over all levels. Whatever the buckets picked, the wave capacity and the warm
      cache, it returns what the sequential search without early stop returns. */
  method RunSkeleton(p: nat, oracle: Oracle, alpha: real, maxLevel: nat, capacity: nat,
                     scope: string, cache: LruCache.Cache<ResultKey, Probability>)
    returns (r: Run, counts: seq<LevelCounts>)
    requires capacity >= 1 && CacheOk(cache, scope, oracle)
    modifies cache
    ensures CacheOk(cache, scope, oracle)
    ensures r == After(p, oracle, alpha, maxLevel + 1)
    ensures 1 <= |counts| <= maxLevel + 1
    ensures forall k :: 0 <= k < |counts| ==> CountsOf(counts[k], After(p, oracle, alpha, k), k, oracle, alpha)
    ensures forall k :: |counts| <= k <= maxLevel ==> After(p, oracle, alpha, k) == r
    ensures forall k :: 0 <= k < |counts| - 1 ==> GoesOn(p, oracle, alpha, k)
    ensures |counts| <= maxLevel ==> !GoesOn(p, oracle, alpha, |counts| - 1)
  {
    hide CacheOk, CountsOf, OpensIn, LevelRecords, NextLevel;
    r, counts := Start(p), [];
    var level := 0;
    while level <= maxLevel
      invariant level <= maxLevel + 1 && |counts| == level && r == After(p, oracle, alpha, level)
      invariant CacheOk(cache, scope, oracle)
      invariant forall k :: 0 <= k < level ==> CountsOf(counts[k], After(p, oracle, alpha, k), k, oracle, alpha)
      invariant forall k :: 0 <= k < level ==> GoesOn(p, oracle, alpha, k)
    {
      var c, done;
      r, c, done := RunLevel(r, level, oracle, alpha, p, capacity, scope, cache);
      counts := counts + [c];
      level := level + 1;
      if done {
        forall n | level <= n <= maxLevel + 1
          ensures After(p, oracle, alpha, n) == After(p, oracle, alpha, level)
        {
          IdleForever(p, oracle, alpha, level, n);
        }
        return;
      }
    }
  }

  // ---------------------------------------------------- what every level keeps

  ghost predicate Indexed(p: nat, x: int, y: int) {
    0 <= x < p && 0 <= y < p
  }

  /** Symmetric results, and an edge is gone exactly where its maximum reached alpha. */
  ghost predicate SearchInvariant(r: Run, alpha: real, p: nat) {
    && ValidRun(r, p) && Symmetric(r.adj, p) && Symmetric(r.sepsets, p)
    && forall x, y :: Indexed(p, x, y) ==> (r.adj[x][y] <==> !r.pmax[x][y].AtLeast(alpha))
  }

  /** A cell's maximum reaches alpha exactly when a test of the edge is accepted, and the last
      accepted test leaves its conditioning set. */
  lemma {:induction false} ReplayCell(s: State, log: seq<Record>, alpha: real, p: nat, x: nat, y: nat, size: nat)
    requires ValidState(s, p) && AllInRange(log, p) && x < p && y < p
    requires !s.deletes[x][y] && Symmetric(s.pmax, p)
    requires forall r :: r in log ==> |r.task.conditioning| == size
    ensures var s' := Replay(s, log, alpha, p);
      && (s'.pmax[x][y].AtLeast(alpha) <==> s.pmax[x][y].AtLeast(alpha) || s'.deletes[x][y])
      && (if s'.deletes[x][y] then |s'.sepsets[x][y]| == size else s'.sepsets[x][y] == s.sepsets[x][y])
    decreases |log|
  {
    if log != [] {
      ReplayCell(s, log[..|log| - 1], alpha, p, x, y, size);
      ReplaySymmetric(s, log[..|log| - 1], alpha, p);
      assert log[|log| - 1] in log;
    }
  }

  /** Cells of pairs that are no longer adjacent are not touched again. */
  lemma {:induction false} ReplayElsewhere(s: State, log: seq<Record>, alpha: real, p: nat, x: nat, y: nat)
    requires ValidState(s, p) && AllInRange(log, p) && x < p && y < p
    requires forall r :: r in log ==> !OnEdge(r.task, x, y)
    ensures SameCell(Replay(s, log, alpha, p), s, x, y, p)
    decreases |log|
  {
    if log != [] {
      ReplayElsewhere(s, log[..|log| - 1], alpha, p, x, y);
      assert log[|log| - 1] in log;
    }
  }

  lemma LogConditioning(adj: Grid<bool>, level: nat, oracle: Oracle, alpha: real)
    requires Square(adj, |adj|)
    ensures forall r :: r in LevelRecords(adj, level, oracle, alpha) ==> |r.task.conditioning| == level
  {
    LevelRecordsShape(adj, level, oracle, alpha);
    forall r | r in LevelRecords(adj, level, oracle, alpha)
      ensures |r.task.conditioning| == level
    {
      assert PlannedRecord(adj, level, oracle, r);
    }
  }

  lemma LogOnEdges(r: Run, level: nat, oracle: Oracle, alpha: real, p: nat, x: nat, y: nat)
    requires ValidRun(r, p) && Symmetric(r.adj, p) && x < p && y < p && !r.adj[x][y]
    ensures forall rec :: rec in LevelRecords(r.adj, level, oracle, alpha) ==> !OnEdge(rec.task, x, y)
  {
    LevelRecordsShape(r.adj, level, oracle, alpha);
    forall rec | rec in LevelRecords(r.adj, level, oracle, alpha)
      ensures !OnEdge(rec.task, x, y)
    {
      assert PlannedRecord(r.adj, level, oracle, rec);
    }
  }

  /** One level keeps the invariant, only removes edges, gives every removed edge a separating
      set of the level's size, and leaves every other non-adjacent pair as it was. */
  lemma LevelKeeps(r: Run, level: nat, oracle: Oracle, alpha: real, p: nat)
    requires SearchInvariant(r, alpha, p)
    ensures var r' := NextLevel(r, level, oracle, alpha, p);
      && SearchInvariant(r', alpha, p)
      && forall x, y :: Indexed(p, x, y) ==>
           && (r'.adj[x][y] ==> r.adj[x][y])
           && (r.adj[x][y] && !r'.adj[x][y] ==> |r'.sepsets[x][y]| == level)
           && (!r.adj[x][y] ==> r'.sepsets[x][y] == r.sepsets[x][y] && r'.pmax[x][y] == r.pmax[x][y])
  {
    var r' := NextLevel(r, level, oracle, alpha, p);
    var log := LevelRecords(r.adj, level, oracle, alpha);
    var s := State(r.pmax, r.sepsets, Fill(p, false));
    LevelInRange(r.adj, level, oracle, alpha);
    LogConditioning(r.adj, level, oracle, alpha);
    ReplaySymmetric(s, log, alpha, p);
    hide LevelRecords, Symmetric, Square;
    forall x, y | Indexed(p, x, y)
      ensures r'.adj[x][y] <==> !r'.pmax[x][y].AtLeast(alpha)
      ensures r'.adj[x][y] ==> r.adj[x][y]
      ensures r.adj[x][y] && !r'.adj[x][y] ==> |r'.sepsets[x][y]| == level
      ensures !r.adj[x][y] ==> r'.sepsets[x][y] == r.sepsets[x][y] && r'.pmax[x][y] == r.pmax[x][y]
    {
      ReplayCell(s, log, alpha, p, x, y, level);
      if !r.adj[x][y] {
        LogOnEdges(r, level, oracle, alpha, p, x, y);
        ReplayElsewhere(s, log, alpha, p, x, y);
      }
    }
    RemoveSymmetric(r.adj, LevelState(r, level, oracle, alpha, p).deletes, p);
  }

  lemma RemoveSymmetric(adj: Grid<bool>, deletes: Grid<bool>, p: nat)
    requires Square(adj, p) && Square(deletes, p) && Symmetric(adj, p) && Symmetric(deletes, p)
    ensures Symmetric(Remove(adj, deletes, p), p)
  {
  }

  lemma StartInvariant(p: nat, alpha: real)
    requires alpha <= 1.0
    ensures SearchInvariant(Start(p), alpha, p)
  {
  }

  /** Adjacency only shrinks, and a removed pair keeps its separating set and its maximum for good. */
  lemma {:induction false} RunKeeps(p: nat, oracle: Oracle, alpha: real, k: nat, n: nat, x: nat, y: nat)
    requires alpha <= 1.0 && k <= n && x < p && y < p
    ensures var r, r' := After(p, oracle, alpha, k), After(p, oracle, alpha, n);
      && (r'.adj[x][y] ==> r.adj[x][y])
      && (!r.adj[x][y] ==> r'.sepsets[x][y] == r.sepsets[x][y] && r'.pmax[x][y] == r.pmax[x][y])
    decreases n
  {
    hide NextLevel, SearchInvariant;
    if k < n {
      RunKeeps(p, oracle, alpha, k, n - 1, x, y);
      RunInvariant(p, oracle, alpha, n - 1);
      LevelKeeps(After(p, oracle, alpha, n - 1), n - 1, oracle, alpha, p);
      assert Indexed(p, x, y);
    }
  }

  /** The pair was adjacent until level k removed it. */
  ghost predicate RemovedAt(p: nat, oracle: Oracle, alpha: real, k: nat, x: int, y: int)
    requires Indexed(p, x, y)
  {
    After(p, oracle, alpha, k).adj[x][y] && !After(p, oracle, alpha, k + 1).adj[x][y]
  }

  /** The invariant of every run: it holds after any number of levels, and the size of a deleted pair's
      separating set is the level that deleted it. */
  lemma {:induction false} RunInvariant(p: nat, oracle: Oracle, alpha: real, n: nat)
    requires alpha <= 1.0
    ensures SearchInvariant(After(p, oracle, alpha, n), alpha, p)
    ensures forall x, y :: Indexed(p, x, y) && x != y && !After(p, oracle, alpha, n).adj[x][y] ==>
      var k := |After(p, oracle, alpha, n).sepsets[x][y]|; k < n && RemovedAt(p, oracle, alpha, k, x, y)
    decreases n
  {
    hide NextLevel;
    if n == 0 {
      StartInvariant(p, alpha);
    } else {
      RunInvariant(p, oracle, alpha, n - 1);
      LevelKeeps(After(p, oracle, alpha, n - 1), n - 1, oracle, alpha, p);
      hide SearchInvariant;
    }
  }

  /** A pair removed at level k stays removed, with the separating set of size k and the maximum it got
      there; so it is removed once. */
  lemma RemovedForGood(p: nat, oracle: Oracle, alpha: real, k: nat, n: nat, x: nat, y: nat)
    requires alpha <= 1.0 && k < n && x < p && y < p && x != y && RemovedAt(p, oracle, alpha, k, x, y)
    ensures var r, r' := After(p, oracle, alpha, k + 1), After(p, oracle, alpha, n);
      && !r'.adj[x][y] && r'.sepsets[x][y] == r.sepsets[x][y] && r'.pmax[x][y] == r.pmax[x][y]
      && |r'.sepsets[x][y]| == k
  {
    hide NextLevel, SearchInvariant;
    RunKeeps(p, oracle, alpha, k + 1, n, x, y);
    RunInvariant(p, oracle, alpha, k + 1);
    assert Indexed(p, x, y);
    var j := |After(p, oracle, alpha, k + 1).sepsets[x][y]|;
    assert RemovedAt(p, oracle, alpha, j, x, y);
    if j < k {
      RunKeeps(p, oracle, alpha, j + 1, k, x, y);
    }
  }
}
