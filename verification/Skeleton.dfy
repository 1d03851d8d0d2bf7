/** The state of a skeleton search, how a finished test is recorded in it, and the sequential
    reference search (skeleton_engine.cpp) that the device scheduler has to reproduce. */
module Skeleton {
  import opened Grids
  import opened LayerPlan

  type Probability = r: real | 0.0 <= r <= 1.0

  /** A maximum that starts at minus infinity. */
  datatype Bound = NegInf | Val(value: real) {
    predicate Below(r: real) {
      NegInf? || value < r
    }
    predicate AtLeast(r: real) {
      Val? && r <= value
    }
  }

  /** One finished conditional-independence test. */
  datatype Record = Record(task: Task, p: Probability)

  datatype State = State(pmax: Grid<Bound>, sepsets: Grid<seq<nat>>, deletes: Grid<bool>)

  ghost predicate ValidState(s: State, p: nat) {
    Square(s.pmax, p) && Square(s.sepsets, p) && Square(s.deletes, p)
  }

  ghost predicate InRange(t: Task, p: nat) {
    t.edgeX < t.edgeY < p
  }

  ghost predicate AllInRange(log: seq<Record>, p: nat) {
    forall i :: 0 <= i < |log| ==> InRange(log[i].task, p)
  }

  /** Recording one test: the running maximum rises, and an accepted independence deletes the
      edge and stores its separating set, all in both triangles. */
  function Note(s: State, r: Record, alpha: real, ghost p: nat): (s': State)
    requires ValidState(s, p) && InRange(r.task, p)
    ensures ValidState(s', p)
  {
    var (x, y) := (r.task.edgeX, r.task.edgeY);
    State(
      if s.pmax[x][y].Below(r.p) then PutBoth(s.pmax, x, y, Val(r.p)) else s.pmax,
      if alpha <= r.p then PutBoth(s.sepsets, x, y, r.task.conditioning) else s.sepsets,
      if alpha <= r.p then PutBoth(s.deletes, x, y, true) else s.deletes)
  }

  function Replay(s: State, log: seq<Record>, alpha: real, ghost p: nat): (s': State)
    requires ValidState(s, p) && AllInRange(log, p)
    ensures ValidState(s', p)
    decreases |log|
  {
    if log == [] then s else Note(Replay(s, log[..|log| - 1], alpha, p), log[|log| - 1], alpha, p)
  }

  // ------------------------------------------- records of different edges commute

  predicate OnEdge(t: Task, x: nat, y: nat) {
    (t.edgeX == x && t.edgeY == y) || (t.edgeX == y && t.edgeY == x)
  }

  function OfEdge(log: seq<Record>, x: nat, y: nat): seq<Record>
    decreases |log|
  {
    if log == [] then []
    else OfEdge(log[..|log| - 1], x, y) + if OnEdge(log[|log| - 1].task, x, y) then [log[|log| - 1]] else []
  }

  lemma {:induction false} OfEdgeInRange(log: seq<Record>, x: nat, y: nat, p: nat)
    requires AllInRange(log, p)
    ensures AllInRange(OfEdge(log, x, y), p)
    decreases |log|
  {
    if log != [] {
      OfEdgeInRange(log[..|log| - 1], x, y, p);
    }
  }

  ghost predicate SameCell(s: State, s': State, x: nat, y: nat, p: nat)
    requires ValidState(s, p) && ValidState(s', p) && x < p && y < p
  {
    s.pmax[x][y] == s'.pmax[x][y] && s.sepsets[x][y] == s'.sepsets[x][y] && s.deletes[x][y] == s'.deletes[x][y]
  }

  lemma NoteAgrees(s: State, t: State, r: Record, alpha: real, p: nat, x: nat, y: nat)
    requires ValidState(s, p) && ValidState(t, p) && InRange(r.task, p) && x < p && y < p && OnEdge(r.task, x, y)
    requires Symmetric(s.pmax, p) && Symmetric(t.pmax, p) && SameCell(s, t, x, y, p)
    ensures SameCell(Note(s, r, alpha, p), Note(t, r, alpha, p), x, y, p)
  {
  }

  lemma NoteElsewhere(s: State, r: Record, alpha: real, p: nat, x: nat, y: nat)
    requires ValidState(s, p) && InRange(r.task, p) && x < p && y < p && !OnEdge(r.task, x, y)
    ensures SameCell(Note(s, r, alpha, p), s, x, y, p)
  {
  }

  /** What a log leaves in a cell is decided by the records of that edge alone, in their order. */
  lemma {:induction false} CellIsLocal(s: State, log: seq<Record>, alpha: real, p: nat, x: nat, y: nat)
    requires ValidState(s, p) && AllInRange(log, p) && x < p && y < p
    requires Symmetric(s.pmax, p)
    ensures AllInRange(OfEdge(log, x, y), p)
    ensures SameCell(Replay(s, log, alpha, p), Replay(s, OfEdge(log, x, y), alpha, p), x, y, p)
    decreases |log|
  {
    OfEdgeInRange(log, x, y, p);
    if log != [] {
      var front, last := log[..|log| - 1], log[|log| - 1];
      CellIsLocal(s, front, alpha, p, x, y);
      ReplaySymmetric(s, front, alpha, p);
      ReplaySymmetric(s, OfEdge(front, x, y), alpha, p);
      var t := Replay(s, front, alpha, p);
      if OnEdge(last.task, x, y) {
        assert OfEdge(log, x, y)[..|OfEdge(log, x, y)| - 1] == OfEdge(front, x, y);
        NoteAgrees(t, Replay(s, OfEdge(front, x, y), alpha, p), last, alpha, p, x, y);
      } else {
        assert OfEdge(log, x, y) == OfEdge(front, x, y);
        NoteElsewhere(t, last, alpha, p, x, y);
      }
      hide Note, OnEdge;
    }
  }

  lemma {:induction false} ReplaySymmetric(s: State, log: seq<Record>, alpha: real, p: nat)
    requires ValidState(s, p) && AllInRange(log, p) && Symmetric(s.pmax, p)
    ensures Symmetric(Replay(s, log, alpha, p).pmax, p)
    ensures Symmetric(s.sepsets, p) ==> Symmetric(Replay(s, log, alpha, p).sepsets, p)
    ensures Symmetric(s.deletes, p) ==> Symmetric(Replay(s, log, alpha, p).deletes, p)
    decreases |log|
  {
    if log != [] {
      ReplaySymmetric(s, log[..|log| - 1], alpha, p);
    }
  }

  /** Two logs that agree edge by edge leave the same state, however they interleave edges. */
  lemma ReplayIgnoresInterleaving(s: State, log: seq<Record>, log': seq<Record>, alpha: real, p: nat)
    requires ValidState(s, p) && AllInRange(log, p) && AllInRange(log', p) && Symmetric(s.pmax, p)
    requires forall x: nat, y: nat :: x < p && y < p ==> OfEdge(log, x, y) == OfEdge(log', x, y)
    ensures Replay(s, log, alpha, p) == Replay(s, log', alpha, p)
  {
    var r, r' := Replay(s, log, alpha, p), Replay(s, log', alpha, p);
    forall x, y | 0 <= x < p && 0 <= y < p
      ensures r.pmax[x][y] == r'.pmax[x][y] && r.sepsets[x][y] == r'.sepsets[x][y]
      ensures r.deletes[x][y] == r'.deletes[x][y]
    {
      CellIsLocal(s, log, alpha, p, x, y);
      CellIsLocal(s, log', alpha, p, x, y);
    }
    SameCells(r.pmax, r'.pmax, p);
    SameCells(r.sepsets, r'.sepsets, p);
    SameCells(r.deletes, r'.deletes, p);
  }

  // ------------------------------------------------- the sequential reference

  /** The p-value of a test, a function of the oriented pair and the conditioning set. */
  type Oracle = (nat, nat, seq<nat>) -> Probability

  function PValue(oracle: Oracle, t: Task): Probability {
    oracle(t.orientX, t.orientY, t.conditioning)
  }

  /** The tests of one edge, in order, up to and including the first that deletes it. */
  function EdgeRecords(tasks: seq<Task>, oracle: Oracle, alpha: real): seq<Record> {
    if tasks == [] then []
    else
      var p := PValue(oracle, tasks[0]);
      [Record(tasks[0], p)] + if alpha <= p then [] else EdgeRecords(tasks[1..], oracle, alpha)
  }

  function RowRecords(adj: Grid<bool>, level: nat, oracle: Oracle, alpha: real, x: nat, yEnd: nat): seq<Record>
    requires Square(adj, |adj|) && x < |adj| && yEnd <= |adj|
  {
    if yEnd <= x + 1 then []
    else RowRecords(adj, level, oracle, alpha, x, yEnd - 1) +
         if adj[x][yEnd - 1] then EdgeRecords(EdgeTasks(adj, level, x, yEnd - 1), oracle, alpha) else []
  }

  function RecordsBelow(adj: Grid<bool>, level: nat, oracle: Oracle, alpha: real, xEnd: nat): seq<Record>
    requires Square(adj, |adj|) && xEnd <= |adj|
  {
    if xEnd == 0 then []
    else RecordsBelow(adj, level, oracle, alpha, xEnd - 1) + RowRecords(adj, level, oracle, alpha, xEnd - 1, |adj|)
  }

  /** The tests the sequential search performs in one level: edge by edge, abandoning an edge at
      its first accepted independence. */
  function LevelRecords(adj: Grid<bool>, level: nat, oracle: Oracle, alpha: real): seq<Record>
    requires Square(adj, |adj|)
  {
    RecordsBelow(adj, level, oracle, alpha, |adj|)
  }

  // --------------------------------- the tests reached when deleted edges are skipped

  /** No earlier test of the same edge accepts independence. */
  ghost predicate Reached(tasks: seq<Task>, oracle: Oracle, alpha: real, i: nat)
    requires i < |tasks|
  {
    forall j :: 0 <= j < i && tasks[j].edgeKey == tasks[i].edgeKey ==> PValue(oracle, tasks[j]) < alpha
  }

  ghost function ReachedRecords(tasks: seq<Task>, oracle: Oracle, alpha: real, n: nat): seq<Record>
    requires n <= |tasks|
  {
    if n == 0 then []
    else ReachedRecords(tasks, oracle, alpha, n - 1) +
         if Reached(tasks, oracle, alpha, n - 1)
         then [Record(tasks[n - 1], PValue(oracle, tasks[n - 1]))] else []
  }

  ghost predicate AllReject(tasks: seq<Task>, oracle: Oracle, alpha: real) {
    forall i :: 0 <= i < |tasks| ==> PValue(oracle, tasks[i]) < alpha
  }

  lemma {:induction false} EdgeRecordsSnoc(tasks: seq<Task>, t: Task, oracle: Oracle, alpha: real)
    ensures EdgeRecords(tasks + [t], oracle, alpha) == EdgeRecords(tasks, oracle, alpha) +
      if AllReject(tasks, oracle, alpha) then [Record(t, PValue(oracle, t))] else []
    decreases |tasks|
  {
    if tasks != [] {
      EdgeRecordsSnoc(tasks[1..], t, oracle, alpha);
      assert (tasks + [t])[1..] == tasks[1..] + [t];
      assert tasks == [tasks[0]] + tasks[1..];
    }
  }

  lemma {:induction false} ReachedPrefix(tasks: seq<Task>, more: seq<Task>, oracle: Oracle, alpha: real, n: nat)
    requires n <= |tasks|
    ensures ReachedRecords(tasks + more, oracle, alpha, n) == ReachedRecords(tasks, oracle, alpha, n)
  {
    if n > 0 {
      ReachedPrefix(tasks, more, oracle, alpha, n - 1);
      assert forall j :: 0 <= j < |tasks| ==> (tasks + more)[j] == tasks[j];
    }
  }

  ghost predicate NewEdge(tasks: seq<Task>, block: seq<Task>) {
    && (forall i, j :: 0 <= i < |block| && 0 <= j < |block| ==> block[i].edgeKey == block[j].edgeKey)
    && (forall i, j :: 0 <= i < |tasks| && 0 <= j < |block| ==> tasks[i].edgeKey != block[j].edgeKey)
  }

  lemma ReachedInBlock(tasks: seq<Task>, block: seq<Task>, oracle: Oracle, alpha: real, k: nat)
    requires k < |block| && NewEdge(tasks, block)
    ensures Reached(tasks + block, oracle, alpha, |tasks| + k) <==> AllReject(block[..k], oracle, alpha)
  {
    var all, n := tasks + block, |tasks| + k;
    assert all[n] == block[k];
    forall i | 0 <= i < k
      ensures all[|tasks| + i] == block[..k][i] && all[|tasks| + i].edgeKey == all[n].edgeKey
    {
    }
    assert forall j :: 0 <= j < |tasks| ==> all[j] == tasks[j];
    assert forall j :: |tasks| <= j < n ==> all[j] == block[..k][j - |tasks|];
  }

  /** A block of tests of a new edge adds exactly the sequential tests of that edge. */
  lemma {:induction false} ReachedBlock(tasks: seq<Task>, block: seq<Task>, oracle: Oracle, alpha: real, k: nat)
    requires k <= |block| && NewEdge(tasks, block)
    ensures ReachedRecords(tasks + block, oracle, alpha, |tasks| + k) ==
      ReachedRecords(tasks, oracle, alpha, |tasks|) + EdgeRecords(block[..k], oracle, alpha)
  {
    hide NewEdge, Reached, AllReject;
    if k == 0 {
      ReachedPrefix(tasks, block, oracle, alpha, |tasks|);
    } else {
      ReachedBlock(tasks, block, oracle, alpha, k - 1);
      EdgeRecordsSnoc(block[..k - 1], block[k - 1], oracle, alpha);
      assert block[..k] == block[..k - 1] + [block[k - 1]];
      ReachedInBlock(tasks, block, oracle, alpha, k - 1);
      assert (tasks + block)[|tasks| + k - 1] == block[k - 1];
    }
  }

  ghost predicate KeysBefore(tasks: seq<Task>, p: nat, x: nat, y: nat) {
    forall i :: 0 <= i < |tasks| ==>
      && tasks[i].edgeX < p && tasks[i].edgeY < p
      && tasks[i].edgeKey == EdgeKey(p, tasks[i].edgeX, tasks[i].edgeY)
      && (tasks[i].edgeX < x || (tasks[i].edgeX == x && tasks[i].edgeY < y))
  }

  lemma BlockKeys(adj: Grid<bool>, level: nat, x: nat, y: nat)
    requires Square(adj, |adj|) && x < y < |adj| && adj[x][y]
    ensures forall t :: t in EdgeTasks(adj, level, x, y) ==>
      t.edgeX == x && t.edgeY == y && t.edgeKey == EdgeKey(|adj|, x, y)
  {
    EdgeTasksShape(adj, level, x, y);
    hide EdgeTasks, EdgeKey;
    var block := EdgeTasks(adj, level, x, y);
    forall t | t in block
      ensures t.edgeX == x && t.edgeY == y && t.edgeKey == EdgeKey(|adj|, x, y)
    {
      var i :| 0 <= i < |block| && block[i] == t;
      assert TaskOf(adj, level, x, y, block[i]);
    }
  }

  /** The tests of a later edge share no key with those planned before. */
  lemma BlockIsNew(tasks: seq<Task>, adj: Grid<bool>, level: nat, x: nat, y: nat)
    requires Square(adj, |adj|) && x < y < |adj| && adj[x][y]
    requires KeysBefore(tasks, |adj|, x, y)
    ensures NewEdge(tasks, EdgeTasks(adj, level, x, y))
    ensures KeysBefore(tasks + EdgeTasks(adj, level, x, y), |adj|, x, y + 1)
  {
    hide EdgeTasks, EdgeKey;
    var block := EdgeTasks(adj, level, x, y);
    BlockKeys(adj, level, x, y);
    forall j | 0 <= j < |block|
      ensures block[j].edgeX == x && block[j].edgeY == y && block[j].edgeKey == EdgeKey(|adj|, x, y)
    {
      assert block[j] in block;
    }
    forall i | 0 <= i < |tasks|
      ensures tasks[i].edgeKey != EdgeKey(|adj|, x, y)
    {
      if tasks[i].edgeKey == EdgeKey(|adj|, x, y) {
        EdgeKeyInjective(|adj|, tasks[i].edgeX, tasks[i].edgeY, x, y);
      }
    }
  }

  lemma KeysLater(tasks: seq<Task>, p: nat, x: nat, y: nat, z: nat)
    requires KeysBefore(tasks, p, x, y) && y <= z
    ensures KeysBefore(tasks, p, x, z)
  {
    hide EdgeKey;
  }

  lemma AppendEdge(tasks: seq<Task>, adj: Grid<bool>, level: nat, oracle: Oracle, alpha: real, x: nat, y: nat)
    requires Square(adj, |adj|) && x < y < |adj| && adj[x][y]
    requires KeysBefore(tasks, |adj|, x, y)
    ensures var block := EdgeTasks(adj, level, x, y);
      && KeysBefore(tasks + block, |adj|, x, y + 1)
      && ReachedRecords(tasks + block, oracle, alpha, |tasks + block|) ==
           ReachedRecords(tasks, oracle, alpha, |tasks|) + EdgeRecords(block, oracle, alpha)
  {
    hide EdgeTasks, KeysBefore, NewEdge, ReachedRecords, EdgeRecords;
    var block := EdgeTasks(adj, level, x, y);
    BlockIsNew(tasks, adj, level, x, y);
    ReachedBlock(tasks, block, oracle, alpha, |block|);
    assert block[..|block|] == block;
  }

  lemma {:induction false} AppendRow(tasks: seq<Task>, adj: Grid<bool>, level: nat, oracle: Oracle, alpha: real, x: nat, yEnd: nat)
    requires Square(adj, |adj|) && x < |adj| && yEnd <= |adj|
    requires KeysBefore(tasks, |adj|, x, 0)
    ensures var row := RowTasks(adj, level, x, yEnd);
      && KeysBefore(tasks + row, |adj|, x, yEnd)
      && ReachedRecords(tasks + row, oracle, alpha, |tasks + row|) ==
           ReachedRecords(tasks, oracle, alpha, |tasks|) + RowRecords(adj, level, oracle, alpha, x, yEnd)
    decreases yEnd
  {
    hide EdgeTasks, EdgeRecords, ReachedRecords, KeysBefore;
    if yEnd <= x + 1 {
      assert tasks + [] == tasks;
      KeysLater(tasks, |adj|, x, 0, yEnd);
    } else {
      AppendRow(tasks, adj, level, oracle, alpha, x, yEnd - 1);
      var row := RowTasks(adj, level, x, yEnd - 1);
      if adj[x][yEnd - 1] {
        AppendEdge(tasks + row, adj, level, oracle, alpha, x, yEnd - 1);
        assert (tasks + row) + EdgeTasks(adj, level, x, yEnd - 1) == tasks + RowTasks(adj, level, x, yEnd);
      } else {
        KeysLater(tasks + row, |adj|, x, yEnd - 1, yEnd);
        assert RowTasks(adj, level, x, yEnd) == row;
        assert RowRecords(adj, level, oracle, alpha, x, yEnd) == RowRecords(adj, level, oracle, alpha, x, yEnd - 1);
      }
    }
  }

  lemma KeysNextRow(tasks: seq<Task>, p: nat, x: nat)
    requires KeysBefore(tasks, p, x, p)
    ensures KeysBefore(tasks, p, x + 1, 0)
  {
    hide EdgeKey;
  }

  lemma NothingBefore(p: nat, oracle: Oracle, alpha: real)
    ensures KeysBefore([], p, 0, 0) && ReachedRecords([], oracle, alpha, 0) == []
  {
  }

  lemma {:induction false} ReachedBelow(adj: Grid<bool>, level: nat, oracle: Oracle, alpha: real, xEnd: nat)
    requires Square(adj, |adj|) && xEnd <= |adj|
    ensures var tasks := TasksBelow(adj, level, xEnd);
      && KeysBefore(tasks, |adj|, xEnd, 0)
      && ReachedRecords(tasks, oracle, alpha, |tasks|) == RecordsBelow(adj, level, oracle, alpha, xEnd)
  {
    hide ReachedRecords, KeysBefore, RowTasks, RowRecords;
    if xEnd == 0 {
      NothingBefore(|adj|, oracle, alpha);
    } else {
      var tasks := TasksBelow(adj, level, xEnd - 1);
      ReachedBelow(adj, level, oracle, alpha, xEnd - 1);
      AppendRow(tasks, adj, level, oracle, alpha, xEnd - 1, |adj|);
      KeysNextRow(tasks + RowTasks(adj, level, xEnd - 1, |adj|), |adj|, xEnd - 1);
    }
  }

  /** Skipping the tests of already deleted edges along the plan performs exactly the tests of
      the sequential search, in its order. */
  lemma ReachedIsSequential(adj: Grid<bool>, level: nat, oracle: Oracle, alpha: real)
    requires Square(adj, |adj|)
    ensures ReachedRecords(Plan(adj, level), oracle, alpha, |Plan(adj, level)|) ==
      LevelRecords(adj, level, oracle, alpha)
  {
    ReachedBelow(adj, level, oracle, alpha, |adj|);
  }

  // ------------------------------------------------------- what a search performs

  /** An earlier performed test of the same edge accepted independence. The tests performed are those of
      the order at the places `at`, in step with the log. */
  ghost predicate Cut(order: seq<Task>, log: seq<Record>, at: seq<nat>, alpha: real, m: nat)
    requires m < |order| && |at| == |log|
  {
    exists k :: 0 <= k < |at| && at[k] < m && order[at[k]].edgeKey == order[m].edgeKey && alpha <= log[k].p
  }

  /** Among the first n tests of the order, exactly those have been performed that were not cut. */
  ghost predicate SearchUpTo(order: seq<Task>, n: nat, log: seq<Record>, at: seq<nat>, alpha: real) {
    && n <= |order| && |at| == |log|
    && (forall k :: 0 <= k < |at| ==> at[k] < n && log[k].task == order[at[k]])
    && (forall j, k :: 0 <= j < k < |at| ==> at[j] < at[k])
    && (forall m: nat :: m < n ==> (m in at <==> !Cut(order, log, at, alpha, m)))
  }

  /** The log of a search in this order: it performs each test in turn, unless an earlier performed test
      of the same edge accepted independence. */
  ghost predicate SearchLog(order: seq<Task>, log: seq<Record>, alpha: real) {
    exists at :: SearchUpTo(order, |order|, log, at, alpha)
  }

  lemma SearchNext(order: seq<Task>, n: nat, log: seq<Record>, at: seq<nat>, alpha: real, r: Record)
    requires SearchUpTo(order, n, log, at, alpha) && n < |order| && r.task == order[n]
    ensures if Cut(order, log, at, alpha, n) then SearchUpTo(order, n + 1, log, at, alpha)
            else SearchUpTo(order, n + 1, log + [r], at + [n], alpha)
  {
    var more, log' := at + [n], log + [r];
    forall m: nat | m <= n
      ensures Cut(order, log', more, alpha, m) <==> Cut(order, log, at, alpha, m)
    {
      if Cut(order, log, at, alpha, m) {
        var k :| 0 <= k < |at| && at[k] < m && order[at[k]].edgeKey == order[m].edgeKey && alpha <= log[k].p;
        assert more[k] == at[k] && log'[k] == log[k];
      }
    }
    hide Cut;
    assert forall k :: 0 <= k < |at| ==> more[k] == at[k] && log'[k] == log[k];
    assert forall m: nat :: m in more <==> m in at || m == n;
    assert forall k :: 0 <= k < |at| ==> at[k] != n;
  }

  ghost predicate TrueLog(log: seq<Record>, oracle: Oracle) {
    forall k :: 0 <= k < |log| ==> log[k].p == oracle(log[k].task.orientX, log[k].task.orientY, log[k].task.conditioning)
  }

  lemma EarlierCuts(order: seq<Task>, n: nat, log: seq<Record>, at: seq<nat>, oracle: Oracle, alpha: real, j: nat, m: nat)
    requires SearchUpTo(order, n, log, at, alpha) && TrueLog(log, oracle) && j < n && j < m < |order|
    requires order[j].edgeKey == order[m].edgeKey && alpha <= PValue(oracle, order[j])
    ensures Cut(order, log, at, alpha, m)
  {
    if j in at {
      var k :| 0 <= k < |at| && at[k] == j;
      assert log[k].p == PValue(oracle, order[j]);
    } else {
      assert Cut(order, log, at, alpha, j);
      var k :| 0 <= k < |at| && at[k] < j && order[at[k]].edgeKey == order[j].edgeKey && alpha <= log[k].p;
      assert at[k] < m;
    }
  }

  /** A performed test of the edge cuts it exactly if any earlier test of the edge accepts. */
  lemma CutIsReached(order: seq<Task>, n: nat, log: seq<Record>, at: seq<nat>, oracle: Oracle, alpha: real, m: nat)
    requires SearchUpTo(order, n, log, at, alpha) && TrueLog(log, oracle) && m <= n && m < |order|
    ensures Cut(order, log, at, alpha, m) <==> !Reached(order, oracle, alpha, m)
  {
    if Cut(order, log, at, alpha, m) {
      var k :| 0 <= k < |at| && at[k] < m && order[at[k]].edgeKey == order[m].edgeKey && alpha <= log[k].p;
      assert PValue(oracle, order[at[k]]) >= alpha;
    }
    if !Reached(order, oracle, alpha, m) {
      var j: nat :| j < m && order[j].edgeKey == order[m].edgeKey && alpha <= PValue(oracle, order[j]);
      EarlierCuts(order, n, log, at, oracle, alpha, j, m);
    }
  }

  lemma ReachedNext(order: seq<Task>, oracle: Oracle, alpha: real, m: nat, log: seq<Record>, at: seq<nat>) returns (more: seq<nat>)
    requires m < |order| && SearchUpTo(order, m, log, at, alpha) && TrueLog(log, oracle)
    ensures var r := Record(order[m], PValue(oracle, order[m]));
            var log' := if Reached(order, oracle, alpha, m) then log + [r] else log;
            SearchUpTo(order, m + 1, log', more, alpha) && TrueLog(log', oracle)
  {
    var r := Record(order[m], PValue(oracle, order[m]));
    CutIsReached(order, m, log, at, oracle, alpha, m);
    SearchNext(order, m, log, at, alpha, r);
    assert TrueLog(log + [r], oracle);
    assert |at| == |log|;
    hide SearchUpTo, Cut, Reached, TrueLog;
    more := if Reached(order, oracle, alpha, m) then at + [m] else at;
  }

  lemma {:induction false} ReachedSearch(order: seq<Task>, oracle: Oracle, alpha: real, n: nat) returns (at: seq<nat>)
    requires n <= |order|
    ensures SearchUpTo(order, n, ReachedRecords(order, oracle, alpha, n), at, alpha)
    ensures TrueLog(ReachedRecords(order, oracle, alpha, n), oracle)
  {
    if n == 0 {
      at := [];
    } else {
      hide SearchUpTo, TrueLog, Reached;
      var log := ReachedRecords(order, oracle, alpha, n - 1);
      at := ReachedSearch(order, oracle, alpha, n - 1);
      at := ReachedNext(order, oracle, alpha, n - 1, log, at);
      assert log + [] == log;
    }
  }

  /** What the sequential search of a level performs: the planned tests that no earlier performed test of
      their edge cut off, in plan order, each with the p-value of its oriented pair and conditioning set. */
  lemma LevelSearch(adj: Grid<bool>, level: nat, oracle: Oracle, alpha: real)
    requires Square(adj, |adj|)
    ensures SearchLog(Plan(adj, level), LevelRecords(adj, level, oracle, alpha), alpha)
    ensures TrueLog(LevelRecords(adj, level, oracle, alpha), oracle)
  {
    hide Plan, LevelRecords, ReachedRecords, SearchUpTo, TrueLog;
    ReachedIsSequential(adj, level, oracle, alpha);
    var at := ReachedSearch(Plan(adj, level), oracle, alpha, |Plan(adj, level)|);
  }
}
