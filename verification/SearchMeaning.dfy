/** What the results of a search mean: every maximum is the largest p-value of its pair's tests, every
    separating set is the conditioning set of the test that removed its pair. */
module SearchMeaning {
  import opened Grids
  import opened LayerPlan
  import opened Skeleton
  import opened OneCall
  import opened PcalgOrder
  import PermutationSearch

  // ------------------------------------------------------------------------ one level

  ghost predicate AcceptedAt(log: seq<Record>, i: nat, alpha: real, x: nat, y: nat) {
    i < |log| && OnEdge(log[i].task, x, y) && alpha <= log[i].p
  }

  /** A cell's maximum after a log: no smaller than before and than any p-value of the pair, and one of them. */
  ghost predicate IsMaximum(m: Bound, was: Bound, log: seq<Record>, x: nat, y: nat) {
    && (was.Val? ==> m.Val? && was.value <= m.value)
    && (forall i :: 0 <= i < |log| && OnEdge(log[i].task, x, y) ==> m.Val? && log[i].p <= m.value)
    && (m == was || (m.Val? && exists i :: 0 <= i < |log| && OnEdge(log[i].task, x, y) && log[i].p == m.value))
  }

  lemma MaximumNext(m: Bound, was: Bound, log: seq<Record>, r: Record, x: nat, y: nat)
    requires IsMaximum(m, was, log, x, y)
    ensures IsMaximum(if OnEdge(r.task, x, y) && m.Below(r.p) then Val(r.p) else m, was, log + [r], x, y)
  {
    hide OnEdge;
    var more := log + [r];
    assert more[|log|] == r && forall i :: 0 <= i < |log| ==> more[i] == log[i];
  }

  lemma NoteCell(s: State, r: Record, alpha: real, p: nat, x: nat, y: nat)
    requires ValidState(s, p) && InRange(r.task, p) && x < p && y < p && Symmetric(s.pmax, p)
    ensures var s' := Note(s, r, alpha, p);
      && s'.pmax[x][y] == (if OnEdge(r.task, x, y) && s.pmax[x][y].Below(r.p) then Val(r.p) else s.pmax[x][y])
      && s'.sepsets[x][y] == (if OnEdge(r.task, x, y) && alpha <= r.p then r.task.conditioning else s.sepsets[x][y])
  {
  }

  lemma {:induction false} ReplayMaximum(s: State, log: seq<Record>, alpha: real, p: nat, x: nat, y: nat)
    requires ValidState(s, p) && AllInRange(log, p) && x < p && y < p && Symmetric(s.pmax, p)
    ensures IsMaximum(Replay(s, log, alpha, p).pmax[x][y], s.pmax[x][y], log, x, y)
    decreases |log|
  {
    if log != [] {
      var front, last := log[..|log| - 1], log[|log| - 1];
      ReplayMaximum(s, front, alpha, p, x, y);
      ReplaySymmetric(s, front, alpha, p);
      NoteCell(Replay(s, front, alpha, p), last, alpha, p, x, y);
      MaximumNext(Replay(s, front, alpha, p).pmax[x][y], s.pmax[x][y], front, last, x, y);
      assert log == front + [last];
      hide Note, IsMaximum;
    }
  }

  /** A cell's set after a log is that of the pair's last accepted test, or as before if there was none. */
  ghost predicate IsLastAccepted(c: seq<nat>, was: seq<nat>, log: seq<Record>, alpha: real, x: nat, y: nat) {
    || (c == was && forall i: nat :: !AcceptedAt(log, i, alpha, x, y))
    || exists i: nat :: AcceptedAt(log, i, alpha, x, y) && c == log[i].task.conditioning
         && forall j: nat :: i < j ==> !AcceptedAt(log, j, alpha, x, y)
  }

  lemma LastAcceptedNext(c: seq<nat>, was: seq<nat>, log: seq<Record>, r: Record, alpha: real, x: nat, y: nat)
    requires IsLastAccepted(c, was, log, alpha, x, y)
    ensures IsLastAccepted(if OnEdge(r.task, x, y) && alpha <= r.p then r.task.conditioning else c, was, log + [r], alpha, x, y)
  {
    hide OnEdge;
    var more := log + [r];
    assert forall i :: 0 <= i < |log| ==> more[i] == log[i];
    assert more[|log|] == r;
    if OnEdge(r.task, x, y) && alpha <= r.p {
      assert AcceptedAt(more, |log|, alpha, x, y);
    } else {
      assert forall i: nat :: AcceptedAt(more, i, alpha, x, y) <==> AcceptedAt(log, i, alpha, x, y);
      if i: nat :| AcceptedAt(log, i, alpha, x, y) && c == log[i].task.conditioning
                   && forall j: nat :: i < j ==> !AcceptedAt(log, j, alpha, x, y) {
        assert AcceptedAt(more, i, alpha, x, y);
      }
    }
  }

  lemma {:induction false} ReplaySepset(s: State, log: seq<Record>, alpha: real, p: nat, x: nat, y: nat)
    requires ValidState(s, p) && AllInRange(log, p) && x < p && y < p && Symmetric(s.pmax, p)
    ensures IsLastAccepted(Replay(s, log, alpha, p).sepsets[x][y], s.sepsets[x][y], log, alpha, x, y)
    decreases |log|
  {
    if log != [] {
      var front, last := log[..|log| - 1], log[|log| - 1];
      ReplaySepset(s, front, alpha, p, x, y);
      ReplaySymmetric(s, front, alpha, p);
      NoteCell(Replay(s, front, alpha, p), last, alpha, p, x, y);
      LastAcceptedNext(Replay(s, front, alpha, p).sepsets[x][y], s.sepsets[x][y], front, last, alpha, x, y);
      assert log == front + [last];
      hide Note, IsLastAccepted;
    }
  }

  // -------------------------------------------------------------------------- a run

  /** One level of a run: its log is replayed, and the pairs it accepted are removed. */
  ghost predicate Stepped(r: Run, log: seq<Record>, alpha: real, p: nat, r': Run) {
    && ValidRun(r, p) && Symmetric(r.adj, p) && AllInRange(log, p)
    && (forall i :: 0 <= i < |log| ==> r.adj[log[i].task.edgeX][log[i].task.edgeY])
    && var s := Replay(State(r.pmax, r.sepsets, Fill(p, false)), log, alpha, p);
       r' == Run(Remove(r.adj, s.deletes, p), s.pmax, s.sepsets)
  }

  ghost predicate RunOf(runs: seq<Run>, logs: seq<seq<Record>>, alpha: real, p: nat) {
    && |runs| == |logs| + 1 && runs[0] == Start(p)
    && forall k :: 0 <= k < |logs| ==> Stepped(runs[k], logs[k], alpha, p, runs[k + 1])
  }

  ghost predicate TestedAt(logs: seq<seq<Record>>, n: nat, k: nat, i: nat, x: nat, y: nat, q: real) {
    k < n <= |logs| && i < |logs[k]| && OnEdge(logs[k][i].task, x, y) && logs[k][i].p == q
  }

  /** Some test of the pair, in the first n levels, had this p-value. */
  ghost predicate Tested(logs: seq<seq<Record>>, n: nat, x: nat, y: nat, q: real) {
    exists k: nat, i: nat :: TestedAt(logs, n, k, i, x, y, q)
  }

  /** The largest p-value of the pair's tests in the first n levels, or minus infinity if it had none. */
  ghost predicate LargestTested(m: Bound, logs: seq<seq<Record>>, n: nat, x: nat, y: nat) {
    match m
    case NegInf => forall q: real :: !Tested(logs, n, x, y, q)
    case Val(v) => Tested(logs, n, x, y, v) && forall q: real :: Tested(logs, n, x, y, q) ==> q <= v
  }

  lemma TestedNext(logs: seq<seq<Record>>, n: nat, next: nat, x: nat, y: nat, q: real)
    requires next == n + 1 <= |logs|
    ensures Tested(logs, next, x, y, q) <==> Tested(logs, n, x, y, q) || exists i: nat :: TestedAt(logs, next, n, i, x, y, q)
  {
    hide OnEdge;
    if k: nat, i: nat :| TestedAt(logs, next, k, i, x, y, q) {
      if k < n {
        assert TestedAt(logs, n, k, i, x, y, q);
      }
    }
    if k: nat, i: nat :| TestedAt(logs, n, k, i, x, y, q) {
      assert TestedAt(logs, next, k, i, x, y, q);
    }
  }

  lemma LargestNext(m: Bound, was: Bound, logs: seq<seq<Record>>, n: nat, next: nat, x: nat, y: nat)
    requires next == n + 1 <= |logs| && LargestTested(was, logs, n, x, y) && IsMaximum(m, was, logs[n], x, y)
    ensures LargestTested(m, logs, next, x, y)
  {
    hide OnEdge, Tested;
    forall q: real
      ensures Tested(logs, next, x, y, q) <==> Tested(logs, n, x, y, q) || exists i: nat :: TestedAt(logs, next, n, i, x, y, q)
    {
      TestedNext(logs, n, next, x, y, q);
    }
    if m != was {
      var i: nat :| i < |logs[n]| && OnEdge(logs[n][i].task, x, y) && logs[n][i].p == m.value;
      assert TestedAt(logs, next, n, i, x, y, m.value);
      assert Tested(logs, next, x, y, m.value);
    }
  }

  lemma SteppedKeeps(r: Run, log: seq<Record>, alpha: real, p: nat, r': Run)
    requires Stepped(r, log, alpha, p, r')
    ensures ValidRun(r', p) && Symmetric(r'.adj, p)
  {
    var s := State(r.pmax, r.sepsets, Fill(p, false));
    ReplaySymmetric(s, log, alpha, p);
    RemoveSymmetric(r.adj, Replay(s, log, alpha, p).deletes, p);
  }

  lemma {:induction false} RunValid(runs: seq<Run>, logs: seq<seq<Record>>, alpha: real, p: nat, n: nat)
    requires RunOf(runs, logs, alpha, p) && n <= |logs|
    ensures ValidRun(runs[n], p) && Symmetric(runs[n].adj, p)
  {
    hide Stepped;
    if n > 0 {
      assert Stepped(runs[n - 1], logs[n - 1], alpha, p, runs[n - 1 + 1]);
      SteppedKeeps(runs[n - 1], logs[n - 1], alpha, p, runs[n]);
    } else {
      StartSymmetric(p);
    }
  }

  lemma StartSymmetric(p: nat)
    ensures Symmetric(Start(p).adj, p)
  {
  }

  /** In any run the maximum of a pair is the largest p-value of its tests so far. */
  lemma {:induction false} RunMaximum(runs: seq<Run>, logs: seq<seq<Record>>, alpha: real, p: nat, n: nat, x: nat, y: nat)
    requires RunOf(runs, logs, alpha, p) && n <= |logs| && x < p && y < p && x != y
    ensures ValidRun(runs[n], p) && LargestTested(runs[n].pmax[x][y], logs, n, x, y)
  {
    RunValid(runs, logs, alpha, p, n);
    if n > 0 {
      RunMaximum(runs, logs, alpha, p, n - 1, x, y);
      var r, log := runs[n - 1], logs[n - 1];
      assert Stepped(r, log, alpha, p, runs[n - 1 + 1]);
      hide LargestTested, IsMaximum;
      ReplayMaximum(State(r.pmax, r.sepsets, Fill(p, false)), log, alpha, p, x, y);
      LargestNext(runs[n].pmax[x][y], r.pmax[x][y], logs, n - 1, n, x, y);
    }
  }

  /** A record of this level for the pair that accepted independence. */
  ghost predicate RemovedBy(logs: seq<seq<Record>>, k: nat, i: nat, alpha: real, x: nat, y: nat) {
    k < |logs| && AcceptedAt(logs[k], i, alpha, x, y)
  }

  lemma AcceptedSomewhere(log: seq<Record>, alpha: real, x: nat, y: nat)
    ensures AcceptedOn(log, alpha, x, y) <==> exists i: nat :: AcceptedAt(log, i, alpha, x, y)
  {
    hide OnEdge;
    if AcceptedOn(log, alpha, x, y) {
      var i: nat :| i < |log| && OnEdge(log[i].task, x, y) && alpha <= log[i].p;
      assert AcceptedAt(log, i, alpha, x, y);
    }
  }

  lemma StepRemoves(r: Run, log: seq<Record>, alpha: real, p: nat, r': Run, x: nat, y: nat)
    requires Stepped(r, log, alpha, p, r') && x < p && y < p
    ensures ValidRun(r', p)
    ensures r'.adj[x][y] <==> r.adj[x][y] && forall i: nat :: !AcceptedAt(log, i, alpha, x, y)
    ensures !r.adj[x][y] ==> r'.sepsets[x][y] == r.sepsets[x][y] && r'.pmax[x][y] == r.pmax[x][y]
    ensures IsLastAccepted(r'.sepsets[x][y], r.sepsets[x][y], log, alpha, x, y)
  {
    var s := State(r.pmax, r.sepsets, Fill(p, false));
    SteppedKeeps(r, log, alpha, p, r');
    ReplayDeletes(s, log, alpha, p, x, y);
    ReplaySepset(s, log, alpha, p, x, y);
    AcceptedSomewhere(log, alpha, x, y);
    if !r.adj[x][y] {
      forall rec | rec in log
        ensures !OnEdge(rec.task, x, y)
      {
        var i :| 0 <= i < |log| && log[i] == rec;
        assert r.adj[log[i].task.edgeX][log[i].task.edgeY];
      }
      ReplayElsewhere(s, log, alpha, p, x, y);
    }
  }

  lemma RunStep(runs: seq<Run>, logs: seq<seq<Record>>, alpha: real, p: nat, k: nat, x: nat, y: nat)
    requires RunOf(runs, logs, alpha, p) && k < |logs| && x < p && y < p
    ensures ValidRun(runs[k], p) && ValidRun(runs[k + 1], p)
    ensures runs[k + 1].adj[x][y] <==> runs[k].adj[x][y] && forall i: nat :: !AcceptedAt(logs[k], i, alpha, x, y)
    ensures !runs[k].adj[x][y] ==> runs[k + 1].sepsets[x][y] == runs[k].sepsets[x][y]
    ensures IsLastAccepted(runs[k + 1].sepsets[x][y], runs[k].sepsets[x][y], logs[k], alpha, x, y)
  {
    hide IsLastAccepted, AcceptedAt;
    assert Stepped(runs[k], logs[k], alpha, p, runs[k + 1]);
    hide Stepped;
    RunValid(runs, logs, alpha, p, k);
    StepRemoves(runs[k], logs[k], alpha, p, runs[k + 1], x, y);
  }

  /** A pair that level k removed has, in every later state, the conditioning set of a test of level k that
      accepted its independence. */
  lemma {:induction false} RunSepset(runs: seq<Run>, logs: seq<seq<Record>>, alpha: real, p: nat, k: nat, n: nat, x: nat, y: nat)
    requires RunOf(runs, logs, alpha, p) && k < n <= |logs| && x < p && y < p
    requires ValidRun(runs[k], p) && ValidRun(runs[k + 1], p) && runs[k].adj[x][y] && !runs[k + 1].adj[x][y]
    ensures ValidRun(runs[n], p) && !runs[n].adj[x][y]
    ensures exists i: nat :: RemovedBy(logs, k, i, alpha, x, y) && runs[n].sepsets[x][y] == logs[k][i].task.conditioning
    decreases n
  {
    hide IsLastAccepted, OnEdge;
    RunStep(runs, logs, alpha, p, n - 1, x, y);
    hide Stepped, RunOf;
    if n - 1 > k {
      RunSepset(runs, logs, alpha, p, k, n - 1, x, y);
    } else {
      SomeAccepted(runs[n].sepsets[x][y], runs[k].sepsets[x][y], logs[k], alpha, x, y);
      var i: nat :| AcceptedAt(logs[k], i, alpha, x, y) && runs[n].sepsets[x][y] == logs[k][i].task.conditioning;
      assert RemovedBy(logs, k, i, alpha, x, y);
    }
  }

  lemma SomeAccepted(c: seq<nat>, was: seq<nat>, log: seq<Record>, alpha: real, x: nat, y: nat)
    requires IsLastAccepted(c, was, log, alpha, x, y) && exists i: nat :: AcceptedAt(log, i, alpha, x, y)
    ensures exists i: nat :: AcceptedAt(log, i, alpha, x, y) && c == log[i].task.conditioning
  {
  }

  /** A pair never removed has no separating set. */
  lemma {:induction false} RunWithoutSepset(runs: seq<Run>, logs: seq<seq<Record>>, alpha: real, p: nat, n: nat, x: nat, y: nat)
    requires RunOf(runs, logs, alpha, p) && n <= |logs| && x < p && y < p
    requires ValidRun(runs[n], p) && runs[n].adj[x][y]
    ensures runs[n].sepsets[x][y] == []
  {
    hide IsLastAccepted, AcceptedAt;
    if n > 0 {
      RunStep(runs, logs, alpha, p, n - 1, x, y);
      RunWithoutSepset(runs, logs, alpha, p, n - 1, x, y);
      NoneAccepted(runs[n].sepsets[x][y], runs[n - 1].sepsets[x][y], logs[n - 1], alpha, x, y);
    }
  }

  lemma NoneAccepted(c: seq<nat>, was: seq<nat>, log: seq<Record>, alpha: real, x: nat, y: nat)
    requires IsLastAccepted(c, was, log, alpha, x, y) && forall i: nat :: !AcceptedAt(log, i, alpha, x, y)
    ensures c == was
  {
  }

  // ------------------------------------------------------------- the sequential search

  /** The tests the sequential search performs, level by level. */
  ghost function SearchLogs(p: nat, oracle: Oracle, alpha: real, n: nat): (logs: seq<seq<Record>>)
    ensures |logs| == n
  {
    if n == 0 then []
    else SearchLogs(p, oracle, alpha, n - 1) + [LevelRecords(After(p, oracle, alpha, n - 1).adj, n - 1, oracle, alpha)]
  }

  lemma {:induction false} SearchLogAt(p: nat, oracle: Oracle, alpha: real, n: nat, k: nat)
    requires k < n
    ensures SearchLogs(p, oracle, alpha, n)[k] == LevelRecords(After(p, oracle, alpha, k).adj, k, oracle, alpha)
    decreases n
  {
    hide LevelRecords, After;
    if k < n - 1 {
      SearchLogAt(p, oracle, alpha, n - 1, k);
    }
  }

  lemma {:induction false} AfterSymmetric(p: nat, oracle: Oracle, alpha: real, k: nat)
    ensures Symmetric(After(p, oracle, alpha, k).adj, p)
  {
    if k == 0 {
      StartSymmetric(p);
    } else {
      var r := After(p, oracle, alpha, k - 1);
      AfterSymmetric(p, oracle, alpha, k - 1);
      LevelInRange(r.adj, k - 1, oracle, alpha);
      var s := State(r.pmax, r.sepsets, Fill(p, false));
      ReplaySymmetric(s, LevelRecords(r.adj, k - 1, oracle, alpha), alpha, p);
      RemoveSymmetric(r.adj, LevelState(r, k - 1, oracle, alpha, p).deletes, p);
    }
  }

  lemma AfterSteps(p: nat, oracle: Oracle, alpha: real, k: nat)
    ensures var r := After(p, oracle, alpha, k);
            Stepped(r, LevelRecords(r.adj, k, oracle, alpha), alpha, p, After(p, oracle, alpha, k + 1))
  {
    var r := After(p, oracle, alpha, k);
    var log := LevelRecords(r.adj, k, oracle, alpha);
    AfterSymmetric(p, oracle, alpha, k);
    LevelInRange(r.adj, k, oracle, alpha);
    LevelRecordsShape(r.adj, k, oracle, alpha);
    hide LevelRecords;
    forall i | 0 <= i < |log|
      ensures r.adj[log[i].task.edgeX][log[i].task.edgeY]
    {
      assert PlannedRecord(r.adj, k, oracle, log[i]);
    }
  }

  ghost predicate SearchRuns(runs: seq<Run>, p: nat, oracle: Oracle, alpha: real, n: nat) {
    |runs| == n + 1 && forall k :: 0 <= k <= n ==> runs[k] == After(p, oracle, alpha, k)
  }

  lemma {:induction false} AfterRuns(p: nat, oracle: Oracle, alpha: real, n: nat) returns (runs: seq<Run>)
    ensures RunOf(runs, SearchLogs(p, oracle, alpha, n), alpha, p) && SearchRuns(runs, p, oracle, alpha, n)
    decreases n
  {
    hide RunOf, Stepped, LevelRecords, NextLevel, Start;
    if n == 0 {
      runs := [Start(p)];
      NoLevels(alpha, p);
    } else {
      var before := AfterRuns(p, oracle, alpha, n - 1);
      AfterSteps(p, oracle, alpha, n - 1);
      hide After;
      RunGrows(before, SearchLogs(p, oracle, alpha, n - 1), LevelRecords(After(p, oracle, alpha, n - 1).adj, n - 1, oracle, alpha),
               alpha, p, After(p, oracle, alpha, n));
      runs := before + [After(p, oracle, alpha, n)];
    }
  }

  lemma NoLevels(alpha: real, p: nat)
    ensures RunOf([Start(p)], [], alpha, p)
  {
  }

  lemma RunGrows(runs: seq<Run>, logs: seq<seq<Record>>, log: seq<Record>, alpha: real, p: nat, r: Run)
    requires RunOf(runs, logs, alpha, p) && Stepped(runs[|logs|], log, alpha, p, r)
    ensures RunOf(runs + [r], logs + [log], alpha, p)
  {
    hide Stepped, Start;
    var more, logs' := runs + [r], logs + [log];
    forall k | 0 <= k < |logs'|
      ensures Stepped(more[k], logs'[k], alpha, p, more[k + 1])
    {
      if k < |logs| {
        assert Stepped(runs[k], logs[k], alpha, p, runs[k + 1]);
      }
    }
  }

  /** After any number of levels of the sequential search, every maximum is the largest p-value of the
      pair's tests, and minus infinity without one. */
  lemma SearchMaximum(p: nat, oracle: Oracle, alpha: real, n: nat, x: nat, y: nat)
    requires x < p && y < p && x != y
    ensures LargestTested(After(p, oracle, alpha, n).pmax[x][y], SearchLogs(p, oracle, alpha, n), n, x, y)
  {
    hide RunOf, LargestTested;
    var runs := AfterRuns(p, oracle, alpha, n);
    RunMaximum(runs, SearchLogs(p, oracle, alpha, n), alpha, p, n, x, y);
  }

  /** And the separating set of a removed pair is that of a test of the level that removed it, which
      accepted its independence; a pair never removed has none. */
  lemma SearchSepset(p: nat, oracle: Oracle, alpha: real, k: nat, n: nat, x: nat, y: nat)
    requires k < n && x < p && y < p
    ensures RemovedAt(p, oracle, alpha, k, x, y) ==>
      exists i: nat :: RemovedBy(SearchLogs(p, oracle, alpha, n), k, i, alpha, x, y)
        && After(p, oracle, alpha, n).sepsets[x][y] == SearchLogs(p, oracle, alpha, n)[k][i].task.conditioning
    ensures After(p, oracle, alpha, n).adj[x][y] ==> After(p, oracle, alpha, n).sepsets[x][y] == []
  {
    hide RunOf, RemovedBy, NextLevel;
    var runs := AfterRuns(p, oracle, alpha, n);
    if RemovedAt(p, oracle, alpha, k, x, y) {
      RunSepset(runs, SearchLogs(p, oracle, alpha, n), alpha, p, k, n, x, y);
    }
    if After(p, oracle, alpha, n).adj[x][y] {
      RunWithoutSepset(runs, SearchLogs(p, oracle, alpha, n), alpha, p, n, x, y);
    }
  }

  // ----------------------------------------------------- the search that draws its p-values

  /** The tests the sequential pcalg search performs, level by level. */
  ghost function DrawnLogs<R>(p: nat, rng: R, oracle: DrawingOracle<R>, alpha: real, n: nat): (logs: seq<seq<Record>>)
    ensures |logs| == n
  {
    if n == 0 then []
    else
      var (r, g) := PermutationSearch.After(p, rng, oracle, alpha, n - 1);
      DrawnLogs(p, rng, oracle, alpha, n - 1) + [PermutationSearch.LevelLog(r.adj, n - 1, g, oracle, alpha).0]
  }

  lemma {:induction false} DrawnLogAt<R>(p: nat, rng: R, oracle: DrawingOracle<R>, alpha: real, n: nat, k: nat)
    requires k < n
    ensures var (r, g) := PermutationSearch.After(p, rng, oracle, alpha, k);
            DrawnLogs(p, rng, oracle, alpha, n)[k] == PermutationSearch.LevelLog(r.adj, k, g, oracle, alpha).0
    decreases n
  {
    hide PermutationSearch.LevelLog, PermutationSearch.After;
    if k < n - 1 {
      DrawnLogAt(p, rng, oracle, alpha, n - 1, k);
    }
  }

  lemma DrawnSteps<R>(p: nat, rng: R, oracle: DrawingOracle<R>, alpha: real, k: nat)
    ensures var (r, g) := PermutationSearch.After(p, rng, oracle, alpha, k);
            Stepped(r, PermutationSearch.LevelLog(r.adj, k, g, oracle, alpha).0, alpha, p,
                    PermutationSearch.After(p, rng, oracle, alpha, k + 1).0)
  {
    var (r, g) := PermutationSearch.After(p, rng, oracle, alpha, k);
    var log := PermutationSearch.LevelLog(r.adj, k, g, oracle, alpha).0;
    PermutationSearch.LogShape(r.adj, k, g, oracle, alpha);
    hide PermutationSearch.LevelLog, Plan, Order;
    forall i | 0 <= i < |log|
      ensures r.adj[log[i].task.edgeX][log[i].task.edgeY]
    {
      assert log[i] in log;
      SameTests(r.adj, k, log[i].task);
      var j :| 0 <= j < |Plan(r.adj, k)| && Plan(r.adj, k)[j] == log[i].task;
      PlannedTask(r.adj, k, j);
    }
  }

  ghost predicate DrawnRunsAre<R(!new)>(runs: seq<Run>, p: nat, rng: R, oracle: DrawingOracle<R>, alpha: real, n: nat) {
    |runs| == n + 1 && forall k :: 0 <= k <= n ==> runs[k] == PermutationSearch.After(p, rng, oracle, alpha, k).0
  }

  lemma {:induction false} DrawnRuns<R(!new)>(p: nat, rng: R, oracle: DrawingOracle<R>, alpha: real, n: nat) returns (runs: seq<Run>)
    ensures RunOf(runs, DrawnLogs(p, rng, oracle, alpha, n), alpha, p) && DrawnRunsAre(runs, p, rng, oracle, alpha, n)
    decreases n
  {
    hide RunOf, Stepped, PermutationSearch.LevelLog, PermutationSearch.NextLevel, Start;
    if n == 0 {
      runs := [Start(p)];
      NoLevels(alpha, p);
    } else {
      var before := DrawnRuns(p, rng, oracle, alpha, n - 1);
      DrawnSteps(p, rng, oracle, alpha, n - 1);
      hide PermutationSearch.After;
      var (r, g) := PermutationSearch.After(p, rng, oracle, alpha, n - 1);
      RunGrows(before, DrawnLogs(p, rng, oracle, alpha, n - 1), PermutationSearch.LevelLog(r.adj, n - 1, g, oracle, alpha).0,
               alpha, p, PermutationSearch.After(p, rng, oracle, alpha, n).0);
      runs := before + [PermutationSearch.After(p, rng, oracle, alpha, n).0];
    }
  }

  /** Each level of the permutation search draws from the generator state the level before left: its log
      is that of a search in pcalg order, its p-values drawn one after the other. */
  lemma LevelsAreDrawn<R(!new)>(p: nat, rng: R, oracle: DrawingOracle<R>, alpha: real, n: nat, k: nat)
    requires k < n
    ensures PermutationSearch.After(p, rng, oracle, alpha, 0).1 == rng
    ensures var (r, g) := PermutationSearch.After(p, rng, oracle, alpha, k);
            DrawnLog(Order(r.adj, k), DrawnLogs(p, rng, oracle, alpha, n)[k], g, PermutationSearch.After(p, rng, oracle, alpha, k + 1).1, oracle, alpha)
  {
    hide DrawnLog;
    var (r, g) := PermutationSearch.After(p, rng, oracle, alpha, k);
    DrawnLogAt(p, rng, oracle, alpha, n, k);
    PerformIsDrawn(Order(r.adj, k), g, oracle, alpha);
  }

  lemma DrawnMaximum<R(!new)>(p: nat, rng: R, oracle: DrawingOracle<R>, alpha: real, n: nat, x: nat, y: nat)
    requires x < p && y < p && x != y
    ensures LargestTested(PermutationSearch.After(p, rng, oracle, alpha, n).0.pmax[x][y], DrawnLogs(p, rng, oracle, alpha, n), n, x, y)
  {
    hide RunOf, LargestTested;
    var runs := DrawnRuns(p, rng, oracle, alpha, n);
    RunMaximum(runs, DrawnLogs(p, rng, oracle, alpha, n), alpha, p, n, x, y);
  }

  lemma DrawnSepset<R(!new)>(p: nat, rng: R, oracle: DrawingOracle<R>, alpha: real, k: nat, n: nat, x: nat, y: nat)
    requires k < n && x < p && y < p
    ensures var adj, adj' := PermutationSearch.After(p, rng, oracle, alpha, k).0.adj, PermutationSearch.After(p, rng, oracle, alpha, k + 1).0.adj;
      adj[x][y] && !adj'[x][y] ==>
        exists i: nat :: RemovedBy(DrawnLogs(p, rng, oracle, alpha, n), k, i, alpha, x, y)
          && PermutationSearch.After(p, rng, oracle, alpha, n).0.sepsets[x][y] == DrawnLogs(p, rng, oracle, alpha, n)[k][i].task.conditioning
    ensures var r := PermutationSearch.After(p, rng, oracle, alpha, n).0; r.adj[x][y] ==> r.sepsets[x][y] == []
  {
    hide RunOf, RemovedBy, PermutationSearch.NextLevel, PermutationSearch.LevelLog;
    var runs := DrawnRuns(p, rng, oracle, alpha, n);
    if runs[k].adj[x][y] && !runs[k + 1].adj[x][y] {
      RunSepset(runs, DrawnLogs(p, rng, oracle, alpha, n), alpha, p, k, n, x, y);
    }
    if runs[n].adj[x][y] {
      RunWithoutSepset(runs, DrawnLogs(p, rng, oracle, alpha, n), alpha, p, n, x, y);
    }
  }
}
