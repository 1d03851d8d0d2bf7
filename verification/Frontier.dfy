/** The frontier scheduler: every edge owns a queue of tests, the heads of the queues are
    bucketed by conditioning set, whole buckets run out of order, and an accepted deletion cuts
    off the rest of its queue. */
module Frontier {
  import opened Collections
  import opened Grids
  import opened LayerPlan
  import opened Skeleton
  import opened Decimal

  // ----------------------------------------------- predicates over the bookkeeping

  /** Queue e lists, ascending, exactly the tests with edge key e. */
  ghost predicate QueuesOf(tasks: seq<Task>, queues: seq<seq<nat>>) {
    && (forall e, j :: 0 <= e < |queues| && 0 <= j < |queues[e]| ==>
          queues[e][j] < |tasks| && tasks[queues[e][j]].edgeKey == e)
    && (forall e, j, k :: 0 <= e < |queues| && 0 <= j < k < |queues[e]| ==> queues[e][j] < queues[e][k])
    && (forall i :: 0 <= i < |tasks| ==> tasks[i].edgeKey < |queues| && i in queues[tasks[i].edgeKey])
  }

  /** `done` tests of a queue have run, in order; only the last may have deleted the edge, and
      then the rest of the queue is cut. */
  ghost predicate EdgeProgress(q: seq<nat>, done: nat, pos: nat, results: map<nat, Probability>, cut: set<nat>, alpha: real) {
    && done <= |q|
    && (forall j :: 0 <= j < |q| ==> (q[j] in results <==> j < done))
    && (forall j :: 0 <= j < |q| && j + 1 < done ==> results[q[j]] < alpha)
    && var stopped := done > 0 && alpha <= results[q[done - 1]];
    && pos == (if stopped then |q| else done)
    && (forall j :: 0 <= j < |q| ==> (q[j] in cut <==> stopped && done <= j))
  }

  ghost predicate Progress(tasks: seq<Task>, queues: seq<seq<nat>>, alpha: real,
                           done: seq<nat>, positions: seq<nat>, results: map<nat, Probability>, cut: set<nat>)
  {
    && |done| == |positions| == |queues|
    && (forall i :: i in results ==> i < |tasks|)
    && (forall i :: i in cut ==> i < |tasks|)
    && (forall e :: 0 <= e < |queues| ==> EdgeProgress(queues[e], done[e], positions[e], results, cut, alpha))
  }

  predicate IsActive(queues: seq<seq<nat>>, positions: seq<nat>, e: nat)
    requires |queues| == |positions|
  {
    e < |queues| && positions[e] < |queues[e]|
  }

  function ActiveEdges(queues: seq<seq<nat>>, positions: seq<nat>): set<nat>
    requires |queues| == |positions|
  {
    set e: nat | e < |queues| && positions[e] < |queues[e]|
  }

  function HeadKey(tasks: seq<Task>, queues: seq<seq<nat>>, positions: seq<nat>, e: nat): string
    requires |queues| == |positions| && IsActive(queues, positions, e)
    requires queues[e][positions[e]] < |tasks|
  {
    ConditioningKey(tasks[queues[e][positions[e]]].conditioning)
  }

  /** A bucket holds active edges outside the wave whose heads have its key, each once. */
  ghost predicate BucketOk(tasks: seq<Task>, queues: seq<seq<nat>>, positions: seq<nat>, pending: set<nat>,
                           k: string, bucket: seq<nat>)
    requires QueuesOf(tasks, queues) && |positions| == |queues|
  {
    && bucket != []
    && (forall a :: 0 <= a < |bucket| ==>
          && IsActive(queues, positions, bucket[a]) && bucket[a] !in pending
          && HeadKey(tasks, queues, positions, bucket[a]) == k)
    && (forall a, b :: 0 <= a < b < |bucket| ==> bucket[a] != bucket[b])
  }

  ghost predicate Waits(tasks: seq<Task>, queues: seq<seq<nat>>, positions: seq<nat>, ready: map<string, seq<nat>>, e: nat)
    requires QueuesOf(tasks, queues) && |positions| == |queues| && IsActive(queues, positions, e)
  {
    var key := HeadKey(tasks, queues, positions, e);
    key in ready && e in ready[key]
  }

  /** Every active edge waits exactly once: in the bucket of its head, or in the current wave. */
  ghost predicate ReadyOk(tasks: seq<Task>, queues: seq<seq<nat>>, positions: seq<nat>,
                          ready: map<string, seq<nat>>, pending: set<nat>)
    requires QueuesOf(tasks, queues) && |positions| == |queues|
  {
    && (forall k :: k in ready ==> BucketOk(tasks, queues, positions, pending, k, ready[k]))
    && (forall e :: e in pending ==> IsActive(queues, positions, e))
    && (forall e: nat :: IsActive(queues, positions, e) && e !in pending ==> Waits(tasks, queues, positions, ready, e))
  }

  ghost predicate DeletedBy(tasks: seq<Task>, results: map<nat, Probability>, alpha: real, x: nat, y: nat) {
    exists i :: i in results && i < |tasks| && OnEdge(tasks[i], x, y) && alpha <= results[i]
  }

  ghost predicate DeletesOk(tasks: seq<Task>, results: map<nat, Probability>, alpha: real, deletes: Grid<bool>, p: nat)
    requires Square(deletes, p)
  {
    forall x, y :: 0 <= x < p && 0 <= y < p ==> (deletes[x][y] <==> DeletedBy(tasks, results, alpha, x, y))
  }

  ghost predicate OpensNext(tasks: seq<Task>, results: map<nat, Probability>) {
    exists i :: i in results && i < |tasks| && tasks[i].opensNext
  }

  // --------------------------------------------------- one step of the bookkeeping

  lemma EdgeProgressFrame(q: seq<nat>, done: nat, pos: nat, alpha: real,
                          results: map<nat, Probability>, cut: set<nat>, results': map<nat, Probability>, cut': set<nat>)
    requires EdgeProgress(q, done, pos, results, cut, alpha)
    requires forall i :: i in q ==> (i in cut <==> i in cut') && (i in results <==> i in results')
    requires forall i :: i in q && i in results ==> results[i] == results'[i]
    ensures EdgeProgress(q, done, pos, results', cut', alpha)
  {
    assert forall j :: 0 <= j < |q| ==> q[j] in q;
  }

  function Tail(q: seq<nat>, from: nat): (t: set<nat>)
    ensures forall i :: i in t <==> exists j :: from <= j < |q| && q[j] == i
  {
    set j | from <= j < |q| :: q[j]
  }

  lemma EdgeProgressStep(q: seq<nat>, done: nat, pos: nat, alpha: real, results: map<nat, Probability>, cut: set<nat>, pv: Probability)
    requires EdgeProgress(q, done, pos, results, cut, alpha) && pos < |q|
    requires forall j, k :: 0 <= j < k < |q| ==> q[j] != q[k]
    ensures pos == done && q[pos] !in results
    ensures EdgeProgress(q, done + 1, if alpha <= pv then |q| else pos + 1,
                         results[q[pos] := pv], if alpha <= pv then cut + Tail(q, pos + 1) else cut, alpha)
  {
    assert forall j :: 0 <= j < |q| && j != pos ==> q[j] != q[pos];
  }

  /** Running the head of queue e keeps the progress facts. */
  lemma TailPlanned(tasks: seq<Task>, queues: seq<seq<nat>>, e: nat, from: nat)
    requires QueuesOf(tasks, queues) && e < |queues|
    ensures forall i :: i in Tail(queues[e], from) ==> i in queues[e] && i < |tasks|
  {
  }

  lemma OthersStep(tasks: seq<Task>, queues: seq<seq<nat>>, alpha: real, done: seq<nat>, positions: seq<nat>,
                   results: map<nat, Probability>, cut: set<nat>, e: nat, pv: Probability)
    requires QueuesOf(tasks, queues) && Progress(tasks, queues, alpha, done, positions, results, cut)
    requires IsActive(queues, positions, e)
    ensures var results', cut' := results[queues[e][positions[e]] := pv], cut + Tail(queues[e], positions[e] + 1);
            forall f :: 0 <= f < |queues| && f != e ==>
              && EdgeProgress(queues[f], done[f], positions[f], results', cut', alpha)
              && EdgeProgress(queues[f], done[f], positions[f], results', cut, alpha)
  {
    hide QueuesOf, EdgeProgress;
    var i := queues[e][positions[e]];
    var results', cut' := results[i := pv], cut + Tail(queues[e], positions[e] + 1);
    TailPlanned(tasks, queues, e, positions[e] + 1);
    assert i in queues[e];
    hide Tail;
    forall f | 0 <= f < |queues| && f != e
      ensures EdgeProgress(queues[f], done[f], positions[f], results', cut', alpha)
      ensures EdgeProgress(queues[f], done[f], positions[f], results', cut, alpha)
    {
      OtherQueue(tasks, queues, e, f);
      EdgeProgressFrame(queues[f], done[f], positions[f], alpha, results, cut, results', cut');
      EdgeProgressFrame(queues[f], done[f], positions[f], alpha, results, cut, results', cut);
    }
  }

  lemma ProgressStep(tasks: seq<Task>, queues: seq<seq<nat>>, alpha: real, done: seq<nat>, positions: seq<nat>,
                     results: map<nat, Probability>, cut: set<nat>, e: nat, pv: Probability)
    requires QueuesOf(tasks, queues) && Progress(tasks, queues, alpha, done, positions, results, cut)
    requires IsActive(queues, positions, e)
    ensures queues[e][positions[e]] !in results
    ensures alpha <= pv ==>
      Progress(tasks, queues, alpha, done[e := done[e] + 1], positions[e := |queues[e]|],
               results[queues[e][positions[e]] := pv], cut + Tail(queues[e], positions[e] + 1))
    ensures pv < alpha ==>
      Progress(tasks, queues, alpha, done[e := done[e] + 1], positions[e := positions[e] + 1],
               results[queues[e][positions[e]] := pv], cut)
  {
    hide QueuesOf, EdgeProgress;
    var q := queues[e];
    ActiveFacts(tasks, queues, positions, e);
    EdgeProgressStep(q, done[e], positions[e], alpha, results, cut, pv);
    OthersStep(tasks, queues, alpha, done, positions, results, cut, e, pv);
    TailPlanned(tasks, queues, e, positions[e] + 1);
    hide Tail;
  }

  lemma OtherQueue(tasks: seq<Task>, queues: seq<seq<nat>>, e: nat, f: nat)
    requires QueuesOf(tasks, queues) && e < |queues| && f < |queues| && e != f
    ensures forall i :: i in queues[f] ==> i !in queues[e]
  {
    assert forall i :: i in queues[f] ==> tasks[i].edgeKey == f;
  }

  lemma TailUncut(q: seq<nat>, done: nat, pos: nat, results: map<nat, Probability>, cut: set<nat>, alpha: real)
    requires EdgeProgress(q, done, pos, results, cut, alpha) && pos < |q|
    ensures Tail(q, pos + 1) !! cut
  {
  }

  /** Cutting off the tests behind the head of queue e adds as many as there are. */
  lemma CutApart(tasks: seq<Task>, queues: seq<seq<nat>>, alpha: real, done: seq<nat>, positions: seq<nat>,
                 results: map<nat, Probability>, cut: set<nat>, e: nat)
    requires Progress(tasks, queues, alpha, done, positions, results, cut) && IsActive(queues, positions, e)
    ensures Tail(queues[e], positions[e] + 1) !! cut
  {
    hide Tail, EdgeProgress;
    TailUncut(queues[e], done[e], positions[e], results, cut, alpha);
  }

  lemma CutSize(tasks: seq<Task>, queues: seq<seq<nat>>, positions: seq<nat>, e: nat)
    requires QueuesOf(tasks, queues) && |positions| == |queues| && IsActive(queues, positions, e)
    ensures |Tail(queues[e], positions[e] + 1)| == |queues[e]| - positions[e] - 1
  {
    ActiveFacts(tasks, queues, positions, e);
    hide QueuesOf, Tail;
    TailSize(queues[e], positions[e] + 1);
  }

  lemma CutGrows(tasks: seq<Task>, queues: seq<seq<nat>>, alpha: real, done: seq<nat>, positions: seq<nat>,
                 results: map<nat, Probability>, cut: set<nat>, e: nat)
    requires QueuesOf(tasks, queues) && Progress(tasks, queues, alpha, done, positions, results, cut)
    requires IsActive(queues, positions, e)
    ensures |cut + Tail(queues[e], positions[e] + 1)| == |cut| + |queues[e]| - positions[e] - 1
  {
    assert |positions| == |queues|;
    hide Progress, QueuesOf, Tail, EdgeProgress;
    CutApart(tasks, queues, alpha, done, positions, results, cut, e);
    CutSize(tasks, queues, positions, e);
  }

  /** The trailing tests of a queue, as a set, are as many as its remaining positions. */
  lemma {:induction false} TailSize(q: seq<nat>, from: nat)
    requires from <= |q| && forall j, k :: 0 <= j < k < |q| ==> q[j] != q[k]
    ensures |Tail(q, from)| == |q| - from
    decreases |q| - from
  {
    if from < |q| {
      TailSize(q, from + 1);
      assert Tail(q, from) == Tail(q, from + 1) + {q[from]};
    }
  }

  /** The edge of a pending head moves on to another position of its queue, or leaves the frontier. */
  lemma ReadyAdvance(tasks: seq<Task>, queues: seq<seq<nat>>, positions: seq<nat>,
                     ready: map<string, seq<nat>>, pending: set<nat>, e: nat, pos: nat)
    requires QueuesOf(tasks, queues) && |positions| == |queues|
    requires ReadyOk(tasks, queues, positions, ready, pending) && e in pending && e < |queues|
    ensures ReadyOk(tasks, queues, positions[e := pos], ready, if pos < |queues[e]| then pending else pending - {e})
  {
    var positions' := positions[e := pos];
    var pending' := if pos < |queues[e]| then pending else pending - {e};
    forall f: nat | f != e && IsActive(queues, positions, f)
      ensures IsActive(queues, positions', f)
      ensures HeadKey(tasks, queues, positions', f) == HeadKey(tasks, queues, positions, f)
    {
      ActiveFacts(tasks, queues, positions, f);
    }
    forall k | k in ready
      ensures BucketOk(tasks, queues, positions', pending', k, ready[k])
    {
      assert BucketOk(tasks, queues, positions, pending, k, ready[k]);
    }
    forall f: nat | IsActive(queues, positions', f) && f !in pending'
      ensures Waits(tasks, queues, positions', ready, f)
    {
      assert f != e && Waits(tasks, queues, positions, ready, f);
    }
  }

  function Pushed(ready: map<string, seq<nat>>, k: string, e: nat): map<string, seq<nat>> {
    ready[k := (if k in ready then ready[k] else []) + [e]]
  }

  lemma ReadyPush(tasks: seq<Task>, queues: seq<seq<nat>>, positions: seq<nat>,
                  ready: map<string, seq<nat>>, pending: set<nat>, e: nat)
    requires QueuesOf(tasks, queues) && |positions| == |queues|
    requires ReadyOk(tasks, queues, positions, ready, pending) && e in pending && IsActive(queues, positions, e)
    requires queues[e][positions[e]] < |tasks|
    ensures ReadyOk(tasks, queues, positions,
                    Pushed(ready, HeadKey(tasks, queues, positions, e), e), pending - {e})
  {
    hide QueuesOf, HeadKey;
    var key := HeadKey(tasks, queues, positions, e);
    var was := if key in ready then ready[key] else [];
    var ready' := Pushed(ready, key, e);
    assert ready'[key][|was|] == e;
    forall k | k in ready'
      ensures BucketOk(tasks, queues, positions, pending - {e}, k, ready'[k])
    {
      if k in ready {
        assert BucketOk(tasks, queues, positions, pending, k, ready[k]);
      }
    }
    forall f: nat | IsActive(queues, positions, f) && f !in pending - {e}
      ensures Waits(tasks, queues, positions, ready', f)
    {
      if f != e {
        assert Waits(tasks, queues, positions, ready, f);
      }
    }
  }

  lemma ReadyTake(tasks: seq<Task>, queues: seq<seq<nat>>, positions: seq<nat>,
                  ready: map<string, seq<nat>>, pending: set<nat>, k: string)
    requires QueuesOf(tasks, queues) && |positions| == |queues|
    requires ReadyOk(tasks, queues, positions, ready, pending) && k in ready
    ensures ReadyOk(tasks, queues, positions, ready - {k}, pending + set e | e in ready[k])
    ensures BucketOk(tasks, queues, positions, pending, k, ready[k])
  {
    hide QueuesOf, HeadKey;
    var taken := set e | e in ready[k];
    forall j | j in ready - {k}
      ensures BucketOk(tasks, queues, positions, pending + taken, j, ready[j])
    {
      assert BucketOk(tasks, queues, positions, pending, j, ready[j]);
    }
    forall f: nat | IsActive(queues, positions, f) && f !in pending + taken
      ensures Waits(tasks, queues, positions, ready - {k}, f)
    {
      assert Waits(tasks, queues, positions, ready, f);
    }
  }

  /** What the bookkeeping says about an active edge. */
  lemma ActiveFacts(tasks: seq<Task>, queues: seq<seq<nat>>, positions: seq<nat>, e: nat)
    requires QueuesOf(tasks, queues) && |positions| == |queues| && IsActive(queues, positions, e)
    ensures queues[e][positions[e]] < |tasks| && tasks[queues[e][positions[e]]].edgeKey == e
    ensures forall j, k :: 0 <= j < k < |queues[e]| ==> queues[e][j] < queues[e][k]
  {
  }

  /** A frontier with an active edge and an empty wave has a bucket to run. */
  lemma NeverStalls(tasks: seq<Task>, queues: seq<seq<nat>>, positions: seq<nat>, ready: map<string, seq<nat>>)
    requires QueuesOf(tasks, queues) && |positions| == |queues|
    requires ReadyOk(tasks, queues, positions, ready, {})
    ensures ActiveEdges(queues, positions) == {} <==> ready == map[]
  {
    if ActiveEdges(queues, positions) != {} {
      var e :| e in ActiveEdges(queues, positions);
      assert IsActive(queues, positions, e) && Waits(tasks, queues, positions, ready, e);
    }
    if ready != map[] {
      var k :| k in ready;
      assert BucketOk(tasks, queues, positions, {}, k, ready[k]);
      assert ready[k][0] in ActiveEdges(queues, positions);
    }
  }

  /** No test is both run and cut off; when no edge is active, every planned test is one of the two. */
  lemma AllAccounted(tasks: seq<Task>, queues: seq<seq<nat>>, alpha: real, done: seq<nat>, positions: seq<nat>,
                     results: map<nat, Probability>, cut: set<nat>)
    requires QueuesOf(tasks, queues) && Progress(tasks, queues, alpha, done, positions, results, cut)
    ensures results.Keys !! cut && |results| + |cut| <= |tasks|
    ensures ActiveEdges(queues, positions) == {} ==> |results| + |cut| == |tasks|
  {
    hide QueuesOf, Progress, ActiveEdges, Tail;
    var identity: seq<nat> := seq(|tasks|, i => i);
    var all := Tail(identity, 0);
    TailSize(identity, 0);
    Covered(tasks, queues, alpha, done, positions, results, cut, all);
    SubsetSize(results.Keys + cut, all);
  }

  lemma Covered(tasks: seq<Task>, queues: seq<seq<nat>>, alpha: real, done: seq<nat>, positions: seq<nat>,
                results: map<nat, Probability>, cut: set<nat>, all: set<nat>)
    requires QueuesOf(tasks, queues) && Progress(tasks, queues, alpha, done, positions, results, cut)
    requires all == Tail(seq(|tasks|, i => i), 0)
    ensures results.Keys !! cut && results.Keys + cut <= all
    ensures ActiveEdges(queues, positions) == {} ==> results.Keys + cut == all
  {
    BoundedKeys(tasks, queues, alpha, done, positions, results, cut);
    hide QueuesOf, Progress, ActiveEdges;
    var identity: seq<nat> := seq(|tasks|, i => i);
    forall i: nat | i < |tasks|
      ensures i in all && !(i in results && i in cut)
      ensures ActiveEdges(queues, positions) == {} ==> i in results || i in cut
    {
      assert identity[i] == i;
      OneAccounted(tasks, queues, alpha, done, positions, results, cut, i);
    }
  }

  lemma BoundedKeys(tasks: seq<Task>, queues: seq<seq<nat>>, alpha: real, done: seq<nat>, positions: seq<nat>,
                    results: map<nat, Probability>, cut: set<nat>)
    requires Progress(tasks, queues, alpha, done, positions, results, cut)
    ensures |positions| == |queues|
    ensures (forall i :: i in results ==> i < |tasks|) && (forall i :: i in cut ==> i < |tasks|)
  {
  }

  lemma OneAccounted(tasks: seq<Task>, queues: seq<seq<nat>>, alpha: real, done: seq<nat>, positions: seq<nat>,
                     results: map<nat, Probability>, cut: set<nat>, i: nat)
    requires QueuesOf(tasks, queues) && Progress(tasks, queues, alpha, done, positions, results, cut) && i < |tasks|
    ensures !(i in results && i in cut)
    ensures ActiveEdges(queues, positions) == {} ==> i in results || i in cut
  {
    var e := tasks[i].edgeKey;
    var j :| 0 <= j < |queues[e]| && queues[e][j] == i;
    assert EdgeProgress(queues[e], done[e], positions[e], results, cut, alpha);
    assert ActiveEdges(queues, positions) == {} ==> e !in ActiveEdges(queues, positions);
  }

  lemma DeletesStep(tasks: seq<Task>, results: map<nat, Probability>, alpha: real, deletes: Grid<bool>, p: nat, i: nat, pv: Probability)
    requires Square(deletes, p) && DeletesOk(tasks, results, alpha, deletes, p)
    requires i < |tasks| && i !in results && InRange(tasks[i], p)
    ensures alpha <= pv ==> Square(PutBoth(deletes, tasks[i].edgeX, tasks[i].edgeY, true), p)
    ensures alpha <= pv ==>
      DeletesOk(tasks, results[i := pv], alpha, PutBoth(deletes, tasks[i].edgeX, tasks[i].edgeY, true), p)
    ensures pv < alpha ==> DeletesOk(tasks, results[i := pv], alpha, deletes, p)
  {
    var results' := results[i := pv];
    forall x, y | 0 <= x < p && 0 <= y < p
      ensures DeletedBy(tasks, results', alpha, x, y) <==>
        DeletedBy(tasks, results, alpha, x, y) || (OnEdge(tasks[i], x, y) && alpha <= pv)
    {
      if DeletedBy(tasks, results, alpha, x, y) {
        var j :| j in results && j < |tasks| && OnEdge(tasks[j], x, y) && alpha <= results[j];
        assert results'[j] == results[j];
      }
      if OnEdge(tasks[i], x, y) && alpha <= pv {
        assert results'[i] == pv;
      }
    }
  }

  lemma OpensStep(tasks: seq<Task>, results: map<nat, Probability>, i: nat, pv: Probability)
    requires i < |tasks|
    ensures OpensNext(tasks, results[i := pv]) <==> OpensNext(tasks, results) || tasks[i].opensNext
  {
    var results' := results[i := pv];
    if OpensNext(tasks, results) {
      var j :| j in results && j < |tasks| && tasks[j].opensNext;
      assert j in results';
    }
    assert i in results';
  }

  lemma ActiveStep(queues: seq<seq<nat>>, positions: seq<nat>, e: nat, pos: nat)
    requires |queues| == |positions| && IsActive(queues, positions, e)
    ensures |ActiveEdges(queues, positions[e := pos])| ==
      |ActiveEdges(queues, positions)| - if pos < |queues[e]| then 0 else 1
  {
    var was, now := ActiveEdges(queues, positions), ActiveEdges(queues, positions[e := pos]);
    if pos < |queues[e]| {
      assert now == was;
    } else {
      assert now == was - {e};
    }
  }

  // --------------------------------------------------------------- construction

  /** `edge_tasks`: each task index joins the queue of its edge. */
  method BuildQueues(tasks: seq<Task>, edgeCount: nat) returns (queues: seq<seq<nat>>)
    requires forall i :: 0 <= i < |tasks| ==> tasks[i].edgeKey < edgeCount
    ensures |queues| == edgeCount && QueuesOf(tasks, queues)
  {
    queues := seq(edgeCount, e => []);
    for i := 0 to |tasks|
      invariant |queues| == edgeCount && QueuesOf(tasks[..i], queues)
    {
      QueuesPush(tasks, queues, i);
      queues := queues[tasks[i].edgeKey := queues[tasks[i].edgeKey] + [i]];
    }
    assert tasks[..|tasks|] == tasks;
  }

  lemma QueuesPush(tasks: seq<Task>, queues: seq<seq<nat>>, i: nat)
    requires i < |tasks| && tasks[i].edgeKey < |queues| && QueuesOf(tasks[..i], queues)
    ensures QueuesOf(tasks[..i + 1], queues[tasks[i].edgeKey := queues[tasks[i].edgeKey] + [i]])
  {
    var e := tasks[i].edgeKey;
    var queues' := queues[e := queues[e] + [i]];
    forall k | 0 <= k < i + 1
      ensures k in queues'[tasks[k].edgeKey]
    {
      if k == i {
        assert queues'[e][|queues[e]|] == i;
      } else {
        assert tasks[..i][k] == tasks[k];
        assert k in queues[tasks[k].edgeKey];
      }
    }
    forall f, j | 0 <= f < |queues| && 0 <= j < |queues[f]|
      ensures queues[f][j] < i && tasks[queues[f][j]].edgeKey == f
    {
      assert tasks[..i][queues[f][j]] == tasks[queues[f][j]];
    }
  }

  method BuildReady(tasks: seq<Task>, queues: seq<seq<nat>>) returns (ready: map<string, seq<nat>>, active: nat)
    requires QueuesOf(tasks, queues)
    ensures var positions := seq(|queues|, e => 0);
      ReadyOk(tasks, queues, positions, ready, {}) && active == |ActiveEdges(queues, positions)|
  {
    ready, active := map[], 0;
    ghost var positions := seq(|queues|, e => 0);
    ghost var waiting := ActiveEdges(queues, positions);
    for e := 0 to |queues|
      invariant ReadyOk(tasks, queues, positions, ready, waiting)
      invariant forall f: nat :: f in waiting <==> e <= f < |queues| && queues[f] != []
      invariant active + |waiting| == |ActiveEdges(queues, positions)|
    {
      if queues[e] != [] {
        var key := ConditioningKey(tasks[queues[e][0]].conditioning);
        ReadyPush(tasks, queues, positions, ready, waiting, e);
        ready := Pushed(ready, key, e);
        waiting := waiting - {e};
        active := active + 1;
      }
    }
    assert waiting == {};
  }

  // ------------------------------------------------------------------ the scheduler

  /** What stays fixed while a level runs. */
  datatype Level = Level(tasks: seq<Task>, queues: seq<seq<nat>>, alpha: real, p: nat)

  /** The scheduler's variables; `results` is `consumed` together with `task_p_values`. */
  datatype Books = Books(
    positions: seq<nat>, ready: map<string, seq<nat>>, results: map<nat, Probability>, deletes: Grid<bool>,
    remaining: int, ignored: int, active: int, pcalgDone: bool)

  /** How far each queue has run, what was cut off, and which edges wait in the current wave. */
  datatype Trace = Trace(done: seq<nat>, cut: set<nat>, pending: set<nat>)

  ghost predicate AllTasksInRange(tasks: seq<Task>, p: nat) {
    forall i :: 0 <= i < |tasks| ==> InRange(tasks[i], p)
  }

  ghost predicate BooksOk(l: Level, b: Books, g: Trace) {
    && |b.positions| == |l.queues| == |g.done|
    && QueuesOf(l.tasks, l.queues)
    && AllTasksInRange(l.tasks, l.p)
    && Progress(l.tasks, l.queues, l.alpha, g.done, b.positions, b.results, g.cut)
    && ReadyOk(l.tasks, l.queues, b.positions, b.ready, g.pending)
    && Square(b.deletes, l.p) && DeletesOk(l.tasks, b.results, l.alpha, b.deletes, l.p)
    && b.remaining == |l.tasks| - |b.results| - |g.cut|
    && b.ignored == |g.cut|
    && b.active == |ActiveEdges(l.queues, b.positions)|
    && (b.pcalgDone <==> !OpensNext(l.tasks, b.results))
  }

  lemma BooksParts(l: Level, b: Books, g: Trace)
    requires BooksOk(l, b, g)
    ensures |b.positions| == |l.queues| == |g.done| && QueuesOf(l.tasks, l.queues) && AllTasksInRange(l.tasks, l.p)
    ensures Progress(l.tasks, l.queues, l.alpha, g.done, b.positions, b.results, g.cut)
    ensures ReadyOk(l.tasks, l.queues, b.positions, b.ready, g.pending)
    ensures Square(b.deletes, l.p) && |b.deletes| == l.p && DeletesOk(l.tasks, b.results, l.alpha, b.deletes, l.p)
    ensures b.remaining == |l.tasks| - |b.results| - |g.cut| && b.ignored == |g.cut|
    ensures b.active == |ActiveEdges(l.queues, b.positions)|
    ensures b.pcalgDone <==> !OpensNext(l.tasks, b.results)
  {
  }

  ghost predicate IsHead(l: Level, b: Books, i: nat) {
    && i < |l.tasks|
    && var e := l.tasks[i].edgeKey;
    && e < |l.queues| == |b.positions|
    && b.positions[e] < |l.queues[e]|
    && l.queues[e][b.positions[e]] == i
  }

  lemma HeadInRange(tasks: seq<Task>, p: nat, i: nat)
    requires AllTasksInRange(tasks, p) && i < |tasks|
    ensures InRange(tasks[i], p) && tasks[i].edgeX < tasks[i].edgeY < p
  {
  }

  /** The variables after a test that deletes its edge: the rest of the queue is ignored. */
  function Deleted(l: Level, b: Books, i: nat, pv: Probability): Books
    requires IsHead(l, b, i) && Square(b.deletes, |b.deletes|) && InRange(l.tasks[i], |b.deletes|)
  {
    var t, e := l.tasks[i], l.tasks[i].edgeKey;
    var trailing := |l.queues[e]| - b.positions[e] - 1;
    Books(b.positions[e := |l.queues[e]|], b.ready, b.results[i := pv], PutBoth(b.deletes, t.edgeX, t.edgeY, true),
          b.remaining - 1 - trailing, b.ignored + trailing, b.active - 1, b.pcalgDone && !t.opensNext)
  }

  ghost function DeletedTrace(l: Level, b: Books, g: Trace, i: nat): Trace
    requires IsHead(l, b, i) && |g.done| == |b.positions|
  {
    var e := l.tasks[i].edgeKey;
    Trace(g.done[e := g.done[e] + 1], g.cut + Tail(l.queues[e], b.positions[e] + 1), g.pending - {e})
  }

  lemma DeletedProgress(l: Level, b: Books, g: Trace, i: nat, pv: Probability)
    requires |b.positions| == |l.queues| == |g.done| && QueuesOf(l.tasks, l.queues)
    requires Progress(l.tasks, l.queues, l.alpha, g.done, b.positions, b.results, g.cut)
    requires IsHead(l, b, i) && l.alpha <= pv
    requires Square(b.deletes, |b.deletes|) && InRange(l.tasks[i], |b.deletes|)
    ensures var b', g' := Deleted(l, b, i, pv), DeletedTrace(l, b, g, i);
      Progress(l.tasks, l.queues, l.alpha, g'.done, b'.positions, b'.results, g'.cut)
    ensures i !in b.results
  {
    hide QueuesOf, Progress, Tail, Square, PutBoth;
    ProgressStep(l.tasks, l.queues, l.alpha, g.done, b.positions, b.results, g.cut, l.tasks[i].edgeKey, pv);
  }

  lemma DeletedSizes(l: Level, b: Books, g: Trace, i: nat, pv: Probability)
    requires |b.positions| == |l.queues| == |g.done| && QueuesOf(l.tasks, l.queues)
    requires Progress(l.tasks, l.queues, l.alpha, g.done, b.positions, b.results, g.cut)
    requires IsHead(l, b, i) && l.alpha <= pv
    requires Square(b.deletes, |b.deletes|) && InRange(l.tasks[i], |b.deletes|)
    ensures |DeletedTrace(l, b, g, i).cut| == |g.cut| + Deleted(l, b, i, pv).ignored - b.ignored
  {
    hide QueuesOf, Progress, Tail, Square, PutBoth;
    var e := l.tasks[i].edgeKey;
    CutGrows(l.tasks, l.queues, l.alpha, g.done, b.positions, b.results, g.cut, e);
  }

  lemma CompleteDeleting(l: Level, b: Books, g: Trace, i: nat, pv: Probability)
    requires BooksOk(l, b, g) && IsHead(l, b, i) && l.tasks[i].edgeKey in g.pending && l.alpha <= pv
    ensures |g.done| == |b.positions| && Square(b.deletes, |b.deletes|) && InRange(l.tasks[i], |b.deletes|)
    ensures BooksOk(l, Deleted(l, b, i, pv), DeletedTrace(l, b, g, i))
  {
    hide QueuesOf, Progress, ReadyOk, DeletesOk, OpensNext, ActiveEdges, Tail, AllTasksInRange, InRange, Square, PutBoth;
    BooksParts(l, b, g);
    HeadInRange(l.tasks, l.p, i);
    var e := l.tasks[i].edgeKey;
    DeletedProgress(l, b, g, i, pv);
    DeletedSizes(l, b, g, i, pv);
    ActiveFacts(l.tasks, l.queues, b.positions, e);
    DeletesStep(l.tasks, b.results, l.alpha, b.deletes, l.p, i, pv);
    OpensStep(l.tasks, b.results, i, pv);
    ActiveStep(l.queues, b.positions, e, |l.queues[e]|);
    ReadyAdvance(l.tasks, l.queues, b.positions, b.ready, g.pending, e, |l.queues[e]|);
  }

  /** Completing a test that keeps its edge: the next head of the queue, if any, becomes ready. */
  lemma CompleteKeeping(l: Level, b: Books, g: Trace, i: nat, pv: Probability)
    requires BooksOk(l, b, g) && IsHead(l, b, i) && l.tasks[i].edgeKey in g.pending && pv < l.alpha
    ensures var e := l.tasks[i].edgeKey;
      var positions := b.positions[e := b.positions[e] + 1];
      var last := positions[e] == |l.queues[e]|;
      && (!last ==> l.queues[e][positions[e]] < |l.tasks|)
      && |g.done| == |b.positions|
      && BooksOk(l,
        Books(positions, if last then b.ready else Pushed(b.ready, HeadKey(l.tasks, l.queues, positions, e), e),
          b.results[i := pv], b.deletes, b.remaining - 1, b.ignored,
          if last then b.active - 1 else b.active, b.pcalgDone && !l.tasks[i].opensNext),
        Trace(g.done[e := g.done[e] + 1], g.cut, g.pending - {e}))
  {
    hide QueuesOf, Progress, ReadyOk, DeletesOk, OpensNext, ActiveEdges, Tail, Pushed, HeadKey, AllTasksInRange, InRange;
    HeadInRange(l.tasks, l.p, i);
    var e := l.tasks[i].edgeKey;
    ActiveFacts(l.tasks, l.queues, b.positions, e);
    ProgressStep(l.tasks, l.queues, l.alpha, g.done, b.positions, b.results, g.cut, e, pv);
    var next := b.positions[e] + 1;
    DeletesStep(l.tasks, b.results, l.alpha, b.deletes, l.p, i, pv);
    OpensStep(l.tasks, b.results, i, pv);
    ActiveStep(l.queues, b.positions, e, next);
    ReadyAdvance(l.tasks, l.queues, b.positions, b.ready, g.pending, e, next);
    if next < |l.queues[e]| {
      ActiveFacts(l.tasks, l.queues, b.positions[e := next], e);
      ReadyPush(l.tasks, l.queues, b.positions[e := next], b.ready, g.pending, e);
    }
  }

  /** The variables at the start of a level, with every edge's first test in its bucket. */
  method Open(tasks: seq<Task>, edgeCount: nat, alpha: real, p: nat) returns (l: Level, b: Books, ghost g: Trace)
    requires forall i :: 0 <= i < |tasks| ==> InRange(tasks[i], p) && tasks[i].edgeKey < edgeCount
    ensures BooksOk(l, b, g) && b.results == map[] && g.pending == {}
    ensures l.tasks == tasks && l.alpha == alpha && l.p == p
  {
    var queues := BuildQueues(tasks, edgeCount);
    var ready, active := BuildReady(tasks, queues);
    l := Level(tasks, queues, alpha, p);
    b := Books(seq(edgeCount, e => 0), ready, map[], Fill(p, false), |tasks|, 0, active, true);
    g := Trace(seq(edgeCount, e => 0), {}, {});
  }

  /** Moves a whole bucket from the frontier into the current wave. */
  method TakeBucket(l: Level, b: Books, ghost g: Trace, key: string)
    returns (b': Books, edges: seq<nat>, ghost g': Trace)
    requires BooksOk(l, b, g) && key in b.ready
    ensures edges == b.ready[key] && edges != []
    ensures b' == b.(ready := b.ready - {key})
    ensures g' == g.(pending := g.pending + set e | e in edges) && BooksOk(l, b', g')
    ensures BucketOk(l.tasks, l.queues, b.positions, g.pending, key, edges)
  {
    hide Progress, ReadyOk, DeletesOk, OpensNext, ActiveEdges;
    ReadyTake(l.tasks, l.queues, b.positions, b.ready, g.pending, key);
    edges := b.ready[key];
    b' := b.(ready := b.ready - {key});
    g' := g.(pending := g.pending + set e | e in edges);
  }

  /** Replays the p-value of the head of a pending edge into the bookkeeping. */
  method Complete(l: Level, b: Books, ghost g: Trace, i: nat, pv: Probability)
    returns (b': Books, ghost g': Trace)
    requires BooksOk(l, b, g) && IsHead(l, b, i) && l.tasks[i].edgeKey in g.pending
    ensures BooksOk(l, b', g')
    ensures b'.results == b.results[i := pv] && g'.pending == g.pending - {l.tasks[i].edgeKey}
    ensures b'.remaining < b.remaining
    ensures |b'.positions| == |b.positions|
    ensures forall e :: 0 <= e < |b.positions| && e != l.tasks[i].edgeKey ==> b'.positions[e] == b.positions[e]
  {
    hide BooksOk, Pushed, Tail, PutBoth;
    var task := l.tasks[i];
    var e := task.edgeKey;
    b' := b.(results := b.results[i := pv], pcalgDone := b.pcalgDone && !task.opensNext, remaining := b.remaining - 1);
    var deleted := l.alpha <= pv;
    if deleted {
      CompleteDeleting(l, b, g, i, pv);
      b' := b'.(deletes := PutBoth(b.deletes, task.edgeX, task.edgeY, true));
    } else {
      CompleteKeeping(l, b, g, i, pv);
    }
    g' := Trace(g.done[e := g.done[e] + 1], g.cut, g.pending - {e});
    b' := b'.(positions := b.positions[e := b.positions[e] + 1]);
    if deleted {
      var trailing := |l.queues[e]| - b'.positions[e];
      g' := g'.(cut := g.cut + Tail(l.queues[e], b'.positions[e]));
      b' := b'.(ignored := b.ignored + trailing, remaining := b'.remaining - trailing);
      b' := b'.(positions := b.positions[e := |l.queues[e]|], active := b.active - 1);
      assert b' == Deleted(l, b, i, pv);
    } else if b'.positions[e] == |l.queues[e]| {
      b' := b'.(active := b.active - 1);
    } else {
      var next := l.tasks[l.queues[e][b'.positions[e]]];
      b' := b'.(ready := Pushed(b.ready, ConditioningKey(next.conditioning), e));
    }
  }

  /** The loop stops exactly when no bucket is left, and then every planned test is accounted for. */
  lemma CloseFrontier(l: Level, b: Books, g: Trace)
    requires BooksOk(l, b, g) && g.pending == {}
    ensures b.active > 0 <==> b.ready != map[]
    ensures b.remaining >= 0
    ensures b.active <= 0 ==> b.remaining == 0 && |b.results| + b.ignored == |l.tasks|
  {
    NeverStalls(l.tasks, l.queues, b.positions, b.ready);
    AllAccounted(l.tasks, l.queues, l.alpha, g.done, b.positions, b.results, g.cut);
  }
}
