/** The permutation methods: one test at a time, always the pcalg-least ready head, because each
    test draws from the generator the previous one left. */
module PermutationRun {
  import opened Grids
  import opened LayerPlan
  import opened Skeleton
  import opened Decimal
  import opened Frontier
  import opened PcalgOrder

  function HeadOf(l: Level, b: Books, e: nat): nat
    requires |b.positions| == |l.queues| && IsActive(l.queues, b.positions, e)
  {
    l.queues[e][b.positions[e]]
  }

  lemma BucketHead(l: Level, b: Books, g: Trace, k: string, a: nat)
    requires BooksOk(l, b, g) && k in b.ready && a < |b.ready[k]|
    ensures |b.positions| == |l.queues| && IsActive(l.queues, b.positions, b.ready[k][a])
    ensures IsHead(l, b, HeadOf(l, b, b.ready[k][a]))
    ensures l.tasks[HeadOf(l, b, b.ready[k][a])].edgeKey == b.ready[k][a]
  {
    assert BucketOk(l.tasks, l.queues, b.positions, g.pending, k, b.ready[k]);
    ActiveFacts(l.tasks, l.queues, b.positions, b.ready[k][a]);
  }

  /** The head of the edge at position a of bucket k is not less than test i. */
  ghost predicate NotLess(l: Level, b: Books, k: string, a: nat, i: nat)
    requires k in b.ready && a < |b.ready[k]| && i < |l.tasks|
  {
    && |b.positions| == |l.queues| && IsActive(l.queues, b.positions, b.ready[k][a])
    && HeadOf(l, b, b.ready[k][a]) < |l.tasks|
    && !PcalgLess(l.tasks[HeadOf(l, b, b.ready[k][a])], l.tasks[i])
  }

  lemma NotLessDown(l: Level, b: Books, k: string, a: nat, i: nat, j: nat)
    requires k in b.ready && a < |b.ready[k]| && i < |l.tasks| && j < |l.tasks|
    requires NotLess(l, b, k, a, i) && PcalgLess(l.tasks[j], l.tasks[i])
    ensures NotLess(l, b, k, a, j)
  {
    var h := l.tasks[HeadOf(l, b, b.ready[k][a])];
    if PcalgLess(h, l.tasks[j]) {
      PcalgLessTransitive(h, l.tasks[j], l.tasks[i]);
    }
  }

  /** Scans one bucket, keeping the least head met so far. */
  method ScanBucket(l: Level, b: Books, ghost g: Trace, k: string, some: bool, key0: string, at0: nat, i0: nat)
    returns (key: string, at: nat, i: nat)
    requires BooksOk(l, b, g) && k in b.ready
    requires some ==> key0 in b.ready && at0 < |b.ready[key0]| && IsHead(l, b, i0) && l.tasks[i0].edgeKey == b.ready[key0][at0]
    ensures key in b.ready && at < |b.ready[key]| && IsHead(l, b, i) && l.tasks[i].edgeKey == b.ready[key][at]
    ensures forall a :: 0 <= a < |b.ready[k]| ==> NotLess(l, b, k, a, i)
    ensures some ==> i == i0 || PcalgLess(l.tasks[i], l.tasks[i0])
  {
    hide BooksOk, PcalgLess;
    BucketsFull(l, b, g, k);
    key, at, i := key0, at0, i0;
    var found := some;
    for a := 0 to |b.ready[k]|
      invariant a > 0 ==> found
      invariant found ==> key in b.ready && at < |b.ready[key]| && IsHead(l, b, i) && l.tasks[i].edgeKey == b.ready[key][at]
      invariant forall c :: 0 <= c < a ==> found && NotLess(l, b, k, c, i)
      invariant some ==> found && (i == i0 || PcalgLess(l.tasks[i], l.tasks[i0]))
    {
      BucketHead(l, b, g, k, a);
      var edge := b.ready[k][a];
      var j := l.queues[edge][b.positions[edge]];
      PcalgLessStrict(l.tasks[j], l.tasks[j]);
      if !found || PcalgLess(l.tasks[j], l.tasks[i]) {
        if found {
          forall c | 0 <= c < a
            ensures NotLess(l, b, k, c, j)
          {
            NotLessDown(l, b, k, c, i, j);
          }
          if some && i != i0 {
            PcalgLessTransitive(l.tasks[j], l.tasks[i], l.tasks[i0]);
          }
        }
        key, at, i, found := k, a, j, true;
      }
    }
  }

  lemma BucketsFull(l: Level, b: Books, g: Trace, k: string)
    requires BooksOk(l, b, g) && k in b.ready
    ensures b.ready[k] != []
  {
    assert BucketOk(l.tasks, l.queues, b.positions, g.pending, k, b.ready[k]);
  }

  /** Position `at` of bucket `key` holds the edge whose head is least among all ready heads. */
  method SelectLeast(l: Level, b: Books, ghost g: Trace) returns (key: string, at: nat, i: nat)
    requires BooksOk(l, b, g) && b.ready != map[]
    ensures key in b.ready && at < |b.ready[key]| && IsHead(l, b, i) && l.tasks[i].edgeKey == b.ready[key][at]
    ensures forall k, a :: k in b.ready && 0 <= a < |b.ready[k]| ==> NotLess(l, b, k, a, i)
  {
    hide BooksOk, PcalgLess;
    var keys := b.ready.Keys;
    key, at, i := "", 0, 0;
    var found := false;
    while keys != {}
      invariant keys <= b.ready.Keys
      invariant keys != b.ready.Keys ==> found
      invariant found ==> key in b.ready && at < |b.ready[key]| && IsHead(l, b, i) && l.tasks[i].edgeKey == b.ready[key][at]
      invariant found ==> forall k, a :: k in b.ready && k !in keys && 0 <= a < |b.ready[k]| ==> NotLess(l, b, k, a, i)
      decreases keys
    {
      var candidate :| candidate in keys;
      ghost var before, had := i, found;
      key, at, i := ScanBucket(l, b, g, candidate, found, key, at, i);
      if had && i != before {
        forall k, a | k in b.ready && k !in keys && 0 <= a < |b.ready[k]|
          ensures NotLess(l, b, k, a, i)
        {
          NotLessDown(l, b, k, a, before, i);
        }
      }
      found := true;
      keys := keys - {candidate};
    }
  }

  function Removed(s: seq<nat>, at: nat): (r: seq<nat>)
    requires at < |s|
  {
    s[..at] + s[at + 1..]
  }

  function WithoutHead(ready: map<string, seq<nat>>, key: string, at: nat): map<string, seq<nat>>
    requires key in ready && at < |ready[key]|
  {
    if |ready[key]| == 1 then ready - {key} else ready[key := Removed(ready[key], at)]
  }

  lemma ReadyTakeOne(tasks: seq<Task>, queues: seq<seq<nat>>, positions: seq<nat>,
                     ready: map<string, seq<nat>>, pending: set<nat>, key: string, at: nat)
    requires QueuesOf(tasks, queues) && |positions| == |queues|
    requires ReadyOk(tasks, queues, positions, ready, pending) && key in ready && at < |ready[key]|
    ensures ReadyOk(tasks, queues, positions, WithoutHead(ready, key, at), pending + {ready[key][at]})
  {
    hide QueuesOf, HeadKey;
    var ready', e := WithoutHead(ready, key, at), ready[key][at];
    assert BucketOk(tasks, queues, positions, pending, key, ready[key]);
    var rest := Removed(ready[key], at);
    assert forall c :: 0 <= c < |ready[key]| && c != at ==> ready[key][c] == rest[if c < at then c else c - 1];
    forall k | k in ready'
      ensures BucketOk(tasks, queues, positions, pending + {e}, k, ready'[k])
    {
      assert BucketOk(tasks, queues, positions, pending, k, ready[k]);
      if k != key {
        OtherBucket(tasks, queues, positions, ready, pending, key, k, e);
      }
    }
    forall f: nat | IsActive(queues, positions, f) && f !in pending + {e}
      ensures Waits(tasks, queues, positions, ready', f)
    {
      assert Waits(tasks, queues, positions, ready, f);
    }
  }

  /** An edge waits in one bucket only. */
  lemma OtherBucket(tasks: seq<Task>, queues: seq<seq<nat>>, positions: seq<nat>,
                    ready: map<string, seq<nat>>, pending: set<nat>, key: string, k: string, e: nat)
    requires QueuesOf(tasks, queues) && |positions| == |queues|
    requires ReadyOk(tasks, queues, positions, ready, pending) && key in ready && k in ready
    requires e in ready[key] && k != key
    ensures e !in ready[k]
  {
    assert BucketOk(tasks, queues, positions, pending, key, ready[key]);
    assert BucketOk(tasks, queues, positions, pending, k, ready[k]);
  }

  /** Erases one edge from its bucket, and the bucket once empty. */
  method TakeHead(l: Level, b: Books, ghost g: Trace, key: string, at: nat) returns (b': Books, ghost g': Trace)
    requires BooksOk(l, b, g) && key in b.ready && at < |b.ready[key]|
    ensures b' == b.(ready := WithoutHead(b.ready, key, at)) && g' == g.(pending := g.pending + {b.ready[key][at]})
    ensures BooksOk(l, b', g')
  {
    hide QueuesOf, Progress, ReadyOk, DeletesOk, OpensNext, ActiveEdges;
    ReadyTakeOne(l.tasks, l.queues, b.positions, b.ready, g.pending, key, at);
    var rest := Removed(b.ready[key], at);
    b' := b.(ready := if rest == [] then b.ready - {key} else b.ready[key := rest]);
    g' := g.(pending := g.pending + {b.ready[key][at]});
  }

  // --------------------------------------------- execution order is the pcalg order

  ghost predicate Executed(tasks: seq<Task>, results: map<nat, Probability>, t: Task) {
    exists i :: i in results && i < |tasks| && tasks[i] == t
  }

  ghost predicate GoneEdge(tasks: seq<Task>, results: map<nat, Probability>, alpha: real, e: nat) {
    exists i :: i in results && i < |tasks| && tasks[i].edgeKey == e && alpha <= results[i]
  }

  ghost predicate RecordsOf(tasks: seq<Task>, results: map<nat, Probability>, log: seq<Record>) {
    && (forall r :: r in log ==> exists i :: i in results && i < |tasks| && r == Record(tasks[i], results[i]))
    && (forall i :: i in results && i < |tasks| ==> Record(tasks[i], results[i]) in log)
  }

  /** Up to position k of the pcalg order every test has run or lost its edge, and nothing beyond has run. */
  ghost predicate InStep(tasks: seq<Task>, results: map<nat, Probability>, alpha: real, order: seq<Task>, k: nat, gone: set<nat>) {
    && k <= |order|
    && (forall m :: 0 <= m < k ==> order[m].edgeKey in gone || Executed(tasks, results, order[m]))
    && (forall m :: k <= m < |order| ==> !Executed(tasks, results, order[m]))
    && (forall e :: e in gone <==> GoneEdge(tasks, results, alpha, e))
  }

  /** What the plan promises the scheduler: distinct tests, ascending on each edge. */
  ghost predicate PlanContract(tasks: seq<Task>) {
    && (forall i, j :: 0 <= i < j < |tasks| ==> tasks[i] != tasks[j])
    && (forall i, j :: 0 <= i < j < |tasks| && tasks[i].edgeKey == tasks[j].edgeKey ==> PcalgLess(tasks[i], tasks[j]))
  }

  ghost predicate SameMembers(tasks: seq<Task>, order: seq<Task>) {
    && (forall t :: t in order ==> t in tasks)
    && (forall i :: 0 <= i < |tasks| ==> tasks[i] in order)
  }

  lemma {:induction false} SkipGone<R>(order: seq<Task>, k: nat, j: nat, gone: set<nat>, rng: R, log: seq<Record>,
                                       oracle: DrawingOracle<R>, alpha: real)
    requires k <= j <= |order| && forall m :: k <= m < j ==> order[m].edgeKey in gone
    ensures Perform(order, k, gone, rng, log, oracle, alpha) == Perform(order, j, gone, rng, log, oracle, alpha)
    decreases j - k
  {
    if k < j {
      SkipGone(order, k + 1, j, gone, rng, log, oracle, alpha);
    }
  }

  /** An edge whose queue has a test left to run is not gone; that test has not run and any other
      unrun test of the edge is no earlier. */
  lemma ActiveEdgeFacts(l: Level, b: Books, g: Trace, i: nat, t: nat)
    requires BooksOk(l, b, g) && IsHead(l, b, i) && t < |l.tasks| && l.tasks[t].edgeKey == l.tasks[i].edgeKey
    ensures i !in b.results
    ensures t in b.results ==> b.results[t] < l.alpha
    ensures t !in b.results ==> i <= t
  {
    var e := l.tasks[i].edgeKey;
    var q := l.queues[e];
    assert EdgeProgress(q, g.done[e], b.positions[e], b.results, g.cut, l.alpha);
    assert t in q;
    var at :| 0 <= at < |q| && q[at] == t;
  }

  /** A test that has neither run nor lost its edge belongs to an active edge. */
  lemma UnrunIsActive(l: Level, b: Books, g: Trace, t: nat)
    requires BooksOk(l, b, g) && t < |l.tasks| && t !in b.results
    requires !GoneEdge(l.tasks, b.results, l.alpha, l.tasks[t].edgeKey)
    ensures l.tasks[t].edgeKey < |l.queues| && IsActive(l.queues, b.positions, l.tasks[t].edgeKey)
  {
    var e := l.tasks[t].edgeKey;
    var q := l.queues[e];
    assert EdgeProgress(q, g.done[e], b.positions[e], b.results, g.cut, l.alpha);
    assert t in q;
    var at :| 0 <= at < |q| && q[at] == t;
    assert forall c :: 0 <= c < |q| ==> l.tasks[q[c]].edgeKey == e;
  }

  /** The least ready head is the next test of the pcalg order whose edge is not gone. */
  lemma LeastIsNext(l: Level, b: Books, g: Trace, order: seq<Task>, k: nat, gone: set<nat>, i: nat) returns (j: nat)
    requires BooksOk(l, b, g) && g.pending == {} && IsHead(l, b, i)
    requires forall key, a :: key in b.ready && 0 <= a < |b.ready[key]| ==> NotLess(l, b, key, a, i)
    requires PlanContract(l.tasks) && SameMembers(l.tasks, order) && PcalgAscending(order)
    requires InStep(l.tasks, b.results, l.alpha, order, k, gone)
    ensures k <= j < |order| && order[j] == l.tasks[i] && order[j].edgeKey !in gone
    ensures forall m :: k <= m < j ==> order[m].edgeKey in gone
    ensures i !in b.results
  {
    assert l.tasks[i] in order;
    j :| 0 <= j < |order| && order[j] == l.tasks[i];
    HeadNotGone(l, b, g, i);
    HeadNotExecuted(l, b, g, i);
    forall m | k <= m < j
      ensures order[m].edgeKey in gone
    {
      if order[m].edgeKey !in gone {
        NotSkipped(l, b, g, order, k, gone, i, m);
      }
    }
  }

  lemma HeadNotGone(l: Level, b: Books, g: Trace, i: nat)
    requires BooksOk(l, b, g) && IsHead(l, b, i)
    ensures !GoneEdge(l.tasks, b.results, l.alpha, l.tasks[i].edgeKey)
  {
    if GoneEdge(l.tasks, b.results, l.alpha, l.tasks[i].edgeKey) {
      var t :| t in b.results && t < |l.tasks| && l.tasks[t].edgeKey == l.tasks[i].edgeKey && l.alpha <= b.results[t];
      ActiveEdgeFacts(l, b, g, i, t);
    }
  }

  lemma HeadNotExecuted(l: Level, b: Books, g: Trace, i: nat)
    requires BooksOk(l, b, g) && IsHead(l, b, i) && PlanContract(l.tasks)
    ensures i !in b.results && !Executed(l.tasks, b.results, l.tasks[i])
  {
    hide BooksOk;
    ActiveEdgeFacts(l, b, g, i, i);
  }

  /** A later test of the order whose edge is not gone does not precede the least ready head. */
  lemma NotSkipped(l: Level, b: Books, g: Trace, order: seq<Task>, k: nat, gone: set<nat>, i: nat, m: nat)
    requires BooksOk(l, b, g) && g.pending == {} && IsHead(l, b, i)
    requires forall key, a :: key in b.ready && 0 <= a < |b.ready[key]| ==> NotLess(l, b, key, a, i)
    requires PlanContract(l.tasks) && SameMembers(l.tasks, order)
    requires InStep(l.tasks, b.results, l.alpha, order, k, gone) && k <= m < |order| && order[m].edgeKey !in gone
    ensures !PcalgLess(order[m], l.tasks[i])
  {
    assert order[m] in l.tasks;
    var t :| 0 <= t < |l.tasks| && l.tasks[t] == order[m];
    assert t !in b.results;
    hide InStep, SameMembers, PcalgLess;
    UnrunIsActive(l, b, g, t);
    var e := order[m].edgeKey;
    var key, a := WaitingAt(l, b, g, e);
    var h := HeadOf(l, b, e);
    ActiveFacts(l.tasks, l.queues, b.positions, e);
    assert NotLess(l, b, key, a, i);
    ActiveEdgeFacts(l, b, g, h, t);
    if h != t && PcalgLess(order[m], l.tasks[i]) {
      PcalgLessTransitive(l.tasks[h], order[m], l.tasks[i]);
    }
  }

  lemma WaitingAt(l: Level, b: Books, g: Trace, e: nat) returns (key: string, a: nat)
    requires BooksOk(l, b, g) && g.pending == {} && IsActive(l.queues, b.positions, e)
    ensures key in b.ready && a < |b.ready[key]| && b.ready[key][a] == e
  {
    ActiveFacts(l.tasks, l.queues, b.positions, e);
    assert Waits(l.tasks, l.queues, b.positions, b.ready, e);
    key := HeadKey(l.tasks, l.queues, b.positions, e);
    a :| 0 <= a < |b.ready[key]| && b.ready[key][a] == e;
  }

  /** Running the next test of the order keeps step. */
  lemma StepAhead(tasks: seq<Task>, results: map<nat, Probability>, alpha: real, order: seq<Task>, k: nat, gone: set<nat>,
                  i: nat, j: nat, pv: Probability)
    requires InStep(tasks, results, alpha, order, k, gone) && PcalgAscending(order)
    requires k <= j < |order| && i < |tasks| && i !in results && order[j] == tasks[i]
    requires forall m :: k <= m < j ==> order[m].edgeKey in gone
    ensures InStep(tasks, results[i := pv], alpha, order, j + 1, if alpha <= pv then gone + {tasks[i].edgeKey} else gone)
  {
    var results' := results[i := pv];
    var gone' := if alpha <= pv then gone + {tasks[i].edgeKey} else gone;
    forall t
      ensures Executed(tasks, results', t) <==> Executed(tasks, results, t) || t == tasks[i]
    {
      ExecutedStep(tasks, results, i, pv, t);
    }
    forall e
      ensures e in gone' <==> GoneEdge(tasks, results', alpha, e)
    {
      GoneStep(tasks, results, alpha, i, pv, e);
    }
    forall m | j < m < |order|
      ensures order[m] != tasks[i]
    {
      PcalgLessStrict(order[j], order[m]);
    }
  }

  lemma ExecutedStep(tasks: seq<Task>, results: map<nat, Probability>, i: nat, pv: Probability, t: Task)
    requires i < |tasks| && i !in results
    ensures Executed(tasks, results[i := pv], t) <==> Executed(tasks, results, t) || t == tasks[i]
  {
    var results' := results[i := pv];
    if Executed(tasks, results, t) {
      var j :| j in results && j < |tasks| && tasks[j] == t;
      assert j in results';
    }
    assert i in results';
  }

  lemma GoneStep(tasks: seq<Task>, results: map<nat, Probability>, alpha: real, i: nat, pv: Probability, e: nat)
    requires i < |tasks| && i !in results
    ensures GoneEdge(tasks, results[i := pv], alpha, e) <==>
      GoneEdge(tasks, results, alpha, e) || (e == tasks[i].edgeKey && alpha <= pv)
  {
    var results' := results[i := pv];
    if GoneEdge(tasks, results, alpha, e) {
      var j :| j in results && j < |tasks| && tasks[j].edgeKey == e && alpha <= results[j];
      assert results'[j] == results[j];
    }
    assert results'[i] == pv;
  }

  lemma RecordsStep(tasks: seq<Task>, results: map<nat, Probability>, log: seq<Record>, i: nat, pv: Probability)
    requires RecordsOf(tasks, results, log) && i < |tasks| && i !in results
    ensures RecordsOf(tasks, results[i := pv], log + [Record(tasks[i], pv)])
  {
    var results', log' := results[i := pv], log + [Record(tasks[i], pv)];
    forall r | r in log'
      ensures exists j :: j in results' && j < |tasks| && r == Record(tasks[j], results'[j])
    {
      if r in log {
        var j :| j in results && j < |tasks| && r == Record(tasks[j], results[j]);
        assert results'[j] == results[j];
      } else {
        assert results'[i] == pv;
      }
    }
    assert log'[|log|] == Record(tasks[i], pv);
  }

  /** A closed frontier has nothing of the order left to run. */
  lemma NothingLeft(l: Level, b: Books, g: Trace, order: seq<Task>, k: nat, gone: set<nat>)
    requires BooksOk(l, b, g) && b.active <= 0 && SameMembers(l.tasks, order)
    requires InStep(l.tasks, b.results, l.alpha, order, k, gone)
    ensures forall m :: k <= m < |order| ==> order[m].edgeKey in gone
    ensures forall t :: 0 <= t < |l.tasks| ==>
      t in b.results || GoneEdge(l.tasks, b.results, l.alpha, l.tasks[t].edgeKey)
  {
    NoActive(l, b, g);
    forall t: nat | t < |l.tasks| && t !in b.results
      ensures GoneEdge(l.tasks, b.results, l.alpha, l.tasks[t].edgeKey)
    {
      if !GoneEdge(l.tasks, b.results, l.alpha, l.tasks[t].edgeKey) {
        UnrunIsActive(l, b, g, t);
      }
    }
    hide BooksOk, GoneEdge;
    forall m | k <= m < |order|
      ensures order[m].edgeKey in gone
    {
      assert order[m] in l.tasks;
      var t :| 0 <= t < |l.tasks| && l.tasks[t] == order[m];
    }
  }

  lemma NoActive(l: Level, b: Books, g: Trace)
    requires BooksOk(l, b, g) && b.active <= 0
    ensures |b.positions| == |l.queues| && forall e: nat :: !IsActive(l.queues, b.positions, e)
  {
    forall e: nat | IsActive(l.queues, b.positions, e)
      ensures e in ActiveEdges(l.queues, b.positions)
    {
    }
  }

  /** The frontier loop of a permutation method: its execution order, its p-values and the final
      generator state are those of the sequential search in pcalg order. */
  method RunFrontier<R(!new)>(tasks: seq<Task>, edgeCount: nat, p: nat, alpha: real, oracle: DrawingOracle<R>,
                        rng0: R, ghost order: seq<Task>)
    returns (b: Books, rng: R, ghost log: seq<Record>)
    requires AllTasksInRange(tasks, p) && forall i :: 0 <= i < |tasks| ==> tasks[i].edgeKey < edgeCount
    requires PlanContract(tasks) && SameMembers(tasks, order) && PcalgAscending(order)
    ensures (log, rng) == Perform(order, 0, {}, rng0, [], oracle, alpha) && DrawnLog(order, log, rng0, rng, oracle, alpha)
    ensures RecordsOf(tasks, b.results, log) && forall i :: i in b.results ==> i < |tasks|
    ensures forall t :: 0 <= t < |tasks| ==> t in b.results || GoneEdge(tasks, b.results, alpha, tasks[t].edgeKey)
    ensures b.remaining == 0 && b.ignored >= 0 && |b.results| + b.ignored == |tasks|
    ensures Square(b.deletes, p) && DeletesOk(tasks, b.results, alpha, b.deletes, p)
    ensures b.pcalgDone <==> !OpensNext(tasks, b.results)
  {
    hide BooksOk, PlanContract, SameMembers, PcalgAscending, DeletesOk, OpensNext, RecordsOf, InStep, NotLess, GoneEdge;
    var l;
    ghost var g;
    l, b, g := Open(tasks, edgeCount, alpha, p);
    rng := rng0;
    log := [];
    ghost var k, gone: set<nat> := 0, {};
    StartInStep(tasks, alpha, order);
    while b.active > 0
      invariant l.tasks == tasks && l.alpha == alpha && l.p == p
      invariant BooksOk(l, b, g) && g.pending == {}
      invariant InStep(tasks, b.results, alpha, order, k, gone) && k <= |order|
      invariant RecordsOf(tasks, b.results, log)
      invariant Perform(order, k, gone, rng, log, oracle, alpha) == Perform(order, 0, {}, rng0, [], oracle, alpha)
      decreases b.remaining
    {
      CloseFrontier(l, b, g);
      var key, at, i := SelectLeast(l, b, g);
      ghost var j := LeastIsNext(l, b, g, order, k, gone, i);
      SkipGone(order, k, j, gone, rng, log, oracle, alpha);
      b, g := TakeHead(l, b, g, key, at);
      var task := tasks[i];
      var (pv, next) := oracle(task.orientX, task.orientY, task.conditioning, rng);
      StepAhead(tasks, b.results, alpha, order, k, gone, i, j, pv);
      RecordsStep(tasks, b.results, log, i, pv);
      b, g := Complete(l, b, g, i, pv);
      gone := if alpha <= pv then gone + {task.edgeKey} else gone;
      log := log + [Record(task, pv)];
      rng, k := next, j + 1;
    }
    PerformIsDrawn(order, rng0, oracle, alpha);
    hide DrawnLog;
    CloseFrontier(l, b, g);
    NothingLeft(l, b, g, order, k, gone);
    SkipGone(order, k, |order|, gone, rng, log, oracle, alpha);
    BooksParts(l, b, g);
    BoundedKeys(tasks, l.queues, alpha, g.done, b.positions, b.results, g.cut);
  }

  lemma StartInStep(tasks: seq<Task>, alpha: real, order: seq<Task>)
    ensures InStep(tasks, map[], alpha, order, 0, {}) && RecordsOf(tasks, map[], [])
  {
  }
}
