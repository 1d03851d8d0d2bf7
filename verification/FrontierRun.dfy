/** One level of the gamma methods: waves of whole buckets, in any order the caches suggest. */
module FrontierRun {
  import opened Grids
  import opened LayerPlan
  import opened Skeleton
  import opened Decimal
  import opened Frontier
  import LruCache

  /** `compact_result_key`: `scope` stands for the dataset and the method settings. */
  datatype ResultKey = ResultKey(scope: string, level: nat, index: nat, edgeX: nat, edgeY: nat,
                                 orientX: nat, orientY: nat, conditioning: seq<nat>)

  function KeyOf(scope: string, level: nat, index: nat, t: Task): ResultKey {
    ResultKey(scope, level, index, t.edgeX, t.edgeY, t.orientX, t.orientY, t.conditioning)
  }

  /** A cache that, within the scope, holds only p-values the oracle would give. */
  ghost predicate Coherent(l: LruCache.Bindings<ResultKey, Probability>, scope: string, oracle: Oracle) {
    forall i :: 0 <= i < |l| && l[i].0.scope == scope ==>
      l[i].1 == oracle(l[i].0.orientX, l[i].0.orientY, l[i].0.conditioning)
  }

  ghost predicate CacheOk(cache: LruCache.Cache<ResultKey, Probability>, scope: string, oracle: Oracle)
    reads cache
  {
    cache.Valid() && Coherent(cache.Contents(), scope, oracle)
  }

  lemma CoherentStep(l: LruCache.Bindings<ResultKey, Probability>, scope: string, oracle: Oracle,
                     op: LruCache.Op<ResultKey, Probability>, capacity: nat)
    requires LruCache.DistinctKeys(l) && capacity >= 1 && Coherent(l, scope, oracle)
    requires op.Insert? && op.key.scope == scope ==>
      op.value == oracle(op.key.orientX, op.key.orientY, op.key.conditioning)
    ensures Coherent(LruCache.Apply(l, op, capacity), scope, oracle)
  {
    if LruCache.Has(l, op.key) {
      var i :| 0 <= i < |l| && l[i].0 == op.key;
      LruCache.ApplyPresent(l, op, capacity, i);
    } else {
      LruCache.ApplyAbsent(l, op, capacity);
    }
  }

  /** Tests of one bucket: the p-values the cache already had, by position. */
  datatype Work = Work(selected: seq<nat>, hits: map<nat, Probability>)

  ghost predicate SameConditioning(tasks: seq<Task>, selected: seq<nat>) {
    && (forall j :: 0 <= j < |selected| ==> selected[j] < |tasks|)
    && (forall j, k :: 0 <= j < k < |selected| ==> tasks[selected[j]].conditioning == tasks[selected[k]].conditioning)
  }

  ghost predicate WorkOk(tasks: seq<Task>, oracle: Oracle, w: Work) {
    && w.selected != []
    && SameConditioning(tasks, w.selected)
    && forall j :: j in w.hits ==> j < |w.selected| && w.hits[j] == PValue(oracle, tasks[w.selected[j]])
  }

  /** `flat` lists, once each, the heads of exactly the pending edges. */
  ghost predicate WaveOk(l: Level, b: Books, pending: set<nat>, flat: seq<nat>) {
    && (forall j :: 0 <= j < |flat| ==> IsHead(l, b, flat[j]) && l.tasks[flat[j]].edgeKey in pending)
    && (forall j, k :: 0 <= j < k < |flat| ==> l.tasks[flat[j]].edgeKey != l.tasks[flat[k]].edgeKey)
    && (forall e :: e in pending ==> exists j :: 0 <= j < |flat| && l.tasks[flat[j]].edgeKey == e)
  }

  function Flat(wave: seq<Work>): seq<nat> {
    if wave == [] then [] else wave[0].selected + Flat(wave[1..])
  }

  lemma {:induction false} FlatSnoc(wave: seq<Work>, w: Work)
    ensures Flat(wave + [w]) == Flat(wave) + w.selected
  {
    if wave == [] {
      assert wave + [w] == [w];
      assert [w][1..] == [];
    } else {
      FlatSnoc(wave[1..], w);
      assert (wave + [w])[1..] == wave[1..] + [w];
    }
  }

  /** Completing the first head of the wave leaves a wave of the others. */
  lemma WaveStep(l: Level, b: Books, b': Books, pending: set<nat>, flat: seq<nat>)
    requires flat != [] && WaveOk(l, b, pending, flat)
    requires |b'.positions| == |b.positions|
    requires forall e :: 0 <= e < |b.positions| && e != l.tasks[flat[0]].edgeKey ==> b'.positions[e] == b.positions[e]
    ensures WaveOk(l, b', pending - {l.tasks[flat[0]].edgeKey}, flat[1..])
  {
    var e0 := l.tasks[flat[0]].edgeKey;
    forall e | e in pending - {e0}
      ensures exists j :: 0 <= j < |flat[1..]| && l.tasks[flat[1..][j]].edgeKey == e
    {
      var j :| 0 <= j < |flat| && l.tasks[flat[j]].edgeKey == e;
      assert flat[1..][j - 1] == flat[j];
    }
  }

  /** The heads of a taken bucket join the wave. */
  lemma WaveJoin(l: Level, b: Books, pending: set<nat>, flat: seq<nat>, key: string, edges: seq<nat>, selected: seq<nat>)
    requires QueuesOf(l.tasks, l.queues) && |b.positions| == |l.queues| && WaveOk(l, b, pending, flat)
    requires BucketOk(l.tasks, l.queues, b.positions, pending, key, edges)
    requires |selected| == |edges|
    requires forall a :: 0 <= a < |edges| ==> selected[a] == l.queues[edges[a]][b.positions[edges[a]]]
    ensures WaveOk(l, b, pending + (set e | e in edges), flat + selected)
    ensures SameConditioning(l.tasks, selected)
  {
    forall a | 0 <= a < |edges|
      ensures IsHead(l, b, selected[a]) && l.tasks[selected[a]].edgeKey == edges[a] && edges[a] !in pending
      ensures ConditioningKey(l.tasks[selected[a]].conditioning) == key
    {
      ActiveFacts(l.tasks, l.queues, b.positions, edges[a]);
    }
    forall a, c | 0 <= a < c < |selected|
      ensures l.tasks[selected[a]].conditioning == l.tasks[selected[c]].conditioning
    {
      ConditioningKeyInjective(l.tasks[selected[a]].conditioning, l.tasks[selected[c]].conditioning);
    }
    assert forall a, c :: 0 <= a < c < |edges| ==> edges[a] != edges[c];
    hide QueuesOf, BucketOk, ConditioningKey;
    var all, taken := flat + selected, set e | e in edges;
    forall e | e in pending
      ensures exists j :: 0 <= j < |all| && l.tasks[all[j]].edgeKey == e
    {
      var j :| 0 <= j < |flat| && l.tasks[flat[j]].edgeKey == e;
      assert all[j] == flat[j];
    }
    forall e | e in taken
      ensures exists j :: 0 <= j < |all| && l.tasks[all[j]].edgeKey == e
    {
      var a :| 0 <= a < |edges| && edges[a] == e;
      assert all[|flat| + a] == selected[a];
    }
    var pending' := pending + taken;
    forall j | 0 <= j < |all|
      ensures IsHead(l, b, all[j]) && l.tasks[all[j]].edgeKey in pending'
      ensures j < |flat| <==> l.tasks[all[j]].edgeKey in pending
    {
      if j < |flat| {
        assert all[j] == flat[j];
      } else {
        assert all[j] == selected[j - |flat|];
        assert edges[j - |flat|] in taken;
      }
    }
    assert WaveOk(l, b, pending', all);
  }

  /** One cache request; a hit is what the oracle would say. */
  method LookUpOne(key: ResultKey, scope: string, cache: LruCache.Cache<ResultKey, Probability>, ghost oracle: Oracle)
    returns (found: seq<Probability>)
    requires CacheOk(cache, scope, oracle) && key.scope == scope
    modifies cache
    ensures CacheOk(cache, scope, oracle)
    ensures found != [] ==> found[0] == oracle(key.orientX, key.orientY, key.conditioning)
  {
    hide LruCache.Without, LruCache.Bind;
    CoherentStep(cache.Contents(), scope, oracle, LruCache.Lookup(key), cache.capacity);
    found := cache.Lookup(key);
  }

  method InsertOne(key: ResultKey, pv: Probability, scope: string,
                   cache: LruCache.Cache<ResultKey, Probability>, ghost oracle: Oracle)
    requires CacheOk(cache, scope, oracle) && key.scope == scope
    requires pv == oracle(key.orientX, key.orientY, key.conditioning)
    modifies cache
    ensures CacheOk(cache, scope, oracle)
  {
    hide LruCache.Without, LruCache.Bind, Coherent;
    CoherentStep(cache.Contents(), scope, oracle, LruCache.Insert(key, pv), cache.capacity);
    cache.Insert(key, pv);
  }

  /** Asks the result cache for each selected test. */
  method LookUp(tasks: seq<Task>, selected: seq<nat>, scope: string, level: nat,
                cache: LruCache.Cache<ResultKey, Probability>, ghost oracle: Oracle)
    returns (hits: map<nat, Probability>)
    requires forall j :: 0 <= j < |selected| ==> selected[j] < |tasks|
    requires CacheOk(cache, scope, oracle)
    modifies cache
    ensures CacheOk(cache, scope, oracle)
    ensures forall j :: j in hits ==> j < |selected| && hits[j] == PValue(oracle, tasks[selected[j]])
  {
    hide CacheOk;
    hits := map[];
    for j := 0 to |selected|
      invariant CacheOk(cache, scope, oracle)
      invariant forall k :: k in hits ==> k < j && hits[k] == PValue(oracle, tasks[selected[k]])
    {
      var key := KeyOf(scope, level, selected[j], tasks[selected[j]]);
      var found := LookUpOne(key, scope, cache, oracle);
      if found != [] {
        hits := hits[j := found[0]];
      }
    }
  }

  lemma Selected(tasks: seq<Task>, oracle: Oracle, w: Work, j: nat)
    requires WorkOk(tasks, oracle, w) && (j < |w.selected| || j == 0)
    ensures w.selected[j] < |tasks| && w.selected != []
    ensures j in w.hits ==> w.hits[j] == PValue(oracle, tasks[w.selected[j]])
  {
  }

  /** Runs the tests the cache did not have, and stores them. */
  method ExecuteGroup(tasks: seq<Task>, w: Work, scope: string, level: nat,
                      cache: LruCache.Cache<ResultKey, Probability>, oracle: Oracle)
    returns (pvalues: seq<Probability>)
    requires WorkOk(tasks, oracle, w)
    requires CacheOk(cache, scope, oracle)
    modifies cache
    ensures CacheOk(cache, scope, oracle)
    ensures |pvalues| == |w.selected|
    ensures forall j :: 0 <= j < |pvalues| ==>
      w.selected[j] < |tasks| && pvalues[j] == PValue(oracle, tasks[w.selected[j]])
  {
    hide CacheOk, SameConditioning, WorkOk;
    pvalues := [];
    for j := 0 to |w.selected|
      invariant CacheOk(cache, scope, oracle)
      invariant |pvalues| == j
      invariant forall k :: 0 <= k < j ==>
        w.selected[k] < |tasks| && pvalues[k] == PValue(oracle, tasks[w.selected[k]])
    {
      Selected(tasks, oracle, w, j);
      var task := tasks[w.selected[j]];
      var pv;
      if j in w.hits {
        pv := w.hits[j];
      } else {
        pv := PValue(oracle, task);
        InsertOne(KeyOf(scope, level, w.selected[j], task), pv, scope, cache, oracle);
      }
      pvalues := pvalues + [pv];
    }
  }

  /** The heads of the edges of a bucket. */
  method Heads(l: Level, b: Books, ghost pending: set<nat>, ghost key: string, edges: seq<nat>) returns (selected: seq<nat>)
    requires QueuesOf(l.tasks, l.queues) && |b.positions| == |l.queues|
    requires BucketOk(l.tasks, l.queues, b.positions, pending, key, edges)
    ensures |selected| == |edges|
    ensures forall a :: 0 <= a < |edges| ==>
      IsActive(l.queues, b.positions, edges[a]) && selected[a] == l.queues[edges[a]][b.positions[edges[a]]]
  {
    selected := [];
    for a := 0 to |edges|
      invariant |selected| == a
      invariant forall c :: 0 <= c < a ==> selected[c] == l.queues[edges[c]][b.positions[edges[c]]]
    {
      selected := selected + [l.queues[edges[a]][b.positions[edges[a]]]];
    }
  }

  /** Takes one bucket; its tests share one conditioning set. */
  method SelectWork(l: Level, b: Books, ghost g: Trace, key: string, scope: string, level: nat,
                    cache: LruCache.Cache<ResultKey, Probability>, ghost oracle: Oracle, ghost flat: seq<nat>)
    returns (b': Books, w: Work, ghost g': Trace)
    requires BooksOk(l, b, g) && key in b.ready && WaveOk(l, b, g.pending, flat)
    requires CacheOk(cache, scope, oracle)
    modifies cache
    ensures CacheOk(cache, scope, oracle)
    ensures BooksOk(l, b', g') && b' == b.(ready := b.ready - {key})
    ensures WorkOk(l.tasks, oracle, w) && WaveOk(l, b', g'.pending, flat + w.selected)
  {
    hide CacheOk;
    var edges;
    b', edges, g' := TakeBucket(l, b, g, key);
    var selected := Heads(l, b, g.pending, key, edges);
    WaveJoin(l, b, g.pending, flat, key, edges, selected);
    assert selected != [];
    hide BooksOk, BucketOk;
    assert WaveOk(l, b', g'.pending, flat + selected);
    hide WaveOk;
    var hits := LookUp(l.tasks, selected, scope, level, cache, oracle);
    w := Work(selected, hits);
  }

  /** Runs one group and replays it into the bookkeeping. */
  method RunWork(l: Level, b: Books, ghost g: Trace, w: Work, scope: string, level: nat,
                 cache: LruCache.Cache<ResultKey, Probability>, oracle: Oracle, ghost rest: seq<nat>)
    returns (b': Books, ghost g': Trace)
    requires BooksOk(l, b, g) && WorkOk(l.tasks, oracle, w) && WaveOk(l, b, g.pending, w.selected + rest)
    requires OracleResults(l.tasks, b.results, oracle)
    requires CacheOk(cache, scope, oracle)
    modifies cache
    ensures CacheOk(cache, scope, oracle)
    ensures BooksOk(l, b', g') && WaveOk(l, b', g'.pending, rest)
    ensures OracleResults(l.tasks, b'.results, oracle) && b'.remaining < b.remaining
  {
    hide BooksOk, WaveOk, OracleResults, WorkOk, CacheOk;
    Selected(l.tasks, oracle, w, 0);
    var pvalues := ExecuteGroup(l.tasks, w, scope, level, cache, oracle);
    b', g' := b, g;
    ghost var flat := w.selected + rest;
    for j := 0 to |w.selected|
      invariant CacheOk(cache, scope, oracle)
      invariant BooksOk(l, b', g') && flat == w.selected[j..] + rest && WaveOk(l, b', g'.pending, flat)
      invariant OracleResults(l.tasks, b'.results, oracle)
      invariant if j == 0 then b' == b else b'.remaining < b.remaining
    {
      assert flat[0] == w.selected[j];
      WaveHead(l, b', g'.pending, flat);
      ghost var was, pending := b', g'.pending;
      b', g' := Complete(l, b', g', w.selected[j], pvalues[j]);
      WaveStep(l, was, b', pending, flat);
      OracleStep(l.tasks, was.results, oracle, flat[0], pvalues[j]);
      assert flat[1..] == w.selected[j + 1..] + rest;
      flat := flat[1..];
    }
    assert flat == rest;
  }

  lemma WaveHead(l: Level, b: Books, pending: set<nat>, flat: seq<nat>)
    requires WaveOk(l, b, pending, flat) && flat != []
    ensures IsHead(l, b, flat[0]) && l.tasks[flat[0]].edgeKey in pending
  {
  }

  lemma OracleStep(tasks: seq<Task>, results: map<nat, Probability>, oracle: Oracle, i: nat, pv: Probability)
    requires OracleResults(tasks, results, oracle) && i < |tasks| && pv == PValue(oracle, tasks[i])
    ensures OracleResults(tasks, results[i := pv], oracle)
  {
  }

  ghost predicate OracleResults(tasks: seq<Task>, results: map<nat, Probability>, oracle: Oracle) {
    forall i :: i in results && i < |tasks| ==> results[i] == PValue(oracle, tasks[i])
  }

  /** Fills a wave with up to `capacity` buckets; which ones, and whether to stop early after the
      first, is left open. */
  method FillWave(l: Level, b: Books, ghost g: Trace, capacity: nat, scope: string, level: nat,
                  cache: LruCache.Cache<ResultKey, Probability>, ghost oracle: Oracle)
    returns (b': Books, wave: seq<Work>, ghost g': Trace)
    requires capacity >= 1 && BooksOk(l, b, g) && g.pending == {} && b.ready != map[]
    requires CacheOk(cache, scope, oracle)
    modifies cache
    ensures CacheOk(cache, scope, oracle)
    ensures 1 <= |wave| <= capacity && forall k :: 0 <= k < |wave| ==> WorkOk(l.tasks, oracle, wave[k])
    ensures BooksOk(l, b', g') && WaveOk(l, b', g'.pending, Flat(wave))
    ensures b'.results == b.results && b'.remaining == b.remaining
  {
    hide BooksOk, CacheOk, WorkOk;
    b', wave, g' := b, [], g;
    while |wave| < capacity && b'.ready != map[]
      invariant CacheOk(cache, scope, oracle)
      invariant |wave| <= capacity && forall k :: 0 <= k < |wave| ==> WorkOk(l.tasks, oracle, wave[k])
      invariant BooksOk(l, b', g') && WaveOk(l, b', g'.pending, Flat(wave))
      invariant b'.results == b.results && b'.remaining == b.remaining
      invariant wave == [] ==> b' == b
      decreases capacity - |wave|
    {
      var stopEarly: bool := *;
      if wave != [] && stopEarly {
        break;
      }
      var key :| key in b'.ready;
      var w;
      b', w, g' := SelectWork(l, b', g', key, scope, level, cache, oracle, Flat(wave));
      FlatSnoc(wave, w);
      wave := wave + [w];
    }
  }

  /** The frontier loop of one level. */
  method RunFrontier(tasks: seq<Task>, edgeCount: nat, p: nat, alpha: real, oracle: Oracle, capacity: nat,
                     scope: string, level: nat, cache: LruCache.Cache<ResultKey, Probability>)
    returns (b: Books, rounds: nat)
    requires capacity >= 1
    requires forall i :: 0 <= i < |tasks| ==> InRange(tasks[i], p) && tasks[i].edgeKey < edgeCount
    requires CacheOk(cache, scope, oracle)
    modifies cache
    ensures CacheOk(cache, scope, oracle)
    ensures forall i :: i in b.results ==> i < |tasks| && b.results[i] == PValue(oracle, tasks[i])
    ensures forall i :: 0 <= i < |tasks| ==> (i in b.results <==> Reached(tasks, oracle, alpha, i))
    ensures b.remaining == 0 && b.ready == map[]
    ensures b.ignored >= 0 && |b.results| + b.ignored == |tasks|
    ensures Square(b.deletes, p) && DeletesOk(tasks, b.results, alpha, b.deletes, p)
    ensures b.pcalgDone <==> !OpensNext(tasks, b.results)
  {
    hide BooksOk, WaveOk, OracleResults, WorkOk, CacheOk, Flat, Reached, DeletesOk, OpensNext;
    var l;
    ghost var g;
    l, b, g := Open(tasks, edgeCount, alpha, p);
    NothingRun(tasks, oracle);
    rounds := 0;
    while b.active > 0
      invariant l.tasks == tasks && l.alpha == alpha && l.p == p
      invariant CacheOk(cache, scope, oracle)
      invariant BooksOk(l, b, g) && g.pending == {} && OracleResults(tasks, b.results, oracle)
      decreases b.remaining
    {
      CloseFrontier(l, b, g);
      ghost var before := b.remaining;
      var wave;
      b, wave, g := FillWave(l, b, g, capacity, scope, level, cache, oracle);
      var more;
      b, g, more := RunWave(l, b, g, wave, scope, level, cache, oracle);
      rounds := rounds + more;
    }
    CloseFrontier(l, b, g);
    FrontierExact(l, b, g, oracle);
    BooksParts(l, b, g);
  }

  lemma NothingRun(tasks: seq<Task>, oracle: Oracle)
    ensures OracleResults(tasks, map[], oracle)
  {
  }

  /** Runs the groups of a wave one after another. */
  method RunWave(l: Level, b: Books, ghost g: Trace, wave: seq<Work>, scope: string, level: nat,
                 cache: LruCache.Cache<ResultKey, Probability>, oracle: Oracle)
    returns (b': Books, ghost g': Trace, rounds: nat)
    requires wave != [] && forall k :: 0 <= k < |wave| ==> WorkOk(l.tasks, oracle, wave[k])
    requires BooksOk(l, b, g) && WaveOk(l, b, g.pending, Flat(wave)) && OracleResults(l.tasks, b.results, oracle)
    requires CacheOk(cache, scope, oracle)
    modifies cache
    ensures CacheOk(cache, scope, oracle)
    ensures BooksOk(l, b', g') && g'.pending == {} && OracleResults(l.tasks, b'.results, oracle)
    ensures b'.remaining < b.remaining && rounds == |wave|
  {
    hide BooksOk, WaveOk, OracleResults, WorkOk, CacheOk;
    b', g', rounds := b, g, 0;
    for k := 0 to |wave|
      invariant CacheOk(cache, scope, oracle)
      invariant BooksOk(l, b', g') && WaveOk(l, b', g'.pending, Flat(wave[k..]))
      invariant OracleResults(l.tasks, b'.results, oracle) && rounds == k
      invariant if k == 0 then b' == b else b'.remaining < b.remaining
    {
      assert wave[k..][1..] == wave[k + 1..];
      b', g' := RunWork(l, b', g', wave[k], scope, level, cache, oracle, Flat(wave[k + 1..]));
      rounds := rounds + 1;
    }
    WaveEmpty(l, b', g'.pending);
  }

  lemma WaveEmpty(l: Level, b: Books, pending: set<nat>)
    ensures WaveOk(l, b, pending, []) ==> pending == {}
  {
  }

  /** In an exhausted queue, a test ran iff no earlier test of the queue accepted independence. */
  lemma QueueExact(q: seq<nat>, done: nat, results: map<nat, Probability>, cut: set<nat>, alpha: real, at: nat)
    requires EdgeProgress(q, done, |q|, results, cut, alpha) && at < |q|
    ensures q[at] in results ==> forall k :: 0 <= k < at ==> q[k] in results && results[q[k]] < alpha
    ensures q[at] !in results ==> 0 < done <= at && q[done - 1] in results && alpha <= results[q[done - 1]]
  {
  }

  lemma ClosedQueue(l: Level, b: Books, g: Trace, i: nat) returns (at: nat)
    requires BooksOk(l, b, g) && b.active <= 0 && i < |l.tasks|
    ensures l.tasks[i].edgeKey < |l.queues| == |g.done|
    ensures var q := l.queues[l.tasks[i].edgeKey];
      && at < |q| && q[at] == i
      && EdgeProgress(q, g.done[l.tasks[i].edgeKey], |q|, b.results, g.cut, l.alpha)
      && (forall k :: 0 <= k < |q| ==> q[k] < |l.tasks| && l.tasks[q[k]].edgeKey == l.tasks[i].edgeKey)
      && (forall k :: 0 <= k < |q| ==> (q[k] < i <==> k < at))
      && (forall j :: 0 <= j < |l.tasks| && l.tasks[j].edgeKey == l.tasks[i].edgeKey ==> j in q)
  {
    hide ReadyOk, DeletesOk, OpensNext, EdgeProgress, AllTasksInRange, HeadKey;
    var e := l.tasks[i].edgeKey;
    assert i in l.queues[e];
    at :| 0 <= at < |l.queues[e]| && l.queues[e][at] == i;
    assert e !in ActiveEdges(l.queues, b.positions);
    assert EdgeProgress(l.queues[e], g.done[e], b.positions[e], b.results, g.cut, l.alpha);
    WithinQueue(l.queues[e], g.done[e], b.positions[e], b.results, g.cut, l.alpha);
  }

  lemma WithinQueue(q: seq<nat>, done: nat, pos: nat, results: map<nat, Probability>, cut: set<nat>, alpha: real)
    requires EdgeProgress(q, done, pos, results, cut, alpha)
    ensures pos <= |q|
  {
  }

  /** A closed frontier has run exactly the tests that skipping deleted edges would reach. */
  lemma FrontierExact(l: Level, b: Books, g: Trace, oracle: Oracle)
    requires BooksOk(l, b, g) && b.active <= 0 && OracleResults(l.tasks, b.results, oracle)
    ensures forall i :: i in b.results ==> i < |l.tasks| && b.results[i] == PValue(oracle, l.tasks[i])
    ensures forall i :: 0 <= i < |l.tasks| ==> (i in b.results <==> Reached(l.tasks, oracle, l.alpha, i))
  {
    BooksParts(l, b, g);
    BoundedKeys(l.tasks, l.queues, l.alpha, g.done, b.positions, b.results, g.cut);
    hide BooksOk, Progress, QueuesOf;
    forall i | 0 <= i < |l.tasks|
      ensures i in b.results <==> Reached(l.tasks, oracle, l.alpha, i)
    {
      var at := ClosedQueue(l, b, g, i);
      var e := l.tasks[i].edgeKey;
      QueueExact(l.queues[e], g.done[e], b.results, g.cut, l.alpha, at);
      if i !in b.results {
        var last := l.queues[e][g.done[e] - 1];
        assert last < i && l.alpha <= b.results[last];
      }
    }
  }
}
