/** The level prefill: conditioning groups are cut into windows, each window's missing targets are
    optimized asynchronously, and the next window is prepared while one result is outstanding. */
module Prefill {
  import opened Arith
  import opened LruCache

  const COHORT: nat := 16

  /** A conditioning set of a dataset, by the textual key of its members. */
  datatype PreparedKey = PreparedKey(dataset: string, members: string)

  /** The tasks of one conditioning set: its key and its targets, ascending and without repetition. */
  datatype Group = Group(cond: PreparedKey, targets: seq<nat>)

  datatype Request = Request(cond: PreparedKey, targets: seq<nat>)

  datatype Batch = Batch(window: nat, groups: nat, requests: seq<Request>)

  type TargetKey = (PreparedKey, nat)

  type States<V> = Bindings<TargetKey, V>

  /** What does not depend on the pipeline: the cache capacity, the least number of targets worth a
      request, the window capacity of a group, and the optimizer. */
  datatype Setting<!V> = Setting(capacity: nat, least: nat, width: Group -> nat, optimize: (Request, nat) -> V) {
    ghost predicate Valid() {
      capacity >= 1 && forall g :: width(g) >= 1
    }
  }

  // ---------- the unpipelined loop ----------

  /** Looks the targets up one by one; hits are refreshed, misses collected. */
  function Missing<V>(c: States<V>, cond: PreparedKey, targets: seq<nat>): (States<V>, seq<nat>)
    decreases |targets|
  {
    if targets == [] then (c, [])
    else
      var k := (cond, targets[0]);
      var r := Missing(Looked(c, k), cond, targets[1..]);
      (r.0, if Has(c, k) then r.1 else [targets[0]] + r.1)
  }

  function Prepared<V>(e: Setting<V>, c: States<V>, window: seq<Group>): (States<V>, seq<Request>)
    decreases |window|
  {
    if window == [] then (c, [])
    else
      var m := Missing(c, window[0].cond, window[0].targets);
      var r := Prepared(e, m.0, window[1..]);
      (r.0, if |m.1| >= e.least then [Request(window[0].cond, m.1)] + r.1 else r.1)
  }

  function Stored<V>(e: Setting<V>, c: States<V>, r: Request, n: nat): States<V>
    requires n <= |r.targets| && e.capacity >= 1
  {
    if n == 0 then c
    else Inserted(Stored(e, c, r, n - 1), (r.cond, r.targets[n - 1]), e.optimize(r, n - 1), e.capacity)
  }

  function Completed<V>(e: Setting<V>, c: States<V>, requests: seq<Request>): States<V>
    requires e.capacity >= 1
    decreases |requests|
  {
    if requests == [] then c
    else Completed(e, Stored(e, c, requests[0], |requests[0].targets|), requests[1..])
  }

  datatype Outcome<V> = Outcome(states: States<V>, batches: seq<Batch>)

  /** One window after the other, each finished before the next is looked at. */
  function Unpipelined<V>(e: Setting<V>, o: Outcome<V>, windows: seq<seq<Group>>): Outcome<V>
    requires e.capacity >= 1
    decreases |windows|
  {
    if windows == [] then o
    else
      var w := Prepared(e, o.states, windows[0]);
      Unpipelined(e, Outcome(Completed(e, w.0, w.1), o.batches + [Batch(|o.batches| + 1, |windows[0]|, w.1)]), windows[1..])
  }

  // ---------- fresh keys ----------

  ghost predicate FreshGroup<V>(c: States<V>, g: Group) {
    forall t :: t in g.targets ==> !Has(c, (g.cond, t))
  }

  /** No target of these groups has a cached state. */
  ghost predicate Fresh<V>(c: States<V>, groups: seq<Group>) {
    forall i :: 0 <= i < |groups| ==> FreshGroup(c, groups[i])
  }

  ghost predicate DistinctConds(groups: seq<Group>) {
    forall i, j :: 0 <= i < j < |groups| ==> groups[i].cond != groups[j].cond
  }

  function Wanted(least: nat, window: seq<Group>): seq<Request> {
    if window == [] then []
    else if |window[0].targets| >= least then [Request(window[0].cond, window[0].targets)] + Wanted(least, window[1..])
    else Wanted(least, window[1..])
  }

  lemma {:induction false} FreshMisses<V>(c: States<V>, cond: PreparedKey, targets: seq<nat>)
    requires forall t :: t in targets ==> !Has(c, (cond, t))
    ensures Missing(c, cond, targets) == (c, targets)
  {
    if targets != [] {
      assert targets[0] in targets;
      FreshMisses(c, cond, targets[1..]);
      assert [targets[0]] + targets[1..] == targets;
    }
  }

  /** Looking up a fresh window finds nothing and leaves the cache as it was, order included. */
  lemma {:induction false} FreshPrepares<V>(e: Setting<V>, c: States<V>, window: seq<Group>)
    requires Fresh(c, window)
    ensures Prepared(e, c, window) == (c, Wanted(e.least, window))
  {
    if window != [] {
      assert FreshGroup(c, window[0]);
      FreshMisses(c, window[0].cond, window[0].targets);
      assert Fresh(c, window[1..]);
      FreshPrepares(e, c, window[1..]);
    }
  }

  lemma InsertedHas<K, V>(l: Bindings<K, V>, k: K, v: V, capacity: nat, x: K)
    requires capacity >= 1 && Has(Inserted(l, k, v, capacity), x) && x != k
    ensures Has(l, x)
  {
    var r := Inserted(l, k, v, capacity);
    var i :| 0 <= i < |r| && r[i].0 == x;
    if Has(l, k) {
      assert r[i] in Without(l, k);
      WithoutKeeps(l, k, r[i]);
    }
  }

  lemma {:induction false} WithoutKeeps<K, V>(l: Bindings<K, V>, k: K, b: (K, V))
    requires b in Without(l, k)
    ensures Has(l, b.0)
  {
    if l[0].0 == k || b == l[0] {
      var i :| 0 <= i < |l| && l[i] == b;
    } else {
      WithoutKeeps(l[1..], k, b);
      var i :| 0 <= i < |l[1..]| && l[1..][i].0 == b.0;
      assert l[i + 1].0 == b.0;
    }
  }

  lemma {:induction false} StoredHas<V>(e: Setting<V>, c: States<V>, r: Request, n: nat, x: TargetKey)
    requires n <= |r.targets| && e.capacity >= 1 && Has(Stored(e, c, r, n), x)
    ensures Has(c, x) || x.0 == r.cond
  {
    if n > 0 && x.0 != r.cond {
      InsertedHas(Stored(e, c, r, n - 1), (r.cond, r.targets[n - 1]), e.optimize(r, n - 1), e.capacity, x);
      StoredHas(e, c, r, n - 1, x);
    }
  }

  lemma {:induction false} CompletedHas<V>(e: Setting<V>, c: States<V>, requests: seq<Request>, x: TargetKey)
    requires e.capacity >= 1 && Has(Completed(e, c, requests), x)
    decreases |requests|
    ensures Has(c, x) || exists i :: 0 <= i < |requests| && requests[i].cond == x.0
  {
    if requests != [] {
      var next := Stored(e, c, requests[0], |requests[0].targets|);
      CompletedHas(e, next, requests[1..], x);
      if Has(next, x) {
        StoredHas(e, c, requests[0], |requests[0].targets|, x);
      } else {
        var i :| 0 <= i < |requests[1..]| && requests[1..][i].cond == x.0;
        assert requests[i + 1].cond == x.0;
      }
    }
  }

  ghost predicate NotAmong(requests: seq<Request>, groups: seq<Group>) {
    forall i, j :: 0 <= i < |requests| && 0 <= j < |groups| ==> requests[i].cond != groups[j].cond
  }

  /** Completing requests of other conditioning sets leaves fresh groups fresh, evictions included. */
  lemma CompletedFresh<V>(e: Setting<V>, c: States<V>, requests: seq<Request>, groups: seq<Group>)
    requires e.capacity >= 1 && Fresh(c, groups) && NotAmong(requests, groups)
    ensures Fresh(Completed(e, c, requests), groups)
  {
    forall j, t | 0 <= j < |groups| && t in groups[j].targets
      ensures !Has(Completed(e, c, requests), (groups[j].cond, t))
    {
      assert FreshGroup(c, groups[j]);
      if Has(Completed(e, c, requests), (groups[j].cond, t)) {
        CompletedHas(e, c, requests, (groups[j].cond, t));
      }
    }
  }

  // ---------- the pipelined loop ----------

  datatype Pending = Idle | Waiting(batch: Batch)

  /** At most one window is outstanding; its batch is published when it is finished. */
  datatype Pipe<V> = Pipe(states: States<V>, batches: seq<Batch>, pending: Pending)

  function Settled<V>(e: Setting<V>, p: Pipe<V>): Outcome<V>
    requires e.capacity >= 1
  {
    match p.pending
    case Idle => Outcome(p.states, p.batches)
    case Waiting(b) => Outcome(Completed(e, p.states, b.requests), p.batches + [b])
  }

  function Joined<V, T>(done: seq<T>, r: (States<V>, seq<T>)): (States<V>, seq<T>) {
    (r.0, done + r.1)
  }

  lemma MissingStep<V>(c: States<V>, g: Group, i: nat, missing: seq<nat>)
    requires i < |g.targets|
    ensures var k := (g.cond, g.targets[i]);
            Joined(missing, Missing(c, g.cond, g.targets[i..]))
            == Joined(if Has(c, k) then missing else missing + [g.targets[i]], Missing(Looked(c, k), g.cond, g.targets[i + 1..]))
  {
    hide Has, Looked;
    assert g.targets[i..][1..] == g.targets[i + 1..];
    var r := Missing(Looked(c, (g.cond, g.targets[i])), g.cond, g.targets[i + 1..]);
    assert missing + ([g.targets[i]] + r.1) == missing + [g.targets[i]] + r.1;
  }

  lemma MissingEnds<V>(c: States<V>, g: Group, missing: seq<nat>)
    ensures Joined([], Missing(c, g.cond, g.targets[0..])) == Missing(c, g.cond, g.targets)
    ensures Joined(missing, Missing(c, g.cond, g.targets[|g.targets|..])) == (c, missing)
  {
    assert g.targets[0..] == g.targets && missing + [] == missing;
    var r := Missing(c, g.cond, g.targets);
    assert [] + r.1 == r.1;
  }

  method PrepareGroup<V>(c: States<V>, g: Group) returns (d: States<V>, missing: seq<nat>)
    ensures (d, missing) == Missing(c, g.cond, g.targets)
  {
    hide Joined, Missing, Looked, Has;
    d, missing := c, [];
    MissingEnds(c, g, []);
    for i := 0 to |g.targets|
      invariant Joined(missing, Missing(d, g.cond, g.targets[i..])) == Missing(c, g.cond, g.targets)
    {
      MissingStep(d, g, i, missing);
      var k := (g.cond, g.targets[i]);
      if !Has(d, k) {
        missing := missing + [g.targets[i]];
      }
      d := Looked(d, k);
    }
    MissingEnds(d, g, missing);
  }

  lemma PreparedStep<V>(e: Setting<V>, c: States<V>, window: seq<Group>, i: nat, requests: seq<Request>)
    requires i < |window|
    ensures var m := Missing(c, window[i].cond, window[i].targets);
            Joined(requests, Prepared(e, c, window[i..]))
            == Joined(if |m.1| >= e.least then requests + [Request(window[i].cond, m.1)] else requests,
                      Prepared(e, m.0, window[i + 1..]))
  {
    hide Missing;
    assert window[i..][1..] == window[i + 1..];
    var m := Missing(c, window[i].cond, window[i].targets);
    var r, one := Prepared(e, m.0, window[i + 1..]), [Request(window[i].cond, m.1)];
    assert requests + (one + r.1) == requests + one + r.1;
  }

  lemma PreparedEnds<V>(e: Setting<V>, c: States<V>, window: seq<Group>, requests: seq<Request>)
    ensures Joined([], Prepared(e, c, window[0..])) == Prepared(e, c, window)
    ensures Joined(requests, Prepared(e, c, window[|window|..])) == (c, requests)
  {
    assert window[0..] == window && requests + [] == requests;
    var r := Prepared(e, c, window);
    assert [] + r.1 == r.1;
  }

  method PrepareWindow<V>(e: Setting<V>, c: States<V>, window: seq<Group>) returns (d: States<V>, requests: seq<Request>)
    ensures (d, requests) == Prepared(e, c, window)
  {
    hide Joined, Prepared, Missing;
    d, requests := c, [];
    PreparedEnds(e, c, window, []);
    for i := 0 to |window|
      invariant Joined(requests, Prepared(e, d, window[i..])) == Prepared(e, c, window)
    {
      PreparedStep(e, d, window, i, requests);
      var missing;
      d, missing := PrepareGroup(d, window[i]);
      if |missing| >= e.least {
        requests := requests + [Request(window[i].cond, missing)];
      }
    }
    PreparedEnds(e, d, window, requests);
  }

  method Finish<V>(e: Setting<V>, c: States<V>, requests: seq<Request>) returns (d: States<V>)
    requires e.capacity >= 1
    ensures d == Completed(e, c, requests)
  {
    d := c;
    for i := 0 to |requests|
      invariant Completed(e, d, requests[i..]) == Completed(e, c, requests)
    {
      assert requests[i..][1..] == requests[i + 1..];
      var r := requests[i];
      ghost var was := d;
      for j := 0 to |r.targets|
        invariant d == Stored(e, was, r, j)
      {
        d := Inserted(d, (r.cond, r.targets[j]), e.optimize(r, j), e.capacity);
      }
    }
  }

  method FinishPending<V>(e: Setting<V>, p: Pipe<V>) returns (q: Pipe<V>)
    requires e.capacity >= 1
    ensures q == Pipe(Settled(e, p).states, Settled(e, p).batches, Idle)
  {
    match p.pending
    case Idle => q := p;
    case Waiting(b) =>
      var d := Finish(e, p.states, b.requests);
      q := Pipe(d, p.batches + [b], Idle);
  }

  ghost predicate Numbered(batches: seq<Batch>, windows: seq<seq<Group>>) {
    |batches| == |windows| && forall i :: 0 <= i < |batches| ==> batches[i].window == i + 1 && batches[i].groups == |windows[i]|
  }

  /** The outstanding requests have nothing to do with these groups, which are all fresh. */
  ghost predicate Ahead<V>(p: Pipe<V>, groups: seq<Group>) {
    Fresh(p.states, groups) && (p.pending.Waiting? ==> NotAmong(p.pending.batch.requests, groups))
  }

  lemma {:induction false} WantedConds(least: nat, window: seq<Group>, n: nat)
    requires n < |Wanted(least, window)|
    ensures exists i :: 0 <= i < |window| && window[i].cond == Wanted(least, window)[n].cond
  {
    var first := |window[0].targets| >= least;
    if first && n == 0 {
      assert window[0].cond == Wanted(least, window)[n].cond;
    } else {
      var m := if first then n - 1 else n;
      WantedConds(least, window[1..], m);
      var i :| 0 <= i < |window[1..]| && window[1..][i].cond == Wanted(least, window[1..])[m].cond;
      assert window[i + 1].cond == Wanted(least, window)[n].cond;
    }
  }

  lemma FreshParts<V>(c: States<V>, window: seq<Group>, rest: seq<Group>)
    requires Fresh(c, window + rest)
    ensures Fresh(c, window) && Fresh(c, rest)
  {
    hide FreshGroup;
    assert forall i :: 0 <= i < |window| ==> window[i] == (window + rest)[i];
    assert forall i :: 0 <= i < |rest| ==> rest[i] == (window + rest)[|window| + i];
  }

  lemma AheadParts<V>(p: Pipe<V>, window: seq<Group>, rest: seq<Group>)
    requires Ahead(p, window + rest)
    ensures Ahead(p, window) && Ahead(p, rest)
  {
    hide Fresh;
    FreshParts(p.states, window, rest);
    if p.pending.Waiting? {
      assert forall j :: 0 <= j < |window| ==> window[j] == (window + rest)[j];
      assert forall j :: 0 <= j < |rest| ==> rest[j] == (window + rest)[|window| + j];
    }
  }

  lemma WantedApart(least: nat, window: seq<Group>, rest: seq<Group>)
    requires DistinctConds(window + rest)
    ensures NotAmong(Wanted(least, window), rest)
  {
    var w := Wanted(least, window);
    forall n, j | 0 <= n < |w| && 0 <= j < |rest|
      ensures w[n].cond != rest[j].cond
    {
      WantedConds(least, window, n);
      var i :| 0 <= i < |window| && window[i].cond == w[n].cond;
      assert (window + rest)[i].cond != (window + rest)[|window| + j].cond;
    }
  }

  lemma SettledFresh<V>(e: Setting<V>, p: Pipe<V>, groups: seq<Group>)
    requires e.capacity >= 1 && Ahead(p, groups)
    ensures Fresh(Settled(e, p).states, groups)
  {
    hide Fresh, NotAmong;
    if p.pending.Waiting? {
      CompletedFresh(e, p.states, p.pending.batch.requests, groups);
    }
  }

  /** A fresh window asks for the same requests whether the outstanding window is finished before or
      after its lookups. */
  lemma SameRequests<V>(e: Setting<V>, p: Pipe<V>, window: seq<Group>)
    requires e.capacity >= 1 && Ahead(p, window)
    ensures Prepared(e, p.states, window) == (p.states, Wanted(e.least, window))
    ensures Prepared(e, Settled(e, p).states, window) == (Settled(e, p).states, Wanted(e.least, window))
  {
    hide Prepared, Wanted, Fresh;
    SettledFresh(e, p, window);
    FreshPrepares(e, p.states, window);
    FreshPrepares(e, Settled(e, p).states, window);
  }

  function Flat(windows: seq<seq<Group>>): seq<Group> {
    if windows == [] then [] else windows[0] + Flat(windows[1..])
  }

  /** One turn of the pipeline: look the next window up, finish the outstanding one, launch the next. */
  function Advance<V>(e: Setting<V>, p: Pipe<V>, window: seq<Group>): Pipe<V>
    requires e.capacity >= 1
  {
    var w := Prepared(e, p.states, window);
    var s := Settled(e, p.(states := w.0));
    var batch := Batch(|s.batches| + 1, |window|, w.1);
    if w.1 == [] then Pipe(s.states, s.batches + [batch], Idle) else Pipe(s.states, s.batches, Waiting(batch))
  }

  function Pipelined<V>(e: Setting<V>, p: Pipe<V>, windows: seq<seq<Group>>): Pipe<V>
    requires e.capacity >= 1
    decreases |windows|
  {
    if windows == [] then p else Pipelined(e, Advance(e, p, windows[0]), windows[1..])
  }

  lemma {:induction false} PipelinedLast<V>(e: Setting<V>, p: Pipe<V>, windows: seq<seq<Group>>, last: seq<Group>)
    requires e.capacity >= 1
    ensures Pipelined(e, p, windows + [last]) == Advance(e, Pipelined(e, p, windows), last)
    decreases |windows|
  {
    hide Advance;
    if windows != [] {
      assert (windows + [last])[1..] == windows[1..] + [last];
      PipelinedLast(e, Advance(e, p, windows[0]), windows[1..], last);
    }
  }

  lemma AdvanceExact<V>(e: Setting<V>, p: Pipe<V>, window: seq<Group>, rest: seq<Group>)
    requires e.capacity >= 1 && Ahead(p, window + rest) && DistinctConds(window + rest)
    ensures Ahead(Advance(e, p, window), rest)
    ensures Unpipelined(e, Settled(e, p), [window]) == Settled(e, Advance(e, p, window))
  {
    hide Prepared, Fresh, DistinctConds, NotAmong, Wanted;
    AheadParts(p, window, rest);
    SameRequests(e, p, window);
    SettledFresh(e, p, rest);
    WantedApart(e.least, window, rest);
    assert [window][1..] == [];
  }

  lemma UnpipelinedFirst<V>(e: Setting<V>, o: Outcome<V>, windows: seq<seq<Group>>)
    requires e.capacity >= 1 && windows != []
    ensures Unpipelined(e, o, windows) == Unpipelined(e, Unpipelined(e, o, [windows[0]]), windows[1..])
  {
    hide Prepared, Completed;
    assert [windows[0]][1..] == [];
  }

  /** If no target of these windows is cached and no conditioning set comes twice, the pipelined loop has
      the outcome of the unpipelined one: the same cache, in the same order and after the same evictions,
      and the same batches. */
  lemma {:induction false} PipelineExact<V>(e: Setting<V>, p: Pipe<V>, windows: seq<seq<Group>>)
    requires e.capacity >= 1 && Ahead(p, Flat(windows)) && DistinctConds(Flat(windows))
    ensures Settled(e, Pipelined(e, p, windows)) == Unpipelined(e, Settled(e, p), windows)
    decreases |windows|
  {
    hide Advance, Ahead, Settled;
    if windows != [] {
      var rest := Flat(windows[1..]);
      AdvanceExact(e, p, windows[0], rest);
      DistinctTail(windows[0], rest);
      PipelineExact(e, Advance(e, p, windows[0]), windows[1..]);
      UnpipelinedFirst(e, Settled(e, p), windows);
    }
  }

  lemma SingletonWindow<V>(e: Setting<V>, c: States<V>, cond: PreparedKey)
    requires e.least == 1
    ensures Prepared(e, c, [Group(cond, [0])])
            == if Has(c, (cond, 0)) then (Looked(c, (cond, 0)), []) else (c, [Request(cond, [0])])
  {
    hide Has, Looked;
    var targets: seq<nat>, k: TargetKey := [0], (cond, 0);
    var l := Looked(c, k);
    var r := Missing(l, cond, []);
    assert r == (l, []) && Prepared(e, l, []) == (l, []) && [Group(cond, targets)][1..] == [];
    assert targets[1..] == [] && targets[0] == 0;
    assert Missing(c, cond, targets) == (r.0, if Has(c, k) then r.1 else [targets[0]] + r.1);
    assert targets == [targets[0]] + r.1;
    MissKeeps(c, k);
    var window := [Group(cond, targets)];
    var m := Missing(c, cond, targets);
    var rest := Prepared(e, m.0, window[1..]);
    assert rest == (l, []);
    assert Prepared(e, c, window) == (l, if |m.1| >= 1 then [Request(cond, m.1)] + rest.1 else rest.1);
    assert [Request(cond, targets)] + rest.1 == [Request(cond, targets)];
  }

  lemma MissKeeps<K, V>(c: Bindings<K, V>, k: K)
    ensures !Has(c, k) ==> Looked(c, k) == c
  {
  }

  /** With a full cache that already holds a later window's target, the pipelined loop finds that target
      before the outstanding window evicts it; the unpipelined one evicts it first and optimizes it again. */
  lemma StaleCacheDiffers(e: Setting<int>, x: PreparedKey, y: PreparedKey)
    requires e.capacity == 1 && e.least == 1 && x != y
    ensures var windows, c: States<int> := [[Group(x, [0])], [Group(y, [0])]], [((y, 0), 0)];
            Settled(e, Pipelined(e, Pipe(c, [], Idle), windows)) != Unpipelined(e, Outcome(c, []), windows)
  {
    hide Prepared, Missing, Looked;
    var a, b, c: States<int> := [Group(x, [0])], [Group(y, [0])], [((y, 0), 0)];
    var start := Pipe(c, [], Idle);
    assert c[0].0 == (y, 0);
    SingletonWindow(e, c, x);
    SingletonWindow(e, c, y);
    PipelinedLast(e, start, [a], b);
    assert [a] + [b] == [a, b] && [a][1..] == [] && [a, b][1..] == [b] && [b][1..] == [];
    var p := Pipelined(e, start, [a, b]);
    assert p == Advance(e, Advance(e, start, a), b);
    assert Settled(e, p).batches[1].requests == [];
    var d := Completed(e, c, [Request(x, [0])]);
    assert d == [((x, 0), e.optimize(Request(x, [0]), 0))] by {
      var r := Request(x, [0]);
      assert [r][1..] == [] && !Has(c, (x, 0));
      assert Stored(e, c, r, 0) == c;
      assert Stored(e, c, r, 1) == [((x, 0), e.optimize(r, 0))];
      assert Completed(e, Stored(e, c, r, 1), []) == Stored(e, c, r, 1);
    }
    SingletonWindow(e, d, y);
    var o := Unpipelined(e, Outcome(c, []), [a]);
    UnpipelinedFirst(e, Outcome(c, []), [a, b]);
    assert o.states == d && |o.batches| == 1;
    assert Unpipelined(e, o, [b]).batches[1].requests == [Request(y, [0])];
  }

  method RunWindow<V>(e: Setting<V>, p: Pipe<V>, window: seq<Group>) returns (q: Pipe<V>)
    requires e.capacity >= 1
    ensures q == Advance(e, p, window)
  {
    hide Prepared, Completed;
    var id := |p.batches| + (if p.pending.Idle? then 1 else 2);
    var states, requests := PrepareWindow(e, p.states, window);
    q := FinishPending(e, p.(states := states));
    var batch := Batch(id, |window|, requests);
    if requests == [] {
      q := q.(batches := q.batches + [batch]);
    } else {
      q := q.(pending := Waiting(batch));
    }
  }

  // ---------- cutting the groups into windows ----------

  /** A window that may be run: its groups share one width, which it does not exceed. */
  ghost predicate WindowOk<V>(e: Setting<V>, w: seq<Group>) {
    w != [] && (forall i :: 0 <= i < |w| ==> e.width(w[i]) == e.width(w[0])) && |w| <= e.width(w[0])
  }

  ghost predicate WindowsOk<V>(e: Setting<V>, windows: seq<seq<Group>>) {
    forall i :: 0 <= i < |windows| ==> WindowOk(e, windows[i])
  }

  lemma {:induction false} NumbersGo<V>(e: Setting<V>, p: Pipe<V>, windows: seq<seq<Group>>, before: seq<seq<Group>>)
    requires e.capacity >= 1 && Numbered(Settled(e, p).batches, before)
    ensures Numbered(Settled(e, Pipelined(e, p, windows)).batches, before + windows)
    decreases |windows|
  {
    hide Prepared, Completed;
    if windows == [] {
      assert before + windows == before;
    } else {
      NumbersGo(e, Advance(e, p, windows[0]), windows[1..], before + [windows[0]]);
      assert before + windows == before + [windows[0]] + windows[1..];
    }
  }

  lemma NumbersAll<V>(e: Setting<V>, c: States<V>, windows: seq<seq<Group>>)
    requires e.capacity >= 1
    ensures Numbered(Settled(e, Pipelined(e, Pipe(c, [], Idle), windows)).batches, windows)
  {
    hide Pipelined;
    NumbersGo(e, Pipe(c, [], Idle), windows, []);
    assert [] + windows == windows;
  }

  lemma LevelOutcome<V>(e: Setting<V>, c: States<V>, windows: seq<seq<Group>>)
    requires e.capacity >= 1
    ensures Numbered(Settled(e, Pipelined(e, Pipe(c, [], Idle), windows)).batches, windows)
    ensures Fresh(c, Flat(windows)) && DistinctConds(Flat(windows)) ==>
      Settled(e, Pipelined(e, Pipe(c, [], Idle), windows)) == Unpipelined(e, Outcome(c, []), windows)
  {
    hide Pipelined, Flat, Fresh, DistinctConds, Unpipelined;
    NumbersAll(e, c, windows);
    if Fresh(c, Flat(windows)) && DistinctConds(Flat(windows)) {
      PipelineExact(e, Pipe(c, [], Idle), windows);
    }
  }

  // ---------- what the cache holds ----------

  /** A published request asked for this key, and this is what the optimizer found for that target. */
  ghost predicate Optimized<V(!new)>(e: Setting<V>, batches: seq<Batch>, b: (TargetKey, V)) {
    exists n: nat, i: nat, j: nat :: OptimizedAt(e, batches, b, n, i, j)
  }

  ghost predicate OptimizedAt<V>(e: Setting<V>, batches: seq<Batch>, b: (TargetKey, V), n: nat, i: nat, j: nat) {
    n < |batches| && i < |batches[n].requests| && AnswerOf(e, batches[n].requests[i], b, j)
  }

  /** The binding is the j-th result of the request, under the key of its j-th target. */
  ghost predicate AnswerOf<V>(e: Setting<V>, r: Request, b: (TargetKey, V), j: nat) {
    j < |r.targets| && b == ((r.cond, r.targets[j]), e.optimize(r, j))
  }

  lemma InsertedHolds<K, V>(l: Bindings<K, V>, k: K, v: V, capacity: nat, b: (K, V))
    requires capacity >= 1 && b in Inserted(l, k, v, capacity)
    ensures b == (k, v) || b in l
  {
    if b != (k, v) && Has(l, k) {
      assert b in Without(l, k);
      WithoutHolds(l, k, b);
    }
  }

  lemma {:induction false} WithoutHolds<K, V>(l: Bindings<K, V>, k: K, b: (K, V))
    requires b in Without(l, k)
    ensures b in l
  {
    if l[0].0 != k && b != l[0] {
      WithoutHolds(l[1..], k, b);
    }
  }

  lemma LookedHolds<K, V>(l: Bindings<K, V>, k: K, b: (K, V))
    requires b in Looked(l, k)
    ensures b in l
  {
    if Has(l, k) && b != (k, Find(l, k)) {
      WithoutHolds(l, k, b);
    }
  }

  lemma {:induction false} StoredHolds<V>(e: Setting<V>, c: States<V>, r: Request, n: nat, b: (TargetKey, V))
    requires n <= |r.targets| && e.capacity >= 1 && b in Stored(e, c, r, n)
    ensures b in c || exists j: nat :: AnswerOf(e, r, b, j)
  {
    hide Inserted;
    if n > 0 {
      InsertedHolds(Stored(e, c, r, n - 1), (r.cond, r.targets[n - 1]), e.optimize(r, n - 1), e.capacity, b);
      if b in Stored(e, c, r, n - 1) {
        StoredHolds(e, c, r, n - 1, b);
      } else {
        assert AnswerOf(e, r, b, n - 1);
      }
    }
  }

  /** Completing requests adds only their own results, each under its own target. */
  lemma {:induction false} CompletedHolds<V>(e: Setting<V>, c: States<V>, requests: seq<Request>, b: (TargetKey, V))
    requires e.capacity >= 1 && b in Completed(e, c, requests)
    ensures b in c || exists i: nat, j: nat :: i < |requests| && AnswerOf(e, requests[i], b, j)
    decreases |requests|
  {
    hide Stored, AnswerOf;
    if requests != [] {
      var next := Stored(e, c, requests[0], |requests[0].targets|);
      CompletedHolds(e, next, requests[1..], b);
      if b in next {
        StoredHolds(e, c, requests[0], |requests[0].targets|, b);
        if j: nat :| AnswerOf(e, requests[0], b, j) {
        }
      } else {
        var i: nat, j: nat :| i < |requests[1..]| && AnswerOf(e, requests[1..][i], b, j);
        assert AnswerOf(e, requests[i + 1], b, j);
      }
    }
  }

  lemma {:induction false} MissingHolds<V>(c: States<V>, cond: PreparedKey, targets: seq<nat>, b: (TargetKey, V))
    requires b in Missing(c, cond, targets).0
    ensures b in c
    decreases |targets|
  {
    hide Looked, Has;
    if targets != [] {
      MissingHolds(Looked(c, (cond, targets[0])), cond, targets[1..], b);
      LookedHolds(c, (cond, targets[0]), b);
    }
  }

  lemma {:induction false} PreparedHolds<V>(e: Setting<V>, c: States<V>, window: seq<Group>, b: (TargetKey, V))
    requires b in Prepared(e, c, window).0
    ensures b in c
    decreases |window|
  {
    hide Missing;
    if window != [] {
      PreparedHolds(e, Missing(c, window[0].cond, window[0].targets).0, window[1..], b);
      MissingHolds(c, window[0].cond, window[0].targets, b);
    }
  }

  /** Everything held was held at the start, with the same value, or is the result of a published request,
      under the key of its own target. */
  ghost predicate HoldsResults<V(!new)>(e: Setting<V>, c: States<V>, o: Outcome<V>) {
    forall b :: b in o.states ==> b in c || Optimized(e, o.batches, b)
  }

  lemma OptimizedMore<V(!new)>(e: Setting<V>, batches: seq<Batch>, last: Batch, b: (TargetKey, V))
    requires Optimized(e, batches, b) || exists i: nat, j: nat :: i < |last.requests| && AnswerOf(e, last.requests[i], b, j)
    ensures Optimized(e, batches + [last], b)
  {
    hide AnswerOf;
    var more := batches + [last];
    if Optimized(e, batches, b) {
      var n: nat, i: nat, j: nat :| OptimizedAt(e, batches, b, n, i, j);
      assert more[n] == batches[n];
      assert OptimizedAt(e, more, b, n, i, j);
    } else {
      var i: nat, j: nat :| i < |last.requests| && AnswerOf(e, last.requests[i], b, j);
      assert more[|batches|] == last;
      assert OptimizedAt(e, more, b, |batches|, i, j);
    }
  }

  lemma SettledHolds<V(!new)>(e: Setting<V>, c: States<V>, p: Pipe<V>)
    requires e.capacity >= 1 && HoldsResults(e, c, Outcome(p.states, p.batches))
    ensures HoldsResults(e, c, Settled(e, p))
  {
    hide Completed, Optimized;
    if p.pending.Waiting? {
      var batch := p.pending.batch;
      forall b | b in Settled(e, p).states
        ensures b in c || Optimized(e, p.batches + [batch], b)
      {
        CompletedHolds(e, p.states, batch.requests, b);
        if b !in c {
          OptimizedMore(e, p.batches, batch, b);
        }
      }
    }
  }

  lemma AdvanceHolds<V(!new)>(e: Setting<V>, c: States<V>, p: Pipe<V>, window: seq<Group>)
    requires e.capacity >= 1 && HoldsResults(e, c, Outcome(p.states, p.batches))
    ensures var q := Advance(e, p, window); HoldsResults(e, c, Outcome(q.states, q.batches))
  {
    hide Prepared, Completed, Optimized, Settled;
    var w := Prepared(e, p.states, window);
    forall b | b in w.0
      ensures b in c || Optimized(e, p.batches, b)
    {
      PreparedHolds(e, p.states, window, b);
    }
    var s := Settled(e, p.(states := w.0));
    SettledHolds(e, c, p.(states := w.0));
    var batch := Batch(|s.batches| + 1, |window|, w.1);
    forall b | b in s.states
      ensures b in c || Optimized(e, s.batches + [batch], b)
    {
      if b !in c {
        OptimizedMore(e, s.batches, batch, b);
      }
    }
  }

  lemma {:induction false} PipelinedHolds<V(!new)>(e: Setting<V>, c: States<V>, p: Pipe<V>, windows: seq<seq<Group>>)
    requires e.capacity >= 1 && HoldsResults(e, c, Outcome(p.states, p.batches))
    ensures HoldsResults(e, c, Settled(e, Pipelined(e, p, windows)))
    decreases |windows|
  {
    hide Advance, HoldsResults, Settled;
    if windows == [] {
      SettledHolds(e, c, p);
    } else {
      AdvanceHolds(e, c, p, windows[0]);
      PipelinedHolds(e, c, Advance(e, p, windows[0]), windows[1..]);
    }
  }

  /** The results of the requests, request by request and target by target, each with its target's key. */
  function Answers<V>(e: Setting<V>, requests: seq<Request>): seq<(TargetKey, V)> {
    if requests == [] then []
    else
      var r := requests[0];
      seq(|r.targets|, j requires 0 <= j < |r.targets| => ((r.cond, r.targets[j]), e.optimize(r, j))) + Answers(e, requests[1..])
  }

  function InsertedAll<K(==), V>(l: Bindings<K, V>, bs: seq<(K, V)>, capacity: nat): Bindings<K, V>
    requires capacity >= 1
    decreases |bs|
  {
    if bs == [] then l else Inserted(InsertedAll(l, bs[..|bs| - 1], capacity), bs[|bs| - 1].0, bs[|bs| - 1].1, capacity)
  }

  lemma {:induction false} InsertedAllSplit<K, V>(l: Bindings<K, V>, a: seq<(K, V)>, b: seq<(K, V)>, capacity: nat)
    requires capacity >= 1
    ensures InsertedAll(l, a + b, capacity) == InsertedAll(InsertedAll(l, a, capacity), b, capacity)
    decreases |b|
  {
    hide Inserted;
    if b == [] {
      assert a + b == a;
    } else {
      var n := |b| - 1;
      assert (a + b)[..|a + b| - 1] == a + b[..n];
      InsertedAllSplit(l, a, b[..n], capacity);
    }
  }

  lemma {:induction false} StoredInserts<V>(e: Setting<V>, c: States<V>, r: Request, n: nat, bs: seq<(TargetKey, V)>)
    requires n <= |r.targets| == |bs| && e.capacity >= 1 && forall j :: 0 <= j < |bs| ==> AnswerOf(e, r, bs[j], j)
    ensures Stored(e, c, r, n) == InsertedAll(c, bs[..n], e.capacity)
  {
    hide Inserted;
    if n > 0 {
      StoredInserts(e, c, r, n - 1, bs);
      assert bs[..n][..n - 1] == bs[..n - 1] && AnswerOf(e, r, bs[n - 1], n - 1);
    }
  }

  /** Completing requests inserts exactly these results, in this order. */
  lemma {:induction false} CompletedInserts<V>(e: Setting<V>, c: States<V>, requests: seq<Request>)
    requires e.capacity >= 1
    ensures Completed(e, c, requests) == InsertedAll(c, Answers(e, requests), e.capacity)
    decreases |requests|
  {
    hide Inserted, Stored;
    if requests != [] {
      var r := requests[0];
      var bs := seq(|r.targets|, j requires 0 <= j < |r.targets| => ((r.cond, r.targets[j]), e.optimize(r, j)));
      StoredInserts(e, c, r, |bs|, bs);
      assert bs[..|bs|] == bs;
      CompletedInserts(e, Stored(e, c, r, |bs|), requests[1..]);
      hide InsertedAll;
      InsertedAllSplit(c, bs, Answers(e, requests[1..]), e.capacity);
      assert Answers(e, requests) == bs + Answers(e, requests[1..]);
    }
  }

  ghost predicate DistinctFirst<K, V>(bs: seq<(K, V)>) {
    forall i, j :: 0 <= i < j < |bs| ==> bs[i].0 != bs[j].0
  }

  /** The last results inserted under different keys are held, latest first, up to the capacity. */
  lemma {:induction false} LatestHeld<K, V>(l: Bindings<K, V>, bs: seq<(K, V)>, capacity: nat, j: nat)
    requires capacity >= 1 && DistinctFirst(bs) && j < |bs| <= j + capacity
    ensures |bs| - 1 - j < |InsertedAll(l, bs, capacity)| && InsertedAll(l, bs, capacity)[|bs| - 1 - j] == bs[j]
    decreases |bs|
  {
    hide Inserted;
    var n := |bs| - 1;
    var before := InsertedAll(l, bs[..n], capacity);
    InsertedFirst(before, bs[n].0, bs[n].1, capacity);
    if j < n {
      forall q: nat | q <= n - 1 - j
        ensures q < |before| && before[q].0 != bs[n].0
      {
        LatestHeld(l, bs[..n], capacity, n - 1 - q);
      }
      LatestHeld(l, bs[..n], capacity, j);
      hide InsertedAll;
      InsertedFront(before, bs[n].0, bs[n].1, capacity, n - 1 - j);
    }
  }

  lemma InsertedFirst<K, V>(l: Bindings<K, V>, k: K, v: V, capacity: nat)
    requires capacity >= 1
    ensures Inserted(l, k, v, capacity) != [] && Inserted(l, k, v, capacity)[0] == (k, v)
  {
  }

  lemma InsertedFront<K, V>(l: Bindings<K, V>, k: K, v: V, capacity: nat, q: nat)
    requires q + 1 < capacity && q < |l| && forall i: nat :: i <= q ==> l[i].0 != k
    ensures q + 1 < |Inserted(l, k, v, capacity)| && Inserted(l, k, v, capacity)[q + 1] == l[q]
  {
    WithoutFront(l, k, q);
  }

  lemma {:induction false} WithoutFront<K, V>(l: Bindings<K, V>, k: K, q: nat)
    requires q < |l| && forall i: nat :: i <= q ==> l[i].0 != k
    ensures q < |Without(l, k)| && Without(l, k)[q] == l[q]
    decreases q
  {
    if q > 0 {
      assert forall i: nat :: i <= q - 1 ==> l[1..][i] == l[i + 1];
      WithoutFront(l[1..], k, q - 1);
    }
  }

  // ---------- what a window asks for ----------

  lemma {:induction false} WithoutHas<K, V>(l: Bindings<K, V>, k: K, x: K)
    requires Has(l, x) && x != k
    ensures Has(Without(l, k), x)
  {
    var i :| 0 <= i < |l| && l[i].0 == x;
    if i > 0 {
      assert l[1..][i - 1] == l[i];
      if l[0].0 != k {
        WithoutHas(l[1..], k, x);
        var w := Without(l[1..], k);
        var j :| 0 <= j < |w| && w[j].0 == x;
        assert Without(l, k)[j + 1] == w[j];
      }
    } else {
      assert Without(l, k)[0] == l[0];
    }
  }

  /** A lookup changes the order of the cache, not its keys. */
  lemma LookedSame<K, V>(l: Bindings<K, V>, k: K, x: K)
    ensures Has(Looked(l, k), x) <==> Has(l, x)
  {
    if Has(l, k) {
      var r := Looked(l, k);
      assert r[0].0 == k;
      if Has(l, x) && x != k {
        WithoutHas(l, k, x);
        var j :| 0 <= j < |Without(l, k)| && Without(l, k)[j].0 == x;
        assert r[j + 1] == Without(l, k)[j];
      }
      if Has(r, x) && x != k {
        var j :| 0 <= j < |r| && r[j].0 == x;
        assert r[j] in Without(l, k);
        WithoutKeeps(l, k, r[j]);
      }
    }
  }

  /** The targets of a group without a cached state. */
  ghost function Uncached<V>(c: States<V>, g: Group): set<nat> {
    set t | t in g.targets && !Has(c, (g.cond, t))
  }

  ghost predicate AscendingTargets(s: seq<nat>) {
    forall i, j :: 0 <= i < j < |s| ==> s[i] < s[j]
  }

  /** A request of the group: its uncached targets, ascending. */
  ghost predicate RequestOf<V>(c: States<V>, g: Group, r: Request) {
    r.cond == g.cond && AscendingTargets(r.targets) && forall t :: t in r.targets <==> t in Uncached(c, g)
  }

  ghost predicate SameKeys<V>(c: States<V>, d: States<V>) {
    forall x :: Has(c, x) <==> Has(d, x)
  }

  lemma {:induction false} MissingIs<V>(c: States<V>, cond: PreparedKey, targets: seq<nat>)
    requires AscendingTargets(targets)
    ensures var (d, missing) := Missing(c, cond, targets);
            SameKeys(c, d) && RequestOf(c, Group(cond, targets), Request(cond, missing))
    decreases |targets|
  {
    hide Looked, Has;
    if targets != [] {
      var k := (cond, targets[0]);
      var l := Looked(c, k);
      forall x
        ensures Has(l, x) <==> Has(c, x)
      {
        LookedSame(c, k, x);
      }
      MissingIs(l, cond, targets[1..]);
      assert targets == [targets[0]] + targets[1..];
      var rest := Missing(l, cond, targets[1..]).1;
      forall i | 0 <= i < |rest|
        ensures targets[0] < rest[i]
      {
        assert rest[i] in Uncached(l, Group(cond, targets[1..]));
        var j :| 0 <= j < |targets[1..]| && targets[1..][j] == rest[i];
        assert targets[j + 1] == rest[i];
      }
    }
  }

  lemma {:induction false} AscendingSize(s: seq<nat>, u: set<nat>)
    requires AscendingTargets(s) && forall t :: t in s <==> t in u
    ensures |s| == |u|
    decreases |s|
  {
    if s == [] {
      assert u == {};
    } else {
      var n := |s| - 1;
      assert s == s[..n] + [s[n]];
      assert s[n] in u && s[n] !in s[..n];
      AscendingSize(s[..n], u - {s[n]});
    }
  }

  ghost predicate Orderly(window: seq<Group>) {
    forall i :: 0 <= i < |window| ==> AscendingTargets(window[i].targets)
  }

  /** The requests come from the groups at these places, in order, and from every group with enough
      uncached targets. */
  ghost predicate RequestsOf<V>(least: nat, c: States<V>, window: seq<Group>, requests: seq<Request>, at: seq<nat>) {
    && |at| == |requests| && AscendingTargets(at)
    && (forall k :: 0 <= k < |at| ==> at[k] < |window| && RequestOf(c, window[at[k]], requests[k]))
    && (forall i: nat :: i < |window| ==> (i in at <==> |Uncached(c, window[i])| >= least))
  }

  function Later(at: seq<nat>): (r: seq<nat>)
    ensures |r| == |at| && forall k :: 0 <= k < |at| ==> r[k] == at[k] + 1
  {
    seq(|at|, k requires 0 <= k < |at| => at[k] + 1)
  }

  lemma RequestsSame<V>(least: nat, c: States<V>, d: States<V>, window: seq<Group>, requests: seq<Request>, at: seq<nat>)
    requires SameKeys(c, d) && RequestsOf(least, d, window, requests, at)
    ensures RequestsOf(least, c, window, requests, at)
  {
    hide Has;
    forall i | 0 <= i < |window|
      ensures Uncached(c, window[i]) == Uncached(d, window[i])
    {
    }
    hide Uncached, SameKeys;
  }

  lemma LaterHas(at: seq<nat>, i: nat)
    ensures i + 1 in Later(at) <==> i in at
    ensures AscendingTargets(at) ==> AscendingTargets(Later(at)) && AscendingTargets([0] + Later(at))
  {
    var more := Later(at);
    if i in at {
      var k :| 0 <= k < |at| && at[k] == i;
      assert more[k] == i + 1;
    }
  }

  lemma SkipGroup<V>(least: nat, c: States<V>, g: Group, window: seq<Group>, requests: seq<Request>, at: seq<nat>)
    requires RequestsOf(least, c, window, requests, at) && |Uncached(c, g)| < least
    ensures RequestsOf(least, c, [g] + window, requests, Later(at))
  {
    hide Uncached, RequestOf, AscendingTargets;
    var all, more := [g] + window, Later(at);
    LaterHas(at, 0);
    forall i: nat | i < |all|
      ensures i in more <==> |Uncached(c, all[i])| >= least
    {
      if i > 0 {
        LaterHas(at, i - 1);
      }
    }
  }

  lemma AskedPlaces<V>(least: nat, c: States<V>, g: Group, window: seq<Group>, requests: seq<Request>, at: seq<nat>, i: nat)
    requires RequestsOf(least, c, window, requests, at) && |Uncached(c, g)| >= least && i < |[g] + window|
    ensures i in [0] + Later(at) <==> |Uncached(c, ([g] + window)[i])| >= least
  {
    hide Uncached, RequestOf, AscendingTargets;
    LaterHas(at, 0);
    if i > 0 {
      LaterHas(at, i - 1);
    }
    hide Later;
  }

  lemma AskedRequest<V>(least: nat, c: States<V>, g: Group, r: Request, window: seq<Group>, requests: seq<Request>, at: seq<nat>, k: nat)
    requires RequestsOf(least, c, window, requests, at) && RequestOf(c, g, r) && k <= |at|
    ensures var more := [0] + Later(at);
            more[k] < |[g] + window| && RequestOf(c, ([g] + window)[more[k]], ([r] + requests)[k])
  {
    hide RequestOf, AscendingTargets;
    if k > 0 {
      assert RequestOf(c, window[at[k - 1]], requests[k - 1]);
      assert ([0] + Later(at))[k] == at[k - 1] + 1;
    }
  }

  lemma AskGroup<V>(least: nat, c: States<V>, g: Group, r: Request, window: seq<Group>, requests: seq<Request>, at: seq<nat>)
    requires RequestsOf(least, c, window, requests, at) && RequestOf(c, g, r) && |Uncached(c, g)| >= least
    ensures RequestsOf(least, c, [g] + window, [r] + requests, [0] + Later(at))
  {
    hide Uncached, RequestOf, AscendingTargets;
    var all, more, asked := [g] + window, [0] + Later(at), [r] + requests;
    LaterHas(at, 0);
    assert |more| == |asked|;
    forall i: nat | i < |all|
      ensures i in more <==> |Uncached(c, all[i])| >= least
    {
      AskedPlaces(least, c, g, window, requests, at, i);
    }
    forall k | 0 <= k < |more|
      ensures more[k] < |all| && RequestOf(c, all[more[k]], asked[k])
    {
      AskedRequest(least, c, g, r, window, requests, at, k);
    }
  }

  /** What preparing a window asks for: the uncached targets of every group that has enough of them, group
      after group. The lookups change no key. */
  lemma {:induction false} PreparedRequests<V>(e: Setting<V>, c: States<V>, window: seq<Group>) returns (at: seq<nat>)
    requires Orderly(window)
    ensures SameKeys(c, Prepared(e, c, window).0) && RequestsOf(e.least, c, window, Prepared(e, c, window).1, at)
    decreases |window|
  {
    if window == [] {
      at := [];
    } else {
      var g := window[0];
      MissingIs(c, g.cond, g.targets);
      var m := Missing(c, g.cond, g.targets);
      var r := Request(g.cond, m.1);
      assert Group(g.cond, g.targets) == g;
      AscendingSize(m.1, Uncached(c, g));
      hide Missing, Uncached, RequestOf, AscendingTargets, Has;
      var places := PreparedRequests(e, m.0, window[1..]);
      var requests := Prepared(e, m.0, window[1..]).1;
      RequestsSame(e.least, c, m.0, window[1..], requests, places);
      hide RequestsOf;
      assert [g] + window[1..] == window;
      if |m.1| >= e.least {
        AskGroup(e.least, c, g, r, window[1..], requests, places);
        at := [0] + Later(places);
      } else {
        SkipGroup(e.least, c, g, window[1..], requests, places);
        at := Later(places);
      }
    }
  }

  /** Runs the collected window and empties it. */
  method CloseWindow<V>(e: Setting<V>, ghost start: Pipe<V>, p: Pipe<V>, windows: seq<seq<Group>>, window: seq<Group>)
    returns (q: Pipe<V>, more: seq<seq<Group>>)
    requires e.capacity >= 1 && p == Pipelined(e, start, windows) && WindowsOk(e, windows) && WindowOk(e, window)
    ensures q == Pipelined(e, start, more) && WindowsOk(e, more) && Flat(more) == Flat(windows) + window
  {
    hide Advance, Pipelined, Flat, WindowOk;
    q := RunWindow(e, p, window);
    PipelinedLast(e, start, windows, window);
    FlatLast(windows, window);
    more := windows + [window];
  }

  ghost predicate LevelOk<V>(e: Setting<V>, c: States<V>, p: Pipe<V>, windows: seq<seq<Group>>, window: seq<Group>, done: seq<Group>)
    requires e.capacity >= 1
  {
    && Flat(windows) + window == done && WindowsOk(e, windows)
    && (window != [] ==> WindowOk(e, window) && |window| < e.width(window[0]))
    && p == Pipelined(e, Pipe(c, [], Idle), windows)
  }

  /** Takes one more group in, running the collected window before it if the widths differ, and after it
      if the window is full. */
  method TakeGroup<V>(e: Setting<V>, ghost c: States<V>, p0: Pipe<V>, windows0: seq<seq<Group>>, window0: seq<Group>,
                      g: Group, ghost done: seq<Group>)
    returns (p: Pipe<V>, windows: seq<seq<Group>>, window: seq<Group>)
    requires e.Valid() && LevelOk(e, c, p0, windows0, window0, done)
    ensures LevelOk(e, c, p, windows, window, done + [g])
  {
    hide WindowOk, WindowsOk, Flat, Pipelined;
    ghost var start := Pipe(c, [], Idle);
    p, windows, window := p0, windows0, window0;
    if window != [] && e.width(g) != e.width(window[0]) {
      p, windows := CloseWindow(e, start, p, windows, window);
      window := [];
    }
    AddGroup(e, window, g);
    window := window + [g];
    assert Flat(windows) + window == done + [g];
    if |window| == e.width(g) {
      p, windows := CloseWindow(e, start, p, windows, window);
      window := [];
    }
  }

  /** Runs the level: cuts the groups into windows, keeping them in order, and runs the pipeline over
      them. The batches come in window order. */
  method PrefillLevel<V(!new)>(e: Setting<V>, c: States<V>, groups: seq<Group>)
    returns (o: Outcome<V>, windows: seq<seq<Group>>)
    requires e.Valid()
    ensures Flat(windows) == groups && WindowsOk(e, windows) && Numbered(o.batches, windows)
    ensures o == Settled(e, Pipelined(e, Pipe(c, [], Idle), windows)) && HoldsResults(e, c, o)
    ensures Fresh(c, groups) && DistinctConds(groups) ==> o == Unpipelined(e, Outcome(c, []), windows)
  {
    var p := Pipe(c, [], Idle);
    var window: seq<Group> := [];
    windows := [];
    assert LevelOk(e, c, p, windows, window, groups[..0]);
    for i := 0 to |groups|
      invariant LevelOk(e, c, p, windows, window, groups[..i])
    {
      hide LevelOk;
      p, windows, window := TakeGroup(e, c, p, windows, window, groups[i], groups[..i]);
      assert groups[..i + 1] == groups[..i] + [groups[i]];
    }
    hide Fresh, DistinctConds, Unpipelined, Flat, Pipelined, Numbered, WindowOk, WindowsOk;
    assert groups[..|groups|] == groups;
    if window != [] {
      p, windows := CloseWindow(e, Pipe(c, [], Idle), p, windows, window);
    }
    LevelOutcome(e, c, windows);
    PipelinedHolds(e, c, Pipe(c, [], Idle), windows);
    hide HoldsResults;
    p := FinishPending(e, p);
    o := Outcome(p.states, p.batches);
  }

  lemma DistinctTail(window: seq<Group>, rest: seq<Group>)
    requires DistinctConds(window + rest)
    ensures DistinctConds(rest)
  {
    assert forall i :: 0 <= i < |rest| ==> rest[i] == (window + rest)[|window| + i];
  }

  lemma {:induction false} FlatLast(windows: seq<seq<Group>>, window: seq<Group>)
    ensures Flat(windows + [window]) == Flat(windows) + window
  {
    if windows == [] {
      assert windows + [window] == [window] && [window][1..] == [];
    } else {
      assert (windows + [window])[1..] == windows[1..] + [window];
      FlatLast(windows[1..], window);
    }
  }

  lemma AddGroup<V>(e: Setting<V>, window: seq<Group>, g: Group)
    requires e.Valid()
    requires window != [] ==> WindowOk(e, window) && |window| < e.width(window[0]) && e.width(g) == e.width(window[0])
    ensures WindowOk(e, window + [g]) && e.width((window + [g])[0]) == e.width(g)
  {
  }

  // ---------- cohorts ----------

  function CohortCount(total: nat): nat { (total + 15) / COHORT }

  lemma CohortBounds(total: nat, count: nat, cohort: nat)
    requires total > 0 && count == CohortCount(total) && cohort < count
    ensures total >= 2 ==> 2 <= total / count + (if cohort < total % count then 1 else 0)
    ensures total / count + (if cohort < total % count then 1 else 0) <= COHORT
  {
    var q, r := total / count, total % count;
    assert total == q * count + r && 0 <= r < count;
    assert COHORT * (count - 1) < total <= COHORT * count;
    if q < 2 {
      MulMonotone(q, 1, count);
    }
    if q > COHORT {
      MulMonotone(COHORT + 1, q, count);
    }
  }

  /** Where the c-th of a number of shares ends, the first `extra` shares being one larger. */
  function EvenEnd(share: nat, extra: nat, c: nat): nat {
    if c == 0 then 0 else EvenEnd(share, extra, c - 1) + share + (if c - 1 < extra then 1 else 0)
  }

  lemma {:induction false} EvenEndIs(share: nat, extra: nat, c: nat)
    ensures EvenEnd(share, extra, c) == c * share + (if c < extra then c else extra)
  {
    if c > 0 {
      EvenEndIs(share, extra, c - 1);
    }
  }

  lemma EvenEndAll(total: nat, count: nat)
    requires count > 0
    ensures EvenEnd(total / count, total % count, count) == total
  {
    EvenEndIs(total / count, total % count, count);
  }

  lemma CohortLast(total: nat, ends: seq<nat>)
    requires ends != [] && |ends| <= CohortCount(total) && total > 0
    requires ends[|ends| - 1] == End(ends, |ends| - 1)
             + (total / CohortCount(total) + (if |ends| - 1 < total % CohortCount(total) then 1 else 0))
    ensures CohortOk(total, ends, |ends| - 1)
  {
    CohortBounds(total, CohortCount(total), |ends| - 1);
    if total == 1 {
      assert CohortCount(total) == 1;
    }
  }

  lemma CohortKeeps(total: nat, ends: seq<nat>, more: seq<nat>, c: nat)
    requires total > 0 && c < |ends| && ends <= more && CohortOk(total, ends, c)
    ensures CohortOk(total, more, c)
  {
  }

  ghost predicate CohortsOk(total: nat, ends: seq<nat>) {
    total > 0 ==> forall c :: 0 <= c < |ends| ==> CohortOk(total, ends, c)
  }

  lemma CohortsGrow(total: nat, ends: seq<nat>, end: nat)
    requires total > 0 && CohortsOk(total, ends) && CohortOk(total, ends + [end], |ends|)
    ensures CohortsOk(total, ends + [end])
  {
    hide CohortOk;
    forall c | 0 <= c < |ends|
      ensures CohortOk(total, ends + [end], c)
    {
      CohortKeeps(total, ends, ends + [end], c);
    }
  }

  /** Cuts a request's targets into consecutive cohorts: as few as fit sixteen each, of sizes differing
      by at most one, none of size one unless the request is. Returns the cohorts' ends. */
  method CutCohorts(total: nat) returns (ends: seq<nat>)
    ensures |ends| == CohortCount(total) && (total > 0 ==> ends != [] && ends[|ends| - 1] == total)
    ensures CohortsOk(total, ends)
  {
    var count := CohortCount(total);
    ends := [];
    var offset := 0;
    hide CohortOk, CohortsOk, EvenEnd;
    EvenEndStart(total);
    for c := 0 to count
      invariant |ends| == c && offset == End(ends, c) && CohortsOk(total, ends)
      invariant count > 0 ==> offset == EvenEnd(total / count, total % count, c)
    {
      EvenEndNext(total / count, total % count, c);
      offset := offset + (total / count + (if c < total % count then 1 else 0));
      CohortLast(total, ends + [offset]);
      CohortsGrow(total, ends, offset);
      ends := ends + [offset];
    }
    if total > 0 {
      EvenEndAll(total, count);
    }
  }

  lemma EvenEndStart(total: nat)
    ensures CohortsOk(total, []) && forall share, extra :: EvenEnd(share, extra, 0) == 0
  {
  }

  lemma EvenEndNext(share: nat, extra: nat, c: nat)
    ensures EvenEnd(share, extra, c + 1) == EvenEnd(share, extra, c) + share + (if c < extra then 1 else 0)
  {
  }

  function End(ends: seq<nat>, c: nat): nat
    requires c <= |ends|
  {
    if c == 0 then 0 else ends[c - 1]
  }

  ghost predicate CohortOk(total: nat, ends: seq<nat>, c: nat)
    requires c < |ends| && total > 0
  {
    && End(ends, c) < ends[c] <= End(ends, c) + COHORT
    && (total >= 2 ==> End(ends, c) + 2 <= ends[c])
    && (ends[c] - End(ends, c) == total / CohortCount(total) || ends[c] - End(ends, c) == total / CohortCount(total) + 1)
  }
}
