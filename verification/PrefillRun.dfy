/** The prefill over a whole run: each level's groups come from its plan, by conditioning set; the levels
    before only left states of smaller sets; so on a dataset nothing was cached for, pipelining the windows
    changes nothing at any level. */
module PrefillRun {
  import opened Decimal
  import opened Grids
  import opened LayerPlan
  import opened LruCache
  import opened Ordering
  import opened Prefill

  // ---------------------------------------------------------- tasks by conditioning set

  datatype Bucket = Bucket(key: string, tasks: seq<nat>)

  /** One smooth serves up to two conditioning variables; the multi-penalty setups serve more. */
  predicate Served(t: Task, multi: bool) {
    if multi then |t.conditioning| > 2 else 1 <= |t.conditioning| <= 2
  }

  /** The served tasks of one conditioning set among the first n, in plan order. */
  function Having(plan: seq<Task>, multi: bool, k: string, n: nat): seq<nat>
    requires n <= |plan|
  {
    if n == 0 then []
    else Having(plan, multi, k, n - 1)
         + (if Served(plan[n - 1], multi) && ConditioningKey(plan[n - 1].conditioning) == k then [n - 1] else [])
  }

  ghost predicate KeysAscend(b: seq<Bucket>) {
    forall i, j :: 0 <= i < j < |b| ==> Less(b[i].key, b[j].key)
  }

  function At(b: seq<Bucket>, k: string): seq<nat> {
    if b == [] then [] else if b[0].key == k then b[0].tasks else At(b[1..], k)
  }

  /** Appends a task to the entry of its key, made at its place in the order if there is none. */
  function Placed(b: seq<Bucket>, k: string, i: nat): seq<Bucket> {
    if b == [] || Less(k, b[0].key) then [Bucket(k, [i])] + b
    else if b[0].key == k then [Bucket(k, b[0].tasks + [i])] + b[1..]
    else [b[0]] + Placed(b[1..], k, i)
  }

  lemma {:induction false} BelowAll(b: seq<Bucket>, k: string)
    requires KeysAscend(b) && (b != [] ==> Less(k, b[0].key))
    ensures At(b, k) == []
    decreases |b|
  {
    hide Less;
    if b != [] {
      LessIrreflexive(k);
      if |b| > 1 {
        LessTransitive(k, b[0].key, b[1].key);
      }
      BelowAll(b[1..], k);
    }
  }

  lemma {:induction false} PlacedAt(b: seq<Bucket>, k: string, i: nat, x: string)
    requires KeysAscend(b)
    ensures At(Placed(b, k, i), x) == if x == k then At(b, k) + [i] else At(b, x)
    decreases |b|
  {
    hide Less;
    if b == [] || Less(k, b[0].key) {
      BelowAll(b, k);
      assert Placed(b, k, i)[1..] == b && [] + [i] == [i];
    } else if b[0].key == k {
      assert Placed(b, k, i)[1..] == b[1..];
    } else {
      PlacedAt(b[1..], k, i, x);
      assert Placed(b, k, i)[1..] == Placed(b[1..], k, i);
    }
  }

  lemma {:induction false} PlacedKeys(b: seq<Bucket>, k: string, i: nat, j: nat)
    requires j < |Placed(b, k, i)|
    ensures Placed(b, k, i)[j].key == k || exists m :: 0 <= m < |b| && b[m].key == Placed(b, k, i)[j].key
    decreases |b|
  {
    hide Less;
    var r := Placed(b, k, i);
    if b == [] || Less(k, b[0].key) {
      if j > 0 { assert r[j] == b[j - 1]; }
    } else if b[0].key == k {
      if j > 0 { assert r[j] == b[j]; }
    } else if j > 0 {
      PlacedKeys(b[1..], k, i, j - 1);
      if r[j].key != k {
        var m :| 0 <= m < |b[1..]| && b[1..][m].key == r[j].key;
        assert b[m + 1].key == r[j].key;
      }
    } else {
      assert r[0] == b[0];
    }
  }

  lemma {:induction false} PlacedAscends(b: seq<Bucket>, k: string, i: nat)
    requires KeysAscend(b)
    ensures KeysAscend(Placed(b, k, i))
    decreases |b|
  {
    hide Less;
    if b == [] {
    } else if Less(k, b[0].key) {
      forall j | 0 <= j < |b|
        ensures Less(k, b[j].key)
      {
        if j > 0 { LessTransitive(k, b[0].key, b[j].key); }
      }
    } else if b[0].key != k {
      LessTotal(k, b[0].key);
      PlacedAscends(b[1..], k, i);
      var r := Placed(b[1..], k, i);
      forall j | 0 <= j < |r|
        ensures Less(b[0].key, r[j].key)
      {
        PlacedKeys(b[1..], k, i, j);
        if r[j].key != k {
          var m :| 0 <= m < |b[1..]| && b[1..][m].key == r[j].key;
          assert Less(b[0].key, b[m + 1].key);
        }
      }
    }
  }

  ghost predicate NonEmpty(b: seq<Bucket>) {
    forall j :: 0 <= j < |b| ==> b[j].tasks != []
  }

  lemma {:induction false} PlacedNonEmpty(b: seq<Bucket>, k: string, i: nat)
    requires NonEmpty(b)
    ensures NonEmpty(Placed(b, k, i))
    decreases |b|
  {
    hide Less;
    if b != [] {
      PlacedNonEmpty(b[1..], k, i);
    }
  }

  /** The entries hold the served tasks among the first n, each under its own key, and no empty entry. */
  ghost predicate Grouped(plan: seq<Task>, multi: bool, n: nat, b: seq<Bucket>)
    requires n <= |plan|
  {
    KeysAscend(b) && NonEmpty(b) && forall k :: At(b, k) == Having(plan, multi, k, n)
  }

  lemma GroupedNext(plan: seq<Task>, multi: bool, n: nat, b: seq<Bucket>)
    requires n < |plan| && Grouped(plan, multi, n, b)
    ensures var k := ConditioningKey(plan[n].conditioning);
            Grouped(plan, multi, n + 1, if Served(plan[n], multi) then Placed(b, k, n) else b)
  {
    hide KeysAscend, NonEmpty, Placed, At, ConditioningKey, Served;
    var k := ConditioningKey(plan[n].conditioning);
    if Served(plan[n], multi) {
      PlacedAscends(b, k, n);
      PlacedNonEmpty(b, k, n);
      forall x
        ensures At(Placed(b, k, n), x) == Having(plan, multi, x, n + 1)
      {
        PlacedAt(b, k, n, x);
        assert At(b, x) == Having(plan, multi, x, n) && At(b, x) + [] == At(b, x);
      }
    } else {
      forall x
        ensures At(b, x) == Having(plan, multi, x, n + 1)
      {
        assert At(b, x) == Having(plan, multi, x, n) && At(b, x) + [] == At(b, x);
      }
    }
  }

  method GroupTasks(plan: seq<Task>, multi: bool) returns (b: seq<Bucket>)
    ensures Grouped(plan, multi, |plan|, b)
  {
    b := [];
    for n := 0 to |plan|
      invariant Grouped(plan, multi, n, b)
    {
      hide Grouped;
      GroupedNext(plan, multi, n, b);
      if Served(plan[n], multi) {
        b := Placed(b, ConditioningKey(plan[n].conditioning), n);
      }
    }
  }

  // ---------------------------------------------------------------- targets of a group

  /** A member joins an ascending set. */
  function Joining(s: seq<nat>, v: nat): seq<nat> {
    if s == [] || v < s[0] then [v] + s else if v == s[0] then s else [s[0]] + Joining(s[1..], v)
  }

  lemma {:induction false} JoiningHas(s: seq<nat>, v: nat, x: nat)
    ensures x in Joining(s, v) <==> x == v || x in s
    decreases |s|
  {
    if s != [] && v > s[0] {
      JoiningHas(s[1..], v, x);
      assert s == [s[0]] + s[1..];
    }
  }

  lemma AscendingPush(v: nat, s: seq<nat>)
    requires Ascending(s) && forall i :: 0 <= i < |s| ==> v < s[i]
    ensures Ascending([v] + s)
  {
  }

  lemma {:induction false} JoiningAscends(s: seq<nat>, v: nat)
    requires Ascending(s)
    ensures Ascending(Joining(s, v))
    decreases |s|
  {
    if s == [] || v < s[0] {
      AscendingPush(v, s);
    } else if v > s[0] {
      JoiningAscends(s[1..], v);
      var r := Joining(s[1..], v);
      forall i | 0 <= i < |r|
        ensures s[0] < r[i]
      {
        JoiningHas(s[1..], v, r[i]);
        assert r[i] in r;
      }
      AscendingPush(s[0], r);
    }
  }

  ghost predicate TargetOf(plan: seq<Task>, tasks: seq<nat>, t: nat) {
    exists i :: 0 <= i < |tasks| && tasks[i] < |plan| && (t == plan[tasks[i]].orientX || t == plan[tasks[i]].orientY)
  }

  /** The variables the tasks of a group relate, ascending and without repetition. */
  ghost predicate TargetsAre(plan: seq<Task>, tasks: seq<nat>, targets: seq<nat>) {
    Ascending(targets) && forall t :: t in targets <==> TargetOf(plan, tasks, t)
  }

  lemma TargetsNext(plan: seq<Task>, tasks: seq<nat>, i: nat, targets: seq<nat>)
    requires i < |plan| && TargetsAre(plan, tasks, targets)
    ensures TargetsAre(plan, tasks + [i], Joining(Joining(targets, plan[i].orientX), plan[i].orientY))
  {
    hide Ascending, Joining;
    var x, y := plan[i].orientX, plan[i].orientY;
    JoiningAscends(targets, x);
    JoiningAscends(Joining(targets, x), y);
    forall t
      ensures t in Joining(Joining(targets, x), y) <==> t in targets || t == x || t == y
    {
      JoiningHas(targets, x, t);
      JoiningHas(Joining(targets, x), y, t);
    }
    var more := tasks + [i];
    forall t
      ensures TargetOf(plan, more, t) <==> TargetOf(plan, tasks, t) || t == x || t == y
    {
      if TargetOf(plan, tasks, t) {
        var j :| 0 <= j < |tasks| && tasks[j] < |plan| && (t == plan[tasks[j]].orientX || t == plan[tasks[j]].orientY);
        assert more[j] == tasks[j];
      }
      assert more[|tasks|] == i;
    }
  }

  method CollectTargets(plan: seq<Task>, tasks: seq<nat>) returns (targets: seq<nat>)
    requires forall i :: 0 <= i < |tasks| ==> tasks[i] < |plan|
    ensures TargetsAre(plan, tasks, targets)
  {
    targets := [];
    for n := 0 to |tasks|
      invariant TargetsAre(plan, tasks[..n], targets)
    {
      hide TargetsAre;
      TargetsNext(plan, tasks[..n], tasks[n], targets);
      assert tasks[..n + 1] == tasks[..n] + [tasks[n]];
      targets := Joining(targets, plan[tasks[n]].orientX);
      targets := Joining(targets, plan[tasks[n]].orientY);
    }
    assert tasks[..|tasks|] == tasks;
  }

  // ------------------------------------------------------------------- groups of a plan

  ghost predicate GroupIs(dataset: string, plan: seq<Task>, b: Bucket, g: Group) {
    g.cond == PreparedKey(dataset, b.key) && TargetsAre(plan, b.tasks, g.targets)
  }

  /** One group per conditioning set of the plan, in the order of their keys. */
  ghost predicate GroupsAre(dataset: string, plan: seq<Task>, b: seq<Bucket>, groups: seq<Group>) {
    |groups| == |b| && forall i :: 0 <= i < |b| ==> GroupIs(dataset, plan, b[i], groups[i])
  }

  lemma {:induction false} HavingTasks(plan: seq<Task>, multi: bool, k: string, n: nat, i: nat)
    requires n <= |plan| && i < |Having(plan, multi, k, n)|
    ensures Having(plan, multi, k, n)[i] < n && ConditioningKey(plan[Having(plan, multi, k, n)[i]].conditioning) == k
    decreases n
  {
    hide ConditioningKey, Served;
    if i < |Having(plan, multi, k, n - 1)| {
      HavingTasks(plan, multi, k, n - 1, i);
    }
  }

  lemma {:induction false} AtIs(b: seq<Bucket>, i: nat)
    requires KeysAscend(b) && i < |b|
    ensures At(b, b[i].key) == b[i].tasks
    decreases i
  {
    hide Less;
    if i > 0 {
      LessIrreflexive(b[0].key);
      AtIs(b[1..], i - 1);
    }
  }

  /** Every entry has the tasks of its key, and there are some. */
  lemma BucketTasks(plan: seq<Task>, multi: bool, b: seq<Bucket>, i: nat)
    requires Grouped(plan, multi, |plan|, b) && i < |b|
    ensures b[i].tasks == Having(plan, multi, b[i].key, |plan|) && b[i].tasks != []
    ensures forall j :: 0 <= j < |b[i].tasks| ==> b[i].tasks[j] < |plan|
  {
    hide KeysAscend, Having, At;
    AtIs(b, i);
    forall j | 0 <= j < |b[i].tasks|
      ensures b[i].tasks[j] < |plan|
    {
      HavingTasks(plan, multi, b[i].key, |plan|, j);
    }
  }

  method GroupPlan(dataset: string, plan: seq<Task>, multi: bool) returns (groups: seq<Group>)
    ensures exists b :: Grouped(plan, multi, |plan|, b) && GroupsAre(dataset, plan, b, groups)
  {
    var buckets := GroupTasks(plan, multi);
    ghost var b := buckets;
    groups := [];
    hide Grouped, GroupIs;
    for i := 0 to |buckets|
      invariant GroupsAre(dataset, plan, b[..i], groups)
    {
      BucketTasks(plan, multi, b, i);
      var targets := CollectTargets(plan, buckets[i].tasks);
      var g := Group(PreparedKey(dataset, buckets[i].key), targets);
      GroupsNext(dataset, plan, b, i, groups, g);
      groups := groups + [g];
    }
    assert b[..|b|] == b;
  }

  lemma GroupsNext(dataset: string, plan: seq<Task>, b: seq<Bucket>, i: nat, groups: seq<Group>, g: Group)
    requires i < |b| && GroupsAre(dataset, plan, b[..i], groups)
    requires g.cond == PreparedKey(dataset, b[i].key) && TargetsAre(plan, b[i].tasks, g.targets)
    ensures GroupsAre(dataset, plan, b[..i + 1], groups + [g])
  {
    hide TargetsAre;
  }

  // --------------------------------------------------------------------- sizes of sets

  /** The key of a conditioning set of this size. */
  ghost predicate OfSize(k: PreparedKey, dataset: string, n: nat) {
    k.dataset == dataset && exists s: seq<nat> :: |s| == n && k.members == ConditioningKey(s)
  }

  lemma SizeUnique(k: PreparedKey, dataset: string, m: nat, n: nat)
    requires OfSize(k, dataset, m) && OfSize(k, dataset, n)
    ensures m == n
  {
    hide ConditioningKey;
    var s: seq<nat> :| |s| == m && k.members == ConditioningKey(s);
    var t: seq<nat> :| |t| == n && k.members == ConditioningKey(t);
    ConditioningKeyInjective(s, t);
  }

  /** Different conditioning sets, all of one size. */
  ghost predicate LevelGroups(dataset: string, level: nat, groups: seq<Group>) {
    DistinctConds(groups) && forall i :: 0 <= i < |groups| ==> OfSize(groups[i].cond, dataset, level)
  }

  /** Grouping by key makes the conditioning sets of a level's groups distinct, and the plan makes them of
      the level's size. */
  lemma GroupsFit(dataset: string, plan: seq<Task>, multi: bool, b: seq<Bucket>, groups: seq<Group>, level: nat)
    requires Grouped(plan, multi, |plan|, b) && GroupsAre(dataset, plan, b, groups)
    requires forall i :: 0 <= i < |plan| ==> |plan[i].conditioning| == level
    ensures LevelGroups(dataset, level, groups)
  {
    hide Grouped, TargetsAre, OfSize, ConditioningKey, Less;
    assert KeysAscend(b) by { GroupedAscends(plan, multi, b); }
    forall i, j | 0 <= i < j < |groups|
      ensures groups[i].cond != groups[j].cond
    {
      assert GroupIs(dataset, plan, b[i], groups[i]) && GroupIs(dataset, plan, b[j], groups[j]);
      assert Less(b[i].key, b[j].key);
      LessIrreflexive(b[i].key);
    }
    forall i | 0 <= i < |groups|
      ensures OfSize(groups[i].cond, dataset, level)
    {
      assert GroupIs(dataset, plan, b[i], groups[i]);
      BucketSize(dataset, plan, multi, b, i, level);
    }
  }

  lemma GroupedAscends(plan: seq<Task>, multi: bool, b: seq<Bucket>)
    requires Grouped(plan, multi, |plan|, b)
    ensures KeysAscend(b)
  {
  }

  lemma BucketSize(dataset: string, plan: seq<Task>, multi: bool, b: seq<Bucket>, i: nat, level: nat)
    requires Grouped(plan, multi, |plan|, b) && i < |b|
    requires forall i :: 0 <= i < |plan| ==> |plan[i].conditioning| == level
    ensures OfSize(PreparedKey(dataset, b[i].key), dataset, level)
  {
    hide Grouped, ConditioningKey, Having;
    BucketTasks(plan, multi, b, i);
    HavingTasks(plan, multi, b[i].key, |plan|, 0);
    assert |plan[b[i].tasks[0]].conditioning| == level;
  }

  // --------------------------------------------------------- what the cache holds when

  ghost predicate BelowSize(k: PreparedKey, dataset: string, n: nat) {
    k.dataset == dataset ==> exists m: nat :: m < n && OfSize(k, dataset, m)
  }

  /** All states of the dataset belong to conditioning sets smaller than n. */
  ghost predicate OnlyBelow<V>(c: States<V>, dataset: string, n: nat) {
    forall x: TargetKey :: Has(c, x) ==> BelowSize(x.0, dataset, n)
  }

  predicate NothingOf<V>(c: States<V>, dataset: string) {
    forall i :: 0 <= i < |c| ==> c[i].0.0.dataset != dataset
  }

  lemma NothingIsBelow<V>(c: States<V>, dataset: string, n: nat)
    requires NothingOf(c, dataset)
    ensures OnlyBelow(c, dataset, n)
  {
  }

  lemma SizeGrows(k: PreparedKey, dataset: string, n: nat)
    ensures BelowSize(k, dataset, n) || OfSize(k, dataset, n) ==> BelowSize(k, dataset, n + 1)
  {
    hide OfSize;
  }

  lemma BelowIsFresh<V>(c: States<V>, dataset: string, level: nat, groups: seq<Group>)
    requires OnlyBelow(c, dataset, level) && LevelGroups(dataset, level, groups)
    ensures Fresh(c, groups)
  {
    hide OfSize, Has, DistinctConds;
    forall i, t | 0 <= i < |groups| && t in groups[i].targets
      ensures !Has(c, (groups[i].cond, t))
    {
      var k := groups[i].cond;
      assert OfSize(k, dataset, level);
      DatasetOf(k, dataset, level);
      if Has(c, (k, t)) {
        assert BelowSize((k, t).0, dataset, level);
        var m: nat :| m < level && OfSize(k, dataset, m);
        SizeUnique(k, dataset, m, level);
      }
    }
  }

  lemma DatasetOf(k: PreparedKey, dataset: string, n: nat)
    requires OfSize(k, dataset, n)
    ensures k.dataset == dataset
  {
  }

  // ------------------------------------------------------ operations only add their keys

  lemma LookedHas<K, V>(l: Bindings<K, V>, k: K, x: K)
    requires Has(Looked(l, k), x)
    ensures Has(l, x)
  {
    if Has(l, k) && x != k {
      var r := Looked(l, k);
      var i :| 0 <= i < |r| && r[i].0 == x;
      assert r[i] in Without(l, k);
      WithoutKeeps(l, k, r[i]);
    }
  }

  lemma {:induction false} RunHas<K, V>(l: Bindings<K, V>, ops: seq<Op<K, V>>, capacity: nat, x: K)
    requires capacity >= 1 && Has(Run(l, ops, capacity), x)
    ensures Has(l, x) || exists i :: 0 <= i < |ops| && ops[i].key == x
    decreases |ops|
  {
    hide Looked, Inserted, Has;
    if ops != [] {
      RunHas(Apply(l, ops[0], capacity), ops[1..], capacity, x);
      if i :| 0 <= i < |ops[1..]| && ops[1..][i].key == x {
        assert ops[i + 1].key == x;
      } else if ops[0].key != x {
        match ops[0]
        case Lookup(k) => LookedHas(l, k, x);
        case Insert(k, v) => InsertedHas(l, k, v, capacity, x);
      }
    }
  }

  lemma {:induction false} MissingHas<V>(c: States<V>, cond: PreparedKey, targets: seq<nat>, x: TargetKey)
    requires Has(Missing(c, cond, targets).0, x)
    ensures Has(c, x)
    decreases |targets|
  {
    hide Looked, Has;
    if targets != [] {
      var k := (cond, targets[0]);
      MissingHas(Looked(c, k), cond, targets[1..], x);
      LookedHas(c, k, x);
    }
  }

  lemma {:induction false} PreparedHas<V>(e: Setting<V>, c: States<V>, window: seq<Group>, x: TargetKey)
    requires Has(Prepared(e, c, window).0, x)
    ensures Has(c, x)
    decreases |window|
  {
    hide Missing, Has;
    if window != [] {
      var m := Missing(c, window[0].cond, window[0].targets);
      PreparedHas(e, m.0, window[1..], x);
      MissingHas(c, window[0].cond, window[0].targets, x);
    }
  }

  lemma {:induction false} RequestConds<V>(e: Setting<V>, c: States<V>, window: seq<Group>, i: nat)
    requires i < |Prepared(e, c, window).1|
    ensures exists j :: 0 <= j < |window| && window[j].cond == Prepared(e, c, window).1[i].cond
    decreases |window|
  {
    hide Missing;
    var m := Missing(c, window[0].cond, window[0].targets);
    var first := |m.1| >= e.least;
    if first && i == 0 {
      assert window[0].cond == Prepared(e, c, window).1[i].cond;
    } else {
      var n := if first then i - 1 else i;
      RequestConds(e, m.0, window[1..], n);
      var j :| 0 <= j < |window[1..]| && window[1..][j].cond == Prepared(e, m.0, window[1..]).1[n].cond;
      assert window[j + 1].cond == Prepared(e, c, window).1[i].cond;
    }
  }

  lemma WindowHas<V>(e: Setting<V>, c: States<V>, window: seq<Group>, x: TargetKey)
    requires e.capacity >= 1
    requires var w := Prepared(e, c, window); Has(Completed(e, w.0, w.1), x)
    ensures Has(c, x) || exists j :: 0 <= j < |window| && window[j].cond == x.0
  {
    hide Prepared, Completed, Has;
    var w := Prepared(e, c, window);
    CompletedHas(e, w.0, w.1, x);
    if Has(w.0, x) {
      PreparedHas(e, c, window, x);
    } else {
      var i :| 0 <= i < |w.1| && w.1[i].cond == x.0;
      RequestConds(e, c, window, i);
    }
  }

  lemma {:induction false} UnpipelinedHas<V>(e: Setting<V>, o: Outcome<V>, windows: seq<seq<Group>>, x: TargetKey)
    requires e.capacity >= 1 && Has(Unpipelined(e, o, windows).states, x)
    ensures Has(o.states, x) || exists j :: 0 <= j < |Flat(windows)| && Flat(windows)[j].cond == x.0
    decreases |windows|
  {
    hide Prepared, Completed, Has;
    if windows != [] {
      var w := Prepared(e, o.states, windows[0]);
      var n := Outcome(Completed(e, w.0, w.1), o.batches + [Batch(|o.batches| + 1, |windows[0]|, w.1)]);
      UnpipelinedHas(e, n, windows[1..], x);
      var rest := Flat(windows[1..]);
      if Has(n.states, x) {
        WindowHas(e, o.states, windows[0], x);
        if !Has(o.states, x) {
          var j :| 0 <= j < |windows[0]| && windows[0][j].cond == x.0;
          assert Flat(windows)[j].cond == x.0;
        }
      } else {
        var j :| 0 <= j < |rest| && rest[j].cond == x.0;
        assert Flat(windows)[|windows[0]| + j].cond == x.0;
      }
    }
  }

  // ------------------------------------------------------------------------ the whole run

  /** One level: how its groups are cut into windows, and what the tests of the level then do with the
      cache, which may depend on what the prefill left there. */
  datatype Level<!V> = Level(setting: Setting<V>, windows: seq<seq<Group>>, tests: States<V> -> seq<Op<TargetKey, V>>)

  ghost predicate TestsOf<V(!new)>(l: Level<V>, dataset: string, level: nat) {
    forall c, i :: 0 <= i < |l.tests(c)| ==> OfSize(l.tests(c)[i].key.0, dataset, level)
  }

  /** Level `level` works on conditioning sets of its own size only. */
  ghost predicate LevelFits<V(!new)>(l: Level<V>, dataset: string, level: nat) {
    l.setting.Valid() && LevelGroups(dataset, level, Flat(l.windows)) && TestsOf(l, dataset, level)
  }

  ghost predicate LevelsFit<V(!new)>(levels: seq<Level<V>>, dataset: string, level: nat) {
    forall i :: 0 <= i < |levels| ==> LevelFits(levels[i], dataset, level + i)
  }

  function Tested<V>(l: Level<V>, c: States<V>): States<V>
    requires l.setting.capacity >= 1
  {
    Run(c, l.tests(c), l.setting.capacity)
  }

  function PipelinedLevel<V>(l: Level<V>, c: States<V>): Outcome<V>
    requires l.setting.capacity >= 1
  {
    Settled(l.setting, Pipelined(l.setting, Pipe(c, [], Idle), l.windows))
  }

  function UnpipelinedLevel<V>(l: Level<V>, c: States<V>): Outcome<V>
    requires l.setting.capacity >= 1
  {
    Unpipelined(l.setting, Outcome(c, []), l.windows)
  }

  /** The cache after each level, and what its prefill published; levels are prefilled only when nothing of
      the dataset was cached before the run. */
  function RunLevels<V>(levels: seq<Level<V>>, pipelined: bool, prefill: bool, c: States<V>): seq<Outcome<V>>
    requires forall i :: 0 <= i < |levels| ==> levels[i].setting.capacity >= 1
    decreases |levels|
  {
    if levels == [] then []
    else
      var l := levels[0];
      var o := if !prefill then Outcome(c, []) else if pipelined then PipelinedLevel(l, c) else UnpipelinedLevel(l, c);
      var d := Tested(l, o.states);
      [Outcome(d, o.batches)] + RunLevels(levels[1..], pipelined, prefill, d)
  }

  lemma LevelExact<V(!new)>(l: Level<V>, dataset: string, level: nat, c: States<V>)
    requires LevelFits(l, dataset, level) && OnlyBelow(c, dataset, level)
    ensures PipelinedLevel(l, c) == UnpipelinedLevel(l, c)
  {
    hide LevelGroups, OnlyBelow, TestsOf, Pipelined, Unpipelined, Fresh, DistinctConds;
    BelowIsFresh(c, dataset, level, Flat(l.windows));
    assert DistinctConds(Flat(l.windows)) by { GroupsDistinct(dataset, level, Flat(l.windows)); }
    LevelOutcome(l.setting, c, l.windows);
  }

  lemma GroupsDistinct(dataset: string, level: nat, groups: seq<Group>)
    requires LevelGroups(dataset, level, groups)
    ensures DistinctConds(groups)
  {
  }

  lemma PrefillBelow<V(!new)>(l: Level<V>, dataset: string, level: nat, c: States<V>)
    requires LevelFits(l, dataset, level) && OnlyBelow(c, dataset, level)
    ensures OnlyBelow(UnpipelinedLevel(l, c).states, dataset, level + 1)
  {
    hide Unpipelined, Has, OfSize, TestsOf, Flat, BelowSize;
    var groups := Flat(l.windows);
    forall x: TargetKey | Has(UnpipelinedLevel(l, c).states, x)
      ensures BelowSize(x.0, dataset, level + 1)
    {
      SizeGrows(x.0, dataset, level);
      UnpipelinedHas(l.setting, Outcome(c, []), l.windows, x);
      if !Has(c, x) {
        var j :| 0 <= j < |groups| && groups[j].cond == x.0;
        assert OfSize(groups[j].cond, dataset, level);
      }
    }
  }

  lemma TestedBelow<V(!new)>(l: Level<V>, dataset: string, level: nat, c: States<V>)
    requires LevelFits(l, dataset, level) && OnlyBelow(c, dataset, level + 1)
    ensures OnlyBelow(Tested(l, c), dataset, level + 1)
  {
    hide Run, Has, OfSize, LevelGroups, BelowSize;
    var ops := l.tests(c);
    forall x: TargetKey | Has(Tested(l, c), x)
      ensures BelowSize(x.0, dataset, level + 1)
    {
      SizeGrows(x.0, dataset, level);
      RunHas(c, ops, l.setting.capacity, x);
      if !Has(c, x) {
        var i :| 0 <= i < |ops| && ops[i].key == x;
        assert OfSize(l.tests(c)[i].key.0, dataset, level);
      }
    }
  }

  /** Before a level, the dataset's states all belong to smaller conditioning sets; so at every level the
      pipelined loop has the outcome of the unpipelined one. */
  lemma {:induction false} LevelsExact<V(!new)>(levels: seq<Level<V>>, dataset: string, level: nat, c: States<V>)
    requires LevelsFit(levels, dataset, level) && OnlyBelow(c, dataset, level)
    ensures RunLevels(levels, true, true, c) == RunLevels(levels, false, true, c)
    decreases |levels|
  {
    hide OnlyBelow, LevelGroups, TestsOf, PipelinedLevel, UnpipelinedLevel, Tested;
    if levels != [] {
      var l := levels[0];
      assert LevelFits(l, dataset, level);
      LevelExact(l, dataset, level, c);
      PrefillBelow(l, dataset, level, c);
      TestedBelow(l, dataset, level, UnpipelinedLevel(l, c).states);
      assert forall i :: 0 <= i < |levels[1..]| ==> levels[1..][i] == levels[i + 1];
      LevelsExact(levels[1..], dataset, level + 1, Tested(l, UnpipelinedLevel(l, c).states));
    }
  }

  /** Pipelining the prefill changes nothing over a whole run, whatever the cache holds of other datasets
      or, if the run then does without prefill, of this one. */
  lemma RunExact<V(!new)>(levels: seq<Level<V>>, dataset: string, compactFresh: bool, c: States<V>)
    requires LevelsFit(levels, dataset, 0)
    ensures var prefill := compactFresh && NothingOf(c, dataset);
            RunLevels(levels, true, prefill, c) == RunLevels(levels, false, prefill, c)
  {
    hide LevelGroups, TestsOf, RunLevels, OnlyBelow;
    if compactFresh && NothingOf(c, dataset) {
      NothingIsBelow(c, dataset, 0);
      LevelsExact(levels, dataset, 0, c);
    } else {
      NoPrefill(levels, c);
    }
  }

  /** A level's tests hold what they found, or what they inserted themselves. */
  ghost predicate TestsInsert<V(!new)>(ops: seq<Op<TargetKey, V>>, b: (TargetKey, V)) {
    exists n :: 0 <= n < |ops| && ops[n] == Insert(b.0, b.1)
  }

  lemma {:induction false} WithoutFrom<V>(l: States<V>, k: TargetKey, b: (TargetKey, V))
    requires b in Without(l, k)
    ensures b in l
  {
    if l[0].0 != k && b != l[0] {
      WithoutFrom(l[1..], k, b);
    }
  }

  lemma {:induction false} RunFrom<V(!new)>(c: States<V>, ops: seq<Op<TargetKey, V>>, capacity: nat, b: (TargetKey, V))
    requires capacity >= 1 && b in Run(c, ops, capacity)
    ensures b in c || TestsInsert(ops, b)
    decreases |ops|
  {
    hide Without, Has, Find;
    if ops != [] {
      RunFrom(Apply(c, ops[0], capacity), ops[1..], capacity, b);
      if TestsInsert(ops[1..], b) {
        var n :| 0 <= n < |ops[1..]| && ops[1..][n] == Insert(b.0, b.1);
        assert ops[n + 1] == Insert(b.0, b.1);
      } else if b in Without(c, ops[0].key) {
        WithoutFrom(c, ops[0].key, b);
      }
    }
  }

  /** What may be held after a level: what was held before it, a published request's result under the key
      of its own target, or what the level's tests inserted. */
  ghost predicate HeldAfter<V(!new)>(l: Level<V>, before: States<V>, found: States<V>, o: Outcome<V>) {
    forall b :: b in o.states ==> b in before || Optimized(l.setting, o.batches, b) || TestsInsert(l.tests(found), b)
  }

  ghost predicate FiledRight<V(!new)>(l: Level<V>, before: States<V>, o: Outcome<V>) {
    exists found :: HeldAfter(l, before, found, o)
  }

  lemma LevelHolds<V(!new)>(l: Level<V>, c: States<V>)
    requires l.setting.capacity >= 1
    ensures var o := PipelinedLevel(l, c); HeldAfter(l, c, o.states, Outcome(Tested(l, o.states), o.batches))
  {
    hide Optimized, Pipelined, Settled;
    PipelinedHolds(l.setting, c, Pipe(c, [], Idle), l.windows);
    var o := PipelinedLevel(l, c);
    hide PipelinedLevel, Run, TestsInsert;
    forall b | b in Tested(l, o.states)
      ensures b in c || Optimized(l.setting, o.batches, b) || TestsInsert(l.tests(o.states), b)
    {
      RunFrom(o.states, l.tests(o.states), l.setting.capacity, b);
    }
  }

  lemma UntouchedHolds<V(!new)>(l: Level<V>, c: States<V>)
    requires l.setting.capacity >= 1
    ensures HeldAfter(l, c, c, Outcome(Tested(l, c), []))
  {
    hide Optimized, Run, TestsInsert;
    forall b | b in Tested(l, c)
      ensures b in c || TestsInsert(l.tests(c), b)
    {
      RunFrom(c, l.tests(c), l.setting.capacity, b);
    }
  }

  /** So after every level of a pipelined run each state is filed under its own target. */
  lemma {:induction false} RunResults<V(!new)>(levels: seq<Level<V>>, prefill: bool, c: States<V>, i: nat)
    requires (forall j :: 0 <= j < |levels| ==> levels[j].setting.capacity >= 1) && i < |levels|
    ensures var os := RunLevels(levels, true, prefill, c);
            |os| == |levels| && FiledRight(levels[i], if i == 0 then c else os[i - 1].states, os[i])
    decreases |levels|
  {
    hide HeldAfter, PipelinedLevel, Tested;
    var l, os := levels[0], RunLevels(levels, true, prefill, c);
    LevelHolds(l, c);
    UntouchedHolds(l, c);
    RunLength(levels, prefill, c);
    if i > 0 {
      var d := os[0].states;
      assert os[1..] == RunLevels(levels[1..], true, prefill, d);
      assert os[i] == os[1..][i - 1];
      RunResults(levels[1..], prefill, d, i - 1);
    }
  }

  lemma {:induction false} RunLength<V>(levels: seq<Level<V>>, prefill: bool, c: States<V>)
    requires forall j :: 0 <= j < |levels| ==> levels[j].setting.capacity >= 1
    ensures |RunLevels(levels, true, prefill, c)| == |levels|
    decreases |levels|
  {
    hide PipelinedLevel, Tested;
    if levels != [] {
      RunLength(levels[1..], prefill, RunLevels(levels, true, prefill, c)[0].states);
    }
  }

  lemma {:induction false} NoPrefill<V>(levels: seq<Level<V>>, c: States<V>)
    requires forall i :: 0 <= i < |levels| ==> levels[i].setting.capacity >= 1
    ensures RunLevels(levels, true, false, c) == RunLevels(levels, false, false, c)
    decreases |levels|
  {
    hide Tested;
    if levels != [] {
      NoPrefill(levels[1..], Tested(levels[0], c));
    }
  }

  lemma PlanSizes(adj: Grid<bool>, level: nat)
    requires Square(adj, |adj|)
    ensures forall i :: 0 <= i < |Plan(adj, level)| ==> |Plan(adj, level)[i].conditioning| == level
  {
    hide Plan;
    PlanShape(adj, level);
  }

  /** The prefill of one level from its plan. When the cache holds the dataset's states of smaller
      conditioning sets only, as before each level of a run, the outcome is the unpipelined one. */
  method PrefillPlan<V(!new)>(e: Setting<V>, c: States<V>, dataset: string, plan: seq<Task>, multi: bool, ghost adj: Grid<bool>, ghost level: nat)
    returns (o: Outcome<V>, windows: seq<seq<Group>>)
    requires e.Valid() && Square(adj, |adj|) && plan == Plan(adj, level)
    ensures WindowsOk(e, windows) && Numbered(o.batches, windows) && LevelGroups(dataset, level, Flat(windows))
    ensures exists b :: Grouped(plan, multi, |plan|, b) && GroupsAre(dataset, plan, b, Flat(windows))
    ensures o == Settled(e, Pipelined(e, Pipe(c, [], Idle), windows)) && HoldsResults(e, c, o)
    ensures OnlyBelow(c, dataset, level) ==> o == Unpipelined(e, Outcome(c, []), windows)
  {
    hide Grouped, GroupsAre, LevelGroups, OnlyBelow, Fresh, DistinctConds, Unpipelined, Pipelined, Numbered, WindowsOk, Flat;
    var groups := GroupPlan(dataset, plan, multi);
    ghost var b :| Grouped(plan, multi, |plan|, b) && GroupsAre(dataset, plan, b, groups);
    PlanSizes(adj, level);
    GroupsFit(dataset, plan, multi, b, groups, level);
    o, windows := PrefillLevel(e, c, groups);
    if OnlyBelow(c, dataset, level) {
      BelowIsFresh(c, dataset, level, groups);
      GroupsDistinct(dataset, level, groups);
    }
  }
}
