/** The bounded least-recently-used caches of compact results and of optimizer target states. */
module LruCache {
  import opened Collections

  /** A cache as a list of bindings, most recently used first. */
  type Bindings<K, V> = seq<(K, V)>

  ghost predicate DistinctKeys<K, V>(l: Bindings<K, V>) {
    forall i, j :: 0 <= i < j < |l| ==> l[i].0 != l[j].0
  }

  predicate Has<K(==), V>(l: Bindings<K, V>, k: K) {
    exists i :: 0 <= i < |l| && l[i].0 == k
  }

  function Find<K(==), V>(l: Bindings<K, V>, k: K): (v: V)
    requires Has(l, k)
    ensures (k, v) in l
  {
    if l[0].0 == k then l[0].1 else Find(l[1..], k)
  }

  function Without<K(==), V>(l: Bindings<K, V>, k: K): Bindings<K, V> {
    if l == [] then [] else if l[0].0 == k then l[1..] else [l[0]] + Without(l[1..], k)
  }

  function Take<K, V>(l: Bindings<K, V>, n: nat): Bindings<K, V> {
    if n < |l| then l[..n] else l
  }

  /** A hit moves the binding to the front; a miss changes nothing. */
  function Looked<K(==), V>(l: Bindings<K, V>, k: K): Bindings<K, V> {
    if Has(l, k) then [(k, Find(l, k))] + Without(l, k) else l
  }

  /** A new key first makes room at the back. */
  function Inserted<K(==), V>(l: Bindings<K, V>, k: K, v: V, capacity: nat): Bindings<K, V>
    requires capacity >= 1
  {
    if Has(l, k) then [(k, v)] + Without(l, k) else [(k, v)] + Take(l, capacity - 1)
  }

  datatype Op<K, V> = Lookup(key: K) | Insert(key: K, value: V)

  function Apply<K(==), V>(l: Bindings<K, V>, op: Op<K, V>, capacity: nat): Bindings<K, V>
    requires capacity >= 1
  {
    match op
    case Lookup(k) => Looked(l, k)
    case Insert(k, v) => Inserted(l, k, v, capacity)
  }

  function Run<K(==), V>(l: Bindings<K, V>, ops: seq<Op<K, V>>, capacity: nat): Bindings<K, V>
    requires capacity >= 1
    decreases |ops|
  {
    if ops == [] then l else Run(Apply(l, ops[0], capacity), ops[1..], capacity)
  }

  // ------------------------------------------------------------ facts on lists

  lemma {:induction false} WithoutSplit<K, V>(l: Bindings<K, V>, i: nat)
    requires DistinctKeys(l) && i < |l|
    ensures Has(l, l[i].0)
    ensures Without(l, l[i].0) == l[..i] + l[i + 1..]
    ensures Find(l, l[i].0) == l[i].1
    decreases i
  {
    if i > 0 {
      assert l[1..][i - 1] == l[i];
      WithoutSplit(l[1..], i - 1);
      assert l[0].0 != l[i].0;
      assert [l[0]] + l[1..][..i - 1] == l[..i];
      assert l[1..][i - 1 + 1..] == l[i + 1..];
    }
  }

  lemma {:induction false} WithoutAbsent<K, V>(l: Bindings<K, V>, k: K)
    requires !Has(l, k)
    ensures Without(l, k) == l
  {
    if l != [] {
      assert l[0].0 != k;
      assert forall i :: 0 <= i < |l[1..]| ==> l[1..][i] == l[i + 1];
      WithoutAbsent(l[1..], k);
    }
  }

  /** What one operation does, by position. */
  lemma ApplyPresent<K, V>(l: Bindings<K, V>, op: Op<K, V>, c: nat, i: nat)
    requires DistinctKeys(l) && i < |l| && l[i].0 == op.key && c >= 1
    ensures Apply(l, op, c) == [if op.Lookup? then l[i] else (op.key, op.value)] + DropAt(l, i)
  {
    WithoutSplit(l, i);
  }

  lemma ApplyAbsent<K, V>(l: Bindings<K, V>, op: Op<K, V>, c: nat)
    requires !Has(l, op.key) && c >= 1
    ensures Apply(l, op, c) == if op.Lookup? then l else [(op.key, op.value)] + Take(l, c - 1)
  {
  }

  lemma ApplyDistinct<K, V>(l: Bindings<K, V>, op: Op<K, V>, capacity: nat)
    requires DistinctKeys(l) && |l| <= capacity && capacity >= 1
    ensures DistinctKeys(Apply(l, op, capacity)) && |Apply(l, op, capacity)| <= capacity
  {
    hide Apply, Without, Find;
    if Has(l, op.key) {
      var i :| 0 <= i < |l| && l[i].0 == op.key;
      ApplyPresent(l, op, capacity, i);
    } else {
      ApplyAbsent(l, op, capacity);
    }
  }

  // ------------------------------------------------------------- the latest value

  /** An operation binds only the key it inserts, and to the value it inserts. */
  lemma ApplyHolds<K, V>(l: Bindings<K, V>, op: Op<K, V>, c: nat, b: (K, V))
    requires DistinctKeys(l) && c >= 1 && b in Apply(l, op, c)
    ensures if op.Insert? && op.key == b.0 then op.value == b.1 else b in l
  {
    hide Apply, Without, Find;
    if i :| 0 <= i < |l| && l[i].0 == op.key {
      ApplyPresent(l, op, c, i);
      assert forall j :: 0 <= j < |DropAt(l, i)| ==> DropAt(l, i)[j].0 != op.key;
    } else {
      ApplyAbsent(l, op, c);
    }
  }

  ghost predicate InsertsNot<K, V>(ops: seq<Op<K, V>>, k: K) {
    forall i :: 0 <= i < |ops| ==> !(ops[i].Insert? && ops[i].key == k)
  }

  /** The last insertion of the key put this value; or there was none and the value was there before. */
  ghost predicate Latest<K, V>(l: Bindings<K, V>, ops: seq<Op<K, V>>, k: K, v: V) {
    || (InsertsNot(ops, k) && (k, v) in l)
    || exists i :: 0 <= i < |ops| && ops[i] == Insert(k, v) && InsertsNot(ops[i + 1..], k)
  }

  /** After any operations, a key that is still held has the value last inserted for it. */
  lemma {:induction false} RunHolds<K, V>(l: Bindings<K, V>, ops: seq<Op<K, V>>, c: nat, k: K, v: V)
    requires DistinctKeys(l) && |l| <= c && c >= 1 && (k, v) in Run(l, ops, c)
    ensures Latest(l, ops, k, v)
    decreases |ops|
  {
    hide Apply, DistinctKeys;
    if ops != [] {
      var l', rest := Apply(l, ops[0], c), ops[1..];
      ApplyDistinct(l, ops[0], c);
      RunHolds(l', rest, c, k, v);
      if i :| 0 <= i < |rest| && rest[i] == Insert(k, v) && InsertsNot(rest[i + 1..], k) {
        assert ops[i + 1] == rest[i] && ops[i + 1 + 1..] == rest[i + 1..];
      } else {
        ApplyHolds(l, ops[0], c, (k, v));
        assert ops == [ops[0]] + rest;
      }
    }
  }

  /** A hit returns the value last inserted for its key. */
  lemma HitIsLatest<K, V>(ops: seq<Op<K, V>>, c: nat, k: K)
    requires c >= 1 && Has(Run([], ops, c), k)
    ensures exists i :: 0 <= i < |ops| && ops[i] == Insert(k, Find(Run([], ops, c), k)) && InsertsNot(ops[i + 1..], k)
  {
    RunHolds([], ops, c, k, Find(Run([], ops, c), k));
  }

  // ------------------------------------------------------------------- recency

  /** The last operation that names the key; -1 if none does. */
  ghost function LastUse<K, V>(ops: seq<Op<K, V>>, k: K): (n: int)
    ensures -1 <= n < |ops| && (n >= 0 ==> ops[n].key == k) && forall i :: n < i < |ops| ==> ops[i].key != k
  {
    if ops == [] then -1
    else if ops[|ops| - 1].key == k then |ops| - 1
    else LastUse(ops[..|ops| - 1], k)
  }

  /** Every key has been used, the keys in front later than those behind. */
  ghost predicate ByRecency<K, V>(l: Bindings<K, V>, ops: seq<Op<K, V>>) {
    && (forall i :: 0 <= i < |l| ==> LastUse(ops, l[i].0) >= 0)
    && (forall i, j :: 0 <= i < j < |l| ==> LastUse(ops, l[i].0) > LastUse(ops, l[j].0))
  }

  lemma LastUseNext<K, V>(ops: seq<Op<K, V>>, op: Op<K, V>, k: K)
    ensures LastUse(ops + [op], k) == if k == op.key then |ops| else LastUse(ops, k)
  {
    assert (ops + [op])[..|ops|] == ops;
  }

  lemma {:induction false} RunNext<K, V>(l: Bindings<K, V>, ops: seq<Op<K, V>>, op: Op<K, V>, c: nat)
    requires c >= 1
    ensures Run(l, ops + [op], c) == Apply(Run(l, ops, c), op, c)
    decreases |ops|
  {
    hide Apply;
    if ops == [] {
      assert [op][1..] == [];
    } else {
      assert (ops + [op])[1..] == ops[1..] + [op];
      RunNext(Apply(l, ops[0], c), ops[1..], op, c);
    }
  }

  /** A key put in front of others that are in order. */
  lemma PushedByRecency<K, V>(b: (K, V), rest: Bindings<K, V>, ops: seq<Op<K, V>>, op: Op<K, V>)
    requires ByRecency(rest, ops) && b.0 == op.key && forall i :: 0 <= i < |rest| ==> rest[i].0 != op.key
    ensures ByRecency([b] + rest, ops + [op])
  {
    hide LastUse;
    LastUseNext(ops, op, b.0);
    forall i | 0 <= i < |rest|
      ensures LastUse(ops + [op], rest[i].0) == LastUse(ops, rest[i].0) < |ops|
    {
      LastUseNext(ops, op, rest[i].0);
    }
  }

  lemma DropByRecency<K, V>(l: Bindings<K, V>, ops: seq<Op<K, V>>, i: nat)
    requires DistinctKeys(l) && ByRecency(l, ops) && i < |l|
    ensures ByRecency(DropAt(l, i), ops) && forall j :: 0 <= j < |l| - 1 ==> DropAt(l, i)[j].0 != l[i].0
  {
    hide LastUse;
  }

  lemma TakeByRecency<K, V>(l: Bindings<K, V>, ops: seq<Op<K, V>>, n: nat)
    requires ByRecency(l, ops)
    ensures ByRecency(Take(l, n), ops)
  {
    hide LastUse;
  }

  lemma StepByRecency<K, V>(l: Bindings<K, V>, ops: seq<Op<K, V>>, op: Op<K, V>, c: nat)
    requires c >= 1 && DistinctKeys(l) && ByRecency(l, ops)
    ensures ByRecency(Apply(l, op, c), ops + [op])
  {
    hide Apply, Without, Find, LastUse;
    if Has(l, op.key) {
      var i :| 0 <= i < |l| && l[i].0 == op.key;
      ApplyPresent(l, op, c, i);
      DropByRecency(l, ops, i);
      hide ByRecency, DistinctKeys, Has;
      PushedByRecency(if op.Lookup? then l[i] else (op.key, op.value), DropAt(l, i), ops, op);
    } else {
      ApplyAbsent(l, op, c);
      if op.Insert? {
        TakeByRecency(l, ops, c - 1);
        PushedByRecency((op.key, op.value), Take(l, c - 1), ops, op);
      } else {
        forall i | 0 <= i < |l|
          ensures LastUse(ops + [op], l[i].0) == LastUse(ops, l[i].0)
        {
          LastUseNext(ops, op, l[i].0);
        }
      }
    }
  }

  /** The list is in the order of last use. */
  lemma {:induction false} RunByRecency<K, V>(ops: seq<Op<K, V>>, c: nat)
    requires c >= 1
    ensures var l := Run([], ops, c); DistinctKeys(l) && |l| <= c && ByRecency(l, ops)
    decreases |ops|
  {
    if ops != [] {
      var n := |ops| - 1;
      RunByRecency(ops[..n], c);
      assert ops == ops[..n] + [ops[n]];
      RunNext([], ops[..n], ops[n], c);
      hide Run, Apply, DistinctKeys, ByRecency;
      StepByRecency(Run([], ops[..n], c), ops[..n], ops[n], c);
      ApplyDistinct(Run([], ops[..n], c), ops[n], c);
    }
  }

  /** What an insertion evicts is the least recently used key, and only for a new key in a full cache. */
  lemma EvictsLeastRecent<K, V>(ops: seq<Op<K, V>>, c: nat, k: K, v: V, gone: nat)
    requires c >= 1 && gone < |Run([], ops, c)| && !Has(Run([], ops + [Insert(k, v)], c), Run([], ops, c)[gone].0)
    ensures var l := Run([], ops, c);
            !Has(l, k) && |l| == c && forall i :: 0 <= i < |l| && i != gone ==> LastUse(ops, l[gone].0) < LastUse(ops, l[i].0)
  {
    RunByRecency(ops, c);
    RunNext([], ops, Insert(k, v), c);
    hide Run, Apply, DistinctKeys, LastUse, Has;
    var l := Run([], ops, c);
    if Has(l, k) || gone < c - 1 {
      KeepsOthers(l, k, v, c, gone);
    }
  }

  lemma KeepsOthers<K, V>(l: Bindings<K, V>, k: K, v: V, c: nat, i: nat)
    requires c >= 1 && DistinctKeys(l) && |l| <= c && i < |l| && (Has(l, k) || i < c - 1)
    ensures Has(Apply(l, Insert(k, v), c), l[i].0)
  {
    hide Apply, Without, Find;
    var next := Apply(l, Insert(k, v), c);
    if Has(l, k) {
      var j :| 0 <= j < |l| && l[j].0 == k;
      ApplyPresent(l, Insert(k, v), c, j);
      assert next[if i == j then 0 else if i < j then i + 1 else i].0 == l[i].0;
    } else {
      ApplyAbsent(l, Insert(k, v), c);
      assert next[i + 1] == l[i];
    }
  }

  // --------------------------------------------------------- inclusion property

  /** The larger cache holds the smaller one's list, with at most one binding more, and one
      more only once the smaller one is full. */
  ghost predicate Extends<K, V>(small: Bindings<K, V>, large: Bindings<K, V>, capacity: nat) {
    || small == large
    || (|small| == capacity
        && exists i :: 0 <= i < |large| && small == DropAt(large, i))
  }

  lemma DropTwice<T>(l: seq<T>, i: nat, j: nat)
    requires i < |l| && j < |l| && i != j
    ensures DropAt(DropAt(l, i), if j < i then j else j - 1) == DropAt(DropAt(l, j), if i < j then i else i - 1)
    ensures DropAt(l, i)[if j < i then j else j - 1] == l[j]
  {
  }

  lemma DropPushed<T>(l: seq<T>, b: T, i: nat)
    requires i < |l|
    ensures DropAt([b] + l, i + 1) == [b] + DropAt(l, i)
  {
  }

  lemma DropFront<T>(l: seq<T>, b: T)
    ensures DropAt([b] + l, 0) == l
  {
  }

  lemma DropBack<T>(l: seq<T>, b: T)
    requires l != []
    ensures DropAt([b] + l, |l|) == [b] + l[..|l| - 1]
  {
  }

  /** The extra binding of the larger cache stays the only difference. */
  lemma InclusionStep<K, V>(small: Bindings<K, V>, large: Bindings<K, V>, op: Op<K, V>, c: nat)
    requires c >= 1 && DistinctKeys(small) && DistinctKeys(large)
    requires |small| <= c && |large| <= c + 1 && Extends(small, large, c)
    ensures Extends(Apply(small, op, c), Apply(large, op, c + 1), c)
  {
    if small == large {
      InclusionStart(small, op, c);
    } else {
      var i :| 0 <= i < |large| && small == DropAt(large, i);
      hide Apply, Without, Find;
      DroppedHas(large, i, op.key);
      if Has(large, op.key) {
        var j :| 0 <= j < |large| && large[j].0 == op.key;
        if j == i {
          InclusionExtra(small, large, op, c, i);
        } else {
          InclusionShared(small, large, op, c, i, j);
        }
      } else {
        ApplyAbsent(small, op, c);
        ApplyAbsent(large, op, c + 1);
        if op.Insert? {
          InclusionMake(small, large, i, (op.key, op.value), c);
        }
      }
    }
  }

  /** The key is the larger cache's extra one. */
  lemma InclusionExtra<K, V>(small: Bindings<K, V>, large: Bindings<K, V>, op: Op<K, V>, c: nat, i: nat)
    requires c >= 1 && DistinctKeys(large) && |small| == c && |large| == c + 1
    requires i < |large| && small == DropAt(large, i) && large[i].0 == op.key
    ensures Extends(Apply(small, op, c), Apply(large, op, c + 1), c)
  {
    hide Apply, Without, Find, Has, DistinctKeys;
    ApplyPresent(large, op, c + 1, i);
    DroppedHas(large, i, op.key);
    ApplyAbsent(small, op, c);
    if op.Lookup? {
      DropFront(small, large[i]);
    } else {
      DropBack(small, (op.key, op.value));
    }
  }

  /** The key is in both caches. */
  lemma InclusionShared<K, V>(small: Bindings<K, V>, large: Bindings<K, V>, op: Op<K, V>, c: nat, i: nat, j: nat)
    requires c >= 1 && DistinctKeys(small) && DistinctKeys(large) && |small| == c && |large| == c + 1
    requires i < |large| && small == DropAt(large, i) && j < |large| && j != i && large[j].0 == op.key
    ensures Extends(Apply(small, op, c), Apply(large, op, c + 1), c)
  {
    hide Apply, Without, Find, Has, DistinctKeys;
    ApplyPresent(large, op, c + 1, j);
    DropTwice(large, i, j);
    ApplyPresent(small, op, c, if j < i then j else j - 1);
    DropPushed(DropAt(large, j), if op.Lookup? then large[j] else (op.key, op.value), if i < j then i else i - 1);
  }

  lemma InclusionStart<K, V>(l: Bindings<K, V>, op: Op<K, V>, c: nat)
    requires c >= 1 && DistinctKeys(l) && |l| <= c
    ensures Extends(Apply(l, op, c), Apply(l, op, c + 1), c)
  {
    if Has(l, op.key) {
      var i :| 0 <= i < |l| && l[i].0 == op.key;
      ApplyPresent(l, op, c, i);
      ApplyPresent(l, op, c + 1, i);
    } else if op.Insert? && |l| == c {
      DropBack(l, (op.key, op.value));
    }
  }

  lemma InclusionMake<T>(small: seq<T>, large: seq<T>, i: nat, b: T, c: nat)
    requires 1 <= c == |small| && i < |large| == c + 1 && small == DropAt(large, i)
    ensures exists k :: 0 <= k < c + 1 && [b] + small[..c - 1] == DropAt([b] + large[..c], k)
  {
    if i == c {
      assert large[..c] == small;
      DropBack(small, b);
    } else {
      assert small[..c - 1] == DropAt(large[..c], i);
      DropPushed(large[..c], b, i);
    }
  }

  lemma DroppedHas<K, V>(large: Bindings<K, V>, i: nat, k: K)
    requires DistinctKeys(large) && i < |large|
    ensures Has(DropAt(large, i), k) <==> Has(large, k) && large[i].0 != k
  {
    var small := DropAt(large, i);
    if j :| 0 <= j < |small| && small[j].0 == k {
      assert large[if j < i then j else j + 1].0 == k;
    }
    if j :| 0 <= j < |large| && large[j].0 == k && large[i].0 != k {
      assert small[if j < i then j else j - 1].0 == k;
    }
  }

  /** On the same operations, everything in a cache of capacity c is, with the same value, in
      the cache of capacity c + 1. */
  lemma {:induction false} Inclusion<K, V>(ops: seq<Op<K, V>>, small: Bindings<K, V>, large: Bindings<K, V>, c: nat)
    requires c >= 1 && DistinctKeys(small) && DistinctKeys(large)
    requires |small| <= c && |large| <= c + 1 && Extends(small, large, c)
    ensures Extends(Run(small, ops, c), Run(large, ops, c + 1), c)
    ensures forall b :: b in Run(small, ops, c) ==> b in Run(large, ops, c + 1)
    decreases |ops|
  {
    if ops != [] {
      InclusionStep(small, large, ops[0], c);
      ApplyDistinct(small, ops[0], c);
      ApplyDistinct(large, ops[0], c + 1);
      Inclusion(ops[1..], Apply(small, ops[0], c), Apply(large, ops[0], c + 1), c);
    }
  }

  // ------------------------------------------------------------------ the class

  function Erase<K(==)>(order: seq<K>, k: K): seq<K> {
    if order == [] then [] else if order[0] == k then order[1..] else [order[0]] + Erase(order[1..], k)
  }

  function Bind<K, V>(order: seq<K>, entries: map<K, V>): (l: Bindings<K, V>)
    requires forall k :: k in order ==> k in entries
    ensures |l| == |order| && forall i :: 0 <= i < |l| ==> l[i] == (order[i], entries[order[i]])
  {
    seq(|order|, i requires 0 <= i < |order| => assert order[i] in order; (order[i], entries[order[i]]))
  }

  lemma {:induction false} EraseAt<K>(order: seq<K>, i: nat)
    requires Distinct(order) && i < |order|
    ensures Erase(order, order[i]) == order[..i] + order[i + 1..]
    decreases i
  {
    if i > 0 {
      assert order[1..][i - 1] == order[i];
      EraseAt(order[1..], i - 1);
      assert [order[0]] + order[1..][..i - 1] == order[..i];
    }
  }

  /** Moving a present key to the front of the order list, with its current or a new value. */
  lemma FrontKeys<K>(order: seq<K>, i: nat)
    requires Distinct(order) && i < |order|
    ensures Distinct([order[i]] + DropAt(order, i))
    ensures forall x :: x in [order[i]] + DropAt(order, i) <==> x in order
  {
    var rest := DropAt(order, i);
    assert forall j :: 0 <= j < |order| && j != i ==> order[j] == rest[if j < i then j else j - 1];
  }

  lemma BindFacts<K, V>(order: seq<K>, entries: map<K, V>)
    requires Distinct(order) && forall x :: x in order ==> x in entries
    ensures DistinctKeys(Bind(order, entries))
    ensures forall k :: Has(Bind(order, entries), k) <==> k in order
  {
    var l := Bind(order, entries);
    forall k | k in order
      ensures Has(l, k)
    {
      var i :| 0 <= i < |order| && order[i] == k;
      assert l[i].0 == k;
    }
  }

  /** Moving a present key to the front of the order list, with its current or a new value. */
  lemma BindToFront<K, V>(order: seq<K>, entries: map<K, V>, k: K, v: V)
    requires Distinct(order) && (forall x :: x in order ==> x in entries) && k in order
    ensures var order' := [k] + Erase(order, k);
      && Distinct(order') && |order'| == |order|
      && (forall x :: x in order' <==> x in order)
      && Bind(order', entries[k := v]) == [(k, v)] + Without(Bind(order, entries), k)
    ensures Has(Bind(order, entries), k) && Find(Bind(order, entries), k) == entries[k]
  {
    hide Erase, Without, Find, Has;
    var l := Bind(order, entries);
    var i :| 0 <= i < |order| && order[i] == k;
    BindFacts(order, entries);
    EraseAt(order, i);
    WithoutSplit(l, i);
    FrontKeys(order, i);
    var order' := [k] + DropAt(order, i);
    assert Erase(order, k) == DropAt(order, i);
    assert Bind(order', entries[k := v]) == [(k, v)] + DropAt(l, i);
  }

  lemma BindPush<K, V>(order: seq<K>, entries: map<K, V>, k: K, v: V)
    requires Distinct(order) && k !in order && (forall x :: x in entries <==> x in order)
    ensures Distinct([k] + order) && forall x :: x in entries[k := v] <==> x in [k] + order
    ensures |entries[k := v]| == |entries| + 1
    ensures Bind([k] + order, entries[k := v]) == [(k, v)] + Bind(order, entries)
  {
  }

  lemma EvictKeys<K, V>(order: seq<K>, entries: map<K, V>)
    requires order != [] && Distinct(order) && forall k :: k in entries <==> k in order
    ensures Distinct(order[..|order| - 1])
    ensures var rest, order' := entries - {order[|order| - 1]}, order[..|order| - 1];
      forall k :: k in rest <==> k in order'
  {
    DistinctFront(order);
    hide Distinct;
  }

  lemma EvictBind<K, V>(order: seq<K>, entries: map<K, V>)
    requires order != [] && Distinct(order) && forall k :: k in entries <==> k in order
    ensures var rest, order' := entries - {order[|order| - 1]}, order[..|order| - 1];
            (forall k :: k in order' ==> k in rest) && Bind(order', rest) == Bind(order, entries)[..|order| - 1]
  {
    DistinctFront(order);
    hide Distinct;
  }

  lemma EvictFacts<K, V>(order: seq<K>, entries: map<K, V>)
    requires order != [] && Distinct(order) && |order| == |entries|
    requires forall k :: k in entries <==> k in order
    ensures var rest, order' := entries - {order[|order| - 1]}, order[..|order| - 1];
      && |rest| == |entries| - 1 && Distinct(order')
      && (forall k :: k in rest <==> k in order')
      && Bind(order', rest) == Bind(order, entries)[..|order| - 1]
  {
    EvictKeys(order, entries);
    hide Distinct;
    var victim := order[|order| - 1];
    var rest := entries - {victim};
    assert victim in order;
    assert entries.Keys == rest.Keys + {victim};
    EvictBind(order, entries);
  }

  /** CompactResultCache and TargetStateCache: an order list over a map. */
  class Cache<K(==, !new), V> {
    var capacity: nat
    var order: seq<K>
    var entries: map<K, V>
    var requests: nat
    var hits: nat
    var misses: nat
    var inserts: nat
    var evictions: nat
    var generation: nat

    ghost predicate Valid()
      reads this
    {
      && capacity >= 1
      && Distinct(order)
      && (forall k :: k in entries <==> k in order)
      && |order| == |entries| <= capacity
      && requests == hits + misses
      && inserts == evictions + |entries|
    }

    ghost function Contents(): (l: Bindings<K, V>)
      reads this
      requires Valid()
      ensures DistinctKeys(l) && |l| == |entries| <= capacity
      ensures forall i :: 0 <= i < |l| ==> l[i].0 in entries && l[i].1 == entries[l[i].0]
      ensures forall k :: Has(l, k) <==> k in entries
    {
      Bind(order, entries)
    }

    constructor (initialCapacity: nat)
      requires initialCapacity >= 1
      ensures Valid() && Contents() == [] && capacity == initialCapacity
      ensures requests == 0
    {
      capacity, order, entries := initialCapacity, [], map[];
      requests, hits, misses, inserts, evictions, generation := 0, 0, 0, 0, 0, 1;
    }

    /** Gives a present key a value and the front of the order list. */
    method Touch(key: K, value: V)
      requires Valid() && key in entries
      modifies this
      ensures Valid() && capacity == old(capacity)
      ensures Find(old(Contents()), key) == old(entries)[key]
      ensures Contents() == [(key, value)] + Without(old(Contents()), key)
      ensures entries == old(entries)[key := value]
      ensures requests == old(requests) && hits == old(hits) && misses == old(misses)
    {
      hide Distinct, Bind, DistinctKeys, Without, Find, Erase;
      BindToFront(order, entries, key, value);
      assert entries.Keys == entries.Keys + {key};
      entries := entries[key := value];
      order := [key] + Erase(order, key);
    }

    method Lookup(key: K) returns (found: seq<V>)
      requires Valid()
      modifies this
      ensures Valid() && capacity == old(capacity)
      ensures found == if Has(old(Contents()), key) then [Find(old(Contents()), key)] else []
      ensures Contents() == Looked(old(Contents()), key) && entries == old(entries)
      ensures key in entries ==> found == [entries[key]]
      ensures requests == old(requests) + 1
      ensures hits == old(hits) + |found|
    {
      requests := requests + 1;
      if key !in entries {
        misses := misses + 1;
        return [];
      }
      hits := hits + 1;
      found := [entries[key]];
      BindFacts(order, entries);
      assert entries[key := entries[key]] == entries;
      Touch(key, entries[key]);
    }

    method EvictBack()
      requires Valid() && order != []
      modifies this
      ensures Valid() && capacity == old(capacity)
      ensures Contents() == old(Contents())[..|old(Contents())| - 1]
      ensures entries.Keys <= old(entries.Keys)
      ensures requests == old(requests) && hits == old(hits) && inserts == old(inserts) && generation == old(generation)
    {
      hide Distinct, Has, Bind, DistinctKeys;
      var victim := order[|order| - 1];
      EvictFacts(order, entries);
      order := order[..|order| - 1];
      entries := entries - {victim};
      evictions := evictions + 1;
    }

    /** The eviction loop: least recently used entries go until `limit` remain. */
    method EvictTo(limit: nat)
      requires Valid()
      modifies this
      ensures Valid() && capacity == old(capacity) && |entries| <= limit
      ensures Contents() == Take(old(Contents()), limit)
      ensures entries.Keys <= old(entries.Keys)
      ensures requests == old(requests) && hits == old(hits) && inserts == old(inserts) && generation == old(generation)
    {
      hide Distinct, Has, Bind, DistinctKeys;
      while |entries| > limit
        invariant Valid() && capacity == old(capacity)
        invariant |Contents()| <= |old(Contents())| && Contents() == old(Contents())[..|Contents()|]
        invariant Contents() == old(Contents()) || |Contents()| >= limit
        invariant entries.Keys <= old(entries.Keys)
        invariant requests == old(requests) && hits == old(hits)
        invariant inserts == old(inserts) && generation == old(generation)
        decreases |entries|
      {
        EvictBack();
      }
    }

    /** Gives a new key the front of the order list. */
    method Push(key: K, value: V)
      requires Valid() && key !in entries && |entries| < capacity
      modifies this
      ensures Valid() && capacity == old(capacity)
      ensures Contents() == [(key, value)] + old(Contents()) && entries == old(entries)[key := value]
      ensures requests == old(requests) && hits == old(hits)
    {
      hide Distinct, Bind, DistinctKeys;
      BindPush(order, entries, key, value);
      order := [key] + order;
      inserts := inserts + 1;
      entries := entries[key := value];
    }

    method Insert(key: K, value: V)
      requires Valid()
      modifies this
      ensures Valid() && capacity == old(capacity)
      ensures Contents() == Inserted(old(Contents()), key, value, capacity)
      ensures key in entries && entries[key] == value
      ensures requests == old(requests) && hits == old(hits)
    {
      hide Distinct, Bind, DistinctKeys, Without, Find, Erase, Take;
      if key in entries {
        Touch(key, value);
      } else {
        EvictTo(capacity - 1);
        Push(key, value);
      }
    }

    method Configure(newCapacity: nat)
      requires Valid() && newCapacity >= 1
      modifies this
      ensures Valid() && capacity == newCapacity
      ensures Contents() == Take(old(Contents()), newCapacity)
      ensures requests == old(requests) && hits == old(hits) && inserts == old(inserts)
      ensures generation == old(generation) + 1
    {
      hide Distinct, Has, Bind, DistinctKeys;
      EvictTo(newCapacity);
      capacity := newCapacity;
      generation := generation + 1;
    }

    method Reset()
      requires Valid()
      modifies this
      ensures Valid() && Contents() == [] && capacity == old(capacity)
      ensures requests == hits == misses == inserts == evictions == 0
      ensures generation == old(generation) + 1
    {
      entries, order := map[], [];
      requests, hits, misses, inserts, evictions := 0, 0, 0, 0, 0;
      generation := generation + 1;
    }
  }
}
