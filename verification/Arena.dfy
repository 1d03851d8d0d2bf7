/** ExactPrimaryCoefficientArena: level-scoped storage for coefficient columns, a bump allocator
    over a buffer that grows by doubling. */
module Arena {
  import opened Collections

  const INITIAL_CAPACITY: nat := 16384
  const MAXIMUM_DIM: nat := 559

  type Key = string

  datatype Entry = Entry(level: nat, offset: nat, dim: nat)

  function Column(storage: seq<real>, e: Entry): seq<real>
    requires e.offset + e.dim <= |storage|
  {
    storage[e.offset..e.offset + e.dim]
  }

  predicate Apart(a: Entry, b: Entry) {
    a.offset + a.dim <= b.offset || b.offset + b.dim <= a.offset
  }

  /** Live columns lie below the used size, in disjoint ranges. */
  ghost predicate Laid(entries: map<Key, Entry>, size: nat, level: nat) {
    && (forall k :: k in entries ==> entries[k].level == level && entries[k].dim > 0)
    && (forall k :: k in entries ==> entries[k].offset + entries[k].dim <= size)
    && (forall j, k :: j in entries && k in entries && j != k ==> Apart(entries[j], entries[k]))
  }

  ghost function Columns(entries: map<Key, Entry>, storage: seq<real>): map<Key, seq<real>>
    requires forall k :: k in entries ==> entries[k].offset + entries[k].dim <= |storage|
  {
    map k | k in entries :: Column(storage, entries[k])
  }

  /** Column t of a batch stored one column after another. */
  function BatchColumn(data: seq<real>, dim: nat, t: nat): seq<real>
    requires t * dim + dim <= |data|
  {
    data[t * dim..t * dim + dim]
  }

  lemma {:induction false} BatchFits(count: nat, dim: nat, t: nat)
    requires t < count
    ensures t * dim + dim <= count * dim
  {
    assert count * dim == (count - 1) * dim + dim;
    if t < count - 1 {
      BatchFits(count - 1, dim, t);
    }
  }

  lemma BatchOrder(dim: nat, s: nat, t: nat)
    requires s < t
    ensures s * dim + dim <= t * dim
  {
    BatchFits(t, dim, s);
  }

  /** The columns after a batch: the old ones, and the batch's under its keys. */
  ghost predicate Stored(was: map<Key, seq<real>>, now: map<Key, seq<real>>, keys: seq<Key>, data: seq<real>, dim: nat)
    requires |data| == |keys| * dim
  {
    && now.Keys == was.Keys + (set k | k in keys)
    && (forall k :: k in was ==> k in now && now[k] == was[k])
    && (forall t :: 0 <= t < |keys| ==> keys[t] in now && t * dim + dim <= |data| && now[keys[t]] == BatchColumn(data, dim, t))
  }

  /** The first t keys of a batch filed at consecutive offsets from base, none of them known before. */
  ghost predicate Filed(was: map<Key, Entry>, now: map<Key, Entry>, keys: seq<Key>, t: nat, level: nat, base: nat, dim: nat)
    requires t <= |keys|
  {
    && Distinct(keys[..t])
    && (forall i :: 0 <= i < t ==> keys[i] !in was)
    && (forall k :: k in was ==> k in now && now[k] == was[k])
    && (forall k :: k in now && k !in was ==> k in keys[..t])
    && (forall i :: 0 <= i < t ==> keys[i] in now && now[keys[i]] == Entry(level, base + i * dim, dim))
  }

  lemma FileNext(was: map<Key, Entry>, now: map<Key, Entry>, keys: seq<Key>, t: nat, level: nat, base: nat, dim: nat)
    requires t < |keys| && Filed(was, now, keys, t, level, base, dim) && keys[t] !in now
    ensures Filed(was, now[keys[t] := Entry(level, base + t * dim, dim)], keys, t + 1, level, base, dim)
  {
    var next := now[keys[t] := Entry(level, base + t * dim, dim)];
    assert keys[..t + 1] == keys[..t] + [keys[t]];
    forall i | 0 <= i < t
      ensures keys[i] in now && keys[i] != keys[t]
    {
    }
    assert keys[t] !in keys[..t];
    DistinctAppend(keys[..t], keys[t]);
    hide Distinct;
  }

  lemma FiledApart(was: map<Key, Entry>, now: map<Key, Entry>, keys: seq<Key>, level: nat, base: nat, dim: nat, j: Key, k: Key)
    requires dim > 0 && Laid(was, base, level) && Filed(was, now, keys, |keys|, level, base, dim)
    requires j in now && k in now && j != k
    ensures Apart(now[j], now[k])
  {
    if j !in was && k !in was {
      var a :| 0 <= a < |keys| && keys[a] == j;
      var b :| 0 <= b < |keys| && keys[b] == k;
      if a < b { BatchOrder(dim, a, b); } else { BatchOrder(dim, b, a); }
    }
  }

  lemma FiledBound(was: map<Key, Entry>, now: map<Key, Entry>, keys: seq<Key>, level: nat, base: nat, dim: nat, k: Key)
    requires dim > 0 && Laid(was, base, level) && Filed(was, now, keys, |keys|, level, base, dim) && k in now
    ensures now[k].level == level && now[k].dim > 0 && now[k].offset + now[k].dim <= base + |keys| * dim
  {
    hide Apart, Distinct;
    if k in was {
      assert |keys| * dim >= 0;
    } else {
      var a :| 0 <= a < |keys| && keys[a] == k;
      BatchFits(|keys|, dim, a);
    }
  }

  lemma FiledLaid(was: map<Key, Entry>, now: map<Key, Entry>, keys: seq<Key>, level: nat, base: nat, dim: nat)
    requires dim > 0 && Laid(was, base, level) && Filed(was, now, keys, |keys|, level, base, dim)
    ensures Laid(now, base + |keys| * dim, level)
  {
    hide Apart, Filed;
    forall k | k in now
      ensures now[k].level == level && now[k].dim > 0 && now[k].offset + now[k].dim <= base + |keys| * dim
    {
      FiledBound(was, now, keys, level, base, dim, k);
    }
    forall j, k | j in now && k in now && j != k
      ensures Apart(now[j], now[k])
    {
      FiledApart(was, now, keys, level, base, dim, j, k);
    }
  }

  lemma FiledNothing(was: map<Key, Entry>, keys: seq<Key>, level: nat, base: nat, dim: nat)
    ensures Filed(was, was, keys, 0, level, base, dim)
  {
  }

  /** A key that is already on file when its turn comes was known before or occurs twice in the batch. */
  lemma FiledClash(was: map<Key, Entry>, now: map<Key, Entry>, keys: seq<Key>, t: nat, level: nat, base: nat, dim: nat)
    requires t < |keys| && Filed(was, now, keys, t, level, base, dim) && keys[t] in now
    ensures !Distinct(keys) || keys[t] in was
    ensures Filed(was, now, keys, t, level, base, dim)
  {
    if keys[t] !in was {
      var i :| 0 <= i < t && keys[i] == keys[t];
    }
  }

  lemma FiledAll(was: map<Key, Entry>, now: map<Key, Entry>, keys: seq<Key>, level: nat, base: nat, dim: nat)
    requires Filed(was, now, keys, |keys|, level, base, dim)
    ensures Distinct(keys) && forall k :: k in keys ==> k !in was
  {
    assert keys[..|keys|] == keys;
  }

  lemma LaidBelow(entries: map<Key, Entry>, size: nat, level: nat)
    requires Laid(entries, size, level)
    ensures forall k :: k in entries ==> entries[k].offset + entries[k].dim <= size
  {
  }

  lemma SliceOfSlice(a: seq<real>, lo: nat, hi: nat, at: nat, count: nat)
    requires lo <= hi <= |a| && at + count <= hi - lo
    ensures a[lo..hi][at..at + count] == a[lo + at..lo + at + count]
  {
    var inner, outer := a[lo..hi][at..at + count], a[lo + at..lo + at + count];
    assert forall i :: 0 <= i < count ==> inner[i] == outer[i];
  }

  /** Columns below an unchanged prefix are unchanged. */
  lemma PrefixKeeps(before: seq<real>, after: seq<real>, base: nat, e: Entry)
    requires base <= |before| && base <= |after| && after[..base] == before[..base]
    requires e.offset + e.dim <= base
    ensures Column(after, e) == Column(before, e)
  {
    SliceOfSlice(after, 0, base, e.offset, e.dim);
    SliceOfSlice(before, 0, base, e.offset, e.dim);
  }

  lemma BatchLands(after: seq<real>, data: seq<real>, base: nat, count: nat, dim: nat, t: nat, level: nat)
    requires t < count && |data| == count * dim && base + |data| <= |after| && after[base..base + |data|] == data
    ensures t * dim + dim <= |data|
    ensures Column(after, Entry(level, base + t * dim, dim)) == BatchColumn(data, dim, t)
  {
    BatchFits(count, dim, t);
    SliceOfSlice(after, base, base + |data|, t * dim, dim);
  }

  /** Filing a batch behind the used prefix stores exactly its columns and keeps every earlier one. */
  lemma FiledStores(was: map<Key, Entry>, now: map<Key, Entry>, keys: seq<Key>, level: nat, base: nat, dim: nat,
                    before: seq<real>, after: seq<real>, data: seq<real>)
    requires dim > 0 && |data| == |keys| * dim && Filed(was, now, keys, |keys|, level, base, dim)
    requires Laid(was, base, level) && Laid(now, base + |data|, level)
    requires base <= |before| && base + |data| <= |after|
    requires after[..base] == before[..base] && after[base..base + |data|] == data
    ensures Stored(Columns(was, before), Columns(now, after), keys, data, dim)
  {
    hide Apart, Column, BatchColumn, Distinct;
    forall k | k in was
      ensures k in now && Column(after, now[k]) == Column(before, was[k])
    {
      PrefixKeeps(before, after, base, was[k]);
    }
    forall t | 0 <= t < |keys|
      ensures keys[t] in now && t * dim + dim <= |data| && Column(after, now[keys[t]]) == BatchColumn(data, dim, t)
    {
      BatchLands(after, data, base, |keys|, dim, t, level);
    }
    assert keys[..|keys|] == keys;
  }

  /** One more column behind a whole number of columns leaves those in place. */
  lemma AppendColumn(staged: seq<real>, column: seq<real>, dim: nat, t: nat)
    requires |staged| == t * dim && |column| == dim
    ensures |staged + column| == (t + 1) * dim && t * dim + dim <= |staged + column|
    ensures BatchColumn(staged + column, dim, t) == column
    ensures forall s :: 0 <= s < t ==>
      s * dim + dim <= |staged| && BatchColumn(staged + column, dim, s) == BatchColumn(staged, dim, s)
  {
    forall s | 0 <= s < t
      ensures s * dim + dim <= |staged| && BatchColumn(staged + column, dim, s) == BatchColumn(staged, dim, s)
    {
      BatchFits(t, dim, s);
    }
  }

  ghost predicate Gathered(live: map<Key, seq<real>>, keys: seq<Key>, t: nat, dim: nat, staged: seq<real>)
    requires t <= |keys|
  {
    && |staged| == t * dim
    && (forall s :: 0 <= s < t ==> keys[s] in live && |live[keys[s]]| == dim)
    && (forall s :: 0 <= s < t ==> s * dim + dim <= |staged| && BatchColumn(staged, dim, s) == live[keys[s]])
  }

  lemma GatherNext(live: map<Key, seq<real>>, keys: seq<Key>, t: nat, dim: nat, staged: seq<real>)
    requires t < |keys| && Gathered(live, keys, t, dim, staged) && keys[t] in live && |live[keys[t]]| == dim
    ensures Gathered(live, keys, t + 1, dim, staged + live[keys[t]])
  {
    AppendColumn(staged, live[keys[t]], dim, t);
  }

  function Overwritten(storage: seq<real>, at: nat, data: seq<real>): (r: seq<real>)
    requires at + |data| <= |storage|
    ensures |r| == |storage| && r[..at] == storage[..at] && r[at..at + |data|] == data
  {
    storage[..at] + data + storage[at + |data|..]
  }

  lemma BatchFiled(was: map<Key, Entry>, now: map<Key, Entry>, keys: seq<Key>, level: nat, base: nat, dim: nat,
                   before: seq<real>, after: seq<real>, data: seq<real>)
    requires dim > 0 && |data| == |keys| * dim && Filed(was, now, keys, |keys|, level, base, dim) && Laid(was, base, level)
    requires Appended(before, after, base, data)
    requires forall k :: k in was ==> was[k].offset + was[k].dim <= |before|
    ensures forall k :: k in now ==> now[k].offset + now[k].dim <= |after|
    ensures Laid(now, base + |data|, level) && Stored(Columns(was, before), Columns(now, after), keys, data, dim)
  {
    hide Laid, Filed, Stored;
    assert |keys| * dim == |data|;
    FiledLaid(was, now, keys, level, base, dim);
    FiledStores(was, now, keys, level, base, dim, before, after, data);
    LaidBelow(now, base + |data|, level);
  }

  /** Doubles a capacity until it is large enough. */
  method Doubled(capacity: nat, required: nat) returns (enough: nat)
    requires INITIAL_CAPACITY <= capacity
    ensures required <= enough && capacity <= enough && (capacity < required ==> enough < 2 * required)
    ensures capacity >= required ==> enough == capacity
  {
    enough := capacity;
    while enough < required
      invariant enough >= capacity && (enough > capacity ==> capacity < required && enough < 2 * required)
      decreases required - enough
    {
      enough := enough * 2;
    }
  }

  /** The values stand behind an unchanged prefix. */
  ghost predicate Appended(before: seq<real>, after: seq<real>, base: nat, data: seq<real>) {
    base <= |before| && base + |data| <= |after| && after[..base] == before[..base] && after[base..base + |data|] == data
  }

  method Overwrite(ghost before: seq<real>, storage: seq<real>, at: nat, data: seq<real>) returns (r: seq<real>)
    requires at <= |before| && at + |data| <= |storage| && storage[..at] == before[..at]
    ensures |r| == |storage| && Appended(before, r, at, data)
  {
    r := Overwritten(storage, at, data);
  }

  /** Every column of the first arena is still there, unchanged, in the second. */
  ghost predicate Survive(was: map<Key, Entry>, before: seq<real>, now: map<Key, Entry>, after: seq<real>) {
    forall k :: k in was && was[k].offset + was[k].dim <= |before| ==>
      k in now && now[k] == was[k] && was[k].offset + was[k].dim <= |after| && Column(after, was[k]) == Column(before, was[k])
  }

  lemma SurviveAll(was: map<Key, Entry>, storage: seq<real>)
    ensures Survive(was, storage, was, storage)
  {
  }

  lemma KeepsAll(was: map<Key, Entry>, before: seq<real>, after: seq<real>, base: nat, data: seq<real>, level: nat)
    requires Laid(was, base, level) && Appended(before, after, base, data)
    ensures Survive(was, before, was, after)
  {
    forall k | k in was
      ensures was[k].offset + was[k].dim <= base && Column(after, was[k]) == Column(before, was[k])
    {
      PrefixKeeps(before, after, base, was[k]);
    }
  }

  lemma FiledSurvive(was: map<Key, Entry>, before: seq<real>, now: map<Key, Entry>, after: seq<real>, keys: seq<Key>, t: nat,
                     level: nat, base: nat, dim: nat)
    requires t <= |keys| && Filed(was, now, keys, t, level, base, dim) && Survive(was, before, was, after)
    ensures Survive(was, before, now, after)
  {
  }

  /** Files the batch key by key and stops at the first one already on file. */
  method FileBatch(was: map<Key, Entry>, ghost before: seq<real>, ghost after: seq<real>, keys: seq<Key>, level: nat, base: nat, dim: nat)
    returns (ok: bool, now: map<Key, Entry>)
    requires Survive(was, before, was, after)
    ensures ok <==> Distinct(keys) && forall k :: k in keys ==> k !in was
    ensures ok ==> Filed(was, now, keys, |keys|, level, base, dim)
    ensures Survive(was, before, now, after)
  {
    hide Filed, Distinct, Survive;
    now := was;
    FiledNothing(was, keys, level, base, dim);
    for t := 0 to |keys|
      invariant Filed(was, now, keys, t, level, base, dim)
    {
      FiledSurvive(was, before, now, after, keys, t, level, base, dim);
      if keys[t] in now {
        FiledClash(was, now, keys, t, level, base, dim);
        return false, now;
      }
      FileNext(was, now, keys, t, level, base, dim);
      now := now[keys[t] := Entry(level, base + t * dim, dim)];
    }
    FiledAll(was, now, keys, level, base, dim);
    FiledSurvive(was, before, now, after, keys, |keys|, level, base, dim);
    return true, now;
  }

  lemma ColumnSize(entries: map<Key, Entry>, storage: seq<real>, k: Key)
    requires forall k :: k in entries ==> entries[k].offset + entries[k].dim <= |storage|
    ensures k in Columns(entries, storage) <==> k in entries
    ensures k in entries ==> |Columns(entries, storage)[k]| == entries[k].dim
  {
  }

  class CoefficientArena {
    var level: int
    var entries: map<Key, Entry>
    var size: nat
    /** The device buffer; its length is the capacity. */
    var storage: seq<real>
    var hasStorage: bool
    var hasStaging: bool
    var closed: bool
    var allocations: nat
    var frees: nat

    const maxTargets: nat

    /** Every allocation is either still held or has been freed. */
    ghost predicate Accounted()
      reads this
    {
      && (!hasStorage ==> storage == [])
      && allocations == frees + (if hasStorage then 1 else 0) + (if hasStaging then 1 else 0)
      && (closed ==> !hasStorage && !hasStaging)
    }

    ghost predicate Valid()
      reads this
    {
      && Accounted()
      && size <= |storage|
      && (level < 0 ==> entries == map[] && size == 0)
      && (level >= 0 ==> Laid(entries, size, level))
      && (forall k :: k in entries ==> entries[k].offset + entries[k].dim <= |storage|)
      && (closed ==> level < 0)
    }

    ghost function Live(): map<Key, seq<real>>
      reads this
      requires Valid()
    {
      Columns(entries, storage)
    }

    constructor (maxTargets: nat)
      ensures Valid() && level < 0 && !closed && Live() == map[] && this.maxTargets == maxTargets
    {
      this.maxTargets := maxTargets;
      level, entries, size, storage := -1, map[], 0, [];
      hasStorage, hasStaging, closed, allocations, frees := false, true, false, 1, 0;
    }

    method BeginLevel(l: nat)
      requires Valid() && level == -1 && !closed
      modifies this
      ensures Valid() && level == l && Live() == map[] && size == 0 && !closed
      ensures allocations == old(allocations) && |storage| == |old(storage)|
    {
      entries, size, level := map[], 0, l;
    }

    /** Grows the buffer by doubling until it holds `required` values; the used prefix survives. */
    method EnsureStorage(required: nat)
      requires Valid() && !closed
      modifies this`storage, this`hasStorage, this`allocations, this`frees
      ensures Valid() && required <= |storage| && |old(storage)| <= |storage|
      ensures storage[..size] == old(storage)[..size]
      ensures required <= |old(storage)| ==> storage == old(storage) && allocations == old(allocations)
      ensures required > |old(storage)| ==> |storage| < 2 * required || |storage| == INITIAL_CAPACITY
    {
      hide Laid;
      if required > |storage| {
        var capacity := Doubled(if |storage| > INITIAL_CAPACITY then |storage| else INITIAL_CAPACITY, required);
        allocations := allocations + 1;
        if hasStorage {
          frees := frees + 1;
        }
        storage := storage[..size] + seq(capacity - size, _ => 0.0);
        hasStorage := true;
      }
    }

    /** Makes room for a whole layer before its workers start. */
    method ReserveSlotLayer(l: int, dim: nat, targets: nat) returns (ok: bool)
      requires Valid() && !closed
      modifies this`storage, this`hasStorage, this`allocations, this`frees
      ensures Valid()
      ensures ok == (level == l && size == 0 && dim > 0)
      ensures ok ==> dim * targets <= |storage|
    {
      ok := level == l && size == 0 && dim > 0;
      if ok {
        EnsureStorage(dim * targets);
      }
    }

    /** Writes a batch behind the used prefix, which is that of the buffer before it grew, and files it. */
    method FileAt(ghost before: seq<real>, keys: seq<Key>, dim: nat, data: seq<real>) returns (ok: bool)
      requires Valid() && !closed && level >= 0 && dim > 0 && |data| == |keys| * dim
      requires size + |data| <= |storage| && size <= |before| && storage[..size] == before[..size]
      modifies this`entries, this`size, this`storage
      ensures Accounted() && |storage| == |old(storage)|
      ensures ok <==> Distinct(keys) && forall k :: k in keys ==> k !in old(entries)
      ensures ok ==> Valid() && size == old(size) + |data| && Stored(Columns(old(entries), before), Live(), keys, data, dim)
      ensures Survive(old(entries), before, entries, storage)
    {
      hide Laid, Filed, Distinct, Column, Stored, Survive, Columns, Appended;
      ghost var was := entries;
      LaidBelow(was, size, level);
      storage := Overwrite(before, storage, size, data);
      KeepsAll(was, before, storage, size, data, level);
      ok, entries := FileBatch(entries, before, storage, keys, level, size, dim);
      if ok {
        BatchFiled(was, entries, keys, level, size, dim, before, storage, data);
        size := size + |data|;
      }
    }

    /** Copies a batch of columns behind the used prefix and files them under their keys. A key already
        filed makes the call fail half way; the columns stored earlier are untouched even then. */
    method EnqueueStore(l: nat, keys: seq<Key>, dim: nat, data: seq<real>) returns (ok: bool)
      requires Valid() && !closed && dim > 0 && |data| == |keys| * dim
      modifies this
      ensures Accounted() && !closed && level == old(level)
      ensures ok <==> l == old(level) && keys != [] && Distinct(keys) && forall k :: k in keys ==> k !in old(entries)
      ensures ok ==> Valid() && size == old(size) + |data| && Stored(old(Live()), Live(), keys, data, dim)
      ensures Survive(old(entries), old(storage), entries, storage)
      ensures old(size) + |data| <= |old(storage)| ==> allocations == old(allocations) && |storage| == |old(storage)|
    {
      hide Laid, Distinct, Column, Stored, Survive, Columns;
      SurviveAll(entries, storage);
      ok := l == level && keys != [];
      if ok {
        ghost var before := storage;
        EnsureStorage(size + |data|);
        ok := FileAt(before, keys, dim, data);
      }
    }

    /** Copies the columns of the requested keys into the staging buffer, in the order of the request. */
    method Gather(l: int, dim: nat, keys: seq<Key>) returns (ok: bool, staged: seq<real>)
      requires Valid()
      ensures ok <==> l == level && 0 < dim <= MAXIMUM_DIM && 0 < |keys| <= maxTargets
                      && forall k :: k in keys ==> k in Live() && |Live()[k]| == dim
      ensures ok ==> |staged| == |keys| * dim
      ensures ok ==> forall t :: 0 <= t < |keys| ==>
        t * dim + dim <= |staged| && BatchColumn(staged, dim, t) == Live()[keys[t]]
    {
      staged := [];
      if l != level || dim == 0 || dim > MAXIMUM_DIM || keys == [] || |keys| > maxTargets {
        return false, [];
      }
      hide Column, Laid;
      for t := 0 to |keys|
        invariant Gathered(Live(), keys, t, dim, staged)
      {
        ColumnSize(entries, storage, keys[t]);
        if keys[t] !in entries || entries[keys[t]].dim != dim {
          return false, [];
        }
        GatherNext(Live(), keys, t, dim, staged);
        staged := staged + Column(storage, entries[keys[t]]);
      }
      return true, staged;
    }

    method FinishLevel(l: int) returns (ok: bool)
      requires Accounted() && !closed
      modifies this
      ensures ok == (l == old(level)) && !closed
      ensures ok ==> Valid() && level == -1 && Live() == map[]
      ensures Accounted() && storage == old(storage) && allocations == old(allocations) && frees == old(frees)
    {
      ok := l == level;
      if ok {
        entries, size, level := map[], 0, -1;
      }
    }

    /** Closing frees whatever is held, after a failed store too. */
    method Close()
      requires Accounted()
      modifies this
      ensures Accounted() && closed && allocations == frees && allocations == old(allocations)
    {
      if closed {
        return;
      }
      if hasStorage {
        storage, hasStorage, frees := [], false, frees + 1;
      }
      if hasStaging {
        hasStaging, frees := false, frees + 1;
      }
      entries, level, closed := map[], -1, true;
    }
  }
}
