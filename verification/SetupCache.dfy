/** NativeSetupCache: prepared spline setups kept on the host, a bounded part of them with device
    handles, in two device tiers by penalty count. */
module SetupCache {
  import opened Collections
  import opened Decimal
  import opened LruCache

  /** `kSinglePenaltyPreparedCacheCapacity`, `kMultiPenaltyPreparedCacheCapacity`, `kHostPreparedCacheCapacity`. */
  const SINGLE_CAPACITY: nat := 2048
  const MULTI_CAPACITY: nat := 8192
  const HOST_CAPACITY: nat := 16384

  function CapacityOf(single: bool): nat {
    if single then SINGLE_CAPACITY else MULTI_CAPACITY
  }

  /** An order list after a full one has given up its least recently used key. */
  function Trimmed<K>(order: seq<K>, capacity: nat): seq<K> {
    if |order| >= capacity && order != [] then order[..|order| - 1] else order
  }

  type Conditioning = seq<nat>

  /** A prepared setup; `single` says whether it has one penalty. */
  datatype Context = Context(conditioning: Conditioning, single: bool)

  type Builder = Conditioning -> bool

  // ---------------------------------------------------------------- one device tier

  ghost predicate TierOk(order: seq<Conditioning>, device: map<Conditioning, Context>, single: bool, capacity: nat) {
    && Distinct(order) && |order| <= capacity
    && forall k :: k in order <==> k in device && device[k].single == single
  }

  lemma EraseMembers(order: seq<Conditioning>, k: Conditioning)
    requires Distinct(order)
    ensures Distinct(Erase(order, k))
    ensures forall x :: x in Erase(order, k) <==> x in order && x != k
    ensures |Erase(order, k)| == |order| - if k in order then 1 else 0
    decreases |order|
  {
    hide Distinct;
    if order != [] {
      DistinctTail(order);
      if order[0] != k {
        EraseMembers(order[1..], k);
        DistinctPush(order[0], Erase(order[1..], k));
      }
    }
  }

  lemma TierTouch(order: seq<Conditioning>, device: map<Conditioning, Context>, single: bool, capacity: nat, k: Conditioning)
    requires TierOk(order, device, single, capacity) && k in order
    ensures TierOk([k] + Erase(order, k), device, single, capacity)
  {
    EraseMembers(order, k);
  }

  lemma TierPush(order: seq<Conditioning>, device: map<Conditioning, Context>, single: bool, capacity: nat, c: Context)
    requires TierOk(order, device, single, capacity) && c.conditioning !in device
    requires c.single == single ==> |order| < capacity
    ensures TierOk(if c.single == single then [c.conditioning] + order else order, device[c.conditioning := c], single, capacity)
  {
  }

  lemma TierEvict(order: seq<Conditioning>, device: map<Conditioning, Context>, single: bool, capacity: nat, victim: Conditioning)
    requires TierOk(order, device, single, capacity) && victim in device
    ensures device[victim].single != single ==> TierOk(order, device - {victim}, single, capacity)
    ensures order != [] && victim == order[|order| - 1] ==> TierOk(order[..|order| - 1], device - {victim}, single, capacity)
  {
    if order != [] && victim == order[|order| - 1] {
      var rest := order[..|order| - 1];
      assert order == rest + [victim];
    }
  }

  lemma TierBound(order: seq<Conditioning>, device: map<Conditioning, Context>, single: bool, capacity: nat)
    requires TierOk(order, device, single, capacity)
    ensures |order| <= capacity
  {
  }

  lemma HostBound(hostOrder: seq<Conditioning>, host: map<Conditioning, Context>)
    requires HostOk(hostOrder, host)
    ensures |hostOrder| == |host| <= HOST_CAPACITY
  {
  }

  lemma TierMember(order: seq<Conditioning>, device: map<Conditioning, Context>, single: bool, capacity: nat, i: nat)
    requires TierOk(order, device, single, capacity) && i < |order|
    ensures order[i] in device && device[order[i]].single == single
  {
    assert order[i] in order;
  }

  /** The two tiers together hold no more keys than their order lists. */
  lemma DeviceSize(singles: seq<Conditioning>, multis: seq<Conditioning>, device: map<Conditioning, Context>, a: nat, b: nat)
    requires TierOk(singles, device, true, a) && TierOk(multis, device, false, b)
    ensures |device| <= a + b
  {
    var both := singles + multis;
    assert device.Keys <= set k | k in both;
    Cardinality(both);
    SubsetSize(device.Keys, set k | k in both);
  }

  lemma {:induction false} Cardinality(order: seq<Conditioning>)
    ensures |set k | k in order| <= |order|
  {
    if order != [] {
      Cardinality(order[1..]);
      assert (set k | k in order) == {order[0]} + set k | k in order[1..];
    }
  }

  // ------------------------------------------------------------------- the host tier

  ghost predicate HostOk(hostOrder: seq<Conditioning>, host: map<Conditioning, Context>) {
    && Distinct(hostOrder) && |hostOrder| == |host| <= HOST_CAPACITY
    && (forall k :: k in hostOrder <==> k in host)
  }

  /** The least recently used host entry without a device entry: the last such position. */
  ghost predicate LastDormant(hostOrder: seq<Conditioning>, device: map<Conditioning, Context>, at: nat) {
    && at < |hostOrder| && hostOrder[at] !in device
    && forall i :: at < i < |hostOrder| ==> hostOrder[i] in device
  }

  /** A new key goes to the front of the host order; a full host tier first loses the least
      recently used key without a device entry. */
  ghost predicate HostGrew(was: seq<Conditioning>, device: map<Conditioning, Context>, now: seq<Conditioning>,
                           key: Conditioning, victim: nat) {
    if |was| < HOST_CAPACITY then now == [key] + was
    else LastDormant(was, device, victim) && now == [key] + Erase(was, was[victim])
  }

  /** A full host tier always has a dormant entry: the device tiers together are smaller. */
  lemma DormantExists(hostOrder: seq<Conditioning>, host: map<Conditioning, Context>,
                      singles: seq<Conditioning>, multis: seq<Conditioning>, device: map<Conditioning, Context>)
    requires HostOk(hostOrder, host) && |host| == HOST_CAPACITY
    requires TierOk(singles, device, true, SINGLE_CAPACITY) && TierOk(multis, device, false, MULTI_CAPACITY)
    ensures exists i :: 0 <= i < |hostOrder| && hostOrder[i] !in device
  {
    DeviceSize(singles, multis, device, SINGLE_CAPACITY, MULTI_CAPACITY);
    if host.Keys <= device.Keys {
      SubsetSize(host.Keys, device.Keys);
    }
    var k :| k in host && k !in device;
    assert k in hostOrder;
  }

  function LiveKeys(device: map<Conditioning, Context>): set<string> {
    set k | k in device :: ConditioningKey(k)
  }

  lemma LiveAfter(device: map<Conditioning, Context>, k: Conditioning, c: Context)
    ensures LiveKeys(device[k := c]) == LiveKeys(device) + {ConditioningKey(k)}
    ensures k in device ==> LiveKeys(device - {k}) == LiveKeys(device) - {ConditioningKey(k)}
  {
    forall j | j in device && ConditioningKey(j) == ConditioningKey(k)
      ensures j == k
    {
      ConditioningKeyInjective(j, k);
    }
    assert k in device[k := c];
    forall j | j in device
      ensures j in device[k := c]
    {
    }
  }

  // ------------------------------------------------------------------------ the cache

  class Cache {
    const build: Builder
    var singles: seq<Conditioning>
    var multis: seq<Conditioning>
    var device: map<Conditioning, Context>
    var live: set<string>
    var hostOrder: seq<Conditioning>
    var host: map<Conditioning, Context>
    /** Contexts that own a device handle. */
    var handles: set<Conditioning>
    var requests: nat
    var deviceHits: nat
    var hostHits: nat
    var misses: nat

    ghost predicate Valid()
      reads this
    {
      && TierOk(singles, device, true, SINGLE_CAPACITY) && TierOk(multis, device, false, MULTI_CAPACITY)
      && HostOk(hostOrder, host)
      && (forall k :: k in host ==> host[k] == Context(k, build(k)))
      && (forall k :: k in device ==> k in host && device[k] == host[k])
      && live == LiveKeys(device)
      && handles <= device.Keys
      && requests == deviceHits + hostHits + misses
    }

    ghost function OrderOf(single: bool): seq<Conditioning>
      reads this
    {
      if single then singles else multis
    }

    constructor (builder: Builder)
      ensures Valid() && device == map[] && host == map[] && requests == 0
      ensures build == builder
    {
      build := builder;
      singles, multis, device, live := [], [], map[], {};
      hostOrder, host, handles := [], map[], {};
      requests, deviceHits, hostHits, misses := 0, 0, 0, 0;
    }

    /** Drops the least recently used entry of one device tier and closes its handle. */
    method EvictOne(single: bool)
      requires Valid() && OrderOf(single) != []
      modifies this`singles, this`multis, this`device, this`live, this`handles
      ensures Valid()
      ensures var victim := old(OrderOf(single))[|old(OrderOf(single))| - 1];
        device == old(device) - {victim} && handles == old(handles) - {victim}
      ensures OrderOf(single) == old(OrderOf(single))[..|old(OrderOf(single))| - 1]
      ensures OrderOf(!single) == old(OrderOf(!single))
    {
      hide TierOk, HostOk, LiveKeys, ConditioningKey;
      var order := if single then singles else multis;
      var victim := order[|order| - 1];
      TierMember(order, device, single, if single then SINGLE_CAPACITY else MULTI_CAPACITY, |order| - 1);
      TierEvict(singles, device, true, SINGLE_CAPACITY, victim);
      TierEvict(multis, device, false, MULTI_CAPACITY, victim);
      LiveAfter(device, victim, device[victim]);
      if single {
        singles := singles[..|singles| - 1];
      } else {
        multis := multis[..|multis| - 1];
      }
      live := live - {ConditioningKey(victim)};
      handles := handles - {victim};
      device := device - {victim};
    }
  
    /** Drops the least recently used host entry that has no device entry. */
    method EvictHostOne() returns (ghost at: nat)
      requires Valid() && |host| >= HOST_CAPACITY
      modifies this`hostOrder, this`host
      ensures Valid()
      ensures LastDormant(old(hostOrder), device, at)
      ensures hostOrder == Erase(old(hostOrder), old(hostOrder)[at]) && host == old(host) - {old(hostOrder)[at]}
      ensures |host| < HOST_CAPACITY
    {
      hide TierOk, LiveKeys, Distinct, HostOk, LastDormant;
      HostSize(hostOrder, host);
      DormantExists(hostOrder, host, singles, multis, device);
      var last := FindDormant(hostOrder, device);
      at := last;
      DormantIndex(hostOrder, device, last);
      var key := hostOrder[last];
      HostErase(hostOrder, host, key);
      hostOrder := Erase(hostOrder, key);
      host := host - {key};
    }

    /** Moves a device entry to the front of its tier. */
    method TouchDevice(key: Conditioning)
      requires Valid() && key in device
      modifies this`singles, this`multis
      ensures Valid()
      ensures OrderOf(device[key].single) == [key] + Erase(old(OrderOf(device[key].single)), key)
      ensures OrderOf(!device[key].single) == old(OrderOf(!device[key].single))
    {
      hide HostOk, LiveKeys, Erase;
      if device[key].single {
        assert key in singles;
        TierTouch(singles, device, true, SINGLE_CAPACITY, key);
        hide TierOk;
        singles := [key] + Erase(singles, key);
      } else {
        assert key in multis;
        TierTouch(multis, device, false, MULTI_CAPACITY, key);
        hide TierOk;
        multis := [key] + Erase(multis, key);
      }
    }

    method TouchHost(key: Conditioning)
      requires Valid() && key in host
      modifies this`hostOrder
      ensures Valid() && hostOrder == [key] + Erase(old(hostOrder), key)
    {
      assert key in hostOrder;
      HostTouch(hostOrder, host, key);
      hide TierOk, HostOk, LiveKeys, Erase;
      hostOrder := [key] + Erase(hostOrder, key);
    }

    method PushEntry(context: Context, withHandle: bool)
      requires Valid() && context.conditioning !in device && |OrderOf(context.single)| < CapacityOf(context.single)
      requires context.conditioning in host && host[context.conditioning] == context
      modifies this`singles, this`multis, this`device, this`live, this`handles
      ensures Valid() && context.conditioning in device
      ensures OrderOf(context.single) == [context.conditioning] + old(OrderOf(context.single))
      ensures OrderOf(!context.single) == old(OrderOf(!context.single))
      ensures withHandle ==> context.conditioning in handles
    {
      hide TierOk, HostOk, LiveKeys, ConditioningKey;
      TierPush(singles, device, true, SINGLE_CAPACITY, context);
      TierPush(multis, device, false, MULTI_CAPACITY, context);
      LiveAfter(device, context.conditioning, context);
      if withHandle {
        handles := handles + {context.conditioning};
      }
      if context.single {
        singles := [context.conditioning] + singles;
      } else {
        multis := [context.conditioning] + multis;
      }
      device := device[context.conditioning := context];
      live := live + {ConditioningKey(context.conditioning)};
    }

    /** Gives a host context a device entry, evicting from its tier if that is full. */
    method Admit(context: Context, withHandle: bool)
      requires Valid() && context.conditioning !in device
      requires context.conditioning in host && host[context.conditioning] == context
      modifies this`singles, this`multis, this`device, this`live, this`handles
      ensures Valid() && context.conditioning in device
      ensures OrderOf(context.single) == [context.conditioning] + Trimmed(old(OrderOf(context.single)), CapacityOf(context.single))
      ensures OrderOf(!context.single) == old(OrderOf(!context.single))
      ensures withHandle ==> context.conditioning in handles
    {
      hide TierOk, HostOk, LiveKeys;
      TierBound(singles, device, true, SINGLE_CAPACITY);
      TierBound(multis, device, false, MULTI_CAPACITY);
      var order := if context.single then singles else multis;
      if |order| >= CapacityOf(context.single) {
        EvictOne(context.single);
      }
      PushEntry(context, withHandle);
    }

    /** The prepared setup of a conditioning set: from the device tiers, rehydrated from the host
        tier, or built. Whatever the cache holds, the caller gets what building would give. */
    method Get(conditioning: Conditioning, deferHandles: bool) returns (context: Context, ghost victim: nat)
      requires Valid()
      modifies this
      ensures Valid()
      ensures context == Context(conditioning, build(conditioning))
      ensures conditioning in device && conditioning in host
      ensures requests == old(requests) + 1
      ensures deviceHits == old(deviceHits) + if conditioning in old(device) then 1 else 0
      ensures hostHits == old(hostHits) + if conditioning in old(host) && conditioning !in old(device) then 1 else 0
      ensures conditioning in old(host) ==> host == old(host) && hostOrder == [conditioning] + Erase(old(hostOrder), conditioning)
      ensures conditioning !in old(host) ==> HostGrew(old(hostOrder), old(device), hostOrder, conditioning, victim)
      ensures OrderOf(context.single) == [conditioning] +
        if conditioning in old(device) then Erase(old(OrderOf(context.single)), conditioning)
        else Trimmed(old(OrderOf(context.single)), CapacityOf(context.single))
      ensures OrderOf(!context.single) == old(OrderOf(!context.single))
    {
      hide TierOk, HostOk, LiveKeys, ConditioningKey, Erase, Trimmed, HostGrew;
      requests := requests + 1;
      victim := 0;
      if conditioning in device {
        deviceHits := deviceHits + 1;
        context := device[conditioning];
        TouchDevice(conditioning);
        TouchHost(conditioning);
      } else if conditioning in host {
        hostHits := hostHits + 1;
        context := host[conditioning];
        Admit(context, true);
        TouchHost(conditioning);
      } else {
        misses := misses + 1;
        context, victim := BuildEntry(conditioning, deferHandles);
      }
    }

    /** The miss path: make room on the host, build, admit to the device. */
    method BuildEntry(conditioning: Conditioning, deferHandles: bool) returns (context: Context, ghost victim: nat)
      requires Valid() && conditioning !in host
      modifies this`singles, this`multis, this`device, this`live, this`handles, this`hostOrder, this`host
      ensures Valid()
      ensures context == Context(conditioning, build(conditioning))
      ensures conditioning in device && conditioning in host
      ensures HostGrew(old(hostOrder), old(device), hostOrder, conditioning, victim)
      ensures OrderOf(context.single) == [conditioning] + Trimmed(old(OrderOf(context.single)), CapacityOf(context.single))
      ensures OrderOf(!context.single) == old(OrderOf(!context.single))
    {
      hide TierOk, HostOk, LiveKeys, HostGrew, Trimmed;
      context := Context(conditioning, build(conditioning));
      victim := GrowHost(context);
      Admit(context, !deferHandles);
    }

    /** Adds a host entry, evicting a dormant one from a full tier. */
    method GrowHost(context: Context) returns (ghost victim: nat)
      requires Valid() && context.conditioning !in host
      requires context == Context(context.conditioning, build(context.conditioning))
      modifies this`hostOrder, this`host
      ensures Valid() && context.conditioning in host
      ensures HostGrew(old(hostOrder), device, hostOrder, context.conditioning, victim)
    {
      hide TierOk, HostOk, LiveKeys, Erase, LastDormant;
      HostBound(hostOrder, host);
      victim := 0;
      if |host| >= HOST_CAPACITY {
        victim := EvictHostOne();
      }
      PushHost(context);
    }

    method PushHost(context: Context)
      requires Valid() && context.conditioning !in host && |host| < HOST_CAPACITY
      requires context == Context(context.conditioning, build(context.conditioning))
      modifies this`hostOrder, this`host
      ensures Valid() && context.conditioning in host && hostOrder == [context.conditioning] + old(hostOrder)
    {
      hide TierOk, HostOk, LiveKeys;
      HostPush(hostOrder, host, context);
      hostOrder := [context.conditioning] + hostOrder;
      host := host[context.conditioning := context];
    }

    /** Gives a deferred context its handle; a second call changes nothing. A context whose device entry
        has been evicted meanwhile gets one too, which is its own and not the cache's. */
    method MaterializeDevice(context: Context)
      requires Valid()
      modifies this`handles
      ensures Valid() && handles == old(handles) + (if context.conditioning in device then {context.conditioning} else {})
    {
      hide TierOk, HostOk, LiveKeys;
      if context.conditioning in device {
        handles := handles + {context.conditioning};
      }
    }

    method ContainsConditioningKey(key: string) returns (found: bool)
      requires Valid()
      ensures found <==> exists k :: k in device && ConditioningKey(k) == key
    {
      found := key in live;
    }
  }

  lemma HostTouch(hostOrder: seq<Conditioning>, host: map<Conditioning, Context>, key: Conditioning)
    requires HostOk(hostOrder, host) && key in hostOrder
    ensures HostOk([key] + Erase(hostOrder, key), host)
  {
    EraseMembers(hostOrder, key);
  }

  lemma HostPush(hostOrder: seq<Conditioning>, host: map<Conditioning, Context>, c: Context)
    requires HostOk(hostOrder, host) && c.conditioning !in host && |host| < HOST_CAPACITY
    ensures HostOk([c.conditioning] + hostOrder, host[c.conditioning := c])
  {
  }

  lemma HostSize(hostOrder: seq<Conditioning>, host: map<Conditioning, Context>)
    requires HostOk(hostOrder, host)
    ensures |host| <= HOST_CAPACITY
  {
  }

  lemma DormantIndex(hostOrder: seq<Conditioning>, device: map<Conditioning, Context>, at: nat)
    requires LastDormant(hostOrder, device, at)
    ensures at < |hostOrder| && hostOrder[at] in hostOrder && hostOrder[at] !in device
  {
  }

  /** Looks for the least recently used host entry without a device entry, from the back. */
  method FindDormant(hostOrder: seq<Conditioning>, device: map<Conditioning, Context>) returns (at: nat)
    requires exists i :: 0 <= i < |hostOrder| && hostOrder[i] !in device
    ensures LastDormant(hostOrder, device, at)
  {
    var candidate := |hostOrder|;
    while candidate != 0 && hostOrder[candidate - 1] in device
      invariant 0 <= candidate <= |hostOrder|
      invariant forall i :: candidate <= i < |hostOrder| ==> hostOrder[i] in device
    {
      candidate := candidate - 1;
    }
    at := candidate - 1;
  }

  lemma HostErase(hostOrder: seq<Conditioning>, host: map<Conditioning, Context>, key: Conditioning)
    requires HostOk(hostOrder, host) && key in hostOrder
    ensures HostOk(Erase(hostOrder, key), host - {key}) && |host - {key}| < HOST_CAPACITY
  {
    EraseMembers(hostOrder, key);
    assert host.Keys == (host - {key}).Keys + {key};
  }
}
