/** The optimizer slot pool: workers share one work counter, each owns one reusable output slot, and a
    FIFO copy stream moves finished outputs into the coefficient arena. Every interleaving of the
    steps below, with a failure possible at every point, is a run. */
module SlotPool {
  import opened Arena
  import opened Collections

  /** One request: the keys of its targets and the columns its optimization yields. */
  datatype Job = Job(keys: seq<Key>, data: seq<real>)

  datatype Phase =
    | Idle | Looked | Claimed(job: nat) | Produced(job: nat) | Queued(job: nat, upTo: nat) | Drained(job: nat)
    | Failing(upTo: nat) | Settled | Stopped

  /** `buffer` is the slot's output memory; it may be overwritten as soon as it is not leased. */
  datatype Worker = Worker(phase: Phase, leased: bool, buffer: seq<real>)

  /** One copy given to the stream: from a slot's output memory into the arena. */
  datatype Copy = Copy(slot: nat, job: nat, offset: nat)

  /** copies[..landed] have been carried out; copies[landed..] is the stream's queue. */
  datatype State = State(
    next: nat, cancelled: bool, error: bool, workers: seq<Worker>, copies: seq<Copy>, landed: nat,
    entries: map<Key, Entry>, size: nat, storage: seq<real>, stored: set<nat>, complete: set<nat>)

  datatype Pool = Pool(jobs: seq<Job>, level: nat, dim: nat) {
    ghost predicate Valid() {
      dim > 0 && forall i :: 0 <= i < |jobs| ==> |jobs[i].data| == |jobs[i].keys| * dim && jobs[i].keys != []
    }
  }

  datatype Action =
    | Look(w: nat)
    | Take(w: nat)
    | Produce(w: nat)
    | Enqueue(w: nat, filed: map<Key, Entry>)
    | Clash(w: nat, filed: map<Key, Entry>)
    | Land
    | Wait(w: nat)
    | Release(w: nat, scrap: seq<real>)
    | Fail(w: nat)
    | Drain(w: nat)
    | Abandon(w: nat, scrap: seq<real>)

  // ---------- the steps ----------

  predicate At(s: State, w: nat) { w < |s.workers| }

  ghost predicate Enabled(p: Pool, s: State, a: Action) {
    match a
    case Look(w) => At(s, w) && s.workers[w].phase.Idle?
    case Take(w) => At(s, w) && s.workers[w].phase.Looked?
    case Produce(w) => At(s, w) && s.workers[w].phase.Claimed? && !s.workers[w].leased
    case Enqueue(w, filed) =>
      At(s, w) && s.workers[w].phase.Produced? && s.workers[w].phase.job < |p.jobs|
      && Filed(s.entries, filed, JobOf(p, s, w).keys, |JobOf(p, s, w).keys|, p.level, s.size, p.dim)
    case Clash(w, filed) =>
      At(s, w) && s.workers[w].phase.Produced? && s.workers[w].phase.job < |p.jobs|
      && !(Distinct(JobOf(p, s, w).keys) && forall k :: k in JobOf(p, s, w).keys ==> k !in s.entries)
    case Land => s.landed < |s.copies|
    case Wait(w) => At(s, w) && s.workers[w].phase.Queued? && s.workers[w].phase.upTo <= s.landed
    case Release(w, _) => At(s, w) && s.workers[w].phase.Drained?
    case Fail(w) => At(s, w) && Fallible(s.workers[w].phase)
    case Drain(w) => At(s, w) && s.workers[w].phase.Failing? && s.workers[w].phase.upTo <= s.landed
    case Abandon(w, _) => At(s, w) && s.workers[w].phase.Settled?
  }

  predicate Fallible(f: Phase) { f.Claimed? || f.Produced? || f.Queued? || f.Drained? }

  function JobOf(p: Pool, s: State, w: nat): Job
    requires At(s, w) && s.workers[w].phase.Produced? && s.workers[w].phase.job < |p.jobs|
  {
    p.jobs[s.workers[w].phase.job]
  }

  function Goto(s: State, w: nat, f: Phase): State
    requires At(s, w)
  {
    s.(workers := s.workers[w := s.workers[w].(phase := f)])
  }

  function Free(s: State, w: nat, f: Phase, scrap: seq<real>): State
    requires At(s, w)
  {
    s.(workers := s.workers[w := Worker(f, false, scrap)])
  }

  ghost function Apply(p: Pool, s: State, a: Action): State
    requires Inv(p, s) && Enabled(p, s, a)
  {
    match a
    case Look(w) => Goto(s, w, if s.cancelled then Stopped else Looked)
    case Take(w) => Goto(s, w, if s.next < |p.jobs| then Claimed(s.next) else Stopped).(next := s.next + 1)
    case Produce(w) =>
      var i := s.workers[w].phase.job;
      assert WorkerOk(p, s, w) && i in Holds(s.workers[w].phase);
      s.(workers := s.workers[w := Worker(Produced(i), true, p.jobs[i].data)])
    case Enqueue(w, filed) =>
      var i := s.workers[w].phase.job;
      Goto(s, w, Queued(i, |s.copies| + 1)).(
        copies := s.copies + [Copy(w, i, s.size)], entries := filed, size := s.size + |p.jobs[i].data|, stored := s.stored + {i})
    case Clash(w, filed) =>
      // the copy is under way before the duplicate key is noticed, and the used size stays
      var i := s.workers[w].phase.job;
      Goto(s, w, Failing(|s.copies| + 1)).(
        copies := s.copies + [Copy(w, i, s.size)], entries := filed, cancelled := true, error := true)
    case Land =>
      var c := s.copies[s.landed];
      assert Pinned(p, s, s.landed) && InRange(p, s, s.landed);
      s.(landed := s.landed + 1, storage := Overwritten(s.storage, c.offset, s.workers[c.slot].buffer))
    case Wait(w) => Goto(s, w, Drained(s.workers[w].phase.job))
    case Release(w, scrap) => Free(s, w, Idle, scrap).(complete := s.complete + {s.workers[w].phase.job})
    case Fail(w) => Goto(s, w, Failing(|s.copies|)).(cancelled := true, error := true)
    case Drain(w) => Goto(s, w, Settled)
    case Abandon(w, scrap) => Free(s, w, Stopped, scrap)
  }

  // ---------- the invariant ----------

  function Holds(f: Phase): set<nat> {
    match f
    case Claimed(i) => {i}
    case Produced(i) => {i}
    case Queued(i, _) => {i}
    case Drained(i) => {i}
    case _ => {}
  }

  predicate Unleased(f: Phase) { f.Idle? || f.Looked? || f.Claimed? || f.Stopped? }

  /** One worker's slot agrees with its phase. */
  ghost predicate WorkerOk(p: Pool, s: State, w: nat)
    requires At(s, w)
  {
    var k := s.workers[w];
    && (Unleased(k.phase) ==> !k.leased)
    && (k.phase.Produced? || k.phase.Queued? || k.phase.Drained? ==> k.leased)
    && (forall i :: i in Holds(k.phase) ==> i < s.next && i < |p.jobs| && i !in s.complete)
    && (k.phase.Produced? ==> k.buffer == p.jobs[k.phase.job].data)
    && (k.phase.Claimed? || k.phase.Produced? ==> k.phase.job !in s.stored)
    && (k.phase.Queued? || k.phase.Drained? ==> k.phase.job in s.stored)
    && (k.phase.Queued? ==> k.phase.upTo <= |s.copies|)
    && (k.phase.Failing? ==> k.phase.upTo <= |s.copies|)
    && (k.phase.Failing? || k.phase.Settled? ==> s.error)
    && (k.phase.Stopped? ==> s.error || |p.jobs| <= s.next)
  }

  /** A copy still in the queue: its slot is leased, holds that job's columns, and its worker is waiting
      for this copy. */
  ghost predicate Pinned(p: Pool, s: State, k: nat)
    requires k < |s.copies|
  {
    var c := s.copies[k];
    && c.slot < |s.workers| && c.job < |p.jobs|
    && s.workers[c.slot].leased && s.workers[c.slot].buffer == p.jobs[c.job].data
    && ((s.workers[c.slot].phase.Queued? && k < s.workers[c.slot].phase.upTo)
        || (s.workers[c.slot].phase.Failing? && k < s.workers[c.slot].phase.upTo))
  }

  ghost predicate InRange(p: Pool, s: State, k: nat)
    requires k < |s.copies|
  {
    s.copies[k].job < |p.jobs| && s.copies[k].offset + |p.jobs[s.copies[k].job].data| <= |s.storage|
  }

  function StoredBelow(p: Pool, stored: set<nat>, n: nat): nat
    requires n <= |p.jobs|
  {
    if n == 0 then 0 else StoredBelow(p, stored, n - 1) + (if n - 1 in stored then |p.jobs[n - 1].data| else 0)
  }

  function Reserved(p: Pool, n: nat): nat
    requires n <= |p.jobs|
  {
    if n == 0 then 0 else Reserved(p, n - 1) + |p.jobs[n - 1].data|
  }

  ghost predicate Workers(p: Pool, s: State) {
    && (forall w :: 0 <= w < |s.workers| ==> WorkerOk(p, s, w))
    && (forall v, w :: 0 <= v < w < |s.workers| ==> Holds(s.workers[v].phase) !! Holds(s.workers[w].phase))
  }

  ghost predicate Queue(p: Pool, s: State) {
    && s.landed <= |s.copies|
    && (forall k :: s.landed <= k < |s.copies| ==> Pinned(p, s, k))
    && (forall k :: 0 <= k < |s.copies| ==> InRange(p, s, k))
  }

  ghost predicate Room(p: Pool, s: State) {
    && s.size == StoredBelow(p, s.stored, |p.jobs|)
    && Reserved(p, |p.jobs|) <= |s.storage|
    && s.complete <= s.stored
    && (forall i :: i in s.stored ==> i < s.next && i < |p.jobs|)
  }

  /** Every job below the counter is finished or in some worker's hands. */
  ghost predicate Tracked(p: Pool, s: State) {
    forall i :: 0 <= i < s.next && i < |p.jobs| ==> i in s.complete || Held(s, i)
  }

  ghost predicate Held(s: State, i: nat) {
    exists w :: 0 <= w < |s.workers| && i in Holds(s.workers[w].phase)
  }

  /** Without an error: the copies fill the arena from the left, each job once, carried-out copies are in
      place, and exactly their keys are on file. */
  ghost predicate Placed(p: Pool, s: State) {
    && (forall j, k :: 0 <= j < k < |s.copies| ==> Before(p, s, j, k))
    && (forall k :: 0 <= k < |s.copies| ==> InUse(p, s, k))
    && (forall k :: 0 <= k < s.landed && k < |s.copies| ==> Landed(p, s, k))
    && (forall k :: 0 <= k < |s.copies| ==> OnFile(p, s, k))
    && (forall i :: i in s.stored ==> Copied(s, i))
    && (forall k :: 0 <= k < |s.copies| ==> s.copies[k].job in s.stored)
    && (forall key :: key in s.entries ==> FromCopy(p, s, key))
  }

  ghost predicate Copied(s: State, i: nat) {
    exists k :: 0 <= k < |s.copies| && s.copies[k].job == i
  }

  ghost predicate FromCopy(p: Pool, s: State, key: Key) {
    exists k :: 0 <= k < |s.copies| && s.copies[k].job < |p.jobs| && key in p.jobs[s.copies[k].job].keys
  }

  ghost predicate Before(p: Pool, s: State, j: nat, k: nat)
    requires j < |s.copies| && k < |s.copies|
  {
    s.copies[j].job < |p.jobs| && s.copies[j].offset + |p.jobs[s.copies[j].job].data| <= s.copies[k].offset
  }

  ghost predicate InUse(p: Pool, s: State, k: nat)
    requires k < |s.copies|
  {
    s.copies[k].job < |p.jobs| && s.copies[k].offset + |p.jobs[s.copies[k].job].data| <= s.size
  }

  ghost predicate Landed(p: Pool, s: State, k: nat)
    requires k < |s.copies|
  {
    var c := s.copies[k];
    c.job < |p.jobs| && c.offset + |p.jobs[c.job].data| <= |s.storage|
    && s.storage[c.offset..c.offset + |p.jobs[c.job].data|] == p.jobs[c.job].data
  }

  ghost predicate OnFile(p: Pool, s: State, k: nat)
    requires k < |s.copies|
  {
    var c := s.copies[k];
    c.job < |p.jobs| && forall t :: 0 <= t < |p.jobs[c.job].keys| ==>
      p.jobs[c.job].keys[t] in s.entries && s.entries[p.jobs[c.job].keys[t]] == Entry(p.level, c.offset + t * p.dim, p.dim)
  }

  ghost predicate Inv(p: Pool, s: State) {
    && p.Valid()
    && Workers(p, s)
    && Queue(p, s)
    && Room(p, s)
    && (s.cancelled <==> s.error)
    && (!s.error ==> Tracked(p, s) && Placed(p, s))
  }

  ghost predicate Init(p: Pool, s: State) {
    && p.Valid()
    && s.next == 0 && !s.cancelled && !s.error
    && (forall w :: 0 <= w < |s.workers| ==> s.workers[w].phase == Idle && !s.workers[w].leased)
    && s.copies == [] && s.landed == 0 && s.entries == map[] && s.size == 0 && s.stored == {} && s.complete == {}
    && Reserved(p, |p.jobs|) <= |s.storage|
  }

  // ---------- frames ----------

  ghost predicate SameArena(s: State, t: State) {
    t.copies == s.copies && t.landed == s.landed && t.entries == s.entries && t.size == s.size
    && t.storage == s.storage && t.stored == s.stored
  }

  /** Only worker w changes, and shared records only grow. */
  ghost predicate OnlyWorker(s: State, t: State, w: nat) {
    && w < |s.workers| == |t.workers|
    && (forall v :: 0 <= v < |s.workers| && v != w ==> t.workers[v] == s.workers[v])
    && s.next <= t.next && (s.error ==> t.error) && |s.copies| <= |t.copies|
    && s.complete <= t.complete <= s.complete + Holds(s.workers[w].phase)
    && s.stored <= t.stored <= s.stored + Holds(s.workers[w].phase)
  }

  lemma OtherKeeps(p: Pool, s: State, t: State, w: nat, v: nat)
    requires OnlyWorker(s, t, w) && v < |s.workers| && v != w
    requires WorkerOk(p, s, v) && Holds(s.workers[v].phase) !! Holds(s.workers[w].phase)
    ensures WorkerOk(p, t, v)
  {
    assert forall i :: i in Holds(s.workers[v].phase) ==> i !in Holds(s.workers[w].phase);
  }

  lemma WorkersKeep(p: Pool, s: State, t: State, w: nat)
    requires Workers(p, s) && OnlyWorker(s, t, w) && WorkerOk(p, t, w)
    requires Holds(t.workers[w].phase) <= Holds(s.workers[w].phase) + {s.next}
    ensures Workers(p, t)
  {
    forall v | 0 <= v < |t.workers| && v != w
      ensures WorkerOk(p, t, v) && Holds(t.workers[v].phase) !! Holds(t.workers[w].phase)
    {
      assert WorkerOk(p, s, v);
      Apart(p, s, v, w);
      OtherKeeps(p, s, t, w, v);
    }
    forall u, v | 0 <= u < v < |t.workers|
      ensures Holds(t.workers[u].phase) !! Holds(t.workers[v].phase)
    {
      if u != w && v != w {
        Apart(p, s, u, v);
      }
    }
  }

  lemma Apart(p: Pool, s: State, u: nat, v: nat)
    requires Workers(p, s) && u < |s.workers| && v < |s.workers| && u != v
    ensures Holds(s.workers[u].phase) !! Holds(s.workers[v].phase)
  {
    hide WorkerOk;
  }

  lemma QueueKeeps(p: Pool, s: State, t: State, w: nat)
    requires Queue(p, s) && OnlyWorker(s, t, w) && |s.storage| <= |t.storage|
    requires s.copies <= t.copies && t.landed == s.landed
    requires forall k :: s.landed <= k < |s.copies| && Pinned(p, s, k) && s.copies[k].slot == w ==> Pinned(p, t, k)
    requires forall k :: |s.copies| <= k < |t.copies| ==> Pinned(p, t, k) && InRange(p, t, k)
    ensures Queue(p, t)
  {
    forall k | t.landed <= k < |t.copies|
      ensures Pinned(p, t, k)
    {
      if k < |s.copies| {
        assert Pinned(p, s, k);
      }
    }
    forall k | 0 <= k < |t.copies|
      ensures InRange(p, t, k)
    {
      if k < |s.copies| {
        assert InRange(p, s, k);
      }
    }
  }

  lemma PlacedKeeps(p: Pool, s: State, t: State)
    requires Placed(p, s) && SameArena(s, t)
    ensures Placed(p, t)
  {
    assert forall j, k :: 0 <= j < k < |s.copies| && Before(p, s, j, k) ==> Before(p, t, j, k);
    assert forall k :: 0 <= k < |s.copies| && InUse(p, s, k) ==> InUse(p, t, k);
    assert forall k :: 0 <= k < |s.copies| && Landed(p, s, k) ==> Landed(p, t, k);
    assert forall k :: 0 <= k < |s.copies| && OnFile(p, s, k) ==> OnFile(p, t, k);
    assert forall i :: Copied(s, i) ==> Copied(t, i);
    assert forall key :: FromCopy(p, s, key) ==> FromCopy(p, t, key);
  }

  lemma TrackedKeeps(p: Pool, s: State, t: State, w: nat)
    requires Tracked(p, s) && OnlyWorker(s, t, w) && t.next == s.next
    requires forall i :: i in Holds(s.workers[w].phase) ==> i in Holds(t.workers[w].phase) || i in t.complete
    ensures Tracked(p, t)
  {
    forall i | 0 <= i < t.next && i < |p.jobs|
      ensures i in t.complete || Held(t, i)
    {
      if i !in t.complete {
        assert i in s.complete || Held(s, i);
        var v :| 0 <= v < |s.workers| && i in Holds(s.workers[v].phase);
        assert i in Holds(t.workers[v].phase);
      }
    }
  }

  /** Steps that touch nothing but one worker's phase and slot keep the invariant. */
  lemma QuietStep(p: Pool, s: State, t: State, w: nat)
    requires Inv(p, s) && OnlyWorker(s, t, w) && SameArena(s, t) && t.next == s.next
    requires WorkerOk(p, t, w) && Holds(t.workers[w].phase) <= Holds(s.workers[w].phase)
    requires forall k :: s.landed <= k < |s.copies| && Pinned(p, s, k) && s.copies[k].slot == w ==> Pinned(p, t, k)
    requires t.complete <= t.stored && (t.cancelled <==> t.error)
    requires !t.error ==>
      forall i :: i in Holds(s.workers[w].phase) ==> i in Holds(t.workers[w].phase) || i in t.complete
    ensures Inv(p, t)
  {
    hide WorkerOk, Pinned, Holds, Placed, Tracked;
    WorkersKeep(p, s, t, w);
    QueueKeeps(p, s, t, w);
    if !t.error {
      PlacedKeeps(p, s, t);
      TrackedKeeps(p, s, t, w);
    }
  }

  // ---------- every step keeps the invariant ----------

  predicate Quiet(a: Action) {
    a.Look? || a.Produce? || a.Wait? || a.Release? || a.Fail? || a.Drain? || a.Abandon?
  }

  lemma QuietKeeps(p: Pool, s: State, a: Action)
    requires Inv(p, s) && Enabled(p, s, a) && Quiet(a)
    ensures Inv(p, Apply(p, s, a))
  {
    hide Placed, Tracked, StoredBelow, Reserved;
    assert WorkerOk(p, s, a.w);
    QuietStep(p, s, Apply(p, s, a), a.w);
  }

  lemma TakeKeeps(p: Pool, s: State, w: nat)
    requires Inv(p, s) && Enabled(p, s, Take(w))
    ensures Inv(p, Apply(p, s, Take(w)))
  {
    hide Placed, StoredBelow, Reserved;
    var t := Apply(p, s, Take(w));
    assert WorkerOk(p, s, w);
    FreshJob(p, s);
    assert WorkerOk(p, t, w);
    WorkersKeep(p, s, t, w);
    QueueKeeps(p, s, t, w);
    if !t.error {
      PlacedKeeps(p, s, t);
      TakeTracks(p, s, w);
    }
  }

  lemma TakeTracks(p: Pool, s: State, w: nat)
    requires Inv(p, s) && Enabled(p, s, Take(w)) && Tracked(p, s)
    ensures Tracked(p, Apply(p, s, Take(w)))
  {
    hide Placed, Queue, Room, WorkerOk;
    var t := Apply(p, s, Take(w));
    forall i | 0 <= i < t.next && i < |p.jobs|
      ensures i in t.complete || Held(t, i)
    {
      if i == s.next {
        assert i in Holds(t.workers[w].phase);
      } else if i !in t.complete {
        assert i in s.complete || Held(s, i);
        var v :| 0 <= v < |s.workers| && i in Holds(s.workers[v].phase);
        assert i in Holds(t.workers[v].phase);
      }
    }
  }

  /** The counter's value has been neither stored nor completed. */
  lemma FreshJob(p: Pool, s: State)
    requires Inv(p, s)
    ensures s.next !in s.stored && s.next !in s.complete
  {
  }

  lemma {:induction false} AddStored(p: Pool, stored: set<nat>, i: nat, n: nat)
    requires n <= |p.jobs| && i < |p.jobs| && i !in stored
    ensures StoredBelow(p, stored + {i}, n) == StoredBelow(p, stored, n) + (if i < n then |p.jobs[i].data| else 0)
  {
    if n > 0 {
      AddStored(p, stored, i, n - 1);
    }
  }

  lemma {:induction false} StoredFits(p: Pool, stored: set<nat>, n: nat)
    requires n <= |p.jobs|
    ensures StoredBelow(p, stored, n) <= Reserved(p, n)
  {
    if n > 0 {
      StoredFits(p, stored, n - 1);
    }
  }

  /** The space reserved before the workers start always has room for a job not yet stored: the arena
      never grows while they run. */
  lemma NeverGrows(p: Pool, s: State, i: nat)
    requires Inv(p, s) && i < |p.jobs| && i !in s.stored
    ensures s.size + |p.jobs[i].data| <= |s.storage|
    ensures s.size + |p.jobs[i].data| == StoredBelow(p, s.stored + {i}, |p.jobs|)
  {
    hide Workers, Queue, Placed, Tracked;
    AddStored(p, s.stored, i, |p.jobs|);
    StoredFits(p, s.stored + {i}, |p.jobs|);
  }

  lemma EnqueuePlaces(p: Pool, s: State, w: nat, filed: map<Key, Entry>)
    requires Inv(p, s) && Enabled(p, s, Enqueue(w, filed)) && Placed(p, s)
    ensures Placed(p, Apply(p, s, Enqueue(w, filed)))
  {
    hide Workers, Room, Tracked, StoredBelow, Reserved, Pinned, InRange, Distinct;
    var t := Apply(p, s, Enqueue(w, filed));
    var n, i := |s.copies|, s.workers[w].phase.job;
    forall j, k | 0 <= j < k < |t.copies|
      ensures Before(p, t, j, k)
    {
      assert InUse(p, s, j);
      if k < n { assert Before(p, s, j, k); }
    }
    forall k | 0 <= k < |t.copies|
      ensures InUse(p, t, k)
    {
      if k < n { assert InUse(p, s, k); }
    }
    assert forall k :: 0 <= k < n && Landed(p, s, k) ==> Landed(p, t, k);
    forall k | 0 <= k < |t.copies|
      ensures OnFile(p, t, k)
    {
      if k < n { assert OnFile(p, s, k); }
    }
    EnqueueRecords(p, s, w, filed);
  }

  lemma EnqueueRecords(p: Pool, s: State, w: nat, filed: map<Key, Entry>)
    requires Inv(p, s) && Enabled(p, s, Enqueue(w, filed)) && Placed(p, s)
    ensures forall i :: i in s.stored + {s.workers[w].phase.job} ==> Copied(Apply(p, s, Enqueue(w, filed)), i)
    ensures forall key :: key in filed ==> FromCopy(p, Apply(p, s, Enqueue(w, filed)), key)
  {
    hide Workers, Room, Tracked, StoredBelow, Reserved, Pinned, InRange, Before, InUse, Landed, OnFile, Distinct;
    var t := Apply(p, s, Enqueue(w, filed));
    var n, job := |s.copies|, s.workers[w].phase.job;
    assert t.copies[n].job == job;
    forall i | i in s.stored + {job}
      ensures Copied(t, i)
    {
      if i != job {
        var k :| 0 <= k < n && s.copies[k].job == i;
        assert t.copies[k].job == i;
      }
    }
    forall key | key in filed
      ensures FromCopy(p, t, key)
    {
      if key in s.entries {
        var k :| 0 <= k < n && s.copies[k].job < |p.jobs| && key in p.jobs[s.copies[k].job].keys;
        assert t.copies[k] == s.copies[k];
      } else {
        assert p.jobs[job].keys[..|p.jobs[job].keys|] == p.jobs[job].keys;
      }
    }
  }

  lemma EnqueueKeeps(p: Pool, s: State, w: nat, filed: map<Key, Entry>)
    requires Inv(p, s) && Enabled(p, s, Enqueue(w, filed))
    ensures Inv(p, Apply(p, s, Enqueue(w, filed)))
  {
    hide Placed, Tracked, StoredBelow, Reserved, Filed;
    var t := Apply(p, s, Enqueue(w, filed));
    assert WorkerOk(p, s, w);
    NeverGrows(p, s, s.workers[w].phase.job);
    WorkersKeep(p, s, t, w);
    QueueKeeps(p, s, t, w);
    if !t.error {
      TrackedKeeps(p, s, t, w);
      EnqueuePlaces(p, s, w, filed);
    }
  }

  lemma ClashKeeps(p: Pool, s: State, w: nat, filed: map<Key, Entry>)
    requires Inv(p, s) && Enabled(p, s, Clash(w, filed))
    ensures Inv(p, Apply(p, s, Clash(w, filed)))
  {
    hide Placed, Tracked, StoredBelow, Reserved, Filed;
    var t := Apply(p, s, Clash(w, filed));
    assert WorkerOk(p, s, w);
    NeverGrows(p, s, s.workers[w].phase.job);
    WorkersKeep(p, s, t, w);
    QueueKeeps(p, s, t, w);
  }

  /** Writing behind or before a range leaves the range alone. */
  lemma WriteElsewhere(storage: seq<real>, at: nat, data: seq<real>, lo: nat, hi: nat)
    requires at + |data| <= |storage| && lo <= hi <= |storage| && (hi <= at || at + |data| <= lo)
    ensures Overwritten(storage, at, data)[lo..hi] == storage[lo..hi]
  {
  }

  lemma LandLands(p: Pool, s: State, k: nat)
    requires Inv(p, s) && Enabled(p, s, Land) && Placed(p, s) && k <= s.landed
    ensures Landed(p, Apply(p, s, Land), k)
  {
    hide Workers, Room, Tracked, StoredBelow, Reserved, Overwritten, InUse, OnFile, Copied, FromCopy;
    var c := s.copies[s.landed];
    assert Pinned(p, s, s.landed) && InRange(p, s, s.landed);
    if k < s.landed {
      assert Landed(p, s, k) && Before(p, s, k, s.landed);
      WriteElsewhere(s.storage, c.offset, p.jobs[c.job].data, s.copies[k].offset, s.copies[k].offset + |p.jobs[s.copies[k].job].data|);
    }
  }

  lemma LandPlaces(p: Pool, s: State)
    requires Inv(p, s) && Enabled(p, s, Land) && Placed(p, s)
    ensures Placed(p, Apply(p, s, Land))
  {
    hide Workers, Room, Tracked, StoredBelow, Reserved, Overwritten, Queue;
    var t := Apply(p, s, Land);
    forall k | 0 <= k < t.landed
      ensures Landed(p, t, k)
    {
      LandLands(p, s, k);
    }
    hide Landed;
    assert forall j, k :: 0 <= j < k < |s.copies| && Before(p, s, j, k) ==> Before(p, t, j, k);
    assert forall k :: 0 <= k < |s.copies| && InUse(p, s, k) ==> InUse(p, t, k);
    assert forall k :: 0 <= k < |s.copies| && OnFile(p, s, k) ==> OnFile(p, t, k);
    assert forall i :: Copied(s, i) ==> Copied(t, i);
    assert forall key :: FromCopy(p, s, key) ==> FromCopy(p, t, key);
  }

  lemma LandQueues(p: Pool, s: State)
    requires Inv(p, s) && Enabled(p, s, Land)
    ensures Queue(p, Apply(p, s, Land)) && Workers(p, Apply(p, s, Land))
  {
    hide Room, Placed, Tracked, StoredBelow, Reserved, Overwritten;
    var t := Apply(p, s, Land);
    assert forall k :: 0 <= k < |s.copies| && Pinned(p, s, k) ==> Pinned(p, t, k);
    assert forall k :: 0 <= k < |s.copies| && InRange(p, s, k) ==> InRange(p, t, k);
    assert forall w :: 0 <= w < |s.workers| && WorkerOk(p, s, w) ==> WorkerOk(p, t, w);
  }

  lemma LandKeeps(p: Pool, s: State)
    requires Inv(p, s) && Enabled(p, s, Land)
    ensures Inv(p, Apply(p, s, Land))
  {
    hide Workers, Queue, Placed, StoredBelow, Reserved, Overwritten;
    LandQueues(p, s);
    var t := Apply(p, s, Land);
    if !s.error {
      LandPlaces(p, s);
      assert forall i :: Held(s, i) ==> Held(t, i);
    }
  }

  lemma StepKeeps(p: Pool, s: State, a: Action)
    requires Inv(p, s) && Enabled(p, s, a)
    ensures Inv(p, Apply(p, s, a))
  {
    hide Inv, Enabled, Apply;
    match a
    case Take(w) => TakeKeeps(p, s, w);
    case Enqueue(w, filed) => EnqueueKeeps(p, s, w, filed);
    case Clash(w, filed) => ClashKeeps(p, s, w, filed);
    case Land => LandKeeps(p, s);
    case _ => QuietKeeps(p, s, a);
  }

  // ---------- whole runs ----------

  lemma InitHolds(p: Pool, s: State)
    requires Init(p, s)
    ensures Inv(p, s)
  {
    EmptyStore(p, |p.jobs|);
    assert forall w :: 0 <= w < |s.workers| ==> Holds(s.workers[w].phase) == {};
  }

  lemma {:induction false} EmptyStore(p: Pool, n: nat)
    requires n <= |p.jobs|
    ensures StoredBelow(p, {}, n) == 0
  {
    if n > 0 {
      EmptyStore(p, n - 1);
    }
  }

  ghost predicate Reaches(p: Pool, s: State, run: seq<Action>, t: State)
    requires Inv(p, s)
    decreases |run|
  {
    if run == [] then s == t
    else Enabled(p, s, run[0]) && (StepKeeps(p, s, run[0]); Reaches(p, Apply(p, s, run[0]), run[1..], t))
  }

  ghost predicate RunsFromStart(p: Pool, s: State, run: seq<Action>, t: State) {
    Init(p, s) && (InitHolds(p, s); Reaches(p, s, run, t))
  }

  lemma {:induction false} RunKeeps(p: Pool, s: State, run: seq<Action>, t: State)
    requires Inv(p, s) && Reaches(p, s, run, t)
    ensures Inv(p, t)
    decreases |run|
  {
    hide Inv, Enabled, Apply;
    if run != [] {
      StepKeeps(p, s, run[0]);
      RunKeeps(p, Apply(p, s, run[0]), run[1..], t);
    }
  }

  /** A job is handed out while no worker holds it and before it is complete: at most one worker takes it. */
  lemma TakesOnce(p: Pool, s: State, w: nat)
    requires Inv(p, s) && Enabled(p, s, Take(w)) && s.next < |p.jobs|
    ensures !Held(s, s.next) && s.next !in s.complete
    ensures Apply(p, s, Take(w)).workers[w].phase == Claimed(s.next) && Apply(p, s, Take(w)).next == s.next + 1
  {
    hide Placed, Tracked, Queue;
    FreshJob(p, s);
    forall v | 0 <= v < |s.workers|
      ensures s.next !in Holds(s.workers[v].phase)
    {
      assert WorkerOk(p, s, v);
    }
  }

  /** A slot's lease is given up, on success or failure, only when no copy from it is queued. */
  lemma LeaseOutlivesCopies(p: Pool, s: State, a: Action, k: nat)
    requires Inv(p, s) && Enabled(p, s, a) && (a.Release? || a.Abandon?)
    requires s.landed <= k < |s.copies|
    ensures s.copies[k].slot != a.w
  {
    hide Placed, Tracked, Workers, Room;
    assert Pinned(p, s, k);
  }

  /** Every copy the stream carries out writes its own job's columns, whatever has happened meanwhile. */
  lemma CopiesOwnData(p: Pool, s: State)
    requires Inv(p, s) && Enabled(p, s, Land)
    ensures Landed(p, Apply(p, s, Land), s.landed)
  {
    hide Placed, Tracked, Workers, Room, Overwritten;
    assert Pinned(p, s, s.landed) && InRange(p, s, s.landed);
  }

  ghost function Looking(s: State): set<nat> {
    set w | 0 <= w < |s.workers| && s.workers[w].phase.Looked?
  }

  lemma CancelStep(p: Pool, s: State, a: Action)
    requires Inv(p, s) && Enabled(p, s, a) && s.cancelled
    ensures var t := Apply(p, s, a); t.cancelled && t.next + |Looking(t)| <= s.next + |Looking(s)|
  {
    hide Placed, Tracked, Queue, Room, Workers;
    var t := Apply(p, s, a);
    if a.Take? {
      assert a.w in Looking(s);
      assert Looking(t) == Looking(s) - {a.w};
    } else {
      assert Looking(t) <= Looking(s);
      SubsetSize(Looking(t), Looking(s));
    }
  }

  /** After a failure no worker starts another round: at most those that had passed the flag still take
      a request each. */
  lemma {:induction false} CancelStops(p: Pool, s: State, run: seq<Action>, t: State)
    requires Inv(p, s) && Reaches(p, s, run, t) && s.error
    ensures t.cancelled && t.next + |Looking(t)| <= s.next + |Looking(s)|
    decreases |run|
  {
    assert s.cancelled;
    hide Inv, Enabled, Apply, Looking;
    if run != [] {
      StepKeeps(p, s, run[0]);
      CancelStep(p, s, run[0]);
      Flagged(p, Apply(p, s, run[0]));
      CancelStops(p, Apply(p, s, run[0]), run[1..], t);
    }
  }

  lemma Flagged(p: Pool, s: State)
    requires Inv(p, s)
    ensures s.cancelled <==> s.error
  {
    hide Placed, Tracked, Queue, Room, Workers;
  }

  predicate AllStopped(s: State) {
    |s.workers| > 0 && forall w :: 0 <= w < |s.workers| ==> s.workers[w].phase == Stopped
  }

  /** When the workers have been joined, with or without an error, the stream is empty and no slot is leased. */
  lemma JoinDrains(p: Pool, s: State)
    requires Inv(p, s) && AllStopped(s)
    ensures s.landed == |s.copies| && forall w :: 0 <= w < |s.workers| ==> !s.workers[w].leased
  {
    hide Placed, Tracked, Room;
    if s.landed < |s.copies| {
      assert Pinned(p, s, s.landed);
    }
    forall w | 0 <= w < |s.workers|
      ensures !s.workers[w].leased
    {
      assert WorkerOk(p, s, w);
    }
  }

  lemma JoinCompletes(p: Pool, s: State)
    requires Inv(p, s) && AllStopped(s) && !s.error
    ensures forall i :: 0 <= i < |p.jobs| ==> i in s.complete
  {
    hide Placed, Queue, Room;
    assert WorkerOk(p, s, 0);
    forall i | 0 <= i < |p.jobs|
      ensures i in s.complete
    {
      assert i in s.complete || Held(s, i);
    }
  }

  /** After a join without error the arena holds, under every key of every job, that job's column. */
  lemma JoinedColumn(p: Pool, s: State, i: nat, t: nat)
    requires Inv(p, s) && AllStopped(s) && !s.error && i < |p.jobs| && t < |p.jobs[i].keys|
    ensures p.jobs[i].keys[t] in s.entries && t * p.dim + p.dim <= |p.jobs[i].data|
    ensures var e := s.entries[p.jobs[i].keys[t]];
            e.offset + e.dim <= |s.storage| && Column(s.storage, e) == BatchColumn(p.jobs[i].data, p.dim, t)
  {
    hide Workers, Tracked, StoredBelow, Reserved, Pinned, Before, InUse, Column, BatchColumn, FromCopy;
    JoinDrains(p, s);
    JoinCompletes(p, s);
    assert i in s.stored && Copied(s, i);
    var k :| 0 <= k < |s.copies| && s.copies[k].job == i;
    assert Landed(p, s, k) && OnFile(p, s, k);
    BatchLands(s.storage, p.jobs[i].data, s.copies[k].offset, |p.jobs[i].keys|, p.dim, t, p.level);
  }

  lemma {:induction false} AllStored(p: Pool, stored: set<nat>, n: nat)
    requires n <= |p.jobs| && forall i: nat :: i < n ==> i in stored
    ensures StoredBelow(p, stored, n) == Reserved(p, n)
  {
    if n > 0 {
      AllStored(p, stored, n - 1);
    }
  }

  /** The reservation is tight: in the end all of it is used. */
  lemma JoinedFull(p: Pool, s: State)
    requires Inv(p, s) && AllStopped(s) && !s.error
    ensures s.size == Reserved(p, |p.jobs|)
  {
    hide Workers, Queue, Placed;
    JoinCompletes(p, s);
    AllStored(p, s.stored, |p.jobs|);
  }

  /** Number by number. */
  lemma JoinedCell(p: Pool, s: State, i: nat, t: nat, j: nat)
    requires Inv(p, s) && AllStopped(s) && !s.error && i < |p.jobs| && t < |p.jobs[i].keys| && j < p.dim
    ensures p.jobs[i].keys[t] in s.entries && t * p.dim + p.dim <= |p.jobs[i].data|
    ensures var e := s.entries[p.jobs[i].keys[t]];
            e.dim == p.dim && e.offset + e.dim <= |s.storage| && s.storage[e.offset + j] == p.jobs[i].data[t * p.dim + j]
  {
    hide Inv;
    JoinedColumn(p, s, i, t);
    JoinedEntry(p, s, i, t);
    var e := s.entries[p.jobs[i].keys[t]];
    assert Column(s.storage, e)[j] == s.storage[e.offset + j];
    assert BatchColumn(p.jobs[i].data, p.dim, t)[j] == p.jobs[i].data[t * p.dim + j];
  }

  lemma JoinedEntry(p: Pool, s: State, i: nat, t: nat)
    requires Inv(p, s) && AllStopped(s) && !s.error && i < |p.jobs| && t < |p.jobs[i].keys| && p.jobs[i].keys[t] in s.entries
    ensures s.entries[p.jobs[i].keys[t]].dim == p.dim
  {
    hide Workers, Tracked, StoredBelow, Reserved, Pinned, Before, InUse, Landed, FromCopy;
    JoinCompletes(p, s);
    assert i in s.stored && Copied(s, i);
    var k :| 0 <= k < |s.copies| && s.copies[k].job == i;
    assert OnFile(p, s, k);
  }

  /** No key is asked for twice, in one request or in two. */
  ghost predicate KeysApart(p: Pool) {
    forall i, t, j, u :: 0 <= i < |p.jobs| && 0 <= t < |p.jobs[i].keys| && 0 <= j < |p.jobs| && 0 <= u < |p.jobs[j].keys| ==>
      p.jobs[i].keys[t] == p.jobs[j].keys[u] ==> i == j && t == u
  }

  /** Then storing never clashes, so that without a failure of its own no run ends in an error. */
  lemma NeverClashes(p: Pool, s: State, w: nat, filed: map<Key, Entry>)
    requires Inv(p, s) && !s.error && KeysApart(p)
    ensures !Enabled(p, s, Clash(w, filed))
  {
    hide Queue, Room, Tracked, StoredBelow, Reserved, Before, InUse, Landed, OnFile;
    if At(s, w) && s.workers[w].phase.Produced? && s.workers[w].phase.job < |p.jobs| {
      var i := s.workers[w].phase.job;
      assert WorkerOk(p, s, w);
      ApartDistinct(p, i);
      forall key | key in p.jobs[i].keys
        ensures key !in s.entries
      {
        NotOnFile(p, s, i, key);
      }
    }
  }

  lemma NotOnFile(p: Pool, s: State, i: nat, key: Key)
    requires Placed(p, s) && KeysApart(p) && i < |p.jobs| && i !in s.stored && key in p.jobs[i].keys
    ensures key !in s.entries
  {
    hide Before, InUse, Landed, OnFile;
    forall k | 0 <= k < |s.copies|
      ensures s.copies[k].job < |p.jobs| ==> key !in p.jobs[s.copies[k].job].keys
    {
      assert s.copies[k].job in s.stored;
    }
    assert !FromCopy(p, s, key);
  }

  lemma ApartDistinct(p: Pool, i: nat)
    requires KeysApart(p) && i < |p.jobs|
    ensures Distinct(p.jobs[i].keys)
  {
  }

  lemma CleanStep(p: Pool, s: State, a: Action)
    requires Inv(p, s) && Enabled(p, s, a) && !s.error && KeysApart(p) && !a.Fail?
    ensures !Apply(p, s, a).error
  {
    hide Queue, Room, Tracked, Placed, Workers, KeysApart;
    if a.Clash? {
      NeverClashes(p, s, a.w, a.filed);
    }
  }

  /** A run without failures over different keys ends without an error, hence with everything stored. */
  lemma {:induction false} CleanRun(p: Pool, s: State, run: seq<Action>, t: State)
    requires Inv(p, s) && Reaches(p, s, run, t) && !s.error && KeysApart(p) && forall i :: 0 <= i < |run| ==> !run[i].Fail?
    ensures !t.error
    decreases |run|
  {
    hide Inv, Enabled, Apply, KeysApart;
    if run != [] {
      StepKeeps(p, s, run[0]);
      CleanStep(p, s, run[0]);
      CleanRun(p, Apply(p, s, run[0]), run[1..], t);
    }
  }

  /** Conversely a join without error is possible only over different keys. */
  lemma JoinedApart(p: Pool, s: State)
    requires Inv(p, s) && AllStopped(s) && !s.error
    ensures KeysApart(p)
  {
    hide Inv;
    forall i, t, j, u | 0 <= i < |p.jobs| && 0 <= t < |p.jobs[i].keys| && 0 <= j < |p.jobs| && 0 <= u < |p.jobs[j].keys|
                        && p.jobs[i].keys[t] == p.jobs[j].keys[u]
      ensures i == j && t == u
    {
      SameOffset(p, s, i, t, j, u);
    }
  }

  lemma SameOffset(p: Pool, s: State, i: nat, t: nat, j: nat, u: nat)
    requires Inv(p, s) && AllStopped(s) && !s.error
    requires i < |p.jobs| && t < |p.jobs[i].keys| && j < |p.jobs| && u < |p.jobs[j].keys| && p.jobs[i].keys[t] == p.jobs[j].keys[u]
    ensures i == j && t == u
  {
    hide Workers, Tracked, StoredBelow, Reserved, Pinned, InUse, Landed, FromCopy;
    JoinCompletes(p, s);
    assert Copied(s, i) && Copied(s, j);
    var k :| 0 <= k < |s.copies| && s.copies[k].job == i;
    var l :| 0 <= l < |s.copies| && s.copies[l].job == j;
    assert (k < l ==> Before(p, s, k, l)) && (l < k ==> Before(p, s, l, k));
    assert OnFile(p, s, k) && OnFile(p, s, l);
    JobLength(p, i);
    JobLength(p, j);
    hide Queue, Room, OnFile, Inv;
    if k < l {
      NoOverlap(s.copies[k].offset, |p.jobs[i].keys|, t, s.copies[l].offset, u, p.dim);
    } else if l < k {
      NoOverlap(s.copies[l].offset, |p.jobs[j].keys|, u, s.copies[k].offset, t, p.dim);
    } else {
      TimesOnce(t, u, p.dim);
    }
  }

  lemma JobLength(p: Pool, i: nat)
    requires p.Valid() && i < |p.jobs|
    ensures p.dim > 0 && |p.jobs[i].data| == |p.jobs[i].keys| * p.dim
  {
  }

  lemma NoOverlap(from: nat, count: nat, t: nat, to: nat, u: nat, dim: nat)
    requires dim > 0 && t < count && from + count * dim <= to
    ensures from + t * dim < to + u * dim
  {
    BatchFits(count, dim, t);
  }

  lemma TimesOnce(t: nat, u: nat, dim: nat)
    requires dim > 0 && t * dim == u * dim
    ensures t == u
  {
    assert (t - u) * dim == 0;
  }

  lemma JoinedKey(p: Pool, s: State, key: Key) returns (i: nat, t: nat)
    requires Inv(p, s) && AllStopped(s) && !s.error && key in s.entries
    ensures i < |p.jobs| && t < |p.jobs[i].keys| && p.jobs[i].keys[t] == key
  {
    hide Workers, Tracked, Room, Queue, Before, InUse, Landed, OnFile;
    assert FromCopy(p, s, key);
    var k :| 0 <= k < |s.copies| && s.copies[k].job < |p.jobs| && key in p.jobs[s.copies[k].job].keys;
    i := s.copies[k].job;
    t :| 0 <= t < |p.jobs[i].keys| && p.jobs[i].keys[t] == key;
  }

  lemma JoinedFits(p: Pool, s: State)
    requires Inv(p, s) && AllStopped(s) && !s.error
    ensures forall key :: key in s.entries ==> s.entries[key].offset + s.entries[key].dim <= |s.storage|
  {
    hide Inv;
    forall key | key in s.entries
      ensures s.entries[key].offset + s.entries[key].dim <= |s.storage|
    {
      var i, t := JoinedKey(p, s, key);
      JoinedColumn(p, s, i, t);
    }
  }

  /** Two error-free runs over the same jobs, with any interleavings and any numbers of slots, leave the
      same columns under the same keys. */
  lemma InterleavingDoesNotMatter(p: Pool, s: State, s': State, run: seq<Action>, run': seq<Action>, t: State, t': State)
    requires RunsFromStart(p, s, run, t) && RunsFromStart(p, s', run', t')
    requires AllStopped(t) && !t.error && AllStopped(t') && !t'.error
    ensures forall key :: key in t.entries ==> t.entries[key].offset + t.entries[key].dim <= |t.storage|
    ensures forall key :: key in t'.entries ==> t'.entries[key].offset + t'.entries[key].dim <= |t'.storage|
    ensures Columns(t.entries, t.storage) == Columns(t'.entries, t'.storage)
  {
    hide Inv, Reaches, Init, Column, BatchColumn;
    InitHolds(p, s);
    InitHolds(p, s');
    RunKeeps(p, s, run, t);
    RunKeeps(p, s', run', t');
    JoinedFits(p, t);
    JoinedFits(p, t');
    forall key
      ensures key in t.entries <==> key in t'.entries
      ensures key in t.entries ==> Column(t.storage, t.entries[key]) == Column(t'.storage, t'.entries[key])
    {
      SameKey(p, t, t', key);
      SameKey(p, t', t, key);
    }
  }

  lemma SameKey(p: Pool, t: State, t': State, key: Key)
    requires Inv(p, t) && AllStopped(t) && !t.error && Inv(p, t') && AllStopped(t') && !t'.error
    ensures key in t.entries ==> key in t'.entries
    ensures key in t.entries ==>
      t.entries[key].offset + t.entries[key].dim <= |t.storage| && t'.entries[key].offset + t'.entries[key].dim <= |t'.storage|
      && Column(t.storage, t.entries[key]) == Column(t'.storage, t'.entries[key])
  {
    hide Inv, Column, BatchColumn;
    if key in t.entries {
      var i, n := JoinedKey(p, t, key);
      JoinedColumn(p, t, i, n);
      JoinedColumn(p, t', i, n);
    }
  }

  // ---------- progress ----------

  lemma {:induction false} CanFile(was: map<Key, Entry>, keys: seq<Key>, n: nat, level: nat, base: nat, dim: nat)
    returns (now: map<Key, Entry>)
    requires n <= |keys| && Distinct(keys) && forall k :: k in keys ==> k !in was
    ensures Filed(was, now, keys, n, level, base, dim)
  {
    now := was;
    if n > 0 {
      now := CanFile(was, keys, n - 1, level, base, dim);
      assert keys[n - 1] !in keys[..n - 1];
      FileNext(was, now, keys, n - 1, level, base, dim);
      now := now[keys[n - 1] := Entry(level, base + (n - 1) * dim, dim)];
    }
  }

  /** While some worker has not stopped, some step other than a failure can be taken: no deadlock. */
  lemma CanMove(p: Pool, s: State, w: nat) returns (a: Action)
    requires Inv(p, s) && w < |s.workers| && s.workers[w].phase != Stopped
    ensures Enabled(p, s, a) && !a.Fail?
  {
    hide Placed, Tracked, StoredBelow, Reserved, Pinned, InRange, Filed, Distinct;
    assert WorkerOk(p, s, w);
    match s.workers[w].phase
    case Idle => a := Look(w);
    case Looked => a := Take(w);
    case Claimed(i) => a := Produce(w);
    case Produced(i) =>
      assert i in Holds(s.workers[w].phase);
      var keys := p.jobs[i].keys;
      if Distinct(keys) && forall k :: k in keys ==> k !in s.entries {
        var filed := CanFile(s.entries, keys, |keys|, p.level, s.size, p.dim);
        a := Enqueue(w, filed);
      } else {
        a := Clash(w, s.entries);
      }
    case Queued(_, upTo) => a := if upTo <= s.landed then Wait(w) else Land;
    case Drained(_) => a := Release(w, []);
    case Failing(upTo) => a := if upTo <= s.landed then Drain(w) else Land;
    case Settled => a := Abandon(w, []);
  }

  function PhaseRank(f: Phase): nat {
    match f
    case Stopped => 0
    case Looked => 1
    case Idle => 2
    case Settled => 3
    case Failing(_) => 4
    case Drained(_) => 6
    case Queued(_, _) => 7
    case Produced(_) => 10
    case Claimed(_) => 11
  }

  function Ranks(workers: seq<Worker>): nat {
    if workers == [] then 0 else Ranks(workers[..|workers| - 1]) + PhaseRank(workers[|workers| - 1].phase)
  }

  function Rank(p: Pool, s: State): int {
    11 * (if s.next < |p.jobs| then |p.jobs| - s.next else 0) + Ranks(s.workers) + |s.copies| - s.landed
  }

  lemma {:induction false} RanksUpdate(workers: seq<Worker>, w: nat, k: Worker)
    requires w < |workers|
    ensures Ranks(workers[w := k]) == Ranks(workers) - PhaseRank(workers[w].phase) + PhaseRank(k.phase)
  {
    var n := |workers| - 1;
    if w < n {
      RanksUpdate(workers[..n], w, k);
      assert workers[w := k][..n] == workers[..n][w := k];
    } else {
      assert workers[w := k][..n] == workers[..n];
    }
  }

  /** Every step, failures included, strictly lowers a natural number: every run ends. */
  lemma StepDescends(p: Pool, s: State, a: Action)
    requires Inv(p, s) && Enabled(p, s, a)
    ensures 0 <= Rank(p, Apply(p, s, a)) < Rank(p, s)
  {
    hide Placed, Tracked, Room, Ranks, Pinned, InRange, Filed, Distinct, WorkerOk;
    StepKeeps(p, s, a);
    if !a.Land? {
      RanksUpdate(s.workers, a.w, Apply(p, s, a).workers[a.w]);
      assert s.workers[a.w := Apply(p, s, a).workers[a.w]] == Apply(p, s, a).workers;
    }
  }

  lemma {:induction false} RunsEnd(p: Pool, s: State, run: seq<Action>, t: State)
    requires Inv(p, s) && Reaches(p, s, run, t)
    ensures |run| <= Rank(p, s)
    decreases |run|
  {
    hide Inv, Enabled, Apply, Rank;
    if run == [] {
      RankBound(p, s);
    } else {
      StepKeeps(p, s, run[0]);
      StepDescends(p, s, run[0]);
      RunsEnd(p, Apply(p, s, run[0]), run[1..], t);
    }
  }

  lemma RankBound(p: Pool, s: State)
    requires Inv(p, s)
    ensures 0 <= Rank(p, s)
  {
    hide Workers, Room, Placed, Tracked;
  }
}
