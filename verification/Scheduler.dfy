/**
 * The pending-queue scheduler (virt/manager.c) over whole runs, with every queue's ring protocol
 * interleaved: notifications arrive between services, the guest's ring accesses at any time.
 */
module Scheduler {
  import opened Bits
  import opened PendingList
  import opened QueueRegs
  import S = SplitRing

  /** Device number and queue number. */
  type Key = (nat, nat)

  datatype Busy = NoOne | With(q: Key)

  /** All rings, the pending list, and the queue being served. */
  datatype System = System(rings: map<Key, S.State>, pending: seq<Key>, busy: Busy)

  datatype Event =
    // register write to a queue that is not ready, with the rings prepared for it so far
    | Write(q: Key, reg: nat, val: u32, avail: seq<u16>, used: seq<UsedElem>)
    | Notify(q: Key)                 // virtManagerAddPending, from the interrupt handler
    | Begin                          // virtManagerProcessPending enters its critical section
    | Device(a: S.Action)            // one step of the service in progress
    | Driver(q: Key, d: S.Action)    // one step of a guest driver

  predicate IsDriverAction(a: S.Action) {
    a.Place? || a.Commit? || a.Reap?
  }

  ghost predicate Shaped(s: System) {
    && (forall q :: q in s.rings ==> S.Shaped(s.rings[q]))
    && (forall i :: 0 <= i < |s.pending| ==> s.pending[i] in s.rings)
    && (s.busy.With? ==> s.busy.q in s.rings)
  }

  /**
   * The critical section keeps register accesses out while a queue is being served. Any queue can be
   * notified, ready or not; its driver works on the rings once it is ready.
   */
  ghost predicate Enabled(s: System, e: Event)
    requires Shaped(s)
  {
    match e
    case Write(q, reg, val, avail, used) =>
      && s.busy.NoOne? && q in s.rings && s.rings[q].q.ready == 0 && QueueRegOf(reg) != QueueReg.Notify
      && |avail| >= Size(RegWrite(s.rings[q].q, reg, val)) && |used| >= Size(RegWrite(s.rings[q].q, reg, val))
    case Notify(q) => s.busy.NoOne? && q in s.rings
    case Begin => s.busy.NoOne?
    case Device(a) => s.busy.With? && !IsDriverAction(a) && S.Enabled(s.rings[s.busy.q], a)
    case Driver(q, d) => q in s.rings && s.rings[q].q.ready != 0 && IsDriverAction(d) && S.Enabled(s.rings[q], d)
  }

  /** The service ends with the fetch that finds nothing. */
  predicate EndsService(s: S.State, a: S.Action) {
    a.Fetch? && FetchIndex(s.q, s.availLast) < 0
  }

  /** A ring after a register write, over the memory given. */
  function Written(r: S.State, reg: nat, val: u32, avail: seq<u16>, used: seq<UsedElem>): S.State {
    r.(q := RegWrite(r.q, reg, val), avail := avail, used := used)
  }

  /** Begin on an empty list changes nothing: virtManagerProcessPending returns false. */
  ghost function Step(s: System, e: Event): (s': System)
    requires Shaped(s) && Enabled(s, e)
    ensures s'.rings.Keys == s.rings.Keys
  {
    match e
    case Write(q, reg, val, avail, used) => s.(rings := s.rings[q := Written(s.rings[q], reg, val, avail, used)])
    case Notify(q) => s.(pending := Enqueue(s.pending, q))
    case Begin => if s.pending == [] then s else s.(pending := s.pending[1..], busy := With(s.pending[0]))
    case Device(a) =>
      var q := s.busy.q;
      s.(rings := s.rings[q := S.Step(s.rings[q], a)],
         busy := if EndsService(s.rings[q], a) then NoOne else s.busy)
    case Driver(q, d) => s.(rings := s.rings[q := S.Step(s.rings[q], d)])
  }

  /** tr is a run: each state follows from the one before by an enabled event. */
  ghost predicate IsRun(tr: seq<System>, evs: seq<Event>) {
    && |tr| == |evs| + 1
    && (forall i :: 0 <= i < |tr| ==> Shaped(tr[i]))
    && (forall i :: 0 <= i < |evs| ==> Follows(tr, evs, i))
  }

  ghost predicate Follows(tr: seq<System>, evs: seq<Event>, i: nat)
    requires |tr| == |evs| + 1 && i < |evs| && Shaped(tr[i])
  {
    Enabled(tr[i], evs[i]) && tr[i + 1] == Step(tr[i], evs[i])
  }

  // ---------- a queue before and after it is ready ----------

  /** A queue out of reset that its driver has not brought up yet; its size may have been written. */
  ghost predicate Asleep(r: S.State) {
    && r.q.ready == 0 && PowerSized(r.q) && r.q.availIdx == r.q.usedIdx == 0 && S.Shaped(r)
    && r.availLast == r.usedLast == r.seen == 0 && r.dev.Idle? && r.drv.Free?
    && r.published == [] && r.fetched == 0 && r.returned == [] && r.reaped == []
  }

  /** A ready queue in the middle of its protocol. */
  ghost predicate Awake(r: S.State) {
    exists k: nat :: S.Inv(r, k)
  }

  /** As virtDevInitAll leaves it: every queue reset, none pending, none served. */
  ghost predicate Init(s: System) {
    && Shaped(s) && s.pending == [] && s.busy == NoOne
    && forall q :: q in s.rings ==> Asleep(s.rings[q]) && s.rings[q].q == RESET_QUEUE
  }

  /** Any write to a sleeping queue leaves it asleep or starts the protocol. */
  lemma WriteKeepsRing(r: S.State, reg: nat, val: u32, avail: seq<u16>, used: seq<UsedElem>)
    requires Asleep(r)
    requires |avail| >= Size(RegWrite(r.q, reg, val)) && |used| >= Size(RegWrite(r.q, reg, val))
    ensures Asleep(Written(r, reg, val, avail, used)) || Awake(Written(r, reg, val, avail, used))
  {
    hide PowerSized, SizeTest, MaskFor;
    var r' := Written(r, reg, val, avail, used);
    RegWriteKeepsPowerSized(r.q, reg, val);
    if r'.q.ready != 0 {
      var k := Exponent(r'.q);
      assert S.Init(r', k);
      S.InitInv(r', k);
    }
  }

  /** The driver's set-up, a size and then the ready flag, wakes a reset queue for every size that works. */
  lemma SetUpWakes(r: S.State, val: u32, w: u32, avail: seq<u16>, used: seq<UsedElem>)
    requires Asleep(r) && r.q == RESET_QUEUE && Works(val) && w % 2 == 1
    requires |avail| >= Size(RegWrite(r.q, 1, val)) && |used| >= Size(RegWrite(r.q, 1, val))
    ensures var r1 := Written(r, 1, val, avail, used);
            Asleep(r1) && Awake(Written(r1, 2, w, avail, used))
  {
    hide PowerSized, SizeTest, MaskFor, Works;
    WriteKeepsRing(r, 1, val, avail, used);
    SetUpExactly(val, w);
    WriteKeepsRing(Written(r, 1, val, avail, used), 2, w, avail, used);
  }

  lemma Exponent(q: Queue) returns (k: nat)
    requires PowerSized(q)
    ensures k <= 16 && q.sizeMask == Pow2(k) - 1 && (q.sizeMask > 0 ==> k > 0)
  {
    k :| k <= 16 && q.sizeMask == Pow2(k) - 1;
  }

  lemma AwakeStep(r: S.State, a: S.Action)
    requires Awake(r) && S.Enabled(r, a)
    ensures Awake(S.Step(r, a))
  {
    hide S.Inv;
    var k: nat :| S.Inv(r, k);
    S.StepKeepsInv(r, k, a);
  }

  lemma AwakeFacts(r: S.State)
    requires Awake(r)
    ensures S.Shaped(r) && r.q.ready != 0
  {
  }

  /** A service of a sleeping queue ends with its first fetch. */
  lemma AsleepStep(r: S.State, a: S.Action)
    requires Asleep(r) && S.Enabled(r, a) && !IsDriverAction(a)
    ensures EndsService(r, a) && S.Step(r, a) == r
  {
  }

  // ---------- the invariant ----------

  ghost predicate RingsOk(s: System) {
    forall q :: q in s.rings ==> Asleep(s.rings[q]) || Awake(s.rings[q])
  }

  /** Only the queue being served is between a fetch and a push, and it is not in the list. */
  ghost predicate ListOk(s: System) {
    && NoDuplicates(s.pending)
    && (s.busy.With? ==> s.busy.q !in s.pending)
    && (forall q :: q in s.rings && s.busy != With(q) ==> s.rings[q].dev.Idle?)
  }

  lemma RingsKept(s: System, e: Event)
    requires Shaped(s) && Enabled(s, e) && RingsOk(s)
    ensures RingsOk(Step(s, e))
  {
    hide Asleep, Awake, S.Enabled, S.Step, RegWrite;
    match e
    case Write(q, reg, val, avail, used) =>
      OnlyAsleep(s.rings[q]);
      WriteKeepsRing(s.rings[q], reg, val, avail, used);
    case Device(a) => RingStep(s.rings[s.busy.q], a);
    case Driver(q, d) =>
      OnlyAwake(s.rings[q]);
      AwakeStep(s.rings[q], d);
    case Notify(_) =>
    case Begin =>
  }

  lemma OnlyAsleep(r: S.State)
    requires (Asleep(r) || Awake(r)) && r.q.ready == 0
    ensures Asleep(r)
  {
    if Awake(r) { AwakeFacts(r); }
  }

  lemma OnlyAwake(r: S.State)
    requires (Asleep(r) || Awake(r)) && r.q.ready != 0
    ensures Awake(r)
  {
  }

  lemma RingStep(r: S.State, a: S.Action)
    requires Asleep(r) || Awake(r)
    requires S.Shaped(r) && S.Enabled(r, a) && !IsDriverAction(a)
    ensures Asleep(S.Step(r, a)) || Awake(S.Step(r, a))
  {
    if Asleep(r) { AsleepStep(r, a); } else { AwakeStep(r, a); }
  }

  lemma ListKept(s: System, e: Event)
    requires Shaped(s) && Enabled(s, e) && ListOk(s)
    ensures ListOk(Step(s, e))
  {
    hide RegWrite, FetchIndex, PushIndex, AdvanceUsed;
  }

  /**
   * In every state of every run from boot each ring is asleep or keeps its protocol's invariant, the
   * pending queues are distinct, and only the queue being served is between a fetch and a push.
   */
  lemma {:induction false} RunKeeps(tr: seq<System>, evs: seq<Event>, i: nat)
    requires IsRun(tr, evs) && Init(tr[0]) && i < |tr|
    ensures RingsOk(tr[i]) && ListOk(tr[i])
    decreases i
  {
    hide Asleep, Awake, Step, RingsOk, ListOk;
    if i == 0 {
      InitOk(tr[0]);
    } else {
      RunKeeps(tr, evs, i - 1);
      assert Follows(tr, evs, i - 1);
      RingsKept(tr[i - 1], evs[i - 1]);
      ListKept(tr[i - 1], evs[i - 1]);
    }
  }

  lemma InitOk(s: System)
    requires Init(s)
    ensures RingsOk(s) && ListOk(s)
  {
  }

  /** Ring safety in the whole system: whatever the other queues do, every driver gets its heads back in order. */
  lemma EveryRingSafe(tr: seq<System>, evs: seq<Event>, i: nat, q: Key)
    requires IsRun(tr, evs) && Init(tr[0]) && i < |tr| && q in tr[i].rings
    ensures var r := tr[i].rings[q];
            && |r.returned| <= |r.published|
            && (forall j :: 0 <= j < |r.returned| ==> r.returned[j].id == r.published[j])
            && r.reaped <= r.returned
            && (forall j :: |r.reaped| <= j < |r.returned| ==>
                  j % Size(r.q) < |r.used| && r.used[j % Size(r.q)] == r.returned[j])
  {
    RunKeeps(tr, evs, i);
    RingSafe(tr[i].rings[q]);
  }

  lemma RingSafe(r: S.State)
    requires Asleep(r) || Awake(r)
    ensures |r.returned| <= |r.published|
    ensures forall j :: 0 <= j < |r.returned| ==> r.returned[j].id == r.published[j]
    ensures r.reaped <= r.returned
    ensures forall j :: |r.reaped| <= j < |r.returned| ==>
              j % Size(r.q) < |r.used| && r.used[j % Size(r.q)] == r.returned[j]
  {
    if Awake(r) {
      var k: nat :| S.Inv(r, k);
      assert Size(r.q) == Pow2(k);
    }
  }

  // ---------- served in turn ----------

  /** Services begun from event i up to event j. */
  function Begins(evs: seq<Event>, i: nat, j: nat): nat
    requires i <= j <= |evs|
    decreases j
  {
    if i == j then 0 else Begins(evs, i, j - 1) + (if evs[j - 1].Begin? then 1 else 0)
  }

  /** While fewer services begin than there are queues ahead, the queue moves up by one with each. */
  lemma {:induction false} MovesUp(tr: seq<System>, evs: seq<Event>, i: nat, j: nat, k: nat)
    requires IsRun(tr, evs) && Init(tr[0]) && i <= j <= |evs|
    requires k < |tr[i].pending| && Begins(evs, i, j) <= k
    ensures var b := Begins(evs, i, j);
            k - b < |tr[j].pending| && tr[j].pending[k - b] == tr[i].pending[k]
    decreases j
  {
    hide Asleep, Shaped, S.Enabled, S.Step, RegWrite;
    if i < j {
      MovesUp(tr, evs, i, j - 1, k);
      assert Follows(tr, evs, j - 1);
    }
  }

  /**
   * A notified queue with k queues ahead of it is the one served by the (k+1)-th service begun from
   * then on and by none before it, whatever notifications arrive in between and whether or not the
   * queues ahead are ready; until then neither its fetch count nor its returned entries change.
   */
  lemma ServedInTurn(tr: seq<System>, evs: seq<Event>, i: nat, j: nat, k: nat)
    requires IsRun(tr, evs) && Init(tr[0]) && i <= j < |evs|
    requires k < |tr[i].pending| && Begins(evs, i, j) <= k && evs[j].Begin?
    ensures var q := tr[i].pending[k];
            && (tr[j + 1].busy == With(q) <==> Begins(evs, i, j) == k)
            && q in tr[i].rings && q in tr[j + 1].rings
            && tr[j + 1].rings[q].returned == tr[i].rings[q].returned
            && tr[j + 1].rings[q].fetched == tr[i].rings[q].fetched
  {
    hide Asleep, Awake, S.Shaped, S.Enabled, S.Step, RegWrite;
    MovesUp(tr, evs, i, j, k);
    RunKeeps(tr, evs, j);
    assert Follows(tr, evs, j);
    Untouched(tr, evs, i, j, k);
  }

  lemma {:induction false} Untouched(tr: seq<System>, evs: seq<Event>, i: nat, j: nat, k: nat)
    requires IsRun(tr, evs) && Init(tr[0]) && i <= j <= |evs|
    requires k < |tr[i].pending| && Begins(evs, i, j) <= k
    ensures var q := tr[i].pending[k];
            && q in tr[i].rings && q in tr[j].rings
            && tr[j].rings[q].returned == tr[i].rings[q].returned
            && tr[j].rings[q].fetched == tr[i].rings[q].fetched
    decreases j
  {
    hide Asleep, Awake, Step, Enabled;
    if i < j {
      Untouched(tr, evs, i, j - 1, k);
      MovesUp(tr, evs, i, j - 1, k);
      RunKeeps(tr, evs, j - 1);
      assert Follows(tr, evs, j - 1);
      OthersKeepDevice(tr[j - 1], evs[j - 1], tr[i].pending[k]);
    }
  }

  /** An event that does not serve q leaves q's fetch count and returned entries alone. */
  lemma OthersKeepDevice(s: System, e: Event, q: Key)
    requires Shaped(s) && Enabled(s, e) && q in s.rings && s.busy != With(q)
    ensures Step(s, e).rings[q].returned == s.rings[q].returned
    ensures Step(s, e).rings[q].fetched == s.rings[q].fetched
  {
    hide RegWrite;
  }

  // ---------- what a finished service has done ----------

  lemma {:induction false} PublishedGrows(tr: seq<System>, evs: seq<Event>, i: nat, j: nat, q: Key)
    requires IsRun(tr, evs) && i <= j < |tr| && q in tr[i].rings
    ensures q in tr[j].rings && tr[i].rings[q].published <= tr[j].rings[q].published
    decreases j
  {
    hide S.Shaped, Enabled, Step;
    if i < j {
      PublishedGrows(tr, evs, i, j - 1, q);
      assert Follows(tr, evs, j - 1);
      StepPublishes(tr[j - 1], evs[j - 1], q);
    }
  }

  lemma StepPublishes(s: System, e: Event, q: Key)
    requires Shaped(s) && Enabled(s, e) && q in s.rings
    ensures s.rings[q].published <= Step(s, e).rings[q].published
  {
    hide RegWrite;
  }

  /**
   * When the service of a queue ends, every head published up to that moment, hence every head
   * published before any earlier point of the run, has its used entry, in order; the one exception is
   * a backlog of exactly the ring size, which the device cannot tell from an empty ring.
   */
  lemma ServiceReturnsEverything(tr: seq<System>, evs: seq<Event>, i: nat, j: nat, q: Key)
    requires IsRun(tr, evs) && Init(tr[0]) && i <= j < |evs| && q in tr[i].rings
    requires tr[j].busy == With(q) && tr[j + 1].busy == NoOne
    ensures q in tr[j + 1].rings
    ensures var early, s := tr[i].rings[q].published, tr[j + 1].rings[q];
            (s.q.ready != 0 && |s.published| == |s.returned| + Size(s.q))
            || (|early| <= |s.returned| && forall h :: 0 <= h < |early| ==> s.returned[h].id == early[h])
  {
    hide FetchIndex, Asleep, Awake, S.Shaped, RegWrite;
    RunKeeps(tr, evs, j);
    assert Follows(tr, evs, j);
    PublishedGrows(tr, evs, i, j, q);
    EndMeaning(tr[j].rings[q]);
  }

  lemma EndMeaning(r: S.State)
    requires (Asleep(r) || Awake(r)) && S.Shaped(r) && r.dev.Idle? && FetchIndex(r.q, r.availLast) < 0
    ensures S.Step(r, S.Fetch) == r
    ensures (r.q.ready != 0 && |r.published| == |r.returned| + Size(r.q)) || |r.published| == |r.returned|
    ensures |r.returned| <= |r.published|
    ensures forall j :: 0 <= j < |r.returned| ==> r.returned[j].id == r.published[j]
  {
    if Awake(r) {
      var k: nat :| S.Inv(r, k);
      S.FetchIndexMeaning(r, k);
      assert Size(r.q) == Pow2(k);
    }
  }
}
