/**
 * The manager's objects and the guest's memory as a state of the scheduler: boot, register writes, services
 * and the driver's own accesses extend one run, so that what holds of all runs holds of the heap.
 */
module HeapRuns {
  import opened Bits
  import opened QueueRegs
  import opened PendingList
  import V = VirtIrqs
  import opened VirtQueues
  import opened DeviceJobs
  import opened Drain
  import opened Manager
  import opened Scheduler
  import opened Service
  import R = SplitRing
  import M = Machine
  import Boot

  /** What the rings in memory hold, by address. */
  datatype Shot = Shot(avail: map<u32, (u16, seq<u16>)>, used: map<u32, (u16, seq<UsedElem>)>)

  ghost function ShotOf(mem: GuestMemory): Shot
    reads mem.availAt.Values, mem.usedAt.Values
  {
    Shot(map a | a in mem.availAt :: (mem.availAt[a].last, mem.availAt[a].ring),
         map a | a in mem.usedAt :: (mem.usedAt[a].last, mem.usedAt[a].ring))
  }

  ghost predicate HasQueue(m: M.Machine, k: Key) {
    k.0 < |m.devs| && k.1 < |m.devs[k.0].vqs|
  }

  ghost function QueueAt(m: M.Machine, k: Key): Queue
    requires HasQueue(m, k)
  {
    m.devs[k.0].vqs[k.1]
  }

  /** The ring r is that of queue q in memory; a queue that is not ready has none there yet. */
  ghost predicate RingIn(r: R.State, q: Queue, w: Shot) {
    && r.q == q && r.dev.Idle?
    && (q.ready != 0 ==>
          && q.qAvail in w.avail && q.qUsed in w.used
          && w.avail[q.qAvail] == (r.availLast, r.avail) && w.used[q.qUsed] == (r.usedLast, r.used))
  }

  /** The rings of the two queues are different objects. */
  ghost predicate Apart(q: Queue, p: Queue, mem: GuestMemory) {
    && (q.qAvail in mem.availAt && p.qAvail in mem.availAt ==> mem.availAt[q.qAvail] != mem.availAt[p.qAvail])
    && (q.qUsed in mem.usedAt && p.qUsed in mem.usedAt ==> mem.usedAt[q.qUsed] != mem.usedAt[p.qUsed])
  }

  ghost predicate AllApart(m: M.Machine, mem: GuestMemory) {
    forall k, l | HasQueue(m, k) && HasQueue(m, l) && k != l && QueueAt(m, k).ready != 0 && QueueAt(m, l).ready != 0 ::
      Apart(QueueAt(m, k), QueueAt(m, l), mem)
  }

  /** Register file and memory, between two services, show the state s of the scheduler. */
  ghost predicate Abstracts(m: M.Machine, w: Shot, mem: GuestMemory, s: System) {
    && Shaped(s) && s.busy.NoOne? && s.pending == m.pending && AllApart(m, mem)
    && (forall k :: k in s.rings <==> HasQueue(m, k))
    && (forall k :: k in s.rings ==> RingIn(s.rings[k], QueueAt(m, k), w))
  }

  /** The run tr of events evs from boot has led here. */
  ghost predicate Traced(m: M.Machine, w: Shot, mem: GuestMemory, tr: seq<System>, evs: seq<Event>) {
    IsRun(tr, evs) && Init(tr[0]) && Abstracts(m, w, mem, tr[|evs|])
  }

  /** A run goes on. */
  lemma Extend(tr: seq<System>, evs: seq<Event>, more: seq<Event>, s: System) returns (tr': seq<System>)
    requires IsRun(tr, evs) && Leads(tr[|evs|], more, s)
    ensures IsRun(tr', evs + more) && tr <= tr' && tr'[|evs + more|] == s
  {
    hide Shaped, Enabled, Step, Leads;
    var rest := LeadsIsRun(tr[|evs|], more, s);
    tr' := tr + rest[1..];
    forall i | 0 <= i < |evs + more|
      ensures Follows(tr', evs + more, i)
    {
      if i < |evs| {
        assert Follows(tr, evs, i);
      } else {
        assert Follows(rest, more, i - |evs|);
      }
    }
  }

  // ---------- boot ----------

  ghost function BootRing(): R.State {
    R.State(RESET_QUEUE, R.Idle, R.Free, 0, [0], 0, [UsedElem(0, 0)], 0, [], 0, [], [])
  }

  ghost function BootSystem(m: M.Machine): System {
    System(map d: nat, q: nat | d < |m.devs| && q < |m.devs[d].vqs| :: (d, q) := BootRing(), [], NoOne)
  }

  /** What InitAll leaves is the start of a run, whatever is in memory. */
  lemma BootIsTraced(specs: seq<Boot.DevSpec>, w: Shot, mem: GuestMemory)
    ensures var m := Boot.ResetMachine(specs); Traced(m, w, mem, [BootSystem(m)], [])
  {
    var m := Boot.ResetMachine(specs);
    var s := BootSystem(m);
    ResetIsPowerSized();
    forall k | k in s.rings
      ensures HasQueue(m, k) && QueueAt(m, k) == RESET_QUEUE && s.rings[k] == BootRing()
    {
    }
    assert R.Shaped(BootRing());
    forall k: Key | HasQueue(m, k)
      ensures k in s.rings && QueueAt(m, k) == RESET_QUEUE
    {
      assert m.devs[k.0] == Boot.ResetDev(specs[k.0]);
    }
  }

  // ---------- services ----------

  /** Of all devices' registers only those of queue k have changed, to regs. */
  ghost predicate Replaced(m: M.Machine, m': M.Machine, k: Key, regs: Queue)
    requires HasQueue(m, k)
  {
    m'.devs == m.devs[k.0 := m.devs[k.0].(vqs := m.devs[k.0].vqs[k.1 := regs])]
  }

  /** And of these only the two indices. */
  ghost predicate OnlyIndices(m: M.Machine, m': M.Machine, k: Key, regs: Queue)
    requires HasQueue(m, k)
  {
    Replaced(m, m', k, regs) && regs == QueueAt(m, k).(availIdx := regs.availIdx, usedIdx := regs.usedIdx)
  }

  /** In memory only the used ring of queue q has changed, and only if that is ready. */
  ghost predicate OnlyUsed(w: Shot, w': Shot, mem: GuestMemory, q: Queue) {
    && w'.avail == w.avail && w'.used.Keys == w.used.Keys == mem.usedAt.Keys
    && forall a :: a in w.used && !(q.ready != 0 && q.qUsed in mem.usedAt && mem.usedAt[a] == mem.usedAt[q.qUsed]) ==>
         w'.used[a] == w.used[a]
  }

  lemma ServiceKeeps(m: M.Machine, w: Shot, s: System, m': M.Machine, w': Shot, s': System, mem: GuestMemory, k: Key)
    requires Abstracts(m, w, mem, s) && HasQueue(m, k)
    requires Shaped(s') && s'.busy.NoOne? && s'.pending == m'.pending
    requires k in s'.rings && s'.rings == s.rings[k := s'.rings[k]]
    requires OnlyIndices(m, m', k, s'.rings[k].q) && OnlyUsed(w, w', mem, QueueAt(m, k))
    requires RingIn(s'.rings[k], s'.rings[k].q, w')
    ensures Abstracts(m', w', mem, s')
  {
    hide Shaped, RingIn, OnlyUsed, AllApart, Replaced;
    SameQueues(m, m', k, s'.rings[k].q);
    forall l | l in s'.rings
      ensures RingIn(s'.rings[l], QueueAt(m', l), w')
    {
      if l != k {
        ApartFrom(m, mem, l, k);
        OtherRing(s.rings[l], QueueAt(m, l), w, w', mem, QueueAt(m, k));
      }
    }
    ApartStill(m, m', mem, k, s'.rings[k].q);
  }

  lemma SameQueues(m: M.Machine, m': M.Machine, k: Key, regs: Queue)
    requires HasQueue(m, k) && Replaced(m, m', k, regs)
    ensures forall l: Key :: HasQueue(m', l) <==> HasQueue(m, l)
    ensures forall l: Key :: HasQueue(m, l) ==> QueueAt(m', l) == if l == k then regs else QueueAt(m, l)
  {
  }

  lemma ApartFrom(m: M.Machine, mem: GuestMemory, l: Key, k: Key)
    requires AllApart(m, mem) && HasQueue(m, l) && HasQueue(m, k) && l != k
    ensures QueueAt(m, l).ready != 0 && QueueAt(m, k).ready != 0 ==> Apart(QueueAt(m, l), QueueAt(m, k), mem)
  {
  }

  lemma OtherRing(r: R.State, q: Queue, w: Shot, w': Shot, mem: GuestMemory, p: Queue)
    requires RingIn(r, q, w) && OnlyUsed(w, w', mem, p)
    requires q.ready != 0 && p.ready != 0 ==> Apart(q, p, mem)
    ensures RingIn(r, q, w')
  {
  }

  lemma ApartStill(m: M.Machine, m': M.Machine, mem: GuestMemory, k: Key, regs: Queue)
    requires HasQueue(m, k) && OnlyIndices(m, m', k, regs) && AllApart(m, mem)
    ensures AllApart(m', mem)
  {
    hide AllApart, Replaced;
    SameQueues(m, m', k, regs);
    forall i: Key, j: Key
      | HasQueue(m', i) && HasQueue(m', j) && i != j && QueueAt(m', i).ready != 0 && QueueAt(m', j).ready != 0
      ensures Apart(QueueAt(m', i), QueueAt(m', j), mem)
    {
      ApartFrom(m, mem, i, j);
    }
    ApartAll(m', mem);
  }

  lemma ApartAll(m: M.Machine, mem: GuestMemory)
    requires forall i: Key, j: Key ::
               HasQueue(m, i) && HasQueue(m, j) && i != j && QueueAt(m, i).ready != 0 && QueueAt(m, j).ready != 0 ==>
                 Apart(QueueAt(m, i), QueueAt(m, j), mem)
    ensures AllApart(m, mem)
  {
  }

  /** What a view says of the queue's registers. */
  ghost function RegsOf(v: View): Queue {
    match v
    case Active(_, side) => side.q
    case Asleep(regs, _) => regs
  }

  /** In memory and registers the ring shows what the manager sees, and the other way round. */
  lemma ShownBySees(hw: Hardware, vq: VirtQueue, mem: GuestMemory, r: R.State)
    ensures RegsOf(VirtManager.Sees(hw, vq, mem)) == vq.Regs()
    ensures (vq.ready != 0 ==> Mapped(vq.Regs(), mem)) && RingIn(r, vq.Regs(), ShotOf(mem)) && R.Shaped(r) ==>
              Shows(r, VirtManager.Sees(hw, vq, mem))
    ensures Shows(r, VirtManager.Sees(hw, vq, mem)) ==> RingIn(r, vq.Regs(), ShotOf(mem))
  {
    hide R.Shaped;
  }

  /** A service moves nothing in the registers but the two indices. */
  lemma ServedIndices(dev: Device, before: View, after: View)
    requires Served(dev, before, after)
    ensures RegsOf(after) == RegsOf(before).(availIdx := RegsOf(after).availIdx, usedIdx := RegsOf(after).usedIdx)
  {
    hide BacklogFits, RingOk, StateAfter, EntriesAfter, Placed, Wrap;
  }

  /** One view follows the other: registers and used ring move, and shots of memory are as the views say. */
  ghost predicate Follow(dev: Device, before: View, after: View, q: Queue, w: Shot, w': Shot, mem: GuestMemory) {
    && Served(dev, before, after) && RegsOf(before) == q && OnlyUsed(w, w', mem, q)
    && (forall r: R.State :: RingIn(r, q, w) && R.Shaped(r) ==> Shows(r, before))
    && (forall r: R.State :: Shows(r, after) ==> RingIn(r, RegsOf(after), w'))
  }

  /** The run of one service, from what Serve ensures. */
  lemma ServiceTraced(dev: Device, before: View, after: View, m: M.Machine, w: Shot, m': M.Machine, w': Shot,
                      mem: GuestMemory, tr: seq<System>, evs: seq<Event>, k: Key)
    returns (tr': seq<System>, more: seq<Event>)
    requires Traced(m, w, mem, tr, evs) && m.pending != [] && k == m.pending[0] && HasQueue(m, k)
    requires Follow(dev, before, after, QueueAt(m, k), w, w', mem) && m'.pending == m.pending[1..]
    requires m'.devs == m.devs[k.0 := m.devs[k.0].(vqs := m.devs[k.0].vqs[k.1 := RegsOf(after)])]
    ensures Traced(m', w', mem, tr', evs + more) && tr <= tr'
    ensures more != [] && more[0].Begin? && AllDevice(more[1..])
  {
    hide Served, R.Shaped, Shows, RingIn, Leads, Init, AllApart, OnlyUsed, Follows;
    var s := tr[|evs|];
    RunShape(tr, evs);
    ShapedAt(s, k);
    assert RingIn(s.rings[k], QueueAt(m, k), w);
    var s';
    more, s' := ProcessPendingIsARun(dev, before, after, s);
    ServedIndices(dev, before, after);
    tr' := Extend(tr, evs, more, s');
    RunShape(tr', evs + more);
    SameQueue(s'.rings[k], after, w');
    ServiceKeeps(m, w, s, m', w', s', mem, k);
  }

  lemma RunShape(tr: seq<System>, evs: seq<Event>)
    requires IsRun(tr, evs)
    ensures |tr| == |evs| + 1 && Shaped(tr[|evs|])
  {
  }

  lemma ShapedAt(s: System, k: Key)
    requires Shaped(s) && k in s.rings
    ensures R.Shaped(s.rings[k])
  {
  }

  lemma SameQueue(r: R.State, v: View, w: Shot)
    requires Shows(r, v)
    ensures r.q == RegsOf(v)
  {
  }

  /** virtManagerProcessPending, with the views of the queue it served. */
  method Serve(mgr: VirtManager, mem: GuestMemory)
    returns (ret: bool, ghost dev: Device, ghost before: View, ghost after: View)
    requires mgr.Valid() && mgr.HeadServiceable(mem)
    modifies mgr`model, mgr.Objects(), mgr.HardwareObjects(), mem.ram, mem.usedAt.Values
    ensures mgr.Valid() && ret == (old(mgr.model.pending) != [])
    ensures !ret ==> mgr.model == old(mgr.model) && ShotOf(mem) == old(ShotOf(mem))
    ensures ret ==>
              var m, m', k := old(mgr.model), mgr.model, old(mgr.model.pending)[0];
              && HasQueue(m, k) && m'.pending == m.pending[1..]
              && m'.devs == m.devs[k.0 := m.devs[k.0].(vqs := m.devs[k.0].vqs[k.1 := RegsOf(after)])]
              && Follow(dev, before, after, QueueAt(m, k), old(ShotOf(mem)), ShotOf(mem), mem)
  {
    hide Served, ServedAll, RingOk, BacklogFits, And, V.SetVirq, V.SyncVirq, Shows, RingIn, OnlyUsed, R.Shaped;
    hide VirtManager.Sees, VirtManager.Wired, VirtManager.Objects, VirtManager.HardwareObjects;
    ghost var none := mgr.model.pending == [];
    ghost var k := if none then (0, 0) else mgr.model.pending[0];
    if !none {
      ghost var vq := mgr.devs[k.0].vqs[k.1];
      dev := VirtManager.DeviceOf(mgr.devs[k.0].hw);
      before := VirtManager.Sees(mgr.devs[k.0].hw, vq, mem);
      ShownBefore(mgr.devs[k.0].hw, vq, mem);
    } else {
      dev, before := EntropySource(i => 0), View.Asleep(RESET_QUEUE, []);
    }
    after := before;
    ghost var w := ShotOf(mem);
    ghost var q := if none then RESET_QUEUE else mgr.devs[k.0].vqs[k.1].Regs();
    ret := mgr.ProcessPending(mem);
    assert AvailIs(mem, w) && UsedIs(mem, w, if ret then UsedObjects(q, mem) else {});
    Shots(mem, w, q, ret);
    if ret {
      after := VirtManager.Sees(mgr.devs[k.0].hw, mgr.devs[k.0].vqs[k.1], mem);
      ShownAfter(mgr.devs[k.0].hw, mgr.devs[k.0].vqs[k.1], mem);
    }
  }

  ghost predicate AvailIs(mem: GuestMemory, w: Shot)
    reads mem.availAt.Values
  {
    w.avail.Keys == mem.availAt.Keys &&
    forall a :: a in mem.availAt ==> mem.availAt[a].last == w.avail[a].0 && mem.availAt[a].ring == w.avail[a].1
  }

  ghost predicate UsedIs(mem: GuestMemory, w: Shot, but: set<object>)
    reads mem.usedAt.Values
  {
    w.used.Keys == mem.usedAt.Keys &&
    forall a :: a in mem.usedAt && mem.usedAt[a] !in but ==>
      mem.usedAt[a].last == w.used[a].0 && mem.usedAt[a].ring == w.used[a].1
  }

  lemma Shots(mem: GuestMemory, w: Shot, q: Queue, ret: bool)
    requires AvailIs(mem, w) && UsedIs(mem, w, if ret then UsedObjects(q, mem) else {})
    ensures ret ==> OnlyUsed(w, ShotOf(mem), mem, q)
    ensures !ret ==> ShotOf(mem) == w
  {
  }

  lemma ShownBefore(hw: Hardware, vq: VirtQueue, mem: GuestMemory)
    requires VirtManager.CanServe(hw, vq, mem)
    ensures RegsOf(VirtManager.Sees(hw, vq, mem)) == vq.Regs()
    ensures forall r: R.State :: RingIn(r, vq.Regs(), ShotOf(mem)) && R.Shaped(r) ==>
              Shows(r, VirtManager.Sees(hw, vq, mem))
  {
    hide RingIn, Shows, R.Shaped;
    forall r: R.State
      ensures RingIn(r, vq.Regs(), ShotOf(mem)) && R.Shaped(r) ==> Shows(r, VirtManager.Sees(hw, vq, mem))
    {
      ShownBySees(hw, vq, mem, r);
    }
  }

  lemma ShownAfter(hw: Hardware, vq: VirtQueue, mem: GuestMemory)
    ensures RegsOf(VirtManager.Sees(hw, vq, mem)) == vq.Regs()
    ensures forall r: R.State :: Shows(r, VirtManager.Sees(hw, vq, mem)) ==> RingIn(r, vq.Regs(), ShotOf(mem))
  {
    hide RingIn, Shows, R.Shaped;
    forall r: R.State
      ensures Shows(r, VirtManager.Sees(hw, vq, mem)) ==> RingIn(r, vq.Regs(), ShotOf(mem))
    {
      ShownBySees(hw, vq, mem, r);
    }
  }

  /** virtManagerProcessPending extends the run by one service, or by a start that finds nothing pending. */
  method Process(mgr: VirtManager, mem: GuestMemory, ghost tr: seq<System>, ghost evs: seq<Event>)
    returns (ret: bool, ghost tr': seq<System>, ghost more: seq<Event>)
    requires mgr.Valid() && mgr.HeadServiceable(mem) && Traced(mgr.model, ShotOf(mem), mem, tr, evs)
    modifies mgr`model, mgr.Objects(), mgr.HardwareObjects(), mem.ram, mem.usedAt.Values
    ensures mgr.Valid() && ret == (old(mgr.model.pending) != [])
    ensures Traced(mgr.model, ShotOf(mem), mem, tr', evs + more) && tr <= tr'
    ensures more != [] && more[0].Begin? && AllDevice(more[1..]) && (!ret ==> more == [Begin])
  {
    hide Traced, Follow, ShotOf, HasQueue, QueueAt;
    ghost var m, w := mgr.model, ShotOf(mem);
    ghost var dev, before, after;
    ret, dev, before, after := Serve(mgr, mem);
    if ret {
      tr', more := ServiceTraced(dev, before, after, m, w, mgr.model, ShotOf(mem), mem, tr, evs, m.pending[0]);
    } else {
      tr', more := IdleTraced(m, w, mem, tr, evs);
    }
  }

  lemma IdleTraced(m: M.Machine, w: Shot, mem: GuestMemory, tr: seq<System>, evs: seq<Event>)
    returns (tr': seq<System>, more: seq<Event>)
    requires Traced(m, w, mem, tr, evs) && m.pending == []
    ensures Traced(m, w, mem, tr', evs + more) && tr <= tr' && more == [Begin]
  {
    hide R.Shaped;
    RunShape(tr, evs);
    LeadsOne(tr[|evs|], Begin);
    more := [Begin];
    tr' := Extend(tr, evs, more, tr[|evs|]);
  }

  // ---------- register writes ----------

  /** The rings that queue q is to use are as long as it needs and start at index 0. */
  ghost predicate FreshRings(q: Queue, w: Shot) {
    && q.qAvail in w.avail && w.avail[q.qAvail].0 == 0 && |w.avail[q.qAvail].1| >= Size(q)
    && q.qUsed in w.used && w.used[q.qUsed].0 == 0 && |w.used[q.qUsed].1| >= Size(q)
  }

  /** The queue and the queue register that a packed register addresses. */
  ghost predicate Addresses(m: M.Machine, dev: nat, reg: u32, k: Key) {
    M.TypeOf(reg) == M.QueueReg && k == (dev, M.QueueNumberOf(reg)) && HasQueue(m, k)
  }

  /** What a driver keeps to: the registers of a ready queue stay, and one brought up has rings of its own. */
  ghost predicate MayWrite(m: M.Machine, w: Shot, mem: GuestMemory, dev: nat, reg: u32, val: u32) {
    forall k | Addresses(m, dev, reg, k) :: MayWriteQueue(m, w, mem, k, M.QueueRegNumberOf(reg), val)
  }

  ghost predicate MayWriteQueue(m: M.Machine, w: Shot, mem: GuestMemory, k: Key, r: nat, val: u32)
    requires HasQueue(m, k)
  {
    var q, q' := QueueAt(m, k), RegWrite(QueueAt(m, k), r, val);
    if q.ready != 0 then q' == q
    else q'.ready != 0 ==>
           FreshRings(q', w)
           && forall l | HasQueue(m, l) && l != k && QueueAt(m, l).ready != 0 :: Apart(q', QueueAt(m, l), mem)
  }

  /** What a register write means for the abstract state when one queue is concerned. */
  lemma WriteKeeps(m: M.Machine, w: Shot, s: System, m': M.Machine, s': System, mem: GuestMemory, k: Key, regs: Queue)
    requires Abstracts(m, w, mem, s) && HasQueue(m, k) && Replaced(m, m', k, regs)
    requires Shaped(s') && s'.busy.NoOne? && s'.pending == m'.pending
    requires k in s'.rings && s'.rings == s.rings[k := s'.rings[k]] && RingIn(s'.rings[k], regs, w)
    requires regs.ready != 0 ==>
               forall l | HasQueue(m, l) && l != k && QueueAt(m, l).ready != 0 :: Apart(regs, QueueAt(m, l), mem)
    ensures Abstracts(m', w, mem, s')
  {
    hide Shaped, RingIn, AllApart, Replaced;
    SameQueues(m, m', k, regs);
    forall i: Key, j: Key
      | HasQueue(m', i) && HasQueue(m', j) && i != j && QueueAt(m', i).ready != 0 && QueueAt(m', j).ready != 0
      ensures Apart(QueueAt(m', i), QueueAt(m', j), mem)
    {
      ApartFrom(m, mem, i, j);
      if j == k { assert Apart(regs, QueueAt(m, i), mem); }
    }
    ApartAll(m', mem);
  }

  /** A ready queue concerned stays apart from the others as it was. */
  lemma ApartAsBefore(m: M.Machine, mem: GuestMemory, k: Key)
    requires AllApart(m, mem) && HasQueue(m, k)
    ensures QueueAt(m, k).ready != 0 ==>
              forall l | HasQueue(m, l) && l != k && QueueAt(m, l).ready != 0 ::
                Apart(QueueAt(m, k), QueueAt(m, l), mem)
  {
  }

  /** A register write to queue k extends the run by one event at most. */
  lemma QueueWriteTraced(m: M.Machine, w: Shot, mem: GuestMemory, tr: seq<System>, evs: seq<Event>,
                         k: Key, r: nat, val: u32)
    returns (tr': seq<System>, more: seq<Event>)
    requires Traced(m, w, mem, tr, evs) && HasQueue(m, k) && MayWriteQueue(m, w, mem, k, r, val)
    ensures Traced(M.WriteQueue(m, k.0, k.1, r, val), w, mem, tr', evs + more) && tr <= tr' && |more| <= 1
  {
    hide R.Shaped, RingIn, AllApart, RegWrite, RingsOk, ListOk, Init, Follows, Leads, MayWriteQueue;
    RunShape(tr, evs);
    var s, m' := tr[|evs|], M.WriteQueue(m, k.0, k.1, r, val);
    var q, q' := QueueAt(m, k), RegWrite(QueueAt(m, k), r, val);
    ApartAsBefore(m, mem, k);
    if QueueRegOf(r) == QueueReg.Notify {
      NotifyWritesNothing(q, r, val);
      var s' := s.(pending := Enqueue(s.pending, k));
      LeadsOne(s, Event.Notify(k));
      more := [Event.Notify(k)];
      tr' := Extend(tr, evs, more, s');
      assert s'.rings == s.rings[k := s'.rings[k]];
      WriteKeeps(m, w, s, m', s', mem, k, q');
    } else if q.ready != 0 {
      StillThere(m, w, mem, k, r, val);
      more := [];
      tr' := tr;
      assert evs + more == evs;
      assert s.rings == s.rings[k := s.rings[k]];
      WriteKeeps(m, w, s, m', s, mem, k, q');
    } else {
      RunKeeps(tr, evs, |evs|);
      var e, s' := SleepingWrite(m, w, mem, s, k, r, val);
      more := [e];
      tr' := Extend(tr, evs, more, s');
      WriteKeeps(m, w, s, m', s', mem, k, q');
    }
    RunShape(tr', evs + more);
  }

  lemma NotifyWritesNothing(q: Queue, r: nat, val: u32)
    requires QueueRegOf(r) == QueueReg.Notify
    ensures RegWrite(q, r, val) == q
  {
  }

  lemma StillThere(m: M.Machine, w: Shot, mem: GuestMemory, k: Key, r: nat, val: u32)
    requires HasQueue(m, k) && MayWriteQueue(m, w, mem, k, r, val) && QueueAt(m, k).ready != 0
    ensures RegWrite(QueueAt(m, k), r, val) == QueueAt(m, k)
  {
  }

  /** A write to a queue that is not ready, as an event with the rings that memory holds. */
  lemma SleepingWrite(m: M.Machine, w: Shot, mem: GuestMemory, s: System, k: Key, r: nat, val: u32)
    returns (e: Event, s': System)
    requires Abstracts(m, w, mem, s) && HasQueue(m, k) && MayWriteQueue(m, w, mem, k, r, val) && RingsOk(s)
    requires QueueRegOf(r) != QueueReg.Notify && QueueAt(m, k).ready == 0
    ensures Leads(s, [e], s') && Shaped(s') && s'.busy.NoOne? && s'.pending == s.pending
    ensures k in s'.rings && s'.rings == s.rings[k := s'.rings[k]]
    ensures RingIn(s'.rings[k], RegWrite(QueueAt(m, k), r, val), w)
    ensures RegWrite(QueueAt(m, k), r, val).ready != 0 ==>
              forall l | HasQueue(m, l) && l != k && QueueAt(m, l).ready != 0 ::
                Apart(RegWrite(QueueAt(m, k), r, val), QueueAt(m, l), mem)
  {
    hide RegWrite, Leads, Awake;
    OnlyAsleep(s.rings[k]);
    var q' := RegWrite(QueueAt(m, k), r, val);
    var avail, used := RingsFor(q', w);
    e := Write(k, r, val, avail, used);
    var ring := Written(s.rings[k], r, val, avail, used);
    s' := s.(rings := s.rings[k := ring]);
    assert R.Shaped(ring);
    LeadsOne(s, e);
  }

  /** The rings in memory if the queue is ready, and room enough in any case. */
  lemma RingsFor(q: Queue, w: Shot) returns (avail: seq<u16>, used: seq<UsedElem>)
    requires q.ready != 0 ==> FreshRings(q, w)
    ensures |avail| >= Size(q) && |used| >= Size(q)
    ensures q.ready != 0 ==> w.avail[q.qAvail] == (0, avail) && w.used[q.qUsed] == (0, used)
  {
    if q.ready != 0 {
      avail, used := w.avail[q.qAvail].1, w.used[q.qUsed].1;
    } else {
      avail, used := seq(Size(q), i => 0), seq(Size(q), i => UsedElem(0, 0));
    }
  }

  /** virtDevWriteReg extends the run by one event at most. */
  method WriteRegister(mgr: VirtManager, mem: GuestMemory, dev: nat, reg: u32, val: u32,
                       ghost tr: seq<System>, ghost evs: seq<Event>)
    returns (ghost tr': seq<System>, ghost more: seq<Event>)
    requires mgr.Valid() && Traced(mgr.model, ShotOf(mem), mem, tr, evs)
    requires MayWrite(mgr.model, ShotOf(mem), mem, dev, reg, val)
    modifies mgr, mgr.Objects()
    ensures mgr.Valid() && mgr.model == M.WriteReg(old(mgr.model), dev, reg, val)
    ensures Traced(mgr.model, ShotOf(mem), mem, tr', evs + more) && tr <= tr' && |more| <= 1
  {
    hide Traced, MayWrite, VirtManager.Valid, VirtManager.Objects;
    ghost var m, w := mgr.model, ShotOf(mem);
    mgr.WriteReg(dev, reg, val);
    assert AvailIs(mem, w) && UsedIs(mem, w, {});
    Shots(mem, w, RESET_QUEUE, false);
    tr', more := WriteTraced(m, w, mem, tr, evs, dev, reg, val);
  }

  lemma WriteTraced(m: M.Machine, w: Shot, mem: GuestMemory, tr: seq<System>, evs: seq<Event>,
                    dev: nat, reg: u32, val: u32)
    returns (tr': seq<System>, more: seq<Event>)
    requires Traced(m, w, mem, tr, evs) && MayWrite(m, w, mem, dev, reg, val)
    ensures Traced(M.WriteReg(m, dev, reg, val), w, mem, tr', evs + more) && tr <= tr' && |more| <= 1
  {
    hide Traced, And, Shr, MayWriteQueue, M.WriteQueue;
    var k: Key := (dev, M.QueueNumberOf(reg));
    if M.TypeOf(reg) == M.QueueReg && HasQueue(m, k) {
      assert Addresses(m, dev, reg, k);
      tr', more := QueueWriteTraced(m, w, mem, tr, evs, k, M.QueueRegNumberOf(reg), val);
    } else {
      tr', more := tr, [];
      assert evs + more == evs;
      OtherWrites(m, w, mem, tr, evs, M.WriteReg(m, dev, reg, val));
    }
  }

  /** Nothing that leaves the queues and the pending list alone shows in the abstract state. */
  lemma OtherWrites(m: M.Machine, w: Shot, mem: GuestMemory, tr: seq<System>, evs: seq<Event>, m': M.Machine)
    requires Traced(m, w, mem, tr, evs) && m'.pending == m.pending && |m'.devs| == |m.devs|
    requires forall d :: 0 <= d < |m.devs| ==> m'.devs[d].vqs == m.devs[d].vqs
    ensures Traced(m', w, mem, tr, evs)
  {
    hide IsRun, Init, Shaped, RingIn, Apart;
    RunShape(tr, evs);
    var s := tr[|evs|];
    forall k: Key
      ensures HasQueue(m', k) <==> HasQueue(m, k)
      ensures HasQueue(m, k) ==> QueueAt(m', k) == QueueAt(m, k)
    {
    }
  }

  // ---------- the driver's own accesses ----------

  /** Memory after a step of queue q's driver, which left its ring as r: of the rings only q's available one. */
  ghost predicate DriverWrote(w: Shot, w': Shot, mem: GuestMemory, q: Queue, r: R.State) {
    && w'.used == w.used && w'.avail.Keys == w.avail.Keys == mem.availAt.Keys && q.qAvail in mem.availAt
    && forall a :: a in w.avail ==>
         w'.avail[a] == if mem.availAt[a] == mem.availAt[q.qAvail] then (r.availLast, r.avail) else w.avail[a]
  }

  /** A step of a driver, at any time between two calls, extends the run by that step. */
  lemma DriverTraced(m: M.Machine, w: Shot, w': Shot, mem: GuestMemory, tr: seq<System>, evs: seq<Event>,
                     k: Key, a: R.Action) returns (tr': seq<System>)
    requires Traced(m, w, mem, tr, evs) && HasQueue(m, k) && QueueAt(m, k).ready != 0
    requires |tr| == |evs| + 1 && k in tr[|evs|].rings && R.Shaped(tr[|evs|].rings[k])
    requires IsDriverAction(a) && R.Enabled(tr[|evs|].rings[k], a)
    requires DriverWrote(w, w', mem, QueueAt(m, k), R.Step(tr[|evs|].rings[k], a))
    ensures Traced(m, w', mem, tr', evs + [Driver(k, a)]) && tr <= tr'
  {
    hide Follows, Init, Leads, RingIn, R.Shaped, R.Enabled, R.Step, AllApart, DriverWrote;
    RunShape(tr, evs);
    var s := tr[|evs|];
    var r' := R.Step(s.rings[k], a);
    var s' := s.(rings := s.rings[k := r']);
    RegsIn(s.rings[k], QueueAt(m, k), w);
    LeadsOne(s, Driver(k, a));
    tr' := Extend(tr, evs, [Driver(k, a)], s');
    OwnRing(s.rings[k], QueueAt(m, k), w, w', mem, a);
    forall l | l in s'.rings
      ensures RingIn(s'.rings[l], QueueAt(m, l), w')
    {
      if l != k {
        ApartFrom(m, mem, l, k);
        NotMyRing(s.rings[l], QueueAt(m, l), w, w', mem, QueueAt(m, k), r');
      }
    }
    RunShape(tr', evs + [Driver(k, a)]);
  }

  lemma RegsIn(r: R.State, q: Queue, w: Shot)
    requires RingIn(r, q, w)
    ensures r.q == q
  {
  }

  lemma OwnRing(r: R.State, q: Queue, w: Shot, w': Shot, mem: GuestMemory, a: R.Action)
    requires RingIn(r, q, w) && q.ready != 0 && R.Shaped(r) && IsDriverAction(a) && R.Enabled(r, a)
    requires DriverWrote(w, w', mem, q, R.Step(r, a))
    ensures RingIn(R.Step(r, a), q, w')
  {
  }

  lemma NotMyRing(r: R.State, q: Queue, w: Shot, w': Shot, mem: GuestMemory, p: Queue, r': R.State)
    requires RingIn(r, q, w) && DriverWrote(w, w', mem, p, r')
    requires q.ready != 0 ==> Apart(q, p, mem)
    ensures RingIn(r, q, w')
  {
  }

  // ---------- served in turn, on the heap ----------

  /**
   * Served in turn, of the manager's own pending list: with at most k services since, the queue that had k
   * others ahead of it has that many fewer ahead now; so it is at the head, and the next to be served, exactly
   * when there were k.
   */
  lemma InTurnOnHeap(m: M.Machine, w: Shot, tr: seq<System>, evs: seq<Event>,
                     m': M.Machine, w': Shot, tr': seq<System>, more: seq<Event>, mem: GuestMemory, k: nat)
    requires Traced(m, w, mem, tr, evs) && Traced(m', w', mem, tr', evs + more) && tr <= tr'
    requires k < |m.pending| && Begins(evs + more, |evs|, |evs + more|) <= k
    ensures var b := Begins(evs + more, |evs|, |evs + more|);
            && k - b < |m'.pending| && m'.pending[k - b] == m.pending[k]
            && (m'.pending[0] == m.pending[k] <==> b == k)
  {
    hide Shaped, Init, Follows, ListOk, RingsOk, RingIn, AllApart;
    RunShape(tr, evs);
    RunShape(tr', evs + more);
    assert tr'[|evs|] == tr[|evs|];
    MovesUp(tr', evs + more, |evs|, |evs + more|, k);
    RunKeeps(tr', evs + more, |evs + more|);
    DistinctPending(tr'[|evs + more|]);
  }

  lemma DistinctPending(s: System)
    requires ListOk(s)
    ensures NoDuplicates(s.pending)
  {
  }
}
