/**
 * The manager's variables in place (virt/manager.c, virt/device.c): devices, queues, the pending list
 * and the interrupt banks as objects, tied to the register file of module Machine.
 */
module Manager {
  import opened Bits
  import opened QueueRegs
  import opened DeviceJobs
  import opened Drain
  import opened VirtIrqs
  import opened PendingList
  import opened VirtQueues
  import M = Machine
  import E = Entropy
  import B = BlockDevice

  /** The hardware behind a device, which decides its prQueue. */
  datatype Hardware = Generator(prng: E.Prng) | Card(card: B.SdCard)

  /** Everything the service of a queue depends on: what the guest wrote and what the device side holds. */
  datatype View = Asleep(regs: Queue, ram: seq<u8>) | Active(guest: Guest, side: Side)

  /** A ready queue is served to the end; one that is not is left alone. */
  ghost predicate Served(dev: Device, before: View, after: View) {
    if before.Active? then
      after.Active? && after.guest == before.guest && ServedAll(dev, before.guest, before.side, after.side)
    else after == before
  }

  class VirtDev {
    const id: nat
    const devId: u16
    const featLo: u32
    const featHi: u32
    const config: M.ConfigSpace
    const hw: Hardware
    const vqs: seq<VirtQueue>
    var cfg: u32
    var status: u16
    var driverLo: u32
    var driverHi: u32

    /** virtDevInit and virtDevReset on static storage. */
    constructor (i: nat, cls: u16, lo: u32, hi: u32, space: M.ConfigSpace, hardware: Hardware, queues: seq<VirtQueue>)
      ensures id == i && devId == cls && featLo == lo && featHi == hi
      ensures config == space && hw == hardware && vqs == queues
      ensures cfg == 0 && status == 0 && driverLo == 0 && driverHi == 0
    {
      id, devId, featLo, featHi, config, hw, vqs := i, cls, lo, hi, space, hardware, queues;
      cfg, status, driverLo, driverHi := 0, 0, 0, 0;
    }

    /** The device's own registers agree with d. */
    ghost predicate Matches(d: M.Dev)
      reads this
    {
      && d.devId == devId && d.featLo == featLo && d.featHi == featHi && d.config == config
      && d.cfg == cfg && d.status == status && d.driverLo == driverLo && d.driverHi == driverHi
      && |d.vqs| == |vqs|
    }

    method InternalRegRead(reg: nat, ghost d: M.Dev) returns (r: u32)
      requires Matches(d)
      ensures r == M.InternalRead(d, reg)
    {
      match reg {
        case 0 => r := devId;
        case 1 => r := M.VIRTDEV_DEFAULT_VENDOR;
        case 2 => r := status;
        case 3 => r := featLo;
        case 4 => r := featHi;
        case 5 => r := driverLo;
        case 6 => r := driverHi;
        case 7 => r := cfg;
        case _ => r := 0;
      }
    }

    method InternalRegWrite(reg: nat, val: u32, ghost d: M.Dev)
      requires Matches(d)
      modifies this
      ensures Matches(M.InternalWrite(d, reg, val))
    {
      match reg {
        case 2 => status := val % 0x1_0000;
        case 5 => driverLo := val;
        case 6 => driverHi := val;
        case _ =>
      }
    }

    method GetQueue(i: nat) returns (vq: VirtQueue?)
      ensures vq == if i < |vqs| then vqs[i] else null
    {
      if i >= |vqs| {
        return null;
      }
      return vqs[i];
    }
  }

  class VirtManager {
    const devs: seq<VirtDev>
    const list: PendingList
    const irq: VirtIrq
    ghost var model: M.Machine

    ghost predicate IsQueue(d: nat, q: nat) {
      d < |devs| && q < |devs[d].vqs|
    }

    ghost function Queues(): set<VirtQueue> {
      set d: nat, q: nat | d < |devs| && q < |devs[d].vqs| :: devs[d].vqs[q]
    }

    /** The manager's own objects; none of them is guest memory. */
    ghost function Objects(): (os: set<object>)
      ensures forall o :: o in os ==> !(o is DescTable) && !(o is AvailRing) && !(o is UsedRing)
    {
      (set d: nat | d < |devs| :: devs[d]) + Queues() + {irq, irq.pendingVirq, list, list.head} + list.universe
    }

    /** Device and queue numbers and list nodes identify their objects. */
    ghost predicate Wired() {
      && (forall d: nat :: d < |devs| ==> devs[d].id == d)
      && (forall d: nat, q: nat :: IsQueue(d, q) ==>
            && devs[d].vqs[q].owner == d && devs[d].vqs[q].id == q
            && devs[d].vqs[q].node in list.universe && devs[d].vqs[q].node.home == (d, q))
    }

    ghost predicate DevsMatch(ds: seq<M.Dev>)
      reads set d: nat | d < |devs| :: devs[d]
    {
      |ds| == |devs| && forall d: nat :: d < |devs| ==> devs[d].Matches(ds[d])
    }

    ghost predicate QueuesMatch(ds: seq<M.Dev>)
      reads Queues()
    {
      |ds| == |devs| && forall d: nat, q: nat :: IsQueue(d, q) ==>
        q < |ds[d].vqs| && devs[d].vqs[q].Regs() == ds[d].vqs[q]
    }

    /** The list holds the nodes of the pending queues, in order. */
    ghost predicate PendingMatch(pending: seq<(nat, nat)>, nodes: seq<ListNode>) {
      |pending| == |nodes| && forall i :: 0 <= i < |nodes| ==>
        IsQueue(pending[i].0, pending[i].1) && nodes[i] == devs[pending[i].0].vqs[pending[i].1].node
    }

    ghost predicate Valid()
      reads this, Objects()
    {
      && Wired() && irq.Valid() && list.Valid()
      && model.virqs == irq.model
      && DevsMatch(model.devs) && QueuesMatch(model.devs)
      && PendingMatch(model.pending, list.nodes)
    }

    /** virtDevInitAll over initialised devices: an empty list and clear interrupts. */
    constructor (all: seq<VirtDev>, ghost m: M.Machine, pendingList: PendingList, irqs: VirtIrq)
      requires pendingList.Valid() && pendingList.nodes == [] && irqs.Valid() && irqs.model == RESET_VIRQS
      requires forall d: nat :: d < |all| ==> all[d].id == d
      requires forall d: nat, q: nat :: d < |all| && q < |all[d].vqs| ==>
                 && all[d].vqs[q].owner == d && all[d].vqs[q].id == q
                 && all[d].vqs[q].node in pendingList.universe && all[d].vqs[q].node.home == (d, q)
                 && all[d].vqs[q].Regs() == RESET_QUEUE
      requires m.virqs == RESET_VIRQS && m.pending == [] && |m.devs| == |all|
      requires forall d: nat :: d < |all| ==> all[d].Matches(m.devs[d])
      requires forall d: nat, q: nat :: d < |all| && q < |m.devs[d].vqs| ==> m.devs[d].vqs[q] == RESET_QUEUE
      ensures Valid() && model == m && devs == all && list == pendingList && irq == irqs
    {
      devs, list, irq, model := all, pendingList, irqs, m;
    }

    lemma PendingIsListed(d: nat, q: nat, pending: seq<(nat, nat)>, nodes: seq<ListNode>)
      requires Wired() && IsQueue(d, q) && PendingMatch(pending, nodes)
      ensures (d, q) in pending <==> devs[d].vqs[q].node in nodes
      ensures PendingMatch(Enqueue(pending, (d, q)), Enqueue(nodes, devs[d].vqs[q].node))
    {
      var n := devs[d].vqs[q].node;
      if (d, q) in pending {
        var i :| 0 <= i < |pending| && pending[i] == (d, q);
        assert nodes[i] == n;
      }
      if n in nodes {
        var i :| 0 <= i < |nodes| && nodes[i] == n;
        assert pending[i] == (d, q);
      }
    }

    /** virtManagerRegRead */
    method RegRead(reg: nat) returns (r: u32)
      requires Valid()
      modifies this`model, irq`model, irq.pendingVirq
      ensures Valid() && (model, r) == M.ManagerRead(old(model), reg)
    {
      hide PendingMatch, DevsMatch;
      if reg == 0 {
        r := M.VIRT_MANAGER_VERSION;
      } else if reg == 1 {
        r := |devs| % 0x1_0000_0000;
      } else if 8 <= reg < 12 {
        r := irq.Get(reg - 8, VIRQ_VQUEUE);
        model := M.ManagerRead(model, reg).0;
      } else if 12 <= reg < 16 {
        r := irq.Get(reg - 12, VIRQ_CONFIG);
        model := M.ManagerRead(model, reg).0;
      } else {
        r := 0;
      }
    }

    /** virtDevReadReg */
    method ReadReg(dev: nat, reg: u32) returns (r: u32)
      requires Valid()
      modifies this`model, irq`model, irq.pendingVirq
      ensures Valid() && (model, r) == M.ReadReg(old(model), dev, reg)
    {
      hide And, Shr;
      var rtype, number := M.TypeOf(reg), M.NumberOf(reg);
      if rtype == M.ManagerReg {
        r := RegRead(number);
        return;
      }
      if dev >= |devs| {
        return 0;
      }
      match rtype {
        case DeviceReg => r := devs[dev].InternalRegRead(number, model.devs[dev]);
        case ConfigReg => r := M.ConfigRead(devs[dev].config, number);
        case QueueReg =>
          var vq := devs[dev].GetQueue(M.QueueNumberOf(reg));
          if vq == null {
            return 0;
          }
          r := vq.ReadRegister(M.QueueRegNumberOf(reg));
      }
    }

    /** virtDevWriteReg */
    method WriteReg(dev: nat, reg: u32, val: u32)
      requires Valid()
      modifies this, Objects()
      ensures Valid() && model == M.WriteReg(old(model), dev, reg, val)
    {
      hide And, Shr;
      var rtype, number := M.TypeOf(reg), M.NumberOf(reg);
      if rtype == M.ManagerReg || dev >= |devs| {
        return;
      }
      match rtype {
        case DeviceReg => WriteInternal(dev, number, val);
        case ConfigReg =>
        case QueueReg =>
          var vq := devs[dev].GetQueue(M.QueueNumberOf(reg));
          if vq != null {
            WriteQueueReg(dev, M.QueueNumberOf(reg), M.QueueRegNumberOf(reg), val);
          }
      }
    }

    method WriteInternal(dev: nat, reg: nat, val: u32)
      requires Valid() && dev < |devs|
      modifies this`model, devs[dev]
      ensures Valid()
      ensures model == old(model).(devs := old(model).devs[dev := M.InternalWrite(old(model).devs[dev], reg, val)])
    {
      hide PendingMatch;
      devs[dev].InternalRegWrite(reg, val, model.devs[dev]);
      model := model.(devs := model.devs[dev := M.InternalWrite(model.devs[dev], reg, val)]);
    }

    method WriteQueueReg(dev: nat, q: nat, reg: nat, val: u32)
      requires Valid() && IsQueue(dev, q)
      modifies this`model, devs[dev].vqs[q], list, list.head, list.universe
      ensures Valid() && dev < |old(model).devs| && q < |old(model).devs[dev].vqs|
      ensures model == M.WriteQueue(old(model), dev, q, reg, val)
    {
      hide PendingMatch;
      PendingIsListed(dev, q, model.pending, list.nodes);
      devs[dev].vqs[q].WriteRegister(reg, val, list);
      model := M.WriteQueue(model, dev, q, reg, val);
    }

    // ---------- servicing ----------

    static ghost function DeviceOf(hw: Hardware): Device {
      match hw
      case Generator(prng) => EntropySource(prng.stream)
      case Card(card) => card.Dev()
    }

    /** The device's own counters: words drawn, or the queue's running sector number and the reads asked for. */
    static ghost function PosOf(hw: Hardware, vq: VirtQueue): nat
      reads vq, HardwareOf(hw)
    {
      match hw
      case Generator(prng) => prng.drawn
      case Card(_) => vq.priv
    }

    static ghost function AskedOf(hw: Hardware): nat
      reads HardwareOf(hw)
    {
      match hw
      case Generator(_) => 0
      case Card(card) => card.asked
    }

    static ghost function HardwareOf(hw: Hardware): (o: object)
      ensures o is E.Prng || o is B.SdCard
    {
      match hw
      case Generator(prng) => prng
      case Card(card) => card
    }

    /** The view of a queue with its device's counters. */
    static ghost function Sees(hw: Hardware, vq: VirtQueue, mem: GuestMemory): View
      reads vq, HardwareOf(hw), QueueObjects(vq.Regs(), mem), mem.ram
    {
      var regs := vq.Regs();
      if regs.ready != 0 && Mapped(regs, mem)
      then Active(GuestOf(regs, mem), SideOf(regs, mem, PosOf(hw, vq), AskedOf(hw)))
      else Asleep(regs, mem.ram[..])
    }

    ghost function HardwareObjects(): (os: set<object>)
      ensures forall o :: o in os ==> o is E.Prng || o is B.SdCard
    {
      set d: nat | d < |devs| :: HardwareOf(devs[d].hw)
    }

    /** The queue can be served as it stands. */
    static ghost predicate CanServe(hw: Hardware, vq: VirtQueue, mem: GuestMemory)
      reads vq, HardwareOf(hw), QueueObjects(vq.Regs(), mem)
    {
      Serviceable(DeviceOf(hw), vq.Regs(), mem, PosOf(hw, vq), AskedOf(hw))
    }

    /** CONTAINER_OF: the queue a list node is embedded in. */
    method ContainerOf(n: ListNode) returns (d: nat, q: nat)
      requires exists d': nat, q': nat :: IsQueue(d', q') && devs[d'].vqs[q'].node == n
      ensures IsQueue(d, q) && devs[d].vqs[q].node == n
    {
      d, q := 0, 0;
      while d < |devs|
        invariant d <= |devs|
        invariant forall d': nat, q': nat :: d' < d && IsQueue(d', q') ==> devs[d'].vqs[q'].node != n
      {
        q := 0;
        while q < |devs[d].vqs|
          invariant q <= |devs[d].vqs|
          invariant forall q': nat :: q' < q ==> devs[d].vqs[q'].node != n
        {
          if devs[d].vqs[q].node == n {
            return;
          }
          q := q + 1;
        }
        d := d + 1;
      }
      assert false;
    }

    /** prQueue of device d. */
    method Dispatch(d: nat, vq: VirtQueue, mem: GuestMemory)
      requires irq.Valid() && d < |devs| && CanServe(devs[d].hw, vq, mem)
      modifies vq`availIdx, vq`usedIdx, vq`priv, UsedObjects(vq.Regs(), mem), mem.ram
      modifies HardwareOf(devs[d].hw), irq, irq.pendingVirq
      ensures irq.Valid() && irq.model == SyncVirq(SetVirq(old(irq.model), d, VIRQ_VQUEUE))
      ensures vq.ready == old(vq.ready)
      ensures Served(DeviceOf(devs[d].hw), old(Sees(devs[d].hw, vq, mem)), Sees(devs[d].hw, vq, mem))
    {
      hide ServedAll, RingOk, BacklogFits;
      match devs[d].hw {
        case Generator(prng) => E.ProcessQueue(vq, mem, prng, irq, d);
        case Card(card) => B.ProcessQueue(vq, mem, card, irq, d);
      }
    }

    /** Of all registers only those of queue q of device d have changed, to regs. */
    ghost predicate ServedOnly(before: M.Machine, d: nat, q: nat, regs: Queue)
      reads this
    {
      && d < |before.devs| && q < |before.devs[d].vqs|
      && model.devs == before.devs[d := before.devs[d].(vqs := before.devs[d].vqs[q := regs])]
    }

    /** Unlink the oldest pending queue and find out which it is. */
    method TakeOldest() returns (d: nat, q: nat)
      requires Valid() && model.pending != []
      modifies this`model, list, list.head, list.universe
      ensures Valid() && IsQueue(d, q) && (d, q) == old(model.pending)[0]
      ensures model == old(model).(pending := old(model.pending)[1..])
    {
      hide DevsMatch;
      ghost var pending := model.pending;
      assert list.nodes[0] == devs[pending[0].0].vqs[pending[0].1].node;
      var next := list.TakeHead();
      d, q := ContainerOf(next);
      model := model.(pending := pending[1..]);
    }

    /** The critical section: the oldest pending queue, if any, off the list. */
    method TakePending() returns (taken: bool, d: nat, q: nat)
      requires Valid()
      modifies this`model, list, list.head, list.universe
      ensures Valid() && taken == (old(model.pending) != [])
      ensures !taken ==> model == old(model)
      ensures taken ==> IsQueue(d, q) && (d, q) == old(model.pending)[0]
      ensures taken ==> model == old(model).(pending := old(model.pending)[1..])
    {
      hide DevsMatch;
      var empty := list.Empty();
      if empty {
        return false, 0, 0;
      }
      taken := true;
      d, q := TakeOldest();
    }

    /** All queues but one agree with m. */
    ghost predicate OthersMatch(ds: seq<M.Dev>, d: nat, q: nat)
      reads Queues()
    {
      |ds| == |devs| && forall d': nat, q': nat :: IsQueue(d', q') ==>
        q' < |ds[d'].vqs| && ((d', q') != (d, q) ==> devs[d'].vqs[q'].Regs() == ds[d'].vqs[q'])
    }

    /** Bring the register file up to date with queue q of device d. */
    ghost method Account(d: nat, q: nat)
      requires IsQueue(d, q) && Wired() && irq.Valid() && list.Valid()
      requires DevsMatch(model.devs) && OthersMatch(model.devs, d, q) && PendingMatch(model.pending, list.nodes)
      modifies this`model
      ensures Valid() && model.pending == old(model.pending) && model.virqs == irq.model
      ensures ServedOnly(old(model), d, q, devs[d].vqs[q].Regs())
    {
      var dev := model.devs[d].(vqs := model.devs[d].vqs[q := devs[d].vqs[q].Regs()]);
      model := model.(devs := model.devs[d := dev], virqs := irq.model);
    }

    /** Serve one queue; of the manager's own variables only the interrupts change. */
    method RunService(d: nat, ghost q: nat, vq: VirtQueue, mem: GuestMemory)
      requires Valid() && IsQueue(d, q) && vq == devs[d].vqs[q]
      requires CanServe(devs[d].hw, vq, mem)
      modifies vq`availIdx, vq`usedIdx, vq`priv
      modifies irq, irq.pendingVirq, HardwareOf(devs[d].hw), mem.ram, UsedObjects(vq.Regs(), mem)
      ensures list.Valid() && PendingMatch(model.pending, list.nodes)
      ensures irq.Valid() && irq.model == SyncVirq(SetVirq(old(irq.model), d, VIRQ_VQUEUE))
      ensures DevsMatch(model.devs) && OthersMatch(model.devs, d, q)
      ensures Served(DeviceOf(devs[d].hw), old(Sees(devs[d].hw, vq, mem)), Sees(devs[d].hw, vq, mem))
    {
      hide ServedAll, RingOk, BacklogFits, And, SetVirq, SyncVirq, Served, Sees, PendingMatch, DevsMatch;
      Dispatch(d, vq, mem);
    }

    /** Serve one queue and account for it in the register file. */
    method ServeQueue(d: nat, ghost q: nat, vq: VirtQueue, mem: GuestMemory)
      requires Valid() && IsQueue(d, q) && vq == devs[d].vqs[q]
      requires CanServe(devs[d].hw, vq, mem)
      modifies this`model, vq`availIdx, vq`usedIdx, vq`priv
      modifies irq, irq.pendingVirq, HardwareOf(devs[d].hw), mem.ram, UsedObjects(vq.Regs(), mem)
      ensures Valid() && model.pending == old(model.pending)
      ensures model.virqs == SyncVirq(SetVirq(old(model.virqs), d, VIRQ_VQUEUE))
      ensures ServedOnly(old(model), d, q, vq.Regs())
      ensures Served(DeviceOf(devs[d].hw), old(Sees(devs[d].hw, vq, mem)), Sees(devs[d].hw, vq, mem))
    {
      hide ServedAll, RingOk, BacklogFits, And, SetVirq, SyncVirq, Served, PendingMatch, DevsMatch, OthersMatch;
      RunService(d, q, vq, mem);
      Account(d, q);
    }

    /** The queue at the head of the pending list. */
    ghost function HeadQueue(pending: seq<(nat, nat)>): VirtQueue
      requires pending != [] && IsQueue(pending[0].0, pending[0].1)
    {
      devs[pending[0].0].vqs[pending[0].1]
    }

    /** The queue at the head of the pending list, if any, can be served. */
    ghost predicate HeadServiceable(mem: GuestMemory)
      requires Valid()
      reads this, Objects(), HardwareObjects(), mem.descAt.Values, mem.availAt.Values, mem.usedAt.Values, mem.ram
    {
      model.pending != [] ==>
        var hw, vq := devs[model.pending[0].0].hw, HeadQueue(model.pending);
        CanServe(hw, vq, mem)
    }

    /** Taking the oldest pending queue off the list disturbs nothing its service depends on. */
    method TakeNext(mem: GuestMemory) returns (d: nat, q: nat, vq: VirtQueue?)
      requires Valid() && HeadServiceable(mem)
      modifies this`model, list, list.head, list.universe
      ensures Valid() && (vq == null <==> old(model.pending) == [])
      ensures vq == null ==> model == old(model)
      ensures vq != null ==>
                && IsQueue(d, q) && (d, q) == old(model.pending)[0] && vq == devs[d].vqs[q]
                && model == old(model).(pending := old(model.pending)[1..])
                && CanServe(devs[d].hw, vq, mem)
                && Sees(devs[d].hw, vq, mem) == old(Sees(devs[d].hw, vq, mem))
    {
      hide RingOk, BacklogFits, And, SideOf, GuestOf, DeviceOf, QueuesMatch, DevsMatch;
      var taken;
      taken, d, q := TakePending();
      if !taken {
        return 0, 0, null;
      }
      vq := devs[d].vqs[q];
    }

    /**
     * virtManagerProcessPending: false exactly when nothing is pending; otherwise the head of the list is
     * taken off and its queue served to the end, and no register of any other queue or device changes.
     */
    method ProcessPending(mem: GuestMemory) returns (ret: bool)
      requires Valid() && HeadServiceable(mem)
      modifies this`model, Objects(), HardwareObjects(), mem.ram, mem.usedAt.Values
      ensures Valid() && ret == (old(model.pending) != [])
      ensures !ret ==> model == old(model) && forall a :: a in mem.usedAt ==>
                mem.usedAt[a].last == old(mem.usedAt[a].last) && mem.usedAt[a].ring == old(mem.usedAt[a].ring)
      ensures ret ==>
                var pending := old(model.pending);
                && IsQueue(pending[0].0, pending[0].1)
                && model.pending == pending[1..]
                && model.virqs == SyncVirq(SetVirq(old(model.virqs), pending[0].0, VIRQ_VQUEUE))
                && ServedOnly(old(model), pending[0].0, pending[0].1, HeadQueue(pending).Regs())
                && forall a :: a in mem.usedAt && mem.usedAt[a] !in old(UsedObjects(HeadQueue(pending).Regs(), mem)) ==>
                     mem.usedAt[a].last == old(mem.usedAt[a].last) && mem.usedAt[a].ring == old(mem.usedAt[a].ring)
      ensures ret ==>
                var hw, vq := devs[old(model.pending)[0].0].hw, HeadQueue(old(model.pending));
                Served(DeviceOf(hw), old(Sees(hw, vq, mem)), Sees(hw, vq, mem))
    {
      hide ServedAll, RingOk, BacklogFits, And, SetVirq, SyncVirq, Sees, Served, Serviceable;
      hide SideOf, GuestOf, PendingMatch, DevsMatch, QueuesMatch;
      var d, q, vq := TakeNext(mem);
      if vq != null {
        ServeQueue(d, q, vq, mem);
      }
      return vq != null;
    }
  }
}
