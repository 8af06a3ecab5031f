/**
 * Virtual queues in place (queue.c) and the job helpers around them (manager.h, job.h), over guest
 * memory in which descriptor tables, rings and data buffers are separate objects.
 */
module VirtQueues {
  import opened Bits
  import opened QueueRegs
  import opened Chains
  import opened PendingList
  import opened DeviceJobs
  import opened Drain

  /** Descriptor table; only the guest writes it. */
  class DescTable {
    var entries: seq<Desc>

    constructor (ds: seq<Desc>)
      ensures entries == ds
    {
      entries := ds;
    }
  }

  /** Available ring; only the guest writes it. */
  class AvailRing {
    var last: u16
    var ring: seq<u16>

    constructor (slots: seq<u16>)
      ensures last == 0 && ring == slots
    {
      last, ring := 0, slots;
    }
  }

  /** Used ring; only the device writes it. */
  class UsedRing {
    var last: u16
    var ring: seq<UsedElem>

    constructor (slots: seq<UsedElem>)
      ensures last == 0 && ring == slots
    {
      last, ring := 0, slots;
    }
  }

  /** What the guest keeps at which address: three kinds of queue objects, and plain bytes. */
  class GuestMemory {
    const descAt: map<u32, DescTable>
    const availAt: map<u32, AvailRing>
    const usedAt: map<u32, UsedRing>
    const ram: array<u8>

    constructor (descs: map<u32, DescTable>, avails: map<u32, AvailRing>, useds: map<u32, UsedRing>, bytes: array<u8>)
      ensures descAt == descs && availAt == avails && usedAt == useds && ram == bytes
    {
      descAt, availAt, usedAt, ram := descs, avails, useds, bytes;
    }
  }

  predicate Mapped(q: Queue, mem: GuestMemory) {
    q.qDesc in mem.descAt && q.qAvail in mem.availAt && q.qUsed in mem.usedAt
  }

  ghost function QueueObjects(q: Queue, mem: GuestMemory): set<object> {
    if Mapped(q, mem) then {mem.descAt[q.qDesc], mem.availAt[q.qAvail], mem.usedAt[q.qUsed], mem.ram} else {}
  }

  /** What serving a ready queue writes besides the queue itself and the data buffers. */
  ghost function UsedObjects(q: Queue, mem: GuestMemory): set<object> {
    if q.ready != 0 && q.qUsed in mem.usedAt then {mem.usedAt[q.qUsed]} else {}
  }

  /** What the guest has written for queue q. */
  ghost function GuestOf(q: Queue, mem: GuestMemory): Guest
    requires Mapped(q, mem)
    reads mem.descAt[q.qDesc], mem.availAt[q.qAvail]
  {
    Guest(mem.descAt[q.qDesc].entries, mem.availAt[q.qAvail].last, mem.availAt[q.qAvail].ring)
  }

  /** The queue, its used ring and the device state, with pos and asked the device's own counters. */
  ghost function SideOf(q: Queue, mem: GuestMemory, pos: nat, asked: nat): Side
    requires Mapped(q, mem)
    reads mem.usedAt[q.qUsed], mem.ram
  {
    Side(q, mem.usedAt[q.qUsed].last, mem.usedAt[q.qUsed].ring, DevState(mem.ram[..], pos, asked, 0))
  }

  /** A ready queue is mapped, its rings are large enough, and all its pending jobs can be served. */
  ghost predicate Serviceable(dev: Device, q: Queue, mem: GuestMemory, pos: nat, asked: nat)
    reads QueueObjects(q, mem)
  {
    q.ready != 0 ==>
      && Mapped(q, mem)
      && RingOk(GuestOf(q, mem), SideOf(q, mem, pos, asked))
      && BacklogFits(dev, GuestOf(q, mem), SideOf(q, mem, pos, asked))
  }

  /** virtDesc_s; an out-of-range index leaves length and direction unset. */
  datatype VirtDesc = NoBuffer | Filled(buf: Buffer)

  class VirtQueue {
    const node: ListNode
    const owner: nat
    const id: nat
    var ready: bit
    var sizeMask: u16
    var availIdx: u16
    var usedIdx: u16
    var qDesc: u32
    var qAvail: u32
    var qUsed: u32
    var priv: u32

    function Regs(): Queue
      reads this
    {
      Queue(ready, sizeMask, availIdx, usedIdx, qDesc, qAvail, qUsed)
    }

    /** Static storage followed by virtQueueInit: the node is self-linked and the registers are reset. */
    constructor (dev: nat, i: nat)
      ensures owner == dev && id == i && fresh(node) && node.prev == node && node.next == node && node.home == (dev, i)
      ensures Regs() == RESET_QUEUE && priv == 0
    {
      var n := new ListNode((dev, i));
      node, owner, id := n, dev, i;
      ready, sizeMask, availIdx, usedIdx := 0, 0, 0, 0;
      qDesc, qAvail, qUsed, priv := 0, 0, 0, 0;
    }

    method Reset(list: PendingList)
      requires list.Valid() && node in list.universe
      modifies this, list, list.head, list.universe
      ensures list.Valid() && list.nodes == Without(old(list.nodes), node)
      ensures Regs() == RESET_QUEUE && priv == old(priv)
    {
      list.Remove(node);
      ready, sizeMask, availIdx, usedIdx := 0, 0, 0, 0;
      qDesc, qAvail, qUsed := 0, 0, 0;
    }

    method ReadRegister(reg: nat) returns (r: u32)
      ensures r == RegRead(Regs(), reg)
    {
      match reg {
        case 0 => r := VIRTQUEUE_MAX_DESC;
        case 1 => r := sizeMask + 1;
        case 2 => r := ready;
        case 4 => r := qDesc;
        case 5 => r := qAvail;
        case 6 => r := qUsed;
        case _ => r := 0;
      }
    }

    method SetSize(val: u32)
      modifies this`sizeMask
      ensures Regs() == SetDescCount(old(Regs()), val)
    {
      if val <= VIRTQUEUE_MAX_DESC && PassesPow2Test(val) {
        sizeMask := (val - 1) % 0x1_0000;
      } else {
        sizeMask := 0;
      }
    }

    method WriteRegister(reg: nat, val: u32, list: PendingList)
      requires list.Valid() && node in list.universe
      modifies this, list, list.head, list.universe
      ensures list.Valid() && Regs() == RegWrite(old(Regs()), reg, val) && priv == old(priv)
      ensures list.nodes == if QueueRegOf(reg) == Notify then Enqueue(old(list.nodes), node) else old(list.nodes)
    {
      match reg {
        case 1 => SetSize(val);
        case 2 => if sizeMask > 0 { ready := val % 2; }
        case 3 => var added := list.AppendIfNotEmbedded(node);
        case 4 => qDesc := val;
        case 5 => qAvail := val;
        case 6 => qUsed := val;
        case _ =>
      }
    }

    method FetchAvailFirst(mem: GuestMemory) returns (head: int)
      requires ready != 0 ==> qAvail in mem.availAt && sizeMask < |mem.availAt[qAvail].ring|
      modifies this`availIdx
      ensures ready == 0 ==> head == -1 && Regs() == old(Regs())
      ensures ready != 0 ==>
                var index := FetchIndex(old(Regs()), mem.availAt[qAvail].last);
                if index < 0 then head == -1 && Regs() == old(Regs())
                else head == mem.availAt[qAvail].ring[index] && Regs() == AdvanceAvail(old(Regs()), index)
    {
      if ready == 0 {
        return -1;
      }
      var vqA := mem.availAt[qAvail];
      var index := And(availIdx, sizeMask);
      var avail := And(vqA.last, sizeMask);
      if index == avail {
        return -1;
      }
      availIdx := (index + 1) % 0x1_0000;
      return vqA.ring[index];
    }

    method FetchAvailNext(mem: GuestMemory, prev: u16) returns (next: int)
      requires qDesc in mem.descAt && prev < |mem.descAt[qDesc].entries|
      ensures next == Next(mem.descAt[qDesc].entries, prev)
      ensures var d := mem.descAt[qDesc].entries[prev]; next == if Bit(d.flags, 0) then d.next else -1
    {
      NextIs(mem.descAt[qDesc].entries, prev);
      var vqD := mem.descAt[qDesc].entries;
      if And(vqD[prev].flags, VQ_DESC_F_NEXT) != 0 {
        return vqD[prev].next;
      }
      return -1;
    }

    method PushUsed(mem: GuestMemory, first: u16, len: u32)
      requires qUsed in mem.usedAt && sizeMask < |mem.usedAt[qUsed].ring|
      modifies this`usedIdx, mem.usedAt[qUsed]
      ensures Regs() == AdvanceUsed(old(Regs()))
      ensures mem.usedAt[qUsed].last == (old(mem.usedAt[qUsed].last) + 1) % 0x1_0000
      ensures mem.usedAt[qUsed].ring ==
              old(mem.usedAt[qUsed].ring)[PushIndex(old(Regs())) := UsedElem(first, len)]
    {
      var vqU := mem.usedAt[qUsed];
      var index := And(usedIdx, sizeMask);
      vqU.ring := vqU.ring[index := UsedElem(first, len)];
      usedIdx := (index + 1) % 0x1_0000;
      vqU.last := (vqU.last + 1) % 0x1_0000;
    }

    method GetDesc(mem: GuestMemory, index: u16) returns (desc: VirtDesc)
      requires qDesc in mem.descAt && sizeMask < |mem.descAt[qDesc].entries|
      ensures desc == if index > sizeMask then NoBuffer else Filled(BufferOf(mem.descAt[qDesc].entries[index]))
      ensures index <= sizeMask ==>
                var d := mem.descAt[qDesc].entries[index];
                && desc.Filled? && desc.buf.data == d.addr % 0x1_0000_0000 && desc.buf.length == d.len
                && (desc.buf.dir == VdevToHost <==> Bit(d.flags, 1))
    {
      var vqd := mem.descAt[qDesc].entries;
      if index <= sizeMask {
        BufferIs(vqd[index]);
        var dir := if And(vqd[index].flags, VQ_DESC_F_WRITE) != 0 then VdevToHost else HostToVdev;
        desc := Filled(Buffer(vqd[index].addr % 0x1_0000_0000, vqd[index].len, dir));
      } else {
        desc := NoBuffer;
      }
    }
  }

  // ---------- jobs ----------

  class VirtJob {
    var firstDesc: u16
    var currentDesc: u16
    var totalWritten: u32

    constructor ()
    {
      firstDesc, currentDesc, totalWritten := 0, 0, 0;
    }

    method AddWritten(written: u32)
      modifies this`totalWritten
      ensures totalWritten == (old(totalWritten) + written) % 0x1_0000_0000
    {
      totalWritten := (totalWritten + written) % 0x1_0000_0000;
    }
  }

  method FetchJobNew(vq: VirtQueue, job: VirtJob, mem: GuestMemory) returns (first: int)
    requires vq.ready != 0 ==> vq.qAvail in mem.availAt && vq.sizeMask < |mem.availAt[vq.qAvail].ring|
    modifies vq`availIdx, job
    ensures job.firstDesc == job.currentDesc == first % 0x1_0000 && job.totalWritten == 0
    ensures vq.ready == 0 ==> first == -1 && vq.Regs() == old(vq.Regs())
    ensures vq.ready != 0 ==>
              var index := FetchIndex(old(vq.Regs()), mem.availAt[vq.qAvail].last);
              if index < 0 then first == -1 && vq.Regs() == old(vq.Regs())
              else first == mem.availAt[vq.qAvail].ring[index] && vq.Regs() == AdvanceAvail(old(vq.Regs()), index)
  {
    first := vq.FetchAvailFirst(mem);
    job.firstDesc := first % 0x1_0000;
    job.currentDesc := first % 0x1_0000;
    job.totalWritten := 0;
  }

  method FetchJobNext(vq: VirtQueue, job: VirtJob, mem: GuestMemory) returns (next: int)
    requires vq.qDesc in mem.descAt && job.currentDesc < |mem.descAt[vq.qDesc].entries|
    modifies job`currentDesc
    ensures next == Next(mem.descAt[vq.qDesc].entries, old(job.currentDesc))
    ensures job.currentDesc == next % 0x1_0000
  {
    next := vq.FetchAvailNext(mem, job.currentDesc);
    job.currentDesc := next % 0x1_0000;
  }

  method PushJob(vq: VirtQueue, job: VirtJob, mem: GuestMemory)
    requires vq.qUsed in mem.usedAt && vq.sizeMask < |mem.usedAt[vq.qUsed].ring|
    modifies vq`usedIdx, mem.usedAt[vq.qUsed]
    ensures vq.Regs() == AdvanceUsed(old(vq.Regs()))
    ensures mem.usedAt[vq.qUsed].last == (old(mem.usedAt[vq.qUsed].last) + 1) % 0x1_0000
    ensures mem.usedAt[vq.qUsed].ring ==
            old(mem.usedAt[vq.qUsed].ring)[PushIndex(old(vq.Regs())) := UsedElem(job.firstDesc, job.totalWritten)]
  {
    vq.PushUsed(mem, job.firstDesc, job.totalWritten);
  }
}
