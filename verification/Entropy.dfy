/** The entropy device (hwrng.c): every device-writable buffer of a job is filled from the generator. */
module Entropy {
  import opened Bits
  import opened QueueRegs
  import opened Chains
  import opened Buffers
  import opened DeviceJobs
  import opened Drain
  import opened VirtQueues
  import opened VirtIrqs

  /** Total length of the first k writable buffers, and the whole words in them. */
  function WritableLength(bs: seq<Buffer>, k: nat): nat
    requires k <= |bs|
    decreases k
  {
    if k == 0 then 0 else WritableLength(bs, k - 1) + (if Writable(bs[k - 1]) then bs[k - 1].length else 0)
  }

  function WritableWords(bs: seq<Buffer>, k: nat): nat
    requires k <= |bs|
    decreases k
  {
    if k == 0 then 0 else WritableWords(bs, k - 1) + (if Writable(bs[k - 1]) then bs[k - 1].length / 4 else 0)
  }

  // ---------- what the driver gets ----------

  lemma GeneratorStep(stream: nat -> u32, st: DevState, b: Buffer)
    requires Fits(EntropySource(stream), b, |st.ram|)
    ensures var r := ServeBuffer(EntropySource(stream), st, b);
            && r.written == (st.written + (if Writable(b) then b.length else 0)) % 0x1_0000_0000
            && r.pos == st.pos + (if Writable(b) then b.length / 4 else 0)
  {
  }

  /** The length reported is the total of the writable lengths, with one word drawn per whole word. */
  lemma {:induction false} ReportedLength(stream: nat -> u32, st: DevState, bs: seq<Buffer>, k: nat)
    requires AllFit(EntropySource(stream), bs, |st.ram|) && k <= |bs|
    ensures ServeBuffers(EntropySource(stream), st, bs, k).written ==
            (st.written + WritableLength(bs, k)) % 0x1_0000_0000
    ensures ServeBuffers(EntropySource(stream), st, bs, k).pos == st.pos + WritableWords(bs, k)
    decreases k
  {
    hide ServeBuffer;
    if k > 0 {
      var mid := ServeBuffers(EntropySource(stream), st, bs, k - 1);
      GeneratorStep(stream, mid, bs[k - 1]);
      AddMod32(st.written + WritableLength(bs, k - 1), if Writable(bs[k - 1]) then bs[k - 1].length else 0);
      ReportedLength(stream, st, bs, k - 1);
    }
  }

  /** The words drawn account for the whole reported length exactly when every length is word-sized. */
  lemma {:induction false} WordsCoverLength(bs: seq<Buffer>, k: nat)
    requires k <= |bs|
    ensures 4 * WritableWords(bs, k) <= WritableLength(bs, k)
    ensures 4 * WritableWords(bs, k) == WritableLength(bs, k) <==>
            forall i :: 0 <= i < k && Writable(bs[i]) ==> bs[i].length % 4 == 0
    decreases k
  {
    if k > 0 {
      WordsCoverLength(bs, k - 1);
    }
  }

  /** The whole words of buffer b hold the generator's output from position from on. */
  ghost predicate HoldsStream(ram: seq<u8>, b: Buffer, stream: nat -> u32, from: nat)
    requires b.data + b.length <= |ram|
  {
    ram[b.data..b.data + 4 * (b.length / 4)] == StreamBytes(stream, from, b.length / 4)
  }

  /** Each buffer holds its own consecutive stretch of the generator's output, whatever follows it. */
  lemma {:induction false} BuffersHoldStream(stream: nat -> u32, st: DevState, bs: seq<Buffer>, i: nat, k: nat)
    requires AllFit(EntropySource(stream), bs, |st.ram|) && Separate(EntropySource(stream), bs)
    requires i < k <= |bs| && Writable(bs[i])
    ensures HoldsStream(ServeBuffers(EntropySource(stream), st, bs, k).ram, bs[i], stream,
                        st.pos + WritableWords(bs, i))
    decreases k
  {
    hide ServeBuffer, Blit, StreamBytes;
    var mid := ServeBuffers(EntropySource(stream), st, bs, k - 1);
    if k == i + 1 {
      ReportedLength(stream, st, bs, i);
      FillsItself(stream, mid, bs[i]);
    } else {
      BuffersHoldStream(stream, st, bs, i, k - 1);
      SparesOthers(stream, mid, bs[k - 1], bs[i], st.pos + WritableWords(bs, i));
    }
  }

  lemma FillsItself(stream: nat -> u32, st: DevState, b: Buffer)
    requires Fits(EntropySource(stream), b, |st.ram|) && Writable(b)
    ensures HoldsStream(ServeBuffer(EntropySource(stream), st, b).ram, b, stream, st.pos)
  {
    BlitAt(st.ram, b.data, StreamBytes(stream, st.pos, b.length / 4));
  }

  lemma SparesOthers(stream: nat -> u32, st: DevState, b: Buffer, other: Buffer, from: nat)
    requires Fits(EntropySource(stream), b, |st.ram|) && Fits(EntropySource(stream), other, |st.ram|) && Writable(other)
    requires Writable(b) ==> DisjointBuffers(EntropySource(stream), other, b)
    requires HoldsStream(st.ram, other, stream, from)
    ensures HoldsStream(ServeBuffer(EntropySource(stream), st, b).ram, other, stream, from)
  {
    if Writable(b) {
      BlitElsewhere(st.ram, b.data, StreamBytes(stream, st.pos, b.length / 4),
                    other.data, other.data + 4 * (other.length / 4));
    }
  }

  /** From the queue's point of view: every used entry of a drained backlog carries its job's writable total. */
  lemma UsedLengths(stream: nat -> u32, g: Guest, s0: Side, s: Side, i: nat)
    requires ServedAll(EntropySource(stream), g, s0, s) && i < Backlog(s0.q, g.last)
    ensures var head, slot := Pending(g, s0)[i], Slots(s0.q.usedIdx, Size(s0.q), Backlog(s0.q, g.last))[i];
            && Terminates(g.table, Size(s0.q), head) && |s.ring| == |s0.ring|
            && var bs := JobBuffers(g.table, Size(s0.q), head);
               s.ring[slot] == UsedElem(head, WritableLength(bs, |bs|) % 0x1_0000_0000)
  {
    hide And, Wrap, Heads, Placed, ServeBuffers, ServeBuffer, StateAfter, EntriesAfter, Terminates, JobBuffers, AllFit;
    var dev := EntropySource(stream);
    EntryOf(dev, g, s0, s, i);
    var st, bs := StateAfter(dev, g, s0, i), JobBuffers(g.table, Size(s0.q), Pending(g, s0)[i]);
    ReportedLength(stream, st.(written := 0), bs, |bs|);
  }

  /** The words of the generator drawn by the first k jobs of a backlog. */
  ghost function WordsDrawn(stream: nat -> u32, g: Guest, s: Side, k: nat): nat
    requires RingOk(g, s) && BacklogFits(EntropySource(stream), g, s) && k <= Backlog(s.q, g.last)
    decreases k
  {
    if k == 0 then 0
    else
      var bs := JobAt(EntropySource(stream), g, s, k - 1);
      WordsDrawn(stream, g, s, k - 1) + WritableWords(bs, |bs|)
  }

  lemma {:induction false} DrawnSoFar(stream: nat -> u32, g: Guest, s: Side, k: nat)
    requires RingOk(g, s) && BacklogFits(EntropySource(stream), g, s) && k <= Backlog(s.q, g.last)
    ensures StateAfter(EntropySource(stream), g, s, k).pos == s.st.pos + WordsDrawn(stream, g, s, k)
    decreases k
  {
    hide And, Heads, Backlog, PowerSized, JobBuffers, Terminates, ServeBuffers, AllFit;
    if k > 0 {
      DrawnSoFar(stream, g, s, k - 1);
      var bs := JobAt(EntropySource(stream), g, s, k - 1);
      ReportedLength(stream, StateAfter(EntropySource(stream), g, s, k - 1).(written := 0), bs, |bs|);
    }
  }

  /**
   * A drained backlog whose jobs keep apart leaves in every writable buffer of every job its own stretch of
   * the generator's output, no word being handed out twice.
   */
  lemma BacklogHoldsStream(stream: nat -> u32, g: Guest, s0: Side, s: Side, i: nat, m: nat)
    requires ServedAll(EntropySource(stream), g, s0, s) && JobsApart(EntropySource(stream), g, s0)
    requires i < Backlog(s0.q, g.last)
    requires var bs := JobAt(EntropySource(stream), g, s0, i);
             Separate(EntropySource(stream), bs) && m < |bs| && Writable(bs[m])
    ensures var bs := JobAt(EntropySource(stream), g, s0, i);
            && bs[m].data + bs[m].length <= |s.st.ram|
            && HoldsStream(s.st.ram, bs[m], stream, s0.st.pos + WordsDrawn(stream, g, s0, i) + WritableWords(bs, m))
  {
    hide And, Wrap, Heads, Placed, Backlog, PowerSized, JobBuffers, Terminates, ServeBuffers, JobsApart, StreamBytes;
    var dev := EntropySource(stream);
    var bs, st := JobAt(dev, g, s0, i), StateAfter(dev, g, s0, i).(written := 0);
    DrawnSoFar(stream, g, s0, i);
    BuffersHoldStream(stream, st, bs, m, |bs|);
    var mid, b := StateAfter(dev, g, s0, i + 1).ram, bs[m];
    forall x | b.data <= x < b.data + b.length
      ensures s.st.ram[x] == mid[x]
    {
      Undisturbed(dev, g, s0, i, b, x);
    }
    assert s.st.ram[b.data..b.data + 4 * (b.length / 4)] == mid[b.data..b.data + 4 * (b.length / 4)];
  }

  // ---------- the device ----------

  /** The generator's output register: successive reads give successive words of an arbitrary stream. */
  class Prng {
    const stream: nat -> u32
    var drawn: nat

    constructor (s: nat -> u32)
      ensures stream == s && drawn == 0
    {
      stream, drawn := s, 0;
    }

    method Hot() returns (w: u32)
      modifies this
      ensures w == stream(old(drawn)) && drawn == old(drawn) + 1
    {
      w := stream(drawn);
      drawn := drawn + 1;
    }
  }

  lemma FillStep(before: seq<u8>, a: nat, stream: nat -> u32, from: nat, i: nat)
    requires a + 4 * i + 4 <= |before|
    ensures Blit(Blit(before, a, StreamBytes(stream, from, i)), a + 4 * i, WordBytes(stream(from + i))) ==
            Blit(before, a, StreamBytes(stream, from, i + 1))
  {
    BlitAppend(before, a, StreamBytes(stream, from, i), WordBytes(stream(from + i)));
  }

  method FillBuffer(ram: array<u8>, prng: Prng, b: Buffer)
    requires b.data + b.length <= ram.Length
    modifies ram, prng
    ensures ram[..] == Blit(old(ram[..]), b.data, StreamBytes(prng.stream, old(prng.drawn), b.length / 4))
    ensures prng.drawn == old(prng.drawn) + b.length / 4
  {
    ghost var before, from := ram[..], prng.drawn;
    var i := 0;
    while i < b.length / 4
      invariant i <= b.length / 4 && prng.drawn == from + i
      invariant ram[..] == Blit(before, b.data, StreamBytes(prng.stream, from, i))
    {
      var w := prng.Hot();
      StoreWord(ram, b.data + 4 * i, w);
      FillStep(before, b.data, prng.stream, from, i);
      i := i + 1;
    }
  }

  /** One turn of the do-while body; a device-readable buffer is stepped over. */
  method ServeDesc(vq: VirtQueue, job: VirtJob, mem: GuestMemory, prng: Prng)
    requires vq.qDesc in mem.descAt && vq.sizeMask < |mem.descAt[vq.qDesc].entries| && job.currentDesc <= vq.sizeMask
    requires Fits(EntropySource(prng.stream), BufferOf(mem.descAt[vq.qDesc].entries[job.currentDesc]), mem.ram.Length)
    modifies job`totalWritten, mem.ram, prng
    ensures DevState(mem.ram[..], prng.drawn, 0, job.totalWritten) ==
            ServeBuffer(EntropySource(prng.stream),
                        DevState(old(mem.ram[..]), old(prng.drawn), 0, old(job.totalWritten)),
                        BufferOf(mem.descAt[vq.qDesc].entries[job.currentDesc]))
  {
    hide And, Blit, StreamBytes;
    var desc := vq.GetDesc(mem, job.currentDesc);
    if desc.buf.dir == HostToVdev {
      return;
    }
    FillBuffer(mem.ram, prng, desc.buf);
    job.AddWritten(desc.buf.length);
  }

  /** The do-while loop over one chain. */
  method ServeChain(vq: VirtQueue, job: VirtJob, mem: GuestMemory, prng: Prng)
    requires vq.qDesc in mem.descAt && vq.sizeMask < |mem.descAt[vq.qDesc].entries| && job.totalWritten == 0
    requires JobFits(EntropySource(prng.stream), mem.descAt[vq.qDesc].entries, vq.sizeMask + 1, job.currentDesc,
                     mem.ram.Length)
    modifies job`currentDesc, job`totalWritten, mem.ram, prng
    ensures DevState(mem.ram[..], prng.drawn, 0, job.totalWritten) ==
            ServeHead(EntropySource(prng.stream), mem.descAt[vq.qDesc].entries, vq.sizeMask + 1,
                      DevState(old(mem.ram[..]), old(prng.drawn), 0, 0), old(job.currentDesc))
  {
    hide And, ServeBuffer, Fits;
    ghost var table, size := mem.descAt[vq.qDesc].entries, vq.sizeMask + 1;
    ghost var c := ChainOf(table, size, job.currentDesc);
    ghost var bs := JobBuffers(table, size, job.currentDesc);
    ghost var st := DevState(mem.ram[..], prng.drawn, 0, 0);
    ghost var k := 0;
    while true
      invariant 0 <= k < |c| && job.currentDesc == c[k]
      invariant DevState(mem.ram[..], prng.drawn, 0, job.totalWritten) ==
                ServeBuffers(EntropySource(prng.stream), st, bs, k)
      decreases |c| - k
    {
      ServeDesc(vq, job, mem, prng);
      ChainStep(table, size, c, k);
      var next := FetchJobNext(vq, job, mem);
      k := k + 1;
      if next < 0 {
        break;
      }
    }
  }

  /** One round of the outer loop: fetch a job, walk its chain and return it; false when there is none. */
  method ServeJob(vq: VirtQueue, job: VirtJob, mem: GuestMemory, prng: Prng) returns (more: bool)
    requires Mapped(vq.Regs(), mem) && RingOk(GuestOf(vq.Regs(), mem), SideOf(vq.Regs(), mem, prng.drawn, 0))
    requires NextFits(EntropySource(prng.stream), GuestOf(vq.Regs(), mem), SideOf(vq.Regs(), mem, prng.drawn, 0))
    modifies job, mem.ram, prng, vq`availIdx, vq`usedIdx, mem.usedAt[vq.qUsed]
    ensures more == (FetchIndex(old(vq.Regs()), mem.availAt[vq.qAvail].last) >= 0)
    ensures SideOf(vq.Regs(), mem, prng.drawn, 0) ==
            ServeNext(EntropySource(prng.stream), GuestOf(vq.Regs(), mem), old(SideOf(vq.Regs(), mem, prng.drawn, 0)))
  {
    hide And, ServeHead, Terminates, JobBuffers;
    var first := FetchJobNew(vq, job, mem);
    if first < 0 {
      return false;
    }
    ServeChain(vq, job, mem, prng);
    PushJob(vq, job, mem);
    return true;
  }

  /** The outer while loop: it ends after exactly the pending heads, each served once and in order. */
  method DrainBacklog(vq: VirtQueue, mem: GuestMemory, prng: Prng)
    requires vq.ready != 0 && Serviceable(EntropySource(prng.stream), vq.Regs(), mem, prng.drawn, 0)
    modifies vq`availIdx, vq`usedIdx, mem.usedAt[vq.qUsed], mem.ram, prng
    ensures Mapped(vq.Regs(), mem)
    ensures ServedAll(EntropySource(prng.stream), GuestOf(vq.Regs(), mem), old(SideOf(vq.Regs(), mem, prng.drawn, 0)),
                      SideOf(vq.Regs(), mem, prng.drawn, 0))
  {
    hide And, FetchIndex, PowerSized, RingOk, BacklogFits, NextFits, ServeNext, Reached;
    var job := new VirtJob();
    ghost var dev, g, s0 := EntropySource(prng.stream), GuestOf(vq.Regs(), mem), SideOf(vq.Regs(), mem, prng.drawn, 0);
    ghost var n, k := Backlog(s0.q, g.last), 0;
    ReachedStart(dev, g, s0);
    var more := true;
    while more
      invariant Mapped(vq.Regs(), mem) && GuestOf(vq.Regs(), mem) == g
      invariant Reached(dev, g, s0, k, SideOf(vq.Regs(), mem, prng.drawn, 0))
      invariant k <= n && (!more ==> k == n)
      decreases n - k, more
    {
      ghost var s := SideOf(vq.Regs(), mem, prng.drawn, 0);
      ReachedReady(dev, g, s0, k, s);
      more := ServeJob(vq, job, mem, prng);
      if more {
        ReachedNext(dev, g, s0, k, s);
        k := k + 1;
      } else {
        NothingLeft(dev, g, s);
      }
    }
  }

  /** hwrngProcessQueue: drain the backlog, then notify the guest once. */
  method ProcessQueue(vq: VirtQueue, mem: GuestMemory, prng: Prng, irq: VirtIrq, devId: nat)
    requires irq.Valid() && Serviceable(EntropySource(prng.stream), vq.Regs(), mem, prng.drawn, 0)
    modifies vq`availIdx, vq`usedIdx, UsedObjects(vq.Regs(), mem), mem.ram, prng, irq, irq.pendingVirq
    ensures irq.Valid() && irq.model == SyncVirq(SetVirq(old(irq.model), devId, VIRQ_VQUEUE))
    ensures vq.ready == 0 ==>
              vq.Regs() == old(vq.Regs()) && mem.ram[..] == old(mem.ram[..]) && prng.drawn == old(prng.drawn)
    ensures vq.ready != 0 ==>
              && Mapped(vq.Regs(), mem)
              && ServedAll(EntropySource(prng.stream), GuestOf(vq.Regs(), mem),
                           old(SideOf(vq.Regs(), mem, prng.drawn, 0)),
                           SideOf(vq.Regs(), mem, prng.drawn, 0))
  {
    hide And, Wrap, Heads, JobFits, ServeHead, AdvanceAvail, AdvanceUsed, PushIndex;
    if vq.ready != 0 {
      DrainBacklog(vq, mem, prng);
    } else {
      var job := new VirtJob();
      var first := FetchJobNew(vq, job, mem);
    }
    var was := irq.Set(devId, VIRQ_VQUEUE);
    irq.Sync();
  }
}
