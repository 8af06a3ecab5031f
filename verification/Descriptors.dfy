/**
 * What a drain does, told in the guest's own terms: descriptors in its table, bytes in its memory, entries in its
 * used ring.
 */
module Descriptors {
  import opened Bits
  import opened QueueRegs
  import opened Chains
  import opened Buffers
  import opened DeviceJobs
  import opened Drain
  import E = Entropy
  import B = BlockDevice

  /** Only the low half of a descriptor's address counts. */
  function Address(d: Desc): u32 {
    d.addr % 0x1_0000_0000
  }

  /** Sector numbers have 32 bits. */
  function SectorNumber(n: nat): u32 {
    n % 0x1_0000_0000
  }

  /** The i-th head that the guest has published and the device not yet fetched. */
  ghost function HeadOf(g: Guest, s: Side, i: nat): u16
    requires RingOk(g, s)
  {
    g.avail[(s.q.availIdx + i) % Size(s.q)]
  }

  /** The used slot that the i-th of their entries goes to. */
  function SlotOf(s: Side, i: nat): nat {
    (s.q.usedIdx + i) % Size(s.q)
  }

  lemma HeadIs(g: Guest, s: Side, i: nat)
    requires RingOk(g, s) && i < Backlog(s.q, g.last)
    ensures Pending(g, s)[i] == HeadOf(g, s, i)
  {
    hide PowerSized, Backlog, Heads, Slots;
    HeadSlot(g.avail, s.q.availIdx, Size(s.q), Backlog(s.q, g.last), i);
    SlotIsRemainder(s.q.availIdx, Size(s.q), Backlog(s.q, g.last), i);
  }

  /** c is the chain of descriptors of the i-th pending job. */
  ghost predicate IsJob(g: Guest, s: Side, i: nat, c: seq<u16>)
    requires RingOk(g, s)
  {
    Linked(g.table, Size(s.q), c) && c[0] == HeadOf(g, s, i)
  }

  /** The buffers the device serves are those descriptors, in that order. */
  lemma JobIs(dev: Device, g: Guest, s: Side, i: nat, c: seq<u16>)
    requires RingOk(g, s) && BacklogFits(dev, g, s) && i < Backlog(s.q, g.last) && IsJob(g, s, i, c)
    ensures |JobAt(dev, g, s, i)| == |c|
    ensures forall m :: 0 <= m < |c| ==>
              var b, d := JobAt(dev, g, s, i)[m], g.table[c[m]];
              b.data == Address(d) && b.length == d.len && (Writable(b) <==> Bit(d.flags, 1))
  {
    hide And, Bit, PowerSized, AllFit, HeadOf, Heads;
    var size := Size(s.q);
    HeadIs(g, s, i);
    LinkedIsChain(g.table, size, c);
    assert JobFits(dev, g.table, size, Pending(g, s)[i], |s.st.ram|);
    ChainUnique(g.table, size, c, ChainOf(g.table, size, Pending(g, s)[i]));
    forall m | 0 <= m < |c|
      ensures var b, d := JobAt(dev, g, s, i)[m], g.table[c[m]];
              b.data == Address(d) && b.length == d.len && (Writable(b) <==> Bit(d.flags, 1))
    {
      BufferIs(g.table[c[m]]);
    }
  }

  lemma JobExists(dev: Device, g: Guest, s: Side, i: nat) returns (c: seq<u16>)
    requires RingOk(g, s) && BacklogFits(dev, g, s) && i < Backlog(s.q, g.last)
    ensures IsJob(g, s, i, c)
  {
    hide And, Bit, PowerSized, AllFit, HeadOf, Heads;
    var size := Size(s.q);
    HeadIs(g, s, i);
    assert JobFits(dev, g.table, size, Pending(g, s)[i], |s.st.ram|);
    c := ChainOf(g.table, size, Pending(g, s)[i]);
    LinkedIsChain(g.table, size, c);
  }

  // ---------- what is left alone ----------

  /** Address x is in a descriptor of chain c that has flag bit 1; an empty one has its first byte for the status. */
  ghost predicate InWritable(dev: Device, table: seq<Desc>, c: seq<u16>, x: nat)
    requires forall m :: 0 <= m < |c| ==> c[m] < |table|
  {
    exists m :: 0 <= m < |c| && Bit(table[c[m]].flags, 1)
      && Address(table[c[m]]) <= x < Address(table[c[m]])
           + (if dev.BlockDisk? && table[c[m]].len == 0 then 1 else table[c[m]].len)
  }

  lemma WindowIsWritable(dev: Device, g: Guest, s: Side, i: nat, c: seq<u16>, x: nat)
    requires RingOk(g, s) && BacklogFits(dev, g, s) && i < Backlog(s.q, g.last) && IsJob(g, s, i, c)
    requires InWindow(dev, JobAt(dev, g, s, i), x)
    ensures InWritable(dev, g.table, c, x)
  {
    hide And, Bit, PowerSized, AllFit, BacklogFits, Backlog, JobAt;
    JobIs(dev, g, s, i, c);
    var bs := JobAt(dev, g, s, i);
    var m :| 0 <= m < |bs| && bs[m].data <= x < bs[m].data + Window(dev, bs[m]);
    assert Writable(bs[m]);
    assert g.table[c[m]].len == bs[m].length;
  }

  /** Over a drain no byte changes but in descriptors of the jobs served that have flag bit 1. */
  lemma OnlyWritableChange(dev: Device, g: Guest, s0: Side, s: Side, x: nat)
    requires ServedAll(dev, g, s0, s) && x < |s0.st.ram|
    requires forall i: nat, c :: i < Backlog(s0.q, g.last) && IsJob(g, s0, i, c) ==> !InWritable(dev, g.table, c, x)
    ensures |s.st.ram| == |s0.st.ram| && s.st.ram[x] == s0.st.ram[x]
  {
    hide RingOk, BacklogFits, StateAfter, JobAt, InWindow, Backlog, IsJob, InWritable, Drained, EntriesAfter;
    var n := Backlog(s0.q, g.last);
    forall i: nat | i < n
      ensures !InWindow(dev, JobAt(dev, g, s0, i), x)
    {
      var c := JobExists(dev, g, s0, i);
      if InWindow(dev, JobAt(dev, g, s0, i), x) {
        WindowIsWritable(dev, g, s0, i, c, x);
      }
    }
    JobsKeep(dev, g, s0, 0, n, x);
    NoJobs(dev, g, s0);
  }

  // ---------- what is reported ----------

  /** Total length of the first k descriptors of chain c that have flag bit 1 and at least `least` bytes. */
  ghost function LengthOf(table: seq<Desc>, c: seq<u16>, k: nat, least: nat): nat
    requires k <= |c| && forall m :: 0 <= m < |c| ==> c[m] < |table|
    decreases k
  {
    if k == 0 then 0
    else
      var d := table[c[k - 1]];
      LengthOf(table, c, k - 1, least) + if Bit(d.flags, 1) && d.len >= least then d.len else 0
  }

  /** Whole units of that many bytes in them. */
  ghost function UnitsOf(table: seq<Desc>, c: seq<u16>, k: nat, least: nat, unit: nat): nat
    requires k <= |c| && unit > 0 && forall m :: 0 <= m < |c| ==> c[m] < |table|
    decreases k
  {
    if k == 0 then 0
    else
      var d := table[c[k - 1]];
      UnitsOf(table, c, k - 1, least, unit) + if Bit(d.flags, 1) && d.len >= least then d.len / unit else 0
  }

  /** The buffers bs are the descriptors c. */
  ghost predicate Shows(table: seq<Desc>, c: seq<u16>, bs: seq<Buffer>) {
    |bs| == |c| && forall m :: 0 <= m < |c| ==>
      && c[m] < |table| && bs[m].data == Address(table[c[m]]) && bs[m].length == table[c[m]].len
      && (Writable(bs[m]) <==> Bit(table[c[m]].flags, 1))
  }

  lemma {:induction false} EntropySums(table: seq<Desc>, c: seq<u16>, bs: seq<Buffer>, k: nat)
    requires Shows(table, c, bs) && k <= |c|
    ensures E.WritableLength(bs, k) == LengthOf(table, c, k, 0)
    ensures E.WritableWords(bs, k) == UnitsOf(table, c, k, 0, 4)
    decreases k
  {
    hide Bit;
    if k > 0 { EntropySums(table, c, bs, k - 1); }
  }

  lemma {:induction false} BlockSums(table: seq<Desc>, c: seq<u16>, bs: seq<Buffer>, k: nat)
    requires Shows(table, c, bs) && k <= |c|
    ensures B.BytesReported(bs, k) == LengthOf(table, c, k, 512)
    ensures B.SectorsIn(bs, k) == UnitsOf(table, c, k, 512, 512)
    decreases k
  {
    hide Bit;
    if k > 0 { BlockSums(table, c, bs, k - 1); }
  }

  lemma JobShows(dev: Device, g: Guest, s: Side, i: nat, c: seq<u16>)
    requires RingOk(g, s) && BacklogFits(dev, g, s) && i < Backlog(s.q, g.last) && IsJob(g, s, i, c)
    ensures Shows(g.table, c, JobAt(dev, g, s, i))
  {
    hide BacklogFits, Backlog, JobAt, Bit, PowerSized;
    JobIs(dev, g, s, i, c);
  }

  /** The i-th entry stands in its slot and carries what serving the job's buffers came to. */
  lemma EntryAt(dev: Device, g: Guest, s0: Side, s: Side, i: nat)
    requires ServedAll(dev, g, s0, s) && i < Backlog(s0.q, g.last)
    ensures |s.ring| == |s0.ring| && SlotOf(s0, i) < |s.ring|
    ensures var bs := JobAt(dev, g, s0, i);
            s.ring[SlotOf(s0, i)] ==
            UsedElem(HeadOf(g, s0, i), ServeBuffers(dev, StateAfter(dev, g, s0, i).(written := 0), bs, |bs|).written)
  {
    hide And, PowerSized, AllFit, BacklogFits, Backlog, StateAfter, EntriesAfter, Drained, HeadOf, ServeBuffers, Slots;
    EntryOf(dev, g, s0, s, i);
    HeadIs(g, s0, i);
    SlotIs(s0, Backlog(s0.q, g.last), i);
    JobAtIs(dev, g, s0, i);
  }

  lemma SlotIs(s: Side, n: nat, i: nat)
    requires i < n
    ensures Slots(s.q.usedIdx, Size(s.q), n)[i] == SlotOf(s, i)
  {
    hide Slots;
    SlotIsRemainder(s.q.usedIdx, Size(s.q), n, i);
  }

  /**
   * Every entry of a drain of the entropy device stands in the next used slot, names its head and carries the
   * total length of the job's descriptors that have flag bit 1.
   */
  lemma EntropyEntry(stream: nat -> u32, g: Guest, s0: Side, s: Side, i: nat, c: seq<u16>)
    requires ServedAll(EntropySource(stream), g, s0, s) && i < Backlog(s0.q, g.last) && IsJob(g, s0, i, c)
    ensures |s.ring| == |s0.ring| && SlotOf(s0, i) < |s.ring|
    ensures s.ring[SlotOf(s0, i)] == UsedElem(HeadOf(g, s0, i), LengthOf(g.table, c, |c|, 0) % 0x1_0000_0000)
  {
    hide And, Bit, PowerSized, BacklogFits, Backlog, JobAt, StateAfter, EntriesAfter, Drained, ServeBuffers;
    hide SlotOf, HeadOf, LengthOf, E.WritableLength, Shows;
    var dev := EntropySource(stream);
    EntryAt(dev, g, s0, s, i);
    JobShows(dev, g, s0, i, c);
    var bs := JobAt(dev, g, s0, i);
    ShowsLength(g.table, c, bs);
    EntropySums(g.table, c, bs, |c|);
    E.ReportedLength(stream, StateAfter(dev, g, s0, i).(written := 0), bs, |bs|);
  }

  lemma JobAtIs(dev: Device, g: Guest, s: Side, i: nat)
    requires RingOk(g, s) && BacklogFits(dev, g, s) && i < Backlog(s.q, g.last)
    ensures Terminates(g.table, Size(s.q), Pending(g, s)[i])
    ensures JobAt(dev, g, s, i) == JobBuffers(g.table, Size(s.q), Pending(g, s)[i])
  {
    hide And, PowerSized, AllFit, Heads;
    assert JobFits(dev, g.table, Size(s.q), Pending(g, s)[i], |s.st.ram|);
  }

  // ---------- what the generator's words fill ----------

  /** Words of the generator that the first i jobs take. */
  ghost function DrawnBefore(g: Guest, s: Side, i: nat): nat
    requires RingOk(g, s)
    decreases i
  {
    if i == 0 then 0
    else
      DrawnBefore(g, s, i - 1) + WordsOf(g, s, i - 1)
  }

  ghost function WordsOf(g: Guest, s: Side, i: nat): nat
    requires RingOk(g, s)
  {
    if exists c :: IsJob(g, s, i, c) then
      var c :| IsJob(g, s, i, c); UnitsOf(g.table, c, |c|, 0, 4)
    else 0
  }

  lemma {:induction false} DrawnIs(stream: nat -> u32, g: Guest, s: Side, i: nat)
    requires RingOk(g, s) && BacklogFits(EntropySource(stream), g, s) && i <= Backlog(s.q, g.last)
    ensures E.WordsDrawn(stream, g, s, i) == DrawnBefore(g, s, i)
    decreases i
  {
    hide And, Bit, PowerSized, AllFit, BacklogFits, Backlog, JobAt, RingOk, IsJob, Linked, Shows;
    if i > 0 {
      DrawnIs(stream, g, s, i - 1);
      var c0 := JobExists(EntropySource(stream), g, s, i - 1);
      forall c | IsJob(g, s, i - 1, c)
        ensures var bs := JobAt(EntropySource(stream), g, s, i - 1);
                |c| == |bs| && (forall m :: 0 <= m < |c| ==> c[m] < |g.table|)
                && UnitsOf(g.table, c, |c|, 0, 4) == E.WritableWords(bs, |bs|)
      {
        JobShows(EntropySource(stream), g, s, i - 1, c);
        ShowsLength(g.table, c, JobAt(EntropySource(stream), g, s, i - 1));
        EntropySums(g.table, c, JobAt(EntropySource(stream), g, s, i - 1), |c|);
      }
    }
  }

  lemma ShowsLength(table: seq<Desc>, c: seq<u16>, bs: seq<Buffer>)
    requires Shows(table, c, bs)
    ensures |bs| == |c| && forall m :: 0 <= m < |c| ==> c[m] < |table|
  {
    hide Bit;
  }

  /** No descriptor of one job with flag bit 1 overlaps another job's, nor another of its own. */
  ghost predicate KeepApart(dev: Device, g: Guest, s: Side)
    requires RingOk(g, s) && BacklogFits(dev, g, s)
  {
    && JobsApart(dev, g, s)
    && forall i: nat :: i < Backlog(s.q, g.last) ==> Separate(dev, JobAt(dev, g, s, i))
  }

  /**
   * When the drain is over, byte j of word w of the m-th descriptor of the i-th job, if that has flag bit 1, is
   * byte j of the generator's word that comes after those of the jobs and descriptors before it.
   */
  lemma EntropyByte(stream: nat -> u32, g: Guest, s0: Side, s: Side, i: nat, c: seq<u16>, m: nat, w: nat, j: nat)
    requires ServedAll(EntropySource(stream), g, s0, s) && KeepApart(EntropySource(stream), g, s0)
    requires i < Backlog(s0.q, g.last) && IsJob(g, s0, i, c)
    requires m < |c| && Bit(g.table[c[m]].flags, 1) && w < g.table[c[m]].len / 4 && j < 4
    ensures var a, first := Address(g.table[c[m]]),
                            s0.st.pos + DrawnBefore(g, s0, i) + UnitsOf(g.table, c, m, 0, 4);
            a + 4 * w + j < |s.st.ram| && s.st.ram[a + 4 * w + j] == ByteOf(stream(first + w), j)
  {
    hide And, Bit, PowerSized, AllFit, BacklogFits, Backlog, JobAt, StateAfter, EntriesAfter, Drained, JobsApart;
    hide StreamBytes, Separate, E.WordsDrawn, E.WritableWords, DrawnBefore, UnitsOf, ByteOf;
    var dev := EntropySource(stream);
    var bs := JobAt(dev, g, s0, i);
    JobShows(dev, g, s0, i, c);
    EntropySums(g.table, c, bs, m);
    DrawnIs(stream, g, s0, i);
    E.BacklogHoldsStream(stream, g, s0, s, i, m);
    var from := s0.st.pos + E.WordsDrawn(stream, g, s0, i) + E.WritableWords(bs, m);
    StreamBytesAre(stream, from, bs[m].length / 4, w, j);
    HeldAt(s.st.ram, bs[m], stream, from, w, j);
  }

  lemma HeldAt(ram: seq<u8>, b: Buffer, stream: nat -> u32, from: nat, w: nat, j: nat)
    requires b.data + b.length <= |ram| && E.HoldsStream(ram, b, stream, from) && w < b.length / 4 && j < 4
    ensures ram[b.data + 4 * w + j] == StreamBytes(stream, from, b.length / 4)[4 * w + j]
  {
    hide StreamBytes;
    var part := ram[b.data..b.data + 4 * (b.length / 4)];
    assert part[4 * w + j] == ram[b.data + 4 * w + j];
  }

  // ---------- what the disk's sectors fill ----------

  /** A block request: a header, segments of a sector or more, a shorter descriptor for the status. */
  ghost predicate IsReadRequest(table: seq<Desc>, c: seq<u16>)
    requires forall m :: 0 <= m < |c| ==> c[m] < |table|
  {
    && |c| >= 2 && !Bit(table[c[0]].flags, 1)
    && (forall m :: 1 <= m < |c| - 1 ==> Bit(table[c[m]].flags, 1) && table[c[m]].len >= 512)
    && Bit(table[c[|c| - 1]].flags, 1) && table[c[|c| - 1]].len < 512
  }

  /** The four bytes at offset 8 of the header are those of sector number n. */
  ghost predicate HeaderSays(ram: seq<u8>, header: Desc, n: u32) {
    var a := Address(header);
    a + 16 <= |ram| && forall j :: 0 <= j < 4 ==> ram[a + 8 + j] == ByteOf(n, j)
  }

  lemma RequestShows(disk: nat -> Sector, moves: nat -> nat, st: DevState, table: seq<Desc>, c: seq<u16>,
                     bs: seq<Buffer>)
    requires Shows(table, c, bs) && (forall m :: 0 <= m < |c| ==> c[m] < |table|) && IsReadRequest(table, c)
    requires AllFit(BlockDisk(disk, moves), bs, |st.ram|) && Separate(BlockDisk(disk, moves), bs)
    ensures B.RequestFits(disk, moves, st, bs)
  {
    hide Bit;
  }

  /**
   * Every entry of a drain of the block device stands in the next used slot, names its head and carries the total
   * length of the job's descriptors of 512 bytes and more that have flag bit 1.
   */
  lemma BlockEntry(disk: nat -> Sector, moves: nat -> nat, g: Guest, s0: Side, s: Side, i: nat, c: seq<u16>)
    requires ServedAll(BlockDisk(disk, moves), g, s0, s) && i < Backlog(s0.q, g.last) && IsJob(g, s0, i, c)
    ensures |s.ring| == |s0.ring| && SlotOf(s0, i) < |s.ring|
    ensures s.ring[SlotOf(s0, i)] == UsedElem(HeadOf(g, s0, i), LengthOf(g.table, c, |c|, 512) % 0x1_0000_0000)
  {
    hide And, Bit, PowerSized, BacklogFits, Backlog, JobAt, StateAfter, EntriesAfter, Drained, ServeBuffers;
    hide SlotOf, HeadOf, LengthOf, B.BytesReported, Shows;
    var dev := BlockDisk(disk, moves);
    EntryAt(dev, g, s0, s, i);
    JobShows(dev, g, s0, i, c);
    var bs := JobAt(dev, g, s0, i);
    ShowsLength(g.table, c, bs);
    BlockSums(g.table, c, bs, |c|);
    B.ReportedLength(disk, moves, StateAfter(dev, g, s0, i).(written := 0), bs, |bs|);
  }

  /**
   * When the drain is over, byte j of sector t of the m-th descriptor of the i-th job, a read request whose header
   * named sector n and whose reads were complete, is byte j of the sector that is as many after n as the segments
   * before it hold, modulo 2^32; and its status byte is 0.
   */
  lemma BlockByte(disk: nat -> Sector, moves: nat -> nat, g: Guest, s0: Side, s: Side, i: nat, c: seq<u16>, n: u32,
                  m: nat, t: nat, j: nat)
    requires ServedAll(BlockDisk(disk, moves), g, s0, s) && KeepApart(BlockDisk(disk, moves), g, s0)
    requires i < Backlog(s0.q, g.last) && IsJob(g, s0, i, c) && IsReadRequest(g.table, c)
    requires HeaderSays(s0.st.ram, g.table[c[0]], n)
    requires var dev := BlockDisk(disk, moves);
             B.Complete(dev, JobAt(dev, g, s0, i), s0.st.asked + AskedBefore(dev, g, s0, i))
    requires 1 <= m < |c| - 1 && t < g.table[c[m]].len / 512 && j < 512
    ensures var a := Address(g.table[c[m]]);
            && a + 512 * t + j < |s.st.ram|
            && s.st.ram[a + 512 * t + j] == disk(SectorNumber(n + UnitsOf(g.table, c, m, 512, 512) + t))[j]
    ensures var status := Address(g.table[c[|c| - 1]]);
            status < |s.st.ram| && s.st.ram[status] == 0
  {
    hide And, Bit, RingOk, BacklogFits, Backlog, JobAt, Reached, KeepApart, LoadWord, SectorBytes, Shows, HeaderSays;
    hide B.Gathered, B.SectorsIn, B.Complete, B.IsData, UnitsOf, ByteOf, AskedBefore, B.RequestFits, IsReadRequest;
    hide Address, SectorNumber;
    var dev := BlockDisk(disk, moves);
    var bs := JobAt(dev, g, s0, i);
    JobShows(dev, g, s0, i, c);
    ShowsLength(g.table, c, bs);
    ApartFits(dev, g, s0, i);
    RequestShows(disk, moves, s0.st, g.table, c, bs);
    HeaderLoads(s0.st.ram, g.table, c, bs, n);
    RequestDone(disk, moves, g, s0, s, i, bs, n);
    BlockSums(g.table, c, bs, m);
    SegmentShape(disk, moves, s0.st, bs, g.table, c, m);
    SegmentShape(disk, moves, s0.st, bs, g.table, c, |c| - 1);
    SectorAt(disk, s.st.ram, bs, |bs| - 1, n, m, t, j);
  }

  lemma ApartFits(dev: Device, g: Guest, s: Side, i: nat)
    requires RingOk(g, s) && BacklogFits(dev, g, s) && i < Backlog(s.q, g.last) && KeepApart(dev, g, s)
    ensures JobsApart(dev, g, s) && Separate(dev, JobAt(dev, g, s, i)) && AllFit(dev, JobAt(dev, g, s, i), |s.st.ram|)
  {
    hide BacklogFits, RingOk, Backlog, JobsApart, Separate;
  }

  lemma HeaderLoads(ram: seq<u8>, table: seq<Desc>, c: seq<u16>, bs: seq<Buffer>, n: u32)
    requires Shows(table, c, bs) && 0 < |c| && c[0] < |table| && HeaderSays(ram, table[c[0]], n)
    ensures bs[0].data + 16 <= |ram| && LoadWord(ram, bs[0].data + 8) == n
  {
    hide ByteOf, LoadWord, Bit;
    LoadWordIs(ram, bs[0].data + 8, n);
  }

  lemma SegmentShape(disk: nat -> Sector, moves: nat -> nat, st: DevState, bs: seq<Buffer>, table: seq<Desc>,
                     c: seq<u16>, m: nat)
    requires Shows(table, c, bs) && B.RequestFits(disk, moves, st, bs) && m < |bs| && c[m] < |table|
    ensures bs[m].data == Address(table[c[m]]) && bs[m].length == table[c[m]].len
    ensures forall i :: 1 <= i < |bs| - 1 ==> B.IsData(bs[i]) && bs[i].data + bs[i].length <= |st.ram|
    ensures !B.IsData(bs[0])
  {
    hide Bit, Separate;
  }

  /** A complete read request as the drain leaves it. */
  lemma RequestDone(disk: nat -> Sector, moves: nat -> nat, g: Guest, s0: Side, s: Side, i: nat, bs: seq<Buffer>,
                    n: u32)
    requires ServedAll(BlockDisk(disk, moves), g, s0, s) && JobsApart(BlockDisk(disk, moves), g, s0)
    requires i < Backlog(s0.q, g.last) && bs == JobAt(BlockDisk(disk, moves), g, s0, i)
    requires B.RequestFits(disk, moves, s0.st, bs) && LoadWord(s0.st.ram, bs[0].data + 8) == n
    requires var dev := BlockDisk(disk, moves); B.Complete(dev, bs, s0.st.asked + AskedBefore(dev, g, s0, i))
    ensures |s.st.ram| == |s0.st.ram| && |bs| >= 2 && bs[|bs| - 1].data < |s.st.ram| && s.st.ram[bs[|bs| - 1].data] == 0
    ensures forall j :: 1 <= j < |bs| - 1 ==> bs[j].data + bs[j].length <= |s.st.ram|
    ensures B.Gathered(s.st.ram, bs, |bs| - 1) == SectorBytes(disk, n, B.SectorsIn(bs, |bs| - 1))
  {
    hide And, PowerSized, BacklogFits, Backlog, JobAt, StateAfter, EntriesAfter, Drained, JobsApart, LoadWord;
    hide SectorBytes, Separate, B.Gathered, B.SectorsIn, B.Complete, AskedBefore;
    B.BacklogRead(disk, moves, g, s0, s, i);
  }

  /** One byte out of the segments put together. */
  lemma {:induction false} SectorAt(disk: nat -> Sector, ram: seq<u8>, bs: seq<Buffer>, k: nat, n: nat,
                                    m: nat, t: nat, j: nat)
    requires 1 <= m < k < |bs| && t < bs[m].length / 512 && j < 512
    requires forall i :: 1 <= i < k ==> bs[i].data + bs[i].length <= |ram|
    requires (forall i :: 1 <= i < k ==> B.IsData(bs[i])) && !B.IsData(bs[0])
    requires B.Gathered(ram, bs, k) == SectorBytes(disk, n, B.SectorsIn(bs, k))
    ensures bs[m].data + 512 * t + j < |ram|
    ensures ram[bs[m].data + 512 * t + j] == disk(SectorNumber(n + B.SectorsIn(bs, m) + t))[j]
    decreases k
  {
    hide SectorBytes, B.IsData, B.Gathered, B.SectorsIn;
    LastSegment(disk, ram, bs, k, n);
    if m == k - 1 {
      SectorBytesAre(disk, n + B.SectorsIn(bs, m), bs[m].length / 512, t, j);
      InSegment(ram, bs[m], t, j);
    } else {
      SectorAt(disk, ram, bs, k - 1, n, m, t, j);
    }
  }

  lemma InSegment(ram: seq<u8>, b: Buffer, t: nat, j: nat)
    requires b.data + b.length <= |ram| && t < b.length / 512 && j < 512
    ensures 512 * t + j < B.Cut(b) && b.data + 512 * t + j < |ram|
    ensures ram[b.data..b.data + B.Cut(b)][512 * t + j] == ram[b.data + 512 * t + j]
  {
    assert 512 * t + j < 512 * (b.length / 512);
  }

  /** The last segment and those before it hold their shares. */
  lemma LastSegment(disk: nat -> Sector, ram: seq<u8>, bs: seq<Buffer>, k: nat, n: nat)
    requires 1 < k < |bs| && forall i :: 1 <= i < k ==> bs[i].data + bs[i].length <= |ram|
    requires (forall i :: 1 <= i < k ==> B.IsData(bs[i])) && !B.IsData(bs[0])
    requires B.Gathered(ram, bs, k) == SectorBytes(disk, n, B.SectorsIn(bs, k))
    ensures B.Gathered(ram, bs, k - 1) == SectorBytes(disk, n, B.SectorsIn(bs, k - 1))
    ensures ram[bs[k - 1].data..bs[k - 1].data + B.Cut(bs[k - 1])] ==
            SectorBytes(disk, n + B.SectorsIn(bs, k - 1), bs[k - 1].length / 512)
  {
    hide SectorBytes, B.IsData;
    var before, last := B.SectorsIn(bs, k - 1), bs[k - 1].length / 512;
    assert B.SectorsIn(bs, k) == before + last;
    SectorBytesAppend(disk, n, before, last);
    GatheredLength(ram, bs, k - 1);
    var part := ram[bs[k - 1].data..bs[k - 1].data + B.Cut(bs[k - 1])];
    assert B.Gathered(ram, bs, k) == B.Gathered(ram, bs, k - 1) + part;
    SplitEqual(B.Gathered(ram, bs, k - 1), part, SectorBytes(disk, n, before), SectorBytes(disk, n + before, last));
  }

  lemma SplitEqual<T>(a: seq<T>, b: seq<T>, c: seq<T>, d: seq<T>)
    requires a + b == c + d && |a| == |c|
    ensures a == c && b == d
  {
    assert a == (a + b)[..|a|] && c == (c + d)[..|c|];
    assert b == (a + b)[|a|..] && d == (c + d)[|c|..];
  }

  lemma {:induction false} GatheredLength(ram: seq<u8>, bs: seq<Buffer>, k: nat)
    requires 1 <= k <= |bs| && forall i :: 1 <= i < k ==> bs[i].data + bs[i].length <= |ram|
    requires (forall i :: 1 <= i < k ==> B.IsData(bs[i])) && !B.IsData(bs[0])
    ensures |B.Gathered(ram, bs, k)| == 512 * B.SectorsIn(bs, k)
    decreases k
  {
    hide B.IsData;
    if k > 1 {
      GatheredLength(ram, bs, k - 1);
    } else {
      assert B.SectorsIn(bs, 1) == B.SectorsIn(bs, 0) == 0;
    }
  }
}
