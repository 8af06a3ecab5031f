/** The block device (sdcard.c): reads gathered over the buffers of a chain, with a running sector number. */
module BlockDevice {
  import opened Bits
  import opened QueueRegs
  import opened Chains
  import opened Buffers
  import opened DeviceJobs
  import opened Drain
  import opened VirtQueues
  import opened VirtIrqs

  predicate IsData(b: Buffer) {
    Writable(b) && b.length >= 512
  }

  /** Whole sectors, and bytes reported, over the first k buffers. */
  function SectorsIn(bs: seq<Buffer>, k: nat): nat
    requires k <= |bs|
    decreases k
  {
    if k == 0 then 0 else SectorsIn(bs, k - 1) + (if IsData(bs[k - 1]) then bs[k - 1].length / 512 else 0)
  }

  function BytesReported(bs: seq<Buffer>, k: nat): nat
    requires k <= |bs|
    decreases k
  {
    if k == 0 then 0 else BytesReported(bs, k - 1) + (if IsData(bs[k - 1]) then bs[k - 1].length else 0)
  }

  /** A read request: a header the device reads, data buffers of a sector or more, a shorter one for the status. */
  ghost predicate ReadRequest(bs: seq<Buffer>) {
    && |bs| >= 2
    && !Writable(bs[0])
    && (forall i :: 1 <= i < |bs| - 1 ==> IsData(bs[i]))
    && Writable(bs[|bs| - 1]) && bs[|bs| - 1].length < 512
  }

  /** Every data buffer is a whole number of sectors long. */
  ghost predicate WholeSectors(bs: seq<Buffer>) {
    forall i :: 0 <= i < |bs| && IsData(bs[i]) ==> bs[i].length % 512 == 0
  }

  /** The length of a data buffer as far as whole sectors go. */
  function Cut(b: Buffer): (n: nat)
    ensures n <= b.length && (n == b.length <==> b.length % 512 == 0)
  {
    512 * (b.length / 512)
  }

  /** The whole sectors' worth of the data buffers up to position k, put together. */
  function Gathered(ram: seq<u8>, bs: seq<Buffer>, k: nat): seq<u8>
    requires k <= |bs| && forall i :: 1 <= i < k ==> bs[i].data + bs[i].length <= |ram|
    decreases k
  {
    if k <= 1 then [] else Gathered(ram, bs, k - 1) + ram[bs[k - 1].data..bs[k - 1].data + Cut(bs[k - 1])]
  }

  /** The data buffers up to position k in their full length, put together. */
  function Segments(ram: seq<u8>, bs: seq<Buffer>, k: nat): seq<u8>
    requires k <= |bs| && forall i :: 1 <= i < k ==> bs[i].data + bs[i].length <= |ram|
    decreases k
  {
    if k <= 1 then [] else Segments(ram, bs, k - 1) + ram[bs[k - 1].data..bs[k - 1].data + bs[k - 1].length]
  }

  /** The buffer starts with m consecutive sectors. */
  ghost predicate Holds(ram: seq<u8>, b: Buffer, disk: nat -> Sector, from: nat, m: nat)
    requires b.data + 512 * m <= |ram|
  {
    ram[b.data..b.data + 512 * m] == SectorBytes(disk, from, m)
  }

  /** The sectors that came for buffer i of a chain begun after r reads. */
  function CameFor(dev: Device, bs: seq<Buffer>, r: nat, i: nat): (m: nat)
    requires dev.BlockDisk? && i < |bs|
    ensures 512 * m <= Cut(bs[i]) && (m == bs[i].length / 512 <==> AllCame(dev, bs[i], r + ReadsBefore(dev, bs, i)))
  {
    Arrived(dev.moves, r + ReadsBefore(dev, bs, i), bs[i].length / 512)
  }

  /** All reads made for the chain were complete. */
  ghost predicate Complete(dev: Device, bs: seq<Buffer>, r: nat) {
    forall i :: 0 <= i < |bs| && IsData(bs[i]) ==> AllCame(dev, bs[i], r + ReadsBefore(dev, bs, i))
  }

  // ---------- one buffer ----------

  lemma DataStep(disk: nat -> Sector, moves: nat -> nat, st: DevState, b: Buffer)
    requires Fits(BlockDisk(disk, moves), b, |st.ram|) && IsData(b)
    ensures var r := ServeBuffer(BlockDisk(disk, moves), st, b);
            && Holds(r.ram, b, disk, st.pos, Arrived(moves, st.asked, b.length / 512))
            && r.pos == (st.pos + b.length / 512) % 0x1_0000_0000
            && r.written == (st.written + b.length) % 0x1_0000_0000
  {
    BlitAt(st.ram, b.data, SectorBytes(disk, st.pos, Arrived(moves, st.asked, b.length / 512)));
  }

  lemma HeaderStep(disk: nat -> Sector, moves: nat -> nat, st: DevState, b: Buffer)
    requires Fits(BlockDisk(disk, moves), b, |st.ram|) && !Writable(b)
    ensures ServeBuffer(BlockDisk(disk, moves), st, b) == st.(pos := LoadWord(st.ram, b.data + 8))
  {
  }

  lemma StatusStep(disk: nat -> Sector, moves: nat -> nat, st: DevState, b: Buffer)
    requires Fits(BlockDisk(disk, moves), b, |st.ram|) && Writable(b) && b.length < 512
    ensures ServeBuffer(BlockDisk(disk, moves), st, b) == st.(ram := st.ram[b.data := 0])
  {
  }

  lemma CountStep(disk: nat -> Sector, moves: nat -> nat, st: DevState, b: Buffer)
    requires Fits(BlockDisk(disk, moves), b, |st.ram|)
    ensures ServeBuffer(BlockDisk(disk, moves), st, b).written ==
            (st.written + (if IsData(b) then b.length else 0)) % 0x1_0000_0000
  {
  }

  /** Serving b leaves the contents of a data buffer apart from it alone. */
  lemma OthersKept(disk: nat -> Sector, moves: nat -> nat, st: DevState, b: Buffer, other: Buffer, from: nat, m: nat)
    requires Fits(BlockDisk(disk, moves), b, |st.ram|) && IsData(other) && other.data + other.length <= |st.ram|
    requires Writable(b) ==> DisjointBuffers(BlockDisk(disk, moves), other, b)
    requires 512 * m <= other.length && Holds(st.ram, other, disk, from, m)
    ensures Holds(ServeBuffer(BlockDisk(disk, moves), st, b).ram, other, disk, from, m)
  {
    if IsData(b) {
      BlitElsewhere(st.ram, b.data, SectorBytes(disk, st.pos, Arrived(moves, st.asked, b.length / 512)),
                    other.data, other.data + 512 * m);
    } else if Writable(b) {
      StatusStep(disk, moves, st, b);
      assert st.ram[b.data := 0][other.data..other.data + 512 * m] == st.ram[other.data..other.data + 512 * m];
    }
  }

  /**
   * In any chain at all, each data buffer ends up starting with the sectors that came for it, from the running
   * number on, whatever is served after it.
   */
  lemma {:induction false} DataBufferHolds(disk: nat -> Sector, moves: nat -> nat, st: DevState, bs: seq<Buffer>,
                                           i: nat, k: nat)
    requires AllFit(BlockDisk(disk, moves), bs, |st.ram|) && Separate(BlockDisk(disk, moves), bs)
    requires i < k <= |bs| && IsData(bs[i])
    ensures bs[i].data + bs[i].length <= |st.ram|
    ensures Holds(ServeBuffers(BlockDisk(disk, moves), st, bs, k).ram, bs[i], disk,
                  ServeBuffers(BlockDisk(disk, moves), st, bs, i).pos, CameFor(BlockDisk(disk, moves), bs, st.asked, i))
    decreases k
  {
    hide ServeBuffer, SectorBytes, Holds, LoadWord, ReadsBefore;
    var dev := BlockDisk(disk, moves);
    var mid := ServeBuffers(dev, st, bs, k - 1);
    if k == i + 1 {
      ReadsCounted(dev, st, bs, i);
      DataStep(disk, moves, mid, bs[i]);
    } else {
      DataBufferHolds(disk, moves, st, bs, i, k - 1);
      OthersKept(disk, moves, mid, bs[k - 1], bs[i], ServeBuffers(dev, st, bs, i).pos, CameFor(dev, bs, st.asked, i));
    }
  }

  // ---------- the whole request ----------

  ghost predicate RequestFits(disk: nat -> Sector, moves: nat -> nat, st: DevState, bs: seq<Buffer>) {
    ReadRequest(bs) && AllFit(BlockDisk(disk, moves), bs, |st.ram|) && Separate(BlockDisk(disk, moves), bs)
  }

  /** The four bytes at offset 8 of the header are those of n, low byte first. */
  ghost predicate HeaderNames(ram: seq<u8>, header: Buffer, n: nat) {
    header.data + 12 <= |ram| && forall j :: 0 <= j < 4 ==> ram[header.data + 8 + j] == ByteOf(n, j)
  }

  lemma HeaderNamed(ram: seq<u8>, header: Buffer)
    requires header.data + 16 <= |ram|
    ensures HeaderNames(ram, header, LoadWord(ram, header.data + 8))
  {
    hide LoadWord, ByteOf;
    LoadedBytes(ram, header.data + 8, 0);
    LoadedBytes(ram, header.data + 8, 1);
    LoadedBytes(ram, header.data + 8, 2);
    LoadedBytes(ram, header.data + 8, 3);
  }

  ghost function FirstSector(disk: nat -> Sector, moves: nat -> nat, st: DevState, bs: seq<Buffer>): nat
    requires RequestFits(disk, moves, st, bs)
  {
    LoadWord(st.ram, bs[0].data + 8)
  }

  /** The sector number runs with the data transferred, modulo 2^32. */
  lemma {:induction false} Running(disk: nat -> Sector, moves: nat -> nat, st: DevState, bs: seq<Buffer>, k: nat)
    requires RequestFits(disk, moves, st, bs) && 1 <= k < |bs|
    ensures ServeBuffers(BlockDisk(disk, moves), st, bs, k).pos ==
            (FirstSector(disk, moves, st, bs) + SectorsIn(bs, k)) % 0x1_0000_0000
    decreases k
  {
    hide ServeBuffer, SectorBytes, LoadWord, Separate;
    var mid := ServeBuffers(BlockDisk(disk, moves), st, bs, k - 1);
    if k == 1 {
      HeaderStep(disk, moves, mid, bs[0]);
      assert SectorsIn(bs, 1) == SectorsIn(bs, 0) == 0;
    } else {
      Running(disk, moves, st, bs, k - 1);
      DataStep(disk, moves, mid, bs[k - 1]);
      AddMod32(FirstSector(disk, moves, st, bs) + SectorsIn(bs, k - 1), bs[k - 1].length / 512);
    }
  }

  ghost predicate HoldsAt(ram: seq<u8>, bs: seq<Buffer>, disk: nat -> Sector, s: nat, i: nat, m: nat)
    requires i < |bs|
  {
    bs[i].data + 512 * m <= |ram| && Holds(ram, bs[i], disk, s + SectorsIn(bs, i), m)
  }

  lemma HoldsWrapped(ram: seq<u8>, b: Buffer, disk: nat -> Sector, from: nat, m: nat)
    requires b.data + 512 * m <= |ram| && Holds(ram, b, disk, from % 0x1_0000_0000, m)
    ensures Holds(ram, b, disk, from, m)
  {
    SectorBytesWrap(disk, from, m);
  }

  lemma {:induction false} GatheredSectors(disk: nat -> Sector, ram: seq<u8>, bs: seq<Buffer>, s: nat, k: nat)
    requires 1 <= k < |bs| && !IsData(bs[0])
    requires forall i :: 1 <= i < k ==> IsData(bs[i]) && bs[i].data + bs[i].length <= |ram|
    requires forall i :: 1 <= i < k ==> HoldsAt(ram, bs, disk, s, i, bs[i].length / 512)
    ensures Gathered(ram, bs, k) == SectorBytes(disk, s, SectorsIn(bs, k))
    decreases k
  {
    hide SectorBytes, IsData, Holds, Cut;
    if k == 1 {
      NoSectors(disk, s);
      assert SectorsIn(bs, 1) == SectorsIn(bs, 0) == 0;
    } else {
      assert IsData(bs[k - 1]) && HoldsAt(ram, bs, disk, s, k - 1, bs[k - 1].length / 512);
      GatheredSectors(disk, ram, bs, s, k - 1);
      OneMoreSegment(disk, ram, bs, s, k);
    }
  }

  lemma OneMoreSegment(disk: nat -> Sector, ram: seq<u8>, bs: seq<Buffer>, s: nat, k: nat)
    requires 1 < k < |bs| && IsData(bs[k - 1]) && HoldsAt(ram, bs, disk, s, k - 1, bs[k - 1].length / 512)
    requires forall i :: 1 <= i < k ==> bs[i].data + bs[i].length <= |ram|
    requires Gathered(ram, bs, k - 1) == SectorBytes(disk, s, SectorsIn(bs, k - 1))
    ensures Gathered(ram, bs, k) == SectorBytes(disk, s, SectorsIn(bs, k))
  {
    hide SectorBytes, IsData;
    var m, n := SectorsIn(bs, k - 1), bs[k - 1].length / 512;
    assert SectorsIn(bs, k) == m + n;
    SectorBytesAppend(disk, s, m, n);
    assert ram[bs[k - 1].data..bs[k - 1].data + Cut(bs[k - 1])] == SectorBytes(disk, s + m, n);
  }

  lemma NoSectors(disk: nat -> Sector, s: nat)
    ensures SectorBytes(disk, s, 0) == []
  {
  }

  /** With whole-sector buffers nothing is cut off. */
  lemma {:induction false} NothingCut(ram: seq<u8>, bs: seq<Buffer>, k: nat)
    requires WholeSectors(bs) && k <= |bs|
    requires forall i :: 1 <= i < k ==> IsData(bs[i]) && bs[i].data + bs[i].length <= |ram|
    ensures Gathered(ram, bs, k) == Segments(ram, bs, k)
    decreases k
  {
    hide IsData, Cut;
    if k > 1 {
      NothingCut(ram, bs, k - 1);
      assert Cut(bs[k - 1]) == bs[k - 1].length;
    }
  }

  /**
   * Gathered read equals one contiguous read. However the driver cuts its buffer into segments, if the reads
   * are complete their whole sectors together receive the sectors from the one the header names on; and if the
   * segments are whole sectors, they receive the contiguous read, and its length is what is reported. Complete
   * or not, each segment starts with the sectors that came for it, the status byte is 0, the length reported is
   * that of the segments, and the sector number kept points past the last.
   */
  lemma GatheredReadIsContiguous(disk: nat -> Sector, moves: nat -> nat, st: DevState, bs: seq<Buffer>)
    requires RequestFits(disk, moves, st, bs) && st.written == 0
    ensures var dev := BlockDisk(disk, moves);
            var r := ServeBuffers(dev, st, bs, |bs|);
            var s, total := LoadWord(st.ram, bs[0].data + 8), SectorsIn(bs, |bs| - 1);
            && (forall i :: 1 <= i < |bs| - 1 ==>
                  bs[i].data + bs[i].length <= |r.ram| && HoldsAt(r.ram, bs, disk, s, i, CameFor(dev, bs, st.asked, i)))
            && r.ram[bs[|bs| - 1].data] == 0
            && r.written == BytesReported(bs, |bs|) % 0x1_0000_0000
            && r.pos == (s + total) % 0x1_0000_0000
            && HeaderNames(st.ram, bs[0], s)
            && (Complete(dev, bs, st.asked) ==>
                  && Gathered(r.ram, bs, |bs| - 1) == SectorBytes(disk, s, total)
                  && (WholeSectors(bs) ==>
                        && Segments(r.ram, bs, |bs| - 1) == SectorBytes(disk, s, total)
                        && BytesReported(bs, |bs|) == 512 * total))
  {
    hide SectorBytes, ServeBuffer, Holds, Gathered, Segments, SectorsIn, BytesReported, LoadWord, Separate, ReadsBefore;
    hide HeaderNames;
    var n := |bs|;
    var dev := BlockDisk(disk, moves);
    var r := ServeBuffers(dev, st, bs, n);
    HeaderNamed(st.ram, bs[0]);
    Running(disk, moves, st, bs, n - 1);
    ReportedLength(disk, moves, st, bs, n);
    StatusStep(disk, moves, ServeBuffers(dev, st, bs, n - 1), bs[n - 1]);
    SegmentsHold(disk, moves, st, bs);
    if Complete(dev, bs, st.asked) {
      GatheredSectors(disk, r.ram, bs, FirstSector(disk, moves, st, bs), n - 1);
      if WholeSectors(bs) {
        NothingCut(r.ram, bs, n - 1);
        StatusHasNone(bs);
        ReportedIsDelivered(bs, n);
      }
    }
  }

  lemma StatusHasNone(bs: seq<Buffer>)
    requires ReadRequest(bs)
    ensures SectorsIn(bs, |bs|) == SectorsIn(bs, |bs| - 1)
  {
  }

  lemma SegmentsHold(disk: nat -> Sector, moves: nat -> nat, st: DevState, bs: seq<Buffer>)
    requires RequestFits(disk, moves, st, bs)
    ensures var dev := BlockDisk(disk, moves);
            var r := ServeBuffers(dev, st, bs, |bs|);
            forall i :: 1 <= i < |bs| - 1 ==>
              && bs[i].data + bs[i].length <= |r.ram|
              && HoldsAt(r.ram, bs, disk, FirstSector(disk, moves, st, bs), i, CameFor(dev, bs, st.asked, i))
  {
    hide SectorBytes, ServeBuffer, ServeBuffers, Holds, SectorsIn, LoadWord, ReadsBefore;
    var dev := BlockDisk(disk, moves);
    var r := ServeBuffers(dev, st, bs, |bs|);
    forall i | 1 <= i < |bs| - 1
      ensures bs[i].data + bs[i].length <= |r.ram|
      ensures HoldsAt(r.ram, bs, disk, FirstSector(disk, moves, st, bs), i, CameFor(dev, bs, st.asked, i))
    {
      DataBufferHolds(disk, moves, st, bs, i, |bs|);
      Running(disk, moves, st, bs, i);
      HoldsWrapped(r.ram, bs[i], disk, FirstSector(disk, moves, st, bs) + SectorsIn(bs, i),
                   CameFor(dev, bs, st.asked, i));
    }
  }

  /** The bytes reported are the bytes of the sectors delivered exactly when every data buffer is whole sectors. */
  lemma {:induction false} ReportedIsDelivered(bs: seq<Buffer>, k: nat)
    requires k <= |bs|
    ensures 512 * SectorsIn(bs, k) <= BytesReported(bs, k)
    ensures 512 * SectorsIn(bs, k) == BytesReported(bs, k) <==>
            forall i :: 0 <= i < k && IsData(bs[i]) ==> bs[i].length % 512 == 0
    decreases k
  {
    if k > 0 { ReportedIsDelivered(bs, k - 1); }
  }

  /** Any chain at all reports the total length of its data buffers. */
  lemma {:induction false} ReportedLength(disk: nat -> Sector, moves: nat -> nat, st: DevState, bs: seq<Buffer>, k: nat)
    requires AllFit(BlockDisk(disk, moves), bs, |st.ram|) && k <= |bs|
    ensures ServeBuffers(BlockDisk(disk, moves), st, bs, k).written ==
            (st.written + BytesReported(bs, k)) % 0x1_0000_0000
    decreases k
  {
    hide ServeBuffer;
    if k > 0 {
      CountStep(disk, moves, ServeBuffers(BlockDisk(disk, moves), st, bs, k - 1), bs[k - 1]);
      AddMod32(st.written + BytesReported(bs, k - 1), if IsData(bs[k - 1]) then bs[k - 1].length else 0);
      ReportedLength(disk, moves, st, bs, k - 1);
    }
  }

  // ---------- a whole backlog ----------

  lemma {:induction false} GatheredFrame(ram: seq<u8>, ram': seq<u8>, bs: seq<Buffer>, k: nat)
    requires k <= |bs| && |ram| == |ram'| && forall i :: 1 <= i < k ==> bs[i].data + bs[i].length <= |ram|
    requires forall i, x :: 1 <= i < k && bs[i].data <= x < bs[i].data + bs[i].length ==> ram[x] == ram'[x]
    ensures Gathered(ram, bs, k) == Gathered(ram', bs, k)
    decreases k
  {
    hide Cut;
    if k > 1 {
      GatheredFrame(ram, ram', bs, k - 1);
      var b := bs[k - 1];
      assert ram[b.data..b.data + Cut(b)] == ram'[b.data..b.data + Cut(b)];
    }
  }

  /**
   * What the driver finds when the drain is over, if no job writes what another one uses: for every read
   * request of the backlog, status 0 and a used entry with the total length of its segments; and, if the reads
   * made for it were complete, its sectors as numbered in its header before the drain.
   */
  lemma BacklogRead(disk: nat -> Sector, moves: nat -> nat, g: Guest, s0: Side, s: Side, i: nat)
    requires ServedAll(BlockDisk(disk, moves), g, s0, s) && JobsApart(BlockDisk(disk, moves), g, s0)
    requires i < Backlog(s0.q, g.last)
    requires RequestFits(disk, moves, s0.st, JobAt(BlockDisk(disk, moves), g, s0, i))
    ensures var dev := BlockDisk(disk, moves);
            var bs := JobAt(dev, g, s0, i);
            var slot := Slots(s0.q.usedIdx, Size(s0.q), Backlog(s0.q, g.last))[i];
            && |s.st.ram| == |s0.st.ram| && |s.ring| == |s0.ring|
            && s.st.ram[bs[|bs| - 1].data] == 0
            && s.ring[slot] == UsedElem(Pending(g, s0)[i], BytesReported(bs, |bs|) % 0x1_0000_0000)
            && HeaderNames(s0.st.ram, bs[0], LoadWord(s0.st.ram, bs[0].data + 8))
            && (Complete(dev, bs, s0.st.asked + AskedBefore(dev, g, s0, i)) ==>
                  Gathered(s.st.ram, bs, |bs| - 1) ==
                  SectorBytes(disk, LoadWord(s0.st.ram, bs[0].data + 8), SectorsIn(bs, |bs| - 1)))
  {
    hide And, Wrap, Heads, Placed, Backlog, PowerSized, JobBuffers, Terminates, ServeBuffers, JobsApart, LoadWord;
    hide SectorBytes, Gathered, SectorsIn, BytesReported, EntriesAfter, IsData, Segments, Separate, ReadsBefore;
    hide AskedBefore, Complete, HoldsAt, HeaderNames;
    var dev := BlockDisk(disk, moves);
    EntryOf(dev, g, s0, s, i);
    AskedCounted(dev, g, s0, i);
    var bs, st := JobAt(dev, g, s0, i), StateAfter(dev, g, s0, i).(written := 0);
    GatheredReadIsContiguous(disk, moves, st, bs);
    HeaderNamed(s0.st.ram, bs[0]);
    HeaderUndisturbed(disk, moves, g, s0, i, bs[0]);
    DataUndisturbed(disk, moves, g, s0, i);
  }

  lemma HeaderUndisturbed(disk: nat -> Sector, moves: nat -> nat, g: Guest, s0: Side, i: nat, b: Buffer)
    requires RingOk(g, s0) && BacklogFits(BlockDisk(disk, moves), g, s0) && JobsApart(BlockDisk(disk, moves), g, s0)
    requires i < Backlog(s0.q, g.last) && b in JobAt(BlockDisk(disk, moves), g, s0, i)
    requires !Writable(b) && Fits(BlockDisk(disk, moves), b, |s0.st.ram|)
    ensures LoadWord(StateAfter(BlockDisk(disk, moves), g, s0, i).ram, b.data + 8) == LoadWord(s0.st.ram, b.data + 8)
  {
    hide RingOk, BacklogFits, JobsApart, JobAt, Backlog, StateAfter;
    forall x: nat | b.data + 8 <= x < b.data + 12
      ensures StateAfter(BlockDisk(disk, moves), g, s0, i).ram[x] == s0.st.ram[x]
    {
      Undisturbed(BlockDisk(disk, moves), g, s0, i, b, x);
    }
  }

  lemma DataUndisturbed(disk: nat -> Sector, moves: nat -> nat, g: Guest, s0: Side, i: nat)
    requires RingOk(g, s0) && BacklogFits(BlockDisk(disk, moves), g, s0) && JobsApart(BlockDisk(disk, moves), g, s0)
    requires i < Backlog(s0.q, g.last) && RequestFits(disk, moves, s0.st, JobAt(BlockDisk(disk, moves), g, s0, i))
    ensures var bs := JobAt(BlockDisk(disk, moves), g, s0, i);
            var done, end := StateAfter(BlockDisk(disk, moves), g, s0, i + 1).ram,
                             StateAfter(BlockDisk(disk, moves), g, s0, Backlog(s0.q, g.last)).ram;
            && Gathered(end, bs, |bs| - 1) == Gathered(done, bs, |bs| - 1)
            && end[bs[|bs| - 1].data] == done[bs[|bs| - 1].data]
  {
    hide RingOk, BacklogFits, JobsApart, JobAt, Backlog, StateAfter, Gathered, Separate;
    var dev := BlockDisk(disk, moves);
    var bs := JobAt(dev, g, s0, i);
    var done, end := StateAfter(dev, g, s0, i + 1).ram, StateAfter(dev, g, s0, Backlog(s0.q, g.last)).ram;
    forall j, x: nat | 1 <= j < |bs| && InExtent(dev, bs[j], x)
      ensures x < |end| && end[x] == done[x]
    {
      Undisturbed(dev, g, s0, i, bs[j], x);
    }
    forall j, x | 1 <= j < |bs| - 1 && bs[j].data <= x < bs[j].data + bs[j].length
      ensures end[x] == done[x]
    {
      assert InExtent(dev, bs[j], x);
    }
    GatheredFrame(end, done, bs, |bs| - 1);
    assert InExtent(dev, bs[|bs| - 1], bs[|bs| - 1].data);
  }

  // ---------- the device ----------

  lemma CopyNone(before: seq<u8>, a: nat, disk: nat -> Sector, sector: u32)
    requires a <= |before|
    ensures Blit(before, a, SectorBytes(disk, sector, 0)) == before
  {
  }

  lemma CopyStep(before: seq<u8>, a: nat, disk: nat -> Sector, sector: u32, k: nat)
    requires a + 512 * k + 512 <= |before|
    ensures Blit(Blit(before, a, SectorBytes(disk, sector, k)), a + 512 * k, disk((sector + k) % 0x1_0000_0000)) ==
            Blit(before, a, SectorBytes(disk, sector, k + 1))
  {
    BlitAppend(before, a, SectorBytes(disk, sector, k), disk((sector + k) % 0x1_0000_0000));
  }

  /** The card, with arbitrary contents; its r-th read brings at most moves(r) sectors. */
  class SdCard {
    const disk: nat -> Sector
    const moves: nat -> nat
    var asked: nat

    constructor (contents: nat -> Sector, transfers: nat -> nat)
      ensures disk == contents && moves == transfers && asked == 0
    {
      disk, moves, asked := contents, transfers, 0;
    }

    function Dev(): Device {
      BlockDisk(disk, moves)
    }

    method ReadSectors(sector: u32, count: nat, ram: array<u8>, a: nat)
      requires a + 512 * count <= ram.Length
      modifies this`asked, ram
      ensures asked == old(asked) + 1
      ensures ram[..] == Blit(old(ram[..]), a, SectorBytes(disk, sector, Arrived(moves, old(asked), count)))
    {
      hide Blit, SectorBytes;
      ghost var before := ram[..];
      CopyNone(before, a, disk, sector);
      var n := Arrived(moves, asked, count);
      asked := asked + 1;
      var k := 0;
      while k < n
        invariant k <= n && asked == old(asked) + 1
        invariant ram[..] == Blit(before, a, SectorBytes(disk, sector, k))
      {
        StoreSector(ram, a + 512 * k, disk((sector + k) % 0x1_0000_0000));
        CopyStep(before, a, disk, sector, k);
        k := k + 1;
      }
    }
  }

  method StoreSector(ram: array<u8>, a: nat, bytes: Sector)
    requires a + 512 <= ram.Length
    modifies ram
    ensures ram[..] == Blit(old(ram[..]), a, bytes)
  {
    BlitIsSplice(ram[..], a, bytes);
    forall i | 0 <= i < 512 {
      ram[a + i] := bytes[i];
    }
  }

  /** One turn of the do-while body. */
  method ServeDesc(vq: VirtQueue, job: VirtJob, mem: GuestMemory, card: SdCard)
    requires vq.qDesc in mem.descAt && vq.sizeMask < |mem.descAt[vq.qDesc].entries| && job.currentDesc <= vq.sizeMask
    requires Fits(card.Dev(), BufferOf(mem.descAt[vq.qDesc].entries[job.currentDesc]), mem.ram.Length)
    modifies job`totalWritten, mem.ram, vq`priv, card`asked
    ensures DevState(mem.ram[..], vq.priv, card.asked, job.totalWritten) ==
            ServeBuffer(card.Dev(), DevState(old(mem.ram[..]), old(vq.priv), old(card.asked), old(job.totalWritten)),
                        BufferOf(mem.descAt[vq.qDesc].entries[job.currentDesc]))
  {
    hide And, SectorBytes, Blit, LoadWord;
    var desc := vq.GetDesc(mem, job.currentDesc);
    if desc.buf.dir == HostToVdev {
      vq.priv := LoadWord(mem.ram[..], desc.buf.data + 8);
    } else if desc.buf.length < 512 {
      mem.ram[desc.buf.data] := 0;
    } else {
      var sectors := desc.buf.length / 512;
      card.ReadSectors(vq.priv, sectors, mem.ram, desc.buf.data);
      vq.priv := (vq.priv + sectors) % 0x1_0000_0000;
      job.AddWritten(desc.buf.length);
    }
  }

  /** The do-while loop over one chain. */
  method ServeChain(vq: VirtQueue, job: VirtJob, mem: GuestMemory, card: SdCard)
    requires vq.qDesc in mem.descAt && vq.sizeMask < |mem.descAt[vq.qDesc].entries| && job.totalWritten == 0
    requires JobFits(card.Dev(), mem.descAt[vq.qDesc].entries, vq.sizeMask + 1, job.currentDesc,
                     mem.ram.Length)
    modifies job`currentDesc, job`totalWritten, mem.ram, vq`priv, card`asked
    ensures DevState(mem.ram[..], vq.priv, card.asked, job.totalWritten) ==
            ServeHead(card.Dev(), mem.descAt[vq.qDesc].entries, vq.sizeMask + 1,
                      DevState(old(mem.ram[..]), old(vq.priv), old(card.asked), 0), old(job.currentDesc))
  {
    hide And, ServeBuffer, Fits;
    ghost var table, size := mem.descAt[vq.qDesc].entries, vq.sizeMask + 1;
    ghost var c := ChainOf(table, size, job.currentDesc);
    ghost var bs := JobBuffers(table, size, job.currentDesc);
    ghost var st := DevState(mem.ram[..], vq.priv, card.asked, 0);
    ghost var k := 0;
    while true
      invariant 0 <= k < |c| && job.currentDesc == c[k]
      invariant DevState(mem.ram[..], vq.priv, card.asked, job.totalWritten) == ServeBuffers(card.Dev(), st, bs, k)
      decreases |c| - k
    {
      ServeDesc(vq, job, mem, card);
      ChainStep(table, size, c, k);
      var next := FetchJobNext(vq, job, mem);
      k := k + 1;
      if next < 0 {
        break;
      }
    }
  }

  /** One round of the outer loop: fetch a job, walk its chain and return it; false when there is none. */
  method ServeJob(vq: VirtQueue, job: VirtJob, mem: GuestMemory, card: SdCard) returns (more: bool)
    requires Mapped(vq.Regs(), mem) && RingOk(GuestOf(vq.Regs(), mem), SideOf(vq.Regs(), mem, vq.priv, card.asked))
    requires NextFits(card.Dev(), GuestOf(vq.Regs(), mem), SideOf(vq.Regs(), mem, vq.priv, card.asked))
    modifies job, mem.ram, vq`availIdx, vq`usedIdx, vq`priv, card`asked, mem.usedAt[vq.qUsed]
    ensures more == (FetchIndex(old(vq.Regs()), mem.availAt[vq.qAvail].last) >= 0)
    ensures SideOf(vq.Regs(), mem, vq.priv, card.asked) ==
            ServeNext(card.Dev(), GuestOf(vq.Regs(), mem), old(SideOf(vq.Regs(), mem, vq.priv, card.asked)))
  {
    hide And, ServeHead, Terminates, JobBuffers;
    var first := FetchJobNew(vq, job, mem);
    if first < 0 {
      return false;
    }
    ServeChain(vq, job, mem, card);
    PushJob(vq, job, mem);
    return true;
  }

  /** The outer while loop: it ends after exactly the pending heads, each served once and in order. */
  method DrainBacklog(vq: VirtQueue, mem: GuestMemory, card: SdCard)
    requires vq.ready != 0 && Serviceable(card.Dev(), vq.Regs(), mem, vq.priv, card.asked)
    modifies vq`availIdx, vq`usedIdx, vq`priv, card`asked, mem.usedAt[vq.qUsed], mem.ram
    ensures Mapped(vq.Regs(), mem)
    ensures ServedAll(card.Dev(), GuestOf(vq.Regs(), mem), old(SideOf(vq.Regs(), mem, vq.priv, card.asked)),
                      SideOf(vq.Regs(), mem, vq.priv, card.asked))
  {
    hide And, FetchIndex, PowerSized, RingOk, BacklogFits, NextFits, ServeNext, Reached;
    var job := new VirtJob();
    ghost var dev, g, s0 := card.Dev(), GuestOf(vq.Regs(), mem), SideOf(vq.Regs(), mem, vq.priv, card.asked);
    ghost var n, k := Backlog(s0.q, g.last), 0;
    ReachedStart(dev, g, s0);
    var more := true;
    while more
      invariant Mapped(vq.Regs(), mem) && GuestOf(vq.Regs(), mem) == g
      invariant Reached(dev, g, s0, k, SideOf(vq.Regs(), mem, vq.priv, card.asked))
      invariant k <= n && (!more ==> k == n)
      decreases n - k, more
    {
      ghost var s := SideOf(vq.Regs(), mem, vq.priv, card.asked);
      ReachedReady(dev, g, s0, k, s);
      more := ServeJob(vq, job, mem, card);
      if more {
        ReachedNext(dev, g, s0, k, s);
        k := k + 1;
      } else {
        NothingLeft(dev, g, s);
      }
    }
  }

  /** sdmcProcessQueue: drain the backlog, then notify the guest once. */
  method ProcessQueue(vq: VirtQueue, mem: GuestMemory, card: SdCard, irq: VirtIrq, devId: nat)
    requires irq.Valid() && Serviceable(card.Dev(), vq.Regs(), mem, vq.priv, card.asked)
    modifies vq`availIdx, vq`usedIdx, vq`priv, card`asked, UsedObjects(vq.Regs(), mem), mem.ram, irq, irq.pendingVirq
    ensures irq.Valid() && irq.model == SyncVirq(SetVirq(old(irq.model), devId, VIRQ_VQUEUE))
    ensures vq.ready == 0 ==>
              vq.Regs() == old(vq.Regs()) && mem.ram[..] == old(mem.ram[..]) && vq.priv == old(vq.priv)
              && card.asked == old(card.asked)
    ensures vq.ready != 0 ==>
              && Mapped(vq.Regs(), mem)
              && ServedAll(card.Dev(), GuestOf(vq.Regs(), mem), old(SideOf(vq.Regs(), mem, vq.priv, card.asked)),
                           SideOf(vq.Regs(), mem, vq.priv, card.asked))
  {
    hide And, Wrap, Heads, JobFits, ServeHead, AdvanceAvail, AdvanceUsed, PushIndex;
    if vq.ready != 0 {
      DrainBacklog(vq, mem, card);
    } else {
      var job := new VirtJob();
      var first := FetchJobNew(vq, job, mem);
    }
    var was := irq.Set(devId, VIRQ_VQUEUE);
    irq.Sync();
  }
}
