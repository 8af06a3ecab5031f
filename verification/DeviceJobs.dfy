/**
 * What the two devices do with the buffers of a job, on values. The entropy device (hwrng.c) fills
 * every writable buffer from its generator; the block device (sdcard.c) takes the sector number from
 * a readable buffer, copies sectors into long writable ones and writes a status byte into short ones.
 */
module DeviceJobs {
  import opened Bits
  import opened QueueRegs
  import opened Chains
  import opened Buffers


  type Sector = s: seq<u8> | |s| == 512 witness seq(512, i => 0)

  /**
   * A device with an arbitrary generator stream; or with arbitrary disk contents, the r-th read of which
   * brings at most moves(r) sectors before the transfer ends.
   */
  datatype Device = EntropySource(stream: nat -> u32) | BlockDisk(disk: nat -> Sector, moves: nat -> nat)

  /** Guest bytes; words drawn, or the running sector number; reads asked of the disk; the job's running total. */
  datatype DevState = DevState(ram: seq<u8>, pos: nat, asked: nat, written: u32)

  predicate Writable(b: Buffer) {
    b.dir == VdevToHost
  }

  /** The bytes the device touches through b lie in guest memory. */
  predicate Fits(dev: Device, b: Buffer, ramSize: nat) {
    match dev
    case EntropySource(_) => Writable(b) ==> b.data + b.length <= ramSize
    case BlockDisk(_, _) => b.data + (if !Writable(b) then 16 else if b.length == 0 then 1 else b.length) <= ramSize
  }

  /** The bytes of n consecutive sectors; sector numbers have 32 bits. */
  function SectorBytes(disk: nat -> Sector, from: nat, n: nat): (bs: seq<u8>)
    ensures |bs| == 512 * n
  {
    if n == 0 then [] else SectorBytes(disk, from, n - 1) + disk((from + n - 1) % 0x1_0000_0000)
  }

  lemma {:induction false} SectorBytesAppend(disk: nat -> Sector, from: nat, m: nat, n: nat)
    ensures SectorBytes(disk, from, m + n) == SectorBytes(disk, from, m) + SectorBytes(disk, from + m, n)
    decreases n
  {
    if n == 0 {
      assert SectorBytes(disk, from, m) + [] == SectorBytes(disk, from, m);
    } else {
      SectorBytesAppend(disk, from, m, n - 1);
    }
  }

  lemma {:induction false} SectorBytesWrap(disk: nat -> Sector, from: nat, n: nat)
    ensures SectorBytes(disk, from % 0x1_0000_0000, n) == SectorBytes(disk, from, n)
    decreases n
  {
    if n > 0 {
      SectorBytesWrap(disk, from, n - 1);
      AddMod32(from, n - 1);
    }
  }

  /** Byte j of the i-th of n consecutive sectors stands at 512 * i + j. */
  lemma {:induction false} SectorBytesAre(disk: nat -> Sector, from: nat, n: nat, i: nat, j: nat)
    requires i < n && j < 512
    ensures SectorBytes(disk, from, n)[512 * i + j] == disk((from + i) % 0x1_0000_0000)[j]
    decreases n
  {
    if i < n - 1 { SectorBytesAre(disk, from, n - 1, i, j); }
  }

  function FillFromGenerator(stream: nat -> u32, st: DevState, b: Buffer): (r: DevState)
    requires Writable(b) ==> b.data + b.length <= |st.ram|
    ensures |r.ram| == |st.ram|
  {
    if Writable(b)
    then st.(ram := Blit(st.ram, b.data, StreamBytes(stream, st.pos, b.length / 4)),
             pos := st.pos + b.length / 4, written := (st.written + b.length) % 0x1_0000_0000)
    else st
  }

  /** The sectors that the r-th read brings when n are asked for. */
  function Arrived(moves: nat -> nat, r: nat, n: nat): (m: nat)
    ensures m <= n && (m == n <==> moves(r) >= n)
  {
    if moves(r) < n then moves(r) else n
  }

  /** The sector number and the total advance whatever the read brought. */
  function TransferBlock(disk: nat -> Sector, moves: nat -> nat, st: DevState, b: Buffer): (r: DevState)
    requires Fits(BlockDisk(disk, moves), b, |st.ram|)
    ensures |r.ram| == |st.ram|
  {
    if !Writable(b) then st.(pos := LoadWord(st.ram, b.data + 8))
    else if b.length < 512 then st.(ram := st.ram[b.data := 0])
    else
      var n := b.length / 512;
      DevState(Blit(st.ram, b.data, SectorBytes(disk, st.pos, Arrived(moves, st.asked, n))),
               (st.pos + n) % 0x1_0000_0000, st.asked + 1, (st.written + b.length) % 0x1_0000_0000)
  }

  function ServeBuffer(dev: Device, st: DevState, b: Buffer): (r: DevState)
    requires Fits(dev, b, |st.ram|)
    ensures |r.ram| == |st.ram|
  {
    match dev
    case EntropySource(stream) => FillFromGenerator(stream, st, b)
    case BlockDisk(disk, moves) => TransferBlock(disk, moves, st, b)
  }

  ghost predicate AllFit(dev: Device, bs: seq<Buffer>, ramSize: nat) {
    forall i :: 0 <= i < |bs| ==> Fits(dev, bs[i], ramSize)
  }

  /** The first k buffers of a chain served in order. */
  ghost function ServeBuffers(dev: Device, st: DevState, bs: seq<Buffer>, k: nat): (r: DevState)
    requires AllFit(dev, bs, |st.ram|) && k <= |bs|
    ensures |r.ram| == |st.ram|
    decreases k
  {
    if k == 0 then st else ServeBuffer(dev, ServeBuffers(dev, st, bs, k - 1), bs[k - 1])
  }

  /** The buffers whose whole length the device adds to what it reports; the block device reads the disk for them. */
  predicate Reports(dev: Device, b: Buffer) {
    Writable(b) && (dev.BlockDisk? ==> b.length >= 512)
  }

  /** Reads of the disk for the first i buffers. */
  function ReadsBefore(dev: Device, bs: seq<Buffer>, i: nat): nat
    requires i <= |bs|
    decreases i
  {
    if i == 0 then 0
    else ReadsBefore(dev, bs, i - 1) + if dev.BlockDisk? && Reports(dev, bs[i - 1]) then 1 else 0
  }

  lemma {:induction false} ReadsCounted(dev: Device, st: DevState, bs: seq<Buffer>, k: nat)
    requires AllFit(dev, bs, |st.ram|) && k <= |bs|
    ensures ServeBuffers(dev, st, bs, k).asked == st.asked + ReadsBefore(dev, bs, k)
    decreases k
  {
    if k > 0 { ReadsCounted(dev, st, bs, k - 1); }
  }

  /** How many bytes the device writes, from the start of the buffer on, after r reads. */
  function Filled(dev: Device, b: Buffer, r: nat): nat {
    if !Writable(b) then 0
    else
      match dev
      case EntropySource(_) => 4 * (b.length / 4)
      case BlockDisk(_, moves) => if b.length < 512 then 1 else 512 * Arrived(moves, r, b.length / 512)
  }

  /** How many it may write at most: the status byte counts even where the buffer has no room for it. */
  function Window(dev: Device, b: Buffer): nat {
    if !Writable(b) then 0
    else
      match dev
      case EntropySource(_) => 4 * (b.length / 4)
      case BlockDisk(_, _) => if b.length < 512 then 1 else 512 * (b.length / 512)
  }

  /** How many bytes of the buffer the device uses, to read or to write. */
  function Extent(dev: Device, b: Buffer): nat {
    match dev
    case EntropySource(_) => if Writable(b) then b.length else 0
    case BlockDisk(_, _) => if !Writable(b) then 16 else if b.length == 0 then 1 else b.length
  }

  lemma FilledInWindow(dev: Device, b: Buffer, r: nat)
    ensures Filled(dev, b, r) <= Window(dev, b) <= Extent(dev, b)
    ensures !Writable(b) ==> Window(dev, b) == 0
  {
  }

  predicate InExtent(dev: Device, b: Buffer, x: nat) {
    b.data <= x < b.data + Extent(dev, b)
  }

  /** Address x is one that the device may write. */
  ghost predicate InWindow(dev: Device, bs: seq<Buffer>, x: nat) {
    exists i :: 0 <= i < |bs| && bs[i].data <= x < bs[i].data + Window(dev, bs[i])
  }

  /** Address x is one that the device does write, after r reads. */
  ghost predicate IsWritten(dev: Device, bs: seq<Buffer>, r: nat, x: nat) {
    exists i :: 0 <= i < |bs| && bs[i].data <= x < bs[i].data + Filled(dev, bs[i], r + ReadsBefore(dev, bs, i))
  }

  lemma BufferWindow(dev: Device, st: DevState, b: Buffer, x: nat)
    requires Fits(dev, b, |st.ram|) && x < |st.ram|
    requires !(b.data <= x < b.data + Filled(dev, b, st.asked))
    ensures ServeBuffer(dev, st, b).ram[x] == st.ram[x]
  {
    match dev
    case EntropySource(stream) =>
      if Writable(b) { BlitAt(st.ram, b.data, StreamBytes(stream, st.pos, b.length / 4)); }
    case BlockDisk(disk, moves) =>
      if Writable(b) && b.length >= 512 {
        BlitAt(st.ram, b.data, SectorBytes(disk, st.pos, Arrived(moves, st.asked, b.length / 512)));
      }
  }

  /** Only whole words, or the sectors that came and status bytes, of the job's writable buffers ever change. */
  lemma {:induction false} OnlyWrittenChange(dev: Device, st: DevState, bs: seq<Buffer>, k: nat, x: nat)
    requires AllFit(dev, bs, |st.ram|) && k <= |bs| && x < |st.ram| && !IsWritten(dev, bs, st.asked, x)
    ensures ServeBuffers(dev, st, bs, k).ram[x] == st.ram[x]
    decreases k
  {
    hide ServeBuffer, Fits, Filled;
    if k > 0 {
      OnlyWrittenChange(dev, st, bs, k - 1, x);
      ReadsCounted(dev, st, bs, k - 1);
      BufferWindow(dev, ServeBuffers(dev, st, bs, k - 1), bs[k - 1], x);
    }
  }

  /** So nothing outside the windows does. */
  lemma OnlyWindowsChange(dev: Device, st: DevState, bs: seq<Buffer>, k: nat, x: nat)
    requires AllFit(dev, bs, |st.ram|) && k <= |bs| && x < |st.ram| && !InWindow(dev, bs, x)
    ensures ServeBuffers(dev, st, bs, k).ram[x] == st.ram[x]
  {
    hide ServeBuffer, Fits, Filled, Window;
    forall i | 0 <= i < |bs|
      ensures !(bs[i].data <= x < bs[i].data + Filled(dev, bs[i], st.asked + ReadsBefore(dev, bs, i)))
    {
      FilledInWindow(dev, bs[i], st.asked + ReadsBefore(dev, bs, i));
    }
    OnlyWrittenChange(dev, st, bs, k, x);
  }

  /** The writable buffers of one chain do not overlap. */
  ghost predicate Separate(dev: Device, bs: seq<Buffer>) {
    forall i, j :: 0 <= i < j < |bs| && Writable(bs[i]) && Writable(bs[j]) ==> DisjointBuffers(dev, bs[i], bs[j])
  }

  predicate DisjointBuffers(dev: Device, a: Buffer, b: Buffer) {
    a.data + Extent(dev, a) <= b.data || b.data + Extent(dev, b) <= a.data
  }

  /** The rest of a writable buffer, past the last word or sector that came, is written by no part of the job. */
  lemma TailNotWritten(dev: Device, bs: seq<Buffer>, r: nat, i: nat, x: nat)
    requires Separate(dev, bs) && i < |bs| && Writable(bs[i])
    requires bs[i].data + Filled(dev, bs[i], r + ReadsBefore(dev, bs, i)) <= x < bs[i].data + bs[i].length
    ensures !IsWritten(dev, bs, r, x)
  {
    hide Filled, Window, ReadsBefore;
    LengthInExtent(dev, bs[i]);
    forall j | 0 <= j < |bs|
      ensures !(bs[j].data <= x < bs[j].data + Filled(dev, bs[j], r + ReadsBefore(dev, bs, j)))
    {
      FilledInWindow(dev, bs[j], r + ReadsBefore(dev, bs, j));
    }
  }

  lemma LengthInExtent(dev: Device, b: Buffer)
    ensures Writable(b) ==> b.length <= Extent(dev, b)
  {
  }

  /** So it keeps its old bytes, although it is reported. */
  lemma TailKept(dev: Device, st: DevState, bs: seq<Buffer>, i: nat, k: nat, x: nat)
    requires AllFit(dev, bs, |st.ram|) && Separate(dev, bs) && i < |bs| && k <= |bs| && Writable(bs[i])
    requires bs[i].data + Filled(dev, bs[i], st.asked + ReadsBefore(dev, bs, i)) <= x < bs[i].data + bs[i].length
    ensures x < |st.ram| && ServeBuffers(dev, st, bs, k).ram[x] == st.ram[x]
  {
    hide Filled, ReadsBefore;
    TailNotWritten(dev, bs, st.asked, i, x);
    OnlyWrittenChange(dev, st, bs, k, x);
  }

  /** The buffer is a whole number of words, or of sectors. */
  predicate WholeUnits(dev: Device, b: Buffer) {
    match dev
    case EntropySource(_) => b.length % 4 == 0
    case BlockDisk(_, _) => b.length % 512 == 0
  }

  /** Everything asked for came: always from the generator, from the disk if the r-th read was complete. */
  predicate AllCame(dev: Device, b: Buffer, r: nat) {
    match dev
    case EntropySource(_) => true
    case BlockDisk(_, moves) => moves(r) >= b.length / 512
  }

  lemma FilledExactly(dev: Device, b: Buffer, r: nat)
    requires Reports(dev, b)
    ensures Filled(dev, b, r) <= b.length
    ensures Filled(dev, b, r) == b.length <==> WholeUnits(dev, b) && AllCame(dev, b, r)
  {
  }

  /**
   * Every byte reported is one the device writes exactly when each reported buffer is whole words or sectors
   * and each read of the disk was complete.
   */
  lemma ReportedIsWrittenExactly(dev: Device, bs: seq<Buffer>, r: nat)
    requires Separate(dev, bs)
    ensures (forall i, x: nat :: 0 <= i < |bs| && Reports(dev, bs[i]) && bs[i].data <= x < bs[i].data + bs[i].length ==>
               IsWritten(dev, bs, r, x))
            <==> forall i :: 0 <= i < |bs| && Reports(dev, bs[i]) ==>
                   WholeUnits(dev, bs[i]) && AllCame(dev, bs[i], r + ReadsBefore(dev, bs, i))
  {
    hide Filled, WholeUnits, AllCame, ReadsBefore;
    forall i | 0 <= i < |bs| && Reports(dev, bs[i])
      ensures var q := r + ReadsBefore(dev, bs, i);
              var whole := WholeUnits(dev, bs[i]) && AllCame(dev, bs[i], q);
              && (whole ==> Filled(dev, bs[i], q) == bs[i].length)
              && (!whole ==> exists x: nat :: bs[i].data <= x < bs[i].data + bs[i].length && !IsWritten(dev, bs, r, x))
    {
      var q := r + ReadsBefore(dev, bs, i);
      FilledExactly(dev, bs[i], q);
      if !(WholeUnits(dev, bs[i]) && AllCame(dev, bs[i], q)) {
        TailNotWritten(dev, bs, r, i, bs[i].data + Filled(dev, bs[i], q));
      }
    }
  }

  /** The status byte goes past the buffer exactly when that is writable and has no bytes at all. */
  lemma WindowExactly(dev: Device, b: Buffer)
    ensures Window(dev, b) <= b.length <==> !(dev.BlockDisk? && Writable(b) && b.length == 0)
  {
  }

  /** Only bytes of writable buffers are written exactly when, for the block device, none of these is empty. */
  lemma StaysInBuffersExactly(dev: Device, bs: seq<Buffer>)
    requires Separate(dev, bs)
    ensures (forall x: nat :: InWindow(dev, bs, x) ==> InBuffer(bs, x))
            <==> forall i :: 0 <= i < |bs| && Writable(bs[i]) && dev.BlockDisk? ==> bs[i].length > 0
  {
    forall i | 0 <= i < |bs| && Writable(bs[i]) && dev.BlockDisk? && bs[i].length == 0
      ensures InWindow(dev, bs, bs[i].data) && !InBuffer(bs, bs[i].data)
    {
      assert bs[i].data < bs[i].data + Window(dev, bs[i]);
    }
    if forall i :: 0 <= i < |bs| && Writable(bs[i]) && dev.BlockDisk? ==> bs[i].length > 0 {
      forall x: nat | InWindow(dev, bs, x)
        ensures InBuffer(bs, x)
      {
        var i :| 0 <= i < |bs| && bs[i].data <= x < bs[i].data + Window(dev, bs[i]);
        WindowExactly(dev, bs[i]);
      }
    }
  }

  /** Address x lies in a buffer that the device may write. */
  ghost predicate InBuffer(bs: seq<Buffer>, x: nat) {
    exists i :: 0 <= i < |bs| && Writable(bs[i]) && bs[i].data <= x < bs[i].data + bs[i].length
  }

  /** The chain from head terminates and its buffers lie in guest memory. */
  ghost predicate JobFits(dev: Device, table: seq<Desc>, size: nat, head: u16, ramSize: nat)
    requires size <= |table|
  {
    Terminates(table, size, head) && AllFit(dev, JobBuffers(table, size, head), ramSize)
  }

  ghost function ServeHead(dev: Device, table: seq<Desc>, size: nat, st: DevState, head: u16): (r: DevState)
    requires size <= |table| && JobFits(dev, table, size, head, |st.ram|)
    ensures |r.ram| == |st.ram|
  {
    var bs := JobBuffers(table, size, head);
    ServeBuffers(dev, st.(written := 0), bs, |bs|)
  }
}
