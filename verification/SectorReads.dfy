/**
 * Sector reads from the card and writes to it (sdmmc_sdcard_readsectors and sdmmc_sdcard_writesectors in
 * hw/sdmmc.c): what a transfer leaves in the buffer, and what it has sent.
 */
module SectorReads {
  import opened Bits
  import opened Buffers
  import opened DeviceJobs
  import opened SdTransfer

  /** The bytes of the first n words. */
  function BytesOf(ws: seq<u32>, n: nat): (bs: seq<u8>)
    requires n <= |ws|
    ensures |bs| == 4 * n
    decreases n
  {
    if n == 0 then [] else BytesOf(ws, n - 1) + WordBytes(ws[n - 1])
  }

  /** The controller's FIFO delivers the sectors asked for, one after the other. */
  ghost predicate Delivers(incoming: nat -> u32, disk: nat -> Sector, sector: u32, count: nat) {
    forall m: nat :: m <= count ==> StreamBytes(incoming, 0, 128 * m) == SectorBytes(disk, sector, m)
  }

  lemma {:induction false} BytesOfStream(ws: seq<u32>, incoming: nat -> u32, n: nat)
    requires n <= |ws| && forall i :: 0 <= i < n ==> ws[i] == incoming(i)
    ensures BytesOf(ws, n) == StreamBytes(incoming, 0, n)
    decreases n
  {
    hide WordBytes;
    if n > 0 { BytesOfStream(ws, incoming, n - 1); }
  }

  /** The command word, and sectors of 512 bytes into a buffer. */
  function ReadConfig(): Config {
    Decode(0x33C12, 512, true, false)
  }

  lemma ReadConfigFacts()
    ensures var c := ReadConfig();
            && c.readData && !c.writeData && c.blkSize == 512 && c.rUseBuf && !c.tUseBuf && Flags(c) == 5
            && WordsPerBlock(c.blkSize) == 128
  {
    hide Has, And;
    SectorCommands(512, true, false);
  }

  lemma RoomForSectors(count: nat)
    ensures Capacity(512 * count, 512) == 128 * count
  {
  }

  /** Of the first k turns, those whose control word shows a block ready. */
  function ReadyTurns(trace: nat -> Sample, k: nat): (n: nat)
    ensures n <= k
    decreases k
  {
    if k == 0 then 0 else ReadyTurns(trace, k - 1) + if Bit(trace(k - 1).ctl32, 8) then 1 else 0
  }

  /** And those whose control word shows room for one. */
  function RoomTurns(trace: nat -> Sample, k: nat): (n: nat)
    ensures n <= k
    decreases k
  {
    if k == 0 then 0 else RoomTurns(trace, k - 1) + if Bit(trace(k - 1).ctl32, 9) then 0 else 1
  }

  function Min(a: nat, b: nat): nat {
    if a < b then a else b
  }

  /** While the loop runs every turn with a block ready brings one sector, up to the number asked for. */
  lemma {:induction false} SectorsMoved(count: nat, trace: nat -> Sample, k: nat)
    requires forall t: nat :: t < k ==> !Run(ReadConfig(), 512 * count, trace, t).done
    ensures Run(ReadConfig(), 512 * count, trace, k).ins == Min(count, ReadyTurns(trace, k))
    decreases k
  {
    hide Has, And, Or, Bit, Decode, Turn, Conserved, ReadConfig, See;
    ReadConfigFacts();
    if k > 0 {
      SeenBits(ReadConfig(), trace(k - 1));
      SectorsMoved(count, trace, k - 1);
      BlocksConserved(ReadConfig(), 512 * count, trace, k - 1);
      OneWay(ReadConfig(), 512 * count, trace, k - 1);
      var y := Run(ReadConfig(), 512 * count, trace, k - 1);
      OneReadTurn(ReadConfig(), count, y, See(ReadConfig(), trace(k - 1)));
    }
  }

  lemma OneReadTurn(c: Config, count: nat, x: Xfer, v: Seen)
    requires c.readData && !c.writeData && c.rUseBuf && c.blkSize == 512
    requires Conserved(c, 512 * count, x) && x.outs == 0
    ensures x.ins <= count
    ensures Turn(c, x, v).ins == if v.rxReady && x.ins < count then x.ins + 1 else x.ins
  {
    assert x.left + 512 * x.ins == 512 * count;
  }

  /**
   * sdmmc_sdcard_readsectors. Whatever the controller does, the buffer holds the first sectors asked for, as
   * many as there were turns with a block ready, and is otherwise unchanged. So all of them have come exactly
   * when there were that many such turns by the time the loop was left; the result of get_error does not tell.
   */
  method ReadSectors(disk: nat -> Sector, sector: u32, count: nat, fifo: Fifo, buf: array<u32>, none: array<u32>,
                     trace: nat -> Sample, ghost n: nat)
    returns (ret: int, ghost moved: nat, ghost turns: nat)
    requires fifo.taken == 0 && fifo.sent == [] && buf != none && buf.Length >= 128 * count
    requires Delivers(fifo.incoming, disk, sector, count) && Run(ReadConfig(), 512 * count, trace, n).done
    modifies fifo, buf
    ensures 0 < turns <= n && Run(ReadConfig(), 512 * count, trace, turns).done
    ensures forall t: nat :: t < turns ==> !Run(ReadConfig(), 512 * count, trace, t).done
    ensures moved == Min(count, ReadyTurns(trace, turns)) && (moved == count <==> ReadyTurns(trace, turns) >= count)
    ensures BytesOf(buf[..], 128 * moved) == SectorBytes(disk, sector, moved)
    ensures forall i :: 128 * moved <= i < buf.Length ==> buf[i] == old(buf[i])
    ensures ret != 0 <==> AnyErrorBit(trace(turns - 1).status1)
  {
    hide Has, And, Bit, Or, Decode, WordBytes, Run, StreamBytes, SectorBytes, BytesOf;
    ReadConfigFacts();
    RoomForSectors(count);
    var x;
    x, turns := SendCommand(ReadConfig(), 512 * count, fifo, buf, none, trace, n);
    moved := x.ins;
    ret := GetError(x.error);
    SectorsMoved(count, trace, turns);
    BytesOfStream(buf[..], fifo.incoming, 128 * moved);
    ErrorExactly(ReadConfig(), 512 * count, trace, turns - 1);
    SeenBits(ReadConfig(), trace(turns - 1));
  }

  /** The command word, and sectors of 512 bytes out of a buffer. */
  function WriteConfig(): Config {
    Decode(0x52C19, 512, false, true)
  }

  lemma WriteConfigFacts()
    ensures var c := WriteConfig();
            && !c.readData && c.writeData && c.blkSize == 512 && !c.rUseBuf && c.tUseBuf && Flags(c) == 5
            && WordsPerBlock(c.blkSize) == 128
  {
    hide Has, And;
    SectorCommands(512, false, true);
  }

  /** While the loop runs every turn with room for a block sends one sector, up to the number given. */
  lemma {:induction false} SectorsSent(count: nat, trace: nat -> Sample, k: nat)
    requires forall t: nat :: t < k ==> !Run(WriteConfig(), 512 * count, trace, t).done
    ensures Run(WriteConfig(), 512 * count, trace, k).outs == Min(count, RoomTurns(trace, k))
    decreases k
  {
    hide Has, And, Or, Bit, Decode, Turn, Conserved, WriteConfig, See;
    WriteConfigFacts();
    if k > 0 {
      SeenBits(WriteConfig(), trace(k - 1));
      SectorsSent(count, trace, k - 1);
      BlocksConserved(WriteConfig(), 512 * count, trace, k - 1);
      OneWay(WriteConfig(), 512 * count, trace, k - 1);
      var y := Run(WriteConfig(), 512 * count, trace, k - 1);
      OneWriteTurn(WriteConfig(), count, y, See(WriteConfig(), trace(k - 1)));
    }
  }

  lemma OneWriteTurn(c: Config, count: nat, x: Xfer, v: Seen)
    requires !c.readData && c.writeData && c.tUseBuf && c.blkSize == 512
    requires Conserved(c, 512 * count, x) && x.ins == 0
    ensures x.outs <= count
    ensures Turn(c, x, v).outs == if !v.txFull && x.outs < count then x.outs + 1 else x.outs
  {
    assert x.left + 512 * x.outs == 512 * count;
  }

  /**
   * sdmmc_sdcard_writesectors. Whatever the controller does, the words sent are the first sectors of the buffer,
   * as many as there were turns with room for one; the result tells only of the error bits.
   */
  method WriteSectors(count: nat, fifo: Fifo, buf: array<u32>, none: array<u32>, trace: nat -> Sample, ghost n: nat)
    returns (ret: int, ghost sectors: nat, ghost turns: nat)
    requires fifo.taken == 0 && fifo.sent == [] && buf != none && buf.Length >= 128 * count
    requires Run(WriteConfig(), 512 * count, trace, n).done
    modifies fifo, none
    ensures 0 < turns <= n && Run(WriteConfig(), 512 * count, trace, turns).done
    ensures forall t: nat :: t < turns ==> !Run(WriteConfig(), 512 * count, trace, t).done
    ensures sectors == Min(count, RoomTurns(trace, turns)) && (sectors == count <==> RoomTurns(trace, turns) >= count)
    ensures fifo.sent == buf[..128 * sectors] && none[..] == old(none[..])
    ensures ret != 0 <==> AnyErrorBit(trace(turns - 1).status1)
  {
    hide Has, And, Bit, Or, Decode, Run;
    WriteConfigFacts();
    RoomForSectors(count);
    var x;
    x, turns := SendCommand(WriteConfig(), 512 * count, fifo, none, buf, trace, n);
    sectors := x.outs;
    ret := GetError(x.error);
    SectorsSent(count, trace, turns);
    OneWay(WriteConfig(), 512 * count, trace, turns);
    ErrorExactly(WriteConfig(), 512 * count, trace, turns - 1);
    SeenBits(WriteConfig(), trace(turns - 1));
  }

  function EarlyTrace(): nat -> Sample {
    (t: nat) => Sample(0, 0, 5, 5)
  }

  /** A clean return without a single sector: the status flags the command waits for come before any data. */
  lemma CleanReturnWithoutData(count: nat)
    requires count > 0
    ensures var x := Run(ReadConfig(), 512 * count, EarlyTrace(), 1);
            x.done && GetError(x.error) == 0 && x.ins == 0 && x.left == 512 * count
  {
    hide Decode, And, Has, Bit;
    ReadConfigFacts();
    EarlyEnd(ReadConfig());
    var v := See(ReadConfig(), Sample(0, 0, 5, 5));
    assert Run(ReadConfig(), 512 * count, EarlyTrace(), 0) == Start(512 * count);
    ZeroHasNoBits(2);
    ErrorBit(0);
  }

  lemma EarlyEnd(c: Config)
    requires Flags(c) == 5
    ensures var v := See(c, Sample(0, 0, 5, 5)); !v.rxReady && !v.txFull && !v.failed && !v.busy && v.complete
  {
    AndZero(0x100);
    AndZero(0x200);
    AndZero(0x807F);
    AndZero(0x4000);
    AndSelf(5);
  }
}
