/**
 * The SD controller's transfer loop (sdmmc_send_command in hw/sdmmc.c) over arbitrary traces of the
 * status and control registers.
 */
module SdTransfer {
  import opened Bits

  // register bits
  const TMIO_STAT0_CMDRESPEND: u16 := 0x0001
  const TMIO_STAT0_DATAEND: u16 := 0x0004
  const TMIO_STAT1_CMD_BUSY: u16 := 0x4000
  const TMIO_MASK_GW: u16 := 0x807F
  const CTL32_RX_READY: u16 := 0x100
  const CTL32_TX_FULL: u16 := 0x200

  predicate Has(word: nat, mask: nat) {
    And(word, mask) != 0
  }

  /** What one turn of the loop reads: status 1, control, and status 0 twice. */
  datatype Sample = Sample(status1: u16, ctl32: u16, status0: u16, status0Again: u16)

  /** The command's direction bits, the block length register, and which buffers are set. */
  datatype Config = Config(readData: bool, writeData: bool, response: bool, blkSize: u16, rUseBuf: bool, tUseBuf: bool)

  /** Decoded from the command word, bit 16 asking for a response. */
  function Decode(cmd: u32, blkSize: u16, rUseBuf: bool, tUseBuf: bool): Config {
    Config(Has(cmd, 0x20000), Has(cmd, 0x40000), Has(cmd, 0x10000), blkSize, rUseBuf, tUseBuf)
  }

  function Flags(c: Config): u16 {
    (if c.response then 1 else 0) + (if c.readData || c.writeData then 4 else 0)
  }

  /** Words moved per block: the copy loop steps in sixteens of bytes. */
  function WordsPerBlock(blkSize: nat): nat {
    4 * ((blkSize + 15) / 16)
  }

  /** What the masks of one turn come out as. */
  datatype Seen = Seen(
    rxReady: bool, txFull: bool, failed: bool, busy: bool, responded: bool, dataEnd: bool, complete: bool)

  function See(c: Config, s: Sample): Seen {
    Seen(Has(s.ctl32, CTL32_RX_READY), Has(s.ctl32, CTL32_TX_FULL),
         Has(s.status1, TMIO_MASK_GW), Has(s.status1, TMIO_STAT1_CMD_BUSY),
         Has(s.status0Again, TMIO_STAT0_CMDRESPEND), Has(s.status0, TMIO_STAT0_DATAEND),
         And(s.status0, Flags(c)) == Flags(c))
  }

  /** Bytes left, blocks moved each way, the error word, and whether the loop has been left. */
  datatype Xfer = Xfer(left: nat, ins: nat, outs: nat, error: nat, done: bool)

  predicate TakesIn(c: Config, x: Xfer, v: Seen) {
    v.rxReady && c.readData && c.rUseBuf && x.left >= c.blkSize
  }

  predicate GivesOut(c: Config, x: Xfer, v: Seen) {
    !v.txFull && c.writeData && c.tUseBuf && x.left >= c.blkSize
  }

  function AfterIn(c: Config, x: Xfer, v: Seen): Xfer {
    if TakesIn(c, x, v) then x.(left := x.left - c.blkSize, ins := x.ins + 1) else x
  }

  function AfterOut(c: Config, x: Xfer, v: Seen): Xfer {
    if GivesOut(c, x, v) then x.(left := x.left - c.blkSize, outs := x.outs + 1) else x
  }

  function AfterStatus(x: Xfer, v: Seen): Xfer {
    if v.failed then x.(error := Or(x.error, 4), done := true)
    else if v.busy then x
    else
      var e1 := if v.responded then Or(x.error, 1) else x.error;
      var e2 := if v.dataEnd then Or(e1, 2) else e1;
      x.(error := e2, done := v.complete)
  }

  /** One turn of the loop. */
  function Turn(c: Config, x: Xfer, v: Seen): Xfer {
    AfterStatus(AfterOut(c, AfterIn(c, x, v), v), v)
  }

  function Start(size: nat): Xfer {
    Xfer(size, 0, 0, 0, false)
  }

  /** The first k turns of the loop on a trace, stopping once it is left. */
  function Run(c: Config, size: nat, trace: nat -> Sample, k: nat): (r: Xfer)
    decreases k
  {
    if k == 0 then Start(size)
    else
      var y := Run(c, size, trace, k - 1);
      if y.done then y else Turn(c, y, See(c, trace(k - 1)))
  }

  /** get_error: bit 2 of the error word, as 0 or 1. */
  function GetError(error: nat): int {
    if Bit(error, 2) then 1 else 0
  }

  // ---------- conservation ----------

  /** Blocks moved account for the size used up. */
  predicate Conserved(c: Config, size: nat, x: Xfer) {
    x.left + c.blkSize * (x.ins + x.outs) == size
  }

  lemma InConserves(c: Config, size: nat, x: Xfer, v: Seen)
    requires Conserved(c, size, x)
    ensures Conserved(c, size, AfterIn(c, x, v))
  {
    Blocks(c.blkSize, x.ins + x.outs);
  }

  lemma OutConserves(c: Config, size: nat, x: Xfer, v: Seen)
    requires Conserved(c, size, x)
    ensures Conserved(c, size, AfterOut(c, x, v))
  {
    Blocks(c.blkSize, x.ins + x.outs);
  }

  lemma {:induction false} BlocksConserved(c: Config, size: nat, trace: nat -> Sample, k: nat)
    ensures Conserved(c, size, Run(c, size, trace, k))
    decreases k
  {
    hide See, Conserved, AfterIn, AfterOut;
    if k == 0 {
      StartConserves(c, size);
    } else {
      BlocksConserved(c, size, trace, k - 1);
      var y := Run(c, size, trace, k - 1);
      if !y.done {
        var v := See(c, trace(k - 1));
        InConserves(c, size, y, v);
        OutConserves(c, size, AfterIn(c, y, v), v);
        StatusMovesNothing(c, size, AfterOut(c, AfterIn(c, y, v), v), v);
      }
    }
  }

  lemma StartConserves(c: Config, size: nat)
    ensures Conserved(c, size, Start(size))
  {
  }

  lemma Blocks(b: nat, n: nat)
    ensures b * (n + 1) == b * n + b
  {
  }

  /** With block lengths in sixteens, bytes moved and bytes remaining always add up to the request. */
  lemma BytesConserved(c: Config, size: nat, trace: nat -> Sample, k: nat)
    requires c.blkSize % 16 == 0
    ensures var x := Run(c, size, trace, k);
            4 * (WordsPerBlock(c.blkSize) * (x.ins + x.outs)) + x.left == size
  {
    hide Run;
    BlocksConserved(c, size, trace, k);
    var x := Run(c, size, trace, k);
    assert 4 * WordsPerBlock(c.blkSize) == c.blkSize;
    FourTimes(WordsPerBlock(c.blkSize), x.ins + x.outs);
  }

  lemma FourTimes(w: nat, n: nat)
    ensures 4 * (w * n) == (4 * w) * n
  {
  }

  /** The most blocks any trace can move. */
  function MaxBlocks(size: nat, blkSize: nat): nat {
    if blkSize == 0 then 0 else size / blkSize
  }

  /** Words the copy loops may touch. */
  function Capacity(size: nat, blkSize: nat): nat {
    WordsPerBlock(blkSize) * MaxBlocks(size, blkSize)
  }

  lemma NeverPastCapacity(c: Config, size: nat, trace: nat -> Sample, k: nat)
    ensures var x := Run(c, size, trace, k);
            WordsPerBlock(c.blkSize) * (x.ins + x.outs) <= Capacity(size, c.blkSize)
  {
    hide Run;
    BlocksConserved(c, size, trace, k);
    var x := Run(c, size, trace, k);
    if c.blkSize > 0 {
      AtMostQuotient(c.blkSize, x.ins + x.outs, size);
      ScaleUp(WordsPerBlock(c.blkSize), x.ins + x.outs, size / c.blkSize);
    }
  }

  lemma AtMostQuotient(b: nat, n: nat, size: nat)
    requires b > 0 && b * n <= size
    ensures n <= size / b
  {
    var q := size / b;
    assert size == b * q + size % b;
    assert b * (n - q) == b * n - b * q;
    MulGap(b, n - q);
  }

  lemma ScaleUp(w: nat, n: nat, m: nat)
    requires n <= m
    ensures w * n <= w * m
  {
    assert w * m == w * n + w * (m - n);
  }

  /** Status 1 says busy and nothing else; the control word says a block is ready. */
  const READY: Sample := Sample(0x4000, 0x100, 0, 0)

  lemma ReadyIsSeen(c: Config)
    ensures var v := See(c, READY); v.rxReady && !v.failed && v.busy
  {
    hide And, Bit, Pow2;
    ReadyBits();
    AndPow2(0x100, 8);
    AndPow2(0x4000, 14);
    AndPow2(0x807F, 14);
  }

  lemma ReadyBits()
    ensures Pow2(8) == 0x100 && Pow2(14) == 0x4000
    ensures Bit(0x100, 8) && Bit(0x4000, 14) && !Bit(0x807F, 14)
  {
    assert Pow2(8) == 0x100;
    assert Pow2(14) == 0x4000 by { Pow2Add(8, 6); assert Pow2(6) == 0x40; }
    BitPow2(8, 8);
    BitPow2(14, 14);
    Bit14OfMask();
  }

  lemma Bit14OfMask()
    requires Pow2(8) == 0x100
    ensures !Bit(0x807F, 14)
  {
    hide Bit, Pow2;
    BitStep(0x807F, 14);
    BitStep(0x403F, 13);
    BitStep(0x201F, 12);
    BitStep(0x100F, 11);
    BitStep(0x807, 10);
    BitStep(0x403, 9);
    BitStep(0x201, 8);
    BitPow2(8, 7);
  }

  lemma BitStep(x: nat, i: nat)
    requires i > 0
    ensures Bit(x, i) == Bit(x / 2, i - 1)
  {
  }

  function AlwaysReady(): nat -> Sample {
    (t: nat) => READY
  }

  /** A trace can move every block there is. */
  lemma {:induction false} EveryBlockCanMove(c: Config, size: nat, k: nat)
    requires c.readData && c.rUseBuf && !c.writeData && c.blkSize > 0 && k <= size / c.blkSize
    ensures var x := Run(c, size, AlwaysReady(), k);
            !x.done && x.left == size - c.blkSize * k && x.ins == k && x.outs == 0
    decreases k
  {
    hide See;
    if k > 0 {
      EveryBlockCanMove(c, size, k - 1);
      ReadyIsSeen(c);
      var q := size / c.blkSize;
      assert size == c.blkSize * q + size % c.blkSize;
      ScaleUp(c.blkSize, k, q);
      Blocks(c.blkSize, k - 1);
    }
  }

  /**
   * A read stays inside a buffer of the requested size on every trace exactly when rounding each block
   * up to sixteen bytes adds up to no more than the request, so always for block lengths in sixteens.
   */
  lemma StaysInBufferExactly(c: Config, size: nat)
    requires c.readData && c.rUseBuf && !c.writeData
    ensures (forall trace: nat -> Sample, k: nat ::
               4 * (WordsPerBlock(c.blkSize) * Run(c, size, trace, k).ins) <= size)
            <==> 4 * Capacity(size, c.blkSize) <= size
    ensures c.blkSize % 16 == 0 ==> 4 * Capacity(size, c.blkSize) <= size
  {
    hide Run;
    if 4 * Capacity(size, c.blkSize) <= size {
      forall trace: nat -> Sample, k: nat
        ensures 4 * (WordsPerBlock(c.blkSize) * Run(c, size, trace, k).ins) <= size
      {
        NeverPastCapacity(c, size, trace, k);
        var x := Run(c, size, trace, k);
        ScaleUp(WordsPerBlock(c.blkSize), x.ins, x.ins + x.outs);
      }
    } else {
      var n := MaxBlocks(size, c.blkSize);
      EveryBlockCanMove(c, size, n);
      var trace := AlwaysReady();
      assert 4 * (WordsPerBlock(c.blkSize) * Run(c, size, trace, n).ins) > size;
    }
    if c.blkSize % 16 == 0 && c.blkSize > 0 {
      FourTimes(WordsPerBlock(c.blkSize), size / c.blkSize);
      assert 4 * WordsPerBlock(c.blkSize) == c.blkSize;
    }
  }

  // ---------- the register bits ----------

  /** Some digit of a word among those of a mask. */
  lemma {:induction false} HasSomeBit(word: nat, mask: nat)
    ensures Has(word, mask) <==> exists i: nat :: Bit(word, i) && Bit(mask, i)
    decreases word
  {
    hide Bit;
    if word == 0 {
      forall i: nat
        ensures !Bit(word, i)
      {
        ZeroHasNoBits(i);
      }
    } else if mask == 0 {
      forall i: nat
        ensures !Bit(mask, i)
      {
        ZeroHasNoBits(i);
      }
    } else {
      HasSomeBit(word / 2, mask / 2);
      LowBit(word);
      LowBit(mask);
      if i: nat :| Bit(word / 2, i) && Bit(mask / 2, i) {
        UpperBit(word, i);
        UpperBit(mask, i);
      }
      if i: nat :| Bit(word, i) && Bit(mask, i) {
        if i > 0 {
          UpperBit(word, i - 1);
          UpperBit(mask, i - 1);
        }
      }
    }
  }

  lemma LowBit(x: nat)
    ensures Bit(x, 0) == (x % 2 == 1)
  {
  }

  lemma UpperBit(x: nat, i: nat)
    ensures Bit(x, i + 1) == Bit(x / 2, i)
  {
  }

  /** One of the error bits of status 1 is set. */
  ghost predicate AnyErrorBit(status1: u16) {
    exists i: nat :: Bit(status1, i) && (i <= 6 || i == 15)
  }

  /**
   * What a turn looks at: bit 8 and bit 9 of the control word, the error bits 0 to 6 and 15 and the busy bit 14
   * of status 1, and bits 0 and 2 of status 0, the first of them at its second reading.
   */
  lemma SeenBits(c: Config, s: Sample)
    ensures See(c, s).rxReady == Bit(s.ctl32, 8) && See(c, s).txFull == Bit(s.ctl32, 9)
    ensures See(c, s).busy == Bit(s.status1, 14)
    ensures See(c, s).responded == Bit(s.status0Again, 0) && See(c, s).dataEnd == Bit(s.status0, 2)
    ensures See(c, s).failed == AnyErrorBit(s.status1)
  {
    hide And, Bit, Pow2;
    SmallMasks();
    AndPow2(s.ctl32, 8);
    AndPow2(s.ctl32, 9);
    AndPow2(s.status1, 14);
    AndPow2(s.status0Again, 0);
    AndPow2(s.status0, 2);
    FailedBits(s.status1);
  }

  lemma FailedBits(status1: u16)
    ensures Has(status1, TMIO_MASK_GW) == AnyErrorBit(status1)
  {
    hide Bit, Has;
    HasSomeBit(status1, TMIO_MASK_GW);
    if Has(status1, TMIO_MASK_GW) {
      var i: nat :| Bit(status1, i) && Bit(TMIO_MASK_GW, i);
      ErrorMaskBits(i);
    }
    if AnyErrorBit(status1) {
      var i: nat :| Bit(status1, i) && (i <= 6 || i == 15);
      ErrorMaskBits(i);
    }
  }

  /** A sector command waits for both of these bits. */
  lemma CompleteBits(c: Config, s: Sample)
    requires Flags(c) == 5
    ensures See(c, s).complete <==> Bit(s.status0, 0) && Bit(s.status0, 2)
  {
    hide And, Bit;
    var x := s.status0;
    LowBit(x);
    UpperBit(x, 1);
    UpperBit(x / 2, 0);
    LowBit(x / 2 / 2);
    AndStep(x, 5);
    AndStep(x / 2, 2);
    AndStep(x / 2 / 2, 1);
    AndZero(x / 2 / 2 / 2);
  }

  lemma SmallMasks()
    ensures Pow2(8) == 0x100 && Pow2(9) == 0x200 && Pow2(14) == 0x4000 && Pow2(0) == 1 && Pow2(2) == 4
  {
    ReadyBits();
    assert Pow2(9) == 2 * Pow2(8);
    assert Pow2(2) == 4;
  }

  lemma {:induction false} ErrorMaskBits(i: nat)
    ensures Bit(0x807F, i) <==> i <= 6 || i == 15
  {
    hide Bit;
    if i <= 6 {
      LowOnes(i);
    } else {
      DropSeven(i);
      BitPow2(8, i - 7);
      assert Pow2(8) == 0x100;
    }
  }

  lemma LowOnes(i: nat)
    requires i <= 6
    ensures Bit(0x807F, i)
  {
    assert Bit(0x807F, 0) && Bit(0x807F, 1) && Bit(0x807F, 2) && Bit(0x807F, 3);
    assert Bit(0x807F, 4) && Bit(0x807F, 5) && Bit(0x807F, 6);
  }

  lemma DropSeven(i: nat)
    requires i > 6
    ensures Bit(0x807F, i) == Bit(0x100, i - 7)
  {
    hide Bit;
    UpperBit(0x807F, i - 1);
    UpperBit(0x403F, i - 2);
    UpperBit(0x201F, i - 3);
    UpperBit(0x100F, i - 4);
    UpperBit(0x807, i - 5);
    UpperBit(0x403, i - 6);
    UpperBit(0x201, i - 7);
  }

  // ---------- how the loop was left ----------

  /** The error word carries only bits 0 and 1 while the loop runs. */
  lemma {:induction false} NoErrorWhileRunning(c: Config, size: nat, trace: nat -> Sample, k: nat)
    requires !Run(c, size, trace, k).done
    ensures !Bit(Run(c, size, trace, k).error, 2)
    decreases k
  {
    hide See, Bit, Or;
    if k == 0 {
      ZeroHasNoBits(2);
    } else {
      NoErrorWhileRunning(c, size, trace, k - 1);
      ErrorBit(Run(c, size, trace, k - 1).error);
    }
  }

  /** A turn that looks at status 0: no error seen and the controller not busy. */
  predicate Checks(c: Config, s: Sample) {
    !See(c, s).failed && !See(c, s).busy
  }

  /** The other two bits of the error word: whether a turn so far saw the response, and the end of the data. */
  lemma {:induction false} ErrorWordExactly(c: Config, size: nat, trace: nat -> Sample, k: nat)
    requires forall t: nat :: t < k ==> !Run(c, size, trace, t).done
    ensures Bit(Run(c, size, trace, k).error, 0) <==>
            exists t: nat :: t < k && Checks(c, trace(t)) && Bit(trace(t).status0Again, 0)
    ensures Bit(Run(c, size, trace, k).error, 1) <==>
            exists t: nat :: t < k && Checks(c, trace(t)) && Bit(trace(t).status0, 2)
    decreases k
  {
    hide See, Bit, Or, AfterIn, AfterOut;
    ZeroHasNoBits(0);
    ZeroHasNoBits(1);
    if k > 0 {
      ErrorWordExactly(c, size, trace, k - 1);
      SeenBits(c, trace(k - 1));
      var y, v := Run(c, size, trace, k - 1), See(c, trace(k - 1));
      ErrorUntouched(c, y, v);
      StatusBits(AfterOut(c, AfterIn(c, y, v), v), v);
    }
  }

  lemma ErrorUntouched(c: Config, x: Xfer, v: Seen)
    ensures AfterOut(c, AfterIn(c, x, v), v).error == x.error
  {
  }

  lemma StatusBits(x: Xfer, v: Seen)
    ensures Bit(AfterStatus(x, v).error, 0) == (Bit(x.error, 0) || (!v.failed && !v.busy && v.responded))
    ensures Bit(AfterStatus(x, v).error, 1) == (Bit(x.error, 1) || (!v.failed && !v.busy && v.dataEnd))
  {
    var e1 := if v.responded then Or(x.error, 1) else x.error;
    assert Bit(1, 0) && !Bit(1, 1) && !Bit(2, 0) && Bit(2, 1) && !Bit(4, 0) && !Bit(4, 1);
    BitOr(x.error, 4, 0);
    BitOr(x.error, 4, 1);
    BitOr(x.error, 1, 0);
    BitOr(x.error, 1, 1);
    BitOr(e1, 2, 0);
    BitOr(e1, 2, 1);
  }

  lemma ErrorBit(e: nat)
    ensures Bit(Or(e, 4), 2)
    ensures Bit(Or(e, 1), 2) == Bit(e, 2) && Bit(Or(e, 2), 2) == Bit(e, 2)
    ensures Bit(Or(Or(e, 1), 2), 2) == Bit(e, 2)
  {
    assert Bit(4, 2) && !Bit(1, 2) && !Bit(2, 2);
    BitOr(e, 4, 2);
    BitOr(e, 1, 2);
    BitOr(e, 2, 2);
    BitOr(Or(e, 1), 2, 2);
  }

  /**
   * When the loop has been left, get_error is nonzero exactly when the turn that left it met the error
   * mask; otherwise that turn saw every status flag the command waits for.
   */
  lemma ErrorExactly(c: Config, size: nat, trace: nat -> Sample, k: nat)
    requires !Run(c, size, trace, k).done && Run(c, size, trace, k + 1).done
    ensures GetError(Run(c, size, trace, k + 1).error) != 0 <==> Has(trace(k).status1, TMIO_MASK_GW)
    ensures !Has(trace(k).status1, TMIO_MASK_GW) ==> And(trace(k).status0, Flags(c)) == Flags(c)
  {
    hide Bit, Or, And;
    NoErrorWhileRunning(c, size, trace, k);
    ErrorBit(Run(c, size, trace, k).error);
  }

  // ---------- the sector commands ----------

  lemma CommandBits(cmd: u32)
    ensures Has(cmd, 0x10000) == Bit(cmd / 0x1_0000, 0)
    ensures Has(cmd, 0x20000) == Bit(cmd / 0x1_0000, 1)
    ensures Has(cmd, 0x40000) == Bit(cmd / 0x1_0000, 2)
  {
    hide And, Bit, Pow2, Shr;
    Shr16(cmd);
    CommandMasks();
    AndPow2(cmd, 16);
    AndPow2(cmd, 17);
    AndPow2(cmd, 18);
    BitAbove(cmd, 16, 0);
    BitAbove(cmd, 16, 1);
    BitAbove(cmd, 16, 2);
  }

  lemma CommandMasks()
    ensures Pow2(16) == 0x10000 && Pow2(17) == 0x20000 && Pow2(18) == 0x40000
  {
    Pow2Of16();
    Pow2Add(16, 1);
    Pow2Add(16, 2);
    assert Pow2(1) == 2 && Pow2(2) == 4;
  }

  /** The multi-sector read and write commands move data one way only and wait for response and data end. */
  lemma SectorCommands(blkSize: u16, r: bool, t: bool)
    ensures var c := Decode(0x33C12, blkSize, r, t); c.readData && !c.writeData && Flags(c) == 5
    ensures var c := Decode(0x52C19, blkSize, r, t); c.writeData && !c.readData && Flags(c) == 5
  {
    hide And;
    CommandBits(0x33C12);
    CommandBits(0x52C19);
    assert Bit(3, 0) && Bit(3, 1) && !Bit(3, 2);
    assert Bit(5, 0) && !Bit(5, 1) && Bit(5, 2);
  }

  /** A sector transfer with nothing left over has moved every word of the request, one way. */
  lemma NothingLeftMeansAllMoved(c: Config, sectors: nat, trace: nat -> Sample, k: nat)
    requires c.blkSize == 512 && c.readData != c.writeData
    ensures var x := Run(c, 512 * sectors, trace, k);
            && (x.left == 0 <==> x.ins + x.outs == sectors)
            && (c.readData ==> x.outs == 0) && (c.writeData ==> x.ins == 0)
            && WordsPerBlock(512) == 128
  {
    BlocksConserved(c, 512 * sectors, trace, k);
    OneWay(c, 512 * sectors, trace, k);
  }

  lemma {:induction false} OneWay(c: Config, size: nat, trace: nat -> Sample, k: nat)
    ensures !c.writeData || !c.tUseBuf ==> Run(c, size, trace, k).outs == 0
    ensures !c.readData || !c.rUseBuf ==> Run(c, size, trace, k).ins == 0
    decreases k
  {
    hide See;
    if k > 0 { OneWay(c, size, trace, k - 1); }
  }

  // ---------- the loop over buffers ----------

  /** The controller's receive FIFO: the n-th word read is fifo(n); words sent are logged. */
  class Fifo {
    const incoming: nat -> u32
    var taken: nat
    var sent: seq<u32>

    constructor (words: nat -> u32)
      ensures incoming == words && taken == 0 && sent == []
    {
      incoming, taken, sent := words, 0, [];
    }

    /** One block into the buffer: the copy loop goes round once per sixteen bytes or part of them. */
    method ReadBlock(buf: array<u32>, at: nat, blkSize: u16)
      requires at + WordsPerBlock(blkSize) <= buf.Length && taken == at
      modifies this`taken, buf
      ensures taken == old(taken) + WordsPerBlock(blkSize)
      ensures forall i :: 0 <= i < buf.Length ==>
                buf[i] == if at <= i < taken then incoming(i) else old(buf[i])
    {
      var i := 0;
      while i < blkSize
        invariant i % 16 == 0 && i < blkSize + 16
        invariant taken == at + i / 4
        invariant forall j :: 0 <= j < buf.Length ==>
                    buf[j] == if at <= j < taken then incoming(j) else old(buf[j])
        decreases blkSize - i
      {
        buf[taken], buf[taken + 1], buf[taken + 2], buf[taken + 3] :=
          incoming(taken), incoming(taken + 1), incoming(taken + 2), incoming(taken + 3);
        taken := taken + 4;
        i := i + 16;
      }
    }

    method WriteBlock(buf: array<u32>, at: nat, blkSize: u16)
      requires at + WordsPerBlock(blkSize) <= buf.Length
      modifies this`sent
      ensures sent == old(sent) + buf[at..at + WordsPerBlock(blkSize)]
    {
      var i := 0;
      ghost var n := 0;
      while i < blkSize
        invariant i == 4 * n && n % 4 == 0 && i < blkSize + 16
        invariant sent == old(sent) + buf[at..at + n]
        decreases blkSize - i
      {
        var p := at + i / 4;
        sent := sent + [buf[p], buf[p + 1], buf[p + 2], buf[p + 3]];
        assert buf[at..at + n + 4] == buf[at..at + n] + [buf[p], buf[p + 1], buf[p + 2], buf[p + 3]];
        i, n := i + 16, n + 4;
      }
    }
  }

  /** There is room for one more block in a buffer of the given capacity. */
  lemma RoomForBlock(c: Config, size: nat, x: Xfer, n: nat)
    requires Conserved(c, size, x) && x.left >= c.blkSize && n <= x.ins + x.outs
    ensures WordsPerBlock(c.blkSize) * n + WordsPerBlock(c.blkSize) <= Capacity(size, c.blkSize)
  {
    var w := WordsPerBlock(c.blkSize);
    if c.blkSize > 0 {
      Blocks(c.blkSize, x.ins + x.outs);
      AtMostQuotient(c.blkSize, x.ins + x.outs + 1, size);
      Blocks(w, n);
      ScaleUp(w, n + 1, size / c.blkSize);
    }
  }

  /** What the two buffers and the FIFO hold after the blocks of x have been moved. */
  ghost predicate Moved(c: Config, x: Xfer, fifo: Fifo, rbuf: array<u32>, before: seq<u32>, tbuf: array<u32>)
    reads fifo, rbuf, tbuf
  {
    var n, m := WordsPerBlock(c.blkSize) * x.ins, WordsPerBlock(c.blkSize) * x.outs;
    && fifo.taken == n <= rbuf.Length == |before| && m <= tbuf.Length
    && (forall i :: 0 <= i < rbuf.Length ==> rbuf[i] == if i < n then fifo.incoming(i) else before[i])
    && fifo.sent == tbuf[..m]
  }

  method MoveIn(c: Config, size: nat, x: Xfer, v: Seen, fifo: Fifo, rbuf: array<u32>, ghost before: seq<u32>,
                tbuf: array<u32>)
    returns (y: Xfer)
    requires rbuf != tbuf && Conserved(c, size, x) && Moved(c, x, fifo, rbuf, before, tbuf)
    requires c.rUseBuf ==> Capacity(size, c.blkSize) <= rbuf.Length
    modifies fifo`taken, rbuf
    ensures y == AfterIn(c, x, v) && Conserved(c, size, y) && Moved(c, y, fifo, rbuf, before, tbuf)
  {
    hide Capacity;
    InConserves(c, size, x, v);
    Blocks(WordsPerBlock(c.blkSize), x.ins);
    y := AfterIn(c, x, v);
    if TakesIn(c, x, v) {
      RoomForBlock(c, size, x, x.ins);
      fifo.ReadBlock(rbuf, WordsPerBlock(c.blkSize) * x.ins, c.blkSize);
    }
  }

  method MoveOut(c: Config, size: nat, x: Xfer, v: Seen, fifo: Fifo, rbuf: array<u32>, ghost before: seq<u32>,
                 tbuf: array<u32>)
    returns (y: Xfer)
    requires rbuf != tbuf && Conserved(c, size, x) && Moved(c, x, fifo, rbuf, before, tbuf)
    requires c.tUseBuf ==> Capacity(size, c.blkSize) <= tbuf.Length
    modifies fifo`sent
    ensures y == AfterOut(c, x, v) && Conserved(c, size, y) && Moved(c, y, fifo, rbuf, before, tbuf)
  {
    hide Capacity;
    OutConserves(c, size, x, v);
    Blocks(WordsPerBlock(c.blkSize), x.outs);
    y := AfterOut(c, x, v);
    if GivesOut(c, x, v) {
      RoomForBlock(c, size, x, x.outs);
      fifo.WriteBlock(tbuf, WordsPerBlock(c.blkSize) * x.outs, c.blkSize);
    }
  }

  /** The loop is left for good. */
  lemma {:induction false} DoneStays(c: Config, size: nat, trace: nat -> Sample, i: nat, k: nat)
    requires i <= k && Run(c, size, trace, i).done
    ensures Run(c, size, trace, k).done
    decreases k
  {
    hide See;
    if i < k { DoneStays(c, size, trace, i, k - 1); }
  }

  /**
   * sdmmc_send_command from its loop on. An empty buffer stands for a NULL pointer. If some turn n leaves the
   * loop, as it needs to end, the first such turn ends it: the words read are the FIFO's first words in order,
   * those written are the buffer's first words in order, and the counters are those of the trace.
   */
  method SendCommand(c: Config, size: nat, fifo: Fifo, rbuf: array<u32>, tbuf: array<u32>, trace: nat -> Sample,
                     ghost n: nat)
    returns (x: Xfer, ghost turns: nat)
    requires fifo.taken == 0 && fifo.sent == [] && rbuf != tbuf && Run(c, size, trace, n).done
    requires c.rUseBuf ==> Capacity(size, c.blkSize) <= rbuf.Length
    requires c.tUseBuf ==> Capacity(size, c.blkSize) <= tbuf.Length
    modifies fifo, rbuf
    ensures 0 < turns <= n && x == Run(c, size, trace, turns) && x.done
    ensures forall t: nat :: t < turns ==> !Run(c, size, trace, t).done
    ensures Moved(c, x, fifo, rbuf, old(rbuf[..]), tbuf)
  {
    hide See, Capacity, Conserved, AfterIn, AfterOut, AfterStatus, Moved;
    StartConserves(c, size);
    StartMoved(c, size, fifo, rbuf, tbuf);
    var turn := 0;
    x, turns := Start(size), 0;
    while !x.done
      invariant turns == turn <= n && x == Run(c, size, trace, turns) && Conserved(c, size, x)
      invariant forall t: nat :: t < turns ==> !Run(c, size, trace, t).done
      invariant Moved(c, x, fifo, rbuf, old(rbuf[..]), tbuf)
      decreases n - turns
    {
      if turns == n { assert false; }
      var v := See(c, trace(turn));
      var y := MoveIn(c, size, x, v, fifo, rbuf, old(rbuf[..]), tbuf);
      var z := MoveOut(c, size, y, v, fifo, rbuf, old(rbuf[..]), tbuf);
      StatusMovesNothing(c, size, z, v);
      StatusKeepsMoved(c, z, v, fifo, rbuf, old(rbuf[..]), tbuf);
      x := AfterStatus(z, v);
      turn, turns := turn + 1, turns + 1;
    }
  }

  lemma StartMoved(c: Config, size: nat, fifo: Fifo, rbuf: array<u32>, tbuf: array<u32>)
    requires fifo.taken == 0 && fifo.sent == []
    ensures Moved(c, Start(size), fifo, rbuf, rbuf[..], tbuf)
  {
  }

  lemma StatusKeepsMoved(c: Config, x: Xfer, v: Seen, fifo: Fifo, rbuf: array<u32>, before: seq<u32>, tbuf: array<u32>)
    requires Moved(c, x, fifo, rbuf, before, tbuf)
    ensures Moved(c, AfterStatus(x, v), fifo, rbuf, before, tbuf)
  {
  }

  lemma StatusMovesNothing(c: Config, size: nat, x: Xfer, v: Seen)
    ensures var y := AfterStatus(x, v); y.ins == x.ins && y.outs == x.outs && y.left == x.left
    ensures Conserved(c, size, x) ==> Conserved(c, size, AfterStatus(x, v))
  {
  }
}
