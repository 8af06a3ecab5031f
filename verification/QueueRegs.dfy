/** The register image of one split virtqueue and the transitions queue.c makes on it, on values. */
module QueueRegs {
  import opened Bits

  const VIRTQUEUE_MAX_DESC: nat := 32768

  /** One used-ring entry. */
  datatype UsedElem = UsedElem(id: u32, len: u32)

  /** One descriptor-table entry. */
  datatype Desc = Desc(addr: u64, len: u32, flags: u16, next: u16)

  datatype Queue = Queue(
    ready: bit, sizeMask: u16, availIdx: u16, usedIdx: u16,
    qDesc: u32, qAvail: u32, qUsed: u32)

  const RESET_QUEUE: Queue := Queue(0, 0, 0, 0, 0, 0, 0)

  /** Number of ring slots that the mask addresses. */
  function Size(q: Queue): (n: nat)
    ensures 1 <= n <= 0x1_0000
  {
    q.sizeMask + 1
  }

  // ---------- registers ----------

  datatype QueueReg = NumMax | NumCurrent | Ready | Notify | DescAddr | AvailAddr | UsedAddr | Unmapped

  function QueueRegOf(reg: nat): (r: QueueReg)
  {
    if reg == 0 then NumMax else if reg == 1 then NumCurrent else if reg == 2 then Ready
    else if reg == 3 then Notify else if reg == 4 then DescAddr else if reg == 5 then AvailAddr
    else if reg == 6 then UsedAddr else Unmapped
  }

  function RegRead(q: Queue, reg: nat): (r: u32) {
    match QueueRegOf(reg)
    case NumMax => VIRTQUEUE_MAX_DESC
    case NumCurrent => q.sizeMask + 1
    case Ready => q.ready
    case DescAddr => q.qDesc
    case AvailAddr => q.qAvail
    case UsedAddr => q.qUsed
    case Notify => 0
    case Unmapped => 0
  }

  predicate SizeTest(val: u32) {
    val <= VIRTQUEUE_MAX_DESC && PassesPow2Test(val)
  }

  function SetDescCount(q: Queue, val: u32): Queue {
    q.(sizeMask := MaskFor(val, SizeTest(val)))
  }

  function MaskFor(val: u32, accepted: bool): u16 {
    if accepted then (val - 1) % 0x1_0000 else 0
  }

  /** Every register write except the notification, which concerns the pending list. */
  function RegWrite(q: Queue, reg: nat, val: u32): Queue {
    match QueueRegOf(reg)
    case NumCurrent => SetDescCount(q, val)
    case Ready => if q.sizeMask > 0 then q.(ready := val % 2) else q
    case DescAddr => q.(qDesc := val)
    case AvailAddr => q.(qAvail := val)
    case UsedAddr => q.(qUsed := val)
    case NumMax => q
    case Notify => q
    case Unmapped => q
  }

  // ---------- ring operations ----------

  /** The slot the next fetch would take; -1 when the queue is not ready or looks empty. */
  function FetchIndex(q: Queue, last: u16): (r: int)
    ensures -1 <= r <= q.sizeMask
  {
    if q.ready == 0 then -1
    else if And(q.availIdx, q.sizeMask) == And(last, q.sizeMask) then -1
    else And(q.availIdx, q.sizeMask)
  }

  function AdvanceAvail(q: Queue, index: nat): Queue {
    q.(availIdx := (index + 1) % 0x1_0000)
  }

  function PushIndex(q: Queue): (r: nat)
    ensures r <= q.sizeMask
  {
    And(q.usedIdx, q.sizeMask)
  }

  function AdvanceUsed(q: Queue): Queue {
    q.(usedIdx := (PushIndex(q) + 1) % 0x1_0000)
  }

  // ---------- the size register ----------

  /** The mask is one less than a power of two, at most 2^16. */
  ghost predicate PowerSized(q: Queue) {
    exists k: nat :: k <= 16 && q.sizeMask == Pow2(k) - 1
  }

  /** Values the size register accepts: zero, or a power of two up to the maximum. */
  ghost predicate Accepted(val: u32) {
    val == 0 || (val <= VIRTQUEUE_MAX_DESC && IsPow2(val))
  }

  lemma SizeTestExact(val: u32)
    ensures SizeTest(val) <==> Accepted(val)
  {
    Pow2TestExact(val);
  }

  lemma MaskForExact(val: u32)
    ensures exists k: nat :: k <= 16 && MaskFor(val, Accepted(val)) == Pow2(k) - 1
    ensures MaskFor(val, Accepted(val)) + 1 == if !Accepted(val) then 1 else if val == 0 then 0x1_0000 else val
  {
    hide Accepted;
    var k := MaskExponent(val);
    assert MaskFor(val, Accepted(val)) == Pow2(k) - 1;
  }

  lemma MaskExponent(val: u32) returns (k: nat)
    ensures k <= 16 && MaskFor(val, Accepted(val)) == Pow2(k) - 1
    ensures MaskFor(val, Accepted(val)) + 1 == if !Accepted(val) then 1 else if val == 0 then 0x1_0000 else val
  {
    hide Pow2;
    Pow2Of16();
    OneIsPow2();
    if !Accepted(val) {
      k := 0;
    } else if val == 0 {
      k := 16;
    } else {
      k :| val == Pow2(k);
      ExponentBound(k);
    }
  }

  lemma OneIsPow2()
    ensures Pow2(0) == 1
  {
  }

  /** Size 0 passes the test and selects all 65536 slots; a rejected value selects a single slot. */
  lemma SetDescCountExact(q: Queue, val: u32)
    ensures PowerSized(SetDescCount(q, val))
    ensures RegRead(SetDescCount(q, val), 1) ==
            (if !Accepted(val) then 1 else if val == 0 then 0x1_0000 else val)
  {
    SizeTestExact(val);
    MaskForExact(val);
  }

  lemma ExponentBound(k: nat)
    requires Pow2(k) <= VIRTQUEUE_MAX_DESC
    ensures k <= 15
  {
    if k >= 16 {
      Pow2Of16();
      Pow2Monotone(16, k);
    }
  }

  lemma ResetIsPowerSized()
    ensures PowerSized(RESET_QUEUE)
  {
    hide And;
    var k: nat := 0;
    assert RESET_QUEUE.sizeMask == Pow2(k) - 1;
  }

  lemma RegWriteKeepsPowerSized(q: Queue, reg: nat, val: u32)
    requires PowerSized(q)
    ensures PowerSized(RegWrite(q, reg, val))
  {
    if QueueRegOf(reg) == NumCurrent {
      SetDescCountExact(q, val);
    } else {
      var k: nat :| k <= 16 && q.sizeMask == Pow2(k) - 1;
      assert RegWrite(q, reg, val).sizeMask == Pow2(k) - 1;
    }
  }

  /** A register write: the register number and the value. */
  datatype RegVal = RegVal(reg: nat, val: u32)

  /** The registers after the first n of the writes ws. */
  function RegWrites(q: Queue, ws: seq<RegVal>, n: nat): Queue
    requires n <= |ws|
    decreases n
  {
    if n == 0 then q else RegWrite(RegWrites(q, ws, n - 1), ws[n - 1].reg, ws[n - 1].val)
  }

  /** Sizes that leave more than one slot. */
  ghost predicate Works(val: u32) {
    Accepted(val) && val != 1
  }

  lemma MaskOfSize(q: Queue, val: u32)
    ensures SetDescCount(q, val).sizeMask > 0 <==> Works(val)
  {
    SizeTestExact(val);
    MaskForExact(val);
  }

  /** After a size write the ready flag follows what is written to it exactly when the size works. */
  lemma ReadyFollowsExactly(q: Queue, val: u32)
    ensures (forall w: u32 :: RegWrite(SetDescCount(q, val), 2, w).ready == w % 2) <==> Works(val)
  {
    hide Accepted, SizeTest, MaskFor;
    MaskOfSize(q, val);
    if !Works(val) {
      var w: u32 := 1 - q.ready;
      assert RegWrite(SetDescCount(q, val), 2, w).ready != w % 2;
    }
  }

  /** And if the queue was left ready, it can yield a job, for some published index, exactly when the size works. */
  lemma YieldsExactly(q: Queue, val: u32)
    requires q.ready != 0
    ensures (exists last: u16 :: FetchIndex(SetDescCount(q, val), last) >= 0) <==> Works(val)
  {
    hide And, Accepted, SizeTest, MaskFor;
    MaskOfSize(q, val);
    var r := SetDescCount(q, val);
    if Works(val) {
      SetDescCountExact(q, val);
      var k: nat :| k <= 16 && r.sizeMask == Pow2(k) - 1;
      var last: u16 := (r.availIdx + 1) % 0x1_0000;
      DifferentSlots(r.availIdx, k);
      AndMask(r.availIdx, k);
      AndMask(last, k);
      assert FetchIndex(r, last) >= 0;
    } else {
      forall last: u16
        ensures FetchIndex(r, last) < 0
      {
        AndZero(r.availIdx);
        AndZero(last);
      }
    }
  }

  lemma DifferentSlots(x: u16, k: nat)
    requires k <= 16 && Pow2(k) > 1
    ensures (x + 1) % 0x1_0000 % Pow2(k) != x % Pow2(k)
  {
    Mod16(x + 1, k);
    ModApart(x, x + 1, Pow2(k));
  }

  /** None of the writes sets a size that works. */
  ghost predicate NoWorkingSize(ws: seq<RegVal>) {
    forall i :: 0 <= i < |ws| && QueueRegOf(ws[i].reg) == NumCurrent ==> !Works(ws[i].val)
  }

  /**
   * After a rejected size, or size 1, and whatever is written from then on short of a size that works, the
   * queue reads back one slot, never yields a job whatever the driver publishes, and its ready flag cannot be
   * changed, not even cleared.
   */
  lemma {:induction false} RejectedSizeIsInert(q: Queue, val: u32, ws: seq<RegVal>, n: nat, last: u16)
    requires !Works(val) && NoWorkingSize(ws) && n <= |ws|
    ensures var r := RegWrites(SetDescCount(q, val), ws, n);
            && r.sizeMask == 0 && RegRead(r, 1) == 1
            && r.ready == q.ready
            && FetchIndex(r, last) == -1
    decreases n
  {
    hide Accepted, SizeTest, MaskFor;
    if n == 0 {
      MaskOfSize(q, val);
    } else {
      RejectedSizeIsInert(q, val, ws, n - 1, last);
      MaskOfSize(RegWrites(SetDescCount(q, val), ws, n - 1), ws[n - 1].val);
    }
    AndZero(RegWrites(SetDescCount(q, val), ws, n).availIdx);
    AndZero(last);
  }

  /** Out of reset, a size write and a ready write: the queue comes up exactly for sizes that work. */
  lemma SetUpExactly(val: u32, w: u32)
    ensures var q := RegWrite(RegWrite(RESET_QUEUE, 1, val), 2, w);
            && (q.ready == 1 <==> w % 2 == 1 && Works(val))
            && q.availIdx == q.usedIdx == 0
            && (q.ready == 1 ==> Size(q) == (if val == 0 then 0x1_0000 else val)
                                 && exists k: nat :: 1 <= k <= 16 && q.sizeMask == Pow2(k) - 1)
  {
    SetDescCountExact(RESET_QUEUE, val);
    var q := SetDescCount(RESET_QUEUE, val);
    var k: nat :| k <= 16 && q.sizeMask == Pow2(k) - 1;
    assert k == 0 ==> q.sizeMask == 0;
  }

  // ---------- any sequence of register writes ----------

  /** The last value written to register reg by the first n writes, or `before` if there is none. */
  function LastTo(ws: seq<RegVal>, n: nat, reg: nat, before: int): int
    requires n <= |ws|
    decreases n
  {
    if n == 0 then before else if ws[n - 1].reg == reg then ws[n - 1].val else LastTo(ws, n - 1, reg, before)
  }

  /** Number of slots after a size write, in the source's terms: 1 if rejected, 65536 for 0. */
  function SlotsFor(val: u32): nat {
    if val == 0 then 0x1_0000
    else if val <= 32768 && exists k: nat :: k <= 15 && val == Pow2(k) then val
    else 1
  }

  lemma SlotsForExact(q: Queue, val: u32)
    ensures Size(SetDescCount(q, val)) == SlotsFor(val)
  {
    SetDescCountExact(q, val);
    if val != 0 && val <= 32768 && IsPow2(val) {
      var k: nat :| val == Pow2(k);
      ExponentBound(k);
    }
  }

  /**
   * Over any sequence of writes each register follows its own: the three addresses are the last values written
   * to registers 4, 5 and 6, the size is that of the last value written to register 1, and no write moves the
   * two indices.
   */
  lemma {:induction false} FieldsFollowWrites(q: Queue, ws: seq<RegVal>, n: nat)
    requires n <= |ws|
    ensures var r := RegWrites(q, ws, n);
            && r.qDesc == LastTo(ws, n, 4, q.qDesc) && r.qAvail == LastTo(ws, n, 5, q.qAvail)
            && r.qUsed == LastTo(ws, n, 6, q.qUsed)
            && r.availIdx == q.availIdx && r.usedIdx == q.usedIdx
            && Size(r) == (var v := LastTo(ws, n, 1, -1); if 0 <= v < 0x1_0000_0000 then SlotsFor(v) else Size(q))
    decreases n
  {
    hide SizeTest, MaskFor, SlotsFor;
    if n > 0 {
      FieldsFollowWrites(q, ws, n - 1);
      SlotsForExact(RegWrites(q, ws, n - 1), ws[n - 1].val);
    }
  }

  /** The ready flag takes bit 0 of what is written to register 2 if there are then more slots than one. */
  function ReadyAfter(q: Queue, ws: seq<RegVal>, n: nat): bit
    requires n <= |ws|
    decreases n
  {
    if n == 0 then q.ready
    else
      var v := LastTo(ws, n - 1, 1, -1);
      var slots := if 0 <= v < 0x1_0000_0000 then SlotsFor(v) else Size(q);
      if ws[n - 1].reg == 2 && slots > 1 then ws[n - 1].val % 2 else ReadyAfter(q, ws, n - 1)
  }

  lemma {:induction false} ReadyFollowsWrites(q: Queue, ws: seq<RegVal>, n: nat)
    requires n <= |ws|
    ensures RegWrites(q, ws, n).ready == ReadyAfter(q, ws, n)
    decreases n
  {
    hide SizeTest, MaskFor, SlotsFor;
    if n > 0 {
      ReadyFollowsWrites(q, ws, n - 1);
      FieldsFollowWrites(q, ws, n - 1);
    }
  }

  lemma {:induction false} NoReadyWrite(q: Queue, ws: seq<RegVal>, n: nat)
    requires n <= |ws| && forall i :: 0 <= i < n ==> ws[i].reg != 2
    ensures RegWrites(q, ws, n).ready == q.ready
    decreases n
  {
    hide SizeTest, MaskFor;
    if n > 0 { NoReadyWrite(q, ws, n - 1); }
  }

  /**
   * Set-up in any order. Out of reset, after writes among which are no ready write, a size that works and the
   * three addresses, an odd ready write brings the queue up with the size and the addresses last written, both
   * indices 0; and that is what it reads back.
   */
  lemma SetUpInAnyOrder(ws: seq<RegVal>, w: u32, size: u32, desc: u32, avail: u32, used: u32)
    requires forall i :: 0 <= i < |ws| ==> ws[i].reg != 2
    requires LastTo(ws, |ws|, 1, -1) == size && SlotsFor(size) > 1 && w % 2 == 1
    requires LastTo(ws, |ws|, 4, -1) == desc && LastTo(ws, |ws|, 5, -1) == avail && LastTo(ws, |ws|, 6, -1) == used
    ensures var q := RegWrite(RegWrites(RESET_QUEUE, ws, |ws|), 2, w);
            && q.ready == 1 && Size(q) == SlotsFor(size) && q.availIdx == 0 && q.usedIdx == 0
            && q.qDesc == desc && q.qAvail == avail && q.qUsed == used
            && RegRead(q, 0) == 32768 && RegRead(q, 1) == SlotsFor(size) && RegRead(q, 2) == 1 && RegRead(q, 3) == 0
            && RegRead(q, 4) == desc && RegRead(q, 5) == avail && RegRead(q, 6) == used
            && forall reg: nat :: reg > 6 ==> RegRead(q, reg) == 0
  {
    hide SizeTest, MaskFor, SlotsFor;
    FieldsFollowWrites(RESET_QUEUE, ws, |ws|);
    NoReadyWrite(RESET_QUEUE, ws, |ws|);
    SomeWrite(ws, |ws|, 4, RESET_QUEUE.qDesc);
    SomeWrite(ws, |ws|, 5, RESET_QUEUE.qAvail);
    SomeWrite(ws, |ws|, 6, RESET_QUEUE.qUsed);
  }

  lemma {:induction false} SomeWrite(ws: seq<RegVal>, n: nat, reg: nat, before: int)
    requires n <= |ws| && LastTo(ws, n, reg, -1) >= 0
    ensures LastTo(ws, n, reg, before) == LastTo(ws, n, reg, -1)
    decreases n
  {
    if n > 0 && ws[n - 1].reg != reg { SomeWrite(ws, n - 1, reg, before); }
  }
}
