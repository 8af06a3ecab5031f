/**
 * The registers in the numbers that the guest uses: packed addresses, what they read, what writes to them do to
 * a queue, and what reading the interrupt banks tells the guest about services finished.
 */
module GuestView {
  import opened Bits
  import opened QueueRegs
  import opened VirtIrqs
  import opened Machine

  // ---------- what a register reads ----------

  /** Device registers are packed as 4 * number: class, vendor, status, features of both sides, generation. */
  lemma DeviceRegistersRead(m: Machine, dev: nat, number: nat)
    requires Shaped(m.virqs) && dev < |m.devs| && 4 * number < 0x1_0000_0000
    ensures var d := m.devs[dev];
            && ReadReg(m, dev, 4 * number).0 == m
            && ReadReg(m, dev, 4 * number).1 ==
               (if number == 0 then d.devId else if number == 1 then 0x464C_4F57 else if number == 2 then d.status
                else if number == 3 then d.featLo else if number == 4 then d.featHi
                else if number == 5 then d.driverLo else if number == 6 then d.driverHi
                else if number == 7 then d.cfg else 0)
  {
    hide And, Shr;
    Unpacked(4 * number);
  }

  /** Byte `offset` of the configuration space is packed as 4 * offset + 1. */
  lemma ConfigBytesRead(m: Machine, dev: nat, offset: nat)
    requires Shaped(m.virqs) && dev < |m.devs| && 4 * offset + 1 < 0x1_0000_0000
    ensures ReadReg(m, dev, 4 * offset + 1) ==
            (m, match m.devs[dev].config
                case Stub => 0
                case Bytes(bs) => if offset < |bs| then bs[offset] else 255)
  {
    hide And, Shr;
    Unpacked(4 * offset + 1);
  }

  /** Register r of queue q is packed as 4 * (q + 128 * r) + 2. */
  lemma QueueRegistersRead(m: Machine, dev: nat, q: nat, r: nat)
    requires Shaped(m.virqs) && dev < |m.devs| && q < 0x80 && 4 * (q + 0x80 * r) + 2 < 0x1_0000_0000
    ensures ReadReg(m, dev, 4 * (q + 0x80 * r) + 2) ==
            (m, if q >= |m.devs[dev].vqs| then 0
                else
                  var vq := m.devs[dev].vqs[q];
                  if r == 0 then 32768 else if r == 1 then Size(vq) else if r == 2 then vq.ready
                  else if r == 4 then vq.qDesc else if r == 5 then vq.qAvail else if r == 6 then vq.qUsed else 0)
  {
    hide And, Shr;
    QueuePacked(q, r);
  }

  lemma QueuePacked(q: nat, r: nat)
    requires q < 0x80 && 4 * (q + 0x80 * r) + 2 < 0x1_0000_0000
    ensures var reg := 4 * (q + 0x80 * r) + 2;
            TypeOf(reg) == QueueReg && QueueNumberOf(reg) == q && QueueRegNumberOf(reg) == r
  {
    hide And, Shr;
    Unpacked(4 * (q + 0x80 * r) + 2);
  }

  /** The manager's version and device count are packed as 3 and 7; devices that do not exist read 0. */
  lemma ManagerRegistersRead(m: Machine, dev: nat, reg: u32)
    requires Shaped(m.virqs)
    ensures ReadReg(m, dev, 3) == (m, 1) && ReadReg(m, dev, 7) == (m, |m.devs| % 0x1_0000_0000)
    ensures reg % 4 == 3 && reg > 7 && !(35 <= reg <= 63) ==> ReadReg(m, dev, reg) == (m, 0)
    ensures reg % 4 != 3 && dev >= |m.devs| ==> ReadReg(m, dev, reg) == (m, 0)
  {
    hide And, Shr;
    Unpacked(3);
    Unpacked(7);
    Unpacked(reg);
  }

  /** Class, vendor, offered features, generation and configuration space are not the guest's to change. */
  lemma {:induction false} FixedStayFixed(m: Machine, ws: seq<Write>, n: nat, d: nat)
    requires n <= |ws| && d < |m.devs|
    ensures var m' := After(m, ws, n);
            && |m'.devs| == |m.devs|
            && m'.devs[d].devId == m.devs[d].devId && m'.devs[d].cfg == m.devs[d].cfg
            && m'.devs[d].featLo == m.devs[d].featLo && m'.devs[d].featHi == m.devs[d].featHi
            && m'.devs[d].config == m.devs[d].config
    decreases n
  {
    hide And, Shr, RegWrite;
    if n > 0 { FixedStayFixed(m, ws, n - 1, d); }
  }

  /** The last value that the first n writes put to packed register reg of device d, or `before` if none did. */
  function LastPut(ws: seq<Write>, n: nat, d: nat, reg: nat, before: nat): nat
    requires n <= |ws|
    decreases n
  {
    if n == 0 then before
    else if ws[n - 1].dev == d && ws[n - 1].reg == reg then ws[n - 1].val
    else LastPut(ws, n - 1, d, reg, before)
  }

  /** Status, of 16 bits, and the driver's features are what was last put to packed registers 8, 20 and 24. */
  lemma {:induction false} DeviceFollowsItsWrites(m: Machine, ws: seq<Write>, n: nat, d: nat)
    requires n <= |ws| && d < |m.devs|
    ensures var m' := After(m, ws, n);
            && d < |m'.devs|
            && m'.devs[d].status == LastPut(ws, n, d, 8, m.devs[d].status) % 0x1_0000
            && m'.devs[d].driverLo == LastPut(ws, n, d, 20, m.devs[d].driverLo)
            && m'.devs[d].driverHi == LastPut(ws, n, d, 24, m.devs[d].driverHi)
    decreases n
  {
    hide And, Shr, RegWrite;
    if n > 0 {
      DeviceFollowsItsWrites(m, ws, n - 1, d);
      Unpacked(ws[n - 1].reg);
    }
  }

  // ---------- what writes do to a queue ----------

  /** Those of the first n writes that address queue q of device d, with the queue register each means. */
  function WritesTo(ws: seq<Write>, n: nat, d: nat, q: nat): (own: seq<RegVal>)
    requires n <= |ws|
    decreases n
  {
    if n == 0 then []
    else
      var w := ws[n - 1];
      WritesTo(ws, n - 1, d, q)
      + if w.dev == d && w.reg % 4 == 2 && w.reg / 4 % 0x80 == q then [RegVal(w.reg / 4 / 0x80, w.val)] else []
  }

  lemma {:induction false} RegWritesAppend(q: Queue, own: seq<RegVal>, more: seq<RegVal>, n: nat)
    requires n <= |own|
    ensures RegWrites(q, own + more, n) == RegWrites(q, own, n)
    decreases n
  {
    hide RegWrite;
    if n > 0 { RegWritesAppend(q, own, more, n - 1); }
  }

  /** A queue is as its own writes, in order, leave it, whatever else is written in between. */
  lemma {:induction false} QueueFollowsItsWrites(m: Machine, ws: seq<Write>, n: nat, d: nat, q: nat)
    requires n <= |ws| && d < |m.devs| && q < |m.devs[d].vqs| && q < 0x80
    ensures var m', own := After(m, ws, n), WritesTo(ws, n, d, q);
            && d < |m'.devs| && |m'.devs[d].vqs| == |m.devs[d].vqs|
            && m'.devs[d].vqs[q] == RegWrites(m.devs[d].vqs[q], own, |own|)
    decreases n
  {
    hide And, Shr, RegWrite;
    if n > 0 {
      QueueFollowsItsWrites(m, ws, n - 1, d, q);
      var w, own := ws[n - 1], WritesTo(ws, n - 1, d, q);
      Unpacked(w.reg);
      if w.dev == d && w.reg % 4 == 2 && w.reg / 4 % 0x80 == q {
        var last := RegVal(w.reg / 4 / 0x80, w.val);
        RegWritesAppend(m.devs[d].vqs[q], own, [last], |own|);
        assert (own + [last])[|own|] == last;
      } else {
        assert own + [] == own;
      }
    }
  }

  /**
   * A guest's set-up: from a reset queue, whatever it writes elsewhere in between and in whatever order it writes
   * size and addresses, an odd write to ready brings the queue up with that size and those addresses.
   */
  lemma GuestSetsUp(m: Machine, ws: seq<Write>, d: nat, q: nat, w: u32, size: u32, desc: u32, avail: u32, used: u32)
    requires d < |m.devs| && q < |m.devs[d].vqs| && q < 0x80 && m.devs[d].vqs[q] == RESET_QUEUE
    requires var own := WritesTo(ws, |ws|, d, q);
             && (forall i :: 0 <= i < |own| ==> own[i].reg != 2)
             && LastTo(own, |own|, 1, -1) == size && SlotsFor(size) > 1 && w % 2 == 1
             && LastTo(own, |own|, 4, -1) == desc && LastTo(own, |own|, 5, -1) == avail
             && LastTo(own, |own|, 6, -1) == used
    ensures var m' := WriteReg(After(m, ws, |ws|), d, 4 * (q + 0x80 * 2) + 2, w);
            && d < |m'.devs| && q < |m'.devs[d].vqs|
            && var vq := m'.devs[d].vqs[q];
               && vq.ready == 1 && Size(vq) == SlotsFor(size) && vq.availIdx == 0 && vq.usedIdx == 0
               && vq.qDesc == desc && vq.qAvail == avail && vq.qUsed == used
  {
    hide And, Shr, RegWrite, SlotsFor;
    QueueFollowsItsWrites(m, ws, |ws|, d, q);
    QueuePacked(q, 2);
    SetUpInAnyOrder(WritesTo(ws, |ws|, d, q), w, size, desc, avail, used);
  }

  // ---------- what the guest learns of services ----------

  /** A service of device d that finishes; a read or a write by the guest. */
  datatype Op = Finish(d: nat) | Look(dev: nat, reg: u32) | Put(dev: nat, reg: u32, val: u32)

  /** What ProcessPending, ReadReg and WriteReg do to the interrupts, the last of them nothing. */
  ghost function Done(m: Machine, op: Op): (m': Machine)
    requires Shaped(m.virqs)
    ensures Shaped(m'.virqs)
  {
    match op
    case Finish(d) => m.(virqs := SyncVirq(SetVirq(m.virqs, d, VIRQ_VQUEUE)))
    case Look(dev, reg) => ReadReg(m, dev, reg).0
    case Put(dev, reg, val) => WriteReg(m, dev, reg, val)
  }

  ghost function AfterOps(m: Machine, ops: seq<Op>, n: nat): (m': Machine)
    requires Shaped(m.virqs) && n <= |ops|
    ensures Shaped(m'.virqs)
    decreases n
  {
    if n == 0 then m else Done(AfterOps(m, ops, n - 1), ops[n - 1])
  }

  /** A read of bank b of the queue interrupts: packed register 35, 39, 43 or 47, whatever the device field. */
  predicate LooksAt(op: Op, b: nat) {
    op.Look? && op.reg == 4 * (8 + b) + 3
  }

  /** A service of device d has finished among the first n operations, and its bank has not been read since. */
  ghost predicate Untold(ops: seq<Op>, n: nat, d: nat)
    requires n <= |ops|
  {
    exists i :: 0 <= i < n && ops[i] == Finish(d) && forall j :: i < j < n ==> !LooksAt(ops[j], d / 32)
  }

  lemma UntoldNext(ops: seq<Op>, n: nat, d: nat)
    requires 0 < n <= |ops|
    ensures Untold(ops, n, d) <==>
            ops[n - 1] == Finish(d) || (Untold(ops, n - 1, d) && !LooksAt(ops[n - 1], d / 32))
  {
  }

  /** One operation: a service adds its device's digit, a read of the bank clears it, nothing else touches it. */
  lemma OneOp(m: Machine, op: Op, b: nat, t: nat)
    requires Shaped(m.virqs) && b < 4 && t < 32
    ensures Bit(Done(m, op).virqs.banks[0][b], t) <==>
            op == Finish(32 * b + t) || (Bit(m.virqs.banks[0][b], t) && !LooksAt(op, b))
    ensures m.virqs.banks[1][b] == 0 ==> Done(m, op).virqs.banks[1][b] == 0
  {
    hide And, Shr, Bit, WriteReg, SetVirq;
    ZeroHasNoBits(t);
    match op
    case Finish(d) =>
      SetVirqExactly(m.virqs, d, VIRQ_VQUEUE, b, 0, t);
      OtherModeKept(m.virqs, d, b);
    case Look(dev, reg) => Unpacked(reg);
    case Put(dev, reg, val) =>
  }

  lemma OtherModeKept(v: Virqs, d: nat, b: nat)
    requires Shaped(v) && b < 4
    ensures SetVirq(v, d, VIRQ_VQUEUE).banks[1][b] == v.banks[1][b]
  {
  }

  /** From reset on, the bit of device d is set in its bank exactly when a service of it is still untold. */
  lemma {:induction false} BankFollowsServices(m: Machine, ops: seq<Op>, n: nat, b: nat, t: nat)
    requires m.virqs == RESET_VIRQS && n <= |ops| && b < 4 && t < 32
    ensures Shaped(m.virqs)
    ensures Bit(AfterOps(m, ops, n).virqs.banks[0][b], t) <==> Untold(ops, n, 32 * b + t)
    ensures AfterOps(m, ops, n).virqs.banks[1][b] == 0
    decreases n
  {
    hide Bit, Done, Untold;
    if n == 0 {
      ZeroHasNoBits(t);
      NothingYet(ops, 32 * b + t);
    } else {
      BankFollowsServices(m, ops, n - 1, b, t);
      OneOp(AfterOps(m, ops, n - 1), ops[n - 1], b, t);
      UntoldNext(ops, n, 32 * b + t);
      assert (32 * b + t) / 32 == b;
    }
  }

  lemma NothingYet(ops: seq<Op>, d: nat)
    ensures !Untold(ops, 0, d)
  {
  }

  /**
   * What the guest is told. Over any run of services, reads and writes from reset on, the reply to a read of bank
   * b has bit t exactly when a service of device 32 * b + t has finished since that bank was last read; a bit not
   * handed out yet is still in its bank; and the banks of the configuration interrupts read 0.
   */
  lemma GuestIsTold(m: Machine, ops: seq<Op>, n: nat, dev: nat, b: nat, t: nat)
    requires m.virqs == RESET_VIRQS && n <= |ops| && b < 4 && t < 32
    ensures Shaped(m.virqs)
    ensures Bit(ReadReg(AfterOps(m, ops, n), dev, 4 * (8 + b) + 3).1, t) <==> Untold(ops, n, 32 * b + t)
    ensures ReadReg(AfterOps(m, ops, n), dev, 4 * (12 + b) + 3).1 == 0
    ensures Bit(AfterOps(m, ops, n).virqs.banks[0][b], t) <==> Untold(ops, n, 32 * b + t)
  {
    hide And, Shr, Bit, Untold, AfterOps;
    BankFollowsServices(m, ops, n, b, t);
    Unpacked(4 * (8 + b) + 3);
    Unpacked(4 * (12 + b) + 3);
  }

  /**
   * Right after a service of device d the guest's read of its bank has the device's bit, leaves that bank 0, and
   * leaves every other bank of both modes as it was.
   */
  lemma ServiceIsTold(m: Machine, d: nat, dev: nat, b: nat, mode: nat)
    requires Shaped(m.virqs) && d < 128 && InRange(b, mode)
    ensures var m1 := m.(virqs := SyncVirq(SetVirq(m.virqs, d, VIRQ_VQUEUE)));
            var (m2, reply) := ReadReg(m1, dev, 4 * (8 + d / 32) + 3);
            && Bit(reply, d % 32)
            && m2.virqs.banks[0][d / 32] == 0
            && (b != d / 32 || mode != 0 ==> m2.virqs.banks[mode][b] == m.virqs.banks[mode][b])
            && m2.devs == m.devs && m2.pending == m.pending
  {
    hide And, Shr, Bit;
    Unpacked(4 * (8 + d / 32) + 3);
    SetVirqExactly(m.virqs, d, VIRQ_VQUEUE, d / 32, 0, d % 32);
  }
}
