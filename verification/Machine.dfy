/**
 * The register file behind the word protocol (virt/manager.c, virt/device.c), on values: devices,
 * their queues, the virtual interrupt banks and the pending list.
 */
module Machine {
  import opened Bits
  import opened QueueRegs
  import opened VirtIrqs
  import opened PendingList

  const VIRTDEV_DEFAULT_VENDOR: u32 := 0x464C4F57
  const VIRT_MANAGER_VERSION: u32 := 1

  /** rdCfg: the stub reads 0 everywhere; a device with a configuration space reads 0xFF past its end. */
  datatype ConfigSpace = Stub | Bytes(bytes: seq<u8>)

  function ConfigRead(c: ConfigSpace, offset: nat): u8 {
    match c
    case Stub => 0
    case Bytes(bs) => if offset < |bs| then bs[offset] else 0xFF
  }

  datatype Dev = Dev(
    devId: u16, featLo: u32, featHi: u32, config: ConfigSpace, cfg: u32,
    status: u16, driverLo: u32, driverHi: u32, vqs: seq<Queue>)

  datatype Machine = Machine(devs: seq<Dev>, virqs: Virqs, pending: seq<(nat, nat)>)

  // ---------- decoding ----------

  datatype RegType = DeviceReg | ConfigReg | QueueReg | ManagerReg

  function TypeOf(reg: u32): RegType {
    var t := And(reg, 3);
    if t == 0 then DeviceReg else if t == 1 then ConfigReg else if t == 2 then QueueReg else ManagerReg
  }

  /** The register number proper. */
  function NumberOf(reg: u32): nat {
    Shr(reg, 2)
  }

  function QueueNumberOf(reg: u32): nat {
    And(NumberOf(reg), 0x7F)
  }

  function QueueRegNumberOf(reg: u32): nat {
    Shr(NumberOf(reg), 7)
  }

  /** A packed register is two bits of type, then for queue registers seven bits of queue number. */
  lemma Unpacked(reg: u32)
    ensures NumberOf(reg) == reg / 4
    ensures TypeOf(reg) == (if reg % 4 == 0 then DeviceReg else if reg % 4 == 1 then ConfigReg
                            else if reg % 4 == 2 then QueueReg else ManagerReg)
    ensures QueueNumberOf(reg) == reg / 4 % 0x80 && QueueRegNumberOf(reg) == reg / 4 / 0x80
  {
    AndMask(reg, 2);
    AndMask(reg / 4, 7);
    SmallPowers();
    Shr2(reg);
    Shr7(reg / 4);
  }

  lemma SmallPowers()
    ensures Pow2(2) == 4 && Pow2(7) == 0x80
  {
    Pow2Add(4, 3);
    assert Pow2(4) == 16 && Pow2(3) == 8;
  }

  lemma Shr2(x: nat)
    ensures Shr(x, 2) == x / 4
  {
    assert Shr(x / 2, 1) == x / 2 / 2;
  }

  lemma Shr7(x: nat)
    ensures Shr(x, 7) == x / 0x80
  {
    Shr4(x);
    Shr2(x / 0x10);
    assert Shr(x / 0x40, 1) == x / 0x40 / 2;
    ShrTwice(x, 4, 2);
    ShrTwice(x, 6, 1);
  }

  // ---------- device registers ----------

  function InternalRead(d: Dev, reg: nat): u32 {
    match reg
    case 0 => d.devId
    case 1 => VIRTDEV_DEFAULT_VENDOR
    case 2 => d.status
    case 3 => d.featLo
    case 4 => d.featHi
    case 5 => d.driverLo
    case 6 => d.driverHi
    case 7 => d.cfg
    case _ => 0
  }

  function InternalWrite(d: Dev, reg: nat, val: u32): Dev {
    match reg
    case 2 => d.(status := val % 0x1_0000)
    case 5 => d.(driverLo := val)
    case 6 => d.(driverHi := val)
    case _ => d
  }

  function ManagerRead(m: Machine, reg: nat): (r: (Machine, u32))
    requires Shaped(m.virqs)
  {
    if reg == 0 then (m, VIRT_MANAGER_VERSION)
    else if reg == 1 then (m, |m.devs| % 0x1_0000_0000)
    else if 8 <= reg < 12 then
      var (v, bits) := GetVirq(m.virqs, reg - 8, VIRQ_VQUEUE);
      (m.(virqs := v), bits)
    else if 12 <= reg < 16 then
      var (v, bits) := GetVirq(m.virqs, reg - 12, VIRQ_CONFIG);
      (m.(virqs := v), bits)
    else (m, 0)
  }

  // ---------- the two entry points ----------

  function ReadReg(m: Machine, dev: nat, reg: u32): (r: (Machine, u32))
    requires Shaped(m.virqs)
  {
    if TypeOf(reg) == ManagerReg then ManagerRead(m, NumberOf(reg))
    else if dev >= |m.devs| then (m, 0)
    else if TypeOf(reg) == DeviceReg then (m, InternalRead(m.devs[dev], NumberOf(reg)))
    else if TypeOf(reg) == ConfigReg then (m, ConfigRead(m.devs[dev].config, NumberOf(reg)))
    else if QueueNumberOf(reg) >= |m.devs[dev].vqs| then (m, 0)
    else (m, RegRead(m.devs[dev].vqs[QueueNumberOf(reg)], QueueRegNumberOf(reg)))
  }

  ghost function WriteReg(m: Machine, dev: nat, reg: u32, val: u32): (m': Machine)
    ensures |m'.devs| == |m.devs| && m'.virqs == m.virqs
  {
    if TypeOf(reg) == ManagerReg || dev >= |m.devs| then m
    else if TypeOf(reg) == DeviceReg then m.(devs := m.devs[dev := InternalWrite(m.devs[dev], NumberOf(reg), val)])
    else if TypeOf(reg) == ConfigReg then m
    else if QueueNumberOf(reg) >= |m.devs[dev].vqs| then m
    else WriteQueue(m, dev, QueueNumberOf(reg), QueueRegNumberOf(reg), val)
  }

  ghost function WriteQueue(m: Machine, dev: nat, q: nat, reg: nat, val: u32): (m': Machine)
    requires dev < |m.devs| && q < |m.devs[dev].vqs|
    ensures |m'.devs| == |m.devs| && m'.virqs == m.virqs
  {
    var d := m.devs[dev];
    var d' := d.(vqs := d.vqs[q := RegWrite(d.vqs[q], reg, val)]);
    m.(devs := m.devs[dev := d'],
       pending := if QueueRegOf(reg) == Notify then Enqueue(m.pending, (dev, q)) else m.pending)
  }

  // ---------- locations ----------

  /** The registers that simply keep what is written. */
  datatype Loc =
    | StatusAt(dev: nat) | DriverLoAt(dev: nat) | DriverHiAt(dev: nat)
    | DescAt(dev: nat, q: nat) | AvailAt(dev: nat, q: nat) | UsedAt(dev: nat, q: nat)

  datatype Option<T> = None | Some(value: T)

  function LocOf(m: Machine, dev: nat, reg: u32): Option<Loc> {
    if dev >= |m.devs| then None
    else if TypeOf(reg) == DeviceReg then
      (match NumberOf(reg)
       case 2 => Some(StatusAt(dev))
       case 5 => Some(DriverLoAt(dev))
       case 6 => Some(DriverHiAt(dev))
       case _ => None)
    else if TypeOf(reg) == QueueReg && QueueNumberOf(reg) < |m.devs[dev].vqs| then
      (match QueueRegOf(QueueRegNumberOf(reg))
       case DescAddr => Some(DescAt(dev, QueueNumberOf(reg)))
       case AvailAddr => Some(AvailAt(dev, QueueNumberOf(reg)))
       case UsedAddr => Some(UsedAt(dev, QueueNumberOf(reg)))
       case _ => None)
    else None
  }

  predicate HasLoc(m: Machine, l: Loc) {
    l.dev < |m.devs| && (l.StatusAt? || l.DriverLoAt? || l.DriverHiAt? || l.q < |m.devs[l.dev].vqs|)
  }

  function Peek(m: Machine, l: Loc): u32
    requires HasLoc(m, l)
  {
    var d := m.devs[l.dev];
    match l
    case StatusAt(_) => d.status
    case DriverLoAt(_) => d.driverLo
    case DriverHiAt(_) => d.driverHi
    case DescAt(_, q) => d.vqs[q].qDesc
    case AvailAt(_, q) => d.vqs[q].qAvail
    case UsedAt(_, q) => d.vqs[q].qUsed
  }

  /** The status field has 16 bits. */
  function Kept(l: Loc, val: u32): u32 {
    if l.StatusAt? then val % 0x1_0000 else val
  }

  /** The packed register number of a location. */
  function Pack(l: Loc): nat {
    match l
    case StatusAt(_) => 4 * 2
    case DriverLoAt(_) => 4 * 5
    case DriverHiAt(_) => 4 * 6
    case DescAt(_, q) => 4 * (q + 0x80 * 4) + 2
    case AvailAt(_, q) => 4 * (q + 0x80 * 5) + 2
    case UsedAt(_, q) => 4 * (q + 0x80 * 6) + 2
  }

  /** Decoding is injective: a location is addressed by one device number and one packed register only. */
  lemma DecodeInjective(m: Machine, dev: nat, reg: u32, dev': nat, reg': u32)
    requires LocOf(m, dev, reg).Some? && LocOf(m, dev, reg) == LocOf(m, dev', reg')
    ensures dev == dev' && reg == reg'
  {
    hide And, Shr;
    Unpacked(reg);
    Unpacked(reg');
  }

  lemma DecodePacked(m: Machine, l: Loc)
    requires HasLoc(m, l) && (l.DescAt? || l.AvailAt? || l.UsedAt? ==> l.q < 0x80)
    ensures Pack(l) < 0x100_0000 && LocOf(m, l.dev, Pack(l)) == Some(l)
  {
    hide And, Shr;
    Unpacked(Pack(l));
  }

  /** The devices and queues present never change. */
  ghost predicate SameShape(m: Machine, m': Machine) {
    |m'.devs| == |m.devs| && forall d :: 0 <= d < |m.devs| ==> |m'.devs[d].vqs| == |m.devs[d].vqs|
  }

  lemma ReadBack(m: Machine, dev: nat, reg: u32, l: Loc)
    requires Shaped(m.virqs) && LocOf(m, dev, reg) == Some(l)
    ensures HasLoc(m, l) && ReadReg(m, dev, reg) == (m, Peek(m, l))
  {
    hide And, Shr;
  }

  /** What a write means for a location: its value if addressed, nothing otherwise. */
  ghost predicate WritesOnly(m: Machine, dev: nat, reg: u32, val: u32, l: Loc)
    requires HasLoc(m, l)
  {
    var m' := WriteReg(m, dev, reg, val);
    && SameShape(m, m') && HasLoc(m', l)
    && Peek(m', l) == if LocOf(m, dev, reg) == Some(l) then Kept(l, val) else Peek(m, l)
  }

  lemma WriteOne(m: Machine, dev: nat, reg: u32, val: u32, l: Loc)
    requires HasLoc(m, l)
    ensures WritesOnly(m, dev, reg, val, l)
  {
    hide And, Shr, InternalWrite, WriteQueue, QueueRegOf;
    match TypeOf(reg)
    case DeviceReg => WriteOneInternal(m, dev, reg, val, l);
    case QueueReg => WriteOneQueue(m, dev, reg, val, l);
    case ConfigReg =>
    case ManagerReg =>
  }

  lemma WriteOneInternal(m: Machine, dev: nat, reg: u32, val: u32, l: Loc)
    requires HasLoc(m, l) && TypeOf(reg) == DeviceReg
    ensures WritesOnly(m, dev, reg, val, l)
  {
    hide And, Shr, TypeOf, WriteQueue, QueueRegOf;
  }

  lemma WriteOneQueue(m: Machine, dev: nat, reg: u32, val: u32, l: Loc)
    requires HasLoc(m, l) && TypeOf(reg) == QueueReg
    ensures WritesOnly(m, dev, reg, val, l)
  {
    hide And, Shr, TypeOf, InternalWrite, SetDescCount;
    SetDescCountKeeps(val);
  }

  lemma SetDescCountKeeps(val: u32)
    ensures forall q: Queue :: var r := SetDescCount(q, val); r == q.(sizeMask := r.sizeMask)
  {
  }

  // ---------- sequences of writes ----------

  datatype Write = Write(dev: nat, reg: u32, val: u32)

  ghost function After(m: Machine, ws: seq<Write>, n: nat): Machine
    requires n <= |ws|
    decreases n
  {
    if n == 0 then m else WriteReg(After(m, ws, n - 1), ws[n - 1].dev, ws[n - 1].reg, ws[n - 1].val)
  }

  /** The value of the last of the first n writes to l, or what l held before them. */
  ghost function LastWritten(m: Machine, ws: seq<Write>, n: nat, l: Loc): u32
    requires n <= |ws| && HasLoc(m, l)
    decreases n
  {
    if n == 0 then Peek(m, l)
    else if LocOf(m, ws[n - 1].dev, ws[n - 1].reg) == Some(l) then Kept(l, ws[n - 1].val)
    else LastWritten(m, ws, n - 1, l)
  }

  lemma {:induction false} WritesKeepLast(m: Machine, ws: seq<Write>, n: nat, l: Loc)
    requires n <= |ws| && HasLoc(m, l)
    ensures SameShape(m, After(m, ws, n)) && HasLoc(After(m, ws, n), l)
    ensures Peek(After(m, ws, n), l) == LastWritten(m, ws, n, l)
    decreases n
  {
    hide WriteReg, Peek, And, Shr;
    if n > 0 {
      WritesKeepLast(m, ws, n - 1, l);
      var w := ws[n - 1];
      WriteOne(After(m, ws, n - 1), w.dev, w.reg, w.val, l);
      SameLocs(m, After(m, ws, n - 1), w.dev, w.reg);
    }
  }

  lemma SameLocs(m: Machine, m': Machine, dev: nat, reg: u32)
    requires SameShape(m, m')
    ensures LocOf(m', dev, reg) == LocOf(m, dev, reg)
  {
    hide And, Shr;
  }

  /**
   * The register file is a map from locations to values: after any sequence of writes whatsoever, a
   * location reads as the last value written to it.
   */
  lemma RegistersAreAMap(m: Machine, ws: seq<Write>, dev: nat, reg: u32, l: Loc)
    requires Shaped(m.virqs) && LocOf(m, dev, reg) == Some(l)
    ensures HasLoc(m, l) && Shaped(After(m, ws, |ws|).virqs)
    ensures ReadReg(After(m, ws, |ws|), dev, reg).1 == LastWritten(m, ws, |ws|, l)
  {
    hide And, Shr, WriteReg;
    ReadBack(m, dev, reg, l);
    WritesKeepLast(m, ws, |ws|, l);
    WritesKeepVirqs(m, ws, |ws|);
    SameLocs(m, After(m, ws, |ws|), dev, reg);
    ReadBack(After(m, ws, |ws|), dev, reg, l);
  }

  lemma {:induction false} WritesKeepVirqs(m: Machine, ws: seq<Write>, n: nat)
    requires n <= |ws|
    ensures After(m, ws, n).virqs == m.virqs
    decreases n
  {
    if n > 0 { WritesKeepVirqs(m, ws, n - 1); }
  }

  /** A write reaches only the addressed device, and of its queues only the addressed one. */
  lemma WriteIsLocal(m: Machine, dev: nat, reg: u32, val: u32, d: nat, q: nat)
    requires d < |m.devs| && q < |m.devs[d].vqs|
    ensures var m' := WriteReg(m, dev, reg, val);
            && d < |m'.devs| && |m'.devs[d].vqs| == |m.devs[d].vqs|
            && (d != dev ==> m'.devs[d] == m.devs[d])
            && (d != dev || TypeOf(reg) != QueueReg || q != QueueNumberOf(reg) ==>
                  m'.devs[d].vqs[q] == m.devs[d].vqs[q])
            && (TypeOf(reg) == QueueReg ==> m'.devs[d].(vqs := []) == m.devs[d].(vqs := []))
            && (m'.pending != m.pending ==> TypeOf(reg) == QueueReg && QueueRegOf(QueueRegNumberOf(reg)) == Notify)
  {
    hide And, Shr, RegWrite;
  }

  /** In every reachable state every ring size is a power of two up to 2^16. */
  ghost predicate AllPowerSized(m: Machine) {
    forall d, q :: 0 <= d < |m.devs| && 0 <= q < |m.devs[d].vqs| ==> PowerSized(m.devs[d].vqs[q])
  }

  lemma {:induction false} SizesStayPowers(m: Machine, ws: seq<Write>, n: nat)
    requires n <= |ws| && AllPowerSized(m)
    ensures AllPowerSized(After(m, ws, n))
    decreases n
  {
    hide And, Shr, PowerSized, RegWrite;
    if n > 0 {
      SizesStayPowers(m, ws, n - 1);
      var y, w := After(m, ws, n - 1), ws[n - 1];
      if w.dev < |y.devs| && QueueNumberOf(w.reg) < |y.devs[w.dev].vqs| {
        RegWriteKeepsPowerSized(y.devs[w.dev].vqs[QueueNumberOf(w.reg)], QueueRegNumberOf(w.reg), w.val);
      }
    }
  }
}
