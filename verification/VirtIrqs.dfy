/** Virtual interrupts towards the guest (virt/irq.c): two modes of four 32-bit banks and one event flag. */
module VirtIrqs {
  import opened Bits

  const VIRQ_BANKS: nat := 4
  const VIRQ_VQUEUE: nat := 0
  const VIRQ_CONFIG: nat := 1
  const VIRQ_MODES: nat := 2

  datatype Virqs = Virqs(banks: seq<seq<u32>>, event: bool, triggers: nat)

  predicate Shaped(v: Virqs) {
    |v.banks| == VIRQ_MODES && forall m :: 0 <= m < VIRQ_MODES ==> |v.banks[m]| == VIRQ_BANKS
  }

  predicate InRange(bank: nat, mode: nat) {
    bank < VIRQ_BANKS && mode < VIRQ_MODES
  }

  const RESET_VIRQS: Virqs := Virqs([[0, 0, 0, 0], [0, 0, 0, 0]], false, 0)

  function OrWord(x: u32, y: u32): (r: u32)
    ensures r == Or(x, y)
  {
    OrBounded32(x, y);
    Or(x, y)
  }

  lemma OrBounded32(x: u32, y: u32)
    ensures Or(x, y) < 0x1_0000_0000
  {
    Pow2Of32();
    OrBounded(x, y, 32);
  }

  function DevBit(devId: nat): (b: u32)
    ensures b == Pow2(devId % 32)
  {
    Pow2Of32();
    Pow2Monotone(devId % 32 + 1, 32);
    Pow2(devId % 32)
  }

  function WithBank(v: Virqs, bank: nat, mode: nat, x: u32): (v': Virqs)
    requires Shaped(v) && InRange(bank, mode)
    ensures Shaped(v')
  {
    var row: seq<u32> := v.banks[mode][bank := x];
    v.(banks := v.banks[mode := row])
  }

  function SetVirq(v: Virqs, devId: nat, mode: nat): (v': Virqs)
    requires Shaped(v)
    ensures Shaped(v')
  {
    if InRange(devId / 32, mode)
    then WithBank(v, devId / 32, mode, OrWord(v.banks[mode][devId / 32], DevBit(devId))).(event := true)
    else v
  }

  function GetVirq(v: Virqs, bank: nat, mode: nat): (r: (Virqs, u32))
    requires Shaped(v)
    ensures Shaped(r.0)
  {
    if InRange(bank, mode) then (WithBank(v, bank, mode, 0), v.banks[mode][bank]) else (v, 0)
  }

  function SyncVirq(v: Virqs): (v': Virqs) {
    if v.event then v.(event := false, triggers := v.triggers + 1) else v
  }

  /** Setting device d's interrupt sets digit d mod 32 of bank d / 32 of that mode, and no other digit anywhere. */
  lemma SetVirqExactly(v: Virqs, d: nat, mode: nat, b: nat, m: nat, t: nat)
    requires Shaped(v) && InRange(b, m)
    ensures Bit(SetVirq(v, d, mode).banks[m][b], t) <==>
            Bit(v.banks[m][b], t) || (mode == m && t < 32 && d == 32 * b + t)
  {
    hide Bit, Or, Pow2;
    if d / 32 == b && mode == m {
      BitOr(v.banks[m][b], Pow2(d % 32), t);
      BitPow2(d % 32, t);
    }
  }

  // ---------- the variables of irq.c ----------

  class VirtIrq {
    const pendingVirq: array2<u32>
    var eventVirq: u8
    var triggers: nat          // pxiTriggerSync calls
    ghost var model: Virqs

    ghost predicate Valid()
      reads this, pendingVirq
    {
      && pendingVirq.Length0 == VIRQ_MODES && pendingVirq.Length1 == VIRQ_BANKS
      && Shaped(model)
      && (forall m, b :: 0 <= m < VIRQ_MODES && 0 <= b < VIRQ_BANKS ==> pendingVirq[m, b] == model.banks[m][b])
      && model.event == (eventVirq != 0) && model.triggers == triggers
    }

    /** virtIrqReset on static storage. */
    constructor ()
      ensures Valid() && fresh(pendingVirq) && model == RESET_VIRQS
    {
      pendingVirq := new u32[VIRQ_MODES, VIRQ_BANKS]((m, b) => 0);
      eventVirq, triggers := 0, 0;
      model := RESET_VIRQS;
    }

    method Set(devId: nat, mode: nat) returns (ret: u32)
      requires Valid()
      modifies this, pendingVirq
      ensures Valid() && model == SetVirq(old(model), devId, mode)
      ensures ret == if InRange(devId / 32, mode) then old(model).banks[mode][devId / 32] else 0
    {
      ret := 0;
      var bankId := devId / 32;
      if bankId < VIRQ_BANKS && mode < VIRQ_MODES {
        ret := pendingVirq[mode, bankId];
        pendingVirq[mode, bankId] := OrWord(pendingVirq[mode, bankId], DevBit(devId));
        eventVirq := 1;
        model := SetVirq(model, devId, mode);
      }
    }

    method Get(bankId: nat, mode: nat) returns (bits: u32)
      requires Valid()
      modifies this`model, pendingVirq
      ensures Valid() && (model, bits) == GetVirq(old(model), bankId, mode)
    {
      bits := 0;
      if bankId < VIRQ_BANKS && mode < VIRQ_MODES {
        bits := pendingVirq[mode, bankId];
        pendingVirq[mode, bankId] := 0;
        model := GetVirq(model, bankId, mode).0;
      }
    }

    method Sync()
      requires Valid()
      modifies this
      ensures Valid() && model == SyncVirq(old(model))
    {
      var raised := eventVirq != 0;
      eventVirq := 0;
      if raised {
        triggers := triggers + 1;
      }
      model := SyncVirq(model);
    }
  }

  // ---------- set, get and sync interleaved instruction by instruction ----------

  /** Where the interrupted thread stands: inside virtIrqSet or inside virtIrqSync. */
  datatype Pc = AtRest | MustRaise | MustTrigger

  datatype Event =
    | WasSet(bank: nat, mode: nat, bits: u32)
    | WasGot(bank: nat, mode: nat, bits: u32)
    | Triggered

  datatype State = State(v: Virqs, pc: Pc, log: seq<Event>)

  datatype Action = SetBits(devId: nat, mode: nat) | Raise | Test | Trigger | Get(bank: nat, mode: nat)

  predicate Enabled(s: State, a: Action) {
    match a
    case SetBits(_, _) => s.pc.AtRest?
    case Raise => s.pc.MustRaise?
    case Test => s.pc.AtRest?
    case Trigger => s.pc.MustTrigger?
    case Get(_, _) => true
  }

  function Step(s: State, a: Action): (s': State)
    requires Shaped(s.v) && Enabled(s, a)
    ensures Shaped(s'.v)
  {
    match a
    case SetBits(d, mode) =>
      if InRange(d / 32, mode)
      then State(SetVirq(s.v, d, mode).(event := s.v.event), MustRaise,
                 s.log + [WasSet(d / 32, mode, DevBit(d))])
      else s
    case Raise => s.(v := s.v.(event := true), pc := AtRest)
    case Test => if s.v.event then s.(v := s.v.(event := false), pc := MustTrigger) else s
    case Trigger => State(s.v.(triggers := s.v.triggers + 1), AtRest, s.log + [Triggered])
    case Get(bank, mode) =>
      if InRange(bank, mode)
      then s.(v := GetVirq(s.v, bank, mode).0, log := s.log + [WasGot(bank, mode, s.v.banks[mode][bank])])
      else s
  }

  /** The atomic routines are these steps in sequence. */
  lemma RoutinesAreSteps(s: State, d: nat, mode: nat)
    requires Shaped(s.v) && s.pc == AtRest && InRange(d / 32, mode)
    ensures Step(Step(s, SetBits(d, mode)), Raise).v == SetVirq(s.v, d, mode)
    ensures var t := Step(s, Test);
            (if t.pc.MustTrigger? then Step(t, Trigger) else t).v == SyncVirq(s.v)
  {
  }

  ghost predicate Behaviour(tr: seq<State>) {
    && 0 < |tr|
    && tr[0].v == RESET_VIRQS && tr[0].pc == AtRest && tr[0].log == []
    && (forall i :: 0 <= i < |tr| ==> Shaped(tr[i].v))
    && (forall i :: 0 <= i < |tr| - 1 ==> exists a :: Enabled(tr[i], a) && tr[i + 1] == Step(tr[i], a))
  }

  // ---------- what the log says must be there ----------

  /** Bits set since the last get of this bank. */
  function SetSinceGet(log: seq<Event>, bank: nat, mode: nat): u32 {
    if log == [] then 0
    else
      var rest := SetSinceGet(log[..|log| - 1], bank, mode);
      match log[|log| - 1]
      case WasSet(b, m, bits) => if b == bank && m == mode then OrWord(rest, bits) else rest
      case WasGot(b, m, _) => if b == bank && m == mode then 0 else rest
      case Triggered => rest
  }

  /** All bits ever set on this bank. */
  function EverSet(log: seq<Event>, bank: nat, mode: nat): u32 {
    if log == [] then 0
    else
      var rest := EverSet(log[..|log| - 1], bank, mode);
      match log[|log| - 1]
      case WasSet(b, m, bits) => if b == bank && m == mode then OrWord(rest, bits) else rest
      case WasGot(_, _, _) => rest
      case Triggered => rest
  }

  /** All bits ever handed to the guest from this bank. */
  function EverGot(log: seq<Event>, bank: nat, mode: nat): u32 {
    if log == [] then 0
    else
      var rest := EverGot(log[..|log| - 1], bank, mode);
      match log[|log| - 1]
      case WasGot(b, m, bits) => if b == bank && m == mode then OrWord(rest, bits) else rest
      case WasSet(_, _, _) => rest
      case Triggered => rest
  }

  /** The guest has been triggered after the last set. */
  predicate Announced(log: seq<Event>) {
    if log == [] then true
    else match log[|log| - 1]
      case WasSet(_, _, _) => false
      case Triggered => true
      case WasGot(_, _, _) => Announced(log[..|log| - 1])
  }

  /** Every get returned exactly the bits set since the get before it. */
  predicate GetsExact(log: seq<Event>) {
    log == [] || (
      && GetsExact(log[..|log| - 1])
      && match log[|log| - 1]
         case WasGot(b, m, bits) => bits == SetSinceGet(log[..|log| - 1], b, m)
         case WasSet(_, _, _) => true
         case Triggered => true)
  }

  ghost predicate BanksMatch(v: Virqs, log: seq<Event>)
    requires Shaped(v)
  {
    forall b: nat, m: nat :: InRange(b, m) ==> v.banks[m][b] == SetSinceGet(log, b, m)
  }

  ghost predicate Inv(s: State) {
    && Shaped(s.v)
    && BanksMatch(s.v, s.log)
    && GetsExact(s.log)
    && (s.v.event || s.pc != AtRest || Announced(s.log))
  }

  lemma LogSet(v: Virqs, log: seq<Event>, bank: nat, mode: nat, bits: u32)
    requires Shaped(v) && InRange(bank, mode) && BanksMatch(v, log)
    ensures BanksMatch(WithBank(v, bank, mode, OrWord(v.banks[mode][bank], bits)), log + [WasSet(bank, mode, bits)])
  {
    var log' := log + [WasSet(bank, mode, bits)];
    assert log'[..|log'| - 1] == log;
  }

  lemma LogGot(v: Virqs, log: seq<Event>, bank: nat, mode: nat)
    requires Shaped(v) && InRange(bank, mode) && BanksMatch(v, log)
    ensures BanksMatch(WithBank(v, bank, mode, 0), log + [WasGot(bank, mode, v.banks[mode][bank])])
  {
    var log' := log + [WasGot(bank, mode, v.banks[mode][bank])];
    assert log'[..|log'| - 1] == log;
  }

  lemma LogTriggered(v: Virqs, log: seq<Event>)
    requires Shaped(v) && BanksMatch(v, log)
    ensures BanksMatch(v, log + [Triggered])
  {
    assert (log + [Triggered])[..|log + [Triggered]| - 1] == log;
  }

  lemma StepKeepsInv(s: State, a: Action)
    requires Inv(s) && Enabled(s, a)
    ensures Inv(Step(s, a))
  {
    var s' := Step(s, a);
    assert s'.log != s.log ==> s'.log[..|s'.log| - 1] == s.log;
    match a
    case SetBits(d, mode) =>
      if InRange(d / 32, mode) {
        LogSet(s.v, s.log, d / 32, mode, DevBit(d));
      }
    case Get(bank, mode) =>
      if InRange(bank, mode) {
        LogGot(s.v, s.log, bank, mode);
      }
    case Trigger => LogTriggered(s.v, s.log);
    case Raise =>
    case Test =>
  }

  lemma ResetInv(s: State)
    requires s.v == RESET_VIRQS && s.pc == AtRest && s.log == []
    ensures Inv(s)
  {
  }

  lemma {:induction false} BehaviourKeepsInv(tr: seq<State>, i: nat)
    requires Behaviour(tr) && i < |tr|
    ensures Inv(tr[i])
    decreases i
  {
    if i == 0 {
      ResetInv(tr[0]);
    } else {
      BehaviourKeepsInv(tr, i - 1);
      var a :| Enabled(tr[i - 1], a) && tr[i - 1 + 1] == Step(tr[i - 1], a);
      StepKeepsInv(tr[i - 1], a);
    }
  }

  lemma {:induction false} GotAndPendingIsSet(log: seq<Event>, bank: nat, mode: nat)
    requires GetsExact(log)
    ensures Or(EverGot(log, bank, mode), SetSinceGet(log, bank, mode)) == EverSet(log, bank, mode)
    decreases |log|
  {
    if log == [] {
    } else {
      var front := log[..|log| - 1];
      GotAndPendingIsSet(front, bank, mode);
      var e := log[|log| - 1];
      if !e.Triggered? && e.bank == bank && e.mode == mode {
        OrAssoc(EverGot(front, bank, mode), SetSinceGet(front, bank, mode), e.bits);
        OrZero(EverGot(log, bank, mode));
      }
    }
  }

  /**
   * No notification is lost or invented: at any point of any interleaving, for each mode and bank the
   * bits handed to the guest together with the bits pending are the bits set since reset, and each
   * read returned precisely the bits set since the read before it.
   */
  lemma NothingLost(tr: seq<State>, i: nat, bank: nat, mode: nat)
    requires Behaviour(tr) && i < |tr| && InRange(bank, mode)
    ensures var s := tr[i];
            && Or(EverGot(s.log, bank, mode), s.v.banks[mode][bank]) == EverSet(s.log, bank, mode)
            && s.v.banks[mode][bank] == SetSinceGet(s.log, bank, mode)
            && GetsExact(s.log)
  {
    BehaviourKeepsInv(tr, i);
    GotAndPendingIsSet(tr[i].log, bank, mode);
  }

  /** Outside the two routines, a lowered event flag means the guest was triggered after the last set. */
  lemma EverySetIsAnnounced(tr: seq<State>, i: nat)
    requires Behaviour(tr) && i < |tr| && tr[i].pc == AtRest && !tr[i].v.event
    ensures Announced(tr[i].log)
  {
    BehaviourKeepsInv(tr, i);
  }

  // ---------- only when necessary ----------

  /** Something has been set since the guest was last triggered. */
  predicate SetSinceTrigger(log: seq<Event>) {
    log != [] &&
    match log[|log| - 1]
    case WasSet(_, _, _) => true
    case Triggered => false
    case WasGot(_, _, _) => SetSinceTrigger(log[..|log| - 1])
  }

  /** Every trigger so far had a set to announce. */
  predicate Justified(log: seq<Event>) {
    log == [] ||
    (Justified(log[..|log| - 1]) && (log[|log| - 1].Triggered? ==> SetSinceTrigger(log[..|log| - 1])))
  }

  function TriggersIn(log: seq<Event>): nat {
    if log == [] then 0 else TriggersIn(log[..|log| - 1]) + if log[|log| - 1].Triggered? then 1 else 0
  }

  /** Also, the trigger count is that of the triggers made. */
  ghost predicate TriggerInv(s: State) {
    && s.v.triggers == TriggersIn(s.log) && Justified(s.log)
    && (s.v.event || s.pc != AtRest ==> SetSinceTrigger(s.log))
    && !(s.v.event && s.pc.MustTrigger?)
  }

  /** What one more event does to the three. */
  lemma LogGrows(log: seq<Event>, e: Event)
    ensures TriggersIn(log + [e]) == TriggersIn(log) + if e.Triggered? then 1 else 0
    ensures SetSinceTrigger(log + [e]) == (e.WasSet? || (e.WasGot? && SetSinceTrigger(log)))
    ensures Justified(log + [e]) == (Justified(log) && (e.Triggered? ==> SetSinceTrigger(log)))
  {
    var log' := log + [e];
    assert log'[..|log'| - 1] == log && log'[|log'| - 1] == e;
  }

  lemma StepKeepsTriggers(s: State, a: Action)
    requires Shaped(s.v) && TriggerInv(s) && Enabled(s, a)
    ensures TriggerInv(Step(s, a))
  {
    hide TriggersIn, SetSinceTrigger, Justified, OrWord, DevBit;
    match a
    case SetBits(d, mode) => LogGrows(s.log, WasSet(d / 32, mode, DevBit(d)));
    case Trigger => LogGrows(s.log, Triggered);
    case Get(bank, mode) => if InRange(bank, mode) { LogGrows(s.log, WasGot(bank, mode, s.v.banks[mode][bank])); }
    case Raise =>
    case Test =>
  }

  /** The guest is triggered only when necessary: between any two triggers something was set. */
  lemma {:induction false} TriggersOnlyAfterSets(tr: seq<State>, i: nat)
    requires Behaviour(tr) && i < |tr|
    ensures TriggerInv(tr[i])
    decreases i
  {
    hide Step, Enabled;
    if i > 0 {
      TriggersOnlyAfterSets(tr, i - 1);
      var a :| Enabled(tr[i - 1], a) && tr[i - 1 + 1] == Step(tr[i - 1], a);
      StepKeepsTriggers(tr[i - 1], a);
    }
  }
}
