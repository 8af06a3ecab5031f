/** The interrupt dispatcher (hw/irq.c): the highest pending line first, until none is pending. */
module IrqDispatch {
  import opened Bits

  const NR_IRQS: nat := 32

  /** TOP_BIT: position of the highest digit, -1 for zero. */
  function TopBit(x: nat): (r: int)
    ensures -1 <= r && (r == -1 <==> x == 0)
  {
    if x == 0 then -1 else 1 + TopBit(x / 2)
  }

  lemma {:induction false} TopBitIsHighest(x: nat, i: nat)
    requires 0 < x
    ensures Bit(x, TopBit(x))
    ensures i > TopBit(x) ==> !Bit(x, i)
    decreases x
  {
    if x == 1 {
      if i > 0 { ZeroHasNoBits(i - 1); }
    } else {
      TopBitIsHighest(x / 2, if i > 0 then i - 1 else 0);
    }
  }

  lemma {:induction false} TopBitBounded(x: nat, k: nat)
    requires x < Pow2(k)
    ensures TopBit(x) < k
  {
    if x > 0 { TopBitBounded(x / 2, k - 1); }
  }

  /** Lines raised during each turn: before the acknowledgement, and after it (the handler's time included). */
  datatype Env = Env(early: nat -> nat, late: nat -> nat)

  /** Line l is raised during turn t. */
  ghost predicate RaisedIn(env: Env, t: nat, l: nat) {
    Bit(env.early(t), l) || Bit(env.late(t), l)
  }

  /** One turn: read the register, acknowledge the highest line, run its handler. */
  function Turn(env: Env, p: nat, t: nat): (p': nat)
    requires p > 0
  {
    Or(AndNot(Or(p, env.early(t)), Pow2(TopBit(p))), env.late(t))
  }

  /** The pending register after k turns from p; it stays 0 once it is 0, as the loop has ended. */
  function PendingAfter(env: Env, p: nat, k: nat): nat
    decreases k
  {
    if k == 0 then p
    else
      var q := PendingAfter(env, p, k - 1);
      if q == 0 then 0 else Turn(env, q, k - 1)
  }

  /** The line served in turn i. */
  function Served(env: Env, p: nat, i: nat): int {
    TopBit(PendingAfter(env, p, i))
  }

  /** The dispatcher is still running when turn k begins. */
  ghost predicate Running(env: Env, p: nat, k: nat) {
    forall i :: 0 <= i < k ==> PendingAfter(env, p, i) > 0
  }

  /** The arrivals as seen from turn n on. */
  function From(env: Env, n: nat): Env {
    Env((t: nat) => env.early(n + t), (t: nat) => env.late(n + t))
  }

  lemma RaisedFrom(env: Env, n: nat, t: nat, l: nat)
    ensures RaisedIn(From(env, n), t, l) == RaisedIn(env, n + t, l)
  {
  }

  lemma {:induction false} ZeroStays(env: Env, p: nat, n: nat, k: nat)
    requires n <= k && PendingAfter(env, p, n) == 0
    ensures PendingAfter(env, p, k) == 0
    decreases k
  {
    if n < k { ZeroStays(env, p, n, k - 1); }
  }

  lemma FirstTurn(env: Env, p: nat)
    ensures Running(env, p, 0) && PendingAfter(env, p, 0) == p
  {
  }

  lemma NextTurn(env: Env, p: nat, k: nat)
    requires Running(env, p, k) && PendingAfter(env, p, k) > 0
    ensures Running(env, p, k + 1) && PendingAfter(env, p, k + 1) == Turn(env, PendingAfter(env, p, k), k)
  {
  }

  lemma TurnBits(env: Env, p: nat, t: nat, l: nat)
    requires p > 0
    ensures Bit(Turn(env, p, t), l) ==
            (((Bit(p, l) || Bit(env.early(t), l)) && l != TopBit(p)) || Bit(env.late(t), l))
  {
    var a := Or(p, env.early(t));
    BitOr(p, env.early(t), l);
    BitPow2(TopBit(p), l);
    BitAndNot(a, Pow2(TopBit(p)), l);
    BitOr(AndNot(a, Pow2(TopBit(p))), env.late(t), l);
  }

  /** The line served is pending and every higher line is not. */
  lemma HighestFirst(env: Env, p: nat, i: nat, l: nat)
    requires Running(env, p, i + 1)
    ensures Served(env, p, i) >= 0 && Bit(PendingAfter(env, p, i), Served(env, p, i))
    ensures l > Served(env, p, i) ==> !Bit(PendingAfter(env, p, i), l)
  {
    TopBitIsHighest(PendingAfter(env, p, i), l);
  }

  /** A pending line stays pending until it is served. */
  lemma {:induction false} PendingUntilServed(env: Env, p: nat, from: nat, k: nat, l: nat)
    requires from <= k && Running(env, p, k) && Bit(PendingAfter(env, p, from), l)
    ensures Bit(PendingAfter(env, p, k), l) || exists j :: from <= j < k && Served(env, p, j) == l
    decreases k
  {
    if from < k {
      PendingUntilServed(env, p, from, k - 1, l);
      TurnBits(env, PendingAfter(env, p, k - 1), k - 1, l);
      assert l == TopBit(PendingAfter(env, p, k - 1)) ==> Served(env, p, k - 1) == l;
    }
  }

  /** No interrupt is lost: a line raised in turn t is served in that turn or later, or still pending. */
  lemma EveryRaiseIsServed(env: Env, p: nat, t: nat, k: nat, l: nat)
    requires t < k && Running(env, p, k)
    requires Bit(env.early(t), l) || Bit(env.late(t), l)
    ensures Bit(PendingAfter(env, p, k), l) || exists j :: t <= j < k && Served(env, p, j) == l
  {
    TurnBits(env, PendingAfter(env, p, t), t, l);
    if Bit(PendingAfter(env, p, t + 1), l) {
      PendingUntilServed(env, p, t + 1, k, l);
    } else {
      assert Served(env, p, t) == l;
    }
  }

  /** A line pending at turn k was pending at turn `from`, or has been raised since. */
  lemma {:induction false} PendingHasCause(env: Env, p: nat, from: nat, k: nat, l: nat)
    requires from <= k && Running(env, p, k) && Bit(PendingAfter(env, p, k), l)
    ensures Bit(PendingAfter(env, p, from), l)
            || exists t :: from <= t < k && (Bit(env.early(t), l) || Bit(env.late(t), l))
    decreases k
  {
    if from < k {
      TurnBits(env, PendingAfter(env, p, k - 1), k - 1, l);
      if Bit(env.early(k - 1), l) || Bit(env.late(k - 1), l) {
      } else {
        PendingHasCause(env, p, from, k - 1, l);
      }
    }
  }

  /** No interrupt is invented: what is served or left was pending at the start or raised on the way. */
  lemma ServedWasRaised(env: Env, p: nat, k: nat, l: nat)
    requires Running(env, p, k)
    requires Bit(PendingAfter(env, p, k), l) || exists j :: 0 <= j < k && Served(env, p, j) == l
    ensures Bit(p, l) || exists t :: 0 <= t < k && (Bit(env.early(t), l) || Bit(env.late(t), l))
  {
    if Bit(PendingAfter(env, p, k), l) {
      PendingHasCause(env, p, 0, k, l);
    } else {
      var j :| 0 <= j < k && Served(env, p, j) == l;
      HighestFirst(env, p, j, l);
      PendingHasCause(env, p, 0, j, l);
    }
  }

  /** A line is served again only if it was raised again after its acknowledgement. */
  lemma ServedTwiceRaisedTwice(env: Env, p: nat, i: nat, j: nat)
    requires i < j && Running(env, p, j + 1) && Served(env, p, i) == Served(env, p, j)
    ensures var l := Served(env, p, i);
            l >= 0 && (Bit(env.late(i), l) || exists t :: i < t < j && (Bit(env.early(t), l) || Bit(env.late(t), l)))
  {
    var l := Served(env, p, i);
    HighestFirst(env, p, j, l);
    PendingHasCause(env, p, i + 1, j, l);
    TurnBits(env, PendingAfter(env, p, i), i, l);
  }

  // ---------- a quiet run ----------

  ghost predicate QuietFrom(env: Env, n: nat) {
    forall t: nat :: n <= t ==> env.early(t) == 0 && env.late(t) == 0
  }

  lemma QuietTurn(env: Env, p: nat, t: nat)
    requires p > 0 && env.early(t) == 0 && env.late(t) == 0
    ensures Turn(env, p, t) == AndNot(p, Pow2(TopBit(p))) < p
    ensures TopBit(Turn(env, p, t)) < TopBit(p)
  {
    OrZero(p);
    var q := AndNot(p, Pow2(TopBit(p)));
    OrZero(q);
    TopBitIsHighest(p, TopBit(p));
    BitAndNot(p, Pow2(TopBit(p)), TopBit(p));
    BitPow2(TopBit(p), TopBit(p));
    if q > 0 {
      TopBitIsHighest(q, TopBit(q));
      TopBitIsHighest(p, TopBit(q));
      BitAndNot(p, Pow2(TopBit(p)), TopBit(q));
    }
  }

  /** With no new arrivals the lines are served in strictly descending order. */
  lemma {:induction false} QuietDescends(env: Env, p: nat, i: nat, j: nat)
    requires QuietFrom(env, 0) && i < j && Running(env, p, j + 1)
    ensures Served(env, p, i) > Served(env, p, j)
    decreases j
  {
    QuietTurn(env, PendingAfter(env, p, j - 1), j - 1);
    if i < j - 1 {
      QuietDescends(env, p, i, j - 1);
    }
  }

  /** With no new arrivals, at the end of the loop the lines set at first have been served once each, and no other. */
  lemma QuietServesEachOnce(env: Env, p: nat, n: nat, l: nat)
    requires QuietFrom(env, 0) && Running(env, p, n) && PendingAfter(env, p, n) == 0
    ensures Bit(p, l) <==> exists i :: 0 <= i < n && Served(env, p, i) == l
    ensures forall i, j :: 0 <= i < j < n ==> Served(env, p, i) != Served(env, p, j)
  {
    ZeroHasNoBits(l);
    if Bit(p, l) {
      PendingUntilServed(env, p, 0, n, l);
    }
    if i :| 0 <= i < n && Served(env, p, i) == l {
      ServedWasRaised(env, p, n, l);
    }
    forall i, j | 0 <= i < j < n
      ensures Served(env, p, i) != Served(env, p, j)
    {
      QuietDescends(env, p, i, j);
    }
  }

  /** Once arrivals stop the loop ends: some turn finds nothing pending. */
  lemma {:induction false} QuietEnds(env: Env, p: nat, n: nat) returns (k: nat)
    requires QuietFrom(env, n)
    ensures PendingAfter(env, p, k) == 0
    decreases PendingAfter(env, p, n)
  {
    var q := PendingAfter(env, p, n);
    if q == 0 {
      k := n;
    } else {
      QuietTurn(env, q, n);
      k := QuietEnds(env, p, n + 1);
    }
  }

  // ---------- the dispatcher ----------

  /** A handler is whatever irqEnable was given; NULL becomes the dummy. */
  datatype Handler = Dummy | Routine(name: nat)

  datatype Call = Call(handler: Handler, irqn: nat)

  class IrqController {
    const env: Env
    const table: array<Handler>
    var enable: nat
    var pending: nat
    var turn: nat
    var calls: seq<Call>

    ghost predicate Valid()
      reads this, table
    {
      table.Length == NR_IRQS && pending < Pow2(NR_IRQS)
    }

    /** irqReset */
    constructor (e: Env)
      ensures Valid() && env == e && fresh(table) && pending == 0 && turn == 0 && calls == []
      ensures forall i :: 0 <= i < NR_IRQS ==> table[i] == Dummy
    {
      env, enable, pending, turn, calls := e, 0, 0, 0, [];
      table := new Handler[NR_IRQS](i => Dummy);
    }

    method Enable(irqn: nat, handler: Handler)
      requires Valid() && irqn < NR_IRQS
      modifies table, this`enable
      ensures Valid() && table[irqn] == handler && enable == Or(old(enable), Pow2(irqn))
      ensures forall i :: 0 <= i < NR_IRQS && i != irqn ==> table[i] == old(table[i])
    {
      table[irqn] := handler;
      enable := Or(enable, Pow2(irqn));
    }

    /**
     * irqProcess, called at any time. If some turn n finds nothing pending, as the loop needs to end, it ends
     * with nothing pending, having added one call in each turn: the table's handler for the line served, with
     * that line.
     */
    method Process(ghost n: nat) returns (ghost k: nat)
      requires Valid() && PendingAfter(From(env, turn), pending, n) == 0
      requires forall t: nat :: env.early(t) < Pow2(NR_IRQS) && env.late(t) < Pow2(NR_IRQS)
      modifies this`pending, this`turn, this`calls
      ensures Valid() && pending == 0 && turn == old(turn) + k
      ensures |calls| == |old(calls)| + k && old(calls) <= calls
      ensures var e := From(env, old(turn));
              && Running(e, old(pending), k) && PendingAfter(e, old(pending), k) == 0
              && forall i :: 0 <= i < k ==>
                   && 0 <= Served(e, old(pending), i) < NR_IRQS
                   && calls[|old(calls)| + i].irqn == Served(e, old(pending), i)
                   && calls[|old(calls)| + i].handler == table[Served(e, old(pending), i)]
    {
      hide TopBit, Or, AndNot, Pow2, Bit, PendingAfter, Running;
      ghost var p0, e := pending, From(env, turn);
      k := 0;
      FirstTurn(e, p0);
      while true
        invariant Valid() && turn == old(turn) + k && pending == PendingAfter(e, p0, k) && Running(e, p0, k)
        invariant |calls| == |old(calls)| + k && old(calls) <= calls
        invariant forall i :: 0 <= i < k ==>
                    && 0 <= Served(e, p0, i) < NR_IRQS
                    && calls[|old(calls)| + i] == Call(table[Served(e, p0, i)], Served(e, p0, i))
        decreases n - k
      {
        var irqn := TopBit(pending);
        if irqn < 0 {
          break;
        }
        TopBitBounded(pending, NR_IRQS);
        TurnBounded(pending, turn);
        NextTurn(e, p0, k);
        if n <= k { ZeroStays(e, p0, n, k); }
        var raised := Or(pending, env.early(turn));
        pending := AndNot(raised, Pow2(irqn));
        calls := calls + [Call(table[irqn], irqn)];
        pending := Or(pending, env.late(turn));
        turn := turn + 1;
        k := k + 1;
      }
    }

    lemma TurnBounded(p: nat, t: nat)
      requires 0 < p < Pow2(NR_IRQS)
      requires env.early(t) < Pow2(NR_IRQS) && env.late(t) < Pow2(NR_IRQS)
      ensures Turn(env, p, t) < Pow2(NR_IRQS)
    {
      OrBounded(p, env.early(t), NR_IRQS);
      OrBounded(AndNot(Or(p, env.early(t)), Pow2(TopBit(p))), env.late(t), NR_IRQS);
    }
  }

  /**
   * What enabling a line is for: with handler h in its entry, every raise of the line during the loop, and a
   * line pending before it, has h called with that line at that turn or later.
   */
  lemma RaiseReachesHandler(e: Env, p: nat, k: nat, calls: seq<Call>, l: nat, h: Handler, t: nat)
    requires Running(e, p, k) && PendingAfter(e, p, k) == 0 && |calls| == k
    requires forall i :: 0 <= i < k && calls[i].irqn == l ==> calls[i].handler == h
    requires forall i :: 0 <= i < k ==> calls[i].irqn == Served(e, p, i)
    requires t <= k && (if t < k && RaisedIn(e, t, l) then true else t == 0 && Bit(p, l))
    ensures exists j :: t <= j < k && calls[j].irqn == l && calls[j].handler == h
  {
    hide Bit, PendingAfter, Served;
    ZeroHasNoBits(l);
    if t < k && RaisedIn(e, t, l) {
      EveryRaiseIsServed(e, p, t, k, l);
    } else {
      FirstTurn(e, p);
      PendingUntilServed(e, p, 0, k, l);
    }
  }

  /** And nothing else makes that handler run: a call for the line has its raise, or it was pending before. */
  lemma CallHasRaise(e: Env, p: nat, k: nat, calls: seq<Call>, l: nat, j: nat)
    requires Running(e, p, k) && |calls| == k && j < k && calls[j].irqn == l
    requires forall i :: 0 <= i < k ==> calls[i].irqn == Served(e, p, i)
    ensures Bit(p, l) || exists t :: 0 <= t < k && RaisedIn(e, t, l)
  {
    hide Bit, PendingAfter, Served;
    ServedWasRaised(e, p, k, l);
    if !Bit(p, l) {
      var t :| 0 <= t < k && (Bit(e.early(t), l) || Bit(e.late(t), l));
      assert RaisedIn(e, t, l);
    }
  }

  /** irqEnable, and then irqProcess: every raise of the line from here on reaches the handler given. */
  method EnableThenProcess(ctl: IrqController, l: nat, h: Handler, ghost n: nat) returns (ghost k: nat)
    requires ctl.Valid() && l < NR_IRQS && PendingAfter(From(ctl.env, ctl.turn), ctl.pending, n) == 0
    requires forall t: nat :: ctl.env.early(t) < Pow2(NR_IRQS) && ctl.env.late(t) < Pow2(NR_IRQS)
    modifies ctl, ctl.table
    ensures ctl.Valid() && ctl.pending == 0 && old(ctl.calls) <= ctl.calls
    ensures forall t: nat :: old(ctl.turn) <= t < ctl.turn && RaisedIn(ctl.env, t, l) ==>
              exists j :: |old(ctl.calls)| + t - old(ctl.turn) <= j < |ctl.calls| && ctl.calls[j] == Call(h, l)
    ensures Bit(old(ctl.pending), l) ==> exists j :: |old(ctl.calls)| <= j < |ctl.calls| && ctl.calls[j] == Call(h, l)
  {
    hide Bit, PendingAfter, Served, Running, Pow2, Or;
    ghost var e, p, start, before := From(ctl.env, ctl.turn), ctl.pending, ctl.turn, |ctl.calls|;
    ctl.Enable(l, h);
    k := ctl.Process(n);
    ghost var added := ctl.calls[before..];
    forall i | 0 <= i < k
      ensures added[i].irqn == Served(e, p, i) && (added[i].irqn == l ==> added[i].handler == h)
    {
      assert added[i] == ctl.calls[before + i];
    }
    forall t: nat | start <= t < ctl.turn && RaisedIn(ctl.env, t, l)
      ensures exists j :: before + t - start <= j < |ctl.calls| && ctl.calls[j] == Call(h, l)
    {
      RaisedFrom(ctl.env, start, t - start, l);
      RaiseReachesHandler(e, p, k, added, l, h, t - start);
      var j :| t - start <= j < k && added[j].irqn == l && added[j].handler == h;
      assert ctl.calls[before + j] == added[j];
    }
    if Bit(p, l) {
      RaiseReachesHandler(e, p, k, added, l, h, 0);
      var j :| 0 <= j < k && added[j].irqn == l && added[j].handler == h;
      assert ctl.calls[before + j] == added[j];
    }
  }
}
