/**
 * One service, seen both ways: the drain of a backlog on values, which the manager's method performs, is a
 * run of the ring protocol in which only the device moves, and so an event sequence of the scheduler.
 */
module Service {
  import opened Bits
  import opened QueueRegs
  import opened DeviceJobs
  import opened Drain
  import R = SplitRing
  import opened Scheduler
  import Manager

  /** The ring stands between two jobs and holds what the guest and the device side say. */
  ghost predicate Agrees(r: R.State, g: Guest, s: Side) {
    && r.q == s.q && r.availLast == g.last && r.avail == g.avail && r.usedLast == s.last && r.used == s.ring
    && r.dev.Idle? && R.Shaped(r)
  }

  /** One round of the device program, with n the length reported. */
  function Round(r: R.State, n: u32): (r': R.State)
    requires R.Shaped(r) && r.dev.Idle? && FetchIndex(r.q, r.availLast) >= 0
  {
    R.Step(R.Step(R.Step(R.Step(r, R.Fetch), R.Load), R.Store(n)), R.Bump)
  }

  /** With the driver silent, fetch, load, store and bump are one round of the drain loop. */
  lemma RoundIsServeNext(dev: Device, g: Guest, s: Side, r: R.State)
    requires Agrees(r, g, s) && RingOk(g, s) && NextFits(dev, g, s) && FetchIndex(s.q, g.last) >= 0
    ensures var head := g.avail[FetchIndex(s.q, g.last)];
            var n := ServeHead(dev, g.table, Size(s.q), s.st, head).written;
            Agrees(Round(r, n), g, ServeNext(dev, g, s))
  {
    hide And, ServeHead, JobFits, PowerSized;
  }

  // ---------- as events of the scheduler ----------

  /** evs leads from s to s'. */
  ghost predicate Leads(s: System, evs: seq<Event>, s': System)
    decreases evs
  {
    Shaped(s) && if evs == [] then s' == s else Enabled(s, evs[0]) && Leads(Step(s, evs[0]), evs[1..], s')
  }

  /** Such a sequence of events is a run. */
  lemma {:induction false} LeadsIsRun(s: System, evs: seq<Event>, s': System) returns (tr: seq<System>)
    requires Leads(s, evs, s')
    ensures IsRun(tr, evs) && tr[0] == s && tr[|evs|] == s'
    decreases evs
  {
    hide Shaped, Step;
    if evs == [] {
      tr := [s];
    } else {
      var rest := LeadsIsRun(Step(s, evs[0]), evs[1..], s');
      tr := [s] + rest;
      forall i | 0 <= i < |evs|
        ensures Follows(tr, evs, i)
      {
        if i > 0 { assert Follows(rest, evs[1..], i - 1); }
      }
    }
  }

  function RoundEvents(n: u32): seq<Event> {
    [Device(R.Fetch), Device(R.Load), Device(R.Store(n)), Device(R.Bump)]
  }

  ghost function WithRing(s: System, q: Key, r: R.State): System {
    s.(rings := s.rings[q := r])
  }

  lemma {:induction false} LeadsOn(s: System, evs: seq<Event>, s': System, more: seq<Event>, s'': System)
    requires Leads(s, evs, s') && Leads(s', more, s'')
    ensures Leads(s, evs + more, s'')
    decreases evs
  {
    hide Shaped, Step, Enabled;
    if evs == [] {
      assert evs + more == more;
    } else {
      LeadsOn(Step(s, evs[0]), evs[1..], s', more, s'');
      assert (evs + more)[1..] == evs[1..] + more;
    }
  }

  lemma LeadsOne(s: System, e: Event)
    requires Shaped(s) && Enabled(s, e) && Shaped(Step(s, e))
    ensures Leads(s, [e], Step(s, e))
  {
    hide Shaped, Enabled, Step;
    assert [e][1..] == [];
    assert Leads(Step(s, e), [], Step(s, e));
  }

  /** A step of the device program while q is being served. */
  lemma DeviceLeads(s: System, q: Key, a: R.Action)
    requires Shaped(s) && s.busy == With(q) && !IsDriverAction(a)
    requires R.Enabled(s.rings[q], a) && !EndsService(s.rings[q], a)
    ensures Leads(s, [Device(a)], WithRing(s, q, R.Step(s.rings[q], a)))
    ensures Shaped(WithRing(s, q, R.Step(s.rings[q], a)))
  {
    hide FetchIndex, PushIndex, AdvanceUsed, AdvanceAvail, Leads;
    LeadsOne(s, Device(a));
  }

  /** One round while q is being served. */
  lemma RoundLeads(s: System, q: Key, n: u32)
    requires Shaped(s) && s.busy == With(q)
    requires s.rings[q].dev.Idle? && FetchIndex(s.rings[q].q, s.rings[q].availLast) >= 0
    ensures Leads(s, RoundEvents(n), WithRing(s, q, Round(s.rings[q], n)))
  {
    hide Shaped, R.Shaped, FetchIndex, PushIndex, AdvanceUsed, AdvanceAvail, Leads;
    ShapedRing(s, q);
    var r := s.rings[q];
    var r1 := R.Step(r, R.Fetch);
    var r2 := R.Step(r1, R.Load);
    var r3 := R.Step(r2, R.Store(n));
    var r4 := R.Step(r3, R.Bump);
    var s1, s2, s3, s4 := WithRing(s, q, r1), WithRing(s, q, r2), WithRing(s, q, r3), WithRing(s, q, r4);
    assert WithRing(s1, q, r2) == s2 && WithRing(s2, q, r3) == s3 && WithRing(s3, q, r4) == s4;
    DeviceLeads(s, q, R.Fetch);
    DeviceLeads(s1, q, R.Load);
    DeviceLeads(s2, q, R.Store(n));
    DeviceLeads(s3, q, R.Bump);
    LeadsOn(s, [Device(R.Fetch)], s1, [Device(R.Load)], s2);
    LeadsOn(s2, [Device(R.Store(n))], s3, [Device(R.Bump)], s4);
    LeadsOn(s, [Device(R.Fetch)] + [Device(R.Load)], s2, [Device(R.Store(n))] + [Device(R.Bump)], s4);
    assert RoundEvents(n) == [Device(R.Fetch)] + [Device(R.Load)] + ([Device(R.Store(n))] + [Device(R.Bump)]);
  }

  lemma ShapedRing(s: System, q: Key)
    requires Shaped(s) && s.busy == With(q)
    ensures q in s.rings && R.Shaped(s.rings[q])
  {
  }

  ghost predicate AllDevice(evs: seq<Event>) {
    forall i :: 0 <= i < |evs| ==> evs[i].Device?
  }

  /** After k rounds of the drain loop, the device program alone carries the service to its end. */
  lemma {:induction false} RestOfService(dev: Device, g: Guest, s0: Side, k: nat, side: Side, s: System, q: Key)
    returns (evs: seq<Event>, end: Side, s': System)
    requires RingOk(g, s0) && BacklogFits(dev, g, s0) && Reached(dev, g, s0, k, side)
    requires Shaped(s) && s.busy == With(q) && q in s.rings && Agrees(s.rings[q], g, side)
    ensures Leads(s, evs, s') && ServedAll(dev, g, s0, end) && AllDevice(evs)
    ensures q in s'.rings && Agrees(s'.rings[q], g, end)
    ensures s' == WithRing(s, q, s'.rings[q]).(busy := NoOne)
    decreases Backlog(s0.q, g.last) - k
  {
    hide RingOk, BacklogFits, NextFits, FetchIndex, Shaped, ServeNext, Reached, ServedAll, Backlog, Agrees, Leads;
    ReachedReady(dev, g, s0, k, side);
    ReachedAtMost(dev, g, s0, k, side);
    if FetchIndex(side.q, g.last) < 0 {
      evs, end := [Device(R.Fetch)], side;
      s' := s.(busy := NoOne);
      LastRound(g, side, s, q);
    } else {
      ReachedNext(dev, g, s0, k, side);
      var some, mid := NextRound(dev, g, side, s, q);
      var rest;
      rest, end, s' := RestOfService(dev, g, s0, k + 1, ServeNext(dev, g, side), mid, q);
      LeadsOn(s, some, mid, rest, s');
      evs := some + rest;
    }
  }

  lemma LastRound(g: Guest, side: Side, s: System, q: Key)
    requires Shaped(s) && s.busy == With(q) && q in s.rings && Agrees(s.rings[q], g, side)
    requires FetchIndex(side.q, g.last) < 0
    ensures Leads(s, [Device(R.Fetch)], s.(busy := NoOne))
    ensures s.(busy := NoOne) == WithRing(s, q, s.rings[q]).(busy := NoOne)
  {
    hide FetchIndex, R.Shaped, Leads;
    LastFetch(s, q);
    assert s.rings[q := s.rings[q]] == s.rings;
  }

  lemma NextRound(dev: Device, g: Guest, side: Side, s: System, q: Key) returns (evs: seq<Event>, s': System)
    requires RingOk(g, side) && NextFits(dev, g, side) && FetchIndex(side.q, g.last) >= 0
    requires Shaped(s) && s.busy == With(q) && q in s.rings && Agrees(s.rings[q], g, side)
    ensures Leads(s, evs, s') && AllDevice(evs)
    ensures Shaped(s') && q in s'.rings && s' == WithRing(s, q, s'.rings[q])
    ensures Agrees(s'.rings[q], g, ServeNext(dev, g, side))
  {
    hide RingOk, NextFits, FetchIndex, R.Shaped, ServeNext, Round, ServeHead, Leads;
    var n := LengthOf(dev, g, side);
    RoundIsServeNext(dev, g, side, s.rings[q]);
    RoundLeads(s, q, n);
    evs, s' := RoundEvents(n), WithRing(s, q, Round(s.rings[q], n));
    ShapedWithRing(s, q, Round(s.rings[q], n));
  }

  /** The length reported for the next job. */
  ghost function LengthOf(dev: Device, g: Guest, s: Side): u32
    requires RingOk(g, s) && NextFits(dev, g, s) && FetchIndex(s.q, g.last) >= 0
  {
    ServeHead(dev, g.table, Size(s.q), s.st, g.avail[FetchIndex(s.q, g.last)]).written
  }

  lemma ReachedAtMost(dev: Device, g: Guest, s0: Side, k: nat, s: Side)
    requires RingOk(g, s0) && BacklogFits(dev, g, s0) && Reached(dev, g, s0, k, s)
    ensures k <= Backlog(s0.q, g.last)
    ensures k == Backlog(s0.q, g.last) ==> ServedAll(dev, g, s0, s)
  {
    hide Backlog, PowerSized;
  }

  lemma ShapedWithRing(s: System, q: Key, r: R.State)
    requires Shaped(s) && q in s.rings && R.Shaped(r)
    ensures Shaped(WithRing(s, q, r))
  {
    hide R.Shaped;
  }

  lemma LastFetch(s: System, q: Key)
    requires Shaped(s) && s.busy == With(q) && s.rings[q].dev.Idle?
    requires FetchIndex(s.rings[q].q, s.rings[q].availLast) < 0
    ensures Leads(s, [Device(R.Fetch)], s.(busy := NoOne))
  {
    hide FetchIndex, R.Shaped, Leads;
    assert s.rings[q := s.rings[q]] == s.rings;
    assert Step(s, Device(R.Fetch)) == s.(busy := NoOne);
    LeadsOne(s, Device(R.Fetch));
  }

  // ---------- the outcome is determined ----------

  /** Serving a backlog has one outcome. */
  lemma OutcomeUnique(dev: Device, g: Guest, s0: Side, a: Side, b: Side)
    requires ServedAll(dev, g, s0, a) && ServedAll(dev, g, s0, b)
    ensures a == b
  {
    hide And, StateAfter, BacklogFits, Heads, Placed, Wrap;
    var es := EntriesAfter(dev, g, s0, Backlog(s0.q, g.last));
    SameRing(s0.ring, s0.q.usedIdx, Size(s0.q), es, a.ring, b.ring);
  }

  lemma SameRing(ring0: seq<UsedElem>, start: nat, size: nat, es: seq<UsedElem>, a: seq<UsedElem>, b: seq<UsedElem>)
    requires 0 < size <= |ring0| && Placed(ring0, start, size, es, a) && Placed(ring0, start, size, es, b)
    ensures a == b
  {
    forall x | 0 <= x < |ring0|
      ensures a[x] == b[x]
    {
      if x in Slots(start, size, |es|) {
        var i :| 0 <= i < |es| && Slots(start, size, |es|)[i] == x;
        SlotAt(start, size, |es|, i);
        assert a[Wrap(start + i, size)] == es[i] == b[Wrap(start + i, size)];
      }
    }
  }

  // ---------- virtManagerProcessPending as a run ----------

  /** The ring of a queue shows what the manager's view of it says. */
  ghost predicate Shows(r: R.State, v: Manager.View) {
    match v
    case Active(g, side) => Agrees(r, g, side)
    case Asleep(regs, _) => r.q == regs && regs.ready == 0 && r.dev.Idle?
  }

  /** From s to s' the head of the list was served: a service begins, only the device moves, and it ends. */
  ghost predicate OneService(s: System, evs: seq<Event>, s': System) {
    && s.pending != [] && s.busy.NoOne? && evs != [] && evs[0].Begin? && AllDevice(evs[1..]) && Leads(s, evs, s')
    && s'.pending == s.pending[1..] && s'.busy.NoOne?
    && s.pending[0] in s'.rings && s'.rings == s.rings[s.pending[0] := s'.rings[s.pending[0]]]
  }

  /**
   * What virtManagerProcessPending is proved to do to the queue at the head of the list is a run of the
   * scheduler, with the queue off the list, its ring as the method leaves it, and every other ring and the
   * order of the rest of the list untouched.
   */
  lemma ProcessPendingIsARun(dev: Device, before: Manager.View, after: Manager.View, s: System)
    returns (evs: seq<Event>, s': System)
    requires Manager.Served(dev, before, after)
    requires Shaped(s) && s.busy.NoOne? && s.pending != [] && Shows(s.rings[s.pending[0]], before)
    ensures OneService(s, evs, s') && Shows(s'.rings[s.pending[0]], after)
  {
    hide RingOk, BacklogFits, FetchIndex, R.Shaped, ServedAll, Reached, Leads, Agrees;
    var q := s.pending[0];
    var s1 := s.(pending := s.pending[1..], busy := With(q));
    var rest;
    ServiceBegins(s);
    match before {
      case Active(g, side) =>
        ServedFacts(dev, g, side, after.side);
        ReachedStart(dev, g, side);
        var end;
        rest, end, s' := RestOfService(dev, g, side, 0, side, s1, q);
        OutcomeUnique(dev, g, side, end, after.side);
      case Asleep(regs, _) =>
        rest, s' := [Device(R.Fetch)], s1.(busy := NoOne);
        AsleepFetch(s.rings[q]);
        LastFetch(s1, q);
    }
    evs := [Begin] + rest;
    LeadsOn(s, [Begin], s1, rest, s');
    assert evs[1..] == rest;
  }

  lemma ServiceBegins(s: System)
    requires Shaped(s) && s.busy.NoOne? && s.pending != []
    ensures var s1 := s.(pending := s.pending[1..], busy := With(s.pending[0]));
            Shaped(s1) && Leads(s, [Begin], s1)
  {
    hide R.Shaped;
    LeadsOne(s, Begin);
  }

  lemma ServedFacts(dev: Device, g: Guest, s0: Side, s: Side)
    requires ServedAll(dev, g, s0, s)
    ensures RingOk(g, s0) && BacklogFits(dev, g, s0)
  {
  }

  lemma AsleepFetch(r: R.State)
    requires r.q.ready == 0
    ensures FetchIndex(r.q, r.availLast) < 0
  {
  }
}
