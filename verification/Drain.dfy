/** What serving a whole backlog does to the ring side of a queue, whatever the device does per job. */
module Drain {
  import opened Bits
  import opened QueueRegs
  import opened Chains
  import opened DeviceJobs

  /** The slots that n consecutive free-running positions fall into. */
  function Slots(start: nat, size: nat, n: nat): (r: seq<nat>)
    requires size > 0
    ensures |r| == n && forall i :: 0 <= i < n ==> r[i] < size
  {
    if n == 0 then [] else Slots(start, size, n - 1) + [Wrap(start + n - 1, size)]
  }

  lemma {:induction false} SlotAt(start: nat, size: nat, n: nat, i: nat)
    requires size > 0 && i < n
    ensures Slots(start, size, n)[i] == Wrap(start + i, size)
    decreases n
  {
    if i < n - 1 { SlotAt(start, size, n - 1, i); }
  }

  /** Heads found in n consecutive positions. */
  function Heads(ring: seq<u16>, start: nat, size: nat, n: nat): (hs: seq<u16>)
    requires 0 < size <= |ring|
    ensures |hs| == n
  {
    if n == 0 then [] else Heads(ring, start, size, n - 1) + [ring[Wrap(start + n - 1, size)]]
  }

  lemma {:induction false} HeadAt(ring: seq<u16>, start: nat, size: nat, n: nat, i: nat)
    requires 0 < size <= |ring| && i < n
    ensures Heads(ring, start, size, n)[i] == ring[Wrap(start + i, size)]
    decreases n
  {
    if i < n - 1 { HeadAt(ring, start, size, n - 1, i); }
  }

  /** Number of heads the device sees as pending. */
  function Backlog(q: Queue, last: u16): (n: nat)
    ensures n < Size(q)
  {
    if q.ready == 0 then 0 else (last - q.availIdx) % Size(q)
  }

  lemma WrapApart(x: nat, y: nat, size: nat)
    requires size > 0 && x <= y < x + size
    ensures Wrap(x, size) == Wrap(y, size) <==> x == y
  {
    WrapIsMod(x, size);
    WrapIsMod(y, size);
    ModApart(x, y, size);
  }

  /** The entries stand in consecutive positions and no other slot has changed. */
  ghost predicate Placed(ring0: seq<UsedElem>, start: nat, size: nat, es: seq<UsedElem>, ring: seq<UsedElem>)
    requires 0 < size <= |ring0|
  {
    && |ring| == |ring0|
    && (forall i :: 0 <= i < |es| ==> ring[Wrap(start + i, size)] == es[i])
    && (forall x :: 0 <= x < |ring0| && x !in Slots(start, size, |es|) ==> ring[x] == ring0[x])
  }

  lemma PlacedOneMore(ring0: seq<UsedElem>, start: nat, size: nat, es: seq<UsedElem>, ring: seq<UsedElem>, e: UsedElem)
    requires 0 < size <= |ring0| && |es| < size && Placed(ring0, start, size, es, ring)
    ensures Placed(ring0, start, size, es + [e], ring[Wrap(start + |es|, size) := e])
  {
    var slot := Wrap(start + |es|, size);
    var es', ring' := es + [e], ring[slot := e];
    forall i | 0 <= i < |es'|
      ensures ring'[Wrap(start + i, size)] == es'[i]
    {
      WrapApart(start + i, start + |es|, size);
      if i < |es| { assert ring[Wrap(start + i, size)] == es[i]; }
    }
    assert Slots(start, size, |es'|) == Slots(start, size, |es|) + [slot];
    assert slot in Slots(start, size, |es'|);
  }

  /** What n re-masked increments make of an index. */
  function IndexAfter(start: u16, size: nat, n: nat): u16
    requires size > 0
  {
    if n == 0 then start else (Wrap(start + n - 1, size) + 1) % 0x1_0000
  }

  /** A free-running 16-bit counter after n increments. */
  function Plus16(x: u16, n: nat): u16 {
    (x + n) % 0x1_0000
  }

  /** The registers after n jobs. */
  function Advanced(q: Queue, n: nat): (r: Queue)
    ensures r == q.(availIdx := r.availIdx, usedIdx := r.usedIdx)
  {
    q.(availIdx := IndexAfter(q.availIdx, Size(q), n), usedIdx := IndexAfter(q.usedIdx, Size(q), n))
  }

  /** The queue and its used ring after returning es, starting from q0, last0 and ring0. */
  ghost predicate Drained(q0: Queue, last0: u16, ring0: seq<UsedElem>, es: seq<UsedElem>,
                          q: Queue, last: u16, ring: seq<UsedElem>)
    requires Size(q0) <= |ring0|
  {
    && q == Advanced(q0, |es|)
    && last == Plus16(last0, |es|)
    && Placed(ring0, q0.usedIdx, Size(q0), es, ring)
  }

  lemma MaskIsWrap(q: Queue, x: u16)
    requires PowerSized(q)
    ensures And(x, q.sizeMask) == Wrap(x, Size(q))
  {
    var k: nat :| k <= 16 && q.sizeMask == Pow2(k) - 1;
    AndMask(x, k);
    WrapIsMod(x, Size(q));
  }

  /** An index stands for the slot that the unbounded count would. */
  lemma AfterWraps(q: Queue, start: u16, n: nat)
    requires PowerSized(q)
    ensures Wrap(IndexAfter(start, Size(q), n), Size(q)) == Wrap(start + n, Size(q))
  {
    hide Wrap;
    if n > 0 {
      var size := Size(q);
      var k: nat :| k <= 16 && size == Pow2(k);
      NextWrap(start + n - 1, k, size);
    }
  }

  lemma NextWrap(n: nat, k: nat, size: nat)
    requires k <= 16 && size == Pow2(k)
    ensures Wrap((Wrap(n, size) + 1) % 0x1_0000, size) == Wrap(n + 1, size)
  {
    var slot := Wrap(n, size);
    assert (slot + 1) % 0x1_0000 % size == (n + 1) % size by {
      WrapIsMod(n, size);
      NextSlot(n, k);
    }
    WrapIsMod(n + 1, size);
    WrapIsMod((slot + 1) % 0x1_0000, size);
  }

  lemma BacklogSlot(idx: nat, avail: nat, size: nat)
    requires size > 0
    ensures Wrap(idx + (avail - idx) % size, size) == Wrap(avail, size)
  {
    var d := avail - idx;
    assert avail == idx + d % size + size * (d / size);
    ModShift(idx + d % size, size, d / size);
    WrapIsMod(idx + d % size, size);
    WrapIsMod(avail, size);
  }

  lemma BacklogStops(idx: nat, avail: nat, size: nat, m: nat)
    requires size > 0 && m <= (avail - idx) % size
    ensures Wrap(idx + m, size) == Wrap(avail, size) <==> m == (avail - idx) % size
  {
    BacklogSlot(idx, avail, size);
    WrapApart(idx + m, idx + (avail - idx) % size, size);
  }

  /** After some of the backlog's jobs the fetch test stops exactly when none is left. */
  lemma BacklogMeaning(q0: Queue, avail: u16, last0: u16, ring0: seq<UsedElem>, es: seq<UsedElem>,
                       q: Queue, last: u16, ring: seq<UsedElem>)
    requires PowerSized(q0) && q0.ready != 0 && Size(q0) <= |ring0| && |es| <= Backlog(q0, avail)
    requires Drained(q0, last0, ring0, es, q, last, ring)
    ensures FetchIndex(q, avail) ==
            if |es| == Backlog(q0, avail) then -1 else Wrap(q0.availIdx + |es|, Size(q0))
  {
    hide Wrap, And, PowerSized, Placed, IndexAfter;
    AfterWraps(q0, q0.availIdx, |es|);
    MaskIsWrap(q0, q.availIdx);
    MaskIsWrap(q0, avail);
    BacklogStops(q0.availIdx, avail, Size(q0), |es|);
  }

  lemma DrainedKeeps(q0: Queue, last0: u16, ring0: seq<UsedElem>, es: seq<UsedElem>,
                     q: Queue, last: u16, ring: seq<UsedElem>)
    requires Size(q0) <= |ring0| && Drained(q0, last0, ring0, es, q, last, ring)
    ensures q == q0.(availIdx := q.availIdx, usedIdx := q.usedIdx) && |ring| == |ring0|
    ensures PowerSized(q0) ==> PowerSized(q)
  {
  }

  /** Fetch, serve and push one job. */
  lemma DrainedOneMore(q0: Queue, last0: u16, ring0: seq<UsedElem>, es: seq<UsedElem>,
                       q: Queue, last: u16, ring: seq<UsedElem>, e: UsedElem)
    requires PowerSized(q0) && Size(q0) <= |ring0| && |es| < Size(q0)
    requires Drained(q0, last0, ring0, es, q, last, ring)
    ensures var q1 := AdvanceAvail(q, Wrap(q0.availIdx + |es|, Size(q0)));
            Drained(q0, last0, ring0, es + [e], AdvanceUsed(q1), Plus16(last, 1), ring[PushIndex(q1) := e])
  {
    hide Wrap, PowerSized, Placed, Advanced, AdvanceAvail, AdvanceUsed, PushIndex, Plus16;
    RoundIndices(q0, |es|);
    Count16(last0, |es|);
    PlacedLength(ring0, q0.usedIdx, Size(q0), es, ring);
    PutOneMore(q0, last0, ring0, es, ring, e);
  }

  lemma PutOneMore(q0: Queue, last0: u16, ring0: seq<UsedElem>, es: seq<UsedElem>, ring: seq<UsedElem>, e: UsedElem)
    requires Size(q0) <= |ring0| == |ring| && |es| < Size(q0) && Placed(ring0, q0.usedIdx, Size(q0), es, ring)
    ensures Drained(q0, last0, ring0, es + [e], Advanced(q0, |es| + 1), Plus16(last0, |es| + 1),
                    ring[Wrap(q0.usedIdx + |es|, Size(q0)) := e])
  {
    hide Wrap, Advanced, Plus16, Placed;
    PlacedOneMore(ring0, q0.usedIdx, Size(q0), es, ring, e);
    assert |es + [e]| == |es| + 1;
  }

  lemma PlacedLength(ring0: seq<UsedElem>, start: nat, size: nat, es: seq<UsedElem>, ring: seq<UsedElem>)
    requires 0 < size <= |ring0| && Placed(ring0, start, size, es, ring)
    ensures |ring| == |ring0|
  {
  }

  /** The registers and the used slot of one round. */
  lemma RoundIndices(q0: Queue, n: nat)
    requires PowerSized(q0)
    ensures var q1 := AdvanceAvail(Advanced(q0, n), Wrap(q0.availIdx + n, Size(q0)));
            PushIndex(q1) == Wrap(q0.usedIdx + n, Size(q0)) && AdvanceUsed(q1) == Advanced(q0, n + 1)
  {
    hide Wrap, And, PowerSized;
    AfterWraps(q0, q0.usedIdx, n);
    MaskIsWrap(q0, IndexAfter(q0.usedIdx, Size(q0), n));
  }

  lemma Count16(x: u16, n: nat)
    ensures Plus16(Plus16(x, n), 1) == Plus16(x, n + 1)
  {
  }

  // ---------- draining a queue, on values ----------

  /** What the guest has written: its descriptor table and its available ring. */
  datatype Guest = Guest(table: seq<Desc>, last: u16, avail: seq<u16>)

  /** The queue, the used ring and the device state. */
  datatype Side = Side(q: Queue, last: u16, ring: seq<UsedElem>, st: DevState)

  ghost predicate RingOk(g: Guest, s: Side) {
    && PowerSized(s.q) && s.q.ready != 0
    && Size(s.q) <= |g.table| && Size(s.q) <= |g.avail| && Size(s.q) <= |s.ring|
  }

  /** The next job, if there is one, can be served. */
  ghost predicate NextFits(dev: Device, g: Guest, s: Side)
    requires RingOk(g, s)
  {
    var i := FetchIndex(s.q, g.last);
    i >= 0 ==> JobFits(dev, g.table, Size(s.q), g.avail[i], |s.st.ram|)
  }

  /** Fetch one job, serve it and push it; nothing happens when there is none. */
  ghost function ServeNext(dev: Device, g: Guest, s: Side): (s': Side)
    requires RingOk(g, s) && NextFits(dev, g, s)
  {
    var i := FetchIndex(s.q, g.last);
    if i < 0 then s
    else
      var q1 := AdvanceAvail(s.q, i);
      var end := ServeHead(dev, g.table, Size(s.q), s.st, g.avail[i]);
      Side(AdvanceUsed(q1), (s.last + 1) % 0x1_0000,
           s.ring[PushIndex(q1) := UsedElem(g.avail[i], end.written)], end.(written := 0))
  }

  /** The pending heads, oldest first. */
  ghost function Pending(g: Guest, s: Side): (hs: seq<u16>)
    requires RingOk(g, s)
    ensures |hs| == Backlog(s.q, g.last)
  {
    Heads(g.avail, s.q.availIdx, Size(s.q), Backlog(s.q, g.last))
  }

  /** Every pending job can be served. */
  ghost predicate BacklogFits(dev: Device, g: Guest, s: Side)
    requires RingOk(g, s)
  {
    var hs := Pending(g, s);
    forall i :: 0 <= i < |hs| ==> JobFits(dev, g.table, Size(s.q), hs[i], |s.st.ram|)
  }

  /** Device state after serving the first k pending heads one after the other. */
  ghost function StateAfter(dev: Device, g: Guest, s: Side, k: nat): (st: DevState)
    requires RingOk(g, s) && BacklogFits(dev, g, s) && k <= Backlog(s.q, g.last)
    ensures |st.ram| == |s.st.ram|
    decreases k
  {
    if k == 0 then s.st
    else ServeHead(dev, g.table, Size(s.q), StateAfter(dev, g, s, k - 1), Pending(g, s)[k - 1]).(written := 0)
  }

  /** The used entries of the first k pending heads. */
  ghost function EntriesAfter(dev: Device, g: Guest, s: Side, k: nat): (es: seq<UsedElem>)
    requires RingOk(g, s) && BacklogFits(dev, g, s) && k <= Backlog(s.q, g.last)
    ensures |es| == k
    decreases k
  {
    if k == 0 then []
    else
      var head := Pending(g, s)[k - 1];
      EntriesAfter(dev, g, s, k - 1)
      + [UsedElem(head, ServeHead(dev, g.table, Size(s.q), StateAfter(dev, g, s, k - 1), head).written)]
  }

  /** s is where k rounds of the drain loop lead from s0. */
  ghost predicate Reached(dev: Device, g: Guest, s0: Side, k: nat, s: Side)
    requires RingOk(g, s0) && BacklogFits(dev, g, s0)
  {
    && k <= Backlog(s0.q, g.last)
    && Drained(s0.q, s0.last, s0.ring, EntriesAfter(dev, g, s0, k), s.q, s.last, s.ring)
    && s.st == StateAfter(dev, g, s0, k)
  }

  /** s is where serving the whole backlog of s0 leads. */
  ghost predicate ServedAll(dev: Device, g: Guest, s0: Side, s: Side) {
    RingOk(g, s0) && BacklogFits(dev, g, s0) && Reached(dev, g, s0, Backlog(s0.q, g.last), s)
  }

  lemma ReachedStart(dev: Device, g: Guest, s0: Side)
    requires RingOk(g, s0) && BacklogFits(dev, g, s0)
    ensures Reached(dev, g, s0, 0, s0)
  {
    hide And, Wrap, PowerSized, Heads, JobFits, Backlog;
  }

  /** In every round the fetch finds the next pending head, or nothing exactly when all are served. */
  lemma ReachedReady(dev: Device, g: Guest, s0: Side, k: nat, s: Side)
    requires RingOk(g, s0) && BacklogFits(dev, g, s0) && Reached(dev, g, s0, k, s)
    ensures RingOk(g, s) && NextFits(dev, g, s) && Size(s.q) == Size(s0.q)
    ensures FetchIndex(s.q, g.last) < 0 <==> k == Backlog(s0.q, g.last)
    ensures k < Backlog(s0.q, g.last) ==>
              FetchIndex(s.q, g.last) == Wrap(s0.q.availIdx + k, Size(s0.q))
              && g.avail[FetchIndex(s.q, g.last)] == Pending(g, s0)[k]
  {
    hide Drained, Wrap, Heads, JobFits, FetchIndex, PowerSized, ServeHead, Backlog;
    DrainedKeeps(s0.q, s0.last, s0.ring, EntriesAfter(dev, g, s0, k), s.q, s.last, s.ring);
    BacklogMeaning(s0.q, g.last, s0.last, s0.ring, EntriesAfter(dev, g, s0, k), s.q, s.last, s.ring);
    if k < Backlog(s0.q, g.last) {
      HeadAt(g.avail, s0.q.availIdx, Size(s0.q), Backlog(s0.q, g.last), k);
    }
  }

  lemma NothingLeft(dev: Device, g: Guest, s: Side)
    requires RingOk(g, s) && NextFits(dev, g, s) && FetchIndex(s.q, g.last) < 0
    ensures ServeNext(dev, g, s) == s
  {
  }

  lemma ReachedNext(dev: Device, g: Guest, s0: Side, k: nat, s: Side)
    requires RingOk(g, s0) && BacklogFits(dev, g, s0) && Reached(dev, g, s0, k, s)
    requires RingOk(g, s) && NextFits(dev, g, s) && FetchIndex(s.q, g.last) >= 0
    ensures Reached(dev, g, s0, k + 1, ServeNext(dev, g, s))
  {
    hide Drained, Wrap, Heads, JobFits, FetchIndex, PowerSized, ServeHead, Backlog;
    hide AdvanceAvail, AdvanceUsed, PushIndex;
    ReachedReady(dev, g, s0, k, s);
    var es := EntriesAfter(dev, g, s0, k);
    var e := EntriesAfter(dev, g, s0, k + 1)[k];
    DrainedOneMore(s0.q, s0.last, s0.ring, es, s.q, s.last, s.ring, e);
    assert EntriesAfter(dev, g, s0, k + 1) == es + [e];
  }

  /** A backlog that can be served job by job can be served to the end: the rounds of the loop lead there. */
  lemma {:induction false} DrainExists(dev: Device, g: Guest, s0: Side, k: nat) returns (s: Side)
    requires RingOk(g, s0) && BacklogFits(dev, g, s0) && k <= Backlog(s0.q, g.last)
    ensures Reached(dev, g, s0, k, s)
    ensures k == Backlog(s0.q, g.last) ==> ServedAll(dev, g, s0, s)
    decreases k
  {
    hide RingOk, NextFits, Reached, ServeNext, FetchIndex, Backlog;
    if k == 0 {
      ReachedStart(dev, g, s0);
      s := s0;
    } else {
      var t := DrainExists(dev, g, s0, k - 1);
      ReachedReady(dev, g, s0, k - 1, t);
      ReachedNext(dev, g, s0, k - 1, t);
      s := ServeNext(dev, g, t);
    }
  }

  /**
   * The whole drain. With `last` fixed it takes exactly (last - availIdx) mod size jobs, after which the
   * fetch finds nothing; used `last` has advanced by that count; the used entries stand in consecutive
   * slots and name the pending heads in order; and no other used slot has changed.
   */
  lemma DrainComplete(dev: Device, g: Guest, s0: Side, s: Side)
    requires ServedAll(dev, g, s0, s)
    ensures var n, size := (g.last - s0.q.availIdx) % Size(s0.q), Size(s0.q);
            var from, to := Slots(s0.q.availIdx, size, n), Slots(s0.q.usedIdx, size, n);
            && s.q == Advanced(s0.q, n)
            && FetchIndex(s.q, g.last) == -1
            && s.last == (s0.last + n) % 0x1_0000
            && |s.ring| == |s0.ring|
            && (forall i :: 0 <= i < n ==> s.ring[to[i]].id == g.avail[from[i]])
            && (forall x :: 0 <= x < |s0.ring| && x !in to ==> s.ring[x] == s0.ring[x])
  {
    hide And, JobFits, ServeHead;
    var n, size := Backlog(s0.q, g.last), Size(s0.q);
    ReachedReady(dev, g, s0, n, s);
    forall i | 0 <= i < n
      ensures s.ring[Slots(s0.q.usedIdx, size, n)[i]].id == g.avail[Slots(s0.q.availIdx, size, n)[i]]
    {
      EntryOf(dev, g, s0, s, i);
    }
  }

  lemma {:induction false} EntriesAt(dev: Device, g: Guest, s: Side, k: nat, i: nat)
    requires RingOk(g, s) && BacklogFits(dev, g, s) && i < k <= Backlog(s.q, g.last)
    ensures JobFits(dev, g.table, Size(s.q), Pending(g, s)[i], |s.st.ram|)
    ensures EntriesAfter(dev, g, s, k)[i] ==
            UsedElem(Pending(g, s)[i],
                     ServeHead(dev, g.table, Size(s.q), StateAfter(dev, g, s, i), Pending(g, s)[i]).written)
    decreases k
  {
    hide And, JobFits, ServeHead, Heads, Backlog, PowerSized;
    if i < k - 1 { EntriesAt(dev, g, s, k - 1, i); }
  }

  /** The i-th used entry names the i-th pending head and carries the length its service came to. */
  lemma EntryOf(dev: Device, g: Guest, s0: Side, s: Side, i: nat)
    requires RingOk(g, s0) && BacklogFits(dev, g, s0) && Reached(dev, g, s0, Backlog(s0.q, g.last), s)
    requires i < Backlog(s0.q, g.last)
    ensures JobFits(dev, g.table, Size(s0.q), Pending(g, s0)[i], |s0.st.ram|)
    ensures var n, size := Backlog(s0.q, g.last), Size(s0.q);
            && |s.ring| == |s0.ring| && Pending(g, s0)[i] == g.avail[Slots(s0.q.availIdx, size, n)[i]]
            && s.ring[Slots(s0.q.usedIdx, size, n)[i]] ==
               UsedElem(Pending(g, s0)[i],
                        ServeHead(dev, g.table, size, StateAfter(dev, g, s0, i), Pending(g, s0)[i]).written)
  {
    hide And, Wrap, JobFits, ServeHead, Slots, Heads, Backlog, PowerSized;
    var n := Backlog(s0.q, g.last);
    EntriesAt(dev, g, s0, n, i);
    Located(s0.ring, s0.q.usedIdx, Size(s0.q), EntriesAfter(dev, g, s0, n), s.ring, i);
    HeadSlot(g.avail, s0.q.availIdx, Size(s0.q), n, i);
  }

  lemma Located(ring0: seq<UsedElem>, start: nat, size: nat, es: seq<UsedElem>, ring: seq<UsedElem>, i: nat)
    requires 0 < size <= |ring0| && Placed(ring0, start, size, es, ring) && i < |es|
    ensures |ring| == |ring0| && ring[Slots(start, size, |es|)[i]] == es[i]
  {
    SlotAt(start, size, |es|, i);
  }

  lemma HeadSlot(ring: seq<u16>, start: nat, size: nat, n: nat, i: nat)
    requires 0 < size <= |ring| && i < n
    ensures Heads(ring, start, size, n)[i] == ring[Slots(start, size, n)[i]]
  {
    SlotAt(start, size, n, i);
    HeadAt(ring, start, size, n, i);
  }

  // ---------- jobs that keep out of each other's way ----------

  /** The buffers of the i-th pending job. */
  ghost function JobAt(dev: Device, g: Guest, s: Side, i: nat): (bs: seq<Buffer>)
    requires RingOk(g, s) && BacklogFits(dev, g, s) && i < Backlog(s.q, g.last)
    ensures AllFit(dev, bs, |s.st.ram|)
  {
    assert JobFits(dev, g.table, Size(s.q), Pending(g, s)[i], |s.st.ram|);
    JobBuffers(g.table, Size(s.q), Pending(g, s)[i])
  }

  /** Reads of the disk for the first k jobs. */
  ghost function AskedBefore(dev: Device, g: Guest, s: Side, k: nat): nat
    requires RingOk(g, s) && BacklogFits(dev, g, s) && k <= Backlog(s.q, g.last)
    decreases k
  {
    if k == 0 then 0
    else
      var bs := JobAt(dev, g, s, k - 1);
      AskedBefore(dev, g, s, k - 1) + ReadsBefore(dev, bs, |bs|)
  }

  lemma {:induction false} AskedCounted(dev: Device, g: Guest, s: Side, k: nat)
    requires RingOk(g, s) && BacklogFits(dev, g, s) && k <= Backlog(s.q, g.last)
    ensures StateAfter(dev, g, s, k).asked == s.st.asked + AskedBefore(dev, g, s, k)
    decreases k
  {
    hide And, Heads, Backlog, PowerSized, JobBuffers, Terminates, ServeBuffers, AllFit, ReadsBefore;
    if k > 0 {
      AskedCounted(dev, g, s, k - 1);
      var bs := JobAt(dev, g, s, k - 1);
      ReadsCounted(dev, StateAfter(dev, g, s, k - 1).(written := 0), bs, |bs|);
    }
  }

  /** No job of the backlog writes what another one uses. */
  ghost predicate JobsApart(dev: Device, g: Guest, s: Side)
    requires RingOk(g, s) && BacklogFits(dev, g, s)
  {
    var n := Backlog(s.q, g.last);
    forall i, j, b, x | 0 <= i < n && 0 <= j < n && i != j && b in JobAt(dev, g, s, i) && InExtent(dev, b, x) ::
      !InWindow(dev, JobAt(dev, g, s, j), x)
  }

  /** One job changes only its own windows. */
  lemma OneJobKeeps(dev: Device, g: Guest, s: Side, i: nat, x: nat)
    requires RingOk(g, s) && BacklogFits(dev, g, s) && i < Backlog(s.q, g.last)
    requires x < |s.st.ram| && !InWindow(dev, JobAt(dev, g, s, i), x)
    ensures StateAfter(dev, g, s, i + 1).ram[x] == StateAfter(dev, g, s, i).ram[x]
  {
    hide And, Heads, Backlog, PowerSized, JobBuffers, Terminates, ServeBuffers, InWindow, AllFit;
    var bs := JobAt(dev, g, s, i);
    OnlyWindowsChange(dev, StateAfter(dev, g, s, i).(written := 0), bs, |bs|, x);
  }

  lemma {:induction false} JobsKeep(dev: Device, g: Guest, s: Side, i: nat, j: nat, x: nat)
    requires RingOk(g, s) && BacklogFits(dev, g, s) && i <= j <= Backlog(s.q, g.last) && x < |s.st.ram|
    requires forall m: nat :: i <= m < j ==> !InWindow(dev, JobAt(dev, g, s, m), x)
    ensures StateAfter(dev, g, s, j).ram[x] == StateAfter(dev, g, s, i).ram[x]
    decreases j
  {
    hide RingOk, BacklogFits, StateAfter, JobAt, InWindow, Backlog;
    if i < j {
      JobsKeep(dev, g, s, i, j - 1, x);
      OneJobKeeps(dev, g, s, j - 1, x);
    }
  }

  lemma NoJobs(dev: Device, g: Guest, s: Side)
    requires RingOk(g, s) && BacklogFits(dev, g, s)
    ensures StateAfter(dev, g, s, 0) == s.st
  {
  }

  /** What job i uses is as it was before the drain until job i, and from then on stays as job i left it. */
  lemma Undisturbed(dev: Device, g: Guest, s: Side, i: nat, b: Buffer, x: nat)
    requires RingOk(g, s) && BacklogFits(dev, g, s) && JobsApart(dev, g, s) && i < Backlog(s.q, g.last)
    requires b in JobAt(dev, g, s, i) && InExtent(dev, b, x) && x < |s.st.ram|
    ensures StateAfter(dev, g, s, i).ram[x] == s.st.ram[x]
    ensures StateAfter(dev, g, s, Backlog(s.q, g.last)).ram[x] == StateAfter(dev, g, s, i + 1).ram[x]
  {
    hide RingOk, BacklogFits, JobAt, InWindow, InExtent, Backlog, StateAfter;
    NoJobs(dev, g, s);
    JobsKeep(dev, g, s, 0, i, x);
    JobsKeep(dev, g, s, i + 1, Backlog(s.q, g.last), x);
  }

  /** The i-th of n consecutive positions falls into slot (start + i) mod size. */
  lemma SlotIsRemainder(start: nat, size: nat, n: nat, i: nat)
    requires size > 0 && i < n
    ensures Slots(start, size, n)[i] == (start + i) % size
  {
    SlotAt(start, size, n, i);
    WrapIsMod(start + i, size);
  }
}
