/**
 * The split ring as a two-party protocol. The guest driver publishes heads and reaps used entries;
 * the device fetches, serves and returns them. Every shared-memory access that the other side can
 * observe is its own step, so a behaviour is any interleaving of the two programs.
 */
module SplitRing {
  import opened Bits
  import opened QueueRegs

  /** Where the device stands between a fetch and the matching push. */
  datatype DevicePc =
    | Idle
    | Loading(index: nat)            // index chosen, ring slot not read yet
    | Serving(first: u16)            // job in progress
    | Stored(first: u16, len: u32)   // used entry written, index not published yet

  /** Where the driver stands while publishing one head. */
  datatype DriverPc = Free | Placed(head: u16)

  datatype State = State(
    q: Queue, dev: DevicePc, drv: DriverPc,
    availLast: u16, avail: seq<u16>,
    usedLast: u16, used: seq<UsedElem>,
    seen: u16,                    // the driver's own free-running used index
    // history, never read by either party
    published: seq<u16>, fetched: nat, returned: seq<UsedElem>, reaped: seq<UsedElem>)

  datatype Action = Place(h: u16) | Commit | Reap | Fetch | Load | Store(n: u32) | Bump

  predicate Shaped(s: State) {
    |s.avail| >= Size(s.q) && |s.used| >= Size(s.q)
    && (s.dev.Loading? ==> s.dev.index < Size(s.q))
  }

  /** The driver keeps at most a ring full of heads outstanding, as VirtIO 1.1 section 2.6.13 allows. */
  predicate Enabled(s: State, a: Action) {
    match a
    case Place(_) => s.drv.Free? && |s.published| < |s.reaped| + Size(s.q)
    case Commit => s.drv.Placed?
    case Reap => s.seen != s.usedLast
    case Fetch => s.dev.Idle?
    case Load => s.dev.Loading?
    case Store(_) => s.dev.Serving?
    case Bump => s.dev.Stored?
  }

  function Step(s: State, a: Action): (s': State)
    requires Shaped(s) && Enabled(s, a)
    ensures Shaped(s') && s'.q.sizeMask == s.q.sizeMask && s'.q.ready == s.q.ready
  {
    match a
    case Place(h) =>
      s.(avail := s.avail[s.availLast % Size(s.q) := h], drv := Placed(h))
    case Commit =>
      s.(availLast := (s.availLast + 1) % 0x1_0000, drv := Free, published := s.published + [s.drv.head])
    case Reap =>
      s.(seen := (s.seen + 1) % 0x1_0000, reaped := s.reaped + [s.used[s.seen % Size(s.q)]])
    case Fetch =>
      var index := FetchIndex(s.q, s.availLast);
      if index < 0 then s
      else s.(q := AdvanceAvail(s.q, index), dev := Loading(index), fetched := s.fetched + 1)
    case Load =>
      s.(dev := Serving(s.avail[s.dev.index]))
    case Store(n) =>
      s.(used := s.used[PushIndex(s.q) := UsedElem(s.dev.first, n)], dev := Stored(s.dev.first, n))
    case Bump =>
      s.(q := AdvanceUsed(s.q), usedLast := (s.usedLast + 1) % 0x1_0000, dev := Idle,
         returned := s.returned + [UsedElem(s.dev.first, s.dev.len)])
  }

  /** A ready queue of 2^k slots, just configured: both indices and both shared counters at zero. */
  ghost predicate Init(s: State, k: nat) {
    && 1 <= k <= 16 && s.q.sizeMask == Pow2(k) - 1 && s.q.ready != 0
    && s.q.availIdx == s.q.usedIdx == 0 && s.availLast == s.usedLast == s.seen == 0
    && s.dev == Idle && s.drv == Free && Shaped(s)
    && s.published == [] && s.fetched == 0 && s.returned == [] && s.reaped == []
  }

  /** acts is executable from s, each action enabled in its turn. */
  predicate Legal(s: State, acts: seq<Action>)
    requires Shaped(s)
    decreases |acts|, 0
  {
    acts == [] || (Legal(s, acts[..|acts| - 1]) && Enabled(Run(s, acts[..|acts| - 1]), acts[|acts| - 1]))
  }

  function Run(s: State, acts: seq<Action>): (s': State)
    requires Shaped(s) && Legal(s, acts)
    ensures Shaped(s') && s'.q.sizeMask == s.q.sizeMask
    decreases |acts|, 1
  {
    if acts == [] then s else Step(Run(s, acts[..|acts| - 1]), acts[|acts| - 1])
  }

  // ---------- the invariant ----------

  ghost predicate Counters(s: State, k: nat) {
    && 1 <= k <= 16 && Size(s.q) == Pow2(k) && s.q.ready != 0
    && |s.reaped| <= |s.returned| <= s.fetched <= |s.published| <= |s.reaped| + Pow2(k)
    && (s.drv.Placed? ==> |s.published| < |s.reaped| + Pow2(k))
    && |s.returned| + (if s.dev.Idle? then 0 else 1) == s.fetched
    && s.availLast == |s.published| % 0x1_0000
    && s.usedLast == |s.returned| % 0x1_0000
    && s.seen == |s.reaped| % 0x1_0000
    && s.q.availIdx % Pow2(k) == s.fetched % Pow2(k)
    && s.q.usedIdx % Pow2(k) == |s.returned| % Pow2(k)
  }

  /** First published head whose ring slot the device has yet to read. */
  function Unread(s: State): int {
    if s.dev.Loading? then s.fetched - 1 else s.fetched
  }

  ghost predicate Contents(s: State, k: nat)
    requires Shaped(s) && Counters(s, k)
  {
    && (forall i :: Unread(s) <= i < |s.published| ==> s.avail[i % Pow2(k)] == s.published[i])
    && (s.drv.Placed? ==> s.avail[|s.published| % Pow2(k)] == s.drv.head)
    && (forall j :: |s.reaped| <= j < |s.returned| ==> s.used[j % Pow2(k)] == s.returned[j])
    && (forall j :: 0 <= j < |s.returned| ==> s.returned[j].id == s.published[j])
    && s.reaped == s.returned[..|s.reaped|]
    && match s.dev
       case Idle => true
       case Loading(index) => index == (s.fetched - 1) % Pow2(k)
       case Serving(first) => first == s.published[s.fetched - 1]
       case Stored(first, len) =>
         && first == s.published[s.fetched - 1]
         && s.used[|s.returned| % Pow2(k)] == UsedElem(first, len)
  }

  ghost predicate Inv(s: State, k: nat) {
    Shaped(s) && Counters(s, k) && Contents(s, k)
  }

  // ---------- what the masked indices mean ----------

  /** The fetch test on re-masked 16-bit indices compares unbounded counts modulo the ring size. */
  lemma FetchIndexMeaning(s: State, k: nat)
    requires Shaped(s) && Counters(s, k)
    ensures FetchIndex(s.q, s.availLast) ==
            (if |s.published| == s.fetched || |s.published| == s.fetched + Pow2(k)
             then -1 else s.fetched % Pow2(k))
  {
    AndMask(s.q.availIdx, k);
    AndMask(s.availLast, k);
    Mod16(|s.published|, k);
    SameSlot(s.fetched, |s.published|, Pow2(k));
  }

  /** Counts at most a ring apart share a slot only when equal or exactly a ring apart. */
  lemma SameSlot(x: nat, y: nat, p: nat)
    requires p > 0 && x <= y <= x + p
    ensures x % p == y % p <==> x == y || y == x + p
  {
    if y < x + p {
      ModApart(x, y, p);
    } else {
      ModShift(x, p, 1);
    }
  }

  lemma PushIndexMeaning(s: State, k: nat)
    requires Shaped(s) && Counters(s, k)
    ensures PushIndex(s.q) == |s.returned| % Pow2(k)
  {
    AndMask(s.q.usedIdx, k);
  }

  lemma Wrap16(n: nat)
    ensures (n % 0x1_0000 + 1) % 0x1_0000 == (n + 1) % 0x1_0000
  {
  }

  // ---------- every step keeps the invariant ----------

  /** The slot the driver fills holds no head the device still has to read. */
  lemma PlaceKeepsInv(s: State, k: nat, h: u16)
    requires Inv(s, k) && Enabled(s, Place(h))
    ensures Inv(Step(s, Place(h)), k)
  {
    Mod16(|s.published|, k);
    forall i | Unread(s) <= i < |s.published|
      ensures i % Pow2(k) != |s.published| % Pow2(k)
    {
      ModApart(i, |s.published|, Pow2(k));
    }
  }

  lemma CommitKeepsInv(s: State, k: nat)
    requires Inv(s, k) && Enabled(s, Commit)
    ensures Inv(Step(s, Commit), k)
  {
    CommitCounters(s, k);
    CommitContents(s, k);
  }

  lemma CommitCounters(s: State, k: nat)
    requires Shaped(s) && Counters(s, k) && Enabled(s, Commit)
    ensures Counters(Step(s, Commit), k)
  {
    Wrap16(|s.published|);
  }

  lemma CommitContents(s: State, k: nat)
    requires Inv(s, k) && Enabled(s, Commit) && Counters(Step(s, Commit), k)
    ensures Contents(Step(s, Commit), k)
  {
    hide And;
    SlotsExtend(s.avail, s.published, Unread(s), s.drv.head, Pow2(k));
  }

  /** Below 65536 outstanding used entries, the driver's index test is exact and reads its own slot. */
  lemma ReapMeaning(s: State, k: nat)
    requires Inv(s, k)
    ensures Enabled(s, Reap) <==> |s.reaped| < |s.returned| && |s.returned| != |s.reaped| + 0x1_0000
    ensures Enabled(s, Reap) ==> s.used[s.seen % Size(s.q)] == s.returned[|s.reaped|]
  {
    Pow2Of16();
    Pow2Monotone(k, 16);
    SameSlot(|s.reaped|, |s.returned|, 0x1_0000);
    Mod16(|s.reaped|, k);
  }

  lemma ReapKeepsInv(s: State, k: nat)
    requires Inv(s, k) && Enabled(s, Reap)
    ensures Inv(Step(s, Reap), k)
  {
    ReapMeaning(s, k);
    Wrap16(|s.reaped|);
    var r := |s.reaped|;
    assert s.returned[..r + 1] == s.returned[..r] + [s.returned[r]];
  }

  lemma FetchKeepsInv(s: State, k: nat)
    requires Inv(s, k) && Enabled(s, Fetch)
    ensures Inv(Step(s, Fetch), k)
  {
    FetchIndexMeaning(s, k);
    if FetchIndex(s.q, s.availLast) >= 0 {
      AdvanceAvailMeaning(s, k);
      TakingKeepsInv(s, k, AdvanceAvail(s.q, s.fetched % Pow2(k)).availIdx);
    }
  }

  lemma TakingKeepsInv(s: State, k: nat, idx: u16)
    requires Inv(s, k) && s.dev.Idle? && s.fetched < |s.published|
    requires idx % Pow2(k) == (s.fetched + 1) % Pow2(k)
    ensures Inv(s.(q := s.q.(availIdx := idx), dev := Loading(s.fetched % Pow2(k)), fetched := s.fetched + 1), k)
  {
  }

  lemma AdvanceAvailMeaning(s: State, k: nat)
    requires Shaped(s) && Counters(s, k)
    ensures AdvanceAvail(s.q, s.fetched % Pow2(k)).availIdx % Pow2(k) == (s.fetched + 1) % Pow2(k)
  {
    NextSlot(s.fetched, k);
  }

  /** What the device loads is the next published head. */
  lemma LoadKeepsInv(s: State, k: nat)
    requires Inv(s, k) && Enabled(s, Load)
    ensures Inv(Step(s, Load), k)
    ensures Step(s, Load).dev == Serving(s.published[s.fetched - 1])
  {
  }

  /** The slot the device fills holds no used entry the driver still has to read. */
  lemma StoreKeepsInv(s: State, k: nat, n: u32)
    requires Inv(s, k) && Enabled(s, Store(n))
    ensures Inv(Step(s, Store(n)), k)
  {
    PushIndexMeaning(s, k);
    forall j | |s.reaped| <= j < |s.returned|
      ensures j % Pow2(k) != |s.returned| % Pow2(k)
    {
      ModApart(j, |s.returned|, Pow2(k));
    }
  }

  lemma BumpKeepsInv(s: State, k: nat)
    requires Inv(s, k) && Enabled(s, Bump)
    ensures Inv(Step(s, Bump), k)
  {
    BumpCounters(s, k);
    BumpContents(s, k);
  }

  lemma BumpCounters(s: State, k: nat)
    requires Shaped(s) && Counters(s, k) && Enabled(s, Bump)
    ensures Counters(Step(s, Bump), k)
  {
    Wrap16(|s.returned|);
    AdvanceUsedMeaning(s, k);
  }

  lemma AdvanceUsedMeaning(s: State, k: nat)
    requires Shaped(s) && Counters(s, k)
    ensures AdvanceUsed(s.q).usedIdx % Pow2(k) == (|s.returned| + 1) % Pow2(k)
  {
    PushIndexMeaning(s, k);
    NextSlot(|s.returned|, k);
  }

  lemma BumpContents(s: State, k: nat)
    requires Inv(s, k) && Enabled(s, Bump) && Counters(Step(s, Bump), k)
    ensures Contents(Step(s, Bump), k)
  {
    hide And, Pow2, FetchIndex, PushIndex;
    SlotsExtend(s.used, s.returned, |s.reaped|, UsedElem(s.dev.first, s.dev.len), Pow2(k));
    PrefixExtends(s.returned, |s.reaped|, UsedElem(s.dev.first, s.dev.len));
  }

  lemma SlotsExtend<T>(slots: seq<T>, xs: seq<T>, from: nat, x: T, p: nat)
    requires 0 < p <= |slots| && from <= |xs|
    requires forall j :: from <= j < |xs| ==> slots[j % p] == xs[j]
    requires slots[|xs| % p] == x
    ensures forall j :: from <= j < |xs| + 1 ==> slots[j % p] == (xs + [x])[j]
  {
  }

  lemma PrefixExtends<T>(xs: seq<T>, n: nat, x: T)
    requires n <= |xs|
    ensures (xs + [x])[..n] == xs[..n]
  {
  }

  lemma StepKeepsInv(s: State, k: nat, a: Action)
    requires Inv(s, k) && Enabled(s, a)
    ensures Inv(Step(s, a), k)
  {
    match a
    case Place(h) => PlaceKeepsInv(s, k, h);
    case Commit => CommitKeepsInv(s, k);
    case Reap => ReapKeepsInv(s, k);
    case Fetch => FetchKeepsInv(s, k);
    case Load => LoadKeepsInv(s, k);
    case Store(n) => StoreKeepsInv(s, k, n);
    case Bump => BumpKeepsInv(s, k);
  }

  lemma {:induction false} RunKeepsInv(s: State, k: nat, acts: seq<Action>)
    requires Inv(s, k) && Legal(s, acts)
    ensures Inv(Run(s, acts), k)
    decreases |acts|
  {
    if acts != [] {
      RunKeepsInv(s, k, acts[..|acts| - 1]);
      StepKeepsInv(Run(s, acts[..|acts| - 1]), k, acts[|acts| - 1]);
    }
  }

  /** The driver's set-up sequence on a reset queue, with fresh rings, is a start of the protocol. */
  lemma SetUpStarts(val: u32, avail: seq<u16>, used: seq<UsedElem>)
    requires Works(val)
    ensures var q := RegWrite(RegWrite(RESET_QUEUE, 1, val), 2, 1);
            |avail| >= Size(q) && |used| >= Size(q) ==>
              exists k: nat :: Init(State(q, Idle, Free, 0, avail, 0, used, 0, [], 0, [], []), k)
  {
    SetUpExactly(val, 1);
    var q := RegWrite(RegWrite(RESET_QUEUE, 1, val), 2, 1);
    var k: nat :| 1 <= k <= 16 && q.sizeMask == Pow2(k) - 1;
    if |avail| >= Size(q) && |used| >= Size(q) {
      assert Init(State(q, Idle, Free, 0, avail, 0, used, 0, [], 0, [], []), k);
    }
  }

  // ---------- theorems over every interleaving ----------

  /**
   * Safety. In every reachable state the used entries ever returned carry the published heads, in
   * order, without repeats or gaps; the driver has reaped a prefix of them unaltered; and every
   * returned entry it has not reaped yet is still intact in its slot.
   */
  lemma RingSafety(s0: State, k: nat, acts: seq<Action>)
    requires Init(s0, k) && Legal(s0, acts)
    ensures var s := Run(s0, acts);
            && |s.returned| <= |s.published|
            && (forall j :: 0 <= j < |s.returned| ==> s.returned[j].id == s.published[j])
            && s.reaped <= s.returned
            && (forall j :: |s.reaped| <= j < |s.returned| ==> s.used[j % Pow2(k)] == s.returned[j])
  {
    InitInv(s0, k);
    RunKeepsInv(s0, k, acts);
  }

  lemma InitInv(s0: State, k: nat)
    requires Init(s0, k)
    ensures Inv(s0, k)
  {
  }

  /**
   * Refinement. In every reachable state the re-masked 16-bit indices stand for the unbounded counts,
   * and a fetch finds nothing exactly when the backlog is a multiple of the ring size, that is empty
   * or a whole ring; otherwise the slot it takes holds the next published head.
   */
  lemma IndicesRefineCounters(s0: State, k: nat, acts: seq<Action>)
    requires Init(s0, k) && Legal(s0, acts)
    ensures IndicesMeanCounters(Run(s0, acts), k)
  {
    InitInv(s0, k);
    RunKeepsInv(s0, k, acts);
    InvRefines(Run(s0, acts), k);
  }

  ghost predicate IndicesMeanCounters(s: State, k: nat)
    requires Shaped(s)
  {
    && And(s.q.availIdx, s.q.sizeMask) == s.fetched % Pow2(k)
    && And(s.q.usedIdx, s.q.sizeMask) == |s.returned| % Pow2(k)
    && s.usedLast == |s.returned| % 0x1_0000
    && s.fetched <= |s.published|
    && (FetchIndex(s.q, s.availLast) == -1 <==> (|s.published| - s.fetched) % Pow2(k) == 0)
    && (s.dev.Idle? && FetchIndex(s.q, s.availLast) >= 0 ==>
          s.fetched < |s.published| && s.avail[FetchIndex(s.q, s.availLast)] == s.published[s.fetched])
  }

  lemma InvRefines(s: State, k: nat)
    requires Inv(s, k)
    ensures IndicesMeanCounters(s, k)
  {
    MaskedAvail(s, k);
    PushIndexMeaning(s, k);
    FetchIndexMeaning(s, k);
    WholeRings(s, k);
  }

  lemma MaskedAvail(s: State, k: nat)
    requires Shaped(s) && Counters(s, k)
    ensures And(s.q.availIdx, s.q.sizeMask) == s.fetched % Pow2(k)
  {
    assert s.q.sizeMask == Pow2(k) - 1;
    AndMask(s.q.availIdx, k);
  }

  lemma WholeRings(s: State, k: nat)
    requires Shaped(s) && Counters(s, k)
    ensures (|s.published| - s.fetched) % Pow2(k) == 0 <==>
            |s.published| == s.fetched || |s.published| == s.fetched + Pow2(k)
  {
    SameSlot(0, |s.published| - s.fetched, Pow2(k));
  }

  // ---------- progress ----------

  /** No party can change anything any more. */
  ghost predicate Stuck(s: State)
    requires Shaped(s)
  {
    forall a :: Enabled(s, a) ==> Step(s, a) == s
  }

  /**
   * Progress. The two programs come to a standstill exactly when the unfetched backlog is the whole
   * ring, which the device takes for empty, or, on the 65536-slot ring that size 0 selects, when the
   * unreaped entries are the whole ring, which the driver takes for empty.
   */
  lemma StuckExactly(s0: State, k: nat, acts: seq<Action>)
    requires Init(s0, k) && Legal(s0, acts)
    ensures var s := Run(s0, acts);
            Stuck(s) <==> |s.published| == s.fetched + Pow2(k) || |s.returned| == |s.reaped| + 0x1_0000
  {
    InitInv(s0, k);
    RunKeepsInv(s0, k, acts);
    var s := Run(s0, acts);
    if |s.published| == s.fetched + Pow2(k) || |s.returned| == |s.reaped| + 0x1_0000 {
      NothingMoves(s, k);
    } else {
      SomethingMoves(s, k);
    }
  }

  /** The device cannot change anything: no fetch, load, store or bump moves. */
  ghost predicate DeviceStalled(s: State)
    requires Shaped(s)
  {
    forall a :: Enabled(s, a) && (a.Fetch? || a.Load? || a.Store? || a.Bump?) ==> Step(s, a) == s
  }

  /**
   * Progress of the device. It stalls exactly when everything published is returned or when the backlog is
   * the whole ring; so with fewer heads outstanding than slots it goes on until everything is returned.
   */
  lemma DeviceStalledExactly(s0: State, k: nat, acts: seq<Action>)
    requires Init(s0, k) && Legal(s0, acts)
    ensures var s := Run(s0, acts);
            && (DeviceStalled(s) <==> |s.published| == |s.returned| || |s.published| == s.fetched + Pow2(k))
            && (|s.published| < |s.reaped| + Pow2(k) ==> (DeviceStalled(s) <==> |s.published| == |s.returned|))
  {
    InitInv(s0, k);
    RunKeepsInv(s0, k, acts);
    StalledMeaning(Run(s0, acts), k);
  }

  lemma StalledMeaning(s: State, k: nat)
    requires Inv(s, k)
    ensures DeviceStalled(s) <==> |s.published| == |s.returned| || |s.published| == s.fetched + Pow2(k)
  {
    FetchIndexMeaning(s, k);
    if !(|s.published| == |s.returned| || |s.published| == s.fetched + Pow2(k)) {
      var a := match s.dev
               case Idle => Fetch
               case Loading(_) => Load
               case Serving(_) => Store(0)
               case Stored(_, _) => Bump;
      assert Enabled(s, a);
      var s' := Step(s, a);
      assert s'.dev != s.dev;
    }
  }

  lemma NothingMoves(s: State, k: nat)
    requires Inv(s, k)
    requires |s.published| == s.fetched + Pow2(k) || |s.returned| == |s.reaped| + 0x1_0000
    ensures Stuck(s)
  {
    Pow2Of16();
    Pow2Monotone(k, 16);
    FetchIndexMeaning(s, k);
    ReapMeaning(s, k);
  }

  lemma SomethingMoves(s: State, k: nat)
    requires Inv(s, k)
    requires |s.published| != s.fetched + Pow2(k) && |s.returned| != |s.reaped| + 0x1_0000
    ensures !Stuck(s)
  {
    FetchIndexMeaning(s, k);
    ReapMeaning(s, k);
    var a := if s.drv.Placed? then Commit
             else match s.dev
                  case Loading(_) => Load
                  case Serving(_) => Store(0)
                  case Stored(_, _) => Bump
                  case Idle => if s.fetched < |s.published| then Fetch
                               else if |s.reaped| < |s.returned| then Reap else Place(0);
    assert Enabled(s, a);
    var s' := Step(s, a);
    assert s'.drv != s.drv || s'.dev != s.dev || s'.reaped != s.reaped;
  }

  /** n heads published back to back. */
  function Fill(n: nat, h: u16): (acts: seq<Action>)
    ensures |acts| == 2 * n
  {
    if n == 0 then [] else Fill(n - 1, h) + [Place(h), Commit]
  }

  /** A conforming driver can reach the standstill: it need only fill the ring before the device looks. */
  lemma {:induction false} FullBacklogReachable(s0: State, k: nat, n: nat, h: u16)
    requires Init(s0, k) && n <= Pow2(k)
    ensures Legal(s0, Fill(n, h))
    ensures var s := Run(s0, Fill(n, h));
            s.drv == Free && |s.published| == n && s.fetched == 0 && s.reaped == []
    decreases n
  {
    hide Step, Shaped;
    if n > 0 {
      FullBacklogReachable(s0, k, n - 1, h);
      var f := Fill(n - 1, h);
      PublishOne(s0, f, h);
      assert Fill(n, h) == f + [Place(h), Commit];
    }
  }

  /** One more publication after a run that leaves room for it. */
  lemma PublishOne(s0: State, f: seq<Action>, h: u16)
    requires Shaped(s0) && Legal(s0, f) && Enabled(Run(s0, f), Place(h))
    ensures Legal(s0, f + [Place(h), Commit])
    ensures var s, s' := Run(s0, f), Run(s0, f + [Place(h), Commit]);
            s'.drv == Free && |s'.published| == |s.published| + 1 && s'.fetched == s.fetched && s'.reaped == s.reaped
  {
    var placed, full := f + [Place(h)], f + [Place(h), Commit];
    assert placed[..|placed| - 1] == f;
    assert Run(s0, placed) == Step(Run(s0, f), Place(h));
    assert full[..|full| - 1] == placed;
    assert Run(s0, full) == Step(Run(s0, placed), Commit);
  }

  /** That bound is exact: with as many heads outstanding as there are slots, both can be stuck. */
  lemma StandstillReachable(s0: State, k: nat, h: u16)
    requires Init(s0, k)
    ensures exists acts ::
              && Legal(s0, acts) && Stuck(Run(s0, acts))
              && |Run(s0, acts).published| == |Run(s0, acts).reaped| + Pow2(k)
  {
    FullBacklogReachable(s0, k, Pow2(k), h);
    var acts := Fill(Pow2(k), h);
    StuckExactly(s0, k, acts);
    assert Legal(s0, acts) && Stuck(Run(s0, acts));
  }
}
