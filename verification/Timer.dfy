/** The 64-bit tick counter read through four cascaded 16-bit timers (timer.c), and its unit conversions (timer.h). */
module Timer {
  import opened Bits

  // ---------- the snapshot ----------

  /** What timer i shows when the counter stands at t. */
  function Part(t: nat, i: nat): (v: u16)
    decreases i
  {
    if i == 0 then t % 0x1_0000 else Part(t / 0x1_0000, i - 1)
  }

  /** quart << 16 is an int expression: from bit 31 up the value is the sign. */
  function QuartTerm(quart: u16): (r: u64) {
    ShlLiteral(quart);
    if quart < 0x8000 then Shl(quart, 16) else Shl(quart, 16) + 0xFFFF_FFFF_0000_0000
  }

  function HiWord(v2: u16, v3: u16): (r: nat) {
    Or(Shl(v3, 16), v2)
  }

  /** ((u64)hi << 32) | (quart << 16) | lo_end */
  function Compose(hi: nat, quart: u16, lo: u16): (r: nat) {
    Or(Or(Shl(hi, 32), QuartTerm(quart)), lo)
  }

  /** Four reads of one tick give back that tick modulo 2^64, unless bit 31 is set below some clear high bit. */
  lemma ComposeExact(t: nat)
    ensures var hi := HiWord(Part(t, 2), Part(t, 3));
            var r := Compose(hi, Part(t, 1), Part(t, 0));
            && hi == t / 0x1_0000_0000 % 0x1_0000_0000
            && r == (if Part(t, 1) < 0x8000 then t % 0x1_0000_0000_0000_0000
                     else 0xFFFF_FFFF_0000_0000 + t % 0x1_0000_0000)
            && (r == t % 0x1_0000_0000_0000_0000 <==> Part(t, 1) < 0x8000 || hi == 0xFFFF_FFFF)
  {
    PartsOf(t);
    var hi := HiWord(Part(t, 2), Part(t, 3));
    HiIsSum(Part(t, 2), Part(t, 3));
    ComposeParts(hi, Part(t, 1), Part(t, 0));
  }

  lemma PartsOf(t: nat)
    ensures t % 0x1_0000_0000 == Part(t, 0) + 0x1_0000 * Part(t, 1)
    ensures t / 0x1_0000_0000 % 0x1_0000_0000 == Part(t, 2) + 0x1_0000 * Part(t, 3)
    ensures t % 0x1_0000_0000_0000_0000 == t % 0x1_0000_0000 + 0x1_0000_0000 * (t / 0x1_0000_0000 % 0x1_0000_0000)
  {
    var t1 := t / 0x1_0000;
    var t2 := t1 / 0x1_0000;
    var t3 := t2 / 0x1_0000;
    var t4 := t3 / 0x1_0000;
    var p0, p1, p2, p3 := t % 0x1_0000, t1 % 0x1_0000, t2 % 0x1_0000, t3 % 0x1_0000;
    assert Part(t, 1) == p1;
    assert Part(t, 2) == Part(t1, 1) == p2;
    assert Part(t, 3) == Part(t1, 2) == Part(t2, 1) == p3;
    ModUnique(t, 0x1_0000_0000, t2, p0 + 0x1_0000 * p1);
    ModUnique(t2, 0x1_0000_0000, t4, p2 + 0x1_0000 * p3);
    ModUnique(t, 0x1_0000_0000_0000_0000, t4, p0 + 0x1_0000 * p1 + 0x1_0000_0000 * (p2 + 0x1_0000 * p3));
  }

  lemma HiIsSum(v2: u16, v3: u16)
    ensures HiWord(v2, v3) == 0x1_0000 * v3 + v2
  {
    Pow2Of16();
    OrIsSum(v3, v2, 16);
    ShlLiteral(v3);
  }

  lemma ComposeParts(hi: nat, quart: u16, lo: u16)
    requires hi < 0x1_0000_0000
    ensures Compose(hi, quart, lo) ==
            (if quart < 0x8000 then 0x1_0000_0000 * hi else 0xFFFF_FFFF_0000_0000) + 0x1_0000 * quart + lo
  {
    hide Or, Shl;
    var upper := if quart < 0x8000 then hi else 0xFFFF_FFFF;
    UpperWord(hi, quart);
    ShlLiteral(0x1_0000 * upper + quart);
    Pow2Of16();
    OrIsSum(0x1_0000 * upper + quart, lo, 16);
  }

  lemma UpperWord(hi: nat, quart: u16)
    requires hi < 0x1_0000_0000
    ensures Or(Shl(hi, 32), QuartTerm(quart)) ==
            0x1_0000_0000 * (if quart < 0x8000 then hi else 0xFFFF_FFFF) + 0x1_0000 * quart
  {
    hide Or, Shl;
    var top, low := if quart < 0x8000 then 0 else 0xFFFF_FFFF, 0x1_0000 * quart;
    Pow2Of32();
    ShlLiteral(quart);
    ShlLiteral(hi);
    ShlLiteral(top);
    ShlLiteral(Or(hi, top));
    OrSplit(hi, 0, top, low, 32);
    OrZero(low);
    OrZero(hi);
    OrOnes(hi, 32);
  }

  /** Within fewer than 65536 ticks the low timer appears to run backwards exactly when it has wrapped. */
  lemma AcceptedExactly(t0: nat, t4: nat)
    requires t0 <= t4 < t0 + 0x1_0000
    ensures Part(t0, 0) <= Part(t4, 0) <==> t0 / 0x1_0000 == t4 / 0x1_0000
  {
  }

  /** Without a wrap in between, the upper timers stand still. */
  lemma UpperPartsSteady(t0: nat, t: nat, t4: nat, i: nat)
    requires t0 <= t <= t4 && t0 / 0x1_0000 == t4 / 0x1_0000 && i > 0
    ensures Part(t, i) == Part(t4, i)
  {
    assert t / 0x1_0000 == t4 / 0x1_0000;
  }

  /** Two passes that together span fewer than 65536 ticks cannot both see a wrap. */
  lemma AtMostOneRetry(t0: nat, t4: nat, t5: nat, t9: nat)
    requires t0 <= t4 <= t5 <= t9 < t0 + 0x1_0000
    requires Part(t0, 0) > Part(t4, 0)
    ensures Part(t5, 0) <= Part(t9, 0)
  {
    AcceptedExactly(t0, t4);
    AcceptedExactly(t5, t9);
  }

  /** The five reads from the n-th on come in order and span fewer than 65536 ticks. */
  ghost predicate FiveClose(tick: nat -> nat, n: nat) {
    tick(n) <= tick(n + 1) <= tick(n + 2) <= tick(n + 3) <= tick(n + 4) < tick(n) + 0x1_0000
  }

  /** And so do the ten. */
  ghost predicate TenClose(tick: nat -> nat, n: nat) {
    && FiveClose(tick, n) && tick(n + 4) <= tick(n + 5)
    && FiveClose(tick, n + 5) && tick(n + 9) < tick(n) + 0x1_0000
  }

  /** The counter registers: the n-th register read happens at tick(n), for an arbitrary such schedule. */
  class TickCounter {
    const tick: nat -> nat
    var count: nat

    constructor (schedule: nat -> nat)
      ensures tick == schedule && count == 0
    {
      tick, count := schedule, 0;
    }

    method ReadVal(i: nat) returns (v: u16)
      modifies this
      ensures v == Part(tick(old(count)), i) && count == old(count) + 1
    {
      v := Part(tick(count), i);
      count := count + 1;
    }

    /** One turn of the retry loop: five reads in a row. */
    method ReadPass() returns (loStart: u16, quart: u16, hi: nat, loEnd: u16)
      modifies this
      ensures count == old(count) + 5
      ensures loStart == Part(tick(old(count)), 0) && loEnd == Part(tick(old(count) + 4), 0)
      ensures quart == Part(tick(old(count) + 1), 1)
      ensures hi == HiWord(Part(tick(old(count) + 2), 2), Part(tick(old(count) + 3), 3))
    {
      hide Part, HiWord;
      loStart := ReadVal(0);
      quart := ReadVal(1);
      var v2 := ReadVal(2);
      var v3 := ReadVal(3);
      hi := HiWord(v2, v3);
      loEnd := ReadVal(0);
    }

    /** A pass that is accepted used the parts of the single tick of its last read. */
    lemma AcceptedIsSnapshot(from: nat)
      requires FiveClose(tick, from) && Part(tick(from), 0) <= Part(tick(from + 4), 0)
      ensures Part(tick(from + 1), 1) == Part(tick(from + 4), 1)
      ensures Part(tick(from + 2), 2) == Part(tick(from + 4), 2)
      ensures Part(tick(from + 3), 3) == Part(tick(from + 4), 3)
    {
      hide Part;
      AcceptedExactly(tick(from), tick(from + 4));
      UpperPartsSteady(tick(from), tick(from + 1), tick(from + 4), 1);
      UpperPartsSteady(tick(from), tick(from + 2), tick(from + 4), 2);
      UpperPartsSteady(tick(from), tick(from + 3), tick(from + 4), 3);
    }

    /** The five reads of pass n, counted from read c on, do not show the low timer running backwards. */
    predicate Accepted(c: nat, n: nat) {
      Part(tick(c + 5 * n), 0) <= Part(tick(c + 5 * n + 4), 0)
    }

    /** Of two passes that together span fewer than 65536 ticks one is accepted. */
    lemma OneOfTwoAccepted(c: nat)
      requires TenClose(tick, c)
      ensures Accepted(c, 0) || Accepted(c, 1)
    {
      hide Part;
      if !Accepted(c, 0) {
        AtMostOneRetry(tick(c), tick(c + 4), tick(c + 5), tick(c + 9));
      }
    }

    /**
     * timerReadTicks. If some pass n is accepted, as the loop needs to end, the first such pass k provides the
     * result; when that pass spans fewer than 65536 ticks, its parts are those of the single tick of its last
     * read.
     */
    method ReadTicks(ghost n: nat) returns (ticks: nat, ghost k: nat)
      requires Accepted(count, n)
      modifies this
      ensures k <= n && count == old(count) + 5 * (k + 1)
      ensures Accepted(old(count), k) && forall m :: 0 <= m < k ==> !Accepted(old(count), m)
      ensures var c := count - 5;
              ticks == Compose(HiWord(Part(tick(c + 2), 2), Part(tick(c + 3), 3)),
                               Part(tick(c + 1), 1), Part(tick(c + 4), 0))
      ensures FiveClose(tick, count - 5) ==>
                var t := tick(count - 1);
                ticks == Compose(HiWord(Part(t, 2), Part(t, 3)), Part(t, 1), Part(t, 0))
    {
      hide Part, Compose, HiWord, FiveClose;
      k := 0;
      while true
        invariant k <= n && count == old(count) + 5 * k
        invariant forall m :: 0 <= m < k ==> !Accepted(old(count), m)
        decreases n - k
      {
        ghost var from := count;
        var loStart, quart, hi, loEnd := ReadPass();
        if loStart <= loEnd {
          if FiveClose(tick, from) {
            AcceptedIsSnapshot(from);
          }
          return Compose(hi, quart, loEnd), k;
        }
        k := k + 1;
      }
    }
  }

  // ---------- unit conversion ----------

  function TicksToMili(ticks: u64): (ms: u64) {
    (ticks * 1000) % 0x1_0000_0000_0000_0000 / 67027964
  }

  function MiliToTicks(ms: u64): (ticks: u64) {
    (ms * 67027964) % 0x1_0000_0000_0000_0000 / 1000
  }

  /** Within range the conversions are the quotients at 67027964 ticks a second, rounded down. */
  lemma ConversionsRoundDown(x: u64)
    ensures x * 67027964 < 0x1_0000_0000_0000_0000 ==>
              MiliToTicks(x) * 1000 <= x * 67027964 < (MiliToTicks(x) + 1) * 1000
    ensures x * 1000 < 0x1_0000_0000_0000_0000 ==>
              TicksToMili(x) * 67027964 <= x * 1000 < (TicksToMili(x) + 1) * 67027964
  {
  }

  /** Milliseconds survive the round trip through ticks, or lose one; they survive exactly on multiples of 250. */
  lemma MiliRoundTrip(ms: u64)
    requires ms * 67027964 < 0x1_0000_0000_0000_0000
    ensures var back := TicksToMili(MiliToTicks(ms));
            && (back == ms || back == ms - 1)
            && (back == ms <==> ms % 250 == 0)
  {
    var x := ms * 67027964;
    var q, r := x / 1000, x % 1000;
    assert x == 1000 * q + r;
    assert MiliToTicks(ms) == q;
    assert q * 1000 <= x;
    MultipleOf250(ms);
  }

  lemma MultipleOf250(ms: nat)
    ensures ms * 67027964 % 1000 == 0 <==> ms % 250 == 0
  {
    if ms % 250 == 0 {
      ModUnique(ms * 67027964, 1000, 16756991 * (ms / 250), 0);
    }
    if ms * 67027964 % 1000 == 0 {
      var q := ms * 67027964 / 1000;
      assert 16756991 * ms == 250 * q;
      ModUnique(ms, 250, 111 * q - 7440104 * ms, 0);
    }
  }

  /** Within range both conversions keep order. */
  lemma ConversionsMonotone(a: u64, b: u64)
    requires a <= b
    ensures b * 67027964 < 0x1_0000_0000_0000_0000 ==> MiliToTicks(a) <= MiliToTicks(b)
    ensures b * 1000 < 0x1_0000_0000_0000_0000 ==> TicksToMili(a) <= TicksToMili(b)
  {
    assert a * 67027964 <= b * 67027964 && a * 1000 <= b * 1000;
  }
}
