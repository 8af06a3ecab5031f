/** Descriptor chains: what the job walk of the device loops visits. */
module Chains {
  import opened Bits
  import opened QueueRegs

  const VQ_DESC_F_NEXT: u16 := 1
  const VQ_DESC_F_WRITE: u16 := 2

  predicate HasNext(d: Desc) {
    And(d.flags, VQ_DESC_F_NEXT) != 0
  }

  /** The buffer is the device's to write (VDEV_TO_HOST). */
  predicate DeviceWrites(d: Desc) {
    And(d.flags, VQ_DESC_F_WRITE) != 0
  }

  datatype Direction = VdevToHost | HostToVdev

  /** A guest buffer as the device sees it; the high half of the address is ignored. */
  datatype Buffer = Buffer(data: u32, length: u32, dir: Direction)

  function BufferOf(d: Desc): Buffer {
    Buffer(d.addr % 0x1_0000_0000, d.len, if DeviceWrites(d) then VdevToHost else HostToVdev)
  }

  /** The buffers of the descriptors c, in chain order. */
  function BuffersOf(table: seq<Desc>, c: seq<u16>): (bs: seq<Buffer>)
    requires forall i :: 0 <= i < |c| ==> c[i] < |table|
    ensures |bs| == |c| && forall i :: 0 <= i < |c| ==> bs[i] == BufferOf(table[c[i]])
  {
    seq(|c|, i requires 0 <= i < |c| => BufferOf(table[c[i]]))
  }

  /** The index that follows prev, or -1; prev itself is not checked against the ring size. */
  function Next(table: seq<Desc>, prev: u16): (r: int)
    requires prev < |table|
    ensures -1 <= r < 0x1_0000
  {
    if HasNext(table[prev]) then table[prev].next else -1
  }

  /** c is followed link by link and its last descriptor has no successor. */
  ghost predicate IsChain(table: seq<Desc>, size: nat, c: seq<u16>)
    requires size <= |table|
  {
    && 0 < |c|
    && (forall i :: 0 <= i < |c| ==> c[i] < size)
    && (forall i :: 0 <= i < |c| - 1 ==> Next(table, c[i]) == c[i + 1])
    && Next(table, c[|c| - 1]) == -1
  }

  lemma ChainStep(table: seq<Desc>, size: nat, c: seq<u16>, k: nat)
    requires size <= |table| && IsChain(table, size, c) && k < |c|
    ensures Next(table, c[k]) == if k == |c| - 1 then -1 else c[k + 1]
  {
  }

  ghost predicate Terminates(table: seq<Desc>, size: nat, head: u16)
    requires size <= |table|
  {
    exists c :: IsChain(table, size, c) && c[0] == head
  }

  ghost function ChainOf(table: seq<Desc>, size: nat, head: u16): (c: seq<u16>)
    requires size <= |table| && Terminates(table, size, head)
    ensures IsChain(table, size, c) && c[0] == head
  {
    var c :| IsChain(table, size, c) && c[0] == head;
    c
  }

  /** The buffers of the job that starts at head. */
  ghost function JobBuffers(table: seq<Desc>, size: nat, head: u16): (bs: seq<Buffer>)
    requires size <= |table| && Terminates(table, size, head)
  {
    BuffersOf(table, ChainOf(table, size, head))
  }

  /** p follows links through in-range descriptors; where it ends is not constrained. */
  ghost predicate IsPath(table: seq<Desc>, size: nat, p: seq<u16>)
    requires size <= |table|
  {
    && 0 < |p|
    && (forall i :: 0 <= i < |p| - 1 ==> p[i] < size && Next(table, p[i]) == p[i + 1])
  }

  ghost predicate Distinct(p: seq<u16>) {
    forall i, j :: 0 <= i < j < |p| ==> p[i] != p[j]
  }

  /** In range and acyclic, as VirtIO 1.1 section 2.6.5.2 obliges the driver. */
  ghost predicate WellFormed(table: seq<Desc>, size: nat, head: u16)
    requires size <= |table|
  {
    forall p :: IsPath(table, size, p) && p[0] == head ==> p[|p| - 1] < size && Distinct(p)
  }

  // ---------- chains never repeat a descriptor ----------

  lemma {:induction false} EqualFrom(table: seq<Desc>, size: nat, c: seq<u16>, i: nat, j: nat, t: nat)
    requires size <= |table| && IsChain(table, size, c)
    requires i < j && j + t < |c| && c[i] == c[j]
    ensures c[i + t] == c[j + t]
    decreases t
  {
    if t > 0 {
      EqualFrom(table, size, c, i, j, t - 1);
      assert Next(table, c[i + t - 1]) == c[i + t - 1 + 1];
      assert Next(table, c[j + t - 1]) == c[j + t - 1 + 1];
    }
  }

  lemma ChainDistinct(table: seq<Desc>, size: nat, c: seq<u16>)
    requires size <= |table| && IsChain(table, size, c)
    ensures Distinct(c)
  {
    forall i, j | 0 <= i < j < |c|
      ensures c[i] != c[j]
    {
      if c[i] == c[j] {
        var t := |c| - 1 - j;
        assert Next(table, c[i + t]) == c[i + t + 1];
        EqualFrom(table, size, c, i, j, t);
        assert false;
      }
    }
  }

  /** A repetition-free sequence of numbers below n has at most n entries. */
  lemma {:induction false} Pigeonhole(p: seq<u16>, n: nat)
    requires Distinct(p) && forall i :: 0 <= i < |p| ==> p[i] < n
    ensures |p| <= n
    decreases n
  {
    if |p| > 0 {
      assert p[0] < n;
      if k :| 0 <= k < |p| && p[k] == n - 1 {
        var rest := p[..k] + p[k + 1..];
        assert forall i :: 0 <= i < |rest| ==> rest[i] == p[if i < k then i else i + 1];
        Pigeonhole(rest, n - 1);
      } else {
        Pigeonhole(p, n - 1);
      }
    }
  }

  lemma ChainAtMostSize(table: seq<Desc>, size: nat, c: seq<u16>)
    requires size <= |table| && IsChain(table, size, c)
    ensures |c| <= size
  {
    ChainDistinct(table, size, c);
    Pigeonhole(c, size);
  }

  // ---------- a chain determines every path from its head ----------

  lemma {:induction false} PathIsPrefix(table: seq<Desc>, size: nat, c: seq<u16>, p: seq<u16>)
    requires size <= |table| && IsChain(table, size, c)
    requires IsPath(table, size, p) && p[0] == c[0]
    ensures p <= c
    decreases |p|
  {
    if |p| == 1 {
      assert p == c[..1];
    } else {
      var n := |p| - 1;
      assert IsPath(table, size, p[..n]);
      PathIsPrefix(table, size, c, p[..n]);
      assert p[n - 1] == p[..n][n - 1] == c[n - 1];
      assert Next(table, p[n - 1]) == p[n - 1 + 1];
      if n == |c| { assert false; }
      assert Next(table, c[n - 1]) == c[n - 1 + 1];
      assert p == p[..n] + [p[n]] == c[..n] + [c[n]] == c[..n + 1];
    }
  }

  lemma ChainUnique(table: seq<Desc>, size: nat, c: seq<u16>, d: seq<u16>)
    requires size <= |table| && IsChain(table, size, c) && IsChain(table, size, d) && c[0] == d[0]
    ensures c == d
  {
    PathIsPrefix(table, size, c, d);
    PathIsPrefix(table, size, d, c);
  }

  /** A path from a well-formed head can be grown until its chain is complete. */
  lemma {:induction false} GrowPath(table: seq<Desc>, size: nat, head: u16, p: seq<u16>) returns (c: seq<u16>)
    requires size <= |table| && WellFormed(table, size, head)
    requires IsPath(table, size, p) && p[0] == head
    ensures IsChain(table, size, c) && c[0] == head
    decreases size - |p|
  {
    forall i | 0 <= i < |p|
      ensures p[i] < size
    {
      if i == |p| - 1 { assert p[|p| - 1] < size; }
    }
    Pigeonhole(p, size);
    var next := Next(table, p[|p| - 1]);
    if next == -1 {
      c := p;
    } else {
      var q := p + [next];
      assert IsPath(table, size, q);
      assert q[0] == head && q[|q| - 1] < size && Distinct(q);
      Pigeonhole(q, size) by {
        assert forall i :: 0 <= i < |q| ==> q[i] < size;
      }
      c := GrowPath(table, size, head, q);
    }
  }

  /**
   * The walk from a head terminates exactly when everything reachable from it is in range and free
   * of cycles; it then has one chain, without repetitions and no longer than the table.
   */
  lemma TerminatesExactlyWhenWellFormed(table: seq<Desc>, size: nat, head: u16)
    requires size <= |table|
    ensures Terminates(table, size, head) <==> WellFormed(table, size, head)
    ensures Terminates(table, size, head) ==>
              var c := ChainOf(table, size, head); Distinct(c) && |c| <= size
  {
    if Terminates(table, size, head) {
      var c := ChainOf(table, size, head);
      ChainDistinct(table, size, c);
      ChainAtMostSize(table, size, c);
      forall p | IsPath(table, size, p) && p[0] == head
        ensures p[|p| - 1] < size && Distinct(p)
      {
        PathIsPrefix(table, size, c, p);
        assert forall i :: 0 <= i < |p| ==> p[i] == c[i];
      }
    }
    if WellFormed(table, size, head) {
      assert IsPath(table, size, [head]);
      var c := GrowPath(table, size, head, [head]);
    }
  }

  // ---------- in terms of the table itself ----------

  /** The walk follows `next` exactly when flag bit 0 is set. */
  lemma NextIs(table: seq<Desc>, prev: u16)
    requires prev < |table|
    ensures Next(table, prev) == if Bit(table[prev].flags, 0) then table[prev].next else -1
  {
    FlagIsBit(table[prev].flags);
  }

  /** A buffer is the descriptor's address modulo 2^32 and its length; the device's to write exactly with flag bit 1. */
  lemma BufferIs(d: Desc)
    ensures BufferOf(d).data == d.addr % 0x1_0000_0000 && BufferOf(d).length == d.len
    ensures BufferOf(d).dir == VdevToHost <==> Bit(d.flags, 1)
    ensures BufferOf(d).dir == HostToVdev <==> !Bit(d.flags, 1)
  {
    FlagIsBit(d.flags);
  }

  /** c is linked by flag bit 0 and `next`, within the ring, and ends where that bit is clear. */
  ghost predicate Linked(table: seq<Desc>, size: nat, c: seq<u16>)
    requires size <= |table|
  {
    && 0 < |c|
    && (forall i :: 0 <= i < |c| ==> c[i] < size)
    && (forall i :: 0 <= i < |c| - 1 ==> Bit(table[c[i]].flags, 0) && table[c[i]].next == c[i + 1])
    && !Bit(table[c[|c| - 1]].flags, 0)
  }

  /** These are the chains. */
  lemma LinkedIsChain(table: seq<Desc>, size: nat, c: seq<u16>)
    requires size <= |table|
    ensures Linked(table, size, c) <==> IsChain(table, size, c)
  {
    hide Bit, Next;
    if Linked(table, size, c) {
      forall i | 0 <= i < |c| - 1
        ensures Next(table, c[i]) == c[i + 1]
      {
        NextIs(table, c[i]);
      }
      NextIs(table, c[|c| - 1]);
    }
    if IsChain(table, size, c) {
      forall i | 0 <= i < |c| - 1
        ensures Bit(table[c[i]].flags, 0) && table[c[i]].next == c[i + 1]
      {
        NextIs(table, c[i]);
        assert Next(table, c[i]) == c[i + 1];
      }
      NextIs(table, c[|c| - 1]);
    }
  }
}
