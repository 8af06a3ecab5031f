/** The word stream between the processors (main.c): framing of register commands and the receive handler. */
module Transport {
  import opened Bits
  import M = Machine
  import opened Manager
  import V = VirtIrqs

  // ---------- framing ----------

  datatype Cmd = Read(dev: nat, reg: u32) | Write(dev: nat, reg: u32, data: u32)

  /** Seven bits of device number and twenty-four of register number. */
  predicate Encodable(c: Cmd) {
    c.dev < 0x80 && c.reg < 0x100_0000
  }

  function MsgReg(m: u32): (r: u32)
    ensures r < 0x100_0000
  {
    Masks();
    AndMask(m, 24);
    And(m, 0xFF_FFFF)
  }

  function MsgDev(m: u32): (r: nat)
    ensures r < 0x80
  {
    Masks();
    AndMask(Shr(m, 24), 7);
    And(Shr(m, 24), 0x7F)
  }

  function MsgType(m: u32): nat {
    And(Shr(m, 31), 1)
  }

  function Header(c: Cmd): u32
    requires Encodable(c)
  {
    (if c.Write? then 0x8000_0000 else 0) + c.dev * 0x100_0000 + c.reg
  }

  function Words(c: Cmd): seq<u32>
    requires Encodable(c)
  {
    if c.Write? then [Header(c), c.data] else [Header(c)]
  }

  lemma Masks()
    ensures Pow2(1) == 2 && Pow2(7) == 0x80 && Pow2(24) == 0x100_0000
  {
    M.SmallPowers();
    Pow2Of16();
    Pow2Add(16, 7);
    assert Pow2(24) == 2 * Pow2(23);
  }

  /** The three macros cut a word into bit 31, bits 24 to 30 and bits 0 to 23. */
  lemma FieldsOf(m: u32)
    ensures MsgReg(m) == m % 0x100_0000 && MsgDev(m) == m / 0x100_0000 % 0x80 && MsgType(m) == m / 0x8000_0000
  {
    hide And, Shr, Pow2;
    Masks();
    AndMask(m, 24);
    Shr24(m);
    AndMask(m / 0x100_0000, 7);
    ShrTwice(m, 24, 7);
    M.Shr7(m / 0x100_0000);
    AndMask(m / 0x8000_0000, 1);
  }

  /** Fields of a packed header, and header of unpacked fields: every word is the header of one command kind. */
  lemma HeaderRoundTrip(c: Cmd, m: u32)
    requires Encodable(c)
    ensures MsgReg(Header(c)) == c.reg && MsgDev(Header(c)) == c.dev
    ensures MsgType(Header(c)) == if c.Write? then 1 else 0
    ensures MsgType(m) < 2
    ensures m == Header(if MsgType(m) == 1 then Write(MsgDev(m), MsgReg(m), 0) else Read(MsgDev(m), MsgReg(m)))
  {
    hide And, Shr;
    FieldsOf(Header(c));
    FieldsOf(m);
  }

  ghost predicate AllEncodable(cmds: seq<Cmd>) {
    forall i :: 0 <= i < |cmds| ==> Encodable(cmds[i])
  }

  /** The words of the first n commands. */
  ghost function Encode(cmds: seq<Cmd>, n: nat): (ws: seq<u32>)
    requires AllEncodable(cmds) && n <= |cmds|
    decreases n
  {
    if n == 0 then [] else Encode(cmds, n - 1) + Words(cmds[n - 1])
  }

  /** The next command starts right behind the words of those before it. */
  lemma {:induction false} EncodePrefix(cmds: seq<Cmd>, i: nat, n: nat)
    requires AllEncodable(cmds) && i <= n <= |cmds|
    ensures |Encode(cmds, i)| + (n - i) <= |Encode(cmds, n)|
    ensures Encode(cmds, n)[..|Encode(cmds, i)|] == Encode(cmds, i)
    decreases n
  {
    if i < n {
      EncodePrefix(cmds, i, n - 1);
    }
  }

  lemma NextCommand(cmds: seq<Cmd>, i: nat)
    requires AllEncodable(cmds) && i < |cmds|
    ensures var all, at := Encode(cmds, |cmds|), |Encode(cmds, i)|;
            && |Encode(cmds, i + 1)| == at + |Words(cmds[i])| <= |all|
            && all[at..at + |Words(cmds[i])|] == Words(cmds[i])
  {
    var all, at := Encode(cmds, |cmds|), |Encode(cmds, i)|;
    EncodePrefix(cmds, i + 1, |cmds|);
    assert Encode(cmds, i + 1) == Encode(cmds, i) + Words(cmds[i]);
    assert all[at..at + |Words(cmds[i])|] == Encode(cmds, i + 1)[at..];
  }

  /** The commands in a word stream, read front to back, and a write header still waiting for its data. */
  function Parse(ws: seq<u32>, at: nat): (r: (seq<Cmd>, seq<u32>))
    requires at <= |ws|
    ensures AllEncodable(r.0)
    decreases |ws| - at
  {
    if at == |ws| then ([], [])
    else if MsgType(ws[at]) == 0 then
      var (cs, rest) := Parse(ws, at + 1);
      ([Read(MsgDev(ws[at]), MsgReg(ws[at]))] + cs, rest)
    else if at + 1 == |ws| then ([], [ws[at]])
    else
      var (cs, rest) := Parse(ws, at + 2);
      ([Write(MsgDev(ws[at]), MsgReg(ws[at]), ws[at + 1])] + cs, rest)
  }

  lemma {:induction false} EncodeCons(c: Cmd, cs: seq<Cmd>, n: nat)
    requires Encodable(c) && AllEncodable(cs) && n <= |cs|
    ensures AllEncodable([c] + cs) && Encode([c] + cs, n + 1) == Words(c) + Encode(cs, n)
    decreases n
  {
    if n > 0 {
      EncodeCons(c, cs, n - 1);
      assert ([c] + cs)[n] == cs[n - 1];
      assert Words(c) + Encode(cs, n - 1) + Words(cs[n - 1]) == Words(c) + (Encode(cs, n - 1) + Words(cs[n - 1]));
    } else {
      assert ([c] + cs)[0] == c;
    }
  }

  lemma ParseStep(ws: seq<u32>, at: nat, c: Cmd, cs: seq<Cmd>, rest: seq<u32>)
    requires Encodable(c) && at + |Words(c)| <= |ws| && ws[at..at + |Words(c)|] == Words(c)
    requires Parse(ws, at + |Words(c)|) == (cs, rest)
    ensures Parse(ws, at) == ([c] + cs, rest)
  {
    hide MsgType, MsgDev, MsgReg, Header;
    HeaderRoundTrip(c, 0);
    assert ws[at] == ws[at..at + |Words(c)|][0] == Header(c);
    if c.Write? {
      assert ws[at + 1] == ws[at..at + |Words(c)|][1] == c.data;
    }
  }

  /** Decoding inverts encoding: the commands come back, with nothing left over. */
  lemma {:induction false} ParseEncoded(cmds: seq<Cmd>, i: nat)
    requires AllEncodable(cmds) && i <= |cmds|
    ensures |Encode(cmds, i)| <= |Encode(cmds, |cmds|)|
    ensures Parse(Encode(cmds, |cmds|), |Encode(cmds, i)|) == (cmds[i..], [])
    decreases |cmds| - i
  {
    hide MsgType, MsgDev, MsgReg, Header, Encode, Parse;
    EncodePrefix(cmds, i, |cmds|);
    if i == |cmds| {
      ParseEnd(Encode(cmds, i));
    } else {
      NextCommand(cmds, i);
      ParseEncoded(cmds, i + 1);
      var all, at := Encode(cmds, |cmds|), |Encode(cmds, i)|;
      ParseStep(all, at, cmds[i], cmds[i + 1..], []);
      assert cmds[i..] == [cmds[i]] + cmds[i + 1..];
    }
  }

  /** And encoding inverts decoding: every word stream is whole commands and at most one unfinished write. */
  lemma {:induction false} EncodeParsed(ws: seq<u32>, at: nat)
    requires at <= |ws|
    ensures var (cs, rest) := Parse(ws, at);
            Encode(cs, |cs|) + rest == ws[at..] && (rest == [] || (|rest| == 1 && MsgType(rest[0]) == 1))
    decreases |ws| - at
  {
    hide MsgType, MsgDev, MsgReg, Header, Encode;
    if at == |ws| {
      NoCommands();
    } else if MsgType(ws[at]) != 0 && at + 1 == |ws| {
      NoCommands();
      HeaderRoundTrip(Read(0, 0), ws[at]);
      assert ws[at..] == [ws[at]];
    } else {
      var c := CommandAt(ws, at);
      EncodeParsed(ws, at + |Words(c)|);
      var (cs, rest) := Parse(ws, at + |Words(c)|);
      ParseStep(ws, at, c, cs, rest);
      EncodeCons(c, cs, |cs|);
      assert ws[at..] == ws[at..at + |Words(c)|] + ws[at + |Words(c)|..];
    }
  }

  lemma ParseEnd(ws: seq<u32>)
    ensures Parse(ws, |ws|) == ([], [])
  {
  }

  lemma NoCommands()
    ensures Encode([], 0) == []
  {
  }

  /** The command whose words stand at position at. */
  lemma CommandAt(ws: seq<u32>, at: nat) returns (c: Cmd)
    requires at < |ws| && (MsgType(ws[at]) == 0 || at + 1 < |ws|)
    ensures Encodable(c) && at + |Words(c)| <= |ws| && ws[at..at + |Words(c)|] == Words(c)
  {
    hide MsgType, MsgDev, MsgReg;
    var dev, reg := MsgDev(ws[at]), MsgReg(ws[at]);
    HeaderRoundTrip(Read(0, 0), ws[at]);
    if MsgType(ws[at]) == 0 {
      c := Read(dev, reg);
    } else {
      c := Write(dev, reg, ws[at + 1]);
      HeaderIgnoresData(dev, reg, ws[at + 1]);
    }
  }

  lemma HeaderIgnoresData(dev: nat, reg: u32, data: u32)
    requires dev < 0x80 && reg < 0x100_0000
    ensures Header(Write(dev, reg, data)) == Header(Write(dev, reg, 0))
  {
  }

  // ---------- what a stream of commands does ----------

  /** One command: the register file after it, and its reply if it is a read. */
  ghost function Effect(m: M.Machine, c: Cmd): (r: (M.Machine, seq<u32>))
    requires V.Shaped(m.virqs)
    ensures V.Shaped(r.0.virqs)
  {
    match c
    case Read(dev, reg) => (M.ReadReg(m, dev, reg).0, [M.ReadReg(m, dev, reg).1])
    case Write(dev, reg, data) => (M.WriteReg(m, dev, reg, data), [])
  }

  /** The register file after commands i to j - 1, and the replies they produce. */
  ghost function Exec(m: M.Machine, cmds: seq<Cmd>, i: nat, j: nat): (r: (M.Machine, seq<u32>))
    requires V.Shaped(m.virqs) && i <= j <= |cmds|
    ensures V.Shaped(r.0.virqs)
    decreases j
  {
    if i == j then (m, [])
    else
      var (x, replies) := Exec(m, cmds, i, j - 1);
      (Effect(x, cmds[j - 1]).0, replies + Effect(x, cmds[j - 1]).1)
  }

  /** How the stream is split over handler calls makes no difference. */
  lemma {:induction false} SplitAnywhere(m: M.Machine, cmds: seq<Cmd>, i: nat, j: nat, k: nat)
    requires V.Shaped(m.virqs) && i <= j <= k <= |cmds|
    ensures var (x, first) := Exec(m, cmds, i, j);
            var (y, second) := Exec(x, cmds, j, k);
            Exec(m, cmds, i, k).0 == y && Exec(m, cmds, i, k).1 == first + second
    decreases k
  {
    hide Effect;
    if j < k {
      SplitAnywhere(m, cmds, i, j, k - 1);
      var (x, first) := Exec(m, cmds, i, j);
      var (y, second) := Exec(x, cmds, j, k - 1);
      var last := Effect(y, cmds[k - 1]).1;
      assert Exec(m, cmds, i, k).1 == first + second + last == first + (second + last);
    }
  }

  ghost function Reads(cmds: seq<Cmd>, n: nat): nat
    requires n <= |cmds|
    decreases n
  {
    if n == 0 then 0 else Reads(cmds, n - 1) + if cmds[n - 1].Read? then 1 else 0
  }

  /** The last value sent to location l by the first n commands, or what it held before them. */
  ghost function LastSent(m: M.Machine, cmds: seq<Cmd>, n: nat, l: M.Loc): u32
    requires n <= |cmds| && M.HasLoc(m, l)
    decreases n
  {
    if n == 0 then M.Peek(m, l)
    else if cmds[n - 1].Write? && M.LocOf(m, cmds[n - 1].dev, cmds[n - 1].reg) == M.Some(l)
    then M.Kept(l, cmds[n - 1].data)
    else LastSent(m, cmds, n - 1, l)
  }

  lemma {:induction false} ExecKeepsLast(m: M.Machine, cmds: seq<Cmd>, n: nat, l: M.Loc)
    requires V.Shaped(m.virqs) && n <= |cmds| && M.HasLoc(m, l)
    ensures var (x, replies) := Exec(m, cmds, 0, n);
            && M.SameShape(m, x) && M.HasLoc(x, l)
            && M.Peek(x, l) == LastSent(m, cmds, n, l)
            && |replies| == Reads(cmds, n)
    decreases n
  {
    hide M.WriteReg, M.Peek, M.LocOf, And, Shr;
    if n > 0 {
      ExecKeepsLast(m, cmds, n - 1, l);
      var x := Exec(m, cmds, 0, n - 1).0;
      match cmds[n - 1] {
        case Read(dev, reg) => ReadKeepsDevices(x, dev, reg, l);
        case Write(dev, reg, data) =>
          M.WriteOne(x, dev, reg, data, l);
          M.SameLocs(m, x, dev, reg);
      }
    }
  }

  lemma ReadKeepsDevices(m: M.Machine, dev: nat, reg: u32, l: M.Loc)
    requires V.Shaped(m.virqs) && M.HasLoc(m, l)
    ensures var x := M.ReadReg(m, dev, reg).0;
            x.devs == m.devs && M.HasLoc(x, l) && M.Peek(x, l) == M.Peek(m, l)
  {
    hide And, Shr;
  }

  lemma {:induction false} RepliesExtend(m: M.Machine, cmds: seq<Cmd>, j: nat, n: nat)
    requires V.Shaped(m.virqs) && j <= n <= |cmds|
    ensures Exec(m, cmds, 0, j).1 <= Exec(m, cmds, 0, n).1
    decreases n
  {
    hide M.WriteReg, M.ReadReg;
    if j < n {
      RepliesExtend(m, cmds, j, n - 1);
    }
  }

  /**
   * Over the wire the register file is a map too: in any mix of commands, the reply to a read of a location is
   * the last value sent to it before, and replies come in the order of the reads.
   */
  lemma WireIsARegisterMap(m: M.Machine, cmds: seq<Cmd>, j: nat, l: M.Loc)
    requires V.Shaped(m.virqs) && j < |cmds| && cmds[j].Read? && M.LocOf(m, cmds[j].dev, cmds[j].reg) == M.Some(l)
    ensures M.HasLoc(m, l)
    ensures var replies := Exec(m, cmds, 0, |cmds|).1;
            Reads(cmds, j) < |replies| && replies[Reads(cmds, j)] == LastSent(m, cmds, j, l)
  {
    hide And, Shr, M.Peek;
    var dev, reg := cmds[j].dev, cmds[j].reg;
    M.ReadBack(m, dev, reg, l);
    ExecKeepsLast(m, cmds, j, l);
    var x := Exec(m, cmds, 0, j).0;
    M.SameLocs(m, x, dev, reg);
    M.ReadBack(x, dev, reg, l);
    assert Exec(m, cmds, 0, j + 1).1 == Exec(m, cmds, 0, j).1 + [M.ReadReg(x, dev, reg).1];
    RepliesExtend(m, cmds, j + 1, |cmds|);
  }

  // ---------- the two FIFOs ----------

  /**
   * The receive and send FIFO over an arbitrary schedule: arrives(t) words have come in by the t-th look at
   * the receive status, and room(t) says whether the t-th look at the send status finds room. All that is
   * assumed is that what has arrived stays, and that room keeps coming back.
   */
  class Pxi {
    const words: seq<u32>
    const arrives: nat -> nat
    const room: nat -> bool
    ghost const nextRoom: nat -> nat
    var recvLooks: nat
    var sendLooks: nat
    var taken: nat
    var open: bool           // room seen and not yet used
    var sent: seq<u32>

    ghost predicate Fair() {
      && (forall s: nat, t: nat :: s <= t ==> arrives(s) <= arrives(t) <= |words|)
      && (forall t: nat :: t <= nextRoom(t) && room(nextRoom(t)))
    }

    ghost predicate Valid()
      reads this
    {
      Fair() && taken <= arrives(recvLooks)
    }

    constructor (stream: seq<u32>, arrival: nat -> nat, space: nat -> bool, ghost next: nat -> nat)
      requires forall s: nat, t: nat :: s <= t ==> arrival(s) <= arrival(t) <= |stream|
      requires forall t: nat :: t <= next(t) && space(next(t))
      ensures Valid() && words == stream && taken == 0 && sent == []
    {
      words, arrives, room, nextRoom := stream, arrival, space, next;
      recvLooks, sendLooks, taken, open, sent := 0, 0, 0, false, [];
    }

    method RecvEmpty() returns (empty: bool)
      requires Valid()
      modifies this`recvLooks
      ensures Valid() && recvLooks == old(recvLooks) + 1 && empty == (taken == arrives(recvLooks))
      ensures old(arrives(recvLooks)) <= arrives(recvLooks) <= |words|
    {
      recvLooks := recvLooks + 1;
      empty := taken == arrives(recvLooks);
    }

    method RecvMsg() returns (msg: u32)
      requires Valid() && taken < arrives(recvLooks)
      modifies this`taken
      ensures Valid() && taken == old(taken) + 1 && old(taken) < |words| && msg == words[old(taken)]
    {
      msg := words[taken];
      taken := taken + 1;
    }

    method SendFull() returns (full: bool)
      modifies this`sendLooks, this`open
      ensures sendLooks == old(sendLooks) + 1 && open == !full == room(old(sendLooks))
    {
      open := room(sendLooks);
      full := !open;
      sendLooks := sendLooks + 1;
    }

    method SendMsg(msg: u32)
      requires open
      modifies this`open, this`sent
      ensures sent == old(sent) + [msg]
    {
      open := false;
      sent := sent + [msg];
    }

    // ---------- when the handler returns ----------

    /** After look `look`, look l is the first to find more than `at` words arrived. */
    ghost predicate FirstPast(look: nat, at: nat, l: nat) {
      look < l && at < arrives(l) && forall m: nat :: look < m < l ==> arrives(m) <= at
    }

    /** With word `at` seen by look `look`, the handler finishes the command and returns within n turns. */
    ghost predicate GoesOn(look: nat, at: nat, n: nat)
      decreases n, 1
    {
      n > 0 && at < |words| &&
      if MsgType(words[at]) == 0 then Returns(look, at + 1, n - 1)
      else Finishes(look, at + 1, n)
    }

    /** The data of a write, word `at`, comes, and the handler returns after it. */
    ghost predicate Finishes(look: nat, at: nat, n: nat)
      requires n > 0
      decreases n, 0
    {
      exists l :: FirstPast(look, at, l) && Returns(l, at + 1, n - 1)
    }

    /** With `at` words taken, the handler returns within n turns after look `look`: nothing is left, or it goes on. */
    ghost predicate Returns(look: nat, at: nat, n: nat)
      decreases n, 2
    {
      arrives(look + 1) == at || GoesOn(look + 1, at, n)
    }

    lemma {:induction false} FirstLook(look: nat, at: nat, t: nat) returns (l: nat)
      requires look < t && at < arrives(t)
      ensures FirstPast(look, at, l)
      decreases t - look
    {
      if at < arrives(look + 1) {
        l := look + 1;
      } else {
        l := FirstLook(look + 1, at, t);
      }
    }

    /** When a stream of whole commands arrives in full, the handler always returns. */
    lemma {:induction false} WholeCommandsReturn(cmds: seq<Cmd>, k: nat, look: nat, settled: nat) returns (n: nat)
      requires AllEncodable(cmds) && k <= |cmds| && words == Encode(cmds, |cmds|) && Fair()
      requires arrives(settled) == |words| && |Encode(cmds, k)| <= arrives(look)
      ensures Returns(look, |Encode(cmds, k)|, n)
      decreases |cmds| - k
    {
      hide MsgType, MsgDev, MsgReg, Header, Encode, FirstPast;
      var at := |Encode(cmds, k)|;
      assert at <= arrives(look) <= arrives(look + 1) <= |words|;
      if arrives(look + 1) == at {
        n := 0;
      } else {
        if k == |cmds| { assert false; }
        NextCommand(cmds, k);
        HeaderRoundTrip(cmds[k], 0);
        assert words[at] == words[at..at + |Words(cmds[k])|][0];
        if cmds[k].Read? {
          var m := WholeCommandsReturn(cmds, k + 1, look + 1, settled);
          n := m + 1;
        } else {
          assert arrives(settled) <= arrives(look + 1 + settled + 1);
          var l := FirstLook(look + 1, at + 1, look + 1 + settled + 1);
          var m := WholeCommandsReturn(cmds, k + 1, l, settled);
          n := m + 1;
          assert Finishes(look + 1, at + 1, n);
        }
      }
    }

    lemma LookAgain(look: nat, at: nat, n: nat)
      requires Returns(look, at, n) && arrives(look + 1) != at
      ensures GoesOn(look + 1, at, n)
    {
    }

    /** After a write header whose data never comes it does not. */
    lemma LoneHeaderHangs(look: nat, at: nat, n: nat)
      requires Fair() && at + 1 == |words| && MsgType(words[at]) != 0
      ensures !GoesOn(look, at, n)
    {
    }

    /** The handler returns from a call that finds the first k commands taken. */
    ghost predicate ReturnsFrom(cmds: seq<Cmd>, k: nat, look: nat)
      requires AllEncodable(cmds) && k <= |cmds|
    {
      exists n :: Returns(look, |Encode(cmds, k)|, n)
    }

    /** Every call returns, whenever it is made, exactly when the stream does not end in a lone write header. */
    lemma AlwaysReturnsExactly(settled: nat)
      requires Fair() && arrives(settled) == |words|
      ensures var (cmds, rest) := Parse(words, 0);
              (forall k: nat, look: nat :: k <= |cmds| && |Encode(cmds, k)| <= arrives(look) ==>
                 ReturnsFrom(cmds, k, look))
              <==> rest == []
    {
      hide MsgType, Encode, Parse, GoesOn, Returns, ReturnsFrom;
      var (cmds, rest) := Parse(words, 0);
      EncodeParsed(words, 0);
      assert words[0..] == words;
      if rest == [] {
        assert words == Encode(cmds, |cmds|);
        forall k: nat, look: nat | k <= |cmds| && |Encode(cmds, k)| <= arrives(look)
          ensures ReturnsFrom(cmds, k, look)
        {
          var n := WholeCommandsReturn(cmds, k, look, settled);
          AtLast(cmds, k, look, n);
        }
      } else {
        var at := |Encode(cmds, |cmds|)|;
        assert words[at] == rest[0];
        assert arrives(settled) <= arrives(settled + 1) <= |words|;
        NeverReturns(cmds, settled);
      }
    }

    lemma AtLast(cmds: seq<Cmd>, k: nat, look: nat, n: nat)
      requires AllEncodable(cmds) && k <= |cmds| && Returns(look, |Encode(cmds, k)|, n)
      ensures ReturnsFrom(cmds, k, look)
    {
    }

    lemma NeverReturns(cmds: seq<Cmd>, look: nat)
      requires Fair() && AllEncodable(cmds) && |Encode(cmds, |cmds|)| + 1 == |words| == arrives(look + 1)
      requires MsgType(words[|Encode(cmds, |cmds|)|]) != 0
      ensures !ReturnsFrom(cmds, |cmds|, look)
    {
      hide MsgType, Encode, GoesOn;
      var at := |Encode(cmds, |cmds|)|;
      forall n
        ensures !Returns(look, at, n)
      {
        LoneHeaderHangs(look + 1, at, n);
      }
    }

    /** Wait for a word. */
    method AwaitWord(ghost l: nat) returns (msg: u32)
      requires Valid() && FirstPast(recvLooks, taken, l)
      modifies this`recvLooks, this`taken
      ensures Valid() && recvLooks == l && taken == old(taken) + 1 && old(taken) < |words| && msg == words[old(taken)]
      ensures old(arrives(recvLooks)) <= arrives(recvLooks)
    {
      var empty := RecvEmpty();
      while empty
        invariant Valid() && taken == old(taken) && empty == (taken == arrives(recvLooks))
        invariant old(recvLooks) < recvLooks <= l && (empty ==> recvLooks < l) && (!empty ==> recvLooks == l)
        invariant old(arrives(recvLooks)) <= arrives(recvLooks)
        decreases l - recvLooks
      {
        empty := RecvEmpty();
      }
      msg := RecvMsg();
    }

    /** Wait for room, then send. */
    method Reply(msg: u32)
      requires Valid()
      modifies this`sendLooks, this`open, this`sent
      ensures Valid() && sent == old(sent) + [msg]
    {
      var full := SendFull();
      while full
        invariant Valid() && sent == old(sent) && sendLooks > 0 && open == !full == room(sendLooks - 1)
        invariant forall t :: old(sendLooks) <= t < sendLooks - 1 ==> !room(t)
        decreases nextRoom(old(sendLooks)) - sendLooks
      {
        full := SendFull();
      }
      SendMsg(msg);
    }
  }

  // ---------- the handler ----------

  /** The commands in what the other processor sends, whatever that is. */
  ghost function Commands(pxi: Pxi): (cmds: seq<Cmd>)
    ensures AllEncodable(cmds)
  {
    Parse(pxi.words, 0).0
  }

  /** The words of exactly the first n commands have been taken. */
  ghost predicate AtBoundary(pxi: Pxi, n: nat)
    reads pxi
  {
    n <= |Commands(pxi)| && pxi.taken == |Encode(Commands(pxi), n)|
  }

  lemma BanksShaped(mgr: VirtManager)
    requires mgr.Valid()
    ensures V.Shaped(mgr.model.virqs)
  {
  }

  /** One turn of the handler: the word just seen, and for a write the word after it. */
  method Perform(pxi: Pxi, mgr: VirtManager, ghost c: Cmd, ghost turns: nat)
    requires pxi.Valid() && mgr.Valid() && pxi !in mgr.Objects()
    requires Encodable(c) && pxi.taken < pxi.arrives(pxi.recvLooks) && pxi.GoesOn(pxi.recvLooks, pxi.taken, turns)
    requires pxi.taken + |Words(c)| <= |pxi.words| && pxi.words[pxi.taken..pxi.taken + |Words(c)|] == Words(c)
    modifies pxi, mgr, mgr.Objects()
    ensures pxi.Valid() && mgr.Valid() && old(pxi.arrives(pxi.recvLooks)) <= pxi.arrives(pxi.recvLooks)
    ensures pxi.taken == old(pxi.taken) + |Words(c)| && turns > 0
    ensures pxi.Returns(pxi.recvLooks, pxi.taken, turns - 1)
    ensures V.Shaped(old(mgr.model.virqs)) && mgr.model == Effect(old(mgr.model), c).0
    ensures pxi.sent == old(pxi.sent) + Effect(old(mgr.model), c).1
  {
    hide MsgType, MsgReg, MsgDev, Header, M.ReadReg, M.WriteReg, VirtManager.Valid, Pxi.Fair, Pxi.Returns;
    BanksShaped(mgr);
    ghost var mine := pxi.words[pxi.taken..pxi.taken + |Words(c)|];
    HeaderRoundTrip(c, 0);
    assert pxi.words[pxi.taken] == mine[0];
    assert c.Write? ==> pxi.words[pxi.taken + 1] == mine[1];
    var msg := pxi.RecvMsg();
    var cmd, dev, reg := MsgType(msg), MsgDev(msg), MsgReg(msg);
    match cmd {
      case 0 =>
        var data := mgr.ReadReg(dev, reg);
        pxi.Reply(data);
      case 1 =>
        ghost var l :| pxi.FirstPast(pxi.recvLooks, pxi.taken, l) && pxi.Returns(l, pxi.taken + 1, turns - 1);
        var data := pxi.AwaitWord(l);
        mgr.WriteReg(dev, reg, data);
      case _ =>
    }
  }

  lemma ExecNone(m: M.Machine, cmds: seq<Cmd>, i: nat)
    requires V.Shaped(m.virqs) && i <= |cmds|
    ensures Exec(m, cmds, i, i) == (m, [])
  {
  }

  lemma ExecOne(m: M.Machine, cmds: seq<Cmd>, i: nat, j: nat)
    requires V.Shaped(m.virqs) && i <= j < |cmds|
    ensures var (x, replies) := Exec(m, cmds, i, j);
            var (y, more) := Effect(x, cmds[j]);
            Exec(m, cmds, i, j + 1).0 == y && Exec(m, cmds, i, j + 1).1 == replies + more
  {
    hide Effect;
  }

  /** What has been seen and will be finished is the next whole command. */
  lemma SeenIsNext(pxi: Pxi, n: nat, turns: nat)
    requires pxi.Valid() && AtBoundary(pxi, n)
    requires pxi.taken < pxi.arrives(pxi.recvLooks) && pxi.GoesOn(pxi.recvLooks, pxi.taken, turns)
    ensures var cmds := Commands(pxi);
            && n < |cmds| && pxi.taken + |Words(cmds[n])| <= |pxi.words|
            && pxi.words[pxi.taken..pxi.taken + |Words(cmds[n])|] == Words(cmds[n])
            && |Encode(cmds, n + 1)| == pxi.taken + |Words(cmds[n])|
  {
    hide MsgType, Header, Encode, Parse, Pxi.GoesOn;
    var (cmds, rest) := Parse(pxi.words, 0);
    EncodeParsed(pxi.words, 0);
    assert pxi.words[0..] == pxi.words;
    var all := Encode(cmds, |cmds|);
    assert |pxi.words| == |all| + |rest| && pxi.words[..|all|] == all;
    if n == |cmds| {
      if rest != [] {
        assert pxi.words[|all|] == rest[0];
        pxi.LoneHeaderHangs(pxi.recvLooks, pxi.taken, turns);
      }
      assert false;
    }
    NextCommand(cmds, n);
    assert pxi.words[pxi.taken..pxi.taken + |Words(cmds[n])|] == all[pxi.taken..pxi.taken + |Words(cmds[n])|];
  }

  /** One turn, from the boundary before a command to the one after it, and the look that decides on the next. */
  method NextTurn(pxi: Pxi, mgr: VirtManager, ghost n: nat, ghost turns: nat) returns (empty: bool)
    requires pxi.Valid() && mgr.Valid() && pxi !in mgr.Objects() && AtBoundary(pxi, n)
    requires pxi.taken < pxi.arrives(pxi.recvLooks) && pxi.GoesOn(pxi.recvLooks, pxi.taken, turns)
    modifies pxi, mgr, mgr.Objects()
    ensures pxi.Valid() && mgr.Valid() && n < |Commands(pxi)| && AtBoundary(pxi, n + 1)
    ensures old(pxi.arrives(pxi.recvLooks)) <= pxi.arrives(pxi.recvLooks)
    ensures empty == (pxi.taken == pxi.arrives(pxi.recvLooks)) && turns > 0
    ensures !empty ==> pxi.GoesOn(pxi.recvLooks, pxi.taken, turns - 1)
    ensures V.Shaped(old(mgr.model.virqs)) && mgr.model == Effect(old(mgr.model), Commands(pxi)[n]).0
    ensures pxi.sent == old(pxi.sent) + Effect(old(mgr.model), Commands(pxi)[n]).1
  {
    hide Words, Encode, Effect, Commands, VirtManager.Valid, Pxi.Fair, Pxi.GoesOn, Pxi.Returns;
    SeenIsNext(pxi, n, turns);
    Perform(pxi, mgr, Commands(pxi)[n], turns);
    ghost var look := pxi.recvLooks;
    empty := pxi.RecvEmpty();
    if !empty { pxi.LookAgain(look, pxi.taken, turns - 1); }
  }

  /**
   * onPxiRecv, on any stream of words and any arrival times. If it returns at all, that is within some number
   * of turns, one call performs a whole number of commands, in order, with one reply per read, and returns
   * only when everything that has arrived is consumed.
   */
  method OnPxiRecv(pxi: Pxi, mgr: VirtManager, ghost n: nat, ghost turns: nat) returns (ghost n': nat)
    requires pxi.Valid() && mgr.Valid() && pxi !in mgr.Objects() && AtBoundary(pxi, n)
    requires pxi.Returns(pxi.recvLooks, pxi.taken, turns)
    modifies pxi, mgr, mgr.Objects()
    ensures pxi.Valid() && mgr.Valid() && n <= n' && AtBoundary(pxi, n')
    ensures V.Shaped(old(mgr.model.virqs)) && mgr.model == Exec(old(mgr.model), Commands(pxi), n, n').0
    ensures pxi.sent == old(pxi.sent) + Exec(old(mgr.model), Commands(pxi), n, n').1
    ensures pxi.taken == pxi.arrives(pxi.recvLooks) >= old(pxi.arrives(pxi.recvLooks))
  {
    hide Words, Encode, Effect, Exec, Commands, VirtManager.Valid, Pxi.Fair, Pxi.GoesOn, Pxi.Returns;
    BanksShaped(mgr);
    ghost var left, look := turns, pxi.recvLooks;
    ExecNone(mgr.model, Commands(pxi), n);
    n' := n;
    var empty := pxi.RecvEmpty();
    if !empty { pxi.LookAgain(look, pxi.taken, left); }
    while !empty
      invariant pxi.Valid() && mgr.Valid() && n <= n' && AtBoundary(pxi, n')
      invariant mgr.model == Exec(old(mgr.model), Commands(pxi), n, n').0
      invariant pxi.sent == old(pxi.sent) + Exec(old(mgr.model), Commands(pxi), n, n').1
      invariant empty == (pxi.taken == pxi.arrives(pxi.recvLooks))
      invariant !empty ==> pxi.GoesOn(pxi.recvLooks, pxi.taken, left)
      invariant old(pxi.arrives(pxi.recvLooks)) <= pxi.arrives(pxi.recvLooks)
      decreases left
    {
      empty := NextTurn(pxi, mgr, n', left);
      ExecOne(old(mgr.model), Commands(pxi), n, n');
      n', left := n' + 1, left - 1;
    }
  }
}
