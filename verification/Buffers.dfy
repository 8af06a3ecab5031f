/** Byte buffers in guest memory and the bytes devices put there. */
module Buffers {
  import opened Bits

  /** ram with the bytes bs written from address a on. */
  function Blit(ram: seq<u8>, a: nat, bs: seq<u8>): (r: seq<u8>)
    requires a + |bs| <= |ram|
    ensures |r| == |ram|
    decreases |bs|
  {
    if bs == [] then ram else Blit(ram, a, bs[..|bs| - 1])[a + |bs| - 1 := bs[|bs| - 1]]
  }

  lemma {:induction false} BlitIsSplice(ram: seq<u8>, a: nat, bs: seq<u8>)
    requires a + |bs| <= |ram|
    ensures Blit(ram, a, bs) == ram[..a] + bs + ram[a + |bs|..]
    decreases |bs|
  {
    if bs != [] {
      BlitIsSplice(ram, a, bs[..|bs| - 1]);
    }
  }

  lemma BlitAt(ram: seq<u8>, a: nat, bs: seq<u8>)
    requires a + |bs| <= |ram|
    ensures Blit(ram, a, bs)[a..a + |bs|] == bs
    ensures forall x :: 0 <= x < |ram| && !(a <= x < a + |bs|) ==> Blit(ram, a, bs)[x] == ram[x]
  {
    BlitIsSplice(ram, a, bs);
  }

  lemma {:induction false} BlitAppend(ram: seq<u8>, a: nat, x: seq<u8>, y: seq<u8>)
    requires a + |x| + |y| <= |ram|
    ensures Blit(Blit(ram, a, x), a + |x|, y) == Blit(ram, a, x + y)
    decreases |y|
  {
    if y == [] {
      assert x + y == x;
    } else {
      BlitAppend(ram, a, x, y[..|y| - 1]);
      assert (x + y)[..|x + y| - 1] == x + y[..|y| - 1];
    }
  }

  /** A write elsewhere leaves a window alone. */
  lemma BlitElsewhere(ram: seq<u8>, a: nat, bs: seq<u8>, lo: nat, hi: nat)
    requires a + |bs| <= |ram| && lo <= hi <= |ram| && (hi <= a || a + |bs| <= lo)
    ensures Blit(ram, a, bs)[lo..hi] == ram[lo..hi]
  {
    BlitIsSplice(ram, a, bs);
  }

  /** Little-endian bytes of a 32-bit word. */
  function WordBytes(w: u32): (bs: seq<u8>)
    ensures |bs| == 4
  {
    [w % 0x100, w / 0x100 % 0x100, w / 0x1_0000 % 0x100, w / 0x100_0000]
  }

  /** The little-endian word at address a. */
  function LoadWord(ram: seq<u8>, a: nat): u32
    requires a + 4 <= |ram|
  {
    var b0: int, b1: int, b2: int, b3: int := ram[a], ram[a + 1], ram[a + 2], ram[a + 3];
    b0 + 0x100 * b1 + 0x1_0000 * b2 + 0x100_0000 * b3
  }

  /** The bytes of n consecutive words of a stream. */
  function StreamBytes(stream: nat -> u32, from: nat, n: nat): (bs: seq<u8>)
    ensures |bs| == 4 * n
  {
    if n == 0 then [] else StreamBytes(stream, from, n - 1) + WordBytes(stream(from + n - 1))
  }

  method StoreWord(ram: array<u8>, a: nat, w: u32)
    requires a + 4 <= ram.Length
    modifies ram
    ensures ram[..] == Blit(old(ram[..]), a, WordBytes(w))
  {
    BlitIsSplice(ram[..], a, WordBytes(w));
    ram[a], ram[a + 1], ram[a + 2], ram[a + 3] := w % 0x100, w / 0x100 % 0x100, w / 0x1_0000 % 0x100, w / 0x100_0000;
  }

  // ---------- byte by byte ----------

  /** Byte j of a word, from the low end. */
  function ByteOf(w: nat, j: nat): u8
    decreases j
  {
    if j == 0 then w % 256 else ByteOf(w / 256, j - 1)
  }

  lemma ByteOfWord(w: u32)
    ensures ByteOf(w, 0) == w % 256 && ByteOf(w, 1) == w / 256 % 256
    ensures ByteOf(w, 2) == w / 256 / 256 % 256 && ByteOf(w, 3) == w / 256 / 256 / 256
  {
    assert ByteOf(w, 1) == ByteOf(w / 256, 0);
    assert ByteOf(w, 2) == ByteOf(w / 256, 1) == ByteOf(w / 256 / 256, 0);
    assert ByteOf(w, 3) == ByteOf(w / 256, 2) == ByteOf(w / 256 / 256, 1) == ByteOf(w / 256 / 256 / 256, 0);
  }

  /** Words are laid out low byte first. */
  lemma WordBytesAre(w: u32, j: nat)
    requires j < 4
    ensures WordBytes(w)[j] == ByteOf(w, j)
  {
    ByteOfWord(w);
    Shifts(w);
  }

  lemma Shifts(w: u32)
    ensures w / 0x1_0000 == w / 256 / 256 && w / 0x100_0000 == w / 256 / 256 / 256
  {
  }

  /** And read back so: four bytes that are those of w load as w. */
  lemma LoadWordIs(ram: seq<u8>, a: nat, w: u32)
    requires a + 4 <= |ram| && forall j :: 0 <= j < 4 ==> ram[a + j] == ByteOf(w, j)
    ensures LoadWord(ram, a) == w
  {
    ByteOfWord(w);
    assert ram[a + 0] == ByteOf(w, 0) && ram[a + 1] == ByteOf(w, 1);
    assert ram[a + 2] == ByteOf(w, 2) && ram[a + 3] == ByteOf(w, 3);
    var w1 := w / 256;
    var w2 := w1 / 256;
    assert w == 256 * w1 + w % 256 && w1 == 256 * w2 + w1 % 256 && w2 == 256 * (w2 / 256) + w2 % 256;
  }

  /** The word loaded has the bytes that stand there. */
  lemma LoadedBytes(ram: seq<u8>, a: nat, j: nat)
    requires a + 4 <= |ram| && j < 4
    ensures ByteOf(LoadWord(ram, a), j) == ram[a + j]
  {
    var b0: int, b1: int, b2: int, b3: int := ram[a], ram[a + 1], ram[a + 2], ram[a + 3];
    var w := LoadWord(ram, a);
    ByteOfWord(w);
    assert w == 256 * (256 * (256 * b3 + b2) + b1) + b0;
    assert w / 256 == 256 * (256 * b3 + b2) + b1;
    assert w / 256 / 256 == 256 * b3 + b2;
  }

  /** Byte j of word i of a stream stands at 4 * i + j. */
  lemma {:induction false} StreamBytesAre(stream: nat -> u32, from: nat, n: nat, i: nat, j: nat)
    requires i < n && j < 4
    ensures StreamBytes(stream, from, n)[4 * i + j] == ByteOf(stream(from + i), j)
    decreases n
  {
    hide WordBytes, ByteOf;
    if i == n - 1 {
      WordBytesAre(stream(from + i), j);
    } else {
      StreamBytesAre(stream, from, n - 1, i, j);
    }
  }
}
