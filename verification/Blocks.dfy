/** Disk blocks: BSIZE bytes, read by the kernel as bytes, as little-endian
    32-bit words (log header, indirect block) and as bits (free map). */
module Blocks {
  const BSIZE: nat := 1024
  const WORDS: nat := 256    // BSIZE / sizeof(uint)
  const BPB: nat := 8192     // bits per free-map block
  const UINT: nat := 0x1_0000_0000
  const MAXOPBLOCKS: nat := 10   // blocks a file system operation may log

  type byte = x: int | 0 <= x < 256
  type Block = b: seq<byte> | |b| == BSIZE witness seq(BSIZE, _ => 0)

  function Zeros(n: nat): (z: seq<byte>)
    ensures |z| == n && forall i :: 0 <= i < n ==> z[i] == 0
  {
    if n == 0 then [] else Zeros(n - 1) + [0]
  }

  /** memset(bp->data, 0, BSIZE) */
  function ZeroBlock(): (z: Block)
    ensures forall i :: 0 <= i < BSIZE ==> z[i] == 0
  {
    Zeros(BSIZE)
  }

  // ---- words ----

  function Join(a: int, b: int, c: int, d: int): int {
    a + 256 * (b + 256 * (c + 256 * d))
  }

  function Word(b: Block, i: nat): (w: nat)
    requires i < WORDS
    ensures w < UINT
  {
    var x0: int, x1: int, x2: int, x3: int := b[4 * i], b[4 * i + 1], b[4 * i + 2], b[4 * i + 3];
    Join(x0, x1, x2, x3)
  }

  function ByteOf(v: nat, k: nat): (r: byte)
    requires v < UINT && k < 4
  {
    if k == 0 then v % 256 else if k == 1 then v / 256 % 256
    else if k == 2 then v / 256 / 256 % 256 else v / 256 / 256 / 256 % 256
  }

  function PutWord(b: Block, i: nat, v: nat): (r: Block)
    requires i < WORDS && v < UINT
    ensures forall j :: 0 <= j < BSIZE && !(4 * i <= j < 4 * i + 4) ==> r[j] == b[j]
    ensures r[4 * i] == ByteOf(v, 0) && r[4 * i + 1] == ByteOf(v, 1)
    ensures r[4 * i + 2] == ByteOf(v, 2) && r[4 * i + 3] == ByteOf(v, 3)
  {
    b[..4 * i] + [ByteOf(v, 0), ByteOf(v, 1), ByteOf(v, 2), ByteOf(v, 3)] + b[4 * i + 4..]
  }

  lemma JoinOfBytes(v: nat)
    requires v < UINT
    ensures Join(ByteOf(v, 0), ByteOf(v, 1), ByteOf(v, 2), ByteOf(v, 3)) == v
  {
    var a := v / 256;
    var b := a / 256;
    var c := b / 256;
    assert v == 256 * a + v % 256;
    assert a == 256 * b + a % 256;
    assert b == 256 * c + b % 256;
    assert c < 256;
  }

  /** Storing a word changes that word and no other. */
  lemma WordOfPut(b: Block, i: nat, v: nat, j: nat)
    requires i < WORDS && j < WORDS && v < UINT
    ensures Word(PutWord(b, i, v), j) == if i == j then v else Word(b, j)
  {
    JoinOfBytes(v);
  }

  // ---- bits ----

  /** x & (1 << k) != 0. */
  predicate HasBit(x: nat, k: nat) {
    if k == 0 then x % 2 == 1 else HasBit(x / 2, k - 1)
  }

  function Pow2(n: nat): (p: nat)
    ensures p > 0
  {
    if n == 0 then 1 else 2 * Pow2(n - 1)
  }

  /** x ^ (1 << k). */
  function FlipBit(x: nat, k: nat): nat {
    if k == 0 then (if x % 2 == 1 then x - 1 else x + 1)
    else 2 * FlipBit(x / 2, k - 1) + x % 2
  }

  lemma Halve(y: nat, r: nat)
    requires r < 2
    ensures (2 * y + r) / 2 == y && (2 * y + r) % 2 == r
  {
  }

  lemma {:induction false} FlipBitWidth(x: nat, k: nat, n: nat)
    requires x < Pow2(n) && k < n
    ensures FlipBit(x, k) < Pow2(n)
  {
    var y, r, half := x / 2, x % 2, Pow2(n - 1);
    assert x == 2 * y + r && Pow2(n) == 2 * half;
    assert y < half;
    if k > 0 { FlipBitWidth(y, k - 1, n - 1); }
  }

  lemma {:induction false} FlipBitAt(x: nat, k: nat, j: nat)
    ensures HasBit(FlipBit(x, k), j) == if j == k then !HasBit(x, j) else HasBit(x, j)
  {
    var y, r := x / 2, x % 2;
    assert x == 2 * y + r;
    if k > 0 {
      Halve(FlipBit(y, k - 1), r);
      if j > 0 { FlipBitAt(y, k - 1, j - 1); }
    } else {
      assert FlipBit(x, 0) == 2 * y + (1 - r);
      Halve(y, 1 - r);
    }
  }

  /** Bit bi of a free-map block. */
  predicate Bit(b: Block, bi: nat)
    requires bi < BPB
  {
    HasBit(b[bi / 8], bi % 8)
  }

  /** The block with bit bi inverted: what |= m and &= ~m do to a clear and to a set bit. */
  function Flip(b: Block, bi: nat): (r: Block)
    requires bi < BPB
    ensures Bit(r, bi) == !Bit(b, bi)
    ensures forall j :: 0 <= j < BPB && j != bi ==> Bit(r, j) == Bit(b, j)
  {
    FlipBitWidth(b[bi / 8], bi % 8, 8);
    FlipEveryBit(b[bi / 8], bi % 8);
    b[bi / 8 := FlipBit(b[bi / 8], bi % 8)]
  }

  lemma FlipEveryBit(x: nat, k: nat)
    ensures forall j: nat :: HasBit(FlipBit(x, k), j) == if j == k then !HasBit(x, j) else HasBit(x, j)
  {
    forall j: nat { FlipBitAt(x, k, j); }
  }
}
