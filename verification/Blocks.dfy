/** Disk blocks as the kernel sees them: 512 bytes, read as bytes, as 128
    little-endian 32-bit words (index blocks, inodes, the log header) or as
    4096 bits (the free map). */
module Blocks {

  datatype Option<+T> = None | Some(value: T)

  const BSIZE := 512
  const WORDS := 128
  const BPB := 4096

  type Byte = x: int | 0 <= x < 0x100
  type Word = x: int | 0 <= x < 0x1_0000_0000
  type Block = b: seq<Byte> | |b| == BSIZE witness seq(BSIZE, _ => 0)

  /** What bzero leaves in a block. */
  function ZeroBlock(): (b: Block)
    ensures forall k :: 0 <= k < BSIZE ==> b[k] == 0
  {
    seq(BSIZE, _ => 0)
  }

  /** The i-th word of a block, `((uint*)bp->data)[i]`. */
  function WordAt(b: Block, i: nat): (w: Word)
    requires i < WORDS
    ensures b == ZeroBlock() ==> w == 0
  {
    b[4 * i] as int + 0x100 * b[4 * i + 1] as int + 0x1_0000 * b[4 * i + 2] as int + 0x100_0000 * b[4 * i + 3] as int
  }

  lemma WordFromBytes(w: Word)
    ensures w % 0x100 + 0x100 * (w / 0x100 % 0x100) + 0x1_0000 * (w / 0x1_0000 % 0x100)
            + 0x100_0000 * (w / 0x100_0000) == w
  {
    assert w / 0x1_0000 == w / 0x100 / 0x100;
    assert w / 0x100_0000 == w / 0x1_0000 / 0x100;
  }

  /** The store `((uint*)bp->data)[i] = w`: it is read back, and no other word moves. */
  function SetWord(b: Block, i: nat, w: Word): (r: Block)
    requires i < WORDS
    ensures forall j: nat {:trigger WordAt(r, j)} :: j < WORDS ==> WordAt(r, j) == if j == i then w else WordAt(b, j)
  {
    WordFromBytes(w);
    b[..4 * i] + [w % 0x100, w / 0x100 % 0x100, w / 0x1_0000 % 0x100, w / 0x100_0000] + b[4 * i + 4..]
  }

  /** Bit k of a byte, `x & (1 << k)`. */
  predicate ByteBit(x: int, k: nat)
    decreases k
  {
    if k == 0 then x % 2 == 1 else ByteBit(x / 2, k - 1)
  }

  /** The byte x with bit k inverted. */
  function FlipByte(x: int, k: nat): int
    decreases k
  {
    if k == 0 then x / 2 * 2 + 1 - x % 2 else FlipByte(x / 2, k - 1) * 2 + x % 2
  }

  lemma {:induction false} FlipByteFlipsOne(x: int, k: nat, bound: nat, j: nat)
    requires k < bound
    ensures ByteBit(FlipByte(x, k), j) <==> (ByteBit(x, j) <==> j != k)
    ensures 0 <= x < Pow2(bound) ==> 0 <= FlipByte(x, k) < Pow2(bound)
    decreases k
  {
    if k > 0 { FlipByteFlipsOne(x / 2, k - 1, bound - 1, if j == 0 then 0 else j - 1); }
  }

  function Pow2(n: nat): nat
  {
    if n == 0 then 1 else 2 * Pow2(n - 1)
  }

  /** Whether bit k of a block is set, `data[k/8] & (1 << k%8)`. */
  predicate BitAt(b: Block, k: nat)
    requires k < BPB
  {
    ByteBit(b[k / 8], k % 8)
  }

  lemma FlipBitFlipsOne(b: Block, k: nat)
    requires k < BPB
    ensures 0 <= FlipByte(b[k / 8], k % 8) < 0x100
    ensures forall j: nat :: j < BPB ==>
      (BitAt(b[k / 8 := FlipByte(b[k / 8], k % 8)], j) <==> (BitAt(b, j) <==> j != k))
  {
    assert Pow2(8) == 0x100;
    FlipByteFlipsOne(b[k / 8], k % 8, 8, 0);
    var r: Block := b[k / 8 := FlipByte(b[k / 8], k % 8)];
    forall j: nat | j < BPB ensures BitAt(r, j) <==> (BitAt(b, j) <==> j != k) {
      FlipByteFlipsOne(b[k / 8], k % 8, 8, j % 8);
    }
  }

  /** Block b with bit k inverted. */
  function FlipBit(b: Block, k: nat): (r: Block)
    requires k < BPB
    ensures forall j: nat :: j < BPB ==> (BitAt(r, j) <==> (BitAt(b, j) <==> j != k))
  {
    FlipBitFlipsOne(b, k);
    b[k / 8 := FlipByte(b[k / 8], k % 8)]
  }

  /** `data[k/8] |= 1 << k%8` sets bit k and touches no other bit. */
  function SetBit(b: Block, k: nat): (r: Block)
    requires k < BPB
    ensures forall j: nat :: j < BPB ==> (BitAt(r, j) <==> j == k || BitAt(b, j))
  {
    if BitAt(b, k) then b else FlipBit(b, k)
  }

  /** `data[k/8] &= ~(1 << k%8)` clears bit k and touches no other bit. */
  function ClearBit(b: Block, k: nat): (r: Block)
    requires k < BPB
    ensures forall j: nat :: j < BPB ==> (BitAt(r, j) <==> j != k && BitAt(b, j))
  {
    if BitAt(b, k) then FlipBit(b, k) else b
  }
}
