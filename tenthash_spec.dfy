/**
 * The TentHash function on a whole message, as a reference definition: the
 * message is cut into 32-byte blocks, the last one zero-padded, each block is
 * xored into the state and mixed, then the bit length is xored into word 0,
 * the state is mixed twice and its first 160 bits are the digest.
 */
module TentHashSpec {
  import opened LittleEndian
  import opened Word64
  import opened Mixing

  /** Bytes absorbed per block (BlockSize). */
  const BlockSize: nat := 32

  /** Bytes in a digest (DigestSize): 160 bits. */
  const DigestSize: nat := 20

  /** 2^64, the modulus of Go's uint64 arithmetic. */
  const Modulus: int := 0x1_0000_0000_0000_0000

  /** The values of a Go uint64, kept as integers. */
  type uint64 = x: int | 0 <= x < 0x1_0000_0000_0000_0000

  /**
   * n as a uint64: Go's conversion of a non-negative count, and the wrap of
   * uint64 addition, as the remainder modulo 2^64.
   */
  function Wrap64(n: nat): (r: uint64)
  {
    n % Modulus
  }

  /** Adding to a wrapped count and wrapping again is wrapping the sum. */
  lemma WrapAdd(a: nat, b: nat)
    ensures Wrap64(Wrap64(a) + b) == Wrap64(a + b)
  {
    var q := a / Modulus;
    assert a == q * Modulus + Wrap64(a);
    assert a + b == q * Modulus + (Wrap64(a) + b);
  }

  /** The state with the first 32 bytes of data xored in, as four LE words. */
  function XorBlock(s: State, data: seq<byte>): State
    requires |data| >= BlockSize
  {
    State(Xor(s.w0, Uint64At(data, 0)),
          Xor(s.w1, Uint64At(data, 8)),
          Xor(s.w2, Uint64At(data, 16)),
          Xor(s.w3, Uint64At(data, 24)))
  }

  /** Absorbing one block: xor it in, then mix. */
  function Absorb(s: State, block: seq<byte>): State
    requires |block| >= BlockSize
  {
    Mix(XorBlock(s, block))
  }

  /**
   * Absorbs the whole blocks of m in order: the last block is absorbed into
   * the state that the blocks before it lead to.
   */
  function AbsorbBlocks(s: State, m: seq<byte>): State
    requires |m| % BlockSize == 0
    decreases |m|
  {
    if |m| == 0 then s
    else Absorb(AbsorbBlocks(s, m[..|m| - BlockSize]), m[|m| - BlockSize..])
  }

  /** n zero bytes. */
  function Zeros(n: nat): (z: seq<byte>)
    ensures |z| == n
    ensures forall i :: 0 <= i < n ==> z[i] == 0
  {
    if n == 0 then [] else Zeros(n - 1) + [0]
  }

  /** A partial last block filled up to 32 bytes with zeros. */
  function Pad(tail: seq<byte>): (block: seq<byte>)
    requires |tail| <= BlockSize
    ensures |block| == BlockSize
    ensures block[..|tail|] == tail
    ensures forall i :: |tail| <= i < BlockSize ==> block[i] == 0
  {
    tail + Zeros(BlockSize - |tail|)
  }

  /**
   * The message absorbed block by block (reference definition): every full
   * block of 32 bytes, then a zero-padded final block if bytes remain. An
   * empty message absorbs nothing.
   */
  function AbsorbMessage(s: State, m: seq<byte>): State
    decreases |m|
  {
    if |m| == 0 then s
    else if |m| <= BlockSize then Absorb(s, Pad(m))
    else AbsorbMessage(Absorb(s, m[..BlockSize]), m[BlockSize..])
  }

  /** The bit length messageLength * 8 in uint64 arithmetic, wrapping. */
  function BitLength(len: uint64): bv64
  {
    Wrap64(len * 8) as bv64
  }

  /** The lowest 32 bits of w: Go's uint32(w). */
  function Low32(w: bv64): bv32
  {
    (w & 0xFFFF_FFFF) as bv32
  }

  /** The state after the length step: bit length into word 0, two mixes. */
  function FinalState(s: State, len: uint64): State
  {
    Mix(Mix(State(Xor(s.w0, BitLength(len)), s.w1, s.w2, s.w3)))
  }

  /** The 20 digest bytes: LE word 0, LE word 1, LE low half of word 2. */
  function Serialize(s: State): (d: seq<byte>)
    ensures |d| == DigestSize
  {
    PutUint64(s.w0) + PutUint64(s.w1) + PutUint32(Low32(s.w2))
  }

  /** The digest of m by the TentHash construction, begun from state init. */
  function HashFrom(init: State, m: seq<byte>): (d: seq<byte>)
    ensures |d| == DigestSize
  {
    Serialize(FinalState(AbsorbMessage(init, m), Wrap64(|m|)))
  }

  /** TentHash of a message: the construction begun from the default state. */
  function Digest(m: seq<byte>): (d: seq<byte>)
    ensures |d| == DigestSize
  {
    HashFrom(DefaultState, m)
  }

  /**
   * Digest layout: bytes 0..7 are word 0, bytes 8..15 word 1 and bytes
   * 16..19 the low 32 bits of word 2, each little-endian.
   */
  lemma SerializeLayout(s: State)
    ensures Uint64At(Serialize(s), 0) == s.w0
    ensures Uint64At(Serialize(s), 8) == s.w1
    ensures Uint32At(Serialize(s), 16) == Low32(s.w2)
  {
    var d := Serialize(s);
    var a, b, c := PutUint64(s.w0), PutUint64(s.w1), PutUint32(Low32(s.w2));
    assert d[0..8] == a[0..8];
    assert d[8..16] == b[0..8];
    assert d[16] == c[0] && d[17] == c[1] && d[18] == c[2] && d[19] == c[3];
    Uint64AtInjective(d, 0, a, 0);
    Uint64AtInjective(d, 8, b, 0);
  }

  /** XorBlock only looks at the first 32 bytes of its data. */
  lemma XorBlockPrefix(s: State, data: seq<byte>)
    requires |data| >= BlockSize
    ensures XorBlock(s, data) == XorBlock(s, data[..BlockSize])
  {
    Uint64AtPrefix(data, 0, BlockSize);
    Uint64AtPrefix(data, 8, BlockSize);
    Uint64AtPrefix(data, 16, BlockSize);
    Uint64AtPrefix(data, 24, BlockSize);
  }

  /** Xoring in a block is undone by xoring it in again. */
  lemma XorBlockTwice(s: State, data: seq<byte>)
    requires |data| >= BlockSize
    ensures XorBlock(XorBlock(s, data), data) == s
  {
    XorTwice(s.w0, Uint64At(data, 0));
    XorTwice(s.w1, Uint64At(data, 8));
    XorTwice(s.w2, Uint64At(data, 16));
    XorTwice(s.w3, Uint64At(data, 24));
  }

  /** From a given state, different blocks are absorbed into different states. */
  lemma AbsorbInjective(s: State, a: seq<byte>, b: seq<byte>)
    requires |a| == BlockSize && |b| == BlockSize
    ensures Absorb(s, a) == Absorb(s, b) <==> a == b
  {
    if Absorb(s, a) == Absorb(s, b) {
      MixInjective(XorBlock(s, a), XorBlock(s, b));
      XorBlockWordsEqual(s, a, b);
      WordsEqual(a, b);
    }
  }

  lemma WordsEqual(a: seq<byte>, b: seq<byte>)
    requires |a| == BlockSize && |b| == BlockSize
    requires a[0..8] == b[0..8] && a[8..16] == b[8..16]
    requires a[16..24] == b[16..24] && a[24..32] == b[24..32]
    ensures a == b
  {
    assert a == a[0..8] + a[8..16] + a[16..24] + a[24..32];
    assert b == b[0..8] + b[8..16] + b[16..24] + b[24..32];
  }

  lemma XorBlockWordsEqual(s: State, a: seq<byte>, b: seq<byte>)
    requires |a| == BlockSize && |b| == BlockSize
    requires XorBlock(s, a) == XorBlock(s, b)
    ensures a[0..8] == b[0..8] && a[8..16] == b[8..16]
    ensures a[16..24] == b[16..24] && a[24..32] == b[24..32]
  {
    XorCancel(s.w0, Uint64At(a, 0), Uint64At(b, 0));
    XorCancel(s.w1, Uint64At(a, 8), Uint64At(b, 8));
    XorCancel(s.w2, Uint64At(a, 16), Uint64At(b, 16));
    XorCancel(s.w3, Uint64At(a, 24), Uint64At(b, 24));
    Uint64AtInjective(a, 0, b, 0);
    Uint64AtInjective(a, 8, b, 8);
    Uint64AtInjective(a, 16, b, 16);
    Uint64AtInjective(a, 24, b, 24);
  }

  /** Absorbing whole blocks and then one more block. */
  lemma AbsorbBlocksSnoc(s: State, m: seq<byte>, block: seq<byte>)
    requires |m| % BlockSize == 0 && |block| == BlockSize
    ensures AbsorbBlocks(s, m + block) == Absorb(AbsorbBlocks(s, m), block)
  {
    assert (m + block)[..|m|] == m;
    assert (m + block)[|m|..] == block;
  }

  /** A length of whole blocks stays so with one more block. */
  lemma AlignedNext(n: int)
    requires n % BlockSize == 0
    ensures (n + BlockSize) % BlockSize == 0
  {
  }

  /** Absorbing one block and then whole blocks. */
  lemma {:induction false} AbsorbBlocksCons(s: State, block: seq<byte>, m: seq<byte>)
    requires |block| == BlockSize && |m| % BlockSize == 0
    ensures AbsorbBlocks(s, block + m) == AbsorbBlocks(Absorb(s, block), m)
    decreases |m|
  {
    var bm := block + m;
    if |m| == 0 {
      assert bm[..|bm| - BlockSize] == [] && bm[|bm| - BlockSize..] == block;
    } else {
      var front, last := m[..|m| - BlockSize], m[|m| - BlockSize..];
      assert bm[..|bm| - BlockSize] == block + front;
      assert bm[|bm| - BlockSize..] == last;
      AbsorbBlocksCons(s, block, front);
    }
  }

  /**
   * A message made of whole blocks followed by at most one block of bytes is
   * absorbed as those blocks and then the rest on its own.
   */
  lemma {:induction false} AbsorbMessageSplit(s: State, blocks: seq<byte>, tail: seq<byte>)
    requires |blocks| % BlockSize == 0 && |tail| <= BlockSize
    ensures AbsorbMessage(s, blocks + tail) == AbsorbMessage(AbsorbBlocks(s, blocks), tail)
    decreases |blocks|
  {
    if |blocks| == 0 {
      assert blocks + tail == tail;
    } else if |blocks + tail| <= BlockSize {
      // One whole block and nothing after it.
      assert blocks + tail == blocks;
      PadFull(blocks);
      AbsorbBlocksSnoc(s, [], blocks);
      assert [] + blocks == blocks;
    } else {
      var head, rest := blocks[..BlockSize], blocks[BlockSize..];
      assert blocks == head + rest;
      assert (blocks + tail)[..BlockSize] == head;
      assert (blocks + tail)[BlockSize..] == rest + tail;
      AbsorbMessageSplit(Absorb(s, head), rest, tail);
      AbsorbBlocksCons(s, head, rest);
    }
  }

  /** A full block needs no padding. */
  lemma PadFull(block: seq<byte>)
    requires |block| == BlockSize
    ensures Pad(block) == block
  {
    assert Zeros(0) == [];
  }

  /** A message of whole blocks is absorbed exactly by AbsorbBlocks. */
  lemma AbsorbMessageBlocks(s: State, blocks: seq<byte>)
    requires |blocks| % BlockSize == 0
    ensures AbsorbMessage(s, blocks) == AbsorbBlocks(s, blocks)
  {
    AbsorbMessageSplit(s, blocks, []);
    assert blocks + [] == blocks;
  }

  /**
   * The length step separates: from the same absorbed state, two lengths
   * give the same final state exactly when their wrapped bit lengths agree.
   */
  lemma FinalStateSeparates(s: State, len1: uint64, len2: uint64)
    ensures FinalState(s, len1) == FinalState(s, len2) <==> BitLength(len1) == BitLength(len2)
  {
    var t1 := State(Xor(s.w0, BitLength(len1)), s.w1, s.w2, s.w3);
    var t2 := State(Xor(s.w0, BitLength(len2)), s.w1, s.w2, s.w3);
    MixInjective(Mix(t1), Mix(t2));
    MixInjective(t1, t2);
    XorCancel(s.w0, BitLength(len1), BitLength(len2));
  }

  /**
   * Why the length is xored in: a message whose last block is partial and
   * the same message with zero bytes appended (staying in that block) pad
   * to the same block, so they absorb to the same state.
   */
  lemma ZeroExtensionSameAbsorbed(s: State, m: seq<byte>, k: nat)
    requires 0 < |m| % BlockSize && |m| % BlockSize + k <= BlockSize
    ensures AbsorbMessage(s, m + Zeros(k)) == AbsorbMessage(s, m)
  {
    var cut := |m| - |m| % BlockSize;
    var blocks := m[..cut];
    var tail := m[cut..];
    assert m == blocks + tail;
    assert m + Zeros(k) == blocks + (tail + Zeros(k));
    AbsorbMessageSplit(s, blocks, tail);
    AbsorbMessageSplit(s, blocks, tail + Zeros(k));
    PadZeros(tail, k);
  }

  /** Padding does not see trailing zeros inside the block. */
  lemma PadZeros(tail: seq<byte>, k: nat)
    requires |tail| + k <= BlockSize
    ensures Pad(tail + Zeros(k)) == Pad(tail)
  {
  }
}
