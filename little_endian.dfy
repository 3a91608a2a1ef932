/**
 * Little-endian encoding of 64- and 32-bit words as bytes, as done by Go's
 * encoding/binary.LittleEndian (Uint64, PutUint64, PutUint32).
 */
module LittleEndian {

  type byte = bv8

  /**
   * LittleEndian.Uint64(b[i:i+8]): the word whose byte k, counted from the
   * least significant end, is b[i + k].
   */
  function Uint64At(b: seq<byte>, i: nat): bv64
    requires i + 8 <= |b|
  {
    (b[i] as bv64)
    | ((b[i + 1] as bv64) << 8)
    | ((b[i + 2] as bv64) << 16)
    | ((b[i + 3] as bv64) << 24)
    | ((b[i + 4] as bv64) << 32)
    | ((b[i + 5] as bv64) << 40)
    | ((b[i + 6] as bv64) << 48)
    | ((b[i + 7] as bv64) << 56)
  }

  /** The eight bytes of w, least significant first (PutUint64). */
  function PutUint64(w: bv64): (b: seq<byte>)
    ensures |b| == 8
    ensures Uint64At(b, 0) == w
  {
    [ (w & 0xFF) as byte,
      ((w >> 8) & 0xFF) as byte,
      ((w >> 16) & 0xFF) as byte,
      ((w >> 24) & 0xFF) as byte,
      ((w >> 32) & 0xFF) as byte,
      ((w >> 40) & 0xFF) as byte,
      ((w >> 48) & 0xFF) as byte,
      ((w >> 56) & 0xFF) as byte ]
  }

  /** LittleEndian.Uint32(b[i:i+4]). */
  function Uint32At(b: seq<byte>, i: nat): bv32
    requires i + 4 <= |b|
  {
    (b[i] as bv32)
    | ((b[i + 1] as bv32) << 8)
    | ((b[i + 2] as bv32) << 16)
    | ((b[i + 3] as bv32) << 24)
  }

  /** The four bytes of w, least significant first (PutUint32). */
  function PutUint32(w: bv32): (b: seq<byte>)
    ensures |b| == 4
    ensures Uint32At(b, 0) == w
  {
    [ (w & 0xFF) as byte,
      ((w >> 8) & 0xFF) as byte,
      ((w >> 16) & 0xFF) as byte,
      ((w >> 24) & 0xFF) as byte ]
  }

  /** Byte k of the word read at b[i], from the least significant end, is b[i + k]. */
  lemma Uint64AtBytes(b: seq<byte>, i: nat)
    requires i + 8 <= |b|
    ensures (Uint64At(b, i) & 0xFF) as byte == b[i]
    ensures ((Uint64At(b, i) >> 8) & 0xFF) as byte == b[i + 1]
    ensures ((Uint64At(b, i) >> 16) & 0xFF) as byte == b[i + 2]
    ensures ((Uint64At(b, i) >> 24) & 0xFF) as byte == b[i + 3]
    ensures ((Uint64At(b, i) >> 32) & 0xFF) as byte == b[i + 4]
    ensures ((Uint64At(b, i) >> 40) & 0xFF) as byte == b[i + 5]
    ensures ((Uint64At(b, i) >> 48) & 0xFF) as byte == b[i + 6]
    ensures ((Uint64At(b, i) >> 56) & 0xFF) as byte == b[i + 7]
  {
  }

  /** Reading eight bytes as a word and writing the word back gives them back. */
  lemma Uint64RoundTrip(b: seq<byte>, i: nat)
    requires i + 8 <= |b|
    ensures PutUint64(Uint64At(b, i)) == b[i..i + 8]
  {
    Uint64AtBytes(b, i);
  }

  /** A read sees only its eight bytes, so cutting b after them changes nothing. */
  lemma Uint64AtPrefix(b: seq<byte>, i: nat, n: nat)
    requires i + 8 <= n <= |b|
    ensures Uint64At(b[..n], i) == Uint64At(b, i)
  {
    assert b[..n][i..i + 8] == b[i..i + 8];
    Uint64AtInjective(b[..n], i, b, i);
  }

  /** Two reads agree exactly when the eight bytes they read agree. */
  lemma Uint64AtInjective(b: seq<byte>, i: nat, c: seq<byte>, j: nat)
    requires i + 8 <= |b| && j + 8 <= |c|
    ensures Uint64At(b, i) == Uint64At(c, j) <==> b[i..i + 8] == c[j..j + 8]
  {
    if b[i..i + 8] == c[j..j + 8] {
      var bs, cs := b[i..i + 8], c[j..j + 8];
      assert forall k :: 0 <= k < 8 ==> bs[k] == b[i + k];
      assert forall k :: 0 <= k < 8 ==> cs[k] == c[j + k];
    }
    if Uint64At(b, i) == Uint64At(c, j) {
      Uint64RoundTrip(b, i);
      Uint64RoundTrip(c, j);
    }
  }
}
