/**
 * The contents of a TentHasher, on plain values: what its state, buffer and
 * fill stand for, and what one pass of the loop in Write and the start of
 * Sum do to them.
 */
module Buffering {
  import opened LittleEndian
  import opened Mixing
  import opened TentHashSpec

  /**
   * What a hasher that started from init, and whose state is s, whose buffer
   * is buffer and whose fill is bufLength, holds after the bytes w were
   * written: the last bufLength bytes of w sit in the buffer (at most one
   * block of them), and s is init with every block before them absorbed in
   * order.
   */
  ghost predicate Represents(init: State, s: State, buffer: seq<byte>, bufLength: int, w: seq<byte>)
  {
    |buffer| == BlockSize && 0 <= bufLength <= BlockSize && bufLength <= |w|
    && (|w| - bufLength) % BlockSize == 0
    && buffer[..bufLength] == w[|w| - bufLength..]
    && Absorbs(init, w[..|w| - bufLength], s)
  }

  /**
   * s is init with the blocks of m absorbed. The equation is guarded by a
   * quantifier, so that the solver uses it only where a proof speaks of
   * AbsorbBlocks(init, m) and not everywhere a hasher is merely passed on.
   */
  ghost predicate Absorbs(init: State, m: seq<byte>, s: State)
    requires |m| % BlockSize == 0
  {
    forall m' {:trigger AbsorbBlocks(init, m')} :: m' == m ==> s == AbsorbBlocks(init, m')
  }

  /** Absorbs is the equation s == AbsorbBlocks(init, m). */
  lemma AbsorbsEquation(init: State, m: seq<byte>, s: State)
    requires |m| % BlockSize == 0
    ensures Absorbs(init, m, s) <==> s == AbsorbBlocks(init, m)
  {
  }

  /** Represents looks only at the values it is given. */
  lemma SameRepresents(init: State, s: State, buffer: seq<byte>, bufLength: int, w: seq<byte>,
                       s': State, buffer': seq<byte>)
    requires Represents(init, s', buffer', bufLength, w) && s == s' && buffer == buffer'
    ensures Represents(init, s, buffer, bufLength, w)
  {
  }

  /** The first branch of Write: a block read straight from the data. */
  lemma AbsorbDirect(init: State, s: State, buffer: seq<byte>, w: seq<byte>, block: seq<byte>)
    requires Represents(init, s, buffer, 0, w) && |block| == BlockSize
    ensures Represents(init, Absorb(s, block), buffer, 0, w + block)
  {
    var w' := w + block;
    AlignedNext(|w|);
    assert w'[..|w'|] == w';
    assert w'[..|w'| - BlockSize] == w[..|w|];
    assert w'[|w'| - BlockSize..] == block;
    AbsorbsEquation(init, w[..|w|], s);
    AbsorbsEquation(init, w', Absorb(s, block));
  }

  /** The second branch of Write: the full buffer is absorbed and emptied. */
  lemma AbsorbBuffer(init: State, s: State, buffer: seq<byte>, w: seq<byte>)
    requires Represents(init, s, buffer, BlockSize, w)
    ensures Represents(init, Absorb(s, buffer), buffer, 0, w)
  {
    var cut := |w| - BlockSize;
    assert buffer[..BlockSize] == buffer;
    assert w[..|w|] == w;
    assert w[..|w|][..cut] == w[..cut];
    assert w[..|w|][cut..] == buffer;
    AbsorbsEquation(init, w[..cut], s);
    AbsorbsEquation(init, w[..|w|], Absorb(s, buffer));
  }

  /** The third branch of Write: bytes copied into the buffer's free tail. */
  lemma CopyIntoBuffer(init: State, s: State, buffer: seq<byte>, bufLength: int, w: seq<byte>, chunk: seq<byte>)
    requires Represents(init, s, buffer, bufLength, w) && bufLength + |chunk| <= BlockSize
    ensures Represents(init, s, buffer[..bufLength] + chunk + buffer[bufLength + |chunk|..],
                       bufLength + |chunk|, w + chunk)
  {
    var w' := w + chunk;
    var b' := buffer[..bufLength] + chunk + buffer[bufLength + |chunk|..];
    var cut := |w| - bufLength;
    assert |w'| - (bufLength + |chunk|) == cut;
    assert w'[..cut] == w[..cut];
    assert b'[..bufLength + |chunk|] == buffer[..bufLength] + chunk;
    assert w'[cut..] == w[cut..] + chunk;
  }

  /**
   * The start of Sum: the buffered tail, zero-padded, is absorbed when there
   * is one; the state is then the whole message absorbed.
   */
  lemma AbsorbTail(init: State, s: State, buffer: seq<byte>, bufLength: int, w: seq<byte>)
    requires Represents(init, s, buffer, bufLength, w)
    ensures AbsorbMessage(init, w)
         == if bufLength > 0 then Absorb(s, Pad(buffer[..bufLength])) else s
  {
    var cut := |w| - bufLength;
    assert w == w[..cut] + w[cut..];
    AbsorbsEquation(init, w[..cut], s);
    AbsorbMessageSplit(init, w[..cut], w[cut..]);
  }

  /**
   * The fill bufLength ends with after a Write of n bytes that found it at
   * len. It is the count of bytes past the last block boundary, except that
   * a buffer that the write fills exactly by copying is left full.
   */
  function BufLengthAfter(len: int, n: nat): (r: int)
    ensures 0 <= len <= BlockSize ==> 0 <= r <= BlockSize
    ensures 0 <= len <= BlockSize ==> (len + n - r) % BlockSize == 0
    ensures 0 <= len <= BlockSize ==>
      (r == BlockSize <==> (n == 0 && len == BlockSize) || (0 < len && len + n == BlockSize))
  {
    if n == 0 then len
    else if (len + n) % BlockSize != 0 then (len + n) % BlockSize
    else if 0 < len && len + n == BlockSize then BlockSize
    else 0
  }

  /** Moving k bytes from the front of rest to the end of w keeps w + rest. */
  lemma Advance(w: seq<byte>, rest: seq<byte>, k: nat)
    requires k <= |rest|
    ensures (w + rest[..k]) + rest[k..] == w + rest
  {
    assert rest == rest[..k] + rest[k..];
  }

  /**
   * Each pass of the loop in Write keeps the fill it will end with: k bytes
   * leave the n that remain and the fill goes from len to len2, in one of
   * the three ways the loop allows.
   */
  lemma BufLengthStep(len: int, n: nat, k: nat, len2: int)
    requires 0 <= len <= BlockSize && k <= n && 0 < n
    requires (len == 0 && k == BlockSize && len2 == 0)
          || (len == BlockSize && k == 0 && len2 == 0)
          || (len < BlockSize && 0 < k && len2 == len + k <= BlockSize
              && (k == BlockSize - len || k == n) && (0 < len || n < BlockSize))
    ensures BufLengthAfter(len2, n - k) == BufLengthAfter(len, n)
  {
    assert (len + n) % BlockSize == (len2 + n - k) % BlockSize by {
      if len == BlockSize || k == BlockSize || len2 == BlockSize {
        assert len + n == len2 + n - k + BlockSize || len + n == len2 + n - k;
      }
    }
  }
}
