/**
 * The incremental hasher of gotenthash.go: TentHasher with its four fields,
 * New, Reset, Write and Sum, WriteReader, SumReader and HashReader, the
 * helper xorDataIntoState and the one-shot Hash.
 */
module TentHash {
  import opened LittleEndian
  import opened Word64
  import opened Mixing
  import opened TentHashSpec
  import opened Reading
  import opened Buffering

  /** Xors the first 32 bytes of data, as four LE words, into the state. */
  method XorDataIntoState(state: array<bv64>, data: seq<byte>)
    requires state.Length == 4 && |data| >= BlockSize
    modifies state
    ensures StateOf(state) == XorBlock(old(StateOf(state)), data)
  {
    state[0] := Xor(state[0], Uint64At(data, 0));
    state[1] := Xor(state[1], Uint64At(data, 8));
    state[2] := Xor(state[2], Uint64At(data, 16));
    state[3] := Xor(state[3], Uint64At(data, 24));
  }

  /** Go's copy(a[at:], src) for a src that fits. */
  method CopyInto(a: array<byte>, at: int, src: seq<byte>)
    requires 0 <= at && at + |src| <= a.Length
    modifies a
    ensures a[..] == old(a[..])[..at] + src + old(a[..])[at + |src|..]
  {
    forall i | 0 <= i < |src| {
      a[at + i] := src[i];
    }
  }

  /** Zeroes a[from..], as the loop at the start of Sum does. */
  method ZeroFrom(a: array<byte>, from: int)
    requires 0 <= from <= a.Length
    modifies a
    ensures a[..] == old(a[..from]) + Zeros(a.Length - from)
  {
    for i := from to a.Length
      invariant a[..from] == old(a[..from])
      invariant forall j :: from <= j < i ==> a[j] == 0
    {
      a[i] := 0;
    }
  }

  class TentHasher {
    /** The four state words. */
    const state: array<bv64>
    /** Bytes not yet absorbed; only buf[..bufLength] is meaningful. */
    const buf: array<byte>
    var bufLength: int
    /** The number of bytes written, modulo 2^64. */
    var messageLength: uint64
    /** Every byte written since New or the last Reset. */
    ghost var written: seq<byte>
    /**
     * The state New began from: DefaultState for every hasher. It is kept
     * apart from Valid so that the proofs about Write reason about an
     * arbitrary starting state and not about four concrete words.
     */
    ghost const start: State

    /** The state has four words and the buffer one block. */
    ghost predicate Shaped()
    {
      state.Length == 4 && buf.Length == BlockSize
    }

    /** The fields hold what writing w leads to. */
    ghost predicate Holds(w: seq<byte>)
      reads this`bufLength, state, buf
    {
      Shaped() && Represents(start, StateOf(state), buf[..], bufLength, w)
    }

    /** The hasher is in the condition that writing exactly `written` leads to. */
    ghost predicate Valid()
      reads this, state, buf
    {
      Holds(written) && messageLength == Wrap64(|written|)
    }

    /** New: the default state, an empty buffer, nothing written. */
    constructor ()
      ensures Valid() && written == [] && start == DefaultState
      ensures bufLength == 0 && messageLength == 0
      ensures fresh(state) && fresh(buf)
    {
      start := DefaultState;
      state := new bv64[4] [DefaultState.w0, DefaultState.w1, DefaultState.w2, DefaultState.w3];
      buf := new byte[BlockSize](_ => 0);
      bufLength := 0;
      messageLength := 0;
      written := [];
    }

    /**
     * clone := *t in Sum, and the field-by-field copy at the start of
     * SumReader: a hasher with t's field values in arrays of its own, as Go
     * copies the fixed-size state and buffer arrays with the struct.
     */
    constructor Copy(t: TentHasher)
      requires t.Shaped()
      ensures Shaped() && written == t.written && start == t.start
      ensures bufLength == t.bufLength && messageLength == t.messageLength
      ensures StateOf(state) == StateOf(t.state) && buf[..] == t.buf[..]
      ensures fresh(state) && fresh(buf)
    {
      start := t.start;
      var st := CopyState(t.state);
      var bf := CopyBuffer(t.buf);
      state, buf := st, bf;
      bufLength := t.bufLength;
      messageLength := t.messageLength;
      written := t.written;
    }

    /** Back to the default state with nothing written; buf keeps its bytes. */
    method Reset()
      requires Shaped() && start == DefaultState
      modifies this, state
      ensures Valid() && written == []
      ensures bufLength == 0 && messageLength == 0
      ensures buf[..] == old(buf[..])
    {
      state[0], state[1], state[2], state[3] := DefaultState.w0, DefaultState.w1, DefaultState.w2, DefaultState.w3;
      bufLength := 0;
      messageLength := 0;
      written := [];
    }

    /**
     * Write: feeds the bytes through the buffer, counts them into
     * messageLength, and returns their number. The source counts first; the
     * two steps touch different fields, so the order does not matter.
     */
    method Write(data: seq<byte>) returns (n: int)
      requires Valid()
      modifies this, state, buf
      ensures Valid() && written == old(written) + data
      ensures n == |data|
      ensures messageLength == Wrap64(old(messageLength) + |data|)
      ensures bufLength == BufLengthAfter(old(bufLength), |data|)
      ensures |data| == 0 ==> StateOf(state) == old(StateOf(state)) && buf[..] == old(buf[..])
    {
      n := |data|;
      Feed(data);
      Count(old(written), old(messageLength), data);
    }

    /**
     * messageLength += uint64(len(data)), once data has gone through the
     * buffer: a count of length, standing for the bytes before, then stands
     * for everything written.
     */
    method Count(ghost before: seq<byte>, ghost length: uint64, data: seq<byte>)
      requires Holds(written) && written == before + data
      requires messageLength == length == Wrap64(|before|)
      modifies this`messageLength
      ensures Valid() && messageLength == Wrap64(length + |data|)
    {
      WrapAdd(|before|, |data|);
      messageLength := Wrap64(messageLength + |data|);
    }

    /** The first branch of the loop in Write: a block absorbed from data. */
    method AbsorbFromData(ghost w: seq<byte>, data: seq<byte>)
      requires Holds(w) && bufLength == 0 && |data| >= BlockSize
      modifies state
      ensures Holds(w + data[..BlockSize])
    {
      ghost var s := StateOf(state);
      XorDataIntoState(state, data);
      MixState(state);
      XorBlockPrefix(s, data);
      AbsorbDirect(start, s, buf[..], w, data[..BlockSize]);
    }

    /** The second branch: the full buffer is absorbed and emptied. */
    method AbsorbFullBuffer(ghost w: seq<byte>)
      requires Holds(w) && bufLength == BlockSize
      modifies this`bufLength, state
      ensures Holds(w) && bufLength == 0
    {
      ghost var s := StateOf(state);
      XorDataIntoState(state, buf[..]);
      MixState(state);
      AbsorbBuffer(start, s, buf[..], w);
      bufLength := 0;
    }

    /** The third branch: chunk is copied into the buffer after its fill. */
    method Buffer(ghost w: seq<byte>, chunk: seq<byte>)
      requires Holds(w) && bufLength + |chunk| <= BlockSize
      modifies this`bufLength, buf
      ensures Holds(w + chunk) && bufLength == old(bufLength) + |chunk|
    {
      CopyIntoBuffer(start, StateOf(state), buf[..], bufLength, w, chunk);
      CopyInto(buf, bufLength, chunk);
      bufLength := bufLength + |chunk|;
    }

    /**
     * The loop of Write. Whole blocks are absorbed straight from data while
     * the buffer is empty; otherwise bytes go through the buffer, which is
     * absorbed once it is full and more data follows.
     */
    method Feed(data: seq<byte>)
      requires Holds(written)
      modifies this`bufLength, this`written, state, buf
      ensures Holds(written) && written == old(written) + data
      ensures bufLength == BufLengthAfter(old(bufLength), |data|)
      ensures |data| == 0 ==> StateOf(state) == old(StateOf(state)) && buf[..] == old(buf[..])
    {
      ghost var w := written;
      var rest := data;
      while |rest| > 0
        invariant Holds(w) && w + rest == old(written) + data && |rest| <= |data|
        invariant BufLengthAfter(bufLength, |rest|) == BufLengthAfter(old(bufLength), |data|)
        invariant |data| == 0 ==> StateOf(state) == old(StateOf(state)) && buf[..] == old(buf[..])
        decreases |rest|, bufLength
      {
        w, rest := FeedStep(w, rest);
      }
      assert w == old(written) + data;
      written := w;
    }

    /**
     * One pass of the loop in Write. A whole block is absorbed straight from
     * the data when the buffer is empty; otherwise a full buffer is absorbed
     * and emptied, or as many bytes as fit are copied into it.
     */
    method FeedStep(ghost w: seq<byte>, rest: seq<byte>) returns (ghost w2: seq<byte>, rest2: seq<byte>)
      requires Holds(w) && |rest| > 0
      modifies this`bufLength, state, buf
      ensures Holds(w2) && w2 + rest2 == w + rest
      ensures BufLengthAfter(bufLength, |rest2|) == BufLengthAfter(old(bufLength), |rest|)
      ensures |rest2| < |rest| || (rest2 == rest && bufLength < old(bufLength))
    {
      if bufLength == 0 && |rest| >= BlockSize {
        AbsorbFromData(w, rest);
        Advance(w, rest, BlockSize);
        BufLengthStep(bufLength, |rest|, BlockSize, bufLength);
        w2, rest2 := w + rest[..BlockSize], rest[BlockSize..];
      } else if bufLength == BlockSize {
        BufLengthStep(bufLength, |rest|, 0, 0);
        AbsorbFullBuffer(w);
        w2, rest2 := w, rest;
      } else {
        var toCopy := BlockSize - bufLength;
        if toCopy > |rest| {
          toCopy := |rest|;
        }
        BufLengthStep(bufLength, |rest|, toCopy, bufLength + toCopy);
        Buffer(w, rest[..toCopy]);
        Advance(w, rest, toCopy);
        w2, rest2 := w + rest[..toCopy], rest[toCopy..];
      }
    }

    /**
     * Appends the digest of everything written since New or Reset to b. It
     * finalises copies of the fields, so the hasher itself is left as it is.
     */
    method Sum(b: seq<byte>) returns (r: seq<byte>)
      requires Valid()
      ensures r == b + HashFrom(start, written)
      ensures start == DefaultState ==> r == b + Digest(written)
    {
      var clone := new TentHasher.Copy(this);
      AbsorbTail(start, StateOf(clone.state), clone.buf[..], clone.bufLength, written);
      if clone.bufLength > 0 {
        AbsorbLastBlock(clone.state, clone.buf, clone.bufLength);
      }
      var d := Finalize(clone.state, clone.messageLength);
      r := b + d;
    }

    /**
     * WriteReader: reads rs one result at a time through a buffer of one
     * block and writes what each read gave, until the stream ends or fails.
     * It returns the number of bytes written and the reader's failure, if any.
     */
    method WriteReader(rs: seq<ReadResult>) returns (total: int, err: Outcome)
      requires Valid() && Conforms(rs, BlockSize)
      modifies this, state, buf
      ensures Valid() && written == old(written) + ReadBytes(rs)
      ensures total == |ReadBytes(rs)| && err == ReadOutcome(rs)
    {
      total := 0;
      ghost var before := written;
      ghost var consumed: seq<byte> := [];
      var i := 0;
      while i < |rs|
        invariant 0 <= i <= |rs| && Valid()
        invariant written == before + consumed && total == |consumed|
        invariant ReadBytes(rs) == consumed + ReadBytes(rs[i..])
        invariant ReadOutcome(rs) == ReadOutcome(rs[i..])
      {
        var r := rs[i];
        var n := WriteRead(r);
        total := total + n;
        ReadStep(rs, i);
        ghost var prev := consumed;
        AppendAssoc(before, prev, r.data);
        consumed := prev + r.data;
        if r.status != More {
          err := if r.status.Failure? then Err(r.status.code) else Ok;
          return;
        }
        AppendAssoc(prev, r.data, ReadBytes(rs[i + 1..]));
        i := i + 1;
      }
      assert consumed + [] == consumed;
      err := Ok;
    }

    /**
     * SumReader: the digest of what was written so far followed by what rs
     * gives, or nothing if the reader fails. A copy of the hasher
     * takes the reads, so the hasher itself is left as it is.
     */
    method SumReader(rs: seq<ReadResult>) returns (r: seq<byte>, err: Outcome)
      requires Valid() && Conforms(rs, BlockSize)
      ensures err == ReadOutcome(rs)
      ensures err == Ok ==> r == HashFrom(start, written + ReadBytes(rs))
      ensures err.Err? ==> r == []
    {
      var clone := new TentHasher.Copy(this);
      SameRepresents(clone.start, StateOf(clone.state), clone.buf[..], clone.bufLength, clone.written,
                     StateOf(state), buf[..]);
      var _, e := clone.WriteReader(rs);
      if e.Err? {
        return [], e;
      }
      r := clone.Sum([]);
      err := Ok;
    }

    /** One pass of the loop in WriteReader: a non-empty read is written. */
    method WriteRead(r: ReadResult) returns (n: int)
      requires Valid() && |r.data| <= BlockSize
      modifies this, state, buf
      ensures Valid() && written == old(written) + r.data && n == |r.data|
    {
      if |r.data| > 0 {
        n := Write(r.data);
      } else {
        assert written + r.data == written;
        n := 0;
      }
    }
  }

  /** HashReader: the digest of what rs gives, or all zeros if it fails. */
  method HashReader(rs: seq<ReadResult>) returns (digest: seq<byte>, err: Outcome)
    requires Conforms(rs, BlockSize)
    ensures err == ReadOutcome(rs)
    ensures err == Ok ==> digest == Digest(ReadBytes(rs))
    ensures err.Err? ==> digest == Zeros(DigestSize)
  {
    var h := new TentHasher();
    assert h.written == [] && h.start == DefaultState;
    var r, e := h.SumReader(rs);
    if e.Err? {
      return Zeros(DigestSize), e;
    }
    assert [] + ReadBytes(rs) == ReadBytes(rs);
    digest := r;
    assert digest == Digest(ReadBytes(rs));
    err := Ok;
  }

  /** A new array holding the four words of state. */
  method CopyState(state: array<bv64>) returns (st: array<bv64>)
    requires state.Length == 4
    ensures fresh(st) && st.Length == 4 && StateOf(st) == StateOf(state)
  {
    st := new bv64[4] [state[0], state[1], state[2], state[3]];
  }

  /** A new array holding the bytes of buf. */
  method CopyBuffer(buf: array<byte>) returns (bf: array<byte>)
    ensures fresh(bf) && bf[..] == buf[..]
  {
    bf := new byte[buf.Length];
    forall i | 0 <= i < buf.Length {
      bf[i] := buf[i];
    }
  }

  /**
   * The start of Sum for a partial block: the buffer past its fill is zeroed
   * and the whole buffer absorbed.
   */
  method AbsorbLastBlock(state: array<bv64>, buf: array<byte>, bufLength: int)
    requires state.Length == 4 && buf.Length == BlockSize && 0 < bufLength <= BlockSize
    modifies state, buf
    ensures StateOf(state) == Absorb(old(StateOf(state)), Pad(old(buf[..bufLength])))
  {
    ghost var s := StateOf(state);
    ghost var tail := buf[..bufLength];
    ZeroFrom(buf, bufLength);
    assert buf[..] == Pad(tail);
    XorDataIntoState(state, buf[..]);
    MixState(state);
  }

  /**
   * The end of Sum: the bit length xored into word 0, two mixes, and the
   * digest read off the state.
   */
  method Finalize(state: array<bv64>, messageLength: uint64) returns (d: seq<byte>)
    requires state.Length == 4
    modifies state
    ensures StateOf(state) == FinalState(old(StateOf(state)), messageLength)
    ensures d == Serialize(StateOf(state))
  {
    state[0] := Xor(state[0], BitLength(messageLength));
    MixState(state);
    MixState(state);
    d := PutUint64(state[0]) + PutUint64(state[1]) + PutUint32(Low32(state[2]));
  }

  /** Hash: the digest of data from a new hasher. */
  method Hash(data: seq<byte>) returns (digest: seq<byte>)
    ensures |digest| == DigestSize
    ensures digest == Digest(data)
  {
    var h := new TentHasher();
    var _ := h.Write(data);
    assert h.written == data;
    digest := h.Sum([]);
    assert digest == Digest(data);
  }
}
