/**
 * What a caller of TentHasher can rely on, stated over sequences of calls:
 * how the input is split across Writes does not matter, Sum does not
 * disturb the hasher, Reset starts over, reading a whole string is writing
 * it, and the chunked known answer of gotenthash_test.go.
 */
module HasherProperties {
  import opened LittleEndian
  import opened Mixing
  import opened TentHashSpec
  import opened KnownAnswers
  import opened TentHash
  import opened Reading

  /** Writing a and then b gives the digest of a + b. */
  method WriteTwice(a: seq<byte>, b: seq<byte>) returns (d: seq<byte>)
    ensures d == Digest(a + b)
  {
    var h := new TentHasher();
    var _ := h.Write(a);
    assert h.written == a;
    var _ := h.Write(b);
    assert h.written == a + b;
    d := h.Sum([]);
  }

  /**
   * Sum leaves the hasher as it was: a Sum taken in the middle is the digest
   * of what came before, and writing goes on as if it had not happened.
   */
  method SumBetweenWrites(a: seq<byte>, b: seq<byte>) returns (d1: seq<byte>, d2: seq<byte>)
    ensures d1 == Digest(a) && d2 == Digest(a + b)
  {
    var h := new TentHasher();
    var _ := h.Write(a);
    assert h.written == a;
    d1 := h.Sum([]);
    var _ := h.Write(b);
    assert h.written == a + b;
    d2 := h.Sum([]);
  }

  /** Two Sums with nothing written between them agree, whatever b they append to. */
  method SumTwice(h: TentHasher, b: seq<byte>, c: seq<byte>) returns (r1: seq<byte>, r2: seq<byte>)
    requires h.Valid()
    ensures |r1| == |b| + DigestSize && |r2| == |c| + DigestSize
    ensures r1[..|b|] == b && r2[..|c|] == c && r1[|b|..] == r2[|c|..]
  {
    r1 := h.Sum(b);
    r2 := h.Sum(c);
  }

  /** After Reset, a hasher gives the digest of what is written next, whatever it held. */
  method ResetThenWrite(h: TentHasher, x: seq<byte>) returns (d: seq<byte>)
    requires h.Shaped() && h.start == DefaultState
    modifies h, h.state, h.buf
    ensures d == Digest(x)
  {
    h.Reset();
    var _ := h.Write(x);
    assert h.written == x;
    d := h.Sum([]);
  }

  /** Write("Hello "), Write("world!"), Sum(nil): the digest of "Hello world!". */
  method HelloInTwoWrites(a: seq<byte>, b: seq<byte>) returns (d: seq<byte>)
    requires IsHello(a + b)
    ensures d == [0x15, 0x5f, 0x0a, 0x35, 0x7e, 0xa0, 0x9e, 0xf0,
      0xd4, 0x6d, 0x03, 0x17, 0x36, 0xa4, 0x29, 0xe4,
      0xc1, 0xc5, 0x4a, 0x9a]
  {
    d := WriteTwice(a, b);
    HelloDigest(a + b);
  }

  /** WriteReader over a string reader writes the whole string and reports no error. */
  method WriteReaderString(x: seq<byte>) returns (total: int, err: Outcome, d: seq<byte>)
    ensures total == |x| && err == Ok && d == Digest(x)
  {
    var h := new TentHasher();
    StringReaderReads(x, BlockSize);
    total, err := h.WriteReader(StringReader(x, BlockSize));
    assert h.written == x;
    d := h.Sum([]);
  }

  /** SumReader on a new hasher and a string reader agrees with Hash. */
  method SumReaderMatchesHash(x: seq<byte>) returns (r: seq<byte>, err: Outcome, d: seq<byte>)
    ensures err == Ok && r == d && d == Digest(x)
  {
    var h := new TentHasher();
    StringReaderReads(x, BlockSize);
    r, err := h.SumReader(StringReader(x, BlockSize));
    d := Hash(x);
    assert h.written + x == x;
  }
}
