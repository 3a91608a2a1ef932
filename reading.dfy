/**
 * The io.Reader side of gotenthash.go (WriteReader, SumReader, HashReader).
 * A reader is modelled by the finite sequence of results its successive
 * Read calls give: the bytes read and whether the stream goes on, ended
 * (io.EOF) or failed with some other error.
 */
module Reading {
  import opened LittleEndian

  /** The error part of one Read result: nil, io.EOF, or another error. */
  datatype ReadStatus = More | EndOfStream | Failure(code: nat)

  /** One Read call: the n bytes it put in the buffer and its error. */
  datatype ReadResult = ReadResult(data: seq<byte>, status: ReadStatus)

  /** The error a reader operation returns: nil, or the reader's error. */
  datatype Outcome = Ok | Err(code: nat)

  /** Every Read fills at most size bytes (io.Reader's n <= len(p)). */
  predicate Conforms(rs: seq<ReadResult>, size: nat)
  {
    forall i :: 0 <= i < |rs| ==> |rs[i].data| <= size
  }

  /**
   * The bytes the read loop hands on, in order: the data of every result up
   * to and including the first one that ends or fails the stream. A reader
   * whose results run out is taken to have ended.
   */
  function ReadBytes(rs: seq<ReadResult>): seq<byte>
    decreases |rs|
  {
    if |rs| == 0 then []
    else if rs[0].status == More then rs[0].data + ReadBytes(rs[1..])
    else rs[0].data
  }

  /** The error the read loop ends with: the first failure, else none. */
  function ReadOutcome(rs: seq<ReadResult>): Outcome
    decreases |rs|
  {
    if |rs| == 0 then Ok
    else match rs[0].status
      case More => ReadOutcome(rs[1..])
      case EndOfStream => Ok
      case Failure(code) => Err(code)
  }

  /**
   * strings.NewReader(s) read through a buffer of size bytes: full buffers
   * while at least that many bytes remain, the rest, then (0, io.EOF).
   */
  function StringReader(s: seq<byte>, size: nat): (rs: seq<ReadResult>)
    requires size > 0
    ensures |rs| > 0 && rs[|rs| - 1] == ReadResult([], EndOfStream)
    decreases |s|
  {
    if |s| == 0 then [ReadResult([], EndOfStream)]
    else if |s| <= size then [ReadResult(s, More), ReadResult([], EndOfStream)]
    else [ReadResult(s[..size], More)] + StringReader(s[size..], size)
  }

  /** A string reader hands on exactly its string, without error. */
  lemma {:induction false} StringReaderReads(s: seq<byte>, size: nat)
    requires size > 0
    ensures Conforms(StringReader(s, size), size)
    ensures ReadBytes(StringReader(s, size)) == s
    ensures ReadOutcome(StringReader(s, size)) == Ok
    decreases |s|
  {
    var rs := StringReader(s, size);
    if |s| == 0 {
    } else if |s| <= size {
      assert rs[1..] == [ReadResult([], EndOfStream)];
      assert s + [] == s;
    } else {
      var rest := StringReader(s[size..], size);
      StringReaderReads(s[size..], size);
      assert rs[0] == ReadResult(s[..size], More) && rs[1..] == rest;
      assert ReadBytes(rs) == s[..size] + s[size..];
      assert s == s[..size] + s[size..];
      forall i | 0 <= i < |rs|
        ensures |rs[i].data| <= size
      {
        if i > 0 {
          assert rs[i] == rest[i - 1];
        }
      }
    }
  }

  /** What the read loop does with result i, given the results before it went on. */
  lemma ReadStep(rs: seq<ReadResult>, i: nat)
    requires i < |rs|
    ensures ReadBytes(rs[i..]) ==
      if rs[i].status == More then rs[i].data + ReadBytes(rs[i + 1..]) else rs[i].data
    ensures ReadOutcome(rs[i..]) ==
      match rs[i].status
      case More => ReadOutcome(rs[i + 1..])
      case EndOfStream => Ok
      case Failure(code) => Err(code)
  {
    assert rs[i..][0] == rs[i] && rs[i..][1..] == rs[i + 1..];
  }

  /** Concatenation is associative. */
  lemma AppendAssoc(a: seq<byte>, b: seq<byte>, c: seq<byte>)
    ensures (a + b) + c == a + (b + c)
  {
  }

  /** A read that fails ends the loop with that failure, whatever follows. */
  lemma FailureStops(data: seq<byte>, code: nat, rest: seq<ReadResult>)
    ensures ReadOutcome([ReadResult(data, Failure(code))] + rest) == Err(code)
    ensures ReadBytes([ReadResult(data, Failure(code))] + rest) == data
  {
  }
}
