# TentHash in Dafny

A model of gotenthash, the Go implementation of TentHash. TentHash is a
non-cryptographic hash with a 160-bit digest and a 256-bit internal state of
four 64-bit words. A `TentHasher` absorbs its input in 32-byte blocks:

- each block is xored into the state as four little-endian words, and the
  state is then mixed;
- the mix is seven add-rotate-xor rounds driven by a fixed rotation table;
- bytes that do not yet fill a block wait in a 32-byte buffer.

`Sum` works on a copy of the hasher. The copy absorbs the zero-padded tail,
if there is one. It then xors the message length in bits into word 0, mixes
twice, and emits word 0, word 1 and the low half of word 2, each
little-endian.

The project is built in layers:

- `word64.dfy`: wrapping 64-bit word operations.
- `little_endian.dfy`: little-endian encoding of words into bytes.
- `mix.dfy`: the mix, the method that mixes an array in place, and the
  mix's inverse.
- `tenthash_spec.dfy`: the reference definition of the digest of a whole
  message (`Digest`).
- `buffering.dfy`: what a hasher's fields stand for.
- `tenthash.dfy`: the `TentHasher` class and the package functions. Its
  methods update `state`, `buf`, `bufLength` and `messageLength` in place,
  and each is proved against the reference definition.
- `reading.dfy`: the `io.Reader` side.
- `known_answers.dfy`: the two published test vectors.
- `hasher_properties.dfy`: what callers can rely on across several calls.

The central promise is that the digest depends only on the bytes written
since `New` or `Reset`, never on how they were split among `Write` calls.

One might expect the buffer's fill to stay below 32. In the code, a
`Write` whose last copy exactly fills the buffer returns with
`bufLength == 32` (gotenthash.go:95-103). That full buffer is
absorbed only by the next non-empty `Write` (gotenthash.go:91-94) or by
`Sum`. So the invariant allows `0 <= bufLength <= 32`, and `BufLengthAfter`
says exactly when the fill is left at 32.

## Model

| member | source | states |
|---|---|---|
| LittleEndian.Uint64At | gotenthash.go:160-163 | reference definition of binary.LittleEndian.Uint64 on eight bytes at offset i; Uint64RoundTrip and Uint64AtInjective are proved about it |
| LittleEndian.PutUint64 | gotenthash.go:132-133 | the eight bytes PutUint64 writes decode back, as binary.LittleEndian.Uint64, to the word |
| LittleEndian.PutUint32 | gotenthash.go:134 | the four bytes PutUint32 writes decode back to the 32-bit word |
| LittleEndian.Uint64RoundTrip | gotenthash.go:160-163 | encoding a decoded word gives back the eight bytes it was read from |
| LittleEndian.Uint64AtInjective | gotenthash.go:160-163 | two eight-byte runs decode to the same word exactly when they are equal |
| Mixing.RotationsInRange | gotenthash.go:15-23 | the table has seven rows and every rotation amount is in [1, 63] |
| Mixing.TableRotatesLeft | gotenthash.go:170-173 | for both amounts of every row of the table, the shift pair of mixState, x << r or-ed with x >> (64 - r), is a true 64-bit left rotation by r |
| Mixing.Round | gotenthash.go:169-176 | reference definition of one round of the loop; MixRound is proved equal to it and UnRoundRound inverts it |
| Mixing.Mix | gotenthash.go:166-178 | reference definition of mixState: the seven rounds in table order; MixState is proved equal to it, and MixInverse and MixInjective are proved about it |
| Mixing.MixRound | gotenthash.go:169-176 | one pass of the mixState loop, done in place, yields Round of the old state with that row's two rotation amounts |
| Mixing.MixState | gotenthash.go:166-178 | mixing the array in place yields Mix of its old contents: all seven rows of the table, in order |
| Mixing.MixInverse | gotenthash.go:166-178 | the mix is a permutation of the 256-bit state: UnMix undoes it |
| Mixing.MixInjective | gotenthash.go:166-178 | two states mix to the same state exactly when they are equal |
| TentHashSpec.XorBlock | gotenthash.go:159-164 | reference definition of xorDataIntoState on values; XorDataIntoState is proved equal to it and XorBlockTwice inverts it |
| TentHashSpec.Absorb | gotenthash.go:88-89 | reference definition of absorbing one block, xor then mix; AbsorbInjective is proved about it |
| TentHashSpec.AbsorbMessage | gotenthash.go:86-123 | reference definition of absorbing a whole message front to back: each full block, then a zero-padded last block if bytes remain; Sum is proved to reach it through AbsorbTail |
| TentHashSpec.Digest | gotenthash.go:112-137 | the 20-byte TentHash digest of a message from the default state; Hash, Sum and the known answers are proved against it |
| TentHashSpec.WrapAdd | gotenthash.go:84 | adding to a count already reduced modulo 2^64 gives the same result as reducing the full sum |
| TentHashSpec.SerializeLayout | gotenthash.go:131-134 | digest bytes 0..7 encode word 0, bytes 8..15 word 1 and bytes 16..19 the low 32 bits of word 2, each little-endian |
| TentHashSpec.XorBlockTwice | gotenthash.go:159-164 | xoring the same block into the state twice restores the state |
| TentHashSpec.AbsorbInjective | gotenthash.go:159-164 | from a given state, two blocks are absorbed into the same state exactly when they are equal |
| TentHashSpec.AbsorbMessageSplit | gotenthash.go:86-104 | whole blocks followed by at most one block of bytes absorb as those blocks and then the rest |
| TentHashSpec.AbsorbMessageBlocks | gotenthash.go:86-104 | a message of whole blocks is absorbed with no padded block |
| TentHashSpec.FinalStateSeparates | gotenthash.go:126-128 | from one absorbed state, two lengths give the same final state exactly when their wrapped bit lengths agree |
| TentHashSpec.ZeroExtensionSameAbsorbed | gotenthash.go:117-123 | appending zero bytes inside a partial last block does not change the absorbed state, which is why the length is xored in |
| TentHashSpec.PadZeros | gotenthash.go:118-120 | padding a tail ignores zero bytes appended to it within the block |
| Buffering.AbsorbDirect | gotenthash.go:87-90 | with an empty buffer, absorbing a block straight from the data keeps the hasher's fields consistent with the bytes written |
| Buffering.AbsorbBuffer | gotenthash.go:91-94 | a full buffer absorbed into the state and emptied keeps the fields consistent with the same bytes written |
| Buffering.CopyIntoBuffer | gotenthash.go:95-103 | bytes copied after the buffer's fill keep the fields consistent with the bytes written plus those copied |
| Buffering.AbsorbTail | gotenthash.go:117-123 | the state, with the zero-padded buffered tail absorbed only when the fill is non-zero, is the whole message absorbed |
| Buffering.BufLengthAfter | gotenthash.go:86-104 | the fill after writing n bytes stays in [0, 32], differs from the old fill plus n by a whole number of blocks, and is 32 exactly when the write was empty with a full buffer or its last copy filled a partly filled buffer |
| Buffering.BufLengthStep | gotenthash.go:86-104 | each of the three branches of the Write loop keeps the fill the loop will end with |
| TentHash.XorDataIntoState | gotenthash.go:159-164 | the first 32 bytes of data, as four little-endian words, are xored into state words 0..3 |
| TentHash.ZeroFrom | gotenthash.go:118-120 | the buffer past the fill is zeroed and the bytes before it are kept |
| TentHash.AbsorbLastBlock | gotenthash.go:117-123 | a partial tail is zero-padded and absorbed into the copied state |
| TentHash.Finalize | gotenthash.go:126-134 | the bit length is xored into word 0 with wrapping, the state is mixed twice, and the 20 digest bytes are read off it |
| TentHash.TentHasher.constructor | gotenthash.go:40-44 | New: the default state, an empty buffer, a zero count, nothing written |
| TentHash.TentHasher.Copy | gotenthash.go:114 | clone := *t in Sum, and likewise the field copy in SumReader (gotenthash.go:144-149): the copy has the receiver's field values, in new state and buffer arrays |
| TentHash.TentHasher.Reset | gotenthash.go:47-51 | the default state with nothing written, fill and count zero; the buffer bytes are left as they were |
| TentHash.TentHasher.Write | gotenthash.go:82-107 | returns the length of data; written grows by data; the invariant is kept; messageLength grows by len(data) modulo 2^64; the fill is BufLengthAfter; an empty write leaves state and buffer untouched |
| TentHash.TentHasher.AbsorbFromData | gotenthash.go:87-90 | with an empty buffer, the state absorbs the first 32 bytes of data, and the fields then hold what the bytes written plus that block lead to |
| TentHash.TentHasher.AbsorbFullBuffer | gotenthash.go:91-94 | a full buffer is absorbed into the state and the fill set to 0, and the fields still hold the same bytes written |
| TentHash.TentHasher.Buffer | gotenthash.go:95-102 | the chunk is copied after the fill and the fill grows by its length, and the fields hold the bytes written plus the chunk |
| TentHash.TentHasher.FeedStep | gotenthash.go:86-104 | one pass of the Write loop: bytes move from the rest of data into the hasher, the fields stay consistent, the final fill is unchanged, and either data shrinks or the fill drops |
| TentHash.TentHasher.Count | gotenthash.go:84 | messageLength grows by len(data) modulo 2^64 and again counts every byte written |
| TentHash.TentHasher.Feed | gotenthash.go:86-104 | the Write loop: every byte of data is taken into the buffer or the state, and the invariant is kept |
| TentHash.TentHasher.Sum | gotenthash.go:112-137 | returns b followed by the digest of everything written since New or Reset, and leaves the hasher unchanged |
| TentHash.TentHasher.WriteReader | gotenthash.go:55-78 | writes the data of each read up to EOF or the first failure; returns the byte count and the failure, or no error on EOF |
| TentHash.TentHasher.WriteRead | gotenthash.go:60-68 | a read's bytes, if there are any, are written; the invariant is kept and their number is returned |
| TentHash.TentHasher.SumReader | gotenthash.go:142-156 | leaves the hasher unchanged; returns the digest of what was written followed by what the reader gives, or no bytes and the reader's error |
| TentHash.CopyInto | gotenthash.go:100 | copy(a[at:], src): src replaces the bytes from at on, and the rest of the array is kept |
| TentHash.CopyState | gotenthash.go:114 | the value copy of the four state words: a new array with the same words |
| TentHash.CopyBuffer | gotenthash.go:114 | the value copy of the buffer: a new array with the same bytes |
| TentHash.HashReader | gotenthash.go:194-203 | the digest of the reader's bytes, or 20 zero bytes and the reader's error |
| TentHash.Hash | gotenthash.go:183-190 | the 20-byte digest of data |
| Reading.StringReaderReads | gotenthash_test.go:50-52 | a strings.Reader read through a 32-byte buffer returns reads of at most 32 bytes, gives exactly its string, and ends without error |
| Reading.FailureStops | gotenthash.go:72-73 | a read that fails ends the read loop with that error, and nothing after it is read |
| KnownAnswers.HelloDigest | gotenthash_test.go:14 | the digest of "Hello world!" is the 20 bytes beginning 15 5f 0a 35 |
| KnownAnswers.GolangDigest | gotenthash_test.go:15 | the digest of "I love golang!" is the 20 bytes beginning f9 8c 95 ae |
| HasherProperties.WriteTwice | gotenthash_test.go:26-37 | Write(a), then Write(b), then Sum(nil) give the digest of a + b, for any split |
| HasherProperties.SumBetweenWrites | gotenthash.go:109-114 | a Sum between two Writes gives the digest of the bytes so far, and the next Sum gives the digest of all the bytes |
| HasherProperties.SumTwice | gotenthash.go:112-137 | two Sums with no Write between them append identical 20-byte digests |
| HasherProperties.ResetThenWrite | gotenthash.go:47-51 | after Reset, Write(x) and Sum(nil) give the digest of x, whatever the hasher held |
| HasherProperties.HelloInTwoWrites | gotenthash_test.go:29-32 | writing "Hello " and then "world!" gives the digest of "Hello world!" |
| HasherProperties.WriteReaderString | gotenthash_test.go:49-60 | WriteReader over a string reader writes the whole string, reports its length and no error, and Sum gives its digest |
| HasherProperties.SumReaderMatchesHash | gotenthash_test.go:78-93 | SumReader on a new hasher and a string reader gives no error and agrees with Hash of the string |

## Left out

- messageLength is an integer kept in [0, 2^64) and updated modulo 2^64, not a `bv64`. The bit length `messageLength * 8` wraps the same way and is converted to a word only where it is xored in. This keeps integer/bit-vector conversions out of the proofs; the values are the same.
- TentHash.TentHasher.Write: the source adds to messageLength before the loop, and the model adds after it. The two steps touch different fields, so the results are the same.
- TentHash.TentHasher.Write: the error result is left out. Write always returns a nil error in the source, so the writeErr branch of WriteReader (gotenthash.go:63-65) can never be taken and is not modelled.
- Reader: an `io.Reader` is modelled as the finite sequence of results its Read calls give. A reader whose results run out is taken to have reached EOF. So a reader that returns (0, nil) forever, and never ends, is not modelled.
- TentHash.TentHasher.WriteReader: requires that no read returns more than 32 bytes, as the `io.Reader` contract (n <= len(p)) promises.
- TentHash.TentHasher.WriteReader: the int64 total is an unbounded integer; its 64-bit overflow is not modelled.
- The ghost fields `written` and `start` exist only for the proofs. `start` is DefaultState for every hasher, and Reset requires it.
- Go slices: aliasing and allocation are not modelled. For `append(b, digest...)` and the one-shot functions' copy into a fixed array, the result is a new sequence.
- Statistical quality of the mix, such as avalanche, is not a functional property and is not stated.
- The serialization of the digest in Sum is done inside Finalize. It uses the same encoders as `binary.LittleEndian.PutUint64` and `PutUint32`; the encoders themselves are modelled in LittleEndian, not as calls into the Go library.
