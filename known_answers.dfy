/**
 * The two known answers of gotenthash_test.go, evaluated step by step: the
 * padded block, the state after it is xored in, every round of the three
 * mixes, and the serialised digest. Each round is its own lemma so that the
 * solver evaluates one round at a time.
 */
module KnownAnswers {
  import opened LittleEndian
  import opened Word64
  import opened Mixing
  import opened TentHashSpec

  /** The length step followed by two mixes whose results are known. */
  lemma FinalFromMixes(s: State, len: uint64, t0: State, t1: State, t2: State)
    requires State(Xor(s.w0, BitLength(len)), s.w1, s.w2, s.w3) == t0
    requires Mix(t0) == t1 && Mix(t1) == t2
    ensures FinalState(s, len) == t2
  {
  }

  /** m holds the bytes of "Hello world!", given byte by byte. */
  predicate IsHello(m: seq<byte>)
  {
    |m| == 12 &&
    m[0] == 0x48 && m[1] == 0x65 && m[2] == 0x6c && m[3] == 0x6c &&
    m[4] == 0x6f && m[5] == 0x20 && m[6] == 0x77 && m[7] == 0x6f &&
    m[8] == 0x72 && m[9] == 0x6c && m[10] == 0x64 && m[11] == 0x21
  }

  lemma HelloA0()
    ensures Round(State(0x321a8f93287dcc2f, 0xe22d4dea49331346, 0xca50864d814cbc2e, 0x894e29b9611eb173), 16, 28)
         == State(0x6b7b77a3aa51c4b9, 0xfc6b15e0a9ca885d, 0x7a2694ac15e4420d, 0xfd6a9cb492c52622)
  {
  }

  lemma HelloA1()
    ensures Round(State(0x6b7b77a3aa51c4b9, 0xfc6b15e0a9ca885d, 0x7a2694ac15e4420d, 0xfd6a9cb492c52622), 14, 57)
         == State(0xf9d5b2953c8fae7f, 0xe5a20c4fc03606c6, 0x40890936d0b5584f, 0xbc2f67ac55aa2433)
  {
  }

  lemma HelloA2()
    ensures Round(State(0xf9d5b2953c8fae7f, 0xe5a20c4fc03606c6, 0x40890936d0b5584f, 0xbc2f67ac55aa2433), 11, 22)
         == State(0xa1d173fc15e02af9, 0x3a5ebbcc0d4506ce, 0x72170d49a7877cca, 0x4ac41975190f2120)
  {
  }

  lemma HelloA3()
    ensures Round(State(0xa1d173fc15e02af9, 0x3a5ebbcc0d4506ce, 0x72170d49a7877cca, 0x4ac41975190f2120), 35, 34)
         == State(0x8522d541265427ee, 0x13e88145bd67a7c3, 0x2fd367162ddfcd8e, 0xe11e51c00d44423a)
  {
  }

  lemma HelloA4()
    ensures Round(State(0x8522d541265427ee, 0x13e88145bd67a7c3, 0x2fd367162ddfcd8e, 0xe11e51c00d44423a), 57, 16)
         == State(0xf506d305caabe9fd, 0xb4f63c575433f57c, 0xa8a99a9978684ae7, 0xa4c6de41889108e3)
  {
  }

  lemma HelloA5()
    ensures Round(State(0xf506d305caabe9fd, 0xb4f63c575433f57c, 0xa8a99a9978684ae7, 0xa4c6de41889108e3), 59, 40)
         == State(0x59bd1a98dcc4fe5f, 0x9db06d9f431434e4, 0xa0f5214b88d776b3, 0xc8b5f93c1a1abfd7)
  {
  }

  lemma HelloA6()
    ensures Round(State(0x59bd1a98dcc4fe5f, 0x9db06d9f431434e4, 0xa0f5214b88d776b3, 0xc8b5f93c1a1abfd7), 44, 13)
         == State(0x666666db5d2ef4bb, 0xfab23be4659c7512, 0x8dd901eb3788cd9f, 0xd941e5980ad40dad)
  {
  }

  lemma HelloB0()
    ensures Round(State(0x666666db5d2ef4db, 0xfab23be4659c7512, 0x8dd901eb3788cd9f, 0xd941e5980ad40dad), 16, 28)
         == State(0xd3f4217c707082bf, 0xf43f68c694b7c27a, 0xf5d45f4e59284fa3, 0x535961a6ade49ce6)
  {
  }

  lemma HelloB1()
    ensures Round(State(0xd3f4217c707082bf, 0xf43f68c694b7c27a, 0xf5d45f4e59284fa3, 0x535961a6ade49ce6), 14, 57)
         == State(0x4798ca6d429c5f60, 0xc9c880cac998d262, 0xde1b1680da702f17, 0x8b3e78ae0fc79659)
  {
  }

  lemma HelloB2()
    ensures Round(State(0x4798ca6d429c5f60, 0xc9c880cac998d262, 0xde1b1680da702f17, 0x8b3e78ae0fc79659), 11, 22)
         == State(0x5506f978d96068bb, 0x25b3e0ee1d0c8e77, 0xfd07e63d9c743087, 0x7e85089d4f02a725)
  {
  }

  lemma HelloB3()
    ensures Round(State(0x5506f978d96068bb, 0x25b3e0ee1d0c8e77, 0xfd07e63d9c743087, 0x7e85089d4f02a725), 35, 34)
         == State(0xa438e98b6c0f359c, 0x520edfb675d49942, 0xb1af5b899deba8ae, 0x9832751e961b17e9)
  {
  }

  lemma HelloB4()
    ensures Round(State(0xa438e98b6c0f359c, 0x520edfb675d49942, 0xb1af5b899deba8ae, 0x9832751e961b17e9), 57, 16)
         == State(0xea4154d50befb12b, 0x55e8451509fade4a, 0x088b1ba21ac1091b, 0x9f5fc2ce1c062919)
  {
  }

  lemma HelloB5()
    ensures Round(State(0xea4154d50befb12b, 0x55e8451509fade4a, 0x088b1ba21ac1091b, 0x9f5fc2ce1c062919), 59, 40)
         == State(0xf54807e326010763, 0xf2cc707726b0ba46, 0x2a8828aa3666b20e, 0xf3611e7c79c3c97f)
  {
  }

  lemma HelloB6()
    ensures Round(State(0xf54807e326010763, 0xf2cc707726b0ba46, 0x2a8828aa3666b20e, 0xf3611e7c79c3c97f), 44, 13)
         == State(0xe62d8ef3a07483c5, 0x1fd0308d5c67b971, 0x74f0d225deed1a17, 0xc5e201cbd95b7da9)
  {
  }

  lemma HelloC0()
    ensures Round(State(0xe62d8ef3a07483c5, 0x1fd0308d5c67b971, 0x74f0d225deed1a17, 0xc5e201cbd95b7da9), 16, 28)
         == State(0xe5b2325935c3371a, 0x5b1e61197f619ddc, 0x893bbff46576e92c, 0x58278583a99d1706)
  {
  }

  lemma HelloC1()
    ensures Round(State(0xe5b2325935c3371a, 0x5b1e61197f619ddc, 0x893bbff46576e92c, 0x58278583a99d1706), 14, 57)
         == State(0xb345e69d28feb4e2, 0x6eedf24d9b3a2046, 0x8110eb1021710208, 0xbff5a9962fad8ecc)
  {
  }

  lemma HelloC2()
    ensures Round(State(0xb345e69d28feb4e2, 0x6eedf24d9b3a2046, 0x8110eb1021710208, 0xbff5a9962fad8ecc), 11, 22)
         == State(0x2ee39be3cae7af12, 0x3456d1ad4a6fb6ea, 0xb30e50a6c27ff2e2, 0x4b68708079c85278)
  {
  }

  lemma HelloC3()
    ensures Round(State(0x2ee39be3cae7af12, 0x3456d1ad4a6fb6ea, 0xb30e50a6c27ff2e2, 0x4b68708079c85278), 35, 34)
         == State(0x7fbf422dc4380962, 0xe1f1ec8a8d67a1f4, 0xf20e7b9f151524c2, 0x989e0bcce999cb63)
  {
  }

  lemma HelloC4()
    ensures Round(State(0x7fbf422dc4380962, 0xe1f1ec8a8d67a1f4, 0xf20e7b9f151524c2, 0x989e0bcce999cb63), 57, 16)
         == State(0x7a8ff85777016d57, 0x71cdbdccd94d2e24, 0xf429a13be767046d, 0x714311cebc62f5c9)
  {
  }

  lemma HelloC5()
    ensures Round(State(0x7a8ff85777016d57, 0x71cdbdccd94d2e24, 0xf429a13be767046d, 0x714311cebc62f5c9), 59, 40)
         == State(0xe310cf9b95b023ed, 0x6eb999935e6871c4, 0x0118d49a815349e7, 0x81e506ead6a1ed51)
  {
  }

  lemma HelloC6()
    ensures Round(State(0xe310cf9b95b023ed, 0x6eb999935e6871c4, 0x0118d49a815349e7, 0x81e506ead6a1ed51), 44, 13)
         == State(0xf09ea07e350a5f15, 0xe429a43617036dd4, 0xd0b7d4279a4ac5c1, 0x5043faaa08a06f29)
  {
  }

  /** The mix in absorbing the padded block for "Hello world!". */
  lemma HelloMixA()
    ensures Mix(State(0x321a8f93287dcc2f, 0xe22d4dea49331346, 0xca50864d814cbc2e, 0x894e29b9611eb173))
         == State(0x666666db5d2ef4bb, 0xfab23be4659c7512, 0x8dd901eb3788cd9f, 0xd941e5980ad40dad)
  {
    HelloA0();
    HelloA1();
    HelloA2();
    HelloA3();
    HelloA4();
    HelloA5();
    HelloA6();
    MixFromRounds(
      State(0x321a8f93287dcc2f, 0xe22d4dea49331346, 0xca50864d814cbc2e, 0x894e29b9611eb173),
      State(0x6b7b77a3aa51c4b9, 0xfc6b15e0a9ca885d, 0x7a2694ac15e4420d, 0xfd6a9cb492c52622),
      State(0xf9d5b2953c8fae7f, 0xe5a20c4fc03606c6, 0x40890936d0b5584f, 0xbc2f67ac55aa2433),
      State(0xa1d173fc15e02af9, 0x3a5ebbcc0d4506ce, 0x72170d49a7877cca, 0x4ac41975190f2120),
      State(0x8522d541265427ee, 0x13e88145bd67a7c3, 0x2fd367162ddfcd8e, 0xe11e51c00d44423a),
      State(0xf506d305caabe9fd, 0xb4f63c575433f57c, 0xa8a99a9978684ae7, 0xa4c6de41889108e3),
      State(0x59bd1a98dcc4fe5f, 0x9db06d9f431434e4, 0xa0f5214b88d776b3, 0xc8b5f93c1a1abfd7),
      State(0x666666db5d2ef4bb, 0xfab23be4659c7512, 0x8dd901eb3788cd9f, 0xd941e5980ad40dad));
  }

  /** The mix in the first final mix for "Hello world!". */
  lemma HelloMixB()
    ensures Mix(State(0x666666db5d2ef4db, 0xfab23be4659c7512, 0x8dd901eb3788cd9f, 0xd941e5980ad40dad))
         == State(0xe62d8ef3a07483c5, 0x1fd0308d5c67b971, 0x74f0d225deed1a17, 0xc5e201cbd95b7da9)
  {
    HelloB0();
    HelloB1();
    HelloB2();
    HelloB3();
    HelloB4();
    HelloB5();
    HelloB6();
    MixFromRounds(
      State(0x666666db5d2ef4db, 0xfab23be4659c7512, 0x8dd901eb3788cd9f, 0xd941e5980ad40dad),
      State(0xd3f4217c707082bf, 0xf43f68c694b7c27a, 0xf5d45f4e59284fa3, 0x535961a6ade49ce6),
      State(0x4798ca6d429c5f60, 0xc9c880cac998d262, 0xde1b1680da702f17, 0x8b3e78ae0fc79659),
      State(0x5506f978d96068bb, 0x25b3e0ee1d0c8e77, 0xfd07e63d9c743087, 0x7e85089d4f02a725),
      State(0xa438e98b6c0f359c, 0x520edfb675d49942, 0xb1af5b899deba8ae, 0x9832751e961b17e9),
      State(0xea4154d50befb12b, 0x55e8451509fade4a, 0x088b1ba21ac1091b, 0x9f5fc2ce1c062919),
      State(0xf54807e326010763, 0xf2cc707726b0ba46, 0x2a8828aa3666b20e, 0xf3611e7c79c3c97f),
      State(0xe62d8ef3a07483c5, 0x1fd0308d5c67b971, 0x74f0d225deed1a17, 0xc5e201cbd95b7da9));
  }

  /** The mix in the second final mix for "Hello world!". */
  lemma HelloMixC()
    ensures Mix(State(0xe62d8ef3a07483c5, 0x1fd0308d5c67b971, 0x74f0d225deed1a17, 0xc5e201cbd95b7da9))
         == State(0xf09ea07e350a5f15, 0xe429a43617036dd4, 0xd0b7d4279a4ac5c1, 0x5043faaa08a06f29)
  {
    HelloC0();
    HelloC1();
    HelloC2();
    HelloC3();
    HelloC4();
    HelloC5();
    HelloC6();
    MixFromRounds(
      State(0xe62d8ef3a07483c5, 0x1fd0308d5c67b971, 0x74f0d225deed1a17, 0xc5e201cbd95b7da9),
      State(0xe5b2325935c3371a, 0x5b1e61197f619ddc, 0x893bbff46576e92c, 0x58278583a99d1706),
      State(0xb345e69d28feb4e2, 0x6eedf24d9b3a2046, 0x8110eb1021710208, 0xbff5a9962fad8ecc),
      State(0x2ee39be3cae7af12, 0x3456d1ad4a6fb6ea, 0xb30e50a6c27ff2e2, 0x4b68708079c85278),
      State(0x7fbf422dc4380962, 0xe1f1ec8a8d67a1f4, 0xf20e7b9f151524c2, 0x989e0bcce999cb63),
      State(0x7a8ff85777016d57, 0x71cdbdccd94d2e24, 0xf429a13be767046d, 0x714311cebc62f5c9),
      State(0xe310cf9b95b023ed, 0x6eb999935e6871c4, 0x0118d49a815349e7, 0x81e506ead6a1ed51),
      State(0xf09ea07e350a5f15, 0xe429a43617036dd4, 0xd0b7d4279a4ac5c1, 0x5043faaa08a06f29));
  }

  /** "Hello world!" fills one zero-padded block, absorbed from the default state. */
  lemma HelloAbsorbed(m: seq<byte>, absorbed: State)
    requires IsHello(m)
    requires absorbed == State(0x666666db5d2ef4bb, 0xfab23be4659c7512, 0x8dd901eb3788cd9f, 0xd941e5980ad40dad)
    ensures AbsorbMessage(DefaultState, m) == absorbed
  {
    assert Pad(m) == [0x48, 0x65, 0x6c, 0x6c, 0x6f, 0x20, 0x77, 0x6f,
      0x72, 0x6c, 0x64, 0x21, 0x00, 0x00, 0x00, 0x00,
      0x00, 0x00, 0x00, 0x00, 0x00, 0x00, 0x00, 0x00,
      0x00, 0x00, 0x00, 0x00, 0x00, 0x00, 0x00, 0x00];
    assert XorBlock(DefaultState, Pad(m)) == State(0x321a8f93287dcc2f, 0xe22d4dea49331346, 0xca50864d814cbc2e, 0x894e29b9611eb173);
    HelloMixA();
  }

  /** The bit length of "Hello world!": 12 bytes are 96 bits. */
  lemma HelloBitLength()
    ensures BitLength(12) == 96
  {
    assert Wrap64(12 * 8) == 96;
  }

  /** The length step and the two final mixes for "Hello world!". */
  lemma HelloFinal(absorbed: State, final: State)
    requires absorbed == State(0x666666db5d2ef4bb, 0xfab23be4659c7512, 0x8dd901eb3788cd9f, 0xd941e5980ad40dad)
    requires final == State(0xf09ea07e350a5f15, 0xe429a43617036dd4, 0xd0b7d4279a4ac5c1, 0x5043faaa08a06f29)
    ensures FinalState(absorbed, 12) == final
  {
    HelloBitLength();
    assert Xor(0x666666db5d2ef4bb, 96) == 0x666666db5d2ef4db;
    HelloMixB();
    HelloMixC();
    FinalFromMixes(State(0x666666db5d2ef4bb, 0xfab23be4659c7512, 0x8dd901eb3788cd9f, 0xd941e5980ad40dad), 12,
      State(0x666666db5d2ef4db, 0xfab23be4659c7512, 0x8dd901eb3788cd9f, 0xd941e5980ad40dad),
      State(0xe62d8ef3a07483c5, 0x1fd0308d5c67b971, 0x74f0d225deed1a17, 0xc5e201cbd95b7da9),
      State(0xf09ea07e350a5f15, 0xe429a43617036dd4, 0xd0b7d4279a4ac5c1, 0x5043faaa08a06f29));
  }

  /** The digest bytes of the final state for "Hello world!". */
  lemma HelloSerialized(final: State)
    requires final == State(0xf09ea07e350a5f15, 0xe429a43617036dd4, 0xd0b7d4279a4ac5c1, 0x5043faaa08a06f29)
    ensures Serialize(final)
         == [0x15, 0x5f, 0x0a, 0x35, 0x7e, 0xa0, 0x9e, 0xf0,
            0xd4, 0x6d, 0x03, 0x17, 0x36, 0xa4, 0x29, 0xe4,
            0xc1, 0xc5, 0x4a, 0x9a]
  {
  }

  /** TentHash("Hello world!"), as gotenthash_test.go expects it to begin. */
  lemma HelloDigest(m: seq<byte>)
    requires IsHello(m)
    ensures Digest(m) == [0x15, 0x5f, 0x0a, 0x35, 0x7e, 0xa0, 0x9e, 0xf0,
      0xd4, 0x6d, 0x03, 0x17, 0x36, 0xa4, 0x29, 0xe4,
      0xc1, 0xc5, 0x4a, 0x9a]
  {
    HelloAbsorbed(m, State(0x666666db5d2ef4bb, 0xfab23be4659c7512, 0x8dd901eb3788cd9f, 0xd941e5980ad40dad));
    HelloFinal(State(0x666666db5d2ef4bb, 0xfab23be4659c7512, 0x8dd901eb3788cd9f, 0xd941e5980ad40dad), State(0xf09ea07e350a5f15, 0xe429a43617036dd4, 0xd0b7d4279a4ac5c1, 0x5043faaa08a06f29));
    HelloSerialized(State(0xf09ea07e350a5f15, 0xe429a43617036dd4, 0xd0b7d4279a4ac5c1, 0x5043faaa08a06f29));
  }

  /** m holds the bytes of "I love golang!", given byte by byte. */
  predicate IsGolang(m: seq<byte>)
  {
    |m| == 14 &&
    m[0] == 0x49 && m[1] == 0x20 && m[2] == 0x6c && m[3] == 0x6f &&
    m[4] == 0x76 && m[5] == 0x65 && m[6] == 0x20 && m[7] == 0x67 &&
    m[8] == 0x6f && m[9] == 0x6c && m[10] == 0x61 && m[11] == 0x6e &&
    m[12] == 0x67 && m[13] == 0x21
  }

  lemma GolangA0()
    ensures Round(State(0x3a4dca8a2b7d892e, 0xe22d6c8d0636135b, 0xca50864d814cbc2e, 0x894e29b9611eb173), 16, 28)
         == State(0x6b7b96466754c4ce, 0x049e50d7acca455c, 0x82d3d19b10e48f0c, 0xfd6a7d515fc02655)
  {
  }

  lemma GolangA1()
    ensures Round(State(0x6b7b96466754c4ce, 0x049e50d7acca455c, 0x82d3d19b10e48f0c, 0xfd6a7d515fc02655), 14, 57)
         == State(0x0208ce290c8a6bb1, 0xee4f67e1783953da, 0x1a29a3d85bfa736e, 0xa9f21ad3ae35ebfd)
  {
  }

  lemma GolangA2()
    ensures Round(State(0x0208ce290c8a6bb1, 0xee4f67e1783953da, 0x1a29a3d85bfa736e, 0xa9f21ad3ae35ebfd), 11, 22)
         == State(0x984182b5266f3fd7, 0x1c3272016884df1f, 0x512cb0debb1fafce, 0x2caa0fcfd9054351)
  {
  }

  lemma GolangA3()
    ensures Round(State(0x984182b5266f3fd7, 0x1c3272016884df1f, 0x512cb0debb1fafce, 0x2caa0fcfd9054351), 35, 34)
         == State(0x48dc81d1418a2270, 0xe96e3393e18eefa5, 0x31934de168eb6950, 0x2cc98c95f3221d4f)
  {
  }

  lemma GolangA4()
    ensures Round(State(0x48dc81d1418a2270, 0xe96e3393e18eefa5, 0x31934de168eb6950, 0x2cc98c95f3221d4f), 57, 16)
         == State(0x1637c029d4b10cf4, 0x7a6fcfb2aa758bc0, 0xda0ce92968a45d12, 0x9aa2330bc9fe203d)
  {
  }

  lemma GolangA5()
    ensures Round(State(0x1637c029d4b10cf4, 0x7a6fcfb2aa758bc0, 0xda0ce92968a45d12, 0x9aa2330bc9fe203d), 59, 40)
         == State(0x151202be7473abfd, 0xf044a9533d556a06, 0x6694ce1a761048ee, 0xeb323f24d640a034)
  {
  }

  lemma GolangA6()
    ensures Round(State(0x151202be7473abfd, 0xf044a9533d556a06, 0x6694ce1a761048ee, 0xeb323f24d640a034), 44, 13)
         == State(0xdb76e87813960a3a, 0x7ba6d0d8ea83f4eb, 0x7f2836b1a662538a, 0x9c9272b00790975c)
  {
  }

  lemma GolangB0()
    ensures Round(State(0xdb76e87813960a4a, 0x7ba6d0d8ea83f4eb, 0x7f2836b1a662538a, 0x9c9272b00790975c), 16, 28)
         == State(0x18394388f2148c47, 0x5a9f1f29b9f85dd4, 0x6c2eb94bea7222fc, 0x18404afd3bddab6c)
  {
  }

  lemma GolangB1()
    ensures Round(State(0x18394388f2148c47, 0x5a9f1f29b9f85dd4, 0x6c2eb94bea7222fc, 0x18404afd3bddab6c), 14, 57)
         == State(0x72df6a26f5d60940, 0x8467fcd4dc86af43, 0x2a3506485439b448, 0xaaefeab30fa1b216)
  {
  }

  lemma GolangB2()
    ensures Round(State(0x72df6a26f5d60940, 0x8467fcd4dc86af43, 0x2a3506485439b448, 0xaaefeab30fa1b216), 11, 22)
         == State(0x2f57e787ec286159, 0x9d14706f4a0fbd88, 0x352632ce87adfcd9, 0x83940feb6982daa3)
  {
  }

  lemma GolangB3()
    ensures Round(State(0x2f57e787ec286159, 0x9d14706f4a0fbd88, 0x352632ce87adfcd9, 0x83940feb6982daa3), 35, 34)
         == State(0x20a8805ab392982b, 0x647e1a5673d65e32, 0x5911fc9fdae7c846, 0x86a3ead4bdc2a786)
  {
  }

  lemma GolangB4()
    ensures Round(State(0x20a8805ab392982b, 0x647e1a5673d65e32, 0x5911fc9fdae7c846, 0x86a3ead4bdc2a786), 57, 16)
         == State(0xeb22052b319905b8, 0x79ba7cfa8e7a6071, 0xf5085f03b1cfafe1, 0x01f6b8e9961f831b)
  {
  }

  lemma GolangB5()
    ensures Round(State(0xeb22052b319905b8, 0x79ba7cfa8e7a6071, 0xf5085f03b1cfafe1, 0x01f6b8e9961f831b), 59, 40)
         == State(0x7bb135e42499e38c, 0xe02a642ee368b599, 0xef8226d6fee6c8e6, 0x64322ee5d2210a1a)
  {
  }

  lemma GolangB6()
    ensures Round(State(0x7bb135e42499e38c, 0xe02a642ee368b599, 0xef8226d6fee6c8e6, 0x64322ee5d2210a1a), 44, 13)
         == State(0x445c9314b589bfb3, 0x6b335cbb2380ac72, 0x07bd324301edc39c, 0x0180295094caf335)
  {
  }

  lemma GolangC0()
    ensures Round(State(0x445c9314b589bfb3, 0x6b335cbb2380ac72, 0x07bd324301edc39c, 0x0180295094caf335), 16, 28)
         == State(0x6cb3860bb84b9fa7, 0x4c19c557b777834f, 0x7e5ac4ba74eb84f2, 0x65ff2938e8539d32)
  {
  }

  lemma GolangC1()
    ensures Round(State(0x6cb3860bb84b9fa7, 0x4c19c557b777834f, 0x7e5ac4ba74eb84f2, 0x65ff2938e8539d32), 14, 57)
         == State(0xb218ee909fcb2081, 0xeb0e4ac62d372499, 0x5a20d7fccc0bbb0f, 0xd6d310c2ee1b87bb)
  {
  }

  lemma GolangC2()
    ensures Round(State(0xb218ee909fcb2081, 0xeb0e4ac62d372499, 0x5a20d7fccc0bbb0f, 0xd6d310c2ee1b87bb), 11, 22)
         == State(0xc1e15b891b52ac54, 0x0c39c68d6bd6db90, 0x0a8620ed360ea141, 0xf15add68f5a71890)
  {
  }

  lemma GolangC3()
    ensures Round(State(0xc1e15b891b52ac54, 0x0c39c68d6bd6db90, 0x0a8620ed360ea141, 0xf15add68f5a71890), 35, 34)
         == State(0xfd94a3f6617df420, 0xcc677c7651614d95, 0x7c12767e05504afc, 0x2b08c1b5a4168183)
  {
  }

  lemma GolangC4()
    ensures Round(State(0xfd94a3f6617df420, 0xcc677c7651614d95, 0x7c12767e05504afc, 0x2b08c1b5a4168183), 57, 16)
         == State(0xf7703e2bf577cf18, 0x79a71a7466ce3f1c, 0x815f3e989ac49f89, 0x36c59a3d74f4e410)
  {
  }

  lemma GolangC5()
    ensures Round(State(0xf7703e2bf577cf18, 0x79a71a7466ce3f1c, 0x815f3e989ac49f89, 0x36c59a3d74f4e410), 59, 40)
         == State(0xb06cb4b1dbc3232c, 0x78cf7cc4903c6ea1, 0x34c5853054ea4a5d, 0x4488a4871e591e58)
  {
  }

  lemma GolangC6()
    ensures Round(State(0xb06cb4b1dbc3232c, 0x78cf7cc4903c6ea1, 0x34c5853054ea4a5d, 0x4488a4871e591e58), 44, 13)
         == State(0xbd58214bae958cf9, 0xe53239e230ad6d89, 0x4197eaae68fe68c7, 0xa9c8c2808d5e8468)
  {
  }

  /** The mix in absorbing the padded block for "I love golang!". */
  lemma GolangMixA()
    ensures Mix(State(0x3a4dca8a2b7d892e, 0xe22d6c8d0636135b, 0xca50864d814cbc2e, 0x894e29b9611eb173))
         == State(0xdb76e87813960a3a, 0x7ba6d0d8ea83f4eb, 0x7f2836b1a662538a, 0x9c9272b00790975c)
  {
    GolangA0();
    GolangA1();
    GolangA2();
    GolangA3();
    GolangA4();
    GolangA5();
    GolangA6();
    MixFromRounds(
      State(0x3a4dca8a2b7d892e, 0xe22d6c8d0636135b, 0xca50864d814cbc2e, 0x894e29b9611eb173),
      State(0x6b7b96466754c4ce, 0x049e50d7acca455c, 0x82d3d19b10e48f0c, 0xfd6a7d515fc02655),
      State(0x0208ce290c8a6bb1, 0xee4f67e1783953da, 0x1a29a3d85bfa736e, 0xa9f21ad3ae35ebfd),
      State(0x984182b5266f3fd7, 0x1c3272016884df1f, 0x512cb0debb1fafce, 0x2caa0fcfd9054351),
      State(0x48dc81d1418a2270, 0xe96e3393e18eefa5, 0x31934de168eb6950, 0x2cc98c95f3221d4f),
      State(0x1637c029d4b10cf4, 0x7a6fcfb2aa758bc0, 0xda0ce92968a45d12, 0x9aa2330bc9fe203d),
      State(0x151202be7473abfd, 0xf044a9533d556a06, 0x6694ce1a761048ee, 0xeb323f24d640a034),
      State(0xdb76e87813960a3a, 0x7ba6d0d8ea83f4eb, 0x7f2836b1a662538a, 0x9c9272b00790975c));
  }

  /** The mix in the first final mix for "I love golang!". */
  lemma GolangMixB()
    ensures Mix(State(0xdb76e87813960a4a, 0x7ba6d0d8ea83f4eb, 0x7f2836b1a662538a, 0x9c9272b00790975c))
         == State(0x445c9314b589bfb3, 0x6b335cbb2380ac72, 0x07bd324301edc39c, 0x0180295094caf335)
  {
    GolangB0();
    GolangB1();
    GolangB2();
    GolangB3();
    GolangB4();
    GolangB5();
    GolangB6();
    MixFromRounds(
      State(0xdb76e87813960a4a, 0x7ba6d0d8ea83f4eb, 0x7f2836b1a662538a, 0x9c9272b00790975c),
      State(0x18394388f2148c47, 0x5a9f1f29b9f85dd4, 0x6c2eb94bea7222fc, 0x18404afd3bddab6c),
      State(0x72df6a26f5d60940, 0x8467fcd4dc86af43, 0x2a3506485439b448, 0xaaefeab30fa1b216),
      State(0x2f57e787ec286159, 0x9d14706f4a0fbd88, 0x352632ce87adfcd9, 0x83940feb6982daa3),
      State(0x20a8805ab392982b, 0x647e1a5673d65e32, 0x5911fc9fdae7c846, 0x86a3ead4bdc2a786),
      State(0xeb22052b319905b8, 0x79ba7cfa8e7a6071, 0xf5085f03b1cfafe1, 0x01f6b8e9961f831b),
      State(0x7bb135e42499e38c, 0xe02a642ee368b599, 0xef8226d6fee6c8e6, 0x64322ee5d2210a1a),
      State(0x445c9314b589bfb3, 0x6b335cbb2380ac72, 0x07bd324301edc39c, 0x0180295094caf335));
  }

  /** The mix in the second final mix for "I love golang!". */
  lemma GolangMixC()
    ensures Mix(State(0x445c9314b589bfb3, 0x6b335cbb2380ac72, 0x07bd324301edc39c, 0x0180295094caf335))
         == State(0xbd58214bae958cf9, 0xe53239e230ad6d89, 0x4197eaae68fe68c7, 0xa9c8c2808d5e8468)
  {
    GolangC0();
    GolangC1();
    GolangC2();
    GolangC3();
    GolangC4();
    GolangC5();
    GolangC6();
    MixFromRounds(
      State(0x445c9314b589bfb3, 0x6b335cbb2380ac72, 0x07bd324301edc39c, 0x0180295094caf335),
      State(0x6cb3860bb84b9fa7, 0x4c19c557b777834f, 0x7e5ac4ba74eb84f2, 0x65ff2938e8539d32),
      State(0xb218ee909fcb2081, 0xeb0e4ac62d372499, 0x5a20d7fccc0bbb0f, 0xd6d310c2ee1b87bb),
      State(0xc1e15b891b52ac54, 0x0c39c68d6bd6db90, 0x0a8620ed360ea141, 0xf15add68f5a71890),
      State(0xfd94a3f6617df420, 0xcc677c7651614d95, 0x7c12767e05504afc, 0x2b08c1b5a4168183),
      State(0xf7703e2bf577cf18, 0x79a71a7466ce3f1c, 0x815f3e989ac49f89, 0x36c59a3d74f4e410),
      State(0xb06cb4b1dbc3232c, 0x78cf7cc4903c6ea1, 0x34c5853054ea4a5d, 0x4488a4871e591e58),
      State(0xbd58214bae958cf9, 0xe53239e230ad6d89, 0x4197eaae68fe68c7, 0xa9c8c2808d5e8468));
  }

  /** "I love golang!" fills one zero-padded block, absorbed from the default state. */
  lemma GolangAbsorbed(m: seq<byte>, absorbed: State)
    requires IsGolang(m)
    requires absorbed == State(0xdb76e87813960a3a, 0x7ba6d0d8ea83f4eb, 0x7f2836b1a662538a, 0x9c9272b00790975c)
    ensures AbsorbMessage(DefaultState, m) == absorbed
  {
    assert Pad(m) == [0x49, 0x20, 0x6c, 0x6f, 0x76, 0x65, 0x20, 0x67,
      0x6f, 0x6c, 0x61, 0x6e, 0x67, 0x21, 0x00, 0x00,
      0x00, 0x00, 0x00, 0x00, 0x00, 0x00, 0x00, 0x00,
      0x00, 0x00, 0x00, 0x00, 0x00, 0x00, 0x00, 0x00];
    assert XorBlock(DefaultState, Pad(m)) == State(0x3a4dca8a2b7d892e, 0xe22d6c8d0636135b, 0xca50864d814cbc2e, 0x894e29b9611eb173);
    GolangMixA();
  }

  /** The bit length of "I love golang!": 14 bytes are 112 bits. */
  lemma GolangBitLength()
    ensures BitLength(14) == 112
  {
    assert Wrap64(14 * 8) == 112;
  }

  /** The length step and the two final mixes for "I love golang!". */
  lemma GolangFinal(absorbed: State, final: State)
    requires absorbed == State(0xdb76e87813960a3a, 0x7ba6d0d8ea83f4eb, 0x7f2836b1a662538a, 0x9c9272b00790975c)
    requires final == State(0xbd58214bae958cf9, 0xe53239e230ad6d89, 0x4197eaae68fe68c7, 0xa9c8c2808d5e8468)
    ensures FinalState(absorbed, 14) == final
  {
    GolangBitLength();
    assert Xor(0xdb76e87813960a3a, 112) == 0xdb76e87813960a4a;
    GolangMixB();
    GolangMixC();
    FinalFromMixes(State(0xdb76e87813960a3a, 0x7ba6d0d8ea83f4eb, 0x7f2836b1a662538a, 0x9c9272b00790975c), 14,
      State(0xdb76e87813960a4a, 0x7ba6d0d8ea83f4eb, 0x7f2836b1a662538a, 0x9c9272b00790975c),
      State(0x445c9314b589bfb3, 0x6b335cbb2380ac72, 0x07bd324301edc39c, 0x0180295094caf335),
      State(0xbd58214bae958cf9, 0xe53239e230ad6d89, 0x4197eaae68fe68c7, 0xa9c8c2808d5e8468));
  }

  /** The digest bytes of the final state for "I love golang!". */
  lemma GolangSerialized(final: State)
    requires final == State(0xbd58214bae958cf9, 0xe53239e230ad6d89, 0x4197eaae68fe68c7, 0xa9c8c2808d5e8468)
    ensures Serialize(final)
         == [0xf9, 0x8c, 0x95, 0xae, 0x4b, 0x21, 0x58, 0xbd,
            0x89, 0x6d, 0xad, 0x30, 0xe2, 0x39, 0x32, 0xe5,
            0xc7, 0x68, 0xfe, 0x68]
  {
  }

  /** TentHash("I love golang!"), as gotenthash_test.go expects it to begin. */
  lemma GolangDigest(m: seq<byte>)
    requires IsGolang(m)
    ensures Digest(m) == [0xf9, 0x8c, 0x95, 0xae, 0x4b, 0x21, 0x58, 0xbd,
      0x89, 0x6d, 0xad, 0x30, 0xe2, 0x39, 0x32, 0xe5,
      0xc7, 0x68, 0xfe, 0x68]
  {
    GolangAbsorbed(m, State(0xdb76e87813960a3a, 0x7ba6d0d8ea83f4eb, 0x7f2836b1a662538a, 0x9c9272b00790975c));
    GolangFinal(State(0xdb76e87813960a3a, 0x7ba6d0d8ea83f4eb, 0x7f2836b1a662538a, 0x9c9272b00790975c), State(0xbd58214bae958cf9, 0xe53239e230ad6d89, 0x4197eaae68fe68c7, 0xa9c8c2808d5e8468));
    GolangSerialized(State(0xbd58214bae958cf9, 0xe53239e230ad6d89, 0x4197eaae68fe68c7, 0xa9c8c2808d5e8468));
  }
}
