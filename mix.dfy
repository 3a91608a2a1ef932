/**
 * The TentHash mixing function (mixState in gotenthash.go): seven rounds of
 * add-rotate-xor over the four state words, the table of rotation amounts,
 * the method that mixes an array in place, and the inverse of the mix.
 */
module Mixing {
  import opened Word64

  /** The four 64-bit words state[0] .. state[3] of the hash state. */
  datatype State = State(w0: bv64, w1: bv64, w2: bv64, w3: bv64)

  /** One row of the rotation table: how far words 2 and 3 are rotated. */
  datatype Rotation = Rotation(r0: bv64, r1: bv64)

  /** The rotation table, one row per round. */
  const Rotations: seq<Rotation> :=
    [Rotation(16, 28), Rotation(14, 57), Rotation(11, 22), Rotation(35, 34), Rotation(57, 16), Rotation(59, 40), Rotation(44, 13)]

  /** The state a fresh or reset hasher starts from. */
  const DefaultState: State :=
    State(0x5d6d_affc_4411_a967, 0xe22d_4dea_6857_7f34, 0xca50_864d_814c_bc2e, 0x894e_29b9_611e_b173)

  /** There are seven rounds and every rotation amount lies in [1, 63]. */
  lemma RotationsInRange()
    ensures |Rotations| == 7
    ensures forall i :: 0 <= i < |Rotations| ==>
      1 <= Rotations[i].r0 <= 63 && 1 <= Rotations[i].r1 <= 63
  {
    forall i | 0 <= i < |Rotations|
      ensures 1 <= Rotations[i].r0 <= 63 && 1 <= Rotations[i].r1 <= 63
    {
      RotationAt(i);
    }
  }

  /** Row i of the table, spelled out. */
  lemma RotationAt(i: nat)
    requires i < |Rotations|
    ensures Rotations[i] ==
      if i == 0 then Rotation(16, 28)
      else if i == 1 then Rotation(14, 57)
      else if i == 2 then Rotation(11, 22)
      else if i == 3 then Rotation(35, 34)
      else if i == 4 then Rotation(57, 16)
      else if i == 5 then Rotation(59, 40)
      else Rotation(44, 13)
  {
  }

  /**
   * The shift pair of mixState, (x << r) | (x >> (64 - r)), is a true 64-bit
   * left rotation by r, for both amounts of every row of the table.
   */
  lemma TableRotatesLeft(x: bv64)
    ensures Rotl(x, Rotations[0].r0) == x.RotateLeft(16) && Rotl(x, Rotations[0].r1) == x.RotateLeft(28)
    ensures Rotl(x, Rotations[1].r0) == x.RotateLeft(14) && Rotl(x, Rotations[1].r1) == x.RotateLeft(57)
    ensures Rotl(x, Rotations[2].r0) == x.RotateLeft(11) && Rotl(x, Rotations[2].r1) == x.RotateLeft(22)
    ensures Rotl(x, Rotations[3].r0) == x.RotateLeft(35) && Rotl(x, Rotations[3].r1) == x.RotateLeft(34)
    ensures Rotl(x, Rotations[4].r0) == x.RotateLeft(57) && Rotl(x, Rotations[4].r1) == x.RotateLeft(16)
    ensures Rotl(x, Rotations[5].r0) == x.RotateLeft(59) && Rotl(x, Rotations[5].r1) == x.RotateLeft(40)
    ensures Rotl(x, Rotations[6].r0) == x.RotateLeft(44) && Rotl(x, Rotations[6].r1) == x.RotateLeft(13)
  {
    RotationAt(0);
    RotationAt(1);
    RotationAt(2);
    RotationAt(3);
    RotationAt(4);
    RotationAt(5);
    RotationAt(6);
    RotatesLeft11(x);
    RotatesLeft13(x);
    RotatesLeft14(x);
    RotatesLeft16(x);
    RotatesLeft22(x);
    RotatesLeft28(x);
    RotatesLeft34(x);
    RotatesLeft35(x);
    RotatesLeft40(x);
    RotatesLeft44(x);
    RotatesLeft57(x);
    RotatesLeft59(x);
  }

  lemma RotatesLeft11(x: bv64)
    ensures Rotl(x, 11) == x.RotateLeft(11)
  {
  }

  lemma RotatesLeft13(x: bv64)
    ensures Rotl(x, 13) == x.RotateLeft(13)
  {
  }

  lemma RotatesLeft14(x: bv64)
    ensures Rotl(x, 14) == x.RotateLeft(14)
  {
  }

  lemma RotatesLeft16(x: bv64)
    ensures Rotl(x, 16) == x.RotateLeft(16)
  {
  }

  lemma RotatesLeft22(x: bv64)
    ensures Rotl(x, 22) == x.RotateLeft(22)
  {
  }

  lemma RotatesLeft28(x: bv64)
    ensures Rotl(x, 28) == x.RotateLeft(28)
  {
  }

  lemma RotatesLeft34(x: bv64)
    ensures Rotl(x, 34) == x.RotateLeft(34)
  {
  }

  lemma RotatesLeft35(x: bv64)
    ensures Rotl(x, 35) == x.RotateLeft(35)
  {
  }

  lemma RotatesLeft40(x: bv64)
    ensures Rotl(x, 40) == x.RotateLeft(40)
  {
  }

  lemma RotatesLeft44(x: bv64)
    ensures Rotl(x, 44) == x.RotateLeft(44)
  {
  }

  lemma RotatesLeft57(x: bv64)
    ensures Rotl(x, 57) == x.RotateLeft(57)
  {
  }

  lemma RotatesLeft59(x: bv64)
    ensures Rotl(x, 59) == x.RotateLeft(59)
  {
  }

  /** The words of a four-word array as a state. */
  ghost function StateOf(a: array<bv64>): State
    requires a.Length == 4
    reads a
  {
    State(a[0], a[1], a[2], a[3])
  }

  /**
   * One round with rotation amounts r0 and r1: word 0 += word 2, word 2 is
   * rotated by r0 and xored with word 0, likewise words 1 and 3 with r1, and
   * then words 0 and 1 trade places.
   */
  function Round(s: State, r0: bv64, r1: bv64): State
  {
    State(Add(s.w1, s.w3),
          Add(s.w0, s.w2),
          Xor(Rotl(s.w2, r0), Add(s.w0, s.w2)),
          Xor(Rotl(s.w3, r1), Add(s.w1, s.w3)))
  }

  /** The first n rounds of the mix, each with its row of the table. */
  function MixRounds(s: State, n: nat): State
    requires n <= |Rotations|
  {
    if n == 0 then s else Round(MixRounds(s, n - 1), Rotations[n - 1].r0, Rotations[n - 1].r1)
  }

  /** The whole mix: every row of the table, in order. */
  function Mix(s: State): State
  {
    MixRounds(s, |Rotations|)
  }

  /** Mixes the four words of state in place (mixState). */
  method MixState(state: array<bv64>)
    requires state.Length == 4
    modifies state
    ensures StateOf(state) == Mix(old(StateOf(state)))
  {
    for i := 0 to |Rotations|
      invariant StateOf(state) == MixRounds(old(StateOf(state)), i)
    {
      MixRound(state, Rotations[i]);
    }
  }

  /** One pass of the loop in mixState, on the array in place. */
  method MixRound(state: array<bv64>, rot: Rotation)
    requires state.Length == 4
    modifies state
    ensures StateOf(state) == Round(old(StateOf(state)), rot.r0, rot.r1)
  {
    state[0] := Add(state[0], state[2]);
    state[2] := Rotl(state[2], rot.r0);
    state[2] := Xor(state[2], state[0]);
    state[1] := Add(state[1], state[3]);
    state[3] := Rotl(state[3], rot.r1);
    state[3] := Xor(state[3], state[1]);
    state[0], state[1] := state[1], state[0];
  }

  /** Undoes one round: the swap, then each xor, rotation and addition. */
  function UnRound(t: State, r0: bv64, r1: bv64): State
  {
    State(Sub(t.w1, Rotr(Xor(t.w2, t.w1), r0)),
          Sub(t.w0, Rotr(Xor(t.w3, t.w0), r1)),
          Rotr(Xor(t.w2, t.w1), r0),
          Rotr(Xor(t.w3, t.w0), r1))
  }

  /** Undoes the first n rounds, last round first. */
  function UnMixRounds(t: State, n: nat): State
    requires n <= |Rotations|
    decreases n
  {
    if n == 0 then t else UnMixRounds(UnRound(t, Rotations[n - 1].r0, Rotations[n - 1].r1), n - 1)
  }

  /** The inverse of the whole mix. */
  function UnMix(t: State): State
  {
    UnMixRounds(t, |Rotations|)
  }

  lemma RotateBack11(x: bv64)
    ensures Rotr(Rotl(x, 11), 11) == x
  {
  }

  lemma RotateBack13(x: bv64)
    ensures Rotr(Rotl(x, 13), 13) == x
  {
  }

  lemma RotateBack14(x: bv64)
    ensures Rotr(Rotl(x, 14), 14) == x
  {
  }

  lemma RotateBack16(x: bv64)
    ensures Rotr(Rotl(x, 16), 16) == x
  {
  }

  lemma RotateBack22(x: bv64)
    ensures Rotr(Rotl(x, 22), 22) == x
  {
  }

  lemma RotateBack28(x: bv64)
    ensures Rotr(Rotl(x, 28), 28) == x
  {
  }

  lemma RotateBack34(x: bv64)
    ensures Rotr(Rotl(x, 34), 34) == x
  {
  }

  lemma RotateBack35(x: bv64)
    ensures Rotr(Rotl(x, 35), 35) == x
  {
  }

  lemma RotateBack40(x: bv64)
    ensures Rotr(Rotl(x, 40), 40) == x
  {
  }

  lemma RotateBack44(x: bv64)
    ensures Rotr(Rotl(x, 44), 44) == x
  {
  }

  lemma RotateBack57(x: bv64)
    ensures Rotr(Rotl(x, 57), 57) == x
  {
  }

  lemma RotateBack59(x: bv64)
    ensures Rotr(Rotl(x, 59), 59) == x
  {
  }

  /** UnRound undoes a round whose two rotations can be turned back by Rotr. */
  lemma UnRoundRound(s: State, r0: bv64, r1: bv64)
    requires Rotr(Rotl(s.w2, r0), r0) == s.w2
    requires Rotr(Rotl(s.w3, r1), r1) == s.w3
    ensures UnRound(Round(s, r0, r1), r0, r1) == s
  {
    XorTwice(Rotl(s.w2, r0), Add(s.w0, s.w2));
    XorTwice(Rotl(s.w3, r1), Add(s.w1, s.w3));
    AddThenSub(s.w0, s.w2);
    AddThenSub(s.w1, s.w3);
  }

  /** Seven round results chain into the result of the whole mix. */
  lemma MixFromRounds(t0: State, t1: State, t2: State, t3: State, t4: State, t5: State, t6: State, t7: State)
    requires Round(t0, 16, 28) == t1
    requires Round(t1, 14, 57) == t2
    requires Round(t2, 11, 22) == t3
    requires Round(t3, 35, 34) == t4
    requires Round(t4, 57, 16) == t5
    requires Round(t5, 59, 40) == t6
    requires Round(t6, 44, 13) == t7
    ensures Mix(t0) == t7
  {
    RotationAt(0);
    RotationAt(1);
    RotationAt(2);
    RotationAt(3);
    RotationAt(4);
    RotationAt(5);
    RotationAt(6);
    assert MixRounds(t0, 1) == t1;
    assert MixRounds(t0, 2) == t2;
    assert MixRounds(t0, 3) == t3;
    assert MixRounds(t0, 4) == t4;
    assert MixRounds(t0, 5) == t5;
    assert MixRounds(t0, 6) == t6;
    assert MixRounds(t0, 7) == t7;
  }

  /** Seven inverse rounds, last row of the table first, chain into UnMix. */
  lemma UnMixFromRounds(t7: State, t6: State, t5: State, t4: State, t3: State, t2: State, t1: State, t0: State)
    requires UnRound(t7, 44, 13) == t6
    requires UnRound(t6, 59, 40) == t5
    requires UnRound(t5, 57, 16) == t4
    requires UnRound(t4, 35, 34) == t3
    requires UnRound(t3, 11, 22) == t2
    requires UnRound(t2, 14, 57) == t1
    requires UnRound(t1, 16, 28) == t0
    ensures UnMix(t7) == t0
  {
    RotationAt(0);
    RotationAt(1);
    RotationAt(2);
    RotationAt(3);
    RotationAt(4);
    RotationAt(5);
    RotationAt(6);
    assert UnMixRounds(t1, 1) == t0;
    assert UnMixRounds(t2, 2) == t0;
    assert UnMixRounds(t3, 3) == t0;
    assert UnMixRounds(t4, 4) == t0;
    assert UnMixRounds(t5, 5) == t0;
    assert UnMixRounds(t6, 6) == t0;
    assert UnMixRounds(t7, 7) == t0;
  }

  /** The mix is a permutation of the 256-bit state: UnMix inverts it. */
  lemma MixInverse(s: State)
    ensures UnMix(Mix(s)) == s
  {
    var t1 := Round(s, 16, 28);
    var t2 := Round(t1, 14, 57);
    var t3 := Round(t2, 11, 22);
    var t4 := Round(t3, 35, 34);
    var t5 := Round(t4, 57, 16);
    var t6 := Round(t5, 59, 40);
    var t7 := Round(t6, 44, 13);
    MixFromRounds(s, t1, t2, t3, t4, t5, t6, t7);
    RotateBack16(s.w2); RotateBack28(s.w3); UnRoundRound(s, 16, 28);
    RotateBack14(t1.w2); RotateBack57(t1.w3); UnRoundRound(t1, 14, 57);
    RotateBack11(t2.w2); RotateBack22(t2.w3); UnRoundRound(t2, 11, 22);
    RotateBack35(t3.w2); RotateBack34(t3.w3); UnRoundRound(t3, 35, 34);
    RotateBack57(t4.w2); RotateBack16(t4.w3); UnRoundRound(t4, 57, 16);
    RotateBack59(t5.w2); RotateBack40(t5.w3); UnRoundRound(t5, 59, 40);
    RotateBack44(t6.w2); RotateBack13(t6.w3); UnRoundRound(t6, 44, 13);
    UnMixFromRounds(t7, t6, t5, t4, t3, t2, t1, s);
  }

  /** Two states mix to the same state only if they are equal. */
  lemma MixInjective(s: State, t: State)
    ensures Mix(s) == Mix(t) <==> s == t
  {
    MixInverse(s);
    MixInverse(t);
  }
}
