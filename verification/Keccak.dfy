// The permutation of pow/deepseek_hash.go: the step mappings of section 3.2 of FIPS 202 on
// 64-bit lanes, and the unrolled 23-round form of the source proved equal to them.
module Keccak {

  // Lanes are wrapped so that proofs about where lanes go never look at their bits.
  datatype Lane = Lane(bits: bv64)

  // Five lanes that share a y coordinate, and the five planes of the state.
  datatype Plane = Plane(x0: Lane, x1: Lane, x2: Lane, x3: Lane, x4: Lane)
  datatype State = State(y0: Plane, y1: Plane, y2: Plane, y3: Plane, y4: Plane)

  function Xor(a: Lane, b: Lane): Lane {
    Lane(a.bits ^ b.bits)
  }

  function AndNot(a: Lane, b: Lane): Lane {
    Lane(!a.bits & b.bits)
  }

  // The cyclic shift along z of section 3.2 of FIPS 202.
  function Rotate(v: Lane, k: nat): Lane
    requires k < 64
  {
    Lane(RotateBits(v.bits, k))
  }

  function RotateBits(v: bv64, k: nat): bv64
    requires k < 64
  {
    v.RotateLeft(k)
  }

  // ------------------------------------------------------------ FIPS 202, section 3.2

  function PlaneAt(s: State, y: nat): Plane {
    if y == 0 then s.y0 else if y == 1 then s.y1 else if y == 2 then s.y2 else if y == 3 then s.y3 else s.y4
  }

  // Lane (x, y) of the state, for x, y < 5.
  function At(s: State, x: nat, y: nat): Lane {
    var p := PlaneAt(s, y);
    if x == 0 then p.x0 else if x == 1 then p.x1 else if x == 2 then p.x2 else if x == 3 then p.x3 else p.x4
  }

  function ColumnParity(s: State, x: nat): Lane {
    Xor(Xor(Xor(Xor(At(s, x, 0), At(s, x, 1)), At(s, x, 2)), At(s, x, 3)), At(s, x, 4))
  }

  function ThetaEffect(s: State, x: nat): Lane {
    Xor(ColumnParity(s, (x + 4) % 5), Rotate(ColumnParity(s, (x + 1) % 5), 1))
  }

  function ThetaAt(s: State, x: nat, y: nat): Lane {
    Xor(At(s, x, y), ThetaEffect(s, x))
  }

  // Algorithm 1.
  function Theta(s: State): State {
    State(
      Plane(ThetaAt(s, 0, 0), ThetaAt(s, 1, 0), ThetaAt(s, 2, 0), ThetaAt(s, 3, 0), ThetaAt(s, 4, 0)),
      Plane(ThetaAt(s, 0, 1), ThetaAt(s, 1, 1), ThetaAt(s, 2, 1), ThetaAt(s, 3, 1), ThetaAt(s, 4, 1)),
      Plane(ThetaAt(s, 0, 2), ThetaAt(s, 1, 2), ThetaAt(s, 2, 2), ThetaAt(s, 3, 2), ThetaAt(s, 4, 2)),
      Plane(ThetaAt(s, 0, 3), ThetaAt(s, 1, 3), ThetaAt(s, 2, 3), ThetaAt(s, 3, 3), ThetaAt(s, 4, 3)),
      Plane(ThetaAt(s, 0, 4), ThetaAt(s, 1, 4), ThetaAt(s, 2, 4), ThetaAt(s, 3, 4), ThetaAt(s, 4, 4)))
  }

  // Table 2 modulo the lane size; lane (x, y) is at index 5 * y + x.
  const RHO: seq<nat> := [
    0, 1, 62, 28, 27,
    36, 44, 6, 55, 20,
    3, 10, 43, 25, 39,
    41, 45, 15, 21, 8,
    18, 2, 61, 56, 14]

  function RhoOffset(x: nat, y: nat): (k: nat)
    ensures k < 64
  {
    if x < 5 && y < 5 then RHO[5 * y + x] else 0
  }

  function RhoAt(s: State, x: nat, y: nat): Lane {
    Rotate(At(s, x, y), RhoOffset(x, y))
  }

  // Algorithm 2.
  function Rho(s: State): State {
    State(
      Plane(RhoAt(s, 0, 0), RhoAt(s, 1, 0), RhoAt(s, 2, 0), RhoAt(s, 3, 0), RhoAt(s, 4, 0)),
      Plane(RhoAt(s, 0, 1), RhoAt(s, 1, 1), RhoAt(s, 2, 1), RhoAt(s, 3, 1), RhoAt(s, 4, 1)),
      Plane(RhoAt(s, 0, 2), RhoAt(s, 1, 2), RhoAt(s, 2, 2), RhoAt(s, 3, 2), RhoAt(s, 4, 2)),
      Plane(RhoAt(s, 0, 3), RhoAt(s, 1, 3), RhoAt(s, 2, 3), RhoAt(s, 3, 3), RhoAt(s, 4, 3)),
      Plane(RhoAt(s, 0, 4), RhoAt(s, 1, 4), RhoAt(s, 2, 4), RhoAt(s, 3, 4), RhoAt(s, 4, 4)))
  }

  function PiAt(s: State, x: nat, y: nat): Lane {
    At(s, (x + 3 * y) % 5, x)
  }

  // Algorithm 3.
  function Pi(s: State): State {
    State(
      Plane(PiAt(s, 0, 0), PiAt(s, 1, 0), PiAt(s, 2, 0), PiAt(s, 3, 0), PiAt(s, 4, 0)),
      Plane(PiAt(s, 0, 1), PiAt(s, 1, 1), PiAt(s, 2, 1), PiAt(s, 3, 1), PiAt(s, 4, 1)),
      Plane(PiAt(s, 0, 2), PiAt(s, 1, 2), PiAt(s, 2, 2), PiAt(s, 3, 2), PiAt(s, 4, 2)),
      Plane(PiAt(s, 0, 3), PiAt(s, 1, 3), PiAt(s, 2, 3), PiAt(s, 3, 3), PiAt(s, 4, 3)),
      Plane(PiAt(s, 0, 4), PiAt(s, 1, 4), PiAt(s, 2, 4), PiAt(s, 3, 4), PiAt(s, 4, 4)))
  }

  function ChiAt(s: State, x: nat, y: nat): Lane {
    Xor(At(s, x, y), AndNot(At(s, (x + 1) % 5, y), At(s, (x + 2) % 5, y)))
  }

  // Algorithm 4.
  function Chi(s: State): State {
    State(
      Plane(ChiAt(s, 0, 0), ChiAt(s, 1, 0), ChiAt(s, 2, 0), ChiAt(s, 3, 0), ChiAt(s, 4, 0)),
      Plane(ChiAt(s, 0, 1), ChiAt(s, 1, 1), ChiAt(s, 2, 1), ChiAt(s, 3, 1), ChiAt(s, 4, 1)),
      Plane(ChiAt(s, 0, 2), ChiAt(s, 1, 2), ChiAt(s, 2, 2), ChiAt(s, 3, 2), ChiAt(s, 4, 2)),
      Plane(ChiAt(s, 0, 3), ChiAt(s, 1, 3), ChiAt(s, 2, 3), ChiAt(s, 3, 3), ChiAt(s, 4, 3)),
      Plane(ChiAt(s, 0, 4), ChiAt(s, 1, 4), ChiAt(s, 2, 4), ChiAt(s, 3, 4), ChiAt(s, 4, 4)))
  }

  // One step of the shift register of Algorithm 5; bit i of r is R[i].
  function LfsrStep(r: bv8): bv8 {
    if r & 0x80 == 0x80 then (r << 1) ^ 0x71 else r << 1
  }

  // The register after 7 * ir steps: round ir uses rc(7 * ir), ..., rc(7 * ir + 6).
  function Register(ir: nat): bv8 {
    if ir == 0 then 1
    else LfsrStep(LfsrStep(LfsrStep(LfsrStep(LfsrStep(LfsrStep(LfsrStep(Register(ir - 1))))))))
  }

  // rc(t), which is bit 0 of the register, placed under the given mask.
  function RcBit(r: bv8, mask: bv64): bv64 {
    if r & 1 == 1 then mask else 0
  }

  // The constant of Algorithm 6: bit 2^j - 1 is rc(j + 7 * ir) for j = 0, ..., 6.
  function RoundConstant(ir: nat): Lane {
    var r0 := Register(ir);
    var r1 := LfsrStep(r0);
    var r2 := LfsrStep(r1);
    var r3 := LfsrStep(r2);
    var r4 := LfsrStep(r3);
    var r5 := LfsrStep(r4);
    var r6 := LfsrStep(r5);
    Lane(RcBit(r0, 0x1) | RcBit(r1, 0x2) | RcBit(r2, 0x8) | RcBit(r3, 0x80) | RcBit(r4, 0x8000)
         | RcBit(r5, 0x80000000) | RcBit(r6, 0x8000000000000000))
  }

  // Algorithm 6.
  function Iota(s: State, ir: nat): State {
    s.(y0 := s.y0.(x0 := Xor(s.y0.x0, RoundConstant(ir))))
  }

  // The round function of section 3.3.
  function Round(s: State, ir: nat): State {
    Iota(Chi(Pi(Rho(Theta(s)))), ir)
  }

  // Rounds 1, ..., last. Round 0 of Keccak-f[1600] is not applied.
  function Rounds(s: State, last: nat): State
    decreases last, s
  {
    if last == 0 then s else Round(Rounds(s, last - 1), last)
  }

  function Permute(s: State): State {
    Rounds(s, 23)
  }

  // ------------------------------------------------------------ tables against their algorithms

  // The lane visited at step t of Algorithm 2.
  function RhoWalk(t: nat): (lane: (nat, nat))
    ensures lane.0 < 5 && lane.1 < 5
  {
    if t == 0 then (1, 0)
    else var (x, y) := RhoWalk(t - 1); (y, (2 * x + 3 * y) % 5)
  }

  // Its place in the table, and the rotation step t applies to it.
  function RhoIndex(t: nat): (i: nat)
    ensures i < 25
  {
    5 * RhoWalk(t).1 + RhoWalk(t).0
  }

  function RhoShift(t: nat): nat {
    ((t + 1) * (t + 2) / 2) % 64
  }

  lemma RhoWalkLanes()
    ensures RhoWalk(0) == (1, 0)
    ensures RhoWalk(1) == (0, 2)
    ensures RhoWalk(2) == (2, 1)
    ensures RhoWalk(3) == (1, 2)
    ensures RhoWalk(4) == (2, 3)
    ensures RhoWalk(5) == (3, 3)
    ensures RhoWalk(6) == (3, 0)
    ensures RhoWalk(7) == (0, 1)
    ensures RhoWalk(8) == (1, 3)
    ensures RhoWalk(9) == (3, 1)
    ensures RhoWalk(10) == (1, 4)
    ensures RhoWalk(11) == (4, 4)
    ensures RhoWalk(12) == (4, 0)
    ensures RhoWalk(13) == (0, 3)
    ensures RhoWalk(14) == (3, 4)
    ensures RhoWalk(15) == (4, 3)
    ensures RhoWalk(16) == (3, 2)
    ensures RhoWalk(17) == (2, 2)
    ensures RhoWalk(18) == (2, 0)
    ensures RhoWalk(19) == (0, 4)
    ensures RhoWalk(20) == (4, 2)
    ensures RhoWalk(21) == (2, 4)
    ensures RhoWalk(22) == (4, 1)
    ensures RhoWalk(23) == (1, 1)
  {}

  lemma RhoIndices()
    ensures RhoIndex(0) == 1
    ensures RhoIndex(1) == 10
    ensures RhoIndex(2) == 7
    ensures RhoIndex(3) == 11
    ensures RhoIndex(4) == 17
    ensures RhoIndex(5) == 18
    ensures RhoIndex(6) == 3
    ensures RhoIndex(7) == 5
    ensures RhoIndex(8) == 16
    ensures RhoIndex(9) == 8
    ensures RhoIndex(10) == 21
    ensures RhoIndex(11) == 24
    ensures RhoIndex(12) == 4
    ensures RhoIndex(13) == 15
    ensures RhoIndex(14) == 23
    ensures RhoIndex(15) == 19
    ensures RhoIndex(16) == 13
    ensures RhoIndex(17) == 12
    ensures RhoIndex(18) == 2
    ensures RhoIndex(19) == 20
    ensures RhoIndex(20) == 14
    ensures RhoIndex(21) == 22
    ensures RhoIndex(22) == 9
    ensures RhoIndex(23) == 6
  {
    RhoWalkLanes();
    hide RhoWalk;
  }

  lemma RhoShifts()
    ensures RhoShift(0) == 1
    ensures RhoShift(1) == 3
    ensures RhoShift(2) == 6
    ensures RhoShift(3) == 10
    ensures RhoShift(4) == 15
    ensures RhoShift(5) == 21
    ensures RhoShift(6) == 28
    ensures RhoShift(7) == 36
    ensures RhoShift(8) == 45
    ensures RhoShift(9) == 55
    ensures RhoShift(10) == 2
    ensures RhoShift(11) == 14
    ensures RhoShift(12) == 27
    ensures RhoShift(13) == 41
    ensures RhoShift(14) == 56
    ensures RhoShift(15) == 8
    ensures RhoShift(16) == 25
    ensures RhoShift(17) == 43
    ensures RhoShift(18) == 62
    ensures RhoShift(19) == 18
    ensures RhoShift(20) == 39
    ensures RhoShift(21) == 61
    ensures RhoShift(22) == 20
    ensures RhoShift(23) == 44
  {}

  // Step t of Algorithm 2 rotates the lane it visits by what the table holds for that lane.
  lemma RhoTableMatchesAlgorithm(t: nat)
    requires t < 24
    ensures RHO[RhoIndex(t)] == RhoShift(t)
  {
    RhoIndices();
    RhoShifts();
    hide RhoIndex, RhoShift;
  }

  const RC: seq<Lane> := [
    Lane(0x0000000000000001), Lane(0x0000000000008082), Lane(0x800000000000808A), Lane(0x8000000080008000),
    Lane(0x000000000000808B), Lane(0x0000000080000001), Lane(0x8000000080008081), Lane(0x8000000000008009),
    Lane(0x000000000000008A), Lane(0x0000000000000088), Lane(0x0000000080008009), Lane(0x000000008000000A),
    Lane(0x000000008000808B), Lane(0x800000000000008B), Lane(0x8000000000008089), Lane(0x8000000000008003),
    Lane(0x8000000000008002), Lane(0x8000000000000080), Lane(0x000000000000800A), Lane(0x800000008000000A),
    Lane(0x8000000080008081), Lane(0x8000000000008080), Lane(0x0000000080000001), Lane(0x8000000080008008)]

  lemma RoundConstantValues()
    ensures RoundConstant(1) == Lane(0x0000000000008082)
    ensures RoundConstant(2) == Lane(0x800000000000808A)
    ensures RoundConstant(3) == Lane(0x8000000080008000)
    ensures RoundConstant(4) == Lane(0x000000000000808B)
    ensures RoundConstant(5) == Lane(0x0000000080000001)
    ensures RoundConstant(6) == Lane(0x8000000080008081)
    ensures RoundConstant(7) == Lane(0x8000000000008009)
    ensures RoundConstant(8) == Lane(0x000000000000008A)
    ensures RoundConstant(9) == Lane(0x0000000000000088)
    ensures RoundConstant(10) == Lane(0x0000000080008009)
    ensures RoundConstant(11) == Lane(0x000000008000000A)
    ensures RoundConstant(12) == Lane(0x000000008000808B)
    ensures RoundConstant(13) == Lane(0x800000000000008B)
    ensures RoundConstant(14) == Lane(0x8000000000008089)
    ensures RoundConstant(15) == Lane(0x8000000000008003)
    ensures RoundConstant(16) == Lane(0x8000000000008002)
    ensures RoundConstant(17) == Lane(0x8000000000000080)
    ensures RoundConstant(18) == Lane(0x000000000000800A)
    ensures RoundConstant(19) == Lane(0x800000008000000A)
    ensures RoundConstant(20) == Lane(0x8000000080008081)
    ensures RoundConstant(21) == Lane(0x8000000000008080)
    ensures RoundConstant(22) == Lane(0x0000000080000001)
    ensures RoundConstant(23) == Lane(0x8000000080008008)
  {}

  // The table of the source is what the shift register generates, for every round applied.
  lemma RoundConstantsMatchAlgorithm(ir: nat)
    requires 1 <= ir < 24
    ensures RoundConstant(ir) == RC[ir]
  {
    RoundConstantValues();
    hide RoundConstant;
  }

  // ------------------------------------------------------------ the source

  function Rotl64(v: Lane, k: nat): Lane
    requires 0 < k < 64
  {
    Lane(RotlBits(v.bits, k))
  }

  function RotlBits(v: bv64, k: nat): bv64
    requires 0 < k < 64
  {
    (v << k) | (v >> (64 - k))
  }

  lemma RotlBitsIsRotate(v: bv64)
    ensures RotlBits(v, 1) == RotateBits(v, 1)
    ensures RotlBits(v, 2) == RotateBits(v, 2)
    ensures RotlBits(v, 3) == RotateBits(v, 3)
    ensures RotlBits(v, 6) == RotateBits(v, 6)
    ensures RotlBits(v, 8) == RotateBits(v, 8)
    ensures RotlBits(v, 10) == RotateBits(v, 10)
    ensures RotlBits(v, 14) == RotateBits(v, 14)
    ensures RotlBits(v, 15) == RotateBits(v, 15)
    ensures RotlBits(v, 18) == RotateBits(v, 18)
    ensures RotlBits(v, 20) == RotateBits(v, 20)
    ensures RotlBits(v, 21) == RotateBits(v, 21)
    ensures RotlBits(v, 25) == RotateBits(v, 25)
    ensures RotlBits(v, 27) == RotateBits(v, 27)
    ensures RotlBits(v, 28) == RotateBits(v, 28)
    ensures RotlBits(v, 36) == RotateBits(v, 36)
    ensures RotlBits(v, 39) == RotateBits(v, 39)
    ensures RotlBits(v, 41) == RotateBits(v, 41)
    ensures RotlBits(v, 43) == RotateBits(v, 43)
    ensures RotlBits(v, 44) == RotateBits(v, 44)
    ensures RotlBits(v, 45) == RotateBits(v, 45)
    ensures RotlBits(v, 55) == RotateBits(v, 55)
    ensures RotlBits(v, 56) == RotateBits(v, 56)
    ensures RotlBits(v, 61) == RotateBits(v, 61)
    ensures RotlBits(v, 62) == RotateBits(v, 62)
  {}

  lemma LiftRotation(v: Lane, k: nat)
    requires 0 < k < 64 && RotlBits(v.bits, k) == RotateBits(v.bits, k)
    ensures Rotl64(v, k) == Rotate(v, k)
  {
    hide RotlBits, RotateBits;
  }

  // The shift-and-or form is the cyclic shift, for every offset the source uses.
  lemma RotlIsRotate(v: Lane)
    ensures Rotl64(v, 1) == Rotate(v, 1)
    ensures Rotl64(v, 2) == Rotate(v, 2)
    ensures Rotl64(v, 3) == Rotate(v, 3)
    ensures Rotl64(v, 6) == Rotate(v, 6)
    ensures Rotl64(v, 8) == Rotate(v, 8)
    ensures Rotl64(v, 10) == Rotate(v, 10)
    ensures Rotl64(v, 14) == Rotate(v, 14)
    ensures Rotl64(v, 15) == Rotate(v, 15)
    ensures Rotl64(v, 18) == Rotate(v, 18)
    ensures Rotl64(v, 20) == Rotate(v, 20)
    ensures Rotl64(v, 21) == Rotate(v, 21)
    ensures Rotl64(v, 25) == Rotate(v, 25)
    ensures Rotl64(v, 27) == Rotate(v, 27)
    ensures Rotl64(v, 28) == Rotate(v, 28)
    ensures Rotl64(v, 36) == Rotate(v, 36)
    ensures Rotl64(v, 39) == Rotate(v, 39)
    ensures Rotl64(v, 41) == Rotate(v, 41)
    ensures Rotl64(v, 43) == Rotate(v, 43)
    ensures Rotl64(v, 44) == Rotate(v, 44)
    ensures Rotl64(v, 45) == Rotate(v, 45)
    ensures Rotl64(v, 55) == Rotate(v, 55)
    ensures Rotl64(v, 56) == Rotate(v, 56)
    ensures Rotl64(v, 61) == Rotate(v, 61)
    ensures Rotl64(v, 62) == Rotate(v, 62)
  {
    hide *;
    RotlBitsIsRotate(v.bits);
    LiftRotation(v, 1);
    LiftRotation(v, 2);
    LiftRotation(v, 3);
    LiftRotation(v, 6);
    LiftRotation(v, 8);
    LiftRotation(v, 10);
    LiftRotation(v, 14);
    LiftRotation(v, 15);
    LiftRotation(v, 18);
    LiftRotation(v, 20);
    LiftRotation(v, 21);
    LiftRotation(v, 25);
    LiftRotation(v, 27);
    LiftRotation(v, 28);
    LiftRotation(v, 36);
    LiftRotation(v, 39);
    LiftRotation(v, 41);
    LiftRotation(v, 43);
    LiftRotation(v, 44);
    LiftRotation(v, 45);
    LiftRotation(v, 55);
    LiftRotation(v, 56);
    LiftRotation(v, 61);
    LiftRotation(v, 62);
  }

  lemma RotateByZero(v: Lane)
    ensures Rotate(v, 0) == v
  {}

  lemma ThetaEffects(s: State)
    ensures Theta(s) == State(
      Plane(Xor(s.y0.x0, ThetaEffect(s, 0)), Xor(s.y0.x1, ThetaEffect(s, 1)), Xor(s.y0.x2, ThetaEffect(s, 2)), Xor(s.y0.x3, ThetaEffect(s, 3)), Xor(s.y0.x4, ThetaEffect(s, 4))),
      Plane(Xor(s.y1.x0, ThetaEffect(s, 0)), Xor(s.y1.x1, ThetaEffect(s, 1)), Xor(s.y1.x2, ThetaEffect(s, 2)), Xor(s.y1.x3, ThetaEffect(s, 3)), Xor(s.y1.x4, ThetaEffect(s, 4))),
      Plane(Xor(s.y2.x0, ThetaEffect(s, 0)), Xor(s.y2.x1, ThetaEffect(s, 1)), Xor(s.y2.x2, ThetaEffect(s, 2)), Xor(s.y2.x3, ThetaEffect(s, 3)), Xor(s.y2.x4, ThetaEffect(s, 4))),
      Plane(Xor(s.y3.x0, ThetaEffect(s, 0)), Xor(s.y3.x1, ThetaEffect(s, 1)), Xor(s.y3.x2, ThetaEffect(s, 2)), Xor(s.y3.x3, ThetaEffect(s, 3)), Xor(s.y3.x4, ThetaEffect(s, 4))),
      Plane(Xor(s.y4.x0, ThetaEffect(s, 0)), Xor(s.y4.x1, ThetaEffect(s, 1)), Xor(s.y4.x2, ThetaEffect(s, 2)), Xor(s.y4.x3, ThetaEffect(s, 3)), Xor(s.y4.x4, ThetaEffect(s, 4))))
    ensures ThetaEffect(s, 0) == Xor(ColumnParity(s, 4), Rotate(ColumnParity(s, 1), 1))
    ensures ThetaEffect(s, 1) == Xor(ColumnParity(s, 0), Rotate(ColumnParity(s, 2), 1))
    ensures ThetaEffect(s, 2) == Xor(ColumnParity(s, 1), Rotate(ColumnParity(s, 3), 1))
    ensures ThetaEffect(s, 3) == Xor(ColumnParity(s, 2), Rotate(ColumnParity(s, 4), 1))
    ensures ThetaEffect(s, 4) == Xor(ColumnParity(s, 3), Rotate(ColumnParity(s, 0), 1))
    ensures ColumnParity(s, 0) == Xor(Xor(Xor(Xor(s.y0.x0, s.y1.x0), s.y2.x0), s.y3.x0), s.y4.x0)
    ensures ColumnParity(s, 1) == Xor(Xor(Xor(Xor(s.y0.x1, s.y1.x1), s.y2.x1), s.y3.x1), s.y4.x1)
    ensures ColumnParity(s, 2) == Xor(Xor(Xor(Xor(s.y0.x2, s.y1.x2), s.y2.x2), s.y3.x2), s.y4.x2)
    ensures ColumnParity(s, 3) == Xor(Xor(Xor(Xor(s.y0.x3, s.y1.x3), s.y2.x3), s.y3.x3), s.y4.x3)
    ensures ColumnParity(s, 4) == Xor(Xor(Xor(Xor(s.y0.x4, s.y1.x4), s.y2.x4), s.y3.x4), s.y4.x4)
  {
    hide Xor, Rotate;
  }

  lemma ThetaUnrolled(s: State)
    ensures
      var c0 := Xor(Xor(Xor(Xor(s.y0.x0, s.y1.x0), s.y2.x0), s.y3.x0), s.y4.x0);
      var c1 := Xor(Xor(Xor(Xor(s.y0.x1, s.y1.x1), s.y2.x1), s.y3.x1), s.y4.x1);
      var c2 := Xor(Xor(Xor(Xor(s.y0.x2, s.y1.x2), s.y2.x2), s.y3.x2), s.y4.x2);
      var c3 := Xor(Xor(Xor(Xor(s.y0.x3, s.y1.x3), s.y2.x3), s.y3.x3), s.y4.x3);
      var c4 := Xor(Xor(Xor(Xor(s.y0.x4, s.y1.x4), s.y2.x4), s.y3.x4), s.y4.x4);
      var d0 := Xor(c4, Rotl64(c1, 1));
      var d1 := Xor(c0, Rotl64(c2, 1));
      var d2 := Xor(c1, Rotl64(c3, 1));
      var d3 := Xor(c2, Rotl64(c4, 1));
      var d4 := Xor(c3, Rotl64(c0, 1));
      Theta(s) == State(
        Plane(Xor(s.y0.x0, d0), Xor(s.y0.x1, d1), Xor(s.y0.x2, d2), Xor(s.y0.x3, d3), Xor(s.y0.x4, d4)),
        Plane(Xor(s.y1.x0, d0), Xor(s.y1.x1, d1), Xor(s.y1.x2, d2), Xor(s.y1.x3, d3), Xor(s.y1.x4, d4)),
        Plane(Xor(s.y2.x0, d0), Xor(s.y2.x1, d1), Xor(s.y2.x2, d2), Xor(s.y2.x3, d3), Xor(s.y2.x4, d4)),
        Plane(Xor(s.y3.x0, d0), Xor(s.y3.x1, d1), Xor(s.y3.x2, d2), Xor(s.y3.x3, d3), Xor(s.y3.x4, d4)),
        Plane(Xor(s.y4.x0, d0), Xor(s.y4.x1, d1), Xor(s.y4.x2, d2), Xor(s.y4.x3, d3), Xor(s.y4.x4, d4)))
  {
    hide *;
    ThetaEffects(s);
    RotlIsRotate(ColumnParity(s, 0));
    RotlIsRotate(ColumnParity(s, 1));
    RotlIsRotate(ColumnParity(s, 2));
    RotlIsRotate(ColumnParity(s, 3));
    RotlIsRotate(ColumnParity(s, 4));
  }

  lemma RhoRotations(s: State)
    ensures Rho(s) == State(
      Plane(Rotate(s.y0.x0, 0), Rotate(s.y0.x1, 1), Rotate(s.y0.x2, 62), Rotate(s.y0.x3, 28), Rotate(s.y0.x4, 27)),
      Plane(Rotate(s.y1.x0, 36), Rotate(s.y1.x1, 44), Rotate(s.y1.x2, 6), Rotate(s.y1.x3, 55), Rotate(s.y1.x4, 20)),
      Plane(Rotate(s.y2.x0, 3), Rotate(s.y2.x1, 10), Rotate(s.y2.x2, 43), Rotate(s.y2.x3, 25), Rotate(s.y2.x4, 39)),
      Plane(Rotate(s.y3.x0, 41), Rotate(s.y3.x1, 45), Rotate(s.y3.x2, 15), Rotate(s.y3.x3, 21), Rotate(s.y3.x4, 8)),
      Plane(Rotate(s.y4.x0, 18), Rotate(s.y4.x1, 2), Rotate(s.y4.x2, 61), Rotate(s.y4.x3, 56), Rotate(s.y4.x4, 14)))
  {
    hide Rotate;
  }

  lemma RhoUnrolled(s: State)
    ensures Rho(s) == State(
      Plane(s.y0.x0, Rotl64(s.y0.x1, 1), Rotl64(s.y0.x2, 62), Rotl64(s.y0.x3, 28), Rotl64(s.y0.x4, 27)),
      Plane(Rotl64(s.y1.x0, 36), Rotl64(s.y1.x1, 44), Rotl64(s.y1.x2, 6), Rotl64(s.y1.x3, 55), Rotl64(s.y1.x4, 20)),
      Plane(Rotl64(s.y2.x0, 3), Rotl64(s.y2.x1, 10), Rotl64(s.y2.x2, 43), Rotl64(s.y2.x3, 25), Rotl64(s.y2.x4, 39)),
      Plane(Rotl64(s.y3.x0, 41), Rotl64(s.y3.x1, 45), Rotl64(s.y3.x2, 15), Rotl64(s.y3.x3, 21), Rotl64(s.y3.x4, 8)),
      Plane(Rotl64(s.y4.x0, 18), Rotl64(s.y4.x1, 2), Rotl64(s.y4.x2, 61), Rotl64(s.y4.x3, 56), Rotl64(s.y4.x4, 14)))
  {
    hide *;
    RhoRotations(s);
    RotateByZero(s.y0.x0);
    RotlIsRotate(s.y0.x1);
    RotlIsRotate(s.y0.x2);
    RotlIsRotate(s.y0.x3);
    RotlIsRotate(s.y0.x4);
    RotlIsRotate(s.y1.x0);
    RotlIsRotate(s.y1.x1);
    RotlIsRotate(s.y1.x2);
    RotlIsRotate(s.y1.x3);
    RotlIsRotate(s.y1.x4);
    RotlIsRotate(s.y2.x0);
    RotlIsRotate(s.y2.x1);
    RotlIsRotate(s.y2.x2);
    RotlIsRotate(s.y2.x3);
    RotlIsRotate(s.y2.x4);
    RotlIsRotate(s.y3.x0);
    RotlIsRotate(s.y3.x1);
    RotlIsRotate(s.y3.x2);
    RotlIsRotate(s.y3.x3);
    RotlIsRotate(s.y3.x4);
    RotlIsRotate(s.y4.x0);
    RotlIsRotate(s.y4.x1);
    RotlIsRotate(s.y4.x2);
    RotlIsRotate(s.y4.x3);
    RotlIsRotate(s.y4.x4);
  }

  lemma PiUnrolled(s: State)
    ensures Pi(s) == State(
      Plane(s.y0.x0, s.y1.x1, s.y2.x2, s.y3.x3, s.y4.x4),
      Plane(s.y0.x3, s.y1.x4, s.y2.x0, s.y3.x1, s.y4.x2),
      Plane(s.y0.x1, s.y1.x2, s.y2.x3, s.y3.x4, s.y4.x0),
      Plane(s.y0.x4, s.y1.x0, s.y2.x1, s.y3.x2, s.y4.x3),
      Plane(s.y0.x2, s.y1.x3, s.y2.x4, s.y3.x0, s.y4.x1))
  {}

  lemma ChiUnrolled(s: State)
    ensures Chi(s) == State(
      Plane(Xor(s.y0.x0, AndNot(s.y0.x1, s.y0.x2)),
            Xor(s.y0.x1, AndNot(s.y0.x2, s.y0.x3)),
            Xor(s.y0.x2, AndNot(s.y0.x3, s.y0.x4)),
            Xor(s.y0.x3, AndNot(s.y0.x4, s.y0.x0)),
            Xor(s.y0.x4, AndNot(s.y0.x0, s.y0.x1))),
      Plane(Xor(s.y1.x0, AndNot(s.y1.x1, s.y1.x2)),
            Xor(s.y1.x1, AndNot(s.y1.x2, s.y1.x3)),
            Xor(s.y1.x2, AndNot(s.y1.x3, s.y1.x4)),
            Xor(s.y1.x3, AndNot(s.y1.x4, s.y1.x0)),
            Xor(s.y1.x4, AndNot(s.y1.x0, s.y1.x1))),
      Plane(Xor(s.y2.x0, AndNot(s.y2.x1, s.y2.x2)),
            Xor(s.y2.x1, AndNot(s.y2.x2, s.y2.x3)),
            Xor(s.y2.x2, AndNot(s.y2.x3, s.y2.x4)),
            Xor(s.y2.x3, AndNot(s.y2.x4, s.y2.x0)),
            Xor(s.y2.x4, AndNot(s.y2.x0, s.y2.x1))),
      Plane(Xor(s.y3.x0, AndNot(s.y3.x1, s.y3.x2)),
            Xor(s.y3.x1, AndNot(s.y3.x2, s.y3.x3)),
            Xor(s.y3.x2, AndNot(s.y3.x3, s.y3.x4)),
            Xor(s.y3.x3, AndNot(s.y3.x4, s.y3.x0)),
            Xor(s.y3.x4, AndNot(s.y3.x0, s.y3.x1))),
      Plane(Xor(s.y4.x0, AndNot(s.y4.x1, s.y4.x2)),
            Xor(s.y4.x1, AndNot(s.y4.x2, s.y4.x3)),
            Xor(s.y4.x2, AndNot(s.y4.x3, s.y4.x4)),
            Xor(s.y4.x3, AndNot(s.y4.x4, s.y4.x0)),
            Xor(s.y4.x4, AndNot(s.y4.x0, s.y4.x1))))
  {
    hide Xor, AndNot, Rotl64, Rotate;
  }

  lemma IotaUnrolled(s: State, ir: nat)
    requires 1 <= ir < 24
    ensures Iota(s, ir) == s.(y0 := s.y0.(x0 := Xor(s.y0.x0, RC[ir])))
  {
    hide Xor;
    RoundConstantsMatchAlgorithm(ir);
  }

  // The state held in 25 lanes, lane (x, y) at index 5 * y + x.
  function FromLanes(s: seq<Lane>): State
    requires |s| == 25
  {
    State(
      Plane(s[0], s[1], s[2], s[3], s[4]),
      Plane(s[5], s[6], s[7], s[8], s[9]),
      Plane(s[10], s[11], s[12], s[13], s[14]),
      Plane(s[15], s[16], s[17], s[18], s[19]),
      Plane(s[20], s[21], s[22], s[23], s[24]))
  }

  function ToLanes(t: State): (s: seq<Lane>)
    ensures |s| == 25
  {
    [t.y0.x0, t.y0.x1, t.y0.x2, t.y0.x3, t.y0.x4,
     t.y1.x0, t.y1.x1, t.y1.x2, t.y1.x3, t.y1.x4,
     t.y2.x0, t.y2.x1, t.y2.x2, t.y2.x3, t.y2.x4,
     t.y3.x0, t.y3.x1, t.y3.x2, t.y3.x3, t.y3.x4,
     t.y4.x0, t.y4.x1, t.y4.x2, t.y4.x3, t.y4.x4]
  }

  // The permutation on the 25 lanes.
  function PermuteLanes(s: seq<Lane>): (r: seq<Lane>)
    requires |s| == 25
    ensures |r| == 25
  {
    ToLanes(Permute(FromLanes(s)))
  }

  lemma LanesRoundTrip(s: seq<Lane>)
    requires |s| == 25
    ensures ToLanes(FromLanes(s)) == s
  {}

  lemma FromLanesUnrolled(s: seq<Lane>)
    requires |s| == 25
    ensures FromLanes(s) == State(
      Plane(s[0], s[1], s[2], s[3], s[4]),
      Plane(s[5], s[6], s[7], s[8], s[9]),
      Plane(s[10], s[11], s[12], s[13], s[14]),
      Plane(s[15], s[16], s[17], s[18], s[19]),
      Plane(s[20], s[21], s[22], s[23], s[24]))
  {}

  lemma RoundsStep(s: State, r: nat)
    requires r > 0
    ensures Rounds(s, r) == Iota(Chi(Pi(Rho(Theta(Rounds(s, r - 1))))), r)
    ensures Rounds(s, 0) == s
  {
    hide Theta, Rho, Pi, Chi, Iota;
  }

  lemma PermuteIsRounds(s: seq<Lane>)
    requires |s| == 25
    ensures PermuteLanes(s) == ToLanes(Rounds(FromLanes(s), 23))
  {
    hide Rounds, ToLanes, FromLanes;
  }

  method KeccakF23(s: array<Lane>)
    requires s.Length == 25
    modifies s
    ensures s[..] == PermuteLanes(old(s[..]))
  {
    var a0, a1, a2, a3, a4 := s[0], s[1], s[2], s[3], s[4];
    var a5, a6, a7, a8, a9 := s[5], s[6], s[7], s[8], s[9];
    var a10, a11, a12, a13, a14 := s[10], s[11], s[12], s[13], s[14];
    var a15, a16, a17, a18, a19 := s[15], s[16], s[17], s[18], s[19];
    var a20, a21, a22, a23, a24 := s[20], s[21], s[22], s[23], s[24];
    ghost var start := FromLanes(s[..]);
    FromLanesUnrolled(s[..]);
    RoundsStep(start, 1);
    hide *;
    for r := 1 to 24
      invariant State(Plane(a0, a1, a2, a3, a4), Plane(a5, a6, a7, a8, a9), Plane(a10, a11, a12, a13, a14), Plane(a15, a16, a17, a18, a19), Plane(a20, a21, a22, a23, a24)) == Rounds(start, r - 1)
    {
      ghost var before := State(Plane(a0, a1, a2, a3, a4), Plane(a5, a6, a7, a8, a9), Plane(a10, a11, a12, a13, a14), Plane(a15, a16, a17, a18, a19), Plane(a20, a21, a22, a23, a24));
      var c0 := Xor(Xor(Xor(Xor(a0, a5), a10), a15), a20);
      var c1 := Xor(Xor(Xor(Xor(a1, a6), a11), a16), a21);
      var c2 := Xor(Xor(Xor(Xor(a2, a7), a12), a17), a22);
      var c3 := Xor(Xor(Xor(Xor(a3, a8), a13), a18), a23);
      var c4 := Xor(Xor(Xor(Xor(a4, a9), a14), a19), a24);
      var d0 := Xor(c4, Rotl64(c1, 1));
      var d1 := Xor(c0, Rotl64(c2, 1));
      var d2 := Xor(c1, Rotl64(c3, 1));
      var d3 := Xor(c2, Rotl64(c4, 1));
      var d4 := Xor(c3, Rotl64(c0, 1));
      a0 := Xor(a0, d0);
      a5 := Xor(a5, d0);
      a10 := Xor(a10, d0);
      a15 := Xor(a15, d0);
      a20 := Xor(a20, d0);
      a1 := Xor(a1, d1);
      a6 := Xor(a6, d1);
      a11 := Xor(a11, d1);
      a16 := Xor(a16, d1);
      a21 := Xor(a21, d1);
      a2 := Xor(a2, d2);
      a7 := Xor(a7, d2);
      a12 := Xor(a12, d2);
      a17 := Xor(a17, d2);
      a22 := Xor(a22, d2);
      a3 := Xor(a3, d3);
      a8 := Xor(a8, d3);
      a13 := Xor(a13, d3);
      a18 := Xor(a18, d3);
      a23 := Xor(a23, d3);
      a4 := Xor(a4, d4);
      a9 := Xor(a9, d4);
      a14 := Xor(a14, d4);
      a19 := Xor(a19, d4);
      a24 := Xor(a24, d4);
      ThetaUnrolled(before);
      ghost var afterTheta := State(Plane(a0, a1, a2, a3, a4), Plane(a5, a6, a7, a8, a9), Plane(a10, a11, a12, a13, a14), Plane(a15, a16, a17, a18, a19), Plane(a20, a21, a22, a23, a24));
      assert afterTheta == Theta(before);
      var b0 := a0;
      var b10 := Rotl64(a1, 1);
      var b20 := Rotl64(a2, 62);
      var b5 := Rotl64(a3, 28);
      var b15 := Rotl64(a4, 27);
      var b16 := Rotl64(a5, 36);
      var b1 := Rotl64(a6, 44);
      var b11 := Rotl64(a7, 6);
      var b21 := Rotl64(a8, 55);
      var b6 := Rotl64(a9, 20);
      var b7 := Rotl64(a10, 3);
      var b17 := Rotl64(a11, 10);
      var b2 := Rotl64(a12, 43);
      var b12 := Rotl64(a13, 25);
      var b22 := Rotl64(a14, 39);
      var b23 := Rotl64(a15, 41);
      var b8 := Rotl64(a16, 45);
      var b18 := Rotl64(a17, 15);
      var b3 := Rotl64(a18, 21);
      var b13 := Rotl64(a19, 8);
      var b14 := Rotl64(a20, 18);
      var b24 := Rotl64(a21, 2);
      var b9 := Rotl64(a22, 61);
      var b19 := Rotl64(a23, 56);
      var b4 := Rotl64(a24, 14);
      RhoUnrolled(afterTheta);
      PiUnrolled(Rho(afterTheta));
      ghost var afterPi := State(Plane(b0, b1, b2, b3, b4), Plane(b5, b6, b7, b8, b9), Plane(b10, b11, b12, b13, b14), Plane(b15, b16, b17, b18, b19), Plane(b20, b21, b22, b23, b24));
      assert afterPi == Pi(Rho(afterTheta));
      a0 := Xor(b0, AndNot(b1, b2));
      a1 := Xor(b1, AndNot(b2, b3));
      a2 := Xor(b2, AndNot(b3, b4));
      a3 := Xor(b3, AndNot(b4, b0));
      a4 := Xor(b4, AndNot(b0, b1));
      a5 := Xor(b5, AndNot(b6, b7));
      a6 := Xor(b6, AndNot(b7, b8));
      a7 := Xor(b7, AndNot(b8, b9));
      a8 := Xor(b8, AndNot(b9, b5));
      a9 := Xor(b9, AndNot(b5, b6));
      a10 := Xor(b10, AndNot(b11, b12));
      a11 := Xor(b11, AndNot(b12, b13));
      a12 := Xor(b12, AndNot(b13, b14));
      a13 := Xor(b13, AndNot(b14, b10));
      a14 := Xor(b14, AndNot(b10, b11));
      a15 := Xor(b15, AndNot(b16, b17));
      a16 := Xor(b16, AndNot(b17, b18));
      a17 := Xor(b17, AndNot(b18, b19));
      a18 := Xor(b18, AndNot(b19, b15));
      a19 := Xor(b19, AndNot(b15, b16));
      a20 := Xor(b20, AndNot(b21, b22));
      a21 := Xor(b21, AndNot(b22, b23));
      a22 := Xor(b22, AndNot(b23, b24));
      a23 := Xor(b23, AndNot(b24, b20));
      a24 := Xor(b24, AndNot(b20, b21));
      ChiUnrolled(afterPi);
      ghost var afterChi := State(Plane(a0, a1, a2, a3, a4), Plane(a5, a6, a7, a8, a9), Plane(a10, a11, a12, a13, a14), Plane(a15, a16, a17, a18, a19), Plane(a20, a21, a22, a23, a24));
      assert afterChi == Chi(afterPi);
      a0 := Xor(a0, RC[r]);
      IotaUnrolled(afterChi, r);
      RoundsStep(start, r);
    }
    ghost var finish := State(Plane(a0, a1, a2, a3, a4), Plane(a5, a6, a7, a8, a9), Plane(a10, a11, a12, a13, a14), Plane(a15, a16, a17, a18, a19), Plane(a20, a21, a22, a23, a24));
    s[0], s[1], s[2], s[3], s[4] := a0, a1, a2, a3, a4;
    s[5], s[6], s[7], s[8], s[9] := a5, a6, a7, a8, a9;
    s[10], s[11], s[12], s[13], s[14] := a10, a11, a12, a13, a14;
    s[15], s[16], s[17], s[18], s[19] := a15, a16, a17, a18, a19;
    s[20], s[21], s[22], s[23], s[24] := a20, a21, a22, a23, a24;
    FromLanesUnrolled(s[..]);
    assert FromLanes(s[..]) == finish;
    PermuteIsRounds(old(s[..]));
    LanesRoundTrip(s[..]);
  }
}
