// DeepSeekHashV1 of pow/deepseek_hash.go: the byte-aligned sponge of sections 4, 5.1 and 6.1 of
// FIPS 202 with rate 136 and suffix 01, over the 23-round permutation.
module Sponge {
  import opened Keccak

  const RATE := 136

  // ------------------------------------------------------------ little-endian lanes

  function Load64(b: seq<bv8>): Lane
    requires |b| == 8
  {
    Lane((b[0] as bv64) | ((b[1] as bv64) << 8) | ((b[2] as bv64) << 16) | ((b[3] as bv64) << 24)
         | ((b[4] as bv64) << 32) | ((b[5] as bv64) << 40) | ((b[6] as bv64) << 48) | ((b[7] as bv64) << 56))
  }

  function Store64(v: Lane): (b: seq<bv8>)
    ensures |b| == 8
  {
    [(v.bits & 0xFF) as bv8, ((v.bits >> 8) & 0xFF) as bv8,
     ((v.bits >> 16) & 0xFF) as bv8, ((v.bits >> 24) & 0xFF) as bv8,
     ((v.bits >> 32) & 0xFF) as bv8, ((v.bits >> 40) & 0xFF) as bv8,
     ((v.bits >> 48) & 0xFF) as bv8, ((v.bits >> 56) & 0xFF) as bv8]
  }

  // Reading and writing a lane are inverse, so comparing lanes is comparing bytes.
  lemma LoadStore(v: Lane)
    ensures Load64(Store64(v)) == v
  {}

  lemma StoreLoad(b: seq<bv8>)
    requires |b| == 8
    ensures Store64(Load64(b)) == b
  {}

  // ------------------------------------------------------------ the standard

  function ZeroState(): (s: seq<Lane>)
    ensures |s| == 25
  {
    seq(25, _ => Lane(0))
  }

  function XorBlock(s: seq<Lane>, block: seq<bv8>): (r: seq<Lane>)
    requires |s| == 25 && |block| == RATE
    ensures |r| == 25
  {
    seq(25, i requires 0 <= i < 25 => if i < 17 then Xor(s[i], Load64(block[8 * i..8 * i + 8])) else s[i])
  }

  function Absorb(s: seq<Lane>, block: seq<bv8>): (r: seq<Lane>)
    requires |s| == 25 && |block| == RATE
    ensures |r| == 25
  {
    PermuteLanes(XorBlock(s, block))
  }

  // Absorb the full blocks of a message, first block first.
  function AbsorbAll(s: seq<Lane>, message: seq<bv8>): (r: seq<Lane>)
    requires |s| == 25
    ensures |r| == 25
    decreases |message|
  {
    if |message| < RATE then s
    else AbsorbAll(Absorb(s, message[..RATE]), message[RATE..])
  }

  // The two suffix bits 01 and pad10*1, byte aligned: table 6 of appendix B.2 with q = RATE - n mod RATE.
  function Padding(n: nat): (p: seq<bv8>)
    ensures (n + |p|) % RATE == 0
  {
    var q := RATE - n % RATE;
    if q == 1 then [0x86] else [0x06] + seq(q - 2, _ => 0) + [0x80]
  }

  function Pad(data: seq<bv8>): (p: seq<bv8>)
    ensures |p| % RATE == 0
  {
    data + Padding(|data|)
  }

  function Squeeze(s: seq<Lane>): (digest: seq<bv8>)
    requires |s| == 25
    ensures |digest| == 32
  {
    Store64(s[0]) + Store64(s[1]) + Store64(s[2]) + Store64(s[3])
  }

  function Hash(data: seq<bv8>): (digest: seq<bv8>)
    ensures |digest| == 32
  {
    Squeeze(AbsorbAll(ZeroState(), Pad(data)))
  }

  // ------------------------------------------------------------ padding is injective

  datatype Option<T> = None | Some(value: T)

  // Drop trailing zero bytes and the 0x06 before them.
  function StripZeros(p: seq<bv8>): Option<seq<bv8>> {
    if p == [] then None
    else if p[|p| - 1] == 0x06 then Some(p[..|p| - 1])
    else if p[|p| - 1] == 0x00 then StripZeros(p[..|p| - 1])
    else None
  }

  function Unpad(p: seq<bv8>): Option<seq<bv8>> {
    if p == [] then None
    else if p[|p| - 1] == 0x86 then Some(p[..|p| - 1])
    else if p[|p| - 1] == 0x80 then StripZeros(p[..|p| - 1])
    else None
  }

  lemma {:induction false} StripZerosOf(data: seq<bv8>, zeros: nat)
    ensures StripZeros(data + [0x06] + seq(zeros, _ => 0)) == Some(data)
  {
    var p := data + [0x06] + seq(zeros, _ => 0 as bv8);
    if zeros == 0 {
      assert p[..|p| - 1] == data;
    } else {
      assert p[..|p| - 1] == data + [0x06] + seq(zeros - 1, _ => 0 as bv8);
      StripZerosOf(data, zeros - 1);
    }
  }

  lemma UnpadPad(data: seq<bv8>)
    ensures Unpad(Pad(data)) == Some(data)
  {
    var q := RATE - |data| % RATE;
    var p := Pad(data);
    if q == 1 {
      assert p[..|p| - 1] == data;
    } else {
      assert p[..|p| - 1] == data + [0x06] + seq(q - 2, _ => 0 as bv8);
      StripZerosOf(data, q - 2);
    }
  }

  lemma PadInjective(a: seq<bv8>, b: seq<bv8>)
    requires Pad(a) == Pad(b)
    ensures a == b
  {
    UnpadPad(a);
    UnpadPad(b);
  }

  // ------------------------------------------------------------ splitting a message

  lemma {:induction false} AbsorbAllSplit(s: seq<Lane>, a: seq<bv8>, b: seq<bv8>)
    requires |s| == 25 && |a| % RATE == 0 && |b| % RATE == 0
    ensures (|a + b|) % RATE == 0
    ensures AbsorbAll(s, a + b) == AbsorbAll(AbsorbAll(s, a), b)
    decreases |a|
  {
    hide Absorb;
    if a == [] {
      assert a + b == b;
    } else {
      assert (a + b)[..RATE] == a[..RATE];
      assert (a + b)[RATE..] == a[RATE..] + b;
      AbsorbAllSplit(Absorb(s, a[..RATE]), a[RATE..], b);
    }
  }

  lemma AbsorbAllOne(s: seq<Lane>, block: seq<bv8>)
    requires |s| == 25 && |block| == RATE
    ensures AbsorbAll(s, block) == Absorb(s, block)
  {
    hide Absorb;
    assert block[..RATE] == block && block[RATE..] == [];
    assert AbsorbAll(Absorb(s, block), []) == Absorb(s, block);
  }

  // Full blocks at the front are not touched by padding.
  lemma PadSplit(blocks: seq<bv8>, tail: seq<bv8>)
    requires |blocks| % RATE == 0
    ensures Pad(blocks + tail) == blocks + Pad(tail)
  {
    assert |blocks + tail| % RATE == |tail| % RATE;
    assert blocks + tail + Padding(|tail|) == blocks + (tail + Padding(|tail|));
  }

  // The last block as the source builds it: the tail, zeros, 0x06 after the tail, 0x80 or-ed into the end.
  function FinalBlock(tail: seq<bv8>): (block: seq<bv8>)
    requires |tail| < RATE
    ensures |block| == RATE
  {
    var zeroed := tail + seq(RATE - |tail|, _ => 0 as bv8);
    var marked := zeroed[|tail| := 0x06];
    marked[RATE - 1 := marked[RATE - 1] | 0x80]
  }

  lemma FinalBlockIsPad(tail: seq<bv8>)
    requires |tail| < RATE
    ensures FinalBlock(tail) == Pad(tail)
  {
    assert |tail| % RATE == |tail|;
  }

  // Hashing blocks + tail is absorbing the blocks and then the one final block.
  lemma HashSplit(blocks: seq<bv8>, tail: seq<bv8>)
    requires |blocks| % RATE == 0 && |tail| < RATE
    ensures Hash(blocks + tail) == Squeeze(Absorb(AbsorbAll(ZeroState(), blocks), FinalBlock(tail)))
  {
    hide Absorb, FinalBlock, Squeeze;
    PadSplit(blocks, tail);
    FinalBlockIsPad(tail);
    AbsorbAllSplit(ZeroState(), blocks, Pad(tail));
    AbsorbAllOne(AbsorbAll(ZeroState(), blocks), FinalBlock(tail));
  }

  // ------------------------------------------------------------ the source

  // The inner loop and the permutation call shared by every absorb site.
  method AbsorbBlock(s: array<Lane>, block: seq<bv8>)
    requires s.Length == 25 && |block| == RATE
    modifies s
    ensures s[..] == Absorb(old(s[..]), block)
  {
    ghost var before := s[..];
    hide PermuteLanes, Load64, Xor;
    for i := 0 to RATE / 8
      invariant forall j :: 0 <= j < i ==> s[j] == Xor(before[j], Load64(block[8 * j..8 * j + 8]))
      invariant forall j :: i <= j < 25 ==> s[j] == before[j]
    {
      s[i] := Xor(s[i], Load64(block[8 * i..8 * i + 8]));
    }
    assert s[..] == XorBlock(before, block);
    KeccakF23(s);
  }

  // Absorb every full block of data; off is where the partial block starts.
  method AbsorbFullBlocks(s: array<Lane>, data: seq<bv8>) returns (off: nat)
    requires s.Length == 25 && s[..] == ZeroState()
    modifies s
    ensures off <= |data| < off + RATE && off % RATE == 0
    ensures s[..] == AbsorbAll(ZeroState(), data[..off])
  {
    hide Absorb;
    off := 0;
    assert data[..0] == [];
    while off + RATE <= |data|
      invariant off <= |data| && off % RATE == 0
      invariant s[..] == AbsorbAll(ZeroState(), data[..off])
    {
      var block := data[off..off + RATE];
      AbsorbBlock(s, block);
      assert data[..off + RATE] == data[..off] + block;
      AbsorbAllSplit(ZeroState(), data[..off], block);
      AbsorbAllOne(AbsorbAll(ZeroState(), data[..off]), block);
      off := off + RATE;
    }
  }

  method DeepSeekHashV1(data: seq<bv8>) returns (out: seq<bv8>)
    ensures out == Hash(data)
  {
    hide Absorb, Store64;
    var s := new Lane[25](_ => Lane(0));
    assert s[..] == ZeroState();
    var off := AbsorbFullBlocks(s, data);
    ghost var absorbed := s[..];

    var final := new bv8[RATE](_ => 0);
    forall i | 0 <= i < |data| - off {
      final[i] := data[off + i];
    }
    final[|data| - off] := 0x06;
    final[RATE - 1] := final[RATE - 1] | 0x80;
    ghost var tail := data[off..];
    assert final[..] == FinalBlock(tail);
    assert s[..] == absorbed;
    hide FinalBlock, AbsorbAll;
    AbsorbBlock(s, final[..]);
    out := Store64(s[0]) + Store64(s[1]) + Store64(s[2]) + Store64(s[3]);
    assert out == Squeeze(s[..]);
    assert data == data[..off] + tail;
    HashSplit(data[..off], tail);
  }
}
