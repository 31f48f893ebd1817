// The nonce search of pow/deepseek_pow.go, proved equal to hashing prefix + decimal(n) from scratch
// for n = 0, 1, 2, ... Strings are their bytes.
module Pow {
  import opened Keccak
  import opened Sponge

  // ------------------------------------------------------------ decimal and hexadecimal text

  function DigitByte(d: nat): bv8
    requires d < 10
  {
    [0x30, 0x31, 0x32, 0x33, 0x34, 0x35, 0x36, 0x37, 0x38, 0x39][d]
  }

  function Decimal(n: nat): (s: seq<bv8>)
    ensures |s| >= 1
  {
    if n < 10 then [DigitByte(n)] else Decimal(n / 10) + [DigitByte(n % 10)]
  }

  function DigitValue(b: bv8): nat {
    if b == 0x30 then 0 else if b == 0x31 then 1 else if b == 0x32 then 2 else if b == 0x33 then 3
    else if b == 0x34 then 4 else if b == 0x35 then 5 else if b == 0x36 then 6 else if b == 0x37 then 7
    else if b == 0x38 then 8 else 9
  }

  function ParseDecimal(s: seq<bv8>): nat {
    if s == [] then 0 else 10 * ParseDecimal(s[..|s| - 1]) + DigitValue(s[|s| - 1])
  }

  lemma DigitRoundTrip(d: nat)
    requires d < 10
    ensures DigitValue(DigitByte(d)) == d
    ensures d > 0 ==> DigitByte(d) != 0x30
  {}

  // Distinct nonces have distinct texts, and no text but "0" starts with a zero.
  lemma {:induction false} ParseOfDecimal(n: nat)
    ensures ParseDecimal(Decimal(n)) == n
    ensures n > 0 ==> Decimal(n)[0] != 0x30
  {
    hide DigitByte, DigitValue;
    DigitRoundTrip(n % 10);
    if n < 10 {
      assert Decimal(n)[..0] == [];
    } else {
      ParseOfDecimal(n / 10);
      var s := Decimal(n);
      assert s[..|s| - 1] == Decimal(n / 10);
    }
  }

  // strconv.FormatInt in base 10.
  function FormatInt(v: int): seq<bv8> {
    if v < 0 then [0x2D] + Decimal(-v) else Decimal(v)
  }

  function BuildPrefix(salt: seq<bv8>, expireAt: int): seq<bv8> {
    salt + [0x5F] + FormatInt(expireAt) + [0x5F]
  }

  function HexValue(c: bv8): Option<bv8> {
    if 0x30 <= c <= 0x39 then Some(c - 0x30)
    else if 0x61 <= c <= 0x66 then Some(c - 0x61 + 10)
    else if 0x41 <= c <= 0x46 then Some(c - 0x41 + 10)
    else None
  }

  // hex.DecodeString on text of even length; None is its invalid-byte error.
  function HexDecode(text: seq<bv8>): (r: Option<seq<bv8>>)
    requires |text| % 2 == 0
    ensures r.Some? ==> |r.value| == |text| / 2
  {
    if text == [] then Some([])
    else
      var high, low, rest := HexValue(text[0]), HexValue(text[1]), HexDecode(text[2..]);
      if high.None? || low.None? || rest.None? then None
      else Some([(high.value << 4) | low.value] + rest.value)
  }

  // ------------------------------------------------------------ reading the texts back

  predicate IsDigit(b: bv8) {
    0x30 <= b <= 0x39
  }

  // A number in base 10 as it is written: digits only, and no leading zero except in "0".
  predicate IsNumeral(s: seq<bv8>) {
    s != [] && (forall i :: 0 <= i < |s| ==> IsDigit(s[i])) && (s[0] == 0x30 ==> |s| == 1)
  }

  // A signed number in base 10; "-0" is not one.
  function ParseInt(s: seq<bv8>): Option<int> {
    if IsNumeral(s) then Some(ParseDecimal(s))
    else if s != [] && s[0] == 0x2D && IsNumeral(s[1..]) && s[1] != 0x30 then
      var magnitude: int := ParseDecimal(s[1..]);
      Some(-magnitude)
    else None
  }

  // The position after the last underscore, or 0.
  function AfterUnderscore(s: seq<bv8>): (k: nat)
    ensures k <= |s| && (k > 0 ==> s[k - 1] == 0x5F)
    ensures forall i :: k <= i < |s| ==> s[i] != 0x5F
  {
    if s == [] then 0 else if s[|s| - 1] == 0x5F then |s| else AfterUnderscore(s[..|s| - 1])
  }

  // The salt and the expiry that a prefix text stands for: it ends in an underscore, and the last underscore
  // before that one separates the two.
  function ReadPrefix(p: seq<bv8>): Option<(seq<bv8>, int)> {
    if p == [] || p[|p| - 1] != 0x5F then None
    else
      var body := p[..|p| - 1];
      var k := AfterUnderscore(body);
      if k == 0 || ParseInt(body[k..]).None? then None
      else Some((body[..k - 1], ParseInt(body[k..]).value))
  }

  lemma DigitByteIsDigit(d: nat)
    requires d < 10
    ensures IsDigit(DigitByte(d)) && DigitByte(d) != 0x5F
  {}

  lemma {:induction false} DecimalIsNumeral(n: nat)
    ensures IsNumeral(Decimal(n)) && (n > 0 ==> Decimal(n)[0] != 0x30)
  {
    hide DigitByte, IsDigit;
    DigitByteIsDigit(n % 10);
    DigitRoundTrip(n % 10);
    if n >= 10 {
      DecimalIsNumeral(n / 10);
    }
  }

  lemma NumeralHasNoUnderscore(s: seq<bv8>)
    requires IsNumeral(s)
    ensures forall i :: 0 <= i < |s| ==> s[i] != 0x5F && s[i] != 0x2D
  {
    forall i | 0 <= i < |s| ensures s[i] != 0x5F && s[i] != 0x2D {
      assert IsDigit(s[i]);
    }
  }

  lemma ParseOfFormat(v: int)
    ensures ParseInt(FormatInt(v)) == Some(v)
    ensures forall i :: 0 <= i < |FormatInt(v)| ==> FormatInt(v)[i] != 0x5F
  {
    hide Decimal, ParseDecimal, IsNumeral;
    var n := if v < 0 then -v else v;
    DecimalIsNumeral(n);
    ParseOfDecimal(n);
    NumeralHasNoUnderscore(Decimal(n));
    if v < 0 {
      assert FormatInt(v)[1..] == Decimal(n);
      SignIsNoNumeral(FormatInt(v));
    }
  }

  lemma SignIsNoNumeral(s: seq<bv8>)
    requires s != [] && s[0] == 0x2D
    ensures !IsNumeral(s)
  {
    assert !IsDigit(0x2D);
  }

  lemma {:induction false} AfterUnderscoreIs(a: seq<bv8>, b: seq<bv8>)
    requires forall i :: 0 <= i < |b| ==> b[i] != 0x5F
    ensures AfterUnderscore(a + [0x5F] + b) == |a| + 1
    decreases |b|
  {
    var s := a + [0x5F] + b;
    if b != [] {
      var rest := b[..|b| - 1];
      assert s[..|s| - 1] == a + [0x5F] + rest;
      assert s[|s| - 1] == b[|b| - 1];
      AfterUnderscoreIs(a, rest);
    }
  }

  // A prefix is read back as the salt and the expiry it was built from, whatever underscores the salt has.
  lemma PrefixReadsBack(salt: seq<bv8>, expireAt: int)
    ensures ReadPrefix(BuildPrefix(salt, expireAt)) == Some((salt, expireAt))
  {
    hide FormatInt, ParseInt, AfterUnderscore;
    var text := FormatInt(expireAt);
    ParseOfFormat(expireAt);
    AfterUnderscoreIs(salt, text);
    var p := BuildPrefix(salt, expireAt);
    assert p[..|p| - 1] == salt + [0x5F] + text;
    assert (salt + [0x5F] + text)[|salt| + 1..] == text;
    assert (salt + [0x5F] + text)[..|salt|] == salt;
  }

  lemma DigitOfValue(b: bv8)
    requires IsDigit(b)
    ensures DigitValue(b) < 10 && DigitByte(DigitValue(b)) == b && (DigitValue(b) == 0 <==> b == 0x30)
  {}

  lemma {:induction false} DecimalOfParse(s: seq<bv8>)
    requires IsNumeral(s)
    ensures Decimal(ParseDecimal(s)) == s
    ensures s[0] != 0x30 ==> ParseDecimal(s) > 0
  {
    hide DigitByte, DigitValue, IsDigit;
    var last, rest := s[|s| - 1], s[..|s| - 1];
    DigitOfValue(last);
    if rest == [] {
      assert s == [last];
    } else {
      DecimalOfParse(rest);
      assert s == rest + [last];
    }
  }

  // No other text is read as that salt and expiry.
  lemma ReadPrefixIsExact(p: seq<bv8>, salt: seq<bv8>, expireAt: int)
    ensures ReadPrefix(p) == Some((salt, expireAt)) <==> p == BuildPrefix(salt, expireAt)
  {
    hide ReadPrefix, BuildPrefix;
    PrefixReadsBack(salt, expireAt);
    if ReadPrefix(p) == Some((salt, expireAt)) {
      ReadIsBuilt(p, salt, expireAt);
    }
  }

  lemma ReadIsBuilt(p: seq<bv8>, salt: seq<bv8>, expireAt: int)
    requires ReadPrefix(p) == Some((salt, expireAt))
    ensures p == BuildPrefix(salt, expireAt)
  {
    hide ParseInt, FormatInt, AfterUnderscore;
    var body := p[..|p| - 1];
    var k := AfterUnderscore(body);
    FormatOfParse(body[k..], expireAt);
    CutAtUnderscore(body, k);
    CutAtUnderscore(p, |p|);
    assert p[|p|..] == [];
  }

  lemma CutAtUnderscore(s: seq<bv8>, k: nat)
    requires 0 < k <= |s| && s[k - 1] == 0x5F
    ensures s == s[..k - 1] + [0x5F] + s[k..]
  {}

  lemma FormatOfParse(s: seq<bv8>, v: int)
    requires ParseInt(s) == Some(v)
    ensures FormatInt(v) == s
  {
    hide Decimal, ParseDecimal;
    if IsNumeral(s) {
      DecimalOfParse(s);
    } else {
      DecimalOfParse(s[1..]);
      assert s == [0x2D] + s[1..];
    }
  }

  function LowerByte(c: bv8): bv8 {
    if 0x41 <= c <= 0x5A then c + 0x20 else c
  }

  function LowerText(s: seq<bv8>): seq<bv8> {
    if s == [] then [] else [LowerByte(s[0])] + LowerText(s[1..])
  }

  predicate IsHexDigit(c: bv8) {
    0x30 <= c <= 0x39 || 0x41 <= c <= 0x46 || 0x61 <= c <= 0x66
  }

  function HexDigit(v: bv8): bv8 {
    if v < 10 then 0x30 + v else 0x61 + (v - 10)
  }

  // Two lower-case digits a byte, the high one first.
  function HexEncode(bytes: seq<bv8>): seq<bv8> {
    if bytes == [] then [] else [HexDigit(bytes[0] >> 4), HexDigit(bytes[0] & 0x0F)] + HexEncode(bytes[1..])
  }

  lemma HexDigitReads(c: bv8)
    ensures HexValue(c).Some? <==> IsHexDigit(c)
    ensures HexValue(c).Some? ==> HexValue(c).value < 16 && HexDigit(HexValue(c).value) == LowerByte(c)
  {}

  lemma Nibbles(high: bv8, low: bv8)
    requires high < 16 && low < 16
    ensures ((high << 4) | low) >> 4 == high && ((high << 4) | low) & 0x0F == low
  {}

  // Decoding fails exactly on a byte that is no hexadecimal digit, and encoding undoes it up to letter case.
  lemma {:induction false} HexDecodeReads(text: seq<bv8>)
    requires |text| % 2 == 0
    ensures HexDecode(text).Some? <==> forall i :: 0 <= i < |text| ==> IsHexDigit(text[i])
    ensures HexDecode(text).Some? ==> HexEncode(HexDecode(text).value) == LowerText(text)
  {
    hide HexValue, HexDigit, LowerByte, IsHexDigit;
    if text != [] {
      HexDigitReads(text[0]);
      HexDigitReads(text[1]);
      HexDecodeReads(text[2..]);
      assert text == [text[0], text[1]] + text[2..];
      if HexValue(text[0]).Some? && HexValue(text[1]).Some? {
        Nibbles(HexValue(text[0]).value, HexValue(text[1]).value);
      }
      assert text[1..][0] == text[1] && text[1..][1..] == text[2..];
    }
  }

  lemma HexDigitInjective(a: bv8, b: bv8)
    requires a < 16 && b < 16 && HexDigit(a) == HexDigit(b)
    ensures a == b
  {}

  lemma SameByte(a: bv8, b: bv8)
    ensures a >> 4 < 16 && a & 0x0F < 16
    ensures a >> 4 == b >> 4 && a & 0x0F == b & 0x0F ==> a == b
  {}

  // Different bytes have different hexadecimal texts.
  lemma {:induction false} HexEncodeInjective(a: seq<bv8>, b: seq<bv8>)
    requires HexEncode(a) == HexEncode(b)
    ensures a == b
  {
    hide HexDigit;
    var s, t := HexEncode(a), HexEncode(b);
    if a != [] && b != [] {
      assert s[0] == t[0] && s[1] == t[1] && s[2..] == HexEncode(a[1..]) && t[2..] == HexEncode(b[1..]);
      SameByte(a[0], b[0]);
      SameByte(b[0], a[0]);
      HexDigitInjective(a[0] >> 4, b[0] >> 4);
      HexDigitInjective(a[0] & 0x0F, b[0] & 0x0F);
      HexEncodeInjective(a[1..], b[1..]);
      assert a == [a[0]] + a[1..] && b == [b[0]] + b[1..];
    }
  }

  function Pow10(k: nat): nat {
    if k == 0 then 1 else 10 * Pow10(k - 1)
  }

  lemma {:induction false} DecimalLength(n: nat, k: nat)
    requires k >= 1 && n < Pow10(k)
    ensures |Decimal(n)| <= k
  {
    if n >= 10 {
      assert k >= 2;
      DecimalLength(n / 10, k - 1);
    }
  }

  // An int64 fits the 20-byte digit buffer.
  lemma Int64Digits(n: nat)
    requires n < 0x8000_0000_0000_0000
    ensures |Decimal(n)| <= 20
  {
    assert Pow10(4) == 10_000;
    assert Pow10(8) == 100_000_000;
    assert Pow10(12) == 1_000_000_000_000;
    assert Pow10(16) == 10_000_000_000_000_000;
    assert Pow10(20) == 100_000_000_000_000_000_000;
    DecimalLength(n, 20);
  }

  // ------------------------------------------------------------ the plain search

  // The nonce is a solution: the digest of prefix + decimal(n) is the target.
  predicate Answers(prefix: seq<bv8>, target: seq<bv8>, n: nat) {
    Hash(prefix + Decimal(n)) == target
  }

  datatype PowError = BadLength | BadHex | Cancelled | NoSolution
  datatype SolveResult = Solved(nonce: nat) | Failed(error: PowError)

  // ctxErr(n) is whether the context is done when it is polled at nonce n; it is polled at multiples of 1024.
  ghost predicate PolledClear(ctxErr: nat -> bool, below: nat) {
    forall m: nat :: m < below && m % 1024 == 0 ==> !ctxErr(m)
  }

  ghost predicate NoneBelow(prefix: seq<bv8>, target: seq<bv8>, below: nat) {
    forall m: nat :: m < below ==> !Answers(prefix, target, m)
  }

  // What the search returns when the challenge decodes to target.
  ghost predicate SearchOutcome(r: SolveResult, ctxErr: nat -> bool, prefix: seq<bv8>, target: seq<bv8>, difficulty: int) {
    match r
    case Solved(n) =>
      n < difficulty && Answers(prefix, target, n) && NoneBelow(prefix, target, n) && PolledClear(ctxErr, n + 1)
    case Failed(Cancelled) =>
      exists n: nat :: n < difficulty && n % 1024 == 0 && ctxErr(n) && NoneBelow(prefix, target, n) && PolledClear(ctxErr, n)
    case Failed(NoSolution) =>
      difficulty < 0 || (NoneBelow(prefix, target, difficulty) && PolledClear(ctxErr, difficulty))
    case Failed(_) => false
  }

  // With a context that is never cancelled the outcome is the least solution, or NoSolution exactly when
  // there is none below the difficulty.
  lemma UncancelledOutcome(r: SolveResult, ctxErr: nat -> bool, prefix: seq<bv8>, target: seq<bv8>, difficulty: int)
    requires SearchOutcome(r, ctxErr, prefix, target, difficulty)
    requires forall m: nat :: !ctxErr(m)
    ensures r.Solved? <==> exists n: nat :: n < difficulty && Answers(prefix, target, n)
    ensures !r.Solved? ==> r == Failed(NoSolution)
    ensures r.Solved? ==> forall n: nat :: Answers(prefix, target, n) ==> r.nonce <= n
  {
    hide Hash;
    if r.Solved? {
      assert Answers(prefix, target, r.nonce);
    }
  }

  // ------------------------------------------------------------ one candidate

  // Lanes 0..3 equal the target's lanes exactly when the squeezed digest is the target.
  lemma LanesMatchTarget(s: seq<Lane>, target: seq<bv8>)
    requires |s| == 25 && |target| == 32
    ensures Squeeze(s) == target
       <==> s[0] == Load64(target[0..8]) && s[1] == Load64(target[8..16])
            && s[2] == Load64(target[16..24]) && s[3] == Load64(target[24..32])
  {
    hide Load64, Store64;
    var d := Squeeze(s);
    assert d[0..8] == Store64(s[0]) && d[8..16] == Store64(s[1]) && d[16..24] == Store64(s[2]) && d[24..32] == Store64(s[3]);
    assert target == target[0..8] + target[8..16] + target[16..24] + target[24..32];
    LoadStore(s[0]); LoadStore(s[1]); LoadStore(s[2]); LoadStore(s[3]);
    StoreLoad(target[0..8]); StoreLoad(target[8..16]); StoreLoad(target[16..24]); StoreLoad(target[24..32]);
  }

  // Absorbing the padded rest after the full blocks of the prefix is hashing everything from scratch.
  lemma PreabsorbedHash(blocks: seq<bv8>, rest: seq<bv8>)
    requires |blocks| % RATE == 0
    ensures Hash(blocks + rest) == Squeeze(AbsorbAll(AbsorbAll(ZeroState(), blocks), Pad(rest)))
  {
    hide AbsorbAll, Squeeze, Pad;
    PadSplit(blocks, rest);
    AbsorbAllSplit(ZeroState(), blocks, Pad(rest));
  }

  // The one-block branch: the rest is shorter than a block.
  lemma ShortRest(s: seq<Lane>, rest: seq<bv8>)
    requires |s| == 25 && |rest| < RATE
    ensures AbsorbAll(s, Pad(rest)) == Absorb(s, FinalBlock(rest))
  {
    hide Absorb, FinalBlock;
    FinalBlockIsPad(rest);
    AbsorbAllOne(s, FinalBlock(rest));
  }

  // The two-block branch: a full block and a remainder, possibly empty.
  lemma LongRest(s: seq<Lane>, rest: seq<bv8>)
    requires |s| == 25 && RATE <= |rest| < 2 * RATE
    ensures AbsorbAll(s, Pad(rest)) == Absorb(Absorb(s, rest[..RATE]), FinalBlock(rest[RATE..]))
  {
    hide Absorb, FinalBlock, Pad, AbsorbAll;
    var block, remainder := rest[..RATE], rest[RATE..];
    assert rest == block + remainder;
    PadSplit(block, remainder);
    AbsorbAllSplit(s, block, Pad(remainder));
    AbsorbAllOne(s, block);
    ShortRest(Absorb(s, block), remainder);
  }

  // The digit loop: digits are written backwards from the end of the buffer.
  method WriteDecimal(numBuf: array<bv8>, n: nat) returns (pos: nat)
    requires numBuf.Length == 20 && n < 0x8000_0000_0000_0000
    modifies numBuf
    ensures pos < 20 && numBuf[pos..] == Decimal(n)
  {
    Int64Digits(n);
    var v: nat := n;
    pos := 20;
    if v == 0 {
      pos := pos - 1;
      numBuf[pos] := DigitByte(0);
      assert numBuf[pos..] == [DigitByte(0)];
    } else {
      assert numBuf[20..] == [];
      while v > 0
        invariant pos <= 20
        invariant v > 0 ==> Decimal(n) == Decimal(v) + numBuf[pos..]
        invariant v == 0 ==> Decimal(n) == numBuf[pos..]
      {
        ghost var written := numBuf[pos..];
        assert |Decimal(n)| == |Decimal(v)| + 20 - pos;
        pos := pos - 1;
        numBuf[pos] := DigitByte(v % 10);
        assert numBuf[pos..] == [DigitByte(v % 10)] + written;
        v := v / 10;
      }
    }
  }

  // A zeroed block holding a, then b, as the copies of the source fill it.
  method FillBlock(a: seq<bv8>, b: seq<bv8>) returns (buf: array<bv8>)
    requires |a| + |b| <= RATE
    ensures fresh(buf) && buf.Length == RATE
    ensures buf[..] == a + b + seq(RATE - |a| - |b|, _ => 0 as bv8)
  {
    buf := new bv8[RATE](_ => 0);
    forall i | 0 <= i < |a| {
      buf[i] := a[i];
    }
    forall i | 0 <= i < |b| {
      buf[|a| + i] := b[i];
    }
  }

  // 0x06 after the data and 0x80 or-ed into the last byte.
  method FinishBlock(buf: array<bv8>, ghost rest: seq<bv8>, len: nat)
    requires buf.Length == RATE && len == |rest| < RATE
    requires buf[..] == rest + seq(RATE - |rest|, _ => 0 as bv8)
    modifies buf
    ensures buf[..] == FinalBlock(rest)
  {
    buf[len] := 0x06;
    buf[RATE - 1] := buf[RATE - 1] | 0x80;
  }

  // The body of the search loop after the digits are written: both tail branches.
  method HashTail(baseState: seq<Lane>, tail: seq<bv8>, numBuf: array<bv8>, pos: nat) returns (s: array<Lane>)
    requires |baseState| == 25 && |tail| < RATE && numBuf.Length == 20 && pos < 20
    ensures fresh(s) && s.Length == 25
    ensures s[..] == AbsorbAll(baseState, Pad(tail + numBuf[pos..]))
  {
    hide Absorb, AbsorbAll, Pad, FinalBlock;
    s := new Lane[25](i requires 0 <= i < 25 => baseState[i]);
    assert s[..] == baseState;
    ghost var rest := tail + numBuf[pos..];
    var tailLen, numLen := |tail|, 20 - pos;
    var totalTail := tailLen + numLen;
    if totalTail < RATE {
      var buf := FillBlock(tail, numBuf[pos..]);
      assert buf[..] == rest + seq(RATE - |rest|, _ => 0 as bv8);
      FinishBlock(buf, rest, totalTail);
      assert s[..] == baseState;
      AbsorbBlock(s, buf[..]);
      ShortRest(baseState, rest);
    } else {
      var cut := pos + (RATE - tailLen);
      var buf := FillBlock(tail, numBuf[pos..cut]);
      assert buf[..] == rest[..RATE];
      assert s[..] == baseState;
      AbsorbBlock(s, buf[..]);
      ghost var middle := s[..];
      var rem := totalTail - RATE;
      var buf2 := FillBlock(numBuf[cut..cut + rem], []);
      assert numBuf[cut..cut + rem] == rest[RATE..];
      assert buf2[..] == rest[RATE..] + seq(RATE - rem, _ => 0 as bv8);
      FinishBlock(buf2, rest[RATE..], rem);
      assert s[..] == middle;
      AbsorbBlock(s, buf2[..]);
      LongRest(baseState, rest);
    }
  }

  // One iteration of the search: hash the candidate and compare its first four lanes.
  method TryNonce(baseState: seq<Lane>, ghost blocks: seq<bv8>, tail: seq<bv8>, target: seq<bv8>,
                  numBuf: array<bv8>, n: nat)
    returns (hit: bool)
    requires |blocks| % RATE == 0 && |tail| < RATE && baseState == AbsorbAll(ZeroState(), blocks)
    requires |target| == 32 && numBuf.Length == 20 && n < 0x8000_0000_0000_0000
    modifies numBuf
    ensures hit <==> Answers(blocks + tail, target, n)
  {
    hide Hash, AbsorbAll, Pad, Squeeze, Load64;
    var t0, t1 := Load64(target[0..8]), Load64(target[8..16]);
    var t2, t3 := Load64(target[16..24]), Load64(target[24..32]);
    var pos := WriteDecimal(numBuf, n);
    var s := HashTail(baseState, tail, numBuf, pos);
    assert blocks + tail + Decimal(n) == blocks + (tail + Decimal(n));
    PreabsorbedHash(blocks, tail + Decimal(n));
    LanesMatchTarget(s[..], target);
    hit := s[0] == t0 && s[1] == t1 && s[2] == t2 && s[3] == t3;
  }

  // ------------------------------------------------------------ the search

  method SolvePow(ctxErr: nat -> bool, challengeHex: seq<bv8>, salt: seq<bv8>, expireAt: int, difficulty: int)
    returns (r: SolveResult)
    requires difficulty < 0x8000_0000_0000_0000
    ensures r == Failed(BadLength) <==> |challengeHex| != 64
    ensures r == Failed(BadHex) <==>
      |challengeHex| == 64 && exists i :: 0 <= i < |challengeHex| && !IsHexDigit(challengeHex[i])
    ensures |challengeHex| == 64 && (forall i :: 0 <= i < |challengeHex| ==> IsHexDigit(challengeHex[i])) ==>
      forall prefix, target :: ReadPrefix(prefix) == Some((salt, expireAt)) && HexEncode(target) == LowerText(challengeHex) ==>
        SearchOutcome(r, ctxErr, prefix, target, difficulty)
  {
    r := Search(ctxErr, challengeHex, salt, expireAt, difficulty);
    hide SearchOutcome, BuildPrefix, ReadPrefix, HexDecode, HexEncode, LowerText, IsHexDigit;
    if |challengeHex| == 64 {
      HexDecodeReads(challengeHex);
      if HexDecode(challengeHex).Some? {
        NoHexError(r, ctxErr, BuildPrefix(salt, expireAt), HexDecode(challengeHex).value, difficulty);
        forall prefix, target |
          ReadPrefix(prefix) == Some((salt, expireAt)) && HexEncode(target) == LowerText(challengeHex)
          ensures SearchOutcome(r, ctxErr, prefix, target, difficulty)
        {
          ReadPrefixIsExact(prefix, salt, expireAt);
          HexEncodeInjective(target, HexDecode(challengeHex).value);
        }
      }
    }
  }

  lemma NoHexError(r: SolveResult, ctxErr: nat -> bool, prefix: seq<bv8>, target: seq<bv8>, difficulty: int)
    requires SearchOutcome(r, ctxErr, prefix, target, difficulty)
    ensures r != Failed(BadLength) && r != Failed(BadHex)
  {}

  method Search(ctxErr: nat -> bool, challengeHex: seq<bv8>, salt: seq<bv8>, expireAt: int, difficulty: int)
    returns (r: SolveResult)
    requires difficulty < 0x8000_0000_0000_0000
    ensures |challengeHex| != 64 ==> r == Failed(BadLength)
    ensures |challengeHex| == 64 && HexDecode(challengeHex).None? ==> r == Failed(BadHex)
    ensures |challengeHex| == 64 && HexDecode(challengeHex).Some?
        ==> SearchOutcome(r, ctxErr, BuildPrefix(salt, expireAt), HexDecode(challengeHex).value, difficulty)
  {
    hide Answers, AbsorbAll, BuildPrefix, HexDecode;
    if |challengeHex| != 64 {
      return Failed(BadLength);
    }
    var decoded := HexDecode(challengeHex);
    if decoded.None? {
      return Failed(BadHex);
    }
    var target := decoded.value;
    var prefix := BuildPrefix(salt, expireAt);
    var base := new Lane[25](_ => Lane(0));
    assert base[..] == ZeroState();
    var off := AbsorbFullBlocks(base, prefix);
    var baseState, tail := base[..], prefix[off..];
    assert prefix == prefix[..off] + tail;

    var numBuf := new bv8[20](_ => 0);
    var n: nat := 0;
    while n < difficulty
      invariant difficulty >= 0 ==> n <= difficulty
      invariant n > 0 ==> difficulty >= 0
      invariant NoneBelow(prefix, target, n) && PolledClear(ctxErr, n)
    {
      if n % 1024 == 0 {
        if ctxErr(n) {
          return Failed(Cancelled);
        }
      }
      var hit := TryNonce(baseState, prefix[..off], tail, target, numBuf, n);
      if hit {
        return Solved(n);
      }
      n := n + 1;
    }
    return Failed(NoSolution);
  }
}
