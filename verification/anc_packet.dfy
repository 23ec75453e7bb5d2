/** Ancillary data packets: parity, checksum, and the dense bit stream of section 2.1 of RFC 8331
    that the five-phase writer and parser are proved against. */
module AncPacket {
  import opened BitString

  type Eleven = x: int | 0 <= x < 2048
  type Twelve = x: int | 0 <= x < 4096
  type Seven = x: int | 0 <= x < 128

  const MAX_DATA_COUNT := 255

  // ----- Parity -----

  function Shr(v: nat, n: nat): nat {
    if n == 0 then v else Shr(v / 2, n - 1)
  }

  /** Bitwise exclusive or. */
  function Xor(a: nat, b: nat): nat {
    if a == 0 && b == 0 then 0 else 2 * Xor(a / 2, b / 2) + (if a % 2 == b % 2 then 0 else 1)
  }

  /** The table-lookup parity of the source: bit (v ^ v >> 4) & 0xf of 0x6996. */
  function Parity8(value: Byte): bool {
    Shr(0x6996, Xor(value / 16, value % 16)) % 2 == 1
  }

  function WithParityBits(value: Byte): (w: Ten) {
    (if Parity8(value) then 256 else 512) + value
  }

  /** True when the two parity bits of a raw 10-bit word agree with its low eight bits. */
  predicate ParityOk(raw: Ten) {
    (raw / 256 % 2 == 1) == Parity8(raw % 256) && (raw / 512 == 1) != Parity8(raw % 256)
  }

  /** Reference definition of odd parity. */
  function OddOnes(b: seq<bool>): bool {
    if b == [] then false else OddOnes(b[..|b| - 1]) != b[|b| - 1]
  }

  /** Odd parity of a 4-bit number. */
  predicate OddNibble(x: nat) {
    (((x / 8 % 2 == 1) != (x / 4 % 2 == 1)) != (x / 2 % 2 == 1)) != (x % 2 == 1)
  }

  lemma {:induction false} XorTable(x: nat)
    requires x < 16
    ensures (Shr(0x6996, x) % 2 == 1) == OddNibble(x)
  {
    hide Shr;
    var v: nat := if x < 4 then 0x6996 else if x < 8 then 0x699 else if x < 12 then 0x69 else 0x6;
    if x >= 4 {
      ShrFour(0x6996, x - 4);
    }
    if x >= 8 {
      ShrFour(0x699, x - 8);
    }
    if x >= 12 {
      ShrFour(0x69, x - 12);
    }
    ShrSmall(v, x % 4);
  }

  lemma {:induction false} ShrSmall(v: nat, n: nat)
    requires n < 4
    ensures Shr(v, n) == if n == 0 then v else if n == 1 then v / 2 else if n == 2 then v / 4 else v / 8
  {
    assert n == 3 ==> Shr(v, 3) == Shr(v / 2, 2) == Shr(v / 4, 1) == v / 8;
    assert n == 2 ==> Shr(v, 2) == Shr(v / 2, 1) == v / 4;
  }

  lemma {:induction false} ShrFour(v: nat, n: nat)
    ensures Shr(v, n + 4) == Shr(v / 16, n)
  {
    assert Shr(v, n + 4) == Shr(v / 2, n + 3) == Shr(v / 4, n + 2) == Shr(v / 8, n + 1) == Shr(v / 16, n);
  }

  lemma {:induction false} XorStep(a: nat, b: nat)
    ensures Xor(a, b) / 2 == Xor(a / 2, b / 2) && ((Xor(a, b) % 2 == 1) == ((a % 2 == 1) != (b % 2 == 1)))
  {
  }

  lemma {:induction false} XorOfNibbles(a: nat, b: nat)
    requires a < 16 && b < 16
    ensures Xor(a, b) < 16 && OddNibble(Xor(a, b)) == (OddNibble(a) != OddNibble(b))
  {
    hide Xor;
    Halves(a);
    Halves(b);
    Halves(Xor(a, b));
    XorStep(a, b);
    XorStep(a / 2, b / 2);
    XorStep(a / 4, b / 4);
    XorStep(a / 8, b / 8);
    NothingXored();
  }

  lemma {:induction false} NothingXored()
    ensures Xor(0, 0) == 0
  {
  }

  lemma {:induction false} OddOnesStep(v: nat, n: nat)
    ensures OddOnes(Bits(v, n + 1)) == (OddOnes(Bits(v / 2, n)) != (v % 2 == 1))
  {
    assert Bits(v, n + 1)[..n] == Bits(v / 2, n);
  }

  lemma {:induction false} OddOnesNibble(v: nat, n: nat)
    ensures OddOnes(Bits(v, n + 4)) == (OddOnes(Bits(v / 16, n)) != OddNibble(v))
  {
    hide OddOnes, Bits;
    Halves(v);
    OddOnesStep(v, n + 3);
    OddOnesStep(v / 2, n + 2);
    OddOnesStep(v / 4, n + 1);
    OddOnesStep(v / 8, n);
  }

  lemma {:induction false} Halves(v: nat)
    ensures v / 2 / 2 == v / 4 && v / 4 / 2 == v / 8 && v / 8 / 2 == v / 16
  {
  }

  lemma {:induction false} OddNibbleMod(v: nat)
    ensures OddNibble(v % 16) == OddNibble(v)
  {
    DropMultiple(v / 16, v % 16);
    assert v == 16 * (v / 16) + v % 16;
  }

  lemma {:induction false} DropMultiple(q: nat, b: nat)
    ensures (16 * q + b) / 8 % 2 == b / 8 % 2
    ensures (16 * q + b) / 4 % 2 == b / 4 % 2
    ensures (16 * q + b) / 2 % 2 == b / 2 % 2
    ensures (16 * q + b) % 2 == b % 2
  {
    DropMultipleOf(8, q, 16 * q, b);
    DropMultipleOf(4, 2 * q, 16 * q, b);
    DropMultipleOf(2, 4 * q, 16 * q, b);
    DropMultipleOf(1, 8 * q, 16 * q, b);
    DivOne(16 * q + b);
    DivOne(b);
  }

  lemma {:induction false} DropMultipleOf(d: nat, k: nat, m: nat, b: nat)
    requires d > 0 && m == 2 * (d * k)
    ensures (m + b) / d % 2 == b / d % 2
  {
    assert m + b == (2 * k + b / d) * d + b % d;
    DivModUnique(m + b, d, 2 * k + b / d, b % d);
    EvenMore(k, b / d);
  }

  lemma {:induction false} EvenMore(k: nat, x: nat)
    ensures (2 * k + x) % 2 == x % 2
  {
  }

  /** The bit trick computes odd parity. */
  lemma {:induction false} Parity8IsOddOnes(v: Byte)
    ensures Parity8(v) == OddOnes(Bits(v, 8))
  {
    XorOfNibbles(v / 16, v % 16);
    XorTable(Xor(v / 16, v % 16));
    OddNibbleMod(v);
    OddOnesNibble(v, 4);
    OddOnesNibble(v / 16, 0);
  }

  predicate ParityOkBits(t: seq<bool>)
    requires |t| == 10
  {
    t[0] != t[1] && t[1] == OddOnes(t[2..])
  }

  /** The parity check of the source on the bits of the word, most significant first. */
  lemma {:induction false} ParityOkIsOnBits(raw: Ten)
    ensures ParityOk(raw) == ParityOkBits(Bits(raw, 10))
    ensures ParityOk(raw) <==> raw == WithParityBits(raw % 256)
  {
    hide Parity8, OddOnes, Bits;
    BitsOfRaw(raw);
    assert Bits(raw, 10)[2..] == Bits(raw % 256, 8);
    Parity8IsOddOnes(raw % 256);
    HighBits(Parity8(raw % 256), raw % 256);
    TopDigits(raw);
  }

  lemma {:induction false} BitsOfRaw(raw: Ten)
    ensures Bits(raw, 10) == [raw / 512 == 1, raw / 256 % 2 == 1] + Bits(raw % 256, 8)
  {
    hide Bits;
    Pow2Values();
    TopDigits(raw);
    BitsConcat(raw / 256, 2, raw % 256, 8);
    TwoBits(raw / 256);
  }

  lemma {:induction false} TwoBits(v: nat)
    requires v < 4
    ensures Bits(v, 2) == [v / 2 == 1, v % 2 == 1]
  {
    assert Bits(v, 2) == Bits(v / 2, 1) + [v % 2 == 1];
    assert Bits(v / 2, 1) == Bits(v / 2 / 2, 0) + [v / 2 % 2 == 1];
  }

  lemma {:induction false} TopDigits(raw: Ten)
    ensures raw == raw / 256 * 256 + raw % 256
    ensures raw / 256 == raw / 512 * 2 + raw / 256 % 2 && raw / 256 / 2 == raw / 512 && raw / 256 % 2 < 2
  {
  }

  lemma {:induction false} WithParityIsOk(v: Byte)
    ensures ParityOk(WithParityBits(v)) && WithParityBits(v) % 256 == v
  {
    HighBits(Parity8(v), v);
  }

  lemma {:induction false} HighBits(odd: bool, v: Byte)
    ensures var w := (if odd then 256 else 512) + v;
            w % 256 == v && (w / 256 % 2 == 1) == odd && (w / 512 == 1) != odd
  {
  }

  lemma {:induction false} OddOnesFlip(b: seq<bool>, i: nat)
    requires i < |b|
    ensures OddOnes(b[i := !b[i]]) != OddOnes(b)
  {
    var f := b[i := !b[i]];
    var n := |b| - 1;
    if i == n {
      assert f[..n] == b[..n];
    } else {
      assert f[..n] == b[..n][i := !b[i]];
      OddOnesFlip(b[..n], i);
    }
  }

  /** No two words with correct parity differ in exactly one bit. */
  lemma {:induction false} ParityDetectsFlip(t: seq<bool>, i: nat)
    requires |t| == 10 && i < 10 && ParityOkBits(t)
    ensures !ParityOkBits(t[i := !t[i]])
  {
    var f := t[i := !t[i]];
    if i >= 2 {
      assert f[2..] == t[2..][i - 2 := !t[2..][i - 2]];
      OddOnesFlip(t[2..], i - 2);
    } else {
      assert f[2..] == t[2..];
    }
  }

  // ----- Checksum -----

  /** The nine-bit checksum value with bit b9 set to NOT b8. */
  function FinishChecksum(checksum: nat): (c: Ten) {
    checksum % 512 + (if checksum / 256 % 2 == 0 then 512 else 0)
  }

  function Sum(us: seq<Ten>): nat {
    if us == [] then 0 else Sum(us[..|us| - 1]) + us[|us| - 1]
  }

  lemma {:induction false} SumSnoc(us: seq<Ten>, u: Ten)
    ensures Sum(us + [u]) == Sum(us) + u
  {
    assert (us + [u])[..|us|] == us;
  }

  lemma {:induction false} SumBound(us: seq<Ten>)
    ensures Sum(us) <= 1023 * |us|
  {
    if us != [] {
      SumBound(us[..|us| - 1]);
    }
  }

  /** Finishing a finished checksum changes nothing, so a checksum split across two words is consistent. */
  lemma {:induction false} FinishIdempotent(c: nat)
    ensures FinishChecksum(FinishChecksum(c)) == FinishChecksum(c)
    ensures FinishChecksum(c) % 512 == c % 512
    ensures (FinishChecksum(c) / 512 == 1) != (FinishChecksum(c) / 256 % 2 == 1)
  {
  }

  // ----- Packets and their dense stream -----

  /** An ancillary data packet whose user data are 10-bit words. The data count is |data|. */
  datatype Packet = Packet(
    colorDifference: bool, line: Eleven, horizontalOffset: Twelve,
    validStreamNumber: bool, streamNumber: Seven,
    did: Byte, sdid: Byte, data: seq<Ten>)
  {
    predicate Valid() { |data| <= MAX_DATA_COUNT }
  }

  /** Number of 32-bit words of a packet: 62 header bits, ten bits per user data word and ten for the checksum. */
  function PacketSize(dataCount: nat): (size: nat)
    ensures 32 * (size - 1) < 62 + 10 * dataCount + 10 <= 32 * size
    ensures size >= 3
  {
    (62 + 10 * dataCount + 10 + 31) / 32
  }

  /** First header word: C, line number, horizontal offset, S and stream number. */
  function HeadBits(p: Packet): (b: seq<bool>)
    ensures |b| == 32
  {
    [p.colorDifference] + Bits(p.line, 11) + Bits(p.horizontalOffset, 12) + [p.validStreamNumber] + Bits(p.streamNumber, 7)
  }

  /** Consecutive 10-bit words. */
  function TenBits(us: seq<Ten>): (b: seq<bool>)
    ensures |b| == 10 * |us|
  {
    if us == [] then [] else TenBits(us[..|us| - 1]) + Bits(us[|us| - 1], 10)
  }

  /** DID, SDID, data count and user data words: everything the checksum covers. */
  function Covered(p: Packet): (us: seq<Ten>)
    requires p.Valid()
    ensures |us| == 3 + |p.data|
  {
    [WithParityBits(p.did), WithParityBits(p.sdid), WithParityBits(|p.data|)] + p.data
  }

  function Checksum(p: Packet): Ten
    requires p.Valid()
  {
    FinishChecksum(Sum(Covered(p)))
  }

  /** The packet without padding. */
  function PacketBits(p: Packet): (b: seq<bool>)
    requires p.Valid()
    ensures |b| == 72 + 10 * |p.data|
  {
    HeadBits(p) + TenBits(Covered(p) + [Checksum(p)])
  }

  /** The packet padded with zero bits to a whole number of 32-bit words. */
  function Stream(p: Packet): (b: seq<bool>)
    requires p.Valid()
    ensures |b| == 32 * PacketSize(|p.data|)
  {
    PacketBits(p) + Zeros(32 * PacketSize(|p.data|) - |PacketBits(p)|)
  }

  function EncodePacket(p: Packet): (ws: seq<Word>)
    requires p.Valid()
    ensures |ws| == PacketSize(|p.data|)
  {
    WholeWords(PacketSize(|p.data|));
    PackWords(Stream(p))
  }

  // ----- Reading a dense stream -----

  /** The i-th 10-bit word after the first header word. */
  function TenAt(s: seq<bool>, i: nat): Ten
    requires 42 + 10 * i <= |s|
  {
    BitsOfNum(s[32 + 10 * i..42 + 10 * i]);
    Pow2Values();
    Num(s[32 + 10 * i..42 + 10 * i])
  }

  lemma {:induction false} TenIs(s: seq<bool>, i: nat)
    requires 42 + 10 * i <= |s|
    ensures TenAt(s, i) == Num(s[32 + 10 * i..42 + 10 * i])
  {
  }

  /** The data count field of a packet that starts the stream. */
  function CountAt(s: seq<bool>): Byte
    requires |s| >= 62
  {
    TenAt(s, 2) % 256
  }

  /** The stream holds a whole packet, padding included. */
  predicate Holds(s: seq<bool>) {
    |s| >= 62 && 32 * PacketSize(CountAt(s)) <= |s|
  }

  function TensFrom(s: seq<bool>, i: nat, n: nat): (us: seq<Ten>)
    requires 32 + 10 * i + 10 * n <= |s|
    ensures |us| == n
    ensures forall k :: 0 <= k < n ==> us[k] == TenAt(s, i + k)
  {
    if n == 0 then [] else TensFrom(s, i, n - 1) + [TenAt(s, i + n - 1)]
  }

  function NumFrom(s: seq<bool>, i: nat, j: nat): (v: nat)
    requires i <= j <= |s|
    ensures v < Pow2(j - i)
  {
    BitsOfNum(s[i..j]);
    Num(s[i..j])
  }

  /** The packet a dense stream denotes. */
  function PacketAt(s: seq<bool>): (p: Packet)
    requires Holds(s)
    ensures p.Valid()
  {
    Pow2Values();
    Packet(s[0], NumFrom(s, 1, 12), NumFrom(s, 12, 24), s[24], NumFrom(s, 25, 32),
           TenAt(s, 0) % 256, TenAt(s, 1) % 256, TensFrom(s, 3, CountAt(s)))
  }

  function One(b: bool): nat {
    if b then 1 else 0
  }

  /** Number of parity errors among DID, SDID and data count. */
  function HeaderParityErrors(s: seq<bool>): nat
    requires |s| >= 62
  {
    One(!ParityOk(TenAt(s, 0))) + One(!ParityOk(TenAt(s, 1))) + One(!ParityOk(TenAt(s, 2)))
  }

  predicate ChecksumMatches(s: seq<bool>)
    requires Holds(s)
  {
    TenAt(s, 3 + CountAt(s)) == FinishChecksum(Sum(TensFrom(s, 0, 3 + CountAt(s))))
  }

  lemma {:induction false} TenBitsLast(us: seq<Ten>)
    requires us != []
    ensures TenBits(us) == TenBits(us[..|us| - 1]) + Bits(us[|us| - 1], 10)
  {
    hide Bits;
  }

  lemma {:induction false} TenBitsAt(us: seq<Ten>, i: nat)
    requires i < |us|
    ensures TenBits(us)[10 * i..10 * i + 10] == Bits(us[i], 10)
  {
    hide Bits, TenBits;
    var n := |us| - 1;
    TenBitsLast(us);
    if i < n {
      TenBitsAt(us[..n], i);
      SliceLeft(TenBits(us[..n]), Bits(us[n], 10), 10 * i, 10 * i + 10);
    } else {
      SliceRight(TenBits(us[..n]), Bits(us[n], 10), 10 * i, 10 * i + 10);
    }
  }

  /** The bits of consecutive 10-bit words are determined by reading the words back. */
  lemma {:induction false} TenBitsOfSlices(s: seq<bool>, n: nat)
    requires 32 + 10 * n <= |s|
    ensures TenBits(TensFrom(s, 0, n)) == s[32..32 + 10 * n]
  {
    hide Bits, TenAt, TensFrom, TenBits;
    if n == 0 {
      NoTensFrom(s);
    } else {
      TenBitsOfSlices(s, n - 1);
      TensFromLast(s, n);
      TenBitsSnoc(TensFrom(s, 0, n - 1), TenAt(s, n - 1));
      BitsOfTen(s, n - 1);
      Join(s, 32, 22 + 10 * n, 32 + 10 * n);
    }
  }

  lemma {:induction false} NoTensFrom(s: seq<bool>)
    requires 32 <= |s|
    ensures TensFrom(s, 0, 0) == [] && TenBits([]) == []
  {
  }

  lemma {:induction false} TensFromLast(s: seq<bool>, n: nat)
    requires n > 0 && 32 + 10 * n <= |s|
    ensures TensFrom(s, 0, n) == TensFrom(s, 0, n - 1) + [TenAt(s, n - 1)]
  {
    hide TenAt;
  }

  lemma {:induction false} BitsOfTen(s: seq<bool>, i: nat)
    requires 42 + 10 * i <= |s|
    ensures Bits(TenAt(s, i), 10) == s[32 + 10 * i..42 + 10 * i]
  {
    hide Bits, Num;
    BitsOfNum(s[32 + 10 * i..42 + 10 * i]);
  }

  lemma {:induction false} TenBitsSnoc(us: seq<Ten>, u: Ten)
    ensures TenBits(us + [u]) == TenBits(us) + Bits(u, 10)
  {
    hide Bits;
    assert (us + [u])[..|us|] == us;
  }

  // ----- The stream format is lossless -----

  lemma {:induction false} TenAtOfStream(p: Packet, tail: seq<bool>, i: nat)
    requires p.Valid() && i < 4 + |p.data|
    ensures TenAt(PacketBits(p) + tail, i) == (Covered(p) + [Checksum(p)])[i]
  {
    hide Bits, Num, TenBits, Covered, Checksum, HeadBits, Pow2;
    var us := Covered(p) + [Checksum(p)];
    TenBitsAt(us, i);
    assert PacketBits(p) + tail == HeadBits(p) + (TenBits(us) + tail);
    SliceRight(HeadBits(p), TenBits(us) + tail, 32 + 10 * i, 42 + 10 * i);
    SliceLeft(TenBits(us), tail, 10 * i, 10 * i + 10);
    Pow2Values();
    NumOfBits(us[i], 10);
  }

  lemma {:induction false} HeadFields(p: Packet)
    ensures var h := HeadBits(p);
            h[0] == p.colorDifference && h[1..12] == Bits(p.line, 11) && h[12..24] == Bits(p.horizontalOffset, 12)
            && h[24] == p.validStreamNumber && h[25..32] == Bits(p.streamNumber, 7)
  {
  }

  lemma {:induction false} HeadAtOfStream(p: Packet, s: seq<bool>)
    requires |s| >= 32 && s[..32] == HeadBits(p)
    ensures s[0] == p.colorDifference && s[24] == p.validStreamNumber
    ensures NumFrom(s, 1, 12) == p.line && NumFrom(s, 12, 24) == p.horizontalOffset && NumFrom(s, 25, 32) == p.streamNumber
  {
    HeadFields(p);
    Pow2Values();
    assert s[..32][0] == s[0] && s[..32][24] == s[24];
    assert s[1..12] == s[..32][1..12];
    assert s[12..24] == s[..32][12..24];
    assert s[25..32] == s[..32][25..32];
    NumOfBits(p.line, 11);
    NumOfBits(p.horizontalOffset, 12);
    NumOfBits(p.streamNumber, 7);
  }

  lemma {:induction false} HeadOfFields(s: seq<bool>, p: Packet)
    requires |s| >= 32
    requires p.line == NumFrom(s, 1, 12) && p.horizontalOffset == NumFrom(s, 12, 24) && p.streamNumber == NumFrom(s, 25, 32)
    requires p.colorDifference == s[0] && p.validStreamNumber == s[24]
    ensures HeadBits(p) == s[..32]
  {
    hide Bits, Num;
    BitsOfNum(s[1..12]);
    BitsOfNum(s[12..24]);
    BitsOfNum(s[25..32]);
    Join(s, 0, 1, 12);
    Join(s, 0, 12, 24);
    Join(s, 0, 24, 25);
    Join(s, 0, 25, 32);
    assert s[0..1] == [s[0]] && s[24..25] == [s[24]] && s[..32] == s[0..32];
  }

  /** Reading the stream of a packet, whatever follows its checksum, gives the packet and finds no error. */
  lemma {:induction false} ReadBack(p: Packet, tail: seq<bool>)
    requires p.Valid() && |PacketBits(p) + tail| >= 32 * PacketSize(|p.data|)
    ensures var s := PacketBits(p) + tail;
            Holds(s) && PacketAt(s) == p && HeaderParityErrors(s) == 0 && ChecksumMatches(s)
  {
    hide Bits, TenBits, PacketSize, TenAt, HeadBits, Checksum, NumFrom, Covered, ChecksumMatches, HeaderParityErrors;
    var s := PacketBits(p) + tail;
    var us := Covered(p) + [Checksum(p)];
    forall i: nat | i < |us|
      ensures TenAt(s, i) == us[i]
    {
      TenAtOfStream(p, tail, i);
    }
    ReadTens(p, s);
    assert s[..32] == HeadBits(p);
    HeadAtOfStream(p, s);
  }

  lemma {:induction false} ReadTens(p: Packet, s: seq<bool>)
    requires p.Valid() && |s| >= 72 + 10 * |p.data| && |s| >= 32 * PacketSize(|p.data|)
    requires forall i: nat :: i < 4 + |p.data| ==> TenAt(s, i) == (Covered(p) + [Checksum(p)])[i]
    ensures Holds(s) && TenAt(s, 0) % 256 == p.did && TenAt(s, 1) % 256 == p.sdid && CountAt(s) == |p.data|
    ensures HeaderParityErrors(s) == 0 && ChecksumMatches(s) && TensFrom(s, 3, |p.data|) == p.data
  {
    hide TenAt, WithParityBits, ParityOk, FinishChecksum, Sum, PacketSize, TensFrom;
    WithParityIsOk(p.did);
    WithParityIsOk(p.sdid);
    WithParityIsOk(|p.data|);
    var us := Covered(p) + [Checksum(p)];
    assert TenAt(s, 0) == us[0] && TenAt(s, 1) == us[1] && TenAt(s, 2) == us[2];
    assert us[3..3 + |p.data|] == p.data && us[0..3 + |p.data|] == Covered(p);
    TensFromIs(s, us, 3, |p.data|);
    TensFromIs(s, us, 0, 3 + |p.data|);
  }

  lemma {:induction false} TensFromIs(s: seq<bool>, us: seq<Ten>, i: nat, n: nat)
    requires i + n <= |us| && 32 + 10 * |us| <= |s|
    requires forall k: nat :: k < |us| ==> TenAt(s, k) == us[k]
    ensures TensFrom(s, i, n) == us[i..i + n]
  {
    hide TenAt;
  }

  /** Canonical form: a stream that shows no error is exactly the stream of the packet it denotes,
      up to the padding. */
  lemma {:induction false} Canonical(s: seq<bool>)
    requires Holds(s) && HeaderParityErrors(s) == 0 && ChecksumMatches(s)
    ensures PacketBits(PacketAt(s)) == s[..72 + 10 * CountAt(s)]
  {
    hide Bits, Num, Parity8, FinishChecksum, TenBits, Sum, PacketSize;
    var p := PacketAt(s);
    var n: nat := CountAt(s);
    HeadOfFields(s, p);
    ParityOkIsOnBits(TenAt(s, 0));
    ParityOkIsOnBits(TenAt(s, 1));
    ParityOkIsOnBits(TenAt(s, 2));
    assert Covered(p) == TensFrom(s, 0, 3 + n);
    assert Covered(p) + [Checksum(p)] == TensFrom(s, 0, 4 + n);
    TenBitsOfSlices(s, 4 + n);
  }
}
