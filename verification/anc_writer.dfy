/** The five-phase packet writer: four 10-bit words at a time, one of them usually split across two
    32-bit words, and the running checksum emitted as if it were one more user data word. */
module AncWriter {
  import opened BitString
  import opened AncPacket

  type U16 = x: int | 0 <= x < 0x1_0000

  /** The packet structure of the source: four spare entries follow the 255 user data words. */
  class AncillaryDataPacket {
    var isColorDifferenceChannel: bool
    var lineNumber: Eleven
    var horizontalOffset: Twelve
    var isValidSourceStreamNumber: bool
    var sourceStreamNumber: Seven
    var did: Byte
    var sdid: Byte
    var dataCount: Byte
    const userData: array<U16>

    constructor ()
      ensures fresh(this) && fresh(userData) && userData.Length == 255 + 4
      ensures forall i :: 0 <= i < userData.Length ==> userData[i] == 0
      ensures dataCount == 0
    {
      isColorDifferenceChannel, lineNumber, horizontalOffset := false, 0, 0;
      isValidSourceStreamNumber, sourceStreamNumber := false, 0;
      did, sdid, dataCount := 0, 0, 0;
      userData := new U16[255 + 4](_ => 0);
    }

    /** What the writer asserts of its input: the words it emits are 10-bit values. */
    predicate Valid()
      reads this, userData
    {
      userData.Length == 255 + 4 && userData[0] < 1024 && forall i :: 0 <= i < dataCount ==> userData[i] < 1024
    }

    ghost function Value(): (p: Packet)
      requires Valid()
      reads this, userData
      ensures p.Valid()
    {
      Packet(isColorDifferenceChannel, lineNumber, horizontalOffset, isValidSourceStreamNumber, sourceStreamNumber,
             did, sdid, userData[..dataCount])
    }
  }

  // ----- The stream with an endless zero tail, cut at any word -----

  /** The k-th word after the data count: user data, then the checksum, then zeros. */
  function Ext(p: Packet, k: nat): Ten
    requires p.Valid()
  {
    if k < |p.data| then p.data[k] else if k == |p.data| then Checksum(p) else 0
  }

  function Tens(p: Packet, k: nat): (us: seq<Ten>)
    requires p.Valid()
    ensures |us| == 3 + k
  {
    if k == 0 then [WithParityBits(p.did), WithParityBits(p.sdid), WithParityBits(|p.data|)]
    else Tens(p, k - 1) + [Ext(p, k - 1)]
  }

  /** The c leading bits of a 10-bit word. */
  function Lead(u: Ten, c: nat): (v: nat)
    requires c <= 10
  {
    NonNegative(u, Pow2(10 - c));
    u / Pow2(10 - c)
  }

  /** The other 10 - c bits. */
  function Rest(u: Ten, c: nat): (v: nat)
    requires c <= 10
    ensures v < Pow2(10 - c)
  {
    u % Pow2(10 - c)
  }

  lemma {:induction false} NonNegative(u: nat, d: nat)
    requires d > 0
    ensures u / d >= 0
  {
  }

  /** The stream up to k whole words after the data count and the c leading bits of the next one. */
  function Written(p: Packet, k: nat, c: nat): (b: seq<bool>)
    requires p.Valid() && c <= 10
    ensures |b| == 62 + 10 * k + c
  {
    HeadBits(p) + TenBits(Tens(p, k)) + Bits(Lead(Ext(p, k), c), c)
  }

  /** The values `next_udw` takes at the top of the loop, modulo 16. */
  predicate AtPhase(k: nat) {
    k % 16 == 0 || k % 16 == 3 || k % 16 == 6 || k % 16 == 9 || k % 16 == 13
  }

  /** How many leading bits of word k the previous 32-bit word already holds. */
  function Carry(k: nat): (c: nat)
    requires AtPhase(k)
    ensures c <= 8
  {
    match k % 16
    case 0 => 2
    case 3 => 4
    case 6 => 6
    case 9 => 8
    case _ => 0
  }

  function NextPhase(k: nat): (n: nat)
    requires AtPhase(k)
    ensures AtPhase(n) && k < n
    ensures 10 * n + Carry(n) == 10 * k + Carry(k) + 32
  {
    if k % 16 == 9 then k + 4 else k + 3
  }

  lemma {:induction false} TensIsCovered(p: Packet, k: nat)
    requires p.Valid() && k <= |p.data|
    ensures Tens(p, k) == Covered(p)[..3 + k]
  {
    if k != 0 {
      TensIsCovered(p, k - 1);
    }
  }

  lemma {:induction false} SumTensStep(p: Packet, k: nat)
    requires p.Valid()
    ensures Sum(Tens(p, k + 1)) == Sum(Tens(p, k)) + Ext(p, k)
  {
    SumSnoc(Tens(p, k), Ext(p, k));
  }

  lemma {:induction false} TenBitsStep(p: Packet, k: nat)
    requires p.Valid()
    ensures TenBits(Tens(p, k + 1)) == TenBits(Tens(p, k)) + Bits(Ext(p, k), 10)
  {
    var us := Tens(p, k + 1);
    assert us[..|us| - 1] == Tens(p, k);
  }

  /** A 10-bit word is its c leading bits followed by the others. */
  lemma {:induction false} SplitTen(u: Ten, c: nat)
    requires c <= 10
    ensures Bits(u, 10) == Bits(Lead(u, c), c) + Bits(Rest(u, c), 10 - c)
  {
    DivMod(u, Pow2(10 - c));
    SplitAt(u, Lead(u, c), Rest(u, c), c);
  }

  lemma {:induction false} SplitAt(u: Ten, q: nat, r: nat, c: nat)
    requires c <= 10 && u == q * Pow2(10 - c) + r && r < Pow2(10 - c)
    ensures Bits(u, 10) == Bits(q, c) + Bits(r, 10 - c)
  {
    BitsConcat(q, c, r, 10 - c);
  }

  lemma {:induction false} DivMod(u: nat, d: nat)
    requires d > 0
    ensures u == u / d * d + u % d && u % d < d
  {
  }

  /** Writing one 32-bit word that holds the rest of word k, two whole words and c + 2 bits of the next
      advances the stream by that word. */
  lemma {:induction false} WriteStep(p: Packet, k: nat, c: nat, w: Word)
    requires p.Valid() && c <= 8
    requires Bits(w, 32) == Bits(Rest(Ext(p, k), c), 10 - c) + Bits(Ext(p, k + 1), 10)
                            + Bits(Ext(p, k + 2), 10) + Bits(Lead(Ext(p, k + 3), c + 2), c + 2)
    ensures Written(p, k, c) + Bits(w, 32) == Written(p, k + 3, c + 2)
  {
    hide Bits, HeadBits, TenBits, Tens, Ext, Lead, Rest;
    SplitTen(Ext(p, k), c);
    TenBitsStep(p, k);
    TenBitsStep(p, k + 1);
    TenBitsStep(p, k + 2);
  }

  /** A word whose ten bits have all been written is a whole word. */
  lemma {:induction false} WholeWord(p: Packet, k: nat)
    requires p.Valid()
    ensures Written(p, k, 10) == Written(p, k + 1, 0)
  {
    hide Bits, HeadBits, TenBits, Tens, Ext, Lead;
    TenBitsStep(p, k);
    LeadIs(Ext(p, k), 10, 1);
    assert Bits(Lead(Ext(p, k + 1), 0), 0) == [];
  }

  /** Past the checksum only zero bits are written. */
  lemma {:induction false} TensPastEnd(p: Packet, k: nat)
    requires p.Valid() && k > |p.data|
    ensures TenBits(Tens(p, k)) == TenBits(Covered(p) + [Checksum(p)]) + Zeros(10 * (k - |p.data| - 1))
  {
    hide Bits, TenBits, Checksum, Parity8;
    if k == |p.data| + 1 {
      TensIsCovered(p, |p.data|);
      assert Covered(p)[..3 + |p.data|] == Covered(p);
      assert Tens(p, k) == Covered(p) + [Checksum(p)];
    } else {
      TenBitsStep(p, k - 1);
      TensPastEnd(p, k - 1);
      ZeroBits(10);
      assert Zeros(10 * (k - 1 - |p.data| - 1)) + Zeros(10) == Zeros(10 * (k - |p.data| - 1));
    }
  }

  lemma {:induction false} ZeroBits(n: nat)
    ensures Bits(0, n) == Zeros(n)
  {
    if n != 0 {
      ZeroBits(n - 1);
      assert Zeros(n - 1) + [false] == Zeros(n);
    }
  }

  /** At the first phase boundary past the checksum, the words written are the padded stream. */
  lemma {:induction false} WrittenIsStream(p: Packet, before: nat, k: nat)
    requires p.Valid() && AtPhase(before) && before <= |p.data| && k == NextPhase(before) && k > |p.data|
    ensures Written(p, k, Carry(k)) == Stream(p)
  {
    hide Bits, TenBits, Tens, Checksum, Covered, HeadBits, PacketSize, Pow2, Lead, Rest;
    TensPastEnd(p, k);
    var c := Carry(k);
    ZeroBits(c);
    LeadIs(0, c, Pow2(10 - c));
    ZeroDiv(Pow2(10 - c));
    var pad := 10 * (k - |p.data| - 1);
    assert Zeros(pad) + Zeros(c) == Zeros(pad + c);
    PhaseIsWordAligned(before);
    PhaseIsWordAligned(k);
    UniqueSize(PacketSize(|p.data|), (62 + 10 * k + c) / 32, 72 + 10 * |p.data|);
  }

  lemma {:induction false} ZeroDiv(d: nat)
    requires d > 0
    ensures 0 / d == 0
  {
  }

  lemma {:induction false} UniqueSize(m: nat, n: nat, b: nat)
    requires 32 * (m - 1) < b <= 32 * m && 32 * (n - 1) < b <= 32 * n
    ensures m == n
  {
  }

  lemma {:induction false} PhaseIsWordAligned(k: nat)
    requires AtPhase(k)
    ensures (62 + 10 * k + Carry(k)) % 32 == 0
  {
  }

  /** The 32-bit word of each phase, as the bit-field structures of the source lay it out: the rest of
      the word a whose leading bits are already out, the words b and c, and the leading bits of d. */
  function UdwsWord(phase: nat, a: Ten, b: Ten, c: Ten, d: Ten): (w: Word)
  {
    match phase
    case 0 => ((a % 0x100 * 0x400 + b) * 0x400 + c) * 0x10 + d / 0x40
    case 3 => ((a % 0x40 * 0x400 + b) * 0x400 + c) * 0x40 + d / 0x10
    case 6 => ((a % 0x10 * 0x400 + b) * 0x400 + c) * 0x100 + d / 4
    case 9 => ((a % 4 * 0x400 + b) * 0x400 + c) * 0x400 + d
    case _ => ((a * 0x400 + b) * 0x400 + c) * 4 + d / 0x100
  }

  /** Four numbers side by side; ii, jj and nn are the powers of two of the widths i, j and n. */
  lemma {:induction false} PackFour(a: nat, m: nat, b: nat, i: nat, ii: nat, c: nat, j: nat, jj: nat, d: nat, n: nat, nn: nat)
    requires ii == Pow2(i) && jj == Pow2(j) && nn == Pow2(n)
    requires b < ii && c < jj && d < nn
    ensures Bits(((a * ii + b) * jj + c) * nn + d, m + i + j + n)
            == Bits(a, m) + Bits(b, i) + Bits(c, j) + Bits(d, n)
  {
    hide Bits, Pow2;
    BitsConcat(a, m, b, i);
    BitsConcat(a * ii + b, m + i, c, j);
    BitsConcat((a * ii + b) * jj + c, m + i + j, d, n);
  }

  lemma {:induction false} UdwsWordBits(k: nat, a: Ten, b: Ten, c: Ten, d: Ten)
    requires AtPhase(k)
    ensures var r := Carry(k);
            Bits(UdwsWord(k % 16, a, b, c, d), 32)
            == Bits(Rest(a, r), 10 - r) + Bits(b, 10) + Bits(c, 10) + Bits(Lead(d, r + 2), r + 2)
  {
    hide Bits, Lead, Rest, UdwsWord;
    match k % 16
    case 0 => Phase0Bits(a, b, c, d);
    case 3 => Phase3Bits(a, b, c, d);
    case 6 => Phase6Bits(a, b, c, d);
    case 9 => Phase9Bits(a, b, c, d);
    case _ => Phase13Bits(a, b, c, d);
  }

  lemma {:induction false} Phase0Bits(a: Ten, b: Ten, c: Ten, d: Ten)
    ensures Bits(UdwsWord(0, a, b, c, d), 32)
            == Bits(Rest(a, 2), 8) + Bits(b, 10) + Bits(c, 10) + Bits(Lead(d, 4), 4)
  {
    hide Bits, Pow2, Lead, Rest;
    Pow2Values();
    RestIs(a, 2, 0x100);
    LeadIs(d, 4, 0x40);
    PackFour(a % 0x100, 8, b, 10, 0x400, c, 10, 0x400, d / 0x40, 4, 0x10);
  }

  lemma {:induction false} Phase3Bits(a: Ten, b: Ten, c: Ten, d: Ten)
    ensures Bits(UdwsWord(3, a, b, c, d), 32)
            == Bits(Rest(a, 4), 6) + Bits(b, 10) + Bits(c, 10) + Bits(Lead(d, 6), 6)
  {
    hide Bits, Pow2, Lead, Rest;
    Pow2Values();
    RestIs(a, 4, 0x40);
    LeadIs(d, 6, 0x10);
    PackFour(a % 0x40, 6, b, 10, 0x400, c, 10, 0x400, d / 0x10, 6, 0x40);
  }

  lemma {:induction false} Phase6Bits(a: Ten, b: Ten, c: Ten, d: Ten)
    ensures Bits(UdwsWord(6, a, b, c, d), 32)
            == Bits(Rest(a, 6), 4) + Bits(b, 10) + Bits(c, 10) + Bits(Lead(d, 8), 8)
  {
    hide Bits, Pow2, Lead, Rest;
    Pow2Values();
    RestIs(a, 6, 0x10);
    LeadIs(d, 8, 4);
    PackFour(a % 0x10, 4, b, 10, 0x400, c, 10, 0x400, d / 4, 8, 0x100);
  }

  lemma {:induction false} Phase9Bits(a: Ten, b: Ten, c: Ten, d: Ten)
    ensures Bits(UdwsWord(9, a, b, c, d), 32)
            == Bits(Rest(a, 8), 2) + Bits(b, 10) + Bits(c, 10) + Bits(Lead(d, 10), 10)
  {
    hide Bits, Pow2, Lead, Rest;
    Pow2Values();
    RestIs(a, 8, 4);
    LeadIs(d, 10, 1);
    PackFour(a % 4, 2, b, 10, 0x400, c, 10, 0x400, d, 10, 0x400);
  }

  lemma {:induction false} Phase13Bits(a: Ten, b: Ten, c: Ten, d: Ten)
    ensures Bits(UdwsWord(13, a, b, c, d), 32)
            == Bits(Rest(a, 0), 10) + Bits(b, 10) + Bits(c, 10) + Bits(Lead(d, 2), 2)
  {
    hide Bits, Pow2, Lead, Rest;
    Pow2Values();
    RestIs(a, 0, 0x400);
    LeadIs(d, 2, 0x100);
    PackFour(a, 10, b, 10, 0x400, c, 10, 0x400, d / 0x100, 2, 4);
  }

  lemma {:induction false} RestIs(u: Ten, c: nat, d: nat)
    requires c <= 10 && d == Pow2(10 - c)
    ensures Rest(u, c) == u % d
  {
  }

  lemma {:induction false} LeadIs(u: Ten, c: nat, d: nat)
    requires c <= 10 && d == Pow2(10 - c)
    ensures Lead(u, c) == u / d
  {
  }

  // ----- The running checksum -----

  /** What the running checksum holds when word k is next: the sum so far and, once the checksum itself
      is next, a value that finishes to the checksum word (it may already be finished). */
  ghost predicate ChecksumState(p: Packet, k: nat, checksum: nat)
    requires p.Valid()
  {
    && (k < |p.data| ==> checksum == Sum(Tens(p, k)))
    && (k == |p.data| ==> FinishChecksum(checksum) == Checksum(p))
  }

  lemma {:induction false} ChecksumAdvances(p: Packet, k: nat, checksum: nat)
    requires p.Valid() && k < |p.data| && checksum == Sum(Tens(p, k))
    ensures ChecksumState(p, k + 1, checksum + p.data[k])
  {
    hide Sum, FinishChecksum, Parity8;
    SumTensStep(p, k);
    if k + 1 == |p.data| {
      TensIsCovered(p, k + 1);
      assert Covered(p)[..3 + |p.data|] == Covered(p);
    }
  }

  method ChecksumUdw(nextUdw: nat, addCs: bool, packet: AncillaryDataPacket, checksum: Word)
    returns (value: Ten, newChecksum: Word)
    requires packet.Valid() && ChecksumState(packet.Value(), nextUdw, checksum)
    ensures value == Ext(packet.Value(), nextUdw)
    ensures ChecksumState(packet.Value(), if addCs then nextUdw + 1 else nextUdw, newChecksum)
  {
    ghost var p := packet.Value();
    value, newChecksum := 0, checksum;
    if nextUdw < packet.dataCount {
      value := packet.userData[nextUdw];
      if addCs {
        SumBound(Tens(p, nextUdw));
        ChecksumAdvances(p, nextUdw, checksum);
        newChecksum := checksum + value;
      }
    }
    if nextUdw == packet.dataCount {
      value := FinishChecksum(newChecksum);
      FinishIdempotent(newChecksum);
      newChecksum := value;
    }
  }

  // ----- The writer -----

  method WriteNextUdws(buf: array<Word>, at: nat, nextUdw: nat, packet: AncillaryDataPacket, checksum: Word)
    returns (next: nat, newChecksum: Word)
    requires packet.Valid() && at < buf.Length && AtPhase(nextUdw) && nextUdw <= MAX_DATA_COUNT
    requires ChecksumState(packet.Value(), nextUdw, checksum)
    modifies buf
    ensures next == NextPhase(nextUdw)
    ensures ChecksumState(packet.Value(), next, newChecksum)
    ensures Written(packet.Value(), nextUdw, Carry(nextUdw)) + Bits(buf[at], 32)
            == Written(packet.Value(), next, Carry(next))
    ensures forall i :: 0 <= i < buf.Length && i != at ==> buf[i] == old(buf[i])
  {
    hide Written, UdwsWord, ChecksumState, Ext, Bits, Carry;
    ghost var p := packet.Value();
    var a, b, c, d;
    newChecksum := checksum;
    next := nextUdw;
    a, newChecksum := ChecksumUdw(next, true, packet, newChecksum);
    next := next + 1;
    b, newChecksum := ChecksumUdw(next, true, packet, newChecksum);
    next := next + 1;
    c, newChecksum := ChecksumUdw(next, true, packet, newChecksum);
    next := next + 1;
    if nextUdw % 16 == 9 {
      d, newChecksum := ChecksumUdw(next, true, packet, newChecksum);
      next := next + 1;
    } else {
      d, newChecksum := ChecksumUdw(next, false, packet, newChecksum);
    }
    buf[at] := UdwsWord(nextUdw % 16, a, b, c, d);
    WordWritten(p, nextUdw, buf[at]);
  }

  /** The word of each phase takes the stream to the next phase. */
  lemma {:induction false} WordWritten(p: Packet, k: nat, w: Word)
    requires p.Valid() && AtPhase(k) && w == UdwsWord(k % 16, Ext(p, k), Ext(p, k + 1), Ext(p, k + 2), Ext(p, k + 3))
    ensures Written(p, k, Carry(k)) + Bits(w, 32) == Written(p, NextPhase(k), Carry(NextPhase(k)))
  {
    hide Written, UdwsWord, Ext, Bits, Lead, Rest;
    UdwsWordBits(k, Ext(p, k), Ext(p, k + 1), Ext(p, k + 2), Ext(p, k + 3));
    WriteStep(p, k, Carry(k), w);
    if k % 16 == 9 {
      WholeWord(p, k + 3);
    }
  }

  /** The two header words: the second one also holds the two leading bits of the first user data word,
      or of the checksum when there is no user data. */
  method WriteAncillaryDataPacketHeader(buf: array<Word>, base: nat, packet: AncillaryDataPacket)
    returns (checksum: Word)
    requires packet.Valid() && base + 2 <= buf.Length
    modifies buf
    ensures ChecksumState(packet.Value(), 0, checksum)
    ensures WordBits(buf[base..base + 2]) == Written(packet.Value(), 0, 2)
    ensures forall i :: 0 <= i < buf.Length && !(base <= i < base + 2) ==> buf[i] == old(buf[i])
  {
    hide Bits, HeaderWord, HeadBits, Written, WordBits, TenBits, Sum, WithParityBits, Lead;
    ghost var p := packet.Value();
    var did: nat := WithParityBits(packet.did);
    var sdid: nat := WithParityBits(packet.sdid);
    var dataCount: nat := WithParityBits(packet.dataCount);
    var udw0 := packet.userData[0] / 0x100;
    checksum := did + sdid + dataCount;
    HeaderSum(p);
    if packet.dataCount == 0 {
      udw0 := FinishChecksum(checksum) / 0x100;
    }
    assert Pow2(8) == 0x100;
    LeadIs(Ext(p, 0), 2, 0x100);
    assert udw0 == Lead(Ext(p, 0), 2);
    buf[base] := HeaderWord(packet.isColorDifferenceChannel, packet.lineNumber, packet.horizontalOffset,
                            packet.isValidSourceStreamNumber, packet.sourceStreamNumber);
    buf[base + 1] := SecondWord(did, sdid, dataCount, udw0);
    HeaderWordBits(p);
    SecondWordBits(p, buf[base + 1]);
    TwoWords(buf[base], buf[base + 1]);
    assert buf[base..base + 2] == [buf[base], buf[base + 1]];
  }

  lemma {:induction false} TwoWords(v: Word, w: Word)
    ensures WordBits([v, w]) == Bits(v, 32) + Bits(w, 32)
  {
    hide Bits;
    assert [v, w] == [v] + [w];
    WordBitsConcat([v], [w]);
    WordBitsOne(v);
    WordBitsOne(w);
  }

  function SecondWord(did: Ten, sdid: Ten, dataCount: Ten, udw0: nat): (w: Word)
    requires udw0 < 4
  {
    ((did * 0x400 + sdid) * 0x400 + dataCount) * 4 + udw0
  }

  function HeaderWord(c: bool, line: Eleven, offset: Twelve, s: bool, stream: Seven): (w: Word) {
    (((One(c) * 0x800 + line) * 0x1000 + offset) * 2 + One(s)) * 0x80 + stream
  }

  lemma {:induction false} HeaderWordBits(p: Packet)
    ensures Bits(HeaderWord(p.colorDifference, p.line, p.horizontalOffset, p.validStreamNumber, p.streamNumber), 32)
            == HeadBits(p)
  {
    hide Bits, Pow2;
    Pow2Values();
    PackFour(One(p.colorDifference), 1, p.line, 11, 0x800, p.horizontalOffset, 12, 0x1000, One(p.validStreamNumber), 1, 2);
    var upper := ((One(p.colorDifference) * 0x800 + p.line) * 0x1000 + p.horizontalOffset) * 2 + One(p.validStreamNumber);
    BitsConcat(upper, 25, p.streamNumber, 7);
    OneBit(p.colorDifference);
    OneBit(p.validStreamNumber);
  }

  lemma {:induction false} OneBit(b: bool)
    ensures Bits(One(b), 1) == [b]
  {
    assert Bits(One(b), 1) == Bits(0, 0) + [b];
  }

  lemma {:induction false} SecondWordBits(p: Packet, w: Word)
    requires p.Valid()
    requires Lead(Ext(p, 0), 2) < 4
    requires w == SecondWord(WithParityBits(p.did), WithParityBits(p.sdid), WithParityBits(|p.data|), Lead(Ext(p, 0), 2))
    ensures HeadBits(p) + Bits(w, 32) == Written(p, 0, 2)
  {
    hide Bits, Pow2, Lead, HeadBits, WithParityBits;
    Pow2Values();
    PackFour(WithParityBits(p.did), 10, WithParityBits(p.sdid), 10, 0x400, WithParityBits(|p.data|), 10, 0x400,
             Lead(Ext(p, 0), 2), 2, 4);
    ThreeTens(WithParityBits(p.did), WithParityBits(p.sdid), WithParityBits(|p.data|));
  }

  lemma {:induction false} ThreeTens(a: Ten, b: Ten, c: Ten)
    ensures TenBits([a, b, c]) == Bits(a, 10) + Bits(b, 10) + Bits(c, 10)
    ensures Sum([a, b, c]) == a + b + c
  {
    hide Bits, TenBits, Sum;
    NoTens();
    assert [a, b, c] == [a, b] + [c] && [a, b] == [a] + [b] && [a] == [] + [a];
    TenBitsSnoc([a, b], c);
    TenBitsSnoc([a], b);
    TenBitsSnoc([], a);
    SumSnoc([a, b], c);
    SumSnoc([a], b);
    SumSnoc([], a);
  }

  lemma {:induction false} NoTens()
    ensures TenBits([]) == [] && Sum([]) == 0
  {
  }

  lemma {:induction false} HeaderSum(p: Packet)
    requires p.Valid()
    ensures ChecksumState(p, 0, WithParityBits(p.did) + WithParityBits(p.sdid) + WithParityBits(|p.data|))
  {
    hide Sum, WithParityBits;
    ThreeTens(WithParityBits(p.did), WithParityBits(p.sdid), WithParityBits(|p.data|));
    assert p.data == [] ==> Covered(p) == Tens(p, 0);
  }

  lemma {:induction false} CarryZero()
    ensures Carry(0) == 2
  {
  }

  /** While the checksum is still to be written, there is room for another word. */
  lemma {:induction false} PhaseStep(k: nat, n: nat, offset: nat)
    requires AtPhase(k) && k <= n && 32 * offset == 62 + 10 * k + Carry(k)
    ensures offset + 1 <= PacketSize(n)
    ensures NextPhase(k) <= k + 4
  {
    assert 32 * offset < 72 + 10 * n <= 32 * PacketSize(n);
  }

  /** Some words of a buffer are replaced, the others stay. */
  predicate Overwritten(before: seq<Word>, after: seq<Word>, at: nat, ws: seq<Word>) {
    at + |ws| <= |before| && after == before[..at] + ws + before[at + |ws|..]
  }

  /** The words written are exactly the packet's dense stream, zero padded to whole words. */
  method WriteAncillaryDataPacket(buf: array<Word>, base: nat, packet: AncillaryDataPacket) returns (size: nat)
    requires packet.Valid() && base + PacketSize(packet.dataCount) <= buf.Length
    modifies buf
    ensures size == PacketSize(packet.dataCount)
    ensures Overwritten(old(buf[..]), buf[..], base, EncodePacket(packet.Value()))
    ensures WordBits(EncodePacket(packet.Value())) == Stream(packet.Value())
  {
    hide Written, ChecksumState, PacketSize, WordBits, PackWords, Stream, Bits, Checksum, Carry, NextPhase;
    ghost var p := packet.Value();
    ghost var before: nat := 0;
    CarryZero();
    var checksum := WriteAncillaryDataPacketHeader(buf, base, packet);
    var nextUdw: nat := 0;
    var offset: nat := 2;
    while nextUdw <= packet.dataCount
      invariant AtPhase(nextUdw) && nextUdw <= MAX_DATA_COUNT + 4 && 32 * offset == 62 + 10 * nextUdw + Carry(nextUdw)
      invariant offset <= PacketSize(packet.dataCount)
      invariant ChecksumState(p, nextUdw, checksum)
      invariant WordBits(buf[base..base + offset]) == Written(p, nextUdw, Carry(nextUdw))
      invariant nextUdw > packet.dataCount ==>
                  AtPhase(before) && before <= packet.dataCount && nextUdw == NextPhase(before)
      invariant forall i :: 0 <= i < buf.Length && !(base <= i < base + offset) ==> buf[i] == old(buf[i])
      decreases MAX_DATA_COUNT + 4 - nextUdw
    {
      before := nextUdw;
      ghost var soFar := buf[base..base + offset];
      PhaseStep(nextUdw, packet.dataCount, offset);
      nextUdw, checksum := WriteNextUdws(buf, base + offset, nextUdw, packet, checksum);
      assert buf[base..base + offset] == soFar;
      assert buf[base..base + offset + 1] == soFar + [buf[base + offset]];
      WordBitsConcat(soFar, [buf[base + offset]]);
      WordBitsOne(buf[base + offset]);
      offset := offset + 1;
    }
    size := offset;
    WrittenIsStream(p, before, nextUdw);
    WordsAreEncoded(p, buf[base..base + size]);
    assert buf[..] == old(buf[..])[..base] + buf[base..base + size] + old(buf[..])[base + size..];
  }

  lemma {:induction false} WordsAreEncoded(p: Packet, ws: seq<Word>)
    requires p.Valid() && WordBits(ws) == Stream(p)
    ensures EncodePacket(p) == ws && |ws| == PacketSize(|p.data|)
  {
    hide Stream, WordBits, PackWords, PacketSize;
    assert |WordBits(ws)| == |Stream(p)|;
    PackOfWordBits(ws);
  }
}
