/** What the consumer of a payload is told about its packets and about errors, by positions in the bit stream. */
module AncErrors {
  import opened BitString
  import opened AncPacket
  import opened AncPayload
  import opened AncIntegrity
  import opened AncBitErrors
  import opened AncApi

  /** The stream from the first bit of a packet on, given where the packet was said to start. */
  function StreamAt(ws: seq<Word>, c: Call): seq<bool>
    requires c.PacketCall? && c.offset <= 4 * |ws|
  {
    WordBits(ws)[8 * c.offset..]
  }

  /** A call gives the packet that stands at its offset, with its size; a parity error exactly if DID, SDID or data count
      has wrong parity, and a checksum error exactly if the checksum does not match. */
  predicate Reports(ws: seq<Word>, kind: FieldKind, c: Call) {
    && c.PacketCall? && c.kind == kind && c.offset + c.size <= 4 * |ws|
    && var s := StreamAt(ws, c);
       && Holds(s) && c.size == 4 * PacketSize(CountAt(s)) && c.packet == ToPublic(PacketAt(s))
       && (c.parityError <==> !(ParityOk(TenAt(s, 0)) && ParityOk(TenAt(s, 1)) && ParityOk(TenAt(s, 2))))
       && (c.checksumError <==> !ChecksumMatches(s))
  }

  /** A user data word of the packet has wrong parity. */
  predicate BadData(ws: seq<Word>, kind: FieldKind, c: Call)
    requires Reports(ws, kind, c)
  {
    exists j :: 0 <= j < |c.packet.data| && BadWord(StreamAt(ws, c), j)
  }

  predicate BadWord(s: seq<bool>, j: nat)
    requires 72 + 10 * j <= |s|
  {
    !ParityOk(TenAt(s, 3 + j))
  }

  predicate AllReport(ws: seq<Word>, kind: FieldKind, cs: seq<Call>) {
    forall i :: 0 <= i < |cs| ==> Reports(ws, kind, cs[i])
  }

  /** The calls follow each other without a gap, from one offset to another. */
  predicate Tile(cs: seq<Call>, from: nat, to: nat) {
    if cs == [] then from == to
    else cs[0].PacketCall? && cs[0].offset == from && Tile(cs[1..], from + cs[0].size, to)
  }

  predicate SomeChecksum(cs: seq<Call>) {
    exists i :: 0 <= i < |cs| && cs[i].checksumError
  }

  predicate SomeParity(ws: seq<Word>, kind: FieldKind, cs: seq<Call>)
    requires AllReport(ws, kind, cs)
  {
    exists i :: 0 <= i < |cs| && (cs[i].parityError || BadData(ws, kind, cs[i]))
  }

  lemma {:induction false} FrontReports(kind: FieldKind, all: seq<Word>, offset: nat)
    requires offset <= |all| && FrontOf(kind, all[offset..], offset).Front?
    ensures var f := FrontOf(kind, all[offset..], offset);
            && f.call.PacketCall? && Reports(all, kind, f.call) && f.call.offset == 4 * offset && f.call.size == 4 * f.size
            && (f.checksumErrors != 0 <==> f.call.checksumError)
            && (f.parityErrors != 0 <==> f.call.parityError || BadData(all, kind, f.call))
  {
    hide ChecksumMatches, PacketAt, CountAt, Holds, TenAt, ParityOk, ParityErrorsIn, ToPublic, WordBits;
    var ws := all[offset..];
    var s := WordBits(ws);
    FrontHolds(kind, ws, offset);
    WordBitsSlice(all, offset, |all|);
    assert all[offset..|all|] == ws;
    assert WordBits(all)[32 * offset..32 * |all|] == WordBits(all)[32 * offset..];
    var c := FrontOf(kind, ws, offset).call;
    assert StreamAt(all, c) == s;
    DataParity(s);
    DataOf(s);
  }

  lemma {:induction false} FrontHolds(kind: FieldKind, ws: seq<Word>, offset: nat)
    requires FrontOf(kind, ws, offset).Front?
    ensures |ws| >= 2 && Holds(WordBits(ws)) && FrontOf(kind, ws, offset).size == PacketSize(CountAt(WordBits(ws)))
  {
    hide WordBits, HeaderParityErrors, ParityErrorsIn, PacketAt, ChecksumMatches, CountAt;
  }

  lemma {:induction false} DataOf(s: seq<bool>)
    requires Holds(s)
    ensures |ToPublic(PacketAt(s)).data| == CountAt(s) && 72 + 10 * CountAt(s) <= |s|
  {
    hide TenAt, CountAt;
  }

  lemma {:induction false} DataParity(s: seq<bool>)
    requires Holds(s)
    ensures 72 + 10 * CountAt(s) <= |s|
    ensures ParityErrorsIn(PacketAt(s).data) != 0 <==> exists j :: 0 <= j < CountAt(s) && BadWord(s, j)
  {
    hide TenAt, CountAt, ParityOk, NumFrom;
    var us := PacketAt(s).data;
    NoParityErrors(us);
    assert forall j :: 0 <= j < CountAt(s) ==> us[j] == TenAt(s, 3 + j) && BadWord(s, j) == !ParityOk(us[j]);
  }

  lemma {:induction false} AddedCalls(ws: seq<Word>, kind: FieldKind, c: Call, cs: seq<Call>)
    requires Reports(ws, kind, c) && AllReport(ws, kind, cs)
    ensures AllReport(ws, kind, [c] + cs)
    ensures SomeChecksum([c] + cs) <==> c.checksumError || SomeChecksum(cs)
    ensures SomeParity(ws, kind, [c] + cs) <==> c.parityError || BadData(ws, kind, c) || SomeParity(ws, kind, cs)
  {
    hide Reports, BadData;
    var all := [c] + cs;
    assert all[0] == c && forall i :: 0 <= i < |cs| ==> all[i + 1] == cs[i];
    assert forall i :: 0 < i < |all| ==> all[i] == cs[i - 1];
  }

  lemma {:induction false} DecodeReports(kind: FieldKind, all: seq<Word>, count: nat, offset: nat)
    requires offset <= |all| && Decode(kind, all[offset..], count, offset).Decoded?
    ensures var d := Decode(kind, all[offset..], count, offset);
            && |d.calls| == count && AllReport(all, kind, d.calls) && Tile(d.calls, 4 * offset, 4 * |all|)
            && (d.checksumErrors != 0 <==> SomeChecksum(d.calls))
            && (d.parityErrors != 0 <==> SomeParity(all, kind, d.calls))
    decreases count
  {
    hide FrontOf, Reports, BadData;
    var ws := all[offset..];
    if ws != [] && count != 0 {
      hide Decode;
      DecodeStep(kind, ws, count, offset);
      var f := FrontOf(kind, ws, offset);
      FrontReports(kind, all, offset);
      assert ws[f.size..] == all[offset + f.size..];
      DecodeReports(kind, all, count - 1, offset + f.size);
      var d := Decode(kind, all[offset + f.size..], count - 1, offset + f.size);
      AddedCalls(all, kind, f.call, d.calls);
      assert ([f.call] + d.calls)[1..] == d.calls;
    }
  }

  /** What the consumer is told about any payload that decodes: each packet as it stands in the stream, one behind the
      other from behind the header word to the end, and then the end of the payload, with a checksum error exactly if
      some packet had one, and a parity error exactly if some packet had one or a user data word has wrong parity. The
      status is an error exactly if one of these flags is set. */
  lemma {:induction false} CallsReport(ws: seq<Word>)
    requires ws != [] && UnpackStatus(ws) != InvalidPayload
    ensures var cs, kind := UnpackCalls(ws), PayloadKind(ws);
            && |cs| == CountOf(ws) + 1
            && var packets, end := cs[..|cs| - 1], cs[|cs| - 1];
               && AllReport(ws, kind, packets) && Tile(packets, 4, 4 * |ws|)
               && end.EndCall? && end.kind == kind
               && (end.checksumError <==> SomeChecksum(packets))
               && (end.parityError <==> SomeParity(ws, kind, packets))
               && UnpackStatus(ws) == (if end.parityError || end.checksumError then RxPayloadError else Ok)
  {
    hide Decode, Reports, BadData, Tile, SomeChecksum, SomeParity;
    DecodeReports(PayloadKind(ws), ws, CountOf(ws), 1);
    var d := DecodePayload(ws);
    var cs := UnpackCalls(ws);
    assert cs[..|cs| - 1] == d.calls;
  }

  /** The same for the bytes of any fragments: the consumer is called if and only if the status is no failure, and only
      fragments in the plural need memory. */
  lemma {:induction false} CallsMade(sgl: seq<seq<Byte>>, memoryAvailable: bool)
    ensures var rs, cs := UnpacketizeStatus(sgl, memoryAvailable), UnpacketizeCalls(sgl, memoryAvailable);
            if rs == Ok || rs == RxPayloadError then
              && |Flatten(sgl)| % 4 == 0 && |Flatten(sgl)| >= 4
              && UnpackStatus(WordsOf(Flatten(sgl))) == rs && UnpackCalls(WordsOf(Flatten(sgl))) == cs && cs != []
              && cs[|cs| - 1].EndCall? && (rs == Ok <==> !cs[|cs| - 1].parityError && !cs[|cs| - 1].checksumError)
            else cs == [] && rs in {AllocationFailed, InvalidParameter, InvalidPayload}
    ensures UnpacketizeStatus(sgl, memoryAvailable) == AllocationFailed <==> |sgl| != 1 && !memoryAvailable
  {
    hide Decode, Flatten, WordsOf, DecodePayload;
  }

  // ----- Fields and bytes as bits -----

  /** The two bits of the field kind, as section 2.1 of RFC 8331 has them for F. */
  function KindBits(kind: FieldKind): seq<bool> {
    match kind
    case Unspecified => [false, false]
    case Invalid => [false, true]
    case InterlacedFirst => [true, false]
    case InterlacedSecond => [true, true]
  }

  /** The header word: sixteen bits of the packet count, the field kind, and fourteen reserved zero bits. */
  lemma {:induction false} HeaderBits(kind: FieldKind, ps: seq<PublicPacket>)
    requires AllValid(ps)
    ensures WordBits(EncodePayload(kind, ps))[..32] == Bits(|ps| % 0x1_0000, 16) + KindBits(kind) + Bits(0, 14)
  {
    hide Bits, Pow2, EncodeAll, WordBits;
    var ws := EncodePayload(kind, ps);
    var w, q := PayloadHeader(|ps|, kind), 4 * (|ps| % 0x1_0000) + kind.Number();
    WordBitsAt(ws, 0);
    Pow2Values();
    BitsConcat(q, 18, 0, 14);
    BitsConcat(|ps| % 0x1_0000, 16, kind.Number(), 2);
    KindIs(kind);
  }

  lemma {:induction false} KindIs(kind: FieldKind)
    ensures Bits(kind.Number(), 2) == KindBits(kind)
  {
    TwoBits(kind.Number());
  }

  /** The bits of bytes, in their order. */
  function ByteBits(bytes: seq<Byte>): (b: seq<bool>)
    ensures |b| == 8 * |bytes|
  {
    if bytes == [] then [] else Bits(bytes[0], 8) + ByteBits(bytes[1..])
  }

  lemma {:induction false} BigEndianBits(a: Byte, b: Byte, c: Byte, d: Byte)
    ensures Bits(BigEndian(a, b, c, d), 32) == Bits(a, 8) + Bits(b, 8) + Bits(c, 8) + Bits(d, 8)
  {
    hide Bits, Pow2;
    Pow2Values();
    BitsConcat((a * 0x100 + b) * 0x100 + c, 24, d, 8);
    BitsConcat(a * 0x100 + b, 16, c, 8);
    BitsConcat(a, 8, b, 8);
  }

  lemma {:induction false} FourBytes(bytes: seq<Byte>)
    requires |bytes| >= 4
    ensures ByteBits(bytes) == Bits(bytes[0], 8) + Bits(bytes[1], 8) + Bits(bytes[2], 8) + Bits(bytes[3], 8) + ByteBits(bytes[4..])
  {
    hide Bits;
    var t := bytes[1..];
    assert t[1..] == bytes[2..] && bytes[2..][1..] == bytes[3..] && bytes[3..][1..] == bytes[4..];
    assert ByteBits(bytes[3..]) == Bits(bytes[3], 8) + ByteBits(bytes[4..]);
    assert ByteBits(bytes[2..]) == Bits(bytes[2], 8) + ByteBits(bytes[3..]);
    assert ByteBits(t) == Bits(bytes[1], 8) + ByteBits(bytes[2..]);
  }

  /** Network order: the bits of the words are the bits of the bytes, one after the other. */
  lemma {:induction false} NetworkOrder(bytes: seq<Byte>)
    requires |bytes| % 4 == 0
    ensures WordBits(WordsOf(bytes)) == ByteBits(bytes)
  {
    hide Bits, BigEndian, WordBits, ByteBits;
    if bytes == [] {
      NoBytes();
    } else {
      var w, rest := BigEndian(bytes[0], bytes[1], bytes[2], bytes[3]), bytes[4..];
      NetworkOrder(rest);
      BigEndianBits(bytes[0], bytes[1], bytes[2], bytes[3]);
      FourBytes(bytes);
      WordBitsConcat([w], WordsOf(rest));
      WordBitsOne(w);
    }
  }

  lemma {:induction false} NoBytes()
    ensures WordBits([]) == [] && ByteBits([]) == []
  {
  }

  /** The same for the bytes that are sent. */
  lemma {:induction false} BytesInOrder(ws: seq<Word>)
    ensures ByteBits(BytesOf(ws)) == WordBits(ws)
  {
    WordsOfBytes(ws);
    NetworkOrder(BytesOf(ws));
  }

  // ----- Single-bit errors, with their flags -----

  lemma {:induction false} FlipNum(b: seq<bool>, j: nat)
    requires j < |b|
    ensures Num(Flip(b, j)) == if b[j] then Num(b) - Pow2(|b| - 1 - j) else Num(b) + Pow2(|b| - 1 - j)
  {
    var f, n := Flip(b, j), |b| - 1;
    if j == n {
      assert f[..n] == b[..n];
    } else {
      assert f[..n] == Flip(b[..n], j);
      FlipNum(b[..n], j);
      assert Pow2(n - j) == 2 * Pow2(n - 1 - j);
    }
  }

  lemma {:induction false} FlippedWord(u: Ten, v: Ten, j: nat)
    requires j < 10 && Bits(v, 10) == Flip(Bits(u, 10), j)
    ensures v == u + Pow2(9 - j) || v == u - Pow2(9 - j)
  {
    hide Bits, Num, Flip, Pow2;
    Pow2Values();
    NumOfBits(u, 10);
    NumOfBits(v, 10);
    FlipNum(Bits(u, 10), j);
  }

  lemma {:induction false} SumOfUpdated(us: seq<Ten>, vs: seq<Ten>, i: nat)
    requires |us| == |vs| && i < |us| && forall k :: 0 <= k < |us| && k != i ==> vs[k] == us[k]
    ensures Sum(vs) == Sum(us) - us[i] + vs[i]
  {
    var n := |us| - 1;
    if i == n {
      assert us[..n] == vs[..n];
    } else {
      SumOfUpdated(us[..n], vs[..n], i);
    }
  }

  /** A finished checksum has the low nine bits of the sum, so it changes exactly if these do. */
  lemma {:induction false} FinishChanges(a: nat, b: nat, j: nat)
    requires j < 10 && (b == a + Pow2(9 - j) || b == a - Pow2(9 - j))
    ensures FinishChecksum(a) == FinishChecksum(b) <==> j == 0
  {
    hide FinishChecksum, Pow2;
    SmallPowers(j);
    FinishedIs(a, b);
    if j == 0 {
      WholeTurn(a, b);
    } else {
      NotMultiple(a, b, Pow2(9 - j));
    }
  }

  lemma {:induction false} WholeTurn(a: nat, b: nat)
    requires b == a + 512 || b == a - 512
    ensures a % 512 == b % 512
  {
  }

  lemma {:induction false} SmallPowers(j: nat)
    requires j < 10
    ensures if j == 0 then Pow2(9 - j) == 512 else 1 <= Pow2(9 - j) <= 256
  {
    assert Pow2(9) == 512 && Pow2(8) == 256 && Pow2(7) == 128 && Pow2(6) == 64 && Pow2(5) == 32;
    assert Pow2(4) == 16 && Pow2(3) == 8 && Pow2(2) == 4 && Pow2(1) == 2 && Pow2(0) == 1;
  }

  lemma {:induction false} FinishedIs(a: nat, b: nat)
    ensures FinishChecksum(a) == FinishChecksum(b) <==> a % 512 == b % 512
  {
    FinishIdempotent(a);
    FinishIdempotent(b);
    LowBit(a);
    LowBit(b);
  }

  lemma {:induction false} LowBit(a: nat)
    ensures a / 256 % 2 == a % 512 / 256
  {
    var q := a / 512;
    assert a == 512 * q + a % 512;
    assert a / 256 == 2 * q + a % 512 / 256;
  }

  lemma {:induction false} NotMultiple(a: nat, b: nat, d: nat)
    requires 1 <= d <= 256 && (b == a + d || b == a - d)
    ensures a % 512 != b % 512
  {
    assert a == 512 * (a / 512) + a % 512 && b == 512 * (b / 512) + b % 512;
  }

  /** A flip that leaves the data count alone: parity is wrong unless the flip is in the checksum word, and the checksum
      does not match unless the flip is in bit 9 of a word that it covers. */
  lemma {:induction false} FlippedFlags(s: seq<bool>, r: nat)
    requires Holds(s) && HeaderParityErrors(s) == 0 && ChecksumMatches(s) && ParityErrorsIn(PacketAt(s).data) == 0
    requires 32 <= r < 72 + 10 * CountAt(s) && r < |s| && (r - 32) / 10 != 2
    ensures var g, i, n := Flip(s, r), (r - 32) / 10, CountAt(s);
            && Holds(g) && CountAt(g) == n
            && (HeaderParityErrors(g) + ParityErrorsIn(PacketAt(g).data) != 0 <==> i != 3 + n)
            && (!ChecksumMatches(g) <==> i == 3 + n || (r - 32) % 10 != 0)
  {
    hide Holds, PacketAt, ParityErrorsIn, ChecksumMatches, HeaderParityErrors, CountAt, PacketSize, TenAt, Flip;
    var g, i := Flip(s, r), (r - 32) / 10;
    LongStream(s);
    FlippedTens(s, r, 2);
    CountFrom(s);
    CountFrom(g);
    HoldsAlike(s, g);
    FlippedParity(s, r);
    FlippedSum(s, r);
  }

  lemma {:induction false} HoldsAlike(s: seq<bool>, g: seq<bool>)
    requires Holds(s) && |g| == |s| && CountAt(g) == CountAt(s)
    ensures Holds(g)
  {
  }

  lemma {:induction false} FlippedParity(s: seq<bool>, r: nat)
    requires Holds(s) && HeaderParityErrors(s) == 0 && ParityErrorsIn(PacketAt(s).data) == 0
    requires 32 <= r < 72 + 10 * CountAt(s) && r < |s| && (r - 32) / 10 != 2
    requires Holds(Flip(s, r)) && CountAt(Flip(s, r)) == CountAt(s)
    ensures var g, i, n := Flip(s, r), (r - 32) / 10, CountAt(s);
            HeaderParityErrors(g) + ParityErrorsIn(PacketAt(g).data) != 0 <==> i != 3 + n
  {
    hide Holds, ParityErrorsIn, HeaderParityErrors, CountAt, PacketSize, TenAt, Flip, PacketAt;
    var g, i := Flip(s, r), (r - 32) / 10;
    LongStream(s);
    if i <= 2 {
      FlippedHeader(s, g, r);
    } else if i < 3 + CountAt(s) {
      FlippedTens(s, r, i);
      FlippedUserData(s, g, i - 3, (r - 32) % 10);
    } else {
      forall k: nat | k < 3 + CountAt(s)
        ensures TenAt(g, k) == TenAt(s, k)
      {
        FlippedTens(s, r, k);
      }
      SameParity(s, g);
    }
  }

  lemma {:induction false} SameParity(s: seq<bool>, g: seq<bool>)
    requires Holds(s) && Holds(g) && |g| == |s| && CountAt(g) == CountAt(s)
    requires 62 + 10 * CountAt(s) <= |s| && forall k: nat :: k < 3 + CountAt(s) ==> TenAt(g, k) == TenAt(s, k)
    ensures HeaderParityErrors(g) == HeaderParityErrors(s) && PacketAt(g).data == PacketAt(s).data
  {
    hide TenAt, ParityOk;
    SameTensFrom(s, g, 3 + CountAt(s), 3, CountAt(s));
  }

  lemma {:induction false} FlippedSum(s: seq<bool>, r: nat)
    requires Holds(s) && ChecksumMatches(s)
    requires 32 <= r < 72 + 10 * CountAt(s) && r < |s| && (r - 32) / 10 != 2
    requires Holds(Flip(s, r)) && CountAt(Flip(s, r)) == CountAt(s)
    ensures var g, i, n := Flip(s, r), (r - 32) / 10, CountAt(s);
            !ChecksumMatches(g) <==> i == 3 + n || (r - 32) % 10 != 0
  {
    hide TenAt, Flip, FinishChecksum, Sum, CountAt, Bits;
    var g, i, j := Flip(s, r), (r - 32) / 10, (r - 32) % 10;
    var n: nat := CountAt(s);
    LongStream(s);
    forall k: nat | k < 4 + n && k != i
      ensures TenAt(g, k) == TenAt(s, k)
    {
      FlippedTens(s, r, k);
    }
    FlippedTens(s, r, i);
    if i == 3 + n {
      FlippedChecksum(s, g, r);
    } else {
      var us, vs := TensFrom(s, 0, 3 + n), TensFrom(g, 0, 3 + n);
      SumOfUpdated(us, vs, i);
      FlippedWord(us[i], vs[i], j);
      FinishChanges(Sum(us), Sum(vs), j);
    }
  }

  /** The end of a payload that begins with good packets is told with the errors of what follows them. */
  lemma {:induction false} FlagsOfTail(kind: FieldKind, count: nat, ps: seq<PublicPacket>, rest: seq<Word>)
    requires AllValid(ps) && |ps| <= count <= 0xffff
    requires Decode(kind, rest, count - |ps|, 1 + Total(ps)).Decoded?
    ensures var d := Decode(kind, rest, count - |ps|, 1 + Total(ps));
            var ws := [PayloadHeader(count, kind)] + (EncodeAll(ps) + rest);
            && UnpackStatus(ws) == (if d.parityErrors != 0 || d.checksumErrors != 0 then RxPayloadError else Ok)
            && UnpackCalls(ws) != []
            && UnpackCalls(ws)[|UnpackCalls(ws)| - 1] == EndCall(kind, d.parityErrors != 0, d.checksumErrors != 0)
  {
    hide Decode, EncodeAll, Total, ExpectedCalls, PayloadHeader, CountOf, PayloadKind;
    var ws := [PayloadHeader(count, kind)] + (EncodeAll(ps) + rest);
    SameHeader(kind, count, ws);
    assert ws[1..] == EncodeAll(ps) + rest;
    EncodedPrefix(kind, ps, rest, count, 1);
  }

  lemma {:induction false} FlaggedFront(kind: FieldKind, p: PublicPacket, rest: seq<Word>, offset: nat, r: nat)
    requires p.Valid() && 32 <= r < 72 + 10 * |p.data| && (r - 32) / 10 != 2
    ensures r < 32 * |EncodePacket(ToInternal(p)) + rest|
    ensures var f := FrontOf(kind, FlipBit(EncodePacket(ToInternal(p)) + rest, r), offset);
            && f.Front? && f.size == PacketSize(|p.data|)
            && (f.parityErrors != 0 <==> (r - 32) / 10 != 3 + |p.data|)
            && (f.checksumErrors != 0 <==> (r - 32) / 10 == 3 + |p.data| || (r - 32) % 10 != 0)
  {
    hide EncodePacket, ToInternal, FlipBit, FrontOf, WordBits, PacketSize, Flip, Holds, HeaderParityErrors, ParityErrorsIn;
    hide PacketAt, ChecksumMatches, CountAt;
    var ws := EncodePacket(ToInternal(p)) + rest;
    EncodedSize(p);
    SizeHolds(|p.data|);
    EncodedReadBack(ToInternal(p), rest);
    PublicRoundTrip(p);
    CountsData(p);
    FlippedBits(ws, r);
    FlippedFlags(WordBits(ws), r);
    HoldsFront(kind, FlipBit(ws, r), offset);
    FrontIsStream(kind, FlipBit(ws, r), offset);
  }

  lemma {:induction false} CountsData(p: PublicPacket)
    requires p.Valid()
    ensures |ToInternal(p).data| == |p.data|
  {
  }

  lemma {:induction false} SizeHolds(n: nat)
    ensures 72 + 10 * n <= 32 * PacketSize(n) && PacketSize(n) >= 3
  {
  }

  lemma {:induction false} HoldsFront(kind: FieldKind, ws: seq<Word>, offset: nat)
    requires |ws| >= 2 && Holds(WordBits(ws))
    ensures FrontOf(kind, ws, offset).Front? && FrontOf(kind, ws, offset).size == PacketSize(CountAt(WordBits(ws)))
  {
    hide WordBits, HeaderParityErrors, ParityErrorsIn, PacketAt, ChecksumMatches, CountAt;
  }

  lemma {:induction false} FlaggedRest(kind: FieldKind, p: PublicPacket, rest: seq<Word>, count: nat, offset: nat, r: nat)
    requires p.Valid() && count >= 1 && 32 <= r < 72 + 10 * |p.data| && (r - 32) / 10 != 2
    requires Clean(Decode(kind, rest, count - 1, offset + PacketSize(|p.data|)))
    ensures r < 32 * |EncodePacket(ToInternal(p)) + rest|
    ensures var d := Decode(kind, FlipBit(EncodePacket(ToInternal(p)) + rest, r), count, offset);
            && d.Decoded? && (d.parityErrors != 0 <==> (r - 32) / 10 != 3 + |p.data|)
            && (d.checksumErrors != 0 <==> (r - 32) / 10 == 3 + |p.data| || (r - 32) % 10 != 0)
  {
    hide EncodePacket, ToInternal, FlipBit, FrontOf, Decode, FirstCount, WordBits, PacketSize;
    var first := EncodePacket(ToInternal(p));
    FlaggedFront(kind, p, rest, offset, r);
    EncodedSize(p);
    SizeHolds(|p.data|);
    FlipLeft(first, rest, r);
    DecodeStep(kind, FlipBit(first + rest, r), count, offset);
    assert (FlipBit(first, r) + rest)[PacketSize(|p.data|)..] == rest;
  }

  /** A single inverted bit in a packet, not in its data count: the payload is delivered, with an error status, and its end
      is told with a parity error unless the bit is in the checksum word, and with a checksum error unless the bit is the
      top bit of another word, which the nine-bit checksum does not cover. */
  lemma {:induction false} SingleBitFlags(kind: FieldKind, ps: seq<PublicPacket>, k: nat, r: nat)
    requires AllValid(ps) && |ps| <= 0xffff && k < |ps| && 32 <= r < 72 + 10 * |ps[k].data| && (r - 32) / 10 != 2
    ensures PacketStart(ps, k) + r < 32 * |EncodePayload(kind, ps)|
    ensures var ws := FlipBit(EncodePayload(kind, ps), PacketStart(ps, k) + r);
            var inChecksum, atTop := (r - 32) / 10 == 3 + |ps[k].data|, (r - 32) % 10 == 0;
            && UnpackStatus(ws) == RxPayloadError && UnpackCalls(ws) != []
            && UnpackCalls(ws)[|UnpackCalls(ws)| - 1] == EndCall(kind, !inChecksum, inChecksum || !atTop)
  {
    hide EncodePacket, ToInternal, FlipBit, PacketSize, PayloadHeader, Decode, EncodeAll, Total, DecodePayload, EncodePayload;
    SizeHolds(|ps[k].data|);
    FlippedPayload(kind, ps, k, r);
    EncodedSize(ps[k]);
    AllClean(kind, ps[k + 1..], 1 + Total(ps[..k]) + PacketSize(|ps[k].data|));
    FlaggedRest(kind, ps[k], EncodeAll(ps[k + 1..]), |ps| - k, 1 + Total(ps[..k]), r);
    FlagsOfTail(kind, |ps|, ps[..k], FlipBit(EncodePacket(ToInternal(ps[k])) + EncodeAll(ps[k + 1..]), r));
  }
}
