/** Ancillary data payloads: what a sequence of words denotes, and what the packetizer must write. */
module AncPayload {
  import opened BitString
  import opened AncPacket

  datatype FieldKind = Unspecified | Invalid | InterlacedFirst | InterlacedSecond
  {
    function Number(): (n: nat)
      ensures n < 4
    {
      match this
      case Unspecified => 0
      case Invalid => 1
      case InterlacedFirst => 2
      case InterlacedSecond => 3
    }
  }

  function KindOf(n: nat): FieldKind {
    match n
    case 0 => Unspecified
    case 1 => Invalid
    case 2 => InterlacedFirst
    case _ => InterlacedSecond
  }

  datatype Status = Ok | InvalidParameter | InvalidPayload | RxPayloadError | BufferOverflow | AllocationFailed

  /** A packet as the application sees it: eight bits per user data word. */
  datatype PublicPacket = PublicPacket(
    colorDifference: bool, line: Eleven, horizontalOffset: Twelve,
    validStreamNumber: bool, streamNumber: Seven,
    did: Byte, sdid: Byte, data: seq<Byte>)
  {
    predicate Valid() { |data| <= MAX_DATA_COUNT }
  }

  // ----- Between public and internal packets -----

  function AddParity(bytes: seq<Byte>): (us: seq<Ten>)
    ensures |us| == |bytes|
    ensures forall i :: 0 <= i < |bytes| ==> us[i] == WithParityBits(bytes[i])
  {
    if bytes == [] then [] else AddParity(bytes[..|bytes| - 1]) + [WithParityBits(bytes[|bytes| - 1])]
  }

  function StripParity(us: seq<Ten>): (bytes: seq<Byte>)
    ensures |bytes| == |us|
    ensures forall i :: 0 <= i < |us| ==> bytes[i] == us[i] % 256
  {
    if us == [] then [] else StripParity(us[..|us| - 1]) + [us[|us| - 1] % 256]
  }

  function ParityErrorsIn(us: seq<Ten>): nat {
    if us == [] then 0 else ParityErrorsIn(us[..|us| - 1]) + One(!ParityOk(us[|us| - 1]))
  }

  function ToInternal(p: PublicPacket): (q: Packet)
    requires p.Valid()
    ensures q.Valid()
  {
    Packet(p.colorDifference, p.line, p.horizontalOffset, p.validStreamNumber, p.streamNumber, p.did, p.sdid, AddParity(p.data))
  }

  function ToPublic(q: Packet): (p: PublicPacket)
    requires q.Valid()
    ensures p.Valid()
  {
    PublicPacket(q.colorDifference, q.line, q.horizontalOffset, q.validStreamNumber, q.streamNumber, q.did, q.sdid,
                 StripParity(q.data))
  }

  lemma {:induction false} NoParityErrors(us: seq<Ten>)
    ensures ParityErrorsIn(us) == 0 <==> forall i :: 0 <= i < |us| ==> ParityOk(us[i])
  {
    if us != [] {
      NoParityErrors(us[..|us| - 1]);
      assert forall i :: 0 <= i < |us| - 1 ==> us[..|us| - 1][i] == us[i];
    }
  }

  /** Adding parity bits and taking them off again is the identity, and finds no parity error. */
  lemma {:induction false} PublicRoundTrip(p: PublicPacket)
    requires p.Valid()
    ensures ToPublic(ToInternal(p)) == p
    ensures ParityErrorsIn(ToInternal(p).data) == 0
  {
    forall i | 0 <= i < |p.data|
      ensures ParityOk(AddParity(p.data)[i]) && AddParity(p.data)[i] % 256 == p.data[i]
    {
      WithParityIsOk(p.data[i]);
    }
    NoParityErrors(AddParity(p.data));
    assert StripParity(AddParity(p.data)) == p.data;
  }

  /** User data whose parity is right is determined by its low eight bits. */
  lemma {:induction false} InternalRoundTrip(q: Packet)
    requires q.Valid() && ParityErrorsIn(q.data) == 0
    ensures ToInternal(ToPublic(q)) == q
  {
    NoParityErrors(q.data);
    forall i | 0 <= i < |q.data|
      ensures AddParity(StripParity(q.data))[i] == q.data[i]
    {
      ParityOkIsOnBits(q.data[i]);
    }
    assert AddParity(StripParity(q.data)) == q.data;
  }

  // ----- What the packetizer writes -----

  function PayloadHeader(count: nat, kind: FieldKind): (w: Word)
  {
    count % 0x1_0000 * 0x1_0000 + kind.Number() * 0x4000
  }

  predicate AllValid(ps: seq<PublicPacket>) {
    forall i :: 0 <= i < |ps| ==> ps[i].Valid()
  }

  function EncodeAll(ps: seq<PublicPacket>): seq<Word>
    requires AllValid(ps)
  {
    if ps == [] then [] else EncodePacket(ToInternal(ps[0])) + EncodeAll(ps[1..])
  }

  /** A header word with the packet count (16 bits of it) and the field kind, then the packets. */
  function EncodePayload(kind: FieldKind, ps: seq<PublicPacket>): (ws: seq<Word>)
    requires AllValid(ps)
    ensures |ws| >= 1
  {
    [PayloadHeader(|ps|, kind)] + EncodeAll(ps)
  }

  lemma {:induction false} EncodeAllConcat(a: seq<PublicPacket>, b: seq<PublicPacket>)
    requires AllValid(a) && AllValid(b)
    ensures AllValid(a + b) && EncodeAll(a + b) == EncodeAll(a) + EncodeAll(b)
  {
    hide EncodePacket, ToInternal;
    if a == [] {
      assert a + b == b;
    } else {
      EncodeAllConcat(a[1..], b);
      assert (a + b)[1..] == a[1..] + b && (a + b)[0] == a[0];
      var first := EncodePacket(ToInternal(a[0]));
      assert first + (EncodeAll(a[1..]) + EncodeAll(b)) == first + EncodeAll(a[1..]) + EncodeAll(b);
    }
  }

  lemma {:induction false} EncodeAllSnoc(ps: seq<PublicPacket>, p: PublicPacket)
    requires AllValid(ps) && p.Valid()
    ensures AllValid(ps + [p]) && EncodeAll(ps + [p]) == EncodeAll(ps) + EncodePacket(ToInternal(p))
  {
    hide EncodePacket, ToInternal;
    EncodeAllConcat(ps, [p]);
    assert [p][1..] == [];
    assert EncodeAll([p]) == EncodePacket(ToInternal(p)) + [];
  }

  // ----- What a payload denotes -----

  /** Data count of the packet that starts at the first of these words. */
  function FirstCount(ws: seq<Word>): Byte
    requires |ws| >= 2
  {
    CountAt(WordBits(ws))
  }

  function FirstSize(ws: seq<Word>): (size: nat)
    requires |ws| >= 2
    ensures size >= 3
  {
    PacketSize(FirstCount(ws))
  }

  /** The words are exactly `count` packets, judging by their data counts. */
  predicate Walk(ws: seq<Word>, count: nat)
    decreases count
  {
    if ws == [] || count == 0 then ws == [] && count == 0
    else |ws| >= 2 && FirstSize(ws) <= |ws| && Walk(ws[FirstSize(ws)..], count - 1)
  }

  /** What the consumer callback receives. Offset and size are in bytes. */
  datatype Call =
    | PacketCall(kind: FieldKind, packet: PublicPacket, offset: nat, size: nat, parityError: bool, checksumError: bool)
    | EndCall(kind: FieldKind, parityError: bool, checksumError: bool)

  /** The packet at the front of a sequence of words: its size in words, its parity errors (header and user
      data) and checksum errors, and the call made for it. */
  datatype Front = NoPacket | Front(size: nat, parityErrors: nat, checksumErrors: nat, call: Call)

  function FrontOf(kind: FieldKind, ws: seq<Word>, offset: nat): (f: Front)
    ensures f.Front? ==> 3 <= f.size <= |ws|
  {
    if |ws| < 2 || FirstSize(ws) > |ws| then NoPacket else
      var s := WordBits(ws);
      assert Holds(s);
      var p := PacketAt(s);
      Front(FirstSize(ws), HeaderParityErrors(s) + ParityErrorsIn(p.data), One(!ChecksumMatches(s)),
            PacketCall(kind, ToPublic(p), 4 * offset, 4 * FirstSize(ws), HeaderParityErrors(s) != 0, !ChecksumMatches(s)))
  }

  /** Total errors and calls of a run of packets that fills the words exactly. */
  datatype Decoded = Broken | Decoded(parityErrors: nat, checksumErrors: nat, calls: seq<Call>)

  function Add(f: Front, d: Decoded): Decoded {
    if f.NoPacket? || d.Broken? then Broken
    else Decoded(f.parityErrors + d.parityErrors, f.checksumErrors + d.checksumErrors, [f.call] + d.calls)
  }

  function Decode(kind: FieldKind, ws: seq<Word>, count: nat, offset: nat): Decoded
    decreases count
  {
    if ws == [] || count == 0 then if ws == [] && count == 0 then Decoded(0, 0, []) else Broken
    else
      var f := FrontOf(kind, ws, offset);
      if f.NoPacket? then Broken else Add(f, Decode(kind, ws[f.size..], count - 1, offset + f.size))
  }

  lemma {:induction false} DecodeStep(kind: FieldKind, ws: seq<Word>, count: nat, offset: nat)
    requires ws != [] && count != 0
    ensures var f := FrontOf(kind, ws, offset);
            Decode(kind, ws, count, offset)
            == if f.NoPacket? then Broken else Add(f, Decode(kind, ws[f.size..], count - 1, offset + f.size))
  {
    hide FrontOf, Add;
  }

  lemma {:induction false} FrontSize(kind: FieldKind, ws: seq<Word>, offset: nat)
    ensures FrontOf(kind, ws, offset).Front? == (|ws| >= 2 && FirstSize(ws) <= |ws|)
    ensures FrontOf(kind, ws, offset).Front? ==> FrontOf(kind, ws, offset).size == FirstSize(ws)
  {
  }

  lemma {:induction false} DecodeIffWalk(kind: FieldKind, ws: seq<Word>, count: nat, offset: nat)
    ensures Decode(kind, ws, count, offset).Decoded? == Walk(ws, count)
  {
    hide FirstSize, FrontOf;
    if ws != [] && count != 0 {
      hide Decode;
      DecodeStep(kind, ws, count, offset);
      FrontSize(kind, ws, offset);
      if |ws| >= 2 && FirstSize(ws) <= |ws| {
        DecodeIffWalk(kind, ws[FirstSize(ws)..], count - 1, offset + FirstSize(ws));
      }
    }
  }

  function CountOf(ws: seq<Word>): nat
    requires ws != []
  {
    ws[0] / 0x1_0000
  }

  function PayloadKind(ws: seq<Word>): FieldKind
    requires ws != []
  {
    KindOf(ws[0] / 0x4000 % 4)
  }

  function DecodePayload(ws: seq<Word>): Decoded
    requires ws != []
  {
    Decode(PayloadKind(ws), ws[1..], CountOf(ws), 1)
  }

  function StatusOf(d: Decoded): Status {
    if d.Broken? then InvalidPayload
    else if d.parityErrors != 0 || d.checksumErrors != 0 then RxPayloadError
    else Ok
  }

  function UnpackStatus(ws: seq<Word>): Status
    requires ws != []
  {
    StatusOf(DecodePayload(ws))
  }

  function UnpackCalls(ws: seq<Word>): seq<Call>
    requires ws != []
  {
    var d := DecodePayload(ws);
    if d.Broken? then [] else d.calls + [EndCall(PayloadKind(ws), d.parityErrors != 0, d.checksumErrors != 0)]
  }

  // ----- Decoding what was encoded -----

  /** The calls a correct decoder makes for these packets, the first of which starts at word `offset`. */
  function ExpectedCalls(kind: FieldKind, ps: seq<PublicPacket>, offset: nat): seq<Call> {
    if ps == [] then [] else
      [PacketCall(kind, ps[0], 4 * offset, 4 * PacketSize(|ps[0].data|), false, false)]
      + ExpectedCalls(kind, ps[1..], offset + PacketSize(|ps[0].data|))
  }

  /** A written packet, followed by anything, is read back without error. */
  lemma {:induction false} EncodedReadBack(q: Packet, rest: seq<Word>)
    requires q.Valid()
    ensures var s := WordBits(EncodePacket(q) + rest);
            && Holds(s) && CountAt(s) == |q.data| && PacketAt(s) == q && HeaderParityErrors(s) == 0 && ChecksumMatches(s)
  {
    hide PacketBits, EncodePacket, PacketSize, Holds, PacketAt, HeaderParityErrors, ChecksumMatches, CountAt, WordBits;
    var ws := EncodePacket(q) + rest;
    WordBitsConcat(EncodePacket(q), rest);
    EncodedBits(q);
    var tail := Zeros(32 * PacketSize(|q.data|) - |PacketBits(q)|) + WordBits(rest);
    assert WordBits(ws) == PacketBits(q) + tail;
    ReadBack(q, tail);
    CountOfPacket(WordBits(ws));
  }

  lemma {:induction false} EncodedFront(kind: FieldKind, p: PublicPacket, rest: seq<Word>, offset: nat)
    requires p.Valid()
    ensures var ws := EncodePacket(ToInternal(p)) + rest;
            var size := PacketSize(|p.data|);
            && FrontOf(kind, ws, offset) == Front(size, 0, 0, PacketCall(kind, p, 4 * offset, 4 * size, false, false))
            && ws[size..] == rest
  {
    hide PacketBits, EncodePacket, PacketSize, Holds, PacketAt, HeaderParityErrors, ChecksumMatches, CountAt, WordBits;
    hide ToPublic, ParityErrorsIn, Stream;
    EncodedReadBack(ToInternal(p), rest);
    PublicRoundTrip(p);
  }

  lemma {:induction false} EncodedBits(q: Packet)
    requires q.Valid()
    ensures WordBits(EncodePacket(q)) == Stream(q)
  {
    WholeWords(PacketSize(|q.data|));
    WordBitsOfPack(Stream(q));
  }

  lemma {:induction false} CountOfPacket(s: seq<bool>)
    requires Holds(s)
    ensures |PacketAt(s).data| == CountAt(s)
  {
  }

  function Total(ps: seq<PublicPacket>): nat {
    if ps == [] then 0 else PacketSize(|ps[0].data|) + Total(ps[1..])
  }

  /** Packets at the front of a payload decode to themselves without error; the rest decodes as it would alone. */
  lemma {:induction false} EncodedPrefix(kind: FieldKind, ps: seq<PublicPacket>, rest: seq<Word>, count: nat, offset: nat)
    requires AllValid(ps) && count >= |ps|
    ensures Decode(kind, EncodeAll(ps) + rest, count, offset)
            == var d := Decode(kind, rest, count - |ps|, offset + Total(ps));
               if d.Broken? then Broken else d.(calls := ExpectedCalls(kind, ps, offset) + d.calls)
  {
    hide EncodePacket, ToInternal, FrontOf, PacketSize, Decode;
    if ps == [] {
      assert EncodeAll(ps) + rest == rest;
      var d := Decode(kind, rest, count, offset);
      assert d.Decoded? ==> [] + d.calls == d.calls;
    } else {
      var size := PacketSize(|ps[0].data|);
      assert EncodeAll(ps) + rest == EncodePacket(ToInternal(ps[0])) + (EncodeAll(ps[1..]) + rest);
      EncodedFront(kind, ps[0], EncodeAll(ps[1..]) + rest, offset);
      EncodedSize(ps[0]);
      DecodeStep(kind, EncodeAll(ps) + rest, count, offset);
      EncodedPrefix(kind, ps[1..], rest, count - 1, offset + size);
      var d := Decode(kind, rest, count - |ps|, offset + Total(ps));
      if d.Decoded? {
        assert ExpectedCalls(kind, ps, offset) + d.calls
               == ExpectedCalls(kind, ps, offset)[..1] + (ExpectedCalls(kind, ps[1..], offset + size) + d.calls);
      }
    }
  }

  lemma {:induction false} HeaderFields(kind: FieldKind, ps: seq<PublicPacket>)
    requires AllValid(ps)
    ensures CountOf(EncodePayload(kind, ps)) == |ps| % 0x1_0000 && PayloadKind(EncodePayload(kind, ps)) == kind
  {
    hide EncodeAll;
    HeaderDigits(|ps| % 0x1_0000, kind.Number());
    assert EncodePayload(kind, ps)[0] == PayloadHeader(|ps|, kind);
  }

  lemma {:induction false} HeaderDigits(count: nat, kind: nat)
    requires count < 0x1_0000 && kind < 4
    ensures var w := count * 0x1_0000 + kind * 0x4000;
            w / 0x1_0000 == count && w / 0x4000 % 4 == kind && w % 0x4000 == 0
  {
    var w := count * 0x1_0000 + kind * 0x4000;
    var q := 4 * count + kind;
    assert w == 0x4000 * q;
    assert w / 0x4000 == q && q / 4 == count && q % 4 == kind;
  }

  /** Payload round trip: what was packetized is delivered in order, unchanged, with the same field kind, no
      error flag and offsets and sizes that follow the header, then the end of the payload. */
  lemma {:induction false} RoundTrip(kind: FieldKind, ps: seq<PublicPacket>)
    requires AllValid(ps) && |ps| <= 0xffff
    ensures UnpackStatus(EncodePayload(kind, ps)) == Ok
    ensures UnpackCalls(EncodePayload(kind, ps)) == ExpectedCalls(kind, ps, 1) + [EndCall(kind, false, false)]
  {
    hide EncodePacket, ToInternal, Decode, CountOf, PayloadKind, PayloadHeader, EncodeAll, ExpectedCalls;
    var ws := EncodePayload(kind, ps);
    HeaderFields(kind, ps);
    assert |ps| % 0x1_0000 == |ps|;
    assert ws[1..] == EncodeAll(ps) + [];
    EncodedPrefix(kind, ps, [], |ps|, 1);
    DecodeNothing(kind, 1 + Total(ps));
    assert ExpectedCalls(kind, ps, 1) + [] == ExpectedCalls(kind, ps, 1);
  }

  lemma {:induction false} DecodeNothing(kind: FieldKind, offset: nat)
    ensures Decode(kind, [], 0, offset) == Decoded(0, 0, [])
  {
  }

  lemma {:induction false} SomethingEncoded(ps: seq<PublicPacket>)
    requires AllValid(ps) && ps != []
    ensures EncodeAll(ps) != []
  {
    EncodedSize(ps[0]);
  }

  lemma {:induction false} DecodeTooMuch(kind: FieldKind, ws: seq<Word>, offset: nat)
    requires ws != []
    ensures Decode(kind, ws, 0, offset) == Broken
  {
  }

  /** The packet count field has 16 bits: a payload decodes if and only if it has at most 65535 packets. */
  lemma {:induction false} RoundTripIff(kind: FieldKind, ps: seq<PublicPacket>)
    requires AllValid(ps)
    ensures UnpackStatus(EncodePayload(kind, ps)) == Ok <==> |ps| <= 0xffff
    ensures |ps| > 0xffff ==> UnpackStatus(EncodePayload(kind, ps)) == InvalidPayload
  {
    hide EncodePacket, ToInternal, CountOf, PayloadKind, PayloadHeader, ExpectedCalls, EncodeAll, Decode;
    if |ps| <= 0xffff {
      RoundTrip(kind, ps);
    } else {
      var ws := EncodePayload(kind, ps);
      var count := |ps| % 0x1_0000;
      HeaderFields(kind, ps);
      assert count < |ps|;
      assert ps == ps[..count] + ps[count..];
      EncodeAllConcat(ps[..count], ps[count..]);
      assert ws[1..] == EncodeAll(ps[..count]) + EncodeAll(ps[count..]);
      SomethingEncoded(ps[count..]);
      EncodedPrefix(kind, ps[..count], EncodeAll(ps[count..]), count, 1);
      DecodeTooMuch(kind, EncodeAll(ps[count..]), 1 + Total(ps[..count]));
    }
  }

  lemma {:induction false} EncodedSize(p: PublicPacket)
    requires p.Valid()
    ensures |EncodePacket(ToInternal(p))| == PacketSize(|p.data|)
  {
  }

  lemma {:induction false} TotalIsLength(ps: seq<PublicPacket>)
    requires AllValid(ps)
    ensures |EncodeAll(ps)| == Total(ps)
  {
    hide EncodePacket, ToInternal, PacketSize;
    if ps != [] {
      EncodedSize(ps[0]);
      TotalIsLength(ps[1..]);
    }
  }

  /** One call per packet, each starting where the previous one ends. */
  predicate Tiles(cs: seq<Call>, ps: seq<PublicPacket>) {
    && |cs| == |ps|
    && (forall i :: 0 <= i < |cs| ==> cs[i].PacketCall? && cs[i].packet == ps[i])
    && (forall i :: 0 <= i < |cs| - 1 ==> cs[i].offset + cs[i].size == cs[i + 1].offset)
  }

  lemma {:induction false} TileCons(c: Call, cs: seq<Call>, p: PublicPacket, ps: seq<PublicPacket>)
    requires c.PacketCall? && c.packet == p && Tiles(cs, ps) && (cs != [] ==> c.offset + c.size == cs[0].offset)
    ensures Tiles([c] + cs, [p] + ps)
  {
    var ds, qs := [c] + cs, [p] + ps;
    forall i | 0 <= i < |ds|
      ensures ds[i].PacketCall? && ds[i].packet == qs[i]
    {
      if i > 0 {
        assert ds[i] == cs[i - 1] && qs[i] == ps[i - 1];
      }
    }
    forall i | 0 <= i < |ds| - 1
      ensures ds[i].offset + ds[i].size == ds[i + 1].offset
    {
      if i > 0 {
        assert ds[i] == cs[i - 1] && ds[i + 1] == cs[i - 1 + 1];
      }
    }
  }

  /** Offsets and sizes tile the payload: each packet starts where the previous one ends, the first one after
      the header word, and the last one ends with the payload. */
  lemma {:induction false} CallsTile(kind: FieldKind, ps: seq<PublicPacket>, offset: nat)
    requires ps != []
    ensures Tiles(ExpectedCalls(kind, ps, offset), ps)
    ensures var cs := ExpectedCalls(kind, ps, offset);
            && cs[0].PacketCall? && cs[|cs| - 1].PacketCall?
            && cs[0].offset == 4 * offset
            && cs[|cs| - 1].offset + cs[|cs| - 1].size == 4 * (offset + Total(ps))
  {
    hide PacketSize, Tiles;
    var size := PacketSize(|ps[0].data|);
    var first := PacketCall(kind, ps[0], 4 * offset, 4 * size, false, false);
    var rest := ExpectedCalls(kind, ps[1..], offset + size);
    assert ExpectedCalls(kind, ps, offset) == [first] + rest && ps == [ps[0]] + ps[1..];
    if ps[1..] == [] {
      TilesNone();
    } else {
      CallsTile(kind, ps[1..], offset + size);
      TilesLength(rest, ps[1..]);
    }
    TileCons(first, rest, ps[0], ps[1..]);
  }

  lemma {:induction false} TilesNone()
    ensures Tiles([], [])
  {
  }

  lemma {:induction false} TilesLength(cs: seq<Call>, ps: seq<PublicPacket>)
    requires Tiles(cs, ps)
    ensures |cs| == |ps| && forall i :: 0 <= i < |cs| ==> cs[i].PacketCall?
  {
  }
}
