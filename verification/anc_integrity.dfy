/** What an error-free payload must look like, and which corruptions are always noticed. */
module AncIntegrity {
  import opened BitString
  import opened AncPacket
  import opened AncPayload

  // ----- Canonical form -----

  /** The bits between the checksum and the next 32-bit boundary. */
  function PadOf(s: seq<bool>): seq<bool>
    requires Holds(s)
  {
    s[72 + 10 * CountAt(s)..32 * PacketSize(CountAt(s))]
  }

  predicate ZeroPad(s: seq<bool>)
    requires Holds(s)
  {
    PadOf(s) == Zeros(|PadOf(s)|)
  }

  /** The bits between the checksum and the next 32-bit boundary are zero, in every packet. */
  predicate ZeroPadding(ws: seq<Word>, count: nat)
    decreases count
  {
    |ws| >= 2 && count != 0 && Holds(WordBits(ws)) ==>
      ZeroPad(WordBits(ws)) && ZeroPadding(ws[FirstSize(ws)..], count - 1)
  }

  function PacketsOf(calls: seq<Call>): seq<PublicPacket> {
    if calls == [] then [] else
      (if calls[0].PacketCall? then [calls[0].packet] else []) + PacketsOf(calls[1..])
  }

  /** A packet read without error and followed by zero padding is what the writer would have written. */
  lemma {:induction false} StreamIsEncoded(s: seq<bool>)
    requires Holds(s) && HeaderParityErrors(s) == 0 && ChecksumMatches(s)
    requires ZeroPad(s)
    ensures Stream(PacketAt(s)) == s[..32 * PacketSize(CountAt(s))]
  {
    hide PacketAt, PacketBits, ChecksumMatches, HeaderParityErrors, Holds, PacketSize, CountAt, Stream;
    Canonical(s);
    CountOfPacket(s);
    SplitPad(s);
    StreamFromParts(PacketAt(s), s[..32 * PacketSize(CountAt(s))]);
  }

  lemma {:induction false} SplitPad(s: seq<bool>)
    requires Holds(s)
    ensures 72 + 10 * CountAt(s) <= 32 * PacketSize(CountAt(s)) <= |s|
    ensures var t := s[..32 * PacketSize(CountAt(s))];
            t[..72 + 10 * CountAt(s)] == s[..72 + 10 * CountAt(s)] && t[72 + 10 * CountAt(s)..] == PadOf(s)
  {
    hide CountAt, PacketSize;
  }

  lemma {:induction false} FrontIsEncoded(kind: FieldKind, ws: seq<Word>, offset: nat)
    requires |ws| >= 2 && FrontOf(kind, ws, offset).Front? && Holds(WordBits(ws))
    requires FrontOf(kind, ws, offset).parityErrors == 0 && FrontOf(kind, ws, offset).checksumErrors == 0
    requires ZeroPad(WordBits(ws))
    ensures FrontOf(kind, ws, offset).call.PacketCall?
    ensures var p := FrontOf(kind, ws, offset).call.packet;
            p.Valid() && EncodePacket(ToInternal(p)) == ws[..FirstSize(ws)]
  {
    FrontPacket(kind, ws, offset);
    hide WordBits, PacketAt, Stream, ChecksumMatches, HeaderParityErrors, ParityErrorsIn, ToPublic, ToInternal, PacketSize;
    hide FrontOf, PackWords;
    FrontIsStream(kind, ws, offset);
    var s := WordBits(ws);
    StreamIsEncoded(s);
    PackPrefix(ws, FirstSize(ws));
    InternalRoundTrip(PacketAt(s));
  }

  lemma {:induction false} FrontPacket(kind: FieldKind, ws: seq<Word>, offset: nat)
    requires FrontOf(kind, ws, offset).Front?
    ensures |ws| >= 2 && Holds(WordBits(ws))
    ensures FrontOf(kind, ws, offset).call.PacketCall?
    ensures FrontOf(kind, ws, offset).call.packet == ToPublic(PacketAt(WordBits(ws)))
  {
    hide WordBits, HeaderParityErrors, ParityErrorsIn, PacketAt, ChecksumMatches, ToPublic;
  }

  lemma {:induction false} PackPrefix(ws: seq<Word>, n: nat)
    requires n <= |ws|
    ensures 32 * n % 32 == 0 && PackWords(WordBits(ws)[..32 * n]) == ws[..n]
  {
    WholeWords(n);
    hide WordBits, PackWords;
    WordBitsSlice(ws, 0, n);
    assert ws[0..n] == ws[..n] && WordBits(ws)[32 * 0..32 * n] == WordBits(ws)[..32 * n];
    PackOfWordBits(ws[..n]);
  }

  lemma {:induction false} StreamFromParts(q: Packet, t: seq<bool>)
    requires q.Valid() && |t| == 32 * PacketSize(|q.data|)
    requires t[..72 + 10 * |q.data|] == PacketBits(q)
    requires t[72 + 10 * |q.data|..] == Zeros(|t| - 72 - 10 * |q.data|)
    ensures Stream(q) == t
  {
    hide PacketBits, PacketSize;
    assert t == t[..72 + 10 * |q.data|] + t[72 + 10 * |q.data|..];
  }

  /** The packets of these calls encode to exactly these words. */
  predicate Reproduces(calls: seq<Call>, ws: seq<Word>, count: nat) {
    AllValid(PacketsOf(calls)) && |PacketsOf(calls)| == count && EncodeAll(PacketsOf(calls)) == ws
  }

  predicate Clean(d: Decoded) {
    d.Decoded? && d.parityErrors == 0 && d.checksumErrors == 0
  }

  lemma {:induction false} CanonicalRun(kind: FieldKind, ws: seq<Word>, count: nat, offset: nat)
    requires Clean(Decode(kind, ws, count, offset)) && ZeroPadding(ws, count)
    ensures Reproduces(Decode(kind, ws, count, offset).calls, ws, count)
  {
    hide FrontOf, EncodePacket, ToInternal, Decode, ZeroPadding, Reproduces, EncodeAll, PacketsOf;
    if ws == [] || count == 0 {
      NothingDecoded(kind, ws, count, offset);
    } else {
      var f := FrontOf(kind, ws, offset);
      CanonicalFront(kind, ws, count, offset);
      var d := Decode(kind, ws[f.size..], count - 1, offset + f.size);
      CanonicalRun(kind, ws[f.size..], count - 1, offset + f.size);
      ReproducesCons(f.call, d.calls, ws, f.size, count);
      DecodeStep(kind, ws, count, offset);
    }
  }

  lemma {:induction false} CanonicalFront(kind: FieldKind, ws: seq<Word>, count: nat, offset: nat)
    requires ws != [] && count != 0
    requires Clean(Decode(kind, ws, count, offset)) && ZeroPadding(ws, count)
    ensures FrontOf(kind, ws, offset).Front?
    ensures var f := FrontOf(kind, ws, offset);
            && ZeroPadding(ws[f.size..], count - 1) && Clean(Decode(kind, ws[f.size..], count - 1, offset + f.size))
            && f.call.PacketCall? && f.call.packet.Valid() && EncodePacket(ToInternal(f.call.packet)) == ws[..f.size]
  {
    hide FrontOf, EncodePacket, ToInternal, Decode, FirstSize, ZeroPadding, WordBits, Holds, ZeroPad;
    DecodeStep(kind, ws, count, offset);
    FrontSize(kind, ws, offset);
    FrontPacket(kind, ws, offset);
    ZeroPaddingStep(ws, count);
    FrontIsEncoded(kind, ws, offset);
  }

  lemma {:induction false} ReproducesCons(c: Call, cs: seq<Call>, ws: seq<Word>, size: nat, count: nat)
    requires size <= |ws| && count >= 1 && Reproduces(cs, ws[size..], count - 1)
    requires c.PacketCall? && c.packet.Valid() && EncodePacket(ToInternal(c.packet)) == ws[..size]
    ensures Reproduces([c] + cs, ws, count)
  {
    hide EncodePacket, ToInternal, EncodeAll, PacketsOf;
    PacketsOfCons(c, cs);
    EncodeAllCons(c.packet, PacketsOf(cs));
    assert ws == ws[..size] + ws[size..];
  }

  lemma {:induction false} NothingDecoded(kind: FieldKind, ws: seq<Word>, count: nat, offset: nat)
    requires Clean(Decode(kind, ws, count, offset)) && (ws == [] || count == 0)
    ensures Reproduces(Decode(kind, ws, count, offset).calls, ws, count)
  {
  }

  lemma {:induction false} ZeroPaddingStep(ws: seq<Word>, count: nat)
    requires ZeroPadding(ws, count) && |ws| >= 2 && count != 0 && Holds(WordBits(ws))
    ensures FirstSize(ws) <= |ws| && ZeroPadding(ws[FirstSize(ws)..], count - 1)
    ensures ZeroPad(WordBits(ws))
  {
  }

  lemma {:induction false} PacketsOfCons(c: Call, cs: seq<Call>)
    requires c.PacketCall?
    ensures PacketsOf([c] + cs) == [c.packet] + PacketsOf(cs)
  {
    assert ([c] + cs)[1..] == cs;
  }

  lemma {:induction false} EncodeAllCons(p: PublicPacket, ps: seq<PublicPacket>)
    requires p.Valid() && AllValid(ps)
    ensures AllValid([p] + ps) && EncodeAll([p] + ps) == EncodePacket(ToInternal(p)) + EncodeAll(ps)
  {
    assert ([p] + ps)[1..] == ps;
  }

  lemma {:induction false} EncodedZeroPadding(ps: seq<PublicPacket>)
    requires AllValid(ps)
    ensures ZeroPadding(EncodeAll(ps), |ps|)
  {
    hide EncodePacket, ToInternal, FirstSize, FirstCount, WordBits;
    if ps != [] {
      EncodedZeroPadding(ps[1..]);
      FrontPadding(ps[0], EncodeAll(ps[1..]));
    }
  }

  lemma {:induction false} FrontPadding(p: PublicPacket, rest: seq<Word>)
    requires p.Valid()
    ensures var ws := EncodePacket(ToInternal(p)) + rest;
            && |ws| >= 2 && FirstSize(ws) == PacketSize(|p.data|) <= |ws| && ws[FirstSize(ws)..] == rest
            && Holds(WordBits(ws)) && ZeroPad(WordBits(ws))
  {
    hide PacketBits, EncodePacket, PacketSize, Holds, PacketAt, CountAt, WordBits, HeaderParityErrors, ChecksumMatches;
    var q := ToInternal(p);
    EncodedReadBack(q, rest);
    EncodedBits(q);
    WordBitsConcat(EncodePacket(q), rest);
  }

  /** The decoder accepts exactly the packetizer's payloads: a payload with zero reserved and padding bits is
      decoded without error if and only if packetizing some packets produces it. */
  lemma {:induction false} AcceptsExactlyEncodings(ws: seq<Word>)
    requires ws != []
    ensures UnpackStatus(ws) == Ok && ws[0] % 0x4000 == 0 && ZeroPadding(ws[1..], CountOf(ws))
            <==> exists kind, ps :: AllValid(ps) && |ps| <= 0xffff && ws == EncodePayload(kind, ps)
  {
    hide EncodeAll, Decode, ExpectedCalls, ZeroPadding;
    if UnpackStatus(ws) == Ok && ws[0] % 0x4000 == 0 && ZeroPadding(ws[1..], CountOf(ws)) {
      var kind := PayloadKind(ws);
      CanonicalRun(kind, ws[1..], CountOf(ws), 1);
      var ps := PacketsOf(DecodePayload(ws).calls);
      HeaderOfDigits(ws[0]);
      assert ws == EncodePayload(kind, ps);
    }
    forall kind, ps | AllValid(ps) && |ps| <= 0xffff && ws == EncodePayload(kind, ps)
      ensures UnpackStatus(ws) == Ok && ws[0] % 0x4000 == 0 && ZeroPadding(ws[1..], CountOf(ws))
    {
      RoundTrip(kind, ps);
      HeaderFields(kind, ps);
      HeaderDigits(|ps|, kind.Number());
      EncodedZeroPadding(ps);
    }
  }

  lemma {:induction false} HeaderOfDigits(w: Word)
    requires w % 0x4000 == 0
    ensures w / 0x1_0000 <= 0xffff
    ensures PayloadHeader(w / 0x1_0000, KindOf(w / 0x4000 % 4)) == w
  {
    assert KindOf(w / 0x4000 % 4).Number() == w / 0x4000 % 4;
    assert w == 0x4000 * (w / 0x4000);
    assert w / 0x4000 == 4 * (w / 0x4000 / 4) + w / 0x4000 % 4;
    assert w / 0x4000 / 4 == w / 0x1_0000;
  }

  // ----- Single-bit errors -----

  function Flip(b: seq<bool>, i: nat): (f: seq<bool>)
    requires i < |b|
    ensures |f| == |b|
  {
    b[i := !b[i]]
  }

  /** Inverts one bit, counted from the most significant bit of the first word. */
  function FlipBit(ws: seq<Word>, i: nat): (fs: seq<Word>)
    requires i < 32 * |ws|
    ensures |fs| == |ws|
  {
    WholeWords(|ws|);
    PackWords(Flip(WordBits(ws), i))
  }

  lemma {:induction false} FlippedBits(ws: seq<Word>, i: nat)
    requires i < 32 * |ws|
    ensures WordBits(FlipBit(ws, i)) == Flip(WordBits(ws), i)
  {
    hide PackWords, WordBits;
    WholeWords(|ws|);
    WordBitsOfPack(Flip(WordBits(ws), i));
  }

  lemma {:induction false} SameBits(a: seq<Word>, b: seq<Word>)
    requires WordBits(a) == WordBits(b)
    ensures a == b
  {
    PackOfWordBits(a);
    PackOfWordBits(b);
  }

  lemma {:induction false} FlipRight(a: seq<Word>, b: seq<Word>, i: nat)
    requires i < 32 * |b|
    ensures FlipBit(a + b, 32 * |a| + i) == a + FlipBit(b, i)
  {
    hide WordBits, FlipBit;
    WordBitsConcat(a, b);
    WordBitsConcat(a, FlipBit(b, i));
    FlippedBits(b, i);
    FlippedBits(a + b, 32 * |a| + i);
    SameBits(FlipBit(a + b, 32 * |a| + i), a + FlipBit(b, i));
  }

  /** A flip in the i-th 10-bit word changes that word in one bit and no other word. */
  lemma {:induction false} FlippedTens(s: seq<bool>, r: nat, i: nat)
    requires 32 <= r < |s| && 42 + 10 * i <= |s|
    ensures var f := Flip(s, r);
            if (r - 32) / 10 == i then Bits(TenAt(f, i), 10) == Flip(Bits(TenAt(s, i), 10), (r - 32) % 10)
            else TenAt(f, i) == TenAt(s, i)
  {
    hide Bits, Flip, TenAt;
    BitsOfTen(s, i);
    BitsOfTen(Flip(s, r), i);
    TenIs(s, i);
    TenIs(Flip(s, r), i);
    FlippedSlice(s, r, 32 + 10 * i, 42 + 10 * i);
    Position(r, i);
  }

  lemma {:induction false} Position(r: nat, i: nat)
    requires r >= 32
    ensures (r - 32) / 10 == i <==> 32 + 10 * i <= r < 42 + 10 * i
    ensures (r - 32) / 10 == i ==> (r - 32) % 10 == r - 32 - 10 * i
  {
  }

  lemma {:induction false} FlippedSlice(s: seq<bool>, r: nat, a: nat, b: nat)
    requires r < |s| && a <= b <= |s|
    ensures Flip(s, r)[a..b] == if a <= r < b then Flip(s[a..b], r - a) else s[a..b]
  {
  }

  lemma {:induction false} FlipBreaksParity(u: Ten, v: Ten, i: nat)
    requires i < 10 && ParityOk(u) && Bits(v, 10) == Flip(Bits(u, 10), i)
    ensures !ParityOk(v)
  {
    ParityOkIsOnBits(u);
    ParityOkIsOnBits(v);
    ParityDetectsFlip(Bits(u, 10), i);
  }

  lemma {:induction false} FlipChanges(u: Ten, v: Ten, i: nat)
    requires i < 10 && Bits(v, 10) == Flip(Bits(u, 10), i)
    ensures v != u
  {
    assert Bits(v, 10)[i] != Bits(u, 10)[i];
  }

  /** A flip between DID and checksum of an error-free packet leaves no packet there, or one with an error. */
  lemma {:induction false} FlippedStream(s: seq<bool>, g: seq<bool>, r: nat)
    requires Holds(s) && HeaderParityErrors(s) == 0 && ChecksumMatches(s) && ParityErrorsIn(PacketAt(s).data) == 0
    requires 32 <= r < 72 + 10 * CountAt(s) && r < |s| && g == Flip(s, r)
    ensures Holds(g) ==> HeaderParityErrors(g) + ParityErrorsIn(PacketAt(g).data) != 0 || !ChecksumMatches(g)
  {
    hide Holds, PacketAt, ParityErrorsIn, ChecksumMatches, HeaderParityErrors, CountAt, PacketSize;
    var i := (r - 32) / 10;
    LongStream(s);
    if i <= 2 {
      FlippedHeader(s, g, r);
    } else if Holds(g) {
      FlippedBody(s, g, r);
    }
  }

  /** A flip behind the data count. */
  lemma {:induction false} FlippedBody(s: seq<bool>, g: seq<bool>, r: nat)
    requires Holds(s) && Holds(g) && ChecksumMatches(s) && ParityErrorsIn(PacketAt(s).data) == 0
    requires 62 <= r < 72 + 10 * CountAt(s) && r < |s| && g == Flip(s, r)
    ensures ParityErrorsIn(PacketAt(g).data) != 0 || !ChecksumMatches(g)
  {
    hide Holds, PacketAt, ParityErrorsIn, ChecksumMatches, CountAt, PacketSize, TenAt, Flip, Bits;
    var i := (r - 32) / 10;
    LongStream(s);
    FlippedTens(s, r, 2);
    CountFrom(s);
    CountFrom(g);
    if i < 3 + CountAt(s) {
      FlippedTens(s, r, i);
      FlippedUserData(s, g, i - 3, (r - 32) % 10);
    } else {
      FlippedChecksum(s, g, r);
    }
  }

  lemma {:induction false} LongStream(s: seq<bool>)
    requires Holds(s)
    ensures |s| >= 72 + 10 * CountAt(s)
  {
  }

  lemma {:induction false} CountFrom(s: seq<bool>)
    requires |s| >= 62
    ensures CountAt(s) == TenAt(s, 2) % 256
  {
  }

  lemma {:induction false} FlippedHeader(s: seq<bool>, g: seq<bool>, r: nat)
    requires |s| >= 62 && HeaderParityErrors(s) == 0 && 32 <= r < 62 && g == Flip(s, r)
    ensures HeaderParityErrors(g) != 0
  {
    hide TenAt, ParityOk, Bits;
    var i, j := (r - 32) / 10, (r - 32) % 10;
    FlippedTens(s, r, i);
    FlipBreaksParity(TenAt(s, i), TenAt(g, i), j);
    assert i == 0 || i == 1 || i == 2;
  }

  lemma {:induction false} FrontIsStream(kind: FieldKind, ws: seq<Word>, offset: nat)
    requires FrontOf(kind, ws, offset).Front?
    ensures |ws| >= 2 && Holds(WordBits(ws))
    ensures var s := WordBits(ws);
            && FrontOf(kind, ws, offset).parityErrors == HeaderParityErrors(s) + ParityErrorsIn(PacketAt(s).data)
            && FrontOf(kind, ws, offset).checksumErrors == One(!ChecksumMatches(s))
  {
    hide WordBits, HeaderParityErrors, ParityErrorsIn, PacketAt, ChecksumMatches;
  }

  lemma {:induction false} FlippedFront(kind: FieldKind, ws: seq<Word>, offset: nat, r: nat)
    requires |ws| >= 2 && FrontOf(kind, ws, offset).Front?
    requires FrontOf(kind, ws, offset).parityErrors == 0 && FrontOf(kind, ws, offset).checksumErrors == 0
    requires 32 <= r < 72 + 10 * FirstCount(ws) && r < 32 * |ws|
    ensures var f := FrontOf(kind, FlipBit(ws, r), offset);
            f.NoPacket? || f.parityErrors != 0 || f.checksumErrors != 0
  {
    hide WordBits, FrontOf, FlipBit, Holds, HeaderParityErrors, ParityErrorsIn, PacketAt, ChecksumMatches, CountAt;
    FrontIsStream(kind, ws, offset);
    FlippedBits(ws, r);
    FlippedStream(WordBits(ws), WordBits(FlipBit(ws, r)), r);
    if FrontOf(kind, FlipBit(ws, r), offset).Front? {
      FrontIsStream(kind, FlipBit(ws, r), offset);
    }
  }

  lemma {:induction false} FlippedUserData(s: seq<bool>, g: seq<bool>, k: nat, j: nat)
    requires Holds(s) && Holds(g) && CountAt(g) == CountAt(s) && k < CountAt(s) && j < 10
    requires ParityErrorsIn(PacketAt(s).data) == 0
    requires Bits(TenAt(g, 3 + k), 10) == Flip(Bits(TenAt(s, 3 + k), 10), j)
    ensures ParityErrorsIn(PacketAt(g).data) != 0
  {
    hide TenAt, ParityOk, Bits, NumFrom;
    NoParityErrors(PacketAt(s).data);
    NoParityErrors(PacketAt(g).data);
    assert PacketAt(s).data[k] == TenAt(s, 3 + k) && PacketAt(g).data[k] == TenAt(g, 3 + k);
    FlipBreaksParity(TenAt(s, 3 + k), TenAt(g, 3 + k), j);
  }

  lemma {:induction false} FlippedChecksum(s: seq<bool>, g: seq<bool>, r: nat)
    requires Holds(s) && Holds(g) && CountAt(g) == CountAt(s) && ChecksumMatches(s)
    requires 62 + 10 * CountAt(s) <= r < 72 + 10 * CountAt(s) && r < |s| && g == Flip(s, r)
    ensures !ChecksumMatches(g)
  {
    hide TenAt, Bits, Sum, FinishChecksum;
    var n: nat := CountAt(s);
    forall i: nat | i < 3 + n
      ensures TenAt(g, i) == TenAt(s, i)
    {
      FlippedTens(s, r, i);
    }
    assert TensFrom(g, 0, 3 + n) == TensFrom(s, 0, 3 + n);
    FlippedTens(s, r, 3 + n);
    FlipChanges(TenAt(s, 3 + n), TenAt(g, 3 + n), (r - 32) % 10);
  }

  /** Position of the first bit of packet k in the payload. */
  function PacketStart(ps: seq<PublicPacket>, k: nat): nat
    requires k <= |ps|
  {
    32 * (1 + Total(ps[..k]))
  }

  lemma {:induction false} FlippedPayload(kind: FieldKind, ps: seq<PublicPacket>, k: nat, r: nat)
    requires AllValid(ps) && k < |ps| && r < 32 * PacketSize(|ps[k].data|)
    ensures PacketStart(ps, k) + r < 32 * |EncodePayload(kind, ps)|
    ensures FlipBit(EncodePayload(kind, ps), PacketStart(ps, k) + r)
            == [PayloadHeader(|ps|, kind)] + (EncodeAll(ps[..k])
               + FlipBit(EncodePacket(ToInternal(ps[k])) + EncodeAll(ps[k + 1..]), r))
  {
    hide EncodePacket, ToInternal, FlipBit, PacketSize, PayloadHeader;
    assert ps == ps[..k] + ps[k..];
    EncodeAllConcat(ps[..k], ps[k..]);
    TotalIsLength(ps[..k]);
    EncodedSize(ps[k]);
    assert ps[k..][1..] == ps[k + 1..];
    var rest := EncodePacket(ToInternal(ps[k])) + EncodeAll(ps[k + 1..]);
    assert EncodeAll(ps[k..]) == rest;
    var pre := [PayloadHeader(|ps|, kind)] + EncodeAll(ps[..k]);
    assert EncodePayload(kind, ps) == pre + rest;
    FlipRight(pre, rest, r);
    assert pre + FlipBit(rest, r) == [PayloadHeader(|ps|, kind)] + (EncodeAll(ps[..k]) + FlipBit(rest, r));
  }

  /** Flipping any single bit between the DID and the checksum of any packet of a packetized payload makes
      unpacketizing fail, also when the bit belongs to a data count and moves the packets behind it. */
  lemma {:induction false} SingleBitErrorDetected(kind: FieldKind, ps: seq<PublicPacket>, k: nat, r: nat)
    requires AllValid(ps) && |ps| <= 0xffff && k < |ps| && 32 <= r < 72 + 10 * |ps[k].data|
    ensures PacketStart(ps, k) + r < 32 * |EncodePayload(kind, ps)|
    ensures UnpackStatus(FlipBit(EncodePayload(kind, ps), PacketStart(ps, k) + r)) in {InvalidPayload, RxPayloadError}
  {
    hide EncodePacket, ToInternal, FlipBit, PacketSize, PayloadHeader, Decode, EncodeAll, Total, DecodePayload, EncodePayload;
    FlippedPayload(kind, ps, k, r);
    EncodedSize(ps[k]);
    FlippedRest(kind, ps[k], EncodeAll(ps[k + 1..]), |ps| - k, 1 + Total(ps[..k]), r);
    BadTail(kind, |ps|, ps[..k], FlipBit(EncodePacket(ToInternal(ps[k])) + EncodeAll(ps[k + 1..]), r));
  }

  /** Good packets in front of words that do not decode without error do not make the whole decode. */
  lemma {:induction false} BadTail(kind: FieldKind, count: nat, ps: seq<PublicPacket>, rest: seq<Word>)
    requires AllValid(ps) && |ps| <= count <= 0xffff
    requires var d := Decode(kind, rest, count - |ps|, 1 + Total(ps));
             d.Broken? || d.parityErrors != 0 || d.checksumErrors != 0
    ensures UnpackStatus([PayloadHeader(count, kind)] + (EncodeAll(ps) + rest)) in {InvalidPayload, RxPayloadError}
  {
    hide Decode, EncodeAll, Total, ExpectedCalls, PayloadHeader, CountOf, PayloadKind;
    var ws := [PayloadHeader(count, kind)] + (EncodeAll(ps) + rest);
    SameHeader(kind, count, ws);
    assert ws[1..] == EncodeAll(ps) + rest;
    EncodedPrefix(kind, ps, rest, count, 1);
  }

  lemma {:induction false} FlippedRest(kind: FieldKind, p: PublicPacket, rest: seq<Word>, count: nat, offset: nat, r: nat)
    requires p.Valid() && 32 <= r < 72 + 10 * |p.data| && count >= 1
    requires r < 32 * |EncodePacket(ToInternal(p)) + rest|
    ensures var d := Decode(kind, FlipBit(EncodePacket(ToInternal(p)) + rest, r), count, offset);
            d.Broken? || d.parityErrors != 0 || d.checksumErrors != 0
  {
    hide EncodePacket, ToInternal, FlipBit, FrontOf, Decode, FirstCount, WordBits;
    var ws := EncodePacket(ToInternal(p)) + rest;
    EncodedFront(kind, p, rest, offset);
    EncodedSize(p);
    CountOfFront(p, rest);
    FlippedFront(kind, ws, offset, r);
    DecodeStep(kind, FlipBit(ws, r), count, offset);
  }

  lemma {:induction false} CountOfFront(p: PublicPacket, rest: seq<Word>)
    requires p.Valid()
    ensures |EncodePacket(ToInternal(p)) + rest| >= 2 && FirstCount(EncodePacket(ToInternal(p)) + rest) == |p.data|
  {
    hide CountAt, PacketAt, Holds, HeaderParityErrors, ChecksumMatches, PacketBits;
    EncodedReadBack(ToInternal(p), rest);
  }

  lemma {:induction false} SameHeader(kind: FieldKind, count: nat, ws: seq<Word>)
    requires count <= 0xffff && ws != [] && ws[0] == PayloadHeader(count, kind)
    ensures CountOf(ws) == count && PayloadKind(ws) == kind
  {
    HeaderDigits(count, kind.Number());
  }
}
