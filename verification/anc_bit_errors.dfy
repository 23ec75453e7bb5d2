/** Which single-bit errors of a payload are noticed: exactly those of its packet count, and those between the DID and
    the checksum of a packet. */
module AncBitErrors {
  import opened BitString
  import opened AncPacket
  import opened AncPayload
  import opened AncIntegrity

  /** The bit belongs to the packet count, or to a part of a packet that parity or the checksum protects. The others
      are the field kind, reserved bits, the first header word of a packet, and padding. */
  ghost predicate Guarded(ps: seq<PublicPacket>, b: nat) {
    b < 16 || exists k :: 0 <= k < |ps| && GuardedIn(ps, k, b)
  }

  predicate GuardedIn(ps: seq<PublicPacket>, k: nat, b: nat)
    requires k < |ps|
  {
    PacketStart(ps, k) + 32 <= b < PacketStart(ps, k) + 72 + 10 * |ps[k].data|
  }

  // ----- In a packet -----

  /** A flip in the first header word or in the padding leaves every 10-bit word as it is. */
  lemma {:induction false} SameTens(s: seq<bool>, r: nat, i: nat)
    requires r < |s| && 42 + 10 * i <= |s| && (r < 32 || r >= 42 + 10 * i)
    ensures TenAt(Flip(s, r), i) == TenAt(s, i)
  {
    hide Flip;
    TenIs(s, i);
    TenIs(Flip(s, r), i);
    FlippedSlice(s, r, 32 + 10 * i, 42 + 10 * i);
  }

  lemma {:induction false} HarmlessStream(s: seq<bool>, r: nat)
    requires Holds(s) && r < |s| && (r < 32 || r >= 72 + 10 * CountAt(s))
    ensures var g := Flip(s, r);
            && Holds(g) && CountAt(g) == CountAt(s) && HeaderParityErrors(g) == HeaderParityErrors(s)
            && PacketAt(g).data == PacketAt(s).data && ChecksumMatches(g) == ChecksumMatches(s)
  {
    hide TenAt, ParityOk, Sum, FinishChecksum, Flip, PacketSize;
    LongStream(s);
    var g := Flip(s, r);
    var n: nat := 4 + CountAt(s);
    forall i: nat | i < n
      ensures TenAt(g, i) == TenAt(s, i)
    {
      SameTens(s, r, i);
    }
    assert CountAt(g) == CountAt(s);
    SameTensFrom(s, g, n, 3, CountAt(s));
    SameTensFrom(s, g, n, 0, 3 + CountAt(s));
  }

  lemma {:induction false} SameTensFrom(s: seq<bool>, g: seq<bool>, n: nat, i: nat, m: nat)
    requires i + m <= n && |g| == |s| && 32 + 10 * n <= |s|
    requires forall k: nat :: k < n ==> TenAt(g, k) == TenAt(s, k)
    ensures TensFrom(g, i, m) == TensFrom(s, i, m)
  {
    hide TenAt;
  }

  lemma {:induction false} HarmlessFront(kind: FieldKind, ws: seq<Word>, offset: nat, r: nat)
    requires |ws| >= 2 && FrontOf(kind, ws, offset).Front? && r < 32 * |ws|
    requires r < 32 || r >= 72 + 10 * FirstCount(ws)
    ensures var f, g := FrontOf(kind, ws, offset), FrontOf(kind, FlipBit(ws, r), offset);
            g.Front? && g.size == f.size && g.parityErrors == f.parityErrors && g.checksumErrors == f.checksumErrors
  {
    hide WordBits, FlipBit, Holds, HeaderParityErrors, ParityErrorsIn, PacketAt, ChecksumMatches, CountAt, Flip, FrontOf;
    FrontIsStream(kind, ws, offset);
    FlippedBits(ws, r);
    HarmlessStream(WordBits(ws), r);
    FrontSize(kind, ws, offset);
    FrontSize(kind, FlipBit(ws, r), offset);
    FrontIsStream(kind, FlipBit(ws, r), offset);
  }

  /** A flip in the front words leaves the words behind them as they are. */
  lemma {:induction false} FlipLeft(a: seq<Word>, b: seq<Word>, i: nat)
    requires i < 32 * |a|
    ensures FlipBit(a + b, i) == FlipBit(a, i) + b
  {
    hide WordBits, FlipBit;
    WordBitsConcat(a, b);
    WordBitsConcat(FlipBit(a, i), b);
    FlippedBits(a, i);
    FlippedBits(a + b, i);
    assert Flip(WordBits(a) + WordBits(b), i) == Flip(WordBits(a), i) + WordBits(b);
    SameBits(FlipBit(a + b, i), FlipBit(a, i) + b);
  }

  lemma {:induction false} HarmlessRest(kind: FieldKind, p: PublicPacket, rest: seq<Word>, count: nat, offset: nat, r: nat)
    requires p.Valid() && count >= 1 && r < 32 * PacketSize(|p.data|) && (r < 32 || r >= 72 + 10 * |p.data|)
    requires Clean(Decode(kind, rest, count - 1, offset + PacketSize(|p.data|)))
    ensures |EncodePacket(ToInternal(p))| == PacketSize(|p.data|)
    ensures Clean(Decode(kind, FlipBit(EncodePacket(ToInternal(p)) + rest, r), count, offset))
  {
    hide EncodePacket, ToInternal, FlipBit, FrontOf, Decode, FirstCount, WordBits, PacketSize;
    var first := EncodePacket(ToInternal(p));
    EncodedSize(p);
    EncodedFront(kind, p, rest, offset);
    CountOfFront(p, rest);
    HarmlessFront(kind, first + rest, offset, r);
    FlipLeft(first, rest, r);
    DecodeStep(kind, FlipBit(first + rest, r), count, offset);
    assert (FlipBit(first, r) + rest)[PacketSize(|p.data|)..] == rest;
  }

  lemma {:induction false} CleanTail(kind: FieldKind, count: nat, ps: seq<PublicPacket>, rest: seq<Word>)
    requires AllValid(ps) && |ps| <= count <= 0xffff
    requires Clean(Decode(kind, rest, count - |ps|, 1 + Total(ps)))
    ensures UnpackStatus([PayloadHeader(count, kind)] + (EncodeAll(ps) + rest)) == Ok
  {
    hide Decode, EncodeAll, Total, ExpectedCalls, PayloadHeader, CountOf, PayloadKind;
    var ws := [PayloadHeader(count, kind)] + (EncodeAll(ps) + rest);
    SameHeader(kind, count, ws);
    assert ws[1..] == EncodeAll(ps) + rest;
    EncodedPrefix(kind, ps, rest, count, 1);
  }

  lemma {:induction false} AllClean(kind: FieldKind, ps: seq<PublicPacket>, offset: nat)
    requires AllValid(ps)
    ensures Clean(Decode(kind, EncodeAll(ps), |ps|, offset))
  {
    hide Decode, EncodeAll, ExpectedCalls;
    EncodedPrefix(kind, ps, [], |ps|, offset);
    DecodeNothing(kind, offset + Total(ps));
    assert EncodeAll(ps) + [] == EncodeAll(ps);
  }

  lemma {:induction false} HarmlessInPacket(kind: FieldKind, ps: seq<PublicPacket>, k: nat, r: nat)
    requires AllValid(ps) && |ps| <= 0xffff && k < |ps|
    requires r < 32 * PacketSize(|ps[k].data|) && (r < 32 || r >= 72 + 10 * |ps[k].data|)
    ensures PacketStart(ps, k) + r < 32 * |EncodePayload(kind, ps)|
    ensures UnpackStatus(FlipBit(EncodePayload(kind, ps), PacketStart(ps, k) + r)) == Ok
  {
    hide EncodePacket, ToInternal, FlipBit, PacketSize, PayloadHeader, Decode, EncodeAll, Total, DecodePayload, EncodePayload;
    FlippedPayload(kind, ps, k, r);
    EncodedSize(ps[k]);
    AllClean(kind, ps[k + 1..], 1 + Total(ps[..k]) + PacketSize(|ps[k].data|));
    HarmlessRest(kind, ps[k], EncodeAll(ps[k + 1..]), |ps| - k, 1 + Total(ps[..k]), r);
    CleanTail(kind, |ps|, ps[..k], FlipBit(EncodePacket(ToInternal(ps[k])) + EncodeAll(ps[k + 1..]), r));
  }

  // ----- In the header word of the payload -----

  lemma {:induction false} CountIsBits(w: Word)
    ensures Bits(w, 32)[..16] == Bits(w / 0x1_0000, 16) && w / 0x1_0000 < 0x1_0000
  {
    hide Bits, Pow2;
    Pow2Values();
    BitsConcat(w / 0x1_0000, 16, w % 0x1_0000, 16);
    assert w == w / 0x1_0000 * 0x1_0000 + w % 0x1_0000;
  }

  /** The flip changes the count exactly if it is one of the first 16 bits. */
  lemma {:induction false} FlippedCount(w: Word, v: Word, b: nat)
    requires b < 32 && Bits(v, 32) == Flip(Bits(w, 32), b)
    ensures v / 0x1_0000 == w / 0x1_0000 <==> b >= 16
  {
    hide Bits, Pow2;
    Pow2Values();
    CountIsBits(w);
    CountIsBits(v);
    NumOfBits(w / 0x1_0000, 16);
    NumOfBits(v / 0x1_0000, 16);
    if b >= 16 {
      assert Bits(v, 32)[..16] == Bits(w, 32)[..16];
    } else {
      assert Bits(v, 32)[..16][b] != Bits(w, 32)[..16][b];
    }
  }

  /** With a count other than the number of packets, nothing decodes. */
  lemma {:induction false} WrongCount(kind: FieldKind, ps: seq<PublicPacket>, count: nat)
    requires AllValid(ps) && count != |ps|
    ensures Decode(kind, EncodeAll(ps), count, 1).Broken?
  {
    hide EncodePacket, ToInternal, ExpectedCalls, EncodeAll, Decode, Total;
    if count > |ps| {
      EncodedPrefix(kind, ps, [], count, 1);
      DecodeMissing(kind, count - |ps|, 1 + Total(ps));
      assert EncodeAll(ps) + [] == EncodeAll(ps);
    } else {
      assert ps == ps[..count] + ps[count..];
      EncodeAllConcat(ps[..count], ps[count..]);
      SomethingEncoded(ps[count..]);
      EncodedPrefix(kind, ps[..count], EncodeAll(ps[count..]), count, 1);
      DecodeTooMuch(kind, EncodeAll(ps[count..]), 1 + Total(ps[..count]));
    }
  }

  lemma {:induction false} DecodeMissing(kind: FieldKind, count: nat, offset: nat)
    requires count > 0
    ensures Decode(kind, [], count, offset).Broken?
  {
  }

  lemma {:induction false} FlippedHeaderWord(kind: FieldKind, ps: seq<PublicPacket>, b: nat)
    requires AllValid(ps) && |ps| <= 0xffff && b < 32
    ensures UnpackStatus(FlipBit(EncodePayload(kind, ps), b)) == if b < 16 then InvalidPayload else Ok
  {
    hide FlipBit, Decode, EncodeAll, PayloadHeader, WordBits, CountOf, PayloadKind;
    var w := PayloadHeader(|ps|, kind);
    var vs := FlipBit([w], b);
    FlipLeft([w], EncodeAll(ps), b);
    FlippedBits([w], b);
    WordBitsOne(w);
    WordBitsOne(vs[0]);
    assert vs == [vs[0]];
    FlippedCount(w, vs[0], b);
    HeaderCounts(kind, ps, vs[0]);
    var fs := FlipBit(EncodePayload(kind, ps), b);
    assert fs == [vs[0]] + EncodeAll(ps) && fs[1..] == EncodeAll(ps) && fs[0] == vs[0];
    if b < 16 {
      WrongCount(PayloadKind(fs), ps, CountOf(fs));
    } else {
      AllClean(PayloadKind(fs), ps, 1);
    }
  }

  lemma {:induction false} HeaderCounts(kind: FieldKind, ps: seq<PublicPacket>, v: Word)
    requires AllValid(ps) && |ps| <= 0xffff
    ensures PayloadHeader(|ps|, kind) / 0x1_0000 == |ps|
    ensures forall rest :: CountOf([v] + rest) == v / 0x1_0000
  {
    HeaderDigits(|ps|, kind.Number());
  }

  // ----- Every bit -----

  /** Every bit behind the header word lies in one packet. */
  lemma {:induction false} Locate(ps: seq<PublicPacket>, b: nat) returns (k: nat, r: nat)
    requires AllValid(ps) && 32 <= b < 32 * (1 + Total(ps))
    ensures k < |ps| && b == PacketStart(ps, k) + r && r < 32 * PacketSize(|ps[k].data|)
  {
    hide PacketSize;
    if b < 32 * (1 + PacketSize(|ps[0].data|)) {
      k, r := 0, b - 32;
    } else {
      var j;
      j, r := Locate(ps[1..], b - 32 * PacketSize(|ps[0].data|));
      k := j + 1;
      assert ps[..k][1..] == ps[1..][..j];
    }
  }

  /** A later packet starts behind an earlier one. */
  lemma {:induction false} StartsApart(ps: seq<PublicPacket>, j: nat, k: nat)
    requires AllValid(ps) && j < k < |ps|
    ensures PacketStart(ps, j) + 32 * PacketSize(|ps[j].data|) <= PacketStart(ps, k)
  {
    hide PacketSize;
    assert ps[..k][1..] == ps[1..][..k - 1];
    if j > 0 {
      StartsApart(ps[1..], j - 1, k - 1);
      assert ps[..j][1..] == ps[1..][..j - 1];
    } else {
      assert ps[..0] == [];
    }
  }

  /** Single-bit errors: of all the bits of a packetized payload, exactly the guarded ones cannot be inverted without
      unpacketizing noticing it. */
  lemma {:induction false} SingleBitErrors(kind: FieldKind, ps: seq<PublicPacket>, b: nat)
    requires AllValid(ps) && |ps| <= 0xffff && b < 32 * |EncodePayload(kind, ps)|
    ensures UnpackStatus(FlipBit(EncodePayload(kind, ps), b)) == Ok <==> !Guarded(ps, b)
  {
    hide EncodeAll, FlipBit, Total, UnpackStatus, PacketStart, PacketSize;
    if b < 32 {
      FlippedHeaderWord(kind, ps, b);
      NoPacketBefore(ps, b);
    } else {
      TotalIsLength(ps);
      var k, r := Locate(ps, b);
      if 32 <= r < 72 + 10 * |ps[k].data| {
        SingleBitErrorDetected(kind, ps, k, r);
        assert GuardedIn(ps, k, b);
      } else {
        HarmlessInPacket(kind, ps, k, r);
        forall j | 0 <= j < |ps|
          ensures !GuardedIn(ps, j, b)
        {
          if j < k {
            StartsApart(ps, j, k);
          } else if k < j {
            StartsApart(ps, k, j);
          }
        }
      }
    }
  }

  lemma {:induction false} NoPacketBefore(ps: seq<PublicPacket>, b: nat)
    requires b < 32
    ensures forall k :: 0 <= k < |ps| ==> !GuardedIn(ps, k, b)
  {
  }
}
