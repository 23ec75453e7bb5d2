/** The five-phase packet parser, proved to read the dense stream. */
module AncParser {
  import opened BitString
  import opened AncPacket
  import opened AncWriter

  class AncillaryDataPayloadErrors {
    var checksum: nat
    var checksumErrors: nat
    var parityErrors: nat

    constructor ()
      ensures checksum == 0 && checksumErrors == 0 && parityErrors == 0
    {
      checksum, checksumErrors, parityErrors := 0, 0, 0;
    }
  }

  /** The four fields of a 32-bit word in each phase. */
  datatype Udws = Udws(first: nat, second: nat, third: nat, last: nat)

  function RawUdws(phase: nat, w: Word): (r: Udws)
    ensures r.last * Shift(phase) < 0x400
  {
    match phase
    case 0 => Udws(w / 0x100_0000, w / 0x4000 % 0x400, w / 0x10 % 0x400, w % 0x10)
    case 3 => Udws(w / 0x400_0000, w / 0x1_0000 % 0x400, w / 0x40 % 0x400, w % 0x40)
    case 6 => Udws(w / 0x1000_0000, w / 0x4_0000 % 0x400, w / 0x100 % 0x400, w % 0x100)
    case 9 => Udws(w / 0x4000_0000, w / 0x10_0000 % 0x400, w / 0x400 % 0x400, w % 0x400)
    case _ => Udws(w / 0x40_0000, w / 0x1000 % 0x400, w / 4 % 0x400, w % 4)
  }

  /** The weight of the last field in the 10-bit word it starts. */
  function Shift(phase: nat): nat {
    match phase
    case 0 => 0x40
    case 3 => 0x10
    case 6 => 4
    case 9 => 1
    case _ => 0x100
  }

  // ----- Fields of a word are slices of the stream -----

  /** The fields of a word, from the widths of its first and last fields. */
  lemma {:induction false} FieldsOfWord(w: Word, c: nat, ps: nat, pt: nat, pl: nat)
    requires c <= 8 && ps == Pow2(12 + c) && pt == Pow2(2 + c) && pl == Pow2(22 + c)
    ensures var b := Bits(w, 32);
            Num(b[..10 - c]) == w / pl && Num(b[10 - c..20 - c]) == w / ps % 0x400
            && Num(b[20 - c..30 - c]) == w / pt % 0x400 && Num(b[30 - c..]) == w % pt
  {
    hide Bits, Num, Pow2;
    Pow2Values();
    Field(w, 32, 0, 10 - c);
    Field(w, 32, 10 - c, 20 - c);
    Field(w, 32, 20 - c, 30 - c);
    Field(w, 32, 30 - c, 32);
    var b := Bits(w, 32);
    assert b[0..10 - c] == b[..10 - c] && b[30 - c..32] == b[30 - c..];
    TopField(w, 22 + c);
    DivOne(w);
  }

  lemma {:induction false} TopField(w: Word, k: nat)
    requires k <= 32
    ensures w / Pow2(k) % Pow2(32 - k) == w / Pow2(k)
  {
    hide Pow2;
    Pow2Values();
    Pow2Add(32 - k, k);
    DivMod(w, Pow2(k));
    NonNegative(w, Pow2(k));
    if w / Pow2(k) >= Pow2(32 - k) {
      MulMono(Pow2(32 - k), w / Pow2(k), Pow2(k));
    }
    SmallMod(w / Pow2(k), Pow2(32 - k));
  }

  lemma {:induction false} MulMono(a: nat, b: nat, c: nat)
    requires a <= b
    ensures a * c <= b * c
  {
  }

  lemma {:induction false} SmallMod(a: nat, b: nat)
    requires a < b
    ensures a % b == a
  {
  }

  /** The leading and remaining bits of a 10-bit word of the stream. */
  lemma {:induction false} LeadAndRestOfStream(s: seq<bool>, i: nat, c: nat)
    requires 42 + 10 * i <= |s| && c <= 10
    ensures Lead(TenAt(s, i), c) == Num(s[32 + 10 * i..32 + 10 * i + c])
    ensures Rest(TenAt(s, i), c) == Num(s[32 + 10 * i + c..42 + 10 * i])
    ensures TenAt(s, i) == Lead(TenAt(s, i), c) * Pow2(10 - c) + Rest(TenAt(s, i), c)
  {
    var hi, lo := s[32 + 10 * i..32 + 10 * i + c], s[32 + 10 * i + c..42 + 10 * i];
    assert s[32 + 10 * i..42 + 10 * i] == hi + lo;
    SplitNum(hi, lo);
    NumConcat(hi, lo);
  }

  /** What the fields of the 32-bit word at bit position 62 + 10 k + Carry(k) of the stream are. */
  lemma {:induction false} RawUdwsOfStream(s: seq<bool>, k: nat, at: nat, w: Word)
    requires AtPhase(k) && 32 * at == 62 + 10 * k + Carry(k) && 32 * at + 32 <= |s|
    requires s[32 * at..32 * at + 32] == Bits(w, 32)
    ensures var r := RawUdws(k % 16, w);
            r.first == Rest(TenAt(s, 3 + k), Carry(k)) && r.second == TenAt(s, 4 + k) && r.third == TenAt(s, 5 + k)
            && r.last == Num(s[92 + 10 * k..94 + 10 * k + Carry(k)])
  {
    hide Bits, Num, Pow2, Lead, Rest;
    var c := Carry(k);
    RawUdwsOfBits(k, w);
    LeadAndRestOfStream(s, 3 + k, c);
    var b := Bits(w, 32);
    SubSlice(s, 32 * at, 0, 10 - c);
    SubSlice(s, 32 * at, 10 - c, 20 - c);
    SubSlice(s, 32 * at, 20 - c, 30 - c);
    SubSlice(s, 32 * at, 30 - c, 32);
    assert b[0..10 - c] == b[..10 - c] && b[30 - c..32] == b[30 - c..];
  }

  lemma {:induction false} SubSlice(s: seq<bool>, a: nat, i: nat, j: nat)
    requires a + 32 <= |s| && i <= j <= 32
    ensures s[a..a + 32][i..j] == s[a + i..a + j]
  {
    var t := s[a..a + 32];
    assert |t[i..j]| == |s[a + i..a + j]|;
    assert forall x :: 0 <= x < j - i ==> t[i..j][x] == t[i + x] && t[i + x] == s[a + i + x];
  }

  lemma {:induction false} RawUdwsOfBits(k: nat, w: Word)
    requires AtPhase(k)
    ensures var c, b := Carry(k), Bits(w, 32);
            RawUdws(k % 16, w) == Udws(Num(b[..10 - c]), Num(b[10 - c..20 - c]), Num(b[20 - c..30 - c]), Num(b[30 - c..]))
  {
    hide Bits, Num, Pow2;
    MorePowers();
    match k % 16
    case 0 => FieldsOfWord(w, 2, 0x4000, 0x10, 0x100_0000);
    case 3 => FieldsOfWord(w, 4, 0x1_0000, 0x40, 0x400_0000);
    case 6 => FieldsOfWord(w, 6, 0x4_0000, 0x100, 0x1000_0000);
    case 9 => FieldsOfWord(w, 8, 0x10_0000, 0x400, 0x4000_0000);
    case _ => FieldsOfWord(w, 0, 0x1000, 4, 0x40_0000);
  }

  lemma {:induction false} MorePowers()
    ensures Pow2(2) == 4 && Pow2(4) == 0x10 && Pow2(6) == 0x40 && Pow2(8) == 0x100 && Pow2(10) == 0x400
    ensures Pow2(12) == 0x1000 && Pow2(14) == 0x4000 && Pow2(16) == 0x1_0000 && Pow2(18) == 0x4_0000
    ensures Pow2(20) == 0x10_0000 && Pow2(22) == 0x40_0000 && Pow2(24) == 0x100_0000 && Pow2(26) == 0x400_0000
    ensures Pow2(28) == 0x1000_0000 && Pow2(30) == 0x4000_0000 && Pow2(31) == 0x8000_0000
  {
    Pow2Values();
    assert Pow2(26) == 4 * Pow2(24);
    assert Pow2(30) == 4 * Pow2(28) && Pow2(28) == 4 * Pow2(26);
  }

  // ----- The parser's state -----

  ghost predicate Whole(packet: AncillaryDataPacket)
    reads packet
  {
    packet.userData.Length == 255 + 4
  }

  function Min(a: nat, b: nat): nat {
    if a < b then a else b
  }

  /** The words before k (user data and checksum) are parsed, later entries are zero, and the running
      checksum covers the words before k that it should. */
  ghost predicate ParsedUpTo(packet: AncillaryDataPacket, errors: AncillaryDataPayloadErrors, s: seq<bool>, k: nat)
    requires Holds(s)
    reads packet, packet.userData, errors
  {
    && Whole(packet) && packet.dataCount == CountAt(s)
    && (forall i :: 0 <= i < k && i <= packet.dataCount ==> packet.userData[i] == TenAt(s, 3 + i))
    && (forall i :: k < i < packet.userData.Length ==> packet.userData[i] == 0)
    && errors.checksum == Sum(TensFrom(s, 0, 3 + Min(k, packet.dataCount)))
  }

  /** The first c bits of word k are in place. */
  ghost predicate PartAt(packet: AncillaryDataPacket, s: seq<bool>, k: nat, c: nat)
    requires Holds(s) && c <= 10
    reads packet, packet.userData
  {
    Whole(packet) && packet.dataCount == CountAt(s) && k < packet.userData.Length
    && (k <= packet.dataCount ==> packet.userData[k] == Lead(TenAt(s, 3 + k), c) * Pow2(10 - c))
  }

  ghost predicate HeaderFields(packet: AncillaryDataPacket, s: seq<bool>)
    requires Holds(s)
    reads packet
  {
    var p := PacketAt(s);
    packet.isColorDifferenceChannel == p.colorDifference && packet.lineNumber == p.line
    && packet.horizontalOffset == p.horizontalOffset && packet.isValidSourceStreamNumber == p.validStreamNumber
    && packet.sourceStreamNumber == p.streamNumber && packet.did == p.did && packet.sdid == p.sdid
  }

  lemma {:induction false} SumTensFromStep(s: seq<bool>, n: nat)
    requires 42 + 10 * n <= |s|
    ensures Sum(TensFrom(s, 0, n + 1)) == Sum(TensFrom(s, 0, n)) + TenAt(s, n)
  {
    SumSnoc(TensFrom(s, 0, n), TenAt(s, n));
    assert TensFrom(s, 0, n + 1) == TensFrom(s, 0, n) + [TenAt(s, n)];
  }

  lemma {:induction false} Long(s: seq<bool>)
    requires Holds(s)
    ensures |s| >= 72 + 10 * CountAt(s) && |s| >= 32 * PacketSize(CountAt(s))
  {
  }

  /** Adds the remaining bits of a word to its entry and, for user data, the entry to the checksum. */
  method ParseAndChecksumUdw(nextUdw: nat, value: nat, packet: AncillaryDataPacket, errors: AncillaryDataPayloadErrors,
                             ghost s: seq<bool>)
    requires Holds(s) && ParsedUpTo(packet, errors, s, nextUdw) && nextUdw + 1 < packet.userData.Length
    requires 72 + 10 * nextUdw <= |s|
    requires nextUdw <= packet.dataCount ==> packet.userData[nextUdw] + value == TenAt(s, 3 + nextUdw)
    modifies packet.userData, errors`checksum
    ensures ParsedUpTo(packet, errors, s, nextUdw + 1)
    ensures packet.userData[nextUdw + 1] == 0 && Whole(packet)
  {
    hide TenAt, TensFrom, Sum, Holds, CountAt;
    if nextUdw <= packet.dataCount {
      packet.userData[nextUdw] := packet.userData[nextUdw] + value;
    }
    if nextUdw < packet.dataCount {
      SumTensFromStep(s, 3 + nextUdw);
      errors.checksum := errors.checksum + packet.userData[nextUdw];
    }
  }

  lemma {:induction false} ShiftIs(k: nat)
    requires AtPhase(k) && k % 16 != 9
    ensures Shift(k % 16) == Pow2(8 - Carry(k)) && Carry(k + 3) == Carry(k) + 2
  {
    MorePowers();
  }

  lemma {:induction false} NoLead(u: Ten)
    ensures Lead(u, 0) == 0
  {
    Pow2Values();
  }

  /** Stores the leading bits of the next word, to be completed from the next 32-bit word. */
  method StoreLeadingBits(nextUdw: nat, value: U16, packet: AncillaryDataPacket, errors: AncillaryDataPayloadErrors,
                          ghost s: seq<bool>, ghost c: nat)
    requires Holds(s) && c <= 10 && ParsedUpTo(packet, errors, s, nextUdw) && nextUdw < packet.userData.Length
    requires nextUdw <= packet.dataCount ==> 72 + 10 * nextUdw <= |s| && value == Lead(TenAt(s, 3 + nextUdw), c) * Pow2(10 - c)
    modifies packet.userData
    ensures ParsedUpTo(packet, errors, s, nextUdw) && PartAt(packet, s, nextUdw, c)
  {
    hide TenAt, TensFrom, Sum, Holds, CountAt;
    packet.userData[nextUdw] := value;
  }

  /** The part common to all phases: the rest of one word and two whole words. */
  method ParseThreeUdws(raw: Udws, nextUdw: nat, packet: AncillaryDataPacket, errors: AncillaryDataPayloadErrors,
                        ghost s: seq<bool>)
    returns (next: nat)
    requires Holds(s) && ParsedUpTo(packet, errors, s, nextUdw) && nextUdw <= MAX_DATA_COUNT && 92 + 10 * nextUdw <= |s|
    requires nextUdw <= packet.dataCount ==> packet.userData[nextUdw] + raw.first == TenAt(s, 3 + nextUdw)
    requires raw.second == TenAt(s, 4 + nextUdw) && raw.third == TenAt(s, 5 + nextUdw)
    modifies packet.userData, errors`checksum
    ensures next == nextUdw + 3 && ParsedUpTo(packet, errors, s, next)
    ensures packet.userData[next] == 0
  {
    hide TenAt, TensFrom, Sum, Holds, CountAt, ParsedUpTo;
    OpenParsed(packet, errors, s, nextUdw);
    next := nextUdw;
    ParseAndChecksumUdw(next, raw.first, packet, errors, s);
    next := next + 1;
    ParseAndChecksumUdw(next, raw.second, packet, errors, s);
    next := next + 1;
    ParseAndChecksumUdw(next, raw.third, packet, errors, s);
    next := next + 1;
  }

  lemma {:induction false} OpenParsed(packet: AncillaryDataPacket, errors: AncillaryDataPayloadErrors, s: seq<bool>, k: nat)
    requires Holds(s) && ParsedUpTo(packet, errors, s, k)
    ensures Whole(packet) && packet.dataCount == CountAt(s)
  {
  }

  lemma {:induction false} OpenPart(packet: AncillaryDataPacket, s: seq<bool>, k: nat, c: nat)
    requires Holds(s) && c <= 10 && PartAt(packet, s, k, c)
    ensures Whole(packet) && packet.dataCount == CountAt(s) && k < packet.userData.Length
    ensures k <= packet.dataCount ==> packet.userData[k] == Lead(TenAt(s, 3 + k), c) * Pow2(10 - c)
  {
  }

  lemma {:induction false} MakePart(packet: AncillaryDataPacket, s: seq<bool>, k: nat)
    requires Holds(s) && Whole(packet) && packet.dataCount == CountAt(s) && k < packet.userData.Length
    requires packet.userData[k] == 0
    ensures PartAt(packet, s, k, 0)
  {
    if k <= packet.dataCount {
      NoLead(TenAt(s, 3 + k));
    }
  }

  method ParseNextUdws(netWord: Word, nextUdw: nat, packet: AncillaryDataPacket, errors: AncillaryDataPayloadErrors,
                       ghost s: seq<bool>, ghost at: nat)
    returns (next: nat)
    requires Holds(s) && AtPhase(nextUdw) && nextUdw <= MAX_DATA_COUNT
    requires 32 * at == 62 + 10 * nextUdw + Carry(nextUdw) && 32 * at + 32 <= |s|
    requires s[32 * at..32 * at + 32] == Bits(netWord, 32)
    requires ParsedUpTo(packet, errors, s, nextUdw) && PartAt(packet, s, nextUdw, Carry(nextUdw))
    modifies packet.userData, errors`checksum
    ensures next == NextPhase(nextUdw)
    ensures ParsedUpTo(packet, errors, s, next) && PartAt(packet, s, next, Carry(next))
  {
    hide TenAt, TensFrom, Sum, Holds, CountAt, Lead, Rest, Num, Bits, RawUdws, ParsedUpTo, PartAt, Pow2;
    var raw := RawUdws(nextUdw % 16, netWord);
    Long(s);
    RawUdwsOfStream(s, nextUdw, at, netWord);
    LeadAndRestOfStream(s, 3 + nextUdw, Carry(nextUdw));
    OpenPart(packet, s, nextUdw, Carry(nextUdw));
    next := ParseThreeUdws(raw, nextUdw, packet, errors, s);
    if nextUdw % 16 == 9 {
      TenIs(s, 3 + next);
      ParseAndChecksumUdw(next, raw.last, packet, errors, s);
      next := next + 1;
      MakePart(packet, s, next);
    } else {
      ShiftIs(nextUdw);
      if next <= packet.dataCount {
        LeadAndRestOfStream(s, 3 + next, Carry(next));
      }
      StoreLeadingBits(next, raw.last * Shift(nextUdw % 16), packet, errors, s, Carry(next));
    }
  }

  method ParseAncillaryDataPacketHeader(words: seq<Word>, base: nat, packet: AncillaryDataPacket,
                                        errors: AncillaryDataPayloadErrors)
    requires base + 2 <= |words| && Whole(packet)
    modifies packet, packet.userData, errors
    ensures var s := WordBits(words[base..]);
            && packet.dataCount == CountAt(s)
            && errors.parityErrors == old(errors.parityErrors) + HeaderParityErrors(s)
            && errors.checksum == TenAt(s, 0) + TenAt(s, 1) + TenAt(s, 2)
            && (Holds(s) ==> HeaderFields(packet, s) && PartAt(packet, s, 0, 2))
    ensures errors.checksumErrors == old(errors.checksumErrors)
    ensures forall i :: 0 < i < packet.userData.Length ==> packet.userData[i] == old(packet.userData[i])
  {
    hide TenAt, Num, Bits, Lead, Rest, Parity8, ParityOk, NumFrom, WordBits, Holds, PacketAt, PartAt, HeaderFields, Pow2;
    var first, second := words[base], words[base + 1];
    ghost var s := WordBits(words[base..]);
    HeaderOfWords(s, words[base..]);
    packet.isColorDifferenceChannel := first / 0x8000_0000 == 1;
    packet.lineNumber := first / 0x10_0000 % 0x800;
    packet.horizontalOffset := first / 0x100 % 0x1000;
    packet.isValidSourceStreamNumber := first / 0x80 % 2 == 1;
    packet.sourceStreamNumber := first % 0x80;
    var rawDid, rawSdid, rawDataCount := second / 0x40_0000, second / 0x1000 % 0x400, second / 4 % 0x400;
    packet.did := rawDid % 0x100;
    packet.sdid := rawSdid % 0x100;
    packet.dataCount := rawDataCount % 0x100;
    packet.userData[0] := second % 4 * 0x100;
    errors.checksum := rawDid + rawSdid + rawDataCount;
    var value;
    value, errors.parityErrors := CheckParityBits(rawDid, errors.parityErrors);
    value, errors.parityErrors := CheckParityBits(rawSdid, errors.parityErrors);
    value, errors.parityErrors := CheckParityBits(rawDataCount, errors.parityErrors);
    if Holds(s) {
      HeaderDone(packet, s);
    }
  }

  lemma {:induction false} HeaderDone(packet: AncillaryDataPacket, s: seq<bool>)
    requires Holds(s) && Whole(packet) && packet.dataCount == CountAt(s)
    requires packet.isColorDifferenceChannel == s[0] && packet.lineNumber == NumFrom(s, 1, 12)
    requires packet.horizontalOffset == NumFrom(s, 12, 24) && packet.isValidSourceStreamNumber == s[24]
    requires packet.sourceStreamNumber == NumFrom(s, 25, 32)
    requires packet.did == TenAt(s, 0) % 256 && packet.sdid == TenAt(s, 1) % 256
    requires packet.userData[0] == Num(s[62..64]) * 0x100
    ensures HeaderFields(packet, s) && PartAt(packet, s, 0, 2)
  {
    hide Num, NumFrom;
    MorePowers();
    Long(s);
    LeadAndRestOfStream(s, 3, 2);
  }

  /** The low eight bits of a raw word; one more parity error when its two parity bits are not right. */
  method CheckParityBits(rawWord: Ten, parityErrors: nat) returns (value: Byte, errors: nat)
    ensures value == rawWord % 256
    ensures errors == parityErrors + One(!ParityOk(rawWord))
  {
    hide Parity8;
    var parity := Parity8(rawWord % 0x100);
    errors := parityErrors;
    if (rawWord / 0x100 % 2 == 1) != parity || (rawWord / 0x200 == 1) == parity {
      errors := errors + 1;
    }
    value := rawWord % 0x100;
  }

  lemma {:induction false} HeaderOfWords(s: seq<bool>, ws: seq<Word>)
    requires |ws| >= 2 && s == WordBits(ws)
    ensures s[0] == (ws[0] / 0x8000_0000 == 1) && NumFrom(s, 1, 12) == ws[0] / 0x10_0000 % 0x800
    ensures NumFrom(s, 12, 24) == ws[0] / 0x100 % 0x1000 && s[24] == (ws[0] / 0x80 % 2 == 1)
    ensures NumFrom(s, 25, 32) == ws[0] % 0x80
    ensures TenAt(s, 0) == ws[1] / 0x40_0000 && TenAt(s, 1) == ws[1] / 0x1000 % 0x400
    ensures TenAt(s, 2) == ws[1] / 4 % 0x400 && Num(s[62..64]) == ws[1] % 4
  {
    hide Bits, Num, Pow2;
    WordBitsAt(ws, 0);
    WordBitsAt(ws, 1);
    FirstWordFields(s, ws[0]);
    SecondWordFields(s, ws[1]);
  }

  lemma {:induction false} FirstWordFields(s: seq<bool>, w: Word)
    requires |s| >= 32 && s[0..32] == Bits(w, 32)
    ensures s[0] == (w / 0x8000_0000 == 1) && NumFrom(s, 1, 12) == w / 0x10_0000 % 0x800
    ensures NumFrom(s, 12, 24) == w / 0x100 % 0x1000 && s[24] == (w / 0x80 % 2 == 1)
    ensures NumFrom(s, 25, 32) == w % 0x80
  {
    hide Bits, Num, Pow2;
    MorePowers();
    assert Pow2(0) == 1 && Pow2(1) == 2 && Pow2(7) == 0x80 && Pow2(11) == 0x800 && Pow2(32) == 0x1_0000_0000 by { Pow2Values(); }
    var b := Bits(w, 32);
    Field(w, 32, 0, 1);
    Field(w, 32, 1, 12);
    Field(w, 32, 12, 24);
    Field(w, 32, 24, 25);
    Field(w, 32, 25, 32);
    DivOne(w);
    SubSlice(s, 0, 0, 1);
    SubSlice(s, 0, 1, 12);
    SubSlice(s, 0, 12, 24);
    SubSlice(s, 0, 24, 25);
    SubSlice(s, 0, 25, 32);
    NumOne(s[0]);
    NumOne(s[24]);
    assert s[0..1] == [s[0]] && s[24..25] == [s[24]];
  }

  lemma {:induction false} NumOne(b: bool)
    ensures Num([b]) == One(b)
  {
    assert [b][..0] == [];
  }

  lemma {:induction false} SecondWordFields(s: seq<bool>, w: Word)
    requires |s| >= 64 && s[32..64] == Bits(w, 32)
    ensures TenAt(s, 0) == w / 0x40_0000 && TenAt(s, 1) == w / 0x1000 % 0x400
    ensures TenAt(s, 2) == w / 4 % 0x400 && Num(s[62..64]) == w % 4
  {
    hide Bits, Num, Pow2;
    MorePowers();
    FieldsOfWord(w, 0, 0x1000, 4, 0x40_0000);
    var b := Bits(w, 32);
    SubSlice(s, 32, 0, 10);
    SubSlice(s, 32, 10, 20);
    SubSlice(s, 32, 20, 30);
    SubSlice(s, 32, 30, 32);
    assert b[0..10] == b[..10] && b[30..32] == b[30..];
  }

  lemma {:induction false} HeaderSumOfStream(s: seq<bool>)
    requires |s| >= 62
    ensures Sum(TensFrom(s, 0, 3)) == TenAt(s, 0) + TenAt(s, 1) + TenAt(s, 2)
  {
    hide TenAt;
    SumTensFromStep(s, 0);
    SumTensFromStep(s, 1);
    SumTensFromStep(s, 2);
    assert TensFrom(s, 0, 0) == [];
  }

  /** The parser yields the packet that the dense stream denotes, counts its parity errors, and counts one
      checksum error exactly when the checksum word does not match. */
  method ParseAncillaryDataPacket(words: seq<Word>, base: nat, packet: AncillaryDataPacket,
                                  errors: AncillaryDataPayloadErrors)
    returns (size: nat)
    requires base + 2 <= |words| && Whole(packet)
    requires Holds(WordBits(words[base..]))
    modifies packet, packet.userData, errors
    ensures var s := WordBits(words[base..]);
            && packet.Valid() && packet.Value() == PacketAt(s)
            && errors.parityErrors == old(errors.parityErrors) + HeaderParityErrors(s)
            && errors.checksumErrors == old(errors.checksumErrors) + One(!ChecksumMatches(s))
            && size == PacketSize(CountAt(s))
  {
    hide TenAt, TensFrom, Sum, CountAt, Lead, Rest, Num, Bits, WordBits, PacketSize, NumFrom, HeaderParityErrors, Holds;
    hide ParsedUpTo, PartAt, HeaderFields, FinishChecksum, PacketAt, Carry, NextPhase, ChecksumMatches;
    ghost var s := WordBits(words[base..]);
    var i := 0;
    while i < packet.userData.Length
      invariant 0 <= i <= packet.userData.Length
      invariant forall j :: 0 <= j < i ==> packet.userData[j] == 0
      modifies packet.userData
    {
      packet.userData[i] := 0;
      i := i + 1;
    }
    ParseAncillaryDataPacketHeader(words, base, packet, errors);
    StartOfUdws(packet, errors, s);
    CarryZero();
    Long(s);
    var nextUdw: nat, offset: nat := 0, 2;
    ghost var before: nat := 0;
    while nextUdw <= packet.dataCount
      invariant AtPhase(nextUdw) && nextUdw <= MAX_DATA_COUNT + 4 && 32 * offset == 62 + 10 * nextUdw + Carry(nextUdw)
      invariant offset <= PacketSize(packet.dataCount)
      invariant ParsedUpTo(packet, errors, s, nextUdw) && PartAt(packet, s, nextUdw, Carry(nextUdw))
      invariant HeaderFields(packet, s)
      invariant errors.parityErrors == old(errors.parityErrors) + HeaderParityErrors(s)
      invariant errors.checksumErrors == old(errors.checksumErrors)
      invariant nextUdw > packet.dataCount ==>
                  AtPhase(before) && before <= packet.dataCount && nextUdw == NextPhase(before)
      decreases MAX_DATA_COUNT + 4 - nextUdw
    {
      before := nextUdw;
      OpenPart(packet, s, nextUdw, Carry(nextUdw));
      PhaseStep(nextUdw, packet.dataCount, offset);
      WordBitsAt(words[base..], offset);
      nextUdw := ParseNextUdws(words[base + offset], nextUdw, packet, errors, s, offset);
      offset := offset + 1;
    }
    UniqueSize(PacketSize(packet.dataCount), offset, 72 + 10 * packet.dataCount);
    EndOfUdws(packet, errors, s, nextUdw);
    var checksum := FinishChecksum(errors.checksum);
    var packetChecksum := packet.userData[packet.dataCount];
    if checksum != packetChecksum {
      errors.checksumErrors := errors.checksumErrors + 1;
    }
    // The checksum is not user data: erase it.
    packet.userData[packet.dataCount] := 0;
    ValueOfUdws(packet, s);
    size := offset;
  }

  lemma {:induction false} StartOfUdws(packet: AncillaryDataPacket, errors: AncillaryDataPayloadErrors, s: seq<bool>)
    requires Holds(s) && Whole(packet) && packet.dataCount == CountAt(s)
    requires forall i :: 0 < i < packet.userData.Length ==> packet.userData[i] == 0
    requires errors.checksum == TenAt(s, 0) + TenAt(s, 1) + TenAt(s, 2)
    ensures ParsedUpTo(packet, errors, s, 0)
  {
    HeaderSumOfStream(s);
  }

  lemma {:induction false} EndOfUdws(packet: AncillaryDataPacket, errors: AncillaryDataPayloadErrors, s: seq<bool>, k: nat)
    requires Holds(s) && ParsedUpTo(packet, errors, s, k) && k > packet.dataCount
    ensures Whole(packet) && packet.dataCount == CountAt(s)
    ensures forall i :: 0 <= i <= packet.dataCount ==> packet.userData[i] == TenAt(s, 3 + i)
    ensures (packet.userData[packet.dataCount] == FinishChecksum(errors.checksum)) == ChecksumMatches(s)
  {
  }

  lemma {:induction false} ValueOfUdws(packet: AncillaryDataPacket, s: seq<bool>)
    requires Holds(s) && HeaderFields(packet, s) && Whole(packet) && packet.dataCount == CountAt(s)
    requires forall i :: 0 <= i < packet.dataCount ==> packet.userData[i] == TenAt(s, 3 + i)
    requires packet.userData[packet.dataCount] == 0
    ensures packet.Valid() && packet.Value() == PacketAt(s)
  {
    hide TenAt, CountAt, NumFrom;
    assert packet.userData[..packet.dataCount] == TensFrom(s, 3, CountAt(s));
  }
}
