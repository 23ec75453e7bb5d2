/** The application interface of the ancillary data codec: packetizing into a buffer, and unpacketizing a
    payload that arrives in one or more fragments. */
module AncApi {
  import opened BitString
  import opened AncPacket
  import opened AncWriter
  import opened AncParser
  import opened AncPayload

  // ----- Payload bytes, in network order -----

  function BigEndian(a: Byte, b: Byte, c: Byte, d: Byte): (w: Word) {
    ((a * 0x100 + b) * 0x100 + c) * 0x100 + d
  }

  function WordsOf(bytes: seq<Byte>): (ws: seq<Word>)
    requires |bytes| % 4 == 0
    ensures |ws| == |bytes| / 4
  {
    if bytes == [] then [] else
      [BigEndian(bytes[0], bytes[1], bytes[2], bytes[3])] + WordsOf(bytes[4..])
  }

  function ByteDigits(w: Word): (bytes: seq<Byte>)
    ensures |bytes| == 4
  {
    Digits(w);
    [w / 0x100 / 0x100 / 0x100, w / 0x100 / 0x100 % 0x100, w / 0x100 % 0x100, w % 0x100]
  }

  lemma {:induction false} Digits(w: Word)
    ensures 0 <= w / 0x100 / 0x100 / 0x100 < 0x100 && 0 <= w / 0x100 / 0x100 % 0x100 < 0x100
    ensures 0 <= w / 0x100 % 0x100 < 0x100 && 0 <= w % 0x100 < 0x100
  {
  }

  function BytesOf(ws: seq<Word>): (bytes: seq<Byte>)
    ensures |bytes| == 4 * |ws|
  {
    if ws == [] then [] else
      ByteDigits(ws[0]) + BytesOf(ws[1..])
  }

  lemma {:induction false} WordsOfBytes(ws: seq<Word>)
    ensures |BytesOf(ws)| % 4 == 0 && WordsOf(BytesOf(ws)) == ws
  {
    hide ByteDigits, BigEndian;
    if ws != [] {
      WordsOfBytes(ws[1..]);
      var b := ByteDigits(ws[0]);
      WordsOfCons(b, BytesOf(ws[1..]));
      DigitsOfWord(ws[0]);
    }
  }

  lemma {:induction false} WordsOfCons(b: seq<Byte>, rest: seq<Byte>)
    requires |b| == 4 && |rest| % 4 == 0
    ensures |b + rest| % 4 == 0 && WordsOf(b + rest) == [BigEndian(b[0], b[1], b[2], b[3])] + WordsOf(rest)
  {
    hide BigEndian;
    assert (b + rest)[4..] == rest;
  }

  lemma {:induction false} DigitsOfWord(w: Word)
    ensures var b := ByteDigits(w);
            BigEndian(b[0], b[1], b[2], b[3]) == w
  {
    var h := w / 0x100;
    assert w == h * 0x100 + w % 0x100 && h == h / 0x100 * 0x100 + h % 0x100;
    assert h / 0x100 == h / 0x100 / 0x100 * 0x100 + h / 0x100 % 0x100;
  }

  // ----- Copies between public and internal packets -----

  /** The packet handed to the application. */
  class CdiAvmAncillaryDataPacket {
    var isColorDifferenceChannel: bool
    var lineNumber: Eleven
    var horizontalOffset: Twelve
    var isValidSourceStreamNumber: bool
    var sourceStreamNumber: Seven
    var did: Byte
    var sdid: Byte
    var dataCount: Byte
    const userData: array<Byte>
    var packetOffset: nat
    var packetSize: nat

    constructor ()
      ensures fresh(this) && fresh(userData) && userData.Length == MAX_DATA_COUNT
    {
      isColorDifferenceChannel, lineNumber, horizontalOffset := false, 0, 0;
      isValidSourceStreamNumber, sourceStreamNumber := false, 0;
      did, sdid, dataCount := 0, 0, 0;
      userData := new Byte[MAX_DATA_COUNT](_ => 0);
      packetOffset, packetSize := 0, 0;
    }

    function Value(): (p: PublicPacket)
      requires userData.Length == MAX_DATA_COUNT
      reads this, userData
      ensures p.Valid()
    {
      PublicPacket(isColorDifferenceChannel, lineNumber, horizontalOffset, isValidSourceStreamNumber, sourceStreamNumber,
                   did, sdid, userData[..dataCount])
    }
  }

  method CopyInternalToPublicPacket(dest: CdiAvmAncillaryDataPacket, source: AncillaryDataPacket)
    returns (parityErrors: nat)
    requires source.Valid() && dest.userData.Length == MAX_DATA_COUNT
    modifies dest, dest.userData
    ensures dest.userData.Length == MAX_DATA_COUNT && dest.Value() == ToPublic(old(source.Value()))
    ensures parityErrors == ParityErrorsIn(old(source.Value()).data)
  {
    hide ParityErrorsIn, StripParity, Parity8, ParityOk;
    ghost var us := source.Value().data;
    dest.isColorDifferenceChannel := source.isColorDifferenceChannel;
    dest.lineNumber := source.lineNumber;
    dest.horizontalOffset := source.horizontalOffset;
    dest.isValidSourceStreamNumber := source.isValidSourceStreamNumber;
    dest.sourceStreamNumber := source.sourceStreamNumber;
    dest.did := source.did;
    dest.sdid := source.sdid;
    dest.dataCount := source.dataCount;
    parityErrors := 0;
    NoUdws();
    var i := 0;
    while i < source.dataCount
      invariant 0 <= i <= source.dataCount && parityErrors == ParityErrorsIn(us[..i])
      invariant forall j :: 0 <= j < |us| ==> source.userData[j] == us[j]
      invariant forall j :: 0 <= j < i ==> dest.userData[j] == us[j] % 256
      modifies dest.userData
    {
      var value;
      value, parityErrors := CheckParityBits(source.userData[i], parityErrors);
      dest.userData[i] := value;
      ParityErrorsSnoc(us[..i], us[i]);
      assert us[..i + 1] == us[..i] + [us[i]];
      i := i + 1;
    }
    assert us[..i] == us;
    assert dest.userData[..dest.dataCount] == StripParity(us);
  }

  lemma {:induction false} NoUdws()
    ensures ParityErrorsIn([]) == 0
  {
  }

  lemma {:induction false} ParityErrorsSnoc(us: seq<Ten>, u: Ten)
    ensures ParityErrorsIn(us + [u]) == ParityErrorsIn(us) + One(!ParityOk(u))
  {
    assert (us + [u])[..|us|] == us;
  }

  method CopyPublicToInternalPacket(dest: AncillaryDataPacket, source: PublicPacket)
    requires source.Valid() && Whole(dest) && dest.userData[0] < 1024
    modifies dest, dest.userData
    ensures dest.Valid() && dest.Value() == ToInternal(source) && dest.dataCount == |source.data|
  {
    hide AddParity, Parity8, WithParityBits;
    dest.isColorDifferenceChannel := source.colorDifference;
    dest.lineNumber := source.line;
    dest.horizontalOffset := source.horizontalOffset;
    dest.isValidSourceStreamNumber := source.validStreamNumber;
    dest.sourceStreamNumber := source.streamNumber;
    dest.did := source.did;
    dest.sdid := source.sdid;
    dest.dataCount := |source.data|;
    var i := 0;
    while i < |source.data|
      invariant 0 <= i <= |source.data| && dest.userData[0] < 1024
      invariant forall j :: 0 <= j < i ==> dest.userData[j] == WithParityBits(source.data[j])
      modifies dest.userData
    {
      dest.userData[i] := WithParityBits(source.data[i]);
      i := i + 1;
    }
    assert dest.userData[..|source.data|] == AddParity(source.data);
  }

  /** Copying through the internal form, which adds and strips parity bits, changes nothing. */
  method CdiAvmCopyAncillaryDataPacket(dest: CdiAvmAncillaryDataPacket, source: PublicPacket)
    returns (parityErrors: nat)
    requires source.Valid() && dest.userData.Length == MAX_DATA_COUNT
    modifies dest, dest.userData
    ensures dest.userData.Length == MAX_DATA_COUNT && dest.Value() == source && parityErrors == 0
  {
    hide ToInternal, ToPublic, ParityErrorsIn;
    var internalPacket := new AncillaryDataPacket();
    CopyPublicToInternalPacket(internalPacket, source);
    PublicRoundTrip(source);
    parityErrors := CopyInternalToPublicPacket(dest, internalPacket);
  }

  // ----- Packetizing -----

  function WordsFor(dataCounts: seq<Byte>): nat {
    if dataCounts == [] then 0 else WordsFor(dataCounts[..|dataCounts| - 1]) + PacketSize(dataCounts[|dataCounts| - 1])
  }

  function DataCounts(ps: seq<PublicPacket>): (counts: seq<Byte>)
    requires AllValid(ps)
  {
    seq(|ps|, i requires 0 <= i < |ps| => |ps[i].data|)
  }

  lemma {:induction false} WordsForIsTotal(ps: seq<PublicPacket>)
    requires AllValid(ps)
    ensures WordsFor(DataCounts(ps)) == |EncodeAll(ps)|
  {
    hide EncodePacket, ToInternal, PacketSize, EncodeAll;
    if ps == [] {
      NoPackets();
    } else {
      var n := |ps| - 1;
      assert ps == ps[..n] + [ps[n]] && DataCounts(ps)[..n] == DataCounts(ps[..n]);
      WordsForIsTotal(ps[..n]);
      EncodeAllSnoc(ps[..n], ps[n]);
      EncodedSize(ps[n]);
    }
  }

  lemma {:induction false} NoPackets()
    ensures AllValid([]) && EncodeAll([]) == []
  {
  }

  /** Bytes needed for packets with these data counts. */
  method CdiAvmGetAncillaryDataPayloadSize(dataCounts: seq<Byte>) returns (sizeInBytes: nat)
    ensures forall kind, ps :: AllValid(ps) && DataCounts(ps) == dataCounts ==> sizeInBytes == 4 * |EncodePayload(kind, ps)|
  {
    hide EncodeAll, PacketSize, DataCounts, AllValid;
    var numWords := 1;
    var i := 0;
    while i < |dataCounts|
      invariant 0 <= i <= |dataCounts| && numWords == 1 + WordsFor(dataCounts[..i])
    {
      numWords := numWords + PacketSize(dataCounts[i]);
      assert dataCounts[..i + 1][..i] == dataCounts[..i];
      i := i + 1;
    }
    sizeInBytes := numWords * 4;
    assert dataCounts[..i] == dataCounts;
    forall kind, ps | AllValid(ps) && DataCounts(ps) == dataCounts
      ensures sizeInBytes == 4 * |EncodePayload(kind, ps)|
    {
      WordsForIsTotal(ps);
    }
  }

  /** Status of packetizing into a buffer of so many bytes. */
  function PacketizeStatus(kind: FieldKind, ps: seq<PublicPacket>, bufferSize: int): Status
    requires AllValid(ps)
  {
    if bufferSize < 0 then InvalidParameter
    else if ps != [] && 4 * |EncodePayload(kind, ps)| > bufferSize then BufferOverflow
    else Ok
  }

  /** The buffer after n packets: the header word still to be written, their words, and the rest untouched. */
  ghost predicate Filled(before: seq<Word>, after: seq<Word>, ps: seq<PublicPacket>, n: nat) {
    n <= |ps| && AllValid(ps[..n]) && 1 + |EncodeAll(ps[..n])| <= |before|
    && after == before[..1] + EncodeAll(ps[..n]) + before[1 + |EncodeAll(ps[..n])|..]
  }

  lemma {:induction false} FilledNone(before: seq<Word>, ps: seq<PublicPacket>)
    requires |before| >= 1
    ensures Filled(before, before, ps, 0) && EncodeAll(ps[..0]) == []
  {
    assert ps[..0] == [];
    assert before == before[..1] + [] + before[1..];
  }

  lemma {:induction false} FilledNext(before: seq<Word>, middle: seq<Word>, after: seq<Word>, ps: seq<PublicPacket>, n: nat)
    requires AllValid(ps) && n < |ps| && Filled(before, middle, ps, n)
    requires Overwritten(middle, after, 1 + |EncodeAll(ps[..n])|, EncodePacket(ToInternal(ps[n])))
    ensures Filled(before, after, ps, n + 1)
  {
    hide EncodeAll, EncodePacket, ToInternal, AllValid;
    PacketsUpTo(ps, n);
    var soFar, packet := EncodeAll(ps[..n]), EncodePacket(ToInternal(ps[n]));
    var offset := 1 + |soFar|;
    assert middle[..offset] == before[..1] + soFar;
    assert middle[offset + |packet|..] == before[offset + |packet|..];
    assert before[..1] + soFar + packet == before[..1] + (soFar + packet);
  }

  lemma {:induction false} FilledAll(before: seq<Word>, middle: seq<Word>, after: seq<Word>, ps: seq<PublicPacket>, n: nat, header: Word)
    requires AllValid(ps) && n == |ps| && ps[..n] == ps
    requires Filled(before, middle, ps, n) && after == [header] + middle[1..]
    ensures after == [header] + EncodeAll(ps) + before[1 + |EncodeAll(ps)|..]
  {
    hide EncodeAll, AllValid;
    var all := EncodeAll(ps);
    DropFirst(before[..1], all, before[1 + |all|..]);
    assert [header] + (all + before[1 + |all|..]) == [header] + all + before[1 + |all|..];
  }

  lemma {:induction false} DropFirst(a: seq<Word>, b: seq<Word>, c: seq<Word>)
    requires |a| == 1
    ensures (a + b + c)[1..] == b + c
  {
  }

  /** Writes the payload of the produced packets in front of what the buffer held, or fails. After an overflow
      the buffer holds the packets that fit, with nothing written past the given size. */
  method CdiAvmPacketizeAncillaryData(packets: seq<PublicPacket>, fieldKind: FieldKind, buffer: array<Word>, bufferSize: int)
    returns (rs: Status, sizeInBytes: nat)
    requires AllValid(packets) && buffer.Length >= 1 && bufferSize <= 4 * buffer.Length
    modifies buffer
    ensures rs == PacketizeStatus(fieldKind, packets, bufferSize)
    ensures sizeInBytes == if rs == Ok then 4 * |EncodePayload(fieldKind, packets)| else 0
    ensures rs == Ok ==>
              && |EncodePayload(fieldKind, packets)| <= buffer.Length
              && buffer[..] == EncodePayload(fieldKind, packets) + old(buffer[..])[|EncodePayload(fieldKind, packets)|..]
    ensures rs == InvalidParameter ==> buffer[..] == old(buffer[..])
    ensures rs == BufferOverflow ==>
              exists n :: 0 <= n < |packets| && Filled(old(buffer[..]), buffer[..], packets, n)
                          && (n == 0 || 4 * (1 + |EncodeAll(packets[..n])|) <= bufferSize)
                          && bufferSize < 4 * (1 + |EncodeAll(packets[..n])|) + 4 * PacketSize(|packets[n].data|)
  {
    hide EncodePacket, ToInternal, EncodeAll, PacketSize, PayloadHeader, AllValid, Filled, Overwritten;
    rs, sizeInBytes := Ok, 0;
    if bufferSize < 0 {
      rs := InvalidParameter;
    }
    var offset: nat := 1;
    var totalSize: nat := offset * 4;
    var ancPacketCount: nat := 0;
    ghost var before := buffer[..];
    FilledNone(before, packets);
    while rs == Ok && ancPacketCount < |packets|
      invariant ancPacketCount <= |packets|
      invariant Filled(before, buffer[..], packets, ancPacketCount) && AllValid(packets[..ancPacketCount])
      invariant rs == Ok || rs == BufferOverflow || rs == InvalidParameter
      invariant rs == InvalidParameter <==> bufferSize < 0
      invariant rs == InvalidParameter ==> buffer[..] == before
      invariant offset == 1 + |EncodeAll(packets[..ancPacketCount])|
      invariant ancPacketCount > 0 ==> 4 * offset <= bufferSize
      invariant rs == Ok ==> totalSize == 4 * offset
      invariant rs == BufferOverflow ==>
                  && ancPacketCount < |packets|
                  && bufferSize < 4 * offset + 4 * PacketSize(|packets[ancPacketCount].data|)
      decreases rs == Ok, |packets| - ancPacketCount
    {
      PacketsUpTo(packets, ancPacketCount);
      var packet := packets[ancPacketCount];
      totalSize := totalSize + PacketSize(|packet.data|) * 4;
      if totalSize > bufferSize {
        rs := BufferOverflow;
      } else {
        ghost var middle := buffer[..];
        var size := WritePublicPacket(buffer, offset, packet);
        FilledNext(before, middle, buffer[..], packets, ancPacketCount);
        offset := offset + size;
        ancPacketCount := ancPacketCount + 1;
      }
    }
    assert packets[..|packets|] == packets;
    if rs == Ok {
      ghost var middle := buffer[..];
      buffer[0] := PayloadHeader(ancPacketCount, fieldKind);
      assert buffer[..] == [buffer[0]] + middle[1..];
      FilledAll(before, middle, buffer[..], packets, ancPacketCount, buffer[0]);
      sizeInBytes := totalSize;
    } else {
      if rs == BufferOverflow {
        PacketsUpTo(packets, ancPacketCount);
      }
      sizeInBytes := 0;
    }
  }

  /** Writes a packet of the application by way of its internal form. */
  method WritePublicPacket(buffer: array<Word>, offset: nat, packet: PublicPacket) returns (size: nat)
    requires packet.Valid() && offset + PacketSize(|packet.data|) <= buffer.Length
    modifies buffer
    ensures size == PacketSize(|packet.data|)
    ensures Overwritten(old(buffer[..]), buffer[..], offset, EncodePacket(ToInternal(packet)))
  {
    hide EncodePacket, ToInternal, PacketSize, Overwritten;
    var internalPacket := new AncillaryDataPacket();
    CopyPublicToInternalPacket(internalPacket, packet);
    size := WriteAncillaryDataPacket(buffer, offset, internalPacket);
  }

  /** The packets before packet n and packet n itself: their words, and a bound by the words of all packets. */
  lemma {:induction false} PacketsUpTo(ps: seq<PublicPacket>, n: nat)
    requires AllValid(ps) && n < |ps|
    ensures ps[n].Valid() && AllValid(ps[..n]) && AllValid(ps[..n + 1])
    ensures EncodeAll(ps[..n + 1]) == EncodeAll(ps[..n]) + EncodePacket(ToInternal(ps[n]))
    ensures |EncodePacket(ToInternal(ps[n]))| == PacketSize(|ps[n].data|)
    ensures |EncodeAll(ps[..n + 1])| == |EncodeAll(ps[..n])| + PacketSize(|ps[n].data|) <= |EncodeAll(ps)|
  {
    hide EncodePacket, ToInternal, EncodeAll, PacketSize;
    EncodedSize(ps[n]);
    EncodeAllSnoc(ps[..n], ps[n]);
    assert ps[..n + 1] == ps[..n] + [ps[n]] && ps == ps[..n + 1] + ps[n + 1..];
    EncodeAllConcat(ps[..n + 1], ps[n + 1..]);
  }

  // ----- Unpacketizing -----

  /** The bytes of a scatter-gather list. */
  function Flatten(sgl: seq<seq<Byte>>): seq<Byte> {
    if sgl == [] then [] else Flatten(sgl[..|sgl| - 1]) + sgl[|sgl| - 1]
  }

  function UnpacketizeStatus(sgl: seq<seq<Byte>>, memoryAvailable: bool): Status {
    if |sgl| != 1 && !memoryAvailable then AllocationFailed
    else if |Flatten(sgl)| % 4 != 0 || |Flatten(sgl)| < 4 then InvalidParameter
    else UnpackStatus(WordsOf(Flatten(sgl)))
  }

  function UnpacketizeCalls(sgl: seq<seq<Byte>>, memoryAvailable: bool): seq<Call> {
    if |sgl| != 1 && !memoryAvailable then []
    else if |Flatten(sgl)| % 4 != 0 || |Flatten(sgl)| < 4 then []
    else UnpackCalls(WordsOf(Flatten(sgl)))
  }

  /** The application side of the callback: it keeps every call it receives. */
  class PacketConsumer {
    var calls: seq<Call>

    constructor ()
      ensures calls == []
    {
      calls := [];
    }

    method ConsumeNextPacket(kind: FieldKind, packet: CdiAvmAncillaryDataPacket, parityError: bool, checksumError: bool)
      requires packet.userData.Length == MAX_DATA_COUNT
      modifies this
      ensures calls == old(calls) + [PacketCall(kind, packet.Value(), packet.packetOffset, packet.packetSize,
                                                parityError, checksumError)]
    {
      calls := calls + [PacketCall(kind, packet.Value(), packet.packetOffset, packet.packetSize, parityError, checksumError)];
    }

    method ConsumeEnd(kind: FieldKind, parityError: bool, checksumError: bool)
      modifies this
      ensures calls == old(calls) + [EndCall(kind, parityError, checksumError)]
    {
      calls := calls + [EndCall(kind, parityError, checksumError)];
    }
  }

  method CopyToLinearBuffer(sgl: seq<seq<Byte>>) returns (buffer: array<Byte>)
    ensures fresh(buffer) && buffer[..] == Flatten(sgl)
  {
    var totalDataSize := TotalSize(sgl);
    buffer := new Byte[totalDataSize](_ => 0);
    var dest, entry := 0, 0;
    assert sgl[..|sgl|] == sgl;
    while entry < |sgl|
      invariant 0 <= entry <= |sgl| && dest == |Flatten(sgl[..entry])| <= buffer.Length
      invariant buffer[..dest] == Flatten(sgl[..entry])
    {
      FlattenNext(sgl, entry);
      var i := 0;
      while i < |sgl[entry]|
        invariant 0 <= i <= |sgl[entry]|
        invariant buffer[..dest] == Flatten(sgl[..entry]) && buffer[dest..dest + i] == sgl[entry][..i]
      {
        buffer[dest + i] := sgl[entry][i];
        i := i + 1;
      }
      assert buffer[..dest + i] == buffer[..dest] + buffer[dest..dest + i];
      dest := dest + |sgl[entry]|;
      entry := entry + 1;
    }
  }

  /** The total size that a well-formed scatter-gather list carries. */
  function TotalSize(sgl: seq<seq<Byte>>): (size: nat)
    ensures size == |Flatten(sgl)|
  {
    if sgl == [] then 0 else TotalSize(sgl[..|sgl| - 1]) + |sgl[|sgl| - 1]|
  }

  lemma {:induction false} FlattenNext(sgl: seq<seq<Byte>>, k: nat)
    requires k < |sgl|
    ensures Flatten(sgl[..k + 1]) == Flatten(sgl[..k]) + sgl[k]
    ensures |Flatten(sgl[..k + 1])| <= |Flatten(sgl)|
    decreases |sgl|
  {
    assert sgl[..k + 1][..k] == sgl[..k];
    var n := |sgl| - 1;
    if k < n {
      FlattenNext(sgl[..n], k);
      assert sgl[..n][..k + 1] == sgl[..k + 1];
    } else {
      assert sgl[..k + 1] == sgl;
    }
  }

  method ParseAncillaryDataPayloadHeader(words: seq<Word>) returns (packetCount: U16, kind: FieldKind)
    requires |words| >= 1
    ensures packetCount == CountOf(words) && kind == PayloadKind(words)
  {
    packetCount := words[0] / 0x1_0000;
    kind := KindOf(words[0] / 0x4000 % 4);
  }

  lemma {:induction false} WalkStep(ws: seq<Word>, count: nat)
    requires |ws| >= 2 && count != 0
    ensures Walk(ws, count) == (FirstSize(ws) <= |ws| && Walk(ws[FirstSize(ws)..], count - 1))
  {
    hide FirstSize;
  }

  lemma {:induction false} FirstSizeIs(ws: seq<Word>)
    requires |ws| >= 2
    ensures FirstSize(ws) == PacketSize(CountAt(WordBits(ws)))
  {
  }

  /** Whether the payload is a whole number of words that its packets fill exactly. */
  method PrecheckAncillaryDataPayload(buffer: seq<Byte>) returns (rs: Status)
    ensures rs == if |buffer| % 4 != 0 || |buffer| < 4 then InvalidParameter
                  else if DecodePayload(WordsOf(buffer)).Decoded? then Ok else InvalidPayload
  {
    hide Walk, FirstSize, Decode, WordsOf, CountAt, WordBits, Holds, HeaderParityErrors, TenAt, PacketSize;
    if |buffer| % 4 != 0 || |buffer| < 4 {
      return InvalidParameter;
    }
    var words := WordsOf(buffer);
    var ancPacketCount, unused := ParseAncillaryDataPayloadHeader(words);
    DecodeIffWalk(PayloadKind(words), words[1..], CountOf(words), 1);
    var payloadErrors := new AncillaryDataPayloadErrors();
    var packet := new AncillaryDataPacket();
    var offset: nat := 1;
    while offset < |words| && ancPacketCount != 0
      invariant 1 <= offset && Whole(packet)
      invariant Walk(words[1..], CountOf(words)) == (offset <= |words| && Walk(words[offset..], ancPacketCount))
      decreases ancPacketCount
    {
      if offset + 2 > |words| {
        // A packet has at least three words: the source reads past the payload and then finds it invalid.
        ShortWalk(words[offset..], ancPacketCount);
        return InvalidPayload;
      }
      ParseAncillaryDataPacketHeader(words, offset, packet, payloadErrors);
      WalkStep(words[offset..], ancPacketCount);
      FirstSizeIs(words[offset..]);
      var packetSize := PacketSize(packet.dataCount);
      assert offset + packetSize <= |words| ==> words[offset..][packetSize..] == words[offset + packetSize..];
      offset := offset + packetSize;
      ancPacketCount := ancPacketCount - 1;
    }
    WalkEnd(words, offset, ancPacketCount);
    rs := if offset != |words| || ancPacketCount != 0 then InvalidPayload else Ok;
  }

  lemma {:induction false} ShortWalk(ws: seq<Word>, count: nat)
    requires |ws| == 1 && count != 0
    ensures !Walk(ws, count)
  {
  }

  lemma {:induction false} WalkEnd(ws: seq<Word>, offset: nat, count: nat)
    requires offset >= |ws| || count == 0
    ensures (offset <= |ws| && Walk(ws[offset..], count)) == (offset == |ws| && count == 0)
  {
  }

  /** The calls and error counts so far, with those of the rest, are those of the whole payload. */
  ghost predicate SoFar(whole: Decoded, calls: seq<Call>, parityErrors: nat, checksumErrors: nat, rest: Decoded) {
    rest.Decoded? && whole == Decoded(parityErrors + rest.parityErrors, checksumErrors + rest.checksumErrors, calls + rest.calls)
  }

  lemma {:induction false} SoFarStep(kind: FieldKind, ws: seq<Word>, offset: nat, count: nat,
                  whole: Decoded, calls: seq<Call>, parityErrors: nat, checksumErrors: nat)
    requires offset < |ws| && count != 0
    requires SoFar(whole, calls, parityErrors, checksumErrors, Decode(kind, ws[offset..], count, offset))
    ensures var f := FrontOf(kind, ws[offset..], offset);
            && f.Front? && offset + f.size <= |ws|
            && SoFar(whole, calls + [f.call], parityErrors + f.parityErrors, checksumErrors + f.checksumErrors,
                     Decode(kind, ws[offset + f.size..], count - 1, offset + f.size))
  {
    hide FrontOf, Decode;
    DecodeStep(kind, ws[offset..], count, offset);
    var f := FrontOf(kind, ws[offset..], offset);
    assert ws[offset..][f.size..] == ws[offset + f.size..];
    var d := Decode(kind, ws[offset + f.size..], count - 1, offset + f.size);
    assert calls + ([f.call] + d.calls) == calls + [f.call] + d.calls;
  }

  lemma {:induction false} FrontFields(kind: FieldKind, ws: seq<Word>, offset: nat)
    requires FrontOf(kind, ws, offset).Front?
    ensures |ws| >= 2 && Holds(WordBits(ws))
    ensures var s := WordBits(ws);
            var size, p := PacketSize(CountAt(s)), PacketAt(s);
            && size <= |ws|
            && FrontOf(kind, ws, offset)
               == Front(size, HeaderParityErrors(s) + ParityErrorsIn(p.data), One(!ChecksumMatches(s)),
                        PacketCall(kind, ToPublic(p), 4 * offset, 4 * size, HeaderParityErrors(s) != 0, !ChecksumMatches(s)))
  {
    hide WordBits, HeaderParityErrors, ParityErrorsIn, ChecksumMatches, PacketAt, ToPublic, CountAt;
  }

  /** Unpacketizing depends only on the bytes, however they are fragmented: the status and the calls made are
      those of the payload read as a whole. */
  method CdiAvmUnpacketizeAncillaryData(sgl: seq<seq<Byte>>, memoryAvailable: bool, consumer: PacketConsumer)
    returns (rs: Status)
    requires |sgl| >= 1
    modifies consumer
    ensures rs == UnpacketizeStatus(sgl, memoryAvailable)
    ensures consumer.calls == old(consumer.calls) + UnpacketizeCalls(sgl, memoryAvailable)
  {
    hide WordsOf, DecodePayload, Decode;
    rs := Ok;
    var buffer: seq<Byte> := [];
    if |sgl| == 1 {
      OneEntry(sgl);
      buffer := sgl[0];
    } else if memoryAvailable {
      var linear := CopyToLinearBuffer(sgl);
      buffer := linear[..];
    } else {
      rs := AllocationFailed;
    }
    if rs == Ok {
      rs := PrecheckAncillaryDataPayload(buffer);
    }
    if rs == Ok {
      rs := DecodePackets(WordsOf(buffer), consumer);
    }
  }

  lemma {:induction false} OneEntry(sgl: seq<seq<Byte>>)
    requires |sgl| == 1
    ensures Flatten(sgl) == sgl[0]
  {
    assert Flatten(sgl[..0]) == [];
  }

  /** One round of the second pass: parses a packet, passes it on, and returns its size and errors. */
  method DecodeOnePacket(kind: FieldKind, words: seq<Word>, offset: nat, consumer: PacketConsumer)
    returns (size: nat, parityErrors: nat, checksumErrors: nat)
    requires offset <= |words| && FrontOf(kind, words[offset..], offset).Front?
    modifies consumer
    ensures var f := FrontOf(kind, words[offset..], offset);
            && size == f.size && parityErrors == f.parityErrors && checksumErrors == f.checksumErrors
            && consumer.calls == old(consumer.calls) + [f.call]
  {
    hide CountAt, WordBits, Holds, HeaderParityErrors, ParityErrorsIn, PacketSize, PacketAt, ToPublic, ChecksumMatches, FrontOf;
    FrontFields(kind, words[offset..], offset);
    var internalPacket := new AncillaryDataPacket();
    var packetErrors := new AncillaryDataPayloadErrors();
    size := ParseAncillaryDataPacket(words, offset, internalPacket, packetErrors);
    parityErrors, checksumErrors := 0, 0;
    if offset + size <= |words| {
      var packet := new CdiAvmAncillaryDataPacket();
      var userDataErrors := CopyInternalToPublicPacket(packet, internalPacket);
      packet.packetOffset := 4 * offset;
      packet.packetSize := 4 * size;
      consumer.ConsumeNextPacket(kind, packet, 0 != packetErrors.parityErrors, 0 != packetErrors.checksumErrors);
      parityErrors := packetErrors.parityErrors + userDataErrors;
      checksumErrors := packetErrors.checksumErrors;
    }
  }

  /** The second pass, on a payload that passed the precheck: its own InvalidPayload branch is never taken. */
  method DecodePackets(words: seq<Word>, consumer: PacketConsumer) returns (rs: Status)
    requires |words| >= 1 && DecodePayload(words).Decoded?
    modifies consumer
    ensures rs == UnpackStatus(words) && rs != InvalidPayload
    ensures consumer.calls == old(consumer.calls) + UnpackCalls(words)
  {
    hide Decode, SoFar, FrontOf;
    ghost var whole := DecodePayload(words);
    ghost var calls: seq<Call> := [];
    var ancPacketCount, fieldKind := ParseAncillaryDataPayloadHeader(words);
    rs := Ok;
    var parityErrors: nat, checksumErrors: nat := 0, 0;
    var offset: nat := 1;
    SoFarStart(whole);
    while offset < |words| && ancPacketCount != 0
      invariant 1 <= offset <= |words|
      invariant SoFar(whole, calls, parityErrors, checksumErrors, Decode(fieldKind, words[offset..], ancPacketCount, offset))
      invariant consumer.calls == old(consumer.calls) + calls
      decreases ancPacketCount
    {
      SoFarStep(fieldKind, words, offset, ancPacketCount, whole, calls, parityErrors, checksumErrors);
      ghost var front := FrontOf(fieldKind, words[offset..], offset);
      var size, packetParityErrors, packetChecksumErrors := DecodeOnePacket(fieldKind, words, offset, consumer);
      calls := calls + [front.call];
      parityErrors := parityErrors + packetParityErrors;
      checksumErrors := checksumErrors + packetChecksumErrors;
      offset := offset + size;
      ancPacketCount := ancPacketCount - 1;
    }
    SoFarEnd(fieldKind, words, offset, ancPacketCount, whole, calls, parityErrors, checksumErrors);
    if offset != |words| || ancPacketCount != 0 {
      rs := InvalidPayload;
    } else {
      if 0 != parityErrors || 0 != checksumErrors {
        rs := RxPayloadError;
      }
      consumer.ConsumeEnd(fieldKind, 0 != parityErrors, 0 != checksumErrors);
    }
  }

  lemma {:induction false} SoFarStart(whole: Decoded)
    requires whole.Decoded?
    ensures SoFar(whole, [], 0, 0, whole)
  {
    assert [] + whole.calls == whole.calls;
  }

  lemma {:induction false} SoFarEnd(kind: FieldKind, ws: seq<Word>, offset: nat, count: nat,
                 whole: Decoded, calls: seq<Call>, parityErrors: nat, checksumErrors: nat)
    requires offset <= |ws| && (offset == |ws| || count == 0)
    requires SoFar(whole, calls, parityErrors, checksumErrors, Decode(kind, ws[offset..], count, offset))
    ensures offset == |ws| && count == 0 && whole == Decoded(parityErrors, checksumErrors, calls)
  {
    assert calls + [] == calls;
  }

  /** End to end: whatever fragments carry the bytes of a packetized payload, the consumer receives the packets
      in order, without error, and then the end of the payload. */
  lemma {:induction false} DeliveredThroughFragments(kind: FieldKind, ps: seq<PublicPacket>, sgl: seq<seq<Byte>>)
    requires AllValid(ps) && |ps| <= 0xffff && Flatten(sgl) == BytesOf(EncodePayload(kind, ps))
    ensures UnpacketizeStatus(sgl, true) == Ok
    ensures UnpacketizeCalls(sgl, true) == ExpectedCalls(kind, ps, 1) + [EndCall(kind, false, false)]
  {
    hide WordsOf, BytesOf, UnpackStatus, UnpackCalls, EncodePayload, ExpectedCalls;
    WordsOfBytes(EncodePayload(kind, ps));
    RoundTrip(kind, ps);
  }
}
