/** What any video configuration text means, parameter by parameter, and which texts are rejected. */
module BaselineMeaning {
  import opened Text
  import opened BaselineKeys
  import opened BaselineParams
  import opened BaselineVideo
  import opened BaselineOrder

  // ----- Names and values -----

  /** The token gives a value to this parameter. */
  predicate Gives(t: string, name: string) {
    NamedBy(t, name) && HasValue(t)
  }

  /** The last token that gives a value to a parameter. */
  function LastAt(ts: seq<string>, name: string): (i: Option<nat>)
    ensures i.Some? ==> i.value < |ts| && Gives(ts[i.value], name)
  {
    if ts == [] then None
    else if Gives(ts[|ts| - 1], name) then Some(|ts| - 1)
    else LastAt(ts[..|ts| - 1], name)
  }

  /** The version in force behind these tokens. */
  function VersionIn(v: Version, ts: seq<string>): Version {
    if ts == [] then v
    else
      var t := ts[|ts| - 1];
      if Gives(t, "cdi_profile_version") && VersionMeaning(Value(t)).Some? then VersionMeaning(Value(t)).value
      else VersionIn(v, ts[..|ts| - 1])
  }

  // ----- Tokens that are rejected -----

  /** The name is in the table of the profile of a version. */
  predicate InTable<T>(v: Version, keys: Profile -> seq<Key<T>>, name: string) {
    && FindProfileVersion(v).Some?
    && exists k :: 0 <= k < |keys(FindProfileVersion(v).value)| && CaseEqual(name, keys(FindProfileVersion(v).value)[k].name)
  }

  /** The pieces before and behind the first such character. */
  function Before(v: string, c: char): string {
    v[..Find(v, c)]
  }

  function Behind(v: string, c: char): string {
    if Find(v, c) < |v| then v[Find(v, c) + 1..] else ""
  }

  /** The pieces of a partial frame, cut at the first x and at the next two plus signs. */
  function Pieces(v: string): (ps: seq<string>)
    ensures |ps| == 4
  {
    var frame := Behind(v, 'x');
    var pos := Behind(frame, '+');
    [Before(v, 'x'), Before(frame, '+'), Before(pos, '+'), Behind(pos, '+')]
  }

  predicate HasPieces(v: string) {
    'x' in v && '+' in Behind(v, 'x') && '+' in Behind(Behind(v, 'x'), '+')
  }

  predicate NeedsValue(t: string) {
    exists k :: 0 <= k < |NAMES| && NAMES[k] != "interlace" && NAMES[k] != "segmented" && NamedBy(t, NAMES[k])
  }

  /** A known parameter without a value that it needs, or with a value outside its table. */
  predicate Bad(v: Version, t: string) {
    if !HasValue(t) then NeedsValue(t)
    else
      || (NamedBy(t, "cdi_profile_version") && VersionMeaning(Value(t)).None?)
      || (NamedBy(t, "sampling") && !InTable(v, SamplingKeys, Value(t)))
      || (NamedBy(t, "depth") && Atoi(Value(t)).Some? && Atoi(Value(t)).value !in {8, 10, 12})
      || (NamedBy(t, "colorimetry") && !InTable(v, _ => ColorimetryKeys(), Value(t)))
      || (NamedBy(t, "TCS") && !InTable(v, TcsKeys, Value(t)))
      || (NamedBy(t, "RANGE") && !InTable(v, RangeKeys, Value(t)))
      || (NamedBy(t, "partial_frame") && !HasPieces(Value(t)))
  }

  lemma {:induction false} NamedIff(t: string, k: nat)
    requires k < 14
    ensures |ParamKeys()| == 14 && (ValueOf(ParamKeys(), ParamName(t)) == Some(ParamKeys()[k].value) <==> NamedBy(t, NAMES[k]))
  {
    hide ParamKeys, ValueOf, CaseEqual;
    NamesAre(k);
    if NamedBy(t, NAMES[k]) {
      ParamOf(t, k);
    } else if ValueOf(ParamKeys(), ParamName(t)) == Some(ParamKeys()[k].value) {
      var j := FoundAt(ParamKeys(), ParamName(t));
      NamesAre(j);
      DistinctParams(j, k);
    }
  }

  lemma {:induction false} DistinctParams(j: nat, k: nat)
    requires j < |ParamKeys()| && k < |ParamKeys()| && ParamKeys()[j].value == ParamKeys()[k].value
    ensures j == k
  {
  }

  lemma {:induction false} FoundAt<T>(table: seq<Key<T>>, name: string) returns (k: nat)
    requires ValueOf(table, name).Some?
    ensures k < |table| && ValueOf(table, name) == Some(table[k].value) && CaseEqual(name, table[k].name)
  {
    if CaseEqual(name, table[0].name) {
      k := 0;
    } else {
      k := FoundAt(table[1..], name);
      k := k + 1;
    }
  }

  /** The parameter that a token names, if it names one. */
  function ParamNamed(t: string): Option<Param> {
    ValueOf(ParamKeys(), ParamName(t))
  }

  /** Each name stands for its parameter, and for no other. */
  lemma {:induction false} Names(t: string)
    ensures ParamNamed(t) == Some(PVersion) <==> NamedBy(t, "cdi_profile_version")
    ensures ParamNamed(t) == Some(PSampling) <==> NamedBy(t, "sampling")
    ensures ParamNamed(t) == Some(PDepth) <==> NamedBy(t, "depth")
    ensures ParamNamed(t) == Some(PWidth) <==> NamedBy(t, "width")
    ensures ParamNamed(t) == Some(PHeight) <==> NamedBy(t, "height")
    ensures ParamNamed(t) == Some(PRate) <==> NamedBy(t, "exactframerate")
    ensures ParamNamed(t) == Some(PColorimetry) <==> NamedBy(t, "colorimetry")
    ensures ParamNamed(t) == Some(PInterlace) <==> NamedBy(t, "interlace")
    ensures ParamNamed(t) == Some(PSegmented) <==> NamedBy(t, "segmented")
    ensures ParamNamed(t) == Some(PTcs) <==> NamedBy(t, "TCS")
    ensures ParamNamed(t) == Some(PRange) <==> NamedBy(t, "RANGE")
    ensures ParamNamed(t) == Some(PPar) <==> NamedBy(t, "PAR")
    ensures ParamNamed(t) == Some(PAlpha) <==> NamedBy(t, "alpha_included")
    ensures ParamNamed(t) == Some(PPartialFrame) <==> NamedBy(t, "partial_frame")
  {
    hide ValueOf, NamedBy;
    ParamsAre();
    NamedIff(t, 0); NamedIff(t, 1); NamedIff(t, 2); NamedIff(t, 3); NamedIff(t, 4); NamedIff(t, 5); NamedIff(t, 6);
    NamedIff(t, 7); NamedIff(t, 8); NamedIff(t, 9); NamedIff(t, 10); NamedIff(t, 11); NamedIff(t, 12); NamedIff(t, 13);
  }

  lemma {:induction false} ParamsAre()
    ensures |ParamKeys()| == 14
    ensures ParamKeys()[0].value == PVersion && ParamKeys()[1].value == PSampling && ParamKeys()[2].value == PDepth
    ensures ParamKeys()[3].value == PWidth && ParamKeys()[4].value == PHeight && ParamKeys()[5].value == PRate
    ensures ParamKeys()[6].value == PColorimetry && ParamKeys()[7].value == PInterlace && ParamKeys()[8].value == PSegmented
    ensures ParamKeys()[9].value == PTcs && ParamKeys()[10].value == PRange && ParamKeys()[11].value == PPar
    ensures ParamKeys()[12].value == PAlpha && ParamKeys()[13].value == PPartialFrame
  {
    hide ParamKeys;
    FirstParams();
    LastParams();
  }

  lemma {:induction false} FirstParams()
    ensures |ParamKeys()| == 14
    ensures ParamKeys()[0].value == PVersion && ParamKeys()[1].value == PSampling && ParamKeys()[2].value == PDepth
    ensures ParamKeys()[3].value == PWidth && ParamKeys()[4].value == PHeight && ParamKeys()[5].value == PRate
    ensures ParamKeys()[6].value == PColorimetry
  {
  }

  lemma {:induction false} LastParams()
    ensures |ParamKeys()| == 14
    ensures ParamKeys()[7].value == PInterlace && ParamKeys()[8].value == PSegmented && ParamKeys()[9].value == PTcs
    ensures ParamKeys()[10].value == PRange && ParamKeys()[11].value == PPar && ParamKeys()[12].value == PAlpha
    ensures ParamKeys()[13].value == PPartialFrame
  {
  }

  lemma {:induction false} NeedsValueIs(t: string)
    ensures NeedsValue(t) <==> ParamNamed(t).Some? && ParamNamed(t) != Some(PInterlace) && ParamNamed(t) != Some(PSegmented)
  {
    hide NamedBy, ParamNamed;
    Names(t);
    NameList();
    if ParamNamed(t).Some? {
      var k := Position(ParamNamed(t).value);
      NamedIff(t, k);
    }
  }

  /** Where a parameter is listed. */
  lemma {:induction false} Position(p: Param) returns (k: nat)
    ensures k < 14 && |ParamKeys()| == 14 && ParamKeys()[k].value == p && (k == 7 <==> p == PInterlace) && (k == 8 <==> p == PSegmented)
  {
    ParamsAre();
    k := match p case PVersion => 0 case PSampling => 1 case PDepth => 2 case PWidth => 3 case PHeight => 4 case PRate => 5
                 case PColorimetry => 6 case PInterlace => 7 case PSegmented => 8 case PTcs => 9 case PRange => 10 case PPar => 11
                 case PAlpha => 12 case PPartialFrame => 13;
  }

  lemma {:induction false} NameList()
    ensures |NAMES| == 14
    ensures NAMES[0] == "cdi_profile_version" && NAMES[1] == "sampling" && NAMES[2] == "depth" && NAMES[3] == "width"
    ensures NAMES[4] == "height" && NAMES[5] == "exactframerate" && NAMES[6] == "colorimetry" && NAMES[7] == "interlace"
    ensures NAMES[8] == "segmented" && NAMES[9] == "TCS" && NAMES[10] == "RANGE" && NAMES[11] == "PAR"
    ensures NAMES[12] == "alpha_included" && NAMES[13] == "partial_frame"
    ensures forall k :: 0 <= k < 14 && k != 7 && k != 8 ==> NAMES[k] != "interlace" && NAMES[k] != "segmented"
  {
    forall k | 0 <= k < 14 && k != 7 && k != 8
      ensures NAMES[k] != "interlace" && NAMES[k] != "segmented"
    {
      NameLength(k);
      assert |"interlace"| == 9 && |"segmented"| == 9;
    }
  }

  lemma {:induction false} NameLength(k: nat)
    requires k < 14
    ensures |NAMES| == 14 && |NAMES[k]| == NAME_LENGTHS[k]
  {
    hide ParamKeys;
    NamesAre(k);
    NameShapes(k);
    assert ParamKeys()[k].name == NAMES[k] && |ParamKeys()[k].name| == NAME_LENGTHS[k];
  }

  // ----- One token -----

  /** A number that does not fit in an int, so that what it stands for is not specified. */
  predicate TooLong(s: string) {
    Atoi(s).None?
  }

  /** The parameter is given a number, or one of several numbers, that is too long. */
  predicate Vague(t: string) {
    HasValue(t) && var v := Value(t);
    || (NamedBy(t, "depth") && TooLong(v))
    || (NamedBy(t, "width") && TooLong(v))
    || (NamedBy(t, "height") && TooLong(v))
    || (NamedBy(t, "exactframerate") && (TooLong(Before(v, '/')) || TooLong(Behind(v, '/'))))
    || (NamedBy(t, "PAR") && (TooLong(Before(v, ':')) || TooLong(Behind(v, ':'))))
    || (NamedBy(t, "partial_frame") && HasPieces(v) && exists k :: 0 <= k < 4 && TooLong(Pieces(v)[k]))
  }

  lemma {:induction false} AtoiEmpty()
    ensures Atoi("") == Some(0)
  {
  }

  lemma {:induction false} SetterOutcome(c: VideoConfig, v: string)
    ensures !SetRate(c, v).Rejected? && (SetRate(c, v).Unspecified? <==> TooLong(Before(v, '/')) || TooLong(Behind(v, '/')))
    ensures !SetPar(c, v).Rejected? && (SetPar(c, v).Unspecified? <==> TooLong(Before(v, ':')) || TooLong(Behind(v, ':')))
    ensures SetDepth(c, v).Rejected? <==> Atoi(v).Some? && Atoi(v).value !in {8, 10, 12}
    ensures SetDepth(c, v).Unspecified? <==> TooLong(v)
  {
    hide Atoi;
    AtoiEmpty();
  }

  lemma {:induction false} FrameOutcome(c: VideoConfig, v: string)
    ensures SetPartialFrame(c, v).Rejected? <==> !HasPieces(v)
    ensures SetPartialFrame(c, v).Unspecified? <==> HasPieces(v) && exists k :: 0 <= k < 4 && TooLong(Pieces(v)[k])
  {
    hide Atoi, Pieces, HasPieces, SetPartialFrame, To16;
    CutFrame(c, v);
    FourPieces(Pieces(v));
  }

  lemma {:induction false} FourPieces(ps: seq<string>)
    requires |ps| == 4
    ensures TooLong(ps[0]) || TooLong(ps[1]) || TooLong(ps[2]) || TooLong(ps[3]) <==> exists k :: 0 <= k < 4 && TooLong(ps[k])
  {
    hide TooLong;
  }

  lemma {:induction false} FoundIff(v: string, c: char)
    ensures Find(v, c) < |v| <==> c in v
  {
  }

  /** A partial frame is read from its four pieces. */
  lemma {:induction false} CutFrame(c: VideoConfig, v: string)
    ensures SetPartialFrame(c, v) == if !HasPieces(v) then Rejected else FromPieces(c, Pieces(v))
  {
    hide Atoi, Find, To16;
    var frame := Behind(v, 'x');
    FoundIff(v, 'x');
    FoundIff(frame, '+');
    FoundIff(Behind(frame, '+'), '+');
  }

  function FromPieces(c: VideoConfig, ps: seq<string>): Parsed<VideoConfig>
    requires |ps| == 4
  {
    var hs, vs, hp, vp := Atoi(ps[0]), Atoi(ps[1]), Atoi(ps[2]), Atoi(ps[3]);
    if hs.None? || vs.None? || hp.None? || vp.None? then Unspecified
    else Parsed(c.(horizontalSize := To16(hs.value), verticalSize := To16(vs.value),
                   startHorizontalPos := To16(hp.value), startVerticalPos := To16(vp.value)))
  }

  lemma {:induction false} LookupIs<T>(v: Version, keys: Profile -> seq<Key<T>>, name: string)
    ensures Lookup(v, keys, name).Some? <==> InTable(v, keys, name)
  {
    hide ValueOf, CaseEqual;
    if FindProfileVersion(v).Some? {
      ValueOfNone(keys(FindProfileVersion(v).value), name);
    }
  }

  lemma {:induction false} OneName(t: string, p: Param)
    requires ParamNamed(t) == Some(p)
    ensures NamedBy(t, "cdi_profile_version") <==> p == PVersion
    ensures NamedBy(t, "sampling") <==> p == PSampling
    ensures NamedBy(t, "depth") <==> p == PDepth
    ensures NamedBy(t, "width") <==> p == PWidth
    ensures NamedBy(t, "height") <==> p == PHeight
    ensures NamedBy(t, "exactframerate") <==> p == PRate
    ensures NamedBy(t, "colorimetry") <==> p == PColorimetry
    ensures NamedBy(t, "interlace") <==> p == PInterlace
    ensures NamedBy(t, "segmented") <==> p == PSegmented
    ensures NamedBy(t, "TCS") <==> p == PTcs
    ensures NamedBy(t, "RANGE") <==> p == PRange
    ensures NamedBy(t, "PAR") <==> p == PPar
    ensures NamedBy(t, "alpha_included") <==> p == PAlpha
    ensures NamedBy(t, "partial_frame") <==> p == PPartialFrame
  {
    hide ParamNamed, NamedBy;
    Names(t);
  }

  /** When one token is rejected, and when what it means is not specified. */
  lemma {:induction false} TokenOutcome(d: VideoConfig, t: string)
    ensures ParseParam(d, t).Rejected? <==> Bad(d.version, t)
    ensures ParseParam(d, t).Unspecified? <==> Vague(t)
  {
    hide ParamNamed, NamedBy, InTable, HasPieces, SetRate, SetPar, SetDepth, SetPartialFrame, Atoi;
    hide Lookup, Before, Behind, Pieces, CaseEqual, VersionMeaning, VersionOfString, NeedsValue;
    NeedsValueIs(t);
    Names(t);
    NamedIs(d, t);
    if HasValue(t) && ParamNamed(t).Some? {
      ValueOutcome(d, t, ParamNamed(t).value);
    }
  }

  lemma {:induction false} NamedIs(d: VideoConfig, t: string)
    ensures ParseParam(d, t) == match ParamNamed(t)
                                case None => Parsed(d)
                                case Some(p) => if HasValue(t) then SetValue(d, p, Value(t)) else SetFlag(d, p)
  {
    hide ValueOf, SetValue, SetFlag, ParamKeys;
  }

  lemma {:induction false} ValueOutcome(d: VideoConfig, t: string, p: Param)
    requires ParamNamed(t) == Some(p) && HasValue(t)
    ensures SetValue(d, p, Value(t)).Rejected? <==> Bad(d.version, t)
    ensures SetValue(d, p, Value(t)).Unspecified? <==> Vague(t)
  {
    hide ParamNamed, NamedBy, InTable, HasPieces, SetRate, SetPar, SetDepth, SetPartialFrame;
    hide Atoi, Lookup, Before, Behind, Pieces, CaseEqual, VersionMeaning, VersionOfString;
    OneName(t, p);
    var v := Value(t);
    SetterOutcome(d, v);
    FrameOutcome(d, v);
    LookupIs(d.version, SamplingKeys, v);
    LookupIs(d.version, _ => ColorimetryKeys(), v);
    LookupIs(d.version, TcsKeys, v);
    LookupIs(d.version, RangeKeys, v);
    VersionOfStringIs(v);
  }

  // ----- Whole texts: what is rejected -----

  /** A token that is neither rejected nor vague, behind those before it. */
  predicate Fine(v: Version, ts: seq<string>, i: nat)
    requires i < |ts|
  {
    !Bad(VersionIn(v, ts[..i]), ts[i]) && !Vague(ts[i])
  }

  predicate AllFine(v: Version, ts: seq<string>) {
    forall i :: 0 <= i < |ts| ==> Fine(v, ts, i)
  }

  /** Some token is rejected, and all before it are fine. */
  predicate FirstBad(v: Version, ts: seq<string>) {
    exists i :: 0 <= i < |ts| && Bad(VersionIn(v, ts[..i]), ts[i]) && AllFine(v, ts[..i])
  }

  /** Some token is vague, and all before it are fine. */
  predicate FirstVague(v: Version, ts: seq<string>) {
    exists i :: 0 <= i < |ts| && Vague(ts[i]) && AllFine(v, ts[..i])
  }

  lemma {:induction false} FinePrefix(v: Version, ts: seq<string>, t: string)
    ensures AllFine(v, ts + [t]) <==> AllFine(v, ts) && !Bad(VersionIn(v, ts), t) && !Vague(t)
    ensures FirstBad(v, ts + [t]) <==> FirstBad(v, ts) || (AllFine(v, ts) && Bad(VersionIn(v, ts), t))
    ensures FirstVague(v, ts + [t]) <==> FirstVague(v, ts) || (AllFine(v, ts) && Vague(t))
  {
    hide Bad, Vague, VersionIn;
    var us := ts + [t];
    assert us[..|ts|] == ts && us[|ts|] == t;
    assert forall i :: 0 <= i < |ts| ==> us[i] == ts[i] && us[..i] == ts[..i];
    if AllFine(v, ts) && !Bad(VersionIn(v, ts), t) && !Vague(t) {
      forall i | 0 <= i < |us| ensures Fine(v, us, i) {
        assert i < |ts| ==> Fine(v, ts, i);
      }
    }
    if AllFine(v, us) {
      forall i | 0 <= i < |ts| ensures Fine(v, ts, i) {
        assert Fine(v, us, i);
      }
      assert Fine(v, us, |ts|);
    }
  }

  lemma {:induction false} VersionStep(v: Version, ts: seq<string>, d: VideoConfig, t: string, c: VideoConfig)
    requires ParseParam(d, t) == Parsed(c) && d.version == VersionIn(v, ts)
    ensures c.version == VersionIn(v, ts + [t])
  {
    hide ParamNamed, NamedBy, SetRate, SetPar, SetDepth, SetPartialFrame, Lookup, VersionMeaning, VersionOfString, Atoi, CaseEqual;
    var us := ts + [t];
    assert us[..|us| - 1] == ts && us[|us| - 1] == t;
    Names(t);
    NamedIs(d, t);
    if HasValue(t) && ParamNamed(t).Some? {
      var p := ParamNamed(t).value;
      SetterCopies(d, p, Value(t));
      VersionOfStringIs(Value(t));
    }
  }

  /** A value changes only the fields of its parameter. */
  lemma {:induction false} SetterCopies(d: VideoConfig, p: Param, v: string)
    ensures SetValue(d, p, v).Parsed? ==> SetValue(d, p, v).config == Copy(d, SetValue(d, p, v).config, p)
  {
    hide Lookup, VersionOfString, Atoi, CaseEqual, Find;
  }

  lemma {:induction false} Outcome(v: Version, ts: seq<string>)
    ensures ParseTokens(Default(v), ts).Parsed? <==> AllFine(v, ts)
    ensures ParseTokens(Default(v), ts).Rejected? <==> FirstBad(v, ts)
    ensures ParseTokens(Default(v), ts).Unspecified? <==> FirstVague(v, ts)
    ensures ParseTokens(Default(v), ts).Parsed? ==> ParseTokens(Default(v), ts).config.version == VersionIn(v, ts)
    decreases |ts|
  {
    hide ParseParam, Bad, Vague, AllFine, FirstBad, FirstVague;
    if ts == [] {
      NothingWrong(v);
    } else {
      var us, t := ts[..|ts| - 1], ts[|ts| - 1];
      assert ts == us + [t];
      Outcome(v, us);
      FinePrefix(v, us, t);
      Exclusive(v, us);
      ParseConcat(Default(v), us, [t]);
      match ParseTokens(Default(v), us)
      case Parsed(d) =>
        ParseOne(d, t);
        TokenOutcome(d, t);
        if ParseParam(d, t).Parsed? {
          VersionStep(v, us, d, t, ParseParam(d, t).config);
        }
      case _ =>
    }
  }

  lemma {:induction false} NothingWrong(v: Version)
    ensures AllFine(v, []) && !FirstBad(v, []) && !FirstVague(v, [])
  {
  }

  lemma {:induction false} Exclusive(v: Version, ts: seq<string>)
    ensures FirstBad(v, ts) || FirstVague(v, ts) ==> !AllFine(v, ts)
  {
    hide Bad, Vague, VersionIn;
    if i :| 0 <= i < |ts| && Bad(VersionIn(v, ts[..i]), ts[i]) && AllFine(v, ts[..i]) {
      assert !Fine(v, ts, i);
    }
    if i :| 0 <= i < |ts| && Vague(ts[i]) && AllFine(v, ts[..i]) {
      assert !Fine(v, ts, i);
    }
  }

  /** A text is parsed if each of its tokens is fine behind those before it. It is rejected if the first one that is not
      is a known parameter without a value that it needs, or with one outside its table. */
  lemma {:induction false} RejectedIff(v: Version, text: string)
    ensures ParseVideo(v, text).Rejected? <==> FirstBad(v, Tokens(text))
    ensures ParseVideo(v, text).Parsed? <==> AllFine(v, Tokens(text))
  {
    hide Tokens, FirstBad, AllFine, FirstVague;
    Outcome(v, Tokens(text));
  }

  // ----- Whole texts: what the fields are -----

  /** A parameter stands alone somewhere. */
  predicate Alone(ts: seq<string>, name: string) {
    exists i :: 0 <= i < |ts| && NamedBy(ts[i], name) && !HasValue(ts[i])
  }

  predicate Enables(t: string) {
    Gives(t, "alpha_included") && CaseEqual(Value(t), "enabled")
  }

  /** The flags. */
  predicate FlagsMeant(ts: seq<string>, c: VideoConfig) {
    && (c.interlace <==> Alone(ts, "interlace"))
    && (c.segmented <==> Alone(ts, "segmented"))
    && (c.alphaUsed <==> exists i :: 0 <= i < |ts| && Enables(ts[i]))
  }

  predicate IsWord(s: string, n: U16) {
    Atoi(s).Some? && n == Atoi(s).value % 0x1_0000
  }

  predicate IsDoubleWord(s: string, n: U32) {
    Atoi(s).Some? && n == Atoi(s).value % 0x1_0000_0000
  }

  /** The last value of a parameter. */
  function LastValue(ts: seq<string>, name: string): Option<string> {
    match LastAt(ts, name)
    case None => None
    case Some(i) => Some(Value(ts[i]))
  }

  /** The frame size and depth. */
  predicate SizesMeant(ts: seq<string>, c: VideoConfig) {
    && (match LastValue(ts, "width") case None => c.width == 0 case Some(s) => IsWord(s, c.width))
    && (match LastValue(ts, "height") case None => c.height == 0 case Some(s) => IsWord(s, c.height))
    && (match LastValue(ts, "depth") case None => c.depth == Depth8 case Some(s) => Atoi(s) == Some(Bits(c.depth)))
  }

  predicate RateMeant(ts: seq<string>, c: VideoConfig) {
    match LastValue(ts, "exactframerate")
    case None => c.rateNum == 0 && c.rateDen == 0
    case Some(s) =>
      && IsDoubleWord(Before(s, '/'), c.rateNum)
      && (if '/' in s then IsDoubleWord(Behind(s, '/'), c.rateDen) else c.rateDen == 1)
  }

  /** The last height of the pixel aspect ratio; a value without a colon leaves it as it is. */
  function LastHeight(ts: seq<string>): Option<string> {
    if ts == [] then None
    else
      var t := ts[|ts| - 1];
      if Gives(t, "PAR") && ':' in Value(t) then Some(Behind(Value(t), ':')) else LastHeight(ts[..|ts| - 1])
  }

  predicate ParMeant(ts: seq<string>, c: VideoConfig) {
    && (match LastValue(ts, "PAR") case None => c.parWidth == 1 case Some(s) => IsWord(Before(s, ':'), c.parWidth))
    && (match LastHeight(ts) case None => c.parHeight == 1 case Some(s) => IsWord(s, c.parHeight))
  }

  /** Width, height, horizontal and vertical position, in this order. */
  predicate FrameMeant(ts: seq<string>, c: VideoConfig) {
    match LastValue(ts, "partial_frame")
    case None => !PartialFrame(c)
    case Some(s) =>
      && HasPieces(s) && IsWord(Pieces(s)[0], c.horizontalSize) && IsWord(Pieces(s)[1], c.verticalSize)
      && IsWord(Pieces(s)[2], c.startHorizontalPos) && IsWord(Pieces(s)[3], c.startVerticalPos)
  }

  /** A value is listed under this name in the table of a version. */
  predicate Listed<T(==)>(v: Version, keys: Profile -> seq<Key<T>>, name: string, value: T) {
    && FindProfileVersion(v).Some?
    && exists k :: 0 <= k < |keys(FindProfileVersion(v).value)| && keys(FindProfileVersion(v).value)[k].value == value
                   && CaseEqual(name, keys(FindProfileVersion(v).value)[k].name)
  }

  /** The name was looked up in the table of the version that was in force behind the tokens before it. */
  predicate ListedLast<T(==)>(v: Version, ts: seq<string>, name: string, keys: Profile -> seq<Key<T>>, value: T, default: T) {
    match LastAt(ts, name)
    case None => value == default
    case Some(i) => Listed(VersionIn(v, ts[..i]), keys, Value(ts[i]), value)
  }

  predicate NamesMeant(v: Version, ts: seq<string>, c: VideoConfig) {
    && ListedLast(v, ts, "sampling", SamplingKeys, c.sampling, YCbCr444)
    && ListedLast(v, ts, "colorimetry", _ => ColorimetryKeys(), c.colorimetry, BT601)
    && ListedLast(v, ts, "TCS", TcsKeys, c.tcs, SDR)
    && ListedLast(v, ts, "RANGE", RangeKeys, c.range, Narrow)
  }

  /** What the tokens say about each field. */
  predicate Meant(v: Version, ts: seq<string>, c: VideoConfig) {
    && c.version == VersionIn(v, ts) && FlagsMeant(ts, c) && SizesMeant(ts, c) && RateMeant(ts, c) && ParMeant(ts, c)
    && FrameMeant(ts, c) && NamesMeant(v, ts, c)
  }

  lemma {:induction false} LastStep(ts: seq<string>, t: string, name: string)
    ensures LastAt(ts + [t], name) == if Gives(t, name) then Some(|ts|) else LastAt(ts, name)
    ensures LastValue(ts + [t], name) == if Gives(t, name) then Some(Value(t)) else LastValue(ts, name)
  {
    var us := ts + [t];
    assert us[..|us| - 1] == ts && us[|us| - 1] == t;
  }

  lemma {:induction false} FlagsStep(ts: seq<string>, d: VideoConfig, t: string, c: VideoConfig)
    requires ParseParam(d, t) == Parsed(c) && FlagsMeant(ts, d)
    ensures FlagsMeant(ts + [t], c)
  {
    hide ParamNamed, NamedBy, Alone, CaseEqual, SetValue;
    AloneStep(ts, t, "interlace");
    AloneStep(ts, t, "segmented");
    EnablesStep(ts, t);
    Names(t);
    NamedIs(d, t);
    if HasValue(t) && ParamNamed(t).Some? {
      FlagValues(d, Value(t));
      SetterCopies(d, ParamNamed(t).value, Value(t));
    }
  }

  lemma {:induction false} FlagValues(d: VideoConfig, v: string)
    ensures SetValue(d, PAlpha, v) == Parsed(if CaseEqual(v, "enabled") then d.(alphaUsed := true) else d)
    ensures SetValue(d, PInterlace, v) == Parsed(d) && SetValue(d, PSegmented, v) == Parsed(d)
  {
    hide CaseEqual;
  }

  lemma {:induction false} AloneStep(ts: seq<string>, t: string, name: string)
    ensures Alone(ts + [t], name) <==> Alone(ts, name) || (NamedBy(t, name) && !HasValue(t))
  {
    hide NamedBy, HasValue;
    var us := ts + [t];
    assert us[|ts|] == t && forall i :: 0 <= i < |ts| ==> us[i] == ts[i];
  }

  lemma {:induction false} EnablesStep(ts: seq<string>, t: string)
    ensures (exists i :: 0 <= i < |ts + [t]| && Enables((ts + [t])[i])) <==> (exists i :: 0 <= i < |ts| && Enables(ts[i])) || Enables(t)
  {
    hide Enables;
    var us := ts + [t];
    assert us[|ts|] == t && forall i :: 0 <= i < |ts| ==> us[i] == ts[i];
  }

  /** A token leaves the fields of all other parameters as they are. */
  lemma {:induction false} OthersKept(d: VideoConfig, t: string, c: VideoConfig)
    requires ParseParam(d, t) == Parsed(c)
    ensures (Gives(t, "width") || c.width == d.width) && (Gives(t, "height") || c.height == d.height) && (Gives(t, "depth") || c.depth == d.depth)
    ensures Gives(t, "exactframerate") || (c.rateNum == d.rateNum && c.rateDen == d.rateDen)
    ensures Gives(t, "PAR") || (c.parWidth == d.parWidth && c.parHeight == d.parHeight)
    ensures Gives(t, "partial_frame") || Copy(d, c, PPartialFrame) == d
  {
    hide ParseParam, ParamNamed, NamedBy, Value, SetValue;
    Names(t);
    NamedIs(d, t);
    if HasValue(t) && ParamNamed(t).Some? {
      SetterCopies(d, ParamNamed(t).value, Value(t));
    }
  }

  lemma {:induction false} GivenIsSet(d: VideoConfig, t: string, c: VideoConfig)
    requires ParseParam(d, t) == Parsed(c)
    ensures Gives(t, "width") ==> SetValue(d, PWidth, Value(t)) == Parsed(c)
    ensures Gives(t, "height") ==> SetValue(d, PHeight, Value(t)) == Parsed(c)
    ensures Gives(t, "depth") ==> SetValue(d, PDepth, Value(t)) == Parsed(c)
    ensures Gives(t, "exactframerate") ==> SetValue(d, PRate, Value(t)) == Parsed(c)
    ensures Gives(t, "PAR") ==> SetValue(d, PPar, Value(t)) == Parsed(c)
    ensures Gives(t, "partial_frame") ==> SetValue(d, PPartialFrame, Value(t)) == Parsed(c)
  {
    hide ParseParam, ParamNamed, NamedBy, Value, SetValue, SetFlag;
    Names(t);
    NamedIs(d, t);
  }

  lemma {:induction false} SizesGiven(d: VideoConfig, t: string, c: VideoConfig)
    requires ParseParam(d, t) == Parsed(c)
    ensures Gives(t, "width") ==> IsWord(Value(t), c.width)
    ensures Gives(t, "height") ==> IsWord(Value(t), c.height)
    ensures Gives(t, "depth") ==> Atoi(Value(t)) == Some(Bits(c.depth))
  {
    hide ParseParam, NamedBy, Value, HasValue, Atoi, SetRate, SetPar, SetPartialFrame, SetVersion, Lookup;
    GivenIsSet(d, t, c);
  }

  lemma {:induction false} RateGiven(d: VideoConfig, t: string, c: VideoConfig)
    requires ParseParam(d, t) == Parsed(c)
    ensures Gives(t, "exactframerate") ==>
              var s := Value(t);
              IsDoubleWord(Before(s, '/'), c.rateNum) && if '/' in s then IsDoubleWord(Behind(s, '/'), c.rateDen) else c.rateDen == 1
  {
    hide ParseParam, NamedBy, Value, HasValue, SetValue;
    GivenIsSet(d, t, c);
    if Gives(t, "exactframerate") {
      SetterOf(d, Value(t));
      RateSet(d, Value(t), c);
    }
  }

  lemma {:induction false} RateSet(d: VideoConfig, s: string, c: VideoConfig)
    requires SetRate(d, s) == Parsed(c)
    ensures IsDoubleWord(Before(s, '/'), c.rateNum) && if '/' in s then IsDoubleWord(Behind(s, '/'), c.rateDen) else c.rateDen == 1
  {
    hide Atoi;
  }

  lemma {:induction false} ParGiven(d: VideoConfig, t: string, c: VideoConfig)
    requires ParseParam(d, t) == Parsed(c)
    ensures Gives(t, "PAR") ==>
              var s := Value(t);
              IsWord(Before(s, ':'), c.parWidth) && if ':' in s then IsWord(Behind(s, ':'), c.parHeight) else c.parHeight == d.parHeight
  {
    hide ParseParam, NamedBy, Value, HasValue, SetValue;
    GivenIsSet(d, t, c);
    if Gives(t, "PAR") {
      SetterOf(d, Value(t));
      ParSet(d, Value(t), c);
    }
  }

  lemma {:induction false} ParSet(d: VideoConfig, s: string, c: VideoConfig)
    requires SetPar(d, s) == Parsed(c)
    ensures IsWord(Before(s, ':'), c.parWidth) && if ':' in s then IsWord(Behind(s, ':'), c.parHeight) else c.parHeight == d.parHeight
  {
    hide Atoi;
  }

  lemma {:induction false} FrameGiven(d: VideoConfig, t: string, c: VideoConfig)
    requires ParseParam(d, t) == Parsed(c)
    ensures Gives(t, "partial_frame") ==>
              var s := Value(t);
              && HasPieces(s) && IsWord(Pieces(s)[0], c.horizontalSize) && IsWord(Pieces(s)[1], c.verticalSize)
              && IsWord(Pieces(s)[2], c.startHorizontalPos) && IsWord(Pieces(s)[3], c.startVerticalPos)
  {
    hide ParseParam, NamedBy, Value, HasValue, SetValue, SetPartialFrame, Pieces, HasPieces, Atoi;
    GivenIsSet(d, t, c);
    if Gives(t, "partial_frame") {
      SetterOf(d, Value(t));
      CutFrame(d, Value(t));
    }
  }

  lemma {:induction false} SizesStep(ts: seq<string>, d: VideoConfig, t: string, c: VideoConfig)
    requires ParseParam(d, t) == Parsed(c) && SizesMeant(ts, d)
    ensures SizesMeant(ts + [t], c)
  {
    hide NamedBy, Value, LastValue, ParseParam, Atoi;
    LastStep(ts, t, "width");
    LastStep(ts, t, "height");
    LastStep(ts, t, "depth");
    OthersKept(d, t, c);
    SizesGiven(d, t, c);
  }

  lemma {:induction false} RateStep(ts: seq<string>, d: VideoConfig, t: string, c: VideoConfig)
    requires ParseParam(d, t) == Parsed(c) && RateMeant(ts, d)
    ensures RateMeant(ts + [t], c)
  {
    hide NamedBy, Value, LastValue, ParseParam, IsDoubleWord, Before, Behind;
    LastStep(ts, t, "exactframerate");
    OthersKept(d, t, c);
    RateGiven(d, t, c);
  }

  lemma {:induction false} HeightStep(ts: seq<string>, t: string)
    ensures LastHeight(ts + [t]) == if Gives(t, "PAR") && ':' in Value(t) then Some(Behind(Value(t), ':')) else LastHeight(ts)
  {
    var us := ts + [t];
    assert us[..|us| - 1] == ts && us[|us| - 1] == t;
  }

  lemma {:induction false} ParStep(ts: seq<string>, d: VideoConfig, t: string, c: VideoConfig)
    requires ParseParam(d, t) == Parsed(c) && ParMeant(ts, d)
    ensures ParMeant(ts + [t], c)
  {
    hide NamedBy, Value, LastValue, LastHeight, ParseParam, IsWord, Before, Behind;
    LastStep(ts, t, "PAR");
    HeightStep(ts, t);
    OthersKept(d, t, c);
    ParGiven(d, t, c);
  }

  lemma {:induction false} FrameStep(ts: seq<string>, d: VideoConfig, t: string, c: VideoConfig)
    requires ParseParam(d, t) == Parsed(c) && FrameMeant(ts, d)
    ensures FrameMeant(ts + [t], c)
  {
    hide NamedBy, Value, LastValue, ParseParam, IsWord, HasPieces, Pieces;
    LastStep(ts, t, "partial_frame");
    OthersKept(d, t, c);
    FrameGiven(d, t, c);
  }

  lemma {:induction false} LookupListed<T>(v: Version, keys: Profile -> seq<Key<T>>, name: string)
    ensures Lookup(v, keys, name).Some? ==> Listed(v, keys, name, Lookup(v, keys, name).value)
  {
    hide CaseEqual, ValueOf;
    if Lookup(v, keys, name).Some? {
      var k := FoundAt(keys(FindProfileVersion(v).value), name);
    }
  }

  lemma {:induction false} ListedStep<T>(v: Version, ts: seq<string>, t: string, name: string, keys: Profile -> seq<Key<T>>, value: T, default: T)
    ensures ListedLast(v, ts + [t], name, keys, value, default)
            <==> if Gives(t, name) then Listed(VersionIn(v, ts), keys, Value(t), value) else ListedLast(v, ts, name, keys, value, default)
  {
    hide Gives, Listed, Value;
    LastStep(ts, t, name);
    var us := ts + [t];
    assert us[..|ts|] == ts && us[|ts|] == t;
    assert forall i :: 0 <= i < |ts| ==> us[i] == ts[i] && us[..i] == ts[..i];
  }

  /** Only its own token changes such a field, to the value of the name. */
  lemma {:induction false} NamesGiven(d: VideoConfig, t: string, c: VideoConfig)
    requires ParseParam(d, t) == Parsed(c)
    ensures if Gives(t, "sampling") then Listed(d.version, SamplingKeys, Value(t), c.sampling) else c.sampling == d.sampling
    ensures if Gives(t, "colorimetry") then Listed(d.version, _ => ColorimetryKeys(), Value(t), c.colorimetry) else c.colorimetry == d.colorimetry
    ensures if Gives(t, "TCS") then Listed(d.version, TcsKeys, Value(t), c.tcs) else c.tcs == d.tcs
    ensures if Gives(t, "RANGE") then Listed(d.version, RangeKeys, Value(t), c.range) else c.range == d.range
  {
    hide ParseParam, ParamNamed, NamedBy, Value, SetValue, Listed;
    Names(t);
    NamedIs(d, t);
    if HasValue(t) && ParamNamed(t).Some? {
      SetterCopies(d, ParamNamed(t).value, Value(t));
      NameSet(d, Value(t));
    }
  }

  lemma {:induction false} NameSet(d: VideoConfig, v: string)
    ensures var r := SetValue(d, PSampling, v); r.Parsed? ==> Listed(d.version, SamplingKeys, v, r.config.sampling)
    ensures var r := SetValue(d, PColorimetry, v); r.Parsed? ==> Listed(d.version, _ => ColorimetryKeys(), v, r.config.colorimetry)
    ensures var r := SetValue(d, PTcs, v); r.Parsed? ==> Listed(d.version, TcsKeys, v, r.config.tcs)
    ensures var r := SetValue(d, PRange, v); r.Parsed? ==> Listed(d.version, RangeKeys, v, r.config.range)
  {
    hide Lookup, Listed;
    LookupListed(d.version, SamplingKeys, v);
    LookupListed(d.version, _ => ColorimetryKeys(), v);
    LookupListed(d.version, TcsKeys, v);
    LookupListed(d.version, RangeKeys, v);
  }

  lemma {:induction false} NamesStep(v: Version, ts: seq<string>, d: VideoConfig, t: string, c: VideoConfig)
    requires ParseParam(d, t) == Parsed(c) && NamesMeant(v, ts, d) && d.version == VersionIn(v, ts)
    ensures NamesMeant(v, ts + [t], c)
  {
    hide ParseParam, NamedBy, HasValue, Value, ListedLast, Listed, VersionIn;
    ListedStep(v, ts, t, "sampling", SamplingKeys, c.sampling, YCbCr444);
    ListedStep(v, ts, t, "colorimetry", _ => ColorimetryKeys(), c.colorimetry, BT601);
    ListedStep(v, ts, t, "TCS", TcsKeys, c.tcs, SDR);
    ListedStep(v, ts, t, "RANGE", RangeKeys, c.range, Narrow);
    NamesGiven(d, t, c);
  }

  lemma {:induction false} DefaultMeant(v: Version)
    ensures Meant(v, [], Default(v))
  {
  }

  lemma {:induction false} TokensMeant(v: Version, ts: seq<string>)
    ensures ParseTokens(Default(v), ts).Parsed? ==> Meant(v, ts, ParseTokens(Default(v), ts).config)
    decreases |ts|
  {
    hide ParseParam, FlagsMeant, SizesMeant, RateMeant, ParMeant, FrameMeant, NamesMeant, VersionIn, Default;
    if ts == [] {
      ParseOne(Default(v), "");
      DefaultMeant(v);
    } else {
      var us, t := ts[..|ts| - 1], ts[|ts| - 1];
      assert ts == us + [t];
      TokensMeant(v, us);
      ParseConcat(Default(v), us, [t]);
      if ParseTokens(Default(v), ts).Parsed? {
        var d, c := ParseTokens(Default(v), us).config, ParseTokens(Default(v), ts).config;
        ParseOne(d, t);
        VersionStep(v, us, d, t, c);
        FlagsStep(us, d, t, c);
        SizesStep(us, d, t, c);
        RateStep(us, d, t, c);
        ParStep(us, d, t, c);
        FrameStep(us, d, t, c);
        NamesStep(v, us, d, t, c);
      }
    }
  }

  /** The configuration that a text is parsed as is the one that its tokens describe. */
  lemma {:induction false} ParsedAsMeant(v: Version, text: string, c: VideoConfig)
    requires ParseVideo(v, text) == Parsed(c)
    ensures Meant(v, Tokens(text), c)
  {
    hide Tokens, Meant;
    TokensMeant(v, Tokens(text));
  }
}
