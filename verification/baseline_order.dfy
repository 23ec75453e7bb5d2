/** Configuration texts that the printer does not write: parameters in any order, and others that are ignored. */
module BaselineOrder {
  import opened Text
  import opened BaselineKeys
  import opened BaselineParams
  import opened BaselineVideo

  // ----- Tokens -----

  /** The name of a parameter, up to an equals sign, ignoring case. */
  predicate NamedBy(t: string, name: string) {
    CaseEqual(t[..Find(t, '=')], name)
  }

  predicate HasValue(t: string) {
    Find(t, '=') < |t|
  }

  function Value(t: string): string
    requires HasValue(t)
  {
    t[Find(t, '=') + 1..]
  }

  const NAMES := ["cdi_profile_version", "sampling", "depth", "width", "height", "exactframerate", "colorimetry", "interlace",
                  "segmented", "TCS", "RANGE", "PAR", "alpha_included", "partial_frame"]

  /** Tokens that change nothing: an alpha channel that is not enabled, a value for a parameter that takes none, and a
      parameter with an unknown name. */
  predicate Ignorable(t: string) {
    || (NamedBy(t, "alpha_included") && HasValue(t) && !CaseEqual(Value(t), "enabled"))
    || ((NamedBy(t, "interlace") || NamedBy(t, "segmented")) && HasValue(t))
    || (forall k :: 0 <= k < |NAMES| ==> !NamedBy(t, NAMES[k]))
  }

  lemma {:induction false} NamesAre(k: nat)
    requires k < 14
    ensures |ParamKeys()| == 14 && |NAMES| == 14 && ParamKeys()[k].name == NAMES[k]
  {
  }

  lemma {:induction false} LowerTwice(a: string, b: string, c: string)
    requires CaseEqual(a, b) && CaseEqual(a, c)
    ensures CaseEqual(c, b)
  {
  }

  /** A name leads to the parameter that it equals, and to none if it equals none. */
  lemma {:induction false} ValueOfEqual<T>(table: seq<Key<T>>, name: string, k: nat)
    requires DistinctNames(table) && k < |table| && CaseEqual(name, table[k].name)
    ensures ValueOf(table, name) == Some(table[k].value)
  {
    if k > 0 {
      if CaseEqual(name, table[0].name) {
        LowerTwice(name, table[0].name, table[k].name);
      }
      assert !CaseEqual(table[k].name, table[0].name);
      assert forall i :: 0 <= i < |table| - 1 ==> table[1..][i] == table[i + 1];
      ValueOfEqual(table[1..], name, k - 1);
    }
  }

  lemma {:induction false} ValueOfNone<T>(table: seq<Key<T>>, name: string)
    ensures ValueOf(table, name) == None <==> forall k :: 0 <= k < |table| ==> !CaseEqual(name, table[k].name)
  {
    if table != [] {
      ValueOfNone(table[1..], name);
      assert forall i :: 0 <= i < |table| - 1 ==> table[1..][i] == table[i + 1];
      assert forall i :: 0 < i < |table| ==> table[i] == table[1..][i - 1];
    }
  }

  lemma {:induction false} ParamOf(t: string, k: nat)
    requires k < 14 && NamedBy(t, NAMES[k])
    ensures |ParamKeys()| == 14 && ValueOf(ParamKeys(), ParamName(t)) == Some(ParamKeys()[k].value)
  {
    hide ParamKeys, ValueOf, CaseEqual;
    NamesAre(k);
    ParamKeysDistinct();
    ValueOfEqual(ParamKeys(), ParamName(t), k);
  }

  lemma {:induction false} UnknownParam(t: string)
    requires forall k :: 0 <= k < |NAMES| ==> !NamedBy(t, NAMES[k])
    ensures ValueOf(ParamKeys(), ParamName(t)) == None
  {
    hide ValueOf, CaseEqual, ParamKeys;
    NamesAre(0);
    forall k | 0 <= k < |ParamKeys()|
      ensures !CaseEqual(ParamName(t), ParamKeys()[k].name)
    {
      NamesAre(k);
    }
    ValueOfNone(ParamKeys(), ParamName(t));
  }

  lemma {:induction false} IgnorableIsIgnored(d: VideoConfig, t: string)
    requires Ignorable(t)
    ensures ParseParam(d, t) == Parsed(d)
  {
    hide ValueOf, CaseEqual;
    if forall k :: 0 <= k < |NAMES| ==> !NamedBy(t, NAMES[k]) {
      UnknownParam(t);
    } else if NamedBy(t, "interlace") && HasValue(t) {
      ParamOf(t, 7);
    } else if NamedBy(t, "segmented") && HasValue(t) {
      ParamOf(t, 8);
    } else {
      ParamOf(t, 12);
    }
  }

  // ----- Printed tokens -----

  /** The printed token of each parameter. */
  function TokenOf(p: Profile, c: VideoConfig, param: Param): string {
    match param
    case PVersion => Setting("cdi_profile_version", VersionText(p))
    case PSampling => Setting("sampling", Print(SamplingKeys(p), c.sampling))
    case PDepth => Setting("depth", Decimal(Bits(c.depth)))
    case PWidth => Setting("width", Decimal(c.width))
    case PHeight => Setting("height", Decimal(c.height))
    case PRate => Setting("exactframerate", RateText(c))
    case PColorimetry => Setting("colorimetry", Print(ColorimetryKeys(), c.colorimetry))
    case PInterlace => "interlace"
    case PSegmented => "segmented"
    case PTcs => Setting("TCS", Print(TcsKeys(p), c.tcs))
    case PRange => Setting("RANGE", Print(RangeKeys(p), c.range))
    case PPar => Setting("PAR", ParText(c))
    case PAlpha => Setting("alpha_included", "enabled")
    case PPartialFrame => Setting("partial_frame", FrameText(c))
  }

  /** The parameters that are printed: those that differ from their default, and all mandatory ones. */
  predicate IsPrinted(c: VideoConfig, param: Param) {
    match param
    case PInterlace => c.interlace
    case PSegmented => c.segmented
    case PTcs => c.tcs != SDR
    case PRange => c.range != Narrow
    case PPar => c.parWidth != 1 || c.parHeight != 1
    case PAlpha => c.alphaUsed
    case PPartialFrame => PartialFrame(c)
    case _ => true
  }

  /** The fields of a parameter, taken from another configuration. */
  function Copy(d: VideoConfig, c: VideoConfig, param: Param): VideoConfig {
    match param
    case PVersion => d.(version := c.version)
    case PSampling => d.(sampling := c.sampling)
    case PDepth => d.(depth := c.depth)
    case PWidth => d.(width := c.width)
    case PHeight => d.(height := c.height)
    case PRate => d.(rateNum := c.rateNum, rateDen := c.rateDen)
    case PColorimetry => d.(colorimetry := c.colorimetry)
    case PInterlace => d.(interlace := c.interlace)
    case PSegmented => d.(segmented := c.segmented)
    case PTcs => d.(tcs := c.tcs)
    case PRange => d.(range := c.range)
    case PPar => d.(parWidth := c.parWidth, parHeight := c.parHeight)
    case PAlpha => d.(alphaUsed := c.alphaUsed)
    case PPartialFrame =>
      d.(horizontalSize := c.horizontalSize, verticalSize := c.verticalSize,
         startHorizontalPos := c.startHorizontalPos, startVerticalPos := c.startVerticalPos)
  }

  lemma {:induction false} TableTokens(p: Profile, c: VideoConfig, d: VideoConfig)
    requires c.version == VersionOf(p) && d.version == c.version
    ensures ParseParam(d, TokenOf(p, c, PVersion)) == Parsed(d.(version := c.version))
    ensures ParseParam(d, TokenOf(p, c, PSampling)) == Parsed(d.(sampling := c.sampling))
    ensures ParseParam(d, TokenOf(p, c, PColorimetry)) == Parsed(d.(colorimetry := c.colorimetry))
  {
    hide ParseParam, ParseTokens, Setting, Print;
    VersionReads(d, p);
    SamplingReads(d, p, c.sampling);
    ColorimetryReads(d, p, c.colorimetry);
    ParseOne(d, TokenOf(p, c, PVersion));
    ParseOne(d, TokenOf(p, c, PSampling));
    ParseOne(d, TokenOf(p, c, PColorimetry));
  }

  lemma {:induction false} MoreTableTokens(p: Profile, c: VideoConfig, d: VideoConfig)
    requires c.version == VersionOf(p) && d.version == c.version
    ensures ParseParam(d, TokenOf(p, c, PTcs)) == Parsed(d.(tcs := c.tcs))
    ensures ParseParam(d, TokenOf(p, c, PRange)) == Parsed(d.(range := c.range))
  {
    hide ParseParam, NameOf, ValueOf;
    assert ParamKeys()[9] == Key(PTcs, "TCS") && ParamKeys()[10] == Key(PRange, "RANGE");
    ParamReads(d, 9, Print(TcsKeys(p), c.tcs));
    ParamReads(d, 10, Print(RangeKeys(p), c.range));
    TcsNamed(p, c.tcs);
    RangeNamed(p, c.range);
    VersionTextParses(p);
  }

  lemma {:induction false} NumberTokens(p: Profile, c: VideoConfig, d: VideoConfig)
    ensures ParseParam(d, TokenOf(p, c, PDepth)) == Parsed(d.(depth := c.depth))
    ensures ParseParam(d, TokenOf(p, c, PWidth)) == Parsed(d.(width := c.width))
    ensures ParseParam(d, TokenOf(p, c, PHeight)) == Parsed(d.(height := c.height))
    ensures RateFits(c) ==> ParseParam(d, TokenOf(p, c, PRate)) == Parsed(d.(rateNum := c.rateNum, rateDen := c.rateDen))
  {
    hide ParseParam, Decimal, RateText, SetDepth, SetRate, SetValue, RateFits;
    assert ParamKeys()[2] == Key(PDepth, "depth") && ParamKeys()[3] == Key(PWidth, "width");
    assert ParamKeys()[4] == Key(PHeight, "height") && ParamKeys()[5] == Key(PRate, "exactframerate");
    ParamReads(d, 2, Decimal(Bits(c.depth)));
    SetterOf(d, Decimal(Bits(c.depth)));
    DepthReads(d, c.depth);
    ParamReads(d, 3, Decimal(c.width));
    NumberReads(d, c.width);
    ParamReads(d, 4, Decimal(c.height));
    NumberReads(d, c.height);
    ParamReads(d, 5, RateText(c));
    SetterOf(d, RateText(c));
    if RateFits(c) {
      RateReads(d, c);
    }
  }

  lemma {:induction false} OtherTokens(p: Profile, c: VideoConfig, d: VideoConfig)
    ensures ParseParam(d, TokenOf(p, c, PInterlace)) == Parsed(d.(interlace := true))
    ensures ParseParam(d, TokenOf(p, c, PSegmented)) == Parsed(d.(segmented := true))
    ensures ParseParam(d, TokenOf(p, c, PAlpha)) == Parsed(d.(alphaUsed := true))
    ensures ParseParam(d, TokenOf(p, c, PPar)) == Parsed(Copy(d, c, PPar))
    ensures ParseParam(d, TokenOf(p, c, PPartialFrame)) == Parsed(Copy(d, c, PPartialFrame))
  {
    hide ParseParam, ParText, FrameText, SetPar, SetPartialFrame;
    assert ParamKeys()[7] == Key(PInterlace, "interlace") && ParamKeys()[8] == Key(PSegmented, "segmented");
    assert ParamKeys()[11] == Key(PPar, "PAR") && ParamKeys()[12] == Key(PAlpha, "alpha_included");
    assert ParamKeys()[13] == Key(PPartialFrame, "partial_frame");
    FlagReads(d, 7);
    FlagReads(d, 8);
    ParamReads(d, 11, ParText(c));
    ParReads(d, c);
    ParamReads(d, 12, "enabled");
    ParamReads(d, 13, FrameText(c));
    FrameReads(d, c);
  }

  lemma {:induction false} TokenCopies(p: Profile, c: VideoConfig, d: VideoConfig, param: Param)
    requires c.version == VersionOf(p) && d.version == c.version && RateFits(c) && IsPrinted(c, param)
    ensures ParseParam(d, TokenOf(p, c, param)) == Parsed(Copy(d, c, param))
  {
    hide ParseParam, TokenOf, RateFits;
    TableTokens(p, c, d);
    MoreTableTokens(p, c, d);
    NumberTokens(p, c, d);
    OtherTokens(p, c, d);
  }

  // ----- Any order -----

  predicate Agrees(d: VideoConfig, c: VideoConfig, param: Param) {
    Copy(d, c, param) == d
  }

  lemma {:induction false} CopyAgrees(d: VideoConfig, c: VideoConfig, param: Param, other: Param)
    ensures Agrees(Copy(d, c, param), c, param)
    ensures Agrees(d, c, other) ==> Agrees(Copy(d, c, param), c, other)
  {
  }

  lemma {:induction false} AllAgree(d: VideoConfig, c: VideoConfig)
    requires forall param :: Agrees(d, c, param)
    ensures d == c
  {
    assert Agrees(d, c, PVersion) && Agrees(d, c, PSampling) && Agrees(d, c, PDepth) && Agrees(d, c, PWidth);
    assert Agrees(d, c, PHeight) && Agrees(d, c, PRate) && Agrees(d, c, PColorimetry) && Agrees(d, c, PInterlace);
    assert Agrees(d, c, PSegmented) && Agrees(d, c, PTcs) && Agrees(d, c, PRange) && Agrees(d, c, PPar);
    assert Agrees(d, c, PAlpha) && Agrees(d, c, PPartialFrame);
  }

  predicate IsToken(p: Profile, c: VideoConfig, t: string, param: Param) {
    IsPrinted(c, param) && t == TokenOf(p, c, param)
  }

  /** A token of the printed text, or one that changes nothing. */
  ghost predicate Harmless(p: Profile, c: VideoConfig, t: string) {
    Ignorable(t) || exists param :: IsToken(p, c, t, param)
  }

  ghost predicate AllHarmless(p: Profile, c: VideoConfig, us: seq<string>) {
    forall i :: 0 <= i < |us| ==> Harmless(p, c, us[i])
  }

  ghost predicate Occurs(p: Profile, c: VideoConfig, us: seq<string>, param: Param) {
    exists i :: 0 <= i < |us| && IsToken(p, c, us[i], param)
  }

  /** Reading such tokens one after the other takes over the fields of those that occur, and changes no others that
      agree already. */
  lemma {:induction false} HarmlessRead(p: Profile, c: VideoConfig, d: VideoConfig, us: seq<string>) returns (e: VideoConfig)
    requires c.version == VersionOf(p) && d.version == c.version && RateFits(c) && AllHarmless(p, c, us)
    ensures ParseTokens(d, us) == Parsed(e) && e.version == c.version
    ensures forall param :: Agrees(d, c, param) || Occurs(p, c, us, param) ==> Agrees(e, c, param)
    decreases |us|
  {
    hide ParseParam, IsToken, Ignorable, RateFits, Agrees;
    if us == [] {
      e := d;
    } else {
      var f := ReadHarmless(p, c, d, us[0]);
      e := HarmlessRead(p, c, f, us[1..]);
      forall param | Agrees(d, c, param) || Occurs(p, c, us, param)
        ensures Agrees(e, c, param)
      {
        OccursLater(p, c, us, param);
      }
    }
  }

  lemma {:induction false} OccursLater(p: Profile, c: VideoConfig, us: seq<string>, param: Param)
    requires us != []
    ensures Occurs(p, c, us, param) ==> IsToken(p, c, us[0], param) || Occurs(p, c, us[1..], param)
  {
    hide IsToken;
    if Occurs(p, c, us, param) {
      var i :| 0 <= i < |us| && IsToken(p, c, us[i], param);
      if i > 0 {
        assert us[1..][i - 1] == us[i];
      }
    }
  }

  lemma {:induction false} ReadHarmless(p: Profile, c: VideoConfig, d: VideoConfig, t: string) returns (f: VideoConfig)
    requires c.version == VersionOf(p) && d.version == c.version && RateFits(c) && Harmless(p, c, t)
    ensures ParseParam(d, t) == Parsed(f) && f.version == c.version
    ensures forall param :: Agrees(d, c, param) || IsToken(p, c, t, param) ==> Agrees(f, c, param)
  {
    hide ParseParam, TokenOf, RateFits, Ignorable, IsPrinted;
    if param :| IsToken(p, c, t, param) {
      f := Copy(d, c, param);
      TokenCopies(p, c, d, param);
      forall other | Agrees(d, c, other) || IsToken(p, c, t, other)
        ensures Agrees(f, c, other)
      {
        CopyAgrees(d, c, param, other);
        if IsToken(p, c, t, other) {
          TokenCopies(p, c, d, other);
          CopyAgrees(d, c, other, other);
        }
      }
      VersionCopied(d, c, param);
    } else {
      f := d;
      IgnorableIsIgnored(d, t);
    }
  }

  lemma {:induction false} VersionCopied(d: VideoConfig, c: VideoConfig, param: Param)
    requires d.version == c.version
    ensures Copy(d, c, param).version == c.version
  {
  }

  lemma {:induction false} DefaultsAgree(c: VideoConfig, param: Param)
    requires !IsPrinted(c, param)
    ensures Agrees(Default(c.version), c, param)
  {
  }

  /** The parameters of a configuration that can be printed, in any order and as often as one likes, with any tokens that
      change nothing in between, are parsed as that configuration. */
  lemma {:induction false} AnyOrderReads(p: Profile, c: VideoConfig, us: seq<string>)
    requires c.version == VersionOf(p) && RateFits(c) && AllClean(us) && us != [] && AllHarmless(p, c, us)
    requires forall param :: IsPrinted(c, param) ==> Occurs(p, c, us, param)
    ensures ParseVideo(c.version, Join(us)) == Parsed(c)
  {
    hide ParseTokens, Clean, RateFits, IsToken, Ignorable, Occurs, IsPrinted, Agrees, Join, Tokens;
    TokensOfJoin(us);
    var e := HarmlessRead(p, c, Default(c.version), us);
    forall param
      ensures Agrees(e, c, param)
    {
      if !IsPrinted(c, param) {
        DefaultsAgree(c, param);
      }
    }
    AllAgree(e, c);
  }

  /** The printed text is one of these. */
  lemma {:induction false} PrintedTokens(p: Profile, c: VideoConfig, param: Param)
    requires IsPrinted(c, param)
    ensures TokenOf(p, c, param) in Mandatory(p, c) + Optional(p, c)
  {
    hide Setting, Print, Decimal, ParText, FrameText, RateText;
    var m := Mandatory(p, c);
    assert m[0] in m && m[1] in m && m[2] in m && m[3] in m && m[4] in m && m[5] in m && m[6] in m;
    if param == PInterlace || param == PSegmented || param == PTcs || param == PRange {
      OptionalToken(p, c, param);
    } else if param == PPar || param == PAlpha || param == PPartialFrame {
      OptionalToken(p, c, param);
    }
  }

  lemma {:induction false} OptionalToken(p: Profile, c: VideoConfig, param: Param)
    requires IsPrinted(c, param)
    requires param == PInterlace || param == PSegmented || param == PTcs || param == PRange || param == PPar || param == PAlpha || param == PPartialFrame
    ensures TokenOf(p, c, param) in Optional(p, c)
  {
    hide Setting, Print, Decimal, ParText, FrameText;
    assert TokenOf(p, c, param) in If(true, TokenOf(p, c, param));
  }

  /** And everything in it is such a token. */
  lemma {:induction false} OnlyTokens(p: Profile, c: VideoConfig, t: string)
    requires t in Mandatory(p, c) + Optional(p, c)
    ensures exists param :: IsToken(p, c, t, param)
  {
    hide Mandatory, Optional, FirstHalf, SecondHalf, IsToken;
    if t in Mandatory(p, c) {
      MandatoryTokens(p, c, t);
    } else {
      Halves(p, c);
      if t in FirstHalf(p, c) {
        FirstHalfTokens(p, c, t);
      } else {
        SecondHalfTokens(p, c, t);
      }
    }
  }

  lemma {:induction false} FirstHalfTokens(p: Profile, c: VideoConfig, t: string)
    requires t in FirstHalf(p, c)
    ensures exists param :: IsToken(p, c, t, param)
  {
    hide Setting, Print;
    assert IsToken(p, c, t, PInterlace) || IsToken(p, c, t, PSegmented) || IsToken(p, c, t, PTcs) || IsToken(p, c, t, PRange);
  }

  lemma {:induction false} SecondHalfTokens(p: Profile, c: VideoConfig, t: string)
    requires t in SecondHalf(c)
    ensures exists param :: IsToken(p, c, t, param)
  {
    hide Setting, ParText, FrameText, PartialFrame;
    assert IsToken(p, c, t, PPar) || IsToken(p, c, t, PAlpha) || IsToken(p, c, t, PPartialFrame);
  }

  lemma {:induction false} MandatoryTokens(p: Profile, c: VideoConfig, t: string)
    requires t in Mandatory(p, c)
    ensures exists param :: IsToken(p, c, t, param)
  {
    hide Setting, Print, Decimal, RateText;
    assert IsToken(p, c, t, PVersion) || IsToken(p, c, t, PSampling) || IsToken(p, c, t, PDepth) || IsToken(p, c, t, PWidth)
           || IsToken(p, c, t, PHeight) || IsToken(p, c, t, PRate) || IsToken(p, c, t, PColorimetry);
  }

  /** All tokens of the printed text, and otherwise only tokens that change nothing. */
  ghost predicate Rearranged(p: Profile, c: VideoConfig, us: seq<string>) {
    && (forall t :: t in Mandatory(p, c) + Optional(p, c) ==> t in us)
    && (forall t :: t in us ==> t in Mandatory(p, c) + Optional(p, c) || Ignorable(t))
  }

  /** Order and additions do not matter: the tokens of a printed text, rearranged, with clean tokens that change nothing
      before, between and behind them, are parsed as the configuration that was printed. */
  lemma {:induction false} RearrangedReads(p: Profile, c: VideoConfig, us: seq<string>)
    requires c.version == VersionOf(p) && RateFits(c) && us != [] && AllClean(us) && Rearranged(p, c, us)
    ensures ParseVideo(c.version, Join(us)) == Parsed(c)
  {
    hide ParseVideo, Clean, RateFits, Ignorable, Mandatory, Optional, IsPrinted, TokenOf, Join, Harmless, Occurs;
    var printed := Mandatory(p, c) + Optional(p, c);
    forall i | 0 <= i < |us|
      ensures Harmless(p, c, us[i])
    {
      assert us[i] in us;
      TokenIsHarmless(p, c, us[i]);
    }
    forall param | IsPrinted(c, param)
      ensures Occurs(p, c, us, param)
    {
      TokenOccurs(p, c, us, param);
    }
    AnyOrderReads(p, c, us);
  }

  lemma {:induction false} TokenIsHarmless(p: Profile, c: VideoConfig, t: string)
    requires t in Mandatory(p, c) + Optional(p, c) || Ignorable(t)
    ensures Harmless(p, c, t)
  {
    hide Ignorable, Mandatory, Optional, IsToken;
    if t in Mandatory(p, c) + Optional(p, c) {
      OnlyTokens(p, c, t);
    }
  }

  lemma {:induction false} TokenOccurs(p: Profile, c: VideoConfig, us: seq<string>, param: Param)
    requires IsPrinted(c, param) && Rearranged(p, c, us)
    ensures Occurs(p, c, us, param)
  {
    hide Mandatory, Optional, TokenOf, IsPrinted;
    PrintedTokens(p, c, param);
    var t := TokenOf(p, c, param);
    assert t in us;
    var i :| 0 <= i < |us| && us[i] == t;
    assert IsToken(p, c, us[i], param);
  }

  /** In particular the printed text with more tokens behind it. */
  lemma {:induction false} MoreTokensIgnored(p: Profile, c: VideoConfig, more: seq<string>)
    requires c.version == VersionOf(p) && RateFits(c) && AllClean(more) && forall t :: t in more ==> Ignorable(t)
    ensures ParseVideo(c.version, Join(Mandatory(p, c) + Optional(p, c) + more)) == Parsed(c)
  {
    hide ParseVideo, Clean, RateFits, Ignorable, Mandatory, Optional, Join;
    MandatoryClean(p, c);
    OptionalClean(p, c);
    var us := Mandatory(p, c) + Optional(p, c) + more;
    MandatoryFirst(p, c);
    RearrangedReads(p, c, us);
  }

  lemma {:induction false} MandatoryFirst(p: Profile, c: VideoConfig)
    ensures Mandatory(p, c) != []
  {
  }
}
