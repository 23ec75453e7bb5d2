/** Video configurations: printing them as configuration text, and parsing that text. */
module BaselineVideo {
  import opened Text
  import opened BaselineKeys
  import opened BaselineParams

  datatype VideoConfig = VideoConfig(
    version: Version, width: U16, height: U16, sampling: Sampling, alphaUsed: bool, depth: Depth,
    rateNum: U32, rateDen: U32, colorimetry: Colorimetry, interlace: bool, segmented: bool, tcs: Tcs, range: Range,
    parWidth: U16, parHeight: U16,
    startVerticalPos: U16, verticalSize: U16, startHorizontalPos: U16, horizontalSize: U16)

  // ----- Printing -----

  function Bits(d: Depth): nat {
    match d
    case Depth8 => 8
    case Depth10 => 10
    case Depth12 => 12
  }

  /** The frame rate, cut to fit a buffer of 20 bytes. */
  function RateText(c: VideoConfig): string {
    Truncate(if c.rateDen == 1 then Decimal(c.rateNum) else Decimal(c.rateNum) + "/" + Decimal(c.rateDen), 20)
  }

  function ParText(c: VideoConfig): string {
    Decimal(c.parWidth) + ":" + Decimal(c.parHeight)
  }

  function FrameText(c: VideoConfig): string {
    Decimal(c.horizontalSize) + "x" + Decimal(c.verticalSize) + "+" + Decimal(c.startHorizontalPos) + "+" + Decimal(c.startVerticalPos)
  }

  predicate PartialFrame(c: VideoConfig) {
    c.horizontalSize != 0 || c.verticalSize != 0 || c.startHorizontalPos != 0 || c.startVerticalPos != 0
  }

  function Mandatory(p: Profile, c: VideoConfig): seq<string> {
    [Setting("cdi_profile_version", VersionText(p)), Setting("sampling", Print(SamplingKeys(p), c.sampling)), Setting("depth", Decimal(Bits(c.depth))),
     Setting("width", Decimal(c.width)), Setting("height", Decimal(c.height)), Setting("exactframerate", RateText(c)),
     Setting("colorimetry", Print(ColorimetryKeys(), c.colorimetry))]
  }

  function Optional(p: Profile, c: VideoConfig): seq<string> {
    If(c.interlace, "interlace") + If(c.segmented, "segmented")
    + If(c.tcs != SDR, Setting("TCS", Print(TcsKeys(p), c.tcs))) + If(c.range != Narrow, Setting("RANGE", Print(RangeKeys(p), c.range)))
    + If(c.parWidth != 1 || c.parHeight != 1, Setting("PAR", ParText(c))) + If(c.alphaUsed, Setting("alpha_included", "enabled"))
    + If(PartialFrame(c), Setting("partial_frame", FrameText(c)))
  }

  /** The configuration text: parameters followed by semicolons and separated by spaces. */
  function VideoText(p: Profile, c: VideoConfig): string {
    Join(Mandatory(p, c) + Optional(p, c))
  }

  // ----- Parsing -----

  datatype Param =
    | PVersion | PSampling | PDepth | PWidth | PHeight | PRate | PColorimetry | PInterlace | PSegmented | PTcs | PRange
    | PPar | PAlpha | PPartialFrame

  /** The parameter names, in the order in which they are compared. */
  function ParamKeys(): seq<Key<Param>> {
    [Key(PVersion, "cdi_profile_version"), Key(PSampling, "sampling"), Key(PDepth, "depth"), Key(PWidth, "width"),
     Key(PHeight, "height"), Key(PRate, "exactframerate"), Key(PColorimetry, "colorimetry"), Key(PInterlace, "interlace"),
     Key(PSegmented, "segmented"), Key(PTcs, "TCS"), Key(PRange, "RANGE"), Key(PPar, "PAR"), Key(PAlpha, "alpha_included"),
     Key(PPartialFrame, "partial_frame")]
  }

  function To16(n: int): U16 {
    n % 0x1_0000
  }

  function To32(n: int): U32 {
    n % 0x1_0000_0000
  }

  function SetRate(c: VideoConfig, v: string): Parsed<VideoConfig> {
    var slash := Find(v, '/');
    var den := if slash == |v| then Some(1) else Atoi(v[slash + 1..]);
    var num := Atoi(v[..slash]);
    if num.None? || den.None? then Unspecified
    else Parsed(c.(rateNum := To32(num.value), rateDen := To32(den.value)))
  }

  function SetPar(c: VideoConfig, v: string): Parsed<VideoConfig> {
    var colon := Find(v, ':');
    var height := if colon == |v| then Some(c.parHeight) else Atoi(v[colon + 1..]);
    var width := Atoi(v[..colon]);
    if width.None? || height.None? then Unspecified
    else Parsed(c.(parWidth := To16(width.value), parHeight := To16(height.value)))
  }

  function SetPartialFrame(c: VideoConfig, v: string): Parsed<VideoConfig> {
    var x := Find(v, 'x');
    if x == |v| then Rejected else
      var afterX := v[x + 1..];
      var plus := Find(afterX, '+');
      if plus == |afterX| then Rejected else
        var afterPlus := afterX[plus + 1..];
        var plus' := Find(afterPlus, '+');
        if plus' == |afterPlus| then Rejected else
          var hs, vs := Atoi(v[..x]), Atoi(afterX[..plus]);
          var hp, vp := Atoi(afterPlus[..plus']), Atoi(afterPlus[plus' + 1..]);
          if hs.None? || vs.None? || hp.None? || vp.None? then Unspecified
          else Parsed(c.(horizontalSize := To16(hs.value), verticalSize := To16(vs.value),
                         startHorizontalPos := To16(hp.value), startVerticalPos := To16(vp.value)))
  }

  function SetDepth(c: VideoConfig, v: string): Parsed<VideoConfig> {
    match Atoi(v)
    case None => Unspecified
    case Some(n) =>
      if n == 8 then Parsed(c.(depth := Depth8))
      else if n == 10 then Parsed(c.(depth := Depth10))
      else if n == 12 then Parsed(c.(depth := Depth12))
      else Rejected
  }

  function SetVersion(c: VideoConfig, v: string): Parsed<VideoConfig> {
    match VersionOfString(v)
    case None => Rejected
    case Some(version) => Parsed(c.(version := version))
  }

  function SetValue(c: VideoConfig, param: Param, v: string): Parsed<VideoConfig> {
    match param
    case PVersion => SetVersion(c, v)
    case PSampling =>
      (match Lookup(c.version, SamplingKeys, v) case None => Rejected case Some(s) => Parsed(c.(sampling := s)))
    case PDepth => SetDepth(c, v)
    case PWidth => (match Atoi(v) case None => Unspecified case Some(n) => Parsed(c.(width := To16(n))))
    case PHeight => (match Atoi(v) case None => Unspecified case Some(n) => Parsed(c.(height := To16(n))))
    case PRate => SetRate(c, v)
    case PColorimetry =>
      (match Lookup(c.version, _ => ColorimetryKeys(), v) case None => Rejected case Some(s) => Parsed(c.(colorimetry := s)))
    case PInterlace => Parsed(c)
    case PSegmented => Parsed(c)
    case PTcs => (match Lookup(c.version, TcsKeys, v) case None => Rejected case Some(s) => Parsed(c.(tcs := s)))
    case PRange => (match Lookup(c.version, RangeKeys, v) case None => Rejected case Some(s) => Parsed(c.(range := s)))
    case PPar => SetPar(c, v)
    case PAlpha => Parsed(if CaseEqual(v, "enabled") then c.(alphaUsed := true) else c)
    case PPartialFrame => SetPartialFrame(c, v)
  }

  /** A parameter without a value. */
  function SetFlag(c: VideoConfig, param: Param): Parsed<VideoConfig> {
    match param
    case PInterlace => Parsed(c.(interlace := true))
    case PSegmented => Parsed(c.(segmented := true))
    case _ => Rejected
  }

  /** One parameter; unknown ones are ignored. */
  function ParseParam(c: VideoConfig, token: string): Parsed<VideoConfig> {
    match ValueOf(ParamKeys(), ParamName(token))
    case None => Parsed(c)
    case Some(param) =>
      match ParamValue(token)
      case None => SetFlag(c, param)
      case Some(v) => SetValue(c, param, v)
  }

  function ParseTokens(c: VideoConfig, ts: seq<string>): Parsed<VideoConfig>
    decreases |ts|
  {
    if ts == [] then Parsed(c)
    else
      match ParseParam(c, ts[0])
      case Parsed(d) => ParseTokens(d, ts[1..])
      case Rejected => Rejected
      case Unspecified => Unspecified
  }

  /** A cleared configuration with the default pixel aspect ratio. */
  function Default(v: Version): VideoConfig {
    VideoConfig(v, 0, 0, YCbCr444, false, Depth8, 0, 0, BT601, false, false, SDR, Narrow, 1, 1, 0, 0, 0, 0)
  }

  function ParseVideo(v: Version, text: string): Parsed<VideoConfig> {
    ParseTokens(Default(v), Tokens(text))
  }

  // ----- Printed parameters read back -----

  // No two names have the same length and, ignoring case, the same first letter.
  const NAME_LENGTHS := [19, 8, 5, 5, 6, 14, 11, 9, 9, 3, 5, 3, 14, 13]

  lemma {:induction false} NameShapes(k: nat)
    requires k < |ParamKeys()|
    ensures |ParamKeys()| == 14
    ensures |ParamKeys()[k].name| == NAME_LENGTHS[k] && Lower(ParamKeys()[k].name[0]) == FirstLetter(k)
  {
    assert Lower("TCS"[0]) == 't' && Lower("RANGE"[0]) == 'r' && Lower("PAR"[0]) == 'p';
  }

  function FirstLetter(k: nat): char
    requires k < 14
  {
    ['c', 's', 'd', 'w', 'h', 'e', 'c', 'i', 's', 't', 'r', 'p', 'a', 'p'][k]
  }

  lemma {:induction false} ShapesDiffer(i: nat, j: nat)
    requires i < j < 14
    ensures NAME_LENGTHS[i] != NAME_LENGTHS[j] || FirstLetter(i) != FirstLetter(j)
  {
  }

  lemma {:induction false} ParamKeysDistinct()
    ensures DistinctNames(ParamKeys())
  {
    hide ParamKeys, FirstLetter;
    var t := ParamKeys();
    forall i, j | 0 <= i < j < |t|
      ensures !CaseEqual(t[j].name, t[i].name)
    {
      NameShapes(i);
      NameShapes(j);
      ShapesDiffer(i, j);
      assert |t[j].name| != |t[i].name| || Lower(t[j].name[0]) != Lower(t[i].name[0]);
    }
  }

  lemma {:induction false} ParamListed(k: nat)
    requires k < |ParamKeys()|
    ensures ValueOf(ParamKeys(), ParamKeys()[k].name) == Some(ParamKeys()[k].value)
  {
    ParamKeysDistinct();
    ValueOfListed(ParamKeys(), k);
  }

  lemma {:induction false} NoEquals(k: nat)
    requires k < |ParamKeys()|
    ensures '=' !in ParamKeys()[k].name
  {
    NamesWithoutEquals();
    ListedWithoutEquals(k);
  }

  lemma {:induction false} ListedWithoutEquals(k: nat)
    requires k < |ParamKeys()|
    ensures !Contains(ParamKeys()[k].name, '=')
  {
    hide Contains;
    NamesWithoutEquals();
  }

  lemma {:induction false} NamesWithoutEquals()
    ensures !Contains("cdi_profile_version", '=') && !Contains("sampling", '=') && !Contains("depth", '=')
    ensures !Contains("width", '=') && !Contains("height", '=') && !Contains("exactframerate", '=')
    ensures !Contains("colorimetry", '=') && !Contains("interlace", '=') && !Contains("segmented", '=')
    ensures !Contains("TCS", '=') && !Contains("RANGE", '=') && !Contains("PAR", '=')
    ensures !Contains("alpha_included", '=') && !Contains("partial_frame", '=')
  {
  }

  /** A parameter printed with a value sets that value; k is its position in the table. */
  lemma {:induction false} ParamReads(c: VideoConfig, k: nat, value: string)
    requires k < |ParamKeys()|
    ensures ParseParam(c, Setting(ParamKeys()[k].name, value)) == SetValue(c, ParamKeys()[k].value, value)
  {
    hide SetValue, SetFlag, ParamName, ParamValue, ParamKeys, ValueOf;
    NoEquals(k);
    SplitToken(ParamKeys()[k].name, value);
    ParamListed(k);
  }

  lemma {:induction false} FlagReads(c: VideoConfig, k: nat)
    requires k < |ParamKeys()|
    ensures ParseParam(c, ParamKeys()[k].name) == SetFlag(c, ParamKeys()[k].value)
  {
    hide SetValue, SetFlag, ParamKeys, ValueOf;
    NoEquals(k);
    FindNone(ParamKeys()[k].name, '=');
    assert ParamName(ParamKeys()[k].name) == ParamKeys()[k].name;
    ParamListed(k);
  }

  lemma {:induction false} DigitsOnly(n: nat, c: char)
    requires !IsDigit(c)
    ensures c !in Decimal(n)
  {
  }

  lemma {:induction false} ParReads(c: VideoConfig, d: VideoConfig)
    ensures SetPar(c, ParText(d)) == Parsed(c.(parWidth := d.parWidth, parHeight := d.parHeight))
  {
    hide Decimal, Atoi;
    DigitsOnly(d.parWidth, ':');
    CutAt(Decimal(d.parWidth), ':', Decimal(d.parHeight));
    AtoiOfDecimal(d.parWidth);
    AtoiOfDecimal(d.parHeight);
  }

  /** A partial frame is four numbers, cut at the first x and the next two plus signs. */
  lemma {:induction false} FramePieces(c: VideoConfig, hs: string, vs: string, hp: string, vp: string)
    requires 'x' !in hs && '+' !in vs && '+' !in hp
    requires Atoi(hs).Some? && Atoi(vs).Some? && Atoi(hp).Some? && Atoi(vp).Some?
    ensures SetPartialFrame(c, hs + ['x'] + (vs + ['+'] + (hp + ['+'] + vp)))
            == Parsed(c.(horizontalSize := To16(Atoi(hs).value), verticalSize := To16(Atoi(vs).value),
                         startHorizontalPos := To16(Atoi(hp).value), startVerticalPos := To16(Atoi(vp).value)))
  {
    hide Atoi, Find, To16;
    var afterPlus := hp + ['+'] + vp;
    var afterX := vs + ['+'] + afterPlus;
    CutAt(hs, 'x', afterX);
    CutAt(vs, '+', afterPlus);
    CutAt(hp, '+', vp);
  }

  lemma {:induction false} FrameReads(c: VideoConfig, d: VideoConfig)
    ensures SetPartialFrame(c, FrameText(d))
            == Parsed(c.(horizontalSize := d.horizontalSize, verticalSize := d.verticalSize,
                         startHorizontalPos := d.startHorizontalPos, startVerticalPos := d.startVerticalPos))
  {
    hide Decimal, Atoi, SetPartialFrame;
    var hs, vs, hp, vp := Decimal(d.horizontalSize), Decimal(d.verticalSize), Decimal(d.startHorizontalPos), Decimal(d.startVerticalPos);
    DigitsOnly(d.horizontalSize, 'x');
    DigitsOnly(d.verticalSize, '+');
    DigitsOnly(d.startHorizontalPos, '+');
    AtoiOfDecimal(d.horizontalSize);
    AtoiOfDecimal(d.verticalSize);
    AtoiOfDecimal(d.startHorizontalPos);
    AtoiOfDecimal(d.startVerticalPos);
    FramePieces(c, hs, vs, hp, vp);
    SameText(hs, vs, hp, vp);
  }

  lemma {:induction false} SameText(a: string, b: string, c: string, d: string)
    ensures a + "x" + b + "+" + c + "+" + d == a + ['x'] + (b + ['+'] + (c + ['+'] + d))
  {
  }

  lemma {:induction false} DepthReads(c: VideoConfig, d: Depth)
    ensures SetDepth(c, Decimal(Bits(d))) == Parsed(c.(depth := d))
  {
    AtoiOfDecimal(Bits(d));
  }

  lemma {:induction false} NumberReads(c: VideoConfig, n: U16)
    ensures SetValue(c, PWidth, Decimal(n)) == Parsed(c.(width := n))
    ensures SetValue(c, PHeight, Decimal(n)) == Parsed(c.(height := n))
  {
    hide Decimal, Atoi;
    AtoiOfDecimal(n);
  }

  // ----- The frame rate -----

  /** The frame rates that survive: both numbers fit in an int, and the text fits in its buffer. */
  predicate RateFits(c: VideoConfig) {
    && c.rateNum <= INT_MAX
    && (c.rateDen == 1 || (c.rateDen <= INT_MAX && |Decimal(c.rateNum)| + |Decimal(c.rateDen)| <= 18))
  }

  lemma {:induction false} ShortNumber(n: U32)
    ensures |Decimal(n)| <= 10
  {
    assert Pow10(10) == 10_000_000_000 by {
      assert Pow10(5) == 100_000;
      assert Pow10(8) == 100_000_000;
    }
    DecimalLength(n, 10, 0x1_0000_0000);
  }

  lemma {:induction false} RateReads(c: VideoConfig, d: VideoConfig)
    requires RateFits(d)
    ensures SetRate(c, RateText(d)) == Parsed(c.(rateNum := d.rateNum, rateDen := d.rateDen))
  {
    hide Decimal, Atoi;
    ShortNumber(d.rateNum);
    DigitsOnly(d.rateNum, '/');
    AtoiOfDecimal(d.rateNum);
    AtoiOfDecimal(d.rateDen);
    if d.rateDen == 1 {
      FindNone(Decimal(d.rateNum), '/');
      assert Decimal(d.rateNum)[..|Decimal(d.rateNum)|] == Decimal(d.rateNum);
    } else {
      CutAt(Decimal(d.rateNum), '/', Decimal(d.rateDen));
    }
  }

  /** A frame rate that does not fit is not read back: a number is undefined, or the denominator lost digits. */
  lemma {:induction false} RateLost(c: VideoConfig, d: VideoConfig)
    requires !RateFits(d)
    ensures var r := SetRate(c, RateText(d));
            r.Unspecified? || (r.Parsed? && r.config.rateDen != d.rateDen && r == Parsed(c.(rateNum := r.config.rateNum, rateDen := r.config.rateDen)))
  {
    hide Decimal, Atoi;
    var num, den := Decimal(d.rateNum), Decimal(d.rateDen);
    ShortNumber(d.rateNum);
    DigitsOnly(d.rateNum, '/');
    AtoiOfDecimal(d.rateNum);
    if d.rateDen == 1 {
      FindNone(num, '/');
      assert num[..|num|] == num;
    } else if |num| + |den| <= 18 {
      CutAt(num, '/', den);
      AtoiOfDecimal(d.rateDen);
    } else {
      var k: nat := 18 - |num|;
      assert RateText(d) == num + ['/'] + den[..k];
      CutAt(num, '/', den[..k]);
      TruncatedDecimal(d.rateDen, k);
      AtoiOfDigits(den[..k]);
    }
  }

  // ----- The whole text -----

  lemma {:induction false} ParseConcat(c: VideoConfig, a: seq<string>, b: seq<string>)
    ensures ParseTokens(c, a + b) == match ParseTokens(c, a)
                                     case Parsed(d) => ParseTokens(d, b)
                                     case Rejected => Rejected
                                     case Unspecified => Unspecified
    decreases |a|
  {
    hide ParseParam;
    if a == [] {
      assert a + b == b;
    } else {
      assert (a + b)[1..] == a[1..] + b;
      match ParseParam(c, a[0])
      case Parsed(d) => ParseConcat(d, a[1..], b);
      case _ =>
    }
  }

  lemma {:induction false} ParseOne(c: VideoConfig, token: string)
    ensures ParseTokens(c, [token]) == ParseParam(c, token)
    ensures ParseTokens(c, []) == Parsed(c)
  {
    hide ParseParam;
    assert [token][1..] == [];
  }

  /** A parsed configuration with one more group of tokens. */
  lemma {:induction false} Then(c: VideoConfig, a: seq<string>, d: VideoConfig, b: seq<string>, e: VideoConfig)
    requires ParseTokens(c, a) == Parsed(d) && ParseTokens(d, b) == Parsed(e)
    ensures ParseTokens(c, a + b) == Parsed(e)
  {
    hide ParseTokens;
    ParseConcat(c, a, b);
  }

  /** The parameters before the frame rate. */
  function Head(p: Profile, c: VideoConfig): seq<string> {
    [Setting("cdi_profile_version", VersionText(p)), Setting("sampling", Print(SamplingKeys(p), c.sampling)), Setting("depth", Decimal(Bits(c.depth))),
     Setting("width", Decimal(c.width)), Setting("height", Decimal(c.height))]
  }

  lemma {:induction false} VersionReads(c: VideoConfig, p: Profile)
    ensures ParseTokens(c, [Setting("cdi_profile_version", VersionText(p))]) == Parsed(c.(version := VersionOf(p)))
  {
    hide ParseParam, VersionOfString;
    ParseOne(c, Setting("cdi_profile_version", VersionText(p)));
    assert ParamKeys()[0] == Key(PVersion, "cdi_profile_version");
    ParamReads(c, 0, VersionText(p));
    VersionTextParses(p);
  }

  lemma {:induction false} SamplingReads(c: VideoConfig, p: Profile, s: Sampling)
    requires c.version == VersionOf(p)
    ensures ParseTokens(c, [Setting("sampling", Print(SamplingKeys(p), s))]) == Parsed(c.(sampling := s))
  {
    hide ParseParam, NameOf, ValueOf;
    ParseOne(c, Setting("sampling", Print(SamplingKeys(p), s)));
    assert ParamKeys()[1] == Key(PSampling, "sampling");
    ParamReads(c, 1, Print(SamplingKeys(p), s));
    SamplingNamed(p, s);
    VersionTextParses(p);
  }

  lemma {:induction false} HeadReads(c: VideoConfig, p: Profile, d: VideoConfig)
    ensures ParseTokens(c, Head(p, d))
            == Parsed(c.(version := VersionOf(p), sampling := d.sampling, depth := d.depth, width := d.width, height := d.height))
  {
    hide ParseTokens, ParseParam, Decimal, SetDepth, SetValue, Print, Atoi, ValueOf;
    var depth, width, height := Setting("depth", Decimal(Bits(d.depth))), Setting("width", Decimal(d.width)), Setting("height", Decimal(d.height));
    var c1 := c.(version := VersionOf(p));
    var c2 := c1.(sampling := d.sampling);
    var c3 := c2.(depth := d.depth);
    var c4 := c3.(width := d.width);
    var c5 := c4.(height := d.height);
    VersionReads(c, p);
    SamplingReads(c1, p, d.sampling);
    assert ParamKeys()[2] == Key(PDepth, "depth") && ParamKeys()[3] == Key(PWidth, "width") && ParamKeys()[4] == Key(PHeight, "height");
    ParseOne(c2, depth);
    ParamReads(c2, 2, Decimal(Bits(d.depth)));
    SetterOf(c2, Decimal(Bits(d.depth)));
    DepthReads(c2, d.depth);
    ParseOne(c3, width);
    ParamReads(c3, 3, Decimal(d.width));
    NumberReads(c3, d.width);
    ParseOne(c4, height);
    ParamReads(c4, 4, Decimal(d.height));
    NumberReads(c4, d.height);
    var t1 := [Setting("cdi_profile_version", VersionText(p))];
    var t2 := [Setting("sampling", Print(SamplingKeys(p), d.sampling))];
    Then(c, t1, c1, t2, c2);
    Then(c, t1 + t2, c2, [depth], c3);
    Then(c, t1 + t2 + [depth], c3, [width], c4);
    Then(c, t1 + t2 + [depth] + [width], c4, [height], c5);
    assert Head(p, d) == t1 + t2 + [depth] + [width] + [height];
  }

  lemma {:induction false} SetterOf(c: VideoConfig, v: string)
    ensures SetValue(c, PDepth, v) == SetDepth(c, v) && SetValue(c, PRate, v) == SetRate(c, v)
    ensures SetValue(c, PPar, v) == SetPar(c, v) && SetValue(c, PPartialFrame, v) == SetPartialFrame(c, v)
  {
    hide SetDepth, SetRate, SetPar, SetPartialFrame, SetVersion, Lookup, Atoi, CaseEqual;
  }

  /** The parameters behind the frame rate. */
  function Tail(p: Profile, c: VideoConfig): seq<string> {
    [Setting("colorimetry", Print(ColorimetryKeys(), c.colorimetry))] + Optional(p, c)
  }

  lemma {:induction false} ColorimetryReads(c: VideoConfig, p: Profile, v: Colorimetry)
    requires c.version == VersionOf(p)
    ensures ParseTokens(c, [Setting("colorimetry", Print(ColorimetryKeys(), v))]) == Parsed(c.(colorimetry := v))
  {
    hide ParseParam, NameOf, ValueOf;
    ParseOne(c, Setting("colorimetry", Print(ColorimetryKeys(), v)));
    assert ParamKeys()[6] == Key(PColorimetry, "colorimetry");
    ParamReads(c, 6, Print(ColorimetryKeys(), v));
    ColorimetryNamed(v);
    VersionTextParses(p);
  }

  lemma {:induction false} InterlaceReads(c: VideoConfig, interlace: bool)
    requires !c.interlace
    ensures ParseTokens(c, If(interlace, "interlace")) == Parsed(c.(interlace := interlace))
  {
    hide ParseParam;
    ParseOne(c, "interlace");
    assert ParamKeys()[7] == Key(PInterlace, "interlace");
    FlagReads(c, 7);
  }

  lemma {:induction false} TcsReads(c: VideoConfig, p: Profile, v: Tcs)
    requires c.version == VersionOf(p) && c.tcs == SDR
    ensures ParseTokens(c, If(v != SDR, Setting("TCS", Print(TcsKeys(p), v)))) == Parsed(c.(tcs := v))
  {
    hide ParseParam, NameOf, ValueOf;
    ParseOne(c, Setting("TCS", Print(TcsKeys(p), v)));
    assert ParamKeys()[9] == Key(PTcs, "TCS");
    ParamReads(c, 9, Print(TcsKeys(p), v));
    TcsNamed(p, v);
    VersionTextParses(p);
  }

  lemma {:induction false} RangeReads(c: VideoConfig, p: Profile, v: Range)
    requires c.version == VersionOf(p) && c.range == Narrow
    ensures ParseTokens(c, If(v != Narrow, Setting("RANGE", Print(RangeKeys(p), v)))) == Parsed(c.(range := v))
  {
    hide ParseParam, NameOf, ValueOf;
    ParseOne(c, Setting("RANGE", Print(RangeKeys(p), v)));
    assert ParamKeys()[10] == Key(PRange, "RANGE");
    ParamReads(c, 10, Print(RangeKeys(p), v));
    RangeNamed(p, v);
    VersionTextParses(p);
  }

  lemma {:induction false} ParPartReads(c: VideoConfig, d: VideoConfig)
    requires c.parWidth == 1 && c.parHeight == 1
    ensures ParseTokens(c, If(d.parWidth != 1 || d.parHeight != 1, Setting("PAR", ParText(d))))
            == Parsed(c.(parWidth := d.parWidth, parHeight := d.parHeight))
  {
    hide ParseParam, ParText, SetPar, SetValue;
    ParseOne(c, Setting("PAR", ParText(d)));
    assert ParamKeys()[11] == Key(PPar, "PAR");
    ParamReads(c, 11, ParText(d));
    SetterOf(c, ParText(d));
    ParReads(c, d);
  }

  lemma {:induction false} AlphaReads(c: VideoConfig, used: bool)
    requires !c.alphaUsed
    ensures ParseTokens(c, If(used, Setting("alpha_included", "enabled"))) == Parsed(c.(alphaUsed := used))
  {
    hide ParseParam;
    ParseOne(c, Setting("alpha_included", "enabled"));
    assert ParamKeys()[12] == Key(PAlpha, "alpha_included");
    ParamReads(c, 12, "enabled");
  }

  lemma {:induction false} FramePartReads(c: VideoConfig, d: VideoConfig)
    requires !PartialFrame(c)
    ensures ParseTokens(c, If(PartialFrame(d), Setting("partial_frame", FrameText(d))))
            == Parsed(c.(horizontalSize := d.horizontalSize, verticalSize := d.verticalSize,
                         startHorizontalPos := d.startHorizontalPos, startVerticalPos := d.startVerticalPos))
  {
    hide ParseParam, FrameText, SetPartialFrame, SetValue;
    ParseOne(c, Setting("partial_frame", FrameText(d)));
    assert ParamKeys()[13] == Key(PPartialFrame, "partial_frame");
    ParamReads(c, 13, FrameText(d));
    SetterOf(c, FrameText(d));
    FrameReads(c, d);
  }

  /** No optional parameter has been read yet. */
  predicate Unset(c: VideoConfig) {
    !c.interlace && !c.segmented && c.tcs == SDR && c.range == Narrow && c.parWidth == 1 && c.parHeight == 1
    && !c.alphaUsed && !PartialFrame(c)
  }

  function WithTail(c: VideoConfig, d: VideoConfig): VideoConfig {
    c.(colorimetry := d.colorimetry, interlace := d.interlace, segmented := d.segmented, tcs := d.tcs, range := d.range,
       parWidth := d.parWidth, parHeight := d.parHeight, alphaUsed := d.alphaUsed,
       horizontalSize := d.horizontalSize, verticalSize := d.verticalSize,
       startHorizontalPos := d.startHorizontalPos, startVerticalPos := d.startVerticalPos)
  }

  /** The optional parameters after colorimetry, in two halves. */
  function FirstHalf(p: Profile, c: VideoConfig): seq<string> {
    If(c.interlace, "interlace") + If(c.segmented, "segmented")
    + If(c.tcs != SDR, Setting("TCS", Print(TcsKeys(p), c.tcs))) + If(c.range != Narrow, Setting("RANGE", Print(RangeKeys(p), c.range)))
  }

  function SecondHalf(c: VideoConfig): seq<string> {
    If(c.parWidth != 1 || c.parHeight != 1, Setting("PAR", ParText(c))) + If(c.alphaUsed, Setting("alpha_included", "enabled"))
    + If(PartialFrame(c), Setting("partial_frame", FrameText(c)))
  }

  lemma {:induction false} FirstHalfReads(c: VideoConfig, p: Profile, d: VideoConfig)
    requires c.version == VersionOf(p) && Unset(c)
    ensures ParseTokens(c, FirstHalf(p, d))
            == Parsed(c.(interlace := d.interlace, segmented := d.segmented, tcs := d.tcs, range := d.range))
  {
    hide ParseTokens, Print, If, Setting;
    var c1 := c.(interlace := d.interlace);
    var c2 := c1.(segmented := d.segmented);
    var c3 := c2.(tcs := d.tcs);
    var t1, t2 := If(d.interlace, "interlace"), If(d.segmented, "segmented");
    var t3 := If(d.tcs != SDR, Setting("TCS", Print(TcsKeys(p), d.tcs)));
    var t4 := If(d.range != Narrow, Setting("RANGE", Print(RangeKeys(p), d.range)));
    InterlaceReads(c, d.interlace);
    SegmentedReads(c1, d.segmented);
    TcsReads(c2, p, d.tcs);
    RangeReads(c3, p, d.range);
    Then(c, t1, c1, t2, c2);
    Then(c, t1 + t2, c2, t3, c3);
    Then(c, t1 + t2 + t3, c3, t4, c3.(range := d.range));
  }

  lemma {:induction false} SecondHalfReads(c: VideoConfig, d: VideoConfig)
    requires c.parWidth == 1 && c.parHeight == 1 && !c.alphaUsed && !PartialFrame(c)
    ensures ParseTokens(c, SecondHalf(d))
            == Parsed(c.(parWidth := d.parWidth, parHeight := d.parHeight, alphaUsed := d.alphaUsed,
                         horizontalSize := d.horizontalSize, verticalSize := d.verticalSize,
                         startHorizontalPos := d.startHorizontalPos, startVerticalPos := d.startVerticalPos))
  {
    hide ParseTokens, If, Setting, ParText, FrameText;
    var c1 := c.(parWidth := d.parWidth, parHeight := d.parHeight);
    var c2 := c1.(alphaUsed := d.alphaUsed);
    var t1 := If(d.parWidth != 1 || d.parHeight != 1, Setting("PAR", ParText(d)));
    var t2 := If(d.alphaUsed, Setting("alpha_included", "enabled"));
    var t3 := If(PartialFrame(d), Setting("partial_frame", FrameText(d)));
    ParPartReads(c, d);
    AlphaReads(c1, d.alphaUsed);
    FramePartReads(c2, d);
    Then(c, t1, c1, t2, c2);
    Then(c, t1 + t2, c2, t3,
         c2.(horizontalSize := d.horizontalSize, verticalSize := d.verticalSize,
             startHorizontalPos := d.startHorizontalPos, startVerticalPos := d.startVerticalPos));
  }

  lemma {:induction false} Halves(p: Profile, c: VideoConfig)
    ensures Optional(p, c) == FirstHalf(p, c) + SecondHalf(c)
  {
    hide If;
  }

  lemma {:induction false} TailReads(c: VideoConfig, p: Profile, d: VideoConfig)
    requires c.version == VersionOf(p) && Unset(c)
    ensures ParseTokens(c, Tail(p, d)) == Parsed(WithTail(c, d))
  {
    hide ParseTokens, Print, FirstHalf, SecondHalf, Optional;
    var t := [Setting("colorimetry", Print(ColorimetryKeys(), d.colorimetry))];
    var c1 := c.(colorimetry := d.colorimetry);
    var c2 := c1.(interlace := d.interlace, segmented := d.segmented, tcs := d.tcs, range := d.range);
    ColorimetryReads(c, p, d.colorimetry);
    FirstHalfReads(c1, p, d);
    SecondHalfReads(c2, d);
    Halves(p, d);
    Then(c, t, c1, FirstHalf(p, d), c2);
    Then(c, t + FirstHalf(p, d), c2, SecondHalf(d), WithTail(c, d));
    assert Tail(p, d) == t + FirstHalf(p, d) + SecondHalf(d);
  }

  lemma {:induction false} SegmentedReads(c: VideoConfig, segmented: bool)
    requires !c.segmented
    ensures ParseTokens(c, If(segmented, "segmented")) == Parsed(c.(segmented := segmented))
  {
    hide ParseParam;
    ParseOne(c, "segmented");
    assert ParamKeys()[8] == Key(PSegmented, "segmented");
    FlagReads(c, 8);
  }

  // ----- Round trip -----

  lemma {:induction false} NamesAreClean()
    ensures Clean("cdi_profile_version") && Clean("sampling") && Clean("depth") && Clean("width") && Clean("height")
    ensures Clean("exactframerate") && Clean("colorimetry") && Clean("interlace") && Clean("segmented") && Clean("TCS")
    ensures Clean("RANGE") && Clean("PAR") && Clean("alpha_included") && Clean("partial_frame") && NoDelimiter("enabled")
  {
  }

  lemma {:induction false} NumbersAreClean(c: VideoConfig)
    ensures NoDelimiter(RateText(c)) && NoDelimiter(ParText(c)) && NoDelimiter(FrameText(c))
  {
    hide Decimal;
    DigitsAreClean(c.rateNum);
    DigitsAreClean(c.rateDen);
    DigitsAreClean(c.parWidth);
    DigitsAreClean(c.parHeight);
    FrameIsClean(c);
  }

  lemma {:induction false} FrameIsClean(c: VideoConfig)
    ensures NoDelimiter(FrameText(c))
  {
    hide Decimal, NoDelimiter;
    DigitsAreClean(c.horizontalSize);
    DigitsAreClean(c.verticalSize);
    DigitsAreClean(c.startHorizontalPos);
    DigitsAreClean(c.startVerticalPos);
    Punctuation();
    var a := Decimal(c.horizontalSize) + "x" + Decimal(c.verticalSize);
    NoDelimiterConcat(Decimal(c.horizontalSize), "x");
    NoDelimiterConcat(Decimal(c.horizontalSize) + "x", Decimal(c.verticalSize));
    NoDelimiterConcat(a, "+");
    NoDelimiterConcat(a + "+", Decimal(c.startHorizontalPos));
    NoDelimiterConcat(a + "+" + Decimal(c.startHorizontalPos), "+");
    NoDelimiterConcat(a + "+" + Decimal(c.startHorizontalPos) + "+", Decimal(c.startVerticalPos));
  }

  lemma {:induction false} Punctuation()
    ensures NoDelimiter("x") && NoDelimiter("+")
  {
  }

  lemma {:induction false} MandatoryClean(p: Profile, c: VideoConfig)
    ensures AllClean(Mandatory(p, c))
  {
    hide Decimal, NameOf, ValueOf, NoDelimiter, Setting, RateText;
    NamesAreClean();
    NumbersAreClean(c);
    SamplingNamed(p, c.sampling);
    ColorimetryNamed(c.colorimetry);
    DigitsAreClean(Bits(c.depth));
    DigitsAreClean(c.width);
    DigitsAreClean(c.height);
    VersionIsClean(p);
    SettingIsClean("cdi_profile_version", VersionText(p));
    SettingIsClean("sampling", Print(SamplingKeys(p), c.sampling));
    SettingIsClean("depth", Decimal(Bits(c.depth)));
    SettingIsClean("width", Decimal(c.width));
    SettingIsClean("height", Decimal(c.height));
    SettingIsClean("exactframerate", RateText(c));
    SettingIsClean("colorimetry", Print(ColorimetryKeys(), c.colorimetry));
  }

  lemma {:induction false} VersionIsClean(p: Profile)
    ensures NoDelimiter(VersionText(p)) && |VersionText(p)| == 5
  {
  }

  lemma {:induction false} OptionalClean(p: Profile, c: VideoConfig)
    ensures AllClean(Optional(p, c))
  {
    hide Decimal, NameOf, ValueOf, NoDelimiter, Setting, ParText, FrameText;
    NamesAreClean();
    NumbersAreClean(c);
    TcsNamed(p, c.tcs);
    RangeNamed(p, c.range);
    SettingIsClean("TCS", Print(TcsKeys(p), c.tcs));
    SettingIsClean("RANGE", Print(RangeKeys(p), c.range));
    SettingIsClean("PAR", ParText(c));
    SettingIsClean("alpha_included", "enabled");
    SettingIsClean("partial_frame", FrameText(c));
  }

  /** What parsing the printed tokens comes to: everything but the frame rate always survives. */
  lemma {:induction false} TokensRead(p: Profile, c: VideoConfig)
    requires c.version == VersionOf(p)
    ensures ParseTokens(Default(c.version), Mandatory(p, c) + Optional(p, c))
            == match SetRate(c.(rateNum := 0, rateDen := 0), RateText(c))
               case Parsed(d) => Parsed(c.(rateNum := d.rateNum, rateDen := d.rateDen))
               case r => r
  {
    hide ParseTokens, ParseParam, SetRate, RateText, Head, Optional, SetValue, Print, Decimal;
    var head := Default(c.version).(sampling := c.sampling, depth := c.depth, width := c.width, height := c.height);
    var rate := [Setting("exactframerate", RateText(c))];
    assert Mandatory(p, c) + Optional(p, c) == Head(p, c) + (rate + Tail(p, c)) by {
      Regroup(p, c);
    }
    HeadReads(Default(c.version), p, c);
    ParseConcat(Default(c.version), Head(p, c), rate + Tail(p, c));
    ParseConcat(head, rate, Tail(p, c));
    ParseOne(head, Setting("exactframerate", RateText(c)));
    assert ParamKeys()[5] == Key(PRate, "exactframerate");
    ParamReads(head, 5, RateText(c));
    SetterOf(head, RateText(c));
    RateAlone(head, c.(rateNum := 0, rateDen := 0), RateText(c));
    match SetRate(head, RateText(c)) {
      case Parsed(d) => TailReads(d, p, c);
      case _ =>
    }
  }

  lemma {:induction false} Regroup(p: Profile, c: VideoConfig)
    ensures Mandatory(p, c) + Optional(p, c) == Head(p, c) + ([Setting("exactframerate", RateText(c))] + Tail(p, c))
  {
    hide Optional;
  }

  /** Setting the frame rate depends on the text alone and changes nothing else. */
  lemma {:induction false} RateAlone(c: VideoConfig, d: VideoConfig, v: string)
    ensures match SetRate(d, v)
            case Parsed(e) => SetRate(c, v) == Parsed(c.(rateNum := e.rateNum, rateDen := e.rateDen))
            case r => SetRate(c, v) == r
  {
  }

  /** Round trip: for every video configuration, parsing its text gives the configuration back exactly when its
      frame rate fits: both numbers are at most INT_MAX, and either the denominator is one or the two numbers
      have at most 18 digits together. */
  lemma {:induction false} VideoRoundTrip(p: Profile, c: VideoConfig)
    requires c.version == VersionOf(p)
    ensures ParseVideo(c.version, VideoText(p, c)) == Parsed(c) <==> RateFits(c)
    ensures !ParseVideo(c.version, VideoText(p, c)).Rejected?
  {
    hide ParseTokens, SetRate, RateText, Mandatory, Optional, Join, Tokens;
    MandatoryClean(p, c);
    OptionalClean(p, c);
    NotEmpty(p, c);
    TokensOfJoin(Mandatory(p, c) + Optional(p, c));
    TokensRead(p, c);
    var blank := c.(rateNum := 0, rateDen := 0);
    if RateFits(c) {
      RateReads(blank, c);
    } else {
      RateLost(blank, c);
    }
  }

  /** What is parsed has the version of the profile. */
  lemma {:induction false} ParsedVersion(p: Profile, c: VideoConfig)
    requires c.version == VersionOf(p)
    ensures var r := ParseVideo(c.version, VideoText(p, c));
            r.Parsed? ==> r.config.version == c.version
  {
    hide ParseTokens, SetRate, RateText, Mandatory, Optional, Join, Tokens;
    MandatoryClean(p, c);
    OptionalClean(p, c);
    NotEmpty(p, c);
    TokensOfJoin(Mandatory(p, c) + Optional(p, c));
    TokensRead(p, c);
  }

  lemma {:induction false} RateAlike(c: VideoConfig, d: VideoConfig)
    requires c.rateNum == d.rateNum && c.rateDen == d.rateDen
    ensures RateFits(c) == RateFits(d)
  {
  }

  lemma {:induction false} NotEmpty(p: Profile, c: VideoConfig)
    ensures Mandatory(p, c) != []
  {
  }

  // ----- The text always fits its buffers -----

  const OPTIONAL_SIZE := 512

  lemma {:induction false} ShortWord(n: U16)
    ensures |Decimal(n)| <= 5
  {
    assert Pow10(5) == 100_000;
    DecimalLength(n, 5, 0x1_0000);
  }

  lemma {:induction false} OptionalLengths(p: Profile, c: VideoConfig)
    ensures |Setting("TCS", Print(TcsKeys(p), c.tcs))| <= 16 && |Setting("RANGE", Print(RangeKeys(p), c.range))| <= 17
    ensures |Setting("PAR", ParText(c))| <= 15 && |Setting("partial_frame", FrameText(c))| <= 37
    ensures |Setting("alpha_included", "enabled")| == 22
  {
    hide NameOf, ValueOf, ParText, FrameText;
    ParLength(c);
    FrameLength(c);
    TcsNamed(p, c.tcs);
    RangeNamed(p, c.range);
  }

  lemma {:induction false} OptionalFits(p: Profile, c: VideoConfig)
    ensures |Spaced(Optional(p, c))| <= 139
  {
    hide Spaced, Print, If, Setting, ParText, FrameText;
    OptionalLengths(p, c);
    var tcs, range := Setting("TCS", Print(TcsKeys(p), c.tcs)), Setting("RANGE", Print(RangeKeys(p), c.range));
    var par := c.parWidth != 1 || c.parHeight != 1;
    var t1 := If(c.interlace, "interlace");
    var t2 := t1 + If(c.segmented, "segmented");
    var t3 := t2 + If(c.tcs != SDR, tcs);
    var t4 := t3 + If(c.range != Narrow, range);
    var t5 := t4 + If(par, Setting("PAR", ParText(c)));
    var t6 := t5 + If(c.alphaUsed, Setting("alpha_included", "enabled"));
    FirstFits(c.interlace);
    SpacedLength(t1, c.segmented, "segmented");
    SpacedLength(t2, c.tcs != SDR, tcs);
    SpacedLength(t3, c.range != Narrow, range);
    SpacedLength(t4, par, Setting("PAR", ParText(c)));
    SpacedLength(t5, c.alphaUsed, Setting("alpha_included", "enabled"));
    SpacedLength(t6, PartialFrame(c), Setting("partial_frame", FrameText(c)));
  }

  lemma {:induction false} FirstFits(b: bool)
    ensures |Spaced(If(b, "interlace"))| <= 11
  {
    SpacedIf(b, "interlace");
  }

  lemma {:induction false} ParLength(c: VideoConfig)
    ensures |ParText(c)| <= 11
  {
    hide Decimal;
    ShortWord(c.parWidth);
    ShortWord(c.parHeight);
  }

  lemma {:induction false} FrameLength(c: VideoConfig)
    ensures |FrameText(c)| <= 23
  {
    hide Decimal;
    ShortWord(c.horizontalSize);
    ShortWord(c.verticalSize);
    ShortWord(c.startHorizontalPos);
    ShortWord(c.startVerticalPos);
  }

  /** The mandatory parameters as one format string prints them. */
  function MandatoryText(p: Profile, c: VideoConfig): string {
    Setting("cdi_profile_version", VersionText(p)) + "; "
    + (Setting("sampling", Print(SamplingKeys(p), c.sampling)) + "; "
    + (Setting("depth", Decimal(Bits(c.depth))) + "; "
    + (Setting("width", Decimal(c.width)) + "; "
    + (Setting("height", Decimal(c.height)) + "; "
    + (Setting("exactframerate", RateText(c)) + "; "
    + (Setting("colorimetry", Print(ColorimetryKeys(), c.colorimetry)) + ";"))))))
  }

  lemma {:induction false} MandatoryJoined(p: Profile, c: VideoConfig)
    ensures MandatoryText(p, c) == Join(Mandatory(p, c))
  {
    hide Join, Setting, Print, Decimal, RateText;
    var ts := Mandatory(p, c);
    assert ts == [ts[0]] + ([ts[1]] + ([ts[2]] + ([ts[3]] + ([ts[4]] + ([ts[5]] + [ts[6]])))));
    JoinCons(ts[0], [ts[1]] + ([ts[2]] + ([ts[3]] + ([ts[4]] + ([ts[5]] + [ts[6]])))));
    JoinCons(ts[1], [ts[2]] + ([ts[3]] + ([ts[4]] + ([ts[5]] + [ts[6]]))));
    JoinCons(ts[2], [ts[3]] + ([ts[4]] + ([ts[5]] + [ts[6]])));
    JoinCons(ts[3], [ts[4]] + ([ts[5]] + [ts[6]]));
    JoinCons(ts[4], [ts[5]] + [ts[6]]);
    JoinCons(ts[5], [ts[6]]);
    JoinOne(ts[6]);
  }

  lemma {:induction false} TextParts(p: Profile, c: VideoConfig)
    ensures VideoText(p, c) == MandatoryText(p, c) + Spaced(Optional(p, c))
  {
    hide Join, Mandatory, Optional, MandatoryText;
    MandatoryJoined(p, c);
    NotEmpty(p, c);
    JoinConcat(Mandatory(p, c), Optional(p, c));
  }

  lemma {:induction false} MandatoryFits(p: Profile, c: VideoConfig)
    ensures |MandatoryText(p, c)| <= 144
  {
    hide Decimal, NameOf, ValueOf;
    SamplingNamed(p, c.sampling);
    ColorimetryNamed(c.colorimetry);
    VersionIsClean(p);
    ShortDepth(c.depth);
    ShortWord(c.width);
    ShortWord(c.height);
  }

  lemma {:induction false} ShortDepth(d: Depth)
    ensures |Decimal(Bits(d))| <= 2
  {
  }

  // ----- The printer and the parser of the source -----

  /** The buffer holds these tokens, and no more than so many characters. */
  ghost predicate Holds(buffer: string, pos: nat, ts: seq<string>, bound: nat) {
    buffer == Spaced(ts) && pos == |buffer| <= bound
  }

  /** Appends an optional parameter to the buffer. */
  method AddIf(buffer: string, pos: nat, b: bool, token: string, ghost ts: seq<string>, ghost bound: nat)
    returns (buffer': string, pos': nat)
    requires Holds(buffer, pos, ts, bound) && bound + |token| + 2 < OPTIONAL_SIZE
    ensures Holds(buffer', pos', ts + If(b, token), bound + |token| + 2)
  {
    hide Spaced;
    SpacedLength(ts, b, token);
    buffer', pos' := buffer, pos;
    if OPTIONAL_SIZE > pos && b {
      buffer', pos' := Append(buffer, pos, OPTIONAL_SIZE, " " + token + ";");
    }
  }

  /** The optional parameters, appended one by one. The text never fills its buffer, so none is lost. */
  method CreateOptionalParamsString(p: Profile, c: VideoConfig) returns (text: string, ok: bool)
    ensures ok && text == Spaced(Optional(p, c)) && |text| < OPTIONAL_SIZE
  {
    hide Print, If, Setting, ParText, FrameText, Holds;
    OptionalLengths(p, c);
    var tcs, range := Setting("TCS", Print(TcsKeys(p), c.tcs)), Setting("RANGE", Print(RangeKeys(p), c.range));
    var par, alpha, frame := Setting("PAR", ParText(c)), Setting("alpha_included", "enabled"), Setting("partial_frame", FrameText(c));
    var pos: nat := 0;
    text := "";
    NothingHeld();
    text, pos := AddIf(text, pos, c.interlace, "interlace", [], 0);
    ghost var t1 := [] + If(c.interlace, "interlace");
    text, pos := AddIf(text, pos, c.segmented, "segmented", t1, 11);
    ghost var t2, b2 := t1 + If(c.segmented, "segmented"), 22;
    text, pos := AddIf(text, pos, c.tcs != SDR, tcs, t2, b2);
    ghost var t3, b3 := t2 + If(c.tcs != SDR, tcs), b2 + |tcs| + 2;
    text, pos := AddIf(text, pos, c.range != Narrow, range, t3, b3);
    ghost var t4, b4 := t3 + If(c.range != Narrow, range), b3 + |range| + 2;
    text, pos := AddIf(text, pos, c.parWidth != 1 || c.parHeight != 1, par, t4, b4);
    ghost var t5, b5 := t4 + If(c.parWidth != 1 || c.parHeight != 1, par), b4 + |par| + 2;
    text, pos := AddIf(text, pos, c.alphaUsed, alpha, t5, b5);
    ghost var t6, b6 := t5 + If(c.alphaUsed, alpha), b5 + |alpha| + 2;
    text, pos := AddIf(text, pos, PartialFrame(c), frame, t6, b6);
    ok := pos < OPTIONAL_SIZE;
    assert t1 == If(c.interlace, "interlace");
    Held(text, pos, Optional(p, c), b6 + |frame| + 2);
  }

  lemma {:induction false} NothingHeld()
    ensures Holds("", 0, [], 0)
  {
  }

  lemma {:induction false} Held(buffer: string, pos: nat, ts: seq<string>, bound: nat)
    requires Holds(buffer, pos, ts, bound)
    ensures buffer == Spaced(ts) && pos == |buffer| <= bound
  {
  }

  /** Prints a configuration. It fails only for a zero pixel aspect ratio in profile 01.00: the checks on the length
      of the text never fail. */
  method MakeBaselineVideoConfiguration(p: Profile, c: VideoConfig) returns (ret: bool, data: string)
    ensures ret <==> !(p == Profile01 && (c.parWidth == 0 || c.parHeight == 0))
    ensures ret ==> data == VideoText(p, c) && |data| < DATA_SIZE
  {
    hide MandatoryText, Optional;
    data := "";
    if p == Profile01 && (c.parHeight == 0 || c.parWidth == 0) {
      return false, data;
    }
    var optionalParams;
    optionalParams, ret := CreateOptionalParamsString(p, c);
    OptionalFits(p, c);
    MandatoryFits(p, c);
    TextParts(p, c);
    if ret {
      var text := MandatoryText(p, c) + optionalParams;
      if DATA_SIZE <= |text| {
        ret := false;
      } else {
        data := text;
      }
    }
  }

  /** Parses the text parameter by parameter, until one is rejected. */
  method ParseBaselineVideoConfiguration(v: Version, data: string) returns (r: Parsed<VideoConfig>)
    ensures r == ParseVideo(v, data)
  {
    hide ParseParam, Tokens;
    r := Parsed(Default(v));
    var pos: nat := 0;
    var token := Some("");
    assert data[0..] == data;
    while r.Parsed? && token.Some?
      invariant pos <= |data|
      invariant r.Parsed? ==> ParseVideo(v, data) == ParseTokens(r.config, if token.Some? then Tokens(data[pos..]) else [])
      invariant !r.Parsed? ==> ParseVideo(v, data) == r
      decreases token.Some?, |data| - pos
    {
      token, pos := StrTokR(data, pos);
      if token.Some? {
        UnfoldParse(r.config, token.value, Tokens(data[pos..]));
        r := ParseParam(r.config, token.value);
      }
    }
    if r.Parsed? {
      ParseNothing(r.config);
    }
  }

  lemma {:induction false} UnfoldParse(c: VideoConfig, t: string, rest: seq<string>)
    ensures var r := ParseParam(c, t);
            ParseTokens(c, [t] + rest) == if r.Parsed? then ParseTokens(r.config, rest) else r
  {
    hide ParseParam;
    assert ([t] + rest)[1..] == rest;
  }

  lemma {:induction false} ParseNothing(c: VideoConfig)
    ensures ParseTokens(c, []) == Parsed(c)
  {
  }
}
