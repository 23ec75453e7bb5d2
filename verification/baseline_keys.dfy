/** Baseline profile versions and their tables of names. */
module BaselineKeys {
  import opened Text

  type U16 = x: int | 0 <= x < 0x1_0000
  type U32 = x: int | 0 <= x < 0x1_0000_0000

  datatype Profile = Profile01 | Profile02

  datatype Version = Version(major: int, minor: int)

  /** The profile registered for a version; version 0.0 stands for the first one. */
  function FindProfileVersion(v: Version): Option<Profile> {
    if v == Version(0, 0) || v == Version(1, 0) then Some(Profile01)
    else if v == Version(2, 0) then Some(Profile02)
    else None
  }

  function VersionOf(p: Profile): Version {
    match p
    case Profile01 => Version(1, 0)
    case Profile02 => Version(2, 0)
  }

  datatype Sampling = YCbCr444 | YCbCr422 | RGB
  datatype Tcs = SDR | PQ | HLG | Linear | BT2100LINPQ | BT2100LINHLG | ST2065_1 | ST428_1 | Density
  datatype Range = Narrow | FullProtect | Full
  datatype Colorimetry = BT601 | BT709 | BT2020 | BT2100 | ACES | ADX | XYZ
  datatype Depth = Depth8 | Depth10 | Depth12
  datatype Grouping = Mono | DualMono | Stereo | MatrixStereo | Surround51 | Surround71 | Surround222 | SdiGroup
  datatype SampleRate = Rate48kHz | Rate96kHz

  function SamplingKeys(p: Profile): seq<Key<Sampling>> {
    match p
    case Profile01 => [Key(YCbCr444, "YCbCr444"), Key(YCbCr422, "YCbCr422"), Key(RGB, "RGB")]
    case Profile02 => [Key(YCbCr444, "YCbCr-4:4:4"), Key(YCbCr422, "YCbCr-4:2:2"), Key(RGB, "RGB")]
  }

  function TcsKeys(p: Profile): seq<Key<Tcs>> {
    [Key(SDR, "SDR"), Key(PQ, "PQ"), Key(HLG, "HLG"), Key(Linear, if p == Profile01 then "Linear" else "LINEAR"),
     Key(BT2100LINPQ, "BT2100LINPQ"), Key(BT2100LINHLG, "BT2100LINHLG"), Key(ST2065_1, "ST2065-1"),
     Key(ST428_1, "ST428-1"), Key(Density, if p == Profile01 then "Density" else "DENSITY")]
  }

  function RangeKeys(p: Profile): seq<Key<Range>> {
    match p
    case Profile01 => [Key(Narrow, "Narrow"), Key(FullProtect, "FullProtect"), Key(Full, "Full")]
    case Profile02 => [Key(Narrow, "NARROW"), Key(FullProtect, "FULLPROTECT"), Key(Full, "FULL")]
  }

  function ColorimetryKeys(): seq<Key<Colorimetry>> {
    [Key(BT601, "BT601"), Key(BT709, "BT709"), Key(BT2020, "BT2020"), Key(BT2100, "BT2100"),
     Key(ACES, "ST2065-1"), Key(ADX, "ST2065-3"), Key(XYZ, "XYZ")]
  }

  function GroupingKeys(p: Profile): seq<Key<Grouping>> {
    match p
    case Profile01 =>
      [Key(Mono, "M"), Key(DualMono, "DM"), Key(Stereo, "ST"), Key(MatrixStereo, "LtRt"), Key(Surround51, "51"),
       Key(Surround71, "71"), Key(Surround222, "222"), Key(SdiGroup, "SGRP")]
    case Profile02 =>
      [Key(Mono, "SMPTE2110.(M)"), Key(DualMono, "SMPTE2110.(DM)"), Key(Stereo, "SMPTE2110.(ST)"),
       Key(MatrixStereo, "SMPTE2110.(LtRt)"), Key(Surround51, "SMPTE2110.(51)"), Key(Surround71, "SMPTE2110.(71)"),
       Key(Surround222, "SMPTE2110.(222)"), Key(SdiGroup, "SMPTE2110.(SGRP)")]
  }

  function SampleRateKeys(): seq<Key<SampleRate>> {
    [Key(Rate48kHz, "48kHz"), Key(Rate96kHz, "96kHz")]
  }

  // ----- The tables are sound: every value has a name, which the tokenizer keeps and which leads back to it -----

  lemma {:induction false} SamplingTable(p: Profile)
    ensures DistinctNames(SamplingKeys(p)) && TidyNames(SamplingKeys(p), 11)
  {
    hide DistinctNames, TidyNames;
    SamplingDistinct(p);
    SamplingTidy(p);
  }

  lemma {:induction false} SamplingDistinct(p: Profile)
    ensures DistinctNames(SamplingKeys(p))
  {
    assert "YCbCr444"[6] != "YCbCr422"[6] && "YCbCr-4:4:4"[8] != "YCbCr-4:2:2"[8];
  }

  lemma {:induction false} SamplingTidy(p: Profile)
    ensures TidyNames(SamplingKeys(p), 11)
  {
  }

  lemma {:induction false} SamplingNamed(p: Profile, v: Sampling)
    ensures Named(SamplingKeys(p), v, 11)
  {
    hide NameOf, ValueOf, DistinctNames, TidyNames;
    SamplingTable(p);
    var k := match v case YCbCr444 => 0 case YCbCr422 => 1 case RGB => 2;
    assert SamplingKeys(p)[k].value == v;
    ListedIsNamed(SamplingKeys(p), k, 11);
  }

  lemma {:induction false} TcsTable(p: Profile)
    ensures DistinctNames(TcsKeys(p)) && TidyNames(TcsKeys(p), 12)
  {
    hide DistinctNames, TidyNames;
    TcsDistinct(p);
    TcsTidy(p);
  }

  lemma {:induction false} TcsDistinct(p: Profile)
    ensures DistinctNames(TcsKeys(p))
  {
    hide TcsKeys;
    TcsShapes(p);
    var t := TcsKeys(p);
    forall i, j | 0 <= i < j < |t|
      ensures !CaseEqual(t[j].name, t[i].name)
    {
      assert |t[j].name| != |t[i].name| || Lower(t[j].name[0]) != Lower(t[i].name[0]);
    }
  }

  // No two names have the same length and, ignoring case, the same first letter.
  lemma {:induction false} TcsShapes(p: Profile)
    ensures |TcsKeys(p)| == 9
    ensures forall k :: 0 <= k < 9 ==> |TcsKeys(p)[k].name| == [3, 2, 3, 6, 11, 12, 8, 7, 7][k]
    ensures forall k :: 0 <= k < 9 ==> Lower(TcsKeys(p)[k].name[0]) == ['s', 'p', 'h', 'l', 'b', 'b', 's', 's', 'd'][k]
  {
    assert Lower("SDR"[0]) == 's' && Lower("PQ"[0]) == 'p' && Lower("HLG"[0]) == 'h' && Lower("ST2065-1"[0]) == 's';
    assert Lower("Linear"[0]) == 'l' && Lower("LINEAR"[0]) == 'l' && Lower("BT2100LINPQ"[0]) == 'b';
    assert Lower("BT2100LINHLG"[0]) == 'b' && Lower("ST428-1"[0]) == 's';
    assert Lower("Density"[0]) == 'd' && Lower("DENSITY"[0]) == 'd';
  }

  lemma {:induction false} TcsTidy(p: Profile)
    ensures TidyNames(TcsKeys(p), 12)
  {
    hide Clean;
    TcsClean();
  }

  lemma {:induction false} TcsClean()
    ensures Clean("SDR") && Clean("PQ") && Clean("HLG")
    ensures Clean("Linear") && Clean("LINEAR") && Clean("BT2100LINPQ")
    ensures Clean("BT2100LINHLG") && Clean("ST2065-1") && Clean("ST428-1")
    ensures Clean("Density") && Clean("DENSITY")
  {
  }

  lemma {:induction false} TcsNamed(p: Profile, v: Tcs)
    ensures Named(TcsKeys(p), v, 12)
  {
    hide NameOf, ValueOf, DistinctNames, TidyNames;
    TcsTable(p);
    var k := match v case SDR => 0 case PQ => 1 case HLG => 2 case Linear => 3 case BT2100LINPQ => 4
                     case BT2100LINHLG => 5 case ST2065_1 => 6 case ST428_1 => 7 case Density => 8;
    assert TcsKeys(p)[k].value == v;
    ListedIsNamed(TcsKeys(p), k, 12);
  }

  lemma {:induction false} RangeTable(p: Profile)
    ensures DistinctNames(RangeKeys(p)) && TidyNames(RangeKeys(p), 11)
  {
    hide DistinctNames, TidyNames;
    RangeDistinct(p);
    RangeTidy(p);
  }

  lemma {:induction false} RangeDistinct(p: Profile)
    ensures DistinctNames(RangeKeys(p))
  {
  }

  lemma {:induction false} RangeTidy(p: Profile)
    ensures TidyNames(RangeKeys(p), 11)
  {
    hide Clean;
    RangeClean();
  }

  lemma {:induction false} RangeClean()
    ensures Clean("Narrow") && Clean("FullProtect") && Clean("Full")
    ensures Clean("NARROW") && Clean("FULLPROTECT") && Clean("FULL")
  {
  }

  lemma {:induction false} RangeNamed(p: Profile, v: Range)
    ensures Named(RangeKeys(p), v, 11)
  {
    hide NameOf, ValueOf, DistinctNames, TidyNames;
    RangeTable(p);
    var k := match v case Narrow => 0 case FullProtect => 1 case Full => 2;
    assert RangeKeys(p)[k].value == v;
    ListedIsNamed(RangeKeys(p), k, 11);
  }

  lemma {:induction false} ColorimetryTable()
    ensures DistinctNames(ColorimetryKeys()) && TidyNames(ColorimetryKeys(), 8)
  {
    hide DistinctNames, TidyNames;
    ColorimetryDistinct();
    ColorimetryTidy();
  }

  lemma {:induction false} ColorimetryDistinct()
    ensures DistinctNames(ColorimetryKeys())
  {
    assert "BT601"[2] != "BT709"[2] && "BT2020"[3] != "BT2100"[3] && "ST2065-1"[7] != "ST2065-3"[7];
  }

  lemma {:induction false} ColorimetryTidy()
    ensures TidyNames(ColorimetryKeys(), 8)
  {
  }

  lemma {:induction false} ColorimetryNamed(v: Colorimetry)
    ensures Named(ColorimetryKeys(), v, 8)
  {
    hide NameOf, ValueOf, DistinctNames, TidyNames;
    ColorimetryTable();
    var k := match v case BT601 => 0 case BT709 => 1 case BT2020 => 2 case BT2100 => 3 case ACES => 4 case ADX => 5 case XYZ => 6;
    assert ColorimetryKeys()[k].value == v;
    ListedIsNamed(ColorimetryKeys(), k, 8);
  }

  lemma {:induction false} GroupingTable(p: Profile)
    ensures DistinctNames(GroupingKeys(p)) && TidyNames(GroupingKeys(p), 16)
  {
    hide DistinctNames, TidyNames;
    GroupingDistinct(p);
    GroupingTidy(p);
  }

  lemma {:induction false} GroupingDistinct(p: Profile)
    ensures DistinctNames(GroupingKeys(p))
  {
    hide GroupingKeys;
    GroupingShapes(p);
    var t := GroupingKeys(p);
    var at := if p == Profile01 then 0 else 11;
    forall i, j | 0 <= i < j < |t|
      ensures !CaseEqual(t[j].name, t[i].name)
    {
      assert |t[j].name| != |t[i].name| || Lower(t[j].name[at]) != Lower(t[i].name[at]);
    }
  }

  // No two names have the same length and, ignoring case, the same first letter of the grouping itself.
  lemma {:induction false} GroupingShapes(p: Profile)
    ensures |GroupingKeys(p)| == 8
    ensures forall k :: 0 <= k < 8 ==>
              |GroupingKeys(p)[k].name| == [1, 2, 2, 4, 2, 2, 3, 4][k] + if p == Profile01 then 0 else 12
    ensures forall k :: 0 <= k < 8 ==>
              Lower(GroupingKeys(p)[k].name[if p == Profile01 then 0 else 11]) == ['m', 'd', 's', 'l', '5', '7', '2', 's'][k]
  {
    if p == Profile01 {
      assert Lower("M"[0]) == 'm' && Lower("DM"[0]) == 'd' && Lower("ST"[0]) == 's' && Lower("LtRt"[0]) == 'l';
      assert Lower("51"[0]) == '5' && Lower("71"[0]) == '7' && Lower("222"[0]) == '2' && Lower("SGRP"[0]) == 's';
    } else {
      assert Lower("SMPTE2110.(M)"[11]) == 'm' && Lower("SMPTE2110.(DM)"[11]) == 'd';
      assert Lower("SMPTE2110.(ST)"[11]) == 's' && Lower("SMPTE2110.(LtRt)"[11]) == 'l';
      assert Lower("SMPTE2110.(51)"[11]) == '5' && Lower("SMPTE2110.(71)"[11]) == '7';
      assert Lower("SMPTE2110.(222)"[11]) == '2' && Lower("SMPTE2110.(SGRP)"[11]) == 's';
    }
  }

  lemma {:induction false} GroupingTidy(p: Profile)
    ensures TidyNames(GroupingKeys(p), 16)
  {
    hide Clean;
    GroupingClean();
  }

  lemma {:induction false} GroupingClean()
    ensures Clean("M") && Clean("DM") && Clean("ST")
    ensures Clean("LtRt") && Clean("51") && Clean("71")
    ensures Clean("222") && Clean("SGRP") && Clean("SMPTE2110.(M)")
    ensures Clean("SMPTE2110.(DM)") && Clean("SMPTE2110.(ST)") && Clean("SMPTE2110.(LtRt)")
    ensures Clean("SMPTE2110.(51)") && Clean("SMPTE2110.(71)") && Clean("SMPTE2110.(222)")
    ensures Clean("SMPTE2110.(SGRP)")
  {
  }

  lemma {:induction false} GroupingNamed(p: Profile, v: Grouping)
    ensures Named(GroupingKeys(p), v, 16)
  {
    hide NameOf, ValueOf, DistinctNames, TidyNames;
    GroupingTable(p);
    var k := match v case Mono => 0 case DualMono => 1 case Stereo => 2 case MatrixStereo => 3 case Surround51 => 4
                     case Surround71 => 5 case Surround222 => 6 case SdiGroup => 7;
    assert GroupingKeys(p)[k].value == v;
    ListedIsNamed(GroupingKeys(p), k, 16);
  }

  lemma {:induction false} SampleRateTable()
    ensures DistinctNames(SampleRateKeys()) && TidyNames(SampleRateKeys(), 5)
  {
    hide DistinctNames, TidyNames;
    SampleRateDistinct();
    SampleRateTidy();
  }

  lemma {:induction false} SampleRateDistinct()
    ensures DistinctNames(SampleRateKeys())
  {
    assert "48kHz"[0] != "96kHz"[0];
  }

  lemma {:induction false} SampleRateTidy()
    ensures TidyNames(SampleRateKeys(), 5)
  {
  }

  lemma {:induction false} SampleRateNamed(v: SampleRate)
    ensures Named(SampleRateKeys(), v, 5)
  {
    hide NameOf, ValueOf, DistinctNames, TidyNames;
    SampleRateTable();
    var k := match v case Rate48kHz => 0 case Rate96kHz => 1;
    assert SampleRateKeys()[k].value == v;
    ListedIsNamed(SampleRateKeys(), k, 5);
  }

  // ----- Version strings -----

  /** Parses at most six characters, the terminating zero included, as two numbers with a point between them. */
  function ParseVersion(s: string, i: nat, minor: bool, major: int, accumulator: int): Option<Version>
    requires i <= |s|
    decreases 6 - i
  {
    if i > 5 then None
    else if i == |s| then if minor then Some(Version(major, accumulator)) else None
    else if !minor && s[i] == '.' then ParseVersion(s, i + 1, true, accumulator, 0)
    else if IsDigit(s[i]) then ParseVersion(s, i + 1, minor, major, accumulator * 10 + DigitValue(s[i]))
    else None
  }

  function VersionOfString(s: string): Option<Version> {
    ParseVersion(s, 0, false, 0, 0)
  }

  method CdiAvmParseBaselineVersionString(s: string) returns (version: Option<Version>)
    ensures version == VersionOfString(s)
  {
    var minor := false;
    var major, accumulator := 0, 0;
    var i := 0;
    while i <= 5
      invariant 0 <= i <= 6 && i <= |s|
      invariant VersionOfString(s) == ParseVersion(s, i, minor, major, accumulator)
      decreases 6 - i
    {
      if i == |s| {
        return if minor then Some(Version(major, accumulator)) else None;
      } else if !minor && s[i] == '.' {
        major := accumulator;
        accumulator := 0;
        minor := true;
      } else if IsDigit(s[i]) {
        accumulator := accumulator * 10 + DigitValue(s[i]);
      } else {
        return None;
      }
      i := i + 1;
    }
    version := None;
  }

  lemma {:induction false} MinorParses(s: string, i: nat, major: int, accumulator: nat)
    requires i <= |s| && i <= 6
    ensures ParseVersion(s, i, true, major, accumulator)
            == if |s| <= 5 && AllDigits(s[i..]) then Some(Version(major, DigitsValue(s[i..], accumulator))) else None
    decreases 6 - i
  {
    if i <= 5 && i < |s| {
      assert s[i..] == [s[i]] + s[i + 1..];
      if IsDigit(s[i]) {
        MinorParses(s, i + 1, major, accumulator * 10 + DigitValue(s[i]));
      } else {
        assert !IsDigit(s[i..][0]);
      }
    }
  }

  /** What a version string means, independently of how it is read: digits, a point and digits, five characters
      at most. */
  function VersionMeaning(s: string): Option<Version> {
    var k := Find(s, '.');
    if |s| <= 5 && k < |s| && AllDigits(s[..k]) && AllDigits(s[k + 1..])
    then Some(Version(DigitsValue(s[..k], 0), DigitsValue(s[k + 1..], 0))) else None
  }

  lemma {:induction false} MajorParses(s: string, i: nat, accumulator: nat)
    requires i <= Find(s, '.') && i <= 6 && AllDigits(s[..i])
    ensures var k := Find(s, '.');
            ParseVersion(s, i, false, 0, accumulator)
            == if |s| <= 5 && k < |s| && AllDigits(s[i..k]) && AllDigits(s[k + 1..])
               then Some(Version(DigitsValue(s[i..k], accumulator), DigitsValue(s[k + 1..], 0))) else None
    decreases 6 - i
  {
    var k := Find(s, '.');
    if i <= 5 && i < |s| {
      if i == k {
        MinorParses(s, i + 1, accumulator, 0);
      } else if IsDigit(s[i]) {
        MajorParses(s, i + 1, accumulator * 10 + DigitValue(s[i]));
        assert s[i..k] == [s[i]] + s[i + 1..k];
      } else {
        assert !IsDigit(s[i..k][0]);
      }
    }
  }

  /** The loop over the characters finds what the version string means. */
  lemma {:induction false} VersionOfStringIs(s: string)
    ensures VersionOfString(s) == VersionMeaning(s)
  {
    MajorParses(s, 0, 0);
    assert s[0..Find(s, '.')] == s[..Find(s, '.')];
  }

  function VersionText(p: Profile): string {
    match p
    case Profile01 => "01.00"
    case Profile02 => "02.00"
  }

  lemma {:induction false} VersionTextParses(p: Profile)
    ensures VersionOfString(VersionText(p)) == Some(VersionOf(p)) && FindProfileVersion(VersionOf(p)) == Some(p)
  {
    var s := VersionText(p);
    var d := if p == Profile01 then 1 else 2;
    assert s[0] == '0' && DigitValue(s[1]) == d && s[2] == '.' && s[3] == '0' && s[4] == '0';
    assert ParseVersion(s, 5, true, d, 0) == Some(Version(d, 0));
    assert ParseVersion(s, 4, true, d, 0) == ParseVersion(s, 5, true, d, 0);
    assert ParseVersion(s, 3, true, d, 0) == ParseVersion(s, 4, true, d, 0);
    assert ParseVersion(s, 2, false, 0, d) == ParseVersion(s, 3, true, d, 0);
    assert ParseVersion(s, 1, false, 0, 0) == ParseVersion(s, 2, false, 0, d);
    assert ParseVersion(s, 0, false, 0, 0) == ParseVersion(s, 1, false, 0, 0);
  }
}
