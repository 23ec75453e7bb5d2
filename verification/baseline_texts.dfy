/** Whole printed texts. */
module BaselineTexts {
  import opened Text
  import opened BaselineKeys
  import opened BaselineParams
  import V = BaselineVideo
  import A = BaselineAudio

  /** A configuration with every optional parameter. */
  const FILM := V.VideoConfig(Version(2, 0), 1920, 1080, YCbCr422, true, Depth10, 24000, 1001, BT709, true, true, PQ, FullProtect,
                              12, 11, 4, 60, 2, 50)

  /** The parameters of its text. */
  function FilmParams(p: Profile): seq<string> {
    [Setting("cdi_profile_version", if p == Profile01 then "01.00" else "02.00"),
     Setting("sampling", if p == Profile01 then "YCbCr422" else "YCbCr-4:2:2"), Setting("depth", "10"), Setting("width", "1920"),
     Setting("height", "1080"), Setting("exactframerate", "24000/1001"), Setting("colorimetry", "BT709"), "interlace", "segmented",
     Setting("TCS", "PQ"), Setting("RANGE", if p == Profile01 then "FullProtect" else "FULLPROTECT"), Setting("PAR", "12:11"),
     Setting("alpha_included", "enabled"), Setting("partial_frame", "50x60+2+4")]
  }

  const NEWS := A.AudioConfig(Version(2, 0), Stereo, Rate48kHz, "eng")

  function NewsParams(p: Profile): seq<string> {
    [Setting("cdi_profile_version", if p == Profile01 then "01.00" else "02.00"),
     Setting("order", if p == Profile01 then "ST" else "SMPTE2110.(ST)"), Setting("rate", "48kHz"), Setting("language", "eng")]
  }

  lemma {:induction false} OneDigit(d: nat)
    requires d < 10
    ensures Decimal(d) == ["0123456789"[d]]
  {
  }

  lemma {:induction false} OneMore(n: nat, d: nat)
    requires 0 < n && d < 10
    ensures Decimal(10 * n + d) == Decimal(n) + ["0123456789"[d]]
  {
    assert (10 * n + d) / 10 == n && (10 * n + d) % 10 == d;
  }

  lemma {:induction false} Numbers()
    ensures Decimal(10) == "10" && Decimal(12) == "12" && Decimal(11) == "11" && Decimal(4) == "4"
    ensures Decimal(60) == "60" && Decimal(2) == "2" && Decimal(50) == "50"
  {
    hide Decimal;
    OneDigit(1); OneDigit(2); OneDigit(4); OneDigit(5); OneDigit(6);
    OneMore(1, 0); OneMore(1, 1); OneMore(1, 2); OneMore(6, 0); OneMore(5, 0);
  }

  lemma {:induction false} LargeNumbers()
    ensures Decimal(1920) == "1920" && Decimal(1080) == "1080" && Decimal(24000) == "24000" && Decimal(1001) == "1001"
  {
    hide Decimal;
    OneDigit(1); OneDigit(2);
    OneMore(1, 9); OneMore(19, 2); OneMore(192, 0);
    OneMore(1, 0); OneMore(10, 8); OneMore(108, 0);
    OneMore(2, 4); OneMore(24, 0); OneMore(240, 0); OneMore(2400, 0);
    OneMore(10, 0); OneMore(100, 1);
  }

  lemma {:induction false} NameAt<T>(table: seq<Key<T>>, k: nat)
    requires k < |table| && forall j :: 0 <= j < k ==> table[j].value != table[k].value
    ensures Print(table, table[k].value) == table[k].name
  {
    if k > 0 {
      assert forall i :: 0 <= i < |table| - 1 ==> table[1..][i] == table[i + 1];
      NameAt(table[1..], k - 1);
    }
  }

  lemma {:induction false} FilmNames(p: Profile)
    ensures Print(SamplingKeys(p), YCbCr422) == if p == Profile01 then "YCbCr422" else "YCbCr-4:2:2"
    ensures Print(RangeKeys(p), FullProtect) == if p == Profile01 then "FullProtect" else "FULLPROTECT"
    ensures Print(TcsKeys(p), PQ) == "PQ" && Print(ColorimetryKeys(), BT709) == "BT709"
  {
    hide Print;
    NameAt(SamplingKeys(p), 1);
    NameAt(RangeKeys(p), 1);
    NameAt(TcsKeys(p), 1);
    NameAt(ColorimetryKeys(), 1);
  }

  lemma {:induction false} FilmValues()
    ensures V.RateText(FILM) == "24000/1001" && V.ParText(FILM) == "12:11" && V.FrameText(FILM) == "50x60+2+4"
    ensures Decimal(V.Bits(FILM.depth)) == "10" && Decimal(FILM.width) == "1920" && Decimal(FILM.height) == "1080"
    ensures V.PartialFrame(FILM)
  {
    hide Decimal;
    Numbers();
    LargeNumbers();
  }

  /** The whole text of a video configuration with every optional parameter, in both profile versions. */
  lemma {:induction false} FilmText(p: Profile)
    ensures V.VideoText(p, FILM) == Join(FilmParams(p))
  {
    hide Print, Decimal, Setting, V.RateText, V.ParText, V.FrameText, V.PartialFrame, Join;
    FilmNames(p);
    FilmValues();
    assert V.Mandatory(p, FILM) + V.Optional(p, FILM) == FilmParams(p);
  }

  /** The whole text of an audio configuration, in both profile versions. */
  lemma {:induction false} NewsText(p: Profile)
    ensures A.AudioText(p, NEWS) == Join(NewsParams(p))
  {
    hide Print, Setting, Join;
    NameAt(GroupingKeys(p), 2);
    NameAt(SampleRateKeys(), 0);
    assert A.CString(NEWS.language) == "eng";
    assert A.Mandatory(p, NEWS) + A.LanguageParam(NEWS) == NewsParams(p);
  }

  /** How parameters are written, and put behind each other. */
  lemma {:induction false} Punctuation(ts: seq<string>)
    ensures Setting("depth", "10") == "depth=10"
    ensures |ts| == 3 ==> Join(ts) == ts[0] + "; " + ts[1] + "; " + ts[2] + ";"
  {
    if |ts| == 3 {
      assert ts == [ts[0]] + ([ts[1]] + [ts[2]]);
      JoinCons(ts[0], [ts[1]] + [ts[2]]);
      JoinCons(ts[1], [ts[2]]);
      JoinOne(ts[2]);
      assert ts[0] + "; " + (ts[1] + "; " + (ts[2] + ";")) == ts[0] + "; " + ts[1] + "; " + ts[2] + ";";
    }
  }

  // ----- Both profile versions use the same names -----

  /** The second version writes names in capitals, and puts channel groupings in parentheses behind the name of their standard;
      otherwise a value has the same name in both. */
  lemma {:induction false} SameNames(tcs: Tcs, range: Range, grouping: Grouping)
    ensures CaseEqual(Print(TcsKeys(Profile01), tcs), Print(TcsKeys(Profile02), tcs))
    ensures CaseEqual(Print(RangeKeys(Profile01), range), Print(RangeKeys(Profile02), range))
    ensures Print(GroupingKeys(Profile02), grouping) == "SMPTE2110.(" + Print(GroupingKeys(Profile01), grouping) + ")"
  {
    SameTcs(tcs);
    SameRange(range);
    SameGrouping(grouping);
  }

  lemma {:induction false} SameTcs(tcs: Tcs)
    ensures CaseEqual(Print(TcsKeys(Profile01), tcs), Print(TcsKeys(Profile02), tcs))
  {
    hide Print;
    var k := match tcs case SDR => 0 case PQ => 1 case HLG => 2 case Linear => 3 case BT2100LINPQ => 4
                       case BT2100LINHLG => 5 case ST2065_1 => 6 case ST428_1 => 7 case Density => 8;
    NameAt(TcsKeys(Profile01), k);
    NameAt(TcsKeys(Profile02), k);
  }

  lemma {:induction false} SameRange(range: Range)
    ensures CaseEqual(Print(RangeKeys(Profile01), range), Print(RangeKeys(Profile02), range))
  {
    hide Print;
    var k := match range case Narrow => 0 case FullProtect => 1 case Full => 2;
    NameAt(RangeKeys(Profile01), k);
    NameAt(RangeKeys(Profile02), k);
  }

  lemma {:induction false} SameGrouping(grouping: Grouping)
    ensures Print(GroupingKeys(Profile02), grouping) == "SMPTE2110.(" + Print(GroupingKeys(Profile01), grouping) + ")"
  {
    hide Print;
    var k := match grouping case Mono => 0 case DualMono => 1 case Stereo => 2 case MatrixStereo => 3 case Surround51 => 4
                            case Surround71 => 5 case Surround222 => 6 case SdiGroup => 7;
    NameAt(GroupingKeys(Profile01), k);
    NameAt(GroupingKeys(Profile02), k);
  }
}
