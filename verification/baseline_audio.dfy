/** Audio configurations: printing them as configuration text, and parsing that text. */
module BaselineAudio {
  import opened Text
  import opened BaselineKeys
  import opened BaselineParams

  /** Three characters; shorter codes are padded with zero characters. */
  type Language = s: string | |s| == 3 witness ['a', 'a', 'a']

  const NUL: char := '\0'

  datatype AudioConfig = AudioConfig(version: Version, grouping: Grouping, sampleRate: SampleRate, language: Language)

  /** The characters before the first zero character. */
  function CString(s: string): string {
    s[..Find(s, NUL)]
  }

  // ----- Printing -----

  function Mandatory(p: Profile, c: AudioConfig): seq<string> {
    [Setting("cdi_profile_version", VersionText(p)), Setting("order", Print(GroupingKeys(p), c.grouping)),
     Setting("rate", Print(SampleRateKeys(), c.sampleRate))]
  }

  function LanguageParam(c: AudioConfig): seq<string> {
    If(c.language[0] != NUL, Setting("language", CString(c.language)))
  }

  function AudioText(p: Profile, c: AudioConfig): string {
    Join(Mandatory(p, c) + LanguageParam(c))
  }

  // ----- Parsing -----

  datatype Param = PVersion | POrder | PRate | PLanguage

  function ParamKeys(): seq<Key<Param>> {
    [Key(PVersion, "cdi_profile_version"), Key(POrder, "order"), Key(PRate, "rate"), Key(PLanguage, "language")]
  }

  /** The value overwrites the start of the language. */
  function SetLanguage(c: AudioConfig, v: string): Parsed<AudioConfig> {
    if |v| > 3 then Rejected else Parsed(c.(language := v + c.language[|v|..]))
  }

  function SetVersion(c: AudioConfig, v: string): Parsed<AudioConfig> {
    match VersionOfString(v)
    case None => Rejected
    case Some(version) => Parsed(c.(version := version))
  }

  function SetValue(c: AudioConfig, param: Param, v: string): Parsed<AudioConfig> {
    match param
    case PVersion => SetVersion(c, v)
    case POrder => (match Lookup(c.version, GroupingKeys, v) case None => Rejected case Some(g) => Parsed(c.(grouping := g)))
    case PRate =>
      (match Lookup(c.version, _ => SampleRateKeys(), v) case None => Rejected case Some(r) => Parsed(c.(sampleRate := r)))
    case PLanguage => SetLanguage(c, v)
  }

  /** One parameter; unknown ones are ignored, and every known one needs a value. */
  function ParseParam(c: AudioConfig, token: string): Parsed<AudioConfig> {
    match ValueOf(ParamKeys(), ParamName(token))
    case None => Parsed(c)
    case Some(param) =>
      match ParamValue(token)
      case None => Rejected
      case Some(v) => SetValue(c, param, v)
  }

  function ParseTokens(c: AudioConfig, ts: seq<string>): (r: Parsed<AudioConfig>)
    decreases |ts|
  {
    if ts == [] then Parsed(c)
    else
      var r := ParseParam(c, ts[0]);
      if r.Parsed? then ParseTokens(r.config, ts[1..]) else r
  }

  function Default(v: Version): AudioConfig {
    AudioConfig(v, Mono, Rate48kHz, [NUL, NUL, NUL])
  }

  function ParseAudio(v: Version, text: string): Parsed<AudioConfig> {
    ParseTokens(Default(v), Tokens(text))
  }

  // ----- Printed parameters read back -----

  lemma {:induction false} ParamListed(k: nat)
    requires k < |ParamKeys()|
    ensures ValueOf(ParamKeys(), ParamKeys()[k].name) == Some(ParamKeys()[k].value) && '=' !in ParamKeys()[k].name
  {
    hide DistinctNames, ValueOf;
    ParamKeysDistinct();
    ValueOfListed(ParamKeys(), k);
  }

  lemma {:induction false} ParamKeysDistinct()
    ensures DistinctNames(ParamKeys())
  {
  }

  lemma {:induction false} ParamReads(c: AudioConfig, k: nat, value: string)
    requires k < |ParamKeys()|
    ensures ParseParam(c, Setting(ParamKeys()[k].name, value)) == SetValue(c, ParamKeys()[k].value, value)
  {
    hide SetValue, ParamName, ParamValue, ParamKeys, ValueOf, Setting;
    ParamListed(k);
    SplitToken(ParamKeys()[k].name, value);
  }

  lemma {:induction false} UnfoldParse(c: AudioConfig, t: string, rest: seq<string>)
    ensures var r := ParseParam(c, t);
            ParseTokens(c, [t] + rest) == if r.Parsed? then ParseTokens(r.config, rest) else r
    ensures ParseTokens(c, []) == Parsed(c)
  {
    hide ParseParam;
    assert ([t] + rest)[1..] == rest;
  }

  lemma {:induction false} MandatoryReads(c: AudioConfig, p: Profile, d: AudioConfig, rest: seq<string>)
    ensures ParseTokens(c, Mandatory(p, d) + rest)
            == ParseTokens(c.(version := VersionOf(p), grouping := d.grouping, sampleRate := d.sampleRate), rest)
  {
    hide ParseTokens, ParseParam, NameOf, ValueOf, VersionOfString, Setting;
    var ts := Mandatory(p, d);
    var c1 := c.(version := VersionOf(p));
    var c2 := c1.(grouping := d.grouping);
    assert ts + rest == [ts[0]] + ([ts[1]] + ([ts[2]] + rest));
    UnfoldParse(c, ts[0], [ts[1]] + ([ts[2]] + rest));
    UnfoldParse(c1, ts[1], [ts[2]] + rest);
    UnfoldParse(c2, ts[2], rest);
    assert ParamKeys()[0] == Key(PVersion, "cdi_profile_version") && ParamKeys()[1] == Key(POrder, "order");
    assert ParamKeys()[2] == Key(PRate, "rate");
    ParamReads(c, 0, VersionText(p));
    ParamReads(c1, 1, Print(GroupingKeys(p), d.grouping));
    ParamReads(c2, 2, Print(SampleRateKeys(), d.sampleRate));
    VersionTextParses(p);
    GroupingNamed(p, d.grouping);
    SampleRateNamed(d.sampleRate);
  }

  // ----- The language -----

  /** The languages that survive: no delimiter, and nothing behind a zero character. */
  predicate LanguageFits(l: Language) {
    NoDelimiter(l) && forall i, j :: 0 <= i < j < 3 ==> l[i] == NUL ==> l[j] == NUL
  }

  /** What is read back of a language code: its characters up to a zero character or a delimiter. */
  function Survives(l: Language): (r: Language) {
    var s := CString(l);
    var n := TokenLength(s);
    s[..n] + [NUL, NUL, NUL][n..]
  }

  lemma {:induction false} CStringIs(l: Language)
    ensures CString(l) <= l && (forall i :: 0 <= i < |CString(l)| ==> l[i] != NUL)
    ensures |CString(l)| < 3 ==> l[|CString(l)|] == NUL
  {
  }

  lemma {:induction false} SurvivesIff(l: Language)
    ensures Survives(l) == l <==> LanguageFits(l)
  {
    hide CString;
    CStringIs(l);
    var s := CString(l);
    var n := TokenLength(s);
    var r := Survives(l);
    assert forall i :: 0 <= i < n ==> r[i] == l[i];
    assert forall i :: n <= i < 3 ==> r[i] == NUL;
    assert n < |s| ==> IsDelimiter(l[n]);
  }

  /** Short tokens name no parameter. */
  lemma {:induction false} ShortTokensIgnored(c: AudioConfig, ts: seq<string>)
    requires forall i :: 0 <= i < |ts| ==> |ts[i]| <= 3
    ensures ParseTokens(c, ts) == Parsed(c)
    decreases |ts|
  {
    if ts != [] {
      ShortIsUnknown(ts[0]);
      ShortTokensIgnored(c, ts[1..]);
    }
  }

  lemma {:induction false} ShortIsUnknown(t: string)
    requires |t| <= 3
    ensures ValueOf(ParamKeys(), ParamName(t)) == None
  {
    hide CaseEqual;
    OtherLength(ParamName(t), "cdi_profile_version");
    OtherLength(ParamName(t), "order");
    OtherLength(ParamName(t), "rate");
    OtherLength(ParamName(t), "language");
    var k, n := ParamKeys(), ParamName(t);
    assert k[1..][1..] == k[2..] && k[2..][1..] == k[3..] && k[3..][1..] == [];
    assert ValueOf(k[3..], n) == ValueOf([], n);
    assert ValueOf(k[2..], n) == ValueOf(k[3..], n);
    assert ValueOf(k[1..], n) == ValueOf(k[2..], n);
  }

  lemma {:induction false} OtherLength(a: string, b: string)
    requires |a| != |b|
    ensures !CaseEqual(a, b)
  {
  }

  lemma {:induction false} TokensAreShort(s: string)
    ensures forall i :: 0 <= i < |Tokens(s)| ==> |Tokens(s)[i]| <= |s|
    decreases |s|
  {
    if s != [] {
      if IsDelimiter(s[0]) {
        TokensAreShort(s[1..]);
      } else {
        TokensAreShort(s[TokenLength(s)..]);
      }
    }
  }

  lemma {:induction false} TokenOfSetting(name: string, s: string, rest: string)
    requires Clean(name)
    ensures Tokens(Setting(name, s) + ";" + rest) == [Setting(name, s[..TokenLength(s)])] + Tokens(s[TokenLength(s)..] + ";" + rest)
  {
    var n := TokenLength(s);
    var t := Setting(name, s[..n]);
    var all := Setting(name, s) + ";" + rest;
    assert all == t + (s[n..] + ";" + rest);
    assert forall j :: 0 <= j < |t| ==> !IsDelimiter(all[j]);
    assert IsDelimiter(all[|t|]) by {
      if n < |s| {
        assert all[|t|] == s[n];
      } else {
        assert all[|t|] == ';';
      }
    }
    assert all[0..] == all;
    TokenEnds(all, 0, |t|);
    assert all[0..|t|] == t && all[|t|..] == s[n..] + ";" + rest;
  }

  lemma {:induction false} LanguageReads(c: AudioConfig, d: AudioConfig)
    requires c.language == [NUL, NUL, NUL]
    ensures ParseTokens(c, Tokens(Spaced(LanguageParam(d)))) == Parsed(c.(language := Survives(d.language)))
  {
    hide ParseParam, Tokens, TokenLength;
    var s := CString(d.language);
    if d.language[0] == NUL {
      NothingPrinted(d);
      UnfoldParse(c, "", []);
    } else {
      var n := TokenLength(s);
      var text := Setting("language", s) + ";";
      PrintedLanguage(d);
      LanguageClean();
      TokenOfSetting("language", s, "");
      assert Setting("language", s) + ";" + "" == text;
      UnfoldParse(c, Setting("language", s[..n]), Tokens(s[n..] + ";" + ""));
      assert ParamKeys()[3] == Key(PLanguage, "language");
      ParamReads(c, 3, s[..n]);
      LeftOver(s, n);
      ShortTokensIgnored(c.(language := Survives(d.language)), Tokens(s[n..] + ";" + ""));
    }
  }

  lemma {:induction false} LanguageClean()
    ensures Clean("language")
  {
  }

  /** What follows the first token of a language are at most three characters. */
  lemma {:induction false} LeftOver(s: string, n: nat)
    requires |s| <= 3 && n == TokenLength(s)
    ensures forall i :: 0 <= i < |Tokens(s[n..] + ";" + "")| ==> |Tokens(s[n..] + ";" + "")[i]| <= 3
  {
    hide Tokens;
    var rest := s[n..] + ";" + "";
    if n == 0 && |s| == 3 {
      SkipOne(rest, 0);
      assert rest[0..] == rest;
      TokensAreShort(rest[1..]);
    } else {
      TokensAreShort(rest);
    }
  }

  lemma {:induction false} NothingPrinted(d: AudioConfig)
    requires d.language[0] == NUL
    ensures Tokens(Spaced(LanguageParam(d))) == [] && Survives(d.language) == [NUL, NUL, NUL]
  {
  }

  lemma {:induction false} PrintedLanguage(d: AudioConfig)
    requires d.language[0] != NUL
    ensures Tokens(Spaced(LanguageParam(d))) == Tokens(Setting("language", CString(d.language)) + ";")
  {
    hide Tokens, Setting;
    var t := Setting("language", CString(d.language));
    SpacedIf(true, t);
    var text := " " + t + ";";
    assert text[0..] == text && text[1..] == t + ";";
    SkipOne(text, 0);
  }

  /** Round trip: for every audio configuration, parsing its text gives the configuration back exactly when its
      language has no delimiter and is padded with zero characters. The parser never rejects the text. */
  lemma {:induction false} AudioRoundTrip(p: Profile, c: AudioConfig)
    ensures ParseAudio(VersionOf(p), AudioText(p, c))
            == Parsed(c.(version := VersionOf(p), language := Survives(c.language)))
    ensures c.version == VersionOf(p) ==>
              (ParseAudio(c.version, AudioText(p, c)) == Parsed(c) <==> LanguageFits(c.language))
  {
    hide ParseTokens, Tokens, Mandatory, LanguageParam, Join, Survives, LanguageFits;
    AudioTokens(p, c);
    MandatoryReads(Default(VersionOf(p)), p, c, Tokens(Spaced(LanguageParam(c))));
    LanguageReads(Default(VersionOf(p)).(grouping := c.grouping, sampleRate := c.sampleRate), c);
    SurvivesIff(c.language);
  }

  lemma {:induction false} MandatoryClean(p: Profile, c: AudioConfig)
    ensures AllClean(Mandatory(p, c))
  {
    hide NameOf, ValueOf, NoDelimiter, Setting;
    AudioNamesClean(p);
    GroupingNamed(p, c.grouping);
    SampleRateNamed(c.sampleRate);
    SettingIsClean("cdi_profile_version", VersionText(p));
    SettingIsClean("order", Print(GroupingKeys(p), c.grouping));
    SettingIsClean("rate", Print(SampleRateKeys(), c.sampleRate));
  }

  lemma {:induction false} AudioNamesClean(p: Profile)
    ensures Clean("cdi_profile_version") && Clean("order") && Clean("rate") && NoDelimiter(VersionText(p))
  {
  }

  /** The tokens of the text: the mandatory parameters, then what the language falls apart into. */
  lemma {:induction false} AudioTokens(p: Profile, c: AudioConfig)
    ensures Tokens(AudioText(p, c)) == Mandatory(p, c) + Tokens(Spaced(LanguageParam(c)))
  {
    hide Tokens, LanguageParam, Setting, Print;
    MandatoryClean(p, c);
    var ts := Mandatory(p, c);
    JoinConcat(ts, LanguageParam(c));
    JoinedTokens(ts, Spaced(LanguageParam(c)));
  }

  lemma {:induction false} JoinedTokens(ts: seq<string>, rest: string)
    requires ts != [] && AllClean(ts)
    ensures Tokens(Join(ts) + rest) == ts + Tokens(rest)
    decreases |ts|
  {
    hide Tokens;
    if |ts| == 1 {
      JoinOne(ts[0]);
      assert ts == [ts[0]];
      TokenFirst(ts[0], rest);
    } else {
      var tail := ts[1..];
      JoinCons(ts[0], tail);
      assert ts == [ts[0]] + tail;
      var text := " " + (Join(tail) + rest);
      assert Join(ts) + rest == ts[0] + ";" + text;
      TokenFirst(ts[0], text);
      assert text[0..] == text && text[1..] == Join(tail) + rest;
      SkipOne(text, 0);
      JoinedTokens(tail, rest);
    }
  }

  // ----- The printer and the parser of the source -----

  const LANGUAGE_PARAM_SIZE := 3 + 16

  lemma {:induction false} AudioFits(p: Profile, c: AudioConfig)
    ensures |AudioText(p, c)| <= 76
    ensures AudioText(p, c) == Setting("cdi_profile_version", VersionText(p)) + "; "
                               + (Setting("order", Print(GroupingKeys(p), c.grouping)) + "; "
                               + (Setting("rate", Print(SampleRateKeys(), c.sampleRate)) + ";"))
                               + Spaced(LanguageParam(c))
    ensures Spaced(LanguageParam(c)) == if c.language[0] != NUL then " " + Setting("language", CString(c.language)) + ";" else ""
  {
    hide NameOf, ValueOf, Join, Spaced;
    GroupingNamed(p, c.grouping);
    SampleRateNamed(c.sampleRate);
    var ts := Mandatory(p, c);
    assert |VersionText(p)| == 5;
    JoinConcat(ts, LanguageParam(c));
    assert ts == [ts[0]] + ([ts[1]] + [ts[2]]);
    JoinCons(ts[0], [ts[1]] + [ts[2]]);
    JoinCons(ts[1], [ts[2]]);
    JoinOne(ts[2]);
    SpacedIf(c.language[0] != NUL, Setting("language", CString(c.language)));
  }

  /** Prints a configuration. The checks on the length of the text never fail. */
  method MakeBaselineAudioConfiguration(p: Profile, c: AudioConfig) returns (ret: bool, data: string)
    ensures ret && data == AudioText(p, c) && |data| < DATA_SIZE
  {
    hide NameOf, Spaced, Join;
    AudioFits(p, c);
    ret, data := true, "";
    var languageParam := "";
    if c.language[0] != NUL {
      var language := CString(c.language);
      languageParam := " " + Setting("language", language) + ";";
      if LANGUAGE_PARAM_SIZE <= |languageParam| {
        ret := false;
      }
    }
    if ret {
      var text := Setting("cdi_profile_version", VersionText(p)) + "; "
                  + (Setting("order", Print(GroupingKeys(p), c.grouping)) + "; "
                  + (Setting("rate", Print(SampleRateKeys(), c.sampleRate)) + ";"))
                  + languageParam;
      if DATA_SIZE <= |text| {
        ret := false;
      } else {
        data := text;
      }
    }
  }

  /** Parses the text parameter by parameter, until one is rejected. */
  method ParseBaselineAudioConfiguration(v: Version, data: string) returns (r: Parsed<AudioConfig>)
    ensures r == ParseAudio(v, data)
  {
    hide ParseParam, Tokens;
    r := Parsed(Default(v));
    var pos: nat := 0;
    var token := Some("");
    assert data[0..] == data;
    while r.Parsed? && token.Some?
      invariant pos <= |data|
      invariant r.Parsed? ==> ParseAudio(v, data) == ParseTokens(r.config, if token.Some? then Tokens(data[pos..]) else [])
      invariant !r.Parsed? ==> ParseAudio(v, data) == r
      decreases token.Some?, |data| - pos
    {
      token, pos := StrTokR(data, pos);
      if token.Some? {
        UnfoldParse(r.config, token.value, Tokens(data[pos..]));
        r := ParseParam(r.config, token.value);
      }
    }
    if r.Parsed? {
      UnfoldParse(r.config, "", []);
    }
  }
}
