/** Baseline configurations of any type and profile version. */
module BaselineProfile {
  import opened Text
  import opened BaselineKeys
  import opened BaselineParams
  import V = BaselineVideo
  import A = BaselineAudio

  datatype PayloadType = Video | Audio

  function UriKeys(): seq<Key<PayloadType>> {
    [Key(Video, "https://cdi.elemental.com/specs/baseline-video"), Key(Audio, "https://cdi.elemental.com/specs/baseline-audio")]
  }

  datatype Config = VideoConfig(video: V.VideoConfig) | AudioConfig(audio: A.AudioConfig)
  {
    function Version(): Version {
      if VideoConfig? then video.version else audio.version
    }

    function Type(): PayloadType {
      if VideoConfig? then Video else Audio
    }
  }

  /** A generic configuration: the type as a URI, and the text. */
  datatype AvmConfig = AvmConfig(uri: string, data: string)

  datatype Result = Ok(config: Config) | NonFatal | ProfileNotSupported | Undefined

  function TextOf(p: Profile, c: Config): string {
    if c.VideoConfig? then V.VideoText(p, c.video) else A.AudioText(p, c.audio)
  }

  /** Profile 01.00 does not print a zero pixel aspect ratio. */
  predicate Printable(p: Profile, c: Config) {
    c.VideoConfig? && p == Profile01 ==> c.video.parWidth != 0 && c.video.parHeight != 0
  }

  function Make(c: Config): Option<AvmConfig> {
    match FindProfileVersion(c.Version())
    case None => None
    case Some(p) =>
      if !Printable(p, c) then None else Some(AvmConfig(Print(UriKeys(), c.Type()), TextOf(p, c)))
  }

  const VERSION_PARAM := "cdi_profile_version="

  predicate StartsWith(s: string, t: string) {
    |t| <= |s| && s[..|t|] == t
  }

  /** The text behind the first occurrence of a string. */
  function Behind(s: string, t: string): Option<string> {
    if StartsWith(s, t) then Some(s[|t|..]) else if s == [] then None else Behind(s[1..], t)
  }

  /** The five characters of the version, if a semicolon follows. */
  function HeaderVersion(text: string): Option<Version> {
    match Behind(text, VERSION_PARAM)
    case None => None
    case Some(rest) => if |rest| <= 5 || rest[5] != ';' then None else VersionOfString(rest[..5])
  }

  function ParseAs(t: PayloadType, v: Version, text: string): Result {
    match t
    case Video =>
      (match V.ParseVideo(v, text) case Parsed(c) => Ok(VideoConfig(c)) case Rejected => NonFatal case Unspecified => Undefined)
    case Audio =>
      (match A.ParseAudio(v, text) case Parsed(c) => Ok(AudioConfig(c)) case Rejected => NonFatal case Unspecified => Undefined)
  }

  const URI_SIZE := 257

  function Parse(a: AvmConfig): Result {
    if URI_SIZE - 1 <= |a.uri| || DATA_SIZE < |a.data| then NonFatal
    else
      match ValueOf(UriKeys(), a.uri)
      case None => NonFatal
      case Some(t) =>
        match HeaderVersion(a.data)
        case None => NonFatal
        case Some(v) => if FindProfileVersion(v).None? then ProfileNotSupported else ParseAs(t, v, a.data)
  }

  // ----- The methods of the source -----

  method CdiAvmMakeBaselineConfiguration2(c: Config) returns (r: Option<AvmConfig>)
    ensures r == Make(c)
  {
    hide V.VideoText, A.AudioText, NameOf;
    r := None;
    var profile := FindProfileVersion(c.Version());
    if profile.Some? {
      var uri := Print(UriKeys(), c.Type());
      var ret, data := true, "";
      match c {
        case VideoConfig(video) => ret, data := V.MakeBaselineVideoConfiguration(profile.value, video);
        case AudioConfig(audio) => ret, data := A.MakeBaselineAudioConfiguration(profile.value, audio);
      }
      if ret {
        r := Some(AvmConfig(uri, data));
      }
    }
  }

  /** Searches the text for a string. */
  method StrStr(s: string, t: string) returns (behind: Option<string>)
    ensures behind == Behind(s, t)
  {
    var i := 0;
    assert s[0..] == s;
    while i < |s| && !StartsWith(s[i..], t)
      invariant 0 <= i <= |s| && Behind(s, t) == Behind(s[i..], t)
    {
      assert s[i..][1..] == s[i + 1..];
      i := i + 1;
    }
    behind := if StartsWith(s[i..], t) then Some(s[i..][|t|..]) else None;
  }

  method CdiAvmParseBaselineConfiguration2(a: AvmConfig) returns (r: Result)
    ensures r == Parse(a)
  {
    hide V.ParseVideo, A.ParseAudio, VersionOfString, ValueOf, Behind;
    r := NonFatal;
    if URI_SIZE - 1 <= |a.uri| {
      return;
    } else if DATA_SIZE < |a.data| {
      return;
    }
    var key := ValueOf(UriKeys(), a.uri);
    if key.Some? {
      var found := StrStr(a.data, VERSION_PARAM);
      if found.Some? && |found.value| > 5 && found.value[5] == ';' {
        var version := CdiAvmParseBaselineVersionString(found.value[..5]);
        if version.Some? {
          var profile := FindProfileVersion(version.value);
          if profile.Some? {
            match key.value {
              case Video =>
                var parsed := V.ParseBaselineVideoConfiguration(version.value, a.data);
                r := match parsed case Parsed(c) => Ok(VideoConfig(c)) case Rejected => NonFatal case Unspecified => Undefined;
              case Audio =>
                var parsed := A.ParseBaselineAudioConfiguration(version.value, a.data);
                r := match parsed case Parsed(c) => Ok(AudioConfig(c)) case Rejected => NonFatal case Unspecified => Undefined;
            }
          } else {
            r := ProfileNotSupported;
          }
        }
      }
    }
  }

  // ----- Round trip -----

  lemma {:induction false} UriTable()
    ensures DistinctNames(UriKeys())
  {
    assert UriKeys()[0].name[41] == 'v' && UriKeys()[1].name[41] == 'a';
  }

  lemma {:induction false} UriReads(t: PayloadType)
    ensures ValueOf(UriKeys(), Print(UriKeys(), t)) == Some(t) && |Print(UriKeys(), t)| == 46
  {
    UriTable();
    assert UriKeys()[0].value == Video && UriKeys()[1].value == Audio;
    NameOfIsListed(UriKeys(), t);
    LookupRoundTrip(UriKeys(), t);
    var k := IndexOfValue(UriKeys(), t);
  }

  lemma {:induction false} HeaderReads(p: Profile, rest: string)
    ensures HeaderVersion(VERSION_PARAM + VersionText(p) + ";" + rest) == Some(VersionOf(p))
  {
    hide VersionOfString;
    var v := VersionText(p);
    var text := VERSION_PARAM + v + ";" + rest;
    var behind := v + ";" + rest;
    assert |v| == 5;
    assert text == VERSION_PARAM + behind;
    assert text[..|VERSION_PARAM|] == VERSION_PARAM && text[|VERSION_PARAM|..] == behind;
    assert behind[..5] == v && behind[5] == ';';
    VersionTextParses(p);
  }

  lemma {:induction false} TextStarts(p: Profile, c: Config) returns (rest: string)
    ensures TextOf(p, c) == VERSION_PARAM + VersionText(p) + ";" + rest
  {
    hide V.Optional, A.LanguageParam, Spaced, Print;
    var ts := if c.VideoConfig? then V.Mandatory(p, c.video) + V.Optional(p, c.video)
              else A.Mandatory(p, c.audio) + A.LanguageParam(c.audio);
    rest := Spaced(ts[1..]);
    assert TextOf(p, c) == ts[0] + ";" + rest;
    assert ts[0] == "cdi_profile_version" + "=" + VersionText(p) == VERSION_PARAM + VersionText(p);
  }

  /** The configurations that survive: the version is that of a profile, not 0.0, and the frame rate fits, or the
      language is padded and has no delimiter. */
  predicate Survives(c: Config) {
    && c.Version() != Version(0, 0)
    && match c
       case VideoConfig(video) => V.RateFits(video)
       case AudioConfig(audio) => A.LanguageFits(audio.language)
  }

  lemma {:induction false} TextFits(p: Profile, c: Config)
    ensures |TextOf(p, c)| <= 283
  {
    hide V.VideoText, A.AudioText, V.MandatoryText, Spaced;
    match c {
      case VideoConfig(video) =>
        V.TextParts(p, video);
        V.MandatoryFits(p, video);
        V.OptionalFits(p, video);
      case AudioConfig(audio) => A.AudioFits(p, audio);
    }
  }

  /** Parsing what was printed goes to the parser of the same type and profile. */
  lemma {:induction false} ParseOfMake(p: Profile, c: Config)
    requires FindProfileVersion(c.Version()) == Some(p) && Printable(p, c)
    ensures Make(c).Some?
    ensures Parse(Make(c).value) == ParseAs(c.Type(), VersionOf(p), TextOf(p, c))
  {
    hide V.VideoText, A.AudioText, V.ParseVideo, A.ParseAudio, NameOf, ValueOf, Behind, VersionOfString, TextOf, ParseAs, HeaderVersion;
    UriReads(c.Type());
    TextFits(p, c);
    var rest := TextStarts(p, c);
    HeaderReads(p, rest);
    VersionTextParses(p);
  }

  /** The text does not depend on how the version is written: version 0.0 prints as 01.00. */
  lemma {:induction false} VersionNotPrinted(p: Profile, c: V.VideoConfig)
    ensures V.VideoText(p, c.(version := VersionOf(p))) == V.VideoText(p, c)
  {
    hide Join, Print, Decimal;
  }

  /** Configuration round trip: a configuration that can be printed is parsed back exactly as it was if and only if
      it survives. The parser never rejects a printed configuration. */
  lemma {:induction false} ConfigurationRoundTrip(c: Config)
    requires Make(c).Some?
    ensures Parse(Make(c).value) == Ok(c) <==> Survives(c)
    ensures Parse(Make(c).value).Ok? || Parse(Make(c).value).Undefined?
  {
    hide V.VideoText, A.AudioText, V.ParseVideo, A.ParseAudio, Parse, V.RateFits, A.LanguageFits, Print;
    var p := FindProfileVersion(c.Version()).value;
    ParseOfMake(p, c);
    match c {
      case VideoConfig(video) => VideoReads(p, video);
      case AudioConfig(audio) => A.AudioRoundTrip(p, audio);
    }
  }

  lemma {:induction false} VideoReads(p: Profile, c: V.VideoConfig)
    requires FindProfileVersion(c.version) == Some(p)
    ensures var r := V.ParseVideo(VersionOf(p), V.VideoText(p, c));
            && !r.Rejected? && (r == Parsed(c) <==> c.version != Version(0, 0) && V.RateFits(c))
  {
    hide V.VideoText, V.ParseVideo, V.RateFits;
    VersionNotPrinted(p, c);
    V.VideoRoundTrip(p, c.(version := VersionOf(p)));
    V.ParsedVersion(p, c.(version := VersionOf(p)));
    V.RateAlike(c, c.(version := VersionOf(p)));
  }
}
