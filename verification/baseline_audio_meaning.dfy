/** What any audio configuration text means, parameter by parameter, and which texts are rejected. */
module BaselineAudioMeaning {
  import opened Text
  import opened BaselineKeys
  import opened BaselineParams
  import opened BaselineAudio
  import opened BaselineOrder
  import opened BaselineMeaning

  const AUDIO_NAMES := ["cdi_profile_version", "order", "rate", "language"]

  /** A known parameter without a value, or with a value outside its table or longer than the language. */
  predicate AudioBad(v: Version, t: string) {
    if !HasValue(t) then exists k :: 0 <= k < 4 && NamedBy(t, AUDIO_NAMES[k])
    else
      || (NamedBy(t, "cdi_profile_version") && VersionMeaning(Value(t)).None?)
      || (NamedBy(t, "order") && !InTable(v, GroupingKeys, Value(t)))
      || (NamedBy(t, "rate") && !InTable(v, _ => SampleRateKeys(), Value(t)))
      || (NamedBy(t, "language") && |Value(t)| > 3)
  }

  predicate AudioFine(v: Version, ts: seq<string>) {
    forall i :: 0 <= i < |ts| ==> !AudioBad(VersionIn(v, ts[..i]), ts[i])
  }

  /** The last value of the language that is long enough to reach this character. */
  function LastReaching(ts: seq<string>, k: nat): Option<char> {
    if ts == [] then None
    else
      var t := ts[|ts| - 1];
      if Gives(t, "language") && k < |Value(t)| then Some(Value(t)[k]) else LastReaching(ts[..|ts| - 1], k)
  }

  /** What the tokens say about each field. A short language leaves the characters behind it as they are. */
  predicate AudioMeant(v: Version, ts: seq<string>, c: AudioConfig) {
    && c.version == VersionIn(v, ts)
    && ListedLast(v, ts, "order", GroupingKeys, c.grouping, Mono)
    && ListedLast(v, ts, "rate", _ => SampleRateKeys(), c.sampleRate, Rate48kHz)
    && forall k :: 0 <= k < 3 ==> c.language[k] == match LastReaching(ts, k) case None => NUL case Some(ch) => ch
  }

  // ----- One token -----

  function AudioNamed(t: string): Option<Param> {
    ValueOf(ParamKeys(), ParamName(t))
  }

  lemma {:induction false} AudioNames(t: string)
    ensures AudioNamed(t) == Some(PVersion) <==> NamedBy(t, "cdi_profile_version")
    ensures AudioNamed(t) == Some(POrder) <==> NamedBy(t, "order")
    ensures AudioNamed(t) == Some(PRate) <==> NamedBy(t, "rate")
    ensures AudioNamed(t) == Some(PLanguage) <==> NamedBy(t, "language")
    ensures AudioNamed(t).Some? <==> exists k :: 0 <= k < 4 && NamedBy(t, AUDIO_NAMES[k])
  {
    hide CaseEqual, ValueOf, DistinctNames, ParamKeys;
    ParamKeysDistinct();
    NamesListed();
    ValueOfNone(ParamKeys(), ParamName(t));
    forall k | 0 <= k < 4
      ensures NamedBy(t, AUDIO_NAMES[k]) ==> AudioNamed(t) == Some(ParamKeys()[k].value)
    {
      if NamedBy(t, AUDIO_NAMES[k]) {
        ValueOfEqual(ParamKeys(), ParamName(t), k);
      }
    }
    if AudioNamed(t).Some? {
      var k := FoundAt(ParamKeys(), ParamName(t));
      assert NamedBy(t, AUDIO_NAMES[k]);
    }
  }

  lemma {:induction false} NamesListed()
    ensures |ParamKeys()| == 4 && |AUDIO_NAMES| == 4 && forall k :: 0 <= k < 4 ==> ParamKeys()[k].name == AUDIO_NAMES[k]
    ensures ParamKeys()[0].value == PVersion && ParamKeys()[1].value == POrder && ParamKeys()[2].value == PRate
    ensures ParamKeys()[3].value == PLanguage
    ensures AUDIO_NAMES[0] == "cdi_profile_version" && AUDIO_NAMES[1] == "order" && AUDIO_NAMES[2] == "rate" && AUDIO_NAMES[3] == "language"
  {
  }

  /** What one token does to a configuration, or that it is rejected. */
  lemma {:induction false} AudioToken(d: AudioConfig, t: string)
    ensures var r := ParseParam(d, t);
            && !r.Unspecified? && (r.Rejected? <==> AudioBad(d.version, t))
            && (r.Parsed? ==> TokenMeant(d, t, r.config))
  {
    hide NamedBy, AudioNamed, Lookup, InTable, VersionMeaning, VersionOfString, Listed, CaseEqual;
    AudioNames(t);
    AudioNamedIs(d, t);
    if HasValue(t) {
      var v := Value(t);
      VersionOfStringIs(v);
      LookupIs(d.version, GroupingKeys, v);
      LookupIs(d.version, _ => SampleRateKeys(), v);
      LookupListed(d.version, GroupingKeys, v);
      LookupListed(d.version, _ => SampleRateKeys(), v);
    }
  }

  lemma {:induction false} AudioNamedIs(d: AudioConfig, t: string)
    ensures ParseParam(d, t) == match AudioNamed(t)
                                case None => Parsed(d)
                                case Some(p) => if HasValue(t) then SetValue(d, p, Value(t)) else Rejected
  {
    hide ValueOf, SetValue, ParamKeys;
  }

  predicate TokenMeant(d: AudioConfig, t: string, c: AudioConfig) {
    && (if Gives(t, "cdi_profile_version") then VersionMeaning(Value(t)) == Some(c.version) else c.version == d.version)
    && (if Gives(t, "order") then Listed(d.version, GroupingKeys, Value(t), c.grouping) else c.grouping == d.grouping)
    && (if Gives(t, "rate") then Listed(d.version, _ => SampleRateKeys(), Value(t), c.sampleRate) else c.sampleRate == d.sampleRate)
    && (forall k :: 0 <= k < 3 ==> c.language[k] == if Gives(t, "language") && k < |Value(t)| then Value(t)[k] else d.language[k])
  }

  // ----- Whole texts -----

  lemma {:induction false} AudioStep(v: Version, ts: seq<string>, d: AudioConfig, t: string, c: AudioConfig)
    requires AudioMeant(v, ts, d) && TokenMeant(d, t, c)
    ensures AudioMeant(v, ts + [t], c)
  {
    hide Gives, Value, HasValue, NamedBy, Listed, ListedLast, VersionMeaning;
    var us := ts + [t];
    assert us[..|us| - 1] == ts && us[|us| - 1] == t;
    ListedStep(v, ts, t, "order", GroupingKeys, c.grouping, Mono);
    ListedStep(v, ts, t, "rate", _ => SampleRateKeys(), c.sampleRate, Rate48kHz);
  }

  lemma {:induction false} AudioFineStep(v: Version, ts: seq<string>, t: string)
    ensures AudioFine(v, ts + [t]) <==> AudioFine(v, ts) && !AudioBad(VersionIn(v, ts), t)
  {
    hide AudioBad, VersionIn;
    var us := ts + [t];
    assert us[..|ts|] == ts && us[|ts|] == t;
    assert forall i :: 0 <= i < |ts| ==> us[i] == ts[i] && us[..i] == ts[..i];
  }

  lemma {:induction false} ParseSnoc(c: AudioConfig, ts: seq<string>, t: string)
    ensures var r := ParseTokens(c, ts); ParseTokens(c, ts + [t]) == if r.Parsed? then ParseParam(r.config, t) else r
    decreases |ts|
  {
    hide ParseParam;
    if ts == [] {
      UnfoldParse(c, t, []);
      assert ts + [t] == [t] + [];
    } else {
      assert (ts + [t])[1..] == ts[1..] + [t];
      var r := ParseParam(c, ts[0]);
      if r.Parsed? {
        ParseSnoc(r.config, ts[1..], t);
      }
    }
  }

  lemma {:induction false} AudioTokensMeant(v: Version, ts: seq<string>)
    ensures var r := ParseTokens(Default(v), ts);
            && !r.Unspecified? && (r.Parsed? <==> AudioFine(v, ts)) && (r.Parsed? ==> AudioMeant(v, ts, r.config))
    decreases |ts|
  {
    hide ParseParam, AudioFine, AudioMeant, AudioBad, TokenMeant;
    if ts == [] {
      AudioDefault(v);
    } else {
      var us, t := ts[..|ts| - 1], ts[|ts| - 1];
      assert ts == us + [t];
      AudioTokensMeant(v, us);
      AudioFineStep(v, us, t);
      ParseSnoc(Default(v), us, t);
      var r := ParseTokens(Default(v), us);
      if r.Parsed? {
        AudioToken(r.config, t);
        MeantVersion(v, us, r.config);
        if ParseParam(r.config, t).Parsed? {
          AudioStep(v, us, r.config, t, ParseParam(r.config, t).config);
        }
      }
    }
  }

  lemma {:induction false} AudioDefault(v: Version)
    ensures AudioFine(v, []) && AudioMeant(v, [], Default(v))
  {
  }

  lemma {:induction false} MeantVersion(v: Version, ts: seq<string>, c: AudioConfig)
    requires AudioMeant(v, ts, c)
    ensures c.version == VersionIn(v, ts)
  {
  }

  /** An audio text is rejected exactly when some token is bad behind those before it, and otherwise it is parsed as the
      configuration that its tokens describe. */
  lemma {:induction false} AudioParsedAsMeant(v: Version, text: string)
    ensures var r := ParseAudio(v, text);
            && (r.Rejected? <==> !AudioFine(v, Tokens(text)))
            && (r.Parsed? <==> AudioFine(v, Tokens(text)))
            && (r.Parsed? ==> AudioMeant(v, Tokens(text), r.config))
  {
    hide Tokens, AudioFine, AudioMeant;
    AudioTokensMeant(v, Tokens(text));
  }
}
