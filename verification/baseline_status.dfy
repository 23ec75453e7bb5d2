/** When a generic configuration is parsed, and when it is refused. */
module BaselineStatus {
  import opened Text
  import opened BaselineKeys
  import opened BaselineProfile
  import M = BaselineMeaning
  import N = BaselineAudioMeaning
  import BaselineOrder

  /** The name of the version parameter and its equals sign stand here. */
  predicate NameAt(text: string, i: nat) {
    i + 20 <= |text| && text[i..i + 20] == "cdi_profile_version="
  }

  /** The first place in a text where they stand. */
  predicate NamesVersion(text: string, i: nat) {
    NameAt(text, i) && forall j :: 0 <= j < i ==> !NameAt(text, j)
  }

  /** Five characters and a semicolon follow it, and the characters are a version. */
  predicate States(text: string, v: Version) {
    exists i :: 0 <= i < |text| && NamesVersion(text, i) && i + 25 < |text| && text[i + 25] == ';' && VersionMeaning(text[i + 20..i + 25]) == Some(v)
  }

  predicate Supported(v: Version) {
    v == Version(0, 0) || v == Version(1, 0) || v == Version(2, 0)
  }

  predicate UriIs(a: AvmConfig, t: PayloadType) {
    |a.uri| < 256 && CaseEqual(a.uri, if t == Video then "https://cdi.elemental.com/specs/baseline-video" else "https://cdi.elemental.com/specs/baseline-audio")
  }

  lemma {:induction false} NameStarts(text: string, i: nat)
    requires i <= |text|
    ensures NameAt(text, i) <==> StartsWith(text[i..], VERSION_PARAM)
    ensures NameAt(text, i) ==> text[i..][20..] == text[i + 20..]
  {
    assert |VERSION_PARAM| == 20;
    if i + 20 <= |text| {
      assert text[i..][..20] == text[i..i + 20];
    }
  }

  lemma {:induction false} BehindFrom(text: string, k: nat, i: nat)
    requires NamesVersion(text, i) && k <= i
    ensures Behind(text[k..], VERSION_PARAM) == Some(text[i + 20..])
    decreases i - k
  {
    hide NameAt, StartsWith;
    assert i + 20 <= |text| by { InText(text, i); }
    NameStarts(text, k);
    assert |VERSION_PARAM| == 20;
    if k < i {
      assert text[k..][1..] == text[k + 1..];
      BehindFrom(text, k + 1, i);
    }
  }

  lemma {:induction false} FirstFrom(text: string, k: nat) returns (i: nat)
    requires k <= |text| && Behind(text[k..], VERSION_PARAM).Some? && forall j :: 0 <= j < k ==> !NameAt(text, j)
    ensures NamesVersion(text, i)
    decreases |text| - k
  {
    hide NameAt, StartsWith;
    NameStarts(text, k);
    if NameAt(text, k) {
      i := k;
    } else {
      assert text[k..][1..] == text[k + 1..];
      i := FirstFrom(text, k + 1);
    }
  }

  lemma {:induction false} FirstOf(text: string) returns (i: nat)
    requires Behind(text, VERSION_PARAM).Some?
    ensures NamesVersion(text, i) && i + 20 <= |text| && Behind(text, VERSION_PARAM) == Some(text[i + 20..])
  {
    hide Behind, NamesVersion;
    assert text[0..] == text;
    i := FirstFrom(text, 0);
    InText(text, i);
    BehindFrom(text, 0, i);
  }

  lemma {:induction false} OnePlace(text: string, i: nat, j: nat)
    requires NamesVersion(text, i) && NamesVersion(text, j)
    ensures i == j
  {
  }

  lemma {:induction false} HeaderIff(text: string, v: Version)
    ensures HeaderVersion(text) == Some(v) <==> States(text, v)
  {
    hide VersionMeaning, VersionOfString, NamesVersion, Behind;
    if Behind(text, VERSION_PARAM).Some? {
      var i := FirstOf(text);
      if i + 25 < |text| {
        assert text[i + 20..][..5] == text[i + 20..i + 25];
        VersionOfStringIs(text[i + 20..i + 25]);
      }
    }
    if States(text, v) {
      var j: nat :| 0 <= j < |text| && NamesVersion(text, j) && j + 25 < |text| && text[j + 25] == ';' && VersionMeaning(text[j + 20..j + 25]) == Some(v);
      assert text[0..] == text;
      BehindFrom(text, 0, j);
      var i := FirstOf(text);
      OnePlace(text, i, j);
    }
  }

  lemma {:induction false} InText(text: string, i: nat)
    requires NamesVersion(text, i)
    ensures i + 20 <= |text|
  {
  }

  lemma {:induction false} UriOf(a: AvmConfig)
    requires |a.uri| < 256
    ensures ValueOf(UriKeys(), a.uri) == Some(Video) <==> UriIs(a, Video)
    ensures ValueOf(UriKeys(), a.uri) == Some(Audio) <==> UriIs(a, Audio)
    ensures ValueOf(UriKeys(), a.uri).None? <==> !UriIs(a, Video) && !UriIs(a, Audio)
  {
    hide CaseEqual, DistinctNames;
    UriTable();
    BaselineOrder.ValueOfNone(UriKeys(), a.uri);
    if ValueOf(UriKeys(), a.uri).Some? {
      var k := M.FoundAt(UriKeys(), a.uri);
    }
    if UriIs(a, Video) {
      BaselineOrder.ValueOfEqual(UriKeys(), a.uri, 0);
    }
    if UriIs(a, Audio) {
      BaselineOrder.ValueOfEqual(UriKeys(), a.uri, 1);
    }
  }

  /** Not too long, of a known type, with a version in the text. */
  predicate WellFormed(a: AvmConfig, t: PayloadType, v: Version) {
    UriIs(a, t) && |a.data| <= 1024 && States(a.data, v)
  }

  /** A configuration is parsed by its type, with the version that its text states first. */
  lemma {:induction false} ParseIs(a: AvmConfig, t: PayloadType, v: Version)
    ensures WellFormed(a, t, v) ==> Parse(a) == if Supported(v) then ParseAs(t, v, a.data) else ProfileNotSupported
  {
    hide HeaderVersion, States, ValueOf, CaseEqual, ParseAs;
    HeaderIff(a.data, v);
    if |a.uri| < 256 {
      UriOf(a);
    }
  }

  /** All others are refused. */
  lemma {:induction false} RefusedUnless(a: AvmConfig)
    requires forall t, v :: !WellFormed(a, t, v)
    ensures Parse(a) == NonFatal
  {
    hide HeaderVersion, States, ValueOf, CaseEqual, ParseAs;
    if |a.uri| < 256 && |a.data| <= 1024 {
      UriOf(a);
      var header := HeaderVersion(a.data);
      if header.Some? {
        HeaderIff(a.data, header.value);
        assert !WellFormed(a, Video, header.value) && !WellFormed(a, Audio, header.value);
      }
    }
  }

  /** What comes out for a well-formed one: an unsupported version is told; otherwise the text is refused when one of its
      tokens is rejected, and what its tokens describe is returned when all are fine. */
  lemma {:induction false} ResultIs(a: AvmConfig, t: PayloadType, v: Version)
    requires WellFormed(a, t, v)
    ensures Parse(a).ProfileNotSupported? <==> !Supported(v)
    ensures Supported(v) && t == Video ==>
              && (Parse(a).Ok? <==> M.AllFine(v, Tokens(a.data))) && (Parse(a).NonFatal? <==> M.FirstBad(v, Tokens(a.data)))
              && (Parse(a).Ok? ==> Parse(a).config.VideoConfig? && M.Meant(v, Tokens(a.data), Parse(a).config.video))
    ensures Supported(v) && t == Audio ==>
              && (Parse(a).Ok? <==> N.AudioFine(v, Tokens(a.data))) && (Parse(a).NonFatal? <==> !N.AudioFine(v, Tokens(a.data)))
              && (Parse(a).Ok? ==> Parse(a).config.AudioConfig? && N.AudioMeant(v, Tokens(a.data), Parse(a).config.audio))
  {
    hide WellFormed, Parse, V.ParseVideo, A.ParseAudio, Tokens, M.Meant, M.AllFine, M.FirstBad, N.AudioFine, N.AudioMeant;
    ParseIs(a, t, v);
    if t == Video {
      M.RejectedIff(v, a.data);
      var r := V.ParseVideo(v, a.data);
      if r.Parsed? {
        M.ParsedAsMeant(v, a.data, r.config);
      }
    } else {
      N.AudioParsedAsMeant(v, a.data);
    }
  }
}
