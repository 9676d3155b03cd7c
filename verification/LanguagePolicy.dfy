/** Language preferences, the evidence releases offer, and the assessment of one against the other
    (src/acquisition/language_policy.rs). Scores are exact reals. */
module LanguagePolicy {
  import opened Wrappers
  import opened Text
  import opened Ordering
  import opened Json

  datatype MediaType = Movie | Series | Anime

  datatype Mode = Off | Prefer | RequireReview

  datatype UnknownPolicy = Allow | AllowLowerPriority | ReviewUnknown

  datatype Rule = Rule(audio: seq<string>, subtitles: seq<string>, profiles: seq<string>)

  const EmptyRule := Rule([], [], [])

  datatype Preference = Preference(mode: Mode, movie: Rule, tv: Rule, anime: Rule, unknownLanguage: UnknownPolicy) {

    predicate Active() {
      mode != Off
    }

    function RuleFor(media: MediaType): Rule {
      match media
      case Movie => movie
      case Series => tv
      case Anime => anime
    }

    function Normalized(): Preference {
      this.(movie := NormalizeRule(movie), tv := NormalizeRule(tv), anime := NormalizeRule(anime))
    }
  }

  const DefaultPreference := Preference(
    Off, EmptyRule.(audio := ["en"]), EmptyRule.(audio := ["en"]),
    EmptyRule.(profiles := ["ja_audio_en_subs", "dual_audio", "en_audio"]), AllowLowerPriority)

  // ----- normalising one language

  function Split(s: string, separators: set<char>): (parts: seq<string>)
    ensures parts != []
  {
    if s == "" then [""]
    else
      var rest := Split(s[1..], separators);
      if s[0] in separators then [""] + rest else [[s[0]] + rest[0]] + rest[1..]
  }

  function FirstNonBlank(parts: seq<string>): Option<string> {
    if parts == [] then None
    else if !IsBlank(parts[0]) then Some(parts[0])
    else FirstNonBlank(parts[1..])
  }

  predicate AllLetters(s: string) {
    forall i :: 0 <= i < |s| ==> IsLetter(s[i])
  }

  const NotALanguage: set<string> := {
    "", "und", "undefined", "unknown", "unk", "mul", "multi", "dual", "original", "sub", "subs", "subtitle", "subbed",
    "dub", "dubbed"
  }

  function ThreeLetterLanguage(token: string): Option<string> {
    if token == "eng" then Some("en")
    else if token == "jpn" || token == "jpa" || token == "jap" then Some("ja")
    else if token == "rus" then Some("ru")
    else if token == "spa" || token == "esp" then Some("es")
    else if token == "fre" || token == "fra" then Some("fr")
    else if token == "ger" || token == "deu" then Some("de")
    else if token == "ita" then Some("it")
    else if token == "por" then Some("pt")
    else if token == "chi" || token == "zho" then Some("zh")
    else if token == "kor" then Some("ko")
    else if token == "hin" then Some("hi")
    else if token == "ara" then Some("ar")
    else None
  }

  function NamedLanguage(token: string): Option<string> {
    if token == "english" then Some("en")
    else if token == "japanese" || token == "nihongo" then Some("ja")
    else if token == "russian" then Some("ru")
    else if token == "spanish" || token == "espanol" || token == "castilian" then Some("es")
    else if token == "french" then Some("fr")
    else if token == "german" || token == "deutsch" then Some("de")
    else if token == "italian" then Some("it")
    else if token == "portuguese" then Some("pt")
    else if token == "chinese" || token == "mandarin" || token == "cantonese" then Some("zh")
    else if token == "korean" then Some("ko")
    else if token == "hindi" then Some("hi")
    else if token == "arabic" then Some("ar")
    else None
  }

  function NormalizeToken(raw: string): Option<string> {
    var token := Lower(Trim(raw));
    if token in NotALanguage then None
    else if |token| == 2 && AllLetters(token) then Some(token)
    else if |token| == 3 && AllLetters(token) then ThreeLetterLanguage(token)
    else NamedLanguage(token)
  }

  function Dashed(s: string): string {
    MapChars(c => if c == '_' then '-' else c, s)
  }

  function NormalizeLanguage(raw: string): Option<string> {
    var value := Trim(raw);
    if value == "" then None
    else
      match FirstNonBlank(Split(Dashed(value), {'-'}))
      case None => None
      case Some(part) => NormalizeToken(Lower(Trim(part)))
  }

  /** A two-letter lower-case code, which every normalised language is. */
  predicate IsCode(s: string) {
    |s| == 2 && IsLowerLetter(s[0]) && IsLowerLetter(s[1])
  }

  lemma ThreeLetterLanguageIsCode(token: string)
    ensures ThreeLetterLanguage(token).Some? ==> IsCode(ThreeLetterLanguage(token).value)
  {
  }

  lemma NamedLanguageIsCode(token: string)
    ensures NamedLanguage(token).Some? ==> IsCode(NamedLanguage(token).value)
  {
  }

  lemma TokenIsCode(raw: string)
    ensures NormalizeToken(raw).Some? ==> IsCode(NormalizeToken(raw).value)
  {
    hide ThreeLetterLanguage, NamedLanguage;
    ThreeLetterLanguageIsCode(Lower(Trim(raw)));
    NamedLanguageIsCode(Lower(Trim(raw)));
    var token := Lower(Trim(raw));
    if |token| == 2 && AllLetters(token) {
      assert IsLetter(token[0]) && IsLetter(token[1]);
    }
  }

  lemma LanguageIsCode(raw: string)
    ensures NormalizeLanguage(raw).Some? ==> IsCode(NormalizeLanguage(raw).value)
  {
    hide NormalizeToken;
    var value := Trim(raw);
    if value != "" {
      var first := FirstNonBlank(Split(Dashed(value), {'-'}));
      if first.Some? {
        TokenIsCode(Lower(Trim(first.value)));
      }
    }
  }

  lemma {:induction false} SplitOfUnseparated(s: string, separators: set<char>)
    requires forall i :: 0 <= i < |s| ==> s[i] !in separators
    ensures Split(s, separators) == [s]
  {
    if s != "" {
      SplitOfUnseparated(s[1..], separators);
      assert s == [s[0]] + s[1..];
    }
  }

  lemma CodeIsFixed(s: string)
    requires IsCode(s)
    ensures NormalizeLanguage(s) == Some(s)
  {
    TrimOfTrimmed(s);
    assert Dashed(s) == s;
    SplitOfUnseparated(s, {'-'});
    assert Lower(s) == s;
    CodeIsNotExcluded(s);
  }

  lemma CodeIsNotExcluded(s: string)
    requires |s| == 2
    ensures s !in NotALanguage
  {
    forall t | t in NotALanguage ensures |t| != 2 {
    }
  }

  /** Normalising a normalised language changes nothing. */
  lemma NormalizeLanguageIdempotent(raw: string)
    ensures NormalizeLanguage(raw).Some? ==> NormalizeLanguage(NormalizeLanguage(raw).value) == NormalizeLanguage(raw)
  {
    LanguageIsCode(raw);
    if NormalizeLanguage(raw).Some? {
      CodeIsFixed(NormalizeLanguage(raw).value);
    }
  }

  // ----- normalising one profile

  function Underscored(s: string): string {
    MapChars(c => if c == '-' || c == '.' || c == ' ' then '_' else c, s)
  }

  function ProfileToken(raw: string): string {
    Underscored(Lower(Trim(raw)))
  }

  function ClassifyProfile(token: string): Option<string> {
    if token in {"dual", "dual_audio", "dual_audio_audio", "multi_audio", "multiaudio"} then Some("dual_audio")
    else if token in {"sub", "subs", "subbed", "subtitle", "subtitles"} then Some("subbed")
    else if token in {"dub", "dubbed", "dub_audio"} then Some("dubbed")
    else if token in {"ja_audio_en_subs", "japanese_audio_english_subs", "jpn_audio_eng_subs"} then
      Some("ja_audio_en_subs")
    else if token in {"en_audio", "english_audio", "eng_audio"} then Some("en_audio")
    else if EndsWith(token, "_dub") then Some("dubbed")
    else if EndsWith(token, "_sub") || EndsWith(token, "_subs") then Some("subbed")
    else None
  }

  function NormalizeProfile(raw: string): Option<string> {
    ClassifyProfile(ProfileToken(raw))
  }

  /** How a profile is stored in a normalised list: its canonical name, or its own token when it has none. */
  function StoredProfile(raw: string): string {
    ProfileToken(NormalizeProfile(raw).GetOr(raw))
  }

  const CanonicalProfiles: set<string> := {"dual_audio", "subbed", "dubbed", "ja_audio_en_subs", "en_audio"}

  predicate IsPlainToken(s: string) {
    forall i :: 0 <= i < |s| ==> IsLowerLetter(s[i]) || s[i] == '_'
  }

  lemma PlainTokenIsFixed(s: string)
    requires IsPlainToken(s)
    ensures ProfileToken(s) == s
  {
    TrimOfTrimmed(s);
    assert Lower(s) == s;
  }

  lemma CanonicalProfileIsPlain(s: string)
    requires s in CanonicalProfiles
    ensures IsPlainToken(s)
  {
  }

  lemma CanonicalProfileIsItsOwnClass(s: string)
    requires s in CanonicalProfiles
    ensures ClassifyProfile(s) == Some(s)
  {
  }

  lemma CanonicalProfileIsFixed(s: string)
    requires s in CanonicalProfiles
    ensures ProfileToken(s) == s && ClassifyProfile(s) == Some(s)
  {
    hide ProfileToken, ClassifyProfile, IsPlainToken;
    CanonicalProfileIsPlain(s);
    CanonicalProfileIsItsOwnClass(s);
    PlainTokenIsFixed(s);
  }

  lemma ProfileTokenIdempotent(raw: string)
    ensures ProfileToken(ProfileToken(raw)) == ProfileToken(raw)
  {
    var t := ProfileToken(raw);
    TrimIsTrimmed(raw);
    CaseKeepsTrimmed(Trim(raw));
    TrimOfTrimmed(t);
    assert Lower(t) == t;
  }

  lemma StoredProfileIdempotent(raw: string)
    ensures StoredProfile(StoredProfile(raw)) == StoredProfile(raw)
  {
    hide ProfileToken, ClassifyProfile;
    ProfileTokenIdempotent(raw);
    ClassifiedIsCanonical(ProfileToken(raw));
    if NormalizeProfile(raw).Some? {
      CanonicalProfileIsFixed(NormalizeProfile(raw).value);
    }
  }

  lemma ClassifiedIsCanonical(token: string)
    ensures ClassifyProfile(token).Some? ==> ClassifyProfile(token).value in CanonicalProfiles
  {
  }

  // ----- normalising lists, rules and preferences

  function Languages(values: seq<string>): (r: seq<string>) {
    if values == [] then []
    else
      var rest := Languages(values[1..]);
      match NormalizeLanguage(values[0])
      case None => rest
      case Some(l) => [l] + rest
  }

  function Profiles(values: seq<string>): (r: seq<string>) {
    if values == [] then []
    else
      var rest := Profiles(values[1..]);
      var p := StoredProfile(values[0]);
      if p == "" then rest else [p] + rest
  }

  function NormalizeLanguageList(values: seq<string>): seq<string> {
    SortedSet(Languages(values))
  }

  function NormalizeProfileList(values: seq<string>): seq<string> {
    SortedSet(Profiles(values))
  }

  function NormalizeRule(rule: Rule): Rule {
    Rule(NormalizeLanguageList(rule.audio), NormalizeLanguageList(rule.subtitles), NormalizeProfileList(rule.profiles))
  }

  lemma {:induction false} LanguagesAreFixed(values: seq<string>)
    ensures forall l :: l in Languages(values) ==> NormalizeLanguage(l) == Some(l)
  {
    hide NormalizeLanguage;
    if values != [] {
      LanguagesAreFixed(values[1..]);
      NormalizeLanguageIdempotent(values[0]);
    }
  }

  lemma {:induction false} FixedLanguagesStay(values: seq<string>)
    requires forall i :: 0 <= i < |values| ==> NormalizeLanguage(values[i]) == Some(values[i])
    ensures Languages(values) == values
  {
    if values != [] {
      FixedLanguagesStay(values[1..]);
    }
  }

  lemma {:induction false} ProfilesAreFixed(values: seq<string>)
    ensures forall p :: p in Profiles(values) ==> StoredProfile(p) == p && p != ""
  {
    hide StoredProfile;
    if values != [] {
      ProfilesAreFixed(values[1..]);
      StoredProfileIdempotent(values[0]);
    }
  }

  lemma {:induction false} FixedProfilesStay(values: seq<string>)
    requires forall i :: 0 <= i < |values| ==> StoredProfile(values[i]) == values[i] && values[i] != ""
    ensures Profiles(values) == values
  {
    if values != [] {
      FixedProfilesStay(values[1..]);
    }
  }

  lemma ListsIdempotent(values: seq<string>)
    ensures NormalizeLanguageList(NormalizeLanguageList(values)) == NormalizeLanguageList(values)
    ensures NormalizeProfileList(NormalizeProfileList(values)) == NormalizeProfileList(values)
  {
    hide NormalizeLanguage, StoredProfile;
    var languages, profiles := Languages(values), Profiles(values);
    SortedSetSpec(languages);
    LanguagesAreFixed(values);
    forall i | 0 <= i < |SortedSet(languages)|
      ensures NormalizeLanguage(SortedSet(languages)[i]) == Some(SortedSet(languages)[i])
    {
      assert SortedSet(languages)[i] in languages;
    }
    FixedLanguagesStay(SortedSet(languages));
    SortedSetOfIncreasing(SortedSet(languages));
    SortedSetSpec(profiles);
    ProfilesAreFixed(values);
    forall i | 0 <= i < |SortedSet(profiles)|
      ensures StoredProfile(SortedSet(profiles)[i]) == SortedSet(profiles)[i] != ""
    {
      assert SortedSet(profiles)[i] in profiles;
    }
    FixedProfilesStay(SortedSet(profiles));
    SortedSetOfIncreasing(SortedSet(profiles));
  }

  lemma RuleIdempotent(rule: Rule)
    ensures NormalizeRule(NormalizeRule(rule)) == NormalizeRule(rule)
  {
    ListsIdempotent(rule.audio);
    ListsIdempotent(rule.subtitles);
    ListsIdempotent(rule.profiles);
  }

  /** Normalising a preference twice is normalising it once. */
  lemma NormalizedIdempotent(p: Preference)
    ensures p.Normalized().Normalized() == p.Normalized()
  {
    RuleIdempotent(p.movie);
    RuleIdempotent(p.tv);
    RuleIdempotent(p.anime);
  }

  /** A normalised preference lists profiles in order and the built-in default does not, so they never coincide. */
  lemma NormalizedIsNeverDefault(p: Preference)
    ensures p.Normalized() != DefaultPreference
  {
    var profiles := NormalizeProfileList(p.anime.profiles);
    SortedSetSpec(Profiles(p.anime.profiles));
    assert |profiles| > 1 ==> LexLess(profiles[0], profiles[1]);
    DefaultIsOutOfOrder();
  }

  lemma DefaultIsOutOfOrder()
    ensures !LexLess(DefaultPreference.anime.profiles[0], DefaultPreference.anime.profiles[1])
  {
    assert "dual_audio"[0] == 'd' && "ja_audio_en_subs"[0] == 'j';
  }

  // ----- storing the preference

  function ModeName(m: Mode): string {
    match m
    case Off => "off"
    case Prefer => "prefer"
    case RequireReview => "require_review"
  }

  function PolicyName(u: UnknownPolicy): string {
    match u
    case Allow => "allow"
    case AllowLowerPriority => "allow_lower_priority"
    case ReviewUnknown => "require_review"
  }

  function StringsToJson(values: seq<string>): Json {
    Array(seq(|values|, i requires 0 <= i < |values| => Str(values[i])))
  }

  function RuleToJson(r: Rule): Json {
    Object([
      Member("audio", StringsToJson(r.audio)),
      Member("subtitles", StringsToJson(r.subtitles)),
      Member("profiles", StringsToJson(r.profiles))])
  }

  function PreferenceToJson(p: Preference): Json {
    Object([
      Member("mode", Str(ModeName(p.mode))),
      Member("movie", RuleToJson(p.movie)),
      Member("tv", RuleToJson(p.tv)),
      Member("anime", RuleToJson(p.anime)),
      Member("unknownLanguage", Str(PolicyName(p.unknownLanguage)))])
  }

  function ModeFromJson(v: Option<Json>): Option<Mode> {
    match v
    case None => Some(Off)
    case Some(j) =>
      if j == Str("off") then Some(Off)
      else if j == Str("prefer") then Some(Prefer)
      else if j == Str("require_review") then Some(RequireReview)
      else None
  }

  function PolicyFromJson(v: Option<Json>): Option<UnknownPolicy> {
    match v
    case None => Some(AllowLowerPriority)
    case Some(j) =>
      if j == Str("allow") then Some(Allow)
      else if j == Str("allow_lower_priority") then Some(AllowLowerPriority)
      else if j == Str("require_review") then Some(ReviewUnknown)
      else None
  }

  function StringsFromJson(v: Option<Json>): Option<seq<string>> {
    match v
    case None => Some([])
    case Some(j) =>
      if j.Array? && forall i :: 0 <= i < |j.items| ==> j.items[i].Str? then
        Some(seq(|j.items|, i requires 0 <= i < |j.items| => j.items[i].text))
      else None
  }

  function RuleFromJson(v: Option<Json>): Option<Rule> {
    match v
    case None => Some(EmptyRule)
    case Some(j) =>
      if !j.Object? then None
      else
        var audio, subtitles := StringsFromJson(Get(j, "audio")), StringsFromJson(Get(j, "subtitles"));
        var profiles := StringsFromJson(Get(j, "profiles"));
        if audio.Some? && subtitles.Some? && profiles.Some? then
          Some(Rule(audio.value, subtitles.value, profiles.value))
        else None
  }

  /** Decoding a stored document: absent fields take their defaults, a malformed one spoils the document. */
  function PreferenceFromJson(j: Json): Option<Preference> {
    if !j.Object? then None
    else
      var mode, unknown := ModeFromJson(Get(j, "mode")), PolicyFromJson(Get(j, "unknownLanguage"));
      var movie, tv, anime := RuleFromJson(Get(j, "movie")), RuleFromJson(Get(j, "tv")), RuleFromJson(Get(j, "anime"));
      if mode.Some? && movie.Some? && tv.Some? && anime.Some? && unknown.Some? then
        Some(Preference(mode.value, movie.value, tv.value, anime.value, unknown.value))
      else None
  }

  lemma StringsRoundTrip(values: seq<string>)
    ensures StringsFromJson(Some(StringsToJson(values))) == Some(values)
  {
    assert StringsFromJson(Some(StringsToJson(values))).value == values;
  }

  lemma RuleRoundTrip(r: Rule)
    ensures RuleFromJson(Some(RuleToJson(r))) == Some(r)
  {
    hide StringsToJson, StringsFromJson;
    StringsRoundTrip(r.audio);
    StringsRoundTrip(r.subtitles);
    StringsRoundTrip(r.profiles);
    var ms := RuleToJson(r).members;
    LookupMember(ms, 0);
    LookupMember(ms, 1);
    LookupMember(ms, 2);
  }

  lemma PreferenceFields(p: Preference)
    ensures var j := PreferenceToJson(p);
      && Get(j, "mode") == Some(Str(ModeName(p.mode))) && Get(j, "movie") == Some(RuleToJson(p.movie))
      && Get(j, "tv") == Some(RuleToJson(p.tv)) && Get(j, "anime") == Some(RuleToJson(p.anime))
      && Get(j, "unknownLanguage") == Some(Str(PolicyName(p.unknownLanguage)))
  {
    hide RuleToJson, ModeName, PolicyName;
    var ms := PreferenceToJson(p).members;
    LookupMember(ms, 0);
    LookupMember(ms, 1);
    LookupMember(ms, 2);
    LookupMember(ms, 3);
    LookupMember(ms, 4);
  }

  lemma PreferenceRoundTrip(p: Preference)
    ensures PreferenceFromJson(PreferenceToJson(p)) == Some(p)
  {
    PreferenceFields(p);
    RuleRoundTrip(p.movie);
    RuleRoundTrip(p.tv);
    RuleRoundTrip(p.anime);
    hide RuleToJson, RuleFromJson, Lookup;
  }

  /** What a stored setting, or its absence, loads as. */
  function Loaded(setting: Option<Json>): Preference {
    var stored := if setting.Some? then PreferenceFromJson(setting.value) else None;
    (if stored.Some? then stored.value.Normalized() else DefaultPreference).Normalized()
  }

  class PreferenceStore {
    var setting: Option<Json>

    constructor ()
      ensures setting == None
    {
      setting := None;
    }

    /** Deletes the setting for the built-in default and writes it otherwise; the deletion never happens. */
    method Save(p: Preference)
      modifies this
      ensures setting == Some(PreferenceToJson(p.Normalized()))
      ensures Loaded(setting) == p.Normalized()
    {
      var normalized := p.Normalized();
      if normalized == DefaultPreference {
        setting := None;
      } else {
        setting := Some(PreferenceToJson(normalized));
      }
      NormalizedIsNeverDefault(p);
      SaveThenLoad(p);
    }

    method Load() returns (p: Preference)
      ensures p == Loaded(setting)
    {
      var stored: Option<Preference> := None;
      if setting.Some? {
        stored := PreferenceFromJson(setting.value);
      }
      if stored.Some? {
        p := stored.value.Normalized();
      } else {
        p := DefaultPreference;
      }
      p := p.Normalized();
    }
  }

  /** Loading what was saved returns the normalised preference, whatever was saved. */
  lemma SaveThenLoad(p: Preference)
    ensures Loaded(Some(PreferenceToJson(p.Normalized()))) == p.Normalized()
  {
    PreferenceRoundTrip(p.Normalized());
    NormalizedIdempotent(p);
  }

  // ----- evidence

  datatype Evidence = Evidence(audio: set<string>, subtitles: set<string>, profiles: set<string>, raw: set<string>) {

    function Plus(other: Evidence): Evidence {
      Evidence(audio + other.audio, subtitles + other.subtitles, profiles + other.profiles, raw + other.raw)
    }

    /** The other evidence says at least as much. */
    predicate Within(other: Evidence) {
      audio <= other.audio && subtitles <= other.subtitles && profiles <= other.profiles
    }
  }

  const NoEvidence := Evidence({}, {}, {}, {})

  function OptionSet(v: Option<string>): set<string> {
    if v.Some? then {v.value} else {}
  }

  predicate IsAlphanumeric(c: char) {
    IsLetter(c) || IsDigit(c)
  }

  /** The words of a text; everything that is not a letter or digit separates them. */
  function Tokens(text: string): seq<string> {
    NonBlankTrimmed(Split(MapChars(c => if IsAlphanumeric(c) then c else ' ', text), {' '}))
  }

  function NonBlankTrimmed(parts: seq<string>): seq<string> {
    if parts == [] then []
    else if IsBlank(parts[0]) then NonBlankTrimmed(parts[1..])
    else [Trim(parts[0])] + NonBlankTrimmed(parts[1..])
  }

  /** The languages a text names: itself if it is one, otherwise those of its words. */
  function TextLanguages(text: string): set<string> {
    if NormalizeLanguage(text).Some? then OptionSet(NormalizeLanguage(text))
    else TokenLanguages(Tokens(text))
  }

  function TextProfiles(text: string): set<string> {
    OptionSet(NormalizeProfile(text))
    + if NormalizeLanguage(text).Some? then {}
      else TokenProfiles(Tokens(text))
  }

  function TokenLanguages(tokens: seq<string>): set<string> {
    set t | t in tokens && NormalizeLanguage(t).Some? :: NormalizeLanguage(t).value
  }

  function TokenProfiles(tokens: seq<string>): set<string> {
    set t | t in tokens && NormalizeProfile(t).Some? :: NormalizeProfile(t).value
  }

  lemma NoTokens(tokens: seq<string>)
    ensures TokenLanguages(tokens[..0]) == {} && TokenProfiles(tokens[..0]) == {}
  {
  }

  lemma NextToken(tokens: seq<string>, i: nat)
    requires i < |tokens|
    ensures TokenLanguages(tokens[..i + 1]) == TokenLanguages(tokens[..i]) + OptionSet(NormalizeLanguage(tokens[i]))
    ensures TokenProfiles(tokens[..i + 1]) == TokenProfiles(tokens[..i]) + OptionSet(NormalizeProfile(tokens[i]))
  {
    hide NormalizeLanguage, NormalizeProfile;
    assert tokens[..i + 1] == tokens[..i] + [tokens[i]];
  }

  function AudioTextEvidence(raw: string): Evidence {
    var text := Trim(raw);
    if text == "" then NoEvidence else Evidence(TextLanguages(text), {}, TextProfiles(text), {text})
  }

  function SubtitleTextEvidence(raw: string): Evidence {
    var text := Trim(raw);
    if text == "" then NoEvidence else Evidence({}, TextLanguages(text), {}, {text})
  }

  method AddLanguageEvidenceText(before: Evidence, raw: string) returns (evidence: Evidence)
    ensures evidence == before.Plus(AudioTextEvidence(raw))
  {
    hide NormalizeLanguage, NormalizeProfile, Tokens, TokenLanguages, TokenProfiles, Trim;
    evidence := before;
    var text := Trim(raw);
    if text == "" {
      return;
    }
    evidence := evidence.(raw := evidence.raw + {text});
    evidence := evidence.(profiles := evidence.profiles + OptionSet(NormalizeProfile(text)));
    var language := NormalizeLanguage(text);
    if language.Some? {
      evidence := evidence.(audio := evidence.audio + {language.value});
      return;
    }
    var tokens := Tokens(text);
    NoTokens(tokens);
    for i := 0 to |tokens|
      invariant evidence.raw == before.raw + {text} && evidence.subtitles == before.subtitles
      invariant evidence.audio == before.audio + TokenLanguages(tokens[..i])
      invariant evidence.profiles == before.profiles + (OptionSet(NormalizeProfile(text)) + TokenProfiles(tokens[..i]))
    {
      NextToken(tokens, i);
      evidence := evidence.(profiles := evidence.profiles + OptionSet(NormalizeProfile(tokens[i])));
      evidence := evidence.(audio := evidence.audio + OptionSet(NormalizeLanguage(tokens[i])));
    }
    assert tokens[..|tokens|] == tokens;
  }

  // ----- assessment

  datatype State = OffState | Match | Mismatch | Unknown

  datatype Assessment = Assessment(
    score: real, state: State, matchingAudio: seq<string>, matchingSubtitles: seq<string>,
    matchingProfiles: seq<string>,
    desired: Rule, evidence: Evidence)

  function Intersect(found: set<string>, wanted: seq<string>): (r: seq<string>) {
    if wanted == [] then []
    else if wanted[0] in found then [wanted[0]] + Intersect(found, wanted[1..])
    else Intersect(found, wanted[1..])
  }

  predicate ProfileMatches(profile: string, e: Evidence) {
    if profile == "ja_audio_en_subs" then "ja" in e.audio && ("en" in e.subtitles || "subbed" in e.profiles)
    else if profile == "dual_audio" then
      "dual_audio" in e.profiles || |e.audio| > 1 || ("ja" in e.audio && "en" in e.audio)
    else if profile == "en_audio" then "en" in e.audio || "dubbed" in e.profiles
    else if profile == "subbed" then "subbed" in e.profiles || e.subtitles != {}
    else profile in e.profiles
  }

  function MatchingProfiles(wanted: seq<string>, e: Evidence): (r: seq<string>) {
    if wanted == [] then []
    else if ProfileMatches(wanted[0], e) then [wanted[0]] + MatchingProfiles(wanted[1..], e)
    else MatchingProfiles(wanted[1..], e)
  }

  function Clamp(x: real, low: real, high: real): real {
    if x < low then low else if x > high then high else x
  }

  function BaseScore(state: State, unknown: UnknownPolicy): real {
    match state
    case Match => 0.08
    case Mismatch => -0.06
    case Unknown => if unknown == Allow then 0.0 else -0.01
    case OffState => 0.0
  }

  function RawScore(base: real, audio: bool, subtitles: bool, profiles: bool): real {
    base + (if profiles then 0.04 else 0.0) + (if audio && subtitles then 0.02 else 0.0)
  }

  function StateFor(rule: Rule, e: Evidence, audio: bool, subtitles: bool, profiles: bool): State {
    if audio || subtitles || profiles then Match
    else if || (rule.audio != [] && e.audio != {})
            || (rule.subtitles != [] && e.subtitles != {})
            || (rule.profiles != [] && (e.audio != {} || e.subtitles != {} || e.profiles != {}))
    then Mismatch
    else Unknown
  }

  function Assess(p: Preference, media: MediaType, e: Evidence): Assessment {
    if !p.Active() then Assessment(0.0, OffState, [], [], [], EmptyRule, e)
    else
      var rule := NormalizeRule(p.RuleFor(media));
      if rule == EmptyRule then Assessment(0.0, Unknown, [], [], [], rule, e)
      else
        var audio, subtitles := Intersect(e.audio, rule.audio), Intersect(e.subtitles, rule.subtitles);
        var profiles := MatchingProfiles(rule.profiles, e);
        var state := StateFor(rule, e, audio != [], subtitles != [], profiles != []);
        var raw := RawScore(BaseScore(state, p.unknownLanguage), audio != [], subtitles != [], profiles != []);
        Assessment(Clamp(raw, -0.08, 0.14), state, audio, subtitles, profiles, rule, e)
  }

  lemma {:induction false} IntersectSpec(found: set<string>, wanted: seq<string>)
    ensures Intersect(found, wanted) != [] <==> exists w :: w in wanted && w in found
  {
    if wanted != [] {
      IntersectSpec(found, wanted[1..]);
      assert wanted == [wanted[0]] + wanted[1..];
    }
  }

  lemma {:induction false} MatchingProfilesSpec(wanted: seq<string>, e: Evidence)
    ensures MatchingProfiles(wanted, e) != [] <==> exists w :: w in wanted && ProfileMatches(w, e)
  {
    hide ProfileMatches;
    if wanted != [] {
      MatchingProfilesSpec(wanted[1..], e);
      assert wanted == [wanted[0]] + wanted[1..];
    }
  }

  lemma ProfileMatchIsMonotone(profile: string, e: Evidence, more: Evidence)
    requires e.Within(more) && ProfileMatches(profile, e)
    ensures ProfileMatches(profile, more)
  {
    if profile == "dual_audio" && |e.audio| > 1 {
      assert |more.audio - e.audio| == |more.audio| - |e.audio|;
    }
  }

  /** More evidence never loses a match and never lowers a matched score. */
  lemma MoreEvidenceKeepsMatch(p: Preference, media: MediaType, e: Evidence, more: Evidence)
    requires e.Within(more)
    ensures Assess(p, media, e).state == Match ==>
      Assess(p, media, more).state == Match && Assess(p, media, more).score >= Assess(p, media, e).score
  {
    hide NormalizeRule;
    var rule := NormalizeRule(p.RuleFor(media));
    IntersectSpec(e.audio, rule.audio);
    IntersectSpec(more.audio, rule.audio);
    IntersectSpec(e.subtitles, rule.subtitles);
    IntersectSpec(more.subtitles, rule.subtitles);
    MatchingProfilesSpec(rule.profiles, e);
    MatchingProfilesSpec(rule.profiles, more);
    if w :| w in rule.profiles && ProfileMatches(w, e) {
      ProfileMatchIsMonotone(w, e, more);
    }
  }

  /** The score before clamping, for an active preference that asks for something. */
  function UnclampedScore(p: Preference, a: Assessment): real {
    RawScore(BaseScore(a.state, p.unknownLanguage), a.matchingAudio != [], a.matchingSubtitles != [],
      a.matchingProfiles != [])
  }

  /** Over the reals the clamp never bites, and the states occupy separate bands of scores. */
  lemma ScoreBands(p: Preference, media: MediaType, e: Evidence)
    ensures var a := Assess(p, media, e);
            && (p.Active() && a.desired != EmptyRule ==> a.score == UnclampedScore(p, a))
            && (a.state == Match ==> 0.08 <= a.score <= 0.14)
            && (a.state == Unknown || a.state == OffState ==> -0.01 <= a.score <= 0.0)
            && (a.state == Mismatch ==> a.score == -0.06)
  {
    hide NormalizeRule;
  }

  /** Any match outscores any unknown, and any unknown any mismatch, across preferences and media types. */
  lemma StatesRankScores(p: Preference, q: Preference, media: MediaType, other: MediaType, e: Evidence, f: Evidence)
    ensures var a, b := Assess(p, media, e), Assess(q, other, f);
            && (a.state == Match && b.state == Unknown ==> a.score > b.score)
            && (a.state == Unknown && b.state == Mismatch ==> a.score > b.score)
            && (a.state == Match && b.state == Mismatch ==> a.score > b.score)
  {
    hide Assess;
    ScoreBands(p, media, e);
    ScoreBands(q, other, f);
  }
}
