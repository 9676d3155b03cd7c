/** Judging the audio of exactly the provider files that will be fetched (src/acquisition/anime_matching.rs). */
module ProviderAudio {
  import opened Wrappers
  import Text
  import Decimals
  import opened Json
  import opened AnimeTypes
  import LP = LanguagePolicy

  // ----- the evidence a candidate carries

  function IndexOfName(members: seq<Member>, name: string): (r: Option<nat>)
    ensures r.Some? ==> r.value < |members| && members[r.value].name == name
  {
    if members == [] then None
    else if members[0].name == name then Some(0)
    else
      match IndexOfName(members[1..], name)
      case None => None
      case Some(i) => Some(i + 1)
  }

  const ValueKeys: seq<string> := ["language", "lang", "name", "value", "code", "id"]

  /** The language texts inside a raw value: split strings, all array items, and the known keys of objects. */
  function LanguageTexts(v: Json): seq<string>
    decreases v, 1, 0
  {
    match v
    case Str(text) => LP.NonBlankTrimmed(LP.Split(text, {',', ';', '/', '|'}))
    case Array(items) => TextsOfItems(items)
    case Object(_) => TextsOfKeys(v, |ValueKeys|)
    case _ => []
  }

  function TextsOfItems(items: seq<Json>): seq<string>
    decreases items, 0, 0
  {
    if items == [] then [] else LanguageTexts(items[0]) + TextsOfItems(items[1..])
  }

  function TextsOfKeys(v: Json, n: nat): seq<string>
    requires v.Object? && n <= |ValueKeys|
    decreases v, 0, n
  {
    if n == 0 then []
    else
      TextsOfKeys(v, n - 1)
      + match IndexOfName(v.members, ValueKeys[n - 1])
        case None => []
        case Some(i) => LanguageTexts(v.members[i].value)
  }

  function Pointer(v: Json, path: seq<string>): Option<Json>
    decreases path
  {
    if path == [] then Some(v)
    else
      match Get(v, path[0])
      case None => None
      case Some(w) => Pointer(w, path[1..])
  }

  const AudioPointers: seq<seq<string>> := [
    ["language"], ["languages"], ["languageProfile"], ["languageProfiles"], ["audioLanguage"], ["audioLanguages"],
    ["mediaEvidence", "language"], ["mediaEvidence", "languageProfile"], ["mediaEvidence", "languageProfiles"],
    ["mediaEvidence", "audioLanguage"], ["mediaEvidence", "audioLanguages"],
    ["serverEvidence", "languagePreference", "evidenceAudioLanguages"],
    ["serverEvidence", "languagePreference", "evidenceProfiles"]
  ]

  const SubtitlePointers: seq<seq<string>> := [
    ["subtitleLanguage"], ["subtitleLanguages"], ["mediaEvidence", "subtitleLanguage"],
    ["mediaEvidence", "subtitleLanguages"], ["serverEvidence", "languagePreference", "evidenceSubtitleLanguages"]
  ]

  function TextsAt(raw: Option<Json>, pointers: seq<seq<string>>): seq<string> {
    if pointers == [] || raw.None? then []
    else
      TextsAt(raw, pointers[..|pointers| - 1])
      + match Pointer(raw.value, pointers[|pointers| - 1])
        case None => []
        case Some(v) => LanguageTexts(v)
  }

  function Paths(files: seq<CandidateFile>): (r: seq<string>)
    ensures |r| == |files|
  {
    seq(|files|, i requires 0 <= i < |files| => files[i].path)
  }

  /** Everything that is read as audio evidence, in reading order. */
  function AudioTexts(c: Candidate): seq<string> {
    [c.title] + (if c.language.Some? then [c.language.value] else []) + Paths(c.files) + TextsAt(c.raw, AudioPointers)
  }

  function FromAudio(texts: seq<string>): LP.Evidence {
    if texts == [] then LP.NoEvidence
    else FromAudio(texts[..|texts| - 1]).Plus(LP.AudioTextEvidence(texts[|texts| - 1]))
  }

  function FromSubtitles(texts: seq<string>): LP.Evidence {
    if texts == [] then LP.NoEvidence
    else FromSubtitles(texts[..|texts| - 1]).Plus(LP.SubtitleTextEvidence(texts[|texts| - 1]))
  }

  function CandidateEvidence(c: Candidate): LP.Evidence {
    FromAudio(AudioTexts(c)).Plus(FromSubtitles(TextsAt(c.raw, SubtitlePointers)))
  }

  // ----- assessing a candidate

  const RequiredSatisfiedPointer: seq<string> :=
    ["serverEvidence", "modelMapping", "languagePolicy", "requiredPreferenceSatisfied"]

  function RecordedGate(c: Candidate): Option<bool> {
    if c.raw.None? then None
    else
      match Pointer(c.raw.value, RequiredSatisfiedPointer)
      case Some(Bool(b)) => Some(b)
      case _ => None
  }

  /** The assessment and whether automatic selection may proceed. */
  function AssessCandidate(p: LP.Preference, c: Candidate): (LP.Assessment, bool) {
    var a := LP.Assess(p, LP.Anime, CandidateEvidence(c));
    (a, p.mode != LP.RequireReview || RecordedGate(c).GetOr(a.state == LP.Match))
  }

  function TrimmedKeys(keys: seq<string>): set<string> {
    set k | k in keys && !Text.IsBlank(k) :: Text.Trim(k)
  }

  /** A file is selected by its key, its id, its index or its path. */
  predicate IsPicked(file: CandidateFile, ordinal: nat, keys: set<string>) {
    var identity := IdentityOf(file, ordinal);
    || identity.fileKey in keys
    || (identity.fileId.Some? && identity.fileId.value in keys)
    || (identity.fileIndex.Some? && Decimals.PrintInt(identity.fileIndex.value) in keys)
    || identity.path in keys
  }

  /** What follows the last path separator. */
  function BaseName(path: string): string {
    if path == "" then ""
    else if path[|path| - 1] == '/' || path[|path| - 1] == '\\' then ""
    else BaseName(path[..|path| - 1]) + [path[|path| - 1]]
  }

  function Picked(files: seq<CandidateFile>, keys: set<string>): seq<CandidateFile> {
    if files == [] then []
    else
      var last := |files| - 1;
      Picked(files[..last], keys) + if IsPicked(files[last], last, keys) then [files[last]] else []
  }

  function NamesOnly(files: seq<CandidateFile>): (r: seq<CandidateFile>)
    ensures |r| == |files|
  {
    seq(|files|, i requires 0 <= i < |files| => files[i].(path := BaseName(files[i].path)))
  }

  /** Filename evidence of the selected files decides if it decides anything; otherwise the release itself is judged
      without any file. */
  function AssessProviderFiles(p: LP.Preference, c: Candidate, selectedKeys: seq<string>): (LP.Assessment, bool) {
    if p.mode != LP.RequireReview || c.files == [] then AssessCandidate(p, c)
    else
      var keys := TrimmedKeys(selectedKeys);
      var files := NamesOnly(if keys != {} then Picked(c.files, keys) else c.files);
      var exact := Candidate("", None, files, None);
      var a := LP.Assess(p, LP.Anime, CandidateEvidence(exact));
      if keys != {} && files == [] then (a, false)
      else
        match a.state
        case Match => (a, true)
        case Mismatch => (a, false)
        case _ => AssessCandidate(p, c.(files := []))
  }

  // ----- independence of what is not fetched

  /** The candidates offer the same selected files at the same positions; every other file is free to differ. */
  ghost predicate SameButUnselected(c: Candidate, d: Candidate, keys: set<string>) {
    && c.title == d.title && c.language == d.language && c.raw == d.raw
    && |c.files| == |d.files|
    && forall i :: 0 <= i < |c.files| ==>
         && (IsPicked(c.files[i], i, keys) <==> IsPicked(d.files[i], i, keys))
         && (IsPicked(c.files[i], i, keys) ==> c.files[i] == d.files[i])
  }

  lemma {:induction false} PickedIgnoresUnselected(a: seq<CandidateFile>, b: seq<CandidateFile>, keys: set<string>)
    requires |a| == |b|
    requires forall i :: 0 <= i < |a| ==>
               && (IsPicked(a[i], i, keys) <==> IsPicked(b[i], i, keys))
               && (IsPicked(a[i], i, keys) ==> a[i] == b[i])
    ensures Picked(a, keys) == Picked(b, keys)
  {
    hide IsPicked;
    if a != [] {
      PickedIgnoresUnselected(a[..|a| - 1], b[..|b| - 1], keys);
    }
  }

  /** Under a required preference with files selected, replacing unselected files by other unselected ones changes
      neither the assessment nor the gate. */
  lemma VerdictIgnoresUnselectedFiles(p: LP.Preference, c: Candidate, d: Candidate, selectedKeys: seq<string>)
    requires p.mode == LP.RequireReview && TrimmedKeys(selectedKeys) != {}
    requires SameButUnselected(c, d, TrimmedKeys(selectedKeys))
    ensures AssessProviderFiles(p, c, selectedKeys) == AssessProviderFiles(p, d, selectedKeys)
  {
    hide CandidateEvidence, LP.Assess, IsPicked;
    PickedIgnoresUnselected(c.files, d.files, TrimmedKeys(selectedKeys));
    assert c.(files := []) == d.(files := []);
  }

  /** A required preference is never satisfied by a selection that names no file of the release. */
  lemma SelectionWithoutFilesIsGated(p: LP.Preference, c: Candidate, selectedKeys: seq<string>)
    requires p.mode == LP.RequireReview && TrimmedKeys(selectedKeys) != {} && c.files != []
    requires forall i :: 0 <= i < |c.files| ==> !IsPicked(c.files[i], i, TrimmedKeys(selectedKeys))
    ensures !AssessProviderFiles(p, c, selectedKeys).1
  {
    hide IsPicked, CandidateEvidence, LP.Assess;
    NothingPicked(c.files, TrimmedKeys(selectedKeys));
  }

  lemma {:induction false} NothingPicked(files: seq<CandidateFile>, keys: set<string>)
    requires forall i :: 0 <= i < |files| ==> !IsPicked(files[i], i, keys)
    ensures Picked(files, keys) == []
  {
    hide IsPicked;
    if files != [] {
      NothingPicked(files[..|files| - 1], keys);
    }
  }

  // ----- the evidence loop

  method AddAudioTexts(before: LP.Evidence, texts: seq<string>) returns (evidence: LP.Evidence)
    ensures evidence == before.Plus(FromAudio(texts))
  {
    hide LP.AudioTextEvidence;
    evidence := before;
    for i := 0 to |texts|
      invariant evidence == before.Plus(FromAudio(texts[..i]))
    {
      assert texts[..i + 1][..i] == texts[..i];
      evidence := LP.AddLanguageEvidenceText(evidence, texts[i]);
    }
    assert texts[..|texts|] == texts;
  }

  method AddSubtitleTexts(before: LP.Evidence, texts: seq<string>) returns (evidence: LP.Evidence)
    ensures evidence == before.Plus(FromSubtitles(texts))
  {
    hide LP.SubtitleTextEvidence;
    evidence := before;
    for i := 0 to |texts|
      invariant evidence == before.Plus(FromSubtitles(texts[..i]))
    {
      assert texts[..i + 1][..i] == texts[..i];
      evidence := evidence.Plus(LP.SubtitleTextEvidence(texts[i]));
    }
    assert texts[..|texts|] == texts;
  }

  lemma PlusAssociative(a: LP.Evidence, b: LP.Evidence, c: LP.Evidence)
    ensures a.Plus(b).Plus(c) == a.Plus(b.Plus(c))
  {
  }

  lemma {:induction false} FromAudioConcat(a: seq<string>, b: seq<string>)
    ensures FromAudio(a + b) == FromAudio(a).Plus(FromAudio(b))
  {
    hide LP.AudioTextEvidence;
    if b == [] {
      assert a + b == a;
    } else {
      FromAudioConcat(a, b[..|b| - 1]);
      assert (a + b)[..|a + b| - 1] == a + b[..|b| - 1];
      PlusAssociative(FromAudio(a), FromAudio(b[..|b| - 1]), LP.AudioTextEvidence(b[|b| - 1]));
    }
  }

  method AcquisitionCandidateLanguageEvidence(c: Candidate) returns (evidence: LP.Evidence)
    ensures evidence == CandidateEvidence(c)
  {
    hide LP.AudioTextEvidence, LP.SubtitleTextEvidence, TextsAt;
    var named := [c.title] + if c.language.Some? then [c.language.value] else [];
    evidence := AddAudioTexts(LP.NoEvidence, named);
    evidence := AddAudioTexts(evidence, Paths(c.files));
    evidence := AddAudioTexts(evidence, TextsAt(c.raw, AudioPointers));
    FromAudioConcat(named, Paths(c.files));
    FromAudioConcat(named + Paths(c.files), TextsAt(c.raw, AudioPointers));
    evidence := AddSubtitleTexts(evidence, TextsAt(c.raw, SubtitlePointers));
  }
}
