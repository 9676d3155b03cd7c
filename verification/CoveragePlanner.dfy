/** Turning a model's candidate-to-target mapping into a file-coverage plan (src/acquisition/anime_matching.rs). */
module CoveragePlanner {
  import opened Wrappers
  import opened Sequences
  import Text
  import opened AnimeTypes

  datatype ReleaseKind = UnknownKind | Single | MultiEpisode | SeasonPack | MultiSeasonPack | SeriesPack

  datatype CoverageKind =
    | ManualOverride | SingleEpisode | MultiEpisodeRange | SeasonPackCoverage
    | MultiSeasonPackCoverage | SeriesPackCoverage

  datatype Confidence = High | Medium | Low | ReviewRequired

  datatype Binding = Unbound | SharedMultiEpisode | Positional

  datatype CoverageEntry = CoverageEntry(
    targetKey: string, canonicalKey: Option<string>, releaseFileKey: Option<string>, fileId: Option<string>,
    fileIndex: Option<int>, path: Option<string>, coverageKind: CoverageKind, confidence: Confidence, reason: Binding)

  datatype CoveragePlan = CoveragePlan(
    releaseKind: ReleaseKind, confidence: Confidence, requiresFileList: bool, requiresFileSelection: bool,
    selectedFileKeys: seq<string>, entries: seq<CoverageEntry>, reviewReasons: seq<string>,
    rejectionReasons: seq<string>)

  datatype MatchState = Definitive | Difficult

  /** The automatic acceptance gate. */
  function DeterministicState(plan: CoveragePlan): MatchState {
    if (plan.confidence == High || plan.confidence == Medium) && plan.entries != [] && plan.rejectionReasons == [] then
      Definitive
    else Difficult
  }

  /** Why a mapping is refused. */
  datatype PlanError =
    | CandidateUnknown | FileIdentityRepeated | ScopedTargetRepeated | TargetsUnusable
    | SelectionUnusable | FileRepeated
    | SelectionMissing | CannotExclude | ShapeUnsafe

  /** Everything one mapping is judged against: the request's target and scoped context, the scoring graph, and the
      provider candidates; `kindOf` stands for the release-title parser. */
  datatype PlanInput = PlanInput(
    target: MatchTarget, scope: MatchContext, context: ScoringContext, candidates: seq<Candidate>,
    selectionSupported: bool, matched: CandidateMatch, sourceMap: SourceMap, kindOf: string -> ReleaseKind)

  // ----- the release shape

  predicate IsPack(kind: ReleaseKind) {
    kind == SeasonPack || kind == MultiSeasonPack || kind == SeriesPack
  }

  function CoverageKindOf(kind: ReleaseKind): CoverageKind {
    match kind
    case Single => SingleEpisode
    case MultiEpisode => MultiEpisodeRange
    case SeasonPack => SeasonPackCoverage
    case MultiSeasonPack => MultiSeasonPackCoverage
    case SeriesPack => SeriesPackCoverage
    case UnknownKind => ManualOverride
  }

  datatype Shape = Shape(releaseKind: ReleaseKind, binding: Binding)

  function CoverageShape(kind: ReleaseKind, targets: nat, selected: nat, media: nat): Option<Shape> {
    if targets == 0 then None
    else if media == 0 then
      if selected != 0 || IsPack(kind) || kind == UnknownKind then None
      else if targets > 1 then (if kind == MultiEpisode then Some(Shape(MultiEpisode, Unbound)) else None)
      else if kind == MultiEpisode then None
      else Some(Shape(Single, Unbound))
    else if selected == 0 then None
    else if IsPack(kind) then (if selected == targets then Some(Shape(kind, Positional)) else None)
    else if targets > 1 && selected == 1 then
      (if kind == MultiEpisode then Some(Shape(MultiEpisode, SharedMultiEpisode)) else None)
    else if selected != targets then None
    else Some(Shape(if kind == MultiEpisode || targets > 1 then MultiEpisode else Single, Positional))
  }

  // ----- what an acceptable mapping is, condition by condition

  predicate KnownCandidate(p: PlanInput) {
    var source := p.sourceMap.CandidateSource(p.matched.candidateKey);
    source.Some? && source.value < |p.candidates|
  }

  function CandidateIndex(p: PlanInput): nat
    requires KnownCandidate(p)
  {
    p.sourceMap.CandidateSource(p.matched.candidateKey).value
  }

  function CandidateOf(p: PlanInput): Candidate
    requires KnownCandidate(p)
  {
    p.candidates[CandidateIndex(p)]
  }

  ghost predicate DistinctIdentities(files: seq<CandidateFile>) {
    forall i, j :: 0 <= i < j < |files| ==> IdentityOf(files[i], i).fileKey != IdentityOf(files[j], j).fileKey
  }

  /** The request's targets with the season each is listed under, in order. */
  function ScopedTargets(seasons: seq<Season>): seq<(Season, ContextTarget)> {
    if seasons == [] then [] else ScopedTargets(seasons[..|seasons| - 1]) + InSeason(seasons[|seasons| - 1])
  }

  function InSeason(season: Season): (r: seq<(Season, ContextTarget)>)
    ensures |r| == |season.targets|
  {
    seq(|season.targets|, i requires 0 <= i < |season.targets| => (season, season.targets[i]))
  }

  predicate DistinctScoped(scoped: seq<(Season, ContextTarget)>) {
    forall i, j :: 0 <= i < j < |scoped| ==> scoped[i].1.targetKey != scoped[j].1.targetKey
  }

  /** A row of the scoring graph describes the scoped target. */
  predicate IsCanonicalRow(row: ScoringTarget, scoped: (Season, ContextTarget)) {
    && row.targetKey == scoped.1.targetKey
    && row.title == scoped.1.title
    && row.seasonNumber == scoped.1.seasonNumber
    && row.episodeNumber == scoped.1.episodeNumber
    && row.absoluteEpisodeNumber == scoped.1.absoluteEpisodeNumber
    && row.tvdbEpisodeId == scoped.1.tvdbEpisodeId
    && row.anidbEpisodeId == scoped.1.anidbEpisodeId
    && match row.anilistSeasonId
       case Some(id) => Text.EqualIgnoreCase(Text.Trim(id), Text.Trim(scoped.0.anilistId))
       case None => row.seasonNumber == Some(scoped.0.seasonNumber)
  }

  ghost predicate OnlyRow(rows: seq<ScoringTarget>, scoped: (Season, ContextTarget), i: nat) {
    && i < |rows|
    && IsCanonicalRow(rows[i], scoped)
    && forall j :: 0 <= j < |rows| && j != i ==> !IsCanonicalRow(rows[j], scoped)
  }

  ghost predicate IsOnlyRow(rows: seq<ScoringTarget>, scoped: (Season, ContextTarget), row: ScoringTarget) {
    exists i: nat :: OnlyRow(rows, scoped, i) && rows[i] == row
  }

  ghost predicate Scopes(p: PlanInput, key: string, scoped: (Season, ContextTarget)) {
    scoped in ScopedTargets(p.scope.seasons) && scoped.1.targetKey == key
  }

  /** The key names a scoped target that exactly one row of the scoring graph describes, namely `row`. */
  ghost predicate ResolvesTo(p: PlanInput, key: string, row: ScoringTarget) {
    exists scoped :: Scopes(p, key, scoped) && IsOnlyRow(p.context.targets, scoped, row)
  }

  ghost predicate Resolvable(p: PlanInput, key: string) {
    exists row :: ResolvesTo(p, key, row)
  }

  ghost predicate TargetsUsable(p: PlanInput) {
    var keys := p.matched.matchedTargetKeys;
    && keys != []
    && Distinct(keys)
    && forall i :: 0 <= i < |keys| ==> keys[i] in p.target.wantedTargetKeys && Resolvable(p, keys[i])
  }

  function SelectedKeys(m: CandidateMatch): seq<string> {
    m.selectedFileKeys.GetOr([])
  }

  /** A file key the mapping may select: it belongs to this candidate and names one of its selectable media files. */
  predicate SelectableKey(p: PlanInput, key: string)
    requires KnownCandidate(p)
  {
    var source := p.sourceMap.SourceOfFile(p.matched.candidateKey, key);
    && source.Some?
    && source.value.candidateIndex == CandidateIndex(p)
    && source.value.fileIndex < |CandidateOf(p).files|
    && IsSelectableMedia(CandidateOf(p).files[source.value.fileIndex])
  }

  function FileIndexOf(p: PlanInput, key: string): nat
    requires KnownCandidate(p) && SelectableKey(p, key)
  {
    p.sourceMap.files[key].fileIndex
  }

  ghost predicate SelectionUsable(p: PlanInput)
    requires KnownCandidate(p)
  {
    && p.matched.selectedFileKeys != Some([])
    && forall i :: 0 <= i < |SelectedKeys(p.matched)| ==> SelectableKey(p, SelectedKeys(p.matched)[i])
  }

  ghost predicate FilesDistinct(p: PlanInput)
    requires KnownCandidate(p) && SelectionUsable(p)
  {
    var keys := SelectedKeys(p.matched);
    forall i, j :: 0 <= i < j < |keys| ==> FileIndexOf(p, keys[i]) != FileIndexOf(p, keys[j])
  }

  /** The positions of the candidate's media files, selectable or not. */
  function MediaIndexes(files: seq<CandidateFile>): set<nat> {
    set i: nat | i < |files| && IsMedia(files[i])
  }

  function SelectedIndexes(p: PlanInput): set<nat>
    requires KnownCandidate(p) && SelectionUsable(p)
  {
    set i | 0 <= i < |SelectedKeys(p.matched)| :: FileIndexOf(p, SelectedKeys(p.matched)[i])
  }

  predicate RequiresSelection(p: PlanInput)
    requires KnownCandidate(p) && SelectionUsable(p)
  {
    MediaIndexes(CandidateOf(p).files) - SelectedIndexes(p) != {}
  }

  predicate CanExcludeRest(p: PlanInput)
    requires KnownCandidate(p)
  {
    && p.selectionSupported
    && forall i :: i in MediaIndexes(CandidateOf(p).files) ==> HasSafeSelectionIdentity(CandidateOf(p).files[i])
  }

  function ShapeOf(p: PlanInput): Option<Shape>
    requires KnownCandidate(p)
  {
    CoverageShape(p.kindOf(CandidateOf(p).title), |p.matched.matchedTargetKeys|, |SelectedKeys(p.matched)|,
                  |MediaIndexes(CandidateOf(p).files)|)
  }

  /** The first condition the mapping breaks, if any. */
  ghost function Verdict(p: PlanInput): Option<PlanError> {
    if !KnownCandidate(p) then Some(CandidateUnknown)
    else if !DistinctIdentities(CandidateOf(p).files) then Some(FileIdentityRepeated)
    else if !DistinctScoped(ScopedTargets(p.scope.seasons)) then Some(ScopedTargetRepeated)
    else if !TargetsUsable(p) then Some(TargetsUnusable)
    else if !SelectionUsable(p) then Some(SelectionUnusable)
    else if !FilesDistinct(p) then Some(FileRepeated)
    else if MediaIndexes(CandidateOf(p).files) != {} && SelectedKeys(p.matched) == [] then Some(SelectionMissing)
    else if RequiresSelection(p) && !CanExcludeRest(p) then Some(CannotExclude)
    else if ShapeOf(p).None? then Some(ShapeUnsafe)
    else None
  }

  // ----- the plan of an acceptable mapping

  ghost function ResolvedTargets(p: PlanInput): (r: seq<ScoringTarget>)
    requires TargetsUsable(p)
    ensures |r| == |p.matched.matchedTargetKeys|
    ensures forall i :: 0 <= i < |r| ==> ResolvesTo(p, p.matched.matchedTargetKeys[i], r[i])
  {
    var keys := p.matched.matchedTargetKeys;
    seq(|keys|,
      i requires 0 <= i < |keys| => assert Resolvable(p, keys[i]); var row :| ResolvesTo(p, keys[i], row); row)
  }

  function SelectedFiles(p: PlanInput): (r: seq<FileIdentity>)
    requires KnownCandidate(p) && SelectionUsable(p)
    ensures |r| == |SelectedKeys(p.matched)|
  {
    var keys := SelectedKeys(p.matched);
    seq(|keys|, i requires 0 <= i < |keys| =>
      IdentityOf(CandidateOf(p).files[FileIndexOf(p, keys[i])], FileIndexOf(p, keys[i])))
  }

  function BoundFile(binding: Binding, selected: seq<FileIdentity>, i: nat): Option<FileIdentity> {
    match binding
    case Unbound => None
    case SharedMultiEpisode => if selected != [] then Some(selected[0]) else None
    case Positional => if i < |selected| then Some(selected[i]) else None
  }

  function EntryFor(
      target: ScoringTarget, file: Option<FileIdentity>, binding: Binding, kind: CoverageKind): CoverageEntry {
    match file
    case None => CoverageEntry(target.targetKey, target.canonicalKey, None, None, None, None, kind, High, binding)
    case Some(f) =>
      CoverageEntry(target.targetKey, target.canonicalKey, Some(f.fileKey), f.fileId, f.fileIndex, Some(f.path), kind,
        High, binding)
  }

  function CoverageEntries(
      targets: seq<ScoringTarget>, selected: seq<FileIdentity>, binding: Binding, kind: CoverageKind)
    : (r: seq<CoverageEntry>)
    ensures |r| == |targets|
  {
    seq(|targets|,
      i requires 0 <= i < |targets| => EntryFor(targets[i], BoundFile(binding, selected, i), binding, kind))
  }

  function KeysOf(selected: seq<FileIdentity>): (r: seq<string>)
    ensures |r| == |selected|
  {
    seq(|selected|, i requires 0 <= i < |selected| => selected[i].fileKey)
  }

  ghost function PlannedCoverage(p: PlanInput): CoveragePlan
    requires Verdict(p).None?
  {
    var shape, selected := ShapeOf(p).value, SelectedFiles(p);
    CoveragePlan(
      shape.releaseKind, High, false, RequiresSelection(p), KeysOf(selected),
      CoverageEntries(ResolvedTargets(p), selected, shape.binding, CoverageKindOf(shape.releaseKind)), [], [])
  }

  ghost function PlanOutcome(p: PlanInput): Result<CoveragePlan, PlanError> {
    if Verdict(p).Some? then Failure(Verdict(p).value) else Success(PlannedCoverage(p))
  }

  // ----- the planner itself

  lemma ScopedPrefix(seasons: seq<Season>, n: nat)
    requires n < |seasons|
    ensures ScopedTargets(seasons[..n + 1]) == ScopedTargets(seasons[..n]) + InSeason(seasons[n])
    ensures ScopedTargets(seasons[..n]) <= ScopedTargets(seasons)
    ensures ScopedTargets(seasons[..n + 1]) <= ScopedTargets(seasons)
    decreases |seasons|
  {
    assert seasons[..n + 1][..n] == seasons[..n];
    if n + 1 < |seasons| {
      var front := seasons[..|seasons| - 1];
      assert front[..n] == seasons[..n] && front[..n + 1] == seasons[..n + 1];
      ScopedPrefix(front, n);
    } else {
      assert seasons[..n + 1] == seasons;
    }
  }

  method CheckFileIdentities(files: seq<CandidateFile>) returns (ok: bool)
    ensures ok <==> DistinctIdentities(files)
  {
    var identities := Identities(files);
    var seen: set<string> := {};
    for i := 0 to |files|
      invariant seen == set k | 0 <= k < i :: identities[k].fileKey
      invariant forall k, l :: 0 <= k < l < i ==> identities[k].fileKey != identities[l].fileKey
    {
      if identities[i].fileKey in seen {
        ghost var k :| 0 <= k < i && identities[k].fileKey == identities[i].fileKey;
        assert IdentityOf(files[k], k).fileKey == IdentityOf(files[i], i).fileKey;
        return false;
      }
      seen := seen + {identities[i].fileKey};
    }
    return true;
  }

  /** Indexes the request's targets by key, giving up on a repeated key. */
  method IndexScopedTargets(seasons: seq<Season>) returns (r: Option<map<string, (Season, ContextTarget)>>)
    ensures r.Some? <==> DistinctScoped(ScopedTargets(seasons))
    ensures r.Some? ==> IndexesScoped(r.value, ScopedTargets(seasons))
  {
    hide ScopedTargets;
    var index: map<string, (Season, ContextTarget)> := map[];
    ghost var all := ScopedTargets(seasons);
    ghost var done: seq<(Season, ContextTarget)> := [];
    ScopedOfNone(seasons);
    for s := 0 to |seasons|
      invariant done == ScopedTargets(seasons[..s])
      invariant IndexesScoped(index, done) && DistinctScoped(done)
    {
      var season := seasons[s];
      ghost var base := done;
      ScopedPrefix(seasons, s);
      for t := 0 to |season.targets|
        invariant done == base + InSeason(season)[..t]
        invariant IndexesScoped(index, done) && DistinctScoped(done)
      {
        var target := season.targets[t];
        assert done + [(season, target)] == base + InSeason(season)[..t + 1];
        assert done + [(season, target)] <= base + InSeason(season) <= all;
        RepeatIsVisible(index, done, (season, target), all);
        if target.targetKey in index {
          return None;
        }
        index := index[target.targetKey := (season, target)];
        done := done + [(season, target)];
      }
      assert InSeason(season)[..|season.targets|] == InSeason(season);
    }
    assert seasons[..|seasons|] == seasons;
    return Some(index);
  }

  lemma ScopedOfNone(seasons: seq<Season>)
    ensures ScopedTargets(seasons[..0]) == []
  {
  }

  lemma RepeatIsVisible(index: map<string, (Season, ContextTarget)>, done: seq<(Season, ContextTarget)>,
                        next: (Season, ContextTarget), all: seq<(Season, ContextTarget)>)
    requires IndexesScoped(index, done) && DistinctScoped(done) && done + [next] <= all
    ensures next.1.targetKey in index ==> !DistinctScoped(all)
    ensures next.1.targetKey !in index ==>
              IndexesScoped(index[next.1.targetKey := next], done + [next]) && DistinctScoped(done + [next])
  {
    var longer := done + [next];
    if next.1.targetKey in index {
      var k :| 0 <= k < |done| && done[k].1.targetKey == next.1.targetKey;
      assert all[k] == longer[k] && all[|done|] == longer[|done|];
    } else {
      var index' := index[next.1.targetKey := next];
      forall key | key in index' ensures exists k :: 0 <= k < |longer| && longer[k].1.targetKey == key {
        if key in index {
          var k :| 0 <= k < |done| && done[k].1.targetKey == key;
          assert longer[k].1.targetKey == key;
        } else {
          assert longer[|done|].1.targetKey == key;
        }
      }
      forall k, l | 0 <= k < l < |longer| ensures longer[k].1.targetKey != longer[l].1.targetKey {
        if l == |done| {
          assert done[k].1.targetKey in index;
        }
      }
    }
  }

  ghost predicate IndexesScoped(index: map<string, (Season, ContextTarget)>, scoped: seq<(Season, ContextTarget)>) {
    && (forall k :: 0 <= k < |scoped| ==> scoped[k].1.targetKey in index && index[scoped[k].1.targetKey] == scoped[k])
    && (forall key :: key in index ==> exists k :: 0 <= k < |scoped| && scoped[k].1.targetKey == key)
  }

  /** The single row describing the target; none or several is a refusal. */
  method FindOnlyRow(rows: seq<ScoringTarget>, scoped: (Season, ContextTarget)) returns (r: Option<ScoringTarget>)
    ensures r.Some? <==> exists row :: IsOnlyRow(rows, scoped, row)
    ensures r.Some? ==> IsOnlyRow(rows, scoped, r.value)
  {
    var first := 0;
    while first < |rows| && !IsCanonicalRow(rows[first], scoped)
      invariant 0 <= first <= |rows|
      invariant forall k :: 0 <= k < first ==> !IsCanonicalRow(rows[k], scoped)
    {
      first := first + 1;
    }
    if first == |rows| {
      return None;
    }
    var second := first + 1;
    while second < |rows| && !IsCanonicalRow(rows[second], scoped)
      invariant first < second <= |rows|
      invariant forall k :: first < k < second ==> !IsCanonicalRow(rows[k], scoped)
    {
      second := second + 1;
    }
    if second < |rows| {
      return None;
    }
    assert OnlyRow(rows, scoped, first) && IsOnlyRow(rows, scoped, rows[first]);
    return Some(rows[first]);
  }

  lemma ResolutionIsUnique(p: PlanInput, key: string, a: ScoringTarget, b: ScoringTarget)
    requires DistinctScoped(ScopedTargets(p.scope.seasons))
    requires ResolvesTo(p, key, a) && ResolvesTo(p, key, b)
    ensures a == b
  {
    var s :| Scopes(p, key, s) && IsOnlyRow(p.context.targets, s, a);
    var t :| Scopes(p, key, t) && IsOnlyRow(p.context.targets, t, b);
    ScopedOnce(p, key, s, t);
    var i: nat :| OnlyRow(p.context.targets, s, i) && p.context.targets[i] == a;
    var j: nat :| OnlyRow(p.context.targets, s, j) && p.context.targets[j] == b;
  }

  lemma ScopedOnce(p: PlanInput, key: string, s: (Season, ContextTarget), t: (Season, ContextTarget))
    requires DistinctScoped(ScopedTargets(p.scope.seasons))
    requires Scopes(p, key, s) && Scopes(p, key, t)
    ensures s == t
  {
  }

  lemma ResolvableByIndex(p: PlanInput, index: map<string, (Season, ContextTarget)>, key: string)
    requires DistinctScoped(ScopedTargets(p.scope.seasons))
    requires IndexesScoped(index, ScopedTargets(p.scope.seasons))
    ensures Resolvable(p, key) <==> key in index && exists row :: IsOnlyRow(p.context.targets, index[key], row)
    ensures forall row :: key in index && IsOnlyRow(p.context.targets, index[key], row) ==> ResolvesTo(p, key, row)
  {
    if key in index {
      assert Scopes(p, key, index[key]);
      forall row | IsOnlyRow(p.context.targets, index[key], row) ensures ResolvesTo(p, key, row) {
      }
    }
    if Resolvable(p, key) {
      var row :| ResolvesTo(p, key, row);
      var s :| Scopes(p, key, s) && IsOnlyRow(p.context.targets, s, row);
      assert key in index;
      ScopedOnce(p, key, s, index[key]);
    }
  }

  /** Resolves every matched key back to its row of the scoring graph. */
  method ResolveTargets(
      p: PlanInput, index: map<string, (Season, ContextTarget)>) returns (r: Option<seq<ScoringTarget>>)
    requires DistinctScoped(ScopedTargets(p.scope.seasons))
    requires IndexesScoped(index, ScopedTargets(p.scope.seasons))
    ensures r.Some? <==> TargetsUsable(p)
    ensures r.Some? ==> r.value == ResolvedTargets(p)
  {
    hide ResolvesTo, DistinctScoped, IndexesScoped, ScopedTargets, IsOnlyRow;
    var keys := p.matched.matchedTargetKeys;
    var targets: seq<ScoringTarget> := [];
    var seen: set<string> := {};
    for i := 0 to |keys|
      invariant |targets| == i
      invariant seen == set k | 0 <= k < i :: keys[k]
      invariant forall k, l :: 0 <= k < l < i ==> keys[k] != keys[l]
      invariant forall k :: 0 <= k < i ==> keys[k] in p.target.wantedTargetKeys && ResolvesTo(p, keys[k], targets[k])
    {
      ResolvableByIndex(p, index, keys[i]);
      if keys[i] !in p.target.wantedTargetKeys {
        return None;
      }
      if keys[i] in seen {
        assert exists k :: 0 <= k < i && keys[k] == keys[i];
        return None;
      }
      seen := seen + {keys[i]};
      if keys[i] !in index {
        return None;
      }
      var row := FindOnlyRow(p.context.targets, index[keys[i]]);
      if row.None? {
        return None;
      }
      targets := targets + [row.value];
    }
    if keys == [] {
      return None;
    }
    forall i | 0 <= i < |keys| ensures targets[i] == ResolvedTargets(p)[i] {
      ResolutionIsUnique(p, keys[i], targets[i], ResolvedTargets(p)[i]);
    }
    return Some(targets);
  }

  /** Maps the selected keys to file positions of this candidate. */
  method ResolveFiles(p: PlanInput) returns (r: Option<seq<nat>>)
    requires KnownCandidate(p)
    ensures r.Some? <==> SelectionUsable(p)
    ensures r.Some? ==> |r.value| == |SelectedKeys(p.matched)|
    ensures r.Some? ==> forall i :: 0 <= i < |r.value| ==> r.value[i] == FileIndexOf(p, SelectedKeys(p.matched)[i])
  {
    if p.matched.selectedFileKeys == Some([]) {
      return None;
    }
    var keys := SelectedKeys(p.matched);
    var indexes: seq<nat> := [];
    for i := 0 to |keys|
      invariant |indexes| == i
      invariant forall k :: 0 <= k < i ==> SelectableKey(p, keys[k]) && indexes[k] == FileIndexOf(p, keys[k])
    {
      if !SelectableKey(p, keys[i]) {
        return None;
      }
      indexes := indexes + [FileIndexOf(p, keys[i])];
    }
    return Some(indexes);
  }

  method ModelDerivedCoveragePlan(p: PlanInput) returns (r: Result<CoveragePlan, PlanError>)
    ensures r == PlanOutcome(p)
  {
    hide TargetsUsable, SelectableKey, IsMedia, DistinctIdentities, DistinctScoped, ScopedTargets, CoverageShape,
      HasSafeSelectionIdentity, IdentityOf, CoverageEntries;
    if !KnownCandidate(p) {
      return Failure(CandidateUnknown);
    }
    var candidate := CandidateOf(p);
    var identitiesOk := CheckFileIdentities(candidate.files);
    if !identitiesOk {
      return Failure(FileIdentityRepeated);
    }
    var index := IndexScopedTargets(p.scope.seasons);
    if index.None? {
      return Failure(ScopedTargetRepeated);
    }
    var targets := ResolveTargets(p, index.value);
    if targets.None? {
      return Failure(TargetsUnusable);
    }
    var indexes := ResolveFiles(p);
    if indexes.None? {
      return Failure(SelectionUnusable);
    }
    var media := MediaIndexes(candidate.files);
    var selected := set i | 0 <= i < |indexes.value| :: indexes.value[i];
    assert selected == SelectedIndexes(p);
    DistinctByCounting(indexes.value);
    assert selected == Elements(indexes.value);
    if |selected| != |indexes.value| {
      return Failure(FileRepeated);
    }
    assert FilesDistinct(p);
    SelectionIsMedia(p);
    if media != {} && indexes.value == [] {
      return Failure(SelectionMissing);
    }
    var requiresSelection := media - selected != {};
    if requiresSelection {
      if !p.selectionSupported {
        return Failure(CannotExclude);
      }
      if exists i :: i in media && !HasSafeSelectionIdentity(candidate.files[i]) {
        return Failure(CannotExclude);
      }
    }
    var shape := CoverageShape(p.kindOf(candidate.title), |targets.value|, |indexes.value|, |media|);
    if shape.None? {
      return Failure(ShapeUnsafe);
    }
    var files := SelectedFiles(p);
    var entries := CoverageEntries(targets.value, files, shape.value.binding, CoverageKindOf(shape.value.releaseKind));
    return Success(CoveragePlan(shape.value.releaseKind, High, false, requiresSelection, KeysOf(files), entries, [],
      []));
  }

  /** The planner's check that the selection stays inside the media inventory can never fail. */
  lemma SelectionIsMedia(p: PlanInput)
    requires KnownCandidate(p) && SelectionUsable(p)
    ensures SelectedIndexes(p) <= MediaIndexes(CandidateOf(p).files)
  {
  }

  // ----- what a returned plan guarantees

  /** The entries name exactly the matched targets, in order, without repeats, all of them wanted. */
  lemma EntriesCoverMatchedTargets(p: PlanInput)
    requires Verdict(p).None?
    ensures var entries := PlannedCoverage(p).entries;
            && |entries| == |p.matched.matchedTargetKeys| > 0
            && (forall i :: 0 <= i < |entries| ==> entries[i].targetKey == p.matched.matchedTargetKeys[i])
            && (forall i, j :: 0 <= i < j < |entries| ==> entries[i].targetKey != entries[j].targetKey)
            && (forall i :: 0 <= i < |entries| ==> entries[i].targetKey in p.target.wantedTargetKeys)
  {
    var targets := ResolvedTargets(p);
    forall i | 0 <= i < |targets| ensures targets[i].targetKey == p.matched.matchedTargetKeys[i] {
      assert ResolvesTo(p, p.matched.matchedTargetKeys[i], targets[i]);
    }
  }

  /** Entry `i` is bound to the `i`-th selected file, and the selected files are pairwise different. */
  ghost predicate InjectivelyBound(plan: CoveragePlan) {
    && |plan.entries| == |plan.selectedFileKeys|
    && Distinct(plan.selectedFileKeys)
    && forall i :: 0 <= i < |plan.entries| ==> plan.entries[i].releaseFileKey == Some(plan.selectedFileKeys[i])
  }

  lemma SelectedFileKeysDistinct(p: PlanInput)
    requires KnownCandidate(p) && SelectionUsable(p) && FilesDistinct(p) && DistinctIdentities(CandidateOf(p).files)
    ensures Distinct(KeysOf(SelectedFiles(p)))
  {
    var keys := SelectedKeys(p.matched);
    var selected := SelectedFiles(p);
    forall i, j | 0 <= i < j < |keys| ensures selected[i].fileKey != selected[j].fileKey {
      var a, b := FileIndexOf(p, keys[i]), FileIndexOf(p, keys[j]);
      assert a != b;
      assert IdentityOf(CandidateOf(p).files[a], a).fileKey != IdentityOf(CandidateOf(p).files[b], b).fileKey;
    }
  }

  /** The binding is empty exactly without a media inventory; otherwise it is either one file shared by several
      targets, only for a parsed multi-episode release, or an injective position-by-position map onto exactly the
      selected files; packs always use the injective form. */
  lemma BindingOfReturnedPlan(p: PlanInput)
    requires Verdict(p).None?
    ensures var plan, kind := PlannedCoverage(p), p.kindOf(CandidateOf(p).title);
            var media := MediaIndexes(CandidateOf(p).files);
            && (media == {} <==> forall i :: 0 <= i < |plan.entries| ==> plan.entries[i].releaseFileKey.None?)
            && (media == {} ==> plan.selectedFileKeys == [])
            && (media != {} && !InjectivelyBound(plan) ==>
                  && kind == MultiEpisode && plan.releaseKind == MultiEpisode
                  && |plan.entries| > 1 && |plan.selectedFileKeys| == 1
                  && forall i ::
                    0 <= i < |plan.entries| ==> plan.entries[i].releaseFileKey == Some(plan.selectedFileKeys[0]))
            && (IsPack(kind) ==> media != {} && InjectivelyBound(plan) && plan.releaseKind == kind)
  {
    hide DistinctScoped, ScopedTargets, TargetsUsable, IsMedia, IdentityOf, SelectableKey, CanExcludeRest,
      RequiresSelection,
      DistinctIdentities, FilesDistinct, SelectionUsable;
    var plan, media := PlannedCoverage(p), MediaIndexes(CandidateOf(p).files);
    SelectedFileKeysDistinct(p);
    EntriesCoverMatchedTargets(p);
    assert media != {} ==> plan.entries[0].releaseFileKey.Some?;
  }

  /** The file keys a plan says to fetch name exactly the selected files. */
  ghost predicate FetchesExactly(p: PlanInput, plan: CoveragePlan, indexes: set<nat>)
    requires KnownCandidate(p)
  {
    var files := CandidateOf(p).files;
    forall i :: 0 <= i < |files| ==> (i in indexes <==> IdentityOf(files[i], i).fileKey in plan.selectedFileKeys)
  }

  /** Never silently more than the mapping asked for: either the selected files are all the media files and nothing
      needs excluding, or the surface can exclude and every media file, selected or not,
      can be picked by a non-blank id. */
  lemma PlanNeverOverfetches(p: PlanInput)
    requires Verdict(p).None?
    ensures var plan, files := PlannedCoverage(p), CandidateOf(p).files;
            && FetchesExactly(p, plan, SelectedIndexes(p))
            && SelectedIndexes(p) <= MediaIndexes(files)
            && if !plan.requiresFileSelection then SelectedIndexes(p) == MediaIndexes(files)
               else
                 && SelectedIndexes(p) < MediaIndexes(files)
                 && p.selectionSupported
                 && forall i :: i in MediaIndexes(files) ==>
                      IsSelectable(files[i]) && files[i].fileId.Some? && !Text.IsBlank(files[i].fileId.value)
  {
    hide DistinctIdentities, DistinctScoped, ScopedTargets, TargetsUsable, SelectionUsable, FilesDistinct,
      CoverageShape,
      IsMedia, IsSelectable, Text.IsBlank, SelectedFiles, KeysOf, CoverageEntries, FetchesExactly;
    SelectionIsMedia(p);
    SelectedKeysNameSelectedFiles(p);
    NothingLeftOver(SelectedIndexes(p), MediaIndexes(CandidateOf(p).files));
  }

  lemma NothingLeftOver(part: set<nat>, whole: set<nat>)
    requires part <= whole
    ensures part == whole <==> whole - part == {}
  {
    if whole - part == {} {
      forall i | i in whole ensures i in part {
        assert i !in whole - part;
      }
    }
  }

  lemma SelectedKeysNameSelectedFiles(p: PlanInput)
    requires Verdict(p).None?
    ensures FetchesExactly(p, PlannedCoverage(p), SelectedIndexes(p))
  {
    hide DistinctScoped, ScopedTargets, TargetsUsable, CoverageShape, IsMedia, CoverageEntries, IdentityOf,
      SelectableKey,
      CanExcludeRest;
    var files, selected, keys := CandidateOf(p).files, SelectedFiles(p), SelectedKeys(p.matched);
    forall i | 0 <= i < |files|
      ensures i in SelectedIndexes(p) <==> IdentityOf(files[i], i).fileKey in KeysOf(selected)
    {
      SelectedKeyNamesFile(p, i);
    }
  }

  lemma SelectedKeyNamesFile(p: PlanInput, i: nat)
    requires KnownCandidate(p) && SelectionUsable(p) && DistinctIdentities(CandidateOf(p).files)
    requires i < |CandidateOf(p).files|
    ensures i in SelectedIndexes(p) <==> IdentityOf(CandidateOf(p).files[i], i).fileKey in KeysOf(SelectedFiles(p))
  {
    hide IdentityOf, IsMedia, IsSelectable;
    var files, selected, keys := CandidateOf(p).files, SelectedFiles(p), SelectedKeys(p.matched);
    if i in SelectedIndexes(p) {
      var k :| 0 <= k < |keys| && FileIndexOf(p, keys[k]) == i;
      assert KeysOf(selected)[k] == IdentityOf(files[i], i).fileKey;
    }
    if k :| 0 <= k < |keys| && KeysOf(selected)[k] == IdentityOf(files[i], i).fileKey {
      var j := FileIndexOf(p, keys[k]);
      assert IdentityOf(files[j], j).fileKey == IdentityOf(files[i], i).fileKey;
      assert j == i;
    }
  }

  /** Every plan the model path returns passes the automatic gate. */
  lemma PlanIsDefinitive(p: PlanInput)
    requires Verdict(p).None?
    ensures DeterministicState(PlannedCoverage(p)) == Definitive
  {
    EntriesCoverMatchedTargets(p);
  }

  // ----- converting a whole response

  datatype ModelCoverage = ModelCoverage(candidateIndex: nat, audioProfile: AudioProfile, plan: CoveragePlan)

  /** The inputs shared by all mappings of a response; `supports` is the surface's file-selection capability. */
  datatype BatchInput = BatchInput(
    target: MatchTarget, scope: MatchContext, context: ScoringContext, candidates: seq<Candidate>,
    supports: (nat, Candidate) -> bool, sourceMap: SourceMap, kindOf: string -> ReleaseKind)

  function InputFor(b: BatchInput, m: CandidateMatch): PlanInput {
    var source := b.sourceMap.CandidateSource(m.candidateKey);
    var supported := source.Some? && source.value < |b.candidates| &&
      b.supports(source.value, b.candidates[source.value]);
    PlanInput(b.target, b.scope, b.context, b.candidates, supported, m, b.sourceMap, b.kindOf)
  }

  lemma UnknownCandidateIsRefused(p: PlanInput)
    ensures !KnownCandidate(p) ==> Verdict(p) == Some(CandidateUnknown)
  {
  }

  ghost predicate Convertible(b: BatchInput, matches: seq<CandidateMatch>) {
    forall i :: 0 <= i < |matches| ==> Verdict(InputFor(b, matches[i])).None?
  }

  ghost function CoverageFor(b: BatchInput, m: CandidateMatch): ModelCoverage
    requires Verdict(InputFor(b, m)).None?
  {
    UnknownCandidateIsRefused(InputFor(b, m));
    ModelCoverage(CandidateIndex(InputFor(b, m)), m.audioProfile, PlannedCoverage(InputFor(b, m)))
  }

  /** One plan per mapping, in order, or none at all; a refusal is that of the first refused mapping. */
  method ModelDerivedCoveragePlans(
      b: BatchInput, matches: seq<CandidateMatch>) returns (r: Result<seq<ModelCoverage>, PlanError>)
    ensures r.Success? <==> Convertible(b, matches)
    ensures r.Success? ==> |r.value| == |matches|
    ensures r.Success? ==> forall i :: 0 <= i < |matches| ==> r.value[i] == CoverageFor(b, matches[i])
    ensures r.Failure? ==> exists i :: 0 <= i < |matches| && Convertible(b, matches[..i])
                                       && Verdict(InputFor(b, matches[i])) == Some(r.error)
  {
    hide Verdict, PlannedCoverage;
    var plans: seq<ModelCoverage> := [];
    for i := 0 to |matches|
      invariant |plans| == i
      invariant Convertible(b, matches[..i])
      invariant forall k ::
        0 <= k < i ==> Verdict(InputFor(b, matches[k])).None? && plans[k] == CoverageFor(b, matches[k])
    {
      var p := InputFor(b, matches[i]);
      UnknownCandidateIsRefused(p);
      if !KnownCandidate(p) {
        return Failure(CandidateUnknown);
      }
      var plan := ModelDerivedCoveragePlan(p);
      if plan.Failure? {
        return Failure(plan.error);
      }
      plans := plans + [ModelCoverage(CandidateIndex(p), matches[i].audioProfile, plan.value)];
    }
    return Success(plans);
  }
}
