/** The records the anime matcher, the coverage planner and the qualification harness exchange. */
module AnimeTypes {
  import opened Wrappers
  import Text
  import Decimals
  import opened Json

  // ----- provider candidates (src/http/handlers/acquisition_sources.rs)

  datatype CandidateFile = CandidateFile(
    fileId: Option<string>, fileIndex: Option<int>, path: string, selectable: Option<bool>)

  datatype Candidate = Candidate(title: string, language: Option<string>, files: seq<CandidateFile>, raw: Option<Json>)

  // ----- the matcher's request and response (src/anime_matching/types.rs)

  datatype AliasKind = Canonical | English | Romaji | Native | Synonym | Generated

  datatype Alias = Alias(value: string, kind: AliasKind, source: Option<string>, language: Option<string>)

  datatype ContextTarget = ContextTarget(
    targetKey: string, title: string, seasonNumber: Option<int>, episodeNumber: Option<int>,
    absoluteEpisodeNumber: Option<int>, tvdbEpisodeId: Option<string>, anidbEpisodeId: Option<string>)

  datatype Season = Season(seasonNumber: int, anilistId: string, aliases: seq<Alias>, targets: seq<ContextTarget>)

  datatype MatchContext = MatchContext(graphFingerprint: string, seasons: seq<Season>)

  datatype MatchTarget = MatchTarget(canonicalTitle: string, wantedTargetKeys: seq<string>)

  datatype RequestFile = RequestFile(fileKey: string, path: string)

  datatype RequestCandidate = RequestCandidate(candidateKey: string, title: string, files: seq<RequestFile>)

  datatype MatchRequest = MatchRequest(
    schemaVersion: nat, requestId: string, target: MatchTarget, context: MatchContext,
    candidates: seq<RequestCandidate>)

  datatype AudioProfile = UnknownAudio | DualAudio | Subbed | Dubbed | JaAudioEnSubs | EnAudio

  datatype CandidateMatch = CandidateMatch(
    candidateKey: string, matchedTargetKeys: seq<string>, audioProfile: AudioProfile,
    selectedFileKeys: Option<seq<string>>)

  // ----- the scoring graph (src/acquisition/release_resolution/anime.rs)

  datatype ScoringTarget = ScoringTarget(
    targetKey: string, canonicalKey: Option<string>, title: string, seasonNumber: Option<int>,
    anilistSeasonId: Option<string>, episodeNumber: Option<int>, absoluteEpisodeNumber: Option<int>,
    tvdbEpisodeId: Option<string>, anidbEpisodeId: Option<string>)

  datatype ScopedAlias = ScopedAlias(
    display: string, source: string, language: Option<string>, seasonNumber: Option<int>,
    anilistSeasonId: Option<string>)

  datatype ScoringContext = ScoringContext(
    graphFingerprint: Option<string>, aliases: seq<string>, scopedAliases: seq<ScopedAlias>,
    targets: seq<ScoringTarget>)

  // ----- media files

  predicate HasMediaExtension(path: string) {
    var lower := Text.Lower(path);
    exists e ::
      e in [".mkv", ".mp4", ".avi", ".mov", ".m4v", ".wmv", ".ts", ".m2ts", ".webm"] && Text.EndsWith(lower, e)
  }

  predicate IsSampleOrExtra(path: string) {
    var lower := Text.Lower(path);
    exists p ::
      p in ["/sample", "sample.", "/extras/", "/extra/", " creditless ", " ncop", " nced"] && Text.Contains(lower, p)
  }

  /** A real episode file, selectable or not. */
  predicate IsMedia(file: CandidateFile) {
    HasMediaExtension(file.path) && !IsSampleOrExtra(file.path)
  }

  predicate IsSelectable(file: CandidateFile) {
    file.selectable.GetOr(true)
  }

  predicate IsSelectableMedia(file: CandidateFile) {
    IsSelectable(file) && IsMedia(file)
  }

  // ----- file identity (src/acquisition/anime_matching.rs)

  datatype FileIdentity = FileIdentity(fileKey: string, fileId: Option<string>, fileIndex: Option<int>, path: string)

  /** Keyed by the trimmed id if there is one, else by the index, which defaults to the one-based position. */
  function IdentityOf(file: CandidateFile, ordinal: nat): FileIdentity {
    var index := file.fileIndex.GetOr(ordinal + 1);
    var id := Text.TrimToOption(file.fileId);
    FileIdentity(id.GetOr(Decimals.PrintInt(index)), id, Some(index), file.path)
  }

  function Identities(files: seq<CandidateFile>): (r: seq<FileIdentity>)
    ensures |r| == |files|
    ensures forall i :: 0 <= i < |files| ==> r[i] == IdentityOf(files[i], i)
  {
    seq(|files|, i requires 0 <= i < |files| => IdentityOf(files[i], i))
  }

  /** The file can be picked out of the release by a non-blank id. */
  predicate HasSafeSelectionIdentity(file: CandidateFile) {
    IsSelectable(file) && file.fileId.Some? && !Text.IsBlank(file.fileId.value)
  }

  // ----- source maps (src/anime_matching/types.rs)

  datatype FileSource = FileSource(candidateKey: string, candidateIndex: nat, fileIndex: nat)

  datatype SourceMap = SourceMap(candidates: map<string, nat>, files: map<string, FileSource>) {

    function CandidateSource(key: string): Option<nat> {
      if key in candidates then Some(candidates[key]) else None
    }

    /** A file key answers only for the candidate that owns it. */
    function SourceOfFile(candidateKey: string, fileKey: string): Option<FileSource> {
      if fileKey in files && files[fileKey].candidateKey == candidateKey then Some(files[fileKey]) else None
    }
  }
}
