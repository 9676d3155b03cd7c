# Verified model of the media server's decision core

The server decides who may do what in a home, which release of a show to download, through which download route, and
when a dead download may be replaced. This project models those decisions in Dafny and proves what they promise over
every input and every run. SQL, HTTP, the matching model, the clock and the downloaders appear as arbitrary answers or as
plain state records.

| module | models |
|---|---|
| `Capabilities`, `Authorization` | the 64-bit capability word, role defaults and ceilings, overrides as transactions over override rows, per-profile revisions and an outbox |
| `CoveragePlanner` | turning a model's mapping (candidate, targets, files) into a file-coverage plan |
| `Qualification` | the harness that replays a mapping through permuted requests and source maps, and re-derives the plan |
| `Corpus`, `Json` | freezing a qualification corpus; canonical and strict JSON |
| `MatchContexts` | filing graph targets under AniList seasons and collecting each season's titles |
| `LanguagePolicy`, `ProviderAudio` | language preferences, evidence and their assessment, and the audio verdict on provider files |
| `ScopedAdd` | canonical target keys and the validation of a scoped add |
| `Broker` | provider selection, route records, collision annotation and route resolution |
| `RouteLedger` | the ledger of download routes already tried for a candidate |
| `RecoveryGates`, `RetryBudget`, `RecoveryTargets`, `Recovery` | the recovery worker: dead-download gates, the persisted retry document, target search, fail-over and removal |
| `Wrappers`, `Sequences`, `Text`, `Decimals`, `Ordering`, `Uuids`, `AnimeTypes` | shared data types and facts about them |

Pure code is modelled by functions, loops and in-place updates by methods and classes proved equal to a specification
function or predicate; the theorems are about those specifications. `dafny verify dfyconfig.toml` checks everything.

Where the code differs from what one might expect of it, the model follows the code:

- A record rebuilt from the route ledger carries its original key exactly when trimming the route it was made for did not
  turn it into a default route (`RouteLedger.RebuiltKeyExactlyWhen`): the key's family comes from the route as given, the
  stored route is trimmed. `RouteLedger.UntrimmedDefaultChangesKey` gives a route that loses its key.
- A season-scoped title can appear in another season not only as the show's title or a generated label but also through
  another scoped alias of that season with the same key: `MatchContexts.ScopedAliasStaysInSeason` states the exact
  condition, `MatchContexts.SharedTitleReappears` gives two aliases that do so.
- The default marker and route selection rank providers differently: `Broker.DefaultAgreesExactlyWhen` and, for an
  inventory, `Broker.InventoryAgreesExactlyWhen` state when they agree, `Broker.DefaultAndRouteCanDiffer` shows two
  providers on which they do not.
- The range check on scoped adds bounds the distance of the two ends but does not order them
  (`ScopedAdd.RangeAcceptedExactlyWhen`, `ScopedAdd.BackwardRangeIsAccepted`).
- The sweep of the retry document is saved only when something else changed in the same iteration
  (`RetryBudget.SweepIsSavedOnlyWithAChange`, `RetryBudget.QuietIterationKeepsStaleEntry`).

## Model

| member | source | states |
|---|---|---|
| Capabilities.BitOperationsRefineSets | src/authz.rs:92-138 | inserting and removing a bit of the u64 word is insertion and removal on the mathematical set of capabilities, and nothing else changes |
| Capabilities.AllIsComplete | src/authz.rs:20-66 | the list that parsing and iteration go through leaves no capability out |
| Capabilities.FromIter | src/authz.rs:116-126 | the loop that collects capabilities into a word yields exactly the set listed |
| Capabilities.ParseName | src/authz.rs:67-107 | the stored name of every capability parses back to that capability |
| Capabilities.RoleWordsRefineSets | src/authz.rs:427-495 | each role's default word and override ceiling, built bit by bit, is the intended set; defaults lie inside ceilings |
| Authorization.AuthorizationRepository.SetProfileOverride | src/authz.rs:220-294 | the call is one atomic step of the state machine: it commits as a whole or leaves every table alone, and returns exactly that step's outcome |
| Authorization.AuthorizationRepository.RemoveProfileOverride | src/authz.rs:296-346 | the same for removing an override |
| Authorization.AuthorizationRepository.BumpHomeRevisions | src/authz.rs:390-425 | every profile of the home goes up by one, or none does when one is at the 64-bit limit |
| Authorization.OverrideStepEffect | src/authz.rs:220-346 | a changing call makes exactly one override change, one revision step and one event with that revision; refused and idempotent calls change nothing |
| Authorization.StepIsStamped | src/authz.rs:198-425 | no step lowers a revision, and a profile whose revision it leaves alone keeps all its override rows |
| Authorization.RevisionIsVersionStamp | src/authz.rs:198-425 | in every run, two moments with equal revision for a profile have equal overrides and equal effective capabilities |
| Authorization.EventRevisionsIncrease | src/authz.rs:262-292 | in every run the outbox revisions of a profile strictly increase |
| Authorization.OutboxReplaysOverrides | src/authz.rs:220-346 | replaying the events a run appended on the overrides it started from gives the overrides it ended with |
| Authorization.DecodeEffectiveAuthorization | src/authz.rs:497-535 | the decode loop returns the specified grant or the first failing row's error |
| Authorization.DecodeRowsMeaning | src/authz.rs:497-535 | the result is (role defaults minus denied) plus allowed, whatever the order of the rows |
| Authorization.ReachableWithinCeiling | src/authz.rs:481-495 | every allowed override in a reachable state lies inside its profile's ceiling |
| Authorization.LoadingReachableState | src/authz.rs:198-218 | in every reachable state loading never meets the ceiling error, yields the table's revision and (defaults minus denied) plus allowed, inside the ceiling, and everything for an account owner |
| CoveragePlanner.ModelDerivedCoveragePlan | src/acquisition/anime_matching.rs:332-530 | the builder with its sets, maps and early exits returns the plan exactly when no condition of an acceptable mapping is violated, and that plan |
| CoveragePlanner.EntriesCoverMatchedTargets | src/acquisition/anime_matching.rs:628-665 | the entries are the matched target keys, in order, without repeats, all wanted |
| CoveragePlanner.BindingOfReturnedPlan | src/acquisition/anime_matching.rs:551-665 | no file bound exactly without a media inventory; one shared file only for a parsed multi-episode release; otherwise an injective position-by-position map onto exactly the selected files, always so for packs |
| CoveragePlanner.SelectionIsMedia | src/acquisition/anime_matching.rs:425-470 | the check that selected files are media files can never fail |
| CoveragePlanner.PlanNeverOverfetches | src/acquisition/anime_matching.rs:425-502 | either the selected files are all media files and no selection is required, or it is required and supported and every media file is selectable with a non-blank id |
| CoveragePlanner.PlanIsDefinitive | src/acquisition/anime_matching.rs:141-154 | every returned plan passes the automatic acceptance gate |
| CoveragePlanner.ModelDerivedCoveragePlans | src/acquisition/anime_matching.rs:296-330 | one plan per match, in order, or nothing; the first refused match decides the refusal |
| Qualification.OrderingPermutesCandidates | src/acquisition/anime_qualification.rs:1446-1473 | the ordered request is a permutation; under a non-base seed its key order differs exactly when there are two distinct keys |
| Qualification.PrepareStableRequest | src/acquisition/anime_qualification.rs:1304-1351 | preparation succeeds exactly for preparable requests and yields a source map that names original positions |
| Qualification.SourceMapIsUnique | src/acquisition/anime_qualification.rs:1304-1351 | for requests with the same candidates there is only one such source map |
| Qualification.PreparationIgnoresOrder | src/acquisition/anime_qualification.rs:1304-1351 | whether a request can be prepared does not depend on candidate order |
| Qualification.AcquisitionSourceMap | src/acquisition/anime_qualification.rs:1353-1401 | the adapter copies the source map key by key or fails exactly when it is not adaptable |
| Qualification.AdaptersAgree | src/acquisition/anime_qualification.rs:1353-1401 | adapting a prepared source map always succeeds and gives the same map |
| Qualification.FileSelectionSupport | src/acquisition/anime_qualification.rs:1403-1444 | the support slots are filled, one per original position, exactly as the routes of the permuted candidates say |
| Qualification.SupportIsUnique | src/acquisition/anime_qualification.rs:1403-1444 | two support vectors for the same positions are equal |
| Qualification.SupportIgnoresOrder | src/acquisition/anime_qualification.rs:1403-1444 | whether the support vector can be built does not depend on candidate order (and then it is unique) |
| Qualification.AcceptedModelResolution | src/acquisition/anime_qualification.rs:800-857 | the slot-writing loop yields the baseline with exactly the matched candidates' plans replaced, or the failure the specification gives |
| Qualification.RecheckedGatesHold | src/acquisition/anime_qualification.rs:826-842 | the gates re-checked after planning never fire: each production plan is the looked-up candidate's and is definitive |
| Qualification.HarnessBindingAgrees | src/acquisition/anime_qualification.rs:933-959 | for every accepted mapping the harness's own binding rule gives, entry by entry and through the source map, the production binding |
| Qualification.FinalPlanForResolution | src/acquisition/anime_qualification.rs:961-1030 | the loops over candidate plans build the specified final plan or refuse |
| Qualification.MatchedExactlyWhenDefinitive | src/acquisition/anime_qualification.rs:961-1054 | the union state, computed over the slots and the list of wanted keys, and the final plan's disposition, computed over collected plans and a set, always say the same |
| Qualification.RunModelObservation | src/acquisition/anime_qualification.rs:617-709 | one observation runs preparation, support, resolution and final plan in order and satisfies the observation specification |
| Qualification.ObservationIgnoresOrder | src/acquisition/anime_qualification.rs:617-709 | for the same model answer any two order seeds both fail or reach the same decision and final plan |
| Corpus.ValidateCorpusShape | src/acquisition/anime_qualification.rs:1588-1668 | acceptance is exactly the conjunction of the counting and membership conditions |
| Corpus.AcceptedCorpusIsPartitioned | src/acquisition/anime_qualification.rs:1588-1668 | counting alone forces distinct case ids, three duplicate-free disjoint sets, and every case labelled with the unique set that holds it |
| Corpus.ValidateCaseSelection | src/acquisition/anime_qualification.rs:1522-1586 | the selection is accepted exactly when it is a non-empty proper part of the corpus, duplicate-free, in corpus order, and its fingerprint is that of its canonical JSON; then it is the selected set |
| Corpus.RunCases | src/acquisition/anime_qualification.rs:525-615 | a successful run has one output per selected case in corpus order |
| Corpus.RunReportsSelection | src/acquisition/anime_qualification.rs:525-615 | with an accepted corpus and selection the outputs are exactly the selected ids, in corpus order, once each |
| Json.CanonicalIsSorted | src/acquisition/anime_qualification.rs:2226-2251 | canonical form has strictly increasing names at every depth |
| Json.CanonicalKeepsLookups | src/acquisition/anime_qualification.rs:2234-2251 | looking a name up commutes with canonicalising |
| Json.CanonicalIsSame | src/acquisition/anime_qualification.rs:2234-2251 | the canonical form differs from the value at most in member order; arrays keep theirs |
| Json.CanonicalDecidesSame | src/acquisition/anime_qualification.rs:2226-2251 | two duplicate-free values canonicalise equally exactly when they are equal up to key order |
| Json.CanonicalizeIdempotent | src/acquisition/anime_qualification.rs:2234-2251 | canonicalising twice is canonicalising once |
| Json.DecodeStrict | src/acquisition/anime_qualification.rs:2282-2368 | strict decoding accepts exactly the documents with unique names at every level (section 4 of RFC 8259) and returns them unchanged |
| MatchContexts.SeasonIsNeverOutsideMapping | src/acquisition/anime_matching.rs:1104-1139 | the conflict check of the resolved season against the id's mapped seasons is unreachable |
| MatchContexts.IdentityIsConsistent | src/acquisition/anime_matching.rs:1080-1178 | a resolved identity keeps the target's own id, contradicts no alias that knows the id's season, and every alias naming the id matches the season |
| MatchContexts.AnotherIdCanOwnTheSeason | src/acquisition/anime_matching.rs:1140-1156 | the last conflict check is reachable |
| MatchContexts.InsertAlias | src/acquisition/anime_matching.rs:1181-1196 | scanning and overwriting, skipping or pushing equals the recursive insertion |
| MatchContexts.InsertAllSpec | src/acquisition/anime_matching.rs:1181-1207 | a list built by insertions holds, under pairwise different keys, exactly the first of the most specific insertions for every key |
| MatchContexts.SeasonAliasesSpec | src/acquisition/anime_matching.rs:970-1060 | a season's aliases have pairwise different equivalence keys, are sorted, and are exactly the most specific titles offered |
| MatchContexts.ScopedAliasStaysInSeason | src/acquisition/anime_matching.rs:970-1051 | a title scoped to seasons appears in a season exactly when the show's title, a generated label or a scoped alias of that season has its key |
| MatchContexts.SharedTitleReappears | src/acquisition/anime_matching.rs:970-1051 | two scoped aliases of one spelling put it into a season the first is not scoped to, though neither title nor label has it |
| MatchContexts.TitleIsCanonical | src/acquisition/anime_matching.rs:981-989 | the show's title is in every season as itself, and is the only canonical alias |
| MatchContexts.EveryTargetInOneSeason | src/acquisition/anime_matching.rs:946-968 | every target is in exactly one season, that of its identity; each season's targets are a sorted permutation of its own |
| MatchContexts.BuiltExactlyWhen | src/acquisition/anime_matching.rs:937-968 | a context is built exactly with a non-blank graph fingerprint, a target, and an identity for every target |
| MatchContexts.GroupTargets | src/acquisition/anime_matching.rs:945-965 | the loop files every target or fails with the first target that has no identity |
| MatchContexts.CollectAliases | src/acquisition/anime_matching.rs:980-1060 | the insertion loops for one season produce exactly its specified alias list |
| MatchContexts.BuildMatchContext | src/acquisition/anime_matching.rs:932-1078 | the in-place builder produces the specified context or error |
| ProviderAudio.AcquisitionCandidateLanguageEvidence | src/acquisition/anime_matching.rs:1316-1360 | the evidence loops collect exactly the specified evidence |
| ProviderAudio.VerdictIgnoresUnselectedFiles | src/acquisition/anime_matching.rs:766-833 | under a required preference with files selected, replacing unselected files by unselected ones changes neither assessment nor gate |
| ProviderAudio.SelectionWithoutFilesIsGated | src/acquisition/anime_matching.rs:766-833 | for a release that lists files, a required preference is never satisfied by a selection that names none of them |
| LanguagePolicy.NormalizeLanguageIdempotent | src/acquisition/language_policy.rs:610-622 | normalising a normalised language changes nothing |
| LanguagePolicy.NormalizedIdempotent | src/acquisition/language_policy.rs:250-256 | normalising a preference twice is normalising it once |
| LanguagePolicy.NormalizedIsNeverDefault | src/acquisition/language_policy.rs:182-205 | a normalised preference never equals the built-in default, whose profiles are unsorted |
| LanguagePolicy.PreferenceStore.Save | src/acquisition/language_policy.rs:320-336 | saving always writes the normalised preference; the delete branch is never taken |
| LanguagePolicy.PreferenceStore.Load | src/acquisition/language_policy.rs:308-318 | loading yields the stored preference normalised, or the default when nothing usable is stored |
| LanguagePolicy.PreferenceRoundTrip | src/acquisition/language_policy.rs:848-860 | a preference's JSON decodes to the preference |
| LanguagePolicy.SaveThenLoad | src/acquisition/language_policy.rs:308-336 | loading after saving returns the normalised preference |
| LanguagePolicy.AddLanguageEvidenceText | src/acquisition/language_policy.rs:460-481 | the token loop adds exactly the languages and profiles the text's tokens signal |
| LanguagePolicy.MoreEvidenceKeepsMatch | src/acquisition/language_policy.rs:509-608 | more evidence never loses a match nor lowers a matched score |
| LanguagePolicy.ScoreBands | src/acquisition/language_policy.rs:509-608 | over the reals the clamp never bites and each state has its own band of scores |
| LanguagePolicy.StatesRankScores | src/acquisition/language_policy.rs:509-608 | every match outscores every unknown, which outscores every mismatch, across preferences and media types |
| ScopedAdd.CanonicalSpellsDenotation | src/acquisition/scoped_add.rs:421-508 | a key canonicalises exactly when it denotes a target, and then spells it |
| ScopedAdd.PrintedTargetDenotesItself | src/acquisition/scoped_add.rs:421-508 | a printed target parses back to itself for every positive 32-bit number |
| ScopedAdd.CanonicalIdempotent | src/acquisition/scoped_add.rs:421-442 | canonicalising a canonical key changes nothing |
| ScopedAdd.CanonicalDecidesTarget | src/acquisition/scoped_add.rs:421-442 | two keys canonicalise equally exactly when they denote the same target |
| ScopedAdd.CanonicalTargetKeys | src/acquisition/scoped_add.rs:409-419 | the loop keeps the first occurrence of every canonical key, or fails at the first bad key |
| ScopedAdd.FirstOccurrencesSpec | src/acquisition/scoped_add.rs:409-419 | the list without repeats has the same members, once each |
| ScopedAdd.FirstOccurrencesInOrder | src/acquisition/scoped_add.rs:409-419 | its members stand in order of their first occurrence |
| ScopedAdd.CanonicalKeysIdempotent | src/acquisition/scoped_add.rs:409-419 | the key list is duplicate-free and stays as it is when canonicalised again |
| ScopedAdd.NormalizedScopedAliases | src/acquisition/scoped_add.rs:131-142 | the loop keeps the first spelling of every alias up to letter case |
| ScopedAdd.MediaValidationIdempotent | src/acquisition/scoped_add.rs:115-142 | validating a media identity twice equals once |
| ScopedAdd.SelectionValidationIdempotent | src/acquisition/scoped_add.rs:171-235 | validating a selection twice equals once |
| ScopedAdd.RangeAcceptedExactlyWhen | src/acquisition/scoped_add.rs:467-488 | a range is accepted exactly when both ends are given, positive and at most 2000 apart, in either order |
| ScopedAdd.BackwardRangeIsAccepted | src/acquisition/scoped_add.rs:482-488 | a range from 5 to 1 is accepted |
| ScopedAdd.DoubleValidationIsSingle | src/acquisition/scoped_add.rs:268-296 | building the scope document validates twice, and the second pass neither rejects nor alters anything |
| Broker.AnnotateRouteCollisions | src/download_broker.rs:873-969 | the in-place pair scan and its work list leave every route annotated by exactly its own collisions, in table order |
| Broker.AnnotationIsExact | src/download_broker.rs:873-969 | a route without collision is only marked clear; a colliding one keeps its blocker or gets its first collision's, lists all of them, and loses the clear mark; nothing else changes |
| Broker.BlockedExactlyWhenColliding | src/download_broker.rs:873-969 | blocked exactly when blocked before or colliding; clear exactly when eligible and not colliding |
| Broker.BothCollidingRoutesAreBlocked | src/download_broker.rs:884-955 | both routes of every collision are blocked |
| Broker.UnblockedRoutesStayApart | src/download_broker.rs:884-955 | two routes left unblocked on one provider differ in category ignoring case, and in unshared path |
| Broker.ResolvedRoutesStayApart | src/download_broker.rs:400-446 | two extension requests resolved to one provider through different routes have different categories |
| Broker.FreshRoute | src/download_broker.rs:602-763 | a new route is unblocked exactly when it has a usable provider, is not marked clear, and has a category if an extension owns it |
| Broker.SelectionIsBest | src/download_broker.rs:765-796 | the bound provider, else the least by health, kind, extension and id among those accepted; none when there is none or a debrid choice is ambiguous |
| Broker.SelectionIgnoresOrder | src/download_broker.rs:765-796 | the listing order of providers never decides the selection |
| Broker.MarkSelectedDefaults | src/download_broker.rs:1155-1190 | the in-place marking flags, per role, exactly the records with the default provider's id and touches nothing else |
| Broker.DefaultIsBest | src/download_broker.rs:1170-1190 | a role's default is the least by kind, health, extension and id of its providers; none when it has none or a debrid role has several |
| Broker.OneDefaultPerRole | src/download_broker.rs:1155-1168 | with distinct provider ids the marked record of a role is the default itself and no other |
| Broker.DefaultAgreesExactlyWhen | src/download_broker.rs:765-1207 | a role's marked default and what its unbound route selects agree exactly when, for debrid, role and logical id are both or both not down to one provider, and otherwise there is none, or an all-round best under the logical id that holds against the rest |
| Broker.InventoryAgreesExactlyWhen | src/download_broker.rs:238-290 | in an inventory, where logical ids match roles, they agree exactly for debrid, for a role without providers, or when some provider is best in both kind and health |
| Broker.DefaultAndRouteCanDiffer | src/download_broker.rs:765-1207 | a degraded managed client is the default while a healthy external one is selected |
| Broker.RouteOwnerSlug | src/download_broker.rs:1014-1029 | the character loop computes the specified slug |
| Broker.SlugIdempotent | src/download_broker.rs:1014-1029 | a slug is non-empty, lower-case, single-dashed, undashed at its ends, and its own slug |
| RouteLedger.RecordReadsBack | src/acquisition/route_attempts.rs:71-117 | a written record reads back field by field |
| RouteLedger.AttachSpendsExactly | src/acquisition/route_attempts.rs:152-179 | attaching adds exactly the new keys to the spent ones if and only if the evidence is an object or nothing is attached |
| RouteLedger.RunOfAttachesSpendsExactly | src/acquisition/route_attempts.rs:152-286 | the same over any sequence of attaches for one fingerprint |
| RouteLedger.AttachForgetsOtherCandidates | src/acquisition/route_attempts.rs:152-179 | after attaching for one fingerprint nothing is spent for any other |
| RouteLedger.AttachKeepsTheRest | src/acquisition/route_attempts.rs:152-179 | everything but the ledger is untouched |
| RouteLedger.Evidence.AttachLedger | src/acquisition/route_attempts.rs:152-179 | the in-place edit of the evidence is the specified one |
| RouteLedger.Evidence.SeedLedger | src/acquisition/route_attempts.rs:181-200 | the in-place seeding of the evidence is the specified one |
| RouteLedger.SeedCarriesSpentKeys | src/acquisition/route_attempts.rs:181-211 | seeding from a candidate's ledger carries over exactly what was spent on it |
| RouteLedger.PlanKeepsSpentKeys | src/acquisition/route_attempts.rs:237-255 | copying the ledger into a coverage plan preserves the spent keys of every fingerprint |
| RouteLedger.PlanKeepsTheRest | src/acquisition/route_attempts.rs:237-255 | everything else in an object plan is untouched |
| RouteLedger.ReproducibleExactlyWhen | src/acquisition/route_attempts.rs:43-140 | a new record's key is the one its stored fields give exactly when trimming its route does not make it a default route |
| RouteLedger.RebuiltKeyExactlyWhen | src/acquisition/route_attempts.rs:43-235 | attached and rebuilt from the evidence, a new record has its original key exactly under that condition |
| RouteLedger.UntrimmedDefaultChangesKey | src/acquisition/route_attempts.rs:43-235 | a record made for an untrimmed default route comes back with another key |
| RouteLedger.AttachKeepsWritten | src/acquisition/route_attempts.rs:152-179 | attaching rebuildable records keeps the ledger a list of such records |
| RouteLedger.RebuiltByDownload | src/acquisition/route_attempts.rs:213-235 | a record rebuilt by download id has the key, provider and implementation of that download's newest attempt |
| RouteLedger.RebuiltSpendsNothingNew | src/acquisition/route_attempts.rs:213-352 | any record rebuilt from the ledger repeats a spent key, so recording it again spends nothing new |
| RecoveryGates.EarlyDeadMeansNothingFetched | src/acquisition/mod.rs:1293-1326 | the early-dead gate holds exactly when no article was fetched, at least 200 failed, and the time and size bounds hold |
| RecoveryGates.LogConfirmsDeadRelease | src/acquisition/mod.rs:1328-1374 | the loop with early exit answers yes exactly when at least three log lines confirm |
| RecoveryGates.IndexGroups | src/acquisition/mod.rs:1149-1206 | the loop builds the specified job index |
| RecoveryGates.GroupIndexIsFirst | src/acquisition/mod.rs:1149-1206 | the index answers with the first listed job carrying the id |
| RecoveryGates.IndexTorrents | src/acquisition/mod.rs:1096-1147 | the loop builds the specified torrent index |
| RecoveryGates.TorrentIndexIsLast | src/acquisition/mod.rs:1096-1147 | the index answers with the last listed torrent of the normalised hash |
| RetryBudget.PreparedEntry | src/acquisition/mod.rs:295-323 | the sweep and reset keep an entry of the same manager item as it is and make any other anew |
| RetryBudget.EntryEvolves | src/acquisition/mod.rs:264-475 | across any step a live entry changes only by a recorded, permitted request |
| RetryBudget.RetriesStayWithinBudget | src/acquisition/mod.rs:264-475 | in every run of document steps, within one lifetime of an entry, at most two requests, for different downloads, at least 180 seconds apart, whether or not they succeed |
| RetryBudget.RequestsAreStored | src/acquisition/mod.rs:442-472 | every request is followed by a stored entry for its intent and manager item |
| RetryBudget.SweepIsSavedOnlyWithAChange | src/acquisition/mod.rs:305-312 | the entry of an inactive intent leaves storage exactly when the iteration changed something else |
| RetryBudget.QuietIterationKeepsStaleEntry | src/acquisition/mod.rs:305-472 | an iteration with nothing to recover keeps a stale entry stored |
| RecoveryTargets.HistoryIdIsOfDownload | src/acquisition/mod.rs:1453-1506 | the history id that is failed is that of a record of this very download and item |
| RecoveryTargets.StepMarksAreRequests | src/acquisition/mod.rs:422-440 | the fail-and-retry requests a step stands for are, intent by intent, those its entry is charged with |
| RecoveryTargets.AccountedStays | src/acquisition/mod.rs:264-475 | what justified or excused an intent stays true as the session fetches more |
| Recovery.Session.IsNzbgetCandidate | src/acquisition/mod.rs:1240-1277 | dead exactly by the hard gate, or by the early gate confirmed by the log read by that call |
| Recovery.Session.FindNzbgetTarget | src/acquisition/mod.rs:867-959 | a target is the item's queued NZBGet download, on record in the history, and, when required, dead by its gate and the log as read; no target only if nothing is queued, or it is not dead or not on record; a failure only if a call failed |
| Recovery.Session.FindQbittorrentTarget | src/acquisition/mod.rs:961-1059 | a target is the item's queued torrent, on record, in the snapshot without local payload and, when required, a candidate by the clock as read; no target only for one of these reasons; a failure only if a call failed |
| Recovery.Session.IsTorrentEligible | src/acquisition/mod.rs:1009-1034 | eligible means present without payload and, when required, a candidate at the clock reading taken; otherwise the snapshot or that reading spares it |
| Recovery.Session.FindTarget | src/acquisition/mod.rs:367-416 | the first downloader's target, else the second's; none only if both have none |
| Recovery.Session.CleanUp | src/acquisition/mod.rs:750-839 | exactly the removal of the target from its own downloader, if that is set up and the id is not blank |
| Recovery.Session.FailOver | src/acquisition/mod.rs:422-440 | exactly one request, for the target's history entry, and the clean-up exactly when it was accepted |
| Recovery.Session.ExecuteReleaseRecovery | src/acquisition/mod.rs:505-748 | on every path torrent removals are safe, and the report is true: what was failed or removed is the intent's own queued download, or a failed record of its item, or what the queue shows |
| Recovery.Session.LastResortSearch | src/acquisition/mod.rs:677-747 | exactly: a queued torrent with payload is left alone and nothing is done; otherwise the one removal the queue page calls for, and then the search; a reported removal was made |
| Recovery.Session.RemoveQueued | src/acquisition/mod.rs:691-729 | left alone exactly for payload in the snapshot; otherwise exactly the removal called for |
| Recovery.Session.Recover | src/acquisition/mod.rs:325-440 | one request, for the intent's own queued download, on record and dead by its gate, when retries, cooldown and last download allow it; without a request one of those, a missing manager, a failed call or the lack of a target is the reason |
| Recovery.Session.RunIteration | src/acquisition/mod.rs:264-475 | an iteration is a valid step of the retry document; the requests it issued are, in order, those its outcomes record, each due by what was fetched, and no intent is passed over without a reason |
| Recovery.FindAnotherRelease | src/acquisition/mod.rs:221-233 | a user's request clears the entry exactly when it succeeds and removes torrents only safely |
| Recovery.RunWorker | src/acquisition/mod.rs:202-233 | over the worker's whole life the steps are what its sessions did; the requests the sessions issued stay within budget in every lifetime of an entry; and no session removed a torrent with payload in its snapshot |
| Recovery.IssuedAreCharged | src/acquisition/mod.rs:202-475 | the requests issued by the sessions of a stretch of ticks are those charged to the entry over that stretch |

## Left out

- SQL text, connection pools, HTTP, JSON-RPC and Docker: state records, atomic steps and arbitrary answers stand for them.
- Unicode normalisation in title equivalence keys, the title parser, digests and encoded sizes: parameters.
- Scoping a match context to the wanted target: not part of this model. The matching service's fallback is modelled only as far as it decides an observation of the qualification harness.
- Role and membership changes: roles and profile types are fixed during a run.
- Concurrent interleaving of a user's request with the recovery loop: both load and save the document unlocked, and are modelled one after the other.
- Failed saves of the retry document: a failed save ends the worker's run.
- A user's own fail-and-retry requests are not counted against the retry budget; the code does not count them either.
- Error message texts: refusals are told apart by the condition that caused them.
- Array-shaped and externally tagged spellings that the JSON decoder would also accept for a stored preference: decoding covers the object form that saving writes.
- Floating-point rounding in scores and progress values: modelled over the reals.
- Case input validation in the qualification harness beyond what preparation uses, identity checks, hashing, GPU evidence and file writing: lists of equality tests and I/O.
- Storing a route update and the provider inventory query: thin wrappers around the modelled functions.
- Secrets, sessions, configuration, metrics, artwork and streaming modules: mostly I/O or easy members.
