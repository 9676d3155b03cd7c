/** The qualification harness: permuted requests, source maps, and the plan an accepted model answer produces
    (src/acquisition/anime_qualification.rs). */
module Qualification {
  import opened Wrappers
  import opened Sequences
  import opened Ordering
  import Text
  import opened AnimeTypes
  import CP = CoveragePlanner
  import LP = LanguagePolicy

  const SchemaVersion: nat := 1
  const MaxCandidates: nat := 25
  const MaxRequestBytes: nat := 16 * 1024

  /** What lies outside the harness: digests, encoded sizes, the title parser, and the stream review rule. */
  datatype Externals = Externals(
    digest: (nat, string) -> string, envelopeSize: MatchRequest -> nat, candidateSize: RequestCandidate -> nat,
    kindOf: string -> CP.ReleaseKind, needsManualReview: Candidate -> bool)

  function KeyOf(c: RequestCandidate): string {
    c.candidateKey
  }

  // ----- the permuted request

  function RotateLeft<T>(s: seq<T>): seq<T>
    requires s != []
  {
    s[1..] + [s[0]]
  }

  function OrderedRequest(request: MatchRequest, orderSeed: nat, baseSeed: nat, ext: Externals): MatchRequest
    requires request.candidates != []
  {
    if orderSeed == baseSeed then request
    else
      var sorted := SortBy((c: RequestCandidate) => ext.digest(orderSeed, c.candidateKey), request.candidates);
      SortByPermutes((c: RequestCandidate) => ext.digest(orderSeed, c.candidateKey), request.candidates);
      PermutationMembers(sorted, request.candidates);
      if Map(KeyOf, sorted) == Map(KeyOf, request.candidates) then request.(candidates := RotateLeft(sorted))
      else request.(candidates := sorted)
  }

  lemma RotationPermutes<T>(s: seq<T>)
    requires s != []
    ensures Permutation(RotateLeft(s), s)
  {
    assert s == [s[0]] + s[1..];
  }

  /** A list that a rotation leaves alone repeats one value. */
  lemma {:induction false} FixedRotationIsConstant<T>(s: seq<T>, i: nat)
    requires s != [] && RotateLeft(s) == s && i < |s|
    ensures s[i] == s[0]
  {
    if i > 0 {
      FixedRotationIsConstant(s, i - 1);
      assert RotateLeft(s)[i - 1] == s[i];
    }
  }

  /** Whatever the seed, the ordered request holds the original candidates and nothing else has changed; under another
      seed than the base the key order differs exactly when there are two different keys to tell apart. */
  lemma OrderingPermutesCandidates(request: MatchRequest, orderSeed: nat, baseSeed: nat, ext: Externals)
    requires request.candidates != []
    ensures var ordered := OrderedRequest(request, orderSeed, baseSeed, ext);
            && Permutation(ordered.candidates, request.candidates)
            && ordered == request.(candidates := ordered.candidates)
            && (orderSeed != baseSeed ==>
                  (Map(KeyOf, ordered.candidates) != Map(KeyOf, request.candidates) <==>
                     exists i, j :: 0 <= i < j < |request.candidates|
                                    && KeyOf(request.candidates[i]) != KeyOf(request.candidates[j])))
  {
    hide SortBy;
    if orderSeed != baseSeed {
      var rank := (c: RequestCandidate) => ext.digest(orderSeed, c.candidateKey);
      var original, sorted := request.candidates, SortBy(rank, request.candidates);
      SortByPermutes(rank, original);
      PermutationMembers(sorted, original);
      if Map(KeyOf, sorted) == Map(KeyOf, original) {
        RotationPermutes(sorted);
        var keys := Map(KeyOf, sorted);
        assert Map(KeyOf, RotateLeft(sorted)) == RotateLeft(keys);
        if RotateLeft(keys) == keys {
          forall i | 0 <= i < |keys| ensures keys[i] == keys[0] {
            FixedRotationIsConstant(keys, i);
          }
        } else {
          NonConstantHasTwo(keys);
        }
      } else {
        NonConstantDiffers(sorted, original);
      }
    }
  }

  lemma NonConstantHasTwo(keys: seq<string>)
    requires keys != [] && RotateLeft(keys) != keys
    ensures exists i, j :: 0 <= i < j < |keys| && keys[i] != keys[j]
  {
    var k :| 0 <= k < |keys| && RotateLeft(keys)[k] != keys[k];
    if k + 1 < |keys| {
      assert keys[k] != keys[k + 1];
    } else {
      assert keys[0] != keys[k];
    }
  }

  lemma NonConstantDiffers(a: seq<RequestCandidate>, b: seq<RequestCandidate>)
    requires Permutation(a, b) && Map(KeyOf, a) != Map(KeyOf, b)
    ensures exists i, j :: 0 <= i < j < |b| && KeyOf(b[i]) != KeyOf(b[j])
  {
    PermutationMembers(a, b);
    var k :| 0 <= k < |a| && KeyOf(a[k]) != KeyOf(b[k]);
    assert a[k] in b;
    var l :| 0 <= l < |b| && b[l] == a[k];
    assert KeyOf(b[l]) != KeyOf(b[k]);
    assert l < k || k < l;
  }

  // ----- what a request must satisfy

  predicate FileKeysUnique(cs: seq<RequestCandidate>) {
    forall c, d | c in cs && d in cs ::
      forall i, j | 0 <= i < |c.files| && 0 <= j < |d.files| :: SameFileKey(c, i, d, j) ==> c == d && i == j
  }

  predicate SameFileKey(c: RequestCandidate, i: nat, d: RequestCandidate, j: nat) {
    i < |c.files| && j < |d.files| && c.files[i].fileKey == d.files[j].fileKey
  }

  function EncodedSize(r: MatchRequest, ext: Externals): nat {
    ext.envelopeSize(r.(candidates := [])) + Sum(ext.candidateSize, r.candidates)
    + if |r.candidates| > 1 then |r.candidates| - 1 else 0
  }

  predicate ScopeValid(target: MatchTarget, context: MatchContext) {
    var scoped := CP.ScopedTargets(context.seasons);
    && !Text.IsBlank(target.canonicalTitle)
    && !Text.IsBlank(context.graphFingerprint)
    && target.wantedTargetKeys != []
    && Distinct(target.wantedTargetKeys)
    && (forall i :: 0 <= i < |target.wantedTargetKeys| ==> !Text.IsBlank(target.wantedTargetKeys[i]))
    && (forall i :: 0 <= i < |scoped| ==> !Text.IsBlank(scoped[i].1.targetKey))
    && CP.DistinctScoped(scoped)
    && (forall key :: key in target.wantedTargetKeys ==> exists i :: 0 <= i < |scoped| && scoped[i].1.targetKey == key)
  }

  predicate CandidateValid(c: RequestCandidate) {
    !Text.IsBlank(c.title) && forall i :: 0 <= i < |c.files| ==> !Text.IsBlank(c.files[i].path)
  }

  predicate RequestValid(r: MatchRequest, ext: Externals) {
    && r.schemaVersion == SchemaVersion
    && !Text.IsBlank(r.requestId)
    && ScopeValid(r.target, r.context)
    && 0 < |r.candidates| <= MaxCandidates
    && EncodedSize(r, ext) <= MaxRequestBytes
    && DistinctBy(KeyOf, r.candidates)
    && (forall c :: c in r.candidates ==> CandidateValid(c))
    && FileKeysUnique(r.candidates)
  }

  // ----- source maps

  /** The positions of the files a request may offer, in order. */
  function SelectableIndexes(files: seq<CandidateFile>): (r: seq<nat>)
    ensures forall i :: 0 <= i < |r| ==> r[i] < |files|
  {
    if files == [] then []
    else
      var last := |files| - 1;
      SelectableIndexes(files[..last]) + if IsSelectableMedia(files[last]) then [last] else []
  }

  /** The request lists exactly the provider candidate's selectable files, in order. */
  predicate Bindable(rc: RequestCandidate, c: Candidate) {
    var indexes := SelectableIndexes(c.files);
    |rc.files| == |indexes| && forall i :: 0 <= i < |indexes| ==> rc.files[i].path == c.files[indexes[i]].path
  }

  /** Collecting keys into a map keeps the last position of each. */
  function LastIndexOf(keys: seq<string>, key: string): (r: Option<nat>)
    ensures r.Some? ==> r.value < |keys| && keys[r.value] == key
    ensures r.Some? <==> key in keys
  {
    if keys == [] then None
    else if keys[|keys| - 1] == key then Some(|keys| - 1)
    else LastIndexOf(keys[..|keys| - 1], key)
  }

  predicate Placed(baseKeys: seq<string>, candidates: seq<Candidate>, c: RequestCandidate) {
    var index := LastIndexOf(baseKeys, c.candidateKey);
    index.Some? && index.value < |candidates| && Bindable(c, candidates[index.value])
  }

  function SourceFor(baseKeys: seq<string>, candidates: seq<Candidate>, c: RequestCandidate, i: nat): FileSource
    requires Placed(baseKeys, candidates, c) && i < |c.files|
  {
    var index := LastIndexOf(baseKeys, c.candidateKey).value;
    FileSource(c.candidateKey, index, SelectableIndexes(candidates[index].files)[i])
  }

  ghost predicate Preparable(base: MatchRequest, ordered: MatchRequest, candidates: seq<Candidate>, ext: Externals) {
    && |Elements(Map(KeyOf, base.candidates))| == |candidates|
    && (forall c :: c in ordered.candidates ==> Placed(Map(KeyOf, base.candidates), candidates, c))
    && RequestValid(ordered, ext)
  }

  ghost predicate IsSourceOf(
      baseKeys: seq<string>, candidates: seq<Candidate>, c: RequestCandidate, i: nat, key: string, s: FileSource) {
    && i < |c.files| && c.files[i].fileKey == key
    && Placed(baseKeys, candidates, c) && s == SourceFor(baseKeys, candidates, c, i)
  }

  ghost predicate HasSource(
      baseKeys: seq<string>, cs: seq<RequestCandidate>, candidates: seq<Candidate>, key: string, s: FileSource) {
    exists c, i: nat :: c in cs && IsSourceOf(baseKeys, candidates, c, i, key, s)
  }

  ghost predicate KeysPlaced(baseKeys: seq<string>, cs: seq<RequestCandidate>, placed: map<string, nat>) {
    && (forall key :: key in placed <==> exists c :: c in cs && c.candidateKey == key)
    && (forall key :: key in placed ==> LastIndexOf(baseKeys, key) == Some(placed[key]))
  }

  ghost predicate FilesListed(cs: seq<RequestCandidate>, files: map<string, FileSource>) {
    forall c, i :: c in cs && 0 <= i < |c.files| ==> c.files[i].fileKey in files
  }

  /** The map sends every candidate key to its base position and every file key to the file it was listed for. */
  ghost predicate SourceMapFor(
      baseKeys: seq<string>, cs: seq<RequestCandidate>, candidates: seq<Candidate>, sm: SourceMap) {
    && KeysPlaced(baseKeys, cs, sm.candidates)
    && FilesListed(cs, sm.files)
    && forall key :: key in sm.files ==> HasSource(baseKeys, cs, candidates, key, sm.files[key])
  }

  lemma HasSourceGrows(baseKeys: seq<string>, cs: seq<RequestCandidate>, more: seq<RequestCandidate>,
      candidates: seq<Candidate>,
                       key: string, s: FileSource)
    requires HasSource(baseKeys, cs, candidates, key, s)
    requires forall c :: c in cs ==> c in more
    ensures HasSource(baseKeys, more, candidates, key, s)
  {
  }

  method PrepareStableRequest(base: MatchRequest, ordered: MatchRequest, candidates: seq<Candidate>, ext: Externals)
    returns (r: Option<SourceMap>)
    ensures r.Some? <==> Preparable(base, ordered, candidates, ext)
    ensures r.Some? ==> SourceMapFor(Map(KeyOf, base.candidates), ordered.candidates, candidates, r.value)
  {
    hide RequestValid, Bindable, LastIndexOf, SelectableIndexes;
    var keys := Map(KeyOf, base.candidates);
    if |Elements(keys)| != |candidates| {
      return None;
    }
    var sm := SourceMap(map[], map[]);
    for k := 0 to |ordered.candidates|
      invariant forall c :: c in ordered.candidates[..k] ==> Placed(keys, candidates, c)
      invariant SourceMapFor(keys, ordered.candidates[..k], candidates, sm)
    {
      var c := ordered.candidates[k];
      ghost var done := ordered.candidates[..k];
      assert ordered.candidates[..k + 1] == done + [c];
      if !Placed(keys, candidates, c) {
        return None;
      }
      var files := ListFiles(keys, candidates, c, sm.files, done);
      var index := LastIndexOf(keys, c.candidateKey).value;
      sm := SourceMap(sm.candidates[c.candidateKey := index], files);
    }
    assert ordered.candidates[..|ordered.candidates|] == ordered.candidates;
    if !RequestValid(ordered, ext) {
      return None;
    }
    return Some(sm);
  }

  /** The inner loop of the preparation: one candidate's files. */
  method ListFiles(keys: seq<string>, candidates: seq<Candidate>, c: RequestCandidate, before: map<string, FileSource>,
                   ghost done: seq<RequestCandidate>)
    returns (files: map<string, FileSource>)
    requires Placed(keys, candidates, c)
    requires FilesListed(done, before)
    requires forall key :: key in before ==> HasSource(keys, done, candidates, key, before[key])
    ensures FilesListed(done + [c], files)
    ensures forall key :: key in files ==> HasSource(keys, done + [c], candidates, key, files[key])
  {
    hide LastIndexOf, SelectableIndexes, HasSource, SourceFor, Placed;
    files := before;
    forall key | key in files ensures HasSource(keys, done + [c], candidates, key, files[key]) {
      HasSourceGrows(keys, done, done + [c], candidates, key, files[key]);
    }
    for i := 0 to |c.files|
      invariant FilesListed(done, files)
      invariant forall j :: 0 <= j < i ==> c.files[j].fileKey in files
      invariant forall key :: key in files ==> HasSource(keys, done + [c], candidates, key, files[key])
    {
      var source := SourceFor(keys, candidates, c, i);
      ListedFileHasSource(keys, candidates, c, i, done);
      files := files[c.files[i].fileKey := source];
    }
  }

  /** The source a file is listed with is one of its sources. */
  lemma ListedFileHasSource(
      keys: seq<string>, candidates: seq<Candidate>, c: RequestCandidate, i: nat, done: seq<RequestCandidate>)
    requires Placed(keys, candidates, c) && i < |c.files|
    ensures HasSource(keys, done + [c], candidates, c.files[i].fileKey, SourceFor(keys, candidates, c, i))
  {
    hide LastIndexOf, SelectableIndexes, SourceFor;
    assert c in done + [c] && IsSourceOf(keys, candidates, c, i, c.files[i].fileKey, SourceFor(keys, candidates, c, i));
  }

  /** For requests that list the same candidates there is only one such source map. */
  lemma SourceMapIsUnique(baseKeys: seq<string>, cs: seq<RequestCandidate>, ds: seq<RequestCandidate>,
      candidates: seq<Candidate>,
                          a: SourceMap, b: SourceMap)
    requires Permutation(cs, ds) && FileKeysUnique(cs)
    requires SourceMapFor(baseKeys, cs, candidates, a) && SourceMapFor(baseKeys, ds, candidates, b)
    ensures a == b
  {
    hide LastIndexOf, SelectableIndexes, Bindable, IsSourceOf, FileKeysUnique, HasSource, FilesListed;
    PermutationMembers(cs, ds);
    assert a.candidates == b.candidates;
    forall key ensures key in a.files <==> key in b.files {
      ListedFilesHaveSources(baseKeys, cs, ds, candidates, a, b, key);
      ListedFilesHaveSources(baseKeys, ds, cs, candidates, b, a, key);
    }
    forall key | key in a.files ensures a.files[key] == b.files[key] {
      SourceIsUnique(baseKeys, cs, ds, candidates, key, a.files[key], b.files[key]);
    }
    assert a.files == b.files;
  }

  lemma ListedFilesHaveSources(baseKeys: seq<string>, cs: seq<RequestCandidate>, ds: seq<RequestCandidate>,
      candidates: seq<Candidate>,
                               a: SourceMap, b: SourceMap, key: string)
    requires SourceMapFor(baseKeys, cs, candidates, a) && FilesListed(ds, b.files)
    requires forall c :: c in cs ==> c in ds
    ensures key in a.files ==> key in b.files
  {
    hide Placed, SourceFor;
    if key in a.files {
      var c, i: nat :| c in cs && IsSourceOf(baseKeys, candidates, c, i, key, a.files[key]);
    }
  }

  lemma SourceIsUnique(baseKeys: seq<string>, cs: seq<RequestCandidate>, ds: seq<RequestCandidate>,
      candidates: seq<Candidate>,
                       key: string, s: FileSource, t: FileSource)
    requires FileKeysUnique(cs) && forall d :: d in ds ==> d in cs
    requires HasSource(baseKeys, cs, candidates, key, s) && HasSource(baseKeys, ds, candidates, key, t)
    ensures s == t
  {
    hide Placed, SourceFor;
    var c, i: nat :| c in cs && IsSourceOf(baseKeys, candidates, c, i, key, s);
    var d, j: nat :| d in ds && IsSourceOf(baseKeys, candidates, d, j, key, t);
    assert SameFileKey(c, i, d, j);
  }

  /** Whether a request can be prepared does not depend on the order of its candidates. */
  lemma PreparationIgnoresOrder(
      base: MatchRequest, a: MatchRequest, b: MatchRequest, candidates: seq<Candidate>, ext: Externals)
    requires Permutation(a.candidates, b.candidates) && b == a.(candidates := b.candidates)
    ensures Preparable(base, a, candidates, ext) ==> Preparable(base, b, candidates, ext)
  {
    if Preparable(base, a, candidates, ext) {
      PermutationMembers(a.candidates, b.candidates);
      PermutationDistinctBy(KeyOf, a.candidates, b.candidates);
      SumPermutes(ext.candidateSize, a.candidates, b.candidates);
      assert a.(candidates := []) == b.(candidates := []);
    }
  }

  // ----- adapting the source map for production

  predicate Adaptable(cs: seq<RequestCandidate>, candidates: seq<Candidate>, sm: SourceMap) {
    |cs| == |candidates| && forall k :: 0 <= k < |cs| ==> CandidateAdaptable(cs[k], candidates, sm)
  }

  predicate CandidateAdaptable(c: RequestCandidate, candidates: seq<Candidate>, sm: SourceMap) {
    var index := sm.CandidateSource(c.candidateKey);
    && index.Some? && index.value < |candidates| && Bindable(c, candidates[index.value])
    && forall i :: 0 <= i < |c.files| ==>
         var source := sm.SourceOfFile(c.candidateKey, c.files[i].fileKey);
         && source.Some?
         && source.value.candidateIndex == index.value
         && source.value.fileIndex == SelectableIndexes(candidates[index.value].files)[i]
  }

  ghost predicate CopiesPlaces(cs: seq<RequestCandidate>, places: map<string, nat>, copy: map<string, nat>) {
    && (forall key :: key in copy <==> exists c :: c in cs && c.candidateKey == key)
    && (forall key :: key in copy ==> key in places && copy[key] == places[key])
  }

  ghost predicate Lists(cs: seq<RequestCandidate>, key: string) {
    exists c, i :: c in cs && 0 <= i < |c.files| && c.files[i].fileKey == key
  }

  ghost predicate CopiesFiles(
      cs: seq<RequestCandidate>, files: map<string, FileSource>, copy: map<string, FileSource>) {
    && FilesListed(cs, copy)
    && forall key :: key in copy ==> key in files && copy[key] == files[key] && Lists(cs, key)
  }

  /** The copy is the part of the map that concerns the listed candidates and files. */
  ghost predicate CopiesKeys(cs: seq<RequestCandidate>, sm: SourceMap, copy: SourceMap) {
    CopiesPlaces(cs, sm.candidates, copy.candidates) && CopiesFiles(cs, sm.files, copy.files)
  }

  method AcquisitionSourceMap(cs: seq<RequestCandidate>, candidates: seq<Candidate>, sm: SourceMap)
    returns (r: Option<SourceMap>)
    ensures r.Some? <==> Adaptable(cs, candidates, sm)
    ensures r.Some? ==> CopiesKeys(cs, sm, r.value)
  {
    hide Bindable, SelectableIndexes, CopiesFiles;
    if |cs| != |candidates| {
      return None;
    }
    var places: map<string, nat> := map[];
    var files: map<string, FileSource> := map[];
    NothingCopied(cs, sm);
    for k := 0 to |cs|
      invariant forall l :: 0 <= l < k ==> CandidateAdaptable(cs[l], candidates, sm)
      invariant CopiesPlaces(cs[..k], sm.candidates, places)
      invariant CopiesFiles(cs[..k], sm.files, files)
    {
      var c := cs[k];
      assert cs[..k + 1] == cs[..k] + [c];
      if !CandidateAdaptable(c, candidates, sm) {
        return None;
      }
      files := CopyFiles(cs[..k], c, candidates, sm, files);
      places := places[c.candidateKey := sm.candidates[c.candidateKey]];
    }
    assert cs[..|cs|] == cs;
    return Some(SourceMap(places, files));
  }

  lemma NothingCopied(cs: seq<RequestCandidate>, sm: SourceMap)
    ensures CopiesFiles(cs[..0], sm.files, map[])
  {
  }

  lemma ListsMore(cs: seq<RequestCandidate>, c: RequestCandidate, key: string)
    requires Lists(cs, key)
    ensures Lists(cs + [c], key)
  {
    var d, i :| d in cs && 0 <= i < |d.files| && d.files[i].fileKey == key;
    assert d in cs + [c];
  }

  lemma AdaptableFile(c: RequestCandidate, candidates: seq<Candidate>, sm: SourceMap, i: nat)
    requires CandidateAdaptable(c, candidates, sm) && i < |c.files|
    ensures i < |SelectableIndexes(candidates[sm.candidates[c.candidateKey]].files)|
    ensures c.files[i].fileKey in sm.files
    ensures sm.files[c.files[i].fileKey] ==
              FileSource(c.candidateKey, sm.candidates[c.candidateKey],
                         SelectableIndexes(candidates[sm.candidates[c.candidateKey]].files)[i])
  {
    assert sm.SourceOfFile(c.candidateKey, c.files[i].fileKey).Some?;
  }

  /** The inner loop of the adaptation: one candidate's files. */
  method CopyFiles(ghost done: seq<RequestCandidate>, c: RequestCandidate, candidates: seq<Candidate>, sm: SourceMap,
                   before: map<string, FileSource>)
    returns (files: map<string, FileSource>)
    requires CandidateAdaptable(c, candidates, sm) && CopiesFiles(done, sm.files, before)
    ensures CopiesFiles(done + [c], sm.files, files)
  {
    hide Bindable, SelectableIndexes, CandidateAdaptable, Lists;
    files := before;
    forall key | key in files ensures Lists(done + [c], key) {
      ListsMore(done, c, key);
    }
    for i := 0 to |c.files|
      invariant FilesListed(done, files)
      invariant forall j :: 0 <= j < i ==> c.files[j].fileKey in files
      invariant forall key :: key in files ==> key in sm.files && files[key] == sm.files[key] && Lists(done + [c], key)
    {
      AdaptableFile(c, candidates, sm, i);
      LastLists(done, c, i);
      var index := CandidateIndexOf(c, candidates, sm);
      var source := FileSource(c.candidateKey, index, SelectableIndexes(candidates[index].files)[i]);
      files := files[c.files[i].fileKey := source];
    }
  }

  function CandidateIndexOf(c: RequestCandidate, candidates: seq<Candidate>, sm: SourceMap): (r: nat)
    requires CandidateAdaptable(c, candidates, sm)
    ensures c.candidateKey in sm.candidates && r == sm.candidates[c.candidateKey] && r < |candidates|
  {
    sm.candidates[c.candidateKey]
  }

  lemma LastLists(cs: seq<RequestCandidate>, c: RequestCandidate, i: nat)
    requires i < |c.files|
    ensures Lists(cs + [c], c.files[i].fileKey)
  {
    assert c in cs + [c];
  }

  /** Adapting a prepared source map always succeeds and hands production the very same map. */
  lemma AdaptersAgree(
      base: MatchRequest, ordered: MatchRequest, candidates: seq<Candidate>, ext: Externals, sm: SourceMap)
    requires Preparable(base, ordered, candidates, ext)
    requires Permutation(ordered.candidates, base.candidates)
    requires SourceMapFor(Map(KeyOf, base.candidates), ordered.candidates, candidates, sm)
    ensures Adaptable(ordered.candidates, candidates, sm)
    ensures forall copy :: CopiesKeys(ordered.candidates, sm, copy) ==> copy == sm
  {
    hide Bindable, SelectableIndexes, LastIndexOf, CandidateAdaptable, FileKeysUnique, CopiesKeys;
    var keys, cs := Map(KeyOf, base.candidates), ordered.candidates;
    PreparedSize(base, ordered, candidates, ext);
    forall k | 0 <= k < |cs| ensures CandidateAdaptable(cs[k], candidates, sm) {
      PreparedCandidateAdaptable(keys, cs, candidates, sm, cs[k]);
    }
    forall copy | CopiesKeys(cs, sm, copy) ensures copy == sm {
      CopyIsWhole(keys, cs, candidates, sm, copy);
    }
  }

  lemma CopyIsWhole(
      keys: seq<string>, cs: seq<RequestCandidate>, candidates: seq<Candidate>, sm: SourceMap, copy: SourceMap)
    requires SourceMapFor(keys, cs, candidates, sm) && CopiesKeys(cs, sm, copy)
    ensures copy == sm
  {
    hide Placed, SourceFor;
    assert copy.candidates == sm.candidates;
    forall key | key in sm.files ensures key in copy.files {
      var c, i: nat :| c in cs && IsSourceOf(keys, candidates, c, i, key, sm.files[key]);
    }
    assert copy.files == sm.files;
  }

  lemma PreparedSize(base: MatchRequest, ordered: MatchRequest, candidates: seq<Candidate>, ext: Externals)
    requires Preparable(base, ordered, candidates, ext)
    requires Permutation(ordered.candidates, base.candidates)
    ensures |ordered.candidates| == |candidates| && DistinctBy(KeyOf, base.candidates)
  {
    PermutationMembers(ordered.candidates, base.candidates);
    PermutationDistinctBy(KeyOf, ordered.candidates, base.candidates);
    var keys := Map(KeyOf, base.candidates);
    assert Distinct(keys) by {
      forall i, j | 0 <= i < j < |keys| ensures keys[i] != keys[j] {
        assert KeyOf(base.candidates[i]) != KeyOf(base.candidates[j]);
      }
    }
    DistinctByCounting(keys);
  }

  lemma PreparedCandidateAdaptable(keys: seq<string>, cs: seq<RequestCandidate>, candidates: seq<Candidate>,
      sm: SourceMap,
                                   c: RequestCandidate)
    requires c in cs && Placed(keys, candidates, c) && FileKeysUnique(cs)
    requires SourceMapFor(keys, cs, candidates, sm)
    ensures CandidateAdaptable(c, candidates, sm)
  {
    hide Bindable, SelectableIndexes, LastIndexOf;
    assert c.candidateKey in sm.candidates;
    forall i | 0 <= i < |c.files| ensures sm.SourceOfFile(c.candidateKey, c.files[i].fileKey) ==
      Some(SourceFor(keys, candidates, c, i)) {
      var key := c.files[i].fileKey;
      assert key in sm.files;
      var d, j: nat :| d in cs && IsSourceOf(keys, candidates, d, j, key, sm.files[key]);
      assert SameFileKey(c, i, d, j);
    }
    BindableSameLength(c, candidates[LastIndexOf(keys, c.candidateKey).value]);
  }

  lemma BindableSameLength(rc: RequestCandidate, c: Candidate)
    requires Bindable(rc, c)
    ensures |rc.files| == |SelectableIndexes(c.files)|
  {
  }

  // ----- file-selection support per candidate position

  /** The position a listed candidate's key is mapped to, or -1. */
  function PlaceOf(sm: SourceMap): RequestCandidate -> int {
    (c: RequestCandidate) => if c.candidateKey in sm.candidates then sm.candidates[c.candidateKey] as int else -1
  }

  function SourceAt(cs: seq<RequestCandidate>, sm: SourceMap, k: int): int
    requires 0 <= k < |cs|
  {
    PlaceOf(sm)(cs[k])
  }

  ghost predicate Filled(cs: seq<RequestCandidate>, sm: SourceMap, n: nat, slot: int)
    requires n <= |cs|
  {
    exists k :: 0 <= k < n && SourceAt(cs, sm, k) == slot
  }

  ghost predicate SameKeys(cs: seq<RequestCandidate>, route: map<string, bool>) {
    forall key :: key in route <==> exists c :: c in cs && c.candidateKey == key
  }

  /** The route context covers exactly the listed candidates and their positions are exactly all slots, each once. */
  ghost predicate SupportDefined(cs: seq<RequestCandidate>, count: nat, route: map<string, bool>, sm: SourceMap) {
    && SameKeys(cs, route)
    && (forall k :: 0 <= k < |cs| ==> 0 <= SourceAt(cs, sm, k) < count)
    && (forall k, l :: 0 <= k < l < |cs| ==> SourceAt(cs, sm, k) != SourceAt(cs, sm, l))
    && forall slot :: 0 <= slot < count ==> Filled(cs, sm, |cs|, slot)
  }

  ghost predicate RecordedAt(route: map<string, bool>, sm: SourceMap, slot: int, value: bool) {
    exists key :: key in route && key in sm.candidates && sm.candidates[key] == slot && value == route[key]
  }

  /** Slot by slot the capability recorded for the candidate at that position. */
  ghost predicate IsSupport(count: nat, route: map<string, bool>, sm: SourceMap, support: seq<bool>) {
    |support| == count && forall slot :: 0 <= slot < count ==> RecordedAt(route, sm, slot, support[slot])
  }

  lemma SameKeysBySets(cs: seq<RequestCandidate>, route: map<string, bool>)
    ensures SameKeys(cs, route) <==> (set c | c in cs :: c.candidateKey) == route.Keys
  {
    var requestKeys := set c | c in cs :: c.candidateKey;
    forall key ensures key in requestKeys <==> exists c :: c in cs && c.candidateKey == key {
    }
  }

  method FileSelectionSupport(cs: seq<RequestCandidate>, count: nat, route: map<string, bool>, sm: SourceMap)
    returns (r: Option<seq<bool>>)
    ensures r.Some? <==> SupportDefined(cs, count, route, sm)
    ensures r.Some? ==> IsSupport(count, route, sm, r.value)
  {
    SameKeysBySets(cs, route);
    if (set c | c in cs :: c.candidateKey) != route.Keys {
      return None;
    }
    var support: seq<Option<bool>> := seq(count, _ => None);
    for k := 0 to |cs|
      invariant |support| == count
      invariant forall l :: 0 <= l < k ==> 0 <= SourceAt(cs, sm, l) < count
      invariant forall l, m :: 0 <= l < m < k ==> SourceAt(cs, sm, l) != SourceAt(cs, sm, m)
      invariant forall slot :: 0 <= slot < count ==> (support[slot].Some? <==> Filled(cs, sm, k, slot))
      invariant forall slot ::
        0 <= slot < count && support[slot].Some? ==> RecordedAt(route, sm, slot, support[slot].value)
    {
      var key := cs[k].candidateKey;
      assert cs[k] in cs && key in route;
      var source := sm.CandidateSource(key);
      if source.None? || source.value >= count {
        assert !(0 <= SourceAt(cs, sm, k) < count);
        return None;
      }
      assert SourceAt(cs, sm, k) == source.value;
      if support[source.value].Some? {
        assert Filled(cs, sm, k, source.value);
        return None;
      }
      FilledNext(cs, sm, k);
      support := support[source.value := Some(route[key])];
    }
    if exists slot :: 0 <= slot < count && support[slot].None? {
      ghost var slot :| 0 <= slot < count && support[slot].None?;
      assert !Filled(cs, sm, |cs|, slot);
      return None;
    }
    return Some(seq(count, slot requires 0 <= slot < count => support[slot].value));
  }

  lemma FilledNext(cs: seq<RequestCandidate>, sm: SourceMap, k: nat)
    requires k < |cs|
    ensures forall slot :: Filled(cs, sm, k + 1, slot) <==> Filled(cs, sm, k, slot) || SourceAt(cs, sm, k) == slot
  {
    forall slot ensures Filled(cs, sm, k + 1, slot) <==> Filled(cs, sm, k, slot) || SourceAt(cs, sm, k) == slot {
      if Filled(cs, sm, k, slot) {
        var l :| 0 <= l < k && SourceAt(cs, sm, l) == slot;
      }
    }
  }

  /** Two support vectors for the same positions are equal. */
  lemma SupportIsUnique(
      cs: seq<RequestCandidate>, count: nat, route: map<string, bool>, sm: SourceMap, a: seq<bool>, b: seq<bool>)
    requires SupportDefined(cs, count, route, sm)
    requires IsSupport(count, route, sm, a) && IsSupport(count, route, sm, b)
    ensures a == b
  {
    forall slot | 0 <= slot < count ensures a[slot] == b[slot] {
      assert RecordedAt(route, sm, slot, a[slot]) && RecordedAt(route, sm, slot, b[slot]);
      var x :| x in route && x in sm.candidates && sm.candidates[x] == slot && a[slot] == route[x];
      var y :| y in route && y in sm.candidates && sm.candidates[y] == slot && b[slot] == route[y];
      var c :| c in cs && c.candidateKey == x;
      var d :| d in cs && d.candidateKey == y;
      var k :| 0 <= k < |cs| && cs[k] == c;
      var l :| 0 <= l < |cs| && cs[l] == d;
      assert SourceAt(cs, sm, k) == SourceAt(cs, sm, l);
    }
  }

  lemma SupportIgnoresOrder(
      cs: seq<RequestCandidate>, ds: seq<RequestCandidate>, count: nat, route: map<string, bool>, sm: SourceMap)
    requires Permutation(cs, ds) && SupportDefined(cs, count, route, sm)
    ensures SupportDefined(ds, count, route, sm)
  {
    PermutationMembers(cs, ds);
    assert DistinctBy(PlaceOf(sm), cs) by {
      forall k, l | 0 <= k < l < |cs| ensures PlaceOf(sm)(cs[k]) != PlaceOf(sm)(cs[l]) {
        assert SourceAt(cs, sm, k) != SourceAt(cs, sm, l);
      }
    }
    PermutationDistinctBy(PlaceOf(sm), cs, ds);
    forall k | 0 <= k < |ds| ensures 0 <= SourceAt(ds, sm, k) < count {
      assert ds[k] in cs;
      var l :| 0 <= l < |cs| && cs[l] == ds[k];
      assert 0 <= SourceAt(cs, sm, l) < count;
    }
    forall slot | 0 <= slot < count ensures Filled(ds, sm, |ds|, slot) {
      assert Filled(cs, sm, |cs|, slot);
      var l :| 0 <= l < |cs| && SourceAt(cs, sm, l) == slot;
      assert cs[l] in ds;
      var k :| 0 <= k < |ds| && ds[k] == cs[l];
      assert SourceAt(ds, sm, k) == slot;
    }
  }

  // ----- the resolution an accepted answer produces

  datatype AudioEligibility = Eligible | Ineligible | EligibilityUnknown | NotApplicable

  datatype HarnessEntry = HarnessEntry(targetKey: string, fileKey: Option<string>)

  datatype HarnessPlan = HarnessPlan(
    candidateKey: string, targetKeys: seq<string>, fileKeys: seq<string>, audio: AudioEligibility,
    coverage: seq<HarnessEntry>)

  datatype Resolution = Resolution(candidatePlans: seq<Option<HarnessPlan>>, sawPartialOrAmbiguous: bool)

  function EligibilityOf(a: LP.Assessment): AudioEligibility {
    match a.state
    case OffState => NotApplicable
    case Match => Eligible
    case Mismatch => Ineligible
    case Unknown => EligibilityUnknown
  }

  function ProfileEvidence(profile: AudioProfile): LP.Evidence {
    match profile
    case UnknownAudio => LP.NoEvidence
    case DualAudio => LP.Evidence({"en", "ja"}, {}, {"dual_audio"}, {})
    case Subbed => LP.Evidence({}, {}, {"subbed"}, {})
    case Dubbed => LP.Evidence({"en"}, {}, {"dubbed"}, {})
    case JaAudioEnSubs => LP.Evidence({"ja"}, {"en"}, {"ja_audio_en_subs"}, {})
    case EnAudio => LP.Evidence({"en"}, {}, {"en_audio"}, {})
  }

  /** The harness's own file-binding rule: a lone file serves every target, several serve by position. */
  function HarnessFile(fileKeys: seq<string>, i: nat): Option<string> {
    if |fileKeys| == 1 then Some(fileKeys[0]) else if i < |fileKeys| then Some(fileKeys[i]) else None
  }

  function PlanForMatch(m: CandidateMatch, a: LP.Assessment): HarnessPlan {
    var fileKeys, targets := CP.SelectedKeys(m), m.matchedTargetKeys;
    HarnessPlan(m.candidateKey, targets, fileKeys, EligibilityOf(a),
      seq(|targets|, i requires 0 <= i < |targets| => HarnessEntry(targets[i], HarnessFile(fileKeys, i))))
  }

  /** What the override writes for one match: its plan, or nothing when language or stream review stands in the way. */
  function SlotFor(m: CandidateMatch, p: LP.Preference, candidate: Candidate, ext: Externals): Option<HarnessPlan> {
    var a := LP.Assess(p, LP.Anime, ProfileEvidence(m.audioProfile));
    if (p.mode != LP.RequireReview || a.state == LP.Match) && !ext.needsManualReview(candidate) then
      Some(PlanForMatch(m, a))
    else None
  }

  /** The parts of a case that do not change between observations. */
  datatype CaseInput = CaseInput(
    request: MatchRequest, scoring: ScoringContext, candidates: seq<Candidate>, route: map<string, bool>,
    preference: LP.Preference)

  predicate SourcesInBounds(matches: seq<CandidateMatch>, sm: SourceMap, count: nat) {
    forall i :: 0 <= i < |matches| ==>
      matches[i].candidateKey in sm.candidates && sm.candidates[matches[i].candidateKey] < count
  }

  function Overridden(
      before: Resolution, matches: seq<CandidateMatch>, input: CaseInput, sm: SourceMap, ext: Externals)
    : (r: Resolution)
    requires |before.candidatePlans| == |input.candidates| && SourcesInBounds(matches, sm, |input.candidates|)
    ensures |r.candidatePlans| == |input.candidates|
  {
    if matches == [] then before
    else
      var last := |matches| - 1;
      var r := Overridden(before, matches[..last], input, sm, ext);
      var index := sm.candidates[matches[last].candidateKey];
      Resolution(r.candidatePlans[index := SlotFor(matches[last], input.preference, input.candidates[index], ext)],
        true)
  }

  function BatchFor(input: CaseInput, sm: SourceMap, support: seq<bool>, ext: Externals): CP.BatchInput {
    CP.BatchInput(input.request.target, input.request.context, input.scoring, input.candidates,
      (index: nat, _: Candidate) => index < |support| && support[index], sm, ext.kindOf)
  }

  lemma ConvertibleSources(b: CP.BatchInput, matches: seq<CandidateMatch>)
    requires CP.Convertible(b, matches)
    ensures SourcesInBounds(matches, b.sourceMap, |b.candidates|)
  {
    forall i | 0 <= i < |matches|
      ensures matches[i].candidateKey in b.sourceMap.candidates &&
        b.sourceMap.candidates[matches[i].candidateKey] < |b.candidates|
    {
      CP.UnknownCandidateIsRefused(CP.InputFor(b, matches[i]));
    }
  }

  /** The result of overriding `before` with the matches, or nothing if any of them is unsafe, for some copy of the
      source map and some support vector. */
  ghost predicate OverrideResult(before: Resolution, cs: seq<RequestCandidate>, matches: seq<CandidateMatch>,
      input: CaseInput,
                                 sm: SourceMap, ext: Externals, copy: SourceMap, support: seq<bool>,
                                 r: Option<Resolution>)
    requires |before.candidatePlans| == |input.candidates|
  {
    && CopiesKeys(cs, sm, copy)
    && IsSupport(|input.candidates|, input.route, sm, support)
    && (r.Some? <==> CP.Convertible(BatchFor(input, copy, support, ext), matches))
    && (r.Some? ==>
          && SourcesInBounds(matches, sm, |input.candidates|)
          && r.value == Overridden(before, matches, input, sm, ext))
  }

  ghost predicate AcceptedAs(before: Resolution, cs: seq<RequestCandidate>, matches: seq<CandidateMatch>,
      input: CaseInput,
                             sm: SourceMap, ext: Externals, r: Option<Resolution>)
    requires |before.candidatePlans| == |input.candidates|
  {
    if !Adaptable(cs, input.candidates, sm) || !SupportDefined(cs, |input.candidates|, input.route, sm) then r.None?
    else exists copy, support :: OverrideResult(before, cs, matches, input, sm, ext, copy, support, r)
  }

  method AcceptedModelResolution(before: Resolution, cs: seq<RequestCandidate>, matches: seq<CandidateMatch>,
      input: CaseInput,
                                 sm: SourceMap, ext: Externals)
    returns (r: Option<Resolution>)
    requires |before.candidatePlans| == |input.candidates|
    ensures AcceptedAs(before, cs, matches, input, sm, ext, r)
  {
    hide Adaptable, SupportDefined, CP.Convertible, IsSupport, SlotFor, CopiesFiles;
    var copy := AcquisitionSourceMap(cs, input.candidates, sm);
    if copy.None? {
      return None;
    }
    var support := FileSelectionSupport(cs, |input.candidates|, input.route, sm);
    if support.None? {
      return None;
    }
    var b := BatchFor(input, copy.value, support.value, ext);
    var plans := CP.ModelDerivedCoveragePlans(b, matches);
    if plans.Failure? {
      r := None;
      assert OverrideResult(before, cs, matches, input, sm, ext, copy.value, support.value, r);
      return;
    }
    ConvertibleSources(b, matches);
    assert SourcesInBounds(matches, sm, |input.candidates|);
    var resolution := OverrideSlots(before, matches, input, sm, ext);
    r := Some(resolution);
    assert OverrideResult(before, cs, matches, input, sm, ext, copy.value, support.value, r);
  }

  /** The loop over the matches: each writes the slot of its candidate. */
  method OverrideSlots(
      before: Resolution, matches: seq<CandidateMatch>, input: CaseInput, sm: SourceMap, ext: Externals)
    returns (resolution: Resolution)
    requires |before.candidatePlans| == |input.candidates| && SourcesInBounds(matches, sm, |input.candidates|)
    ensures resolution == Overridden(before, matches, input, sm, ext)
  {
    hide SlotFor;
    resolution := before;
    for i := 0 to |matches|
      invariant SourcesInBounds(matches[..i], sm, |input.candidates|)
      invariant resolution == Overridden(before, matches[..i], input, sm, ext)
    {
      assert matches[..i + 1][..i] == matches[..i];
      var index := sm.candidates[matches[i].candidateKey];
      var slot := SlotFor(matches[i], input.preference, input.candidates[index], ext);
      resolution := Resolution(resolution.candidatePlans[index := slot], true);
    }
    assert matches[..|matches|] == matches;
  }

  /** The gates the harness re-checks after planning never fire: each production plan belongs to the candidate the
      harness looks up itself and passes the automatic gate. */
  lemma RecheckedGatesHold(cs: seq<RequestCandidate>, matches: seq<CandidateMatch>, input: CaseInput, sm: SourceMap,
                           copy: SourceMap, support: seq<bool>, ext: Externals, i: nat)
    requires CopiesKeys(cs, sm, copy) && CP.Convertible(BatchFor(input, copy, support, ext), matches) && i < |matches|
    ensures var coverage := CP.CoverageFor(BatchFor(input, copy, support, ext), matches[i]);
            && sm.CandidateSource(matches[i].candidateKey) == Some(coverage.candidateIndex)
            && CP.DeterministicState(coverage.plan) == CP.Definitive
  {
    hide CP.PlannedCoverage, CP.Verdict, CopiesFiles;
    var b := BatchFor(input, copy, support, ext);
    CP.UnknownCandidateIsRefused(CP.InputFor(b, matches[i]));
    CP.PlanIsDefinitive(CP.InputFor(b, matches[i]));
  }

  /** Entry by entry the harness binds the same target to the same file as production, seen through the source map. */
  lemma HarnessBindingAgrees(b: CP.BatchInput, m: CandidateMatch, a: LP.Assessment)
    requires CP.Verdict(CP.InputFor(b, m)).None?
    ensures var plan, harness := CP.PlannedCoverage(CP.InputFor(b, m)), PlanForMatch(m, a);
            && |harness.coverage| == |plan.entries|
            && forall i ::
              0 <= i < |plan.entries| ==>
                EntriesAgree(b, CP.CandidateOf(CP.InputFor(b, m)).files, plan.entries[i], harness.coverage[i])
  {
    var p := CP.InputFor(b, m);
    CP.EntriesCoverMatchedTargets(p);
    forall i | 0 <= i < |CP.PlannedCoverage(p).entries|
      ensures EntriesAgree(b, CP.CandidateOf(p).files, CP.PlannedCoverage(p).entries[i], PlanForMatch(m, a).coverage[i])
    {
      HarnessEntryAgrees(b, m, a, i);
    }
  }

  /** Same target, and the same file: the harness names it by request key, production by its identity. */
  predicate EntriesAgree(b: CP.BatchInput, files: seq<CandidateFile>, entry: CP.CoverageEntry, harness: HarnessEntry) {
    && harness.targetKey == entry.targetKey
    && (harness.fileKey.None? <==> entry.releaseFileKey.None?)
    && (harness.fileKey.Some? ==>
          var key := harness.fileKey.value;
          && key in b.sourceMap.files && b.sourceMap.files[key].fileIndex < |files|
          && var index := b.sourceMap.files[key].fileIndex;
             entry.releaseFileKey == Some(IdentityOf(files[index], index).fileKey))
  }

  lemma HarnessEntryAgrees(b: CP.BatchInput, m: CandidateMatch, a: LP.Assessment, i: nat)
    requires CP.Verdict(CP.InputFor(b, m)).None?
    requires i < |CP.PlannedCoverage(CP.InputFor(b, m)).entries|
    ensures i < |PlanForMatch(m, a).coverage|
    ensures EntriesAgree(
      b, CP.CandidateOf(CP.InputFor(b, m)).files, CP.PlannedCoverage(CP.InputFor(b, m)).entries[i],
      PlanForMatch(m, a).coverage[i])
  {
    hide CP.Verdict, CP.PlannedCoverage, CP.ShapeOf, IdentityOf, CP.KnownCandidate, CP.CandidateOf, CP.SelectedFiles,
      CP.SelectionUsable;
    var p := CP.InputFor(b, m);
    CP.EntriesCoverMatchedTargets(p);
    AcceptedShape(p);
    EntryIsBound(p, i);
    BindingsAgree(p, i);
    var keys := CP.SelectedKeys(m);
    if HarnessFile(keys, i).Some? {
      var k: nat := if |keys| == 1 then 0 else i;
      SelectedFileOf(p, k);
    }
  }

  lemma EntryIsBound(p: CP.PlanInput, i: nat)
    requires CP.Verdict(p).None? && CP.KnownCandidate(p) && CP.SelectionUsable(p) && CP.ShapeOf(p).Some?
    requires i < |CP.PlannedCoverage(p).entries|
    ensures var bound := CP.BoundFile(CP.ShapeOf(p).value.binding, CP.SelectedFiles(p), i);
      CP.PlannedCoverage(p).entries[i].releaseFileKey == if bound.Some? then Some(bound.value.fileKey) else None
  {
    hide CP.Verdict, CP.BoundFile, CP.ShapeOf, CP.CoverageKindOf, CP.RequiresSelection, CP.KeysOf, CP.SelectedFiles,
      CP.TargetsUsable,
      CP.KnownCandidate, CP.SelectionUsable;
  }

  /** Under an accepted shape the two binding rules pick the same position. */
  lemma BindingsAgree(p: CP.PlanInput, i: nat)
    requires CP.Verdict(p).None? && CP.KnownCandidate(p) && CP.SelectionUsable(p) && CP.ShapeOf(p).Some?
    requires i < |p.matched.matchedTargetKeys|
    ensures var keys, selected := CP.SelectedKeys(p.matched), CP.SelectedFiles(p);
      var bound := CP.BoundFile(CP.ShapeOf(p).value.binding, selected, i);
      && (bound.None? <==> HarnessFile(keys, i).None?)
      && (bound.Some? ==>
            var k: nat := if |keys| == 1 then 0 else i;
            k < |keys| && bound == Some(selected[k]) && HarnessFile(keys, i) == Some(keys[k]))
  {
    AcceptedShape(p);
    hide CP.Verdict, CP.ShapeOf, CP.SelectionUsable, CP.KnownCandidate;
  }

  lemma SelectedFileOf(p: CP.PlanInput, k: nat)
    requires CP.KnownCandidate(p) && CP.SelectionUsable(p) && k < |CP.SelectedKeys(p.matched)|
    ensures var key, files := CP.SelectedKeys(p.matched)[k], CP.CandidateOf(p).files;
      && key in p.sourceMap.files && p.sourceMap.files[key].fileIndex < |files|
      && var index := p.sourceMap.files[key].fileIndex;
         CP.SelectedFiles(p)[k] == IdentityOf(files[index], index)
  {
    hide IdentityOf, IsMedia;
    assert CP.SelectableKey(p, CP.SelectedKeys(p.matched)[k]);
  }

  /** In an accepted mapping the file count fixes the binding. */
  lemma AcceptedShape(p: CP.PlanInput)
    requires CP.Verdict(p).None?
    ensures CP.KnownCandidate(p) && CP.SelectionUsable(p) && CP.ShapeOf(p).Some?
    ensures var n, t, binding := |CP.SelectedKeys(p.matched)|, |p.matched.matchedTargetKeys|,
    CP.ShapeOf(p).value.binding;
            && t > 0
            && (binding == CP.Unbound <==> n == 0)
            && (binding == CP.SharedMultiEpisode ==> n == 1)
            && (binding == CP.Positional ==> n == t)
  {
    hide CP.TargetsUsable, CP.ScopedTargets, CP.DistinctIdentities, IsMedia, CP.FilesDistinct;
    var media := CP.MediaIndexes(CP.CandidateOf(p).files);
    assert |media| == 0 <==> media == {};
  }

  // ----- the final plan

  datatype Disposition = Matched | NoMatch | Unresolved

  datatype FinalPlan = FinalPlan(
    disposition: Disposition, seasonNumber: Option<int>, episodeNumbers: seq<int>, absoluteEpisodeNumbers: seq<int>,
    candidatePlans: seq<HarnessPlan>)

  function Present(plans: seq<Option<HarnessPlan>>): seq<HarnessPlan> {
    if plans == [] then []
    else Present(plans[..|plans| - 1]) + if plans[|plans| - 1].Some? then [plans[|plans| - 1].value] else []
  }

  function Covered(plans: seq<HarnessPlan>): set<string> {
    set i, key | 0 <= i < |plans| && key in plans[i].targetKeys :: key
  }

  /** Every key some candidate plan names, read off the slots directly. */
  function KeysInSlots(slots: seq<Option<HarnessPlan>>): set<string> {
    set i, key | 0 <= i < |slots| && slots[i].Some? && key in slots[i].value.targetKeys :: key
  }

  /**
   * The acceptance state of the union of all candidate plans: no list of plans is built, the wanted keys are a list.
   */
  function UnionState(request: MatchRequest, resolution: Resolution): CP.MatchState {
    var covered, wanted := KeysInSlots(resolution.candidatePlans), request.target.wantedTargetKeys;
    if wanted != [] && forall i :: 0 <= i < |wanted| ==> wanted[i] in covered then CP.Definitive else CP.Difficult
  }

  /** The disposition of a final plan: the plans are collected first, the wanted keys are a set. */
  function DispositionOf(plans: seq<HarnessPlan>, wanted: set<string>, sawPartialOrAmbiguous: bool): Disposition {
    if wanted != {} && wanted <= Covered(plans) then Matched
    else if plans != [] || sawPartialOrAmbiguous then Unresolved
    else NoMatch
  }

  function FindScoped(scoped: seq<(Season, ContextTarget)>, key: string): Option<(Season, ContextTarget)> {
    if scoped == [] then None
    else if scoped[|scoped| - 1].1.targetKey == key then Some(scoped[|scoped| - 1])
    else FindScoped(scoped[..|scoped| - 1], key)
  }

  datatype Numbers = Numbers(seasons: seq<int>, episodes: seq<int>, absolutes: seq<int>)

  function PushNew(s: seq<int>, x: Option<int>): seq<int> {
    if x.Some? && x.value !in s then s + [x.value] else s
  }

  function WithTarget(n: Numbers, t: (Season, ContextTarget)): Numbers {
    Numbers(PushNew(n.seasons, Some(t.1.seasonNumber.GetOr(t.0.seasonNumber))), PushNew(n.episodes, t.1.episodeNumber),
            PushNew(n.absolutes, t.1.absoluteEpisodeNumber))
  }

  /** The season, episode and absolute numbers of the covered wanted targets, first occurrences in order. */
  function NumbersOf(scoped: seq<(Season, ContextTarget)>, wanted: seq<string>, covered: set<string>): Option<Numbers> {
    if wanted == [] then Some(Numbers([], [], []))
    else
      var last := wanted[|wanted| - 1];
      match NumbersOf(scoped, wanted[..|wanted| - 1], covered)
      case None => None
      case Some(n) =>
        if last !in covered then Some(n)
        else
          match FindScoped(scoped, last)
          case None => None
          case Some(t) => Some(WithTarget(n, t))
  }

  function FinalPlanFor(request: MatchRequest, resolution: Resolution): Option<FinalPlan> {
    var plans := Present(resolution.candidatePlans);
    var covered, wanted := Covered(plans), request.target.wantedTargetKeys;
    var disposition := DispositionOf(plans, Elements(wanted), resolution.sawPartialOrAmbiguous);
    match NumbersOf(CP.ScopedTargets(request.context.seasons), wanted, covered)
    case None => None
    case Some(n) =>
      var season := if |n.seasons| == 1 then Some(n.seasons[0]) else None;
      Some(FinalPlan(disposition, season, n.episodes, n.absolutes, plans))
  }

  lemma NumbersPrefixFails(scoped: seq<(Season, ContextTarget)>, wanted: seq<string>, covered: set<string>, n: nat)
    requires n <= |wanted| && NumbersOf(scoped, wanted[..n], covered).None?
    ensures NumbersOf(scoped, wanted, covered).None?
  {
    if n < |wanted| {
      assert wanted[..|wanted| - 1][..n] == wanted[..n];
      NumbersPrefixFails(scoped, wanted[..|wanted| - 1], covered, n);
    } else {
      assert wanted[..n] == wanted;
    }
  }

  method FinalPlanForResolution(request: MatchRequest, resolution: Resolution) returns (r: Option<FinalPlan>)
    ensures r == FinalPlanFor(request, resolution)
  {
    var plans := Present(resolution.candidatePlans);
    var covered, wanted := Covered(plans), request.target.wantedTargetKeys;
    var scoped := CP.ScopedTargets(request.context.seasons);
    var seasons: seq<int>, episodes: seq<int>, absolutes: seq<int> := [], [], [];
    for i := 0 to |wanted|
      invariant NumbersOf(scoped, wanted[..i], covered) == Some(Numbers(seasons, episodes, absolutes))
    {
      assert wanted[..i + 1][..i] == wanted[..i];
      if wanted[i] in covered {
        var target := FindScoped(scoped, wanted[i]);
        if target.None? {
          NumbersPrefixFails(scoped, wanted, covered, i + 1);
          return None;
        }
        var (season, t) := target.value;
        seasons := PushNew(seasons, Some(t.seasonNumber.GetOr(season.seasonNumber)));
        if t.episodeNumber.Some? && t.episodeNumber.value !in episodes {
          episodes := episodes + [t.episodeNumber.value];
        }
        if t.absoluteEpisodeNumber.Some? && t.absoluteEpisodeNumber.value !in absolutes {
          absolutes := absolutes + [t.absoluteEpisodeNumber.value];
        }
      }
    }
    assert wanted[..|wanted|] == wanted;
    var disposition := DispositionOf(plans, Elements(wanted), resolution.sawPartialOrAmbiguous);
    return Some(FinalPlan(disposition, if |seasons| == 1 then Some(seasons[0]) else None, episodes, absolutes, plans));
  }

  lemma {:induction false} CoveredInSlots(slots: seq<Option<HarnessPlan>>)
    ensures Covered(Present(slots)) == KeysInSlots(slots)
  {
    if slots != [] {
      var front, last := slots[..|slots| - 1], slots[|slots| - 1];
      CoveredInSlots(front);
      assert forall i :: 0 <= i < |front| ==> front[i] == slots[i];
      var more := if last.Some? then [last.value] else [];
      CoveredOfAppend(Present(front), more);
      assert more != [] ==> more[0] == last.value;
      forall key ensures key in KeysInSlots(slots) <==> key in KeysInSlots(front) || key in Covered(more) {
      }
    }
  }

  lemma CoveredOfAppend(a: seq<HarnessPlan>, b: seq<HarnessPlan>)
    ensures Covered(a + b) == Covered(a) + Covered(b)
  {
    forall key ensures key in Covered(a + b) <==> key in Covered(a) || key in Covered(b) {
      if i :| 0 <= i < |a| && key in a[i].targetKeys {
        assert (a + b)[i] == a[i];
      }
      if i :| 0 <= i < |b| && key in b[i].targetKeys {
        assert (a + b)[|a| + i] == b[i];
      }
    }
  }

  /** The separately computed union state and disposition of the final plan say the same thing. */
  lemma MatchedExactlyWhenDefinitive(request: MatchRequest, resolution: Resolution)
    requires FinalPlanFor(request, resolution).Some?
    ensures FinalPlanFor(request, resolution).value.disposition == Matched
      <==> UnionState(request, resolution) == CP.Definitive
  {
    hide Present, Covered, KeysInSlots, NumbersOf;
    CoveredInSlots(resolution.candidatePlans);
    var wanted := request.target.wantedTargetKeys;
    assert wanted != [] ==> wanted[0] in Elements(wanted);
    assert forall key :: key in Elements(wanted) ==> exists i :: 0 <= i < |wanted| && wanted[i] == key;
  }

  // ----- one observation

  datatype EngineAnswer = NoEngine | EngineFailed | Answer(schemaVersion: nat, matches: seq<CandidateMatch>)

  datatype FallbackReason =
    | EngineUnavailable | EngineError | InvalidModelResponse | EmptyModelMatches | CoverageValidationFailed

  datatype Decision = Accepted | FastPath | Fallback(reason: FallbackReason)

  datatype Observation = Observation(candidateOrder: seq<string>, decision: Decision, finalPlan: FinalPlan)

  predicate MatchValid(
      m: CandidateMatch, cs: seq<RequestCandidate>, target: MatchTarget, context: MatchContext, sm: SourceMap) {
    var scoped := CP.ScopedTargets(context.seasons);
    && (exists c :: c in cs && c.candidateKey == m.candidateKey)
    && m.matchedTargetKeys != []
    && Distinct(m.matchedTargetKeys)
    && (forall key :: key in m.matchedTargetKeys ==>
          key in target.wantedTargetKeys && exists i :: 0 <= i < |scoped| && scoped[i].1.targetKey == key)
    && m.selectedFileKeys != Some([])
    && Distinct(CP.SelectedKeys(m))
    && forall key :: key in CP.SelectedKeys(m) ==> key in sm.files && sm.files[key].candidateKey == m.candidateKey
  }

  function MatchKey(m: CandidateMatch): string {
    m.candidateKey
  }

  predicate ResponseValid(version: nat, matches: seq<CandidateMatch>, cs: seq<RequestCandidate>, target: MatchTarget,
                          context: MatchContext, sm: SourceMap)
  {
    && version == SchemaVersion
    && DistinctBy(MatchKey, matches)
    && forall i :: 0 <= i < |matches| ==> MatchValid(matches[i], cs, target, context, sm)
  }

  /** How the matching service decides, and the resolution it hands back. */
  ghost predicate Decides(input: CaseInput, baseline: Resolution, state: CP.MatchState, cs: seq<RequestCandidate>,
      sm: SourceMap,
                          engine: EngineAnswer, ext: Externals, decision: Decision, resolution: Resolution)
    requires |baseline.candidatePlans| == |input.candidates|
  {
    if state == CP.Definitive then decision == FastPath && resolution == baseline
    else
      match engine
      case NoEngine => decision == Fallback(EngineUnavailable) && resolution == baseline
      case EngineFailed => decision == Fallback(EngineError) && resolution == baseline
      case Answer(version, matches) =>
        if !ResponseValid(version, matches, cs, input.request.target, input.request.context, sm) then
          decision == Fallback(InvalidModelResponse) && resolution == baseline
        else if matches == [] then decision == Fallback(EmptyModelMatches) && resolution == baseline
        else
          || (decision == Accepted && AcceptedAs(baseline, cs, matches, input, sm, ext, Some(resolution)))
          || (decision == Fallback(CoverageValidationFailed) && resolution == baseline
              && AcceptedAs(baseline, cs, matches, input, sm, ext, None))
  }

  ghost predicate ObservedVia(input: CaseInput, baseline: Resolution, state: CP.MatchState, ordered: MatchRequest,
      engine: EngineAnswer,
                              ext: Externals, sm: SourceMap, decision: Decision, resolution: Resolution,
                              r: Option<Observation>)
    requires |baseline.candidatePlans| == |input.candidates|
  {
    && SourceMapFor(Map(KeyOf, input.request.candidates), ordered.candidates, input.candidates, sm)
    && Decides(input, baseline, state, ordered.candidates, sm, engine, ext, decision, resolution)
    && r == match FinalPlanFor(input.request, resolution)
            case None => None
            case Some(plan) => Some(Observation(Map(KeyOf, ordered.candidates), decision, plan))
  }

  /** What running one observation on the ordered request yields. */
  ghost predicate ObservedAs(input: CaseInput, baseline: Resolution, state: CP.MatchState, ordered: MatchRequest,
      engine: EngineAnswer,
                             ext: Externals, r: Option<Observation>)
    requires |baseline.candidatePlans| == |input.candidates|
  {
    if !Preparable(input.request, ordered, input.candidates, ext) then r.None?
    else exists sm, decision, resolution ::
      ObservedVia(input, baseline, state, ordered, engine, ext, sm, decision, resolution, r)
  }

  method RunModelObservation(input: CaseInput, baseline: Resolution, state: CP.MatchState, orderSeed: nat,
      baseSeed: nat,
                             engine: EngineAnswer, ext: Externals)
    returns (r: Option<Observation>)
    requires input.request.candidates != [] && |baseline.candidatePlans| == |input.candidates|
    ensures ObservedAs(input, baseline, state, OrderedRequest(input.request, orderSeed, baseSeed, ext), engine, ext, r)
  {
    hide Preparable, SourceMapFor, AcceptedAs, ResponseValid, FinalPlanFor, OrderedRequest;
    var ordered := OrderedRequest(input.request, orderSeed, baseSeed, ext);
    var sm := PrepareStableRequest(input.request, ordered, input.candidates, ext);
    if sm.None? {
      return None;
    }
    var decision, resolution := FastPath, baseline;
    if state != CP.Definitive {
      match engine {
        case NoEngine => decision := Fallback(EngineUnavailable);
        case EngineFailed => decision := Fallback(EngineError);
        case Answer(version, matches) =>
          if !ResponseValid(version, matches, ordered.candidates, input.request.target, input.request.context,
            sm.value) {
            decision := Fallback(InvalidModelResponse);
          } else if matches == [] {
            decision := Fallback(EmptyModelMatches);
          } else {
            var accepted := AcceptedModelResolution(baseline, ordered.candidates, matches, input, sm.value, ext);
            if accepted.Some? {
              decision, resolution := Accepted, accepted.value;
            } else {
              decision := Fallback(CoverageValidationFailed);
            }
          }
      }
    }
    var plan := FinalPlanForResolution(input.request, resolution);
    r := if plan.None? then None else Some(Observation(Map(KeyOf, ordered.candidates), decision, plan.value));
    assert ObservedVia(input, baseline, state, ordered, engine, ext, sm.value, decision, resolution, r);
  }

  // ----- the candidate order does not matter

  lemma AcceptanceIgnoresOrder(input: CaseInput, baseline: Resolution, matches: seq<CandidateMatch>, a: MatchRequest,
      b: MatchRequest,
                               sm: SourceMap, ext: Externals, r: Option<Resolution>, q: Option<Resolution>)
    requires |baseline.candidatePlans| == |input.candidates|
    requires Preparable(input.request, a, input.candidates, ext) && Preparable(input.request, b, input.candidates, ext)
    requires Permutation(a.candidates, input.request.candidates) && Permutation(b.candidates, input.request.candidates)
    requires SourceMapFor(Map(KeyOf, input.request.candidates), a.candidates, input.candidates, sm)
    requires SourceMapFor(Map(KeyOf, input.request.candidates), b.candidates, input.candidates, sm)
    requires AcceptedAs(baseline, a.candidates, matches, input, sm, ext, r)
    requires AcceptedAs(baseline, b.candidates, matches, input, sm, ext, q)
    ensures r == q
  {
    hide Preparable, SourceMapFor, Adaptable, SupportDefined, CopiesKeys, IsSupport, CP.Convertible, Overridden;
    AdaptersAgree(input.request, a, input.candidates, ext, sm);
    AdaptersAgree(input.request, b, input.candidates, ext, sm);
    var count := |input.candidates|;
    assert Permutation(a.candidates, b.candidates);
    if SupportDefined(a.candidates, count, input.route, sm) {
      SupportIgnoresOrder(a.candidates, b.candidates, count, input.route, sm);
      var copy, support :| OverrideResult(baseline, a.candidates, matches, input, sm, ext, copy, support, r);
      var copy', support' :| OverrideResult(baseline, b.candidates, matches, input, sm, ext, copy', support', q);
      SupportIsUnique(a.candidates, count, input.route, sm, support, support');
    } else if SupportDefined(b.candidates, count, input.route, sm) {
      SupportIgnoresOrder(b.candidates, a.candidates, count, input.route, sm);
    }
  }

  lemma ResponseValidityIgnoresOrder(version: nat, matches: seq<CandidateMatch>, cs: seq<RequestCandidate>,
      ds: seq<RequestCandidate>,
                                     target: MatchTarget, context: MatchContext, sm: SourceMap)
    requires Permutation(cs, ds) && ResponseValid(version, matches, cs, target, context, sm)
    ensures ResponseValid(version, matches, ds, target, context, sm)
  {
    PermutationMembers(cs, ds);
  }

  lemma DecisionIgnoresOrder(input: CaseInput, baseline: Resolution, state: CP.MatchState, engine: EngineAnswer,
      a: MatchRequest,
                             b: MatchRequest, sm: SourceMap, ext: Externals, da: Decision, db: Decision, ra: Resolution,
                             rb: Resolution)
    requires |baseline.candidatePlans| == |input.candidates|
    requires Preparable(input.request, a, input.candidates, ext) && Preparable(input.request, b, input.candidates, ext)
    requires Permutation(a.candidates, input.request.candidates) && Permutation(b.candidates, input.request.candidates)
    requires SourceMapFor(Map(KeyOf, input.request.candidates), a.candidates, input.candidates, sm)
    requires SourceMapFor(Map(KeyOf, input.request.candidates), b.candidates, input.candidates, sm)
    requires Decides(input, baseline, state, a.candidates, sm, engine, ext, da, ra)
    requires Decides(input, baseline, state, b.candidates, sm, engine, ext, db, rb)
    ensures da == db && ra == rb
  {
    hide Preparable, SourceMapFor, AcceptedAs, ResponseValid;
    if state != CP.Definitive && engine.Answer? {
      var version, matches, target, context := engine.schemaVersion, engine.matches, input.request.target,
      input.request.context;
      assert Permutation(a.candidates, b.candidates) && Permutation(b.candidates, a.candidates);
      if ResponseValid(version, matches, a.candidates, target, context, sm) {
        ResponseValidityIgnoresOrder(version, matches, a.candidates, b.candidates, target, context, sm);
        if matches != [] {
          var xa := if da == Accepted then Some(ra) else None;
          var xb := if db == Accepted then Some(rb) else None;
          AcceptanceIgnoresOrder(input, baseline, matches, a, b, sm, ext, xa, xb);
        }
      } else if ResponseValid(version, matches, b.candidates, target, context, sm) {
        ResponseValidityIgnoresOrder(version, matches, b.candidates, a.candidates, target, context, sm);
      }
    }
  }

  /** For the same model answer, an observation under any two order seeds either fails both times or reaches the same
      decision and the same final plan; only the recorded candidate order differs, and it is a permutation. */
  lemma ObservationIgnoresOrder(input: CaseInput, baseline: Resolution, state: CP.MatchState, engine: EngineAnswer,
      ext: Externals,
                                seedA: nat, seedB: nat, baseSeed: nat, ra: Option<Observation>, rb: Option<Observation>)
    requires input.request.candidates != [] && |baseline.candidatePlans| == |input.candidates|
    ensures && ObservedAs(input, baseline, state, OrderedRequest(input.request, seedA, baseSeed, ext), engine, ext, ra)
            && ObservedAs(input, baseline, state, OrderedRequest(input.request, seedB, baseSeed, ext), engine, ext, rb)
            ==> && (ra.Some? <==> rb.Some?)
                && (ra.Some? ==> ra.value.decision == rb.value.decision && ra.value.finalPlan == rb.value.finalPlan)
  {
    hide Preparable, SourceMapFor, Decides, FinalPlanFor, OrderedRequest, FileKeysUnique;
    var base, a, b := input.request, OrderedRequest(input.request, seedA, baseSeed, ext),
    OrderedRequest(input.request, seedB, baseSeed, ext);
    if !ObservedAs(input, baseline, state, a, engine, ext, ra) ||
      !ObservedAs(input, baseline, state, b, engine, ext, rb) {
      return;
    }
    OrderingPermutesCandidates(base, seedA, baseSeed, ext);
    OrderingPermutesCandidates(base, seedB, baseSeed, ext);
    PreparationIgnoresOrder(base, a, b, input.candidates, ext);
    PreparationIgnoresOrder(base, b, a, input.candidates, ext);
    if Preparable(base, a, input.candidates, ext) {
      var sa, da, xa :| ObservedVia(input, baseline, state, a, engine, ext, sa, da, xa, ra);
      var sb, db, xb :| ObservedVia(input, baseline, state, b, engine, ext, sb, db, xb, rb);
      PreparedFileKeysUnique(base, a, input.candidates, ext);
      SourceMapIsUnique(Map(KeyOf, base.candidates), a.candidates, b.candidates, input.candidates, sa, sb);
      DecisionIgnoresOrder(input, baseline, state, engine, a, b, sa, ext, da, db, xa, xb);
    }
  }

  lemma PreparedFileKeysUnique(base: MatchRequest, ordered: MatchRequest, candidates: seq<Candidate>, ext: Externals)
    requires Preparable(base, ordered, candidates, ext)
    ensures FileKeysUnique(ordered.candidates)
  {
  }
}
