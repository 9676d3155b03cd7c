/**
 * The canonical context an anime match request carries: every wanted graph target filed under one AniList season,
 * and for every season the titles a release of it may go by.
 *
 * The equivalence key of a title (Unicode folding down to its letters and digits) is a parameter throughout.
 */
module MatchContexts {
  import opened Wrappers
  import opened Sequences
  import opened Text
  import opened Ordering
  import opened AnimeTypes
  import Decimals

  type SeasonKey = (int, string)

  datatype Error =
    | NoGraphFingerprint
    | NoTargets
    | NoAnilistIdentity(targetKey: string)
    | AmbiguousSeasons(targetKey: string)
    | NoSeasonIdentity(targetKey: string)
    | SeasonOutsideMapping(targetKey: string)
    | AnotherIdOwnsSeason(targetKey: string)

  // ----- the season a target belongs to

  function NonBlank(values: seq<string>): (r: seq<string>)
    ensures forall v :: v in r ==> v != "" && IsTrimmed(v)
  {
    if values == [] then []
    else
      var front, last := NonBlank(values[..|values| - 1]), Trim(values[|values| - 1]);
      TrimIsTrimmed(values[|values| - 1]);
      if last == "" then front else front + [last]
  }

  /** The one value all non-blank ones agree on up to letter case; of its spellings, the last. */
  function OneDistinctString(values: seq<string>): (r: Option<string>)
    ensures r.Some? ==> r.value != "" && IsTrimmed(r.value)
  {
    var present := NonBlank(values);
    if |Elements(Map(Lower, present))| == 1 && present != [] then
      assert present[|present| - 1] in present;
      Some(present[|present| - 1])
    else None
  }

  function OneDistinctInt(values: seq<int>): (r: Option<int>)
    ensures r.Some? ==> r.value in values
  {
    if |Elements(values)| == 1 && values != [] then Some(values[0]) else None
  }

  predicate NamesId(alias: ScopedAlias, id: string) {
    alias.anilistSeasonId.Some? && EqualIgnoreCase(Trim(alias.anilistSeasonId.value), id)
  }

  function AliasIds(aliases: seq<ScopedAlias>): seq<string> {
    if aliases == [] then []
    else AliasIds(aliases[..|aliases| - 1])
         + (match aliases[|aliases| - 1].anilistSeasonId case None => [] case Some(id) => [id])
  }

  function AliasSeasons(aliases: seq<ScopedAlias>, wanted: ScopedAlias -> bool): (r: seq<int>)
    ensures forall n ::
      n in r <==> exists i :: 0 <= i < |aliases| && wanted(aliases[i]) && aliases[i].seasonNumber == Some(n)
  {
    if aliases == [] then []
    else
      var front, last := AliasSeasons(aliases[..|aliases| - 1], wanted), aliases[|aliases| - 1];
      if wanted(last) && last.seasonNumber.Some? then front + [last.seasonNumber.value] else front
  }

  predicate SeasonHasAnId(aliases: seq<ScopedAlias>, n: int) {
    exists i ::
      0 <= i < |aliases| && aliases[i].seasonNumber == Some(n) && TrimToOption(aliases[i].anilistSeasonId).Some?
  }

  predicate SeasonHasId(aliases: seq<ScopedAlias>, n: int, id: string) {
    exists i :: 0 <= i < |aliases| && aliases[i].seasonNumber == Some(n)
                && TrimToOption(aliases[i].anilistSeasonId).Some? && NamesId(aliases[i], id)
  }

  function TargetSeasonIdentity(target: ScoringTarget, aliases: seq<ScopedAlias>): (r: Result<SeasonKey, Error>) {
    var anilist := TrimToOption(target.anilistSeasonId).OrElse(OneDistinctString(AliasIds(aliases)));
    if anilist.None? then Failure(NoAnilistIdentity(target.targetKey))
    else
      var id := anilist.value;
      var mapped := AliasSeasons(aliases, alias => NamesId(alias, id));
      if |Elements(mapped)| > 1 then Failure(AmbiguousSeasons(target.targetKey))
      else
        var mappedSeason := if mapped == [] then None else Some(mapped[0]);
        var season :=
          mappedSeason.OrElse(target.seasonNumber.OrElse(OneDistinctInt(AliasSeasons(aliases, _ => true))));
        if season.None? then Failure(NoSeasonIdentity(target.targetKey))
        else
          var n := season.value;
          if mapped != [] && n !in mapped then Failure(SeasonOutsideMapping(target.targetKey))
          else if SeasonHasAnId(aliases, n) && !SeasonHasId(aliases, n, id) then
            Failure(AnotherIdOwnsSeason(target.targetKey))
          else Success((n, id))
  }

  predicate ScopedAliasMatchesSeason(alias: ScopedAlias, season: SeasonKey) {
    && (alias.seasonNumber.Some? ==> alias.seasonNumber.value == season.0)
    && (alias.anilistSeasonId.Some? ==> NamesId(alias, season.1))
    && (alias.seasonNumber.Some? || alias.anilistSeasonId.Some?)
  }

  lemma OneElement(values: seq<int>, i: nat)
    requires i < |values| && |Elements(values)| <= 1
    ensures values[i] == values[0]
  {
    assert {values[0]} <= Elements(values);
    assert |Elements(values) - {values[0]}| == 0;
    assert values[i] in Elements(values) && values[i] !in Elements(values) - {values[0]};
  }

  /** The check of the resolved season against the seasons its id maps to can never fail. */
  lemma SeasonIsNeverOutsideMapping(target: ScoringTarget, aliases: seq<ScopedAlias>)
    ensures TargetSeasonIdentity(target, aliases) != Failure(SeasonOutsideMapping(target.targetKey))
  {
    hide TrimToOption, OneDistinctString, SeasonHasAnId, SeasonHasId;
  }

  /**
   * A resolved identity keeps the target's own id, contradicts no alias that knows the id's season, and shares its
   * season number with no other id unless some alias knows this id there too. So every alias that names the id is
   * attached to the season the target is filed under.
   */
  lemma IdentityIsConsistent(target: ScoringTarget, aliases: seq<ScopedAlias>)
    ensures TargetSeasonIdentity(target, aliases).Success? ==>
      var season := TargetSeasonIdentity(target, aliases).value;
      && season.1 != "" && IsTrimmed(season.1)
      && (TrimToOption(target.anilistSeasonId).Some? ==> TrimToOption(target.anilistSeasonId).value == season.1)
      && (SeasonHasAnId(aliases, season.0) ==> SeasonHasId(aliases, season.0, season.1))
      && (forall alias :: alias in aliases && NamesId(alias, season.1) ==> ScopedAliasMatchesSeason(alias, season))
  {
    hide Trim, OneDistinctString, OneDistinctInt, EqualIgnoreCase, SeasonHasAnId, SeasonHasId;
    if TargetSeasonIdentity(target, aliases).Failure? {
      return;
    }
    var season := TargetSeasonIdentity(target, aliases).value;
    if target.anilistSeasonId.Some? {
      TrimIsTrimmed(target.anilistSeasonId.value);
    }
    var mapped := AliasSeasons(aliases, alias => NamesId(alias, season.1));
    forall alias | alias in aliases && NamesId(alias, season.1)
      ensures ScopedAliasMatchesSeason(alias, season)
    {
      if alias.seasonNumber.Some? {
        assert alias.seasonNumber.value in mapped;
        var i :| 0 <= i < |mapped| && mapped[i] == alias.seasonNumber.value;
        OneElement(mapped, i);
      }
    }
  }

  /** The last check is live: season 1 belongs to B, so a target of season 1 that names A is refused. */
  lemma AnotherIdCanOwnTheSeason(target: ScoringTarget, alias: ScopedAlias)
    requires target.anilistSeasonId == Some("A") && target.seasonNumber == Some(1)
    requires alias.anilistSeasonId == Some("B") && alias.seasonNumber == Some(1)
    ensures TargetSeasonIdentity(target, [alias]) == Failure(AnotherIdOwnsSeason(target.targetKey))
  {
    TrimOfTrimmed("A");
    TrimOfTrimmed("B");
    assert !NamesId(alias, "A") by {
      assert Lower("A")[0] != Lower("B")[0];
    }
    assert [alias][0].seasonNumber == Some(1);
    assert AliasSeasons([alias], a => NamesId(a, "A")) == [] by {
      var mapped := AliasSeasons([alias], a => NamesId(a, "A"));
      assert forall n :: n !in mapped;
    }
    assert SeasonHasAnId([alias], 1);
    assert !SeasonHasId([alias], 1, "A");
  }

  // ----- filing targets under seasons

  function Filed(target: ScoringTarget): ContextTarget {
    ContextTarget(
      target.targetKey, target.title, target.seasonNumber, target.episodeNumber, target.absoluteEpisodeNumber,
      target.tvdbEpisodeId, target.anidbEpisodeId)
  }

  function KeyOf(season: Season): SeasonKey {
    (season.seasonNumber, season.anilistId)
  }

  predicate KeyLess(a: SeasonKey, b: SeasonKey) {
    a.0 < b.0 || (a.0 == b.0 && LexLess(a.1, b.1))
  }

  /** The ordered season map, listed by increasing key. */
  ghost predicate Ordered(seasons: seq<Season>) {
    forall i, j :: 0 <= i < j < |seasons| ==> KeyLess(KeyOf(seasons[i]), KeyOf(seasons[j]))
  }

  lemma KeyLessTotal(a: SeasonKey, b: SeasonKey)
    ensures KeyLess(a, b) || a == b || KeyLess(b, a)
    ensures !KeyLess(a, a) && !(KeyLess(a, b) && KeyLess(b, a))
  {
    hide LexLess;
    LexTrichotomy(a.1, b.1);
    LexTrichotomy(a.1, a.1);
  }

  lemma KeyLessTransitive(a: SeasonKey, b: SeasonKey, c: SeasonKey)
    requires KeyLess(a, b) && KeyLess(b, c)
    ensures KeyLess(a, c)
  {
    hide LexLess;
    if a.0 == b.0 == c.0 {
      LexTransitive(a.1, b.1, c.1);
    }
  }

  /** Append a target to its season's entry, creating the entry where the key order puts it. */
  function File(seasons: seq<Season>, key: SeasonKey, target: ContextTarget): (r: seq<Season>) {
    if seasons == [] || KeyLess(key, KeyOf(seasons[0])) then [Season(key.0, key.1, [], [target])] + seasons
    else if key == KeyOf(seasons[0]) then [seasons[0].(targets := seasons[0].targets + [target])] + seasons[1..]
    else [seasons[0]] + File(seasons[1..], key, target)
  }

  /** The targets filed under a key. */
  function Under(seasons: seq<Season>, key: SeasonKey): seq<ContextTarget> {
    if seasons == [] then []
    else if KeyOf(seasons[0]) == key then seasons[0].targets
    else Under(seasons[1..], key)
  }

  ghost predicate Filled(seasons: seq<Season>) {
    forall i :: 0 <= i < |seasons| ==> seasons[i].targets != [] && seasons[i].aliases == []
  }

  lemma {:induction false} UnderLaterKey(seasons: seq<Season>, key: SeasonKey)
    requires forall i :: 0 <= i < |seasons| ==> KeyLess(key, KeyOf(seasons[i]))
    ensures Under(seasons, key) == []
  {
    hide KeyLess;
    if seasons != [] {
      KeyLessTotal(key, KeyOf(seasons[0]));
      UnderLaterKey(seasons[1..], key);
    }
  }

  lemma {:induction false} FileOrdered(seasons: seq<Season>, key: SeasonKey, target: ContextTarget)
    requires Ordered(seasons) && Filled(seasons)
    ensures Ordered(File(seasons, key, target)) && Filled(File(seasons, key, target))
    ensures forall s ::
      s in File(seasons, key, target) ==> KeyOf(s) == key || exists t :: t in seasons && KeyOf(t) == KeyOf(s)
  {
    hide KeyLess;
    var filed := File(seasons, key, target);
    if seasons == [] {
    } else if KeyLess(key, KeyOf(seasons[0])) {
      forall i | 0 <= i < |seasons| ensures KeyLess(key, KeyOf(seasons[i])) {
        if i > 0 {
          KeyLessTransitive(key, KeyOf(seasons[0]), KeyOf(seasons[i]));
        }
      }
    } else if key != KeyOf(seasons[0]) {
      KeyLessTotal(key, KeyOf(seasons[0]));
      FileOrdered(seasons[1..], key, target);
      assert filed[1..] == File(seasons[1..], key, target);
      forall j | 1 <= j < |filed| ensures KeyLess(KeyOf(filed[0]), KeyOf(filed[j])) {
        assert filed[j] in filed[1..];
      }
      forall s | s in filed ensures KeyOf(s) == key || exists t :: t in seasons && KeyOf(t) == KeyOf(s) {
        if s != filed[0] {
          assert s in filed[1..];
        }
      }
    }
  }

  lemma {:induction false} FileUnder(seasons: seq<Season>, key: SeasonKey, target: ContextTarget, k: SeasonKey)
    requires Ordered(seasons)
    ensures Under(File(seasons, key, target), k) == if k == key then Under(seasons, k) + [target] else Under(seasons, k)
  {
    hide KeyLess;
    var filed := File(seasons, key, target);
    if seasons == [] {
    } else if KeyLess(key, KeyOf(seasons[0])) {
      forall i | 0 <= i < |seasons| ensures KeyLess(key, KeyOf(seasons[i])) {
        if i > 0 {
          KeyLessTransitive(key, KeyOf(seasons[0]), KeyOf(seasons[i]));
        }
      }
      UnderLaterKey(seasons, key);
      assert filed[1..] == seasons;
    } else if key == KeyOf(seasons[0]) {
      assert filed[1..] == seasons[1..];
    } else {
      FileUnder(seasons[1..], key, target, k);
      assert filed[1..] == File(seasons[1..], key, target);
    }
  }

  /** The targets of one season, in the order of the graph. */
  function TargetsOf(targets: seq<ScoringTarget>, aliases: seq<ScopedAlias>, key: SeasonKey): seq<ContextTarget> {
    if targets == [] then []
    else
      var front, last := TargetsOf(targets[..|targets| - 1], aliases, key), targets[|targets| - 1];
      if TargetSeasonIdentity(last, aliases) == Success(key) then front + [Filed(last)] else front
  }

  /** The first target without an identity decides the failure. */
  function Grouped(targets: seq<ScoringTarget>, aliases: seq<ScopedAlias>): Result<seq<Season>, Error> {
    if targets == [] then Success([])
    else
      var front := Grouped(targets[..|targets| - 1], aliases);
      if front.Failure? then front
      else
        var last := targets[|targets| - 1];
        match TargetSeasonIdentity(last, aliases)
        case Failure(e) => Failure(e)
        case Success(key) => Success(File(front.value, key, Filed(last)))
  }

  lemma {:induction false} GroupedSpec(targets: seq<ScoringTarget>, aliases: seq<ScopedAlias>)
    requires Grouped(targets, aliases).Success?
    ensures Ordered(Grouped(targets, aliases).value) && Filled(Grouped(targets, aliases).value)
    ensures forall t :: t in targets ==> TargetSeasonIdentity(t, aliases).Success?
  {
    hide TargetSeasonIdentity, File, Ordered, Filled;
    if targets == [] {
      EmptyIsOrdered();
    } else {
      var front, last := targets[..|targets| - 1], targets[|targets| - 1];
      GroupedSpec(front, aliases);
      FileOrdered(Grouped(front, aliases).value, TargetSeasonIdentity(last, aliases).value, Filed(last));
      assert targets == front + [last];
    }
  }

  lemma EmptyIsOrdered()
    ensures Ordered([]) && Filled([])
  {
  }

  lemma {:induction false} GroupedUnder(targets: seq<ScoringTarget>, aliases: seq<ScopedAlias>, k: SeasonKey)
    requires Grouped(targets, aliases).Success?
    ensures Under(Grouped(targets, aliases).value, k) == TargetsOf(targets, aliases, k)
  {
    hide TargetSeasonIdentity, File, Ordered, Filled;
    if targets != [] {
      var front, last := targets[..|targets| - 1], targets[|targets| - 1];
      GroupedUnder(front, aliases, k);
      GroupedSpec(front, aliases);
      FileUnder(Grouped(front, aliases).value, TargetSeasonIdentity(last, aliases).value, Filed(last), k);
    }
  }

  lemma {:induction false} UnderMember(seasons: seq<Season>, i: nat)
    requires Ordered(seasons) && i < |seasons|
    ensures Under(seasons, KeyOf(seasons[i])) == seasons[i].targets
  {
    hide KeyLess;
    if i > 0 {
      KeyLessTotal(KeyOf(seasons[0]), KeyOf(seasons[i]));
      UnderMember(seasons[1..], i - 1);
    }
  }

  lemma {:induction false} UnderFound(seasons: seq<Season>, key: SeasonKey)
    requires Under(seasons, key) != []
    ensures exists i :: 0 <= i < |seasons| && KeyOf(seasons[i]) == key
  {
    if KeyOf(seasons[0]) != key {
      UnderFound(seasons[1..], key);
      var i :| 0 <= i < |seasons[1..]| && KeyOf(seasons[1..][i]) == key;
      assert KeyOf(seasons[i + 1]) == key;
    }
  }

  // ----- the titles of a season

  predicate IsJapaneseScript(c: char) {
    || '\U{3040}' <= c <= '\U{30ff}'
    || '\U{31f0}' <= c <= '\U{31ff}'
    || '\U{3400}' <= c <= '\U{4dbf}'
    || '\U{4e00}' <= c <= '\U{9fff}'
    || '\U{f900}' <= c <= '\U{faff}'
  }

  function Classify(language: Option<string>, source: string, value: string): (kind: AliasKind)
    ensures kind != Canonical
  {
    if StartsWith(Lower(Trim(source)), "generated_season") then Generated
    else
      var tag := MapChars(c => ReplaceChar(c, {'_'}, '-'), Lower(Trim(language.GetOr(""))));
      if tag in ["en", "eng", "english"] || StartsWith(tag, "en-") then English
      else if tag in ["romaji", "x-jat", "ja-latn", "jpn-latn"] then Romaji
      else if tag in ["ja", "jpn", "japanese", "x-jpn", "native"] ||
        exists i :: 0 <= i < |value| && IsJapaneseScript(value[i])
      then Native
      else Synonym
  }

  function Specificity(kind: AliasKind): nat {
    match kind
    case Canonical => 6
    case English => 5
    case Romaji => 4
    case Native => 3
    case Generated => 2
    case Synonym => 1
  }

  /** Put an alias in the list: over a less specific one with its key, not over any other, else at the end. */
  function Place(key: string -> string, aliases: seq<Alias>, alias: Alias): (r: seq<Alias>) {
    if aliases == [] then [alias]
    else if key(aliases[0].value) == key(alias.value) then
      if Specificity(alias.kind) > Specificity(aliases[0].kind) then [alias] + aliases[1..] else aliases
    else [aliases[0]] + Place(key, aliases[1..], alias)
  }

  function Insert(key: string -> string, aliases: seq<Alias>, alias: Alias): (r: seq<Alias>) {
    if IsBlank(alias.value) then aliases else Place(key, aliases, alias)
  }

  function InsertAll(key: string -> string, aliases: seq<Alias>): (r: seq<Alias>) {
    if aliases == [] then [] else Insert(key, InsertAll(key, aliases[..|aliases| - 1]), aliases[|aliases| - 1])
  }

  lemma PlacePastMiss(key: string -> string, aliases: seq<Alias>, i: nat, alias: Alias)
    requires i < |aliases| && key(aliases[i].value) != key(alias.value)
    ensures aliases[..i] + Place(key, aliases[i..], alias) == aliases[..i + 1] + Place(key, aliases[i + 1..], alias)
  {
    hide Specificity;
    var rest := Place(key, aliases[i + 1..], alias);
    assert aliases[i..][1..] == aliases[i + 1..];
    assert Place(key, aliases[i..], alias) == [aliases[i]] + rest;
    assert aliases[..i] + ([aliases[i]] + rest) == aliases[..i + 1] + rest;
  }

  /** `insert_alias`: scan for the key, then overwrite in place, leave alone, or push. */
  method InsertAlias(key: string -> string, aliases: seq<Alias>, alias: Alias) returns (r: seq<Alias>)
    ensures r == Insert(key, aliases, alias)
  {
    hide Trim, Specificity;
    if IsBlank(alias.value) {
      return aliases;
    }
    var wanted := key(alias.value);
    var i := 0;
    assert aliases[..0] == [] && aliases[0..] == aliases;
    assert [] + Place(key, aliases, alias) == Place(key, aliases, alias);
    while i < |aliases| && key(aliases[i].value) != wanted
      invariant 0 <= i <= |aliases|
      invariant Place(key, aliases, alias) == aliases[..i] + Place(key, aliases[i..], alias)
    {
      PlacePastMiss(key, aliases, i, alias);
      i := i + 1;
    }
    PlaceHere(key, aliases, i, alias);
    if i < |aliases| {
      r := if Specificity(alias.kind) > Specificity(aliases[i].kind) then aliases[i := alias] else aliases;
    } else {
      r := aliases + [alias];
    }
  }

  lemma PlaceHere(key: string -> string, aliases: seq<Alias>, i: nat, alias: Alias)
    requires i < |aliases| ==> key(aliases[i].value) == key(alias.value)
    requires i <= |aliases|
    ensures aliases[..i] + Place(key, aliases[i..], alias)
         == if i == |aliases| then aliases + [alias]
            else if Specificity(alias.kind) > Specificity(aliases[i].kind) then aliases[i := alias]
            else aliases
  {
    hide Specificity;
    if i < |aliases| {
      assert aliases[..i] + ([alias] + aliases[i..][1..]) == aliases[i := alias];
      assert aliases[..i] + aliases[i..] == aliases;
    } else {
      assert aliases[..i] == aliases;
    }
  }

  /** Of all non-blank insertions with the alias's key it is the first among the most specific. */
  ghost predicate MostSpecific(key: string -> string, inserted: seq<Alias>, alias: Alias) {
    exists i :: 0 <= i < |inserted| && inserted[i] == alias && MostSpecificAt(key, inserted, i)
  }

  ghost predicate MostSpecificAt(key: string -> string, inserted: seq<Alias>, i: nat)
    requires i < |inserted|
  {
    && !IsBlank(inserted[i].value)
    && (forall j :: 0 <= j < |inserted| && Competes(key, inserted[j], inserted[i])
                    ==> Specificity(inserted[j].kind) <= Specificity(inserted[i].kind))
    && (forall j :: 0 <= j < i && Competes(key, inserted[j], inserted[i])
                    ==> Specificity(inserted[j].kind) < Specificity(inserted[i].kind))
  }

  predicate Competes(key: string -> string, a: Alias, b: Alias) {
    !IsBlank(a.value) && key(a.value) == key(b.value)
  }

  function AliasKey(key: string -> string): Alias -> string {
    (alias: Alias) => key(alias.value)
  }

  lemma {:induction false} PlaceSpec(key: string -> string, aliases: seq<Alias>, alias: Alias)
    requires DistinctBy(AliasKey(key), aliases)
    ensures DistinctBy(AliasKey(key), Place(key, aliases, alias))
    ensures forall a :: a in Place(key, aliases, alias) <==>
      || (a in aliases && (key(a.value) == key(alias.value) ==> Specificity(alias.kind) <= Specificity(a.kind)))
      || (a == alias && forall b ::
        b in aliases && key(b.value) == key(alias.value) ==> Specificity(b.kind) < Specificity(alias.kind))
  {
    hide Specificity;
    var r := Place(key, aliases, alias);
    var rank := AliasKey(key);
    if aliases != [] {
      var head, tail := aliases[0], aliases[1..];
      assert aliases == [head] + tail;
      assert forall a :: a in tail ==> rank(a) != rank(head);
      assert DistinctBy(rank, tail) by {
        forall i, j | 0 <= i < j < |tail| ensures rank(tail[i]) != rank(tail[j]) {
          assert rank(aliases[i + 1]) != rank(aliases[j + 1]);
        }
      }
      if rank(head) == rank(alias) {
        PlaceOverHead(key, aliases, alias);
      } else {
        PlaceSpec(key, tail, alias);
        assert r == [head] + Place(key, tail, alias);
        forall j | 1 <= j < |r| ensures rank(r[0]) != rank(r[j]) {
          assert r[j] in Place(key, tail, alias);
        }
      }
    }
  }

  lemma PlaceOverHead(key: string -> string, aliases: seq<Alias>, alias: Alias)
    requires aliases != [] && DistinctBy(AliasKey(key), aliases) && key(aliases[0].value) == key(alias.value)
    ensures DistinctBy(AliasKey(key), Place(key, aliases, alias))
    ensures forall a :: a in Place(key, aliases, alias) <==>
      || (a in aliases && (key(a.value) == key(alias.value) ==> Specificity(alias.kind) <= Specificity(a.kind)))
      || (a == alias && forall b ::
        b in aliases && key(b.value) == key(alias.value) ==> Specificity(b.kind) < Specificity(alias.kind))
  {
    hide Specificity;
    var rank := AliasKey(key);
    assert aliases == [aliases[0]] + aliases[1..];
    forall b | b in aliases && b != aliases[0] ensures rank(b) != rank(aliases[0]) {
      var i :| 0 <= i < |aliases| && aliases[i] == b;
      assert i > 0;
    }
    forall b | b in aliases[1..] ensures rank(b) != rank(aliases[0]) {
      var i :| 0 <= i < |aliases[1..]| && aliases[1..][i] == b;
      assert b == aliases[i + 1];
    }
  }

  /** Whatever was inserted under a key, some insertion under it is the most specific. */
  lemma {:induction false} SomeMostSpecific(key: string -> string, inserted: seq<Alias>, j: nat) returns (i: nat)
    requires j < |inserted| && !IsBlank(inserted[j].value)
    ensures i < |inserted| && MostSpecificAt(key, inserted, i) && key(inserted[i].value) == key(inserted[j].value)
    ensures Specificity(inserted[j].kind) <= Specificity(inserted[i].kind)
  {
    hide Specificity, IsBlank;
    var last := |inserted| - 1;
    var front := inserted[..last];
    if j < last {
      i := SomeMostSpecific(key, front, j);
      if Competes(key, inserted[last], inserted[i]) &&
        Specificity(inserted[last].kind) > Specificity(inserted[i].kind) {
        i := last;
      }
    } else if k :| 0 <= k < last && Competes(key, inserted[k], inserted[j]) {
      i := SomeMostSpecific(key, front, k);
      if Specificity(inserted[last].kind) > Specificity(inserted[i].kind) {
        i := last;
      }
    } else {
      i := j;
    }
  }

  lemma MostSpecificOfPrefix(key: string -> string, front: seq<Alias>, last: Alias, i: nat)
    requires i < |front|
    ensures MostSpecificAt(key, front + [last], i) <==>
      && MostSpecificAt(key, front, i)
      && (Competes(key, last, front[i]) ==> Specificity(last.kind) <= Specificity(front[i].kind))
  {
    hide Specificity, IsBlank, Competes;
    var all := front + [last];
    assert forall j :: 0 <= j < |front| ==> all[j] == front[j];
    assert all[|front|] == last;
  }

  lemma {:induction false} MostSpecificStep(key: string -> string, front: seq<Alias>, last: Alias, a: Alias)
    ensures MostSpecific(key, front + [last], a) <==>
      || (MostSpecific(key, front, a) && (Competes(key, last, a) ==> Specificity(last.kind) <= Specificity(a.kind)))
      || (a == last && MostSpecificAt(key, front + [last], |front|))
  {
    hide Specificity, IsBlank, Competes, MostSpecificAt;
    var all := front + [last];
    if MostSpecific(key, all, a) {
      var i :| 0 <= i < |all| && all[i] == a && MostSpecificAt(key, all, i);
      if i < |front| {
        MostSpecificOfPrefix(key, front, last, i);
        assert front[i] == a;
      }
    }
    if MostSpecific(key, front, a) && (Competes(key, last, a) ==> Specificity(last.kind) <= Specificity(a.kind)) {
      var i :| 0 <= i < |front| && front[i] == a && MostSpecificAt(key, front, i);
      MostSpecificOfPrefix(key, front, last, i);
      assert all[i] == a;
    }
    if a == last && MostSpecificAt(key, all, |front|) {
      assert all[|front|] == a;
    }
  }

  /** A newcomer beats everything before it exactly when it beats the most specific ones before it. */
  lemma NewcomerWins(key: string -> string, front: seq<Alias>, last: Alias)
    requires !IsBlank(last.value)
    ensures MostSpecificAt(key, front + [last], |front|) <==>
      forall b ::
        MostSpecific(key, front, b) && key(b.value) == key(last.value) ==> Specificity(b.kind) < Specificity(last.kind)
  {
    hide Specificity, IsBlank;
    var all := front + [last];
    assert forall j :: 0 <= j < |front| ==> all[j] == front[j];
    if forall b ::
      MostSpecific(key, front, b) && key(b.value) == key(last.value) ==> Specificity(b.kind) < Specificity(last.kind) {
      forall j | 0 <= j < |front| && Competes(key, front[j], last)
        ensures Specificity(front[j].kind) < Specificity(last.kind)
      {
        var i := SomeMostSpecific(key, front, j);
        assert MostSpecific(key, front, front[i]);
      }
    }
  }

  /** The list built by insertion holds, once each, exactly the most specific insertion under every key. */
  lemma {:induction false} InsertAllSpec(key: string -> string, inserted: seq<Alias>)
    ensures DistinctBy(AliasKey(key), InsertAll(key, inserted))
    ensures forall a :: a in InsertAll(key, inserted) <==> MostSpecific(key, inserted, a)
  {
    hide Specificity, IsBlank, MostSpecificAt, Place;
    if inserted != [] {
      var front, last := inserted[..|inserted| - 1], inserted[|inserted| - 1];
      assert inserted == front + [last];
      InsertAllSpec(key, front);
      forall a ensures a in InsertAll(key, inserted) <==> MostSpecific(key, inserted, a) {
        MostSpecificStep(key, front, last, a);
        if IsBlank(last.value) {
          BlankNeverWins(key, inserted);
        } else {
          NewcomerWins(key, front, last);
          PlaceSpec(key, InsertAll(key, front), last);
        }
      }
      if !IsBlank(last.value) {
        PlaceSpec(key, InsertAll(key, front), last);
      }
    }
  }

  lemma BlankNeverWins(key: string -> string, inserted: seq<Alias>)
    requires inserted != [] && IsBlank(inserted[|inserted| - 1].value)
    ensures !MostSpecificAt(key, inserted, |inserted| - 1)
  {
  }

  lemma InsertedKeys(key: string -> string, inserted: seq<Alias>, k: string)
    ensures (exists a :: a in InsertAll(key, inserted) && key(a.value) == k)
       <==> (exists b :: b in inserted && !IsBlank(b.value) && key(b.value) == k)
  {
    hide IsBlank, InsertAll, Specificity;
    InsertAllSpec(key, inserted);
    if b :| b in inserted && !IsBlank(b.value) && key(b.value) == k {
      var j :| 0 <= j < |inserted| && inserted[j] == b;
      var i := SomeMostSpecific(key, inserted, j);
      assert inserted[i] in InsertAll(key, inserted);
    }
  }

  // ----- what is inserted for a season

  function CanonicalAlias(title: string): Alias {
    Alias(Trim(title), Canonical, Some("canonical_title"), None)
  }

  /** Graph-wide aliases name the whole show, so episode titles and titles known to belong to one season stay out. */
  function GraphAliases(key: string -> string, context: ScoringContext, aliases: seq<string>): seq<Alias> {
    if aliases == [] then []
    else
      var front, last := GraphAliases(key, context, aliases[..|aliases| - 1]), aliases[|aliases| - 1];
      if key(last) in EpisodeTitleKeys(key, context) || key(last) in ScopedKeys(key, context) then front
      else front + [Alias(Trim(last), Synonym, Some("graph_alias"), None)]
  }

  function EpisodeTitleKeys(key: string -> string, context: ScoringContext): set<string> {
    set i | 0 <= i < |context.targets| :: key(context.targets[i].title)
  }

  function ScopedKeys(key: string -> string, context: ScoringContext): set<string> {
    set i | 0 <= i < |context.scopedAliases| :: key(context.scopedAliases[i].display)
  }

  function ScopedEntry(alias: ScopedAlias): Alias {
    Alias(Trim(alias.display), Classify(alias.language, alias.source, alias.display), Some(alias.source),
      alias.language)
  }

  function SeasonScoped(aliases: seq<ScopedAlias>, season: SeasonKey): (r: seq<Alias>) {
    if aliases == [] then []
    else
      var front, last := SeasonScoped(aliases[..|aliases| - 1], season), aliases[|aliases| - 1];
      if ScopedAliasMatchesSeason(last, season) then front + [ScopedEntry(last)] else front
  }

  lemma {:induction false} SeasonScopedMember(aliases: seq<ScopedAlias>, season: SeasonKey, a: Alias)
    ensures a in SeasonScoped(aliases, season)
       <==> exists b :: b in aliases && ScopedAliasMatchesSeason(b, season) && a == ScopedEntry(b)
  {
    hide ScopedAliasMatchesSeason, ScopedEntry;
    if aliases != [] {
      var front, last := aliases[..|aliases| - 1], aliases[|aliases| - 1];
      assert aliases == front + [last];
      SeasonScopedMember(front, season, a);
    }
  }

  /** The spellings of a later season of a show: "Title Season 2", "Title S2", "Title S02". */
  function Labels(title: string, n: int): seq<string> {
    if n > 1 then
      [ Trim(title) + " Season " + Decimals.Print(n),
        Trim(title) + " S" + Decimals.Print(n),
        Trim(title) + " S" + Decimals.PrintPadded(n, 2) ]
    else []
  }

  function LabelAlias(title: string, n: int, i: nat): Alias
    requires i < |Labels(title, n)|
  {
    var source := if i == 0 then "generated_season_ordinal" else "generated_season_short";
    Alias(Labels(title, n)[i], Generated, Some(source), None)
  }

  function LabelAliases(title: string, n: int): (r: seq<Alias>)
    ensures |r| == |Labels(title, n)|
    ensures forall i :: 0 <= i < |r| ==> r[i] == LabelAlias(title, n, i)
  {
    seq(|Labels(title, n)|, i requires 0 <= i < |Labels(title, n)| => LabelAlias(title, n, i))
  }

  /** Everything offered to the season's alias list, in order. */
  function Insertions(key: string -> string, title: string, context: ScoringContext, season: SeasonKey): seq<Alias> {
    [CanonicalAlias(title)] + GraphAliases(key, context, context.aliases)
    + SeasonScoped(context.scopedAliases, season) + LabelAliases(title, season.0)
  }

  function KindOrdinal(kind: AliasKind): char {
    match kind
    case Canonical => '0'
    case English => '1'
    case Romaji => '2'
    case Native => '3'
    case Synonym => '4'
    case Generated => '5'
  }

  /** By kind, then by key; keys are unique in a season, so the third sort field never decides. */
  function AliasRank(key: string -> string): Alias -> string {
    (alias: Alias) => [KindOrdinal(alias.kind)] + key(alias.value)
  }

  function SeasonAliases(key: string -> string, title: string, context: ScoringContext, season: SeasonKey): seq<Alias> {
    SortBy(AliasRank(key), InsertAll(key, Insertions(key, title, context, season)))
  }

  /** A season knows exactly one title per equivalence key, the most specific one offered to it. */
  lemma SeasonAliasesSpec(key: string -> string, title: string, context: ScoringContext, season: SeasonKey)
    ensures DistinctBy(AliasKey(key), SeasonAliases(key, title, context, season))
    ensures SortedBy(AliasRank(key), SeasonAliases(key, title, context, season))
    ensures forall a :: a in SeasonAliases(key, title, context, season)
                   <==> MostSpecific(key, Insertions(key, title, context, season), a)
  {
    hide Insertions, InsertAll, SortBy, MostSpecific;
    var inserted := Insertions(key, title, context, season);
    InsertAllSpec(key, inserted);
    SortByPermutes(AliasRank(key), InsertAll(key, inserted));
    SortBySorted(AliasRank(key), InsertAll(key, inserted));
    PermutationMembers(InsertAll(key, inserted), SeasonAliases(key, title, context, season));
    PermutationDistinctBy(AliasKey(key), InsertAll(key, inserted), SeasonAliases(key, title, context, season));
  }

  lemma {:induction false} GraphAliasesAvoidScoped(
      key: string -> string, context: ScoringContext, aliases: seq<string>, a: Alias)
    requires forall s :: key(Trim(s)) == key(s)
    requires a in GraphAliases(key, context, aliases)
    ensures key(a.value) !in ScopedKeys(key, context) && a.kind == Synonym
  {
    hide Trim, ScopedKeys, EpisodeTitleKeys;
    var front, last := aliases[..|aliases| - 1], aliases[|aliases| - 1];
    if a in GraphAliases(key, context, front) {
      GraphAliasesAvoidScoped(key, context, front, a);
    } else {
      assert key(Trim(last)) == key(last);
    }
  }

  lemma LabelIsNotBlank(title: string, n: int, i: nat)
    requires i < |Labels(title, n)|
    ensures !IsBlank(Labels(title, n)[i])
  {
    hide Trim;
    var text := Labels(title, n)[i];
    assert IsDigit(text[|text| - 1]) by {
      assert Decimals.AllDigits(if i == 2 then Decimals.PrintPadded(n, 2) else Decimals.Print(n));
    }
    EndsInText(text);
  }

  lemma {:induction false} EndsInText(s: string)
    requires s != "" && !IsSpace(s[|s| - 1])
    ensures !IsBlank(s)
  {
    if IsSpace(s[0]) {
      EndsInText(s[1..]);
    }
  }

  /** The title, one of the season's labels, or a scoped alias of this season goes by the key. */
  ghost predicate KnownAs(key: string -> string, title: string, context: ScoringContext, season: SeasonKey, k: string) {
    || (!IsBlank(title) && key(title) == k)
    || (exists i :: 0 <= i < |Labels(title, season.0)| && key(Labels(title, season.0)[i]) == k)
    || (exists i :: 0 <= i < |context.scopedAliases| && OwnAlias(key, context.scopedAliases[i], season, k))
  }

  predicate OwnAlias(key: string -> string, alias: ScopedAlias, season: SeasonKey, k: string) {
    ScopedAliasMatchesSeason(alias, season) && !IsBlank(alias.display) && key(alias.display) == k
  }

  lemma OfferedIsKnown(key: string -> string, title: string, context: ScoringContext, season: SeasonKey, b: Alias)
    requires forall s :: key(Trim(s)) == key(s)
    requires b in Insertions(key, title, context, season) && !IsBlank(b.value) &&
      key(b.value) in ScopedKeys(key, context)
    ensures KnownAs(key, title, context, season, key(b.value))
  {
    hide Trim, ScopedKeys, ScopedAliasMatchesSeason, GraphAliases, Labels, Classify;
    if b == CanonicalAlias(title) {
      TrimIdempotent(title);
      assert key(Trim(title)) == key(title);
    } else if b in GraphAliases(key, context, context.aliases) {
      GraphAliasesAvoidScoped(key, context, context.aliases, b);
    } else if b in SeasonScoped(context.scopedAliases, season) {
      var scoped := context.scopedAliases;
      SeasonScopedMember(scoped, season, b);
      var alias :| alias in scoped && ScopedAliasMatchesSeason(alias, season) && b == ScopedEntry(alias);
      var i :| 0 <= i < |scoped| && scoped[i] == alias;
      TrimIdempotent(scoped[i].display);
      assert key(Trim(scoped[i].display)) == key(scoped[i].display);
      assert OwnAlias(key, scoped[i], season, key(b.value));
    } else {
      assert b in LabelAliases(title, season.0);
    }
  }

  lemma KnownIsOffered(key: string -> string, title: string, context: ScoringContext, season: SeasonKey, k: string)
    requires forall s :: key(Trim(s)) == key(s)
    requires KnownAs(key, title, context, season, k)
    ensures exists b :: b in Insertions(key, title, context, season) && !IsBlank(b.value) && key(b.value) == k
  {
    hide Trim, ScopedAliasMatchesSeason, GraphAliases, Labels, Classify;
    var all := Insertions(key, title, context, season);
    if !IsBlank(title) && key(title) == k {
      TrimIdempotent(title);
      assert key(Trim(title)) == key(title);
      assert CanonicalAlias(title) in all;
    } else if i :| 0 <= i < |Labels(title, season.0)| && key(Labels(title, season.0)[i]) == k {
      LabelIsNotBlank(title, season.0, i);
      assert LabelAliases(title, season.0)[i] in all;
    } else {
      var scoped := context.scopedAliases;
      var i :| 0 <= i < |scoped| && OwnAlias(key, scoped[i], season, k);
      TrimIdempotent(scoped[i].display);
      assert key(Trim(scoped[i].display)) == key(scoped[i].display);
      SeasonScopedMember(scoped, season, ScopedEntry(scoped[i]));
      assert ScopedEntry(scoped[i]) in all;
    }
  }

  /**
   * A title scoped to some seasons appears in any season exactly when that season earns it: through the show's title,
   * through a generated label, or through a scoped alias of its own. Graph-wide aliases never carry it over.
   */
  lemma ScopedAliasStaysInSeason(
      key: string -> string, title: string, context: ScoringContext, season: SeasonKey, alias: ScopedAlias)
    requires forall s :: key(Trim(s)) == key(s)
    requires alias in context.scopedAliases
    ensures (exists a :: a in SeasonAliases(key, title, context, season) && key(a.value) == key(alias.display))
       <==> KnownAs(key, title, context, season, key(alias.display))
  {
    hide Trim, Insertions, InsertAll, SortBy, KnownAs;
    var inserted := Insertions(key, title, context, season);
    var k := key(alias.display);
    assert k in ScopedKeys(key, context);
    SortByPermutes(AliasRank(key), InsertAll(key, inserted));
    PermutationMembers(SeasonAliases(key, title, context, season), InsertAll(key, inserted));
    InsertedKeys(key, inserted, k);
    if b :| b in inserted && !IsBlank(b.value) && key(b.value) == k {
      OfferedIsKnown(key, title, context, season, b);
    }
    if KnownAs(key, title, context, season, k) {
      KnownIsOffered(key, title, context, season, k);
    }
  }

  /** A title scoped to the first season can be in the second through another scoped alias, not the title or a label. */
  lemma SharedTitleReappears(first: ScopedAlias, second: ScopedAlias)
    requires first.display == second.display == "Y" && first.seasonNumber == Some(1) && second.seasonNumber == Some(2)
    requires second.anilistSeasonId.None?
    ensures var context := ScoringContext(None, [], [first, second], []);
      && !ScopedAliasMatchesSeason(first, (2, "id"))
      && Trim("X") != Trim(first.display)
      && (forall i :: 0 <= i < |Labels("X", 2)| ==> Trim(Labels("X", 2)[i]) != Trim(first.display))
      && exists a :: a in SeasonAliases(Trim, "X", context, (2, "id")) && Trim(a.value) == Trim(first.display)
  {
    hide SeasonAliases;
    var context := ScoringContext(None, [], [first, second], []);
    TrimOfTrimmed("X");
    TrimOfTrimmed("Y");
    forall i | 0 <= i < |Labels("X", 2)| ensures Trim(Labels("X", 2)[i]) != "Y" {
      LabelIsNotY(i);
    }
    forall s ensures Trim(Trim(s)) == Trim(s) {
      TrimIdempotent(s);
    }
    assert OwnAlias(Trim, context.scopedAliases[1], (2, "id"), "Y");
    assert first == context.scopedAliases[0];
    ScopedAliasStaysInSeason(Trim, "X", context, (2, "id"), first);
  }

  lemma LabelIsNotY(i: nat)
    requires i < |Labels("X", 2)|
    ensures Trim(Labels("X", 2)[i]) != "Y"
  {
    TrimOfTrimmed("X");
    TrimOfTrimmed(Labels("X", 2)[i]);
  }

  /** The show's title is in every season, as itself, and nothing else there is called canonical. */
  lemma TitleIsCanonical(key: string -> string, title: string, context: ScoringContext, season: SeasonKey, a: Alias)
    requires forall s :: key(Trim(s)) == key(s)
    requires !IsBlank(title)
    ensures a in SeasonAliases(key, title, context, season) && (a.kind == Canonical || key(a.value) == key(title))
       <==> a == CanonicalAlias(title)
  {
    hide Trim, InsertAll, SortBy, ScopedAliasMatchesSeason, GraphAliases, Classify, Labels, SeasonAliases;
    SeasonAliasesSpec(key, title, context, season);
    var inserted := Insertions(key, title, context, season);
    TrimIdempotent(title);
    assert key(Trim(title)) == key(title);
    assert inserted[0] == CanonicalAlias(title);
    assert MostSpecificAt(key, inserted, 0) && MostSpecific(key, inserted, inserted[0]);
    if MostSpecific(key, inserted, a) {
      var i :| 0 <= i < |inserted| && inserted[i] == a && MostSpecificAt(key, inserted, i);
      if i > 0 {
        assert !Competes(key, inserted[0], a);
        OnlyTitleIsCanonical(key, title, context, season, i);
      }
    }
  }

  lemma OnlyTitleIsCanonical(key: string -> string, title: string, context: ScoringContext, season: SeasonKey, i: nat)
    requires forall s :: key(Trim(s)) == key(s)
    requires 0 < i < |Insertions(key, title, context, season)|
    ensures Insertions(key, title, context, season)[i].kind != Canonical
  {
    hide Trim, ScopedAliasMatchesSeason, GraphAliases, Classify, Labels;
    var graph := GraphAliases(key, context, context.aliases);
    var scoped := SeasonScoped(context.scopedAliases, season);
    if i < 1 + |graph| {
      GraphAliasesAvoidScoped(key, context, context.aliases, graph[i - 1]);
    } else if i < 1 + |graph| + |scoped| {
      SeasonScopedMember(context.scopedAliases, season, scoped[i - 1 - |graph|]);
    }
  }

  // ----- the finished context

  const MAX_I32 := 0x7fff_ffff

  /** Compare by season, episode and absolute number, absent ones last, then by key. */
  predicate TargetLeq(a: ContextTarget, b: ContextTarget) {
    var a1, b1 := a.seasonNumber.GetOr(MAX_I32), b.seasonNumber.GetOr(MAX_I32);
    var a2, b2 := a.episodeNumber.GetOr(MAX_I32), b.episodeNumber.GetOr(MAX_I32);
    var a3, b3 := a.absoluteEpisodeNumber.GetOr(MAX_I32), b.absoluteEpisodeNumber.GetOr(MAX_I32);
    if a1 != b1 then a1 < b1 else if a2 != b2 then a2 < b2 else if a3 != b3 then a3 < b3
    else !LexLess(b.targetKey, a.targetKey)
  }

  function SortTargets(s: seq<ContextTarget>): seq<ContextTarget> {
    SortWith(TargetLeq, s)
  }

  ghost predicate TargetsSorted(s: seq<ContextTarget>) {
    SortedWith(TargetLeq, s)
  }

  lemma TargetLeqOrder(a: ContextTarget, b: ContextTarget, c: ContextTarget)
    ensures TargetLeq(a, b) || TargetLeq(b, a)
    ensures TargetLeq(a, b) && TargetLeq(b, c) ==> TargetLeq(a, c)
  {
    hide LexLess;
    LexTrichotomy(a.targetKey, b.targetKey);
    LexTrichotomy(b.targetKey, c.targetKey);
    LexTrichotomy(a.targetKey, c.targetKey);
    if LexLess(c.targetKey, a.targetKey) && LexLess(a.targetKey, b.targetKey) {
      LexTransitive(c.targetKey, a.targetKey, b.targetKey);
    }
  }

  lemma SortTargetsSpec(s: seq<ContextTarget>)
    ensures TargetsSorted(SortTargets(s)) && Permutation(SortTargets(s), s)
  {
    hide TargetLeq;
    assert TotalPreorder(TargetLeq) by {
      forall a, b ensures TargetLeq(a, b) || TargetLeq(b, a) {
        TargetLeqOrder(a, b, a);
      }
      forall a, b, c | TargetLeq(a, b) && TargetLeq(b, c) ensures TargetLeq(a, c) {
        TargetLeqOrder(a, b, c);
      }
    }
    SortWithSpec(TargetLeq, s);
  }

  function Finished(key: string -> string, title: string, context: ScoringContext, season: Season): Season {
    season.(aliases := SeasonAliases(key, title, context, KeyOf(season)), targets := SortTargets(season.targets))
  }

  function FinishedAll(
      key: string -> string, title: string, context: ScoringContext, seasons: seq<Season>): (r: seq<Season>)
    ensures |r| == |seasons|
    ensures forall i :: 0 <= i < |seasons| ==> r[i] == Finished(key, title, context, seasons[i])
  {
    seq(|seasons|, i requires 0 <= i < |seasons| => Finished(key, title, context, seasons[i]))
  }

  function Built(key: string -> string, title: string, context: ScoringContext): (r: Result<MatchContext, Error>) {
    var fingerprint := TrimToOption(context.graphFingerprint);
    if fingerprint.None? then Failure(NoGraphFingerprint)
    else
      var grouped :- Grouped(context.targets, context.scopedAliases);
      if grouped == [] then Failure(NoTargets)
      else Success(MatchContext(fingerprint.value, FinishedAll(key, title, context, grouped)))
  }

  /** Seasons are told apart by number and AniList id; each holds its own targets, all of them, once each. */
  ghost predicate PartitionsTargets(context: ScoringContext, seasons: seq<Season>) {
    && Ordered(seasons)
    && (forall i :: 0 <= i < |seasons| ==>
          && seasons[i].targets != []
          && TargetsSorted(seasons[i].targets)
          && Permutation(seasons[i].targets, TargetsOf(context.targets, context.scopedAliases, KeyOf(seasons[i]))))
    && (forall t :: t in context.targets ==> InSomeSeason(t, context, seasons))
  }

  ghost predicate InSomeSeason(target: ScoringTarget, context: ScoringContext, seasons: seq<Season>) {
    exists i :: 0 <= i < |seasons| && TargetSeasonIdentity(target, context.scopedAliases) == Success(KeyOf(seasons[i]))
  }

  lemma {:induction false} TargetsOfMember(targets: seq<ScoringTarget>, aliases: seq<ScopedAlias>, t: ScoringTarget)
    requires t in targets && TargetSeasonIdentity(t, aliases).Success?
    ensures TargetsOf(targets, aliases, TargetSeasonIdentity(t, aliases).value) != []
  {
    hide TargetSeasonIdentity;
    var front, last := targets[..|targets| - 1], targets[|targets| - 1];
    assert targets == front + [last];
    if t in front {
      TargetsOfMember(front, aliases, t);
    }
  }

  /** Every target of a built context is in exactly one season, the one its identity names. */
  lemma EveryTargetInOneSeason(key: string -> string, title: string, context: ScoringContext)
    ensures Built(key, title, context).Success? ==> PartitionsTargets(context, Built(key, title, context).value.seasons)
  {
    hide TargetSeasonIdentity, KeyLess, SeasonAliases, SortWith, SortedWith, TrimToOption;
    if Built(key, title, context).Failure? {
      return;
    }
    var grouped := Grouped(context.targets, context.scopedAliases).value;
    var seasons := Built(key, title, context).value.seasons;
    GroupedSpec(context.targets, context.scopedAliases);
    assert Ordered(seasons) by {
      assert forall i :: 0 <= i < |seasons| ==> KeyOf(seasons[i]) == KeyOf(grouped[i]);
    }
    forall i | 0 <= i < |seasons|
      ensures seasons[i].targets != [] && TargetsSorted(seasons[i].targets)
      ensures Permutation(seasons[i].targets, TargetsOf(context.targets, context.scopedAliases, KeyOf(seasons[i])))
    {
      assert seasons[i] == Finished(key, title, context, grouped[i]);
      UnderMember(grouped, i);
      GroupedUnder(context.targets, context.scopedAliases, KeyOf(grouped[i]));
      SortTargetsSpec(grouped[i].targets);
      PermutationMembers(seasons[i].targets, grouped[i].targets);
    }
    forall t | t in context.targets ensures InSomeSeason(t, context, seasons) {
      TargetsOfMember(context.targets, context.scopedAliases, t);
      var k := TargetSeasonIdentity(t, context.scopedAliases).value;
      GroupedUnder(context.targets, context.scopedAliases, k);
      UnderFound(grouped, k);
      var i :| 0 <= i < |grouped| && KeyOf(grouped[i]) == k;
      assert seasons[i] == Finished(key, title, context, grouped[i]);
    }
  }

  lemma {:induction false} GroupedSucceeds(targets: seq<ScoringTarget>, aliases: seq<ScopedAlias>)
    ensures Grouped(targets, aliases).Success?
      <==> forall t :: t in targets ==> TargetSeasonIdentity(t, aliases).Success?
    ensures Grouped(targets, aliases).Success? ==> (Grouped(targets, aliases).value == [] <==> targets == [])
  {
    hide TargetSeasonIdentity;
    if targets != [] {
      var front, last := targets[..|targets| - 1], targets[|targets| - 1];
      assert targets == front + [last];
      GroupedSucceeds(front, aliases);
    }
  }

  /** A context is built exactly when it has a graph fingerprint, a target, and an identity for every target. */
  lemma BuiltExactlyWhen(key: string -> string, title: string, context: ScoringContext)
    ensures Built(key, title, context).Success? <==>
      && context.graphFingerprint.Some? && !IsBlank(context.graphFingerprint.value)
      && context.targets != []
      && forall t :: t in context.targets ==> TargetSeasonIdentity(t, context.scopedAliases).Success?
  {
    hide TargetSeasonIdentity, Trim, FinishedAll, Grouped;
    GroupedSucceeds(context.targets, context.scopedAliases);
  }

  // ----- the builder

  lemma InsertAllAppend(key: string -> string, inserted: seq<Alias>, alias: Alias)
    ensures InsertAll(key, inserted + [alias]) == Insert(key, InsertAll(key, inserted), alias)
  {
    hide Insert;
    assert (inserted + [alias])[..|inserted|] == inserted;
  }

  method InsertGraphAliases(
      key: string -> string, context: ScoringContext, ghost before: seq<Alias>, aliases: seq<Alias>)
    returns (r: seq<Alias>)
    requires aliases == InsertAll(key, before)
    ensures r == InsertAll(key, before + GraphAliases(key, context, context.aliases))
  {
    hide Insert, InsertAll, Trim, EpisodeTitleKeys, ScopedKeys;
    var episodeTitles, scopedKeys := EpisodeTitleKeys(key, context), ScopedKeys(key, context);
    r := aliases;
    assert before + [] == before;
    for i := 0 to |context.aliases|
      invariant r == InsertAll(key, before + GraphAliases(key, context, context.aliases[..i]))
    {
      var alias := context.aliases[i];
      assert context.aliases[..i + 1][..i] == context.aliases[..i];
      if key(alias) in episodeTitles || key(alias) in scopedKeys {
        continue;
      }
      var entry := Alias(Trim(alias), Synonym, Some("graph_alias"), None);
      r := InsertAlias(key, r, entry);
      ghost var offered := GraphAliases(key, context, context.aliases[..i]);
      InsertAllAppend(key, before + offered, entry);
      assert before + offered + [entry] == before + (offered + [entry]);
    }
    assert context.aliases[..|context.aliases|] == context.aliases;
  }

  method InsertScopedAliases(
      key: string -> string, scoped: seq<ScopedAlias>, season: SeasonKey, ghost before: seq<Alias>, aliases: seq<Alias>)
    returns (r: seq<Alias>)
    requires aliases == InsertAll(key, before)
    ensures r == InsertAll(key, before + SeasonScoped(scoped, season))
  {
    hide Insert, InsertAll, Trim, Classify, ScopedAliasMatchesSeason;
    r := aliases;
    assert before + [] == before;
    for i := 0 to |scoped|
      invariant r == InsertAll(key, before + SeasonScoped(scoped[..i], season))
    {
      assert scoped[..i + 1][..i] == scoped[..i];
      if ScopedAliasMatchesSeason(scoped[i], season) {
        var entry := ScopedEntry(scoped[i]);
        r := InsertAlias(key, r, entry);
        ghost var offered := SeasonScoped(scoped[..i], season);
        InsertAllAppend(key, before + offered, entry);
        assert before + offered + [entry] == before + (offered + [entry]);
      }
    }
    assert scoped[..|scoped|] == scoped;
  }

  method InsertLabels(key: string -> string, title: string, n: int, ghost before: seq<Alias>, aliases: seq<Alias>)
    returns (r: seq<Alias>)
    requires aliases == InsertAll(key, before)
    ensures r == InsertAll(key, before + LabelAliases(title, n))
  {
    hide Insert, InsertAll, Trim, Labels;
    r := aliases;
    var labels := LabelAliases(title, n);
    assert before + [] == before;
    for i := 0 to |labels|
      invariant r == InsertAll(key, before + labels[..i])
    {
      r := InsertAlias(key, r, labels[i]);
      InsertAllAppend(key, before + labels[..i], labels[i]);
      assert before + labels[..i] + [labels[i]] == before + labels[..i + 1];
    }
    assert labels[..|labels|] == labels;
  }

  method CollectAliases(
      key: string -> string, title: string, context: ScoringContext, season: SeasonKey) returns (aliases: seq<Alias>)
    ensures aliases == SeasonAliases(key, title, context, season)
  {
    hide Insert, InsertAll, SortBy, ScopedAliasMatchesSeason, Classify, Labels, Trim, GraphAliases, SeasonScoped,
      LabelAliases;
    ghost var offered := [CanonicalAlias(title)];
    InsertAllNothing(key);
    InsertAllAppend(key, [], CanonicalAlias(title));
    assert [] + [CanonicalAlias(title)] == offered;
    aliases := InsertAlias(key, [], CanonicalAlias(title));
    aliases := InsertGraphAliases(key, context, offered, aliases);
    offered := offered + GraphAliases(key, context, context.aliases);
    aliases := InsertScopedAliases(key, context.scopedAliases, season, offered, aliases);
    offered := offered + SeasonScoped(context.scopedAliases, season);
    aliases := InsertLabels(key, title, season.0, offered, aliases);
    aliases := SortBy(AliasRank(key), aliases);
  }

  lemma InsertAllNothing(key: string -> string)
    ensures InsertAll(key, []) == []
  {
  }

  method GroupTargets(targets: seq<ScoringTarget>, aliases: seq<ScopedAlias>) returns (r: Result<seq<Season>, Error>)
    ensures r == Grouped(targets, aliases)
  {
    hide TargetSeasonIdentity, File;
    var seasons: seq<Season> := [];
    for i := 0 to |targets|
      invariant Grouped(targets[..i], aliases) == Success(seasons)
    {
      assert targets[..i + 1][..i] == targets[..i];
      var identity := TargetSeasonIdentity(targets[i], aliases);
      if identity.Failure? {
        FirstFailureDecides(targets, aliases, i);
        return Failure(identity.error);
      }
      seasons := File(seasons, identity.value, Filed(targets[i]));
    }
    assert targets[..|targets|] == targets;
    return Success(seasons);
  }

  lemma {:induction false} FirstFailureDecides(targets: seq<ScoringTarget>, aliases: seq<ScopedAlias>, i: nat)
    requires i < |targets| && Grouped(targets[..i], aliases).Success? &&
      TargetSeasonIdentity(targets[i], aliases).Failure?
    ensures Grouped(targets, aliases) == Failure(TargetSeasonIdentity(targets[i], aliases).error)
  {
    hide TargetSeasonIdentity, File;
    var front := targets[..|targets| - 1];
    if i == |targets| - 1 {
      assert targets[..i] == front;
    } else {
      assert front[..i] == targets[..i];
      FirstFailureDecides(front, aliases, i);
    }
  }

  /** `acquisition_match_context`, up to the scoping of its result to the wanted target. */
  method BuildMatchContext(
      key: string -> string, title: string, context: ScoringContext) returns (r: Result<MatchContext, Error>)
    ensures r == Built(key, title, context)
  {
    hide TrimToOption, Grouped, SeasonAliases, SortTargets;
    var fingerprint := TrimToOption(context.graphFingerprint);
    if fingerprint.None? {
      return Failure(NoGraphFingerprint);
    }
    var seasons :- GroupTargets(context.targets, context.scopedAliases);
    if seasons == [] {
      return Failure(NoTargets);
    }
    ghost var grouped := seasons;
    for i := 0 to |seasons|
      invariant |seasons| == |grouped|
      invariant forall k :: 0 <= k < i ==> seasons[k] == Finished(key, title, context, grouped[k])
      invariant forall k :: i <= k < |grouped| ==> seasons[k] == grouped[k]
    {
      var aliases := CollectAliases(key, title, context, KeyOf(seasons[i]));
      seasons := seasons[i := seasons[i].(aliases := aliases, targets := SortTargets(seasons[i].targets))];
    }
    assert seasons == FinishedAll(key, title, context, grouped);
    return Success(MatchContext(fingerprint.value, seasons));
  }
}
