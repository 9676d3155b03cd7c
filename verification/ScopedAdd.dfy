/** Target keys and the validation of scoped-add requests (src/acquisition/scoped_add.rs). */
module ScopedAdd {
  import opened Wrappers
  import opened Sequences
  import opened Text
  import opened Decimals

  const I32_MAX := 0x7fff_ffff

  datatype Error =
    | EmptyTargetKey | UnknownTargetKey | TitleRequired | TargetKeysNotAllowed | EpisodeIncomplete
    | NotPositive | NumberMissing
    | RangeTooLarge | TargetKeysRequired | ArcIdentityRequired

  // ----- target keys

  /** What a target key stands for. */
  datatype Target = MovieTarget | EpisodeTarget(season: nat,
    episode: nat) | AbsoluteTarget(number: nat) | DateTarget(date: string)

  function SplitOnce(s: string, c: char): Option<(string, string)> {
    if s == "" then None
    else if s[0] == c then Some(("", s[1..]))
    else
      match SplitOnce(s[1..], c)
      case None => None
      case Some(parts) => Some(([s[0]] + parts.0, parts.1))
  }

  function StripPrefix(s: string, prefix: string): Option<string> {
    if prefix <= s then Some(s[|prefix|..]) else None
  }

  function ParsePositive(s: string): Option<nat> {
    if s != "" && AllDigits(s) && 0 < Value(s) <= I32_MAX then Some(Value(s)) else None
  }

  function ParseEpisodeKey(s: string): Option<Target> {
    match StripPrefix(s, "S")
    case None => None
    case Some(rest) =>
      match SplitOnce(rest, 'E')
      case None => None
      case Some((season, episode)) =>
        if ParsePositive(season).Some? && ParsePositive(episode).Some? then
          Some(EpisodeTarget(ParsePositive(season).value, ParsePositive(episode).value))
        else None
  }

  function ParseAbsoluteKey(s: string): Option<Target> {
    match StripPrefix(s, "A")
    case None => None
    case Some(rest) => if ParsePositive(rest).Some? then Some(AbsoluteTarget(ParsePositive(rest).value)) else None
  }

  function PrintTarget(t: Target): string {
    match t
    case MovieTarget => "MOVIE"
    case EpisodeTarget(season, episode) => "S" + PrintPadded(season, 2) + "E" + PrintPadded(episode, 2)
    case AbsoluteTarget(number) => "A" + PrintPadded(number, 4)
    case DateTarget(date) => "DATE:" + date
  }

  function CanonicalTargetKey(value: string): Result<string, Error> {
    var normalized := Upper(Trim(value));
    if normalized == "" then Failure(EmptyTargetKey)
    else if normalized == "MOVIE" then Success(normalized)
    else if ParseEpisodeKey(normalized).Some? then Success(PrintTarget(ParseEpisodeKey(normalized).value))
    else if ParseAbsoluteKey(normalized).Some? then Success(PrintTarget(ParseAbsoluteKey(normalized).value))
    else if "DATE:" <= normalized && Trim(normalized[5..]) != "" then Success("DATE:" + Trim(normalized[5..]))
    else Failure(UnknownTargetKey)
  }

  // ----- what keys denote, independently of how they are parsed

  ghost predicate IsNumeral(digits: string, n: nat) {
    digits != "" && AllDigits(digits) && Value(digits) == n && 0 < n <= I32_MAX
  }

  ghost predicate WritesEpisode(s: string, season: string, episode: string) {
    s == "S" + season + "E" + episode
  }

  /** `value` is a spelling of the target: letter case, surrounding blanks and leading zeros are free. */
  ghost predicate Denotes(value: string, t: Target) {
    var s := Upper(Trim(value));
    match t
    case MovieTarget => s == "MOVIE"
    case EpisodeTarget(season, episode) => exists a, b ::
      WritesEpisode(s, a, b) && IsNumeral(a, season) && IsNumeral(b, episode)
    case AbsoluteTarget(number) => s != "" && s[0] == 'A' && IsNumeral(s[1..], number)
    case DateTarget(date) => "DATE:" <= s && date == Trim(s[5..]) && date != ""
  }

  lemma {:induction false} SplitAtFirst(a: string, c: char, b: string)
    requires c !in a
    ensures SplitOnce(a + [c] + b, c) == Some((a, b))
  {
    var s := a + [c] + b;
    if a == "" {
      assert s[0] == c && s[1..] == b;
    } else {
      SplitAtFirst(a[1..], c, b);
      assert s[1..] == a[1..] + [c] + b;
      assert a == [a[0]] + a[1..];
    }
  }

  lemma {:induction false} SplitParts(s: string, c: char)
    ensures SplitOnce(s, c).Some? ==> s == SplitOnce(s, c).value.0 + [c] + SplitOnce(s, c).value.1
  {
    if s != "" && s[0] != c {
      SplitParts(s[1..], c);
      assert s == [s[0]] + s[1..];
    }
  }

  lemma EpisodeKeyMeaning(s: string, t: Target)
    ensures ParseEpisodeKey(s) == Some(t) <==>
              t.EpisodeTarget? &&
                exists a, b :: WritesEpisode(s, a, b) && IsNumeral(a, t.season) && IsNumeral(b, t.episode)
  {
    if ParseEpisodeKey(s) == Some(t) {
      var rest := s[1..];
      SplitParts(rest, 'E');
      var (a, b) := SplitOnce(rest, 'E').value;
      assert s == "S" + rest;
      assert WritesEpisode(s, a, b);
    }
    if t.EpisodeTarget? {
      if a, b :| WritesEpisode(s, a, b) && IsNumeral(a, t.season) && IsNumeral(b, t.episode) {
        DigitsHaveNoE(a);
        SplitAtFirst(a, 'E', b);
        assert s[1..] == a + ['E'] + b;
      }
    }
  }

  lemma DigitsHaveNoE(s: string)
    requires AllDigits(s)
    ensures 'E' !in s
  {
  }

  lemma AbsoluteKeyMeaning(s: string, t: Target)
    ensures ParseAbsoluteKey(s) == Some(t)
      <==> t.AbsoluteTarget? && s != "" && s[0] == 'A' && IsNumeral(s[1..], t.number)
  {
    assert "A" <= s <==> s != "" && s[0] == 'A';
  }

  /** A key has at most one meaning. */
  lemma DenotesIsFunctional(value: string, t: Target, u: Target)
    requires Denotes(value, t) && Denotes(value, u)
    ensures t == u
  {
    var s := Upper(Trim(value));
    EpisodeKeyMeaning(s, t);
    EpisodeKeyMeaning(s, u);
    FirstLetter(value, t);
    FirstLetter(value, u);
  }

  lemma FirstLetter(value: string, t: Target)
    requires Denotes(value, t)
    ensures var s := Upper(Trim(value));
            s != "" && s[0] == match t case MovieTarget => 'M' case EpisodeTarget(_,
              _) => 'S' case AbsoluteTarget(_) => 'A' case DateTarget(_) => 'D'
  {
    var s := Upper(Trim(value));
    match t
    case MovieTarget =>
    case EpisodeTarget(season, episode) =>
      var a, b :| WritesEpisode(s, a, b) && IsNumeral(a, season) && IsNumeral(b, episode);
    case AbsoluteTarget(_) =>
    case DateTarget(_) => assert "DATE:"[0] == s[0];
  }

  /** The canonical key exists exactly for keys that denote something, and spells what they denote. */
  lemma CanonicalSpellsDenotation(value: string)
    ensures CanonicalTargetKey(value).Success? <==> exists t :: Denotes(value, t)
    ensures forall t :: Denotes(value, t) ==> CanonicalTargetKey(value) == Success(PrintTarget(t))
  {
    var s := Upper(Trim(value));
    forall t | Denotes(value, t) ensures CanonicalTargetKey(value) == Success(PrintTarget(t)) {
      CanonicalOfDenoted(value, t);
    }
    if CanonicalTargetKey(value).Success? {
      if s == "MOVIE" {
        assert Denotes(value, MovieTarget);
      } else if ParseEpisodeKey(s).Some? {
        EpisodeKeyMeaning(s, ParseEpisodeKey(s).value);
        assert Denotes(value, ParseEpisodeKey(s).value);
      } else if ParseAbsoluteKey(s).Some? {
        AbsoluteKeyMeaning(s, ParseAbsoluteKey(s).value);
        assert Denotes(value, ParseAbsoluteKey(s).value);
      } else {
        assert Denotes(value, DateTarget(Trim(s[5..])));
      }
    }
  }

  lemma CanonicalOfDenoted(value: string, t: Target)
    requires Denotes(value, t)
    ensures CanonicalTargetKey(value) == Success(PrintTarget(t))
  {
    hide ParseEpisodeKey, ParseAbsoluteKey;
    var s := Upper(Trim(value));
    FirstLetter(value, t);
    EpisodeKeyMeaning(s, t);
    AbsoluteKeyMeaning(s, t);
    if ParseEpisodeKey(s).Some? {
      EpisodeKeyMeaning(s, ParseEpisodeKey(s).value);
      DenotesIsFunctional(value, t, ParseEpisodeKey(s).value);
    } else if ParseAbsoluteKey(s).Some? {
      AbsoluteKeyMeaning(s, ParseAbsoluteKey(s).value);
      DenotesIsFunctional(value, t, ParseAbsoluteKey(s).value);
    }
  }

  /** Targets that keys can denote. */
  predicate IsTarget(t: Target) {
    match t
    case MovieTarget => true
    case EpisodeTarget(season, episode) => 0 < season <= I32_MAX && 0 < episode <= I32_MAX
    case AbsoluteTarget(number) => 0 < number <= I32_MAX
    case DateTarget(date) => date != "" && IsTrimmed(date) && Upper(date) == date
  }

  lemma DenotedIsTarget(value: string, t: Target)
    requires Denotes(value, t)
    ensures IsTarget(t)
  {
    if t.DateTarget? {
      var s := Upper(Trim(value));
      TrimIsTrimmed(s[5..]);
      UpperIdempotent(Trim(value));
      UpperOfTrim(s[5..]);
    }
  }

  lemma UpperOfTrim(s: string)
    requires Upper(s) == s
    ensures Upper(Trim(s)) == Trim(s)
  {
    TrimIsPart(s);
    var a, b :| 0 <= a <= b <= |s| && Trim(s) == s[a..b];
    forall i | 0 <= i < |Trim(s)| ensures UpperChar(Trim(s)[i]) == Trim(s)[i] {
      assert Upper(s)[a + i] == s[a + i];
    }
  }

  lemma TrimIsPart(s: string)
    ensures exists a, b :: 0 <= a <= b <= |s| && Trim(s) == s[a..b]
  {
    TrimStartIsSuffix(s);
    var a :| 0 <= a <= |s| && TrimStart(s) == s[a..];
    TrimEndKeepsFirst(s[a..]);
    assert Trim(s) == s[a..a + |Trim(s)|];
  }

  lemma {:induction false} TrimStartIsSuffix(s: string)
    ensures exists a :: 0 <= a <= |s| && TrimStart(s) == s[a..]
  {
    if s != [] && IsSpace(s[0]) {
      TrimStartIsSuffix(s[1..]);
      var a :| 0 <= a <= |s[1..]| && TrimStart(s[1..]) == s[1..][a..];
      assert TrimStart(s) == s[a + 1..];
    } else {
      assert TrimStart(s) == s[0..];
    }
  }

  lemma PaddedIsNumeral(n: nat, width: nat)
    requires 0 < n <= I32_MAX
    ensures IsNumeral(PrintPadded(n, width), n)
  {
    ValueOfPadded(n, width);
  }

  lemma DigitsAreUpper(s: string)
    requires AllDigits(s)
    ensures Upper(s) == s
  {
  }

  lemma PrintedMovie()
    ensures Denotes(PrintTarget(MovieTarget), MovieTarget)
  {
    var p := PrintTarget(MovieTarget);
    TrimOfTrimmed(p);
    assert Upper(p) == p;
  }

  lemma PrintedEpisode(t: Target)
    requires IsTarget(t) && t.EpisodeTarget?
    ensures Denotes(PrintTarget(t), t)
  {
    hide PrintPadded, Value, Trim;
    var p, a, b := PrintTarget(t), PrintPadded(t.season, 2), PrintPadded(t.episode, 2);
    PaddedIsNumeral(t.season, 2);
    PaddedIsNumeral(t.episode, 2);
    assert p[|p| - 1] == b[|b| - 1] && IsDigit(b[|b| - 1]);
    TrimOfTrimmed(p);
    DigitsAreUpper(a);
    DigitsAreUpper(b);
    UpperOfConcat("S" + a + "E", b);
    UpperOfConcat("S" + a, "E");
    UpperOfConcat("S", a);
    assert Upper("S") == "S" && Upper("E") == "E";
    assert WritesEpisode(p, a, b);
  }

  lemma PrintedAbsolute(t: Target)
    requires IsTarget(t) && t.AbsoluteTarget?
    ensures Denotes(PrintTarget(t), t)
  {
    hide PrintPadded, Value, Trim;
    var p, a := PrintTarget(t), PrintPadded(t.number, 4);
    PaddedIsNumeral(t.number, 4);
    assert p[|p| - 1] == a[|a| - 1] && IsDigit(a[|a| - 1]);
    TrimOfTrimmed(p);
    DigitsAreUpper(a);
    UpperOfConcat("A", a);
    assert Upper("A") == "A" && p[1..] == a;
  }

  lemma PrintedDate(t: Target)
    requires IsTarget(t) && t.DateTarget?
    ensures Denotes(PrintTarget(t), t)
  {
    hide Trim;
    var p := PrintTarget(t);
    assert p[|p| - 1] == t.date[|t.date| - 1];
    TrimOfTrimmed(p);
    UpperOfConcat("DATE:", t.date);
    assert Upper("DATE:") == "DATE:";
    assert p[5..] == t.date;
    TrimOfTrimmed(t.date);
  }

  /** A printed target parses back to itself, for every positive 32-bit number. */
  lemma PrintedTargetDenotesItself(t: Target)
    requires IsTarget(t)
    ensures Denotes(PrintTarget(t), t)
  {
    hide Denotes, PrintTarget;
    match t
    case MovieTarget => PrintedMovie();
    case EpisodeTarget(_, _) => PrintedEpisode(t);
    case AbsoluteTarget(_) => PrintedAbsolute(t);
    case DateTarget(_) => PrintedDate(t);
  }

  lemma UpperOfConcat(a: string, b: string)
    ensures Upper(a + b) == Upper(a) + Upper(b)
  {
  }

  /** Canonicalising a canonical key changes nothing. */
  lemma CanonicalIdempotent(value: string)
    ensures CanonicalTargetKey(value).Success? ==>
      CanonicalTargetKey(CanonicalTargetKey(value).value) == CanonicalTargetKey(value)
  {
    hide CanonicalTargetKey, Denotes;
    CanonicalSpellsDenotation(value);
    if CanonicalTargetKey(value).Success? {
      var t :| Denotes(value, t);
      DenotedIsTarget(value, t);
      PrintedTargetDenotesItself(t);
      CanonicalSpellsDenotation(PrintTarget(t));
    }
  }

  /** Two keys have the same canonical form exactly when they denote the same target. */
  lemma CanonicalDecidesTarget(v: string, w: string)
    ensures CanonicalTargetKey(v).Success? && CanonicalTargetKey(w).Success? ==>
      (CanonicalTargetKey(v) == CanonicalTargetKey(w) <==> exists t :: Denotes(v, t) && Denotes(w, t))
  {
    hide CanonicalTargetKey, Denotes;
    if CanonicalTargetKey(v).Failure? || CanonicalTargetKey(w).Failure? {
      return;
    }
    CanonicalSpellsDenotation(v);
    CanonicalSpellsDenotation(w);
    var t :| Denotes(v, t);
    var u :| Denotes(w, u);
    DenotedIsTarget(v, t);
    DenotedIsTarget(w, u);
    PrintedTargetDenotesItself(t);
    PrintedTargetDenotesItself(u);
    if PrintTarget(t) == PrintTarget(u) {
      DenotesIsFunctional(PrintTarget(t), t, u);
    }
  }

  // ----- lists without repeats

  /** First occurrences, in order. */
  function FirstOccurrences(s: seq<string>): (r: seq<string>) {
    if s == [] then []
    else
      var front := FirstOccurrences(s[..|s| - 1]);
      if s[|s| - 1] in front then front else front + [s[|s| - 1]]
  }

  lemma {:induction false} FirstOccurrencesSpec(s: seq<string>)
    ensures Distinct(FirstOccurrences(s))
    ensures forall x :: x in FirstOccurrences(s) <==> x in s
  {
    if s != [] {
      FirstOccurrencesSpec(s[..|s| - 1]);
      assert s == s[..|s| - 1] + [s[|s| - 1]];
    }
  }

  /** Where a value first occurs. */
  ghost function FirstIndex(s: seq<string>, x: string): (i: nat)
    requires x in s
    ensures i < |s| && s[i] == x && x !in s[..i]
  {
    var front := s[..|s| - 1];
    if x in front then
      assert front[..FirstIndex(front, x)] == s[..FirstIndex(front, x)];
      FirstIndex(front, x)
    else
      assert s == front + [s[|s| - 1]];
      |s| - 1
  }

  /** Nothing is reordered: what is kept stands in order of first occurrence. */
  lemma {:induction false} FirstOccurrencesInOrder(s: seq<string>, i: nat, j: nat)
    requires i < j < |FirstOccurrences(s)|
    ensures var kept := FirstOccurrences(s);
      kept[i] in s && kept[j] in s && FirstIndex(s, kept[i]) < FirstIndex(s, kept[j])
  {
    FirstOccurrencesSpec(s);
    var front, kept := s[..|s| - 1], FirstOccurrences(s);
    FirstOccurrencesSpec(front);
    assert kept[i] in kept && kept[j] in kept;
    var before := FirstOccurrences(front);
    assert kept[i] in before;
    if j < |before| {
      assert kept[j] in before;
      FirstOccurrencesInOrder(front, i, j);
    }
  }

  lemma {:induction false} FirstOccurrencesOfDistinct(s: seq<string>)
    requires Distinct(s)
    ensures FirstOccurrences(s) == s
  {
    if s != [] {
      FirstOccurrencesOfDistinct(s[..|s| - 1]);
    }
  }

  /** The canonical keys of a list, or the first failure. */
  function AllCanonical(values: seq<string>): Result<seq<string>, Error> {
    if values == [] then Success([])
    else
      var front :- AllCanonical(values[..|values| - 1]);
      var key :- CanonicalTargetKey(values[|values| - 1]);
      Success(front + [key])
  }

  function CanonicalKeys(values: seq<string>): Result<seq<string>, Error> {
    var keys :- AllCanonical(values);
    Success(FirstOccurrences(keys))
  }

  lemma AllCanonicalPrefixFails(values: seq<string>, n: nat)
    requires n <= |values| && AllCanonical(values[..n]).Failure?
    ensures AllCanonical(values) == AllCanonical(values[..n])
  {
    if n < |values| {
      assert values[..|values| - 1][..n] == values[..n];
      AllCanonicalPrefixFails(values[..|values| - 1], n);
    } else {
      assert values[..n] == values;
    }
  }

  /** One more value extends the canonical keys by its own, or fails them with its own failure. */
  lemma AllCanonicalStep(values: seq<string>, i: nat)
    requires i < |values| && AllCanonical(values[..i]).Success?
    ensures var key := CanonicalTargetKey(values[i]);
      AllCanonical(values[..i + 1])
      == if key.Failure? then Failure(key.error) else Success(AllCanonical(values[..i]).value + [key.value])
  {
    hide CanonicalTargetKey;
    assert values[..i + 1][..i] == values[..i];
  }

  lemma FirstOccurrencesStep(keys: seq<string>, key: string)
    ensures FirstOccurrences(keys + [key])
         == if key in FirstOccurrences(keys) then FirstOccurrences(keys) else FirstOccurrences(keys) + [key]
  {
    assert (keys + [key])[..|keys|] == keys;
  }

  method CanonicalTargetKeys(values: seq<string>) returns (r: Result<seq<string>, Error>)
    ensures r == CanonicalKeys(values)
  {
    hide CanonicalTargetKey, AllCanonical, FirstOccurrences, Elements;
    var seen: set<string> := {};
    var keys: seq<string> := [];
    ghost var all: seq<string> := [];
    NoCanonicalKeys(values);
    for i := 0 to |values|
      invariant AllCanonical(values[..i]) == Success(all) && keys == FirstOccurrences(all)
      invariant forall k :: k in seen <==> k in keys
    {
      AllCanonicalStep(values, i);
      var key := CanonicalTargetKey(values[i]);
      if key.Failure? {
        AllCanonicalPrefixFails(values, i + 1);
        return Failure(key.error);
      }
      FirstOccurrencesStep(all, key.value);
      all := all + [key.value];
      if key.value !in seen {
        seen := seen + {key.value};
        keys := keys + [key.value];
      }
    }
    assert values[..|values|] == values;
    return Success(keys);
  }

  lemma NoCanonicalKeys(values: seq<string>)
    ensures AllCanonical(values[..0]) == Success([]) && FirstOccurrences([]) == []
  {
  }

  lemma {:induction false} AllCanonicalLength(values: seq<string>)
    requires AllCanonical(values).Success?
    ensures |AllCanonical(values).value| == |values|
    ensures forall k :: k in AllCanonical(values).value ==> CanonicalTargetKey(k) == Success(k)
  {
    hide CanonicalTargetKey;
    if values != [] {
      AllCanonicalLength(values[..|values| - 1]);
      CanonicalIdempotent(values[|values| - 1]);
    }
  }

  lemma {:induction false} CanonicalKeysStay(keys: seq<string>)
    requires forall i :: 0 <= i < |keys| ==> CanonicalTargetKey(keys[i]) == Success(keys[i])
    ensures AllCanonical(keys) == Success(keys)
  {
    hide CanonicalTargetKey;
    if keys != [] {
      CanonicalKeysStay(keys[..|keys| - 1]);
      assert keys == keys[..|keys| - 1] + [keys[|keys| - 1]];
    }
  }

  /** The key list has no repeats, and canonicalising it again changes nothing. */
  lemma CanonicalKeysIdempotent(values: seq<string>)
    requires CanonicalKeys(values).Success?
    ensures Distinct(CanonicalKeys(values).value)
    ensures CanonicalKeys(CanonicalKeys(values).value) == CanonicalKeys(values)
  {
    hide CanonicalTargetKey;
    var all := AllCanonical(values).value;
    var keys := FirstOccurrences(all);
    FirstOccurrencesSpec(all);
    AllCanonicalLength(values);
    forall i | 0 <= i < |keys| ensures CanonicalTargetKey(keys[i]) == Success(keys[i]) {
      assert keys[i] in all;
    }
    CanonicalKeysStay(keys);
    FirstOccurrencesOfDistinct(keys);
  }

  // ----- aliases

  /** Trimmed, blanks dropped, first spelling kept of those that differ only in letter case. */
  function Aliases(values: seq<string>): (r: seq<string>) {
    if values == [] then []
    else
      var front, value := Aliases(values[..|values| - 1]), Trim(values[|values| - 1]);
      if value == "" || exists i :: 0 <= i < |front| && Lower(front[i]) == Lower(value) then front else front + [value]
  }

  method NormalizedScopedAliases(values: seq<string>) returns (aliases: seq<string>)
    ensures aliases == Aliases(values)
  {
    hide Trim, Lower;
    var seen: set<string> := {};
    aliases := [];
    for i := 0 to |values|
      invariant aliases == Aliases(values[..i])
      invariant seen == set k | 0 <= k < |aliases| :: Lower(aliases[k])
    {
      assert values[..i + 1][..i] == values[..i];
      var trimmed := Trim(values[i]);
      assert Lower(trimmed) in seen <==> exists k :: 0 <= k < |aliases| && Lower(aliases[k]) == Lower(trimmed);
      if trimmed == "" || Lower(trimmed) in seen {
        continue;
      }
      seen := seen + {Lower(trimmed)};
      ghost var before := aliases;
      aliases := aliases + [trimmed];
      assert forall k :: 0 <= k < |before| ==> Lower(before[k]) == Lower(aliases[k]);
      assert Lower(aliases[|before|]) == Lower(trimmed);
    }
    assert values[..|values|] == values;
  }

  ghost predicate CleanAliases(s: seq<string>) {
    && (forall i :: 0 <= i < |s| ==> s[i] != "" && Trim(s[i]) == s[i])
    && DistinctBy(Lower, s)
  }

  lemma {:induction false} AliasesAreClean(values: seq<string>)
    ensures CleanAliases(Aliases(values))
  {
    hide Lower, Trim;
    if values != [] {
      AliasesAreClean(values[..|values| - 1]);
      TrimIdempotent(values[|values| - 1]);
    }
  }

  lemma {:induction false} CleanAliasesStay(s: seq<string>)
    requires CleanAliases(s)
    ensures Aliases(s) == s
  {
    hide Lower, Trim;
    if s != [] {
      var front := s[..|s| - 1];
      assert CleanAliases(front);
      CleanAliasesStay(front);
      assert s == front + [s[|s| - 1]];
    }
  }

  // ----- validating media and selection

  datatype MediaIdentity<T> = MediaIdentity(title: string, aliases: seq<string>, other: T)

  function ValidatedMedia<T>(m: MediaIdentity<T>): Result<MediaIdentity<T>, Error> {
    var title := Trim(m.title);
    if title == "" then Failure(TitleRequired) else Success(MediaIdentity(title, Aliases(m.aliases), m.other))
  }

  lemma MediaValidationIdempotent<T>(m: MediaIdentity<T>)
    requires ValidatedMedia(m).Success?
    ensures ValidatedMedia(ValidatedMedia(m).value) == ValidatedMedia(m)
  {
    TrimIdempotent(m.title);
    AliasesAreClean(m.aliases);
    CleanAliasesStay(Aliases(m.aliases));
  }

  datatype SelectionType = Movie | EntireTitle | Episode | Season | Range | SelectedTargets | AnimeArc

  datatype Selection = Selection(
    selectionType: SelectionType, seasonNumber: Option<int>, episodeNumber: Option<int>, episodeStart: Option<int>,
    episodeEnd: Option<int>, absoluteEpisodeNumber: Option<int>, absoluteEpisodeStart: Option<int>,
    absoluteEpisodeEnd: Option<int>, targetKeys: seq<string>, arcId: Option<string>, arcLabel: Option<string>)

  function PositiveRequired(n: Option<int>): Option<Error> {
    match n
    case None => Some(NumberMissing)
    case Some(v) => if v > 0 then None else Some(NotPositive)
  }

  function PositiveIfPresent(n: Option<int>): Option<Error> {
    if n.Some? then PositiveRequired(n) else None
  }

  function Abs(n: int): int {
    if n < 0 then -n else n
  }

  function CheckRange(start: Option<int>, end: Option<int>): Option<Error> {
    PositiveRequired(start).OrElse(
      PositiveRequired(end).OrElse(
        if start.Some? && end.Some? && Abs(start.value - end.value) > 2000 then Some(RangeTooLarge) else None))
  }

  /** A range is accepted exactly when both ends are given and positive and lie at most 2000 apart, in either order. */
  lemma RangeAcceptedExactlyWhen(start: Option<int>, end: Option<int>)
    ensures CheckRange(start, end).None? <==>
      && start.Some? && end.Some? && start.value > 0 && end.value > 0
      && start.value <= end.value + 2000 && end.value <= start.value + 2000
  {
  }

  /** So the range check named for its order does not check it. */
  lemma BackwardRangeIsAccepted()
    ensures CheckRange(Some(5), Some(1)) == None
  {
    RangeAcceptedExactlyWhen(Some(5), Some(1));
  }

  function CheckRangeSelection(s: Selection, hasKeys: bool): Option<Error> {
    if hasKeys then None
    else if s.seasonNumber.Some? then
      var start := s.episodeStart.OrElse(s.episodeNumber);
      PositiveRequired(s.seasonNumber).OrElse(CheckRange(start, s.episodeEnd.OrElse(start)))
    else
      var start := s.absoluteEpisodeStart.OrElse(s.absoluteEpisodeNumber);
      CheckRange(start, s.absoluteEpisodeEnd.OrElse(start))
  }

  function CheckSelection(s: Selection, hasKeys: bool): Option<Error> {
    match s.selectionType
    case Movie => if hasKeys then Some(TargetKeysNotAllowed) else None
    case EntireTitle => if hasKeys then Some(TargetKeysNotAllowed) else None
    case Episode =>
      if !hasKeys && s.absoluteEpisodeNumber.None? && !(s.seasonNumber.Some? && s.episodeNumber.Some?) then
        Some(EpisodeIncomplete)
      else
        PositiveIfPresent(s.seasonNumber).OrElse(
          PositiveIfPresent(s.episodeNumber).OrElse(PositiveIfPresent(s.absoluteEpisodeNumber)))
    case Season => PositiveRequired(s.seasonNumber)
    case Range => CheckRangeSelection(s, hasKeys)
    case SelectedTargets => if !hasKeys then Some(TargetKeysRequired) else None
    case AnimeArc =>
      if !hasKeys then Some(TargetKeysRequired)
      else if TrimToOption(s.arcId).None? && TrimToOption(s.arcLabel).None? then Some(ArcIdentityRequired)
      else None
  }

  function ValidatedSelection(s: Selection): Result<Selection, Error> {
    var keys :- CanonicalKeys(s.targetKeys);
    match CheckSelection(s, keys != [])
    case Some(e) => Failure(e)
    case None => Success(s.(targetKeys := keys, arcId := TrimToOption(s.arcId), arcLabel := TrimToOption(s.arcLabel)))
  }

  lemma SelectionValidationIdempotent(s: Selection)
    requires ValidatedSelection(s).Success?
    ensures ValidatedSelection(ValidatedSelection(s).value) == ValidatedSelection(s)
  {
    hide CanonicalKeys, TrimToOption;
    CanonicalKeysIdempotent(s.targetKeys);
    TrimToOptionIdempotent(s.arcId);
    TrimToOptionIdempotent(s.arcLabel);
  }

  // ----- the request's scope document

  datatype Document<T> = Document(media: MediaIdentity<T>, selection: Selection)

  function ValidatedDocument<T>(d: Document<T>): Result<Document<T>, Error> {
    var media :- ValidatedMedia(d.media);
    var selection :- ValidatedSelection(d.selection);
    Success(Document(media, selection))
  }

  /** The request validates its parts, and building the document validates them again. */
  function ScopeDocument<T>(media: MediaIdentity<T>, selection: Selection): Result<Document<T>, Error> {
    var m :- ValidatedMedia(media);
    var s :- ValidatedSelection(selection);
    ValidatedDocument(Document(m, s))
  }

  /** The second pass neither rejects nor alters what the first accepted. */
  lemma DoubleValidationIsSingle<T>(media: MediaIdentity<T>, selection: Selection)
    ensures ScopeDocument(media, selection) == ValidatedDocument(Document(media, selection))
  {
    hide ValidatedMedia, ValidatedSelection;
    if ValidatedMedia(media).Success? && ValidatedSelection(selection).Success? {
      MediaValidationIdempotent(media);
      SelectionValidationIdempotent(selection);
    }
  }
}
