/** The frozen qualification corpus, the selection of cases and the run over them
    (src/acquisition/anime_qualification.rs). */
module Corpus {
  import opened Wrappers
  import opened Sequences
  import Text
  import opened Json

  const ExpectedCases: nat := 520
  const SchemaVersion: nat := 2

  datatype Case = Case(
    caseId: string, setName: string, slice: Option<string>, origin: string, counterfactualPairId: Option<string>,
    hasMutation: bool)

  datatype Sets = Sets(smoke: seq<string>, development: seq<string>, frozen: seq<string>)

  datatype Corpus = Corpus(schemaVersion: nat, status: string, sets: Sets, cases: seq<Case>)

  function IdOf(c: Case): string {
    c.caseId
  }

  function Members(sets: Sets): seq<string> {
    sets.smoke + sets.development + sets.frozen
  }

  /** The set a label stands for; anything but the first two labels means the frozen set. */
  function LabelledSet(sets: Sets, tag: string): seq<string> {
    if tag == "smoke" then sets.smoke else if tag == "development" then sets.development else sets.frozen
  }

  predicate CaseAccepted(sets: Sets, c: Case) {
    && (c.setName == "smoke" || c.setName == "development" || c.setName == "frozen")
    && (c.origin == "real" || c.origin == "synthetic")
    && c.caseId in LabelledSet(sets, c.setName)
    && (c.counterfactualPairId.Some? ==> c.hasMutation)
    && (c.setName == "frozen" ==> c.slice.Some?)
  }

  /**
   * The shape checks, which only ever count: list lengths, the size of the combined membership, and one equality of
   * sets.
   */
  predicate ShapeAccepted(corpus: Corpus, rawIsEmpty: bool) {
    && corpus.schemaVersion == SchemaVersion && corpus.status == "frozen"
    && |corpus.cases| == ExpectedCases
    && |corpus.sets.smoke| == 40 && |corpus.sets.development| == 160 && |corpus.sets.frozen| == 320
    && |Elements(Members(corpus.sets))| == ExpectedCases
    && Elements(Map(IdOf, corpus.cases)) == Elements(Members(corpus.sets))
    && !rawIsEmpty
    && forall i :: 0 <= i < |corpus.cases| ==> CaseAccepted(corpus.sets, corpus.cases[i])
  }

  method ValidateCorpusShape(corpus: Corpus, rawIsEmpty: bool) returns (ok: bool)
    ensures ok <==> ShapeAccepted(corpus, rawIsEmpty)
  {
    if corpus.schemaVersion != SchemaVersion || corpus.status != "frozen" || |corpus.cases| != ExpectedCases {
      return false;
    }
    if |corpus.sets.smoke| != 40 || |corpus.sets.development| != 160 || |corpus.sets.frozen| != 320 {
      return false;
    }
    var membership := Elements(Members(corpus.sets));
    if |membership| != ExpectedCases || Elements(Map(IdOf, corpus.cases)) != membership || rawIsEmpty {
      return false;
    }
    for i := 0 to |corpus.cases|
      invariant forall k :: 0 <= k < i ==> CaseAccepted(corpus.sets, corpus.cases[k])
    {
      if !CaseAccepted(corpus.sets, corpus.cases[i]) {
        return false;
      }
    }
    return true;
  }

  ghost predicate Disjoint(a: seq<string>, b: seq<string>) {
    forall x :: !(x in a && x in b)
  }

  lemma DistinctParts(a: seq<string>, b: seq<string>)
    requires Distinct(a + b)
    ensures Distinct(a) && Distinct(b) && Disjoint(a, b)
  {
    var both := a + b;
    forall i, j | 0 <= i < j < |a| ensures a[i] != a[j] {
      assert both[i] != both[j];
    }
    forall i, j | 0 <= i < j < |b| ensures b[i] != b[j] {
      assert both[|a| + i] != both[|a| + j];
    }
    forall i, j | 0 <= i < |a| && 0 <= j < |b| ensures a[i] != b[j] {
      assert both[i] != both[|a| + j];
    }
  }

  /** Counting alone forces the structure: case ids are pairwise distinct, the three sets repeat nothing and overlap
      nowhere, and every case carries the label of the one set that lists it. */
  lemma AcceptedCorpusIsPartitioned(corpus: Corpus, rawIsEmpty: bool)
    requires ShapeAccepted(corpus, rawIsEmpty)
    ensures DistinctBy(IdOf, corpus.cases)
    ensures Distinct(corpus.sets.smoke) && Distinct(corpus.sets.development) && Distinct(corpus.sets.frozen)
    ensures Disjoint(corpus.sets.smoke, corpus.sets.development)
    ensures Disjoint(corpus.sets.smoke, corpus.sets.frozen)
    ensures Disjoint(corpus.sets.development, corpus.sets.frozen)
    ensures forall i, tag :: 0 <= i < |corpus.cases| && tag in ["smoke", "development", "frozen"] ==>
              (corpus.cases[i].caseId in LabelledSet(corpus.sets, tag) <==> corpus.cases[i].setName == tag)
  {
    var sets := corpus.sets;
    var ids := Map(IdOf, corpus.cases);
    DistinctByCounting(Members(sets));
    DistinctParts(sets.smoke + sets.development, sets.frozen);
    DistinctParts(sets.smoke, sets.development);
    forall x | x in sets.smoke ensures x !in sets.frozen {
      assert x in sets.smoke + sets.development;
    }
    forall x | x in sets.development ensures x !in sets.frozen {
      assert x in sets.smoke + sets.development;
    }
    DistinctByCounting(ids);
    forall i, j | 0 <= i < j < |corpus.cases| ensures IdOf(corpus.cases[i]) != IdOf(corpus.cases[j]) {
      assert ids[i] != ids[j];
    }
    forall i, tag | 0 <= i < |corpus.cases| && tag in ["smoke", "development", "frozen"]
      ensures corpus.cases[i].caseId in LabelledSet(sets, tag) <==> corpus.cases[i].setName == tag
    {
      assert CaseAccepted(sets, corpus.cases[i]);
    }
  }

  // ----- selecting cases

  datatype Selection = Selection(selectionId: string, caseIds: seq<string>, caseIdsFingerprint: string)

  const Sha256Prefix := "sha256:"

  predicate IsHexDigit(c: char) {
    Text.IsDigit(c) || 'a' <= c <= 'f' || 'A' <= c <= 'F'
  }

  /** A digest is 64 hexadecimal digits in either case, with or without its prefix. */
  function NormalizeSha256(value: string): Option<string> {
    var trimmed := Text.Trim(value);
    var digest := if Sha256Prefix <= trimmed then trimmed[|Sha256Prefix|..] else trimmed;
    if |digest| == 64 && forall i :: 0 <= i < |digest| ==> IsHexDigit(digest[i]) then
      Some(Sha256Prefix + Text.Lower(digest))
    else None
  }

  function AsJson(ids: seq<string>): Json {
    Array(seq(|ids|, i requires 0 <= i < |ids| => Str(ids[i])))
  }

  /** The stated fingerprint is that of the case ids, in their order; `digest` hashes the encoding of a JSON value. */
  predicate FingerprintBinds(s: Selection, digest: Json -> string) {
    NormalizeSha256(s.caseIdsFingerprint) == Some(Sha256Prefix + digest(Canonicalize(AsJson(s.caseIds))))
  }

  predicate IsIdentifier(s: string) {
    && s != "" && |s| <= 128
    && forall i ::
      0 <= i < |s| ==> Text.IsLetter(s[i]) || Text.IsDigit(s[i]) || s[i] == '.' || s[i] == '_' || s[i] == '-'
  }

  function Chosen(ids: seq<string>, selected: set<string>): (r: seq<string>) {
    if ids == [] then []
    else Chosen(ids[..|ids| - 1], selected) + if ids[|ids| - 1] in selected then [ids[|ids| - 1]] else []
  }

  /**
   * A selection is a non-empty proper part of the corpus, without repeats, in corpus order and bound by its
   * fingerprint.
   */
  ghost predicate SelectionAccepted(
      corpusIds: seq<string>, targetId: Option<string>, s: Option<Selection>, digest: Json -> string) {
    && (targetId.Some? ==> IsIdentifier(targetId.value))
    && (targetId.None? ==> s.None?)
    && (s.Some? ==>
          && IsIdentifier(s.value.selectionId)
          && 0 < |s.value.caseIds| < ExpectedCases
          && Distinct(s.value.caseIds)
          && s.value.caseIds == Chosen(corpusIds, Elements(s.value.caseIds))
          && FingerprintBinds(s.value, digest))
  }

  /** Absent on refusal; otherwise the set of selected ids, or nothing selected means everything. */
  method ValidateCaseSelection(
      corpusIds: seq<string>, targetId: Option<string>, selection: Option<Selection>, digest: Json -> string)
    returns (r: Option<Option<set<string>>>)
    ensures r.Some? <==> SelectionAccepted(corpusIds, targetId, selection, digest)
    ensures r.Some? ==> r.value == if selection.None? then None else Some(Elements(selection.value.caseIds))
  {
    if targetId.Some? {
      if !IsIdentifier(targetId.value) {
        return None;
      }
    } else if selection.Some? {
      return None;
    }
    if selection.None? {
      return Some(None);
    }
    var s := selection.value;
    if !IsIdentifier(s.selectionId) || s.caseIds == [] || |s.caseIds| >= ExpectedCases {
      return None;
    }
    var selected := Elements(s.caseIds);
    DistinctByCounting(s.caseIds);
    if |selected| != |s.caseIds| {
      return None;
    }
    if exists k :: 0 <= k < |s.caseIds| && s.caseIds[k] !in corpusIds {
      ghost var k :| 0 <= k < |s.caseIds| && s.caseIds[k] !in corpusIds;
      ChosenMembers(corpusIds, selected);
      return None;
    }
    if s.caseIds != Chosen(corpusIds, selected) || !FingerprintBinds(s, digest) {
      return None;
    }
    return Some(Some(selected));
  }

  lemma {:induction false} ChosenMembers(ids: seq<string>, selected: set<string>)
    ensures forall id :: id in Chosen(ids, selected) <==> id in ids && id in selected
  {
    if ids != [] {
      ChosenMembers(ids[..|ids| - 1], selected);
      assert ids == ids[..|ids| - 1] + [ids[|ids| - 1]];
    }
  }

  // ----- running the cases

  datatype CaseOutput<T> = CaseOutput(caseId: string, result: T)

  function OutputId<T>(o: CaseOutput<T>): string {
    o.caseId
  }

  /** The ids a run must report on. */
  function Expected(ids: seq<string>, selected: Option<set<string>>): seq<string> {
    if selected.None? then ids else Chosen(ids, selected.value)
  }

  /** Runs every selected case in corpus order; a failing case fails the run. */
  method RunCases<T>(cases: seq<Case>, selected: Option<set<string>>, observe: Case -> Option<T>)
    returns (r: Option<seq<CaseOutput<T>>>)
    ensures r.Some? ==> Map<CaseOutput<T>, string>(OutputId, r.value) == Expected(Map(IdOf, cases), selected)
    ensures r.Some? <==> forall i ::
      0 <= i < |cases| && (selected.None? || cases[i].caseId in selected.value) ==> observe(cases[i]).Some?
  {
    var outputs: seq<CaseOutput<T>> := [];
    ghost var ids := Map(IdOf, cases);
    for i := 0 to |cases|
      invariant Map<CaseOutput<T>, string>(OutputId, outputs) == Expected(ids[..i], selected)
      invariant forall k ::
        0 <= k < i && (selected.None? || cases[k].caseId in selected.value) ==> observe(cases[k]).Some?
    {
      assert ids[..i + 1][..i] == ids[..i] && ids[..i + 1] == ids[..i] + [cases[i].caseId];
      if selected.Some? && cases[i].caseId !in selected.value {
        continue;
      }
      var result := observe(cases[i]);
      if result.None? {
        return None;
      }
      ghost var before := outputs;
      outputs := outputs + [CaseOutput(cases[i].caseId, result.value)];
      assert Map<CaseOutput<T>, string>(OutputId, outputs) ==
        Map<CaseOutput<T>, string>(OutputId, before) + [cases[i].caseId];
    }
    assert ids[..|cases|] == ids;
    return Some(outputs);
  }

  /** With an accepted corpus and selection, the run reports exactly the selected ids, in corpus order, each once. */
  lemma RunReportsSelection(
      corpus: Corpus, targetId: Option<string>, selection: Option<Selection>, digest: Json -> string)
    requires ShapeAccepted(corpus, false)
    requires SelectionAccepted(Map(IdOf, corpus.cases), targetId, selection, digest)
    ensures var ids := Map(IdOf, corpus.cases);
            var expected := Expected(ids, if selection.None? then None else Some(Elements(selection.value.caseIds)));
            && Distinct(expected)
            && expected == (if selection.None? then ids else selection.value.caseIds)
            && (selection.Some? ==> 0 < |expected| < |ids| && forall id :: id in expected ==> id in ids)
  {
    var ids := Map(IdOf, corpus.cases);
    AcceptedCorpusIsPartitioned(corpus, false);
    forall i, j | 0 <= i < j < |ids| ensures ids[i] != ids[j] {
      assert IdOf(corpus.cases[i]) != IdOf(corpus.cases[j]);
    }
    if selection.Some? {
      ChosenMembers(ids, Elements(selection.value.caseIds));
    }
  }
}
