/**
 * The ledger of download routes already tried for a release candidate (src/acquisition/route_attempts.rs). It lives
 * inside the intent's evidence document; an attempt key found in it is spent and must not be tried again.
 *
 * Printing and parsing of UUIDs is a parameter; the clock's reading is an argument.
 */
module RouteLedger {
  import opened Wrappers
  import opened Text
  import opened Json
  import opened Uuids
  import Broker

  const LEDGER := "routeAttemptLedger"
  const FINGERPRINT := "candidateFingerprint"
  const ATTEMPTS := "attempts"

  datatype Status = Submitted | Failed | Blocked {
    function Name(): string {
      match this
      case Submitted => "submitted"
      case Failed => "failed"
      case Blocked => "blocked"
    }
  }

  datatype Record = Record(
    route: string, provider: Option<Uuid>, implementation: Option<string>, attemptKey: string,
    downloadId: Option<string>, status: Status, failureClass: Option<string>, reason: Option<string>,
    recordedAt: string)

  // ----- keys and records

  datatype Family = Debrid | Torrent | Usenet | OtherRoute

  function FamilyOf(route: string): Family {
    if route == Broker.DEBRID_DEFAULT then Debrid
    else if route == Broker.TORRENT_DEFAULT then Torrent
    else if route == Broker.USENET_DEFAULT then Usenet
    else OtherRoute
  }

  function FamilyPrefix(family: Family): string {
    match family
    case Debrid => "debrid:"
    case Torrent => "torrent:"
    case Usenet => "usenet:"
    case OtherRoute => "route:"
  }

  function AttemptKey(codec: Codec, route: string, provider: Option<Uuid>, implementation: Option<string>): string {
    var family := FamilyOf(route);
    var id := match provider case None => "unresolved" case Some(u) => codec.print_(u);
    if family == Debrid then
      FamilyPrefix(family) + id + ":" + Lower(TrimToOption(implementation).GetOr("unknown"))
    else FamilyPrefix(family) + id
  }

  /** The stored route is trimmed; the key is made from the route as given. */
  function NewRecord(
    codec: Codec, route: string, provider: Option<Uuid>, implementation: Option<string>, downloadId: Option<string>,
    status: Status, failureClass: Option<string>, reason: Option<string>, now: string): Record
  {
    var normalized := TrimToOption(implementation);
    Record(
      Trim(route), provider, normalized, AttemptKey(codec, route, provider, normalized), downloadId, status,
      TrimToOption(failureClass), TrimToOption(reason), now)
  }

  function PutText(members: seq<Member>, name: string, text: Option<string>): seq<Member> {
    match text
    case None => members
    case Some(t) => Put(members, name, Str(t))
  }

  function ProviderText(codec: Codec, provider: Option<Uuid>): Option<string> {
    match provider case None => None case Some(u) => Some(codec.print_(u))
  }

  function RecordMembers(codec: Codec, r: Record): seq<Member> {
    var m0 := PutText([], "routeLogicalId", Some(r.route));
    var m1 := PutText(m0, "providerId", ProviderText(codec, r.provider));
    var m2 := PutText(m1, "implementation", r.implementation);
    var m3 := PutText(m2, "attemptKey", Some(r.attemptKey));
    var m4 := PutText(m3, "downloadId", r.downloadId);
    var m5 := PutText(m4, "status", Some(r.status.Name()));
    var m6 := PutText(m5, "failureClass", r.failureClass);
    var m7 := PutText(m6, "reason", r.reason);
    PutText(m7, "recordedAt", Some(r.recordedAt))
  }

  function RecordJson(codec: Codec, r: Record): Json {
    Object(RecordMembers(codec, r))
  }

  function TextUnder(text: Option<string>, otherwise: Option<Json>): Option<Json> {
    match text case None => otherwise case Some(t) => Some(Str(t))
  }

  lemma LookupPutText(members: seq<Member>, name: string, text: Option<string>, other: string)
    ensures Lookup(PutText(members, name, text), other)
         == if other == name then TextUnder(text, Lookup(members, other)) else Lookup(members, other)
  {
    hide Lookup, Put;
    if text.Some? {
      LookupPut(members, name, Str(text.value), other);
    }
  }

  /** The text a written record holds under a name. */
  function Field(codec: Codec, r: Record, name: string): Option<string> {
    if name == "routeLogicalId" then Some(r.route)
    else if name == "providerId" then ProviderText(codec, r.provider)
    else if name == "implementation" then r.implementation
    else if name == "attemptKey" then Some(r.attemptKey)
    else if name == "downloadId" then r.downloadId
    else if name == "status" then Some(r.status.Name())
    else if name == "failureClass" then r.failureClass
    else if name == "reason" then r.reason
    else if name == "recordedAt" then Some(r.recordedAt)
    else None
  }

  /** A record reads back, field by field, as it was written. */
  lemma RecordReadsBack(codec: Codec, r: Record, name: string)
    ensures GetStr(RecordJson(codec, r), name) == Field(codec, r, name)
  {
    hide Lookup, PutText;
    var m0 := PutText([], "routeLogicalId", Some(r.route));
    var m1 := PutText(m0, "providerId", ProviderText(codec, r.provider));
    var m2 := PutText(m1, "implementation", r.implementation);
    var m3 := PutText(m2, "attemptKey", Some(r.attemptKey));
    var m4 := PutText(m3, "downloadId", r.downloadId);
    var m5 := PutText(m4, "status", Some(r.status.Name()));
    var m6 := PutText(m5, "failureClass", r.failureClass);
    var m7 := PutText(m6, "reason", r.reason);
    LookupPutText([], "routeLogicalId", Some(r.route), name);
    LookupPutText(m0, "providerId", ProviderText(codec, r.provider), name);
    LookupPutText(m1, "implementation", r.implementation, name);
    LookupPutText(m2, "attemptKey", Some(r.attemptKey), name);
    LookupPutText(m3, "downloadId", r.downloadId, name);
    LookupPutText(m4, "status", Some(r.status.Name()), name);
    LookupPutText(m5, "failureClass", r.failureClass, name);
    LookupPutText(m6, "reason", r.reason, name);
    LookupPutText(m7, "recordedAt", Some(r.recordedAt), name);
    LookupNothing(name);
  }

  lemma LookupNothing(name: string)
    ensures Lookup([], name) == None
  {
  }

  // ----- the ledger inside the evidence

  function Ledger(evidence: Json): Option<Json> {
    Get(evidence, LEDGER)
  }

  function AttemptsOf(ledger: Json): Option<seq<Json>> {
    match Get(ledger, ATTEMPTS)
    case Some(Array(items)) => Some(items)
    case _ => None
  }

  function RecordsJson(codec: Codec, attempts: seq<Record>): (r: seq<Json>)
    ensures |r| == |attempts|
    ensures forall i :: 0 <= i < |r| ==> r[i] == RecordJson(codec, attempts[i])
  {
    seq(|attempts|, i requires 0 <= i < |attempts| => RecordJson(codec, attempts[i]))
  }

  function LedgerJson(fingerprint: string, attempts: seq<Json>): Json {
    Object(Put(Put([], FINGERPRINT, Str(fingerprint)), ATTEMPTS, Array(attempts)))
  }

  /** The attempts on record for the candidate; none when the ledger is another candidate's. */
  function AttemptsFor(evidence: Json, fingerprint: string): seq<Json> {
    match Ledger(evidence)
    case None => []
    case Some(ledger) => if GetStr(ledger, FINGERPRINT) == Some(fingerprint) then AttemptsOf(ledger).GetOr([]) else []
  }

  predicate IsSpendingStatus(status: Option<string>) {
    status.Some? && status.value in ["submitted", "failed", "blocked"]
  }

  predicate Spends(attempt: Json, key: string) {
    IsSpendingStatus(GetStr(attempt, "status")) && GetStr(attempt, "attemptKey") == Some(key)
  }

  predicate SpendsSome(attempt: Json) {
    IsSpendingStatus(GetStr(attempt, "status")) && GetStr(attempt, "attemptKey").Some?
  }

  /** `route_attempt_spent_keys` */
  function SpentKeys(evidence: Json, fingerprint: string): (r: set<string>)
    ensures forall k ::
      k in r <==> exists i ::
        0 <= i < |AttemptsFor(evidence, fingerprint)| && Spends(AttemptsFor(evidence, fingerprint)[i], k)
  {
    var attempts := AttemptsFor(evidence, fingerprint);
    set i | 0 <= i < |attempts| && SpendsSome(attempts[i]) :: GetStr(attempts[i], "attemptKey").value
  }

  function KeysOf(attempts: seq<Record>): set<string> {
    set i | 0 <= i < |attempts| :: attempts[i].attemptKey
  }

  /** What attaching attempts makes of the evidence: appended for the same candidate, a new ledger for another. */
  function Attached(codec: Codec, evidence: Json, fingerprint: string, attempts: seq<Record>): Json {
    if attempts == [] || !evidence.Object? then evidence
    else
      var records := AttemptsFor(evidence, fingerprint) + RecordsJson(codec, attempts);
      Object(Put(evidence.members, LEDGER, LedgerJson(fingerprint, records)))
  }

  lemma LedgerReadsBack(fingerprint: string, attempts: seq<Json>)
    ensures GetStr(LedgerJson(fingerprint, attempts), FINGERPRINT) == Some(fingerprint)
    ensures AttemptsOf(LedgerJson(fingerprint, attempts)) == Some(attempts)
  {
    hide Lookup, Put;
    var inner := Put([], FINGERPRINT, Str(fingerprint));
    assert FINGERPRINT != ATTEMPTS by {
      assert |FINGERPRINT| != |ATTEMPTS|;
    }
    LookupPut([], FINGERPRINT, Str(fingerprint), FINGERPRINT);
    LookupPut(inner, ATTEMPTS, Array(attempts), FINGERPRINT);
    LookupPut(inner, ATTEMPTS, Array(attempts), ATTEMPTS);
  }

  lemma AttachedAttempts(codec: Codec, evidence: Json, fingerprint: string, attempts: seq<Record>, other: string)
    requires evidence.Object? && attempts != []
    ensures AttemptsFor(Attached(codec, evidence, fingerprint, attempts), other)
         == if other == fingerprint then AttemptsFor(evidence, fingerprint) + RecordsJson(codec, attempts) else []
  {
    hide Lookup, Put, RecordsJson, LedgerJson;
    var records := AttemptsFor(evidence, fingerprint) + RecordsJson(codec, attempts);
    LedgerReadsBack(fingerprint, records);
    LookupPut(evidence.members, LEDGER, LedgerJson(fingerprint, records), LEDGER);
  }

  /** Every record this code writes spends its key, whatever became of the attempt. */
  lemma RecordSpendsItsKey(codec: Codec, r: Record, key: string)
    ensures Spends(RecordJson(codec, r), key) <==> key == r.attemptKey
  {
    hide RecordJson, GetStr;
    RecordReadsBack(codec, r, "status");
    RecordReadsBack(codec, r, "attemptKey");
    StatusField(codec, r);
    KeyField(codec, r);
  }

  lemma StatusField(codec: Codec, r: Record)
    ensures Field(codec, r, "status") == Some(r.status.Name())
  {
  }

  lemma KeyField(codec: Codec, r: Record)
    ensures Field(codec, r, "attemptKey") == Some(r.attemptKey)
  {
  }

  /**
   * Attaching adds exactly the new keys to the spent ones, for object evidence and nothing else: any other evidence
   * is left alone, so only the empty attach then keeps the law.
   */
  lemma AttachSpendsExactly(codec: Codec, evidence: Json, fingerprint: string, attempts: seq<Record>)
    ensures evidence.Object? || attempts == [] <==>
      SpentKeys(Attached(codec, evidence, fingerprint, attempts), fingerprint)
      == SpentKeys(evidence, fingerprint) + KeysOf(attempts)
  {
    hide Attached, RecordJson, AttemptsFor, Spends, SpentKeys;
    var after := Attached(codec, evidence, fingerprint, attempts);
    if attempts == [] {
      NothingAttached(codec, evidence, fingerprint, attempts);
      assert KeysOf(attempts) == {};
    } else if !evidence.Object? {
      NothingAttached(codec, evidence, fingerprint, attempts);
      assert attempts[0].attemptKey in KeysOf(attempts);
      assert AttemptsFor(evidence, fingerprint) == [] by { NoLedgerNoAttempts(evidence, fingerprint); }
    } else {
      var before, records := AttemptsFor(evidence, fingerprint), RecordsJson(codec, attempts);
      AttachedAttempts(codec, evidence, fingerprint, attempts, fingerprint);
      forall key ensures key in SpentKeys(after, fingerprint)
        <==> key in SpentKeys(evidence, fingerprint) + KeysOf(attempts) {
        AttachedKey(codec, evidence, fingerprint, attempts, key);
      }
    }
  }

  lemma NothingAttached(codec: Codec, evidence: Json, fingerprint: string, attempts: seq<Record>)
    requires attempts == [] || !evidence.Object?
    ensures Attached(codec, evidence, fingerprint, attempts) == evidence
  {
  }

  lemma NoLedgerNoAttempts(evidence: Json, fingerprint: string)
    requires Ledger(evidence).None?
    ensures AttemptsFor(evidence, fingerprint) == []
  {
  }

  lemma AttachedKey(codec: Codec, evidence: Json, fingerprint: string, attempts: seq<Record>, key: string)
    requires evidence.Object? && attempts != []
    ensures key in SpentKeys(Attached(codec, evidence, fingerprint, attempts), fingerprint)
       <==> key in SpentKeys(evidence, fingerprint) || key in KeysOf(attempts)
  {
    hide Attached, RecordJson, AttemptsFor, Spends;
    var before, records := AttemptsFor(evidence, fingerprint), RecordsJson(codec, attempts);
    var all := before + records;
    AttachedAttempts(codec, evidence, fingerprint, attempts, fingerprint);
    if i :| 0 <= i < |all| && Spends(all[i], key) {
      if i >= |before| {
        RecordSpendsItsKey(codec, attempts[i - |before|], key);
      }
    }
    if i :| 0 <= i < |before| && Spends(before[i], key) {
      assert Spends(all[i], key);
    }
    if i :| 0 <= i < |attempts| && attempts[i].attemptKey == key {
      RecordSpendsItsKey(codec, attempts[i], key);
      assert Spends(all[|before| + i], key);
    }
  }

  function AllAttached(codec: Codec, evidence: Json, fingerprint: string, batches: seq<seq<Record>>): Json {
    if batches == [] then evidence
    else Attached(codec, AllAttached(codec, evidence, fingerprint, batches[..|batches| - 1]), fingerprint,
      batches[|batches| - 1])
  }

  function AllKeys(batches: seq<seq<Record>>): set<string> {
    if batches == [] then {} else AllKeys(batches[..|batches| - 1]) + KeysOf(batches[|batches| - 1])
  }

  /** Over any run of attaches for one candidate nothing spent is ever forgotten and nothing else is spent. */
  lemma {:induction false} RunOfAttachesSpendsExactly(
      codec: Codec, evidence: Json, fingerprint: string, batches: seq<seq<Record>>)
    requires evidence.Object?
    ensures AllAttached(codec, evidence, fingerprint, batches).Object?
    ensures SpentKeys(AllAttached(codec, evidence, fingerprint, batches), fingerprint) ==
      SpentKeys(evidence, fingerprint) + AllKeys(batches)
  {
    hide SpentKeys, KeysOf, Put, LedgerJson, RecordsJson, AttemptsFor;
    if batches != [] {
      var front := batches[..|batches| - 1];
      RunOfAttachesSpendsExactly(codec, evidence, fingerprint, front);
      AttachSpendsExactly(codec, AllAttached(codec, evidence, fingerprint, front), fingerprint, batches[|batches| - 1]);
    }
  }

  /** The evidence remembers one candidate: attaching for it leaves nothing spent for any other. */
  lemma AttachForgetsOtherCandidates(
      codec: Codec, evidence: Json, fingerprint: string, attempts: seq<Record>, other: string)
    requires evidence.Object? && attempts != [] && other != fingerprint
    ensures SpentKeys(Attached(codec, evidence, fingerprint, attempts), other) == {}
  {
    hide Attached, AttemptsFor;
    AttachedAttempts(codec, evidence, fingerprint, attempts, other);
  }

  /** Nothing but the ledger is touched. */
  lemma AttachKeepsTheRest(codec: Codec, evidence: Json, fingerprint: string, attempts: seq<Record>, name: string)
    requires name != LEDGER
    ensures Get(Attached(codec, evidence, fingerprint, attempts), name) == Get(evidence, name)
  {
    hide Lookup, Put, LedgerJson, RecordsJson, AttemptsFor;
    if evidence.Object? && attempts != [] {
      var records := AttemptsFor(evidence, fingerprint) + RecordsJson(codec, attempts);
      LookupPut(evidence.members, LEDGER, LedgerJson(fingerprint, records), name);
    }
  }

  // ----- carrying a ledger over

  function Seeded(evidence: Json, fingerprint: string, ledger: Option<Json>): Json {
    if ledger.Some? && GetStr(ledger.value, FINGERPRINT) == Some(fingerprint) && evidence.Object?
    then Object(Put(evidence.members, LEDGER, ledger.value))
    else evidence
  }

  function LedgerForCandidate(evidence: Json, fingerprint: string): Option<Json> {
    var ledger := Ledger(evidence);
    if ledger.Some? && GetStr(ledger.value, FINGERPRINT) == Some(fingerprint) then ledger else None
  }

  /** Seeding new evidence from the candidate's ledger carries over exactly what was spent on it. */
  lemma SeedCarriesSpentKeys(old_: Json, evidence: Json, fingerprint: string)
    requires evidence.Object?
    ensures SpentKeys(Seeded(evidence, fingerprint, LedgerForCandidate(old_, fingerprint)), fingerprint)
         == SpentKeys(if LedgerForCandidate(old_, fingerprint).Some? then old_ else evidence, fingerprint)
  {
    hide Lookup, Put, AttemptsOf, GetStr, Spends;
    var ledger := LedgerForCandidate(old_, fingerprint);
    if ledger.Some? {
      LookupPut(evidence.members, LEDGER, ledger.value, LEDGER);
      assert Ledger(Seeded(evidence, fingerprint, ledger)) == Ledger(old_);
      SameLedgerSameKeys(Seeded(evidence, fingerprint, ledger), old_, fingerprint);
    }
  }

  lemma SameLedgerSameKeys(a: Json, b: Json, fingerprint: string)
    requires Ledger(a) == Ledger(b)
    ensures AttemptsFor(a, fingerprint) == AttemptsFor(b, fingerprint)
    ensures SpentKeys(a, fingerprint) == SpentKeys(b, fingerprint)
  {
    hide Lookup, AttemptsOf, GetStr, SpendsSome, Spends;
  }

  function PlanWithLedger(plan: Json, selected: Json): Json {
    match Ledger(selected)
    case None => plan
    case Some(ledger) =>
      if plan.Object? then Object(Put(plan.members, LEDGER, ledger))
      else Object(Put(Put([], "coveragePlan", plan), LEDGER, ledger))
  }

  /** A coverage plan takes over the selected candidate's ledger, and with it every spent key, for any fingerprint. */
  lemma PlanKeepsSpentKeys(plan: Json, selected: Json, fingerprint: string)
    ensures Ledger(PlanWithLedger(plan, selected)) == Ledger(selected).OrElse(Ledger(plan))
    ensures Ledger(selected).Some? ==>
      SpentKeys(PlanWithLedger(plan, selected), fingerprint) == SpentKeys(selected, fingerprint)
    ensures Ledger(selected).None? ==>
      SpentKeys(PlanWithLedger(plan, selected), fingerprint) == SpentKeys(plan, fingerprint)
  {
    hide Lookup, Put, AttemptsFor, SpentKeys;
    if Ledger(selected).Some? {
      var ledger := Ledger(selected).value;
      LookupPut(if plan.Object? then plan.members else Put([], "coveragePlan", plan), LEDGER, ledger, LEDGER);
      SameLedgerSameKeys(PlanWithLedger(plan, selected), selected, fingerprint);
    }
  }

  /** The rest of an object plan is untouched. */
  lemma PlanKeepsTheRest(plan: Json, selected: Json, name: string)
    requires plan.Object? && name != LEDGER
    ensures Get(PlanWithLedger(plan, selected), name) == Get(plan, name)
  {
    hide Lookup, Put;
    if Ledger(selected).Some? {
      LookupPut(plan.members, LEDGER, Ledger(selected).value, name);
    }
  }

  /** An evidence document, edited in place. */
  class Evidence {
    var json: Json

    constructor (initial: Json)
      ensures json == initial
    {
      json := initial;
    }

    method AttachLedger(codec: Codec, fingerprint: string, attempts: seq<Record>)
      modifies this
      ensures json == Attached(codec, old(json), fingerprint, attempts)
    {
      hide Lookup, Put, RecordsJson;
      if attempts == [] || !json.Object? {
        return;
      }
      var records := RecordsJson(codec, attempts);
      var existing := Get(json, LEDGER);
      if existing.Some? && GetStr(existing.value, FINGERPRINT) == Some(fingerprint) &&
        AttemptsOf(existing.value).Some? {
        records := AttemptsOf(existing.value).value + records;
      } else {
        assert [] + records == records;
      }
      json := Object(Put(json.members, LEDGER, LedgerJson(fingerprint, records)));
    }

    method SeedLedger(fingerprint: string, ledger: Option<Json>)
      modifies this
      ensures json == Seeded(old(json), fingerprint, ledger)
    {
      hide Lookup, Put;
      if ledger.None? || GetStr(ledger.value, FINGERPRINT) != Some(fingerprint) {
        return;
      }
      if json.Object? {
        json := Object(Put(json.members, LEDGER, ledger.value));
      }
    }
  }

  // ----- rebuilding a record

  datatype Descriptor = Descriptor(provider: Uuid, implementation: Option<string>)

  function DescriptorFrom(
      codec: Codec, v: Json, route: string, providerName: string, implementationName: string): Option<Descriptor> {
    if GetStr(v, "routeLogicalId") != Some(route) then None
    else
      match GetStr(v, providerName)
      case None => None
      case Some(text) =>
        match codec.parse(text)
        case None => None
        case Some(u) => Some(Descriptor(u, TrimToOption(GetStr(v, implementationName))))
  }

  function AttemptDescriptor(codec: Codec, attempt: Json, route: string): Option<Descriptor> {
    DescriptorFrom(codec, attempt, route, "providerId", "implementation")
  }

  /** Newest first: the first attempt that yields a descriptor, among those for the download if one is asked for. */
  function NewestDescriptor(
      codec: Codec, attempts: seq<Json>, route: string, download: Option<string>): Option<Descriptor> {
    if attempts == [] then None
    else
      var last := attempts[|attempts| - 1];
      if (download.Some? ==> GetStr(last, "downloadId") == download) && AttemptDescriptor(codec, last, route).Some?
      then AttemptDescriptor(codec, last, route)
      else NewestDescriptor(codec, attempts[..|attempts| - 1], route, download)
  }

  function LedgerDescriptor(codec: Codec, evidence: Json, route: string, download: Option<string>): Option<Descriptor> {
    match Ledger(evidence)
    case None => None
    case Some(ledger) =>
      match AttemptsOf(ledger)
      case None => None
      case Some(attempts) =>
        var wanted := TrimToOption(download);
        var exact := if wanted.Some? then NewestDescriptor(codec, attempts, route, wanted) else None;
        exact.OrElse(NewestDescriptor(codec, attempts, route, None))
  }

  function SubmissionDescriptor(codec: Codec, evidence: Json, route: string): Option<Descriptor> {
    match Get(evidence, "submissionResult")
    case None => None
    case Some(result) => DescriptorFrom(codec, result, route, "routeProviderId", "routeProviderImplementation")
  }

  function RecordFromEvidence(
    codec: Codec, evidence: Json, route: string, status: Status, download: Option<string>, failureClass: Option<string>,
    reason: Option<string>, now: string): Option<Record>
  {
    match LedgerDescriptor(codec, evidence, route, download).OrElse(SubmissionDescriptor(codec, evidence, route))
    case None => None
    case Some(d) => Some(NewRecord(codec, route, Some(d.provider), d.implementation, download, status, failureClass,
      reason, now))
  }

  /** The record's key is the one its stored fields would give. New records of trimmed routes are like that. */
  ghost predicate Reproducible(codec: Codec, r: Record) {
    && r.attemptKey == AttemptKey(codec, r.route, r.provider, r.implementation)
    && r.implementation == TrimToOption(r.implementation)
  }

  predicate IsDefaultRoute(route: string) {
    route in [Broker.DEBRID_DEFAULT, Broker.TORRENT_DEFAULT, Broker.USENET_DEFAULT]
  }

  lemma FamiliesTellKeysApart(
      codec: Codec, a: string, b: string, provider: Option<Uuid>, implementation: Option<string>)
    ensures AttemptKey(codec, a, provider, implementation) == AttemptKey(codec, b, provider, implementation)
      <==> FamilyOf(a) == FamilyOf(b)
  {
    hide FamilyOf, Lower, TrimToOption;
    assert AttemptKey(codec, a, provider, implementation)[0] == FamilyPrefix(FamilyOf(a))[0];
    assert AttemptKey(codec, b, provider, implementation)[0] == FamilyPrefix(FamilyOf(b))[0];
  }

  lemma FamilyOfTrimmed(route: string)
    ensures FamilyOf(route) == FamilyOf(Trim(route)) <==> Trim(route) == route || !IsDefaultRoute(Trim(route))
  {
    hide Trim;
    DefaultsAreTrimmed();
  }

  lemma DefaultsAreTrimmed()
    ensures Trim(Broker.DEBRID_DEFAULT) == Broker.DEBRID_DEFAULT
    ensures Trim(Broker.TORRENT_DEFAULT) == Broker.TORRENT_DEFAULT
    ensures Trim(Broker.USENET_DEFAULT) == Broker.USENET_DEFAULT
  {
    TrimOfTrimmed(Broker.DEBRID_DEFAULT);
    TrimOfTrimmed(Broker.TORRENT_DEFAULT);
    TrimOfTrimmed(Broker.USENET_DEFAULT);
  }

  /** A new record can be rebuilt exactly when trimming its route does not turn it into one of the default routes. */
  lemma ReproducibleExactlyWhen(
    codec: Codec, route: string, provider: Option<Uuid>, implementation: Option<string>, download: Option<string>,
    status: Status, failureClass: Option<string>, reason: Option<string>, now: string)
    ensures Reproducible(codec,
      NewRecord(codec, route, provider, implementation, download, status, failureClass, reason, now))
       <==> Trim(route) == route || !IsDefaultRoute(Trim(route))
  {
    hide Trim, AttemptKey, FamilyOf, IsDefaultRoute;
    TrimToOptionIdempotent(implementation);
    FamiliesTellKeysApart(codec, route, Trim(route), provider, TrimToOption(implementation));
    FamilyOfTrimmed(route);
  }

  /** A written record of a known provider describes that provider and implementation. */
  lemma WrittenDescriptor(codec: Codec, r: Record)
    requires codec.Faithful() && r.provider.Some?
    ensures AttemptDescriptor(codec, RecordJson(codec, r), r.route)
         == Some(Descriptor(r.provider.value, TrimToOption(r.implementation)))
  {
    hide RecordJson, GetStr, TrimToOption, AttemptKey;
    RecordReadsBack(codec, r, "routeLogicalId");
    RecordReadsBack(codec, r, "providerId");
    RecordReadsBack(codec, r, "implementation");
    DescriptorFields(codec, r);
    assert codec.parse(codec.print_(r.provider.value)) == Some(r.provider.value);
  }

  lemma RebuiltKey(codec: Codec, r: Record)
    requires codec.Faithful() && Reproducible(codec, r) && r.provider.Some?
    ensures AttemptDescriptor(codec, RecordJson(codec, r), r.route) ==
      Some(Descriptor(r.provider.value, r.implementation))
    ensures r.attemptKey == AttemptKey(codec, r.route, r.provider, TrimToOption(r.implementation))
  {
    hide RecordJson, AttemptDescriptor, TrimToOption, AttemptKey;
    WrittenDescriptor(codec, r);
  }

  lemma DescriptorFields(codec: Codec, r: Record)
    ensures Field(codec, r, "routeLogicalId") == Some(r.route)
    ensures Field(codec, r, "providerId") == ProviderText(codec, r.provider)
    ensures Field(codec, r, "implementation") == r.implementation
  {
  }

  /** The evidence's ledger consists of these records, as this code writes them. */
  ghost predicate Written(codec: Codec, evidence: Json, records: seq<Record>) {
    && Ledger(evidence).Some?
    && AttemptsOf(Ledger(evidence).value) == Some(RecordsJson(codec, records))
    && forall i :: 0 <= i < |records| ==> Reproducible(codec, records[i])
  }

  /** Attaching rebuildable records keeps the ledger that way; a different candidate starts it afresh. */
  lemma AttachKeepsWritten(
      codec: Codec, evidence: Json, fingerprint: string, records: seq<Record>, attempts: seq<Record>)
    requires evidence.Object? && attempts != []
    requires forall i :: 0 <= i < |attempts| ==> Reproducible(codec, attempts[i])
    requires Ledger(evidence).None? || Written(codec, evidence, records)
    ensures
      var same := Ledger(evidence).Some? && GetStr(Ledger(evidence).value, FINGERPRINT) == Some(fingerprint);
      Written(codec, Attached(codec, evidence, fingerprint, attempts), if same then records + attempts else attempts)
  {
    hide Lookup, Put, LedgerJson, RecordsJson, Reproducible, GetStr;
    var all := AttemptsFor(evidence, fingerprint) + RecordsJson(codec, attempts);
    LedgerReadsBack(fingerprint, all);
    LookupPut(evidence.members, LEDGER, LedgerJson(fingerprint, all), LEDGER);
    assert [] + RecordsJson(codec, attempts) == RecordsJson(codec, attempts);
    RecordsJsonAppend(codec, records, attempts);
  }

  lemma RecordsJsonAppend(codec: Codec, a: seq<Record>, b: seq<Record>)
    ensures RecordsJson(codec, a) + RecordsJson(codec, b) == RecordsJson(codec, a + b)
  {
    hide RecordJson;
  }

  /** Whether the descriptor search stops at the record. */
  ghost predicate Answers(r: Record, route: string, download: Option<string>) {
    r.route == route && r.provider.Some? && (download.Some? ==> r.downloadId == download)
  }

  lemma SearchStopsExactlyAt(codec: Codec, r: Record, route: string, download: Option<string>)
    requires codec.Faithful() && Reproducible(codec, r)
    ensures Answers(r, route, download) <==>
      && (download.Some? ==> GetStr(RecordJson(codec, r), "downloadId") == download)
      && AttemptDescriptor(codec, RecordJson(codec, r), route).Some?
  {
    hide RecordJson, GetStr, AttemptKey, TrimToOption;
    RecordReadsBack(codec, r, "routeLogicalId");
    RecordReadsBack(codec, r, "providerId");
    RecordReadsBack(codec, r, "downloadId");
    DescriptorFields(codec, r);
    DownloadField(codec, r);
    if r.provider.Some? {
      RebuiltKey(codec, r);
    }
  }

  lemma DownloadField(codec: Codec, r: Record)
    ensures Field(codec, r, "downloadId") == r.downloadId
  {
  }

  /** The index of the newest record that answers, or of none. */
  ghost function NewestAnswer(records: seq<Record>, route: string, download: Option<string>): (i: Option<nat>)
    ensures i.Some? ==> i.value < |records| && Answers(records[i.value], route, download)
    ensures i.Some? ==> forall j :: i.value < j < |records| ==> !Answers(records[j], route, download)
    ensures i.None? ==> forall j :: 0 <= j < |records| ==> !Answers(records[j], route, download)
  {
    if records == [] then None
    else if Answers(records[|records| - 1], route, download) then Some(|records| - 1)
    else NewestAnswer(records[..|records| - 1], route, download)
  }

  lemma {:induction false} NewestDescriptorOfWritten(
      codec: Codec, records: seq<Record>, route: string, download: Option<string>)
    requires codec.Faithful() && forall i :: 0 <= i < |records| ==> Reproducible(codec, records[i])
    ensures var i := NewestAnswer(records, route, download);
      NewestDescriptor(codec, RecordsJson(codec, records), route, download)
      == if i.Some? then Some(Descriptor(records[i.value].provider.value, records[i.value].implementation)) else None
  {
    hide RecordJson, GetStr, Reproducible, AttemptDescriptor;
    if records != [] {
      var front, last := records[..|records| - 1], records[|records| - 1];
      var items := RecordsJson(codec, records);
      assert items[..|items| - 1] == RecordsJson(codec, front);
      SearchStopsExactlyAt(codec, last, route, download);
      if Answers(last, route, download) {
        RebuiltKey(codec, last);
      } else {
        NewestDescriptorOfWritten(codec, front, route, download);
      }
    }
  }

  lemma RecordOfDescriptor(
      codec: Codec, evidence: Json, r: Record, status: Status, download: Option<string>, failureClass: Option<string>,
      reason: Option<string>, now: string)
    requires Reproducible(codec, r) && r.provider.Some?
    requires LedgerDescriptor(codec, evidence, r.route, download) ==
      Some(Descriptor(r.provider.value, r.implementation))
    ensures var x := RecordFromEvidence(codec, evidence, r.route, status, download, failureClass, reason, now);
      x.Some? && x.value.attemptKey == r.attemptKey && x.value.provider == r.provider &&
        x.value.implementation == r.implementation && x.value.status == status
  {
    hide LedgerDescriptor, SubmissionDescriptor, AttemptKey, TrimToOption;
    TrimToOptionIdempotent(r.implementation);
  }

  /** Asked for a download, the rebuilt record carries the key, provider and implementation of its newest attempt. */
  lemma RebuiltByDownload(
    codec: Codec, evidence: Json, records: seq<Record>, i: nat, status: Status, download: Option<string>,
    failureClass: Option<string>, reason: Option<string>, now: string)
    requires codec.Faithful() && Written(codec, evidence, records)
    requires i < |records| && records[i].provider.Some? && records[i].downloadId.Some?
    requires TrimToOption(download) == records[i].downloadId
    requires forall j :: i < j < |records| ==> !Answers(records[j], records[i].route, records[i].downloadId)
    ensures var r := records[i];
      var x := RecordFromEvidence(codec, evidence, r.route, status, download, failureClass, reason, now);
      x.Some? && x.value.attemptKey == r.attemptKey && x.value.provider == r.provider &&
        x.value.implementation == r.implementation && x.value.status == status
  {
    hide Lookup, RecordsJson, NewestDescriptor, Reproducible, TrimToOption, NewestAnswer, RecordFromEvidence;
    var r := records[i];
    NewestDescriptorOfWritten(codec, records, r.route, r.downloadId);
    var newest := NewestAnswer(records, r.route, r.downloadId);
    assert Answers(r, r.route, r.downloadId);
    assert newest == Some(i);
    RecordOfDescriptor(codec, evidence, r, status, download, failureClass, reason, now);
  }

  /**
   * Whatever was asked for, a record rebuilt from the ledger repeats a spent key: recording it again spends nothing
   * new.
   */
  lemma RebuiltSpendsNothingNew(
    codec: Codec, evidence: Json, fingerprint: string, records: seq<Record>, route: string, status: Status,
    download: Option<string>, failureClass: Option<string>, reason: Option<string>, now: string)
    requires codec.Faithful() && Written(codec, evidence, records)
    requires GetStr(Ledger(evidence).value, FINGERPRINT) == Some(fingerprint)
    requires LedgerDescriptor(codec, evidence, route, download).Some?
    ensures var x := RecordFromEvidence(codec, evidence, route, status, download, failureClass, reason, now);
      && x.Some?
      && x.value.attemptKey in SpentKeys(evidence, fingerprint)
      && SpentKeys(Attached(codec, evidence, fingerprint, [x.value]), fingerprint) == SpentKeys(evidence, fingerprint)
  {
    hide Lookup, GetStr, NewestDescriptor, Reproducible, TrimToOption, NewestAnswer, RecordFromEvidence, SpentKeys,
      Attached, RecordJson, Spends;
    var wanted := TrimToOption(download);
    NewestDescriptorOfWritten(codec, records, route, wanted);
    NewestDescriptorOfWritten(codec, records, route, None);
    var exact := if wanted.Some? then NewestAnswer(records, route, wanted) else None;
    var i := exact.OrElse(NewestAnswer(records, route, None)).value;
    var r := records[i];
    assert r.route == route;
    RecordOfDescriptor(codec, evidence, r, status, download, failureClass, reason, now);
    var x := RecordFromEvidence(codec, evidence, route, status, download, failureClass, reason, now).value;
    RecordSpendsItsKey(codec, r, r.attemptKey);
    assert Spends(AttemptsFor(evidence, fingerprint)[i], r.attemptKey);
    AttachSpendsExactly(codec, evidence, fingerprint, [x]);
    assert KeysOf([x]) == {x.attemptKey} by {
      assert [x][0] == x;
    }
  }

  // ----- exactly when the key survives

  /** The descriptor search over a ledger that ends in the record stops at the record. */
  lemma NewestIsLast(codec: Codec, before: seq<Json>, r: Record, download: Option<string>)
    requires codec.Faithful() && r.provider.Some? && (download.Some? ==> r.downloadId == download)
    ensures NewestDescriptor(codec, before + RecordsJson(codec, [r]), r.route, download)
         == Some(Descriptor(r.provider.value, TrimToOption(r.implementation)))
  {
    hide RecordJson, GetStr, AttemptDescriptor, TrimToOption;
    var all := before + RecordsJson(codec, [r]);
    assert all[|all| - 1] == RecordJson(codec, r);
    WrittenDescriptor(codec, r);
    RecordReadsBack(codec, r, "downloadId");
    DownloadField(codec, r);
  }

  /** Right after the record was attached, asking without a download id or with its own finds the record. */
  lemma AttachedIsFound(codec: Codec, evidence: Json, fingerprint: string, r: Record, asked: Option<string>)
    requires codec.Faithful() && evidence.Object? && r.provider.Some?
    requires TrimToOption(asked).None? || TrimToOption(asked) == r.downloadId
    ensures LedgerDescriptor(codec, Attached(codec, evidence, fingerprint, [r]), r.route, asked)
         == Some(Descriptor(r.provider.value, TrimToOption(r.implementation)))
  {
    hide Lookup, Put, LedgerJson, RecordsJson, TrimToOption, NewestDescriptor, AttemptsFor;
    var before := AttemptsFor(evidence, fingerprint);
    var all := before + RecordsJson(codec, [r]);
    LedgerReadsBack(fingerprint, all);
    LookupPut(evidence.members, LEDGER, LedgerJson(fingerprint, all), LEDGER);
    NewestIsLast(codec, before, r, TrimToOption(asked));
    NewestIsLast(codec, before, r, None);
  }

  /**
   * A new record, attached and rebuilt from the evidence under the route it was stored with, has its original key
   * exactly when trimming the route it was made for did not turn it into one of the default routes.
   */
  lemma RebuiltKeyExactlyWhen(
    codec: Codec, evidence: Json, fingerprint: string, route: string, provider: Uuid, implementation: Option<string>,
    download: Option<string>, status: Status, failureClass: Option<string>, reason: Option<string>, now: string,
    asked: Option<string>, again: Status, later: string)
    requires codec.Faithful() && evidence.Object?
    requires TrimToOption(asked).None? || TrimToOption(asked) == download
    ensures
      var r := NewRecord(codec, route, Some(provider), implementation, download, status, failureClass, reason, now);
      var x := RecordFromEvidence(
        codec, Attached(codec, evidence, fingerprint, [r]), Trim(route), again, asked, failureClass, reason, later);
      && x.Some?
      && (x.value.attemptKey == r.attemptKey <==> Trim(route) == route || !IsDefaultRoute(Trim(route)))
  {
    hide Trim, AttemptKey, FamilyOf, IsDefaultRoute, TrimToOption, LedgerDescriptor, SubmissionDescriptor, Attached;
    var r := NewRecord(codec, route, Some(provider), implementation, download, status, failureClass, reason, now);
    AttachedIsFound(codec, evidence, fingerprint, r, asked);
    TrimToOptionIdempotent(implementation);
    FamiliesTellKeysApart(codec, route, Trim(route), Some(provider), TrimToOption(implementation));
    FamilyOfTrimmed(route);
  }

  /** An untrimmed default route is such a case: the rebuilt record changes family, and with it its key. */
  lemma UntrimmedDefaultChangesKey(codec: Codec, evidence: Json, fingerprint: string, provider: Uuid, now: string)
    requires codec.Faithful() && evidence.Object?
    ensures
      var r := NewRecord(codec, " downloaders.torrent.default", Some(provider), None, None, Failed, None, None, now);
      var x := RecordFromEvidence(
        codec, Attached(codec, evidence, fingerprint, [r]), "downloaders.torrent.default", Failed, None, None, None,
        now);
      x.Some? && x.value.attemptKey != r.attemptKey
  {
    hide NewRecord, RecordFromEvidence, Attached;
    DefaultsAreTrimmed();
    assert Trim(" downloaders.torrent.default") == "downloaders.torrent.default" by {
      hide TrimEnd;
      assert " downloaders.torrent.default"[1..] == "downloaders.torrent.default";
    }
    RebuiltKeyExactlyWhen(
      codec, evidence, fingerprint, " downloaders.torrent.default", provider, None, None, Failed, None, None, now, None,
      Failed, now);
  }
}
