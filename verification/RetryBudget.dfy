/**
 * The persisted retry document of the recovery loop (src/acquisition/mod.rs) and what it guarantees over whole runs:
 * while an entry lives, an intent gets at most two fail-and-retry requests, for different downloads, a cooldown apart.
 */
module RetryBudget {
  import opened Wrappers
  import opened Uuids
  import RecoveryGates

  const MAX_RETRIES: nat := 2
  const COOLDOWN: int := 180 * RecoveryGates.SECOND
  const MAX_U32: nat := 0xffff_ffff

  datatype Intent = Intent(id: Uuid, managerProvider: Uuid, managerItem: Option<string>)

  datatype Entry = Entry(
    managerItem: Option<string>, attempts: nat, lastDownload: Option<string>, lastAt: Option<int>,
    cooldownUntil: Option<int>,
    lastError: Option<string>)

  /** Entries by intent. */
  type Document = map<Uuid, Entry>

  const BLANK := Entry(None, 0, None, None, None, None)

  // ----- one iteration, as far as the document goes

  predicate DistinctIntents(intents: seq<Intent>) {
    forall i, j :: 0 <= i < j < |intents| ==> intents[i].id != intents[j].id
  }

  /** The entry survives the sweep: its intent is active and its manager item matches, blank meaning none. */
  predicate Survives(entry: Entry, intent: Intent) {
    entry.managerItem.GetOr("") == intent.managerItem.GetOr("")
  }

  /**
   * The entry an intent starts the iteration with: its surviving one, or a blank one, reset if the manager item
   * differs.
   */
  function Prepared(document: Document, intent: Intent): Entry {
    var entry := if intent.id in document && Survives(document[intent.id], intent) then document[intent.id] else BLANK;
    if entry.managerItem != intent.managerItem then BLANK.(managerItem := intent.managerItem) else entry
  }

  /** Whether preparing the entry already marks the document as changed. */
  predicate IsReset(document: Document, intent: Intent) {
    var entry := if intent.id in document && Survives(document[intent.id], intent) then document[intent.id] else BLANK;
    entry.managerItem != intent.managerItem
  }

  /**
   * A fail-and-retry request for a download on record in the manager's history, and the error it came back with, if
   * any.
   */
  datatype Attempt = Attempt(historyId: int, download: string, error: Option<string>)

  /** Retries are left and no cooldown is running. */
  predicate IsEligible(entry: Entry, now: int) {
    entry.attempts < MAX_RETRIES && (entry.cooldownUntil.Some? ==> entry.cooldownUntil.value <= now)
  }

  predicate MayAttempt(entry: Entry, now: int, download: string) {
    IsEligible(entry, now) && entry.lastDownload != Some(download)
  }

  /** The bookkeeping of an attempt, the same whether or not the request went through. */
  function Recorded(entry: Entry, now: int, attempt: Attempt): Entry {
    Entry(
      entry.managerItem, if entry.attempts < MAX_U32 then entry.attempts + 1 else MAX_U32,
      Some(attempt.download), Some(now),
      Some(now + COOLDOWN), attempt.error)
  }

  function EntryAfter(document: Document, intent: Intent, now: int, outcome: Option<Attempt>): Entry {
    match outcome
    case None => Prepared(document, intent)
    case Some(attempt) => Recorded(Prepared(document, intent), now, attempt)
  }

  ghost predicate Changed(document: Document, intents: seq<Intent>, outcomes: seq<Option<Attempt>>)
    requires |intents| == |outcomes|
  {
    exists i :: 0 <= i < |intents| && (outcomes[i].Some? || IsReset(document, intents[i]))
  }

  /** The document in memory at the end: one entry per active intent, none for any other. */
  ghost predicate InMemory(
      document: Document, intents: seq<Intent>, now: int, outcomes: seq<Option<Attempt>>, final: Document)
    requires |intents| == |outcomes|
  {
    && (forall i ::
      0 <= i < |intents| ==>
        intents[i].id in final && final[intents[i].id] == EntryAfter(document, intents[i], now, outcomes[i]))
    && (forall id :: id in final ==> exists i :: 0 <= i < |intents| && intents[i].id == id)
  }

  ghost predicate Allowed(document: Document, intents: seq<Intent>, now: int, outcomes: seq<Option<Attempt>>)
    requires |intents| == |outcomes|
  {
    forall i ::
      0 <= i < |intents| && outcomes[i].Some? ==>
        MayAttempt(Prepared(document, intents[i]), now, outcomes[i].value.download)
  }

  /** The effect of one iteration on the stored document; without a change nothing is saved, sweep included. */
  ghost predicate Iterates(
      before: Document, intents: seq<Intent>, now: int, outcomes: seq<Option<Attempt>>, after: Document) {
    && |outcomes| == |intents|
    && Allowed(before, intents, now, outcomes)
    && if Changed(before, intents, outcomes) then InMemory(before, intents, now, outcomes, after) else after == before
  }

  /** The entry of an intent that is no longer active is dropped from storage only along with some other change. */
  lemma SweepIsSavedOnlyWithAChange(
    before: Document, intents: seq<Intent>, now: int, outcomes: seq<Option<Attempt>>, after: Document, id: Uuid)
    requires Iterates(before, intents, now, outcomes, after)
    requires id in before && forall i :: 0 <= i < |intents| ==> intents[i].id != id
    ensures id in after <==> !Changed(before, intents, outcomes)
  {
    hide Changed, EntryAfter, Allowed;
  }

  /** A quiet iteration: the only active intent has nothing to recover, and the stale entry of another stays stored. */
  lemma QuietIterationKeepsStaleEntry(before: Document, active: Intent, now: int, stale: Uuid)
    requires stale in before && stale != active.id
    requires active.id in before && before[active.id].managerItem == active.managerItem
    ensures Iterates(before, [active], now, [None], before)
    ensures forall after :: Iterates(before, [active], now, [None], after) ==> stale in after
  {
    var none: Option<Attempt> := None;
    assert [none][0] == None && [active][0] == active;
    assert !Changed(before, [active], [none]);
  }

  // ----- runs

  datatype Step =
    | Iteration(intents: seq<Intent>, now: int, outcomes: seq<Option<Attempt>>)
    | Skipped
    | ManualRelease(id: Uuid, succeeded: bool)

  ghost predicate ValidStep(before: Document, step: Step, after: Document) {
    match step
    case Iteration(intents, now, outcomes) => DistinctIntents(intents) &&
      Iterates(before, intents, now, outcomes, after)
    case Skipped => after == before
    case ManualRelease(id, succeeded) => after == if succeeded then before - {id} else before
  }

  ghost predicate IsRun(documents: seq<Document>, steps: seq<Step>) {
    && |documents| == |steps| + 1
    && forall t :: 0 <= t < |steps| ==> ValidStep(documents[t], steps[t], documents[t + 1])
  }

  datatype Request = Request(download: string, at: int)

  /** The request a step issues for the intent; distinct intents make it at most one. */
  function RequestOf(step: Step, id: Uuid): seq<Request> {
    if !step.Iteration? || |step.outcomes| != |step.intents| then [] else RequestIn(step, id, |step.intents|)
  }

  function RequestIn(step: Step, id: Uuid, n: nat): seq<Request>
    requires step.Iteration? && |step.outcomes| == |step.intents| && n <= |step.intents|
  {
    if n == 0 then []
    else
      RequestIn(step, id, n - 1)
      + if step.intents[n - 1].id == id && step.outcomes[n - 1].Some?
        then [Request(step.outcomes[n - 1].value.download, step.now)] else []
  }

  lemma {:induction false} NoRequestIn(step: Step, id: Uuid, n: nat)
    requires step.Iteration? && |step.outcomes| == |step.intents| && n <= |step.intents|
    requires forall i :: 0 <= i < n ==> step.intents[i].id != id
    ensures RequestIn(step, id, n) == []
  {
    if n > 0 {
      NoRequestIn(step, id, n - 1);
    }
  }

  lemma {:induction false} OneRequestIn(step: Step, id: Uuid, n: nat, i: nat)
    requires step.Iteration? && |step.outcomes| == |step.intents| && i < n <= |step.intents|
    requires DistinctIntents(step.intents) && step.intents[i].id == id
    ensures RequestIn(step, id, n)
         == match step.outcomes[i] case None => [] case Some(attempt) => [Request(attempt.download, step.now)]
  {
    hide DistinctIntents;
    if i < n - 1 {
      OneRequestIn(step, id, n - 1, i);
      IdsDiffer(step.intents, i, n - 1);
      assert RequestIn(step, id, n) == RequestIn(step, id, n - 1) + [];
    } else {
      forall j | 0 <= j < i ensures step.intents[j].id != id {
        IdsDiffer(step.intents, j, i);
      }
      NoRequestIn(step, id, i);
    }
  }

  lemma IdsDiffer(intents: seq<Intent>, i: nat, j: nat)
    requires DistinctIntents(intents) && i < j < |intents|
    ensures intents[i].id != intents[j].id
  {
  }

  /** The stored document holds a live entry of the intent for the manager item. */
  predicate Lives(document: Document, id: Uuid, item: Option<string>) {
    id in document && document[id].managerItem == item
  }

  /** Preparing keeps a live entry of the same manager item as it is; any other is made anew for the intent's item. */
  lemma PreparedEntry(document: Document, intent: Intent)
    ensures Prepared(document, intent).managerItem == intent.managerItem
    ensures Lives(document, intent.id, intent.managerItem) ==> Prepared(document, intent) == document[intent.id]
  {
  }

  /** How an entry that is alive after a step relates to the one before it, given the request the step issued. */
  ghost predicate Evolves(before: Document, requests: seq<Request>, entry: Entry, id: Uuid, item: Option<string>) {
    && |requests| <= 1
    && (requests == [] && Lives(before, id, item) ==> entry == before[id])
    && (requests != [] ==> Reflects(entry, requests[0]) && entry.attempts > 0)
    && (requests != [] && Lives(before, id, item) ==>
          && MayAttempt(before[id], requests[0].at, requests[0].download)
          && entry.attempts == before[id].attempts + 1)
  }

  predicate Reflects(entry: Entry, request: Request) {
    entry.lastDownload == Some(request.download) && entry.cooldownUntil == Some(request.at + COOLDOWN)
  }

  lemma EntryEvolves(before: Document, step: Step, after: Document, id: Uuid, item: Option<string>)
    requires ValidStep(before, step, after) && Lives(after, id, item)
    ensures Evolves(before, RequestOf(step, id), after[id], id, item)
  {
    hide Prepared, IsReset, RequestIn, DistinctIntents;
    if step.Iteration? {
      if i :| 0 <= i < |step.intents| && step.intents[i].id == id {
        PreparedEntry(before, step.intents[i]);
        OneRequestIn(step, id, |step.intents|, i);
        if step.outcomes[i].Some? {
          assert Changed(before, step.intents, step.outcomes);
        }
      } else {
        NoRequestIn(step, id, |step.intents|);
      }
    }
  }

  /** The entry lives, uncleared and for one manager item, in every stored document from `a` to `b`. */
  ghost predicate Lifetime(documents: seq<Document>, a: nat, b: nat, id: Uuid, item: Option<string>)
    requires a <= b < |documents|
  {
    forall t :: a <= t <= b ==> Lives(documents[t], id, item)
  }

  /** The requests of the steps that led to documents `a` to `b`, the step that began the lifetime included. */
  function RequestsOf(steps: seq<Step>, a: nat, b: nat, id: Uuid): seq<Request>
    requires a <= b <= |steps|
    decreases b - a
  {
    var latest := if b == 0 then [] else RequestOf(steps[b - 1], id);
    if a == b then latest else RequestsOf(steps, a, b - 1, id) + latest
  }

  /** The entry accounts for the requests made so far. */
  ghost predicate AccountsFor(entry: Entry, requests: seq<Request>) {
    && |requests| <= entry.attempts
    && WithinBudget(requests)
    && (requests != [] ==> Reflects(entry, requests[|requests| - 1]))
  }

  lemma BudgetGrows(
      before: Document, entry: Entry, id: Uuid, item: Option<string>, requests: seq<Request>, latest: seq<Request>)
    requires Lives(before, id, item) && AccountsFor(before[id], requests) && Evolves(before, latest, entry, id, item)
    ensures AccountsFor(entry, requests + latest)
  {
    if latest == [] {
      assert requests + latest == requests;
    } else {
      assert latest == [latest[0]];
    }
  }

  ghost predicate WithinBudget(requests: seq<Request>) {
    && |requests| <= MAX_RETRIES
    && (forall i, j ::
      0 <= i < j < |requests| ==>
        requests[i].download != requests[j].download && requests[i].at + COOLDOWN <= requests[j].at)
  }

  lemma {:induction false} LifetimeAccounts(
      documents: seq<Document>, steps: seq<Step>, a: nat, b: nat, id: Uuid, item: Option<string>)
    requires IsRun(documents, steps) && a <= b <= |steps| && Lifetime(documents, a, b, id, item)
    ensures AccountsFor(documents[b][id], RequestsOf(steps, a, b, id))
    decreases b - a
  {
    hide ValidStep, RequestOf, AccountsFor, Evolves;
    assert Lives(documents[b], id, item);
    if b > 0 {
      EntryEvolves(documents[b - 1], steps[b - 1], documents[b], id, item);
    }
    if a < b {
      LifetimeAccounts(documents, steps, a, b - 1, id, item);
      BudgetGrows(
        documents[b - 1], documents[b][id], id, item, RequestsOf(steps, a, b - 1, id), RequestOf(steps[b - 1], id));
    } else {
      BudgetStarts(if b == 0 then map[] else documents[b - 1], documents[b][id], id, item, RequestsOf(steps, a, b, id));
    }
  }

  lemma BudgetStarts(before: Document, entry: Entry, id: Uuid, item: Option<string>, first: seq<Request>)
    requires first == [] || Evolves(before, first, entry, id, item)
    ensures AccountsFor(entry, first)
  {
  }

  /**
   * In every run, during one lifetime of an intent's entry, at most two fail-and-retry requests are issued, for
   * different downloads and at least 180 seconds apart, whether or not they succeed and whatever the clock does.
   */
  lemma RetriesStayWithinBudget(
      documents: seq<Document>, steps: seq<Step>, a: nat, b: nat, id: Uuid, item: Option<string>)
    requires IsRun(documents, steps) && a <= b <= |steps| && Lifetime(documents, a, b, id, item)
    ensures WithinBudget(RequestsOf(steps, a, b, id))
  {
    LifetimeAccounts(documents, steps, a, b, id, item);
  }

  /**
   * Every request is followed by a stored entry of its intent, so it belongs to exactly the lifetime it is counted in.
   */
  lemma RequestsAreStored(before: Document, step: Step, after: Document, id: Uuid)
    requires ValidStep(before, step, after) && RequestOf(step, id) != []
    ensures exists i ::
      0 <= i < |step.intents| && step.intents[i].id == id && Lives(after, id, step.intents[i].managerItem)
  {
    if i :| 0 <= i < |step.intents| && step.intents[i].id == id {
      OneRequestIn(step, id, |step.intents|, i);
      assert step.outcomes[i].Some?;
      assert Changed(before, step.intents, step.outcomes);
    } else {
      NoRequestIn(step, id, |step.intents|);
    }
  }

  // ----- the document while the loop runs

  predicate IsActive(before: Document, intents: seq<Intent>, id: Uuid)
    requires id in before
  {
    exists i :: 0 <= i < |intents| && intents[i].id == id && Survives(before[id], intents[i])
  }

  /** The entries of intents that are still active, for the same manager item. */
  function Swept(before: Document, intents: seq<Intent>): Document {
    map id | id in before && IsActive(before, intents, id) :: before[id]
  }

  /** The first intents have their new entries, the others what the sweep left them. */
  ghost predicate Processed(
      before: Document, intents: seq<Intent>, now: int, outcomes: seq<Option<Attempt>>, document: Document)
    requires |outcomes| <= |intents|
  {
    && (forall j :: 0 <= j < |outcomes| ==>
          intents[j].id in document && document[intents[j].id] == EntryAfter(before, intents[j], now, outcomes[j]))
    && (forall j :: |outcomes| <= j < |intents| ==> IsAsSwept(before, intents[j], document))
    && (forall id :: id in document ==> exists j :: 0 <= j < |intents| && intents[j].id == id)
  }

  ghost predicate IsAsSwept(before: Document, intent: Intent, document: Document) {
    && (intent.id in document <==> intent.id in before && Survives(before[intent.id], intent))
    && (intent.id in document ==> document[intent.id] == before[intent.id])
  }

  lemma SweptSpec(before: Document, intents: seq<Intent>, now: int)
    requires DistinctIntents(intents)
    ensures Processed(before, intents, now, [], Swept(before, intents))
  {
    hide Survives;
    forall j | 0 <= j < |intents| ensures IsAsSwept(before, intents[j], Swept(before, intents)) {
      var id := intents[j].id;
      if id in before && IsActive(before, intents, id) {
        var i :| 0 <= i < |intents| && intents[i].id == id && Survives(before[id], intents[i]);
        assert i == j;
      }
    }
  }

  lemma NothingChanged(before: Document)
    ensures !Changed(before, [], [])
  {
  }

  lemma EntryAtHand(
      before: Document, intents: seq<Intent>, now: int, outcomes: seq<Option<Attempt>>, document: Document)
    requires |outcomes| < |intents| && Processed(before, intents, now, outcomes, document)
    ensures var intent := intents[|outcomes|];
      var entry := if intent.id in document then document[intent.id] else BLANK;
      && (IsReset(before, intent) <==> entry.managerItem != intent.managerItem)
      && Prepared(before, intent)
         == if entry.managerItem != intent.managerItem then BLANK.(managerItem := intent.managerItem) else entry
  {
    hide Survives, EntryAfter;
    assert IsAsSwept(before, intents[|outcomes|], document);
  }

  lemma StepProcessed(
      before: Document, intents: seq<Intent>, now: int, outcomes: seq<Option<Attempt>>, document: Document,
      outcome: Option<Attempt>)
    requires DistinctIntents(intents) && |outcomes| < |intents| && Processed(before, intents, now, outcomes, document)
    ensures var intent := intents[|outcomes|];
      Processed(before, intents, now, outcomes + [outcome],
        document[intent.id := EntryAfter(before, intent, now, outcome)])
  {
    hide Survives, EntryAfter;
    var intent := intents[|outcomes|];
    var next := document[intent.id := EntryAfter(before, intent, now, outcome)];
    forall j | |outcomes| + 1 <= j < |intents| ensures IsAsSwept(before, intents[j], next) {
      assert intents[j].id != intent.id;
      assert IsAsSwept(before, intents[j], document);
    }
    forall j | 0 <= j < |outcomes| ensures intents[j].id in next &&
      next[intents[j].id] == EntryAfter(before, intents[j], now, outcomes[j]) {
      assert intents[j].id != intent.id;
    }
    forall id | id in next ensures exists j :: 0 <= j < |intents| && intents[j].id == id {
      if id == intent.id {
        assert intents[|outcomes|].id == id;
      }
    }
  }

  lemma VerdictsGrow(
      before: Document, intents: seq<Intent>, now: int, outcomes: seq<Option<Attempt>>, outcome: Option<Attempt>)
    requires |outcomes| < |intents|
    requires Allowed(before, intents[..|outcomes|], now, outcomes)
    requires outcome.Some? ==> MayAttempt(Prepared(before, intents[|outcomes|]), now, outcome.value.download)
    ensures Allowed(before, intents[..|outcomes| + 1], now, outcomes + [outcome])
    ensures Changed(before, intents[..|outcomes| + 1], outcomes + [outcome])
       <==> Changed(before, intents[..|outcomes|], outcomes) || outcome.Some? || IsReset(before, intents[|outcomes|])
  {
    hide Prepared, IsReset, MayAttempt;
    var n := |outcomes|;
    var grown, longer := outcomes + [outcome], intents[..n + 1];
    assert forall j :: 0 <= j < n ==> longer[j] == intents[..n][j] && grown[j] == outcomes[j];
    assert longer[n] == intents[n] && grown[n] == outcome;
    if j :| 0 <= j < n && (outcomes[j].Some? || IsReset(before, intents[..n][j])) {
      assert grown[j].Some? || IsReset(before, longer[j]);
    }
  }

  lemma AllProcessed(
      before: Document, intents: seq<Intent>, now: int, outcomes: seq<Option<Attempt>>, document: Document)
    requires |outcomes| == |intents| && Processed(before, intents, now, outcomes, document)
    ensures InMemory(before, intents, now, outcomes, document)
  {
    hide EntryAfter;
  }
}
