/**
 * Capability overrides as transactions over the authorization tables, and the decoding of what they grant
 * (src/authz.rs).
 */
module Authorization {
  import opened Wrappers
  import Text
  import opened Capabilities

  type ProfileId = string
  type HomeId = string
  type UserId = string

  const I64_MAX := 0x7fff_ffff_ffff_ffff

  datatype AuthorizationError =
    | OverrideExceedsRoleCeiling
    | OwnerOverrideForbidden
    | OverrideActorNotAuthorized
    | RevisionOverflow
    | ProfileUnavailable
    | InvalidActorSnapshot
    | InvalidRevision
    | InvalidCapabilityName
    | CeilingExceeded
    | RevocationRefused

  /** Profiles and memberships, which the override operations only read. */
  datatype Profile = Profile(homeId: HomeId, profileType: ProfileType, activeRole: Option<HomeRole>)

  datatype Directory = Directory(profiles: map<ProfileId, Profile>, activeOwners: set<(HomeId, UserId)>)

  datatype OverrideRow = OverrideRow(allowed: bool, actor: UserId, actorSnapshot: string)

  datatype RevisionRow = RevisionRow(homeId: HomeId, revision: int)

  /** An outbox entry; `allowed` is absent when the override was removed. */
  datatype Event = Event(
    homeId: HomeId, profileId: ProfileId, actor: UserId, capability: Capability, allowed: Option<bool>, revision: int)

  datatype State = State(
    overrides: map<(ProfileId, Capability), OverrideRow>,
    revisions: map<ProfileId, RevisionRow>,
    outbox: seq<Event>)

  // ----- the checks before a change

  function Utf8Length(s: string): nat {
    if s == [] then 0
    else (if s[0] < '\U{80}' then 1 else if s[0] < '\U{800}' then 2 else if s[0] < '\U{10000}' then 3 else 4)
         + Utf8Length(s[1..])
  }

  predicate IsControl(c: char) {
    c < ' ' || c == '\U{7f}'
  }

  predicate ValidActorSnapshot(s: string) {
    && Text.Trim(s) == s
    && s != ""
    && Utf8Length(s) <= 512
    && forall i :: 0 <= i < |s| ==> !IsControl(s[i])
  }

  datatype OverrideTarget = OverrideTarget(homeId: HomeId, role: HomeRole, profileType: ProfileType, revision: int)

  /** The role a profile is judged by: managed profiles count as viewers, accounts by their active membership. */
  function EffectiveRole(p: Profile): Option<HomeRole> {
    if p.profileType == Managed then Some(Viewer) else p.activeRole
  }

  function LoadTarget(dir: Directory, s: State, id: ProfileId): Result<OverrideTarget, AuthorizationError> {
    if id !in dir.profiles || id !in s.revisions || s.revisions[id].homeId != dir.profiles[id].homeId then
      Failure(ProfileUnavailable)
    else
      match EffectiveRole(dir.profiles[id])
      case None => Failure(ProfileUnavailable)
      case Some(role) =>
        var p := dir.profiles[id];
        Success(OverrideTarget(p.homeId, role, p.profileType, s.revisions[id].revision))
  }

  function ValidateOverride(target: OverrideTarget, c: Capability, allowed: bool): Option<AuthorizationError> {
    if target.role == Owner && target.profileType == Account then Some(OwnerOverrideForbidden)
    else if allowed && !Has(OverrideCeiling(target.role, target.profileType), c) then Some(OverrideExceedsRoleCeiling)
    else None
  }

  /** All checks up to the first write, in the order they are made. */
  function CheckSet(
      dir: Directory, s: State, actor: UserId, snapshot: string, id: ProfileId, c: Capability, allowed: bool)
    : Result<OverrideTarget, AuthorizationError>
  {
    if !ValidActorSnapshot(snapshot) then Failure(InvalidActorSnapshot)
    else
      var target :- LoadTarget(dir, s, id);
      if (target.homeId, actor) !in dir.activeOwners then Failure(OverrideActorNotAuthorized)
      else match ValidateOverride(target, c, allowed)
        case Some(e) => Failure(e)
        case None => Success(target)
  }

  function CheckRemove(
      dir: Directory, s: State, actor: UserId, id: ProfileId): Result<OverrideTarget, AuthorizationError> {
    var target :- LoadTarget(dir, s, id);
    if (target.homeId, actor) !in dir.activeOwners then Failure(OverrideActorNotAuthorized) else Success(target)
  }

  // ----- one call as an atomic step

  datatype Step =
    | SetOverride(actor: UserId, snapshot: string, id: ProfileId, capability: Capability, allowed: bool,
      outboxAccepts: bool)
    | RemoveOverride(actor: UserId, id: ProfileId, capability: Capability, outboxAccepts: bool)
    | BumpProfile(id: ProfileId)
    | BumpHome(homeId: HomeId)

  function Bumped(row: RevisionRow): RevisionRow {
    row.(revision := row.revision + 1)
  }

  predicate AtLimit(s: State, id: ProfileId)
    requires id in s.revisions
  {
    s.revisions[id].revision >= I64_MAX
  }

  /** Why a step would leave the state alone with an error, if it would. */
  function StepError(dir: Directory, s: State, step: Step): Option<AuthorizationError> {
    match step
    case SetOverride(actor, snapshot, id, c, allowed, accepts) =>
      (match CheckSet(dir, s, actor, snapshot, id, c, allowed)
       case Failure(e) => Some(e)
       case Success(_) =>
         if !NeedsWrite(s, step) then None
         else if AtLimit(s, id) then Some(RevisionOverflow)
         else if !accepts then Some(RevocationRefused)
         else None)
    case RemoveOverride(actor, id, c, accepts) =>
      (match CheckRemove(dir, s, actor, id)
       case Failure(e) => Some(e)
       case Success(_) =>
         if !NeedsWrite(s, step) then None
         else if AtLimit(s, id) then Some(RevisionOverflow)
         else if !accepts then Some(RevocationRefused)
         else None)
    case BumpProfile(id) =>
      if id !in s.revisions || AtLimit(s, id) then Some(RevisionOverflow) else None
    case BumpHome(h) =>
      if exists id :: id in s.revisions && s.revisions[id].homeId == h && AtLimit(s, id) then
        Some(RevisionOverflow) else None
  }

  /** Whether an override call would change a row. */
  predicate NeedsWrite(s: State, step: Step)
    requires step.SetOverride? || step.RemoveOverride?
  {
    var key := (step.id, step.capability);
    if step.SetOverride? then key !in s.overrides || s.overrides[key].allowed != step.allowed
    else key in s.overrides
  }

  /** The step changes an override. */
  predicate Changes(dir: Directory, s: State, step: Step) {
    (step.SetOverride? || step.RemoveOverride?) && StepError(dir, s, step).None? && NeedsWrite(s, step)
  }

  lemma CheckedTargets(dir: Directory, s: State, step: Step)
    requires step.SetOverride? || step.RemoveOverride?
    requires StepError(dir, s, step).None?
    ensures step.id in dir.profiles && step.id in s.revisions
  {
  }

  function Next(dir: Directory, s: State, step: Step): (s': State) {
    if StepError(dir, s, step).Some? then s
    else match step
      case SetOverride(actor, snapshot, id, c, allowed, _) =>
        if !NeedsWrite(s, step) then s
        else
          CheckedTargets(dir, s, step);
          State(
            s.overrides[(id, c) := OverrideRow(allowed, actor, snapshot)],
            s.revisions[id := Bumped(s.revisions[id])],
            s.outbox + [Event(dir.profiles[id].homeId, id, actor, c, Some(allowed), s.revisions[id].revision + 1)])
      case RemoveOverride(actor, id, c, _) =>
        if !NeedsWrite(s, step) then s
        else
          CheckedTargets(dir, s, step);
          State(
            s.overrides - {(id, c)},
            s.revisions[id := Bumped(s.revisions[id])],
            s.outbox + [Event(dir.profiles[id].homeId, id, actor, c, None, s.revisions[id].revision + 1)])
      case BumpProfile(id) => s.(revisions := s.revisions[id := Bumped(s.revisions[id])])
      case BumpHome(h) => s.(revisions := BumpedHome(s.revisions, h))
  }

  function BumpedHome(revisions: map<ProfileId, RevisionRow>, h: HomeId): map<ProfileId, RevisionRow> {
    map id | id in revisions :: if revisions[id].homeId == h then Bumped(revisions[id]) else revisions[id]
  }

  // ----- the repository, whose calls run inside a transaction on the shared tables

  class AuthorizationRepository {
    var overrides: map<(ProfileId, Capability), OverrideRow>
    var revisions: map<ProfileId, RevisionRow>
    var outbox: seq<Event>

    ghost function Tables(): State
      reads this
    {
      State(overrides, revisions, outbox)
    }

    constructor (s: State)
      ensures Tables() == s
    {
      overrides, revisions, outbox := s.overrides, s.revisions, s.outbox;
    }

    method SetProfileOverride(dir: Directory, actor: UserId, snapshot: string, id: ProfileId, c: Capability,
        allowed: bool,
                              outboxAccepts: bool)
      returns (r: Result<int, AuthorizationError>)
      modifies this
      ensures var step := SetOverride(actor, snapshot, id, c, allowed, outboxAccepts);
              && Tables() == Next(dir, old(Tables()), step)
              && (r.Failure? <==> StepError(dir, old(Tables()), step).Some?)
              && (r.Failure? ==> Some(r.error) == StepError(dir, old(Tables()), step))
              && (r.Success? ==> id in revisions && r.value == revisions[id].revision)
    {
      hide ValidateOverride, ValidActorSnapshot;
      var target;
      var checked := CheckSet(dir, State(overrides, revisions, outbox), actor, snapshot, id, c, allowed);
      if checked.Failure? {
        return Failure(checked.error);
      }
      target := checked.value;
      if (id, c) in overrides && overrides[(id, c)].allowed == allowed {
        return Success(target.revision);
      }
      var pending := overrides[(id, c) := OverrideRow(allowed, actor, snapshot)];
      if revisions[id].revision >= I64_MAX {
        return Failure(RevisionOverflow);
      }
      var bumped := revisions[id := Bumped(revisions[id])];
      if !outboxAccepts {
        return Failure(RevocationRefused);
      }
      var revision := bumped[id].revision;
      overrides, revisions := pending, bumped;
      outbox := outbox + [Event(target.homeId, id, actor, c, Some(allowed), revision)];
      return Success(revision);
    }

    method RemoveProfileOverride(dir: Directory, actor: UserId, id: ProfileId, c: Capability, outboxAccepts: bool)
      returns (r: Result<Option<int>, AuthorizationError>)
      modifies this
      ensures var step := RemoveOverride(actor, id, c, outboxAccepts);
              && Tables() == Next(dir, old(Tables()), step)
              && (r.Failure? <==> StepError(dir, old(Tables()), step).Some?)
              && (r.Failure? ==> Some(r.error) == StepError(dir, old(Tables()), step))
              && (r.Success? ==> (r.value.Some? <==> (id, c) in old(overrides)))
              && (r.Success? && r.value.Some? ==> id in revisions && r.value.value == revisions[id].revision)
    {
      var checked := CheckRemove(dir, State(overrides, revisions, outbox), actor, id);
      if checked.Failure? {
        return Failure(checked.error);
      }
      if (id, c) !in overrides {
        return Success(None);
      }
      if revisions[id].revision >= I64_MAX {
        return Failure(RevisionOverflow);
      }
      var bumped := revisions[id := Bumped(revisions[id])];
      if !outboxAccepts {
        return Failure(RevocationRefused);
      }
      var revision := bumped[id].revision;
      overrides, revisions := overrides - {(id, c)}, bumped;
      outbox := outbox + [Event(checked.value.homeId, id, actor, c, None, revision)];
      return Success(Some(revision));
    }

    /** The update touches rows below the limit; a row left behind makes the caller abandon the transaction. */
    method BumpHomeRevisions(dir: Directory, h: HomeId) returns (r: Result<set<ProfileId>, AuthorizationError>)
      modifies this
      ensures Tables() == Next(dir, old(Tables()), BumpHome(h))
      ensures r.Failure? <==> StepError(dir, old(Tables()), BumpHome(h)).Some?
      ensures r.Success? ==> r.value == set id | id in revisions && revisions[id].homeId == h
    {
      var updated := set id | id in revisions && revisions[id].homeId == h && revisions[id].revision < I64_MAX;
      var expected := set id | id in revisions && revisions[id].homeId == h;
      assert updated <= expected;
      if |updated| != |expected| {
        assert |expected - updated| == |expected| - |updated|;
        ghost var id :| id in expected - updated;
        assert AtLimit(Tables(), id);
        return Failure(RevisionOverflow);
      }
      SameSize(updated, expected);
      forall id | id in revisions && revisions[id].homeId == h ensures !AtLimit(Tables(), id) {
        assert id in expected;
      }
      assert StepError(dir, Tables(), BumpHome(h)).None?;
      revisions := BumpedHome(revisions, h);
      return Success(updated);
    }
  }

  lemma SameSize<T>(a: set<T>, b: set<T>)
    requires a <= b && |a| == |b|
    ensures a == b
  {
    assert |b - a| == |b| - |a|;
  }

  // ----- what every step does

  function RevisionOf(s: State, id: ProfileId): int {
    if id in s.revisions then s.revisions[id].revision else 0
  }

  ghost function OverridesOf(s: State, id: ProfileId): map<Capability, OverrideRow> {
    map c: Capability | (id, c) in s.overrides :: s.overrides[(id, c)]
  }

  /** A changing call makes one override change, one revision step and one event carrying that revision; any other
      override call, refused or idempotent, changes nothing at all. */
  lemma OverrideStepEffect(dir: Directory, s: State, step: Step)
    requires step.SetOverride? || step.RemoveOverride?
    ensures !Changes(dir, s, step) ==> Next(dir, s, step) == s
    ensures Changes(dir, s, step) ==>
              var s' := Next(dir, s, step);
              var key := (step.id, step.capability);
              && step.id in s.revisions && step.id in s'.revisions
              && s'.revisions == s.revisions[step.id := RevisionRow(s.revisions[step.id].homeId,
                RevisionOf(s, step.id) + 1)]
              && RevisionOf(s', step.id) <= I64_MAX
              && (forall k :: k != key ==> (k in s.overrides <==> k in s'.overrides))
              && (forall k :: k != key && k in s.overrides ==> s'.overrides[k] == s.overrides[k])
              && (step.SetOverride? ==> key in s'.overrides && s'.overrides[key].allowed == step.allowed
                                        && (key in s.overrides ==> s.overrides[key].allowed != step.allowed))
              && (step.RemoveOverride? ==> key in s.overrides && key !in s'.overrides)
              && |s'.outbox| == |s.outbox| + 1 && s'.outbox[..|s.outbox|] == s.outbox
              && var e := s'.outbox[|s.outbox|];
                 && e.profileId == step.id && e.capability == step.capability
                 && e.allowed == (if step.SetOverride? then Some(step.allowed) else None)
                 && e.revision == RevisionOf(s', step.id)
  {
    if Changes(dir, s, step) {
      CheckedTargets(dir, s, step);
    }
  }

  /** A step never lowers a revision, and a profile whose revision it leaves alone keeps every override row. */
  lemma StepIsStamped(dir: Directory, s: State, step: Step, id: ProfileId)
    ensures var s' := Next(dir, s, step);
            && RevisionOf(s, id) <= RevisionOf(s', id)
            && (RevisionOf(s, id) == RevisionOf(s', id) ==> OverridesOf(s, id) == OverridesOf(s', id))
  {
    var s' := Next(dir, s, step);
    if step.SetOverride? || step.RemoveOverride? {
      OverrideStepEffect(dir, s, step);
      if Changes(dir, s, step) && step.id != id {
        assert forall c: Capability :: (id, c) in s.overrides <==> (id, c) in s'.overrides;
      }
    }
  }

  // ----- whole runs

  function Run(dir: Directory, s: State, steps: seq<Step>): State {
    if steps == [] then s else Next(dir, Run(dir, s, steps[..|steps| - 1]), steps[|steps| - 1])
  }

  /** The state after the first `n` steps of a run. */
  function Moment(dir: Directory, s: State, steps: seq<Step>, n: nat): State
    requires n <= |steps|
  {
    Run(dir, s, steps[..n])
  }

  lemma MomentStep(dir: Directory, s: State, steps: seq<Step>, n: nat)
    requires n < |steps|
    ensures Moment(dir, s, steps, n + 1) == Next(dir, Moment(dir, s, steps, n), steps[n])
  {
    assert steps[..n + 1][..n] == steps[..n];
  }

  /** The revision is a sound version stamp: it never falls, and two moments of a run that show the same revision
      for a profile show the same overrides and grant the same capabilities. */
  lemma {:induction false} RevisionIsVersionStamp(
      dir: Directory, s: State, steps: seq<Step>, i: nat, j: nat, id: ProfileId)
    requires i <= j <= |steps|
    ensures var a, b := Moment(dir, s, steps, i), Moment(dir, s, steps, j);
            && RevisionOf(a, id) <= RevisionOf(b, id)
            && (RevisionOf(a, id) == RevisionOf(b, id) ==>
                  && OverridesOf(a, id) == OverridesOf(b, id)
                  && forall role, profileType :: Granted(a, id, role, profileType) == Granted(b, id, role, profileType))
  {
    hide Moment, Next, OverridesOf, RevisionOf, Granted;
    if i < j {
      RevisionIsVersionStamp(dir, s, steps, i, j - 1, id);
      MomentStep(dir, s, steps, j - 1);
      StepIsStamped(dir, Moment(dir, s, steps, j - 1), steps[j - 1], id);
    }
    var a, b := Moment(dir, s, steps, i), Moment(dir, s, steps, j);
    if RevisionOf(a, id) == RevisionOf(b, id) {
      forall role, profileType ensures Granted(a, id, role, profileType) == Granted(b, id, role, profileType) {
        GrantedByOverrides(a, b, id, role, profileType);
      }
    }
  }

  /** Per profile the outbox revisions strictly increase, and none is ahead of the table. */
  ghost predicate OutboxOrdered(s: State) {
    && (forall i, j :: 0 <= i < j < |s.outbox| && s.outbox[i].profileId == s.outbox[j].profileId ==>
          s.outbox[i].revision < s.outbox[j].revision)
    && (forall i :: 0 <= i < |s.outbox| ==> s.outbox[i].revision <= RevisionOf(s, s.outbox[i].profileId))
  }

  lemma OutboxOrderedStep(dir: Directory, s: State, step: Step)
    requires OutboxOrdered(s)
    ensures OutboxOrdered(Next(dir, s, step))
  {
    var s' := Next(dir, s, step);
    if step.SetOverride? || step.RemoveOverride? {
      OverrideStepEffect(dir, s, step);
    }
    forall i | 0 <= i < |s.outbox| ensures s.outbox[i].revision <= RevisionOf(s', s.outbox[i].profileId) {
      StepIsStamped(dir, s, step, s.outbox[i].profileId);
    }
  }

  lemma {:induction false} EventRevisionsIncrease(dir: Directory, s: State, steps: seq<Step>)
    requires OutboxOrdered(s)
    ensures OutboxOrdered(Run(dir, s, steps))
  {
    if steps != [] {
      EventRevisionsIncrease(dir, s, steps[..|steps| - 1]);
      OutboxOrderedStep(dir, Run(dir, s, steps[..|steps| - 1]), steps[|steps| - 1]);
    }
  }

  // ----- the outbox as a complete log

  ghost function Flags(s: State): map<(ProfileId, Capability), bool> {
    map k | k in s.overrides :: s.overrides[k].allowed
  }

  ghost function Replay(
      flags: map<(ProfileId, Capability), bool>, events: seq<Event>): map<(ProfileId, Capability), bool> {
    if events == [] then flags
    else
      ApplyEvent(Replay(flags, events[..|events| - 1]), events[|events| - 1])
  }

  ghost function ApplyEvent(flags: map<(ProfileId, Capability), bool>, e: Event): map<(ProfileId, Capability), bool> {
    match e.allowed
    case Some(allowed) => flags[(e.profileId, e.capability) := allowed]
    case None => flags - {(e.profileId, e.capability)}
  }

  lemma ChangeIsItsEvent(dir: Directory, s: State, step: Step)
    requires Changes(dir, s, step)
    ensures var s' := Next(dir, s, step);
            && |s'.outbox| == |s.outbox| + 1 && s'.outbox[..|s.outbox|] == s.outbox
            && Flags(s') == ApplyEvent(Flags(s), s'.outbox[|s.outbox|])
  {
    OverrideStepEffect(dir, s, step);
  }

  lemma OtherStepsKeepTables(dir: Directory, s: State, step: Step)
    requires !Changes(dir, s, step)
    ensures Next(dir, s, step).overrides == s.overrides && Next(dir, s, step).outbox == s.outbox
  {
  }

  /** Replaying the events a run appended onto the overrides it started from yields the overrides it ended with. */
  lemma {:induction false} OutboxReplaysOverrides(dir: Directory, s: State, steps: seq<Step>)
    ensures var s' := Run(dir, s, steps);
            && s.outbox <= s'.outbox
            && Flags(s') == Replay(Flags(s), s'.outbox[|s.outbox|..])
  {
    hide Next, Changes, ApplyEvent;
    if steps != [] {
      var front, step := steps[..|steps| - 1], steps[|steps| - 1];
      OutboxReplaysOverrides(dir, s, front);
      var m := Run(dir, s, front);
      var s' := Next(dir, m, step);
      if Changes(dir, m, step) {
        ChangeIsItsEvent(dir, m, step);
        var added := s'.outbox[|s.outbox|..];
        assert added[..|added| - 1] == m.outbox[|s.outbox|..];
      } else {
        OtherStepsKeepTables(dir, m, step);
      }
    }
  }

  // ----- decoding what a profile may do

  /** One row of the revision table joined with at most one override. */
  datatype Row = Row(revision: int, capability: Option<string>, allowed: int)

  datatype EffectiveAuthorization = EffectiveAuthorization(revision: int, capabilities: CapabilitySet)

  function DecodeRow(word: CapabilitySet, ceiling: CapabilitySet, row: Row): Result<CapabilitySet, AuthorizationError> {
    match row.capability
    case None => Success(word)
    case Some(name) =>
      match Parse(name)
      case None => Failure(InvalidCapabilityName)
      case Some(c) =>
        if row.allowed == 0 then Success(Remove(word, c))
        else if !Has(ceiling, c) then Failure(CeilingExceeded)
        else Success(Insert(word, c))
  }

  function DecodeRows(
      word: CapabilitySet, ceiling: CapabilitySet, rows: seq<Row>): Result<CapabilitySet, AuthorizationError> {
    if rows == [] then Success(word)
    else
      var before :- DecodeRows(word, ceiling, rows[..|rows| - 1]);
      DecodeRow(before, ceiling, rows[|rows| - 1])
  }

  function Decode(
      rows: seq<Row>, role: HomeRole, profileType: ProfileType): Result<EffectiveAuthorization, AuthorizationError> {
    if rows == [] then Failure(ProfileUnavailable)
    else if rows[0].revision <= 0 then Failure(InvalidRevision)
    else if role == Owner && profileType == Account then
      Success(EffectiveAuthorization(rows[0].revision, RoleDefaults(role, profileType)))
    else
      var word :- DecodeRows(RoleDefaults(role, profileType), OverrideCeiling(role, profileType), rows);
      Success(EffectiveAuthorization(rows[0].revision, word))
  }

  lemma DecodeRowsPrefixFails(word: CapabilitySet, ceiling: CapabilitySet, rows: seq<Row>, n: nat)
    requires n <= |rows| && DecodeRows(word, ceiling, rows[..n]).Failure?
    ensures DecodeRows(word, ceiling, rows) == Failure(DecodeRows(word, ceiling, rows[..n]).error)
  {
    if n < |rows| {
      assert rows[..|rows| - 1][..n] == rows[..n];
      DecodeRowsPrefixFails(word, ceiling, rows[..|rows| - 1], n);
    } else {
      assert rows[..n] == rows;
    }
  }

  method DecodeEffectiveAuthorization(rows: seq<Row>, role: HomeRole, profileType: ProfileType)
    returns (r: Result<EffectiveAuthorization, AuthorizationError>)
    ensures r == Decode(rows, role, profileType)
  {
    hide RoleDefaults, OverrideCeiling, DecodeRow;
    if |rows| == 0 {
      return Failure(ProfileUnavailable);
    }
    var revision := rows[0].revision;
    if revision <= 0 {
      return Failure(InvalidRevision);
    }
    var capabilities := RoleDefaults(role, profileType);
    if role != Owner || profileType == Managed {
      var ceiling := OverrideCeiling(role, profileType);
      for i := 0 to |rows|
        invariant DecodeRows(RoleDefaults(role, profileType), ceiling, rows[..i]) == Success(capabilities)
      {
        assert rows[..i + 1][..i] == rows[..i];
        var step := DecodeRow(capabilities, ceiling, rows[i]);
        if step.Failure? {
          DecodeRowsPrefixFails(RoleDefaults(role, profileType), ceiling, rows, i + 1);
          return Failure(step.error);
        }
        capabilities := step.value;
      }
      assert rows[..|rows|] == rows;
    }
    return Success(EffectiveAuthorization(revision, capabilities));
  }

  // ----- decoding the rows of a reachable state

  /** `rows` is what joining the tables returns for the profile, in any order. */
  ghost predicate JoinRows(s: State, id: ProfileId, rows: seq<Row>) {
    && id in s.revisions
    && rows != []
    && (forall i :: 0 <= i < |rows| ==> rows[i].revision == s.revisions[id].revision)
    && (forall i :: 0 <= i < |rows| && rows[i].capability.Some? ==> exists c :: RowFor(s, id, rows[i], c))
    && (forall c: Capability :: (id, c) in s.overrides ==> exists i :: 0 <= i < |rows| && RowFor(s, id, rows[i], c))
    && (forall i, j :: 0 <= i < j < |rows| && rows[i].capability.Some? ==> rows[i].capability != rows[j].capability)
  }

  ghost predicate RowFor(s: State, id: ProfileId, row: Row, c: Capability) {
    && (id, c) in s.overrides
    && row.capability == Some(Name(c))
    && (row.allowed != 0 <==> s.overrides[(id, c)].allowed)
  }

  /** Overrides granted within the ceiling of a profile whose role is fixed. */
  ghost predicate WithinCeiling(dir: Directory, s: State) {
    forall k :: k in s.overrides && s.overrides[k].allowed ==>
      && k.0 in dir.profiles
      && EffectiveRole(dir.profiles[k.0]).Some?
      && k.1 in CeilingSet(EffectiveRole(dir.profiles[k.0]).value, dir.profiles[k.0].profileType)
  }

  lemma GrantIsWithinCeiling(dir: Directory, s: State, step: Step)
    requires step.SetOverride? && step.allowed && Changes(dir, s, step)
    ensures step.id in dir.profiles && EffectiveRole(dir.profiles[step.id]).Some?
    ensures step.capability in CeilingSet(EffectiveRole(dir.profiles[step.id]).value, dir.profiles[step.id].profileType)
  {
    hide OverrideCeiling, CeilingSet, Has;
    CheckedTargets(dir, s, step);
    var p := dir.profiles[step.id];
    RoleWordsRefineSets(EffectiveRole(p).value, p.profileType);
    MemberTest(OverrideCeiling(EffectiveRole(p).value, p.profileType), step.capability);
  }

  lemma WithinCeilingStep(dir: Directory, s: State, step: Step)
    requires WithinCeiling(dir, s)
    ensures WithinCeiling(dir, Next(dir, s, step))
  {
    hide CeilingSet, StepError, Next;
    if Changes(dir, s, step) {
      OverrideStepEffect(dir, s, step);
      if step.SetOverride? && step.allowed {
        GrantIsWithinCeiling(dir, s, step);
      }
    } else {
      OtherStepsKeepTables(dir, s, step);
    }
  }

  lemma {:induction false} ReachableWithinCeiling(dir: Directory, s: State, steps: seq<Step>)
    requires WithinCeiling(dir, s)
    ensures WithinCeiling(dir, Run(dir, s, steps))
  {
    if steps != [] {
      ReachableWithinCeiling(dir, s, steps[..|steps| - 1]);
      WithinCeilingStep(dir, Run(dir, s, steps[..|steps| - 1]), steps[|steps| - 1]);
    }
  }

  /**
   * What the overrides mean: the role's defaults, less what is denied, plus what is allowed; owners keep everything.
   */
  ghost function Granted(s: State, id: ProfileId, role: HomeRole, profileType: ProfileType): set<Capability> {
    if role == Owner && profileType == Account then DefaultSet(role, profileType)
    else DefaultSet(role, profileType) - Denied(s, id) + Allowed(s, id)
  }

  ghost function Allowed(s: State, id: ProfileId): set<Capability> {
    set c: Capability | (id, c) in s.overrides && s.overrides[(id, c)].allowed
  }

  ghost function Denied(s: State, id: ProfileId): set<Capability> {
    set c: Capability | (id, c) in s.overrides && !s.overrides[(id, c)].allowed
  }

  lemma GrantedByOverrides(a: State, b: State, id: ProfileId, role: HomeRole, profileType: ProfileType)
    requires OverridesOf(a, id) == OverridesOf(b, id)
    ensures Granted(a, id, role, profileType) == Granted(b, id, role, profileType)
  {
    forall c: Capability
      ensures (id, c) in a.overrides <==> (id, c) in b.overrides
      ensures (id, c) in a.overrides ==> a.overrides[(id, c)] == b.overrides[(id, c)]
    {
      assert (id, c) in a.overrides <==> c in OverridesOf(a, id);
      assert (id, c) in b.overrides <==> c in OverridesOf(b, id);
    }
    assert Allowed(a, id) == Allowed(b, id) && Denied(a, id) == Denied(b, id);
  }

  ghost predicate Mentions(rows: seq<Row>, c: Capability, allowed: bool) {
    exists i :: 0 <= i < |rows| && rows[i].capability == Some(Name(c)) && (rows[i].allowed != 0) == allowed
  }

  /**
   * Rows about distinct capabilities commute: the outcome depends on which are allowed and denied, not on their order.
   */
  lemma {:induction false} DecodeRowsMeaning(word: CapabilitySet, ceiling: CapabilitySet, rows: seq<Row>)
    requires forall i :: 0 <= i < |rows| && rows[i].capability.Some? ==> exists c :: rows[i].capability == Some(Name(c))
    requires forall i, j :: 0 <= i < j < |rows| && rows[i].capability.Some? ==> rows[i].capability != rows[j].capability
    requires forall c: Capability :: Mentions(rows, c, true) ==> c in Members(ceiling)
    ensures DecodeRows(word, ceiling, rows).Success?
    ensures forall c: Capability :: c in Members(DecodeRows(word, ceiling, rows).value) <==>
              Mentions(rows, c, true) || (c in Members(word) && !Mentions(rows, c, false))
  {
    hide Insert, Remove, Has, Name, Parse;
    if rows == [] {
      return;
    }
    var front, row := rows[..|rows| - 1], rows[|rows| - 1];
    forall c: Capability, allowed: bool
      ensures Mentions(rows, c, allowed) <==>
                Mentions(front, c, allowed) || (row.capability == Some(Name(c)) && (row.allowed != 0) == allowed)
    {
      MentionsSplit(rows, c, allowed);
    }
    DecodeRowsMeaning(word, ceiling, front);
    var before := DecodeRows(word, ceiling, front).value;
    if row.capability.Some? {
      var c :| row.capability == Some(Name(c));
      ParseName(c);
      assert !Mentions(front, c, true) && !Mentions(front, c, false);
      BitOperationsRefineSets(before, c);
      MemberTest(ceiling, c);
      forall d: Capability | Name(d) == Name(c) ensures d == c {
        NamesAreDistinct(c, d);
      }
    }
  }

  lemma MentionsSplit(rows: seq<Row>, c: Capability, allowed: bool)
    requires rows != []
    ensures Mentions(rows, c, allowed) <==>
              || Mentions(rows[..|rows| - 1], c, allowed)
              || (rows[|rows| - 1].capability == Some(Name(c)) && (rows[|rows| - 1].allowed != 0) == allowed)
  {
    hide Name;
    var front := rows[..|rows| - 1];
    if Mentions(front, c, allowed) {
      var i :| 0 <= i < |front| && front[i].capability == Some(Name(c)) && (front[i].allowed != 0) == allowed;
      assert rows[i] == front[i];
    }
    if Mentions(rows, c, allowed) {
      var i :| 0 <= i < |rows| && rows[i].capability == Some(Name(c)) && (rows[i].allowed != 0) == allowed;
      assert i < |front| ==> rows[i] == front[i];
    }
  }

  lemma MemberTest(s: CapabilitySet, c: Capability)
    ensures c in Members(s) <==> Has(s, c)
  {
  }

  lemma MentionsOverrides(s: State, id: ProfileId, rows: seq<Row>, c: Capability)
    requires JoinRows(s, id, rows)
    ensures Mentions(rows, c, true) <==> c in Allowed(s, id)
    ensures Mentions(rows, c, false) <==> c in Denied(s, id)
  {
    hide Name;
    forall i | 0 <= i < |rows| && rows[i].capability == Some(Name(c)) ensures RowFor(s, id, rows[i], c) {
      var d :| RowFor(s, id, rows[i], d);
      NamesAreDistinct(c, d);
    }
    if (id, c) in s.overrides {
      var i :| 0 <= i < |rows| && RowFor(s, id, rows[i], c);
    }
  }

  /** In every state a run reaches from one within the ceilings, loading a profile never trips over a stored
      override: it yields the table's revision and exactly the granted set, whatever the row order, and that set
      lies inside the ceiling; an account owner gets everything. */
  lemma LoadingReachableState(
      dir: Directory, s0: State, steps: seq<Step>, id: ProfileId, role: HomeRole, rows: seq<Row>)
    requires WithinCeiling(dir, s0)
    requires id in dir.profiles &&
      (dir.profiles[id].profileType == Managed || dir.profiles[id].activeRole == Some(role))
    requires JoinRows(Run(dir, s0, steps), id, rows) && RevisionOf(Run(dir, s0, steps), id) > 0
    ensures var s, profileType := Run(dir, s0, steps), dir.profiles[id].profileType;
            var r := Decode(rows, role, profileType);
            && r.Success?
            && r.value.revision == RevisionOf(s, id)
            && Members(r.value.capabilities) == Granted(s, id, role, profileType)
            && Members(r.value.capabilities) <= CeilingSet(role, profileType)
            && (role == Owner && profileType == Account ==> forall c :: c in Members(r.value.capabilities))
  {
    hide Insert, Remove, Has, Name, Parse, DefaultList, RoleDefaults, OverrideCeiling, CeilingSet, DefaultSet, Run;
    var s, profileType := Run(dir, s0, steps), dir.profiles[id].profileType;
    ReachableWithinCeiling(dir, s0, steps);
    RoleWordsRefineSets(role, profileType);
    OwnerDefaultsAreAll();
    CeilingIgnoresManagedRole(role);
    forall c: Capability
      ensures Mentions(rows, c, true) <==> c in Allowed(s, id)
      ensures Mentions(rows, c, false) <==> c in Denied(s, id)
      ensures c in Allowed(s, id) ==> c in CeilingSet(role, profileType)
    {
      MentionsOverrides(s, id, rows, c);
      if c in Allowed(s, id) {
        assert (id, c) in s.overrides;
      }
    }
    forall i | 0 <= i < |rows| && rows[i].capability.Some? ensures exists c :: rows[i].capability == Some(Name(c)) {
      var c :| RowFor(s, id, rows[i], c);
    }
    DecodeRowsMeaning(RoleDefaults(role, profileType), OverrideCeiling(role, profileType), rows);
  }

  lemma CeilingIgnoresManagedRole(role: HomeRole)
    ensures CeilingSet(role, Managed) == CeilingSet(Viewer, Managed)
  {
  }
}
