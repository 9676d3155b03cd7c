/**
 * What the recovery worker looks at and does (src/acquisition/mod.rs): the manager's queue and history, the targets it
 * finds behind an intent, and its actions, each with what makes it right.
 *
 * Every answer from outside (managers, downloaders, the clock) is arbitrary: `World` holds one per call, by a running
 * call number. A `Snapshot` is what a session has fetched so far; it only ever grows.
 */
module RecoveryTargets {
  import opened Wrappers
  import opened Text
  import opened Uuids
  import opened RecoveryGates
  import opened RetryBudget
  import Decimals

  datatype Fault = Fault(reason: string)

  // ----- the manager's pages

  datatype Implementation = Sonarr | Radarr

  datatype Manager = Manager(isUnhealthy: bool, implementation: Option<string>)

  function ImplementationOf(manager: Manager): Option<Implementation> {
    var name := Lower(Trim(manager.implementation.GetOr("")));
    if name == "sonarr" then Some(Sonarr) else if name == "radarr" then Some(Radarr) else None
  }

  /** Item ids as text, one for each kind of manager. */
  datatype QueueEntry = QueueEntry(
    seriesId: Option<string>, movieId: Option<string>, downloadClient: Option<string>, downloadId: Option<string>)

  datatype HistoryEntry = HistoryEntry(
    id: Option<int>, seriesId: Option<string>, movieId: Option<string>, eventType: Option<string>,
    downloadId: Option<string>)

  predicate QueueEntryMatches(entry: QueueEntry, implementation: Implementation, item: string) {
    (if implementation == Sonarr then entry.seriesId else entry.movieId) == Some(item)
  }

  predicate UsesClient(entry: QueueEntry, client: string) {
    var name := TrimToOption(entry.downloadClient);
    name.Some? && Contains(Lower(name.value), client)
  }

  /** The download id of the first queued entry of the item with that client, of those that have one. */
  function FindQueued(
      entries: seq<QueueEntry>, implementation: Implementation, item: string, client: string): Option<string> {
    if entries == [] then None
    else
      var download := TrimToOption(entries[0].downloadId);
      if QueueEntryMatches(entries[0], implementation, item) && UsesClient(entries[0], client) && download.Some?
      then Some(NormalizeDownloadId(download.value))
      else FindQueued(entries[1..], implementation, item, client)
  }

  lemma {:induction false} FoundIsNormal(
      entries: seq<QueueEntry>, implementation: Implementation, item: string, client: string)
    ensures var r := FindQueued(entries, implementation, item, client);
      r.Some? ==> NormalizeDownloadId(r.value) == r.value
  {
    hide NormalizeDownloadId, TrimToOption, UsesClient;
    if entries != [] {
      FoundIsNormal(entries[1..], implementation, item, client);
      if TrimToOption(entries[0].downloadId).Some? {
        NormalizeIdempotent(TrimToOption(entries[0].downloadId).value);
      }
    }
  }

  function FirstQueued(entries: seq<QueueEntry>, implementation: Implementation, item: string): Option<QueueEntry> {
    if entries == [] then None
    else if QueueEntryMatches(entries[0], implementation, item) then Some(entries[0])
    else FirstQueued(entries[1..], implementation, item)
  }

  predicate HistoryMatches(entry: HistoryEntry, implementation: Implementation, item: string, events: seq<string>) {
    && (if implementation == Sonarr then entry.seriesId else entry.movieId) == Some(item)
    && Lower(Trim(entry.eventType.GetOr(""))) in events
  }

  predicate IsRecordOf(entry: HistoryEntry, implementation: Implementation, item: string, download: string) {
    && HistoryMatches(entry, implementation, item, ["grabbed", "downloadfailed"])
    && entry.downloadId.Some? && NormalizeDownloadId(entry.downloadId.value) == NormalizeDownloadId(download)
  }

  function HistoryForDownload(
      entries: seq<HistoryEntry>, implementation: Implementation, item: string, download: string)
    : Option<int>
  {
    if entries == [] then None
    else if IsRecordOf(entries[0], implementation, item, download) && entries[0].id.Some? then entries[0].id
    else HistoryForDownload(entries[1..], implementation, item, download)
  }

  /** The id that is failed in the manager is that of a record of this very download and item. */
  lemma {:induction false} HistoryIdIsOfDownload(
      entries: seq<HistoryEntry>, implementation: Implementation, item: string, download: string)
    ensures var id := HistoryForDownload(entries, implementation, item, download);
      id.Some? ==> exists e :: e in entries && e.id == id && IsRecordOf(e, implementation, item, download)
  {
    hide IsRecordOf;
    if entries != [] {
      HistoryIdIsOfDownload(entries[1..], implementation, item, download);
      assert entries[0] in entries;
    }
  }

  function FailedHistoryForItem(entries: seq<HistoryEntry>, implementation: Implementation, item: string): Option<int> {
    if entries == [] then None
    else if HistoryMatches(entries[0], implementation, item, ["downloadfailed"]) && entries[0].id.Some? then
      entries[0].id
    else FailedHistoryForItem(entries[1..], implementation, item)
  }

  function ParseI64(text: string): Option<int> {
    var negative := text != "" && text[0] == '-';
    var digits := if text != "" && (text[0] == '-' || text[0] == '+') then text[1..] else text;
    if digits == "" || !Decimals.AllDigits(digits) then None
    else
      var n: int := Decimals.Value(digits) * if negative then -1 else 1;
      if -0x8000_0000_0000_0000 <= n <= 0x7fff_ffff_ffff_ffff then Some(n) else None
  }

  // ----- the world

  /** The answer to the outside call with a given number, had it been of this kind. */
  datatype World = World(
    transport: nat -> Result<(), Fault>,
    queue: nat -> Result<seq<QueueEntry>, Fault>,
    history: nat -> Result<seq<HistoryEntry>, Fault>,
    groups: nat -> Result<seq<RpcGroup>, Fault>,
    log: nat -> Result<seq<Option<string>>, Fault>,
    torrents: nat -> Result<seq<TorrentInfo>, Fault>,
    isTime: int -> bool,
    clock: nat -> int,
    markFailed: nat -> Result<(), Fault>,
    removeNzbget: nat -> Result<bool, Fault>,
    removeQbittorrent: nat -> Result<(), Fault>,
    search: nat -> Result<(), Fault>)

  datatype Setup = Setup(managers: map<Uuid, Manager>, nzbget: bool, qbittorrent: bool)

  datatype Downloader = Nzbget | Qbittorrent {
    /** What the client's name in the manager's queue contains. */
    function Client(): string {
      match this
      case Nzbget => "nzbget"
      case Qbittorrent => "qbittorrent"
    }
  }

  datatype Target = Target(historyId: int, download: string, downloader: Downloader)

  /** Some outside call of the range failed. */
  ghost predicate Faulted(world: World, from: nat, to: nat) {
    exists k :: from <= k < to && FailsAt(world, k)
  }

  predicate FailsAt(world: World, k: nat) {
    || world.transport(k).Failure? || world.queue(k).Failure? || world.history(k).Failure? || world.groups(k).Failure?
    || world.log(k).Failure? || world.torrents(k).Failure?
  }

  // ----- what a session knows

  datatype Snapshot = Snapshot(
    queues: map<Uuid, seq<QueueEntry>>, histories: map<Uuid, seq<HistoryEntry>>, groups: Option<map<string, Group>>,
    torrents: Option<TorrentIndex>, calls: nat)

  /** Later knowledge: pages and indexes once fetched stay as they are. */
  ghost predicate Extends(a: Snapshot, b: Snapshot) {
    && a.calls <= b.calls
    && (forall p :: p in a.queues ==> p in b.queues && b.queues[p] == a.queues[p])
    && (forall p :: p in a.histories ==> p in b.histories && b.histories[p] == a.histories[p])
    && (a.groups.Some? ==> b.groups == a.groups)
    && (a.torrents.Some? ==> b.torrents == a.torrents)
  }

  // ----- targets

  /** The log lines an early-dead verdict on the group rests on, if that call read them. */
  function LogFor(world: World, group: Group, call: nat): Result<seq<Option<string>>, Fault> {
    if group.nzbId > 0 && group.messageCount > 0 then world.log(call) else Success([])
  }

  predicate LogConfirms(world: World, group: Group, call: nat) {
    LogFor(world, group, call).Success? && Confirmations(LogFor(world, group, call).value) >= 3
  }

  /** Behind a hard failure, or early dead with at least three confirmations in the log as it was read. */
  ghost predicate IsGroupDead(world: World, group: Group, from: nat, to: nat) {
    IsHardFailure(group) || (LooksEarlyDead(group) && exists k :: from <= k < to && LogConfirms(world, group, k))
  }

  ghost predicate IsGroupAlive(world: World, group: Group, from: nat, to: nat) {
    && !IsHardFailure(group)
    && (LooksEarlyDead(group) ==> NothingLogged(group) || exists k :: from <= k < to && LogDoubts(world, group, k))
  }

  predicate NothingLogged(group: Group) {
    group.nzbId <= 0 || group.messageCount == 0
  }

  predicate LogDoubts(world: World, group: Group, call: nat) {
    LogFor(world, group, call).Success? && Confirmations(LogFor(world, group, call).value) < 3
  }

  /** A recovery candidate by the clock as it was read. */
  ghost predicate IsTorrentDead(world: World, torrent: Torrent, from: nat, to: nat) {
    exists k :: from <= k < to && IsAutoRecoveryCandidate(torrent, world.clock(k))
  }

  ghost predicate IsTorrentAlive(world: World, torrent: Torrent, from: nat, to: nat) {
    exists k :: from <= k < to && !IsAutoRecoveryCandidate(torrent, world.clock(k))
  }

  /** What the manager's queue, as fetched, shows for the intent's item under the client's name. */
  predicate QueueShows(
    seen: Snapshot, implementation: Implementation, intent: Intent, downloader: Downloader, download: Option<string>)
  {
    var item, provider := TrimToOption(intent.managerItem), intent.managerProvider;
    if item.None? then download.None?
    else
      && provider in seen.queues
      && FindQueued(seen.queues[provider], implementation, item.value, downloader.Client()) == download
  }

  /** The history id, if any, under which the manager's history, as fetched, has the download of the intent's item. */
  predicate HistoryShows(
    seen: Snapshot, implementation: Implementation, intent: Intent, download: string, historyId: Option<int>)
  {
    var item, provider := TrimToOption(intent.managerItem), intent.managerProvider;
    item.Some? && provider in seen.histories
    && HistoryForDownload(seen.histories[provider], implementation, item.value, download) == historyId
  }

  /** The target is the queued download of the intent's item and is on record in the manager's history. */
  predicate IsFound(seen: Snapshot, implementation: Implementation, intent: Intent, target: Target) {
    && QueueShows(seen, implementation, intent, target.downloader, Some(target.download))
    && HistoryShows(seen, implementation, intent, target.download, Some(target.historyId))
  }

  /** The downloader's own gate has passed on the download, by readings of the given calls. */
  ghost predicate IsDead(
      world: World, seen: Snapshot, setup: Setup, downloader: Downloader, download: string, from: nat) {
    match downloader
    case Nzbget =>
      setup.nzbget && seen.groups.Some? && download in seen.groups.value
      && IsGroupDead(world, seen.groups.value[download], from, seen.calls)
    case Qbittorrent =>
      setup.qbittorrent && seen.torrents.Some? && download in seen.torrents.value
      && IsTorrentDead(world, seen.torrents.value[download], from, seen.calls)
  }

  /** The snapshot shows nothing on disk for the hash; a targeted torrent must be in the snapshot. */
  predicate RemovalIsSafe(index: TorrentIndex, hash: string, targeted: bool) {
    && (targeted ==> hash in index)
    && (hash in index ==> !HasLocalPayload(index[hash]))
  }

  /** A target may be removed: a torrent only if the snapshot knows it and shows nothing on disk. */
  predicate TargetIsSafe(torrents: Option<TorrentIndex>, target: Target) {
    && NormalizeDownloadId(target.download) == target.download
    && (target.downloader == Qbittorrent ==> torrents.Some? && RemovalIsSafe(torrents.value, target.download, true))
  }

  /** A target the search may return. */
  ghost predicate IsTarget(
    world: World, seen: Snapshot, setup: Setup, implementation: Implementation, intent: Intent, requireDead: bool,
    target: Target, from: nat)
  {
    && IsFound(seen, implementation, intent, target) && TargetIsSafe(seen.torrents, target)
    && (requireDead ==> IsDead(world, seen, setup, target.downloader, target.download, from))
  }

  /** The downloader gives a reason to leave the download alone. */
  ghost predicate IsSpared(
    world: World, seen: Snapshot, setup: Setup, downloader: Downloader, download: string, requireDead: bool, from: nat)
  {
    match downloader
    case Nzbget =>
      requireDead
      && (!setup.nzbget
          || (seen.groups.Some?
              && (download in seen.groups.value ==>
                IsGroupAlive(world, seen.groups.value[download], from, seen.calls))))
    case Qbittorrent =>
      || !setup.qbittorrent
      || (seen.torrents.Some?
          && (download in seen.torrents.value ==>
                var torrent := seen.torrents.value[download];
                HasLocalPayload(torrent) || (requireDead && IsTorrentAlive(world, torrent, from, seen.calls))))
  }

  /** There is no target behind this downloader: nothing queued, or what is queued is spared or not on record. */
  ghost predicate IsAbsent(
    world: World, seen: Snapshot, setup: Setup, implementation: Implementation, intent: Intent, requireDead: bool,
    downloader: Downloader, from: nat)
  {
    || QueueShows(seen, implementation, intent, downloader, None)
    || exists download ::
         && QueueShows(seen, implementation, intent, downloader, Some(download))
         && (IsSpared(world, seen, setup, downloader, download, requireDead, from)
             || HistoryShows(seen, implementation, intent, download, None))
  }

  /** What a search for a target may answer. */
  ghost predicate SearchAnswers(
    world: World, seen: Snapshot, setup: Setup, implementation: Implementation, intent: Intent, requireDead: bool,
    downloader: Downloader, from: nat, r: Result<Option<Target>, Fault>)
  {
    match r
    case Failure(_) => Faulted(world, from, seen.calls)
    case Success(None) => IsAbsent(world, seen, setup, implementation, intent, requireDead, downloader, from)
    case Success(Some(target)) =>
      target.downloader == downloader && IsTarget(world, seen, setup, implementation, intent, requireDead, target, from)
  }

  /** The manager of the intent, if it is there, healthy and of a supported kind. */
  function UsableManager(setup: Setup, intent: Intent): Option<Implementation> {
    if intent.managerProvider !in setup.managers || setup.managers[intent.managerProvider].isUnhealthy then None
    else ImplementationOf(setup.managers[intent.managerProvider])
  }

  /** An automatic request is due: for the intent's own queued download, on record under the failed id, and dead. */
  ghost predicate IsDue(
      world: World, seen: Snapshot, setup: Setup, intent: Intent, historyId: int, download: string, from: nat) {
    && UsableManager(setup, intent).Some?
    && var implementation := UsableManager(setup, intent).value;
    || IsTarget(world, seen, setup, implementation, intent, true, Target(historyId, download, Nzbget), from)
    || IsTarget(world, seen, setup, implementation, intent, true, Target(historyId, download, Qbittorrent), from)
  }

  /** No automatic request is made, and why. */
  ghost predicate IsPassedOver(
      world: World, seen: Snapshot, setup: Setup, entry: Entry, intent: Intent, now: int, from: nat) {
    || !IsEligible(entry, now)
    || UsableManager(setup, intent).None?
    || Faulted(world, from, seen.calls)
    || (IsAbsent(world, seen, setup, UsableManager(setup, intent).value, intent, true, Nzbget, from)
        && IsAbsent(world, seen, setup, UsableManager(setup, intent).value, intent, true, Qbittorrent, from))
    || (entry.lastDownload.Some?
        && exists historyId :: IsDue(world, seen, setup, intent, historyId, entry.lastDownload.value, from))
  }

  /** What a session says about an intent after the loop has been there. */
  ghost predicate IsAccounted(
    world: World, seen: Snapshot, setup: Setup, entry: Entry, intent: Intent, now: int, outcome: Option<Attempt>,
    from: nat)
  {
    match outcome
    case None => IsPassedOver(world, seen, setup, entry, intent, now, from)
    case Some(attempt) => IsDue(world, seen, setup, intent, attempt.historyId, attempt.download, from)
  }

  // ----- what was said stays said as the session learns more

  lemma ExtendsTransitive(a: Snapshot, b: Snapshot, c: Snapshot)
    requires Extends(a, b) && Extends(b, c)
    ensures Extends(a, c) && Extends(c, c) && a.calls <= b.calls <= c.calls
  {
  }

  lemma FaultedStays(world: World, from: nat, to: nat, from': nat, to': nat)
    requires from' <= from && to <= to' && Faulted(world, from, to)
    ensures Faulted(world, from', to')
  {
    hide FailsAt;
    var k :| from <= k < to && FailsAt(world, k);
    assert from' <= k < to' && FailsAt(world, k);
  }

  /** A verdict on a job holds for any wider range of calls. */
  lemma GroupVerdictStays(world: World, group: Group, start: nat, middle: nat, end: nat)
    requires start <= middle <= end
    ensures IsGroupDead(world, group, middle, end) ==> IsGroupDead(world, group, start, end)
    ensures IsGroupAlive(world, group, middle, end) ==> IsGroupAlive(world, group, start, end)
    ensures Faulted(world, middle, end) ==> Faulted(world, start, end)
  {
    hide IsHardFailure, LooksEarlyDead, LogConfirms, LogDoubts, FailsAt;
  }

  lemma DeadStays(
    world: World, a: Snapshot, b: Snapshot, setup: Setup, downloader: Downloader, download: string, from: nat,
    from': nat)
    requires Extends(a, b) && from' <= from && IsDead(world, a, setup, downloader, download, from)
    ensures IsDead(world, b, setup, downloader, download, from')
  {
    hide IsAutoRecoveryCandidate, IsHardFailure, LooksEarlyDead, LogConfirms;
  }

  lemma PagesStay(
    a: Snapshot, b: Snapshot, implementation: Implementation, intent: Intent, downloader: Downloader,
    download: Option<string>,
    historyId: Option<int>)
    requires Extends(a, b)
    ensures QueueShows(a, implementation, intent, downloader, download) ==>
      QueueShows(b, implementation, intent, downloader, download)
    ensures download.Some? && HistoryShows(a, implementation, intent, download.value, historyId)
      ==> HistoryShows(b, implementation, intent, download.value, historyId)
  {
    hide TrimToOption, FindQueued, HistoryForDownload;
  }

  lemma TargetStays(
    world: World, a: Snapshot, b: Snapshot, setup: Setup, implementation: Implementation, intent: Intent,
    requireDead: bool,
    target: Target, from: nat, from': nat)
    requires Extends(a, b) && from' <= from
    requires IsTarget(world, a, setup, implementation, intent, requireDead, target, from)
    ensures IsTarget(world, b, setup, implementation, intent, requireDead, target, from')
  {
    hide IsDead, RemovalIsSafe, QueueShows, HistoryShows;
    PagesStay(a, b, implementation, intent, target.downloader, Some(target.download), Some(target.historyId));
    if requireDead {
      DeadStays(world, a, b, setup, target.downloader, target.download, from, from');
    }
  }

  /** A dead target is a target. */
  lemma DeadTargetIsTarget(
    world: World, a: Snapshot, b: Snapshot, setup: Setup, implementation: Implementation, intent: Intent,
    requireDead: bool,
    target: Target, from: nat, from': nat)
    requires Extends(a, b) && from' <= from
    requires IsTarget(world, a, setup, implementation, intent, requireDead, target, from)
    ensures IsTarget(world, b, setup, implementation, intent, false, target, from')
  {
    hide IsFound, IsDead, TargetIsSafe;
    TargetStays(world, a, b, setup, implementation, intent, requireDead, target, from, from');
  }

  lemma SparedStays(
    world: World, a: Snapshot, b: Snapshot, setup: Setup, downloader: Downloader, download: string, requireDead: bool,
    from: nat, from': nat)
    requires Extends(a, b) && from' <= from && IsSpared(world, a, setup, downloader, download, requireDead, from)
    ensures IsSpared(world, b, setup, downloader, download, requireDead, from')
  {
    hide IsAutoRecoveryCandidate, HasLocalPayload, IsHardFailure, LooksEarlyDead, NothingLogged, LogDoubts;
  }

  lemma AbsentStays(
    world: World, a: Snapshot, b: Snapshot, setup: Setup, implementation: Implementation, intent: Intent,
    requireDead: bool,
    downloader: Downloader, from: nat, from': nat)
    requires Extends(a, b) && from' <= from
    requires IsAbsent(world, a, setup, implementation, intent, requireDead, downloader, from)
    ensures IsAbsent(world, b, setup, implementation, intent, requireDead, downloader, from')
  {
    hide IsSpared, QueueShows, HistoryShows, Extends;
    PagesStay(a, b, implementation, intent, downloader, None, None);
    if !QueueShows(a, implementation, intent, downloader, None) {
      var download :| QueueShows(a, implementation, intent, downloader, Some(download))
        && (IsSpared(world, a, setup, downloader, download, requireDead, from)
            || HistoryShows(a, implementation, intent, download, None));
      PagesStay(a, b, implementation, intent, downloader, Some(download), None);
      if IsSpared(world, a, setup, downloader, download, requireDead, from) {
        SparedStays(world, a, b, setup, downloader, download, requireDead, from, from');
      }
    }
  }

  lemma DueStays(
    world: World, a: Snapshot, b: Snapshot, setup: Setup, intent: Intent, historyId: int, download: string, from: nat,
    from': nat)
    requires Extends(a, b) && from' <= from && IsDue(world, a, setup, intent, historyId, download, from)
    ensures IsDue(world, b, setup, intent, historyId, download, from')
  {
    hide IsTarget, ImplementationOf, Extends;
    var implementation := UsableManager(setup, intent).value;
    forall downloader: Downloader
      | IsTarget(world, a, setup, implementation, intent, true, Target(historyId, download, downloader), from)
      ensures IsTarget(world, b, setup, implementation, intent, true, Target(historyId, download, downloader), from')
    {
      TargetStays(world, a, b, setup, implementation, intent, true, Target(historyId, download, downloader), from,
        from');
    }
  }

  lemma AccountedStays(
    world: World, a: Snapshot, b: Snapshot, setup: Setup, entry: Entry, intent: Intent, now: int,
    outcome: Option<Attempt>,
    from: nat, from': nat)
    requires Extends(a, b) && from' <= from && IsAccounted(world, a, setup, entry, intent, now, outcome, from)
    ensures IsAccounted(world, b, setup, entry, intent, now, outcome, from')
  {
    hide Faulted, IsAbsent, IsDue, UsableManager, IsEligible;
    if outcome.Some? {
      DueStays(world, a, b, setup, intent, outcome.value.historyId, outcome.value.download, from, from');
    } else if !IsEligible(entry, now) || UsableManager(setup, intent).None? {
    } else if Faulted(world, from, a.calls) {
      FaultedStays(world, from, a.calls, from', b.calls);
    } else {
      var implementation := UsableManager(setup, intent).value;
      if entry.lastDownload.Some?
         && exists historyId :: IsDue(world, a, setup, intent, historyId, entry.lastDownload.value, from) {
        var historyId :| IsDue(world, a, setup, intent, historyId, entry.lastDownload.value, from);
        DueStays(world, a, b, setup, intent, historyId, entry.lastDownload.value, from, from');
      } else {
        AbsentStays(world, a, b, setup, implementation, intent, true, Nzbget, from, from');
        AbsentStays(world, a, b, setup, implementation, intent, true, Qbittorrent, from, from');
      }
    }
  }

  // ----- what the worker does

  /** A fail-and-retry request as the manager gets it; the download is known unless only the history was looked at. */
  datatype Mark = Mark(intent: Uuid, historyId: int, download: Option<string>, accepted: bool)

  /** An action on the outside world. A removal is targeted or part of a last-resort search. */
  datatype Action =
    | MarkFailed(mark: Mark)
    | RemoveNzbget(download: string, targeted: bool)
    | RemoveQbittorrent(hash: string, targeted: bool)
    | Search(item: int)

  /** The fail-and-retry requests among the actions, in order. */
  ghost function MarksOf(actions: seq<Action>): seq<Mark> {
    if actions == [] then []
    else
      var front, last := MarksOf(actions[..|actions| - 1]), actions[|actions| - 1];
      if last.MarkFailed? then front + [last.mark] else front
  }

  lemma MarksAppend(actions: seq<Action>, action: Action)
    ensures MarksOf(actions + [action]) == MarksOf(actions) + if action.MarkFailed? then [action.mark] else []
  {
    assert (actions + [action])[..|actions|] == actions;
  }

  predicate IsTargetedRemoval(action: Action) {
    (action.RemoveNzbget? || action.RemoveQbittorrent?) && action.targeted
  }

  /** A found download is removed only right after the manager accepted it, and no other, as failed. */
  predicate FollowsFailure(actions: seq<Action>, k: nat)
    requires k < |actions|
  {
    IsTargetedRemoval(actions[k]) ==>
      k > 0 && actions[k - 1].MarkFailed? && actions[k - 1].mark.accepted &&
        actions[k - 1].mark.download == Some(Removed(actions[k]))
  }

  function Removed(action: Action): string
    requires action.RemoveNzbget? || action.RemoveQbittorrent?
  {
    if action.RemoveNzbget? then action.download else action.hash
  }

  predicate ActionIsSafe(torrents: Option<TorrentIndex>, action: Action) {
    action.RemoveQbittorrent? ==> torrents.Some? && RemovalIsSafe(torrents.value, action.hash, action.targeted)
  }

  /**
   * Every torrent removed is, in the snapshot, without local data, and every found download failed before its removal.
   */
  ghost predicate AreSafe(torrents: Option<TorrentIndex>, actions: seq<Action>) {
    forall k :: 0 <= k < |actions| ==> ActionIsSafe(torrents, actions[k]) && FollowsFailure(actions, k)
  }

  lemma SafeAppend(torrents: Option<TorrentIndex>, actions: seq<Action>, action: Action)
    requires AreSafe(torrents, actions) && ActionIsSafe(torrents, action) &&
      FollowsFailure(actions + [action], |actions|)
    ensures AreSafe(torrents, actions + [action])
  {
    hide ActionIsSafe, IsTargetedRemoval;
    var longer := actions + [action];
    forall k | 0 <= k < |longer| ensures ActionIsSafe(torrents, longer[k]) && FollowsFailure(longer, k) {
      if k < |actions| {
        assert ActionIsSafe(torrents, actions[k]) && FollowsFailure(actions, k);
        assert longer[k] == actions[k] && (k > 0 ==> longer[k - 1] == actions[k - 1]);
      }
    }
  }

  lemma SafeStays(a: Snapshot, b: Snapshot, actions: seq<Action>)
    requires Extends(a, b) && AreSafe(a.torrents, actions)
    ensures AreSafe(b.torrents, actions)
  {
    hide RemovalIsSafe, FollowsFailure;
    assert forall k :: 0 <= k < |actions| ==> ActionIsSafe(a.torrents, actions[k]);
  }

  /** What cleaning up after a failed target asks of its own downloader; a blank hash asks nothing. */
  function CleanUpActions(setup: Setup, target: Target): seq<Action> {
    match target.downloader
    case Nzbget => if setup.nzbget then [RemoveNzbget(target.download, true)] else []
    case Qbittorrent =>
      if setup.qbittorrent && target.download != "" then [RemoveQbittorrent(target.download, true)] else []
  }

  // ----- marks and requests

  function MarkOf(intent: Intent, attempt: Attempt): Mark {
    Mark(intent.id, attempt.historyId, Some(attempt.download), attempt.error.None?)
  }

  /** The fail-and-retry requests the outcomes record, in the order of the intents. */
  ghost function OutcomeMarks(intents: seq<Intent>, outcomes: seq<Option<Attempt>>): seq<Mark>
    requires |outcomes| <= |intents|
  {
    if outcomes == [] then []
    else
      var n := |outcomes| - 1;
      OutcomeMarks(intents, outcomes[..n]) + if outcomes[n].Some? then [MarkOf(intents[n], outcomes[n].value)] else []
  }

  lemma OutcomeMarksAppend(intents: seq<Intent>, outcomes: seq<Option<Attempt>>, outcome: Option<Attempt>)
    requires |outcomes| < |intents|
    ensures OutcomeMarks(intents, outcomes + [outcome])
         == OutcomeMarks(intents, outcomes) + if outcome.Some? then [MarkOf(intents[|outcomes|], outcome.value)] else []
  {
    assert (outcomes + [outcome])[..|outcomes|] == outcomes;
  }

  ghost function StepMarks(step: Step): seq<Mark> {
    if step.Iteration? && |step.outcomes| == |step.intents| then OutcomeMarks(step.intents, step.outcomes) else []
  }

  /** The requests among the marks that are made for the intent. */
  ghost function RequestsBy(marks: seq<Mark>, id: Uuid, now: int): seq<Request> {
    if marks == [] then []
    else
      var front, last := RequestsBy(marks[..|marks| - 1], id, now), marks[|marks| - 1];
      if last.intent == id && last.download.Some? then front + [Request(last.download.value, now)] else front
  }

  lemma {:induction false} OutcomeMarksAreRequests(step: Step, id: Uuid, n: nat)
    requires step.Iteration? && |step.outcomes| == |step.intents| && n <= |step.intents|
    ensures RequestsBy(OutcomeMarks(step.intents, step.outcomes[..n]), id, step.now) == RequestIn(step, id, n)
  {
    if n > 0 {
      OutcomeMarksAreRequests(step, id, n - 1);
      assert step.outcomes[..n][..n - 1] == step.outcomes[..n - 1];
      var marks, outcome := OutcomeMarks(step.intents, step.outcomes[..n - 1]), step.outcomes[..n][n - 1];
      if outcome.Some? {
        var mark := MarkOf(step.intents[n - 1], outcome.value);
        assert OutcomeMarks(step.intents, step.outcomes[..n]) == marks + [mark];
        assert (marks + [mark])[..|marks|] == marks;
      } else {
        assert OutcomeMarks(step.intents, step.outcomes[..n]) == marks + [] == marks;
      }
    } else {
      assert step.outcomes[..0] == [];
    }
  }

  /** The marks a step stands for are, intent by intent, the requests it is charged with. */
  lemma StepMarksAreRequests(step: Step, id: Uuid, now: int)
    requires step.Iteration? ==> step.now == now
    ensures RequestsBy(StepMarks(step), id, now) == RequestOf(step, id)
  {
    if step.Iteration? && |step.outcomes| == |step.intents| {
      OutcomeMarksAreRequests(step, id, |step.intents|);
      assert step.outcomes[..|step.outcomes|] == step.outcomes;
    }
  }

  // ----- the last resort

  /** Where a fresh search first goes: the downloader the item's first queued entry names, if it is set up. */
  datatype LastResort = JustSearch | ViaNzbget(download: string) | ViaQbittorrent(download: string)

  function LastResortOf(
      setup: Setup, page: Result<seq<QueueEntry>, Fault>, implementation: Implementation, item: string): LastResort {
    var entry := FirstQueued(if page.Success? then page.value else [], implementation, item);
    if entry.None? then JustSearch
    else
      var download := TrimToOption(entry.value.downloadId);
      if download.None? then JustSearch
      else if UsesClient(entry.value, "nzbget") && setup.nzbget then ViaNzbget(download.value)
      else if UsesClient(entry.value, "qbittorrent") && setup.qbittorrent then ViaQbittorrent(download.value)
      else JustSearch
  }

  function LastResortActions(resort: LastResort): seq<Action> {
    match resort
    case JustSearch => []
    case ViaNzbget(download) => [RemoveNzbget(download, false)]
    case ViaQbittorrent(download) =>
      var hash := NormalizeDownloadId(download);
      if hash == "" then [] else [RemoveQbittorrent(hash, false)]
  }

  /** The torrent the search would first remove has data. */
  predicate HasPayload(torrents: Option<TorrentIndex>, resort: LastResort) {
    resort.ViaQbittorrent? && torrents.Some?
    && var hash := NormalizeDownloadId(resort.download);
       hash in torrents.value && HasLocalPayload(torrents.value[hash])
  }

  // ----- what a user's request reports

  datatype Report =
    | FailedOver(downloader: Downloader, removed: bool)
    | FailedInHistory
    | LeftPayloadAlone
    | SearchStarted(removed: bool)

  /** The last resort did what its queue page, read as that call, asks for, and reports it. */
  ghost predicate ResortReported(
    world: World, seen: Snapshot, setup: Setup, implementation: Implementation, item: string, itemNumber: int,
    acted: seq<Action>, call: nat, report: Report)
  {
    var resort := LastResortOf(setup, world.queue(call), implementation, item);
    if HasPayload(seen.torrents, resort) then report == LeftPayloadAlone && acted == []
    else
      && report.SearchStarted? && acted == LastResortActions(resort) + [Search(itemNumber)]
      && (report.removed ==> LastResortActions(resort) != [])
  }

  /** The target, one of the intent's own, was failed and cleaned up. */
  ghost predicate TargetReported(
    world: World, seen: Snapshot, setup: Setup, implementation: Implementation, intent: Intent, acted: seq<Action>,
    from: nat,
    report: Report, target: Target)
  {
    && IsTarget(world, seen, setup, implementation, intent, false, target, from)
    && acted == [MarkFailed(Mark(intent.id, target.historyId, Some(target.download), true))] + CleanUpActions(setup,
      target)
    && report.FailedOver? && report.downloader == target.downloader
    && (report.removed ==> CleanUpActions(setup, target) != [])
  }

  /** A failed download of the item, by the history page read as that call, was failed once more. */
  predicate HistoryReported(
    world: World, implementation: Implementation, intent: Intent, item: string, acted: seq<Action>, call: nat)
  {
    && world.history(call).Success?
    && var historyId := FailedHistoryForItem(world.history(call).value, implementation, item);
    historyId.Some? && acted == [MarkFailed(Mark(intent.id, historyId.value, None, true))]
  }

  /** The report of a successful request says what was done, and what was done concerns the intent's own item. */
  ghost predicate IsTrueReport(
    world: World, seen: Snapshot, setup: Setup, implementation: Implementation, intent: Intent, item: string,
    itemNumber: int,
    acted: seq<Action>, from: nat, report: Report)
  {
    match report
    case FailedOver(_, _) =>
      exists target :: TargetReported(world, seen, setup, implementation, intent, acted, from, report, target)
    case FailedInHistory =>
      exists k :: from <= k < seen.calls && HistoryReported(world, implementation, intent, item, acted, k)
    case _ =>
      exists k :: from <= k < seen.calls
        && ResortReported(world, seen, setup, implementation, item, itemNumber, acted, k, report)
  }
}
