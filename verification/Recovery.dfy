/**
 * The recovery worker (src/acquisition/mod.rs): finding a dead download behind an intent, failing it in the manager,
 * removing it from the downloader, and the same on a user's request with a last-resort search.
 */
module Recovery {
  import opened Wrappers
  import opened Text
  import opened Uuids
  import opened RecoveryGates
  import opened RetryBudget
  import opened RecoveryTargets

  /** One iteration of the loop, or one request of a user. */
  class Session {
    const world: World
    var calls: nat
    var queues: map<Uuid, seq<QueueEntry>>
    var histories: map<Uuid, seq<HistoryEntry>>
    var groups: Option<map<string, Group>>
    var torrents: Option<TorrentIndex>
    ghost var actions: seq<Action>

    constructor (world: World, calls: nat)
      ensures this.world == world && this.calls == calls && IsSafe() && actions == [] && torrents == None
    {
      this.world := world;
      this.calls := calls;
      queues := map[];
      histories := map[];
      groups := None;
      torrents := None;
      actions := [];
    }

    /** What the session has fetched so far. */
    ghost function Seen(): Snapshot
      reads this`queues, this`histories, this`groups, this`torrents, this`calls
    {
      Snapshot(queues, histories, groups, torrents, calls)
    }

    ghost predicate IsSafe()
      reads this`actions, this`torrents
    {
      AreSafe(torrents, actions)
    }

    // ----- cached pages

    method QueuePage(provider: Uuid) returns (r: Result<seq<QueueEntry>, Fault>)
      modifies this`calls, this`queues
      ensures Extends(old(Seen()), Seen())
      ensures r.Success? ==> provider in queues && queues[provider] == r.value
      ensures r.Failure? ==> Faulted(world, old(calls), calls)
    {
      if provider in queues {
        return Success(queues[provider]);
      }
      r := world.queue(calls);
      assert r.Failure? ==> FailsAt(world, calls);
      calls := calls + 1;
      if r.Success? {
        queues := queues[provider := r.value];
      }
    }

    method HistoryPage(provider: Uuid) returns (r: Result<seq<HistoryEntry>, Fault>)
      modifies this`calls, this`histories
      ensures Extends(old(Seen()), Seen())
      ensures r.Success? ==> provider in histories && histories[provider] == r.value
      ensures r.Failure? ==> Faulted(world, old(calls), calls)
    {
      if provider in histories {
        return Success(histories[provider]);
      }
      r := LoadHistoryPage();
      if r.Success? {
        histories := histories[provider := r.value];
      }
    }

    method LoadHistoryPage() returns (r: Result<seq<HistoryEntry>, Fault>)
      modifies this`calls
      ensures calls >= old(calls)
      ensures r.Success? ==> calls == old(calls) + 2 && r == world.history(old(calls) + 1)
      ensures r.Failure? ==> Faulted(world, old(calls), calls)
    {
      var _ :- ResolveTransport();
      r := world.history(calls);
      assert r.Failure? ==> FailsAt(world, calls);
      calls := calls + 1;
    }

    method ResolveTransport() returns (r: Result<(), Fault>)
      modifies this`calls
      ensures calls == old(calls) + 1
      ensures r == world.transport(old(calls))
      ensures r.Failure? ==> Faulted(world, old(calls), calls)
    {
      r := world.transport(calls);
      assert r.Failure? ==> FailsAt(world, calls);
      calls := calls + 1;
    }

    /** Load the torrent list unless this session has it already; once there it stays as it is. */
    method NeedTorrents() returns (r: Result<(), Fault>)
      modifies this`calls, this`torrents
      ensures Extends(old(Seen()), Seen())
      ensures r.Success? ==> torrents.Some?
      ensures r.Failure? ==> torrents == old(torrents) && Faulted(world, old(calls), calls)
      ensures old(torrents).None? && r.Success? ==>
        var infos := world.torrents(old(calls));
        infos.Success? && torrents == Some(IndexOfTorrents(infos.value, world.isTime))
    {
      if torrents.Some? {
        return Success(());
      }
      var infos := world.torrents(calls);
      assert infos.Failure? ==> FailsAt(world, calls);
      calls := calls + 1;
      if infos.Failure? {
        return Failure(infos.error);
      }
      var index := IndexTorrents(infos.value, world.isTime);
      torrents := Some(index);
      return Success(());
    }

    /** The same for the download jobs. */
    method NeedGroups() returns (r: Result<(), Fault>)
      modifies this`calls, this`groups
      ensures Extends(old(Seen()), Seen())
      ensures r.Success? ==> groups.Some?
      ensures r.Failure? ==> groups == old(groups) && Faulted(world, old(calls), calls)
      ensures old(groups).None? && r.Success? ==>
        var listed := world.groups(old(calls));
        listed.Success? && groups == Some(GroupIndex(listed.value))
    {
      if groups.Some? {
        return Success(());
      }
      var listed := world.groups(calls);
      assert listed.Failure? ==> FailsAt(world, calls);
      calls := calls + 1;
      if listed.Failure? {
        return Failure(listed.error);
      }
      var index := IndexGroups(listed.value);
      groups := Some(index);
      return Success(());
    }

    // ----- finding a target

    /** Dead by the hard gate, or by the early gate if the log, read now, confirms it. */
    method IsNzbgetCandidate(group: Group) returns (r: Result<bool, Fault>)
      modifies this`calls
      ensures calls >= old(calls)
      ensures r.Success? ==>
        (r.value <==> IsHardFailure(group) || (LooksEarlyDead(group) && LogConfirms(world, group, old(calls))))
      ensures r == Success(true) ==> IsGroupDead(world, group, old(calls), calls)
      ensures r == Success(false) ==> IsGroupAlive(world, group, old(calls), calls)
      ensures r.Failure? ==> Faulted(world, old(calls), calls)
    {
      hide IsHardFailure, LooksEarlyDead;
      if IsHardFailure(group) {
        return Success(true);
      }
      if !LooksEarlyDead(group) {
        return Success(false);
      }
      var entries: seq<Option<string>> := [];
      if group.nzbId > 0 && group.messageCount > 0 {
        var log := world.log(calls);
        assert log.Failure? ==> FailsAt(world, calls);
        calls := calls + 1;
        entries :- log;
      }
      var dead := LogConfirmsDeadRelease(entries);
      if dead {
        assert LogConfirms(world, group, old(calls));
      } else {
        assert LogDoubts(world, group, old(calls));
      }
      return Success(dead);
    }

    /** The job behind the download id is there and dead, or why not. */
    method IsGroupEligible(setup: Setup, download: string, requireDead: bool) returns (r: Result<bool, Fault>)
      modifies this`calls, this`groups
      ensures Extends(old(Seen()), Seen())
      ensures r.Failure? ==> Faulted(world, old(calls), calls)
      ensures r == Success(false) ==> IsSpared(world, Seen(), setup, Nzbget, download, requireDead, old(calls))
      ensures r == Success(true) && requireDead ==> IsDead(world, Seen(), setup, Nzbget, download, old(calls))
    {
      hide IsGroupDead, IsGroupAlive, Faulted;
      if !requireDead {
        return Success(true);
      }
      if !setup.nzbget {
        return Success(false);
      }
      var start := calls;
      var needed := NeedGroups();
      if needed.Failure? {
        return Failure(needed.error);
      }
      if download !in groups.value {
        return Success(false);
      }
      ghost var middle := calls;
      var group := groups.value[download];
      r := IsNzbgetCandidate(group);
      GroupVerdictStays(world, group, start, middle, calls);
    }

    /** The download the manager's queue shows for the intent's item under the client. */
    method QueuedDownload(implementation: Implementation, intent: Intent, downloader: Downloader)
      returns (r: Result<Option<string>, Fault>)
      modifies this`calls, this`queues
      ensures Extends(old(Seen()), Seen())
      ensures r.Success? ==> QueueShows(Seen(), implementation, intent, downloader, r.value)
      ensures r.Success? && r.value.Some? ==>
        TrimToOption(intent.managerItem).Some? && NormalizeDownloadId(r.value.value) == r.value.value
      ensures r.Failure? ==> Faulted(world, old(calls), calls)
    {
      hide TrimToOption, FindQueued, NormalizeDownloadId, FailsAt;
      var item := TrimToOption(intent.managerItem);
      if item.None? {
        return Success(None);
      }
      var _ :- ResolveTransport();
      var queue :- QueuePage(intent.managerProvider);
      FoundIsNormal(queue, implementation, item.value, downloader.Client());
      return Success(FindQueued(queue, implementation, item.value, downloader.Client()));
    }

    /** The id under which the download is on record. */
    method HistoryId(
        implementation: Implementation, intent: Intent, download: string) returns (r: Result<Option<int>, Fault>)
      requires TrimToOption(intent.managerItem).Some?
      modifies this`calls, this`histories
      ensures Extends(old(Seen()), Seen())
      ensures r.Success? ==> HistoryShows(Seen(), implementation, intent, download, r.value)
      ensures r.Failure? ==> Faulted(world, old(calls), calls)
    {
      hide TrimToOption, HistoryForDownload, FailsAt;
      var history :- HistoryPage(intent.managerProvider);
      return Success(HistoryForDownload(history, implementation, TrimToOption(intent.managerItem).value, download));
    }

    /** `find_nzbget_recovery_target` */
    method FindNzbgetTarget(setup: Setup, implementation: Implementation, intent: Intent, requireDead: bool)
      returns (r: Result<Option<Target>, Fault>)
      modifies this`calls, this`queues, this`histories, this`groups
      ensures Extends(old(Seen()), Seen())
      ensures SearchAnswers(world, Seen(), setup, implementation, intent, requireDead, Nzbget, old(calls), r)
    {
      hide NormalizeDownloadId, FailsAt, IsDead, IsSpared, RemovalIsSafe, QueueShows, HistoryShows, Extends;
      ghost var start := Seen();
      var queued :- QueuedDownload(implementation, intent, Nzbget);
      if queued.None? {
        return Success(None);
      }
      ghost var s1 := Seen();
      var eligible := IsGroupEligible(setup, queued.value, requireDead);
      ghost var s2 := Seen();
      ExtendsTransitive(start, s1, s2);
      if eligible.Failure? {
        return Failure(eligible.error);
      }
      PagesStay(s1, s2, implementation, intent, Nzbget, queued, None);
      if !eligible.value {
        SparedStays(world, s2, s2, setup, Nzbget, queued.value, requireDead, s1.calls, start.calls);
        return Success(None);
      }
      var found := HistoryId(implementation, intent, queued.value);
      ghost var s3 := Seen();
      ExtendsTransitive(start, s2, s3);
      if found.Failure? {
        return Failure(found.error);
      }
      PagesStay(s2, s3, implementation, intent, Nzbget, queued, None);
      if found.value.None? {
        return Success(None);
      }
      if requireDead {
        DeadStays(world, s2, s3, setup, Nzbget, queued.value, s1.calls, start.calls);
      }
      return Success(Some(Target(found.value.value, queued.value, Nzbget)));
    }

    /**
     * The torrent is in the snapshot without local data, and dead by the clock, read now, if that is asked for; or why
     * not.
     */
    method IsTorrentEligible(setup: Setup, download: string, requireDead: bool) returns (r: Result<bool, Fault>)
      modifies this`calls, this`torrents
      ensures Extends(old(Seen()), Seen())
      ensures r.Failure? ==> Faulted(world, old(calls), calls)
      ensures r == Success(false) ==> IsSpared(world, Seen(), setup, Qbittorrent, download, requireDead, old(calls))
      ensures r == Success(true) ==> torrents.Some? && RemovalIsSafe(torrents.value, download, true)
      ensures r == Success(true) && requireDead ==> IsDead(world, Seen(), setup, Qbittorrent, download, old(calls))
    {
      hide HasLocalPayload, IsAutoRecoveryCandidate, FailsAt;
      if !setup.qbittorrent {
        return Success(false);
      }
      var _ :- NeedTorrents();
      if download !in torrents.value || HasLocalPayload(torrents.value[download]) {
        return Success(false);
      }
      if requireDead {
        ghost var k := calls;
        var now := world.clock(calls);
        calls := calls + 1;
        r := Success(IsAutoRecoveryCandidate(torrents.value[download], now));
        assert now == world.clock(k);
        return;
      }
      return Success(true);
    }

    /** `find_qbittorrent_recovery_target` */
    method FindQbittorrentTarget(setup: Setup, implementation: Implementation, intent: Intent, requireDead: bool)
      returns (r: Result<Option<Target>, Fault>)
      modifies this`calls, this`queues, this`histories, this`torrents
      ensures Extends(old(Seen()), Seen())
      ensures SearchAnswers(world, Seen(), setup, implementation, intent, requireDead, Qbittorrent, old(calls), r)
    {
      hide NormalizeDownloadId, FailsAt, IsDead, IsSpared, RemovalIsSafe, QueueShows, HistoryShows, Extends;
      ghost var start := Seen();
      var queued :- QueuedDownload(implementation, intent, Qbittorrent);
      if queued.None? {
        return Success(None);
      }
      ghost var s1 := Seen();
      var eligible := IsTorrentEligible(setup, queued.value, requireDead);
      ghost var s2 := Seen();
      ExtendsTransitive(start, s1, s2);
      if eligible.Failure? {
        return Failure(eligible.error);
      }
      PagesStay(s1, s2, implementation, intent, Qbittorrent, queued, None);
      if !eligible.value {
        SparedStays(world, s2, s2, setup, Qbittorrent, queued.value, requireDead, s1.calls, start.calls);
        return Success(None);
      }
      var found := HistoryId(implementation, intent, queued.value);
      ghost var s3 := Seen();
      ExtendsTransitive(start, s2, s3);
      if found.Failure? {
        return Failure(found.error);
      }
      PagesStay(s2, s3, implementation, intent, Qbittorrent, queued, None);
      if found.value.None? {
        return Success(None);
      }
      if requireDead {
        DeadStays(world, s2, s3, setup, Qbittorrent, queued.value, s1.calls, start.calls);
      }
      return Success(Some(Target(found.value.value, queued.value, Qbittorrent)));
    }

    /** Look behind one downloader, then the other. */
    method FindTarget(setup: Setup, implementation: Implementation, intent: Intent, requireDead: bool)
      returns (r: Result<Option<Target>, Fault>)
      requires IsSafe()
      modifies this`calls, this`queues, this`histories, this`groups, this`torrents
      ensures IsSafe() && Extends(old(Seen()), Seen()) && calls >= old(calls)
      ensures r.Failure? ==> Faulted(world, old(calls), calls)
      ensures r.Success? && r.value.Some? ==>
        IsTarget(world, Seen(), setup, implementation, intent, requireDead, r.value.value, old(calls))
      ensures r.Success? && r.value.None? ==> forall d: Downloader ::
        IsAbsent(world, Seen(), setup, implementation, intent, requireDead, d, old(calls))
    {
      hide IsTarget, IsAbsent, Extends, AreSafe, FailsAt;
      ghost var s0 := Seen();
      var nzbget := FindNzbgetTarget(setup, implementation, intent, requireDead);
      ghost var s1 := Seen();
      ExtendsTransitive(s0, s1, s1);
      SafeStays(s0, s1, actions);
      if nzbget.Failure? || nzbget.value.Some? {
        return nzbget;
      }
      r := FindQbittorrentTarget(setup, implementation, intent, requireDead);
      ghost var s2 := Seen();
      ExtendsTransitive(s0, s1, s2);
      SafeStays(s1, s2, actions);
      AbsentStays(world, s1, s2, setup, implementation, intent, requireDead, Nzbget, s0.calls, s0.calls);
      if r.Failure? {
        FaultedStays(world, s1.calls, s2.calls, s0.calls, s2.calls);
      } else if r.value.Some? {
        TargetStays(world, s2, s2, setup, implementation, intent, requireDead, r.value.value, s1.calls, s0.calls);
      } else {
        AbsentStays(world, s2, s2, setup, implementation, intent, requireDead, Qbittorrent, s1.calls, s0.calls);
        forall d: Downloader ensures IsAbsent(world, Seen(), setup, implementation, intent, requireDead, d,
          old(calls)) {
          match d case Nzbget => case Qbittorrent =>
        }
      }
    }

    // ----- acting on a target

    method RemoveNzbgetDownload(download: string, targeted: bool) returns (r: Result<bool, Fault>)
      requires IsSafe() && FollowsFailure(actions + [RemoveNzbget(download, targeted)], |actions|)
      modifies this`calls, this`actions
      ensures IsSafe() && calls == old(calls) + 1
      ensures actions == old(actions) + [RemoveNzbget(download, targeted)]
      ensures r == world.removeNzbget(old(calls))
    {
      hide AreSafe, FollowsFailure, RemovalIsSafe;
      SafeAppend(torrents, actions, RemoveNzbget(download, targeted));
      actions := actions + [RemoveNzbget(download, targeted)];
      r := world.removeNzbget(calls);
      calls := calls + 1;
    }

    /** Nothing is asked of the client for a blank hash. */
    method RemoveQbittorrentDownload(download: string, targeted: bool) returns (r: Result<bool, Fault>)
      requires IsSafe() && torrents.Some? && RemovalIsSafe(torrents.value, NormalizeDownloadId(download), targeted)
      requires FollowsFailure(actions + [RemoveQbittorrent(NormalizeDownloadId(download), targeted)], |actions|)
      modifies this`calls, this`actions
      ensures IsSafe() && calls >= old(calls)
      ensures r == Success(true) ==> NormalizeDownloadId(download) != ""
      ensures var hash := NormalizeDownloadId(download);
        actions == old(actions) + if hash == "" then [] else [RemoveQbittorrent(hash, targeted)]
    {
      hide AreSafe, FollowsFailure, RemovalIsSafe, NormalizeDownloadId;
      var hash := NormalizeDownloadId(download);
      if hash == "" {
        return Success(false);
      }
      SafeAppend(torrents, actions, RemoveQbittorrent(hash, targeted));
      actions := actions + [RemoveQbittorrent(hash, targeted)];
      var sent := world.removeQbittorrent(calls);
      calls := calls + 1;
      return if sent.Failure? then Failure(sent.error) else Success(true);
    }

    /** Fail a history entry in the manager. */
    method RequestFailed(intent: Intent, historyId: int, ghost download: Option<string>) returns (r: Result<(), Fault>)
      requires IsSafe()
      modifies this`calls, this`actions
      ensures IsSafe() && calls == old(calls) + 1
      ensures actions == old(actions) + [MarkFailed(Mark(intent.id, historyId, download, r.Success?))]
    {
      hide AreSafe;
      r := world.markFailed(calls);
      calls := calls + 1;
      ghost var mark := MarkFailed(Mark(intent.id, historyId, download, r.Success?));
      SafeAppend(torrents, actions, mark);
      actions := actions + [mark];
    }

    /** `cleanup_failed_release_download`: remove the failed target; a removal that fails counts as none. */
    method CleanUp(setup: Setup, target: Target) returns (removed: bool)
      requires IsSafe() && TargetIsSafe(torrents, target)
      requires actions != [] && actions[|actions| - 1].MarkFailed?
      requires actions[|actions| - 1].mark.accepted && actions[|actions| - 1].mark.download == Some(target.download)
      modifies this`calls, this`actions
      ensures IsSafe() && calls >= old(calls)
      ensures actions == old(actions) + CleanUpActions(setup, target)
      ensures removed ==> CleanUpActions(setup, target) != []
    {
      hide AreSafe, RemovalIsSafe, NormalizeDownloadId;
      var answer := Success(false);
      if target.downloader == Nzbget {
        if setup.nzbget {
          answer := RemoveNzbgetDownload(target.download, true);
        }
      } else if setup.qbittorrent {
        answer := RemoveQbittorrentDownload(target.download, true);
      }
      return answer.Success? && answer.value;
    }

    /** Fail the target in the manager and, once that is accepted, clean it up. */
    method FailOver(setup: Setup, intent: Intent, target: Target) returns (r: Result<Report, Fault>)
      requires IsSafe() && TargetIsSafe(torrents, target)
      modifies this`calls, this`actions
      ensures IsSafe() && calls >= old(calls)
      ensures actions == old(actions)
        + [MarkFailed(Mark(intent.id, target.historyId, Some(target.download), r.Success?))]
        + if r.Success? then CleanUpActions(setup, target) else []
      ensures r.Success? ==>
        && r.value.FailedOver? && r.value.downloader == target.downloader
        && (r.value.removed ==> CleanUpActions(setup, target) != [])
    {
      hide AreSafe, TargetIsSafe, CleanUpActions;
      var marked := RequestFailed(intent, target.historyId, Some(target.download));
      if marked.Failure? {
        return Failure(marked.error);
      }
      var removed := CleanUp(setup, target);
      return Success(FailedOver(target.downloader, removed));
    }

    // ----- a user's request

    /**
     * `execute_release_recovery`: dead downloads first, then any queued one, then failed history, then a fresh search.
     */
    method ExecuteReleaseRecovery(setup: Setup, intent: Intent) returns (r: Result<Report, Fault>)
      requires IsSafe()
      modifies this
      ensures IsSafe()
      ensures old(actions) <= actions
      ensures r.Success? ==>
        && intent.managerProvider in setup.managers
        && ImplementationOf(setup.managers[intent.managerProvider]).Some?
        && intent.managerItem.Some? && ParseI64(intent.managerItem.value).Some?
        && var implementation := ImplementationOf(setup.managers[intent.managerProvider]).value;
        && var item := intent.managerItem.value;
        IsTrueReport(
          world, Seen(), setup, implementation, intent, item, ParseI64(item).value, actions[|old(actions)|..],
          old(calls), r.value)
    {
      hide AreSafe, IsTarget, TargetReported, IsTrueReport, ImplementationOf, ParseI64, Extends, FailsAt;
      ghost var was, start := actions, calls;
      if intent.managerProvider !in setup.managers {
        return Failure(Fault("manager provider is no longer available"));
      }
      var implementation := ImplementationOf(setup.managers[intent.managerProvider]);
      if implementation.None? {
        return Failure(Fault("manager retry is not supported for this implementation"));
      }
      if intent.managerItem.None? {
        return Failure(Fault("manager item id is not available yet"));
      }
      var item := ParseI64(intent.managerItem.value);
      if item.None? {
        return Failure(Fault("parsing manager item id"));
      }
      var _ :- ResolveTransport();
      ghost var from := calls;
      var dead :- FindTarget(setup, implementation.value, intent, true);
      if dead.Some? {
        r := FailOverFound(setup, implementation.value, intent, intent.managerItem.value, item.value, true, dead.value,
          from, start);
        return;
      }
      from := calls;
      var current :- FindTarget(setup, implementation.value, intent, false);
      if current.Some? {
        r := FailOverFound(setup, implementation.value, intent, intent.managerItem.value, item.value, false,
          current.value, from, start);
        return;
      }
      r := RecoverWithoutTarget(setup, implementation.value, intent, intent.managerItem.value, item.value, start);
    }

    /** Fail over a target the search has just returned. */
    method FailOverFound(
      setup: Setup, implementation: Implementation, intent: Intent, ghost item: string, ghost itemNumber: int,
      ghost requireDead: bool, target: Target, ghost from: nat, ghost start: nat)
      returns (r: Result<Report, Fault>)
      requires IsSafe() && start <= from
      requires IsTarget(world, Seen(), setup, implementation, intent, requireDead, target, from)
      modifies this`calls, this`actions
      ensures IsSafe() && old(actions) <= actions && calls >= old(calls)
      ensures r.Success? ==>
        IsTrueReport(
          world, Seen(), setup, implementation, intent, item, itemNumber, actions[|old(actions)|..], start, r.value)
    {
      hide AreSafe, TargetIsSafe, CleanUpActions, IsFound, IsDead;
      ghost var s0, was := Seen(), actions;
      r := FailOver(setup, intent, target);
      DeadTargetIsTarget(world, s0, Seen(), setup, implementation, intent, requireDead, target, from, start);
      ghost var mark := MarkFailed(Mark(intent.id, target.historyId, Some(target.download), true));
      assert r.Success? ==> actions == was + ([mark] + CleanUpActions(setup, target));
      assert r.Success? ==>
        TargetReported(world, Seen(), setup, implementation, intent, actions[|was|..], start, r.value, target);
    }

    /** With nothing behind the downloaders: fail what the history shows as failed, or search anew. */
    method RecoverWithoutTarget(
      setup: Setup, implementation: Implementation, intent: Intent, item: string, itemNumber: int, ghost start: nat)
      returns (r: Result<Report, Fault>)
      requires IsSafe() && start <= calls
      modifies this`calls, this`torrents, this`actions
      ensures IsSafe() && old(actions) <= actions
      ensures r.Success? ==>
        IsTrueReport(
          world, Seen(), setup, implementation, intent, item, itemNumber, actions[|old(actions)|..], start, r.value)
    {
      hide AreSafe, Extends, FailsAt, FailedHistoryForItem, ResortReported;
      ghost var was, k := actions, calls + 1;
      var history :- LoadHistoryPage();
      var failed := FailedHistoryForItem(history, implementation, item);
      if failed.Some? {
        var _ :- RequestFailed(intent, failed.value, None);
        assert actions[|was|..] == [MarkFailed(Mark(intent.id, failed.value, None, true))];
        assert HistoryReported(world, implementation, intent, item, actions[|was|..], k);
        return Success(FailedInHistory);
      }
      k := calls;
      r := LastResortSearch(setup, implementation, item, itemNumber);
      if r.Success? {
        assert ResortReported(world, Seen(), setup, implementation, item, itemNumber, actions[|was|..], k, r.value);
        ReportIsResort(world, Seen(), setup, implementation, item, itemNumber, actions[|was|..], k, r.value);
      }
    }

    /** Remove whatever the manager's queue shows for the item, unless it is a torrent with data, and search anew. */
    method LastResortSearch(setup: Setup, implementation: Implementation, item: string, itemNumber: int)
      returns (r: Result<Report, Fault>)
      requires IsSafe()
      modifies this`calls, this`torrents, this`actions
      ensures IsSafe() && Extends(old(Seen()), Seen()) && calls > old(calls)
      ensures old(actions) <= actions
      ensures r.Success? ==>
        ResortReported(
          world, Seen(), setup, implementation, item, itemNumber, actions[|old(actions)|..], old(calls), r.value)
      ensures r.Failure? ==>
        actions[|old(actions)|..] <= LastResortActions(LastResortOf(setup, world.queue(old(calls)), implementation,
          item)) + [Search(itemNumber)]
    {
      hide AreSafe, RemovalIsSafe, HasPayload, LastResortActions, LastResortOf, Extends;
      ghost var s0, was := Seen(), actions;
      var page := world.queue(calls);
      calls := calls + 1;
      ghost var s1 := Seen();
      ExtendsByCalls(s0, s1);
      var resort := LastResortOf(setup, page, implementation, item);
      var removed := RemoveQueued(resort);
      ExtendsTransitive(s0, s1, Seen());
      if removed.Failure? {
        return Failure(removed.error);
      }
      if removed.value.None? {
        assert actions[|was|..] == [];
        return Success(LeftPayloadAlone);
      }
      SafeAppend(torrents, actions, Search(itemNumber));
      actions := actions + [Search(itemNumber)];
      assert actions[|was|..] == LastResortActions(resort) + [Search(itemNumber)];
      ghost var s2 := Seen();
      var searched := world.search(calls);
      calls := calls + 1;
      ExtendsByCalls(s2, Seen());
      ExtendsTransitive(s0, s2, Seen());
      return if searched.Failure? then Failure(searched.error) else Success(SearchStarted(removed.value.value));
    }

    /**
     * Carry out the removal a search starts with; absent is the answer for a torrent that is left alone for its data.
     */
    method RemoveQueued(resort: LastResort) returns (r: Result<Option<bool>, Fault>)
      requires IsSafe()
      modifies this`calls, this`torrents, this`actions
      ensures IsSafe() && Extends(old(Seen()), Seen())
      ensures r.Success? ==> (r.value.None? <==> HasPayload(torrents, resort))
      ensures r.Success? && r.value.None? ==> actions == old(actions)
      ensures r.Success? && r.value.Some? ==>
        actions == old(actions) + LastResortActions(resort) && (r.value.value ==> LastResortActions(resort) != [])
      ensures r.Failure? ==> old(actions) <= actions && actions[|old(actions)|..] <= LastResortActions(resort)
    {
      hide AreSafe, RemovalIsSafe, HasLocalPayload, NormalizeDownloadId, FailsAt;
      match resort
      case JustSearch =>
        return Success(Some(false));
      case ViaNzbget(download) =>
        var answer := RemoveNzbgetDownload(download, false);
        return if answer.Failure? then Failure(answer.error) else Success(Some(answer.value));
      case ViaQbittorrent(download) =>
        ghost var before := Seen();
        var needed := NeedTorrents();
        SafeStays(before, Seen(), actions);
        if needed.Failure? {
          return Failure(needed.error);
        }
        var hash := NormalizeDownloadId(download);
        if hash in torrents.value && HasLocalPayload(torrents.value[hash]) {
          return Success(None);
        }
        UntargetedRemovalIsSafe(torrents.value, hash);
        var answer := RemoveQbittorrentDownload(download, false);
        return if answer.Failure? then Failure(answer.error) else Success(Some(answer.value));
    }

    // ----- the automatic loop

    /**
     * What the loop does for one intent, up to the bookkeeping: at most one request, for the intent's own dead
     * download, and only if its entry allows it; without a request, there is a reason.
     */
    method Recover(setup: Setup, entry: Entry, intent: Intent, now: int) returns (outcome: Option<Attempt>)
      requires IsSafe()
      modifies this
      ensures IsSafe() && Extends(old(Seen()), Seen())
      ensures IsAccounted(world, Seen(), setup, entry, intent, now, outcome, old(calls))
      ensures outcome.Some? ==> MayAttempt(entry, now, outcome.value.download)
      ensures MarksOf(actions) == MarksOf(old(actions)) + if outcome.Some? then [MarkOf(intent, outcome.value)] else []
    {
      hide AreSafe, IsTarget, IsAbsent, Faulted, ImplementationOf, MarksOf, Extends;
      ghost var s0 := Seen();
      ExtendsByCalls(s0, s0);
      if entry.attempts >= MAX_RETRIES || (entry.cooldownUntil.Some? && entry.cooldownUntil.value > now) {
        return None;
      }
      if intent.managerProvider !in setup.managers || setup.managers[intent.managerProvider].isUnhealthy {
        return None;
      }
      var implementation := ImplementationOf(setup.managers[intent.managerProvider]);
      if implementation.None? {
        return None;
      }
      var transport := ResolveTransport();
      ghost var s1 := Seen();
      ExtendsByCalls(s0, s1);
      if transport.Failure? {
        return None;
      }
      var target := FindTarget(setup, implementation.value, intent, true);
      ghost var s2 := Seen();
      ExtendsTransitive(s0, s1, s2);
      if target.Failure? {
        FaultedStays(world, s1.calls, s2.calls, s0.calls, s2.calls);
        return None;
      }
      if target.value.None? {
        AbsentStays(world, s2, s2, setup, implementation.value, intent, true, Nzbget, s1.calls, s0.calls);
        AbsentStays(world, s2, s2, setup, implementation.value, intent, true, Qbittorrent, s1.calls, s0.calls);
        return None;
      }
      var found := target.value.value;
      TargetStays(world, s2, s2, setup, implementation.value, intent, true, found, s1.calls, s0.calls);
      TargetIsDue(world, s2, setup, intent, found, s0.calls);
      if entry.lastDownload == Some(found.download) {
        return None;
      }
      outcome := Attempted(setup, intent, found);
      ExtendsByCalls(s2, Seen());
      ExtendsTransitive(s0, s2, Seen());
      DueStays(world, s2, Seen(), setup, intent, found.historyId, found.download, s0.calls, s0.calls);
    }

    /** The request for a found target, as the entry will record it. */
    method Attempted(setup: Setup, intent: Intent, target: Target) returns (outcome: Option<Attempt>)
      requires IsSafe() && TargetIsSafe(torrents, target)
      modifies this`calls, this`actions
      ensures IsSafe() && calls >= old(calls)
      ensures outcome.Some? && outcome.value.historyId == target.historyId && outcome.value.download == target.download
      ensures MarksOf(actions) == MarksOf(old(actions)) + [MarkOf(intent, outcome.value)]
    {
      hide AreSafe, TargetIsSafe, MarksOf;
      ghost var was := actions;
      var result := FailOver(setup, intent, target);
      var error := if result.Failure? then Some(result.error.reason) else None;
      outcome := Some(Attempt(target.historyId, target.download, error));
      ghost var mark := MarkFailed(Mark(intent.id, target.historyId, Some(target.download), result.Success?));
      MarksAppend(was, mark);
      if result.Success? {
        CleanUpIsNoMark(setup, target, was + [mark]);
      } else {
        assert actions == was + [mark];
      }
    }

    /** `run_acquisition_recovery_iteration` on the stored document. */
    method RunIteration(before: Document, intents: seq<Intent>, deferred: bool, setup: Setup, now: int)
      returns (after: Document, ghost step: Step)
      requires IsSafe() && DistinctIntents(intents)
      modifies this
      ensures IsSafe()
      ensures ValidStep(before, step, after)
      ensures IsPollStep(step, intents, deferred, now)
      ensures MarksOf(actions) == MarksOf(old(actions)) + StepMarks(step)
      ensures step.Iteration? ==> AllAccounted(world, Seen(), setup, before, intents, now, step.outcomes, old(calls))
    {
      hide AreSafe, MarksOf, MayAttempt, Recorded, Prepared, IsReset, Survives, IsAccounted, Extends, OutcomeMarks,
        Changed;
      if intents == [] || deferred {
        return before, Skipped;
      }
      ghost var start := calls;
      ghost var outcomes: seq<Option<Attempt>> := [];
      var document: Document := Swept(before, intents);
      var changed := false;
      SweptSpec(before, intents, now);
      NothingChanged(before);
      NothingMarked(intents, actions);
      for i := 0 to |intents|
        invariant IsSafe() && start <= calls
        invariant |outcomes| == i
        invariant MarksOf(actions) == MarksOf(old(actions)) + OutcomeMarks(intents, outcomes)
        invariant AllAccounted(world, Seen(), setup, before, intents[..i], now, outcomes, start)
        invariant Allowed(before, intents[..i], now, outcomes)
        invariant changed <==> Changed(before, intents[..i], outcomes)
        invariant Processed(before, intents, now, outcomes, document)
      {
        var intent := intents[i];
        var entry := if intent.id in document then document[intent.id] else BLANK;
        var reset := entry.managerItem != intent.managerItem;
        EntryAtHand(before, intents, now, outcomes, document);
        if reset {
          entry := BLANK.(managerItem := intent.managerItem);
        }
        ghost var seen := Seen();
        var outcome := Recover(setup, entry, intent, now);
        AccountsGrow(world, seen, Seen(), setup, before, intents, now, outcomes, outcome, start);
        if outcome.Some? {
          entry := Recorded(entry, now, outcome.value);
        }
        OutcomeMarksAppend(intents, outcomes, outcome);
        StepProcessed(before, intents, now, outcomes, document, outcome);
        VerdictsGrow(before, intents, now, outcomes, outcome);
        document := document[intent.id := entry];
        changed := changed || reset || outcome.Some?;
        outcomes := outcomes + [outcome];
      }
      assert intents[..|intents|] == intents;
      step := Iteration(intents, now, outcomes);
      AllProcessed(before, intents, now, outcomes, document);
      after := if changed then document else before;
    }
  }

  /** A poll is skipped when there is nothing to do or work is deferred, and otherwise goes through its intents. */
  predicate IsPollStep(step: Step, intents: seq<Intent>, deferred: bool, now: int) {
    if intents == [] || deferred then step == Skipped
    else step.Iteration? && step.intents == intents && step.now == now && |step.outcomes| == |intents|
  }

  ghost predicate AllAccounted(
    world: World, seen: Snapshot, setup: Setup, before: Document, intents: seq<Intent>, now: int,
    outcomes: seq<Option<Attempt>>, from: nat)
  {
    && |outcomes| == |intents|
    && forall i :: 0 <= i < |intents| ==>
         IsAccounted(world, seen, setup, Prepared(before, intents[i]), intents[i], now, outcomes[i], from)
  }

  lemma AccountsGrow(
    world: World, a: Snapshot, b: Snapshot, setup: Setup, before: Document, intents: seq<Intent>, now: int,
    outcomes: seq<Option<Attempt>>, outcome: Option<Attempt>, from: nat)
    requires |outcomes| < |intents| && from <= a.calls && Extends(a, b)
    requires AllAccounted(world, a, setup, before, intents[..|outcomes|], now, outcomes, from)
    requires var intent := intents[|outcomes|];
      IsAccounted(world, b, setup, Prepared(before, intent), intent, now, outcome, a.calls)
    ensures AllAccounted(world, b, setup, before, intents[..|outcomes| + 1], now, outcomes + [outcome], from)
    ensures from <= b.calls
  {
    hide IsAccounted, Prepared;
    var n := |outcomes|;
    var grown, longer := outcomes + [outcome], intents[..n + 1];
    ExtendsTransitive(a, b, b);
    forall i | 0 <= i <= n
      ensures IsAccounted(world, b, setup, Prepared(before, longer[i]), longer[i], now, grown[i], from)
    {
      if i < n {
        assert longer[i] == intents[..n][i];
        AccountedStays(world, a, b, setup, Prepared(before, longer[i]), longer[i], now, grown[i], from, from);
      } else {
        AccountedStays(world, b, b, setup, Prepared(before, longer[i]), longer[i], now, grown[i], a.calls, from);
      }
    }
  }

  lemma NothingMarked(intents: seq<Intent>, actions: seq<Action>)
    ensures MarksOf(actions) == MarksOf(actions) + OutcomeMarks(intents, [])
  {
    hide MarksOf;
    assert OutcomeMarks(intents, []) == [];
  }

  lemma CleanUpIsNoMark(setup: Setup, target: Target, actions: seq<Action>)
    ensures MarksOf(actions + CleanUpActions(setup, target)) == MarksOf(actions)
  {
    hide MarksOf;
    var more := CleanUpActions(setup, target);
    if more == [] {
      assert actions + more == actions;
    } else {
      MarksAppend(actions, more[0]);
      assert more == [more[0]];
    }
  }

  lemma TargetIsDue(world: World, seen: Snapshot, setup: Setup, intent: Intent, target: Target, from: nat)
    requires UsableManager(setup, intent).Some?
    requires IsTarget(world, seen, setup, UsableManager(setup, intent).value, intent, true, target, from)
    ensures IsDue(world, seen, setup, intent, target.historyId, target.download, from)
    ensures TargetIsSafe(seen.torrents, target)
  {
    hide IsFound, TargetIsSafe, IsDead, UsableManager;
    match target.downloader {
      case Nzbget => assert target == Target(target.historyId, target.download, Nzbget);
      case Qbittorrent => assert target == Target(target.historyId, target.download, Qbittorrent);
    }
  }

  /** `execute_find_another_release`: a recovery that reports anything clears the intent's entry. */
  method FindAnotherRelease(session: Session, document: Document, intents: seq<Intent>, id: Uuid, setup: Setup)
    returns (r: Result<Report, Fault>, after: Document)
    requires session.IsSafe()
    modifies session
    ensures session.IsSafe()
    ensures ValidStep(document, ManualRelease(id, r.Success?), after)
    ensures r.Success? ==> exists i :: 0 <= i < |intents| && intents[i].id == id
    ensures old(session.actions) <= session.actions
  {
    hide AreSafe;
    var i := 0;
    while i < |intents| && intents[i].id != id
      invariant 0 <= i <= |intents|
    {
      i := i + 1;
    }
    if i == |intents| {
      return Failure(Fault("managed acquisition item is no longer available")), document;
    }
    r := session.ExecuteReleaseRecovery(setup, intents[i]);
    after := if r.Success? then document - {id} else document;
  }

  // ----- the worker's whole life

  /** A finished session: what it had fetched, what it did, and the number of its first outside call. */
  datatype Account = Account(seen: Snapshot, actions: seq<Action>, first: nat)

  ghost predicate AccountIsSafe(account: Account) {
    AreSafe(account.seen.torrents, account.actions)
  }

  /** What the loop meets on one tick, or a user's request in between. */
  datatype Tick =
    | Poll(intents: seq<Intent>, deferred: bool, setup: Setup, now: int)
    | AskForAnother(intents: seq<Intent>, id: Uuid, setup: Setup)

  /**
   * The step is what the session of the tick did: for a poll, its requests are the session's requests, each of them due
   * by what the session had fetched, and no intent is passed over without a reason.
   */
  ghost predicate StepIsSession(world: World, before: Document, tick: Tick, step: Step, account: Account) {
    match tick
    case Poll(intents, deferred, setup, now) =>
      && IsPollStep(step, intents, deferred, now)
      && MarksOf(account.actions) == StepMarks(step)
      && (step.Iteration? ==>
            AllAccounted(world, account.seen, setup, before, intents, now, step.outcomes, account.first))
    case AskForAnother(_, id, _) => step.ManualRelease? && step.id == id
  }

  /** The requests the loop's own sessions issued for the intent, over the ticks that led to documents `a` to `b`. */
  ghost function IssuedBy(ticks: seq<Tick>, sessions: seq<Account>, a: nat, b: nat, id: Uuid): seq<Request>
    requires a <= b <= |ticks| == |sessions|
    decreases b - a
  {
    var latest :=
      if b == 0 || !ticks[b - 1].Poll? then [] else RequestsBy(MarksOf(sessions[b - 1].actions), id, ticks[b - 1].now);
    if a == b then latest else IssuedBy(ticks, sessions, a, b - 1, id) + latest
  }

  lemma StepIssued(world: World, before: Document, tick: Tick, step: Step, account: Account, id: Uuid)
    requires StepIsSession(world, before, tick, step, account)
    ensures RequestOf(step, id) == if tick.Poll? then RequestsBy(MarksOf(account.actions), id, tick.now) else []
  {
    hide MarksOf, StepMarks, AllAccounted, RequestsBy;
    if tick.Poll? {
      StepMarksAreRequests(step, id, tick.now);
    }
  }

  /** What the steps are charged with is what the sessions issued. */
  lemma {:induction false} IssuedAreCharged(
    world: World, documents: seq<Document>, ticks: seq<Tick>, steps: seq<Step>, sessions: seq<Account>, a: nat, b: nat,
    id: Uuid)
    requires |ticks| == |steps| == |sessions| && |documents| == |steps| + 1 && a <= b <= |ticks|
    requires forall t :: 0 <= t < |ticks| ==> StepIsSession(world, documents[t], ticks[t], steps[t], sessions[t])
    ensures IssuedBy(ticks, sessions, a, b, id) == RequestsOf(steps, a, b, id)
    decreases b - a
  {
    hide StepIsSession, MarksOf, RequestsBy, RequestOf;
    if b > 0 {
      StepIssued(world, documents[b - 1], ticks[b - 1], steps[b - 1], sessions[b - 1], id);
    }
    if a < b {
      IssuedAreCharged(world, documents, ticks, steps, sessions, a, b - 1, id);
    }
  }

  /** Over the ticks of every entry's lifetime the requests the loop issued stay within budget. */
  ghost predicate IssuesWithinBudget(documents: seq<Document>, ticks: seq<Tick>, sessions: seq<Account>)
    requires |sessions| == |ticks| && |documents| == |ticks| + 1
  {
    forall a, b, id, item :: 0 <= a <= b <= |ticks| && Lifetime(documents, a, b, id, item)
                             ==> WithinBudget(IssuedBy(ticks, sessions, a, b, id))
  }

  /**
   * Every tick starts a session with empty caches and goes on from the stored document. Whatever the outside world
   * answers: the documents form a run whose steps are what the sessions did; over every entry's lifetime the requests
   * the loop issued stay within budget; and no session removed a torrent its snapshot showed data for.
   */
  method RunWorker(world: World, initial: Document, ticks: seq<Tick>)
    returns (stored: Document, ghost documents: seq<Document>, ghost steps: seq<Step>, ghost sessions: seq<Account>)
    requires forall t :: 0 <= t < |ticks| ==> DistinctIntents(ticks[t].intents)
    ensures IsRun(documents, steps) && |steps| == |ticks| == |sessions|
    ensures documents[0] == initial && documents[|steps|] == stored
    ensures forall t :: 0 <= t < |ticks| ==> StepIsSession(world, documents[t], ticks[t], steps[t], sessions[t])
    ensures forall t :: 0 <= t < |ticks| ==> AccountIsSafe(sessions[t])
    ensures IssuesWithinBudget(documents, ticks, sessions)
  {
    hide ValidStep, Lifetime, RequestsOf, WithinBudget, AreSafe, AllAccounted, MarksOf, StepMarks, IssuedBy;
    stored, documents, steps, sessions := initial, [initial], [], [];
    var calls: nat := 0;
    for t := 0 to |ticks|
      invariant IsRun(documents, steps) && |steps| == t == |sessions|
      invariant documents[0] == initial && documents[t] == stored
      invariant forall k :: 0 <= k < t ==> StepIsSession(world, documents[k], ticks[k], steps[k], sessions[k])
      invariant forall k :: 0 <= k < t ==> AccountIsSafe(sessions[k])
    {
      ghost var before, step, account := stored, Skipped, Account(Snapshot(map[], map[], None, None, 0), [], 0);
      stored, calls, step, account := RunTick(world, stored, ticks[t], calls);
      RunGrows(documents, steps, step, stored);
      documents, steps, sessions := documents + [stored], steps + [step], sessions + [account];
    }
    forall a, b, id, item | 0 <= a <= b <= |ticks| && Lifetime(documents, a, b, id, item)
      ensures WithinBudget(IssuedBy(ticks, sessions, a, b, id))
    {
      IssuedAreCharged(world, documents, ticks, steps, sessions, a, b, id);
      RetriesStayWithinBudget(documents, steps, a, b, id, item);
    }
  }

  method RunTick(world: World, before: Document, tick: Tick, calls: nat)
    returns (after: Document, next: nat, ghost step: Step, ghost account: Account)
    requires DistinctIntents(tick.intents)
    ensures ValidStep(before, step, after)
    ensures StepIsSession(world, before, tick, step, account)
    ensures AccountIsSafe(account)
  {
    hide ValidStep, AreSafe, AllAccounted, StepMarks, OutcomeMarks;
    var session := new Session(world, calls);
    match tick {
      case Poll(intents, deferred, setup, now) =>
        after, step := session.RunIteration(before, intents, deferred, setup, now);
      case AskForAnother(intents, id, setup) =>
        var report;
        report, after := FindAnotherRelease(session, before, intents, id, setup);
        step := ManualRelease(id, report.Success?);
    }
    account := Account(session.Seen(), session.actions, calls);
    next := session.calls;
  }

  lemma RunGrows(documents: seq<Document>, steps: seq<Step>, step: Step, after: Document)
    requires IsRun(documents, steps) && ValidStep(documents[|steps|], step, after)
    ensures IsRun(documents + [after], steps + [step])
  {
    hide ValidStep;
    var longer, grown := documents + [after], steps + [step];
    forall t | 0 <= t < |grown| ensures ValidStep(longer[t], grown[t], longer[t + 1]) {
      if t < |steps| {
        assert longer[t] == documents[t] && longer[t + 1] == documents[t + 1];
      }
    }
  }

  lemma ExtendsByCalls(a: Snapshot, b: Snapshot)
    requires b == a.(calls := b.calls) && a.calls <= b.calls
    ensures Extends(a, b)
  {
  }

  lemma ReportIsResort(
    world: World, seen: Snapshot, setup: Setup, implementation: Implementation, item: string, itemNumber: int,
    acted: seq<Action>, call: nat, report: Report)
    requires ResortReported(world, seen, setup, implementation, item, itemNumber, acted, call, report)
    ensures report.LeftPayloadAlone? || report.SearchStarted?
  {
  }

  lemma UntargetedRemovalIsSafe(index: TorrentIndex, hash: string)
    requires hash in index ==> !HasLocalPayload(index[hash])
    ensures RemovalIsSafe(index, hash, false)
  {
  }
}
