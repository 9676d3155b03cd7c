/**
 * When a download counts as dead (src/acquisition/mod.rs): the NZBGet failure gates with their log confirmation, and
 * the qBittorrent gates that keep any torrent with local data out of reach. Times are in nanoseconds.
 */
module RecoveryGates {
  import opened Wrappers
  import opened Text
  import Decimals

  const SECOND := 1_000_000_000
  const MAX_U64 := 0xffff_ffff_ffff_ffff

  type U64 = n: nat | n <= MAX_U64

  function SaturatingAdd(a: U64, b: U64): U64 {
    if a + b <= MAX_U64 then a + b else MAX_U64
  }

  function NormalizeDownloadId(value: string): string {
    Lower(Trim(value))
  }

  lemma NormalizeIdempotent(value: string)
    ensures NormalizeDownloadId(NormalizeDownloadId(value)) == NormalizeDownloadId(value)
  {
    TrimIsTrimmed(value);
    CaseKeepsTrimmed(Trim(value));
    TrimOfTrimmed(Lower(Trim(value)));
    LowerIdempotent(Trim(value));
  }

  // ----- NZBGet

  datatype Group = Group(
    nzbId: int, status: string, successArticles: U64, failedArticles: U64, health: Option<int>,
    criticalHealth: Option<int>,
    downloadedBytes: Option<U64>, downloadSeconds: Option<U64>, messageCount: U64)

  predicate IsHardFailure(group: Group) {
    || Contains(group.status, "failure")
    || (group.health.Some? && group.criticalHealth.Some? && group.health.value <= group.criticalHealth.value)
  }

  function SuccessRatio(group: Group): Option<real> {
    var total := SaturatingAdd(group.successArticles, group.failedArticles);
    if total > 0 then Some(group.successArticles as real / total as real) else None
  }

  predicate LooksEarlyDead(group: Group) {
    && (Contains(group.status, "downloading") || Contains(group.status, "warning"))
    && SaturatingAdd(group.successArticles, group.failedArticles) >= 200
    && group.downloadSeconds.Some? && group.downloadSeconds.value >= 90
    && SuccessRatio(group).Some? && SuccessRatio(group).value <= 0.0
    && (group.downloadedBytes.Some? ==> group.downloadedBytes.value <= 16 * 1024 * 1024)
  }

  lemma ZeroRatio(part: nat, total: nat)
    requires total > 0
    ensures part as real / total as real <= 0.0 <==> part == 0
  {
    assert part as real == (part as real / total as real) * total as real;
  }

  /** The ratio bound leaves no slack: a download with even one article fetched is never taken for dead early. */
  lemma EarlyDeadMeansNothingFetched(group: Group)
    ensures LooksEarlyDead(group) <==>
      && (Contains(group.status, "downloading") || Contains(group.status, "warning"))
      && group.successArticles == 0 && group.failedArticles >= 200
      && group.downloadSeconds.Some? && group.downloadSeconds.value >= 90
      && (group.downloadedBytes.Some? ==> group.downloadedBytes.value <= 16 * 1024 * 1024)
  {
    hide Contains;
    var total := SaturatingAdd(group.successArticles, group.failedArticles);
    if total > 0 {
      ZeroRatio(group.successArticles, total);
    }
  }

  // ----- the item log

  /** Where `part` first occurs in `s`. */
  function IndexOf(s: string, part: string): (r: Option<nat>)
    ensures r.Some? ==> r.value + |part| <= |s| && s[r.value..r.value + |part|] == part
  {
    if part <= s then Some(0)
    else if s == [] then None
    else
      match IndexOf(s[1..], part)
      case None => None
      case Some(i) =>
        assert s[1..][i..i + |part|] == s[i + 1..i + 1 + |part|];
        Some(i + 1)
  }

  function ParseU64(text: string): Option<U64> {
    var digits := if text != "" && text[0] == '+' then text[1..] else text;
    if digits != "" && Decimals.AllDigits(digits) && Decimals.Value(digits) <= MAX_U64 then Some(Decimals.Value(digits))
    else None
  }

  /** "12 of 12 article downloads failed", anywhere at the start of the text. */
  predicate ReportsFullFileFailure(text: string) {
    var end := IndexOf(text, " article downloads failed");
    var prefix := if end.Some? then text[..end.value] else text;
    var split := IndexOf(prefix, " of ");
    split.Some?
    && var failed := ParseU64(Trim(prefix[..split.value]));
       var total := ParseU64(Trim(prefix[split.value + 4..]));
       failed.Some? && total.Some? && total.value > 0 && failed == total
  }

  predicate EntryConfirms(entry: Option<string>) {
    entry.Some?
    && var text := Lower(Trim(entry.value));
       || Contains(text, "430 no such article")
       || Contains(text, "article or group not found")
       || Contains(text, "all servers failed")
       || ReportsFullFileFailure(text)
  }

  function Confirmations(entries: seq<Option<string>>): nat {
    if entries == [] then 0
    else Confirmations(entries[..|entries| - 1]) + if EntryConfirms(entries[|entries| - 1]) then 1 else 0
  }

  lemma {:induction false} ConfirmationsGrow(entries: seq<Option<string>>, n: nat)
    requires n <= |entries|
    ensures Confirmations(entries[..n]) <= Confirmations(entries)
  {
    hide EntryConfirms;
    if n == |entries| {
      assert entries[..n] == entries;
    } else {
      var front := entries[..|entries| - 1];
      ConfirmationsGrow(front, n);
      assert front[..n] == entries[..n];
    }
  }

  /** Three confirming lines anywhere in the log are needed, and enough. */
  method LogConfirmsDeadRelease(entries: seq<Option<string>>) returns (dead: bool)
    ensures dead <==> Confirmations(entries) >= 3
  {
    hide EntryConfirms;
    var hits := 0;
    for i := 0 to |entries|
      invariant hits == Confirmations(entries[..i]) && hits < 3
    {
      assert entries[..i + 1][..i] == entries[..i];
      if !EntryConfirms(entries[i]) {
        continue;
      }
      hits := hits + 1;
      if hits >= 3 {
        ConfirmationsGrow(entries, i + 1);
        return true;
      }
    }
    assert entries[..|entries|] == entries;
    return false;
  }

  // ----- the NZBGet index

  datatype Parameter = Parameter(name: string, value: string)

  datatype RpcGroup = RpcGroup(
    nzbId: Option<int>, status: Option<string>, successArticles: Option<U64>, failedArticles: Option<U64>,
    health: Option<int>, criticalHealth: Option<int>, sizeLo: Option<bv64>, sizeHi: Option<bv64>, sizeMb: Option<U64>,
    downloadSeconds: Option<U64>, messageCount: Option<U64>, parameters: seq<Parameter>)

  /** The id the manager attached to the job, under the name "drone". */
  function DroneId(parameters: seq<Parameter>): Option<string> {
    if parameters == [] then None
    else if EqualIgnoreCase(Trim(parameters[0].name), "drone") && Trim(parameters[0].value) != ""
    then Some(NormalizeDownloadId(Trim(parameters[0].value)))
    else DroneId(parameters[1..])
  }

  function CombinedSize(hi: Option<bv64>, lo: Option<bv64>): Option<U64> {
    if hi.None? && lo.None? then None else Some(((hi.GetOr(0) << 32) | lo.GetOr(0)) as nat)
  }

  function SizeOf(group: RpcGroup): Option<U64> {
    var combined := CombinedSize(group.sizeHi, group.sizeLo);
    if combined.Some? then combined
    else if group.sizeMb.Some? then
      Some(if group.sizeMb.value * (1024 * 1024) <= MAX_U64 then group.sizeMb.value * (1024 * 1024) else MAX_U64)
    else None
  }

  function GroupOf(group: RpcGroup): Group {
    Group(
      group.nzbId.GetOr(0), Lower(Trim(group.status.GetOr(""))), group.successArticles.GetOr(0),
      group.failedArticles.GetOr(0),
      group.health, group.criticalHealth, SizeOf(group), group.downloadSeconds, group.messageCount.GetOr(0))
  }

  /** By drone id; of several jobs with one id the first counts. */
  function GroupIndex(groups: seq<RpcGroup>): map<string, Group> {
    if groups == [] then map[]
    else
      var front, last := GroupIndex(groups[..|groups| - 1]), groups[|groups| - 1];
      var id := DroneId(last.parameters);
      if id.None? || id.value in front then front else front[id.value := GroupOf(last)]
  }

  method IndexGroups(groups: seq<RpcGroup>) returns (index: map<string, Group>)
    ensures index == GroupIndex(groups)
  {
    hide DroneId, GroupOf;
    index := map[];
    for i := 0 to |groups|
      invariant index == GroupIndex(groups[..i])
    {
      assert groups[..i + 1][..i] == groups[..i];
      var id := DroneId(groups[i].parameters);
      if id.None? {
        continue;
      }
      if id.value !in index {
        index := index[id.value := GroupOf(groups[i])];
      }
    }
    assert groups[..|groups|] == groups;
  }

  /** The index answers with the first listed job that carries the id. */
  lemma {:induction false} GroupIndexIsFirst(groups: seq<RpcGroup>, id: string)
    ensures id in GroupIndex(groups) <==> exists i :: 0 <= i < |groups| && DroneId(groups[i].parameters) == Some(id)
    ensures id in GroupIndex(groups) ==>
      exists i ::
        0 <= i < |groups| && DroneId(groups[i].parameters) == Some(id) && GroupIndex(groups)[id] == GroupOf(groups[i])
                  && forall j :: 0 <= j < i ==> DroneId(groups[j].parameters) != Some(id)
  {
    hide DroneId, GroupOf;
    if groups != [] {
      var front := groups[..|groups| - 1];
      GroupIndexIsFirst(front, id);
      assert forall i :: 0 <= i < |front| ==> front[i] == groups[i];
    }
  }

  // ----- qBittorrent

  datatype Torrent = Torrent(
    state: string, progress: Option<real>, downloaded: Option<U64>, amountLeft: Option<U64>, downloadRate: Option<U64>,
    seeds: Option<U64>, peers: Option<U64>, completionOn: Option<int>, addedOn: Option<int>)

  predicate HasLocalPayload(torrent: Torrent) {
    || torrent.progress.GetOr(0.0) > 0.0
    || torrent.downloaded.GetOr(0) > 0
    || torrent.amountLeft == Some(0)
    || torrent.completionOn.Some?
  }

  predicate IsAutoRecoveryCandidate(torrent: Torrent, now: int) {
    !HasLocalPayload(torrent)
    && (|| torrent.state in ["error", "missingfiles"]
        || (&& torrent.addedOn.Some?
            && torrent.seeds.GetOr(0) == 0 && torrent.peers.GetOr(0) == 0 && torrent.downloadRate.GetOr(0) == 0
            && var age := now - torrent.addedOn.value * SECOND;
               || (torrent.state in ["metadl", "forcedmetadl"] && age >= 600 * SECOND)
               || (torrent.state in ["downloading", "stalleddl", "forceddl"] && age >= 900 * SECOND)))
  }

  datatype TorrentInfo = TorrentInfo(
    hash: string, state: Option<string>, progress: Option<real>, downloaded: Option<U64>, amountLeft: Option<U64>,
    downloadRate: Option<U64>, seeds: Option<U64>, peers: Option<U64>, completionOn: Option<int>, addedOn: Option<int>)

  /** `isTime` tells which timestamps denote a representable time. */
  function TorrentOf(info: TorrentInfo, isTime: int -> bool): Torrent {
    Torrent(
      Lower(Trim(info.state.GetOr(""))), info.progress, info.downloaded, info.amountLeft, info.downloadRate, info.seeds,
      info.peers,
      if info.completionOn.Some? && info.completionOn.value > 0 && isTime(info.completionOn.value)
      then info.completionOn else None,
      if info.addedOn.Some? && isTime(info.addedOn.value) then info.addedOn else None)
  }

  type TorrentIndex = map<string, Torrent>

  /** By normalised hash; of several entries with one hash the last counts. */
  function IndexOfTorrents(infos: seq<TorrentInfo>, isTime: int -> bool): TorrentIndex {
    if infos == [] then map[]
    else
      var front, last := IndexOfTorrents(infos[..|infos| - 1], isTime), infos[|infos| - 1];
      var hash := NormalizeDownloadId(last.hash);
      if hash == "" then front else front[hash := TorrentOf(last, isTime)]
  }

  method IndexTorrents(infos: seq<TorrentInfo>, isTime: int -> bool) returns (index: TorrentIndex)
    ensures index == IndexOfTorrents(infos, isTime)
  {
    hide NormalizeDownloadId, TorrentOf;
    index := map[];
    for i := 0 to |infos|
      invariant index == IndexOfTorrents(infos[..i], isTime)
    {
      assert infos[..i + 1][..i] == infos[..i];
      var hash := NormalizeDownloadId(infos[i].hash);
      if hash == "" {
        continue;
      }
      index := index[hash := TorrentOf(infos[i], isTime)];
    }
    assert infos[..|infos|] == infos;
  }

  /** The last torrent listed under the hash. */
  ghost predicate IsLastWith(infos: seq<TorrentInfo>, i: nat, hash: string) {
    && i < |infos| && NormalizeDownloadId(infos[i].hash) == hash
    && forall j :: i < j < |infos| ==> NormalizeDownloadId(infos[j].hash) != hash
  }

  /** The index answers for the hashes that are listed, each time with the last torrent listed under it. */
  lemma {:induction false} TorrentIndexIsLast(infos: seq<TorrentInfo>, isTime: int -> bool, hash: string)
    requires hash != ""
    ensures hash in IndexOfTorrents(infos, isTime) <==> exists i: nat :: IsLastWith(infos, i, hash)
    ensures forall i: nat :: IsLastWith(infos, i, hash) ==>
      hash in IndexOfTorrents(infos, isTime) && IndexOfTorrents(infos, isTime)[hash] == TorrentOf(infos[i], isTime)
  {
    hide NormalizeDownloadId, TorrentOf;
    if infos != [] {
      var n := |infos| - 1;
      var front := infos[..n];
      TorrentIndexIsLast(front, isTime, hash);
      if NormalizeDownloadId(infos[n].hash) == hash {
        assert IsLastWith(infos, n, hash);
      } else {
        forall i: nat ensures IsLastWith(infos, i, hash) <==> IsLastWith(front, i, hash) {
          LastWithOfPrefix(infos, i, hash);
        }
      }
    }
  }

  lemma LastWithOfPrefix(infos: seq<TorrentInfo>, i: nat, hash: string)
    requires infos != [] && NormalizeDownloadId(infos[|infos| - 1].hash) != hash
    ensures IsLastWith(infos, i, hash) <==> IsLastWith(infos[..|infos| - 1], i, hash)
  {
    hide NormalizeDownloadId;
    assert forall j :: 0 <= j < |infos| - 1 ==> infos[..|infos| - 1][j] == infos[j];
  }
}
