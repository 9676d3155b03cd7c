/** Capabilities, the machine-word set that holds them, and what each role grants (src/authz.rs). */
module Capabilities {
  import opened Wrappers

  datatype Capability =
    | ServerAdmin
    | UsersManage
    | SharingManage
    | DevicesManageOwn
    | DevicesManageAll
    | LibraryRead
    | MediaPlay
    | MediaDelete
    | LibraryScan
    | ReviewQueueManage
    | AcquisitionRequest
    | AcquisitionManage
    | ExtensionsView
    | ExtensionsManage
    | SecretsManage
    | SettingsView
    | SettingsManage
    | LiveBrowse
    | LivePlay
    | LiveManage

  datatype HomeRole = Owner | Admin | Manager | Viewer

  datatype ProfileType = Account | Managed

  const All: seq<Capability> := [
    ServerAdmin, UsersManage, SharingManage, DevicesManageOwn, DevicesManageAll, LibraryRead, MediaPlay,
    MediaDelete, LibraryScan, ReviewQueueManage, AcquisitionRequest, AcquisitionManage, ExtensionsView,
    ExtensionsManage, SecretsManage, SettingsView, SettingsManage, LiveBrowse, LivePlay, LiveManage
  ]

  /** The discriminant the compiler assigns, in declaration order. */
  function Discriminant(c: Capability): (d: bv64)
    ensures d < 20
  {
    match c
    case ServerAdmin => 0
    case UsersManage => 1
    case SharingManage => 2
    case DevicesManageOwn => 3
    case DevicesManageAll => 4
    case LibraryRead => 5
    case MediaPlay => 6
    case MediaDelete => 7
    case LibraryScan => 8
    case ReviewQueueManage => 9
    case AcquisitionRequest => 10
    case AcquisitionManage => 11
    case ExtensionsView => 12
    case ExtensionsManage => 13
    case SecretsManage => 14
    case SettingsView => 15
    case SettingsManage => 16
    case LiveBrowse => 17
    case LivePlay => 18
    case LiveManage => 19
  }

  function Name(c: Capability): string {
    match c
    case ServerAdmin => "server_admin"
    case UsersManage => "users_manage"
    case SharingManage => "sharing_manage"
    case DevicesManageOwn => "devices_manage_own"
    case DevicesManageAll => "devices_manage_all"
    case LibraryRead => "library_read"
    case MediaPlay => "media_play"
    case MediaDelete => "media_delete"
    case LibraryScan => "library_scan"
    case ReviewQueueManage => "review_queue_manage"
    case AcquisitionRequest => "acquisition_request"
    case AcquisitionManage => "acquisition_manage"
    case ExtensionsView => "extensions_view"
    case ExtensionsManage => "extensions_manage"
    case SecretsManage => "secrets_manage"
    case SettingsView => "settings_view"
    case SettingsManage => "settings_manage"
    case LiveBrowse => "live_browse"
    case LivePlay => "live_play"
    case LiveManage => "live_manage"
  }

  function Bit(c: Capability): bv64 {
    1 << Discriminant(c)
  }

  predicate Test(word: bv64, mask: bv64) {
    word & mask != 0
  }

  /** The word itself: capability `c` is present when its bit is set. */
  type CapabilitySet = bv64

  const Empty: CapabilitySet := 0

  predicate Has(s: CapabilitySet, c: Capability) {
    Test(s, Bit(c))
  }

  function Insert(s: CapabilitySet, c: Capability): CapabilitySet {
    s | Bit(c)
  }

  function Remove(s: CapabilitySet, c: Capability): CapabilitySet {
    s & !Bit(c)
  }

  /** The mathematical set the word stands for. */
  ghost function Members(s: CapabilitySet): set<Capability> {
    set c: Capability | Has(s, c)
  }

  lemma DistinctShiftsAreDisjoint(i: bv64, j: bv64)
    requires i < 20 && j < 20 && i != j
    ensures ((1 as bv64) << i) & ((1 as bv64) << j) == 0
  {
  }

  lemma ShiftIsNonzero(i: bv64)
    requires i < 20
    ensures (1 as bv64) << i != 0
  {
  }

  lemma SetAwayFromBit(w: bv64, b: bv64, d: bv64)
    requires b & d == 0
    ensures Test(w | b, d) <==> Test(w, d)
  {
    SetAwayFromMask(w, b, d);
  }

  lemma SetAwayFromMask(w: bv64, b: bv64, d: bv64)
    requires b & d == 0
    ensures (w | b) & d == w & d
  {
  }

  lemma ClearAwayFromBit(w: bv64, b: bv64, d: bv64)
    requires b & d == 0
    ensures Test(w & !b, d) <==> Test(w, d)
  {
    ClearAwayFromMask(w, b, d);
  }

  lemma ClearAwayFromMask(w: bv64, b: bv64, d: bv64)
    requires b & d == 0
    ensures (w & !b) & d == w & d
  {
  }

  lemma SetAtBit(w: bv64, b: bv64)
    requires b != 0
    ensures Test(w | b, b)
  {
    assert (w | b) & b == b;
  }

  lemma ClearAtBit(w: bv64, b: bv64)
    ensures !Test(w & !b, b)
  {
  }

  lemma DiscriminantInjective(c: Capability, d: Capability)
    ensures Discriminant(c) == Discriminant(d) ==> c == d
  {
  }

  lemma InsertElsewhere(s: CapabilitySet, c: Capability, d: Capability)
    requires c != d
    ensures Has(Insert(s, c), d) <==> Has(s, d)
  {
    hide Bit, Test;
    BitsAreIndependent(c, d);
    SetAwayFromBit(s, Bit(c), Bit(d));
  }

  lemma RemoveElsewhere(s: CapabilitySet, c: Capability, d: Capability)
    requires c != d
    ensures Has(Remove(s, c), d) <==> Has(s, d)
  {
    hide Bit, Test;
    BitsAreIndependent(c, d);
    ClearAwayFromBit(s, Bit(c), Bit(d));
  }

  lemma InsertAt(s: CapabilitySet, c: Capability)
    ensures Has(Insert(s, c), c)
  {
    hide Bit, Test;
    BitsAreIndependent(c, c);
    SetAtBit(s, Bit(c));
  }

  lemma RemoveAt(s: CapabilitySet, c: Capability)
    ensures !Has(Remove(s, c), c)
  {
    hide Bit, Test;
    ClearAtBit(s, Bit(c));
  }

  /** Setting and clearing a bit are insertion and removal on the mathematical set. */
  lemma BitOperationsRefineSets(s: CapabilitySet, c: Capability)
    ensures Members(Insert(s, c)) == Members(s) + {c}
    ensures Members(Remove(s, c)) == Members(s) - {c}
  {
    hide Insert, Remove, Has;
    forall d: Capability
      ensures Has(Insert(s, c), d) <==> Has(s, d) || c == d
      ensures Has(Remove(s, c), d) <==> Has(s, d) && c != d
    {
      if c == d {
        InsertAt(s, c);
        RemoveAt(s, c);
      } else {
        InsertElsewhere(s, c, d);
        RemoveElsewhere(s, c, d);
      }
    }
  }

  lemma BitsAreIndependent(c: Capability, d: Capability)
    ensures Bit(c) != 0
    ensures c != d ==> Bit(c) & Bit(d) == 0
  {
    ShiftIsNonzero(Discriminant(c));
    if c != d {
      DiscriminantInjective(c, d);
      DistinctShiftsAreDisjoint(Discriminant(c), Discriminant(d));
    }
  }

  lemma EmptyHasNoMembers()
    ensures Members(Empty) == {}
  {
    forall c: Capability ensures !Has(Empty, c) {
      ZeroMasks(Bit(c));
    }
  }

  lemma ZeroMasks(w: bv64)
    ensures 0 & w == 0
  {
  }

  /** Every declared capability is listed once, in discriminant order. */
  lemma AllIsComplete(c: Capability)
    ensures c in All
  {
    match c
    case ServerAdmin => assert All[0] == c;
    case UsersManage => assert All[1] == c;
    case SharingManage => assert All[2] == c;
    case DevicesManageOwn => assert All[3] == c;
    case DevicesManageAll => assert All[4] == c;
    case LibraryRead => assert All[5] == c;
    case MediaPlay => assert All[6] == c;
    case MediaDelete => assert All[7] == c;
    case LibraryScan => assert All[8] == c;
    case ReviewQueueManage => assert All[9] == c;
    case AcquisitionRequest => assert All[10] == c;
    case AcquisitionManage => assert All[11] == c;
    case ExtensionsView => assert All[12] == c;
    case ExtensionsManage => assert All[13] == c;
    case SecretsManage => assert All[14] == c;
    case SettingsView => assert All[15] == c;
    case SettingsManage => assert All[16] == c;
    case LiveBrowse => assert All[17] == c;
    case LivePlay => assert All[18] == c;
    case LiveManage => assert All[19] == c;
  }

  /** The set collected from a list, inserting from the front. */
  function FromList(values: seq<Capability>): CapabilitySet {
    if values == [] then Empty else Insert(FromList(values[..|values| - 1]), values[|values| - 1])
  }

  lemma {:induction false} FromListMembers(values: seq<Capability>)
    ensures Members(FromList(values)) == set c | c in values
  {
    hide Insert, Has;
    if values == [] {
      EmptyHasNoMembers();
    } else {
      var front := values[..|values| - 1];
      FromListMembers(front);
      BitOperationsRefineSets(FromList(front), values[|values| - 1]);
      assert values == front + [values[|values| - 1]];
    }
  }

  method FromIter(values: seq<Capability>) returns (s: CapabilitySet)
    ensures s == FromList(values)
    ensures Members(s) == set c | c in values
  {
    s := Empty;
    for i := 0 to |values|
      invariant s == FromList(values[..i])
    {
      assert values[..i + 1][..i] == values[..i];
      s := Insert(s, values[i]);
    }
    assert values[..|values|] == values;
    FromListMembers(values);
  }

  /** The first declared capability with the given name. */
  function FindNamed(candidates: seq<Capability>, name: string): Option<Capability> {
    if candidates == [] then None
    else if Name(candidates[0]) == name then Some(candidates[0])
    else FindNamed(candidates[1..], name)
  }

  function Parse(name: string): Option<Capability> {
    FindNamed(All, name)
  }

  /** A letter position that, with the length, tells the names apart. */
  lemma NamesAreDistinct(c: Capability, d: Capability)
    requires Name(c) == Name(d)
    ensures c == d
  {
    var n := Name(c);
    assert |n| == |Name(d)| && n[0] == Name(d)[0] && n[|n| - 1] == Name(d)[|n| - 1] && n[2] == Name(d)[2];
  }

  lemma {:induction false} FindNamedSpec(candidates: seq<Capability>, c: Capability)
    requires c in candidates
    ensures FindNamed(candidates, Name(c)) == Some(c)
  {
    if Name(candidates[0]) == Name(c) {
      NamesAreDistinct(candidates[0], c);
    } else {
      assert candidates == [candidates[0]] + candidates[1..];
      FindNamedSpec(candidates[1..], c);
    }
  }

  /** Reading back a stored capability name returns the capability that was stored. */
  lemma ParseName(c: Capability)
    ensures Parse(Name(c)) == Some(c)
  {
    AllIsComplete(c);
    FindNamedSpec(All, c);
  }

  const LimitedDefaults: seq<Capability> := [DevicesManageOwn, LibraryRead, MediaPlay, LiveBrowse, LivePlay]

  const ManagerDefaults: seq<Capability> := [
    DevicesManageOwn, LibraryRead, MediaPlay, MediaDelete, LibraryScan, ReviewQueueManage, AcquisitionRequest,
    AcquisitionManage, ExtensionsView, LiveBrowse, LivePlay
  ]

  const AdminDefaults: seq<Capability> := [
    UsersManage, SharingManage, DevicesManageOwn, DevicesManageAll, LibraryRead, MediaPlay, MediaDelete,
    LibraryScan, ReviewQueueManage, AcquisitionRequest, AcquisitionManage, ExtensionsView, ExtensionsManage,
    SettingsView, SettingsManage, LiveBrowse, LivePlay
  ]

  function DefaultList(role: HomeRole, profileType: ProfileType): seq<Capability> {
    if profileType == Managed then LimitedDefaults
    else match role
      case Owner => All
      case Admin => AdminDefaults
      case Manager => ManagerDefaults
      case Viewer => LimitedDefaults
  }

  function RoleDefaults(role: HomeRole, profileType: ProfileType): CapabilitySet {
    FromList(DefaultList(role, profileType))
  }

  function OverrideCeiling(role: HomeRole, profileType: ProfileType): CapabilitySet {
    if profileType == Managed then RoleDefaults(role, profileType)
    else match role
      case Owner => FromList(All)
      case Admin => Insert(Insert(RoleDefaults(role, profileType), LiveManage), SecretsManage)
      case Manager => RoleDefaults(role, profileType)
      case Viewer => RoleDefaults(role, profileType)
  }

  ghost function DefaultSet(role: HomeRole, profileType: ProfileType): set<Capability> {
    set c | c in DefaultList(role, profileType)
  }

  /** What overrides may grant at most: the defaults, plus two reserved capabilities for account admins. */
  ghost function CeilingSet(role: HomeRole, profileType: ProfileType): set<Capability> {
    DefaultSet(role, profileType)
    + if profileType == Account && role == Admin then {LiveManage, SecretsManage} else {}
  }

  lemma RoleWordsRefineSets(role: HomeRole, profileType: ProfileType)
    ensures Members(RoleDefaults(role, profileType)) == DefaultSet(role, profileType)
    ensures Members(OverrideCeiling(role, profileType)) == CeilingSet(role, profileType)
    ensures DefaultSet(role, profileType) <= CeilingSet(role, profileType)
  {
    hide Insert, Has, FromList, DefaultList;
    FromListMembers(DefaultList(role, profileType));
    var defaults := RoleDefaults(role, profileType);
    if profileType == Account && role == Admin {
      BitOperationsRefineSets(defaults, LiveManage);
      BitOperationsRefineSets(Insert(defaults, LiveManage), SecretsManage);
    } else if profileType == Account && role == Owner {
      OwnerDefaultsAreAll();
    }
  }

  lemma OwnerDefaultsAreAll()
    ensures DefaultList(Owner, Account) == All
    ensures forall c :: c in DefaultSet(Owner, Account)
  {
    forall c ensures c in DefaultSet(Owner, Account) {
      AllIsComplete(c);
    }
  }
}
