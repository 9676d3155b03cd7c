/**
 * The download broker (src/download_broker.rs): which provider a route resolves to, which category and path it uses,
 * and the annotation that blocks routes of different owners that would mix up their downloads.
 */
module Broker {
  import opened Wrappers
  import opened Sequences
  import opened Ordering
  import opened Text
  import opened Uuids

  const TORRENT_DEFAULT := "downloaders.torrent.default"
  const USENET_DEFAULT := "downloaders.usenet.default"
  const DEBRID_DEFAULT := "acquisition.debrid.default"
  const HTTP_STREAM_DEFAULT := "acquisition.http_stream.default"
  const DEFAULT_OWNER := "default"

  datatype Role = Torrent | Usenet | DebridResolver | HttpStream {
    function LogicalId(): string {
      match this
      case Torrent => TORRENT_DEFAULT
      case Usenet => USENET_DEFAULT
      case DebridResolver => DEBRID_DEFAULT
      case HttpStream => HTTP_STREAM_DEFAULT
    }

    function Suffix(): string {
      match this
      case Torrent => "torrent"
      case Usenet => "usenet"
      case DebridResolver => "debrid"
      case HttpStream => "http-stream"
    }
  }

  function RoleOf(logicalId: string): Option<Role> {
    var id := Trim(logicalId);
    if id == TORRENT_DEFAULT then Some(Torrent)
    else if id == USENET_DEFAULT then Some(Usenet)
    else if id == DEBRID_DEFAULT then Some(DebridResolver)
    else if id == HTTP_STREAM_DEFAULT then Some(HttpStream)
    else None
  }

  datatype ProviderKind = Managed | External | Debrid

  datatype BindingKind = Auto | ManagedProtected | ManagedDirect | ExternalOnly | DebridOnly {
    function Name(): string {
      match this
      case Auto => "auto"
      case ManagedProtected => "managed_protected"
      case ManagedDirect => "managed_direct"
      case ExternalOnly => "external"
      case DebridOnly => "debrid"
    }

    predicate Accepts(kind: ProviderKind) {
      match this
      case Auto => true
      case ManagedProtected => kind == Managed
      case ManagedDirect => kind == Managed
      case ExternalOnly => kind == External
      case DebridOnly => kind == Debrid
    }
  }

  datatype Health = Healthy | Degraded | Unknown | Unhealthy

  datatype Provider = Provider(
    logicalId: string, role: Role, kind: ProviderKind, providerId: Uuid, extensionId: string,
    implementation: Option<string>, health: Health, selectedForDefault: bool)

  datatype Binding = Binding(
    kind: BindingKind, providerId: Option<Uuid>, profileId: Option<string>, category: Option<string>,
    downloadPath: Option<string>, allowSharedPath: bool, status: string)

  datatype CheckStatus = Pass | Warn | Fail

  datatype Check = Check(code: string, status: CheckStatus, detail: string)

  datatype RouteCandidate = RouteCandidate(
    providerId: Uuid, kind: ProviderKind, extensionId: string, implementation: Option<string>, health: Health,
    selected: bool)

  datatype Route = Route(
    logicalId: string, ownerId: string, ownerLabel: string, role: Role, bindingKind: BindingKind,
    providerId: Option<Uuid>, profileId: Option<string>, status: string, inherited: bool,
    selectedProviderId: Option<Uuid>, selectedProviderKind: Option<ProviderKind>, selectedExtensionId: Option<string>,
    category: Option<string>, downloadPath: Option<string>, allowSharedPath: bool,
    candidates: seq<RouteCandidate>, checks: seq<Check>, blocker: Option<string>)

  // ----- collisions

  const CLEAR_CODE := "download_route_collision_clear"
  const CATEGORY_CODE := "download_route_category_collision"
  const PATH_CODE := "download_route_path_collision"

  function TrimEndSlashes(s: string): string {
    if s != [] && s[|s| - 1] == '/' then TrimEndSlashes(s[..|s| - 1]) else s
  }

  function ComparablePath(path: string): string {
    Lower(TrimEndSlashes(Trim(path)))
  }

  predicate SameProvider(a: Route, b: Route) {
    && a.ownerId != DEFAULT_OWNER && b.ownerId != DEFAULT_OWNER
    && a.selectedProviderId.Some? && a.selectedProviderId == b.selectedProviderId
  }

  predicate SameCategory(a: Route, b: Route) {
    a.category.Some? && b.category.Some? && EqualIgnoreCase(a.category.value, b.category.value)
  }

  predicate SameUnsharedPath(a: Route, b: Route) {
    && !a.allowSharedPath && !b.allowSharedPath
    && a.downloadPath.Some? && b.downloadPath.Some?
    && ComparablePath(a.downloadPath.value) == ComparablePath(b.downloadPath.value)
  }

  /** Two routes of extensions would mix their downloads on one provider. */
  predicate Collide(a: Route, b: Route) {
    SameProvider(a, b) && (SameCategory(a, b) || SameUnsharedPath(a, b))
  }

  function CategoryDetail(leftLabel: string, rightLabel: string, provider: string, category: string): string {
    "Routes '" + leftLabel + "' and '" + rightLabel + "' both use provider '" + provider + "' category '" + category
    + "'. Categories must be unique per owner unless the route is intentionally shared."
  }

  function PathDetail(leftLabel: string, rightLabel: string, path: string): string {
    "Routes '" + leftLabel + "' and '" + rightLabel + "' both import from '" + path
    + "'. Shared import paths must be explicitly allowed."
  }

  function CategoryFailure(print_: Uuid -> string, left: Route, right: Route): Check
    requires SameProvider(left, right) && SameCategory(left, right)
  {
    Check(
      CATEGORY_CODE, Fail,
      CategoryDetail(left.ownerLabel, right.ownerLabel, print_(left.selectedProviderId.value), left.category.value))
  }

  function PathFailure(left: Route, right: Route): Check
    requires SameUnsharedPath(left, right)
  {
    Check(PATH_CODE, Fail, PathDetail(left.ownerLabel, right.ownerLabel, left.downloadPath.value))
  }

  /** The failures an ordered pair of routes gives to both of its routes. */
  function PairFailures(print_: Uuid -> string, left: Route, right: Route): seq<Check> {
    if !SameProvider(left, right) then []
    else
      (if SameCategory(left, right) then [CategoryFailure(print_, left, right)] else [])
      + (if SameUnsharedPath(left, right) then [PathFailure(left, right)] else [])
  }

  lemma CollisionsFail(print_: Uuid -> string, left: Route, right: Route)
    ensures PairFailures(print_, left, right) != [] <==> Collide(left, right)
    ensures forall c :: c in PairFailures(print_, left, right) ==> c.status == Fail
  {
    hide CategoryDetail, PathDetail, EqualIgnoreCase, ComparablePath;
  }

  /** What route `i` gets from its meeting with route `j`, which is listed in table order. */
  function Against(print_: Uuid -> string, routes: seq<Route>, i: nat, j: nat): seq<Check>
    requires i < |routes| && j < |routes|
  {
    if j < i then PairFailures(print_, routes[j], routes[i])
    else if i < j then PairFailures(print_, routes[i], routes[j])
    else []
  }

  function FailuresUpTo(print_: Uuid -> string, routes: seq<Route>, i: nat, k: nat): seq<Check>
    requires i < |routes| && k <= |routes|
  {
    if k == 0 then [] else FailuresUpTo(print_, routes, i, k - 1) + Against(print_, routes, i, k - 1)
  }

  predicate IsClear(check: Check) {
    check.code == CLEAR_CODE && check.status == Pass
  }

  const CLEAR := Check(CLEAR_CODE, Pass, "No category or download path collision has been detected for this route.")

  function Cleared(route: Route): Route {
    if route.ownerId != DEFAULT_OWNER && route.selectedProviderId.Some? then route.(checks := route.checks + [CLEAR])
    else route
  }

  function WithoutClear(checks: seq<Check>): seq<Check> {
    if checks == [] then []
    else
      var front, last := WithoutClear(checks[..|checks| - 1]), checks[|checks| - 1];
      if IsClear(last) then front else front + [last]
  }

  function Block(route: Route, failure: Check): Route {
    route.(
      checks := WithoutClear(route.checks) + [failure],
      blocker := route.blocker.OrElse(Some(failure.detail)))
  }

  function BlockAll(route: Route, failures: seq<Check>): Route {
    if failures == [] then route else Block(BlockAll(route, failures[..|failures| - 1]), failures[|failures| - 1])
  }

  function AnnotatedRoute(print_: Uuid -> string, routes: seq<Route>, i: nat): Route
    requires i < |routes|
  {
    BlockAll(Cleared(routes[i]), FailuresUpTo(print_, routes, i, |routes|))
  }

  function Annotated(print_: Uuid -> string, routes: seq<Route>): (r: seq<Route>)
    ensures |r| == |routes|
    ensures forall i :: 0 <= i < |routes| ==> r[i] == AnnotatedRoute(print_, routes, i)
  {
    seq(|routes|, i requires 0 <= i < |routes| => AnnotatedRoute(print_, routes, i))
  }

  // ----- the annotation in place

  type Failures = seq<(nat, Check)>

  /** The failures on a work list that are meant for route `i`, in order. */
  function For(failures: Failures, i: nat): seq<Check> {
    if failures == [] then []
    else
      var front, last := For(failures[..|failures| - 1], i), failures[|failures| - 1];
      if last.0 == i then front + [last.1] else front
  }

  lemma {:induction false} ForAppend(a: Failures, b: Failures, i: nat)
    ensures For(a + b, i) == For(a, i) + For(b, i)
  {
    if b == [] {
      assert a + b == a;
    } else {
      ForAppend(a, b[..|b| - 1], i);
      assert (a + b)[..|a + b| - 1] == a + b[..|b| - 1];
    }
  }

  lemma ForBoth(l: nat, r: nat, check: Check, i: nat)
    requires l != r
    ensures For([(l, check), (r, check)], i) == if i == l || i == r then [check] else []
  {
    ForAppend([(l, check)], [(r, check)], i);
    assert [(l, check)] + [(r, check)] == [(l, check), (r, check)];
    assert [(l, check)][..0] == [] && [(r, check)][..0] == [];
  }

  method PairWork(print_: Uuid -> string, l: nat, r: nat, left: Route, right: Route) returns (failures: Failures)
    requires l != r
    ensures forall i :: For(failures, i) == if i == l || i == r then PairFailures(print_, left, right) else []
    ensures forall k :: 0 <= k < |failures| ==> failures[k].0 in {l, r}
  {
    hide EqualIgnoreCase, ComparablePath, CategoryFailure, PathFailure, For;
    ForNothing();
    failures := [];
    if left.ownerId == DEFAULT_OWNER || right.ownerId == DEFAULT_OWNER
       || left.selectedProviderId.None? || left.selectedProviderId != right.selectedProviderId {
      return;
    }
    ghost var given: seq<Check> := [];
    if left.category.Some? && right.category.Some? && EqualIgnoreCase(left.category.value, right.category.value) {
      var check := CategoryFailure(print_, left, right);
      failures := failures + [(l, check), (r, check)];
      given := [check];
      forall i ensures For(failures, i) == if i == l || i == r then given else [] {
        ForBoth(l, r, check, i);
        assert [] + [(l, check), (r, check)] == [(l, check), (r, check)];
      }
    }
    assert forall i :: For(failures, i) == if i == l || i == r then given else [];
    if left.allowSharedPath || right.allowSharedPath {
      assert given + [] == given;
      return;
    }
    if left.downloadPath.Some? && right.downloadPath.Some?
       && ComparablePath(left.downloadPath.value) == ComparablePath(right.downloadPath.value) {
      var check := PathFailure(left, right);
      forall i ensures For(failures + [(l, check), (r, check)], i) == if i == l || i == r then given + [check] else [] {
        ForAppend(failures, [(l, check), (r, check)], i);
        ForBoth(l, r, check, i);
      }
      failures := failures + [(l, check), (r, check)];
    } else {
      assert given + [] == given;
    }
  }

  lemma ForNothing()
    ensures forall i :: For([], i) == []
  {
  }

  /** How many partners of route `i` have been seen when the pair scan stands before `(l, r)`. */
  function Seen(n: nat, l: nat, r: nat, i: nat): nat {
    if i < l then n else if i == l then r else if i < r then l + 1 else l
  }

  lemma AgainstItself(print_: Uuid -> string, routes: seq<Route>, i: nat)
    requires i < |routes|
    ensures FailuresUpTo(print_, routes, i, i + 1) == FailuresUpTo(print_, routes, i, i)
  {
  }

  lemma ClearedPairs(print_: Uuid -> string, a: Route, b: Route)
    ensures PairFailures(print_, Cleared(a), Cleared(b)) == PairFailures(print_, a, b)
  {
    hide EqualIgnoreCase, ComparablePath, CategoryDetail, PathDetail;
  }

  /** The work list of the whole pair scan. */
  method CollectFailures(
      print_: Uuid -> string, routes: array<Route>, ghost before: seq<Route>) returns (failures: Failures)
    requires |before| == routes.Length && forall i :: 0 <= i < |before| ==> routes[i] == Cleared(before[i])
    ensures forall i :: 0 <= i < |before| ==> For(failures, i) == FailuresUpTo(print_, before, i, |before|)
    ensures forall k :: 0 <= k < |failures| ==> failures[k].0 < |before|
  {
    hide PairFailures, Cleared, For, FailuresUpTo;
    var n := routes.Length;
    failures := [];
    ForNothing();
    NoneYet(print_, before);
    for l := 0 to n
      invariant forall k :: 0 <= k < |failures| ==> failures[k].0 < n
      invariant forall i :: 0 <= i < n ==> For(failures, i) == FailuresUpTo(print_, before, i, if i < l then n else l)
    {
      AgainstItself(print_, before, l);
      for r := l + 1 to n
        invariant forall k :: 0 <= k < |failures| ==> failures[k].0 < n
        invariant forall i :: 0 <= i < n ==> For(failures, i) == FailuresUpTo(print_, before, i, Seen(n, l, r, i))
      {
        var more := PairWork(print_, l, r, routes[l], routes[r]);
        ClearedPairs(print_, before[l], before[r]);
        forall i | 0 <= i < n ensures For(failures + more, i) == FailuresUpTo(print_, before, i, Seen(n, l, r + 1, i)) {
          ForAppend(failures, more, i);
          PairStep(print_, before, l, r, i);
        }
        failures := failures + more;
      }
    }
  }

  lemma NoneYet(print_: Uuid -> string, routes: seq<Route>)
    ensures forall i :: 0 <= i < |routes| ==> FailuresUpTo(print_, routes, i, 0) == []
  {
  }

  lemma PairStep(print_: Uuid -> string, routes: seq<Route>, l: nat, r: nat, i: nat)
    requires l < r < |routes| && i < |routes|
    ensures var n := |routes|;
      FailuresUpTo(print_, routes, i, Seen(n, l, r + 1, i))
      == FailuresUpTo(print_, routes, i, Seen(n, l, r, i))
         + if i == l || i == r then PairFailures(print_, routes[l], routes[r]) else []
  {
    hide PairFailures;
  }

  /** `annotate_route_collisions` */
  method AnnotateRouteCollisions(print_: Uuid -> string, routes: array<Route>)
    modifies routes
    ensures routes[..] == Annotated(print_, old(routes[..]))
  {
    hide PairFailures, FailuresUpTo, Block, Cleared;
    var n := routes.Length;
    ghost var before := routes[..];
    for i := 0 to n
      invariant forall k :: 0 <= k < i ==> routes[k] == Cleared(before[k])
      invariant forall k :: i <= k < n ==> routes[k] == before[k]
    {
      routes[i] := Cleared(routes[i]);
    }
    var failures := CollectFailures(print_, routes, before);
    for k := 0 to |failures|
      invariant forall i :: 0 <= i < n ==> routes[i] == BlockAll(Cleared(before[i]), For(failures[..k], i))
    {
      assert failures[..k + 1][..k] == failures[..k];
      var idx, failure := failures[k].0, failures[k].1;
      ghost var mine := For(failures[..k], idx);
      assert For(failures[..k + 1], idx) == mine + [failure];
      assert (mine + [failure])[..|mine|] == mine;
      routes[idx] := Block(routes[idx], failure);
    }
    assert failures[..|failures|] == failures;
  }

  // ----- what annotation means

  /** Route `i` collides with some other route of the table. */
  ghost predicate Collides(routes: seq<Route>, i: nat)
    requires i < |routes|
  {
    exists j :: 0 <= j < |routes| && j != i && Collide(routes[i], routes[j])
  }

  ghost predicate HasClear(route: Route) {
    exists k :: 0 <= k < |route.checks| && IsClear(route.checks[k])
  }

  lemma {:induction false} WithoutClearSpec(checks: seq<Check>)
    ensures forall k :: 0 <= k < |WithoutClear(checks)| ==> !IsClear(WithoutClear(checks)[k])
  {
    hide IsClear;
    if checks != [] {
      WithoutClearSpec(checks[..|checks| - 1]);
    }
  }

  lemma {:induction false} WithoutClearKeeps(checks: seq<Check>, failures: seq<Check>)
    requires forall c :: c in failures ==> !IsClear(c)
    ensures WithoutClear(WithoutClear(checks) + failures) == WithoutClear(checks) + failures
  {
    hide IsClear;
    var kept := WithoutClear(checks);
    if failures != [] {
      var front := failures[..|failures| - 1];
      WithoutClearKeeps(checks, front);
      assert (kept + failures)[..|kept + failures| - 1] == kept + front;
      assert front + [failures[|failures| - 1]] == failures;
    } else if checks != [] {
      WithoutClearKeeps(checks[..|checks| - 1], []);
      var rest := WithoutClear(checks[..|checks| - 1]);
      assert rest + [] == rest && kept + [] == kept;
      if kept != rest {
        assert kept[..|kept| - 1] == rest;
      }
    }
  }

  lemma {:induction false} BlockAllSpec(route: Route, failures: seq<Check>)
    requires failures != [] && forall c :: c in failures ==> !IsClear(c)
    ensures BlockAll(route, failures) ==
      route.(checks := WithoutClear(route.checks) + failures, blocker := route.blocker.OrElse(Some(failures[0].detail)))
  {
    hide IsClear, WithoutClear;
    var front, last := failures[..|failures| - 1], failures[|failures| - 1];
    assert failures == front + [last];
    if front != [] {
      BlockAllSpec(route, front);
      WithoutClearKeeps(route.checks, front);
      assert WithoutClear(route.checks) + front + [last] == WithoutClear(route.checks) + failures;
    } else {
      assert BlockAll(route, front) == route;
    }
  }

  lemma {:induction false} FailuresExactly(print_: Uuid -> string, routes: seq<Route>, i: nat, k: nat)
    requires i < |routes| && k <= |routes|
    ensures FailuresUpTo(print_, routes, i, k) != []
      <==> exists j :: 0 <= j < k && j != i && Collide(routes[i], routes[j])
    ensures forall c :: c in FailuresUpTo(print_, routes, i, k) ==> c.status == Fail
  {
    hide Against, Collide;
    if k > 0 {
      FailuresExactly(print_, routes, i, k - 1);
      AgainstExactly(print_, routes, i, k - 1);
    }
  }

  lemma AgainstExactly(print_: Uuid -> string, routes: seq<Route>, i: nat, j: nat)
    requires i < |routes| && j < |routes|
    ensures Against(print_, routes, i, j) != [] <==> j != i && Collide(routes[i], routes[j])
    ensures forall c :: c in Against(print_, routes, i, j) ==> c.status == Fail
  {
    hide PairFailures, Collide;
    CollideSymmetric(routes[i], routes[j]);
    CollisionsFail(print_, routes[i], routes[j]);
    CollisionsFail(print_, routes[j], routes[i]);
  }

  lemma CollideSymmetric(a: Route, b: Route)
    ensures Collide(a, b) <==> Collide(b, a)
  {
    hide ComparablePath, Lower;
  }

  lemma ClearAppended(checks: seq<Check>)
    ensures WithoutClear(checks + [CLEAR]) == WithoutClear(checks)
  {
    assert (checks + [CLEAR])[..|checks|] == checks;
    assert IsClear(CLEAR);
  }

  /**
   * A route that collides with none is only marked clear; one that collides keeps an earlier blocker or is blocked by
   * its first collision, lists every collision and is no longer marked clear. Nothing else about it changes.
   */
  lemma AnnotationIsExact(print_: Uuid -> string, routes: seq<Route>, i: nat)
    requires i < |routes|
    ensures var failures := FailuresUpTo(print_, routes, i, |routes|);
      && (failures != [] <==> Collides(routes, i))
      && Annotated(print_, routes)[i] ==
           if failures == [] then Cleared(routes[i])
           else routes[i].(checks := WithoutClear(routes[i].checks) + failures,
             blocker := routes[i].blocker.OrElse(Some(failures[0].detail)))
  {
    hide FailuresUpTo, Block, WithoutClear, Collide;
    var failures := FailuresUpTo(print_, routes, i, |routes|);
    FailuresExactly(print_, routes, i, |routes|);
    if failures != [] {
      assert forall c :: c in failures ==> !IsClear(c);
      BlockAllSpec(Cleared(routes[i]), failures);
      ClearAppended(routes[i].checks);
    }
  }

  /**
   * After annotation: blocked exactly when blocked before or colliding, clear exactly when eligible and not colliding.
   */
  lemma BlockedExactlyWhenColliding(print_: Uuid -> string, routes: seq<Route>, i: nat)
    requires i < |routes| && !HasClear(routes[i])
    ensures Annotated(print_, routes)[i].blocker.Some? <==> routes[i].blocker.Some? || Collides(routes, i)
    ensures HasClear(Annotated(print_, routes)[i]) <==>
      routes[i].ownerId != DEFAULT_OWNER && routes[i].selectedProviderId.Some? && !Collides(routes, i)
  {
    hide FailuresUpTo, BlockAll, WithoutClear, Collide, AnnotatedRoute;
    AnnotationIsExact(print_, routes, i);
    var out := Annotated(print_, routes)[i];
    var failures := FailuresUpTo(print_, routes, i, |routes|);
    FailuresExactly(print_, routes, i, |routes|);
    if failures == [] {
      if out != routes[i] {
        assert out.checks[|routes[i].checks|] == CLEAR && IsClear(CLEAR);
      }
    } else {
      WithoutClearSpec(routes[i].checks);
      var kept := WithoutClear(routes[i].checks);
      forall k | 0 <= k < |out.checks| ensures !IsClear(out.checks[k]) {
        if k >= |kept| {
          assert out.checks[k] in failures;
        }
      }
    }
  }

  /** Both routes of a collision are blocked. */
  lemma BothCollidingRoutesAreBlocked(print_: Uuid -> string, routes: seq<Route>, i: nat, j: nat)
    requires i < |routes| && j < |routes| && i != j && Collide(routes[i], routes[j])
    ensures Annotated(print_, routes)[i].blocker.Some? && Annotated(print_, routes)[j].blocker.Some?
  {
    hide Collide, Annotated, FailuresUpTo, WithoutClear;
    CollideSymmetric(routes[i], routes[j]);
    assert Collides(routes, i) && Collides(routes, j);
    AnnotationIsExact(print_, routes, i);
    AnnotationIsExact(print_, routes, j);
  }

  // ----- choosing a provider

  function HealthRank(health: Health): nat {
    match health
    case Healthy => 0
    case Degraded => 1
    case Unknown => 2
    case Unhealthy => 3
  }

  function KindRank(kind: ProviderKind): nat {
    match kind
    case Managed => 0
    case External => 1
    case Debrid => 2
  }

  /** Ties in rank are settled by extension id, then by provider id. */
  predicate TieLeq(a: Provider, b: Provider) {
    LexLess(a.extensionId, b.extensionId) || (a.extensionId == b.extensionId && a.providerId <= b.providerId)
  }

  predicate RankedLeq(a1: nat, b1: nat, a2: nat, b2: nat, tie: bool) {
    a1 < b1 || (a1 == b1 && (a2 < b2 || (a2 == b2 && tie)))
  }

  /** A route prefers health, then kind. */
  predicate RouteLeq(a: Provider, b: Provider) {
    RankedLeq(HealthRank(a.health), HealthRank(b.health), KindRank(a.kind), KindRank(b.kind), TieLeq(a, b))
  }

  /** The default marker prefers kind, then health. */
  predicate DefaultLeq(a: Provider, b: Provider) {
    RankedLeq(KindRank(a.kind), KindRank(b.kind), HealthRank(a.health), HealthRank(b.health), TieLeq(a, b))
  }

  lemma TieOrder(a: Provider, b: Provider, c: Provider)
    ensures TieLeq(a, b) || TieLeq(b, a)
    ensures TieLeq(a, b) && TieLeq(b, c) ==> TieLeq(a, c)
    ensures TieLeq(a, b) && TieLeq(b, a) ==> a.providerId == b.providerId
  {
    hide LexLess;
    LexTrichotomy(a.extensionId, b.extensionId);
    LexTrichotomy(b.extensionId, a.extensionId);
    if LexLess(a.extensionId, b.extensionId) && LexLess(b.extensionId, c.extensionId) {
      LexTransitive(a.extensionId, b.extensionId, c.extensionId);
    }
  }

  lemma LeqsAreOrders()
    ensures TotalPreorder(RouteLeq) && TotalPreorder(DefaultLeq)
  {
    hide TieLeq, HealthRank, KindRank;
    forall a, b ensures (RouteLeq(a, b) || RouteLeq(b, a)) && (DefaultLeq(a, b) || DefaultLeq(b, a)) {
      TieOrder(a, b, a);
    }
    forall a, b, c ensures RouteLeq(a, b) && RouteLeq(b, c) ==> RouteLeq(a, c)
                   ensures DefaultLeq(a, b) && DefaultLeq(b, c) ==> DefaultLeq(a, c)
    {
      TieOrder(a, b, c);
    }
  }

  function Accepted(providers: seq<Provider>, kind: BindingKind): (r: seq<Provider>)
    ensures forall p :: p in r <==> p in providers && kind.Accepts(p.kind)
  {
    if providers == [] then []
    else
      var front, last := Accepted(providers[..|providers| - 1], kind), providers[|providers| - 1];
      assert providers == providers[..|providers| - 1] + [last];
      if kind.Accepts(last.kind) then front + [last] else front
  }

  function WithId(providers: seq<Provider>, id: Uuid): (r: Option<Provider>)
    ensures r.Some? ==> r.value in providers && r.value.providerId == id
    ensures r.None? ==> forall p :: p in providers ==> p.providerId != id
  {
    if providers == [] then None
    else if providers[0].providerId == id then Some(providers[0])
    else
      assert providers == [providers[0]] + providers[1..];
      WithId(providers[1..], id)
  }

  function First(leq: (Provider, Provider) -> bool, providers: seq<Provider>): Option<Provider> {
    var sorted := SortWith(leq, providers);
    if sorted == [] then None else Some(sorted[0])
  }

  /** `select_provider_for_binding` */
  function SelectProvider(role: Role, candidates: seq<Provider>, binding: Option<Binding>): Option<Provider> {
    if binding.Some? && binding.value.providerId.Some? then WithId(candidates, binding.value.providerId.value)
    else
      var filtered := Accepted(candidates, if binding.Some? then binding.value.kind else Auto);
      if role == DebridResolver && |filtered| > 1 then None else First(RouteLeq, filtered)
  }

  ghost predicate Least(leq: (Provider, Provider) -> bool, providers: seq<Provider>, p: Provider) {
    p in providers && forall q :: q in providers ==> leq(p, q)
  }

  lemma FirstIsLeast(leq: (Provider, Provider) -> bool, providers: seq<Provider>)
    requires TotalPreorder(leq)
    ensures First(leq, providers).None? <==> providers == []
    ensures First(leq, providers).Some? ==> Least(leq, providers, First(leq, providers).value)
  {
    hide TotalPreorder;
    SortWithSpec(leq, providers);
    var sorted := SortWith(leq, providers);
    PermutationMembers(sorted, providers);
    if sorted != [] {
      assert sorted[0] in sorted;
      assert leq(sorted[0], sorted[0]) by {
        Reflexive(leq, sorted[0]);
      }
      forall q | q in providers ensures leq(sorted[0], q) {
        assert q in sorted;
      }
    }
  }

  lemma Reflexive(leq: (Provider, Provider) -> bool, p: Provider)
    requires TotalPreorder(leq)
    ensures leq(p, p)
  {
  }

  ghost predicate DistinctIds(providers: seq<Provider>) {
    Distinct(providers) && forall p, q :: p in providers && q in providers && p.providerId == q.providerId ==> p == q
  }

  lemma LeastIsUnique(providers: seq<Provider>, p: Provider, q: Provider)
    requires forall a, b :: a in providers && b in providers && a.providerId == b.providerId ==> a == b
    requires (Least(RouteLeq, providers, p) && Least(RouteLeq, providers, q)) ||
      (Least(DefaultLeq, providers, p) && Least(DefaultLeq, providers, q))
    ensures p == q
  {
    hide TieLeq, HealthRank, KindRank;
    TieOrder(p, q, p);
  }

  /** What selection promises: the bound provider, or the only or best one its binding accepts. */
  ghost predicate Selects(role: Role, candidates: seq<Provider>, binding: Option<Binding>, r: Option<Provider>) {
    if binding.Some? && binding.value.providerId.Some? then
      var id := binding.value.providerId.value;
      && (r.Some? ==> r.value in candidates && r.value.providerId == id)
      && (r.None? ==> forall p :: p in candidates ==> p.providerId != id)
    else
      var filtered := Accepted(candidates, if binding.Some? then binding.value.kind else Auto);
      && (r.None? <==> filtered == [] || (role == DebridResolver && |filtered| > 1))
      && (r.Some? ==> Least(RouteLeq, filtered, r.value))
  }

  lemma SelectionIsBest(role: Role, candidates: seq<Provider>, binding: Option<Binding>)
    ensures Selects(role, candidates, binding, SelectProvider(role, candidates, binding))
  {
    hide Accepted, First, RouteLeq, Least;
    LeqsAreOrders();
    FirstIsLeast(RouteLeq, Accepted(candidates, if binding.Some? then binding.value.kind else Auto));
  }

  lemma {:induction false} AcceptedDistinct(providers: seq<Provider>, kind: BindingKind)
    requires Distinct(providers)
    ensures Distinct(Accepted(providers, kind))
  {
    if providers != [] {
      var front, last := providers[..|providers| - 1], providers[|providers| - 1];
      AcceptedDistinct(front, kind);
      assert last !in front;
    }
  }

  lemma SameMembersSameLength(a: seq<Provider>, b: seq<Provider>)
    requires Distinct(a) && Distinct(b) && forall p :: p in a <==> p in b
    ensures |a| == |b|
  {
    DistinctByCounting(a);
    DistinctByCounting(b);
    assert Elements(a) == Elements(b);
  }

  /** The order in which providers are listed never decides which one a route gets. */
  lemma SelectionIgnoresOrder(role: Role, a: seq<Provider>, b: seq<Provider>, binding: Option<Binding>)
    requires Permutation(a, b) && DistinctIds(a)
    ensures SelectProvider(role, a, binding) == SelectProvider(role, b, binding)
  {
    hide SelectProvider, RouteLeq, Least;
    PermutationMembers(a, b);
    PermutationDistinct(a, b);
    SelectionIsBest(role, a, binding);
    SelectionIsBest(role, b, binding);
    var kind := if binding.Some? then binding.value.kind else Auto;
    AcceptedDistinct(a, kind);
    AcceptedDistinct(b, kind);
    SameMembersSameLength(Accepted(a, kind), Accepted(b, kind));
    var x, y := SelectProvider(role, a, binding), SelectProvider(role, b, binding);
    if x.Some? && y.Some? && !(binding.Some? && binding.value.providerId.Some?) {
      LeastAmongSameMembers(Accepted(b, kind), Accepted(a, kind), y.value);
      LeastIsUnique(Accepted(a, kind), x.value, y.value);
    }
  }

  lemma LeastAmongSameMembers(a: seq<Provider>, b: seq<Provider>, p: Provider)
    requires Least(RouteLeq, a, p) && forall q :: q in a <==> q in b
    ensures Least(RouteLeq, b, p)
  {
  }

  // ----- default markers

  function OfRole(providers: seq<Provider>, role: Role): (r: seq<Provider>)
    ensures forall p :: p in r <==> p in providers && p.role == role
  {
    if providers == [] then []
    else
      var front, last := OfRole(providers[..|providers| - 1], role), providers[|providers| - 1];
      assert providers == providers[..|providers| - 1] + [last];
      if last.role == role then front + [last] else front
  }

  function DefaultProvider(providers: seq<Provider>, role: Role): Option<Provider> {
    var candidates := OfRole(providers, role);
    if role == DebridResolver && |candidates| != 1 then None else First(DefaultLeq, candidates)
  }

  function Marked(provider: Provider, chosen: Option<Provider>): Provider {
    match chosen
    case None => provider
    case Some(p) => provider.(selectedForDefault := provider.providerId == p.providerId)
  }

  /** The records of one role are unaffected by what happens to the others. */
  lemma {:induction false} OfRoleDependsOnRole(a: seq<Provider>, b: seq<Provider>, role: Role)
    requires |a| == |b|
    requires forall i :: 0 <= i < |a| ==> a[i].role == b[i].role && (a[i].role == role ==> a[i] == b[i])
    ensures OfRole(a, role) == OfRole(b, role)
  {
    if a != [] {
      OfRoleDependsOnRole(a[..|a| - 1], b[..|b| - 1], role);
    }
  }

  /** The roles done so far have their marks, the others are as before. */
  ghost predicate MarkedFor(before: seq<Provider>, now: seq<Provider>, done: set<Role>) {
    && |now| == |before|
    && forall i :: 0 <= i < |now| ==> now[i] == MarkedIf(before, i, before[i].role in done)
  }

  ghost function MarkedIf(before: seq<Provider>, i: nat, done: bool): Provider
    requires i < |before|
  {
    if done then Marked(before[i], DefaultProvider(before, before[i].role)) else before[i]
  }

  method MarkRole(records: array<Provider>, role: Role, ghost before: seq<Provider>, ghost done: set<Role>)
    requires MarkedFor(before, records[..], done) && role !in done
    modifies records
    ensures MarkedFor(before, records[..], done + {role})
  {
    hide First, OfRole;
    var chosen := DefaultProvider(records[..], role);
    OfRoleDependsOnRole(records[..], before, role);
    for i := 0 to records.Length
      invariant forall j :: 0 <= j < i ==> records[j] == MarkedIf(before, j, before[j].role in done + {role})
      invariant forall j :: i <= j < records.Length ==> records[j] == MarkedIf(before, j, before[j].role in done)
    {
      if chosen.Some? && records[i].role == role {
        records[i] := records[i].(selectedForDefault := records[i].providerId == chosen.value.providerId);
      }
    }
  }

  /** `mark_selected_defaults` */
  method MarkSelectedDefaults(records: array<Provider>)
    modifies records
    ensures records.Length == |old(records[..])|
    ensures forall i :: 0 <= i < records.Length ==>
      records[i] == Marked(old(records[i]), DefaultProvider(old(records[..]), old(records[i].role)))
  {
    hide First, OfRole, DefaultProvider, Marked;
    ghost var before := records[..];
    MarkRole(records, Torrent, before, {});
    MarkRole(records, Usenet, before, {Torrent});
    MarkRole(records, DebridResolver, before, {Torrent, Usenet});
    MarkRole(records, HttpStream, before, {Torrent, Usenet, DebridResolver});
    forall i | 0 <= i < records.Length ensures records[i] == MarkedIf(before, i, true) {
      match before[i].role case Torrent => case Usenet => case DebridResolver => case HttpStream =>
    }
  }

  /** A role's default is the least by kind, health, extension and id; a debrid role has one only if unambiguous. */
  lemma DefaultIsBest(providers: seq<Provider>, role: Role)
    ensures DefaultProvider(providers, role).None? <==>
      OfRole(providers, role) == [] || (role == DebridResolver && |OfRole(providers, role)| != 1)
    ensures DefaultProvider(providers, role).Some? ==>
      Least(DefaultLeq, OfRole(providers, role), DefaultProvider(providers, role).value)
  {
    hide First, OfRole, DefaultLeq, Least;
    LeqsAreOrders();
    FirstIsLeast(DefaultLeq, OfRole(providers, role));
  }

  /** With distinct ids, marking flags one record of the role if it has a default, the default itself. */
  lemma OneDefaultPerRole(providers: seq<Provider>, i: nat)
    requires DistinctIds(providers) && i < |providers|
    requires DefaultProvider(providers, providers[i].role).Some?
    ensures Marked(providers[i], DefaultProvider(providers, providers[i].role)).selectedForDefault
       <==> providers[i] == DefaultProvider(providers, providers[i].role).value
  {
    hide First, DefaultLeq;
    DefaultIsBest(providers, providers[i].role);
  }

  /** Some provider of the role is both of the best kind and of the best health present. */
  ghost predicate HasAllRoundBest(providers: seq<Provider>) {
    exists p :: p in providers && IsAllRoundBest(p, providers)
  }

  ghost predicate IsAllRoundBest(p: Provider, providers: seq<Provider>) {
    forall q :: q in providers ==> HealthRank(p.health) <= HealthRank(q.health) && KindRank(p.kind) <= KindRank(q.kind)
  }

  /** Over one list the two orders pick the same provider exactly when one provider is best in both respects. */
  lemma OrdersPickTheSame(providers: seq<Provider>)
    requires DistinctIds(providers) && providers != []
    ensures First(RouteLeq, providers) == First(DefaultLeq, providers) <==> HasAllRoundBest(providers)
  {
    hide HealthRank, KindRank, TieLeq, First;
    LeqsAreOrders();
    FirstIsLeast(RouteLeq, providers);
    FirstIsLeast(DefaultLeq, providers);
    var r, d := First(RouteLeq, providers).value, First(DefaultLeq, providers).value;
    assert Least(RouteLeq, providers, r) && Least(DefaultLeq, providers, d);
    if p :| p in providers && IsAllRoundBest(p, providers) {
      assert RouteLeq(r, p) && DefaultLeq(d, p) && RouteLeq(r, d) && DefaultLeq(d, r);
      TieOrder(r, d, r);
    }
    if r == d {
      forall q | q in providers
        ensures HealthRank(r.health) <= HealthRank(q.health) && KindRank(r.kind) <= KindRank(q.kind)
      {
        assert RouteLeq(r, q) && DefaultLeq(r, q);
      }
    }
  }

  /** Every provider of the role is matched or beaten, in the default order, by one under the role's logical id. */
  ghost predicate LogicalIdHolds(all: seq<Provider>, routed: seq<Provider>) {
    forall q :: q in all ==> exists p :: p in routed && DefaultLeq(p, q)
  }

  /** When marking and selection agree: for debrid by counting, else by rank. */
  ghost predicate DefaultsAgree(providers: seq<Provider>, role: Role) {
    var all, routed := OfRole(providers, role), ForRole(providers, role);
    if role == DebridResolver then |all| == 1 <==> |routed| == 1
    else all == [] || (HasAllRoundBest(routed) && LogicalIdHolds(all, routed))
  }

  lemma {:induction false} RoleListsDistinct(providers: seq<Provider>, role: Role)
    requires DistinctIds(providers)
    ensures DistinctIds(OfRole(providers, role)) && DistinctIds(ForRole(providers, role))
    ensures forall p ::
      p in ForRole(providers, role) <==> p in OfRole(providers, role) && p.logicalId == role.LogicalId()
  {
    if providers != [] {
      var front, last := providers[..|providers| - 1], providers[|providers| - 1];
      assert providers == front + [last];
      RoleListsDistinct(front, role);
      assert last !in front;
    }
  }

  lemma OnlyOne(all: seq<Provider>, routed: seq<Provider>)
    requires |all| == 1 && |routed| == 1 && forall p :: p in routed ==> p in all
    ensures all[0] == routed[0]
  {
    assert routed[0] in routed;
  }

  lemma DebridAgreement(providers: seq<Provider>)
    requires DistinctIds(providers)
    ensures DefaultsAgree(providers, DebridResolver) <==>
      DefaultProvider(providers, DebridResolver)
      == SelectProvider(DebridResolver, ForRole(providers, DebridResolver), None)
  {
    hide First, OfRole, ForRole, Least;
    var all, routed := OfRole(providers, DebridResolver), ForRole(providers, DebridResolver);
    RoleListsDistinct(providers, DebridResolver);
    DefaultIsBest(providers, DebridResolver);
    SelectionIsBest(DebridResolver, routed, None);
    AllAcceptedByAuto(routed);
    if |all| == 1 && |routed| == 1 {
      OnlyOne(all, routed);
      LeastOfOne(DefaultLeq, all, DefaultProvider(providers, DebridResolver).value);
      LeastOfOne(RouteLeq, routed, SelectProvider(DebridResolver, routed, None).value);
    }
  }

  lemma LeastOfOne(leq: (Provider, Provider) -> bool, providers: seq<Provider>, p: Provider)
    requires |providers| == 1 && Least(leq, providers, p)
    ensures p == providers[0]
  {
  }

  lemma {:induction false} AllAcceptedByAuto(providers: seq<Provider>)
    ensures Accepted(providers, Auto) == providers
  {
    if providers != [] {
      AllAcceptedByAuto(providers[..|providers| - 1]);
    }
  }

  /**
   * The marked default of a role and the provider its unbound route selects agree exactly when: for debrid, the role
   * and its logical id are both or both not down to one provider; otherwise, there is no provider at all, or one under
   * the logical id is best in kind and health there and none outside it precedes them all in the default order.
   */
  lemma DefaultAgreesExactlyWhen(providers: seq<Provider>, role: Role)
    requires DistinctIds(providers)
    ensures DefaultProvider(providers, role) == SelectProvider(role, ForRole(providers, role), None)
      <==> DefaultsAgree(providers, role)
  {
    hide First, OfRole, ForRole, HasAllRoundBest, LogicalIdHolds, DefaultLeq, RouteLeq;
    if role == DebridResolver {
      DebridAgreement(providers);
    } else {
      RoleListsDistinct(providers, role);
      AllAcceptedByAuto(ForRole(providers, role));
      RankedAgreement(OfRole(providers, role), ForRole(providers, role));
    }
  }

  lemma RankedAgreement(all: seq<Provider>, routed: seq<Provider>)
    requires DistinctIds(all) && DistinctIds(routed) && forall p :: p in routed ==> p in all
    ensures First(DefaultLeq, all) == First(RouteLeq, routed)
      <==> all == [] || (HasAllRoundBest(routed) && LogicalIdHolds(all, routed))
  {
    hide First, RouteLeq, DefaultLeq, IsAllRoundBest, HasAllRoundBest;
    LeqsAreOrders();
    FirstIsLeast(DefaultLeq, all);
    FirstIsLeast(RouteLeq, routed);
    hide TotalPreorder;
    if routed == [] {
      NoneIsBest();
      assert all == [] <==> First(DefaultLeq, all).None?;
    } else {
      assert routed[0] in routed;
      OrdersPickTheSame(routed);
      DefaultUnderLogicalId(all, routed);
    }
  }

  lemma NoneIsBest()
    ensures !HasAllRoundBest([])
  {
  }

  /** The overall default is the one under the logical id exactly when those under the logical id hold. */
  lemma DefaultUnderLogicalId(all: seq<Provider>, routed: seq<Provider>)
    requires DistinctIds(all) && DistinctIds(routed) && routed != [] && forall p :: p in routed ==> p in all
    ensures First(DefaultLeq, all) == First(DefaultLeq, routed) <==> LogicalIdHolds(all, routed)
    ensures First(DefaultLeq, all).Some?
    ensures First(DefaultLeq, all).value in routed ==> First(DefaultLeq, all) == First(DefaultLeq, routed)
  {
    hide First, DefaultLeq;
    LeqsAreOrders();
    assert routed[0] in routed;
    FirstIsLeast(DefaultLeq, all);
    FirstIsLeast(DefaultLeq, routed);
    hide TotalPreorder, DistinctIds;
    var d, e := First(DefaultLeq, all).value, First(DefaultLeq, routed).value;
    if LogicalIdHolds(all, routed) {
      var p :| p in routed && DefaultLeq(p, d);
      SameTieSameProvider(all, d, p);
    }
    if d in routed {
      SameTieSameProvider(all, d, e);
    }
  }

  lemma SameTieSameProvider(all: seq<Provider>, d: Provider, p: Provider)
    requires DistinctIds(all) && d in all && p in all && DefaultLeq(d, p) && DefaultLeq(p, d)
    ensures d == p
  {
    hide HealthRank, KindRank, TieLeq;
    TieOrder(d, p, d);
  }

  /** The inventory lists every provider under its role's logical id. */
  predicate IsInventory(providers: seq<Provider>) {
    forall p :: p in providers ==> p.logicalId == p.role.LogicalId()
  }

  /**
   * Within an inventory debrid always agrees, and any other role exactly when none or an all-round best is registered.
   */
  lemma InventoryAgreesExactlyWhen(providers: seq<Provider>, role: Role)
    requires DistinctIds(providers) && IsInventory(providers)
    ensures DefaultProvider(providers, role) == SelectProvider(role, ForRole(providers, role), None)
       <==> role == DebridResolver || OfRole(providers, role) == [] || HasAllRoundBest(OfRole(providers, role))
  {
    hide First, DefaultLeq, HasAllRoundBest, DefaultProvider, SelectProvider;
    DefaultAgreesExactlyWhen(providers, role);
    InventoryRoutesAll(providers, role);
    LeqsAreOrders();
    forall q | q in OfRole(providers, role) ensures DefaultLeq(q, q) {
      Reflexive(DefaultLeq, q);
    }
  }

  lemma {:induction false} InventoryRoutesAll(providers: seq<Provider>, role: Role)
    requires IsInventory(providers)
    ensures ForRole(providers, role) == OfRole(providers, role)
  {
    if providers != [] {
      assert providers[|providers| - 1] in providers;
      InventoryRoutesAll(providers[..|providers| - 1], role);
    }
  }

  /** A degraded managed client is the marked default, a healthy external one is what the route selects. */
  lemma DefaultAndRouteCanDiffer(managed: Provider, external: Provider)
    requires managed.role == external.role == Torrent && managed.providerId != external.providerId
    requires managed.logicalId == external.logicalId == TORRENT_DEFAULT
    requires managed.kind == Managed && managed.health == Degraded
    requires external.kind == External && external.health == Healthy
    ensures DefaultProvider([managed, external], Torrent) == Some(managed)
    ensures SelectProvider(Torrent, ForRole([managed, external], Torrent), None) == Some(external)
  {
    hide OfRole, ForRole, Accepted, First, RouteLeq, DefaultLeq;
    var both := [managed, external];
    PairOfRole(managed, external);
    AllAcceptedByAuto(both);
    LeqsAreOrders();
    FirstIsLeast(DefaultLeq, both);
    FirstIsLeast(RouteLeq, both);
    PairRanks(managed, external);
    hide TotalPreorder;
    assert managed in both && external in both;
  }

  lemma PairOfRole(a: Provider, b: Provider)
    requires a.role == b.role == Torrent && a.logicalId == b.logicalId == TORRENT_DEFAULT
    ensures OfRole([a, b], Torrent) == [a, b] && ForRole([a, b], Torrent) == [a, b]
  {
    assert [a, b][..1] == [a] && [a][..0] == [];
    assert OfRole([a], Torrent) == [a] && ForRole([a], Torrent) == [a];
  }

  lemma PairRanks(managed: Provider, external: Provider)
    requires managed.kind == Managed && managed.health == Degraded && external.kind == External &&
      external.health == Healthy
    ensures !RouteLeq(managed, external) && !DefaultLeq(external, managed)
  {
    hide TieLeq;
  }

  // ----- categories

  predicate IsSlugChar(c: char) {
    IsLowerLetter(c) || IsDigit(c) || c == '-'
  }

  function SlugStep(slug: string, c: char): string {
    if IsLetter(c) || IsDigit(c) then slug + [LowerChar(c)]
    else if c in {'.', '_', '-', ' '} && (slug == "" || slug[|slug| - 1] != '-') then slug + ['-']
    else slug
  }

  function RawSlug(s: string): string {
    if s == "" then "" else SlugStep(RawSlug(s[..|s| - 1]), s[|s| - 1])
  }

  function TrimDashes(s: string): string
    decreases |s|
  {
    if s != "" && s[0] == '-' then TrimDashes(s[1..])
    else if s != "" && s[|s| - 1] == '-' then TrimDashes(s[..|s| - 1])
    else s
  }

  function Slug(owner: string): string {
    var slug := TrimDashes(RawSlug(Trim(owner)));
    if slug == "" then "extension" else slug
  }

  /** Lower-case letters and digits, in groups joined by single dashes. */
  ghost predicate NoDoubleDash(s: string) {
    && (forall i :: 0 <= i < |s| ==> IsSlugChar(s[i]))
    && (forall i :: 0 < i < |s| ==> s[i - 1] != '-' || s[i] != '-')
  }

  ghost predicate IsSlug(s: string) {
    NoDoubleDash(s) && s != "" && s[0] != '-' && s[|s| - 1] != '-'
  }

  lemma {:induction false} RawSlugShape(s: string)
    ensures NoDoubleDash(RawSlug(s))
  {
    if s != "" {
      RawSlugShape(s[..|s| - 1]);
    }
  }

  lemma {:induction false} TrimDashesShape(s: string)
    requires NoDoubleDash(s)
    ensures NoDoubleDash(TrimDashes(s)) && (TrimDashes(s) == "" || IsSlug(TrimDashes(s)))
    decreases |s|
  {
    if s != "" && s[0] == '-' {
      TrimDashesShape(s[1..]);
    } else if s != "" && s[|s| - 1] == '-' {
      TrimDashesShape(s[..|s| - 1]);
    }
  }

  lemma SlugIsSlug(owner: string)
    ensures IsSlug(Slug(owner))
  {
    hide RawSlug, TrimDashes, Trim;
    RawSlugShape(Trim(owner));
    TrimDashesShape(RawSlug(Trim(owner)));
  }

  lemma {:induction false} RawSlugOfSlug(s: string)
    requires NoDoubleDash(s)
    ensures RawSlug(s) == s
  {
    if s != "" {
      var front, last := s[..|s| - 1], s[|s| - 1];
      RawSlugOfSlug(front);
      assert s == front + [last];
      assert front != "" ==> s[|s| - 2] == front[|front| - 1];
      assert IsSlugChar(last) && LowerChar(last) == last;
    }
  }

  /** A slug is always well formed, and making a slug of it again changes nothing. */
  lemma SlugIdempotent(owner: string)
    ensures IsSlug(Slug(owner)) && Slug(Slug(owner)) == Slug(owner)
  {
    hide RawSlug, Trim;
    SlugIsSlug(owner);
    var slug := Slug(owner);
    hide Slug;
    assert !IsSpace(slug[0]) && !IsSpace(slug[|slug| - 1]) by {
      assert IsSlugChar(slug[0]) && IsSlugChar(slug[|slug| - 1]);
    }
    TrimOfTrimmed(slug);
    RawSlugOfSlug(slug);
    SlugOfItself(slug);
  }

  lemma SlugOfItself(slug: string)
    requires IsSlug(slug) && Trim(slug) == slug && RawSlug(slug) == slug
    ensures Slug(slug) == slug
  {
    hide RawSlug, Trim;
  }

  method RouteOwnerSlug(owner: string) returns (r: string)
    ensures r == Slug(owner)
  {
    hide Trim, SlugStep;
    var trimmed := Trim(owner);
    var slug := "";
    for i := 0 to |trimmed|
      invariant slug == RawSlug(trimmed[..i])
    {
      assert trimmed[..i + 1][..i] == trimmed[..i];
      slug := SlugStep(slug, trimmed[i]);
    }
    assert trimmed[..|trimmed|] == trimmed;
    slug := TrimDashes(slug);
    r := if slug == "" then "extension" else slug;
  }

  // ----- routes

  function OwnerId(value: string): string {
    if Trim(value) == "" then DEFAULT_OWNER else Trim(value)
  }

  function ResolutionOwner(role: Role, owner: string): string {
    if role == HttpStream then DEFAULT_OWNER else OwnerId(owner)
  }

  function DefaultCategory(owner: string, role: Role): Option<string> {
    if owner == DEFAULT_OWNER then None else Some(Slug(owner) + "-" + role.Suffix())
  }

  function ForRole(providers: seq<Provider>, role: Role): seq<Provider> {
    if providers == [] then []
    else
      var front, last := ForRole(providers[..|providers| - 1], role), providers[|providers| - 1];
      if last.role == role && last.logicalId == role.LogicalId() then front + [last] else front
  }

  const DEBRID_UNAVAILABLE := "Active debrid service is unavailable"
  const DEBRID_NOT_CONFIGURED := "Active debrid service is not configured"

  /** The verdict on the selected provider, as the route's first check; a failing one is also the blocker. */
  function ProviderCheck(
      role: Role, candidates: seq<Provider>, binding: Option<Binding>, selected: Option<Provider>): Check {
    var unhealthy := selected.Some? && role == DebridResolver && selected.value.health == Unhealthy;
    var bound := binding.Some? && binding.value.providerId.Some?;
    if selected.Some? && !unhealthy then
      Check("download_route_provider_selected", Pass, "The route resolves to a concrete acquisition provider.")
    else if unhealthy then Check("download_route_debrid_service_unavailable", Fail, DEBRID_UNAVAILABLE)
    else if role == DebridResolver && |candidates| > 1 && !bound then
      Check("download_route_debrid_default_ambiguous", Fail, DEBRID_NOT_CONFIGURED)
    else if candidates == [] then
      Check(
        "download_route_provider_missing", Fail,
        if role == DebridResolver then DEBRID_NOT_CONFIGURED
        else "No provider is registered for this acquisition route.")
    else
      Check(
        "download_route_provider_binding_unmatched", Fail,
        if role == DebridResolver then DEBRID_NOT_CONFIGURED
        else "No provider matches binding kind '" + (if binding.Some? then binding.value.kind else Auto).Name() + "'.")
  }

  function NamespaceChecks(logicalId: string, owner: string, category: Option<string>): seq<Check> {
    if owner == DEFAULT_OWNER then []
    else [Check(
            "download_route_namespace", Pass,
            "Acquisition route '" + logicalId + "' uses category '" + category.GetOr("")
            + "' for owner '" + owner + "'.")]
  }

  const INHERITED := Check(
    "download_route_inherits_default", Warn,
    "This extension route inherits the default acquisition provider until an override is selected.")

  function AsCandidates(providers: seq<Provider>, selected: Option<Uuid>): seq<RouteCandidate> {
    seq(|providers|, i requires 0 <= i < |providers| =>
      var p := providers[i];
      RouteCandidate(p.providerId, p.kind, p.extensionId, p.implementation, p.health, selected == Some(p.providerId)))
  }

  /** `route_record_for_binding` */
  function RouteRecord(
    logicalId: string, owner: string, ownerLabel: string, role: Role, binding: Option<Binding>,
    fallback: Option<Binding>,
    providers: seq<Provider>): Route
  {
    var inherited := binding.None? && fallback.Some?;
    var effective := binding.OrElse(fallback);
    var candidates := ForRole(providers, role);
    var selected := SelectProvider(role, candidates, effective);
    var check := ProviderCheck(role, candidates, effective, selected);
    var ownerId := OwnerId(owner);
    var category := (if effective.Some? then effective.value.category else None).OrElse(DefaultCategory(ownerId, role));
    var path := (if effective.Some? then effective.value.downloadPath else None)
      .OrElse(if category.Some? then Some("/downloads/" + category.value) else None);
    var selectedId := if selected.Some? then Some(selected.value.providerId) else None;
    Route(
      logicalId, ownerId, ownerLabel, role, if effective.Some? then effective.value.kind else Auto,
      if binding.Some? then binding.value.providerId else None,
      if binding.Some? then binding.value.profileId else None,
      if inherited then "inherited" else if binding.Some? then binding.value.status else "auto",
      inherited, selectedId,
      if selected.Some? then Some(selected.value.kind) else None,
      if selected.Some? then Some(selected.value.extensionId) else None,
      category, path, effective.Some? && effective.value.allowSharedPath,
      AsCandidates(candidates, selectedId),
      [check] + NamespaceChecks(logicalId, ownerId, category) + (if inherited then [INHERITED] else []),
      if check.status == Fail then Some(check.detail) else None)
  }

  /**
   * A fresh route is unblocked exactly when it has a usable provider, is never marked clear, and an extension's has a
   * category.
   */
  lemma FreshRoute(
    logicalId: string, owner: string, ownerLabel: string, role: Role, binding: Option<Binding>,
    fallback: Option<Binding>,
    providers: seq<Provider>)
    ensures var route := RouteRecord(logicalId, owner, ownerLabel, role, binding, fallback, providers);
      var selected := SelectProvider(role, ForRole(providers, role), binding.OrElse(fallback));
      && !HasClear(route)
      && (route.ownerId != DEFAULT_OWNER ==> route.category.Some?)
      && (route.blocker.None? <==> selected.Some? && !(role == DebridResolver && selected.value.health == Unhealthy))
      && (route.blocker.None? ==> route.selectedProviderId.Some?)
  {
    hide SelectProvider, ForRole, Slug, Trim, ProviderCheck, NamespaceChecks, AsCandidates, IsClear;
    var route := RouteRecord(logicalId, owner, ownerLabel, role, binding, fallback, providers);
    var effective, candidates := binding.OrElse(fallback), ForRole(providers, role);
    var selected := SelectProvider(role, candidates, effective);
    ChecksAreNotClear(role, candidates, effective, selected, logicalId, route.ownerId, route.category);
    assert forall k :: 0 <= k < |route.checks| ==> route.checks[k] in route.checks;
    ProviderCheckFails(role, candidates, effective, selected);
  }

  lemma ProviderCheckFails(role: Role, candidates: seq<Provider>, binding: Option<Binding>, selected: Option<Provider>)
    ensures ProviderCheck(role, candidates, binding, selected).status == Fail
       <==> selected.None? || (role == DebridResolver && selected.value.health == Unhealthy)
  {
  }

  lemma ChecksAreNotClear(
    role: Role, candidates: seq<Provider>, binding: Option<Binding>, selected: Option<Provider>, logicalId: string,
    owner: string, category: Option<string>)
    ensures !IsClear(ProviderCheck(role, candidates, binding, selected))
    ensures forall c :: c in NamespaceChecks(logicalId, owner, category) ==> !IsClear(c)
    ensures !IsClear(INHERITED)
  {
    assert |CLEAR_CODE| != |"download_route_provider_selected"| && |CLEAR_CODE| != |"download_route_namespace"|;
  }

  datatype RouteSpec = RouteSpec(logicalId: string, ownerId: string, ownerLabel: string, role: Role)

  /** The four default routes, then one per extension requirement, before annotation. */
  function FreshRoutes(
      load: (string, string) -> Option<Binding>, specs: seq<RouteSpec>, providers: seq<Provider>): seq<Route> {
    [ DefaultRoute(load, Torrent, providers), DefaultRoute(load, Usenet, providers),
      DefaultRoute(load, DebridResolver, providers), DefaultRoute(load, HttpStream, providers) ]
    + seq(|specs|, i requires 0 <= i < |specs| => SpecRoute(load, specs[i], providers))
  }

  function DefaultRoute(load: (string, string) -> Option<Binding>, role: Role, providers: seq<Provider>): Route {
    RouteRecord(role.LogicalId(), DEFAULT_OWNER, "Default", role, load(role.LogicalId(), DEFAULT_OWNER), None,
      providers)
  }

  function SpecRoute(load: (string, string) -> Option<Binding>, spec: RouteSpec, providers: seq<Provider>): Route {
    RouteRecord(
      spec.logicalId, spec.ownerId, spec.ownerLabel, spec.role, load(spec.logicalId, spec.ownerId),
      load(spec.logicalId, DEFAULT_OWNER), providers)
  }

  /** `list_acquisition_routes`, given the stored bindings, the extensions' requirements and the provider inventory. */
  function Routes(
      print_: Uuid -> string, load: (string, string) -> Option<Binding>, specs: seq<RouteSpec>,
      providers: seq<Provider>)
    : seq<Route>
  {
    Annotated(print_, FreshRoutes(load, specs, providers))
  }

  datatype ResolveError = UnknownLogicalId | NoRoute | RouteBlocked(detail: string) | NoProvider | NotACandidate

  datatype Resolved = Resolved(record: Provider, bindingKind: BindingKind, category: Option<string>)

  function FindRoute(routes: seq<Route>, logicalId: string, owner: string): (r: Option<Route>)
    ensures r.Some? ==> r.value in routes && r.value.logicalId == logicalId && r.value.ownerId == owner
    ensures r.None? ==> forall route :: route in routes ==> route.logicalId != logicalId || route.ownerId != owner
  {
    if routes == [] then None
    else if routes[0].logicalId == logicalId && routes[0].ownerId == owner then Some(routes[0])
    else
      assert routes == [routes[0]] + routes[1..];
      FindRoute(routes[1..], logicalId, owner)
  }

  /** `resolve_logical_downloader_for_owner` */
  function Resolve(
      routes: seq<Route>, providers: seq<Provider>, logicalId: string, owner: string): Result<Resolved, ResolveError> {
    match RoleOf(logicalId)
    case None => Failure(UnknownLogicalId)
    case Some(role) =>
      match FindRoute(routes, logicalId, ResolutionOwner(role, owner))
      case None => Failure(NoRoute)
      case Some(route) =>
        if route.blocker.Some? then Failure(RouteBlocked(route.blocker.value))
        else if route.selectedProviderId.None? then Failure(NoProvider)
        else
          match WithId(ForRole(providers, role), route.selectedProviderId.value)
          case None => Failure(NotACandidate)
          case Some(record) => Success(Resolved(record, route.bindingKind, route.category))
  }

  lemma AnnotationKeepsIdentity(print_: Uuid -> string, routes: seq<Route>, i: nat)
    requires i < |routes|
    ensures var was, now := routes[i], Annotated(print_, routes)[i];
      && now.logicalId == was.logicalId && now.ownerId == was.ownerId && now.category == was.category
      && now.selectedProviderId == was.selectedProviderId && now.bindingKind == was.bindingKind
      && now.downloadPath == was.downloadPath && now.allowSharedPath == was.allowSharedPath
  {
    hide FailuresUpTo, BlockAll, WithoutClear, Collides;
    AnnotationIsExact(print_, routes, i);
  }

  lemma FreshExtensionRoutesHaveCategories(
      load: (string, string) -> Option<Binding>, specs: seq<RouteSpec>, providers: seq<Provider>, i: nat)
    requires i < 4 + |specs|
    ensures |FreshRoutes(load, specs, providers)| == 4 + |specs|
    ensures FreshRoutes(load, specs, providers)[i].ownerId != DEFAULT_OWNER ==>
      FreshRoutes(load, specs, providers)[i].category.Some?
  {
    hide RouteRecord, SelectProvider, ForRole, HasClear;
    if i < 4 {
      var role := [Torrent, Usenet, DebridResolver, HttpStream][i];
      FreshRoute(role.LogicalId(), DEFAULT_OWNER, "Default", role, load(role.LogicalId(), DEFAULT_OWNER), None,
        providers);
    } else {
      var spec := specs[i - 4];
      FreshRoute(
        spec.logicalId, spec.ownerId, spec.ownerLabel, spec.role, load(spec.logicalId, spec.ownerId),
        load(spec.logicalId, DEFAULT_OWNER), providers);
    }
  }

  /** Who asks: an extension, about a route extensions have of their own. */
  predicate AsksForItself(logicalId: string, owner: string) {
    RoleOf(logicalId).Some? && ResolutionOwner(RoleOf(logicalId).value, owner) != DEFAULT_OWNER
  }

  /**
   * Two extension requests that resolve to the same provider through different routes get different categories, even
   * ignoring letter case.
   */
  lemma ResolvedRoutesStayApart(
    print_: Uuid -> string, load: (string, string) -> Option<Binding>, specs: seq<RouteSpec>, providers: seq<Provider>,
    logicalA: string, ownerA: string, logicalB: string, ownerB: string)
    requires AsksForItself(logicalA, ownerA) && AsksForItself(logicalB, ownerB)
    requires logicalA != logicalB || OwnerId(ownerA) != OwnerId(ownerB)
    ensures var routes := Routes(print_, load, specs, providers);
      var a, b := Resolve(routes, providers, logicalA, ownerA), Resolve(routes, providers, logicalB, ownerB);
      a.Success? && b.Success? && a.value.record.providerId == b.value.record.providerId
      ==> && a.value.category.Some? && b.value.category.Some?
          && !EqualIgnoreCase(a.value.category.value, b.value.category.value)
  {
    hide RoleOf, Annotated, Resolve, OwnerId, EqualIgnoreCase, FreshRoutes;
    var unannotated := FreshRoutes(load, specs, providers);
    var routes := Routes(print_, load, specs, providers);
    var a, b := Resolve(routes, providers, logicalA, ownerA), Resolve(routes, providers, logicalB, ownerB);
    if a.Success? && b.Success? && a.value.record.providerId == b.value.record.providerId {
      FreshExtensionRoutesHaveCategories(load, specs, providers, 0);
      var i := ResolvedThrough(routes, providers, logicalA, ownerA);
      var j := ResolvedThrough(routes, providers, logicalB, ownerB);
      FreshExtensionRoutesHaveCategories(load, specs, providers, i);
      FreshExtensionRoutesHaveCategories(load, specs, providers, j);
      UnblockedRoutesStayApart(print_, unannotated, i, j);
    }
  }

  lemma ResolvedThrough(routes: seq<Route>, providers: seq<Provider>, logicalId: string, owner: string) returns (i: nat)
    requires RoleOf(logicalId).Some? && Resolve(routes, providers, logicalId, owner).Success?
    ensures i < |routes|
    ensures routes[i].logicalId == logicalId && routes[i].ownerId == ResolutionOwner(RoleOf(logicalId).value, owner)
    ensures var r := Resolve(routes, providers, logicalId, owner).value;
      routes[i].blocker.None? && routes[i].selectedProviderId == Some(r.record.providerId) &&
        routes[i].category == r.category
  {
    hide RoleOf, ForRole, ResolutionOwner;
    var route := FindRoute(routes, logicalId, ResolutionOwner(RoleOf(logicalId).value, owner)).value;
    i :| 0 <= i < |routes| && routes[i] == route;
  }

  /** What annotation leaves unblocked does not collide: same provider, so different categories. */
  lemma UnblockedRoutesStayApart(print_: Uuid -> string, routes: seq<Route>, i: nat, j: nat)
    requires i < |routes| && j < |routes| && i != j
    requires routes[i].ownerId != DEFAULT_OWNER ==> routes[i].category.Some?
    requires routes[j].ownerId != DEFAULT_OWNER ==> routes[j].category.Some?
    ensures var a, b := Annotated(print_, routes)[i], Annotated(print_, routes)[j];
      a.blocker.None? && b.blocker.None? && SameProvider(a, b)
      ==> && a.category.Some? && b.category.Some? && !EqualIgnoreCase(a.category.value, b.category.value)
          && !SameUnsharedPath(a, b)
  {
    hide Annotated, EqualIgnoreCase, ComparablePath;
    AnnotationKeepsIdentity(print_, routes, i);
    AnnotationKeepsIdentity(print_, routes, j);
    if Collide(routes[i], routes[j]) {
      BothCollidingRoutesAreBlocked(print_, routes, i, j);
    }
  }
}
