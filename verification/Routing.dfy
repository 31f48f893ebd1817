// Sticky load balancing of accounts over proxies and migration off deleted proxies:
// internal/proxyservice/router.go. Account and proxy identifiers are numbered in their string order, None is
// the empty route, and whether a proxy may be routed to is decided once per pass.
module Routing {
  type ProxyId = nat
  type AccountId = int

  datatype Option<T> = None | Some(value: T)

  datatype Account = Account(
    identifier: AccountId, proxy: Option<ProxyId>, autoRoute: bool, disabled: bool, hasPassword: bool, token: string)

  datatype Proxy = Proxy(id: ProxyId, disabled: bool, routable: bool, latency: int)

  datatype Change = Change(identifier: AccountId, from: Option<ProxyId>, to: ProxyId)

  // ------------------------------------------------------------ counting assignments

  predicate On(a: Account, p: ProxyId) {
    !a.disabled && a.proxy == Some(p)
  }

  function CountOn(accounts: seq<Account>, p: ProxyId): nat {
    if accounts == [] then 0
    else CountOn(accounts[..|accounts| - 1], p) + if On(accounts[|accounts| - 1], p) then 1 else 0
  }

  lemma {:induction false} CountOnUpdate(accounts: seq<Account>, i: nat, a: Account, p: ProxyId)
    requires i < |accounts|
    ensures CountOn(accounts[i := a], p)
         == CountOn(accounts, p) - (if On(accounts[i], p) then 1 else 0) + (if On(a, p) then 1 else 0)
  {
    var last := |accounts| - 1;
    if i == last {
      assert accounts[i := a][..last] == accounts[..last];
    } else {
      assert accounts[i := a][..last] == accounts[..last][i := a];
      CountOnUpdate(accounts[..last], i, a, p);
    }
  }

  function Get(counts: map<ProxyId, int>, p: ProxyId): int {
    if p in counts then counts[p] else 0
  }

  // ------------------------------------------------------------ choosing a route

  const MAX_INT := 0x7fff_ffff_ffff_ffff

  function EffectiveLatency(latency: int): int {
    if latency <= 0 then MAX_INT else latency
  }

  // The order in which leastAssignedRoute sorts: count, then latency, then identifier.
  predicate Before(available: map<ProxyId, int>, counts: map<ProxyId, int>, p: ProxyId, q: ProxyId)
    requires p in available && q in available
  {
    if Get(counts, p) != Get(counts, q) then Get(counts, p) < Get(counts, q)
    else if EffectiveLatency(available[p]) != EffectiveLatency(available[q]) then
      EffectiveLatency(available[p]) < EffectiveLatency(available[q])
    else p < q
  }

  // p has no more accounts than q. If both have as many and q has a measured latency, that of p is measured and not
  // higher; if those are the same, or neither is measured, p has the smaller identifier.
  predicate LeastAssigned(available: map<ProxyId, int>, counts: map<ProxyId, int>, p: ProxyId, q: ProxyId)
    requires p in available && q in available
  {
    && Get(counts, p) <= Get(counts, q)
    && (Get(counts, p) == Get(counts, q) && 0 < available[q] < MAX_INT ==> 0 < available[p] <= available[q])
    && (Get(counts, p) == Get(counts, q) && (available[p] == available[q] || (available[p] <= 0 && available[q] <= 0)) ==> p <= q)
  }

  // The order puts p before q exactly when p is the less assigned.
  lemma BeforeIsLeastAssigned(available: map<ProxyId, int>, counts: map<ProxyId, int>, p: ProxyId, q: ProxyId)
    requires p in available && q in available && p != q && available[p] < MAX_INT && available[q] < MAX_INT
    ensures Before(available, counts, p, q) <==> LeastAssigned(available, counts, p, q)
  {}

  method LeastAssignedRoute(available: map<ProxyId, int>, counts: map<ProxyId, int>) returns (r: Option<ProxyId>)
    ensures r.None? <==> available == map[]
    ensures r.Some? ==> r.value in available
    ensures r.Some? ==> forall q :: q in available && q != r.value ==> Before(available, counts, r.value, q)
  {
    if available == map[] {
      return None;
    }
    var best :| best in available;
    var todo := available.Keys - {best};
    while todo != {}
      invariant todo <= available.Keys && best in available
      invariant forall q :: q in available && q !in todo && q != best ==> Before(available, counts, best, q)
      decreases |todo|
    {
      var p :| p in todo;
      todo := todo - {p};
      if Before(available, counts, p, best) {
        best := p;
      }
    }
    return Some(best);
  }

  // The usable proxies outside the excluded set, with their latency; a later entry for an id wins.
  function Available(proxies: seq<Proxy>, excluded: set<ProxyId>): (m: map<ProxyId, int>)
    ensures forall p :: p in m ==> p !in excluded
  {
    if proxies == [] then map[]
    else
      var rest, last := Available(proxies[..|proxies| - 1], excluded), proxies[|proxies| - 1];
      if last.routable && last.id !in excluded then rest[last.id := last.latency] else rest
  }

  // Entry i is the last routable one for p.
  predicate LastRoutable(proxies: seq<Proxy>, p: ProxyId, i: nat) {
    && i < |proxies| && proxies[i].id == p && proxies[i].routable
    && forall j :: i < j < |proxies| && proxies[j].id == p ==> !proxies[j].routable
  }

  // An id is available exactly when it is not excluded and has a routable entry, and the last one gives its latency.
  lemma {:induction false} AvailableIsRoutable(proxies: seq<Proxy>, excluded: set<ProxyId>, p: ProxyId)
    ensures p in Available(proxies, excluded) <==> p !in excluded && exists i: nat :: LastRoutable(proxies, p, i)
    ensures forall i: nat :: LastRoutable(proxies, p, i) && p !in excluded ==>
      p in Available(proxies, excluded) && Available(proxies, excluded)[p] == proxies[i].latency
  {
    if proxies != [] {
      var n := |proxies| - 1;
      var front, last := proxies[..n], proxies[n];
      AvailableIsRoutable(front, excluded, p);
      if last.id == p && last.routable {
        assert LastRoutable(proxies, p, n);
      } else {
        forall i: nat | i < n ensures LastRoutable(front, p, i) <==> LastRoutable(proxies, p, i) {
          assert forall j :: 0 <= j < n ==> front[j] == proxies[j];
        }
      }
    }
  }

  // A node that received accounts is at most one above the emptiest available node.
  ghost predicate Balanced(accounts: seq<Account>, available: map<ProxyId, int>, received: set<ProxyId>) {
    forall p, q :: p in received && q in available ==> CountOn(accounts, p) <= CountOn(accounts, q) + 1
  }

  // The running counts are the recomputed ones on every available node.
  ghost predicate CountsExact(counts: map<ProxyId, int>, accounts: seq<Account>, available: map<ProxyId, int>) {
    forall p :: p in available ==> Get(counts, p) == CountOn(accounts, p)
  }

  // Moving an account off an unavailable route adds one to its new node if the account is enabled.
  lemma MoveKeepsCounts(accounts: seq<Account>, counts: map<ProxyId, int>, available: map<ProxyId, int>,
                        i: nat, moved: Account, p: ProxyId)
    requires i < |accounts| && CountsExact(counts, accounts, available)
    requires accounts[i].proxy.None? || accounts[i].proxy.value !in available
    requires moved.proxy == Some(p)
    ensures CountsExact(if moved.disabled then counts else counts[p := Get(counts, p) + 1], accounts[i := moved], available)
    ensures forall q :: q in available ==>
      CountOn(accounts[i := moved], q) == CountOn(accounts, q) + if q == p && !moved.disabled then 1 else 0
  {
    forall q | q in available
      ensures CountOn(accounts[i := moved], q) == CountOn(accounts, q) + if q == p && !moved.disabled then 1 else 0
    {
      CountOnUpdate(accounts, i, moved, q);
    }
  }

  // Moving to the least assigned node keeps the nodes that received accounts balanced.
  lemma MoveKeepsBalance(accounts: seq<Account>, counts: map<ProxyId, int>, available: map<ProxyId, int>,
                         received: set<ProxyId>, i: nat, moved: Account, p: ProxyId)
    requires i < |accounts| && p in available && received <= available.Keys
    requires CountsExact(counts, accounts, available) && Balanced(accounts, available, received)
    requires accounts[i].proxy.None? || accounts[i].proxy.value !in available
    requires forall q :: q in available && q != p ==> Before(available, counts, p, q)
    requires moved.proxy == Some(p)
    ensures Balanced(accounts[i := moved], available, if moved.disabled then received else received + {p})
  {
    MoveKeepsCounts(accounts, counts, available, i, moved, p);
  }

  // ------------------------------------------------------------ one auto-route pass on values

  predicate Considered(a: Account) {
    !a.disabled && a.autoRoute && a.hasPassword
  }

  // A manual or disabled account and one without a password are not the pass's to move.
  predicate Untouchable(a: Account) {
    !a.autoRoute || a.disabled || !a.hasPassword
  }

  predicate OnAvailable(a: Account, available: map<ProxyId, int>) {
    a.proxy.Some? && a.proxy.value in available
  }

  // Every account the pass looks at is on an available node, or there is none.
  predicate Settled(accounts: seq<Account>, available: map<ProxyId, int>) {
    available == map[] || forall i :: 0 <= i < |accounts| && Considered(accounts[i]) ==> OnAvailable(accounts[i], available)
  }

  // b is a after its route changed to an available node: the token is cleared and nothing else changes.
  predicate Rerouted(a: Account, b: Account, available: map<ProxyId, int>) {
    OnAvailable(b, available) && b == a.(proxy := b.proxy, token := "")
  }

  // What one pass may do to one account.
  predicate PassStep(a: Account, b: Account, available: map<ProxyId, int>) {
    b == a || (Considered(a) && !OnAvailable(a, available) && Rerouted(a, b, available))
  }

  // ------------------------------------------------------------ the reported changes

  // What is reported of one account: its move, if it is enabled and has moved.
  function ChangeAt(a: Account, b: Account): seq<Change> {
    if a.disabled || b.proxy == a.proxy || b.proxy.None? then [] else [Change(a.identifier, a.proxy, b.proxy.value)]
  }

  function MoveAt(before: seq<Account>, after: seq<Account>, i: nat): seq<Change> {
    if i < |before| && i < |after| then ChangeAt(before[i], after[i]) else []
  }

  // The moves of the first n accounts of an order.
  function Moves(before: seq<Account>, after: seq<Account>, order: seq<nat>, n: nat): seq<Change>
    requires n <= |order|
  {
    if n == 0 then [] else Moves(before, after, order, n - 1) + MoveAt(before, after, order[n - 1])
  }

  // The indices, each once, by the identifiers of their accounts.
  ghost predicate ByIdentifier(accounts: seq<Account>, indices: set<nat>, order: seq<nat>) {
    && (forall i :: i in order <==> i in indices)
    && (forall j :: 0 <= j < |order| ==> order[j] < |accounts|)
    && (forall j, k :: 0 <= j < k < |order| ==> order[j] != order[k])
    && (forall j, k :: 0 <= j < k < |order| ==> accounts[order[j]].identifier <= accounts[order[k]].identifier)
  }

  // The changes are the moves of the enabled accounts among indices, in the order of their identifiers.
  ghost predicate Reported(before: seq<Account>, after: seq<Account>, indices: set<nat>, changes: seq<Change>) {
    exists order :: ByIdentifier(before, indices, order) && changes == Moves(before, after, order, |order|)
  }

  // The accounts on deleted nodes, by kind, and those that an automatic pass looks at.
  ghost function Affected(accounts: seq<Account>, deleted: set<ProxyId>, automatic: bool): set<nat> {
    set i: nat | i < |accounts| && OnDeleted(accounts[i], deleted) && accounts[i].autoRoute == automatic
  }

  ghost function Candidates(accounts: seq<Account>): set<nat> {
    set i: nat | i < |accounts| && Considered(accounts[i])
  }

  // First the manual moves and then the automatic ones, each group in the order of its identifiers.
  ghost predicate MigrationReported(before: seq<Account>, after: seq<Account>, deleted: set<ProxyId>, changes: seq<Change>) {
    exists first, second :: changes == first + second
      && Reported(before, after, Affected(before, deleted, false), first)
      && Reported(before, after, Affected(before, deleted, true), second)
  }

  // Moves depend only on the accounts they are about.
  lemma {:induction false} MovesKept(before: seq<Account>, middle: seq<Account>, after: seq<Account>, order: seq<nat>, n: nat)
    requires |middle| == |after| && n <= |order|
    requires forall j :: 0 <= j < n && order[j] < |after| ==> after[order[j]] == middle[order[j]]
    ensures Moves(before, after, order, n) == Moves(before, middle, order, n)
  {
    hide ChangeAt;
    if n > 0 {
      MovesKept(before, middle, after, order, n - 1);
    }
  }

  lemma NoneBalanced(accounts: seq<Account>, available: map<ProxyId, int>)
    ensures Balanced(accounts, available, {})
  {}

  lemma BalancedAmong(accounts: seq<Account>, available: map<ProxyId, int>, some: set<ProxyId>, all: set<ProxyId>)
    requires Balanced(accounts, available, all) && some <= all
    ensures Balanced(accounts, available, some)
  {}

  lemma NoMoves(before: seq<Account>, after: seq<Account>, order: seq<nat>)
    ensures Moves(before, after, order, 0) == []
  {}

  lemma DistinctOrder(accounts: seq<Account>, indices: set<nat>, order: seq<nat>)
    requires ByIdentifier(accounts, indices, order)
    ensures forall j, k :: 0 <= j < k < |order| ==> order[j] != order[k]
    ensures forall j :: 0 <= j < |order| ==> order[j] in indices && order[j] < |accounts|
  {
    assert forall j :: 0 <= j < |order| ==> order[j] in order;
  }

  lemma MovesStep(before: seq<Account>, prior: seq<Account>, after: seq<Account>, order: seq<nat>, n: nat)
    requires n < |order| && order[n] < |before| == |prior| == |after| && after == prior[order[n] := after[order[n]]]
    requires forall j, k :: 0 <= j < k < |order| ==> order[j] != order[k]
    ensures Moves(before, after, order, n + 1) ==
      Moves(before, prior, order, n) + ChangeAt(before[order[n]], after[order[n]])
  {
    hide ChangeAt;
    MovesKept(before, prior, after, order, n);
  }

  // The nodes that accounts were moved to.
  ghost function Received(before: seq<Account>, after: seq<Account>): set<ProxyId>
    requires |before| == |after|
  {
    set i | 0 <= i < |after| && after[i] != before[i] && after[i].proxy.Some? :: after[i].proxy.value
  }

  lemma MovedToReceived(before: seq<Account>, after: seq<Account>, i: nat)
    requires |before| == |after| && i < |after| && after[i] != before[i] && after[i].proxy.Some?
    ensures after[i].proxy.value in Received(before, after)
  {}

  // A pass that has handled the first n accounts of its order.
  ghost predicate PassProgress(before: seq<Account>, after: seq<Account>, order: seq<nat>, n: nat,
                               available: map<ProxyId, int>, received: set<ProxyId>)
  {
    && |after| == |before| && n <= |order| && received <= available.Keys
    && (forall i :: 0 <= i < |after| ==> PassStep(before[i], after[i], available))
    && (forall i :: 0 <= i < |after| && after[i] != before[i] ==> after[i].proxy.value in received)
    && (forall m :: n <= m < |order| ==> order[m] < |after| && after[order[m]] == before[order[m]])
    && (available != map[] ==> forall m :: 0 <= m < n ==> order[m] < |after| && OnAvailable(after[order[m]], available))
  }

  // The indices the pass visits, each once.
  ghost predicate VisitsConsidered(before: seq<Account>, order: seq<nat>) {
    && (forall i: nat :: i < |before| && Considered(before[i]) ==> i in order)
    && (forall m :: 0 <= m < |order| ==> order[m] < |before| && Considered(before[order[m]]))
    && (forall j, k :: 0 <= j < k < |order| ==> order[j] != order[k])
  }

  lemma PassStays(before: seq<Account>, after: seq<Account>, order: seq<nat>, n: nat,
                  available: map<ProxyId, int>, received: set<ProxyId>)
    requires PassProgress(before, after, order, n, available, received) && n < |order| && order[n] < |after|
    requires available != map[] ==> OnAvailable(after[order[n]], available)
    ensures PassProgress(before, after, order, n + 1, available, received)
  {}

  lemma PassMoves(before: seq<Account>, after: seq<Account>, order: seq<nat>, n: nat,
                  available: map<ProxyId, int>, received: set<ProxyId>, p: ProxyId)
    requires PassProgress(before, after, order, n, available, received) && VisitsConsidered(before, order)
    requires n < |order| && order[n] < |after| && p in available && !OnAvailable(after[order[n]], available)
    ensures
      var after' := after[order[n] := after[order[n]].(proxy := Some(p), token := "")];
      PassProgress(before, after', order, n + 1, available, received + {p}) && after' != before
  {
    assert Considered(before[order[n]]);
    assert after[order[n]].(proxy := Some(p), token := "") != before[order[n]];
  }

  lemma PassStarts(before: seq<Account>, order: seq<nat>, available: map<ProxyId, int>)
    requires VisitsConsidered(before, order)
    ensures PassProgress(before, before, order, 0, available, {})
    ensures Balanced(before, available, {})
  {}

  lemma VisitedEnabled(before: seq<Account>, after: seq<Account>, order: seq<nat>, n: nat,
                       available: map<ProxyId, int>, received: set<ProxyId>)
    requires PassProgress(before, after, order, n, available, received) && VisitsConsidered(before, order) && n < |order|
    ensures order[n] < |after| && !after[order[n]].disabled && received <= available.Keys
  {}

  lemma VisitedUntouched(before: seq<Account>, after: seq<Account>, order: seq<nat>, n: nat,
                         available: map<ProxyId, int>, received: set<ProxyId>)
    requires PassProgress(before, after, order, n, available, received) && n < |order|
    ensures |after| == |before| && order[n] < |before| && after[order[n]] == before[order[n]]
  {}

  lemma PassShape(before: seq<Account>, after: seq<Account>, order: seq<nat>,
                  available: map<ProxyId, int>, received: set<ProxyId>)
    requires PassProgress(before, after, order, |order|, available, received)
    ensures |after| == |before| && forall i :: 0 <= i < |after| ==> PassStep(before[i], after[i], available)
  {}

  lemma PassEnds(before: seq<Account>, after: seq<Account>, order: seq<nat>,
                 available: map<ProxyId, int>, received: set<ProxyId>)
    requires PassProgress(before, after, order, |order|, available, received) && VisitsConsidered(before, order)
    requires Balanced(after, available, received)
    ensures Settled(after, available)
    ensures Balanced(after, available, Received(before, after))
    ensures Settled(before, available) ==> after == before
  {
    forall i: nat | i < |after| && Considered(after[i]) && available != map[]
      ensures OnAvailable(after[i], available)
    {
      if after[i] == before[i] {
        assert i in order;
      }
    }
    assert Received(before, after) <= received;
    if Settled(before, available) {
      forall i: nat | i < |after|
        ensures after[i] == before[i]
      {
        assert PassStep(before[i], after[i], available);
      }
    }
  }

  // ------------------------------------------------------------ migration off deleted nodes on values

  datatype Refusal = FallbackDeleted | NoFallback | FallbackMissing | FallbackDisabled | AutoRouteOff | NoReplacement

  datatype Outcome = Done(changes: seq<Change>) | Refused(reason: Refusal)

  predicate OnDeleted(a: Account, deleted: set<ProxyId>) {
    a.proxy.Some? && a.proxy.value in deleted
  }

  // The configured proxy with this id; a later entry wins.
  function FindProxy(proxies: seq<Proxy>, id: ProxyId): Option<Proxy> {
    if proxies == [] then None
    else if proxies[|proxies| - 1].id == id then Some(proxies[|proxies| - 1])
    else FindProxy(proxies[..|proxies| - 1], id)
  }

  // Entry i is the last one for id.
  predicate LastEntry(proxies: seq<Proxy>, id: ProxyId, i: nat) {
    i < |proxies| && proxies[i].id == id && forall j :: i < j < |proxies| ==> proxies[j].id != id
  }

  lemma {:induction false} FindProxyFindsLast(proxies: seq<Proxy>, id: ProxyId)
    ensures FindProxy(proxies, id).None? <==> forall i :: 0 <= i < |proxies| ==> proxies[i].id != id
    ensures forall i: nat :: LastEntry(proxies, id, i) ==> FindProxy(proxies, id) == Some(proxies[i])
  {
    if proxies != [] && proxies[|proxies| - 1].id != id {
      var front := proxies[..|proxies| - 1];
      FindProxyFindsLast(front, id);
      assert forall i :: 0 <= i < |front| ==> front[i] == proxies[i];
      forall i: nat | LastEntry(proxies, id, i) ensures FindProxy(proxies, id) == Some(proxies[i]) {
        assert LastEntry(front, id, i);
      }
    }
  }

  // Where an account on a deleted node must end up: manual routes on the fallback, automatic ones on an
  // available node that stays; the token is cleared.
  predicate MigrationStep(a: Account, b: Account, deleted: set<ProxyId>, fallback: Option<ProxyId>, available: map<ProxyId, int>) {
    if !OnDeleted(a, deleted) then b == a
    else if a.autoRoute then Rerouted(a, b, available)
    else fallback.Some? && b == a.(proxy := fallback, token := "")
  }

  // A node with an account that the deletion must move, by kind.
  predicate NeedsMove(accounts: seq<Account>, deleted: set<ProxyId>, automatic: bool) {
    exists i :: 0 <= i < |accounts| && OnDeleted(accounts[i], deleted) && accounts[i].autoRoute == automatic
  }

  // Why a deletion is refused, if it is.
  function Objection(accounts: seq<Account>, proxies: seq<Proxy>, deleted: set<ProxyId>, fallback: Option<ProxyId>, autoRoute: bool)
    : Option<Refusal>
  {
    if deleted == {} then None
    else if fallback.Some? && fallback.value in deleted then Some(FallbackDeleted)
    else if NeedsMove(accounts, deleted, false) && fallback.None? then Some(NoFallback)
    else if NeedsMove(accounts, deleted, false) && FindProxy(proxies, fallback.value).None? then Some(FallbackMissing)
    else if NeedsMove(accounts, deleted, false) && FindProxy(proxies, fallback.value).value.disabled then Some(FallbackDisabled)
    else if NeedsMove(accounts, deleted, true) && !autoRoute then Some(AutoRouteOff)
    else if NeedsMove(accounts, deleted, true) && Available(proxies, deleted) == map[] then Some(NoReplacement)
    else None
  }

  function ObjectionReason(accounts: seq<Account>, proxies: seq<Proxy>, deleted: set<ProxyId>, fallback: Option<ProxyId>,
                           autoRoute: bool): Refusal
  {
    var objection := Objection(accounts, proxies, deleted, fallback, autoRoute);
    if objection.Some? then objection.value else FallbackDeleted
  }

  // A migration with the accounts in pending still to be moved.
  ghost predicate MigrationProgress(before: seq<Account>, after: seq<Account>, pending: set<nat>, deleted: set<ProxyId>,
                                    fallback: Option<ProxyId>, available: map<ProxyId, int>)
  {
    && |after| == |before|
    && (forall i :: i in pending ==> i < |before| && OnDeleted(before[i], deleted))
    && (forall i: nat :: i < |before| ==>
          if i in pending then after[i] == before[i] else MigrationStep(before[i], after[i], deleted, fallback, available))
  }

  ghost function Without(pending: set<nat>, order: seq<nat>): set<nat> {
    set i | i in pending && i !in order
  }

  // The available nodes that enabled automatic accounts were moved to.
  ghost function ReceivedAutomatic(before: seq<Account>, after: seq<Account>, pending: set<nat>, deleted: set<ProxyId>): set<ProxyId>
    requires |before| == |after|
  {
    set i: nat | i < |after| && i !in pending && OnDeleted(before[i], deleted) && before[i].autoRoute
                 && !before[i].disabled && after[i].proxy.Some? :: after[i].proxy.value
  }

  lemma MigrationMoves(before: seq<Account>, after: seq<Account>, pending: set<nat>, deleted: set<ProxyId>,
                       fallback: Option<ProxyId>, available: map<ProxyId, int>, i: nat, p: ProxyId)
    requires MigrationProgress(before, after, pending, deleted, fallback, available) && i in pending && i < |after|
    requires if before[i].autoRoute then p in available else fallback == Some(p)
    ensures MigrationProgress(before, after[i := after[i].(proxy := Some(p), token := "")], pending - {i}, deleted, fallback, available)
    ensures ReceivedAutomatic(before, after[i := after[i].(proxy := Some(p), token := "")], pending - {i}, deleted)
         <= ReceivedAutomatic(before, after, pending, deleted)
            + if before[i].autoRoute && !before[i].disabled then {p} else {}
  {}

  class Config {
    var accounts: seq<Account>
    var proxies: seq<Proxy>
    var fallback: Option<ProxyId>
    var autoRoute: bool

    constructor (accounts: seq<Account>, proxies: seq<Proxy>, fallback: Option<ProxyId>, autoRoute: bool)
      ensures this.accounts == accounts && this.proxies == proxies && this.fallback == fallback && this.autoRoute == autoRoute
    {
      this.accounts, this.proxies, this.fallback, this.autoRoute := accounts, proxies, fallback, autoRoute;
    }

    // ProxyAssignmentCounts and activeAssignmentsExcluding: enabled accounts per node outside the excluded set.
    method AssignmentCounts(excluded: set<ProxyId>) returns (counts: map<ProxyId, int>)
      ensures forall p :: Get(counts, p) == if p in excluded then 0 else CountOn(accounts, p)
    {
      counts := map[];
      for i := 0 to |accounts|
        invariant forall p :: Get(counts, p) == if p in excluded then 0 else CountOn(accounts[..i], p)
      {
        assert accounts[..i + 1][..i] == accounts[..i];
        var a := accounts[i];
        if !a.disabled && a.proxy.Some? && a.proxy.value !in excluded {
          counts := counts[a.proxy.value := Get(counts, a.proxy.value) + 1];
        }
      }
      assert accounts[..|accounts|] == accounts;
    }

    // The indices in the order of their accounts' identifiers; ties are in any order.
    method InOrder(indices: set<nat>) returns (order: seq<nat>)
      requires forall i :: i in indices ==> i < |accounts|
      ensures forall i :: i in order <==> i in indices
      ensures forall j :: 0 <= j < |order| ==> order[j] in indices
      ensures forall j, k :: 0 <= j < k < |order| ==> order[j] != order[k]
      ensures forall j, k :: 0 <= j < k < |order| ==> accounts[order[j]].identifier <= accounts[order[k]].identifier
    {
      order := [];
      var todo := indices;
      while todo != {}
        invariant todo <= indices
        invariant forall i :: i in order <==> i in indices && i !in todo
        invariant forall j :: 0 <= j < |order| ==> order[j] in indices
        invariant forall j, k :: 0 <= j < k < |order| ==> order[j] != order[k]
        invariant forall j, k :: 0 <= j < k < |order| ==> accounts[order[j]].identifier <= accounts[order[k]].identifier
        invariant forall j, i :: 0 <= j < |order| && i in todo ==> accounts[order[j]].identifier <= accounts[i].identifier
        decreases |todo|
      {
        var first := FirstOf(todo);
        order := order + [first];
        todo := todo - {first};
      }
    }

    method FirstOf(indices: set<nat>) returns (first: nat)
      requires indices != {} && forall i :: i in indices ==> i < |accounts|
      ensures first in indices && forall i :: i in indices ==> accounts[first].identifier <= accounts[i].identifier
    {
      first :| first in indices;
      var todo := indices - {first};
      while todo != {}
        invariant todo <= indices && first in indices
        invariant forall i :: i in indices - todo ==> accounts[first].identifier <= accounts[i].identifier
        decreases |todo|
      {
        var i :| i in todo;
        todo := todo - {i};
        if accounts[i].identifier < accounts[first].identifier {
          first := i;
        }
      }
    }

    // One iteration of the pass.
    method RouteOne(order: seq<nat>, n: nat, available: map<ProxyId, int>, counts: map<ProxyId, int>,
                    ghost before: seq<Account>, ghost received: set<ProxyId>)
      returns (change: Option<Change>, counts': map<ProxyId, int>, ghost received': set<ProxyId>)
      requires PassProgress(before, accounts, order, n, available, received) && VisitsConsidered(before, order) && n < |order|
      requires CountsExact(counts, accounts, available) && Balanced(accounts, available, received)
      modifies `accounts
      ensures PassProgress(before, accounts, order, n + 1, available, received')
      ensures CountsExact(counts', accounts, available) && Balanced(accounts, available, received')
      ensures if change.None? then accounts == old(accounts) else accounts != before
      ensures |accounts| == |old(accounts)| == |before| && order[n] < |before|
      ensures accounts == old(accounts)[order[n] := accounts[order[n]]]
      ensures (if change.Some? then [change.value] else []) == ChangeAt(before[order[n]], accounts[order[n]])
    {
      VisitedUntouched(before, accounts, order, n, available, received);
      VisitedEnabled(before, accounts, order, n, available, received);
      hide Before, PassProgress, VisitsConsidered, CountsExact, Balanced;
      var index := order[n];
      var account := accounts[index];
      if OnAvailable(account, available) {
        PassStays(before, accounts, order, n, available, received);
        return None, counts, received;
      }
      var next := LeastAssignedRoute(available, counts);
      if next.None? {
        PassStays(before, accounts, order, n, available, received);
        return None, counts, received;
      }
      var moved := account.(proxy := next, token := "");
      MoveKeepsCounts(accounts, counts, available, index, moved, next.value);
      MoveKeepsBalance(accounts, counts, available, received, index, moved, next.value);
      PassMoves(before, accounts, order, n, available, received, next.value);
      accounts := accounts[index := moved];
      return Some(Change(account.identifier, account.proxy, next.value)),
             counts[next.value := Get(counts, next.value) + 1], received + {next.value};
    }

    // applyAutoRouteChanges. Accounts on available nodes stay; the others go one by one to the least assigned
    // node; afterwards every account it looks at is on an available node, so a second pass finds nothing.
    method ApplyAutoRouteChanges() returns (changes: seq<Change>)
      modifies `accounts
      ensures |accounts| == |old(accounts)|
      ensures !autoRoute ==> accounts == old(accounts)
      ensures forall i :: 0 <= i < |accounts| ==> PassStep(old(accounts)[i], accounts[i], Available(proxies, {}))
      ensures forall i :: 0 <= i < |accounts| && Untouchable(old(accounts)[i]) ==> accounts[i] == old(accounts)[i]
      ensures autoRoute ==> Settled(accounts, Available(proxies, {}))
      ensures old(Settled(accounts, Available(proxies, {}))) ==> accounts == old(accounts)
      ensures Balanced(accounts, Available(proxies, {}), Received(old(accounts), accounts))
      ensures changes == [] <==> accounts == old(accounts)
      ensures autoRoute ==>
        Reported(old(accounts), accounts, Candidates(old(accounts)), changes)
    {
      changes := [];
      if !autoRoute {
        return;
      }
      var available: map<ProxyId, int> := Available(proxies, {});
      var counts: map<ProxyId, int> := AssignmentCounts({});
      var order := InOrder(set i: nat | i < |accounts| && Considered(accounts[i]));
      assert VisitsConsidered(accounts, order);
      assert ByIdentifier(accounts, Candidates(accounts), order);
      hide Available, Before, PassProgress, VisitsConsidered, CountsExact, Balanced, Moves, ByIdentifier, Candidates, Settled,
        PassStep, Received;
      DistinctOrder(accounts, Candidates(accounts), order);
      ghost var received;
      changes, received := RoutePass(order, available, counts);
      PassEnds(old(accounts), accounts, order, available, received);
      PassShape(old(accounts), accounts, order, available, received);
    }

    // The loop over the accounts of the pass.
    method RoutePass(order: seq<nat>, available: map<ProxyId, int>, counts: map<ProxyId, int>)
      returns (changes: seq<Change>, ghost received: set<ProxyId>)
      requires VisitsConsidered(accounts, order) && CountsExact(counts, accounts, available)
      requires forall j, k :: 0 <= j < k < |order| ==> order[j] != order[k]
      modifies `accounts
      ensures PassProgress(old(accounts), accounts, order, |order|, available, received)
      ensures Balanced(accounts, available, received)
      ensures changes == Moves(old(accounts), accounts, order, |order|)
      ensures changes == [] <==> accounts == old(accounts)
    {
      hide Before, PassProgress, VisitsConsidered, CountsExact, Balanced, Moves, ChangeAt;
      changes, received := [], {};
      var counts' := counts;
      PassStarts(accounts, order, available);
      NoMoves(accounts, accounts, order);
      for n := 0 to |order|
        invariant PassProgress(old(accounts), accounts, order, n, available, received)
        invariant CountsExact(counts', accounts, available) && Balanced(accounts, available, received)
        invariant changes == [] <==> accounts == old(accounts)
        invariant |accounts| == |old(accounts)| && changes == Moves(old(accounts), accounts, order, n)
      {
        ghost var prior := accounts;
        var change;
        change, counts', received := RouteOne(order, n, available, counts', old(accounts), received);
        MovesStep(old(accounts), prior, accounts, order, n);
        if change.Some? {
          changes := changes + [change.value];
        }
      }
    }

    // Move one pending account to p and count it there if it is enabled.
    method MigrateOne(index: nat, p: ProxyId, counts: map<ProxyId, int>, deleted: set<ProxyId>,
                      ghost before: seq<Account>, ghost pending: set<nat>, ghost available: map<ProxyId, int>)
      returns (change: Option<Change>, counts': map<ProxyId, int>)
      requires MigrationProgress(before, accounts, pending, deleted, fallback, available)
      requires index in pending && index < |accounts| && p !in deleted
      requires if before[index].autoRoute then p in available else fallback == Some(p)
      requires CountsExact(counts, accounts, available) && forall q :: q in available ==> q !in deleted
      modifies `accounts
      ensures MigrationProgress(before, accounts, pending - {index}, deleted, fallback, available)
      ensures CountsExact(counts', accounts, available)
      ensures accounts == old(accounts)[index := old(accounts)[index].(proxy := Some(p), token := "")]
      ensures change == if before[index].disabled then None
                        else Some(Change(before[index].identifier, before[index].proxy, p))
      ensures |accounts| == |before| && (if change.Some? then [change.value] else []) == ChangeAt(before[index], accounts[index])
    {
      MigrationBounds(before, accounts, pending, deleted, fallback, available);
      var account := accounts[index];
      var moved := account.(proxy := Some(p), token := "");
      MigrationMoves(before, accounts, pending, deleted, fallback, available, index, p);
      MoveKeepsCounts(accounts, counts, available, index, moved, p);
      accounts := accounts[index := moved];
      if account.disabled {
        return None, counts;
      }
      return Some(Change(account.identifier, account.proxy, p)), counts[p := Get(counts, p) + 1];
    }

    // The manual accounts go to the fallback.
    method MigrateManual(order: seq<nat>, target: ProxyId, counts: map<ProxyId, int>, deleted: set<ProxyId>,
                         ghost pending: set<nat>, ghost available: map<ProxyId, int>)
      returns (changes: seq<Change>, counts': map<ProxyId, int>)
      requires MigrationProgress(accounts, accounts, pending, deleted, fallback, available)
      requires fallback == Some(target) && target !in deleted
      requires forall j :: 0 <= j < |order| ==> order[j] in pending && !accounts[order[j]].autoRoute
      requires forall j, k :: 0 <= j < k < |order| ==> order[j] != order[k]
      requires CountsExact(counts, accounts, available) && forall q :: q in available ==> q !in deleted
      modifies `accounts
      ensures MigrationProgress(old(accounts), accounts, Without(pending, order), deleted, fallback, available)
      ensures CountsExact(counts', accounts, available)
      ensures forall c :: c in changes ==> c.to == target
      ensures |accounts| == |old(accounts)| && changes == Moves(old(accounts), accounts, order, |order|)
    {
      MigrationBounds(accounts, accounts, pending, deleted, fallback, available);
      ghost var before := accounts;
      changes, counts' := [], counts;
      ghost var left := pending;
      for n := 0 to |order|
        invariant left == Without(pending, order[..n])
        invariant MigrationProgress(before, accounts, left, deleted, fallback, available)
        invariant CountsExact(counts', accounts, available)
        invariant forall c :: c in changes ==> c.to == target
        invariant |accounts| == |before| && changes == Moves(before, accounts, order, n)
      {
        hide MigrationProgress, CountsExact, Moves, ChangeAt;
        ghost var prior := accounts;
        MigrationBounds(before, accounts, left, deleted, fallback, available);
        var change;
        change, counts' := MigrateOne(order[n], target, counts', deleted, before, left, available);
        MovesStep(before, prior, accounts, order, n);
        if change.Some? {
          changes := changes + [change.value];
        }
        assert order[..n + 1] == order[..n] + [order[n]];
        left := left - {order[n]};
      }
      assert order[..|order|] == order;
    }

    // The automatic accounts go to the least assigned available nodes.
    method MigrateAutomatic(order: seq<nat>, available: map<ProxyId, int>, counts: map<ProxyId, int>, deleted: set<ProxyId>,
                            ghost before: seq<Account>, ghost pending: set<nat>)
      returns (changes: seq<Change>)
      requires MigrationProgress(before, accounts, pending, deleted, fallback, available)
      requires forall j :: 0 <= j < |order| ==> order[j] in pending && order[j] < |before| && before[order[j]].autoRoute
      requires forall j, k :: 0 <= j < k < |order| ==> order[j] != order[k]
      requires order == [] || available != map[]
      requires CountsExact(counts, accounts, available) && forall q :: q in available ==> q !in deleted
      requires |before| == |accounts| && ReceivedAutomatic(before, accounts, pending, deleted) == {}
      modifies `accounts
      ensures MigrationProgress(before, accounts, Without(pending, order), deleted, fallback, available)
      ensures |before| == |accounts|
      ensures Balanced(accounts, available, ReceivedAutomatic(before, accounts, Without(pending, order), deleted))
      ensures forall c :: c in changes ==> c.to in available
      ensures changes == Moves(before, accounts, order, |order|)
    {
      hide MigrationProgress, CountsExact, Balanced, ReceivedAutomatic, Before, Moves, ChangeAt;
      NoneBalanced(accounts, available);
      NoMoves(before, accounts, order);
      changes := [];
      var counts' := counts;
      ghost var left := pending;
      ghost var received: set<ProxyId> := {};
      for n := 0 to |order|
        invariant left == Without(pending, order[..n])
        invariant MigrationProgress(before, accounts, left, deleted, fallback, available) && |before| == |accounts|
        invariant CountsExact(counts', accounts, available)
        invariant received <= available.Keys && Balanced(accounts, available, received)
        invariant ReceivedAutomatic(before, accounts, left, deleted) <= received
        invariant forall c :: c in changes ==> c.to in available
        invariant changes == Moves(before, accounts, order, n)
      {
        ghost var prior := accounts;
        MigrationBounds(before, accounts, left, deleted, fallback, available);
        var next := LeastAssignedRoute(available, counts');
        // A replacement was required to exist before anything moved.
        if next.None? {
          assert false;
        }
        ghost var moved := accounts[order[n]].(proxy := next, token := "");
        MoveKeepsBalance(accounts, counts', available, received, order[n], moved, next.value);
        MigrationMoves(before, accounts, left, deleted, fallback, available, order[n], next.value);
        var change;
        change, counts' := MigrateOne(order[n], next.value, counts', deleted, before, left, available);
        MovesStep(before, prior, accounts, order, n);
        if change.Some? {
          changes := changes + [change.value];
        }
        received := if before[order[n]].disabled then received else received + {next.value};
        assert order[..n + 1] == order[..n] + [order[n]];
        left := left - {order[n]};
      }
      assert order[..|order|] == order;
      BalancedAmong(accounts, available, ReceivedAutomatic(before, accounts, left, deleted), received);
    }

    // ReassignDeletedProxyRoutes. Either a reason is given and no account changes, or every account that was on
    // a deleted node, enabled or not, has a new route and a cleared token and no other account changes.
    method ReassignDeleted(deleted: set<ProxyId>) returns (r: Outcome)
      modifies `accounts
      ensures r.Refused? <==> old(Objection(accounts, proxies, deleted, fallback, autoRoute)).Some?
      ensures r.Refused? ==> old(Objection(accounts, proxies, deleted, fallback, autoRoute)) == Some(r.reason)
      ensures r.Refused? ==> accounts == old(accounts)
      ensures r.Done? ==> |accounts| == |old(accounts)|
      ensures r.Done? ==> forall i :: 0 <= i < |accounts| ==>
        MigrationStep(old(accounts)[i], accounts[i], deleted, fallback, Available(proxies, deleted))
      ensures r.Done? ==> forall i :: 0 <= i < |accounts| ==> !OnDeleted(accounts[i], deleted)
      ensures r.Done? ==> forall i :: 0 <= i < |accounts| ==> (accounts[i].proxy.None? <==> old(accounts)[i].proxy.None?)
      ensures r.Done? ==>
        Balanced(accounts, Available(proxies, deleted), ReceivedAutomatic(old(accounts), accounts, {}, deleted))
      ensures r.Done? ==> MigrationReported(old(accounts), accounts, deleted, r.changes)
    {
      ghost var before := accounts;
      var available: map<ProxyId, int> := Available(proxies, deleted);
      if deleted == {} {
        NothingReported(accounts);
        return Done([]);
      }
      if fallback.Some? && fallback.value in deleted {
        return Refused(FallbackDeleted);
      }
      var manual := set i: nat | i < |accounts| && OnDeleted(accounts[i], deleted) && !accounts[i].autoRoute;
      var automatic := set i: nat | i < |accounts| && OnDeleted(accounts[i], deleted) && accounts[i].autoRoute;
      assert manual != {} <==> NeedsMove(accounts, deleted, false) by { PendingIsNeedsMove(accounts, deleted, false, manual); }
      assert automatic != {} <==> NeedsMove(accounts, deleted, true) by { PendingIsNeedsMove(accounts, deleted, true, automatic); }
      hide NeedsMove, MigrationProgress, MigrationStep, Balanced, MigrationReported, Available;
      if manual != {} {
        if fallback.None? {
          return Refused(NoFallback);
        }
        var target := FindProxy(proxies, fallback.value);
        if target.None? {
          return Refused(FallbackMissing);
        }
        if target.value.disabled {
          return Refused(FallbackDisabled);
        }
      }
      if automatic != {} && !autoRoute {
        return Refused(AutoRouteOff);
      }
      if automatic != {} && available == map[] {
        return Refused(NoReplacement);
      }
      r := Migrate(deleted, available, manual, automatic);
      MigrationEnds(before, accounts, deleted, fallback, available);
    }

    // The moves themselves, once nothing objects.
    method Migrate(deleted: set<ProxyId>, available: map<ProxyId, int>, manual: set<nat>, automatic: set<nat>) returns (r: Outcome)
      requires available == Available(proxies, deleted)
      requires manual == set i: nat | i < |accounts| && OnDeleted(accounts[i], deleted) && !accounts[i].autoRoute
      requires automatic == set i: nat | i < |accounts| && OnDeleted(accounts[i], deleted) && accounts[i].autoRoute
      requires manual != {} ==> fallback.Some? && fallback.value !in deleted
      requires automatic != {} ==> available != map[]
      modifies `accounts
      ensures r.Done? && |accounts| == |old(accounts)|
      ensures MigrationProgress(old(accounts), accounts, {}, deleted, fallback, available)
      ensures Balanced(accounts, available, ReceivedAutomatic(old(accounts), accounts, {}, deleted))
      ensures MigrationReported(old(accounts), accounts, deleted, r.changes)
    {
      ghost var before := accounts;
      ghost var pending := manual + automatic;
      assert manual == Affected(accounts, deleted, false) && automatic == Affected(accounts, deleted, true);
      var counts: map<ProxyId, int> := AssignmentCounts(deleted);
      var manualOrder := InOrder(manual);
      var automaticOrder := InOrder(automatic);
      assert ByIdentifier(accounts, manual, manualOrder) && ByIdentifier(accounts, automatic, automaticOrder);
      assert CountsExact(counts, accounts, available);
      assert MigrationProgress(accounts, accounts, pending, deleted, fallback, available);
      hide Available, CountsExact, Balanced, Moves, ByIdentifier, MigrationStep, MigrationReported, Affected;
      var changes: seq<Change> := [];
      if manual != {} {
        changes, counts := MigrateManual(manualOrder, fallback.value, counts, deleted, pending, available);
      } else {
        NonEmptyOrder(before, manual, manualOrder);
        NoMoves(before, accounts, manualOrder);
      }
      assert (if manual != {} then Without(pending, manualOrder) else pending) == automatic;
      ghost var middle := accounts;
      NoAutomaticYet(before, accounts, automatic, deleted);
      assert automaticOrder != [] ==> automaticOrder[0] in automatic;
      var more := MigrateAutomatic(automaticOrder, available, counts, deleted, before, automatic);
      assert Without(automatic, automaticOrder) == {};
      BothReported(before, middle, accounts, manualOrder, automaticOrder, deleted, fallback, available);
      return Done(changes + more);
    }

    // ReassignSubscriptionRemovedRoutes. A removed fallback is dropped when no manual account needs it; the late
    // check for accounts left on a removed proxy never fires. A refusal leaves every account as it was, and the
    // fallback too unless it was itself removed.
    method ReassignSubscriptionRemoved(deleted: set<ProxyId>) returns (r: Outcome)
      modifies `accounts, `fallback
      ensures r.Refused? ==> accounts == old(accounts)
      ensures fallback == if deleted != {} && old(fallback).Some? && old(fallback).value in deleted && !old(NeedsMove(accounts, deleted, false))
                          then None else old(fallback)
      ensures r.Done? ==> |accounts| == |old(accounts)| && (fallback.Some? ==> fallback.value !in deleted)
      ensures r.Done? ==> forall i :: 0 <= i < |accounts| ==>
        MigrationStep(old(accounts)[i], accounts[i], deleted, fallback, Available(proxies, deleted))
      ensures r.Done? ==> forall i :: 0 <= i < |accounts| ==> !OnDeleted(accounts[i], deleted)
      ensures r.Done? ==>
        Balanced(accounts, Available(proxies, deleted), ReceivedAutomatic(old(accounts), accounts, {}, deleted))
      ensures r.Done? ==> MigrationReported(old(accounts), accounts, deleted, r.changes)
      ensures r.Refused? ==>
        r.reason == if old(fallback).Some? && old(fallback).value in deleted && old(NeedsMove(accounts, deleted, false))
                    then FallbackDeleted else ObjectionReason(old(accounts), proxies, deleted, fallback, autoRoute)
      ensures r.Refused? <==>
        || (deleted != {} && old(fallback).Some? && old(fallback).value in deleted && old(NeedsMove(accounts, deleted, false)))
        || Objection(old(accounts), proxies, deleted, fallback, autoRoute).Some?
    {
      if deleted == {} {
        NothingReported(accounts);
        return Done([]);
      }
      var fallbackRemoved := fallback.Some? && fallback.value in deleted;
      var manualAffected := NeedsMove(accounts, deleted, false);
      if fallbackRemoved && manualAffected {
        return Refused(FallbackDeleted);
      }
      if fallbackRemoved {
        fallback := None;
      }
      hide NeedsMove, Objection, MigrationStep, Balanced, MigrationReported;
      r := ReassignDeleted(deleted);
      if r.Done? && exists i :: 0 <= i < |accounts| && OnDeleted(accounts[i], deleted) {
        assert false;
      }
    }
  }

  lemma NothingReported(accounts: seq<Account>)
    ensures MigrationReported(accounts, accounts, {}, [])
  {
    NoMoves(accounts, accounts, []);
    assert Affected(accounts, {}, false) == {} && Affected(accounts, {}, true) == {};
    assert ByIdentifier(accounts, {}, []);
    assert Reported(accounts, accounts, {}, []);
    var none: seq<Change> := [];
    assert none == none + none;
  }

  lemma NonEmptyOrder(accounts: seq<Account>, indices: set<nat>, order: seq<nat>)
    requires ByIdentifier(accounts, indices, order)
    ensures order != [] ==> indices != {}
  {
    if order != [] {
      assert order[0] in order;
    }
  }

  // A finished migration leaves no account on a deleted node and empties no route.
  lemma MigrationEnds(before: seq<Account>, after: seq<Account>, deleted: set<ProxyId>, fallback: Option<ProxyId>,
                      available: map<ProxyId, int>)
    requires MigrationProgress(before, after, {}, deleted, fallback, available)
    requires fallback.Some? ==> fallback.value !in deleted
    requires forall p :: p in available ==> p !in deleted
    ensures |after| == |before|
    ensures forall i :: 0 <= i < |after| ==> MigrationStep(before[i], after[i], deleted, fallback, available)
    ensures forall i :: 0 <= i < |after| ==> !OnDeleted(after[i], deleted)
    ensures forall i :: 0 <= i < |after| ==> (after[i].proxy.None? <==> before[i].proxy.None?)
  {}

  // The two groups of moves make up the report.
  lemma BothReported(before: seq<Account>, middle: seq<Account>, after: seq<Account>, manual: seq<nat>, automatic: seq<nat>,
                     deleted: set<ProxyId>, fallback: Option<ProxyId>, available: map<ProxyId, int>)
    requires ByIdentifier(before, Affected(before, deleted, false), manual)
    requires ByIdentifier(before, Affected(before, deleted, true), automatic)
    requires MigrationProgress(before, middle, Affected(before, deleted, true), deleted, fallback, available)
    requires MigrationProgress(before, after, {}, deleted, fallback, available)
    ensures MigrationReported(before, after, deleted,
                              Moves(before, middle, manual, |manual|) + Moves(before, after, automatic, |automatic|))
  {
    hide Moves, ByIdentifier, MigrationProgress, Affected;
    ManualStay(before, middle, after, manual, Affected(before, deleted, true), deleted, fallback, available);
    var first, second := Moves(before, middle, manual, |manual|), Moves(before, after, automatic, |automatic|);
    assert Reported(before, after, Affected(before, deleted, false), first);
    assert Reported(before, after, Affected(before, deleted, true), second);
  }

  // A manual account that has been moved is where it will stay.
  lemma ManualStay(before: seq<Account>, middle: seq<Account>, after: seq<Account>, order: seq<nat>, automatic: set<nat>,
                   deleted: set<ProxyId>, fallback: Option<ProxyId>, available: map<ProxyId, int>)
    requires ByIdentifier(before, Affected(before, deleted, false), order)
    requires automatic == Affected(before, deleted, true)
    requires MigrationProgress(before, middle, automatic, deleted, fallback, available)
    requires MigrationProgress(before, after, {}, deleted, fallback, available)
    ensures Moves(before, after, order, |order|) == Moves(before, middle, order, |order|)
  {
    DistinctOrder(before, Affected(before, deleted, false), order);
    hide Moves, ByIdentifier;
    MovesKept(before, middle, after, order, |order|);
  }

  lemma PendingIsNeedsMove(accounts: seq<Account>, deleted: set<ProxyId>, automatic: bool, pending: set<nat>)
    requires pending == set i: nat | i < |accounts| && OnDeleted(accounts[i], deleted) && accounts[i].autoRoute == automatic
    ensures pending != {} <==> NeedsMove(accounts, deleted, automatic)
  {
    if NeedsMove(accounts, deleted, automatic) {
      var i :| 0 <= i < |accounts| && OnDeleted(accounts[i], deleted) && accounts[i].autoRoute == automatic;
      assert i in pending;
    }
  }

  // While every automatic account on a deleted node is pending, none has been received anywhere.
  lemma NoAutomaticYet(before: seq<Account>, after: seq<Account>, pending: set<nat>, deleted: set<ProxyId>)
    requires |before| == |after|
    requires forall i: nat :: i < |before| && OnDeleted(before[i], deleted) && before[i].autoRoute ==> i in pending
    ensures ReceivedAutomatic(before, after, pending, deleted) == {}
  {}

  lemma MigrationBounds(before: seq<Account>, after: seq<Account>, pending: set<nat>, deleted: set<ProxyId>,
                        fallback: Option<ProxyId>, available: map<ProxyId, int>)
    requires MigrationProgress(before, after, pending, deleted, fallback, available)
    ensures |after| == |before| && forall i :: i in pending ==> i < |before| && after[i] == before[i] && OnDeleted(before[i], deleted)
  {}
}
