// The account slot allocator of internal/account (pool_acquire.go, pool_core.go, pool_limits.go,
// pool_waiters.go) and the retry loop of internal/auth/request.go. Accounts are named by identifier, the
// form in which slots are counted and released.
module AccountPool {
  type Id(==, !new)
  type Waiter = nat

  datatype Option<T> = None | Some(value: T)

  // ------------------------------------------------------------ counting slots

  function Count(inUse: map<Id, nat>, id: Id): nat {
    if id in inUse then inUse[id] else 0
  }

  ghost function Total(inUse: map<Id, nat>): nat {
    if inUse == map[] then 0
    else
      var id :| id in inUse;
      inUse[id] + Total(inUse - {id})
  }

  lemma {:induction false} TotalRemove(inUse: map<Id, nat>, id: Id)
    requires id in inUse
    ensures Total(inUse) == inUse[id] + Total(inUse - {id})
    decreases |inUse|
  {
    var c :| c in inUse && Total(inUse) == inUse[c] + Total(inUse - {c});
    if c != id {
      TotalRemove(inUse - {c}, id);
      TotalRemove(inUse - {id}, c);
      assert inUse - {c} - {id} == inUse - {id} - {c};
    }
  }

  // The counters are the multiplicities of the outstanding leases.
  ghost predicate Matches(inUse: map<Id, nat>, leases: multiset<Id>) {
    && (forall id :: leases[id] == Count(inUse, id))
    && (forall id :: id in inUse ==> inUse[id] > 0)
  }

  lemma {:induction false} TotalIsLeases(inUse: map<Id, nat>, leases: multiset<Id>)
    requires Matches(inUse, leases)
    ensures Total(inUse) == |leases|
    decreases |inUse|
  {
    if inUse == map[] {
      assert leases == multiset{};
    } else {
      var id :| id in inUse && Total(inUse) == inUse[id] + Total(inUse - {id});
      TotalIsLeases(inUse - {id}, leases[id := 0]);
    }
  }

  // ------------------------------------------------------------ the rotating queue

  // The first index of id, or |queue|.
  function Position(queue: seq<Id>, id: Id): (p: nat)
    ensures p <= |queue|
    ensures p < |queue| ==> queue[p] == id
    ensures forall i :: 0 <= i < p ==> queue[i] != id
  {
    if queue == [] then 0 else if queue[0] == id then 0 else 1 + Position(queue[1..], id)
  }

  // bumpQueue: the first occurrence moves to the back.
  function Bump(queue: seq<Id>, id: Id): seq<Id> {
    var p := Position(queue, id);
    if p == |queue| then queue else queue[..p] + queue[p + 1..] + [id]
  }

  lemma BumpPermutes(queue: seq<Id>, id: Id)
    ensures multiset(Bump(queue, id)) == multiset(queue)
    ensures |Bump(queue, id)| == |queue|
  {
    var p := Position(queue, id);
    if p < |queue| {
      assert queue == queue[..p] + [id] + queue[p + 1..];
    }
  }

  lemma PositionIs(queue: seq<Id>, id: Id, p: nat)
    requires p <= |queue| && (p < |queue| ==> queue[p] == id) && forall i :: 0 <= i < p ==> queue[i] != id
    ensures Position(queue, id) == p
  {}

  // Granting another account never pushes id back, and moves id forward when that account was ahead of it.
  lemma BumpMovesForward(queue: seq<Id>, id: Id, other: Id)
    requires id in queue && other != id
    ensures Position(Bump(queue, other), id)
         == Position(queue, id) - (if Position(queue, other) < Position(queue, id) then 1 else 0)
  {
    var p, o := Position(queue, id), Position(queue, other);
    var bumped := Bump(queue, other);
    if o == |queue| {
    } else if o < p {
      assert bumped[p - 1] == id;
      PositionIs(bumped, id, p - 1);
    } else {
      assert bumped[p] == id;
      PositionIs(bumped, id, p);
    }
  }

  // Grants of a run: an untargeted one takes the first eligible account of the queue, a targeted one names it.
  datatype Grant = Untargeted(chosen: Id, eligible: set<Id>) | Targeted(chosen: Id)

  ghost predicate Legal(queue: seq<Id>, g: Grant) {
    g.Untargeted? ==>
      && g.chosen in queue && g.chosen in g.eligible
      && forall i :: 0 <= i < Position(queue, g.chosen) ==> queue[i] !in g.eligible
  }

  ghost predicate LegalRun(queue: seq<Id>, run: seq<Grant>)
    decreases |run|
  {
    run == [] || (Legal(queue, run[0]) && LegalRun(Bump(queue, run[0].chosen), run[1..]))
  }

  function UntargetedGrants(run: seq<Grant>): nat {
    if run == [] then 0 else (if run[0].Untargeted? then 1 else 0) + UntargetedGrants(run[1..])
  }

  // An account that is passed over while eligible was ahead-chosen at most Position times.
  lemma {:induction false} PassedOverBound(queue: seq<Id>, run: seq<Grant>, id: Id)
    requires LegalRun(queue, run) && id in queue
    requires forall i :: 0 <= i < |run| ==> run[i].chosen != id
    requires forall i :: 0 <= i < |run| && run[i].Untargeted? ==> id in run[i].eligible
    ensures UntargetedGrants(run) <= Position(queue, id)
    decreases |run|
  {
    hide Bump;
    if run != [] {
      var g := run[0];
      BumpMovesForward(queue, id, g.chosen);
      BumpPermutes(queue, g.chosen);
      assert id in multiset(Bump(queue, g.chosen));
      if g.Untargeted? {
        assert Position(queue, g.chosen) < Position(queue, id);
      }
      PassedOverBound(Bump(queue, g.chosen), run[1..], id);
    }
  }

  // Within |queue| untargeted grants, however many targeted ones come between, an account that stays
  // eligible is granted.
  lemma GrantedWithinQueueLength(queue: seq<Id>, run: seq<Grant>, id: Id)
    requires LegalRun(queue, run) && id in queue && UntargetedGrants(run) >= |queue|
    requires forall i :: 0 <= i < |run| && run[i].Untargeted? ==> id in run[i].eligible
    ensures exists i :: 0 <= i < |run| && run[i].chosen == id
  {
    if forall i :: 0 <= i < |run| ==> run[i].chosen != id {
      PassedOverBound(queue, run, id);
    }
  }

  // ------------------------------------------------------------ the locked operations on values

  // The state the locked operations decide on: the configured accounts, those disabled, those whose health
  // blocks them now, the queue, the counters and the two caps.
  datatype Slots = Slots(
    known: set<Id>, disabled: set<Id>, blocked: set<Id>, queue: seq<Id>, inUse: map<Id, nat>,
    perAccount: int, global: int)

  // canAcquireIDLocked.
  ghost predicate CanTake(s: Slots, id: Id) {
    && id in s.known && id !in s.disabled && id !in s.blocked
    && Count(s.inUse, id) < s.perAccount
    && (s.global > 0 ==> Total(s.inUse) < s.global)
  }

  ghost predicate Eligible(s: Slots, exclude: set<Id>, id: Id) {
    id !in exclude && CanTake(s, id)
  }

  function Taken(s: Slots, id: Id): Slots {
    s.(inUse := s.inUse[id := Count(s.inUse, id) + 1], queue := Bump(s.queue, id))
  }

  function Returned(s: Slots, id: Id): Slots {
    var n := Count(s.inUse, id);
    if n == 0 then s else s.(inUse := if n == 1 then s.inUse - {id} else s.inUse[id := n - 1])
  }

  // The first eligible account of the queue from index i on.
  ghost function FirstEligible(s: Slots, exclude: set<Id>, i: nat): (r: Option<Id>)
    requires i <= |s.queue|
    ensures r.None? ==> forall j :: i <= j < |s.queue| ==> !Eligible(s, exclude, s.queue[j])
    ensures r.Some? ==> Eligible(s, exclude, r.value)
    ensures r.Some? ==>
      exists j :: i <= j < |s.queue| && s.queue[j] == r.value
        && forall k :: i <= k < j ==> !Eligible(s, exclude, s.queue[k])
    decreases |s.queue| - i
  {
    if i == |s.queue| then None
    else if Eligible(s, exclude, s.queue[i]) then Some(s.queue[i])
    else FirstEligible(s, exclude, i + 1)
  }

  lemma FirstEligibleIs(s: Slots, exclude: set<Id>, i: nat)
    requires i < |s.queue| && Eligible(s, exclude, s.queue[i])
    requires forall j :: 0 <= j < i ==> !Eligible(s, exclude, s.queue[j])
    ensures FirstEligible(s, exclude, 0) == Some(s.queue[i])
  {}

  lemma NoneEligible(s: Slots, exclude: set<Id>)
    requires forall j :: 0 <= j < |s.queue| ==> !Eligible(s, exclude, s.queue[j])
    ensures FirstEligible(s, exclude, 0) == None
  {}

  // acquireLocked and acquirePreferredLocked.
  ghost function Choice(s: Slots, target: Option<Id>, exclude: set<Id>): Option<Id> {
    if target.None? then FirstEligible(s, exclude, 0)
    else if Eligible(s, exclude, target.value) then target
    else None
  }

  ghost function PreferredChoice(s: Slots, preferred: Option<Id>, exclude: set<Id>): Option<Id> {
    if preferred.Some? && Eligible(s, exclude, preferred.value) then preferred else FirstEligible(s, exclude, 0)
  }

  ghost function After(s: Slots, choice: Option<Id>): Slots {
    if choice.Some? then Taken(s, choice.value) else s
  }

  // ------------------------------------------------------------ runs of the pool

  datatype Op =
    | DoAcquire(target: Option<Id>, exclude: set<Id>)
    | DoPreferred(preferred: Option<Id>, exclude: set<Id>)
    | DoRelease(id: Id)
    | DoConfigure(known: set<Id>, disabled: set<Id>, blocked: set<Id>)
    | DoLimits(perAccount: int, maxQueue: int, global: int)

  function Limited(s: Slots, perAccount: int, global: int): Slots {
    var per := if perAccount <= 0 then 1 else perAccount;
    var product := per * |s.known|;
    s.(perAccount := per, global := if global > 0 then global else if product > 0 then product else per)
  }

  ghost function StepResult(s: Slots, op: Op): Option<Id> {
    match op
    case DoAcquire(target, exclude) => Choice(s, target, exclude)
    case DoPreferred(preferred, exclude) => PreferredChoice(s, preferred, exclude)
    case _ => None
  }

  ghost function StepState(s: Slots, op: Op): Slots {
    match op
    case DoRelease(id) => Returned(s, id)
    case DoConfigure(known, disabled, blocked) => s.(known := known, disabled := disabled, blocked := blocked)
    case DoLimits(perAccount, maxQueue, global) => Limited(s, perAccount, global)
    case _ => After(s, StepResult(s, op))
  }

  ghost function RunState(s: Slots, ops: seq<Op>): Slots {
    if ops == [] then s else StepState(RunState(s, ops[..|ops| - 1]), ops[|ops| - 1])
  }

  // The operation asks the queue: it names no account, or it prefers one that cannot be had.
  ghost predicate AsksQueue(s: Slots, op: Op) {
    || (op.DoAcquire? && op.target.None?)
    || (op.DoPreferred? && (op.preferred.None? || !Eligible(s, op.exclude, op.preferred.value)))
  }

  ghost function QueueAsks(s: Slots, ops: seq<Op>): nat {
    if ops == [] then 0
    else
      QueueAsks(s, ops[..|ops| - 1])
      + if AsksQueue(RunState(s, ops[..|ops| - 1]), ops[|ops| - 1]) then 1 else 0
  }

  // Whenever the queue is asked, the account is eligible.
  ghost predicate StaysEligible(s: Slots, ops: seq<Op>, id: Id) {
    forall i :: 0 <= i < |ops| && AsksQueue(RunState(s, ops[..i]), ops[i]) ==>
      Eligible(RunState(s, ops[..i]), ops[i].exclude, id)
  }

  // The grants a run makes, with the accounts that were eligible when the queue was asked.
  ghost function GrantOf(s: Slots, op: Op): seq<Grant> {
    var r := StepResult(s, op);
    if r.None? then []
    else if AsksQueue(s, op) then
      [Untargeted(r.value, set id | id in s.queue && Eligible(s, op.exclude, id))]
    else [Targeted(r.value)]
  }

  ghost function Grants(s: Slots, ops: seq<Op>): seq<Grant> {
    if ops == [] then [] else Grants(s, ops[..|ops| - 1]) + GrantOf(RunState(s, ops[..|ops| - 1]), ops[|ops| - 1])
  }

  function QueueAfter(queue: seq<Id>, run: seq<Grant>): seq<Id>
    decreases |run|
  {
    if run == [] then queue else QueueAfter(Bump(queue, run[0].chosen), run[1..])
  }

  lemma {:induction false} LegalAppend(queue: seq<Id>, run: seq<Grant>, g: Grant)
    requires LegalRun(queue, run) && Legal(QueueAfter(queue, run), g)
    ensures LegalRun(queue, run + [g])
    ensures QueueAfter(queue, run + [g]) == Bump(QueueAfter(queue, run), g.chosen)
    ensures UntargetedGrants(run + [g]) == UntargetedGrants(run) + if g.Untargeted? then 1 else 0
    decreases |run|
  {
    hide Bump, Legal;
    if run == [] {
      assert [g][1..] == [];
      assert run + [g] == [g];
      assert LegalRun(Bump(queue, g.chosen), []);
    } else {
      assert (run + [g])[0] == run[0];
      assert (run + [g])[1..] == run[1..] + [g];
      LegalAppend(Bump(queue, run[0].chosen), run[1..], g);
    }
  }

  // Every grant from the queue goes to its first eligible account.
  lemma StepLegal(s: Slots, op: Op)
    requires AsksQueue(s, op) && StepResult(s, op).Some?
    ensures Legal(s.queue, GrantOf(s, op)[0])
  {
    hide CanTake;
    var id := StepResult(s, op).value;
    var j :| 0 <= j < |s.queue| && s.queue[j] == id && forall k :: 0 <= k < j ==> !Eligible(s, op.exclude, s.queue[k]);
    assert Position(s.queue, id) <= j;
  }

  // The grants of every run of the pool are legal and account for its queue.
  lemma {:induction false} RunIsLegal(s: Slots, ops: seq<Op>)
    ensures LegalRun(s.queue, Grants(s, ops))
    ensures RunState(s, ops).queue == QueueAfter(s.queue, Grants(s, ops))
  {
    hide Legal, Bump, Eligible, LegalRun, QueueAfter, FirstEligible, AsksQueue, Limited, Returned;
    if ops == [] {
      LegalNothing(s.queue);
    } else {
      var front, op := ops[..|ops| - 1], ops[|ops| - 1];
      var t := RunState(s, front);
      RunIsLegal(s, front);
      SameQueue(t, op);
      if StepResult(t, op).Some? {
        var g := GrantOf(t, op)[0];
        if AsksQueue(t, op) { StepLegal(t, op); } else { TargetedLegal(t.queue, g); }
        LegalAppend(s.queue, Grants(s, front), g);
      } else {
        assert Grants(s, ops) == Grants(s, front);
      }
    }
  }

  lemma LegalNothing(queue: seq<Id>)
    ensures LegalRun(queue, []) && QueueAfter(queue, []) == queue
  {}

  lemma TargetedLegal(queue: seq<Id>, g: Grant)
    requires g.Targeted?
    ensures Legal(queue, g)
  {}

  lemma SameQueue(s: Slots, op: Op)
    ensures StepState(s, op).queue == if StepResult(s, op).Some? then Bump(s.queue, StepResult(s, op).value) else s.queue
    ensures GrantOf(s, op) == [] <==> StepResult(s, op).None?
    ensures StepResult(s, op).Some? ==> |GrantOf(s, op)| == 1 && GrantOf(s, op)[0].chosen == StepResult(s, op).value
  {}

  lemma {:induction false} GrantsSplit(a: seq<Grant>, b: seq<Grant>)
    ensures UntargetedGrants(a + b) == UntargetedGrants(a) + UntargetedGrants(b)
    decreases |a|
  {
    if a == [] {
      assert a + b == b;
    } else {
      GrantsSplit(a[1..], b);
      assert (a + b)[1..] == a[1..] + b;
    }
  }

  // An account in the queue that is eligible whenever the queue is asked makes every such request succeed.
  lemma {:induction false} AsksAreGranted(s: Slots, ops: seq<Op>, id: Id)
    requires id in s.queue && StaysEligible(s, ops, id)
    ensures UntargetedGrants(Grants(s, ops)) == QueueAsks(s, ops)
    ensures forall i :: 0 <= i < |Grants(s, ops)| && Grants(s, ops)[i].Untargeted? ==> id in Grants(s, ops)[i].eligible
    ensures id in RunState(s, ops).queue
    ensures forall i :: 0 <= i < |Grants(s, ops)| ==>
      exists k :: 0 <= k < |ops| && StepResult(RunState(s, ops[..k]), ops[k]) == Some(Grants(s, ops)[i].chosen)
  {
    hide Bump, CanTake, FirstEligible, Limited, Returned, Taken;
    if ops != [] {
      var front, op := ops[..|ops| - 1], ops[|ops| - 1];
      var t := RunState(s, front);
      forall i | 0 <= i < |front| ensures ops[..i] == front[..i] && ops[i] == front[i] {}
      assert StaysEligible(s, front, id);
      AsksAreGranted(s, front, id);
      assert ops[..|front|] == front;
      EligibleGrants(t, op, id);
      GrantsSplit(Grants(s, front), GrantOf(t, op));
      var all := Grants(s, ops);
      forall i | 0 <= i < |all|
        ensures exists k :: 0 <= k < |ops| && StepResult(RunState(s, ops[..k]), ops[k]) == Some(all[i].chosen)
      {
        if i < |Grants(s, front)| {
          assert all[i] == Grants(s, front)[i];
          var k :| 0 <= k < |front| && StepResult(RunState(s, front[..k]), front[k]) == Some(all[i].chosen);
          assert ops[..k] == front[..k];
        } else {
          assert all[i] == GrantOf(t, op)[0];
        }
      }
    }
  }

  lemma EligibleGrants(s: Slots, op: Op, id: Id)
    requires id in s.queue && (AsksQueue(s, op) ==> Eligible(s, op.exclude, id))
    ensures UntargetedGrants(GrantOf(s, op)) == if AsksQueue(s, op) then 1 else 0
    ensures forall g :: g in GrantOf(s, op) && g.Untargeted? ==> id in g.eligible
    ensures id in StepState(s, op).queue
    ensures |GrantOf(s, op)| <= 1
    ensures GrantOf(s, op) != [] ==> StepResult(s, op) == Some(GrantOf(s, op)[0].chosen)
  {
    hide CanTake, Bump;
    SameQueue(s, op);
    if StepResult(s, op).Some? {
      BumpPermutes(s.queue, StepResult(s, op).value);
      assert id in multiset(Bump(s.queue, StepResult(s, op).value));
    }
    if AsksQueue(s, op) {
      var j :| 0 <= j < |s.queue| && s.queue[j] == id;
      assert FirstEligible(s, op.exclude, 0).Some?;
      assert GrantOf(s, op)[1..] == [];
    } else if GrantOf(s, op) != [] {
      assert GrantOf(s, op)[1..] == [];
    }
  }

  // In every run of the pool without a reset, whatever targeted grants, releases, limits and changes of health
  // come between, an account that is eligible whenever the queue is asked is granted by the time the queue has
  // been asked as often as it is long.
  lemma EligibleAccountIsServed(s: Slots, ops: seq<Op>, id: Id)
    requires id in s.queue && StaysEligible(s, ops, id) && QueueAsks(s, ops) >= |s.queue|
    ensures exists k :: 0 <= k < |ops| && StepResult(RunState(s, ops[..k]), ops[k]) == Some(id)
  {
    hide LegalRun, UntargetedGrants, Grants, StepResult, RunState, QueueAsks, StaysEligible;
    RunIsLegal(s, ops);
    AsksAreGranted(s, ops, id);
    GrantedWithinQueueLength(s.queue, Grants(s, ops), id);
  }

  // ------------------------------------------------------------ what a grant means

  // An account that may take one more request: asked for, configured, enabled, healthy, and with room under both caps.
  ghost predicate MayServe(s: Slots, exclude: set<Id>, id: Id) {
    && id in s.known - s.disabled - s.blocked - exclude
    && Count(s.inUse, id) + 1 <= s.perAccount
    && (s.global <= 0 || Total(s.inUse) + 1 <= s.global)
  }

  lemma EligibleMayServe(s: Slots, exclude: set<Id>, id: Id)
    ensures Eligible(s, exclude, id) <==> MayServe(s, exclude, id)
  {}

  function Named(op: Op): Option<Id>
    requires op.DoAcquire? || op.DoPreferred?
  {
    if op.DoAcquire? then op.target else op.preferred
  }

  // A granted account may serve. A named account that may serve is the one granted; one that may not is replaced from
  // the queue if it was only preferred. Nothing is granted only when neither it nor, where the queue is asked, any
  // account of the queue may serve.
  lemma GrantsMayServe(s: Slots, op: Op)
    requires op.DoAcquire? || op.DoPreferred?
    ensures
      var r, named := StepResult(s, op), Named(op);
      && (r.Some? ==> MayServe(s, op.exclude, r.value))
      && (named.Some? && MayServe(s, op.exclude, named.value) ==> r == named)
      && (op.DoAcquire? && named.Some? && r.Some? ==> r == named)
      && (r.None? && (op.DoPreferred? || named.None?) ==>
            forall j :: 0 <= j < |s.queue| ==> !MayServe(s, op.exclude, s.queue[j]))
      && (r.Some? && r != named ==> r.value in s.queue)
  {
    hide MayServe, Eligible;
    forall id ensures Eligible(s, op.exclude, id) <==> MayServe(s, op.exclude, id) {
      EligibleMayServe(s, op.exclude, id);
    }
  }

  lemma Product(a: nat, b: nat)
    ensures a * b >= 0
  {}

  lemma OneFewer(known: set<Id>, id: Id, per: nat)
    requires id in known
    ensures per * |known| == per * |known - {id}| + per
  {
    assert |known| == |known - {id}| + 1;
  }

  lemma {:induction false} TotalBound(inUse: map<Id, nat>, known: set<Id>, per: nat)
    requires inUse.Keys <= known && forall id :: id in inUse ==> inUse[id] <= per
    ensures Total(inUse) <= per * |known|
    decreases |inUse|
  {
    if inUse == map[] {
      Product(per, |known|);
    } else {
      var id :| id in inUse && Total(inUse) == inUse[id] + Total(inUse - {id});
      assert (inUse - {id}).Keys == inUse.Keys - {id};
      TotalBound(inUse - {id}, known - {id}, per);
      OneFewer(known, id, per);
    }
  }

  // Without a global limit of its own the pool has room for every configured account to be full at once: as long as
  // one is below the limit per account, the derived cap is not reached.
  lemma DerivedCapHasRoom(s: Slots, perAccount: int, maxQueue: int, global: int, id: Id)
    requires global <= 0 && id in s.known && s.inUse.Keys <= s.known
    ensures
      var t := StepState(s, DoLimits(perAccount, maxQueue, global));
      && t == s.(perAccount := t.perAccount, global := t.global) && t.perAccount == (if perAccount > 0 then perAccount else 1)
      && t.global == t.perAccount * |s.known|
      && ((forall k :: k in s.inUse ==> s.inUse[k] <= t.perAccount) && Count(s.inUse, id) < t.perAccount ==>
            Total(s.inUse) < t.global)
  {
    var per: nat := if perAccount > 0 then perAccount else 1;
    assert |s.known| > 0;
    OneFewer(s.known, id, per);
    if (forall k :: k in s.inUse ==> s.inUse[k] <= per) && Count(s.inUse, id) < per {
      if id in s.inUse {
        TotalRemove(s.inUse, id);
      }
      assert s.inUse - {id} == if id in s.inUse then s.inUse - {id} else s.inUse;
      TotalBound(s.inUse - {id}, s.known - {id}, per);
    }
  }

  // A global limit that is given is the cap, and a pool without accounts is capped at the limit per account.
  lemma GivenCap(s: Slots, perAccount: int, maxQueue: int, global: int)
    ensures
      var t := StepState(s, DoLimits(perAccount, maxQueue, global));
      && (global > 0 ==> t.global == global)
      && (global <= 0 && s.known == {} ==> t.global == t.perAccount)
      && t.perAccount == (if perAccount > 0 then perAccount else 1)
  {}

  // ------------------------------------------------------------ the context of a request

  // A context that is polled left more times before it ends.
  class Context {
    var left: nat
    var done: bool

    constructor (polls: nat)
      ensures left == polls && !done
    {
      left, done := polls, false;
    }

    // ctx.Err at the head of the wait loop, and the select between the context and the waiter's channel.
    method Poll() returns (ended: bool)
      modifies this
      ensures ended == done && (old(done) ==> done)
      ensures !ended ==> left < old(left)
    {
      if left == 0 || done {
        done := true;
        return true;
      }
      left := left - 1;
      return false;
    }
  }

  // ------------------------------------------------------------ the pool

  // The counters are those of the leases, and the request's own slots are among them.
  ghost predicate Counted(inUse: map<Id, nat>, leases: multiset<Id>, mine: multiset<Id>) {
    Matches(inUse, leases) && mine <= leases
  }

  // Both caps hold for an account and the pool.
  ghost predicate InCaps(s: Slots, leases: multiset<Id>, id: Id) {
    Count(s.inUse, id) <= s.perAccount && (s.global > 0 ==> |leases| <= s.global)
  }

  lemma TakenCounts(s: Slots, leases: multiset<Id>, mine: multiset<Id>, id: Id)
    requires Counted(s.inUse, leases, mine) && CanTake(s, id)
    ensures Counted(Taken(s, id).inUse, leases + multiset{id}, mine + multiset{id})
    ensures InCaps(Taken(s, id), leases + multiset{id}, id)
  {
    hide Bump;
    TotalIsLeases(s.inUse, leases);
  }

  lemma ReturnedCounts(s: Slots, leases: multiset<Id>, mine: multiset<Id>, id: Id)
    requires Counted(s.inUse, leases, mine)
    ensures Counted(Returned(s, id).inUse, leases - multiset{id}, mine - multiset{id})
    ensures id in leases <==> Count(s.inUse, id) > 0
    ensures id !in leases ==> leases - multiset{id} == leases && mine - multiset{id} == mine
  {}

  // A waiter's channel is closed at most once: the queue holds open channels only, each once.
  ghost predicate OpenWaiters(waiters: seq<Waiter>, closed: set<Waiter>, next: Waiter) {
    && (forall i :: 0 <= i < |waiters| ==> waiters[i] !in closed && waiters[i] < next)
    && (forall w :: w in closed ==> w < next)
    && (forall i, j :: 0 <= i < j < |waiters| ==> waiters[i] != waiters[j])
  }

  lemma NothingCounted()
    ensures Counted(map[], multiset{}, multiset{})
  {}

  // A configured account as Reset sees it.
  datatype Account = Account(id: Id, hasToken: bool, disabled: bool)

  // The enabled accounts in stored order that have a token, or that have none.
  function Enabled(accounts: seq<Account>, hasToken: bool): seq<Id> {
    if accounts == [] then []
    else
      var last := accounts[|accounts| - 1];
      Enabled(accounts[..|accounts| - 1], hasToken)
      + if !last.disabled && last.hasToken == hasToken then [last.id] else []
  }

  // Every enabled account is queued, as often as it is configured.
  lemma {:induction false} EnabledAreQueued(accounts: seq<Account>, id: Id)
    ensures id in Enabled(accounts, true) + Enabled(accounts, false) <==>
      exists a :: a in accounts && a.id == id && !a.disabled
  {
    if accounts != [] {
      var front, last := accounts[..|accounts| - 1], accounts[|accounts| - 1];
      EnabledAreQueued(front, id);
      assert accounts == front + [last];
    }
  }

  class Pool {
    // The configured accounts, those disabled, and those whose health blocks them now.
    var known: set<Id>
    var disabled: set<Id>
    var blocked: set<Id>
    var queue: seq<Id>
    var inUse: map<Id, nat>
    var waiters: seq<Waiter>
    var closed: set<Waiter>
    var nextWaiter: Waiter
    var maxInflightPerAccount: int
    var globalMaxInflight: int
    var maxQueueSize: int
    // The slots handed out and not released since the last Reset, and those of them that the request under
    // consideration took. Only Take, Release and Reset write them.
    ghost var leases: multiset<Id>
    ghost var mine: multiset<Id>
    // The channels that the request under consideration has joined the queue of waiters with. Only Enqueue writes it.
    ghost var waiting: set<Waiter>

    constructor (accounts: set<Id>, ids: seq<Id>, maxPerAccount: int, maxQueue: int, globalMax: int)
      ensures Valid() && leases == mine == multiset{} && waiters == []
      ensures View() == Slots(accounts, {}, {}, ids, map[], maxPerAccount, globalMax) && maxQueueSize == maxQueue
    {
      known, disabled, blocked := accounts, {}, {};
      queue, inUse, waiters, closed, nextWaiter := ids, map[], [], {}, 0;
      maxInflightPerAccount, maxQueueSize, globalMaxInflight := maxPerAccount, maxQueue, globalMax;
      leases, mine, waiting := multiset{}, multiset{}, {};
    }

    // The request's own channels that are still queued.
    ghost function Queued(): set<Waiter>
      reads `waiting, `waiters
    {
      set w | w in waiting && w in waiters
    }

    ghost predicate Valid()
      reads `inUse, `leases, `mine, `waiters, `closed, `nextWaiter
    {
      Counted(inUse, leases, mine) && OpenWaiters(waiters, closed, nextWaiter)
    }

    ghost function View(): Slots
      reads `known, `disabled, `blocked, `queue, `inUse, `maxInflightPerAccount, `globalMaxInflight
    {
      Slots(known, disabled, blocked, queue, inUse, maxInflightPerAccount, globalMaxInflight)
    }

    // The choice is granted: one more lease, held by this request, and the queue rotated; or nothing changes.
    twostate predicate Granted(choice: Option<Id>)
      reads this
    {
      && View() == After(old(View()), choice)
      && leases == old(leases) + (if choice.Some? then multiset{choice.value} else multiset{})
      && mine == old(mine) + (if choice.Some? then multiset{choice.value} else multiset{})
    }

    ghost predicate WithinCaps(id: Id)
      reads this
    {
      InCaps(View(), leases, id)
    }

    method CurrentInUse() returns (total: nat)
      ensures total == Total(inUse)
    {
      total := 0;
      var todo := inUse;
      while todo != map[]
        invariant total + Total(todo) == Total(inUse)
        decreases |todo|
      {
        var id :| id in todo;
        TotalRemove(todo, id);
        total := total + todo[id];
        todo := todo - {id};
      }
    }

    method CanAcquireId(id: Id) returns (ok: bool)
      ensures ok == CanTake(View(), id)
    {
      if id !in known || id in disabled || id in blocked || Count(inUse, id) >= maxInflightPerAccount {
        return false;
      }
      if globalMaxInflight > 0 {
        var total := CurrentInUse();
        return total < globalMaxInflight;
      }
      return true;
    }

    method BumpQueue(id: Id)
      modifies `queue
      ensures queue == Bump(old(queue), id)
    {
      for i := 0 to |queue|
        invariant queue == old(queue) && forall j :: 0 <= j < i ==> queue[j] != id
      {
        if queue[i] == id {
          PositionIs(queue, id, i);
          queue := queue[..i] + queue[i + 1..] + [id];
          return;
        }
      }
      PositionIs(queue, id, |queue|);
    }

    // Take one slot of an account that may take one.
    method Take(id: Id)
      requires Valid() && CanTake(View(), id)
      modifies `inUse, `queue, `leases, `mine
      ensures Valid() && Granted(Some(id)) && WithinCaps(id)
    {
      hide Bump, Counted, CanTake, OpenWaiters, InCaps;
      TakenCounts(View(), leases, mine, id);
      inUse := inUse[id := Count(inUse, id) + 1];
      leases, mine := leases + multiset{id}, mine + multiset{id};
      BumpQueue(id);
    }

    // tryAcquire: the first account of the queue that is not excluded and can take a slot.
    method TryAcquire(exclude: set<Id>) returns (r: Option<Id>)
      requires Valid()
      modifies `inUse, `queue, `leases, `mine
      ensures Valid() && r == FirstEligible(old(View()), exclude, 0) && Granted(r)
      ensures r.Some? ==> WithinCaps(r.value)
    {
      hide CanTake, FirstEligible, Counted, OpenWaiters, Bump, InCaps;
      ghost var s := View();
      for i := 0 to |queue|
        invariant Valid() && View() == s && leases == old(leases) && mine == old(mine)
        invariant forall j :: 0 <= j < i ==> !Eligible(s, exclude, queue[j])
      {
        var id := queue[i];
        var ok := CanAcquireId(id);
        if id !in exclude && ok {
          FirstEligibleIs(s, exclude, i);
          Take(id);
          return Some(id);
        }
      }
      NoneEligible(s, exclude);
      return None;
    }

    // acquireLocked.
    method Acquire(target: Option<Id>, exclude: set<Id>) returns (r: Option<Id>)
      requires Valid()
      modifies `inUse, `queue, `leases, `mine
      ensures Valid() && r == Choice(old(View()), target, exclude) && Granted(r)
      ensures r.Some? ==> WithinCaps(r.value)
    {
      hide CanTake, FirstEligible, Valid, WithinCaps;
      if target.Some? {
        var ok := CanAcquireId(target.value);
        if target.value in exclude || !ok {
          return None;
        }
        Take(target.value);
        return target;
      }
      r := TryAcquire(exclude);
    }

    // acquirePreferredLocked: the preferred account if it can take a slot, else the queue.
    method AcquirePreferred(preferred: Option<Id>, exclude: set<Id>) returns (r: Option<Id>)
      requires Valid()
      modifies `inUse, `queue, `leases, `mine
      ensures Valid() && r == PreferredChoice(old(View()), preferred, exclude) && Granted(r)
      ensures r.Some? ==> WithinCaps(r.value)
    {
      hide CanTake, FirstEligible, Valid, WithinCaps;
      if preferred.Some? {
        r := Acquire(preferred, exclude);
        if r.Some? {
          return;
        }
      }
      r := TryAcquire(exclude);
    }

    // The first waiter's channel is closed, if there is a waiter.
    twostate predicate FirstWoken()
      reads `waiters, `closed
    {
      if old(waiters) == [] then waiters == [] && closed == old(closed)
      else waiters == old(waiters)[1..] && closed == old(closed) + {old(waiters)[0]}
    }

    method NotifyWaiter()
      requires OpenWaiters(waiters, closed, nextWaiter)
      modifies `waiters, `closed
      ensures OpenWaiters(waiters, closed, nextWaiter) && FirstWoken()
    {
      if waiters == [] {
        return;
      }
      var waiter := waiters[0];
      waiters := waiters[1..];
      closed := closed + {waiter};
    }

    // Release gives back one slot if the account has one and wakes the first waiter; an unmatched release
    // changes nothing.
    method Release(id: Id)
      requires Valid()
      modifies `inUse, `leases, `mine, `waiters, `closed
      ensures Valid() && View() == Returned(old(View()), id)
      ensures leases == old(leases) - multiset{id} && mine == old(mine) - multiset{id}
      ensures if id in old(leases) then FirstWoken() else waiters == old(waiters) && closed == old(closed)
      ensures Queued() <= old(Queued())
    {
      hide OpenWaiters, Counted, Returned;
      var matched := ReturnSlot(id);
      if matched {
        NotifyWaiter();
      }
    }

    method ReturnSlot(id: Id) returns (matched: bool)
      requires Counted(inUse, leases, mine)
      modifies `inUse, `leases, `mine
      ensures Counted(inUse, leases, mine) && View() == Returned(old(View()), id)
      ensures leases == old(leases) - multiset{id} && mine == old(mine) - multiset{id}
      ensures matched <==> id in old(leases)
    {
      hide Counted;
      ReturnedCounts(View(), leases, mine, id);
      var count := Count(inUse, id);
      if count <= 0 {
        return false;
      }
      inUse := if count == 1 then inUse - {id} else inUse[id := count - 1];
      leases, mine := leases - multiset{id}, mine - multiset{id};
      return true;
    }

    // The waiting queue has room, and a named account may be waited for.
    ghost predicate Room(target: Option<Id>, exclude: set<Id>)
      reads `known, `waiters, `maxQueueSize
    {
      (target.Some? ==> target.value !in exclude && target.value in known) && |waiters| < maxQueueSize
    }

    method CanQueue(target: Option<Id>, exclude: set<Id>) returns (ok: bool)
      ensures ok == Room(target, exclude)
    {
      if target.Some? && (target.value in exclude || target.value !in known) {
        return false;
      }
      return maxQueueSize > 0 && |waiters| < maxQueueSize;
    }

    // removeWaiterLocked: whether the waiter was still queued.
    method RemoveWaiter(waiter: Waiter) returns (found: bool)
      requires OpenWaiters(waiters, closed, nextWaiter)
      modifies `waiters
      ensures OpenWaiters(waiters, closed, nextWaiter) && waiter !in waiters && (found <==> waiter in old(waiters))
      ensures forall w :: w != waiter ==> (w in waiters <==> w in old(waiters))
    {
      for i := 0 to |waiters|
        invariant waiters == old(waiters) && forall j :: 0 <= j < i ==> waiters[j] != waiter
      {
        if waiters[i] == waiter {
          waiters := waiters[..i] + waiters[i + 1..];
          return true;
        }
      }
      return false;
    }

    method DrainWaiters()
      requires OpenWaiters(waiters, closed, nextWaiter)
      modifies `waiters, `closed
      ensures OpenWaiters(waiters, closed, nextWaiter) && waiters == [] && closed == old(closed) + set w | w in old(waiters)
    {
      for i := 0 to |waiters|
        invariant waiters == old(waiters) && closed == old(closed) + set j | 0 <= j < i :: waiters[j]
      {
        closed := closed + {waiters[i]};
      }
      waiters := [];
    }

    // Reset forgets every lease: the counters start over, and the queue holds the enabled accounts, those with a
    // token first and each group in stored order. Every waiter is woken.
    method Reset(accounts: seq<Account>, maxPerAccount: int, maxQueue: int, globalMax: int)
      requires Valid()
      modifies this
      ensures Valid() && leases == mine == multiset{} && waiters == []
      ensures closed == old(closed) + set w | w in old(waiters)
      ensures View() == old(View()).(queue := Enabled(accounts, true) + Enabled(accounts, false), inUse := map[],
                                     perAccount := maxPerAccount, global := globalMax)
      ensures maxQueueSize == maxQueue
    {
      hide OpenWaiters, Counted, Enabled;
      NothingCounted();
      DrainWaiters();
      queue := Enabled(accounts, true) + Enabled(accounts, false);
      inUse := map[];
      leases, mine := multiset{}, multiset{};
      maxInflightPerAccount, maxQueueSize, globalMaxInflight := maxPerAccount, maxQueue, globalMax;
    }

    // ApplyRuntimeLimits normalizes the limits, keeps every lease and wakes the first waiter.
    method ApplyRuntimeLimits(maxPerAccount: int, maxQueue: int, globalMax: int)
      requires Valid()
      modifies `maxInflightPerAccount, `maxQueueSize, `globalMaxInflight, `waiters, `closed
      ensures Valid() && FirstWoken()
      ensures View() == Limited(old(View()), maxPerAccount, globalMax)
      ensures maxQueueSize == if maxQueue < 0 then 0 else maxQueue
      ensures maxInflightPerAccount >= 1 && globalMaxInflight >= 1
    {
      hide OpenWaiters, Counted;
      var per := if maxPerAccount <= 0 then 1 else maxPerAccount;
      var global := globalMax;
      if global <= 0 {
        global := per * |known|;
        if global <= 0 {
          global := per;
        }
      }
      maxInflightPerAccount, maxQueueSize, globalMaxInflight := per, if maxQueue < 0 then 0 else maxQueue, global;
      NotifyWaiter();
    }

    // The store and the health checks change which accounts there are and which are blocked.
    method Configure(known: set<Id>, disabled: set<Id>, blocked: set<Id>)
      modifies `known, `disabled, `blocked
      ensures View() == old(View()).(known := known, disabled := disabled, blocked := blocked)
    {
      this.known, this.disabled, this.blocked := known, disabled, blocked;
    }

    // One operation of a run.
    method Step(op: Op) returns (r: Option<Id>)
      requires Valid()
      modifies this
      ensures Valid() && r == StepResult(old(View()), op) && View() == StepState(old(View()), op)
      ensures r.Some? ==> WithinCaps(r.value)
    {
      hide Valid, WithinCaps, Choice, PreferredChoice, After, Returned, Limited;
      r := None;
      match op
      case DoAcquire(target, exclude) => r := Acquire(target, exclude);
      case DoPreferred(preferred, exclude) => r := AcquirePreferred(preferred, exclude);
      case DoRelease(id) => Release(id);
      case DoConfigure(known, disabled, blocked) => Configure(known, disabled, blocked);
      case DoLimits(perAccount, maxQueue, global) => ApplyRuntimeLimits(perAccount, maxQueue, global);
    }

    // A run of the pool without a reset: every result is the one the operations on values give.
    method Run(ops: seq<Op>) returns (results: seq<Option<Id>>)
      requires Valid()
      modifies this
      ensures Valid() && View() == RunState(old(View()), ops) && |results| == |ops|
      ensures forall i :: 0 <= i < |ops| ==> results[i] == StepResult(RunState(old(View()), ops[..i]), ops[i])
    {
      hide Valid, StepResult, StepState, WithinCaps;
      results := [];
      for i := 0 to |ops|
        invariant Valid() && View() == RunState(old(View()), ops[..i]) && |results| == i
        invariant forall j :: 0 <= j < i ==> results[j] == StepResult(RunState(old(View()), ops[..j]), ops[j])
      {
        var r := Step(ops[i]);
        results := results + [r];
        assert ops[..i + 1][..i] == ops[..i];
      }
      assert ops[..|ops|] == ops;
    }

    // What other goroutines may do meanwhile: anything that keeps the pool valid, short of a reset, of giving back the
    // slots this request holds, or of queueing its channels again. The configured accounts stay.
    method Interfere()
      requires Valid()
      modifies this
      ensures Valid() && mine == old(mine) && known == old(known) && waiting == old(waiting) && Queued() <= old(Queued())
    {}

    // The select between the context and the waiter's channel: others interfere until the context ends or somebody has
    // closed the channel.
    method Await(ctx: Context, waiter: Waiter) returns (ended: bool)
      requires Valid() && waiter in waiters
      modifies this, ctx
      ensures Valid() && mine == old(mine) && known == old(known) && waiting == old(waiting) && Queued() <= old(Queued())
      ensures old(ctx.done) ==> ctx.done
      ensures ended ==> ctx.done
      ensures !ended ==> ctx.left < old(ctx.left) && waiter !in waiters
    {
      hide Counted, OpenWaiters;
      Interfere();
      ended := ctx.Poll();
      if !ended {
        NotifyUpTo(waiter);
      }
    }

    // Others wake the waiters in turn until this one is closed.
    method NotifyUpTo(waiter: Waiter)
      requires OpenWaiters(waiters, closed, nextWaiter)
      modifies `waiters, `closed
      ensures OpenWaiters(waiters, closed, nextWaiter) && waiter !in waiters && Queued() <= old(Queued())
    {
      while waiter in waiters
        invariant OpenWaiters(waiters, closed, nextWaiter) && Queued() <= old(Queued())
        decreases |waiters|
      {
        NotifyWaiter();
      }
    }

    // A new channel joins the queue of waiters, which has room for it and so stays within its size.
    method Enqueue() returns (waiter: Waiter)
      requires Valid() && |waiters| < maxQueueSize
      modifies `waiters, `nextWaiter, `waiting
      ensures Queued() == old(Queued()) + {waiter} && waiting == old(waiting) + {waiter}
      ensures Valid() && waiters == old(waiters) + [waiter] && waiter !in old(waiters) && waiter !in closed
      ensures |waiters| <= maxQueueSize
    {
      waiter := nextWaiter;
      nextWaiter := nextWaiter + 1;
      waiters := waiters + [waiter];
      waiting := waiting + {waiter};
    }

    // The context ended: the waiter leaves the queue if it is still there.
    method Abandon(waiter: Waiter)
      requires Valid()
      modifies `waiters
      ensures Valid() && waiter !in waiters && Queued() == old(Queued()) - {waiter}
    {
      hide Counted;
      var _ := RemoveWaiter(waiter);
    }

    ghost function Wanted(target: Option<Id>, overflow: bool, exclude: set<Id>): Option<Id>
      reads `known, `disabled, `blocked, `queue, `inUse, `maxInflightPerAccount, `globalMaxInflight
    {
      if overflow then PreferredChoice(View(), target, exclude) else Choice(View(), target, exclude)
    }

    // No account can be had now and the request may not wait for one.
    ghost predicate Refused(target: Option<Id>, overflow: bool, exclude: set<Id>)
      reads `known, `disabled, `blocked, `queue, `inUse, `maxInflightPerAccount, `globalMaxInflight, `waiters, `maxQueueSize
    {
      Wanted(target, overflow, exclude).None? && !Room(if overflow then None else target, exclude)
    }

    method Attempt(target: Option<Id>, overflow: bool, exclude: set<Id>) returns (r: Option<Id>)
      requires Valid()
      modifies `inUse, `queue, `leases, `mine
      ensures Valid() && r == old(Wanted(target, overflow, exclude)) && Granted(r)
      ensures r.None? ==> Wanted(target, overflow, exclude).None?
      ensures r.Some? ==> r.value !in exclude && r.value in known && WithinCaps(r.value)
      ensures r.Some? && target.Some? && !overflow ==> r == target
    {
      hide Valid, WithinCaps, FirstEligible, Taken, Total;
      if overflow {
        r := AcquirePreferred(target, exclude);
      } else {
        r := Acquire(target, exclude);
      }
    }

    // AcquireWait, or AcquireWaitPreferred when overflow is allowed. Whatever others do meanwhile, the request
    // ends holding one slot more or exactly the slots it held, leaves none of its channels in the queue, and goes
    // without only when it is refused or its context has ended.
    method WaitForSlot(ctx: Context, target: Option<Id>, overflow: bool, exclude: set<Id>) returns (r: Option<Id>)
      requires Valid()
      modifies this, ctx
      ensures Valid() && known == old(known) && (old(ctx.done) ==> ctx.done)
      ensures mine == old(mine) + (if r.Some? then multiset{r.value} else multiset{})
      ensures r.Some? ==> r.value !in exclude && r.value in known && WithinCaps(r.value)
      ensures r.Some? && target.Some? && !overflow ==> r == target
      ensures r.None? ==> ctx.done || Refused(target, overflow, exclude)
      ensures Queued() <= old(Queued())
    {
      hide Valid, WithinCaps, Wanted, After;
      while true
        invariant Valid() && mine == old(mine) && known == old(known) && (old(ctx.done) ==> ctx.done)
        invariant Queued() <= old(Queued())
        decreases ctx.left
      {
        var ended := ctx.Poll();
        if ended {
          return None;
        }
        r := Attempt(target, overflow, exclude);
        if r.Some? {
          return;
        }
        var room := CanQueue(if overflow then None else target, exclude);
        if !room {
          return None;
        }
        var waiter := Enqueue();
        ended := Await(ctx, waiter);
        if ended {
          Abandon(waiter);
          return None;
        }
      }
    }

    // One round of the retry loop: a slot, and a login with it. A slot whose login fails is given back.
    method TryAccount(ctx: Context, target: Option<Id>, overflow: bool, tried: set<Id>, tokenOk: Id -> bool)
      returns (got: Option<Id>)
      requires Valid()
      modifies this, ctx
      ensures Valid() && known == old(known)
      ensures mine == old(mine) + (if got.Some? && tokenOk(got.value) then multiset{got.value} else multiset{})
      ensures got.Some? ==> got.value in known && got.value !in tried
      ensures got.Some? && target.Some? && !overflow ==> got == target
      ensures got.None? ==> ctx.done || Refused(target, overflow, tried)
      ensures Queued() <= old(Queued())
    {
      hide Valid, Refused, WithinCaps, Returned, FirstWoken;
      got := WaitForSlot(ctx, target, overflow, tried);
      if got.Some? {
        Interfere();
        if !tokenOk(got.value) {
          GiveBack(old(mine), got.value);
          Release(got.value);
        }
      }
    }

    // acquireManagedRequestAuth: try accounts until one has a usable token. The request ends holding exactly one
    // slot more on success and exactly the slots it held otherwise. Without success every account it tried
    // failed to log in, and it stopped because its context ended, no account is left to try, it was refused, or
    // the one account it had to use failed.
    method AcquireManaged(ctx: Context, target: Option<Id>, overflow: bool, tokenOk: Id -> bool)
      returns (r: AuthResult, tried: set<Id>)
      requires Valid()
      modifies this, ctx
      ensures Valid() && known == old(known)
      ensures mine == old(mine) + (if r.Acquired? then multiset{r.id} else multiset{})
      ensures r.Acquired? ==> tokenOk(r.id) && r.id in known - tried && (target.Some? && !overflow ==> r.id == target.value)
      ensures tried <= known && forall id :: id in tried ==> !tokenOk(id)
      ensures r.LoginFailed? ==> r.id in tried
      ensures Queued() <= old(Queued())
      ensures r.NoAccount? ==> tried == {}
      ensures !r.Acquired? ==>
        || ctx.done || Refused(target, overflow, tried)
        || ((target.None? || overflow) && tried == known)
        || (target.Some? && !overflow && tried == {target.value})
    {
      hide Valid, Refused;
      tried := {};
      var lastFailure: Option<Id> := None;
      while true
        invariant Valid() && mine == old(mine) && known == old(known) && tried <= known && Queued() <= old(Queued())
        invariant lastFailure.Some? ==> lastFailure.value in tried && (target.None? || overflow)
        invariant lastFailure.None? ==> tried == {}
        invariant forall id :: id in tried ==> !tokenOk(id)
        decreases |known - tried|
      {
        if (target.None? || overflow) && |tried| >= |known| {
          AllTried(tried, known);
          r := if lastFailure.Some? then LoginFailed(lastFailure.value) else NoAccount;
          return;
        }
        var got := TryAccount(ctx, target, overflow, tried, tokenOk);
        if got.None? {
          r := if lastFailure.Some? then LoginFailed(lastFailure.value) else NoAccount;
          return;
        }
        if tokenOk(got.value) {
          r := Acquired(got.value);
          return;
        }
        TryOneMore(known, tried, got.value);
        lastFailure := got;
        tried := tried + {got.value};
        if target.Some? && !overflow {
          assert tried == {target.value};
          r := LoginFailed(got.value);
          return;
        }
      }
    }
  }

  datatype AuthResult = Acquired(id: Id) | LoginFailed(id: Id) | NoAccount

  lemma TryOneMore(known: set<Id>, tried: set<Id>, id: Id)
    requires id in known && id !in tried
    ensures |known - (tried + {id})| < |known - tried|
  {
    assert known - (tried + {id}) == known - tried - {id};
  }

  lemma GiveBack(mine: multiset<Id>, id: Id)
    ensures mine + multiset{id} - multiset{id} == mine
  {}

  lemma AllTried(a: set<Id>, b: set<Id>)
    requires a <= b && |a| >= |b|
    ensures a == b
  {
    SubsetSize(b - a, {});
  }

  lemma {:induction false} SubsetSize(a: set<Id>, b: set<Id>)
    requires a <= b
    ensures |a| <= |b|
    decreases a
  {
    if a != {} {
      var x :| x in a;
      SubsetSize(a - {x}, b - {x});
    }
  }
}
