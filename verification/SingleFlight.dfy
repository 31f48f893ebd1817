// The single-flight protocol of Wrap in internal/responsecache/cache.go: concurrent requests with the
// same cache key collapse onto one upstream call. Every lock-protected section is one step, and steps
// of different requests interleave freely.
module SingleFlight {
  type Key(==, !new)
  type RequestId = nat
  type SlotId = nat

  datatype Option<T> = None | Some(value: T)

  // Where a request is inside Wrap after the cache key is known.
  datatype Phase =
    | Arrived                                   // about to look the key up
    | Missed                                    // first lookup missed
    | Waiting(slot: SlotId)                     // blocked on the slot of another request
    | Checking(slot: SlotId)                    // woken by the closed slot, about to look up again
    | Retry                                     // a wait ended without an entry
    | Owner(slot: SlotId)                       // running upstream while holding the slot
    | Finished(slot: SlotId, cacheable: bool)   // upstream returned, result not stored yet
    | Releasing(slot: SlotId)                   // deferred release is next
    | Closing(slot: SlotId)                     // removed from the map, channel not closed yet
    | Unowned                                   // running upstream without a slot

  // waits counts the waits the request has begun.
  datatype Request = Request(key: Key, phase: Phase, waits: nat)

  // outcome is whether the owner's upstream result was cacheable, once known.
  datatype Slot = Slot(key: Key, owner: RequestId, open: bool, outcome: Option<bool>, stored: bool)

  // lost holds the slots whose stored entry has since expired or been evicted.
  datatype World = World(
    requests: map<RequestId, Request>,
    slots: map<SlotId, Slot>,
    inflight: map<Key, SlotId>,
    cache: set<Key>,
    lost: set<SlotId>,
    next: SlotId)

  const INIT: World := World(map[], map[], map[], {}, {}, 0)

  datatype Step =
    | Arrive(r: RequestId, key: Key)
    | Lookup(r: RequestId)                        // getWithPolicy before the slot machinery
    | Acquire(r: RequestId)                       // acquireInflight, first or second time
    | Wake(r: RequestId)                          // the slot's channel is closed
    | Check(r: RequestId)                         // getWithPolicy after waking
    | Timeout(r: RequestId)
    | Cancel(r: RequestId)
    | GiveUp(r: RequestId)                        // two waits produced nothing: run without a slot
    | Return(r: RequestId, cacheable: bool)       // upstream returns to its owner
    | Panic(r: RequestId)                         // upstream panics; the deferred release still runs
    | Store(r: RequestId)                         // setWithPolicySession, or recordUncacheable
    | Remove(r: RequestId)                        // releaseInflight under the mutex
    | Close(r: RequestId)                         // releaseInflight closes the channel
    | ReturnUnowned(r: RequestId, cacheable: bool)
    | Evict(key: Key)                             // the entry expires or is evicted

  predicate At(w: World, r: RequestId) {
    r in w.requests
  }

  predicate Enabled(w: World, step: Step) {
    match step
    case Arrive(r, _) => r !in w.requests
    case Lookup(r) => At(w, r) && w.requests[r].phase == Arrived
    case Acquire(r) => At(w, r) && (w.requests[r].phase == Missed || (w.requests[r].phase == Retry && w.requests[r].waits == 1))
    case Wake(r) => At(w, r) && w.requests[r].phase.Waiting?
                    && w.requests[r].phase.slot in w.slots && !w.slots[w.requests[r].phase.slot].open
    case Check(r) => At(w, r) && w.requests[r].phase.Checking?
    case Timeout(r) => At(w, r) && w.requests[r].phase.Waiting?
    case Cancel(r) => At(w, r) && w.requests[r].phase.Waiting?
    case GiveUp(r) => At(w, r) && w.requests[r].phase == Retry && w.requests[r].waits != 1
    case Return(r, _) => At(w, r) && w.requests[r].phase.Owner? && w.requests[r].phase.slot in w.slots
    case Panic(r) => At(w, r) && w.requests[r].phase.Owner? && w.requests[r].phase.slot in w.slots
    case Store(r) => At(w, r) && w.requests[r].phase.Finished? && w.requests[r].phase.slot in w.slots
    case Remove(r) => At(w, r) && w.requests[r].phase.Releasing?
    case Close(r) => At(w, r) && w.requests[r].phase.Closing? && w.requests[r].phase.slot in w.slots
    case ReturnUnowned(r, _) => At(w, r) && w.requests[r].phase == Unowned
    case Evict(_) => true
  }

  function Move(w: World, r: RequestId, phase: Phase): World
    requires At(w, r)
  {
    w.(requests := w.requests[r := w.requests[r].(phase := phase)])
  }

  function Leave(w: World, r: RequestId): World {
    w.(requests := w.requests - {r})
  }

  function SlotsOf(w: World, key: Key): set<SlotId> {
    set s | s in w.slots && w.slots[s].key == key && w.slots[s].stored
  }

  function AcquireInflight(w: World, r: RequestId): World
    requires At(w, r)
  {
    var q := w.requests[r];
    if q.key in w.inflight then
      w.(requests := w.requests[r := Request(q.key, Waiting(w.inflight[q.key]), q.waits + 1)])
    else
      w.(requests := w.requests[r := q.(phase := Owner(w.next))],
         slots := w.slots[w.next := Slot(q.key, r, true, None, false)],
         inflight := w.inflight[q.key := w.next],
         next := w.next + 1)
  }

  function Next(w: World, step: Step): World
    requires Enabled(w, step)
  {
    match step
    case Arrive(r, key) => w.(requests := w.requests[r := Request(key, Arrived, 0)])
    case Lookup(r) => if w.requests[r].key in w.cache then Leave(w, r) else Move(w, r, Missed)
    case Acquire(r) => AcquireInflight(w, r)
    case Wake(r) => Move(w, r, Checking(w.requests[r].phase.slot))
    case Check(r) => if w.requests[r].key in w.cache then Leave(w, r) else Move(w, r, Retry)
    case Timeout(r) => Move(w, r, Retry)
    case Cancel(r) => Leave(w, r)
    case GiveUp(r) => Move(w, r, Unowned)
    case Return(r, cacheable) =>
      var s := w.requests[r].phase.slot;
      Move(w, r, Finished(s, cacheable)).(slots := w.slots[s := w.slots[s].(outcome := Some(cacheable))])
    case Panic(r) =>
      var s := w.requests[r].phase.slot;
      Move(w, r, Releasing(s)).(slots := w.slots[s := w.slots[s].(outcome := Some(false))])
    case Store(r) =>
      var s, cacheable := w.requests[r].phase.slot, w.requests[r].phase.cacheable;
      if !cacheable then Move(w, r, Releasing(s))
      else Move(w, r, Releasing(s)).(slots := w.slots[s := w.slots[s].(stored := true)],
                                     cache := w.cache + {w.requests[r].key})
    case Remove(r) =>
      var key := w.requests[r].key;
      if key !in w.inflight then Leave(w, r)
      else Move(w, r, Closing(w.inflight[key])).(inflight := w.inflight - {key})
    case Close(r) =>
      var s := w.requests[r].phase.slot;
      Leave(w, r).(slots := w.slots[s := w.slots[s].(open := false)])
    case ReturnUnowned(r, cacheable) =>
      Leave(w, r).(cache := if cacheable then w.cache + {w.requests[r].key} else w.cache)
    case Evict(key) => w.(cache := w.cache - {key}, lost := w.lost + SlotsOf(w, key))
  }

  ghost predicate CanRun(w: World, steps: seq<Step>)
    decreases |steps|
  {
    steps == [] || (Enabled(w, steps[0]) && CanRun(Next(w, steps[0]), steps[1..]))
  }

  ghost function Run(w: World, steps: seq<Step>): World
    requires CanRun(w, steps)
    decreases |steps|
  {
    if steps == [] then w else Run(Next(w, steps[0]), steps[1..])
  }

  // ------------------------------------------------------------ the invariant

  // The slot a request holds, from acquiring it to closing its channel.
  function Held(p: Phase): Option<SlotId> {
    match p
    case Owner(s) => Some(s)
    case Finished(s, _) => Some(s)
    case Releasing(s) => Some(s)
    case Closing(s) => Some(s)
    case _ => None
  }

  // What the owner's progress says about its slot's recorded outcome.
  predicate OutcomeFits(p: Phase, slot: Slot) {
    match p
    case Owner(_) => slot.outcome == None && !slot.stored
    case Finished(_, c) => slot.outcome == Some(c) && !slot.stored
    case Releasing(_) => slot.outcome.Some? && (slot.outcome.value ==> slot.stored)
    case Closing(_) => slot.outcome.Some? && (slot.outcome.value ==> slot.stored)
    case _ => true
  }

  ghost predicate HolderOk(w: World, r: RequestId, s: SlotId)
    requires At(w, r)
  {
    && s in w.slots
    && w.slots[s].owner == r && w.slots[s].key == w.requests[r].key && w.slots[s].open
    && OutcomeFits(w.requests[r].phase, w.slots[s])
    && (w.requests[r].phase.Closing?
        <==> (w.requests[r].key !in w.inflight || w.inflight[w.requests[r].key] != s))
  }

  ghost predicate RequestOk(w: World, r: RequestId)
    requires At(w, r)
  {
    var q := w.requests[r];
    match q.phase
    case Arrived => q.waits == 0
    case Missed => q.waits == 0
    case Waiting(s) => 1 <= q.waits <= 2 && s in w.slots && w.slots[s].key == q.key
    case Checking(s) => 1 <= q.waits <= 2 && s in w.slots && w.slots[s].key == q.key && !w.slots[s].open
    case Retry => 1 <= q.waits <= 2
    case Unowned => q.waits == 2
    case _ => q.waits <= 1 && HolderOk(w, r, Held(q.phase).value)
  }

  ghost predicate SlotOk(w: World, s: SlotId)
    requires s in w.slots
  {
    var slot := w.slots[s];
    && s < w.next
    && (slot.open ==> At(w, slot.owner) && Held(w.requests[slot.owner].phase) == Some(s))
    && (!slot.open ==> slot.outcome.Some? && (slot.outcome.value ==> slot.stored))
    && (slot.stored && s !in w.lost ==> slot.key in w.cache)
    && (slot.key in w.inflight && w.inflight[slot.key] == s ==> slot.open)
  }

  ghost predicate KeyOk(w: World, k: Key)
    requires k in w.inflight
  {
    w.inflight[k] in w.slots && w.slots[w.inflight[k]].key == k
  }

  ghost predicate Inv(w: World) {
    && (forall r :: r in w.requests ==> RequestOk(w, r))
    && (forall s :: s in w.slots ==> SlotOk(w, s))
    && (forall k :: k in w.inflight ==> KeyOk(w, k))
  }

  // ------------------------------------------------------------ every step keeps it

  ghost predicate SameElsewhere(w: World, w': World, r: RequestId) {
    forall q :: q != r ==> (q in w.requests <==> q in w'.requests)
                           && (q in w.requests ==> w'.requests[q] == w.requests[q])
  }

  ghost predicate HoldsNothing(w: World, r: RequestId) {
    r in w.requests ==> Held(w.requests[r].phase) == None
  }

  // A request that holds no slot may move, arrive or leave, and the cache may gain entries.
  lemma BystanderMoves(w: World, w': World, r: RequestId)
    requires Inv(w) && SameElsewhere(w, w', r)
    requires HoldsNothing(w, r) && HoldsNothing(w', r)
    requires w'.slots == w.slots && w'.inflight == w.inflight && w'.lost == w.lost && w'.next == w.next
    requires w.cache <= w'.cache
    requires r in w'.requests ==> RequestOk(w', r)
    ensures Inv(w')
  {
    forall q | q in w'.requests
      ensures RequestOk(w', q)
    {
      if q != r {
        assert RequestOk(w, q);
      }
    }
    forall s | s in w'.slots
      ensures SlotOk(w', s)
    {
      assert SlotOk(w, s);
    }
    forall k | k in w'.inflight
      ensures KeyOk(w', k)
    {
      assert KeyOk(w, k);
    }
  }

  // The owner of slot s moves on and updates that slot only.
  lemma OwnerMoves(w: World, w': World, r: RequestId, s: SlotId)
    requires Inv(w) && At(w, r) && At(w', r) && SameElsewhere(w, w', r)
    requires Held(w.requests[r].phase) == Some(s) == Held(w'.requests[r].phase)
    requires w'.requests[r].key == w.requests[r].key && w'.requests[r].waits == w.requests[r].waits
    requires s in w.slots && s in w'.slots && w'.slots == w.slots[s := w'.slots[s]]
    requires w'.slots[s].key == w.slots[s].key && w'.slots[s].owner == r && w'.slots[s].open
    requires OutcomeFits(w'.requests[r].phase, w'.slots[s])
    requires w'.inflight == w.inflight && w'.lost == w.lost && w'.next == w.next && w.cache <= w'.cache
    requires !w.requests[r].phase.Closing? && !w'.requests[r].phase.Closing?
    requires w'.slots[s].stored && s !in w'.lost ==> w.requests[r].key in w'.cache
    ensures Inv(w')
  {
    assert RequestOk(w, r);
    forall q | q in w'.requests
      ensures RequestOk(w', q)
    {
      assert RequestOk(w, q);
    }
    forall x | x in w'.slots
      ensures SlotOk(w', x)
    {
      assert SlotOk(w, x);
    }
    forall k | k in w'.inflight
      ensures KeyOk(w', k)
    {
      assert KeyOk(w, k);
    }
  }

  lemma BecomeOwner(w: World, r: RequestId)
    requires Inv(w) && Enabled(w, Acquire(r)) && w.requests[r].key !in w.inflight
    ensures Inv(AcquireInflight(w, r))
  {
    var w' := AcquireInflight(w, r);
    assert RequestOk(w, r);
    forall s | s in w.slots
      ensures s < w.next
    {
      assert SlotOk(w, s);
    }
    forall q | q in w'.requests
      ensures RequestOk(w', q)
    {
      if q != r {
        assert RequestOk(w, q);
      }
    }
    forall x | x in w'.slots
      ensures SlotOk(w', x)
    {
      if x != w.next {
        assert SlotOk(w, x);
      }
    }
    forall k | k in w'.inflight
      ensures KeyOk(w', k)
    {
      if k != w.requests[r].key {
        assert KeyOk(w, k);
      }
    }
  }

  lemma RemoveKeepsInv(w: World, r: RequestId)
    requires Inv(w) && Enabled(w, Remove(r))
    ensures Inv(Next(w, Remove(r)))
  {
    var w' := Next(w, Remove(r));
    assert RequestOk(w, r);
    forall q | q in w'.requests
      ensures RequestOk(w', q)
    {
      assert RequestOk(w, q);
    }
    forall x | x in w'.slots
      ensures SlotOk(w', x)
    {
      assert SlotOk(w, x);
    }
    forall k | k in w'.inflight
      ensures KeyOk(w', k)
    {
      assert KeyOk(w, k);
    }
  }

  lemma CloseKeepsInv(w: World, r: RequestId)
    requires Inv(w) && Enabled(w, Close(r))
    ensures Inv(Next(w, Close(r)))
  {
    var w' := Next(w, Close(r));
    assert RequestOk(w, r);
    forall q | q in w'.requests
      ensures RequestOk(w', q)
    {
      assert RequestOk(w, q);
    }
    forall x | x in w'.slots
      ensures SlotOk(w', x)
    {
      assert SlotOk(w, x);
    }
    forall k | k in w'.inflight
      ensures KeyOk(w', k)
    {
      assert KeyOk(w, k);
    }
  }

  lemma EvictKeepsInv(w: World, key: Key)
    requires Inv(w)
    ensures Inv(Next(w, Evict(key)))
  {
    var w' := Next(w, Evict(key));
    forall q | q in w'.requests
      ensures RequestOk(w', q)
    {
      assert RequestOk(w, q);
    }
    forall x | x in w'.slots
      ensures SlotOk(w', x)
    {
      assert SlotOk(w, x);
    }
    forall k | k in w'.inflight
      ensures KeyOk(w', k)
    {
      assert KeyOk(w, k);
    }
  }

  lemma AcquireKeepsInv(w: World, r: RequestId)
    requires Inv(w) && Enabled(w, Acquire(r))
    ensures Inv(Next(w, Acquire(r)))
  {
    assert RequestOk(w, r);
    if w.requests[r].key in w.inflight {
      assert KeyOk(w, w.requests[r].key);
      BystanderMoves(w, Next(w, Acquire(r)), r);
    } else {
      BecomeOwner(w, r);
    }
  }

  lemma OwnerStepKeepsInv(w: World, step: Step)
    requires Inv(w) && Enabled(w, step) && (step.Return? || step.Panic? || step.Store?)
    ensures Inv(Next(w, step))
  {
    var s := w.requests[step.r].phase.slot;
    assert RequestOk(w, step.r);
    assert SlotOk(w, s);
    OwnerMoves(w, Next(w, step), step.r, s);
    hide Inv;
  }

  lemma BystanderStepKeepsInv(w: World, step: Step)
    requires Inv(w) && Enabled(w, step)
    requires step.Arrive? || step.Lookup? || step.Wake? || step.Check? || step.Timeout? || step.Cancel?
          || step.GiveUp? || step.ReturnUnowned?
    ensures Inv(Next(w, step))
  {
    if !step.Arrive? {
      assert RequestOk(w, step.r);
    }
    BystanderMoves(w, Next(w, step), step.r);
    hide Inv;
  }

  lemma StepKeepsInv(w: World, step: Step)
    requires Inv(w) && Enabled(w, step)
    ensures Inv(Next(w, step))
  {
    hide Inv, Enabled, Next;
    match step
    case Acquire(r) => AcquireKeepsInv(w, r);
    case Return(_, _) => OwnerStepKeepsInv(w, step);
    case Panic(_) => OwnerStepKeepsInv(w, step);
    case Store(_) => OwnerStepKeepsInv(w, step);
    case Remove(r) => RemoveKeepsInv(w, r);
    case Close(r) => CloseKeepsInv(w, r);
    case Evict(key) => EvictKeepsInv(w, key);
    case _ => BystanderStepKeepsInv(w, step);
  }

  lemma {:induction false} RunKeepsInv(w: World, steps: seq<Step>)
    requires Inv(w) && CanRun(w, steps)
    ensures Inv(Run(w, steps))
    decreases |steps|
  {
    if steps != [] {
      StepKeepsInv(w, steps[0]);
      RunKeepsInv(Next(w, steps[0]), steps[1..]);
    }
  }

  // ------------------------------------------------------------ what every interleaving guarantees

  // A request that owns the in-flight slot of its key: it has it in the map.
  predicate Owns(w: World, r: RequestId) {
    At(w, r) && Held(w.requests[r].phase).Some? && !w.requests[r].phase.Closing?
  }

  // At most one owner per key.
  lemma OneOwnerPerKey(steps: seq<Step>, a: RequestId, b: RequestId)
    requires CanRun(INIT, steps)
    requires Owns(Run(INIT, steps), a) && Owns(Run(INIT, steps), b)
    requires Run(INIT, steps).requests[a].key == Run(INIT, steps).requests[b].key
    ensures a == b
  {
    RunKeepsInv(INIT, steps);
    var w := Run(INIT, steps);
    assert RequestOk(w, a) && RequestOk(w, b);
  }

  // A slot's channel is open exactly while it is in the map or its owner is about to close it; a slot in
  // the map is never closed.
  lemma OpenWhileRegistered(steps: seq<Step>, s: SlotId)
    requires CanRun(INIT, steps) && s in Run(INIT, steps).slots
    ensures
      var w := Run(INIT, steps);
      var slot := w.slots[s];
      slot.open <==> (slot.key in w.inflight && w.inflight[slot.key] == s)
                     || (At(w, slot.owner) && w.requests[slot.owner].phase == Closing(s))
  {
    RunKeepsInv(INIT, steps);
    var w := Run(INIT, steps);
    assert SlotOk(w, s);
    if w.slots[s].open {
      assert RequestOk(w, w.slots[s].owner);
    }
    if At(w, w.slots[s].owner) && w.requests[w.slots[s].owner].phase == Closing(s) {
      assert RequestOk(w, w.slots[s].owner);
    }
  }

  // Nobody waits on an abandoned slot: it is closed already, or a live request holds it and will close it.
  lemma WaitersHaveLiveOwner(steps: seq<Step>, r: RequestId)
    requires CanRun(INIT, steps) && At(Run(INIT, steps), r) && Run(INIT, steps).requests[r].phase.Waiting?
    ensures
      var w := Run(INIT, steps);
      var s := w.requests[r].phase.slot;
      s in w.slots && w.slots[s].key == w.requests[r].key
      && (w.slots[s].open ==> At(w, w.slots[s].owner) && Held(w.requests[w.slots[s].owner].phase) == Some(s))
  {
    RunKeepsInv(INIT, steps);
    var w := Run(INIT, steps);
    assert RequestOk(w, r);
    assert SlotOk(w, w.requests[r].phase.slot);
  }

  // A cacheable result was stored before the slot closed, and a woken waiter is served unless the entry
  // was lost in between.
  lemma StoredBeforeClosed(steps: seq<Step>, s: SlotId)
    requires CanRun(INIT, steps) && s in Run(INIT, steps).slots && !Run(INIT, steps).slots[s].open
    ensures
      var w := Run(INIT, steps);
      w.slots[s].outcome.Some?
      && (w.slots[s].outcome == Some(true) ==> w.slots[s].stored && (s in w.lost || w.slots[s].key in w.cache))
  {
    RunKeepsInv(INIT, steps);
    assert SlotOk(Run(INIT, steps), s);
  }

  lemma WokenWaiterIsServed(steps: seq<Step>, r: RequestId)
    requires CanRun(INIT, steps) && At(Run(INIT, steps), r) && Run(INIT, steps).requests[r].phase.Checking?
    ensures
      var w := Run(INIT, steps);
      var s := w.requests[r].phase.slot;
      s in w.slots && (w.slots[s].outcome == Some(true) && s !in w.lost ==> r !in Next(w, Check(r)).requests)
  {
    RunKeepsInv(INIT, steps);
    var w := Run(INIT, steps);
    assert RequestOk(w, r);
    assert SlotOk(w, w.requests[r].phase.slot);
  }

  // Only a request that has waited twice runs upstream without a slot.
  lemma UnownedAfterTwoWaits(steps: seq<Step>, r: RequestId)
    requires CanRun(INIT, steps) && At(Run(INIT, steps), r)
    ensures
      var q := Run(INIT, steps).requests[r];
      q.waits <= 2 && (q.phase == Unowned ==> q.waits == 2)
  {
    RunKeepsInv(INIT, steps);
    assert RequestOk(Run(INIT, steps), r);
  }

  // releaseInflight closes whatever slot the map holds for the key: it is always the request's own.
  lemma ReleaseFindsOwnSlot(steps: seq<Step>, r: RequestId)
    requires CanRun(INIT, steps) && Enabled(Run(INIT, steps), Remove(r))
    ensures
      var w := Run(INIT, steps);
      var q := w.requests[r];
      q.key in w.inflight && w.inflight[q.key] == q.phase.slot && Next(w, Remove(r)).requests[r].phase == Closing(q.phase.slot)
  {
    RunKeepsInv(INIT, steps);
    assert RequestOk(Run(INIT, steps), r);
  }

  lemma RunCons(w: World, step: Step, rest: seq<Step>)
    requires Enabled(w, step) && CanRun(Next(w, step), rest)
    ensures CanRun(w, [step] + rest) && Run(w, [step] + rest) == Run(Next(w, step), rest)
  {
    hide Next, Enabled;
    assert ([step] + rest)[1..] == rest;
  }

  lemma {:induction false} RunAppend(w: World, a: seq<Step>, b: seq<Step>)
    requires CanRun(w, a) && CanRun(Run(w, a), b)
    ensures CanRun(w, a + b) && Run(w, a + b) == Run(Run(w, a), b)
    decreases |a|
  {
    hide Next, Enabled;
    if a == [] {
      assert a + b == b;
    } else {
      RunAppend(Next(w, a[0]), a[1..], b);
      assert (a + b)[1..] == a[1..] + b;
    }
  }

  // A request arrives for a key that is neither cached nor in flight and becomes its owner.
  lemma BecomesOwner(w: World, r: RequestId, k: Key)
    requires r !in w.requests && k !in w.cache && k !in w.inflight
    ensures CanRun(w, [Arrive(r, k), Lookup(r), Acquire(r)])
    ensures Run(w, [Arrive(r, k), Lookup(r), Acquire(r)]) ==
      w.(requests := w.requests[r := Request(k, Owner(w.next), 0)], slots := w.slots[w.next := Slot(k, r, true, None, false)],
         inflight := w.inflight[k := w.next], next := w.next + 1)
  {
    var w1 := Next(w, Arrive(r, k));
    var w2 := Next(w1, Lookup(r));
    var w3 := Next(w2, Acquire(r));
    assert CanRun(w3, []) && Run(w3, []) == w3;
    RunCons(w2, Acquire(r), []);
    RunCons(w1, Lookup(r), [Acquire(r)]);
    assert [Acquire(r)] + [] == [Acquire(r)];
    RunCons(w, Arrive(r, k), [Lookup(r)] + [Acquire(r)]);
    assert [Arrive(r, k)] + ([Lookup(r)] + [Acquire(r)]) == [Arrive(r, k), Lookup(r), Acquire(r)];
    assert w3.requests == w.requests[r := Request(k, Owner(w.next), 0)];
  }

  // The owner's upstream call panics and its slot leaves the map; the channel is still open.
  lemma LeavesMap(w: World, r: RequestId)
    requires r in w.requests && w.requests[r].phase.Owner? && w.requests[r].phase.slot in w.slots
    requires w.requests[r].key in w.inflight && w.inflight[w.requests[r].key] == w.requests[r].phase.slot
    ensures CanRun(w, [Panic(r), Remove(r)])
    ensures
      var after, s := Run(w, [Panic(r), Remove(r)]), w.requests[r].phase.slot;
      && after.requests.Keys == w.requests.Keys && after.cache == w.cache && after.next == w.next
      && after.inflight == w.inflight - {w.requests[r].key}
      && s in after.slots && after.slots[s].open == w.slots[s].open && after.slots[s].key == w.slots[s].key
  {
    var w1 := Next(w, Panic(r));
    var w2 := Next(w1, Remove(r));
    assert CanRun(w2, []) && Run(w2, []) == w2;
    RunCons(w1, Remove(r), []);
    assert [Remove(r)] + [] == [Remove(r)];
    RunCons(w, Panic(r), [Remove(r)]);
    assert [Panic(r)] + [Remove(r)] == [Panic(r), Remove(r)];
  }

  // A slot can be open and out of the map, and a new owner can then open another slot for the same key.
  lemma TwoSlotsOpen(k: Key)
    ensures exists steps :: CanRun(INIT, steps) && BothOpen(Run(INIT, steps), k)
  {
    hide Next, Enabled, CanRun, Run;
    var a, b, c := [Arrive(0, k), Lookup(0), Acquire(0)], [Panic(0), Remove(0)], [Arrive(1, k), Lookup(1), Acquire(1)];
    BecomesOwner(INIT, 0, k);
    var w := Run(INIT, a);
    LeavesMap(w, 0);
    var v := Run(w, b);
    BecomesOwner(v, 1, k);
    RunAppend(INIT, a, b);
    RunAppend(INIT, a + b, c);
    assert BothOpen(Run(INIT, a + b + c), k);
  }

  predicate BothOpen(w: World, k: Key) {
    && 0 in w.slots && 1 in w.slots && w.slots[0].key == w.slots[1].key == k
    && w.slots[0].open && w.slots[1].open && k in w.inflight && w.inflight[k] == 1
  }

  // ------------------------------------------------------------ the same, read off the steps of a run

  // The world before step n of a run.
  ghost function Before(steps: seq<Step>, n: nat): World
    requires n <= |steps| && CanRun(INIT, steps[..n])
  {
    Run(INIT, steps[..n])
  }

  lemma {:induction false} RunSplit(w: World, a: seq<Step>, b: seq<Step>)
    requires CanRun(w, a + b)
    ensures CanRun(w, a) && CanRun(Run(w, a), b) && Run(w, a + b) == Run(Run(w, a), b)
    decreases |a|
  {
    hide Next, Enabled;
    if a == [] {
      assert a + b == b;
    } else {
      assert (a + b)[1..] == a[1..] + b;
      RunSplit(Next(w, a[0]), a[1..], b);
    }
  }

  // Every prefix of a run is a run.
  lemma PrefixRuns(steps: seq<Step>, n: nat)
    requires CanRun(INIT, steps) && n <= |steps|
    ensures CanRun(INIT, steps[..n])
  {
    assert steps == steps[..n] + steps[n..];
    RunSplit(INIT, steps[..n], steps[n..]);
  }

  lemma StepTaken(steps: seq<Step>, n: nat)
    requires CanRun(INIT, steps) && n < |steps|
    ensures CanRun(INIT, steps[..n]) && CanRun(INIT, steps[..n + 1]) && Enabled(Before(steps, n), steps[n])
    ensures Before(steps, n + 1) == Next(Before(steps, n), steps[n])
  {
    hide Next, Enabled;
    PrefixRuns(steps, n);
    PrefixRuns(steps, n + 1);
    assert steps[..n + 1] == steps[..n] + [steps[n]];
    RunSplit(INIT, steps[..n], [steps[n]]);
    var w := Before(steps, n);
    assert [steps[n]][1..] == [];
    assert CanRun(w, [steps[n]]) && Run(Next(w, steps[n]), []) == Next(w, steps[n]);
  }

  // key was evicted by a step of the run from step n on.
  predicate EvictedFrom(steps: seq<Step>, n: nat, key: Key) {
    exists j :: n <= j < |steps| && steps[j] == Evict(key)
  }

  // What is in the cache stays there until it is evicted.
  lemma {:induction false} CachedStays(steps: seq<Step>, n: nat, m: nat, key: Key)
    requires CanRun(INIT, steps) && n <= m <= |steps| && CanRun(INIT, steps[..n]) && CanRun(INIT, steps[..m])
    requires key in Before(steps, n).cache
    ensures key in Before(steps, m).cache || EvictedFrom(steps, n, key)
    decreases m
  {
    hide CanRun, Run, Enabled;
    if n < m {
      PrefixRuns(steps, m - 1);
      CachedStays(steps, n, m - 1, key);
      StepTaken(steps, m - 1);
      if steps[m - 1] == Evict(key) {
        assert EvictedFrom(steps, n, key);
      }
    }
  }

  // A result waits for its store: the request stays as it is until its own store step.
  lemma {:induction false} StoreIsNext(steps: seq<Step>, n: nat, m: nat, r: RequestId)
    requires CanRun(INIT, steps) && n <= m <= |steps| && CanRun(INIT, steps[..n]) && CanRun(INIT, steps[..m])
    requires At(Before(steps, n), r) && Before(steps, n).requests[r].phase.Finished?
    requires forall k :: n <= k < m ==> steps[k] != Store(r)
    ensures At(Before(steps, m), r) && Before(steps, m).requests[r] == Before(steps, n).requests[r]
    decreases m
  {
    hide CanRun, Run;
    if n < m {
      PrefixRuns(steps, m - 1);
      StoreIsNext(steps, n, m - 1, r);
      StepTaken(steps, m - 1);
    }
  }

  // Step i of the run is upstream's cacheable answer to the request that owns slot s for key.
  ghost predicate Answers(steps: seq<Step>, i: nat, r: RequestId, s: SlotId, key: Key) {
    && i < |steps| && steps[i] == Return(r, true) && CanRun(INIT, steps[..i])
    && At(Before(steps, i), r) && Before(steps, i).requests[r].phase == Owner(s) && Before(steps, i).requests[r].key == key
  }

  // The request was stored after step i, and since then key was not evicted or is cached anyway.
  ghost predicate StoredFrom(steps: seq<Step>, i: nat, r: RequestId, key: Key, cached: bool) {
    exists k :: i < k < |steps| && steps[k] == Store(r) && (forall m :: i < m < k ==> steps[m] != Store(r))
      && (cached || EvictedFrom(steps, k + 1, key))
  }

  // Upstream's cacheable answer to an owner is in the cache once its slot is closed, unless it was evicted after the
  // owner's store.
  lemma CacheableAnswerIsCached(steps: seq<Step>, i: nat, r: RequestId, s: SlotId, key: Key)
    requires CanRun(INIT, steps) && Answers(steps, i, r, s, key)
    requires var w := Run(INIT, steps); s in w.slots && !w.slots[s].open
    ensures StoredFrom(steps, i, r, key, key in Run(INIT, steps).cache)
  {
    hide CanRun, Run, EvictedFrom;
    StepTaken(steps, i);
    assert steps[..|steps|] == steps;
    var w := Before(steps, i + 1);
    assert w.requests[r].phase == Finished(s, true) && w.requests[r].key == key;
    var k := FirstStore(steps, i + 1, r);
    PrefixRuns(steps, k);
    StoreIsNext(steps, i + 1, k, r);
    RunKeepsInv(INIT, steps);
    HeldIsOpen(Run(INIT, steps), r);
    assert k < |steps|;
    StepTaken(steps, k);
    CachedStays(steps, k + 1, |steps|, key);
  }

  lemma HeldIsOpen(w: World, r: RequestId)
    requires Inv(w)
    ensures At(w, r) && Held(w.requests[r].phase).Some? ==>
      var s := Held(w.requests[r].phase).value; s in w.slots && w.slots[s].open
  {
    if At(w, r) {
      assert RequestOk(w, r);
    }
  }

  // The first store of r from step n on, or the end of the run.
  ghost function FirstStore(steps: seq<Step>, n: nat, r: RequestId): (k: nat)
    requires n <= |steps|
    ensures n <= k <= |steps| && (k < |steps| ==> steps[k] == Store(r))
    ensures forall m :: n <= m < k ==> steps[m] != Store(r)
    decreases |steps| - n
  {
    if n == |steps| || steps[n] == Store(r) then n else FirstStore(steps, n + 1, r)
  }

  // A waiter woken by that slot is served by its next lookup, unless the entry was evicted after the owner's store.
  lemma AnswerReachesWaiter(steps: seq<Step>, i: nat, r: RequestId, s: SlotId, key: Key, waiter: RequestId)
    requires CanRun(INIT, steps) && Answers(steps, i, r, s, key)
    requires var w := Run(INIT, steps); At(w, waiter) && w.requests[waiter].phase == Checking(s) && w.requests[waiter].key == key
    ensures StoredFrom(steps, i, r, key, waiter !in Next(Run(INIT, steps), Check(waiter)).requests)
  {
    hide CanRun, Run, EvictedFrom, StoredFrom, Answers;
    RunKeepsInv(INIT, steps);
    var w := Run(INIT, steps);
    assert RequestOk(w, waiter);
    CacheableAnswerIsCached(steps, i, r, s, key);
    ServedIfCached(w, waiter);
  }

  // A lookup serves the request exactly when its key is cached, and touches nothing else.
  lemma ServedIfCached(w: World, r: RequestId)
    requires Enabled(w, Lookup(r)) || Enabled(w, Check(r))
    ensures
      var w', key := Next(w, if Enabled(w, Lookup(r)) then Lookup(r) else Check(r)), w.requests[r].key;
      && (r !in w'.requests <==> key in w.cache)
      && w' == w.(requests := w'.requests) && w'.requests - {r} == w.requests - {r}
  {}

  // A lookup of a key that a request without a slot had answered cacheably is served, unless it was evicted since.
  lemma UnownedAnswerIsCached(steps: seq<Step>, i: nat, r: RequestId, reader: RequestId)
    requires CanRun(INIT, steps) && i < |steps| && steps[i] == ReturnUnowned(r, true)
    requires Enabled(Run(INIT, steps), Lookup(reader)) && CanRun(INIT, steps[..i]) && At(Before(steps, i), r)
    requires Run(INIT, steps).requests[reader].key == Before(steps, i).requests[r].key
    ensures reader !in Next(Run(INIT, steps), Lookup(reader)).requests
         || EvictedFrom(steps, i + 1, Run(INIT, steps).requests[reader].key)
  {
    hide CanRun, Run, EvictedFrom;
    StepTaken(steps, i);
    assert steps[..|steps|] == steps;
    CachedStays(steps, i + 1, |steps|, Before(steps, i).requests[r].key);
    ServedIfCached(Run(INIT, steps), reader);
  }

  // Some step before n was upstream's cacheable answer to a request for key.
  ghost predicate Produced(steps: seq<Step>, n: nat, key: Key) {
    exists i :: 0 <= i < n <= |steps| && Produces(steps, i, key)
  }

  ghost predicate Produces(steps: seq<Step>, i: nat, key: Key)
    requires i < |steps|
  {
    && (steps[i].Return? || steps[i].ReturnUnowned?) && steps[i].cacheable
    && CanRun(INIT, steps[..i]) && At(Before(steps, i), steps[i].r) && Before(steps, i).requests[steps[i].r].key == key
  }

  predicate WillStore(p: Phase) {
    p.Finished? && p.cacheable
  }

  // Only cacheable answers of upstream get into the cache, each under the key of its own request.
  lemma {:induction false} OnlyAnswersAreCached(steps: seq<Step>, n: nat)
    requires CanRun(INIT, steps) && n <= |steps| && CanRun(INIT, steps[..n])
    ensures forall key :: key in Before(steps, n).cache ==> Produced(steps, n, key)
    ensures forall r :: At(Before(steps, n), r) && WillStore(Before(steps, n).requests[r].phase) ==>
      Produced(steps, n, Before(steps, n).requests[r].key)
    decreases n
  {
    hide CanRun, Run, Produced, Next, Enabled;
    if n == 0 {
      assert steps[..0] == [];
      StartsEmpty();
    } else {
      PrefixRuns(steps, n - 1);
      OnlyAnswersAreCached(steps, n - 1);
      StepTaken(steps, n - 1);
      ProducedLater(steps, n - 1);
      StepProduces(Before(steps, n - 1), steps[n - 1]);
      if (steps[n - 1].Return? || steps[n - 1].ReturnUnowned?) && steps[n - 1].cacheable {
        ProducedNow(steps, n - 1);
      }
    }
  }

  // The cache gains the key of a store or of an answer without a slot, and a result to store is an answer.
  lemma StepProduces(w: World, step: Step)
    requires Enabled(w, step)
    ensures step.Return? || step.ReturnUnowned? || step.Store? ==> At(w, step.r)
    ensures forall key :: key in Next(w, step).cache ==>
      || key in w.cache
      || (step.Store? && WillStore(w.requests[step.r].phase) && key == w.requests[step.r].key)
      || (step.ReturnUnowned? && step.cacheable && key == w.requests[step.r].key)
    ensures forall r :: At(Next(w, step), r) && WillStore(Next(w, step).requests[r].phase) ==>
      && At(w, r) && Next(w, step).requests[r].key == w.requests[r].key
      && (WillStore(w.requests[r].phase) || step == Return(r, true))
  {}

  lemma StartsEmpty()
    ensures CanRun(INIT, []) && Run(INIT, []) == INIT
  {}

  lemma ProducedLater(steps: seq<Step>, n: nat)
    requires n < |steps|
    ensures forall key :: Produced(steps, n, key) ==> Produced(steps, n + 1, key)
  {}

  lemma ProducedNow(steps: seq<Step>, n: nat)
    requires n < |steps| && (steps[n].Return? || steps[n].ReturnUnowned?) && steps[n].cacheable
    requires CanRun(INIT, steps[..n]) && At(Before(steps, n), steps[n].r)
    ensures Produced(steps, n + 1, Before(steps, n).requests[steps[n].r].key)
  {
    assert Produces(steps, n, Before(steps, n).requests[steps[n].r].key);
  }
}
