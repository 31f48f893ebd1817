// The per-key lock with a reference count that internal/account/affinity.go (session locks) and
// internal/proxyservice/subscriptions.go (subscription refresh gates) share: a lock object is created
// when the first participant registers and deleted when the last one leaves. Goroutines interleave at
// every mutex operation.
module KeyedLock {
  // Keys are compared and nothing else. The empty key takes no lock, so it never enters the protocol.
  type Key(==, !new)
  type Goroutine = nat
  type LockId = nat

  // Where a goroutine is inside the protocol; one that is in no phase has not registered.
  datatype Phase = Registered | Holding | Released

  datatype Participant = Participant(key: Key, lock: LockId, phase: Phase)

  // locks is the map from key to lock object, refs the counter of each object, owner who holds the
  // inner mutex of each object; nextLock is the identity of the next object to be allocated.
  datatype World = World(
    locks: map<Key, LockId>,
    refs: map<LockId, int>,
    owner: map<LockId, Goroutine>,
    participants: map<Goroutine, Participant>,
    nextLock: LockId)

  const INIT := World(map[], map[], map[], map[], 0)

  // Register and Unregister run under the outer mutex; Acquire and Release are the inner mutex operations.
  datatype Step =
    | Register(g: Goroutine, key: Key)
    | Acquire(g: Goroutine)
    | Release(g: Goroutine)
    | Unregister(g: Goroutine)

  predicate InPhase(w: World, g: Goroutine, phase: Phase) {
    g in w.participants && w.participants[g].phase == phase
  }

  predicate Enabled(w: World, step: Step) {
    match step
    case Register(g, key) => g !in w.participants
    case Acquire(g) => InPhase(w, g, Registered) && w.participants[g].lock !in w.owner
    case Release(g) => InPhase(w, g, Holding)
    case Unregister(g) => InPhase(w, g, Released)
  }

  function Count(w: World, lock: LockId): int {
    if lock in w.refs then w.refs[lock] else 0
  }

  function Next(w: World, step: Step): World
    requires Enabled(w, step)
  {
    match step
    case Register(g, key) =>
      var absent := key !in w.locks;
      var lock := if absent then w.nextLock else w.locks[key];
      w.(locks := w.locks[key := lock],
         refs := w.refs[lock := (if absent then 0 else Count(w, lock)) + 1],
         participants := w.participants[g := Participant(key, lock, Registered)],
         nextLock := if absent then w.nextLock + 1 else w.nextLock)
    case Acquire(g) =>
      var p := w.participants[g];
      w.(owner := w.owner[p.lock := g], participants := w.participants[g := p.(phase := Holding)])
    case Release(g) =>
      var p := w.participants[g];
      w.(owner := w.owner - {p.lock}, participants := w.participants[g := p.(phase := Released)])
    case Unregister(g) =>
      var p := w.participants[g];
      var refs := Count(w, p.lock) - 1;
      w.(refs := w.refs[p.lock := refs],
         locks := if refs <= 0 && p.key in w.locks && w.locks[p.key] == p.lock then w.locks - {p.key} else w.locks,
         participants := w.participants - {g})
  }

  // A run of enabled steps from w; None if some step is not enabled when its turn comes.
  ghost predicate CanRun(w: World, steps: seq<Step>)
    decreases |steps|
  {
    steps == [] || (Enabled(w, steps[0]) && CanRun(Next(w, steps[0]), steps[1..]))
  }

  ghost function Run(w: World, steps: seq<Step>): World
    requires CanRun(w, steps)
    decreases |steps|
  {
    if steps == [] then w else Run(Next(w, steps[0]), steps[1..])
  }

  // ------------------------------------------------------------ the invariant

  ghost function Members(w: World, lock: LockId): set<Goroutine> {
    set g | g in w.participants && w.participants[g].lock == lock
  }

  ghost predicate ParticipantsAgree(w: World) {
    forall g :: g in w.participants ==>
      w.participants[g].key in w.locks && w.locks[w.participants[g].key] == w.participants[g].lock
  }

  ghost predicate RefsAt(w: World, k: Key)
    requires k in w.locks
  {
    var l := w.locks[k];
    l < w.nextLock && l in w.refs && w.refs[l] == |Members(w, l)| && w.refs[l] > 0
  }

  ghost predicate RefsAgree(w: World) {
    forall k :: k in w.locks ==> RefsAt(w, k)
  }

  ghost predicate LocksDistinct(w: World) {
    forall k, k' :: k in w.locks && k' in w.locks && w.locks[k] == w.locks[k'] ==> k == k'
  }

  // The inner mutex is held by the goroutine recorded as its owner, and by no other.
  ghost predicate OwnerHolds(w: World, l: LockId)
    requires l in w.owner
  {
    InPhase(w, w.owner[l], Holding) && w.participants[w.owner[l]].lock == l
  }

  ghost predicate HolderOwns(w: World, g: Goroutine)
    requires g in w.participants
  {
    w.participants[g].phase == Holding ==>
      w.participants[g].lock in w.owner && w.owner[w.participants[g].lock] == g
  }

  ghost predicate OwnersHold(w: World) {
    && (forall l :: l in w.owner ==> OwnerHolds(w, l))
    && (forall g :: g in w.participants ==> HolderOwns(w, g))
  }

  ghost predicate Inv(w: World) {
    ParticipantsAgree(w) && RefsAgree(w) && LocksDistinct(w) && OwnersHold(w)
  }

  // Counting is not affected by a step that keeps the membership and the counter of a lock.
  lemma RefsFrame(w: World, w': World, k: Key)
    requires k in w.locks && k in w'.locks && w.locks[k] == w'.locks[k] && RefsAt(w, k)
    requires w.nextLock <= w'.nextLock
    requires w.locks[k] in w'.refs && w'.refs[w.locks[k]] == w.refs[w.locks[k]]
    requires Members(w', w.locks[k]) == Members(w, w.locks[k])
    ensures RefsAt(w', k)
  {}

  lemma RegisterCounts(w: World, g: Goroutine, key: Key)
    requires ParticipantsAgree(w) && RefsAgree(w) && LocksDistinct(w) && Enabled(w, Register(g, key))
    ensures RefsAgree(Next(w, Register(g, key)))
  {
    var w' := Next(w, Register(g, key));
    var lock := w'.locks[key];
    forall k | k in w'.locks
      ensures RefsAt(w', k)
    {
      if k != key {
        assert RefsAt(w, k);
        assert Members(w', w.locks[k]) == Members(w, w.locks[k]);
        RefsFrame(w, w', k);
      } else if key in w.locks {
        assert RefsAt(w, k);
        assert Members(w', lock) == Members(w, lock) + {g};
      } else {
        forall h | h in w.participants
          ensures w.participants[h].lock != lock
        {
          assert RefsAt(w, w.participants[h].key);
        }
        assert Members(w', lock) == {g};
      }
    }
  }

  // A step that leaves the inner mutexes and every holder's record alone keeps the ownership facts.
  lemma OwnersFrame(w: World, w': World)
    requires OwnersHold(w) && w'.owner == w.owner
    requires forall g :: InPhase(w, g, Holding) ==> g in w'.participants && w'.participants[g] == w.participants[g]
    requires forall g :: InPhase(w', g, Holding) ==> InPhase(w, g, Holding)
    ensures OwnersHold(w')
  {
    forall l | l in w'.owner
      ensures OwnerHolds(w', l)
    {
      assert OwnerHolds(w, l);
    }
    forall g | g in w'.participants
      ensures HolderOwns(w', g)
    {
      if InPhase(w', g, Holding) {
        assert HolderOwns(w, g);
      }
    }
  }

  lemma RegisterKeepsInv(w: World, g: Goroutine, key: Key)
    requires Inv(w) && Enabled(w, Register(g, key))
    ensures Inv(Next(w, Register(g, key)))
  {
    RegisterCounts(w, g, key);
    var w' := Next(w, Register(g, key));
    OwnersFrame(w, w');
    hide Members, OwnersHold;
    assert forall k :: k in w.locks ==> RefsAt(w, k);
    assert LocksDistinct(w');
  }

  // Acquire and Release change who holds the inner mutex and nothing about registration.
  lemma MutexStepCounts(w: World, step: Step)
    requires RefsAgree(w) && Enabled(w, step) && (step.Acquire? || step.Release?)
    ensures RefsAgree(Next(w, step))
  {
    var w' := Next(w, step);
    forall k | k in w'.locks
      ensures RefsAt(w', k)
    {
      assert RefsAt(w, k);
      assert Members(w', w.locks[k]) == Members(w, w.locks[k]);
      RefsFrame(w, w', k);
    }
  }

  lemma AcquireOwners(w: World, g: Goroutine)
    requires OwnersHold(w) && Enabled(w, Acquire(g))
    ensures OwnersHold(Next(w, Acquire(g)))
  {
    var w' := Next(w, Acquire(g));
    forall l | l in w'.owner
      ensures OwnerHolds(w', l)
    {
      if l in w.owner {
        assert OwnerHolds(w, l);
      }
    }
    forall h | h in w'.participants
      ensures HolderOwns(w', h)
    {
      assert HolderOwns(w, h);
    }
  }

  lemma ReleaseOwners(w: World, g: Goroutine)
    requires OwnersHold(w) && Enabled(w, Release(g))
    ensures OwnersHold(Next(w, Release(g)))
  {
    var w' := Next(w, Release(g));
    assert HolderOwns(w, g);
    forall l | l in w'.owner
      ensures OwnerHolds(w', l)
    {
      assert OwnerHolds(w, l);
    }
    forall h | h in w'.participants
      ensures HolderOwns(w', h)
    {
      assert HolderOwns(w, h);
    }
  }

  lemma MutexStepKeepsInv(w: World, step: Step)
    requires Inv(w) && Enabled(w, step) && (step.Acquire? || step.Release?)
    ensures Inv(Next(w, step))
  {
    MutexStepCounts(w, step);
    match step {
      case Acquire(g) => AcquireOwners(w, g);
      case Release(g) => ReleaseOwners(w, g);
    }
    hide Members, RefsAgree, OwnersHold;
  }

  lemma UnregisterCounts(w: World, g: Goroutine)
    requires Inv(w) && Enabled(w, Unregister(g))
    ensures RefsAgree(Next(w, Unregister(g)))
    ensures forall h :: h in w.participants && h != g ==> w.participants[h].key in Next(w, Unregister(g)).locks
  {
    var w' := Next(w, Unregister(g));
    var p := w.participants[g];
    assert RefsAt(w, p.key);
    assert g in Members(w, p.lock);
    assert Members(w', p.lock) == Members(w, p.lock) - {g};
    forall h | h in w.participants && h != g
      ensures w.participants[h].key in w'.locks
    {
      if w.participants[h].key == p.key {
        assert h in Members(w', p.lock);
        assert |Members(w', p.lock)| > 0;
      }
    }
    forall k | k in w'.locks
      ensures RefsAt(w', k)
    {
      assert RefsAt(w, k);
      if k != p.key {
        assert Members(w', w.locks[k]) == Members(w, w.locks[k]);
        RefsFrame(w, w', k);
      }
    }
  }

  lemma UnregisterKeepsInv(w: World, g: Goroutine)
    requires Inv(w) && Enabled(w, Unregister(g))
    ensures Inv(Next(w, Unregister(g)))
  {
    UnregisterCounts(w, g);
    OwnersFrame(w, Next(w, Unregister(g)));
    hide Members, RefsAgree, OwnersHold;
  }

  lemma StepKeepsInv(w: World, step: Step)
    requires Inv(w) && Enabled(w, step)
    ensures Inv(Next(w, step))
  {
    match step
    case Register(g, key) => RegisterKeepsInv(w, g, key);
    case Unregister(g) => UnregisterKeepsInv(w, g);
    case _ => MutexStepKeepsInv(w, step);
  }

  lemma {:induction false} RunKeepsInv(w: World, steps: seq<Step>)
    requires Inv(w) && CanRun(w, steps)
    ensures Inv(Run(w, steps))
    decreases |steps|
  {
    if steps != [] {
      StepKeepsInv(w, steps[0]);
      RunKeepsInv(Next(w, steps[0]), steps[1..]);
    }
  }

  // ------------------------------------------------------------ what every interleaving guarantees

  // At most one goroutine holds a key's lock, although lock objects come and go.
  lemma MutualExclusion(steps: seq<Step>, a: Goroutine, b: Goroutine)
    requires CanRun(INIT, steps)
    requires InPhase(Run(INIT, steps), a, Holding) && InPhase(Run(INIT, steps), b, Holding)
    requires Run(INIT, steps).participants[a].key == Run(INIT, steps).participants[b].key
    ensures a == b
  {
    RunKeepsInv(INIT, steps);
    assert HolderOwns(Run(INIT, steps), a) && HolderOwns(Run(INIT, steps), b);
  }

  // A key has an entry exactly while it has participants, and the entry counts them.
  lemma EntryCountsParticipants(steps: seq<Step>, key: Key)
    requires CanRun(INIT, steps)
    ensures
      var w := Run(INIT, steps);
      var users := set g | g in w.participants && w.participants[g].key == key;
      (key in w.locks <==> users != {}) && (key in w.locks ==> Count(w, w.locks[key]) == |users|)
  {
    RunKeepsInv(INIT, steps);
    var w := Run(INIT, steps);
    assert key in w.locks ==> RefsAt(w, key);
    var users := set g | g in w.participants && w.participants[g].key == key;
    if key in w.locks {
      assert users == Members(w, w.locks[key]);
    }
  }

  // When a participant leaves, the entry is its own object and the count is not negative: the identity
  // test is never what saves the map, and testing for zero (the gate) or for at most zero (the session
  // lock) are the same.
  lemma UnregisterGuard(steps: seq<Step>, g: Goroutine)
    requires CanRun(INIT, steps) && InPhase(Run(INIT, steps), g, Released)
    ensures
      var w := Run(INIT, steps);
      var p := w.participants[g];
      p.key in w.locks && w.locks[p.key] == p.lock && Count(w, p.lock) - 1 >= 0
  {
    RunKeepsInv(INIT, steps);
    var w := Run(INIT, steps);
    assert RefsAt(w, w.participants[g].key);
  }

  // A registered goroutine waits only for a goroutine that really holds its key.
  lemma WaitsOnlyForHolder(steps: seq<Step>, g: Goroutine)
    requires CanRun(INIT, steps) && InPhase(Run(INIT, steps), g, Registered)
    ensures
      var w := Run(INIT, steps);
      Enabled(w, Acquire(g))
      || exists h :: InPhase(w, h, Holding) && w.participants[h].key == w.participants[g].key
  {
    RunKeepsInv(INIT, steps);
    var w := Run(INIT, steps);
    var lock := w.participants[g].lock;
    if lock in w.owner {
      var h := w.owner[lock];
      assert OwnerHolds(w, lock);
      assert InPhase(w, h, Holding) && w.participants[h].key == w.participants[g].key;
    }
  }
}
