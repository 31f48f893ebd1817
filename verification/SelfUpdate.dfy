// The marker files of internal/selfupdate/staging.go. Every write is a rename and every removal one system
// call, so each either happens, fails, or never happens because the process stops first.
module SelfUpdate {
  // A canonical stable tag.
  type Tag(==, !new)

  datatype Option<T> = None | Some(value: T)

  // current, previous, pending, pending-previous, pending-rollback-previous, attempt and failed markers. The
  // rollback marker records the previous marker, Some(None) being the text "none".
  datatype Markers = Markers(
    current: Option<Tag>, previous: Option<Tag>, pending: Option<Tag>, pendingPrevious: Option<Tag>,
    rollback: Option<Option<Tag>>, attempt: bool, failed: Option<Tag>)

  datatype Io = Works | Fails | Stops

  // The operations of Apply and of its cleanup, and of ConfirmStartup, each with its own outcome.
  datatype ApplyOp =
    | WriteRollback | WritePendingPrevious | RemoveAttempt | WritePending | RemoveFailed
    | UndoPending | UndoPendingPrevious | UndoRollback

  datatype ConfirmOp =
    | WriteCurrent | WritePrevious | ClearFailed | ClearPending
    | ClearPendingPrevious | ClearRollback | ClearAttempt

  datatype RollbackOp =
    | SetCurrent | SetPrevious | DropPending | DropPendingPrevious | DropRollback | DropAttempt | DropFailed

  datatype ApplyResult = NotNewer | NotStaged | InProgress | IoError | Stopped | Applied

  datatype ConfirmResult = Ignored | Mismatch | ConfirmFailed | Interrupted | Promoted

  datatype RollbackResult = NoPrevious | RollbackFailed | RollbackStopped | RolledBack

  // What recovery needs: while a candidate is pending, the rollback marker holds the previous marker as it was
  // before the update.
  predicate RollbackHolds(m: Markers, prior: Option<Tag>) {
    m.pending.Some? ==> m.rollback == Some(prior)
  }

  // A candidate was left pending although its rollback marker has been cleaned up: the failed marker could not
  // be removed, the undo of the pending marker failed, and the undo of the rollback marker did not.
  predicate LeftUnguarded(io: ApplyOp -> Io) {
    && io(WriteRollback) == io(WritePendingPrevious) == io(RemoveAttempt) == io(WritePending) == Works
    && io(RemoveFailed) == Fails && io(UndoPending) == Fails
    && io(UndoPendingPrevious) != Stops && io(UndoRollback) == Works
  }

  // The undo removed the record of the displaced release although the candidate stays pending.
  predicate RecordUndone(io: ApplyOp -> Io) {
    io(RemoveFailed) == Fails && io(UndoPending) == Fails && io(UndoPendingPrevious) == Works
  }

  // ------------------------------------------------------------ ConfirmStartup on values

  // The release that was running before the candidate: recorded by Apply, else read from the current marker.
  function Displaced(m: Markers): Option<Tag> {
    if m.pendingPrevious.Some? then m.pendingPrevious else m.current
  }

  // The markers after the first n operations of a confirmation that started in m.
  function ConfirmPrefix(m: Markers, tag: Tag, n: nat): Markers {
    var m1 := if n >= 1 then m.(current := Some(tag)) else m;
    var displaced := Displaced(m);
    var m2 := if n >= 2 && displaced.Some? && displaced.value != tag then m1.(previous := displaced) else m1;
    var m3 := if n >= 3 then m2.(failed := None) else m2;
    var m4 := if n >= 4 then m3.(pending := None) else m3;
    var m5 := if n >= 5 then m4.(pendingPrevious := None) else m4;
    var m6 := if n >= 6 then m5.(rollback := None) else m5;
    if n >= 7 then m6.(attempt := false) else m6
  }

  // A whole confirmation: it acts only while the candidate is pending.
  function Confirm(m: Markers, tag: Tag): Markers {
    if m.pending == Some(tag) then ConfirmPrefix(m, tag, 7) else m
  }

  // Confirming again after a stop at any point ends with the same current and previous markers exactly when
  // the displaced release was recorded, or the stop was not between the two writes, or there was nothing to
  // write.
  lemma RerunAfterStop(m: Markers, tag: Tag, n: nat)
    requires m.pending == Some(tag) && n <= 7
    ensures
      var again, once := Confirm(ConfirmPrefix(m, tag, n), tag), Confirm(m, tag);
      (again.current == once.current && again.previous == once.previous)
      <==> m.pendingPrevious.Some? || n != 1 || m.current.None? || m.current == Some(tag) || m.previous == m.current
  {}

  // When Apply ran under a stable tag the displaced release is recorded, so any stop is harmless.
  lemma RerunAfterStableApply(m: Markers, tag: Tag, n: nat)
    requires m.pending == Some(tag) && m.pendingPrevious.Some? && n <= 7
    ensures
      var again, once := Confirm(ConfirmPrefix(m, tag, n), tag), Confirm(m, tag);
      again.current == once.current == Some(tag) && again.previous == once.previous
  {
    RerunAfterStop(m, tag, n);
  }

  // Without the record a stop after the first write loses the displaced release.
  lemma RerunCanLoseDisplaced(a: Tag, b: Tag)
    requires a != b
    ensures
      var m := Markers(Some(a), None, Some(b), None, Some(None), false, None);
      Confirm(m, b).previous == Some(a) && Confirm(ConfirmPrefix(m, b, 1), b).previous == None
  {}

  // In every prefix of a confirmation a pending candidate keeps its rollback marker.
  lemma ConfirmKeepsRollback(m: Markers, tag: Tag, n: nat, prior: Option<Tag>)
    requires RollbackHolds(m, prior)
    ensures RollbackHolds(ConfirmPrefix(m, tag, n), prior)
  {}

  // ------------------------------------------------------------ Rollback on values

  // The release to roll back to, or none when it can no longer be started and the image's own release is used.
  function SwappedCurrent(m: Markers, staged: Tag -> bool): Option<Tag> {
    if m.previous.Some? && staged(m.previous.value) then m.previous else None
  }

  function SwappedPrevious(m: Markers): Option<Tag> {
    if m.current.Some? then m.current else m.previous
  }

  // The markers after the first n operations of a rollback that started in m.
  function RollbackPrefix(m: Markers, staged: Tag -> bool, n: nat): Markers {
    if m.previous.None? then m
    else
      var m1 := if n >= 1 then m.(current := SwappedCurrent(m, staged)) else m;
      var m2 := if n >= 2 then m1.(previous := SwappedPrevious(m)) else m1;
      var m3 := if n >= 3 then m2.(pending := None) else m2;
      var m4 := if n >= 4 then m3.(pendingPrevious := None) else m3;
      var m5 := if n >= 5 then m4.(rollback := None) else m4;
      var m6 := if n >= 6 then m5.(attempt := false) else m5;
      if n >= 7 then m6.(failed := None) else m6
  }

  // A pending candidate keeps its marker but not the rollback marker, because only the first could not be removed.
  predicate RollbackUnguards(m: Markers, io: RollbackOp -> Io) {
    && m.previous.Some? && io(SetCurrent) == Works
    && (m.current.Some? && m.current != m.previous ==> io(SetPrevious) == Works)
    && io(DropPending) == Fails && io(DropPendingPrevious) != Stops && io(DropRollback) == Works
  }

  // Rolling back twice returns to where it started exactly when both releases can be started, or when none was
  // current and the previous one cannot be started.
  lemma RollbackTwice(m: Markers, staged: Tag -> bool)
    requires m.previous.Some?
    ensures
      var twice := RollbackPrefix(RollbackPrefix(m, staged, 7), staged, 7);
      (twice.current == m.current && twice.previous == m.previous)
      <==> if m.current.None? then !staged(m.previous.value)
           else staged(m.current.value) && (staged(m.previous.value) || m.current == m.previous)
  {}

  // Rolling back again after a stop gives what one rollback gives exactly when nothing was written yet, or there
  // was nothing to swap, or both markers were written and neither release can be started. A stop between the two
  // writes loses the release that was current, and a stop after them swaps back.
  lemma RollbackRerun(m: Markers, staged: Tag -> bool, n: nat)
    requires m.previous.Some? && n <= 7
    ensures
      var again, once := RollbackPrefix(RollbackPrefix(m, staged, n), staged, 7), RollbackPrefix(m, staged, 7);
      (again.current == once.current && again.previous == once.previous)
      <==> n == 0 || m.current.None? || m.current == m.previous
           || (n >= 2 && !staged(m.previous.value) && !staged(m.current.value))
  {}

  // ------------------------------------------------------------ recovery by the entrypoint

  // The markers after the first n operations of the recovery of a candidate that failed: quarantine it, restore
  // the release that was running and the previous marker, and drop the pending transaction.
  function RecoverPrefix(m: Markers, tag: Tag, n: nat): Markers {
    var m1 := if n >= 1 then m.(failed := Some(tag)) else m;
    var m2 := if n >= 2 && m.pendingPrevious.Some? then m1.(current := m.pendingPrevious) else m1;
    var m3 := if n >= 3 && m.rollback.Some? then m2.(previous := m.rollback.value) else m2;
    var m4 := if n >= 4 then m3.(pending := None) else m3;
    var m5 := if n >= 5 then m4.(pendingPrevious := None) else m4;
    var m6 := if n >= 6 then m5.(rollback := None) else m5;
    if n >= 7 then m6.(attempt := false) else m6
  }

  function Recover(m: Markers, tag: Tag): Markers {
    if m.pending == Some(tag) then RecoverPrefix(m, tag, 7) else m
  }

  // What a successful Apply leaves, and what the candidate's own confirmation may have done to it before it died.
  function Updated(before: Markers, tag: Tag, running: Option<Tag>, attempt: bool, failed: Option<Tag>): Markers {
    Markers(before.current, before.previous, Some(tag), running, Some(before.previous), attempt, failed)
  }

  // A recovery started over any number of times, stopped after ks[i] operations the i-th time.
  function RecoverStopped(m: Markers, tag: Tag, ks: seq<nat>): Markers {
    if ks == [] then m
    else
      var s := RecoverStopped(m, tag, ks[..|ks| - 1]);
      if s.pending == Some(tag) then RecoverPrefix(s, tag, ks[|ks| - 1]) else s
  }

  // What any number of stopped recoveries of m can have done so far.
  ghost predicate Recovering(m: Markers, tag: Tag, s: Markers) {
    var target := RecoverPrefix(m, tag, 3);
    if s.pending.None? then (s.current, s.previous, s.failed) == (target.current, target.previous, target.failed)
    else
      && s.pending == Some(tag) && s.pendingPrevious == m.pendingPrevious && s.rollback == m.rollback
      && (s.current == m.current || s.current == target.current)
      && (s.previous == m.previous || s.previous == target.previous)
  }

  lemma {:induction false} RecoverStoppedTracks(m: Markers, tag: Tag, ks: seq<nat>)
    requires m.pending == Some(tag)
    ensures Recovering(m, tag, RecoverStopped(m, tag, ks))
  {
    if ks != [] {
      RecoverStoppedTracks(m, tag, ks[..|ks| - 1]);
    }
  }

  // The candidate is quarantined before anything else: once a recovery has done one operation, whatever stops follow.
  lemma {:induction false} QuarantinedFirst(m: Markers, tag: Tag, ks: seq<nat>)
    requires m.pending == Some(tag)
    ensures (exists i :: 0 <= i < |ks| && ks[i] >= 1) ==> RecoverStopped(m, tag, ks).failed == Some(tag)
    ensures (forall i :: 0 <= i < |ks| ==> ks[i] == 0) ==> RecoverStopped(m, tag, ks) == m
    ensures RecoverStopped(m, tag, ks).pending.None? ==> RecoverStopped(m, tag, ks).failed == Some(tag)
    ensures RecoverStopped(m, tag, ks).pending.Some? ==> RecoverStopped(m, tag, ks).pending == Some(tag)
  {
    if ks != [] {
      var front := ks[..|ks| - 1];
      QuarantinedFirst(m, tag, front);
      forall i | 0 <= i < |front| ensures front[i] == ks[i] {}
    }
  }

  // Wherever the candidate died before it committed, and however often the recovery itself is stopped and
  // started over, the candidate ends quarantined, the previous marker is as before the update, and the release
  // that was running is current again. Without a record of that release the current marker is left as the
  // candidate left it, and if that is the candidate itself, it is the quarantined one.
  lemma RecoveryRestarts(before: Markers, tag: Tag, running: Option<Tag>, attempt: bool, failed: Option<Tag>, n: nat,
                         ks: seq<nat>)
    requires n <= 3
    ensures
      var died := ConfirmPrefix(Updated(before, tag, running, attempt, failed), tag, n);
      var end := Recover(RecoverStopped(died, tag, ks), tag);
      && end.pending.None? && end.failed == Some(tag) && end.previous == before.previous
      && end.current == if running.Some? then running else if n == 0 then before.current else Some(tag)
  {
    var died := ConfirmPrefix(Updated(before, tag, running, attempt, failed), tag, n);
    RecoverStoppedTracks(died, tag, ks);
  }

  // A confirmation started over any number of times, stopped after ks[i] operations the i-th time.
  function ConfirmStopped(m: Markers, tag: Tag, ks: seq<nat>): Markers {
    if ks == [] then m
    else
      var s := ConfirmStopped(m, tag, ks[..|ks| - 1]);
      if s.pending == Some(tag) then ConfirmPrefix(s, tag, ks[|ks| - 1]) else s
  }

  ghost predicate Confirming(m: Markers, tag: Tag, s: Markers) {
    var target := ConfirmPrefix(m, tag, 2);
    if s.pending.None? then (s.current, s.previous) == (target.current, target.previous)
    else
      && s.pending == Some(tag) && s.pendingPrevious == m.pendingPrevious && s.rollback == m.rollback
      && (s.current == m.current || s.current == Some(tag))
      && (s.previous == m.previous || s.previous == target.previous)
  }

  lemma {:induction false} ConfirmStoppedTracks(m: Markers, tag: Tag, ks: seq<nat>)
    requires m.pending == Some(tag) && m.pendingPrevious.Some?
    ensures Confirming(m, tag, ConfirmStopped(m, tag, ks))
  {
    if ks != [] {
      ConfirmStoppedTracks(m, tag, ks[..|ks| - 1]);
    }
  }

  // However often the confirmation of m is stopped and started over, a pending candidate keeps the old previous
  // marker in its rollback marker, and the end is the new tag with the old one as previous.
  ghost predicate SurvivesStops(m: Markers, tag: Tag, running: Tag, prior: Option<Tag>, ks: seq<nat>) {
    var stopped := ConfirmStopped(m, tag, ks);
    var end := Confirm(stopped, tag);
    && RollbackHolds(stopped, prior)
    && end.current == Some(tag) && end.previous == Some(running) && end.pending.None?
  }

  // An update applied under a stable tag survives, whether or not the entrypoint has marked an attempt and the
  // failed marker is gone.
  lemma UpdateSurvivesStops(before: Markers, tag: Tag, running: Tag, attempt: bool, failed: Option<Tag>, ks: seq<nat>)
    requires running != tag
    ensures SurvivesStops(Updated(before, tag, Some(running), attempt, failed), tag, running, before.previous, ks)
  {
    ConfirmStoppedTracks(Updated(before, tag, Some(running), attempt, failed), tag, ks);
  }

  // ------------------------------------------------------------ what each outcome of an operation leaves

  // The undo of Apply gets to the pending-previous marker, and to the rollback marker.
  predicate UndoesRecord(io: ApplyOp -> Io) {
    && io(WriteRollback) == io(WritePendingPrevious) == Works
    && (|| io(RemoveAttempt) == Fails
        || (io(RemoveAttempt) == Works && io(WritePending) == Fails)
        || (io(RemoveAttempt) == io(WritePending) == Works && io(RemoveFailed) == Fails && io(UndoPending) != Stops))
  }

  predicate UndoesRollback(io: ApplyOp -> Io) {
    && io(WriteRollback) == Works
    && (io(WritePendingPrevious) == Fails || (UndoesRecord(io) && io(UndoPendingPrevious) != Stops))
  }

  // Every marker after Apply has begun to write.
  predicate ApplyLeaves(start: Markers, m: Markers, tag: Tag, running: Option<Tag>, io: ApplyOp -> Io) {
    var first := io(WriteRollback) == Works;
    var second := first && io(WritePendingPrevious) == Works;
    var third := second && io(RemoveAttempt) == Works;
    var fourth := third && io(WritePending) == Works;
    && m.current == start.current && m.previous == start.previous
    && m.pending == (if fourth && !(io(RemoveFailed) == Fails && io(UndoPending) == Works) then Some(tag) else None)
    && m.pendingPrevious == (if UndoesRecord(io) && io(UndoPendingPrevious) == Works then None
                             else if second then running else start.pendingPrevious)
    && m.rollback == (if UndoesRollback(io) && io(UndoRollback) == Works then None
                      else if first then Some(start.previous) else start.rollback)
    && m.attempt == (!third && start.attempt)
    && m.failed == if fourth && io(RemoveFailed) == Works then None else start.failed
  }

  // A failure of Apply, with an undo that runs to its end.
  predicate ApplyFails(io: ApplyOp -> Io) {
    || io(WriteRollback) == Fails
    || (io(WriteRollback) == Works && io(WritePendingPrevious) == Fails && io(UndoRollback) != Stops)
    || (UndoesRecord(io) && io(UndoPendingPrevious) != Stops && io(UndoRollback) != Stops)
  }

  // A confirmation replaces the previous marker when the displaced release is some other tag.
  predicate Replaces(m: Markers, tag: Tag) {
    if m.pendingPrevious.Some? then m.pendingPrevious != Some(tag) else m.current.Some? && m.current != Some(tag)
  }

  // The operations up to and including the removal of the failed marker, and of the pending marker, work.
  predicate Prepares(m: Markers, tag: Tag, io: ConfirmOp -> Io) {
    io(WriteCurrent) == io(ClearFailed) == Works && (Replaces(m, tag) ==> io(WritePrevious) == Works)
  }

  predicate Commits(m: Markers, tag: Tag, io: ConfirmOp -> Io) {
    Prepares(m, tag, io) && io(ClearPending) == Works
  }

  // The first operation up to the commit that does not work fails.
  predicate ConfirmFails(m: Markers, tag: Tag, io: ConfirmOp -> Io) {
    || io(WriteCurrent) == Fails
    || (io(WriteCurrent) == Works && Replaces(m, tag) && io(WritePrevious) == Fails)
    || (io(WriteCurrent) == Works && (Replaces(m, tag) ==> io(WritePrevious) == Works) && io(ClearFailed) == Fails)
    || (Prepares(m, tag, io) && io(ClearPending) == Fails)
  }

  // Every marker after a confirmation has begun to write.
  predicate ConfirmLeaves(start: Markers, m: Markers, tag: Tag, io: ConfirmOp -> Io) {
    var commits := Commits(start, tag, io);
    && m.current == (if io(WriteCurrent) == Works then Some(tag) else start.current)
    && m.previous == (if Replaces(start, tag) && io(WriteCurrent) == io(WritePrevious) == Works
                      then if start.pendingPrevious.Some? then start.pendingPrevious else start.current
                      else start.previous)
    && m.failed == (if Prepares(start, tag, io) then None else start.failed)
    && m.pending == (if commits then None else Some(tag))
    && m.pendingPrevious == (if commits && io(ClearPendingPrevious) == Works then None else start.pendingPrevious)
    && m.rollback == (if commits && io(ClearPendingPrevious) != Stops && io(ClearRollback) == Works
                      then None else start.rollback)
    && m.attempt == (start.attempt && !(commits && io(ClearPendingPrevious) != Stops && io(ClearRollback) != Stops
                                       && io(ClearAttempt) == Works))
  }

  // A rollback replaces the previous marker when another release was current.
  predicate Swaps(m: Markers) {
    m.current.Some? && m.current != m.previous
  }

  predicate RollbackWrites(m: Markers, io: RollbackOp -> Io) {
    m.previous.Some? && io(SetCurrent) == Works && (Swaps(m) ==> io(SetPrevious) == Works)
  }

  // Every marker after a rollback has begun to write.
  predicate RollbackLeaves(start: Markers, m: Markers, staged: Tag -> bool, io: RollbackOp -> Io)
    requires start.previous.Some?
  {
    var first := RollbackWrites(start, io) && io(DropPending) != Stops;
    var second := first && io(DropPendingPrevious) != Stops;
    var third := second && io(DropRollback) != Stops;
    var fourth := third && io(DropAttempt) != Stops;
    && m.current == (if io(SetCurrent) != Works then start.current
                     else if staged(start.previous.value) then start.previous else None)
    && m.previous == (if RollbackWrites(start, io) && Swaps(start) then start.current else start.previous)
    && m.pending == (if first && io(DropPending) == Works then None else start.pending)
    && m.pendingPrevious == (if first && io(DropPendingPrevious) == Works then None else start.pendingPrevious)
    && m.rollback == (if second && io(DropRollback) == Works then None else start.rollback)
    && m.attempt == (start.attempt && !(third && io(DropAttempt) == Works))
    && m.failed == if fourth && io(DropFailed) == Works then None else start.failed
  }

  class Manager {
    var m: Markers

    constructor (markers: Markers)
      ensures m == markers
    {
      m := markers;
    }

    // Apply. running is the running version if it is a stable tag; newer and staged are the checks that come
    // first. While a candidate is pending its rollback marker holds the previous marker as it was before,
    // whatever fails and wherever the process stops, except when the undo itself leaves it unguarded.
    method Apply(tag: Tag, running: Option<Tag>, newer: bool, staged: bool, io: ApplyOp -> Io) returns (r: ApplyResult)
      requires newer ==> running != Some(tag)
      modifies this
      ensures r == NotNewer <==> !newer
      ensures r == NotStaged <==> newer && !staged
      ensures r == InProgress <==> newer && staged && old(m).pending.Some?
      ensures r.NotNewer? || r.NotStaged? || r.InProgress? ==> m == old(m)
      ensures m.current == old(m).current && m.previous == old(m).previous
      ensures r == Applied <==>
        && newer && staged && old(m).pending.None?
        && io(WriteRollback) == io(WritePendingPrevious) == io(RemoveAttempt) == io(WritePending) == io(RemoveFailed) == Works
      ensures r == IoError <==> newer && staged && old(m).pending.None? && ApplyFails(io)
      ensures newer && staged && old(m).pending.None? ==> ApplyLeaves(old(m), m, tag, running, io)
      ensures r == Applied ==>
        m == Updated(old(m), tag, running, false, None)
      ensures r == Stopped && m.pending.Some? && old(m).pending.None? ==>
        m == Updated(old(m), tag, if RecordUndone(io) then None else running, false, old(m).failed)
      ensures old(m).pending.None? ==> (RollbackHolds(m, old(m).previous) <==> !(newer && staged && LeftUnguarded(io)))
      ensures old(m).pending.None? && newer && staged && LeftUnguarded(io) ==> m.pending == Some(tag) && m.rollback.None?
      ensures r == IoError && io(UndoPending) == io(UndoPendingPrevious) == io(UndoRollback) == Works
        ==> m.pending.None? && (io(WriteRollback) == Works ==> m.pendingPrevious.None? || io(WritePendingPrevious) == Fails)
    {
      if !newer {
        return NotNewer;
      }
      if !staged {
        return NotStaged;
      }
      if m.pending.Some? {
        return InProgress;
      }
      match io(WriteRollback) {
        case Stops => return Stopped;
        case Fails => return IoError;
        case Works =>
      }
      m := m.(rollback := Some(m.previous));
      match io(WritePendingPrevious) {
        case Stops => return Stopped;
        case Fails =>
          r := UndoRollbackMarker(io);
          return;
        case Works =>
      }
      m := m.(pendingPrevious := running);
      match io(RemoveAttempt) {
        case Stops => return Stopped;
        case Fails =>
          r := UndoSidecars(io);
          return;
        case Works =>
      }
      m := m.(attempt := false);
      match io(WritePending) {
        case Stops => return Stopped;
        case Fails =>
          r := UndoSidecars(io);
          return;
        case Works =>
      }
      m := m.(pending := Some(tag));
      match io(RemoveFailed) {
        case Stops => return Stopped;
        case Fails =>
          if io(UndoPending) == Stops {
            return Stopped;
          }
          if io(UndoPending) == Works {
            m := m.(pending := None);
          }
          r := UndoSidecars(io);
          return;
        case Works =>
      }
      m := m.(failed := None);
      return Applied;
    }

    // Apply under a stable tag, stopped anywhere, and then the candidate: whenever it is left pending with its
    // record, its confirmation survives any number of stops.
    method ApplyThenStops(tag: Tag, running: Tag, newer: bool, staged: bool, io: ApplyOp -> Io) returns (r: ApplyResult)
      requires running != tag && m.pending.None?
      modifies this
      ensures r == Applied || (r == Stopped && m.pending.Some? && !RecordUndone(io)) ==>
        forall attempt, ks :: SurvivesStops(m.(attempt := attempt), tag, running, old(m).previous, ks)
    {
      ghost var before := m;
      r := Apply(tag, Some(running), newer, staged, io);
      if r == Applied || (r == Stopped && m.pending.Some? && !RecordUndone(io)) {
        forall attempt, ks ensures SurvivesStops(m.(attempt := attempt), tag, running, before.previous, ks) {
          UpdateSurvivesStops(before, tag, running, attempt, m.failed, ks);
        }
      }
    }

    // removeFileForCleanup for the pending-previous and rollback markers: errors are only logged.
    method UndoSidecars(io: ApplyOp -> Io) returns (r: ApplyResult)
      modifies this
      ensures r == if io(UndoPendingPrevious) == Stops || io(UndoRollback) == Stops then Stopped else IoError
      ensures io(UndoPendingPrevious) == Stops ==> m == old(m) && r == Stopped
      ensures io(UndoPendingPrevious) != Stops ==>
        m == old(m).(pendingPrevious := if io(UndoPendingPrevious) == Works then None else old(m).pendingPrevious,
                     rollback := if io(UndoRollback) == Works then None else old(m).rollback)
    {
      if io(UndoPendingPrevious) == Stops {
        return Stopped;
      }
      if io(UndoPendingPrevious) == Works {
        m := m.(pendingPrevious := None);
      }
      r := UndoRollbackMarker(io);
    }

    method UndoRollbackMarker(io: ApplyOp -> Io) returns (r: ApplyResult)
      modifies this
      ensures r == if io(UndoRollback) == Stops then Stopped else IoError
      ensures m == old(m).(rollback := if io(UndoRollback) == Works then None else old(m).rollback)
    {
      if io(UndoRollback) == Stops {
        return Stopped;
      }
      if io(UndoRollback) == Works {
        m := m.(rollback := None);
      }
      return IoError;
    }

    // ConfirmStartup. active is the version the entrypoint started; running is the version of the binary. A
    // failure before the commit returns; the sidecars are cleaned up afterwards as far as possible.
    method ConfirmStartup(active: Option<Tag>, running: Option<Tag>, staged: bool, io: ConfirmOp -> Io) returns (r: ConfirmResult)
      modifies this
      ensures r == Ignored <==> active.None? || old(m).pending != active
      ensures r == Mismatch <==> active.Some? && old(m).pending == active && running != active
      ensures r == Promoted <==>
        && active.Some? && old(m).pending == active && running == active && staged && Commits(old(m), active.value, io)
        && io(ClearPendingPrevious) != Stops && io(ClearRollback) != Stops && io(ClearAttempt) != Stops
      ensures r == ConfirmFailed <==>
        && active.Some? && old(m).pending == active && running == active
        && (!staged || ConfirmFails(old(m), active.value, io))
      ensures r == Ignored || r == Mismatch || !staged ==> m == old(m)
      ensures active.Some? && old(m).pending == active && running == active && staged ==>
        ConfirmLeaves(old(m), m, active.value, io)
      ensures forall prior :: RollbackHolds(old(m), prior) ==> RollbackHolds(m, prior)
      ensures r == Promoted ==>
        && m.pending.None? && m.failed.None? && m.current == active
        && m.previous == ConfirmPrefix(old(m), active.value, 2).previous
      ensures active.Some? && m.pending.Some? && r != Ignored && r != Mismatch ==>
        exists n: nat :: n <= 3 && m == ConfirmPrefix(old(m), active.value, n)
      ensures r == Promoted && (forall op :: io(op) == Works) ==> m == Confirm(old(m), active.value)
    {
      if active.None? || m.pending != active {
        return Ignored;
      }
      var tag := active.value;
      if running != active {
        return Mismatch;
      }
      ghost var start := m;
      assert m == ConfirmPrefix(start, tag, 0);
      if !staged {
        return ConfirmFailed;
      }
      var displaced := Displaced(m);
      if io(WriteCurrent) != Works {
        return if io(WriteCurrent) == Fails then ConfirmFailed else Interrupted;
      }
      m := m.(current := Some(tag));
      assert m == ConfirmPrefix(start, tag, 1);
      if displaced.Some? && displaced.value != tag {
        if io(WritePrevious) != Works {
          return if io(WritePrevious) == Fails then ConfirmFailed else Interrupted;
        }
        m := m.(previous := displaced);
      }
      assert m == ConfirmPrefix(start, tag, 2);
      if io(ClearFailed) != Works {
        return if io(ClearFailed) == Fails then ConfirmFailed else Interrupted;
      }
      m := m.(failed := None);
      assert m == ConfirmPrefix(start, tag, 3);
      if io(ClearPending) != Works {
        return if io(ClearPending) == Fails then ConfirmFailed else Interrupted;
      }
      m := m.(pending := None);
      r := ClearSidecars(io);
    }

    // The housekeeping after the commit: errors are only logged.
    method ClearSidecars(io: ConfirmOp -> Io) returns (r: ConfirmResult)
      modifies this
      ensures r == if io(ClearPendingPrevious) == Stops || io(ClearRollback) == Stops || io(ClearAttempt) == Stops
                   then Interrupted else Promoted
      ensures
        var first := io(ClearPendingPrevious) != Stops;
        m == old(m).(pendingPrevious := if io(ClearPendingPrevious) == Works then None else old(m).pendingPrevious,
                     rollback := if first && io(ClearRollback) == Works then None else old(m).rollback,
                     attempt := old(m).attempt && !(first && io(ClearRollback) != Stops && io(ClearAttempt) == Works))
    {
      if io(ClearPendingPrevious) == Stops {
        return Interrupted;
      }
      if io(ClearPendingPrevious) == Works {
        m := m.(pendingPrevious := None);
      }
      if io(ClearRollback) == Stops {
        return Interrupted;
      }
      if io(ClearRollback) == Works {
        m := m.(rollback := None);
      }
      if io(ClearAttempt) == Stops {
        return Interrupted;
      }
      if io(ClearAttempt) == Works {
        m := m.(attempt := false);
      }
      return Promoted;
    }

    // Rollback. staged says which releases can still be started; if the previous one cannot, the image's own
    // release is used. A pending candidate loses its guard only when its marker stays and the rollback marker goes.
    method Rollback(staged: Tag -> bool, io: RollbackOp -> Io) returns (r: RollbackResult)
      modifies this
      ensures r == NoPrevious <==> old(m).previous.None?
      ensures r == RolledBack <==>
        && RollbackWrites(old(m), io)
        && io(DropPending) != Stops && io(DropPendingPrevious) != Stops && io(DropRollback) != Stops
        && io(DropAttempt) != Stops && io(DropFailed) != Stops
      ensures r == RollbackFailed <==>
        old(m).previous.Some? && (io(SetCurrent) == Fails || (io(SetCurrent) == Works && Swaps(old(m)) && io(SetPrevious) == Fails))
      ensures r == NoPrevious ==> m == old(m)
      ensures old(m).previous.Some? ==> RollbackLeaves(old(m), m, staged, io)
      ensures r == RolledBack ==>
        (m.current, m.previous) == (SwappedCurrent(old(m), staged), SwappedPrevious(old(m)))
      ensures r == RolledBack && (forall op :: io(op) == Works) ==> m == RollbackPrefix(old(m), staged, 7)
      ensures r == RollbackFailed ==>
        m == old(m) || (io(SetPrevious) == Fails && m == RollbackPrefix(old(m), staged, 1))
      ensures forall prior :: old(m).pending.Some? && RollbackHolds(old(m), prior) ==>
        (RollbackHolds(m, prior) <==> !RollbackUnguards(old(m), io))
      ensures RollbackUnguards(old(m), io) ==> m.pending == old(m).pending && m.rollback.None?
    {
      if m.previous.None? {
        return NoPrevious;
      }
      var current, previous := m.current, m.previous;
      if io(SetCurrent) != Works {
        return if io(SetCurrent) == Fails then RollbackFailed else RollbackStopped;
      }
      m := m.(current := if staged(previous.value) then previous else None);
      if current.Some? && current != previous {
        if io(SetPrevious) != Works {
          return if io(SetPrevious) == Fails then RollbackFailed else RollbackStopped;
        }
        m := m.(previous := current);
      }
      r := DropSidecars(io);
    }

    // removeFileForCleanup for the five remaining markers: errors are only logged.
    method DropSidecars(io: RollbackOp -> Io) returns (r: RollbackResult)
      modifies this
      ensures r == if io(DropPending) == Stops || io(DropPendingPrevious) == Stops || io(DropRollback) == Stops
                      || io(DropAttempt) == Stops || io(DropFailed) == Stops then RollbackStopped else RolledBack
      ensures m.current == old(m).current && m.previous == old(m).previous
      ensures
        var first := io(DropPending) != Stops;
        var second := first && io(DropPendingPrevious) != Stops;
        var third := second && io(DropRollback) != Stops;
        var fourth := third && io(DropAttempt) != Stops;
        && m.pending == (if io(DropPending) == Works then None else old(m).pending)
        && m.pendingPrevious == (if first && io(DropPendingPrevious) == Works then None else old(m).pendingPrevious)
        && m.rollback == (if second && io(DropRollback) == Works then None else old(m).rollback)
        && m.attempt == (old(m).attempt && !(third && io(DropAttempt) == Works))
        && m.failed == if fourth && io(DropFailed) == Works then None else old(m).failed
    {
      if io(DropPending) == Stops { return RollbackStopped; }
      if io(DropPending) == Works { m := m.(pending := None); }
      if io(DropPendingPrevious) == Stops { return RollbackStopped; }
      if io(DropPendingPrevious) == Works { m := m.(pendingPrevious := None); }
      if io(DropRollback) == Stops { return RollbackStopped; }
      if io(DropRollback) == Works { m := m.(rollback := None); }
      if io(DropAttempt) == Stops { return RollbackStopped; }
      if io(DropAttempt) == Works { m := m.(attempt := false); }
      if io(DropFailed) == Stops { return RollbackStopped; }
      if io(DropFailed) == Works { m := m.(failed := None); }
      return RolledBack;
    }
  }

  // Apply can leave a candidate pending without its rollback marker: neither the failed marker nor the pending
  // marker can be removed, and the rollback marker can.
  method UnguardedApply(current: Tag, tag: Tag) returns (left: Markers)
    requires current != tag
    ensures left.pending == Some(tag) && left.rollback.None?
  {
    var manager := new Manager(Markers(Some(current), None, None, None, None, false, Some(tag)));
    var io := (op: ApplyOp) => if op == RemoveFailed || op == UndoPending then Fails else Works;
    assert LeftUnguarded(io);
    var r := manager.Apply(tag, Some(current), true, true, io);
    left := manager.m;
  }

  // Rollback can do the same to a candidate whose marker cannot be removed.
  method UnguardedRollback(current: Tag, previous: Tag, tag: Tag) returns (left: Markers)
    ensures left.pending == Some(tag) && left.rollback.None?
  {
    var manager := new Manager(
      Markers(Some(current), Some(previous), Some(tag), Some(current), Some(Some(previous)), false, None));
    var io := (op: RollbackOp) => if op == DropPending then Fails else Works;
    assert RollbackUnguards(manager.m, io);
    var r := manager.Rollback(_ => true, io);
    left := manager.m;
  }
}
