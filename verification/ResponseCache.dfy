// The two-tier response cache of internal/responsecache/cache.go: a memory tier with byte accounting, a
// session index and sliding leases, over a disk tier that is a map of records. Times are nanoseconds and
// come in as parameters. Keys and sessions are only compared; None is the empty session key.
module ResponseCache {
  type Key(==, !new)
  type Session(==, !new)

  datatype Option<T> = None | Some(value: T)

  // header is all header names and values, already sanitized; noStore and setCookie are what it says.
  datatype Entry = Entry(status: int, body: string, header: string, noStore: bool, setCookie: bool, diskExpiresAt: int)

  datatype MemoryEntry = MemoryEntry(entry: Entry, memoryExpiresAt: int, size: nat, session: Option<Session>)

  datatype Source = Memory | Disk

  function Cacheable(e: Entry, maxBody: int): bool {
    200 <= e.status < 300 && e.body != [] && !(maxBody > 0 && |e.body| > maxBody) && !e.noStore && !e.setCookie
  }

  function MemorySize(e: Entry): nat {
    |e.body| + |e.header|
  }

  // A record keeps its deadline in whole seconds.
  function WholeSeconds(t: int): int {
    t - t % SECOND
  }

  const SECOND := 1_000_000_000

  predicate Live(item: MemoryEntry, now: int) {
    now < item.memoryExpiresAt && now < item.entry.diskExpiresAt
  }

  // The same response, and a deadline that is not later.
  predicate Faithful(e: Entry, latest: Entry) {
    e == latest.(diskExpiresAt := e.diskExpiresAt) && e.diskExpiresAt <= latest.diskExpiresAt
  }

  // ------------------------------------------------------------ byte accounting

  ghost function TotalSize(items: map<Key, MemoryEntry>): nat {
    if items == map[] then 0
    else
      var k :| k in items;
      items[k].size + TotalSize(items - {k})
  }

  lemma {:induction false} TotalSizeRemove(items: map<Key, MemoryEntry>, k: Key)
    requires k in items
    ensures TotalSize(items) == items[k].size + TotalSize(items - {k})
    decreases |items|
  {
    var c :| c in items && TotalSize(items) == items[c].size + TotalSize(items - {c});
    if c != k {
      TotalSizeRemove(items - {c}, k);
      TotalSizeRemove(items - {k}, c);
      assert items - {c} - {k} == items - {k} - {c};
    }
  }

  lemma TotalSizeReplace(items: map<Key, MemoryEntry>, k: Key, item: MemoryEntry)
    ensures TotalSize(items[k := item]) == TotalSize(items) - (if k in items then items[k].size else 0) + item.size
  {
    if k in items {
      TotalSizeRemove(items, k);
    } else {
      assert items - {k} == items;
    }
    TotalSizeRemove(items[k := item], k);
    assert items[k := item] - {k} == items - {k};
  }

  // ------------------------------------------------------------ the session index

  // index maps each session to the keys of its items, and holds no empty bucket.
  ghost predicate IndexExact(items: map<Key, MemoryEntry>, index: map<Session, set<Key>>) {
    && (forall s :: s in index ==> index[s] != {})
    && (forall s, k :: s in index && k in index[s] ==> k in items && items[k].session == Some(s))
    && (forall k :: k in items && items[k].session.Some?
          ==> items[k].session.value in index && k in index[items[k].session.value])
  }

  // removeFromSessionLocked and addToSessionLocked.
  function Unlink(index: map<Session, set<Key>>, session: Option<Session>, k: Key): map<Session, set<Key>> {
    if session.None? || session.value !in index then index
    else if index[session.value] - {k} == {} then index - {session.value}
    else index[session.value := index[session.value] - {k}]
  }

  function Link(index: map<Session, set<Key>>, session: Option<Session>, k: Key): map<Session, set<Key>> {
    if session.None? then index
    else index[session.value := (if session.value in index then index[session.value] else {}) + {k}]
  }

  lemma UnlinkExact(items: map<Key, MemoryEntry>, index: map<Session, set<Key>>, k: Key)
    requires IndexExact(items, index) && k in items
    ensures IndexExact(items - {k}, Unlink(index, items[k].session, k))
  {}

  lemma LinkExact(items: map<Key, MemoryEntry>, index: map<Session, set<Key>>, k: Key, item: MemoryEntry)
    requires IndexExact(items, index) && k !in items
    ensures IndexExact(items[k := item], Link(index, item.session, k))
  {}

  // Replacing an item inside its session leaves the index as it was.
  lemma RelinkSame(items: map<Key, MemoryEntry>, index: map<Session, set<Key>>, k: Key, item: MemoryEntry)
    requires IndexExact(items, index) && k in items && item.session == items[k].session
    ensures IndexExact(items[k := item], index)
  {}

  // Replacing item k, as putMemoryWithPolicySession relinks it.
  function Relink(index: map<Session, set<Key>>, prior: Option<MemoryEntry>, session: Option<Session>, k: Key)
    : map<Session, set<Key>>
  {
    var unlinked := if prior.Some? && prior.value.session.Some? && prior.value.session != session
                    then Unlink(index, prior.value.session, k) else index;
    Link(unlinked, session, k)
  }

  function Find(items: map<Key, MemoryEntry>, k: Key): Option<MemoryEntry> {
    if k in items then Some(items[k]) else None
  }

  lemma RelinkExact(items: map<Key, MemoryEntry>, index: map<Session, set<Key>>, k: Key, item: MemoryEntry)
    requires IndexExact(items, index)
    ensures IndexExact(items[k := item], Relink(index, Find(items, k), item.session, k))
  {
    if k !in items {
      LinkExact(items, index, k, item);
    } else if item.session == items[k].session {
      RelinkSame(items, index, k, item);
      if item.session.Some? {
        assert index[item.session.value] + {k} == index[item.session.value];
      }
    } else {
      UnlinkExact(items, index, k);
      LinkExact(items - {k}, Unlink(index, items[k].session, k), k, item);
      assert (items - {k})[k := item] == items[k := item];
    }
  }

  // ------------------------------------------------------------ sweeping, leases and eviction on values

  ghost function LiveItems(items: map<Key, MemoryEntry>, now: int): map<Key, MemoryEntry> {
    map k | k in items && Live(items[k], now) :: items[k]
  }

  lemma SweptItems(items: map<Key, MemoryEntry>, now: int)
    ensures forall k :: k in LiveItems(items, now) <==> k in items && Live(items[k], now)
    ensures forall k :: k in LiveItems(items, now) ==> LiveItems(items, now)[k] == items[k]
  {}

  // bumpSingleEntryExpiryLocked: the lease moves to now + ttl, capped by the disk deadline, and never back.
  function Bumped(item: MemoryEntry, now: int, ttl: int): MemoryEntry {
    var extended := if item.entry.diskExpiresAt < now + ttl then item.entry.diskExpiresAt else now + ttl;
    if extended > item.memoryExpiresAt then item.(memoryExpiresAt := extended) else item
  }

  // Every item of one session gets its lease refreshed, except the one named.
  ghost function BumpSiblings(items: map<Key, MemoryEntry>, session: Option<Session>, except: Key, now: int, ttl: int)
    : map<Key, MemoryEntry>
  {
    map k | k in items ::
      if session.Some? && items[k].session == session && k != except then Bumped(items[k], now, ttl) else items[k]
  }

  // after is what eviction may leave of before: it fits, nothing that expires later than a survivor was
  // dropped, and nothing was dropped without need: the last one dropped would not fit back in.
  ghost predicate Evicted(before: map<Key, MemoryEntry>, after: map<Key, MemoryEntry>, cap: int) {
    && (forall k :: k in after ==> k in before && after[k] == before[k])
    && TotalSize(after) <= cap
    && (forall k, s :: k in before && k !in after && s in after ==> before[k].memoryExpiresAt <= after[s].memoryExpiresAt)
    && (after != before ==> exists k :: LastDropped(before, after, cap, k))
  }

  ghost predicate LastDropped(before: map<Key, MemoryEntry>, after: map<Key, MemoryEntry>, cap: int, k: Key) {
    && k in before && k !in after
    && TotalSize(after) + before[k].size > cap
    && forall d :: d in before && d !in after ==> before[d].memoryExpiresAt <= before[k].memoryExpiresAt
  }

  // Items that fit already are all kept.
  lemma {:induction false} SmallerTotal(before: map<Key, MemoryEntry>, after: map<Key, MemoryEntry>)
    requires forall k :: k in after ==> k in before && after[k] == before[k]
    ensures TotalSize(after) <= TotalSize(before)
    decreases |after|
  {
    if after != map[] {
      var k :| k in after;
      TotalSizeRemove(after, k);
      TotalSizeRemove(before, k);
      SmallerTotal(before - {k}, after - {k});
    }
  }

  lemma NothingEvicted(before: map<Key, MemoryEntry>, after: map<Key, MemoryEntry>, cap: int)
    requires Evicted(before, after, cap) && TotalSize(before) <= cap
    ensures after == before
  {
    if after != before {
      var k :| LastDropped(before, after, cap, k);
      TotalSizeRemove(before, k);
      SmallerTotal(before - {k}, after);
    }
  }

  // Every item is accounted at its size and never outlives its disk deadline.
  ghost predicate ItemsOk(items: map<Key, MemoryEntry>) {
    forall k :: k in items ==>
      items[k].size == MemorySize(items[k].entry) && items[k].memoryExpiresAt <= items[k].entry.diskExpiresAt
  }

  // Same keys, and items that differ in their lease only.
  ghost predicate SameButLease(a: map<Key, MemoryEntry>, b: map<Key, MemoryEntry>) {
    a.Keys == b.Keys && forall k :: k in a ==> a[k] == b[k].(memoryExpiresAt := a[k].memoryExpiresAt)
  }

  lemma {:induction false} LeaseKeepsTotal(a: map<Key, MemoryEntry>, b: map<Key, MemoryEntry>)
    requires SameButLease(a, b)
    ensures TotalSize(a) == TotalSize(b)
    decreases |a|
  {
    if a == map[] {
      assert b == map[];
    } else {
      var k :| k in a;
      TotalSizeRemove(a, k);
      TotalSizeRemove(b, k);
      LeaseKeepsTotal(a - {k}, b - {k});
    }
  }

  lemma LeaseKeepsIndex(a: map<Key, MemoryEntry>, b: map<Key, MemoryEntry>, index: map<Session, set<Key>>)
    requires SameButLease(a, b) && IndexExact(b, index)
    ensures IndexExact(a, index)
  {
    assert forall k :: k in a ==> a[k].session == b[k].session;
  }

  // A new item for key, and the leases of its session refreshed, before eviction.
  ghost function WithStored(items: map<Key, MemoryEntry>, key: Key, session: Option<Session>, entry: Entry, now: int, ttl: int)
    : map<Key, MemoryEntry>
  {
    BumpSiblings(items[key := NewItem(session, entry, now, ttl)], session, key, now, ttl)
  }

  function NewItem(session: Option<Session>, entry: Entry, now: int, ttl: int): MemoryEntry {
    MemoryEntry(entry, if entry.diskExpiresAt < now + ttl then entry.diskExpiresAt else now + ttl,
                MemorySize(entry), session)
  }

  // What storing entry in memory leaves, whichever survivors eviction picks.
  ghost predicate PutOutcome(before: map<Key, MemoryEntry>, after: map<Key, MemoryEntry>, key: Key,
                             session: Option<Session>, entry: Entry, now: int, ttl: int, cap: int)
  {
    var live := LiveItems(before, now);
    if MemorySize(entry) > cap || entry.diskExpiresAt <= now then after == live
    else Evicted(WithStored(live, key, session, entry, now, ttl), after, cap)
  }

  // ------------------------------------------------------------ agreement with the plain map

  // Every copy in a tier is of a key that was set, and unless the key is in doubt it is the entry last set, with a
  // deadline that is not later.
  ghost predicate MemoryAgrees(items: map<Key, MemoryEntry>, latest: map<Key, Entry>, doubt: set<Key>) {
    forall k :: k in items ==> k in latest && (k in doubt || Faithful(items[k].entry, latest[k]))
  }

  ghost predicate DiskAgrees(disk: map<Key, Entry>, latest: map<Key, Entry>, doubt: set<Key>) {
    forall k :: k in disk ==> k in latest && (k in doubt || Faithful(disk[k], latest[k]))
  }

  lemma LiveAgrees(items: map<Key, MemoryEntry>, now: int, latest: map<Key, Entry>, doubt: set<Key>)
    requires MemoryAgrees(items, latest, doubt)
    ensures MemoryAgrees(LiveItems(items, now), latest, doubt)
  {}

  lemma LiveAgreesAll(items: map<Key, MemoryEntry>, now: int, latest: map<Key, Entry>)
    ensures forall doubt :: MemoryAgrees(items, latest, doubt) ==> MemoryAgrees(LiveItems(items, now), latest, doubt)
  {
    hide MemoryAgrees, LiveItems;
    forall doubt | MemoryAgrees(items, latest, doubt) ensures MemoryAgrees(LiveItems(items, now), latest, doubt) {
      LiveAgrees(items, now, latest, doubt);
    }
  }

  lemma LeaseAgreesAll(a: map<Key, MemoryEntry>, b: map<Key, MemoryEntry>, latest: map<Key, Entry>)
    requires SameButLease(a, b)
    ensures forall doubt :: MemoryAgrees(b, latest, doubt) ==> MemoryAgrees(a, latest, doubt)
  {
    hide MemoryAgrees, SameButLease;
    forall doubt | MemoryAgrees(b, latest, doubt) ensures MemoryAgrees(a, latest, doubt) {
      LeaseAgrees(a, b, latest, doubt);
    }
  }

  lemma LeaseAgrees(a: map<Key, MemoryEntry>, b: map<Key, MemoryEntry>, latest: map<Key, Entry>, doubt: set<Key>)
    requires SameButLease(a, b) && MemoryAgrees(b, latest, doubt)
    ensures MemoryAgrees(a, latest, doubt)
  {
    assert forall k :: k in a ==> a[k].entry == b[k].entry;
  }

  lemma FewerOnDisk(before: map<Key, Entry>, after: map<Key, Entry>, latest: map<Key, Entry>, doubt: set<Key>)
    requires forall k :: k in after ==> k in before && after[k] == before[k]
    ensures DiskAgrees(before, latest, doubt) ==> DiskAgrees(after, latest, doubt)
  {}

  // The same item with a lease that reaches now + ttl or the deadline, and is not shorter than before.
  ghost predicate Renewed(item: MemoryEntry, renewed: MemoryEntry, now: int, ttl: int) {
    && renewed == item.(memoryExpiresAt := renewed.memoryExpiresAt)
    && item.memoryExpiresAt <= renewed.memoryExpiresAt
    && (now + ttl <= renewed.memoryExpiresAt || item.entry.diskExpiresAt <= renewed.memoryExpiresAt)
  }

  // The item hit and the live items of its session are renewed.
  ghost predicate AllRenewed(before: map<Key, MemoryEntry>, after: map<Key, MemoryEntry>, key: Key, now: int, ttl: int) {
    forall k :: k in before && Live(before[k], now) && Together(before, key, k) ==> k in after && Renewed(before[k], after[k], now, ttl)
  }

  predicate Together(items: map<Key, MemoryEntry>, key: Key, k: Key)
    requires k in items
  {
    key == k || (key in items && items[key].session.Some? && items[k].session == items[key].session)
  }

  lemma HitRenews(items: map<Key, MemoryEntry>, after: map<Key, MemoryEntry>, key: Key, now: int, ttl: int)
    requires key in items && Live(items[key], now)
    requires after == BumpSiblings(LiveItems(items, now)[key := Bumped(items[key], now, ttl)], items[key].session, key, now, ttl)
    ensures AllRenewed(items, after, key, now, ttl)
  {
    SweptItems(items, now);
  }

  // What a hit in either tier returns.
  lemma MemoryHit(items: map<Key, MemoryEntry>, key: Key, now: int, latest: map<Key, Entry>, doubt: set<Key>)
    requires key in items && Live(items[key], now)
    ensures MemoryAgrees(items, latest, doubt) ==>
      key in latest && (key in doubt || (Faithful(items[key].entry, latest[key]) && now < latest[key].diskExpiresAt))
  {}

  lemma DiskHit(disk: map<Key, Entry>, key: Key, now: int, latest: map<Key, Entry>, doubt: set<Key>)
    requires key in disk && now < disk[key].diskExpiresAt && DiskAgrees(disk, latest, doubt)
    ensures key in latest && (key in doubt || (Faithful(disk[key], latest[key]) && now < latest[key].diskExpiresAt))
  {}

  // The deadline is fixed when the entry is set, unless it already carries one in the future.
  function Deadlined(entry: Entry, now: int, diskTTL: int): Entry {
    if entry.diskExpiresAt <= now then entry.(diskExpiresAt := now + diskTTL) else entry
  }

  // The disk tier after writing e for key, if that works, and removing the swept records.
  function DiskAfter(disk: map<Key, Entry>, key: Key, e: Entry, diskOk: bool, diskSwept: set<Key>): map<Key, Entry> {
    (if diskOk then disk[key := e.(diskExpiresAt := WholeSeconds(e.diskExpiresAt))] else disk) - diskSwept
  }

  // An older record survives because the new one could not be written.
  predicate StaleOnDisk(disk: map<Key, Entry>, key: Key, e: Entry, diskOk: bool, diskSwept: set<Key>) {
    !diskOk && key in disk && key !in diskSwept && !Faithful(disk[key], e)
  }

  // A live older copy survives because the new entry is too large for memory.
  predicate StaleInMemory(items: map<Key, MemoryEntry>, key: Key, e: Entry, now: int, cap: int) {
    MemorySize(e) > cap && key in items && Live(items[key], now) && !Faithful(items[key].entry, e)
  }

  lemma SetDiskAgrees(before: map<Key, Entry>, key: Key, e: Entry, diskOk: bool, diskSwept: set<Key>, latest: map<Key, Entry>)
    requires DiskAgrees(before, latest, {})
    ensures DiskAgrees(DiskAfter(before, key, e, diskOk, diskSwept), latest[key := e], {})
       <==> !StaleOnDisk(before, key, e, diskOk, diskSwept)
  {
    var after := DiskAfter(before, key, e, diskOk, diskSwept);
    var latest' := latest[key := e];
    if StaleOnDisk(before, key, e, diskOk, diskSwept) {
      assert key in after && !Faithful(after[key], latest'[key]);
    } else {
      forall k | k in after
        ensures k in latest' && Faithful(after[k], latest'[k])
      {}
    }
  }

  // Without agreement before, a disk write keeps every key out of doubt that was not left with an older record.
  lemma SetDiskDoubts(before: map<Key, Entry>, key: Key, e: Entry, diskOk: bool, diskSwept: set<Key>, latest: map<Key, Entry>,
                      doubt: set<Key>, doubt': set<Key>)
    requires DiskAgrees(before, latest, doubt) && doubt - {key} <= doubt'
    requires !diskOk && key !in diskSwept && key in latest ==> key in doubt'
    ensures DiskAgrees(DiskAfter(before, key, e, diskOk, diskSwept), latest[key := e], doubt')
  {}

  lemma PutAgrees(before: map<Key, MemoryEntry>, after: map<Key, MemoryEntry>, key: Key, session: Option<Session>,
                  entry: Entry, now: int, ttl: int, cap: int, latest: map<Key, Entry>, doubt: set<Key>)
    requires MemoryAgrees(before, latest, doubt) && key in latest && (key in doubt || Faithful(entry, latest[key]))
    requires PutOutcome(before, after, key, session, entry, now, ttl, cap)
    ensures MemoryAgrees(after, latest, doubt)
  {
    hide LastDropped, TotalSize;
  }

  // The same for storing in memory: a key is left in doubt only by an entry too large to store.
  lemma SetMemoryDoubts(before: map<Key, MemoryEntry>, after: map<Key, MemoryEntry>, key: Key, session: Option<Session>,
                        entry: Entry, now: int, ttl: int, cap: int, latest: map<Key, Entry>, doubt: set<Key>, doubt': set<Key>)
    requires MemoryAgrees(before, latest, doubt) && now < entry.diskExpiresAt
    requires doubt - {key} <= doubt' && (MemorySize(entry) > cap && key in latest ==> key in doubt')
    requires PutOutcome(before, after, key, session, entry, now, ttl, cap)
    ensures MemoryAgrees(after, latest[key := entry], doubt')
  {
    hide LastDropped, TotalSize;
  }

  lemma SetMemoryAgrees(before: map<Key, MemoryEntry>, after: map<Key, MemoryEntry>, key: Key, session: Option<Session>,
                        entry: Entry, now: int, ttl: int, cap: int, latest: map<Key, Entry>)
    requires MemoryAgrees(before, latest, {}) && now < entry.diskExpiresAt
    requires PutOutcome(before, after, key, session, entry, now, ttl, cap)
    ensures MemoryAgrees(after, latest[key := entry], {})
       <==> !StaleInMemory(before, key, entry, now, cap)
  {
    hide LastDropped, TotalSize;
    var now' := latest[key := entry];
    if MemorySize(entry) > cap {
      assert after == LiveItems(before, now);
      if key in before && Live(before[key], now) {
        assert key in after;
      }
    } else {
      forall k | k in after
        ensures k in now' && Faithful(after[k].entry, now'[k])
      {}
    }
  }

  // ------------------------------------------------------------ the plain map with deadlines

  // Operations in a fixed directory; diskOk is whether the record of a set could be written.
  datatype Op =
    | DoGet(key: Key, now: int)
    | DoSet(key: Key, session: Option<Session>, entry: Entry, now: int, diskOk: bool, diskSwept: set<Key>)
    | DoReload(memoryTTL: int, diskTTL: int, maxBody: int, memoryMaxBytes: int)

  // One map from key to the entry last set, the settings that decide what a set stores, and the keys that a set
  // has put in doubt: those whose older copy may have stayed in memory, or on disk, when they were set again. kept
  // are the keys whose record was written when they were last set and has not been removed since.
  datatype Plain = Plain(
    diskTTL: int, maxBody: int, memoryMaxBytes: int, latest: map<Key, Entry>, memoryDoubt: set<Key>, diskDoubt: set<Key>,
    kept: set<Key>)

  function MemoryDoubtAfter(p: Plain, key: Key, entry: Entry): set<Key> {
    if MemorySize(entry) <= p.memoryMaxBytes then p.memoryDoubt - {key}
    else if key in p.latest then p.memoryDoubt + {key}
    else p.memoryDoubt
  }

  function DiskDoubtAfter(p: Plain, key: Key, diskOk: bool, diskSwept: set<Key>): set<Key> {
    if diskOk || key in diskSwept then p.diskDoubt - {key}
    else if key in p.latest then p.diskDoubt + {key}
    else p.diskDoubt
  }

  lemma DoubtsAfter(p: Plain, key: Key, entry: Entry, now: int, diskOk: bool, diskSwept: set<Key>)
    ensures
      var e, m, d := Deadlined(entry, now, p.diskTTL), MemoryDoubtAfter(p, key, entry), DiskDoubtAfter(p, key, diskOk, diskSwept);
      && p.memoryDoubt + p.diskDoubt - {key} <= m + d && p.diskDoubt - {key} <= d
      && (MemorySize(e) > p.memoryMaxBytes && key in p.latest ==> key in m + d)
      && (!diskOk && key !in diskSwept && key in p.latest ==> key in d)
  {}

  function KeptAfterSet(kept: set<Key>, key: Key, diskOk: bool, diskSwept: set<Key>): set<Key> {
    (if diskOk then kept + {key} else kept - {key}) - diskSwept
  }

  // A get may remove the record of its key only if that is past its deadline or too large for the current limit.
  function KeptAfterGet(p: Plain, key: Key, now: int): set<Key> {
    if key in p.latest && Obtainable(p.latest[key], p.maxBody, now) then p.kept else p.kept - {key}
  }

  // A record made from e, with its deadline in whole seconds, can be served at now.
  predicate Obtainable(e: Entry, maxBody: int, now: int) {
    Cacheable(e, maxBody) && now < WholeSeconds(e.diskExpiresAt)
  }

  function OrDefault(value: int, default: int): int {
    if value <= 0 then default else value
  }

  function PlainStep(p: Plain, op: Op): Plain {
    match op
    case DoGet(key, now) => p.(kept := KeptAfterGet(p, key, now))
    case DoSet(key, _, entry, now, diskOk, diskSwept) =>
      if !Cacheable(entry, p.maxBody) then p
      else
        p.(latest := p.latest[key := Deadlined(entry, now, p.diskTTL)],
           memoryDoubt := MemoryDoubtAfter(p, key, entry), diskDoubt := DiskDoubtAfter(p, key, diskOk, diskSwept),
           kept := KeptAfterSet(p.kept, key, diskOk, diskSwept))
    case DoReload(_, diskTTL, maxBody, memoryMaxBytes) =>
      Plain(OrDefault(diskTTL, DEFAULT_DISK_TTL), OrDefault(maxBody, DEFAULT_MAX_BODY),
            OrDefault(memoryMaxBytes, DEFAULT_MEMORY_MAX_BYTES), p.latest, {}, p.diskDoubt, p.kept)
  }

  function PlainRun(p: Plain, ops: seq<Op>): Plain {
    if ops == [] then p else PlainStep(PlainRun(p, ops[..|ops| - 1]), ops[|ops| - 1])
  }

  // Every entry set fits the memory tier at the time, and every record is written.
  ghost predicate Fits(p: Plain, ops: seq<Op>) {
    forall i :: 0 <= i < |ops| && ops[i].DoSet? ==>
      MemorySize(ops[i].entry) <= PlainRun(p, ops[..i]).memoryMaxBytes && ops[i].diskOk
  }

  // In such a run no key is ever in doubt.
  lemma {:induction false} NoDoubts(p: Plain, ops: seq<Op>)
    requires p.memoryDoubt == p.diskDoubt == {} && Fits(p, ops)
    ensures PlainRun(p, ops).memoryDoubt == PlainRun(p, ops).diskDoubt == {}
  {
    if ops != [] {
      var front := ops[..|ops| - 1];
      forall i | 0 <= i < |front| ensures ops[..i] == front[..i] && ops[i] == front[i] {}
      NoDoubts(p, front);
    }
  }

  const DEFAULT_MEMORY_TTL := 30 * 60 * 1_000_000_000
  const DEFAULT_DISK_TTL := 48 * 3600 * 1_000_000_000
  const DEFAULT_MAX_BODY := 64 * 1024 * 1024
  const DEFAULT_MEMORY_MAX_BYTES := 3_800_000_000

  // A get that hits was before the deadline of what it returned, and unless its key is in doubt that is the
  // response last set for the key, before the deadline fixed then.
  ghost predicate HitIsLatest(p: Plain, op: Op, r: Option<(Entry, Source)>) {
    op.DoGet? && r.Some? ==>
      && op.key in p.latest && op.now < r.value.0.diskExpiresAt
      && (op.key in p.memoryDoubt + p.diskDoubt ||
          (Faithful(r.value.0, p.latest[op.key]) && op.now < p.latest[op.key].diskExpiresAt))
  }

  lemma NothingInMemory(latest: map<Key, Entry>, doubt: set<Key>)
    ensures MemoryAgrees(map[], latest, {}) && MemoryAgrees(map[], latest, doubt) && {} + doubt == doubt
  {}

  lemma DefaultsArePositive(memoryTTL: int, diskTTL: int, maxBody: int, memoryMaxBytes: int)
    ensures OrDefault(memoryTTL, DEFAULT_MEMORY_TTL) > 0 && OrDefault(diskTTL, DEFAULT_DISK_TTL) > 0
    ensures OrDefault(maxBody, DEFAULT_MAX_BODY) > 0 && OrDefault(memoryMaxBytes, DEFAULT_MEMORY_MAX_BYTES) > 0
  {}

  // A get misses only if its key was not set, its record was not written or was removed, or its deadline has passed.
  ghost predicate KeptIsServed(p: Plain, op: Op, r: Option<(Entry, Source)>) {
    op.DoGet? && op.key in p.kept && op.key in p.latest && Obtainable(p.latest[op.key], p.maxBody, op.now) ==> r.Some?
  }

  ghost predicate Answered(p: Plain, op: Op, r: Option<(Entry, Source)>) {
    HitIsLatest(p, op, r) && KeptIsServed(p, op, r)
  }

  // The disk tier has the records of the keys in kept, with deadlines not a second short.
  ghost predicate Holds(disk: map<Key, Entry>, latest: map<Key, Entry>, kept: set<Key>) {
    forall k :: k in kept ==>
      && k in latest && k in disk
      && Faithful(disk[k], latest[k]) && WholeSeconds(latest[k].diskExpiresAt) <= disk[k].diskExpiresAt
  }

  lemma SetHolds(disk: map<Key, Entry>, key: Key, e: Entry, diskOk: bool, diskSwept: set<Key>, latest: map<Key, Entry>,
                 kept: set<Key>)
    requires Holds(disk, latest, kept)
    ensures Holds(DiskAfter(disk, key, e, diskOk, diskSwept), latest[key := e], KeptAfterSet(kept, key, diskOk, diskSwept))
  {}

  // The disk tier after a get has asked it, and what it answered.
  lemma GetHolds(p: Plain, disk: map<Key, Entry>, after: map<Key, Entry>, key: Key, now: int)
    requires Holds(disk, p.latest, p.kept)
    requires after == disk || (after == disk - {key} && !Servable(disk, key, now, p.maxBody))
    ensures Holds(after, p.latest, KeptAfterGet(p, key, now))
    ensures key in p.kept && Obtainable(p.latest[key], p.maxBody, now) ==> Servable(disk, key, now, p.maxBody)
  {}

  lemma ServableIsAhead(disk: map<Key, Entry>, key: Key, now: int, maxBody: int)
    ensures Servable(disk, key, now, maxBody) ==> now < disk[key].diskExpiresAt
  {}

  predicate Servable(disk: map<Key, Entry>, key: Key, now: int, maxBody: int) {
    key in disk && now < disk[key].diskExpiresAt && Cacheable(disk[key], maxBody)
  }

  // A set keeps exact agreement exactly when neither tier is left with an older copy.
  lemma SetAgrees(p: Plain, items: map<Key, MemoryEntry>, after: map<Key, MemoryEntry>, disk: map<Key, Entry>, key: Key,
                  session: Option<Session>, e: Entry, now: int, ttl: int, diskOk: bool, diskSwept: set<Key>)
    requires PutOutcome(items, after, key, session, e, now, ttl, p.memoryMaxBytes) && now < e.diskExpiresAt
    ensures MemoryAgrees(items, p.latest, {}) && DiskAgrees(disk, p.latest, {}) ==>
      (&& MemoryAgrees(after, p.latest[key := e], {})
       && DiskAgrees(DiskAfter(disk, key, e, diskOk, diskSwept), p.latest[key := e], {})
       <==> !StaleInMemory(items, key, e, now, p.memoryMaxBytes) && !StaleOnDisk(disk, key, e, diskOk, diskSwept))
    ensures Holds(disk, p.latest, p.kept) ==>
      Holds(DiskAfter(disk, key, e, diskOk, diskSwept), p.latest[key := e], KeptAfterSet(p.kept, key, diskOk, diskSwept))
  {
    hide MemoryAgrees, DiskAgrees, PutOutcome, DiskAfter, StaleInMemory, StaleOnDisk, Holds, KeptAfterSet;
    if MemoryAgrees(items, p.latest, {}) && DiskAgrees(disk, p.latest, {}) {
      SetMemoryAgrees(items, after, key, session, e, now, ttl, p.memoryMaxBytes, p.latest);
      SetDiskAgrees(disk, key, e, diskOk, diskSwept, p.latest);
    }
    if Holds(disk, p.latest, p.kept) {
      SetHolds(disk, key, e, diskOk, diskSwept, p.latest, p.kept);
    }
  }

  // It always keeps agreement up to the keys in doubt.
  lemma SetDoubts(p: Plain, items: map<Key, MemoryEntry>, after: map<Key, MemoryEntry>, disk: map<Key, Entry>, key: Key,
                  session: Option<Session>, entry: Entry, now: int, ttl: int, diskOk: bool, diskSwept: set<Key>)
    requires MemoryAgrees(items, p.latest, p.memoryDoubt + p.diskDoubt) && DiskAgrees(disk, p.latest, p.diskDoubt)
    requires now < Deadlined(entry, now, p.diskTTL).diskExpiresAt
    requires PutOutcome(items, after, key, session, Deadlined(entry, now, p.diskTTL), now, ttl, p.memoryMaxBytes)
    ensures
      var e, d := Deadlined(entry, now, p.diskTTL), DiskDoubtAfter(p, key, diskOk, diskSwept);
      && MemoryAgrees(after, p.latest[key := e], MemoryDoubtAfter(p, key, entry) + d)
      && DiskAgrees(DiskAfter(disk, key, e, diskOk, diskSwept), p.latest[key := e], d)
  {
    hide MemoryAgrees, DiskAgrees, PutOutcome, DiskAfter, Deadlined, MemoryDoubtAfter, DiskDoubtAfter, MemorySize;
    var e, d := Deadlined(entry, now, p.diskTTL), DiskDoubtAfter(p, key, diskOk, diskSwept);
    DoubtsAfter(p, key, entry, now, diskOk, diskSwept);
    SetMemoryDoubts(items, after, key, session, e, now, ttl, p.memoryMaxBytes, p.latest, p.memoryDoubt + p.diskDoubt,
                    MemoryDoubtAfter(p, key, entry) + d);
    SetDiskDoubts(disk, key, e, diskOk, diskSwept, p.latest, p.diskDoubt, d);
  }

  // What may be cached: a successful, non-empty response within the limit that allows storing and sets no cookie.
  predicate Storable(entry: Entry, maxBody: int) {
    && 200 <= entry.status <= 299 && 0 < |entry.body| <= maxBody
    && !entry.noStore && !entry.setCookie
  }

  class Cache {
    var memoryTTL: int
    var diskTTL: int
    var maxBody: int
    var memoryMaxBytes: int
    var memoryBytes: int
    var items: map<Key, MemoryEntry>
    var sessionEntries: map<Session, set<Key>>
    // The disk tier: the records under the cache directory.
    var disk: map<Key, Entry>
    // The specification: the entry last set for each key, with the deadline fixed then.
    ghost var latest: map<Key, Entry>
    ghost var memoryDoubt: set<Key>
    ghost var diskDoubt: set<Key>
    ghost var kept: set<Key>

    ghost predicate Accounted()
      reads `memoryBytes, `items, `sessionEntries
    {
      memoryBytes == TotalSize(items) && IndexExact(items, sessionEntries) && ItemsOk(items)
    }

    ghost predicate Valid()
      reads `memoryTTL, `diskTTL, `maxBody, `memoryMaxBytes, `memoryBytes, `items, `sessionEntries
    {
      Accounted() && memoryTTL > 0 && diskTTL > 0 && maxBody > 0 && memoryMaxBytes > 0 && memoryBytes <= memoryMaxBytes
    }

    // Both tiers hold the entries last set, except for keys in doubt.
    ghost predicate Coherent()
      reads `items, `disk, `latest, `memoryDoubt, `diskDoubt
    {
      MemoryAgrees(items, latest, memoryDoubt + diskDoubt) && DiskAgrees(disk, latest, diskDoubt)
    }

    // The disk tier has every record that was written and not removed.
    ghost predicate Holding()
      reads `disk, `latest, `kept
    {
      Holds(disk, latest, kept)
    }

    // Both tiers hold nothing but the entries last set.
    ghost predicate Exact()
      reads `items, `disk, `latest
    {
      MemoryAgrees(items, latest, {}) && DiskAgrees(disk, latest, {})
    }

    constructor (memoryTTL: int, diskTTL: int, maxBody: int, memoryMaxBytes: int, directory: map<Key, Entry>)
      ensures Valid() && Coherent() && Exact() && Holding() && items == map[] && sessionEntries == map[] && disk == directory
      ensures this.memoryTTL == OrDefault(memoryTTL, DEFAULT_MEMORY_TTL)
      ensures Abstract() == Plain(OrDefault(diskTTL, DEFAULT_DISK_TTL), OrDefault(maxBody, DEFAULT_MAX_BODY),
                                  OrDefault(memoryMaxBytes, DEFAULT_MEMORY_MAX_BYTES), directory, {}, {}, directory.Keys)
    {
      this.memoryTTL, this.diskTTL := OrDefault(memoryTTL, DEFAULT_MEMORY_TTL), OrDefault(diskTTL, DEFAULT_DISK_TTL);
      this.maxBody := OrDefault(maxBody, DEFAULT_MAX_BODY);
      this.memoryMaxBytes := OrDefault(memoryMaxBytes, DEFAULT_MEMORY_MAX_BYTES);
      memoryBytes, items, sessionEntries := 0, map[], map[];
      disk := directory;
      latest, memoryDoubt, diskDoubt, kept := directory, {}, {}, directory.Keys;
    }

    lemma StorableOnly(entry: Entry)
      requires Valid()
      ensures Cacheable(entry, maxBody) <==> Storable(entry, maxBody)
    {}

    lemma DeadlineAhead(entry: Entry, now: int)
      requires Valid()
      ensures now < Deadlined(entry, now, diskTTL).diskExpiresAt
    {}

    // Drop one item: the accounting shared by sweep and eviction.
    method Drop(k: Key)
      requires Accounted() && k in items
      modifies `items, `memoryBytes, `sessionEntries
      ensures Accounted() && items == old(items) - {k} && 0 <= memoryBytes == old(memoryBytes) - old(items)[k].size
    {
      TotalSizeRemove(items, k);
      UnlinkExact(items, sessionEntries, k);
      memoryBytes := memoryBytes - items[k].size;
      sessionEntries := Unlink(sessionEntries, items[k].session, k);
      items := items - {k};
    }

    method SweepMemory(now: int)
      requires Accounted()
      modifies `items, `memoryBytes, `sessionEntries
      ensures Accounted() && items == LiveItems(old(items), now) && memoryBytes <= old(memoryBytes)
    {
      var todo := items.Keys;
      while todo != {}
        invariant todo <= items.Keys && Accounted() && memoryBytes <= old(memoryBytes)
        invariant forall k :: k in items <==> k in old(items) && (k in todo || Live(old(items)[k], now))
        invariant forall k :: k in items ==> items[k] == old(items)[k]
        decreases |todo|
      {
        var k :| k in todo;
        todo := todo - {k};
        if !Live(items[k], now) {
          Drop(k);
        }
      }
      // The clamp to zero is never needed.
      if memoryBytes < 0 {
        assert false;
      }
    }

    // The loop over the other keys of a session bucket, run on a hit and on a store.
    method RefreshSiblings(session: Option<Session>, except: Key, now: int)
      requires Accounted()
      modifies `items
      ensures Accounted() && items == BumpSiblings(old(items), session, except, now, memoryTTL)
    {
      if session.None? || session.value !in sessionEntries {
        assert items == BumpSiblings(items, session, except, now, memoryTTL);
        return;
      }
      ghost var bucket := sessionEntries[session.value];
      var todo := sessionEntries[session.value];
      while todo != {}
        invariant todo <= bucket && items.Keys == old(items).Keys
        invariant forall k :: k in items ==>
          items[k] == if k in bucket - todo && k != except then Bumped(old(items)[k], now, memoryTTL) else old(items)[k]
        decreases |todo|
      {
        var k :| k in todo;
        todo := todo - {k};
        if k != except && k in items {
          items := items[k := Bumped(items[k], now, memoryTTL)];
        }
      }
      assert items == BumpSiblings(old(items), session, except, now, memoryTTL);
      LeaseKeepsTotal(items, old(items));
      LeaseKeepsIndex(items, old(items), sessionEntries);
    }

    // bumpMemoryExpiryLocked.
    method BumpMemoryExpiry(key: Key, now: int)
      requires Accounted() && key in items
      modifies `items
      ensures Accounted()
      ensures items == BumpSiblings(old(items)[key := Bumped(old(items)[key], now, memoryTTL)],
                                    old(items)[key].session, key, now, memoryTTL)
      ensures SameButLease(items, old(items))
    {
      var item := items[key];
      ghost var before := items;
      items := items[key := Bumped(item, now, memoryTTL)];
      LeaseKeepsTotal(items, before);
      LeaseKeepsIndex(items, before, sessionEntries);
      RefreshSiblings(item.session, key, now);
    }

    // The eviction candidates in order of expiry; ties are in any order.
    method SortedByExpiry() returns (order: seq<Key>)
      ensures forall k :: k in order <==> k in items
      ensures forall i, j :: 0 <= i < j < |order| ==> order[i] != order[j]
      ensures forall i, j :: 0 <= i < j < |order| ==> items[order[i]].memoryExpiresAt <= items[order[j]].memoryExpiresAt
    {
      order := [];
      var todo := items.Keys;
      while todo != {}
        invariant todo <= items.Keys
        invariant forall k :: k in order <==> k in items && k !in todo
        invariant forall i, j :: 0 <= i < j < |order| ==> order[i] != order[j]
        invariant forall i, j :: 0 <= i < j < |order| ==> items[order[i]].memoryExpiresAt <= items[order[j]].memoryExpiresAt
        invariant forall i, k :: 0 <= i < |order| && k in todo ==> items[order[i]].memoryExpiresAt <= items[k].memoryExpiresAt
        decreases |todo|
      {
        var k := EarliestOf(todo);
        order := order + [k];
        todo := todo - {k};
      }
    }

    method EarliestOf(keys: set<Key>) returns (earliest: Key)
      requires keys != {} && keys <= items.Keys
      ensures earliest in keys && forall k :: k in keys ==> items[earliest].memoryExpiresAt <= items[k].memoryExpiresAt
    {
      earliest :| earliest in keys;
      var todo := keys - {earliest};
      while todo != {}
        invariant todo <= keys && earliest in keys
        invariant forall k :: k in keys - todo ==> items[earliest].memoryExpiresAt <= items[k].memoryExpiresAt
        decreases |todo|
      {
        var k :| k in todo;
        todo := todo - {k};
        if items[k].memoryExpiresAt < items[earliest].memoryExpiresAt {
          earliest := k;
        }
      }
    }

    method EnforceMemoryLimit()
      requires Accounted() && memoryMaxBytes > 0
      modifies `items, `memoryBytes, `sessionEntries
      ensures Accounted() && memoryBytes <= memoryMaxBytes && Evicted(old(items), items, memoryMaxBytes)
    {
      if memoryBytes <= memoryMaxBytes {
        return;
      }
      var order := SortedByExpiry();
      ghost var before := items;
      var i := DropInOrder(order);
      EvictionEnds(before, items, order, i, memoryMaxBytes);
      // The clamp to zero is never needed.
      if memoryBytes < 0 {
        assert false;
      }
    }

    // The eviction loop: candidates go in order until the rest fits.
    method DropInOrder(order: seq<Key>) returns (i: nat)
      requires Accounted() && memoryMaxBytes > 0
      requires (forall k :: k in order <==> k in items) && forall i, j :: 0 <= i < j < |order| ==> order[i] != order[j]
      modifies `items, `memoryBytes, `sessionEntries
      ensures Accounted() && DroppedPrefix(old(items), items, order, i)
      ensures memoryBytes <= memoryMaxBytes || i == |order|
      ensures i > 0 ==> memoryBytes + old(items)[order[i - 1]].size > memoryMaxBytes
    {
      hide Accounted;
      i := 0;
      while i < |order| && memoryBytes > memoryMaxBytes
        invariant Accounted() && DroppedPrefix(old(items), items, order, i)
        invariant i > 0 ==> memoryBytes + old(items)[order[i - 1]].size > memoryMaxBytes
      {
        Drop(order[i]);
        i := i + 1;
      }
    }

    method PutMemory(key: Key, session: Option<Session>, entry: Entry, now: int)
      requires Valid()
      modifies `items, `memoryBytes, `sessionEntries
      ensures Valid()
      ensures PutOutcome(old(items), items, key, session, entry, now, memoryTTL, memoryMaxBytes)
    {
      SweepMemory(now);
      var size := MemorySize(entry);
      if size > memoryMaxBytes {
        return;
      }
      var item := NewItem(session, entry, now, memoryTTL);
      if item.memoryExpiresAt > now {
        Replace(key, item);
        RefreshSiblings(session, key, now);
        EnforceMemoryLimit();
      }
    }

    // Overwrite or add one item with its size and its session link.
    method Replace(key: Key, item: MemoryEntry)
      requires Accounted()
      requires item.size == MemorySize(item.entry) && item.memoryExpiresAt <= item.entry.diskExpiresAt
      modifies `items, `memoryBytes, `sessionEntries
      ensures Accounted() && items == old(items)[key := item]
    {
      RelinkExact(items, sessionEntries, key, item);
      TotalSizeReplace(items, key, item);
      hide TotalSize, IndexExact, Link, Unlink;
      if key in items {
        memoryBytes := memoryBytes - items[key].size;
        if items[key].session.Some? && items[key].session != item.session {
          sessionEntries := Unlink(sessionEntries, items[key].session, key);
        }
      }
      items := items[key := item];
      memoryBytes := memoryBytes + item.size;
      sessionEntries := Link(sessionEntries, item.session, key);
    }

    // getDisk: a record that is past its deadline or no longer cacheable is removed.
    method GetDisk(key: Key, now: int) returns (r: Option<Entry>)
      modifies `disk
      ensures r == if Servable(old(disk), key, now, maxBody) then Some(old(disk)[key]) else None
      ensures disk == if r.Some? then old(disk) else old(disk) - {key}
    {
      if key !in disk {
        assert disk - {key} == disk;
        return None;
      }
      var record := disk[key];
      if record.diskExpiresAt <= now || !Cacheable(record, maxBody) {
        disk := disk - {key};
        return None;
      }
      return Some(record);
    }

    // A hit serves the memory copy if it is live, else the disk record; either is before its deadline. In a
    // coherent cache it is the entry last set for the key, before the deadline fixed when it was set.
    method Get(key: Key, now: int) returns (r: Option<(Entry, Source)>)
      requires Valid()
      modifies `items, `memoryBytes, `sessionEntries, `disk, `kept
      ensures Valid()
      ensures key in old(items) && Live(old(items)[key], now) ==> r == Some((old(items)[key].entry, Memory))
      ensures !(key in old(items) && Live(old(items)[key], now)) ==>
                r == if Servable(old(disk), key, now, maxBody) then Some((old(disk)[key], Disk)) else None
      ensures r.Some? ==> now < r.value.0.diskExpiresAt
      ensures Abstract() == PlainStep(old(Abstract()), DoGet(key, now))
      ensures key in old(items) && Live(old(items)[key], now) ==> AllRenewed(old(items), items, key, now, memoryTTL)
      ensures old(Holding()) ==> Holding() && KeptIsServed(old(Abstract()), DoGet(key, now), r)
      ensures old(Exact()) ==> Exact()
      ensures old(Coherent()) ==> Coherent()
      ensures old(Coherent()) && r.Some? ==>
                && key in latest
                && (key in memoryDoubt + diskDoubt ||
                    (Faithful(r.value.0, latest[key]) && now < latest[key].diskExpiresAt))
    {
      hide LiveItems, Accounted, Cacheable, BumpSiblings, MemoryAgrees, DiskAgrees, SameButLease, Faithful, Holds, Servable,
        KeptAfterGet, Obtainable, AllRenewed, Bumped;
      ghost var before := Abstract();
      kept := KeptAfterGet(before, key, now);
      SweepMemory(now);
      SweptItems(old(items), now);
      LiveAgreesAll(old(items), now, latest);
      if key in items {
        var item := items[key];
        if now < item.memoryExpiresAt && now < item.entry.diskExpiresAt {
          MemoryHit(items, key, now, latest, memoryDoubt + diskDoubt);
          ghost var swept := items;
          BumpMemoryExpiry(key, now);
          LeaseAgreesAll(items, swept, latest);
          HitRenews(old(items), items, key, now, memoryTTL);
          if old(Holding()) {
            GetHolds(before, disk, disk, key, now);
          }
          return Some((item.entry, Memory));
        }
        // The sweep has already dropped an expired item.
        assert false;
      }
      ServableIsAhead(disk, key, now, maxBody);
      r := Load(key, now);
      if old(Holding()) {
        GetHolds(before, old(disk), disk, key, now);
      }
    }

    // The disk tier is asked, and what it has goes to memory.
    method Load(key: Key, now: int) returns (r: Option<(Entry, Source)>)
      requires Valid() && key !in items
      modifies `items, `memoryBytes, `sessionEntries, `disk
      ensures Valid()
      ensures r == if Servable(old(disk), key, now, maxBody) then Some((old(disk)[key], Disk)) else None
      ensures disk == if r.Some? then old(disk) else old(disk) - {key}
      ensures old(Exact()) ==> Exact()
      ensures old(Coherent()) ==> Coherent()
      ensures old(Coherent()) && r.Some? ==>
                && key in latest
                && (key in memoryDoubt + diskDoubt ||
                    (Faithful(r.value.0, latest[key]) && now < latest[key].diskExpiresAt))
    {
      hide Cacheable, MemoryAgrees, DiskAgrees, PutOutcome, Accounted;
      ghost var doubt := memoryDoubt + diskDoubt;
      var entry := GetDisk(key, now);
      FewerOnDisk(old(disk), disk, latest, {});
      FewerOnDisk(old(disk), disk, latest, diskDoubt);
      if entry.None? {
        return None;
      }
      PutMemory(key, None, entry.value, now);
      if old(Exact()) {
        DiskHit(disk, key, now, latest, {});
        PutAgrees(old(items), items, key, None, entry.value, now, memoryTTL, memoryMaxBytes, latest, {});
      }
      if old(Coherent()) {
        DiskHit(disk, key, now, latest, diskDoubt);
        PutAgrees(old(items), items, key, None, entry.value, now, memoryTTL, memoryMaxBytes, latest, doubt);
      }
      return Some((entry.value, Disk));
    }

    // setWithPolicySession. diskOk is whether the record could be written; diskSwept are the records that the
    // disk limit and the periodic sweep remove afterwards. An uncacheable entry changes nothing. Exact agreement
    // with the plain map is kept exactly when neither tier is left with an older copy, and agreement up to the
    // keys in doubt is always kept.
    method Set(key: Key, session: Option<Session>, entry: Entry, now: int, diskOk: bool, diskSwept: set<Key>)
      requires Valid()
      modifies `items, `memoryBytes, `sessionEntries, `disk, `latest, `memoryDoubt, `diskDoubt, `kept
      ensures Valid() && Abstract() == PlainStep(old(Abstract()), DoSet(key, session, entry, now, diskOk, diskSwept))
      ensures (old(Coherent()) ==> Coherent()) && (old(Holding()) ==> Holding())
      ensures !Storable(entry, maxBody) ==>
                items == old(items) && disk == old(disk) && sessionEntries == old(sessionEntries)
      ensures Cacheable(entry, maxBody) ==>
                var e := Deadlined(entry, now, diskTTL);
                && PutOutcome(old(items), items, key, session, e, now, memoryTTL, memoryMaxBytes)
                && disk == DiskAfter(old(disk), key, e, diskOk, diskSwept)
      ensures Cacheable(entry, maxBody) && old(Exact()) ==>
                var e := Deadlined(entry, now, diskTTL);
                (Exact() <==> !StaleInMemory(old(items), key, e, now, memoryMaxBytes)
                                 && !StaleOnDisk(old(disk), key, e, diskOk, diskSwept))
    {
      hide MemoryAgrees, DiskAgrees, PutOutcome, DiskAfter, Valid, Deadlined, Cacheable, MemoryDoubtAfter, DiskDoubtAfter,
        StaleInMemory, StaleOnDisk, MemorySize, Holds, KeptAfterSet, Storable;
      StorableOnly(entry);
      if !Cacheable(entry, maxBody) {
        return;
      }
      DeadlineAhead(entry, now);
      var e := Deadlined(entry, now, diskTTL);
      ghost var before := Abstract();
      PutMemory(key, session, e, now);
      disk := DiskAfter(disk, key, e, diskOk, diskSwept);
      latest := latest[key := e];
      memoryDoubt := MemoryDoubtAfter(before, key, entry);
      diskDoubt := DiskDoubtAfter(before, key, diskOk, diskSwept);
      kept := KeptAfterSet(kept, key, diskOk, diskSwept);
      SetAgrees(before, old(items), items, old(disk), key, session, e, now, memoryTTL, diskOk, diskSwept);
      if old(Coherent()) {
        SetDoubts(before, old(items), items, old(disk), key, session, entry, now, memoryTTL, diskOk, diskSwept);
      }
    }

    // A hot reload replaces the limits, empties memory and leaves the disk tier that the new directory holds.
    method ApplyOptions(memoryTTL: int, diskTTL: int, maxBody: int, memoryMaxBytes: int, directory: map<Key, Entry>)
      modifies this
      ensures Valid() && items == map[] && sessionEntries == map[] && disk == directory
      ensures this.memoryTTL == OrDefault(memoryTTL, DEFAULT_MEMORY_TTL)
      ensures Abstract() == PlainStep(old(Abstract()), DoReload(memoryTTL, diskTTL, maxBody, memoryMaxBytes))
      ensures old(Coherent()) && directory == old(disk) ==> Coherent()
      ensures old(Exact()) && directory == old(disk) ==> Exact()
      ensures old(Holding()) && directory == old(disk) ==> Holding()
    {
      hide MemoryAgrees, DiskAgrees, Holds, OrDefault;
      NothingInMemory(old(latest), old(diskDoubt));
      DefaultsArePositive(memoryTTL, diskTTL, maxBody, memoryMaxBytes);
      this.memoryTTL := OrDefault(memoryTTL, DEFAULT_MEMORY_TTL);
      this.diskTTL := OrDefault(diskTTL, DEFAULT_DISK_TTL);
      this.maxBody := OrDefault(maxBody, DEFAULT_MAX_BODY);
      this.memoryMaxBytes := OrDefault(memoryMaxBytes, DEFAULT_MEMORY_MAX_BYTES);
      items := map[];
      memoryBytes := 0;
      sessionEntries := map[];
      disk := directory;
      memoryDoubt := {};
    }

    ghost function Abstract(): Plain
      reads `diskTTL, `maxBody, `memoryMaxBytes, `latest, `memoryDoubt, `diskDoubt, `kept
    {
      Plain(diskTTL, maxBody, memoryMaxBytes, latest, memoryDoubt, diskDoubt, kept)
    }

    method Step(op: Op) returns (r: Option<(Entry, Source)>)
      requires Valid() && Coherent() && Holding()
      modifies this
      ensures Valid() && Coherent() && Holding() && Abstract() == PlainStep(old(Abstract()), op)
      ensures Answered(old(Abstract()), op, r)
    {
      r := None;
      match op {
        case DoGet(key, now) =>
          hide Valid, Coherent, Holding, Live, Cacheable, Faithful, PlainStep, Servable, Obtainable;
          r := Get(key, now);
        case DoSet(key, session, entry, now, diskOk, diskSwept) =>
          hide Valid, Coherent, Holding, PutOutcome, DiskAfter, Cacheable, PlainStep;
          Set(key, session, entry, now, diskOk, diskSwept);
        case DoReload(memoryTTL, diskTTL, maxBody, memoryMaxBytes) =>
          hide Valid, Coherent, Holding;
          ApplyOptions(memoryTTL, diskTTL, maxBody, memoryMaxBytes, disk);
      }
    }

    // Over every run the two tiers behave as the plain map, except for keys that a set has put in doubt, and miss no key
    // whose record was written and kept.
    method Run(ops: seq<Op>) returns (results: seq<Option<(Entry, Source)>>)
      requires Valid() && Coherent() && Holding()
      modifies this
      ensures Valid() && Coherent() && Holding() && Abstract() == PlainRun(old(Abstract()), ops)
      ensures |results| == |ops|
      ensures forall i :: 0 <= i < |ops| ==> Answered(PlainRun(old(Abstract()), ops[..i]), ops[i], results[i])
    {
      hide Valid, Coherent, Holding, Answered, PlainStep;
      results := [];
      assert ops[..0] == [];
      for n := 0 to |ops|
        invariant Valid() && Coherent() && Holding() && |results| == n
        invariant Abstract() == PlainRun(old(Abstract()), ops[..n])
        invariant forall i :: 0 <= i < n ==> Answered(PlainRun(old(Abstract()), ops[..i]), ops[i], results[i])
      {
        var r := Step(ops[n]);
        results := results + [r];
        assert ops[..n + 1][..n] == ops[..n] && ops[..n + 1][n] == ops[n];
      }
      assert ops[..|ops|] == ops;
    }
  }

  // after is before without its first i candidates.
  ghost predicate DroppedPrefix(before: map<Key, MemoryEntry>, after: map<Key, MemoryEntry>, order: seq<Key>, i: nat) {
    && i <= |order| && (forall k :: k in order <==> k in before)
    && (forall k :: k in after ==> k in before && after[k] == before[k])
    && (forall j :: 0 <= j < i ==> order[j] !in after)
    && (forall j :: i <= j < |order| ==> order[j] in after)
  }

  ghost predicate Ordered(items: map<Key, MemoryEntry>, order: seq<Key>) {
    && (forall k :: k in order <==> k in items)
    && forall a, b :: 0 <= a < b < |order| ==> items[order[a]].memoryExpiresAt <= items[order[b]].memoryExpiresAt
  }

  // Dropping a prefix of the candidates in order of expiry never drops one that expires after a survivor, and the
  // last one dropped expires last of them.
  lemma OrderedEviction(before: map<Key, MemoryEntry>, after: map<Key, MemoryEntry>, order: seq<Key>, i: nat)
    requires Ordered(before, order) && DroppedPrefix(before, after, order, i)
    ensures forall k, s :: k in before && k !in after && s in after ==> before[k].memoryExpiresAt <= before[s].memoryExpiresAt
    ensures i > 0 ==> forall d :: d in before && d !in after ==> before[d].memoryExpiresAt <= before[order[i - 1]].memoryExpiresAt
  {
    forall k, s | k in before && k !in after && s in after
      ensures before[k].memoryExpiresAt <= before[s].memoryExpiresAt
    {
      var a :| 0 <= a < |order| && order[a] == k;
      var b :| 0 <= b < |order| && order[b] == s;
      assert a < i <= b;
    }
    if i > 0 {
      forall d | d in before && d !in after ensures before[d].memoryExpiresAt <= before[order[i - 1]].memoryExpiresAt {
        var a :| 0 <= a < |order| && order[a] == d;
        assert a <= i - 1;
      }
    }
  }

  // What is left when the eviction loop ends.
  lemma EvictionEnds(before: map<Key, MemoryEntry>, after: map<Key, MemoryEntry>, order: seq<Key>, i: nat, cap: int)
    requires Ordered(before, order) && DroppedPrefix(before, after, order, i) && cap > 0
    requires TotalSize(after) <= cap || i == |order|
    requires i > 0 ==> TotalSize(after) + before[order[i - 1]].size > cap
    ensures TotalSize(after) <= cap && Evicted(before, after, cap)
  {
    OrderedEviction(before, after, order, i);
    if i == |order| {
      forall k | k in before ensures k !in after {
        var a :| 0 <= a < |order| && order[a] == k;
      }
      assert after == map[];
    }
    if i == 0 {
      forall k | k in before ensures k in after {
        var a :| 0 <= a < |order| && order[a] == k;
      }
      assert after == before;
    } else {
      assert LastDropped(before, after, cap, order[i - 1]);
    }
  }

  // When all entries fit and all records are written, every hit of a run is the response last set for its key.
  lemma FittingRunIsExact(p: Plain, ops: seq<Op>, i: nat, r: Option<(Entry, Source)>)
    requires p.memoryDoubt == p.diskDoubt == {} && Fits(p, ops)
    requires i < |ops| && ops[i].DoGet? && r.Some? && HitIsLatest(PlainRun(p, ops[..i]), ops[i], r)
    ensures var latest := PlainRun(p, ops[..i]).latest;
      && ops[i].key in latest && Faithful(r.value.0, latest[ops[i].key])
      && ops[i].now < latest[ops[i].key].diskExpiresAt
  {
    var front := ops[..i];
    forall j | 0 <= j < i ensures ops[..j] == front[..j] && ops[j] == front[j] {}
    NoDoubts(p, front);
  }

  // A small entry stored in an empty cache is its one item.
  lemma StoredAlone(after: map<Key, MemoryEntry>, k: Key, e: Entry, now: int, ttl: int, cap: int)
    requires PutOutcome(map[], after, k, None, e, now, ttl, cap) && MemorySize(e) <= cap && now < e.diskExpiresAt
    ensures after == map[k := NewItem(None, e, now, ttl)]
  {
    var stored := WithStored(LiveItems(map[], now), k, None, e, now, ttl);
    assert stored == map[k := NewItem(None, e, now, ttl)];
    TotalSizeRemove(stored, k);
    assert stored - {k} == map[];
    NothingEvicted(stored, after, cap);
  }

  // An entry that is too large leaves the live items as they are.
  lemma NotStored(before: map<Key, MemoryEntry>, after: map<Key, MemoryEntry>, k: Key, e: Entry, now: int, ttl: int, cap: int)
    requires PutOutcome(before, after, k, None, e, now, ttl, cap) && MemorySize(e) > cap
    requires k in before && Live(before[k], now)
    ensures k in after && after[k] == before[k]
  {}

  // Agreement really can be lost: under a cap of three bytes a two-byte response is served after a four-byte one
  // has been set for the same key.
  method OversizedReplacementIsServed(k: Key) returns (r: Option<(Entry, Source)>)
    ensures r.Some? && r.value.0.body == "ab"
  {
    hide PutOutcome, PlainStep, DiskAfter, MemoryAgrees, DiskAgrees, StaleInMemory, StaleOnDisk, Cache.Valid, Holds,
      Servable, AllRenewed, KeptIsServed;
    var cache := new Cache(100, 100, 10, 3, map[]);
    var older, newer := Entry(200, "ab", "", false, false, 60), Entry(200, "abcd", "", false, false, 60);
    cache.Set(k, None, older, 10, true, {});
    StoredAlone(cache.items, k, older, 10, 100, 3);
    ghost var before := cache.items;
    OptionsStay(Plain(100, 10, 3, map[], {}, {}, {}), k, older);
    cache.Set(k, None, newer, 20, true, {});
    NotStored(before, cache.items, k, newer, 20, 100, 3);
    r := cache.Get(k, 30);
  }

  lemma OptionsStay(p: Plain, k: Key, e: Entry)
    ensures var q := PlainStep(p, DoSet(k, None, e, 10, true, {}));
      q.diskTTL == p.diskTTL && q.maxBody == p.maxBody && q.memoryMaxBytes == p.memoryMaxBytes
  {}

  // ------------------------------------------------------------ what is stored is found

  // The item stored for key has room beside the live items of the other keys.
  ghost predicate HasRoom(items: map<Key, MemoryEntry>, key: Key, size: nat, now: int, cap: int) {
    TotalSize(LiveItems(items, now) - {key}) + size <= cap
  }

  // The item stored for key fits, and every other live item expires before it.
  ghost predicate ExpiresLast(items: map<Key, MemoryEntry>, key: Key, session: Option<Session>, size: nat, lease: int,
                              now: int, cap: int)
  {
    size <= cap && forall k :: k in items && k != key && Live(items[k], now) ==>
      items[k].memoryExpiresAt < lease && (session.None? || items[k].session != session)
  }

  // Eviction spares an item that fits and expires after all others.
  lemma LastToExpireStays(before: map<Key, MemoryEntry>, after: map<Key, MemoryEntry>, cap: int, key: Key)
    requires Evicted(before, after, cap) && key in before && before[key].size <= cap
    requires forall k :: k in before && k != key ==> before[k].memoryExpiresAt < before[key].memoryExpiresAt
    ensures key in after
  {
    if after == map[] {
      assert TotalSize(after) == 0;
    }
  }

  lemma RoomSuffices(items: map<Key, MemoryEntry>, key: Key, session: Option<Session>, entry: Entry, now: int, ttl: int, cap: int)
    requires HasRoom(items, key, MemorySize(entry), now, cap)
    ensures TotalSize(WithStored(LiveItems(items, now), key, session, entry, now, ttl)) <= cap
  {
    hide LiveItems, Bumped;
    var live := LiveItems(items, now);
    var replaced := live[key := NewItem(session, entry, now, ttl)];
    BumpingChangesLeases(replaced, session, key, now, ttl);
    LeaseKeepsTotal(WithStored(live, key, session, entry, now, ttl), replaced);
    TotalSizeRemove(replaced, key);
    assert replaced - {key} == live - {key};
  }

  lemma BumpingChangesLeases(items: map<Key, MemoryEntry>, session: Option<Session>, except: Key, now: int, ttl: int)
    ensures SameButLease(BumpSiblings(items, session, except, now, ttl), items)
  {}

  // Storing an entry with room, or the last lease to expire, leaves it in memory.
  lemma StoredStays(items: map<Key, MemoryEntry>, after: map<Key, MemoryEntry>, key: Key, session: Option<Session>,
                    entry: Entry, now: int, ttl: int, cap: int)
    requires PutOutcome(items, after, key, session, entry, now, ttl, cap) && now < entry.diskExpiresAt
    requires
      || HasRoom(items, key, MemorySize(entry), now, cap)
      || ExpiresLast(items, key, session, MemorySize(entry), NewItem(session, entry, now, ttl).memoryExpiresAt, now, cap)
    ensures key in after && after[key] == NewItem(session, entry, now, ttl)
  {
    hide TotalSize, LastDropped;
    var stored := WithStored(LiveItems(items, now), key, session, entry, now, ttl);
    assert key in stored && stored[key] == NewItem(session, entry, now, ttl);
    if HasRoom(items, key, MemorySize(entry), now, cap) {
      RoomSuffices(items, key, session, entry, now, ttl, cap);
      NothingEvicted(stored, after, cap);
    } else {
      LastToExpireStays(stored, after, cap, key);
    }
  }

  function Earlier(a: int, b: int): int {
    if a < b then a else b
  }

  // A response without a deadline is found in memory until its lease or its disk deadline ends, with the deadline
  // fixed when it was set; if its record was written and not swept, it is found until the last second of its disk lifetime.
  method SetThenGet(cache: Cache, key: Key, session: Option<Session>, entry: Entry, now: int, diskOk: bool,
                    diskSwept: set<Key>, t: int) returns (r: Option<(Entry, Source)>)
    requires cache.Valid() && Storable(entry, cache.maxBody) && entry.diskExpiresAt <= now <= t
    modifies cache
    ensures var lease, size := now + Earlier(cache.memoryTTL, cache.diskTTL), |entry.body| + |entry.header|;
      && t < lease
      && (|| old(HasRoom(cache.items, key, size, now, cache.memoryMaxBytes))
          || old(ExpiresLast(cache.items, key, session, size, lease, now, cache.memoryMaxBytes)))
      ==> r == Some((entry.(diskExpiresAt := now + cache.diskTTL), Memory))
    ensures diskOk && key !in diskSwept && t + SECOND <= now + cache.diskTTL ==> r.Some?
    ensures diskOk && key !in diskSwept && r.Some? && |entry.body| + |entry.header| <= cache.memoryMaxBytes ==>
      && r.value.0 == entry.(diskExpiresAt := r.value.0.diskExpiresAt)
      && now + cache.diskTTL - SECOND < r.value.0.diskExpiresAt <= now + cache.diskTTL
    ensures r.Some? ==> t < r.value.0.diskExpiresAt
  {
    hide PutOutcome, DiskAfter, TotalSize, LiveItems, ExpiresLast, HasRoom, Cache.Accounted, Cache.Coherent, Cache.Holding,
      Cache.Exact, PlainStep, KeptIsServed, Faithful, StaleInMemory, StaleOnDisk, WholeSeconds, AllRenewed;
    ghost var e := entry.(diskExpiresAt := now + cache.diskTTL);
    ghost var items, disk := cache.items, cache.disk;
    cache.Set(key, session, entry, now, diskOk, diskSwept);
    assert PutOutcome(items, cache.items, key, session, e, now, cache.memoryTTL, cache.memoryMaxBytes);
    if || HasRoom(items, key, MemorySize(e), now, cache.memoryMaxBytes)
       || ExpiresLast(items, key, session, MemorySize(e), NewItem(session, e, now, cache.memoryTTL).memoryExpiresAt, now,
                      cache.memoryMaxBytes)
    {
      StoredStays(items, cache.items, key, session, e, now, cache.memoryTTL, cache.memoryMaxBytes);
    }
    if MemorySize(e) <= cache.memoryMaxBytes {
      NewOrNone(items, cache.items, key, session, e, now, cache.memoryTTL, cache.memoryMaxBytes);
    }
    if diskOk && key !in diskSwept {
      RecordWritten(disk, key, e, diskOk, diskSwept);
    }
    r := cache.Get(key, t);
  }

  lemma NewOrNone(items: map<Key, MemoryEntry>, after: map<Key, MemoryEntry>, key: Key, session: Option<Session>,
                  entry: Entry, now: int, ttl: int, cap: int)
    requires PutOutcome(items, after, key, session, entry, now, ttl, cap)
    requires now < entry.diskExpiresAt && MemorySize(entry) <= cap
    ensures key in after ==> after[key].entry == entry
  {
    hide TotalSize, LastDropped;
  }

  lemma RecordWritten(disk: map<Key, Entry>, key: Key, e: Entry, diskOk: bool, diskSwept: set<Key>)
    requires diskOk && key !in diskSwept
    ensures var after := DiskAfter(disk, key, e, diskOk, diskSwept);
      && key in after && after[key] == e.(diskExpiresAt := WholeSeconds(e.diskExpiresAt))
      && e.diskExpiresAt - SECOND < WholeSeconds(e.diskExpiresAt) <= e.diskExpiresAt
  {}

  // A hit in memory renews the leases of its session: until that ends, or its deadline passes, a get of the same key or
  // of a live key of its session hits in memory.
  method HitThenHit(cache: Cache, key: Key, now: int, sibling: Key, t: int)
    returns (first: Option<(Entry, Source)>, second: Option<(Entry, Source)>)
    requires cache.Valid()
    requires sibling in cache.items && Live(cache.items[sibling], now) && Together(cache.items, key, sibling)
    modifies cache
    ensures var item := old(cache.items)[sibling];
      first.Some? && first.value.1 == Memory && t < Earlier(now + cache.memoryTTL, item.entry.diskExpiresAt) ==>
        second == Some((item.entry, Memory))
    ensures key == sibling ==> first == Some((old(cache.items)[key].entry, Memory))
  {
    hide Cache.Accounted, Cache.Coherent, Cache.Holding, Cache.Exact, PlainStep, KeptIsServed, Faithful;
    first := cache.Get(key, now);
    second := cache.Get(sibling, t);
  }

  // A setting that is given is used, and one that is not positive is replaced.
  lemma OrDefaultIs(value: int, default: int)
    ensures value >= 1 ==> OrDefault(value, default) == value
    ensures value <= 0 ==> OrDefault(value, default) == default
  {}

  // What may not happen to a record of e if it is to be found later: a sweep, another response set for its key, or a get
  // of it in its last second or under a limit that it exceeds.
  predicate Spares(op: Op, maxBody: int, key: Key, e: Entry) {
    match op
    case DoGet(k, t) => k == key ==> t + SECOND <= e.diskExpiresAt && |e.body| <= maxBody
    case DoSet(k, _, other, _, _, swept) => key !in swept && (k == key ==> !Storable(other, maxBody))
    case DoReload(_, _, _, _) => true
  }

  // The record of key is kept and e is its latest entry, which was once storable.
  predicate KeptAs(p: Plain, key: Key, e: Entry) {
    p.maxBody > 0 && key in p.kept && key in p.latest && p.latest[key] == e && Storable(e, |e.body|)
  }

  lemma WrittenIsKept(p: Plain, key: Key, session: Option<Session>, entry: Entry, now: int, swept: set<Key>)
    requires p.maxBody > 0 && Storable(entry, p.maxBody) && entry.diskExpiresAt <= now && key !in swept
    ensures KeptAs(PlainStep(p, DoSet(key, session, entry, now, true, swept)), key, entry.(diskExpiresAt := now + p.diskTTL))
  {}

  lemma SparedStays(p: Plain, op: Op, key: Key, e: Entry)
    requires KeptAs(p, key, e) && Spares(op, p.maxBody, key, e)
    ensures KeptAs(PlainStep(p, op), key, e)
  {}

  // A record that was written is kept, as the latest of its key, through every run that spares it, and a get of it
  // before its last second and within the limit then hits.
  lemma {:induction false} SparedRunKeeps(p: Plain, ops: seq<Op>, key: Key, e: Entry)
    requires KeptAs(p, key, e)
    requires forall j :: 0 <= j < |ops| ==> Spares(ops[j], PlainRun(p, ops[..j]).maxBody, key, e)
    ensures KeptAs(PlainRun(p, ops), key, e)
    ensures forall t, r :: KeptIsServed(PlainRun(p, ops), DoGet(key, t), r) ==>
      t + SECOND > e.diskExpiresAt || |e.body| > PlainRun(p, ops).maxBody || r.Some?
  {
    hide PlainStep;
    if ops != [] {
      var front := ops[..|ops| - 1];
      forall j | 0 <= j < |front| ensures front[..j] == ops[..j] && front[j] == ops[j] {}
      SparedRunKeeps(p, front, key, e);
      SparedStays(PlainRun(p, front), ops[|ops| - 1], key, e);
    }
  }
}
