/**
 * When calls share an id under different names: exactly which calls of a message can be followed by
 * results that a second repair changes.
 */
module ToolRepairClash {
  import opened ToolFields
  import opened ToolRepair
  import opened ToolRepairTwice
  import opened ToolRepairIds

  // ---------------------------------------------------------------- a list of results on values

  /** A result as the matching sees it: its id and its name, either possibly empty. */
  datatype Reading = Reading(id: string, name: string)

  /** The waiting calls after a list of results, and what each result was given. */
  function MatchAll(st: State, results: seq<Reading>): (State, seq<Reading>) {
    if results == [] then (st, [])
    else
      var (s, given) := MatchAll(st, results[..|results| - 1]);
      var last := results[|results| - 1];
      var m := Consume(s, last.id, last.name);
      (m.state, given + [Reading(m.id, m.name)])
  }

  /** Matching what the results were given, from the same waiting calls, gives the same again. */
  ghost predicate Replays(st: State, results: seq<Reading>) {
    var given := MatchAll(st, results).1;
    MatchAll(st.(nextId := 0), given).1 == given
  }

  /**
   * A call shares its id with an earlier one of another name, and at least two calls have other names
   * than it has.
   */
  ghost predicate Breakable(calls: seq<Call>) {
    exists i, j :: 0 <= i < j < |calls| && calls[i].id == calls[j].id
      && Fold(calls[i].name) != Fold(calls[j].name)
      && |Others(calls, Fold(calls[j].name))| >= 2
  }

  /** The calls of other names, and the calls of one id. */
  function Others(calls: seq<Call>, n: string): seq<Call> {
    if calls == [] then []
    else
      var last := calls[|calls| - 1];
      Others(calls[..|calls| - 1], n) + if Fold(last.name) != n then [last] else []
  }

  function OfId(calls: seq<Call>, id: string): seq<Call> {
    if calls == [] then []
    else
      var last := calls[|calls| - 1];
      OfId(calls[..|calls| - 1], id) + if last.id == id then [last] else []
  }

  function Without(s: seq<Call>, i: nat): seq<Call>
    requires i < |s|
  {
    s[..i] + s[i + 1..]
  }

  // ---------------------------------------------------------------- counting

  lemma {:induction false} OthersAppend(a: seq<Call>, b: seq<Call>, n: string)
    ensures Others(a + b, n) == Others(a, n) + Others(b, n)
    decreases |b|
  {
    hide Fold;
    if b == [] {
      assert a + b == a;
    } else {
      OthersAppend(a, b[..|b| - 1], n);
      assert (a + b)[..|a + b| - 1] == a + b[..|b| - 1];
    }
  }

  lemma {:induction false} OfIdAppend(a: seq<Call>, b: seq<Call>, id: string)
    ensures OfId(a + b, id) == OfId(a, id) + OfId(b, id)
    decreases |b|
  {
    if b == [] {
      assert a + b == a;
    } else {
      OfIdAppend(a, b[..|b| - 1], id);
      assert (a + b)[..|a + b| - 1] == a + b[..|b| - 1];
    }
  }

  lemma {:induction false} OfIdCounts(s: seq<Call>, id: string, c: Call)
    ensures multiset(OfId(s, id))[c] == if c.id == id then multiset(s)[c] else 0
  {
    if s != [] {
      OfIdCounts(s[..|s| - 1], id, c);
      assert s == s[..|s| - 1] + [s[|s| - 1]];
    }
  }

  lemma {:induction false} OfIdLength(s: seq<Call>, id: string)
    ensures |OfId(s, id)| == multiset(Ids(s))[id]
  {
    if s != [] {
      OfIdLength(s[..|s| - 1], id);
      assert Ids(s) == Ids(s[..|s| - 1]) + [s[|s| - 1].id];
    }
  }

  lemma {:induction false} OfIdMember(s: seq<Call>, id: string, c: Call)
    ensures c in OfId(s, id) <==> c in s && c.id == id
  {
    if s != [] {
      OfIdMember(s[..|s| - 1], id, c);
      assert s == s[..|s| - 1] + [s[|s| - 1]];
    }
  }

  lemma {:induction false} OthersMember(s: seq<Call>, n: string, c: Call)
    ensures c in Others(s, n) <==> c in s && Fold(c.name) != n
  {
    hide Fold;
    if s != [] {
      OthersMember(s[..|s| - 1], n, c);
      assert s == s[..|s| - 1] + [s[|s| - 1]];
    }
  }

  lemma Removed(s: seq<Call>, k: nat)
    requires k < |s|
    ensures multiset(Without(s, k)) == multiset(s) - multiset{s[k]}
    ensures multiset(s) == multiset(Without(s, k)) + multiset{s[k]}
  {
    assert s == s[..k] + [s[k]] + s[k + 1..];
  }

  lemma OthersRemoved(s: seq<Call>, k: nat, n: string)
    requires k < |s|
    ensures |Others(s, n)| == |Others(Without(s, k), n)| + if Fold(s[k].name) != n then 1 else 0
    ensures Fold(s[k].name) == n ==> Others(s, n) == Others(Without(s, k), n)
  {
    hide Fold, Others;
    CutAt(s, k);
    OthersAppend(s[..k], s[k + 1..], n);
    OthersAppend(s[..k] + [s[k]], s[k + 1..], n);
    OthersAppend(s[..k], [s[k]], n);
    OneOther(s[k], n);
    assert Others(s[..k], n) + [] == Others(s[..k], n);
  }

  /** Fewer calls have fewer calls of other names. */
  lemma {:induction false} OthersMonotone(a: seq<Call>, b: seq<Call>, n: string)
    requires multiset(a) <= multiset(b)
    ensures |Others(a, n)| <= |Others(b, n)|
    decreases |a|
  {
    hide Fold, Others;
    if a == [] {
      NoOthers(n);
    } else {
      var last := |a| - 1;
      Removed(a, last);
      assert a[last] in multiset(b);
      var k :| 0 <= k < |b| && b[k] == a[last];
      Removed(b, k);
      OthersMonotone(Without(a, last), Without(b, k), n);
      OthersRemoved(a, last, n);
      OthersRemoved(b, k, n);
    }
  }

  lemma NoOthers(n: string)
    ensures Others([], n) == []
  {
  }

  lemma OneOther(c: Call, n: string)
    ensures Others([c], n) == if Fold(c.name) != n then [c] else []
  {
    hide Fold;
    assert [c][..0] == [];
    assert Others([], n) == [];
  }

  lemma {:induction false} OthersOfId(s: seq<Call>, n: string, id: string)
    ensures |OfId(Others(s, n), id)| == |Others(OfId(s, id), n)|
  {
    hide Fold, Others, OfId;
    if s == [] {
      NoOthers(n);
      NoneOfId(id);
    } else {
      var front, last := s[..|s| - 1], s[|s| - 1];
      assert s == front + [last];
      OthersOfId(front, n, id);
      OthersAppend(front, [last], n);
      OfIdAppend(front, [last], id);
      OneOther(last, n);
      OneOfId(last, id);
      OthersAppend(OfId(front, id), [last], n);
      OfIdAppend(Others(front, n), [last], id);
      NoOthers(n);
      NoneOfId(id);
      OthersAppend(OfId(front, id), [], n);
      OfIdAppend(Others(front, n), [], id);
    }
  }

  lemma NoneOfId(id: string)
    ensures OfId([], id) == []
  {
  }

  lemma OneOfId(c: Call, id: string)
    ensures OfId([c], id) == if c.id == id then [c] else []
  {
    assert [c][..0] == [];
    assert OfId([], id) == [];
  }

  /** Calls of one id keep their order. */
  lemma {:induction false} OfIdOrder(s: seq<Call>, id: string, p: nat, q: nat) returns (i: nat, j: nat)
    requires p < q < |OfId(s, id)|
    ensures i < j < |s| && s[i] == OfId(s, id)[p] && s[j] == OfId(s, id)[q]
  {
    var front, last := s[..|s| - 1], s[|s| - 1];
    var o := OfId(front, id);
    if q < |o| {
      i, j := OfIdOrder(front, id, p, q);
    } else {
      j := |s| - 1;
      OfIdMember(front, id, o[p]);
      i :| 0 <= i < |front| && front[i] == o[p];
    }
  }

  lemma {:induction false} OfIdOrderBack(s: seq<Call>, i: nat, j: nat) returns (p: nat, q: nat)
    requires i < j < |s| && s[i].id == s[j].id
    ensures p < q < |OfId(s, s[j].id)| && OfId(s, s[j].id)[p] == s[i] && OfId(s, s[j].id)[q] == s[j]
  {
    var front, last := s[..|s| - 1], s[|s| - 1];
    var o := OfId(front, s[j].id);
    if j < |front| {
      p, q := OfIdOrderBack(front, i, j);
    } else {
      q := |o|;
      assert front[i] in front;
      OfIdMember(front, s[j].id, s[i]);
      p :| 0 <= p < |o| && o[p] == s[i];
    }
  }

  // ---------------------------------------------------------------- the two passes side by side

  /** Of the calls of each id the second pass has dropped the first ones, as many as the first pass took. */
  ghost predicate SuffixOf(calls: seq<Call>, p: seq<Call>, id: string) {
    |OfId(p, id)| <= |OfId(calls, id)| && OfId(p, id) == OfId(calls, id)[|OfId(calls, id)| - |OfId(p, id)|..]
  }

  /** What the waiting calls of the first pass, p, and of the second pass, q, have in common. */
  ghost predicate Related(calls: seq<Call>, p: seq<Call>, q: seq<Call>) {
    && multiset(Ids(p)) == multiset(Ids(q))
    && multiset(p) <= multiset(calls)
    && (forall id :: SuffixOf(calls, q, id))
    && (forall c :: c in q ==> c in calls)
  }

  lemma RelatedStart(calls: seq<Call>)
    ensures Related(calls, calls, calls)
  {
    hide OfId;
  }

  lemma RelatedLengths(calls: seq<Call>, p: seq<Call>, q: seq<Call>, id: string)
    requires Related(calls, p, q)
    ensures |p| == |q| && |OfId(p, id)| == |OfId(q, id)|
    ensures id in Ids(p) <==> id in Ids(q)
  {
    hide OfId, Ids;
    assert |multiset(Ids(p))| == |multiset(Ids(q))|;
    OfIdLength(p, id);
    OfIdLength(q, id);
    assert id in Ids(p) <==> id in multiset(Ids(p));
    assert id in Ids(q) <==> id in multiset(Ids(q));
  }

  lemma WithoutIds(s: seq<Call>, i: nat)
    requires i < |s|
    ensures multiset(Ids(Without(s, i))) == multiset(Ids(s)) - multiset{s[i].id}
  {
    hide Ids;
    var a, b := s[..i], s[i + 1..];
    SplitIds(a, s[i], b);
    CutOne(Ids(a), s[i].id, Ids(b));
    CutAt(s, i);
  }

  lemma CutAt(s: seq<Call>, i: nat)
    requires i < |s|
    ensures s == s[..i] + [s[i]] + s[i + 1..]
  {
  }

  lemma SplitIds(a: seq<Call>, c: Call, b: seq<Call>)
    ensures Ids(a + [c] + b) == Ids(a) + [c.id] + Ids(b)
    ensures Ids(a + b) == Ids(a) + Ids(b)
  {
    hide Ids;
    IdsAppend(a, b);
    IdsAppend(a + [c], b);
    IdsAppend(a, [c]);
    OneId(c);
  }

  lemma CutOne(a: seq<string>, e: string, b: seq<string>)
    ensures multiset(a + b) == multiset(a + [e] + b) - multiset{e}
  {
  }

  lemma WithoutKeeps(s: seq<Call>, i: nat, c: Call)
    requires i < |s| && c in Without(s, i)
    ensures c in s
  {
  }

  /** Taking the first call of an id drops the first of the calls of that id. */
  lemma FirstDropped(s: seq<Call>, i: nat, id: string)
    requires i < |s| && (forall k :: 0 <= k < i ==> s[k].id != s[i].id)
    ensures OfId(s, s[i].id) != []
    ensures OfId(Without(s, i), id) ==
      if id == s[i].id && OfId(s, id) != [] then OfId(s, id)[1..] else OfId(s, id)
  {
    hide OfId;
    var a, b := s[..i], s[i + 1..];
    assert s == a + [s[i]] + b;
    OfIdAppend(a, b, id);
    OfIdAppend(a + [s[i]], b, id);
    OfIdAppend(a, [s[i]], id);
    OneOfId(s[i], id);
    FewerOfId(a, s[i].id);
    OfIdMember(s, s[i].id, s[i]);
    assert OfId(a, id) + [] == OfId(a, id);
  }

  lemma {:induction false} FewerOfId(s: seq<Call>, id: string)
    requires forall k :: 0 <= k < |s| ==> s[k].id != id
    ensures OfId(s, id) == []
  {
    if s != [] {
      FewerOfId(s[..|s| - 1], id);
    }
  }

  lemma SuffixStep(calls: seq<Call>, q: seq<Call>, j: nat, id: string)
    requires SuffixOf(calls, q, id) && j < |q| && (forall k :: 0 <= k < j ==> q[k].id != q[j].id)
    ensures SuffixOf(calls, Without(q, j), id)
  {
    hide OfId;
    FirstDropped(q, j, id);
  }

  lemma RelatedStep(calls: seq<Call>, p: seq<Call>, q: seq<Call>, i: nat, j: nat)
    requires Related(calls, p, q) && i < |p| && j < |q| && p[i].id == q[j].id
    requires forall k :: 0 <= k < j ==> q[k].id != q[j].id
    ensures Related(calls, Without(p, i), Without(q, j))
  {
    hide SuffixOf, Ids, Without;
    forall c | c in Without(q, j) ensures c in calls {
      WithoutKeeps(q, j, c);
    }
    WithoutIds(p, i);
    WithoutIds(q, j);
    Removed(p, i);
    forall id ensures SuffixOf(calls, Without(q, j), id) {
      SuffixStep(calls, q, j, id);
    }
  }

  /** A name that the first pass has lost and the second pass has not, with two calls left, needs a breakable list. */
  lemma LostName(calls: seq<Call>, p: seq<Call>, q: seq<Call>, n: string, c: Call)
    requires Related(calls, p, q) && |p| >= 2
    requires (forall d :: d in p ==> Fold(d.name) != n) && c in q && Fold(c.name) == n
    ensures Breakable(calls)
  {
    hide Fold, OfId, Others, Ids;
    var all, left, kept := OfId(calls, c.id), OfId(q, c.id), OfId(p, c.id);
    RelatedLengths(calls, p, q, c.id);
    assert SuffixOf(calls, q, c.id);
    var cut := |all| - |left|;
    var before := all[..cut];
    assert all == before + left;
    OthersAppend(before, left, n);
    forall d ensures multiset(kept)[d] <= multiset(all)[d] {
      OfIdCounts(p, c.id, d);
      OfIdCounts(calls, c.id, d);
    }
    OthersMonotone(kept, all, n);
    forall d | d in kept ensures Fold(d.name) != n {
      OfIdMember(p, c.id, d);
    }
    NoneNamed(kept, n);
    OthersMonotone(p, calls, n);
    NoneNamed(p, n);
    OfIdMember(q, c.id, c);
    SomeNamed(left, n, c);
    assert |Others(before, n)| >= 1;
    var d := Others(before, n)[0];
    OthersMember(before, n, d);
    var a :| 0 <= a < cut && before[a] == d;
    var b :| 0 <= b < |left| && left[b] == c;
    assert all[a] == d && all[cut + b] == c;
    var i, j := OfIdOrder(calls, c.id, a, cut + b);
    OfIdMember(calls, c.id, d);
    assert all[a] in all;
  }

  lemma {:induction false} NoneNamed(s: seq<Call>, n: string)
    requires forall d :: d in s ==> Fold(d.name) != n
    ensures Others(s, n) == s
  {
    hide Fold;
    if s != [] {
      var front, last := s[..|s| - 1], s[|s| - 1];
      assert s == front + [last];
      NoneNamed(front, n);
    }
  }

  lemma {:induction false} OthersLength(s: seq<Call>, n: string)
    ensures |Others(s, n)| <= |s|
    ensures |Others(s, n)| == |s| ==> Others(s, n) == s
  {
    hide Fold, Others;
    if s == [] {
      NoOthers(n);
    } else {
      var front, last := s[..|s| - 1], s[|s| - 1];
      assert s == front + [last];
      OthersLength(front, n);
      OthersAppend(front, [last], n);
      OneOther(last, n);
    }
  }

  lemma {:induction false} SomeNamed(s: seq<Call>, n: string, c: Call)
    requires c in s && Fold(c.name) == n
    ensures |Others(s, n)| < |s|
  {
    hide Fold;
    var front, last := s[..|s| - 1], s[|s| - 1];
    assert s == front + [last];
    OthersLength(front, n);
    if Fold(last.name) != n {
      SomeNamed(front, n, c);
    }
  }

  lemma {:induction false} NamedExists(s: seq<Call>, n: string) returns (c: Call)
    requires |Others(s, n)| < |s|
    ensures c in s && Fold(c.name) == n
  {
    hide Fold;
    var front, last := s[..|s| - 1], s[|s| - 1];
    assert s == front + [last];
    if Fold(last.name) == n {
      c := last;
    } else {
      c := NamedExists(front, n);
    }
  }

  lemma FindNameFinds(s: seq<Call>, name: string)
    ensures FindName(s, name) == |s| <==> forall c :: c in s ==> Fold(c.name) != Fold(name)
  {
    hide FindName, Fold;
    var i := FindName(s, name);
    if i < |s| {
      assert s[i] in s;
    }
  }

  ghost predicate AllProper(calls: seq<Call>) {
    forall c :: c in calls ==> ProperCall(c)
  }

  lemma RelatedProper(calls: seq<Call>, p: seq<Call>, q: seq<Call>)
    requires Related(calls, p, q) && AllProper(calls)
    ensures AllProper(p) && AllProper(q)
  {
    hide ProperCall;
    forall c | c in p ensures c in calls {
      assert c in multiset(p);
      assert c in multiset(calls);
    }
  }

  lemma MatchProper(st: State, id: string, name: string)
    requires AllProper(st.pending)
    ensures var m := Consume(st, id, name);
      && m.id != "" && Trimmed(m.id) && Trimmed(m.name)
      && (m.id in Ids(st.pending) ==> m.name != "")
  {
    hide Trim, FindId, FindName, GeneratedId, Fold;
    forall i | 0 <= i < |st.pending| ensures ProperCall(st.pending[i]) {
      assert st.pending[i] in st.pending;
    }
    FindIdFinds(st.pending, Trim(id));
  }

  /** A result with an id that waits takes the first call of that id. */
  lemma MatchById(st: State, id: string, name: string)
    requires id != "" && Trimmed(id) && Trimmed(name) && name != "" && id in Ids(st.pending)
    ensures FindId(st.pending, id) < |st.pending|
    ensures Consume(st, id, name) == Match(TakeAt(st, FindId(st.pending, id)), id, name)
  {
    hide Trim, FindName, GeneratedId, Fold, FindId;
    FindIdFinds(st.pending, id);
  }

  /** One result in both passes. */
  lemma StepReplays(calls: seq<Call>, s: State, t: State, r: Reading)
    requires AllProper(calls) && Related(calls, s.pending, t.pending)
    ensures var m := Consume(s, r.id, r.name);
      var again := Consume(t, m.id, m.name);
      m.id in Ids(s.pending) || !Breakable(calls) ==>
        again.id == m.id && again.name == m.name && Related(calls, m.state.pending, again.state.pending)
  {
    hide Consume, Related, Breakable, Trim, Fold, Ids, ProperCall;
    var m := Consume(s, r.id, r.name);
    RelatedProper(calls, s.pending, t.pending);
    MatchProper(s, r.id, r.name);
    RelatedLengths(calls, s.pending, t.pending, m.id);
    ConsumeTakes(s, r.id, r.name);
    if m.id in Ids(s.pending) {
      MatchById(t, m.id, m.name);
      var i :| 0 <= i < |s.pending| && s.pending[i].id == m.id
        && m.state == State(s.pending[..i] + s.pending[i + 1..], s.nextId, s.made, s.used + [s.pending[i]]);
      RelatedStep(calls, s.pending, t.pending, i, FindId(t.pending, m.id));
    } else if !Breakable(calls) {
      UnmatchedReplays(calls, s, t, r);
    }
  }

  lemma UnmatchedReplays(calls: seq<Call>, s: State, t: State, r: Reading)
    requires AllProper(calls) && Related(calls, s.pending, t.pending) && !Breakable(calls)
    requires Consume(s, r.id, r.name).id !in Ids(s.pending)
    ensures var m := Consume(s, r.id, r.name);
      m.state.pending == s.pending && Consume(t, m.id, m.name) == Match(t, m.id, m.name)
  {
    hide Related, Breakable, Fold, Ids, ProperCall, Trim, FindId, FindName, GeneratedId;
    var m := Consume(s, r.id, r.name);
    RelatedProper(calls, s.pending, t.pending);
    MatchProper(s, r.id, r.name);
    ConsumeTakes(s, r.id, r.name);
    RelatedLengths(calls, s.pending, t.pending, m.id);
    FindIdFinds(t.pending, m.id);
    FindNameFinds(t.pending, m.name);
    if s.pending != [] && m.name != "" {
      NameStaysLost(calls, s.pending, t.pending, Fold(m.name));
    }
  }

  lemma NameStaysLost(calls: seq<Call>, p: seq<Call>, q: seq<Call>, n: string)
    requires Related(calls, p, q) && |p| >= 2 && !Breakable(calls)
    requires forall d :: d in p ==> Fold(d.name) != n
    ensures forall c :: c in q ==> Fold(c.name) != n
  {
    hide Related, Breakable, Fold;
    forall c | c in q ensures Fold(c.name) != n {
      if Fold(c.name) == n {
        LostName(calls, p, q, n, c);
      }
    }
  }

  /** As long as the calls are not breakable, both passes give every result the same. */
  lemma {:induction false} UnbreakableRun(s0: State, t0: State, results: seq<Reading>)
    requires s0.pending == t0.pending && AllProper(s0.pending) && !Breakable(s0.pending)
    ensures var (s, given) := MatchAll(s0, results);
      var (t, again) := MatchAll(t0, given);
      again == given && Related(s0.pending, s.pending, t.pending)
  {
    hide Consume, Related, Breakable, AllProper, MatchAll;
    if results == [] {
      RelatedStart(s0.pending);
      MatchNone(s0);
      MatchNone(t0);
    } else {
      var front, last := results[..|results| - 1], results[|results| - 1];
      assert results == front + [last];
      UnbreakableRun(s0, t0, front);
      var (s, given) := MatchAll(s0, front);
      var (t, again) := MatchAll(t0, given);
      StepReplays(s0.pending, s, t, last);
      var m := Consume(s, last.id, last.name);
      MatchOneMore(s0, front, last);
      MatchOneMore(t0, given, Reading(m.id, m.name));
    }
  }

  lemma UnbreakableReplays(st: State, results: seq<Reading>)
    requires AllProper(st.pending) && !Breakable(st.pending)
    ensures Replays(st, results)
  {
    hide MatchAll, Related, Breakable, AllProper;
    UnbreakableRun(st, st.(nextId := 0), results);
  }

  lemma MatchNone(st: State)
    ensures MatchAll(st, []) == (st, [])
  {
  }

  lemma MatchOneMore(st: State, results: seq<Reading>, r: Reading)
    ensures var (s, given) := MatchAll(st, results);
      var m := Consume(s, r.id, r.name);
      MatchAll(st, results + [r]) == (m.state, given + [Reading(m.id, m.name)])
  {
    hide Consume;
    assert (results + [r])[..|results|] == results;
  }

  // ---------------------------------------------------------------- breaking results

  /** As many results that carry only the name as there are calls of that name. */
  function NamedReadings(name: string, k: nat): (r: seq<Reading>)
    ensures |r| == k
  {
    if k == 0 then [] else NamedReadings(name, k - 1) + [Reading("", name)]
  }

  /** Each of them takes a call of the name and leaves the other calls alone. */
  lemma {:induction false} NamedRun(s0: State, t0: State, name: string, k: nat)
    requires s0.pending == t0.pending && AllProper(s0.pending) && name != "" && Trimmed(name)
    requires k <= |s0.pending| - |Others(s0.pending, Fold(name))|
    ensures var (s, given) := MatchAll(s0, NamedReadings(name, k));
      var (t, again) := MatchAll(t0, given);
      && again == given && Related(s0.pending, s.pending, t.pending)
      && Others(s.pending, Fold(name)) == Others(s0.pending, Fold(name)) && |s.pending| == |s0.pending| - k
      && |given| == k
  {
    hide Consume, Related, AllProper, Others, Fold, MatchAll, Ids, Breakable;
    if k == 0 {
      RelatedStart(s0.pending);
      MatchNone(s0);
      MatchNone(t0);
    } else {
      NamedRun(s0, t0, name, k - 1);
      var front := NamedReadings(name, k - 1);
      var (s, given) := MatchAll(s0, front);
      var (t, again) := MatchAll(t0, given);
      NamedStep(s0.pending, s, t, name);
      StepReplays(s0.pending, s, t, Reading("", name));
      var m := Consume(s, "", name);
      MatchOneMore(s0, front, Reading("", name));
      MatchOneMore(t0, given, Reading(m.id, m.name));
    }
  }

  lemma NamedStep(calls: seq<Call>, s: State, t: State, name: string)
    requires AllProper(calls) && Related(calls, s.pending, t.pending) && name != "" && Trimmed(name)
    requires |Others(s.pending, Fold(name))| < |s.pending|
    ensures var m := Consume(s, "", name);
      && m.id in Ids(s.pending)
      && Others(m.state.pending, Fold(name)) == Others(s.pending, Fold(name))
      && |m.state.pending| == |s.pending| - 1
  {
    hide Related, Fold, Ids, Trim, FindId, FindName, GeneratedId, Others, AllProper;
    assert Trim("") == "";
    var p := s.pending;
    var j := FindName(p, name);
    var c := NamedExists(p, Fold(name));
    FindNameFinds(p, name);
    IdsAt(p, j);
    OthersRemoved(p, j, Fold(name));
  }

  /** When all calls of the later name are gone from the first pass, the second pass still has one. */
  lemma NameRemains(calls: seq<Call>, p: seq<Call>, q: seq<Call>, i: nat, j: nat) returns (c: Call)
    requires i < j < |calls| && calls[i].id == calls[j].id && Fold(calls[i].name) != Fold(calls[j].name)
    requires Related(calls, p, q) && p == Others(calls, Fold(calls[j].name))
    ensures c in q && Fold(c.name) == Fold(calls[j].name)
  {
    hide Fold, OfId, Others, Ids;
    var n, id := Fold(calls[j].name), calls[j].id;
    var all, left := OfId(calls, id), OfId(q, id);
    RelatedLengths(calls, p, q, id);
    OthersOfId(calls, n, id);
    assert SuffixOf(calls, q, id);
    var cut := |all| - |left|;
    var before := all[..cut];
    assert all == before + left;
    OthersAppend(before, left, n);
    var a, b := OfIdOrderBack(calls, i, j);
    if b >= cut {
      c := calls[j];
      assert left[b - cut] == c;
    } else {
      assert before[a] == calls[i];
      OthersMember(before, n, calls[i]);
      c := NamedExists(left, n);
    }
    OfIdMember(q, id, c);
  }

  /** The results after breakable calls that a second repair changes: the later name's calls, then a stray. */
  function BreakingReadings(calls: seq<Call>, name: string, stray: string): seq<Reading>
  {
    OthersLength(calls, Fold(name));
    NamedReadings(name, |calls| - |Others(calls, Fold(name))|) + [Reading(stray, name)]
  }

  lemma BreakableDoesNotReplay(st: State, i: nat, j: nat, stray: string)
    requires AllProper(st.pending) && i < j < |st.pending| && st.pending[i].id == st.pending[j].id
    requires Fold(st.pending[i].name) != Fold(st.pending[j].name)
    requires |Others(st.pending, Fold(st.pending[j].name))| >= 2
    requires stray != "" && Trimmed(stray) && stray !in Ids(st.pending)
    ensures !Replays(st, BreakingReadings(st.pending, st.pending[j].name, stray))
  {
    hide Consume, Related, AllProper, Others, Fold, Ids, MatchAll;
    var calls, t0 := st.pending, st.(nextId := 0);
    var name := calls[j].name;
    var n := Fold(name);
    OthersLength(calls, n);
    var k := |calls| - |Others(calls, n)|;
    ProperAt(calls, j);
    NamedRun(st, t0, name, k);
    var named := NamedReadings(name, k);
    var (s, given) := MatchAll(st, named);
    var (t, again) := MatchAll(t0, given);
    OthersLength(s.pending, n);
    assert s.pending == Others(calls, n);
    StrayUnmatched(calls, s, t, name, stray);
    var c := NameRemains(calls, s.pending, t.pending, i, j);
    StrayMatched(calls, s, t, name, stray, c);
    var last := Reading(stray, name);
    MatchOneMore(st, named, last);
    MatchOneMore(t0, given, last);
    var m := Consume(t, stray, name);
    assert (given + [last])[|given|] != (given + [Reading(m.id, m.name)])[|given|];
  }

  lemma ProperAt(calls: seq<Call>, j: nat)
    requires AllProper(calls) && j < |calls|
    ensures ProperCall(calls[j])
  {
    assert calls[j] in calls;
  }

  lemma StrayUnmatched(calls: seq<Call>, s: State, t: State, name: string, stray: string)
    requires Related(calls, s.pending, t.pending) && stray !in Ids(calls)
    requires stray != "" && Trimmed(stray) && name != "" && Trimmed(name)
    requires s.pending == Others(calls, Fold(name)) && |s.pending| >= 2
    ensures Consume(s, stray, name) == Match(s, stray, name)
    ensures stray !in Ids(t.pending)
  {
    hide Fold, Trim, FindId, FindName, GeneratedId, Others, Ids;
    forall c | c in s.pending ensures c.id != stray && Fold(c.name) != Fold(name) {
      OthersMember(calls, Fold(name), c);
      var k :| 0 <= k < |calls| && calls[k] == c;
      IdsAt(calls, k);
    }
    FindIdFinds(s.pending, stray);
    FindNameFinds(s.pending, name);
    RelatedLengths(calls, s.pending, t.pending, stray);
  }

  lemma StrayMatched(calls: seq<Call>, s: State, t: State, name: string, stray: string, c: Call)
    requires stray != "" && Trimmed(stray) && name != "" && Trimmed(name) && stray !in Ids(t.pending)
    requires c in t.pending && Fold(c.name) == Fold(name)
    ensures Consume(t, stray, name).id != stray
  {
    hide Fold, Trim, FindId, FindName, GeneratedId, Ids;
    FindIdFinds(t.pending, stray);
    FindNameFinds(t.pending, name);
    var j := FindName(t.pending, name);
    IdsAt(t.pending, j);
  }

  // ---------------------------------------------------------------- messages

  predicate AreResults(results: seq<Object>) {
    forall r :: r in results ==> IsResultItem(r)
  }

  function Objects(results: seq<Object>): seq<Value> {
    if results == [] then [] else Objects(results[..|results| - 1]) + [Obj(results[|results| - 1])]
  }

  function ReadingOf(r: Object): Reading {
    Reading(FirstText(r, RESULT_IDS), FirstText(r, CALL_NAMES))
  }

  function Readings(results: seq<Object>): (r: seq<Reading>)
    ensures |r| == |results|
  {
    if results == [] then [] else Readings(results[..|results| - 1]) + [ReadingOf(results[|results| - 1])]
  }

  /** The tool messages for results that were given these ids and names. */
  function Messages(given: seq<Reading>, contents: seq<Value>): (r: seq<Object>)
    requires |given| == |contents|
    ensures |r| == |given|
  {
    if given == [] then []
    else
      var k := |given| - 1;
      Messages(given[..k], contents[..k]) + [ToolMessage(given[k].id, given[k].name, contents[k])]
  }

  lemma {:induction false} MatchedLength(st: State, results: seq<Reading>)
    ensures |MatchAll(st, results).1| == |results|
  {
    hide Consume;
    if results != [] {
      MatchedLength(st, results[..|results| - 1]);
    }
  }

  lemma {:induction false} ContentsLength(results: seq<Object>)
    ensures |Contents(results)| == |results|
  {
    hide ResultContent;
    if results != [] {
      ContentsLength(results[..|results| - 1]);
    }
  }

  lemma ResultRepaired(x: Externals, r: Object, st: State)
    requires IsResultItem(r)
    ensures var m := Consume(st, ReadingOf(r).id, ReadingOf(r).name);
      RepairMessage(x, r, st) == Repaired(m.state, [Obj(ToolMessage(m.id, m.name, ResultContent(r)))])
  {
    hide IsResultItem, Consume, FirstText, ResultContent, ToolMessage;
  }

  /** A list of results is repaired to the tool messages its matching gives. */
  lemma {:induction false} ResultsRepaired(x: Externals, results: seq<Object>, st: State)
    requires AreResults(results)
    ensures |MatchAll(st, Readings(results)).1| == |Contents(results)|
    ensures var (s, given) := MatchAll(st, Readings(results));
      RepairFrom(x, Objects(results), st) == Repaired(s, Objects(Messages(given, Contents(results))))
  {
    hide IsResultItem, Consume, ReadingOf, ResultContent, ToolMessage, RepairMessage, MatchAll;
    MatchedLength(st, Readings(results));
    ContentsLength(results);
    if results == [] {
      MatchNone(st);
    } else {
      var front, last := results[..|results| - 1], results[|results| - 1];
      assert results == front + [last];
      ResultsRepaired(x, front, st);
      var (s, given) := MatchAll(st, Readings(front));
      var m := Consume(s, ReadingOf(last).id, ReadingOf(last).name);
      MatchOneMore(st, Readings(front), ReadingOf(last));
      ResultRepaired(x, last, s);
      RepairAppend(x, Objects(front), [Obj(last)], st);
      RepairOne(x, last, s);
      MessagesOneMore(given, Contents(front), Reading(m.id, m.name), ResultContent(last));
    }
  }

  lemma MessagesOneMore(given: seq<Reading>, contents: seq<Value>, r: Reading, c: Value)
    requires |given| == |contents|
    ensures |given + [r]| == |contents + [c]|
    ensures Messages(given + [r], contents + [c]) == Messages(given, contents) + [ToolMessage(r.id, r.name, c)]
    ensures Objects(Messages(given + [r], contents + [c])) ==
      Objects(Messages(given, contents)) + [Obj(ToolMessage(r.id, r.name, c))]
  {
    hide ToolMessage;
    assert (given + [r])[..|given|] == given && (contents + [c])[..|given|] == contents;
    var ms := Messages(given, contents);
    assert (ms + [ToolMessage(r.id, r.name, c)])[..|ms|] == ms;
  }

  /** Ids and names as the matching gives them. */
  ghost predicate Given(r: Reading) {
    r.id != "" && Trimmed(r.id) && Trimmed(r.name)
  }

  lemma {:induction false} AllGiven(st: State, results: seq<Reading>)
    requires AllProper(st.pending)
    ensures var (s, given) := MatchAll(st, results); AllProper(s.pending) && forall r :: r in given ==> Given(r)
  {
    hide Consume, ProperCall, Given, Ids, Trim, Fold;
    if results != [] {
      var front, last := results[..|results| - 1], results[|results| - 1];
      AllGiven(st, front);
      var s := MatchAll(st, front).0;
      GivenByMatch(s, last);
    }
  }

  lemma GivenByMatch(s: State, r: Reading)
    requires AllProper(s.pending)
    ensures var m := Consume(s, r.id, r.name); Given(Reading(m.id, m.name)) && AllProper(m.state.pending)
  {
    hide Consume, ProperCall, Ids, Trim, Fold;
    MatchProper(s, r.id, r.name);
    ConsumeTakes(s, r.id, r.name);
  }

  /** Tool messages are results again, with the ids and names they were given. */
  lemma {:induction false} MessagesRead(given: seq<Reading>, contents: seq<Value>)
    requires |given| == |contents| && (forall r :: r in given ==> Given(r))
    requires forall c :: c in contents ==> !c.Null? && !IsResultValue(c)
    ensures var ms := Messages(given, contents);
      AreResults(ms) && Readings(ms) == given && Contents(ms) == contents
  {
    hide ToolMessage, FirstText, ResultContent, IsResultValue, KindOf, Unwrap;
    if given != [] {
      var k := |given| - 1;
      assert given == given[..k] + [given[k]] && contents == contents[..k] + [contents[k]];
      assert given[k] in given && contents[k] in contents;
      MessagesRead(given[..k], contents[..k]);
      ToolMessageReads(given[k].id, given[k].name, contents[k]);
      UnwrapChanges(contents[k]);
      var ms, last := Messages(given[..k], contents[..k]), ToolMessage(given[k].id, given[k].name, contents[k]);
      assert (ms + [last])[..|ms|] == ms;
    }
  }

  lemma {:induction false} PlainContents(results: seq<Object>)
    requires !DoublyNested(results)
    ensures forall c :: c in Contents(results) ==> !c.Null? && !IsResultValue(c)
  {
    hide ResultContent, IsResultValue;
    if results != [] {
      var front, last := results[..|results| - 1], results[|results| - 1];
      assert results == front + [last];
      assert !DoublyNested(front);
      PlainContents(front);
    }
  }

  lemma {:induction false} MessagesInjective(a: seq<Reading>, b: seq<Reading>, contents: seq<Value>)
    requires |a| == |b| == |contents| && Objects(Messages(a, contents)) == Objects(Messages(b, contents))
    ensures a == b
  {
    if a != [] {
      hide ToolMessage;
      var k := |a| - 1;
      var p, q := a[..k], b[..k];
      assert a == p + [a[k]] && b == q + [b[k]] && contents == contents[..k] + [contents[k]];
      MessagesOneMore(p, contents[..k], a[k], contents[k]);
      MessagesOneMore(q, contents[..k], b[k], contents[k]);
      var u, v := Objects(Messages(p, contents[..k])), Objects(Messages(q, contents[..k]));
      ObjectsLength(Messages(p, contents[..k]));
      ObjectsLength(Messages(q, contents[..k]));
      var x, y := Obj(ToolMessage(a[k].id, a[k].name, contents[k])), Obj(ToolMessage(b[k].id, b[k].name, contents[k]));
      assert (u + [x])[..k] == u && (v + [y])[..k] == v && (u + [x])[k] == x && (v + [y])[k] == y;
      MessagesInjective(p, q, contents[..k]);
      ToolMessageInjective(a[k], b[k], contents[k]);
    }
  }

  lemma {:induction false} ObjectsLength(results: seq<Object>)
    ensures |Objects(results)| == |results|
  {
    if results != [] {
      ObjectsLength(results[..|results| - 1]);
    }
  }

  lemma ToolMessageInjective(a: Reading, b: Reading, c: Value)
    requires ToolMessage(a.id, a.name, c) == ToolMessage(b.id, b.name, c)
    ensures a == b
  {
    var m, n := ToolMessage(a.id, a.name, c), ToolMessage(b.id, b.name, c);
    assert m[ToolCallId] == n[ToolCallId];
    assert Name in m <==> Name in n;
    if Name in m { assert m[Name] == n[Name]; }
  }

  /** A tool result that names its tool but carries no id. */
  function NamedResult(name: string): Object {
    map[Role := Text("tool"), Name := Text(name), Content := Text("")]
  }

  lemma NamedResultReads(name: string)
    requires name != "" && Trimmed(name)
    ensures var m := NamedResult(name);
      && IsResultItem(m) && FirstText(m, RESULT_IDS) == "" && FirstText(m, CALL_NAMES) == name
      && ResultContent(m) == Text("")
  {
    hide FirstText, FirstExisting, RoleOf, Trim, Fold;
    var m := NamedResult(name);
    LiteralRoles();
    RoleFromText(m, "tool");
    FirstTextNone(m, RESULT_IDS);
    FirstTextHead(m, CALL_NAMES, name);
    ContentFirst(m);
  }

  lemma AssistantOut(x: Externals, m: Object, st: State)
    requires KindOf(m).Assistant?
    ensures var out := RepairAssistant(x, m, st).out; |out| == 1 && out[0].Obj? && KindOf(out[0].fields).Assistant?
  {
    hide RepairCalls, CallBlocks, Record, SideTexts, CallItems, KindOf;
    SameRole(m, RepairAssistant(x, m, st).out[0].fields);
  }


  /** After a message with calls, results are repaired the same twice exactly when their matching replays. */
  lemma ResultsReplay(x: Externals, m: Object, results: seq<Object>)
    requires Lawful(x) && KindOf(m).Assistant? && AreResults(results) && !DoublyNested(results)
    ensures var items := [Obj(m)] + Objects(results);
      Repair(x, Repair(x, items)) == Repair(x, items) <==>
      Replays(RepairAssistant(x, m, START).state, Readings(results))
  {
    hide RepairAssistant, KindOf, RepairFrom, Lawful, Readings, Objects, Contents, MatchAll, AreResults, DoublyNested,
      Messages, AllProper;
    var r := RepairAssistant(x, m, START);
    FirstPass(x, m, results);
    var (s, given) := MatchAll(r.state, Readings(results));
    var ms := Messages(given, Contents(results));
    CallsProper(x, m);
    AllGiven(r.state, Readings(results));
    PlainContents(results);
    MessagesRead(given, Contents(results));
    AssistantStays(x, m, START);
    AssistantOut(x, m, START);
    var t0 := r.state.(nextId := 0);
    assert START.(nextId := 0) == START;
    assert RepairFrom(x, r.out, START) == Repaired(t0, r.out);
    ResultsRepaired(x, ms, t0);
    RepairAppend(x, r.out, Objects(ms), START);
    var again := MatchAll(t0, given).1;
    SameTail(r.out, Objects(Messages(again, Contents(results))), Objects(ms));
    if Objects(Messages(again, Contents(results))) == Objects(ms) {
      MessagesInjective(again, given, Contents(results));
    }
  }

  lemma SameTail(a: seq<Value>, b: seq<Value>, c: seq<Value>)
    ensures a + b == a + c <==> b == c
  {
    if a + b == a + c {
      assert b == (a + b)[|a|..] == c;
    }
  }

  lemma CallsProper(x: Externals, m: Object)
    requires Lawful(x) && KindOf(m).Assistant?
    ensures AllProper(RepairAssistant(x, m, START).state.pending)
  {
    hide RepairAssistant, KindOf, ProperCall, Conserved, IsResultItem, IsCallItem;
    StartIsGood();
    AssistantMessage(x, m, START);
    MessageKeeps(x, m, START);
  }

  lemma AssistantMessage(x: Externals, m: Object, st: State)
    requires KindOf(m).Assistant?
    ensures RepairMessage(x, m, st) == RepairAssistant(x, m, st)
  {
    hide RepairAssistant, RepairResult, SplitContent, RepairCall, BlockOf, FirstText, CallName;
  }

  lemma FirstPass(x: Externals, m: Object, results: seq<Object>)
    requires KindOf(m).Assistant? && AreResults(results)
    ensures var r := RepairAssistant(x, m, START);
      var given := MatchAll(r.state, Readings(results)).1;
      && |given| == |Contents(results)|
      && Repair(x, [Obj(m)] + Objects(results)) == r.out + Objects(Messages(given, Contents(results)))
  {
    hide RepairAssistant, KindOf, RepairFrom, RepairMessage, Readings, Objects, Contents, MatchAll, AreResults, Messages;
    AssistantMessage(x, m, START);
    RepairOne(x, m, START);
    ResultsRepaired(x, results, RepairAssistant(x, m, START).state);
    RepairAppend(x, [Obj(m)], Objects(results), START);
  }

  // ---------------------------------------------------------------- main results

  /** Calls that are not breakable may be followed by any results. */
  lemma UnbreakableCalls(x: Externals, m: Object, results: seq<Object>)
    requires Lawful(x) && KindOf(m).Assistant? && AreResults(results) && !DoublyNested(results)
    requires !Breakable(RepairAssistant(x, m, START).state.pending)
    ensures var items := [Obj(m)] + Objects(results); Repair(x, Repair(x, items)) == Repair(x, items)
  {
    hide RepairAssistant, KindOf, Repair, Lawful, Readings, Objects, AreResults, DoublyNested, Breakable, Replays, AllProper;
    CallsProper(x, m);
    UnbreakableReplays(RepairAssistant(x, m, START).state, Readings(results));
    ResultsReplay(x, m, results);
  }

  /** Two calls alone are never breakable, whatever ids and names they have. */
  lemma TwoCallsAreHarmless(x: Externals, m: Object, results: seq<Object>)
    requires Lawful(x) && KindOf(m).Assistant? && AreResults(results) && !DoublyNested(results)
    requires |RepairAssistant(x, m, START).state.pending| <= 2
    ensures var items := [Obj(m)] + Objects(results); Repair(x, Repair(x, items)) == Repair(x, items)
  {
    hide RepairAssistant, KindOf, Repair, Lawful, Objects, AreResults, DoublyNested, Fold;
    var calls := RepairAssistant(x, m, START).state.pending;
    forall j | 0 <= j < |calls| ensures |Others(calls, Fold(calls[j].name))| < 2 {
      SomeNamed(calls, Fold(calls[j].name), calls[j]);
    }
    UnbreakableCalls(x, m, results);
  }

  /** The results that break breakable calls, as messages. */
  function BreakingResults(calls: seq<Call>, name: string, stray: string): seq<Object> {
    OthersLength(calls, Fold(name));
    NamedResults(name, |calls| - |Others(calls, Fold(name))|) + [ToolMessage(stray, name, Text(""))]
  }

  function NamedResults(name: string, k: nat): seq<Object> {
    if k == 0 then [] else NamedResults(name, k - 1) + [NamedResult(name)]
  }

  lemma {:induction false} NamedResultsRead(name: string, k: nat)
    requires name != "" && Trimmed(name)
    ensures var rs := NamedResults(name, k);
      AreResults(rs) && !DoublyNested(rs) && Readings(rs) == NamedReadings(name, k)
  {
    hide NamedResult, FirstText, ResultContent, IsResultItem;
    if k > 0 {
      NamedResultsRead(name, k - 1);
      NamedResultReads(name);
      var rs := NamedResults(name, k - 1);
      assert (rs + [NamedResult(name)])[..|rs|] == rs;
    }
  }

  lemma BreakingResultsRead(calls: seq<Call>, name: string, stray: string)
    requires name != "" && Trimmed(name) && stray != "" && Trimmed(stray)
    ensures var rs := BreakingResults(calls, name, stray);
      AreResults(rs) && !DoublyNested(rs) && Readings(rs) == BreakingReadings(calls, name, stray)
  {
    hide NamedResult, FirstText, ResultContent, KindOf, ToolMessage, Others, Fold;
    OthersLength(calls, Fold(name));
    var k := |calls| - |Others(calls, Fold(name))|;
    NamedResultsRead(name, k);
    ToolMessageReads(stray, name, Text(""));
    var rs, last := NamedResults(name, k), ToolMessage(stray, name, Text(""));
    assert (rs + [last])[..|rs|] == rs;
  }

  /** Breakable calls can be followed by results that a second repair changes. */
  lemma BreakableCalls(x: Externals, m: Object, i: nat, j: nat, stray: string)
    requires Lawful(x) && KindOf(m).Assistant?
    requires var calls := RepairAssistant(x, m, START).state.pending;
      && i < j < |calls| && calls[i].id == calls[j].id && Fold(calls[i].name) != Fold(calls[j].name)
      && |Others(calls, Fold(calls[j].name))| >= 2
      && stray != "" && Trimmed(stray) && stray !in Ids(calls)
    ensures var calls := RepairAssistant(x, m, START).state.pending;
      var items := [Obj(m)] + Objects(BreakingResults(calls, calls[j].name, stray));
      Repair(x, Repair(x, items)) != Repair(x, items)
  {
    hide RepairAssistant, KindOf, Repair, Lawful, Readings, Objects, AreResults, DoublyNested, Replays, AllProper, Others,
      Fold, Ids, BreakingResults;
    var st := RepairAssistant(x, m, START).state;
    CallsProper(x, m);
    BreakableDoesNotReplay(st, i, j, stray);
    ProperAt(st.pending, j);
    BreakingResultsRead(st.pending, st.pending[j].name, stray);
    ResultsReplay(x, m, BreakingResults(st.pending, st.pending[j].name, stray));
  }

  /** Three calls; the second has no id, and the first has the id that will be generated for it. */
  function CollidingMessage(): Object {
    map[Role := Text("assistant"),
        ToolCalls := List([Obj(CallObject(GeneratedId(1), "f", "{}")), Obj(map[Name := Text("g")]),
                           Obj(CallObject("b", "h", "{}"))])]
  }

  lemma CallItemOf(x: Externals, id: string, name: string, n: nat)
    requires ProperCall(Call(id, name))
    ensures RepairCall(x, CallObject(id, name, "{}"), n) == Some((Obj(CallObject(id, name, "{}")), n))
    ensures PendingOf(Obj(CallObject(id, name, "{}"))) == Some(Call(id, name))
  {
    hide FirstText, CallName, CallArguments, PendingOf, CallObject;
    CallObjectReads(id, name, "{}");
    assert Trim("{}") == "{}";
  }

  lemma BareCall(x: Externals, n: nat)
    ensures RepairCall(x, map[Name := Text("g")], n) == Some((Obj(CallObject(GeneratedId(n + 1), "g", "{}")), n + 1))
  {
    hide FirstText, FirstExisting, CallObject, GeneratedId;
    var m: Object := map[Name := Text("g")];
    FirstTextHead(m, CALL_NAMES, "g");
    FirstTextNone(m, CALL_IDS);
    FirstExistingNone(m, ARGUMENTS);
  }

  lemma CollidingCalls(x: Externals)
    ensures var r := RepairCalls(x, CallItems(CollidingMessage()), 0);
      PendingOfAll(r.0) == [Call(GeneratedId(1), "f"), Call(GeneratedId(1), "g"), Call("b", "h")] && |r.0| == 3
  {
    hide RepairCall, PendingOf, CallObject, GeneratedId;
    var g := GeneratedId(1);
    CallItemOf(x, g, "f", 0);
    BareCall(x, 0);
    CallItemOf(x, g, "g", 1);
    CallItemOf(x, "b", "h", 1);
    var p, q, r := Obj(CallObject(g, "f", "{}")), Obj(CallObject(g, "g", "{}")), Obj(CallObject("b", "h", "{}"));
    var raw: Value := Obj(map[Name := Text("g")]);
    var items := CallItems(CollidingMessage());
    assert items == [p, raw, r];
    assert items[..2] == [p, raw] && [p, raw][..1] == [p] && [p][..0] == [];
    assert RepairCalls(x, [], 0) == ([], 0) && [] + [p] == [p] && [p] + [q] == [p, q] && [p, q] + [r] == [p, q, r];
    assert RepairCalls(x, [p], 0) == ([p], 0);
    assert RepairCalls(x, [p, raw], 0) == ([p, q], 1);
    assert RepairCalls(x, items, 0) == ([p, q, r], 1);
    assert [p, q, r][..2] == [p, q] && [p, q][..1] == [p];
    assert PendingOfAll([]) == [] && PendingOfAll([p]) == [Call(g, "f")];
    assert PendingOfAll([p, q]) == [Call(g, "f"), Call(g, "g")];
  }

  lemma CollidingOwnIds()
    ensures OwnIds(CallItems(CollidingMessage())) == [GeneratedId(1), "b"]
  {
    hide CallName, FirstText, CallObject, GeneratedId;
    var g := GeneratedId(1);
    var p, raw, r: Value := Obj(CallObject(g, "f", "{}")), Obj(map[Name := Text("g")]), Obj(CallObject("b", "h", "{}"));
    CallObjectReads(g, "f", "{}");
    CallObjectReads("b", "h", "{}");
    FirstTextNone(raw.fields, CALL_IDS);
    var items := CallItems(CollidingMessage());
    assert items == [p, raw, r];
    assert items[..2] == [p, raw] && [p, raw][..1] == [p] && [p][..0] == [];
    assert OwnIds([]) == [] && OwnIds([p]) == [g] && OwnIds([p, raw]) == [g];
  }

  /** The colliding calls, a result for the second by name, and a stray result of the same name. */
  function CollidingItems(): seq<Value> {
    [Obj(CollidingMessage()), Obj(NamedResult("g")), Obj(ToolMessage("c", "g", Text("")))]
  }

  lemma CollidingMessageReads(x: Externals)
    ensures KindOf(CollidingMessage()).Assistant? && ContentItems(CollidingMessage()) == []
    ensures RepairCalls(x, CallBlocks(ContentItems(CollidingMessage())), 0).0 == []
  {
    hide RoleOf, Trim, Fold, GeneratedId, CallObject;
    LiteralRoles();
    RoleFromText(CollidingMessage(), "assistant");
    NoItems(x);
  }

  lemma CollidingItemsIds(x: Externals)
    ensures AllIds(CollidingItems()) == [GeneratedId(1), "b"]
  {
    hide FirstText, KindOf, OwnIds, CallItems, NamedResult, ToolMessage, CollidingMessage, GeneratedId, Consume,
      ResultContent, BlockOf;
    var items := CollidingItems();
    CollidingMessageReads(x);
    CollidingOwnIds();
    NamedResultReads("g");
    ToolMessageReads("c", "g", Text(""));
    assert items[..2][..1] == [items[0]] && items[..1][..0] == [];
    assert items[..2] == [items[0], items[1]];
    assert CallBlocks([]) == [];
    assert AllIds([]) == [] && AllIds([items[0]]) == MessageIds(CollidingMessage());
    assert MessageIds(CollidingMessage()) == OwnIds(CallItems(CollidingMessage()));
  }

  lemma CollidingPending(x: Externals)
    ensures RepairAssistant(x, CollidingMessage(), START).state.pending ==
      [Call(GeneratedId(1), "f"), Call(GeneratedId(1), "g"), Call("b", "h")]
  {
    hide RepairCalls, PendingOfAll, GeneratedId, KindOf, CallItems, CollidingMessage, CallBlocks;
    CollidingMessageReads(x);
    CollidingCalls(x);
  }

  /** Distinct ids are not enough: one of them may be the id that a repair generates for another call. */
  lemma GeneratedIdCanCollide(x: Externals)
    requires Lawful(x)
    ensures var ids := AllIds(CollidingItems()); forall i, j :: 0 <= i < j < |ids| ==> ids[i] != ids[j]
    ensures Repair(x, Repair(x, CollidingItems())) != Repair(x, CollidingItems())
  {
    hide RepairAssistant, GeneratedId, KindOf, Fold, Repair, AllIds, CollidingMessage, Others, Ids, BreakingResults,
      Objects, CollidingItems;
    var m := CollidingMessage();
    CollidingMessageReads(x);
    CollidingItemsIds(x);
    var calls := [Call(GeneratedId(1), "f"), Call(GeneratedId(1), "g"), Call("b", "h")];
    CollidingPending(x);
    CollidingIds();
    CollidingOthers(calls);
    BreakableCalls(x, m, 0, 1, "c");
    CollidingResults(calls);
  }

  lemma CollidingIds()
    ensures GeneratedId(1) != "b" && GeneratedId(1) != "c"
    ensures Fold("f") != Fold("g") && Fold("h") != Fold("g")
  {
    hide Digits, Fold;
    assert |GeneratedId(1)| > 1;
    assert Fold("f")[0] == 'f' && Fold("g")[0] == 'g' && Fold("h")[0] == 'h';
  }

  lemma CollidingOthers(calls: seq<Call>)
    requires |calls| == 3 && calls[0].name == "f" && calls[1].name == "g" && calls[2].name == "h"
    ensures Others(calls, Fold("g")) == [calls[0], calls[2]]
    ensures Ids(calls) == [calls[0].id, calls[1].id, calls[2].id]
  {
    hide Fold, Others, Ids;
    CollidingIds();
    var a, b, c := calls[0], calls[1], calls[2];
    assert calls == [a] + [b] + [c];
    OthersAppend([a] + [b], [c], Fold("g"));
    OthersAppend([a], [b], Fold("g"));
    OneOther(a, Fold("g"));
    OneOther(b, Fold("g"));
    OneOther(c, Fold("g"));
    IdsAppend([a] + [b], [c]);
    IdsAppend([a], [b]);
    OneId(a);
    OneId(b);
    OneId(c);
  }

  lemma CollidingResults(calls: seq<Call>)
    requires |calls| == 3 && calls[0].name == "f" && calls[1].name == "g" && calls[2].name == "h"
    ensures [Obj(CollidingMessage())] + Objects(BreakingResults(calls, "g", "c")) == CollidingItems()
  {
    hide Fold, Others, Ids, NamedResult, ToolMessage, CollidingMessage;
    CollidingOthers(calls);
    OthersLength(calls, Fold("g"));
    assert NamedResults("g", 0) == [];
    assert NamedResults("g", 1) == [NamedResult("g")];
    var p, q := NamedResult("g"), ToolMessage("c", "g", Text(""));
    assert BreakingResults(calls, "g", "c") == [p, q];
    assert [p, q][..1] == [p] && [p][..0] == [];
    assert Objects([]) == [] && Objects([p]) == [Obj(p)] && Objects([p, q]) == [Obj(p), Obj(q)];
  }
}
