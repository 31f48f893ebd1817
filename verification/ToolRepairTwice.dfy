/**
 * A request's messages are repaired once when the request is read and once more when the prompt is
 * built (internal/promptcompat/request_normalize.go, message_normalize.go), so a second repair must
 * change nothing.
 */
module ToolRepairTwice {
  import opened ToolFields
  import opened ToolRepair

  // ---------------------------------------------------------------- repairing what was repaired

  lemma {:induction false} RepairAppend(x: Externals, a: seq<Value>, b: seq<Value>, st: State)
    ensures var r := RepairFrom(x, a, st);
      var t := RepairFrom(x, b, r.state);
      RepairFrom(x, a + b, st) == Repaired(t.state, r.out + t.out)
    decreases |b|
  {
    hide RepairMessage;
    if b == [] {
      assert a + b == a;
    } else {
      RepairAppend(x, a, b[..|b| - 1], st);
      assert (a + b)[..|a + b| - 1] == a + b[..|b| - 1];
    }
  }

  lemma RepairOne(x: Externals, m: Object, st: State)
    ensures RepairFrom(x, [Obj(m)], st) == RepairMessage(x, m, st)
  {
    hide RepairMessage;
    assert [Obj(m)][..0] == [];
  }

  /** Repairing `out` from `st` changes nothing and leads to `after`, whatever the counters. */
  ghost predicate Stays(x: Externals, out: seq<Value>, st: State, after: State) {
    forall k: nat {:trigger st.(nextId := k)} ::
      RepairFrom(x, out, st.(nextId := k)) == Repaired(after.(nextId := k), out)
  }

  lemma StaysAppend(x: Externals, a: seq<Value>, b: seq<Value>, st: State, mid: State, after: State)
    requires Stays(x, a, st, mid) && Stays(x, b, mid, after)
    ensures Stays(x, a + b, st, after)
  {
    hide RepairFrom;
    forall k: nat ensures RepairFrom(x, a + b, st.(nextId := k)) == Repaired(after.(nextId := k), a + b) {
      RepairAppend(x, a, b, st.(nextId := k));
      assert RepairFrom(x, a, st.(nextId := k)) == Repaired(mid.(nextId := k), a);
    }
  }

  lemma StaysNothing(x: Externals, st: State)
    ensures Stays(x, [], st, st)
  {
  }

  lemma ResultStays(x: Externals, m: Object, st: State)
    requires Proper(st) && Agreeing(st.pending) && !IsResultValue(ResultContent(m))
    ensures var (after, message) := RepairResult(m, st);
      Stays(x, [message], st, after)
  {
    hide Consume, FirstText, ResultContent, Unwrap, RepairFrom, KindOf, Agreeing, Proper, ToolMessage;
    var id, name := FirstText(m, RESULT_IDS), FirstText(m, CALL_NAMES);
    var (after, message) := RepairResult(m, st);
    var c := Consume(st, id, name);
    forall k: nat ensures RepairFrom(x, [message], st.(nextId := k)) == Repaired(after.(nextId := k), [message]) {
      ConsumeReplays(st, id, name, k);
      ToolMessageReads(c.id, c.name, ResultContent(m));
      UnwrapChanges(ResultContent(m));
      RepairOne(x, message.fields, st.(nextId := k));
    }
  }

  /** The role of a text message cut out of a content list is neither assistant nor tool. */
  lemma TextRoleKind(m: Object)
    requires KindOf(m).Blank? || KindOf(m).User? || KindOf(m).OtherRole?
    ensures var role := TextRole(RoleOf(m));
      Trim(role) == role == Fold(role) && (KindOfRole(role).User? || KindOfRole(role).OtherRole?)
  {
    hide Trim, Fold;
    LiteralRoles();
    NormalTwice(TextAt(m, Role));
  }

  lemma TextMessageStays(x: Externals, role: string, texts: seq<string>, st: State)
    requires Trim(role) == role == Fold(role) && (KindOfRole(role).User? || KindOfRole(role).OtherRole?)
    ensures var m := map[Role := Text(role), Content := Text(Join(texts))];
      !IsResultItem(m) && KindOf(m) == KindOfRole(role) && Stays(x, [Obj(m)], st, st)
  {
    hide FirstText, RoleOf, KindOfRole, BlockOf, Join, RepairFrom, Trim, Fold;
    var m := map[Role := Text(role), Content := Text(Join(texts))];
    RoleFromText(m, role);
    NoTypeNoBlock(m);
    FirstTextNone(m, SHAPE_IDS);
    forall k: nat ensures RepairFrom(x, [Obj(m)], st.(nextId := k)) == Repaired(st.(nextId := k), [Obj(m)]) {
      RepairOne(x, m, st.(nextId := k));
    }
  }

  lemma FlushedStays(x: Externals, m: Object, texts: seq<string>, st: State)
    requires KindOf(m).Blank? || KindOf(m).User? || KindOf(m).OtherRole?
    ensures Stays(x, Flushed(RoleOf(m), texts), st, st)
  {
    hide Trim, Fold, KindOfRole, Stays, Join, TextRole;
    if texts == [] {
      StaysNothing(x, st);
    } else {
      TextRoleKind(m);
      TextMessageStays(x, TextRole(RoleOf(m)), texts, st);
    }
  }

  /** The results in a content list, in order. */
  function ResultBlocks(items: seq<Value>): seq<Object> {
    if items == [] then []
    else
      var last := items[|items| - 1];
      ResultBlocks(items[..|items| - 1]) + if IsResultValue(last) then [last.fields] else []
  }

  /** The objects a message contributes as tool results. */
  function ResultsOf(m: Object): seq<Object> {
    if IsResultItem(m) then [m]
    else if IsCallItem(m) || KindOf(m).Assistant? then []
    else
      match ValueAt(m, Content)
      case List(items) => ResultBlocks(items)
      case Obj(block) => if BlockOf(block).ResultBlock? then [block] else []
      case _ => []
  }

  /** Some result of the message wraps a result block that again holds a result block. */
  ghost predicate DoublyNested(results: seq<Object>) {
    exists r :: r in results && IsResultValue(ResultContent(r))
  }

  // ---------------------------------------------------------------- what every message keeps

  ghost predicate Good(st: State) {
    Proper(st) && Conserved(st)
  }

  lemma PendingAgree(st: State)
    requires Conserved(st) && Agreeing(st.made)
    ensures Agreeing(st.pending)
  {
    forall c | c in st.pending ensures c in st.made {
      assert c in multiset(st.pending);
      assert c in multiset(st.made);
    }
  }

  lemma ResultKeeps(m: Object, st: State)
    requires Good(st)
    ensures var after := RepairResult(m, st).0; Good(after) && after.made == st.made
  {
    hide Consume, FirstText, Proper, Conserved;
    ConsumeConserves(st, FirstText(m, RESULT_IDS), FirstText(m, CALL_NAMES));
  }

  lemma {:induction false} SplitKeeps(role: string, items: seq<Value>, st: State)
    requires Good(st)
    ensures var s := SplitItems(role, items, st);
      && Good(s.state) && s.state.made == st.made
      && (s.found <==> ResultBlocks(items) != [])
      && (s.found ==> s.out != [])
      && (!s.found ==> s.out == [] && s.state == st)
  {
    hide RepairResult, Good, BlockOf, BlockText, Trim, Flushed;
    if items != [] {
      SplitKeeps(role, items[..|items| - 1], st);
      var last := items[|items| - 1];
      if IsResultValue(last) {
        ResultKeeps(last.fields, SplitItems(role, items[..|items| - 1], st).state);
      }
    }
  }

  lemma RecordKeeps(x: Externals, items: seq<Value>, st: State)
    requires Lawful(x) && Good(st)
    ensures var (calls, n) := RepairCalls(x, items, st.nextId);
      var after := Record(st.(nextId := n), calls);
      Good(after) && after.made == st.made + PendingOfAll(calls)
  {
    hide RepairCalls, PendingOfAll;
    RepairCallsSettle(x, items, st.nextId);
    var calls := PendingOfAll(RepairCalls(x, items, st.nextId).0);
    assert multiset(st.made + calls) == multiset(st.made) + multiset(calls);
    assert multiset(st.pending + calls) == multiset(st.pending) + multiset(calls);
  }

  lemma OneCall(x: Externals, m: Object, n: nat)
    requires RepairCall(x, m, n).Some?
    ensures RepairCalls(x, [Obj(m)], n) == ([RepairCall(x, m, n).value.0], RepairCall(x, m, n).value.1)
  {
    hide RepairCall;
    assert [Obj(m)][..0] == [];
    assert RepairCalls(x, [], n) == ([], n);
    assert [] + [RepairCall(x, m, n).value.0] == [RepairCall(x, m, n).value.0];
  }

  /** Every message keeps the waiting calls well formed and conserves them; none is forgotten. */
  lemma MessageKeeps(x: Externals, m: Object, st: State)
    requires Lawful(x) && Good(st)
    ensures var after := RepairMessage(x, m, st).state; Good(after) && st.made <= after.made
  {
    hide RepairResult, Good, Record, RepairCalls, RepairCall, BlockOf, CallName, KindOf, FirstText,
      SplitItems, CallBlocks, SideTexts, CallItems;
    if IsResultItem(m) {
      ResultKeeps(m, st);
    } else if IsCallItem(m) {
      NameDecides(x, m, st.nextId);
      OneCall(x, m, st.nextId);
      RecordKeeps(x, [Obj(m)], st);
    } else if KindOf(m).Assistant? {
      RecordKeeps(x, CallBlocks(ContentItems(m)), st);
      RecordKeeps(x, CallItems(m), st);
    } else {
      match ValueAt(m, Content)
      case List(items) => SplitKeeps(RoleOf(m), items, st);
      case Obj(block) => ResultKeeps(block, st);
      case _ =>
    }
  }

  lemma {:induction false} RunKeeps(x: Externals, items: seq<Value>, st: State)
    requires Lawful(x) && Good(st)
    ensures var after := RepairFrom(x, items, st).state; Good(after) && st.made <= after.made
  {
    hide RepairMessage, Good;
    if items != [] {
      RunKeeps(x, items[..|items| - 1], st);
      var last := items[|items| - 1];
      if last.Obj? {
        MessageKeeps(x, last.fields, RepairFrom(x, items[..|items| - 1], st).state);
      }
    }
  }

  // ---------------------------------------------------------------- every message stays

  lemma {:induction false} SplitStays(x: Externals, m: Object, items: seq<Value>, st: State)
    requires KindOf(m).Blank? || KindOf(m).User? || KindOf(m).OtherRole?
    requires Good(st) && Agreeing(st.made) && !DoublyNested(ResultBlocks(items))
    ensures var s := SplitItems(RoleOf(m), items, st); Stays(x, s.out, st, s.state)
  {
    hide RepairResult, Good, Agreeing, BlockOf, BlockText, Trim, Flushed, KindOf, RoleOf, Stays, ResultContent;
    if items == [] {
      StaysNothing(x, st);
    } else {
      var front, last := items[..|items| - 1], items[|items| - 1];
      assert !DoublyNested(ResultBlocks(front));
      SplitStays(x, m, front, st);
      SplitKeeps(RoleOf(m), front, st);
      if IsResultValue(last) {
        var s := SplitItems(RoleOf(m), front, st);
        ResultBlockStays(x, m, last, s, st, ResultBlocks(items));
      }
    }
  }

  lemma ResultBlockStays(x: Externals, m: Object, last: Value, s: Split, st: State, results: seq<Object>)
    requires KindOf(m).Blank? || KindOf(m).User? || KindOf(m).OtherRole?
    requires Good(s.state) && Agreeing(s.state.made) && Stays(x, s.out, st, s.state)
    requires IsResultValue(last) && last.fields in results && !DoublyNested(results)
    ensures var (after, message) := RepairResult(last.fields, s.state);
      Stays(x, s.out + Flushed(RoleOf(m), s.texts) + [message], st, after)
  {
    hide RepairResult, BlockOf, Flushed, KindOf, RoleOf, Stays, Agreeing, Proper, Conserved;
    var (after, message) := RepairResult(last.fields, s.state);
    FlushedStays(x, m, s.texts, s.state);
    StaysAppend(x, s.out, Flushed(RoleOf(m), s.texts), st, s.state, s.state);
    PendingAgree(s.state);
    ResultStays(x, last.fields, s.state);
    StaysAppend(x, s.out + Flushed(RoleOf(m), s.texts), [message], st, s.state, after);
  }

  /** A message that is no call, no result and contains none stays as it is in every state. */
  lemma PlainStays(x: Externals, m: Object, st: State)
    requires !IsResultItem(m) && !IsCallItem(m) && !KindOf(m).Assistant? && ResultsOf(m) == []
    requires Good(st)
    ensures RepairMessage(x, m, st) == Repaired(st, [Obj(m)])
  {
    hide Good, RepairResult, SplitItems, KindOf, RoleOf, BlockOf, IsResultItem, IsCallItem, ResultBlocks;
    match ValueAt(m, Content)
    case List(items) => SplitKeeps(RoleOf(m), items, st);
    case _ =>
  }

  /** An assistant message whose calls are settled and whose content holds none stays as it is. */
  lemma SettledAssistant(x: Externals, m: Object, calls: seq<Value>, st: State)
    requires KindOf(m).Assistant? && calls != [] && (forall v :: v in calls ==> Settled(x, v))
    requires ToolCalls in m && m[ToolCalls] == List(calls)
    requires RepairCalls(x, CallBlocks(ContentItems(m)), 0).0 == []
    ensures RepairMessage(x, m, st) == Repaired(Record(st, calls), [Obj(m)])
  {
    hide RepairCalls, CallBlocks, KindOf, Settled, Record, BlockOf, CallName, SideTexts;
    NoCallsAnyCounter(x, CallBlocks(ContentItems(m)), 0, st.nextId);
    SettledCallsStay(x, calls, st.nextId);
    assert m[ToolCalls := List(calls)] == m;
  }

  lemma SettledAssistantStays(x: Externals, m: Object, calls: seq<Value>, st: State, n: nat)
    requires KindOf(m).Assistant? && calls != [] && (forall v :: v in calls ==> Settled(x, v))
    requires ToolCalls in m && m[ToolCalls] == List(calls)
    requires RepairCalls(x, CallBlocks(ContentItems(m)), 0).0 == []
    ensures Stays(x, [Obj(m)], st, Record(st.(nextId := n), calls))
  {
    hide RepairCalls, CallBlocks, KindOf, Settled, RepairFrom, RepairMessage, PendingOfAll;
    var after := Record(st.(nextId := n), calls);
    forall k: nat ensures RepairFrom(x, [Obj(m)], st.(nextId := k)) == Repaired(after.(nextId := k), [Obj(m)]) {
      RepairOne(x, m, st.(nextId := k));
      SettledAssistant(x, m, calls, st.(nextId := k));
    }
  }

  lemma AssistantStays(x: Externals, m: Object, st: State)
    requires Lawful(x) && KindOf(m).Assistant?
    ensures var r := RepairAssistant(x, m, st); Stays(x, r.out, st, r.state)
  {
    hide RepairCalls, CallBlocks, Record, BlockOf, CallName, SideTexts, CallItems, KindOf, Settled, Stays;
    var blocks := CallBlocks(ContentItems(m));
    var (calls, n) := RepairCalls(x, blocks, st.nextId);
    if calls != [] {
      RepairCallsSettle(x, blocks, st.nextId);
      var out := WithoutContent(m, SideTexts(x, ContentItems(m)))[ToolCalls := List(calls)];
      SameRole(m, out);
      NoItems(x);
      SettledAssistantStays(x, out, calls, st, n);
    } else {
      NoCallsAnyCounter(x, blocks, st.nextId, 0);
      var (calls, n) := RepairCalls(x, CallItems(m), st.nextId);
      if calls != [] {
        RepairCallsSettle(x, CallItems(m), st.nextId);
        var out := m[ToolCalls := List(calls)];
        SameRole(m, out);
        SettledAssistantStays(x, out, calls, st, n);
      } else {
        UncalledAssistantStays(x, m, st);
      }
    }
  }

  lemma UncalledAssistantStays(x: Externals, m: Object, st: State)
    requires KindOf(m).Assistant?
    requires RepairCalls(x, CallBlocks(ContentItems(m)), st.nextId).0 == []
    requires RepairCalls(x, CallItems(m), st.nextId).0 == []
    ensures Stays(x, [Obj(m)], st, st)
  {
    hide RepairCalls, CallBlocks, CallItems, KindOf, RepairFrom, BlockOf, CallName;
    forall k: nat ensures RepairFrom(x, [Obj(m)], st.(nextId := k)) == Repaired(st.(nextId := k), [Obj(m)]) {
      RepairOne(x, m, st.(nextId := k));
      NoCallsAnyCounter(x, CallBlocks(ContentItems(m)), st.nextId, k);
      NoCallsAnyCounter(x, CallItems(m), st.nextId, k);
    }
  }

  lemma SameRole(m: Object, out: Object)
    requires (Role in m) == (Role in out) && (Role in m ==> m[Role] == out[Role])
    ensures KindOf(m) == KindOf(out)
  {
  }

  lemma NoItems(x: Externals)
    ensures RepairCalls(x, CallBlocks([]), 0).0 == []
  {
  }

  lemma CallItemStays(x: Externals, m: Object, st: State)
    requires Lawful(x) && IsCallItem(m)
    ensures var (call, n) := RepairCall(x, m, st.nextId).value;
      Stays(x, [Obj(CallItemMessage(call))], st, Record(st.(nextId := n), [call]))
      && KindOf(CallItemMessage(call)).Assistant?
  {
    hide RepairCall, RepairCalls, CallBlocks, RoleOf, Trim, Fold, Settled, Stays, Record, PendingOf, CallName;
    NameDecides(x, m, st.nextId);
    RepairCallSettles(x, m, st.nextId);
    var (call, n) := RepairCall(x, m, st.nextId).value;
    LiteralRoles();
    RoleFromText(CallItemMessage(call), "assistant");
    NoItems(x);
    SettledAssistantStays(x, CallItemMessage(call), [call], st, n);
  }

  /** What a message is repaired to stays as it is, and leaves the same calls waiting. */
  lemma MessageStays(x: Externals, m: Object, st: State)
    requires Lawful(x) && Good(st) && Agreeing(st.made) && !DoublyNested(ResultsOf(m))
    ensures var r := RepairMessage(x, m, st); Stays(x, r.out, st, r.state)
  {
    hide RepairResult, Good, Agreeing, Record, RepairCalls, RepairCall, BlockOf, CallName, KindOf, FirstText,
      SplitItems, Stays, RepairAssistant, ResultContent, RoleOf, Flushed, ResultBlocks;
    if IsResultItem(m) {
      assert m in ResultsOf(m);
      ResultObjectStays(x, m, st);
    } else if IsCallItem(m) {
      CallItemStays(x, m, st);
    } else if KindOf(m).Assistant? {
      AssistantStays(x, m, st);
    } else if ResultsOf(m) == [] {
      PlainObjectStays(x, m, st);
    } else {
      match ValueAt(m, Content)
      case List(items) =>
        SplitKeeps(RoleOf(m), items, st);
        SplitStays(x, m, items, st);
        var s := SplitItems(RoleOf(m), items, st);
        FlushedStays(x, m, s.texts, s.state);
        StaysAppend(x, s.out, Flushed(RoleOf(m), s.texts), st, s.state, s.state);
      case Obj(block) =>
        assert block in ResultsOf(m);
        ResultObjectStays(x, block, st);
      case _ =>
    }
  }

  lemma ResultObjectStays(x: Externals, m: Object, st: State)
    requires Good(st) && Agreeing(st.made) && !IsResultValue(ResultContent(m))
    ensures var (after, message) := RepairResult(m, st); Stays(x, [message], st, after)
  {
    hide RepairResult, Agreeing, ResultContent, Stays, Proper, Conserved;
    PendingAgree(st);
    ResultStays(x, m, st);
  }

  lemma PlainObjectStays(x: Externals, m: Object, st: State)
    requires !IsResultItem(m) && !IsCallItem(m) && !KindOf(m).Assistant? && ResultsOf(m) == []
    requires Good(st)
    ensures Stays(x, RepairMessage(x, m, st).out, st, RepairMessage(x, m, st).state)
  {
    hide RepairMessage, RepairFrom, ResultsOf, IsResultItem, IsCallItem, KindOf;
    PlainStays(x, m, st);
    forall k: nat ensures RepairFrom(x, [Obj(m)], st.(nextId := k)) == Repaired(st.(nextId := k), [Obj(m)]) {
      RepairOne(x, m, st.(nextId := k));
      assert Good(st.(nextId := k));
      PlainStays(x, m, st.(nextId := k));
    }
  }

  /** The results of all messages that are objects. */
  function AllResults(items: seq<Value>): seq<Object> {
    if items == [] then []
    else
      var last := items[|items| - 1];
      AllResults(items[..|items| - 1]) + if last.Obj? then ResultsOf(last.fields) else []
  }

  lemma AgreeingPrefix(a: seq<Call>, b: seq<Call>)
    requires a <= b && Agreeing(b)
    ensures Agreeing(a)
  {
    forall c | c in a ensures c in b {
      var i :| 0 <= i < |a| && a[i] == c;
      assert b[i] == c;
    }
  }

  lemma {:induction false} RunStays(x: Externals, items: seq<Value>, st: State)
    requires Lawful(x) && Good(st) && Agreeing(RepairFrom(x, items, st).state.made)
    requires !DoublyNested(AllResults(items))
    ensures var r := RepairFrom(x, items, st); Stays(x, r.out, st, r.state)
  {
    hide RepairMessage, Good, Agreeing, ResultsOf, Stays, ResultContent;
    if items == [] {
      StaysNothing(x, st);
    } else {
      var front, last := items[..|items| - 1], items[|items| - 1];
      assert !DoublyNested(AllResults(front));
      var r := RepairFrom(x, front, st);
      RunKeeps(x, front, st);
      if last.Obj? {
        MessageKeeps(x, last.fields, r.state);
        var t := RepairMessage(x, last.fields, r.state);
        AgreeingPrefix(r.state.made, t.state.made);
        RunStays(x, front, st);
        assert !DoublyNested(ResultsOf(last.fields));
        MessageStays(x, last.fields, r.state);
        StaysAppend(x, r.out, t.out, st, r.state, t.state);
      } else {
        RunStays(x, front, st);
      }
    }
  }

  // ---------------------------------------------------------------- the contents of results

  function Contents(results: seq<Object>): seq<Value> {
    if results == [] then [] else Contents(results[..|results| - 1]) + [ResultContent(results[|results| - 1])]
  }

  /** The contents of the tool messages in a repaired list. */
  function ToolContents(out: seq<Value>): seq<Value> {
    if out == [] then []
    else
      var last := out[|out| - 1];
      ToolContents(out[..|out| - 1]) +
      if last.Obj? && KindOf(last.fields).ToolRole? then [ValueAt(last.fields, Content)] else []
  }

  function UnwrapAll(contents: seq<Value>): seq<Value> {
    if contents == [] then [] else UnwrapAll(contents[..|contents| - 1]) + [Unwrap(contents[|contents| - 1])]
  }

  lemma {:induction false} ToolContentsAppend(a: seq<Value>, b: seq<Value>)
    ensures ToolContents(a + b) == ToolContents(a) + ToolContents(b)
    decreases |b|
  {
    hide KindOf;
    if b == [] {
      assert a + b == a;
    } else {
      ToolContentsAppend(a, b[..|b| - 1]);
      assert (a + b)[..|a + b| - 1] == a + b[..|b| - 1];
    }
  }

  lemma {:induction false} ContentsAppend(a: seq<Object>, b: seq<Object>)
    ensures Contents(a + b) == Contents(a) + Contents(b)
    decreases |b|
  {
    hide ResultContent;
    if b == [] {
      assert a + b == a;
    } else {
      ContentsAppend(a, b[..|b| - 1]);
      assert (a + b)[..|a + b| - 1] == a + b[..|b| - 1];
    }
  }

  lemma {:induction false} AllResultsAppend(a: seq<Value>, b: seq<Value>)
    ensures AllResults(a + b) == AllResults(a) + AllResults(b)
    decreases |b|
  {
    hide ResultsOf;
    if b == [] {
      assert a + b == a;
    } else {
      AllResultsAppend(a, b[..|b| - 1]);
      assert (a + b)[..|a + b| - 1] == a + b[..|b| - 1];
    }
  }

  lemma {:induction false} UnwrapAllAppend(a: seq<Value>, b: seq<Value>)
    ensures UnwrapAll(a + b) == UnwrapAll(a) + UnwrapAll(b)
    decreases |b|
  {
    hide Unwrap;
    if b == [] {
      assert a + b == a;
    } else {
      UnwrapAllAppend(a, b[..|b| - 1]);
      assert (a + b)[..|a + b| - 1] == a + b[..|b| - 1];
    }
  }

  /** `out` carries exactly `contents` as tool results, with non-empty ids, and offers them again unwrapped. */
  ghost predicate Carries(out: seq<Value>, contents: seq<Value>) {
    && ToolContents(out) == contents
    && Contents(AllResults(out)) == UnwrapAll(contents)
    && forall v :: v in out ==> v.Obj? && (KindOf(v.fields).ToolRole? ==> TextAt(v.fields, ToolCallId) != "")
  }

  lemma CarriesNothing()
    ensures Carries([], [])
  {
  }

  lemma CarriesAppend(a: seq<Value>, c: seq<Value>, b: seq<Value>, d: seq<Value>)
    requires Carries(a, c) && Carries(b, d)
    ensures Carries(a + b, c + d)
  {
    hide ToolContents, Contents, AllResults, UnwrapAll, KindOf;
    ToolContentsAppend(a, b);
    AllResultsAppend(a, b);
    ContentsAppend(AllResults(a), AllResults(b));
    UnwrapAllAppend(c, d);
  }

  lemma CarriesOne(v: Value, contents: seq<Value>)
    requires v.Obj? && |contents| <= 1
    requires KindOf(v.fields).ToolRole? ==>
      contents == [ValueAt(v.fields, Content)] && TextAt(v.fields, ToolCallId) != ""
    requires KindOf(v.fields).ToolRole? ==> ResultContent(v.fields) == Unwrap(ValueAt(v.fields, Content))
    requires !KindOf(v.fields).ToolRole? ==> contents == [] && ResultsOf(v.fields) == []
    ensures Carries([v], contents)
  {
    hide KindOf, ResultContent, Unwrap, BlockOf, HasResultShape;
    assert [v][..0] == [];
    var results := AllResults([v]);
    assert AllResults([]) == [] && ToolContents([]) == [] && UnwrapAll([]) == [];
    if KindOf(v.fields).ToolRole? {
      assert results == [v.fields];
      assert [v.fields][..0] == [];
      assert Contents([]) == [] && Contents([v.fields]) == [ResultContent(v.fields)];
      assert contents[..0] == [];
      assert UnwrapAll(contents) == [Unwrap(contents[0])];
    } else {
      assert results == [];
    }
  }

  lemma ResultCarries(m: Object, st: State)
    requires Good(st)
    ensures Carries([RepairResult(m, st).1], [ResultContent(m)])
  {
    hide Consume, FirstText, ResultContent, KindOf, ToolMessage, Carries, Unwrap;
    ConsumeNames(st, FirstText(m, RESULT_IDS), FirstText(m, CALL_NAMES));
    var c := Consume(st, FirstText(m, RESULT_IDS), FirstText(m, CALL_NAMES));
    ToolMessageReads(c.id, c.name, ResultContent(m));
    CarriesOne(RepairResult(m, st).1, [ResultContent(m)]);
  }

  lemma ConsumeNames(st: State, id: string, name: string)
    requires Proper(st)
    ensures var m := Consume(st, id, name); m.id != "" && Trimmed(m.id) && Trimmed(m.name)
  {
    hide Trim, FindId, FindName, GeneratedId, Fold;
    forall i | 0 <= i < |st.pending| ensures ProperCall(st.pending[i]) {
      assert st.pending[i] in st.pending;
    }
  }

  lemma FlushedCarries(m: Object, texts: seq<string>)
    requires KindOf(m).Blank? || KindOf(m).User? || KindOf(m).OtherRole?
    ensures Carries(Flushed(RoleOf(m), texts), [])
  {
    hide Trim, Fold, KindOfRole, RoleOf, Join, TextRole, Carries, BlockOf, FirstText;
    if texts == [] {
      CarriesNothing();
    } else {
      TextRoleKind(m);
      var role := TextRole(RoleOf(m));
      TextMessageStays(Externals(v => "", v => ""), role, texts, START);
      CarriesOne(Flushed(RoleOf(m), texts)[0], []);
    }
  }

  lemma {:induction false} SplitCarries(m: Object, items: seq<Value>, st: State)
    requires KindOf(m).Blank? || KindOf(m).User? || KindOf(m).OtherRole?
    requires Good(st)
    ensures Carries(SplitItems(RoleOf(m), items, st).out, Contents(ResultBlocks(items)))
  {
    hide RepairResult, Good, BlockOf, BlockText, Trim, Flushed, KindOf, RoleOf, Carries, ResultContent;
    if items == [] {
      CarriesNothing();
      NoContents();
    } else {
      var front, last := items[..|items| - 1], items[|items| - 1];
      SplitCarries(m, front, st);
      SplitKeeps(RoleOf(m), front, st);
      if IsResultValue(last) {
        var s := SplitItems(RoleOf(m), front, st);
        var before := Contents(ResultBlocks(front));
        FlushedCarries(m, s.texts);
        CarriesAppend(s.out, before, Flushed(RoleOf(m), s.texts), []);
        ResultCarries(last.fields, s.state);
        var message := RepairResult(last.fields, s.state).1;
        assert before + [] == before;
        CarriesAppend(s.out + Flushed(RoleOf(m), s.texts), before, [message], [ResultContent(last.fields)]);
        OneContent(last.fields);
        ContentsAppend(ResultBlocks(front), [last.fields]);
      } else {
        assert ResultBlocks(items) == ResultBlocks(front);
      }
    }
  }

  lemma AssistantCarries(m: Object)
    requires KindOf(m).Assistant?
    ensures Carries([Obj(m)], [])
  {
    hide KindOf, Carries, BlockOf, CallName;
    CarriesOne(Obj(m), []);
  }

  lemma RepairAssistantCarries(x: Externals, m: Object, st: State)
    requires KindOf(m).Assistant?
    ensures Carries(RepairAssistant(x, m, st).out, [])
  {
    hide RepairCalls, CallBlocks, Record, SideTexts, CallItems, KindOf, Carries;
    var out := RepairAssistant(x, m, st).out[0].fields;
    SameRole(m, out);
    AssistantCarries(out);
  }

  /** A message is repaired to tool messages that carry the contents of exactly its results. */
  lemma MessageCarries(x: Externals, m: Object, st: State)
    requires Lawful(x) && Good(st)
    ensures Carries(RepairMessage(x, m, st).out, Contents(ResultsOf(m)))
  {
    hide RepairResult, Good, Record, RepairCalls, RepairCall, BlockOf, CallName, KindOf, FirstText,
      SplitItems, RepairAssistant, ResultContent, RoleOf, Flushed, ResultBlocks, Carries, CallItemMessage;
    if IsResultItem(m) {
      OneContent(m);
      ResultCarries(m, st);
    } else if IsCallItem(m) {
      NameDecides(x, m, st.nextId);
      CallItemStays(x, m, st);
      NoContents();
      AssistantCarries(CallItemMessage(RepairCall(x, m, st.nextId).value.0));
    } else if KindOf(m).Assistant? {
      NoContents();
      RepairAssistantCarries(x, m, st);
    } else if ResultsOf(m) == [] {
      PlainStays(x, m, st);
      NoContents();
      CarriesOne(Obj(m), []);
    } else {
      match ValueAt(m, Content)
      case List(items) =>
        SplitKeeps(RoleOf(m), items, st);
        SplitCarries(m, items, st);
        var s := SplitItems(RoleOf(m), items, st);
        FlushedCarries(m, s.texts);
        CarriesAppend(s.out, Contents(ResultBlocks(items)), Flushed(RoleOf(m), s.texts), []);
        assert Contents(ResultBlocks(items)) + [] == Contents(ResultBlocks(items));
      case Obj(block) =>
        OneContent(block);
        ResultCarries(block, st);
      case _ =>
    }
  }

  lemma OneContent(m: Object)
    ensures Contents([m]) == [ResultContent(m)]
  {
    assert [m][..0] == [];
    assert Contents([]) == [];
  }

  /** Repair drops no tool result and adds none, and every result it emits has a non-empty id. */
  lemma {:induction false} RunCarries(x: Externals, items: seq<Value>, st: State)
    requires Lawful(x) && Good(st)
    ensures Carries(RepairFrom(x, items, st).out, Contents(AllResults(items)))
  {
    hide RepairMessage, Good, ResultsOf, Carries, Contents;
    if items == [] {
      CarriesNothing();
      NoContents();
    } else {
      var front, last := items[..|items| - 1], items[|items| - 1];
      RunCarries(x, front, st);
      RunKeeps(x, front, st);
      if last.Obj? {
        var r := RepairFrom(x, front, st);
        MessageCarries(x, last.fields, r.state);
        CarriesAppend(r.out, Contents(AllResults(front)),
          RepairMessage(x, last.fields, r.state).out, Contents(ResultsOf(last.fields)));
        ContentsAppend(AllResults(front), ResultsOf(last.fields));
      } else {
        assert AllResults(items) == AllResults(front);
      }
    }
  }

  lemma NoContents()
    ensures Contents([]) == []
  {
  }

  lemma {:induction false} NestedContents(results: seq<Object>)
    ensures DoublyNested(results) <==> UnwrapAll(Contents(results)) != Contents(results)
    ensures |UnwrapAll(Contents(results))| == |Contents(results)|
  {
    hide ResultContent, Unwrap, IsResultValue;
    if results != [] {
      var front, last := results[..|results| - 1], results[|results| - 1];
      NestedContents(front);
      UnwrapChanges(ResultContent(last));
      var c := Contents(results);
      assert c[..|c| - 1] == Contents(front);
      assert results == front + [last];
      assert UnwrapAll(c) == UnwrapAll(Contents(front)) + [Unwrap(c[|c| - 1])];
      if UnwrapAll(c) == c {
        assert UnwrapAll(c)[..|c| - 1] == c[..|c| - 1];
        assert UnwrapAll(c)[|c| - 1] == c[|c| - 1];
      }
    }
  }

  // ---------------------------------------------------------------- main results

  lemma StartIsGood()
    ensures Good(START)
  {
  }

  /** The calls a list makes, under the ids they are repaired to. */
  function CallsMade(x: Externals, items: seq<Value>): seq<Call> {
    RepairFrom(x, items, START).state.made
  }

  /**
   * A second repair changes nothing exactly when no result wraps a result block twice, for every list
   * in which calls that share an id share a name.
   */
  lemma RepairTwice(x: Externals, items: seq<Value>)
    requires Lawful(x) && Agreeing(CallsMade(x, items))
    ensures Repair(x, Repair(x, items)) == Repair(x, items) <==> !DoublyNested(AllResults(items))
  {
    hide RepairFrom, Good, Agreeing, AllResults, DoublyNested, Contents, UnwrapAll, Lawful, ToolContents;
    StartIsGood();
    var r := RepairFrom(x, items, START);
    if !DoublyNested(AllResults(items)) {
      RunStays(x, items, START);
      assert START.(nextId := 0) == START;
    } else {
      RunCarries(x, items, START);
      RunCarries(x, r.out, START);
      NestedContents(AllResults(items));
    }
  }

  /** Every tool message a repair emits has a non-empty id, and the results keep their contents and order. */
  lemma ResultsKeptWithIds(x: Externals, items: seq<Value>)
    requires Lawful(x)
    ensures ToolContents(Repair(x, items)) == Contents(AllResults(items))
    ensures forall v :: v in Repair(x, items) ==>
      v.Obj? && (KindOf(v.fields).ToolRole? ==> TextAt(v.fields, ToolCallId) != "")
  {
    hide RepairFrom, Good, AllResults, Contents, UnwrapAll, ToolContents, KindOf;
    StartIsGood();
    RunCarries(x, items, START);
  }
}
