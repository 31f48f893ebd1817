/**
 * Which ids make a second repair harmless: distinct ones that no repair generates.
 */
module ToolRepairIds {
  import opened ToolFields
  import opened ToolRepair
  import opened ToolRepairTwice

  // ---------------------------------------------------------------- when ids are distinct

  lemma {:induction false} DigitsInjective(a: nat, b: nat)
    requires Digits(a) == Digits(b)
    ensures a == b
  {
    var s, t := Digits(a), Digits(b);
    if a >= 10 && b >= 10 {
      assert s[..|s| - 1] == Digits(a / 10) && t[..|t| - 1] == Digits(b / 10);
      assert s[|s| - 1] == t[|t| - 1];
      DigitsInjective(a / 10, b / 10);
    } else {
      assert s[0] == t[0] && |s| == |t|;
    }
  }

  lemma GeneratedIdInjective(a: nat, b: nat)
    requires GeneratedId(a) == GeneratedId(b)
    ensures a == b
  {
    hide Digits;
    assert GeneratedId(a)[14..] == Digits(a) && GeneratedId(b)[14..] == Digits(b);
    DigitsInjective(a, b);
  }

  /** The ids that the named calls of a list bring with them. */
  function OwnIds(items: seq<Value>): seq<string> {
    if items == [] then []
    else
      var last := items[|items| - 1];
      OwnIds(items[..|items| - 1]) +
      if last.Obj? && CallName(last.fields) != "" && FirstText(last.fields, CALL_IDS) != ""
        then [FirstText(last.fields, CALL_IDS)] else []
  }

  predicate HasNamedCall(items: seq<Value>) {
    exists v :: v in items && v.Obj? && CallName(v.fields) != ""
  }

  function MessageIds(m: Object): seq<string> {
    if IsResultItem(m) then []
    else if IsCallItem(m) then OwnIds([Obj(m)])
    else if !KindOf(m).Assistant? then []
    else if HasNamedCall(CallBlocks(ContentItems(m))) then OwnIds(CallBlocks(ContentItems(m)))
    else OwnIds(CallItems(m))
  }

  function AllIds(items: seq<Value>): seq<string> {
    if items == [] then []
    else
      var last := items[|items| - 1];
      AllIds(items[..|items| - 1]) + if last.Obj? then MessageIds(last.fields) else []
  }

  ghost predicate IsGenerated(id: string) {
    exists n: nat :: id == GeneratedId(n)
  }

  /** No id twice, and none that a repair could generate. */
  ghost predicate Fresh(ids: seq<string>) {
    && (forall i, j :: 0 <= i < j < |ids| ==> ids[i] != ids[j])
    && forall i :: 0 <= i < |ids| ==> !IsGenerated(ids[i])
  }

  /** The calls made have distinct ids, each brought along or generated by one of the first n counts. */
  ghost predicate Distinct(made: seq<Call>, ids: seq<string>, n: nat) {
    && (forall i, j :: 0 <= i < j < |made| ==> made[i].id != made[j].id)
    && forall i :: 0 <= i < |made| ==> made[i].id in ids || exists k: nat :: k <= n && made[i].id == GeneratedId(k)
  }

  lemma DistinctOwn(made: seq<Call>, ids: seq<string>, n: nat, c: Call)
    requires Distinct(made, ids, n) && Fresh(ids + [c.id])
    ensures Distinct(made + [c], ids + [c.id], n)
  {
    hide GeneratedId;
    var all := ids + [c.id];
    assert all[|ids|] == c.id;
    forall i | 0 <= i < |made| ensures made[i].id != c.id {
      if made[i].id in ids {
        var j :| 0 <= j < |ids| && ids[j] == made[i].id;
        assert all[j] == ids[j];
      } else {
        assert IsGenerated(made[i].id);
      }
    }
  }

  lemma DistinctGenerated(made: seq<Call>, ids: seq<string>, n: nat, c: Call)
    requires Distinct(made, ids, n) && Fresh(ids) && c.id == GeneratedId(n + 1)
    ensures Distinct(made + [c], ids, n + 1)
  {
    hide GeneratedId;
    forall i | 0 <= i < |made| ensures made[i].id != c.id {
      if made[i].id in ids {
        assert IsGenerated(c.id);
      } else {
        var k: nat :| k <= n && made[i].id == GeneratedId(k);
        if made[i].id == c.id {
          GeneratedIdInjective(k, n + 1);
        }
      }
    }
  }

  lemma FreshPrefix(a: seq<string>, b: seq<string>)
    requires Fresh(a + b)
    ensures Fresh(a)
  {
    hide IsGenerated;
    forall i | 0 <= i < |a| ensures !IsGenerated(a[i]) {
      assert (a + b)[i] == a[i];
    }
    forall i, j | 0 <= i < j < |a| ensures a[i] != a[j] {
      assert (a + b)[i] == a[i] && (a + b)[j] == a[j];
    }
  }

  lemma DistinctLater(made: seq<Call>, ids: seq<string>, n: nat, k: nat)
    requires Distinct(made, ids, n) && n <= k
    ensures Distinct(made, ids, k)
  {
  }

  lemma RepairCallId(x: Externals, m: Object, n: nat)
    requires Lawful(x) && RepairCall(x, m, n).Some?
    ensures var (v, k) := RepairCall(x, m, n).value;
      && PendingOf(v).Some?
      && if FirstText(m, CALL_IDS) != "" then PendingOf(v).value.id == FirstText(m, CALL_IDS) && k == n
         else PendingOf(v).value.id == GeneratedId(n + 1) && k == n + 1
  {
    hide FirstText, CallName, CallArguments, Stringify, PendingOf, CallObject, GeneratedId;
    NameTrimmed(m);
    var id := FirstText(m, CALL_IDS);
    CallObjectReads(if id == "" then GeneratedId(n + 1) else id, CallName(m), Stringify(x, CallArguments(m)));
  }

  lemma {:induction false} CallsDistinct(x: Externals, items: seq<Value>, made: seq<Call>, ids: seq<string>, n: nat)
    requires Lawful(x) && Distinct(made, ids, n) && Fresh(ids + OwnIds(items))
    ensures var (calls, k) := RepairCalls(x, items, n);
      && Distinct(made + PendingOfAll(calls), ids + OwnIds(items), k)
      && n <= k && (calls == [] <==> !HasNamedCall(items))
  {
    hide RepairCall, PendingOf, Distinct, Fresh, FirstText, CallName;
    if items == [] {
      assert made + PendingOfAll([]) == made && ids + OwnIds(items) == ids;
    } else {
      var front, last := items[..|items| - 1], items[|items| - 1];
      assert items == front + [last];
      if last.Obj? && CallName(last.fields) != "" {
        NameDecides(x, last.fields, RepairCalls(x, front, n).1);
        var own := FirstText(last.fields, CALL_IDS);
        if own != "" {
          assert ids + OwnIds(items) == ids + OwnIds(front) + [own];
          FreshPrefix(ids + OwnIds(front), [own]);
        } else {
          assert OwnIds(items) == OwnIds(front);
        }
        CallsDistinct(x, front, made, ids, n);
        NextDistinct(x, last.fields, front, made, ids, n);
      } else {
        assert OwnIds(items) == OwnIds(front);
        CallsDistinct(x, front, made, ids, n);
        if last.Obj? { NameDecides(x, last.fields, RepairCalls(x, front, n).1); }
      }
    }
  }

  lemma NextDistinct(x: Externals, m: Object, front: seq<Value>, made: seq<Call>, ids: seq<string>, n: nat)
    requires Lawful(x) && CallName(m) != ""
    requires var (calls, k) := RepairCalls(x, front, n);
      Distinct(made + PendingOfAll(calls), ids + OwnIds(front), k) && Fresh(ids + OwnIds(front))
    requires FirstText(m, CALL_IDS) != "" ==> Fresh(ids + OwnIds(front) + [FirstText(m, CALL_IDS)])
    ensures var (calls, k) := RepairCalls(x, front + [Obj(m)], n);
      && Distinct(made + PendingOfAll(calls), ids + OwnIds(front + [Obj(m)]), k)
      && RepairCalls(x, front, n).1 <= k && calls != []
  {
    hide RepairCall, PendingOf, Distinct, Fresh, FirstText, CallName;
    var (calls, k) := RepairCalls(x, front, n);
    NameDecides(x, m, k);
    RepairCallId(x, m, k);
    var (v, k') := RepairCall(x, m, k).value;
    var c := PendingOf(v).value;
    assert (front + [Obj(m)])[..|front|] == front;
    assert (calls + [v])[..|calls|] == calls;
    assert made + PendingOfAll(calls + [v]) == made + PendingOfAll(calls) + [c];
    var own := FirstText(m, CALL_IDS);
    if own != "" {
      DistinctOwn(made + PendingOfAll(calls), ids + OwnIds(front), k, c);
      assert ids + OwnIds(front + [Obj(m)]) == ids + OwnIds(front) + [own];
    } else {
      DistinctGenerated(made + PendingOfAll(calls), ids + OwnIds(front), k, c);
      assert OwnIds(front + [Obj(m)]) == OwnIds(front);
    }
  }

  lemma ResultCounts(m: Object, st: State)
    ensures var after := RepairResult(m, st).0; after.made == st.made && st.nextId <= after.nextId
  {
  }

  lemma {:induction false} SplitCounts(role: string, items: seq<Value>, st: State)
    ensures var after := SplitItems(role, items, st).state; after.made == st.made && st.nextId <= after.nextId
  {
    hide RepairResult, BlockOf, BlockText, Trim, Flushed;
    if items != [] {
      SplitCounts(role, items[..|items| - 1], st);
      if items[|items| - 1].Obj? {
        ResultCounts(items[|items| - 1].fields, SplitItems(role, items[..|items| - 1], st).state);
      }
    }
  }

  lemma MessageDistinct(x: Externals, m: Object, st: State, ids: seq<string>)
    requires Lawful(x) && Distinct(st.made, ids, st.nextId) && Fresh(ids + MessageIds(m))
    ensures var after := RepairMessage(x, m, st).state; Distinct(after.made, ids + MessageIds(m), after.nextId)
  {
    hide RepairResult, RepairCalls, RepairCall, BlockOf, CallName, KindOf, FirstText, SplitItems, CallBlocks,
      SideTexts, CallItems, OwnIds, PendingOfAll, Distinct, Fresh, HasNamedCall;
    if IsCallItem(m) && !IsResultItem(m) {
      NameDecides(x, m, st.nextId);
      OneCall(x, m, st.nextId);
      CallsDistinct(x, [Obj(m)], st.made, ids, st.nextId);
    } else if KindOf(m).Assistant? {
      AssistantDistinct(x, m, st, ids);
    } else {
      assert ids + MessageIds(m) == ids;
      if IsResultItem(m) {
        ResultCounts(m, st);
      } else {
        match ValueAt(m, Content)
        case List(items) => SplitCounts(RoleOf(m), items, st);
        case Obj(block) => ResultCounts(block, st);
        case _ =>
      }
      DistinctLater(st.made, ids, st.nextId, RepairMessage(x, m, st).state.nextId);
    }
  }

  lemma AssistantDistinct(x: Externals, m: Object, st: State, ids: seq<string>)
    requires Lawful(x) && Distinct(st.made, ids, st.nextId) && Fresh(ids + MessageIds(m)) && KindOf(m).Assistant?
    ensures var after := RepairAssistant(x, m, st).state; Distinct(after.made, ids + MessageIds(m), after.nextId)
  {
    hide RepairCalls, BlockOf, CallName, KindOf, CallBlocks, SideTexts, CallItems, OwnIds, PendingOfAll, Distinct,
      Fresh, HasNamedCall;
    var blocks := CallBlocks(ContentItems(m));
    if HasNamedCall(blocks) {
      CallsDistinct(x, blocks, st.made, ids, st.nextId);
    } else {
      NoNamedNoIds(x, blocks, st.nextId);
      CallsDistinct(x, CallItems(m), st.made, ids, st.nextId);
      if RepairCalls(x, CallItems(m), st.nextId).0 == [] {
        RepairCallsSettle(x, CallItems(m), st.nextId);
        NoPending();
        assert st.made + [] == st.made;
      }
    }
  }

  lemma {:induction false} NoNamedNoIds(x: Externals, items: seq<Value>, n: nat)
    requires !HasNamedCall(items)
    ensures RepairCalls(x, items, n) == ([], n)
  {
    hide RepairCall, CallName;
    if items != [] {
      var front, last := items[..|items| - 1], items[|items| - 1];
      assert forall v :: v in front ==> v in items;
      NoNamedNoIds(x, front, n);
      assert last in items;
      if last.Obj? { NameDecides(x, last.fields, n); }
    }
  }

  lemma {:induction false} RunDistinct(x: Externals, items: seq<Value>)
    requires Lawful(x) && Fresh(AllIds(items))
    ensures var st := RepairFrom(x, items, START).state; Distinct(st.made, AllIds(items), st.nextId)
  {
    hide RepairMessage, MessageIds, Fresh;
    if items != [] {
      var front, last := items[..|items| - 1], items[|items| - 1];
      if last.Obj? {
        FreshPrefix(AllIds(front), MessageIds(last.fields));
        RunDistinct(x, front);
        MessageDistinct(x, last.fields, RepairFrom(x, front, START).state, AllIds(front));
      } else {
        assert AllIds(items) == AllIds(front);
        RunDistinct(x, front);
      }
    }
  }

  /** Ids that are distinct and not of the generated form are enough for a second repair to be harmless. */
  lemma RepairTwiceDistinctIds(x: Externals, items: seq<Value>)
    requires Lawful(x) && Fresh(AllIds(items))
    ensures Agreeing(CallsMade(x, items))
    ensures Repair(x, Repair(x, items)) == Repair(x, items) <==> !DoublyNested(AllResults(items))
  {
    hide RepairFrom, Fresh, AllIds, AllResults, DoublyNested, Lawful, Fold, GeneratedId;
    RunDistinct(x, items);
    RepairTwice(x, items);
  }
}
