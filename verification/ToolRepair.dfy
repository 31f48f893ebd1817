/**
 * Repair of tool calls and tool results in a message list
 * (internal/promptcompat/tool_message_repair.go), with the waiting calls as state.
 */
module ToolRepair {
  import opened ToolFields

  // ---------------------------------------------------------------- calls

  /** Encoding of other values as JSON text, and the plain text of a content block. */
  datatype Externals = Externals(marshal: Value -> string, plainText: Value -> string)

  /** Encoded JSON has no white space around it. */
  ghost predicate Lawful(x: Externals) {
    forall v :: Trimmed(x.marshal(v))
  }

  function Stringify(x: Externals, v: Value): string {
    match v
    case Null => "{}"
    case Text(t) => if Trim(t) == "" then "{}" else Trim(t)
    case _ => if x.marshal(v) == "" then "{}" else x.marshal(v)
  }

  lemma StringifyTwice(x: Externals, v: Value)
    requires Lawful(x)
    ensures Stringify(x, Text(Stringify(x, v))) == Stringify(x, v)
  {
    assert Trim("{}") == "{}";
    assert Trimmed(x.marshal(v));
  }

  function FunctionOf(m: Object): Option<Object> {
    if Function in m && m[Function].Obj? then Some(m[Function].fields) else None
  }

  function CallName(m: Object): string {
    var direct := FirstText(m, CALL_NAMES);
    if direct == "" && FunctionOf(m).Some? then FirstText(FunctionOf(m).value, FUNCTION_NAMES) else direct
  }

  function CallArguments(m: Object): Value {
    var direct := FirstExisting(m, ARGUMENTS);
    if direct.Null? && FunctionOf(m).Some? then FirstExisting(FunctionOf(m).value, ARGUMENTS) else direct
  }

  function CallObject(id: string, name: string, arguments: string): Object {
    map[Id := Text(id), Type := Text("function"),
        Function := Obj(map[Name := Text(name), Arguments := Text(arguments)])]
  }

  /** A call repaired to the one canonical shape, with the counter of generated ids after it. */
  function RepairCall(x: Externals, m: Object, n: nat): Option<(Value, nat)> {
    var name, id := CallName(m), FirstText(m, CALL_IDS);
    if name == "" then None
    else
      var arguments := Stringify(x, CallArguments(m));
      if id == "" then Some((Obj(CallObject(GeneratedId(n + 1), name, arguments)), n + 1))
      else Some((Obj(CallObject(id, name, arguments)), n))
  }

  /** Repair leaves the call as it is and generates no id for it. */
  ghost predicate Settled(x: Externals, v: Value) {
    v.Obj? && forall n {:trigger RepairCall(x, v.fields, n)} :: RepairCall(x, v.fields, n) == Some((v, n))
  }

  datatype Call = Call(id: string, name: string)

  ghost predicate ProperCall(c: Call) {
    c.id != "" && c.name != "" && Trimmed(c.id) && Trimmed(c.name)
  }

  /** The id and name under which a repaired call waits for its result. */
  function PendingOf(v: Value): Option<Call> {
    if !v.Obj? || FirstText(v.fields, PENDING_IDS) == "" then None
    else
      var direct := FirstText(v.fields, [Name]);
      var name := if direct == "" && FunctionOf(v.fields).Some?
        then FirstText(FunctionOf(v.fields).value, [Name]) else direct;
      Some(Call(FirstText(v.fields, PENDING_IDS), name))
  }

  lemma CallObjectReads(id: string, name: string, arguments: string)
    requires ProperCall(Call(id, name))
    ensures var m := CallObject(id, name, arguments);
      && CallName(m) == name && FirstText(m, CALL_IDS) == id && CallArguments(m) == Text(arguments)
      && PendingOf(Obj(m)) == Some(Call(id, name))
  {
    hide FirstText, FirstExisting;
    var m := CallObject(id, name, arguments);
    var f := m[Function].fields;
    FirstTextNone(m, CALL_NAMES);
    FirstTextNone(m, [Name]);
    FirstTextHead(f, FUNCTION_NAMES, name);
    FirstTextHead(f, [Name], name);
    FirstTextHead(m, CALL_IDS, id);
    FirstTextHead(m, PENDING_IDS, id);
    FirstExistingNone(m, ARGUMENTS);
    ArgumentsFirst(f);
  }

  lemma ArgumentsFirst(f: Object)
    requires Arguments in f && !f[Arguments].Null?
    ensures FirstExisting(f, ARGUMENTS) == f[Arguments]
  {
    assert ARGUMENTS[0] == Arguments;
  }

  lemma RepairCallSettles(x: Externals, m: Object, n: nat)
    requires Lawful(x)
    ensures RepairCall(x, m, n).Some? ==>
      var v := RepairCall(x, m, n).value.0;
      Settled(x, v) && PendingOf(v).Some? && ProperCall(PendingOf(v).value)
  {
    hide FirstText, CallName, CallArguments, Stringify, PendingOf, CallObject, GeneratedId;
    if RepairCall(x, m, n).Some? {
      NameTrimmed(m);
      var name, arguments := CallName(m), Stringify(x, CallArguments(m));
      var id := FirstText(m, CALL_IDS);
      if id == "" { id := GeneratedId(n + 1); }
      CallObjectReads(id, name, arguments);
      StringifyTwice(x, CallArguments(m));
    }
  }

  lemma NameTrimmed(m: Object)
    ensures Trimmed(CallName(m))
  {
  }

  /** The calls of a list, repaired in order; items without a name are dropped. */
  function RepairCalls(x: Externals, items: seq<Value>, n: nat): (seq<Value>, nat) {
    if items == [] then ([], n)
    else
      var (calls, k) := RepairCalls(x, items[..|items| - 1], n);
      var last := items[|items| - 1];
      if !last.Obj? then (calls, k)
      else
        match RepairCall(x, last.fields, k)
        case None => (calls, k)
        case Some(r) => (calls + [r.0], r.1)
  }

  function PendingOfAll(calls: seq<Value>): seq<Call> {
    if calls == [] then []
    else
      PendingOfAll(calls[..|calls| - 1]) +
      match PendingOf(calls[|calls| - 1]) {
        case None => []
        case Some(c) => [c]
      }
  }

  lemma NoPending()
    ensures PendingOfAll([]) == []
  {
  }

  lemma {:induction false} RepairCallsSettle(x: Externals, items: seq<Value>, n: nat)
    requires Lawful(x)
    ensures forall v :: v in RepairCalls(x, items, n).0 ==> Settled(x, v)
    ensures forall c :: c in PendingOfAll(RepairCalls(x, items, n).0) ==> ProperCall(c)
    ensures RepairCalls(x, items, n).0 == [] ==> RepairCalls(x, items, n).1 == n
  {
    if items != [] {
      hide RepairCall, PendingOf, Settled, ProperCall;
      RepairCallsSettle(x, items[..|items| - 1], n);
      var (calls, k) := RepairCalls(x, items[..|items| - 1], n);
      var last := items[|items| - 1];
      if last.Obj? && RepairCall(x, last.fields, k).Some? {
        RepairCallSettles(x, last.fields, k);
        var v := RepairCall(x, last.fields, k).value.0;
        assert (calls + [v])[..|calls|] == calls;
      }
    }
  }

  lemma {:induction false} SettledCallsStay(x: Externals, calls: seq<Value>, n: nat)
    requires forall v :: v in calls ==> Settled(x, v)
    ensures RepairCalls(x, calls, n) == (calls, n)
  {
    hide RepairCall, Settled;
    if calls != [] {
      var front, last := calls[..|calls| - 1], calls[|calls| - 1];
      assert calls == front + [last];
      SettledCallsStay(x, front, n);
      SettledCallStays(x, last, n);
    }
  }

  lemma SettledCallStays(x: Externals, v: Value, n: nat)
    requires Settled(x, v)
    ensures v.Obj? && RepairCall(x, v.fields, n) == Some((v, n))
  {
  }

  /** Whether any call survives does not depend on the counter. */
  lemma {:induction false} NoCallsAnyCounter(x: Externals, items: seq<Value>, n: nat, k: nat)
    requires RepairCalls(x, items, n).0 == []
    ensures RepairCalls(x, items, k) == ([], k)
  {
    if items != [] {
      NoCallsAnyCounter(x, items[..|items| - 1], n, k);
    }
  }

  // ---------------------------------------------------------------- matching results with calls

  /**
   * The calls waiting for a result and the counter of generated ids. `made` and `used` record, in
   * order, the calls that started waiting and the calls that were matched with a result.
   */
  datatype State = State(pending: seq<Call>, nextId: nat, made: seq<Call>, used: seq<Call>)

  const START := State([], 0, [], [])

  function FindId(s: seq<Call>, id: string): (r: nat)
    ensures r <= |s|
    ensures r < |s| ==> s[r].id == id
    ensures forall j :: 0 <= j < r ==> s[j].id != id
  {
    if s == [] || s[0].id == id then 0 else 1 + FindId(s[1..], id)
  }

  function FindName(s: seq<Call>, name: string): (r: nat)
    ensures r <= |s|
    ensures r < |s| ==> Fold(s[r].name) == Fold(name)
    ensures forall j :: 0 <= j < r ==> Fold(s[j].name) != Fold(name)
  {
    if s == [] || Fold(s[0].name) == Fold(name) then 0 else 1 + FindName(s[1..], name)
  }

  function TakeAt(st: State, i: nat): State
    requires i < |st.pending|
  {
    st.(pending := st.pending[..i] + st.pending[i + 1..], used := st.used + [st.pending[i]])
  }

  function Record(st: State, calls: seq<Value>): State {
    st.(pending := st.pending + PendingOfAll(calls), made := st.made + PendingOfAll(calls))
  }

  datatype Match = Match(state: State, id: string, name: string)

  function Consume(st: State, resultId: string, resultName: string): Match {
    var id, name := Trim(resultId), Trim(resultName);
    var i, j := FindId(st.pending, id), FindName(st.pending, name);
    if id != "" && i < |st.pending| then
      Match(TakeAt(st, i), id, if name == "" then st.pending[i].name else name)
    else if name != "" && j < |st.pending| then
      Match(TakeAt(st, j), st.pending[j].id, name)
    else if (|st.pending| == 1 || id == "") && |st.pending| > 0 then
      Match(TakeAt(st, 0), st.pending[0].id, if name == "" then st.pending[0].name else name)
    else if id == "" then
      Match(st.(nextId := st.nextId + 1), GeneratedId(st.nextId + 1), name)
    else
      Match(st, id, name)
  }

  ghost predicate Proper(st: State) {
    forall c :: c in st.pending ==> ProperCall(c)
  }

  /** Calls that share an id share a name; in particular when all ids differ. */
  ghost predicate Agreeing(calls: seq<Call>) {
    forall c, d :: c in calls && d in calls && c.id == d.id ==> Fold(c.name) == Fold(d.name)
  }

  lemma AgreeingFindsTheSame(s: seq<Call>, j: nat)
    requires Agreeing(s) && j < |s|
    requires forall k :: 0 <= k < j ==> Fold(s[k].name) != Fold(s[j].name)
    ensures FindId(s, s[j].id) == j
  {
    var i := FindId(s, s[j].id);
    assert i <= j;
    assert s[i] in s && s[j] in s;
  }

  /** A matched result carries its id, and matching it again takes the same waiting call. */
  lemma ConsumeReplays(st: State, id: string, name: string, k: nat)
    requires Proper(st) && Agreeing(st.pending)
    ensures var m := Consume(st, id, name);
      && m.id != "" && Trimmed(m.id) && Trimmed(m.name)
      && Consume(st.(nextId := k), m.id, m.name) == Match(m.state.(nextId := k), m.id, m.name)
  {
    hide Trim, FindId, FindName, GeneratedId, Fold;
    var i, n := Trim(id), Trim(name);
    var j := FindName(st.pending, n);
    if i != "" && FindId(st.pending, i) < |st.pending| {
      assert st.pending[FindId(st.pending, i)] in st.pending;
    } else if n != "" && j < |st.pending| {
      AgreeingFindsTheSame(st.pending, j);
      assert st.pending[j] in st.pending;
    } else if (|st.pending| == 1 || i == "") && |st.pending| > 0 {
      assert st.pending[0] in st.pending;
      AgreeingFindsTheSame(st.pending, 0);
    }
  }

  function Ids(calls: seq<Call>): (r: seq<string>)
    ensures |r| == |calls|
  {
    if calls == [] then [] else Ids(calls[..|calls| - 1]) + [calls[|calls| - 1].id]
  }

  lemma {:induction false} IdsAppend(a: seq<Call>, b: seq<Call>)
    ensures Ids(a + b) == Ids(a) + Ids(b)
    decreases |b|
  {
    if b == [] {
      assert a + b == a;
    } else {
      IdsAppend(a, b[..|b| - 1]);
      assert (a + b)[..|a + b| - 1] == a + b[..|b| - 1];
    }
  }

  lemma OneId(c: Call)
    ensures Ids([c]) == [c.id]
  {
    assert [c][..0] == [];
    assert Ids([]) == [];
  }

  lemma {:induction false} IdsAt(calls: seq<Call>, i: nat)
    requires i < |calls|
    ensures Ids(calls)[i] == calls[i].id && calls[i].id in Ids(calls)
  {
    if i < |calls| - 1 {
      IdsAt(calls[..|calls| - 1], i);
    }
  }

  lemma FindIdFinds(calls: seq<Call>, id: string)
    ensures FindId(calls, id) < |calls| <==> id in Ids(calls)
  {
    hide FindId, Ids;
    var i := FindId(calls, id);
    if i < |calls| {
      IdsAt(calls, i);
    }
    if id in Ids(calls) {
      var k :| 0 <= k < |Ids(calls)| && Ids(calls)[k] == id;
      IdsAt(calls, k);
    }
  }

  /**
   * A result whose final id belongs to a waiting call takes exactly one such call. Any other result takes
   * none, and that happens only when nothing waits, or when it has an id of its own, its name fits no
   * waiting call and several are waiting.
   */
  lemma ConsumeTakes(st: State, resultId: string, resultName: string)
    requires Proper(st)
    ensures var m := Consume(st, resultId, resultName);
      if m.id in Ids(st.pending) then
        exists i :: 0 <= i < |st.pending| && st.pending[i].id == m.id
          && m.state == State(st.pending[..i] + st.pending[i + 1..], st.nextId, st.made, st.used + [st.pending[i]])
      else
        && m.state == st.(nextId := m.state.nextId)
        && (|st.pending| == 0 ||
            (&& Trim(resultId) == m.id && |st.pending| >= 2
             && (Trim(resultName) == "" ||
                 forall c :: c in st.pending ==> Fold(c.name) != Fold(Trim(resultName)))))
  {
    hide Trim, FindId, FindName, GeneratedId, Fold, Ids;
    var id, name := Trim(resultId), Trim(resultName);
    var j := FindName(st.pending, name);
    FindIdFinds(st.pending, id);
    if |st.pending| > 0 { IdsAt(st.pending, 0); }
    if j < |st.pending| { IdsAt(st.pending, j); }
  }

  /** Everything matched with a result had been waiting: nothing is matched twice or invented. */
  ghost predicate Conserved(st: State) {
    multiset(st.made) == multiset(st.used) + multiset(st.pending)
  }

  lemma ConsumeConserves(st: State, id: string, name: string)
    requires Conserved(st) && Proper(st)
    ensures var t := Consume(st, id, name).state;
      Conserved(t) && Proper(t) && t.made == st.made && st.used <= t.used
  {
    forall i: nat | i < |st.pending| ensures Conserved(TakeAt(st, i)) && Proper(TakeAt(st, i)) {
      TakeConserves(st, i);
    }
  }

  lemma TakeConserves(st: State, i: nat)
    requires Conserved(st) && Proper(st) && i < |st.pending|
    ensures Conserved(TakeAt(st, i)) && Proper(TakeAt(st, i))
  {
    var s := st.pending;
    assert s == s[..i] + [s[i]] + s[i + 1..];
  }

  // ---------------------------------------------------------------- results

  function ResultContent(m: Object): (r: Value)
    ensures !r.Null?
  {
    var direct := FirstExisting(m, CONTENTS);
    var inner := if IsResultValue(direct) then FirstExisting(direct.fields, CONTENTS) else direct;
    if inner.Null? then Text("") else inner
  }

  function ToolMessage(id: string, name: string, content: Value): Object {
    var m := map[Role := Text("tool"), ToolCallId := Text(id), Content := content];
    if name == "" then m else m[Name := Text(name)]
  }

  function RepairResult(m: Object, st: State): (State, Value) {
    var c := Consume(st, FirstText(m, RESULT_IDS), FirstText(m, CALL_NAMES));
    (c.state, Obj(ToolMessage(c.id, c.name, ResultContent(m))))
  }

  /** The content a second repair finds in a result. */
  function Unwrap(c: Value): Value {
    if !IsResultValue(c) then c
    else if FirstExisting(c.fields, CONTENTS).Null? then Text("")
    else FirstExisting(c.fields, CONTENTS)
  }

  lemma UnwrapChanges(c: Value)
    ensures IsResultValue(c) <==> Unwrap(c) != c
  {
    if IsResultValue(c) {
      var inner := FirstExisting(c.fields, CONTENTS);
      if !inner.Null? {
        var k :| k in c.fields && inner == c.fields[k];
        assert inner < c;
      }
    }
  }

  lemma ToolMessageReads(id: string, name: string, content: Value)
    requires id != "" && Trimmed(id) && Trimmed(name) && !content.Null?
    ensures var m := ToolMessage(id, name, content);
      && KindOf(m) == ToolRole
      && FirstText(m, RESULT_IDS) == id && FirstText(m, CALL_NAMES) == name
      && ResultContent(m) == Unwrap(content)
      && Content in m && m[Content] == content && TextAt(m, ToolCallId) == id
  {
    hide FirstText, FirstExisting, RoleOf, Trim, Fold;
    var m := ToolMessage(id, name, content);
    LiteralRoles();
    RoleFromText(m, "tool");
    FirstTextHead(m, RESULT_IDS, id);
    if name == "" {
      FirstTextNone(m, CALL_NAMES);
    } else {
      FirstTextHead(m, CALL_NAMES, name);
    }
    ContentFirst(m);
  }

  lemma ContentFirst(m: Object)
    requires Content in m && !m[Content].Null?
    ensures FirstExisting(m, CONTENTS) == m[Content]
  {
    assert CONTENTS[0] == Content;
  }

  // ---------------------------------------------------------------- content blocks

  function BlockText(block: Object): string {
    if BlockOf(block).TextBlock? then FirstText(block, [TextField, Content]) else ""
  }

  function TextRole(role: string): string {
    if role == "developer" then "system" else if role == "" then "user" else role
  }

  function Flushed(role: string, texts: seq<string>): seq<Value> {
    if texts == [] then [] else [Obj(map[Role := Text(TextRole(role)), Content := Text(Join(texts))])]
  }

  datatype Split = Split(state: State, out: seq<Value>, texts: seq<string>, found: bool)

  /** Content blocks split into text messages and tool results, in order. */
  function SplitItems(role: string, items: seq<Value>, st: State): Split {
    if items == [] then Split(st, [], [], false)
    else
      var s := SplitItems(role, items[..|items| - 1], st);
      var last := items[|items| - 1];
      if !last.Obj? then s
      else if BlockOf(last.fields).ResultBlock? then
        var (st', message) := RepairResult(last.fields, s.state);
        Split(st', s.out + Flushed(role, s.texts) + [message], [], true)
      else if Trim(BlockText(last.fields)) != "" then s.(texts := s.texts + [BlockText(last.fields)])
      else s
  }

  datatype Repaired = Repaired(state: State, out: seq<Value>)

  /** The messages a content field is split into; none when it holds no tool result. */
  function SplitContent(role: string, content: Value, st: State): Repaired {
    match content
    case List(items) =>
      var s := SplitItems(role, items, st);
      if s.found then Repaired(s.state, s.out + Flushed(role, s.texts)) else Repaired(st, [])
    case Obj(block) =>
      if BlockOf(block).ResultBlock? then
        var (st', message) := RepairResult(block, st);
        Repaired(st', [message])
      else Repaired(st, [])
    case _ => Repaired(st, [])
  }

  function CallBlocks(items: seq<Value>): seq<Value> {
    if items == [] then []
    else
      var last := items[|items| - 1];
      CallBlocks(items[..|items| - 1]) + if last.Obj? && BlockOf(last.fields).CallBlock? then [last] else []
  }

  function SideText(x: Externals, block: Value): string
    requires block.Obj?
  {
    if BlockOf(block.fields).TextBlock? then BlockText(block.fields) else Trim(x.plainText(List([block])))
  }

  /** The texts beside the call blocks of an assistant message. */
  function SideTexts(x: Externals, items: seq<Value>): seq<string> {
    if items == [] then []
    else
      var front, last := SideTexts(x, items[..|items| - 1]), items[|items| - 1];
      if !last.Obj? || BlockOf(last.fields).CallBlock? || Trim(SideText(x, last)) == "" then front
      else front + [SideText(x, last)]
  }

  function ContentItems(m: Object): seq<Value> {
    if Content in m && m[Content].List? then m[Content].items else []
  }

  function CallItems(m: Object): seq<Value> {
    if ToolCalls !in m then []
    else
      match m[ToolCalls]
      case List(items) => items
      case Obj(call) => [m[ToolCalls]]
      case _ => []
  }

  function WithoutContent(m: Object, texts: seq<string>): Object {
    if texts == [] then m - {Content} else m[Content := Text(Join(texts))]
  }

  function RepairAssistant(x: Externals, m: Object, st: State): Repaired {
    var (calls, n) := RepairCalls(x, CallBlocks(ContentItems(m)), st.nextId);
    if calls != [] then
      var out := WithoutContent(m, SideTexts(x, ContentItems(m)))[ToolCalls := List(calls)];
      Repaired(Record(st.(nextId := n), calls), [Obj(out)])
    else
      var (calls, n) := RepairCalls(x, CallItems(m), st.nextId);
      if calls == [] then Repaired(st, [Obj(m)])
      else Repaired(Record(st.(nextId := n), calls), [Obj(m[ToolCalls := List(calls)])])
  }

  predicate HasResultShape(m: Object) {
    || FirstText(m, SHAPE_IDS) != ""
    || BlockOf(m).ResultBlock?
    || IsResultValue(ValueAt(m, Content))
  }

  /** A message without a role that is itself a call. */
  predicate IsCallItem(m: Object) {
    KindOf(m).Blank? && BlockOf(m).CallBlock? && CallName(m) != ""
  }

  /** A message that is itself a tool result. */
  predicate IsResultItem(m: Object) {
    match KindOf(m)
    case Blank => BlockOf(m).ResultBlock?
    case ToolRole => true
    case User => HasResultShape(m)
    case _ => false
  }

  function CallItemMessage(call: Value): Object {
    map[Role := Text("assistant"), ToolCalls := List([call])]
  }

  function RepairMessage(x: Externals, m: Object, st: State): Repaired {
    if IsResultItem(m) then
      var (st', message) := RepairResult(m, st);
      Repaired(st', [message])
    else if IsCallItem(m) then
      var (call, n) := RepairCall(x, m, st.nextId).value;
      Repaired(Record(st.(nextId := n), [call]), [Obj(CallItemMessage(call))])
    else if KindOf(m).Assistant? then RepairAssistant(x, m, st)
    else
      var s := SplitContent(RoleOf(m), ValueAt(m, Content), st);
      if s.out == [] then Repaired(st, [Obj(m)]) else s
  }

  /** The message list repaired from a given state; items that are not objects are dropped. */
  function RepairFrom(x: Externals, items: seq<Value>, st: State): Repaired {
    if items == [] then Repaired(st, [])
    else
      var r := RepairFrom(x, items[..|items| - 1], st);
      var last := items[|items| - 1];
      if !last.Obj? then r
      else
        var t := RepairMessage(x, last.fields, r.state);
        Repaired(t.state, r.out + t.out)
  }

  function Repair(x: Externals, items: seq<Value>): seq<Value> {
    RepairFrom(x, items, START).out
  }

  // ---------------------------------------------------------------- the operations

  class Repairer {
    var pending: seq<Call>
    var nextId: nat
    ghost var made: seq<Call>
    ghost var used: seq<Call>

    ghost function View(): State
      reads this
    {
      State(pending, nextId, made, used)
    }

    constructor ()
      ensures View() == START
    {
      pending, nextId, made, used := [], 0, [], [];
    }

    method NextToolCallId() returns (id: string)
      modifies `nextId
      ensures nextId == old(nextId) + 1 && id == GeneratedId(nextId)
    {
      nextId := nextId + 1;
      id := GeneratedId(nextId);
    }

    method RecordPendingToolCalls(calls: seq<Value>)
      modifies `pending, `made
      ensures View() == Record(old(View()), calls)
    {
      hide PendingOf;
      for i := 0 to |calls|
        invariant View() == Record(old(View()), calls[..i])
      {
        assert calls[..i + 1][..i] == calls[..i];
        match PendingOf(calls[i]) {
          case None =>
          case Some(c) =>
            pending, made := pending + [c], made + [c];
        }
      }
      assert calls[..|calls|] == calls;
    }

    method RemovePending(i: nat)
      requires i < |pending|
      modifies `pending, `used
      ensures View() == TakeAt(old(View()), i)
    {
      used := used + [pending[i]];
      pending := pending[..i] + pending[i + 1..];
    }

    method ConsumePendingToolCall(resultId: string, resultName: string) returns (id: string, name: string)
      modifies this
      ensures Match(View(), id, name) == Consume(old(View()), resultId, resultName)
    {
      hide Trim, Fold, GeneratedId, FindId, FindName;
      id, name := Trim(resultId), Trim(resultName);
      if id != "" {
        for i := 0 to |pending|
          invariant View() == old(View()) && id == Trim(resultId) && name == Trim(resultName)
          invariant forall j :: 0 <= j < i ==> pending[j].id != id
        {
          if pending[i].id == id {
            assert FindId(pending, id) == i;
            if name == "" {
              name := pending[i].name;
            }
            RemovePending(i);
            return;
          }
        }
      }
      if name != "" {
        for i := 0 to |pending|
          invariant View() == old(View()) && id == Trim(resultId) && name == Trim(resultName)
          invariant forall j :: 0 <= j < i ==> Fold(pending[j].name) != Fold(name)
        {
          if Fold(pending[i].name) == Fold(name) {
            assert FindName(pending, name) == i;
            id := pending[i].id;
            RemovePending(i);
            return;
          }
        }
      }
      if |pending| == 1 || id == "" {
        if |pending| > 0 {
          id := pending[0].id;
          if name == "" {
            name := pending[0].name;
          }
          RemovePending(0);
          return;
        }
      }
      if id == "" {
        id := NextToolCallId();
      }
    }

    method RepairToolCall(x: Externals, m: Object) returns (call: Option<Value>)
      modifies `nextId
      ensures call.None? ==> RepairCall(x, m, old(nextId)).None? && nextId == old(nextId)
      ensures call.Some? ==> RepairCall(x, m, old(nextId)) == Some((call.value, nextId))
    {
      hide FirstText, CallName, CallArguments, Stringify, CallObject, GeneratedId;
      var name := CallName(m);
      if name == "" {
        return None;
      }
      var arguments := Stringify(x, CallArguments(m));
      var id := FirstText(m, CALL_IDS);
      if id == "" {
        id := NextToolCallId();
      }
      call := Some(Obj(CallObject(id, name, arguments)));
    }

    method RepairToolCalls(x: Externals, items: seq<Value>) returns (calls: seq<Value>)
      modifies this
      ensures var (c, n) := RepairCalls(x, items, old(nextId));
        calls == c && View() == Record(old(View()).(nextId := n), c)
    {
      hide RepairCall, PendingOfAll;
      calls := [];
      for i := 0 to |items|
        invariant RepairCalls(x, items[..i], old(nextId)) == (calls, nextId)
        invariant View() == old(View()).(nextId := nextId)
      {
        assert items[..i + 1][..i] == items[..i];
        if items[i].Obj? {
          var call := RepairToolCall(x, items[i].fields);
          if call.Some? {
            calls := calls + [call.value];
          }
        }
      }
      assert items[..|items|] == items;
      RecordPendingToolCalls(calls);
    }

    /** The assistant message with the calls found in its content blocks, or none when there are none. */
    method RepairAssistantContentBlocks(x: Externals, m: Object) returns (out: Option<Object>)
      modifies this
      ensures var (calls, n) := RepairCalls(x, CallBlocks(ContentItems(m)), old(nextId));
        if calls == [] then out == None && View() == old(View())
        else
          && View() == Record(old(View()).(nextId := n), calls)
          && out == Some(WithoutContent(m, SideTexts(x, ContentItems(m)))[ToolCalls := List(calls)])
    {
      hide RepairCall, RepairCalls, CallBlocks, SideTexts, PendingOfAll, BlockOf, Trim, BlockText, Join, SideText;
      var items := ContentItems(m);
      var texts: seq<string>, calls: seq<Value> := [], [];
      NoBlocks(x, nextId);
      for i := 0 to |items|
        invariant RepairCalls(x, CallBlocks(items[..i]), old(nextId)) == (calls, nextId)
        invariant texts == SideTexts(x, items[..i])
        invariant View() == old(View()).(nextId := nextId)
        invariant calls == [] ==> nextId == old(nextId)
      {
        NextBlock(x, items, i, old(nextId));
        if items[i].Obj? && BlockOf(items[i].fields).CallBlock? {
          NameDecides(x, items[i].fields, nextId);
          var call := RepairToolCall(x, items[i].fields);
          if call.Some? {
            calls := calls + [call.value];
          }
        } else if items[i].Obj? {
          var text := SideText(x, items[i]);
          if Trim(text) != "" {
            texts := texts + [text];
          }
        }
      }
      assert items[..|items|] == items;
      if calls == [] {
        return None;
      }
      var message := m - {Content};
      if |texts| > 0 {
        message := message[Content := Text(Join(texts))];
        assert message == m[Content := Text(Join(texts))];
      }
      RecordPendingToolCalls(calls);
      out := Some(message[ToolCalls := List(calls)]);
    }

    method RepairToolResultMessage(m: Object) returns (message: Value)
      modifies this
      ensures (View(), message) == RepairResult(m, old(View()))
    {
      hide FirstText, Consume, ResultContent;
      var id, name := ConsumePendingToolCall(FirstText(m, RESULT_IDS), FirstText(m, CALL_NAMES));
      message := Obj(ToolMessage(id, name, ResultContent(m)));
    }

    method RepairToolResultsFromContent(role: string, content: Value) returns (out: seq<Value>)
      modifies this
      ensures Repaired(View(), out) == SplitContent(role, content, old(View()))
    {
      hide RepairResult, BlockOf, BlockText, Trim, Flushed;
      if !content.List? {
        if content.Obj? && BlockOf(content.fields).ResultBlock? {
          var message := RepairToolResultMessage(content.fields);
          return [message];
        }
        return [];
      }
      var items := content.items;
      out := [];
      var texts: seq<string>, found := [], false;
      for i := 0 to |items|
        invariant Split(View(), out, texts, found) == SplitItems(role, items[..i], old(View()))
        invariant !found ==> View() == old(View())
      {
        assert items[..i + 1][..i] == items[..i];
        if items[i].Obj? {
          var block := items[i].fields;
          if BlockOf(block).ResultBlock? {
            found := true;
            out, texts := out + Flushed(role, texts), [];
            var message := RepairToolResultMessage(block);
            out := out + [message];
          } else if Trim(BlockText(block)) != "" {
            texts := texts + [BlockText(block)];
          }
        }
      }
      assert items[..|items|] == items;
      out := out + Flushed(role, texts);
      if !found {
        return [];
      }
    }

    method RepairAssistantMessage(x: Externals, m: Object) returns (out: seq<Value>)
      modifies this
      ensures Repaired(View(), out) == RepairAssistant(x, m, old(View()))
    {
      hide RepairCalls, CallBlocks, SideTexts, CallItems, ContentItems, WithoutContent;
      var split := RepairAssistantContentBlocks(x, m);
      if split.Some? {
        return [Obj(split.value)];
      }
      var calls := RepairToolCalls(x, CallItems(m));
      if |calls| > 0 {
        return [Obj(m[ToolCalls := List(calls)])];
      }
      NoCallsAnyCounter(x, CallItems(m), old(nextId), old(nextId));
      NoPending();
      return [Obj(m)];
    }

    method RepairToolMessage(x: Externals, m: Object) returns (out: seq<Value>)
      modifies this
      ensures Repaired(View(), out) == RepairMessage(x, m, old(View()))
    {
      hide RepairCall, RepairResult, RepairAssistant, SplitContent, FirstText, BlockOf, KindOfRole, PendingOfAll;
      var role := RoleOf(m);
      var kind := KindOfRole(role);
      if kind.Blank? {
        match BlockOf(m)
        case ResultBlock =>
          var message := RepairToolResultMessage(m);
          return [message];
        case CallBlock =>
          NameDecides(x, m, nextId);
          var call := RepairToolCall(x, m);
          if call.Some? {
            RecordPendingToolCalls([call.value]);
            return [Obj(CallItemMessage(call.value))];
          }
        case _ =>
      }
      if kind.Assistant? {
        out := RepairAssistantMessage(x, m);
      } else if kind.ToolRole? || (kind.User? && HasResultShape(m)) {
        var message := RepairToolResultMessage(m);
        out := [message];
      } else {
        NothingSplitNothingChanged(role, ValueAt(m, Content), View());
        out := RepairToolResultsFromContent(role, ValueAt(m, Content));
        if out == [] {
          out := [Obj(m)];
        }
      }
    }
  }

  lemma NoBlocks(x: Externals, n: nat)
    ensures RepairCalls(x, CallBlocks([]), n) == ([], n) && SideTexts(x, []) == []
  {
  }

  /** What one more content block adds to the calls and texts of an assistant message. */
  lemma NextBlock(x: Externals, items: seq<Value>, i: nat, n: nat)
    requires i < |items|
    ensures var (calls, k) := RepairCalls(x, CallBlocks(items[..i]), n);
      RepairCalls(x, CallBlocks(items[..i + 1]), n) ==
      if items[i].Obj? && BlockOf(items[i].fields).CallBlock? && RepairCall(x, items[i].fields, k).Some?
        then (calls + [RepairCall(x, items[i].fields, k).value.0], RepairCall(x, items[i].fields, k).value.1)
        else (calls, k)
    ensures SideTexts(x, items[..i + 1]) ==
      SideTexts(x, items[..i]) +
      if items[i].Obj? && !BlockOf(items[i].fields).CallBlock? && Trim(SideText(x, items[i])) != ""
        then [SideText(x, items[i])] else []
  {
    hide RepairCall, BlockOf, Trim, SideText;
    assert items[..i + 1][..i] == items[..i];
    var blocks := CallBlocks(items[..i]);
    if items[i].Obj? && BlockOf(items[i].fields).CallBlock? {
      assert (blocks + [items[i]])[..|blocks|] == blocks;
    } else {
      assert CallBlocks(items[..i + 1]) == blocks;
    }
  }

  lemma NameDecides(x: Externals, m: Object, n: nat)
    ensures RepairCall(x, m, n).Some? <==> CallName(m) != ""
  {
  }

  lemma {:induction false} FoundHasOutput(role: string, items: seq<Value>, st: State)
    ensures var s := SplitItems(role, items, st); s.found ==> s.out != []
  {
    hide RepairResult, BlockOf, BlockText, Trim, Flushed;
    if items != [] {
      FoundHasOutput(role, items[..|items| - 1], st);
    }
  }

  lemma NothingSplitNothingChanged(role: string, content: Value, st: State)
    ensures SplitContent(role, content, st).out == [] ==> SplitContent(role, content, st).state == st
  {
    hide RepairResult, BlockOf, SplitItems, Flushed;
    if content.List? {
      FoundHasOutput(role, content.items, st);
    }
  }

  method RepairToolMessages(x: Externals, items: seq<Value>) returns (out: seq<Value>)
    ensures out == Repair(x, items)
  {
    hide RepairMessage;
    out := [];
    var state := new Repairer();
    for i := 0 to |items|
      invariant Repaired(state.View(), out) == RepairFrom(x, items[..i], START)
    {
      assert items[..i + 1][..i] == items[..i];
      if items[i].Obj? {
        var repaired := state.RepairToolMessage(x, items[i].fields);
        out := out + repaired;
      }
    }
    assert items[..|items|] == items;
  }
}
