/**
 * What the repaired messages say, read off them alone: every named call of the input is there in order
 * with its name, its own id and its arguments, every result with its content, and no text beside them
 * is lost.
 */
module ToolRepairCalls {
  import opened ToolFields
  import opened ToolRepair
  import opened ToolRepairTwice
  import opened ToolRepairLedger

  // ---------------------------------------------------------------- what a field says

  predicate Blank(s: string) {
    forall i :: 0 <= i < |s| ==> IsSpace(s[i])
  }

  /** The characters with the property White_Space of the Unicode standard. */
  const WHITE_SPACE := [
    '\t', '\n', '\U{0B}', '\U{0C}', '\r', ' ', '\U{85}', '\U{A0}', '\U{1680}', '\U{2000}', '\U{2001}', '\U{2002}',
    '\U{2003}', '\U{2004}', '\U{2005}', '\U{2006}', '\U{2007}', '\U{2008}', '\U{2009}', '\U{200A}', '\U{2028}',
    '\U{2029}', '\U{202F}', '\U{205F}', '\U{3000}']

  lemma SpaceIsWhiteSpace(c: char)
    ensures IsSpace(c) <==> c in WHITE_SPACE
  {}

  const UPPER := "ABCDEFGHIJKLMNOPQRSTUVWXYZ"
  const LOWER := "abcdefghijklmnopqrstuvwxyz"

  /** Folding replaces each capital letter by its small one and nothing else. */
  lemma FoldIsLowerCase(s: string, i: nat, k: nat)
    requires i < |s| && k < 26
    ensures s[i] == UPPER[k] ==> Fold(s)[i] == LOWER[k]
    ensures s[i] !in UPPER ==> Fold(s)[i] == s[i]
  {
    LettersInOrder(k);
    if 'A' <= s[i] <= 'Z' {
      assert s[i] == UPPER[s[i] as int - 65] by { LettersInOrder(s[i] as int - 65); }
    }
  }

  lemma LettersInOrder(k: nat)
    requires k < 26
    ensures UPPER[k] as int == 65 + k && LOWER[k] as int == 97 + k
  {}

  /** `t` is `s` without the white space around it. */
  ghost predicate IsTrimOf(t: string, s: string) {
    Trimmed(t) && exists a: nat, b: nat :: Around(s, a, b) && t == s[a..b]
  }

  predicate Around(s: string, a: nat, b: nat) {
    a <= b <= |s| && Blank(s[..a]) && Blank(s[b..])
  }

  lemma {:induction false} TrimLeftCuts(s: string)
    ensures |TrimLeft(s)| <= |s| && TrimLeft(s) == s[|s| - |TrimLeft(s)|..] && Blank(s[..|s| - |TrimLeft(s)|])
  {
    hide IsSpace;
    if s != "" && IsSpace(s[0]) {
      TrimLeftCuts(s[1..]);
      var k := |s| - |TrimLeft(s)|;
      assert s[..k] == [s[0]] + s[1..][..k - 1];
    }
  }

  lemma {:induction false} TrimRightCuts(s: string)
    ensures |TrimRight(s)| <= |s| && TrimRight(s) == s[..|TrimRight(s)|] && Blank(s[|TrimRight(s)|..])
  {
    hide IsSpace;
    if s != "" && IsSpace(s[|s| - 1]) {
      TrimRightCuts(s[..|s| - 1]);
      var k := |TrimRight(s)|;
      assert s[k..] == s[..|s| - 1][k..] + [s[|s| - 1]];
    }
  }

  lemma TrimCuts(s: string)
    ensures IsTrimOf(Trim(s), s)
    ensures Trim(s) == "" <==> Blank(s)
  {
    hide IsSpace, TrimLeft, TrimRight;
    TrimLeftCuts(s);
    var u := TrimLeft(s);
    TrimRightCuts(u);
    var a := |s| - |u|;
    var b := a + |Trim(s)|;
    assert s[a..b] == Trim(s);
    assert s[b..] == u[|Trim(s)|..];
    assert Around(s, a, b);
    if Trim(s) == "" {
      assert s == s[..a] + s[a..];
    } else {
      assert s[a] == Trim(s)[0];
    }
  }

  /** The first of the fields with text that is not blank says `t`; `t` is empty when none does. */
  ghost predicate FirstTextIs(m: Object, keys: seq<Field>, t: string) {
    if t == "" then forall i :: 0 <= i < |keys| ==> Blank(TextAt(m, keys[i]))
    else exists i :: 0 <= i < |keys| && IsTrimOf(t, TextAt(m, keys[i])) && forall j :: 0 <= j < i ==> Blank(TextAt(m, keys[j]))
  }

  predicate Missing(m: Object, k: Field) {
    k !in m || m[k].Null?
  }

  /** The first of the fields that is present has value `v`; `v` is Null when none is. */
  ghost predicate FirstFieldIs(m: Object, keys: seq<Field>, v: Value) {
    if v.Null? then forall i :: 0 <= i < |keys| ==> Missing(m, keys[i])
    else exists i :: 0 <= i < |keys| && ValueAt(m, keys[i]) == v && forall j :: 0 <= j < i ==> Missing(m, keys[j])
  }

  lemma {:induction false} FirstTextReads(m: Object, keys: seq<Field>)
    ensures FirstTextIs(m, keys, FirstText(m, keys))
  {
    hide Trim, Blank, IsTrimOf;
    if keys != [] {
      TrimCuts(TextAt(m, keys[0]));
      var t := FirstText(m, keys);
      if Trim(TextAt(m, keys[0])) == "" {
        FirstTextReads(m, keys[1..]);
        if t == "" {
          forall i | 0 <= i < |keys| ensures Blank(TextAt(m, keys[i])) {
            if i > 0 { assert keys[1..][i - 1] == keys[i]; }
          }
        } else {
          var i :| 0 <= i < |keys[1..]| && IsTrimOf(t, TextAt(m, keys[1..][i]))
            && forall j :: 0 <= j < i ==> Blank(TextAt(m, keys[1..][j]));
          forall j | 0 <= j < i + 1 ensures Blank(TextAt(m, keys[j])) {
            if j > 0 { assert keys[1..][j - 1] == keys[j]; }
          }
          assert keys[i + 1] == keys[1..][i];
        }
      }
    }
  }

  lemma {:induction false} FirstExistingReads(m: Object, keys: seq<Field>)
    ensures FirstFieldIs(m, keys, FirstExisting(m, keys))
  {
    if keys != [] && Missing(m, keys[0]) {
      FirstExistingReads(m, keys[1..]);
      var v := FirstExisting(m, keys);
      if v.Null? {
        forall i | 0 <= i < |keys| ensures Missing(m, keys[i]) {
          if i > 0 { assert keys[1..][i - 1] == keys[i]; }
        }
      } else {
        var i :| 0 <= i < |keys[1..]| && ValueAt(m, keys[1..][i]) == v && forall j :: 0 <= j < i ==> Missing(m, keys[1..][j]);
        forall j | 0 <= j < i + 1 ensures Missing(m, keys[j]) {
          if j > 0 { assert keys[1..][j - 1] == keys[j]; }
        }
        assert keys[i + 1] == keys[1..][i];
      }
    }
  }

  // ---------------------------------------------------------------- a call and its repaired form

  predicate HasFunction(m: Object) {
    Function in m && m[Function].Obj?
  }

  /** The call's name: its own, or else its function's. */
  ghost predicate NameIs(m: Object, name: string) {
    if FirstTextIs(m, CALL_NAMES, "") && HasFunction(m) then FirstTextIs(m[Function].fields, FUNCTION_NAMES, name)
    else FirstTextIs(m, CALL_NAMES, name)
  }

  /** The call's arguments: its own, or else its function's. */
  ghost predicate ArgumentsAre(m: Object, v: Value) {
    if FirstFieldIs(m, ARGUMENTS, Null) && HasFunction(m) then FirstFieldIs(m[Function].fields, ARGUMENTS, v)
    else FirstFieldIs(m, ARGUMENTS, v)
  }

  /** The text that stands for arguments: trimmed text, the encoding of another value, or an empty object. */
  ghost predicate ArgumentsText(x: Externals, v: Value, t: string) {
    if v.Text? && !Blank(v.text) then IsTrimOf(t, v.text)
    else if !v.Text? && !v.Null? && x.marshal(v) != "" then t == x.marshal(v)
    else t == "{}"
  }

  /** The emitted call is in canonical form and keeps the input's name, arguments and own id. */
  ghost predicate CallKept(x: Externals, input: Value, output: Value) {
    && input.Obj? && output.Obj?
    && exists id, name, arguments, v ::
      && IsCanonical(output.fields, id, name, arguments)
      && name != "" && NameIs(input.fields, name)
      && ArgumentsAre(input.fields, v) && ArgumentsText(x, v, arguments)
      && id != "" && (FirstTextIs(input.fields, CALL_IDS, id)
                      || (FirstTextIs(input.fields, CALL_IDS, "") && exists n: nat :: id == GeneratedId(n)))
  }

  predicate IsCanonical(m: Object, id: string, name: string, arguments: string) {
    && Id in m && m[Id] == Text(id)
    && Function in m && m[Function].Obj?
    && Name in m[Function].fields && m[Function].fields[Name] == Text(name)
    && Arguments in m[Function].fields && m[Function].fields[Arguments] == Text(arguments)
  }

  lemma FirstTextUnique(m: Object, keys: seq<Field>)
    ensures FirstTextIs(m, keys, "") <==> FirstText(m, keys) == ""
  {
    hide IsTrimOf, Blank;
    FirstTextReads(m, keys);
    if FirstTextIs(m, keys, "") {
      AllBlank(m, keys);
    }
  }

  lemma {:induction false} AllBlank(m: Object, keys: seq<Field>)
    requires forall i :: 0 <= i < |keys| ==> Blank(TextAt(m, keys[i]))
    ensures FirstText(m, keys) == ""
  {
    hide Blank, Trim;
    if keys != [] {
      TrimCuts(TextAt(m, keys[0]));
      forall i | 0 <= i < |keys[1..]| ensures Blank(TextAt(m, keys[1..][i])) {
        assert keys[1..][i] == keys[i + 1];
      }
      AllBlank(m, keys[1..]);
    }
  }

  lemma FirstFieldUnique(m: Object, keys: seq<Field>)
    ensures FirstFieldIs(m, keys, Null) <==> FirstExisting(m, keys).Null?
  {
    FirstExistingReads(m, keys);
    if FirstFieldIs(m, keys, Null) {
      AllMissing(m, keys);
    }
  }

  lemma {:induction false} AllMissing(m: Object, keys: seq<Field>)
    requires forall i :: 0 <= i < |keys| ==> Missing(m, keys[i])
    ensures FirstExisting(m, keys).Null?
  {
    if keys != [] {
      forall i | 0 <= i < |keys[1..]| ensures Missing(m, keys[1..][i]) {
        assert keys[1..][i] == keys[i + 1];
      }
      AllMissing(m, keys[1..]);
    }
  }

  lemma NameReads(m: Object)
    ensures NameIs(m, CallName(m))
  {
    hide FirstText, FirstTextIs;
    FirstTextUnique(m, CALL_NAMES);
    FirstTextReads(m, CALL_NAMES);
    if HasFunction(m) { FirstTextReads(m[Function].fields, FUNCTION_NAMES); }
  }

  lemma ArgumentsRead(m: Object)
    ensures ArgumentsAre(m, CallArguments(m))
  {
    hide FirstExisting, FirstFieldIs;
    FirstFieldUnique(m, ARGUMENTS);
    FirstExistingReads(m, ARGUMENTS);
    if HasFunction(m) { FirstExistingReads(m[Function].fields, ARGUMENTS); }
  }

  lemma StringifyReads(x: Externals, v: Value)
    ensures ArgumentsText(x, v, Stringify(x, v))
  {
    hide Trim, Blank, IsTrimOf;
    if v.Text? { TrimCuts(v.text); }
  }

  lemma RepairCallKeeps(x: Externals, m: Object, n: nat)
    requires RepairCall(x, m, n).Some?
    ensures CallKept(x, Obj(m), RepairCall(x, m, n).value.0)
  {
    hide FirstText, CallName, CallArguments, Stringify, GeneratedId, NameIs, ArgumentsAre, ArgumentsText, FirstTextIs;
    NameReads(m);
    ArgumentsRead(m);
    StringifyReads(x, CallArguments(m));
    FirstTextReads(m, CALL_IDS);
    var own := FirstText(m, CALL_IDS);
    var id := if own == "" then GeneratedId(n + 1) else own;
    assert IsCanonical(RepairCall(x, m, n).value.0.fields, id, CallName(m), Stringify(x, CallArguments(m)));
  }

  // ---------------------------------------------------------------- all calls

  /** Input and output calls correspond in order. */
  ghost predicate AllKept(x: Externals, inputs: seq<Value>, outputs: seq<Value>) {
    |inputs| == |outputs| && forall k :: 0 <= k < |inputs| ==> CallKept(x, inputs[k], outputs[k])
  }

  lemma KeptAppend(x: Externals, a: seq<Value>, b: seq<Value>, c: seq<Value>, d: seq<Value>)
    requires AllKept(x, a, b) && AllKept(x, c, d)
    ensures AllKept(x, a + c, b + d)
  {
    hide CallKept;
  }

  lemma {:induction false} RepairCallsKeep(x: Externals, items: seq<Value>, n: nat)
    ensures AllKept(x, NamedItems(items), RepairCalls(x, items, n).0)
  {
    hide RepairCall, CallName, CallKept;
    if items != [] {
      var front, last := items[..|items| - 1], items[|items| - 1];
      RepairCallsKeep(x, front, n);
      if last.Obj? {
        var k := RepairCalls(x, front, n).1;
        NameDecides(x, last.fields, k);
        if RepairCall(x, last.fields, k).Some? {
          RepairCallKeeps(x, last.fields, k);
        }
      }
    }
  }

  /** The named calls among content blocks. */
  function NamedBlocks(items: seq<Value>): seq<Value> {
    if items == [] then []
    else
      var last := items[|items| - 1];
      NamedBlocks(items[..|items| - 1])
      + if last.Obj? && BlockOf(last.fields).CallBlock? && CallName(last.fields) != "" then [last] else []
  }

  lemma {:induction false} NamedAppend(a: seq<Value>, b: seq<Value>)
    ensures NamedItems(a + b) == NamedItems(a) + NamedItems(b)
    decreases |b|
  {
    hide CallName;
    if b == [] {
      assert a + b == a;
    } else {
      NamedAppend(a, b[..|b| - 1]);
      assert (a + b)[..|a + b| - 1] == a + b[..|b| - 1];
    }
  }

  lemma {:induction false} BlocksAreNamed(items: seq<Value>)
    ensures NamedItems(CallBlocks(items)) == NamedBlocks(items)
  {
    hide CallName, BlockOf;
    if items != [] {
      var front, last := items[..|items| - 1], items[|items| - 1];
      BlocksAreNamed(front);
      NamedAppend(CallBlocks(front), [last]);
      assert [last][..0] == [];
      assert NamedItems([]) == [];
      assert CallBlocks(front) + [] == CallBlocks(front);
    }
  }

  /** The named calls of a message: the message itself, its content blocks, or else its call list. */
  function MessageCalls(m: Object): seq<Value> {
    if IsResultItem(m) then []
    else if IsCallItem(m) then [Obj(m)]
    else if !KindOf(m).Assistant? then []
    else if NamedBlocks(ContentItems(m)) != [] then NamedBlocks(ContentItems(m))
    else NamedItems(CallItems(m))
  }

  function AllCalls(items: seq<Value>): seq<Value> {
    if items == [] then []
    else
      var last := items[|items| - 1];
      AllCalls(items[..|items| - 1]) + if last.Obj? then MessageCalls(last.fields) else []
  }

  /** The calls in the assistant messages of a repaired list. */
  function Emitted(out: seq<Value>): seq<Value> {
    if out == [] then []
    else
      var last := out[|out| - 1];
      Emitted(out[..|out| - 1])
      + if last.Obj? && KindOf(last.fields).Assistant? then NamedItems(CallItems(last.fields)) else []
  }

  lemma {:induction false} EmittedAppend(a: seq<Value>, b: seq<Value>)
    ensures Emitted(a + b) == Emitted(a) + Emitted(b)
    decreases |b|
  {
    hide KindOf, NamedItems, CallItems;
    if b == [] {
      assert a + b == a;
    } else {
      EmittedAppend(a, b[..|b| - 1]);
      assert (a + b)[..|a + b| - 1] == a + b[..|b| - 1];
    }
  }

  lemma EmittedOne(m: Object)
    ensures Emitted([Obj(m)]) == if KindOf(m).Assistant? then NamedItems(CallItems(m)) else []
  {
    hide KindOf, NamedItems, CallItems;
    assert [Obj(m)][..0] == [];
    assert Emitted([]) == [];
  }

  /** No call is emitted by results and texts. */
  lemma ResultEmitsNothing(m: Object, st: State)
    requires Good(st)
    ensures Emitted([RepairResult(m, st).1]) == []
  {
    hide KindOf, ToolContents, Contents, AllResults, UnwrapAll, CallItems, NamedItems, RepairResult, Good;
    ResultCarries(m, st);
    var v := RepairResult(m, st).1;
    ResultIsTool(m, st);
    EmittedOne(v.fields);
  }

  lemma ResultIsTool(m: Object, st: State)
    requires Good(st)
    ensures RepairResult(m, st).1.Obj? && KindOf(RepairResult(m, st).1.fields).ToolRole?
  {
    hide Consume, FirstText, ResultContent, KindOf, ToolMessage;
    ConsumeNames(st, FirstText(m, RESULT_IDS), FirstText(m, CALL_NAMES));
    var c := Consume(st, FirstText(m, RESULT_IDS), FirstText(m, CALL_NAMES));
    ToolMessageReads(c.id, c.name, ResultContent(m));
  }

  lemma FlushedEmitsNothing(m: Object, texts: seq<string>)
    requires KindOf(m).Blank? || KindOf(m).User? || KindOf(m).OtherRole?
    ensures Emitted(Flushed(RoleOf(m), texts)) == []
  {
    hide Trim, Fold, KindOfRole, RoleOf, Join, TextRole, BlockOf, FirstText, NamedItems, CallItems;
    if texts != [] {
      TextRoleKind(m);
      TextMessageStays(Externals(v => "", v => ""), TextRole(RoleOf(m)), texts, START);
      EmittedOne(Flushed(RoleOf(m), texts)[0].fields);
    }
  }

  lemma {:induction false} SplitEmitsNothing(m: Object, items: seq<Value>, st: State)
    requires KindOf(m).Blank? || KindOf(m).User? || KindOf(m).OtherRole?
    requires Good(st)
    ensures Emitted(SplitItems(RoleOf(m), items, st).out) == []
  {
    hide RepairResult, Good, BlockOf, BlockText, Trim, Flushed, KindOf, RoleOf, NamedItems, CallItems;
    if items != [] {
      var front, last := items[..|items| - 1], items[|items| - 1];
      SplitEmitsNothing(m, front, st);
      SplitKeeps(RoleOf(m), front, st);
      if IsResultValue(last) {
        var s := SplitItems(RoleOf(m), front, st);
        FlushedEmitsNothing(m, s.texts);
        ResultEmitsNothing(last.fields, s.state);
        EmittedAppend(s.out, Flushed(RoleOf(m), s.texts));
        EmittedAppend(s.out + Flushed(RoleOf(m), s.texts), [RepairResult(last.fields, s.state).1]);
      }
    }
  }

  lemma SettledAreEmitted(x: Externals, m: Object, calls: seq<Value>)
    requires KindOf(m).Assistant? && (forall v :: v in calls ==> Settled(x, v))
    requires ToolCalls in m && m[ToolCalls] == List(calls)
    ensures Emitted([Obj(m)]) == calls
  {
    hide KindOf, Settled, NamedItems;
    EmittedOne(m);
    SettledAreNamed(x, calls);
  }

  lemma AssistantKeeps(x: Externals, m: Object, st: State)
    requires Lawful(x) && KindOf(m).Assistant?
    ensures AllKept(x, if NamedBlocks(ContentItems(m)) != [] then NamedBlocks(ContentItems(m)) else NamedItems(CallItems(m)),
                    Emitted(RepairAssistant(x, m, st).out))
  {
    hide RepairCalls, CallBlocks, Record, BlockOf, CallName, SideTexts, CallItems, KindOf, Settled, NamedItems, NamedBlocks,
      Emitted, CallKept, ContentItems;
    var blocks := CallBlocks(ContentItems(m));
    BlocksAreNamed(ContentItems(m));
    RepairCallsKeep(x, blocks, st.nextId);
    RepairCallsKeep(x, CallItems(m), st.nextId);
    var (calls, n) := RepairCalls(x, blocks, st.nextId);
    if calls != [] {
      RepairCallsSettle(x, blocks, st.nextId);
      var out := WithoutContent(m, SideTexts(x, ContentItems(m)))[ToolCalls := List(calls)];
      SameRole(m, out);
      SettledAreEmitted(x, out, calls);
    } else {
      var (calls, n) := RepairCalls(x, CallItems(m), st.nextId);
      if calls != [] {
        RepairCallsSettle(x, CallItems(m), st.nextId);
        var out := m[ToolCalls := List(calls)];
        SameRole(m, out);
        SettledAreEmitted(x, out, calls);
      } else {
        EmittedOne(m);
      }
    }
  }

  lemma CallItemKeeps(x: Externals, m: Object, st: State)
    requires Lawful(x) && IsCallItem(m)
    ensures var (call, n) := RepairCall(x, m, st.nextId).value;
      AllKept(x, [Obj(m)], Emitted([Obj(CallItemMessage(call))]))
  {
    hide RepairCall, RoleOf, Trim, Fold, Settled, CallName, Emitted, CallKept, PendingOf;
    NameDecides(x, m, st.nextId);
    RepairCallKeeps(x, m, st.nextId);
    RepairCallSettles(x, m, st.nextId);
    var (call, n) := RepairCall(x, m, st.nextId).value;
    CallItemStays(x, m, st);
    SettledAreEmitted(x, CallItemMessage(call), [call]);
  }

  lemma MessageKeepsCalls(x: Externals, m: Object, st: State)
    requires Lawful(x) && Good(st)
    ensures AllKept(x, MessageCalls(m), Emitted(RepairMessage(x, m, st).out))
  {
    hide RepairResult, Good, Record, RepairCalls, RepairCall, BlockOf, CallName, KindOf, FirstText, SplitItems,
      RepairAssistant, ResultContent, RoleOf, Flushed, ResultBlocks, CallItemMessage, Emitted, CallKept, NamedItems,
      NamedBlocks;
    if IsResultItem(m) {
      ResultEmitsNothing(m, st);
    } else if IsCallItem(m) {
      NameDecides(x, m, st.nextId);
      CallItemKeeps(x, m, st);
    } else if KindOf(m).Assistant? {
      AssistantKeeps(x, m, st);
    } else if ResultsOf(m) == [] {
      PlainStays(x, m, st);
      EmittedOne(m);
    } else {
      match ValueAt(m, Content)
      case List(items) =>
        SplitKeeps(RoleOf(m), items, st);
        SplitEmitsNothing(m, items, st);
        var s := SplitItems(RoleOf(m), items, st);
        FlushedEmitsNothing(m, s.texts);
        EmittedAppend(s.out, Flushed(RoleOf(m), s.texts));
      case Obj(block) =>
        ResultEmitsNothing(block, st);
      case _ =>
    }
  }

  lemma {:induction false} RunKeepsCalls(x: Externals, items: seq<Value>, st: State)
    requires Lawful(x) && Good(st)
    ensures AllKept(x, AllCalls(items), Emitted(RepairFrom(x, items, st).out))
  {
    hide RepairMessage, Good, CallKept, MessageCalls;
    if items != [] {
      var front, last := items[..|items| - 1], items[|items| - 1];
      RunKeepsCalls(x, front, st);
      RunKeeps(x, front, st);
      if last.Obj? {
        var r := RepairFrom(x, front, st);
        var t := RepairMessage(x, last.fields, r.state);
        MessageKeepsCalls(x, last.fields, r.state);
        EmittedAppend(r.out, t.out);
        KeptAppend(x, AllCalls(front), Emitted(r.out), MessageCalls(last.fields), Emitted(t.out));
      }
    }
  }

  /**
   * The emitted calls are the named calls of the input in order, each with its name, its own id if it has
   * one, and its arguments.
   */
  lemma CallsKeptWithArguments(x: Externals, items: seq<Value>)
    requires Lawful(x)
    ensures AllKept(x, AllCalls(items), Emitted(Repair(x, items)))
  {
    hide RepairFrom, Good, AllKept, AllCalls, Emitted;
    StartIsGood();
    RunKeepsCalls(x, items, START);
  }

  // ---------------------------------------------------------------- the contents of results

  /** The content of a result: the first content field, looked up once more inside a result block. */
  ghost predicate ContentIs(m: Object, c: Value) {
    exists outer :: FirstFieldIs(m, CONTENTS, outer) &&
      if !IsResultValue(outer) then c == OrEmpty(outer)
      else exists inner :: FirstFieldIs(outer.fields, CONTENTS, inner) && c == OrEmpty(inner)
  }

  function OrEmpty(v: Value): Value {
    if v.Null? then Text("") else v
  }

  lemma ResultContentReads(m: Object)
    ensures ContentIs(m, ResultContent(m))
  {
    hide FirstExisting, FirstFieldIs, BlockOf;
    FirstExistingReads(m, CONTENTS);
    var outer := FirstExisting(m, CONTENTS);
    if IsResultValue(outer) {
      FirstExistingReads(outer.fields, CONTENTS);
    }
  }

  lemma {:induction false} ContentsRead(results: seq<Object>)
    ensures |Contents(results)| == |results|
    ensures forall k :: 0 <= k < |results| ==> ContentIs(results[k], Contents(results)[k])
  {
    hide ResultContent, ContentIs;
    if results != [] {
      ContentsRead(results[..|results| - 1]);
      ResultContentReads(results[|results| - 1]);
    }
  }

  /** The tool messages carry, in order, the contents of the results of the input. */
  lemma ResultsKeptWithContents(x: Externals, items: seq<Value>)
    requires Lawful(x)
    ensures var emitted, results := ToolContents(Repair(x, items)), AllResults(items);
      |emitted| == |results| && forall k :: 0 <= k < |results| ==> ContentIs(results[k], emitted[k])
  {
    hide Repair, ToolContents, AllResults, Contents, ContentIs;
    ResultsKeptWithIds(x, items);
    ContentsRead(AllResults(items));
  }

  // ---------------------------------------------------------------- texts

  /** What a block beside the calls of an assistant message says; nothing for a call and for a non-object. */
  ghost predicate SideTextIs(x: Externals, v: Value, t: string) {
    if !v.Obj? || BlockOf(v.fields).CallBlock? then t == ""
    else if BlockOf(v.fields).TextBlock? then FirstTextIs(v.fields, [TextField, Content], t)
    else IsTrimOf(t, x.plainText(List([v])))
  }

  /** What a block beside results says; only text blocks say something. */
  ghost predicate PlainTextIs(v: Value, t: string) {
    if v.Obj? && BlockOf(v.fields).TextBlock? then FirstTextIs(v.fields, [TextField, Content], t) else t == ""
  }

  function NonEmpty(texts: seq<string>): seq<string> {
    if texts == [] then []
    else NonEmpty(texts[..|texts| - 1]) + if texts[|texts| - 1] != "" then [texts[|texts| - 1]] else []
  }

  lemma NonEmptyOneMore(texts: seq<string>, t: string)
    ensures NonEmpty(texts + [t]) == if t == "" then NonEmpty(texts) else NonEmpty(texts) + [t]
  {
    assert (texts + [t])[..|texts|] == texts;
  }

  lemma SideTextReads(x: Externals, v: Value)
    ensures SideTextIs(x, v, if v.Obj? && !BlockOf(v.fields).CallBlock? then SideText(x, v) else "")
    ensures v.Obj? && !BlockOf(v.fields).CallBlock? ==> Trim(SideText(x, v)) == SideText(x, v)
  {
    hide Trim, FirstText, FirstTextIs, IsTrimOf, KindOfType;
    if v.Obj? && !BlockOf(v.fields).CallBlock? {
      FirstTextReads(v.fields, [TextField, Content]);
      TrimCuts(x.plainText(List([v])));
    }
  }

  /** The texts beside the calls are what their blocks say, in order. */
  lemma {:induction false} SideTextsRead(x: Externals, items: seq<Value>) returns (said: seq<string>)
    ensures |said| == |items| && (forall i :: 0 <= i < |items| ==> SideTextIs(x, items[i], said[i]))
    ensures SideTexts(x, items) == NonEmpty(said)
  {
    hide SideTextIs, SideText, Trim, BlockOf;
    if items == [] {
      said := [];
    } else {
      var front, last := items[..|items| - 1], items[|items| - 1];
      var before := SideTextsRead(x, front);
      SideTextReads(x, last);
      var t := if last.Obj? && !BlockOf(last.fields).CallBlock? then SideText(x, last) else "";
      said := before + [t];
      NonEmptyOneMore(before, t);
    }
  }

  /**
   * An assistant message with calls among its content blocks is emitted with the texts beside them as its
   * content, and any other assistant message with the content it had.
   */
  lemma AssistantTextsKept(x: Externals, m: Object, st: State) returns (said: seq<string>)
    requires Lawful(x) && KindOf(m).Assistant?
    ensures |said| == |ContentItems(m)|
    ensures forall i :: 0 <= i < |said| ==> SideTextIs(x, ContentItems(m)[i], said[i])
    ensures var out := RepairAssistant(x, m, st).out;
      && |out| == 1 && out[0].Obj?
      && ValueAt(out[0].fields, Content) ==
         if NamedBlocks(ContentItems(m)) == [] then ValueAt(m, Content)
         else if NonEmpty(said) == [] then Null
         else Text(Join(NonEmpty(said)))
  {
    hide RepairCalls, CallBlocks, Record, SideTexts, CallItems, KindOf, NamedItems, NamedBlocks, SideTextIs, Join, NonEmpty,
      CallKept;
    said := SideTextsRead(x, ContentItems(m));
    BlocksAreNamed(ContentItems(m));
    RepairCallsKeep(x, CallBlocks(ContentItems(m)), st.nextId);
  }

  lemma {:induction false} JoinAppend(a: seq<string>, b: seq<string>)
    requires a != [] && b != []
    ensures Join(a + b) == Join(a) + "\n" + Join(b)
    decreases |b|
  {
    var front, last := b[..|b| - 1], b[|b| - 1];
    assert (a + b)[..|a + b| - 1] == a + front;
    if front == [] {
      assert a + front == a;
      assert b == [last];
    } else {
      JoinAppend(a, front);
      assert Join(a) + "\n" + Join(front) + "\n" + last == Join(a) + "\n" + (Join(front) + "\n" + last);
    }
  }

  /** The texts of the messages in a list that are not tool results. */
  function TextContents(out: seq<Value>): seq<string> {
    if out == [] then []
    else
      var last := out[|out| - 1];
      TextContents(out[..|out| - 1])
      + if last.Obj? && !KindOf(last.fields).ToolRole? then [TextAt(last.fields, Content)] else []
  }

  lemma {:induction false} TextContentsAppend(a: seq<Value>, b: seq<Value>)
    ensures TextContents(a + b) == TextContents(a) + TextContents(b)
    decreases |b|
  {
    hide KindOf;
    if b == [] {
      assert a + b == a;
    } else {
      TextContentsAppend(a, b[..|b| - 1]);
      assert (a + b)[..|a + b| - 1] == a + b[..|b| - 1];
    }
  }

  lemma FlushedTexts(m: Object, texts: seq<string>)
    requires KindOf(m).Blank? || KindOf(m).User? || KindOf(m).OtherRole?
    ensures TextContents(Flushed(RoleOf(m), texts)) == if texts == [] then [] else [Join(texts)]
  {
    hide Trim, Fold, KindOfRole, RoleOf, Join, TextRole, BlockOf, FirstText;
    if texts != [] {
      TextRoleKind(m);
      TextMessageStays(Externals(v => "", v => ""), TextRole(RoleOf(m)), texts, START);
      var v := Flushed(RoleOf(m), texts)[0];
      assert [v][..0] == [];
      assert TextContents([]) == [];
    }
  }

  /** A text message has the role of the message it was split off: a developer's is a system's, a missing one a user's. */
  ghost predicate RoleKept(m: Object, v: Value) {
    && v.Obj? && Role in v.fields && v.fields[Role].Text?
    && exists role :: IsTrimOf(role, TextAt(m, Role)) && v.fields[Role].text == RoleFor(role)
  }

  function RoleFor(role: string): string {
    if role == "" then "user" else if Fold(role) == "developer" then "system" else Fold(role)
  }

  ghost predicate RolesKept(m: Object, out: seq<Value>) {
    forall v :: v in out && v.Obj? && !KindOf(v.fields).ToolRole? ==> RoleKept(m, v)
  }

  lemma FlushedRole(m: Object, texts: seq<string>)
    ensures RolesKept(m, Flushed(RoleOf(m), texts))
  {
    hide IsTrimOf, Trim, KindOf;
    var role := Trim(TextAt(m, Role));
    TrimCuts(TextAt(m, Role));
    assert role == "" <==> Fold(role) == "";
    assert TextRole(RoleOf(m)) == RoleFor(role);
    if texts != [] {
      assert RoleKept(m, Flushed(RoleOf(m), texts)[0]);
    }
  }

  lemma {:induction false} SplitRoles(m: Object, items: seq<Value>, st: State)
    requires Good(st)
    ensures RolesKept(m, SplitItems(RoleOf(m), items, st).out)
  {
    hide RepairResult, Good, BlockOf, BlockText, Trim, Flushed, KindOf, RoleOf, RoleKept;
    if items != [] {
      var front, last := items[..|items| - 1], items[|items| - 1];
      SplitRoles(m, front, st);
      SplitKeeps(RoleOf(m), front, st);
      if IsResultValue(last) {
        var s := SplitItems(RoleOf(m), front, st);
        FlushedRole(m, s.texts);
        ResultIsTool(last.fields, s.state);
      }
    }
  }

  lemma ResultHasNoText(m: Object, st: State)
    requires Good(st)
    ensures TextContents([RepairResult(m, st).1]) == []
  {
    hide KindOf, RepairResult, Good;
    ResultIsTool(m, st);
    var v := RepairResult(m, st).1;
    assert [v][..0] == [];
    assert TextContents([]) == [];
  }

  /** Texts given as some messages and some still to be flushed. */
  function JoinBoth(done: seq<string>, rest: seq<string>): string {
    if rest == [] then Join(done) else Join(done + [Join(rest)])
  }

  lemma JoinBothOneMore(done: seq<string>, rest: seq<string>, t: string, all: seq<string>)
    requires JoinBoth(done, rest) == Join(all) && (done == [] && rest == [] <==> all == [])
    ensures JoinBoth(done, rest + [t]) == Join(all + [t])
  {
    hide Join;
    JoinOne(t);
    if rest == [] {
      assert rest + [t] == [t];
      JoinSame(done, all, t);
    } else {
      JoinOne(Join(rest));
      JoinOne(Join(rest + [t]));
      JoinAppend(rest, [t]);
      JoinAppend(all, [t]);
      if done != [] {
        JoinAppend(done, [Join(rest)]);
        JoinAppend(done, [Join(rest + [t])]);
        Regroup(Join(done), Join(rest), t);
      } else {
        assert done + [Join(rest)] == [Join(rest)] && done + [Join(rest + [t])] == [Join(rest + [t])];
      }
    }
  }

  lemma JoinOne(t: string)
    ensures Join([t]) == t
  {
  }

  lemma JoinSame(a: seq<string>, b: seq<string>, t: string)
    requires Join(a) == Join(b) && (a == [] <==> b == [])
    ensures Join(a + [t]) == Join(b + [t])
  {
    hide Join;
    if a != [] {
      JoinAppend(a, [t]);
      JoinAppend(b, [t]);
    }
  }

  lemma Regroup(a: string, b: string, c: string)
    ensures a + "\n" + (b + "\n" + c) == a + "\n" + b + "\n" + c
  {
  }

  lemma PlainTextReads(v: Value)
    ensures PlainTextIs(v, if v.Obj? then BlockText(v.fields) else "")
    ensures v.Obj? ==> Trim(BlockText(v.fields)) == BlockText(v.fields)
    ensures IsResultValue(v) ==> BlockText(v.fields) == ""
  {
    hide Trim, FirstText, FirstTextIs, KindOfType;
    if v.Obj? {
      FirstTextReads(v.fields, [TextField, Content]);
    }
    assert Trim("") == "";
  }

  /** No text beside results is lost: the text messages together say what the text blocks say, in order. */
  lemma {:induction false} SplitTextsKept(m: Object, items: seq<Value>, st: State) returns (said: seq<string>)
    requires KindOf(m).Blank? || KindOf(m).User? || KindOf(m).OtherRole?
    requires Good(st)
    ensures |said| == |items| && (forall i :: 0 <= i < |items| ==> PlainTextIs(items[i], said[i]))
    ensures var s := SplitItems(RoleOf(m), items, st);
      && JoinBoth(TextContents(s.out), s.texts) == Join(NonEmpty(said))
      && (TextContents(s.out) == [] && s.texts == [] <==> NonEmpty(said) == [])
  {
    hide RepairResult, Good, BlockOf, BlockText, Trim, Flushed, KindOf, RoleOf, PlainTextIs, Join, TextContents;
    if items == [] {
      said := [];
      NoTexts();
    } else {
      var front, last := items[..|items| - 1], items[|items| - 1];
      var before := SplitTextsKept(m, front, st);
      SplitKeeps(RoleOf(m), front, st);
      PlainTextReads(last);
      var t := if last.Obj? then BlockText(last.fields) else "";
      said := before + [t];
      NonEmptyOneMore(before, t);
      var s := SplitItems(RoleOf(m), front, st);
      if IsResultValue(last) {
        FlushedTexts(m, s.texts);
        ResultHasNoText(last.fields, s.state);
        TextContentsAppend(s.out, Flushed(RoleOf(m), s.texts));
        TextContentsAppend(s.out + Flushed(RoleOf(m), s.texts), [RepairResult(last.fields, s.state).1]);
        var texts := TextContents(s.out);
        assert texts + [] == texts;
        assert TextContents(SplitItems(RoleOf(m), items, st).out) == if s.texts == [] then texts else texts + [Join(s.texts)];
      } else if t != "" {
        JoinBothOneMore(TextContents(s.out), s.texts, t, NonEmpty(before));
      }
    }
  }

  lemma NoTexts()
    ensures TextContents([]) == [] && NonEmpty([]) == []
  {
  }

  /** A message split into texts and results loses no text. */
  lemma SplitContentTextsKept(m: Object, items: seq<Value>, st: State) returns (said: seq<string>)
    requires KindOf(m).Blank? || KindOf(m).User? || KindOf(m).OtherRole?
    requires Good(st) && ResultBlocks(items) != []
    ensures |said| == |items| && (forall i :: 0 <= i < |items| ==> PlainTextIs(items[i], said[i]))
    ensures Join(TextContents(SplitContent(RoleOf(m), List(items), st).out)) == Join(NonEmpty(said))
    ensures RolesKept(m, SplitContent(RoleOf(m), List(items), st).out)
  {
    hide SplitItems, Good, KindOf, RoleOf, PlainTextIs, Join, TextContents, Flushed, NonEmpty, RoleKept;
    said := SplitTextsKept(m, items, st);
    SplitKeeps(RoleOf(m), items, st);
    var s := SplitItems(RoleOf(m), items, st);
    FlushedTexts(m, s.texts);
    FlushedRole(m, s.texts);
    SplitRoles(m, items, st);
    TextContentsAppend(s.out, Flushed(RoleOf(m), s.texts));
    assert TextContents(s.out) + [] == TextContents(s.out);
  }
}
