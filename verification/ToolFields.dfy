/**
 * Text and decoded JSON as the tool-message repair reads them
 * (internal/promptcompat/tool_message_repair.go): trimmed, case-folded text, and the first of several
 * alternative fields.
 */
module ToolFields {

  datatype Option<T> = None | Some(value: T)

  // ---------------------------------------------------------------- text

  predicate IsSpace(c: char) {
    || '\t' <= c <= '\r' || c == ' ' || c == '\U{85}' || c == '\U{A0}' || c == '\U{1680}'
    || '\U{2000}' <= c <= '\U{200A}' || c == '\U{2028}' || c == '\U{2029}' || c == '\U{202F}'
    || c == '\U{205F}' || c == '\U{3000}'
  }

  predicate Trimmed(s: string) {
    s == "" || (!IsSpace(s[0]) && !IsSpace(s[|s| - 1]))
  }

  function TrimLeft(s: string): (r: string)
    ensures r == "" || !IsSpace(r[0])
    ensures Trimmed(s) ==> r == s
  {
    if s != "" && IsSpace(s[0]) then TrimLeft(s[1..]) else s
  }

  function TrimRight(s: string): (r: string)
    ensures r <= s
    ensures r == "" || !IsSpace(r[|r| - 1])
    ensures Trimmed(s) ==> r == s
  {
    if s != "" && IsSpace(s[|s| - 1]) then TrimRight(s[..|s| - 1]) else s
  }

  function Trim(s: string): (r: string)
    ensures Trimmed(r)
    ensures Trimmed(s) ==> r == s
  {
    TrimRight(TrimLeft(s))
  }

  function LowerChar(c: char): char {
    if 'A' <= c <= 'Z' then (c as int + 32) as char else c
  }

  /** Letter case folded; only the letters of ASCII have case here. */
  function Fold(s: string): (r: string)
    ensures |r| == |s| && forall i :: 0 <= i < |s| ==> r[i] == LowerChar(s[i])
  {
    if s == "" then "" else [LowerChar(s[0])] + Fold(s[1..])
  }

  /** A trimmed, case-folded text stays as it is when trimmed and folded again. */
  lemma NormalTwice(s: string)
    ensures var r := Fold(Trim(s)); Trim(r) == r && Fold(r) == r
  {
    hide Fold, Trim;
    var r := Fold(Trim(s));
    assert Fold(r) == r;
    assert Trimmed(r);
  }

  function Join(parts: seq<string>): string {
    if parts == [] then ""
    else if |parts| == 1 then parts[0]
    else Join(parts[..|parts| - 1]) + "\n" + parts[|parts| - 1]
  }

  function Digits(n: nat): (r: string)
    ensures |r| >= 1 && forall i :: 0 <= i < |r| ==> '0' <= r[i] <= '9'
  {
    if n < 10 then [('0' as int + n) as char] else Digits(n / 10) + [('0' as int + n % 10) as char]
  }

  function GeneratedId(n: nat): (r: string)
    ensures r != "" && Trimmed(r)
  {
    "call_repaired_" + Digits(n)
  }

  // ---------------------------------------------------------------- decoded JSON

  /** The field names the repair looks at; every other name is Named. */
  datatype Field =
    | Role | Type | Content | Output | Result | TextField | Observation | Data
    | Name | ToolName | FunctionName | RecipientName | ToolNameCamel | FunctionNameCamel
    | Id | CallIdField | ToolCallId | ToolUseId | CallIdCamel | ToolCallIdCamel | ToolUseIdCamel
    | Function | ToolCalls | Arguments | Input | Args | Parameters | Params | ArgumentsJson | InputJson
    | Named(name: string)

  datatype Value = Null | Text(text: string) | List(items: seq<Value>) | Obj(fields: map<Field, Value>) | Scalar(token: string)

  type Object = map<Field, Value>

  const CALL_NAMES := [Name, ToolName, FunctionName, RecipientName, ToolNameCamel, FunctionNameCamel]
  const FUNCTION_NAMES := [Name, ToolName, FunctionName, ToolNameCamel, FunctionNameCamel]
  const CALL_IDS := [Id, CallIdField, ToolCallId, ToolUseId, CallIdCamel, ToolCallIdCamel, ToolUseIdCamel]
  const PENDING_IDS := [Id, CallIdField, ToolCallId, CallIdCamel, ToolCallIdCamel]
  const RESULT_IDS := [ToolCallId, CallIdField, ToolUseId, Id, CallIdCamel, ToolCallIdCamel, ToolUseIdCamel]
  const SHAPE_IDS := [ToolCallId, CallIdField, ToolUseId, CallIdCamel, ToolCallIdCamel, ToolUseIdCamel]
  const CONTENTS := [Content, Output, Result, TextField, Observation, Data]
  const ARGUMENTS := [Arguments, Input, Args, Parameters, Params, ArgumentsJson, InputJson]

  function ValueAt(m: Object, k: Field): Value {
    if k in m then m[k] else Null
  }

  function TextAt(m: Object, k: Field): string {
    if k in m && m[k].Text? then m[k].text else ""
  }

  function FirstText(m: Object, keys: seq<Field>): (r: string)
    ensures Trimmed(r)
  {
    if keys == [] then ""
    else if Trim(TextAt(m, keys[0])) != "" then Trim(TextAt(m, keys[0]))
    else FirstText(m, keys[1..])
  }

  function FirstExisting(m: Object, keys: seq<Field>): (r: Value)
    ensures r.Null? || exists k :: k in m && r == m[k]
  {
    if keys == [] then Null
    else if keys[0] in m && !m[keys[0]].Null? then m[keys[0]]
    else FirstExisting(m, keys[1..])
  }

  lemma FirstTextHead(m: Object, keys: seq<Field>, t: string)
    requires keys != [] && keys[0] in m && m[keys[0]] == Text(t) && Trimmed(t)
    requires t == "" ==> forall k :: k in keys[1..] ==> k !in m
    ensures FirstText(m, keys) == t
  {
    if t == "" {
      FirstTextNone(m, keys[1..]);
    }
  }

  lemma {:induction false} FirstTextNone(m: Object, keys: seq<Field>)
    requires forall k :: k in keys ==> k !in m
    ensures FirstText(m, keys) == ""
  {
    if keys != [] {
      assert keys[0] in keys;
      assert Trim("") == "";
      FirstTextNone(m, keys[1..]);
    }
  }

  lemma {:induction false} FirstExistingNone(m: Object, keys: seq<Field>)
    requires forall k :: k in keys ==> k !in m
    ensures FirstExisting(m, keys) == Null
  {
    if keys != [] {
      FirstExistingNone(m, keys[1..]);
    }
  }

  datatype RoleKind = Blank | Assistant | ToolRole | User | OtherRole

  function RoleOf(m: Object): string {
    Fold(Trim(TextAt(m, Role)))
  }

  function KindOfRole(role: string): RoleKind {
    if role == "" then Blank
    else if role == "assistant" then Assistant
    else if role == "tool" || role == "function" then ToolRole
    else if role == "user" then User
    else OtherRole
  }

  function KindOf(m: Object): RoleKind {
    KindOfRole(RoleOf(m))
  }

  datatype BlockKind = CallBlock | ResultBlock | TextBlock | OtherBlock

  function KindOfType(t: string): BlockKind {
    if t == "tool_result" || t == "function_call_output" || t == "tooloutput" || t == "tool_output" then ResultBlock
    else if t == "tool_use" || t == "function_call" || t == "tool_call" || t == "toolcall" || t == "tool_use_call"
      then CallBlock
    else if t == "text" || t == "input_text" || t == "output_text" then TextBlock
    else OtherBlock
  }

  function BlockOf(m: Object): BlockKind {
    KindOfType(Fold(Trim(TextAt(m, Type))))
  }

  predicate IsResultValue(v: Value) {
    v.Obj? && BlockOf(v.fields).ResultBlock?
  }

  lemma RoleFromText(m: Object, role: string)
    requires Role in m && m[Role] == Text(role) && Trim(role) == role && Fold(role) == role
    ensures RoleOf(m) == role
  {
  }

  lemma LiteralRoles()
    ensures Trim("tool") == "tool" == Fold("tool")
    ensures Trim("assistant") == "assistant" == Fold("assistant")
    ensures Trim("user") == "user" == Fold("user")
    ensures Trim("system") == "system" == Fold("system")
  {
    hide Fold, Trim;
    assert Fold("tool") == "tool";
    assert Fold("assistant") == "assistant";
    assert Fold("user") == "user";
    assert Fold("system") == "system";
  }

  lemma NoTypeNoBlock(m: Object)
    requires Type !in m
    ensures BlockOf(m) == OtherBlock
  {
    assert Trim("") == "" && Fold("") == "";
  }
}
