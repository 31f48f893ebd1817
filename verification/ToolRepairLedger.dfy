/**
 * Which emitted result answers which emitted call: books kept on the repaired messages alone agree with
 * the calls that the repair has waiting.
 */
module ToolRepairLedger {
  import opened ToolFields
  import opened ToolRepair
  import opened ToolRepairTwice

  /** The calls read so far, the ids of those not answered yet, and the ids answered, in order. */
  datatype Books = Books(made: seq<Call>, open: multiset<string>, answered: seq<string>)

  const EMPTY := Books([], multiset{}, [])

  function NamedItems(items: seq<Value>): seq<Value> {
    if items == [] then []
    else
      var last := items[|items| - 1];
      NamedItems(items[..|items| - 1]) + if last.Obj? && CallName(last.fields) != "" then [last] else []
  }

  /** The calls an emitted message makes. */
  function EmittedCalls(m: Object): seq<Call> {
    if KindOf(m).Assistant? then PendingOfAll(NamedItems(CallItems(m))) else []
  }

  function Made(b: Books, calls: seq<Call>): Books {
    b.(made := b.made + calls, open := b.open + multiset(Ids(calls)))
  }

  /** A result answers one open call with its id, if there is one. */
  function Answered(b: Books, id: string): Books {
    if id in b.open then b.(open := b.open - multiset{id}, answered := b.answered + [id]) else b
  }

  function Post(b: Books, v: Value): Books {
    if !v.Obj? then b
    else if KindOf(v.fields).ToolRole? then Answered(b, TextAt(v.fields, ToolCallId))
    else Made(b, EmittedCalls(v.fields))
  }

  function PostAll(b: Books, out: seq<Value>): Books {
    if out == [] then b else Post(PostAll(b, out[..|out| - 1]), out[|out| - 1])
  }

  /** The books that correspond to a state of the repair. */
  function BooksOf(st: State): Books {
    Books(st.made, multiset(Ids(st.pending)), Ids(st.used))
  }

  lemma {:induction false} PostAppend(b: Books, a: seq<Value>, c: seq<Value>)
    ensures PostAll(b, a + c) == PostAll(PostAll(b, a), c)
    decreases |c|
  {
    hide Post;
    if c == [] {
      assert a + c == a;
    } else {
      PostAppend(b, a, c[..|c| - 1]);
      assert (a + c)[..|a + c| - 1] == a + c[..|c| - 1];
    }
  }

  lemma PostOne(b: Books, v: Value)
    ensures PostAll(b, [v]) == Post(b, v)
  {
    hide Post;
    assert [v][..0] == [];
    assert PostAll(b, []) == b;
  }

  lemma TakenBooks(st: State, i: nat, after: State)
    requires i < |st.pending|
    requires after == State(st.pending[..i] + st.pending[i + 1..], after.nextId, st.made, st.used + [st.pending[i]])
    ensures BooksOf(after) == Answered(BooksOf(st), st.pending[i].id)
  {
    hide Ids;
    var p := st.pending;
    var a, b, c := p[..i], p[i + 1..], [p[i]];
    assert p == a + c + b;
    IdsAppend(a, b);
    IdsAppend(a + c, b);
    IdsAppend(a, c);
    IdsAppend(st.used, c);
    OneId(p[i]);
  }

  /** A repaired result is posted as the repair matched it. */
  lemma ResultPosted(m: Object, st: State)
    requires Proper(st)
    ensures var (after, message) := RepairResult(m, st); PostAll(BooksOf(st), [message]) == BooksOf(after)
  {
    hide Consume, FirstText, ResultContent, KindOf, ToolMessage, Proper, Trim, Fold, Answered;
    var id, name := FirstText(m, RESULT_IDS), FirstText(m, CALL_NAMES);
    var (after, message) := RepairResult(m, st);
    var c := Consume(st, id, name);
    ConsumeNames(st, id, name);
    ToolMessageReads(c.id, c.name, ResultContent(m));
    PostOne(BooksOf(st), message);
    ConsumeTakes(st, id, name);
    if c.id in Ids(st.pending) {
      var i :| 0 <= i < |st.pending| && st.pending[i].id == c.id
        && after == State(st.pending[..i] + st.pending[i + 1..], st.nextId, st.made, st.used + [st.pending[i]]);
      TakenBooks(st, i, after);
    } else {
      NotOpen(st, c.id);
    }
  }

  lemma NotOpen(st: State, id: string)
    requires id !in Ids(st.pending)
    ensures Answered(BooksOf(st), id) == BooksOf(st)
  {
  }

  lemma {:induction false} SettledAreNamed(x: Externals, calls: seq<Value>)
    requires forall v :: v in calls ==> Settled(x, v)
    ensures NamedItems(calls) == calls
  {
    hide Settled, CallName;
    if calls != [] {
      var front, last := calls[..|calls| - 1], calls[|calls| - 1];
      assert calls == front + [last];
      SettledAreNamed(x, front);
      SettledCallStays(x, last, 0);
      NameDecides(x, last.fields, 0);
    }
  }

  lemma RecordedBooks(st: State, n: nat, calls: seq<Value>)
    ensures BooksOf(Record(st.(nextId := n), calls)) == Made(BooksOf(st), PendingOfAll(calls))
  {
    hide PendingOfAll;
    var made := PendingOfAll(calls);
    IdsAppend(st.pending, made);
    assert multiset(Ids(st.pending) + Ids(made)) == multiset(Ids(st.pending)) + multiset(Ids(made));
  }

  /** An assistant message with settled calls is posted as the repair recorded it. */
  lemma CallsPosted(x: Externals, m: Object, calls: seq<Value>, st: State, n: nat)
    requires KindOf(m).Assistant? && (forall v :: v in calls ==> Settled(x, v))
    requires ToolCalls in m && m[ToolCalls] == List(calls)
    ensures PostAll(BooksOf(st), [Obj(m)]) == BooksOf(Record(st.(nextId := n), calls))
  {
    hide KindOf, Settled, NamedItems, PendingOfAll, Made, BooksOf, Record;
    PostOne(BooksOf(st), Obj(m));
    SettledAreNamed(x, calls);
    RecordedBooks(st, n, calls);
  }

  lemma {:induction false} NoCallsNoNames(x: Externals, items: seq<Value>, n: nat)
    requires RepairCalls(x, items, n).0 == []
    ensures NamedItems(items) == []
  {
    hide RepairCall, CallName;
    if items != [] {
      var front, last := items[..|items| - 1], items[|items| - 1];
      NoCallsNoNames(x, front, n);
      if last.Obj? { NameDecides(x, last.fields, RepairCalls(x, front, n).1); }
    }
  }

  lemma MadeNothing(b: Books)
    ensures Made(b, []) == b
  {
    assert Ids([]) == [];
  }

  lemma NothingPosted(b: Books, m: Object)
    requires !KindOf(m).ToolRole? && EmittedCalls(m) == []
    ensures PostAll(b, [Obj(m)]) == b
  {
    hide KindOf, EmittedCalls, Made;
    PostOne(b, Obj(m));
    MadeNothing(b);
  }

  lemma AssistantPosted(x: Externals, m: Object, st: State)
    requires Lawful(x) && KindOf(m).Assistant?
    ensures var r := RepairAssistant(x, m, st); PostAll(BooksOf(st), r.out) == BooksOf(r.state)
  {
    hide RepairCalls, CallBlocks, Record, BlockOf, CallName, SideTexts, CallItems, KindOf, Settled, PostAll, BooksOf,
      NamedItems, PendingOfAll;
    var blocks := CallBlocks(ContentItems(m));
    var (calls, n) := RepairCalls(x, blocks, st.nextId);
    if calls != [] {
      RepairCallsSettle(x, blocks, st.nextId);
      var out := WithoutContent(m, SideTexts(x, ContentItems(m)))[ToolCalls := List(calls)];
      SameRole(m, out);
      CallsPosted(x, out, calls, st, n);
    } else {
      var (calls, n) := RepairCalls(x, CallItems(m), st.nextId);
      if calls != [] {
        RepairCallsSettle(x, CallItems(m), st.nextId);
        var out := m[ToolCalls := List(calls)];
        SameRole(m, out);
        CallsPosted(x, out, calls, st, n);
      } else {
        NoCallsNoNames(x, CallItems(m), st.nextId);
        NoPending();
        NothingPosted(BooksOf(st), m);
      }
    }
  }

  lemma CallItemPosted(x: Externals, m: Object, st: State)
    requires Lawful(x) && IsCallItem(m)
    ensures var (call, n) := RepairCall(x, m, st.nextId).value;
      PostAll(BooksOf(st), [Obj(CallItemMessage(call))]) == BooksOf(Record(st.(nextId := n), [call]))
  {
    hide RepairCall, RoleOf, Trim, Fold, Settled, Record, PendingOf, CallName, PostAll, BooksOf;
    NameDecides(x, m, st.nextId);
    RepairCallSettles(x, m, st.nextId);
    var (call, n) := RepairCall(x, m, st.nextId).value;
    CallItemStays(x, m, st);
    CallsPosted(x, CallItemMessage(call), [call], st, n);
  }

  lemma FlushedPosted(b: Books, m: Object, texts: seq<string>)
    requires KindOf(m).Blank? || KindOf(m).User? || KindOf(m).OtherRole?
    ensures PostAll(b, Flushed(RoleOf(m), texts)) == b
  {
    hide Trim, Fold, KindOfRole, RoleOf, Join, TextRole, BlockOf, FirstText, Post;
    if texts != [] {
      TextRoleKind(m);
      var role := TextRole(RoleOf(m));
      TextMessageStays(Externals(v => "", v => ""), role, texts, START);
      NothingPosted(b, Flushed(RoleOf(m), texts)[0].fields);
    }
  }

  lemma {:induction false} SplitPosted(m: Object, items: seq<Value>, st: State)
    requires KindOf(m).Blank? || KindOf(m).User? || KindOf(m).OtherRole?
    requires Good(st)
    ensures var s := SplitItems(RoleOf(m), items, st); PostAll(BooksOf(st), s.out) == BooksOf(s.state)
  {
    hide RepairResult, Proper, Conserved, BlockOf, BlockText, Trim, Flushed, KindOf, RoleOf, Post, BooksOf;
    if items != [] {
      var front, last := items[..|items| - 1], items[|items| - 1];
      SplitPosted(m, front, st);
      SplitKeeps(RoleOf(m), front, st);
      if IsResultValue(last) {
        var s := SplitItems(RoleOf(m), front, st);
        var message := RepairResult(last.fields, s.state).1;
        FlushedPosted(BooksOf(s.state), m, s.texts);
        ResultPosted(last.fields, s.state);
        PostAppend(BooksOf(st), s.out, Flushed(RoleOf(m), s.texts));
        PostAppend(BooksOf(st), s.out + Flushed(RoleOf(m), s.texts), [message]);
      }
    }
  }

  lemma SplitMessagePosted(m: Object, items: seq<Value>, st: State)
    requires KindOf(m).Blank? || KindOf(m).User? || KindOf(m).OtherRole?
    requires Good(st)
    ensures var s := SplitItems(RoleOf(m), items, st);
      PostAll(BooksOf(st), s.out + Flushed(RoleOf(m), s.texts)) == BooksOf(s.state)
  {
    hide Good, SplitItems, Flushed, KindOf, RoleOf, PostAll, BooksOf;
    var s := SplitItems(RoleOf(m), items, st);
    SplitPosted(m, items, st);
    FlushedPosted(BooksOf(s.state), m, s.texts);
    PostAppend(BooksOf(st), s.out, Flushed(RoleOf(m), s.texts));
  }

  /** What a message is repaired to is posted as the repair's state moves. */
  lemma MessagePosted(x: Externals, m: Object, st: State)
    requires Lawful(x) && Good(st)
    ensures var r := RepairMessage(x, m, st); PostAll(BooksOf(st), r.out) == BooksOf(r.state)
  {
    hide RepairResult, Proper, Conserved, Record, RepairCalls, RepairCall, BlockOf, CallName, KindOf, FirstText,
      SplitItems, RepairAssistant, ResultContent, RoleOf, Flushed, ResultBlocks, PostAll, BooksOf, CallItemMessage;
    if IsResultItem(m) {
      ResultPosted(m, st);
    } else if IsCallItem(m) {
      CallItemPosted(x, m, st);
    } else if KindOf(m).Assistant? {
      AssistantPosted(x, m, st);
    } else if ResultsOf(m) == [] {
      PlainStays(x, m, st);
      NothingPosted(BooksOf(st), m);
    } else {
      match ValueAt(m, Content)
      case List(items) =>
        SplitKeeps(RoleOf(m), items, st);
        SplitMessagePosted(m, items, st);
      case Obj(block) =>
        ResultPosted(block, st);
      case _ =>
    }
  }

  lemma {:induction false} RunPosted(x: Externals, items: seq<Value>, st: State)
    requires Lawful(x) && Good(st)
    ensures var r := RepairFrom(x, items, st); PostAll(BooksOf(st), r.out) == BooksOf(r.state)
  {
    hide RepairMessage, Good, Post, BooksOf;
    if items != [] {
      var front, last := items[..|items| - 1], items[|items| - 1];
      RunPosted(x, front, st);
      RunKeeps(x, front, st);
      if last.Obj? {
        var r := RepairFrom(x, front, st);
        MessagePosted(x, last.fields, r.state);
        PostAppend(BooksOf(st), r.out, RepairMessage(x, last.fields, r.state).out);
      }
    }
  }

  ghost predicate Balanced(b: Books) {
    multiset(b.answered) + b.open == multiset(Ids(b.made))
  }

  lemma MadeBalances(b: Books, calls: seq<Call>)
    requires Balanced(b)
    ensures Balanced(Made(b, calls))
  {
    hide Ids;
    IdsAppend(b.made, calls);
  }

  lemma AnsweredBalances(b: Books, id: string)
    requires Balanced(b)
    ensures Balanced(Answered(b, id))
  {
    hide Ids;
    if id in b.open {
      assert multiset(b.answered + [id]) == multiset(b.answered) + multiset{id};
    }
  }

  /** In any list of messages answered and open calls together are the calls made. */
  lemma {:induction false} BooksBalance(out: seq<Value>)
    ensures Balanced(PostAll(EMPTY, out))
  {
    if out == [] {
      assert Ids([]) == [];
    } else {
      hide KindOf, EmittedCalls, Made, Answered, Balanced;
      var b, last := PostAll(EMPTY, out[..|out| - 1]), out[|out| - 1];
      BooksBalance(out[..|out| - 1]);
      if last.Obj? {
        AnsweredBalances(b, TextAt(last.fields, ToolCallId));
        MadeBalances(b, EmittedCalls(last.fields));
      }
    }
  }

  /**
   * Read on its own, the repaired list makes the calls the repair made, its results answer the calls the
   * repair matched, in the same order and each at most once, and what is left open is what the repair has
   * waiting.
   */
  lemma EachCallAnsweredOnce(x: Externals, items: seq<Value>)
    requires Lawful(x)
    ensures var b, st := PostAll(EMPTY, Repair(x, items)), RepairFrom(x, items, START).state;
      && b == Books(st.made, multiset(Ids(st.pending)), Ids(st.used))
      && multiset(b.answered) + b.open == multiset(Ids(b.made))
      && multiset(st.used) + multiset(st.pending) == multiset(st.made)
  {
    hide RepairFrom, Proper, PostAll;
    StartIsGood();
    assert Ids([]) == [];
    assert BooksOf(START) == EMPTY;
    RunPosted(x, items, START);
    RunKeeps(x, items, START);
    BooksBalance(Repair(x, items));
  }
}
