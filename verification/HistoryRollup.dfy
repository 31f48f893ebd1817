// Pruning of chat history in internal/chathistory: the rows that go are rolled up so that the reported
// outcome and token totals do not change. Rows are in index order, newest first (updated_at, then
// created_at, descending); both the rollup query and the delete read that order.
module HistoryRollup {
  // A normalized model name; the empty name has already been replaced by the default one.
  type Model(==, !new)

  datatype Option<T> = None | Some(value: T)

  datatype Totals = Totals(requests: int, input: int, output: int, cacheHit: int, cacheMiss: int, total: int)

  const NO_TOKENS := Totals(0, 0, 0, 0, 0, 0)

  function Plus(a: Totals, b: Totals): Totals {
    Totals(a.requests + b.requests, a.input + b.input, a.output + b.output,
           a.cacheHit + b.cacheHit, a.cacheMiss + b.cacheMiss, a.total + b.total)
  }

  datatype Status = Success | Queued | Streaming | Error | Stopped | Other

  // neutralReason is whether the finish reason is one of context_cancelled and server_restart.
  datatype Row = Row(updatedAt: int, createdAt: int, status: Status, statusCode: int, neutralReason: bool,
                     model: Model, usage: Totals)

  predicate Newer(a: Row, b: Row) {
    a.updatedAt > b.updatedAt || (a.updatedAt == b.updatedAt && a.createdAt > b.createdAt)
  }

  // Being newer is a strict order in which only rows with the same two times are level.
  lemma NewerIsOrder(a: Row, b: Row, c: Row)
    ensures Newer(a, b) ==> !Newer(b, a)
    ensures Newer(a, b) && Newer(b, c) ==> Newer(a, c)
    ensures !Newer(a, b) && !Newer(b, a) <==> a.updatedAt == b.updatedAt && a.createdAt == b.createdAt
    ensures Newer(a, b) ==> a.updatedAt >= b.updatedAt
  {}

  // The order of the index on updated_at and created_at, both descending.
  predicate NewestFirst(rows: seq<Row>) {
    forall i, j :: 0 <= i < j < |rows| ==> !Newer(rows[j], rows[i])
  }

  // ------------------------------------------------------------ outcome classes

  datatype Outcomes = Outcomes(total: int, success: int, failed: int, active: int, neutral: int, excluded: int)

  const NO_OUTCOMES := Outcomes(0, 0, 0, 0, 0, 0)

  function AddOutcomes(a: Outcomes, b: Outcomes): Outcomes {
    Outcomes(a.total + b.total, a.success + b.success, a.failed + b.failed,
             a.active + b.active, a.neutral + b.neutral, a.excluded + b.excluded)
  }

  predicate Excluded(statusCode: int) {
    statusCode in {401, 403, 502, 504, 524}
  }

  // The class addSummaryCount puts a row in.
  function Classify(row: Row): Outcomes {
    match row.status
    case Success => Outcomes(1, 1, 0, 0, 0, 0)
    case Queued => Outcomes(1, 0, 0, 1, 0, 0)
    case Streaming => Outcomes(1, 0, 0, 1, 0, 0)
    case Other => Outcomes(1, 0, 0, 0, 1, 0)
    case _ =>
      if Excluded(row.statusCode) then Outcomes(1, 0, 0, 0, 0, 1)
      else if row.neutralReason then Outcomes(1, 0, 0, 0, 1, 0)
      else Outcomes(1, 0, 1, 0, 0, 0)
  }

  function Tally(rows: seq<Row>): Outcomes {
    if rows == [] then NO_OUTCOMES else AddOutcomes(Tally(rows[..|rows| - 1]), Classify(rows[|rows| - 1]))
  }

  predicate ClassesSum(o: Outcomes) {
    o.total == o.success + o.failed + o.active + o.neutral + o.excluded
  }

  // ------------------------------------------------------------ token totals

  // What a row adds to the token totals; a row without tokens adds nothing, not even a request.
  function RowTokens(row: Row): Totals {
    if row.usage.total <= 0 && row.usage.input <= 0 && row.usage.output <= 0 then NO_TOKENS
    else row.usage.(requests := 1)
  }

  predicate HasTokens(row: Row) {
    !(row.usage.total <= 0 && row.usage.input <= 0 && row.usage.output <= 0)
  }

  function SumTokens(rows: seq<Row>): Totals {
    if rows == [] then NO_TOKENS else Plus(SumTokens(rows[..|rows| - 1]), RowTokens(rows[|rows| - 1]))
  }

  function SumModel(rows: seq<Row>, m: Model): Totals {
    if rows == [] then NO_TOKENS
    else
      var rest, last := SumModel(rows[..|rows| - 1], m), rows[|rows| - 1];
      if last.model == m then Plus(rest, RowTokens(last)) else rest
  }

  function Of(byModel: map<Model, Totals>, m: Model): Totals {
    if m in byModel then byModel[m] else NO_TOKENS
  }

  lemma PlusLaws(a: Totals, b: Totals, c: Totals)
    ensures Plus(Plus(a, b), c) == Plus(a, Plus(b, c))
    ensures Plus(a, NO_TOKENS) == a
  {}

  lemma AddOutcomesLaws(a: Outcomes, b: Outcomes, c: Outcomes)
    ensures AddOutcomes(AddOutcomes(a, b), c) == AddOutcomes(a, AddOutcomes(b, c))
    ensures AddOutcomes(a, NO_OUTCOMES) == a
  {}

  // A sum over a + b is the sum over a and over b.
  lemma {:induction false} TallySplit(a: seq<Row>, b: seq<Row>)
    ensures Tally(a + b) == AddOutcomes(Tally(a), Tally(b))
    decreases |b|
  {
    hide AddOutcomes, Classify;
    if b == [] {
      assert a + b == a;
      AddOutcomesLaws(Tally(a), NO_OUTCOMES, NO_OUTCOMES);
    } else {
      var last := |b| - 1;
      TallySplit(a, b[..last]);
      assert (a + b)[..|a + b| - 1] == a + b[..last];
      AddOutcomesLaws(Tally(a), Tally(b[..last]), Classify(b[last]));
    }
  }

  lemma {:induction false} SumTokensSplit(a: seq<Row>, b: seq<Row>)
    ensures SumTokens(a + b) == Plus(SumTokens(a), SumTokens(b))
    decreases |b|
  {
    hide Plus, RowTokens;
    if b == [] {
      assert a + b == a;
      PlusLaws(SumTokens(a), NO_TOKENS, NO_TOKENS);
    } else {
      var last := |b| - 1;
      SumTokensSplit(a, b[..last]);
      assert (a + b)[..|a + b| - 1] == a + b[..last];
      PlusLaws(SumTokens(a), SumTokens(b[..last]), RowTokens(b[last]));
    }
  }

  lemma {:induction false} SumModelSplit(a: seq<Row>, b: seq<Row>, m: Model)
    ensures SumModel(a + b, m) == Plus(SumModel(a, m), SumModel(b, m))
    decreases |b|
  {
    hide Plus, RowTokens;
    if b == [] {
      assert a + b == a;
      PlusLaws(SumModel(a, m), NO_TOKENS, NO_TOKENS);
    } else {
      var last := |b| - 1;
      SumModelSplit(a, b[..last], m);
      assert (a + b)[..|a + b| - 1] == a + b[..last];
      PlusLaws(SumModel(a, m), SumModel(b[..last], m), RowTokens(b[last]));
    }
  }

  // One more row.
  lemma SumsExtend(rows: seq<Row>, i: nat, m: Model)
    requires i < |rows|
    ensures Tally(rows[..i + 1]) == AddOutcomes(Tally(rows[..i]), Classify(rows[i]))
    ensures SumTokens(rows[..i + 1]) == Plus(SumTokens(rows[..i]), RowTokens(rows[i]))
    ensures SumModel(rows[..i + 1], m)
         == if rows[i].model == m then Plus(SumModel(rows[..i], m), RowTokens(rows[i])) else SumModel(rows[..i], m)
  {
    hide Plus, AddOutcomes, Classify, RowTokens;
    assert rows[..i + 1][..i] == rows[..i];
  }

  lemma RowRequests(a: Totals, row: Row)
    ensures Plus(a, RowTokens(row)).requests == a.requests + if HasTokens(row) then 1 else 0
    ensures !HasTokens(row) ==> RowTokens(row) == NO_TOKENS
  {}

  // Rows without requests carry no tokens at all.
  lemma {:induction false} NoRequestsNoTokens(rows: seq<Row>)
    ensures SumTokens(rows).requests >= 0
    ensures SumTokens(rows).requests == 0 ==> SumTokens(rows) == NO_TOKENS
  {
    hide Plus, RowTokens, HasTokens;
    if rows != [] {
      var last := |rows| - 1;
      NoRequestsNoTokens(rows[..last]);
      RowRequests(SumTokens(rows[..last]), rows[last]);
      PlusLaws(SumTokens(rows[..last]), NO_TOKENS, NO_TOKENS);
    }
  }

  lemma ClassesAdd(a: Outcomes, b: Outcomes)
    requires ClassesSum(a) && ClassesSum(b)
    ensures ClassesSum(AddOutcomes(a, b)) && AddOutcomes(a, b).total == a.total + b.total
  {}

  lemma ClassifySums(row: Row)
    ensures ClassesSum(Classify(row)) && Classify(row).total == 1
  {
    hide Excluded;
  }

  // Every row is in exactly one class.
  lemma {:induction false} TallySums(rows: seq<Row>)
    ensures ClassesSum(Tally(rows)) && Tally(rows).total == |rows|
  {
    if rows != [] {
      var last := |rows| - 1;
      TallySums(rows[..last]);
      ClassifySums(rows[last]);
      ClassesAdd(Tally(rows[..last]), Classify(rows[last]));
      hide AddOutcomes, Classify, ClassesSum;
    }
  }

  // ------------------------------------------------------------ the sums, field by field

  function CountRows(rows: seq<Row>, p: Row -> bool): nat {
    if rows == [] then 0 else CountRows(rows[..|rows| - 1], p) + if p(rows[|rows| - 1]) then 1 else 0
  }

  function SumField(rows: seq<Row>, p: Row -> bool, f: Row -> int): int {
    if rows == [] then 0 else SumField(rows[..|rows| - 1], p, f) + if p(rows[|rows| - 1]) then f(rows[|rows| - 1]) else 0
  }

  predicate Ended(row: Row) {
    row.status == Error || row.status == Stopped
  }

  predicate Blocked(row: Row) {
    && Ended(row)
    && (row.statusCode == 401 || row.statusCode == 403 || row.statusCode == 502 || row.statusCode == 504 || row.statusCode == 524)
  }

  predicate Succeeded(row: Row) {
    row.status == Success
  }

  predicate Active(row: Row) {
    row.status == Queued || row.status == Streaming
  }

  predicate Neutral(row: Row) {
    row.status == Other || (Ended(row) && !Blocked(row) && row.neutralReason)
  }

  predicate Failed(row: Row) {
    Ended(row) && !Blocked(row) && !row.neutralReason
  }

  lemma ClassIs(row: Row)
    ensures Classify(row) == Outcomes(1, if Succeeded(row) then 1 else 0, if Failed(row) then 1 else 0,
                                      if Active(row) then 1 else 0, if Neutral(row) then 1 else 0,
                                      if Blocked(row) then 1 else 0)
  {}

  // Each class counts the rows with its status, and among the failed and stopped ones those with its status code and
  // finish reason.
  lemma {:induction false} ClassesCount(rows: seq<Row>)
    ensures Tally(rows) == Outcomes(|rows|, CountRows(rows, Succeeded), CountRows(rows, Failed), CountRows(rows, Active),
                                    CountRows(rows, Neutral), CountRows(rows, Blocked))
  {
    hide Classify, Succeeded, Failed, Active, Neutral, Blocked;
    if rows != [] {
      ClassesCount(rows[..|rows| - 1]);
      ClassIs(rows[|rows| - 1]);
    }
  }

  predicate Counted(row: Row) {
    row.usage.total > 0 || row.usage.input > 0 || row.usage.output > 0
  }

  // Each token total is the sum of its field over the rows that have tokens, and the requests are their number.
  lemma {:induction false} TokensAdd(rows: seq<Row>)
    ensures
      var t := SumTokens(rows);
      && t.requests == CountRows(rows, (row: Row) => Counted(row))
      && t.input == SumField(rows, (row: Row) => Counted(row), (row: Row) => row.usage.input)
      && t.output == SumField(rows, (row: Row) => Counted(row), (row: Row) => row.usage.output)
      && t.cacheHit == SumField(rows, (row: Row) => Counted(row), (row: Row) => row.usage.cacheHit)
      && t.cacheMiss == SumField(rows, (row: Row) => Counted(row), (row: Row) => row.usage.cacheMiss)
      && t.total == SumField(rows, (row: Row) => Counted(row), (row: Row) => row.usage.total)
  {
    if rows != [] {
      TokensAdd(rows[..|rows| - 1]);
    }
  }

  function RowsOf(rows: seq<Row>, m: Model): seq<Row> {
    if rows == [] then []
    else RowsOf(rows[..|rows| - 1], m) + if rows[|rows| - 1].model == m then [rows[|rows| - 1]] else []
  }

  // The totals of a model are those of its rows.
  lemma {:induction false} ModelTokensAdd(rows: seq<Row>, m: Model)
    ensures SumModel(rows, m) == SumTokens(RowsOf(rows, m))
  {
    hide Plus, RowTokens;
    if rows != [] {
      var front, last := rows[..|rows| - 1], rows[|rows| - 1];
      ModelTokensAdd(front, m);
      if last.model == m {
        assert (RowsOf(front, m) + [last])[..|RowsOf(front, m)|] == RowsOf(front, m);
      } else {
        assert RowsOf(rows, m) == RowsOf(front, m);
      }
    }
  }

  // ------------------------------------------------------------ how many rows stay

  const DISABLED_LIMIT := 0
  const DEFAULT_LIMIT := 20_000
  const MAX_LIMIT := 20_000
  const BURST_RETAINED := 500

  predicate AllowedLimit(limit: int) {
    limit in {DISABLED_LIMIT, 10, 20, 50, MAX_LIMIT}
  }

  function EffectiveLimit(limit: int): int {
    if AllowedLimit(limit) then limit else DEFAULT_LIMIT
  }

  // retainedHistoryCountAfterPrune: -1 when history is disabled.
  function Retained(total: nat, limit: int): int {
    if limit == DISABLED_LIMIT then -1
    else if EffectiveLimit(limit) == MAX_LIMIT then (if total >= MAX_LIMIT then BURST_RETAINED else MAX_LIMIT)
    else EffectiveLimit(limit)
  }

  // The number of rows a prune leaves.
  function Kept(total: nat, limit: int): (k: nat)
    ensures k <= total
  {
    var retain := Retained(total, limit);
    if retain < 0 || total <= retain then total else retain
  }

  // At most the limit, and below the maximum limit when that is in force.
  lemma KeptWithinLimit(total: nat, limit: int)
    requires limit != DISABLED_LIMIT
    ensures Kept(total, limit) <= EffectiveLimit(limit)
    ensures EffectiveLimit(limit) == MAX_LIMIT ==> Kept(total, limit) < MAX_LIMIT
    ensures EffectiveLimit(limit) != MAX_LIMIT ==> Kept(total, limit) == if total <= EffectiveLimit(limit) then total else EffectiveLimit(limit)
  {}

  // A history of 20,000 rows is cut to its newest 500 under the largest limit, which is also what any unknown limit
  // means, and is left alone below that; the smaller limits keep their number, and a disabled history keeps its rows.
  lemma KeptExactly(total: nat, limit: int)
    ensures limit == 0 ==> Kept(total, limit) == total
    ensures limit == 10 || limit == 20 || limit == 50 ==> Kept(total, limit) == if total <= limit then total else limit
    ensures limit != 0 && limit != 10 && limit != 20 && limit != 50 ==>
      Kept(total, limit) == if total >= 20_000 then 500 else total
  {}

  // ------------------------------------------------------------ the store

  datatype Rollup = Rollup(total: Totals, byModel: map<Model, Totals>)

  ghost predicate SameRollup(a: Rollup, b: Rollup) {
    a.total == b.total && forall m :: Of(a.byModel, m) == Of(b.byModel, m)
  }

  // r with the given rows added.
  ghost predicate RolledUp(before: Rollup, after: Rollup, rows: seq<Row>) {
    && after.total == Plus(before.total, SumTokens(rows))
    && forall m :: Of(after.byModel, m) == Plus(Of(before.byModel, m), SumModel(rows, m))
  }

  // addModelTotals for every model of delta, in any order.
  method AddByModel(base: map<Model, Totals>, delta: map<Model, Totals>) returns (sum: map<Model, Totals>)
    ensures forall m :: Of(sum, m) == Plus(Of(base, m), Of(delta, m))
  {
    hide Plus;
    forall m ensures Plus(Of(base, m), NO_TOKENS) == Of(base, m) {
      PlusLaws(Of(base, m), NO_TOKENS, NO_TOKENS);
    }
    sum := base;
    var todo := delta.Keys;
    while todo != {}
      invariant todo <= delta.Keys
      invariant forall m :: Of(sum, m) == if m in delta && m !in todo then Plus(Of(base, m), delta[m]) else Of(base, m)
      decreases |todo|
    {
      var m :| m in todo;
      todo := todo - {m};
      sum := sum[m := Plus(Of(sum, m), delta[m])];
    }
  }

  // The row loop shared by the report and by the rollup of pruned rows: rows without tokens are skipped.
  method Accumulate(start: Rollup, rows: seq<Row>) returns (total: Totals, byModel: map<Model, Totals>)
    ensures RolledUp(start, Rollup(total, byModel), rows)
  {
    hide Plus, RowTokens, HasTokens;
    total, byModel := start.total, start.byModel;
    PlusLaws(total, NO_TOKENS, NO_TOKENS);
    forall m ensures Plus(Of(byModel, m), NO_TOKENS) == Of(byModel, m) {
      PlusLaws(Of(byModel, m), NO_TOKENS, NO_TOKENS);
    }
    for i := 0 to |rows|
      invariant total == Plus(start.total, SumTokens(rows[..i]))
      invariant forall m :: Of(byModel, m) == Plus(Of(start.byModel, m), SumModel(rows[..i], m))
    {
      var row := rows[i];
      var usage := RowTokens(row);
      AccumulateStep(start, rows, i, row.model);
      forall m ensures SumModel(rows[..i + 1], m) == if row.model == m then Plus(SumModel(rows[..i], m), usage) else SumModel(rows[..i], m) {
        SumsExtend(rows, i, m);
      }
      if HasTokens(row) {
        total := Plus(total, usage);
        byModel := byModel[row.model := Plus(Of(byModel, row.model), usage)];
      }
    }
    assert rows[..|rows|] == rows;
  }

  lemma AccumulateStep(start: Rollup, rows: seq<Row>, i: nat, m: Model)
    requires i < |rows| && rows[i].model == m
    ensures
      var usage := RowTokens(rows[i]);
      && Plus(Plus(start.total, SumTokens(rows[..i])), usage) == Plus(start.total, SumTokens(rows[..i + 1]))
      && Plus(Plus(Of(start.byModel, m), SumModel(rows[..i], m)), usage) == Plus(Of(start.byModel, m), SumModel(rows[..i + 1], m))
      && (!HasTokens(rows[i]) ==> SumTokens(rows[..i + 1]) == SumTokens(rows[..i]) && SumModel(rows[..i + 1], m) == SumModel(rows[..i], m))
  {
    hide Plus, RowTokens, HasTokens;
    var usage := RowTokens(rows[i]);
    SumsExtend(rows, i, m);
    PlusLaws(start.total, SumTokens(rows[..i]), usage);
    PlusLaws(Of(start.byModel, m), SumModel(rows[..i], m), usage);
    RowRequests(NO_TOKENS, rows[i]);
    PlusLaws(SumTokens(rows[..i]), NO_TOKENS, NO_TOKENS);
    PlusLaws(SumModel(rows[..i], m), NO_TOKENS, NO_TOKENS);
  }

  method TallyRows(start: Outcomes, rows: seq<Row>) returns (o: Outcomes)
    ensures o == AddOutcomes(start, Tally(rows))
  {
    hide AddOutcomes, Classify;
    o := start;
    AddOutcomesLaws(start, NO_OUTCOMES, NO_OUTCOMES);
    for i := 0 to |rows|
      invariant o == AddOutcomes(start, Tally(rows[..i]))
    {
      SumsExtend(rows, i, rows[i].model);
      AddOutcomesLaws(start, Tally(rows[..i]), Classify(rows[i]));
      o := AddOutcomes(o, Classify(rows[i]));
    }
    assert rows[..|rows|] == rows;
  }

  const EMPTY_ROLLUP: Rollup := Rollup(NO_TOKENS, map[])

  // prunedMetricsLocked.
  method PrunedMetrics(pruned: seq<Row>) returns (outcomes: Outcomes, delta: Rollup)
    ensures outcomes == Tally(pruned) && RolledUp(EMPTY_ROLLUP, delta, pruned) && delta.total == SumTokens(pruned)
  {
    outcomes := TallyRows(NO_OUTCOMES, pruned);
    var total, byModel := Accumulate(EMPTY_ROLLUP, pruned);
    delta := Rollup(total, byModel);
  }

  lemma EmptySum()
    ensures SumTokens([]) == NO_TOKENS
    ensures forall m :: SumModel([], m) == NO_TOKENS
  {}

  lemma EmptyMapIsZero()
    ensures forall m :: Of(map[], m) == NO_TOKENS
  {}

  lemma DeltaIsSum(delta: Rollup, rows: seq<Row>)
    requires RolledUp(EMPTY_ROLLUP, delta, rows)
    ensures forall m :: Of(delta.byModel, m) == SumModel(rows, m)
  {
    hide SumModel;
  }

  lemma AddNothing(r: Rollup, rows: seq<Row>)
    requires SumTokens(rows) == NO_TOKENS && forall m :: SumModel(rows, m) == NO_TOKENS
    ensures RolledUp(r, r, rows)
  {
    hide SumTokens, SumModel;
  }

  // Rolling up what is dropped leaves every reported outcome count as it was.
  lemma OutcomesConserved(rollup: Outcomes, kept: seq<Row>, pruned: seq<Row>)
    ensures AddOutcomes(AddOutcomes(rollup, Tally(pruned)), Tally(kept)) == AddOutcomes(rollup, Tally(kept + pruned))
    ensures ClassesSum(rollup) ==> ClassesSum(AddOutcomes(rollup, Tally(pruned)))
  {
    TallySplit(kept, pruned);
    TallySums(pruned);
    hide Tally;
  }

  // The same for tokens, overall and per model.
  lemma TokensConserved(before: Rollup, after: Rollup, kept: seq<Row>, pruned: seq<Row>)
    requires RolledUp(before, after, pruned)
    ensures Plus(after.total, SumTokens(kept)) == Plus(before.total, SumTokens(kept + pruned))
    ensures Plus(after.total, SumTokens(kept + pruned)) == Plus(Plus(before.total, SumTokens(kept + pruned)), SumTokens(pruned))
    ensures forall m :: Plus(Of(after.byModel, m), SumModel(kept, m)) == Plus(Of(before.byModel, m), SumModel(kept + pruned, m))
    ensures forall m ::
      Plus(Of(after.byModel, m), SumModel(kept + pruned, m))
        == Plus(Plus(Of(before.byModel, m), SumModel(kept + pruned, m)), SumModel(pruned, m))
  {
    hide SumTokens, SumModel, Plus;
    SumTokensSplit(kept, pruned);
    PlusExchange(before.total, SumTokens(pruned), SumTokens(kept));
    forall m
      ensures Plus(Of(after.byModel, m), SumModel(kept, m)) == Plus(Of(before.byModel, m), SumModel(kept + pruned, m))
      ensures Plus(Of(after.byModel, m), SumModel(kept + pruned, m))
           == Plus(Plus(Of(before.byModel, m), SumModel(kept + pruned, m)), SumModel(pruned, m))
    {
      SumModelSplit(kept, pruned, m);
      PlusExchange(Of(before.byModel, m), SumModel(pruned, m), SumModel(kept, m));
    }
  }

  lemma PlusExchange(b: Totals, p: Totals, k: Totals)
    ensures Plus(Plus(b, p), k) == Plus(b, Plus(k, p))
    ensures Plus(Plus(b, p), Plus(k, p)) == Plus(Plus(b, Plus(k, p)), p)
  {}

  lemma PlusCancels(a: Totals, b: Totals)
    ensures Plus(a, b) == a <==> b == NO_TOKENS
  {}

  lemma RolledUpIntro(before: Rollup, after: Rollup, delta: Rollup, rows: seq<Row>)
    requires RolledUp(EMPTY_ROLLUP, delta, rows)
    requires after.total == Plus(before.total, SumTokens(rows))
    requires forall m :: Of(after.byModel, m) == Plus(Of(before.byModel, m), Of(delta.byModel, m))
    ensures RolledUp(before, after, rows)
  {
    DeltaIsSum(delta, rows);
    hide SumTokens, SumModel, Plus;
  }

  lemma AgreementKept(a: Rollup, b: Rollup, a': Rollup, b': Rollup, rows: seq<Row>)
    requires SameRollup(a, b) && RolledUp(a, a', rows) && RolledUp(b, b', rows)
    ensures SameRollup(a', b')
  {
    hide SumTokens, SumModel, Plus;
  }

  class Store {
    var rows: seq<Row>
    var limit: int
    var outcomeRollup: Outcomes
    // The rollup kept beside the rows, and the one in the dedicated token database when that is open.
    var legacy: Rollup
    var dedicated: Option<Rollup>

    constructor (rows: seq<Row>, limit: int, dedicated: bool)
      ensures this.rows == rows && this.limit == limit && outcomeRollup == NO_OUTCOMES
      ensures legacy == EMPTY_ROLLUP && this.dedicated == (if dedicated then Some(EMPTY_ROLLUP) else None)
    {
      this.rows, this.limit, outcomeRollup, legacy := rows, limit, NO_OUTCOMES, EMPTY_ROLLUP;
      this.dedicated := if dedicated then Some(EMPTY_ROLLUP) else None;
    }

    // The rollup that reports start from.
    function TokenRollup(): Rollup
      reads `legacy, `dedicated
    {
      if dedicated.Some? then dedicated.value else legacy
    }

    ghost function ReportedOutcomes(): Outcomes
      reads `rows, `outcomeRollup
    {
      AddOutcomes(outcomeRollup, Tally(rows))
    }

    ghost function ReportedTokens(): Totals
      reads `rows, `legacy, `dedicated
    {
      Plus(TokenRollup().total, SumTokens(rows))
    }

    ghost function ReportedModel(m: Model): Totals
      reads `rows, `legacy, `dedicated
    {
      Plus(Of(TokenRollup().byModel, m), SumModel(rows, m))
    }

    ghost predicate RollupsAgree()
      reads `legacy, `dedicated
    {
      dedicated.Some? ==> SameRollup(legacy, dedicated.value)
    }

    // OutcomeStats: the rollup, then every retained row.
    method OutcomeStats() returns (stats: Outcomes, eligible: int)
      ensures stats == ReportedOutcomes() && eligible == stats.success + stats.failed
      ensures ClassesSum(outcomeRollup) ==> ClassesSum(stats)
    {
      stats := TallyRows(outcomeRollup, rows);
      TallySums(rows);
      if ClassesSum(outcomeRollup) {
        ClassesAdd(outcomeRollup, Tally(rows));
      }
      hide ClassesSum, Tally, AddOutcomes;
      eligible := stats.success + stats.failed;
    }

    // The overall and per-model totals of TokenUsageStats.
    method TokenUsageStats() returns (total: Totals, byModel: map<Model, Totals>)
      ensures total == ReportedTokens() && forall m :: Of(byModel, m) == ReportedModel(m)
    {
      hide Plus, SumTokens, SumModel, Of;
      total, byModel := Accumulate(TokenRollup(), rows);
    }

    // addTokenRollupLocked. The dedicated database commits on its own; legacy' is what the enclosing transaction
    // will hold if it commits.
    method AddTokenRollup(ghost pruned: seq<Row>, delta: Rollup) returns (legacy': Rollup)
      requires RolledUp(EMPTY_ROLLUP, delta, pruned) && delta.total == SumTokens(pruned)
      modifies `dedicated
      ensures RolledUp(legacy, legacy', pruned)
      ensures dedicated.Some? <==> old(dedicated).Some?
      ensures dedicated.Some? ==> RolledUp(old(dedicated).value, dedicated.value, pruned)
    {
      hide *;
      NoRequestsNoTokens(pruned);
      DeltaIsSum(delta, pruned);
      EmptyMapIsZero();
      if delta.total.requests <= 0 && delta.byModel == map[] {
        AddNothing(legacy, pruned);
        if dedicated.Some? {
          AddNothing(dedicated.value, pruned);
        }
        return legacy;
      }
      var sum := AddByModel(legacy.byModel, delta.byModel);
      legacy' := Rollup(Plus(legacy.total, delta.total), sum);
      RolledUpIntro(legacy, legacy', delta, pruned);
      if dedicated.Some? {
        PlusLaws(dedicated.value.total, NO_TOKENS, NO_TOKENS);
        var mirrored := AddByModel(dedicated.value.byModel, delta.byModel);
        dedicated := Some(Rollup(
          if delta.total.requests > 0 then Plus(dedicated.value.total, delta.total) else dedicated.value.total, mirrored));
        RolledUpIntro(old(dedicated).value, dedicated.value, delta, pruned);
      }
    }

    // pruneLocked inside its transaction; commitOk is whether that transaction commits. A committed prune drops
    // only the oldest rows and changes no reported total. When the transaction fails after the dedicated
    // database has taken the rollup, the dropped rows come back and their tokens are counted twice.
    method Prune(commitOk: bool) returns (removed: int)
      modifies this
      ensures commitOk ==>
        rows == old(rows)[..Kept(|old(rows)|, old(limit))] && removed == |old(rows)| - |rows|
      ensures commitOk ==> limit == EffectiveLimit(old(limit))
      ensures commitOk ==> ReportedOutcomes() == old(ReportedOutcomes())
      ensures commitOk ==> ReportedTokens() == old(ReportedTokens())
      ensures commitOk ==> forall m :: ReportedModel(m) == old(ReportedModel(m))
      ensures commitOk && old(RollupsAgree()) ==> RollupsAgree()
      ensures old(ClassesSum(outcomeRollup)) ==> ClassesSum(outcomeRollup)
      ensures !commitOk ==> rows == old(rows) && limit == old(limit) && ReportedOutcomes() == old(ReportedOutcomes())
      ensures !commitOk ==>
        ReportedTokens() == Plus(old(ReportedTokens()), if old(dedicated).Some? then SumTokens(rows[Kept(|rows|, limit)..]) else NO_TOKENS)
      ensures !commitOk ==>
        (ReportedTokens() == old(ReportedTokens()) <==> old(dedicated).None? || SumTokens(rows[Kept(|rows|, limit)..]) == NO_TOKENS)
      ensures !commitOk ==> forall m ::
        ReportedModel(m)
          == Plus(old(ReportedModel(m)), if old(dedicated).Some? then SumModel(rows[Kept(|rows|, limit)..], m) else NO_TOKENS)
      ensures commitOk && old(NewestFirst(rows)) ==>
        forall i, j :: 0 <= i < |rows| <= j < |old(rows)| ==> !Newer(old(rows)[j], rows[i])
    {
      hide Plus, AddOutcomes, ClassesSum, SumTokens, SumModel, Tally, SameRollup, Of;
      PlusLaws(ReportedTokens(), NO_TOKENS, NO_TOKENS);
      assert rows[|rows|..] == [];
      EmptySum();
      forall m ensures Plus(old(ReportedModel(m)), NO_TOKENS) == old(ReportedModel(m)) {
        PlusLaws(old(ReportedModel(m)), NO_TOKENS, NO_TOKENS);
      }
      var retain := Retained(|rows|, limit);
      if limit == DISABLED_LIMIT {
        assert rows[..|rows|] == rows;
        return 0;
      }
      var limit' := EffectiveLimit(limit);
      if |rows| <= retain {
        assert rows[..|rows|] == rows;
        if commitOk {
          limit := limit';
        }
        return 0;
      }
      ghost var before := ReportedTokens();
      removed := Drop(retain, limit', commitOk);
      PlusCancels(before, SumTokens(old(rows)[retain..]));
    }

    // The prune proper: roll up and delete the rows after the first retain ones.
    method Drop(retain: nat, limit': int, commitOk: bool) returns (removed: int)
      requires retain < |rows|
      modifies this
      ensures commitOk ==> rows == old(rows)[..retain] && removed == |old(rows)| - retain && limit == limit'
      ensures commitOk ==> ReportedOutcomes() == old(ReportedOutcomes())
      ensures commitOk ==> ReportedTokens() == old(ReportedTokens())
      ensures commitOk ==> forall m :: ReportedModel(m) == old(ReportedModel(m))
      ensures commitOk && old(RollupsAgree()) ==> RollupsAgree()
      ensures old(ClassesSum(outcomeRollup)) ==> ClassesSum(outcomeRollup)
      ensures !commitOk ==> rows == old(rows) && limit == old(limit) && outcomeRollup == old(outcomeRollup)
      ensures !commitOk ==>
        ReportedTokens() == Plus(old(ReportedTokens()), if old(dedicated).Some? then SumTokens(rows[retain..]) else NO_TOKENS)
      ensures !commitOk ==> forall m ::
        ReportedModel(m) == Plus(old(ReportedModel(m)), if old(dedicated).Some? then SumModel(rows[retain..], m) else NO_TOKENS)
    {
      hide Plus, AddOutcomes, ClassesSum, SumTokens, SumModel, Tally, RolledUp, SameRollup, Of;
      var kept, pruned := rows[..retain], rows[retain..];
      assert rows == kept + pruned;
      ghost var rollup := TokenRollup();
      var outcomes, delta := PrunedMetrics(pruned);
      var legacy' := AddTokenRollup(pruned, delta);
      OutcomesConserved(outcomeRollup, kept, pruned);
      TokensConserved(rollup, if dedicated.Some? then dedicated.value else legacy', kept, pruned);
      PlusLaws(old(ReportedTokens()), NO_TOKENS, NO_TOKENS);
      forall m ensures Plus(old(ReportedModel(m)), NO_TOKENS) == old(ReportedModel(m)) {
        PlusLaws(old(ReportedModel(m)), NO_TOKENS, NO_TOKENS);
      }
      if dedicated.Some? && old(RollupsAgree()) {
        AgreementKept(legacy, old(dedicated).value, legacy', dedicated.value, pruned);
      }
      if commitOk {
        outcomeRollup := AddOutcomes(outcomeRollup, outcomes);
        legacy := legacy';
        rows, limit := kept, limit';
      }
      removed := |pruned|;
    }
  }

  // Eleven rows of one token each under a limit of ten: a prune whose transaction does not commit leaves every row
  // in place and reports one token, and one request, more than before.
  method FailedPruneCountsTwice(m: Model) returns (before: Totals, after: Totals)
    ensures after == Plus(before, Totals(1, 1, 0, 0, 0, 1))
  {
    var row := Row(0, 0, Success, 200, false, m, Totals(1, 1, 0, 0, 0, 1));
    var rows := [row, row, row, row, row, row, row, row, row, row, row];
    var store := new Store(rows, 10, true);
    var byModel;
    before, byModel := store.TokenUsageStats();
    var removed := store.Prune(false);
    after, byModel := store.TokenUsageStats();
    assert rows[10..] == [row];
    SumOfOne(row);
  }

  lemma SumOfOne(row: Row)
    ensures SumTokens([row]) == RowTokens(row)
  {
    assert [row][..0] == [];
    assert SumTokens([]) == NO_TOKENS;
  }
}
