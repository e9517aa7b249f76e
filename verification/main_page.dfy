/**
 * The main page's view of a game's rows (MainPage): which rows the grid shows
 * under the column filters, how they are sorted, the frozen view that keeps a
 * captured list of ids on screen while rows are edited, and the handlers that
 * change the filters and the visible columns.
 *
 * Two conversions the page leaves to the JavaScript runtime are parameters:
 * `render`, Number.prototype.toString on a numeric cell, and `toNumber`,
 * Number() on a string, with None for NaN.
 */
module MainPage {
  import opened Common
  import opened Rows
  import opened FilterHeader
  import Lists

  /** A column's entry in the visible-columns table. */
  datatype ColumnConfig = ColumnConfig(visible: bool, columnType: Option<string>)

  // ---------------------------------------------------------------------
  // Which rows show something

  /** Some visible column holds a value other than null, undefined or ''. */
  predicate ShowsSomething(s: StatRow, visibleColumns: map<Column, ColumnConfig>) {
    exists key :: key in visibleColumns && visibleColumns[key].visible && !Blank(Get(s, key))
  }

  // ---------------------------------------------------------------------
  // Evaluating one condition

  /** A condition counts when it tests for blankness or carries a value. */
  predicate IsActive(c: Condition) {
    c.operator == "blank" || c.operator == "not_blank" || (c.value != NoValue && c.value != Text(""))
  }

  function ActiveConditions(f: Filter): (r: seq<Condition>)
    ensures forall c :: c in r <==> c in f.conditions && IsActive(c)
  {
    Lists.Filter(f.conditions, IsActive)
  }

  /** `(s[key] ?? '').toString()`. */
  function CellText(v: Val, render: real -> string): string {
    match v
    case Null => ""
    case Num(n) => render(n)
    case Str(s) => s
  }

  /** `(value ?? '')` as the text operand. */
  function OperandText(o: Operand): string {
    match o
    case Text(s) => s
    case _ => ""
  }

  /** A text column's test: the lower-cased cell against the lower-cased operand; unknown operators pass. */
  function EvaluateText(cell: Val, c: Condition, render: real -> string): bool {
    var cellVal := Lower(CellText(cell, render));
    var v := Lower(OperandText(c.value));
    match c.operator
    case "contains" => Contains(cellVal, v)
    case "not_contains" => !Contains(cellVal, v)
    case "equals" => cellVal == v
    case "not_equals" => cellVal != v
    case "starts_with" => StartsWith(cellVal, v)
    case "ends_with" => EndsWith(cellVal, v)
    case "blank" => Trim(cellVal) == ""
    case "not_blank" => Trim(cellVal) != ""
    case _ => true
  }

  /** Number() of a non-blank cell. */
  function CellNumber(v: Val, toNumber: string -> Option<real>): Option<real> {
    match v
    case Null => None
    case Num(n) => Some(n)
    case Str(s) => toNumber(s)
  }

  /** Number() of an operand; a range object or a missing end is NaN. */
  function OperandNumber(o: Option<string>, toNumber: string -> Option<real>): Option<real> {
    if o.Some? then toNumber(o.value) else None
  }

  function Single(o: Operand): Option<string> {
    if o.Text? then Some(o.s) else None
  }

  /**
   * A numeric column's test. Blank holds for null and ''; every other operator
   * fails on a blank or non-numeric cell or a non-numeric operand; between is
   * inclusive; unknown operators fail.
   */
  function EvaluateNumber(cell: Val, c: Condition, toNumber: string -> Option<real>): bool {
    if c.operator == "blank" then Blank(cell)
    else if c.operator == "not_blank" then !Blank(cell)
    else if Blank(cell) then false
    else
      var n := CellNumber(cell, toNumber);
      if n.None? then false
      else if c.operator == "between" then
        var lo := if c.value.Bounds? then OperandNumber(c.value.min, toNumber) else None;
        var hi := if c.value.Bounds? then OperandNumber(c.value.max, toNumber) else None;
        lo.Some? && hi.Some? && lo.value <= n.value <= hi.value
      else
        var w := OperandNumber(Single(c.value), toNumber);
        match c.operator
        case "equals" => w.Some? && n.value == w.value
        case "not_equals" => w.Some? && n.value != w.value
        case "lt" => w.Some? && n.value < w.value
        case "lte" => w.Some? && n.value <= w.value
        case "gt" => w.Some? && n.value > w.value
        case "gte" => w.Some? && n.value >= w.value
        case _ => false
  }

  predicate IsNumberType(columnType: Option<string>) {
    columnType.Some? && columnType.value in ["int2", "int4", "int8", "float4", "float8", "numeric"]
  }

  function Evaluate(cell: Val, isNumber: bool, c: Condition, render: real -> string, toNumber: string -> Option<real>): bool {
    if isNumber then EvaluateNumber(cell, c, toNumber) else EvaluateText(cell, c, render)
  }

  /** On text columns the negated operators are exact complements. */
  lemma TextNegations(cell: Val, c: Condition, render: real -> string)
    ensures EvaluateText(cell, c.(operator := "not_contains"), render) == !EvaluateText(cell, c.(operator := "contains"), render)
    ensures EvaluateText(cell, c.(operator := "not_equals"), render) == !EvaluateText(cell, c.(operator := "equals"), render)
    ensures EvaluateText(cell, c.(operator := "not_blank"), render) == !EvaluateText(cell, c.(operator := "blank"), render)
  {
  }

  /** Text comparisons ignore the case of both the cell and the operand. */
  lemma TextEqualsIgnoresCase(s: string, t: string, render: real -> string)
    ensures EvaluateText(Str(s), Condition(None, "equals", Text(t)), render) == (Lower(s) == Lower(t))
    ensures EvaluateText(Str(Lower(s)), Condition(None, "equals", Text(t)), render) == EvaluateText(Str(s), Condition(None, "equals", Text(Lower(t))), render)
  {
    LowerIdempotent(s);
    LowerIdempotent(t);
  }

  /**
   * On numeric columns blank and not_blank are complements, but equals and
   * not_equals are not: both fail on a blank or non-numeric cell or operand.
   * Between is the conjunction of gte on its lower end and lte on its upper end.
   */
  lemma NumberOperators(cell: Val, lo: string, hi: string, toNumber: string -> Option<real>)
    ensures EvaluateNumber(cell, Condition(None, "not_blank", NoValue), toNumber) == !EvaluateNumber(cell, Condition(None, "blank", NoValue), toNumber)
    ensures !(EvaluateNumber(cell, Condition(None, "equals", Text(lo)), toNumber) && EvaluateNumber(cell, Condition(None, "not_equals", Text(lo)), toNumber))
    ensures (Blank(cell) || CellNumber(cell, toNumber).None? || toNumber(lo).None?) ==>
      !EvaluateNumber(cell, Condition(None, "equals", Text(lo)), toNumber) && !EvaluateNumber(cell, Condition(None, "not_equals", Text(lo)), toNumber)
    ensures EvaluateNumber(cell, Condition(None, "between", Bounds(Some(lo), Some(hi))), toNumber)
      == (EvaluateNumber(cell, Condition(None, "gte", Text(lo)), toNumber) && EvaluateNumber(cell, Condition(None, "lte", Text(hi)), toNumber))
  {
  }

  predicate KnownTextOperator(op: string) {
    op in ["contains", "not_contains", "equals", "not_equals", "starts_with", "ends_with", "blank", "not_blank"]
  }

  predicate KnownNumberOperator(op: string) {
    op in ["blank", "not_blank", "equals", "not_equals", "lt", "lte", "gt", "gte", "between"]
  }

  /** An operator the column's type does not know lets every row through a text column and none through a numeric one. */
  lemma UnknownOperators(cell: Val, c: Condition, render: real -> string, toNumber: string -> Option<real>)
    ensures !KnownTextOperator(c.operator) ==> EvaluateText(cell, c, render)
    ensures !KnownNumberOperator(c.operator) ==> !EvaluateNumber(cell, c, toNumber)
  {
  }

  // ---------------------------------------------------------------------
  // Folding a column's conditions

  /** One step of the fold: the first result seeds it; later ones join by their logic ('AND' when unset); any other logic leaves it. */
  function Combine(acc: Option<bool>, c: Condition, r: bool): (next: Option<bool>)
    ensures next.Some?
  {
    if acc.None? then Some(r)
    else
      var logic := if Truthy(c.logic) then c.logic.value else "AND";
      if logic == "AND" then Some(acc.value && r)
      else if logic == "OR" then Some(acc.value || r)
      else acc
  }

  /** The fold over a column's active conditions, left to right, with `eval` testing one condition. */
  function FoldConditions(conds: seq<Condition>, eval: Condition -> bool): (r: Option<bool>)
    ensures r.None? <==> conds == []
  {
    if conds == [] then None
    else
      var last := conds[|conds| - 1];
      Combine(FoldConditions(conds[..|conds| - 1], eval), last, eval(last))
  }

  /** The test of one condition against a row's cell, by the column's type. */
  function Evaluator(cell: Val, isNumber: bool, render: real -> string, toNumber: string -> Option<real>): Condition -> bool {
    (c: Condition) => Evaluate(cell, isNumber, c, render, toNumber)
  }

  /** Whether one column's filter lets the row through; a column with no active condition passes it. */
  function ColumnPasses(s: StatRow, key: Column, f: Filter, visibleColumns: map<Column, ColumnConfig>, render: real -> string, toNumber: string -> Option<real>): (ok: bool)
    ensures ActiveConditions(f) == [] ==> ok
  {
    var isNumber := key in visibleColumns && IsNumberType(visibleColumns[key].columnType);
    FoldConditions(ActiveConditions(f), Evaluator(Get(s, key), isNumber, render, toNumber)).GetOr(true)
  }

  /** The loop that folds one column's active conditions. */
  method EvaluateColumn(s: StatRow, key: Column, f: Filter, visibleColumns: map<Column, ColumnConfig>, render: real -> string, toNumber: string -> Option<real>)
    returns (ok: bool)
    ensures ok == ColumnPasses(s, key, f, visibleColumns, render, toNumber)
  {
    var activeConditions := ActiveConditions(f);
    var isNumber := key in visibleColumns && IsNumberType(visibleColumns[key].columnType);
    var cell := Get(s, key);
    var result: Option<bool> := None;
    for i := 0 to |activeConditions|
      invariant result == FoldConditions(activeConditions[..i], Evaluator(cell, isNumber, render, toNumber))
    {
      var cond := activeConditions[i];
      var condResult := Evaluate(cell, isNumber, cond, render, toNumber);
      assert activeConditions[..i + 1][..i] == activeConditions[..i];
      result := Combine(result, cond, condResult);
    }
    assert activeConditions[..|activeConditions|] == activeConditions;
    ok := result.GetOr(true);
  }

  predicate JoinsByAnd(c: Condition) {
    !Truthy(c.logic) || c.logic.value == "AND"
  }

  /** With every condition after the first joined by AND, the fold is the conjunction of all results; with OR, the disjunction. */
  lemma {:induction false} FoldAndOr(conds: seq<Condition>, eval: Condition -> bool)
    requires conds != []
    ensures (forall k :: 0 < k < |conds| ==> JoinsByAnd(conds[k])) ==>
      FoldConditions(conds, eval).value == forall k :: 0 <= k < |conds| ==> eval(conds[k])
    ensures (forall k :: 0 < k < |conds| ==> conds[k].logic == Some("OR")) ==>
      FoldConditions(conds, eval).value == exists k :: 0 <= k < |conds| && eval(conds[k])
  {
    var init := conds[..|conds| - 1];
    if init != [] {
      FoldAndOr(init, eval);
      assert forall k :: 0 <= k < |init| ==> init[k] == conds[k];
    }
  }

  // ---------------------------------------------------------------------
  // The filtered list

  predicate PassesFilters(s: StatRow, filters: map<Column, Filter>, visibleColumns: map<Column, ColumnConfig>, render: real -> string, toNumber: string -> Option<real>) {
    forall key :: key in filters ==> ColumnPasses(s, key, filters[key], visibleColumns, render, toNumber)
  }

  /** `baseFilteredStats`: the rows that show something and pass every column's filter, in list order. */
  function BaseFiltered(stats: seq<StatRow>, visibleColumns: map<Column, ColumnConfig>, filters: map<Column, Filter>, render: real -> string, toNumber: string -> Option<real>): (r: seq<StatRow>)
    ensures forall s :: s in r <==> s in stats && ShowsSomething(s, visibleColumns) && PassesFilters(s, filters, visibleColumns, render, toNumber)
    ensures |r| <= |stats|
    ensures forall s :: multiset(r)[s]
                        == if ShowsSomething(s, visibleColumns) && PassesFilters(s, filters, visibleColumns, render, toNumber)
                           then multiset(stats)[s] else 0
  {
    var shown := Lists.Filter(stats, (s: StatRow) => ShowsSomething(s, visibleColumns));
    Lists.FilterMultiset(stats, (s: StatRow) => ShowsSomething(s, visibleColumns));
    Lists.FilterMultiset(shown, (s: StatRow) => PassesFilters(s, filters, visibleColumns, render, toNumber));
    Lists.Filter(shown, (s: StatRow) => PassesFilters(s, filters, visibleColumns, render, toNumber))
  }

  /** The filtered rows stay in list order: a row added at the end is kept last, or dropped. */
  lemma BaseFilteredSnoc(stats: seq<StatRow>, s: StatRow, visibleColumns: map<Column, ColumnConfig>, filters: map<Column, Filter>, render: real -> string, toNumber: string -> Option<real>)
    ensures BaseFiltered(stats + [s], visibleColumns, filters, render, toNumber)
            == BaseFiltered(stats, visibleColumns, filters, render, toNumber)
               + (if ShowsSomething(s, visibleColumns) && PassesFilters(s, filters, visibleColumns, render, toNumber) then [s] else [])
  {
    var shows := (s: StatRow) => ShowsSomething(s, visibleColumns);
    var passes := (s: StatRow) => PassesFilters(s, filters, visibleColumns, render, toNumber);
    Lists.FilterSnoc(stats, s, shows);
    Lists.FilterAppend(Lists.Filter(stats, shows), if shows(s) then [s] else [], passes);
    if shows(s) {
      Lists.FilterSnoc([], s, passes);
      assert [] + [s] == [s];
    }
  }

  // ---------------------------------------------------------------------
  // The frozen view

  /** `idToRow.get(id)`: the map is built in list order, so the last row with the id wins. */
  function RowById(stats: seq<StatRow>, id: string): (r: Option<StatRow>)
    ensures r.Some? ==> r.value in stats && r.value.id == id
    ensures r.None? <==> forall k :: 0 <= k < |stats| ==> stats[k].id != id
  {
    if stats == [] then None
    else if stats[|stats| - 1].id == id then Some(stats[|stats| - 1])
    else
      var r := RowById(stats[..|stats| - 1], id);
      assert forall k :: 0 <= k < |stats| - 1 ==> stats[..|stats| - 1][k] == stats[k];
      r
  }

  predicate HasId(stats: seq<StatRow>, id: string) {
    exists k :: 0 <= k < |stats| && stats[k].id == id
  }

  function HasIdIn(stats: seq<StatRow>): string -> bool {
    (id: string) => HasId(stats, id)
  }

  /** The captured ids, each looked up in the current list, dropping those no longer there. */
  function FrozenView(stats: seq<StatRow>, ids: seq<string>): seq<StatRow> {
    if ids == [] then []
    else
      var rest := FrozenView(stats, ids[1..]);
      var row := RowById(stats, ids[0]);
      if row.Some? then [row.value] + rest else rest
  }

  /**
   * The frozen view shows the captured ids still present, in captured order,
   * each as the current row with that id: edits show and deleted ids drop out.
   */
  lemma {:induction false} FrozenViewFollowsIds(stats: seq<StatRow>, ids: seq<string>)
    ensures Ids(FrozenView(stats, ids)) == Lists.Filter(ids, HasIdIn(stats))
    ensures forall k :: 0 <= k < |FrozenView(stats, ids)| ==> RowById(stats, FrozenView(stats, ids)[k].id) == Some(FrozenView(stats, ids)[k])
  {
    if ids != [] {
      FrozenViewFollowsIds(stats, ids[1..]);
      var rest := FrozenView(stats, ids[1..]);
      var row := RowById(stats, ids[0]);
      if row.Some? {
        assert Ids([row.value] + rest) == [ids[0]] + Ids(rest);
        assert HasIdIn(stats)(ids[0]) by {
          var k :| 0 <= k < |stats| && stats[k] == row.value;
        }
      } else {
        assert !HasIdIn(stats)(ids[0]);
      }
    }
  }

  predicate DistinctIds(stats: seq<StatRow>) {
    forall a, b :: 0 <= a < b < |stats| ==> stats[a].id != stats[b].id
  }

  /** Where ids are unique, looking up a row's own id finds that row. */
  lemma RowByOwnId(stats: seq<StatRow>, k: nat)
    requires DistinctIds(stats) && k < |stats|
    ensures RowById(stats, stats[k].id) == Some(stats[k])
  {
    var r := RowById(stats, stats[k].id).value;
    var j :| 0 <= j < |stats| && stats[j] == r;
  }

  /** Freezing a list of the current rows shows exactly those rows, in order. */
  lemma {:induction false} FrozenViewOfOwnRows(stats: seq<StatRow>, rows: seq<StatRow>)
    requires DistinctIds(stats)
    requires forall r :: r in rows ==> r in stats
    ensures FrozenView(stats, Ids(rows)) == rows
  {
    if rows != [] {
      assert Ids(rows)[1..] == Ids(rows[1..]);
      FrozenViewOfOwnRows(stats, rows[1..]);
      assert rows[0] in rows;
      var k :| 0 <= k < |stats| && stats[k] == rows[0];
      RowByOwnId(stats, k);
    }
  }

  // ---------------------------------------------------------------------
  // Sorting

  /** JavaScript's `<` on two cell values of the same kind. */
  predicate KeyLess(a: Val, b: Val) {
    (a.Num? && b.Num? && a.n < b.n) || (a.Str? && b.Str? && StrLess(a.s, b.s))
  }

  /** The comparator: null keys after all others in both directions; the rest by key, ascending or descending. */
  function Compare(a: StatRow, b: StatRow, cfg: SortConfig): int {
    var x, y := Get(a, cfg.key), Get(b, cfg.key);
    if x == Null && y == Null then 0
    else if x == Null then 1
    else if y == Null then -1
    else if KeyLess(x, y) then (if cfg.direction == Asc then -1 else 1)
    else if KeyLess(y, x) then (if cfg.direction == Asc then 1 else -1)
    else 0
  }

  function SortLe(cfg: SortConfig): (StatRow, StatRow) -> bool {
    (a: StatRow, b: StatRow) => Compare(a, b, cfg) <= 0
  }

  /** `sortedStats`: a stable sort of the shown rows with the comparator. */
  function SortedStats(rows: seq<StatRow>, cfg: SortConfig): seq<StatRow> {
    Lists.SortBy(rows, SortLe(cfg))
  }

  /** Every column holds values of one kind: numbers, or strings. */
  predicate NumericColumn(c: Column) {
    c in {ImportSeq, Timestamp, Set, RallyId, Quality, OurScore, OppScore}
  }

  lemma ColumnKind(r: StatRow, c: Column)
    ensures Get(r, c).Num? ==> NumericColumn(c)
    ensures Get(r, c).Str? ==> !NumericColumn(c)
  {
  }

  lemma KeyLessAsymmetric(x: Val, y: Val)
    ensures !(KeyLess(x, y) && KeyLess(y, x))
  {
    if x.Str? && y.Str? && StrLess(x.s, y.s) && StrLess(y.s, x.s) {
      StrLessTransitive(x.s, y.s, x.s);
      StrLessIrreflexive(x.s);
    }
  }

  lemma CompareTotal(a: StatRow, b: StatRow, cfg: SortConfig)
    ensures Compare(a, b, cfg) <= 0 || Compare(b, a, cfg) <= 0
  {
    KeyLessAsymmetric(Get(a, cfg.key), Get(b, cfg.key));
  }

  /** The non-strict order "not greater" on keys of one kind is transitive. */
  lemma NotLessTransitive(x: Val, y: Val, z: Val)
    requires (x.Num? && y.Num? && z.Num?) || (x.Str? && y.Str? && z.Str?)
    requires !KeyLess(y, x) && !KeyLess(z, y)
    ensures !KeyLess(z, x)
  {
    if x.Str? {
      StrLessTotal(x.s, y.s);
      StrLessTotal(y.s, z.s);
      if StrLess(z.s, x.s) {
        if x.s == y.s {
        } else if y.s == z.s {
        } else {
          StrLessTransitive(x.s, y.s, z.s);
          StrLessTransitive(z.s, x.s, z.s);
          StrLessIrreflexive(z.s);
        }
      }
    }
  }

  lemma CompareTransitive(a: StatRow, b: StatRow, c: StatRow, cfg: SortConfig)
    requires Compare(a, b, cfg) <= 0 && Compare(b, c, cfg) <= 0
    ensures Compare(a, c, cfg) <= 0
  {
    var x, y, z := Get(a, cfg.key), Get(b, cfg.key), Get(c, cfg.key);
    ColumnKind(a, cfg.key);
    ColumnKind(b, cfg.key);
    ColumnKind(c, cfg.key);
    if x != Null && y != Null && z != Null {
      assert (x.Num? && y.Num? && z.Num?) || (x.Str? && y.Str? && z.Str?);
      KeyLessAsymmetric(x, y);
      KeyLessAsymmetric(y, z);
      if cfg.direction == Asc {
        NotLessTransitive(x, y, z);
      } else {
        NotLessTransitive(z, y, x);
      }
    }
  }

  /**
   * The sorted rows are a permutation of the shown rows; null keys come after all
   * others; the rest are in ascending or descending key order.
   */
  lemma SortedStatsOrder(rows: seq<StatRow>, cfg: SortConfig)
    ensures multiset(SortedStats(rows, cfg)) == multiset(rows)
    ensures var r := SortedStats(rows, cfg);
      forall i, j :: 0 <= i < j < |r| ==>
        (Get(r[i], cfg.key) == Null ==> Get(r[j], cfg.key) == Null)
        && (Get(r[i], cfg.key) != Null && Get(r[j], cfg.key) != Null ==>
              (cfg.direction == Asc ==> !KeyLess(Get(r[j], cfg.key), Get(r[i], cfg.key)))
              && (cfg.direction == Desc ==> !KeyLess(Get(r[i], cfg.key), Get(r[j], cfg.key))))
  {
    var le := SortLe(cfg);
    forall a, b ensures le(a, b) || le(b, a) {
      CompareTotal(a, b, cfg);
    }
    forall a, b, c | le(a, b) && le(b, c) ensures le(a, c) {
      CompareTransitive(a, b, c, cfg);
    }
    Lists.SortBySorted(rows, le);
    var r := SortedStats(rows, cfg);
    forall i, j | 0 <= i < j < |r|
      ensures (Get(r[i], cfg.key) == Null ==> Get(r[j], cfg.key) == Null)
        && (Get(r[i], cfg.key) != Null && Get(r[j], cfg.key) != Null ==>
              (cfg.direction == Asc ==> !KeyLess(Get(r[j], cfg.key), Get(r[i], cfg.key)))
              && (cfg.direction == Desc ==> !KeyLess(Get(r[i], cfg.key), Get(r[j], cfg.key))))
    {
      assert le(r[i], r[j]);
      assert Compare(r[i], r[j], cfg) <= 0;
      KeyLessAsymmetric(Get(r[i], cfg.key), Get(r[j], cfg.key));
    }
  }

  // ---------------------------------------------------------------------
  // Filter and column handlers

  /** What a column's filter is set to: typed text, nothing, or a list of conditions. */
  datatype FilterInput = Typed(s: string) | Cleared | Conditions(conds: seq<Condition>)

  /** `toggleColumn`: flips one column's visibility; the score column carries our and their score with it. */
  function ToggleColumn(prev: map<Column, ColumnConfig>, col: Column): (next: map<Column, ColumnConfig>)
    ensures var v := !(col in prev && prev[col].visible);
      col in next && next[col].visible == v
      && (col == Score ==> OurScore in next && OppScore in next && next[OurScore].visible == v && next[OppScore].visible == v)
    ensures forall k :: k != col && (col != Score || (k != OurScore && k != OppScore)) ==>
      (k in next <==> k in prev) && (k in prev ==> next[k] == prev[k])
    ensures forall k :: k in next ==> (k in prev ==> next[k].columnType == prev[k].columnType)
  {
    var isNowVisible := !(col in prev && prev[col].visible);
    if col == Score then
      prev[Score := Flipped(prev, Score, isNowVisible)][OurScore := Flipped(prev, OurScore, isNowVisible)][OppScore := Flipped(prev, OppScore, isNowVisible)]
    else prev[col := Flipped(prev, col, isNowVisible)]
  }

  /** `{ ...prev[k], visible }`. */
  function Flipped(prev: map<Column, ColumnConfig>, k: Column, visible: bool): ColumnConfig {
    if k in prev then prev[k].(visible := visible) else ColumnConfig(visible, None)
  }

  /** Toggling a column twice restores its visibility and those of the columns it carries. */
  lemma ToggleColumnTwice(prev: map<Column, ColumnConfig>, col: Column)
    requires col in prev
    requires col == Score ==> OurScore in prev && OppScore in prev && prev[OurScore].visible == prev[Score].visible && prev[OppScore].visible == prev[Score].visible
    ensures ToggleColumn(ToggleColumn(prev, col), col) == prev
  {
  }

  /** The main page's view state: the game's rows, the column table, the filters and the frozen ids. */
  class View {
    var stats: seq<StatRow>
    var visibleColumns: map<Column, ColumnConfig>
    var filters: map<Column, Filter>
    var frozen: bool
    var frozenRowIds: seq<string>
    var sortConfig: SortConfig

    constructor(stats0: seq<StatRow>, columns0: map<Column, ColumnConfig>)
      ensures stats == stats0 && visibleColumns == columns0 && filters == map[]
      ensures !frozen && frozenRowIds == [] && sortConfig == SortConfig(ImportSeq, Asc)
    {
      stats := stats0;
      visibleColumns := columns0;
      filters := map[];
      frozen := false;
      frozenRowIds := [];
      sortConfig := SortConfig(ImportSeq, Asc);
    }

    function Base(render: real -> string, toNumber: string -> Option<real>): seq<StatRow>
      reads this
    {
      BaseFiltered(stats, visibleColumns, filters, render, toNumber)
    }

    /** `filteredStats`: the filtered rows, or while frozen the captured ids looked up in the current rows. */
    function Filtered(render: real -> string, toNumber: string -> Option<real>): (r: seq<StatRow>)
      reads this
      ensures !frozen ==> r == Base(render, toNumber)
      ensures frozen ==> r == FrozenView(stats, frozenRowIds)
    {
      if !frozen then Base(render, toNumber) else FrozenView(stats, frozenRowIds)
    }

    function Sorted(render: real -> string, toNumber: string -> Option<real>): seq<StatRow>
      reads this
    {
      SortedStats(Filtered(render, toNumber), sortConfig)
    }

    /** `handleTextColumnFilterChange`: typed text becomes one condition; nothing or no conditions removes the column's filter. */
    method HandleTextColumnFilterChange(column: Column, value: FilterInput)
      modifies this
      ensures value.Typed? ==>
        var operator := if column in visibleColumns && visibleColumns[column].columnType == Some("text") then "contains" else "equals";
        filters == old(filters)[column := Filter([Condition(None, operator, Text(value.s))])]
      ensures value == Cleared || value == Conditions([]) ==> filters == old(filters) - {column}
      ensures value.Conditions? && value.conds != [] ==> filters == old(filters)[column := Filter(value.conds)]
      ensures stats == old(stats) && visibleColumns == old(visibleColumns) && frozen == old(frozen)
      ensures frozenRowIds == old(frozenRowIds) && sortConfig == old(sortConfig)
    {
      var colType := if column in visibleColumns then visibleColumns[column].columnType else None;
      var next := filters;
      var isEmpty := value == Cleared || value == Conditions([]);
      if value.Typed? {
        var operator := if colType == Some("text") then "contains" else "equals";
        next := next[column := Filter([Condition(None, operator, Text(value.s))])];
      } else if isEmpty {
        next := next - {column};
      } else {
        next := next[column := Filter(value.conds)];
      }
      filters := next;
    }

    method ToggleColumnVisibility(col: Column)
      modifies this
      ensures visibleColumns == ToggleColumn(old(visibleColumns), col)
      ensures stats == old(stats) && filters == old(filters) && frozen == old(frozen)
      ensures frozenRowIds == old(frozenRowIds) && sortConfig == old(sortConfig)
    {
      visibleColumns := ToggleColumn(visibleColumns, col);
    }

    /** `setFilterFrozenSafe`: freezing captures the ids of the rows the filters show now. */
    method SetFilterFrozen(next: bool, render: real -> string, toNumber: string -> Option<real>)
      modifies this
      ensures frozen == next
      ensures next ==> frozenRowIds == Ids(old(Base(render, toNumber)))
      ensures !next ==> frozenRowIds == old(frozenRowIds)
      ensures stats == old(stats) && visibleColumns == old(visibleColumns) && filters == old(filters) && sortConfig == old(sortConfig)
      ensures next && DistinctIds(stats) ==> Filtered(render, toNumber) == old(Base(render, toNumber))
    {
      if next {
        frozenRowIds := Ids(Base(render, toNumber));
        frozen := true;
        if DistinctIds(stats) {
          FrozenViewOfOwnRows(stats, Base(render, toNumber));
        }
      } else {
        frozen := false;
      }
    }

    /** An edit replaces the rows; while frozen the view follows the ids. */
    method SetStats(rows: seq<StatRow>)
      modifies this
      ensures stats == rows
      ensures visibleColumns == old(visibleColumns) && filters == old(filters) && frozen == old(frozen)
      ensures frozenRowIds == old(frozenRowIds) && sortConfig == old(sortConfig)
    {
      stats := rows;
    }

    method SetSort(cfg: SortConfig)
      modifies this
      ensures sortConfig == cfg
      ensures stats == old(stats) && visibleColumns == old(visibleColumns) && filters == old(filters)
      ensures frozen == old(frozen) && frozenRowIds == old(frozenRowIds)
    {
      sortConfig := cfg;
    }
  }

  /** Typing nothing into a column's filter leaves a condition that is not active, so every row passes that column. */
  lemma TypedEmptyPassesAll(s: StatRow, key: Column, operator: string, visibleColumns: map<Column, ColumnConfig>, render: real -> string, toNumber: string -> Option<real>)
    requires operator == "contains" || operator == "equals"
    ensures ColumnPasses(s, key, Filter([Condition(None, operator, Text(""))]), visibleColumns, render, toNumber)
  {
    assert ActiveConditions(Filter([Condition(None, operator, Text(""))])) == [];
  }
}
