/**
 * A column header of the database grid (SortableFilterHeader): the sort toggle,
 * the per-column filter menu's list of conditions, and the width clamp applied
 * while a column edge is dragged.
 */
module FilterHeader {
  import opened Common
  import opened Rows

  // ---------------------------------------------------------------------
  // Sorting

  datatype SortDirection = Asc | Desc

  /** The grid's sort: a column and a direction. */
  datatype SortConfig = SortConfig(key: Column, direction: SortDirection)

  /**
   * Clicking a header: ascending on a new column, then descending, then back to
   * the import order.
   */
  function ToggleSort(prev: SortConfig, column: Column): (r: SortConfig)
    ensures prev.key != column ==> r == SortConfig(column, Asc)
    ensures prev == SortConfig(column, Asc) ==> r == SortConfig(column, Desc)
    ensures prev == SortConfig(column, Desc) ==> r == SortConfig(ImportSeq, Asc)
  {
    if prev.key == column && prev.direction == Asc then SortConfig(column, Desc)
    else if prev.key == column && prev.direction == Desc then SortConfig(ImportSeq, Asc)
    else SortConfig(column, Asc)
  }

  /** Three clicks on a column other than the import order bring any sort back to ascending on that column, and so on round. */
  lemma ToggleSortCycle(prev: SortConfig, column: Column)
    requires column != ImportSeq
    ensures var once := ToggleSort(prev, column);
      ToggleSort(ToggleSort(ToggleSort(once, column), column), column) == once
  {
  }

  // ---------------------------------------------------------------------
  // Filter conditions

  /** A condition's operand: typed text, the two ends of a "between", or nothing. */
  datatype Operand = NoValue | Text(s: string) | Bounds(min: Option<string>, max: Option<string>)

  /** One condition: how it joins the previous one ('AND' or 'OR'), its operator and its operand. */
  datatype Condition = Condition(logic: Option<string>, operator: string, value: Operand)

  datatype Filter = Filter(conditions: seq<Condition>)

  const MAX_CONDITIONS: nat := 10

  /** The column types the menu offers operators for. */
  predicate IsFilterableType(columnType: Option<string>) {
    columnType.Some? && columnType.value in ["text", "numeric", "int", "int2", "int4", "int8", "float", "float4", "float8"]
  }

  /** The operator of the condition shown before any is stored: 'equals' for filterable non-text types. */
  function DefaultOperator(columnType: Option<string>): string {
    if IsFilterableType(columnType) && columnType != Some("text") then "equals" else "contains"
  }

  /** The filter the menu shows: the stored one when it has a condition, else one default condition with an empty value. */
  function EffectiveFilter(filterValue: Option<Filter>, columnType: Option<string>): (f: Filter)
    ensures f.conditions != []
    ensures filterValue.Some? && filterValue.value.conditions != [] ==> f == filterValue.value
    ensures (filterValue.None? || filterValue.value.conditions == []) ==>
      f.conditions == [Condition(None, DefaultOperator(columnType), Text(""))]
  {
    if filterValue.Some? && |filterValue.value.conditions| > 0 then filterValue.value
    else Filter([Condition(None, DefaultOperator(columnType), Text(""))])
  }

  /** The property of a condition an edit in the menu changes. */
  datatype Edit = SetLogic(logic: string) | SetOperator(operator: string) | SetValue(value: Operand)

  function Apply(c: Condition, e: Edit): Condition {
    match e
    case SetLogic(l) => c.(logic := Some(l))
    case SetOperator(o) => c.(operator := o)
    case SetValue(v) => c.(value := v)
  }

  /** `updateCondition`: condition `idx` gets the edit; every other condition, and the other properties of that one, stay. */
  function UpdateCondition(f: Filter, idx: nat, e: Edit): (r: Filter)
    requires idx < |f.conditions|
    ensures |r.conditions| == |f.conditions|
    ensures forall i :: 0 <= i < |f.conditions| && i != idx ==> r.conditions[i] == f.conditions[i]
    ensures e.SetLogic? ==> r.conditions[idx] == f.conditions[idx].(logic := Some(e.logic))
    ensures e.SetOperator? ==> r.conditions[idx] == f.conditions[idx].(operator := e.operator)
    ensures e.SetValue? ==> r.conditions[idx] == f.conditions[idx].(value := e.value)
  {
    Filter(f.conditions[idx := Apply(f.conditions[idx], e)])
  }

  /**
   * `addCondition`: at ten conditions nothing happens (None: no change is reported);
   * otherwise one empty AND condition is appended.
   */
  function AddCondition(f: Filter, columnType: Option<string>): (r: Option<Filter>)
    ensures r.None? <==> |f.conditions| >= MAX_CONDITIONS
    ensures r.Some? ==> |r.value.conditions| == |f.conditions| + 1 && r.value.conditions[..|f.conditions|] == f.conditions
    ensures r.Some? ==> r.value.conditions[|f.conditions|].logic == Some("AND") && r.value.conditions[|f.conditions|].value == Text("")
    ensures r.Some? ==> r.value.conditions[|f.conditions|].operator == (if columnType == Some("text") then "contains" else "equals")
  {
    if |f.conditions| >= MAX_CONDITIONS then None
    else
      var operator := if columnType == Some("text") then "contains" else "equals";
      Some(Filter(f.conditions + [Condition(Some("AND"), operator, Text(""))]))
  }

  /** `filter((_, i) => i !== idx)`: the conditions at every index but `idx`, in order. */
  function Without(cs: seq<Condition>, idx: nat): seq<Condition> {
    if idx < |cs| then cs[..idx] + cs[idx + 1..] else cs
  }

  /** `removeCondition`: drops exactly condition `idx`; removing the only one leaves one empty 'contains'. */
  function RemoveCondition(f: Filter, idx: nat): (r: Filter)
    ensures r.conditions != []
    ensures |f.conditions| > 1 && idx < |f.conditions| ==> r.conditions == f.conditions[..idx] + f.conditions[idx + 1..]
    ensures |f.conditions| == 1 && idx == 0 ==> r.conditions == [Condition(None, "contains", Text(""))]
  {
    var kept := Without(f.conditions, idx);
    Filter(if kept != [] then kept else [Condition(None, "contains", Text(""))])
  }

  /** Adding a condition and then removing it gives the menu's conditions back. */
  lemma AddThenRemove(f: Filter, columnType: Option<string>)
    requires f.conditions != [] && AddCondition(f, columnType).Some?
    ensures RemoveCondition(AddCondition(f, columnType).value, |f.conditions|) == f
  {
    var added := AddCondition(f, columnType).value.conditions;
    assert added[..|f.conditions|] + added[|f.conditions| + 1..] == f.conditions;
  }

  // ---------------------------------------------------------------------
  // Dragging a column edge

  /** Math.round: the nearest integer, halves rounded up. */
  function Round(x: real): int {
    (x + 0.5).Floor
  }

  /**
   * The width while dragging by `delta`: the rounded new width, no narrower than the
   * header's own minimum and no wider than the start width plus what the flexible
   * column can give up above its minimum.
   */
  function DragWidth(startWidth: real, flexWidth: int, minFlexWidth: real, hardMin: real, delta: real): (w: real)
    ensures w <= startWidth + MaxR(0.0, flexWidth as real - minFlexWidth)
    ensures w >= MinR(hardMin, startWidth + MaxR(0.0, flexWidth as real - minFlexWidth))
    ensures hardMin <= Round(startWidth + delta) as real <= startWidth + MaxR(0.0, flexWidth as real - minFlexWidth) ==>
      w == Round(startWidth + delta) as real
  {
    var maxGrow := MaxR(0.0, flexWidth as real - minFlexWidth);
    var unclamped := Round(startWidth + delta) as real;
    var upperBound := startWidth + maxGrow;
    MinR(upperBound, MaxR(hardMin, unclamped))
  }

  lemma RoundMonotone(x: real, y: real)
    requires x <= y
    ensures Round(x) <= Round(y)
  {
  }

  /** Moving the mouse further never makes the column narrower. */
  lemma DragWidthMonotone(startWidth: real, flexWidth: int, minFlexWidth: real, hardMin: real, d1: real, d2: real)
    requires d1 <= d2
    ensures DragWidth(startWidth, flexWidth, minFlexWidth, hardMin, d1) <= DragWidth(startWidth, flexWidth, minFlexWidth, hardMin, d2)
  {
    RoundMonotone(startWidth + d1, startWidth + d2);
  }
}
