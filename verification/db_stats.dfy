/**
 * The database grid (DBStats): the highlight reel built from the filtered rows'
 * timestamps, keyboard navigation between editable cells, the virtual list's
 * row heights, the column layout, inserting a row below another or
 * deleting one, and whether any filter is in effect.
 */
module DBStats {
  import opened Common
  import opened Rows
  import Lists
  import FilterHeader
  import MainPage

  // ---------------------------------------------------------------------
  // Highlight windows

  /** Seconds of video played before a highlighted touch. */
  const HIGHLIGHT_PRE_BUFFER: real := 2.0
  /** Seconds of video played after it: five seconds in all, minus the pre-buffer. */
  const HIGHLIGHT_PLAY_DURATION: real := 5.0 - HIGHLIGHT_PRE_BUFFER

  /** A playback window `[start, end]`, in seconds of video. */
  datatype Window = Window(start: real, end: real)

  /** The timestamps of the rows that have one, in list order. */
  function TimestampsOf(rows: seq<StatRow>): (ts: seq<real>)
    ensures |ts| <= |rows|
    ensures forall t :: t in ts <==> exists k :: 0 <= k < |rows| && rows[k].data.timestamp == Some(t)
  {
    if rows == [] then []
    else
      var rest := TimestampsOf(rows[1..]);
      assert forall k :: 0 < k < |rows| ==> rows[k] == rows[1..][k - 1];
      if rows[0].data.timestamp.Some? then [rows[0].data.timestamp.value] + rest else rest
  }

  function NumericLe(): (real, real) -> bool {
    (a: real, b: real) => a <= b
  }

  predicate Ascending(ts: seq<real>) {
    forall i, j :: 0 <= i < j < |ts| ==> ts[i] <= ts[j]
  }

  /** The non-null timestamps sorted with `(a, b) => a - b`. */
  function SortedTimestamps(rows: seq<StatRow>): seq<real> {
    Lists.SortBy(TimestampsOf(rows), NumericLe())
  }

  lemma SortedTimestampsAscending(rows: seq<StatRow>)
    ensures Ascending(SortedTimestamps(rows))
    ensures multiset(SortedTimestamps(rows)) == multiset(TimestampsOf(rows))
  {
    var le := NumericLe();
    assert Lists.Total(le);
    assert Lists.Transitive(le);
    Lists.SortBySorted(TimestampsOf(rows), le);
    var s := SortedTimestamps(rows);
    forall i, j | 0 <= i < j < |s| ensures s[i] <= s[j] {
      assert le(s[i], s[j]);
    }
  }

  /**
   * The inner loop: from `j`, the first index whose timestamp is not absorbed.
   * `ts[j]` is absorbed when its pre-buffered start is no later than the end
   * reached so far, which is `ts[j - 1]` plus the play duration.
   */
  function RunEnd(ts: seq<real>, j: nat): (k: nat)
    requires 0 < j <= |ts|
    ensures j <= k <= |ts|
    ensures k == |ts| || ts[k] - HIGHLIGHT_PRE_BUFFER > ts[k - 1] + HIGHLIGHT_PLAY_DURATION
    decreases |ts| - j
  {
    if j < |ts| && ts[j] - HIGHLIGHT_PRE_BUFFER <= ts[j - 1] + HIGHLIGHT_PLAY_DURATION then RunEnd(ts, j + 1) else j
  }

  /** The windows the outer loop pushes from index `i` on. */
  function MergeFrom(ts: seq<real>, i: nat): (ws: seq<Window>)
    requires i <= |ts|
    ensures |ws| <= |ts| - i
    ensures ws == [] <==> i == |ts|
    decreases |ts| - i
  {
    if i == |ts| then []
    else
      var k := RunEnd(ts, i + 1);
      [Window(MaxR(0.0, ts[i] - HIGHLIGHT_PRE_BUFFER), ts[k - 1] + HIGHLIGHT_PLAY_DURATION)] + MergeFrom(ts, k)
  }

  function Merge(ts: seq<real>): seq<Window> {
    MergeFrom(ts, 0)
  }

  /** What "play filtered" hands to the player: nothing without timestamps or without a player. */
  function PlayFiltered(filtered: seq<StatRow>, hasPlayer: bool): Option<seq<Window>> {
    var ts := SortedTimestamps(filtered);
    if ts == [] || !hasPlayer then None else Some(Merge(ts))
  }

  /** Nothing is played exactly when there is no player or no row has a timestamp; otherwise at most one window per row. */
  lemma PlayFilteredNothing(filtered: seq<StatRow>, hasPlayer: bool)
    ensures PlayFiltered(filtered, hasPlayer).None? <==> !hasPlayer || forall k :: 0 <= k < |filtered| ==> filtered[k].data.timestamp.None?
    ensures PlayFiltered(filtered, hasPlayer).Some? ==> PlayFiltered(filtered, hasPlayer).value != [] && |PlayFiltered(filtered, hasPlayer).value| <= |filtered|
  {
    var ts := SortedTimestamps(filtered);
    SortedTimestampsAscending(filtered);
    assert |ts| == |TimestampsOf(filtered)| by {
      assert |multiset(ts)| == |multiset(TimestampsOf(filtered))|;
    }
    if TimestampsOf(filtered) != [] {
      assert TimestampsOf(filtered)[0] in TimestampsOf(filtered);
    }
  }

  method HandlePlayFiltered(filtered: seq<StatRow>, hasPlayer: bool) returns (sequences: Option<seq<Window>>)
    ensures sequences == PlayFiltered(filtered, hasPlayer)
  {
    var timestamps := SortedTimestamps(filtered);
    if |timestamps| == 0 || !hasPlayer {
      return None;
    }
    var windows := MergeWindows(timestamps);
    sequences := Some(windows);
  }

  /** The nested loops of "play filtered" over the sorted timestamps. */
  method MergeWindows(timestamps: seq<real>) returns (windows: seq<Window>)
    ensures windows == Merge(timestamps)
  {
    windows := [];
    var i := 0;
    while i < |timestamps|
      invariant i <= |timestamps|
      invariant windows + MergeFrom(timestamps, i) == Merge(timestamps)
      decreases |timestamps| - i
    {
      var start := MaxR(0.0, timestamps[i] - HIGHLIGHT_PRE_BUFFER);
      var end, j := AbsorbRun(timestamps, i);
      assert MergeFrom(timestamps, i) == [Window(start, end)] + MergeFrom(timestamps, j);
      windows := windows + [Window(start, end)];
      i := j;
    }
  }

  /** The inner loop: absorbs the timestamps whose pre-buffered start falls inside the window so far. */
  method AbsorbRun(timestamps: seq<real>, i: nat) returns (end: real, j: nat)
    requires i < |timestamps|
    ensures j == RunEnd(timestamps, i + 1)
    ensures end == timestamps[j - 1] + HIGHLIGHT_PLAY_DURATION
  {
    end := timestamps[i] + HIGHLIGHT_PLAY_DURATION;
    j := i + 1;
    while j < |timestamps|
      invariant i + 1 <= j <= |timestamps|
      invariant end == timestamps[j - 1] + HIGHLIGHT_PLAY_DURATION
      invariant RunEnd(timestamps, i + 1) == RunEnd(timestamps, j)
      decreases |timestamps| - j
    {
      var nextStart := timestamps[j] - HIGHLIGHT_PRE_BUFFER;
      if nextStart <= end {
        end := timestamps[j] + HIGHLIGHT_PLAY_DURATION;
        j := j + 1;
      } else {
        break;
      }
    }
  }

  /** Each window ends before the next one starts. */
  lemma {:induction false} MergeSeparated(ts: seq<real>, i: nat)
    requires i <= |ts|
    ensures forall k :: 0 <= k < |MergeFrom(ts, i)| - 1 ==> MergeFrom(ts, i)[k].end < MergeFrom(ts, i)[k + 1].start
    decreases |ts| - i
  {
    if i < |ts| {
      var k := RunEnd(ts, i + 1);
      MergeSeparated(ts, k);
    }
  }

  predicate NonNegative(ts: seq<real>) {
    forall k :: 0 <= k < |ts| ==> ts[k] >= 0.0
  }

  /**
   * On ascending non-negative timestamps the windows are non-empty, strictly
   * increasing and pairwise disjoint: every window ends before any later one starts.
   */
  lemma {:induction false} MergeDisjoint(ts: seq<real>, i: nat)
    requires i <= |ts| && Ascending(ts) && NonNegative(ts)
    ensures forall k :: 0 <= k < |MergeFrom(ts, i)| ==> MergeFrom(ts, i)[k].start < MergeFrom(ts, i)[k].end
    ensures forall k, l :: 0 <= k < l < |MergeFrom(ts, i)| ==> MergeFrom(ts, i)[k].end < MergeFrom(ts, i)[l].start
    decreases |ts| - i
  {
    if i < |ts| {
      var k := RunEnd(ts, i + 1);
      var ws := MergeFrom(ts, i);
      var rest := MergeFrom(ts, k);
      MergeDisjoint(ts, k);
      MergeSeparated(ts, i);
      assert ws == [ws[0]] + rest;
      assert ts[i] <= ts[k - 1];
      assert ws[0].start < ws[0].end;
      forall l | 0 < l < |ws| ensures ws[0].end < ws[l].start {
        if l > 1 {
          assert rest[0].end < rest[l - 1].start;
        }
      }
    }
  }

  /** Every non-negative timestamp is played from at least the pre-buffer... or from 0, through the full duration after it. */
  lemma {:induction false} MergeCovers(ts: seq<real>, i: nat, m: nat) returns (w: nat)
    requires i <= m < |ts| && Ascending(ts) && ts[m] >= 0.0
    ensures w < |MergeFrom(ts, i)|
    ensures MergeFrom(ts, i)[w].start <= ts[m] && ts[m] + HIGHLIGHT_PLAY_DURATION <= MergeFrom(ts, i)[w].end
    decreases |ts| - i
  {
    var k := RunEnd(ts, i + 1);
    if m < k {
      w := 0;
      assert ts[i] <= ts[m] && ts[m] <= ts[k - 1];
    } else {
      var v := MergeCovers(ts, k, m);
      w := v + 1;
      assert MergeFrom(ts, i)[w] == MergeFrom(ts, k)[v];
    }
  }

  /** The played windows, for rows whose timestamps are not negative: ordered, disjoint, covering, and no more than the touches. */
  lemma PlayFilteredWindows(filtered: seq<StatRow>, hasPlayer: bool, m: nat) returns (w: nat)
    requires forall k :: 0 <= k < |filtered| && filtered[k].data.timestamp.Some? ==> filtered[k].data.timestamp.value >= 0.0
    requires m < |filtered| && filtered[m].data.timestamp.Some? && hasPlayer
    ensures PlayFiltered(filtered, hasPlayer).Some?
    ensures var ws := PlayFiltered(filtered, hasPlayer).value;
      && |ws| <= |filtered|
      && (forall k, l :: 0 <= k < l < |ws| ==> ws[k].end < ws[l].start)
      && w < |ws|
      && ws[w].start <= filtered[m].data.timestamp.value
      && filtered[m].data.timestamp.value + HIGHLIGHT_PLAY_DURATION <= ws[w].end
  {
    var t := filtered[m].data.timestamp.value;
    var ts := SortedTimestamps(filtered);
    SortedTimestampsAscending(filtered);
    assert t in TimestampsOf(filtered);
    assert t in multiset(ts);
    var n :| 0 <= n < |ts| && ts[n] == t;
    forall k | 0 <= k < |ts| ensures ts[k] >= 0.0 {
      assert ts[k] in multiset(TimestampsOf(filtered));
      assert ts[k] in TimestampsOf(filtered);
    }
    MergeDisjoint(ts, 0);
    w := MergeCovers(ts, 0, n);
  }

  // ---------------------------------------------------------------------
  // Keyboard navigation between cells

  datatype Direction = Next | Prev | Down | Up | Other

  /** A cell to open for editing: a row index and the column key at the reached column (None past either end of the keys). */
  datatype Cell = Cell(row: int, field: Option<string>)

  /** The navigable keys: the visible columns other than the timestamp and score. */
  function EditableKeys(orderedKeys: seq<string>): (keys: seq<string>)
    ensures forall k :: k in keys <==> k in orderedKeys && k != "timestamp" && k != "score"
  {
    Lists.Filter(orderedKeys, (k: string) => k != "timestamp" && k != "score")
  }

  /** `keys.indexOf(field)`. */
  function IndexOf(keys: seq<string>, field: string): (i: int)
    ensures -1 <= i < |keys|
    ensures i >= 0 ==> keys[i] == field && forall j :: 0 <= j < i ==> keys[j] != field
    ensures i == -1 ==> field !in keys
  {
    if keys == [] then -1
    else if keys[0] == field then 0
    else
      var k := IndexOf(keys[1..], field);
      if k == -1 then -1 else k + 1
  }

  /** One move of the cursor: 'next' and 'prev' wrap around the row ends; 'down' and 'up' keep the column. */
  function Step(d: Direction, row: int, col: int, cols: nat): (int, int) {
    match d
    case Next => if col + 1 >= cols then (row + 1, 0) else (row, col + 1)
    case Prev => if col - 1 < 0 then (row - 1, cols - 1) else (row, col - 1)
    case Down => (row + 1, col)
    case Up => (row - 1, col)
    case Other => (row, col)
  }

  function KeyAt(keys: seq<string>, col: int): Option<string> {
    if 0 <= col < |keys| then Some(keys[col]) else None
  }

  /**
   * The cell a navigation request opens. Outside edit mode no cell is editable;
   * in edit mode the first step decides, and a row outside the list opens nothing.
   */
  function NavTarget(editMode: bool, orderedKeys: seq<string>, rowCount: nat, idx: int, field: string, d: Direction): (r: Option<Cell>)
    ensures !editMode ==> r == None
    ensures r.Some? ==> 0 <= r.value.row < rowCount
    ensures r.Some? ==> r.value.row == Step(d, idx, IndexOf(EditableKeys(orderedKeys), field), |EditableKeys(orderedKeys)|).0
  {
    var keys := EditableKeys(orderedKeys);
    if !editMode || rowCount * |keys| == 0 then None
    else
      var (row, col) := Step(d, idx, IndexOf(keys, field), |keys|);
      if row < 0 || row >= rowCount then None else Some(Cell(row, KeyAt(keys, col)))
  }

  method NavigateToEditableCell(editMode: bool, orderedKeys: seq<string>, rowCount: nat, idx: int, field: string, direction: Direction)
    returns (target: Option<Cell>)
    ensures target == NavTarget(editMode, orderedKeys, rowCount, idx, field, direction)
  {
    var keys := EditableKeys(orderedKeys);
    var newIdx := idx;
    var colIndex := IndexOf(keys, field);
    var guard := 0;
    target := None;
    while guard < rowCount * |keys|
      invariant 0 <= guard <= rowCount * |keys|
      invariant editMode ==> guard == 0
      invariant guard == 0 ==> newIdx == idx && colIndex == IndexOf(keys, field)
      invariant target == None
      decreases rowCount * |keys| - guard
    {
      guard := guard + 1;
      newIdx, colIndex := Step(direction, newIdx, colIndex, |keys|).0, Step(direction, newIdx, colIndex, |keys|).1;
      if newIdx < 0 || newIdx >= rowCount {
        break;
      }
      if editMode {
        target := Some(Cell(newIdx, KeyAt(keys, colIndex)));
        return;
      }
    }
  }

  /** 'prev' undoes 'next' and 'next' undoes 'prev' on any column of a non-empty key list. */
  lemma NextPrevInverse(row: int, col: int, cols: nat)
    requires 0 <= col < cols
    ensures var (r, c) := Step(Next, row, col, cols); Step(Prev, r, c, cols) == (row, col)
    ensures var (r, c) := Step(Prev, row, col, cols); Step(Next, r, c, cols) == (row, col)
  {
  }

  /** In edit mode, 'next' from the last column opens the first column of the following row. */
  lemma NextWrapsToFollowingRow(orderedKeys: seq<string>, rowCount: nat, idx: int)
    requires EditableKeys(orderedKeys) != []
    requires 0 <= idx && idx + 1 < rowCount
    ensures var keys := EditableKeys(orderedKeys);
      IndexOf(keys, keys[|keys| - 1]) == |keys| - 1 ==>
        NavTarget(true, orderedKeys, rowCount, idx, keys[|keys| - 1], Next) == Some(Cell(idx + 1, Some(keys[0])))
  {
    var keys := EditableKeys(orderedKeys);
    assert rowCount * |keys| > 0 by {
      assert rowCount >= 1 && |keys| >= 1;
    }
  }

  // ---------------------------------------------------------------------
  // Row heights of the virtual list

  const ROW_HEIGHT: int := 28
  const HSCROLL_PX: int := 10

  /** One measured row: its index in the filtered list and its height in pixels. */
  datatype Entry = Entry(index: int, height: int)

  predicate DistinctIndexes(es: seq<Entry>) {
    forall a, b :: 0 <= a < b < |es| ==> es[a].index != es[b].index
  }

  /** `Map.prototype.get` over entries in insertion order. */
  function Lookup(es: seq<Entry>, index: int): (r: Option<int>)
    ensures r.None? <==> forall k :: 0 <= k < |es| ==> es[k].index != index
  {
    if es == [] then None
    else if es[|es| - 1].index == index then Some(es[|es| - 1].height)
    else Lookup(es[..|es| - 1], index)
  }

  /** `Map.prototype.set`: an existing index keeps its place, a new one is appended. */
  function SetEntry(es: seq<Entry>, index: int, h: int): (r: seq<Entry>)
    requires DistinctIndexes(es)
    ensures DistinctIndexes(r)
    ensures Lookup(r, index) == Some(h)
    ensures forall other :: other != index ==> Lookup(r, other) == Lookup(es, other)
    ensures |r| == |es| + (if Lookup(es, index).None? then 1 else 0)
    ensures forall k :: 0 <= k < |r| ==> r[k] == Entry(index, h) || r[k] in es
  {
    if es == [] then [Entry(index, h)]
    else
      var init, last := es[..|es| - 1], es[|es| - 1];
      assert forall k :: 0 <= k < |init| ==> init[k] == es[k];
      assert Lookup(init, last.index).None?;
      if last.index == index then
        init + [Entry(index, h)]
      else
        var rest := SetEntry(init, index, h);
        var r := rest + [last];
        assert r[..|r| - 1] == rest;
        assert Lookup(rest, last.index).None?;
        r
  }

  function SumHeights(es: seq<Entry>): int {
    if es == [] then 0 else SumHeights(es[..|es| - 1]) + es[|es| - 1].height
  }

  /** The reference reading: the heights of rows `0 .. n-1`, unmeasured ones counting ROW_HEIGHT. */
  function SumItems(es: seq<Entry>, n: nat): int {
    if n == 0 then 0 else SumItems(es, n - 1) + Lookup(es, n - 1).GetOr(ROW_HEIGHT)
  }

  /** The measured row heights (`rowHeightsRef`), a map kept in insertion order. */
  class RowHeights {
    var entries: seq<Entry>

    ghost predicate Valid()
      reads this
    {
      DistinctIndexes(entries) && forall k :: 0 <= k < |entries| ==> entries[k].height >= ROW_HEIGHT
    }

    constructor()
      ensures Valid() && entries == []
    {
      entries := [];
    }

    /** A row's height: its measurement, or ROW_HEIGHT. */
    function Get(index: int): (h: int)
      reads this
      requires Valid()
      ensures h >= ROW_HEIGHT
      ensures Lookup(entries, index).None? ==> h == ROW_HEIGHT
    {
      var o := Lookup(entries, index);
      if o.Some? then
        LookupHeights(entries);
        o.value
      else ROW_HEIGHT
    }

    /** `getItemSize`: the spacer after the last row is HSCROLL_PX when the grid is wider than the viewport. */
    function ItemSize(index: int, rowCount: nat, totalPx: int, viewportW: int): (h: int)
      reads this
      requires Valid()
      ensures totalPx > viewportW && index == rowCount ==> h == HSCROLL_PX
      ensures !(totalPx > viewportW && index == rowCount) ==> h == Get(index)
    {
      if totalPx > viewportW && index == rowCount then HSCROLL_PX else Get(index)
    }

    /** Records a measurement; measured heights are never below ROW_HEIGHT. */
    method Set(index: int, h: int)
      requires Valid() && h >= ROW_HEIGHT
      modifies this
      ensures Valid()
      ensures entries == SetEntry(old(entries), index, h)
    {
      entries := SetEntry(entries, index, h);
      LookupHeights(entries);
    }

    method Clear()
      modifies this
      ensures Valid() && entries == []
    {
      entries := [];
    }

    /** `getTotalListHeight`: every measured height, plus ROW_HEIGHT for each row beyond the map's size. */
    method TotalListHeight(rowCount: nat) returns (sum: int)
      ensures sum == SumHeights(entries) + Max(0, rowCount - |entries|) * ROW_HEIGHT
    {
      sum := 0;
      var i := 0;
      while i < |entries|
        invariant 0 <= i <= |entries|
        invariant sum == SumHeights(entries[..i])
      {
        assert entries[..i + 1][..i] == entries[..i];
        sum := sum + entries[i].height;
        i := i + 1;
      }
      assert entries[..i] == entries;
      var unknownCount := Max(0, rowCount - |entries|);
      sum := sum + unknownCount * ROW_HEIGHT;
    }
  }

  /** Every height a lookup returns is one of the entries' heights. */
  lemma {:induction false} LookupHeights(es: seq<Entry>)
    requires DistinctIndexes(es)
    ensures forall index :: Lookup(es, index).Some? ==> exists k :: 0 <= k < |es| && es[k].height == Lookup(es, index).value
  {
    if es != [] {
      var init := es[..|es| - 1];
      LookupHeights(init);
      forall index | Lookup(es, index).Some?
        ensures exists k :: 0 <= k < |es| && es[k].height == Lookup(es, index).value
      {
        if es[|es| - 1].index != index {
          var k :| 0 <= k < |init| && init[k].height == Lookup(init, index).value;
          assert es[k] == init[k];
        }
      }
    }
  }

  /** Adding an entry for a row not yet measured changes the reference sum by that row's excess over ROW_HEIGHT. */
  lemma {:induction false} SumItemsAppend(es: seq<Entry>, e: Entry, n: nat)
    requires Lookup(es, e.index).None?
    ensures SumItems(es + [e], n) == SumItems(es, n) + (if 0 <= e.index < n then e.height - ROW_HEIGHT else 0)
  {
    if n > 0 {
      SumItemsAppend(es, e, n - 1);
      assert (es + [e])[..|es|] == es;
    }
  }

  function IndexSet(es: seq<Entry>): (r: set<int>)
    ensures forall x :: x in r <==> Lookup(es, x).Some?
  {
    if es == [] then {} else IndexSet(es[..|es| - 1]) + {es[|es| - 1].index}
  }

  lemma {:induction false} IndexSetSize(es: seq<Entry>)
    requires DistinctIndexes(es)
    ensures |IndexSet(es)| == |es|
  {
    if es != [] {
      var init := es[..|es| - 1];
      IndexSetSize(init);
      assert Lookup(init, es[|es| - 1].index).None?;
    }
  }

  function Range(n: nat): (r: set<int>)
    ensures |r| == n
    ensures forall x :: x in r <==> 0 <= x < n
  {
    if n == 0 then {} else Range(n - 1) + {n - 1}
  }

  lemma SubsetSize(a: set<int>, b: set<int>)
    requires a <= b
    ensures |a| <= |b|
  {
    assert b == a + (b - a);
  }

  /**
   * When every measured index is a row of the list, the total height is the
   * sum of the rows' heights: measured ones as measured, the rest ROW_HEIGHT.
   */
  lemma {:induction false} TotalIsSumOfRows(es: seq<Entry>, n: nat)
    requires DistinctIndexes(es)
    requires forall k :: 0 <= k < |es| ==> 0 <= es[k].index < n
    ensures SumHeights(es) + Max(0, n - |es|) * ROW_HEIGHT == SumItems(es, n)
  {
    IndexSetSize(es);
    forall x | x in IndexSet(es) ensures x in Range(n) {
      var k :| 0 <= k < |es| && es[k].index == x;
    }
    SubsetSize(IndexSet(es), Range(n));
    SumMeasured(es, n);
  }

  lemma {:induction false} SumMeasured(es: seq<Entry>, n: nat)
    requires DistinctIndexes(es)
    requires forall k :: 0 <= k < |es| ==> 0 <= es[k].index < n
    ensures SumItems(es, n) == SumHeights(es) + (n - |es|) * ROW_HEIGHT
  {
    if es == [] {
      SumItemsBlank(n);
    } else {
      var init, e := es[..|es| - 1], es[|es| - 1];
      SumMeasured(init, n);
      assert Lookup(init, e.index).None?;
      SumItemsAppend(init, e, n);
      assert init + [e] == es;
    }
  }

  lemma {:induction false} SumItemsBlank(n: nat)
    ensures SumItems([], n) == n * ROW_HEIGHT
  {
    if n > 0 {
      SumItemsBlank(n - 1);
    }
  }

  // ---------------------------------------------------------------------
  // Column layout

  const MIN_COL_PX: int := 60
  const DEFAULT_FLEX_MIN_PX: int := 400
  const INSERT_KEY: string := "__insert__"
  const DELETE_KEY: string := "__delete__"

  /** The flexible column's minimum: wide when the notes column is shown. */
  function FlexMinPx(notesVisible: bool): int {
    if notesVisible then DEFAULT_FLEX_MIN_PX else 170
  }

  /** The grid's columns: the insert button, the timestamp, the other visible keys but the score, and the delete button. */
  function BodyColumns(editMode: bool, orderedKeys: seq<string>): (cols: seq<string>)
    ensures forall k :: k in cols && k != INSERT_KEY && k != DELETE_KEY ==> k in orderedKeys && k != "score"
    ensures editMode ==> |cols| >= 2 && cols[0] == INSERT_KEY && cols[|cols| - 1] == DELETE_KEY
  {
    (if editMode then [INSERT_KEY] else [])
    + (if "timestamp" in orderedKeys then ["timestamp"] else [])
    + Lists.Filter(orderedKeys, (k: string) => k != "score" && k != "timestamp")
    + (if editMode then [DELETE_KEY] else [])
  }

  /** The column that takes up the free width: notes when shown, else the last data column. */
  function FlexKey(cols: seq<string>): (r: Option<string>)
    ensures r.Some? ==> r.value in cols && r.value != INSERT_KEY && r.value != DELETE_KEY
    ensures r.None? <==> forall k :: k in cols ==> k == INSERT_KEY || k == DELETE_KEY
  {
    var keys := Lists.Filter(cols, (k: string) => k != INSERT_KEY && k != DELETE_KEY);
    if "notes" in keys then Some("notes")
    else if keys == [] then None
    else
      assert keys[|keys| - 1] in keys;
      Some(keys[|keys| - 1])
  }

  /** A fixed column's width: 32 for the buttons, else its set or measured width (at least MIN_COL_PX), else a default. */
  function WidthForFixed(key: string, columnWidths: map<string, real>, measured: map<string, real>): (w: int)
    ensures key == INSERT_KEY || key == DELETE_KEY ==> w == 32
    ensures key != INSERT_KEY && key != DELETE_KEY ==> w >= MIN_COL_PX
  {
    if key == INSERT_KEY || key == DELETE_KEY then 32
    else if key in columnWidths then Max(MIN_COL_PX, columnWidths[key].Floor)
    else if key in measured then Max(MIN_COL_PX, measured[key].Floor)
    else if key == "notes" then 200
    else 120
  }

  /** The summed width of every column but the flexible one. */
  function FixedPx(cols: seq<string>, flexKey: Option<string>, columnWidths: map<string, real>, measured: map<string, real>): (px: int)
    ensures px >= 0
  {
    if cols == [] then 0
    else
      var last := cols[|cols| - 1];
      FixedPx(cols[..|cols| - 1], flexKey, columnWidths, measured)
        + (if flexKey == Some(last) then 0 else WidthForFixed(last, columnWidths, measured))
  }

  /** The flexible column's width when it cannot stretch: its set or measured width, at least the minimum. */
  function PinnedFlexPx(flexKey: Option<string>, columnWidths: map<string, real>, measured: map<string, real>, flexMin: int): (px: int)
    ensures px >= flexMin
  {
    var raw :=
      if flexKey.Some? && flexKey.value in columnWidths then columnWidths[flexKey.value]
      else if flexKey.Some? && flexKey.value in measured then measured[flexKey.value]
      else 200.0;
    Max(flexMin, raw.Floor)
  }

  /** One column track: `<w>px`, or `minmax(<min>px, 1fr)` for a flexible column that fits. */
  datatype Track = Px(px: int) | Flex(min: int)

  datatype Layout = Layout(template: seq<Track>, canFit: bool, totalPx: int)

  function TrackFor(key: string, flexKey: Option<string>, columnWidths: map<string, real>, measured: map<string, real>, flexTrack: Track): Track {
    if flexKey == Some(key) then flexTrack else Px(WidthForFixed(key, columnWidths, measured))
  }

  function Template(cols: seq<string>, flexKey: Option<string>, columnWidths: map<string, real>, measured: map<string, real>, flexTrack: Track): (t: seq<Track>)
    ensures |t| == |cols|
    ensures forall i :: 0 <= i < |cols| ==> t[i] == TrackFor(cols[i], flexKey, columnWidths, measured, flexTrack)
  {
    seq(|cols|, i requires 0 <= i < |cols| => TrackFor(cols[i], flexKey, columnWidths, measured, flexTrack))
  }

  /**
   * The `gridTemplate` memo: the flexible column stretches from its minimum when
   * the fixed columns and that minimum fit the viewport, and is pinned otherwise.
   */
  function GridLayout(cols: seq<string>, flexKey: Option<string>, columnWidths: map<string, real>, measured: map<string, real>, viewportW: real, flexMin: int): (l: Layout)
    ensures l.canFit <==> viewportW > 0.0 && (FixedPx(cols, flexKey, columnWidths, measured) + flexMin) as real <= viewportW
    ensures l.totalPx >= FixedPx(cols, flexKey, columnWidths, measured) + flexMin
    ensures |l.template| == |cols|
  {
    var fixedPx := FixedPx(cols, flexKey, columnWidths, measured);
    var canFit := viewportW > 0.0 && (fixedPx + flexMin) as real <= viewportW;
    var pinned := PinnedFlexPx(flexKey, columnWidths, measured, flexMin);
    var flexTrack := if canFit then Flex(flexMin) else Px(pinned);
    Layout(Template(cols, flexKey, columnWidths, measured, flexTrack), canFit, if canFit then fixedPx + flexMin else fixedPx + pinned)
  }

  /** The width a track takes at least. */
  function TrackPx(t: Track): int {
    match t
    case Px(w) => w
    case Flex(m) => m
  }

  function TracksPx(ts: seq<Track>): int {
    if ts == [] then 0 else TracksPx(ts[..|ts| - 1]) + TrackPx(ts[|ts| - 1])
  }

  function Occurrences(cols: seq<string>, key: Option<string>): nat {
    if cols == [] then 0 else Occurrences(cols[..|cols| - 1], key) + (if key == Some(cols[|cols| - 1]) then 1 else 0)
  }

  /** `w` once for each column the key names. */
  function FlexPx(cols: seq<string>, key: Option<string>, w: int): int {
    if cols == [] then 0 else FlexPx(cols[..|cols| - 1], key, w) + (if key == Some(cols[|cols| - 1]) then w else 0)
  }

  lemma {:induction false} FlexPxOnce(cols: seq<string>, key: Option<string>, w: int)
    ensures Occurrences(cols, key) == 0 ==> FlexPx(cols, key, w) == 0
    ensures Occurrences(cols, key) == 1 ==> FlexPx(cols, key, w) == w
  {
    if cols != [] {
      FlexPxOnce(cols[..|cols| - 1], key, w);
    }
  }

  lemma {:induction false} TracksPxOfTemplate(cols: seq<string>, flexKey: Option<string>, columnWidths: map<string, real>, measured: map<string, real>, flexTrack: Track)
    ensures TracksPx(Template(cols, flexKey, columnWidths, measured, flexTrack))
      == FixedPx(cols, flexKey, columnWidths, measured) + FlexPx(cols, flexKey, TrackPx(flexTrack))
  {
    if cols != [] {
      var init := cols[..|cols| - 1];
      TracksPxOfTemplate(init, flexKey, columnWidths, measured, flexTrack);
      var t := Template(cols, flexKey, columnWidths, measured, flexTrack);
      assert t[..|t| - 1] == Template(init, flexKey, columnWidths, measured, flexTrack);
    }
  }

  /**
   * The layout's columns: buttons 32 px, other fixed columns at least MIN_COL_PX, and
   * the flexible column stretching from its minimum or pinned at no less than it. When
   * the flexible key names one column, totalPx is the tracks' summed width.
   */
  lemma GridLayoutTracks(cols: seq<string>, flexKey: Option<string>, columnWidths: map<string, real>, measured: map<string, real>, viewportW: real, flexMin: int)
    ensures var l := GridLayout(cols, flexKey, columnWidths, measured, viewportW, flexMin);
      forall i :: 0 <= i < |cols| ==>
        if flexKey == Some(cols[i]) then
          (l.canFit ==> l.template[i] == Flex(flexMin)) && (!l.canFit ==> l.template[i].Px? && l.template[i].px >= flexMin)
        else if cols[i] == INSERT_KEY || cols[i] == DELETE_KEY then l.template[i] == Px(32)
        else l.template[i].Px? && l.template[i].px >= MIN_COL_PX
    ensures Occurrences(cols, flexKey) == 1 ==>
      TracksPx(GridLayout(cols, flexKey, columnWidths, measured, viewportW, flexMin).template)
        == GridLayout(cols, flexKey, columnWidths, measured, viewportW, flexMin).totalPx
  {
    var fixedPx := FixedPx(cols, flexKey, columnWidths, measured);
    var canFit := viewportW > 0.0 && (fixedPx + flexMin) as real <= viewportW;
    var pinned := PinnedFlexPx(flexKey, columnWidths, measured, flexMin);
    var flexTrack := if canFit then Flex(flexMin) else Px(pinned);
    TracksPxOfTemplate(cols, flexKey, columnWidths, measured, flexTrack);
    FlexPxOnce(cols, flexKey, TrackPx(flexTrack));
  }

  // ---------------------------------------------------------------------
  // Inserting and deleting rows

  /** The row "insert below" creates from the clicked row `s`: same game, rally, scores, set and team, just after it by import order. */
  function NewRowBelow(s: StatRow, id: string): (r: StatRow)
    ensures r.data.gameId == s.data.gameId && r.data.teamId == s.data.teamId
    ensures r.rallyId == s.rallyId && r.setNumber == s.setNumber
    ensures r.ourScore == s.ourScore && r.oppScore == s.oppScore
    ensures r.data.importSeq.Some? && (s.data.importSeq.Some? ==> r.data.importSeq.value > s.data.importSeq.value)
    ensures r.result == None && r.data.player == None && r.data.actionType == None
  {
    var e := EmptyRow(id, s.data.gameId);
    e.(setNumber := s.setNumber, rallyId := s.rallyId, ourScore := s.ourScore, oppScore := s.oppScore,
       data := e.data.(teamId := s.data.teamId, importSeq := Some(s.data.importSeq.GetOr(0.0) + 0.01)))
  }

  /**
   * `splice(i + 1, 0, inserted)` after the clicked row's index `i`. An id that is
   * not in the list gives `i = -1`, so the row goes first.
   */
  function InsertBelow(stats: seq<StatRow>, clickedId: string, inserted: StatRow): (r: seq<StatRow>)
    ensures |r| == |stats| + 1
    ensures r[FindIndex(stats, clickedId) + 1] == inserted
    ensures r[..FindIndex(stats, clickedId) + 1] + r[FindIndex(stats, clickedId) + 2..] == stats
    ensures FindIndex(stats, clickedId) >= 0 ==> r[FindIndex(stats, clickedId)].id == clickedId
  {
    var i := FindIndex(stats, clickedId);
    var r := stats[..i + 1] + [inserted] + stats[i + 1..];
    assert r[..i + 1] == stats[..i + 1];
    assert r[i + 2..] == stats[i + 1..];
    r
  }

  /** The list without every row carrying the id, in order. */
  function DeleteRow(stats: seq<StatRow>, id: string): (r: seq<StatRow>)
    ensures forall x :: x in r <==> x in stats && x.id != id
    ensures forall x :: multiset(r)[x] == if x.id != id then multiset(stats)[x] else 0
  {
    Lists.FilterMultiset(stats, (row: StatRow) => row.id != id);
    Lists.Filter(stats, (row: StatRow) => row.id != id)
  }

  /** The kept rows stay in list order: a row added at the end is kept last, or dropped. */
  lemma DeleteRowSnoc(stats: seq<StatRow>, row: StatRow, id: string)
    ensures DeleteRow(stats + [row], id) == DeleteRow(stats, id) + (if row.id != id then [row] else [])
  {
    Lists.FilterSnoc(stats, row, (row: StatRow) => row.id != id);
  }

  lemma {:induction false} DeleteAbsent(stats: seq<StatRow>, id: string)
    requires forall k :: 0 <= k < |stats| ==> stats[k].id != id
    ensures DeleteRow(stats, id) == stats
  {
    if stats != [] {
      DeleteAbsent(stats[1..], id);
    }
  }

  /** Deleting a freshly inserted row gives the list back. */
  lemma InsertThenDelete(stats: seq<StatRow>, clickedId: string, inserted: StatRow)
    requires forall k :: 0 <= k < |stats| ==> stats[k].id != inserted.id
    ensures DeleteRow(InsertBelow(stats, clickedId, inserted), inserted.id) == stats
  {
    var i := FindIndex(stats, clickedId);
    var p := (row: StatRow) => row.id != inserted.id;
    var a, b := stats[..i + 1], stats[i + 1..];
    assert InsertBelow(stats, clickedId, inserted) == a + ([inserted] + b);
    Lists.FilterAppend(a, [inserted] + b, p);
    Lists.FilterAppend([inserted], b, p);
    assert Lists.Filter([inserted], p) == [];
    DeleteAbsent(a, inserted.id);
    DeleteAbsent(b, inserted.id);
    assert a + b == stats;
  }

  // ---------------------------------------------------------------------
  // Whether the grid is filtered

  /**
   * A condition that narrows the list for the "filtered" indicator: 'blank' and
   * 'not_blank' always do; 'between' does when either bound has text after
   * trimming; any other operator does when its operand's text, trimmed, is not
   * empty (a pair of bounds under another operator reads as the non-empty
   * '[object Object]').
   */
  predicate Narrows(c: FilterHeader.Condition) {
    if c.operator == "blank" || c.operator == "not_blank" then true
    else if c.operator == "between" then
      match c.value
      case Bounds(min, max) => Trim(min.GetOr("")) != "" || Trim(max.GetOr("")) != ""
      case _ => false
    else
      match c.value
      case Text(s) => Trim(s) != ""
      case Bounds(_, _) => true
      case NoValue => false
  }

  /** `isFilteredDBStats`: some column's filter has a condition that narrows. */
  predicate IsFiltered(filters: map<Column, FilterHeader.Filter>) {
    exists key :: key in filters && exists c :: c in filters[key].conditions && Narrows(c)
  }

  /** A condition that narrows is one the list's own filter applies. */
  lemma NarrowsIsActive(c: FilterHeader.Condition)
    requires Narrows(c)
    ensures MainPage.IsActive(c)
  {
    assert Trim("") == "";
  }

  /**
   * The indicator is off whenever no column has an active condition, and then
   * every row passes the filters.
   */
  lemma UnfilteredPassesAll(filters: map<Column, FilterHeader.Filter>, s: StatRow, visibleColumns: map<Column, MainPage.ColumnConfig>, render: real -> string, toNumber: string -> Option<real>)
    requires forall key :: key in filters ==> MainPage.ActiveConditions(filters[key]) == []
    ensures !IsFiltered(filters)
    ensures MainPage.PassesFilters(s, filters, visibleColumns, render, toNumber)
  {
    forall key, c | key in filters && c in filters[key].conditions
      ensures !Narrows(c)
    {
      if Narrows(c) {
        NarrowsIsActive(c);
      }
    }
  }
}
