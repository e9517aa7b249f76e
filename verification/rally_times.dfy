/**
 * getRallyTimes: the rally segmenter. Touches are grouped by (set, rally id) in the order
 * their groups are first seen; each group becomes a padded [start, end] window on the video
 * timeline, and the windows are sorted by start.
 */
module RallyTimes {
  import opened Common
  import opened Rows
  import Lists

  /** A touch takes part only when its set, rally id and timestamp are all present. */
  predicate Complete(r: StatRow) {
    r.setNumber.Some? && r.rallyId.Some? && r.data.timestamp.Some?
  }

  /** The group key `${set}-${rally_id}`, kept as the pair it is spelled from. */
  type Key = (int, int)

  function KeyOf(r: StatRow): Key
    requires Complete(r)
  {
    (r.setNumber.value, r.rallyId.value)
  }

  predicate InGroup(r: StatRow, k: Key) {
    Complete(r) && KeyOf(r) == k
  }

  /** A touch's timestamp; only complete touches are ever read through it. */
  function Ts(r: StatRow): real {
    r.data.timestamp.GetOr(0.0)
  }

  /** The touches of group `k`, in input order. */
  function GroupRows(s: seq<StatRow>, k: Key): (rs: seq<StatRow>)
    ensures forall i :: 0 <= i < |rs| ==> InGroup(rs[i], k)
  {
    if s == [] then []
    else GroupRows(s[..|s| - 1], k) + (if InGroup(s[|s| - 1], k) then [s[|s| - 1]] else [])
  }

  /** Every touch of the group is a touch of the input, and every input touch of the group is in it. */
  lemma {:induction false} GroupRowsFrom(s: seq<StatRow>, k: Key)
    ensures forall r :: r in GroupRows(s, k) <==> r in s && InGroup(r, k)
  {
    if s != [] {
      var init := s[..|s| - 1];
      GroupRowsFrom(init, k);
      assert s == init + [s[|s| - 1]];
    }
  }

  /** A group's running summary: earliest timestamp, latest touch, first action type and size. */
  datatype Group = Group(earliest: real, lastTouch: StatRow, firstActionType: Option<string>, count: nat)

  /** The summary a group starts with when its first touch is seen. */
  function Open(r: StatRow): Group {
    Group(Ts(r), r, r.data.actionType, 1)
  }

  /** A later touch of the group: the earliest time drops, and the latest touch moves only on a strictly later time. */
  function Absorb(g: Group, r: StatRow): Group {
    Group(MinR(g.earliest, Ts(r)), if Ts(r) > Ts(g.lastTouch) then r else g.lastTouch, g.firstActionType, g.count + 1)
  }

  /** The summary of a non-empty run of touches, folded left to right. */
  function Summarize(rs: seq<StatRow>): Group
    requires rs != []
  {
    if |rs| == 1 then Open(rs[0]) else Absorb(Summarize(rs[..|rs| - 1]), rs[|rs| - 1])
  }

  /** A group's summary counts its touches and keeps the action type of its first one. */
  lemma {:induction false} SummarizeCount(rs: seq<StatRow>)
    requires rs != []
    ensures Summarize(rs).count == |rs|
    ensures Summarize(rs).firstActionType == rs[0].data.actionType
  {
    if |rs| > 1 {
      SummarizeCount(rs[..|rs| - 1]);
    }
  }

  /** The earliest time of a group is its minimum timestamp. */
  lemma {:induction false} SummarizeEarliest(rs: seq<StatRow>)
    requires rs != []
    ensures forall i :: 0 <= i < |rs| ==> Summarize(rs).earliest <= Ts(rs[i])
    ensures exists i :: 0 <= i < |rs| && Summarize(rs).earliest == Ts(rs[i])
  {
    if |rs| > 1 {
      var init := rs[..|rs| - 1];
      SummarizeEarliest(init);
      forall j | 0 <= j < |rs| ensures Summarize(rs).earliest <= Ts(rs[j]) {
        if j < |init| {
          assert rs[j] == init[j];
        }
      }
      var e :| 0 <= e < |init| && Summarize(init).earliest == Ts(init[e]);
      if Summarize(rs).earliest != Ts(rs[|rs| - 1]) {
        assert Summarize(rs).earliest == Ts(rs[e]);
      }
    } else {
      assert Summarize(rs).earliest == Ts(rs[0]);
    }
  }

  /** The last touch of a group is the first of its touches with the greatest timestamp. */
  lemma {:induction false} SummarizeLastTouch(rs: seq<StatRow>) returns (i: nat)
    requires rs != []
    ensures i < |rs| && Summarize(rs).lastTouch == rs[i]
    ensures forall j :: 0 <= j < |rs| ==> Ts(rs[j]) <= Ts(rs[i])
    ensures forall j :: 0 <= j < i ==> Ts(rs[j]) < Ts(rs[i])
  {
    if |rs| == 1 {
      i := 0;
    } else {
      var init := rs[..|rs| - 1];
      var n := |rs| - 1;
      var m := SummarizeLastTouch(init);
      if Ts(rs[n]) > Ts(Summarize(init).lastTouch) {
        i := n;
        forall j | 0 <= j < n ensures Ts(rs[j]) < Ts(rs[n]) {
          assert rs[j] == init[j];
        }
      } else {
        i := m;
        forall j | 0 <= j < |rs| ensures Ts(rs[j]) <= Ts(rs[i]) {
          if j < n {
            assert rs[j] == init[j];
          }
        }
        forall j | 0 <= j < i ensures Ts(rs[j]) < Ts(rs[i]) {
          assert rs[j] == init[j];
        }
      }
    }
  }

  /** The first loop's state: the keys in first-seen order and each key's summary. */
  datatype Collected = Collected(keys: seq<Key>, groups: map<Key, Group>)

  /** The rally map after the first loop has read the touches `s`. */
  function Collect(s: seq<StatRow>): (c: Collected)
    ensures forall k :: k in c.groups ==> InGroup(c.groups[k].lastTouch, k)
  {
    if s == [] then Collected([], map[])
    else
      var c := Collect(s[..|s| - 1]);
      var r := s[|s| - 1];
      if !Complete(r) then c
      else if KeyOf(r) in c.groups then Collected(c.keys, c.groups[KeyOf(r) := Absorb(c.groups[KeyOf(r)], r)])
      else Collected(c.keys + [KeyOf(r)], c.groups[KeyOf(r) := Open(r)])
  }

  /** The map's keys are listed once each, in the order first seen, and they are the keys of the non-empty groups. */
  lemma {:induction false} CollectKeys(s: seq<StatRow>)
    ensures forall k :: k in Collect(s).groups <==> k in Collect(s).keys
    ensures forall i, j :: 0 <= i < j < |Collect(s).keys| ==> Collect(s).keys[i] != Collect(s).keys[j]
    ensures forall k :: k in Collect(s).groups <==> GroupRows(s, k) != []
  {
    if s != [] {
      CollectKeys(s[..|s| - 1]);
    }
  }

  /** Each map entry is the summary of exactly its group's touches. */
  lemma {:induction false} CollectSummary(s: seq<StatRow>, k: Key)
    requires k in Collect(s).groups
    ensures GroupRows(s, k) != [] && Collect(s).groups[k] == Summarize(GroupRows(s, k))
  {
    var init := s[..|s| - 1];
    var r := s[|s| - 1];
    CollectKeys(init);
    var before := GroupRows(init, k);
    if InGroup(r, k) {
      if before != [] {
        CollectSummary(init, k);
        assert (before + [r])[..|before|] == before;
      }
    } else {
      assert GroupRows(s, k) == before;
      assert Collect(s).groups[k] == Collect(init).groups[k];
      CollectSummary(init, k);
    }
  }

  /** A rally window on the video timeline. */
  datatype Rally = Rally(start: real, end: real, setNumber: int, rallyId: int)

  /**
   * The window of one group: one second before its earliest touch, two more when a lone touch has
   * no player or the rally opened with something other than a serve and its last touch has a player,
   * never before 0; it ends `extraEndBuffer` after the last touch, one more for a lone Serve.
   */
  function Window(g: Group, extraEndBuffer: real): (w: Rally)
    requires Complete(g.lastTouch)
    ensures w.start >= 0.0
    ensures w.start <= MaxR(0.0, g.earliest - 1.0)
    ensures w.end >= Ts(g.lastTouch) + extraEndBuffer
    ensures (w.setNumber, w.rallyId) == KeyOf(g.lastTouch)
  {
    var t := g.lastTouch;
    var widen := (g.count == 1 && !Truthy(t.data.player))
                 || (Truthy(g.firstActionType) && Lower(g.firstActionType.value) != "serve" && Truthy(t.data.player));
    var start := MaxR(0.0, if widen then g.earliest - 1.0 - 2.0 else g.earliest - 1.0);
    var end := Ts(t) + extraEndBuffer + (if g.count == 1 && t.data.actionType == Some("Serve") then 1.0 else 0.0);
    Rally(start, end, t.setNumber.value, t.rallyId.value)
  }

  /** Every listed key has an entry whose last touch belongs to that key. */
  predicate Listed(keys: seq<Key>, groups: map<Key, Group>) {
    forall k :: k in keys ==> k in groups && InGroup(groups[k].lastTouch, k)
  }

  function Pair(w: Rally): Key { (w.setNumber, w.rallyId) }

  /** The windows of the listed groups, in the order listed. */
  function Windows(keys: seq<Key>, groups: map<Key, Group>, extraEndBuffer: real): (ws: seq<Rally>)
    requires Listed(keys, groups)
    ensures |ws| == |keys|
    ensures forall i :: 0 <= i < |keys| ==> ws[i] == Window(groups[keys[i]], extraEndBuffer) && Pair(ws[i]) == keys[i]
  {
    if keys == [] then []
    else Windows(keys[..|keys| - 1], groups, extraEndBuffer) + [Window(groups[keys[|keys| - 1]], extraEndBuffer)]
  }

  lemma CollectListed(s: seq<StatRow>)
    ensures Listed(Collect(s).keys, Collect(s).groups)
  {
    CollectKeys(s);
  }

  predicate StartLe(a: Rally, b: Rally) {
    a.start <= b.start
  }

  /** The windows before sorting, in first-seen order. */
  function Unsorted(s: seq<StatRow>, extraEndBuffer: real): seq<Rally>
  {
    CollectListed(s);
    Windows(Collect(s).keys, Collect(s).groups, extraEndBuffer)
  }

  /** `getRallyTimes(stats, extraEndBuffer)`. */
  function RallyTimes(stats: Option<seq<StatRow>>, extraEndBuffer: real): seq<Rally>
  {
    if stats.None? || stats.value == [] then [] else Lists.SortBy(Unsorted(stats.value, extraEndBuffer), StartLe)
  }

  /** The imperative segmenter: a loop filling the rally map, a loop building the windows, then the sort. */
  method GetRallyTimes(stats: Option<seq<StatRow>>, extraEndBuffer: real) returns (rallies: seq<Rally>)
    ensures rallies == RallyTimes(stats, extraEndBuffer)
  {
    if stats.None? || |stats.value| == 0 {
      return [];
    }
    var s := stats.value;
    var keys: seq<Key> := [];
    var groups: map<Key, Group> := map[];
    var i := 0;
    while i < |s|
      invariant 0 <= i <= |s|
      invariant Collected(keys, groups) == Collect(s[..i])
    {
      var stat := s[i];
      assert s[..i + 1][..i] == s[..i];
      if Complete(stat) {
        var key := KeyOf(stat);
        if key in groups {
          groups := groups[key := Absorb(groups[key], stat)];
        } else {
          keys := keys + [key];
          groups := groups[key := Open(stat)];
        }
      }
      i := i + 1;
    }
    assert s[..|s|] == s;
    CollectListed(s);
    var ws: seq<Rally> := [];
    var j := 0;
    while j < |keys|
      invariant 0 <= j <= |keys|
      invariant ws == Windows(keys[..j], groups, extraEndBuffer)
    {
      assert keys[..j + 1][..j] == keys[..j];
      ws := ws + [Window(groups[keys[j]], extraEndBuffer)];
      j := j + 1;
    }
    assert keys[..|keys|] == keys;
    rallies := Lists.SortBy(ws, StartLe);
  }

  // ---------------------------------------------------------------------
  // Properties

  lemma StartLeOrders()
    ensures Lists.Total(StartLe) && Lists.Transitive(StartLe)
  {
  }

  /** The output is sorted by start. */
  lemma RallyTimesSorted(stats: Option<seq<StatRow>>, extraEndBuffer: real)
    ensures Lists.SortedBy(RallyTimes(stats, extraEndBuffer), StartLe)
  {
    if stats.Some? && stats.value != [] {
      StartLeOrders();
      Lists.SortBySorted(Unsorted(stats.value, extraEndBuffer), StartLe);
    }
  }

  /** A rally of the output is the window of one group of the input. */
  lemma FromWindow(s: seq<StatRow>, extraEndBuffer: real, w: Rally) returns (m: nat)
    requires w in RallyTimes(Some(s), extraEndBuffer)
    ensures m < |Collect(s).keys| && Collect(s).keys[m] in Collect(s).groups
    ensures w == Window(Collect(s).groups[Collect(s).keys[m]], extraEndBuffer)
  {
    var ws := Unsorted(s, extraEndBuffer);
    CollectListed(s);
    assert w in multiset(ws);
    m :| 0 <= m < |ws| && ws[m] == w;
  }

  /** No two rallies of the output carry the same (set, rally id). */
  lemma RallyTimesDistinct(stats: seq<StatRow>, extraEndBuffer: real)
    ensures Lists.DistinctBy(RallyTimes(Some(stats), extraEndBuffer), Pair)
  {
    if stats != [] {
      CollectKeys(stats);
      var ws := Unsorted(stats, extraEndBuffer);
      assert Lists.DistinctBy(ws, Pair);
      Lists.SortByDistinct(ws, StartLe, Pair);
    }
  }

  /** A (set, rally id) pair is carried by some rally exactly when some complete touch has it. */
  lemma RallyTimesPairs(stats: seq<StatRow>, extraEndBuffer: real, k: Key)
    ensures (exists w :: w in RallyTimes(Some(stats), extraEndBuffer) && Pair(w) == k)
            <==> (exists r :: r in stats && InGroup(r, k))
  {
    var out := RallyTimes(Some(stats), extraEndBuffer);
    CollectKeys(stats);
    GroupRowsFrom(stats, k);
    if exists w :: w in out && Pair(w) == k {
      var w :| w in out && Pair(w) == k;
      var m := FromWindow(stats, extraEndBuffer, w);
      var rs := GroupRows(stats, k);
      assert rs[0] in rs;
    }
    if exists r :: r in stats && InGroup(r, k) {
      var r :| r in stats && InGroup(r, k);
      assert r in GroupRows(stats, k);
      var ws := Unsorted(stats, extraEndBuffer);
      var m :| 0 <= m < |Collect(stats).keys| && Collect(stats).keys[m] == k;
      assert ws[m] in multiset(out);
      assert ws[m] in out && Pair(ws[m]) == k;
    }
  }

  /** Every start is at least 0; with non-negative times and buffer, every rally starts no later than it ends. */
  lemma RallyTimesBounds(stats: seq<StatRow>, extraEndBuffer: real, w: Rally)
    requires w in RallyTimes(Some(stats), extraEndBuffer)
    ensures w.start >= 0.0
    ensures extraEndBuffer >= 0.0 && (forall r :: r in stats && Complete(r) ==> Ts(r) >= 0.0) ==> w.start <= w.end
  {
    var m := FromWindow(stats, extraEndBuffer, w);
    var c := Collect(stats);
    var k := c.keys[m];
    CollectSummary(stats, k);
    var rs := GroupRows(stats, k);
    SummarizeEarliest(rs);
    var l := SummarizeLastTouch(rs);
    GroupRowsFrom(stats, k);
    assert rs[l] in rs;
    assert c.groups[k].earliest <= Ts(c.groups[k].lastTouch);
  }

  /** The complete touches, in input order. */
  function Kept(s: seq<StatRow>): (k: seq<StatRow>)
    ensures forall i :: 0 <= i < |k| ==> Complete(k[i])
  {
    if s == [] then [] else Kept(s[..|s| - 1]) + (if Complete(s[|s| - 1]) then [s[|s| - 1]] else [])
  }

  /** Touches missing a set, a rally id or a timestamp do not affect the rally map. */
  lemma {:induction false} CollectIgnoresIncomplete(s: seq<StatRow>)
    ensures Collect(s) == Collect(Kept(s))
  {
    if s != [] {
      var init := s[..|s| - 1];
      var r := s[|s| - 1];
      CollectIgnoresIncomplete(init);
      var f := Kept(init);
      if Complete(r) {
        assert Kept(s) == f + [r];
        assert (f + [r])[..|f|] == f;
      } else {
        assert Kept(s) == f;
      }
    }
  }

  lemma RallyTimesIgnoresIncomplete(stats: seq<StatRow>, extraEndBuffer: real)
    requires Kept(stats) != []
    ensures RallyTimes(Some(stats), extraEndBuffer) == RallyTimes(Some(Kept(stats)), extraEndBuffer)
  {
    CollectIgnoresIncomplete(stats);
  }

  lemma {:induction false} CollectNothing(s: seq<StatRow>)
    requires forall i :: 0 <= i < |s| ==> !Complete(s[i])
    ensures Collect(s) == Collected([], map[])
  {
    if s != [] {
      CollectNothing(s[..|s| - 1]);
    }
  }

  /** Null and empty input give no rallies; so does input without a single complete touch. */
  lemma RallyTimesEmpty(stats: Option<seq<StatRow>>, extraEndBuffer: real)
    ensures stats.None? ==> RallyTimes(stats, extraEndBuffer) == []
    ensures stats.Some? && (forall i :: 0 <= i < |stats.value| ==> !Complete(stats.value[i]))
            ==> RallyTimes(stats, extraEndBuffer) == []
  {
    if stats.Some? && forall i :: 0 <= i < |stats.value| ==> !Complete(stats.value[i]) {
      CollectNothing(stats.value);
    }
  }

  function Touch(id: string, t: real, action: Option<string>): StatRow {
    var e := EmptyRow(id, "g");
    e.(setNumber := Some(1), rallyId := Some(1), data := e.data.(timestamp := Some(t), actionType := action))
  }

  /** Two set-1 rally-1 touches at 10 and 12, the later one a Serve with no player: one window [9, 13]. */
  lemma TwoTouchRally()
    ensures RallyTimes(Some([Touch("a", 10.0, None), Touch("b", 12.0, Some("Serve"))]), 1.0) == [Rally(9.0, 13.0, 1, 1)]
  {
    var a := Touch("a", 10.0, None);
    var b := Touch("b", 12.0, Some("Serve"));
    var s := [a, b];
    assert s[..1] == [a];
    assert Collect([a]) == Collected([(1, 1)], map[(1, 1) := Open(a)]) by {
      assert [a][..0] == [];
    }
    assert Collect(s) == Collected([(1, 1)], map[(1, 1) := Group(10.0, b, None, 2)]);
    assert Unsorted(s, 1.0) == [Rally(9.0, 13.0, 1, 1)];
  }
}
