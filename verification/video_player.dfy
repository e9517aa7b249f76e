/**
 * The video player's view of the rallies (VideoPlayer): which rally the
 * playhead is in and its number within its set, the jump to the next or the
 * previous rally, auto-advance across dead time, the next touches and the
 * score shown over the video, and the rotation and pan of the zoomed picture.
 */
module VideoPlayer {
  import opened Common
  import opened Rows
  import Lists
  import RallyTimes
  import DBStats

  type Rally = RallyTimes.Rally

  /** Seconds into a rally within which "previous rally" still goes one rally back. */
  const RALLY_NAVIGATION_BUFFER: real := 2.0
  /** Seconds of play kept after a rally's last touch. */
  const RALLY_EXTRA_END_BUFFER: real := 3.0
  /** How far one arrow key moves the zoomed picture. */
  const PAN_STEP: real := 20.0
  /** At most this many upcoming touches are listed. */
  const TOUCH_BUFFER_SIZE: nat := 3

  // ---------------------------------------------------------------------
  // Rotation and pan

  /**
   * `normalizeRotation`: `((deg + 180) % 360 + 360) % 360 - 180` with
   * JavaScript's truncating remainder. The angle is whole degrees: the
   * controls only ever add or subtract 1 or 5.
   */
  function NormalizeRotation(deg: int): (r: int)
    ensures -180 <= r < 180
  {
    JsRem(JsRem(deg + 180, 360) + 360, 360) - 180
  }

  /** JavaScript's `a % 360` differs from `a` by a whole number of turns. */
  lemma JsRem360(a: int) returns (q: int)
    ensures a - JsRem(a, 360) == 360 * q
  {
    if a >= 0 {
      q := a / 360;
    } else {
      q := -((-a) / 360);
    }
  }

  /** The normalized angle is the same rotation as the one given. */
  lemma NormalizeRotationCongruent(deg: int)
    ensures (NormalizeRotation(deg) - deg) % 360 == 0
  {
    var b := JsRem(deg + 180, 360);
    var q1 := JsRem360(deg + 180);
    var q2 := JsRem360(b + 360);
    assert NormalizeRotation(deg) - deg == 360 * (1 - q1 - q2);
  }

  /** An angle already in [-180, 180) is left as it is. */
  lemma NormalizeRotationFixed(deg: int)
    requires -180 <= deg < 180
    ensures NormalizeRotation(deg) == deg
  {
    assert JsRem(deg + 180, 360) == deg + 180;
  }

  /** The picture's offset while zoomed, in pixels. */
  datatype Pan = Pan(x: real, y: real)

  /** `Math.max(Math.min(v, hi), lo)`. */
  function Clamp(v: real, lo: real, hi: real): real {
    MaxR(MinR(v, hi), lo)
  }

  predicate IsArrow(direction: string) {
    direction == "up" || direction == "down" || direction == "left" || direction == "right"
  }

  /**
   * `panByArrow`: an arrow moves the picture by one step and clamps both
   * offsets to what the zoom leaves hidden, 500 pixels per unit of zoom
   * across and 300 down; any other key changes nothing.
   */
  function PanByArrow(prev: Pan, zoom: real, direction: string): (r: Pan)
    ensures !IsArrow(direction) ==> r == prev
    ensures IsArrow(direction) && zoom >= 1.0 ==>
      -(zoom - 1.0) * 500.0 <= r.x <= (zoom - 1.0) * 500.0 &&
      -(zoom - 1.0) * 300.0 <= r.y <= (zoom - 1.0) * 300.0
  {
    if !IsArrow(direction) then prev
    else
      var dx := if direction == "left" then PAN_STEP else if direction == "right" then -PAN_STEP else 0.0;
      var dy := if direction == "up" then PAN_STEP else if direction == "down" then -PAN_STEP else 0.0;
      Pan(Clamp(prev.x + dx, (zoom - 1.0) * -500.0, (zoom - 1.0) * 500.0),
          Clamp(prev.y + dy, (zoom - 1.0) * -300.0, (zoom - 1.0) * 300.0))
  }

  /** Within the bounds, an arrow moves the picture by exactly one step along its own axis. */
  lemma PanByArrowExact(prev: Pan, zoom: real)
    requires zoom >= 1.0
    requires -(zoom - 1.0) * 500.0 <= prev.x <= (zoom - 1.0) * 500.0
    requires -(zoom - 1.0) * 300.0 <= prev.y + PAN_STEP <= (zoom - 1.0) * 300.0
    ensures PanByArrow(prev, zoom, "up") == Pan(prev.x, prev.y + PAN_STEP)
  {
  }

  /** Unzoomed, the picture cannot move at all. */
  lemma PanUnzoomed(prev: Pan, direction: string)
    requires IsArrow(direction)
    ensures PanByArrow(prev, 1.0, direction) == Pan(0.0, 0.0)
  {
  }

  // ---------------------------------------------------------------------
  // Which rally the playhead is in

  predicate Contains(r: Rally, t: real) {
    r.start <= t < r.end
  }

  function ContainsTime(t: real): Rally -> bool {
    (r: Rally) => Contains(r, t)
  }

  /** `rallyTimes.findIndex(r => t >= r.start && t < r.end)`: the first rally whose half-open window holds `t`, or -1. */
  function FindRally(rallies: seq<Rally>, t: real): (i: int)
    ensures -1 <= i < |rallies|
    ensures i >= 0 ==> rallies[i].start <= t < rallies[i].end
    ensures forall j :: 0 <= j < |rallies| && (i == -1 || j < i) ==> !(rallies[j].start <= t < rallies[j].end)
  {
    Lists.FindIndexBy(rallies, ContainsTime(t))
  }

  // ---------------------------------------------------------------------
  // Rallies grouped by set

  function InSet(setNumber: int): Rally -> bool {
    (r: Rally) => r.setNumber == setNumber
  }

  /** The entry of `ralliesBySet` for a set: its rallies in list order, sorted by start. */
  function SetRallies(rallies: seq<Rally>, setNumber: int): seq<Rally> {
    Lists.SortBy(Lists.Filter(rallies, InSet(setNumber)), RallyTimes.StartLe)
  }

  predicate StartsOrdered(group: seq<Rally>) {
    forall i, j :: 0 <= i < j < |group| ==> group[i].start <= group[j].start
  }

  /** A set's list holds exactly that set's rallies, ordered by start. */
  lemma SetRalliesOrdered(rallies: seq<Rally>, setNumber: int)
    ensures multiset(SetRallies(rallies, setNumber)) == multiset(Lists.Filter(rallies, InSet(setNumber)))
    ensures StartsOrdered(SetRallies(rallies, setNumber))
  {
    RallyTimes.StartLeOrders();
    Lists.SortBySorted(Lists.Filter(rallies, InSet(setNumber)), RallyTimes.StartLe);
  }

  /** The lists `ralliesBySet` holds before sorting: each truthy set's rallies in list order. */
  function Groups(rallies: seq<Rally>): map<int, seq<Rally>> {
    if rallies == [] then map[]
    else
      var last := rallies[|rallies| - 1];
      var g := Groups(rallies[..|rallies| - 1]);
      if last.setNumber == 0 then g
      else g[last.setNumber := (if last.setNumber in g then g[last.setNumber] else []) + [last]]
  }

  /** Set `s` has a list exactly when it is truthy and one of its rallies is listed, and the list is those rallies in order. */
  lemma {:induction false} GroupAt(rallies: seq<Rally>, s: int)
    ensures s in Groups(rallies) <==> s != 0 && Lists.Filter(rallies, InSet(s)) != []
    ensures s in Groups(rallies) ==> Groups(rallies)[s] == Lists.Filter(rallies, InSet(s))
  {
    if rallies != [] {
      var init := rallies[..|rallies| - 1];
      var last := rallies[|rallies| - 1];
      GroupAt(init, s);
      assert rallies == init + [last];
      Lists.FilterAppend(init, [last], InSet(s));
    }
  }

  /** Every set at once: the lists are the truthy sets' filters. */
  lemma GroupsAreFilters(rallies: seq<Rally>)
    ensures 0 !in Groups(rallies)
    ensures forall s :: s != 0 ==> (s in Groups(rallies) <==> Lists.Filter(rallies, InSet(s)) != [])
    ensures forall s :: s in Groups(rallies) ==> Groups(rallies)[s] == Lists.Filter(rallies, InSet(s))
  {
    forall s {
      GroupAt(rallies, s);
    }
  }

  /**
   * `ralliesBySet`: a loop appending every rally whose set is truthy to its
   * set's list, then a loop sorting each list by start.
   */
  method BuildRalliesBySet(rallies: seq<Rally>) returns (bySet: map<int, seq<Rally>>)
    ensures forall s :: s in bySet <==> s != 0 && exists r :: r in rallies && r.setNumber == s
    ensures forall s :: s in bySet ==> bySet[s] == SetRallies(rallies, s)
  {
    var groups, order := GroupBySet(rallies);
    bySet := SortEachGroup(groups, order);
    GroupsAreFilters(rallies);
    forall s | s != 0 && exists r :: r in rallies && r.setNumber == s
      ensures s in bySet
    {
      var r :| r in rallies && r.setNumber == s;
      assert r in Lists.Filter(rallies, InSet(s));
    }
  }

  /** The first loop of `ralliesBySet`; `order` lists the sets as the map's keys are iterated, by first appearance. */
  method GroupBySet(rallies: seq<Rally>) returns (bySet: map<int, seq<Rally>>, order: seq<int>)
    ensures bySet == Groups(rallies)
    ensures forall s :: s in bySet <==> s in order
    ensures forall a, b :: 0 <= a < b < |order| ==> order[a] != order[b]
  {
    bySet := map[];
    order := [];
    for i := 0 to |rallies|
      invariant bySet == Groups(rallies[..i])
      invariant forall s :: s in bySet <==> s in order
      invariant forall a, b :: 0 <= a < b < |order| ==> order[a] != order[b]
    {
      var rally := rallies[i];
      assert rallies[..i + 1][..i] == rallies[..i];
      if rally.setNumber != 0 {
        if rally.setNumber !in bySet {
          bySet := bySet[rally.setNumber := []];
          order := order + [rally.setNumber];
        }
        bySet := bySet[rally.setNumber := bySet[rally.setNumber] + [rally]];
      }
    }
    assert rallies[..|rallies|] == rallies;
  }

  /** The second loop of `ralliesBySet`: every list sorted by start, in place. */
  method SortEachGroup(groups: map<int, seq<Rally>>, order: seq<int>) returns (bySet: map<int, seq<Rally>>)
    requires forall s :: s in groups <==> s in order
    requires forall a, b :: 0 <= a < b < |order| ==> order[a] != order[b]
    ensures bySet.Keys == groups.Keys
    ensures forall s :: s in bySet ==> bySet[s] == Lists.SortBy(groups[s], RallyTimes.StartLe)
  {
    bySet := groups;
    for j := 0 to |order|
      invariant bySet.Keys == groups.Keys
      invariant forall s :: s in bySet ==> bySet[s] == if s in order[..j] then Lists.SortBy(groups[s], RallyTimes.StartLe) else groups[s]
    {
      var key := order[j];
      assert forall s :: s in order[..j + 1] <==> s in order[..j] || s == key;
      bySet := bySet[key := Lists.SortBy(bySet[key], RallyTimes.StartLe)];
    }
    assert order[..|order|] == order;
  }

  /**
   * The number shown for a rally: one more than the position of the first
   * rally of its set's list starting when it does; None when its set is
   * falsy and so has no list.
   */
  function RallyNumber(rallies: seq<Rally>, current: Rally): Option<int> {
    var group := SetRallies(rallies, current.setNumber);
    if current.setNumber == 0 || group == [] then None
    else Some(Lists.FindIndexBy(group, (r: Rally) => r.start == current.start) + 1)
  }

  /** A rally is listed under its own set. */
  lemma InOwnSet(rallies: seq<Rally>, i: nat)
    requires i < |rallies|
    ensures rallies[i] in SetRallies(rallies, rallies[i].setNumber)
  {
    SetRalliesOrdered(rallies, rallies[i].setNumber);
    assert rallies[i] in Lists.Filter(rallies, InSet(rallies[i].setNumber));
    assert rallies[i] in multiset(SetRallies(rallies, rallies[i].setNumber));
  }

  /** In a list ordered by start, the first rally starting with `current` has only earlier starts before it. */
  lemma FirstAtStart(group: seq<Rally>, current: Rally) returns (idx: int)
    requires StartsOrdered(group) && current in group
    ensures idx == Lists.FindIndexBy(group, (r: Rally) => r.start == current.start)
    ensures 0 <= idx < |group| && group[idx].start == current.start
    ensures forall j :: 0 <= j < idx ==> group[j].start < current.start
    ensures forall j :: idx <= j < |group| ==> group[j].start >= current.start
  {
    var k :| 0 <= k < |group| && group[k] == current;
    var atStart := (r: Rally) => r.start == current.start;
    assert atStart(group[k]);
    idx := Lists.FindIndexBy(group, atStart);
    forall j | 0 <= j < idx
      ensures group[j].start < current.start
    {
      assert group[j].start <= group[idx].start;
    }
    forall j | idx <= j < |group|
      ensures group[j].start >= current.start
    {
      if j > idx {
        assert group[idx].start <= group[j].start;
      }
    }
  }

  /**
   * A listed rally of a truthy set gets a number between 1 and the size of its
   * set, and that many rallies of the set start no later than it, exactly
   * one fewer strictly earlier.
   */
  lemma RallyNumberPosition(rallies: seq<Rally>, i: nat) returns (group: seq<Rally>, n: int)
    requires i < |rallies| && rallies[i].setNumber != 0
    ensures group == SetRallies(rallies, rallies[i].setNumber)
    ensures RallyNumber(rallies, rallies[i]) == Some(n)
    ensures 1 <= n <= |group|
    ensures group[n - 1].start == rallies[i].start
    ensures forall j :: 0 <= j < n - 1 ==> group[j].start < rallies[i].start
    ensures forall j :: n - 1 <= j < |group| ==> group[j].start >= rallies[i].start
  {
    group := SetRallies(rallies, rallies[i].setNumber);
    InOwnSet(rallies, i);
    SetRalliesOrdered(rallies, rallies[i].setNumber);
    var idx := FirstAtStart(group, rallies[i]);
    n := idx + 1;
  }

  // ---------------------------------------------------------------------
  // Jumping between rallies

  /** `rallyStartTimestamps`. */
  function Starts(rallies: seq<Rally>): (r: seq<real>)
    ensures |r| == |rallies|
    ensures forall k :: 0 <= k < |rallies| ==> r[k] == rallies[k].start
  {
    Lists.Map(rallies, (r: Rally) => r.start)
  }

  function NumericGe(): (real, real) -> bool {
    (a: real, b: real) => a >= b
  }

  function After(t: real): real -> bool {
    (ts: real) => ts > t
  }

  function Before(t: real): real -> bool {
    (ts: real) => ts < t
  }

  /** `sorted.find(ts => ts > t)` over the starts sorted with `(a, b) => a - b`. */
  function NextRallyStart(rallies: seq<Rally>, t: real): Option<real> {
    var sorted := Lists.SortBy(Starts(rallies), DBStats.NumericLe());
    var i := Lists.FindIndexBy(sorted, After(t));
    if i == -1 then None else Some(sorted[i])
  }

  /** `sorted.find(ts => ts < t - 2)` over the starts sorted with `(a, b) => b - a`. */
  function PreviousRallyStart(rallies: seq<Rally>, t: real): Option<real> {
    var sorted := Lists.SortBy(Starts(rallies), NumericGe());
    var i := Lists.FindIndexBy(sorted, Before(t - RALLY_NAVIGATION_BUFFER));
    if i == -1 then None else Some(sorted[i])
  }

  /** Some listed rally starts at `x`. */
  predicate IsStart(rallies: seq<Rally>, x: real) {
    exists k :: 0 <= k < |rallies| && rallies[k].start == x
  }

  /** Sorting the starts, either way round, keeps exactly the starts. */
  lemma SortedStartsAreStarts(rallies: seq<Rally>, le: (real, real) -> bool)
    ensures forall x :: x in Lists.SortBy(Starts(rallies), le) <==> IsStart(rallies, x)
  {
    var starts := Starts(rallies);
    assert forall x :: x in Lists.SortBy(starts, le) <==> x in multiset(starts);
    forall x | IsStart(rallies, x)
      ensures x in starts
    {
      var k :| 0 <= k < |rallies| && rallies[k].start == x;
      assert starts[k] == x;
    }
  }

  lemma StartsAscending(rallies: seq<Rally>)
    ensures DBStats.Ascending(Lists.SortBy(Starts(rallies), DBStats.NumericLe()))
  {
    var le := DBStats.NumericLe();
    assert Lists.Total(le) && Lists.Transitive(le);
    Lists.SortBySorted(Starts(rallies), le);
    var sorted := Lists.SortBy(Starts(rallies), le);
    forall i, j | 0 <= i < j < |sorted| ensures sorted[i] <= sorted[j] {
      assert le(sorted[i], sorted[j]);
    }
  }

  lemma StartsDescending(rallies: seq<Rally>)
    ensures forall i, j :: 0 <= i < j < |Lists.SortBy(Starts(rallies), NumericGe())| ==>
      Lists.SortBy(Starts(rallies), NumericGe())[i] >= Lists.SortBy(Starts(rallies), NumericGe())[j]
  {
    var ge := NumericGe();
    assert Lists.Total(ge) && Lists.Transitive(ge);
    Lists.SortBySorted(Starts(rallies), ge);
    var sorted := Lists.SortBy(Starts(rallies), ge);
    forall i, j | 0 <= i < j < |sorted| ensures sorted[i] >= sorted[j] {
      assert ge(sorted[i], sorted[j]);
    }
  }

  /** The next rally start is the earliest start strictly after `t`; there is none only when no rally starts after `t`. */
  lemma NextRallyStartLeast(rallies: seq<Rally>, t: real)
    ensures NextRallyStart(rallies, t).None? <==> forall k :: 0 <= k < |rallies| ==> rallies[k].start <= t
    ensures NextRallyStart(rallies, t).Some? ==>
      NextRallyStart(rallies, t).value > t && IsStart(rallies, NextRallyStart(rallies, t).value) &&
      forall k :: 0 <= k < |rallies| && rallies[k].start > t ==> rallies[k].start >= NextRallyStart(rallies, t).value
  {
    var sorted := Lists.SortBy(Starts(rallies), DBStats.NumericLe());
    SortedStartsAreStarts(rallies, DBStats.NumericLe());
    StartsAscending(rallies);
    var i := Lists.FindIndexBy(sorted, After(t));
    forall k | 0 <= k < |rallies| && rallies[k].start > t
      ensures i >= 0 && rallies[k].start >= sorted[i]
    {
      assert IsStart(rallies, rallies[k].start);
      var m :| 0 <= m < |sorted| && sorted[m] == rallies[k].start;
      assert After(t)(sorted[m]);
    }
    if i >= 0 {
      assert IsStart(rallies, sorted[i]);
      var k :| 0 <= k < |rallies| && rallies[k].start == sorted[i];
    }
  }

  /** The previous rally start is the latest start strictly before `t - 2`; there is none only when no rally starts that early. */
  lemma PreviousRallyStartGreatest(rallies: seq<Rally>, t: real)
    ensures PreviousRallyStart(rallies, t).None? <==> forall k :: 0 <= k < |rallies| ==> rallies[k].start >= t - RALLY_NAVIGATION_BUFFER
    ensures PreviousRallyStart(rallies, t).Some? ==>
      PreviousRallyStart(rallies, t).value < t - RALLY_NAVIGATION_BUFFER && IsStart(rallies, PreviousRallyStart(rallies, t).value) &&
      forall k :: 0 <= k < |rallies| && rallies[k].start < t - RALLY_NAVIGATION_BUFFER ==> rallies[k].start <= PreviousRallyStart(rallies, t).value
  {
    var sorted := Lists.SortBy(Starts(rallies), NumericGe());
    SortedStartsAreStarts(rallies, NumericGe());
    StartsDescending(rallies);
    var i := Lists.FindIndexBy(sorted, Before(t - RALLY_NAVIGATION_BUFFER));
    forall k | 0 <= k < |rallies| && rallies[k].start < t - RALLY_NAVIGATION_BUFFER
      ensures i >= 0 && rallies[k].start <= sorted[i]
    {
      assert IsStart(rallies, rallies[k].start);
      var m :| 0 <= m < |sorted| && sorted[m] == rallies[k].start;
      assert Before(t - RALLY_NAVIGATION_BUFFER)(sorted[m]);
    }
    if i >= 0 {
      assert IsStart(rallies, sorted[i]);
      var k :| 0 <= k < |rallies| && rallies[k].start == sorted[i];
    }
  }

  /**
   * The next-rally button: it does nothing while a highlight reel plays; otherwise it seeks
   * to the next rally start, if any. Ctrl+Right seeks the same way outside a highlight reel;
   * during one the Ctrl guard does not apply and the key is handled as a plain arrow key.
   */
  function SeekNextRally(rallies: seq<Rally>, t: real, customPlayback: bool): real {
    if customPlayback then t else NextRallyStart(rallies, t).GetOr(t)
  }

  /** The previous-rally button, and Ctrl+Left outside a highlight reel. */
  function SeekPreviousRally(rallies: seq<Rally>, t: real, customPlayback: bool): real {
    if customPlayback then t else PreviousRallyStart(rallies, t).GetOr(t)
  }

  /**
   * A jump forward then back lands no later than where it started: the
   * earliest start after `t` is not before `t - 2`, so going back picks a
   * start before it.
   */
  lemma NextThenPrevious(rallies: seq<Rally>, t: real)
    requires NextRallyStart(rallies, t).Some?
    ensures SeekPreviousRally(rallies, SeekNextRally(rallies, t, false), false) <= SeekNextRally(rallies, t, false)
    ensures SeekNextRally(rallies, t, false) > t
  {
    NextRallyStartLeast(rallies, t);
    var x := NextRallyStart(rallies, t).value;
    PreviousRallyStartGreatest(rallies, x);
  }

  // ---------------------------------------------------------------------
  // Upcoming touches and the score

  predicate TouchAfter(s: StatRow, t: real) {
    s.data.timestamp.Some? && s.data.timestamp.value > t
  }

  function IsAfter(t: real): StatRow -> bool {
    (s: StatRow) => TouchAfter(s, t)
  }

  /** `stats.filter(s => s.timestamp > t).slice(0, 3)`. */
  function Upcoming(stats: seq<StatRow>, t: real): (r: seq<StatRow>)
    ensures |r| <= TOUCH_BUFFER_SIZE
    ensures forall x :: x in r ==> x in stats && TouchAfter(x, t)
    ensures |r| < TOUCH_BUFFER_SIZE ==> forall x :: x in stats && TouchAfter(x, t) ==> x in r
  {
    var later := Lists.Filter(stats, IsAfter(t));
    if |later| <= TOUCH_BUFFER_SIZE then later
    else
      assert forall x :: x in later[..TOUCH_BUFFER_SIZE] ==> x in later;
      later[..TOUCH_BUFFER_SIZE]
  }

  /** The upcoming touches keep list order: they are the first ones of the later touches. */
  lemma UpcomingInOrder(stats: seq<StatRow>, t: real)
    ensures Upcoming(stats, t) <= Lists.Filter(stats, IsAfter(t))
  {
  }

  predicate Scored(s: StatRow, t: real) {
    s.data.timestamp.Some? && s.data.timestamp.value <= t && s.ourScore.Some? && s.oppScore.Some?
  }

  function IsScored(t: real): StatRow -> bool {
    (s: StatRow) => Scored(s, t)
  }

  /** The index of the last row in list order touched by `t` with both scores, or -1. */
  function LatestScored(stats: seq<StatRow>, t: real): (i: int)
    ensures -1 <= i < |stats|
    ensures i >= 0 ==> Scored(stats[i], t)
    ensures forall j :: 0 <= j < |stats| && j > i ==> !Scored(stats[j], t)
  {
    if stats == [] then -1
    else if Scored(stats[|stats| - 1], t) then |stats| - 1
    else LatestScored(stats[..|stats| - 1], t)
  }

  datatype Scoreline = Scoreline(our: int, opp: int)

  /** The score and set shown when the playhead is at `t`: the latest scored row's, with set 1 for a row without one, else 0 - 0 in set 1. */
  function ScoreAt(stats: seq<StatRow>, t: real): (Scoreline, int) {
    var i := LatestScored(stats, t);
    if i == -1 then (Scoreline(0, 0), 1)
    else (Scoreline(stats[i].ourScore.value, stats[i].oppScore.value), stats[i].setNumber.GetOr(1))
  }

  /** Scores only move forward in time: at a later time the score comes from the same row or a later one. */
  lemma LatestScoredMonotone(stats: seq<StatRow>, t: real, u: real)
    requires t <= u
    ensures LatestScored(stats, t) <= LatestScored(stats, u)
  {
    var i := LatestScored(stats, t);
    if i >= 0 {
      assert Scored(stats[i], u);
    }
  }

  // ---------------------------------------------------------------------
  // The tracker run on every time update

  /** What `updateTouchBuffer` reads besides its own refs. */
  datatype Frame = Frame(
    hasVideo: bool,
    stats: seq<StatRow>,
    rallies: seq<Rally>,
    autoplay: bool,
    paused: bool,
    statUpdatePaused: bool,
    overrideSet: Option<int>)

  /** The tracker's refs, its shown state and the video's current time. */
  datatype Tracked = Tracked(
    rallyIndex: int,
    resumeAfter: Option<real>,
    touchBuffer: seq<StatRow>,
    currentSet: int,
    currentScore: Scoreline,
    previousScore: Option<Scoreline>,
    rallyNumber: Option<int>,
    time: real)

  /** The rally whose end auto-advance looks at: the one the playhead is in, else the last one it was in. */
  function RallyInUse(f: Frame, s: Tracked): int {
    var found := FindRally(f.rallies, s.time);
    if found != -1 then found else s.rallyIndex
  }

  /** Auto-advance fires: autoplay on, a known rally, the playhead past its end, and a later rally listed. */
  predicate AdvanceDue(f: Frame, s: Tracked) {
    var i := RallyInUse(f, s);
    f.autoplay && 0 <= i < |f.rallies| && s.time > f.rallies[i].end && i < |f.rallies| - 1
  }

  /** The first part of `updateTouchBuffer`: inside a rally, remember it and show its set and number. */
  function Locate(f: Frame, s: Tracked): Tracked {
    var found := FindRally(f.rallies, s.time);
    if found == -1 then s
    else if f.rallies[found].setNumber != 0 then
      s.(rallyIndex := found, currentSet := f.rallies[found].setNumber,
         rallyNumber := RallyNumber(f.rallies, f.rallies[found]))
    else s.(rallyIndex := found)
  }

  /** The last part: list the upcoming touches, then refresh the score unless something holds it. */
  function Refresh(f: Frame, s: Tracked): Tracked {
    var t := s.time;
    var s2 := s.(touchBuffer := Upcoming(f.stats, t));
    if f.statUpdatePaused then
      if f.overrideSet.Some? && f.overrideSet.value != 0 then
        s2.(currentSet := f.overrideSet.value, currentScore := Scoreline(0, 0), previousScore := Some(Scoreline(0, 0)))
      else s2
    else if f.paused then s2
    else if s2.resumeAfter.Some? && t < s2.resumeAfter.value then s2
    else
      var (score, setNumber) := ScoreAt(f.stats, t);
      s2.(resumeAfter := None, currentScore := score, currentSet := setNumber,
          previousScore := if LatestScored(f.stats, t) == -1 then None else Some(score))
  }

  /** `updateTouchBuffer(overrideSetNumber)` as one step of the tracker's state. */
  function Update(f: Frame, s: Tracked): Tracked {
    if !f.hasVideo || f.stats == [] || f.rallies == [] then s
    else if AdvanceDue(f, s) && NextRallyStart(f.rallies, s.time).Some? then
      Locate(f, s).(time := NextRallyStart(f.rallies, s.time).value)
    else Refresh(f, Locate(f, s))
  }

  /** Inside a rally, the tracker remembers it and shows its number within its set. */
  lemma UpdateInRally(f: Frame, s: Tracked)
    requires f.hasVideo && f.stats != [] && f.rallies != []
    requires FindRally(f.rallies, s.time) != -1
    ensures var i := Update(f, s).rallyIndex;
      0 <= i < |f.rallies| && Contains(f.rallies[i], s.time) &&
      (forall j :: 0 <= j < i ==> !Contains(f.rallies[j], s.time))
    ensures f.rallies[FindRally(f.rallies, s.time)].setNumber != 0 ==>
      Update(f, s).rallyNumber == RallyNumber(f.rallies, f.rallies[FindRally(f.rallies, s.time)])
  {
  }

  /**
   * The tracker moves the playhead only to auto-advance: then autoplay is on,
   * the playhead is past the end of the rally in use, a later rally is listed,
   * and the new time is the earliest rally start after the old one.
   */
  lemma UpdateSeeksOnlyToAdvance(f: Frame, s: Tracked)
    requires Update(f, s).time != s.time
    ensures f.autoplay
    ensures var i := RallyInUse(f, s); 0 <= i < |f.rallies| - 1 && s.time > f.rallies[i].end
    ensures Update(f, s).time > s.time
    ensures forall k :: 0 <= k < |f.rallies| && f.rallies[k].start > s.time ==> f.rallies[k].start >= Update(f, s).time
    ensures Update(f, s).touchBuffer == s.touchBuffer
  {
    assert Locate(f, s).time == s.time && Locate(f, s).touchBuffer == s.touchBuffer;
    assert Refresh(f, Locate(f, s)).time == s.time;
    assert AdvanceDue(f, s) && NextRallyStart(f.rallies, s.time).Some?;
    NextRallyStartLeast(f.rallies, s.time);
  }

  /** Without an auto-advance, the upcoming touches are listed. */
  lemma UpdateListsTouches(f: Frame, s: Tracked)
    requires f.hasVideo && f.stats != [] && f.rallies != []
    requires !AdvanceDue(f, s)
    ensures Update(f, s).touchBuffer == Upcoming(f.stats, s.time)
    ensures Update(f, s).time == s.time
  {
  }

  /**
   * When the playing video's score is refreshed (no stat-update pause and no
   * pending resume time ahead), the score is the latest scored row's, or 0 - 0
   * in set 1 when there is none; a pending resume time ahead keeps the score.
   */
  lemma UpdateScore(f: Frame, s: Tracked)
    requires f.hasVideo && f.stats != [] && f.rallies != []
    requires !AdvanceDue(f, s) && !f.statUpdatePaused && !f.paused
    ensures s.resumeAfter.Some? && s.time < s.resumeAfter.value ==> Update(f, s).currentScore == s.currentScore
    ensures s.resumeAfter.None? || s.time >= s.resumeAfter.value ==>
      Update(f, s).resumeAfter.None? &&
      var i := LatestScored(f.stats, s.time);
      (i == -1 ==> Update(f, s).currentScore == Scoreline(0, 0) && Update(f, s).currentSet == 1) &&
      (i >= 0 ==> Update(f, s).currentScore == Scoreline(f.stats[i].ourScore.value, f.stats[i].oppScore.value))
  {
  }

  /** `updateTouchBuffer`'s refs and state, with the video's current time. */
  class Tracker {
    var rallyIndex: int
    var resumeAfter: Option<real>
    var touchBuffer: seq<StatRow>
    var currentSet: int
    var currentScore: Scoreline
    var previousScore: Option<Scoreline>
    var rallyNumber: Option<int>
    var time: real

    function State(): Tracked
      reads this
    {
      Tracked(rallyIndex, resumeAfter, touchBuffer, currentSet, currentScore, previousScore, rallyNumber, time)
    }

    /** Before any rally is seen: no rally in use, 0 - 0 in set 1, the playhead at the start. */
    constructor ()
      ensures State() == Tracked(-1, None, [], 1, Scoreline(0, 0), None, None, 0.0)
    {
      rallyIndex, resumeAfter, touchBuffer := -1, None, [];
      currentSet, currentScore, previousScore, rallyNumber := 1, Scoreline(0, 0), None, None;
      time := 0.0;
    }

    /** The playhead moved (playback or a seek). */
    method SetTime(t: real)
      modifies this
      ensures State() == old(State()).(time := t)
    {
      time := t;
    }

    /** A seek that skips the score refresh until the playhead reaches `after`. */
    method SetResumeAfter(after: Option<real>)
      modifies this
      ensures State() == old(State()).(resumeAfter := after)
    {
      resumeAfter := after;
    }

    method UpdateTouchBuffer(f: Frame)
      modifies this
      ensures State() == Update(f, old(State()))
    {
      if !f.hasVideo || |f.stats| == 0 || |f.rallies| == 0 {
        return;
      }
      ghost var before := State();
      var t := time;
      var currentIndex := FindRally(f.rallies, t);
      var indexToUse := if currentIndex != -1 then currentIndex else rallyIndex;
      LocateRally(f, currentIndex);
      if f.autoplay && 0 <= indexToUse < |f.rallies| && t > f.rallies[indexToUse].end && indexToUse < |f.rallies| - 1 {
        assert AdvanceDue(f, before);
        var next := NextRallyStart(f.rallies, t);
        if next.Some? {
          time := next.value;
          return;
        }
      }
      RefreshShown(f);
    }

    method LocateRally(f: Frame, currentIndex: int)
      requires currentIndex == FindRally(f.rallies, time)
      modifies this
      ensures State() == Locate(f, old(State()))
    {
      if currentIndex != -1 {
        rallyIndex := currentIndex;
        var current := f.rallies[currentIndex];
        if current.setNumber != 0 {
          currentSet := current.setNumber;
          rallyNumber := RallyNumber(f.rallies, current);
        }
      }
    }

    method RefreshShown(f: Frame)
      modifies this
      ensures State() == Refresh(f, old(State()))
    {
      var t := time;
      touchBuffer := Upcoming(f.stats, t);
      if f.statUpdatePaused {
        if f.overrideSet.Some? && f.overrideSet.value != 0 {
          currentSet := f.overrideSet.value;
          currentScore := Scoreline(0, 0);
          previousScore := Some(Scoreline(0, 0));
        }
        return;
      }
      if f.paused {
        return;
      }
      if resumeAfter.Some? && t < resumeAfter.value {
        return;
      }
      resumeAfter := None;
      var latest := LatestScored(f.stats, t);
      if latest != -1 {
        var row := f.stats[latest];
        var newScore := Scoreline(row.ourScore.value, row.oppScore.value);
        previousScore := Some(newScore);
        currentScore := newScore;
        currentSet := row.setNumber.GetOr(1);
      } else {
        currentScore := Scoreline(0, 0);
        currentSet := 1;
        previousScore := None;
      }
    }
  }
}
