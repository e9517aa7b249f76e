/**
 * The stats summary page: the team's rows for the chosen games with players'
 * display names, the per-setter assist tallies, the per-player and per-action
 * aggregates with their column totals, the setting distribution counts, the
 * list of action columns and their default visibility.
 */
module StatsSummary {
  import opened Common
  import opened Rows
  import opened Lists

  // ---------------------------------------------------------------------
  // Tallies and sums

  /** How often `k` was counted: `acc[k] || 0`. */
  function Count<K(==)>(t: map<K, nat>, k: K): nat {
    if k in t then t[k] else 0
  }

  /** The object a `reduce` builds with `acc[k] = (acc[k] || 0) + 1` for each key in turn. */
  function Tally<K(==)>(c: seq<K>): map<K, nat> {
    if c == [] then map[]
    else
      var t := Tally(c[..|c| - 1]);
      t[c[|c| - 1] := Count(t, c[|c| - 1]) + 1]
  }

  predicate Distinct<K(==)>(s: seq<K>) {
    forall i, j :: 0 <= i < j < |s| ==> s[i] != s[j]
  }

  /** The distinct elements in order of first appearance: the key order of an object built from `c`. */
  function FirstSeen<K(==,!new)>(c: seq<K>): (r: seq<K>)
    ensures forall x :: x in r <==> x in c
    ensures Distinct(r)
  {
    if c == [] then []
    else
      var f := FirstSeen(c[..|c| - 1]);
      assert forall x :: x in c[..|c| - 1] ==> x in c;
      assert forall x :: x in c ==> x in c[..|c| - 1] || x == c[|c| - 1];
      if c[|c| - 1] in f then f else f + [c[|c| - 1]]
  }

  /** Each key of the tally is a key of the list, counted as often as it occurs there. */
  lemma {:induction false} TallyCounts<K>(c: seq<K>)
    ensures forall k :: (k in Tally(c) <==> k in c) && Count(Tally(c), k) == multiset(c)[k]
  {
    if c != [] {
      var init := c[..|c| - 1];
      TallyCounts(init);
      assert c == init + [c[|c| - 1]];
    }
  }

  /** `ks.map(f).reduce((a, b) => a + b, 0)`. */
  function SumBy<K>(ks: seq<K>, f: K -> nat): nat {
    if ks == [] then 0 else SumBy(ks[..|ks| - 1], f) + f(ks[|ks| - 1])
  }

  lemma {:induction false} SumByPointwise<K>(ks: seq<K>, f: K -> nat, g: K -> nat)
    requires forall k :: k in ks ==> f(k) == g(k)
    ensures SumBy(ks, f) == SumBy(ks, g)
  {
    if ks != [] {
      SumByPointwise(ks[..|ks| - 1], f, g);
    }
  }

  /** Raising one term by one, where that key occurs once, raises the sum by one. */
  lemma {:induction false} SumByBump<K>(ks: seq<K>, f: K -> nat, g: K -> nat, x: K)
    requires Distinct(ks) && x in ks
    requires forall k :: k in ks && k != x ==> g(k) == f(k)
    requires g(x) == f(x) + 1
    ensures SumBy(ks, g) == SumBy(ks, f) + 1
  {
    var init := ks[..|ks| - 1];
    if ks[|ks| - 1] == x {
      forall k | k in init ensures f(k) == g(k) {
        var i :| 0 <= i < |init| && init[i] == k;
        assert ks[i] == k;
      }
      SumByPointwise(init, f, g);
    } else {
      assert x in init;
      SumByBump(init, f, g, x);
    }
  }

  function CountOf<K(==)>(t: map<K, nat>): K -> nat {
    k => Count(t, k)
  }

  /** The tally's counts, summed in key order, add up to the length of the list. */
  lemma {:induction false} TallyTotal<K(!new)>(c: seq<K>)
    ensures SumBy(FirstSeen(c), CountOf(Tally(c))) == |c|
  {
    if c != [] {
      var init := c[..|c| - 1];
      var x := c[|c| - 1];
      var t := Tally(init);
      var t' := Tally(c);
      TallyTotal(init);
      var fs := FirstSeen(init);
      if x in fs {
        SumByBump(fs, CountOf(t), CountOf(t'), x);
      } else {
        TallyCounts(init);
        assert CountOf(t)(x) == 0;
        SumByPointwise(fs, CountOf(t), CountOf(t'));
        assert FirstSeen(c) == fs + [x];
        assert (fs + [x])[..|fs|] == fs;
      }
    }
  }

  /** The length form of `FilterSnoc`. */
  lemma FilterSnocCount<T(!new)>(s: seq<T>, x: T, p: T -> bool)
    ensures |Filter(s + [x], p)| == |Filter(s, p)| + (if p(x) then 1 else 0)
  {
    FilterSnoc(s, x, p);
  }

  lemma {:induction false} FilterInsertBy<T(!new)>(s: seq<T>, x: T, le: (T, T) -> bool, p: T -> bool)
    ensures |Filter(InsertBy(s, x, le), p)| == |Filter(s, p)| + (if p(x) then 1 else 0)
  {
    if s == [] || le(s[|s| - 1], x) {
      FilterSnocCount(s, x, p);
    } else {
      var init := s[..|s| - 1];
      assert s == init + [s[|s| - 1]];
      FilterInsertBy(init, x, le, p);
      FilterSnocCount(InsertBy(init, x, le), s[|s| - 1], p);
      FilterSnocCount(init, s[|s| - 1], p);
    }
  }

  /** Sorting does not change how many elements satisfy a predicate. */
  lemma {:induction false} FilterSortBy<T(!new)>(s: seq<T>, le: (T, T) -> bool, p: T -> bool)
    ensures |Filter(SortBy(s, le), p)| == |Filter(s, p)|
  {
    if s != [] {
      var init := s[..|s| - 1];
      assert s == init + [s[|s| - 1]];
      FilterSortBy(init, le, p);
      FilterInsertBy(SortBy(init, le), s[|s| - 1], le, p);
      FilterSnocCount(init, s[|s| - 1], p);
    }
  }

  // ---------------------------------------------------------------------
  // Ordering strings: `a.localeCompare(b) <= 0`, taken as code-unit order

  function StrLe(): (string, string) -> bool {
    (a, b) => !StrLess(b, a)
  }

  lemma StrLessAsymmetric(a: string, b: string)
    ensures !(StrLess(a, b) && StrLess(b, a))
  {
    if StrLess(a, b) && StrLess(b, a) {
      StrLessTransitive(a, b, a);
      StrLessIrreflexive(a);
    }
  }

  lemma StrNotLessTransitive(a: string, b: string, c: string)
    requires !StrLess(b, a) && !StrLess(c, b)
    ensures !StrLess(c, a)
  {
    StrLessTotal(a, b);
    if StrLess(c, a) && StrLess(a, b) {
      StrLessTransitive(c, a, b);
    }
  }

  lemma StrLeTotalOrder()
    ensures Total(StrLe()) && Transitive(StrLe())
  {
    forall a: string, b: string ensures StrLe()(a, b) || StrLe()(b, a) {
      StrLessAsymmetric(a, b);
    }
    forall a: string, b: string, c: string | StrLe()(a, b) && StrLe()(b, c) ensures StrLe()(a, c) {
      StrNotLessTransitive(a, b, c);
    }
  }

  // ---------------------------------------------------------------------
  // Summary rows

  /** `String(id)`: the text an absent id is looked up under. */
  function IdText(id: Option<string>): string {
    id.GetOr("null")
  }

  /** `nameFor`: the display name for the user id when it has a non-empty one, else the fallback or ''. */
  function NameFor(names: map<string, string>, id: Option<string>, fallback: Option<string>): string {
    if IdText(id) in names && names[IdText(id)] != "" then names[IdText(id)] else fallback.GetOr("")
  }

  /** The row with its player and set-to player replaced by their display names. */
  function Rename(names: map<string, string>, s: StatRow): StatRow {
    s.(data := s.data.(player := Some(NameFor(names, s.data.playerUserId, s.data.player)),
                       setToPlayer := Some(NameFor(names, s.data.setToUserId, s.data.setToPlayer))))
  }

  /** The summary's sort key: game id, set (absent is 0), import sequence (absent is 0), row id. */
  datatype SortKey = SortKey(game: string, setNumber: int, importSeq: real, id: string)

  function KeyOf(s: StatRow): SortKey {
    SortKey(s.data.gameId, s.setNumber.GetOr(0), s.data.importSeq.GetOr(0.0), s.id)
  }

  /** The comparator's order: the first component that differs decides. */
  predicate KeyLess(x: SortKey, y: SortKey) {
    StrLess(x.game, y.game)
    || (x.game == y.game && (x.setNumber < y.setNumber
    || (x.setNumber == y.setNumber && (x.importSeq < y.importSeq
    || (x.importSeq == y.importSeq && StrLess(x.id, y.id))))))
  }

  lemma KeyLessStrict(x: SortKey, y: SortKey, z: SortKey)
    ensures !KeyLess(x, x)
    ensures KeyLess(x, y) && KeyLess(y, z) ==> KeyLess(x, z)
  {
    StrLessIrreflexive(x.game);
    StrLessIrreflexive(x.id);
    if KeyLess(x, y) && KeyLess(y, z) {
      if StrLess(x.game, y.game) && StrLess(y.game, z.game) {
        StrLessTransitive(x.game, y.game, z.game);
      }
      if StrLess(x.id, y.id) && StrLess(y.id, z.id) {
        StrLessTransitive(x.id, y.id, z.id);
      }
    }
  }

  lemma KeyLessTrichotomy(x: SortKey, y: SortKey)
    ensures x == y || KeyLess(x, y) || KeyLess(y, x)
  {
    StrLessTotal(x.game, y.game);
    StrLessTotal(x.id, y.id);
  }

  /** The sort comparator of the summary rows, read as "compare(a, b) <= 0". */
  function SummaryLe(): (StatRow, StatRow) -> bool {
    (a, b) => !KeyLess(KeyOf(b), KeyOf(a))
  }

  lemma SummaryLeTotalOrder()
    ensures Total(SummaryLe()) && Transitive(SummaryLe())
  {
    forall a: StatRow, b: StatRow ensures SummaryLe()(a, b) || SummaryLe()(b, a) {
      KeyLessStrict(KeyOf(a), KeyOf(b), KeyOf(a));
    }
    forall a: StatRow, b: StatRow, c: StatRow | SummaryLe()(a, b) && SummaryLe()(b, c)
      ensures SummaryLe()(a, c)
    {
      var x, y, z := KeyOf(a), KeyOf(b), KeyOf(c);
      KeyLessTrichotomy(x, y);
      KeyLessStrict(z, x, y);
    }
  }

  /** `String(team_id)`. */
  function TeamText(teamId: Option<string>): string {
    teamId.GetOr("null")
  }

  /** The row has a player and belongs to the selected team. */
  predicate Kept(teamId: string, s: StatRow) {
    s.data.player.Some? && TeamText(s.data.teamId) == teamId
  }

  function KeptBy(teamId: string): StatRow -> bool {
    s => Kept(teamId, s)
  }

  function RenameBy(names: map<string, string>): StatRow -> StatRow {
    s => Rename(names, s)
  }

  /** `namedStats`: the kept rows in summary order, with display names. */
  function NamedStats(data: seq<StatRow>, teamId: string, names: map<string, string>): seq<StatRow> {
    Map(SortBy(Filter(data, KeptBy(teamId)), SummaryLe()), RenameBy(names))
  }

  lemma NamedStatsFromKept(data: seq<StatRow>, teamId: string, names: map<string, string>)
    ensures var r := NamedStats(data, teamId, names);
      forall i :: 0 <= i < |r| ==> exists s :: s in data && Kept(teamId, s) && r[i] == Rename(names, s)
  {
    var kept := Filter(data, KeptBy(teamId));
    var sorted := SortBy(kept, SummaryLe());
    var r := NamedStats(data, teamId, names);
    forall i | 0 <= i < |r| ensures exists s :: s in data && Kept(teamId, s) && r[i] == Rename(names, s) {
      assert sorted[i] in multiset(kept);
      assert sorted[i] in kept;
      assert r[i] == Rename(names, sorted[i]);
    }
  }

  lemma NamedStatsCoversKept(data: seq<StatRow>, teamId: string, names: map<string, string>)
    ensures forall s :: s in data && Kept(teamId, s) ==> Rename(names, s) in NamedStats(data, teamId, names)
  {
    var kept := Filter(data, KeptBy(teamId));
    var sorted := SortBy(kept, SummaryLe());
    var r := NamedStats(data, teamId, names);
    forall s | s in data && Kept(teamId, s) ensures Rename(names, s) in r {
      assert s in multiset(kept);
      var k :| 0 <= k < |sorted| && sorted[k] == s;
      assert r[k] == Rename(names, s);
    }
  }

  lemma NamedStatsOrdered(data: seq<StatRow>, teamId: string, names: map<string, string>)
    ensures var r := NamedStats(data, teamId, names);
      forall i, j :: 0 <= i < j < |r| ==> !KeyLess(KeyOf(r[j]), KeyOf(r[i]))
  {
    var kept := Filter(data, KeptBy(teamId));
    var sorted := SortBy(kept, SummaryLe());
    var r := NamedStats(data, teamId, names);
    SummaryLeTotalOrder();
    SortBySorted(kept, SummaryLe());
    forall i, j | 0 <= i < j < |r| ensures !KeyLess(KeyOf(r[j]), KeyOf(r[i])) {
      assert SummaryLe()(sorted[i], sorted[j]);
      assert KeyOf(r[i]) == KeyOf(sorted[i]) && KeyOf(r[j]) == KeyOf(sorted[j]);
    }
  }

  /**
   * The summary rows are exactly the renamed rows that have a player and belong
   * to the team, as many as there are such rows, ordered by game id, set,
   * import sequence and id.
   */
  lemma NamedStatsSpec(data: seq<StatRow>, teamId: string, names: map<string, string>)
    ensures var r := NamedStats(data, teamId, names);
      && |r| == |Filter(data, KeptBy(teamId))|
      && (forall i :: 0 <= i < |r| ==> exists s :: s in data && Kept(teamId, s) && r[i] == Rename(names, s))
      && (forall s :: s in data && Kept(teamId, s) ==> Rename(names, s) in r)
      && (forall i, j :: 0 <= i < j < |r| ==> !KeyLess(KeyOf(r[j]), KeyOf(r[i])))
  {
    NamedStatsFromKept(data, teamId, names);
    NamedStatsCoversKept(data, teamId, names);
    NamedStatsOrdered(data, teamId, names);
  }

  // ---------------------------------------------------------------------
  // Setting distribution

  /** A row that records where the ball was set. */
  predicate IsSetting(s: StatRow) {
    Truthy(s.data.setToPosition) || Truthy(s.data.setToPlayer)
  }

  /** `settingOnly`: the rows that record where the ball was set, in order. */
  function SettingOnly(named: seq<StatRow>): (r: seq<StatRow>)
    ensures forall s :: s in r <==> s in named && IsSetting(s)
    ensures |r| == |Filter(named, IsSetting)|
    ensures forall s :: multiset(r)[s] == if IsSetting(s) then multiset(named)[s] else 0
  {
    FilterMultiset(named, IsSetting);
    Filter(named, IsSetting)
  }

  /** The setting rows stay in list order: a row added at the end is kept last, or dropped. */
  lemma SettingOnlySnoc(named: seq<StatRow>, s: StatRow)
    ensures SettingOnly(named + [s]) == SettingOnly(named) + (if IsSetting(s) then [s] else [])
  {
    FilterSnoc(named, s, IsSetting);
  }

  function PlayerIs(setter: string): StatRow -> bool {
    (s: StatRow) => s.data.player == Some(setter)
  }

  /** `filteredSettingStats`: every setting row for 'all', else the chosen setter's rows. */
  function FilteredSettingStats(settingStats: seq<StatRow>, selectedSetter: string): (r: seq<StatRow>)
    ensures selectedSetter == "all" ==> r == settingStats
    ensures selectedSetter != "all" ==> forall s :: s in r <==> s in settingStats && s.data.player == Some(selectedSetter)
    ensures |r| <= |settingStats|
    ensures selectedSetter != "all" ==>
      forall s :: multiset(r)[s] == if s.data.player == Some(selectedSetter) then multiset(settingStats)[s] else 0
  {
    if selectedSetter == "all" then settingStats
    else
      FilterMultiset(settingStats, PlayerIs(selectedSetter));
      Filter(settingStats, PlayerIs(selectedSetter))
  }

  /** The setter's rows stay in list order: a row added at the end is kept last, or dropped. */
  lemma FilteredSettingStatsSnoc(settingStats: seq<StatRow>, s: StatRow, selectedSetter: string)
    ensures FilteredSettingStats(settingStats + [s], selectedSetter)
            == FilteredSettingStats(settingStats, selectedSetter)
               + (if selectedSetter == "all" || s.data.player == Some(selectedSetter) then [s] else [])
  {
    if selectedSetter != "all" {
      FilterSnoc(settingStats, s, PlayerIs(selectedSetter));
    }
  }

  /** A key is counted when it is not null, undefined, '' or 0. */
  predicate TruthyVal(v: Val) {
    v != Null && v != Str("") && v != Num(0.0)
  }

  /** The truthy values of column `key`, in list order. */
  function OccurrenceKeys(arr: seq<StatRow>, key: Column): (r: seq<Val>)
    ensures |r| <= |arr|
    ensures forall v :: v in r <==> TruthyVal(v) && exists i :: 0 <= i < |arr| && Get(arr[i], key) == v
  {
    if arr == [] then []
    else
      var init := arr[..|arr| - 1];
      var k := Get(arr[|arr| - 1], key);
      var rest := OccurrenceKeys(init, key);
      assert forall i :: 0 <= i < |init| ==> arr[i] == init[i];
      if TruthyVal(k) then rest + [k] else rest
  }

  /** `countOccurrences(arr, key)`. */
  function CountOccurrences(arr: seq<StatRow>, key: Column): map<Val, nat> {
    Tally(OccurrenceKeys(arr, key))
  }

  /**
   * Only truthy values are counted, each as often as it occurs, and the counts,
   * in the object's key order, sum to at most the number of rows.
   */
  lemma CountOccurrencesSpec(arr: seq<StatRow>, key: Column)
    ensures forall v :: v in CountOccurrences(arr, key) <==> TruthyVal(v) && exists i :: 0 <= i < |arr| && Get(arr[i], key) == v
    ensures forall v :: Count(CountOccurrences(arr, key), v) == multiset(OccurrenceKeys(arr, key))[v]
    ensures SumBy(FirstSeen(OccurrenceKeys(arr, key)), CountOf(CountOccurrences(arr, key))) <= |arr|
  {
    var ks := OccurrenceKeys(arr, key);
    TallyCounts(ks);
    TallyTotal(ks);
  }

  // ---------------------------------------------------------------------
  // Assists

  predicate IsSetAction(actionType: Option<string>) {
    actionType.Some? && Lower(actionType.value) == "set"
  }

  predicate IsWonPoint(result: Option<string>) {
    result.Some? && Lower(result.value) == "won point"
  }

  /** A Set row (any case) with a player: the rows that can earn an assist. */
  predicate SetterRow(s: StatRow) {
    IsSetAction(s.data.actionType) && Truthy(s.data.player)
  }

  /** `curr` set the ball and `next`, in the same rally, won the point. */
  predicate AssistPair(curr: StatRow, next: StatRow) {
    SetterRow(curr) && curr.rallyId == next.rallyId && IsWonPoint(next.result)
  }

  function ImportKey(s: StatRow): real {
    s.data.importSeq.GetOr(0.0)
  }

  function ImportLe(): (StatRow, StatRow) -> bool {
    (a, b) => ImportKey(a) <= ImportKey(b)
  }

  function InGame(gid: string): StatRow -> bool {
    (s: StatRow) => s.data.gameId == gid
  }

  /** `gameStats`: the game's rows, ordered by import sequence. */
  function GameStats(named: seq<StatRow>, gid: string): seq<StatRow> {
    SortBy(Filter(named, InGame(gid)), ImportLe())
  }

  /** The setters credited for the first `n` consecutive pairs of `gs`, in order. */
  function PairCredits(gs: seq<StatRow>, names: map<string, string>, n: nat): seq<string>
    requires n == 0 || n < |gs|
  {
    if n == 0 then []
    else
      PairCredits(gs, names, n - 1)
      + (if AssistPair(gs[n - 1], gs[n]) then [NameFor(names, gs[n - 1].data.playerUserId, gs[n - 1].data.player)] else [])
  }

  /** The setters credited within one game's list, one entry per assist. */
  function GameCredits(gs: seq<StatRow>, names: map<string, string>): seq<string> {
    if gs == [] then [] else PairCredits(gs, names, |gs| - 1)
  }

  /** The setters credited over the relevant games, game by game. */
  function AllCredits(named: seq<StatRow>, games: seq<string>, names: map<string, string>): seq<string> {
    if games == [] then []
    else AllCredits(named, games[..|games| - 1], names) + GameCredits(GameStats(named, games[|games| - 1]), names)
  }

  lemma TallySnoc<K>(c: seq<K>, x: K)
    ensures Tally(c + [x]) == Tally(c)[x := Count(Tally(c), x) + 1]
  {
    assert (c + [x])[..|c|] == c;
  }

  /** One turn of the pass: pair `i`, `i + 1` credits its setter when it is an assist. */
  lemma CreditStep(before: seq<string>, gs: seq<StatRow>, names: map<string, string>, i: nat)
    requires i + 1 < |gs|
    ensures var t := Tally(before + PairCredits(gs, names, i));
      var key := NameFor(names, gs[i].data.playerUserId, gs[i].data.player);
      Tally(before + PairCredits(gs, names, i + 1))
      == if AssistPair(gs[i], gs[i + 1]) then t[key := Count(t, key) + 1] else t
  {
    var c := before + PairCredits(gs, names, i);
    var key := NameFor(names, gs[i].data.playerUserId, gs[i].data.player);
    if AssistPair(gs[i], gs[i + 1]) {
      assert before + PairCredits(gs, names, i + 1) == c + [key];
      TallySnoc(c, key);
      assert Tally(before + PairCredits(gs, names, i + 1)) == Tally(c)[key := Count(Tally(c), key) + 1];
    } else {
      assert before + PairCredits(gs, names, i + 1) == c;
    }
  }

  /** Where the pass stops, every pair of the game has had its turn. */
  lemma CreditsDone(gs: seq<StatRow>, names: map<string, string>, i: nat)
    requires i == 0 || i < |gs|
    requires i + 1 >= |gs|
    ensures GameCredits(gs, names) == PairCredits(gs, names, i)
  {
  }

  /** One game's pass over consecutive pairs. */
  method CreditGame(ghost before: seq<string>, counts: map<string, nat>, gs: seq<StatRow>, names: map<string, string>)
    returns (after: map<string, nat>)
    requires counts == Tally(before)
    ensures after == Tally(before + GameCredits(gs, names))
  {
    after := counts;
    var i := 0;
    assert before + PairCredits(gs, names, 0) == before;
    while i + 1 < |gs|
      invariant i == 0 || i < |gs|
      invariant after == Tally(before + PairCredits(gs, names, i))
    {
      var curr := gs[i];
      var next := gs[i + 1];
      CreditStep(before, gs, names, i);
      if AssistPair(curr, next) {
        var key := NameFor(names, curr.data.playerUserId, curr.data.player);
        after := after[key := Count(after, key) + 1];
      }
      i := i + 1;
    }
    CreditsDone(gs, names, i);
  }

  /**
   * `assistCounts`: for each relevant game, each setter is credited once per
   * consecutive pair of its rows that is an assist.
   */
  method AssistCounts(named: seq<StatRow>, relevantGames: seq<string>, names: map<string, string>)
    returns (counts: map<string, nat>)
    ensures counts == Tally(AllCredits(named, relevantGames, names))
  {
    counts := map[];
    for k := 0 to |relevantGames|
      invariant counts == Tally(AllCredits(named, relevantGames[..k], names))
    {
      var gameStats := GameStats(named, relevantGames[k]);
      counts := CreditGame(AllCredits(named, relevantGames[..k], names), counts, gameStats, names);
      assert relevantGames[..k + 1][..k] == relevantGames[..k];
    }
    assert relevantGames[..|relevantGames|] == relevantGames;
  }

  /** Every assist within the first `n` pairs is credited to a distinct Set row among the first `n` rows. */
  lemma {:induction false} PairCreditsBounded(gs: seq<StatRow>, names: map<string, string>, n: nat)
    requires n == 0 || n < |gs|
    ensures |PairCredits(gs, names, n)| <= |Filter(gs[..n], SetterRow)|
  {
    if n > 0 {
      PairCreditsBounded(gs, names, n - 1);
      assert gs[..n] == gs[..n - 1] + [gs[n - 1]];
      FilterSnocCount(gs[..n - 1], gs[n - 1], SetterRow);
    }
  }

  lemma GameCreditsBounded(gs: seq<StatRow>, names: map<string, string>)
    ensures |GameCredits(gs, names)| <= |Filter(gs, SetterRow)|
  {
    if gs != [] {
      PairCreditsBounded(gs, names, |gs| - 1);
      assert gs == gs[..|gs| - 1] + [gs[|gs| - 1]];
      FilterSnocCount(gs[..|gs| - 1], gs[|gs| - 1], SetterRow);
    }
  }

  /** How many Set rows with a player game `gid` has. */
  function SettersIn(named: seq<StatRow>): string -> nat {
    gid => |Filter(Filter(named, InGame(gid)), SetterRow)|
  }

  lemma {:induction false} AllCreditsBounded(named: seq<StatRow>, games: seq<string>, names: map<string, string>)
    ensures |AllCredits(named, games, names)| <= SumBy(games, SettersIn(named))
  {
    if games != [] {
      var g := games[|games| - 1];
      AllCreditsBounded(named, games[..|games| - 1], names);
      GameCreditsBounded(GameStats(named, g), names);
      FilterSortBy(Filter(named, InGame(g)), ImportLe(), SetterRow);
    }
  }

  lemma SettersInSnoc(init: seq<StatRow>, x: StatRow, g: string)
    ensures SettersIn(init + [x])(g) == SettersIn(init)(g) + (if SetterRow(x) && x.data.gameId == g then 1 else 0)
  {
    FilterAppend(init, [x], InGame(g));
    if x.data.gameId == g {
      assert Filter([x], InGame(g)) == [x];
      FilterSnocCount(Filter(init, InGame(g)), x, SetterRow);
    } else {
      assert Filter([x], InGame(g)) == [];
      assert Filter(init + [x], InGame(g)) == Filter(init, InGame(g));
    }
  }

  function Zero(): string -> nat {
    k => 0
  }

  lemma {:induction false} ZeroSum(ks: seq<string>)
    ensures SumBy(ks, Zero()) == 0
  {
    if ks != [] {
      ZeroSum(ks[..|ks| - 1]);
    }
  }

  /** One more row adds at most one Set row to the per-game sum, and only if it is one. */
  lemma SettersStep(init: seq<StatRow>, x: StatRow, games: seq<string>)
    requires Distinct(games)
    ensures SumBy(games, SettersIn(init + [x])) <= SumBy(games, SettersIn(init)) + (if SetterRow(x) then 1 else 0)
  {
    var f, g := SettersIn(init), SettersIn(init + [x]);
    if SetterRow(x) && x.data.gameId in games {
      forall k | k in games && k != x.data.gameId ensures g(k) == f(k) {
        SettersInSnoc(init, x, k);
      }
      SettersInSnoc(init, x, x.data.gameId);
      SumByBump(games, f, g, x.data.gameId);
    } else {
      forall k | k in games ensures f(k) == g(k) {
        SettersInSnoc(init, x, k);
      }
      SumByPointwise(games, f, g);
    }
  }

  /** Over distinct games, the per-game Set rows together are at most the Set rows of the whole list. */
  lemma {:induction false} SettersAcrossGames(named: seq<StatRow>, games: seq<string>)
    requires Distinct(games)
    ensures SumBy(games, SettersIn(named)) <= |Filter(named, SetterRow)|
  {
    if named == [] {
      SumByPointwise(games, SettersIn(named), Zero());
      ZeroSum(games);
    } else {
      var init := named[..|named| - 1];
      var x := named[|named| - 1];
      assert named == init + [x];
      SettersAcrossGames(init, games);
      FilterSnocCount(init, x, SetterRow);
      SettersStep(init, x, games);
    }
  }

  /**
   * Over distinct games, the assist tallies count each credit once and, summed
   * in key order, never exceed the number of Set rows that have a player.
   */
  lemma TotalAssistsBounded(named: seq<StatRow>, games: seq<string>, names: map<string, string>)
    requires Distinct(games)
    ensures var credits := AllCredits(named, games, names);
      && (forall k :: Count(Tally(credits), k) == multiset(credits)[k])
      && SumBy(FirstSeen(credits), CountOf(Tally(credits))) <= |Filter(named, SetterRow)|
  {
    var credits := AllCredits(named, games, names);
    TallyCounts(credits);
    TallyTotal(credits);
    AllCreditsBounded(named, games, names);
    SettersAcrossGames(named, games);
  }

  // ---------------------------------------------------------------------
  // Per-player, per-action aggregates

  /** One player's touches of one kind: their qualities, and how many won or lost the point. */
  datatype Agg = Agg(qualities: seq<real>, won: nat, lost: nat)

  type Grouped = map<string, map<string, Agg>>

  /** `Number(quality)`: an absent quality counts as 0. */
  function QualityNumber(s: StatRow): real {
    s.data.quality.GetOr(0.0)
  }

  /** The row's group: its (display) player name. */
  function Label(s: StatRow): string {
    s.data.player.GetOr("undefined")
  }

  function Push(agg: Agg, s: StatRow): Agg {
    Agg(agg.qualities + [QualityNumber(s)],
        agg.won + (if s.result == Some("Won Point") then 1 else 0),
        agg.lost + (if s.result == Some("Lost Point") then 1 else 0))
  }

  /** One step of the `grouped` reduce: rows without an action type are skipped. */
  function AddRow(g: Grouped, s: StatRow): Grouped {
    if !Truthy(s.data.actionType) then g
    else
      var groupLabel := Label(s);
      var action := s.data.actionType.value;
      var inner := if groupLabel in g then g[groupLabel] else map[];
      var agg := if action in inner then inner[action] else Agg([], 0, 0);
      g[groupLabel := inner[action := Push(agg, s)]]
  }

  function Group(stats: seq<StatRow>): Grouped {
    if stats == [] then map[] else AddRow(Group(stats[..|stats| - 1]), stats[|stats| - 1])
  }

  function Qty(g: Grouped, p: string, a: string): nat {
    if p in g && a in g[p] then |g[p][a].qualities| else 0
  }

  function Won(g: Grouped, p: string, a: string): nat {
    if p in g && a in g[p] then g[p][a].won else 0
  }

  function Lost(g: Grouped, p: string, a: string): nat {
    if p in g && a in g[p] then g[p][a].lost else 0
  }

  function RowOf(p: string, a: string): StatRow -> bool {
    (s: StatRow) => s.data.actionType == Some(a) && Label(s) == p
  }

  function WonOf(p: string, a: string): StatRow -> bool {
    (s: StatRow) => s.data.actionType == Some(a) && Label(s) == p && s.result == Some("Won Point")
  }

  function LostOf(p: string, a: string): StatRow -> bool {
    (s: StatRow) => s.data.actionType == Some(a) && Label(s) == p && s.result == Some("Lost Point")
  }

  /** Adding a row raises the counts of its own player and action only. */
  lemma AddRowCounts(g: Grouped, x: StatRow, p: string, a: string)
    requires a != ""
    ensures Qty(AddRow(g, x), p, a) == Qty(g, p, a) + (if RowOf(p, a)(x) then 1 else 0)
    ensures Won(AddRow(g, x), p, a) == Won(g, p, a) + (if WonOf(p, a)(x) then 1 else 0)
    ensures Lost(AddRow(g, x), p, a) == Lost(g, p, a) + (if LostOf(p, a)(x) then 1 else 0)
  {
  }

  /**
   * For each player and non-empty action, qty is the number of that player's rows
   * of that action, won and lost the number of those whose result is exactly
   * "Won Point" or "Lost Point".
   */
  lemma {:induction false} GroupCounts(stats: seq<StatRow>, p: string, a: string)
    requires a != ""
    ensures Qty(Group(stats), p, a) == |Filter(stats, RowOf(p, a))|
    ensures Won(Group(stats), p, a) == |Filter(stats, WonOf(p, a))|
    ensures Lost(Group(stats), p, a) == |Filter(stats, LostOf(p, a))|
  {
    if stats != [] {
      var init := stats[..|stats| - 1];
      var x := stats[|stats| - 1];
      assert stats == init + [x];
      GroupCounts(init, p, a);
      AddRowCounts(Group(init), x, p, a);
      FilterSnocCount(init, x, RowOf(p, a));
      FilterSnocCount(init, x, WonOf(p, a));
      FilterSnocCount(init, x, LostOf(p, a));
    }
  }

  /** A touch wins or loses the point, never both, so won + lost never exceeds qty. */
  lemma {:induction false} GroupWonLost(stats: seq<StatRow>, p: string, a: string)
    ensures Won(Group(stats), p, a) + Lost(Group(stats), p, a) <= Qty(Group(stats), p, a)
  {
    if stats != [] {
      GroupWonLost(stats[..|stats| - 1], p, a);
    }
  }

  /** Rows without an action type are in no group. */
  lemma GroupSkipsUntyped(stats: seq<StatRow>, s: StatRow)
    requires !Truthy(s.data.actionType)
    ensures Group(stats + [s]) == Group(stats)
  {
    assert (stats + [s])[..|stats|] == stats;
  }

  predicate Typed(s: StatRow) {
    Truthy(s.data.actionType)
  }

  /** The group labels in order of first appearance: `Object.keys(grouped)`. */
  function Labels(stats: seq<StatRow>): seq<string> {
    FirstSeen(Map(Filter(stats, Typed), Label))
  }

  lemma {:induction false} GroupKeys(stats: seq<StatRow>)
    ensures forall p :: p in Group(stats) <==> exists s :: s in stats && Typed(s) && Label(s) == p
  {
    if stats != [] {
      var init := stats[..|stats| - 1];
      GroupKeys(init);
      assert stats == init + [stats[|stats| - 1]];
    }
  }

  /** `players`: the group labels, sorted. */
  function Players(stats: seq<StatRow>): seq<string> {
    SortBy(Labels(stats), StrLe())
  }

  /** A label is among the group labels exactly when it is a key of the grouping. */
  lemma LabelIsGroupKey(stats: seq<StatRow>, p: string)
    ensures p in Labels(stats) <==> p in Group(stats)
  {
    var typed := Filter(stats, Typed);
    var labels := Map(typed, Label);
    GroupKeys(stats);
    assert p in Labels(stats) <==> p in labels;
    if p in labels {
      var i :| 0 <= i < |typed| && labels[i] == p;
      assert typed[i] in stats && Typed(typed[i]) && Label(typed[i]) == p;
    }
    if p in Group(stats) {
      var s :| s in stats && Typed(s) && Label(s) == p;
      assert s in typed;
      var i :| 0 <= i < |typed| && typed[i] == s;
      assert labels[i] == p;
    }
  }

  lemma PlayersSpec(stats: seq<StatRow>)
    ensures Distinct(Players(stats))
    ensures forall p :: p in Players(stats) <==> p in Group(stats)
    ensures SortedBy(Players(stats), StrLe())
  {
    var labels := Labels(stats);
    SortByDistinct(labels, StrLe(), x => x);
    StrLeTotalOrder();
    SortBySorted(labels, StrLe());
    forall p ensures p in Players(stats) <==> p in Group(stats) {
      LabelIsGroupKey(stats, p);
      assert p in Players(stats) <==> p in multiset(labels);
    }
  }

  function QtyOf(g: Grouped, a: string): string -> nat {
    p => Qty(g, p, a)
  }

  function WonIn(g: Grouped, a: string): string -> nat {
    p => Won(g, p, a)
  }

  function LostIn(g: Grouped, a: string): string -> nat {
    p => Lost(g, p, a)
  }

  /** The sum of a list of qualities. */
  function QualityTotal(qs: seq<real>): real {
    if qs == [] then 0.0 else QualityTotal(qs[..|qs| - 1]) + qs[|qs| - 1]
  }

  function QualitySum(g: Grouped, p: string, a: string): real {
    if p in g && a in g[p] then QualityTotal(g[p][a].qualities) else 0.0
  }

  function SumQuality(g: Grouped, ps: seq<string>, a: string): real {
    if ps == [] then 0.0 else SumQuality(g, ps[..|ps| - 1], a) + QualitySum(g, ps[|ps| - 1], a)
  }

  /** One action's totals: qty, quality sum, won and lost, summed over the players that have it. */
  method ActionTotal(players: seq<string>, grouped: Grouped, action: string)
    returns (qty: nat, sumQuality: real, won: nat, lost: nat)
    ensures qty == SumBy(players, QtyOf(grouped, action))
    ensures sumQuality == SumQuality(grouped, players, action)
    ensures won == SumBy(players, WonIn(grouped, action))
    ensures lost == SumBy(players, LostIn(grouped, action))
  {
    qty, sumQuality, won, lost := 0, 0.0, 0, 0;
    for i := 0 to |players|
      invariant qty == SumBy(players[..i], QtyOf(grouped, action))
      invariant sumQuality == SumQuality(grouped, players[..i], action)
      invariant won == SumBy(players[..i], WonIn(grouped, action))
      invariant lost == SumBy(players[..i], LostIn(grouped, action))
    {
      var player := players[i];
      assert players[..i + 1][..i] == players[..i];
      if player in grouped && action in grouped[player] {
        var stat := grouped[player][action];
        qty := qty + |stat.qualities|;
        sumQuality := sumQuality + QualityTotal(stat.qualities);
        won := won + stat.won;
        lost := lost + stat.lost;
      }
    }
    assert players[..|players|] == players;
  }

  function HasAction(a: string): StatRow -> bool {
    (s: StatRow) => s.data.actionType == Some(a)
  }

  function RowsOf(stats: seq<StatRow>, a: string): string -> nat {
    p => |Filter(stats, RowOf(p, a))|
  }

  lemma {:induction false} RowsAcrossPlayers(stats: seq<StatRow>, ps: seq<string>, a: string)
    requires a != "" && Distinct(ps)
    requires forall s :: s in stats && Typed(s) ==> Label(s) in ps
    ensures SumBy(ps, RowsOf(stats, a)) == |Filter(stats, HasAction(a))|
  {
    if stats == [] {
      SumByPointwise(ps, RowsOf(stats, a), Zero());
      ZeroSum(ps);
    } else {
      var init := stats[..|stats| - 1];
      var x := stats[|stats| - 1];
      assert stats == init + [x];
      RowsAcrossPlayers(init, ps, a);
      FilterSnocCount(init, x, HasAction(a));
      forall p ensures RowsOf(stats, a)(p) == RowsOf(init, a)(p) + (if RowOf(p, a)(x) then 1 else 0) {
        FilterSnocCount(init, x, RowOf(p, a));
      }
      if x.data.actionType == Some(a) {
        SumByBump(ps, RowsOf(init, a), RowsOf(stats, a), Label(x));
      } else {
        SumByPointwise(ps, RowsOf(init, a), RowsOf(stats, a));
      }
    }
  }

  /** An action's total qty, summed over the players, is the number of rows of that action. */
  lemma ActionTotalCountsRows(stats: seq<StatRow>, a: string)
    requires a != ""
    ensures SumBy(Players(stats), QtyOf(Group(stats), a)) == |Filter(stats, HasAction(a))|
  {
    PlayersSpec(stats);
    GroupKeys(stats);
    forall p | p in Players(stats) ensures QtyOf(Group(stats), a)(p) == RowsOf(stats, a)(p) {
      GroupCounts(stats, p, a);
    }
    SumByPointwise(Players(stats), QtyOf(Group(stats), a), RowsOf(stats, a));
    RowsAcrossPlayers(stats, Players(stats), a);
  }

  // ---------------------------------------------------------------------
  // Action columns

  /** The non-empty action types in list order. */
  function ActionTypes(stats: seq<StatRow>): (r: seq<string>)
    ensures forall x :: x in r <==> x != "" && exists s :: s in stats && s.data.actionType == Some(x)
  {
    if stats == [] then []
    else
      var rest := ActionTypes(stats[1..]);
      assert forall s :: s in stats <==> s == stats[0] || s in stats[1..];
      if Truthy(stats[0].data.actionType) then [stats[0].data.actionType.value] + rest else rest
  }

  /** `actions`: the distinct non-empty action types, sorted. */
  function Actions(stats: seq<StatRow>): seq<string> {
    SortBy(FirstSeen(ActionTypes(stats)), StrLe())
  }

  /** The action list holds each non-empty action type of the rows once, in increasing order. */
  lemma ActionsSpec(stats: seq<StatRow>)
    ensures forall x :: x in Actions(stats) <==> x != "" && exists s :: s in stats && s.data.actionType == Some(x)
    ensures forall i, j :: 0 <= i < j < |Actions(stats)| ==> StrLess(Actions(stats)[i], Actions(stats)[j])
  {
    var fs := FirstSeen(ActionTypes(stats));
    var r := Actions(stats);
    forall x ensures x in r <==> x in fs {
      assert x in r <==> x in multiset(fs);
    }
    SortByDistinct(fs, StrLe(), x => x);
    StrLeTotalOrder();
    SortBySorted(fs, StrLe());
    forall i, j | 0 <= i < j < |r| ensures StrLess(r[i], r[j]) {
      assert StrLe()(r[i], r[j]);
      StrLessTotal(r[i], r[j]);
    }
  }

  /** The action columns hidden until chosen. */
  const DEFAULT_HIDDEN: seq<string> := ["Success", "Fail", "Pass", "Dig"]

  /**
   * Adds an entry for every action column not yet in the visibility map: visible
   * unless it is one of the default-hidden names. Existing entries stay as they are.
   */
  method ApplyColumnDefaults(prev: map<string, bool>, allColumns: seq<string>) returns (updated: map<string, bool>)
    ensures forall k :: k in updated <==> k in prev || k in allColumns
    ensures forall k :: k in prev ==> updated[k] == prev[k]
    ensures forall k :: k in allColumns && k !in prev ==> updated[k] == (k !in DEFAULT_HIDDEN)
  {
    if |allColumns| == 0 {
      return prev;
    }
    updated := prev;
    for i := 0 to |allColumns|
      invariant forall k :: k in updated <==> k in prev || k in allColumns[..i]
      invariant forall k :: k in prev ==> updated[k] == prev[k]
      invariant forall k :: k in allColumns[..i] && k !in prev ==> updated[k] == (k !in DEFAULT_HIDDEN)
    {
      var key := allColumns[i];
      if key !in updated {
        updated := updated[key := key !in DEFAULT_HIDDEN];
      }
      assert allColumns[..i + 1] == allColumns[..i] + [key];
    }
    assert allColumns[..|allColumns|] == allColumns;
  }

  /** `toggleColumn`: flips one column's visibility; a column without an entry becomes visible. */
  function ToggleColumn(prev: map<string, bool>, key: string): (r: map<string, bool>)
    ensures key in r && r[key] == !(key in prev && prev[key])
    ensures forall k :: k != key ==> (k in r <==> k in prev) && (k in prev ==> r[k] == prev[k])
  {
    prev[key := !(key in prev && prev[key])]
  }

  /** Toggling a column twice gives back the visibility map it started from. */
  lemma ToggleTwice(prev: map<string, bool>, key: string)
    requires key in prev
    ensures ToggleColumn(ToggleColumn(prev, key), key) == prev
  {
  }
}
