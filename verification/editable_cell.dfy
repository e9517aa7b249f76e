/**
 * The stats grid's cell editor: result normalisation, the lookups behind the
 * player cells, the validity highlight, and commitEdit, which writes a typed
 * value into one row, re-derives running scores and rally numbers along the
 * rest of the set, and sends the edited row and the re-derived rows to the
 * database.
 */
module EditableCell {
  import opened Common
  import opened Rows
  import Lists

  const WON_POINT: string := "Won Point"
  const LOST_POINT: string := "Lost Point"
  const RALLY_START: int := 1
  const BATCH_SIZE: nat := 15
  const POSITION_OPTIONS: seq<string> := ["Power", "Middle", "Opposite", "Backrow"]
  const ACTION_TYPE_OPTIONS: seq<string> := ["Serve", "Pass", "Set", "Tip", "Hit", "Block", "Dig", "Free"]

  // ---------------------------------------------------------------------
  // normalizeResult

  /** Whether a trimmed, lower-cased result reads as a won or as a lost point. */
  predicate WonWord(s: string) { s == "w" || s == "win" || StartsWith(s, "won") }
  predicate LostWord(s: string) { s == "l" || s == "loss" || StartsWith(s, "lost") }

  /** What `normalizeResult` can return: null, "Won Point" or "Lost Point". */
  datatype Point = WonPoint | LostPoint

  function PointText(p: Option<Point>): (r: Option<string>)
    ensures p.None? <==> r.None?
  {
    match p
    case None => None
    case Some(WonPoint) => Some(WON_POINT)
    case Some(LostPoint) => Some(LOST_POINT)
  }

  /** How normalizeResult reads a trimmed, lower-cased result. */
  function ResultWord(s: string): Option<Point> {
    if s == "" then None
    else if WonWord(s) then Some(WonPoint)
    else if LostWord(s) then Some(LostPoint)
    else None
  }

  /** The passes normalizeResult makes over the text. */
  datatype Pass = TrimFront | TrimBack | Read

  function PassesLeft(pass: Pass): nat {
    match pass
    case TrimFront => 2
    case TrimBack => 1
    case Read => 0
  }

  /**
   * normalizeResult's passes over the text: drop white space from the front, then from the back,
   * then lower-case what is left and read it. It is one recursion, so that a proof about a row's
   * result unfolds only the passes it needs; NormalizeResultDef gives the direct reading.
   */
  function NormalizeText(s: string, pass: Pass): Option<Point>
    decreases PassesLeft(pass), |s|
  {
    match pass
    case TrimFront => if s != [] && IsSpace(s[0]) then NormalizeText(s[1..], TrimFront) else NormalizeText(s, TrimBack)
    case TrimBack =>
      if s != [] && IsSpace(s[|s| - 1]) then NormalizeText(s[..|s| - 1], TrimBack) else NormalizeText(Lower(s), Read)
    case Read => ResultWord(s)
  }

  /** `normalizeResult`: null and undefined read as the empty string. */
  function NormalizeResult(res: Option<string>): Option<Point> {
    NormalizeText(res.GetOr(""), TrimFront)
  }

  lemma {:induction false} NormalizeTextFront(s: string)
    ensures NormalizeText(s, TrimFront) == NormalizeText(TrimStart(s), TrimBack)
    decreases |s|
  {
    if s != [] && IsSpace(s[0]) {
      NormalizeTextFront(s[1..]);
    }
  }

  lemma {:induction false} NormalizeTextBack(s: string)
    ensures NormalizeText(s, TrimBack) == ResultWord(Lower(TrimEnd(s)))
    decreases |s|
  {
    if s != [] && IsSpace(s[|s| - 1]) {
      NormalizeTextBack(s[..|s| - 1]);
    }
  }

  /** normalizeResult trims the text, lower-cases it and reads the word. */
  lemma NormalizeResultDef(res: Option<string>)
    ensures NormalizeResult(res) == ResultWord(Lower(Trim(res.GetOr(""))))
  {
    NormalizeTextFront(res.GetOr(""));
    NormalizeTextBack(TrimStart(res.GetOr("")));
  }

  /** A blank entry, after trimming, normalises to null; the won words take precedence over the lost ones. */
  lemma NormalizeResultCases(res: Option<string>)
    ensures Trim(res.GetOr("")) == "" ==> NormalizeResult(res) == None
    ensures NormalizeResult(res) == Some(WonPoint) <==> WonWord(Lower(Trim(res.GetOr(""))))
    ensures NormalizeResult(res) == Some(LostPoint) <==>
              !WonWord(Lower(Trim(res.GetOr("")))) && LostWord(Lower(Trim(res.GetOr(""))))
  {
    NormalizeResultDef(res);
    var s := Lower(Trim(res.GetOr("")));
    if s == "" {
      assert !WonWord(s) && !LostWord(s);
    }
  }

  lemma TrimmedLiteral(s: string)
    requires s == WON_POINT || s == LOST_POINT
    ensures Trim(s) == s
  {
    TrimStartFixed(s);
    TrimEndFixed(s);
  }

  lemma NormalizeWonPoint()
    ensures NormalizeResult(Some(WON_POINT)) == Some(WonPoint)
  {
    NormalizeResultDef(Some(WON_POINT));
    TrimmedLiteral(WON_POINT);
    var l := Lower(WON_POINT);
    assert l[..3] == "won";
  }

  lemma NormalizeLostPoint()
    ensures NormalizeResult(Some(LOST_POINT)) == Some(LostPoint)
  {
    NormalizeResultDef(Some(LOST_POINT));
    TrimmedLiteral(LOST_POINT);
    var l := Lower(LOST_POINT);
    assert l[..4] == "lost";
    assert l[0] == 'l' && l[1] == 'o' && l[2] == 's' && l[3] == 't' && l[4] == ' ';
  }

  /** The text written for a normalised result normalises back to it. */
  lemma NormalizePointText(p: Option<Point>)
    ensures NormalizeResult(PointText(p)) == p
  {
    match p
    case None =>
    case Some(WonPoint) => NormalizeWonPoint();
    case Some(LostPoint) => NormalizeLostPoint();
  }

  /** Normalising an already normalised result gives it back. */
  lemma NormalizeResultIdempotent(res: Option<string>)
    ensures NormalizeResult(PointText(NormalizeResult(res))) == NormalizeResult(res)
  {
    NormalizePointText(NormalizeResult(res));
  }

  /** Matching ignores case and surrounding white space. */
  lemma NormalizeResultIgnoresCaseAndSpace(s: string)
    ensures NormalizeResult(Some(s)) == NormalizeResult(Some(Lower(Trim(s))))
  {
    NormalizeResultDef(Some(s));
    NormalizeResultDef(Some(Lower(Trim(s))));
    var t := Trim(s);
    TrimLowerCommute(t);
    LowerIdempotent(t);
  }

  /** A won or lost point ends the rally. */
  predicate Ended(res: Option<Point>) {
    res.Some?
  }

  function Bump(b: bool): int { if b then 1 else 0 }

  // ---------------------------------------------------------------------
  // Player look-ups

  /** An entry of the game's player list: null, a bare name, or a profile record. */
  datatype GamePlayer =
    | Absent
    | Named(plain: string)
    | Profile(displayName: Option<string>, name: Option<string>, fullName: Option<string>,
              email: Option<string>, userId: Option<string>, profileId: Option<string>)

  /** A profile's display label: the first truthy of display name, name, full name, e-mail local part. */
  function ProfileLabel(p: GamePlayer): string
    requires p.Profile?
  {
    if Truthy(p.displayName) then p.displayName.value
    else if Truthy(p.name) then p.name.value
    else if Truthy(p.fullName) then p.fullName.value
    else if Truthy(p.email) then Split(p.email.value, '@')[0]
    else ""
  }

  /** `p.user_id ?? p.id ?? null`. */
  function ProfileUserId(p: GamePlayer): Option<string>
    requires p.Profile?
  {
    if p.userId.Some? then p.userId else p.profileId
  }

  /** `equalsCI`: equal after trimming and lower-casing. */
  predicate EqualsCI(a: string, b: string) {
    Lower(Trim(a)) == Lower(Trim(b))
  }

  predicate MatchesWithId(p: GamePlayer, needle: string) {
    p.Profile? && EqualsCI(ProfileLabel(p), needle) && ProfileUserId(p).Some?
  }

  /** The id of the first profile whose label matches `needle` and that has an id. */
  function FirstProfileId(players: seq<GamePlayer>, needle: string): (r: Option<string>)
    ensures r.Some? ==> exists p :: p in players && MatchesWithId(p, needle) && ProfileUserId(p) == r
  {
    if players == [] then None
    else if MatchesWithId(players[0], needle) then ProfileUserId(players[0])
    else
      var r := FirstProfileId(players[1..], needle);
      assert r.Some? ==> exists p :: p in players[1..] && MatchesWithId(p, needle) && ProfileUserId(p) == r;
      r
  }

  /** Nothing is found exactly when no profile matches with an id. */
  lemma {:induction false} FirstProfileIdNone(players: seq<GamePlayer>, needle: string)
    ensures FirstProfileId(players, needle).None? <==> forall i :: 0 <= i < |players| ==> !MatchesWithId(players[i], needle)
  {
    if players != [] && !MatchesWithId(players[0], needle) {
      var rest := players[1..];
      FirstProfileIdNone(rest, needle);
      if exists i :: 0 <= i < |players| && MatchesWithId(players[i], needle) {
        var i :| 0 <= i < |players| && MatchesWithId(players[i], needle);
        assert rest[i - 1] == players[i];
      }
    }
  }

  /** The id found is the one of the first profile that matches with an id. */
  lemma {:induction false} FirstProfileIdFirst(players: seq<GamePlayer>, needle: string, i: nat)
    requires i < |players| && MatchesWithId(players[i], needle)
    requires forall j :: 0 <= j < i ==> !MatchesWithId(players[j], needle)
    ensures FirstProfileId(players, needle) == ProfileUserId(players[i])
  {
    if i > 0 {
      var rest := players[1..];
      assert !MatchesWithId(players[0], needle);
      forall j | 0 <= j < i - 1 ensures !MatchesWithId(rest[j], needle) {
        assert rest[j] == players[j + 1];
      }
      FirstProfileIdFirst(rest, needle, i - 1);
    }
  }

  function AliasKey(name: string): string { Lower(Trim(name)) }

  /** `idByAlias`: lower-cased trimmed player names mapped to user ids; later rows override earlier ones. */
  function AliasMap(stats: seq<StatRow>): map<string, string>
  {
    if stats == [] then map[]
    else
      var m := AliasMap(stats[..|stats| - 1]);
      var r := stats[|stats| - 1];
      var m1 := if Truthy(r.data.player) && Truthy(r.data.playerUserId)
                then m[AliasKey(r.data.player.value) := r.data.playerUserId.value] else m;
      if Truthy(r.data.setToPlayer) && Truthy(r.data.setToUserId)
      then m1[AliasKey(r.data.setToPlayer.value) := r.data.setToUserId.value] else m1
  }

  /** Row `r` names a player (or set-to player) with alias `key` and user id `id`. */
  predicate RowAliases(r: StatRow, key: string, id: string) {
    (Truthy(r.data.player) && Truthy(r.data.playerUserId) && AliasKey(r.data.player.value) == key && r.data.playerUserId.value == id)
    || (Truthy(r.data.setToPlayer) && Truthy(r.data.setToUserId) && AliasKey(r.data.setToPlayer.value) == key && r.data.setToUserId.value == id)
  }

  /** Every alias entry comes from some row, and its id is non-empty. */
  lemma {:induction false} AliasMapSound(stats: seq<StatRow>, key: string)
    requires key in AliasMap(stats)
    ensures AliasMap(stats)[key] != ""
    ensures exists i :: 0 <= i < |stats| && RowAliases(stats[i], key, AliasMap(stats)[key])
  {
    var init := stats[..|stats| - 1];
    var r := stats[|stats| - 1];
    var id := AliasMap(stats)[key];
    if RowAliases(r, key, id) {
      assert RowAliases(stats[|stats| - 1], key, id);
    } else {
      AliasMapSound(init, key);
      var i :| 0 <= i < |init| && RowAliases(init[i], key, AliasMap(init)[key]);
      assert stats[i] == init[i];
    }
  }

  /** `idForDisplayName`: a matching profile's id first, then the id seen with that name in the stats. */
  function IdForDisplayName(input: Option<string>, players: Option<seq<GamePlayer>>, stats: seq<StatRow>): (r: Option<string>)
    ensures !Truthy(input) ==> r == None
  {
    if !Truthy(input) then None
    else
      var needle := Trim(input.value);
      var found := if players.Some? then FirstProfileId(players.value, needle) else None;
      if found.Some? then found
      else
        var alias := AliasMap(stats);
        var key := Lower(needle);
        if key in alias then Some(alias[key]) else None
  }

  /**
   * A non-empty name resolves to the first profile in the player list whose label matches it
   * and that has an id; failing that, to the non-empty id last recorded with that name in the stats.
   */
  lemma IdForDisplayNameResolves(input: string, players: Option<seq<GamePlayer>>, stats: seq<StatRow>, i: nat)
    requires input != ""
    requires players.Some? && i < |players.value| && MatchesWithId(players.value[i], Trim(input))
    requires forall j :: 0 <= j < i ==> !MatchesWithId(players.value[j], Trim(input))
    ensures IdForDisplayName(Some(input), players, stats) == ProfileUserId(players.value[i])
  {
    FirstProfileIdFirst(players.value, Trim(input), i);
  }

  lemma IdForDisplayNameFallsBack(input: string, players: Option<seq<GamePlayer>>, stats: seq<StatRow>)
    requires input != ""
    requires players.Some? ==> forall j :: 0 <= j < |players.value| ==> !MatchesWithId(players.value[j], Trim(input))
    ensures var r := IdForDisplayName(Some(input), players, stats);
            (r.Some? <==> AliasKey(input) in AliasMap(stats))
            && (r.Some? ==> r.value == AliasMap(stats)[AliasKey(input)] && r.value != ""
                            && exists k :: 0 <= k < |stats| && RowAliases(stats[k], AliasKey(input), r.value))
  {
    if players.Some? {
      FirstProfileIdNone(players.value, Trim(input));
    }
    if AliasKey(input) in AliasMap(stats) {
      AliasMapSound(stats, AliasKey(input));
    }
  }

  // ---------------------------------------------------------------------
  // nameOptions

  /** The label a player-list entry contributes to the name options. */
  function PlayerLabel(p: GamePlayer): string {
    match p
    case Absent => ""
    case Named(s) => s
    case Profile(_, _, _, _, _, _) => ProfileLabel(p)
  }

  function RowLabels(stats: seq<StatRow>): seq<string>
  {
    if stats == [] then []
    else [stats[0].data.player.GetOr(""), stats[0].data.setToPlayer.GetOr("")] + RowLabels(stats[1..])
  }

  /** The candidate labels in the order nameOptions sees them: the player list, then each row's names. */
  function CandidateLabels(players: Option<seq<GamePlayer>>, stats: seq<StatRow>): seq<string>
  {
    (if players.Some? then Lists.Map(players.value, PlayerLabel) else []) + RowLabels(stats)
  }

  /** The keys of a list of labels. */
  function KeysOf(labels: seq<string>, key: string -> string): set<string>
  {
    if labels == [] then {} else KeysOf(labels[..|labels| - 1], key) + {key(labels[|labels| - 1])}
  }

  lemma {:induction false} KeysOfMeans(labels: seq<string>, key: string -> string, k: string)
    ensures k in KeysOf(labels, key) <==> exists j :: 0 <= j < |labels| && key(labels[j]) == k
  {
    if labels != [] {
      var init := labels[..|labels| - 1];
      KeysOfMeans(init, key, k);
      assert forall j :: 0 <= j < |init| ==> init[j] == labels[j];
    }
  }

  /** The non-empty labels, keeping the first label for each key (nameOptions uses the trimmed lower-cased label). */
  function Dedupe(labels: seq<string>, key: string -> string): (r: seq<string>)
    ensures |r| <= |labels|
  {
    if labels == [] then []
    else
      var out := Dedupe(labels[..|labels| - 1], key);
      var l := labels[|labels| - 1];
      if l == "" || key(l) in KeysOf(out, key) then out else out + [l]
  }

  /** Every option is a non-empty label of the input. */
  lemma {:induction false} DedupeFromLabels(labels: seq<string>, key: string -> string)
    ensures forall i :: 0 <= i < |Dedupe(labels, key)| ==> Dedupe(labels, key)[i] != "" && Dedupe(labels, key)[i] in labels
  {
    if labels != [] {
      var init := labels[..|labels| - 1];
      DedupeFromLabels(init, key);
      var out := Dedupe(init, key);
      forall i | 0 <= i < |out| ensures out[i] in labels {
        var k :| 0 <= k < |init| && init[k] == out[i];
        assert labels[k] == out[i];
      }
    }
  }

  /** No two options share a key. */
  lemma {:induction false} DedupeDistinct(labels: seq<string>, key: string -> string)
    ensures forall i, j :: 0 <= i < j < |Dedupe(labels, key)| ==> key(Dedupe(labels, key)[i]) != key(Dedupe(labels, key)[j])
  {
    if labels != [] {
      var init := labels[..|labels| - 1];
      var l := labels[|labels| - 1];
      DedupeDistinct(init, key);
      var out := Dedupe(init, key);
      if !(l == "" || key(l) in KeysOf(out, key)) {
        KeysOfMeans(out, key, key(l));
      }
    }
  }

  /** Every non-empty label's key is the key of some option. */
  lemma {:induction false} DedupeCoversKeys(labels: seq<string>, key: string -> string)
    ensures forall i :: 0 <= i < |labels| && labels[i] != "" ==> key(labels[i]) in KeysOf(Dedupe(labels, key), key)
  {
    if labels != [] {
      var init := labels[..|labels| - 1];
      DedupeCoversKeys(init, key);
      var out := Dedupe(init, key);
      assert KeysOf(out, key) <= KeysOf(Dedupe(labels, key), key) by {
        if Dedupe(labels, key) != out {
          assert Dedupe(labels, key)[..|Dedupe(labels, key)| - 1] == out;
        }
      }
      forall i | 0 <= i < |labels| && labels[i] != "" ensures key(labels[i]) in KeysOf(Dedupe(labels, key), key) {
        if i < |init| {
          assert labels[i] == init[i];
        }
      }
    }
  }

  /** First spelling wins: each option is the earliest non-empty label with its key. */
  lemma {:induction false} DedupeFirstSpelling(labels: seq<string>, key: string -> string, j: nat)
    requires j < |Dedupe(labels, key)|
    ensures exists i :: 0 <= i < |labels| && labels[i] == Dedupe(labels, key)[j]
                        && forall h :: 0 <= h < i && labels[h] != "" ==> key(labels[h]) != key(labels[i])
  {
    var init := labels[..|labels| - 1];
    var l := labels[|labels| - 1];
    var out := Dedupe(init, key);
    if j < |out| {
      DedupeFirstSpelling(init, key, j);
      var i :| 0 <= i < |init| && init[i] == out[j]
               && forall h :: 0 <= h < i && init[h] != "" ==> key(init[h]) != key(init[i]);
      assert labels[i] == init[i];
      forall h | 0 <= h < i && labels[h] != "" ensures key(labels[h]) != key(labels[i]) {
        assert labels[h] == init[h];
      }
    } else {
      var i := |labels| - 1;
      DedupeCoversKeys(init, key);
      forall h | 0 <= h < i && labels[h] != "" ensures key(labels[h]) != key(labels[i]) {
        assert labels[h] == init[h];
        assert key(init[h]) in KeysOf(out, key);
      }
    }
  }

  /** `nameOptions`: one label per distinct player name, first spelling wins. */
  function NameOptions(players: Option<seq<GamePlayer>>, stats: seq<StatRow>): seq<string>
  {
    Dedupe(CandidateLabels(players, stats), AliasKey)
  }

  // ---------------------------------------------------------------------
  // isValidValue

  /** The edited row exists and its action type is `set`, compared case-insensitively. */
  predicate CurrentIsSet(stats: seq<StatRow>, statId: string) {
    var i := FindIndex(stats, statId);
    i >= 0 && Lower(stats[i].data.actionType.GetOr("")) == "set"
  }

  predicate IsPosition(typed: string) {
    exists p :: p in POSITION_OPTIONS && Lower(p) == typed
  }

  predicate IsNameOption(nameOptions: seq<string>, v: string) {
    exists n :: n in nameOptions && EqualsCI(n, v)
  }

  /**
   * `isValidValue` for a text cell's current value: the grid highlights a cell whose
   * value is not among the allowed ones, and a Set row missing its set-to fields.
   */
  function IsValidValue(field: Column, value: Option<string>, statId: string, stats: seq<StatRow>, nameOptions: seq<string>): (ok: bool)
    ensures field !in {Player, SetToPlayer, ActionType, SetToPosition} ==> ok
    ensures field == ActionType ==> (ok <==> !Truthy(value) || value.value in ACTION_TYPE_OPTIONS)
    ensures field == Player ==> (ok <==> !Truthy(value) || IsNameOption(nameOptions, value.value))
    ensures field == SetToPlayer ==>
              (ok <==> if Truthy(value) then IsNameOption(nameOptions, value.value) else !CurrentIsSet(stats, statId))
    ensures field == SetToPosition ==>
              (ok <==> if Lower(Trim(value.GetOr(""))) == "" then !CurrentIsSet(stats, statId)
                       else IsPosition(Lower(Trim(value.GetOr("")))))
  {
    var blank := !Truthy(value);
    if blank && field != SetToPosition && field != SetToPlayer then true
    else if field == SetToPlayer then
      if blank then !CurrentIsSet(stats, statId) else IsNameOption(nameOptions, value.value)
    else if field == Player then IsNameOption(nameOptions, value.value)
    else if field == ActionType then value.value in ACTION_TYPE_OPTIONS
    else if field == SetToPosition then
      var typed := Lower(Trim(value.GetOr("")));
      if typed == "" then !CurrentIsSet(stats, statId) else IsPosition(typed)
    else true
  }

  /** The allowed set-to positions, lower-cased. */
  lemma PositionKeys(typed: string)
    ensures IsPosition(typed) <==> typed in ["power", "middle", "opposite", "backrow"]
  {
    assert Lower("Power") == "power";
    assert Lower("Middle") == "middle";
    assert Lower("Opposite") == "opposite";
    assert Lower("Backrow") == "backrow";
  }

  /** Reads a literal that has no surrounding white space through trim and toLowerCase. */
  lemma TypedLiteral(s: string, t: string)
    requires s != [] && !IsSpace(s[0]) && !IsSpace(s[|s| - 1])
    requires Lower(s) == t
    ensures Lower(Trim(s)) == t
  {
    TrimStartFixed(s);
    TrimEndFixed(s);
  }

  /** A typed position is accepted exactly when, trimmed and lower-cased, it is one of the four positions. */
  lemma PositionTyped(s: string, t: string, statId: string, stats: seq<StatRow>, names: seq<string>)
    requires s != [] && !IsSpace(s[0]) && !IsSpace(s[|s| - 1])
    requires Lower(s) == t
    ensures IsValidValue(SetToPosition, Some(s), statId, stats, names) <==> t in ["power", "middle", "opposite", "backrow"]
  {
    TypedLiteral(s, t);
    PositionKeys(t);
  }

  /** Positions are accepted whatever their case, and a role that is not a position is refused. */
  lemma PositionExamples(statId: string, stats: seq<StatRow>, names: seq<string>)
    ensures IsValidValue(SetToPosition, Some("middle"), statId, stats, names)
    ensures IsValidValue(SetToPosition, Some("BACKROW"), statId, stats, names)
    ensures !IsValidValue(SetToPosition, Some("Libero"), statId, stats, names)
  {
    assert Lower("middle") == "middle";
    PositionTyped("middle", "middle", statId, stats, names);
    assert Lower("BACKROW") == "backrow";
    PositionTyped("BACKROW", "backrow", statId, stats, names);
    assert Lower("Libero") == "libero";
    PositionTyped("Libero", "libero", statId, stats, names);
  }

  // ---------------------------------------------------------------------
  // The cascades of commitEdit

  /** A PATCH request: the row id and the columns it writes. */
  datatype Patch = Patch(id: string, fields: seq<(Column, Val)>)

  /** The first index at or after `from` whose row is not in set `s` (or the end of the list). */
  function RunEnd(rows: seq<StatRow>, from: nat, s: Option<int>): (k: nat)
    requires from <= |rows|
    ensures from <= k <= |rows|
    ensures forall j :: from <= j < k ==> rows[j].setNumber == s
    ensures k < |rows| ==> rows[k].setNumber != s
    ensures from < |rows| && rows[from].setNumber == s ==> from < k
    decreases |rows| - from
  {
    if from == |rows| || rows[from].setNumber != s then from else RunEnd(rows, from + 1, s)
  }

  /** `Number(x) || 0`. */
  function Number0(o: Option<int>): int { o.GetOr(0) }

  /** `Number(x) || RALLY_START`: a missing or zero rally number reads as the first rally. */
  function RallyOrStart(o: Option<int>): int {
    if o.Some? && o.value != 0 then o.value else RALLY_START
  }

  predicate PrevInSameSet(rows: seq<StatRow>, idx: nat)
    requires idx < |rows|
  {
    idx > 0 && rows[idx - 1].setNumber == rows[idx].setNumber
  }

  /**
   * Every row's result as normalizeResult reads it. The cascades are stated over this list, so
   * that reasoning about them only looks inside normalizeResult where a row's result is read.
   */
  function Outcomes(rows: seq<StatRow>): (r: seq<Option<Point>>)
    ensures |r| == |rows|
  {
    seq(|rows|, i requires 0 <= i < |rows| => NormalizeResult(rows[i].result))
  }

  /** How many outcomes in `outs` are point `p`. */
  function Count(outs: seq<Option<Point>>, p: Point): nat {
    if outs == [] then 0 else Count(outs[..|outs| - 1], p) + Bump(outs[|outs| - 1] == Some(p))
  }

  /** How many outcomes in `outs` ended a rally. */
  function Finished(outs: seq<Option<Point>>): nat {
    if outs == [] then 0 else Finished(outs[..|outs| - 1]) + Bump(Ended(outs[|outs| - 1]))
  }

  // Result edits

  datatype Counters = Counters(our: int, opp: int, rally: int)

  /** Where the result cascade starts: after the preceding row when it is in the same set, else 0-0 in rally 1. */
  function ResultSeed(rows: seq<StatRow>, outs: seq<Option<Point>>, idx: nat): Counters
    requires idx < |rows| == |outs|
  {
    if PrevInSameSet(rows, idx) then
      var p := rows[idx - 1];
      Counters(Number0(p.ourScore), Number0(p.oppScore), RallyOrStart(p.rallyId) + Bump(Ended(outs[idx - 1])))
    else Counters(0, 0, RALLY_START)
  }

  /** The row written by one turn of the loop: the counters after its own point and the rally it was played in. */
  function Rewritten(r: StatRow, c: Counters, res: Option<Point>): StatRow {
    r.(ourScore := Some(c.our + Bump(res == Some(WonPoint))),
       oppScore := Some(c.opp + Bump(res == Some(LostPoint))),
       rallyId := Some(c.rally))
  }

  /** The counters the next row starts from. */
  function After(c: Counters, res: Option<Point>): Counters {
    Counters(c.our + Bump(res == Some(WonPoint)), c.opp + Bump(res == Some(LostPoint)), c.rally + Bump(Ended(res)))
  }

  /** The rows with the new result written on the edited one. */
  function WithResult(rows: seq<StatRow>, idx: nat, parsed: Option<Point>): seq<StatRow>
    requires idx < |rows|
  {
    rows[idx := rows[idx].(result := PointText(parsed))]
  }

  /** The outcomes the cascade counts with: the new one on the edited row, the stored ones elsewhere. */
  function EditedOutcomes(outs: seq<Option<Point>>, idx: nat, parsed: Option<Point>): seq<Option<Point>>
    requires idx < |outs|
  {
    outs[idx := parsed]
  }

  /** The rows and the counters once the result cascade has rewritten rows `idx` .. `j - 1`. */
  function ResultUpTo(rows: seq<StatRow>, outs: seq<Option<Point>>, idx: nat, parsed: Option<Point>, j: nat)
    : (r: (seq<StatRow>, Counters))
    requires idx < |rows| == |outs| && idx <= j <= |rows|
    ensures |r.0| == |rows|
    decreases j
  {
    if j == idx then (WithResult(rows, idx, parsed), ResultSeed(rows, outs, idx))
    else
      var prev := ResultUpTo(rows, outs, idx, parsed, j - 1);
      var res := EditedOutcomes(outs, idx, parsed)[j - 1];
      (prev.0[j - 1 := Rewritten(prev.0[j - 1], prev.1, res)], After(prev.1, res))
  }

  /** What a result edit makes of the rows: the run of same-set rows from the edited one re-scored. */
  function ResultRerun(rows: seq<StatRow>, idx: nat, parsed: Option<Point>): seq<StatRow>
    requires idx < |rows|
  {
    ResultUpTo(rows, Outcomes(rows), idx, parsed, RunEnd(rows, idx, rows[idx].setNumber)).0
  }

  function InSet(s: Option<int>): StatRow -> bool {
    (r: StatRow) => r.setNumber == s
  }

  function ResultPatch(r: StatRow): Patch {
    Patch(r.id, [(OurScore, IntVal(r.ourScore)), (OppScore, IntVal(r.oppScore)), (RallyId, IntVal(r.rallyId))])
  }

  /** Every row from the edited one on that is in the edited row's set, not only the rewritten run. */
  function ResultPatches(next: seq<StatRow>, idx: nat, s: Option<int>): seq<Patch>
    requires idx <= |next|
  {
    Lists.Map(Lists.Filter(next[idx..], InSet(s)), ResultPatch)
  }

  /** The counters the result loop starts from, read off the row before the edited one when it is in the same set. */
  method ResultStart(rows: seq<StatRow>, idx: nat) returns (our: int, opp: int, rally: int)
    requires idx < |rows|
    ensures Counters(our, opp, rally) == ResultSeed(rows, Outcomes(rows), idx)
  {
    our, opp, rally := 0, 0, RALLY_START;
    var prevRes := None;
    if idx > 0 && rows[idx - 1].setNumber == rows[idx].setNumber {
      our, opp, rally := Number0(rows[idx - 1].ourScore), Number0(rows[idx - 1].oppScore), RallyOrStart(rows[idx - 1].rallyId);
      prevRes := NormalizeResult(rows[idx - 1].result);
    }
    assert Ended(prevRes) ==> prevRes.value == WonPoint || prevRes.value == LostPoint;
    if prevRes == Some(WonPoint) || prevRes == Some(LostPoint) {
      rally := rally + 1;
    }
  }

  /** One turn of the result loop: row `j` takes the counters after its own point and the rally it was played in. */
  method ResultTurn(next: seq<StatRow>, j: nat, our: int, opp: int, rally: int, res: Option<Point>)
    returns (next': seq<StatRow>, our': int, opp': int, rally': int)
    requires j < |next|
    ensures next' == next[j := Rewritten(next[j], Counters(our, opp, rally), res)]
    ensures Counters(our', opp', rally') == After(Counters(our, opp, rally), res)
  {
    our', opp', rally' := our, opp, rally;
    var rallyForThisRow := rally;
    if res == Some(WonPoint) {
      our' := our + 1;
    } else if res == Some(LostPoint) {
      opp' := opp + 1;
    }
    next' := next[j := next[j].(ourScore := Some(our'), oppScore := Some(opp'), rallyId := Some(rallyForThisRow))];
    if Ended(res) {
      rally' := rally + 1;
    }
  }

  /** One more turn of the result loop, and the row the turn after it starts from. */
  lemma ResultUpToStep(rows: seq<StatRow>, outs: seq<Option<Point>>, idx: nat, parsed: Option<Point>, j: nat)
    requires idx <= j < |rows| == |outs|
    ensures var prev := ResultUpTo(rows, outs, idx, parsed, j);
      var res := EditedOutcomes(outs, idx, parsed)[j];
      ResultUpTo(rows, outs, idx, parsed, j + 1) == (prev.0[j := Rewritten(prev.0[j], prev.1, res)], After(prev.1, res))
    ensures j + 1 < |rows| ==> ResultUpTo(rows, outs, idx, parsed, j + 1).0[j + 1] == WithResult(rows, idx, parsed)[j + 1]
  {
    if j + 1 < |rows| {
      ResultUpToFrame(rows, outs, idx, parsed, j + 1, j + 1);
    }
  }

  method ResultCascade(rows: seq<StatRow>, idx: nat, parsed: Option<Point>) returns (next: seq<StatRow>, patches: seq<Patch>)
    requires idx < |rows|
    ensures next == ResultRerun(rows, idx, parsed)
    ensures patches == ResultPatches(next, idx, rows[idx].setNumber)
  {
    var s := rows[idx].setNumber;
    ghost var k := RunEnd(rows, idx, s);
    ghost var outs := Outcomes(rows);
    next := rows[idx := rows[idx].(result := PointText(parsed))];
    var our, opp, rally := ResultStart(rows, idx);
    var j := idx;
    while j < |next| && next[j].setNumber == s
      invariant idx <= j <= k
      invariant next == ResultUpTo(rows, outs, idx, parsed, j).0
      invariant Counters(our, opp, rally) == ResultUpTo(rows, outs, idx, parsed, j).1
      invariant j < |rows| ==> next[j] == WithResult(rows, idx, parsed)[j]
      decreases |rows| - j
    {
      var res := if j == idx then parsed else NormalizeResult(next[j].result);
      assert res == EditedOutcomes(outs, idx, parsed)[j];
      ResultUpToStep(rows, outs, idx, parsed, j);
      next, our, opp, rally := ResultTurn(next, j, our, opp, rally, res);
      j := j + 1;
    }
    assert j == k;
    patches := ResultPatches(next, idx, s);
  }


  /** The counters row `i` (after the edited one) starts from: the seed plus the points of rows `idx` .. `i - 1`. */
  function CountersBefore(rows: seq<StatRow>, outs: seq<Option<Point>>, idx: nat, parsed: Option<Point>, i: nat): Counters
    requires idx < i <= |rows| == |outs|
  {
    var seed := ResultSeed(rows, outs, idx);
    var counted := EditedOutcomes(outs, idx, parsed)[idx..i];
    Counters(seed.our + Count(counted, WonPoint), seed.opp + Count(counted, LostPoint), seed.rally + Finished(counted))
  }

  /** One more outcome of a slice adds its own point and, when it ends a rally, one finished rally. */
  lemma PointsSlice(e: seq<Option<Point>>, a: nat, b: nat)
    requires a < b <= |e|
    ensures Count(e[a..b], WonPoint) == Count(e[a..b - 1], WonPoint) + Bump(e[b - 1] == Some(WonPoint))
    ensures Count(e[a..b], LostPoint) == Count(e[a..b - 1], LostPoint) + Bump(e[b - 1] == Some(LostPoint))
    ensures Finished(e[a..b]) == Finished(e[a..b - 1]) + Bump(Ended(e[b - 1]))
  {
    assert e[a..b][..b - 1 - a] == e[a..b - 1];
  }

  lemma {:induction false} ResultUpToCounters(rows: seq<StatRow>, outs: seq<Option<Point>>, idx: nat, parsed: Option<Point>, j: nat)
    requires idx < j <= |rows| == |outs|
    ensures ResultUpTo(rows, outs, idx, parsed, j).1 == CountersBefore(rows, outs, idx, parsed, j)
    decreases j
  {
    var e := EditedOutcomes(outs, idx, parsed);
    PointsSlice(e, idx, j);
    if j - 1 > idx {
      ResultUpToCounters(rows, outs, idx, parsed, j - 1);
    }
    assert ResultUpTo(rows, outs, idx, parsed, j).1 == After(ResultUpTo(rows, outs, idx, parsed, j - 1).1, e[j - 1]);
  }

  /** The result cascade leaves every row outside `idx` .. `j - 1` as the edit wrote it. */
  lemma {:induction false} ResultUpToFrame(rows: seq<StatRow>, outs: seq<Option<Point>>, idx: nat, parsed: Option<Point>, j: nat, i: nat)
    requires idx < |rows| == |outs| && idx <= j <= |rows| && i < |rows|
    requires i < idx || j <= i
    ensures ResultUpTo(rows, outs, idx, parsed, j).0[i] == WithResult(rows, idx, parsed)[i]
    decreases j
  {
    if j > idx {
      ResultUpToFrame(rows, outs, idx, parsed, j - 1, i);
    }
  }

  /** Row `i` once the result cascade has rewritten rows `idx` .. `j - 1`. */
  lemma {:induction false} ResultUpToRow(rows: seq<StatRow>, outs: seq<Option<Point>>, idx: nat, parsed: Option<Point>, j: nat, i: nat)
    requires idx < |rows| == |outs| && idx <= j <= |rows| && i < |rows|
    ensures ResultUpTo(rows, outs, idx, parsed, j).0[i]
            == if i < idx || j <= i then WithResult(rows, idx, parsed)[i]
               else Rewritten(WithResult(rows, idx, parsed)[i],
                              if i == idx then ResultSeed(rows, outs, idx) else CountersBefore(rows, outs, idx, parsed, i),
                              EditedOutcomes(outs, idx, parsed)[i])
    decreases j
  {
    if j > idx {
      ResultUpToRow(rows, outs, idx, parsed, j - 1, i);
      if i == j - 1 && i > idx {
        ResultUpToCounters(rows, outs, idx, parsed, i);
      }
    }
  }

  /**
   * A result edit writes the new result on the edited row and rewrites only the run of same-set
   * rows that starts there. Each row of the run is rewritten from the counters before it: the
   * seed, plus the won points, lost points and finished rallies of the rows between the edited
   * one and itself, the edited row counting with its new result.
   */
  lemma ResultRerunRows(rows: seq<StatRow>, idx: nat, parsed: Option<Point>, j: nat)
    requires idx < |rows| && j < |rows|
    ensures |ResultRerun(rows, idx, parsed)| == |rows|
    ensures ResultRerun(rows, idx, parsed)[j]
            == if j < idx || RunEnd(rows, idx, rows[idx].setNumber) <= j then WithResult(rows, idx, parsed)[j]
               else Rewritten(WithResult(rows, idx, parsed)[j],
                              if j == idx then ResultSeed(rows, Outcomes(rows), idx)
                              else CountersBefore(rows, Outcomes(rows), idx, parsed, j),
                              EditedOutcomes(Outcomes(rows), idx, parsed)[j])
  {
    ResultUpToRow(rows, Outcomes(rows), idx, parsed, RunEnd(rows, idx, rows[idx].setNumber), j);
  }


  function Blank1(id: string): StatRow {
    EmptyRow(id, "g").(setNumber := Some(1))
  }

  function Blank3(): seq<StatRow> {
    [Blank1("a"), Blank1("b"), Blank1("c")]
  }

  /** The rows Blank3 becomes when its first row is edited to a won point. */
  function Blank3Won(): seq<StatRow> {
    [Blank1("a").(result := Some(WON_POINT), ourScore := Some(1), oppScore := Some(0), rallyId := Some(1)),
     Blank1("b").(ourScore := Some(1), oppScore := Some(0), rallyId := Some(2)),
     Blank1("c").(ourScore := Some(1), oppScore := Some(0), rallyId := Some(2))]
  }

  lemma Blank3Shape()
    ensures RunEnd(Blank3(), 0, Some(1)) == 3
    ensures Outcomes(Blank3()) == [None, None, None]
  {
    assert RunEnd(Blank3(), 3, Some(1)) == 3;
    assert NormalizeResult(None) == None;
  }

  lemma Blank3Steps(outs: seq<Option<Point>>)
    requires outs == [None, None, None]
    ensures ResultUpTo(Blank3(), outs, 0, Some(WonPoint), 3).0 == Blank3Won()
  {
    var rows := Blank3();
    var won := Some(WonPoint);
    var s0 := ResultUpTo(rows, outs, 0, won, 0);
    assert s0.1 == Counters(0, 0, 1);
    var s1 := ResultUpTo(rows, outs, 0, won, 1);
    assert s1.1 == Counters(1, 0, 2);
    assert s1.0[0] == Blank3Won()[0];
    var s2 := ResultUpTo(rows, outs, 0, won, 2);
    assert s2.1 == Counters(1, 0, 2);
    assert s2.0[1] == Blank3Won()[1];
    var s3 := ResultUpTo(rows, outs, 0, won, 3);
    assert s3.0[2] == Blank3Won()[2];
    assert s3.0 == s2.0[2 := s3.0[2]];
    assert s2.0 == s1.0[1 := s2.0[1]];
  }

  /**
   * Three blank set-1 rows, the first edited to a won point: scores 1-0 on all three,
   * rally 1 on the first row and rally 2 on the two after it.
   */
  lemma ThreeBlankRowsWonPoint()
    ensures ResultRerun(Blank3(), 0, Some(WonPoint)) == Blank3Won()
  {
    Blank3Shape();
    Blank3Steps(Outcomes(Blank3()));
  }

  // Score edits

  datatype Side = Our | Opp

  function ScoreOf(r: StatRow, side: Side): Option<int> {
    if side == Our then r.ourScore else r.oppScore
  }

  function WithScore(r: StatRow, side: Side, v: Option<int>): StatRow {
    if side == Our then r.(ourScore := v) else r.(oppScore := v)
  }

  function ScoreColumn(side: Side): Column {
    if side == Our then OurScore else OppScore
  }

  /** The result that scores for a side: a won point for us, a lost point for the opponent. */
  function ScoringResult(side: Side): Point {
    if side == Our then WonPoint else LostPoint
  }

  /** The edited side's score on the preceding row when it is in the same set, else 0. */
  function PrevScore(rows: seq<StatRow>, idx: nat, side: Side): int
    requires idx < |rows|
  {
    if PrevInSameSet(rows, idx) then Number0(ScoreOf(rows[idx - 1], side)) else 0
  }

  /**
   * The rows and the running score once the score cascade has written `v0` on the edited row and
   * re-counted rows `idx + 1` .. `j - 1`.
   */
  function ScoreUpTo(rows: seq<StatRow>, outs: seq<Option<Point>>, idx: nat, side: Side, v0: int, j: nat)
    : (r: (seq<StatRow>, int))
    requires idx < j <= |rows| == |outs|
    ensures |r.0| == |rows|
    decreases j
  {
    if j == idx + 1 then (rows[idx := WithScore(rows[idx], side, Some(v0))], v0)
    else
      var prev := ScoreUpTo(rows, outs, idx, side, v0, j - 1);
      var v := prev.1 + Bump(outs[j - 1] == Some(ScoringResult(side)));
      (prev.0[j - 1 := WithScore(prev.0[j - 1], side, Some(v))], v)
  }

  /** The run of same-set rows from the edited one re-scored, the edited row holding `v0`. */
  function ScoreRerunFrom(rows: seq<StatRow>, idx: nat, side: Side, v0: int): seq<StatRow>
    requires idx < |rows|
  {
    ScoreUpTo(rows, Outcomes(rows), idx, side, v0, RunEnd(rows, idx, rows[idx].setNumber)).0
  }

  /** The edited row takes the typed score (the previous row's when blank); the rest of its run counts on from there. */
  function ScoreRerun(rows: seq<StatRow>, idx: nat, side: Side, parsed: Option<int>): seq<StatRow>
    requires idx < |rows|
  {
    ScoreRerunFrom(rows, idx, side, parsed.GetOr(PrevScore(rows, idx, side)))
  }

  function ScorePatch(side: Side): StatRow -> Patch {
    (r: StatRow) => Patch(r.id, [(ScoreColumn(side), IntVal(ScoreOf(r, side)))])
  }

  function ScorePatches(next: seq<StatRow>, idx: nat, side: Side, s: Option<int>): seq<Patch>
    requires idx <= |next|
  {
    Lists.Map(Lists.Filter(next[idx..], InSet(s)), ScorePatch(side))
  }

  /** One turn of the score loop: the running score goes up on a scoring point and is written on row `j`. */
  method ScoreTurn(next: seq<StatRow>, j: nat, side: Side, editedVal: int, res: Option<Point>)
    returns (next': seq<StatRow>, editedVal': int)
    requires j < |next|
    ensures editedVal' == editedVal + Bump(res == Some(ScoringResult(side)))
    ensures next' == next[j := WithScore(next[j], side, Some(editedVal'))]
  {
    editedVal' := editedVal;
    if res == Some(ScoringResult(side)) {
      editedVal' := editedVal + 1;
    }
    next' := next[j := WithScore(next[j], side, Some(editedVal'))];
  }

  /** The score loop: `v0` on the edited row, then the running score on each later row of its set. */
  method ScoreRun(rows: seq<StatRow>, idx: nat, side: Side, v0: int) returns (next: seq<StatRow>)
    requires idx < |rows|
    ensures next == ScoreRerunFrom(rows, idx, side, v0)
  {
    var s := rows[idx].setNumber;
    ghost var k := RunEnd(rows, idx, s);
    ghost var outs := Outcomes(rows);
    next := rows[idx := WithScore(rows[idx], side, Some(v0))];
    var editedVal := v0;
    var j := idx + 1;
    if j < |rows| {
      ScoreUpToFrame(rows, outs, idx, side, v0, j, j);
    }
    while j < |next| && next[j].setNumber == s
      invariant idx < j <= k
      invariant next == ScoreUpTo(rows, outs, idx, side, v0, j).0
      invariant editedVal == ScoreUpTo(rows, outs, idx, side, v0, j).1
      invariant j < |rows| ==> next[j] == rows[j]
      decreases |rows| - j
    {
      var res := NormalizeResult(next[j].result);
      assert res == outs[j];
      ScoreUpToStep(rows, outs, idx, side, v0, j);
      next, editedVal := ScoreTurn(next, j, side, editedVal, res);
      j := j + 1;
    }
    assert j == k;
  }

  /** One more turn of the score loop, and the row the turn after it starts from. */
  lemma ScoreUpToStep(rows: seq<StatRow>, outs: seq<Option<Point>>, idx: nat, side: Side, v0: int, j: nat)
    requires idx < j < |rows| == |outs|
    ensures var prev := ScoreUpTo(rows, outs, idx, side, v0, j);
      var v := prev.1 + Bump(outs[j] == Some(ScoringResult(side)));
      ScoreUpTo(rows, outs, idx, side, v0, j + 1) == (prev.0[j := WithScore(prev.0[j], side, Some(v))], v)
    ensures j + 1 < |rows| ==> ScoreUpTo(rows, outs, idx, side, v0, j + 1).0[j + 1] == rows[j + 1]
  {
    if j + 1 < |rows| {
      ScoreUpToFrame(rows, outs, idx, side, v0, j + 1, j + 1);
    }
  }

  /** `commitEdit` on a score column: re-scores the edited row's run and patches every row of that set from it on. */
  method ScoreCascade(rows: seq<StatRow>, idx: nat, side: Side, parsed: Option<int>) returns (next: seq<StatRow>, patches: seq<Patch>)
    requires idx < |rows|
    ensures next == ScoreRerun(rows, idx, side, parsed)
    ensures patches == ScorePatches(next, idx, side, rows[idx].setNumber)
  {
    var prevVal := PrevScore(rows, idx, side);
    var editedVal := parsed.GetOr(prevVal);
    next := ScoreRun(rows, idx, side, editedVal);
    patches := ScorePatches(next, idx, side, rows[idx].setNumber);
  }

  lemma {:induction false} ScoreUpToValue(rows: seq<StatRow>, outs: seq<Option<Point>>, idx: nat, side: Side, v0: int, j: nat)
    requires idx < j <= |rows| == |outs|
    ensures ScoreUpTo(rows, outs, idx, side, v0, j).1 == v0 + Count(outs[idx + 1..j], ScoringResult(side))
    decreases j
  {
    if j - 1 > idx {
      ScoreUpToValue(rows, outs, idx, side, v0, j - 1);
      assert outs[idx + 1..j][..j - 1 - (idx + 1)] == outs[idx + 1..j - 1];
    } else {
      assert outs[idx + 1..j] == [];
    }
  }

  /** The score cascade leaves every row outside `idx` .. `j - 1` as it was. */
  lemma {:induction false} ScoreUpToFrame(rows: seq<StatRow>, outs: seq<Option<Point>>, idx: nat, side: Side, v0: int, j: nat, i: nat)
    requires idx < j <= |rows| == |outs| && i < |rows|
    requires i < idx || j <= i
    ensures ScoreUpTo(rows, outs, idx, side, v0, j).0[i] == rows[i]
    decreases j
  {
    if j > idx + 1 {
      ScoreUpToFrame(rows, outs, idx, side, v0, j - 1, i);
    }
  }

  /** Row `i` once the score cascade has written `v0` on the edited row and re-counted rows `idx + 1` .. `j - 1`. */
  lemma {:induction false} ScoreUpToRow(rows: seq<StatRow>, outs: seq<Option<Point>>, idx: nat, side: Side, v0: int, j: nat, i: nat)
    requires idx < j <= |rows| == |outs| && i < |rows|
    ensures ScoreUpTo(rows, outs, idx, side, v0, j).0[i]
            == if i < idx || j <= i then rows[i]
               else WithScore(rows[i], side, Some(v0 + Count(outs[idx + 1..i + 1], ScoringResult(side))))
    decreases j
  {
    if j > idx + 1 {
      ScoreUpToRow(rows, outs, idx, side, v0, j - 1, i);
      if i == j - 1 {
        ScoreUpToValue(rows, outs, idx, side, v0, j);
      }
    } else if i == idx {
      assert outs[idx + 1..i + 1] == [];
    }
  }

  /**
   * A score edit writes only the edited side's column, and only on the run of same-set rows from
   * the edited one: the edited row gets `v0` (the typed score, or the previous row's when the entry
   * is blank) and each later row of the run `v0` plus the scoring points after the edited row up to
   * and including itself.
   */
  lemma ScoreRerunRows(rows: seq<StatRow>, idx: nat, side: Side, v0: int, j: nat)
    requires idx < |rows| && j < |rows|
    ensures |ScoreRerunFrom(rows, idx, side, v0)| == |rows|
    ensures ScoreRerunFrom(rows, idx, side, v0)[j]
            == if j < idx || RunEnd(rows, idx, rows[idx].setNumber) <= j then rows[j]
               else WithScore(rows[j], side, Some(v0 + Count(Outcomes(rows)[idx + 1..j + 1], ScoringResult(side))))
  {
    ScoreUpToRow(rows, Outcomes(rows), idx, side, v0, RunEnd(rows, idx, rows[idx].setNumber), j);
  }

  // Set edits

  /** A set edit writes the new set number on the edited row and on every row after it. */
  ghost predicate SetLaws(rows: seq<StatRow>, idx: nat, v: Option<int>, next: seq<StatRow>) {
    |next| == |rows|
    && forall j :: 0 <= j < |rows| ==> next[j] == if j < idx then rows[j] else rows[j].(setNumber := v)
  }

  function SetPatch(r: StatRow): Patch {
    Patch(r.id, [(Set, IntVal(r.setNumber))])
  }

  function SetPatches(next: seq<StatRow>, idx: nat): seq<Patch>
    requires idx <= |next|
  {
    Lists.Map(next[idx..], SetPatch)
  }

  method SetCascade(rows: seq<StatRow>, idx: nat, v: Option<int>) returns (next: seq<StatRow>, patches: seq<Patch>)
    requires idx < |rows|
    ensures SetLaws(rows, idx, v, next)
    ensures patches == SetPatches(next, idx)
    ensures |patches| == |rows| - idx
  {
    next := rows[idx := rows[idx].(setNumber := v)];
    var j := idx + 1;
    while j < |next|
      invariant idx < j <= |next| == |rows|
      invariant forall i :: 0 <= i < |rows| ==> next[i] == if i < idx || j <= i then rows[i] else rows[i].(setNumber := v)
    {
      next := next[j := next[j].(setNumber := v)];
      j := j + 1;
    }
    patches := SetPatches(next, idx);
  }

  // Rally edits

  /**
   * The rows and the running rally number once the rally cascade has written `start` on the edited
   * row and re-numbered rows `idx + 1` .. `j - 1`.
   */
  function RallyUpTo(rows: seq<StatRow>, outs: seq<Option<Point>>, idx: nat, start: int, j: nat): (r: (seq<StatRow>, int))
    requires idx < j <= |rows| == |outs|
    ensures |r.0| == |rows|
    decreases j
  {
    if j == idx + 1 then (rows[idx := rows[idx].(rallyId := Some(start))], start)
    else
      var prev := RallyUpTo(rows, outs, idx, start, j - 1);
      var rally := prev.1 + Bump(Ended(outs[j - 2]));
      (prev.0[j - 1 := prev.0[j - 1].(rallyId := Some(rally))], rally)
  }

  /** The edited row takes the typed rally number (1 when blank); the rest of its run counts on from there. */
  function RallyRerun(rows: seq<StatRow>, idx: nat, parsed: Option<int>): seq<StatRow>
    requires idx < |rows|
  {
    RallyUpTo(rows, Outcomes(rows), idx, parsed.GetOr(RALLY_START), RunEnd(rows, idx, rows[idx].setNumber)).0
  }

  function RallyPatch(r: StatRow): Patch {
    Patch(r.id, [(RallyId, IntVal(r.rallyId))])
  }

  function RallyPatches(next: seq<StatRow>, idx: nat, s: Option<int>): seq<Patch>
    requires idx <= |next|
  {
    Lists.Map(Lists.Filter(next[idx..], InSet(s)), RallyPatch)
  }

  /** One turn of the rally loop: the rally number goes up after a finished rally and is written on row `j`. */
  method RallyTurn(next: seq<StatRow>, j: nat, rally: int, prevRes: Option<Point>) returns (next': seq<StatRow>, rally': int)
    requires j < |next|
    ensures rally' == rally + Bump(Ended(prevRes))
    ensures next' == next[j := next[j].(rallyId := Some(rally'))]
  {
    rally' := rally;
    assert Ended(prevRes) ==> prevRes.value == WonPoint || prevRes.value == LostPoint;
    if prevRes == Some(WonPoint) || prevRes == Some(LostPoint) {
      rally' := rally + 1;
    }
    next' := next[j := next[j].(rallyId := Some(rally'))];
  }

  /** One more turn of the rally loop, and the row the turn after it starts from. */
  lemma RallyUpToStep(rows: seq<StatRow>, outs: seq<Option<Point>>, idx: nat, start: int, j: nat)
    requires idx < j < |rows| == |outs|
    ensures var prev := RallyUpTo(rows, outs, idx, start, j);
      var rally := prev.1 + Bump(Ended(outs[j - 1]));
      RallyUpTo(rows, outs, idx, start, j + 1) == (prev.0[j := prev.0[j].(rallyId := Some(rally))], rally)
    ensures j + 1 < |rows| ==> RallyUpTo(rows, outs, idx, start, j + 1).0[j + 1] == rows[j + 1]
  {
    if j + 1 < |rows| {
      RallyUpToFrame(rows, outs, idx, start, j + 1, j + 1);
    }
  }

  /** The rally loop: `start` on the edited row, then the running rally number on each later row of its set. */
  method RallyRun(rows: seq<StatRow>, idx: nat, start: int) returns (next: seq<StatRow>)
    requires idx < |rows|
    ensures next == RallyUpTo(rows, Outcomes(rows), idx, start, RunEnd(rows, idx, rows[idx].setNumber)).0
  {
    var s := rows[idx].setNumber;
    ghost var k := RunEnd(rows, idx, s);
    ghost var outs := Outcomes(rows);
    next := rows[idx := rows[idx].(rallyId := Some(start))];
    var rally := start;
    var j := idx + 1;
    if j < |rows| {
      RallyUpToFrame(rows, outs, idx, start, j, j);
    }
    while j < |next| && next[j].setNumber == s
      invariant idx < j <= k
      invariant next == RallyUpTo(rows, outs, idx, start, j).0
      invariant rally == RallyUpTo(rows, outs, idx, start, j).1
      invariant next[j - 1].result == rows[j - 1].result
      invariant j < |rows| ==> next[j] == rows[j]
      decreases |rows| - j
    {
      var prevRes := NormalizeResult(next[j - 1].result);
      assert prevRes == outs[j - 1];
      RallyUpToStep(rows, outs, idx, start, j);
      next, rally := RallyTurn(next, j, rally, prevRes);
      j := j + 1;
    }
    assert j == k;
  }

  /** `commitEdit` on the rally column: re-numbers the edited row's run and patches every row of that set from it on. */
  method RallyCascade(rows: seq<StatRow>, idx: nat, parsed: Option<int>) returns (next: seq<StatRow>, patches: seq<Patch>)
    requires idx < |rows|
    ensures next == RallyRerun(rows, idx, parsed)
    ensures patches == RallyPatches(next, idx, rows[idx].setNumber)
  {
    var startRally := parsed.GetOr(RALLY_START);
    next := RallyRun(rows, idx, startRally);
    patches := RallyPatches(next, idx, rows[idx].setNumber);
  }

  lemma {:induction false} RallyUpToValue(rows: seq<StatRow>, outs: seq<Option<Point>>, idx: nat, start: int, j: nat)
    requires idx < j <= |rows| == |outs|
    ensures RallyUpTo(rows, outs, idx, start, j).1 == start + Finished(outs[idx..j - 1])
    decreases j
  {
    if j - 1 > idx {
      RallyUpToValue(rows, outs, idx, start, j - 1);
      assert outs[idx..j - 1][..j - 2 - idx] == outs[idx..j - 2];
    } else {
      assert outs[idx..j - 1] == [];
    }
  }

  /** The rally cascade changes nothing but rally numbers, and only on rows `idx` .. `j - 1`. */
  lemma {:induction false} RallyUpToFrame(rows: seq<StatRow>, outs: seq<Option<Point>>, idx: nat, start: int, j: nat, i: nat)
    requires idx < j <= |rows| == |outs| && i < |rows|
    ensures RallyUpTo(rows, outs, idx, start, j).0[i]
            == if i < idx || j <= i then rows[i] else rows[i].(rallyId := RallyUpTo(rows, outs, idx, start, j).0[i].rallyId)
    decreases j
  {
    if j > idx + 1 {
      RallyUpToFrame(rows, outs, idx, start, j - 1, i);
    }
  }

  /** Row `i` once the rally cascade has written `start` on the edited row and re-numbered rows `idx + 1` .. `j - 1`. */
  lemma {:induction false} RallyUpToRow(rows: seq<StatRow>, outs: seq<Option<Point>>, idx: nat, start: int, j: nat, i: nat)
    requires idx < j <= |rows| == |outs| && i < |rows|
    ensures RallyUpTo(rows, outs, idx, start, j).0[i]
            == if i < idx || j <= i then rows[i] else rows[i].(rallyId := Some(start + Finished(outs[idx..i])))
    decreases j
  {
    if j > idx + 1 {
      RallyUpToRow(rows, outs, idx, start, j - 1, i);
      if i == j - 1 {
        RallyUpToValue(rows, outs, idx, start, j);
      }
    } else if i == idx {
      assert outs[idx..i] == [];
    }
  }

  /**
   * A rally edit writes only rally numbers, and only on the run of same-set rows from the edited
   * one: the edited row gets the typed number (1 when blank) and each later row of the run that
   * number plus the rallies finished from the edited row up to the row before it.
   */
  lemma RallyRerunRows(rows: seq<StatRow>, idx: nat, parsed: Option<int>, j: nat)
    requires idx < |rows| && j < |rows|
    ensures |RallyRerun(rows, idx, parsed)| == |rows|
    ensures RallyRerun(rows, idx, parsed)[j]
            == if j < idx || RunEnd(rows, idx, rows[idx].setNumber) <= j then rows[j]
               else rows[j].(rallyId := Some(parsed.GetOr(RALLY_START) + Finished(Outcomes(rows)[idx..j])))
  {
    RallyUpToRow(rows, Outcomes(rows), idx, parsed.GetOr(RALLY_START), RunEnd(rows, idx, rows[idx].setNumber), j);
  }

  // ---------------------------------------------------------------------
  // commitEdit

  /** Cells that hold text. */
  type TextColumn = c: Column | c == Player || c == ActionType || c == SetToPlayer || c == SetToPosition || c == Notes
    witness Player

  /** Cells that hold a decimal number. */
  type RealColumn = c: Column | c == Timestamp || c == Quality
    witness Timestamp

  /**
   * A committed edit: the cell's old value and the newly typed value, already parsed for
   * number columns (None for a blank entry).
   */
  datatype Edit =
    | ResultEdit(oldResult: Option<string>, typed: string)
    | ScoreEdit(side: Side, oldScore: Option<int>, newScore: Option<int>)
    | SetEdit(oldSet: Option<int>, newSet: Option<int>)
    | RallyEdit(oldRally: Option<int>, newRally: Option<int>)
    | TextEdit(column: TextColumn, oldText: Option<string>, text: string)
    | RealEdit(realColumn: RealColumn, oldReal: Option<real>, newReal: Option<real>)

  /** A blank text entry commits null. */
  function TextParsed(typed: string): Option<string> {
    if typed == "" then None else Some(typed)
  }

  function EditColumn(e: Edit): Column {
    match e
    case ResultEdit(_, _) => Result
    case ScoreEdit(side, _, _) => ScoreColumn(side)
    case SetEdit(_, _) => Set
    case RallyEdit(_, _) => RallyId
    case TextEdit(c, _, _) => c
    case RealEdit(c, _, _) => c
  }

  /** The value committed for the edited column. */
  function ParsedVal(e: Edit): Val {
    match e
    case ResultEdit(_, typed) => StrVal(PointText(NormalizeResult(TextParsed(typed))))
    case ScoreEdit(_, _, v) => IntVal(v)
    case SetEdit(_, v) => IntVal(v)
    case RallyEdit(_, v) => IntVal(v)
    case TextEdit(_, _, typed) => StrVal(TextParsed(typed))
    case RealEdit(_, _, v) => RealVal(v)
  }

  /**
   * The commit changes nothing when old and new values compare equal: results after
   * normalisation, scores and other numbers as numbers, text with null read as ''.
   */
  predicate IsNoOp(e: Edit) {
    match e
    case ResultEdit(was, typed) => NormalizeResult(was) == NormalizeResult(PointText(NormalizeResult(TextParsed(typed))))
    case ScoreEdit(_, was, v) => was == v
    case SetEdit(was, v) => was == v
    case RallyEdit(was, v) => was == v
    case TextEdit(_, was, typed) => was.GetOr("") == TextParsed(typed).GetOr("")
    case RealEdit(_, was, v) => was == v
  }

  /** A player cell also writes the matching user-id column. */
  predicate WritesUserId(e: Edit) {
    e.TextEdit? && (e.column == Player || e.column == SetToPlayer)
  }

  function WithText(r: StatRow, c: TextColumn, v: Option<string>): StatRow {
    match c
    case Player => r.(data := r.data.(player := v))
    case ActionType => r.(data := r.data.(actionType := v))
    case SetToPlayer => r.(data := r.data.(setToPlayer := v))
    case SetToPosition => r.(data := r.data.(setToPosition := v))
    case Notes => r.(data := r.data.(notes := v))
  }

  function WithUserId(r: StatRow, c: TextColumn, uid: Option<string>): StatRow {
    if c == Player then r.(data := r.data.(playerUserId := uid))
    else if c == SetToPlayer then r.(data := r.data.(setToUserId := uid))
    else r
  }

  function WithReal(r: StatRow, c: RealColumn, v: Option<real>): StatRow {
    if c == Timestamp then r.(data := r.data.(timestamp := v)) else r.(data := r.data.(quality := v))
  }

  /** The row with the edited column put back to the cell's old value. */
  function Restore(r: StatRow, e: Edit): StatRow {
    match e
    case ResultEdit(was, _) => r.(result := was)
    case ScoreEdit(side, was, _) => WithScore(r, side, was)
    case SetEdit(was, _) => r.(setNumber := was)
    case RallyEdit(was, _) => r.(rallyId := was)
    case TextEdit(c, was, _) => WithText(r, c, was)
    case RealEdit(c, was, _) => WithReal(r, c, was)
  }

  /** What the local update does: nothing when the row is gone, else the cascade for the edited column. */
  ghost predicate EditLaws(rows: seq<StatRow>, statId: string, e: Edit, uid: Option<string>,
                           next: seq<StatRow>, patches: Option<seq<Patch>>)
  {
    var idx := FindIndex(rows, statId);
    if idx == -1 then next == rows && patches == None
    else
      match e
      case ResultEdit(_, typed) =>
        next == ResultRerun(rows, idx, NormalizeResult(TextParsed(typed)))
        && patches == Some(ResultPatches(next, idx, rows[idx].setNumber))
      case ScoreEdit(side, _, v) =>
        next == ScoreRerun(rows, idx, side, v) && patches == Some(ScorePatches(next, idx, side, rows[idx].setNumber))
      case SetEdit(_, v) =>
        SetLaws(rows, idx, v, next) && patches == Some(SetPatches(next, idx))
      case RallyEdit(_, v) =>
        next == RallyRerun(rows, idx, v) && patches == Some(RallyPatches(next, idx, rows[idx].setNumber))
      case TextEdit(c, _, typed) =>
        next == rows[idx := WithUserId(WithText(rows[idx], c, TextParsed(typed)), c, uid)] && patches == None
      case RealEdit(c, _, v) =>
        next == rows[idx := WithReal(rows[idx], c, v)] && patches == None
  }

  method ApplyEdit(rows: seq<StatRow>, statId: string, e: Edit, uid: Option<string>)
    returns (next: seq<StatRow>, patches: Option<seq<Patch>>)
    ensures EditLaws(rows, statId, e, uid, next, patches)
  {
    var idx := FindIndex(rows, statId);
    if idx == -1 {
      return rows, None;
    }
    match e
    case ResultEdit(_, typed) =>
      var p;
      next, p := ResultCascade(rows, idx, NormalizeResult(TextParsed(typed)));
      patches := Some(p);
    case ScoreEdit(side, _, v) =>
      var p;
      next, p := ScoreCascade(rows, idx, side, v);
      patches := Some(p);
    case SetEdit(_, v) =>
      var p;
      next, p := SetCascade(rows, idx, v);
      patches := Some(p);
    case RallyEdit(_, v) =>
      var p;
      next, p := RallyCascade(rows, idx, v);
      patches := Some(p);
    case TextEdit(c, _, typed) =>
      next := rows[idx := WithUserId(WithText(rows[idx], c, TextParsed(typed)), c, uid)];
      patches := None;
    case RealEdit(c, _, v) =>
      next := rows[idx := WithReal(rows[idx], c, v)];
      patches := None;
  }

  /** The PATCH for the edited row: the edited column, plus the user id for a player cell. */
  function MainPatch(statId: string, e: Edit, uid: Option<string>): Patch {
    Patch(statId, [(EditColumn(e), ParsedVal(e))]
                  + (if WritesUserId(e) then [(if e.column == Player then PlayerUserId else SetToUserId, StrVal(uid))] else []))
  }

  /** `batch`: consecutive chunks of `size` patches; the last may be shorter. */
  method Batch(rows: seq<Patch>, size: nat) returns (chunks: seq<seq<Patch>>)
    requires size > 0
    ensures Lists.Flatten(chunks) == rows
    ensures forall i :: 0 <= i < |chunks| ==> 0 < |chunks[i]| <= size
    ensures forall i :: 0 <= i < |chunks| - 1 ==> |chunks[i]| == size
    ensures BatchPrefixes(chunks, rows, size)
    ensures |rows| <= |chunks| * size
  {
    chunks := [];
    var i := 0;
    while i < |rows|
      invariant i == |chunks| * size
      invariant Lists.Flatten(chunks) == rows[..Min(i, |rows|)]
      invariant forall c :: 0 <= c < |chunks| ==> 0 < |chunks[c]| <= size
      invariant forall c :: 0 <= c < |chunks| - 1 ==> |chunks[c]| == size
      invariant i <= |rows| ==> forall c :: 0 <= c < |chunks| ==> |chunks[c]| == size
      invariant BatchPrefixes(chunks, rows, size)
    {
      var end := Min(i + size, |rows|);
      var chunk := rows[i..end];
      assert rows[..end] == rows[..i] + chunk;
      ghost var before := chunks;
      chunks := chunks + [chunk];
      assert chunks[..|chunks| - 1] == before;
      BatchPrefixesStep(before, chunk, rows, size);
      i := i + size;
    }
  }

  /**
   * The first `k` chunks of a batching hold the first `k * size` rows, and chunk `k` exists
   * exactly when row `k * size` does.
   */
  ghost predicate BatchPrefixes(chunks: seq<seq<Patch>>, rows: seq<Patch>, size: nat) {
    (forall k :: 0 <= k <= |chunks| ==> Lists.Flatten(chunks[..k]) == rows[..Min(k * size, |rows|)])
    && (forall k: nat :: k < |chunks| ==> k * size < |rows|)
  }

  lemma BatchPrefixesStep(before: seq<seq<Patch>>, chunk: seq<Patch>, rows: seq<Patch>, size: nat)
    requires size > 0 && |before| * size < |rows|
    requires chunk == rows[|before| * size..Min((|before| + 1) * size, |rows|)]
    requires BatchPrefixes(before, rows, size)
    ensures BatchPrefixes(before + [chunk], rows, size)
  {
    var chunks := before + [chunk];
    forall k | 0 <= k <= |chunks|
      ensures Lists.Flatten(chunks[..k]) == rows[..Min(k * size, |rows|)]
    {
      if k < |chunks| {
        assert chunks[..k] == before[..k];
      } else {
        assert chunks[..k] == chunks && chunks[..|chunks| - 1] == before;
        assert before[..|before|] == before;
        assert Lists.Flatten(chunks) == rows[..|before| * size] + chunk;
        assert (|before| + 1) * size == |before| * size + size;
        assert rows[..Min(k * size, |rows|)] == rows[..|before| * size] + chunk;
      }
    }
  }

  /**
   * The grid's rows and the requests sent to the database. The remote PATCH of the edited
   * row is an outcome given to the commit, and so is the first chunk of cascade PATCHes
   * whose requests reject, if any: that chunk's requests have all gone out, the later chunks
   * are never sent, and the commit itself rejects with neither a toast nor a rollback.
   */
  class StatsTable {
    var stats: seq<StatRow>
    var sent: seq<Patch>
    var failures: nat

    constructor (rows: seq<StatRow>)
      ensures stats == rows && sent == [] && failures == 0
    {
      stats := rows;
      sent := [];
      failures := 0;
    }

    method CommitEdit(statId: string, e: Edit, players: Option<seq<GamePlayer>>, practiceMode: bool,
                      remoteOk: bool, failedChunk: Option<nat>)
      returns (rejected: bool, ghost applied: seq<StatRow>, ghost patches: Option<seq<Patch>>)
      modifies this
      ensures IsNoOp(e) ==> stats == old(stats) && sent == old(sent) && failures == old(failures)
      ensures !IsNoOp(e) ==>
        EditLaws(old(stats), statId, e, UserIdFor(e, players, old(stats)), applied, patches)
      ensures !IsNoOp(e) && practiceMode ==>
        stats == applied && sent == old(sent) && failures == old(failures)
      ensures !IsNoOp(e) && !practiceMode && remoteOk ==>
        stats == applied && failures == old(failures)
        && sent == old(sent) + [MainPatch(statId, e, UserIdFor(e, players, old(stats)))]
                   + patches.GetOr([])[..CascadeSent(failedChunk, |patches.GetOr([])|)]
      ensures !IsNoOp(e) && !practiceMode && !remoteOk ==>
        stats == RollBack(applied, statId, e) && failures == old(failures) + 1
        && sent == old(sent) + [MainPatch(statId, e, UserIdFor(e, players, old(stats)))]
      ensures rejected <==> !IsNoOp(e) && !practiceMode && remoteOk && failedChunk.Some?
                            && failedChunk.value * BATCH_SIZE < |patches.GetOr([])|
    {
      rejected := false;
      if IsNoOp(e) {
        return rejected, stats, None;
      }
      var uid := UserIdFor(e, players, stats);
      var next, p := ApplyEdit(stats, statId, e, uid);
      applied, patches := next, p;
      stats := next;
      if practiceMode {
        return;
      }
      sent := sent + [MainPatch(statId, e, uid)];
      if !remoteOk {
        failures := failures + 1;
        stats := RollBack(stats, statId, e);
        return;
      }
      rejected := SendCascade(p.GetOr([]), failedChunk);
    }

    /** `batch(patchRows)`: the cascade patches in chunks of 15, when there are any. */
    method SendCascade(patchRows: seq<Patch>, failedChunk: Option<nat>) returns (rejected: bool)
      modifies this
      ensures stats == old(stats) && failures == old(failures)
      ensures sent == old(sent) + patchRows[..CascadeSent(failedChunk, |patchRows|)]
      ensures rejected <==> failedChunk.Some? && failedChunk.value * BATCH_SIZE < |patchRows|
    {
      rejected := false;
      if |patchRows| > 0 {
        var chunks := Batch(patchRows, BATCH_SIZE);
        rejected := SendChunks(chunks, failedChunk);
        CascadeSentIsBatchPrefix(chunks, patchRows, failedChunk);
      }
    }

    /**
     * Sends the chunks one after the other, in order, until the chunk `failedChunk` (if
     * there is one) has gone out and rejected.
     */
    method SendChunks(chunks: seq<seq<Patch>>, failedChunk: Option<nat>) returns (rejected: bool)
      modifies this
      ensures stats == old(stats) && failures == old(failures)
      ensures sent == old(sent) + Lists.Flatten(chunks[..ChunksIssued(failedChunk, |chunks|)])
      ensures rejected <==> failedChunk.Some? && failedChunk.value < |chunks|
    {
      var c := 0;
      rejected := false;
      while c < |chunks| && !rejected
        invariant 0 <= c <= ChunksIssued(failedChunk, |chunks|)
        invariant stats == old(stats) && failures == old(failures)
        invariant sent == old(sent) + Lists.Flatten(chunks[..c])
        invariant rejected <==> failedChunk.Some? && c == failedChunk.value + 1
      {
        assert chunks[..c + 1][..c] == chunks[..c];
        sent := sent + chunks[c];
        rejected := failedChunk == Some(c);
        c := c + 1;
      }
    }
  }

  /** How many chunks go out when chunk `failedChunk` (if any) rejects. */
  function ChunksIssued(failedChunk: Option<nat>, count: nat): (m: nat)
    ensures m <= count
    ensures m < count ==> failedChunk == Some(m - 1)
  {
    if failedChunk.Some? && failedChunk.value < count then failedChunk.value + 1 else count
  }

  /** How many of `n` cascade patches go out when chunk `failedChunk` (if any) rejects. */
  function CascadeSent(failedChunk: Option<nat>, n: nat): (m: nat)
    ensures m <= n
    ensures failedChunk.None? ==> m == n
  {
    if failedChunk.Some? then Min((failedChunk.value + 1) * BATCH_SIZE, n) else n
  }

  /** The chunks sent before a rejection hold exactly the first `CascadeSent` patches. */
  lemma CascadeSentIsBatchPrefix(chunks: seq<seq<Patch>>, rows: seq<Patch>, failedChunk: Option<nat>)
    requires Lists.Flatten(chunks) == rows
    requires BatchPrefixes(chunks, rows, BATCH_SIZE)
    requires |rows| <= |chunks| * BATCH_SIZE
    ensures Lists.Flatten(chunks[..ChunksIssued(failedChunk, |chunks|)]) == rows[..CascadeSent(failedChunk, |rows|)]
    ensures (failedChunk.Some? && failedChunk.value < |chunks|)
            <==> (failedChunk.Some? && failedChunk.value * BATCH_SIZE < |rows|)
  {
    assert chunks[..|chunks|] == chunks;
    if failedChunk.Some? && failedChunk.value >= |chunks| {
      assert Min((failedChunk.value + 1) * BATCH_SIZE, |rows|) == |rows|;
    }
  }

  /** The user id sent with a player cell: looked up from a non-blank name, else null. */
  function UserIdFor(e: Edit, players: Option<seq<GamePlayer>>, stats: seq<StatRow>): Option<string> {
    if WritesUserId(e) && e.text != "" then IdForDisplayName(Some(e.text), players, stats) else None
  }

  /** After a failed PATCH only the edited column of the edited row goes back to its old value. */
  function RollBack(rows: seq<StatRow>, statId: string, e: Edit): (r: seq<StatRow>)
    ensures |r| == |rows|
    ensures forall j :: 0 <= j < |rows| && rows[j].id != statId ==> r[j] == rows[j]
    ensures FindIndex(rows, statId) == -1 ==> r == rows
  {
    var i := FindIndex(rows, statId);
    if i == -1 then rows else rows[i := Restore(rows[i], e)]
  }
}
