/**
 * The stat row: one touch of the ball in a game's event log, as the front end
 * holds it in memory. JavaScript's null and undefined both become None.
 * Columns name the row's properties the way the grid, the filters and the
 * PATCH payloads address them, and Val is a cell value read through a column.
 */
module Rows {
  import opened Common

  /**
   * The properties of a row that the score, set and rally cascades never rewrite:
   * who touched the ball, what they did with it, and where the row came from.
   */
  datatype RowData = RowData(
    gameId: string,
    teamId: Option<string>,
    importSeq: Option<real>,
    timestamp: Option<real>,
    player: Option<string>,
    playerUserId: Option<string>,
    actionType: Option<string>,
    quality: Option<real>,
    setToPlayer: Option<string>,
    setToUserId: Option<string>,
    setToPosition: Option<string>,
    notes: Option<string>)

  /** A stat row: its id, the properties the cascades re-derive, and the rest. */
  datatype StatRow = StatRow(
    id: string,
    setNumber: Option<int>,
    rallyId: Option<int>,
    result: Option<string>,
    ourScore: Option<int>,
    oppScore: Option<int>,
    data: RowData)

  /** A row with every optional property empty. */
  function EmptyRow(id: string, gameId: string): StatRow {
    StatRow(id, None, None, None, None, None,
            RowData(gameId, None, None, None, None, None, None, None, None, None, None, None))
  }

  datatype Column =
    | Id | GameId | TeamId | ImportSeq | Timestamp | Set | RallyId
    | Player | PlayerUserId | ActionType | Quality | SetToPlayer | SetToUserId
    | SetToPosition | Result | Score | OurScore | OppScore | Notes

  /** A cell value: null/undefined, a number or a string. */
  datatype Val = Null | Num(n: real) | Str(s: string)

  function IntVal(o: Option<int>): Val {
    if o.Some? then Num(o.value as real) else Null
  }

  function RealVal(o: Option<real>): Val {
    if o.Some? then Num(o.value) else Null
  }

  function StrVal(o: Option<string>): Val {
    if o.Some? then Str(o.value) else Null
  }

  /** `row[key]`. The `score` column is a display column only; rows carry no such property. */
  function Get(r: StatRow, c: Column): Val {
    match c
    case Id => Str(r.id)
    case GameId => Str(r.data.gameId)
    case TeamId => StrVal(r.data.teamId)
    case ImportSeq => RealVal(r.data.importSeq)
    case Timestamp => RealVal(r.data.timestamp)
    case Set => IntVal(r.setNumber)
    case RallyId => IntVal(r.rallyId)
    case Player => StrVal(r.data.player)
    case PlayerUserId => StrVal(r.data.playerUserId)
    case ActionType => StrVal(r.data.actionType)
    case Quality => RealVal(r.data.quality)
    case SetToPlayer => StrVal(r.data.setToPlayer)
    case SetToUserId => StrVal(r.data.setToUserId)
    case SetToPosition => StrVal(r.data.setToPosition)
    case Result => StrVal(r.result)
    case Score => Null
    case OurScore => IntVal(r.ourScore)
    case OppScore => IntVal(r.oppScore)
    case Notes => StrVal(r.data.notes)
  }

  /** The value is null, undefined or the empty string. */
  predicate Blank(v: Val) {
    v == Null || v == Str("")
  }

  /** `rows.findIndex(r => r.id === id)`. */
  function FindIndex(rows: seq<StatRow>, id: string): (i: int)
    ensures -1 <= i < |rows|
    ensures i >= 0 ==> rows[i].id == id && forall j :: 0 <= j < i ==> rows[j].id != id
    ensures i == -1 ==> forall j :: 0 <= j < |rows| ==> rows[j].id != id
  {
    if rows == [] then -1
    else if rows[0].id == id then 0
    else
      var k := FindIndex(rows[1..], id);
      if k == -1 then -1 else k + 1
  }

  /** The ids of a list of rows, in order. */
  function Ids(rows: seq<StatRow>): (r: seq<string>)
    ensures |r| == |rows|
    ensures forall i :: 0 <= i < |rows| ==> r[i] == rows[i].id
  {
    if rows == [] then [] else [rows[0].id] + Ids(rows[1..])
  }
}
