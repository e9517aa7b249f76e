/**
 * The game drop-down: each game is shown with a status colour that says how
 * far its stats have come, and an optional "New game..." entry comes last.
 */
module GameSelector {

  /** The two flags a game row carries about its stats. */
  datatype Game = Game(id: string, title: string, hastimestamps: bool, isscored: bool)

  datatype Color = Green | Yellow | Red

  /** `getStatusColor`. */
  function StatusColor(g: Game): (c: Color)
    ensures c == Green <==> g.hastimestamps && g.isscored
    ensures c == Yellow <==> g.hastimestamps && !g.isscored
    ensures c == Red <==> !g.hastimestamps
  {
    if g.hastimestamps && g.isscored then Green
    else if g.hastimestamps then Yellow
    else Red
  }

  /** The tooltip table, indexed by colour. */
  function Tooltip(c: Color): string {
    match c
    case Green => "All stats and timestamps present"
    case Yellow => "Timestamps present, but no scores"
    case Red => "No stats or timestamps"
  }

  /** A game's entry, or the trailing "New game..." entry (no colour, no tooltip). */
  datatype SelectOption =
    | GameOption(value: string, title: string, color: Color, tooltip: string)
    | UploadNew

  const UPLOAD_NEW_VALUE := "upload-new"

  function OptionValue(o: SelectOption): string {
    match o
    case GameOption(v, _, _, _) => v
    case UploadNew => UPLOAD_NEW_VALUE
  }

  function GameOptionOf(g: Game): SelectOption {
    var c := StatusColor(g);
    GameOption(g.id, g.title, c, Tooltip(c))
  }

  /** `options`: one entry per game in order, then "New game..." unless it is hidden. */
  function Options(games: seq<Game>, hideUploadOption: bool): (r: seq<SelectOption>)
    ensures |r| == |games| + (if hideUploadOption then 0 else 1)
    ensures forall i :: 0 <= i < |games| ==>
      r[i].GameOption? && r[i].value == games[i].id && r[i].title == games[i].title
      && r[i].color == StatusColor(games[i]) && r[i].tooltip == Tooltip(r[i].color)
    ensures (exists i :: 0 <= i < |r| && r[i].UploadNew?) <==> !hideUploadOption
    ensures !hideUploadOption ==> r[|r| - 1] == UploadNew
  {
    var gameOptions := seq(|games|, i requires 0 <= i < |games| => GameOptionOf(games[i]));
    if hideUploadOption then gameOptions
    else
      var r := gameOptions + [UploadNew];
      assert r[|games|].UploadNew?;
      r
  }

  /** The three colours carry three different tooltips, so the tooltip tells the status. */
  lemma TooltipDistinguishes(a: Game, b: Game)
    ensures Tooltip(StatusColor(a)) == Tooltip(StatusColor(b)) <==> StatusColor(a) == StatusColor(b)
  {
    assert Tooltip(Green)[0] == 'A' && Tooltip(Yellow)[0] == 'T' && Tooltip(Red)[0] == 'N';
  }

  /**
   * Choosing the value "upload-new" means the upload entry unless a game has
   * that id: the game entries' values are exactly the game ids.
   */
  lemma OptionValues(games: seq<Game>, hideUploadOption: bool, v: string)
    ensures (exists i :: 0 <= i < |Options(games, hideUploadOption)| && OptionValue(Options(games, hideUploadOption)[i]) == v)
      <==> (exists g :: g in games && g.id == v) || (v == UPLOAD_NEW_VALUE && !hideUploadOption)
  {
    var r := Options(games, hideUploadOption);
    if exists g :: g in games && g.id == v {
      var g :| g in games && g.id == v;
      var i :| 0 <= i < |games| && games[i] == g;
      assert OptionValue(r[i]) == v;
    }
    if exists i :: 0 <= i < |r| && OptionValue(r[i]) == v {
      var i :| 0 <= i < |r| && OptionValue(r[i]) == v;
      if i < |games| {
        assert games[i] in games;
      }
    }
  }
}
