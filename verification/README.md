# VBallStatApp front end — a verified model of its core logic

VBallStatApp records volleyball games as a log of stat rows. Each row is one touch of the ball:
who played it, what they did, the result, the running score, the set and the rally. The front
end turns that log into derived views, and this project models the in-memory logic behind them
in Dafny:

- **Stats table editing.** An edit to a result, score, set or rally cell re-derives the running
  scores and rally numbers of the rows after it. It builds the PATCH requests, rolls back a failed
  write and sends the follow-up patches in batches of 15, stopping after a batch that fails. Also modelled: player-name resolution,
  the name options and the cell validity check.
- **Rally segmenter.** Touches are grouped by (set, rally id) into padded time windows on the
  video, sorted by start.
- **Stats grid.** "Play filtered" merges highlight windows. Also modelled: keyboard cell
  navigation, the virtual list's row heights, the column-width layout, insert-below and delete of
  rows, and the "filtered" indicator.
- **Filtering and sorting of the stats list.** Visibility, per-column condition lists folded with
  AND/OR, text and numeric operators, the null-last sort, and the frozen view. The header's
  condition editing and its drag-width clamp are modelled too.
- **Video player.** Rally lookup at the current time, with the rally's number within its set.
  Also modelled: auto-advance, upcoming touches and the displayed score, next/previous rally
  seeks, rotation and pan.
- **Custom playback session.** A state machine with a session counter that makes superseded
  time-update handlers inert, driven by explicit events.
- **Stats summary.** Player rows, assist credits over consecutive pairs, per-player/per-action
  tallies and action totals. Also modelled: occurrence counts, setting stats and the action-column
  list.
- **Upload dialog.** The full-date check, the next game number and title, player parsing, and
  the upload list (remove, reorder, capacity, de-duplication). Also modelled: submit validation and
  placeholder rows.
- **Small utilities.** The saved-video-time table, game keys, `safeKey`, the namespaced
  file-handle store, the PostgREST operator encoders, URL building and request helpers, and the
  game selector's status colours and options.

Timestamps and `import_seq` are exact `real`s. JavaScript `null` and `undefined` are both `None`
of an `Option`. Remote writes, storage and media are outcomes or map fields, never I/O. Where the
source works step by step (the cascade loops, the segmenter, the merge, the playback session, the
counters), the model is a method with loop invariants. Each such method is proved equal to a
specification function, and the promised properties are lemmas about that function.

## Model

| member | source | states |
|---|---|---|
| EditableCell.NormalizeResultCases | frontend/src/components/EditableCell.jsx:117-123 | a result that is blank after trimming normalises to null; it normalises to "Won Point" exactly when its trimmed lower-cased text is "w", "win" or starts with "won", and to "Lost Point" exactly when that text is "l", "loss" or starts with "lost" and is not a won word |
| EditableCell.NormalizeResultDef | frontend/src/components/EditableCell.jsx:118-122 | normalizeResult reads the trimmed, lower-cased text (null and undefined as '') |
| EditableCell.NormalizeResultIgnoresCaseAndSpace | frontend/src/components/EditableCell.jsx:118 | matching ignores case and surrounding white space |
| EditableCell.NormalizeWonPoint | frontend/src/components/EditableCell.jsx:120 | the stored text "Won Point" normalises to a won point |
| EditableCell.NormalizeLostPoint | frontend/src/components/EditableCell.jsx:121 | the stored text "Lost Point" normalises to a lost point |
| EditableCell.NormalizePointText | frontend/src/components/EditableCell.jsx:117-123 | the text written for a normalised result ("Won Point", "Lost Point" or null) normalises back to it |
| EditableCell.NormalizeResultIdempotent | frontend/src/components/EditableCell.jsx:117-123 | normalizeResult is idempotent |
| EditableCell.PointText | frontend/src/components/EditableCell.jsx:119-122 | the written result is null exactly when no point was read |
| EditableCell.FirstProfileId | frontend/src/components/EditableCell.jsx:55-64 | an id found belongs to a profile of the list whose label matches the name and that has an id |
| EditableCell.FirstProfileIdNone | frontend/src/components/EditableCell.jsx:55-64 | nothing is found exactly when no profile matches with an id |
| EditableCell.FirstProfileIdFirst | frontend/src/components/EditableCell.jsx:55-64 | the id found is that of the first profile that matches with an id (`user_id ?? id`) |
| EditableCell.AliasMapSound | frontend/src/components/EditableCell.jsx:20-31 | every alias entry maps a trimmed lower-cased name to a non-empty user id recorded with that name on some row |
| EditableCell.IdForDisplayName | frontend/src/components/EditableCell.jsx:52-53 | a falsy name resolves to null |
| EditableCell.IdForDisplayNameResolves | frontend/src/components/EditableCell.jsx:52-64 | a non-empty name resolves to the id of the first profile whose label matches it case-insensitively and that has an id |
| EditableCell.IdForDisplayNameFallsBack | frontend/src/components/EditableCell.jsx:52-67 | when no profile matches, a name resolves to the alias map's id for it, or null when there is none |
| EditableCell.Dedupe | frontend/src/components/EditableCell.jsx:32-51 | the name options are no more than the candidate labels |
| EditableCell.DedupeFromLabels | frontend/src/components/EditableCell.jsx:34-37 | every option is a non-empty candidate label |
| EditableCell.DedupeDistinct | frontend/src/components/EditableCell.jsx:36-37 | no two options share a trimmed lower-cased key |
| EditableCell.DedupeCoversKeys | frontend/src/components/EditableCell.jsx:32-51 | the key of every non-empty candidate label is the key of some option |
| EditableCell.DedupeFirstSpelling | frontend/src/components/EditableCell.jsx:37 | each option is the earliest non-empty label with its key (first spelling wins) |
| EditableCell.IsValidValue | frontend/src/components/EditableCell.jsx:75-104 | columns other than player, set-to player, action type and set-to position are always valid; an action type is valid when blank or one of the eight actions; a player when blank or a name option up to case and spaces; a blank set-to player or position is invalid exactly on a Set row; a set-to position must be one of the four positions after trimming and lower-casing |
| EditableCell.PositionKeys | frontend/src/components/EditableCell.jsx:93 | the allowed positions are "power", "middle", "opposite" and "backrow" |
| EditableCell.PositionTyped | frontend/src/components/EditableCell.jsx:92-102 | a typed position is accepted exactly when, trimmed and lower-cased, it is one of the four positions |
| EditableCell.PositionExamples | frontend/src/components/EditableCell.jsx:92-102 | "middle" and "BACKROW" are valid set-to positions (case is ignored); "Libero" is not |
| EditableCell.RunEnd | frontend/src/components/EditableCell.jsx:172-173 | the cascade's run is the contiguous stretch of rows in the edited row's set, ending at the first row of another set or at the end of the list |
| EditableCell.ResultStart | frontend/src/components/EditableCell.jsx:157-171 | the result cascade's counters start from the preceding row's scores and rally (`Number(x) \|\| 0`, rally `\|\| 1`) when it is in the same set, else 0-0 in rally 1, and the rally is bumped when that row ended a point |
| EditableCell.ResultTurn | frontend/src/components/EditableCell.jsx:174-187 | one loop turn writes the scores after the row's own point and the rally it was played in, then bumps the rally after a won or lost point |
| EditableCell.ResultUpToStep | frontend/src/components/EditableCell.jsx:172-187 | one more loop turn rewrites exactly row j, and the next row is still as the edit wrote it |
| EditableCell.ResultCascade | frontend/src/components/EditableCell.jsx:156-196 | the loop computes exactly the result re-run, and the patches carry the id, scores and rally of every row from the edited one on that is in the edited row's set |
| EditableCell.ResultUpToCounters | frontend/src/components/EditableCell.jsx:172-187 | the loop's counters before row j are the seed plus the won points, lost points and finished rallies of the rows from the edited one to j - 1 |
| EditableCell.ResultUpToFrame | frontend/src/components/EditableCell.jsx:172-187 | rows outside the rewritten stretch stay as the edit wrote them |
| EditableCell.ResultUpToRow | frontend/src/components/EditableCell.jsx:172-187 | the value of every row once the loop has rewritten a stretch |
| EditableCell.ResultRerunRows | frontend/src/components/EditableCell.jsx:156-187 | a result edit keeps the list's length, writes the new result on the edited row, and rewrites only the same-set run from it: each row's our/opp score is the seed plus the won/lost points up to and including it, and its rally the seed's plus the rallies finished before it; every other row is unchanged |
| EditableCell.ThreeBlankRowsWonPoint | frontend/src/components/EditableCell.jsx:156-187 | three blank set-1 rows with the first edited to "won" become (1,0,rally 1), (1,0,rally 2), (1,0,rally 2) |
| EditableCell.ScoreTurn | frontend/src/components/EditableCell.jsx:207-210 | one loop turn adds one to the running score when the row's result is the scoring one for that side and writes it on the row |
| EditableCell.ScoreRun | frontend/src/components/EditableCell.jsx:204-211 | the score loop computes exactly the score re-run from the edited row's value |
| EditableCell.ScoreUpToStep | frontend/src/components/EditableCell.jsx:206-211 | one more loop turn rewrites exactly row j |
| EditableCell.ScoreCascade | frontend/src/components/EditableCell.jsx:197-215 | a score edit computes exactly the score re-run (the typed value, or on a blank entry the preceding same-set row's value or 0), and patches the edited column of every row from the edited one on in its set |
| EditableCell.ScoreUpToValue | frontend/src/components/EditableCell.jsx:206-211 | the running score before row j is the start value plus the scoring points after the edited row up to row j - 1 |
| EditableCell.ScoreUpToFrame | frontend/src/components/EditableCell.jsx:206-211 | rows outside the rewritten stretch are unchanged |
| EditableCell.ScoreUpToRow | frontend/src/components/EditableCell.jsx:204-211 | the value of every row once the loop has rewritten a stretch |
| EditableCell.ScoreRerunRows | frontend/src/components/EditableCell.jsx:197-211 | a score edit changes only the edited side's column and only on the same-set run from the edited row: that row gets the start value, and each later row of the run the start value plus the points scored for that side (won for ours, lost for theirs) after the edited row up to and including itself |
| EditableCell.SetCascade | frontend/src/components/EditableCell.jsx:216-225 | a set edit writes the new set on the edited row and on every later row of the whole list, leaves earlier rows alone, and patches the set of each of those rows, one patch per row |
| EditableCell.RallyTurn | frontend/src/components/EditableCell.jsx:233-237 | one loop turn bumps the rally after a row that ended a point and writes it on the next row |
| EditableCell.RallyUpToStep | frontend/src/components/EditableCell.jsx:231-238 | one more loop turn rewrites exactly row j |
| EditableCell.RallyRun | frontend/src/components/EditableCell.jsx:229-238 | the rally loop computes exactly the rally re-run over the edited row's run |
| EditableCell.RallyCascade | frontend/src/components/EditableCell.jsx:226-242 | a rally edit computes exactly the rally re-run and patches the rally of every row from the edited one on in its set |
| EditableCell.RallyUpToValue | frontend/src/components/EditableCell.jsx:231-238 | the running rally before row j is the start plus the rallies finished by the edited row through row j - 2 |
| EditableCell.RallyUpToFrame | frontend/src/components/EditableCell.jsx:231-238 | the rally loop changes nothing but rally numbers, and only inside the rewritten stretch |
| EditableCell.RallyUpToRow | frontend/src/components/EditableCell.jsx:229-238 | the value of every row once the loop has rewritten a stretch |
| EditableCell.RallyRerunRows | frontend/src/components/EditableCell.jsx:226-238 | a rally edit changes only rally numbers on the same-set run from the edited row: it gets the typed number (1 when blank), and each later row that number plus the rallies finished before it |
| EditableCell.ApplyEdit | frontend/src/components/EditableCell.jsx:145-245 | the local update returns the list unchanged and no patches when the row id is absent; otherwise it writes the parsed value (and the resolved user id for a player cell) on the row, runs the cascade for a result, score, set or rally column, and touches only that row for any other column |
| EditableCell.Batch | frontend/src/components/EditableCell.jsx:263-268 | the chunks, concatenated, are the patch rows in order; each is non-empty and at most `size` long, and all but the last are exactly `size`; the first k chunks hold the first k * size rows |
| EditableCell.BatchPrefixesStep | frontend/src/components/EditableCell.jsx:264-266 | appending the next slice of `size` rows keeps "the first k chunks are the first k * size rows" for every k |
| EditableCell.CascadeSentIsBatchPrefix | frontend/src/components/EditableCell.jsx:263-269 | the chunks sent up to and including a rejected one are exactly the first (k + 1) * 15 cascade patches, and chunk k exists exactly when patch k * 15 does |
| EditableCell.StatsTable.CommitEdit | frontend/src/components/EditableCell.jsx:124-270 | a no-op edit (equal after normalising results, comparing scores as numbers, reading null as '') changes nothing and sends nothing; practice mode applies the edit and sends nothing; a successful write sends the edited row's patch and then the cascade patches in chunks of 15, in order, all of them or, when chunk k rejects, the first (k + 1) * 15, and the commit rejects exactly then, with neither toast nor rollback; a failed write restores only the edited column of the edited row and sends no cascade patch |
| EditableCell.StatsTable.SendCascade | frontend/src/components/EditableCell.jsx:260-269 | sends the cascade patches in order up to the end of the rejected chunk (all when none rejects), rejecting exactly when the rejected chunk exists, changing nothing else |
| EditableCell.StatsTable.SendChunks | frontend/src/components/EditableCell.jsx:263-269 | the chunks go out one after the other, in order, through the one that rejects (every chunk when none does), changing nothing else |
| EditableCell.RollBack | frontend/src/components/EditableCell.jsx:251-258 | after a failed write every other row is unchanged, and nothing changes when the row is gone |
| RallyTimes.GroupRows | frontend/src/utils/getRallyTimes.js:6-11 | a group's touches all carry its (set, rally id) pair |
| RallyTimes.GroupRowsFrom | frontend/src/utils/getRallyTimes.js:6-11 | a touch is in a group exactly when it is an input touch with that group's pair |
| RallyTimes.SummarizeCount | frontend/src/utils/getRallyTimes.js:19-27 | a group's summary counts its touches and keeps the action type of its first touch in input order |
| RallyTimes.SummarizeEarliest | frontend/src/utils/getRallyTimes.js:17-25 | `earliest` is the group's minimum timestamp |
| RallyTimes.SummarizeLastTouch | frontend/src/utils/getRallyTimes.js:18-26 | `lastTouch` is the first touch with the greatest timestamp |
| RallyTimes.Collect | frontend/src/utils/getRallyTimes.js:4-30 | every map entry's last touch belongs to that entry's key |
| RallyTimes.CollectKeys | frontend/src/utils/getRallyTimes.js:4-30 | the map's keys are listed once each in first-seen order, and they are exactly the pairs that some complete touch has |
| RallyTimes.CollectSummary | frontend/src/utils/getRallyTimes.js:10-29 | each map entry is the summary of exactly its group's touches, in input order |
| RallyTimes.Window | frontend/src/utils/getRallyTimes.js:34-49 | a window starts at 0 or later and no later than max(0, earliest - 1); it ends at least `extraEndBuffer` after the last touch and carries the last touch's (set, rally id) |
| RallyTimes.Windows | frontend/src/utils/getRallyTimes.js:34-50 | one window per listed key, in the map's order, each carrying its key |
| RallyTimes.CollectListed | frontend/src/utils/getRallyTimes.js:4-30 | every listed key has a map entry whose last touch belongs to it |
| RallyTimes.GetRallyTimes | frontend/src/utils/getRallyTimes.js:1-53 | the two loops and the sort compute exactly `getRallyTimes` |
| RallyTimes.StartLeOrders | frontend/src/utils/getRallyTimes.js:51 | the comparator by start is total and transitive |
| RallyTimes.RallyTimesSorted | frontend/src/utils/getRallyTimes.js:51 | the output is sorted ascending by start |
| RallyTimes.FromWindow | frontend/src/utils/getRallyTimes.js:32-51 | every output rally is the window of one group of the input |
| RallyTimes.RallyTimesDistinct | frontend/src/utils/getRallyTimes.js:10-49 | no two output rallies carry the same (set, rally id) |
| RallyTimes.RallyTimesPairs | frontend/src/utils/getRallyTimes.js:8-49 | a (set, rally id) pair is carried by some rally exactly when some touch with set, rally id and timestamp present has it |
| RallyTimes.RallyTimesBounds | frontend/src/utils/getRallyTimes.js:35-47 | every start is at least 0; with non-negative timestamps and a non-negative buffer every rally starts no later than it ends |
| RallyTimes.Kept | frontend/src/utils/getRallyTimes.js:8 | the kept touches all have set, rally id and timestamp |
| RallyTimes.CollectIgnoresIncomplete | frontend/src/utils/getRallyTimes.js:8 | touches missing a set, rally id or timestamp do not affect the rally map |
| RallyTimes.RallyTimesIgnoresIncomplete | frontend/src/utils/getRallyTimes.js:8 | dropping the incomplete touches does not change the output |
| RallyTimes.CollectNothing | frontend/src/utils/getRallyTimes.js:8 | input without a complete touch leaves the map empty |
| RallyTimes.RallyTimesEmpty | frontend/src/utils/getRallyTimes.js:2-8 | null input and input without a complete touch give no rallies |
| RallyTimes.TwoTouchRally | frontend/src/utils/getRallyTimes.js:34-51 | two set-1 rally-1 touches at 10 and 12 (the later a Serve with no player) give the one window [9, 13] |
| DBStats.TimestampsOf | frontend/src/components/DBStats.jsx:148-150 | the collected timestamps are exactly those of the rows that have one |
| DBStats.SortedTimestampsAscending | frontend/src/components/DBStats.jsx:148-151 | the timestamps are sorted ascending and are a permutation of the non-null timestamps |
| DBStats.RunEnd | frontend/src/components/DBStats.jsx:159-168 | the inner loop stops at the end or at the first timestamp whose pre-buffered start is past the window's end |
| DBStats.MergeFrom | frontend/src/components/DBStats.jsx:156-172 | there are at most as many windows as timestamps, and none only when there are no timestamps left |
| DBStats.PlayFilteredNothing | frontend/src/components/DBStats.jsx:147-152 | nothing is played exactly when there is no player or no row has a timestamp; otherwise there is at least one window and at most one per row |
| DBStats.HandlePlayFiltered | frontend/src/components/DBStats.jsx:147-172 | the handler computes exactly the windows "play filtered" hands to the player |
| DBStats.MergeWindows | frontend/src/components/DBStats.jsx:153-172 | the nested loops compute exactly the greedy merge |
| DBStats.AbsorbRun | frontend/src/components/DBStats.jsx:158-168 | the inner loop stops where the merge says, with end = the last absorbed timestamp + 3 |
| DBStats.MergeSeparated | frontend/src/components/DBStats.jsx:157-171 | each window ends before the next one starts |
| DBStats.MergeDisjoint | frontend/src/components/DBStats.jsx:157-171 | on ascending non-negative timestamps every window is non-empty and ends before any later window starts |
| DBStats.MergeCovers | frontend/src/components/DBStats.jsx:153-172 | every non-negative timestamp t lies in some window with start at most t and end at least t + 3 |
| DBStats.PlayFilteredWindows | frontend/src/components/DBStats.jsx:147-172 | with non-negative timestamps the played windows are non-empty, strictly increasing, disjoint, cover every row's timestamp, and number no more than the rows |
| DBStats.EditableKeys | frontend/src/components/DBStats.jsx:420 | the navigable keys are the ordered keys other than timestamp and score |
| DBStats.IndexOf | frontend/src/components/DBStats.jsx:425 | `indexOf`: the first index holding the key, or -1 when it is absent |
| DBStats.NavTarget | frontend/src/components/DBStats.jsx:419-448 | outside edit mode no cell is opened; an opened cell's row is inside the list and is the row the first step reaches |
| DBStats.NavigateToEditableCell | frontend/src/components/DBStats.jsx:419-448 | the guarded loop opens exactly the cell NavTarget names |
| DBStats.NextPrevInverse | frontend/src/components/DBStats.jsx:431-436 | 'prev' undoes 'next' and 'next' undoes 'prev', wrapping across row ends |
| DBStats.NextWrapsToFollowingRow | frontend/src/components/DBStats.jsx:431-433 | in edit mode 'next' from the last column opens the first column of the following row |
| DBStats.Lookup | frontend/src/components/DBStats.jsx:203 | `Map.get` finds nothing exactly when no entry has the index |
| DBStats.SetEntry | frontend/src/components/DBStats.jsx:498-525 | `Map.set` keeps indexes distinct, maps the index to the new height, leaves other indexes alone, and grows the map only for a new index |
| DBStats.RowHeights.constructor | frontend/src/components/DBStats.jsx:199 | the map starts empty |
| DBStats.RowHeights.Get | frontend/src/components/DBStats.jsx:203 | a row's height is its measurement, else 28, and never below 28 |
| DBStats.RowHeights.ItemSize | frontend/src/components/DBStats.jsx:200-204 | the spacer row at index `rows` is 10 px when the grid is wider than the viewport; any other row has its height |
| DBStats.RowHeights.Set | frontend/src/components/DBStats.jsx:495-525 | recording a measurement (never below 28) updates the map as `Map.set` does |
| DBStats.RowHeights.Clear | frontend/src/components/DBStats.jsx:397 | clearing empties the map |
| DBStats.RowHeights.TotalListHeight | frontend/src/components/DBStats.jsx:205-212 | the total is the sum of the measured heights plus 28 for each row beyond the map's size |
| DBStats.LookupHeights | frontend/src/components/DBStats.jsx:203 | a looked-up height is one of the recorded heights |
| DBStats.SumItemsAppend | frontend/src/components/DBStats.jsx:205-212 | measuring a new row changes the per-row sum by its excess over 28 |
| DBStats.IndexSetSize | frontend/src/components/DBStats.jsx:209 | the map's size is the number of measured indexes |
| DBStats.TotalIsSumOfRows | frontend/src/components/DBStats.jsx:205-212 | when every measured index is a row of the list, the total height is the sum of each row's height: measured ones as measured, the others 28 |
| DBStats.SumMeasured | frontend/src/components/DBStats.jsx:205-212 | the per-row sum is the measured heights plus 28 for each unmeasured row |
| DBStats.SumItemsBlank | frontend/src/components/DBStats.jsx:210-211 | with no measurement the list is 28 px per row |
| DBStats.BodyColumns | frontend/src/components/DBStats.jsx:226-236 | the grid's data columns are visible keys other than score; in edit mode the insert button comes first and the delete button last |
| DBStats.FlexKey | frontend/src/components/DBStats.jsx:237-240 | the flexible column is a data column of the grid, and there is none exactly when the grid has only buttons |
| DBStats.WidthForFixed | frontend/src/components/DBStats.jsx:348-356 | the insert and delete columns are 32 px; every other fixed column is at least 60 px |
| DBStats.FixedPx | frontend/src/components/DBStats.jsx:357-360 | the fixed width is never negative |
| DBStats.PinnedFlexPx | frontend/src/components/DBStats.jsx:362-365 | a pinned flexible column is at least the flexible minimum |
| DBStats.Template | frontend/src/components/DBStats.jsx:366-372 | one track per column, in order |
| DBStats.GridLayout | frontend/src/components/DBStats.jsx:346-375 | canFit holds exactly when the viewport is positive and the fixed width plus the flexible minimum fits it; totalPx is at least the fixed width plus the flexible minimum |
| DBStats.FlexPxOnce | frontend/src/components/DBStats.jsx:366-373 | the flexible width counts once when the flexible key names one column, and not at all when it names none |
| DBStats.TracksPxOfTemplate | frontend/src/components/DBStats.jsx:357-373 | the tracks' summed width is the fixed width plus the flexible column's |
| DBStats.GridLayoutTracks | frontend/src/components/DBStats.jsx:346-375 | buttons are 32 px tracks, other fixed columns at least 60 px, the flexible column stretches from its minimum when it fits and is pinned at no less than it otherwise; when the flexible key names one column, totalPx is the tracks' summed width |
| DBStats.NewRowBelow | frontend/src/components/DBStats.jsx:576-584 | the inserted row has the clicked row's game, team, rally, scores and set, an import_seq after the clicked row's, and no result, player or action |
| DBStats.InsertBelow | frontend/src/components/DBStats.jsx:585-591 | the new row sits immediately after the clicked row (first when the id is absent), and removing it gives the list back |
| DBStats.DeleteRow | frontend/src/components/DBStats.jsx:713-723 | the rows left are exactly the rows without that id, each with all its copies |
| DBStats.DeleteRowSnoc | frontend/src/components/DBStats.jsx:713-723 | the rows left stay in list order: a row added at the end is kept last, or dropped when it has the id |
| DBStats.DeleteAbsent | frontend/src/components/DBStats.jsx:713-723 | deleting an id no row carries changes nothing |
| DBStats.InsertThenDelete | frontend/src/components/DBStats.jsx:713-723 | deleting a freshly inserted row (with a new id) gives the list back |
| DBStats.NarrowsIsActive | frontend/src/components/DBStats.jsx:129-139 | a condition that lights the "filtered" indicator is one the list filter applies |
| DBStats.UnfilteredPassesAll | frontend/src/components/DBStats.jsx:129-139 | with no active condition in any column the indicator is off and every row passes the filters |
| MainPage.ActiveConditions | frontend/src/components/Routes/MainPage.jsx:436-439 | a condition is kept exactly when it is in the filter and uses blank/not_blank or has a non-empty value |
| MainPage.TextNegations | frontend/src/components/Routes/MainPage.jsx:441-455 | on text columns not_contains, not_equals and not_blank are the exact complements of contains, equals and blank |
| MainPage.TextEqualsIgnoresCase | frontend/src/components/Routes/MainPage.jsx:442-447 | text equality compares the lower-cased cell with the lower-cased value |
| MainPage.NumberOperators | frontend/src/components/Routes/MainPage.jsx:456-496 | on numeric columns not_blank is the complement of blank; equals and not_equals both fail on a blank or non-numeric cell or operand; between is inclusive gte on the lower end and lte on the upper end |
| MainPage.UnknownOperators | frontend/src/components/Routes/MainPage.jsx:453-494 | an unknown operator passes every row of a text column and fails every row of a numeric one |
| MainPage.Combine | frontend/src/components/Routes/MainPage.jsx:502-509 | after any condition the fold holds a result |
| MainPage.FoldConditions | frontend/src/components/Routes/MainPage.jsx:499-510 | the fold has no result only for an empty list of conditions |
| MainPage.FoldAndOr | frontend/src/components/Routes/MainPage.jsx:499-510 | with every later condition joined by AND (the default), the fold is the conjunction of all results; with every one joined by OR, the disjunction |
| MainPage.ColumnPasses | frontend/src/components/Routes/MainPage.jsx:440 | a column with no active condition passes every row |
| MainPage.EvaluateColumn | frontend/src/components/Routes/MainPage.jsx:496-511 | the loop computes exactly the column's fold, true when there is none |
| MainPage.BaseFiltered | frontend/src/components/Routes/MainPage.jsx:426-512 | a row is kept, with all its copies, exactly when some visible column holds a value other than null or '' and every filtered column passes it; the list only shrinks |
| MainPage.BaseFilteredSnoc | frontend/src/components/Routes/MainPage.jsx:426-512 | the kept rows stay in list order: a row added at the end is kept last exactly when it shows something and passes every filter |
| MainPage.RowById | frontend/src/components/Routes/MainPage.jsx:243 | a row found by id is a current row with that id, and none is found exactly when no row has it |
| MainPage.FrozenViewFollowsIds | frontend/src/components/Routes/MainPage.jsx:514-517 | while frozen the view is the captured ids still present, in captured order, each the current row with that id |
| MainPage.RowByOwnId | frontend/src/components/Routes/MainPage.jsx:243 | where ids are unique, looking up a row's id finds that row |
| MainPage.FrozenViewOfOwnRows | frontend/src/components/Routes/MainPage.jsx:514-536 | freezing the current rows shows exactly those rows, in order |
| MainPage.ColumnKind | frontend/src/components/Routes/MainPage.jsx:518-528 | each column holds values of one kind (numbers or strings) |
| MainPage.KeyLessAsymmetric | frontend/src/components/Routes/MainPage.jsx:525-526 | no two keys are each less than the other |
| MainPage.CompareTotal | frontend/src/components/Routes/MainPage.jsx:518-528 | the comparator puts every pair of rows in some order |
| MainPage.NotLessTransitive | frontend/src/components/Routes/MainPage.jsx:525-526 | "not less than" on keys of one kind is transitive |
| MainPage.CompareTransitive | frontend/src/components/Routes/MainPage.jsx:518-528 | the comparator is transitive |
| MainPage.SortedStatsOrder | frontend/src/components/Routes/MainPage.jsx:518-528 | the sorted rows are a permutation of the shown rows; null keys come after all others in both directions; the rest are in ascending or descending key order |
| MainPage.ToggleColumn | frontend/src/components/Routes/MainPage.jsx:334-352 | the column's visibility flips; toggling score flips score, our_score and opp_score to the same new value; every other column is untouched and no column type changes |
| MainPage.ToggleColumnTwice | frontend/src/components/Routes/MainPage.jsx:334-352 | toggling a column twice restores the table (when score and its two columns agreed) |
| MainPage.View.constructor | frontend/src/components/Routes/MainPage.jsx:303 | the view starts unfrozen with no filters and sorted by import_seq ascending |
| MainPage.View.Filtered | frontend/src/components/Routes/MainPage.jsx:514-517 | `filteredStats` is the filtered rows, or while frozen the captured ids looked up in the current rows |
| MainPage.View.HandleTextColumnFilterChange | frontend/src/components/Routes/MainPage.jsx:216-232 | typed text becomes one condition (contains on text columns, equals otherwise); null or an empty condition list removes the column's filter; a condition list replaces it; nothing else changes |
| MainPage.View.ToggleColumnVisibility | frontend/src/components/Routes/MainPage.jsx:334-352 | the columns table becomes ToggleColumn of the old one; nothing else changes |
| MainPage.View.SetFilterFrozen | frontend/src/components/Routes/MainPage.jsx:532-541 | freezing captures the ids of the rows the filters show now, and with unique ids the frozen view is then exactly those rows; unfreezing keeps the ids |
| MainPage.View.SetStats | frontend/src/components/Routes/MainPage.jsx:384 | an update replaces only the rows |
| MainPage.View.SetSort | frontend/src/components/Routes/MainPage.jsx:303 | a sort change replaces only the sort |
| MainPage.TypedEmptyPassesAll | frontend/src/components/Routes/MainPage.jsx:436-440 | typing nothing into a column's filter leaves a condition that is not active, so every row passes that column |
| FilterHeader.ToggleSort | frontend/src/components/SortableFilterHeader.jsx:123-131 | another column starts ascending; ascending becomes descending; descending goes back to import_seq ascending |
| FilterHeader.ToggleSortCycle | frontend/src/components/SortableFilterHeader.jsx:123-131 | three clicks on a column other than import_seq come back to where the first click left the sort |
| FilterHeader.EffectiveFilter | frontend/src/components/SortableFilterHeader.jsx:71-81 | the menu always has a condition: the stored ones when there are any, else one with value '' whose operator is equals for filterable non-text types and contains otherwise |
| FilterHeader.UpdateCondition | frontend/src/components/SortableFilterHeader.jsx:133-140 | only the given property of condition idx changes |
| FilterHeader.AddCondition | frontend/src/components/SortableFilterHeader.jsx:141-151 | nothing happens at 10 conditions; otherwise one condition {AND, contains on text columns and equals otherwise, ''} is appended and the others are unchanged |
| FilterHeader.RemoveCondition | frontend/src/components/SortableFilterHeader.jsx:161-167 | exactly condition idx is dropped; removing the only one leaves one empty contains condition |
| FilterHeader.AddThenRemove | frontend/src/components/SortableFilterHeader.jsx:141-167 | removing the condition just added gives the filter back |
| FilterHeader.DragWidth | frontend/src/components/SortableFilterHeader.jsx:174-184 | the dragged width never exceeds start + max(0, flex - minFlex) and never falls below the smaller of the hard minimum and that bound; between them it is the rounded start + delta |
| FilterHeader.RoundMonotone | frontend/src/components/SortableFilterHeader.jsx:181 | Math.round is monotone |
| FilterHeader.DragWidthMonotone | frontend/src/components/SortableFilterHeader.jsx:179-184 | moving the mouse further never makes the column narrower |
| VideoPlayer.NormalizeRotation | frontend/src/components/VideoPlayer.jsx:120 | the normalized angle lies in [-180, 180) |
| VideoPlayer.JsRem360 | frontend/src/components/VideoPlayer.jsx:120 | JavaScript's `a % 360` differs from `a` by whole turns |
| VideoPlayer.NormalizeRotationCongruent | frontend/src/components/VideoPlayer.jsx:120 | the normalized angle is congruent to the input modulo 360 |
| VideoPlayer.NormalizeRotationFixed | frontend/src/components/VideoPlayer.jsx:120 | an angle already in [-180, 180) is left as it is |
| VideoPlayer.PanByArrow | frontend/src/components/VideoPlayer.jsx:238-260 | an unknown direction changes nothing; for zoom at least 1 an arrow keeps the pan within plus or minus (zoom - 1) * 500 across and (zoom - 1) * 300 down |
| VideoPlayer.PanByArrowExact | frontend/src/components/VideoPlayer.jsx:242-259 | within the bounds, "up" moves the picture by exactly one 20-pixel step |
| VideoPlayer.PanUnzoomed | frontend/src/components/VideoPlayer.jsx:256-259 | at zoom 1 an arrow puts the picture back at (0, 0) |
| VideoPlayer.FindRally | frontend/src/components/VideoPlayer.jsx:265-267 | the current rally is the first whose window holds t with start at most t and t before end, or -1 when none does |
| VideoPlayer.SetRalliesOrdered | frontend/src/components/VideoPlayer.jsx:147-158 | a set's list holds exactly that set's rallies, ordered by start |
| VideoPlayer.GroupAt | frontend/src/components/VideoPlayer.jsx:149-153 | a set has a list exactly when it is truthy and has a rally, and the list is that set's rallies in list order |
| VideoPlayer.GroupsAreFilters | frontend/src/components/VideoPlayer.jsx:149-153 | the lists are the truthy sets' rallies in list order; a falsy set has none |
| VideoPlayer.BuildRalliesBySet | frontend/src/components/VideoPlayer.jsx:147-158 | the map's sets are exactly the truthy sets that have a rally, and each list is that set's rallies sorted by start |
| VideoPlayer.GroupBySet | frontend/src/components/VideoPlayer.jsx:149-153 | the first loop builds exactly the per-set lists, and lists each set once |
| VideoPlayer.SortEachGroup | frontend/src/components/VideoPlayer.jsx:154-156 | the second loop sorts every list by start and keeps the sets |
| VideoPlayer.InOwnSet | frontend/src/components/VideoPlayer.jsx:149-153 | a rally is in its own set's list |
| VideoPlayer.FirstAtStart | frontend/src/components/VideoPlayer.jsx:272 | in a list ordered by start, the first rally starting with the current one has only earlier starts before it |
| VideoPlayer.RallyNumberPosition | frontend/src/components/VideoPlayer.jsx:270-275 | a rally of a truthy set is numbered between 1 and the size of its set, and that number of the set's rallies start no later than it, exactly one fewer strictly earlier |
| VideoPlayer.Starts | frontend/src/components/VideoPlayer.jsx:143-146 | the start timestamps are the rallies' starts, in order |
| VideoPlayer.SortedStartsAreStarts | frontend/src/components/VideoPlayer.jsx:880-887 | sorting the starts either way keeps exactly the starts |
| VideoPlayer.StartsAscending | frontend/src/components/VideoPlayer.jsx:880-887 | sorting with `a - b` puts the starts in ascending order |
| VideoPlayer.StartsDescending | frontend/src/components/VideoPlayer.jsx:1305 | sorting with `b - a` puts the starts in descending order |
| VideoPlayer.NextRallyStartLeast | frontend/src/components/VideoPlayer.jsx:880-883 | the next-rally target is the smallest start strictly greater than t; there is none exactly when no rally starts after t |
| VideoPlayer.PreviousRallyStartGreatest | frontend/src/components/VideoPlayer.jsx:885-886 | the previous-rally target is the largest start strictly before t - 2; there is none exactly when no rally starts that early |
| VideoPlayer.NextThenPrevious | frontend/src/components/VideoPlayer.jsx:880-887 | a jump to the next rally moves forward, and a jump back from there lands no later than it |
| VideoPlayer.Upcoming | frontend/src/components/VideoPlayer.jsx:294 | at most 3 upcoming touches, each a row with timestamp after t; with fewer than 3, every such row is listed |
| VideoPlayer.UpcomingInOrder | frontend/src/components/VideoPlayer.jsx:294 | the upcoming touches are the first of the later rows, in list order |
| VideoPlayer.LatestScored | frontend/src/components/VideoPlayer.jsx:309-317 | the score row is the last in list order with a timestamp at most t and both scores, or -1 |
| VideoPlayer.LatestScoredMonotone | frontend/src/components/VideoPlayer.jsx:309-317 | at a later time the score comes from the same row or a later one |
| VideoPlayer.UpdateInRally | frontend/src/components/VideoPlayer.jsx:264-279 | inside a rally the tracker remembers the first rally holding t, and for a truthy set shows its number within the set |
| VideoPlayer.UpdateSeeksOnlyToAdvance | frontend/src/components/VideoPlayer.jsx:280-292 | the playhead moves only on auto-advance: autoplay is on, t is past the rally in use's end, a later rally is listed, and the new time is the smallest rally start after t; the upcoming list is then not refreshed |
| VideoPlayer.UpdateListsTouches | frontend/src/components/VideoPlayer.jsx:280-294 | without an auto-advance the playhead stays and the upcoming touches are listed |
| VideoPlayer.UpdateScore | frontend/src/components/VideoPlayer.jsx:302-327 | while playing and not paused for stat updates: a pending resume time ahead keeps the score; otherwise the resume time is cleared and the score is the latest scored row's, or 0 - 0 in set 1 when there is none |
| VideoPlayer.Tracker.constructor | frontend/src/components/VideoPlayer.jsx:159-165 | no rally in use, no resume time, 0 - 0 in set 1, playhead at 0 |
| VideoPlayer.Tracker.SetTime | frontend/src/components/VideoPlayer.jsx:264 | the playhead moves and nothing else changes |
| VideoPlayer.Tracker.SetResumeAfter | frontend/src/components/VideoPlayer.jsx:115 | only the resume time changes |
| VideoPlayer.Tracker.UpdateTouchBuffer | frontend/src/components/VideoPlayer.jsx:261-328 | `updateTouchBuffer` takes the tracker to exactly the state Update gives |
| VideoPlayer.Tracker.LocateRally | frontend/src/components/VideoPlayer.jsx:269-279 | the rally lookup part of the update |
| VideoPlayer.Tracker.RefreshShown | frontend/src/components/VideoPlayer.jsx:294-327 | the touch list and score refresh part of the update |
| PlaybackSession.SetPhase | frontend/src/components/VideoPlayer.jsx:61-83 | only chain k's phase changes; the shared refs stay |
| PlaybackSession.Detach | frontend/src/components/VideoPlayer.jsx:59-85 | the stored listener is removed: the chain it belonged to hangs (its await never returns), every other chain and the shared refs stay |
| PlaybackSession.StartWindow | frontend/src/components/VideoPlayer.jsx:63-81 | starting a window keeps the chains, the session counter, the cancelled flag and autoplay, and the chain's position |
| PlaybackSession.EndLoop | frontend/src/components/VideoPlayer.jsx:84-86 | ending the loop keeps the chains, the session counter, the cancelled flag and autoplay |
| PlaybackSession.LoopHead | frontend/src/components/VideoPlayer.jsx:61-86 | the loop head keeps the chains, the session counter, the cancelled flag and autoplay |
| PlaybackSession.LoopHeadSeeks | frontend/src/components/VideoPlayer.jsx:61-75 | the loop head seeks only to the start of the chain's current window; once the reel is cancelled it starts nothing and the chain finishes |
| PlaybackSession.Resume | frontend/src/components/VideoPlayer.jsx:61 | a returned await moves the chain on by exactly one window |
| PlaybackSession.Advance | frontend/src/components/VideoPlayer.jsx:61 | the chain moves past its current window |
| PlaybackSession.Open | frontend/src/components/VideoPlayer.jsx:58 | the session counter goes up by one and the new chain carries the new id and the given windows |
| PlaybackSession.Start | frontend/src/components/VideoPlayer.jsx:52-86 | autoplay goes off; without a video only the flags change; with one the session counter goes up by one and a chain for the new session and the given windows is added; existing chains keep their ids and windows |
| PlaybackSession.PlayResolved | frontend/src/components/VideoPlayer.jsx:76-77 | a resolved `play()` keeps the session invariant, the chains and the session counter |
| PlaybackSession.PlayRejected | frontend/src/components/VideoPlayer.jsx:78-81 | a rejected `play()` keeps the session invariant, the chains and the session counter |
| PlaybackSession.TimeUpdate | frontend/src/components/VideoPlayer.jsx:64-73 | a time update keeps the session invariant, the chains and the session counter |
| PlaybackSession.Stop | frontend/src/components/VideoPlayer.jsx:99-107 | `stopFilteredTouches` turns custom playback off, sets the cancelled flag, takes a fresh session, detaches the stored listener, and leaves the playhead |
| PlaybackSession.Step | frontend/src/components/VideoPlayer.jsx:52-107 | every event keeps the session invariant (ids increasing and at most the counter, the stored listener a chain's, a waiting chain at one of its windows) |
| PlaybackSession.StepKeepsChains | frontend/src/components/VideoPlayer.jsx:58-102 | no event lowers the session counter or changes an existing chain's id or windows; a playback start with a video and a stop each raise the counter by one, so no session id is reused |
| PlaybackSession.StaleListenerInert | frontend/src/components/VideoPlayer.jsx:64-68 | a listener whose session is over only detaches itself: it never pauses and never moves its loop on |
| PlaybackSession.WindowFinishesAtEnd | frontend/src/components/VideoPlayer.jsx:64-73 | a window finishes only for the current session and once the playhead is at or past its end; before that a time update changes nothing |
| PlaybackSession.RejectedSkipsWindow | frontend/src/components/VideoPlayer.jsx:61-81 | a rejected `play()` moves the chain to its next window; once the reel is cancelled no window starts and the playhead stays |
| PlaybackSession.SupersededChainInert | frontend/src/components/VideoPlayer.jsx:61-83 | with a session check in the loop, anything that happens to a superseded chain changes that chain only: no seek, pause, stored listener or end of custom playback |
| PlaybackSession.TraceStarts | frontend/src/components/VideoPlayer.jsx:52-81 | starting reel A then reel B on a fresh player: A seeks to 10 and waits on `play()`; B takes session 2, seeks to 50 and stores its listener |
| PlaybackSession.SupersededChainSeeks | frontend/src/components/VideoPlayer.jsx:61-83 | as written, when A's `play()` rejects after B started, A, whose session is over, seeks the video to 30 and stores its own listener over B's |
| PlaybackSession.SupersededChainQuiet | frontend/src/components/VideoPlayer.jsx:61-83 | with the session check, the same rejection finishes A quietly and B keeps the video at 50 |
| PlaybackSession.PlaybackDriver.constructor | frontend/src/components/VideoPlayer.jsx:47-50 | no reel yet, the session counter at 0, the video paused at the start |
| PlaybackSession.PlaybackDriver.DetachStored | frontend/src/components/VideoPlayer.jsx:59-60 | the refs become exactly Detach of the old ones |
| PlaybackSession.PlaybackDriver.ContinueLoop | frontend/src/components/VideoPlayer.jsx:61-86 | the loop head on the refs is exactly LoopHead with the session check |
| PlaybackSession.PlaybackDriver.PlayCustomSequences | frontend/src/components/VideoPlayer.jsx:52-86 | `playCustomSequences` takes the refs to exactly Start of the old ones, with the session check in the loop |
| PlaybackSession.PlaybackDriver.OnPlayResolved | frontend/src/components/VideoPlayer.jsx:76-77 | the refs become exactly PlayResolved of the old ones |
| PlaybackSession.PlaybackDriver.OnPlayRejected | frontend/src/components/VideoPlayer.jsx:78-81 | the refs become exactly PlayRejected of the old ones, with the session check |
| PlaybackSession.PlaybackDriver.OnTimeUpdate | frontend/src/components/VideoPlayer.jsx:64-73 | the refs become exactly TimeUpdate of the old ones, with the session check |
| PlaybackSession.PlaybackDriver.StopFilteredTouches | frontend/src/components/VideoPlayer.jsx:99-107 | the refs become exactly Stop of the old ones |
| PlaybackSession.PlaybackDriver.MovePlayhead | frontend/src/components/VideoPlayer.jsx:75 | only the playhead moves |
| StatsSummary.FirstSeen | frontend/src/components/Routes/StatsSummary.jsx:36-38 | the distinct elements of a list, each once, and nothing else: the keys of an object or set built from it |
| StatsSummary.TallyCounts | frontend/src/components/Routes/StatsSummary.jsx:241-248 | the object built by counting keys with `(acc[k] \|\| 0) + 1` has exactly the keys of the list, each counted as often as it occurs |
| StatsSummary.TallyTotal | frontend/src/components/Routes/StatsSummary.jsx:241-248 | the counts, summed in key order, add up to the number of keys counted |
| StatsSummary.SummaryLeTotalOrder | frontend/src/components/Routes/StatsSummary.jsx:103-108 | the summary comparator is total and transitive, so the sort is well defined |
| StatsSummary.KeyLessStrict | frontend/src/components/Routes/StatsSummary.jsx:103-108 | the comparator's order is irreflexive and transitive |
| StatsSummary.KeyLessTrichotomy | frontend/src/components/Routes/StatsSummary.jsx:103-108 | of two different sort keys, one comes before the other |
| StatsSummary.NamedStatsFromKept | frontend/src/components/Routes/StatsSummary.jsx:100-113 | every summary row is the renamed copy of an input row that has a player and belongs to the team |
| StatsSummary.NamedStatsCoversKept | frontend/src/components/Routes/StatsSummary.jsx:100-113 | every input row that has a player and belongs to the team appears, renamed, among the summary rows |
| StatsSummary.NamedStatsOrdered | frontend/src/components/Routes/StatsSummary.jsx:103-108 | the summary rows are ordered by game id, then set (absent is 0), then import sequence (absent is 0), then row id |
| StatsSummary.NamedStatsSpec | frontend/src/components/Routes/StatsSummary.jsx:100-113 | the summary rows are exactly the renamed kept rows, as many as there are kept rows, in summary order |
| StatsSummary.SettingOnly | frontend/src/components/Routes/StatsSummary.jsx:136-137 | the setting rows are exactly the summary rows with a set-to position or set-to player, each with all its copies |
| StatsSummary.SettingOnlySnoc | frontend/src/components/Routes/StatsSummary.jsx:136-137 | the setting rows stay in list order: a row added at the end is kept last exactly when it is a setting row |
| StatsSummary.FilteredSettingStats | frontend/src/components/Routes/StatsSummary.jsx:23-25 | with 'all' every setting row; otherwise exactly the rows of the chosen setter, each with all its copies; never more rows than before |
| StatsSummary.FilteredSettingStatsSnoc | frontend/src/components/Routes/StatsSummary.jsx:23-25 | the setter's rows stay in list order: a row added at the end is kept last exactly when the choice is 'all' or it is the setter's row |
| StatsSummary.OccurrenceKeys | frontend/src/components/Routes/StatsSummary.jsx:241-248 | the counted keys are exactly the truthy values of the column, never more than the rows |
| StatsSummary.CountOccurrencesSpec | frontend/src/components/Routes/StatsSummary.jsx:241-248 | `countOccurrences` has a key exactly for each truthy value of the column, counts each as often as it occurs, and its counts sum to at most the number of rows |
| StatsSummary.CreditStep | frontend/src/components/Routes/StatsSummary.jsx:121-133 | one turn of the pair loop credits the setter of pair i, i+1 exactly when it is an assist |
| StatsSummary.CreditsDone | frontend/src/components/Routes/StatsSummary.jsx:121 | when the loop stops every consecutive pair of the game has had its turn |
| StatsSummary.CreditGame | frontend/src/components/Routes/StatsSummary.jsx:118-133 | one game's loop leaves the tally of the credits so far plus one credit per assisting pair of the game's rows ordered by import sequence |
| StatsSummary.AssistCounts | frontend/src/components/Routes/StatsSummary.jsx:115-134 | `assistCounts` is the tally of one credit per consecutive same-rally Set-then-won-point pair, game by game over the relevant games |
| StatsSummary.PairCreditsBounded | frontend/src/components/Routes/StatsSummary.jsx:121-133 | the first n pairs credit at most as many assists as there are Set rows with a player among the first n rows |
| StatsSummary.GameCreditsBounded | frontend/src/components/Routes/StatsSummary.jsx:118-133 | one game's assists are at most its Set rows with a player |
| StatsSummary.AllCreditsBounded | frontend/src/components/Routes/StatsSummary.jsx:117-134 | the assists over all relevant games are at most the sum of their Set rows with a player |
| StatsSummary.SettersStep | frontend/src/components/Routes/StatsSummary.jsx:117-119 | one more row adds at most one Set row to the per-game sum, and only if it is one |
| StatsSummary.SettersAcrossGames | frontend/src/components/Routes/StatsSummary.jsx:116-119 | over distinct games, the per-game Set rows together are at most the Set rows of the whole summary |
| StatsSummary.TotalAssistsBounded | frontend/src/components/Routes/StatsSummary.jsx:115-134 | over distinct games each credit is counted once and all assists together never exceed the number of Set rows that have a player |
| StatsSummary.AddRowCounts | frontend/src/components/Routes/StatsSummary.jsx:256-268 | one reduce step raises the qty, won and lost of the row's own player and action by one each where they apply, and nothing else |
| StatsSummary.GroupCounts | frontend/src/components/Routes/StatsSummary.jsx:256-268 | per player and non-empty action, qty is the number of that player's rows of that action, won and lost the number of those whose result is exactly "Won Point" or "Lost Point" |
| StatsSummary.GroupWonLost | frontend/src/components/Routes/StatsSummary.jsx:265-266 | won + lost never exceeds qty |
| StatsSummary.GroupSkipsUntyped | frontend/src/components/Routes/StatsSummary.jsx:257 | a row without an action type leaves the grouping unchanged |
| StatsSummary.GroupKeys | frontend/src/components/Routes/StatsSummary.jsx:256-260 | the grouping has a key exactly for each player label of a row with an action type |
| StatsSummary.LabelIsGroupKey | frontend/src/components/Routes/StatsSummary.jsx:269 | a label is among the ordered group labels exactly when it is a key of the grouping |
| StatsSummary.PlayersSpec | frontend/src/components/Routes/StatsSummary.jsx:269 | `players` holds every group label once and nothing else, sorted |
| StatsSummary.ActionTotal | frontend/src/components/Routes/StatsSummary.jsx:270-283 | the loop's qty, quality sum, won and lost are the sums of the per-player values over the players |
| StatsSummary.RowsAcrossPlayers | frontend/src/components/Routes/StatsSummary.jsx:270-283 | summing per-player row counts over distinct players who cover every typed row gives the number of rows of the action |
| StatsSummary.ActionTotalCountsRows | frontend/src/components/Routes/StatsSummary.jsx:256-283 | an action's total qty is the number of summary rows of that action |
| StatsSummary.ActionTypes | frontend/src/components/Routes/StatsSummary.jsx:36-37 | the non-empty action types of the rows, and only those |
| StatsSummary.ActionsSpec | frontend/src/components/Routes/StatsSummary.jsx:34-40 | the action list holds each non-empty action type once, in strictly increasing order |
| StatsSummary.ApplyColumnDefaults | frontend/src/components/Routes/StatsSummary.jsx:165-177 | every new action column gets an entry, visible unless it is Success, Fail, Pass or Dig; existing entries stay |
| StatsSummary.ToggleColumn | frontend/src/components/Routes/StatsSummary.jsx:183-188 | one column's visibility flips, a column without an entry becomes visible, the others stay |
| StatsSummary.ToggleTwice | frontend/src/components/Routes/StatsSummary.jsx:183-188 | toggling an existing column twice gives back the map it started from |
| UploadModal.Pad | frontend/src/components/UploadGameModal.jsx:46 | a zero-padded numeral has exactly the given width and only digits |
| UploadModal.PadValue | frontend/src/components/UploadGameModal.jsx:46-47 | reading a padded numeral back gives the number, when it fits in the width |
| UploadModal.DigitsPad | frontend/src/components/UploadGameModal.jsx:46-47 | a string of digits is the padded numeral of its own value |
| UploadModal.FormatDateFields | frontend/src/components/UploadGameModal.jsx:46-47 | a zero-padded YYYY-MM-DD has the date's shape and splits back into its year, month and day |
| UploadModal.FormatDateValid | frontend/src/components/UploadGameModal.jsx:45-52 | `isValidISODate` accepts a zero-padded date exactly when it exists in the Gregorian calendar |
| UploadModal.ValidDateIsCalendarDate | frontend/src/components/UploadGameModal.jsx:45-52 | every accepted string is the zero-padded form of a calendar date |
| UploadModal.LeapDayValid | frontend/src/components/UploadGameModal.jsx:49-51 | 29 February is accepted exactly in leap years (divisible by 4, and by 400 when divisible by 100) |
| UploadModal.LeadingDigits | frontend/src/components/UploadGameModal.jsx:55 | the greedy `(\\d+)` capture: the longest prefix of digits |
| UploadModal.MaxGameNum | frontend/src/components/UploadGameModal.jsx:61 | the largest game number read from the titles, 0 for none, and it is one of them |
| UploadModal.NextGameNumber | frontend/src/components/UploadGameModal.jsx:61-62 | `nextN` is at least 1, above every game number on that date, and one more than the largest |
| UploadModal.GameNumFromTitle | frontend/src/components/UploadGameModal.jsx:54-63 | scanning a new title from any point within its date reads back the game number |
| UploadModal.TitleRoundTrip | frontend/src/components/UploadGameModal.jsx:54-63 | `parseGameNumFromTitle` on "<date> Game <n>" gives back n for every valid date |
| UploadModal.NewTitleIsFresh | frontend/src/components/UploadGameModal.jsx:61-63 | the new title is not the title of any game already on that date |
| UploadModal.ParsePlayersTrimmed | frontend/src/components/UploadGameModal.jsx:58-59 | every parsed player name is non-empty with no white space at either end |
| UploadModal.JoinSpaced | frontend/src/components/UploadGameModal.jsx:58-59 | names joined by ", " are the spaced names joined by "," |
| UploadModal.SpacedParts | frontend/src/components/UploadGameModal.jsx:58-59 | each spaced part has no comma and trims back to its name |
| UploadModal.ParsePlayersRoundTrip | frontend/src/components/UploadGameModal.jsx:58-59 | `parsePlayers` of clean names joined by ", " gives back the same names |
| UploadModal.Renumber | frontend/src/components/UploadGameModal.jsx:91-94 | every upload keeps everything but its number, which becomes its position plus one |
| UploadModal.IdsOfFilter | frontend/src/components/UploadGameModal.jsx:173 | the ids left after the filter are the old ids without the removed one |
| UploadModal.RemoveUploadSpec | frontend/src/components/UploadGameModal.jsx:171-176 | `handleRemoveUpload` drops exactly the uploads with that id, keeps the others in order with everything but their numbers, and numbers them 1..n |
| UploadModal.ArrayMove | frontend/src/components/UploadGameModal.jsx:91 | `arrayMove` keeps length and elements, puts the element from the source index (-1 meaning the last) at the target index, and leaves the others in order |
| UploadModal.MoveAt | frontend/src/components/UploadGameModal.jsx:91 | moving one element keeps length and elements and leaves the others in order |
| UploadModal.InsertAt | frontend/src/components/UploadGameModal.jsx:91 | inserting puts the element at the index and the rest around it unchanged |
| UploadModal.IndexOfId | frontend/src/components/UploadGameModal.jsx:89-90 | `findIndex`: the index of an upload with that id, or -1 when there is none |
| UploadModal.DragEnd | frontend/src/components/UploadGameModal.jsx:86-96 | no target, or a drop on itself, changes nothing; otherwise the list keeps its length and is numbered 1..n |
| UploadModal.IdsRenumber | frontend/src/components/UploadGameModal.jsx:91-94 | renumbering does not change the ids |
| UploadModal.IdsWithout | frontend/src/components/UploadGameModal.jsx:91 | taking out one upload takes out its id |
| UploadModal.DragEndMoves | frontend/src/components/UploadGameModal.jsx:86-96 | when both ids are in the list, the dragged upload lands, renumbered, where the target was and the rest keep their order |
| UploadModal.PickedAppends | frontend/src/components/UploadGameModal.jsx:184-237 | an MP4 file whose name is free is appended, numbered after the queue and the files before it |
| UploadModal.PickedStep | frontend/src/components/UploadGameModal.jsx:183-238 | one loop turn adds the file exactly when it is an MP4 with a free name |
| UploadModal.InvalidStep | frontend/src/components/UploadGameModal.jsx:199-221 | one loop turn counts the file as invalid exactly when it is not an MP4 |
| UploadModal.CollectPicked | frontend/src/components/UploadGameModal.jsx:183-238 | the picking loop collects exactly the MP4 files with free names and counts the rejected ones; invalid, duplicate and collected add up to the files given |
| UploadModal.SliceTo | frontend/src/components/UploadGameModal.jsx:203-242 | `slice(0, end)` is a prefix, of length min(end, n) for a non-negative end |
| UploadModal.FallbackInputChange | frontend/src/components/UploadGameModal.jsx:179-207 | the hidden input adds a prefix of the collected files, as many as the free slots allow, never past five queued, and warns exactly when some were cut; the invalid count is the number of non-MP4 files |
| UploadModal.FileSelect | frontend/src/components/UploadGameModal.jsx:208-246 | nothing is added at five queued; otherwise the collected files cut to exactly the free slots |
| UploadModal.PickedUploadsSpec | frontend/src/components/UploadGameModal.jsx:183-238 | the collected uploads are MP4 files from the selection, with distinct names none of which is queued, pending and numbered after the queue |
| UploadModal.DroppedUploads | frontend/src/components/UploadGameModal.jsx:377-412 | one pending upload per chosen file, numbered after the queue in order |
| UploadModal.Drop | frontend/src/components/UploadGameModal.jsx:333-415 | nothing is added without a free slot; otherwise the drop candidates cut to the free slots, so the queue never passes five |
| UploadModal.CandidatesSpec | frontend/src/components/UploadGameModal.jsx:339-373 | the drop candidates are dropped MP4 files (by type or an ".mp4" name in any case) with distinct fingerprints none of which is queued |
| UploadModal.Submit | frontend/src/components/UploadGameModal.jsx:441-451 | nothing is submitted without a valid date or with a blank players field; otherwise every pending upload's id is submitted, and only those |
| UploadModal.SeedStats | frontend/src/components/UploadGameModal.jsx:278-283 | a game without stats gets 100 rows with import sequence 1..100, rally 1, set 1, score 0-0, the game and team ids; a game with stats gets none |
| UploadModal.NewGamePayload | frontend/src/components/UploadGameModal.jsx:62-75 | the inserted game's title is "<date> Game <nextN>" and its players are the parsed names |
| UploadModal.EnsureNextGameRow | frontend/src/components/UploadGameModal.jsx:53-80 | an existing row with the new title is reused, else the inserted row; with neither it fails; the result carries nextN and its title |
| GameSelector.StatusColor | frontend/src/components/GameSelector.jsx:2-6 | green exactly when the game has timestamps and is scored, yellow exactly when it has timestamps but is not scored, red exactly when it has no timestamps |
| GameSelector.Options | frontend/src/components/GameSelector.jsx:13-28 | one entry per game in order, carrying its id and title, then "New game..." last exactly when the upload entry is not hidden |
| GameSelector.TooltipDistinguishes | frontend/src/components/GameSelector.jsx:17-21 | two games get the same tooltip exactly when they get the same colour |
| GameSelector.OptionValues | frontend/src/components/GameSelector.jsx:13-28 | an option has value v exactly when a game has id v, or v is "upload-new" and the upload entry is shown |
| VideoTimes.TimeIn | frontend/src/utils/videoTimes.js:11-17 | a falsy id reads 0; a non-zero reading is the finite time stored under that id |
| VideoTimes.GetAfterPut | frontend/src/utils/videoTimes.js:11-24 | after storing a finite time under a truthy id, reading that id gives the time back |
| VideoTimes.GetAfterPutNotFinite | frontend/src/utils/videoTimes.js:11-24 | a stored value whose number is not finite reads back as 0 |
| VideoTimes.GetAfterDelete | frontend/src/utils/videoTimes.js:11-31 | after clearing an id it reads as 0 |
| VideoTimes.OtherIdsUnchanged | frontend/src/utils/videoTimes.js:19-31 | storing or clearing one id leaves what every other id reads as it was |
| VideoTimes.VideoTimeStore.constructor | frontend/src/utils/videoTimes.js:1-9 | the store starts with what local storage holds, unreadable as None |
| VideoTimes.VideoTimeStore.GetVideoTime | frontend/src/utils/videoTimes.js:3-17 | `getVideoTime` returns exactly TimeIn of the table read back, an unreadable one as empty |
| VideoTimes.VideoTimeStore.SetVideoTime | frontend/src/utils/videoTimes.js:19-24 | with a falsy id nothing is written; otherwise the stored table is the old one with the id set |
| VideoTimes.VideoTimeStore.ClearVideoTime | frontend/src/utils/videoTimes.js:26-31 | with a falsy id nothing is written; otherwise the stored table is the old one without the id |
| LocalFiles.MakeGameKeyInjective | frontend/src/utils/localFiles.js:54 | for team ids of one length the key determines the team and the title |
| LocalFiles.MakeGameKeyCollision | frontend/src/utils/localFiles.js:54 | with team ids of different lengths two games can share a key |
| LocalFiles.EntriesDistinct | frontend/src/utils/localFiles.js:56-95 | the "key:" and "game:" entries never meet, and each is one entry per key or id |
| LocalFiles.SafeKey | frontend/src/utils/localFiles.js:129-131 | `safeKey` keeps the length, replaces exactly the characters outside letters, digits, '.', '_' and '-' by '_' and keeps the others |
| LocalFiles.SafeKeyKeepsSafe | frontend/src/utils/localFiles.js:129-131 | a key of safe characters only is its own safe form |
| LocalFiles.SafeKeyIdempotent | frontend/src/utils/localFiles.js:129-131 | sanitising twice is sanitising once |
| LocalFiles.SafeKeyCollision | frontend/src/utils/localFiles.js:129-145 | two keys that differ only in unsafe characters share one cache directory |
| LocalFiles.ReadPermitted | frontend/src/utils/localFiles.js:46-51 | reading is permitted exactly when the permission query or, failing it, the request answers 'granted' |
| LocalFiles.HandleStore.Lookup | frontend/src/utils/localFiles.js:15-24 | a found handle is the one stored under that entry |
| LocalFiles.HandleStore.constructor | frontend/src/utils/localFiles.js:4-14 | the store starts empty |
| LocalFiles.HandleStore.Put | frontend/src/utils/localFiles.js:25-34 | afterwards the entry holds the handle and every other entry reads as before |
| LocalFiles.HandleStore.Delete | frontend/src/utils/localFiles.js:35-44 | afterwards the entry reads as null and every other entry as before |
| LocalFiles.HandleStore.Has | frontend/src/utils/localFiles.js:61-99 | true exactly when a handle is stored |
| LocalFiles.HandleStore.UrlFor | frontend/src/utils/localFiles.js:65-107 | fails with 'no-handle' without a handle, with 'permission-denied' when reading is not permitted, and otherwise opens the stored handle |
| LocalFiles.HandleStore.Relink | frontend/src/utils/localFiles.js:73-119 | without a picker fails with 'picker-unavailable' and stores nothing; a cancelled picker fails with AbortError and stores nothing; otherwise stores and returns the picked file |
| LocalFiles.HandleStore.StoreFileHandleForKey | frontend/src/utils/localFiles.js:56-59 | the handle is stored under the key; other keys and every game id read as before |
| LocalFiles.HandleStore.HasFileHandleForKey | frontend/src/utils/localFiles.js:61-63 | true exactly when a handle is stored under the key |
| LocalFiles.HandleStore.UrlForKey | frontend/src/utils/localFiles.js:65-71 | 'no-handle', 'permission-denied', or the handle stored under the key |
| LocalFiles.HandleStore.RelinkForKey | frontend/src/utils/localFiles.js:73-83 | 'picker-unavailable' or, when cancelled, AbortError, changing nothing; or the picked file stored under the key |
| LocalFiles.HandleStore.RemoveFileHandleForKey | frontend/src/utils/localFiles.js:85-87 | nothing is linked under the key afterwards; the game-id entries read as before |
| LocalFiles.HandleStore.StoreFileHandleForGame | frontend/src/utils/localFiles.js:93-95 | the handle is stored under the game id; the game-key entries read as before |
| LocalFiles.HandleStore.HasFileHandleForGame | frontend/src/utils/localFiles.js:97-99 | true exactly when a handle is stored under the game id |
| LocalFiles.HandleStore.UrlForGame | frontend/src/utils/localFiles.js:101-107 | 'no-handle', 'permission-denied', or the handle stored under the game id |
| LocalFiles.HandleStore.RelinkForGame | frontend/src/utils/localFiles.js:109-119 | 'picker-unavailable' or, when cancelled, AbortError, changing nothing; or the picked file stored under the game id |
| LocalFiles.HandleStore.RemoveFileHandleForGame | frontend/src/utils/localFiles.js:121-123 | nothing is linked under the game id afterwards; the game-key entries read as before |
| LocalFiles.PrivateFiles.constructor | frontend/src/utils/localFiles.js:133-140 | whether the private file system is supported, and no "videos" directory yet |
| LocalFiles.PrivateFiles.CacheOPFSForKey | frontend/src/utils/localFiles.js:142-149 | unsupported fails with 'opfs-unsupported' changing nothing; otherwise the copy is stored in the directory named by the safe key, "videos" created on demand |
| LocalFiles.PrivateFiles.OpfsUrlForKey | frontend/src/utils/localFiles.js:151-160 | 'opfs-unsupported', the missing "videos" directory's NotFoundError, 'opfs-miss', or exactly the copy stored under the safe key |
| LocalFiles.PrivateFiles.HasOPFSForKey | frontend/src/utils/localFiles.js:162-164 | true exactly when opening the copy would succeed |
| LocalFiles.PrivateFiles.RemoveOPFSForKey | frontend/src/utils/localFiles.js:166-170 | the copy under the safe key is gone; a missing directory is not an error, a missing "videos" directory is |
| Postgrest.NamePrefix | frontend/src/utils/postgrest.js:30-43 | one dot-free name and a dot start another name and a dot only when the names agree |
| Postgrest.PrefixFree | frontend/src/utils/postgrest.js:30-43 | no operator's name and dot start the encoding of another operator |
| Postgrest.DecodeFromEncode | frontend/src/utils/postgrest.js:30-43 | scanning the operators finds the one a filter was encoded with, and its value |
| Postgrest.DecodeEncode | frontend/src/utils/postgrest.js:30-38 | every `op.eq` … `op.ilike` value reads back as its operator and value |
| Postgrest.InList | frontend/src/utils/postgrest.js:39 | `op.in` reads back as an `in` filter on the elements joined by ',' inside parentheses |
| Postgrest.InListRoundTrip | frontend/src/utils/postgrest.js:39 | a non-empty list of comma-free values comes back from `op.in` unchanged |
| Postgrest.IsConstants | frontend/src/utils/postgrest.js:40-42 | `op.isNull`, `op.isTrue`, `op.isFalse` are `is` filters on null, true and false |
| Postgrest.IndexOfName | frontend/src/utils/postgrest.js:23 | the index of the first pair with that name, or -1 when there is none |
| Postgrest.SearchSet | frontend/src/utils/postgrest.js:23 | `searchParams.set` appends the pair when the name is new |
| Postgrest.KeptParams | frontend/src/utils/postgrest.js:22-24 | never more pairs than parameters, each a parameter with a value |
| Postgrest.KeptParamsSpec | frontend/src/utils/postgrest.js:22-24 | a pair is sent exactly when it is a parameter whose value is neither undefined nor null |
| Postgrest.KeptStep | frontend/src/utils/postgrest.js:22-24 | one more parameter adds its pair exactly when it has a value |
| Postgrest.NotYetSet | frontend/src/utils/postgrest.js:22-24 | with each name once, no earlier parameter has set this one's name |
| Postgrest.BuildURL | frontend/src/utils/postgrest.js:19-27 | `buildURL` addresses the resource under the API URL and sends exactly the parameters with values, in order; none without parameters |
| Postgrest.PreferOrRepresentation | frontend/src/utils/postgrest.js:57-77 | only a missing prefer option becomes "return=representation"; a given one, even empty, stays |
| Postgrest.Post | frontend/src/utils/postgrest.js:50-59 | `api.post` always sends a JSON array: one row is wrapped, an array is sent as it is |
| Postgrest.PreferDefaults | frontend/src/utils/postgrest.js:47-87 | without a Prefer option or header, inserts and updates ask for the rows back and reads and deletes send no Prefer; an empty Prefer option sends none |
| Postgrest.FiltersKept | frontend/src/utils/postgrest.js:47-87 | reads, updates and deletes send exactly the filters that have values, the same way |
| Postgrest.Respond | frontend/src/utils/postgrest.js:9-15 | a non-OK status throws, with the body text when there is one, else the status text; a response that is not JSON gives null; otherwise its JSON |
| Rows.FindIndex | frontend/src/components/EditableCell.jsx:152 | `findIndex` by id: the first row with that id, or -1 when no row has it |

## Left out

- Network, storage and media are not modelled as I/O: `fetch`, IndexedDB, the origin-private file system, `localStorage`, the file pickers and the `<video>` element become parameters, outcomes or map and field values.
- Promises, `await`, timers and `requestAnimationFrame` are replaced by explicit events. The custom-playback chain is a state machine, and the 2100 ms stat-update suppression and the control, volume and double-tap timers are not modelled.
- DOM measurement and layout side effects are left out: ResizeObserver, `getBoundingClientRect`, autofit, scroll sync, the window event bus and row-height measuring. The row-height table takes measured heights as inputs.
- Floating point is modelled as exact `real`. NaN is `None`, and `toFixed` formatting, the average and percentage strings of the summary, and the grand totals computed from them are left out.
- `JSON.parse`/`JSON.stringify` are left out. A stored value is already a parsed table, and `parseFloat` of a stored time is only its outcome (`Finite` or `NotFinite`).
- `URLSearchParams` percent-encoding and `URL.toString` are left out. A URL is its path and its list of query pairs.
- The domain shortcuts `Teams`, `Games`, `Stats` and `TeamMembers` in postgrest.js are left out. They only fill in arguments of `api.get`/`post`/`patch`/`del`.
- A rejection from `res.json()` and case-insensitive header names are left out. Header names are matched exactly.
- Postgrest.BuildURL requires distinct parameter names, which a JavaScript object always has.
- Common.Lower folds ASCII letters only, and `localeCompare` is modelled as code-unit order.
- How a number prints and how text reads as a number (`String(n)`, `Number(s)`) are function parameters of the filters, not definitions.
- MainPage.EvaluateText reads a range operand on a text column as '', where the source throws on `toLowerCase` of an object.
- MainPage.Compare orders values of one kind only. Each column holds one kind, so mixed number-to-string comparisons are not modelled.
- StatsSummary.CountOccurrences keeps `Num` and `Str` keys apart, where a JavaScript object would merge the number 1 and the string "1" into one key.
- StatsSummary.NamedStats treats a missing player like `null`, where the source's `!== null` lets `undefined` through.
- RallyTimes.Window states bounds on the window rather than its exact padding. The exact padding is pinned by RallyTimes.TwoTouchRally.
- EditableCell.StatsTable.CommitEdit takes a number cell's entry already parsed, and a non-numeric entry arrives as blank. In the source `parseInt`/`parseFloat` give NaN there, and NaN never compares equal, so such an entry is never a no-op, even from an empty cell. The source then stores NaN in the cell. A score cascade counts on from NaN, a set cascade copies NaN to every later row, and a rally cascade numbers from NaN. The PATCH bodies carry null. The model instead treats the entry as blank: no-op from an empty cell, the previous row's score, a null set and rally 1.
- EditableCell.ScoreCascade does not model the first write of the typed score, which the cascade overwrites in the same pass.
- Templates, CSS, rendering, toasts and drag sensors are left out.
- Upload metadata (`game_group_id`), the progress and cancel flags, and the target file name of an upload are left out.
- The network flow of `handleSubmit` is left out. Its game-row lookup is EnsureNextGameRow, its placeholder rows are SeedStats, and its handle and copy storage is the LocalFiles classes.
- UploadModal.DragEnd is modelled on the list it is given, the pending uploads. The screen passes that filtered list and writes the result back as the whole queue.
- The picker's `getFile()` calls and the drop handler's handle and file lookups are left out. Each item arrives as the file it yields, or none.
- The settings modal, team roster, team management, sidebar and routing components are not part of this model.
- PlaybackSession.PlaybackDriver runs the loop with the session check. The loop as written, which checks only the cancelled flag, is PlaybackSession.Step with `AsWritten` (see Findings).
- PlaybackSession.Stop always has the video element. Without one the source skips only the listener removal, and there is no stored listener then anyway.

## Findings

| source | as written | input that shows it | evidently intended | confidence | as-written member | corrected member |
|---|---|---|---|---|---|---|
| frontend/src/components/VideoPlayer.jsx:61-83 | the loop of `playCustomSequences` checks only the cancelled flag. A rejected `play()` resolves the await, so a superseded loop goes on to its next window | reel A = [(10, 20), (30, 40)] starts; reel B = [(50, 60)] starts while A waits on `play()`; A's `play()` is then rejected. A seeks the video to 30 and stores its listener over B's | a loop whose session is over stops and leaves the video and the stored listener alone | medium, not executed | PlaybackSession.SupersededChainSeeks | PlaybackSession.SupersededChainInert, PlaybackSession.SupersededChainQuiet |
