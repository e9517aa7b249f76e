/**
 * The "Register New Game" dialog: the date check, the next game number and
 * title for that date, the players list, the queue of picked or dropped MP4
 * files (at most five, numbered 1..n in list order), and what submitting does
 * before the network is involved.
 */
module UploadModal {
  import opened Common
  import opened Lists

  // ---------------------------------------------------------------------
  // Dates

  /** /^\d{4}-\d{2}-\d{2}$/: four digits, a dash, two digits, a dash, two digits. */
  predicate DateShape(d: string) {
    |d| == 10 && d[4] == '-' && d[7] == '-'
    && IsDigit(d[0]) && IsDigit(d[1]) && IsDigit(d[2]) && IsDigit(d[3])
    && IsDigit(d[5]) && IsDigit(d[6]) && IsDigit(d[8]) && IsDigit(d[9])
  }

  /** The three numbers `d.split('-').map(Number)` yields on a string of that shape. */
  function Year(d: string): nat
    requires DateShape(d)
  {
    DigitsValue(d[..4])
  }

  function Month(d: string): nat
    requires DateShape(d)
  {
    DigitsValue(d[5..7])
  }

  function Day(d: string): nat
    requires DateShape(d)
  {
    DigitsValue(d[8..])
  }

  predicate LeapYear(y: int) {
    y % 4 == 0 && (y % 100 != 0 || y % 400 == 0)
  }

  function DaysInMonth(y: int, m: int): int
    requires 1 <= m <= 12
  {
    [31, if LeapYear(y) then 29 else 28, 31, 30, 31, 30, 31, 31, 30, 31, 30, 31][m - 1]
  }

  /** `isValidISODate`. */
  predicate IsValidISODate(d: string) {
    DateShape(d) && 1 <= Month(d) <= 12 && 1 <= Day(d) <= DaysInMonth(Year(d), Month(d))
  }

  /** The Gregorian calendar, month by month: an independent statement of which dates exist. */
  predicate CalendarDate(y: int, m: int, day: int) {
    1 <= m <= 12 && 1 <= day
    && (day <= 28
        || (day == 29 && (m != 2 || LeapYear(y)))
        || (day == 30 && m != 2)
        || (day == 31 && (m == 1 || m == 3 || m == 5 || m == 7 || m == 8 || m == 10 || m == 12)))
  }

  function Pow10(w: nat): nat {
    if w == 0 then 1 else 10 * Pow10(w - 1)
  }

  /** `n` written in exactly `w` decimal digits, zero-padded on the left. */
  function Pad(n: nat, w: nat): (r: string)
    ensures |r| == w
    ensures forall i :: 0 <= i < |r| ==> IsDigit(r[i])
  {
    if w == 0 then [] else Pad(n / 10, w - 1) + [DigitChar(n % 10)]
  }

  /** YYYY-MM-DD with zero padding. */
  function FormatDate(y: nat, m: nat, day: nat): string {
    Pad(y, 4) + "-" + Pad(m, 2) + "-" + Pad(day, 2)
  }

  lemma DigitsValueSnoc(s: string, c: char)
    requires forall i :: 0 <= i < |s| ==> IsDigit(s[i])
    requires IsDigit(c)
    ensures DigitsValue(s + [c]) == DigitsValue(s) * 10 + (c as int - '0' as int)
  {
    assert (s + [c])[..|s|] == s;
  }

  /** Reading a padded numeral back gives the number, when it fits in the width. */
  lemma {:induction false} PadValue(n: nat, w: nat)
    requires n < Pow10(w)
    ensures DigitsValue(Pad(n, w)) == n
  {
    if w > 0 {
      PadValue(n / 10, w - 1);
      DigitsValueSnoc(Pad(n / 10, w - 1), DigitChar(n % 10));
    }
  }

  /** A string of digits is the padded numeral of its own value. */
  lemma {:induction false} DigitsPad(s: string)
    requires forall i :: 0 <= i < |s| ==> IsDigit(s[i])
    ensures DigitsValue(s) < Pow10(|s|) && Pad(DigitsValue(s), |s|) == s
  {
    if s != [] {
      var init := s[..|s| - 1];
      DigitsPad(init);
      var v := DigitsValue(init);
      var d := s[|s| - 1] as int - '0' as int;
      assert DigitsValue(s) == v * 10 + d;
      assert (v * 10 + d) / 10 == v && (v * 10 + d) % 10 == d;
      assert s == init + [s[|s| - 1]];
    }
  }

  lemma FormatDateFields(y: nat, m: nat, day: nat)
    requires y < 10000 && m < 100 && day < 100
    ensures DateShape(FormatDate(y, m, day))
    ensures Year(FormatDate(y, m, day)) == y && Month(FormatDate(y, m, day)) == m && Day(FormatDate(y, m, day)) == day
  {
    var d := FormatDate(y, m, day);
    assert d[..4] == Pad(y, 4);
    assert d[5..7] == Pad(m, 2);
    assert d[8..] == Pad(day, 2);
    assert Pow10(2) == 100 && Pow10(4) == 10000;
    PadValue(y, 4);
    PadValue(m, 2);
    PadValue(day, 2);
  }

  /** A zero-padded date is accepted exactly when it exists in the calendar. */
  lemma FormatDateValid(y: nat, m: nat, day: nat)
    requires y < 10000 && m < 100 && day < 100
    ensures IsValidISODate(FormatDate(y, m, day)) <==> CalendarDate(y, m, day)
  {
    FormatDateFields(y, m, day);
  }

  /** Every accepted string is the zero-padded form of a calendar date. */
  lemma ValidDateIsCalendarDate(d: string)
    requires IsValidISODate(d)
    ensures Year(d) < 10000 && Month(d) < 100 && Day(d) < 100
    ensures d == FormatDate(Year(d), Month(d), Day(d))
    ensures CalendarDate(Year(d), Month(d), Day(d))
  {
    DigitsPad(d[..4]);
    DigitsPad(d[5..7]);
    DigitsPad(d[8..]);
    assert Pow10(2) == 100 && Pow10(4) == 10000;
    assert d == d[..4] + "-" + d[5..7] + "-" + d[8..];
  }

  /** 29 February is accepted exactly in leap years. */
  lemma LeapDayValid(y: nat)
    requires y < 10000
    ensures IsValidISODate(FormatDate(y, 2, 29)) <==> LeapYear(y)
  {
    FormatDateValid(y, 2, 29);
  }

  // ---------------------------------------------------------------------
  // Game number and title

  /** The longest prefix of decimal digits: what `(\d+)` captures, greedily. */
  function LeadingDigits(s: string): (r: string)
    ensures r <= s
    ensures forall i :: 0 <= i < |r| ==> IsDigit(r[i])
    ensures |r| < |s| ==> !IsDigit(s[|r|])
  {
    if s != [] && IsDigit(s[0]) then [s[0]] + LeadingDigits(s[1..]) else []
  }

  /** /game\s*(\d+)/i matches at `i`: "game" in any case, white space, then at least one digit. */
  predicate MatchAt(t: string, i: nat) {
    i + 4 <= |t| && Lower(t[i..i + 4]) == "game"
    && var rest := TrimStart(t[i + 4..]); rest != [] && IsDigit(rest[0])
  }

  function CapturedAt(t: string, i: nat): nat
    requires MatchAt(t, i)
  {
    DigitsValue(LeadingDigits(TrimStart(t[i + 4..])))
  }

  /** The number captured by the leftmost match at or after `i`, or 0. */
  function GameNumFrom(t: string, i: nat): nat
    decreases |t| - i
  {
    if i + 4 > |t| then 0
    else if MatchAt(t, i) then CapturedAt(t, i)
    else GameNumFrom(t, i + 1)
  }

  /** `parseGameNumFromTitle`: a missing title reads as text with no match. */
  function ParseGameNum(title: Option<string>): nat {
    GameNumFrom(title.GetOr(""), 0)
  }

  /** The largest game number among the titles, 0 for none. */
  function MaxGameNum(titles: seq<Option<string>>): (m: nat)
    ensures forall i :: 0 <= i < |titles| ==> ParseGameNum(titles[i]) <= m
    ensures m == 0 || exists i :: 0 <= i < |titles| && ParseGameNum(titles[i]) == m
  {
    if titles == [] then 0
    else Max(MaxGameNum(titles[..|titles| - 1]), ParseGameNum(titles[|titles| - 1]))
  }

  /** `nextN`: one more than every game number already used on that date. */
  function NextGameNumber(titles: seq<Option<string>>): (n: nat)
    ensures n >= 1
    ensures forall i :: 0 <= i < |titles| ==> ParseGameNum(titles[i]) < n
    ensures n == 1 || exists i :: 0 <= i < |titles| && ParseGameNum(titles[i]) == n - 1
  {
    MaxGameNum(titles) + 1
  }

  /** "<date> Game <n>". */
  function GameTitle(date: string, n: nat): string {
    date + " Game " + NatText(n)
  }

  lemma NoMatchBefore(t: string, i: nat)
    requires i + 4 <= |t| && t[i] != 'g' && t[i] != 'G'
    ensures !MatchAt(t, i)
  {
    assert Lower(t[i..i + 4])[0] == LowerChar(t[i]);
  }

  lemma {:induction false} GameNumFromTitle(t: string, date: string, n: nat, i: nat)
    requires IsValidISODate(date) && t == GameTitle(date, n) && i <= 11
    ensures GameNumFrom(t, i) == n
    decreases 11 - i
  {
    if i < 11 {
      NoMatchBefore(t, i);
      GameNumFromTitle(t, date, n, i + 1);
    } else {
      var digits := NatText(n);
      assert t[11..15] == "Game";
      assert Lower("Game") == "game";
      assert t[15..] == " " + digits;
      assert TrimStart(" " + digits) == TrimStart(digits);
      assert TrimStart(digits) == digits;
      assert LeadingDigits(digits) == digits;
      DigitsValueNatText(n);
    }
  }

  /** The game number read back from a new title is the number it was made with. */
  lemma TitleRoundTrip(date: string, n: nat)
    requires IsValidISODate(date)
    ensures ParseGameNum(Some(GameTitle(date, n))) == n
  {
    GameNumFromTitle(GameTitle(date, n), date, n, 0);
  }

  /** A new game's title is not the title of any game already on that date. */
  lemma NewTitleIsFresh(date: string, titles: seq<Option<string>>)
    requires IsValidISODate(date)
    ensures forall i :: 0 <= i < |titles| ==> titles[i] != Some(GameTitle(date, NextGameNumber(titles)))
  {
    TitleRoundTrip(date, NextGameNumber(titles));
  }

  // ---------------------------------------------------------------------
  // Players

  function TrimEach(parts: seq<string>): seq<string> {
    Map(parts, Trim)
  }

  predicate NonEmpty(s: string) {
    s != ""
  }

  /** `parsePlayers`: the comma-separated names, trimmed, empty ones dropped. */
  function ParsePlayers(value: string): seq<string> {
    Filter(TrimEach(Split(value, ',')), NonEmpty)
  }

  /** Every parsed name is non-empty and has no white space at either end. */
  lemma ParsePlayersTrimmed(value: string)
    ensures forall x :: x in ParsePlayers(value) ==> x != "" && Trim(x) == x
  {
    var parts := Split(value, ',');
    forall x | x in ParsePlayers(value) ensures x != "" && Trim(x) == x {
      var j :| 0 <= j < |parts| && TrimEach(parts)[j] == x;
      TrimIdempotent(parts[j]);
    }
  }

  /** A name with no white space at either end and no comma. */
  predicate CleanName(n: string) {
    n != "" && Trim(n) == n && ',' !in n
  }

  /** The parts of `Join(names, ", ")` as split on ',': a space before every name but the first. */
  function Spaced(names: seq<string>): seq<string>
    requires |names| >= 1
  {
    [names[0]] + seq(|names| - 1, i requires 0 <= i < |names| - 1 => " " + names[i + 1])
  }

  lemma {:induction false} JoinSpaced(names: seq<string>)
    requires |names| >= 1
    ensures Join(names, ", ") == Join(Spaced(names), ",")
  {
    if |names| > 1 {
      JoinSpaced(names[1..]);
      var rest := Spaced(names[1..]);
      assert Spaced(names) == [names[0]] + ([" " + rest[0]] + rest[1..]);
      assert Join(rest, ",") == if |rest| == 1 then rest[0] else rest[0] + "," + Join(rest[1..], ",");
      var sp := Spaced(names);
      assert sp[1..] == [" " + rest[0]] + rest[1..];
      assert Join(sp[1..], ",") == " " + Join(rest, ",") by {
        if |rest| > 1 {
          assert (sp[1..])[1..] == rest[1..];
        }
      }
    }
  }

  lemma TrimLeadingSpace(n: string)
    requires CleanName(n)
    ensures Trim(" " + n) == n
  {
    assert (" " + n)[1..] == n;
    TrimStartFixed(n);
    TrimEndFixed(n);
  }

  lemma {:induction false} FilterAll<T(!new)>(s: seq<T>, p: T -> bool)
    requires forall i :: 0 <= i < |s| ==> p(s[i])
    ensures Filter(s, p) == s
  {
    if s != [] {
      FilterAll(s[1..], p);
    }
  }

  /** Each part of the spaced list has no comma and trims back to its name. */
  lemma SpacedParts(names: seq<string>)
    requires |names| >= 1
    requires forall i :: 0 <= i < |names| ==> CleanName(names[i])
    ensures forall i :: 0 <= i < |names| ==> ',' !in Spaced(names)[i]
    ensures TrimEach(Spaced(names)) == names
  {
    var sp := Spaced(names);
    forall i | 0 <= i < |sp| ensures ',' !in sp[i] && Trim(sp[i]) == names[i] {
      if i == 0 {
        TrimStartFixed(names[0]);
        TrimEndFixed(names[0]);
      } else {
        assert sp[i] == " " + names[i];
        TrimLeadingSpace(names[i]);
      }
    }
  }

  /** Typing the names separated by ", " gives the same names back. */
  lemma ParsePlayersRoundTrip(names: seq<string>)
    requires |names| >= 1
    requires forall i :: 0 <= i < |names| ==> CleanName(names[i])
    ensures ParsePlayers(Join(names, ", ")) == names
  {
    JoinSpaced(names);
    SpacedParts(names);
    SplitJoin(Spaced(names), ',');
    FilterAll(names, NonEmpty);
  }

  // ---------------------------------------------------------------------
  // The upload queue

  datatype FileInfo = FileInfo(name: string, fileType: string, size: nat, lastModified: nat)

  datatype Status = Pending | Success | Failed

  /** One queued file: its id, the file, whether a file handle came with it, its game number and status. */
  datatype Upload = Upload(id: string, file: FileInfo, hasHandle: bool, setNumber: nat, status: Status)

  /** What every new upload's id and metadata are made from. */
  datatype UploadContext = UploadContext(date: string, players: string, userId: Option<string>)

  /** The id of a local upload: its parts joined by '-'; an absent user id joins as ''. */
  function LocalId(f: FileInfo, setNumber: nat, ctx: UploadContext): string {
    Join(["local", f.name, f.fileType, NatText(f.size), NatText(f.lastModified),
          ctx.date, ctx.players, ctx.userId.GetOr(""), NatText(setNumber)], "-")
  }

  function NewUpload(f: FileInfo, hasHandle: bool, setNumber: nat, ctx: UploadContext): Upload {
    Upload(LocalId(f, setNumber, ctx), f, hasHandle, setNumber, Pending)
  }

  /** `map((upload, idx) => ({ ...upload, setNumber: idx + 1 }))`. */
  function Renumber(us: seq<Upload>): (r: seq<Upload>)
    ensures |r| == |us|
    ensures forall i :: 0 <= i < |r| ==> r[i] == us[i].(setNumber := i + 1)
  {
    seq(|us|, i requires 0 <= i < |us| => us[i].(setNumber := i + 1))
  }

  function UploadIds(us: seq<Upload>): seq<string> {
    Map(us, (u: Upload) => u.id)
  }

  function NotId(id: string): Upload -> bool {
    (u: Upload) => u.id != id
  }

  /** `handleRemoveUpload`. */
  function RemoveUpload(uploads: seq<Upload>, id: string): seq<Upload> {
    Renumber(Filter(uploads, NotId(id)))
  }

  lemma {:induction false} IdsOfFilter(us: seq<Upload>, id: string)
    ensures UploadIds(Filter(us, NotId(id))) == Filter(UploadIds(us), x => x != id)
  {
    if us != [] {
      IdsOfFilter(us[1..], id);
      assert UploadIds(us)[1..] == UploadIds(us[1..]);
    }
  }

  /**
   * Removing drops exactly the uploads with that id, keeps the others in order
   * with everything but their numbers, and numbers them 1..n.
   */
  lemma RemoveUploadSpec(uploads: seq<Upload>, id: string)
    ensures var r := RemoveUpload(uploads, id);
      && UploadIds(r) == Filter(UploadIds(uploads), x => x != id)
      && (forall i :: 0 <= i < |r| ==> r[i].setNumber == i + 1)
      && (forall i :: 0 <= i < |r| ==> exists u :: u in uploads && r[i] == u.(setNumber := i + 1))
  {
    var kept := Filter(uploads, NotId(id));
    var r := RemoveUpload(uploads, id);
    IdsOfFilter(uploads, id);
    assert UploadIds(r) == UploadIds(kept);
    forall i | 0 <= i < |r| ensures exists u :: u in uploads && r[i] == u.(setNumber := i + 1) {
      assert kept[i] in kept;
    }
  }

  /** The sequence with the element at `k` taken out. */
  function Without<T>(s: seq<T>, k: nat): seq<T>
    requires k < |s|
  {
    s[..k] + s[k + 1..]
  }

  /**
   * `arrayMove(a, from, to)`: take out the element at `from` and insert it at
   * `to`. An index of -1 (not found) means the last position.
   */
  function ArrayMove<T>(a: seq<T>, from: int, to: int): (r: seq<T>)
    requires |a| > 0 && -1 <= from < |a| && -1 <= to < |a|
    ensures |r| == |a| && multiset(r) == multiset(a)
    ensures var f := if from < 0 then |a| - 1 else from;
            var t := if to < 0 then |a| - 1 else to;
            r[t] == a[f] && Without(r, t) == Without(a, f)
  {
    var f := if from < 0 then |a| - 1 else from;
    var t := if to < 0 then |a| - 1 else to;
    MoveAt(a, f, t)
  }

  function MoveAt<T>(a: seq<T>, f: nat, t: nat): (r: seq<T>)
    requires f < |a| && t < |a|
    ensures |r| == |a| && multiset(r) == multiset(a)
    ensures r[t] == a[f] && Without(r, t) == Without(a, f)
  {
    var rest := Without(a, f);
    WithoutMultiset(a, f);
    InsertAt(rest, a[f], t)
  }

  /** Putting `x` in at `t`. */
  function InsertAt<T>(s: seq<T>, x: T, t: nat): (r: seq<T>)
    requires t <= |s|
    ensures |r| == |s| + 1 && r[t] == x && Without(r, t) == s
    ensures multiset(r) == multiset(s) + multiset{x}
  {
    assert s == s[..t] + s[t..];
    var r := s[..t] + [x] + s[t..];
    assert r[..t] == s[..t] && r[t + 1..] == s[t..];
    r
  }

  lemma WithoutMultiset<T>(a: seq<T>, f: nat)
    requires f < |a|
    ensures multiset(a) == multiset(Without(a, f)) + multiset{a[f]}
  {
    assert a == a[..f] + [a[f]] + a[f + 1..];
  }

  function IndexOfId(us: seq<Upload>, id: string): (i: int)
    ensures -1 <= i < |us|
    ensures i >= 0 ==> us[i].id == id
    ensures i == -1 ==> forall j :: 0 <= j < |us| ==> us[j].id != id
  {
    FindIndexBy(us, (u: Upload) => u.id == id)
  }

  /**
   * `handleDragEnd`: no target, or dropped on itself, changes nothing; otherwise
   * the dragged upload moves to the target's place and all are renumbered.
   */
  function DragEnd(uploads: seq<Upload>, active: string, over: Option<string>): (r: seq<Upload>)
    ensures over.None? || over.value == active ==> r == uploads
    ensures |r| == |uploads|
    ensures over.Some? && over.value != active ==> forall i :: 0 <= i < |r| ==> r[i].setNumber == i + 1
  {
    if over.None? || active == over.value || uploads == [] then uploads
    else Renumber(ArrayMove(uploads, IndexOfId(uploads, active), IndexOfId(uploads, over.value)))
  }

  lemma IdsRenumber(us: seq<Upload>)
    ensures UploadIds(Renumber(us)) == UploadIds(us)
  {
  }

  lemma IdsWithout(us: seq<Upload>, k: nat)
    requires k < |us|
    ensures Without(UploadIds(us), k) == UploadIds(Without(us, k))
  {
  }

  /** When both ids are in the list, the dragged upload lands where the target was and the rest keep their order. */
  lemma DragEndMoves(uploads: seq<Upload>, active: string, over: string)
    requires active != over
    requires IndexOfId(uploads, active) >= 0 && IndexOfId(uploads, over) >= 0
    ensures var r := DragEnd(uploads, active, Some(over));
      var f := IndexOfId(uploads, active);
      var t := IndexOfId(uploads, over);
      && r[t] == uploads[f].(setNumber := t + 1)
      && Without(UploadIds(r), t) == Without(UploadIds(uploads), f)
  {
    var f := IndexOfId(uploads, active);
    var t := IndexOfId(uploads, over);
    var moved := ArrayMove(uploads, f, t);
    IdsRenumber(moved);
    IdsWithout(moved, t);
    IdsWithout(uploads, f);
  }

  // ---------------------------------------------------------------------
  // Adding files

  const MAX_UPLOADS: nat := 5

  predicate NameTaken(us: seq<Upload>, name: string) {
    exists i :: 0 <= i < |us| && us[i].file.name == name
  }

  predicate IsMp4Type(f: FileInfo) {
    f.fileType == "video/mp4"
  }

  /**
   * The uploads the picker loops collect from `files`: MP4 files whose name is
   * neither queued nor collected already, numbered after the queue.
   */
  function PickedUploads(uploads: seq<Upload>, files: seq<FileInfo>, hasHandle: bool, ctx: UploadContext): seq<Upload> {
    if files == [] then []
    else AddPicked(uploads, PickedUploads(uploads, files[..|files| - 1], hasHandle, ctx), files[|files| - 1], hasHandle, ctx)
  }

  /** One file's turn: `p` grows by the file unless it is not an MP4 or its name is taken. */
  function AddPicked(uploads: seq<Upload>, p: seq<Upload>, f: FileInfo, hasHandle: bool, ctx: UploadContext): seq<Upload> {
    if !IsMp4Type(f) || NameTaken(uploads, f.name) || NameTaken(p, f.name) then p
    else p + [NewUpload(f, hasHandle, |uploads| + |p| + 1, ctx)]
  }

  function NotMp4(): FileInfo -> bool {
    (f: FileInfo) => !IsMp4Type(f)
  }

  /** An MP4 file whose name is free is appended, numbered after the queue and the files before it. */
  lemma PickedAppends(uploads: seq<Upload>, p: seq<Upload>, f: FileInfo, hasHandle: bool, ctx: UploadContext)
    requires IsMp4Type(f) && !NameTaken(uploads, f.name) && !NameTaken(p, f.name)
    ensures AddPicked(uploads, p, f, hasHandle, ctx) == p + [NewUpload(f, hasHandle, |uploads| + |p| + 1, ctx)]
  {
  }

  lemma PickedStep(uploads: seq<Upload>, files: seq<FileInfo>, i: nat, hasHandle: bool, ctx: UploadContext)
    requires i < |files|
    ensures PickedUploads(uploads, files[..i + 1], hasHandle, ctx)
      == AddPicked(uploads, PickedUploads(uploads, files[..i], hasHandle, ctx), files[i], hasHandle, ctx)
  {
    assert files[..i + 1][..i] == files[..i];
  }

  lemma InvalidStep(files: seq<FileInfo>, i: nat)
    requires i < |files|
    ensures |Filter(files[..i + 1], NotMp4())| == |Filter(files[..i], NotMp4())| + (if IsMp4Type(files[i]) then 0 else 1)
  {
    assert files[..i + 1] == files[..i] + [files[i]];
    FilterAppend(files[..i], [files[i]], NotMp4());
    assert Filter([files[i]], NotMp4()) == if IsMp4Type(files[i]) then [] else [files[i]];
  }

  /** The loop shared by the picker and the hidden file input: collects, counting the rejected files. */
  method CollectPicked(uploads: seq<Upload>, files: seq<FileInfo>, hasHandle: bool, ctx: UploadContext)
    returns (picked: seq<Upload>, invalidCount: nat, duplicateCount: nat)
    ensures picked == PickedUploads(uploads, files, hasHandle, ctx)
    ensures invalidCount == |Filter(files, NotMp4())|
    ensures invalidCount + duplicateCount + |picked| == |files|
  {
    picked, invalidCount, duplicateCount := [], 0, 0;
    for i := 0 to |files|
      invariant picked == PickedUploads(uploads, files[..i], hasHandle, ctx)
      invariant invalidCount == |Filter(files[..i], NotMp4())|
      invariant invalidCount + duplicateCount + |picked| == i
    {
      var file := files[i];
      PickedStep(uploads, files, i, hasHandle, ctx);
      InvalidStep(files, i);
      if file.fileType != "video/mp4" {
        assert AddPicked(uploads, picked, file, hasHandle, ctx) == picked;
        invalidCount := invalidCount + 1;
      } else if NameTaken(uploads, file.name) || NameTaken(picked, file.name) {
        assert AddPicked(uploads, picked, file, hasHandle, ctx) == picked;
        duplicateCount := duplicateCount + 1;
      } else {
        PickedAppends(uploads, picked, file, hasHandle, ctx);
        picked := picked + [NewUpload(file, hasHandle, |uploads| + |picked| + 1, ctx)];
      }
    }
    assert files[..|files|] == files;
  }

  /** `validFiles.slice(0, end)`: a negative end counts from the back. */
  function SliceTo<T>(s: seq<T>, end: int): (r: seq<T>)
    ensures r <= s
    ensures end >= 0 ==> |r| == Min(end, |s|)
  {
    if end >= 0 then s[..Min(end, |s|)] else s[..Max(|s| + end, 0)]
  }

  /** The hidden file input's change handler: the collected files, cut to the free slots. */
  method FallbackInputChange(uploads: seq<Upload>, files: seq<FileInfo>, ctx: UploadContext)
    returns (toAdd: seq<Upload>, invalidCount: nat, tooMany: bool)
    ensures toAdd <= PickedUploads(uploads, files, false, ctx)
    ensures |uploads| <= MAX_UPLOADS ==> |uploads| + |toAdd| <= MAX_UPLOADS
    ensures tooMany <==> |toAdd| < |PickedUploads(uploads, files, false, ctx)|
    ensures |uploads| <= MAX_UPLOADS ==>
      |toAdd| == Min(MAX_UPLOADS - |uploads|, |PickedUploads(uploads, files, false, ctx)|)
    ensures invalidCount == |Filter(files, NotMp4())|
  {
    var validFiles, invalid, _ := CollectPicked(uploads, files, false, ctx);
    invalidCount := invalid;
    var remainingSlots := MAX_UPLOADS - |uploads|;
    toAdd := SliceTo(validFiles, remainingSlots);
    tooMany := |toAdd| < |validFiles|;
  }

  /** `handleFileSelect` once the picker returned: nothing at five queued, else the collected files cut to the free slots. */
  method FileSelect(uploads: seq<Upload>, files: seq<FileInfo>, ctx: UploadContext)
    returns (toAdd: seq<Upload>, invalidCount: nat, duplicateCount: nat)
    ensures |uploads| >= MAX_UPLOADS ==> toAdd == []
    ensures toAdd <= PickedUploads(uploads, files, true, ctx)
    ensures |uploads| + |toAdd| <= Max(MAX_UPLOADS, |uploads|)
    ensures |uploads| < MAX_UPLOADS ==> |toAdd| == Min(MAX_UPLOADS - |uploads|, |PickedUploads(uploads, files, true, ctx)|)
  {
    if |uploads| >= MAX_UPLOADS {
      return [], 0, 0;
    }
    var newUploads;
    newUploads, invalidCount, duplicateCount := CollectPicked(uploads, files, true, ctx);
    if |newUploads| == 0 {
      return [], invalidCount, duplicateCount;
    }
    toAdd := newUploads[..Min(MAX_UPLOADS - |uploads|, |newUploads|)];
  }

  /** MP4 files from `files` with distinct names, none already queued, pending and numbered after the queue. */
  predicate PickedWell(uploads: seq<Upload>, files: seq<FileInfo>, p: seq<Upload>) {
    && (forall i :: 0 <= i < |p| ==> IsMp4Type(p[i].file) && p[i].file in files && !NameTaken(uploads, p[i].file.name))
    && (forall i, j :: 0 <= i < j < |p| ==> p[i].file.name != p[j].file.name)
    && (forall i :: 0 <= i < |p| ==> p[i].setNumber == |uploads| + i + 1 && p[i].status == Pending)
  }

  /** What the pickers collect is well formed. */
  lemma {:induction false} PickedUploadsSpec(uploads: seq<Upload>, files: seq<FileInfo>, hasHandle: bool, ctx: UploadContext)
    ensures PickedWell(uploads, files, PickedUploads(uploads, files, hasHandle, ctx))
  {
    if files != [] {
      var init := files[..|files| - 1];
      PickedUploadsSpec(uploads, init, hasHandle, ctx);
      var p := PickedUploads(uploads, init, hasHandle, ctx);
      assert forall x :: x in init ==> x in files;
      assert files[|files| - 1] in files;
    }
  }

  /** A dropped item that yielded a file, and whether a file handle came with it. */
  datatype Dropped = Dropped(file: FileInfo, hasHandle: bool)

  /** `fpOf`: name, size and last-modified time. */
  datatype Fingerprint = Fingerprint(name: string, size: nat, lastModified: nat)

  function FingerprintOf(f: FileInfo): Fingerprint {
    Fingerprint(f.name, f.size, f.lastModified)
  }

  /** The drop handler's test: an MP4 type, or a name ending in ".mp4" in any case. */
  predicate IsMp4(f: FileInfo) {
    f.fileType == "video/mp4" || EndsWith(Lower(f.name), ".mp4")
  }

  function QueuedFingerprints(uploads: seq<Upload>): set<Fingerprint> {
    set u | u in uploads :: FingerprintOf(u.file)
  }

  function Fingerprints(ds: seq<Dropped>): set<Fingerprint> {
    set d | d in ds :: FingerprintOf(d.file)
  }

  /** The drop loop's candidates: MP4 files whose fingerprint is neither queued nor already a candidate. */
  function Candidates(queued: set<Fingerprint>, items: seq<Option<Dropped>>): seq<Dropped> {
    if items == [] then []
    else
      var c := Candidates(queued, items[..|items| - 1]);
      match items[|items| - 1]
      case None => c
      case Some(d) =>
        if !IsMp4(d.file) || FingerprintOf(d.file) in queued || FingerprintOf(d.file) in Fingerprints(c) then c
        else c + [d]
  }

  /** The new uploads for the chosen candidates, numbered after the queue. */
  function DroppedUploads(base: nat, chosen: seq<Dropped>, ctx: UploadContext): (r: seq<Upload>)
    ensures |r| == |chosen|
    ensures forall i :: 0 <= i < |r| ==> r[i] == NewUpload(chosen[i].file, chosen[i].hasHandle, base + i + 1, ctx)
  {
    seq(|chosen|, i requires 0 <= i < |chosen| => NewUpload(chosen[i].file, chosen[i].hasHandle, base + i + 1, ctx))
  }

  /** The drop handler: nothing with no free slot; else the candidates, cut to the free slots. */
  method Drop(uploads: seq<Upload>, items: seq<Option<Dropped>>, ctx: UploadContext)
    returns (toAdd: seq<Upload>, invalidCount: nat, duplicateCount: nat)
    ensures |uploads| >= MAX_UPLOADS ==> toAdd == []
    ensures |uploads| < MAX_UPLOADS ==>
      var c := Candidates(QueuedFingerprints(uploads), items);
      toAdd == DroppedUploads(|uploads|, c[..Min(MAX_UPLOADS - |uploads|, |c|)], ctx)
    ensures |uploads| + |toAdd| <= Max(MAX_UPLOADS, |uploads|)
  {
    var capacity := Max(0, MAX_UPLOADS - |uploads|);
    if capacity <= 0 {
      return [], 0, 0;
    }
    var queued := QueuedFingerprints(uploads);
    var seen := queued;
    var candidates: seq<Dropped> := [];
    invalidCount, duplicateCount := 0, 0;
    for i := 0 to |items|
      invariant candidates == Candidates(queued, items[..i])
      invariant seen == queued + Fingerprints(candidates)
    {
      assert items[..i + 1][..i] == items[..i];
      var item := items[i];
      if item.None? {
        continue;
      }
      var file := item.value.file;
      if !IsMp4(file) {
        invalidCount := invalidCount + 1;
        continue;
      }
      var fp := FingerprintOf(file);
      if fp in seen {
        duplicateCount := duplicateCount + 1;
        continue;
      }
      seen := seen + {fp};
      assert Fingerprints(candidates + [item.value]) == Fingerprints(candidates) + {fp};
      candidates := candidates + [item.value];
    }
    assert items[..|items|] == items;
    var chosen := candidates[..Min(capacity, |candidates|)];
    toAdd := DroppedUploads(|uploads|, chosen, ctx);
  }

  /** MP4 files dropped in `items`, with fingerprints that are distinct and not already queued. */
  predicate CandidatesWell(queued: set<Fingerprint>, items: seq<Option<Dropped>>, c: seq<Dropped>) {
    && (forall i :: 0 <= i < |c| ==> IsMp4(c[i].file) && FingerprintOf(c[i].file) !in queued && Some(c[i]) in items)
    && (forall i, j :: 0 <= i < j < |c| ==> FingerprintOf(c[i].file) != FingerprintOf(c[j].file))
  }

  /** What the drop loop collects is well formed. */
  lemma {:induction false} CandidatesSpec(queued: set<Fingerprint>, items: seq<Option<Dropped>>)
    ensures CandidatesWell(queued, items, Candidates(queued, items))
  {
    if items != [] {
      var init := items[..|items| - 1];
      CandidatesSpec(queued, init);
      var c := Candidates(queued, init);
      assert forall x :: x in init ==> x in items;
      assert items[|items| - 1] in items;
      forall i | 0 <= i < |c| ensures FingerprintOf(c[i].file) in Fingerprints(c) {
        assert c[i] in c;
      }
    }
  }

  // ---------------------------------------------------------------------
  // Submitting

  /** What the "Upload Game(s)" button does. */
  datatype SubmitOutcome = InvalidDate | MissingPlayers | NothingPending | SubmitEach(ids: seq<string>)

  predicate IsPending(u: Upload) {
    u.status == Pending
  }

  /** Nothing is submitted without a valid date and a non-blank players field; then every pending upload is, in order. */
  function Submit(date: string, players: string, uploads: seq<Upload>): (r: SubmitOutcome)
    ensures r == InvalidDate <==> !IsValidISODate(date)
    ensures r == MissingPlayers <==> IsValidISODate(date) && Trim(players) == ""
    ensures r.SubmitEach? ==> IsValidISODate(date) && Trim(players) != "" && r.ids != []
    ensures r.SubmitEach? ==> forall id :: id in r.ids <==> exists u :: u in uploads && IsPending(u) && u.id == id
  {
    if !IsValidISODate(date) then InvalidDate
    else if Trim(players) == "" then MissingPlayers
    else
      var pending := Filter(uploads, IsPending);
      if |pending| == 0 then NothingPending
      else
        var ids := UploadIds(pending);
        assert forall id :: id in ids <==> exists i :: 0 <= i < |pending| && pending[i].id == id;
        SubmitEach(ids)
  }

  /** A stats row posted for a game that has none. */
  datatype SeedRow = SeedRow(gameId: string, rallyId: int, ourScore: int, oppScore: int, setNumber: int, teamId: string, importSeq: int)

  const PLACEHOLDER_ROWS: nat := 100

  /** The rows a newly registered game gets when it has no stats yet. */
  function SeedStats(existingCount: nat, gameId: string, teamId: string): (r: seq<SeedRow>)
    ensures existingCount > 0 ==> r == []
    ensures existingCount == 0 ==> |r| == PLACEHOLDER_ROWS
    ensures forall i :: 0 <= i < |r| ==> r[i].importSeq == i + 1
    ensures forall i :: 0 <= i < |r| ==> r[i].rallyId == 1 && r[i].setNumber == 1 && r[i].ourScore == 0 && r[i].oppScore == 0
    ensures forall i :: 0 <= i < |r| ==> r[i].gameId == gameId && r[i].teamId == teamId
  {
    if existingCount > 0 then []
    else seq(PLACEHOLDER_ROWS, i requires 0 <= i < PLACEHOLDER_ROWS => SeedRow(gameId, 1, 0, 0, 1, teamId, i + 1))
  }

  /** The game row the upload is linked to. */
  datatype GameRowInfo = GameRowInfo(id: string, gameNumber: nat, title: string)

  /** The row posted when no game with the new title exists. */
  datatype GamePayload = GamePayload(teamId: string, date: string, title: string, videoUrl: string, players: seq<string>)

  function NewGamePayload(teamId: string, date: string, titles: seq<Option<string>>, players: string, fileName: string): (p: GamePayload)
    ensures p.title == GameTitle(date, NextGameNumber(titles))
    ensures p.players == ParsePlayers(players)
  {
    GamePayload(teamId, date, GameTitle(date, NextGameNumber(titles)), fileName, ParsePlayers(players))
  }

  /**
   * `ensureNextGameRow` given the lookups' answers: an existing row with the
   * new title is reused, else the inserted row is; with neither it fails.
   */
  function EnsureNextGameRow(date: string, titles: seq<Option<string>>, existingId: Option<string>, insertedId: Option<string>): (r: Option<GameRowInfo>)
    ensures r.None? <==> !Truthy(existingId) && !Truthy(insertedId)
    ensures r.Some? ==> r.value.gameNumber == NextGameNumber(titles) && r.value.title == GameTitle(date, r.value.gameNumber)
    ensures Truthy(existingId) ==> r.Some? && r.value.id == existingId.value
    ensures !Truthy(existingId) && Truthy(insertedId) ==> r.Some? && r.value.id == insertedId.value
  {
    var nextN := NextGameNumber(titles);
    var title := GameTitle(date, nextN);
    if Truthy(existingId) then Some(GameRowInfo(existingId.value, nextN, title))
    else if Truthy(insertedId) then Some(GameRowInfo(insertedId.value, nextN, title))
    else None
  }
}
