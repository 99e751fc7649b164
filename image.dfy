/**
 * The image processor (src/image_processor.rs): a photo goes to
 * `<destination>/Images/<year>/<MM - Month>/<file name>`, dated by its EXIF
 * `DateTimeOriginal` when it has one, else by its modification time, else
 * filed under `Images/Unknown`.
 */
module Images {
  import opened Wrappers
  import opened Paths
  import opened Files
  import opened Env
  import opened Modes
  import opened Organizer
  import VirtualDir

  // ---------------------------------------------------------------------------
  // Numbers and month names

  function Digit(n: nat): char
    requires n < 10
  {
    "0123456789"[n]
  }

  /** The decimal digits of a natural number, without leading zeros. */
  function NatString(n: nat): (s: string)
    ensures |s| > 0 && forall i :: 0 <= i < |s| ==> '0' <= s[i] <= '9'
    decreases n
  {
    if n < 10 then [Digit(n)] else NatString(n / 10) + [Digit(n % 10)]
  }

  /** `{}` of a year: its decimal text, led by '-' when negative. */
  function DecimalString(n: int): (s: string)
    ensures |s| > 0 && s[0] != '/' && s[0] != ':' && !IsWhitespace(s[0])
    ensures forall i :: 0 <= i < |s| ==> s[i] == '-' || '0' <= s[i] <= '9'
  {
    if n < 0 then "-" + NatString(-n) else NatString(n)
  }

  /** `{:02}` of a month number. */
  function TwoDigits(m: MonthNumber): (s: string)
    ensures |s| == 2 && forall i :: 0 <= i < 2 ==> '0' <= s[i] <= '9'
  {
    match m
    case 1 => "01" case 2 => "02" case 3 => "03" case 4 => "04" case 5 => "05" case 6 => "06"
    case 7 => "07" case 8 => "08" case 9 => "09" case 10 => "10" case 11 => "11" case _ => "12"
  }

  /** `%B`: the full English month name. */
  function MonthName(m: MonthNumber): string {
    match m
    case 1 => "January"
    case 2 => "February"
    case 3 => "March"
    case 4 => "April"
    case 5 => "May"
    case 6 => "June"
    case 7 => "July"
    case 8 => "August"
    case 9 => "September"
    case 10 => "October"
    case 11 => "November"
    case _ => "December"
  }

  /** The month table of `format_date_to_path`. */
  function MonthLabel(monthNumber: string): string {
    if monthNumber == "01" then "01 - January"
    else if monthNumber == "02" then "02 - February"
    else if monthNumber == "03" then "03 - March"
    else if monthNumber == "04" then "04 - April"
    else if monthNumber == "05" then "05 - May"
    else if monthNumber == "06" then "06 - June"
    else if monthNumber == "07" then "07 - July"
    else if monthNumber == "08" then "08 - August"
    else if monthNumber == "09" then "09 - September"
    else if monthNumber == "10" then "10 - October"
    else if monthNumber == "11" then "11 - November"
    else if monthNumber == "12" then "12 - December"
    else "UnknownMonth"
  }

  /**
   * The EXIF table and the modification-time format name a month alike: the
   * label of a two-digit month number is that number, " - ", and its name.
   */
  lemma MonthLabelAgrees(m: MonthNumber)
    ensures MonthLabel(TwoDigits(m)) == TwoDigits(m) + " - " + MonthName(m)
  {
    if m <= 3 { MonthLabelQuarter1(m); }
    else if m <= 6 { MonthLabelQuarter2(m); }
    else if m <= 9 { MonthLabelQuarter3(m); }
    else { MonthLabelQuarter4(m); }
  }

  lemma MonthLabelQuarter1(m: MonthNumber)
    requires 1 <= m <= 3
    ensures MonthLabel(TwoDigits(m)) == TwoDigits(m) + " - " + MonthName(m)
  {
    var s := TwoDigits(m);
    if m == 1 { assert s == "01"; assert MonthLabel(s) == "01 - January"; }
    else if m == 2 { assert s == "02"; assert MonthLabel(s) == "02 - February"; }
    else { assert s == "03"; assert MonthLabel(s) == "03 - March"; }
  }

  lemma MonthLabelQuarter2(m: MonthNumber)
    requires 4 <= m <= 6
    ensures MonthLabel(TwoDigits(m)) == TwoDigits(m) + " - " + MonthName(m)
  {
    var s := TwoDigits(m);
    if m == 4 { assert s == "04"; assert MonthLabel(s) == "04 - April"; }
    else if m == 5 { assert s == "05"; assert MonthLabel(s) == "05 - May"; }
    else { assert s == "06"; assert MonthLabel(s) == "06 - June"; }
  }

  lemma MonthLabelQuarter3(m: MonthNumber)
    requires 7 <= m <= 9
    ensures MonthLabel(TwoDigits(m)) == TwoDigits(m) + " - " + MonthName(m)
  {
    var s := TwoDigits(m);
    if m == 7 { assert s == "07"; assert MonthLabel(s) == "07 - July"; }
    else if m == 8 { assert s == "08"; assert MonthLabel(s) == "08 - August"; }
    else { assert s == "09"; assert MonthLabel(s) == "09 - September"; }
  }

  lemma MonthLabelQuarter4(m: MonthNumber)
    requires 10 <= m <= 12
    ensures MonthLabel(TwoDigits(m)) == TwoDigits(m) + " - " + MonthName(m)
  {
    var s := TwoDigits(m);
    if m == 10 { assert s == "10"; assert MonthLabel(s) == "10 - October"; }
    else if m == 11 { assert s == "11"; assert MonthLabel(s) == "11 - November"; }
    else { assert s == "12"; assert MonthLabel(s) == "12 - December"; }
  }

  /** Any text other than a two-digit month number is "UnknownMonth". */
  lemma UnknownMonthExactly(s: string)
    ensures MonthLabel(s) == "UnknownMonth" <==> forall m: MonthNumber :: s != TwoDigits(m)
  {
    if s == "01" { assert s == TwoDigits(1); }
    else if s == "02" { assert s == TwoDigits(2); }
    else if s == "03" { assert s == TwoDigits(3); }
    else if s == "04" { assert s == TwoDigits(4); }
    else if s == "05" { assert s == TwoDigits(5); }
    else if s == "06" { assert s == TwoDigits(6); }
    else if s == "07" { assert s == TwoDigits(7); }
    else if s == "08" { assert s == TwoDigits(8); }
    else if s == "09" { assert s == TwoDigits(9); }
    else if s == "10" { assert s == TwoDigits(10); }
    else if s == "11" { assert s == TwoDigits(11); }
    else if s == "12" { assert s == TwoDigits(12); }
    else {
      forall m: MonthNumber ensures s != TwoDigits(m) {
        MonthLabelAgrees(m);
      }
    }
  }

  // ---------------------------------------------------------------------------
  // The date folder

  /** The pieces of the first whitespace-delimited token, split on ':'. */
  function DatePieces(date: string): (parts: seq<string>)
    requires HasToken(date)
    ensures |parts| >= 1
  {
    Split(FirstToken(date), ':')
  }

  /** The second piece, or "00" when there is none. */
  function MonthPiece(parts: seq<string>): string {
    if |parts| > 1 then parts[1] else "00"
  }

  /** `format_date_to_path` as written: the first piece is the year, whatever it holds. */
  function FormatDateToPathAsWritten(date: string): string
    requires HasToken(date)
  {
    var parts := DatePieces(date);
    parts[0] + "/" + MonthLabel(MonthPiece(parts))
  }

  /**
   * A year piece that would not name a folder inside `Images`: empty, starting
   * at the root, or holding a ".." component that climbs out of it.
   */
  predicate UnusableYear(year: string) {
    year == "" || year[0] == '/' || ".." in ComponentsOf(year)
  }

  /** `format_date_to_path` with the "UnknownYear" fallback applied to an unusable year piece. */
  function FormatDateToPath(date: string): (r: string)
    requires HasToken(date)
    ensures |r| > 0 && r[0] != '/'
  {
    FolderOfPieces(DatePieces(date))
  }

  /** The folder named by the pieces of a date: the year, or "UnknownYear", then the month label. */
  function FolderOfPieces(parts: seq<string>): (r: string)
    requires |parts| >= 1
    ensures |r| > 0 && r[0] != '/'
  {
    var year := if UnusableYear(parts[0]) then "UnknownYear" else parts[0];
    year + "/" + MonthLabel(MonthPiece(parts))
  }

  /**
   * With the fallback, the date folder is the year's folders and then the
   * month folder, and none of them climbs out of `Images` with "..".
   */
  lemma FormatDateToPathDownward(date: string)
    requires HasToken(date)
    ensures var c := ComponentsOf(FormatDateToPath(date)); |c| > 0 && forall i :: 0 <= i < |c| ==> Downward(c[i])
  {
    var parts := DatePieces(date);
    var year := if UnusableYear(parts[0]) then "UnknownYear" else parts[0];
    var month := MonthLabel(MonthPiece(parts));
    assert FormatDateToPath(date) == year + "/" + month;
    YearFolderDownward(year);
    MonthLabelDownward(MonthPiece(parts));
    ComponentsOfSlash(year, month);
    ComponentsOfPlain(month);
  }

  /** A usable year names folders that all enter `Images`. */
  lemma YearFolderDownward(year: string)
    requires year == "UnknownYear" || !UnusableYear(year)
    ensures |year| > 0 && year[0] != '/'
    ensures var c := ComponentsOf(year); forall i :: 0 <= i < |c| ==> Downward(c[i])
  {
    if year == "UnknownYear" {
      ComponentsOfPlain(year);
    }
  }

  /** Every month label is one folder name. */
  lemma MonthLabelDownward(s: string)
    ensures Downward(MonthLabel(s))
  {
    UnknownMonthExactly(s);
    if MonthLabel(s) != "UnknownMonth" {
      var m: MonthNumber :| s == TwoDigits(m);
      MonthLabelAgrees(m);
      MonthFolderPlain(m);
      assert |MonthLabel(s)| > 2;
    }
  }

  /** The two agree unless the year piece is unusable. */
  lemma FormatDateToPathAgrees(date: string)
    requires HasToken(date)
    ensures !UnusableYear(DatePieces(date)[0]) ==> FormatDateToPath(date) == FormatDateToPathAsWritten(date)
    ensures UnusableYear(DatePieces(date)[0]) ==>
      var c := ComponentsOf(FormatDateToPathAsWritten(date)); IsRooted(c) || ".." in c
  {
    var year := DatePieces(date)[0];
    var month := MonthLabel(MonthPiece(DatePieces(date)));
    ComponentsOfSlash(year, month);
  }

  /** The folder named after a modification time: `<year>/<MM> - <Month>`. */
  function MtimeLabel(d: LocalDate): string {
    DecimalString(d.year) + "/" + TwoDigits(d.month) + " - " + MonthName(d.month)
  }

  /** The date part of `get_destination_subfolder`: EXIF first, then the modification time, else "Unknown". */
  function DateFolder(fs: FileSystem, path: Path): (r: string)
    ensures |r| > 0 && r[0] != '/'
  {
    if IsFile(fs, path) then
      match fs.nodes[path].exif
      case Some(date) => FormatDateToPath(date)
      case None =>
        match fs.nodes[path].modified
        case Some(d) => MtimeLabel(d)
        case None => "Unknown"
    else "Unknown"
  }

  /** Whichever source dates the image, its folder only descends below `Images`. */
  lemma DateFolderDownward(fs: FileSystem, path: Path)
    ensures var c := ComponentsOf(DateFolder(fs, path)); |c| > 0 && forall i :: 0 <= i < |c| ==> Downward(c[i])
  {
    if IsFile(fs, path) && fs.nodes[path].exif.Some? {
      FormatDateToPathDownward(fs.nodes[path].exif.value);
    } else if IsFile(fs, path) && fs.nodes[path].modified.Some? {
      MtimeComponents(fs.nodes[path].modified.value);
    } else {
      ComponentsOfPlain("Unknown");
    }
  }

  /** A modification-time folder is the year folder, then the month folder. */
  lemma MtimeComponents(d: LocalDate)
    ensures ComponentsOf(MtimeLabel(d)) == [DecimalString(d.year), TwoDigits(d.month) + " - " + MonthName(d.month)]
    ensures Downward(DecimalString(d.year)) && Downward(TwoDigits(d.month) + " - " + MonthName(d.month))
  {
    var y := DecimalString(d.year);
    var rest := TwoDigits(d.month) + " - " + MonthName(d.month);
    assert MtimeLabel(d) == y + "/" + rest;
    YearPlain(d.year);
    MonthFolderPlain(d.month);
    assert y[0] != '.';
    assert |rest| > 2;
    ComponentsOfSlash(y, rest);
    ComponentsOfPlain(y);
    ComponentsOfPlain(rest);
  }

  /** `get_destination_subfolder`: "Images" joined with the date folder. */
  function Subfolder(fs: FileSystem, path: Path): Path {
    Join(["Images"], ComponentsOf(DateFolder(fs, path)))
  }

  function DestinationDir(fs: FileSystem, path: Path, destination: Path): Path {
    Join(destination, Subfolder(fs, path))
  }

  function Destination(fs: FileSystem, path: Path, destination: Path): Path
    requires FileName(path).Some?
  {
    Join(DestinationDir(fs, path, destination), [FileName(path).value])
  }

  /**
   * With the fallback, every image lands inside `<destination>/Images`, and no
   * component after the destination climbs back out with "..".
   */
  lemma StaysUnderImages(fs: FileSystem, path: Path, destination: Path)
    ensures IsPrefix(destination + ["Images"], DestinationDir(fs, path, destination))
    ensures var dir := DestinationDir(fs, path, destination);
      |dir| > |destination| + 1 && forall i :: |destination| <= i < |dir| ==> Downward(dir[i])
  {
    var c := ComponentsOf(DateFolder(fs, path));
    DateFolderDownward(fs, path);
    assert !IsRooted(c);
    var dir := destination + ["Images"] + c;
    assert DestinationDir(fs, path, destination) == dir;
    assert dir[..|destination| + 1] == destination + ["Images"];
    forall i | |destination| <= i < |dir| ensures Downward(dir[i]) {
      if i > |destination| { assert dir[i] == c[i - |destination| - 1]; }
    }
  }

  // ---------------------------------------------------------------------------
  // The date formats, related

  lemma {:induction false} TakeTokenPrefix(t: string, rest: string)
    requires forall i :: 0 <= i < |t| ==> !IsWhitespace(t[i])
    requires |rest| > 0 ==> IsWhitespace(rest[0])
    ensures TakeToken(t + rest) == t
    decreases |t|
  {
    if |t| > 0 {
      assert (t + rest)[1..] == t[1..] + rest;
      TakeTokenPrefix(t[1..], rest);
    } else {
      assert t + rest == rest;
    }
  }

  /** The first token of a text that starts with a token `t` followed by whitespace or nothing. */
  lemma FirstTokenIs(t: string, rest: string)
    requires |t| > 0 && forall i :: 0 <= i < |t| ==> !IsWhitespace(t[i])
    requires |rest| > 0 ==> IsWhitespace(rest[0])
    ensures HasToken(t + rest) && FirstToken(t + rest) == t
  {
    assert (t + rest)[0] == t[0];
    TakeTokenPrefix(t, rest);
  }

  /** The pieces of `<year>:<month>:<day> <time>`: the year first, the month second. */
  lemma {:induction false} DatePiecesOf(year: string, month: string, day: string, time: string)
    requires ':' !in year && ':' !in month
    requires var t := year + month + day; |t| > 0 && forall i :: 0 <= i < |t| ==> !IsWhitespace(t[i])
    ensures var date := year + ":" + month + ":" + day + " " + time;
      HasToken(date) && DatePieces(date)[0] == year && MonthPiece(DatePieces(date)) == month
  {
    var token := year + ":" + month + ":" + day;
    var t := year + month + day;
    var date := token + " " + time;
    assert year + ":" + month + ":" + day + " " + time == date;
    forall i | 0 <= i < |token| ensures !IsWhitespace(token[i]) {
      if i < |year| { assert token[i] == t[i]; }
      else if i == |year| {}
      else if i < |year| + 1 + |month| { assert token[i] == t[i - 1]; }
      else if i == |year| + 1 + |month| {}
      else { assert token[i] == t[i - 2]; }
    }
    assert date == token + (" " + time);
    FirstTokenIs(token, " " + time);
    SplitWithoutSeparator(year, ':');
    SplitWithoutSeparator(month, ':');
    assert token == year + [':'] + (month + [':'] + day);
    SplitAtSeparator(year, ':', month + [':'] + day);
    SplitAtSeparator(month, ':', day);
    assert Split(token, ':') == [year] + ([month] + Split(day, ':'));
  }

  /**
   * An EXIF date and a modification time of the same year and month name the
   * same folder: `YYYY:MM:DD HH:MM:SS` formats like `YYYY/MM - Month`.
   */
  lemma ExifMatchesMtime(d: LocalDate, day: string, time: string)
    requires forall i :: 0 <= i < |day| ==> !IsWhitespace(day[i])
    ensures var date := DecimalString(d.year) + ":" + TwoDigits(d.month) + ":" + day + " " + time;
      HasToken(date) && FormatDateToPath(date) == MtimeLabel(d) && FormatDateToPathAsWritten(date) == MtimeLabel(d)
  {
    var y := DecimalString(d.year);
    var mm := TwoDigits(d.month);
    var t := y + mm + day;
    forall i | 0 <= i < |t| ensures !IsWhitespace(t[i]) {
      if i < |y| { assert t[i] == y[i]; }
      else if i < |y| + 2 { assert t[i] == mm[i - |y|]; }
      else { assert t[i] == day[i - |y| - 2]; }
    }
    assert ':' !in y;
    assert ':' !in mm;
    DecimalYearUsable(d.year);
    DatePiecesOf(y, mm, day, time);
    MonthLabelAgrees(d.month);
  }

  /** A year written in decimal is never replaced by "UnknownYear". */
  lemma DecimalYearUsable(n: int)
    ensures !UnusableYear(DecimalString(n))
  {
    var y := DecimalString(n);
    YearPlain(n);
    assert y[0] != '.';
    ComponentsOfPlain(y);
  }

  lemma YearPlain(n: int)
    ensures Plain(DecimalString(n))
  {
    var y := DecimalString(n);
    assert y[0] != '.';
    assert forall i :: 0 <= i < |y| ==> y[i] != '/';
  }

  lemma MonthFolderPlain(m: MonthNumber)
    ensures Plain(TwoDigits(m) + " - " + MonthName(m))
  {
    var mm, name := TwoDigits(m), MonthName(m);
    var rest := mm + " - " + name;
    assert '/' !in name;
    assert forall i :: 0 <= i < |rest| ==> rest[i] != '/' by {
      forall i | 0 <= i < |rest| ensures rest[i] != '/' {
        if i >= |mm| + 3 { assert rest[i] == name[i - |mm| - 3]; }
      }
    }
  }

  /**
   * The case the source's own test checks: an image without EXIF data, dated by
   * its modification time, goes to `<destination>/Images/<year>/<MM> - <Month>`.
   */
  lemma MtimeDestination(fs: FileSystem, path: Path, destination: Path, d: LocalDate)
    requires IsFile(fs, path) && fs.nodes[path].exif.None? && fs.nodes[path].modified == Some(d)
    ensures DestinationDir(fs, path, destination)
      == destination + ["Images", DecimalString(d.year), TwoDigits(d.month) + " - " + MonthName(d.month)]
  {
    assert DateFolder(fs, path) == MtimeLabel(d);
    MtimeComponents(d);
  }

  /**
   * A date with another separator has a single piece, so its month is unknown:
   * "2023-11-05 10:00:00" is filed under "2023-11-05/UnknownMonth".
   */
  lemma SinglePieceDate(token: string, rest: string)
    requires |token| > 0 && ':' !in token
    requires forall i :: 0 <= i < |token| ==> !IsWhitespace(token[i])
    requires |rest| > 0 ==> IsWhitespace(rest[0])
    ensures HasToken(token + rest)
    ensures FormatDateToPath(token + rest) == (if UnusableYear(token) then "UnknownYear" else token) + "/UnknownMonth"
  {
    FirstTokenIs(token, rest);
    SplitWithoutSeparator(token, ':');
    assert DatePieces(token + rest) == [token];
    SinglePieceFolder([token]);
  }

  /** A date of one piece names that piece, or "UnknownYear", and an unknown month. */
  lemma SinglePieceFolder(parts: seq<string>)
    requires |parts| == 1
    ensures FolderOfPieces(parts) == (if UnusableYear(parts[0]) then "UnknownYear" else parts[0]) + "/UnknownMonth"
  {
    assert MonthPiece(parts) == "00";
    NoMonthZero();
  }

  /** "00" is not in the month table. */
  lemma NoMonthZero()
    ensures MonthLabel("00") == "UnknownMonth"
  {
    var z := "00";
    assert z[1] == '0';
    assert z != "01" && z != "02" && z != "03" && z != "04" && z != "05" && z != "06";
    assert z != "07" && z != "08" && z != "09" && z != "10" && z != "11" && z != "12";
  }

  /** The year and month pieces of a date whose year piece is empty. */
  lemma EmptyYearPieces(date: string)
    requires date == ":11:05 10:00:00"
    ensures HasToken(date) && DatePieces(date)[0] == "" && MonthPiece(DatePieces(date)) == "11"
  {
    var y, m, d, time := "", "11", "05", "10:00:00";
    var full := y + ":" + m + ":" + d + " " + time;
    assert full == date;
    assert y + m + d == "1105";
    DatePiecesOf(y, m, d, time);
    assert HasToken(full) && DatePieces(full)[0] == y && MonthPiece(DatePieces(full)) == m;
  }

  lemma EmptyYearAsWritten(date: string)
    requires date == ":11:05 10:00:00"
    ensures HasToken(date) && FormatDateToPathAsWritten(date) == "/" + "11 - November"
  {
    EmptyYearPieces(date);
    var folder := MonthLabel("11");
    assert folder == "11 - November";
    assert FormatDateToPathAsWritten(date) == "" + "/" + folder;
  }

  /** A folder name after a leading '/' parses as the root and that folder. */
  lemma RootedFolder(folder: string)
    requires Plain(folder)
    ensures ComponentsOf("/" + folder) == [RootDir, folder]
  {
    ComponentsOfSlash("", folder);
    assert "" + "/" + folder == "/" + folder;
    ComponentsOfPlain(folder);
  }

  /** As written, a date whose first piece is empty is filed at the filesystem root, outside the destination. */
  lemma EmptyYearEscapes(date: string, destination: Path)
    requires date == ":11:05 10:00:00"
    ensures HasToken(date)
    ensures ComponentsOf(FormatDateToPathAsWritten(date)) == [RootDir, "11 - November"]
    ensures Join(destination, Join(["Images"], ComponentsOf(FormatDateToPathAsWritten(date)))) == [RootDir, "11 - November"]
  {
    EmptyYearAsWritten(date);
    var folder := "11 - November";
    assert Plain(folder);
    RootedFolder(folder);
  }

  /** With the fallback, the same date is filed under "UnknownYear". */
  lemma EmptyYearCorrected(date: string)
    requires date == ":11:05 10:00:00"
    ensures HasToken(date) && FormatDateToPath(date) == "UnknownYear/11 - November"
  {
    EmptyYearPieces(date);
    var folder := MonthLabel("11");
    assert folder == "11 - November";
  }

  // ---------------------------------------------------------------------------
  // Moving

  /** `move_image`: the file goes to `<dir>/<file name>`; live, a `create_dir_all` failure is returned before any move. */
  method MoveImage(host: Host, path: Path, destinationDir: Path, mode: ProcessingMode) returns (o: Outcome, mode': ProcessingMode)
    requires FileName(path).Some?
    modifies host
    ensures mode.DryRun? ==>
      o == Pass && mode' == DryRun(VirtualDir.AddPath(mode.tree, Join(destinationDir, [FileName(path).value])))
      && host.State() == old(host.State())
    ensures mode.Live? ==>
      mode' == Live && WorldStep(host.State(), o) == Place(old(host.State()), path, destinationDir, Join(destinationDir, [FileName(path).value]))
  {
    var destinationPath := Join(destinationDir, [FileName(path).value]);
    match mode {
      case DryRun(tree) =>
        mode' := DryRun(VirtualDir.AddPath(tree, destinationPath));
        o := Pass;
      case Live =>
        mode' := Live;
        o := host.CreateDirAll(destinationDir);
        if o.Fail? {
          return;
        }
        o, mode' := OrganizeFile(host, path, destinationPath, mode);
    }
  }

  /** `process`: compute the dated folder, move the image there, and report and drop any error. */
  method Process(host: Host, path: Path, destination: Path, mode: ProcessingMode) returns (mode': ProcessingMode)
    requires FileName(path).Some?
    modifies host
    ensures Processed(mode, mode', old(host.State()), host.State(), path,
      DestinationDir(old(host.fs), path, destination), Destination(old(host.fs), path, destination))
  {
    var dateBasedDir := Subfolder(host.fs, path);
    var fullDestinationDir := Join(destination, dateBasedDir);
    var o;
    o, mode' := MoveImage(host, path, fullDestinationDir, mode);
  }
}
