/**
 * Moving one file and recording the move (src/organizer.rs): `organize_file`,
 * `log_move_operation`, `clear_undo_log`, and the Live-mode step every processor
 * shares: create the destination directory, then organize the file into it.
 */
module Organizer {
  import opened Wrappers
  import opened Paths
  import opened Files
  import opened Env
  import VirtualDir
  import opened Modes

  /** `organize_file` in Live mode: rename, then append the record; a failed rename stops before the log. */
  function OrganizeLive(w: World, src: Path, dst: Path): WorldStep {
    var m := Move(w.fs, src, dst);
    if m.outcome.Fail? then WorldStep(w, m.outcome)
    else AppendLog(w.(fs := m.fs), MoveRecord(src, dst))
  }

  /** `log_move_operation`: one record line appended to the log. */
  method LogMoveOperation(host: Host, src: Path, dst: Path) returns (o: Outcome)
    modifies host
    ensures WorldStep(host.State(), o) == AppendLog(old(host.State()), MoveRecord(src, dst))
  {
    o := host.AppendLogLine(MoveRecord(src, dst));
  }

  /** `organize_file`: in a dry run, record the destination and the file name in the tree; live, move and log. */
  method OrganizeFile(host: Host, src: Path, dst: Path, mode: ProcessingMode) returns (o: Outcome, mode': ProcessingMode)
    modifies host
    ensures mode.DryRun? ==>
      o == Pass && mode' == DryRun(VirtualDir.AddPath(mode.tree, dst + FileNameParts(src))) && host.State() == old(host.State())
    ensures mode.Live? ==> mode' == Live && WorldStep(host.State(), o) == OrganizeLive(old(host.State()), src, dst)
  {
    match mode {
      case DryRun(tree) =>
        var parts := dst;
        if FileName(src).Some? {
          parts := parts + [FileName(src).value];
        }
        assert parts == dst + FileNameParts(src);
        mode' := DryRun(VirtualDir.AddPath(tree, parts));
        o := Pass;
      case Live =>
        mode' := Live;
        o := host.Rename(src, dst);
        if o.Fail? {
          return;
        }
        o := LogMoveOperation(host, src, dst);
    }
  }

  /**
   * What a Live `organize_file` does: a failed rename changes nothing and is
   * returned; after a successful rename exactly one record is appended, or the
   * log write fails and that failure is returned although the file has moved.
   */
  lemma OrganizeLiveEffect(w: World, src: Path, dst: Path)
    ensures var m := Move(w.fs, src, dst); var r := OrganizeLive(w, src, dst);
      && (m.outcome.Fail? ==> r == WorldStep(w, m.outcome))
      && (m.outcome.Pass? ==>
            && r.world.fs == m.fs
            && r.world.logLocked == w.logLocked
            && (r.outcome.Pass? <==> !w.logLocked)
            && (r.outcome.Pass? ==> r.world.log == Some(w.log.GetOr([]) + [MoveRecord(src, dst)]))
            && (r.outcome.Fail? ==> r.world.log == w.log && r.outcome.error == PermissionDenied))
  {
  }

  /** The Live branch of every processor: `create_dir_all(dir)`, then `organize_file(src, dst)`. */
  function Place(w: World, src: Path, dir: Path, dst: Path): WorldStep {
    var made := MkdirAll(w.fs, dir);
    if made.outcome.Fail? then WorldStep(w.(fs := made.fs), made.outcome)
    else OrganizeLive(w.(fs := made.fs), src, dst)
  }

  /** The mode and the world as one processor call leaves them. */
  datatype Progress = Progress(mode: ProcessingMode, world: World)

  /**
   * What one `Processor::process` call does to the mode and the world, given the
   * destination directory `dir` and file path `dst` it computed: a dry run
   * inserts `dst` into the tree and leaves the world alone; a live run places
   * the file and drops any error.
   */
  function ProcessEffect(mode: ProcessingMode, w: World, src: Path, dir: Path, dst: Path): Progress {
    match mode
    case DryRun(t) => Progress(DryRun(VirtualDir.AddPath(t, dst)), w)
    case Live => Progress(Live, Place(w, src, dir, dst).world)
  }

  predicate Processed(mode: ProcessingMode, mode': ProcessingMode, w: World, w': World, src: Path, dir: Path, dst: Path) {
    Progress(mode', w') == ProcessEffect(mode, w, src, dir, dst)
  }

  /** The log only grows, by at most the one record for this move. */
  predicate LogGrowsBy(before: Option<seq<LogLine>>, after: Option<seq<LogLine>>, line: LogLine) {
    after == before || after == Some(before.GetOr([]) + [line])
  }

  /**
   * A placement keeps the filesystem valid, leaves every file other than the
   * moved one where it was, and grows the log by at most its own record, which
   * is written exactly when the file reached `dst` and the log was writable.
   */
  lemma PlaceEffect(w: World, src: Path, dir: Path, dst: Path)
    requires Valid(w.fs) && WellFormed(dir) && WellFormed(dst)
    ensures var r := Place(w, src, dir, dst);
      && Valid(r.world.fs)
      && r.world.logLocked == w.logLocked
      && LogGrowsBy(w.log, r.world.log, MoveRecord(src, dst))
      && (r.world.log != w.log <==> r.outcome.Pass?)
      && (r.outcome.Pass? ==> IsFile(w.fs, src) && IsFile(r.world.fs, dst) && r.world.fs.nodes[dst] == w.fs.nodes[src])
      && (forall q :: IsFile(w.fs, q) && q != src && q != dst ==> IsFile(r.world.fs, q) && r.world.fs.nodes[q] == w.fs.nodes[q])
  {
    var made := MkdirAll(w.fs, dir);
    MkdirAllGrows(w.fs, dir);
    if made.outcome.Pass? {
      var w1 := w.(fs := made.fs);
      assert Place(w, src, dir, dst) == OrganizeLive(w1, src, dst);
      OrganizeLiveValid(w1, src, dst);
      forall q | IsFile(w.fs, q) ensures IsFile(made.fs, q) && made.fs.nodes[q] == w.fs.nodes[q] {
        assert q in made.fs.nodes;
      }
    }
  }

  /**
   * A Live `organize_file` keeps the filesystem valid and grows the log by at
   * most its record, written exactly when the file reached `dst`; every other
   * file stays where it was.
   */
  lemma OrganizeLiveValid(w: World, src: Path, dst: Path)
    requires Valid(w.fs) && WellFormed(dst)
    ensures var r := OrganizeLive(w, src, dst);
      && Valid(r.world.fs)
      && r.world.logLocked == w.logLocked
      && LogGrowsBy(w.log, r.world.log, MoveRecord(src, dst))
      && (r.world.log != w.log <==> r.outcome.Pass?)
      && (r.outcome.Pass? ==> IsFile(w.fs, src) && IsFile(r.world.fs, dst) && r.world.fs.nodes[dst] == w.fs.nodes[src])
      && (forall q :: IsFile(w.fs, q) && q != src && q != dst ==> IsFile(r.world.fs, q) && r.world.fs.nodes[q] == w.fs.nodes[q])
  {
    var m := Move(w.fs, src, dst);
    MoveEffect(w.fs, src, dst);
    MoveValid(w.fs, src, dst);
    OrganizeLiveEffect(w, src, dst);
  }

  /** `clear_undo_log`: remove the log if it exists. */
  function ClearLog(w: World): WorldStep {
    if w.log.Some? then RemoveLog(w) else WorldStep(w, Pass)
  }

  method ClearUndoLog(host: Host) returns (o: Outcome)
    modifies host
    ensures WorldStep(host.State(), o) == ClearLog(old(host.State()))
  {
    if host.LogExists() {
      o := host.RemoveLogFile();
    } else {
      o := Pass;
    }
  }

  /**
   * Clearing succeeds whether or not the log exists unless the log cannot be
   * removed; afterwards there is no log, and clearing again changes nothing.
   */
  lemma ClearLogIdempotent(w: World)
    ensures ClearLog(w).outcome.Pass? <==> w.log.None? || !w.logLocked
    ensures ClearLog(w).outcome.Pass? ==> ClearLog(w).world.log.None?
    ensures ClearLog(w).world.fs == w.fs
    ensures ClearLog(ClearLog(w).world) == WorldStep(ClearLog(w).world, if ClearLog(w).world.log.None? then Pass else ClearLog(w).outcome)
  {
  }
}
