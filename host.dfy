/**
 * The state the program changes in Live mode: the filesystem and the undo log
 * `undo_log.jsonl` in the working directory. The log is a sequence of lines
 * (absent when the file does not exist); `logLocked` makes every write to it
 * fail with a permission error. `Host` holds that state as fields and offers the
 * system calls as methods, each one specified by a function over `World`.
 */
module Env {
  import opened Wrappers
  import opened Paths
  import opened Files

  /**
   * One line of the undo log as `undo_last_actions` reads it: blank after
   * trimming, not JSON, or a JSON object whose two fields are strings (`Some`)
   * or anything else (`None`: missing, null or not a string).
   */
  datatype LogLine = Blank | Malformed | Record(originalPath: Option<string>, destinationPath: Option<string>)

  datatype World = World(fs: FileSystem, log: Option<seq<LogLine>>, logLocked: bool)

  datatype WorldStep = WorldStep(world: World, outcome: Outcome)

  /** The line `log_move_operation` writes: both paths as text (`to_str` never fails on these paths). */
  function MoveRecord(src: Path, dst: Path): LogLine {
    Record(Some(Render(src)), Some(Render(dst)))
  }

  /** Opening the log for append (created if absent) and writing one line. */
  function AppendLog(w: World, line: LogLine): (r: WorldStep)
    ensures r.outcome.Pass? ==> r.world.log == Some(w.log.GetOr([]) + [line])
    ensures r.outcome.Fail? ==> r.world == w
    ensures r.world.fs == w.fs && r.world.logLocked == w.logLocked
  {
    if w.logLocked then WorldStep(w, Fail(PermissionDenied))
    else WorldStep(w.(log := Some(w.log.GetOr([]) + [line])), Pass)
  }

  /** `fs::remove_file` on the log. */
  function RemoveLog(w: World): (r: WorldStep)
    ensures r.outcome.Pass? <==> w.log.Some? && !w.logLocked
    ensures r.outcome.Pass? ==> r.world == w.(log := None)
    ensures r.outcome.Fail? ==> r.world == w
  {
    if w.log.None? then WorldStep(w, Fail(NotFound))
    else if w.logLocked then WorldStep(w, Fail(PermissionDenied))
    else WorldStep(w.(log := None), Pass)
  }

  /** One `create_dir_all`, `rename` or `remove_dir` applied to the world's filesystem. */
  function OnFs(w: World, step: FsStep): WorldStep {
    WorldStep(w.(fs := step.fs), step.outcome)
  }

  class Host {
    var fs: FileSystem
    var log: Option<seq<LogLine>>
    const logLocked: bool

    function State(): World
      reads this
    {
      World(fs, log, logLocked)
    }

    constructor (fs0: FileSystem, log0: Option<seq<LogLine>>, logLocked0: bool)
      ensures State() == World(fs0, log0, logLocked0)
    {
      fs := fs0;
      log := log0;
      logLocked := logLocked0;
    }

    /** `Path::exists`. */
    function PathExists(p: Path): bool
      reads this
    {
      Exists(fs, p)
    }

    /** `Path::exists` on the log file. */
    function LogExists(): bool
      reads this
    {
      log.Some?
    }

    /** `fs::create_dir_all`. */
    method CreateDirAll(p: Path) returns (o: Outcome)
      modifies this
      ensures WorldStep(State(), o) == OnFs(old(State()), MkdirAll(old(fs), p))
    {
      var step := MkdirAll(fs, p);
      fs := step.fs;
      o := step.outcome;
    }

    /** `fs::rename`. */
    method Rename(src: Path, dst: Path) returns (o: Outcome)
      modifies this
      ensures WorldStep(State(), o) == OnFs(old(State()), Move(old(fs), src, dst))
    {
      var step := Move(fs, src, dst);
      fs := step.fs;
      o := step.outcome;
    }

    /** `fs::remove_dir`. */
    method RemoveDir(p: Path) returns (o: Outcome)
      modifies this
      ensures WorldStep(State(), o) == OnFs(old(State()), Rmdir(old(fs), p))
    {
      var step := Rmdir(fs, p);
      fs := step.fs;
      o := step.outcome;
    }

    /** `is_dir_empty`: `read_dir` and whether it yields no entry. */
    method IsDirEmpty(p: Path) returns (r: Result<bool>)
      ensures r == DirIsEmpty(fs, p)
    {
      r := DirIsEmpty(fs, p);
    }

    /** Append one line to the log. */
    method AppendLogLine(line: LogLine) returns (o: Outcome)
      modifies this
      ensures WorldStep(State(), o) == AppendLog(old(State()), line)
    {
      var step := AppendLog(State(), line);
      log := step.world.log;
      o := step.outcome;
    }

    /** `fs::remove_file` on the log. */
    method RemoveLogFile() returns (o: Outcome)
      modifies this
      ensures WorldStep(State(), o) == RemoveLog(old(State()))
    {
      var step := RemoveLog(State());
      log := step.world.log;
      o := step.outcome;
    }
  }
}
