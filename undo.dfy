/**
 * Reversing the last batch of moves (src/organizer.rs): `undo_last_actions`
 * replays the undo log from its first line to its last, renaming every
 * destination back to its original path and collecting the destination's
 * ancestors; it then removes the log and hands the ancestors to
 * `remove_directories`, which removes, deepest first, those that are empty.
 */
module Undo {
  import opened Wrappers
  import opened Paths
  import opened Files
  import opened Env
  import opened Organizer

  // ---------------------------------------------------------------------------
  // Ancestors

  /** The directories the `while let Some(dir) = current_dir` walk visits: the parent, its parent, and so on. */
  function Ancestors(p: Path): set<Path>
    decreases |p|
  {
    if IsRoot(p) then {} else {p[..|p| - 1]} + Ancestors(p[..|p| - 1])
  }

  /**
   * The walk goes all the way up: the ancestors are exactly the proper prefixes
   * of the path, down to "/" for an absolute path and to "" for a relative one.
   */
  lemma {:induction false} AncestorsArePrefixes(p: Path, q: Path)
    ensures q in Ancestors(p) <==> IsPrefix(q, p) && |q| < |p| && (IsRooted(p) ==> |q| >= 1)
    decreases |p|
  {
    if !IsRoot(p) {
      var up := p[..|p| - 1];
      AncestorsArePrefixes(up, q);
      if IsPrefix(q, p) && |q| < |p| {
        assert up[..|q|] == p[..|q|];
      }
      if IsRooted(up) != IsRooted(p) {
        assert up == [];
      }
      if IsPrefix(q, up) {
        assert p[..|q|] == up[..|q|];
      }
    }
  }

  /** In a valid filesystem, every ancestor of a directory is a directory. */
  lemma {:induction false} AncestorsOfDirectory(fs: FileSystem, p: Path)
    requires Valid(fs) && IsDir(fs, p)
    ensures forall q :: q in Ancestors(p) ==> IsDir(fs, q)
    decreases |p|
  {
    if !IsRoot(p) {
      assert p in fs.nodes;
      AncestorsOfDirectory(fs, p[..|p| - 1]);
    }
  }

  /** The ancestor walk of one reversed move, adding to the directories collected so far. */
  method CollectAncestors(affected: set<Path>, destination: Path) returns (affected': set<Path>)
    ensures affected' == affected + Ancestors(destination)
  {
    affected' := affected;
    var current := Parent(destination);
    while current.Some?
      invariant current.Some? ==> affected' + {current.value} + Ancestors(current.value) == affected + Ancestors(destination)
      invariant current.None? ==> affected' == affected + Ancestors(destination)
      decreases if current.Some? then |current.value| + 1 else 0
    {
      var dir := current.value;
      affected' := affected' + {dir};
      current := Parent(dir);
    }
  }

  // ---------------------------------------------------------------------------
  // Replaying the log

  /** Where the replay stands: the world, the outcome so far, and the directories collected. */
  datatype Replay = Replay(world: World, outcome: Outcome, affected: set<Path>)

  /**
   * One line of the loop: a blank line is skipped; a line that is not a record
   * with two text paths aborts with InvalidData; a missing destination aborts
   * with NotFound; otherwise the original's parent is created, the destination
   * is renamed back, and its ancestors are collected.
   */
  function ReplayLine(w: World, line: LogLine, affected: set<Path>): Replay {
    match line
    case Blank => Replay(w, Pass, affected)
    case Malformed => Replay(w, Fail(InvalidData), affected)
    case Record(original, destination) =>
      if original.None? || destination.None? then Replay(w, Fail(InvalidData), affected)
      else
        var originalPath := ComponentsOf(original.value);
        var destinationPath := ComponentsOf(destination.value);
        if !Exists(w.fs, destinationPath) then Replay(w, Fail(NotFound), affected)
        else
          var restored := Restore(w.fs, originalPath, destinationPath);
          Replay(w.(fs := restored.fs), restored.outcome,
                 if restored.outcome.Pass? then affected + Ancestors(destinationPath) else affected)
  }

  /** `create_dir_all` on the original's parent, if it has one, then the rename back. */
  function Restore(fs: FileSystem, original: Path, destination: Path): FsStep {
    var made := if Parent(original).Some? then MkdirAll(fs, Parent(original).value) else FsStep(fs, Pass);
    if made.outcome.Fail? then made else Move(made.fs, destination, original)
  }

  /** Restoring keeps the filesystem valid. */
  lemma RestoreValid(fs: FileSystem, original: Path, destination: Path)
    requires Valid(fs) && WellFormed(original)
    ensures Valid(Restore(fs, original, destination).fs)
  {
    var made := if Parent(original).Some? then MkdirAll(fs, Parent(original).value) else FsStep(fs, Pass);
    if Parent(original).Some? {
      assert WellFormed(Parent(original).value);
      MkdirAllGrows(fs, Parent(original).value);
    }
    MoveValid(made.fs, destination, original);
  }

  /** The lines in file order; the first failing line ends the replay. */
  function ReplayLines(w: World, lines: seq<LogLine>, affected: set<Path>): Replay
    decreases |lines|
  {
    if |lines| == 0 then Replay(w, Pass, affected)
    else
      var r := ReplayLine(w, lines[0], affected);
      if r.outcome.Fail? then r else ReplayLines(r.world, lines[1..], r.affected)
  }

  /** Replaying `a + b` is replaying `a`, then, unless that failed, `b`. */
  lemma {:induction false} ReplayConcat(w: World, a: seq<LogLine>, b: seq<LogLine>, affected: set<Path>)
    ensures ReplayLines(w, a + b, affected) ==
      var r := ReplayLines(w, a, affected);
      if r.outcome.Fail? then r else ReplayLines(r.world, b, r.affected)
    decreases |a|
  {
    if |a| == 0 {
      assert a + b == b;
    } else {
      assert (a + b)[0] == a[0];
      assert (a + b)[1..] == a[1..] + b;
      var r := ReplayLine(w, a[0], affected);
      if r.outcome.Pass? {
        ReplayConcat(r.world, a[1..], b, r.affected);
      }
    }
  }

  /** One line never touches the log, keeps the filesystem valid, and only adds collected directories. */
  lemma ReplayLineFrame(w: World, line: LogLine, affected: set<Path>)
    requires Valid(w.fs)
    ensures var r := ReplayLine(w, line, affected);
      r.world.log == w.log && r.world.logLocked == w.logLocked && Valid(r.world.fs) && affected <= r.affected
  {
    if line.Record? && line.originalPath.Some? && line.destinationPath.Some? {
      RestoreValid(w.fs, ComponentsOf(line.originalPath.value), ComponentsOf(line.destinationPath.value));
    }
  }

  /** The replay never touches the log, keeps the filesystem valid, and only adds collected directories. */
  lemma {:induction false} ReplayFrame(w: World, lines: seq<LogLine>, affected: set<Path>)
    requires Valid(w.fs)
    ensures var r := ReplayLines(w, lines, affected);
      r.world.log == w.log && r.world.logLocked == w.logLocked && Valid(r.world.fs) && affected <= r.affected
    decreases |lines|
  {
    if |lines| > 0 {
      ReplayLineFrame(w, lines[0], affected);
      var r := ReplayLine(w, lines[0], affected);
      if r.outcome.Pass? {
        ReplayFrame(r.world, lines[1..], r.affected);
      }
    }
  }

  // ---------------------------------------------------------------------------
  // Removing directories

  /** `dirs_to_remove` after the sort by component count and the reverse: every directory once, deepest first. */
  predicate DeepestFirst(order: seq<Path>, dirs: set<Path>) {
    && (forall i, j :: 0 <= i < j < |order| ==> |order[j]| <= |order[i]| && order[i] != order[j])
    && (forall d :: d in order ==> d in dirs)
    && (forall d :: d in dirs ==> d in order)
  }

  lemma {:induction false} DeepestExists(dirs: set<Path>)
    requires dirs != {}
    ensures exists d :: d in dirs && forall e :: e in dirs ==> |e| <= |d|
    decreases dirs
  {
    var x :| x in dirs;
    if dirs != {x} {
      DeepestExists(dirs - {x});
      var m :| m in dirs - {x} && forall e :: e in dirs - {x} ==> |e| <= |m|;
      if |x| > |m| {
        assert forall e :: e in dirs ==> |e| <= |x|;
      } else {
        assert forall e :: e in dirs ==> |e| <= |m|;
      }
    } else {
      assert forall e :: e in dirs ==> |e| <= |x|;
    }
  }

  /**
   * Sorting by component count and reversing. Directories of equal depth come
   * out in the hash set's order, which is arbitrary: the deepest remaining
   * directory is picked by choice, so every order the source can produce is
   * one this method can return.
   */
  method SortDeepestFirst(dirs: set<Path>) returns (order: seq<Path>)
    ensures DeepestFirst(order, dirs)
  {
    order := [];
    var rest := dirs;
    while rest != {}
      invariant rest <= dirs
      invariant forall d :: d in order <==> d in dirs && d !in rest
      invariant forall i, j :: 0 <= i < j < |order| ==> |order[j]| <= |order[i]| && order[i] != order[j]
      invariant forall i, d :: 0 <= i < |order| && d in rest ==> |d| <= |order[i]|
      decreases rest
    {
      DeepestExists(rest);
      var d :| d in rest && forall e :: e in rest ==> |e| <= |d|;
      order := order + [d];
      rest := rest - {d};
    }
  }

  /**
   * One directory of the loop: the empty path is skipped; a failing `read_dir`
   * aborts; an empty directory is removed, and a failed removal is ignored; a
   * non-empty one is kept.
   */
  function PruneOne(w: World, dir: Path): WorldStep {
    if dir == [] then WorldStep(w, Pass)
    else match DirIsEmpty(w.fs, dir)
      case Err(e) => WorldStep(w, Fail(e))
      case Ok(empty) => if empty then WorldStep(w.(fs := Rmdir(w.fs, dir).fs), Pass) else WorldStep(w, Pass)
  }

  /** The loop over the directories, in the given order; the first failing emptiness check ends it. */
  function Prune(w: World, order: seq<Path>): WorldStep
    decreases |order|
  {
    if |order| == 0 then WorldStep(w, Pass)
    else
      var r := PruneOne(w, order[0]);
      if r.outcome.Fail? then r else Prune(r.world, order[1..])
  }

  /** `remove_directories`: sort deepest first, then check and remove each directory in turn. */
  method RemoveDirectories(host: Host, dirs: set<Path>) returns (o: Outcome, order: seq<Path>)
    modifies host
    ensures DeepestFirst(order, dirs)
    ensures WorldStep(host.State(), o) == Prune(old(host.State()), order)
  {
    order := SortDeepestFirst(dirs);
    var i := 0;
    while i < |order|
      invariant 0 <= i <= |order|
      invariant Prune(old(host.State()), order) == Prune(host.State(), order[i..])
    {
      assert order[i..][1..] == order[i + 1..];
      var dir := order[i];
      if dir != [] {
        var empty := host.IsDirEmpty(dir);
        if empty.Err? {
          o := Fail(empty.error);
          return;
        }
        if empty.value {
          var _ := host.RemoveDir(dir);
        }
      }
      i := i + 1;
    }
    o := Pass;
  }

  /** One step of the loop leaves the log alone and either changes nothing or removes one childless directory. */
  lemma PruneOneEffect(w: World, dir: Path)
    requires Valid(w.fs)
    ensures var r := PruneOne(w, dir).world;
      && r.log == w.log && r.logLocked == w.logLocked && Valid(r.fs)
      && (r.fs == w.fs || (dir in w.fs.nodes && w.fs.nodes[dir] == Dir && r.fs == w.fs.(nodes := w.fs.nodes - {dir})))
  {
    if dir != [] && DirIsEmpty(w.fs, dir) == Ok(true) {
      RmdirEffect(w.fs, dir);
    }
  }

  /** A directory that is still there, empty, and that `remove_dir` could have removed. */
  predicate LeftEmpty(fs: FileSystem, d: Path) {
    && d != [] && d != [RootDir]
    && d in fs.nodes && fs.nodes[d].Dir? && !HasChild(fs, d)
    && d[..|d| - 1] !in fs.locked
  }

  /**
   * Pruning never touches the log or the locks, keeps the filesystem valid, and
   * only removes: every node it keeps is unchanged, and every node it removes
   * is one of the listed directories.
   */
  lemma {:induction false} PruneEffect(w: World, order: seq<Path>)
    requires Valid(w.fs)
    ensures var r := Prune(w, order).world;
      && r.log == w.log && r.logLocked == w.logLocked && r.fs.locked == w.fs.locked
      && Valid(r.fs)
      && (forall q :: q in r.fs.nodes ==> q in w.fs.nodes && r.fs.nodes[q] == w.fs.nodes[q])
      && (forall q :: q in w.fs.nodes && q !in r.fs.nodes ==> q in order && w.fs.nodes[q] == Dir)
    decreases |order|
  {
    if |order| > 0 {
      var r1 := PruneOne(w, order[0]);
      if order[0] != [] && DirIsEmpty(w.fs, order[0]) == Ok(true) {
        RmdirEffect(w.fs, order[0]);
      }
      if r1.outcome.Pass? {
        PruneEffect(r1.world, order[1..]);
        var r := Prune(w, order).world;
        forall q | q in w.fs.nodes && q !in r.fs.nodes ensures q in order && w.fs.nodes[q] == Dir {
          if q in r1.world.fs.nodes {
            assert q in order[1..];
          }
        }
      }
    }
  }

  /**
   * Deepest first is what makes the pruning complete: when it succeeds, none of
   * the listed directories is left behind empty unless `remove_dir` could not
   * remove it ("/" or a directory whose parent refuses the removal).
   */
  lemma {:induction false} PruneLeavesNoEmptyDirectory(w: World, order: seq<Path>)
    requires Valid(w.fs)
    requires forall i, j :: 0 <= i < j < |order| ==> |order[j]| <= |order[i]|
    requires Prune(w, order).outcome.Pass?
    ensures forall d :: d in order ==> !LeftEmpty(Prune(w, order).world.fs, d)
    decreases |order|
  {
    if |order| > 0 {
      var d := order[0];
      var rest := order[1..];
      var r1 := PruneOne(w, d);
      if d != [] && DirIsEmpty(w.fs, d) == Ok(true) {
        RmdirEffect(w.fs, d);
      }
      assert Valid(r1.world.fs);
      assert forall i, j :: 0 <= i < j < |rest| ==> |rest[j]| <= |rest[i]| by {
        forall i, j | 0 <= i < j < |rest| ensures |rest[j]| <= |rest[i]| {
          assert rest[i] == order[i + 1] && rest[j] == order[j + 1];
        }
      }
      PruneLeavesNoEmptyDirectory(r1.world, rest);
      PruneHeadNotLeftEmpty(w, order);
      var last := Prune(w, order).world.fs;
      assert last == Prune(r1.world, rest).world.fs;
      forall x | x in order ensures !LeftEmpty(last, x) {
        if x != d {
          assert x in rest;
        }
      }
    }
  }

  /** The first listed directory is not left empty: it was removed, kept with a child, or could not be removed. */
  lemma PruneHeadNotLeftEmpty(w: World, order: seq<Path>)
    requires Valid(w.fs) && |order| > 0
    requires forall i, j :: 0 <= i < j < |order| ==> |order[j]| <= |order[i]|
    requires Prune(w, order).outcome.Pass?
    ensures !LeftEmpty(Prune(w, order).world.fs, order[0])
  {
    var d := order[0];
    var rest := order[1..];
    var r1 := PruneOne(w, d);
    if d != [] && DirIsEmpty(w.fs, d) == Ok(true) {
      RmdirEffect(w.fs, d);
    }
    PruneEffect(r1.world, rest);
    var last := Prune(w, order).world.fs;
    assert last == Prune(r1.world, rest).world.fs;
    if d != [] {
      match DirIsEmpty(w.fs, d)
      case Err(_) =>
      case Ok(empty) =>
        if empty {
          if Rmdir(w.fs, d).outcome.Fail? {
            RmdirEmpty(w.fs, d);
          }
        } else {
          var c :| c in w.fs.nodes && Parent(c) == Some(d);
          assert |c| == |d| + 1;
          assert c !in rest by {
            forall k | 0 <= k < |rest| ensures rest[k] != c {
              assert rest[k] == order[k + 1];
            }
          }
          assert c in last.nodes;
        }
    }
  }

  /** Listed directories that all exist and are distinct are pruned without an error. */
  lemma {:induction false} PrunePasses(w: World, order: seq<Path>)
    requires Valid(w.fs)
    requires forall i, j :: 0 <= i < j < |order| ==> order[i] != order[j]
    requires forall d :: d in order ==> IsDir(w.fs, d)
    ensures Prune(w, order).outcome.Pass?
    decreases |order|
  {
    if |order| > 0 {
      var d := order[0];
      var r1 := PruneOne(w, d);
      PruneOneEffect(w, d);
      assert r1.outcome.Pass?;
      forall x | x in order[1..] ensures IsDir(r1.world.fs, x) {
        var k :| 0 <= k < |order[1..]| && order[1..][k] == x;
        assert x == order[k + 1] && x != d;
        assert x in order;
      }
      PrunePasses(r1.world, order[1..]);
    }
  }

  // ---------------------------------------------------------------------------
  // The whole undo

  /**
   * `undo_last_actions`, given the order `remove_directories` processes the
   * collected directories in: a missing log is NotFound; a failed line aborts
   * with the log in place; otherwise the log is removed (if it exists), then the
   * directories are pruned.
   */
  function UndoWith(w: World, order: seq<Path>): WorldStep {
    if w.log.None? then WorldStep(w, Fail(NotFound))
    else
      var r := ReplayLines(w, w.log.value, {});
      if r.outcome.Fail? then WorldStep(r.world, r.outcome)
      else
        var cleared := ClearLog(r.world);
        if cleared.outcome.Fail? then cleared else Prune(cleared.world, order)
  }

  /** The directories a successful replay of the whole log collects. */
  function Affected(w: World): set<Path> {
    ReplayLines(w, w.log.GetOr([]), {}).affected
  }

  /** Pruning never touches the log. */
  lemma {:induction false} PruneKeepsLog(w: World, order: seq<Path>)
    ensures Prune(w, order).world.log == w.log
    decreases |order|
  {
    if |order| > 0 {
      var r := PruneOne(w, order[0]);
      if r.outcome.Pass? {
        PruneKeepsLog(r.world, order[1..]);
      }
    }
  }

  /**
   * `undo_last_actions`: the order it returns is the one `remove_directories`
   * used. Pruning is reached exactly when the log was there and has been
   * removed; it then walks every collected directory, deepest first.
   */
  method UndoLastActions(host: Host) returns (o: Outcome, order: seq<Path>)
    modifies host
    ensures old(host.log).Some? && host.log.None? ==> DeepestFirst(order, Affected(old(host.State())))
    ensures !(old(host.log).Some? && host.log.None?) ==> order == []
    ensures WorldStep(host.State(), o) == UndoWith(old(host.State()), order)
  {
    order := [];
    if !host.LogExists() {
      o := Fail(NotFound);
      return;
    }
    var lines := host.log.value;
    var affected: set<Path> := {};
    var i := 0;
    while i < |lines|
      invariant 0 <= i <= |lines|
      invariant host.log == old(host.log)
      invariant ReplayLines(old(host.State()), lines, {}) == ReplayLines(host.State(), lines[i..], affected)
    {
      assert lines[i..][0] == lines[i];
      assert lines[i..][1..] == lines[i + 1..];
      match lines[i] {
        case Blank =>
        case Malformed =>
          o := Fail(InvalidData);
          return;
        case Record(original, destination) =>
          if original.None? || destination.None? {
            o := Fail(InvalidData);
            return;
          }
          var originalPath := ComponentsOf(original.value);
          var destinationPath := ComponentsOf(destination.value);
          if !host.PathExists(destinationPath) {
            o := Fail(NotFound);
            return;
          }
          if Parent(originalPath).Some? {
            o := host.CreateDirAll(Parent(originalPath).value);
            if o.Fail? {
              return;
            }
          }
          o := host.Rename(destinationPath, originalPath);
          if o.Fail? {
            return;
          }
          affected := CollectAncestors(affected, destinationPath);
      }
      i := i + 1;
    }
    if host.LogExists() {
      o := host.RemoveLogFile();
      if o.Fail? {
        return;
      }
    }
    assert affected == Affected(old(host.State()));
    ghost var cleared := host.State();
    o, order := RemoveDirectories(host, affected);
    PruneKeepsLog(cleared, order);
  }

  // ---------------------------------------------------------------------------
  // Properties of the undo

  /** Without a log the undo fails with NotFound and changes nothing. */
  lemma UndoWithoutLog(w: World, order: seq<Path>)
    requires w.log.None?
    ensures UndoWith(w, order) == WorldStep(w, Fail(NotFound))
  {
  }

  /**
   * A successful undo consumes the log, so running it again finds no log: the
   * second run is NotFound on the log itself and changes nothing.
   */
  lemma UndoTwice(w: World, order: seq<Path>, order': seq<Path>)
    requires Valid(w.fs)
    requires UndoWith(w, order).outcome.Pass?
    ensures UndoWith(w, order).world.log.None?
    ensures UndoWith(UndoWith(w, order).world, order') == WorldStep(UndoWith(w, order).world, Fail(NotFound))
  {
    var r := ReplayLines(w, w.log.value, {});
    ReplayFrame(w, w.log.value, {});
    var cleared := ClearLog(r.world);
    PruneEffect(cleared.world, order);
  }

  /**
   * A failed undo leaves the log in place, so the batch can be retried, and
   * what it changed is exactly what the lines before the failing one did.
   */
  lemma UndoFailureKeepsLog(w: World, order: seq<Path>)
    requires Valid(w.fs) && w.log.Some?
    requires ReplayLines(w, w.log.value, {}).outcome.Fail?
    ensures UndoWith(w, order).outcome.Fail?
    ensures UndoWith(w, order).world.log == w.log
    ensures UndoWith(w, order).world == ReplayLines(w, w.log.value, {}).world
  {
    ReplayFrame(w, w.log.value, {});
  }

  /**
   * A record whose destination is gone aborts the undo with NotFound: the lines
   * before it stay reversed, the lines after it are not looked at, and the log
   * is kept.
   */
  lemma UndoStopsAtMissingDestination(w: World, k: nat, order: seq<Path>)
    requires Valid(w.fs) && w.log.Some? && k < |w.log.value|
    requires var before := ReplayLines(w, w.log.value[..k], {});
      && before.outcome.Pass?
      && w.log.value[k].Record?
      && w.log.value[k].originalPath.Some? && w.log.value[k].destinationPath.Some?
      && !Exists(before.world.fs, ComponentsOf(w.log.value[k].destinationPath.value))
    ensures var before := ReplayLines(w, w.log.value[..k], {});
      UndoWith(w, order) == WorldStep(before.world, Fail(NotFound))
    ensures UndoWith(w, order).world.log == w.log
  {
    var lines := w.log.value;
    var before := ReplayLines(w, lines[..k], {});
    var stop := ReplayLine(before.world, lines[k], before.affected);
    assert stop == Replay(before.world, Fail(NotFound), before.affected);
    assert lines == lines[..k] + lines[k..];
    ReplayConcat(w, lines[..k], lines[k..], {});
    FirstLineFails(before.world, lines[k..], before.affected);
    assert ReplayLines(w, lines, {}) == stop;
    ReplayFrame(w, lines[..k], {});
  }

  /** A replay whose first line fails ends with that line. */
  lemma FirstLineFails(w: World, lines: seq<LogLine>, affected: set<Path>)
    requires |lines| > 0 && ReplayLine(w, lines[0], affected).outcome.Fail?
    ensures ReplayLines(w, lines, affected) == ReplayLine(w, lines[0], affected)
  {
  }

  /** What a successful live placement into a world without a log leaves behind. */
  lemma PlaceWorld(w: World, src: Path, dir: Path, dst: Path)
    requires Valid(w.fs) && WellFormed(src) && WellFormed(dir) && WellFormed(dst)
    requires w.log.None? && !w.logLocked
    requires |dst| > 0 && dst[..|dst| - 1] == dir && dst !in w.fs.nodes
    requires Place(w, src, dir, dst).outcome.Pass?
    ensures var fs0 := MkdirAll(w.fs, dir).fs;
      && Valid(fs0) && GrowsToward(w.fs, fs0, dir) && IsDir(fs0, dir)
      && IsFile(fs0, src) && dst !in fs0.nodes
      && Move(fs0, src, dst).outcome.Pass?
      && Place(w, src, dir, dst).world == w.(fs := Move(fs0, src, dst).fs, log := Some([MoveRecord(src, dst)]))
  {
    var made := MkdirAll(w.fs, dir);
    MkdirAllGrows(w.fs, dir);
    MkdirAllOutcome(w.fs, dir);
    assert !IsPrefix(dst, dir);
    PlaceLogsOneRecord(w, src, dir, dst);
  }

  lemma PlaceLogsOneRecord(w: World, src: Path, dir: Path, dst: Path)
    requires w.log.None? && !w.logLocked
    requires Place(w, src, dir, dst).outcome.Pass?
    ensures var fs0 := MkdirAll(w.fs, dir).fs;
      && IsFile(fs0, src)
      && Move(fs0, src, dst).outcome.Pass?
      && Place(w, src, dir, dst).world == w.(fs := Move(fs0, src, dst).fs, log := Some([MoveRecord(src, dst)]))
  {
    var made := MkdirAll(w.fs, dir);
    MoveEffect(made.fs, src, dst);
    var m := Move(made.fs, src, dst);
    var w0 := w.(fs := m.fs);
    assert w0.log.GetOr([]) + [MoveRecord(src, dst)] == [MoveRecord(src, dst)];
    assert AppendLog(w0, MoveRecord(src, dst)).world == w0.(log := Some([MoveRecord(src, dst)]));
    assert OrganizeLive(w.(fs := made.fs), src, dst) == AppendLog(w0, MoveRecord(src, dst));
  }

  /** After a rename onto a free name, the original's folder still exists and renaming back restores the filesystem. */
  lemma MoveUndoable(fs0: FileSystem, src: Path, dst: Path)
    requires Valid(fs0) && WellFormed(dst)
    requires IsFile(fs0, src) && dst !in fs0.nodes && src != dst
    requires Move(fs0, src, dst).outcome.Pass?
    ensures var fs1 := Move(fs0, src, dst).fs; var up := src[..|src| - 1];
      && Parent(src) == Some(up)
      && MkdirAll(fs1, up) == FsStep(fs1, Pass)
      && Move(fs1, dst, src) == FsStep(fs0, Pass)
  {
    var fs1 := Move(fs0, src, dst).fs;
    MoveEffect(fs0, src, dst);
    MoveValid(fs0, src, dst);
    var up := src[..|src| - 1];
    assert Parent(src) == Some(up);
    assert IsDir(fs0, up);
    assert IsDir(fs1, up) by {
      if !IsRoot(up) {
        assert up != src && up != dst;
      }
    }
    MkdirAllExisting(fs1, up);
    MoveBack(fs0, src, dst);
  }

  /** Replaying the record of a move onto a free name renames the file back and collects the destination's ancestors. */
  lemma ReplayOwnRecord(w: World, fs0: FileSystem, src: Path, dst: Path)
    requires Valid(fs0) && WellFormed(src) && WellFormed(dst)
    requires IsFile(fs0, src) && dst !in fs0.nodes && src != dst
    requires Move(fs0, src, dst).outcome.Pass?
    ensures ReplayLines(w.(fs := Move(fs0, src, dst).fs), [MoveRecord(src, dst)], {})
      == Replay(w.(fs := fs0), Pass, Ancestors(dst))
  {
    MoveUndoable(fs0, src, dst);
    RenderRoundTrip(src);
    RenderRoundTrip(dst);
    assert Exists(Move(fs0, src, dst).fs, dst);
  }

  /**
   * The round trip of one file: a live placement of `src` at `dst` (create the
   * folder, rename, log) into a world without a log, followed by the undo.
   * The undo succeeds and consumes the log; every file, the moved one
   * included, is back where it was; nothing outside the destination's
   * ancestors is removed; and none of those ancestors (up to the filesystem
   * root, not only up to the destination root) is left behind empty.
   */
  lemma PlaceThenUndo(w: World, src: Path, dir: Path, dst: Path, order: seq<Path>)
    requires Valid(w.fs) && WellFormed(src) && WellFormed(dir) && WellFormed(dst)
    requires w.log.None? && !w.logLocked
    requires |dst| > 0 && dst[..|dst| - 1] == dir && dst !in w.fs.nodes && src != dst
    requires Place(w, src, dir, dst).outcome.Pass?
    requires DeepestFirst(order, Ancestors(dst))
    ensures var u := UndoWith(Place(w, src, dir, dst).world, order);
      && u.outcome.Pass?
      && u.world.log.None? && u.world.logLocked == w.logLocked
      && (forall q :: IsFile(u.world.fs, q) <==> IsFile(w.fs, q))
      && (forall q :: IsFile(w.fs, q) ==> u.world.fs.nodes[q] == w.fs.nodes[q])
      && (forall q :: q in w.fs.nodes && q !in Ancestors(dst) ==> q in u.world.fs.nodes)
      && (forall d :: d in Ancestors(dst) ==> !LeftEmpty(u.world.fs, d))
  {
    var fs0 := MkdirAll(w.fs, dir).fs;
    UndoAfterPlaceIsPrune(w, src, dir, dst, order);
    PruneAfterPlace(w, fs0, dir, dst, order);
  }

  /** Undoing a lone placement replays its record, clears the log, and leaves the prune of the restored world. */
  lemma UndoAfterPlaceIsPrune(w: World, src: Path, dir: Path, dst: Path, order: seq<Path>)
    requires Valid(w.fs) && WellFormed(src) && WellFormed(dir) && WellFormed(dst)
    requires w.log.None? && !w.logLocked
    requires |dst| > 0 && dst[..|dst| - 1] == dir && dst !in w.fs.nodes && src != dst
    requires Place(w, src, dir, dst).outcome.Pass?
    ensures var fs0 := MkdirAll(w.fs, dir).fs;
      && Valid(fs0) && GrowsToward(w.fs, fs0, dir) && IsDir(fs0, dir) && !IsRoot(dst)
      && UndoWith(Place(w, src, dir, dst).world, order) == Prune(w.(fs := fs0), order)
  {
    var fs0 := MkdirAll(w.fs, dir).fs;
    PlaceWorld(w, src, dir, dst);
    var w1 := Place(w, src, dir, dst).world;
    ReplayOwnRecord(w.(log := Some([MoveRecord(src, dst)])), fs0, src, dst);
    var back := w.(fs := fs0, log := Some([MoveRecord(src, dst)]));
    assert ReplayLines(w1, w1.log.value, {}) == Replay(back, Pass, Ancestors(dst));
    assert ClearLog(back) == WorldStep(w.(fs := fs0), Pass);
  }

  /**
   * Pruning the destination's ancestors after the record was replayed: it
   * succeeds, keeps every file and everything outside those ancestors, and
   * leaves none of them empty.
   */
  lemma PruneAfterPlace(w: World, fs0: FileSystem, dir: Path, dst: Path, order: seq<Path>)
    requires Valid(w.fs) && Valid(fs0) && GrowsToward(w.fs, fs0, dir) && IsDir(fs0, dir)
    requires !IsRoot(dst) && dst[..|dst| - 1] == dir
    requires DeepestFirst(order, Ancestors(dst))
    ensures var u := Prune(w.(fs := fs0), order);
      && u.outcome.Pass?
      && u.world.log == w.log && u.world.logLocked == w.logLocked
      && (forall q :: IsFile(u.world.fs, q) <==> IsFile(w.fs, q))
      && (forall q :: IsFile(w.fs, q) ==> u.world.fs.nodes[q] == w.fs.nodes[q])
      && (forall q :: q in w.fs.nodes && q !in Ancestors(dst) ==> q in u.world.fs.nodes)
      && (forall d :: d in Ancestors(dst) ==> !LeftEmpty(u.world.fs, d))
  {
    var restored := w.(fs := fs0);
    AncestorsOfDirectory(fs0, dir);
    assert Ancestors(dst) == {dir} + Ancestors(dir);
    PrunePasses(restored, order);
    PruneEffect(restored, order);
    PruneLeavesNoEmptyDirectory(restored, order);
  }
}
