/**
 * Processing a whole directory (src/file_processor.rs): walk the source tree,
 * keep the regular files, hand each one to the processor the factory picks for
 * it, threading the one processing mode through every call, and in a dry run
 * render the accumulated virtual tree at the end.
 */
module FileProcessor {
  import opened Wrappers
  import opened Paths
  import opened Files
  import opened Env
  import opened Modes
  import opened Organizer
  import opened Traits
  import VirtualDir
  import Images
  import Documents
  import Videos
  import Compressed
  import Generic
  import Seqs

  /** One item of the recursive walk: an entry and whether it is a regular file, or a walk error. */
  datatype WalkEntry = Entry(path: Path, isFile: bool) | WalkError

  /** `filter_map(Result::ok)`, `filter(is_file)`, `map(into_path)`: the regular files, in walk order. */
  function RegularFiles(entries: seq<WalkEntry>): (paths: seq<Path>)
    ensures |paths| <= |entries|
    ensures forall p :: p in paths <==> Entry(p, true) in entries
    ensures (forall e :: e in entries && e.Entry? && e.isFile ==> FileName(e.path).Some?) ==> Named(paths)
    decreases |entries|
  {
    if |entries| == 0 then []
    else
      var rest := RegularFiles(entries[..|entries| - 1]);
      assert entries == entries[..|entries| - 1] + [entries[|entries| - 1]];
      match entries[|entries| - 1]
      case Entry(p, isFile) => if isFile then rest + [p] else rest
      case WalkError => rest
  }

  /** A single walk item yields its path when it is a regular file, and nothing otherwise. */
  lemma RegularFilesOne(e: WalkEntry)
    ensures RegularFiles([e]) == if e.Entry? && e.isFile then [e.path] else []
  {
    assert [e][..0] == [];
  }

  /** The filter keeps walk order and multiplicity: it distributes over concatenation. */
  lemma {:induction false} RegularFilesConcat(a: seq<WalkEntry>, b: seq<WalkEntry>)
    ensures RegularFiles(a + b) == RegularFiles(a) + RegularFiles(b)
    decreases |b|
  {
    if |b| == 0 {
      assert a + b == a;
    } else {
      var init := b[..|b| - 1];
      var last := b[|b| - 1];
      assert (a + b)[..|a + b| - 1] == a + init;
      assert (a + b)[|a + b| - 1] == last;
      RegularFilesConcat(a, init);
      assert b[..|b| - 1] == init;
    }
  }

  /** Every path has a file name, as every regular file a walk yields does. */
  predicate Named(paths: seq<Path>) {
    forall i :: 0 <= i < |paths| ==> FileName(paths[i]).Some?
  }

  /** The destination folder and file path that the processor of `kind` computes for `path` under `base`. */
  function Target(kind: ProcessorKind, fs: FileSystem, path: Path, base: Path): (Path, Path)
    requires FileName(path).Some?
  {
    match kind
    case ImageProcessor => (Images.DestinationDir(fs, path, base), Images.Destination(fs, path, base))
    case VideoProcessor => (Videos.DestinationDir(base), Videos.Destination(path, base))
    case DocumentProcessor => (Documents.DestinationDir(LowerExtension(path), base), Documents.Destination(path, base))
    case CompressedFileProcessor => (Compressed.DestinationDir(base), Compressed.Destination(path, base))
    case GenericProcessor => (Generic.DestinationDir(base), Generic.Destination(path, base))
  }

  /**
   * Every processor puts the file, under its own name, in a folder strictly
   * below `base`; folder and file path are well formed when `base` and the
   * file's path are, and no component after `base` is "..".
   */
  lemma TargetShape(kind: ProcessorKind, fs: FileSystem, path: Path, base: Path)
    requires FileName(path).Some?
    ensures var t := Target(kind, fs, path, base);
      && t.1 == t.0 + [FileName(path).value]
      && IsPrefix(base, t.0) && |t.0| > |base| && IsPrefix(base, t.1)
      && (WellFormed(base) ==> WellFormed(t.0))
      && (WellFormed(base) && WellFormed(path) ==> WellFormed(t.1))
      && (forall i :: |base| <= i < |t.0| ==> Downward(t.0[i]))
      && (WellFormed(path) ==> forall i :: |base| <= i < |t.1| ==> Downward(t.1[i]))
  {
    var t := Target(kind, fs, path, base);
    var rest := Folder(kind, fs, path);
    TargetInFolder(kind, fs, path, base);
    FolderBelow(base, rest, FileName(path).value);
    assert WellFormed(path) ==> Downward(FileName(path).value) by {
      if WellFormed(path) { assert path[|path| - 1] == FileName(path).value; }
    }
    forall i | |base| <= i < |t.1| && WellFormed(path) ensures Downward(t.1[i]) {
      if i < |t.0| { assert t.1[i] == rest[i - |base|]; }
    }
  }

  /**
   * The components each processor adds below the base destination: never none,
   * each a plain name other than "..", so the folder is below the base even once
   * ".." is resolved.
   */
  function Folder(kind: ProcessorKind, fs: FileSystem, path: Path): (rest: Path)
    ensures |rest| > 0 && forall i :: 0 <= i < |rest| ==> Downward(rest[i])
  {
    match kind
    case ImageProcessor =>
      Images.DateFolderDownward(fs, path);
      ["Images"] + ComponentsOf(Images.DateFolder(fs, path))
    case VideoProcessor => [Videos.Subfolder]
    case DocumentProcessor =>
      Documents.SubfolderPlain(LowerExtension(path));
      ["Documents", Documents.Subfolder(LowerExtension(path))]
    case CompressedFileProcessor => [Compressed.Subfolder]
    case GenericProcessor => [Generic.Subfolder]
  }

  lemma TargetInFolder(kind: ProcessorKind, fs: FileSystem, path: Path, base: Path)
    requires FileName(path).Some?
    ensures Target(kind, fs, path, base)
      == (base + Folder(kind, fs, path), base + Folder(kind, fs, path) + [FileName(path).value])
  {
    var rest := Folder(kind, fs, path);
    match kind {
      case ImageProcessor =>
        assert Images.Subfolder(fs, path) == rest;
      case DocumentProcessor =>
        var sub := Documents.Subfolder(LowerExtension(path));
        Documents.SubfolderPlain(LowerExtension(path));
        assert rest == ["Documents"] + [sub];
        assert Documents.DestinationDir(LowerExtension(path), base) == base + ["Documents"] + [sub];
        Seqs.Regroup(base, ["Documents"], [sub], []);
        assert Target(kind, fs, path, base).0 == base + rest;
        assert Target(kind, fs, path, base).1 == base + rest + [FileName(path).value];
      case _ =>
    }
  }

  /** A folder `base + rest` of plain components lies strictly below `base`, and so does a file in it. */
  lemma FolderBelow(base: Path, rest: Path, name: string)
    requires |rest| > 0 && forall i :: 0 <= i < |rest| ==> Plain(rest[i])
    ensures IsPrefix(base, base + rest) && IsPrefix(base, base + rest + [name])
    ensures WellFormed(base) ==> WellFormed(base + rest)
    ensures WellFormed(base) && Plain(name) ==> WellFormed(base + rest + [name])
  {
    assert (base + rest)[..|base|] == base;
    assert (base + rest + [name])[..|base|] == base;
  }

  /** One `create_processor` and `process` call: the factory guesses the MIME type with `mime`. */
  function ProcessFile(mime: Path -> Option<MimeTop>, base: Path, p: Progress, path: Path): Progress
    requires FileName(path).Some?
  {
    var t := Target(CreateProcessor(mime(path), path), p.world.fs, path, base);
    ProcessEffect(p.mode, p.world, path, t.0, t.1)
  }

  /** The `for_each` over the collected paths, one file after the other. */
  function ProcessAll(mime: Path -> Option<MimeTop>, base: Path, start: Progress, paths: seq<Path>): Progress
    requires Named(paths)
    decreases |paths|
  {
    if |paths| == 0 then start
    else ProcessFile(mime, base, ProcessAll(mime, base, start, paths[..|paths| - 1]), paths[|paths| - 1])
  }

  /** The body of the `for_each`: the factory picks a processor for `path`, which then processes it. */
  method ProcessOne(host: Host, path: Path, baseDest: Path, mode: ProcessingMode, mime: Path -> Option<MimeTop>)
    returns (mode': ProcessingMode)
    requires FileName(path).Some?
    modifies host
    ensures Progress(mode', host.State()) == ProcessFile(mime, baseDest, Progress(mode, old(host.State())), path)
  {
    match CreateProcessor(mime(path), path) {
      case ImageProcessor => mode' := Images.Process(host, path, baseDest, mode);
      case VideoProcessor => mode' := Videos.Process(host, path, baseDest, mode);
      case DocumentProcessor => mode' := Documents.Process(host, path, baseDest, mode);
      case CompressedFileProcessor => mode' := Compressed.Process(host, path, baseDest, mode);
      case GenericProcessor => mode' := Generic.Process(host, path, baseDest, mode);
    }
  }

  /**
   * `process_directory`, given the walk's entries and the MIME guesser: every
   * regular file is processed in walk order (a failure in one never stops the
   * others), and a dry run ends with the rendered tree, which the source prints.
   */
  method ProcessDirectory(host: Host, entries: seq<WalkEntry>, baseDest: Path, mode: ProcessingMode,
                          mime: Path -> Option<MimeTop>)
    returns (mode': ProcessingMode, preview: Option<seq<string>>)
    requires forall e :: e in entries && e.Entry? && e.isFile ==> FileName(e.path).Some?
    modifies host
    ensures Progress(mode', host.State()) == ProcessAll(mime, baseDest, Progress(mode, old(host.State())), RegularFiles(entries))
    ensures preview == if mode'.DryRun? then Some(VirtualDir.Render(mode'.tree, "")) else None
  {
    var paths := RegularFiles(entries);
    ghost var start := Progress(mode, host.State());
    mode' := mode;
    var i := 0;
    while i < |paths|
      invariant 0 <= i <= |paths|
      invariant Named(paths[..i])
      invariant Progress(mode', host.State()) == ProcessAll(mime, baseDest, start, paths[..i])
    {
      ghost var done := paths[..i];
      mode' := ProcessOne(host, paths[i], baseDest, mode', mime);
      ProcessAllSnoc(mime, baseDest, start, done, paths[i]);
      Seqs.PrefixGrows(paths, i);
      i := i + 1;
    }
    Seqs.WholePrefix(paths);
    if mode'.DryRun? {
      var lines := VirtualDir.PrintTree(mode'.tree);
      preview := Some(lines);
    } else {
      preview := None;
    }
  }

  // ---------------------------------------------------------------------------
  // Dry runs
  // ---------------------------------------------------------------------------

  /** The destination of every path, as the processors compute them over `fs`. */
  function Destinations(mime: Path -> Option<MimeTop>, base: Path, fs: FileSystem, paths: seq<Path>): (ds: seq<Path>)
    requires Named(paths)
    ensures |ds| == |paths|
    decreases |paths|
  {
    if |paths| == 0 then []
    else
      var path := paths[|paths| - 1];
      Destinations(mime, base, fs, paths[..|paths| - 1]) + [Target(CreateProcessor(mime(path), path), fs, path, base).1]
  }

  /**
   * A dry run touches neither the filesystem nor the log, stays a dry run, and
   * its tree holds exactly the files it held before plus every destination.
   */
  lemma {:induction false} DryRunPlansEverything(mime: Path -> Option<MimeTop>, base: Path, t: VirtualDir.VirtualDirectory,
                                                 w: World, paths: seq<Path>)
    requires Named(paths)
    ensures var r := ProcessAll(mime, base, Progress(DryRun(t), w), paths);
      && r.world == w && r.mode.DryRun?
      && forall q :: VirtualDir.ContainsFile(r.mode.tree, q) <==>
           VirtualDir.ContainsFile(t, q) || q in Destinations(mime, base, w.fs, paths)
    decreases |paths|
  {
    if |paths| > 0 {
      var init := paths[..|paths| - 1];
      var path := paths[|paths| - 1];
      DryRunPlansEverything(mime, base, t, w, init);
      var before := ProcessAll(mime, base, Progress(DryRun(t), w), init);
      var dst := Target(CreateProcessor(mime(path), path), w.fs, path, base).1;
      TargetShape(CreateProcessor(mime(path), path), w.fs, path, base);
      assert Destinations(mime, base, w.fs, paths) == Destinations(mime, base, w.fs, init) + [dst];
      forall q ensures VirtualDir.ContainsFile(VirtualDir.AddPath(before.mode.tree, dst), q) <==>
                       VirtualDir.ContainsFile(before.mode.tree, q) || q == dst {
        VirtualDir.AddPathContainsExactly(before.mode.tree, dst, q);
      }
    }
  }

  /** Every file of a dry run has its destination in the final tree. */
  lemma DryRunContainsEvery(mime: Path -> Option<MimeTop>, base: Path, w: World, paths: seq<Path>, i: nat)
    requires Named(paths) && i < |paths|
    ensures var r := ProcessAll(mime, base, Progress(DryRun(VirtualDir.Empty), w), paths);
      r.mode.DryRun? &&
      VirtualDir.ContainsFile(r.mode.tree, Target(CreateProcessor(mime(paths[i]), paths[i]), w.fs, paths[i], base).1)
  {
    DryRunPlansEverything(mime, base, VirtualDir.Empty, w, paths);
    DestinationsAt(mime, base, w.fs, paths, i);
  }

  lemma {:induction false} DestinationsAt(mime: Path -> Option<MimeTop>, base: Path, fs: FileSystem, paths: seq<Path>, i: nat)
    requires Named(paths) && i < |paths|
    ensures Destinations(mime, base, fs, paths)[i] == Target(CreateProcessor(mime(paths[i]), paths[i]), fs, paths[i], base).1
    decreases |paths|
  {
    if i < |paths| - 1 {
      DestinationsAt(mime, base, fs, paths[..|paths| - 1], i);
    }
  }

  lemma ProcessAllSnoc(mime: Path -> Option<MimeTop>, base: Path, start: Progress, init: seq<Path>, path: Path)
    requires Named(init) && FileName(path).Some?
    ensures Named(init + [path])
    ensures ProcessAll(mime, base, start, init + [path]) == ProcessFile(mime, base, ProcessAll(mime, base, start, init), path)
  {
    assert (init + [path])[..|init|] == init;
  }

  // ---------------------------------------------------------------------------
  // Live runs
  // ---------------------------------------------------------------------------

  /** A log line that records moving `path` somewhere. */
  predicate RecordsMove(line: LogLine, path: Path) {
    line.Record? && line.originalPath == Some(Render(path)) && line.destinationPath.Some?
  }

  /**
   * `lines` record moves of some of `paths`, at most one line per path and in
   * the order of `paths`: each path in turn contributes either nothing or the
   * next line.
   */
  predicate RecordsInOrder(lines: seq<LogLine>, paths: seq<Path>)
    decreases |paths|
  {
    if |paths| == 0 then lines == []
    else
      var init := paths[..|paths| - 1];
      || RecordsInOrder(lines, init)
      || (&& |lines| > 0
          && RecordsInOrder(lines[..|lines| - 1], init)
          && RecordsMove(lines[|lines| - 1], paths[|paths| - 1]))
  }

  /** The log is unchanged, or it now exists and extends the old one by records of moves of `paths`, in order. */
  predicate LogExtends(before: Option<seq<LogLine>>, after: Option<seq<LogLine>>, paths: seq<Path>) {
    after == before ||
    (after.Some? && before.GetOr([]) <= after.value &&
     RecordsInOrder(after.value[|before.GetOr([])|..], paths))
  }

  /** No lines record moves of any paths. */
  lemma {:induction false} NoRecords(paths: seq<Path>)
    ensures RecordsInOrder([], paths)
    decreases |paths|
  {
    if |paths| > 0 {
      NoRecords(paths[..|paths| - 1]);
    }
  }

  /** A path that wrote no line can be added after the others. */
  lemma RecordsInOrderSkip(lines: seq<LogLine>, init: seq<Path>, path: Path)
    requires RecordsInOrder(lines, init)
    ensures RecordsInOrder(lines, init + [path])
  {
    assert (init + [path])[..|init|] == init;
  }

  /** A path that wrote the next line can be added after the others. */
  lemma RecordsInOrderTake(lines: seq<LogLine>, init: seq<Path>, path: Path, line: LogLine)
    requires RecordsInOrder(lines, init) && RecordsMove(line, path)
    ensures RecordsInOrder(lines + [line], init + [path])
  {
    assert (init + [path])[..|init|] == init;
    assert (lines + [line])[..|lines|] == lines;
  }

  /** At most one line per path. */
  lemma {:induction false} RecordsAtMostOnePerPath(lines: seq<LogLine>, paths: seq<Path>)
    requires RecordsInOrder(lines, paths)
    ensures |lines| <= |paths|
    decreases |paths|
  {
    if |paths| > 0 {
      var init := paths[..|paths| - 1];
      if RecordsInOrder(lines, init) {
        RecordsAtMostOnePerPath(lines, init);
      } else {
        RecordsAtMostOnePerPath(lines[..|lines| - 1], init);
      }
    }
  }

  /** Every line records a move of one of the paths. */
  lemma {:induction false} RecordsOfPaths(lines: seq<LogLine>, paths: seq<Path>, k: nat)
    requires RecordsInOrder(lines, paths) && k < |lines|
    ensures exists i :: 0 <= i < |paths| && RecordsMove(lines[k], paths[i])
    decreases |paths|
  {
    var init := paths[..|paths| - 1];
    if RecordsInOrder(lines, init) {
      RecordsOfPaths(lines, init, k);
      var i :| 0 <= i < |init| && RecordsMove(lines[k], init[i]);
      assert paths[i] == init[i];
    } else if k == |lines| - 1 {
      assert RecordsMove(lines[k], paths[|paths| - 1]);
    } else {
      RecordsOfPaths(lines[..|lines| - 1], init, k);
      var i :| 0 <= i < |init| && RecordsMove(lines[..|lines| - 1][k], init[i]);
      assert paths[i] == init[i];
    }
  }

  /** Appending the record of moving `path`, or nothing, keeps the log an in-order extension. */
  lemma LogExtendsStep(a: Option<seq<LogLine>>, b: Option<seq<LogLine>>, c: Option<seq<LogLine>>,
                       init: seq<Path>, path: Path, dst: Path)
    requires LogExtends(a, b, init) && LogGrowsBy(b, c, MoveRecord(path, dst))
    ensures LogExtends(a, c, init + [path])
  {
    var start := a.GetOr([]);
    var line := MoveRecord(path, dst);
    if c == b {
      if b != a {
        RecordsInOrderSkip(b.value[|start|..], init, path);
      }
    } else {
      assert c.value == b.GetOr([]) + [line];
      if b == a {
        NoRecords(init);
        RecordsInOrderTake([], init, path, line);
        assert c.value[|start|..] == [] + [line];
      } else {
        RecordsInOrderTake(b.value[|start|..], init, path, line);
        assert c.value[|start|..] == b.value[|start|..] + [line];
      }
    }
  }

  /** Every file outside `base` that is not among `done` is where it was in `w`. */
  ghost predicate KeepsOthers(w: World, fs: FileSystem, base: Path, done: seq<Path>) {
    forall q :: IsFile(w.fs, q) && q !in done && !IsPrefix(base, q) ==> IsFile(fs, q) && fs.nodes[q] == w.fs.nodes[q]
  }

  /**
   * What a live run from `w` has kept true once it has processed `done`: it is
   * still live, the filesystem is valid, the log's lock is as it was, the log
   * only gained move records of processed files, and the other files outside
   * `base` are untouched.
   */
  ghost predicate LiveSoFar(w: World, base: Path, p: Progress, done: seq<Path>) {
    && p.mode == Live && Valid(p.world.fs) && p.world.logLocked == w.logLocked
    && LogExtends(w.log, p.world.log, done)
    && KeepsOthers(w, p.world.fs, base, done)
  }

  /** One more live step keeps `LiveSoFar`, with the processed file added to `done`. */
  lemma LiveStep(mime: Path -> Option<MimeTop>, base: Path, w: World, p: Progress, done: seq<Path>, path: Path)
    requires FileName(path).Some? && WellFormed(base) && WellFormed(path)
    requires LiveSoFar(w, base, p, done)
    ensures LiveSoFar(w, base, ProcessFile(mime, base, p, path), done + [path])
  {
    var t := Target(CreateProcessor(mime(path), path), p.world.fs, path, base);
    TargetShape(CreateProcessor(mime(path), path), p.world.fs, path, base);
    PlaceEffect(p.world, path, t.0, t.1);
    var r := Place(p.world, path, t.0, t.1).world;
    assert ProcessFile(mime, base, p, path) == Progress(Live, r);
    LogExtendsStep(w.log, p.world.log, r.log, done, path, t.1);
    forall q | IsFile(w.fs, q) && q !in done + [path] && !IsPrefix(base, q)
      ensures IsFile(r.fs, q) && r.fs.nodes[q] == w.fs.nodes[q]
    {
      assert q !in done && q != path && q != t.1;
    }
  }

  /** A live run keeps `LiveSoFar` all the way. */
  lemma {:induction false} LiveRun(mime: Path -> Option<MimeTop>, base: Path, w: World, paths: seq<Path>)
    requires Named(paths) && Valid(w.fs) && WellFormed(base)
    requires forall i :: 0 <= i < |paths| ==> WellFormed(paths[i])
    ensures LiveSoFar(w, base, ProcessAll(mime, base, Progress(Live, w), paths), paths)
    decreases |paths|
  {
    if |paths| == 0 {
      assert LogExtends(w.log, w.log, []);
    } else {
      var init := paths[..|paths| - 1];
      var path := paths[|paths| - 1];
      assert paths == init + [path];
      LiveRun(mime, base, w, init);
      ProcessAllSnoc(mime, base, Progress(Live, w), init, path);
      LiveStep(mime, base, w, ProcessAll(mime, base, Progress(Live, w), init), init, path);
    }
  }

  /**
   * A live run stays live, keeps the filesystem valid and the log's lock as it
   * was, and only appends move records of the processed files to the log, at
   * most one per file and in the order the files were processed.
   */
  lemma LiveRunLog(mime: Path -> Option<MimeTop>, base: Path, w: World, paths: seq<Path>)
    requires Named(paths) && Valid(w.fs) && WellFormed(base)
    requires forall i :: 0 <= i < |paths| ==> WellFormed(paths[i])
    ensures var r := ProcessAll(mime, base, Progress(Live, w), paths);
      && r.mode == Live && Valid(r.world.fs) && r.world.logLocked == w.logLocked
      && LogExtends(w.log, r.world.log, paths)
      && (r.world.log != w.log ==> |r.world.log.value| <= |w.log.GetOr([])| + |paths|)
  {
    LiveRun(mime, base, w, paths);
    var r := ProcessAll(mime, base, Progress(Live, w), paths);
    if r.world.log != w.log {
      RecordsAtMostOnePerPath(r.world.log.value[|w.log.GetOr([])|..], paths);
    }
  }

  /** A live run leaves every file that was not processed and lies outside `base` where it was. */
  lemma LiveRunKeepsOthers(mime: Path -> Option<MimeTop>, base: Path, w: World, paths: seq<Path>)
    requires Named(paths) && Valid(w.fs) && WellFormed(base)
    requires forall i :: 0 <= i < |paths| ==> WellFormed(paths[i])
    ensures var r := ProcessAll(mime, base, Progress(Live, w), paths);
      forall q :: IsFile(w.fs, q) && q !in paths && !IsPrefix(base, q) ==>
        IsFile(r.world.fs, q) && r.world.fs.nodes[q] == w.fs.nodes[q]
  {
    LiveRun(mime, base, w, paths);
  }
}
