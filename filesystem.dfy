/**
 * The abstract filesystem the program moves files in: a map from paths to
 * nodes, plus the set of directories whose entries cannot be created or
 * removed (a permission failure), and the system calls the program uses on it:
 * `create_dir_all`, `rename`, `remove_dir`, `read_dir` (for emptiness) and
 * `exists`. Each call follows the error order of the POSIX call beneath it.
 */
module Files {
  import opened Wrappers
  import opened Paths

  type MonthNumber = m: int | 1 <= m <= 12 witness 1

  /** A modification time, already converted to the local calendar: year and month. */
  datatype LocalDate = LocalDate(year: int, month: MonthNumber)

  /** An EXIF `DateTimeOriginal` value as the EXIF reader displays it. */
  type ExifDate = s: string | HasToken(s) witness "0"

  /** A regular file carries what the image processor reads from it; a directory carries nothing. */
  datatype Node = File(exif: Option<ExifDate>, modified: Option<LocalDate>) | Dir

  datatype FileSystem = FileSystem(nodes: map<Path, Node>, locked: set<Path>)

  datatype IoError =
    | NotFound | AlreadyExists | PermissionDenied | NotADirectory | IsADirectory
    | DirectoryNotEmpty | ResourceBusy | InvalidData | Unsupported | Uncategorized

  /** `io::Result<()>`. */
  datatype Outcome = Pass | Fail(error: IoError)

  /** `io::Result<T>`. */
  datatype Result<T> = Ok(value: T) | Err(error: IoError)

  /** A system call's effect: the filesystem afterwards and what the call returned. */
  datatype FsStep = FsStep(fs: FileSystem, outcome: Outcome)

  /** "" (the working directory) and "/" are always directories. */
  predicate IsDir(fs: FileSystem, p: Path) {
    IsRoot(p) || (p in fs.nodes && fs.nodes[p].Dir?)
  }

  predicate IsFile(fs: FileSystem, p: Path) {
    p in fs.nodes && fs.nodes[p].File?
  }

  /** `Path::exists`: "/" exists, the empty path does not (stat("") fails). */
  predicate Exists(fs: FileSystem, p: Path) {
    p == [RootDir] || p in fs.nodes
  }

  predicate HasChild(fs: FileSystem, p: Path) {
    exists c :: c in fs.nodes && Parent(c) == Some(p)
  }

  /** Every node has a well-formed path whose parent is a directory. */
  predicate Valid(fs: FileSystem) {
    forall p :: p in fs.nodes ==> WellFormed(p) && !IsRoot(p) && IsDir(fs, p[..|p| - 1])
  }

  predicate IsPrefix(q: Path, p: Path) {
    |q| <= |p| && p[..|q|] == q
  }

  /** The error met while resolving `q` as a directory: the first ancestor that is missing or a file. */
  function DirError(fs: FileSystem, q: Path): (r: Option<IoError>)
    ensures r.None? <==> IsDir(fs, q)
    ensures r.Some? ==> r.value == NotFound || r.value == NotADirectory
    decreases |q|
  {
    if IsDir(fs, q) then None
    else if q in fs.nodes then Some(NotADirectory)
    else
      var r := q[..|q| - 1];
      if IsDir(fs, r) then Some(NotFound) else DirError(fs, r)
  }

  /** `mkdir(2)`: path resolution, then existence, then permission. */
  function MkdirError(fs: FileSystem, p: Path): Option<IoError> {
    if p == [] then Some(NotFound)
    else if p == [RootDir] then Some(AlreadyExists)
    else if DirError(fs, p[..|p| - 1]).Some? then DirError(fs, p[..|p| - 1])
    else if p in fs.nodes then Some(AlreadyExists)
    else if p[..|p| - 1] in fs.locked then Some(PermissionDenied)
    else None
  }

  /**
   * `fs::create_dir_all`, as the standard library writes it: "" succeeds; try
   * `mkdir`; on NotFound create the parent and try again; any other error is
   * forgiven when the path is a directory by then.
   */
  function MkdirAll(fs: FileSystem, p: Path): FsStep
    decreases |p|
  {
    if p == [] then FsStep(fs, Pass)
    else match MkdirError(fs, p)
      case None => FsStep(fs.(nodes := fs.nodes[p := Dir]), Pass)
      case Some(NotFound) =>
        if p == [RootDir] then FsStep(fs, Fail(Uncategorized))
        else
          var up := MkdirAll(fs, p[..|p| - 1]);
          if up.outcome.Fail? then up
          else (match MkdirError(up.fs, p)
            case None => FsStep(up.fs.(nodes := up.fs.nodes[p := Dir]), Pass)
            case Some(e) => if IsDir(up.fs, p) then up else FsStep(up.fs, Fail(e)))
      case Some(e) => if IsDir(fs, p) then FsStep(fs, Pass) else FsStep(fs, Fail(e))
  }

  /**
   * `fs::rename` of a regular file: the destination's directory must resolve, a
   * directory at the destination is refused, an existing file there is replaced,
   * and renaming a file onto itself changes nothing.
   */
  function Move(fs: FileSystem, src: Path, dst: Path): FsStep {
    if src !in fs.nodes || src == [] then FsStep(fs, Fail(NotFound))
    else if fs.nodes[src].Dir? then FsStep(fs, Fail(Unsupported))
    else if dst == [] then FsStep(fs, Fail(NotFound))
    else if IsDir(fs, dst) then FsStep(fs, Fail(IsADirectory))
    else if DirError(fs, dst[..|dst| - 1]).Some? then FsStep(fs, Fail(DirError(fs, dst[..|dst| - 1]).value))
    else if src == dst then FsStep(fs, Pass)
    else if src[..|src| - 1] in fs.locked || dst[..|dst| - 1] in fs.locked then FsStep(fs, Fail(PermissionDenied))
    else FsStep(fs.(nodes := (fs.nodes - {src})[dst := fs.nodes[src]]), Pass)
  }

  /** `fs::remove_dir`: "/" is busy, then resolution, then type, then emptiness, then permission. */
  function Rmdir(fs: FileSystem, p: Path): FsStep {
    if p == [] then FsStep(fs, Fail(NotFound))
    else if p == [RootDir] then FsStep(fs, Fail(ResourceBusy))
    else if DirError(fs, p[..|p| - 1]).Some? then FsStep(fs, Fail(DirError(fs, p[..|p| - 1]).value))
    else if p !in fs.nodes then FsStep(fs, Fail(NotFound))
    else if fs.nodes[p].File? then FsStep(fs, Fail(NotADirectory))
    else if HasChild(fs, p) then FsStep(fs, Fail(DirectoryNotEmpty))
    else if p[..|p| - 1] in fs.locked then FsStep(fs, Fail(PermissionDenied))
    else FsStep(fs.(nodes := fs.nodes - {p}), Pass)
  }

  /** `is_dir_empty`: `read_dir` fails unless the path is an existing directory; then, whether it has no entry. */
  function DirIsEmpty(fs: FileSystem, p: Path): (r: Result<bool>)
    ensures r == Ok(true) ==> IsDir(fs, p) && p != [] && !HasChild(fs, p)
    ensures r == Ok(false) ==> HasChild(fs, p)
    ensures Valid(fs) ==> (r.Err? <==> !IsDir(fs, p) || p == [])
  {
    if p == [] then Err(NotFound)
    else if p == [RootDir] then Ok(!HasChild(fs, p))
    else if DirError(fs, p[..|p| - 1]).Some? then Err(DirError(fs, p[..|p| - 1]).value)
    else if p !in fs.nodes then Err(NotFound)
    else if fs.nodes[p].File? then Err(NotADirectory)
    else Ok(!HasChild(fs, p))
  }

  // ---------------------------------------------------------------------------
  // Properties of the calls

  /** The nodes of `fs` are all kept, unchanged, in `fs2`; anything new is a directory on the way to `p`. */
  predicate GrowsToward(fs: FileSystem, fs2: FileSystem, p: Path) {
    && fs2.locked == fs.locked
    && (forall q :: q in fs.nodes ==> q in fs2.nodes && fs2.nodes[q] == fs.nodes[q])
    && (forall q :: q in fs2.nodes && q !in fs.nodes ==> fs2.nodes[q] == Dir && IsPrefix(q, p))
  }

  lemma {:induction false} DirErrorAncestor(fs: FileSystem, q: Path)
    requires Valid(fs) && !IsDir(fs, q) && q !in fs.nodes
    ensures forall c :: c in fs.nodes ==> !IsPrefix(q, c)
  {
    forall c | c in fs.nodes ensures !IsPrefix(q, c) {
      if IsPrefix(q, c) { NoNodeBelowMissing(fs, q, c); }
    }
  }

  /** A node's every proper ancestor is a directory. */
  lemma {:induction false} NoNodeBelowMissing(fs: FileSystem, q: Path, c: Path)
    requires Valid(fs) && c in fs.nodes && IsPrefix(q, c)
    ensures IsDir(fs, q) || q == c
    decreases |c|
  {
    if q != c {
      var up := c[..|c| - 1];
      assert IsDir(fs, up);
      if up != q {
        assert IsPrefix(q, up);
        if up in fs.nodes { NoNodeBelowMissing(fs, q, up); }
        else {
          assert IsRoot(up);
          assert q == [] || q == up;
        }
      }
    }
  }

  /** Adding a directory whose parent is a directory keeps the filesystem valid. */
  lemma AddDirValid(fs: FileSystem, p: Path)
    requires Valid(fs) && WellFormed(p) && !IsRoot(p) && IsDir(fs, p[..|p| - 1])
    ensures Valid(fs.(nodes := fs.nodes[p := Dir]))
  {
  }

  /** Growing toward the parent of `p` is growing toward `p`, also after adding `p` itself. */
  lemma GrowsTowardStep(fs: FileSystem, fs2: FileSystem, p: Path)
    requires |p| > 0 && GrowsToward(fs, fs2, p[..|p| - 1])
    ensures GrowsToward(fs, fs2, p)
    ensures p !in fs.nodes ==> GrowsToward(fs, fs2.(nodes := fs2.nodes[p := Dir]), p)
  {
    forall x | IsPrefix(x, p[..|p| - 1]) ensures IsPrefix(x, p) {
      assert p[..|x|] == p[..|p| - 1][..|x|];
    }
  }

  /**
   * `create_dir_all` keeps the filesystem valid, never changes or removes an
   * existing node, and only adds directories that lie on the way to `p`.
   */
  lemma {:induction false} MkdirAllGrows(fs: FileSystem, p: Path)
    requires Valid(fs) && WellFormed(p)
    ensures Valid(MkdirAll(fs, p).fs)
    ensures GrowsToward(fs, MkdirAll(fs, p).fs, p)
    decreases |p|
  {
    if p == [] {
    } else if MkdirError(fs, p).None? {
      AddDirValid(fs, p);
      assert IsPrefix(p, p);
    } else if MkdirError(fs, p) == Some(NotFound) && p != [RootDir] {
      var q := p[..|p| - 1];
      assert WellFormed(q);
      MkdirAllGrows(fs, q);
      var up := MkdirAll(fs, q);
      GrowsTowardStep(fs, up.fs, p);
      if up.outcome.Pass? && MkdirError(up.fs, p).None? {
        AddDirValid(up.fs, p);
      }
    }
  }

  /** `create_dir_all` succeeds exactly when `p` is a directory afterwards. */
  lemma {:induction false} MkdirAllOutcome(fs: FileSystem, p: Path)
    requires Valid(fs) && WellFormed(p)
    ensures MkdirAll(fs, p).outcome.Pass? <==> IsDir(MkdirAll(fs, p).fs, p)
    decreases |p|
  {
    if p != [] {
      match MkdirError(fs, p)
      case None =>
      case Some(NotFound) =>
        if p != [RootDir] {
          var q := p[..|p| - 1];
          assert WellFormed(q);
          MkdirAllGrows(fs, q);
          var up := MkdirAll(fs, q);
          if up.outcome.Fail? {
            assert p !in fs.nodes;
            assert p !in up.fs.nodes;
          }
        }
      case Some(e) =>
    }
  }

  /** On a directory that already exists, `create_dir_all` does nothing and succeeds. */
  lemma MkdirAllExisting(fs: FileSystem, p: Path)
    requires Valid(fs) && IsDir(fs, p)
    ensures MkdirAll(fs, p) == FsStep(fs, Pass)
  {
  }

  /** A successful rename of a file onto a fresh name moves exactly that node; a failed one changes nothing. */
  lemma MoveEffect(fs: FileSystem, src: Path, dst: Path)
    ensures Move(fs, src, dst).outcome.Fail? ==> Move(fs, src, dst).fs == fs
    ensures Move(fs, src, dst).outcome.Pass? ==>
      && IsFile(fs, src)
      && Move(fs, src, dst).fs.locked == fs.locked
      && Move(fs, src, dst).fs.nodes[dst] == fs.nodes[src]
      && (src != dst ==> src !in Move(fs, src, dst).fs.nodes)
      && (forall q :: q != src && q != dst ==>
            (q in Move(fs, src, dst).fs.nodes <==> q in fs.nodes)
            && (q in fs.nodes ==> Move(fs, src, dst).fs.nodes[q] == fs.nodes[q]))
  {
  }

  /** A rename keeps the filesystem valid. */
  lemma MoveValid(fs: FileSystem, src: Path, dst: Path)
    requires Valid(fs) && WellFormed(dst)
    ensures Valid(Move(fs, src, dst).fs)
  {
    var m := Move(fs, src, dst);
    if m.outcome.Pass? && src != dst {
      assert m.fs == fs.(nodes := (fs.nodes - {src})[dst := fs.nodes[src]]);
      RenameValid(fs, src, dst);
    }
  }

  /** Moving a file to a free, non-directory path inside an existing directory keeps every parent a directory. */
  lemma RenameValid(fs: FileSystem, src: Path, dst: Path)
    requires Valid(fs) && IsFile(fs, src) && WellFormed(dst) && |dst| > 0
    requires !IsDir(fs, dst) && IsDir(fs, dst[..|dst| - 1])
    ensures Valid(fs.(nodes := (fs.nodes - {src})[dst := fs.nodes[src]]))
  {
    var after := fs.(nodes := (fs.nodes - {src})[dst := fs.nodes[src]]);
    forall p | p in after.nodes ensures WellFormed(p) && !IsRoot(p) && IsDir(after, p[..|p| - 1]) {
      var up := p[..|p| - 1];
      if p != dst {
        assert p in fs.nodes;
      }
      assert IsDir(fs, up);
      assert up != src && up != dst;
    }
  }

  /**
   * Renaming back undoes a rename: when `dst` was free, moving the node from `dst`
   * back to `src` succeeds and restores the filesystem exactly.
   */
  lemma MoveBack(fs: FileSystem, src: Path, dst: Path)
    requires Valid(fs) && WellFormed(dst)
    requires Move(fs, src, dst).outcome.Pass? && src != dst && dst !in fs.nodes
    ensures Move(Move(fs, src, dst).fs, dst, src) == FsStep(fs, Pass)
  {
    var fs1 := Move(fs, src, dst).fs;
    var up := src[..|src| - 1];
    assert IsDir(fs, up);
    assert up != src;
    assert up != dst;
    assert IsDir(fs1, up);
    assert !IsDir(fs1, src);
    assert src != [];
    assert fs1.nodes - {dst} == fs.nodes - {src};
    assert (fs1.nodes - {dst})[src := fs1.nodes[dst]] == fs.nodes;
  }

  /** `remove_dir` removes exactly one childless directory, or fails and changes nothing; either way the filesystem stays valid. */
  lemma RmdirEffect(fs: FileSystem, p: Path)
    requires Valid(fs)
    ensures Valid(Rmdir(fs, p).fs)
    ensures Rmdir(fs, p).outcome.Fail? ==> Rmdir(fs, p).fs == fs
    ensures Rmdir(fs, p).outcome.Pass? ==>
      && p in fs.nodes && fs.nodes[p] == Dir && !HasChild(fs, p)
      && Rmdir(fs, p).fs == fs.(nodes := fs.nodes - {p})
  {
    var r := Rmdir(fs, p);
    if r.outcome.Pass? {
      forall c | c in r.fs.nodes ensures IsDir(r.fs, c[..|c| - 1]) {
        assert IsDir(fs, c[..|c| - 1]);
        assert c[..|c| - 1] != p by {
          assert Parent(c) == Some(c[..|c| - 1]);
        }
      }
    }
  }

  /** The reasons a `remove_dir` on an empty directory can fail: "/" is busy, or its parent is locked. */
  lemma RmdirEmpty(fs: FileSystem, p: Path)
    requires DirIsEmpty(fs, p) == Ok(true)
    ensures Rmdir(fs, p).outcome.Fail? <==> p == [RootDir] || p[..|p| - 1] in fs.locked
  {
  }
}
