/**
 * The processing mode threaded through every processor (src/processing_mode.rs):
 * a dry run carries the virtual tree that stands in for the destination, a live
 * run works on the real filesystem. `contains_file` asks the dry-run tree whether
 * a file would have been placed in a destination directory.
 */
module Modes {
  import opened Wrappers
  import opened Paths
  import VirtualDir

  datatype ProcessingMode = DryRun(tree: VirtualDir.VirtualDirectory) | Live

  /** The lookup key as the source builds it: the destination's text split on '/', then the file name. */
  function LookupKeyAsWritten(file: Path, dest: Path): seq<string> {
    Split(Render(dest), '/') + FileNameParts(file)
  }

  /** `contains_file` as written. */
  function ContainsFileAsWritten(mode: ProcessingMode, file: Path, dest: Path): (r: bool)
    ensures r ==> mode.DryRun?
  {
    match mode
    case DryRun(t) => VirtualDir.ContainsFile(t, LookupKeyAsWritten(file, dest))
    case Live => false
  }

  /** The lookup key built from the destination's components, the way the processors insert paths. */
  function LookupKey(file: Path, dest: Path): seq<string> {
    dest + FileNameParts(file)
  }

  /** `contains_file` with the key the processors' insertions use. */
  function ContainsFile(mode: ProcessingMode, file: Path, dest: Path): (r: bool)
    ensures r ==> mode.DryRun?
  {
    match mode
    case DryRun(t) => VirtualDir.ContainsFile(t, LookupKey(file, dest))
    case Live => false
  }

  /** A file a processor placed in `dest` is found there, and asking changes nothing. */
  lemma FoundAfterPlacing(t: VirtualDir.VirtualDirectory, file: Path, dest: Path)
    requires FileName(file).Some?
    ensures ContainsFile(DryRun(VirtualDir.AddPath(t, dest + [FileName(file).value])), file, dest)
  {
    VirtualDir.AddPathThenContains(t, dest + [FileName(file).value]);
  }

  /** Only placements answer: the lookup is true after an insertion iff it was before or the insertion was this file. */
  lemma FoundExactlyAfterPlacing(t: VirtualDir.VirtualDirectory, placed: seq<string>, file: Path, dest: Path)
    requires |placed| > 0
    ensures ContainsFile(DryRun(VirtualDir.AddPath(t, placed)), file, dest)
      <==> ContainsFile(DryRun(t), file, dest) || placed == LookupKey(file, dest)
  {
    VirtualDir.AddPathContainsExactly(t, placed, LookupKey(file, dest));
  }

  /** For a relative, non-empty destination the two keys coincide. */
  lemma AsWrittenAgreesOnRelative(mode: ProcessingMode, file: Path, dest: Path)
    requires WellFormed(dest) && !IsRooted(dest) && |dest| > 0
    ensures ContainsFileAsWritten(mode, file, dest) == ContainsFile(mode, file, dest)
  {
    SplitRenderRelative(dest);
  }

  /**
   * As written, an absolute destination is looked up under a directory named ""
   * (the text "/out" splits into "" and "out") while the processors insert it
   * under "/": a file just placed there is not found.
   */
  lemma AsWrittenMissesAbsolute()
    ensures var t := VirtualDir.AddPath(VirtualDir.Empty, ["/", "out", "a.txt"]);
      && !ContainsFileAsWritten(DryRun(t), ["a.txt"], ["/", "out"])
      && ContainsFile(DryRun(t), ["a.txt"], ["/", "out"])
  {
    var t := VirtualDir.AddPath(VirtualDir.Empty, ["/", "out", "a.txt"]);
    assert Split("/out", '/') == ["", "out"] by {
      assert "/out" == "" + ['/'] + "out";
      SplitAtSeparator("", '/', "out");
      SplitWithoutSeparator("", '/');
      SplitWithoutSeparator("out", '/');
    }
    assert Render(["/", "out"]) == "/out";
    assert "" !in t.directories;
    VirtualDir.AddPathThenContains(VirtualDir.Empty, ["/", "out", "a.txt"]);
  }

  /** The case the source's own test checks: "sample.txt" inserted under "dest" is found in "dest". */
  lemma SampleIsFound()
    ensures ContainsFileAsWritten(DryRun(VirtualDir.AddPath(VirtualDir.Empty, ["dest", "sample.txt"])), ["sample.txt"], ["dest"])
  {
    SplitWithoutSeparator("dest", '/');
    assert Render(["dest"]) == "dest";
    VirtualDir.AddPathThenContains(VirtualDir.Empty, ["dest", "sample.txt"]);
  }
}
