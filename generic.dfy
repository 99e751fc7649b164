/**
 * The generic processor (src/generic_processor.rs): every file goes to `<destination>/Other_Files/<file name>`.
 */
module Generic {
  import opened Paths
  import opened Env
  import opened Modes
  import opened Organizer
  import VirtualDir

  /** `get_destination_subfolder`: the same folder whatever the path. */
  const Subfolder: string := "Other_Files"

  function DestinationDir(destination: Path): Path {
    Join(destination, [Subfolder])
  }

  /** `destination_dir.join(path.file_name().unwrap())`; the source panics on a path without a file name. */
  function Destination(path: Path, destination: Path): Path
    requires FileName(path).Some?
  {
    Join(DestinationDir(destination), [FileName(path).value])
  }

  /** The file lands directly in the `Other_Files` folder under the destination, as a well-formed path. */
  lemma DestinationShape(path: Path, destination: Path)
    requires FileName(path).Some?
    ensures Destination(path, destination) == destination + [Subfolder, FileName(path).value]
    ensures WellFormed(destination) && WellFormed(path) ==> WellFormed(Destination(path, destination))
  {
  }

  /**
   * `process`: a dry run adds the destination's components to the tree; a live
   * run creates the folder (returning early if that fails) and organizes the file,
   * reporting and dropping any error.
   */
  method Process(host: Host, path: Path, destination: Path, mode: ProcessingMode) returns (mode': ProcessingMode)
    requires FileName(path).Some?
    modifies host
    ensures Processed(mode, mode', old(host.State()), host.State(), path, DestinationDir(destination), Destination(path, destination))
  {
    var destinationDir := Join(destination, [Subfolder]);
    var destinationPath := Join(destinationDir, [FileName(path).value]);
    match mode {
      case DryRun(tree) =>
        mode' := DryRun(VirtualDir.AddPath(tree, destinationPath));
      case Live =>
        mode' := Live;
        var made := host.CreateDirAll(destinationDir);
        if made.Fail? {
          return;
        }
        var moved, _ := OrganizeFile(host, path, destinationPath, mode);
    }
  }
}
