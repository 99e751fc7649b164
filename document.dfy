/**
 * The document processor (src/document_processor.rs): the lower-cased extension
 * picks a folder under `<destination>/Documents`.
 */
module Documents {
  import opened Wrappers
  import opened Paths
  import opened Env
  import opened Modes
  import opened Organizer
  import VirtualDir
  import Traits

  /** The folder table of `determine_destination_dir`. */
  function Subfolder(extension: string): string {
    if extension == "doc" || extension == "docx" then "Word_Documents"
    else if extension == "xls" || extension == "xlsx" then "Excel_Spreadsheets"
    else if extension == "ppt" || extension == "pptx" then "PowerPoint_Presentations"
    else if extension == "csv" then "CSV_Files"
    else if extension == "json" || extension == "yaml" || extension == "yml" then "Config_Files"
    else if extension == "pdf" then "PDFs"
    else if extension == "html" then "Web_Pages"
    else if extension == "txt" then "Text_Files"
    else "Uncategorized_Documents"
  }

  /** `determine_destination_dir`: `<base>/Documents/<folder>`. */
  function DestinationDir(extension: string, base: Path): Path {
    Join(Join(base, ["Documents"]), [Subfolder(extension)])
  }

  /** The file's destination; the source panics on a path without a file name. */
  function Destination(path: Path, base: Path): Path
    requires FileName(path).Some?
  {
    Join(DestinationDir(LowerExtension(path), base), [FileName(path).value])
  }

  /** The destination is `<base>/Documents/<folder>/<file name>`, well formed when the base is. */
  lemma DestinationShape(path: Path, base: Path)
    requires FileName(path).Some?
    ensures Destination(path, base) == base + ["Documents", Subfolder(LowerExtension(path)), FileName(path).value]
    ensures WellFormed(base) && WellFormed(path) ==> WellFormed(Destination(path, base))
  {
    SubfolderPlain(LowerExtension(path));
  }

  lemma SubfolderPlain(extension: string)
    ensures Downward(Subfolder(extension)) && Subfolder(extension) != RootDir
  {
    var s := Subfolder(extension);
    assert s in {"Word_Documents", "Excel_Spreadsheets", "PowerPoint_Presentations", "CSV_Files",
      "Config_Files", "PDFs", "Web_Pages", "Text_Files", "Uncategorized_Documents"};
  }

  /** A file without an extension is uncategorized. */
  lemma NoExtensionUncategorized(path: Path)
    requires Extension(path).None?
    ensures DestinationDir(LowerExtension(path), []) == ["Documents", "Uncategorized_Documents"]
  {
  }

  /** Every extension the default factory routes here from an `application` type has a folder of its own. */
  lemma ApplicationDocumentsHaveFolders(path: Path)
    requires Traits.CreateProcessor(Some(Traits.ApplicationType), path) == Traits.DocumentProcessor
    ensures Subfolder(LowerExtension(path)) != "Uncategorized_Documents"
  {
  }

  /**
   * `process`: compute the destination from the lower-cased extension; a dry run
   * adds its components to the tree; a live run creates the folder (returning
   * early if that fails) and organizes the file, reporting and dropping any error.
   */
  method Process(host: Host, path: Path, destination: Path, mode: ProcessingMode) returns (mode': ProcessingMode)
    requires FileName(path).Some?
    modifies host
    ensures Processed(mode, mode', old(host.State()), host.State(), path,
      DestinationDir(LowerExtension(path), destination), Destination(path, destination))
  {
    var extension := LowerExtension(path);
    var destinationDir := DestinationDir(extension, destination);
    var destinationPath := Join(destinationDir, [FileName(path).value]);
    match mode {
      case DryRun(tree) =>
        mode' := DryRun(VirtualDir.AddPath(tree, destinationPath));
      case Live =>
        mode' := Live;
        var made := host.CreateDirAll(destinationDir);
        if made.Fail? {
          return;
        }
        var moved, _ := OrganizeFile(host, path, destinationPath, mode);
    }
  }
}
