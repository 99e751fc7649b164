# plexisort file organiser, modelled in Dafny

plexisort walks a source directory and sorts every regular file it finds into a
destination tree. The tree has one folder per category:
- `Images/<year>/<MM - Month>`;
- `Videos`;
- `Documents/<kind>`;
- `Compressed_Files`;
- `Other_Files`.

A *dry run* moves nothing. It records each planned destination in an in-memory
`VirtualDirectory` and prints that tree at the end. A *live run* does three
things for each file:
1. it creates the destination directory;
2. it renames the file into place;
3. it appends a JSON line to `undo_log.jsonl`.

*Undo* reads the log and moves every file back. It collects every ancestor of
every destination, deletes the log, and then removes those directories that
are empty, deepest first. `clear_undo_log` only deletes the log.

The model has one module per source file of that core, plus four support modules.

| module | file | models |
|---|---|---|
| `Paths` | paths.dfy | `std::path::Path` as a sequence of components, `"/"` first when absolute: `join`, `file_name`, `extension`, `to_str`, `Path::new`, `split`, `to_lowercase`, `split_whitespace` |
| `Files` | filesystem.dfy | the filesystem as a map from paths to files and directories: `create_dir_all`, `rename`, `remove_dir`, `read_dir`-emptiness |
| `Env` | host.dfy | the process's world, which is the filesystem plus the undo log; a `Host` class whose methods are the system calls, each specified by a function |
| `Seqs` | seqs.dfy | sequence facts used by the proofs |
| `VirtualDir` | virtual_directory.dfy | `VirtualDirectory` as a value; `add_path`, `contains_file`, `print`, `print_tree` |
| `Modes` | processing_mode.dfy | `ProcessingMode` and `contains_file` |
| `Traits` | traits.dfy | `DefaultProcessorFactory::create_processor` and `TestProcessorFactory` |
| `Documents`, `Images`, `Videos`, `Compressed`, `Generic` | document.dfy, image.dfy, video.dfy, compressed.dfy, generic.dfy | each processor's `process`, its destination, and `move_image` / `format_date_to_path` |
| `Organizer` | organizer.dfy | `organize_file`, `log_move_operation`, `clear_undo_log` |
| `Undo` | undo.dfy | `undo_last_actions`, `remove_directories`, `is_dir_empty` |
| `FileProcessor` | file_processor.dfy | `process_directory` over the entries of a directory walk |

## How state is modelled

The state-changing operations are methods on a `Host` object. That object holds:
- the filesystem;
- the log (`undo_log.jsonl` in the working directory), which is either absent or a sequence of lines, kept apart from the filesystem (see "## Left out");
- a flag that makes every write to the log fail.

Each method's `ensures` ties the new state to a pure function of the old one:
- `Place` is `create_dir_all`, then `organize_file`;
- `UndoWith` is the replay, then clearing the log, then `Prune`;
- `ProcessAll` is a fold of `ProcessFile` over the walked files.

The properties are proved as lemmas about those functions.

A log line is one of three things:
- a record of two optional path strings, `None` when the JSON field is missing or not a string;
- a blank line;
- a line that is not valid JSON. This also covers a line that cannot be read.

The filesystem's `Valid` invariant says every node's parent is a directory.
Every operation that changes the filesystem is proved to keep it.

## Behaviour worth knowing

- **Undo order.** Undo replays the log from its first line to its last (src/organizer.rs:85-116).
- **How far pruning goes.** Undo collects every ancestor of a destination, up to the filesystem root, and removes each one it finds empty (src/organizer.rs:108-112).
- **Lost log entries.** When appending the log record fails after a successful move, every processor prints the error and carries on (src/document_processor.rs:38-42). The model drops the error, and the moved file then has no undo record.
- **Existing destination file.** `rename` replaces a regular file already at the destination (POSIX). A live run can therefore overwrite a same-named file that an earlier file of the same batch put there, while a dry run lists both names.
- **`UnknownYear` is unreachable.** Splitting a token always yields a first piece, so the year fallback never applies. See "## Findings".
- **`remove_directories` order.** The order comes from a `HashSet`, stably sorted by depth and then reversed, so it is unspecified among directories of equal depth. The model lets the method choose any deepest-first order and returns the order it used.

## Model

| member | source | states |
|---|---|---|
| VirtualDir.AddPathThenContains | src/virtual_directory.rs:10-24 | after `add_path(p)` with `p` non-empty, `contains_file(p)` holds |
| VirtualDir.AddPathContainsExactly | src/virtual_directory.rs:10-83 | after `add_path(p)`, `contains_file(q)` holds iff it held before or `q == p` |
| VirtualDir.AddPathMultiplicity | src/virtual_directory.rs:10-24 | `add_path(p)` adds exactly one occurrence of `p` and changes the count of no other path |
| VirtualDir.AddPathTouchesOneBranch | src/virtual_directory.rs:11-22 | an empty path changes nothing; a one-piece path appends to `files`; a longer path changes only the child named by its first piece, creating it if needed |
| VirtualDir.ContainsIffMultiplicity | src/virtual_directory.rs:66-83 | `contains_file(p)` holds iff `p` was added at least once |
| VirtualDir.EmptyHoldsNothing | src/virtual_directory.rs:3-7 | the default tree holds no path |
| VirtualDir.SortedNamesSpec | src/virtual_directory.rs:27-28 | the sorted directory names are exactly the keys, each once, in strictly increasing lexicographic order |
| VirtualDir.LexTotal | src/virtual_directory.rs:28 | the string order used for sorting is total |
| VirtualDir.LexAntisymmetric | src/virtual_directory.rs:28 | the string order is antisymmetric |
| VirtualDir.LexTransitive | src/virtual_directory.rs:28 | the string order is transitive |
| VirtualDir.SortNames | src/virtual_directory.rs:27-28 | the loop returns the sorted key sequence |
| VirtualDir.Print | src/virtual_directory.rs:26-59 | the printed lines are `Render(t, prefix)` |
| VirtualDir.PrintFiles | src/virtual_directory.rs:50-58 | the file loop prints one connector line per file, in order |
| VirtualDir.PrintTree | src/virtual_directory.rs:61-63 | `print_tree` prints `Render(t, "")` |
| VirtualDir.RenderLevel | src/virtual_directory.rs:26-59 | at each level the entry lines name the sorted directories, then the files in insertion order; the i-th entry line carries the closing connector exactly when it is the last entry |
| VirtualDir.DirectoryBlock | src/virtual_directory.rs:33-48 | the k-th directory's line is followed by its subtree's listing, every line of which starts with the child prefix (`    ` after the last entry, `│   ` otherwise), and then by the remaining entries |
| VirtualDir.RenderFlat | src/virtual_directory.rs:50-58 | a level without directories prints `prefix + connector + name` per file, and only the last file gets `└── ` |
| VirtualDir.RenderStartsWithPrefix | src/virtual_directory.rs:40-57 | every line printed below a prefix starts with that prefix |
| VirtualDir.EntryLine | src/virtual_directory.rs:35-40 | an entry line is prefix, connector, name; it has the last-entry connector iff it is the last entry |
| Modes.ContainsFile | src/processing_mode.rs:46-67 | only a dry run can report a file as contained |
| Modes.ContainsFileAsWritten | src/processing_mode.rs:46-67 | `contains_file` as written; only a dry run can report a file as contained |
| Modes.FoundAfterPlacing | src/processing_mode.rs:46-67 | a file a processor placed in `dest` is found there |
| Modes.FoundExactlyAfterPlacing | src/processing_mode.rs:46-67 | after one insertion, the lookup holds iff it held before or the insertion was this file in `dest` |
| Modes.AsWrittenAgreesOnRelative | src/processing_mode.rs:53-60 | for a relative non-empty destination, the code's split-on-`/` key equals the component key |
| Modes.AsWrittenMissesAbsolute | src/processing_mode.rs:53-55 | a file placed under `/out` is not found by the code as written, but is found with the component key |
| Modes.SampleIsFound | src/processing_mode.rs:76-89 | the unit-test scenario: `dest/sample.txt` is found for `sample.txt` in `dest` |
| Traits.Classification | src/traits/mod.rs:19-33 | each processor is chosen iff its branch applies: image, video, text by MIME top type; application by the extension lists; everything else generic |
| Traits.ExtensionSetsDisjoint | src/traits/mod.rs:28-29 | no extension is both a document and an archive, so the match arms never overlap |
| Traits.UnguessedIsApplication | src/traits/mod.rs:20-30 | with no MIME guess the file is treated as `application/octet-stream`, and an unlisted extension goes to the generic processor |
| Traits.CaseInsensitive | src/traits/mod.rs:21 | paths with the same lower-cased extension get the same processor |
| Traits.ApplicationOmissions | src/traits/mod.rs:27-31 | an `application/*` file with extension yaml, csv, html or txt goes to the generic processor |
| Traits.TestProcessorFactory.CreateProcessor | src/traits/mod.rs:44-62 | returns the processor chosen by extension and records its name as the last processor type |
| Traits.TestNamesDistinct | src/traits/mod.rs:46-59 | the three recorded names identify the three processor kinds |
| Traits.ChoiceByExtension | src/traits/mod.rs:45-54 | `<stem>.docx` selects the document processor and `<stem>.png` the image processor |
| Traits.ProcessorSelection | src/file_processor.rs:75-98 | the unit-test scenario for any dot-free stem: after `.docx` the last name is `DocumentProcessor`, after `.png` it is `ImageProcessor` |
| Traits.SampleExtensions | src/traits/mod.rs:45 | a file name with one dot and a lower-case suffix has that suffix as its lower-cased extension |
| Documents.DestinationShape | src/document_processor.rs:20-21 | the destination is `base/Documents/<kind>/<file name>`, and it is well formed when its inputs are |
| Documents.SubfolderPlain | src/document_processor.rs:55-65 | every kind folder is one plain component |
| Documents.NoExtensionUncategorized | src/document_processor.rs:14-18 | a file without an extension goes to `Documents/Uncategorized_Documents` |
| Documents.ApplicationDocumentsHaveFolders | src/document_processor.rs:55-65 | every extension the factory sends as an application document has a named folder |
| Documents.Process | src/document_processor.rs:13-45 | a dry run inserts the destination into the tree; a live run creates the directory and organises the file, and the mode stays `Live` |
| Videos.DestinationShape | src/video_processor.rs:12-17 | the destination is `destination/Videos/<file name>` |
| Videos.Process | src/video_processor.rs:10-44 | as for documents, into `Videos` |
| Compressed.DestinationShape | src/compressed_file_processor.rs:13-17 | the destination is `destination/Compressed_Files/<file name>` |
| Compressed.Process | src/compressed_file_processor.rs:11-44 | as for documents, into `Compressed_Files` |
| Generic.DestinationShape | src/generic_processor.rs:14-17 | the destination is `destination/Other_Files/<file name>` |
| Generic.Process | src/generic_processor.rs:12-45 | as for documents, into `Other_Files` |
| Images.MonthLabelAgrees | src/image_processor.rs:65-79 | for every month 1-12, the EXIF table maps its two digits to the same label as the modification-time format |
| Images.UnknownMonthExactly | src/image_processor.rs:65-79 | the label is `UnknownMonth` iff the piece is none of the twelve two-digit months |
| Images.NoMonthZero | src/image_processor.rs:64-78 | the `"00"` fallback for a missing month maps to `UnknownMonth` |
| Images.FormatDateToPath | src/image_processor.rs:55-81 | the date folder is non-empty and never starts with `/` |
| Images.FormatDateToPathDownward | src/image_processor.rs:55-81 | with the `UnknownYear` fallback, the date folder parses into at least one component, each a plain name other than `..`, so it never climbs out of `Images` |
| Images.MonthLabelDownward | src/image_processor.rs:65-79 | every entry of the month table, `UnknownMonth` included, is one folder name |
| Images.FormatDateToPathAgrees | src/image_processor.rs:55-81 | the corrected function equals the code whenever the year piece is usable; when it is not, the code's text is absolute or holds a `..` component |
| Images.SinglePieceDate | src/image_processor.rs:57-64 | a token without `:` becomes `<token>/UnknownMonth`, or `UnknownYear/UnknownMonth` when the token is not a usable year |
| Images.ExifMatchesMtime | src/image_processor.rs:22-28 | an EXIF date and a modification time of the same year and month give the same folder |
| Images.DateFolder | src/image_processor.rs:21-32 | the date folder never starts with `/` |
| Images.DateFolderDownward | src/image_processor.rs:21-32 | whether EXIF, the modification time or neither dates the image, its folder is one or more plain names other than `..` |
| Images.MtimeComponents | src/image_processor.rs:25-28 | a modification-time folder is exactly the year folder and the `MM - Month` folder |
| Images.MtimeDestination | src/image_processor.rs:25-28 | without EXIF, the folder is `Images/<year>/<MM - Month>` of the modification time |
| Images.StaysUnderImages | src/image_processor.rs:14-15 | every image destination directory lies under `destination/Images`, and no component after the destination is `..` |
| Images.EmptyYearEscapes | src/image_processor.rs:55-81 | the code turns `":11:05 10:00:00"` into the absolute `/11 - November`, which replaces the whole destination on `join` |
| Images.EmptyYearCorrected | src/image_processor.rs:63 | the corrected function gives `UnknownYear/11 - November` for that date |
| Images.MoveImage | src/image_processor.rs:39-53 | a dry run inserts `destination_dir/<name>`; a live run is `create_dir_all`, then `organize_file` |
| Images.Process | src/image_processor.rs:13-19 | as for documents, into the date folder |
| Organizer.OrganizeFile | src/organizer.rs:11-33 | a dry run inserts the destination components plus the file name and touches nothing; a live run renames, then logs |
| Organizer.LogMoveOperation | src/organizer.rs:36-69 | one record with both paths is appended to the log, or the log is unchanged on failure |
| Organizer.OrganizeLiveEffect | src/organizer.rs:21-31 | a failed rename changes nothing; after a rename the record is appended iff the log is writable, otherwise the error is returned |
| Organizer.OrganizeLiveValid | src/organizer.rs:21-31 | a live move keeps the filesystem valid, grows the log by at most its own record (exactly when it succeeds), and leaves every other file alone |
| Organizer.PlaceEffect | src/document_processor.rs:32-43 | the live branch of a processor has the same guarantees as the move itself |
| Organizer.ClearUndoLog | src/organizer.rs:166-175 | deletes the log if present; the filesystem is untouched |
| Organizer.ClearLogIdempotent | src/organizer.rs:166-175 | clearing succeeds iff there is no log or it may be removed; a second clear succeeds and changes nothing |
| Undo.CollectAncestors | src/organizer.rs:108-112 | the loop adds exactly the ancestors of the destination |
| Undo.AncestorsArePrefixes | src/organizer.rs:108-112 | the ancestors are the proper prefixes (down to `/` for an absolute path) |
| Undo.SortDeepestFirst | src/organizer.rs:133-135 | the order holds every directory once, deepest first |
| Undo.RemoveDirectories | src/organizer.rs:132-157 | removes, in a deepest-first order, each directory that is empty when reached; skips the empty path; stops at the first emptiness check that fails |
| Undo.PruneEffect | src/organizer.rs:137-154 | pruning removes only directories from the order and changes nothing else, including the log |
| Undo.PruneLeavesNoEmptyDirectory | src/organizer.rs:137-154 | after a successful deepest-first pruning, no directory in the order is left existing and empty |
| Undo.PrunePasses | src/organizer.rs:138-153 | when every listed directory exists, pruning succeeds, because removal failures are ignored |
| Undo.UndoLastActions | src/organizer.rs:77-130 | the method's effect is the replay, then clearing the log, then pruning the collected directories; when the log was there and is gone it pruned in a deepest-first order of the collected ancestors, otherwise it pruned nothing |
| Undo.PruneKeepsLog | src/organizer.rs:132-157 | removing directories never touches the undo log |
| Undo.UndoWithoutLog | src/organizer.rs:78-79 | without a log, undo fails with `NotFound` and changes nothing |
| Undo.UndoTwice | src/organizer.rs:119-121 | a successful undo removes the log, so a second undo fails with `NotFound` and changes nothing |
| Undo.UndoFailureKeepsLog | src/organizer.rs:85-116 | a failed replay leaves the log in place for a retry |
| Undo.UndoStopsAtMissingDestination | src/organizer.rs:100-115 | a record whose destination is missing aborts with `NotFound` after exactly the earlier lines were replayed; the log is kept |
| Undo.ReplayFrame | src/organizer.rs:85-116 | replaying lines never touches the log and keeps the filesystem valid |
| Undo.ReplayConcat | src/organizer.rs:85-116 | replaying `a + b` is replaying `a`, then `b` unless `a` failed |
| Undo.MoveUndoable | src/organizer.rs:100-105 | renaming back a file that was renamed into a fresh place restores the filesystem, and the parent already exists |
| Undo.PlaceThenUndo | src/organizer.rs:77-130 | placing one file and undoing it restores every file, keeps all other nodes, clears the log, and leaves none of the destination's ancestors empty |
| Undo.UndoAfterPlaceIsPrune | src/organizer.rs:77-130 | undoing one placement is pruning the directory tree `create_dir_all` produced |
| Files.DirIsEmpty | src/organizer.rs:160-163 | `Ok(true)` only for an existing childless directory, `Ok(false)` only when it has a child, an error iff it is not a directory |
| Files.MkdirAllOutcome | src/document_processor.rs:34 | `create_dir_all` succeeds iff the directory exists afterwards |
| Files.MkdirAllGrows | src/document_processor.rs:34 | `create_dir_all` keeps the filesystem valid and only adds directories on the way to its target |
| Files.MkdirAllExisting | src/organizer.rs:101-103 | `create_dir_all` on an existing directory changes nothing |
| Files.MoveEffect | src/organizer.rs:22 | a successful rename moves the source's node to the destination and changes nothing else; a failed one changes nothing |
| Files.MoveValid | src/organizer.rs:22 | rename keeps the filesystem valid |
| Files.MoveBack | src/organizer.rs:105 | renaming back a fresh move restores the filesystem |
| Files.RmdirEffect | src/organizer.rs:146 | `remove_dir` removes exactly one empty directory or changes nothing |
| Files.RmdirEmpty | src/organizer.rs:144-146 | an empty directory is removed unless it is `/` or its parent forbids it |
| Env.AppendLog | src/organizer.rs:48-59 | a successful append adds the line at the end and creates the log if needed; a failed one changes nothing |
| Env.RemoveLog | src/organizer.rs:119-120 | removal succeeds iff the log exists and may be removed, and only removes the log |
| Paths.RenderRoundTrip | src/organizer.rs:41-44 | a path written to the log as text reads back as the same path |
| Paths.SplitRenderRelative | src/processing_mode.rs:53-54 | splitting a relative path's text on `/` gives its components |
| Paths.LastIndexOf | src/traits/mod.rs:21 | finds the last occurrence of the character, or reports that there is none |
| Paths.Extension | src/traits/mod.rs:21 | an extension exists only for a file name, and contains no dot |
| Paths.Lower | src/traits/mod.rs:21 | ASCII lower-casing keeps the length, maps each character on its own and leaves no ASCII upper-case letter |
| Paths.TakeToken | src/image_processor.rs:57-59 | the first token is a whitespace-free prefix, ended by whitespace or the end of the text |
| Paths.TrimStart | src/image_processor.rs:57-59 | only leading whitespace is dropped |
| Paths.JoinSplit | src/processing_mode.rs:54 | joining the pieces of a split gives the text back |
| Paths.SplitJoin | src/processing_mode.rs:54 | splitting joined separator-free pieces gives the pieces back |
| FileProcessor.RegularFiles | src/file_processor.rs:16-21 | the walk yields exactly the regular-file entries, errors dropped |
| FileProcessor.RegularFilesOne | src/file_processor.rs:16-21 | a single entry yields its path when it is a regular file, and nothing when it is an error or not a file |
| FileProcessor.RegularFilesConcat | src/file_processor.rs:16-21 | filtering keeps walk order: the files of two runs of entries are the files of the first followed by those of the second |
| FileProcessor.ProcessOne | src/file_processor.rs:23-26 | one loop step chooses the processor and applies its effect |
| FileProcessor.ProcessDirectory | src/file_processor.rs:10-33 | the run is the fold of the per-file effect over the regular files in walk order; a dry run ends with the printed tree |
| FileProcessor.TargetShape | src/file_processor.rs:23-26 | every destination is `<dir>/<file name>` with `dir` strictly below the base and no `..` after the base, so it stays below once `..` is resolved (images placed by the corrected date folder) |
| FileProcessor.TargetInFolder | src/file_processor.rs:24-25 | each processor's destination is the base followed by its category folder and the file name |
| FileProcessor.DryRunPlansEverything | src/file_processor.rs:23-32 | a dry run leaves the world alone; the tree then holds exactly what it held before plus every file's destination |
| FileProcessor.DryRunContainsEvery | src/file_processor.rs:23-32 | after a dry run from an empty tree, every walked file's destination is contained |
| FileProcessor.DestinationsAt | src/file_processor.rs:23-26 | the i-th planned destination is the one the chosen processor computes for the i-th file |
| FileProcessor.LiveRun | src/file_processor.rs:23-26 | the live-run invariant holds after any prefix of the walk (images placed by the corrected date folder) |
| FileProcessor.LiveRunLog | src/file_processor.rs:23-26 | a live run keeps the filesystem valid; its log is unchanged or is the old log followed by records of walked files in walk order, at most one per file, so it grows by at most the number of files |
| FileProcessor.RecordsAtMostOnePerPath | src/file_processor.rs:23-26 | records appended in walk order number at most the files walked |
| FileProcessor.RecordsOfPaths | src/file_processor.rs:23-26 | every appended record is the move of one of the walked files |
| FileProcessor.LiveRunKeepsOthers | src/file_processor.rs:23-26 | a live run leaves alone every file that was not walked and is not under the destination base (images placed by the corrected date folder) |

## Left out

- The command line, configuration and `main` (src/main.rs, src/cli.rs, src/config.rs) are not part of this model.
- The EXIF reader (src/metadata.rs) is not part of this model. A file's EXIF date is a field of the file node.
- MIME guessing from the path (`mime_guess`) is a function parameter `mime`. Only its top-level type matters to the factory.
- Converting a modification time to local time (chrono) is left out. A file node carries the local year and month, or none when the time cannot be read.
- JSON encoding and decoding (serde_json) is left out. Log lines are the datatype described above, and a read or UTF-8 error is folded into the invalid-line case.
- Printing and logging (`println!`, `debug!`, `error!`) are left out. `print` returns its lines instead.
- The `test_env` feature, under which `log_move_operation` does nothing, is left out. The `Mutex` in `TestProcessorFactory` is left out because the model is single-threaded.
- WalkDir is left out. `process_directory` takes the walk's entries, in walk order, as input.
- `print_current_structure` (src/organizer.rs:179-209) is not part of this model. It is a debugging printer of the real filesystem.
- Renames across devices, permissions beyond a per-directory lock, and renaming directories are left out. A directory at the source or destination of a rename gives an error.
- VirtualDir.AddPath: `add_path` updates the tree in place. It is modelled as a function returning the new tree, and the mode carries the tree by value, so aliasing of the tree is not modelled.
- Images.FormatDateToPath: `split_whitespace().next().unwrap()` (src/image_processor.rs:57-60) panics on an EXIF value that is empty or all whitespace, and that panic ends the whole `process_directory` run. The node type `ExifDate` admits only values with a token, so that input and the abort are not modelled.
- FileProcessor.LiveRunLog: the undo log is kept apart from the modelled filesystem (`World.log`), while the code keeps it as the file `undo_log.jsonl` in the working directory (src/organizer.rs:48-51, 78). A walk that yields that file is therefore not modelled. In the code, that happens when the working directory lies inside the walked source. A processor then renames the old log into the destination like any other file, and the next `log_move_operation` starts a fresh log. The earlier records and this run's records before the move are then out of the log that undo reads. `FileProcessor.LiveRun`'s log part ("the old log followed by this run's records") has the same limit.
- Images.Process: when `file_name()` is `None` the source panics. Every processor and `move_image` therefore require a path with a file name (`organize_file` checks for one itself), and `RegularFiles` guarantees this for the walked entries.
- Images.DateFolder: uses the corrected `FormatDateToPath`, not the code as written (see "## Findings").
- Images.Process: places an image in the corrected date folder. With the code as written, an EXIF date whose year is empty gives a folder starting with `/` (`Images.EmptyYearEscapes`), and one whose year is `..` or `../..` gives a folder that climbs out of `Images` and, with enough `..`, out of the destination base.
- FileProcessor.TargetShape: holds for images only because they use the corrected date folder. With the code as written, an image whose EXIF year is empty or made of `..` steps has a destination that is not below the base.
- FileProcessor.LiveRun: its invariant (valid filesystem, log extended in walk order, files outside the base that were not walked untouched) holds only for the corrected date folder. With the code as written, an image whose EXIF year is empty or made of `..` steps is moved outside the base and can replace a file there.
- FileProcessor.LiveRunKeepsOthers: holds only for the corrected date folder. With the code as written, an image whose EXIF year is empty or made of `..` steps can be renamed onto a file outside the base that was not walked, and overwrite it.
- Paths are lexical: `..` in a walked path or in the destination itself is kept as a component and not resolved against the real directory tree, so two paths that name one file through `..` are different paths here. The components the program appends below the destination are proved free of `..` (`FileProcessor.TargetShape`). A `.` component is dropped wherever it appears, while `Path::iter` keeps a leading one (`./a` iterates as `.`, `a`). So a path the walk yields from `.`, which the code logs as `./a`, is `a` here.
- Paths are sequences of Unicode text components. A path that is not valid UTF-8 is left out: for it `to_str()` gives `None`, so the code logs a JSON `null` (src/organizer.rs:42-43) and the dry-run lookup gets no destination segments (src/processing_mode.rs:53-54).
- Paths are kept as components, not as the raw text `to_str()` returns. A trailing `/` or a repeated separator in the destination text is therefore left out: the code splits `"dest/"` into `["dest", ""]` (src/processing_mode.rs:54), and the model has no empty component.
- Paths.Lower: lower-cases ASCII letters only. Rust's `to_lowercase` is Unicode-aware and can change a string's length, for example for `İ`. Extensions with non-ASCII capitals are therefore not modelled.
- Modes.ContainsFile: uses the component key, not the code as written (see "## Findings"). The code's behaviour is `Modes.ContainsFileAsWritten`.
- Traits.TestProcessorFactory.CreateProcessor: returns the processor kind, not a boxed processor object. `process_directory` is modelled with the default factory only.

## Findings

| source | as written | input that shows it | evidently intended | confidence | as-written member | corrected member |
|---|---|---|---|---|---|---|
| src/image_processor.rs:57-63 | the year is the first `:`-piece of the first token; the `UnknownYear` fallback never applies, because the split always has a first piece | EXIF date `":11:05 10:00:00"` gives the text `/11 - November`, which `join` treats as absolute, so the image goes to `/11 - November/<name>`, outside the destination | an empty year, one starting with `/` or one holding a `..` component gives `UnknownYear`, and the folder stays under `destination/Images` even once `..` is resolved | not executed | Images.EmptyYearEscapes | Images.EmptyYearCorrected |
| src/processing_mode.rs:53-55 | the lookup key is the destination's text split on `/` | destination `/out` splits to `["", "out"]`, but the processors insert the components `["/", "out", …]`, so `contains_file` misses a file placed there | the key is the destination's components, as the processors insert them | not executed | Modes.AsWrittenMissesAbsolute | Modes.FoundAfterPlacing |
