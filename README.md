# guidfy, modelled in Dafny

guidfy renames files to random identifiers and can undo that. It has two
transforms:

- **Guidfy**:
  - takes a single file, or every file of a directory (optionally the
    whole tree below it);
  - draws an identifier for each file, skipping files named `database.json`;
  - records the identifier→original-path mapping in `database.json` in the
    base directory;
  - then renames every file to `<identifier><extension>` in its own directory.
- **Restore**:
  - reads `database.json` back;
  - moves every renamed file back to its original path;
  - deletes the database once every move has succeeded.

Before either transform runs, `ExecuteWithArgs` validates the command-line
options against what exists on disk. It then dispatches to exactly one of
the two transforms.

The model keeps the source's form:

- the validation is a function;
- the two transforms are methods with loops: the mapping loop and the move
  loops;
- each method is proved equal to a specification function (`GuidfyRun`,
  `RestoreRun`, `Collect`, `MoveAll`);
- the properties the tool promises are proved about those functions.

The filesystem is a value:

- it holds the set of directories and a map from `Path` (directory, file
  name) to contents;
- each operation returns its status together with the filesystem it leaves
  behind;
- after an exception, that filesystem holds the changes made before the
  throw.

`Guid.NewGuid` is an oracle `draw: nat -> string`: `draw(k)` is the k-th
identifier handed out in a run.

Files:

- `paths.dfy`: splitting a path string, and `Path.GetExtension`.
- `outcomes.dfy`: the exceptions as error values, `Result` and `Status`.
- `arguments.dfy`: the five options.
- `database.dfy`:
  - the mapping, as a sequence of entries in insertion order (the order the
    dictionary enumerates);
  - file contents: a JSON object holding a mapping, JSON `null`, or anything
    else;
  - the renamed path of an entry.
- `disk.dfy`:
  - `File.Move`, writing a file and `File.Delete`;
  - a sequence of moves that stops at the first one that throws;
  - the lemmas about independent moves and undoing them.
- `core.dfy`: validation, dispatch, the mapping loop, Guidfy and Restore.
- `roundtrip.dfy`: what the two transforms achieve together, including the
  round trip.

Three behaviours of the code are worth stating plainly:

- Apart from contents the deserialiser refuses (Core.cs:114), Restore
  rejects only a database that deserialises to `null` (Core.cs:117-118). An
  empty JSON object `{}` restores nothing, and database.json is then
  deleted. The model does the same (`Core.Load`,
  `Core.RestoreRun`).
- The renamed path is `Path.Combine(GetDirectoryName(v), k + GetExtension(v))`
  (Core.cs:92-95): the original directory, then the identifier followed by
  the original extension. The model keeps the directory and the new name
  apart (`Database.Target`).
- `Path.GetRelativePath(basePath, file)` (Core.cs:67) throws for an empty
  base path. The base path is empty when the target is a bare file name
  such as `photo.jpg`, because its `GetDirectoryName` is empty (Core.cs:55).
  Such a run throws in the mapping loop before anything is written. The
  model reports this as `EmptyBasePath` (`Core.Collect`,
  `RoundTrip.BareFileNameThrows`).

## Model

| member | source | states |
|---|---|---|
| Core.ResolvePath | Core.cs:19 | Definition: an empty path becomes the current directory, any other is kept. Its use is stated in `Core.ExecuteWithArgs`. |
| Core.IsDirectory | Core.cs:21 | Definition of Directory.Exists: the path, without trailing separators, is a directory. Its use is stated in `Core.Validate` and `Core.TrailingSeparatorIgnored`. |
| Core.IsFile | Core.cs:22 | Definition of File.Exists: the parsed path is a file. Its use is stated in `Core.Validate`. |
| Core.Validate | Core.cs:21-37 | Validation changes nothing. The target is not found exactly when it is neither a directory nor a file. Each argument fault names a flag combination that really occurs. Validation passes exactly when the target exists and none of the four forbidden combinations holds: restore or recursive on a file, restore with recursive, restore with force. On success the arguments pass through unchanged. The checks take precedence in source order: restore on an existing file gives the directory-needed fault even with recursive or force set; otherwise recursive on a file gives the recursive-on-file fault; when the target is a directory and no file, restore with recursive gives that fault even with force set, and restore with force alone gives the force fault. |
| Core.ExecuteWithArgs | Core.cs:12-43 | An empty path is first replaced by the current directory. A rejected input fails with the validation error and leaves the filesystem as it was. A valid input runs Guidfy exactly when restore is off, and Restore otherwise, on the resolved path. |
| Core.Candidates | Core.cs:51-53 | Definition: the directory listing for a directory target, the one file otherwise. Its properties are stated in `RoundTrip.CandidatesExist` and `RoundTrip.SingleFileTarget`. |
| Core.BasePath | Core.cs:55 | Definition: the target itself for a directory, the file's directory otherwise. Its properties are stated in `RoundTrip.SingleFileTarget` and `RoundTrip.BareFileNameThrows`. |
| Core.DatabasePath | Core.cs:77 | Definition of `Path.Combine(basePath, "database.json")`, used by Guidfy (Core.cs:77) and Restore (Core.cs:105). Its properties are stated in `Core.TrailingSeparatorIgnored` and `Core.Load`. |
| Core.Collect | Core.cs:61-74 | Definition of the mapping loop as a recursive function. Its properties are stated in `Core.MappingIsPlanned`, `Core.CollectSucceedsIffFresh`, `Core.CollectAppendsDraws` and `Core.CollectFailsOnEligible`. |
| Core.GenerateIds | Core.cs:58-74 | The mapping loop: its result is exactly the mapping specification `Collect` from the empty mapping. |
| Core.MappingIsPlanned | Core.cs:61-74 | The mapping loop succeeds exactly when the drawn identifiers are pairwise distinct and the base path is non-empty (or no file is to be renamed). It then yields the k-th eligible file (not named database.json) keyed by the k-th draw, in order. Otherwise it fails, before any identifier is recorded, because the base path is empty (Path.GetRelativePath refuses it), or with a collision naming a file that was to be renamed. |
| Core.CollectSucceedsIffFresh | Core.cs:61-73 | From a partial mapping keyed by the first draws, the loop succeeds if and only if every further draw is new and the base path is non-empty (or no file is left to get an identifier). |
| Core.CollectAppendsDraws | Core.cs:61-74 | A successful loop keeps the entries it starts with. It appends one entry per eligible file, in order, keyed by the successive draws. |
| Core.CollectFailsOnEligible | Core.cs:63-71 | A failed loop had a file to give an identifier. With an empty base path it fails because the relative path cannot be made. Otherwise it fails with a collision that names a file that is not database.json and was among the candidates. |
| Core.PlannedCoversCandidates | Core.cs:61-74 | For distinct candidates and distinct draws: the keys are distinct and no value is named database.json. Every other candidate is the value of some entry, and of no other. |
| Core.Eligible | Core.cs:61-64 | A file gets an identifier if and only if it is a candidate not named database.json. |
| Core.RenameMoves | Core.cs:90-96 | Guidfy's renames follow the mapping order. Each takes the original path of an entry and stays in that file's directory. |
| Core.RestoreMoves | Core.cs:121-127 | Restore's moves follow the mapping order. Each ends at the original path of an entry and starts in that file's directory. |
| Core.RestoreUndoesRenames | Core.cs:121-127 | Restore's moves are Guidfy's renames, each reversed, in the same order. |
| Core.GuidfyRun | Core.cs:45-99 | Definition of one Guidfy run: the mapping loop, the overwrite check, the database write, then the renames. Its properties are stated in `Core.GuidfyRunKeeps`, `RoundTrip.GuidfySucceeds`, `RoundTrip.DatabaseWrittenBeforeRenames`, `RoundTrip.SucceededRunRenames` and `RoundTrip.GuidfyThenRestore`. |
| Core.RestoreRun | Core.cs:101-135 | Definition of one Restore run: load, move everything back, then delete database.json. Its properties are stated in `Core.Restore`, `RoundTrip.RestoreAfterRenames`, `RoundTrip.FailedRestoreKeepsDatabase` and `Core.TrailingSeparatorIgnored`. |
| Core.Load | Core.cs:104-118 | Loading fails with not-found when database.json is missing. It fails as corrupt when the deserialiser refuses the contents, and as invalid data when they deserialise to null. Otherwise it gives back exactly the mapping stored there. |
| Core.Guidfy | Core.cs:45-99 | The method's outcome and filesystem are those of `GuidfyRun`. An empty base path, a collision, or an existing database without force fails and leaves the filesystem unchanged: nothing is written and nothing is moved. Directories are never changed. |
| Core.GuidfyRunKeeps | Core.cs:61-96 | A run that fails with an empty base path, a collision or an existing database leaves the filesystem unchanged. A database in the way without force always fails so, and when the mapping loop succeeded the error is the already-exists error. No run changes directories. |
| Core.Restore | Core.cs:101-135 | The method's outcome and filesystem are those of `RestoreRun`. A missing, refused or null database fails with that error and changes nothing. A successful restore leaves no database.json. Directories are never changed. The database is looked up in the directory the path names, so a trailing separator does not matter (see `Core.TrailingSeparatorIgnored`). |
| Core.TrailingSeparatorIgnored | Core.cs:104-107 | Appending a separator to a non-empty path names the same directory and the same database.json, and Restore behaves identically on both spellings. |
| Disk.MoveFile | Core.cs:95 | File.Move succeeds if and only if the source exists and the destination does not. Otherwise it reports the missing source or the existing destination. On success the content is at the destination and the source is gone; every other file is unchanged. |
| Disk.WriteFile | Core.cs:83-87 | Writing the database creates or overwrites that one file and changes no other. |
| Disk.DeleteFile | Core.cs:131 | File.Delete removes that one file, if present, and changes no other. |
| Disk.MoveAll | Core.cs:90-96 | A sequence of moves never changes directories. It can only fail with File.Move's own two errors. |
| Disk.MoveInOrder | Core.cs:90-96 | The move loop, used for both Guidfy's renames and Restore's moves back. Its outcome and filesystem are exactly those of `MoveAll`. It stops at the first move that throws. |
| Disk.FailureAfterPrefix | Core.cs:90-96 | A move loop that throws has done exactly the moves before the one that threw. That move is refused on the filesystem they left behind. |
| Disk.IndependentMovesSucceed | Core.cs:90-96 | When every source exists, no destination does, and no two moves share a source or a destination, every move succeeds. Each destination then holds its source's old content, every source is gone, and every other path is untouched. |
| Disk.MovesUndone | Core.cs:121-127 | Performing the reversed moves after independent moves gives back the original filesystem exactly. |
| Disk.MovesKeep | Core.cs:121-131 | A file that no move takes as its source keeps its content, whether the moves succeed or throw. |
| Disk.MovesLeaveAlone | Core.cs:90-96 | A path that no move mentions is neither created, removed nor changed, whether the moves succeed or throw. |
| Database.Target | Core.cs:92-95 | The renamed path is in the original file's directory. Its name is the identifier followed by the original name's extension. |
| Paths.Parse | Core.cs:55 | The file name is the text after the last separator and contains none. The directory is the text before that separator with trailing separators removed, the root when that is the only separator, and empty exactly when there is no separator. |
| Paths.TrimTrailingSeparators | Core.cs:21 | The result is a prefix of the path, non-empty when the path is, and does not end with a separator unless it is the root. |
| Paths.TrimRemovesOnlySeparators | Core.cs:21 | Everything trimming removes from the path is a separator. |
| Paths.Extension | Core.cs:92 | The extension is a suffix of the name. When non-empty it starts with '.', has at least one character after it, and has no other '.'. For a bare name it is empty exactly when the name has no '.' or ends with one. |
| Paths.DotFreeIdsGiveDistinctNames | Core.cs:95 | Identifiers without '.', as UUID text is, give different new names whenever they differ, whatever the two extensions are. |
| RoundTrip.DotFreeDrawsGiveDistinctTargets | Core.cs:90-95 | Pairwise distinct draws without '.' give every planned entry a different renamed path, which is the third condition of `FreshTargets`. |
| RoundTrip.Listing | Core.cs:52 | Definition of what `Directory.GetFiles` returns: distinct paths, exactly the files in the directory, or below it when recursive. It is the hypothesis of `RoundTrip.CandidatesExist`. |
| RoundTrip.CandidatesExist | Core.cs:51-53 | For a validated target, every candidate exists and no candidate is listed twice. |
| RoundTrip.SingleFileTarget | Core.cs:51-96 | For a file target, the base path is the file's directory and the mapping is the single entry for that file. A bare file name has an empty directory: the run then fails with the empty-base-path error and changes nothing. Otherwise, when the new name is free and overwriting is allowed, the run writes the database and renames that one file, and nothing else changes. |
| RoundTrip.BareFileNameThrows | Core.cs:55-67 | A file target without a separator fails with the empty-base-path error and leaves the filesystem unchanged. |
| RoundTrip.OneFileRenamed | Core.cs:77-96 | A file target with a directory, a free new name and no database in the way (or force set) gets database.json with its one entry and is renamed; nothing else changes. |
| RoundTrip.OneFileMapping | Core.cs:61-74 | The mapping loop over one file not named database.json, based in its own directory, gives that file the first draw, or fails with the empty-base-path error when the directory is empty. |
| RoundTrip.RenamesIndependent | Core.cs:77-96 | With distinct draws and free new names, the renames cannot interfere with each other or with the database just written. |
| RoundTrip.GuidfySucceeds | Core.cs:61-96 | With a non-empty base path (or nothing to rename), distinct draws, free new names, and no database in the way (or force set), Guidfy succeeds. database.json then holds the planned mapping, and each value v with key k has moved to GetDirectoryName(v)/k+GetExtension(v). Every other file is unchanged. |
| RoundTrip.DatabaseWrittenBeforeRenames | Core.cs:77-96 | Once the mapping loop has succeeded and the overwrite check has passed, database.json holds the loop's mapping at the end of the run, even when a rename threw partway. Such a run can only fail with a File.Move error. |
| RoundTrip.SucceededRunRenames | Core.cs:61-96 | A Guidfy run that succeeds drew pairwise distinct identifiers. It wrote the planned mapping and then performed exactly its renames. |
| RoundTrip.RestoreAfterRenames | Core.cs:101-135 | Suppose independent renames were performed, and the database holds their mapping and is not one of the renamed files. Restore then succeeds, and leaves the filesystem as it was before the renames, minus database.json. |
| RoundTrip.GuidfyThenRestore | Core.cs:45-135 | Assume the listing is really the directory's, Guidfy succeeded, and the new names were free (`FreshTargets`: no new name already exists, none is database.json's path, and no two are equal). Then Restore on the base directory succeeds, and the filesystem afterwards is exactly the original one minus database.json. Without free new names a successful Guidfy may not be restorable: a rename onto a name that a later file gives up makes Restore, which replays the entries in the same order, find that destination taken. |
| RoundTrip.FailedRestoreKeepsDatabase | Core.cs:121-131 | A restore that throws while moving files back leaves database.json in place with its content, so it can be run again. This needs no entry's renamed path to be database.json's own path. |

## Left out

- Console output is not modelled: `Log`, `PrintHeader` and the exit-code wrapper `ExceptionWrapper` (Core.cs:137-166). Exceptions become `Failure` values instead.
- `Program.Main` and the command-line parser are not part of this model. `ProgramArguments` is a plain datatype; a missing path is the empty string.
- `Guid.NewGuid` randomness is replaced by the oracle `draw`. The UUID text format is not checked.
- The JSON byte format and indentation are not modelled. The stored database is the mapping itself. Duplicate keys in a hand-edited file, and `null` values inside the object, are not modelled.
- `Directory.GetFiles` is given as an input listing. The listing is tied to the filesystem only by the `RoundTrip.Listing` predicate: distinct, and exactly the files in the directory (or below it when recursive). Its order is arbitrary.
- `Path.GetRelativePath` (Core.cs:67) is modelled only by its refusal of an empty base path, as the `EmptyBasePath` error. Its result only feeds log text and the collision message, which carries the file itself here.
- Stream handles, flushing and I/O failures while writing or reading the database are not modelled.
- A null `arguments` object (`ArgumentNullException`, Core.cs:16-17) is not modelled: the model has no null.
- Paths are compared as strings. A relative path stands for itself and is taken to be resolved against one fixed current directory, so a relative and an absolute spelling of the same file are different files here. The database stores paths as `Directory.GetFiles` returned them (Core.cs:52, 73, 82), so `RoundTrip.GuidfyThenRestore` holds only when Restore names the base directory the way Guidfy did and runs from the same current directory, or when all paths are absolute. Likewise the overwrite check (Core.cs:79) does not see a database written under the other spelling. Case-insensitive file systems are not modelled either: there `DATABASE.JSON` would trip the check at Core.cs:79 but is not skipped at Core.cs:63.
- Only the Unix separator is modelled. Trailing separators are removed where a path names a directory (`Paths.TrimTrailingSeparators`). Repeated separators inside a path, `.` and `..` segments, and the Windows separator are left out, and identifiers are assumed free of separators.
- `File.Move`'s check that the destination directory exists is not modelled: every destination here lies in its source's own directory.
- `new StreamWriter(jsonPath)` (Core.cs:83) throws `DirectoryNotFoundException` when the base directory does not exist. This exception is not modelled: `WriteFile` always succeeds. A validated target's base directory exists: it is the target directory, or the directory holding the target file.
- Disk.MoveFile: sharing violations and permission errors are not modelled; only a missing source and an existing destination are.
