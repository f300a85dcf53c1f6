/** The core of guidfy: argument validation and dispatch, the forward
    transform (Guidfy) that renames files to identifiers and records the
    mapping in database.json, and the inverse transform (Restore). */
module Core {
  import opened Paths
  import opened Outcomes
  import opened Database
  import opened Disk
  import opened Arguments

  const DatabaseName: string := "database.json"

  /** NextGuid as an oracle: the identifier handed out by the k-th draw of a run. */
  type Oracle = nat -> string

  /** Path.Combine(base, "database.json"), split into directory and name: a
      base with trailing separators names the same directory as without. */
  function DatabasePath(base: string): Path
  {
    Path(TrimTrailingSeparators(base), DatabaseName)
  }

  /** Directory.Exists: a trailing separator does not change the directory. */
  predicate IsDirectory(fs: FileSystem, s: string)
  {
    TrimTrailingSeparators(s) in fs.dirs
  }

  /** A separator appended to a non-empty path names the same directory and
      the same database, so Restore reads and deletes the same file. */
  lemma TrailingSeparatorIgnored(base: string, fs: FileSystem)
    requires base != ""
    ensures IsDirectory(fs, base + [Separator]) <==> IsDirectory(fs, base)
    ensures DatabasePath(base + [Separator]) == DatabasePath(base)
    ensures RestoreRun(base + [Separator], fs) == RestoreRun(base, fs)
  {
  }

  /** File.Exists */
  predicate IsFile(fs: FileSystem, s: string)
  {
    Parse(s) in fs.files
  }

  /** An empty path stands for the current directory. */
  function ResolvePath(path: string, cwd: string): string
  {
    if path == "" then cwd else path
  }

  // ---------------------------------------------------------------------
  // Validation and dispatch
  // ---------------------------------------------------------------------

  /** The checks ExecuteWithArgs makes, in order, on arguments whose path is
      already resolved; none of them changes anything. */
  function Validate(args: ProgramArguments, fs: FileSystem): (r: Result<ProgramArguments>)
    ensures r.Ok? ==> r.value == args
    ensures r.Err? ==> r.error == TargetNotFound || r.error.InvalidArgument?
    ensures r == Err(TargetNotFound) <==> !IsDirectory(fs, args.path) && !IsFile(fs, args.path)
    ensures r == Err(InvalidArgument(RestoreNeedsDirectory)) ==> args.restore && IsFile(fs, args.path)
    ensures r == Err(InvalidArgument(RecursiveOnFile)) ==> args.recursive && IsFile(fs, args.path)
    ensures r == Err(InvalidArgument(RestoreWithRecursive)) ==> args.restore && args.recursive
    ensures r == Err(InvalidArgument(RestoreWithForce)) ==> args.restore && args.force
    ensures IsFile(fs, args.path) && args.restore ==> r == Err(InvalidArgument(RestoreNeedsDirectory))
    ensures IsFile(fs, args.path) && !args.restore && args.recursive ==> r == Err(InvalidArgument(RecursiveOnFile))
    ensures IsDirectory(fs, args.path) && !IsFile(fs, args.path) && args.restore && args.recursive ==>
              r == Err(InvalidArgument(RestoreWithRecursive))
    ensures IsDirectory(fs, args.path) && !IsFile(fs, args.path) && args.restore && !args.recursive && args.force ==>
              r == Err(InvalidArgument(RestoreWithForce))
    ensures r.Ok? <==>
              && (IsDirectory(fs, args.path) || IsFile(fs, args.path))
              && !(args.restore && IsFile(fs, args.path))
              && !(args.recursive && IsFile(fs, args.path))
              && !(args.restore && args.recursive)
              && !(args.restore && args.force)
  {
    var isDirectory := IsDirectory(fs, args.path);
    var isFile := IsFile(fs, args.path);
    if !isDirectory && !isFile then Err(TargetNotFound)
    else if args.restore && isFile then Err(InvalidArgument(RestoreNeedsDirectory))
    else if isFile && args.recursive then Err(InvalidArgument(RecursiveOnFile))
    else if args.restore && args.recursive then Err(InvalidArgument(RestoreWithRecursive))
    else if args.restore && args.force then Err(InvalidArgument(RestoreWithForce))
    else Ok(args)
  }

  /** The whole command: resolve the path, validate, then run exactly one of
      the two transforms. `cwd` is the current directory, `listing` what
      Directory.GetFiles returns for the target, `draw` the identifiers. */
  method ExecuteWithArgs(args: ProgramArguments, cwd: string, fs: FileSystem, listing: seq<Path>, draw: Oracle)
    returns (status: Status, fs': FileSystem)
    ensures var resolved := args.(path := ResolvePath(args.path, cwd));
            match Validate(resolved, fs)
            case Err(e) => status == Failure(e) && fs' == fs
            case Ok(_) =>
              if !args.restore then Run(status, fs') == GuidfyRun(resolved, fs, listing, draw)
              else Run(status, fs') == RestoreRun(resolved.path, fs)
  {
    var arguments := args.(path := ResolvePath(args.path, cwd));
    var checked := Validate(arguments, fs);
    if checked.Err? {
      return Failure(checked.error), fs;
    }
    if !arguments.restore {
      status, fs' := Guidfy(arguments, fs, listing, draw);
    } else {
      status, fs' := Restore(arguments, fs);
    }
  }

  // ---------------------------------------------------------------------
  // Guidfy: building the mapping
  // ---------------------------------------------------------------------

  /** The files Guidfy considers: the directory listing, or the one file. */
  function Candidates(args: ProgramArguments, fs: FileSystem, listing: seq<Path>): seq<Path>
  {
    if IsDirectory(fs, args.path) then listing else [Parse(args.path)]
  }

  /** Where database.json goes: the directory itself, or the file's directory. */
  function BasePath(args: ProgramArguments, fs: FileSystem): string
  {
    if IsDirectory(fs, args.path) then args.path else Parse(args.path).dir
  }

  /** The mapping loop from the state `acc`, over the files still to visit:
      database.json is skipped; every other file draws the next identifier
      and has its path made relative to `base`, which throws when `base` is
      empty; a drawn identifier that is already a key aborts the run. */
  function Collect(files: seq<Path>, draw: Oracle, base: string, acc: Mapping): Result<Mapping>
    decreases |files|
  {
    if files == [] then Ok(acc)
    else if files[0].name == DatabaseName then Collect(files[1..], draw, base, acc)
    else if base == "" then Err(EmptyBasePath)
    else
      var id := draw(|acc|);
      if HasKey(acc, id) then Err(Collision(files[0]))
      else Collect(files[1..], draw, base, acc + [Entry(id, files[0])])
  }

  /** The candidates that get an identifier: all but those named database.json. */
  function Eligible(files: seq<Path>): (r: seq<Path>)
    ensures |r| <= |files|
    ensures forall p :: p in r <==> p in files && p.name != DatabaseName
  {
    if files == [] then []
    else if files[0].name == DatabaseName then Eligible(files[1..])
    else [files[0]] + Eligible(files[1..])
  }

  /** The mapping the loop means to build: the k-th eligible file keyed by the
      k-th identifier drawn. */
  function Planned(files: seq<Path>, draw: Oracle): (m: Mapping)
    ensures |m| == |Eligible(files)|
  {
    seq(|Eligible(files)|, k requires 0 <= k < |Eligible(files)| => Entry(draw(k), Eligible(files)[k]))
  }

  /** No two of the first n draws are equal. */
  ghost predicate DistinctDraws(draw: Oracle, n: nat)
  {
    forall i, j :: 0 <= i < j < n ==> draw(i) != draw(j)
  }

  /** A failed mapping loop failed at a file that was to get an identifier:
      with an empty base path it throws there before any identifier is
      checked; otherwise the collision names that file. */
  lemma {:induction false} CollectFailsOnEligible(files: seq<Path>, draw: Oracle, base: string, acc: Mapping)
    ensures var r := Collect(files, draw, base, acc);
            r.Err? ==>
              && Eligible(files) != []
              && (base == "" ==> r.error == EmptyBasePath)
              && (base != "" ==> r.error.Collision? && r.error.file in Eligible(files))
    decreases |files|
  {
    if files != [] {
      CollectFailsOnEligible(files[1..], draw, base, acc);
      if files[0].name != DatabaseName {
        assert Eligible(files) == [files[0]] + Eligible(files[1..]);
        CollectFailsOnEligible(files[1..], draw, base, acc + [Entry(draw(|acc|), files[0])]);
      }
    }
  }

  /** The mapping loop, from a state whose keys are the first draws, succeeds
      exactly when the base path is usable or no file needs it, and every
      identifier it draws is new. */
  lemma {:induction false} CollectSucceedsIffFresh(files: seq<Path>, draw: Oracle, base: string, acc: Mapping)
    requires forall j :: 0 <= j < |acc| ==> acc[j].id == draw(j)
    requires DistinctDraws(draw, |acc|)
    ensures Collect(files, draw, base, acc).Ok? <==>
              (base != "" || Eligible(files) == []) && DistinctDraws(draw, |acc| + |Eligible(files)|)
    decreases |files|
  {
    if files != [] {
      var f, rest := files[0], files[1..];
      if f.name == DatabaseName {
        assert Eligible(files) == Eligible(rest);
        assert Collect(files, draw, base, acc) == Collect(rest, draw, base, acc);
        CollectSucceedsIffFresh(rest, draw, base, acc);
      } else {
        assert Eligible(files) == [f] + Eligible(rest);
        var id := draw(|acc|);
        if base == "" {
          assert Collect(files, draw, base, acc) == Err(EmptyBasePath);
        } else if HasKey(acc, id) {
          assert Collect(files, draw, base, acc) == Err(Collision(f));
          var j :| 0 <= j < |acc| && acc[j].id == id;
          assert draw(j) == draw(|acc|) && |acc| < |acc| + |Eligible(files)|;
          assert !DistinctDraws(draw, |acc| + |Eligible(files)|);
        } else {
          var acc' := acc + [Entry(id, f)];
          assert Collect(files, draw, base, acc) == Collect(rest, draw, base, acc');
          assert |acc'| + |Eligible(rest)| == |acc| + |Eligible(files)|;
          FreshDrawExtends(draw, acc, f);
          CollectSucceedsIffFresh(rest, draw, base, acc');
        }
      }
    }
  }

  /** A draw that is not yet a key extends a mapping keyed by distinct first
      draws to one keyed by one more distinct draw. */
  lemma FreshDrawExtends(draw: Oracle, acc: Mapping, f: Path)
    requires forall j :: 0 <= j < |acc| ==> acc[j].id == draw(j)
    requires DistinctDraws(draw, |acc|)
    requires !HasKey(acc, draw(|acc|))
    ensures var acc' := acc + [Entry(draw(|acc|), f)];
            && (forall j :: 0 <= j < |acc'| ==> acc'[j].id == draw(j))
            && DistinctDraws(draw, |acc'|)
  {
    forall j | 0 <= j < |acc| ensures draw(j) != draw(|acc|) {
      assert acc[j].id == draw(j);
    }
  }

  /** The entries that key each of `eligible`, in order, by the draws from
      number `start` on. */
  function Drawn(eligible: seq<Path>, draw: Oracle, start: nat): (m: Mapping)
    ensures |m| == |eligible|
  {
    seq(|eligible|, k requires 0 <= k < |eligible| => Entry(draw(start + k), eligible[k]))
  }

  /** The first drawn entry, then the rest from the next draw on. */
  lemma DrawnStep(eligible: seq<Path>, draw: Oracle, start: nat)
    requires eligible != []
    ensures Drawn(eligible, draw, start) == [Entry(draw(start), eligible[0])] + Drawn(eligible[1..], draw, start + 1)
  {
    var d, rest := Drawn(eligible, draw, start), Drawn(eligible[1..], draw, start + 1);
    forall k | 0 < k < |d| ensures d[k] == rest[k - 1] {
      assert eligible[1..][k - 1] == eligible[k];
    }
  }

  /** A successful mapping loop appends, to the state it starts from, one entry
      per eligible file, in order, keyed by the successive draws. */
  lemma {:induction false} CollectAppendsDraws(files: seq<Path>, draw: Oracle, base: string, acc: Mapping)
    ensures Collect(files, draw, base, acc).Ok? ==>
              Collect(files, draw, base, acc).value == acc + Drawn(Eligible(files), draw, |acc|)
    decreases |files|
  {
    if files != [] && Collect(files, draw, base, acc).Ok? {
      var f, rest := files[0], files[1..];
      if f.name == DatabaseName {
        CollectAppendsDraws(rest, draw, base, acc);
      } else {
        var e := Entry(draw(|acc|), f);
        assert Collect(files, draw, base, acc) == Collect(rest, draw, base, acc + [e]);
        CollectAppendsDraws(rest, draw, base, acc + [e]);
        assert Eligible(files) == [f] + Eligible(rest);
        assert Eligible(files)[0] == f && Eligible(files)[1..] == Eligible(rest);
        DrawnStep(Eligible(files), draw, |acc|);
        assert (acc + [e]) + Drawn(Eligible(rest), draw, |acc| + 1) == acc + ([e] + Drawn(Eligible(rest), draw, |acc| + 1));
      }
    }
  }

  /** The mapping Guidfy builds: it succeeds exactly when the base path is
      usable (or no file needs it) and the identifiers drawn are pairwise
      distinct, and then it is the planned mapping; otherwise it failed at a
      file that was to be renamed. */
  lemma MappingIsPlanned(files: seq<Path>, draw: Oracle, base: string)
    ensures Collect(files, draw, base, []).Ok? <==>
              (base != "" || Eligible(files) == []) && DistinctDraws(draw, |Eligible(files)|)
    ensures Collect(files, draw, base, []).Ok? ==> Collect(files, draw, base, []).value == Planned(files, draw)
    ensures var r := Collect(files, draw, base, []);
            r.Err? ==>
              && (base == "" ==> r.error == EmptyBasePath)
              && (base != "" ==> r.error.Collision? && r.error.file in Eligible(files))
  {
    CollectFailsOnEligible(files, draw, base, []);
    CollectSucceedsIffFresh(files, draw, base, []);
    CollectAppendsDraws(files, draw, base, []);
    assert [] + Drawn(Eligible(files), draw, 0) == Planned(files, draw);
  }

  /** database.json is never a value of the mapping, and each other candidate
      is the value of exactly one entry, keyed by the identifier drawn for it;
      the keys are pairwise distinct. */
  lemma {:induction false} PlannedCoversCandidates(files: seq<Path>, draw: Oracle)
    requires forall i, j :: 0 <= i < j < |files| ==> files[i] != files[j]
    requires DistinctDraws(draw, |Eligible(files)|)
    ensures DistinctKeys(Planned(files, draw))
    ensures forall k :: 0 <= k < |Planned(files, draw)| ==> Planned(files, draw)[k].original.name != DatabaseName
    ensures forall p :: p in files && p.name != DatabaseName ==>
              exists k :: 0 <= k < |Planned(files, draw)| && Planned(files, draw)[k].original == p
    ensures forall k, l :: 0 <= k < l < |Planned(files, draw)| ==> Planned(files, draw)[k].original != Planned(files, draw)[l].original
  {
    EligibleDistinct(files);
    var m := Planned(files, draw);
    forall k | 0 <= k < |m| ensures m[k].original.name != DatabaseName {
      assert m[k].original == Eligible(files)[k] && Eligible(files)[k] in Eligible(files);
    }
    forall p | p in files && p.name != DatabaseName
      ensures exists k :: 0 <= k < |m| && m[k].original == p
    {
      var k :| 0 <= k < |Eligible(files)| && Eligible(files)[k] == p;
      assert m[k].original == p;
    }
  }

  /** Filtering keeps a list free of duplicates. */
  lemma {:induction false} EligibleDistinct(files: seq<Path>)
    requires forall i, j :: 0 <= i < j < |files| ==> files[i] != files[j]
    ensures forall i, j :: 0 <= i < j < |Eligible(files)| ==> Eligible(files)[i] != Eligible(files)[j]
  {
    if files != [] {
      var rest := files[1..];
      assert forall i, j :: 0 <= i < j < |rest| ==> rest[i] == files[i + 1] && rest[j] == files[j + 1];
      EligibleDistinct(rest);
      assert files[0] !in rest;
      assert files[0] !in Eligible(rest);
    }
  }

  // ---------------------------------------------------------------------
  // Guidfy and Restore
  // ---------------------------------------------------------------------

  /** The renames Guidfy performs, in mapping order: each value v with key k
      goes to GetDirectoryName(v)/k + GetExtension(v). */
  function RenameMoves(m: Mapping): (r: seq<Move>)
    ensures |r| == |m|
    ensures forall k :: 0 <= k < |m| ==> r[k].src == m[k].original && r[k].dst.dir == m[k].original.dir
  {
    seq(|m|, k requires 0 <= k < |m| => Move(m[k].original, Target(m[k])))
  }

  /** The moves Restore performs, in mapping order: each renamed file back to
      its original path. They undo the renames one by one. */
  function RestoreMoves(m: Mapping): (r: seq<Move>)
    ensures |r| == |m|
    ensures forall k :: 0 <= k < |m| ==> r[k].dst == m[k].original && r[k].src.dir == m[k].original.dir
  {
    seq(|m|, k requires 0 <= k < |m| => Move(Target(m[k]), m[k].original))
  }

  /** Restore's moves are Guidfy's renames, each one reversed, in the same order. */
  lemma RestoreUndoesRenames(m: Mapping)
    ensures RestoreMoves(m) == Swapped(RenameMoves(m))
  {
  }

  /** What one run of Guidfy does: build the mapping in memory, refuse to
      overwrite database.json without --force, write it, then rename the files
      one by one. */
  function GuidfyRun(args: ProgramArguments, fs: FileSystem, listing: seq<Path>, draw: Oracle): Run
  {
    var jsonPath := DatabasePath(BasePath(args, fs));
    match Collect(Candidates(args, fs, listing), draw, BasePath(args, fs), [])
    case Err(e) => Run(Failure(e), fs)
    case Ok(m) =>
      if jsonPath in fs.files && !args.force then Run(Failure(DatabaseExists), fs)
      else MoveAll(WriteFile(fs, jsonPath, JsonObject(m)), RenameMoves(m))
  }

  /** Reading database.json back: missing, refused by the deserialiser, null,
      or the mapping it holds. */
  function Load(fs: FileSystem, base: string): (r: Result<Mapping>)
    ensures r.Ok? <==> DatabasePath(base) in fs.files && fs.files[DatabasePath(base)].JsonObject?
    ensures DatabasePath(base) !in fs.files ==> r == Err(DatabaseNotFound)
    ensures DatabasePath(base) in fs.files && fs.files[DatabasePath(base)].JsonNull? ==> r == Err(InvalidDatabase)
    ensures DatabasePath(base) in fs.files && fs.files[DatabasePath(base)].Blob? ==> r == Err(MalformedDatabase)
    ensures r.Ok? ==> fs.files[DatabasePath(base)] == JsonObject(r.value)
  {
    var jsonPath := DatabasePath(base);
    if jsonPath !in fs.files then Err(DatabaseNotFound)
    else match fs.files[jsonPath]
      case Blob(_) => Err(MalformedDatabase)
      case JsonNull => Err(InvalidDatabase)
      case JsonObject(m) => Ok(m)
  }

  /** What one run of Restore does: load the mapping, move every file back,
      and delete database.json only once every move has succeeded. */
  function RestoreRun(base: string, fs: FileSystem): Run
  {
    match Load(fs, base)
    case Err(e) => Run(Failure(e), fs)
    case Ok(m) =>
      var moved := MoveAll(fs, RestoreMoves(m));
      if moved.status.Failure? then moved
      else Run(Success, DeleteFile(moved.fs, DatabasePath(base)))
  }

  /** A run that fails before the rename loop (an empty base path, a
      collision, or a database in the way) changes nothing, and no run
      changes directories. */
  lemma GuidfyRunKeeps(args: ProgramArguments, fs: FileSystem, listing: seq<Path>, draw: Oracle)
    ensures var r := GuidfyRun(args, fs, listing, draw);
            && (r.status.Failure? && (r.status.error.Collision? || r.status.error == EmptyBasePath || r.status.error == DatabaseExists) ==> r.fs == fs)
            && (DatabasePath(BasePath(args, fs)) in fs.files && !args.force ==> r.status.Failure? && r.fs == fs)
            && (Collect(Candidates(args, fs, listing), draw, BasePath(args, fs), []).Ok?
                && DatabasePath(BasePath(args, fs)) in fs.files && !args.force
                ==> r == Run(Failure(DatabaseExists), fs))
            && r.fs.dirs == fs.dirs
  {
  }

  method Guidfy(args: ProgramArguments, fs: FileSystem, listing: seq<Path>, draw: Oracle)
    returns (status: Status, fs': FileSystem)
    ensures Run(status, fs') == GuidfyRun(args, fs, listing, draw)
    ensures status.Failure? && (status.error.Collision? || status.error == EmptyBasePath || status.error == DatabaseExists) ==> fs' == fs
    ensures DatabasePath(BasePath(args, fs)) in fs.files && !args.force ==> status.Failure? && fs' == fs
    ensures fs'.dirs == fs.dirs
  {
    GuidfyRunKeeps(args, fs, listing, draw);
    var isDirectory := IsDirectory(fs, args.path);
    var files := if isDirectory then listing else [Parse(args.path)];
    var basePath := if isDirectory then args.path else Parse(args.path).dir;
    assert files == Candidates(args, fs, listing) && basePath == BasePath(args, fs);

    var generated := GenerateIds(files, draw, basePath);
    if generated.Err? {
      return Failure(generated.error), fs;
    }
    var database := generated.value;

    var jsonPath := DatabasePath(basePath);
    if jsonPath in fs.files && !args.force {
      return Failure(DatabaseExists), fs;
    }
    var written := WriteFile(fs, jsonPath, JsonObject(database));
    // the rename loop
    status, fs' := MoveInOrder(written, RenameMoves(database));
    assert Run(status, fs') == MoveAll(written, RenameMoves(database));
  }

  /** The mapping loop of Guidfy. */
  method GenerateIds(files: seq<Path>, draw: Oracle, basePath: string) returns (result: Result<Mapping>)
    ensures result == Collect(files, draw, basePath, [])
  {
    var database: Mapping := [];
    var i := 0;
    while i < |files|
      invariant 0 <= i <= |files|
      invariant Collect(files[i..], draw, basePath, database) == Collect(files, draw, basePath, [])
    {
      var file := files[i];
      assert files[i..][0] == file && files[i..][1..] == files[i + 1..];
      if file.name != DatabaseName {
        // the number of identifiers drawn so far is the number of entries
        var guid := draw(|database|);
        // Path.GetRelativePath(basePath, file) refuses an empty base path
        if basePath == "" {
          return Err(EmptyBasePath);
        }
        if HasKey(database, guid) {
          return Err(Collision(file));
        }
        database := database + [Entry(guid, file)];
      }
      i := i + 1;
    }
    assert files[i..] == [];
    return Ok(database);
  }

  method Restore(args: ProgramArguments, fs: FileSystem) returns (status: Status, fs': FileSystem)
    ensures Run(status, fs') == RestoreRun(args.path, fs)
    ensures Load(fs, args.path).Err? ==> status == Failure(Load(fs, args.path).error) && fs' == fs
    ensures status == Success ==> DatabasePath(args.path) !in fs'.files
    ensures fs'.dirs == fs.dirs
  {
    var basePath := args.path;
    var databasePath := DatabasePath(basePath);
    if databasePath !in fs.files {
      return Failure(DatabaseNotFound), fs;
    }
    var database: Mapping;
    match fs.files[databasePath] {
      case Blob(_) => return Failure(MalformedDatabase), fs;
      case JsonNull => return Failure(InvalidDatabase), fs;
      case JsonObject(m) => database := m;
    }

    var current;
    // the move-back loop
    status, current := MoveInOrder(fs, RestoreMoves(database));
    if status.Failure? {
      return status, current;
    }
    return Success, DeleteFile(current, databasePath);
  }
}
