/** What the two transforms achieve together: Guidfy succeeds when the drawn
    identifiers are distinct and the new names are free, it writes the
    database before renaming anything, and Restore then gives back exactly the
    files there were before, minus database.json. */
module RoundTrip {
  import opened Paths
  import opened Outcomes
  import opened Database
  import opened Disk
  import opened Arguments
  import opened Core

  /** A directory at or below `base`. */
  predicate Within(dir: string, base: string)
  {
    || dir == base
    || base + [Separator] <= dir
    || (|base| > 0 && base[|base| - 1] == Separator && base <= dir)
  }

  /** What Directory.GetFiles(base, "*", option) returns: every file directly in
      `base`, or anywhere below it when recursive, each exactly once, in an
      order the filesystem chooses; a trailing separator on `base` names the
      same directory. */
  ghost predicate Listing(fs: FileSystem, base: string, recursive: bool, listing: seq<Path>)
  {
    var dir := TrimTrailingSeparators(base);
    && (forall i, j :: 0 <= i < j < |listing| ==> listing[i] != listing[j])
    && (forall p :: p in listing <==>
          p in fs.files && (if recursive then Within(p.dir, dir) else p.dir == dir))
  }

  /** The target passed validation and the listing is the directory's. */
  ghost predicate Enumerated(args: ProgramArguments, fs: FileSystem, listing: seq<Path>)
  {
    && (IsDirectory(fs, args.path) ==> Listing(fs, args.path, args.recursive, listing))
    && (!IsDirectory(fs, args.path) ==> IsFile(fs, args.path))
  }

  /** The names the files get are free: no file already has one, none is
      database.json's path, and no two files get the same one. */
  ghost predicate FreshTargets(fs: FileSystem, base: string, m: Mapping)
  {
    && (forall k :: 0 <= k < |m| ==> Target(m[k]) !in fs.files && Target(m[k]) != DatabasePath(base))
    && (forall k, l :: 0 <= k < l < |m| ==> Target(m[k]) != Target(m[l]))
  }

  /** The candidates of a validated target exist and are pairwise distinct. */
  lemma CandidatesExist(args: ProgramArguments, fs: FileSystem, listing: seq<Path>)
    requires Enumerated(args, fs, listing)
    ensures forall p :: p in Candidates(args, fs, listing) ==> p in fs.files
    ensures forall i, j :: 0 <= i < j < |Candidates(args, fs, listing)| ==>
              Candidates(args, fs, listing)[i] != Candidates(args, fs, listing)[j]
  {
    if IsDirectory(fs, args.path) {
      assert Candidates(args, fs, listing) == listing;
      assert Listing(fs, args.path, args.recursive, listing);
    } else {
      assert Candidates(args, fs, listing) == [Parse(args.path)];
    }
  }

  /** Under the freshness hypotheses the renames of a validated target cannot
      interfere with each other or with the database just written. */
  lemma RenamesIndependent(args: ProgramArguments, fs: FileSystem, listing: seq<Path>, draw: Oracle)
    requires Enumerated(args, fs, listing)
    requires DistinctDraws(draw, |Eligible(Candidates(args, fs, listing))|)
    requires FreshTargets(fs, BasePath(args, fs), Planned(Candidates(args, fs, listing), draw))
    ensures var m := Planned(Candidates(args, fs, listing), draw);
            var json := DatabasePath(BasePath(args, fs));
            && Independent(WriteFile(fs, json, JsonObject(m)).files, RenameMoves(m))
            && forall k :: 0 <= k < |m| ==> m[k].original != json
  {
    var files := Candidates(args, fs, listing);
    var m := Planned(files, draw);
    var json := DatabasePath(BasePath(args, fs));
    var written := WriteFile(fs, json, JsonObject(m)).files;
    var moves := RenameMoves(m);
    CandidatesExist(args, fs, listing);
    PlannedCoversCandidates(files, draw);
    forall k | 0 <= k < |moves| ensures moves[k].src in written && moves[k].dst !in written {
      assert m[k].original == Eligible(files)[k] && Eligible(files)[k] in Eligible(files);
      assert moves[k].src != json;
    }
    forall k | 0 <= k < |m| ensures m[k].original != json {
      assert moves[k].src == m[k].original;
    }
  }

  /** With a base path to make the files' paths relative to, distinct
      identifiers, free names and no database in the way (or --force), Guidfy
      succeeds: database.json holds the planned mapping, every
      candidate now sits at its new name with its content, no candidate is at
      its old name, and no other file changed. */
  lemma GuidfySucceeds(args: ProgramArguments, fs: FileSystem, listing: seq<Path>, draw: Oracle)
    requires Enumerated(args, fs, listing)
    requires BasePath(args, fs) != "" || Eligible(Candidates(args, fs, listing)) == []
    requires DistinctDraws(draw, |Eligible(Candidates(args, fs, listing))|)
    requires args.force || DatabasePath(BasePath(args, fs)) !in fs.files
    requires FreshTargets(fs, BasePath(args, fs), Planned(Candidates(args, fs, listing), draw))
    ensures var r := GuidfyRun(args, fs, listing, draw);
            var m := Planned(Candidates(args, fs, listing), draw);
            var json := DatabasePath(BasePath(args, fs));
            && r.status == Success
            && r.fs.dirs == fs.dirs
            && json in r.fs.files && r.fs.files[json] == JsonObject(m)
            && MovedExactly(fs.files[json := JsonObject(m)], RenameMoves(m), r.fs.files)
  {
    var files := Candidates(args, fs, listing);
    var m := Planned(files, draw);
    var json := DatabasePath(BasePath(args, fs));
    MappingIsPlanned(files, draw, BasePath(args, fs));
    RenamesIndependent(args, fs, listing, draw);
    var written := WriteFile(fs, json, JsonObject(m));
    IndependentMovesSucceed(written, RenameMoves(m));
    assert GuidfyRun(args, fs, listing, draw) == MoveAll(written, RenameMoves(m));
    assert json !in Sources(RenameMoves(m)) && json !in Destinations(RenameMoves(m));
  }

  /** The database is written before any file is renamed: once the mapping is
      built and the overwrite check passed, database.json holds the mapping at
      the end of the run, even when a rename threw halfway. */
  lemma DatabaseWrittenBeforeRenames(args: ProgramArguments, fs: FileSystem, listing: seq<Path>, draw: Oracle)
    requires Collect(Candidates(args, fs, listing), draw, BasePath(args, fs), []).Ok?
    requires args.force || DatabasePath(BasePath(args, fs)) !in fs.files
    ensures var r := GuidfyRun(args, fs, listing, draw);
            var json := DatabasePath(BasePath(args, fs));
            && (r.status.Failure? ==> r.status.error.SourceNotFound? || r.status.error.DestinationExists?)
            && json in r.fs.files
            && r.fs.files[json] == JsonObject(Collect(Candidates(args, fs, listing), draw, BasePath(args, fs), []).value)
  {
    var files := Candidates(args, fs, listing);
    var m := Collect(files, draw, BasePath(args, fs), []).value;
    var json := DatabasePath(BasePath(args, fs));
    MappingIsPlanned(files, draw, BasePath(args, fs));
    var moves := RenameMoves(m);
    forall k | 0 <= k < |moves| ensures moves[k].src != json {
      assert m[k].original == Eligible(files)[k] && Eligible(files)[k] in Eligible(files);
    }
    MovesKeep(WriteFile(fs, json, JsonObject(m)), moves, json);
  }

  /** Restore run on the result of independent renames, with the database
      holding their mapping and untouched by them, undoes the renames and then
      deletes the database. */
  lemma RestoreAfterRenames(base: string, written: FileSystem, m: Mapping)
    requires Independent(written.files, RenameMoves(m))
    requires DatabasePath(base) in written.files && written.files[DatabasePath(base)] == JsonObject(m)
    requires forall k :: 0 <= k < |m| ==> m[k].original != DatabasePath(base)
    ensures RestoreRun(base, MoveAll(written, RenameMoves(m)).fs) == Run(Success, DeleteFile(written, DatabasePath(base)))
  {
    var json := DatabasePath(base);
    var renamed := MoveAll(written, RenameMoves(m)).fs;
    MovesKeep(written, RenameMoves(m), json);
    assert Load(renamed, base) == Ok(m);
    MovesUndone(written, RenameMoves(m));
    RestoreUndoesRenames(m);
    assert MoveAll(renamed, RestoreMoves(m)) == Run(Success, written);
  }

  /** A Guidfy run that succeeds drew distinct identifiers, wrote the planned
      mapping and then performed its renames. */
  lemma SucceededRunRenames(args: ProgramArguments, fs: FileSystem, listing: seq<Path>, draw: Oracle)
    ensures GuidfyRun(args, fs, listing, draw).status == Success ==>
              DistinctDraws(draw, |Eligible(Candidates(args, fs, listing))|)
    ensures var m := Planned(Candidates(args, fs, listing), draw);
            GuidfyRun(args, fs, listing, draw).status == Success ==>
              GuidfyRun(args, fs, listing, draw)
                == MoveAll(WriteFile(fs, DatabasePath(BasePath(args, fs)), JsonObject(m)), RenameMoves(m))
  {
    MappingIsPlanned(Candidates(args, fs, listing), draw, BasePath(args, fs));
  }

  /** When the listing is the directory's, Guidfy succeeded and the new names
      were free, Restore on the base directory gives back the original files,
      each at its original path with its original content, and database.json is
      gone: the filesystem is the original one minus database.json. */
  lemma GuidfyThenRestore(args: ProgramArguments, fs: FileSystem, listing: seq<Path>, draw: Oracle)
    requires Enumerated(args, fs, listing)
    requires GuidfyRun(args, fs, listing, draw).status == Success
    requires FreshTargets(fs, BasePath(args, fs), Planned(Candidates(args, fs, listing), draw))
    ensures var json := DatabasePath(BasePath(args, fs));
            RestoreRun(BasePath(args, fs), GuidfyRun(args, fs, listing, draw).fs)
              == Run(Success, FileSystem(fs.dirs, fs.files - {json}))
  {
    var base := BasePath(args, fs);
    var json := DatabasePath(base);
    var m := Planned(Candidates(args, fs, listing), draw);
    var written := WriteFile(fs, json, JsonObject(m));
    SucceededRunRenames(args, fs, listing, draw);
    RenamesIndependent(args, fs, listing, draw);
    RestoreAfterRenames(base, written, m);
    WriteThenDelete(fs, json, JsonObject(m));
  }

  /** A Restore that throws while moving files back leaves database.json where
      it was, so it can be run again, provided no entry's renamed path is the
      database's own path. */
  lemma FailedRestoreKeepsDatabase(base: string, fs: FileSystem)
    requires Load(fs, base).Ok?
    requires forall k :: 0 <= k < |Load(fs, base).value| ==> Target(Load(fs, base).value[k]) != DatabasePath(base)
    requires RestoreRun(base, fs).status.Failure?
    ensures DatabasePath(base) in RestoreRun(base, fs).fs.files
    ensures RestoreRun(base, fs).fs.files[DatabasePath(base)] == fs.files[DatabasePath(base)]
  {
    var m := Load(fs, base).value;
    MovesKeep(fs, RestoreMoves(m), DatabasePath(base));
  }

  /** A single file as target: the database goes to the file's directory and
      the mapping has the one entry for it. A bare file name (one without a
      separator) has the empty directory, so making its path relative throws
      before anything changes;
      otherwise, when its new name is free, the run renames that file and
      nothing else. */
  lemma SingleFileTarget(args: ProgramArguments, fs: FileSystem, listing: seq<Path>, draw: Oracle)
    requires !IsDirectory(fs, args.path) && IsFile(fs, args.path)
    requires Parse(args.path).name != DatabaseName
    ensures BasePath(args, fs) == Parse(args.path).dir
    ensures Planned(Candidates(args, fs, listing), draw) == [Entry(draw(0), Parse(args.path))]
    ensures Parse(args.path).dir == "" ==> GuidfyRun(args, fs, listing, draw) == Run(Failure(EmptyBasePath), fs)
    ensures var f := Parse(args.path);
            var e := Entry(draw(0), f);
            var json := DatabasePath(f.dir);
            f.dir != "" && (args.force || json !in fs.files) && Target(e) !in fs.files && Target(e) != json ==>
              GuidfyRun(args, fs, listing, draw)
                == Run(Success, FileSystem(fs.dirs, (fs.files[json := JsonObject([e])] - {f})[Target(e) := fs.files[f]]))
  {
    var f := Parse(args.path);
    assert Candidates(args, fs, listing) == [f];
    OneFileMapping(f, draw);
    if f.dir == "" {
      BareFileNameThrows(args, fs, listing, draw);
    } else {
      OneFileRenamed(args, fs, listing, draw);
    }
  }

  /** The empty-directory case of SingleFileTarget. */
  lemma BareFileNameThrows(args: ProgramArguments, fs: FileSystem, listing: seq<Path>, draw: Oracle)
    requires !IsDirectory(fs, args.path)
    requires Parse(args.path).name != DatabaseName && Parse(args.path).dir == ""
    ensures GuidfyRun(args, fs, listing, draw) == Run(Failure(EmptyBasePath), fs)
  {
    var f := Parse(args.path);
    assert Candidates(args, fs, listing) == [f];
    OneFileMapping(f, draw);
  }

  /** The renaming case of SingleFileTarget. */
  lemma OneFileRenamed(args: ProgramArguments, fs: FileSystem, listing: seq<Path>, draw: Oracle)
    requires !IsDirectory(fs, args.path) && IsFile(fs, args.path)
    requires Parse(args.path).name != DatabaseName && Parse(args.path).dir != ""
    ensures var f := Parse(args.path);
            var e := Entry(draw(0), f);
            var json := DatabasePath(f.dir);
            (args.force || json !in fs.files) && Target(e) !in fs.files && Target(e) != json ==>
              GuidfyRun(args, fs, listing, draw)
                == Run(Success, FileSystem(fs.dirs, (fs.files[json := JsonObject([e])] - {f})[Target(e) := fs.files[f]]))
  {
    var f := Parse(args.path);
    assert Candidates(args, fs, listing) == [f];
    assert BasePath(args, fs) == f.dir;
    RunOverOneFile(args, fs, listing, draw, f);
  }

  /** The run over a single candidate `f` based in its own directory. */
  lemma RunOverOneFile(args: ProgramArguments, fs: FileSystem, listing: seq<Path>, draw: Oracle, f: Path)
    requires Candidates(args, fs, listing) == [f] && BasePath(args, fs) == f.dir
    requires f in fs.files && f.name != DatabaseName && f.dir != ""
    ensures var e := Entry(draw(0), f);
            var json := DatabasePath(f.dir);
            (args.force || json !in fs.files) && Target(e) !in fs.files && Target(e) != json ==>
              GuidfyRun(args, fs, listing, draw)
                == Run(Success, FileSystem(fs.dirs, (fs.files[json := JsonObject([e])] - {f})[Target(e) := fs.files[f]]))
  {
    var e := Entry(draw(0), f);
    var json := DatabasePath(f.dir);
    if (args.force || json !in fs.files) && Target(e) !in fs.files && Target(e) != json {
      OneFileMapping(f, draw);
      GuidfyRunOfMapping(args, fs, listing, draw, [e]);
      WriteThenRename(fs, json, e);
    }
  }

  /** Once the mapping is built and the overwrite check passes, a run is the
      database write followed by the renames. */
  lemma GuidfyRunOfMapping(args: ProgramArguments, fs: FileSystem, listing: seq<Path>, draw: Oracle, m: Mapping)
    requires Collect(Candidates(args, fs, listing), draw, BasePath(args, fs), []) == Ok(m)
    requires args.force || DatabasePath(BasePath(args, fs)) !in fs.files
    ensures GuidfyRun(args, fs, listing, draw)
              == MoveAll(WriteFile(fs, DatabasePath(BasePath(args, fs)), JsonObject(m)), RenameMoves(m))
  {
  }

  /** The mapping loop over one file that is not database.json, with that
      file's directory as base. */
  lemma OneFileMapping(f: Path, draw: Oracle)
    requires f.name != DatabaseName
    ensures Planned([f], draw) == [Entry(draw(0), f)]
    ensures Collect([f], draw, f.dir, []) == if f.dir == "" then Err(EmptyBasePath) else Ok([Entry(draw(0), f)])
  {
    var none: Mapping := [];
    assert [f][0] == f && [f][1..] == [];
    assert Eligible([f]) == [f];
    if f.dir != "" {
      assert !HasKey(none, draw(0));
      assert none + [Entry(draw(0), f)] == [Entry(draw(0), f)];
    }
  }

  /** Identifiers that contain no '.', as UUID text does, and are pairwise
      distinct give pairwise distinct new paths: the third condition of
      FreshTargets then holds by itself. */
  lemma DotFreeDrawsGiveDistinctTargets(files: seq<Path>, draw: Oracle)
    requires DistinctDraws(draw, |Eligible(files)|)
    requires forall k :: 0 <= k < |Eligible(files)| ==> '.' !in draw(k)
    ensures forall k, l :: 0 <= k < l < |Planned(files, draw)| ==>
              Target(Planned(files, draw)[k]) != Target(Planned(files, draw)[l])
  {
    var m := Planned(files, draw);
    forall k, l | 0 <= k < l < |m| ensures Target(m[k]) != Target(m[l]) {
      var ek, el := Extension(m[k].original.name), Extension(m[l].original.name);
      assert m[k].id == draw(k) && m[l].id == draw(l);
      DotFreeIdsGiveDistinctNames(m[k].id, ek, m[l].id, el);
    }
  }

  /** Writing database.json and then renaming one other file, whose new name is
      free, leaves exactly those two changes. */
  lemma WriteThenRename(fs: FileSystem, json: Path, e: Entry)
    requires e.original in fs.files && e.original != json
    requires Target(e) !in fs.files && Target(e) != json
    ensures MoveAll(WriteFile(fs, json, JsonObject([e])), RenameMoves([e]))
              == Run(Success, FileSystem(fs.dirs, (fs.files[json := JsonObject([e])] - {e.original})[Target(e) := fs.files[e.original]]))
  {
    assert RenameMoves([e]) == [Move(e.original, Target(e))];
  }

  /** Deleting a file just written leaves the filesystem without that path. */
  lemma WriteThenDelete(fs: FileSystem, p: Path, c: Content)
    ensures DeleteFile(WriteFile(fs, p, c), p) == FileSystem(fs.dirs, fs.files - {p})
  {
  }
}
