/** The filesystem as the core sees it through System.IO: which directories
    exist, which files exist and what they hold, and the primitives the core
    calls on it (File.Move, writing a file, File.Delete). */
module Disk {
  import opened Paths
  import opened Database
  import opened Outcomes

  datatype FileSystem = FileSystem(dirs: set<string>, files: map<Path, Content>)

  /** The end of an operation: how it ended and the filesystem it left behind
      (on failure, whatever it had changed before the exception). */
  datatype Run = Run(status: Status, fs: FileSystem)

  /** One File.Move(src, dst). */
  datatype Move = Move(src: Path, dst: Path)

  /** File.Move without overwrite: the source must exist and the destination
      must not; the content travels from the one path to the other. The
      destination always lies in the source's own directory here, so the
      existence of that directory is not checked. */
  function MoveFile(fs: FileSystem, src: Path, dst: Path): (r: Result<FileSystem>)
    ensures r.Ok? <==> src in fs.files && dst !in fs.files
    ensures src !in fs.files ==> r == Err(SourceNotFound(src))
    ensures src in fs.files && dst in fs.files ==> r == Err(DestinationExists(dst))
    ensures r.Ok? ==> r.value.dirs == fs.dirs && r.value.files.Keys == fs.files.Keys - {src} + {dst}
    ensures r.Ok? ==> r.value.files[dst] == fs.files[src]
    ensures r.Ok? ==> forall p :: p in fs.files && p != src ==> r.value.files[p] == fs.files[p]
  {
    if src !in fs.files then Err(SourceNotFound(src))
    else if dst in fs.files then Err(DestinationExists(dst))
    else Ok(FileSystem(fs.dirs, (fs.files - {src})[dst := fs.files[src]]))
  }

  /** A StreamWriter on p: creates the file, or truncates and overwrites it. */
  function WriteFile(fs: FileSystem, p: Path, c: Content): (r: FileSystem)
    ensures r.dirs == fs.dirs && r.files.Keys == fs.files.Keys + {p} && r.files[p] == c
    ensures forall q :: q in fs.files && q != p ==> r.files[q] == fs.files[q]
  {
    FileSystem(fs.dirs, fs.files[p := c])
  }

  /** File.Delete: removes the file; a file that does not exist is no error. */
  function DeleteFile(fs: FileSystem, p: Path): (r: FileSystem)
    ensures r.dirs == fs.dirs && r.files.Keys == fs.files.Keys - {p}
    ensures forall q :: q in r.files ==> r.files[q] == fs.files[q]
  {
    FileSystem(fs.dirs, fs.files - {p})
  }

  /** The moves performed one after the other, stopping at the first that
      throws; the moves before it stay done. */
  function MoveAll(fs: FileSystem, moves: seq<Move>): (r: Run)
    ensures r.fs.dirs == fs.dirs
    ensures r.status.Failure? ==> r.status.error.SourceNotFound? || r.status.error.DestinationExists?
    decreases |moves|
  {
    if moves == [] then Run(Success, fs)
    else match MoveFile(fs, moves[0].src, moves[0].dst)
      case Err(e) => Run(Failure(e), fs)
      case Ok(next) => MoveAll(next, moves[1..])
  }

  /** The loop that performs the moves one after the other; it stops at the
      first move that throws. */
  method MoveInOrder(fs: FileSystem, moves: seq<Move>) returns (status: Status, fs': FileSystem)
    ensures Run(status, fs') == MoveAll(fs, moves)
  {
    var current := fs;
    var j := 0;
    while j < |moves|
      invariant 0 <= j <= |moves|
      invariant MoveAll(current, moves[j..]) == MoveAll(fs, moves)
    {
      var move := moves[j];
      assert moves[j..][0] == move && moves[j..][1..] == moves[j + 1..];
      var moved := MoveFile(current, move.src, move.dst);
      if moved.Err? {
        return Failure(moved.error), current;
      }
      current := moved.value;
      j := j + 1;
    }
    assert moves[j..] == [];
    return Success, current;
  }

  /** Each move undone: the same moves, in the same order, from destination
      back to source. */
  function Swapped(moves: seq<Move>): (r: seq<Move>)
    ensures |r| == |moves|
    ensures forall i :: 0 <= i < |moves| ==> r[i] == Move(moves[i].dst, moves[i].src)
  {
    seq(|moves|, i requires 0 <= i < |moves| => Move(moves[i].dst, moves[i].src))
  }

  function Sources(moves: seq<Move>): set<Path>
  {
    set i | 0 <= i < |moves| :: moves[i].src
  }

  function Destinations(moves: seq<Move>): set<Path>
  {
    set i | 0 <= i < |moves| :: moves[i].dst
  }

  /** Moves that cannot interfere: every source exists, no destination does,
      and no two moves share a source or a destination. */
  ghost predicate Independent(files: map<Path, Content>, moves: seq<Move>)
  {
    && (forall i :: 0 <= i < |moves| ==> moves[i].src in files && moves[i].dst !in files)
    && (forall i, j :: 0 <= i < j < |moves| ==> moves[i].src != moves[j].src && moves[i].dst != moves[j].dst)
  }

  /** `after` is `before` with the content of every source now at its
      destination, every source gone, and every other path untouched. */
  ghost predicate MovedExactly(before: map<Path, Content>, moves: seq<Move>, after: map<Path, Content>)
  {
    && (forall i :: 0 <= i < |moves| ==>
          moves[i].src in before && moves[i].dst in after && after[moves[i].dst] == before[moves[i].src])
    && (forall i :: 0 <= i < |moves| ==> moves[i].src !in after)
    && (forall p :: p !in Sources(moves) && p !in Destinations(moves) ==>
          (p in after <==> p in before) && (p in after ==> after[p] == before[p]))
  }

  /** Independent moves all succeed, and what they do is exactly MovedExactly. */
  lemma {:induction false} IndependentMovesSucceed(fs: FileSystem, moves: seq<Move>)
    requires Independent(fs.files, moves)
    ensures MoveAll(fs, moves).status == Success
    ensures MovedExactly(fs.files, moves, MoveAll(fs, moves).fs.files)
    decreases |moves|
  {
    if moves != [] {
      var m, rest := moves[0], moves[1..];
      var next := MoveFile(fs, m.src, m.dst).value;
      assert forall i :: 0 <= i < |rest| ==> rest[i] == moves[i + 1];
      assert Independent(next.files, rest);
      IndependentMovesSucceed(next, rest);
      var after := MoveAll(fs, moves).fs.files;
      assert after == MoveAll(next, rest).fs.files;
      assert m.src !in Sources(rest) && m.src !in Destinations(rest);
      assert m.dst !in Sources(rest) && m.dst !in Destinations(rest);
      forall i | 0 <= i < |moves|
        ensures moves[i].src in fs.files && moves[i].dst in after && after[moves[i].dst] == fs.files[moves[i].src]
        ensures moves[i].src !in after
      {
        if i > 0 {
          assert moves[i] == rest[i - 1];
        }
      }
      assert Sources(rest) <= Sources(moves) && Destinations(rest) <= Destinations(moves) by {
        forall q | q in Sources(rest) ensures q in Sources(moves) {
          var i :| 0 <= i < |rest| && rest[i].src == q;
          assert moves[i + 1].src == q;
        }
        forall q | q in Destinations(rest) ensures q in Destinations(moves) {
          var i :| 0 <= i < |rest| && rest[i].dst == q;
          assert moves[i + 1].dst == q;
        }
      }
      assert m.src in Sources(moves) && m.dst in Destinations(moves);
    }
  }

  /** Swapping the moves swaps their sources and destinations. */
  lemma SwappedEnds(moves: seq<Move>)
    ensures Sources(Swapped(moves)) == Destinations(moves)
    ensures Destinations(Swapped(moves)) == Sources(moves)
  {
  }

  /** After independent moves, the reversed moves are independent too. */
  lemma SwappedIndependent(before: map<Path, Content>, moves: seq<Move>, after: map<Path, Content>)
    requires Independent(before, moves)
    requires MovedExactly(before, moves, after)
    ensures Independent(after, Swapped(moves))
  {
  }

  /** Moving independent files and then moving them back leaves every path as
      it was. */
  lemma UndoneExactly(before: map<Path, Content>, moves: seq<Move>, mid: map<Path, Content>, end: map<Path, Content>)
    requires Independent(before, moves)
    requires MovedExactly(before, moves, mid)
    requires MovedExactly(mid, Swapped(moves), end)
    ensures end == before
  {
    var back := Swapped(moves);
    SwappedEnds(moves);
    forall p
      ensures (p in end <==> p in before) && (p in end ==> end[p] == before[p])
    {
      if p in Sources(moves) {
        var i :| 0 <= i < |moves| && moves[i].src == p;
        assert back[i].dst == p && back[i].src == moves[i].dst;
      } else if p in Destinations(moves) {
        var i :| 0 <= i < |moves| && moves[i].dst == p;
        assert back[i].src == p;
      }
    }
  }

  /** Undoing independent moves, in the same order, restores the filesystem. */
  lemma MovesUndone(fs: FileSystem, moves: seq<Move>)
    requires Independent(fs.files, moves)
    ensures MoveAll(fs, moves).status == Success
    ensures MoveAll(MoveAll(fs, moves).fs, Swapped(moves)) == Run(Success, fs)
  {
    IndependentMovesSucceed(fs, moves);
    var mid := MoveAll(fs, moves).fs;
    SwappedIndependent(fs.files, moves, mid.files);
    IndependentMovesSucceed(mid, Swapped(moves));
    var end := MoveAll(mid, Swapped(moves)).fs;
    UndoneExactly(fs.files, moves, mid.files, end.files);
  }

  /** A file no move takes as its source stays where it is with its content,
      whether or not the moves all succeed: a move onto it throws instead. */
  lemma {:induction false} MovesKeep(fs: FileSystem, moves: seq<Move>, p: Path)
    requires p in fs.files
    requires forall i :: 0 <= i < |moves| ==> moves[i].src != p
    ensures p in MoveAll(fs, moves).fs.files && MoveAll(fs, moves).fs.files[p] == fs.files[p]
    decreases |moves|
  {
    if moves != [] {
      var r := MoveFile(fs, moves[0].src, moves[0].dst);
      if r.Ok? {
        assert forall i :: 0 <= i < |moves[1..]| ==> moves[1..][i] == moves[i + 1];
        MovesKeep(r.value, moves[1..], p);
      }
    }
  }

  /** A file no move mentions is untouched, whether or not the moves all
      succeed. */
  lemma {:induction false} MovesLeaveAlone(fs: FileSystem, moves: seq<Move>, p: Path)
    requires forall i :: 0 <= i < |moves| ==> moves[i].src != p && moves[i].dst != p
    ensures p in MoveAll(fs, moves).fs.files <==> p in fs.files
    ensures p in fs.files ==> MoveAll(fs, moves).fs.files[p] == fs.files[p]
    decreases |moves|
  {
    if moves != [] {
      var r := MoveFile(fs, moves[0].src, moves[0].dst);
      if r.Ok? {
        assert forall i :: 0 <= i < |moves[1..]| ==> moves[1..][i] == moves[i + 1];
        MovesLeaveAlone(r.value, moves[1..], p);
      }
    }
  }

  /** A run of moves that throws has done exactly the moves before the one
      that threw, and that one is refused on the filesystem they left. */
  lemma {:induction false} FailureAfterPrefix(fs: FileSystem, moves: seq<Move>)
    ensures var r := MoveAll(fs, moves);
            r.status.Failure? ==>
              exists j :: 0 <= j < |moves| && MoveAll(fs, moves[..j]) == Run(Success, r.fs)
                && MoveFile(r.fs, moves[j].src, moves[j].dst) == Err(r.status.error)
    decreases |moves|
  {
    var r := MoveAll(fs, moves);
    if moves != [] && r.status.Failure? {
      var first := MoveFile(fs, moves[0].src, moves[0].dst);
      if first.Err? {
        assert moves[..0] == [];
      } else {
        var rest := moves[1..];
        FailureAfterPrefix(first.value, rest);
        var j :| 0 <= j < |rest| && MoveAll(first.value, rest[..j]) == Run(Success, r.fs)
                 && MoveFile(r.fs, rest[j].src, rest[j].dst) == Err(r.status.error);
        assert moves[..j + 1][0] == moves[0] && moves[..j + 1][1..] == rest[..j];
        assert rest[j] == moves[j + 1];
      }
    }
  }
}
