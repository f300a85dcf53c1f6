/** The parts of System.IO.Path the tool relies on: splitting a path into its
    directory and file name, and taking the extension of a file name.
    Paths use the Unix separator. */
module Paths {

  const Separator: char := '/'

  /** A file path, split as Path.GetDirectoryName and Path.GetFileName split it;
      Path.Combine(dir, name) of the pair is the path itself. */
  datatype Path = Path(dir: string, name: string)

  /** Index of the last separator in s[..i], or -1 when there is none. */
  function LastSeparator(s: string, i: nat): (k: int)
    requires i <= |s|
    ensures -1 <= k < i
    ensures k >= 0 ==> s[k] == Separator
    ensures forall j :: k < j < i ==> s[j] != Separator
  {
    if i == 0 then -1
    else if s[i - 1] == Separator then i - 1
    else LastSeparator(s, i - 1)
  }

  /** A directory string without the separators that may trail it, except
      that the root stays "/": "photos/" and "photos" name the same directory. */
  function TrimTrailingSeparators(s: string): (r: string)
    ensures |r| <= |s| && r == s[..|r|]
    ensures |s| > 0 ==> |r| > 0
    ensures |r| > 1 ==> r[|r| - 1] != Separator
    decreases |s|
  {
    if |s| > 1 && s[|s| - 1] == Separator then TrimTrailingSeparators(s[..|s| - 1]) else s
  }

  /** Trimming removes separators and nothing else. */
  lemma {:induction false} TrimRemovesOnlySeparators(s: string)
    ensures forall j :: |TrimTrailingSeparators(s)| <= j < |s| ==> s[j] == Separator
    decreases |s|
  {
    if |s| > 1 && s[|s| - 1] == Separator {
      TrimRemovesOnlySeparators(s[..|s| - 1]);
    }
  }

  /** Splits a path string at its last separator, as Path.GetDirectoryName and
      Path.GetFileName do: the file name is what follows it, the directory what
      precedes it without trailing separators ("/" when that is the root), and
      the directory is "" exactly when the string has no separator at all. */
  function Parse(s: string): (p: Path)
    ensures Separator !in p.name
    ensures |p.name| <= |s| && p.name == s[|s| - |p.name|..]
    ensures p.dir == "" <==> Separator !in s
    ensures |p.name| < |s| ==> s[|s| - |p.name| - 1] == Separator
    ensures |p.name| + 1 < |s| ==> p.dir == TrimTrailingSeparators(s[..|s| - |p.name| - 1])
    ensures |p.name| + 1 == |s| ==> p.dir == [Separator]
  {
    var k := LastSeparator(s, |s|);
    if k < 0 then Path("", s)
    else Path(if k == 0 then [Separator] else TrimTrailingSeparators(s[..k]), s[k + 1..])
  }

  /** Path.GetExtension, scanning s[..i] backwards: the text from the last '.'
      to the end of s, or "" when a separator comes first, when there is no '.',
      or when the '.' is the last character. */
  function ExtensionBefore(s: string, i: nat): (e: string)
    requires i <= |s|
    requires forall j :: i <= j < |s| ==> s[j] != '.' && s[j] != Separator
    ensures |e| <= |s| && e == s[|s| - |e|..]
    ensures e != [] ==> |e| >= 2 && e[0] == '.' && forall j :: 1 <= j < |e| ==> e[j] != '.' && e[j] != Separator
    ensures (forall j :: 0 <= j < i ==> s[j] != Separator) ==>
              (e == [] <==> (forall j :: 0 <= j < |s| ==> s[j] != '.') || s[|s| - 1] == '.')
  {
    if i == 0 then ""
    else if s[i - 1] == '.' then (if i == |s| then "" else s[i - 1..])
    else if s[i - 1] == Separator then ""
    else ExtensionBefore(s, i - 1)
  }

  /** Path.GetExtension of a file name. */
  function Extension(name: string): (e: string)
    ensures |e| <= |name| && e == name[|name| - |e|..]
    ensures e != [] ==> |e| >= 2 && e[0] == '.' && '.' !in e[1..] && Separator !in e
    ensures Separator !in name ==> (e == [] <==> '.' !in name || name[|name| - 1] == '.')
  {
    var e := ExtensionBefore(name, |name|);
    assert e != [] ==> forall j :: 0 <= j < |e[1..]| ==> e[1..][j] == e[j + 1];
    e
  }

  /** The renamed file name `<id><ext>` determines the identifier when
      identifiers contain no '.', as the canonical text of a UUID does: two
      different such identifiers never give the same name, whatever the two
      extensions are. RoundTrip.DotFreeDrawsGiveDistinctTargets builds on it. */
  lemma DotFreeIdsGiveDistinctNames(id1: string, ext1: string, id2: string, ext2: string)
    requires '.' !in id1 && '.' !in id2
    requires ext1 == [] || ext1[0] == '.'
    requires ext2 == [] || ext2[0] == '.'
    requires id1 != id2
    ensures id1 + ext1 != id2 + ext2
  {
    var n1, n2 := id1 + ext1, id2 + ext2;
    if |id1| == |id2| {
      assert n1[..|id1|] == id1 && n2[..|id2|] == id2;
    } else if |id1| < |id2| {
      assert |n1| > |id1| ==> n1[|id1|] == '.';
      assert n2[|id1|] == id2[|id1|] != '.';
    } else {
      assert |n2| > |id2| ==> n2[|id2|] == '.';
      assert n1[|id2|] == id1[|id2|] != '.';
    }
  }
}
