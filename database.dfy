/** The identifier-to-original-path mapping and the contents of files,
    including database.json, which holds the mapping. */
module Database {
  import opened Paths

  /** One key/value pair of the database: a drawn identifier and the original
      path of the file renamed to it. */
  datatype Entry = Entry(id: string, original: Path)

  /** A Dictionary<string, string> as it enumerates: its pairs in insertion order. */
  type Mapping = seq<Entry>

  predicate HasKey(m: Mapping, id: string)
  {
    exists j :: 0 <= j < |m| && m[j].id == id
  }

  ghost predicate DistinctKeys(m: Mapping)
  {
    forall i, j :: 0 <= i < j < |m| ==> m[i].id != m[j].id
  }

  /** Where the file of an entry lives while renamed:
      Path.Combine(GetDirectoryName(v), k + GetExtension(v)). */
  function Target(e: Entry): (p: Path)
    ensures p.dir == e.original.dir
    ensures |e.id| <= |p.name| && p.name[..|e.id|] == e.id
    ensures p.name[|e.id|..] == Extension(e.original.name)
  {
    Path(e.original.dir, e.id + Extension(e.original.name))
  }

  /** What a file holds, as far as the deserialiser is concerned. The database
      written by the tool is the mapping itself (JsonObject); the JSON literal
      null deserialises to a null dictionary; any other content (Blob) is
      refused by the deserialiser. */
  datatype Content =
    | Blob(bytes: seq<bv8>)
    | JsonNull
    | JsonObject(entries: Mapping)
}
