/**
 * The input directory as the build scripts see it through `readdir` and
 * `stat`: an ordered listing whose entries are regular files, directories,
 * or something else (a socket, a device, a FIFO).
 */
module FileTree {
  import opened Wrappers
  import opened Paths
  import opened Engines

  /**
   * One listed entry. A file's `content` is what `readFile` returns, or
   * None when reading it throws. Children are in listing order.
   */
  datatype Entry =
    | File(name: string, content: Option<Text>)
    | Dir(name: string, children: seq<Entry>)
    | Other(name: string)

  /** A regular file with this content sits at `rel` below the listing. */
  predicate FileAt(entries: seq<Entry>, rel: Path, content: Option<Text>)
    decreases entries
  {
    exists i :: 0 <= i < |entries| && FileBelow(entries[i], rel, content)
  }

  /** A regular file with this content sits at `rel`, whose first segment names `e` itself. */
  predicate FileBelow(e: Entry, rel: Path, content: Option<Text>)
    decreases e
  {
    rel != [] && e.name == rel[0] &&
    match e
    case File(_, c) => |rel| == 1 && c == content
    case Dir(_, children) => |rel| > 1 && FileAt(children, rel[1..], content)
    case Other(_) => false
  }

  /** No two entries of any listing share a name, as on a real filesystem. */
  predicate DistinctNames(entries: seq<Entry>)
    decreases entries
  {
    (forall i, j :: 0 <= i < j < |entries| ==> entries[i].name != entries[j].name) &&
    forall i :: 0 <= i < |entries| ==> DistinctBelow(entries[i])
  }

  predicate DistinctBelow(e: Entry)
    decreases e
  {
    e.Dir? ==> DistinctNames(e.children)
  }

  /**
   * `fs.readFile` of the path `rel` below the listing: the content of the
   * regular file there, or None when reading throws (nothing there, a
   * directory, a path through a file). Whatever it returns comes from a
   * regular file at that path.
   */
  function Read(entries: seq<Entry>, rel: Path): (r: Option<Text>)
    ensures r.Some? ==> FileAt(entries, rel, r)
    decreases entries
  {
    if entries == [] || rel == [] then None
    else if entries[0].name == rel[0] then
      var r := ReadBelow(entries[0], rel);
      assert r.Some? ==> FileBelow(entries[0], rel, r);
      r
    else
      var r := Read(entries[1..], rel);
      assert forall i :: 0 <= i < |entries| - 1 ==> entries[1..][i] == entries[i + 1];
      r
  }

  function ReadBelow(e: Entry, rel: Path): (r: Option<Text>)
    requires rel != [] && e.name == rel[0]
    ensures r.Some? ==> FileBelow(e, rel, r)
    decreases e
  {
    match e
    case File(_, c) => if |rel| == 1 then c else None
    case Dir(_, children) => if |rel| == 1 then None else Read(children, rel[1..])
    case Other(_) => None
  }

  /** With distinct names, a readable file at a path is exactly what `Read` returns there. */
  lemma {:induction false} FileAtIsRead(entries: seq<Entry>, rel: Path, content: Option<Text>)
    requires DistinctNames(entries) && FileAt(entries, rel, content)
    ensures Read(entries, rel) == content
    decreases entries
  {
    var i :| 0 <= i < |entries| && FileBelow(entries[i], rel, content);
    if i == 0 {
      match entries[0]
      case File(_, _) =>
      case Dir(_, children) =>
        assert DistinctBelow(entries[0]);
        FileAtIsRead(children, rel[1..], content);
    } else {
      assert entries[0].name != entries[i].name;
      var rest := entries[1..];
      assert rest[i - 1] == entries[i];
      assert DistinctNames(rest) by {
        forall k | 0 <= k < |rest| ensures DistinctBelow(rest[k]) {
          assert rest[k] == entries[k + 1];
        }
      }
      FileAtIsRead(rest, rel, content);
    }
  }
}
