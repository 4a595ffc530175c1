/**
 * The output side of the build: the files and directories written through
 * `outputFile` and `ensureDir` (of `nodefs-lite` in lib/index.js and of
 * `fs-extra` in src/besmin.js, taken to behave alike) and the per-file OK
 * and error lines printed to the console.
 */
module Store {
  import opened Paths
  import opened Engines

  /** A per-file console line: "Input OK", "Input error" or "Output Ok". */
  datatype Event = InputOk(path: Path) | InputError(path: Path) | OutputOk(path: Path)

  /** The whole observable state: file contents, existing directories, console lines in order. */
  datatype Snapshot = Snapshot(files: map<Path, Text>, dirs: set<Path>, log: seq<Event>)

  /** The proper non-empty prefixes of `p`: the directories that must exist to hold it. */
  function Parents(p: Path): set<Path> {
    set k | 0 < k < |p| :: p[..k]
  }

  /** `outputFile(p, text)`: write the file, creating its missing parent directories. */
  function Written(s: Snapshot, p: Path, text: Text): Snapshot {
    s.(files := s.files[p := text], dirs := s.dirs + Parents(p))
  }

  /** `ensureDir(p)`: create `p` and its missing parents. */
  function Ensured(s: Snapshot, p: Path): Snapshot {
    s.(dirs := s.dirs + Parents(p) + (if p == [] then {} else {p}))
  }

  function Logged(s: Snapshot, e: Event): Snapshot {
    s.(log := s.log + [e])
  }

  /** The filesystem and console the scripts act on. */
  class Host {
    var files: map<Path, Text>
    var dirs: set<Path>
    var log: seq<Event>

    function State(): Snapshot
      reads this
    {
      Snapshot(files, dirs, log)
    }

    constructor (files0: map<Path, Text>, dirs0: set<Path>)
      ensures State() == Snapshot(files0, dirs0, [])
    {
      files, dirs, log := files0, dirs0, [];
    }

    method OutputFile(p: Path, text: Text)
      modifies this
      ensures State() == Written(old(State()), p, text)
    {
      files := files[p := text];
      dirs := dirs + Parents(p);
    }

    method EnsureDir(p: Path)
      modifies this
      ensures State() == Ensured(old(State()), p)
    {
      dirs := dirs + Parents(p) + (if p == [] then {} else {p});
    }

    method Print(e: Event)
      modifies this
      ensures State() == Logged(old(State()), e)
    {
      log := log + [e];
    }
  }
}
