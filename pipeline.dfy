/**
 * What both build scripts do to a tree: which files a walk visits, where
 * each one goes, and what `processFile` and `syntaxWithBabel` write or
 * print for one file. The walks `validateFiles` and `buildFiles` are
 * methods on the `Host`; each is proved equal to a fold over the visited
 * files, and the lemmas state what those folds do.
 */
module Pipeline {
  import opened Wrappers
  import opened Paths
  import opened Engines
  import opened Formats
  import opened Registry
  import opened FileTree
  import opened Store

  // ---------------------------------------------------------------- eligibility and naming

  /** `.js` and `.ts` files in lib/index.js; `.js` only in src/besmin.js. */
  predicate Eligible(v: Variant, name: string)
    ensures Eligible(v, name) ==> EndsWith(name, ".js") || (v == Current && EndsWith(name, ".ts"))
  {
    ExtnameOfSuffix(name, ".js");
    ExtnameOfSuffix(name, ".ts");
    match v
    case Current => Extname(name) == ".js" || Extname(name) == ".ts"
    case Legacy => Extname(name) == ".js"
  }

  /** Eligibility in terms of the name's ending; a bare ".js" is a dotfile and has no extension. */
  lemma EligibleByEnding(v: Variant, name: string)
    ensures Eligible(v, name) <==>
      |name| > 3 && (EndsWith(name, ".js") || (v == Current && EndsWith(name, ".ts")))
  {
    ExtnameOfSuffix(name, ".js");
    ExtnameOfSuffix(name, ".ts");
  }

  /** The output name of an entry: `.ts` rewritten in lib/index.js, unchanged in src/besmin.js. */
  function OutName(v: Variant, name: string): (r: string)
    ensures |r| == |name|
    ensures Eligible(v, name) ==> EndsWith(r, ".js")
    ensures !EndsWith(name, ".ts") ==> r == name
  {
    match v
    case Current => ReplaceTrailingTs(name)
    case Legacy => name
  }

  /** Every eligible file of lib/index.js is written under a `.js` name. */
  lemma OutNameIsJs(v: Variant, name: string)
    requires Eligible(v, name)
    ensures Extname(OutName(v, name)) == ".js"
  {
    EligibleByEnding(v, name);
    ExtnameOfSuffix(OutName(v, name), ".js");
    if v == Current && EndsWith(name, ".ts") {
      TsBecomesJs(name);
    }
  }

  lemma TsBecomesJs(name: string)
    requires |name| > 3 && EndsWith(name, ".ts")
    ensures |ReplaceTrailingTs(name)| > 3 && EndsWith(ReplaceTrailingTs(name), ".js")
  {
  }

  /** A relative path as the full build maps it: every segment through `OutName`. */
  function OutRel(v: Variant, rel: Path): (r: Path)
    ensures |r| == |rel|
  {
    match v
    case Current => RewriteEvery(rel)
    case Legacy => rel
  }

  lemma OutRelCons(v: Variant, n: string, rel: Path)
    ensures OutRel(v, [n] + rel) == [OutName(v, n)] + OutRel(v, rel)
  {
    if v == Current {
      var a := RewriteEvery([n] + rel);
      var b := [ReplaceTrailingTs(n)] + RewriteEvery(rel);
      forall i | 0 <= i < |a| ensures a[i] == b[i] {
        if i > 0 {
          assert ([n] + rel)[i] == rel[i - 1];
        }
      }
      assert a == b;
    }
  }

  lemma OutRelOne(v: Variant, n: string)
    ensures OutRel(v, [n]) == [OutName(v, n)]
  {
  }

  // ---------------------------------------------------------------- the walk

  /** A visited file: its path relative to the walk's root and what reading it returns. */
  datatype Source = Source(rel: Path, content: Option<Text>)

  /**
   * The files a walk over `entries` hands to the per-file step, in the
   * order it reaches them: directories are entered where they are listed,
   * regular files are kept when eligible, anything else is skipped.
   */
  function Sources(v: Variant, entries: seq<Entry>): (r: seq<Source>)
    ensures forall k :: 0 <= k < |r| ==> r[k].rel != [] && Eligible(v, Last(r[k].rel))
    decreases entries
  {
    if entries == [] then []
    else Sources(v, entries[..|entries| - 1]) + EntrySources(v, entries[|entries| - 1])
  }

  function EntrySources(v: Variant, e: Entry): (r: seq<Source>)
    ensures forall k :: 0 <= k < |r| ==> r[k].rel != [] && r[k].rel[0] == e.name && Eligible(v, Last(r[k].rel))
    decreases e
  {
    match e
    case File(n, c) => if Eligible(v, n) then [Source([n], c)] else []
    case Dir(n, children) => Under(n, Sources(v, children))
    case Other(_) => []
  }

  /** The sources of a subdirectory, seen from its parent. */
  function Under(n: string, ss: seq<Source>): (r: seq<Source>)
    ensures |r| == |ss|
    ensures forall k :: 0 <= k < |r| ==> r[k].rel == [n] + ss[k].rel && r[k].content == ss[k].content
  {
    seq(|ss|, i requires 0 <= i < |ss| => Source([n] + ss[i].rel, ss[i].content))
  }

  lemma SourcesSnoc(v: Variant, entries: seq<Entry>, i: nat)
    requires i < |entries|
    ensures Sources(v, entries[..i + 1]) == Sources(v, entries[..i]) + EntrySources(v, entries[i])
  {
    assert entries[..i + 1][..i] == entries[..i];
  }

  /** Every visited file is an eligible regular file at that path. */
  lemma {:induction false} SourcesSound(v: Variant, entries: seq<Entry>, k: nat)
    requires k < |Sources(v, entries)|
    ensures var s := Sources(v, entries)[k];
      s.rel != [] && Eligible(v, Last(s.rel)) && FileAt(entries, s.rel, s.content)
    decreases entries, 1
  {
    var n := |entries| - 1;
    var front := Sources(v, entries[..n]);
    var s := Sources(v, entries)[k];
    if k < |front| {
      SourcesSound(v, entries[..n], k);
      var i :| 0 <= i < n && FileBelow(entries[..n][i], s.rel, s.content);
      assert FileBelow(entries[i], s.rel, s.content);
    } else {
      EntrySourcesSound(v, entries[n], k - |front|);
      assert FileBelow(entries[n], s.rel, s.content);
    }
  }

  lemma {:induction false} EntrySourcesSound(v: Variant, e: Entry, k: nat)
    requires k < |EntrySources(v, e)|
    ensures var s := EntrySources(v, e)[k];
      s.rel != [] && Eligible(v, Last(s.rel)) && FileBelow(e, s.rel, s.content)
    decreases e, 0
  {
    match e
    case File(n, c) =>
    case Dir(n, children) =>
      SourcesSound(v, children, k);
      var s := Sources(v, children)[k];
      assert EntrySources(v, e)[k].rel[1..] == s.rel;
  }

  /** Every eligible regular file below the listing is visited. */
  lemma {:induction false} SourcesComplete(v: Variant, entries: seq<Entry>, rel: Path, c: Option<Text>)
    requires rel != [] && FileAt(entries, rel, c) && Eligible(v, Last(rel))
    ensures Source(rel, c) in Sources(v, entries)
    decreases entries, 1
  {
    var i :| 0 <= i < |entries| && FileBelow(entries[i], rel, c);
    var n := |entries| - 1;
    if i < n {
      assert FileBelow(entries[..n][i], rel, c);
      SourcesComplete(v, entries[..n], rel, c);
    } else {
      EntrySourcesComplete(v, entries[n], rel, c);
    }
  }

  lemma {:induction false} EntrySourcesComplete(v: Variant, e: Entry, rel: Path, c: Option<Text>)
    requires rel != [] && FileBelow(e, rel, c) && Eligible(v, Last(rel))
    ensures Source(rel, c) in EntrySources(v, e)
    decreases e, 0
  {
    match e
    case File(n, _) =>
      assert rel == [n];
    case Dir(n, children) =>
      assert Last(rel[1..]) == Last(rel);
      SourcesComplete(v, children, rel[1..], c);
      UnderContains(n, Sources(v, children), rel[1..], c);
      assert [n] + rel[1..] == rel;
  }

  lemma UnderContains(n: string, ss: seq<Source>, rel: Path, c: Option<Text>)
    requires Source(rel, c) in ss
    ensures Source([n] + rel, c) in Under(n, ss)
  {
    var k :| 0 <= k < |ss| && ss[k] == Source(rel, c);
    assert Under(n, ss)[k] == Source([n] + rel, c);
  }

  /** src/besmin.js never visits a `.ts` file. */
  lemma LegacySkipsTs(entries: seq<Entry>, k: nat)
    requires k < |Sources(Legacy, entries)|
    ensures var rel := Sources(Legacy, entries)[k].rel; rel != [] && !EndsWith(Last(rel), ".ts")
  {
    SourcesSound(Legacy, entries, k);
    EligibleByEnding(Legacy, Last(Sources(Legacy, entries)[k].rel));
  }

  /** One build job: read `input`, write `output`. */
  datatype Target = Target(input: Path, output: Path, content: Option<Text>)

  /** The jobs of a build from `inRoot` to `outRoot`: each output is `outRoot` joined with the mapped relative path. */
  function Targets(v: Variant, inRoot: Path, outRoot: Path, ss: seq<Source>): (ts: seq<Target>)
    ensures |ts| == |ss|
  {
    seq(|ss|, i requires 0 <= i < |ss| =>
      Target(inRoot + ss[i].rel, outRoot + OutRel(v, ss[i].rel), ss[i].content))
  }

  lemma TargetsAppend(v: Variant, inRoot: Path, outRoot: Path, a: seq<Source>, b: seq<Source>)
    ensures Targets(v, inRoot, outRoot, a + b) == Targets(v, inRoot, outRoot, a) + Targets(v, inRoot, outRoot, b)
  {
  }

  /** Descending into directory `n` extends both roots by one segment. */
  lemma TargetsUnder(v: Variant, inRoot: Path, outRoot: Path, n: string, ss: seq<Source>)
    ensures Targets(v, inRoot + [n], outRoot + [OutName(v, n)], ss) ==
            Targets(v, inRoot, outRoot, Under(n, ss))
  {
    var a := Targets(v, inRoot + [n], outRoot + [OutName(v, n)], ss);
    var b := Targets(v, inRoot, outRoot, Under(n, ss));
    forall i | 0 <= i < |ss| ensures a[i] == b[i] {
      TargetUnder(v, inRoot, outRoot, n, ss[i]);
    }
  }

  lemma TargetUnder(v: Variant, inRoot: Path, outRoot: Path, n: string, s: Source)
    ensures Target(inRoot + [n] + s.rel, outRoot + [OutName(v, n)] + OutRel(v, s.rel), s.content) ==
            Target(inRoot + ([n] + s.rel), outRoot + OutRel(v, [n] + s.rel), s.content)
  {
    OutRelCons(v, n, s.rel);
    assert inRoot + [n] + s.rel == inRoot + ([n] + s.rel);
    assert outRoot + [OutName(v, n)] + OutRel(v, s.rel) == outRoot + ([OutName(v, n)] + OutRel(v, s.rel));
  }

  // ---------------------------------------------------------------- processFile

  /** The minified code and source map of one file. */
  datatype Emitted = Emitted(code: Text, sourceMap: Option<Text>)

  /** A map is written only when the minifier returned one that is not empty (JavaScript truthiness). */
  predicate HasMap(e: Emitted) {
    e.sourceMap.Some? && e.sourceMap.value != ""
  }

  /**
   * Read, transform, minify. None when any of the three throws, including
   * reading the code of a null transform result; the error goes no further.
   */
  function Compile(eng: Engines, opts: TransformOptions, content: Option<Text>): Option<Emitted> {
    match content
    case None => None
    case Some(text) =>
      match eng.transform(text, opts)
      case Transformed(code) =>
        (match eng.minify(code)
         case Minified(out, m) => Some(Emitted(out, m))
         case MinifyThrew => None)
      case _ => None
  }

  /** A file compiles exactly when it is read and neither Babel nor Terser fails; it yields Terser's code and map. */
  lemma CompileOutcome(eng: Engines, opts: TransformOptions, content: Option<Text>)
    ensures var r := Compile(eng, opts, content);
      r.Some? <==>
        content.Some? && eng.transform(content.value, opts).Transformed? &&
        eng.minify(eng.transform(content.value, opts).code).Minified?
    ensures var r := Compile(eng, opts, content);
      r.Some? ==>
        var m := eng.minify(eng.transform(content.value, opts).code);
        r.value.code == m.code && r.value.sourceMap == m.sourceMap
  {
  }

  /** The state after `processFile`: code, then map if any, then the OK line; nothing on failure or with `isInputPath`. */
  function Processed(s: Snapshot, output: Path, emitted: Option<Emitted>, isInputPath: bool): Snapshot {
    if isInputPath || emitted.None? then s
    else
      var e := emitted.value;
      var s1 := Written(s, output, e.code);
      var s2 := if HasMap(e) then Written(s1, MapPath(output), e.sourceMap.value) else s1;
      Logged(s2, OutputOk(output))
  }

  /** The files one `processFile` call leaves behind. */
  function Writes(output: Path, emitted: Option<Emitted>, isInputPath: bool): (w: map<Path, Text>)
    ensures output in w <==> !isInputPath && emitted.Some?
    ensures output in w ==> w[output] == emitted.value.code
    ensures MapPath(output) in w <==> !isInputPath && emitted.Some? && HasMap(emitted.value)
    ensures MapPath(output) in w ==> w[MapPath(output)] == emitted.value.sourceMap.value
    ensures forall p :: p in w ==> p == output || p == MapPath(output)
  {
    if isInputPath || emitted.None? then map[]
    else if HasMap(emitted.value) then
      map[output := emitted.value.code, MapPath(output) := emitted.value.sourceMap.value]
    else map[output := emitted.value.code]
  }

  /** `processFile` changes files exactly by its writes: nothing else is touched. */
  lemma ProcessedFiles(s: Snapshot, output: Path, emitted: Option<Emitted>, isInputPath: bool)
    ensures Processed(s, output, emitted, isInputPath).files == s.files + Writes(output, emitted, isInputPath)
  {
  }

  /** `processFile` prints one OK line, after its writes, exactly when it writes. */
  lemma ProcessedLog(s: Snapshot, output: Path, emitted: Option<Emitted>, isInputPath: bool)
    ensures Processed(s, output, emitted, isInputPath).log ==
      s.log + (if isInputPath || emitted.None? then [] else [OutputOk(output)])
  {
  }

  /** `processFile` creates no directory but the ones holding its output (the map sits beside it). */
  lemma ProcessedDirs(s: Snapshot, output: Path, emitted: Option<Emitted>, isInputPath: bool)
    ensures Processed(s, output, emitted, isInputPath).dirs ==
      s.dirs + (if isInputPath || emitted.None? then {} else Parents(output))
  {
    MapPathParents(output);
    assert Parents(MapPath(output)) == Parents(output);
  }

  /** A failed file leaves no trace: no file, no directory, no console line. */
  lemma FailureLeavesNoTrace(s: Snapshot, eng: Engines, opts: TransformOptions, content: Option<Text>, output: Path)
    requires Compile(eng, opts, content).None?
    ensures Processed(s, output, Compile(eng, opts, content), false) == s
  {
  }

  /** `processFile`: every thrown error is swallowed. */
  method ProcessFile(host: Host, eng: Engines, opts: TransformOptions, content: Option<Text>,
                     output: Path, isInputPath: bool)
    modifies host
    ensures host.State() == Processed(old(host.State()), output, Compile(eng, opts, content), isInputPath)
  {
    if content.None? {
      return;
    }
    var transformed := eng.transform(content.value, opts);
    if !transformed.Transformed? {
      return;
    }
    var minified := eng.minify(transformed.code);
    if minified.MinifyThrew? {
      return;
    }
    if !isInputPath {
      host.OutputFile(output, minified.code);
      if minified.sourceMap.Some? && minified.sourceMap.value != "" {
        host.OutputFile(MapPath(output), minified.sourceMap.value);
      }
      host.Print(OutputOk(output));
    }
  }

  // ---------------------------------------------------------------- syntaxWithBabel

  /**
   * The line `syntaxWithBabel` prints: an error when reading or Babel
   * throws, OK when Babel returns non-empty code, and nothing at all when
   * Babel returns no result or empty code (an empty or ignored file).
   */
  function Report(eng: Engines, opts: TransformOptions, path: Path, content: Option<Text>): (r: Option<Event>)
    ensures r == Some(InputError(path)) <==> content.None? || eng.transform(content.value, opts).Threw?
    ensures r == Some(InputOk(path)) <==>
      content.Some? && eng.transform(content.value, opts).Transformed? && eng.transform(content.value, opts).code != ""
    ensures r.Some? ==> r.value.path == path && !r.value.OutputOk?
  {
    match content
    case None => Some(InputError(path))
    case Some(text) =>
      match eng.transform(text, opts)
      case Transformed(code) => if code != "" then Some(InputOk(path)) else None
      case NoResult => None
      case Threw => Some(InputError(path))
  }

  function Checked(s: Snapshot, eng: Engines, v: Variant, path: Path, content: Option<Text>): Snapshot {
    match Report(eng, CheckOptions(v, path), path, content)
    case None => s
    case Some(e) => Logged(s, e)
  }

  /** `syntaxWithBabel`: a syntax check that only prints. */
  method CheckSyntax(host: Host, eng: Engines, v: Variant, path: Path, content: Option<Text>)
    modifies host
    ensures host.State() == Checked(old(host.State()), eng, v, path, content)
  {
    if content.None? {
      host.Print(InputError(path));
      return;
    }
    var transformed := eng.transform(content.value, CheckOptions(v, path));
    match transformed
    case Transformed(code) =>
      if code != "" {
        host.Print(InputOk(path));
      }
    case NoResult =>
    case Threw =>
      host.Print(InputError(path));
  }

  // ---------------------------------------------------------------- validateFiles

  /** Checking the visited files under `dir` one after the other. */
  function CheckAll(s: Snapshot, eng: Engines, v: Variant, dir: Path, ss: seq<Source>): Snapshot
    decreases |ss|
  {
    if ss == [] then s
    else CheckAll(Checked(s, eng, v, dir + ss[0].rel, ss[0].content), eng, v, dir, ss[1..])
  }

  /** The console lines of a validation pass, one per reported file, in walk order. */
  function Reports(eng: Engines, v: Variant, dir: Path, ss: seq<Source>): seq<Event>
    decreases |ss|
  {
    if ss == [] then []
    else
      var p := dir + ss[0].rel;
      (match Report(eng, CheckOptions(v, p), p, ss[0].content)
       case None => []
       case Some(e) => [e]) + Reports(eng, v, dir, ss[1..])
  }

  lemma {:induction false} CheckAllAppend(s: Snapshot, eng: Engines, v: Variant, dir: Path, a: seq<Source>, b: seq<Source>)
    ensures CheckAll(s, eng, v, dir, a + b) == CheckAll(CheckAll(s, eng, v, dir, a), eng, v, dir, b)
    decreases |a|
  {
    if a == [] {
      assert a + b == b;
    } else {
      assert (a + b)[1..] == a[1..] + b;
      CheckAllAppend(Checked(s, eng, v, dir + a[0].rel, a[0].content), eng, v, dir, a[1..], b);
    }
  }

  lemma {:induction false} CheckUnder(s: Snapshot, eng: Engines, v: Variant, dir: Path, n: string, ss: seq<Source>)
    ensures CheckAll(s, eng, v, dir + [n], ss) == CheckAll(s, eng, v, dir, Under(n, ss))
    decreases |ss|
  {
    if ss != [] {
      assert dir + [n] + ss[0].rel == dir + Under(n, ss)[0].rel;
      assert Under(n, ss)[1..] == Under(n, ss[1..]);
      CheckUnder(Checked(s, eng, v, dir + [n] + ss[0].rel, ss[0].content), eng, v, dir, n, ss[1..]);
    }
  }

  /** Validation writes nothing and only appends its report lines, in walk order. */
  lemma {:induction false} ValidationOnlyReports(s: Snapshot, eng: Engines, v: Variant, dir: Path, ss: seq<Source>)
    ensures CheckAll(s, eng, v, dir, ss) == s.(log := s.log + Reports(eng, v, dir, ss))
    decreases |ss|
  {
    if ss != [] {
      var s1 := Checked(s, eng, v, dir + ss[0].rel, ss[0].content);
      ValidationOnlyReports(s1, eng, v, dir, ss[1..]);
    }
  }

  /** A file Babel either transforms to non-empty code or rejects; only a null result prints nothing. */
  predicate Decisive(eng: Engines, v: Variant, dir: Path, s: Source) {
    var p := dir + s.rel;
    Report(eng, CheckOptions(v, p), p, s.content).Some?
  }

  /**
   * One malformed file does not stop validation: when every file gets a
   * verdict, the k-th line reports the k-th visited file, and it is an
   * error exactly when that file cannot be read or does not parse.
   */
  lemma {:induction false} EveryFileReported(eng: Engines, v: Variant, dir: Path, ss: seq<Source>, k: nat)
    requires forall i :: 0 <= i < |ss| ==> Decisive(eng, v, dir, ss[i])
    requires k < |ss|
    ensures |Reports(eng, v, dir, ss)| == |ss|
    ensures Reports(eng, v, dir, ss)[k].path == dir + ss[k].rel
    ensures Reports(eng, v, dir, ss)[k].InputError? <==>
      ss[k].content.None? ||
      eng.transform(ss[k].content.value, CheckOptions(v, dir + ss[k].rel)).Threw?
    decreases |ss|
  {
    assert Decisive(eng, v, dir, ss[0]);
    if |ss| > 1 {
      assert forall i :: 0 <= i < |ss[1..]| ==> Decisive(eng, v, dir, ss[1..][i]) by {
        forall i | 0 <= i < |ss[1..]| ensures Decisive(eng, v, dir, ss[1..][i]) {
          assert ss[1..][i] == ss[i + 1];
        }
      }
      EveryFileReported(eng, v, dir, ss[1..], if k == 0 then 0 else k - 1);
    }
  }

  /** A file that cannot be read or that Babel rejects is reported as an input error, whatever else the tree holds. */
  lemma {:induction false} MalformedReported(eng: Engines, v: Variant, dir: Path, ss: seq<Source>, k: nat)
    requires k < |ss|
    requires ss[k].content.None? || eng.transform(ss[k].content.value, CheckOptions(v, dir + ss[k].rel)).Threw?
    ensures InputError(dir + ss[k].rel) in Reports(eng, v, dir, ss)
    decreases |ss|
  {
    if k > 0 {
      assert ss[1..][k - 1] == ss[k];
      MalformedReported(eng, v, dir, ss[1..], k - 1);
    }
  }

  /** A file Babel turns into non-empty code is reported OK. */
  lemma {:induction false} WellFormedReported(eng: Engines, v: Variant, dir: Path, ss: seq<Source>, k: nat)
    requires k < |ss| && ss[k].content.Some?
    requires var t := eng.transform(ss[k].content.value, CheckOptions(v, dir + ss[k].rel)); t.Transformed? && t.code != ""
    ensures InputOk(dir + ss[k].rel) in Reports(eng, v, dir, ss)
    decreases |ss|
  {
    if k > 0 {
      assert ss[1..][k - 1] == ss[k];
      WellFormedReported(eng, v, dir, ss[1..], k - 1);
    }
  }

  /** Every error line names a visited file that cannot be read or that Babel rejects. */
  lemma {:induction false} ErrorsAreMalformed(eng: Engines, v: Variant, dir: Path, ss: seq<Source>, p: Path)
    requires InputError(p) in Reports(eng, v, dir, ss)
    ensures exists k :: 0 <= k < |ss| && p == dir + ss[k].rel &&
                        (ss[k].content.None? || eng.transform(ss[k].content.value, CheckOptions(v, p)).Threw?)
    decreases |ss|
  {
    var q := dir + ss[0].rel;
    if Report(eng, CheckOptions(v, q), q, ss[0].content) != Some(InputError(p)) {
      ErrorsAreMalformed(eng, v, dir, ss[1..], p);
      var k :| 0 <= k < |ss[1..]| && p == dir + ss[1..][k].rel &&
        (ss[1..][k].content.None? || eng.transform(ss[1..][k].content.value, CheckOptions(v, p)).Threw?);
      assert ss[1..][k] == ss[k + 1];
    }
  }

  /** `validateFiles(dir)`: recurse into directories, check every eligible file. */
  method ValidateFiles(host: Host, eng: Engines, v: Variant, entries: seq<Entry>, dir: Path)
    modifies host
    decreases entries
    ensures host.State() == CheckAll(old(host.State()), eng, v, dir, Sources(v, entries))
  {
    for i := 0 to |entries|
      invariant host.State() == CheckAll(old(host.State()), eng, v, dir, Sources(v, entries[..i]))
    {
      ValidateEntry(host, eng, v, entries[i], dir);
      SourcesSnoc(v, entries, i);
      CheckAllAppend(old(host.State()), eng, v, dir, Sources(v, entries[..i]), EntrySources(v, entries[i]));
    }
    assert entries[..|entries|] == entries;
  }

  /** One entry of the `validateFiles` loop: recurse into a directory, check an eligible file. */
  method ValidateEntry(host: Host, eng: Engines, v: Variant, entry: Entry, dir: Path)
    modifies host
    decreases entry
    ensures host.State() == CheckAll(old(host.State()), eng, v, dir, EntrySources(v, entry))
  {
    var inputPath := dir + [entry.name];
    match entry {
      case Dir(n, children) =>
        ValidateFiles(host, eng, v, children, inputPath);
        CheckUnder(old(host.State()), eng, v, dir, n, Sources(v, children));
      case File(n, c) =>
        if Eligible(v, n) {
          CheckSyntax(host, eng, v, inputPath, c);
        }
      case Other(_) =>
    }
  }

  // ---------------------------------------------------------------- buildFiles

  /** One target of a `fmt` build: the compiled result and what writing it does. */
  function Job(eng: Engines, v: Variant, fmt: Format, t: Target): Option<Emitted> {
    Compile(eng, BuildOptions(v, t.input, fmt), t.content)
  }

  /** Processing the targets one after the other. */
  function BuildAll(s: Snapshot, eng: Engines, v: Variant, fmt: Format, ts: seq<Target>): Snapshot
    decreases |ts|
  {
    if ts == [] then s
    else BuildAll(Processed(s, ts[0].output, Job(eng, v, fmt, ts[0]), false), eng, v, fmt, ts[1..])
  }

  /** The files a build leaves behind: each target's writes, a later target winning on a shared path. */
  function BuildWrites(eng: Engines, v: Variant, fmt: Format, ts: seq<Target>): map<Path, Text>
    decreases |ts|
  {
    if ts == [] then map[]
    else Writes(ts[0].output, Job(eng, v, fmt, ts[0]), false) + BuildWrites(eng, v, fmt, ts[1..])
  }

  lemma {:induction false} BuildAllAppend(s: Snapshot, eng: Engines, v: Variant, fmt: Format, a: seq<Target>, b: seq<Target>)
    ensures BuildAll(s, eng, v, fmt, a + b) == BuildAll(BuildAll(s, eng, v, fmt, a), eng, v, fmt, b)
    decreases |a|
  {
    if a == [] {
      assert a + b == b;
    } else {
      assert (a + b)[1..] == a[1..] + b;
      BuildAllAppend(Processed(s, a[0].output, Job(eng, v, fmt, a[0]), false), eng, v, fmt, a[1..], b);
    }
  }

  lemma MergeAssociative(a: map<Path, Text>, b: map<Path, Text>, c: map<Path, Text>)
    ensures a + b + c == a + (b + c)
  {
  }

  /** A build changes files exactly by its writes, whatever was there before. */
  lemma {:induction false} BuildAllFiles(s: Snapshot, eng: Engines, v: Variant, fmt: Format, ts: seq<Target>)
    ensures BuildAll(s, eng, v, fmt, ts).files == s.files + BuildWrites(eng, v, fmt, ts)
    decreases |ts|
  {
    if ts != [] {
      var w := Writes(ts[0].output, Job(eng, v, fmt, ts[0]), false);
      var s1 := Processed(s, ts[0].output, Job(eng, v, fmt, ts[0]), false);
      ProcessedFiles(s, ts[0].output, Job(eng, v, fmt, ts[0]), false);
      BuildAllFiles(s1, eng, v, fmt, ts[1..]);
      MergeAssociative(s.files, w, BuildWrites(eng, v, fmt, ts[1..]));
    }
  }

  /** Building twice over an unchanged tree leaves the same output files as building once. */
  lemma BuildIdempotent(s: Snapshot, eng: Engines, v: Variant, fmt: Format, ts: seq<Target>)
    ensures BuildAll(BuildAll(s, eng, v, fmt, ts), eng, v, fmt, ts).files == BuildAll(s, eng, v, fmt, ts).files
  {
    var w := BuildWrites(eng, v, fmt, ts);
    BuildAllFiles(s, eng, v, fmt, ts);
    BuildAllFiles(BuildAll(s, eng, v, fmt, ts), eng, v, fmt, ts);
    MergeAssociative(s.files, w, w);
    assert w + w == w;
  }

  /** A build writes a path only as some target's output or its map. */
  lemma {:induction false} BuildWritesOnlyTargets(eng: Engines, v: Variant, fmt: Format, ts: seq<Target>, p: Path)
    requires p in BuildWrites(eng, v, fmt, ts)
    ensures exists i :: 0 <= i < |ts| && (p == ts[i].output || p == MapPath(ts[i].output))
    decreases |ts|
  {
    if p !in Writes(ts[0].output, Job(eng, v, fmt, ts[0]), false) {
      BuildWritesOnlyTargets(eng, v, fmt, ts[1..], p);
      var i :| 0 <= i < |ts[1..]| && (p == ts[1..][i].output || p == MapPath(ts[1..][i].output));
      assert ts[1..][i] == ts[i + 1];
    }
  }

  /** Every target that compiles has its output written (by it, or by a later target with the same output). */
  lemma {:induction false} BuildWritesEveryCompiled(eng: Engines, v: Variant, fmt: Format, ts: seq<Target>, k: nat)
    requires k < |ts| && Job(eng, v, fmt, ts[k]).Some?
    ensures ts[k].output in BuildWrites(eng, v, fmt, ts)
    ensures HasMap(Job(eng, v, fmt, ts[k]).value) ==> MapPath(ts[k].output) in BuildWrites(eng, v, fmt, ts)
    decreases |ts|
  {
    if k > 0 {
      assert ts[1..][k - 1] == ts[k];
      BuildWritesEveryCompiled(eng, v, fmt, ts[1..], k - 1);
    }
  }

  /** A path that no target writes, as output or as map, is not in the build's writes. */
  lemma NotWrittenBy(eng: Engines, v: Variant, fmt: Format, ts: seq<Target>, p: Path)
    requires forall j :: 0 <= j < |ts| ==> ts[j].output != p && MapPath(ts[j].output) != p
    ensures p !in BuildWrites(eng, v, fmt, ts)
  {
    if p in BuildWrites(eng, v, fmt, ts) {
      BuildWritesOnlyTargets(eng, v, fmt, ts, p);
    }
  }

  /**
   * A target that compiles and whose output no later target writes (as its
   * output or its map) leaves its own minified code there.
   */
  lemma {:induction false} BuildWritesCode(eng: Engines, v: Variant, fmt: Format, ts: seq<Target>, k: nat)
    requires k < |ts| && Job(eng, v, fmt, ts[k]).Some?
    requires forall j :: k < j < |ts| ==> ts[j].output != ts[k].output && MapPath(ts[j].output) != ts[k].output
    ensures ts[k].output in BuildWrites(eng, v, fmt, ts)
    ensures BuildWrites(eng, v, fmt, ts)[ts[k].output] == Job(eng, v, fmt, ts[k]).value.code
    decreases |ts|
  {
    var p := ts[k].output;
    if k == 0 {
      forall j | 0 <= j < |ts[1..]| ensures ts[1..][j].output != p && MapPath(ts[1..][j].output) != p {
        assert ts[1..][j] == ts[j + 1];
      }
      NotWrittenBy(eng, v, fmt, ts[1..], p);
    } else {
      assert ts[1..][k - 1] == ts[k];
      forall j | k - 1 < j < |ts[1..]| ensures ts[1..][j].output != p && MapPath(ts[1..][j].output) != p {
        assert ts[1..][j] == ts[j + 1];
      }
      BuildWritesCode(eng, v, fmt, ts[1..], k - 1);
    }
  }

  /** The same at the level of the host: after the build, that output holds the target's code. */
  lemma BuildLeavesCode(s: Snapshot, eng: Engines, v: Variant, fmt: Format, ts: seq<Target>, k: nat)
    requires k < |ts| && Job(eng, v, fmt, ts[k]).Some?
    requires forall j :: k < j < |ts| ==> ts[j].output != ts[k].output && MapPath(ts[j].output) != ts[k].output
    ensures ts[k].output in BuildAll(s, eng, v, fmt, ts).files
    ensures BuildAll(s, eng, v, fmt, ts).files[ts[k].output] == Job(eng, v, fmt, ts[k]).value.code
  {
    BuildWritesCode(eng, v, fmt, ts, k);
    BuildAllFiles(s, eng, v, fmt, ts);
  }

  /** A file that fails to compile can be dropped from the walk without changing anything. */
  lemma FailingFileIsSkipped(s: Snapshot, eng: Engines, v: Variant, fmt: Format, ts: seq<Target>, k: nat)
    requires k < |ts| && Job(eng, v, fmt, ts[k]).None?
    ensures BuildAll(s, eng, v, fmt, ts) == BuildAll(s, eng, v, fmt, ts[..k] + ts[k + 1..])
  {
    assert ts == ts[..k] + ([ts[k]] + ts[k + 1..]);
    BuildAllAppend(s, eng, v, fmt, ts[..k], [ts[k]] + ts[k + 1..]);
    var mid := BuildAll(s, eng, v, fmt, ts[..k]);
    assert ([ts[k]] + ts[k + 1..])[1..] == ts[k + 1..];
    assert BuildAll(mid, eng, v, fmt, [ts[k]] + ts[k + 1..]) == BuildAll(mid, eng, v, fmt, ts[k + 1..]);
    BuildAllAppend(s, eng, v, fmt, ts[..k], ts[k + 1..]);
  }

  /** `buildFiles(inputDir, outputDir, fmt)`: recurse into directories, process every eligible file. */
  method BuildFiles(host: Host, eng: Engines, v: Variant, entries: seq<Entry>, inDir: Path, outDir: Path, fmt: Format)
    modifies host
    decreases entries
    ensures host.State() == BuildAll(old(host.State()), eng, v, fmt, Targets(v, inDir, outDir, Sources(v, entries)))
  {
    for i := 0 to |entries|
      invariant host.State() == BuildAll(old(host.State()), eng, v, fmt, Targets(v, inDir, outDir, Sources(v, entries[..i])))
    {
      BuildEntry(host, eng, v, entries[i], inDir, outDir, fmt);
      SourcesSnoc(v, entries, i);
      TargetsAppend(v, inDir, outDir, Sources(v, entries[..i]), EntrySources(v, entries[i]));
      BuildAllAppend(old(host.State()), eng, v, fmt,
        Targets(v, inDir, outDir, Sources(v, entries[..i])), Targets(v, inDir, outDir, EntrySources(v, entries[i])));
    }
    assert entries[..|entries|] == entries;
  }

  /** An eligible file alone is one `processFile` call at its mapped output path. */
  lemma BuildOneFile(s: Snapshot, eng: Engines, v: Variant, fmt: Format, inDir: Path, outDir: Path, n: string, c: Option<Text>)
    requires Eligible(v, n)
    ensures BuildAll(s, eng, v, fmt, Targets(v, inDir, outDir, EntrySources(v, File(n, c)))) ==
            Processed(s, outDir + [OutName(v, n)], Compile(eng, BuildOptions(v, inDir + [n], fmt), c), false)
  {
    OutRelOne(v, n);
    assert Targets(v, inDir, outDir, EntrySources(v, File(n, c))) == [Target(inDir + [n], outDir + [OutName(v, n)], c)];
  }

  /** One entry of the `buildFiles` loop: recurse into a directory, process an eligible file. */
  method BuildEntry(host: Host, eng: Engines, v: Variant, entry: Entry, inDir: Path, outDir: Path, fmt: Format)
    modifies host
    decreases entry
    ensures host.State() == BuildAll(old(host.State()), eng, v, fmt, Targets(v, inDir, outDir, EntrySources(v, entry)))
  {
    var inputPath := inDir + [entry.name];
    var outputPath := outDir + [OutName(v, entry.name)];
    match entry {
      case Dir(n, children) =>
        BuildFiles(host, eng, v, children, inputPath, outputPath, fmt);
        TargetsUnder(v, inDir, outDir, n, Sources(v, children));
      case File(n, c) =>
        if Eligible(v, n) {
          ProcessFile(host, eng, BuildOptions(v, inputPath, fmt), c, outputPath, false);
          BuildOneFile(old(host.State()), eng, v, fmt, inDir, outDir, n, c);
        }
      case Other(_) =>
    }
  }

  /**
   * The whole tree: every eligible file that compiles is written at the
   * output root joined with its mapped relative path, and nothing is
   * written anywhere but at such paths and their `.map` siblings.
   */
  lemma BuildCoversTree(s: Snapshot, eng: Engines, v: Variant, fmt: Format, tree: seq<Entry>,
                        inRoot: Path, outRoot: Path, rel: Path, c: Option<Text>)
    requires rel != [] && FileAt(tree, rel, c) && Eligible(v, Last(rel))
    requires Compile(eng, BuildOptions(v, inRoot + rel, fmt), c).Some?
    ensures outRoot + OutRel(v, rel) in BuildAll(s, eng, v, fmt, Targets(v, inRoot, outRoot, Sources(v, tree))).files
  {
    var ss := Sources(v, tree);
    var ts := Targets(v, inRoot, outRoot, ss);
    SourcesComplete(v, tree, rel, c);
    var k :| 0 <= k < |ss| && ss[k] == Source(rel, c);
    BuildWritesEveryCompiled(eng, v, fmt, ts, k);
    BuildAllFiles(s, eng, v, fmt, ts);
  }

  lemma BuildStaysInTree(s: Snapshot, eng: Engines, v: Variant, fmt: Format, tree: seq<Entry>,
                         inRoot: Path, outRoot: Path, p: Path)
    requires p in BuildAll(s, eng, v, fmt, Targets(v, inRoot, outRoot, Sources(v, tree))).files
    requires p !in s.files
    ensures exists rel, c :: rel != [] && FileAt(tree, rel, c) && Eligible(v, Last(rel)) &&
              (p == outRoot + OutRel(v, rel) || p == MapPath(outRoot + OutRel(v, rel)))
  {
    var ss := Sources(v, tree);
    var ts := Targets(v, inRoot, outRoot, ss);
    BuildAllFiles(s, eng, v, fmt, ts);
    BuildWritesOnlyTargets(eng, v, fmt, ts, p);
    var i :| 0 <= i < |ts| && (p == ts[i].output || p == MapPath(ts[i].output));
    SourcesSound(v, tree, i);
  }
}
