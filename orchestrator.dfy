/**
 * What `main` of both scripts sequences: the run plan (validate,
 * ensure the format's directory, build, for each selected format), the
 * way a plan ends (usage error, clean exit, natural end, or watching), and
 * the per-format re-processing both change handlers do for one file.
 */
module Orchestrator {
  import opened Wrappers
  import opened Paths
  import opened Engines
  import opened Formats
  import opened Registry
  import opened FileTree
  import opened Store
  import opened Pipeline

  /** One filesystem-level step of a run. */
  datatype Step =
    | Validate(dir: Path)
    | EnsureDir(dir: Path)
    | Build(input: Path, output: Path, format: Format)

  /** What the change handler registered by `main` closes over. */
  datatype Watch = Watch(input: Path, output: Path, formats: seq<Format>, fixMode: bool)

  /** How a run ends, `process.exit` and the watcher being outcomes rather than effects. */
  datatype Ending = UsageError | ExitOk | Finished | Watching(watch: Watch)

  datatype Plan = Plan(steps: seq<Step>, ending: Ending)

  /** The exit status of an ending; None while the watcher keeps the process alive. */
  function ExitStatus(e: Ending): (code: Option<int>)
    ensures code == Some(1) <==> e == UsageError
    ensures code.None? <==> e.Watching?
  {
    match e
    case UsageError => Some(1)
    case ExitOk => Some(0)
    case Finished => Some(0)
    case Watching(_) => None
  }

  /** The i-th argument; a missing one reads as "", which is just as falsy in JavaScript. */
  function Arg(args: seq<string>, i: nat): string {
    if i < |args| then args[i] else ""
  }

  /** The loop body of `main` for one format. */
  function FormatGroup(inRoot: Path, outRoot: Path, f: Format): seq<Step> {
    [Validate(inRoot), EnsureDir(outRoot + [Key(f)]), Build(inRoot, outRoot + [Key(f)], f)]
  }

  /** The per-format loop of `main`, unrolled into steps. */
  function FormatSteps(inRoot: Path, outRoot: Path, fmts: seq<Format>): seq<Step>
    decreases |fmts|
  {
    if fmts == [] then []
    else FormatSteps(inRoot, outRoot, fmts[..|fmts| - 1]) + FormatGroup(inRoot, outRoot, fmts[|fmts| - 1])
  }

  /** Format `i` in order contributes steps 3i, 3i+1, 3i+2: validate, ensure its directory, build into it. */
  lemma {:induction false} FormatStepsAt(inRoot: Path, outRoot: Path, fmts: seq<Format>, i: nat)
    requires i < |fmts|
    ensures |FormatSteps(inRoot, outRoot, fmts)| == 3 * |fmts|
    ensures FormatSteps(inRoot, outRoot, fmts)[3 * i..3 * i + 3] == FormatGroup(inRoot, outRoot, fmts[i])
    decreases |fmts|
  {
    var n := |fmts| - 1;
    var front := fmts[..n];
    if n > 0 {
      FormatStepsAt(inRoot, outRoot, front, if i < n then i else 0);
    }
    if i < n {
      assert front[i] == fmts[i];
    }
  }

  /** Every build step of a plan writes below `outRoot` joined with that step's own format key. */
  lemma {:induction false} FormatStepsTargets(inRoot: Path, outRoot: Path, fmts: seq<Format>, k: nat)
    requires k < |FormatSteps(inRoot, outRoot, fmts)|
    ensures var st := FormatSteps(inRoot, outRoot, fmts)[k];
      (st.Build? ==> st.input == inRoot && st.output == outRoot + [Key(st.format)] && st.format in fmts) &&
      (st.EnsureDir? ==> exists f :: f in fmts && st.dir == outRoot + [Key(f)]) &&
      (st.Validate? ==> st.dir == inRoot)
    decreases |fmts|
  {
    var n := |fmts| - 1;
    var front := FormatSteps(inRoot, outRoot, fmts[..n]);
    if k < |front| {
      FormatStepsTargets(inRoot, outRoot, fmts[..n], k);
      assert forall f :: f in fmts[..n] ==> f in fmts;
    } else {
      assert fmts[n] in fmts;
    }
  }

  /** The effect of one step on the output side, given the input listing. */
  function Perform(s: Snapshot, eng: Engines, v: Variant, tree: seq<Entry>, step: Step): (r: Snapshot)
    ensures step.Validate? ==>
      r.files == s.files && r.dirs == s.dirs && r.log == s.log + Reports(eng, v, step.dir, Sources(v, tree))
    ensures step.EnsureDir? ==>
      r.files == s.files && r.log == s.log && s.dirs <= r.dirs && (step.dir != [] ==> step.dir in r.dirs)
    ensures step.Build? ==>
      r.files == s.files + BuildWrites(eng, v, step.format, Targets(v, step.input, step.output, Sources(v, tree)))
  {
    match step
    case Validate(dir) =>
      ValidationOnlyReports(s, eng, v, dir, Sources(v, tree));
      CheckAll(s, eng, v, dir, Sources(v, tree))
    case EnsureDir(dir) => Ensured(s, dir)
    case Build(input, output, f) =>
      BuildAllFiles(s, eng, v, f, Targets(v, input, output, Sources(v, tree)));
      BuildAll(s, eng, v, f, Targets(v, input, output, Sources(v, tree)))
  }


  function RunSteps(s: Snapshot, eng: Engines, v: Variant, tree: seq<Entry>, steps: seq<Step>): Snapshot
    decreases |steps|
  {
    if steps == [] then s
    else RunSteps(Perform(s, eng, v, tree, steps[0]), eng, v, tree, steps[1..])
  }

  lemma {:induction false} RunStepsAppend(s: Snapshot, eng: Engines, v: Variant, tree: seq<Entry>, a: seq<Step>, b: seq<Step>)
    ensures RunSteps(s, eng, v, tree, a + b) == RunSteps(RunSteps(s, eng, v, tree, a), eng, v, tree, b)
    decreases |a|
  {
    if a == [] {
      assert a + b == b;
    } else {
      assert (a + b)[1..] == a[1..] + b;
      RunStepsAppend(Perform(s, eng, v, tree, a[0]), eng, v, tree, a[1..], b);
    }
  }

  lemma RunGroup(s: Snapshot, eng: Engines, v: Variant, tree: seq<Entry>, inRoot: Path, outRoot: Path, f: Format)
    ensures RunSteps(s, eng, v, tree, FormatGroup(inRoot, outRoot, f)) ==
      BuildAll(Ensured(CheckAll(s, eng, v, inRoot, Sources(v, tree)), outRoot + [Key(f)]),
               eng, v, f, Targets(v, inRoot, outRoot + [Key(f)], Sources(v, tree)))
  {
    var g := FormatGroup(inRoot, outRoot, f);
    var s1 := Perform(s, eng, v, tree, g[0]);
    var s2 := Perform(s1, eng, v, tree, g[1]);
    var s3 := Perform(s2, eng, v, tree, g[2]);
    assert g[1..][1..][1..] == [];
    calc {
      RunSteps(s, eng, v, tree, g);
      RunSteps(s1, eng, v, tree, g[1..]);
      RunSteps(s2, eng, v, tree, g[1..][1..]);
      RunSteps(s3, eng, v, tree, g[1..][1..][1..]);
    }
  }

  /** One format's group changes the files exactly by that format's build writes. */
  lemma GroupFiles(s: Snapshot, eng: Engines, v: Variant, tree: seq<Entry>, inRoot: Path, outRoot: Path, f: Format)
    ensures RunSteps(s, eng, v, tree, FormatGroup(inRoot, outRoot, f)).files ==
      s.files + BuildWrites(eng, v, f, Targets(v, inRoot, outRoot + [Key(f)], Sources(v, tree)))
  {
    RunGroup(s, eng, v, tree, inRoot, outRoot, f);
    var s1 := CheckAll(s, eng, v, inRoot, Sources(v, tree));
    ValidationOnlyReports(s, eng, v, inRoot, Sources(v, tree));
    BuildAllFiles(Ensured(s1, outRoot + [Key(f)]), eng, v, f, Targets(v, inRoot, outRoot + [Key(f)], Sources(v, tree)));
  }

  /**
   * A whole run covers every selected format: each eligible file of the
   * tree that compiles for format `f` is written at
   * `outputDir/f/<its mapped relative path>`.
   */
  lemma {:induction false} RunCoversEveryFormat(s: Snapshot, eng: Engines, v: Variant, tree: seq<Entry>,
                                                inRoot: Path, outRoot: Path, fmts: seq<Format>,
                                                f: Format, rel: Path, c: Option<Text>)
    requires f in fmts && rel != [] && FileAt(tree, rel, c) && Eligible(v, Last(rel))
    requires Compile(eng, BuildOptions(v, inRoot + rel, f), c).Some?
    ensures outRoot + [Key(f)] + OutRel(v, rel) in RunSteps(s, eng, v, tree, FormatSteps(inRoot, outRoot, fmts)).files
    decreases |fmts|
  {
    var front := fmts[..|fmts| - 1];
    var g := fmts[|fmts| - 1];
    RunStepsAppend(s, eng, v, tree, FormatSteps(inRoot, outRoot, front), FormatGroup(inRoot, outRoot, g));
    var r0 := RunSteps(s, eng, v, tree, FormatSteps(inRoot, outRoot, front));
    GroupFiles(r0, eng, v, tree, inRoot, outRoot, g);
    if g == f {
      RunGroup(r0, eng, v, tree, inRoot, outRoot, f);
      BuildCoversTree(Ensured(CheckAll(r0, eng, v, inRoot, Sources(v, tree)), outRoot + [Key(f)]),
                      eng, v, f, tree, inRoot, outRoot + [Key(f)], rel, c);
    } else {
      assert f in front;
      RunCoversEveryFormat(s, eng, v, tree, inRoot, outRoot, front, f, rel, c);
    }
  }

  /**
   * A whole run writes nothing new except, for some selected format `f`,
   * `outputDir/f/<mapped path>` of an eligible file of the tree, or its map.
   */
  lemma {:induction false} RunStaysInOutputs(s: Snapshot, eng: Engines, v: Variant, tree: seq<Entry>,
                                             inRoot: Path, outRoot: Path, fmts: seq<Format>, p: Path)
    requires p in RunSteps(s, eng, v, tree, FormatSteps(inRoot, outRoot, fmts)).files && p !in s.files
    ensures exists f, rel, c :: f in fmts && rel != [] && FileAt(tree, rel, c) && Eligible(v, Last(rel)) &&
                                (p == outRoot + [Key(f)] + OutRel(v, rel) || p == MapPath(outRoot + [Key(f)] + OutRel(v, rel)))
    decreases |fmts|
  {
    var front := fmts[..|fmts| - 1];
    var g := fmts[|fmts| - 1];
    RunStepsAppend(s, eng, v, tree, FormatSteps(inRoot, outRoot, front), FormatGroup(inRoot, outRoot, g));
    var r0 := RunSteps(s, eng, v, tree, FormatSteps(inRoot, outRoot, front));
    if p in r0.files {
      RunStaysInOutputs(s, eng, v, tree, inRoot, outRoot, front, p);
      var f, rel, c :| f in front && rel != [] && FileAt(tree, rel, c) && Eligible(v, Last(rel)) &&
                       (p == outRoot + [Key(f)] + OutRel(v, rel) || p == MapPath(outRoot + [Key(f)] + OutRel(v, rel)));
      assert f in fmts;
    } else {
      RunGroup(r0, eng, v, tree, inRoot, outRoot, g);
      var s1 := CheckAll(r0, eng, v, inRoot, Sources(v, tree));
      ValidationOnlyReports(r0, eng, v, inRoot, Sources(v, tree));
      BuildStaysInTree(Ensured(s1, outRoot + [Key(g)]), eng, v, g, tree, inRoot, outRoot + [Key(g)], p);
      var rel, c :| rel != [] && FileAt(tree, rel, c) && Eligible(v, Last(rel)) &&
                    (p == outRoot + [Key(g)] + OutRel(v, rel) || p == MapPath(outRoot + [Key(g)] + OutRel(v, rel)));
      assert g in fmts;
    }
  }

  /** The per-format loop of `main`: validate, ensure `outRoot/fmt`, build, for each format in order. */
  method BuildFormats(host: Host, eng: Engines, v: Variant, tree: seq<Entry>, inRoot: Path, outRoot: Path, fmts: seq<Format>)
    modifies host
    ensures host.State() == RunSteps(old(host.State()), eng, v, tree, FormatSteps(inRoot, outRoot, fmts))
  {
    for i := 0 to |fmts|
      invariant host.State() == RunSteps(old(host.State()), eng, v, tree, FormatSteps(inRoot, outRoot, fmts[..i]))
    {
      ghost var before := host.State();
      var f := fmts[i];
      ValidateFiles(host, eng, v, tree, inRoot);
      var moduleOutputDir := outRoot + [Key(f)];
      host.EnsureDir(moduleOutputDir);
      BuildFiles(host, eng, v, tree, inRoot, moduleOutputDir, f);
      var group := FormatGroup(inRoot, outRoot, f);
      RunGroup(before, eng, v, tree, inRoot, outRoot, f);
      assert fmts[..i + 1][..i] == fmts[..i];
      RunStepsAppend(old(host.State()), eng, v, tree, FormatSteps(inRoot, outRoot, fmts[..i]), group);
    }
    assert fmts[..|fmts|] == fmts;
  }

  // ---------------------------------------------------------------- one change event

  /** The watcher delivers only paths strictly below its root. */
  predicate Beneath(root: Path, p: Path) {
    |root| < |p| && p[..|root|] == root
  }

  /** The changed path relative to the watched root. */
  function Relative(root: Path, p: Path): (rel: Path)
    requires Beneath(root, p)
    ensures rel != [] && root + rel == p && Last(rel) == Last(p)
  {
    p[|root|..]
  }

  /** Where the handler writes format `f`: `outputDir/f/rel`. */
  function ChangeOutput(outRoot: Path, f: Format, rel: Path): Path {
    outRoot + [Key(f)] + rel
  }

  /** One format of the change handler: ensure `dirname(out)`, then process the file. */
  function Reprocessed(s: Snapshot, eng: Engines, v: Variant, input: Path, content: Option<Text>,
                       outRoot: Path, rel: Path, f: Format): Snapshot
    requires rel != []
  {
    var out := ChangeOutput(outRoot, f, rel);
    Processed(Ensured(s, Dirname(out)), out, Compile(eng, BuildOptions(v, input, f), content), false)
  }

  /** The handler's loop over the selected formats, in order. */
  function ReprocessAll(s: Snapshot, eng: Engines, v: Variant, input: Path, content: Option<Text>,
                        outRoot: Path, rel: Path, fmts: seq<Format>): Snapshot
    requires rel != []
    decreases |fmts|
  {
    if fmts == [] then s
    else Reprocessed(ReprocessAll(s, eng, v, input, content, outRoot, rel, fmts[..|fmts| - 1]),
                     eng, v, input, content, outRoot, rel, fmts[|fmts| - 1])
  }

  method Reprocess(host: Host, eng: Engines, v: Variant, input: Path, content: Option<Text>,
                   outRoot: Path, rel: Path, fmts: seq<Format>)
    requires rel != []
    modifies host
    ensures host.State() == ReprocessAll(old(host.State()), eng, v, input, content, outRoot, rel, fmts)
  {
    for i := 0 to |fmts|
      invariant host.State() == ReprocessAll(old(host.State()), eng, v, input, content, outRoot, rel, fmts[..i])
    {
      var outputPath := ChangeOutput(outRoot, fmts[i], rel);
      host.EnsureDir(Dirname(outputPath));
      ProcessFile(host, eng, BuildOptions(v, input, fmts[i]), content, outputPath, false);
      assert fmts[..i + 1][..i] == fmts[..i];
    }
    assert fmts[..|fmts|] == fmts;
  }

  /** Reprocessing never removes a file or a directory, and only appends to the console. */
  lemma {:induction false} ReprocessGrows(s: Snapshot, eng: Engines, v: Variant, input: Path, content: Option<Text>,
                                          outRoot: Path, rel: Path, fmts: seq<Format>)
    requires rel != []
    ensures var r := ReprocessAll(s, eng, v, input, content, outRoot, rel, fmts);
      s.files.Keys <= r.files.Keys && s.dirs <= r.dirs && s.log <= r.log
    decreases |fmts|
  {
    if fmts != [] {
      var front := fmts[..|fmts| - 1];
      ReprocessGrows(s, eng, v, input, content, outRoot, rel, front);
      var r0 := ReprocessAll(s, eng, v, input, content, outRoot, rel, front);
      var out := ChangeOutput(outRoot, fmts[|fmts| - 1], rel);
      var e := Compile(eng, BuildOptions(v, input, fmts[|fmts| - 1]), content);
      ProcessedFiles(Ensured(r0, Dirname(out)), out, e, false);
      ProcessedLog(Ensured(r0, Dirname(out)), out, e, false);
      ProcessedDirs(Ensured(r0, Dirname(out)), out, e, false);
    }
  }

  /** The last format of a change event changes files exactly by its writes. */
  lemma ReprocessAllLast(s: Snapshot, eng: Engines, v: Variant, input: Path, content: Option<Text>,
                         outRoot: Path, rel: Path, fmts: seq<Format>)
    requires rel != [] && fmts != []
    ensures var g := fmts[|fmts| - 1];
      var out := ChangeOutput(outRoot, g, rel);
      ReprocessAll(s, eng, v, input, content, outRoot, rel, fmts).files ==
        ReprocessAll(s, eng, v, input, content, outRoot, rel, fmts[..|fmts| - 1]).files +
        Writes(out, Compile(eng, BuildOptions(v, input, g), content), false)
  {
    var r0 := ReprocessAll(s, eng, v, input, content, outRoot, rel, fmts[..|fmts| - 1]);
    var g := fmts[|fmts| - 1];
    var out := ChangeOutput(outRoot, g, rel);
    ProcessedFiles(Ensured(r0, Dirname(out)), out, Compile(eng, BuildOptions(v, input, g), content), false);
  }

  /** The last format of a change event leaves every path but its output and its map as it was. */
  lemma ReprocessLastKeeps(s: Snapshot, eng: Engines, v: Variant, input: Path, content: Option<Text>,
                           outRoot: Path, rel: Path, fmts: seq<Format>, p: Path)
    requires rel != [] && fmts != []
    requires p != ChangeOutput(outRoot, fmts[|fmts| - 1], rel) && p != MapPath(ChangeOutput(outRoot, fmts[|fmts| - 1], rel))
    ensures var r := ReprocessAll(s, eng, v, input, content, outRoot, rel, fmts);
      var r0 := ReprocessAll(s, eng, v, input, content, outRoot, rel, fmts[..|fmts| - 1]);
      (p in r.files <==> p in r0.files) && (p in r0.files ==> r.files[p] == r0.files[p])
  {
    ReprocessAllLast(s, eng, v, input, content, outRoot, rel, fmts);
  }

  /** The last format of a change event, when it compiles, leaves its code at its output. */
  lemma ReprocessLastWrites(s: Snapshot, eng: Engines, v: Variant, input: Path, content: Option<Text>,
                            outRoot: Path, rel: Path, fmts: seq<Format>)
    requires rel != [] && fmts != []
    requires Compile(eng, BuildOptions(v, input, fmts[|fmts| - 1]), content).Some?
    ensures var r := ReprocessAll(s, eng, v, input, content, outRoot, rel, fmts);
      var out := ChangeOutput(outRoot, fmts[|fmts| - 1], rel);
      out in r.files && r.files[out] == Compile(eng, BuildOptions(v, input, fmts[|fmts| - 1]), content).value.code
  {
    ReprocessAllLast(s, eng, v, input, content, outRoot, rel, fmts);
  }

  /** Two formats' handler outputs (and their maps) never coincide. */
  lemma ChangeOutputsDistinct(outRoot: Path, f: Format, g: Format, rel: Path)
    requires rel != [] && f != g
    ensures ChangeOutput(outRoot, f, rel) != ChangeOutput(outRoot, g, rel)
    ensures MapPath(ChangeOutput(outRoot, f, rel)) != ChangeOutput(outRoot, g, rel)
  {
    var a := ChangeOutput(outRoot, f, rel);
    var b := ChangeOutput(outRoot, g, rel);
    assert a[|outRoot|] == Key(f) && b[|outRoot|] == Key(g);
    assert MapPath(a)[|outRoot|] == Key(f);
  }

  /** A change event touches no file but the selected formats' outputs and their maps. */
  lemma {:induction false} ReprocessFrame(s: Snapshot, eng: Engines, v: Variant, input: Path, content: Option<Text>,
                                          outRoot: Path, rel: Path, fmts: seq<Format>, p: Path)
    requires rel != []
    requires forall f :: f in fmts ==> p != ChangeOutput(outRoot, f, rel) && p != MapPath(ChangeOutput(outRoot, f, rel))
    ensures var r := ReprocessAll(s, eng, v, input, content, outRoot, rel, fmts);
      (p in r.files <==> p in s.files) && (p in s.files ==> r.files[p] == s.files[p])
    decreases |fmts|
  {
    if fmts != [] {
      var front := fmts[..|fmts| - 1];
      assert forall f :: f in front ==> f in fmts;
      ReprocessFrame(s, eng, v, input, content, outRoot, rel, front, p);
      assert fmts[|fmts| - 1] in fmts;
      ReprocessLastKeeps(s, eng, v, input, content, outRoot, rel, fmts, p);
    }
  }

  /** Every format whose compile succeeds ends up with its own code at its output. */
  lemma {:induction false} ReprocessWritesEach(s: Snapshot, eng: Engines, v: Variant, input: Path, content: Option<Text>,
                                               outRoot: Path, rel: Path, fmts: seq<Format>, f: Format)
    requires rel != [] && f in fmts
    requires Compile(eng, BuildOptions(v, input, f), content).Some?
    ensures var r := ReprocessAll(s, eng, v, input, content, outRoot, rel, fmts);
      var out := ChangeOutput(outRoot, f, rel);
      out in r.files && r.files[out] == Compile(eng, BuildOptions(v, input, f), content).value.code
    decreases |fmts|
  {
    var front := fmts[..|fmts| - 1];
    var g := fmts[|fmts| - 1];
    if g != f {
      assert f in front;
      ReprocessWritesEach(s, eng, v, input, content, outRoot, rel, front, f);
      ChangeOutputsDistinct(outRoot, g, f, rel);
      ReprocessLastKeeps(s, eng, v, input, content, outRoot, rel, fmts, ChangeOutput(outRoot, f, rel));
    } else {
      ReprocessLastWrites(s, eng, v, input, content, outRoot, rel, fmts);
    }
  }
}
