/**
 * `main` of src/besmin.js, the older script: no `--fix`, `.js` only, an
 * explicit lone `esm` refused, and a change handler without an extension
 * filter or name rewriting.
 */
module SrcBesmin {
  import opened Wrappers
  import opened Paths
  import opened Engines
  import opened Formats
  import opened Registry
  import opened FileTree
  import opened Store
  import opened Pipeline
  import opened Orchestrator
  import LibIndex

  /** The selection holds `esm` and has length one. */
  predicate LoneEsm(selected: seq<Format>) {
    Esm in selected && |selected| == 1
  }

  lemma LoneEsmIsJustEsm(selected: seq<Format>)
    ensures LoneEsm(selected) <==> selected == [Esm]
  {
  }

  /** The steps `main` performs for `args` and how it ends. */
  function PlanOf(args: seq<string>): (p: Plan)
    ensures p.ending == UsageError <==> Select(args) == [Esm] || Arg(args, 0) == "" || Arg(args, 1) == ""
    ensures p.ending == UsageError ==> p.steps == []
    ensures p.ending != ExitOk
    ensures p.ending.Watching? <==> p.ending != UsageError && "--watch" in args
    ensures p.ending.Watching? ==> p.ending.watch.formats == Resolve(Select(args)) && !p.ending.watch.fixMode
  {
    LoneEsmIsJustEsm(Select(args));
    var inputDir := Arg(args, 0);
    var outputDir := Arg(args, 1);
    var isWatchMode := "--watch" in args;
    var moduleTypes := Select(args);
    var resolved := Resolve(moduleTypes);
    var inRoot := Split(inputDir);
    var outRoot := Split(outputDir);
    if LoneEsm(moduleTypes) then Plan([], UsageError)
    else if inputDir == "" || outputDir == "" then Plan([], UsageError)
    else Plan(FormatSteps(inRoot, outRoot, resolved),
              if isWatchMode then Watching(Watch(inRoot, outRoot, resolved, false)) else Finished)
  }

  /** Naming `esm` alone is a usage error, even with both directories given. */
  lemma ExplicitEsmRejected(args: seq<string>)
    requires Select(args) == [Esm]
    ensures PlanOf(args) == Plan([], UsageError)
  {
  }

  /** Naming no format builds `esm`, the very selection refused when named alone. */
  lemma DefaultEsmBuilt(args: seq<string>)
    requires Arg(args, 0) != "" && Arg(args, 1) != ""
    requires forall i :: 0 <= i < |args| ==> Parse(args[i]).None?
    ensures PlanOf(args).steps == FormatGroup(Split(Arg(args, 0)), Split(Arg(args, 1)), Esm)
  {
    DefaultIsEsm(args);
    SelectEmpty(args);
    assert [Esm][..0] == [];
  }

  /** A missing directory is a usage error before any step. */
  lemma MissingDirIsUsageError(args: seq<string>)
    requires Arg(args, 0) == "" || Arg(args, 1) == ""
    ensures PlanOf(args) == Plan([], UsageError) && ExitStatus(PlanOf(args).ending) == Some(1)
  {
  }

  /** Otherwise: validate, ensure `outputDir/fmt`, build, per format in order; then watch if asked. */
  lemma BuildRunOrder(args: seq<string>, i: nat)
    requires Arg(args, 0) != "" && Arg(args, 1) != "" && Select(args) != [Esm]
    requires i < |Resolve(Select(args))|
    ensures var steps := PlanOf(args).steps;
      |steps| == 3 * |Resolve(Select(args))| &&
      steps[3 * i..3 * i + 3] ==
        FormatGroup(Split(Arg(args, 0)), Split(Arg(args, 1)), Resolve(Select(args))[i])
    ensures PlanOf(args).ending.Watching? <==> "--watch" in args
  {
    FormatStepsAt(Split(Arg(args, 0)), Split(Arg(args, 1)), Resolve(Select(args)), i);
  }

  /** The two scripts plan alike except for `--fix` and a lone explicit `esm`. */
  lemma AgreesWithLibIndex(args: seq<string>)
    requires "--fix" !in args && Select(args) != [Esm]
    ensures PlanOf(args) == LibIndex.PlanOf(args)
  {
  }

  /**
   * A legacy build run writes, for every resolved format `f`, each `.js`
   * file of the tree that compiles at `outputDir/f/<same relative path>`.
   */
  lemma RunBuildsEveryFormat(s: Snapshot, eng: Engines, tree: seq<Entry>, args: seq<string>,
                             f: Format, rel: Path, c: Option<Text>)
    requires PlanOf(args).ending != UsageError && f in Resolve(Select(args))
    requires rel != [] && FileAt(tree, rel, c) && Eligible(Legacy, Last(rel))
    requires Compile(eng, BuildOptions(Legacy, Split(Arg(args, 0)) + rel, f), c).Some?
    ensures Split(Arg(args, 1)) + [Key(f)] + rel in RunSteps(s, eng, Legacy, tree, PlanOf(args).steps).files
  {
    RunCoversEveryFormat(s, eng, Legacy, tree, Split(Arg(args, 0)), Split(Arg(args, 1)),
                         Resolve(Select(args)), f, rel, c);
  }

  /** Every file a legacy run creates is some resolved format's copy of a `.js` file of the tree, or its map. */
  lemma RunWritesOnlyOutputs(s: Snapshot, eng: Engines, tree: seq<Entry>, args: seq<string>, p: Path)
    requires p in RunSteps(s, eng, Legacy, tree, PlanOf(args).steps).files && p !in s.files
    ensures PlanOf(args).ending != UsageError
    ensures exists f, rel, c :: f in Resolve(Select(args)) && rel != [] && FileAt(tree, rel, c) && Eligible(Legacy, Last(rel)) &&
                                (p == Split(Arg(args, 1)) + [Key(f)] + rel || p == MapPath(Split(Arg(args, 1)) + [Key(f)] + rel))
  {
    if PlanOf(args).ending != UsageError {
      RunStaysInOutputs(s, eng, Legacy, tree, Split(Arg(args, 0)), Split(Arg(args, 1)), Resolve(Select(args)), p);
    }
  }

  /** `main`: run the plan on the host and report how it ends. */
  method Run(host: Host, eng: Engines, tree: seq<Entry>, args: seq<string>) returns (ending: Ending)
    modifies host
    ensures ending == PlanOf(args).ending
    ensures host.State() == RunSteps(old(host.State()), eng, Legacy, tree, PlanOf(args).steps)
  {
    var inputDir := Arg(args, 0);
    var outputDir := Arg(args, 1);
    var isWatchMode := "--watch" in args;
    var moduleTypes := Select(args);
    if Esm in moduleTypes && |moduleTypes| == 1 {
      return UsageError;
    }
    var resolvedModuleTypes := Resolve(moduleTypes);
    if inputDir == "" || outputDir == "" {
      return UsageError;
    }
    var inRoot := Split(inputDir);
    var outRoot := Split(outputDir);
    BuildFormats(host, eng, Legacy, tree, inRoot, outRoot, resolvedModuleTypes);
    if isWatchMode {
      return Watching(Watch(inRoot, outRoot, resolvedModuleTypes, false));
    }
    return Finished;
  }

  // ---------------------------------------------------------------- the change handler

  /** What one change event does: re-process the file for every format, whatever its extension. */
  function Changed(s: Snapshot, eng: Engines, tree: seq<Entry>, w: Watch, filePath: Path): (r: Snapshot)
    requires Beneath(w.input, filePath)
    ensures s.files.Keys <= r.files.Keys && s.dirs <= r.dirs && s.log <= r.log
  {
    var rel := Relative(w.input, filePath);
    ReprocessGrows(s, eng, Legacy, filePath, Read(tree, rel), w.output, rel, w.formats);
    ReprocessAll(s, eng, Legacy, filePath, Read(tree, rel), w.output, rel, w.formats)
  }

  /** The `change` callback of `watchAndBuild` for one event. */
  method OnChange(host: Host, eng: Engines, tree: seq<Entry>, w: Watch, filePath: Path)
    requires Beneath(w.input, filePath)
    modifies host
    ensures host.State() == Changed(old(host.State()), eng, tree, w, filePath)
  {
    var rel := Relative(w.input, filePath);
    Reprocess(host, eng, Legacy, filePath, Read(tree, rel), w.output, rel, w.formats);
  }

  /**
   * Each selected format whose compile succeeds gets the new code at
   * `outputDir/fmt/rel` — `.ts` and other files included.
   */
  lemma ChangeWritesEachFormat(s: Snapshot, eng: Engines, tree: seq<Entry>, w: Watch, filePath: Path, f: Format)
    requires Beneath(w.input, filePath) && f in w.formats
    requires Compile(eng, BuildOptions(Legacy, filePath, f), Read(tree, Relative(w.input, filePath))).Some?
    ensures var out := w.output + [Key(f)] + Relative(w.input, filePath);
      var r := Changed(s, eng, tree, w, filePath);
      out in r.files &&
      r.files[out] == Compile(eng, BuildOptions(Legacy, filePath, f), Read(tree, Relative(w.input, filePath))).value.code
  {
    var rel := Relative(w.input, filePath);
    ReprocessWritesEach(s, eng, Legacy, filePath, Read(tree, rel), w.output, rel, w.formats, f);
  }

  /** Outside the per-format outputs and their maps, nothing changes. */
  lemma ChangeTouchesOnlyOutputs(s: Snapshot, eng: Engines, tree: seq<Entry>, w: Watch, filePath: Path, p: Path)
    requires Beneath(w.input, filePath)
    requires forall f :: f in w.formats ==>
      var out := ChangeOutput(w.output, f, Relative(w.input, filePath));
      p != out && p != MapPath(out)
    ensures var r := Changed(s, eng, tree, w, filePath);
      (p in r.files <==> p in s.files) && (p in s.files ==> r.files[p] == s.files[p])
  {
    var rel := Relative(w.input, filePath);
    ReprocessFrame(s, eng, Legacy, filePath, Read(tree, rel), w.output, rel, w.formats, p);
  }

  /** The handler always writes where the full build writes the same file. */
  lemma ChangeOutputMatchesBuild(outRoot: Path, f: Format, rel: Path)
    ensures ChangeOutput(outRoot, f, rel) == outRoot + [Key(f)] + OutRel(Legacy, rel)
  {
  }
}
