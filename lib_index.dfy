/**
 * `main` of lib/index.js: the argument checks, `--fix` mode, the
 * per-format build loop, and the change handler it registers with the
 * watcher.
 */
module LibIndex {
  import opened Wrappers
  import opened Paths
  import opened Engines
  import opened Formats
  import opened Registry
  import opened FileTree
  import opened Store
  import opened Pipeline
  import opened Orchestrator

  /** The steps `main` performs for `args` and how it ends. */
  function PlanOf(args: seq<string>): (p: Plan)
    ensures p.ending == UsageError <==> Arg(args, 0) == "" || (Arg(args, 1) == "" && ("--fix" !in args || "--watch" in args))
    ensures p.ending == ExitOk <==> Arg(args, 0) != "" && "--fix" in args && "--watch" !in args
    ensures p.ending.Watching? <==> Arg(args, 0) != "" && Arg(args, 1) != "" && "--watch" in args
    ensures p.ending.Watching? ==> p.ending.watch.formats == Resolve(Select(args)) && (p.ending.watch.fixMode <==> "--fix" in args)
  {
    var inputDir := Arg(args, 0);
    var outputDir := Arg(args, 1);
    var isWatchMode := "--watch" in args;
    var isFixMode := "--fix" in args;
    var resolved := Resolve(Select(args));
    var inRoot := Split(inputDir);
    var outRoot := Split(outputDir);
    if inputDir == "" then Plan([], UsageError)
    else if isFixMode && !isWatchMode then Plan([Validate(inRoot)], ExitOk)
    else if outputDir == "" then Plan(if isFixMode then [Validate(inRoot)] else [], UsageError)
    else Plan(if isFixMode then [Validate(inRoot)] else FormatSteps(inRoot, outRoot, resolved),
              if isWatchMode then Watching(Watch(inRoot, outRoot, resolved, isFixMode)) else Finished)
  }

  /** Without an input directory: usage error, exit 1, before any step. */
  lemma MissingInputIsUsageError(args: seq<string>)
    requires Arg(args, 0) == ""
    ensures PlanOf(args) == Plan([], UsageError) && ExitStatus(PlanOf(args).ending) == Some(1)
  {
  }

  /** `--fix` without `--watch`: validate the input tree once and exit 0; the output directory is never consulted. */
  lemma FixOnlyValidates(args: seq<string>)
    requires Arg(args, 0) != "" && "--fix" in args && "--watch" !in args
    ensures PlanOf(args) == Plan([Validate(Split(Arg(args, 0)))], ExitOk)
    ensures ExitStatus(PlanOf(args).ending) == Some(0)
  {
  }

  /**
   * `--fix --watch` still demands an output directory, which its watcher
   * never uses: without one, the tree is validated and then exit 1 follows.
   */
  lemma FixWatchNeedsOutput(args: seq<string>)
    requires Arg(args, 0) != "" && Arg(args, 1) == "" && "--fix" in args && "--watch" in args
    ensures PlanOf(args) == Plan([Validate(Split(Arg(args, 0)))], UsageError)
  {
  }

  /** With `--fix --watch` and both directories, the tree is validated once and the watcher only checks syntax. */
  lemma FixWatchValidatesThenWatches(args: seq<string>)
    requires Arg(args, 0) != "" && Arg(args, 1) != "" && "--fix" in args && "--watch" in args
    ensures PlanOf(args).steps == [Validate(Split(Arg(args, 0)))]
    ensures PlanOf(args).ending.Watching? && PlanOf(args).ending.watch.fixMode
  {
  }

  /** A usage error never comes after an `ensureDir` or a build: at most the `--fix` validation ran. */
  lemma UsageErrorBeforeOutput(args: seq<string>)
    requires PlanOf(args).ending == UsageError
    ensures forall k :: 0 <= k < |PlanOf(args).steps| ==> PlanOf(args).steps[k] == Validate(Split(Arg(args, 0)))
    ensures Arg(args, 0) == "" || Arg(args, 1) == ""
  {
  }

  /** The exit status is 1 exactly when a directory the mode needs is missing. */
  lemma ExitOneIffMissingDir(args: seq<string>)
    ensures ExitStatus(PlanOf(args).ending) == Some(1) <==>
      Arg(args, 0) == "" || (Arg(args, 1) == "" && ("--fix" !in args || "--watch" in args))
  {
  }

  /**
   * Without `--fix`: for each selected format in order, validate the
   * input, ensure `outputDir/fmt`, build into it; then watch if asked.
   */
  lemma BuildRunOrder(args: seq<string>, i: nat)
    requires Arg(args, 0) != "" && Arg(args, 1) != "" && "--fix" !in args
    requires i < |Resolve(Select(args))|
    ensures var steps := PlanOf(args).steps;
      |steps| == 3 * |Resolve(Select(args))| &&
      steps[3 * i..3 * i + 3] ==
        FormatGroup(Split(Arg(args, 0)), Split(Arg(args, 1)), Resolve(Select(args))[i])
    ensures PlanOf(args).ending.Watching? <==> "--watch" in args
  {
    FormatStepsAt(Split(Arg(args, 0)), Split(Arg(args, 1)), Resolve(Select(args)), i);
  }

  /** With `--fix`, a run writes no file and creates no directory: it only validates. */
  lemma FixRunWritesNothing(s: Snapshot, eng: Engines, tree: seq<Entry>, args: seq<string>)
    requires "--fix" in args
    ensures var r := RunSteps(s, eng, Current, tree, PlanOf(args).steps);
      r.files == s.files && r.dirs == s.dirs
  {
    var steps := PlanOf(args).steps;
    if steps != [] {
      var dir := Split(Arg(args, 0));
      assert steps == [Validate(dir)];
      ValidationOnlyReports(s, eng, Current, dir, Sources(Current, tree));
      assert steps[1..] == [];
    }
  }

  /**
   * A build run writes, for every resolved format `f`, each eligible file
   * of the tree that compiles at `outputDir/f/<its mapped relative path>`.
   */
  lemma RunBuildsEveryFormat(s: Snapshot, eng: Engines, tree: seq<Entry>, args: seq<string>,
                             f: Format, rel: Path, c: Option<Text>)
    requires Arg(args, 0) != "" && Arg(args, 1) != "" && "--fix" !in args && f in Resolve(Select(args))
    requires rel != [] && FileAt(tree, rel, c) && Eligible(Current, Last(rel))
    requires Compile(eng, BuildOptions(Current, Split(Arg(args, 0)) + rel, f), c).Some?
    ensures Split(Arg(args, 1)) + [Key(f)] + OutRel(Current, rel) in
      RunSteps(s, eng, Current, tree, PlanOf(args).steps).files
  {
    RunCoversEveryFormat(s, eng, Current, tree, Split(Arg(args, 0)), Split(Arg(args, 1)),
                         Resolve(Select(args)), f, rel, c);
  }

  /**
   * Every file a run creates is, for some resolved format `f`, the mapped
   * output of an eligible file of the tree under `outputDir/f`, or its map;
   * and only a build run (no `--fix`) creates files at all.
   */
  lemma RunWritesOnlyOutputs(s: Snapshot, eng: Engines, tree: seq<Entry>, args: seq<string>, p: Path)
    requires p in RunSteps(s, eng, Current, tree, PlanOf(args).steps).files && p !in s.files
    ensures "--fix" !in args && Arg(args, 0) != "" && Arg(args, 1) != ""
    ensures exists f, rel, c :: f in Resolve(Select(args)) && rel != [] && FileAt(tree, rel, c) && Eligible(Current, Last(rel)) &&
                                (p == Split(Arg(args, 1)) + [Key(f)] + OutRel(Current, rel) ||
                                 p == MapPath(Split(Arg(args, 1)) + [Key(f)] + OutRel(Current, rel)))
  {
    if "--fix" in args {
      FixRunWritesNothing(s, eng, tree, args);
    } else if Arg(args, 0) != "" && Arg(args, 1) != "" {
      RunStaysInOutputs(s, eng, Current, tree, Split(Arg(args, 0)), Split(Arg(args, 1)), Resolve(Select(args)), p);
    }
  }

  /** A run that ends in a usage error has written no file and created no directory. */
  lemma UsageErrorWritesNothing(s: Snapshot, eng: Engines, tree: seq<Entry>, args: seq<string>)
    requires PlanOf(args).ending == UsageError
    ensures var r := RunSteps(s, eng, Current, tree, PlanOf(args).steps);
      r.files == s.files && r.dirs == s.dirs
  {
    var steps := PlanOf(args).steps;
    if steps != [] {
      var dir := Split(Arg(args, 0));
      assert steps == [Validate(dir)];
      ValidationOnlyReports(s, eng, Current, dir, Sources(Current, tree));
      assert steps[1..] == [];
    }
  }

  /** `main`: run the plan on the host and report how it ends. */
  method Run(host: Host, eng: Engines, tree: seq<Entry>, args: seq<string>) returns (ending: Ending)
    modifies host
    ensures ending == PlanOf(args).ending
    ensures host.State() == RunSteps(old(host.State()), eng, Current, tree, PlanOf(args).steps)
  {
    var inputDir := Arg(args, 0);
    var outputDir := Arg(args, 1);
    var isWatchMode := "--watch" in args;
    var isFixMode := "--fix" in args;
    var moduleTypes := Select(args);
    if inputDir == "" {
      return UsageError;
    }
    var inRoot := Split(inputDir);
    if isFixMode {
      ValidateFiles(host, eng, Current, tree, inRoot);
      assert [Validate(inRoot)][1..] == [];
      if !isWatchMode {
        return ExitOk;
      }
    }
    if outputDir == "" {
      return UsageError;
    }
    var resolvedModuleTypes := Resolve(moduleTypes);
    var outRoot := Split(outputDir);
    if !isFixMode {
      BuildFormats(host, eng, Current, tree, inRoot, outRoot, resolvedModuleTypes);
    }
    if isWatchMode {
      return Watching(Watch(inRoot, outRoot, resolvedModuleTypes, isFixMode));
    }
    return Finished;
  }

  // ---------------------------------------------------------------- the change handler

  /** What one change event does to the host, given the input tree as it now is. */
  function Changed(s: Snapshot, eng: Engines, tree: seq<Entry>, w: Watch, filePath: Path): (r: Snapshot)
    requires Beneath(w.input, filePath)
    ensures s.files.Keys <= r.files.Keys && s.dirs <= r.dirs && s.log <= r.log
  {
    if !Eligible(Current, Last(filePath)) then s
    else
      var rel := Relative(w.input, filePath);
      var content := Read(tree, rel);
      if w.fixMode then Checked(s, eng, Current, filePath, content)
      else
        ReprocessGrows(s, eng, Current, filePath, content, w.output, RewriteLast(rel), w.formats);
        ReprocessAll(s, eng, Current, filePath, content, w.output, RewriteLast(rel), w.formats)
  }

  /** The `change` callback of lib/index.js for one event. */
  method OnChange(host: Host, eng: Engines, tree: seq<Entry>, w: Watch, filePath: Path)
    requires Beneath(w.input, filePath)
    modifies host
    ensures host.State() == Changed(old(host.State()), eng, tree, w, filePath)
  {
    if !Eligible(Current, Last(filePath)) {
      return;
    }
    var rel := Relative(w.input, filePath);
    var content := Read(tree, rel);
    if w.fixMode {
      CheckSyntax(host, eng, Current, filePath, content);
    } else {
      Reprocess(host, eng, Current, filePath, content, w.output, RewriteLast(rel), w.formats);
    }
  }

  /** A change to anything but a `.js` or `.ts` file is ignored. */
  lemma ChangeIgnoresOtherFiles(s: Snapshot, eng: Engines, tree: seq<Entry>, w: Watch, filePath: Path)
    requires Beneath(w.input, filePath)
    ensures Changed(s, eng, tree, w, filePath) == s <== !Eligible(Current, Last(filePath))
    ensures !Eligible(Current, Last(filePath)) <==>
      !(|Last(filePath)| > 3 && (EndsWith(Last(filePath), ".js") || EndsWith(Last(filePath), ".ts")))
  {
    EligibleByEnding(Current, Last(filePath));
  }

  /** In fix mode a change only prints a verdict: no file, no directory. */
  lemma FixModeChangeWritesNothing(s: Snapshot, eng: Engines, tree: seq<Entry>, w: Watch, filePath: Path)
    requires Beneath(w.input, filePath) && w.fixMode
    ensures var r := Changed(s, eng, tree, w, filePath);
      r.files == s.files && r.dirs == s.dirs && |r.log| <= |s.log| + 1
  {
  }

  /** Outside `outputDir/fmt/rel'` (rel' = rel with its last `.ts` rewritten) and the maps, nothing changes. */
  lemma ChangeTouchesOnlyOutputs(s: Snapshot, eng: Engines, tree: seq<Entry>, w: Watch, filePath: Path, p: Path)
    requires Beneath(w.input, filePath)
    requires forall f :: f in w.formats ==>
      var out := ChangeOutput(w.output, f, RewriteLast(Relative(w.input, filePath)));
      p != out && p != MapPath(out)
    ensures var r := Changed(s, eng, tree, w, filePath);
      (p in r.files <==> p in s.files) && (p in s.files ==> r.files[p] == s.files[p])
  {
    if Eligible(Current, Last(filePath)) && !w.fixMode {
      var rel := Relative(w.input, filePath);
      ReprocessFrame(s, eng, Current, filePath, Read(tree, rel), w.output, RewriteLast(rel), w.formats, p);
    }
  }

  /** Each selected format whose compile succeeds gets the new code at its output. */
  lemma ChangeWritesEachFormat(s: Snapshot, eng: Engines, tree: seq<Entry>, w: Watch, filePath: Path, f: Format)
    requires Beneath(w.input, filePath) && Eligible(Current, Last(filePath)) && !w.fixMode && f in w.formats
    requires Compile(eng, BuildOptions(Current, filePath, f), Read(tree, Relative(w.input, filePath))).Some?
    ensures var out := ChangeOutput(w.output, f, RewriteLast(Relative(w.input, filePath)));
      var r := Changed(s, eng, tree, w, filePath);
      out in r.files &&
      r.files[out] == Compile(eng, BuildOptions(Current, filePath, f), Read(tree, Relative(w.input, filePath))).value.code
  {
    var rel := Relative(w.input, filePath);
    ReprocessWritesEach(s, eng, Current, filePath, Read(tree, rel), w.output, RewriteLast(rel), w.formats, f);
  }

  /**
   * The handler writes where the full build writes the same file exactly
   * when no directory on its path ends in ".ts".
   */
  lemma ChangeOutputMatchesBuild(outRoot: Path, f: Format, rel: Path)
    requires rel != []
    ensures ChangeOutput(outRoot, f, RewriteLast(rel)) == outRoot + [Key(f)] + OutRel(Current, rel) <==>
      forall i :: 0 <= i < |rel| - 1 ==> !EndsWith(rel[i], ".ts")
  {
    RewriteEveryIsRewriteLast(rel);
    var a := outRoot + [Key(f)];
    if ChangeOutput(outRoot, f, RewriteLast(rel)) == a + OutRel(Current, rel) {
      assert RewriteLast(rel) == (a + RewriteLast(rel))[|a|..];
      assert OutRel(Current, rel) == (a + OutRel(Current, rel))[|a|..];
    }
  }

  /** The file the handler reads is the one the full build reads at that path, on a real tree. */
  lemma ChangeReadsBuildSource(tree: seq<Entry>, w: Watch, filePath: Path, c: Option<Text>)
    requires Beneath(w.input, filePath) && DistinctNames(tree)
    requires FileAt(tree, Relative(w.input, filePath), c) && Eligible(Current, Last(filePath))
    ensures Read(tree, Relative(w.input, filePath)) == c
    ensures Source(Relative(w.input, filePath), c) in Sources(Current, tree)
  {
    var rel := Relative(w.input, filePath);
    FileAtIsRead(tree, rel, c);
    SourcesComplete(Current, tree, rel, c);
  }
}
