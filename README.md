# besmin — a Dafny model of the build CLI's decision logic

besmin is a small command-line tool. It walks an input directory and
compiles every eligible source file with Babel, using one of five
module-format profiles (esm, cjs, sysjs, amd, umd). It minifies the result
with Terser and writes the code, plus a `.map` sibling when Terser produces
one, into `outputDir/<format>/…`. It can also validate syntax only, or keep
watching the input tree and recompile the files that change.

The repository has two near-identical entry points, and both are modelled:

* `lib/index.js` is the current script. It accepts `.js` and `.ts` files,
  rewrites a trailing `.ts` to `.js` in output names, adds the TypeScript
  preset, passes `filename` to Babel, and has a `--fix` (syntax-check only)
  mode.
* `src/besmin.js` is the legacy script. It accepts `.js` files only, keeps
  names unchanged, has no TypeScript preset, no `filename` and no `--fix`,
  and it rejects an explicit lone `esm`.

The shared logic is written once, parameterised by
`Registry.Variant = Current | Legacy`.

## How the model is built

* **Inputs.**
  * The input directory is a value, `FileTree.Entry`: a `File` (its
    content, or `None` when `readFile` throws), a `Dir` with its children
    in `readdir` order, or an `Other` (an entry `stat` reports as neither a
    file nor a directory, such as a socket or a FIFO).
  * A path is a sequence of segments. A command-line directory is split on
    `/` (`Paths.Split`).
* **The output side.**
  * The output side is the class `Store.Host`. Its fields are the written
    files, the directories that exist, and the console log of per-file
    verdicts.
  * Its three methods model `outputFile` (which also creates the parents),
    `ensureDir`, and one `console` line. lib/index.js takes these from
    `nodefs-lite` and src/besmin.js from `fs-extra`; the model assumes the
    two behave alike.
  * Every imperative method ensures that `host.State()` equals a function of
    the old state. The properties are proved about those functions.
* **Babel and Terser.**
  * Both are opaque function values (`Engines.Engines`).
  * `transformSync` either returns code, returns no result, or throws.
  * `minify` either returns code and an optional map, or throws.
  * The options each call receives (`Registry`) are modelled exactly.
* **The walks.**
  * `validateFiles` and `buildFiles` are recursive imperative methods over
    the listing (`Pipeline.ValidateFiles`, `Pipeline.BuildFiles`).
  * They are proved equal to folds over one traversal, `Pipeline.Sources`:
    the eligible regular files in walk order.
* **`main`.**
  * `main` becomes a `Plan`: the steps it performs, then how it ends. It
    can end in a usage error (exit 1), a clean exit (`--fix` without watch),
    the natural end, or watching.
  * `Run` performs the steps on a `Host`.
  * A change event is one call of `OnChange`, with the tree as it is at
    that moment.

## Behaviour worth knowing

* An unrecognised format argument is silently dropped. `main` keeps only
  the five known keys and ignores every other argument
  (`Formats.SelectMembers`), so the registry is never looked up with an
  unknown key.
* Validation never stops the build. Without `--fix` it only prints, and
  `main` runs it again once per selected format, just before that
  format's build (`LibIndex.BuildRunOrder`).
* `syntaxWithBabel` prints nothing at all for a file Babel turns into
  empty code or no result, such as an empty file; only unreadable files
  and files Babel rejects get an error line (`Pipeline.Report`).
* With `--fix --watch`, an output directory is still required even though
  the watcher never uses it. Without one, the tree is validated and then
  the run exits 1 (`LibIndex.FixWatchNeedsOutput`).
* The legacy script rejects an explicit lone `esm` yet builds esm by
  default when no format is given (`SrcBesmin.ExplicitEsmRejected`,
  `SrcBesmin.DefaultEsmBuilt`).
* The current script's full build rewrites `.ts` in every path segment,
  directories included, because `buildFiles` renames each entry. Its change
  handler rewrites only the final segment. The two therefore write
  different paths below a directory named like `x.ts`
  (`Paths.WatchAndBuildDisagree`, `LibIndex.ChangeOutputMatchesBuild`).
* In the current script, `a.ts` and `a.js` in the same directory map to the
  same output. The output holds the code of the last of them, in listing
  order, that compiles: a later file that fails leaves the earlier one's
  code in place (`Pipeline.FailingFileIsSkipped`). A target that no later
  target overwrites holds its own code (`Pipeline.BuildWritesCode`,
  `Pipeline.BuildLeavesCode`). An earlier file's `.map` stays beside a later
  file's code when the later file produces no map
  (`Pipeline.BuildAllFiles` with `Pipeline.Writes`).
* The legacy change handler has no extension filter and does not rename.
  It reprocesses whatever changed, at the same relative path
  (`SrcBesmin.Changed`).

## Model

| member | source | states |
|---|---|---|
| Paths.Extname | lib/index.js:113 | The extension is a suffix of the name. It is empty exactly when there is no '.' after position 0; otherwise it starts at the last '.' and contains no other '.'. |
| Paths.ExtnameOfSuffix | lib/index.js:131 | For a three-character extension such as ".js", `extname(name)` equals it exactly when the name ends with it and is longer than it. |
| Paths.ReplaceTrailingTs | lib/index.js:124 | Rewriting a trailing ".ts" keeps the length. A name ending in ".ts" ends in ".js" afterwards with the same stem, and any other name is unchanged. |
| Paths.ReplaceTrailingTsIdempotent | lib/index.js:124 | After the rewrite no ".ts" ending remains, and rewriting twice equals rewriting once. |
| Paths.MapPath | lib/index.js:82-83 | The map file lives in the same directory as the output. Its name is the output name plus ".map", and it is never the output itself. |
| Paths.RewriteEveryIsRewriteLast | lib/index.js:224-229 | Rewriting every segment equals rewriting only the last one exactly when no directory segment ends in ".ts". |
| Paths.WatchAndBuildDisagree | lib/index.js:124-128 | For `lib.ts/a.ts` the full build writes `lib.js/a.js`, while the change handler writes `lib.ts/a.js`. |
| Paths.Split | lib/index.js:166-167 | A directory argument becomes non-empty segments containing no '/'. |
| Paths.SplitJoin | lib/index.js:166-167 | Splitting the '/'-joined form of any path with non-empty, '/'-free segments gives back exactly that path, so the segments are the argument's pieces in order. |
| Paths.RewriteLast | lib/index.js:227-228 | The handler's rewrite keeps the length and the directory part, and applies the trailing-".ts" rewrite to the last segment only. |
| Paths.RewriteEvery | lib/index.js:124-128 | The full build's rewrite applies the trailing-".ts" rewrite to every segment, since each directory level renames its entry. |
| Paths.Dirname | lib/index.js:231 | `path.dirname` is the path without its last segment: appending the last segment gives the path back. |
| Formats.Select | lib/index.js:170-172 | The selection has at most one format per argument; `SelectMembers`, `SelectAppend` and `SelectEmpty` state that it is the in-order filter of the five keys. |
| Formats.Parse | lib/index.js:170-172 | A recognised argument is exactly the key of the format it yields. |
| Formats.ParseKey | lib/index.js:170-172 | An argument selects format f if and only if it equals f's key. |
| Formats.SelectAppend | lib/index.js:170-172 | The filter distributes over concatenation, so argument order is kept. |
| Formats.SelectOne | lib/index.js:170-172 | A single argument contributes its format when it is one of the five keys, and nothing otherwise. |
| Formats.SelectMembers | lib/index.js:170-172 | A format is selected if and only if its key occurs among the arguments, so unknown arguments are ignored. |
| Formats.SelectEmpty | lib/index.js:170-172 | Nothing is selected if and only if no argument is a known key. |
| Formats.Resolve | lib/index.js:196 | The resolved list is never empty, and it is the selection itself whenever something was selected. |
| Formats.DefaultIsEsm | src/besmin.js:132 | With no format argument, exactly esm is built. |
| Registry.Plugins | lib/index.js:22-72 | Each format has at most one module plugin. Only esm has none. |
| Registry.PluginsInjective | lib/index.js:22-72 | Different formats get different plugin lists. |
| Registry.ProfileFor | lib/index.js:22-72 | Every profile starts with preset-env (no module transform, targets "> 0.5%, not dead") and uses its format's plugins. It includes the TypeScript preset exactly in the current script. |
| Registry.ProfilesSharePresets | src/besmin.js:21-41 | All formats of one script share the same presets and differ only by plugin, and the profile determines the format. |
| Registry.BuildOptions | lib/index.js:73-77 | The build transform gets its format's plugins and source maps. It gets the TypeScript preset and the input path as `filename` exactly in the current script. |
| Registry.CheckOptions | lib/index.js:92-95 | The syntax check uses preset-env with targets "> 0.5%", no plugins and no source maps. It adds the TypeScript preset exactly in the current script, and so only there accepts `.ts` syntax. It passes a filename exactly in the current script, and that filename is the input path. |
| FileTree.Read | lib/index.js:21 | Reading a path yields content only when a regular file with that content sits at that path in the tree; otherwise the read throws (`None`). |
| FileTree.FileAtIsRead | lib/index.js:21 | In a tree with distinct names per directory, a file at a path is what reading that path yields. |
| Pipeline.Eligible | lib/index.js:111-114 | An eligible name ends in ".js", or in ".ts" in the current script only. |
| Pipeline.EligibleByEnding | lib/index.js:111-114 | The current script processes a file exactly when its name is longer than 3 and ends in ".js" or ".ts". The legacy script does so only for ".js". |
| Pipeline.OutName | lib/index.js:124 | The output name has the input name's length, ends in ".js" for every eligible file, and equals the input name unless that ends in ".ts". |
| Pipeline.OutNameIsJs | lib/index.js:124 | The output name of every eligible file has extension ".js". |
| Pipeline.OutRel | lib/index.js:124-128 | The relative output path has as many segments as the input path. |
| Pipeline.Sources | lib/index.js:103-136 | Every visited file has a non-empty path whose last segment is eligible; `SourcesSound` and `SourcesComplete` state that exactly the eligible regular files of the tree are visited. |
| Pipeline.SourcesSound | lib/index.js:103-118 | Every file the walk visits is an eligible regular file at that path in the tree. |
| Pipeline.SourcesComplete | lib/index.js:120-136 | Every eligible regular file anywhere below the input directory is visited. |
| Pipeline.LegacySkipsTs | src/besmin.js:76-80 | The legacy walk never visits a ".ts" file. |
| Pipeline.TargetsUnder | lib/index.js:123-128 | Recursing into directory `n` joins `n` to the input path and the renamed `n` to the output path for every file below it. |
| Pipeline.Compile | lib/index.js:20-79 | Read, transform, minify, with any throw giving no result. It has no contract of its own; `CompileOutcome` states it. |
| Pipeline.CompileOutcome | lib/index.js:20-79 | A file compiles exactly when it is read, Babel returns code and Terser does not throw; then the result is Terser's code and map. |
| Pipeline.Processed | lib/index.js:80-85 | The state after `processFile`. It has no contract of its own; `ProcessedFiles`, `ProcessedLog` and `ProcessedDirs` state it. |
| Pipeline.Writes | lib/index.js:80-85 | A processed file writes its output exactly when compile and minify succeed, with the minified code. It writes `<output>.map` exactly when a non-empty map was also produced, and it writes nothing else. |
| Pipeline.ProcessedFiles | lib/index.js:80-85 | After processing, the files are the old files updated with exactly those writes. |
| Pipeline.ProcessedLog | lib/index.js:84 | One "Output Ok" line for the output is appended exactly when the file was written, and nothing otherwise. |
| Pipeline.ProcessedDirs | lib/index.js:81-83 | The only directories created are the output's parents (the map sits beside the output), and none on failure. |
| Pipeline.FailureLeavesNoTrace | lib/index.js:20-86 | When reading, transforming or minifying fails, processing changes nothing: no file, no directory, no log line. |
| Pipeline.ProcessFile | lib/index.js:14-87 | The host's new state is the old state with the writes above, the created parents and one "Output Ok" line, or the old state unchanged on failure. |
| Pipeline.Report | lib/index.js:89-101 | The verdict is an input error exactly when reading fails or Babel throws, and "Input OK" exactly when Babel returns non-empty code. Otherwise (no result or empty code) nothing is printed. |
| Pipeline.CheckSyntax | lib/index.js:89-101 | The host's new state is the old state plus that verdict. |
| Pipeline.ValidationOnlyReports | lib/index.js:103-118 | Validation changes only the log: the files and directories are untouched, and the visited files' verdicts are appended in walk order. |
| Pipeline.EveryFileReported | lib/index.js:103-118 | When every visited file gets a verdict, the k-th verdict is about the k-th visited file, and it is an error exactly when that file cannot be read or Babel throws. |
| Pipeline.MalformedReported | lib/index.js:103-118 | On any tree, every visited file that cannot be read or that Babel rejects gets an input-error line, whatever the other files are. |
| Pipeline.WellFormedReported | lib/index.js:103-118 | On any tree, every visited file Babel turns into non-empty code gets an "Input OK" line. |
| Pipeline.ErrorsAreMalformed | lib/index.js:103-118 | Every input-error line names a visited file that cannot be read or that Babel rejects. |
| Pipeline.ValidateFiles | lib/index.js:103-118 | The recursive walk leaves the host exactly as the fold over the visited files in walk order does. |
| Pipeline.BuildFiles | lib/index.js:120-136 | The recursive walk leaves the host exactly as processing each visited file, in walk order, at its mapped output path does. |
| Pipeline.ValidateEntry | lib/index.js:106-116 | One listed entry: a directory is validated recursively, an eligible regular file is checked, anything else is skipped; the host ends exactly as checking that entry's visited files does. |
| Pipeline.BuildEntry | lib/index.js:123-134 | One listed entry: a directory is built into its renamed output directory, an eligible regular file is processed at its mapped output name, anything else is skipped; the host ends exactly as building that entry's visited files does. |
| Pipeline.BuildAllFiles | lib/index.js:120-136 | A build's files are the old files overridden by the union of the per-file writes. |
| Pipeline.BuildIdempotent | lib/index.js:120-136 | Building the same tree twice leaves the same files as building it once. |
| Pipeline.BuildWritesOnlyTargets | lib/index.js:120-136 | A build writes a path only as some visited file's output or that output's map. |
| Pipeline.BuildWritesCode | lib/index.js:120-136 | Take a file that compiles, whose output no later file of the build writes as output or map. Its output holds exactly its minified code. |
| Pipeline.BuildLeavesCode | lib/index.js:79-83 | For the same file, the host's output file after the build holds that minified code. |
| Pipeline.BuildWritesEveryCompiled | lib/index.js:120-136 | Every visited file that compiles has its output, and its map when one was produced, present after the build. |
| Pipeline.FailingFileIsSkipped | lib/index.js:133 | A file that fails to compile has the same effect as if it were not in the tree: the rest of the build goes on. |
| Pipeline.BuildCoversTree | lib/index.js:120-136 | For any eligible file in the tree that compiles, the output root joined with its mapped relative path is written. |
| Pipeline.BuildStaysInTree | lib/index.js:120-136 | Every newly written file is the mapped output of some eligible file of the tree, or that output's map. |
| Orchestrator.ExitStatus | lib/index.js:176-194 | The exit status is 1 exactly on a usage error, and there is none exactly while watching. |
| Orchestrator.Perform | lib/index.js:198-206 | Validation changes only the log, appending its verdicts. `ensureDir` changes only the directories and creates its own. A build changes the files exactly by its writes. |
| Orchestrator.GroupFiles | lib/index.js:199-205 | One format's validate, ensure and build change the files exactly by that format's build writes under `outputDir/fmt`. |
| Orchestrator.RunCoversEveryFormat | lib/index.js:198-206 | After the whole loop, for every selected format f, each eligible file of the tree that compiles is written at `outputDir/f/<mapped path>`. |
| Orchestrator.RunStaysInOutputs | lib/index.js:198-206 | Each file the loop creates is, for some selected format f, the mapped output of an eligible file of the tree under `outputDir/f`, or its map. |
| Orchestrator.FormatStepsAt | lib/index.js:198-206 | The loop performs exactly three steps per format. Group i consists of validate input, ensure `outputDir/fmt_i`, and build into it. |
| Orchestrator.FormatStepsTargets | lib/index.js:198-206 | Every build step reads the input root and writes `outputDir/<its own format>`, and every ensured directory is one of those. |
| Orchestrator.BuildFormats | lib/index.js:198-206 | The loop leaves the host exactly as performing the planned steps in order does. |
| Orchestrator.Relative | lib/index.js:227 | The changed path is the watched root joined with its relative path, and the file name is kept. |
| Orchestrator.Reprocess | lib/index.js:219-233 | The handler's loop leaves the host exactly as ensuring each format's directory and processing the file there, in order, does. |
| Orchestrator.ChangeOutput | lib/index.js:220-229 | The handler's output path. It has no contract of its own; `ChangeOutputsDistinct` and `LibIndex.ChangeOutputMatchesBuild` state where it lies. |
| Orchestrator.ReprocessGrows | lib/index.js:219-233 | Reprocessing never removes a file or a directory, and only appends to the console. |
| Orchestrator.ChangeOutputsDistinct | lib/index.js:219-229 | Two formats never share an output or a map path for the same changed file. |
| Orchestrator.ReprocessFrame | lib/index.js:219-233 | Reprocessing touches no file other than the selected formats' outputs and their maps. |
| Orchestrator.ReprocessWritesEach | lib/index.js:219-233 | Every selected format whose compile succeeds ends up holding its own code at its output. |
| LibIndex.PlanOf | lib/index.js:164-208 | The run is a usage error exactly when the input is missing, or the output is missing outside `--fix` alone. It exits 0 after validating exactly with `--fix` and no `--watch`. It watches exactly when both directories and `--watch` are given, with the resolved formats and `--fix` as its mode. |
| LibIndex.MissingInputIsUsageError | lib/index.js:176-179 | Without an input directory, nothing runs and the run exits 1. |
| LibIndex.FixOnlyValidates | lib/index.js:183-189 | `--fix` without `--watch` validates the input once and exits 0, whatever the output argument is. |
| LibIndex.FixWatchNeedsOutput | lib/index.js:183-194 | `--fix --watch` without an output directory validates and then exits 1. |
| LibIndex.FixWatchValidatesThenWatches | lib/index.js:183-212 | `--fix --watch` with both directories validates once, builds nothing, and watches in syntax-check mode. |
| LibIndex.UsageErrorBeforeOutput | lib/index.js:176-194 | A usage error comes before any directory is ensured or any build runs, and it happens only when a directory argument is missing. |
| LibIndex.ExitOneIffMissingDir | lib/index.js:176-194 | The exit status is 1 if and only if the input is missing, or the output is missing while the mode needs it. |
| LibIndex.BuildRunOrder | lib/index.js:196-208 | Without `--fix`, each resolved format in order gets validate, ensure `outputDir/fmt`, build. The run watches afterwards exactly when `--watch` was given. |
| LibIndex.FixRunWritesNothing | lib/index.js:183-206 | With `--fix`, a run writes no file and creates no directory. |
| LibIndex.RunBuildsEveryFormat | lib/index.js:196-206 | A build run writes, for every resolved format f, each eligible compiling file of the tree at `outputDir/f/<mapped path>`. |
| LibIndex.RunWritesOnlyOutputs | lib/index.js:164-206 | Only a build run with both directories creates files. Each one is, for some resolved format f, the mapped output of an eligible file of the tree under `outputDir/f`, or its map. |
| LibIndex.UsageErrorWritesNothing | lib/index.js:176-194 | A run that ends in a usage error has written no file and created no directory. |
| LibIndex.Run | lib/index.js:164-237 | The run ends as planned and leaves the host as performing the planned steps does. |
| LibIndex.Changed | lib/index.js:212-235 | A change event never removes a file or a directory, and only appends to the console. |
| LibIndex.OnChange | lib/index.js:212-235 | One change event leaves the host as the handler's specification says. |
| LibIndex.ChangeIgnoresOtherFiles | lib/index.js:213 | A change to a file that is not `.js` or `.ts` does nothing, and those are exactly the ignored files. |
| LibIndex.FixModeChangeWritesNothing | lib/index.js:216-217 | In fix mode a change writes no file, creates no directory and prints at most one verdict. |
| LibIndex.ChangeTouchesOnlyOutputs | lib/index.js:219-233 | A change leaves every file other than the selected formats' outputs and maps unchanged. |
| LibIndex.ChangeWritesEachFormat | lib/index.js:219-233 | Every selected format whose compile succeeds ends up holding the new code at `outputDir/fmt/rel`, with the last ".ts" rewritten. |
| LibIndex.ChangeOutputMatchesBuild | lib/index.js:224-229 | The handler writes where the full build would exactly when no directory on the path ends in ".ts". |
| LibIndex.ChangeReadsBuildSource | lib/index.js:232 | On a tree with distinct names, the file the handler reads is the one the full build visits at that path. |
| SrcBesmin.LoneEsmIsJustEsm | src/besmin.js:128 | The rejection test holds exactly when the selection is `[esm]`. |
| SrcBesmin.PlanOf | src/besmin.js:117-146 | The run is a usage error, with no steps, exactly when the selection is `[esm]` or a directory is missing. It never exits early with 0. It watches exactly when it is not a usage error and `--watch` is given, with the resolved formats. |
| SrcBesmin.ExplicitEsmRejected | src/besmin.js:128-130 | An explicit lone `esm` argument is a usage error before anything runs. |
| SrcBesmin.DefaultEsmBuilt | src/besmin.js:132-144 | With both directories and no format argument, the run builds esm: validate, ensure `outputDir/esm`, build. |
| SrcBesmin.MissingDirIsUsageError | src/besmin.js:133-135 | A missing input or output directory is a usage error before anything runs. |
| SrcBesmin.BuildRunOrder | src/besmin.js:137-146 | Each resolved format in order gets validate, ensure, build. The run watches afterwards exactly when `--watch` was given. |
| SrcBesmin.AgreesWithLibIndex | src/besmin.js:117-147 | Without `--fix` and without a lone explicit `esm`, both scripts plan the same steps and the same ending. |
| SrcBesmin.RunBuildsEveryFormat | src/besmin.js:132-144 | A legacy build run writes, for every resolved format f, each `.js` file of the tree that compiles at `outputDir/f/<same relative path>`. |
| SrcBesmin.RunWritesOnlyOutputs | src/besmin.js:117-146 | Only a run that is not a usage error creates files. Each one is some resolved format's copy of a `.js` file of the tree, or its map. |
| SrcBesmin.Run | src/besmin.js:117-147 | The run ends as planned and leaves the host as performing the planned steps with the legacy options does. |
| SrcBesmin.Changed | src/besmin.js:103-114 | A change event never removes a file or a directory, and only appends to the console. |
| SrcBesmin.OnChange | src/besmin.js:103-114 | One change event leaves the host as the legacy handler's specification says. |
| SrcBesmin.ChangeWritesEachFormat | src/besmin.js:107-113 | Every format whose compile succeeds ends up holding the new code at `outputDir/fmt/rel`, with no renaming and no extension filter. |
| SrcBesmin.ChangeTouchesOnlyOutputs | src/besmin.js:107-113 | A change leaves every file other than the formats' outputs and maps unchanged. |
| SrcBesmin.ChangeOutputMatchesBuild | src/besmin.js:88-109 | The legacy handler always writes where the legacy full build writes the same file. |
| Store.Host.OutputFile | lib/index.js:81 | `outputFile` sets the file's content and creates every missing parent directory; nothing else changes. |
| Store.Host.EnsureDir | lib/index.js:203 | `ensureDir` creates the directory and its parents; nothing else changes. |
| Store.Host.Print | lib/index.js:84 | A console line is appended to the log; nothing else changes. |

## Left out

- Babel and Terser themselves are opaque function values. What they
  compute is not modelled: presets, plugins, `filename`-driven TypeScript
  detection inside Babel, minification, and source-map contents and
  composition.
- Console output other than the per-file verdicts is not modelled. That
  covers the "Starting", "Validating", "Watching" and "Changed" lines, the
  usage text and the error message that follows an input error. The log
  records which path got which kind of verdict.
- Filesystem failures are not modelled:
  - A `readdir` or `stat` rejection (for example `stat` of a dangling
    symbolic link, which it follows) escapes `main` as an unhandled
    rejection.
  - A failing `outputFile` is swallowed inside `processFile`'s catch.
    A failing `ensureDir` is not:
    - every call (lib/index.js:203, lib/index.js:231, src/besmin.js:111,
      src/besmin.js:142) is outside that catch;
    - its rejection escapes `main` or the change handler unhandled.
    In the model, both always succeed.
  - A file standing where a directory must be created is not modelled
    either.
- `Pipeline.ProcessFile` treats the code write, the map write and the
  "Output Ok" line as one unit. In the source, a failing map write after a
  successful code write would leave the code without its map and print
  nothing.
- The input tree is a fixed value during a run. Outputs written inside the
  input directory are not seen by the rest of the walk, and concurrent
  modification is out of scope.
- chokidar is not modelled: the dotfile `ignored` pattern, persistence,
  event coalescing, and the concurrency of overlapping asynchronous
  handlers. One `change` event is one call of `OnChange`, and the tree
  passed in is the tree at that moment.
- `Orchestrator.Beneath`: the changed path is assumed to lie strictly
  below the watched root. Paths are segment sequences, with no
  normalisation of '.', '..', duplicate separators, absolute vs relative
  paths or Windows separators.
- `Paths.Extname` follows Node's rule (the suffix from the last '.',
  ignoring a dot at index 0). It works on the single file name, not on
  the full path: `lib/index.js:213` passes a full path, but its last
  segment determines the result.
- The unused `watchAndBuild` function of the current script
  (lib/index.js:138-162) is not modelled. The handler `main` registers
  (lib/index.js:212-235) is.
- `processFile`'s `isInputPath` flag is kept as a parameter. No call site
  passes `true` (the full build passes `false`, the handlers rely on the
  default), so the model's entry points always pass false.
- A registry lookup with a key outside the five cannot be expressed,
  because formats are a datatype. Parsing (`Formats.Parse`) is where
  unknown strings are dropped.
- `process.exit` and the lifetime of the watcher are modelled as the
  plan's `Ending` and are not performed.
