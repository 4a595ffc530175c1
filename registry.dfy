/**
 * The `babelOptions` registry of the two build scripts, and the other
 * option objects they pass to Babel.
 */
module Registry {
  import opened Wrappers
  import opened Paths
  import opened Engines
  import opened Formats

  /** Which build script: lib/index.js (with TypeScript) or the older src/besmin.js. */
  datatype Variant = Current | Legacy

  /** The preset-env options every registry entry shares. */
  const SharedEnv: Preset := Env(Some(false), "> 0.5%, not dead")

  /** The module-interop plugin of a format: none for `esm`, one of its own for each other format. */
  function Plugins(f: Format): (ps: seq<Plugin>)
    ensures |ps| <= 1
    ensures ps == [] <==> f == Esm
  {
    match f
    case Esm => []
    case Cjs => [ModulesCommonjs]
    case Sysjs => [ModulesSystemjs]
    case Amd => [ModulesAmd]
    case Umd => [ModulesUmd]
  }

  /** Distinct formats never share a plugin list. */
  lemma PluginsInjective(f: Format, g: Format)
    ensures Plugins(f) == Plugins(g) ==> f == g
  {
  }

  /** The registry entry of a format in each script. */
  function ProfileFor(v: Variant, f: Format): (p: Profile)
    ensures p.plugins == Plugins(f)
    ensures p.presets != [] && p.presets[0] == SharedEnv
    ensures TypeScript in p.presets <==> v == Current
  {
    match v
    case Current => Profile([SharedEnv, TypeScript], Plugins(f))
    case Legacy => Profile([SharedEnv], Plugins(f))
  }

  /** All five entries of one script use the same presets. */
  lemma ProfilesSharePresets(v: Variant, f: Format, g: Format)
    ensures ProfileFor(v, f).presets == ProfileFor(v, g).presets
    ensures ProfileFor(v, f) == ProfileFor(v, g) ==> f == g
  {
  }

  /**
   * The options of the build transform: the profile, source maps on, and
   * (lib/index.js only) the input file name.
   */
  function BuildOptions(v: Variant, input: Path, f: Format): (o: TransformOptions)
    ensures o.profile.plugins == Plugins(f) && o.sourceMaps
    ensures TypeScript in o.profile.presets <==> v == Current
    ensures o.filename.Some? <==> v == Current
    ensures o.filename.Some? ==> o.filename.value == input
  {
    TransformOptions(ProfileFor(v, f), if v == Current then Some(input) else None, true)
  }

  /** The options of `syntaxWithBabel`: no plugin, no source map, a looser env target. */
  function CheckOptions(v: Variant, input: Path): (o: TransformOptions)
    ensures o.profile.plugins == [] && !o.sourceMaps
    ensures o.profile.presets != [] && o.profile.presets[0] == Env(None, "> 0.5%")
    ensures TypeScript in o.profile.presets <==> v == Current
    ensures o.filename.Some? <==> v == Current
    ensures o.filename.Some? ==> o.filename.value == input
  {
    match v
    case Current => TransformOptions(Profile([Env(None, "> 0.5%"), TypeScript], []), Some(input), false)
    case Legacy => TransformOptions(Profile([Env(None, "> 0.5%")], []), None, false)
  }
}
