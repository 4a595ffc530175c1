/**
 * The foreign engines behind the build: Babel's `transformSync` and
 * Terser's `minify`, as opaque functions, together with the option values
 * handed to them.
 */
module Engines {
  import opened Wrappers
  import opened Paths

  type Text = string

  /** A Babel preset as configured by the scripts: preset-env with its options, or preset-typescript. */
  datatype Preset = Env(modules: Option<bool>, targets: string) | TypeScript

  /** The four module-interop plugins. */
  datatype Plugin = ModulesCommonjs | ModulesSystemjs | ModulesAmd | ModulesUmd

  /** One entry of the format registry: the presets and the plugins it passes to Babel. */
  datatype Profile = Profile(presets: seq<Preset>, plugins: seq<Plugin>)

  /** The options object of one `transformSync` call. */
  datatype TransformOptions = TransformOptions(profile: Profile, filename: Option<Path>, sourceMaps: bool)

  /**
   * What `transformSync` does: return code, return null (a file its
   * configuration ignores), or throw (a syntax error).
   */
  datatype TransformOutcome = Transformed(code: Text) | NoResult | Threw

  /** What `minify` does: resolve to code and perhaps a source map, or reject. */
  datatype MinifyOutcome = Minified(code: Text, sourceMap: Option<Text>) | MinifyThrew

  /** The two engines as uninterpreted, deterministic functions. */
  datatype Engines = Engines(
    transform: (Text, TransformOptions) -> TransformOutcome,
    minify: Text -> MinifyOutcome)
}
