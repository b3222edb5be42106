/**
 * The property store as `ClientOptionsHandler` reads it, `compilerProps(lang, key)`,
 * the key names it builds, and the unseen helpers the builders call.
 */
module Properties {
  import opened Wrappers
  import opened JsValues
  import opened Sorting

  /**
   * The per-language property store. Texts and flags are two views of it:
   * the loader that turns configuration texts into booleans is not part of
   * this model, so the builders read flag-valued keys through `flag`.
   */
  datatype Props = Props(
    text: (string, string) -> Option<string>,
    flag: (string, string) -> Option<bool>)

  /**
   * What the catalogue builders depend on besides the store: `splitArguments`
   * (argument splitting; its input may be undefined), `path.delimiter`,
   * `fs.existsSync` and the version comparison used when sorting.
   */
  datatype ParseEnv = ParseEnv(
    props: Props,
    splitArguments: Option<string> -> seq<string>,
    pathDelimiter: char,
    fileExists: string -> bool,
    versionCmp: VersionCmp)

  /** Truthiness of an optional text: defined and not empty. */
  predicate Present(v: Option<string>) {
    v.Some? && v.value != ""
  }

  /**
   * The languages a per-language list (`libs`, `tools`) is read for: a
   * non-empty language id whose list is defined and not empty.
   */
  predicate Listed(perLang: map<string, Option<string>>, lang: string) {
    lang in perLang && lang != "" && Present(perLang[lang])
  }

  /** `libs.<lib>.<field>` */
  function LibKey(lib: string, field: string): string {
    "libs." + lib + "." + field
  }

  /** `libs.<lib>.versions.<version>.<field>` */
  function VersionKey(lib: string, version: string, field: string): string {
    "libs." + lib + ".versions." + version + "." + field
  }

  /** `tools.<tool>.<field>` */
  function ToolKey(tool: string, field: string): string {
    "tools." + tool + "." + field
  }

  /**
   * `splitIntoArray(input, default)`: the default when the input is unset or
   * empty, otherwise the input's `:`-separated parts.
   */
  function SplitIntoArray(input: Option<string>, default: seq<string>): (r: seq<string>)
    ensures !Present(input) ==> r == default
    ensures Present(input) ==> 1 <= |r| && Join(r, ':') == input.value
  {
    if Present(input) then
      JoinSplit(input.value, ':');
      Split(input.value, ':')
    else default
  }
}
