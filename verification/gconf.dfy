/** The configuration registry, reduced to what the library reads: typed keys
    with GConf's defaults for unset keys, and the list of application
    directories under the registry root. */
module Gconf {
  import opened Optional
  import opened Config

  /** A snapshot of the registry. `dirs` is what listing the sub-directories of
      the registry root returns, as full paths, in listing order. */
  datatype Registry = Registry(
    ints: map<string, int>,
    bools: map<string, bool>,
    strings: map<string, string>,
    dirs: seq<string>)

  /** Reading an unset integer key yields 0. */
  function GetInt(r: Registry, key: string): int {
    if key in r.ints then r.ints[key] else 0
  }

  /** Reading an unset boolean key yields false. */
  function GetBool(r: Registry, key: string): bool {
    key in r.bools && r.bools[key]
  }

  /** Reading an unset string key yields NULL. */
  function GetString(r: Registry, key: string): Option<string> {
    if key in r.strings then Some(r.strings[key]) else None
  }

  /** The key `<root>/<app><suffix>`. Concatenation stops at a NULL
      application name, leaving `<root>/`. */
  function AppKey(app: Option<string>, suffix: string): string {
    match app
    case None => AppsDir + "/"
    case Some(a) => AppsDir + "/" + a + suffix
  }
}
