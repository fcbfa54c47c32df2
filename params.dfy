/**
 * The run-time parameters of the MapdbLookup processing resource and the
 * errors its operations raise.
 */
module Params {
  import opened Base
  import opened MapDb

  /** How the MapDB file is opened; it changes performance, never results. */
  datatype LoadingMode = MemoryMapped | FileOnly

  /** The parameters. A null string parameter is the empty string here: the
      processor treats null and "" alike for all the names it tests. A null
      loading mode is None. `mapDbFile` stands for the file at mapDbFileUrl. */
  datatype Config = Config(
    inputASName: string,
    inputType: string,
    containingType: string,
    keyFeature: string,
    valueFeature: string,
    loadingMode: Option<LoadingMode>,
    mapDbFile: DbFile,
    mapName: string)

  /** The parameter defaults the resource declares. */
  function Defaults(file: DbFile): Config {
    Config("", "Lookup", "", "", "value", Some(MemoryMapped), file, "map")
  }

  /** The exceptions: the empty input type and interruption
      (GateRuntimeException), a non-string key feature (ClassCastException),
      a lookup without a map (NullPointerException) and a missing named map. */
  datatype Error = EmptyInputType | Interrupted | KeyNotString | NullMap | MapMissing

  /** How a call ends: normally, or with an exception. */
  datatype Outcome = Pass | Fail(error: Error)
}
