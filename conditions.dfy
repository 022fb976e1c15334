/** The checks made before a run: whether it may start, and if not, which check stops it and
    with what exit status. */
module Conditions {
  import opened Wrappers
  import opened Strings
  import opened Settings

  /** Why the program stops before touching any file, in the order the checks are made. */
  datatype Stop = MissingExifTool | ShowVersion | NotADirectory | NotWritable | NoExtensions | QuietAndVerbose

  /** The exit status: 0 after printing the version, 1 for every error. */
  function StopCode(s: Stop): (code: int)
    ensures code == 0 <==> s == ShowVersion
    ensures code == 0 || code == 1
  {
    if s == ShowVersion then 0 else 1
  }

  /** At least one extension that is not blank: `cfg.extensions` is not empty and not all of its
      entries strip to "". */
  predicate HasExtension(extensions: seq<string>) {
    |extensions| > 0 && exists i :: 0 <= i < |extensions| && !IsBlank(extensions[i])
  }

  /** `check_conditions`: `exiftool` says whether `exiftool -ver` runs, `isDir` whether the source
      directory is a directory; the first check that fails stops the program. */
  function CheckConditions(cfg: Config, exiftool: bool, isDir: bool): (r: Option<Stop>)
    ensures r.None? <==>
      exiftool && !cfg.showVersion && isDir && cfg.sourceDirWritable
      && HasExtension(cfg.extensions) && !(cfg.quiet && cfg.verbose)
    ensures |cfg.extensions| == 0 ==> r.Some?
    ensures (forall i :: 0 <= i < |cfg.extensions| ==> IsBlank(cfg.extensions[i])) ==> r.Some?
    ensures cfg.quiet && cfg.verbose ==> r.Some?
  {
    if !exiftool then Some(MissingExifTool)
    else if cfg.showVersion then Some(ShowVersion)
    else if !isDir then Some(NotADirectory)
    else if !cfg.sourceDirWritable then Some(NotWritable)
    else if !HasExtension(cfg.extensions) then Some(NoExtensions)
    else if cfg.quiet && cfg.verbose then Some(QuietAndVerbose)
    else None
  }

  /** Every check that fails, in the order of the checks. */
  function Failures(cfg: Config, exiftool: bool, isDir: bool): seq<Stop> {
    (if exiftool then [] else [MissingExifTool])
    + (if cfg.showVersion then [ShowVersion] else [])
    + (if isDir then [] else [NotADirectory])
    + (if cfg.sourceDirWritable then [] else [NotWritable])
    + (if HasExtension(cfg.extensions) then [] else [NoExtensions])
    + (if cfg.quiet && cfg.verbose then [QuietAndVerbose] else [])
  }

  /** The program stops at the first check that fails, and runs when none does. */
  lemma FirstFailureStops(cfg: Config, exiftool: bool, isDir: bool)
    ensures var f := Failures(cfg, exiftool, isDir);
      CheckConditions(cfg, exiftool, isDir) == if |f| == 0 then None else Some(f[0])
  {
  }

  /** The version request ends the program with status 0 once the tool is found, whatever the
      other settings; every other stop has status 1. */
  lemma VersionExitsCleanly(cfg: Config, exiftool: bool, isDir: bool)
    ensures var r := CheckConditions(cfg, exiftool, isDir);
      r.Some? ==> (StopCode(r.value) == 0 <==> exiftool && cfg.showVersion)
  {
  }
}
