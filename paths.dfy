/**
 * The few `pathlib` operations the core uses, on strings: `base / rel`, `Path(p).name`,
 * and the platform's separators.
 */
module Paths {
  import opened Text

  /** `platform.system() == "Windows"` or not. */
  datatype Platform = Posix | Windows

  /** The directory separator `str(Path)` writes. */
  function Sep(p: Platform): char {
    if p.Windows? then '\\' else '/'
  }

  /** `os.pathsep`, the separator between entries of `PATH`. */
  function PathListSep(p: Platform): string {
    if p.Windows? then ";" else ":"
  }

  /** `rel` without separators at its end. */
  function TrimTrailingSeps(p: Platform, rel: string): (r: string)
    ensures |r| <= |rel| && r == rel[..|r|]
    ensures r == [] || r[|r| - 1] != Sep(p)
  {
    if |rel| > 0 && rel[|rel| - 1] == Sep(p) then TrimTrailingSeps(p, rel[..|rel| - 1]) else rel
  }

  /**
   * Textual join of `base` and `rel` with the platform separator, the part of
   * `str(Path(base) / rel)` the callers rely on: an absolute `rel` replaces `base`, trailing
   * separators of `rel` are dropped, and an empty `rel` leaves `base`. pathlib's normalisation
   * of `base` (`.` segments, doubled or trailing separators, an empty base) is not applied.
   */
  function Join(p: Platform, base: string, rel: string): string {
    var r := TrimTrailingSeps(p, rel);
    if |rel| > 0 && rel[0] == Sep(p) then (if r == [] then [Sep(p)] else r)
    else if r == [] then base
    else base + [Sep(p)] + r
  }

  /** `Path(path).name` on a POSIX path: the last component, ignoring trailing `/`. */
  function Basename(path: string): (name: string)
    ensures '/' !in name
  {
    LastComponent(TrimTrailingSeps(Posix, path))
  }

  function LastComponent(s: string): (name: string)
    ensures '/' !in name
    ensures |name| <= |s| && name == s[|s| - |name|..]
    decreases |s|
  {
    if |s| == 0 || s[|s| - 1] == '/' then []
    else LastComponent(s[..|s| - 1]) + [s[|s| - 1]]
  }
}
