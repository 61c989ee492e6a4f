/** The process-wide package cache directory (`conda_pkgs_dir`): a temporary
    directory created on the first call and returned unchanged ever after.
    The module-level variable is threaded through explicitly as `cache`,
    and the name the temporary directory would get is the parameter `tempDir`. */
module PackageCache {
  import opened Wrappers

  /** One call of `conda_pkgs_dir`: the directory returned and the cache
      afterwards. An unset cache takes the new temporary directory; a set one is
      returned as it is. */
  function CondaPkgsDir(cache: Option<string>, tempDir: string): (r: (string, Option<string>))
    ensures r.1 == Some(r.0)
    ensures cache.Some? ==> r.0 == cache.value && r.1 == cache
    ensures cache.None? ==> r.0 == tempDir
  {
    match cache
    case Some(dir) => (dir, cache)
    case None => (tempDir, Some(tempDir))
  }

  /** The directories returned by successive calls, the i-th call being
      offered `tempDirs[i]` as the name of a new temporary directory. */
  function Calls(cache: Option<string>, tempDirs: seq<string>): (dirs: seq<string>)
    ensures |dirs| == |tempDirs|
    decreases |tempDirs|
  {
    if tempDirs == [] then []
    else
      var r := CondaPkgsDir(cache, tempDirs[0]);
      [r.0] + Calls(r.1, tempDirs[1..])
  }

  /** Write-once: every call returns the directory the first call returned,
      whatever names later calls are offered. */
  lemma {:induction false} CallsAgree(cache: Option<string>, tempDirs: seq<string>)
    requires tempDirs != []
    ensures var first := if cache.Some? then cache.value else tempDirs[0];
      forall i :: 0 <= i < |tempDirs| ==> Calls(cache, tempDirs)[i] == first
    decreases |tempDirs|
  {
    var r := CondaPkgsDir(cache, tempDirs[0]);
    var dirs := Calls(cache, tempDirs);
    if |tempDirs| > 1 {
      CallsAgree(r.1, tempDirs[1..]);
      assert forall i :: 1 <= i < |tempDirs| ==> dirs[i] == Calls(r.1, tempDirs[1..])[i - 1];
    }
  }
}
