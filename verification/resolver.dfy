/** Choosing the conda-compatible executable (`_determine_conda_executable`,
    `determine_conda_executable`, `is_micromamba`). The filesystem test,
    `shutil.which` and `ensureconda` are the oracle functions of `Tools`; the
    process environment is a map returned updated, and the directory the
    resolver creates is returned rather than made. */
module Resolver {
  import opened Wrappers
  import opened Text
  import opened Environment

  /** The variable micromamba reads its root prefix from. */
  const RootPrefixVariable: string := "MAMBA_ROOT_PREFIX"

  /** The directory created beside a micromamba executable. */
  const RootDirName: string := "mamba_root"

  /** The outside world the resolver consults:
      - `pathExists`: `pathlib.Path(p).exists()`,
      - `which`: `shutil.which(p)`,
      - `ensureconda`: `ensureconda.ensureconda(mamba, micromamba, conda, conda_exe)`. */
  datatype Tools = Tools(
    pathExists: string -> bool,
    which: string -> Option<string>,
    ensureconda: (bool, bool, bool, bool) -> Option<string>)

  /** `is_micromamba`: the path ends in `micromamba` or `micromamba.exe`. */
  predicate IsMicromamba(path: string) {
    EndsWith(path, "micromamba") || EndsWith(path, "micromamba.exe")
  }

  /** Executables named `micromamba` or `micromamba.exe` are micromamba,
      whatever directory they are in; `conda`, `mamba` and `mamba.exe` are not. */
  lemma MicromambaByName(dir: string)
    requires dir == [] || dir[|dir| - 1] == '/'
    ensures IsMicromamba(dir + "micromamba") && IsMicromamba(dir + "micromamba.exe")
    ensures !IsMicromamba(dir + "conda") && !IsMicromamba(dir + "mamba")
      && !IsMicromamba(dir + "mamba.exe")
  {
    assert (dir + "micromamba")[|dir|..] == "micromamba";
    assert (dir + "micromamba.exe")[|dir|..] == "micromamba.exe";
    var c := dir + "conda";
    assert c[|c| - 1] == 'a' && c[|c| - 5] == 'c';
    if |c| >= 10 {
      assert c[|c| - 10..][5] == c[|c| - 5];
    }
    var m := dir + "mamba";
    assert m[|m| - 1] == 'a';
    if |m| >= 10 {
      assert m[|m| - 10..][4] == m[|m| - 6] == '/';
    }
    var e := dir + "mamba.exe";
    assert e[|e| - 1] == 'e' && e[|e| - 5] == 'a';
    if |e| >= 14 {
      assert e[|e| - 14..][4] == e[|e| - 10] == '/';
    }
  }

  /** The candidates `_determine_conda_executable` yields, in order: the
      explicit path if it exists, then what `which` makes of it (both only
      when an explicit, non-empty path is given), then what `ensureconda`
      finds, always asked for conda and the standalone conda as well. */
  function Candidates(explicit: Option<string>, mamba: bool, micromamba: bool, tools: Tools)
    : (cs: seq<Option<string>>)
    ensures 1 <= |cs| <= 3
    ensures cs[|cs| - 1] == tools.ensureconda(mamba, micromamba, true, true)
    ensures explicit.None? || explicit.value == [] ==> |cs| == 1
    ensures explicit.Some? && explicit.value != [] && tools.pathExists(explicit.value) ==>
      cs[0] == explicit
    ensures explicit.Some? && explicit.value != [] ==>
      && |cs| >= 2
      && cs[|cs| - 2] == tools.which(explicit.value)
      && (|cs| == 3 <==> tools.pathExists(explicit.value))
  {
    var fromExplicit :=
      if explicit.Some? && explicit.value != [] then
        (if tools.pathExists(explicit.value) then [explicit] else []) + [tools.which(explicit.value)]
      else [];
    fromExplicit + [tools.ensureconda(mamba, micromamba, true, true)]
  }

  /** The first candidate that is not `None`, if any. */
  function FirstFound(cs: seq<Option<string>>): (r: Option<string>)
    ensures r.None? <==> forall i :: 0 <= i < |cs| ==> cs[i].None?
    ensures r.Some? ==> exists i :: 0 <= i < |cs| && cs[i] == r && forall j :: 0 <= j < i ==> cs[j].None?
    decreases |cs|
  {
    if cs == [] then None
    else if cs[0].Some? then cs[0]
    else
      var r := FirstFound(cs[1..]);
      assert forall i :: 1 <= i < |cs| ==> cs[i] == cs[1..][i - 1];
      r
  }

  /** Number of leading characters of `path` up to and including its last `/`
      (zero when it has none): the directory part of the path. */
  function DirLength(path: string): (n: nat)
    ensures n <= |path|
    ensures n == 0 || path[n - 1] == '/'
    ensures forall i :: n <= i < |path| ==> path[i] != '/'
    decreases |path|
  {
    if path == [] then 0
    else if path[|path| - 1] == '/' then |path|
    else DirLength(path[..|path| - 1])
  }

  /** `pathlib.Path(path).parent / "mamba_root"` for a POSIX path: the
      directory part of `path` followed by `mamba_root`. */
  function RootPrefixFor(path: string): string {
    path[..DirLength(path)] + RootDirName
  }

  /** The directory part of `dir + base` is `dir` when `dir` is empty or
      ends in `/` and `base` has no `/`. */
  lemma {:induction false} DirLengthOfJoin(dir: string, base: string)
    requires dir == [] || dir[|dir| - 1] == '/'
    requires forall i :: 0 <= i < |base| ==> base[i] != '/'
    ensures DirLength(dir + base) == |dir|
    decreases |base|
  {
    if base == [] {
      assert dir + base == dir;
      if dir != [] {
        assert dir[|dir| - 1] == '/';
      }
    } else {
      var shorter := base[..|base| - 1];
      DirLengthOfJoin(dir, shorter);
      assert (dir + base)[..|dir + base| - 1] == dir + shorter;
      assert (dir + base)[|dir + base| - 1] == base[|base| - 1];
    }
  }

  /** The root prefix lies in the executable's own directory: for an
      executable `dir + base` with a last component `base`, it is
      `dir + "mamba_root"`. */
  lemma RootPrefixBesideExecutable(dir: string, base: string)
    requires dir == [] || dir[|dir| - 1] == '/'
    requires base != []
    requires forall i :: 0 <= i < |base| ==> base[i] != '/'
    ensures RootPrefixFor(dir + base) == dir + RootDirName
  {
    DirLengthOfJoin(dir, base);
    assert (dir + base)[..|dir|] == dir;
  }

  /** A question resolution puts to the outside world. */
  datatype Probe = AskedExists(path: string) | AskedWhich(path: string) | AskedEnsureconda

  /** The questions the lazy candidate generator is asked, in order, when its
      consumer stops at the first candidate found: `which` only for an
      explicit path that does not exist, and `ensureconda` (which may install
      an executable) only when no explicit candidate was found. */
  function Probes(explicit: Option<string>, mamba: bool, micromamba: bool, tools: Tools)
    : (ps: seq<Probe>)
    ensures 1 <= |ps| <= 3
    ensures var cs := Candidates(explicit, mamba, micromamba, tools);
      AskedEnsureconda in ps <==> forall i :: 0 <= i < |cs| - 1 ==> cs[i].None?
    ensures explicit.Some? && explicit.value != [] ==>
      && ps[0] == AskedExists(explicit.value)
      && (AskedWhich(explicit.value) in ps <==> !tools.pathExists(explicit.value))
    ensures explicit.None? || explicit.value == [] ==> ps == [AskedEnsureconda]
    ensures var cs := Candidates(explicit, mamba, micromamba, tools);
      AskedEnsureconda in ps ==> ps[|ps| - 1] == AskedEnsureconda && FirstFound(cs) == cs[|cs| - 1]
  {
    if explicit.Some? && explicit.value != [] then
      var path := explicit.value;
      if tools.pathExists(path) then [AskedExists(path)]
      else if tools.which(path).Some? then [AskedExists(path), AskedWhich(path)]
      else [AskedExists(path), AskedWhich(path), AskedEnsureconda]
    else [AskedEnsureconda]
  }

  /** What resolution yields: the executable, the environment afterwards,
      the directories created on the way, and the questions asked. */
  datatype Resolution = Resolution(executable: string, env: Env, created: seq<string>, asked: seq<Probe>)

  /** The error resolution raises when no candidate is found. */
  datatype ResolveError = NotFound

  /** `determine_conda_executable`: the first candidate found; for a
      micromamba executable without a root prefix in the environment, a
      `mamba_root` directory beside it becomes the root prefix. */
  function Determine(explicit: Option<string>, mamba: bool, micromamba: bool, tools: Tools, env: Env)
    : (r: Result<Resolution, ResolveError>)
    ensures r.Failure? <==> forall i :: 0 <= i < |Candidates(explicit, mamba, micromamba, tools)| ==>
      Candidates(explicit, mamba, micromamba, tools)[i].None?
    ensures r.Success? ==> FirstFound(Candidates(explicit, mamba, micromamba, tools)) == Some(r.value.executable)
    ensures r.Success? ==>
      var exe := r.value.executable;
      var setsRoot := IsMicromamba(exe) && RootPrefixVariable !in env;
      && (setsRoot ==> r.value.env == env[RootPrefixVariable := RootPrefixFor(exe)]
                       && r.value.created == [RootPrefixFor(exe)])
      && (!setsRoot ==> r.value.env == env && r.value.created == [])
    ensures r.Success? ==> r.value.asked == Probes(explicit, mamba, micromamba, tools)
  {
    var asked := Probes(explicit, mamba, micromamba, tools);
    match FirstFound(Candidates(explicit, mamba, micromamba, tools))
    case None => Failure(NotFound)
    case Some(exe) =>
      if IsMicromamba(exe) && RootPrefixVariable !in env then
        var root := RootPrefixFor(exe);
        Success(Resolution(exe, env[RootPrefixVariable := root], [root], asked))
      else
        Success(Resolution(exe, env, [], asked))
  }

  /** Resolution touches no variable but the root prefix, and never replaces
      a root prefix that is already set. */
  lemma DetermineKeepsEnvironment(explicit: Option<string>, mamba: bool, micromamba: bool,
                                  tools: Tools, env: Env)
    ensures var r := Determine(explicit, mamba, micromamba, tools, env);
      r.Success? ==>
        && r.value.env.Keys == env.Keys + (if IsMicromamba(r.value.executable) then {RootPrefixVariable} else {})
        && (forall k :: k in env ==> k in r.value.env && r.value.env[k] == env[k])
        && (RootPrefixVariable in r.value.env ==>
              RootPrefixVariable in env || r.value.env[RootPrefixVariable] == RootPrefixFor(r.value.executable))
  {
  }

  /** An explicit path that exists is chosen as is: `which` and `ensureconda`
      are never consulted, so any other answers from them change nothing. */
  lemma ExistingExplicitPathWins(path: string, mamba: bool, micromamba: bool,
                                 tools: Tools, other: Tools, env: Env)
    requires path != [] && tools.pathExists(path) && other.pathExists(path)
    ensures var r := Determine(Some(path), mamba, micromamba, tools, env);
      r.Success? && r.value.executable == path
      && r.value.asked == [AskedExists(path)]
      && r == Determine(Some(path), mamba, micromamba, other, env)
  {
  }

  /** An explicit path that does not exist is looked up on `PATH`, and what
      `which` finds is used without asking `ensureconda`. */
  lemma WhichUsedWhenPathMissing(path: string, found: string, mamba: bool, micromamba: bool,
                                 tools: Tools, env: Env)
    requires path != [] && !tools.pathExists(path) && tools.which(path) == Some(found)
    ensures var r := Determine(Some(path), mamba, micromamba, tools, env);
      r.Success? && r.value.executable == found
      && AskedWhich(path) in r.value.asked && AskedEnsureconda !in r.value.asked
  {
  }

  /** An explicit path that neither exists nor is found on `PATH` leaves the
      choice to `ensureconda`. */
  lemma UnknownPathAsksEnsureconda(path: string, mamba: bool, micromamba: bool,
                                   tools: Tools, env: Env)
    requires path != [] && !tools.pathExists(path) && tools.which(path).None?
    ensures var r := Determine(Some(path), mamba, micromamba, tools, env);
      && (r.Success? <==> tools.ensureconda(mamba, micromamba, true, true).Some?)
      && (r.Success? ==> Some(r.value.executable) == tools.ensureconda(mamba, micromamba, true, true))
  {
  }

  /** Without an explicit path, the result is whatever `ensureconda` finds. */
  lemma NoExplicitPathAsksEnsureconda(mamba: bool, micromamba: bool, tools: Tools, env: Env)
    ensures var r := Determine(None, mamba, micromamba, tools, env);
      (r.Success? <==> tools.ensureconda(mamba, micromamba, true, true).Some?)
      && (r.Success? ==> r.value.executable == tools.ensureconda(mamba, micromamba, true, true).value)
  {
    var cs := Candidates(None, mamba, micromamba, tools);
    assert |cs| == 1;
  }

  /** Resolving again in the environment resolution left behind changes
      nothing further: the root prefix is set at most once. */
  lemma DetermineIdempotent(explicit: Option<string>, mamba: bool, micromamba: bool,
                            tools: Tools, env: Env)
    ensures var r := Determine(explicit, mamba, micromamba, tools, env);
      r.Success? ==>
        var again := Determine(explicit, mamba, micromamba, tools, r.value.env);
        again.Success? && again.value.executable == r.value.executable
        && again.value.env == r.value.env && again.value.created == []
  {
  }
}
