# conda-lock's conda invocation layer, in Dafny

This project models `conda_lock/invoke_conda.py` from conda-lock. That module sits between conda-lock and a conda-compatible executable (conda, mamba or micromamba). It contains five small, deterministic algorithms:

- **Stdout filter** (`_process_stdout`). It removes blank lines and repeated progress-bar lines from a conda subprocess's standard output before logging (modules `StdoutFilter` and `StdoutFilterSpec`).
- **Argument builders.**
  - `_invoke_conda` builds the command line and rejects a prefix given together with a name.
  - `_get_conda_flags` builds the channel flags and adds `msys2` after `defaults` for Windows targets.
  - `conda_env_override` builds the environment for package queries.

  These are in module `Invocation`.
- **Executable resolution** (`is_micromamba`, `_determine_conda_executable`, `determine_conda_executable`). It tries an ordered list of candidates. For micromamba, it sets `MAMBA_ROOT_PREFIX` beside the executable when that variable is absent (module `Resolver`).
- **Package cache** (`conda_pkgs_dir`). A write-once temporary directory shared by all queries (module `PackageCache`).
- **Metadata search** (`search_for_md5s`). It runs `conda search --json` for each locked package: first by match spec, then by `url_conda`, then by `url`. Once a package is found, its later queries are skipped (module `MetadataSearch`).

`Wrappers` holds `Option` and `Result`, and `Environment` the environment type. `Text` holds Python's `str.rstrip`, `str.split` and `str.endswith`. Whitespace there is Python's `str.isspace` set, written out code point by code point.

Everything outside the module is a parameter:

- the process environment is a `map<string, string>`;
- `shlex.split` is a function argument that gives the tokens, or `None` where `shlex.split` raises `ValueError` (an unclosed quote, say); that error then propagates out of `_invoke_conda` and `_get_conda_flags`;
- `pathlib.Path.exists`, `shutil.which` and `ensureconda` are the oracle fields of `Resolver.Tools`;
- the answer of `conda search`, already parsed from JSON, is `MetadataSearch.Context.respond`;
- the name of a fresh temporary directory is a parameter.

`search_for_md5s` is a generator whose `assert` can fail after some records have been yielded. It is therefore modelled as a trace of events (each search run, each record yielded) plus the failure that ended it, if any.

Two behaviours of the code that are easy to misread:

- The `assert len(content[name]) == 1` fails for an empty record list as well as for more than one record. `MetadataSearch.SearchError` carries the count, and any count other than one stops the run.
- A package is searched for again by each later query until a search finds it. Only after that are its queries skipped. So a package may be searched for up to three times per spec naming it, not once: two specs with the same name share the skipping, but each contributes its own three queries.

## Model

| member | source | states |
|---|---|---|
| Text.RStrip | conda_lock/invoke_conda.py:105 | `rstrip()` leaves a prefix of the line with no trailing whitespace, and only whitespace is removed |
| Text.RStripEmptyIff | conda_lock/invoke_conda.py:106-110 | a stripped line is empty exactly when the raw line is all whitespace |
| Text.SplitFirstWord | conda_lock/invoke_conda.py:113 | `split()` has no words exactly when the line is all whitespace; the first word is the run of non-space characters after the leading whitespace |
| Text.FirstToken | conda_lock/invoke_conda.py:113 | `split()[0]` of a line that is not all whitespace is a non-empty run of non-space characters of that line |
| StdoutFilter.TokenOf | conda_lock/invoke_conda.py:112-113 | the token of a progress line is non-empty and contains no whitespace |
| StdoutFilter.Step | conda_lock/invoke_conda.py:105-118 | one line of the loop: the banner flag is set once the banner is seen, the leading flag stays set only over blank lines, the token cache only grows, an emitted progress token was not cached before and is cached after, other lines are emitted stripped |
| StdoutFilter.Run | conda_lock/invoke_conda.py:100-118 | at most one output line per input line; every cached token has been emitted |
| StdoutFilter.FilterLines | conda_lock/invoke_conda.py:100-118 | the streaming loop with mutable state produces exactly the fold's output |
| StdoutFilterSpec.StepMatchesExpected | conda_lock/invoke_conda.py:105-118 | one step of the fold agrees with the declarative rule `Expected`, stated over the earlier lines rather than the filter's state |
| StdoutFilterSpec.RunState | conda_lock/invoke_conda.py:101-109 | the filter's state after a prefix is: the tokens of its progress lines, whether the banner occurred, whether every line was blank |
| StdoutFilterSpec.ProcessFollowsReference | conda_lock/invoke_conda.py:100-118 | the output is exactly the `Expected` value of the input lines that emit, in increasing input order, and a line is among them exactly when its rule emits |
| StdoutFilterSpec.EmittedLinesTraceBack | conda_lock/invoke_conda.py:104-118 | every output line is a stripped input line, or the first token of one containing `%`, and outputs follow input order |
| StdoutFilterSpec.ProgressTokensDistinct | conda_lock/invoke_conda.py:112-116 | output lines that come from progress lines are pairwise distinct |
| StdoutFilterSpec.RepeatedProgressDropped | conda_lock/invoke_conda.py:112-116 | a progress line is emitted exactly when no earlier progress line has its token |
| StdoutFilterSpec.BlankLineRule | conda_lock/invoke_conda.py:106-111 | a blank line is emitted exactly when some earlier line was non-blank and no earlier line was the banner; an empty output line comes from a blank input line |
| StdoutFilterSpec.PlainLinesKept | conda_lock/invoke_conda.py:117-118 | every non-blank line without `%` is emitted, stripped, with no de-duplication |
| StdoutFilterSpec.DownloadExample | conda_lock/invoke_conda.py:100-118 | a typical download's output filters to the banner, `50%` once, and `60%` |
| Invocation.ExtraFlags | conda_lock/invoke_conda.py:78-80 | an unset or empty `CONDA_FLAGS` adds no arguments; a non-empty one adds exactly its `shlex.split` tokens, or is the error when it cannot be tokenised |
| Invocation.PairsRoundTrip | conda_lock/invoke_conda.py:142-143 | `flag value` pairs have the flag in every even position and read back to the values they were built from |
| Invocation.InvokeArgv | conda_lock/invoke_conda.py:69-83 | fails exactly when both prefix and name are given (checked first) or `CONDA_FLAGS` cannot be tokenised; otherwise the executable, the command arguments, `--prefix p` or `--name n`, the `CONDA_FLAGS` tokens, and the trailing arguments, each at its position |
| Invocation.SelectedChannels | conda_lock/invoke_conda.py:142-148 | for a non-Windows target the selected channels are exactly the requested ones |
| Invocation.SelectedChannelsWindows | conda_lock/invoke_conda.py:142-148 | for `win-64`/`win-32` every `defaults` is immediately followed by `msys2`, exactly one channel is added per `defaults`, and the `i`-th requested channel sits at position `i` plus the number of `defaults` before it |
| Invocation.WindowsChannelsKept | conda_lock/invoke_conda.py:142-148 | for `win-64`/`win-32` the requested channels keep their order, each shifted by one place per earlier `defaults` |
| Invocation.ChannelArgsArePairs | conda_lock/invoke_conda.py:142-148 | the loop's arguments equal the `--channel` pairs of the selected channels, one requested channel at a time |
| Invocation.ChannelArgsSelect | conda_lock/invoke_conda.py:142-148 | the channel loop produces `--channel` pairs whose values are the selected channels in order |
| Invocation.CondaFlagsLayout | conda_lock/invoke_conda.py:134-149 | fails exactly when `CONDA_FLAGS` cannot be tokenised, with that error; otherwise `CONDA_FLAGS` tokens first, `--override-channels` exactly when channels are given, then `--channel` pairs naming the selected channels |
| Invocation.EnvOverride | conda_lock/invoke_conda.py:121-131 | the environment with exactly the four keys added or replaced by their fixed values (target platform, package cache, `0`, `False`), every other variable kept |
| Resolver.MicromambaByName | conda_lock/invoke_conda.py:163-164 | an executable named `micromamba` or `micromamba.exe` in any directory is micromamba; `conda`, `mamba` and `mamba.exe` are not |
| Resolver.Candidates | conda_lock/invoke_conda.py:40-45 | one to three candidates, the last always `ensureconda` asked also for conda and the standalone conda; only it without a non-empty explicit path; with one, `which` of that path just before `ensureconda`, and the path itself first exactly when it exists |
| Resolver.FirstFound | conda_lock/invoke_conda.py:51-52 | the first candidate that is not `None`, and `None` exactly when all are |
| Resolver.RootPrefixBesideExecutable | conda_lock/invoke_conda.py:54 | the root prefix of `dir/base`, for a non-empty last component `base`, is `dir/mamba_root` |
| Resolver.Probes | conda_lock/invoke_conda.py:39-52 | the questions the lazy generator is asked before its consumer stops: the existence test first for a non-empty explicit path, `which` exactly when that path does not exist, and `ensureconda` exactly when every explicit candidate is `None`, in which case its answer is the result |
| Resolver.Determine | conda_lock/invoke_conda.py:48-59 | fails exactly when no candidate is found; otherwise the first one found; `MAMBA_ROOT_PREFIX` is set beside it, and that directory created, exactly for micromamba when the variable is absent, the environment untouched otherwise; the questions asked are recorded |
| Resolver.DetermineKeepsEnvironment | conda_lock/invoke_conda.py:53-56 | no variable but `MAMBA_ROOT_PREFIX` changes, and an existing root prefix is never replaced |
| Resolver.ExistingExplicitPathWins | conda_lock/invoke_conda.py:40-42 | an existing explicit path is the result, whatever `which` and `ensureconda` would answer, and neither of them is asked |
| Resolver.WhichUsedWhenPathMissing | conda_lock/invoke_conda.py:39-42 | an explicit path that does not exist resolves to what `which` finds for it, when it finds something, and `ensureconda` is not asked |
| Resolver.UnknownPathAsksEnsureconda | conda_lock/invoke_conda.py:39-45 | an explicit path that neither exists nor is found by `which` leaves the result to `ensureconda` |
| Resolver.NoExplicitPathAsksEnsureconda | conda_lock/invoke_conda.py:40-45 | without an explicit path, resolution succeeds exactly when `ensureconda` finds something, and returns it |
| Resolver.DetermineIdempotent | conda_lock/invoke_conda.py:53-58 | resolving again in the resulting environment gives the same executable and changes and creates nothing |
| PackageCache.CondaPkgsDir | conda_lock/invoke_conda.py:152-160 | the cache is set after any call and holds the directory returned; a set cache is returned unchanged; an unset one takes the new temporary directory |
| PackageCache.CallsAgree | conda_lock/invoke_conda.py:152-160 | every call of a sequence returns the directory of the first call |
| MetadataSearch.BracketedNamesPackage | conda_lock/invoke_conda.py:178-193 | a rendered query starts with the package name and `[` and ends with `]` |
| MetadataSearch.Queries | conda_lock/invoke_conda.py:190-194 | three queries per package: every match spec, then every `url_conda` query, then every `url` query, each paired with its package name |
| MetadataSearch.QueriesNamePackages | conda_lock/invoke_conda.py:178-194 | every query is `name[…]` for the package it is searched for |
| MetadataSearch.SearchArgvReadBack | conda_lock/invoke_conda.py:199-202 | the search command is the executable, `search`, one `-c` pair per channel in order, `--json`, and the query |
| MetadataSearch.QueryStepKeepsInvariant | conda_lock/invoke_conda.py:196-217 | one iteration keeps the loop invariants: found names are the yielded names, yields are unique, no search after a yield, every yield answered, one shared package cache |
| MetadataSearch.DriveInvariant | conda_lock/invoke_conda.py:196-217 | the loop invariants hold after any prefix of the queries |
| MetadataSearch.SearchForMd5sSound | conda_lock/invoke_conda.py:167-217 | at most one record per package; no search for a package once found; each record is the single record its search answered for that package; all searches use the same `CONDA_PKGS_DIRS`; what each single query adds is `QueryOutcome` |
| MetadataSearch.QuerySkippedIffFound | conda_lock/invoke_conda.py:196-202 | a query changes nothing exactly when its package was yielded before; otherwise it runs the search for its query |
| MetadataSearch.QueryOutcome | conda_lock/invoke_conda.py:196-216 | a query for a package not yet found adds its search, in the shared cache's environment; then nothing when the answer lacks the package, the single record when it has exactly one, and otherwise the failure with the count |
| MetadataSearch.FailureIsUnexpectedCount | conda_lock/invoke_conda.py:211-214 | a run stops only right after a search whose answer has the package with a count other than one, and the error carries that count; `QueryOutcome` gives the converse, that every such answer fails |
| MetadataSearch.FailureStopsRun | conda_lock/invoke_conda.py:213-214 | after the assertion fails no further query runs |
| MetadataSearch.RunExtends | conda_lock/invoke_conda.py:196-217 | the events of a prefix of the queries are a prefix of the events of the whole run |

## Left out

- Spawning the subprocess, its pipes, forwarding stderr to the log, and every `logging` call (lines 82-97, 189, 203, 212, 215). These are I/O. The model covers only the command line and the stdout filter.
- `shlex.split` is an uninterpreted parameter. Its tokenisation rules, and which inputs make it raise `ValueError`, are not modelled; only that it may fail and that the failure propagates.
- `json.loads` and malformed `conda search` output. The search answer is a parsed map, supplied by `respond`.
- `pathlib.Path.exists`, `shutil.which` and `ensureconda` are oracles. `mkdir` is recorded as the `created` directory rather than performed.
- Resolver.RootPrefixFor: paths are POSIX paths with `/` separators. `pathlib`'s normalisation (repeated or trailing separators, `.` components, Windows drive letters and `\`) is not modelled.
- `tempfile.TemporaryDirectory` and its `atexit` cleanup. The new directory's name is a parameter, and the module-level variable is passed in and returned explicitly.
- The laziness of the generators. `_process_stdout` and `search_for_md5s` are modelled as complete runs over a finite input, and `_determine_conda_executable` as the list of its candidates. The oracles are pure functions, so the result is computed from all candidates. Which of them the lazy code would actually call is recorded separately, in `Resolver.Probes`: `which` only for an explicit path that does not exist, `ensureconda` only when no explicit candidate is found. This matters because `ensureconda` may install an executable. The effect of such an installation is not modelled.
- `_ensureconda` is a pass-through to `ensureconda.ensureconda` and is folded into the `ensureconda` oracle.
- Resolver.DetermineKeepsEnvironment: resolution writes to the live `os.environ`. The model returns the updated map instead, so other code reading the environment in between is not modelled.
