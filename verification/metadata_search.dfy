/** Recovering exact package metadata with `conda search` (`search_for_md5s`).
    Each query runs `conda search --json` in the overridden environment; the
    subprocess and its parsed JSON answer are the oracle `respond`, from the
    command line and environment to a map from package name to the records
    found. The generator is modelled as the trace of what it does: each
    search it runs and each record it yields, in order, and the assertion
    failure that ends it, if any. */
module MetadataSearch {
  import opened Wrappers
  import opened Invocation
  import opened Environment
  import opened PackageCache

  /** The fields of a locked package that the queries use. */
  datatype PackageSpec = PackageSpec(
    name: string, version: string, platform: string, channel: string,
    buildString: string, url: string, urlConda: string)

  /** The constraints of `matchspec`: `version=…,subdir=…,channel=…,build=…`. */
  function Constraints(spec: PackageSpec): string {
    "version=" + spec.version + ",subdir=" + spec.platform
      + ",channel=" + spec.channel + ",build=" + spec.buildString
  }

  /** A package name followed by a bracketed constraint list. */
  function Bracketed(name: string, body: string): string {
    name + "[" + body + "]"
  }

  /** `matchspec`: `name[version=…,subdir=…,channel=…,build=…]`. */
  function MatchSpec(spec: PackageSpec): string {
    Bracketed(spec.name, Constraints(spec))
  }

  /** A query by download URL: `name[url='…']`. */
  function UrlQuery(name: string, url: string): string {
    Bracketed(name, "url='" + url + "'")
  }

  /** A query and the package name it is for. */
  datatype Query = Query(name: string, expr: string)

  /** The query is a bracketed expression that starts with its package name. */
  predicate NamesItsPackage(q: Query) {
    && |q.name| < |q.expr|
    && q.expr[..|q.name|] == q.name
    && q.expr[|q.name|] == '['
    && q.expr[|q.expr| - 1] == ']'
  }

  /** A bracketed expression starts with its name and the opening bracket,
      and ends in the closing one. */
  lemma BracketedNamesPackage(name: string, body: string)
    ensures NamesItsPackage(Query(name, Bracketed(name, body)))
  {
    var e := Bracketed(name, body);
    assert e == name + ("[" + body + "]");
  }

  /** The query list, in order: the match spec of every package, then the
      `url_conda` query of every package, then the `url` query of every package. */
  function Queries(specs: seq<PackageSpec>): (qs: seq<Query>)
    ensures |qs| == 3 * |specs|
    ensures forall i :: 0 <= i < |specs| ==>
      && qs[i] == Query(specs[i].name, MatchSpec(specs[i]))
      && qs[|specs| + i] == Query(specs[i].name, UrlQuery(specs[i].name, specs[i].urlConda))
      && qs[2 * |specs| + i] == Query(specs[i].name, UrlQuery(specs[i].name, specs[i].url))
  {
    var n := |specs|;
    seq(n, i requires 0 <= i < n => Query(specs[i].name, MatchSpec(specs[i])))
      + seq(n, i requires 0 <= i < n => Query(specs[i].name, UrlQuery(specs[i].name, specs[i].urlConda)))
      + seq(n, i requires 0 <= i < n => Query(specs[i].name, UrlQuery(specs[i].name, specs[i].url)))
  }

  /** Every query is `name[…]` for the package `name` it is searched for. */
  lemma QueriesNamePackages(specs: seq<PackageSpec>)
    ensures var qs := Queries(specs);
      forall k :: 0 <= k < |qs| ==> NamesItsPackage(qs[k])
  {
    var qs := Queries(specs);
    var n := |specs|;
    forall k | 0 <= k < |qs| ensures NamesItsPackage(qs[k]) {
      if k < n {
        BracketedNamesPackage(specs[k].name, Constraints(specs[k]));
      } else if k < 2 * n {
        var i := k - n;
        assert qs[k] == qs[n + i];
        BracketedNamesPackage(specs[i].name, "url='" + specs[i].urlConda + "'");
      } else {
        var i := k - 2 * n;
        assert qs[k] == qs[2 * n + i];
        BracketedNamesPackage(specs[i].name, "url='" + specs[i].url + "'");
      }
    }
  }

  /** The command line of one search: `conda search -c c1 -c c2 … --json expr`. */
  function SearchArgv(conda: string, channels: seq<string>, expr: string): seq<string> {
    [conda, "search"] + Pairs("-c", channels) + ["--json", expr]
  }

  /** The channels and the query of a search command line can be read back
      from it. */
  lemma SearchArgvReadBack(conda: string, channels: seq<string>, expr: string)
    ensures var argv := SearchArgv(conda, channels, expr);
      var c := 2 + 2 * |channels|;
      && |argv| == c + 2
      && argv[..2] == [conda, "search"]
      && PairedWith(argv[2..c], "-c") && PairValues(argv[2..c]) == channels
      && argv[c..] == ["--json", expr]
  {
    var argv := SearchArgv(conda, channels, expr);
    var c := 2 + 2 * |channels|;
    PairsRoundTrip("-c", channels);
    assert argv[2..c] == Pairs("-c", channels);
    assert argv[c..] == ["--json", expr];
  }

  /** Everything a search run depends on from outside: the executable, the
      channels, the target platform, the process environment, the answer to
      each search, and the name a new temporary package cache would get. */
  datatype Context<R> = Context(
    conda: string, channels: seq<string>, platform: string, env: Env,
    respond: (seq<string>, Env) -> map<string, seq<R>>, tempDir: string)

  /** What the generator does, step by step. */
  datatype Event<R> =
    | Searched(name: string, argv: seq<string>, env: Env)
    | Yielded(name: string, record: R)

  /** The assertion that fails when a search answers with other than exactly
      one record for the package. */
  datatype SearchError = UnexpectedCount(name: string, count: nat)

  /** The state of a search run: the events so far, the names found, the
      package cache, and the failure that stopped the run, if any. */
  datatype SearchRun<R> = SearchRun(
    trace: seq<Event<R>>, found: set<string>, cache: Option<string>, error: Option<SearchError>)

  /** One iteration of the query loop: skipped when the name is already
      found; otherwise one search, and the record yielded when the answer
      has the name with exactly one record. */
  function QueryStep<R>(ctx: Context<R>, run: SearchRun<R>, q: Query): SearchRun<R>
    requires run.error.None?
  {
    if q.name in run.found then run
    else
      var pkgs := CondaPkgsDir(run.cache, ctx.tempDir);
      var env := EnvOverride(ctx.env, ctx.platform, pkgs.0);
      var argv := SearchArgv(ctx.conda, ctx.channels, q.expr);
      var content := ctx.respond(argv, env);
      var trace := run.trace + [Searched(q.name, argv, env)];
      if q.name !in content then SearchRun(trace, run.found, pkgs.1, None)
      else if |content[q.name]| == 1 then
        SearchRun(trace + [Yielded(q.name, content[q.name][0])], run.found + {q.name}, pkgs.1, None)
      else
        SearchRun(trace, run.found, pkgs.1, Some(UnexpectedCount(q.name, |content[q.name]|)))
  }

  /** The loop over `queries`, starting from the package cache `cache`; it
      stops at the first failure. */
  function Drive<R>(ctx: Context<R>, queries: seq<Query>, cache: Option<string>): (r: SearchRun<R>)
    decreases |queries|
  {
    if queries == [] then SearchRun([], {}, cache, None)
    else
      var prior := Drive(ctx, queries[..|queries| - 1], cache);
      if prior.error.Some? then prior else QueryStep(ctx, prior, queries[|queries| - 1])
  }

  /** `search_for_md5s`. */
  function SearchForMd5s<R>(ctx: Context<R>, specs: seq<PackageSpec>, cache: Option<string>): SearchRun<R> {
    Drive(ctx, Queries(specs), cache)
  }

  /** The names of the records yielded in `trace`. */
  ghost function YieldedNames<R>(trace: seq<Event<R>>): set<string> {
    set p | 0 <= p < |trace| && trace[p].Yielded? :: trace[p].name
  }

  /** No package is searched for again once a record for it was yielded. */
  ghost predicate NoSearchAfterYield<R>(trace: seq<Event<R>>) {
    forall a, b :: 0 <= a < b < |trace| && trace[a].Yielded? && trace[b].Searched? ==>
      trace[a].name != trace[b].name
  }

  /** At most one record is yielded per package name. */
  ghost predicate UniqueYields<R>(trace: seq<Event<R>>) {
    forall a, b :: 0 <= a < b < |trace| && trace[a].Yielded? && trace[b].Yielded? ==>
      trace[a].name != trace[b].name
  }

  /** Every record yielded is the single record the search just before it
      answered for that package. */
  ghost predicate YieldsAnswered<R>(trace: seq<Event<R>>, respond: (seq<string>, Env) -> map<string, seq<R>>) {
    forall p :: 0 <= p < |trace| && trace[p].Yielded? ==>
      && 0 < p && trace[p - 1].Searched? && trace[p - 1].name == trace[p].name
      && var content := respond(trace[p - 1].argv, trace[p - 1].env);
      && trace[p].name in content && |content[trace[p].name]| == 1
      && content[trace[p].name][0] == trace[p].record
  }

  /** Every search ran with the package cache `dir`. */
  ghost predicate SharedCache<R>(trace: seq<Event<R>>, dir: string) {
    forall p :: 0 <= p < |trace| && trace[p].Searched? ==>
      PkgsDirsKey in trace[p].env && trace[p].env[PkgsDirsKey] == dir
  }

  /** The directory every search of a run uses: the cache's, or the new one. */
  function CacheDir<R>(ctx: Context<R>, cache: Option<string>): string {
    if cache.Some? then cache.value else ctx.tempDir
  }

  /** The invariants of the search loop, for a run over any query list. */
  ghost predicate RunInvariant<R>(ctx: Context<R>, cache: Option<string>, run: SearchRun<R>) {
    && run.found == YieldedNames(run.trace)
    && NoSearchAfterYield(run.trace)
    && UniqueYields(run.trace)
    && YieldsAnswered(run.trace, ctx.respond)
    && SharedCache(run.trace, CacheDir(ctx, cache))
    && (run.cache == cache || run.cache == Some(CacheDir(ctx, cache)))
  }

  /** The invariants of a trace alone, given the answers and the cache. */
  ghost predicate TraceInvariant<R>(trace: seq<Event<R>>, respond: (seq<string>, Env) -> map<string, seq<R>>,
                                    dir: string) {
    && NoSearchAfterYield(trace)
    && UniqueYields(trace)
    && YieldsAnswered(trace, respond)
    && SharedCache(trace, dir)
  }

  /** Recording a search for a package not yet yielded, with the shared
      cache, keeps the trace invariants and yields nothing new. */
  lemma AppendSearch<R>(trace: seq<Event<R>>, e: Event<R>, respond: (seq<string>, Env) -> map<string, seq<R>>,
                        dir: string)
    requires TraceInvariant(trace, respond, dir)
    requires e.Searched? && e.name !in YieldedNames(trace)
    requires PkgsDirsKey in e.env && e.env[PkgsDirsKey] == dir
    ensures TraceInvariant(trace + [e], respond, dir)
    ensures YieldedNames(trace + [e]) == YieldedNames(trace)
  {
    var t := trace + [e];
    assert forall p :: 0 <= p < |trace| ==> t[p] == trace[p];
    assert t[|trace|] == e;
  }

  /** Recording the record a search just answered, for a package not yet
      yielded, keeps the trace invariants and adds that package. */
  lemma AppendYield<R>(trace: seq<Event<R>>, e: Event<R>, respond: (seq<string>, Env) -> map<string, seq<R>>,
                       dir: string)
    requires TraceInvariant(trace, respond, dir)
    requires e.Yielded? && e.name !in YieldedNames(trace)
    requires trace != [] && trace[|trace| - 1].Searched? && trace[|trace| - 1].name == e.name
    requires var content := respond(trace[|trace| - 1].argv, trace[|trace| - 1].env);
      e.name in content && |content[e.name]| == 1 && content[e.name][0] == e.record
    ensures TraceInvariant(trace + [e], respond, dir)
    ensures YieldedNames(trace + [e]) == YieldedNames(trace) + {e.name}
  {
    var t := trace + [e];
    assert forall p :: 0 <= p < |trace| ==> t[p] == trace[p];
    assert t[|trace|] == e;
    assert UniqueYields(t) by {
      forall a, b | 0 <= a < b < |t| && t[a].Yielded? && t[b].Yielded?
        ensures t[a].name != t[b].name
      {
        if b == |trace| {
          assert t[a].name in YieldedNames(trace);
        }
      }
    }
    assert YieldsAnswered(t, respond);
  }

  /** One iteration keeps the loop invariants. */
  lemma QueryStepKeepsInvariant<R>(ctx: Context<R>, cache: Option<string>, run: SearchRun<R>, q: Query)
    requires run.error.None? && RunInvariant(ctx, cache, run)
    ensures RunInvariant(ctx, cache, QueryStep(ctx, run, q))
  {
    if q.name !in run.found {
      var dir := CacheDir(ctx, cache);
      var pkgs := CondaPkgsDir(run.cache, ctx.tempDir);
      assert pkgs.0 == dir;
      var env := EnvOverride(ctx.env, ctx.platform, pkgs.0);
      var argv := SearchArgv(ctx.conda, ctx.channels, q.expr);
      var searched := Searched(q.name, argv, env);
      var content := ctx.respond(argv, env);
      assert TraceInvariant(run.trace, ctx.respond, dir);
      AppendSearch(run.trace, searched, ctx.respond, dir);
      var t := run.trace + [searched];
      if q.name in content && |content[q.name]| == 1 {
        var y := Yielded(q.name, content[q.name][0]);
        assert t[|t| - 1] == searched;
        AppendYield(t, y, ctx.respond, dir);
      }
    }
  }

  /** The loop invariants hold of every run. */
  lemma {:induction false} DriveInvariant<R>(ctx: Context<R>, queries: seq<Query>, cache: Option<string>)
    ensures RunInvariant(ctx, cache, Drive(ctx, queries, cache))
    decreases |queries|
  {
    if queries != [] {
      var prior := Drive(ctx, queries[..|queries| - 1], cache);
      DriveInvariant(ctx, queries[..|queries| - 1], cache);
      if prior.error.None? {
        QueryStepKeepsInvariant(ctx, cache, prior, queries[|queries| - 1]);
      }
    }
  }

  /** What `search_for_md5s` promises: each package is yielded at most once,
      never searched for after that, each record yielded is the one record
      its search answered, and all searches share one package cache. */
  lemma SearchForMd5sSound<R>(ctx: Context<R>, specs: seq<PackageSpec>, cache: Option<string>)
    ensures var run := SearchForMd5s(ctx, specs, cache);
      && UniqueYields(run.trace)
      && NoSearchAfterYield(run.trace)
      && YieldsAnswered(run.trace, ctx.respond)
      && SharedCache(run.trace, CacheDir(ctx, cache))
  {
    DriveInvariant(ctx, Queries(specs), cache);
  }

  /** Query `i` is skipped, leaving the run as it was, exactly when its
      package was found by an earlier query; otherwise it runs a search. */
  lemma QuerySkippedIffFound<R>(ctx: Context<R>, queries: seq<Query>, cache: Option<string>, i: nat)
    requires i < |queries|
    requires Drive(ctx, queries[..i], cache).error.None?
    ensures var prior := Drive(ctx, queries[..i], cache);
      var next := Drive(ctx, queries[..i + 1], cache);
      && (queries[i].name in YieldedNames(prior.trace) <==> next == prior)
      && (queries[i].name !in YieldedNames(prior.trace) ==>
            |next.trace| > |prior.trace| && next.trace[|prior.trace|].Searched?
            && next.trace[|prior.trace|].name == queries[i].name
            && next.trace[|prior.trace|].argv == SearchArgv(ctx.conda, ctx.channels, queries[i].expr))
  {
    var prior := Drive(ctx, queries[..i], cache);
    DriveInvariant(ctx, queries[..i], cache);
    assert queries[..i + 1][..i] == queries[..i];
    assert queries[..i + 1][i] == queries[i];
    var next := Drive(ctx, queries[..i + 1], cache);
    assert next == QueryStep(ctx, prior, queries[i]);
  }

  /** What one query not yet answered adds to the run: a search for it in
      the package cache chosen so far; then nothing more when the answer
      lacks the package, its single record when it has exactly one, and
      otherwise the failure carrying the count. */
  lemma QueryOutcome<R>(ctx: Context<R>, queries: seq<Query>, cache: Option<string>, i: nat)
    requires i < |queries|
    requires Drive(ctx, queries[..i], cache).error.None?
    ensures var prior := Drive(ctx, queries[..i], cache);
      var next := Drive(ctx, queries[..i + 1], cache);
      var name := queries[i].name;
      var pkgs := CondaPkgsDir(prior.cache, ctx.tempDir);
      var env := EnvOverride(ctx.env, ctx.platform, pkgs.0);
      var argv := SearchArgv(ctx.conda, ctx.channels, queries[i].expr);
      var content := ctx.respond(argv, env);
      name !in YieldedNames(prior.trace) ==>
        && next.cache == pkgs.1
        && (name !in content ==>
              next.trace == prior.trace + [Searched(name, argv, env)] && next.error.None?)
        && (name in content && |content[name]| == 1 ==>
              && next.trace == prior.trace + [Searched(name, argv, env), Yielded(name, content[name][0])]
              && next.error.None? && name in next.found)
        && (name in content && |content[name]| != 1 ==>
              && next.trace == prior.trace + [Searched(name, argv, env)]
              && next.error == Some(UnexpectedCount(name, |content[name]|)))
  {
    var prior := Drive(ctx, queries[..i], cache);
    DriveInvariant(ctx, queries[..i], cache);
    assert queries[..i + 1][..i] == queries[..i];
    assert queries[..i + 1][i] == queries[i];
    var next := Drive(ctx, queries[..i + 1], cache);
    assert next == QueryStep(ctx, prior, queries[i]);
  }

  /** A search whose answer has the package with other than exactly one
      record stops the run with that count, right after that search. */
  lemma {:induction false} FailureIsUnexpectedCount<R>(ctx: Context<R>, queries: seq<Query>, cache: Option<string>)
    ensures var run := Drive(ctx, queries, cache);
      run.error.Some? ==>
        && run.trace != [] && run.trace[|run.trace| - 1].Searched?
        && var last := run.trace[|run.trace| - 1];
        && var content := ctx.respond(last.argv, last.env);
        && last.name == run.error.value.name
        && run.error.value.name in content
        && |content[run.error.value.name]| == run.error.value.count != 1
    decreases |queries|
  {
    if queries != [] {
      FailureIsUnexpectedCount(ctx, queries[..|queries| - 1], cache);
    }
  }

  /** A failure is final: the run over a longer query list is the run that
      failed. */
  lemma {:induction false} FailureStopsRun<R>(ctx: Context<R>, queries: seq<Query>, cache: Option<string>, i: nat)
    requires i <= |queries|
    requires Drive(ctx, queries[..i], cache).error.Some?
    ensures Drive(ctx, queries, cache) == Drive(ctx, queries[..i], cache)
    decreases |queries|
  {
    if i < |queries| {
      var shorter := queries[..|queries| - 1];
      assert shorter[..i] == queries[..i];
      FailureStopsRun(ctx, shorter, cache, i);
    } else {
      assert queries[..i] == queries;
    }
  }

  /** The run over a prefix of the queries is a prefix of the run: events
      come in the order of the queries that caused them. */
  lemma {:induction false} RunExtends<R>(ctx: Context<R>, queries: seq<Query>, cache: Option<string>, i: nat)
    requires i <= |queries|
    ensures var early := Drive(ctx, queries[..i], cache).trace;
      var late := Drive(ctx, queries, cache).trace;
      |early| <= |late| && late[..|early|] == early
    decreases |queries|
  {
    if i < |queries| {
      var shorter := queries[..|queries| - 1];
      assert shorter[..i] == queries[..i];
      RunExtends(ctx, shorter, cache, i);
      var mid := Drive(ctx, shorter, cache);
      var late := Drive(ctx, queries, cache);
      if mid.error.None? {
        assert late == QueryStep(ctx, mid, queries[|queries| - 1]);
        assert late.trace[..|mid.trace|] == mid.trace;
      }
    } else {
      assert queries[..i] == queries;
    }
  }
}
