/** A declarative account of what the stdout filter emits, line by line, in
    terms of the lines before it rather than of a running state; and the
    properties the filter promises, proved from that account. */
module StdoutFilterSpec {
  import opened Wrappers
  import opened Text
  import opened StdoutFilter

  /** Some line of `prior` is the banner. */
  predicate BannerSeen(prior: seq<string>) {
    exists j :: 0 <= j < |prior| && RStrip(prior[j]) == Banner
  }

  /** Every line of `prior` is blank. */
  predicate AllBlank(prior: seq<string>) {
    forall j :: 0 <= j < |prior| ==> RStrip(prior[j]) == []
  }

  /** Some progress line of `prior` has the token `t`. */
  predicate TokenSeen(prior: seq<string>, t: string) {
    exists j :: 0 <= j < |prior| && IsProgress(prior[j]) && TokenOf(prior[j]) == t
  }

  /** The progress tokens of the lines in `prior`. */
  function Tokens(prior: seq<string>): set<string> {
    set j | 0 <= j < |prior| && IsProgress(prior[j]) :: TokenOf(prior[j])
  }

  /** The state the filter is in after `prior`, described without running it. */
  function StateAfter(prior: seq<string>): FilterState {
    FilterState(Tokens(prior), BannerSeen(prior), AllBlank(prior))
  }

  /** What line `raw` contributes to the output after the lines `prior`:
      a blank line is dropped while nothing but blank lines have been seen or
      once the banner has been seen; a progress line is cut to its token and
      dropped when an earlier progress line had the same token; any other
      line is kept, stripped of trailing whitespace. */
  function Expected(prior: seq<string>, raw: string): Option<string> {
    if RStrip(raw) == [] && (BannerSeen(prior) || AllBlank(prior)) then None
    else if IsProgress(raw) then
      if TokenSeen(prior, TokenOf(raw)) then None else Some(TokenOf(raw))
    else Some(RStrip(raw))
  }

  /** Whether line `i` of `lines` produces output. */
  predicate Emits(lines: seq<string>, i: nat)
    requires i < |lines|
  {
    Expected(lines[..i], lines[i]).Some?
  }

  /** The indices of the lines that produce output, in increasing order. */
  function Sources(lines: seq<string>): (src: seq<nat>)
    ensures forall k :: 0 <= k < |src| ==> src[k] < |lines|
    decreases |lines|
  {
    if lines == [] then []
    else
      var n := |lines| - 1;
      Sources(lines[..n]) + (if Expected(lines[..n], lines[n]).Some? then [n] else [])
  }

  /** `src` lists indices in strictly increasing order. */
  predicate Increasing(src: seq<nat>) {
    forall a, b :: 0 <= a < b < |src| ==> src[a] < src[b]
  }

  /** The banner has been seen after one more line exactly when it was seen
      before or that line is the banner. */
  lemma AppendBanner(prior: seq<string>, raw: string)
    ensures BannerSeen(prior + [raw]) <==> BannerSeen(prior) || RStrip(raw) == Banner
  {
    var all := prior + [raw];
    if BannerSeen(all) && RStrip(raw) != Banner {
      var j :| 0 <= j < |all| && RStrip(all[j]) == Banner;
      assert j < |prior| && all[j] == prior[j];
    }
    if BannerSeen(prior) {
      var j :| 0 <= j < |prior| && RStrip(prior[j]) == Banner;
      assert all[j] == prior[j];
    }
    assert all[|prior|] == raw;
  }

  /** All lines are blank after one more line exactly when they were before
      and that line is blank. */
  lemma AppendBlank(prior: seq<string>, raw: string)
    ensures AllBlank(prior + [raw]) <==> AllBlank(prior) && RStrip(raw) == []
  {
    var all := prior + [raw];
    assert forall j :: 0 <= j < |prior| ==> all[j] == prior[j];
    assert all[|prior|] == raw;
  }

  /** One more line adds its token, if it is a progress line, to the tokens seen. */
  lemma AppendTokens(prior: seq<string>, raw: string)
    ensures Tokens(prior + [raw]) ==
      Tokens(prior) + (if IsProgress(raw) then {TokenOf(raw)} else {})
  {
    var all := prior + [raw];
    assert forall j :: 0 <= j < |prior| ==> all[j] == prior[j];
    assert all[|prior|] == raw;
  }

  /** Membership in `Tokens` is `TokenSeen`. */
  lemma TokensAreSeen(prior: seq<string>, t: string)
    ensures t in Tokens(prior) <==> TokenSeen(prior, t)
  {
    if t in Tokens(prior) {
      var j :| 0 <= j < |prior| && IsProgress(prior[j]) && TokenOf(prior[j]) == t;
    }
  }

  /** One step of the filter from the described state lands in the described
      state and emits what the declarative rule says. */
  lemma StepMatchesExpected(prior: seq<string>, raw: string)
    ensures Step(StateAfter(prior), raw) == (StateAfter(prior + [raw]), Expected(prior, raw))
  {
    var st := StateAfter(prior);
    var after := StateAfter(prior + [raw]);
    AppendBanner(prior, raw);
    AppendBlank(prior, raw);
    AppendTokens(prior, raw);
    var r := Step(st, raw);
    assert r.0.extracting == after.extracting && r.0.leadingEmpty == after.leadingEmpty;
    if IsProgress(raw) {
      var t := TokenOf(raw);
      TokensAreSeen(prior, t);
      ContainsNonSpace(RStrip(raw), '%');
      RStripEmptyIff(raw);
      assert RStrip(raw) != [];
      if t in st.cache {
        assert after.cache == st.cache;
        assert r == (after, None);
      } else {
        assert r == (after, Some(t));
      }
    } else {
      assert after.cache == st.cache;
    }
  }

  /** The filter's running state after any lines is the described state. */
  lemma {:induction false} RunState(lines: seq<string>)
    ensures Run(lines).0 == StateAfter(lines)
    decreases |lines|
  {
    if lines == [] {
      assert StateAfter(lines) == Initial;
    } else {
      var n := |lines| - 1;
      var prior, raw := lines[..n], lines[n];
      assert prior + [raw] == lines;
      RunState(prior);
      StepMatchesExpected(prior, raw);
      RunStateStep(prior, raw);
    }
  }

  /** The state after one more line is one step from the state before it. */
  lemma RunStateStep(prior: seq<string>, raw: string)
    ensures Run(prior + [raw]).0 == Step(Run(prior).0, raw).0
  {
  }

  /** The output grows, line by line, by the declarative contribution of each line. */
  lemma ProcessAppend(lines: seq<string>)
    requires lines != []
    ensures var n := |lines| - 1;
      Process(lines) == Process(lines[..n]) + OptionToSeq(Expected(lines[..n], lines[n]))
  {
    var n := |lines| - 1;
    RunState(lines[..n]);
    StepMatchesExpected(lines[..n], lines[n]);
  }

  /** The emitting lines are listed in input order. */
  lemma {:induction false} SourcesIncreasing(lines: seq<string>)
    ensures Increasing(Sources(lines))
    decreases |lines|
  {
    if lines != [] {
      var n := |lines| - 1;
      SourcesIncreasing(lines[..n]);
    }
  }

  /** A line's contribution is the same whether it is read in `lines` or in
      a longer prefix of `lines`. */
  lemma ExpectedOnPrefix(lines: seq<string>, n: nat, i: nat)
    requires i < n <= |lines|
    ensures Expected(lines[..n][..i], lines[..n][i]) == Expected(lines[..i], lines[i])
  {
    assert lines[..n][..i] == lines[..i];
  }

  /** The emitting lines are exactly those `Expected` keeps. */
  lemma {:induction false} SourcesAreEmitters(lines: seq<string>)
    ensures forall i :: 0 <= i < |lines| ==> (Emits(lines, i) <==> i in Sources(lines))
    decreases |lines|
  {
    if lines != [] {
      var n := |lines| - 1;
      var prior := lines[..n];
      SourcesAreEmitters(prior);
      var src, psrc := Sources(lines), Sources(prior);
      assert src == psrc + (if Expected(prior, lines[n]).Some? then [n] else []);
      assert n !in psrc;
      forall i | 0 <= i < |lines|
        ensures Emits(lines, i) <==> i in src
      {
        if i < n {
          ExpectedOnPrefix(lines, n, i);
          assert Emits(lines, i) == Emits(prior, i);
        }
      }
    }
  }

  /** The filter agrees with the declarative rule on every input: its k-th
      output line is the `Expected` contribution of the k-th emitting line. */
  lemma {:induction false} OutputMatchesSources(lines: seq<string>)
    ensures |Process(lines)| == |Sources(lines)|
    ensures forall k :: 0 <= k < |Sources(lines)| ==>
      var i := Sources(lines)[k];
      Expected(lines[..i], lines[i]) == Some(Process(lines)[k])
    decreases |lines|
  {
    if lines != [] {
      var n := |lines| - 1;
      var prior := lines[..n];
      OutputMatchesSources(prior);
      ProcessAppend(lines);
      var src, psrc := Sources(lines), Sources(prior);
      var out, pout := Process(lines), Process(prior);
      var e := Expected(prior, lines[n]);
      assert src == psrc + (if e.Some? then [n] else []);
      assert out == pout + OptionToSeq(e);
      forall k | 0 <= k < |src|
        ensures Expected(lines[..src[k]], lines[src[k]]) == Some(out[k])
      {
        if k < |psrc| {
          assert src[k] == psrc[k] && out[k] == pout[k];
          ExpectedOnPrefix(lines, n, psrc[k]);
        } else {
          assert src[k] == n && out[k] == e.value;
        }
      }
    }
  }

  /** The whole correspondence between the filter and the declarative rule. */
  lemma ProcessFollowsReference(lines: seq<string>)
    ensures |Process(lines)| == |Sources(lines)|
    ensures Increasing(Sources(lines))
    ensures forall k :: 0 <= k < |Sources(lines)| ==>
      var i := Sources(lines)[k];
      Expected(lines[..i], lines[i]) == Some(Process(lines)[k])
    ensures forall i :: 0 <= i < |lines| ==> (Emits(lines, i) <==> i in Sources(lines))
  {
    SourcesIncreasing(lines);
    SourcesAreEmitters(lines);
    OutputMatchesSources(lines);
  }

  /** Every emitted line is a stripped input line, or the first token of a
      stripped input line containing `%`; the lines they come from are in
      input order. */
  lemma EmittedLinesTraceBack(lines: seq<string>)
    ensures |Sources(lines)| == |Process(lines)|
    ensures Increasing(Sources(lines))
    ensures forall k :: 0 <= k < |Process(lines)| ==>
      var i := Sources(lines)[k];
      if IsProgress(lines[i]) then Process(lines)[k] == TokenOf(lines[i])
      else Process(lines)[k] == RStrip(lines[i])
  {
    ProcessFollowsReference(lines);
  }

  /** An earlier progress line of `lines[..i]` with token `t`, as an index of `lines`. */
  lemma TokenSeenInPrefix(lines: seq<string>, i: nat, t: string)
    requires i <= |lines|
    ensures TokenSeen(lines[..i], t) <==>
      exists j :: 0 <= j < i && IsProgress(lines[j]) && TokenOf(lines[j]) == t
  {
    if TokenSeen(lines[..i], t) {
      var j :| 0 <= j < i && IsProgress(lines[..i][j]) && TokenOf(lines[..i][j]) == t;
      assert lines[..i][j] == lines[j];
    }
    if exists j :: 0 <= j < i && IsProgress(lines[j]) && TokenOf(lines[j]) == t {
      var j :| 0 <= j < i && IsProgress(lines[j]) && TokenOf(lines[j]) == t;
      assert lines[..i][j] == lines[j];
    }
  }

  /** Progress tokens are emitted at most once: two output lines that come
      from progress lines differ. */
  lemma ProgressTokensDistinct(lines: seq<string>)
    ensures |Sources(lines)| == |Process(lines)|
    ensures forall a, b :: 0 <= a < b < |Process(lines)| ==>
      (IsProgress(lines[Sources(lines)[a]]) && IsProgress(lines[Sources(lines)[b]]) ==>
        Process(lines)[a] != Process(lines)[b])
  {
    ProcessFollowsReference(lines);
    var out, src := Process(lines), Sources(lines);
    forall a, b | 0 <= a < b < |out| && IsProgress(lines[src[a]]) && IsProgress(lines[src[b]])
      ensures out[a] != out[b]
    {
      var i, j := src[a], src[b];
      assert i < j;
      TokenSeenInPrefix(lines, j, TokenOf(lines[j]));
    }
  }

  /** A progress line is emitted exactly when no earlier progress line had
      its token: repeats produce nothing, the first occurrence always comes out. */
  lemma RepeatedProgressDropped(lines: seq<string>)
    ensures forall i :: 0 <= i < |lines| && IsProgress(lines[i]) ==>
      (i in Sources(lines) <==>
        forall j :: 0 <= j < i && IsProgress(lines[j]) ==> TokenOf(lines[j]) != TokenOf(lines[i]))
  {
    ProcessFollowsReference(lines);
    forall i | 0 <= i < |lines| && IsProgress(lines[i])
      ensures i in Sources(lines) <==>
        forall j :: 0 <= j < i && IsProgress(lines[j]) ==> TokenOf(lines[j]) != TokenOf(lines[i])
    {
      ContainsNonSpace(RStrip(lines[i]), '%');
      RStripEmptyIff(lines[i]);
      TokenSeenInPrefix(lines, i, TokenOf(lines[i]));
    }
  }

  /** A blank line emits exactly when some earlier line was not blank and no
      earlier line was the banner. */
  lemma BlankLineAt(lines: seq<string>, i: nat)
    requires i < |lines| && RStrip(lines[i]) == []
    ensures Emits(lines, i) <==>
      (exists j :: 0 <= j < i && RStrip(lines[j]) != []) &&
      (forall j :: 0 <= j < i ==> RStrip(lines[j]) != Banner)
  {
    var prior := lines[..i];
    assert forall j :: 0 <= j < i ==> prior[j] == lines[j];
    assert !IsProgress(lines[i]);
  }

  /** Blank lines: one is emitted, as the empty line, exactly when some
      earlier line was not blank and no earlier line was the banner; and an
      empty output line always comes from a blank input line. */
  lemma BlankLineRule(lines: seq<string>)
    ensures |Sources(lines)| == |Process(lines)|
    ensures forall i :: 0 <= i < |lines| && RStrip(lines[i]) == [] ==>
      (i in Sources(lines) <==>
        (exists j :: 0 <= j < i && RStrip(lines[j]) != []) &&
        (forall j :: 0 <= j < i ==> RStrip(lines[j]) != Banner))
    ensures forall k :: 0 <= k < |Process(lines)| && Process(lines)[k] == [] ==>
      RStrip(lines[Sources(lines)[k]]) == []
  {
    EmittedLinesTraceBack(lines);
    ProcessFollowsReference(lines);
    forall i | 0 <= i < |lines| && RStrip(lines[i]) == []
      ensures i in Sources(lines) <==>
        (exists j :: 0 <= j < i && RStrip(lines[j]) != []) &&
        (forall j :: 0 <= j < i ==> RStrip(lines[j]) != Banner)
    {
      BlankLineAt(lines, i);
    }
  }

  /** A line that is neither blank nor a progress line is always emitted,
      stripped, however often the same line occurred before. */
  lemma PlainLinesKept(lines: seq<string>)
    ensures |Sources(lines)| == |Process(lines)|
    ensures forall i :: 0 <= i < |lines| && RStrip(lines[i]) != [] && !IsProgress(lines[i]) ==>
      exists k :: (0 <= k < |Sources(lines)| && Sources(lines)[k] == i &&
        Process(lines)[k] == RStrip(lines[i]))
  {
    ProcessFollowsReference(lines);
    forall i | 0 <= i < |lines| && RStrip(lines[i]) != [] && !IsProgress(lines[i])
      ensures exists k :: (0 <= k < |Sources(lines)| && Sources(lines)[k] == i &&
        Process(lines)[k] == RStrip(lines[i]))
    {
      assert Emits(lines, i);
      var k :| 0 <= k < |Sources(lines)| && Sources(lines)[k] == i;
    }
  }

  /** A line that is a word containing `%`, then whitespace, then more text
      ending in a non-space character is a progress line kept whole by
      `rstrip`, and its token is that word. */
  lemma WordThenSpaceToken(w: string, rest: string)
    requires w != [] && NoSpace(w) && '%' in w
    requires rest != [] && IsSpace(rest[0]) && !IsSpace(rest[|rest| - 1])
    ensures RStrip(w + rest) == w + rest && IsProgress(w + rest)
    ensures TokenOf(w + rest) == w
  {
    var s := w + rest;
    assert s[|s| - 1] == rest[|rest| - 1];
    assert RStrip(s) == s;
    assert '%' in s by {
      var i :| 0 <= i < |w| && w[i] == '%';
      assert s[i] == '%';
    }
    FirstTokenOfWord(w, rest);
  }

  /** The progress token of `50% done`. */
  lemma FiftyToken()
    ensures RStrip("50% done") == "50% done" && IsProgress("50% done")
    ensures TokenOf("50% done") == "50%"
  {
    assert "50% done" == "50%" + " done";
    assert "50%"[2] == '%';
    WordThenSpaceToken("50%", " done");
  }

  /** The progress token of `60% done x`. */
  lemma SixtyToken()
    ensures RStrip("60% done x") == "60% done x" && IsProgress("60% done x")
    ensures TokenOf("60% done x") == "60%"
  {
    assert "60% done x" == "60%" + " done x";
    assert "60%"[2] == '%';
    WordThenSpaceToken("60%", " done x");
  }

  /** The banner is kept whole: it has no trailing whitespace and no `%`. */
  lemma BannerIsPlain()
    ensures RStrip(Banner) == Banner && !IsProgress(Banner)
  {
    assert Banner[|Banner| - 1] == 's';
    assert forall i :: 0 <= i < |Banner| ==> Banner[i] != '%';
  }

  /** Blank lines of the example: dropped at the start and after the banner. */
  lemma ExampleBlankSteps()
    ensures Step(Initial, "") == (Initial, None)
    ensures Step(FilterState({}, true, false), "") == (FilterState({}, true, false), None)
    ensures Step(FilterState({"50%"}, true, false), "")
      == (FilterState({"50%"}, true, false), None)
  {
    assert RStrip("") == "";
  }

  /** The banner line of the example is emitted whole. */
  lemma ExampleBannerStep()
    ensures Step(Initial, Banner) == (FilterState({}, true, false), Some(Banner))
  {
    BannerIsPlain();
  }

  /** The first `50% done` is emitted as `50%`. */
  lemma ExampleFiftyFirstStep()
    ensures Step(FilterState({}, true, false), "50% done")
      == (FilterState({"50%"}, true, false), Some("50%"))
  {
    FiftyToken();
    var line := "50% done";
    assert |line| == 8;
    assert "50%" !in {} && {} + {"50%"} == {"50%"};
  }

  /** The second `50% done` is dropped. */
  lemma ExampleFiftyRepeatedStep()
    ensures Step(FilterState({"50%"}, true, false), "50% done")
      == (FilterState({"50%"}, true, false), None)
  {
    FiftyToken();
    var line := "50% done";
    assert |line| == 8;
    assert "50%" in {"50%"};
  }

  /** `60% done x` is emitted as `60%`. */
  lemma ExampleSixtyStep()
    ensures Step(FilterState({"50%"}, true, false), "60% done x").1 == Some("60%")
  {
    SixtyToken();
  }

  /** Running the filter over one more line is one more step. */
  lemma RunAppend(prior: seq<string>, raw: string, st: FilterState, out: seq<string>,
                  next: FilterState, e: Option<string>)
    ensures Run(prior) == (st, out) && Step(st, raw) == (next, e) ==>
      Run(prior + [raw]) == (next, out + OptionToSeq(e))
  {
    assert (prior + [raw])[..|prior|] == prior;
  }

  /** The example up to and including its banner line. */
  lemma ExampleThroughBanner()
    ensures Run(["", "", Banner]) == (FilterState({}, true, false), [Banner])
  {
    ExampleBlankSteps();
    ExampleBannerStep();
    assert OptionToSeq<string>(None) == [];
    assert OptionToSeq(Some(Banner)) == [Banner];
    RunAppend([], "", Initial, [], Initial, None);
    assert [] + [""] == [""];
    RunAppend([""], "", Initial, [], Initial, None);
    assert [""] + [""] == ["", ""];
    RunAppend(["", ""], Banner, Initial, [], FilterState({}, true, false), Some(Banner));
    assert ["", ""] + [Banner] == ["", "", Banner];
    assert [] + [Banner] == [Banner];
  }

  /** A blank line once the banner has been seen changes nothing. */
  lemma BlankAfterBanner(prior: seq<string>, st: FilterState, out: seq<string>)
    requires st.extracting && !st.leadingEmpty && Run(prior) == (st, out)
    ensures Run(prior + [""]) == (st, out)
  {
    assert RStrip("") == "";
    RunAppend(prior, "", st, out, st, None);
    assert OptionToSeq<string>(None) == [] && out + [] == out;
  }

  /** A first `50% done` adds `50%` to the output and to the cache. */
  lemma FiftyFirst(prior: seq<string>, out: seq<string>)
    requires Run(prior) == (FilterState({}, true, false), out)
    ensures Run(prior + ["50% done"]) == (FilterState({"50%"}, true, false), out + ["50%"])
  {
    ExampleFiftyFirstStep();
    RunAppend(prior, "50% done", FilterState({}, true, false), out,
      FilterState({"50%"}, true, false), Some("50%"));
  }

  /** A second `50% done` changes nothing. */
  lemma FiftyRepeated(prior: seq<string>, out: seq<string>)
    requires Run(prior) == (FilterState({"50%"}, true, false), out)
    ensures Run(prior + ["50% done"]) == (FilterState({"50%"}, true, false), out)
  {
    ExampleFiftyRepeatedStep();
    RunAppend(prior, "50% done", FilterState({"50%"}, true, false), out,
      FilterState({"50%"}, true, false), None);
    assert OptionToSeq<string>(None) == [] && out + [] == out;
  }

  /** `60% done x` after `50%` adds `60%` to the output. */
  lemma SixtyAfterFifty(prior: seq<string>, out: seq<string>)
    requires Run(prior) == (FilterState({"50%"}, true, false), out)
    ensures Run(prior + ["60% done x"]).1 == out + ["60%"]
  {
    ExampleSixtyStep();
    var r := Step(FilterState({"50%"}, true, false), "60% done x");
    RunAppend(prior, "60% done x", FilterState({"50%"}, true, false), out, r.0, r.1);
  }

  /** The output of a typical download, as conda prints it. */
  predicate IsDownloadExample(lines: seq<string>) {
    lines == ["", "", Banner, "", "50% done", "", "50% done", "60% done x"]
  }

  /** Taking one more line of `lines`. */
  lemma TakeOneMore(lines: seq<string>, i: nat)
    requires i < |lines|
    ensures lines[..i + 1] == lines[..i] + [lines[i]]
  {
  }

  /** The example after its blank line that follows the banner. */
  lemma ExampleBannerBlank(lines: seq<string>)
    requires IsDownloadExample(lines)
    ensures Run(lines[..4]) == (FilterState({}, true, false), [Banner])
  {
    ExampleThroughBanner();
    assert lines[..3] == ["", "", Banner];
    assert lines[3] == "";
    TakeOneMore(lines, 3);
    BlankAfterBanner(lines[..3], FilterState({}, true, false), [Banner]);
  }

  /** The example after its first progress line. */
  lemma ExampleFirstProgress(lines: seq<string>)
    requires IsDownloadExample(lines)
    ensures Run(lines[..5]) == (FilterState({"50%"}, true, false), [Banner, "50%"])
  {
    ExampleBannerBlank(lines);
    assert lines[4] == "50% done";
    TakeOneMore(lines, 4);
    FiftyFirst(lines[..4], [Banner]);
    assert [Banner] + ["50%"] == [Banner, "50%"];
  }

  /** The example after its repeated progress line. */
  lemma ExampleRepeatedProgress(lines: seq<string>)
    requires IsDownloadExample(lines)
    ensures Run(lines[..7]) == (FilterState({"50%"}, true, false), [Banner, "50%"])
  {
    ExampleFirstProgress(lines);
    assert lines[5] == "";
    TakeOneMore(lines, 5);
    BlankAfterBanner(lines[..5], FilterState({"50%"}, true, false), [Banner, "50%"]);
    assert lines[6] == "50% done";
    TakeOneMore(lines, 6);
    FiftyRepeated(lines[..6], [Banner, "50%"]);
  }

  /** The filter on the lines of the typical download. */
  lemma DownloadLines(lines: seq<string>)
    requires IsDownloadExample(lines)
    ensures Process(lines) == [Banner, "50%", "60%"]
  {
    ExampleRepeatedProgress(lines);
    assert lines == lines[..7] + ["60% done x"];
    SixtyAfterFifty(lines[..7], [Banner, "50%"]);
  }

  /** The filter on a typical download, as conda prints it: leading blanks
      and post-banner blanks vanish, the repeated `50%` token is emitted
      once, and `60% done x` is cut to `60%`. */
  lemma DownloadExample()
    ensures Process(["", "", Banner, "", "50% done", "", "50% done", "60% done x"])
      == [Banner, "50%", "60%"]
  {
    DownloadLines(["", "", Banner, "", "50% done", "", "50% done", "60% done x"]);
  }
}
