/** The de-duplicating filter that sits between a conda subprocess's
    standard output and the log (`_process_stdout`). It is a single left fold
    over the output lines; its state is the record `FilterState`. */
module StdoutFilter {
  import opened Wrappers
  import opened Text

  /** The banner after which every blank line is a progress-bar artifact. */
  const Banner: string := "Downloading and Extracting Packages"

  /** The filter's state between two lines:
      - `cache`: progress tokens already emitted,
      - `extracting`: the banner line has been seen,
      - `leadingEmpty`: every line so far was blank. */
  datatype FilterState = FilterState(cache: set<string>, extracting: bool, leadingEmpty: bool)

  /** The state before the first line. */
  const Initial: FilterState := FilterState({}, false, true)

  /** A progress line: its stripped form contains `%`. */
  predicate IsProgress(raw: string) {
    '%' in RStrip(raw)
  }

  /** The token a progress line is cut down to: its first whitespace-delimited word. */
  function TokenOf(raw: string): (t: string)
    requires IsProgress(raw)
    ensures t != [] && NoSpace(t)
  {
    ContainsNonSpace(RStrip(raw), '%');
    FirstToken(RStrip(raw))
  }

  /** One iteration of the loop: the next state and the line emitted, if any. */
  function Step(st: FilterState, raw: string): (r: (FilterState, Option<string>))
    ensures r.0.extracting <==> st.extracting || RStrip(raw) == Banner
    ensures r.0.leadingEmpty <==> st.leadingEmpty && RStrip(raw) == []
    ensures st.cache <= r.0.cache
    ensures r.1.Some? && IsProgress(raw) ==>
      r.1.value == TokenOf(raw) && r.1.value !in st.cache && r.0.cache == st.cache + {r.1.value}
    ensures r.1.Some? && !IsProgress(raw) ==> r.1.value == RStrip(raw) && r.0.cache == st.cache
    ensures r.1.None? ==> r.0.cache == st.cache
  {
    var line := RStrip(raw);
    var leadingEmpty := st.leadingEmpty && line == [];
    var extracting := st.extracting || line == Banner;
    if line == [] && (extracting || leadingEmpty) then
      (FilterState(st.cache, extracting, leadingEmpty), None)
    else if '%' in line then
      var token := TokenOf(raw);
      if token !in st.cache then
        (FilterState(st.cache + {token}, extracting, leadingEmpty), Some(token))
      else
        (FilterState(st.cache, extracting, leadingEmpty), None)
    else
      (FilterState(st.cache, extracting, leadingEmpty), Some(line))
  }

  /** The filter run over `lines`: the final state and every line emitted, in
      order. At most one line comes out per line that goes in, and every
      cached progress token has been emitted. */
  function Run(lines: seq<string>): (r: (FilterState, seq<string>))
    ensures |r.1| <= |lines|
    ensures forall t :: t in r.0.cache ==> t in r.1
    decreases |lines|
  {
    if lines == [] then (Initial, [])
    else
      var prior := Run(lines[..|lines| - 1]);
      var next := Step(prior.0, lines[|lines| - 1]);
      (next.0, prior.1 + OptionToSeq(next.1))
  }

  /** The lines `_process_stdout` yields for the output `lines`. */
  function Process(lines: seq<string>): seq<string> {
    Run(lines).1
  }

  /** The streaming form: one pass over the lines with the state held in a
      variable, producing exactly what the fold produces. */
  method FilterLines(lines: seq<string>) returns (out: seq<string>)
    ensures out == Process(lines)
  {
    var st := Initial;
    out := [];
    var i := 0;
    while i < |lines|
      invariant i <= |lines|
      invariant (st, out) == Run(lines[..i])
    {
      assert lines[..i + 1][..i] == lines[..i];
      var next := Step(st, lines[i]);
      st := next.0;
      out := out + OptionToSeq(next.1);
      i := i + 1;
    }
    assert lines[..|lines|] == lines;
  }
}
