/** The handful of Python string operations the filter, the resolver and the
    argument builders rely on: `str.isspace`, `str.rstrip()`, `str.split()`,
    `str.endswith` and `in` on strings. Strings are sequences of code points. */
module Text {

  /** Python's `str.isspace` for one code point: the characters whose
      bidirectional class is WS, B or S, or whose category is Zs. */
  predicate IsSpace(c: char) {
    || c == '\t' || c == '\n' || c == '\U{B}' || c == '\U{C}' || c == '\r'
    || ('\U{1C}' <= c <= '\U{1F}')
    || c == ' ' || c == '\U{85}' || c == '\U{A0}' || c == '\U{1680}'
    || ('\U{2000}' <= c <= '\U{200A}')
    || c == '\U{2028}' || c == '\U{2029}' || c == '\U{202F}' || c == '\U{205F}'
    || c == '\U{3000}'
  }

  /** No character of `s` is whitespace. */
  predicate NoSpace(s: string) {
    forall i :: 0 <= i < |s| ==> !IsSpace(s[i])
  }

  /** Every character of `s` is whitespace (true of the empty string). */
  predicate AllSpace(s: string) {
    forall i :: 0 <= i < |s| ==> IsSpace(s[i])
  }

  /** Python's `s.rstrip()`: `s` without its trailing whitespace. The result
      is the longest prefix of `s` whose remainder is all whitespace and
      that does not itself end in whitespace. */
  function RStrip(s: string): (r: string)
    ensures |r| <= |s| && r == s[..|r|]
    ensures r == [] || !IsSpace(r[|r| - 1])
    ensures AllSpace(s[|r|..])
    decreases |s|
  {
    if s != [] && IsSpace(s[|s| - 1]) then
      var r := RStrip(s[..|s| - 1]);
      assert s[|r|..] == s[..|s| - 1][|r|..] + [s[|s| - 1]];
      r
    else s
  }

  /** `rstrip` leaves the empty string exactly when the line is all whitespace. */
  lemma RStripEmptyIff(s: string)
    ensures RStrip(s) == [] <==> AllSpace(s)
  {
    var r := RStrip(s);
    if r == [] {
      assert s[|r|..] == s;
    } else {
      assert s[|r| - 1] == r[|r| - 1];
    }
  }

  /** Length of the leading run of non-whitespace characters of `s`. */
  function WordLength(s: string): (n: nat)
    ensures n <= |s|
    ensures NoSpace(s[..n])
    ensures n == |s| || IsSpace(s[n])
    decreases |s|
  {
    if s == [] || IsSpace(s[0]) then 0 else 1 + WordLength(s[1..])
  }

  /** Python's `s.split()` with no separator: the maximal runs of
      non-whitespace characters, in order. */
  function Split(s: string): (words: seq<string>)
    ensures forall k :: 0 <= k < |words| ==> words[k] != [] && NoSpace(words[k])
    decreases |s|
  {
    if s == [] then []
    else if IsSpace(s[0]) then Split(s[1..])
    else
      var n := WordLength(s);
      [s[..n]] + Split(s[n..])
  }

  /** Number of leading whitespace characters of `s`. */
  function LeadingSpace(s: string): (n: nat)
    ensures n <= |s|
    ensures AllSpace(s[..n])
    ensures n == |s| || !IsSpace(s[n])
    decreases |s|
  {
    if s != [] && IsSpace(s[0]) then 1 + LeadingSpace(s[1..]) else 0
  }

  /** A string that starts with whitespace is all whitespace exactly when
      the rest of it is. */
  lemma AllSpaceTail(s: string)
    requires s != [] && IsSpace(s[0])
    ensures AllSpace(s) <==> AllSpace(s[1..])
  {
    assert forall i :: 1 <= i < |s| ==> s[i] == s[1..][i - 1];
  }

  /** `split()` finds a word exactly when `s` is not all whitespace, and the
      first word is the run of non-whitespace that follows the leading
      whitespace of `s`. */
  lemma {:induction false} SplitFirstWord(s: string)
    ensures Split(s) == [] <==> AllSpace(s)
    ensures Split(s) != [] ==>
      var k := LeadingSpace(s);
      Split(s)[0] == s[k..k + WordLength(s[k..])]
    decreases |s|
  {
    if s == [] {
    } else if IsSpace(s[0]) {
      SplitFirstWord(s[1..]);
      AllSpaceTail(s);
      if Split(s) != [] {
        var k := LeadingSpace(s[1..]);
        assert LeadingSpace(s) == k + 1;
        assert s[k + 1..] == s[1..][k..];
      }
    } else {
      assert !AllSpace(s);
      assert LeadingSpace(s) == 0;
      assert s[0..] == s;
    }
  }

  /** The first whitespace-delimited token of a line that is not blank
      (`line.split()[0]`). */
  function FirstToken(s: string): (t: string)
    requires !AllSpace(s)
    ensures t != [] && NoSpace(t)
    ensures var k := LeadingSpace(s);
      && k + |t| <= |s|
      && t == s[k..k + |t|]
      && (k + |t| == |s| || IsSpace(s[k + |t|]))
  {
    SplitFirstWord(s);
    Split(s)[0]
  }

  /** A string containing `c` is not blank unless `c` is whitespace. */
  lemma ContainsNonSpace(s: string, c: char)
    requires c in s && !IsSpace(c)
    ensures !AllSpace(s)
  {
    var i :| 0 <= i < |s| && s[i] == c;
  }

  /** The first word of a word followed by whitespace (or nothing) is that word. */
  lemma FirstTokenOfWord(w: string, rest: string)
    requires w != [] && NoSpace(w)
    requires rest == [] || IsSpace(rest[0])
    ensures !AllSpace(w + rest) && FirstToken(w + rest) == w
  {
    var s := w + rest;
    assert s[0] == w[0];
    assert LeadingSpace(s) == 0;
    var t := FirstToken(s);
    assert t == s[..|t|];
    assert forall i :: 0 <= i < |w| ==> s[i] == w[i];
    assert |s| > |w| ==> s[|w|] == rest[0];
    if |t| < |w| {
      assert false;
    } else if |t| > |w| {
      assert false;
    }
    assert s[..|w|] == w;
  }

  /** Python's `s.endswith(suffix)`. */
  predicate EndsWith(s: string, suffix: string) {
    |suffix| <= |s| && s[|s| - |suffix|..] == suffix
  }
}
