/** The text primitives the program gets from the C++ standard library:
    `getline` (line splitting), `operator>>` on strings (whitespace-separated
    words), `find` and `substr`. Every on-disk format of the repository is
    read back through these.
 */
module Text {
  import opened Results

  /** The characters `isspace` accepts in the "C" locale; `operator>>` stops a
      word at any of them and skips runs of them between words. */
  predicate IsSpace(c: char) {
    c == ' ' || c == '\t' || c == '\n' || c == '\r' || c == '\U{0B}' || c == '\U{0C}'
  }

  /** A string that `operator>>` reads back as exactly one word. */
  predicate IsToken(w: string) {
    |w| > 0 && forall i :: 0 <= i < |w| ==> !IsSpace(w[i])
  }

  /** A string `getline` reads back as exactly one line. */
  predicate OneLine(l: string) {
    '\n' !in l
  }

  // ---------------------------------------------------------------------------
  // Words: repeated `stream >> word`
  // ---------------------------------------------------------------------------

  /** Length of the longest prefix of `s` without whitespace. */
  function WordEnd(s: string): (n: nat)
    ensures n <= |s|
    ensures forall i :: 0 <= i < n ==> !IsSpace(s[i])
    ensures n < |s| ==> IsSpace(s[n])
  {
    if |s| == 0 || IsSpace(s[0]) then 0 else 1 + WordEnd(s[1..])
  }

  /** The words successive `>>` extractions read from `s`, until the stream fails. */
  function Words(s: string): (ws: seq<string>)
    ensures forall i :: 0 <= i < |ws| ==> IsToken(ws[i])
    decreases |s|
  {
    if |s| == 0 then []
    else if IsSpace(s[0]) then Words(s[1..])
    else
      var n := WordEnd(s);
      [s[..n]] + Words(s[n..])
  }

  /** The `i`-th word, or "" when the line ran out first: the program
      extracts into freshly declared, empty strings. */
  function Field(ws: seq<string>, i: nat): (f: string)
    ensures i < |ws| ==> f == ws[i]
    ensures i >= |ws| ==> f == ""
  {
    if i < |ws| then ws[i] else ""
  }

  lemma {:induction false} WordEndOfToken(w: string, rest: string)
    requires forall i :: 0 <= i < |w| ==> !IsSpace(w[i])
    requires |rest| == 0 || IsSpace(rest[0])
    ensures WordEnd(w + rest) == |w|
    decreases |w|
  {
    if |w| > 0 {
      assert (w + rest)[1..] == w[1..] + rest;
      WordEndOfToken(w[1..], rest);
    } else {
      assert w + rest == rest;
    }
  }

  /** A token followed by a separator is read back as one word. */
  lemma WordsCons(w: string, sep: char, rest: string)
    requires IsToken(w) && IsSpace(sep)
    ensures Words(w + [sep] + rest) == [w] + Words(rest)
  {
    var s := w + [sep] + rest;
    assert s == w + ([sep] + rest);
    WordEndOfToken(w, [sep] + rest);
    assert s[..|w|] == w;
    assert s[|w|..] == [sep] + rest;
    assert ([sep] + rest)[1..] == rest;
  }

  /** A token on its own is read back as one word. */
  lemma WordsOfToken(w: string)
    requires IsToken(w)
    ensures Words(w) == [w]
  {
    WordEndOfToken(w, "");
    assert w + "" == w;
  }

  // ---------------------------------------------------------------------------
  // Lines: repeated `getline(stream, line)`
  // ---------------------------------------------------------------------------

  /** Index of the first `c` in `s`, or |s| when there is none. */
  function Until(s: string, c: char): (n: nat)
    ensures n <= |s|
    ensures c !in s[..n]
    ensures n < |s| ==> s[n] == c
  {
    if |s| == 0 || s[0] == c then 0
    else
      var n := 1 + Until(s[1..], c);
      assert s[..n] == [s[0]] + s[1..][..n - 1];
      n
  }

  lemma {:induction false} UntilOf(l: string, c: char, rest: string)
    requires c !in l
    ensures Until(l + [c] + rest, c) == |l|
    decreases |l|
  {
    if |l| > 0 {
      assert (l + [c] + rest)[1..] == l[1..] + [c] + rest;
      assert l == [l[0]] + l[1..];
      UntilOf(l[1..], c, rest);
    } else {
      assert l + [c] + rest == [c] + rest;
    }
  }

  /** The pieces of `s` between occurrences of `c`; there is always at least one. */
  function Split(s: string, c: char): (ps: seq<string>)
    ensures |ps| > 0
    decreases |s|
  {
    var n := Until(s, c);
    if n == |s| then [s] else [s[..n]] + Split(s[n + 1..], c)
  }

  /** One step of `Split`: the piece before the first separator, then the rest. */
  lemma SplitStep(l: string, c: char, rest: string)
    requires c !in l
    ensures Split(l + [c] + rest, c) == [l] + Split(rest, c)
  {
    var s := l + [c] + rest;
    UntilOf(l, c, rest);
    assert s[..|l|] == l;
    assert s[|l| + 1..] == rest;
  }

  lemma Regroup(l: string, a: string, b: string, c: char)
    ensures (l + [c] + a) + [c] + b == l + [c] + (a + [c] + b)
  {
  }

  lemma SplitJoinCons(l: string, a: string, b: string, c: char)
    requires c !in l
    requires Split(a + [c] + b, c) == Split(a, c) + Split(b, c)
    ensures Split((l + [c] + a) + [c] + b, c) == Split(l + [c] + a, c) + Split(b, c)
  {
    var x := a + [c] + b;
    Regroup(l, a, b, c);
    SplitStep(l, c, x);
    SplitStep(l, c, a);
    calc {
      Split((l + [c] + a) + [c] + b, c);
      Split(l + [c] + x, c);
      [l] + Split(x, c);
      [l] + (Split(a, c) + Split(b, c));
      { SeqAssoc([l], Split(a, c), Split(b, c)); }
      ([l] + Split(a, c)) + Split(b, c);
      Split(l + [c] + a, c) + Split(b, c);
    }
  }

  lemma SeqAssoc<T>(x: seq<T>, y: seq<T>, z: seq<T>)
    ensures x + (y + z) == (x + y) + z
  {
  }

  /** Splitting at a separator inserted between two strings splits each side. */
  lemma {:induction false} SplitJoin(a: string, b: string, c: char)
    ensures Split(a + [c] + b, c) == Split(a, c) + Split(b, c)
    decreases |a|
  {
    var n := Until(a, c);
    if n == |a| {
      assert a[..n] == a;
      SplitStep(a, c, b);
    } else {
      var l, a' := a[..n], a[n + 1..];
      assert a == l + [c] + a';
      SplitJoin(a', b, c);
      SplitJoinCons(l, a', b, c);
    }
  }

  /** The lines `getline` yields: a final newline does not start an empty
      line, an unterminated last line is still a line. */
  function Lines(s: string): (ls: seq<string>)
    ensures forall i :: 0 <= i < |ls| ==> OneLine(ls[i])
    decreases |s|
  {
    if |s| == 0 then []
    else
      var n := Until(s, '\n');
      if n == |s| then [s] else [s[..n]] + Lines(s[n + 1..])
  }

  /** What a single `getline` yields: the first line, or "" when there is none. */
  function FirstLine(s: string): (l: string)
    ensures OneLine(l)
  {
    var ls := Lines(s);
    if ls == [] then "" else ls[0]
  }

  lemma LinesCons(l: string, rest: string)
    requires OneLine(l)
    ensures Lines(l + "\n" + rest) == [l] + Lines(rest)
  {
    var s := l + "\n" + rest;
    UntilOf(l, '\n', rest);
    assert s[..|l|] == l;
    assert s[|l| + 1..] == rest;
  }

  lemma FirstLineOf(l: string, rest: string)
    requires OneLine(l)
    ensures FirstLine(l + "\n" + rest) == l
  {
    LinesCons(l, rest);
  }

  // ---------------------------------------------------------------------------
  // find and substr
  // ---------------------------------------------------------------------------

  /** `s.find(p) == 0` */
  predicate StartsWith(s: string, p: string) {
    |p| <= |s| && s[..|p|] == p
  }

  /** `s.find(p) != string::npos` */
  predicate Contains(s: string, p: string)
    decreases |s|
  {
    StartsWith(s, p) || (|s| > 0 && Contains(s[1..], p))
  }

  /** A non-empty pattern occurs only where its first character does. */
  lemma {:induction false} ContainsFirstChar(s: string, p: string)
    requires |p| > 0 && Contains(s, p)
    ensures p[0] in s
    decreases |s|
  {
    if StartsWith(s, p) {
      assert s[0] == s[..|p|][0];
    } else {
      ContainsFirstChar(s[1..], p);
      assert s == [s[0]] + s[1..];
    }
  }

  /** `s.substr(pos)`: throws std::out_of_range when `pos > s.size()`. */
  function Substr(s: string, pos: nat): (r: Result<string>)
    ensures r.Ok? <==> pos <= |s|
    ensures r.Ok? ==> s == s[..pos] + r.value
  {
    if pos <= |s| then Ok(s[pos..]) else Err(OutOfRange)
  }
}
