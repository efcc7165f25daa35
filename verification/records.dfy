/** The four-field line `<mode> <kind> <digest> <name>` shared by tree
    objects (a4.cpp:176, 181, 406) and the staging index (a4.cpp:292, 434),
    and the two ways the program reads it back: line by line with a
    `linestream` per line (tree objects), or as one stream of words taken four
    at a time (the index file).
 */
module Records {
  import opened Text

  const FILE_MODE: string := "100644"
  const DIR_MODE: string := "040000"
  const BLOB: string := "blob"
  const TREE: string := "tree"

  datatype Record = Record(mode: string, kind: string, digest: string, path: string)

  /** Every field reads back as exactly one word. */
  predicate WellFormed(r: Record) {
    IsToken(r.mode) && IsToken(r.kind) && IsToken(r.digest) && IsToken(r.path)
  }

  predicate AllWellFormed(rs: seq<Record>) {
    forall i :: 0 <= i < |rs| ==> WellFormed(rs[i])
  }

  /** One line as written, without its newline. */
  function Line(r: Record): string {
    r.mode + " " + r.kind + " " + r.digest + " " + r.path
  }

  /** The records written one per line, in order. */
  function Format(rs: seq<Record>): string {
    if rs == [] then "" else Line(rs[0]) + "\n" + Format(rs[1..])
  }

  /** `linestream >> mode >> type >> hash >> name` on one line; missing
      fields stay empty and words after the fourth are ignored. */
  function ParseLine(line: string): (r: Record)
    ensures |Words(line)| >= 4 ==> WellFormed(r)
    ensures |Words(line)| < 4 ==> r.path == ""
    ensures |Words(line)| < 3 ==> r.digest == ""
    ensures |Words(line)| < 2 ==> r.kind == ""
    ensures |Words(line)| < 1 ==> r.mode == ""
  {
    var ws := Words(line);
    Record(Field(ws, 0), Field(ws, 1), Field(ws, 2), Field(ws, 3))
  }

  /** One record per `getline` line of a tree object. */
  function ParseLines(lines: seq<string>): (rs: seq<Record>)
    ensures |rs| == |lines|
    ensures forall i :: 0 <= i < |rs| ==> rs[i] == ParseLine(lines[i])
  {
    if lines == [] then [] else [ParseLine(lines[0])] + ParseLines(lines[1..])
  }

  /** `while (in >> mode >> type >> hash >> path)`: words grouped by four; a
      trailing group of fewer than four ends the loop and is dropped. */
  function Quads(ws: seq<string>): (rs: seq<Record>)
    ensures |rs| == |ws| / 4
    ensures (forall i :: 0 <= i < |ws| ==> IsToken(ws[i])) ==> AllWellFormed(rs)
  {
    if |ws| < 4 then [] else [Record(ws[0], ws[1], ws[2], ws[3])] + Quads(ws[4..])
  }

  /** The records the index-file loop reads from `text`. */
  function ParseStream(text: string): (rs: seq<Record>)
    ensures AllWellFormed(rs)
  {
    Quads(Words(text))
  }

  /** A well-formed line splits into exactly its four fields followed by the
      words of whatever comes after the separator. */
  lemma WordsOfLine(r: Record, sep: char, rest: string)
    requires WellFormed(r) && IsSpace(sep)
    ensures Words(Line(r) + [sep] + rest) == [r.mode, r.kind, r.digest, r.path] + Words(rest)
  {
    LineSplit(r, sep, rest);
    WordsOfFour(r.mode, r.kind, r.digest, r.path, sep, rest);
  }

  lemma WordsOfFour(a: string, b: string, c: string, d: string, sep: char, rest: string)
    requires IsToken(a) && IsToken(b) && IsToken(c) && IsToken(d) && IsSpace(sep)
    ensures Words(a + [' '] + (b + [' '] + (c + [' '] + (d + [sep] + rest)))) == [a, b, c, d] + Words(rest)
  {
    var s3 := d + [sep] + rest;
    var s2 := c + [' '] + s3;
    var s1 := b + [' '] + s2;
    var w := Words(rest);
    WordsCons(d, sep, rest);
    WordsCons(c, ' ', s3);
    WordsCons(b, ' ', s2);
    WordsCons(a, ' ', s1);
    ConsFour(a, b, c, d, w);
  }

  lemma ConsFour(a: string, b: string, c: string, d: string, w: seq<string>)
    ensures [a] + ([b] + ([c] + ([d] + w))) == [a, b, c, d] + w
  {
  }

  lemma LineSplit(r: Record, sep: char, rest: string)
    ensures Line(r) + [sep] + rest
         == r.mode + [' '] + (r.kind + [' '] + (r.digest + [' '] + (r.path + [sep] + rest)))
  {
    var a := r.path + [sep] + rest;
    assert Line(r) + [sep] + rest == (r.mode + " " + r.kind + " " + r.digest + " ") + a;
    var b := r.digest + [' '] + a;
    assert (r.mode + " " + r.kind + " " + r.digest + " ") + a == (r.mode + " " + r.kind + " ") + b;
    var c := r.kind + [' '] + b;
    assert (r.mode + " " + r.kind + " ") + b == (r.mode + " ") + c;
  }

  lemma ParseLineOfLine(r: Record)
    requires WellFormed(r)
    ensures ParseLine(Line(r)) == r
  {
    var s3 := r.digest + " " + r.path;
    var s2 := r.kind + " " + s3;
    assert Line(r) == r.mode + [' '] + s2;
    WordsOfToken(r.path);
    WordsCons(r.digest, ' ', r.path);
    WordsCons(r.kind, ' ', s3);
    WordsCons(r.mode, ' ', s2);
  }

  /** A tree object's text, read back line by line, gives back its records. */
  lemma {:induction false} ParseLinesOfFormat(rs: seq<Record>)
    requires AllWellFormed(rs)
    ensures ParseLines(Lines(Format(rs))) == rs
  {
    if rs != [] {
      LinesCons(Line(rs[0]), Format(rs[1..]));
      ParseLineOfLine(rs[0]);
      ParseLinesOfFormat(rs[1..]);
    }
  }

  /** The index file's text, read back as a word stream, gives back its records. */
  lemma {:induction false} ParseStreamOfFormat(rs: seq<Record>)
    requires AllWellFormed(rs)
    ensures ParseStream(Format(rs)) == rs
  {
    if rs != [] {
      var r := rs[0];
      WordsOfLine(r, '\n', Format(rs[1..]));
      assert Format(rs) == Line(r) + ['\n'] + Format(rs[1..]);
      var ws := [r.mode, r.kind, r.digest, r.path] + Words(Format(rs[1..]));
      assert ws[4..] == Words(Format(rs[1..]));
      ParseStreamOfFormat(rs[1..]);
    }
  }

  /** Formatting distributes over concatenation. */
  lemma {:induction false} FormatAppend(a: seq<Record>, b: seq<Record>)
    ensures Format(a + b) == Format(a) + Format(b)
  {
    if a != [] {
      assert (a + b)[1..] == a[1..] + b;
      FormatAppend(a[1..], b);
    } else {
      assert a + b == b;
    }
  }
}
