/** HEAD and branch references. `.mygit/HEAD` holds either a commit digest
    or a symbolic line `ref: <path>` naming a file under `.mygit` that holds
    the digest. `parentCommit` and the head reading of `log` resolve it; the
    last block of `commit` and of `checkout` moves it.
 */
module Refs {
  import opened Results
  import opened Hex
  import opened Text
  import opened Staging

  const HEAD_PATH: string := ".mygit/HEAD"

  /** A HEAD line is symbolic when it mentions this anywhere. */
  const REF_MARK: string := "ref:"

  /** The first line of HEAD, when the file exists. */
  function HeadLine(meta: Meta): Option<string> {
    if HEAD_PATH in meta then Some(FirstLine(meta[HEAD_PATH])) else None
  }

  /** `".mygit/" + line.substr(5)`: the file a symbolic line names. */
  function RefPath(line: string): (r: Result<string>)
    ensures r.Ok? <==> |line| >= 5
    ensures r.Ok? ==> r.value == ".mygit/" + line[5..]
  {
    var rest :- Substr(line, 5);
    Ok(".mygit/" + rest)
  }

  /** `parentCommit`: the digest HEAD leads to; "" when HEAD is missing. A
      symbolic line whose file is missing is returned as it stands. */
  function ResolveHead(meta: Meta): (r: Result<string>)
    ensures HEAD_PATH !in meta ==> r == Ok("")
    ensures HEAD_PATH in meta && !Contains(HeadLine(meta).value, REF_MARK) ==> r == Ok(HeadLine(meta).value)
    ensures r.Err? <==> HEAD_PATH in meta && Contains(HeadLine(meta).value, REF_MARK) && |HeadLine(meta).value| < 5
    ensures r.Err? ==> r.error == OutOfRange
    ensures r.Ok? ==> OneLine(r.value)
  {
    match HeadLine(meta)
    case None => Ok("")
    case Some(line) =>
      if Contains(line, REF_MARK) then
        var path :- RefPath(line);
        if path in meta then Ok(FirstLine(meta[path])) else Ok(line)
      else Ok(line)
  }

  /** The HEAD update at the end of `commit` and `checkout`: writes `h` and a
      newline to the file a symbolic HEAD names, or over HEAD itself; does
      nothing when HEAD is missing. */
  function Advance(meta: Meta, h: string): (r: Result<Meta>)
    ensures HEAD_PATH !in meta ==> r == Ok(meta)
    ensures r.Err? <==> HEAD_PATH in meta && Contains(HeadLine(meta).value, REF_MARK) && |HeadLine(meta).value| < 5
    ensures r.Err? ==> r.error == OutOfRange
    ensures r.Ok? ==> forall p :: p in meta ==> p in r.value
    ensures r.Ok? ==> forall p :: p in r.value && (p !in meta || r.value[p] != meta[p]) ==> r.value[p] == h + "\n"
  {
    match HeadLine(meta)
    case None => Ok(meta)
    case Some(line) =>
      if Contains(line, REF_MARK) then
        var path :- RefPath(line);
        Ok(meta[path := h + "\n"])
      else Ok(meta[HEAD_PATH := h + "\n"])
  }

  /** Moving HEAD to a digest, then resolving it, gives that digest back:
      the branch a symbolic HEAD names now holds it, or HEAD itself does.
      Any line without a newline and without "ref:" behaves like a digest. */
  lemma ResolveAfterAdvance(meta: Meta, h: string)
    requires OneLine(h) && !Contains(h, REF_MARK)
    ensures HEAD_PATH in meta && Advance(meta, h).Ok? ==> ResolveHead(Advance(meta, h).value) == Ok(h)
  {
    if HEAD_PATH in meta && Advance(meta, h).Ok? {
      var m := Advance(meta, h).value;
      var line := HeadLine(meta).value;
      FirstLineOf(h, "");
      assert h + "\n" == h + "\n" + "";
      if Contains(line, REF_MARK) {
        var path := RefPath(line).value;
        if path != HEAD_PATH {
          assert HeadLine(m) == Some(line);
        }
      }
    }
  }

  /** A symbolic HEAD stays symbolic: the update writes the branch file, so
      HEAD still names the same branch afterwards. */
  lemma AdvanceKeepsBranch(meta: Meta, h: string)
    requires HEAD_PATH in meta && Advance(meta, h).Ok?
    requires Contains(HeadLine(meta).value, REF_MARK)
    requires RefPath(HeadLine(meta).value).value != HEAD_PATH
    ensures HeadLine(Advance(meta, h).value) == HeadLine(meta)
  {
  }

  /** A digest resolves as a plain HEAD line. */
  lemma DigestResolves(meta: Meta, h: string)
    requires IsDigest(h)
    ensures HEAD_PATH in meta && Advance(meta, h).Ok? ==> ResolveHead(Advance(meta, h).value) == Ok(h)
  {
    DigestIsWord(h);
    ResolveAfterAdvance(meta, h);
  }
}
