/** `log`: walks the commit chain from HEAD through the "Parent:" lines,
    printing one block per commit. The printed lines are the result here;
    a failure keeps what was printed before it.
 */
module History {
  import opened Results
  import opened Hex
  import opened Text
  import opened ObjectStore
  import opened Staging
  import opened Refs
  import opened Commits

  const AUTHOR_LINE: string := "Author: Shreya Koka <shreya.koka@students.iiit.ac.in>"

  /** Output `out`, then whatever `r` prints. */
  function Then(out: seq<string>, r: Run<seq<string>>): (t: Run<seq<string>>)
    ensures t.state == out + r.state
    ensures t.Completed? <==> r.Completed?
    ensures t.Aborted? ==> t.error == r.error
  {
    match r
    case Completed(s) => Completed(out + s)
    case Aborted(e, s) => Aborted(e, out + s)
  }

  /** The loop over one commit object's lines: prints its parent, message and
      date lines, and returns the digest on the last "Parent:" line ("" when
      there is none). `substr(8)` and `substr(6)` throw on a bare "Parent:" or
      "Date:" line. */
  function ScanCommit(lines: seq<string>, parent: string): (r: Run<(seq<string>, string)>)
    ensures r.Aborted? ==> r.error == OutOfRange
    ensures (forall i :: 0 <= i < |lines| ==> !StartsWith(lines[i], PARENT_TAG)) && r.Completed? ==> r.state.1 == parent
  {
    if lines == [] then Completed(([], parent))
    else
      var l := lines[0];
      assert forall i :: 1 <= i < |lines| ==> lines[1..][i - 1] == lines[i];
      if StartsWith(l, PARENT_TAG) then
        match Substr(l, 8)
        case Err(e) => Aborted(e, ([], parent))
        case Ok(p) => Emit("Parent SHA: " + p, ScanCommit(lines[1..], p))
      else if StartsWith(l, MESSAGE_TAG) then
        Emit("Commit message: " + l[15..], ScanCommit(lines[1..], parent))
      else if StartsWith(l, DATE_TAG) then
        match Substr(l, 6)
        case Err(e) => Aborted(e, ([], parent))
        case Ok(d) => Emit("Date: " + d, ScanCommit(lines[1..], parent))
      else ScanCommit(lines[1..], parent)
  }

  function Emit(line: string, r: Run<(seq<string>, string)>): (t: Run<(seq<string>, string)>)
    ensures t.state == ([line] + r.state.0, r.state.1)
    ensures t.Completed? <==> r.Completed?
    ensures t.Aborted? ==> t.error == r.error
  {
    match r
    case Completed((out, p)) => Completed(([line] + out, p))
    case Aborted(e, (out, p)) => Aborted(e, ([line] + out, p))
  }

  /** The `while (!currCommit.empty())` loop, from commit `cur`, for at most
      `fuel` commits. */
  function LogFrom(st: Store, cur: string, fuel: nat): (r: Run<seq<string>>)
    ensures cur == "" ==> r == Completed([])
    ensures cur != "" && fuel > 0 && Exists(st, cur) && Read(st, cur).value != "" ==> |r.state| > 0 && r.state[0] == "SHA: " + cur
    ensures cur != "" && fuel > 0 && Read(st, cur) == Ok("") ==> r == Completed(["Commit info not found"])
    ensures cur != "" && fuel > 0 && Read(st, cur).Err? ==> r.Aborted? && r.error == Read(st, cur).error
    ensures cur != "" && fuel > 0 && Read(st, cur).Err? && Read(st, cur).error.ObjectNotFound? ==> r.state == ["Object not found"]
    decreases fuel
  {
    if cur == "" then Completed([])
    else if fuel == 0 then Aborted(OutOfFuel, [])
    else match Read(st, cur)
      case Err(e) => Aborted(e, if e.ObjectNotFound? then ["Object not found"] else [])
      case Ok(data) =>
        if data == "" then Completed(["Commit info not found"])
        else match ScanCommit(Lines(data), "")
          case Aborted(e, (out, _)) => Aborted(e, ["SHA: " + cur] + out)
          case Completed((out, parent)) =>
            Then(["SHA: " + cur] + out + [AUTHOR_LINE, ""], LogFrom(st, parent, fuel - 1))
  }

  /** `log`: HEAD resolved as `parentCommit` does; no HEAD file means no history. */
  function Log(meta: Meta, st: Store, fuel: nat): (r: Run<seq<string>>)
    ensures HEAD_PATH !in meta ==> r == Completed(["No commit history"])
    ensures ResolveHead(meta) == Ok("") && HEAD_PATH in meta ==> r == Completed([])
  {
    if HEAD_PATH !in meta then Completed(["No commit history"])
    else match ResolveHead(meta)
      case Err(e) => Aborted(e, [])
      case Ok(h) => LogFrom(st, h, fuel)
  }

  /** The block `log` prints for a commit with the given parent, message and date. */
  function Block(digest: string, parent: string, message: string, day: string): seq<string> {
    ["SHA: " + digest]
    + (if parent == "" then [] else ["Parent SHA: " + parent])
    + ["Commit message:  " + message, "Date: " + day, AUTHOR_LINE, ""]
  }

  lemma ScanParent(l: string, rest: seq<string>, parent: string)
    requires StartsWith(l, PARENT_TAG) && |l| >= 8
    ensures ScanCommit([l] + rest, parent) == Emit("Parent SHA: " + l[8..], ScanCommit(rest, l[8..]))
  {
    assert ([l] + rest)[1..] == rest;
  }

  lemma ScanMessage(l: string, rest: seq<string>, parent: string)
    requires !StartsWith(l, PARENT_TAG) && StartsWith(l, MESSAGE_TAG)
    ensures ScanCommit([l] + rest, parent) == Emit("Commit message: " + l[15..], ScanCommit(rest, parent))
  {
    assert ([l] + rest)[1..] == rest;
  }

  lemma ScanDate(l: string, rest: seq<string>, parent: string)
    requires !StartsWith(l, PARENT_TAG) && !StartsWith(l, MESSAGE_TAG) && StartsWith(l, DATE_TAG) && |l| >= 6
    ensures ScanCommit([l] + rest, parent) == Emit("Date: " + l[6..], ScanCommit(rest, parent))
  {
    assert ([l] + rest)[1..] == rest;
  }

  lemma ScanOther(l: string, rest: seq<string>, parent: string)
    requires !StartsWith(l, PARENT_TAG) && !StartsWith(l, MESSAGE_TAG) && !StartsWith(l, DATE_TAG)
    ensures ScanCommit([l] + rest, parent) == ScanCommit(rest, parent)
  {
    assert ([l] + rest)[1..] == rest;
  }

  /** A line made of `tag` and more starts with every prefix of `tag`. */
  lemma Tagged(tag: string, more: string, n: nat)
    requires n <= |tag|
    ensures StartsWith(tag + more, tag[..n])
  {
    assert (tag + more)[..n] == tag[..n];
  }

  /** Lines starting with different characters do not share a prefix. */
  lemma Untagged(s: string, p: string)
    requires |s| > 0 && |p| > 0 && s[0] != p[0]
    ensures !StartsWith(s, p)
  {
  }

  /** The message and date lines of a commit object scan to their output. */
  lemma ScanTail(message: string, day: string, parent: string)
    ensures ScanCommit(["Commit message: " + message, "Date: " + day], parent) ==
              Completed((["Commit message:  " + message, "Date: " + day], parent))
  {
    var ml, dl := "Commit message: " + message, "Date: " + day;
    var dateOut, msgOut := "Date: " + day, "Commit message:  " + message;
    var none: seq<string> := [];
    assert ml[0] == 'C' && dl[0] == 'D';
    Untagged(ml, PARENT_TAG);
    Untagged(dl, PARENT_TAG);
    Untagged(dl, MESSAGE_TAG);
    Tagged("Commit message: ", message, 15);
    Tagged("Date: ", day, 5);
    assert ml[15..] == " " + message;
    assert dl[6..] == day;
    assert "Commit message: " + ml[15..] == msgOut;
    ScanDate(dl, none, parent);
    assert [dl] == [dl] + none;
    assert ScanCommit([dl], parent) == Completed(([dateOut], parent));
    ScanMessage(ml, [dl], parent);
    assert [ml] + [dl] == [ml, dl];
    assert [msgOut] + [dateOut] == [msgOut, dateOut];
  }

  /** A commit object's lines scan to its parent, message and date. */
  lemma ScanCommitLines(tree: string, parent: string, message: string, day: string)
    requires OneLine(tree) && OneLine(parent) && OneLine(message) && OneLine(day)
    ensures ScanCommit(Lines(CommitText(tree, parent, message, day + "\n")), "") ==
              Completed(((if parent == "" then [] else ["Parent SHA: " + parent])
                         + ["Commit message:  " + message, "Date: " + day], parent))
  {
    CommitLines(tree, parent, message, day);
    var tl, pl := "Tree: " + tree, "Parent: " + parent;
    var tail := ["Commit message: " + message, "Date: " + day];
    var outs := ["Commit message:  " + message, "Date: " + day];
    var none: seq<string> := [];
    ScanTail(message, day, parent);
    assert tl[0] == 'T';
    Untagged(tl, PARENT_TAG);
    Untagged(tl, MESSAGE_TAG);
    Untagged(tl, DATE_TAG);
    if parent == "" {
      ScanOther(tl, tail, "");
      assert [tl] + none + tail == [tl] + tail;
      assert none + outs == outs;
    } else {
      var pOut := "Parent SHA: " + parent;
      Tagged("Parent: ", parent, 7);
      assert pl[8..] == parent;
      ScanParent(pl, tail, "");
      ScanOther(tl, [pl] + tail, "");
      assert [tl] + [pl] + tail == [tl] + ([pl] + tail);
    }
  }

  /** `log`'s loop on a commit object: its block, then the walk from its parent. */
  lemma LogFromCommit(st: Store, digest: string, tree: string, parent: string, message: string, day: string, fuel: nat)
    requires digest != "" && OneLine(tree) && OneLine(parent) && OneLine(message) && OneLine(day)
    requires Read(st, digest) == Ok(CommitText(tree, parent, message, day + "\n"))
    ensures LogFrom(st, digest, fuel + 1) == Then(Block(digest, parent, message, day), LogFrom(st, parent, fuel))
  {
    ScanCommitLines(tree, parent, message, day);
    var out := (if parent == "" then [] else ["Parent SHA: " + parent]) + ["Commit message:  " + message, "Date: " + day];
    assert ["SHA: " + digest] + out + [AUTHOR_LINE, ""] == Block(digest, parent, message, day);
  }

  /** After a commit, `log` prints the new commit's block first and then
      continues exactly as from the previous head: the new commit is
      chained in front of the old history. */
  lemma LogAfterCommit(sha: Hasher, meta: Meta, st: Store, message: string, day: string, fuel: nat)
    requires HEAD_PATH in meta && OneLine(message) && OneLine(day)
    requires Commit(sha, meta, st, message, day + "\n").Ok?
    ensures var c := Commit(sha, meta, st, message, day + "\n").value;
            var parent := ResolveHead(meta).value;
            Log(c.meta, c.store, fuel + 1) == Then(Block(c.digest, parent, message, day), LogFrom(c.store, parent, fuel))
  {
    var c := Commit(sha, meta, st, message, day + "\n").value;
    DigestIsWord(c.tree);
    DigestIsWord(c.digest);
    LogFromCommit(c.store, c.digest, c.tree, ResolveHead(meta).value, message, day, fuel);
  }
}
