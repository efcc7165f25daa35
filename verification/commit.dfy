/** `commit`: turns the staged index into a tree object layered over the
    parent commit's tree, writes a commit object pointing at it, clears the
    index and moves HEAD.
 */
module Commits {
  import opened Results
  import opened Hex
  import opened Text
  import opened Records
  import opened ObjectStore
  import opened Staging
  import opened Refs

  const TREE_TAG: string := "Tree:"
  const PARENT_TAG: string := "Parent:"
  const MESSAGE_TAG: string := "Commit message:"
  const DATE_TAG: string := "Date:"

  /** The scan shared by `prevTree` and `checkout`: on the first line that
      begins with "Tree:", what follows its first six characters; "" when no
      line begins so. `line.substr(6)` throws on a line that is exactly "Tree:". */
  function TreeField(lines: seq<string>): (r: Result<string>)
    ensures (forall i :: 0 <= i < |lines| ==> !StartsWith(lines[i], TREE_TAG)) ==> r == Ok("")
    ensures lines != [] && StartsWith(lines[0], TREE_TAG) ==> r == Substr(lines[0], 6)
    ensures r.Err? ==> r.error == OutOfRange
  {
    if lines == [] then Ok("")
    else if StartsWith(lines[0], TREE_TAG) then Substr(lines[0], 6)
    else
      assert forall i :: 1 <= i < |lines| ==> lines[1..][i - 1] == lines[i];
      TreeField(lines[1..])
  }

  /** `prevTree`: the tree digest of commit `parent`, "" for no parent. */
  function PrevTree(st: Store, parent: string): (r: Result<string>)
    ensures parent == "" ==> r == Ok("")
    ensures parent != "" && !Exists(st, parent) ==> r == Read(st, parent).PropagateFailure()
    ensures r.Err? ==> r.error == OutOfRange || r.error.ObjectNotFound?
  {
    if parent == "" then Ok("")
    else
      var text :- Read(st, parent);
      TreeField(Lines(text))
  }

  /** The parent tree's lines whose path was not staged, in order. */
  function Kept(rs: seq<Record>, staged: set<string>): (r: seq<Record>)
    ensures forall x :: x in r <==> x in rs && x.path !in staged
    ensures |r| <= |rs|
  {
    if rs == [] then []
    else if rs[0].path in staged then Kept(rs[1..], staged)
    else [rs[0]] + Kept(rs[1..], staged)
  }

  /** `createCommitTree`: the parent tree's lines, each re-read as four words
      and written back, except those whose path is staged. */
  function Inherited(st: Store, prevTree: string, staged: set<string>): (r: Result<string>)
    ensures prevTree == "" ==> r == Ok("")
    ensures prevTree != "" ==> (r.Ok? <==> Exists(st, prevTree))
    ensures r.Err? ==> r == Read(st, prevTree).PropagateFailure()
  {
    if prevTree == "" then Ok("")
    else
      var text :- Read(st, prevTree);
      Ok(Format(Kept(ParseLines(Lines(text)), staged)))
  }

  /** The records of a tree object read as `lsTree` reads it, "" for none. */
  function TreeRecords(st: Store, tree: string): Result<seq<Record>> {
    if tree == "" then Ok([])
    else
      var text :- Read(st, tree);
      Ok(ParseLines(Lines(text)))
  }

  function PathsOf(rs: seq<Record>): set<string> {
    set i | 0 <= i < |rs| :: rs[i].path
  }

  /** The commit object's text. `date` is what `ctime` returns, newline included. */
  function CommitText(tree: string, parent: string, message: string, date: string): string {
    "Tree: " + tree + "\n"
    + (if parent == "" then "" else "Parent: " + parent + "\n")
    + "Commit message: " + message + "\n"
    + "Date: " + date
  }

  /** The commit text as a chain of newline-terminated lines. */
  lemma CommitTextChain(tree: string, parent: string, message: string, day: string)
    ensures var pp := if parent == "" then "" else ("Parent: " + parent) + "\n";
            CommitText(tree, parent, message, day + "\n")
            == ("Tree: " + tree) + "\n" + (pp + (("Commit message: " + message) + "\n" + (("Date: " + day) + "\n" + "")))
  {
  }

  lemma OneLineJoin(a: string, b: string)
    requires OneLine(a) && OneLine(b)
    ensures OneLine(a + b)
  {
  }

  /** The lines of a commit object whose message and date are one line each. */
  lemma CommitLines(tree: string, parent: string, message: string, day: string)
    requires OneLine(tree) && OneLine(parent) && OneLine(message) && OneLine(day)
    ensures Lines(CommitText(tree, parent, message, day + "\n")) ==
              ["Tree: " + tree]
              + (if parent == "" then [] else ["Parent: " + parent])
              + ["Commit message: " + message, "Date: " + day]
  {
    var tl, pl, ml, dl := "Tree: " + tree, "Parent: " + parent, "Commit message: " + message, "Date: " + day;
    OneLineJoin("Tree: ", tree);
    OneLineJoin("Parent: ", parent);
    OneLineJoin("Commit message: ", message);
    OneLineJoin("Date: ", day);
    var pp := if parent == "" then "" else pl + "\n";
    var t0 := dl + "\n" + "";
    var t1 := ml + "\n" + t0;
    CommitTextChain(tree, parent, message, day);
    LinesCons(dl, "");
    LinesCons(ml, t0);
    if parent != "" {
      LinesCons(pl, t1);
      LinesCons(tl, pl + "\n" + t1);
      ListFour(tl, pl, ml, dl);
    } else {
      assert pp + t1 == t1;
      LinesCons(tl, t1);
      ListThree(tl, ml, dl);
    }
  }

  lemma ListFour(a: string, b: string, c: string, d: string)
    ensures [a] + ([b] + ([c] + ([d] + Lines("")))) == [a] + [b] + [c, d]
  {
  }

  lemma ListThree(a: string, c: string, d: string)
    ensures [a] + ([c] + ([d] + Lines(""))) == [a] + [] + [c, d]
  {
  }

  /** The commit object reads back, through the scan `prevTree` and
      `checkout` use, as naming its tree. */
  lemma TreeFieldOfCommit(tree: string, parent: string, message: string, date: string)
    requires OneLine(tree)
    ensures TreeField(Lines(CommitText(tree, parent, message, date))) == Ok(tree)
  {
    var tl := "Tree: " + tree;
    var rest := CommitText(tree, parent, message, date)[|tl| + 1..];
    assert CommitText(tree, parent, message, date) == tl + "\n" + rest;
    LinesCons(tl, rest);
    assert tl[..5] == TREE_TAG;
    assert tl[6..] == tree;
  }

  /** The two objects `commit` writes, each unconditionally: the tree
      object, then the commit object naming it. Returns both digests. */
  function WriteObjects(sha: Hasher, st: Store, treeText: string, parent: string, message: string, date: string): (r: (string, string, Store))
    ensures r.0 == Digest(sha, treeText) && r.1 == Digest(sha, CommitText(r.0, parent, message, date))
    ensures Read(r.2, r.1) == Ok(CommitText(r.0, parent, message, date))
    ensures r.0 != r.1 ==> Read(r.2, r.0) == Ok(treeText)
    ensures forall g :: g != r.0 && g != r.1 ==> Read(r.2, g) == Read(st, g)
    ensures Sound(sha, st) ==> Sound(sha, r.2)
  {
    var tree := Digest(sha, treeText);
    StorePreservesSound(sha, st, treeText);
    var st1 := Write(st, tree, treeText);
    var text := CommitText(tree, parent, message, date);
    var digest := Digest(sha, text);
    StorePreservesSound(sha, st1, text);
    (tree, digest, Write(st1, digest, text))
  }

  /** The metadata writes of `commit`: the index file is truncated, then the
      HEAD update runs. Its only failure, a short symbolic line, is excluded
      by `parentCommit` having read the same line first. */
  function ClearAndAdvance(meta: Meta, digest: string): (m: Meta)
    requires ResolveHead(meta).Ok? && IsDigest(digest)
    ensures forall p :: p in meta ==> p in m
    ensures INDEX_PATH in m && m[INDEX_PATH] in {"", digest + "\n"}
    ensures HEAD_PATH in meta ==> ResolveHead(m) == Ok(digest)
    ensures forall p :: p != INDEX_PATH && p in m && (p !in meta || m[p] != meta[p]) ==> m[p] == digest + "\n"
  {
    var meta1 := meta[INDEX_PATH := ""];
    assert HeadLine(meta1) == HeadLine(meta);
    DigestResolves(meta1, digest);
    Advance(meta1, digest).value
  }

  datatype Committed = Committed(meta: Meta, store: Store, tree: string, digest: string)

  /** The tree text `commit` builds: the kept lines of the parent's tree,
      then the staged lines in index order. */
  function TreeText(st: Store, parent: string, index: string): (r: Result<string>)
    ensures r.Err? ==> r.error == OutOfRange || r.error.ObjectNotFound?
  {
    var prev :- PrevTree(st, parent);
    var staged := ParseStream(index);
    var inherited :- Inherited(st, prev, PathsOf(staged));
    Ok(inherited + Format(staged))
  }

  /** `commit(message)` at the time `date`. Every failure happens before
      anything is written, so an error leaves the repository as it was. */
  function Commit(sha: Hasher, meta: Meta, st: Store, message: string, date: string): (r: Result<Committed>)
    ensures r == Err(NothingStaged) <==> INDEX_PATH !in meta || meta[INDEX_PATH] == ""
    ensures r.Err? ==> r.error == NothingStaged || r.error == OutOfRange || r.error.ObjectNotFound?
    ensures r.Ok? ==> INDEX_PATH in meta && ResolveHead(meta).Ok? && TreeText(st, ResolveHead(meta).value, meta[INDEX_PATH]).Ok?
    ensures r.Ok? ==> Read(r.value.store, r.value.digest) == Ok(CommitText(r.value.tree, ResolveHead(meta).value, message, date))
    ensures r.Ok? && r.value.tree != r.value.digest ==>
              Read(r.value.store, r.value.tree) == TreeText(st, ResolveHead(meta).value, meta[INDEX_PATH])
    ensures r.Ok? ==> IsDigest(r.value.tree) && IsDigest(r.value.digest)
    ensures r.Ok? ==> INDEX_PATH in r.value.meta && r.value.meta[INDEX_PATH] in {"", r.value.digest + "\n"}
    ensures r.Ok? && HEAD_PATH in meta ==> ResolveHead(r.value.meta) == Ok(r.value.digest)
    ensures r.Ok? ==> forall p :: p in meta ==> p in r.value.meta
    ensures r.Ok? ==> forall p :: p != INDEX_PATH && p in r.value.meta && (p !in meta || r.value.meta[p] != meta[p]) ==>
                        r.value.meta[p] == r.value.digest + "\n"
    ensures r.Ok? ==> forall g :: g != r.value.tree && g != r.value.digest ==> Read(r.value.store, g) == Read(st, g)
    ensures r.Ok? && Sound(sha, st) ==> Sound(sha, r.value.store)
  {
    if INDEX_PATH !in meta || meta[INDEX_PATH] == "" then Err(NothingStaged)
    else
      var parent :- ResolveHead(meta);
      var treeText :- TreeText(st, parent, meta[INDEX_PATH]);
      var (tree, digest, st1) := WriteObjects(sha, st, treeText, parent, message, date);
      Ok(Committed(ClearAndAdvance(meta, digest), st1, tree, digest))
  }

  /** The tree a commit writes lists the parent tree's entries for unstaged
      paths, in their order, followed by the staged entries in index order.
      The tree and commit objects are assumed not to collide on one digest,
      since the commit object is written second. */
  lemma CommitTreeLists(sha: Hasher, meta: Meta, st: Store, message: string, date: string)
    requires Commit(sha, meta, st, message, date).Ok?
    requires var parent := ResolveHead(meta).value;
             TreeRecords(st, PrevTree(st, parent).value).Ok? &&
             AllWellFormed(TreeRecords(st, PrevTree(st, parent).value).value)
    requires var c := Commit(sha, meta, st, message, date).value; c.tree != c.digest
    ensures var c := Commit(sha, meta, st, message, date).value;
            var staged := ParseStream(meta[INDEX_PATH]);
            var before := TreeRecords(st, PrevTree(st, ResolveHead(meta).value).value).value;
            TreeRecords(c.store, c.tree) == Ok(Kept(before, PathsOf(staged)) + staged)
  {
    var c := Commit(sha, meta, st, message, date).value;
    var staged := ParseStream(meta[INDEX_PATH]);
    var prev := PrevTree(st, ResolveHead(meta).value).value;
    var before := TreeRecords(st, prev).value;
    var kept := Kept(before, PathsOf(staged));
    assert AllWellFormed(kept) by {
      forall i | 0 <= i < |kept| ensures WellFormed(kept[i]) {
        assert kept[i] in before;
      }
    }
    assert Inherited(st, prev, PathsOf(staged)) == Ok(Format(kept));
    FormatAppend(kept, staged);
    ParseLinesOfFormat(kept + staged);
    assert c.tree != "";
  }

  /** The new commit names its tree: `prevTree` of the new commit, read in
      the new store, is the tree just written. */
  lemma CommitNamesTree(sha: Hasher, meta: Meta, st: Store, message: string, date: string)
    requires Commit(sha, meta, st, message, date).Ok?
    ensures var c := Commit(sha, meta, st, message, date).value;
            PrevTree(c.store, c.digest) == Ok(c.tree)
  {
    var c := Commit(sha, meta, st, message, date).value;
    DigestIsWord(c.tree);
    TreeFieldOfCommit(c.tree, ResolveHead(meta).value, message, date);
  }
}
