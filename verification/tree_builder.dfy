/** `createTreeObj` and `lsTree`: a directory is recorded as a tree object
    listing one line per child, in enumeration order; subdirectories become
    tree objects of their own, written first.
 */
module TreeBuilder {
  import opened Results
  import opened Hex
  import opened Text
  import opened Records
  import opened ObjectStore
  import opened WorkTree

  /** `createTreeObj` skips only a subdirectory called `.mygit`; a regular file
      of that name is listed. */
  predicate Listed(n: Node) {
    !(n.Dir? && n.name == META_DIR)
  }

  /** The children that get a line, in order. */
  function Visible(kids: seq<Node>): (vs: seq<Node>)
    ensures forall n :: n in vs <==> n in kids && Listed(n)
  {
    if kids == [] then []
    else if Listed(kids[0]) then [kids[0]] + Visible(kids[1..])
    else Visible(kids[1..])
  }

  /** The lines of a directory's tree object, computed without a store: the
      reference `createTreeObj` is measured against. */
  function Entries(sha: Hasher, kids: seq<Node>): seq<Record>
    decreases kids, 0
  {
    if kids == [] then []
    else match kids[0]
      case File(n, data) => [Record(FILE_MODE, BLOB, Digest(sha, data), n)] + Entries(sha, kids[1..])
      case Dir(n, sub) =>
        if n == META_DIR then Entries(sha, kids[1..])
        else [Record(DIR_MODE, TREE, TreeDigest(sha, sub), n)] + Entries(sha, kids[1..])
  }

  /** The digest of a directory's tree object. */
  function TreeDigest(sha: Hasher, kids: seq<Node>): (d: string)
    ensures IsDigest(d)
    decreases kids, 1
  {
    Digest(sha, Format(Entries(sha, kids)))
  }

  /** The line one listed child gets. */
  function EntryFor(sha: Hasher, n: Node): Record {
    match n
    case File(name, data) => Record(FILE_MODE, BLOB, Digest(sha, data), name)
    case Dir(name, sub) => Record(DIR_MODE, TREE, TreeDigest(sha, sub), name)
  }

  /** Every listed child gets exactly one line, in enumeration order. The
      `!treeHash.empty()` guard never fails (a digest has 40 characters), so
      an empty subdirectory is listed too. */
  lemma {:induction false} EntriesListEveryChild(sha: Hasher, kids: seq<Node>)
    ensures |Entries(sha, kids)| == |Visible(kids)|
    ensures forall j :: 0 <= j < |Visible(kids)| ==> Entries(sha, kids)[j] == EntryFor(sha, Visible(kids)[j])
  {
    if kids != [] {
      EntriesListEveryChild(sha, kids[1..]);
      var es, vs := Entries(sha, kids[1..]), Visible(kids[1..]);
      if Listed(kids[0]) {
        assert Entries(sha, kids) == [EntryFor(sha, kids[0])] + es;
        assert Visible(kids) == [kids[0]] + vs;
      } else {
        assert Entries(sha, kids) == es;
        assert Visible(kids) == vs;
      }
    }
  }

  /** Names that `operator>>` reads back whole: no whitespace, not empty. */
  predicate TokenNames(kids: seq<Node>) {
    forall i :: 0 <= i < |kids| ==> IsToken(kids[i].name)
  }

  lemma {:induction false} EntriesWellFormed(sha: Hasher, kids: seq<Node>)
    requires TokenNames(kids)
    ensures AllWellFormed(Entries(sha, kids))
  {
    if kids != [] {
      EntriesWellFormed(sha, kids[1..]);
      match kids[0]
      case File(n, data) => DigestIsWord(Digest(sha, data));
      case Dir(n, sub) => DigestIsWord(TreeDigest(sha, sub));
    }
  }

  /** Every listed subdirectory, at any depth, has its tree object stored. */
  ghost predicate Stored(sha: Hasher, kids: seq<Node>, st: Store)
    decreases kids
  {
    forall i :: 0 <= i < |kids| && kids[i].Dir? && kids[i].name != META_DIR ==>
      Exists(st, TreeDigest(sha, kids[i].children)) && Stored(sha, kids[i].children, st)
  }

  lemma {:induction false} StoredExtends(sha: Hasher, kids: seq<Node>, st: Store, st': Store)
    requires Stored(sha, kids, st) && Extends(st, st')
    ensures Stored(sha, kids, st')
    decreases kids
  {
    forall i | 0 <= i < |kids| && kids[i].Dir? && kids[i].name != META_DIR
      ensures Exists(st', TreeDigest(sha, kids[i].children)) && Stored(sha, kids[i].children, st')
    {
      StoredExtends(sha, kids[i].children, st, st');
    }
  }

  lemma StoredCons(sha: Hasher, n: Node, kids: seq<Node>, st: Store)
    requires Stored(sha, kids, st)
    requires n.Dir? && n.name != META_DIR ==> Exists(st, TreeDigest(sha, n.children)) && Stored(sha, n.children, st)
    ensures Stored(sha, [n] + kids, st)
  {
    var all := [n] + kids;
    forall i | 0 <= i < |all| && all[i].Dir? && all[i].name != META_DIR
      ensures Exists(st, TreeDigest(sha, all[i].children)) && Stored(sha, all[i].children, st)
    {
      if i > 0 {
        assert all[i] == kids[i - 1];
      }
    }
  }

  /** `createTreeObj(dir)`: writes the tree objects of the subdirectories,
      then this directory's own tree object when absent, and returns its
      digest. Blobs are hashed but not stored (`handleBlob(..., false)`). */
  function BuildTree(sha: Hasher, kids: seq<Node>, st: Store): (r: (string, Store))
    ensures r.0 == TreeDigest(sha, kids)
    ensures Exists(r.1, r.0) && Stored(sha, kids, r.1)
    ensures Extends(st, r.1)
    ensures Sound(sha, st) ==> Sound(sha, r.1)
    decreases kids, 1
  {
    var (text, st1) := BuildEntries(sha, kids, st);
    var h := Digest(sha, text);
    StorePreservesSound(sha, st1, text);
    var st2 := StoreIfAbsent(st1, h, text);
    StoredExtends(sha, kids, st1, st2);
    (h, st2)
  }

  /** The loop of `createTreeObj`: the text of the lines for `kids`, and the
      store after the subdirectories' tree objects have been written. */
  function BuildEntries(sha: Hasher, kids: seq<Node>, st: Store): (r: (string, Store))
    ensures r.0 == Format(Entries(sha, kids))
    ensures Stored(sha, kids, r.1)
    ensures Extends(st, r.1)
    ensures Sound(sha, st) ==> Sound(sha, r.1)
    decreases kids, 0
  {
    if kids == [] then ("", st)
    else match kids[0]
      case File(n, data) =>
        var (h, _) := HandleBlob(sha, st, data, false);
        var (rest, st1) := BuildEntries(sha, kids[1..], st);
        StoredCons(sha, kids[0], kids[1..], st1);
        (Line(Record(FILE_MODE, BLOB, h, n)) + "\n" + rest, st1)
      case Dir(n, sub) =>
        if n == META_DIR then
          var (rest, st1) := BuildEntries(sha, kids[1..], st);
          StoredCons(sha, kids[0], kids[1..], st1);
          (rest, st1)
        else
          var (h, st1) := BuildTree(sha, sub, st);
          var (rest, st2) := BuildEntries(sha, kids[1..], st1);
          StoredExtends(sha, sub, st1, st2);
          StoredCons(sha, kids[0], kids[1..], st2);
          (Line(Record(DIR_MODE, TREE, h, n)) + "\n" + rest, st2)
  }

  /** `lsTree`: the four fields of every line of the tree object `h`. */
  function LsTree(st: Store, h: string): (r: Result<seq<Record>>)
    ensures r.Ok? <==> Exists(st, h)
  {
    var text :- Read(st, h);
    Ok(ParseLines(Lines(text)))
  }

  /** A tree object written from well-formed records lists them back. */
  lemma LsTreeOfFormat(st: Store, h: string, rs: seq<Record>)
    requires Read(st, h) == Ok(Format(rs)) && AllWellFormed(rs)
    ensures LsTree(st, h) == Ok(rs)
  {
    ParseLinesOfFormat(rs);
  }

  /** A directory whose names are single words lists back, through `lsTree`,
      exactly the entries `createTreeObj` wrote for it, unless an object of
      other content already sat under the tree's digest (which `createTreeObj`
      then keeps). */
  lemma LsTreeOfBuilt(sha: Hasher, kids: seq<Node>, st: Store)
    requires TokenNames(kids)
    requires var st1 := BuildEntries(sha, kids, st).1;
             Exists(st1, TreeDigest(sha, kids)) ==> Read(st1, TreeDigest(sha, kids)) == Ok(Format(Entries(sha, kids)))
    ensures LsTree(BuildTree(sha, kids, st).1, TreeDigest(sha, kids)) == Ok(Entries(sha, kids))
  {
    EntriesWellFormed(sha, kids);
    LsTreeOfFormat(BuildTree(sha, kids, st).1, TreeDigest(sha, kids), Entries(sha, kids));
  }

  /** `writeTree`: refuses to run outside a repository, then builds the tree
      of the whole working directory. */
  function WriteTree(sha: Hasher, work: seq<Node>, st: Store): (r: Result<(string, Store)>)
    ensures r.Ok? <==> Find(work, META_DIR) < |work|
    ensures r.Ok? ==> r.value.0 == TreeDigest(sha, work) && Exists(r.value.1, r.value.0)
  {
    if Find(work, META_DIR) == |work| then Err(NotARepository)
    else Ok(BuildTree(sha, work, st))
  }
}
