/** `checkout` and `prevState`: clears the working directory except the
    metadata directory, rebuilds it from a commit's tree, and moves HEAD.
    `prevState(hash, currPath)` is modelled with `currPath` given by its
    path components, which is what the file system resolves
    `currPath + "/" + name` to.
 */
module Checkouts {
  import opened Results
  import opened Hex
  import opened Text
  import opened Records
  import opened ObjectStore
  import opened WorkTree
  import opened TreeBuilder
  import opened Staging
  import opened Refs
  import opened Commits

  /** `prevState(tree, dir)`: every line of the tree object, in order, with
      subtrees restored at most `fuel` levels deep. */
  function Restore(st: Store, tree: string, dir: seq<string>, work: seq<Node>, fuel: nat): (r: Run<seq<Node>>)
    ensures !Exists(st, tree) ==> r.Aborted? && r.state == work
    decreases fuel, 1, 0
  {
    match Read(st, tree)
    case Err(e) => Aborted(e, work)
    case Ok(text) => RestoreLines(st, Lines(text), dir, work, fuel)
  }

  /** The loop of `prevState`. A "blob" line writes the file, a "tree" line
      creates the directory and restores into it, any other line is skipped.
      A missing object or a failed `create_directory` stops everything. A
      blob name ending in '/' or "/." does not open as a file (EISDIR or
      ENOTDIR), so nothing is written for it. */
  function RestoreLines(st: Store, lines: seq<string>, dir: seq<string>, work: seq<Node>, fuel: nat): (r: Run<seq<Node>>)
    ensures lines == [] ==> r == Completed(work)
    decreases fuel, 0, |lines|
  {
    if lines == [] then Completed(work)
    else
      var e := ParseLine(lines[0]);
      var cs := dir + Components(e.path);
      if e.kind == BLOB then
        match Read(st, e.digest)
        case Err(err) => Aborted(err, work)
        case Ok(data) =>
          var w1 := if DirectoryOnly(e.path) then work else WriteFile(work, cs, data);
          RestoreLines(st, lines[1..], dir, w1, fuel)
      else if e.kind == TREE then
        match CreateDirectory(work, cs)
        case Err(err) => Aborted(err, work)
        case Ok(w1) =>
          if fuel == 0 then Aborted(OutOfFuel, w1)
          else match Restore(st, e.digest, cs, w1, fuel - 1)
            case Aborted(err, w2) => Aborted(err, w2)
            case Completed(w2) => RestoreLines(st, lines[1..], dir, w2, fuel)
      else RestoreLines(st, lines[1..], dir, work, fuel)
  }

  /** `checkout(commit)` on working directory `work`, for trees at most
      `fuel` levels deep. */
  function Checkout(st: Store, meta: Meta, work: seq<Node>, commit: string, fuel: nat): (r: Run<(seq<Node>, Meta)>)
    ensures Read(st, commit).Err? ==> r == Aborted(Read(st, commit).error, (work, meta))
    ensures Read(st, commit).Ok? && TreeField(Lines(Read(st, commit).value)) == Ok("") ==> r == Aborted(NoTree, (work, meta))
    ensures r.Completed? ==> Advance(meta, commit).Ok? && r.state.1 == Advance(meta, commit).value
  {
    match Read(st, commit)
    case Err(e) => Aborted(e, (work, meta))
    case Ok(text) =>
      match TreeField(Lines(text))
      case Err(e) => Aborted(e, (work, meta))
      case Ok(tree) =>
        if tree == "" then Aborted(NoTree, (work, meta))
        else match Restore(st, tree, [], Wipe(work), fuel)
          case Aborted(e, w) => Aborted(e, (w, meta))
          case Completed(w) =>
            match Advance(meta, commit)
            case Err(e) => Aborted(e, (w, meta))
            case Ok(m) => Completed((w, m))
  }

  // ---------------------------------------------------------------------------
  // Restoring a tree that `createTreeObj` wrote
  // ---------------------------------------------------------------------------

  /** A name that `currPath + "/" + name` adds as exactly one path component
      and that `operator>>` reads back whole. */
  predicate SimpleName(n: string) {
    IsToken(n) && '/' !in n && n != "."
  }

  lemma ComponentsOfName(n: string)
    requires SimpleName(n)
    ensures Components(n) == [n]
    ensures !DirectoryOnly(n)
  {
    assert Until(n, '/') == |n|;
    assert Split(n, '/') == [n];
    var none: seq<string> := [];
    assert [n][1..] == none;
    assert Keep([n]) == [n] + Keep(none);
  }

  /** A directory as the file system holds it: names are simple and distinct
      among siblings, at every depth. */
  predicate Plain(kids: seq<Node>)
    decreases kids
  {
    (forall i :: 0 <= i < |kids| ==> SimpleName(kids[i].name))
    && (forall i, j :: 0 <= i < j < |kids| ==> kids[i].name != kids[j].name)
    && (forall i :: 0 <= i < |kids| && kids[i].Dir? ==> Plain(kids[i].children))
  }

  /** The store holds every object the directory's tree object leads to: each
      file's blob, and each listed subdirectory's tree object. */
  ghost predicate Holds(sha: Hasher, kids: seq<Node>, st: Store)
    decreases kids
  {
    forall i :: 0 <= i < |kids| ==>
      (kids[i].File? ==> Read(st, Digest(sha, kids[i].content)) == Ok(kids[i].content))
      && (kids[i].Dir? && kids[i].name != META_DIR ==>
            Read(st, TreeDigest(sha, kids[i].children)) == Ok(Format(Entries(sha, kids[i].children)))
            && Holds(sha, kids[i].children, st))
  }

  /** How many levels of listed subdirectories there are. */
  function Depth(kids: seq<Node>): nat
    decreases kids
  {
    if kids == [] then 0
    else
      var here := if kids[0].Dir? && kids[0].name != META_DIR then 1 + Depth(kids[0].children) else 0;
      var later := Depth(kids[1..]);
      if here > later then here else later
  }

  /** What restoring a directory's tree brings back: the directory without
      its `.mygit` subdirectories, which the tree does not list. */
  function Restored(kids: seq<Node>): seq<Node>
    decreases kids
  {
    if kids == [] then []
    else match kids[0]
      case File(_, _) => [kids[0]] + Restored(kids[1..])
      case Dir(n, sub) =>
        if n == META_DIR then Restored(kids[1..])
        else [Dir(n, Restored(sub))] + Restored(kids[1..])
  }

  /** No listed entry of `kids` is already present among `ex`. */
  predicate Fresh(kids: seq<Node>, ex: seq<Node>) {
    forall i :: 0 <= i < |kids| && Listed(kids[i]) ==> Find(ex, kids[i].name) == |ex|
  }

  /** The tail of a directory keeps everything the restore needs. */
  lemma TailConditions(sha: Hasher, st: Store, kids: seq<Node>, ex: seq<Node>, fuel: nat)
    requires kids != [] && Plain(kids) && Holds(sha, kids, st) && fuel >= Depth(kids)
    requires Fresh(kids, ex)
    ensures Plain(kids[1..]) && Holds(sha, kids[1..], st) && fuel >= Depth(kids[1..])
    ensures Fresh(kids[1..], ex)
  {
    var rest := kids[1..];
    assert forall i :: 0 <= i < |rest| ==> rest[i] == kids[i + 1];
  }

  /** The tail's names stay new once the first child has been added. */
  lemma TailFresh(kids: seq<Node>, ex: seq<Node>, m: Node)
    requires kids != [] && Plain(kids) && Fresh(kids, ex) && m.name == kids[0].name
    ensures Fresh(kids[1..], ex + [m])
  {
    var rest := kids[1..];
    assert forall i :: 0 <= i < |rest| ==> rest[i] == kids[i + 1];
    forall i | 0 <= i < |rest| && Listed(rest[i])
      ensures Find(ex + [m], rest[i].name) == |ex + [m]|
    {
      FindAppendOther(ex, m, rest[i].name);
    }
  }

  /** A listed child contributes its own line first. */
  lemma EntriesCons(sha: Hasher, kids: seq<Node>)
    requires kids != [] && Listed(kids[0])
    ensures Entries(sha, kids) == [EntryFor(sha, kids[0])] + Entries(sha, kids[1..])
  {
    match kids[0]
    case File(_, _) =>
    case Dir(_, _) =>
  }

  /** The first line of a directory's tree object is its first listed child's. */
  lemma EntryHead(sha: Hasher, kids: seq<Node>)
    requires kids != [] && Listed(kids[0]) && TokenNames(kids)
    ensures WellFormed(EntryFor(sha, kids[0]))
  {
    EntriesCons(sha, kids);
    EntriesWellFormed(sha, kids);
    assert Entries(sha, kids)[0] == EntryFor(sha, kids[0]);
  }

  /** The lines of a tree object, one per record. */
  function RecordLines(rs: seq<Record>): (ls: seq<string>)
    ensures |ls| == |rs|
    ensures forall i :: 0 <= i < |rs| ==> ls[i] == Line(rs[i])
  {
    if rs == [] then [] else [Line(rs[0])] + RecordLines(rs[1..])
  }

  /** `getline` reads a tree object's text back one record line at a time. */
  lemma {:induction false} LinesOfFormat(rs: seq<Record>)
    requires AllWellFormed(rs)
    ensures Lines(Format(rs)) == RecordLines(rs)
  {
    if rs != [] {
      LinesCons(Line(rs[0]), Format(rs[1..]));
      LinesOfFormat(rs[1..]);
    }
  }

  /** A tree object's lines, one child at a time. */
  lemma LinesOfEntries(sha: Hasher, kids: seq<Node>)
    requires kids != [] && Listed(kids[0])
    ensures RecordLines(Entries(sha, kids)) == [Line(EntryFor(sha, kids[0]))] + RecordLines(Entries(sha, kids[1..]))
  {
    EntriesCons(sha, kids);
    var es := Entries(sha, kids);
    assert es[1..] == Entries(sha, kids[1..]);
  }

  /** What the first child of a directory needs restored, from the whole's. */
  lemma HeadConditions(sha: Hasher, st: Store, kids: seq<Node>, fuel: nat)
    requires kids != [] && Plain(kids) && Holds(sha, kids, st) && fuel >= Depth(kids)
    ensures SimpleName(kids[0].name) && TokenNames(kids)
    ensures kids[0].File? ==> Read(st, Digest(sha, kids[0].content)) == Ok(kids[0].content)
    ensures kids[0].Dir? && kids[0].name != META_DIR ==>
              Plain(kids[0].children) && Holds(sha, kids[0].children, st) && fuel >= 1 + Depth(kids[0].children)
              && Read(st, TreeDigest(sha, kids[0].children)) == Ok(Format(Entries(sha, kids[0].children)))
              && TokenNames(kids[0].children)
  {
  }

  /** Appending one entry and then more is appending the lot. */
  lemma AppendAfter(ex: seq<Node>, n: Node, kids: seq<Node>, rest: seq<Node>)
    requires kids == [n] + rest
    ensures (ex + [n]) + rest == ex + kids
  {
  }

  lemma AppendNothing(a: seq<Node>)
    ensures a + [] == a && [] + a == a
  {
  }

  /** An entry skipped by the tree object is skipped by the restore too. */
  lemma SkippedEntry(sha: Hasher, kids: seq<Node>)
    requires kids != [] && !Listed(kids[0])
    ensures Entries(sha, kids) == Entries(sha, kids[1..])
    ensures Restored(kids) == Restored(kids[1..])
  {
  }

  /** One "blob" line: the file is written into `dir`, then the loop goes on. */
  lemma RestoreBlobLine(st: Store, r: Record, more: seq<string>, dir: seq<string>, work: seq<Node>, fuel: nat)
    requires WellFormed(r) && r.kind == BLOB && Read(st, r.digest).Ok? && !DirectoryOnly(r.path)
    ensures RestoreLines(st, [Line(r)] + more, dir, work, fuel)
            == RestoreLines(st, more, dir, WriteFile(work, dir + Components(r.path), Read(st, r.digest).value), fuel)
  {
    ParseLineOfLine(r);
    assert ([Line(r)] + more)[1..] == more;
  }

  /** A "blob" line whose name ends in '/' or "/." writes nothing: the loop
      goes on with the directory as it was. */
  lemma RestoreSlashBlobLine(st: Store, r: Record, more: seq<string>, dir: seq<string>, work: seq<Node>, fuel: nat)
    requires WellFormed(r) && r.kind == BLOB && Read(st, r.digest).Ok? && DirectoryOnly(r.path)
    ensures RestoreLines(st, [Line(r)] + more, dir, work, fuel) == RestoreLines(st, more, dir, work, fuel)
  {
    ParseLineOfLine(r);
    assert ([Line(r)] + more)[1..] == more;
  }

  /** One "tree" line: the directory is created and restored, then the loop goes on. */
  lemma RestoreTreeLine(st: Store, r: Record, more: seq<string>, dir: seq<string>, work: seq<Node>, w1: seq<Node>, fuel: nat)
    requires WellFormed(r) && r.kind == TREE && fuel > 0
    requires CreateDirectory(work, dir + Components(r.path)) == Ok(w1)
    requires Restore(st, r.digest, dir + Components(r.path), w1, fuel - 1).Completed?
    ensures RestoreLines(st, [Line(r)] + more, dir, work, fuel)
            == RestoreLines(st, more, dir, Restore(st, r.digest, dir + Components(r.path), w1, fuel - 1).state, fuel)
  {
    ParseLineOfLine(r);
    assert BLOB[0] != TREE[0];
    assert ([Line(r)] + more)[1..] == more;
  }

  /** Appending to the entries of `dir` twice is appending once. */
  lemma PutDirAgain(work: seq<Node>, dir: seq<string>, a: seq<Node>, b: seq<Node>)
    requires GetDir(work, dir).Some?
    ensures GetDir(PutDir(work, dir, a), dir) == Some(a)
    ensures PutDir(PutDir(work, dir, a), dir, b) == PutDir(work, dir, b)
  {
    GetPutDir(work, dir, a);
    PutDirBelow(work, dir, a, [], b);
    assert dir + [] == dir;
  }

  /** A new empty subdirectory filled afterwards holds what it was filled with. */
  lemma FillNewDir(ex: seq<Node>, n: string, t: seq<Node>)
    requires Find(ex, n) == |ex|
    ensures GetDir(ex + [Dir(n, [])], [n]) == Some([])
    ensures PutDir(ex + [Dir(n, [])], [n], t) == ex + [Dir(n, t)]
  {
    FindAppend(ex, Dir(n, []), n);
    var none: seq<string> := [];
    assert [n][1..] == none;
  }

  /** A "blob" line for the first child, given the restore of the rest. */
  lemma RestoreFileStep(sha: Hasher, st: Store, kids: seq<Node>, dir: seq<string>, work: seq<Node>, fuel: nat)
    requires kids != [] && kids[0].File? && SimpleName(kids[0].name) && TokenNames(kids)
    requires Read(st, Digest(sha, kids[0].content)) == Ok(kids[0].content)
    requires GetDir(work, dir).Some? && Find(GetDir(work, dir).value, kids[0].name) == |GetDir(work, dir).value|
    requires var ex1 := GetDir(work, dir).value + [kids[0]];
             RestoreLines(st, RecordLines(Entries(sha, kids[1..])), dir, PutDir(work, dir, ex1), fuel)
               == Completed(PutDir(work, dir, ex1 + Restored(kids[1..])))
    ensures RestoreLines(st, RecordLines(Entries(sha, kids)), dir, work, fuel)
            == Completed(PutDir(work, dir, GetDir(work, dir).value + Restored(kids)))
  {
    var ex, n, data := GetDir(work, dir).value, kids[0].name, kids[0].content;
    var r := EntryFor(sha, kids[0]);
    EntryHead(sha, kids);
    LinesOfEntries(sha, kids);
    ComponentsOfName(n);
    RestoreBlobLine(st, r, RecordLines(Entries(sha, kids[1..])), dir, work, fuel);
    WriteFileBelow(work, dir, n, data);
    assert kids[0] == File(n, data);
    AppendAfter(ex, kids[0], Restored(kids), Restored(kids[1..]));
  }

  /** A "tree" line for the first child, given the restores of its subtree
      and of the rest. */
  lemma RestoreDirStep(sha: Hasher, st: Store, kids: seq<Node>, dir: seq<string>, work: seq<Node>, fuel: nat)
    requires kids != [] && kids[0].Dir? && kids[0].name != META_DIR && SimpleName(kids[0].name) && TokenNames(kids)
    requires TokenNames(kids[0].children)
    requires fuel > 0
    requires Read(st, TreeDigest(sha, kids[0].children)) == Ok(Format(Entries(sha, kids[0].children)))
    requires GetDir(work, dir).Some? && Find(GetDir(work, dir).value, kids[0].name) == |GetDir(work, dir).value|
    requires var ex, n, sub := GetDir(work, dir).value, kids[0].name, kids[0].children;
             RestoreLines(st, RecordLines(Entries(sha, sub)), dir + [n], PutDir(work, dir, ex + [Dir(n, [])]), fuel - 1)
               == Completed(PutDir(PutDir(work, dir, ex + [Dir(n, [])]), dir + [n], Restored(sub)))
    requires var ex1 := GetDir(work, dir).value + [Dir(kids[0].name, Restored(kids[0].children))];
             RestoreLines(st, RecordLines(Entries(sha, kids[1..])), dir, PutDir(work, dir, ex1), fuel)
               == Completed(PutDir(work, dir, ex1 + Restored(kids[1..])))
    ensures RestoreLines(st, RecordLines(Entries(sha, kids)), dir, work, fuel)
            == Completed(PutDir(work, dir, GetDir(work, dir).value + Restored(kids)))
  {
    var ex, n, sub := GetDir(work, dir).value, kids[0].name, kids[0].children;
    var r := EntryFor(sha, kids[0]);
    var more := RecordLines(Entries(sha, kids[1..]));
    var ex0 := ex + [Dir(n, [])];
    var w1 := PutDir(work, dir, ex0);
    var ex1 := ex + [Dir(n, Restored(sub))];
    assert r.kind == TREE && r.digest == TreeDigest(sha, sub) && r.path == n;
    assert Restore(st, r.digest, dir + [n], w1, fuel - 1) == Completed(PutDir(work, dir, ex1)) by {
      EntriesWellFormed(sha, sub);
      LinesOfFormat(Entries(sha, sub));
      FillNewDir(ex, n, Restored(sub));
      PutDirBelow(work, dir, ex0, [n], Restored(sub));
    }
    assert RestoreLines(st, [Line(r)] + more, dir, work, fuel) == RestoreLines(st, more, dir, PutDir(work, dir, ex1), fuel) by {
      EntryHead(sha, kids);
      ComponentsOfName(n);
      CreateDirectoryBelow(work, dir, n);
      RestoreTreeLine(st, r, more, dir, work, w1, fuel);
    }
    LinesOfEntries(sha, kids);
    AppendAfter(ex, Dir(n, Restored(sub)), Restored(kids), Restored(kids[1..]));
  }

  /** Restoring the tree object `createTreeObj` wrote for `kids` into the
      existing directory `dir` appends the restored entries there, in order,
      and touches nothing else, when the names are new to `dir`, the store
      holds every object and `fuel` covers the depth. */
  lemma {:induction false} RestoreEntries(sha: Hasher, st: Store, kids: seq<Node>, dir: seq<string>, work: seq<Node>, fuel: nat)
    requires Plain(kids) && Holds(sha, kids, st) && fuel >= Depth(kids)
    requires GetDir(work, dir).Some? && Fresh(kids, GetDir(work, dir).value)
    ensures RestoreLines(st, RecordLines(Entries(sha, kids)), dir, work, fuel)
            == Completed(PutDir(work, dir, GetDir(work, dir).value + Restored(kids)))
    decreases kids, 1
  {
    var ex := GetDir(work, dir).value;
    if kids == [] {
      PutGetDir(work, dir);
      AppendNothing(ex);
    } else if !Listed(kids[0]) {
      SkippedEntry(sha, kids);
      TailConditions(sha, st, kids, ex, fuel);
      RestoreEntries(sha, st, kids[1..], dir, work, fuel);
    } else if kids[0].File? {
      var ex1 := ex + [kids[0]];
      HeadConditions(sha, st, kids, fuel);
      TailConditions(sha, st, kids, ex, fuel);
      TailFresh(kids, ex, kids[0]);
      PutDirAgain(work, dir, ex1, ex1 + Restored(kids[1..]));
      RestoreEntries(sha, st, kids[1..], dir, PutDir(work, dir, ex1), fuel);
      RestoreFileStep(sha, st, kids, dir, work, fuel);
    } else {
      RestoreDirEntry(sha, st, kids, dir, work, fuel);
    }
  }

  /** The case of `RestoreEntries` where the first child is a listed directory. */
  lemma {:induction false} RestoreDirEntry(sha: Hasher, st: Store, kids: seq<Node>, dir: seq<string>, work: seq<Node>, fuel: nat)
    requires kids != [] && kids[0].Dir? && kids[0].name != META_DIR
    requires Plain(kids) && Holds(sha, kids, st) && fuel >= Depth(kids)
    requires GetDir(work, dir).Some? && Fresh(kids, GetDir(work, dir).value)
    ensures RestoreLines(st, RecordLines(Entries(sha, kids)), dir, work, fuel)
            == Completed(PutDir(work, dir, GetDir(work, dir).value + Restored(kids)))
    decreases kids, 0
  {
    var ex, n, sub := GetDir(work, dir).value, kids[0].name, kids[0].children;
    var ex0 := ex + [Dir(n, [])];
    var w1 := PutDir(work, dir, ex0);
    var ex1 := ex + [Dir(n, Restored(sub))];
    HeadConditions(sha, st, kids, fuel);
    assert GetDir(w1, dir + [n]) == Some([]) by {
      FillNewDir(ex, n, Restored(sub));
      GetPutDirBelow(work, dir, ex0, [n]);
    }
    RestoreEntries(sha, st, sub, dir + [n], w1, fuel - 1);
    AppendNothing(Restored(sub));
    TailConditions(sha, st, kids, ex, fuel);
    TailFresh(kids, ex, Dir(n, Restored(sub)));
    PutDirAgain(work, dir, ex1, ex1 + Restored(kids[1..]));
    RestoreEntries(sha, st, kids[1..], dir, PutDir(work, dir, ex1), fuel);
    RestoreDirStep(sha, st, kids, dir, work, fuel);
  }

  /** After the wipe only `.mygit` entries are left, so every other name is new. */
  lemma WipedNames(work: seq<Node>, name: string)
    requires name != META_DIR
    ensures Find(Wipe(work), name) == |Wipe(work)|
  {
  }

  /** Checking out a commit whose tree is the one `createTreeObj` wrote for
      `snapshot` leaves `.mygit` as it was, brings back every listed file and
      directory of the snapshot with its content, in order, and moves HEAD to
      the commit. Nothing else survives the wipe. */
  lemma CheckoutRestoresSnapshot(sha: Hasher, st: Store, meta: Meta, work: seq<Node>, commit: string, snapshot: seq<Node>, fuel: nat)
    requires Read(st, commit).Ok? && TreeField(Lines(Read(st, commit).value)) == Ok(TreeDigest(sha, snapshot))
    requires Read(st, TreeDigest(sha, snapshot)) == Ok(Format(Entries(sha, snapshot)))
    requires Plain(snapshot) && Holds(sha, snapshot, st) && fuel >= Depth(snapshot)
    requires forall i :: 0 <= i < |snapshot| && snapshot[i].name == META_DIR ==> snapshot[i].Dir?
    requires Advance(meta, commit).Ok?
    ensures Checkout(st, meta, work, commit, fuel) == Completed((Wipe(work) + Restored(snapshot), Advance(meta, commit).value))
  {
    var tree := TreeDigest(sha, snapshot);
    var wiped := Wipe(work);
    assert tree != "" by {
      assert |tree| == 40;
    }
    forall i | 0 <= i < |snapshot| && Listed(snapshot[i])
      ensures Find(wiped, snapshot[i].name) == |wiped|
    {
      WipedNames(work, snapshot[i].name);
    }
    EntriesWellFormed(sha, snapshot);
    LinesOfFormat(Entries(sha, snapshot));
    RestoreEntries(sha, st, snapshot, [], wiped, fuel);
  }
}
