/** `prevState` with the parent directories of a blob's path created before
    the file is written. Commit trees are flat: every line names a file by the
    path the index recorded (`./sub/b.txt` after `add .`). `checkout` wipes
    `sub` first, and the `ofstream` of the original then has no directory to
    open the file in, so nested files are lost. Here the write is preceded by
    `create_directories` on the parent, and every file of a flat tree comes
    back.
 */
module CheckoutFix {
  import opened Results
  import opened Text
  import opened Records
  import opened ObjectStore
  import opened WorkTree
  import opened Staging
  import opened Refs
  import opened Commits
  import opened Checkouts

  // ---------------------------------------------------------------------------
  // Paths along paths
  // ---------------------------------------------------------------------------

  /** `q` lies along `p`: `p` starts with the components of `q`. */
  predicate Along(q: seq<string>, p: seq<string>)
    decreases q
  {
    q == [] || (p != [] && q[0] == p[0] && Along(q[1..], p[1..]))
  }

  lemma {:induction false} AlongShorter(q: seq<string>, p: seq<string>)
    requires Along(q, p)
    ensures |q| <= |p|
    decreases q
  {
    if q != [] {
      AlongShorter(q[1..], p[1..]);
    }
  }

  lemma {:induction false} AlongSelf(q: seq<string>)
    ensures Along(q, q)
    decreases q
  {
    if q != [] {
      AlongSelf(q[1..]);
    }
  }

  /** What lies along a path's parent lies along the path. */
  lemma {:induction false} AlongParent(q: seq<string>, p: seq<string>)
    requires p != [] && Along(q, Parent(p))
    ensures Along(q, p)
    decreases q
  {
    if q != [] {
      assert Parent(p)[0] == p[0] && Parent(p)[1..] == Parent(p[1..]);
      AlongParent(q[1..], p[1..]);
    }
  }

  /** The last component of a path. */
  function Last(cs: seq<string>): string
    requires cs != []
  {
    cs[|cs| - 1]
  }

  // ---------------------------------------------------------------------------
  // create_directories
  // ---------------------------------------------------------------------------

  /** New, empty directories nested along `cs`. */
  function Chain(cs: seq<string>): seq<Node>
    decreases cs
  {
    if cs == [] then [] else [Dir(cs[0], Chain(cs[1..]))]
  }

  /** Some entry along `cs` is a regular file. */
  predicate Blocked(kids: seq<Node>, cs: seq<string>)
    decreases cs
  {
    cs != [] &&
    var i := Find(kids, cs[0]);
    i < |kids| && (kids[i].File? || Blocked(kids[i].children, cs[1..]))
  }

  /** `create_directories(cs)`: every missing directory along `cs` is
      created; a regular file in the way makes it fail. */
  function MakeDirs(kids: seq<Node>, cs: seq<string>): (r: Option<seq<Node>>)
    ensures r.Some? <==> !Blocked(kids, cs)
    decreases cs
  {
    if cs == [] then Some(kids)
    else
      var i := Find(kids, cs[0]);
      if i == |kids| then Some(kids + Chain(cs))
      else if kids[i].File? then None
      else match MakeDirs(kids[i].children, cs[1..])
        case None => None
        case Some(sub) => Some(kids[i := Dir(kids[i].name, sub)])
  }

  lemma {:induction false} ChainHolds(cs: seq<string>)
    ensures GetDir(Chain(cs), cs).Some?
    decreases cs
  {
    if cs != [] {
      ChainHolds(cs[1..]);
    }
  }

  /** Nothing off the path lies inside a new chain of directories. */
  lemma {:induction false} ChainLookup(cs: seq<string>, q: seq<string>)
    requires q != [] && !Along(q, cs)
    ensures Lookup(Chain(cs), q) == None
    decreases cs
  {
    if cs != [] && q[0] == cs[0] && |q| > 1 {
      ChainLookup(cs[1..], q[1..]);
    }
  }

  /** After `create_directories(cs)` the directory `cs` exists. */
  lemma {:induction false} MakeDirsMakes(kids: seq<Node>, cs: seq<string>)
    requires MakeDirs(kids, cs).Some?
    ensures GetDir(MakeDirs(kids, cs).value, cs).Some?
    decreases cs
  {
    if cs != [] {
      var i := Find(kids, cs[0]);
      if i == |kids| {
        FindAppend(kids, Chain(cs)[0], cs[0]);
        assert kids + Chain(cs) == kids + [Chain(cs)[0]];
        ChainHolds(cs[1..]);
      } else {
        var sub := MakeDirs(kids[i].children, cs[1..]).value;
        FindReplace(kids, i, Dir(kids[i].name, sub), cs[0]);
        MakeDirsMakes(kids[i].children, cs[1..]);
      }
    }
  }

  /** `create_directories(p)` changes nothing at a path that does not lie along `p`. */
  lemma {:induction false} MakeDirsFrame(kids: seq<Node>, p: seq<string>, q: seq<string>)
    requires MakeDirs(kids, p).Some? && q != [] && !Along(q, p)
    ensures Lookup(MakeDirs(kids, p).value, q) == Lookup(kids, q)
    decreases p
  {
    if p != [] {
      var r := MakeDirs(kids, p).value;
      var i := Find(kids, p[0]);
      if i == |kids| {
        var n := Chain(p)[0];
        assert r == kids + [n];
        if q[0] == p[0] {
          FindAppend(kids, n, p[0]);
          ChainLookup(p[1..], q[1..]);
        } else {
          FindAppendOther(kids, n, q[0]);
        }
      } else {
        var sub := MakeDirs(kids[i].children, p[1..]).value;
        FindReplace(kids, i, Dir(kids[i].name, sub), q[0]);
        if q[0] == p[0] {
          MakeDirsFrame(kids[i].children, p[1..], q[1..]);
        }
      }
    }
  }

  /** `create_directories` puts no file in anybody's way. */
  lemma {:induction false} MakeDirsUnblocks(kids: seq<Node>, p: seq<string>, q: seq<string>)
    requires MakeDirs(kids, p).Some? && Blocked(MakeDirs(kids, p).value, q)
    ensures Blocked(kids, q)
    decreases p
  {
    var r := MakeDirs(kids, p).value;
    if p != [] {
      var i := Find(kids, p[0]);
      if i == |kids| {
        var n := Chain(p)[0];
        assert r == kids + [n];
        if q[0] == p[0] {
          FindAppend(kids, n, p[0]);
          ChainUnblocked(p[1..], q[1..]);
        } else {
          FindAppendOther(kids, n, q[0]);
        }
      } else {
        var sub := MakeDirs(kids[i].children, p[1..]).value;
        FindReplace(kids, i, Dir(kids[i].name, sub), q[0]);
        if q[0] == p[0] {
          MakeDirsUnblocks(kids[i].children, p[1..], q[1..]);
        }
      }
    }
  }

  lemma {:induction false} ChainUnblocked(cs: seq<string>, q: seq<string>)
    ensures !Blocked(Chain(cs), q)
    decreases cs
  {
    if cs != [] && q != [] && q[0] == cs[0] {
      ChainUnblocked(cs[1..], q[1..]);
    }
  }

  // ---------------------------------------------------------------------------
  // The ofstream write, away from the path
  // ---------------------------------------------------------------------------

  /** Writing the file `cs` changes nothing at a path that does not lie along `cs`. */
  lemma {:induction false} WriteFileFrame(kids: seq<Node>, cs: seq<string>, data: string, q: seq<string>)
    requires q != [] && !Along(q, cs)
    ensures Lookup(WriteFile(kids, cs, data), q) == Lookup(kids, q)
    decreases cs
  {
    if cs != [] {
      var i := Find(kids, cs[0]);
      if |cs| == 1 {
        if i == |kids| {
          if q[0] == cs[0] {
            FindAppend(kids, File(cs[0], data), cs[0]);
          } else {
            FindAppendOther(kids, File(cs[0], data), q[0]);
          }
        } else if kids[i].File? {
          FindReplace(kids, i, File(cs[0], data), q[0]);
        }
      } else if i < |kids| && kids[i].Dir? {
        var sub := WriteFile(kids[i].children, cs[1..], data);
        FindReplace(kids, i, Dir(kids[i].name, sub), q[0]);
        if q[0] == cs[0] {
          WriteFileFrame(kids[i].children, cs[1..], data, q[1..]);
        }
      }
    }
  }

  /** A new file blocks only the paths that run through it. */
  lemma {:induction false} WriteFileBlocks(kids: seq<Node>, cs: seq<string>, data: string, q: seq<string>)
    requires Blocked(WriteFile(kids, cs, data), q) && !Along(cs, q)
    ensures Blocked(kids, q)
    decreases cs
  {
    if cs != [] {
      var i := Find(kids, cs[0]);
      if |cs| == 1 {
        if i == |kids| {
          if q[0] == cs[0] {
            FindAppend(kids, File(cs[0], data), cs[0]);
          } else {
            FindAppendOther(kids, File(cs[0], data), q[0]);
          }
        } else if kids[i].File? {
          FindReplace(kids, i, File(cs[0], data), q[0]);
        }
      } else if i < |kids| && kids[i].Dir? {
        var sub := WriteFile(kids[i].children, cs[1..], data);
        FindReplace(kids, i, Dir(kids[i].name, sub), q[0]);
        if q[0] == cs[0] {
          WriteFileBlocks(kids[i].children, cs[1..], data, q[1..]);
        }
      }
    }
  }

  // ---------------------------------------------------------------------------
  // The corrected blob write
  // ---------------------------------------------------------------------------

  /** A path a file can be written at: nothing along its parent is a regular
      file and the path itself is not a directory. */
  predicate Clear(work: seq<Node>, cs: seq<string>) {
    cs != [] && !Blocked(work, Parent(cs)) && (Lookup(work, cs).None? || Lookup(work, cs).value.File?)
  }

  /** `create_directories(parent)` and then `ofstream out(path); out << data;`.
      A path with no components names the directory itself and is left alone. */
  function Place(work: seq<Node>, cs: seq<string>, data: string): (r: Result<seq<Node>>)
    ensures r.Err? <==> cs != [] && Blocked(work, Parent(cs))
  {
    if cs == [] then Ok(work)
    else match MakeDirs(work, Parent(cs))
      case None => Err(CannotCreateDirectory(Parent(cs)))
      case Some(w) => Ok(WriteFile(w, cs, data))
  }

  /** A path is never along its own parent. */
  lemma NotAlongParent(cs: seq<string>)
    requires cs != []
    ensures !Along(cs, Parent(cs))
  {
    if Along(cs, Parent(cs)) {
      AlongShorter(cs, Parent(cs));
    }
  }

  /** On a clear path, the corrected write leaves the file there with its content. */
  lemma PlaceWrites(work: seq<Node>, cs: seq<string>, data: string)
    requires Clear(work, cs)
    ensures Place(work, cs, data).Ok?
    ensures Lookup(Place(work, cs, data).value, cs) == Some(File(Last(cs), data))
  {
    MakeDirsMakes(work, Parent(cs));
    NotAlongParent(cs);
    MakeDirsFrame(work, Parent(cs), cs);
  }

  /** The corrected write changes nothing at a path that does not lie along the file's. */
  lemma PlaceFrame(work: seq<Node>, cs: seq<string>, data: string, q: seq<string>)
    requires Place(work, cs, data).Ok? && q != [] && !Along(q, cs)
    ensures Lookup(Place(work, cs, data).value, q) == Lookup(work, q)
  {
    if cs != [] {
      var w := MakeDirs(work, Parent(cs)).value;
      if Along(q, Parent(cs)) {
        AlongParent(q, cs);
      }
      MakeDirsFrame(work, Parent(cs), q);
      WriteFileFrame(w, cs, data, q);
    }
  }

  /** A path unrelated to the file's stays clear after the corrected write. */
  lemma PlaceKeepsClear(work: seq<Node>, cs: seq<string>, data: string, c: seq<string>)
    requires Clear(work, cs) && Clear(work, c) && !Along(cs, c) && !Along(c, cs)
    ensures Place(work, cs, data).Ok? && Clear(Place(work, cs, data).value, c)
  {
    var w := MakeDirs(work, Parent(cs)).value;
    var w' := Place(work, cs, data).value;
    PlaceFrame(work, cs, data, c);
    if Blocked(w', Parent(c)) {
      if Along(cs, Parent(c)) {
        AlongParent(cs, c);
      }
      WriteFileBlocks(w, cs, data, Parent(c));
      MakeDirsUnblocks(work, Parent(cs), Parent(c));
    }
  }

  // ---------------------------------------------------------------------------
  // prevState and checkout with the corrected write
  // ---------------------------------------------------------------------------

  /** `prevState(tree, dir)` with parent directories created for every blob. */
  function RestoreFixed(st: Store, tree: string, dir: seq<string>, work: seq<Node>, fuel: nat): (r: Run<seq<Node>>)
    ensures !Exists(st, tree) ==> r.Aborted? && r.state == work
    decreases fuel, 1, 0
  {
    match Read(st, tree)
    case Err(e) => Aborted(e, work)
    case Ok(text) => RestoreLinesFixed(st, Lines(text), dir, work, fuel)
  }

  /** The loop of `prevState`, with the corrected blob write. A blob name
      ending in '/' or "/." still writes nothing, as in the original. */
  function RestoreLinesFixed(st: Store, lines: seq<string>, dir: seq<string>, work: seq<Node>, fuel: nat): (r: Run<seq<Node>>)
    ensures lines == [] ==> r == Completed(work)
    decreases fuel, 0, |lines|
  {
    if lines == [] then Completed(work)
    else
      var e := ParseLine(lines[0]);
      var cs := dir + Components(e.path);
      if e.kind == BLOB then
        match Read(st, e.digest)
        case Err(err) => Aborted(err, work)
        case Ok(data) =>
          if DirectoryOnly(e.path) then RestoreLinesFixed(st, lines[1..], dir, work, fuel)
          else match Place(work, cs, data)
            case Err(err) => Aborted(err, work)
            case Ok(w1) => RestoreLinesFixed(st, lines[1..], dir, w1, fuel)
      else if e.kind == TREE then
        match CreateDirectory(work, cs)
        case Err(err) => Aborted(err, work)
        case Ok(w1) =>
          if fuel == 0 then Aborted(OutOfFuel, w1)
          else match RestoreFixed(st, e.digest, cs, w1, fuel - 1)
            case Aborted(err, w2) => Aborted(err, w2)
            case Completed(w2) => RestoreLinesFixed(st, lines[1..], dir, w2, fuel)
      else RestoreLinesFixed(st, lines[1..], dir, work, fuel)
  }

  /** `checkout(commit)` with the corrected `prevState`. */
  function CheckoutFixed(st: Store, meta: Meta, work: seq<Node>, commit: string, fuel: nat): (r: Run<(seq<Node>, Meta)>)
    ensures Read(st, commit).Err? ==> r == Aborted(Read(st, commit).error, (work, meta))
    ensures Read(st, commit).Ok? && TreeField(Lines(Read(st, commit).value)) == Ok("") ==> r == Aborted(NoTree, (work, meta))
    ensures r.Completed? ==> Advance(meta, commit).Ok? && r.state.1 == Advance(meta, commit).value
  {
    match Read(st, commit)
    case Err(e) => Aborted(e, (work, meta))
    case Ok(text) =>
      match TreeField(Lines(text))
      case Err(e) => Aborted(e, (work, meta))
      case Ok(tree) =>
        if tree == "" then Aborted(NoTree, (work, meta))
        else match RestoreFixed(st, tree, [], Wipe(work), fuel)
          case Aborted(e, w) => Aborted(e, (w, meta))
          case Completed(w) =>
            match Advance(meta, commit)
            case Err(e) => Aborted(e, (w, meta))
            case Ok(m) => Completed((w, m))
  }

  // ---------------------------------------------------------------------------
  // Flat commit trees
  // ---------------------------------------------------------------------------

  /** The components of a record's path. */
  function PathOf(r: Record): seq<string> {
    Components(r.path)
  }

  /** A tree as `commit` writes it: blob lines only, each naming a file by a
      path with at least one component and no trailing '/' (`add` stages no
      such path), whose blob is stored. */
  predicate FlatTree(st: Store, rs: seq<Record>) {
    forall i :: 0 <= i < |rs| ==>
      WellFormed(rs[i]) && rs[i].kind == BLOB && Read(st, rs[i].digest).Ok? && PathOf(rs[i]) != []
      && !DirectoryOnly(rs[i].path)
  }

  /** No path of the tree lies along another: distinct files, none inside another. */
  predicate Separate(rs: seq<Record>) {
    forall i, j :: 0 <= i < |rs| && 0 <= j < |rs| && i != j ==> !Along(PathOf(rs[i]), PathOf(rs[j]))
  }

  lemma FlatTail(st: Store, rs: seq<Record>)
    requires rs != [] && FlatTree(st, rs) && Separate(rs)
    ensures FlatTree(st, rs[1..]) && Separate(rs[1..])
    ensures forall j :: 1 <= j < |rs| ==> !Along(PathOf(rs[0]), PathOf(rs[j])) && !Along(PathOf(rs[j]), PathOf(rs[0]))
  {
    var rest := rs[1..];
    assert forall j :: 0 <= j < |rest| ==> rest[j] == rs[j + 1];
  }

  /** One blob line of a flat tree, restored into the working directory root. */
  lemma FixedBlobLine(st: Store, r: Record, more: seq<string>, work: seq<Node>, fuel: nat)
    requires WellFormed(r) && r.kind == BLOB && Read(st, r.digest).Ok? && !DirectoryOnly(r.path)
    requires Place(work, PathOf(r), Read(st, r.digest).value).Ok?
    ensures RestoreLinesFixed(st, [Line(r)] + more, [], work, fuel)
            == RestoreLinesFixed(st, more, [], Place(work, PathOf(r), Read(st, r.digest).value).value, fuel)
  {
    ParseLineOfLine(r);
    var none: seq<string> := [];
    assert none + PathOf(r) == PathOf(r);
    assert ([Line(r)] + more)[1..] == more;
  }

  /** Restoring a flat tree changes nothing away from its paths. */
  lemma {:induction false} FlatFrame(st: Store, rs: seq<Record>, work: seq<Node>, fuel: nat, q: seq<string>)
    requires FlatTree(st, rs) && Separate(rs)
    requires forall i :: 0 <= i < |rs| ==> Clear(work, PathOf(rs[i]))
    requires q != [] && forall i :: 0 <= i < |rs| ==> !Along(q, PathOf(rs[i]))
    ensures Lookup(RestoreLinesFixed(st, RecordLines(rs), [], work, fuel).state, q) == Lookup(work, q)
    decreases rs
  {
    if rs != [] {
      var r, rest := rs[0], rs[1..];
      var data := Read(st, r.digest).value;
      var w1 := Place(work, PathOf(r), data).value;
      FlatTail(st, rs);
      PlaceWrites(work, PathOf(r), data);
      forall j | 0 <= j < |rest|
        ensures Clear(w1, PathOf(rest[j]))
      {
        assert rest[j] == rs[j + 1];
        PlaceKeepsClear(work, PathOf(r), data, PathOf(rest[j]));
      }
      assert RecordLines(rs) == [Line(r)] + RecordLines(rest);
      FixedBlobLine(st, r, RecordLines(rest), work, fuel);
      assert forall j :: 0 <= j < |rest| ==> rest[j] == rs[j + 1];
      FlatFrame(st, rest, w1, fuel, q);
      PlaceFrame(work, PathOf(r), data, q);
    }
  }

  /** Restoring a flat tree whose paths are clear and separate completes and
      leaves every file of the tree at its path with its stored content. */
  lemma {:induction false} FlatRestored(st: Store, rs: seq<Record>, work: seq<Node>, fuel: nat)
    requires FlatTree(st, rs) && Separate(rs)
    requires forall i :: 0 <= i < |rs| ==> Clear(work, PathOf(rs[i]))
    ensures RestoreLinesFixed(st, RecordLines(rs), [], work, fuel).Completed?
    ensures forall i :: 0 <= i < |rs| ==>
              Lookup(RestoreLinesFixed(st, RecordLines(rs), [], work, fuel).state, PathOf(rs[i]))
                == Some(File(Last(PathOf(rs[i])), Read(st, rs[i].digest).value))
    decreases rs
  {
    if rs != [] {
      var r, rest := rs[0], rs[1..];
      var data := Read(st, r.digest).value;
      var w1 := Place(work, PathOf(r), data).value;
      var result := RestoreLinesFixed(st, RecordLines(rs), [], work, fuel);
      FlatTail(st, rs);
      PlaceWrites(work, PathOf(r), data);
      forall j | 0 <= j < |rest|
        ensures Clear(w1, PathOf(rest[j]))
      {
        assert rest[j] == rs[j + 1];
        PlaceKeepsClear(work, PathOf(r), data, PathOf(rest[j]));
      }
      assert RecordLines(rs) == [Line(r)] + RecordLines(rest);
      FixedBlobLine(st, r, RecordLines(rest), work, fuel);
      FlatRestored(st, rest, w1, fuel);
      assert forall j :: 0 <= j < |rest| ==> rest[j] == rs[j + 1];
      FlatFrame(st, rest, w1, fuel, PathOf(r));
    }
  }

  /** A path that does not start at `.mygit` is clear once the working
      directory has been wiped. */
  lemma WipedClear(work: seq<Node>, cs: seq<string>)
    requires cs != [] && cs[0] != META_DIR
    ensures Clear(Wipe(work), cs)
  {
    WipedNames(work, cs[0]);
    if Parent(cs) != [] {
      assert Parent(cs)[0] == cs[0];
    }
  }

  /** Every listed path holds a file with the content stored for its record. */
  predicate HoldsFiles(st: Store, rs: seq<Record>, work: seq<Node>) {
    forall i :: 0 <= i < |rs| ==>
      Read(st, rs[i].digest).Ok? && |PathOf(rs[i])| > 0
      && Lookup(work, PathOf(rs[i])) == Some(File(Last(PathOf(rs[i])), Read(st, rs[i].digest).value))
  }

  /** The corrected `prevState(tree, ".")` after the wipe restores every
      file of a flat tree. */
  lemma FixedTreeRestored(st: Store, work: seq<Node>, tree: string, rs: seq<Record>, fuel: nat)
    requires Read(st, tree) == Ok(Format(rs)) && FlatTree(st, rs) && Separate(rs)
    requires forall i :: 0 <= i < |rs| ==> PathOf(rs[i])[0] != META_DIR
    ensures RestoreFixed(st, tree, [], Wipe(work), fuel).Completed?
    ensures HoldsFiles(st, rs, RestoreFixed(st, tree, [], Wipe(work), fuel).state)
  {
    forall i | 0 <= i < |rs|
      ensures Clear(Wipe(work), PathOf(rs[i]))
    {
      WipedClear(work, PathOf(rs[i]));
    }
    LinesOfFormat(rs);
    FlatRestored(st, rs, Wipe(work), fuel);
  }

  /** With the corrected `prevState`, checking out a commit whose flat tree
      lists separate paths outside `.mygit` brings back every file with its
      stored content, nested ones included, and moves HEAD to the commit. */
  lemma CheckoutFixedRestoresFiles(st: Store, meta: Meta, work: seq<Node>, commit: string, tree: string, rs: seq<Record>, fuel: nat)
    requires Read(st, commit).Ok? && TreeField(Lines(Read(st, commit).value)) == Ok(tree) && tree != ""
    requires Read(st, tree) == Ok(Format(rs)) && FlatTree(st, rs) && Separate(rs)
    requires forall i :: 0 <= i < |rs| ==> PathOf(rs[i])[0] != META_DIR
    requires Advance(meta, commit).Ok?
    ensures var r := CheckoutFixed(st, meta, work, commit, fuel);
            r.Completed? && r.state.1 == Advance(meta, commit).value && HoldsFiles(st, rs, r.state.0)
  {
    FixedTreeRestored(st, work, tree, rs, fuel);
    CheckoutFixedCompletes(st, meta, work, commit, tree, fuel);
    CompletedHolding(st, rs, CheckoutFixed(st, meta, work, commit, fuel),
                     RestoreFixed(st, tree, [], Wipe(work), fuel).state, Advance(meta, commit).value);
  }

  /** Outside `.mygit`, nothing is left but what lies along a listed path. */
  ghost predicate OnlyListed(rs: seq<Record>, work: seq<Node>) {
    forall q :: q != [] && q[0] != META_DIR && (forall i :: 0 <= i < |rs| ==> !Along(q, PathOf(rs[i]))) ==>
      Lookup(work, q) == None
  }

  /** After the wipe, the corrected restore of a flat tree leaves nothing
      outside `.mygit` but what lies along a listed path. */
  lemma FixedTreeClearsRest(st: Store, work: seq<Node>, tree: string, rs: seq<Record>, fuel: nat)
    requires Read(st, tree) == Ok(Format(rs)) && FlatTree(st, rs) && Separate(rs)
    requires forall i :: 0 <= i < |rs| ==> PathOf(rs[i])[0] != META_DIR
    ensures OnlyListed(rs, RestoreFixed(st, tree, [], Wipe(work), fuel).state)
  {
    forall i | 0 <= i < |rs|
      ensures Clear(Wipe(work), PathOf(rs[i]))
    {
      WipedClear(work, PathOf(rs[i]));
    }
    LinesOfFormat(rs);
    forall q | q != [] && q[0] != META_DIR && (forall i :: 0 <= i < |rs| ==> !Along(q, PathOf(rs[i])))
      ensures Lookup(RestoreFixed(st, tree, [], Wipe(work), fuel).state, q) == None
    {
      FlatFrame(st, rs, Wipe(work), fuel, q);
      WipedNames(work, q[0]);
    }
  }

  /** The corrected `checkout` is still destructive: every path outside
      `.mygit` that lies along none of the commit's files is gone. */
  lemma CheckoutFixedRemovesOthers(st: Store, meta: Meta, work: seq<Node>, commit: string, tree: string, rs: seq<Record>, fuel: nat)
    requires Read(st, commit).Ok? && TreeField(Lines(Read(st, commit).value)) == Ok(tree) && tree != ""
    requires Read(st, tree) == Ok(Format(rs)) && FlatTree(st, rs) && Separate(rs)
    requires forall i :: 0 <= i < |rs| ==> PathOf(rs[i])[0] != META_DIR
    requires Advance(meta, commit).Ok?
    ensures var r := CheckoutFixed(st, meta, work, commit, fuel);
            r.Completed? && OnlyListed(rs, r.state.0)
  {
    var w := RestoreFixed(st, tree, [], Wipe(work), fuel).state;
    CheckoutFixedFlat(st, meta, work, commit, tree, rs, fuel);
    FixedTreeClearsRest(st, work, tree, rs, fuel);
    CompletedOnlyListed(rs, CheckoutFixed(st, meta, work, commit, fuel), w, Advance(meta, commit).value);
  }

  /** The corrected `checkout` of a flat tree completes with the restored
      working directory and the advanced HEAD. */
  lemma CheckoutFixedFlat(st: Store, meta: Meta, work: seq<Node>, commit: string, tree: string, rs: seq<Record>, fuel: nat)
    requires Read(st, commit).Ok? && TreeField(Lines(Read(st, commit).value)) == Ok(tree) && tree != ""
    requires Read(st, tree) == Ok(Format(rs)) && FlatTree(st, rs) && Separate(rs)
    requires forall i :: 0 <= i < |rs| ==> PathOf(rs[i])[0] != META_DIR
    requires Advance(meta, commit).Ok?
    ensures CheckoutFixed(st, meta, work, commit, fuel)
            == Completed((RestoreFixed(st, tree, [], Wipe(work), fuel).state, Advance(meta, commit).value))
  {
    FixedTreeRestored(st, work, tree, rs, fuel);
    CheckoutFixedCompletes(st, meta, work, commit, tree, fuel);
  }

  /** A run that completed in `(w, m)` with nothing unlisted in `w`. */
  lemma CompletedOnlyListed(rs: seq<Record>, r: Run<(seq<Node>, Meta)>, w: seq<Node>, m: Meta)
    requires r == Completed((w, m)) && OnlyListed(rs, w)
    ensures r.Completed? && OnlyListed(rs, r.state.0)
  {
  }

  /** A run that completed in `(w, m)` with `w` holding the files. */
  lemma CompletedHolding(st: Store, rs: seq<Record>, r: Run<(seq<Node>, Meta)>, w: seq<Node>, m: Meta)
    requires r == Completed((w, m)) && HoldsFiles(st, rs, w)
    ensures r.Completed? && r.state.1 == m && HoldsFiles(st, rs, r.state.0)
  {
  }

  /** A checkout whose restore completes and whose HEAD update succeeds completes. */
  lemma CheckoutFixedCompletes(st: Store, meta: Meta, work: seq<Node>, commit: string, tree: string, fuel: nat)
    requires Read(st, commit).Ok? && TreeField(Lines(Read(st, commit).value)) == Ok(tree) && tree != ""
    requires RestoreFixed(st, tree, [], Wipe(work), fuel).Completed? && Advance(meta, commit).Ok?
    ensures CheckoutFixed(st, meta, work, commit, fuel)
            == Completed((RestoreFixed(st, tree, [], Wipe(work), fuel).state, Advance(meta, commit).value))
  {
  }

  // ---------------------------------------------------------------------------
  // The original write, for comparison
  // ---------------------------------------------------------------------------

  /** In the original, a blob line whose path has a directory part does
      nothing after the wipe: that directory is gone and the file cannot be
      opened. */
  lemma NestedBlobSkipped(st: Store, r: Record, more: seq<string>, work: seq<Node>, fuel: nat)
    requires WellFormed(r) && r.kind == BLOB && Read(st, r.digest).Ok?
    requires |PathOf(r)| >= 2 && PathOf(r)[0] != META_DIR
    ensures RestoreLines(st, [Line(r)] + more, [], Wipe(work), fuel) == RestoreLines(st, more, [], Wipe(work), fuel)
  {
    var cs := PathOf(r);
    var none: seq<string> := [];
    assert none + cs == cs;
    if DirectoryOnly(r.path) {
      RestoreSlashBlobLine(st, r, more, [], Wipe(work), fuel);
    } else {
      RestoreBlobLine(st, r, more, [], Wipe(work), fuel);
      WipedNames(work, cs[0]);
      assert Parent(cs)[0] == cs[0];
    }
  }

  /** In the original, checking out a commit whose flat tree lists only
      nested paths restores none of them: the working directory is left
      wiped. */
  lemma {:induction false} NestedFilesLost(st: Store, rs: seq<Record>, work: seq<Node>, fuel: nat)
    requires FlatTree(st, rs)
    requires forall i :: 0 <= i < |rs| ==> |PathOf(rs[i])| >= 2 && PathOf(rs[i])[0] != META_DIR
    ensures RestoreLines(st, RecordLines(rs), [], Wipe(work), fuel) == Completed(Wipe(work))
    decreases rs
  {
    if rs != [] {
      var rest := rs[1..];
      assert RecordLines(rs) == [Line(rs[0])] + RecordLines(rest);
      NestedBlobSkipped(st, rs[0], RecordLines(rest), work, fuel);
      assert forall j :: 0 <= j < |rest| ==> rest[j] == rs[j + 1];
      NestedFilesLost(st, rest, work, fuel);
    }
  }

  /** The original `checkout` of such a commit completes, moves HEAD, and
      leaves nothing but `.mygit` behind. */
  lemma CheckoutLosesNestedFiles(st: Store, meta: Meta, work: seq<Node>, commit: string, tree: string, rs: seq<Record>, fuel: nat)
    requires Read(st, commit).Ok? && TreeField(Lines(Read(st, commit).value)) == Ok(tree) && tree != ""
    requires Read(st, tree) == Ok(Format(rs)) && FlatTree(st, rs)
    requires forall i :: 0 <= i < |rs| ==> |PathOf(rs[i])| >= 2 && PathOf(rs[i])[0] != META_DIR
    requires Advance(meta, commit).Ok?
    ensures Checkout(st, meta, work, commit, fuel) == Completed((Wipe(work), Advance(meta, commit).value))
  {
    assert AllWellFormed(rs);
    LinesOfFormat(rs);
    NestedFilesLost(st, rs, work, fuel);
  }

  /** A blob line naming a file path, whose blob is stored. */
  predicate BlobLine(st: Store, r: Record) {
    WellFormed(r) && r.kind == BLOB && Read(st, r.digest).Ok? && !DirectoryOnly(r.path)
  }

  /** A tree with a top-level file and a nested file under another top-level
      name (as `commit` writes after `add a.txt sub/b.txt`): the original
      restore writes the top-level file and skips the nested one. */
  lemma MixedTreeRestore(st: Store, ra: Record, rb: Record, work: seq<Node>, fuel: nat)
    requires BlobLine(st, ra) && BlobLine(st, rb)
    requires |PathOf(ra)| == 1 && PathOf(ra)[0] != META_DIR
    requires |PathOf(rb)| >= 2 && PathOf(rb)[0] != META_DIR && PathOf(rb)[0] != PathOf(ra)[0]
    ensures var r := RestoreLines(st, RecordLines([ra, rb]), [], Wipe(work), fuel);
            r.Completed?
            && Lookup(r.state, PathOf(ra)) == Some(File(Last(PathOf(ra)), Read(st, ra.digest).value))
            && Lookup(r.state, PathOf(rb)) == None
  {
    var a := PathOf(ra);
    var b := PathOf(rb);
    var w0 := Wipe(work);
    var none: seq<string> := [];
    assert none + a == a && none + b == b;
    assert RecordLines([ra, rb]) == [Line(ra)] + [Line(rb)];
    assert [Line(rb)] == [Line(rb)] + [];
    RestoreBlobLine(st, ra, [Line(rb)], [], w0, fuel);
    WipedNames(work, a[0]);
    WipedNames(work, b[0]);
    var w1 := WriteFile(w0, a, Read(st, ra.digest).value);
    assert w1 == w0 + [File(a[0], Read(st, ra.digest).value)];
    FindAppend(w0, File(a[0], Read(st, ra.digest).value), a[0]);
    FindAppendOther(w0, File(a[0], Read(st, ra.digest).value), b[0]);
    assert Lookup(w1, a) == Some(File(Last(a), Read(st, ra.digest).value));
    assert Parent(b)[0] == b[0];
    assert GetDir(w1, Parent(b)).None?;
    RestoreBlobLine(st, rb, [], [], w1, fuel);
  }

  /** The original `checkout` of such a commit completes with the top-level
      file back and the nested file missing. */
  lemma CheckoutLosesMixedNestedFile(st: Store, meta: Meta, work: seq<Node>, commit: string, tree: string, ra: Record, rb: Record, fuel: nat)
    requires Read(st, commit).Ok? && TreeField(Lines(Read(st, commit).value)) == Ok(tree) && tree != ""
    requires Read(st, tree) == Ok(Format([ra, rb])) && BlobLine(st, ra) && BlobLine(st, rb)
    requires |PathOf(ra)| == 1 && PathOf(ra)[0] != META_DIR
    requires |PathOf(rb)| >= 2 && PathOf(rb)[0] != META_DIR && PathOf(rb)[0] != PathOf(ra)[0]
    requires Advance(meta, commit).Ok?
    ensures var r := Checkout(st, meta, work, commit, fuel);
            r.Completed?
            && Lookup(r.state.0, PathOf(ra)) == Some(File(Last(PathOf(ra)), Read(st, ra.digest).value))
            && Lookup(r.state.0, PathOf(rb)) == None
  {
    assert AllWellFormed([ra, rb]);
    LinesOfFormat([ra, rb]);
    MixedTreeRestore(st, ra, rb, work, fuel);
  }

  /** The corrected `checkout` of the same commit brings both files back. */
  lemma CheckoutFixedKeepsMixedNestedFile(st: Store, meta: Meta, work: seq<Node>, commit: string, tree: string, ra: Record, rb: Record, fuel: nat)
    requires Read(st, commit).Ok? && TreeField(Lines(Read(st, commit).value)) == Ok(tree) && tree != ""
    requires Read(st, tree) == Ok(Format([ra, rb])) && BlobLine(st, ra) && BlobLine(st, rb)
    requires |PathOf(ra)| == 1 && PathOf(ra)[0] != META_DIR
    requires |PathOf(rb)| >= 2 && PathOf(rb)[0] != META_DIR && PathOf(rb)[0] != PathOf(ra)[0]
    requires Advance(meta, commit).Ok?
    ensures var r := CheckoutFixed(st, meta, work, commit, fuel);
            r.Completed?
            && Lookup(r.state.0, PathOf(ra)) == Some(File(Last(PathOf(ra)), Read(st, ra.digest).value))
            && Lookup(r.state.0, PathOf(rb)) == Some(File(Last(PathOf(rb)), Read(st, rb.digest).value))
  {
    var rs := [ra, rb];
    assert rs[0] == ra && rs[1] == rb;
    assert FlatTree(st, rs) && Separate(rs);
    CheckoutFixedRestoresFiles(st, meta, work, commit, tree, rs, fuel);
  }
}
