/** The working directory as a value: a directory is the sequence of its
    entries in the order `directory_iterator` enumerates them. Path strings
    are resolved by splitting at '/' and dropping empty and "." components;
    ".." is an ordinary name here.
 */
module WorkTree {
  import opened Results
  import Text

  datatype Node = File(name: string, content: string) | Dir(name: string, children: seq<Node>)

  /** The repository's metadata directory. */
  const META_DIR: string := ".mygit"

  // ---------------------------------------------------------------------------
  // Path strings
  // ---------------------------------------------------------------------------

  /** Drops the empty and "." pieces of a split path. */
  function Keep(pieces: seq<string>): (cs: seq<string>)
    ensures forall i :: 0 <= i < |cs| ==> cs[i] != "" && cs[i] != "."
  {
    if pieces == [] then []
    else if pieces[0] == "" || pieces[0] == "." then Keep(pieces[1..])
    else [pieces[0]] + Keep(pieces[1..])
  }

  lemma {:induction false} KeepAppend(a: seq<string>, b: seq<string>)
    ensures Keep(a + b) == Keep(a) + Keep(b)
  {
    if a != [] {
      assert (a + b)[1..] == a[1..] + b;
      KeepAppend(a[1..], b);
    } else {
      assert a + b == b;
    }
  }

  /** The names a path string walks through, starting at the current directory. */
  function Components(p: string): seq<string> {
    Keep(Text.Split(p, '/'))
  }

  /** `currPath + "/" + name` names `name` inside `currPath`. */
  lemma ComponentsJoin(a: string, b: string)
    ensures Components(a + "/" + b) == Components(a) + Components(b)
  {
    Text.SplitJoin(a, b, '/');
    KeepAppend(Text.Split(a, '/'), Text.Split(b, '/'));
  }

  /** `std::filesystem::path::operator/`: adds a separator unless the
      directory path is empty or already ends with one. */
  function Child(dir: string, name: string): (p: string)
    ensures Components(p) == Components(dir) + Components(name)
  {
    if dir == "" then
      assert Components(dir) == [];
      name
    else if dir[|dir| - 1] == '/' then
      var d := dir[..|dir| - 1];
      assert dir == d + "/" + "";
      assert d + "/" + name == dir + name;
      ComponentsJoin(d, "");
      ComponentsJoin(d, name);
      assert Components("") == [];
      dir + name
    else
      ComponentsJoin(dir, name);
      dir + "/" + name
  }

  // ---------------------------------------------------------------------------
  // Looking things up
  // ---------------------------------------------------------------------------

  /** Position of the entry called `name`, or |kids| when there is none. */
  function Find(kids: seq<Node>, name: string): (i: nat)
    ensures i <= |kids|
    ensures i < |kids| ==> kids[i].name == name
    ensures forall j :: 0 <= j < i ==> kids[j].name != name
  {
    if kids == [] then 0
    else if kids[0].name == name then 0
    else 1 + Find(kids[1..], name)
  }

  /** The entry a non-empty component path names, if any. */
  function Lookup(kids: seq<Node>, cs: seq<string>): Option<Node>
    requires cs != []
  {
    var i := Find(kids, cs[0]);
    if i == |kids| then None
    else if |cs| == 1 then Some(kids[i])
    else match kids[i]
      case File(_, _) => None
      case Dir(_, sub) => Lookup(sub, cs[1..])
  }

  /** The path's last piece is empty or ".", as after a trailing '/': the
      file system lets such a path name a directory only. */
  predicate DirectoryOnly(p: string) {
    var ps := Text.Split(p, '/');
    ps[|ps| - 1] == "" || ps[|ps| - 1] == "."
  }

  /** `exists(p)` and `is_directory(p)` together: what a path string names
      relative to the working directory `root`. A regular file reached
      through a trailing separator does not exist (ENOTDIR). */
  function Resolve(root: seq<Node>, p: string): (r: Option<Node>)
    ensures p == "" ==> r == None
    ensures DirectoryOnly(p) && r.Some? ==> r.value.Dir?
  {
    if p == "" then None
    else
      var cs := Components(p);
      if cs == [] then Some(Dir(".", root))
      else
        var n := Lookup(root, cs);
        if n.Some? && n.value.File? && DirectoryOnly(p) then None else n
  }

  /** Appending '/' keeps what a path names when that is a directory, and
      makes a path to a regular file name nothing. */
  lemma TrailingSlashNamesDirectory(root: seq<Node>, p: string)
    requires p != ""
    ensures var r := Resolve(root, p);
            Resolve(root, p + "/") == (if r.Some? && r.value.Dir? then r else None)
  {
    ComponentsJoin(p, "");
    Text.SplitJoin(p, "", '/');
    assert p + "/" + "" == p + "/";
    assert Components("") == [];
    assert Text.Split("", '/') == [""];
    var ps := Text.Split(p + "/", '/');
    assert ps == Text.Split(p, '/') + [""];
    assert DirectoryOnly(p + "/");
    assert Components(p + "/") == Components(p);
  }

  /** The entries of the directory at `cs`, if that is a directory. */
  function GetDir(kids: seq<Node>, cs: seq<string>): Option<seq<Node>> {
    if cs == [] then Some(kids)
    else
      var i := Find(kids, cs[0]);
      if i < |kids| && kids[i].Dir? then GetDir(kids[i].children, cs[1..]) else None
  }

  /** Replaces the entries of the directory at `cs`. */
  function PutDir(kids: seq<Node>, cs: seq<string>, sub: seq<Node>): seq<Node> {
    if cs == [] then sub
    else
      var i := Find(kids, cs[0]);
      if i < |kids| && kids[i].Dir? then kids[i := Dir(kids[i].name, PutDir(kids[i].children, cs[1..], sub))]
      else kids
  }

  lemma {:induction false} GetPutDir(kids: seq<Node>, cs: seq<string>, sub: seq<Node>)
    requires GetDir(kids, cs).Some?
    ensures GetDir(PutDir(kids, cs, sub), cs) == Some(sub)
  {
    if cs != [] {
      GetPutDir(kids[Find(kids, cs[0])].children, cs[1..], sub);
    }
  }

  // ---------------------------------------------------------------------------
  // Changing things
  // ---------------------------------------------------------------------------

  /** All components but the last: the directory a path's entry lives in. */
  function Parent(cs: seq<string>): seq<string>
    requires cs != []
  {
    cs[..|cs| - 1]
  }

  /** Entry lists that agree on names agree on where a name is found. */
  lemma {:induction false} FindSameNames(a: seq<Node>, b: seq<Node>, name: string)
    requires |a| == |b| && forall j :: 0 <= j < |a| ==> a[j].name == b[j].name
    ensures Find(a, name) == Find(b, name)
  {
    if a != [] && a[0].name != name {
      FindSameNames(a[1..], b[1..], name);
    }
  }

  lemma FindAppend(kids: seq<Node>, n: Node, name: string)
    requires Find(kids, name) == |kids| && n.name == name
    ensures Find(kids + [n], name) == |kids|
  {
    var k := kids + [n];
    assert k[|kids|].name == name;
    assert forall j :: 0 <= j < |kids| ==> k[j] == kids[j];
  }

  /** Appending an entry of another name does not change where `name` is found. */
  lemma FindAppendOther(kids: seq<Node>, n: Node, name: string)
    requires n.name != name
    ensures Find(kids + [n], name) == if Find(kids, name) < |kids| then Find(kids, name) else |kids| + 1
  {
    var k := kids + [n];
    assert forall j :: 0 <= j < |kids| ==> k[j] == kids[j];
  }

  /** Replacing entry `i` by one of the same name keeps every lookup's route. */
  lemma FindReplace(kids: seq<Node>, i: nat, n: Node, name: string)
    requires i < |kids| && kids[i].name == n.name
    ensures Find(kids[i := n], name) == Find(kids, name)
  {
    FindSameNames(kids[i := n], kids, name);
  }

  /** `ofstream out(path); out << data;`: creates or truncates a regular file.
      When the parent directory is missing or the path names a directory the
      stream does not open and nothing changes. */
  function WriteFile(kids: seq<Node>, cs: seq<string>, data: string): (r: seq<Node>)
    ensures cs != [] && GetDir(kids, Parent(cs)).Some? && (Lookup(kids, cs) == None || Lookup(kids, cs).value.File?) ==>
              Lookup(r, cs) == Some(File(cs[|cs| - 1], data))
    ensures cs == [] || GetDir(kids, Parent(cs)).None? || (Lookup(kids, cs).Some? && Lookup(kids, cs).value.Dir?) ==>
              r == kids
    decreases cs
  {
    if cs == [] then kids
    else
      var i := Find(kids, cs[0]);
      if |cs| == 1 then
        if i == |kids| then
          FindAppend(kids, File(cs[0], data), cs[0]);
          kids + [File(cs[0], data)]
        else if kids[i].File? then
          FindReplace(kids, i, File(cs[0], data), cs[0]);
          kids[i := File(cs[0], data)]
        else kids
      else if i < |kids| && kids[i].Dir? then
        var sub := WriteFile(kids[i].children, cs[1..], data);
        FindReplace(kids, i, Dir(kids[i].name, sub), cs[0]);
        assert Parent(cs)[0] == cs[0] && Parent(cs)[1..] == Parent(cs[1..]);
        kids[i := Dir(kids[i].name, sub)]
      else
        assert Parent(cs)[0] == cs[0];
        kids
  }

  /** `create_directory(path)`: an existing directory is left alone; a missing
      parent, or a file already at the path, throws. */
  function CreateDirectory(kids: seq<Node>, cs: seq<string>): (r: Result<seq<Node>>)
    ensures r.Ok? <==> GetDir(kids, cs).Some? || (cs != [] && GetDir(kids, Parent(cs)).Some? && Lookup(kids, cs) == None)
    ensures GetDir(kids, cs).Some? ==> r == Ok(kids)
    ensures r.Ok? && GetDir(kids, cs).None? ==> GetDir(r.value, cs) == Some([])
    decreases cs
  {
    if cs == [] then Ok(kids)
    else
      var i := Find(kids, cs[0]);
      if |cs| == 1 then
        if i == |kids| then
          FindAppend(kids, Dir(cs[0], []), cs[0]);
          Ok(kids + [Dir(cs[0], [])])
        else if kids[i].Dir? then Ok(kids)
        else Err(CannotCreateDirectory(cs))
      else if i < |kids| && kids[i].Dir? then
        assert Parent(cs)[0] == cs[0] && Parent(cs)[1..] == Parent(cs[1..]);
        match CreateDirectory(kids[i].children, cs[1..])
        case Err(e) => Err(e)
        case Ok(sub) =>
          FindReplace(kids, i, Dir(kids[i].name, sub), cs[0]);
          assert sub == kids[i].children ==> kids[i := Dir(kids[i].name, sub)] == kids;
          Ok(kids[i := Dir(kids[i].name, sub)])
      else
        assert Parent(cs)[0] == cs[0];
        Err(CannotCreateDirectory(cs))
  }

  /** A directory that `create_directory` accepted exists afterwards. */
  lemma CreatedDirectoryExists(kids: seq<Node>, cs: seq<string>)
    requires CreateDirectory(kids, cs).Ok?
    ensures GetDir(CreateDirectory(kids, cs).value, cs).Some?
  {
  }

  // ---------------------------------------------------------------------------
  // Working below a directory
  // ---------------------------------------------------------------------------

  /** Putting back what is there changes nothing. */
  lemma {:induction false} PutGetDir(kids: seq<Node>, cs: seq<string>)
    requires GetDir(kids, cs).Some?
    ensures PutDir(kids, cs, GetDir(kids, cs).value) == kids
  {
    if cs != [] {
      var i := Find(kids, cs[0]);
      PutGetDir(kids[i].children, cs[1..]);
      assert kids[i := Dir(kids[i].name, kids[i].children)] == kids;
    }
  }

  /** Looking below a replaced directory sees the replacement. */
  lemma {:induction false} GetPutDirBelow(kids: seq<Node>, dir: seq<string>, sub: seq<Node>, p: seq<string>)
    requires GetDir(kids, dir).Some?
    ensures GetDir(PutDir(kids, dir, sub), dir + p) == GetDir(sub, p)
  {
    if dir == [] {
      assert dir + p == p;
    } else {
      var i := Find(kids, dir[0]);
      var n := Dir(kids[i].name, PutDir(kids[i].children, dir[1..], sub));
      FindReplace(kids, i, n, dir[0]);
      assert (dir + p)[0] == dir[0] && (dir + p)[1..] == dir[1..] + p;
      GetPutDirBelow(kids[i].children, dir[1..], sub, p);
    }
  }

  /** Replacing a directory below `dir` is replacing `dir` by an edited copy. */
  lemma {:induction false} PutDirBelow(kids: seq<Node>, dir: seq<string>, sub: seq<Node>, p: seq<string>, t: seq<Node>)
    requires GetDir(kids, dir).Some?
    ensures PutDir(PutDir(kids, dir, sub), dir + p, t) == PutDir(kids, dir, PutDir(sub, p, t))
  {
    if dir == [] {
      assert dir + p == p;
    } else {
      var i := Find(kids, dir[0]);
      var n := Dir(kids[i].name, PutDir(kids[i].children, dir[1..], sub));
      FindReplace(kids, i, n, dir[0]);
      assert (dir + p)[0] == dir[0] && (dir + p)[1..] == dir[1..] + p;
      PutDirBelow(kids[i].children, dir[1..], sub, p, t);
    }
  }

  /** Writing a file that is new to the existing directory `dir` appends it there. */
  lemma {:induction false} WriteFileBelow(kids: seq<Node>, dir: seq<string>, name: string, data: string)
    requires GetDir(kids, dir).Some? && Find(GetDir(kids, dir).value, name) == |GetDir(kids, dir).value|
    ensures WriteFile(kids, dir + [name], data) == PutDir(kids, dir, GetDir(kids, dir).value + [File(name, data)])
  {
    var cs := dir + [name];
    if dir != [] {
      assert cs[0] == dir[0] && cs[1..] == dir[1..] + [name];
      WriteFileBelow(kids[Find(kids, dir[0])].children, dir[1..], name, data);
    }
  }

  /** Creating a directory that is new to the existing directory `dir`
      appends an empty one there. */
  lemma {:induction false} CreateDirectoryBelow(kids: seq<Node>, dir: seq<string>, name: string)
    requires GetDir(kids, dir).Some? && Find(GetDir(kids, dir).value, name) == |GetDir(kids, dir).value|
    ensures CreateDirectory(kids, dir + [name]) == Ok(PutDir(kids, dir, GetDir(kids, dir).value + [Dir(name, [])]))
  {
    var cs := dir + [name];
    if dir != [] {
      assert cs[0] == dir[0] && cs[1..] == dir[1..] + [name];
      CreateDirectoryBelow(kids[Find(kids, dir[0])].children, dir[1..], name);
    }
  }

  /** The first loop of `checkout`: `remove_all` on every top-level entry
      except the metadata directory. */
  function Wipe(kids: seq<Node>): (r: seq<Node>)
    ensures forall n :: n in r <==> n in kids && n.name == META_DIR
  {
    if kids == [] then []
    else if kids[0].name == META_DIR then [kids[0]] + Wipe(kids[1..])
    else Wipe(kids[1..])
  }

  /** The regular files `recursive_directory_iterator(dir)` reaches, as
      (path string, content) pairs in pre-order. */
  function RegularFiles(dir: string, kids: seq<Node>): seq<(string, string)>
    decreases kids
  {
    if kids == [] then []
    else
      var p := Child(dir, kids[0].name);
      match kids[0]
      case File(_, data) => [(p, data)] + RegularFiles(dir, kids[1..])
      case Dir(_, sub) => RegularFiles(p, sub) + RegularFiles(dir, kids[1..])
  }
}
