/** The staging index: `readIndexFiles`, `stageFile`, `addFiles` and
    `updateIndex`. In memory the index maps a path string to its mode, kind
    and digest; on disk it is the file `.mygit/index`, one line per entry.
 */
module Staging {
  import opened Results
  import opened Hex
  import opened Text
  import opened Records
  import opened ObjectStore
  import opened WorkTree

  /** The files under `.mygit` other than objects (HEAD, index, refs), by path. */
  type Meta = map<string, string>

  const INDEX_PATH: string := ".mygit/index"

  datatype Staged = Staged(mode: string, kind: string, digest: string)

  type Index = map<string, Staged>

  /** Some record in `rs` is for path `p`. */
  predicate Mentions(rs: seq<Record>, p: string) {
    exists i :: 0 <= i < |rs| && rs[i].path == p
  }

  /** No record after the `i`-th is for the same path. */
  predicate LastFor(rs: seq<Record>, i: int)
    requires 0 <= i < |rs|
  {
    forall j :: i < j < |rs| ==> rs[j].path != rs[i].path
  }

  /** The entry a record stages. */
  function EntryOf(rec: Record): Staged {
    Staged(rec.mode, rec.kind, rec.digest)
  }

  /** `indexFiles[path] = {mode, {type, hash}}` for each record in turn; a
      later record for the same path replaces an earlier one. */
  function Insert(idx: Index, rs: seq<Record>): (r: Index)
    ensures forall p :: p in r <==> p in idx || Mentions(rs, p)
    ensures forall i :: 0 <= i < |rs| && LastFor(rs, i) ==> rs[i].path in r && r[rs[i].path] == EntryOf(rs[i])
    ensures forall p :: p in idx && !Mentions(rs, p) ==> r[p] == idx[p]
    decreases rs
  {
    if rs == [] then idx
    else
      InsertStep(rs);
      Insert(idx[rs[0].path := EntryOf(rs[0])], rs[1..])
  }

  /** How the records after the first relate to all of them. */
  lemma InsertStep(rs: seq<Record>)
    requires rs != []
    ensures forall p :: Mentions(rs, p) <==> p == rs[0].path || Mentions(rs[1..], p)
    ensures forall i :: 1 <= i < |rs| && LastFor(rs, i) ==> LastFor(rs[1..], i - 1) && rs[1..][i - 1] == rs[i]
    ensures LastFor(rs, 0) ==> !Mentions(rs[1..], rs[0].path)
  {
    assert forall i :: 1 <= i < |rs| ==> rs[1..][i - 1] == rs[i];
  }

  /** `readIndexFiles`: a missing index file reads as the empty index. */
  function ReadIndex(meta: Meta): (idx: Index)
    ensures INDEX_PATH !in meta ==> idx == map[]
    ensures INDEX_PATH in meta ==> forall p :: p in idx <==> Mentions(ParseStream(meta[INDEX_PATH]), p)
    ensures INDEX_PATH in meta ==> var rs := ParseStream(meta[INDEX_PATH]);
              forall i :: 0 <= i < |rs| && LastFor(rs, i) ==> rs[i].path in idx && idx[rs[i].path] == EntryOf(rs[i])
  {
    if INDEX_PATH !in meta then map[]
    else
      var rs := ParseStream(meta[INDEX_PATH]);
      Insert(map[], rs)
  }

  /** The line written for the entry of `p`. */
  function EntryLine(idx: Index, p: string): Record
    requires p in idx
  {
    Record(idx[p].mode, idx[p].kind, idx[p].digest, p)
  }

  /** The entries in the order `order` lists their paths. */
  function EntryLines(idx: Index, order: seq<string>): (rs: seq<Record>)
    requires forall i :: 0 <= i < |order| ==> order[i] in idx
    ensures |rs| == |order|
    ensures forall i :: 0 <= i < |order| ==> rs[i] == EntryLine(idx, order[i])
  {
    if order == [] then [] else [EntryLine(idx, order[0])] + EntryLines(idx, order[1..])
  }

  /** `order` is an iteration order of the hash table: it lists exactly its keys. */
  predicate Enumerates(order: seq<string>, idx: Index) {
    (forall i :: 0 <= i < |order| ==> order[i] in idx) && (forall p :: p in idx ==> p in order)
  }

  /** `updateIndex`: the new content of the index file, one line per entry
      in the table's iteration order (which the program does not fix, so it
      is a parameter here). */
  function UpdateIndex(idx: Index, order: seq<string>): string
    requires Enumerates(order, idx)
  {
    Format(EntryLines(idx, order))
  }

  /** Every field of every entry reads back as a single word. */
  predicate WellFormedIndex(idx: Index) {
    forall p :: p in idx ==> WellFormed(EntryLine(idx, p))
  }

  /** Replaying the entry lines of `order` over `acc` sets exactly those paths. */
  lemma {:induction false} InsertEntryLines(acc: Index, idx: Index, order: seq<string>)
    requires forall i :: 0 <= i < |order| ==> order[i] in idx
    ensures forall p :: p in Insert(acc, EntryLines(idx, order)) <==> p in acc || p in order
    ensures forall p :: p in order ==> Insert(acc, EntryLines(idx, order))[p] == idx[p]
    ensures forall p :: p in acc && p !in order ==> Insert(acc, EntryLines(idx, order))[p] == acc[p]
    decreases order
  {
    if order != [] {
      var p0 := order[0];
      var acc' := acc[p0 := idx[p0]];
      InsertEntryLines(acc', idx, order[1..]);
      assert EntryLines(idx, order)[1..] == EntryLines(idx, order[1..]);
      assert forall p :: p in order <==> p == p0 || p in order[1..];
    }
  }

  /** What `updateIndex` writes, `readIndexFiles` reads back as the same
      table, whatever the iteration order, provided no field holds whitespace. */
  lemma IndexRoundTrip(meta: Meta, idx: Index, order: seq<string>)
    requires Enumerates(order, idx) && WellFormedIndex(idx)
    ensures ReadIndex(meta[INDEX_PATH := UpdateIndex(idx, order)]) == idx
  {
    var rs := EntryLines(idx, order);
    assert AllWellFormed(rs);
    ParseStreamOfFormat(rs);
    ReplayEntryLines(idx, order);
  }

  /** Replaying every entry line of a table over the empty table rebuilds it. */
  lemma ReplayEntryLines(idx: Index, order: seq<string>)
    requires Enumerates(order, idx)
    ensures Insert(map[], EntryLines(idx, order)) == idx
  {
    InsertEntryLines(map[], idx, order);
    SameMap(Insert(map[], EntryLines(idx, order)), idx);
  }

  lemma SameMap(a: Index, b: Index)
    requires forall p :: p in a <==> p in b
    requires forall p :: p in b ==> p in a && a[p] == b[p]
    ensures a == b
  {
  }

  /** `stageFile`: hashes and stores the blob, then records the path unless
      it is already staged with the same digest. `isDir` is `is_directory`
      on the path. */
  function StageFile(sha: Hasher, idx: Index, st: Store, path: string, data: string, isDir: bool): (r: (Index, Store))
    ensures path in idx && idx[path].digest == Digest(sha, data) ==> r.0 == idx
    ensures !(path in idx && idx[path].digest == Digest(sha, data)) ==>
              path in r.0 && r.0[path] == (if isDir then Staged(DIR_MODE, TREE, Digest(sha, data)) else Staged(FILE_MODE, BLOB, Digest(sha, data)))
    ensures forall p :: p != path ==> (p in r.0 <==> p in idx) && (p in idx ==> r.0[p] == idx[p])
    ensures path in r.0 && r.0[path].digest == Digest(sha, data)
    ensures Exists(r.1, Digest(sha, data)) && Extends(st, r.1)
    ensures Sound(sha, st) ==> Sound(sha, r.1)
  {
    var (h, st1) := HandleBlob(sha, st, data, true);
    StorePreservesSound(sha, st, data);
    var mode := if isDir then DIR_MODE else FILE_MODE;
    var kind := if mode == FILE_MODE then BLOB else TREE;
    if path in idx && idx[path].digest == h then (idx, st1)
    else (idx[path := Staged(mode, kind, h)], st1)
  }

  /** Staging unchanged content a second time changes nothing. */
  lemma StageFileIdempotent(sha: Hasher, idx: Index, st: Store, path: string, data: string, isDir: bool)
    ensures var (i1, s1) := StageFile(sha, idx, st, path, data, isDir);
            StageFile(sha, i1, s1, path, data, isDir) == (i1, s1)
  {
  }

  /** The paths of a list of (path, content) pairs. */
  function Paths(files: seq<(string, string)>): set<string> {
    set i | 0 <= i < |files| :: files[i].0
  }

  /** The content staged last for `p`. */
  function Latest(files: seq<(string, string)>, p: string): string
    requires p in Paths(files)
  {
    if p in Paths(files[1..]) then Latest(files[1..], p) else files[0].1
  }

  /** `stageFile` on each file in turn. */
  function StageAll(sha: Hasher, idx: Index, st: Store, files: seq<(string, string)>): (r: (Index, Store))
    ensures Extends(st, r.1)
    ensures Sound(sha, st) ==> Sound(sha, r.1)
    decreases files
  {
    if files == [] then (idx, st)
    else
      var (idx1, st1) := StageFile(sha, idx, st, files[0].0, files[0].1, false);
      StageAll(sha, idx1, st1, files[1..])
  }

  lemma PathsCons(files: seq<(string, string)>)
    requires files != []
    ensures Paths(files) == {files[0].0} + Paths(files[1..])
  {
    assert forall i :: 1 <= i < |files| ==> files[1..][i - 1] == files[i];
  }

  /** Staging a list of files leaves every unlisted path's entry alone. */
  lemma {:induction false} StageAllFrame(sha: Hasher, idx: Index, st: Store, files: seq<(string, string)>, p: string)
    requires p !in Paths(files)
    ensures var r := StageAll(sha, idx, st, files).0;
            (p in r <==> p in idx) && (p in idx ==> r[p] == idx[p])
    decreases files
  {
    if files != [] {
      PathsCons(files);
      var (idx1, st1) := StageFile(sha, idx, st, files[0].0, files[0].1, false);
      StageAllFrame(sha, idx1, st1, files[1..], p);
    }
  }

  /** Staging a list of files sets each listed path to the digest of the
      content it was listed with last, as a `100644 blob` entry unless the
      entry it had before already carried that digest. */
  lemma {:induction false} StageAllLatest(sha: Hasher, idx: Index, st: Store, files: seq<(string, string)>, p: string)
    requires p in Paths(files)
    ensures var r := StageAll(sha, idx, st, files).0;
            p in r && r[p].digest == Digest(sha, Latest(files, p))
            && (r[p] == Staged(FILE_MODE, BLOB, r[p].digest) || (p in idx && r[p] == idx[p]))
    decreases files
  {
    PathsCons(files);
    var (idx1, st1) := StageFile(sha, idx, st, files[0].0, files[0].1, false);
    if p in Paths(files[1..]) {
      StageAllLatest(sha, idx1, st1, files[1..], p);
    } else {
      assert p == files[0].0;
      StageAllFrame(sha, idx1, st1, files[1..], p);
    }
  }

  /** Every staged file's blob is in the store afterwards. */
  lemma {:induction false} StageAllStored(sha: Hasher, idx: Index, st: Store, files: seq<(string, string)>)
    ensures forall i :: 0 <= i < |files| ==> Exists(StageAll(sha, idx, st, files).1, Digest(sha, files[i].1))
    decreases files
  {
    if files != [] {
      var (idx1, st1) := StageFile(sha, idx, st, files[0].0, files[0].1, false);
      StageAllStored(sha, idx1, st1, files[1..]);
      var st2 := StageAll(sha, idx1, st1, files[1..]).1;
      forall i | 0 <= i < |files|
        ensures Exists(st2, Digest(sha, files[i].1))
      {
        if i == 0 {
          assert Exists(st1, Digest(sha, files[0].1));
          ExtendsExists(st1, st2, Digest(sha, files[0].1));
        } else {
          assert files[i] == files[1..][i - 1];
        }
      }
    }
  }

  /** The (path, content) pairs `addFiles` hands to `stageFile` for one
      argument: nothing for a missing path, the file itself, or every regular
      file below a directory whose path does not contain ".mygit". */
  function Gather(work: seq<Node>, arg: string): seq<(string, string)> {
    match Resolve(work, arg)
    case None => []
    case Some(File(_, data)) => [(arg, data)]
    case Some(Dir(_, kids)) => OutsideMeta(RegularFiles(arg, kids))
  }

  /** The `path.find(".mygit") != npos` filter. */
  function OutsideMeta(files: seq<(string, string)>): (r: seq<(string, string)>)
    ensures forall i :: 0 <= i < |r| ==> !Contains(r[i].0, META_DIR) && r[i] in files
    ensures forall i :: 0 <= i < |files| && !Contains(files[i].0, META_DIR) ==> files[i] in r
  {
    if files == [] then []
    else if Contains(files[0].0, META_DIR) then OutsideMeta(files[1..])
    else [files[0]] + OutsideMeta(files[1..])
  }

  function GatherAll(work: seq<Node>, args: seq<string>): seq<(string, string)> {
    if args == [] then [] else Gather(work, args[0]) + GatherAll(work, args[1..])
  }

  /** `addFiles` up to its final `updateIndex`: the index read from disk, with
      every gathered file staged in turn. Both `stageFile` calls are reached
      only for non-directories, so every new entry is `100644 blob`. */
  function AddFiles(sha: Hasher, meta: Meta, st: Store, work: seq<Node>, args: seq<string>): (r: (Index, Store))
    ensures var files := GatherAll(work, args);
            && (forall p :: p !in Paths(files) ==> (p in r.0 <==> p in ReadIndex(meta)) && (p in ReadIndex(meta) ==> r.0[p] == ReadIndex(meta)[p]))
            && (forall p :: p in Paths(files) ==> p in r.0 && r.0[p].digest == Digest(sha, Latest(files, p)))
            && (forall p :: p in Paths(files) ==> r.0[p] == Staged(FILE_MODE, BLOB, r.0[p].digest) || (p in ReadIndex(meta) && r.0[p] == ReadIndex(meta)[p]))
            && (forall i :: 0 <= i < |files| ==> Exists(r.1, Digest(sha, files[i].1)))
    ensures Extends(st, r.1)
    ensures Sound(sha, st) ==> Sound(sha, r.1)
  {
    var files := GatherAll(work, args);
    forall p | p !in Paths(files)
      ensures var r := StageAll(sha, ReadIndex(meta), st, files).0;
              (p in r <==> p in ReadIndex(meta)) && (p in ReadIndex(meta) ==> r[p] == ReadIndex(meta)[p])
    {
      StageAllFrame(sha, ReadIndex(meta), st, files, p);
    }
    forall p | p in Paths(files)
      ensures var r := StageAll(sha, ReadIndex(meta), st, files).0;
              p in r && r[p].digest == Digest(sha, Latest(files, p))
              && (r[p] == Staged(FILE_MODE, BLOB, r[p].digest) || (p in ReadIndex(meta) && r[p] == ReadIndex(meta)[p]))
    {
      StageAllLatest(sha, ReadIndex(meta), st, files, p);
    }
    StageAllStored(sha, ReadIndex(meta), st, files);
    StageAll(sha, ReadIndex(meta), st, files)
  }

  /** `addFiles` ends with `updateIndex`: the index file it writes reads back
      as the staged table, so every gathered path reads back with the digest
      of its latest content, whatever order the table is written in,
      provided no path holds whitespace. */
  lemma AddFilesWritesIndex(sha: Hasher, meta: Meta, st: Store, work: seq<Node>, args: seq<string>, order: seq<string>)
    requires var idx := AddFiles(sha, meta, st, work, args).0;
             Enumerates(order, idx) && WellFormedIndex(idx)
    ensures var idx := AddFiles(sha, meta, st, work, args).0;
            var back := ReadIndex(meta[INDEX_PATH := UpdateIndex(idx, order)]);
            var files := GatherAll(work, args);
            back == idx
            && (forall p :: p in Paths(files) ==> p in back && back[p].digest == Digest(sha, Latest(files, p)))
            && (forall p :: p !in Paths(files) ==> (p in back <==> p in ReadIndex(meta)) && (p in back ==> back[p] == ReadIndex(meta)[p]))
  {
    IndexRoundTrip(meta, AddFiles(sha, meta, st, work, args).0, order);
  }
}
