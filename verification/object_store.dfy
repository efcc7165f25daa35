/** The content-addressed object store under `.mygit/objects`.

    Each object lives in the file `.mygit/objects/objects<h[0..2]>/<h[2..]>`
    for its digest `h`. The store is modelled as the map from those file
    paths to the object's content. zlib is modelled by its round trip: what
    the map holds is what `decompressFile` returns for the stored bytes.
 */
module ObjectStore {
  import opened Results
  import opened Hex
  import Text

  type Store = map<string, string>

  const OBJECTS_PREFIX: string := ".mygit/objects/objects"

  /** The file an object is stored in: a two-character shard directory and the
      rest of the digest as the file name. `hash.substr(2)` throws when the
      digest is shorter than two characters. */
  function ObjectPath(h: string): (r: Result<string>)
    ensures r.Ok? <==> |h| >= 2
  {
    var file :- Text.Substr(h, 2);
    Ok(OBJECTS_PREFIX + h[..2] + "/" + file)
  }

  /** Different digests never share a file, so a map keyed by file path
      behaves as one keyed by digest. */
  lemma ObjectPathInjective(a: string, b: string)
    requires |a| >= 2 && |b| >= 2
    requires ObjectPath(a) == ObjectPath(b)
    ensures a == b
  {
    var pa := ObjectPath(a).value;
    var pb := ObjectPath(b).value;
    var n := |OBJECTS_PREFIX|;
    assert pa[n..n + 2] == a[..2];
    assert pb[n..n + 2] == b[..2];
    assert pa[n + 3..] == a[2..];
    assert pb[n + 3..] == b[2..];
    assert a == a[..2] + a[2..];
    assert b == b[..2] + b[2..];
  }

  /** The `exists(blobPath)` test. */
  predicate Exists(st: Store, h: string) {
    |h| >= 2 && ObjectPath(h).value in st
  }

  /** `readObject`: the content stored under `h`; exits with "Object not
      found" when there is none. */
  function Read(st: Store, h: string): (r: Result<string>)
    ensures r.Ok? <==> Exists(st, h)
    ensures |h| < 2 ==> r == Err(OutOfRange)
    ensures |h| >= 2 && !Exists(st, h) ==> r == Err(ObjectNotFound(h))
  {
    var p :- ObjectPath(h);
    if p in st then Ok(st[p]) else Err(ObjectNotFound(h))
  }

  /** `writeObject`: (re)writes the object file, truncating whatever was there. */
  function Write(st: Store, h: string, content: string): (r: Store)
    requires |h| >= 2
    ensures Read(r, h) == Ok(content)
    ensures forall g :: g != h ==> Read(r, g) == Read(st, g)
  {
    var r := st[ObjectPath(h).value := content];
    forall g | g != h
      ensures Read(r, g) == Read(st, g)
    {
      if |g| >= 2 && ObjectPath(g) == ObjectPath(h) {
        ObjectPathInjective(g, h);
      }
    }
    r
  }

  /** The `if (!exists(path)) writeObject(...)` pattern of `handleBlob` and
      `createTreeObj`: objects are written only when absent. */
  function StoreIfAbsent(st: Store, h: string, content: string): (r: Store)
    requires |h| >= 2
    ensures Exists(st, h) ==> r == st
    ensures !Exists(st, h) ==> Read(r, h) == Ok(content)
    ensures Exists(r, h)
    ensures Extends(st, r)
    ensures forall g :: g != h ==> Read(r, g) == Read(st, g)
  {
    if Exists(st, h) then st else Write(st, h, content)
  }

  /** Objects, once written by `StoreIfAbsent`, are never changed or removed. */
  ghost predicate Extends(st: Store, st': Store) {
    forall p :: p in st ==> p in st' && st'[p] == st[p]
  }

  lemma ExtendsExists(st: Store, st': Store, h: string)
    requires Extends(st, st') && Exists(st, h)
    ensures Exists(st', h)
  {
  }

  /** The content-addressing invariant: every object sits under the digest of
      its own content. */
  ghost predicate Sound(sha: Hasher, st: Store) {
    forall h :: Read(st, h).Ok? ==> Digest(sha, Read(st, h).value) == h
  }

  /** Storing content under its own digest keeps the store sound, whether the
      file is written unconditionally or only when absent. */
  lemma StorePreservesSound(sha: Hasher, st: Store, content: string)
    ensures Sound(sha, st) ==> Sound(sha, Write(st, Digest(sha, content), content))
    ensures Sound(sha, st) ==> Sound(sha, StoreIfAbsent(st, Digest(sha, content), content))
  {
  }

  /** `handleBlob`: the digest of a file's content; with `store` set the blob
      object is also written when absent, without it nothing is stored. */
  function HandleBlob(sha: Hasher, st: Store, data: string, store: bool): (r: (string, Store))
    ensures IsDigest(r.0) && r.0 == Digest(sha, data)
    ensures store ==> Exists(r.1, r.0) && Extends(st, r.1)
    ensures store && !Exists(st, r.0) ==> Read(r.1, r.0) == Ok(data)
    ensures !store ==> r.1 == st
  {
    var h := Digest(sha, data);
    if store then (h, StoreIfAbsent(st, h, data)) else (h, st)
  }
}
