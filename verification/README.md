# mygit snapshot engine, modelled in Dafny

`mygit` is a small content-addressed version-control tool in one C++ file,
`a4.cpp`. This project models its snapshot engine as pure functions over
values and proves what the engine promises:

- **Object store.** Contents are named by the hex rendering of their SHA-1
  digest. They are stored at `.mygit/objects/objects<h[0..2]>/<h[2..]>` and
  read back by the same path (`writeObject`, `readObject`, `handleBlob`).
  The hash is a parameter `Hasher` mapping contents to 20 raw bytes.
  The hex step is modelled exactly, and its decoding inverse is proved.
  zlib is modelled by its round trip: the store maps an object's file path
  to its uncompressed content.
- **Tree objects.** `createTreeObj` writes one `mode type digest name` line
  per directory entry. `lsTree` reads those lines back with `>>`.
  The working directory is a recursive `Node` datatype whose child order is
  the `directory_iterator` order.
- **Staging index.** `readIndexFiles`, `stageFile`, `addFiles` and
  `updateIndex` turn `.mygit/index` into a path-keyed table and back.
- **Commits.** `commit` splices the parent tree's lines under the staged
  lines into a flat tree object, and writes a `Tree:`/`Parent:`/message/date
  commit object. It then clears the index and moves HEAD. `parentCommit`
  and `prevTree` read this back.
- **HEAD and refs.** HEAD is either a symbolic `ref: <path>` line or a bare
  digest. Resolution and advance follow the program's text rules literally,
  including `substr` throwing `std::out_of_range`.
- **History.** `log` walks the `Parent:` chain from the resolved HEAD and
  prints one block per commit. The printed lines are the model's result.
- **Checkout.** `checkout` scans the commit for its `Tree:` line and wipes
  every top-level entry except the `.mygit` directory. `prevState` then
  restores the tree, and HEAD is moved.

Every place where the program prints a message and calls `exit(0)`, and every
escaping exception, becomes an `Err`/`Aborted` value carrying an `Error`.
Multi-step operations return a `Run`, which holds the state reached even
when the run stops early, because the program does not roll back.
Files under `.mygit` other than objects (HEAD, the index, refs) form one
`Meta` map from path to content. A symbolic HEAD may therefore name any
of them, as it can in the program.

Modules, one per file, in dependency order:

- `Results`: errors, `Option`, `Result`, `Run`.
- `Text`: `getline`, `>>`, `find` and `substr`.
- `Hex`: digests.
- `Records`: the four-field line format.
- `ObjectStore`: object paths, reads and writes.
- `WorkTree`: the working directory and path resolution.
- `TreeBuilder`: `createTreeObj`, `lsTree` and `writeTree`.
- `Staging`: the index and `add`.
- `Refs`: HEAD.
- `Commits`: `commit`.
- `History`: `log`.
- `Checkouts`: `checkout` and `prevState` as written.
- `CheckoutFix`: the corrected blob write and the finding below.

## Model

| member | source | states |
|---|---|---|
| Hex.HexEncode | a4.cpp:61-64 | Two lower-case hex digits per byte, so the name is twice as long as the raw digest and uses only hex digits |
| Hex.HexEncodeAt | a4.cpp:62-64 | Byte `i` becomes its high nibble's digit at position `2i` and its low nibble's digit at `2i+1`: zero-padded, most significant first |
| Hex.DigitValue | a4.cpp:63 | Every hex digit the encoder emits has a nibble value below 16 that prints back as the same digit |
| Hex.HexDecode | a4.cpp:61-64 | Reading a hex string back gives half as many bytes |
| Hex.HexRoundTrip | a4.cpp:61-64 | Hex encoding loses nothing: decoding the rendering gives the raw digest back |
| Hex.Digest | a4.cpp:54-66 | `SHA1` always returns a 40-character lower-case hex name |
| Hex.DigestInjective | a4.cpp:54-66 | Two contents get the same object name exactly when their raw SHA-1 digests agree |
| Hex.DigestIsWord | a4.cpp:470-487 | A digest is one word on one line and contains no `ref:`, so writing it into HEAD, an index or a tree line is safe |
| Text.Words | a4.cpp:272-274 | Successive `>>` extractions yield only non-empty, whitespace-free words |
| Text.WordsCons | a4.cpp:291-292 | A token written before a separator is read back by `>>` as exactly that word, and reading continues after it |
| Text.WordsOfToken | a4.cpp:274 | A token on its own is read back as exactly one word |
| Text.Lines | a4.cpp:271 | `getline` never yields a line containing a newline |
| Text.LinesCons | a4.cpp:386 | A line written with its newline is the first line `getline` returns, followed by the lines of what comes after |
| Text.FirstLineOf | a4.cpp:361-362 | The first `getline` of a file starting with `l` and a newline returns `l` |
| Text.SplitJoin | a4.cpp:553 | Splitting `a + "/" + b` at `/` gives the pieces of `a` followed by those of `b` |
| Text.Substr | a4.cpp:366 | `substr(pos)` succeeds exactly when `pos` is at most the length, and then the prefix plus the result is the original string |
| Records.ParseLine | a4.cpp:272-274 | A line with four or more words parses to a record whose four fields are single words; a line with fewer words leaves every field past its last word empty, so a short line has an empty path |
| Records.ParseLines | a4.cpp:271-274 | `lsTree` parses each line independently, one record per line, in order |
| Records.ParseStream | a4.cpp:324-326 | The `while (in >> mode >> type >> hash >> path)` loop yields only well-formed records |
| Records.ParseLineOfLine | a4.cpp:404-406 | A record written as `mode type hash path` parses back to the same record |
| Records.ParseLinesOfFormat | a4.cpp:399-408 | A tree object's text split with `getline` and parsed per line gives back exactly the records written |
| Records.ParseStreamOfFormat | a4.cpp:432-434 | The staged lines written one per line are read back by the four-word loop as the same records, in order |
| Records.FormatAppend | a4.cpp:440-442 | Writing inherited lines then staged lines is the text of the two record lists concatenated |
| ObjectStore.ObjectPath | a4.cpp:101-107 | An object path exists exactly for names of two or more characters (`substr(2)` throws otherwise) |
| ObjectStore.ObjectPathInjective | a4.cpp:209-212 | Distinct names never share an object file, so reading by path is reading by name |
| ObjectStore.Read | a4.cpp:208-223 | Reading succeeds exactly when the object file exists; a short name is an out-of-range error and a missing file is "Object not found" |
| ObjectStore.Write | a4.cpp:100-119 | After writing, reading the name yields exactly the content and every other name reads as before |
| ObjectStore.StoreIfAbsent | a4.cpp:135-139 | Storing a content already present changes nothing; otherwise the new object reads back exactly; either way the object exists afterwards, nothing older is lost, and other names are untouched |
| ObjectStore.StorePreservesSound | a4.cpp:187-191 | Storing a content under its own digest, written unconditionally or only if absent, keeps every stored object named by its own digest |
| ObjectStore.HandleBlob | a4.cpp:122-155 | Returns the content's digest; with `store` the blob exists afterwards and reads back as the file's content when it was new; without `store` the store is unchanged |
| WorkTree.ComponentsJoin | a4.cpp:553 | `currPath + "/" + name` resolves to the components of `currPath` followed by those of `name` |
| WorkTree.Resolve | a4.cpp:333-347 | The empty path names nothing; a path ending in `/` or `/.` names nothing or a directory, never a regular file |
| WorkTree.TrailingSlashNamesDirectory | a4.cpp:333-347 | Adding a trailing `/` to a non-empty path keeps what it names when that is a directory and makes it name nothing otherwise |
| WorkTree.Child | a4.cpp:339-344 | The path `recursive_directory_iterator` reports for an entry names that entry inside its directory, whether or not the directory path ends in `/` |
| WorkTree.WriteFile | a4.cpp:553-555 | When the parent directory exists and no directory is in the way, the path then holds a file with exactly the written data; otherwise the open fails and nothing changes |
| WorkTree.CreateDirectory | a4.cpp:558 | `create_directory` succeeds exactly when the directory already exists or its parent exists and the name is free; an existing directory is left as it was, and a new one is empty |
| WorkTree.CreatedDirectoryExists | a4.cpp:558-559 | After `create_directory` succeeds, the recursive `prevState` has a directory to write into |
| WorkTree.GetPutDir | a4.cpp:559 | Replacing a directory's entries and looking it up again yields the new entries |
| WorkTree.PutGetDir | a4.cpp:559 | Putting back a directory's own entries leaves the tree unchanged |
| WorkTree.Wipe | a4.cpp:582-586 | After the wipe, exactly the top-level entries named `.mygit` remain |
| TreeBuilder.Visible | a4.cpp:173-178 | Exactly the entries that are not the `.mygit` directory get a line; a regular file called `.mygit` is listed |
| TreeBuilder.EntriesListEveryChild | a4.cpp:173-184 | Every listed entry gets exactly one line, in enumeration order: a blob line for a file, a tree line for a directory, empty directories included |
| TreeBuilder.EntriesWellFormed | a4.cpp:176-181 | When names contain no whitespace, every line written has four single-word fields |
| TreeBuilder.TreeDigest | a4.cpp:185-186 | A tree's name is a 40-digit hex digest |
| TreeBuilder.BuildEntries | a4.cpp:172-184 | The tree text is the formatted list of entry lines; every subtree object is stored; nothing stored before is lost, and a sound store stays sound |
| TreeBuilder.BuildTree | a4.cpp:171-193 | `createTreeObj` returns the tree's digest, the tree object and all its subtrees exist afterwards, nothing is lost, and soundness is kept |
| TreeBuilder.StoredExtends | a4.cpp:187-191 | Subtrees once stored remain stored as the store grows |
| TreeBuilder.LsTree | a4.cpp:264-274 | `lsTree` succeeds exactly when the tree object exists |
| TreeBuilder.LsTreeOfFormat | a4.cpp:269-274 | Reading a tree object written from well-formed records lists exactly those records |
| TreeBuilder.LsTreeOfBuilt | a4.cpp:264-281 | `lsTree` on a tree `createTreeObj` just wrote lists exactly its entry lines, whether the object was new or already stored with the same content |
| TreeBuilder.WriteTree | a4.cpp:196-205 | `write-tree` succeeds exactly inside a repository and then returns the working directory's tree digest, whose object exists |
| Staging.Insert | a4.cpp:324-326 | The table holds exactly the old paths and every path read; each path read carries the mode, type and digest of its last record, and a path no record names keeps its old entry |
| Staging.ReadIndex | a4.cpp:317-328 | A missing index file reads as the empty table; otherwise the table's paths are exactly the paths of the parsed lines, and each path carries the mode, type and digest of the last line naming it |
| Staging.EntryLines | a4.cpp:291-293 | One line per path of the iteration order, carrying that path's entry |
| Staging.InsertEntryLines | a4.cpp:324-326 | Reading the written lines over a table sets exactly the written paths to their entries and leaves the others alone |
| Staging.IndexRoundTrip | a4.cpp:285-294 | Whatever the hash table's iteration order, what `updateIndex` writes `readIndexFiles` reads back as the same table, provided no field contains whitespace |
| Staging.StageFile | a4.cpp:298-314 | A path already staged with the same digest leaves the index unchanged; otherwise it gets `040000 tree` for a directory or `100644 blob` for a file with the new digest; every other path is untouched; the blob is stored |
| Staging.StageFileIdempotent | a4.cpp:308-311 | Staging the same content twice is the same as staging it once |
| Staging.StageAll | a4.cpp:333-351 | Staging files in turn only adds to the store and keeps it sound |
| Staging.StageAllFrame | a4.cpp:331-353 | Paths not among the staged files keep their index entries exactly |
| Staging.StageAllLatest | a4.cpp:297-313 | A path staged several times ends with the digest of its last content, as a `100644 blob` entry unless its earlier entry already carried that digest |
| Staging.StageAllStored | a4.cpp:343-349 | Every staged file's blob is in the store afterwards |
| Staging.OutsideMeta | a4.cpp:340-342 | Exactly the gathered files whose path does not mention `.mygit` are kept, in their order |
| Staging.AddFiles | a4.cpp:331-351 | After `add`, the paths not gathered keep their entries, each gathered path carries the digest of its latest content as a `100644 blob` entry (or keeps an entry that already carried it), and every gathered blob is stored |
| Staging.AddFilesWritesIndex | a4.cpp:331-352 | The index file `add` writes reads back as the staged table: gathered paths with the digest of their latest content, every other path as it was |
| Refs.ResolveHead | a4.cpp:356-376 | A missing HEAD resolves to nothing; a plain line resolves to itself; the read throws exactly when a `ref:` line is shorter than five characters; a resolved digest is one line |
| Refs.Advance | a4.cpp:470-488 | A missing HEAD is left alone; the update throws on the same lines that resolution does; it never deletes a file, and every file it changes or creates holds the digest and a newline |
| Refs.ResolveAfterAdvance | a4.cpp:475-487 | After moving HEAD to a digest, symbolic or detached, resolving HEAD gives that digest |
| Refs.AdvanceKeepsBranch | a4.cpp:475-482 | A symbolic HEAD still names the same branch after the update |
| Refs.DigestResolves | a4.cpp:365-375 | A digest written by an advance is what `parentCommit` returns next |
| Commits.TreeField | a4.cpp:384-392 | No `Tree:` line gives the empty name; a leading `Tree:` line gives what follows its sixth character; only `substr` can fail |
| Commits.PrevTree | a4.cpp:379-393 | No parent gives no tree; a missing parent object is an error; errors are only a missing object or an out-of-range `substr` |
| Commits.Kept | a4.cpp:405-407 | Exactly the parent-tree lines whose path is not staged are kept, none added |
| Commits.Inherited | a4.cpp:396-410 | Without a parent tree nothing is inherited; otherwise it succeeds exactly when the parent tree object exists |
| Commits.CommitLines | a4.cpp:456-462 | The commit object reads back as a `Tree:` line, a `Parent:` line only when there is a parent, the message line and the date line |
| Commits.TreeFieldOfCommit | a4.cpp:384-392 | The `Tree:` scan of a commit object returns the tree digest written into it |
| Commits.TreeText | a4.cpp:432-442 | Building the tree text fails only on a missing object or an out-of-range `substr` |
| Commits.WriteObjects | a4.cpp:448-467 | The tree and commit objects are written under their own digests and read back exactly; nothing else changes and soundness is kept |
| Commits.ClearAndAdvance | a4.cpp:444-488 | The index is emptied, HEAD now resolves to the new commit, no file is lost, and every other changed file holds the commit digest |
| Commits.Commit | a4.cpp:413-489 | Commit refuses exactly when the index file is missing or empty. On success the commit object names the new tree and the previous HEAD as parent, the tree object holds the spliced text, HEAD resolves to the new commit, the index is cleared, and no other object changes |
| Commits.CommitTreeLists | a4.cpp:396-442 | The new tree lists the parent tree's lines for unstaged paths, in order, followed by the staged lines |
| Commits.CommitNamesTree | a4.cpp:379-393 | `prevTree` of the new commit returns the tree just written |
| History.ScanCommit | a4.cpp:522-533 | Scanning fails only on an out-of-range `substr`; without a `Parent:` line the parent stays as it was |
| History.LogFrom | a4.cpp:512-537 | An empty digest prints nothing; an existing non-empty commit's block starts with its `SHA:` line; an empty commit object prints `Commit info not found` and stops; a read failure aborts the walk with that error, printing `Object not found` when the object is missing |
| History.Log | a4.cpp:494-511 | No HEAD prints "No commit history"; a HEAD resolving to nothing prints nothing |
| History.ScanCommitLines | a4.cpp:519-533 | A commit object prints its parent (when it has one), message and date lines, and yields its parent digest |
| History.LogFromCommit | a4.cpp:512-537 | `log` on a commit prints its block, then continues from its parent |
| History.LogAfterCommit | a4.cpp:511-536 | After a commit, `log` prints the new commit's block and then the history from the previous HEAD |
| Checkouts.Restore | a4.cpp:543-546 | A missing tree object stops the restore with the working directory as it was |
| Checkouts.RestoreLines | a4.cpp:547-561 | No lines means nothing changes |
| Checkouts.RestoreSlashBlobLine | a4.cpp:551-555 | A blob line whose name ends in `/` or `/.` writes nothing, because `ofstream` cannot open such a path as a file, and the loop goes on with the directory unchanged |
| Checkouts.Checkout | a4.cpp:567-608 | A missing commit object, or one without a `Tree:` line, aborts before anything is deleted; a completed checkout has moved HEAD by the same rule as commit |
| Checkouts.ComponentsOfName | a4.cpp:553 | A plain name adds exactly one path component |
| Checkouts.LinesOfFormat | a4.cpp:545-547 | `getline` over a written tree object yields its lines in order |
| Checkouts.RestoreEntries | a4.cpp:543-562 | Restoring a tree `createTreeObj` wrote, into a directory without those names, appends exactly the snapshot's files and directories with their contents |
| Checkouts.RestoreDirEntry | a4.cpp:557-560 | A tree line creates the directory, restores the subtree into it, and continues with the remaining lines |
| Checkouts.WipedNames | a4.cpp:582-586 | After the wipe no name other than `.mygit` is present |
| Checkouts.CheckoutRestoresSnapshot | a4.cpp:567-608 | Checking out a commit whose tree `createTreeObj` wrote leaves `.mygit` plus exactly that snapshot and moves HEAD to the commit |
| CheckoutFix.MakeDirs | a4.cpp:553-555 | Creating all missing parent directories succeeds exactly when no file lies along the path |
| CheckoutFix.MakeDirsMakes | a4.cpp:553-555 | After the parents are created the directory exists |
| CheckoutFix.MakeDirsFrame | a4.cpp:553-555 | Creating parents changes nothing at paths not along the created one |
| CheckoutFix.WriteFileFrame | a4.cpp:553-555 | Writing a file changes nothing at paths not along it |
| CheckoutFix.Place | a4.cpp:553-555 | The corrected write fails exactly when a file blocks one of the parent directories |
| CheckoutFix.PlaceWrites | a4.cpp:553-555 | When nothing blocks the path, the corrected write leaves exactly the data in a file at that path |
| CheckoutFix.PlaceFrame | a4.cpp:553-555 | The corrected write changes nothing at paths not along it |
| CheckoutFix.PlaceKeepsClear | a4.cpp:553-555 | Writing one file keeps every separate path writable |
| CheckoutFix.RestoreFixed | a4.cpp:543-546 | With the corrected write, a missing tree object still stops the restore with the directory unchanged |
| CheckoutFix.RestoreLinesFixed | a4.cpp:547-561 | With the corrected write, no lines means nothing changes |
| CheckoutFix.CheckoutFixed | a4.cpp:567-608 | The corrected checkout keeps the original's abort cases and HEAD rule |
| CheckoutFix.FlatFrame | a4.cpp:547-561 | Restoring a flat tree leaves every path not along a listed path as it was |
| CheckoutFix.FlatRestored | a4.cpp:547-561 | With the corrected write, restoring a flat tree of separate paths completes, and every listed path holds its stored content |
| CheckoutFix.CheckoutFixedRestoresFiles | a4.cpp:567-608 | The corrected checkout of a commit with a flat tree completes, moves HEAD, and brings back every listed file with its stored content, nested ones included |
| CheckoutFix.FixedTreeClearsRest | a4.cpp:547-561 | After the wipe, the corrected restore of a flat tree leaves nothing outside `.mygit` except what lies along a listed path |
| CheckoutFix.CheckoutFixedRemovesOthers | a4.cpp:567-608 | The corrected checkout is still destructive: it completes, and every path outside `.mygit` that lies along none of the commit's files is gone |
| CheckoutFix.NestedBlobSkipped | a4.cpp:551-555 | As written, a blob line with a directory part does nothing after the wipe |
| CheckoutFix.NestedFilesLost | a4.cpp:547-561 | As written, restoring a flat tree of nested paths into the wiped directory leaves it wiped |
| CheckoutFix.CheckoutLosesNestedFiles | a4.cpp:567-608 | As written, checking out such a commit completes and moves HEAD, but leaves nothing besides `.mygit` |
| CheckoutFix.MixedTreeRestore | a4.cpp:547-561 | As written, restoring a tree of one top-level file and one nested file under another name writes the top-level file and leaves the nested path missing |
| CheckoutFix.CheckoutLosesMixedNestedFile | a4.cpp:567-608 | As written, checking out a commit of `a.txt` and `sub/b.txt` completes with `a.txt` back and `sub/b.txt` missing |
| CheckoutFix.CheckoutFixedKeepsMixedNestedFile | a4.cpp:567-608 | With the corrected write, checking out the same commit completes with both files back, each with its stored content |

## Where the code and its description differ

The model follows the code in each of these cases:

- The `!treeHash.empty()` guard in `createTreeObj` never fails, because a
  digest has 40 characters. Empty subdirectories are therefore listed too.
- `createTreeObj` hashes blobs without storing them (`handleBlob(..., false)`).
  `write-tree` therefore stores only tree objects.
- `commit` writes the tree and commit objects without checking whether they
  already exist.
- `commit` refuses only when the index file is missing or byte-empty. An
  index holding only whitespace commits the parent tree again.
- `log` prints the message line as `"Commit message: " + line.substr(15)`.
  Because the stored line has a space after the colon, the output has two
  spaces.
- Commit trees are flat. Each line names a file by the path the index
  recorded, such as `./sub/b.txt`. A commit tree is not the nested tree
  `write-tree` builds. This is what leads to the finding below.

## Left out

- SHA-1's compression function: `Hasher` is a parameter, and collisions are not ruled out. `Hex.DigestInjective` ties equal names to equal raw digests only.
- zlib `compressFile`/`decompressFile` and the buffer-doubling retry are foreign calls. The store holds uncompressed contents.
- Failed opens, short writes and `perror` are not modelled. The working directory and metadata are values.
- `ctime` is not modelled: the date line is a parameter of `Commit`.
- `unordered_map` iteration order is not modelled: `UpdateIndex` takes it as a parameter.
- `directory_iterator` order is not modelled: it is the order of a directory's child sequence.
- `init`, `main`'s argument dispatch, `hashObject`'s and `catFile`'s printing, `findType`, and `lsTree`'s printing are command-line plumbing. The parse they print is modelled.
- `cout` messages are not modelled, except the lines `log` prints.
- `..`, absolute paths and symbolic links are not interpreted. `.` and empty path pieces inside a path are dropped, as the file system does. A path that ends in `/` or `/.` names only a directory. A regular file reached that way does not exist, as with ENOTDIR, and a blob line with such a name writes nothing, because `ofstream` does not open it (EISDIR or ENOTDIR). Tree lines with such a name create and fill the directory as usual.
- A symbolic HEAD naming an object file is not modelled. Objects and metadata are kept in separate maps, so such a HEAD cannot alias an object.
- Writes that `prevState` makes into `.mygit` through a tree line naming it land in the working-directory value, not in `Meta`.
- Checkouts.Restore: the recursion into subtrees carries fuel. A tree nested deeper than the fuel stops with `OutOfFuel`, which the program never does.
- CheckoutFix.RestoreFixed: carries the same fuel bound as `Checkouts.Restore`.
- History.LogFrom: the walk carries fuel. A cyclic parent chain, which SHA-1 makes impossible in practice, would loop forever in the program.
- Refs.ResolveHead: the value a resolvable symbolic line resolves to is stated through `Refs.ResolveAfterAdvance`, not in its own contract.
- Commits.TreeText: its contract states only its error cases. The text it builds is stated by `Commits.CommitTreeLists`.
- Checkouts.RestoreLines: its contract states only the empty case. What restoring a written tree does is stated by `Checkouts.RestoreEntries`.
- Checkouts.CheckoutRestoresSnapshot: stated for trees whose names are single path components, which is what `createTreeObj` writes.
- CheckoutFix.RestoreLinesFixed: its contract states only the empty case. Blob lines are stated by `CheckoutFix.FlatRestored` and `CheckoutFix.FlatFrame`. Tree lines under the corrected write are not stated separately: they are handled as in `Checkouts.RestoreLines`.
- CheckoutFix.CheckoutFixedRestoresFiles: stated for flat trees of blob lines whose paths are separate and do not end in `/`, which is what `commit` writes from an `add` of files. That everything else outside `.mygit` is removed is stated by `CheckoutFix.CheckoutFixedRemovesOthers`, under the same conditions.

## Findings

| source | as written | input that shows it | evidently intended | confidence | as-written member | corrected member |
|---|---|---|---|---|---|---|
| a4.cpp:553-555 | `checkout` first removes every top-level entry except `.mygit` (a4.cpp:582-586). `prevState` then opens `currPath + "/" + name` for each blob line, but the commit tree is flat and its names carry the directory parts `add` recorded, so the open fails silently for any nested path | `add .` with `a.txt` and `sub/b.txt`, then `commit`; the tree holds `100644 blob <h> ./sub/b.txt`. A later `checkout` of that commit wipes `sub` and never recreates `sub/b.txt` | create the missing parent directories before writing, so every committed file comes back | not executed | CheckoutFix.CheckoutLosesMixedNestedFile | CheckoutFix.CheckoutFixedKeepsMixedNestedFile |
