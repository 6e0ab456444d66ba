/** The local-filesystem shard store (lib/storage/local.js): a flat
    key-to-blob store whose backing directory holds one file per key, the
    file name being the key and the content the shard's bytes.

    The directory's files are the map `files`; every filesystem call the
    adapter makes (mkdirp, readFile, writeFile, unlink, statSync, readdir)
    takes the outcome the filesystem gives as a parameter, so a failure can
    be injected at each of them. */
module LocalStorage {
  import opened JsValues

  type Byte = b: int | 0 <= b < 256
  type Key = string
  type Shard = seq<Byte>
  type Directory = map<Key, Shard>

  /** The record the network library hands over and gets back: a key and the
      shard's content. */
  datatype StorageItem = StorageItem(hash: Key, shard: Shard)

  /** What one filesystem call reports. */
  datatype FsOutcome = Done | Failed(message: string)

  /** What a directory listing (readdir) reports: the file names in the
      filesystem's own order, or a failure. */
  datatype Listing = Listed(names: seq<Key>) | ListFailed(message: string)

  /** What the storage path names before the store is constructed. */
  datatype PathEntry = Missing | ExistingDirectory(contents: Directory) | NotADirectory

  datatype Error =
    | ItemNotFound                            // 'Item not found'
    | InvalidDirectoryPath                    // 'Invalid directory path supplied'
    | NoSuchEntry(syscall: string, path: string)  // ENOENT from the named call
    | FsError(message: string)                // any other filesystem failure, passed through

  datatype Result<T> = Ok(value: T) | Err(error: Error)

  const ItemNotFoundMessage := "Item not found"
  const InvalidDirectoryPathMessage := "Invalid directory path supplied"

  /** The message the caller sees for each error. */
  function Message(e: Error): string {
    match e
    case ItemNotFound => ItemNotFoundMessage
    case InvalidDirectoryPath => InvalidDirectoryPathMessage
    case NoSuchEntry(syscall, path) => "ENOENT: no such file or directory, " + syscall + " '" + path + "'"
    case FsError(m) => m
  }

  /** `${root}/${key}`: the file of a key lies directly under the root and is
      named by the key. */
  function ItemPath(root: string, key: Key): (p: string)
    ensures |p| == |root| + 1 + |key|
    ensures p[..|root| + 1] == root + "/" && p[|root| + 1..] == key
  {
    root + "/" + key
  }

  /** Distinct keys have distinct files. */
  lemma ItemPathInjective(root: string, k1: Key, k2: Key)
    requires ItemPath(root, k1) == ItemPath(root, k2)
    ensures k1 == k2
  {
    assert k1 == ItemPath(root, k1)[|root| + 1..];
  }

  /** _validatePath: a missing path is created (an empty directory), an
      existing directory is taken as it is, and anything else fails the
      directory assertion.  A failure of mkdirp itself is passed through. */
  function ValidatePath(entry: PathEntry, mkdirp: FsOutcome): (r: Result<Directory>)
    ensures r.Ok? <==> entry.ExistingDirectory? || (entry.Missing? && mkdirp.Done?)
    ensures r == Err(InvalidDirectoryPath) <==> entry.NotADirectory?
    ensures entry.Missing? && r.Ok? ==> r.value == map[]
    ensures entry.Missing? && mkdirp.Failed? ==> r == Err(FsError(mkdirp.message))
    ensures entry.ExistingDirectory? ==> r == Ok(entry.contents)
  {
    match entry
    case Missing => if mkdirp.Done? then Ok(map[]) else Err(FsError(mkdirp.message))
    case ExistingDirectory(contents) => Ok(contents)
    case NotADirectory => Err(InvalidDirectoryPath)
  }

  /** Validating the directory a validation produced changes nothing, and
      needs no directory creation: constructing twice over the same path is
      harmless. */
  lemma ValidatePathIdempotent(entry: PathEntry, mkdirp: FsOutcome, again: FsOutcome)
    requires ValidatePath(entry, mkdirp).Ok?
    ensures ValidatePath(ExistingDirectory(ValidatePath(entry, mkdirp).value), again)
            == ValidatePath(entry, mkdirp)
  {
  }

  /** The listing names every file of the directory exactly once. */
  ghost predicate Enumerates(names: seq<Key>, dir: Directory) {
    (forall i, j :: 0 <= i < j < |names| ==> names[i] != names[j])
    && (forall k :: k in dir <==> k in names)
  }

  /** The sum of the sizes of the named files. */
  function SumSizes(dir: Directory, names: seq<Key>): nat
    requires forall k :: k in names ==> k in dir
  {
    if names == [] then 0
    else SumSizes(dir, names[..|names| - 1]) + |dir[names[|names| - 1]]|
  }

  /** The total byte size of the directory's files, in no particular order. */
  ghost function TotalSize(dir: Directory): nat
    decreases |dir|
  {
    if dir == map[] then 0
    else
      var k :| k in dir;
      |dir[k]| + TotalSize(dir - {k})
  }

  lemma {:induction false} TotalSizeRemove(dir: Directory, k: Key)
    requires k in dir
    ensures TotalSize(dir) == |dir[k]| + TotalSize(dir - {k})
    decreases |dir|
  {
    var j :| j in dir && TotalSize(dir) == |dir[j]| + TotalSize(dir - {j});
    if j != k {
      calc {
        TotalSize(dir);
        |dir[j]| + TotalSize(dir - {j});
        { TotalSizeRemove(dir - {j}, k); }
        |dir[j]| + |dir[k]| + TotalSize(dir - {j} - {k});
        { assert dir - {j} - {k} == dir - {k} - {j}; }
        |dir[k]| + |dir[j]| + TotalSize(dir - {k} - {j});
        { TotalSizeRemove(dir - {k}, j); }
        |dir[k]| + TotalSize(dir - {k});
      }
    }
  }

  lemma {:induction false} SumSizesSameContents(dir: Directory, other: Directory, names: seq<Key>)
    requires forall k :: k in names ==> k in dir && k in other && dir[k] == other[k]
    ensures SumSizes(dir, names) == SumSizes(other, names)
  {
    if names != [] {
      SumSizesSameContents(dir, other, names[..|names| - 1]);
    }
  }

  /** Summing over any listing of the directory gives its total size,
      whatever order the filesystem lists the files in. */
  lemma {:induction false} SumSizesOfListing(dir: Directory, names: seq<Key>)
    requires Enumerates(names, dir)
    ensures forall k :: k in names ==> k in dir
    ensures SumSizes(dir, names) == TotalSize(dir)
  {
    if names == [] {
      assert forall k :: k !in dir;
      assert dir == map[];
    } else {
      var last := names[|names| - 1];
      var init := names[..|names| - 1];
      var rest := dir - {last};
      assert forall k :: k in init ==> k in names;
      assert Enumerates(init, rest) by {
        forall k | k in rest ensures k in init {
          assert k in names;
          var i :| 0 <= i < |names| && names[i] == k;
          assert i != |names| - 1;
          assert init[i] == k;
        }
        forall k | k in init ensures k in rest {
          var i :| 0 <= i < |init| && init[i] == k;
          assert names[i] == k && names[i] != names[|names| - 1];
        }
      }
      SumSizesOfListing(rest, init);
      SumSizesSameContents(dir, rest, init);
      TotalSizeRemove(dir, last);
    }
  }

  /** Storing s under k changes the total by the difference of the sizes. */
  lemma TotalSizeAfterPut(dir: Directory, k: Key, s: Shard)
    ensures TotalSize(dir[k := s]) == TotalSize(dir) - (if k in dir then |dir[k]| else 0) + |s|
  {
    TotalSizeRemove(dir[k := s], k);
    assert dir[k := s] - {k} == dir - {k};
    if k in dir {
      TotalSizeRemove(dir, k);
    } else {
      assert dir - {k} == dir;
    }
  }

  /** Removing a file takes exactly its size off the total. */
  lemma TotalSizeAfterDelete(dir: Directory, k: Key)
    requires k in dir
    ensures TotalSize(dir - {k}) == TotalSize(dir) - |dir[k]|
  {
    TotalSizeRemove(dir, k);
  }

  /** A store holding one item totals that item's size. */
  lemma TotalSizeOfOne(k: Key, s: Shard)
    ensures TotalSize(map[k := s]) == |s|
  {
    var empty: Directory := map[];
    TotalSizeAfterPut(empty, k, s);
    assert empty[k := s] == map[k := s];
  }

  /** Three shards of 3, 4 and 5 bytes total 12 bytes. */
  lemma TotalSizeOfThree(a: Shard, b: Shard, c: Shard)
    requires |a| == 3 && |b| == 4 && |c| == 5
    ensures TotalSize(map["a" := a, "b" := b, "c" := c]) == 12
  {
    var one: Directory := map[];
    TotalSizeAfterPut(one, "a", a);
    TotalSizeAfterPut(one["a" := a], "b", b);
    TotalSizeAfterPut(one["a" := a]["b" := b], "c", c);
    assert one["a" := a]["b" := b]["c" := c] == map["a" := a, "b" := b, "c" := c];
  }

  /** The adapter the storage manager talks to.  `files` is the backing
      directory; `rootIsDirectory` records that the storage path exists and
      is a directory, which construction establishes. */
  class LocalFilesystemAdapter {
    const path: string
    var rootIsDirectory: bool
    var files: Directory

    /** What Create establishes: the storage path names a directory.  Put
        and Delete require it and keep it. */
    ghost predicate Valid()
      reads this
    {
      rootIsDirectory
    }

    /** Binds a store to a validated directory. */
    constructor Bind(storagePath: string, contents: Directory)
      ensures Valid() && path == storagePath && files == contents
    {
      path := storagePath;
      rootIsDirectory := true;
      files := contents;
    }

    /** Construction: validate (or create) the directory, then bind the store
        to it; a path that is not a directory fails. */
    static method Create(storagePath: string, entry: PathEntry, mkdirp: FsOutcome)
      returns (r: Result<LocalFilesystemAdapter>)
      ensures r.Ok? <==> ValidatePath(entry, mkdirp).Ok?
      ensures r.Ok? ==> fresh(r.value) && r.value.Valid() && r.value.path == storagePath
                        && r.value.files == ValidatePath(entry, mkdirp).value
      ensures r.Err? ==> r.error == ValidatePath(entry, mkdirp).error
      ensures entry == NotADirectory ==>
                r == Err(InvalidDirectoryPath) && Message(r.error) == "Invalid directory path supplied"
      ensures entry == Missing && mkdirp.Failed? ==> r == Err(FsError(mkdirp.message))
    {
      var checked := ValidatePath(entry, mkdirp);
      if checked.Err? {
        return Err(checked.error);
      }
      var store := new LocalFilesystemAdapter.Bind(storagePath, checked.value);
      return Ok(store);
    }

    /** _existsItem: whether the key's file is present. */
    method ExistsItem(key: Key) returns (b: bool)
      ensures b <==> key in files
    {
      b := key in files;
    }

    /** _peek: the raw content of the key's file.  A missing file is
        'Item not found' and no read is attempted; a read failure is passed
        through unchanged. */
    method Peek(key: Key, read: FsOutcome) returns (r: Result<Shard>)
      ensures key !in files ==> r == Err(ItemNotFound)
      ensures key in files && read.Failed? ==> r == Err(FsError(read.message))
      ensures key in files && read.Done? ==> r == Ok(files[key])
      ensures r == Err(ItemNotFound) <==> key !in files
      ensures key !in files ==> Message(r.error) == "Item not found"
    {
      var present := ExistsItem(key);
      if !present {
        return Err(ItemNotFound);
      }
      if read.Failed? {
        return Err(FsError(read.message));
      }
      return Ok(files[key]);
    }

    /** _get: like _peek, but the content comes wrapped in a record whose
        hash is the key asked for. */
    method Get(key: Key, read: FsOutcome) returns (r: Result<StorageItem>)
      ensures key !in files ==> r == Err(ItemNotFound)
      ensures key in files && read.Failed? ==> r == Err(FsError(read.message))
      ensures key in files && read.Done? ==> r == Ok(StorageItem(key, files[key]))
      ensures r == Err(ItemNotFound) <==> key !in files
      ensures key !in files ==> Message(r.error) == "Item not found"
    {
      var present := ExistsItem(key);
      if !present {
        return Err(ItemNotFound);
      }
      if read.Failed? {
        return Err(FsError(read.message));
      }
      return Ok(StorageItem(key, files[key]));
    }

    /** _put: write the item's shard to the key's file, creating or
        overwriting it; the item's own hash plays no part.  A failed write is
        reported and leaves the directory as it was. */
    method Put(key: Key, item: StorageItem, write: FsOutcome) returns (r: Result<()>)
      requires Valid()
      modifies this
      ensures Valid()
      ensures write.Done? ==> r == Ok(()) && files == old(files)[key := item.shard]
      ensures write.Failed? ==> r == Err(FsError(write.message)) && files == old(files)
    {
      if write.Failed? {
        return Err(FsError(write.message));
      }
      files := files[key := item.shard];
      return Ok(());
    }

    /** _del: unlink the key's file without checking first, so a missing
        file is an ENOENT error; any other unlink failure is passed through. */
    method Delete(key: Key, unlink: FsOutcome) returns (r: Result<()>)
      requires Valid()
      modifies this
      ensures Valid()
      ensures key !in old(files) ==> r == Err(NoSuchEntry("unlink", ItemPath(path, key))) && files == old(files)
      ensures key !in old(files) ==>
                Message(r.error) == "ENOENT: no such file or directory, unlink '" + ItemPath(path, key) + "'"
      ensures key in old(files) && unlink.Failed? ==> r == Err(FsError(unlink.message)) && files == old(files)
      ensures key in old(files) && unlink.Done? ==> r == Ok(()) && files == old(files) - {key}
    {
      if key !in files {
        return Err(NoSuchEntry("unlink", ItemPath(path, key)));
      }
      if unlink.Failed? {
        return Err(FsError(unlink.message));
      }
      files := files - {key};
      return Ok(());
    }

    /** _flush: nothing is buffered, so it always succeeds. */
    method Flush() returns (r: Result<()>)
      ensures r == Ok(())
    {
      return Ok(());
    }

    /** _size(key): the byte length of the key's file, from statSync.  A
        missing file makes statSync fail with ENOENT. */
    method Size(key: Key, stat: FsOutcome) returns (r: Result<nat>)
      ensures key !in files ==> r == Err(NoSuchEntry("stat", ItemPath(path, key)))
      ensures key in files && stat.Failed? ==> r == Err(FsError(stat.message))
      ensures key in files && stat.Done? ==> r == Ok(|files[key]|)
    {
      if key !in files {
        return Err(NoSuchEntry("stat", ItemPath(path, key)));
      }
      if stat.Failed? {
        return Err(FsError(stat.message));
      }
      return Ok(|files[key]|);
    }

    /** _size(): list the directory and add up the size of every file
        listed; a listing failure is passed through. */
    method SizeAll(readdir: Listing) returns (r: Result<nat>)
      requires readdir.Listed? ==> Enumerates(readdir.names, files)
      ensures readdir.ListFailed? ==> r == Err(FsError(readdir.message))
      ensures readdir.Listed? ==> r == Ok(TotalSize(files))
    {
      if readdir.ListFailed? {
        return Err(FsError(readdir.message));
      }
      var names := readdir.names;
      SumSizesOfListing(files, names);
      var totalSize := 0;
      var i := 0;
      while i < |names|
        invariant 0 <= i <= |names|
        invariant totalSize == SumSizes(files, names[..i])
      {
        var size := Size(names[i], Done);
        assert names[..i + 1][..i] == names[..i];
        totalSize := totalSize + size.value;
        i := i + 1;
      }
      assert names[..|names|] == names;
      return Ok(totalSize);
    }

    /** _keys: read the listing once, now, and hand out a stream that drains
        that snapshot.  A listing failure (readdirSync throws) comes before
        any key. */
    method Keys(readdir: Listing) returns (r: Result<KeyStream>)
      ensures readdir.ListFailed? ==> r == Err(FsError(readdir.message))
      ensures readdir.Listed? ==> r.Ok? && fresh(r.value) && r.value.Valid()
                                  && r.value.snapshot == readdir.names
                                  && r.value.pending == readdir.names && r.value.emitted == []
    {
      if readdir.ListFailed? {
        return Err(FsError(readdir.message));
      }
      var stream := new KeyStream(readdir.names);
      return Ok(stream);
    }
  }

  /** The readable stream _keys returns: each read pushes the next name of
      the snapshot, and then the end of the stream. */
  class KeyStream {
    const snapshot: seq<Key>
    var pending: seq<Key>
    var ended: bool
    ghost var emitted: seq<Key>

    ghost predicate Valid()
      reads this
    {
      emitted + pending == snapshot && (ended ==> pending == [])
    }

    constructor (names: seq<Key>)
      ensures Valid() && snapshot == names && pending == names && emitted == [] && !ended
    {
      snapshot := names;
      pending := names;
      ended := false;
      emitted := [];
    }

    /** read(): push files.shift() while names remain, then null (the end). */
    method Read() returns (chunk: Option<Key>)
      requires Valid()
      modifies this
      ensures Valid()
      ensures old(pending) != [] ==> chunk == Some(old(pending)[0]) && pending == old(pending)[1..]
                                     && emitted == old(emitted) + [old(pending)[0]] && !ended
      ensures old(pending) == [] ==> chunk == None && pending == [] && emitted == old(emitted) && ended
    {
      if |pending| > 0 {
        chunk := Some(pending[0]);
        emitted := emitted + [pending[0]];
        pending := pending[1..];
      } else {
        chunk := None;
        ended := true;
      }
    }

    /** A consumer reading until the end receives every name still pending,
        each once and in order, and the stream has ended. */
    method ReadToEnd() returns (keys: seq<Key>)
      requires Valid()
      modifies this
      ensures Valid()
      ensures keys == old(pending) && pending == [] && ended
      ensures emitted == old(emitted) + keys
    {
      keys := [];
      var chunk := Read();
      while chunk.Some?
        invariant Valid()
        invariant chunk.Some? ==> keys + [chunk.value] + pending == old(pending)
                                  && emitted == old(emitted) + keys + [chunk.value]
        invariant chunk.None? ==> keys == old(pending) && pending == [] && ended
                                  && emitted == old(emitted) + keys
        decreases |pending| + (if chunk.Some? then 1 else 0)
      {
        keys := keys + [chunk.value];
        chunk := Read();
      }
    }
  }

  /** Round trip: after a successful put, get returns a record with the key
      as hash and the written shard, peek returns the bare shard, and size
      its length; the total grows by the difference in size. */
  method PutThenRead(store: LocalFilesystemAdapter, key: Key, item: StorageItem)
    returns (got: Result<StorageItem>, peeked: Result<Shard>, size: Result<nat>)
    requires store.Valid()
    modifies store
    ensures store.Valid()
    ensures store.files == old(store.files)[key := item.shard]
    ensures got == Ok(StorageItem(key, item.shard))
    ensures peeked == Ok(item.shard)
    ensures size == Ok(|item.shard|)
    ensures TotalSize(store.files) == TotalSize(old(store.files))
                                     - (if key in old(store.files) then |old(store.files)[key]| else 0)
                                     + |item.shard|
  {
    var put := store.Put(key, item, Done);
    got := store.Get(key, Done);
    peeked := store.Peek(key, Done);
    size := store.Size(key, Done);
    TotalSizeAfterPut(old(store.files), key, item.shard);
  }

  /** A put leaves every other key's content, and its presence or absence,
      as it was; a failed put leaves the store usable and unchanged. */
  method PutLeavesOthers(store: LocalFilesystemAdapter, key: Key, item: StorageItem,
                         write: FsOutcome, other: Key, read: FsOutcome)
    returns (before: Result<Shard>, after: Result<Shard>)
    requires store.Valid() && other != key
    modifies store
    ensures store.Valid()
    ensures before == after
    ensures write.Failed? ==> store.files == old(store.files)
  {
    before := store.Peek(other, read);
    var put := store.Put(key, item, write);
    after := store.Peek(other, read);
  }

  /** After a successful delete the key is not found, and nothing else
      changed; deleting it again is an ENOENT error. */
  method DeleteThenGet(store: LocalFilesystemAdapter, key: Key, read: FsOutcome)
    returns (deleted: Result<()>, got: Result<StorageItem>, again: Result<()>)
    requires store.Valid() && key in store.files
    modifies store
    ensures store.Valid()
    ensures deleted == Ok(()) && store.files == old(store.files) - {key}
    ensures got == Err(ItemNotFound)
    ensures again == Err(NoSuchEntry("unlink", ItemPath(store.path, key)))
    ensures TotalSize(store.files) == TotalSize(old(store.files)) - |old(store.files)[key]|
  {
    deleted := store.Delete(key, Done);
    got := store.Get(key, read);
    again := store.Delete(key, Done);
    TotalSizeAfterDelete(old(store.files), key);
  }

  /** The key stream reflects the listing taken when _keys was called: a
      put made afterwards does not show up in it. */
  method KeysIgnoreLaterWrites(store: LocalFilesystemAdapter, names: seq<Key>,
                               key: Key, item: StorageItem)
    returns (keys: seq<Key>)
    requires store.Valid() && Enumerates(names, store.files)
    modifies store
    ensures store.Valid()
    ensures keys == names
  {
    var stream := store.Keys(Listed(names));
    var put := store.Put(key, item, Done);
    keys := stream.value.ReadToEnd();
  }
}
