/**
 * The blob-container filesystem provider of `BlobContainerFS.ts`: a URI
 * `…/Blob Containers/<container>/a/b` is served from one container, whose
 * remote state is a `BlobStore.Container`. Blob storage has no real
 * directories, so directories the user creates are kept in a pending set of
 * URI paths until a file is written beneath them.
 *
 * `parseUri` and `findRoot` are not part of this model: a request carries the
 * parsed URI as a record, and the root lookup is an input answer.
 */
module BlobContainerFs {
  import opened Wrappers
  import opened JsString
  import opened PosixPath
  import opened FsTypes
  import BlobStore
  import OrderedSet

  const RootMessage := "The root found must be a BlobContainerTreeItem."
  const NonRecursiveMessage := "Do not support non recursive deletion of folders or files."
  const ContainerDeleteMessage := "Cannot delete a Blob Container."
  const RenameMessage := "Renaming/moving folders or files not supported."

  /** What `findRoot` finds for a URI. */
  datatype RootAnswer = FoundContainer | FoundOther | RootFailed(error: FsError)

  /** The tree item `lookup` resolves a URI to. */
  datatype Entry =
    | ContainerItem
    | DirectoryItem(baseName: string, parentDirPath: string)
    | BlobItem(name: string)

  /**
   * The provider's pending set of created directory paths (a JavaScript
   * `Set`, so insertion-ordered without repeats) and the container it serves.
   */
  datatype State = State(pending: seq<string>, store: BlobStore.Container)

  predicate Valid(s: State) {
    OrderedSet.NoDup(s.pending) && BlobStore.Valid(s.store)
  }

  /** `getRoot`: only a container root is accepted. */
  function GetRoot(root: RootAnswer): (r: Outcome<()>)
    ensures r.Ok? <==> root.FoundContainer?
    ensures root.FoundOther? ==> r == Err(Error(RootMessage))
    ensures root.RootFailed? ==> r == Err(root.error)
  {
    match root
    case FoundContainer => Ok(())
    case FoundOther => Err(Error(RootMessage))
    case RootFailed(e) => Err(e)
  }

  /**
   * `lookup`: the empty file path is the container itself; otherwise a
   * directory listed at the parent prefix wins over a blob listed there.
   */
  function Lookup(root: RootAnswer, c: BlobStore.Container, p: ParsedUri): (r: Outcome<Entry>)
    ensures !root.FoundContainer? ==> r == Err(GetRoot(root).error)
    ensures root.FoundContainer? && p.filePath == "" ==> r == Ok(ContainerItem)
    ensures r.Ok? && r.value.BlobItem? ==>
      r.value.name == p.filePath && p.dirPath !in BlobStore.ListDirectories(c, p.parentDirPath)
    ensures r.Ok? && r.value.DirectoryItem? ==> r.value == DirectoryItem(p.baseName, p.parentDirPath)
    ensures r.Err? && root.FoundContainer? ==> r.error == FileNotFound
    ensures root.FoundContainer? && p.filePath != "" && p.dirPath in BlobStore.ListDirectories(c, p.parentDirPath) ==>
      r == Ok(DirectoryItem(p.baseName, p.parentDirPath))
    ensures root.FoundContainer? && p.filePath != "" && p.dirPath !in BlobStore.ListDirectories(c, p.parentDirPath) ==>
      r == if p.filePath in BlobStore.ListBlobs(c, p.parentDirPath) then Ok(BlobItem(p.filePath)) else Err(FileNotFound)
  {
    match GetRoot(root)
    case Err(e) => Err(e)
    case Ok(_) =>
      if p.filePath == "" then Ok(ContainerItem)
      else if p.dirPath in BlobStore.ListDirectories(c, p.parentDirPath) then
        Ok(DirectoryItem(p.baseName, p.parentDirPath))
      else if p.filePath in BlobStore.ListBlobs(c, p.parentDirPath) then Ok(BlobItem(p.filePath))
      else Err(FileNotFound)
  }

  /**
   * A blob or directory that `lookup` resolves exists remotely: a directory
   * item only for a prefix listed one level below the parent, which some
   * existing blob name starts with.
   */
  lemma LookupSound(root: RootAnswer, c: BlobStore.Container, p: ParsedUri)
    ensures var r := Lookup(root, c, p);
      r.Ok? && r.value.BlobItem? ==> BlobStore.Exists(c, p.filePath)
    ensures var r := Lookup(root, c, p);
      r.Ok? && r.value.DirectoryItem? ==>
        && p.dirPath in BlobStore.ListDirectories(c, p.parentDirPath)
        && exists n :: BlobStore.Exists(c, n) && StartsWith(n, p.dirPath)
  {
  }

  /**
   * When the first page holds the whole container, every existing blob
   * directly under its parent prefix is found (as a blob, or as a directory
   * when one of that name shadows it).
   */
  lemma LookupComplete(c: BlobStore.Container, p: ParsedUri)
    requires |c.names| <= c.pageSize
    requires p.filePath != "" && BlobStore.Exists(c, p.filePath)
    requires BlobStore.DirectlyUnder(p.filePath, p.parentDirPath)
    ensures Lookup(FoundContainer, c, p).Ok?
    ensures p.dirPath !in BlobStore.ListDirectories(c, p.parentDirPath) ==>
      Lookup(FoundContainer, c, p) == Ok(BlobItem(p.filePath))
  {
  }

  /**
   * When the first page holds the whole container, a path whose directory
   * prefix is the next level below the parent of some existing blob is
   * found as a directory: blob-storage directories exist only through the
   * blobs beneath them.
   */
  lemma LookupCompleteDirectory(c: BlobStore.Container, p: ParsedUri, n: string)
    requires |c.names| <= c.pageSize
    requires p.filePath != "" && BlobStore.Exists(c, n) && BlobStore.Deeper(n, p.parentDirPath)
    requires BlobStore.NextLevel(n, p.parentDirPath) == p.dirPath
    ensures Lookup(FoundContainer, c, p) == Ok(DirectoryItem(p.baseName, p.parentDirPath))
  {
  }

  /** `stat`: a pending directory answers without a lookup; otherwise by the entry's kind. */
  function Stat(s: State, root: RootAnswer, req: Request): (r: Outcome<FileStat>)
    ensures req.path in s.pending ==> r == Ok(ZeroStat(Directory))
    ensures r.Ok? ==> r.value == ZeroStat(r.value.kind)
    ensures req.path !in s.pending ==> (r.Ok? <==> Lookup(root, s.store, req.parsed).Ok?)
    ensures req.path !in s.pending && r.Ok? ==>
      (r.value.kind == File <==> Lookup(root, s.store, req.parsed).value.BlobItem?)
    ensures req.path !in s.pending && r.Err? ==> r == Err(Lookup(root, s.store, req.parsed).error)
  {
    if req.path in s.pending then Ok(ZeroStat(Directory))
    else
      match Lookup(root, s.store, req.parsed)
      case Err(e) => Err(e)
      case Ok(ContainerItem) => Ok(ZeroStat(Directory))
      case Ok(DirectoryItem(_, _)) => Ok(ZeroStat(Directory))
      case Ok(BlobItem(_)) => Ok(ZeroStat(File))
  }

  /** `createDirectory`: records the path as pending; no check, no remote call. */
  function CreateDirectory(s: State, path: string): (r: State)
    requires Valid(s)
    ensures Valid(r) && r.store == s.store
    ensures forall k :: k in r.pending <==> k in s.pending || k == path
    ensures path in s.pending ==> r == s
  {
    if path in s.pending then s else State(s.pending + [path], s.store)
  }

  /** Creating a directory twice is creating it once. */
  lemma CreateDirectoryIdempotent(s: State, path: string)
    requires Valid(s)
    ensures CreateDirectory(CreateDirectory(s, path), path) == CreateDirectory(s, path)
  {
  }

  /** A created directory stats as a directory whatever the container holds. */
  lemma CreateThenStat(s: State, root: RootAnswer, req: Request)
    requires Valid(s)
    ensures Stat(CreateDirectory(s, req.path), root, req) == Ok(ZeroStat(Directory))
  {
  }

  /** At most one trailing "/" removed, as `substring(0, length - 1)` after `endsWith("/")`. */
  function TrimSlash(p: string): (q: string)
    ensures |q| <= |p| && |p| <= |q| + 1 && q == p[..|q|]
    ensures |q| < |p| <==> EndsWith(p, "/")
  {
    if EndsWith(p, "/") then p[..|p| - 1] else p
  }

  /** `q.substring(0, q.lastIndexOf('/'))`: the path one level up, "" at the top. */
  function UpOne(q: string): (r: string)
    ensures |r| <= |q| && (|q| > 0 ==> |r| < |q|)
    ensures r == q[..|r|]
    ensures '/' in q ==> q[|r|] == '/'
    ensures '/' !in q ==> r == ""
  {
    var k := LastIndexOf(q, '/');
    assert k >= 0 ==> Substring(q, 0, k) == q[..k];
    Substring(q, 0, k)
  }

  /** The directory a pending path belongs to: rootPath joined with its parent, one trailing "/" dropped. */
  function PendingParent(k: ParsedUri): string {
    TrimSlash(Join([k.rootPath, k.parentDirPath]))
  }

  /** The pending paths whose parent is `path`, as directory entries in set order. */
  function PendingChildren(keys: seq<string>, path: string, parseKey: string -> ParsedUri): (r: seq<(string, FileType)>)
    ensures |r| <= |keys|
    ensures forall e :: e in r ==> e.1 == Directory
    ensures forall k :: k in keys && PendingParent(parseKey(k)) == path ==> (parseKey(k).baseName, Directory) in r
    ensures forall e :: e in r ==> exists k :: k in keys && PendingParent(parseKey(k)) == path && e.0 == parseKey(k).baseName
  {
    if |keys| == 0 then []
    else
      var rest := PendingChildren(keys[1..], path, parseKey);
      var p := parseKey(keys[0]);
      if PendingParent(p) == path then [(p.baseName, Directory)] + rest else rest
  }

  /** The listed entries at a prefix: blobs as files, then directories, by basename. */
  function ListedEntries(blobs: seq<string>, dirs: seq<string>): (r: seq<(string, FileType)>)
    ensures |r| == |blobs| + |dirs|
    ensures forall i :: 0 <= i < |blobs| ==> r[i] == (Basename(blobs[i]), File)
    ensures forall i :: 0 <= i < |dirs| ==> r[|blobs| + i] == (Basename(dirs[i]), Directory)
  {
    if |blobs| > 0 then [(Basename(blobs[0]), File)] + ListedEntries(blobs[1..], dirs)
    else if |dirs| > 0 then [(Basename(dirs[0]), Directory)] + ListedEntries([], dirs[1..])
    else []
  }

  /** `readDirectory`: the first page of blobs and directories at `dirPath`, then the pending children. */
  function ReadDirectory(s: State, root: RootAnswer, req: Request, parseKey: string -> ParsedUri)
    : (r: Outcome<seq<(string, FileType)>>)
    ensures r.Ok? <==> root.FoundContainer?
    ensures r.Ok? ==>
      var blobs := BlobStore.ListBlobs(s.store, req.parsed.dirPath);
      var dirs := BlobStore.ListDirectories(s.store, req.parsed.dirPath);
      r.value == ListedEntries(blobs, dirs) + PendingChildren(s.pending, req.path, parseKey)
  {
    match GetRoot(root)
    case Err(e) => Err(e)
    case Ok(_) =>
      var blobs := BlobStore.ListBlobs(s.store, req.parsed.dirPath);
      var dirs := BlobStore.ListDirectories(s.store, req.parsed.dirPath);
      Ok(ListedEntries(blobs, dirs) + PendingChildren(s.pending, req.path, parseKey))
  }

  /** A directory created under the listed path shows up in its listing. */
  lemma CreateThenReadDirectory(s: State, root: RootAnswer, req: Request, key: string, parseKey: string -> ParsedUri)
    requires Valid(s) && root.FoundContainer?
    requires PendingParent(parseKey(key)) == req.path
    ensures var r := ReadDirectory(CreateDirectory(s, key), root, req, parseKey);
      r.Ok? && (parseKey(key).baseName, Directory) in r.value
  {
    var s' := CreateDirectory(s, key);
    var pc := PendingChildren(s'.pending, req.path, parseKey);
    assert (parseKey(key).baseName, Directory) in pc;
  }

  /** Every blob directly under the listed prefix is listed as a file when the first page holds the container. */
  lemma ReadDirectoryListsBlobs(s: State, req: Request, parseKey: string -> ParsedUri, n: string)
    requires |s.store.names| <= s.store.pageSize
    requires BlobStore.Exists(s.store, n) && BlobStore.DirectlyUnder(n, req.parsed.dirPath)
    ensures (Basename(n), File) in ReadDirectory(s, FoundContainer, req, parseKey).value
  {
    var blobs := BlobStore.ListBlobs(s.store, req.parsed.dirPath);
    var dirs := BlobStore.ListDirectories(s.store, req.parsed.dirPath);
    var i :| 0 <= i < |blobs| && blobs[i] == n;
    assert ListedEntries(blobs, dirs)[i] == (Basename(n), File);
  }

  /** `readFile`: the blob's text; a missing blob is the service's error. */
  function ReadFile(s: State, root: RootAnswer, req: Request): (r: Outcome<string>)
    requires Valid(s)
    ensures r.Ok? <==> root.FoundContainer? && BlobStore.Exists(s.store, req.parsed.filePath)
    ensures r.Ok? ==> BlobStore.Get(s.store, req.parsed.filePath) == Some(r.value)
    ensures !root.FoundContainer? ==> r == Err(GetRoot(root).error)
    ensures root.FoundContainer? && !BlobStore.Exists(s.store, req.parsed.filePath) ==>
      r == Err(RemoteError("BlobNotFound"))
  {
    match GetRoot(root)
    case Err(e) => Err(e)
    case Ok(_) =>
      match BlobStore.Get(s.store, req.parsed.filePath)
      case None => Err(RemoteError("BlobNotFound"))
      case Some(text) => Ok(text)
  }

  /**
   * The retire walk as a reference definition: going through the consulted
   * keys in order, each pending one is removed, and the first one that is
   * not pending ends the walk.
   */
  function Retire(pending: seq<string>, keys: seq<string>): (r: seq<string>)
    decreases |keys|
    ensures forall k :: k in r ==> k in pending
    ensures forall k :: k in pending && k !in keys ==> k in r
    ensures OrderedSet.NoDup(pending) ==> OrderedSet.NoDup(r)
  {
    if |keys| == 0 || keys[0] !in pending then pending
    else Retire(OrderedSet.Without(pending, keys[0]), keys[1..])
  }

  /** The pending keys without any of `ks`, in set order. */
  function RemoveAll(s: seq<string>, ks: seq<string>): (r: seq<string>)
    ensures forall x :: x in r <==> x in s && x !in ks
    ensures OrderedSet.NoDup(s) ==> OrderedSet.NoDup(r)
  {
    if |s| == 0 then []
    else
      var rest := RemoveAll(s[1..], ks);
      if s[0] in ks then rest
      else
        assert s[0] !in s[1..] ==> s[0] !in rest;
        [s[0]] + rest
  }

  /** Removing the keys one more at a time. */
  lemma {:induction false} RemoveAllStep(s: seq<string>, ks: seq<string>, k: string)
    ensures OrderedSet.Without(RemoveAll(s, ks), k) == RemoveAll(s, ks + [k])
  {
    if |s| > 0 {
      RemoveAllStep(s[1..], ks, k);
      var rest := RemoveAll(s[1..], ks);
      if s[0] !in ks {
        assert ([s[0]] + rest)[1..] == rest;
      }
    }
  }

  lemma {:induction false} RemoveAllNone(s: seq<string>)
    ensures RemoveAll(s, []) == s
  {
    if |s| > 0 {
      RemoveAllNone(s[1..]);
    }
  }

  /**
   * The keys the retire walk consults, from the written file's parent
   * directory upwards: each level with one trailing "/" dropped and joined to
   * the root path, whether or not it is pending.
   */
  function WalkKeys(rootPath: string, dir: string): (keys: seq<string>)
    decreases |dir|
    ensures |keys| <= |dir|
  {
    if dir == "" then []
    else
      var q := TrimSlash(dir);
      [Join([rootPath, q])] + WalkKeys(rootPath, UpOne(q))
  }

  /**
   * The retire walk after a write: pending directories are removed going up
   * from the parent directory, stopping at the first level that is not
   * pending. `n` is how many levels were removed; every removed level was
   * pending when it was reached, and the level that stopped the walk was not.
   */
  method RetireWalk(pending: seq<string>, rootPath: string, dir: string) returns (r: seq<string>, n: nat)
    ensures r == Retire(pending, WalkKeys(rootPath, dir))
    ensures var keys := WalkKeys(rootPath, dir);
      n <= |keys| && r == RemoveAll(pending, keys[..n])
    ensures var keys := WalkKeys(rootPath, dir);
      forall i :: 0 <= i < n ==> keys[i] in RemoveAll(pending, keys[..i])
    ensures var keys := WalkKeys(rootPath, dir);
      n < |keys| ==> keys[n] !in r
  {
    ghost var keys := WalkKeys(rootPath, dir);
    var p := dir;
    r := pending;
    n := 0;
    assert keys[..0] == [];
    RemoveAllNone(pending);
    while p != ""
      invariant n <= |keys| && keys[n..] == WalkKeys(rootPath, p)
      invariant r == RemoveAll(pending, keys[..n])
      invariant Retire(r, keys[n..]) == Retire(pending, keys)
      invariant forall i :: 0 <= i < n ==> keys[i] in RemoveAll(pending, keys[..i])
      decreases |p|
    {
      WalkStep(rootPath, p, keys, n);
      p := TrimSlash(p);
      var full := Join([rootPath, p]);
      if full in r {
        RetireStep(pending, keys, n, r);
        r := OrderedSet.Without(r, full);
        n := n + 1;
      } else {
        break;
      }
      p := UpOne(p);
    }
  }

  /** Removing the pending key `keys[n]` keeps the walk's invariants one level up. */
  lemma RetireStep(pending: seq<string>, keys: seq<string>, n: nat, r: seq<string>)
    requires n < |keys| && r == RemoveAll(pending, keys[..n]) && keys[n] in r
    requires Retire(r, keys[n..]) == Retire(pending, keys)
    requires forall i :: 0 <= i < n ==> keys[i] in RemoveAll(pending, keys[..i])
    ensures OrderedSet.Without(r, keys[n]) == RemoveAll(pending, keys[..n + 1])
    ensures Retire(OrderedSet.Without(r, keys[n]), keys[n + 1..]) == Retire(pending, keys)
    ensures forall i :: 0 <= i < n + 1 ==> keys[i] in RemoveAll(pending, keys[..i])
  {
    RemoveAllStep(pending, keys[..n], keys[n]);
    TakeSucc(keys, n);
    assert keys[n..][1..] == keys[n + 1..];
  }

  /** One level of the walk: the key consulted next, and the keys after it. */
  lemma WalkStep(rootPath: string, p: string, keys: seq<string>, n: nat)
    requires p != "" && n <= |keys| && keys[n..] == WalkKeys(rootPath, p)
    ensures n < |keys| && keys[n] == Join([rootPath, TrimSlash(p)])
    ensures keys[n + 1..] == WalkKeys(rootPath, UpOne(TrimSlash(p)))
  {
    assert keys[n + 1..] == keys[n..][1..];
  }

  lemma TakeSucc<T>(s: seq<T>, n: nat)
    requires n < |s|
    ensures s[..n + 1] == s[..n] + [s[n]]
    ensures n + 1 == |s| ==> s == s[..n] + [s[n]]
  {
  }

  /** `writeFile`: the create/overwrite matrix, the upload, then the retire walk. */
  method WriteFile(s: State, root: RootAnswer, req: Request, content: string, create: bool, overwrite: bool)
    returns (r: Outcome<State>)
    requires Valid(s)
    ensures !create && !overwrite ==> r == Err(NoPermissions)
    ensures r.Ok? <==>
      (create || overwrite) && root.FoundContainer? &&
      (if BlobStore.Exists(s.store, req.parsed.filePath) then overwrite else create)
    ensures (create || overwrite) && root.FoundContainer? && r.Err? ==>
      r.error == (if BlobStore.Exists(s.store, req.parsed.filePath) then FileExists else FileNotFound)
    ensures r.Ok? ==> Valid(r.value) && r.value.store == BlobStore.Put(s.store, req.parsed.filePath, content)
    ensures r.Ok? ==> ReadFile(r.value, root, req) == Ok(content)
    ensures r.Ok? ==> r.value.pending == Retire(s.pending, WalkKeys(req.parsed.rootPath, req.parsed.parentDirPath))
  {
    if !create && !overwrite {
      return Err(NoPermissions);
    }
    var g := GetRoot(root);
    if g.Err? {
      return Err(g.error);
    }
    var p := req.parsed;
    var present := BlobStore.Exists(s.store, p.filePath);
    if !present && !create {
      return Err(FileNotFound);
    } else if present && !overwrite {
      return Err(FileExists);
    }
    var store := BlobStore.Put(s.store, p.filePath, content);
    var pending, _ := RetireWalk(s.pending, p.rootPath, p.parentDirPath);
    r := Ok(State(pending, store));
  }

  /** The pending keys that do not start with `path`, in set order. */
  function Purge(pending: seq<string>, path: string): (r: seq<string>)
    ensures forall k :: k in r <==> k in pending && !StartsWith(k, path)
    ensures OrderedSet.NoDup(pending) ==> OrderedSet.NoDup(r)
  {
    if |pending| == 0 then []
    else
      var rest := Purge(pending[1..], path);
      if StartsWith(pending[0], path) then rest
      else
        assert pending[0] !in pending[1..] ==> pending[0] !in rest;
        [pending[0]] + rest
  }

  /**
   * `delete`: only recursive deletion is accepted. A blob is deleted, a
   * directory emptied by `DeleteFolder`; a container is refused. Every error
   * raised on the way is swallowed, and then (only then) the pending keys
   * starting with the URI's path are dropped.
   */
  method Delete(s: State, root: RootAnswer, req: Request, recursive: bool) returns (r: Outcome<State>)
    requires Valid(s)
    ensures r.Err? <==> !recursive
    ensures !recursive ==> r == Err(Error(NonRecursiveMessage))
    ensures r.Ok? ==> Valid(r.value)
    ensures r.Ok? ==> forall n :: BlobStore.Exists(r.value.store, n) ==> BlobStore.Exists(s.store, n)
    ensures var e := Lookup(root, s.store, req.parsed);
      r.Ok? && (e.Err? || e == Ok(ContainerItem)) ==> r.value == State(Purge(s.pending, req.path), s.store)
    ensures var e := Lookup(root, s.store, req.parsed);
      r.Ok? && e.Ok? && e.value.BlobItem? ==>
        r.value == State(s.pending, BlobStore.Delete(s.store, req.parsed.filePath))
    ensures var e := Lookup(root, s.store, req.parsed);
      r.Ok? && e.Ok? && e.value.DirectoryItem? ==>
        r.value.pending == s.pending &&
        (forall n :: BlobStore.Exists(s.store, n) && !StartsWith(n, req.parsed.dirPath) ==>
          BlobStore.Exists(r.value.store, n))
    ensures var e := Lookup(root, s.store, req.parsed);
      r.Ok? && e.Ok? && e.value.DirectoryItem? && req.parsed.dirPath != "" &&
      |s.store.names| <= s.store.pageSize ==>
        forall n :: BlobStore.Exists(s.store, n) && StartsWith(n, req.parsed.dirPath) ==>
          !BlobStore.Exists(r.value.store, n)
  {
    if !recursive {
      return Err(Error(NonRecursiveMessage));
    }
    var e := Lookup(root, s.store, req.parsed);
    match e {
      case Err(_) =>
        r := Ok(State(Purge(s.pending, req.path), s.store));
      case Ok(ContainerItem) =>
        r := Ok(State(Purge(s.pending, req.path), s.store));
      case Ok(BlobItem(_)) =>
        r := Ok(State(s.pending, BlobStore.Delete(s.store, req.parsed.filePath)));
      case Ok(DirectoryItem(_, _)) =>
        var store, _ := DeleteFolder(s.store, req.parsed.dirPath);
        r := Ok(State(s.pending, store));
    }
  }

  /** The longest name: no listed prefix can be longer. */
  function MaxLen(names: seq<string>): (m: nat)
    ensures forall n :: n in names ==> |n| <= m
  {
    if |names| == 0 then 0
    else
      var m := MaxLen(names[1..]);
      if |names[0]| > m then |names[0]| else m
  }

  ghost function Pow(b: nat, e: nat): nat {
    if e == 0 then 1 else b * Pow(b, e - 1)
  }

  lemma {:induction false} PowPositive(b: nat, e: nat)
    requires b >= 1
    ensures Pow(b, e) >= 1
  {
    if e > 0 {
      PowPositive(b, e - 1);
      MulAtLeast(b, Pow(b, e - 1));
    }
  }

  lemma MulAtLeast(a: nat, b: nat)
    requires a >= 1 && b >= 1
    ensures a * b >= b
  {
  }

  lemma MulMono(a: nat, b: nat, m: nat)
    requires a <= b
    ensures a * m <= b * m
  {
  }

  lemma {:induction false} PowMono(b: nat, e1: nat, e2: nat)
    requires b >= 1 && e1 <= e2
    ensures Pow(b, e1) <= Pow(b, e2)
  {
    if e1 < e2 {
      PowMono(b, e1, e2 - 1);
      PowPositive(b, e2 - 1);
      MulAtLeast(b, Pow(b, e2 - 1));
    }
  }

  /**
   * The termination weight of a prefix on the worklist: each listing under a
   * prefix yields at most `base - 1` child prefixes, each strictly longer,
   * and none longer than `bound`.
   */
  ghost function Weight(d: string, bound: nat, base: nat): nat {
    if |d| >= bound then 1 else Pow(base, bound - |d|)
  }

  ghost function StackWeight(st: seq<string>, bound: nat, base: nat): nat {
    if |st| == 0 then 0 else StackWeight(st[..|st| - 1], bound, base) + Weight(st[|st| - 1], bound, base)
  }

  lemma {:induction false} StackWeightAppend(a: seq<string>, b: seq<string>, bound: nat, base: nat)
    ensures StackWeight(a + b, bound, base) == StackWeight(a, bound, base) + StackWeight(b, bound, base)
  {
    if |b| > 0 {
      assert (a + b)[..|a + b| - 1] == a + b[..|b| - 1];
      StackWeightAppend(a, b[..|b| - 1], bound, base);
    } else {
      assert a + b == a;
    }
  }

  lemma {:induction false} StackWeightBound(st: seq<string>, bound: nat, base: nat, m: nat)
    requires forall i :: 0 <= i < |st| ==> Weight(st[i], bound, base) <= m
    ensures StackWeight(st, bound, base) <= |st| * m
  {
    if |st| > 0 {
      var k := |st| - 1;
      StackWeightBound(st[..k], bound, base, m);
      MulSucc(k, m);
    }
  }

  lemma MulSucc(k: nat, m: nat)
    ensures k * m + m == (k + 1) * m
  {
  }

  /** The children listed under `cur` weigh less together than `cur`. */
  lemma ChildrenLighter(dirs: seq<string>, cur: string, bound: nat, pageSize: nat)
    requires |dirs| <= pageSize
    requires forall d :: d in dirs ==> |cur| < |d| <= bound
    ensures StackWeight(dirs, bound, pageSize + 1) < Weight(cur, bound, pageSize + 1)
  {
    var base := pageSize + 1;
    if |dirs| == 0 {
      if |cur| < bound {
        PowPositive(base, bound - |cur|);
      }
    } else {
      assert dirs[0] in dirs;
      var e := bound - |cur| - 1;
      var m := Pow(base, e);
      PowPositive(base, e);
      forall i | 0 <= i < |dirs|
        ensures Weight(dirs[i], bound, base) <= m
      {
        var d := dirs[i];
        assert d in dirs;
        if |d| < bound {
          PowMono(base, bound - |d|, e);
        } else {
          PowMono(base, 0, e);
        }
      }
      StackWeightBound(dirs, bound, base, m);
      MulMono(|dirs|, pageSize, m);
      assert Weight(cur, bound, base) == base * m;
    }
  }

  /** What is left of the walk: the worklist and the current prefix, if any. */
  ghost function Measure(stack: seq<string>, cur: string, bound: nat, base: nat): nat {
    StackWeight(stack, bound, base) + (if cur == "" then 0 else Weight(cur, bound, base))
  }

  /** Replacing `cur` by its children lightens the worklist. */
  lemma PushLighter(stack: seq<string>, dirs: seq<string>, cur: string, bound: nat, pageSize: nat)
    requires |dirs| <= pageSize
    requires forall d :: d in dirs ==> |cur| < |d| <= bound
    ensures StackWeight(stack + dirs, bound, pageSize + 1) <
      StackWeight(stack, bound, pageSize + 1) + Weight(cur, bound, pageSize + 1)
  {
    ChildrenLighter(dirs, cur, bound, pageSize);
    StackWeightAppend(stack, dirs, bound, pageSize + 1);
  }

  /** The `for … of` loop deleting each listed blob in turn. */
  method DeleteEach(c: BlobStore.Container, names: seq<string>) returns (r: BlobStore.Container)
    requires BlobStore.Valid(c)
    ensures BlobStore.Valid(r) && r.pageSize == c.pageSize && |r.names| <= |c.names|
    ensures forall n :: BlobStore.Exists(r, n) <==> BlobStore.Exists(c, n) && n !in names
  {
    r := c;
    var i := 0;
    while i < |names|
      invariant 0 <= i <= |names|
      invariant BlobStore.Valid(r) && r.pageSize == c.pageSize && |r.names| <= |c.names|
      invariant forall n :: BlobStore.Exists(r, n) <==> BlobStore.Exists(c, n) && n !in names[..i]
    {
      r := BlobStore.Delete(r, names[i]);
      i := i + 1;
      assert names[..i] == names[..i - 1] + [names[i - 1]];
    }
    assert names[..i] == names;
  }

  lemma NoDupAppend(a: seq<string>, b: seq<string>)
    requires OrderedSet.NoDup(a) && OrderedSet.NoDup(b)
    requires forall x :: x in b ==> x !in a
    ensures OrderedSet.NoDup(a + b)
  {
    forall i, j | 0 <= i < j < |a + b|
      ensures (a + b)[i] != (a + b)[j]
    {
      if i < |a| && j >= |a| {
        assert (a + b)[j] in b;
      }
    }
  }

  /** Some prefix on the stack covers `n`. */
  ghost predicate OnStack(n: string, stack: seq<string>) {
    exists d :: d in stack && StartsWith(n, d)
  }

  /** Every remaining blob below `top` lies below the current prefix or a prefix still on the stack. */
  ghost predicate Covered(c: BlobStore.Container, top: string, cur: string, stack: seq<string>) {
    forall n :: BlobStore.Exists(c, n) && StartsWith(n, top) ==>
      (cur != "" && StartsWith(n, cur)) || OnStack(n, stack)
  }

  /** Covering passes from `cur` to the prefixes listed under it. */
  lemma CoverStep(r0: BlobStore.Container, r: BlobStore.Container, top: string, cur: string,
                  stack: seq<string>, dirs: seq<string>)
    requires cur != ""
    requires Covered(r0, top, cur, stack)
    requires forall n :: BlobStore.Exists(r, n) ==> BlobStore.Exists(r0, n)
    requires forall n :: BlobStore.Exists(r, n) && StartsWith(n, cur) ==> OnStack(n, dirs)
    ensures Covered(r, top, "", stack + dirs)
  {
    forall n | BlobStore.Exists(r, n) && StartsWith(n, top)
      ensures OnStack(n, stack + dirs)
    {
      var d :| (d in stack || d in dirs) && StartsWith(n, d);
      assert d in stack + dirs;
    }
  }

  /**
   * What holds between iterations of the `deleteFolder` worklist: blobs are
   * only ever removed, each deleted once and only below `top`; the current
   * prefix and the worklist stay below `top`; and, when the first page holds
   * the whole container, every remaining blob below `top` lies below the
   * current prefix or a prefix on the worklist.
   */
  ghost predicate WalkInv(c: BlobStore.Container, top: string, r: BlobStore.Container,
                          deleted: seq<string>, cur: string, stack: seq<string>) {
    && BlobStore.Valid(r) && r.pageSize == c.pageSize && |r.names| <= |c.names|
    && (forall n :: BlobStore.Exists(r, n) <==> BlobStore.Exists(c, n) && n !in deleted)
    && OrderedSet.NoDup(deleted)
    && (forall n :: n in deleted ==> BlobStore.Exists(c, n) && StartsWith(n, top))
    && (cur == "" ==> stack == [])
    && (cur != "" ==> StartsWith(cur, top))
    && (forall d :: d in stack ==> StartsWith(d, top) && d != "")
    && (top != "" && |c.names| <= c.pageSize ==> Covered(r, top, cur, stack))
  }

  /**
   * `deleteFolder`: a LIFO worklist of directory prefixes starting at
   * `dirPath`. At each prefix the first page of blobs is deleted, then the
   * first page of sub-directory prefixes is pushed; an empty prefix or an
   * empty worklist ends the walk. `deleted` lists the blobs deleted, in order.
   */
  method DeleteFolder(c: BlobStore.Container, dirPath: string) returns (r: BlobStore.Container, deleted: seq<string>)
    requires BlobStore.Valid(c)
    ensures BlobStore.Valid(r) && r.pageSize == c.pageSize
    ensures forall n :: BlobStore.Exists(r, n) <==> BlobStore.Exists(c, n) && n !in deleted
    ensures OrderedSet.NoDup(deleted)
    ensures forall n :: n in deleted ==> BlobStore.Exists(c, n) && StartsWith(n, dirPath)
    ensures dirPath == "" ==> r == c && deleted == []
    ensures dirPath != "" && |c.names| <= c.pageSize ==>
      forall n :: BlobStore.Exists(c, n) && StartsWith(n, dirPath) ==> n in deleted
  {
    var stack: seq<string> := [];
    var cur := dirPath;
    r := c;
    deleted := [];
    while cur != ""
      invariant WalkInv(c, dirPath, r, deleted, cur, stack)
      invariant dirPath == "" ==> r == c && deleted == []
      decreases Measure(stack, cur, MaxLen(c.names), c.pageSize + 1)
    {
      r, deleted, cur, stack := Visit(c, dirPath, r, deleted, cur, stack);
    }
  }

  /** One iteration of the `deleteFolder` loop: visit the current prefix, push its children, pop the next. */
  method Visit(c: BlobStore.Container, top: string, r: BlobStore.Container,
               deleted: seq<string>, cur: string, stack: seq<string>)
    returns (r': BlobStore.Container, deleted': seq<string>, cur': string, stack': seq<string>)
    requires BlobStore.Valid(c) && cur != ""
    requires WalkInv(c, top, r, deleted, cur, stack)
    ensures WalkInv(c, top, r', deleted', cur', stack')
    ensures Measure(stack', cur', MaxLen(c.names), c.pageSize + 1) <
      Measure(stack, cur, MaxLen(c.names), c.pageSize + 1)
  {
    ghost var bound := MaxLen(c.names);
    ghost var base := c.pageSize + 1;
    var blobs, dirs;
    r', blobs, dirs := VisitPrefix(r, cur);
    deleted' := deleted + blobs;
    VisitListed(c, top, r, deleted, cur, stack, r', blobs, dirs);
    cur', stack' := Pop(stack + dirs, top, bound, base);
    PopKeeps(c, top, r', deleted', stack + dirs, cur', stack');
  }

  /** The walk's invariant between listing a prefix and popping the next one. */
  ghost predicate PushedInv(c: BlobStore.Container, top: string, r: BlobStore.Container,
                            deleted: seq<string>, stack: seq<string>) {
    && BlobStore.Valid(r) && r.pageSize == c.pageSize && |r.names| <= |c.names|
    && (forall n :: BlobStore.Exists(r, n) <==> BlobStore.Exists(c, n) && n !in deleted)
    && OrderedSet.NoDup(deleted)
    && (forall n :: n in deleted ==> BlobStore.Exists(c, n) && StartsWith(n, top))
    && (forall d :: d in stack ==> StartsWith(d, top) && d != "")
    && (top != "" && |c.names| <= c.pageSize ==> Covered(r, top, "", stack))
  }

  /** Listing `cur` and pushing its sub-directory prefixes keeps the invariant and lightens the worklist. */
  lemma VisitListed(c: BlobStore.Container, top: string, r: BlobStore.Container,
                    deleted: seq<string>, cur: string, stack: seq<string>,
                    r': BlobStore.Container, blobs: seq<string>, dirs: seq<string>)
    requires BlobStore.Valid(c) && cur != ""
    requires WalkInv(c, top, r, deleted, cur, stack)
    requires BlobStore.Valid(r') && r'.pageSize == r.pageSize && |r'.names| <= |r.names|
    requires forall n :: n in blobs ==> BlobStore.Exists(r, n) && StartsWith(n, cur)
    requires OrderedSet.NoDup(blobs)
    requires forall n :: BlobStore.Exists(r', n) <==> BlobStore.Exists(r, n) && n !in blobs
    requires |dirs| <= r.pageSize
    requires forall d :: d in dirs ==> StartsWith(d, cur) && |cur| < |d|
    requires forall d :: d in dirs ==> exists n :: BlobStore.Exists(r, n) && StartsWith(n, d)
    requires |r.names| <= r.pageSize ==>
      forall n :: BlobStore.Exists(r', n) && StartsWith(n, cur) ==> OnStack(n, dirs)
    ensures PushedInv(c, top, r', deleted + blobs, stack + dirs)
    ensures StackWeight(stack + dirs, MaxLen(c.names), c.pageSize + 1) <
      Measure(stack, cur, MaxLen(c.names), c.pageSize + 1)
  {
    var bound := MaxLen(c.names);
    DeletedGrow(c, top, r, deleted, cur, blobs);
    DirsBelow(c, top, r, cur, dirs);
    PushLighter(stack, dirs, cur, bound, c.pageSize);
    if top != "" && |c.names| <= c.pageSize {
      CoverStep(r, r', top, cur, stack, dirs);
    }
  }

  /** The prefixes listed under `cur` lie below `top`, are longer than `cur` and no longer than any name. */
  lemma DirsBelow(c: BlobStore.Container, top: string, r: BlobStore.Container, cur: string, dirs: seq<string>)
    requires |r.names| <= |c.names| && (forall n :: BlobStore.Exists(r, n) ==> BlobStore.Exists(c, n))
    requires cur != "" && StartsWith(cur, top)
    requires forall d :: d in dirs ==> StartsWith(d, cur) && |cur| < |d|
    requires forall d :: d in dirs ==> exists n :: BlobStore.Exists(r, n) && StartsWith(n, d)
    ensures forall d :: d in dirs ==> |cur| < |d| <= MaxLen(c.names) && StartsWith(d, top) && d != ""
  {
    forall d | d in dirs
      ensures |cur| < |d| <= MaxLen(c.names) && StartsWith(d, top)
    {
      var n :| BlobStore.Exists(r, n) && StartsWith(n, d);
      assert BlobStore.Exists(c, n);
      StartsWithTrans(d, cur, top);
    }
  }

  /** The blobs deleted at `cur` extend the deleted list without repeats, all below `top`. */
  lemma DeletedGrow(c: BlobStore.Container, top: string, r: BlobStore.Container,
                    deleted: seq<string>, cur: string, blobs: seq<string>)
    requires forall n :: BlobStore.Exists(r, n) <==> BlobStore.Exists(c, n) && n !in deleted
    requires OrderedSet.NoDup(deleted) && OrderedSet.NoDup(blobs)
    requires forall n :: n in deleted ==> BlobStore.Exists(c, n) && StartsWith(n, top)
    requires cur != "" ==> StartsWith(cur, top)
    requires forall n :: n in blobs ==> BlobStore.Exists(r, n) && StartsWith(n, cur)
    requires cur != ""
    ensures OrderedSet.NoDup(deleted + blobs)
    ensures forall n :: n in deleted + blobs ==> BlobStore.Exists(c, n) && StartsWith(n, top)
  {
    NoDupAppend(deleted, blobs);
    forall n | n in blobs
      ensures StartsWith(n, top)
    {
      StartsWithTrans(n, cur, top);
    }
  }

  /** Popping the next prefix restores the walk's invariant. */
  lemma PopKeeps(c: BlobStore.Container, top: string, r: BlobStore.Container,
                 deleted: seq<string>, pushed: seq<string>, cur: string, rest: seq<string>)
    requires PushedInv(c, top, r, deleted, pushed)
    requires |pushed| == 0 ==> cur == "" && rest == []
    requires |pushed| > 0 ==> pushed == rest + [cur]
    requires cur != "" ==> StartsWith(cur, top)
    requires cur == "" ==> rest == []
    requires forall d :: d in rest ==> StartsWith(d, top) && d != ""
    ensures WalkInv(c, top, r, deleted, cur, rest)
  {
    if top != "" && |c.names| <= c.pageSize {
      if |pushed| == 0 {
        assert rest + [] == pushed;
      }
      CoverPopped(r, top, cur, rest);
    }
  }

  /**
   * Listing `cur`, deleting the blobs listed, then listing its sub-directory
   * prefixes. When the first page holds the whole container, every blob left
   * under `cur` lies under one of the listed prefixes.
   */
  method VisitPrefix(c: BlobStore.Container, cur: string)
    returns (r: BlobStore.Container, blobs: seq<string>, dirs: seq<string>)
    requires BlobStore.Valid(c)
    ensures BlobStore.Valid(r) && r.pageSize == c.pageSize && |r.names| <= |c.names|
    ensures forall n :: n in blobs ==> BlobStore.Exists(c, n) && StartsWith(n, cur)
    ensures OrderedSet.NoDup(blobs)
    ensures forall n :: BlobStore.Exists(r, n) <==> BlobStore.Exists(c, n) && n !in blobs
    ensures |dirs| <= c.pageSize
    ensures forall d :: d in dirs ==> StartsWith(d, cur) && |cur| < |d|
    ensures forall d :: d in dirs ==> exists n :: BlobStore.Exists(c, n) && StartsWith(n, d)
    ensures |c.names| <= c.pageSize ==>
      forall n :: BlobStore.Exists(r, n) && StartsWith(n, cur) ==> OnStack(n, dirs)
  {
    blobs := BlobStore.ListBlobs(c, cur);
    r := DeleteEach(c, blobs);
    dirs := BlobStore.ListDirectories(r, cur);
    if |c.names| <= c.pageSize {
      forall n | BlobStore.Exists(r, n) && StartsWith(n, cur)
        ensures OnStack(n, dirs)
      {
        assert BlobStore.Deeper(n, cur);
        assert StartsWith(n, BlobStore.NextLevel(n, cur));
      }
    }
  }

  /** `dirPaths.pop()`: the last prefix, or "" (`undefined`) when the worklist is empty. */
  method Pop(stack: seq<string>, ghost top: string, ghost bound: nat, ghost base: nat)
    returns (cur: string, rest: seq<string>)
    requires forall d :: d in stack ==> StartsWith(d, top) && d != ""
    ensures |stack| == 0 ==> cur == "" && rest == []
    ensures |stack| > 0 ==> stack == rest + [cur]
    ensures cur != "" ==> StartsWith(cur, top)
    ensures cur == "" ==> rest == []
    ensures forall d :: d in rest ==> StartsWith(d, top) && d != ""
    ensures StackWeight(stack, bound, base) == Measure(rest, cur, bound, base)
  {
    if |stack| == 0 {
      return "", [];
    }
    cur := stack[|stack| - 1];
    rest := stack[..|stack| - 1];
    TakeSucc(stack, |stack| - 1);
    assert cur in stack;
    assert forall d :: d in rest ==> d in stack;
  }

  /** After popping, the popped prefix and the rest of the worklist still cover what the worklist covered. */
  lemma CoverPopped(r: BlobStore.Container, top: string, cur: string, rest: seq<string>)
    requires Covered(r, top, "", rest + (if cur == "" then [] else [cur]))
    ensures Covered(r, top, cur, rest)
  {
    if cur != "" {
      var stack := rest + [cur];
      forall n | BlobStore.Exists(r, n) && StartsWith(n, top) && !StartsWith(n, cur)
        ensures OnStack(n, rest)
      {
        var d :| d in stack && StartsWith(n, d);
        assert d in rest;
      }
    } else {
      assert rest + [] == rest;
    }
  }

  /** `rename` is not supported. */
  function Rename(s: State, from: Request, to: Request, overwrite: bool): (r: Outcome<State>)
    ensures r.Err? && r.error == Error(RenameMessage)
  {
    Err(Error(RenameMessage))
  }

  /** `watch` is not implemented. */
  function Watch(req: Request, recursive: bool, excludes: seq<string>): (r: Outcome<()>)
    ensures r.Err? && r.error == NotImplemented
  {
    Err(NotImplemented)
  }
}
