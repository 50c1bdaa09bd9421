/**
 * The earlier blob filesystem provider of `blobContainerFS.ts`. It resolves a
 * URI `…/Blob Containers/<container>/<segment>/…` by slicing the container
 * name out of the path, finding the container's tree item (cached per
 * container name in `rootMap`), and walking the remaining segments against
 * first-page listings of the account's containers. Only reading is
 * implemented; every mutating operation throws.
 *
 * `ext.tree.findTreeItem` is an input function from a root path to the tree
 * item found there, if any.
 */
module BlobRootMapFs {
  import opened Wrappers
  import opened JsString
  import opened PosixPath
  import opened FsTypes
  import BlobStore
  import OrderedSet

  const BlobContainerString := "Blob Containers"
  const ContainerNotFound := RemoteError("ContainerNotFound")
  const BlobNotFound := RemoteError("BlobNotFound")

  /** A tree item `findTreeItem` can answer with: the container group, or one container. */
  datatype RootItem = GroupRoot | ContainerRoot(name: string)

  /** `EntryTreeItem`; directories and blobs remember the container of the root they descend from. */
  datatype Item =
    | GroupItem
    | ContainerItem(name: string)
    | DirItem(container: string, name: string, prefix: string)
    | BlobItem(container: string, name: string)

  /** The storage account: container names in listing order, their contents, and the page size of a container listing. */
  datatype Account = Account(names: seq<string>, containers: map<string, BlobStore.Container>, pageSize: nat)

  predicate Valid(a: Account) {
    && OrderedSet.NoDup(a.names)
    && (forall n :: n in a.names ==> n in a.containers)
    && (forall n :: n in a.containers ==> n in a.names && BlobStore.Valid(a.containers[n]))
  }

  /** The provider's `rootMap`: container name to the tree item found for it. */
  type RootMap = map<string, RootItem>

  /** An answer together with the `rootMap` the call leaves behind. */
  datatype Reply<T> = Reply(result: Outcome<T>, rootMap: RootMap)

  function ItemOf(root: RootItem): (e: Item)
    ensures root.GroupRoot? <==> e.GroupItem?
    ensures root.ContainerRoot? ==> e == ContainerItem(root.name)
  {
    match root
    case GroupRoot => GroupItem
    case ContainerRoot(n) => ContainerItem(n)
  }

  /** `entry.container.name`, the container a non-group item belongs to. */
  function ContainerOf(e: Item): string
    requires !e.GroupItem?
  {
    match e
    case ContainerItem(n) => n
    case DirItem(c, _, _) => c
    case BlobItem(c, _) => c
  }

  /** Where the container name starts: just past "Blob Containers/" (14 + 1 past -1 when the marker is missing). */
  function NameStart(path: string): (k: nat)
    ensures k >= |BlobContainerString|
  {
    IndexOf(path, BlobContainerString) + |BlobContainerString| + 1
  }

  /** Where the container name ends: the first "/" from its start, or the end of the path. */
  function NameEnd(path: string): (k: nat)
    ensures k <= |path|
    ensures k < |path| ==> NameStart(path) <= k && path[k] == '/'
    ensures NameStart(path) <= k ==> '/' !in path[NameStart(path)..k]
  {
    var a := NameStart(path);
    var k := IndexOfFrom(path, "/", a);
    if k == -1 then
      assert a <= |path| ==> '/' !in path[a..] by {
        if a <= |path| {
          IndexOfFromChar(path, '/', a);
        }
      }
      |path|
    else
      assert path[k] == path[k..k + 1][0];
      assert '/' !in path[a..k] by {
        forall j | a <= j < k ensures path[j] != '/' {
          assert !At(path, "/", j);
          assert path[j..j + 1] == [path[j]];
        }
      }
      k
  }

  /**
   * `findRoot`'s root path: the URI path cut at the first "/" after the
   * container name's start, or the whole path when there is none.
   */
  function RootPath(path: string): (r: string)
    ensures StartsWith(path, r)
    ensures |r| == |path| || (NameStart(path) <= |r| && path[|r|] == '/')
    ensures NameStart(path) <= |r| ==> '/' !in path[NameStart(path)..|r|]
  {
    Substring(path, 0, NameEnd(path))
  }

  /** The key `findRoot` stores a found root under. */
  function CacheKey(path: string): (r: string)
    ensures '/' !in r
  {
    var a := NameStart(path);
    var b := NameEnd(path);
    if a <= b then assert Substring(path, a, b) == path[a..b]; Substring(path, a, b)
    else assert Substring(path, a, b) == path[b..b]; Substring(path, a, b)
  }

  /** The segments after "Blob Containers/", the first naming the container. */
  function Parts(path: string): (r: seq<string>)
    ensures |r| >= 1 && forall i :: 0 <= i < |r| ==> '/' !in r[i]
  {
    Split(SubstringFrom(path, NameStart(path)), '/')
  }

  /** The key `lookup` consults the cache with (`parts[0] ? parts[0] : ''` is just `parts[0]`). */
  function LookupKey(path: string): string {
    Parts(path)[0]
  }

  /** The container name `lookup` uses: the rest of the path up to its first "/". */
  lemma LookupKeyAt(path: string)
    requires NameStart(path) < |path|
    ensures var t := path[NameStart(path)..]; var k := IndexOfChar(t, '/');
      LookupKey(path) == if k >= 0 then t[..k] else t
  {
    assert SubstringFrom(path, NameStart(path)) == path[NameStart(path)..];
  }

  /** The container name `findRoot` uses: the same stretch, located in the whole path. */
  lemma CacheKeyAt(path: string)
    requires NameStart(path) < |path|
    ensures var a := NameStart(path); var t := path[a..]; var k := IndexOfChar(t, '/');
      CacheKey(path) == if k >= 0 then t[..k] else t
  {
    var a := NameStart(path);
    var t := path[a..];
    var k := IndexOfChar(t, '/');
    NameEndAt(path);
    assert k >= 0 ==> path[a..a + k] == t[..k];
  }

  /** Where `findRoot` cuts: the first "/" of the rest of the path, or its end. */
  lemma NameEndAt(path: string)
    requires NameStart(path) < |path|
    ensures var a := NameStart(path); var k := IndexOfChar(path[a..], '/');
      NameEnd(path) == if k >= 0 then a + k else |path|
  {
    IndexOfFromChar(path, '/', NameStart(path));
  }

  /** `findRoot` and `lookup` slice the same container name out of any path. */
  lemma CacheKeyIsLookupKey(path: string)
    ensures CacheKey(path) == LookupKey(path)
  {
    var a := NameStart(path);
    if a < |path| {
      LookupKeyAt(path);
      CacheKeyAt(path);
    } else {
      assert SubstringFrom(path, a) == "";
      assert CacheKey(path) == "";
    }
  }

  /** `findRoot`: asks the tree for the root path's item and caches it under the container name. */
  function FindRoot(rootMap: RootMap, find: string -> Option<RootItem>, path: string): (r: Reply<RootItem>)
    ensures find(RootPath(path)).None? ==> r == Reply(Err(FileNotFound), rootMap)
    ensures find(RootPath(path)).Some? ==>
      r.result == Ok(find(RootPath(path)).value) && r.rootMap == rootMap[LookupKey(path) := r.result.value]
  {
    CacheKeyIsLookupKey(path);
    match find(RootPath(path))
    case None => Reply(Err(FileNotFound), rootMap)
    case Some(root) => Reply(Ok(root), rootMap[CacheKey(path) := root])
  }

  /** `listAllChildDirectory`: the first page of directory prefixes of a container of the account. */
  function ListDirs(acct: Account, container: string, prefix: string): (r: Outcome<seq<string>>)
    ensures r.Ok? <==> container in acct.containers
    ensures r.Err? ==> r.error == ContainerNotFound
    ensures r.Ok? ==> r.value == BlobStore.ListDirectories(acct.containers[container], prefix)
  {
    if container in acct.containers then Ok(BlobStore.ListDirectories(acct.containers[container], prefix))
    else Err(ContainerNotFound)
  }

  /** `listAllChildBlob`: the first page of blobs directly under the prefix. */
  function ListBlobs(acct: Account, container: string, prefix: string): (r: Outcome<seq<string>>)
    ensures r.Ok? <==> container in acct.containers
    ensures r.Err? ==> r.error == ContainerNotFound
    ensures r.Ok? ==> r.value == BlobStore.ListBlobs(acct.containers[container], prefix)
  {
    if container in acct.containers then Ok(BlobStore.ListBlobs(acct.containers[container], prefix))
    else Err(ContainerNotFound)
  }

  /**
   * The segment walk of `lookup`: for each segment, a group or blob entry
   * cannot be descended; a listed directory of that name is entered (the
   * prefix becoming `${prefix}/${part}`), else a listed blob of that name is
   * taken, else the segment is not found. Listings use the container named
   * in the path.
   */
  function Walk(acct: Account, container: string, entry: Item, prefix: string, parts: seq<string>): (r: Outcome<Item>)
    decreases |parts|
    ensures |parts| == 0 ==> r == Ok(entry)
    ensures |parts| > 0 && (entry.GroupItem? || entry.BlobItem?) ==> r == Err(FileNotFound)
    ensures r.Err? ==> r.error == FileNotFound || r.error == ContainerNotFound
    ensures r.Ok? && |parts| > 0 ==>
      && (r.value.DirItem? || r.value.BlobItem?)
      && r.value.name == parts[|parts| - 1]
      && r.value.container == ContainerOf(entry)
      && container in acct.containers
    ensures r.Ok? && |parts| > 0 && r.value.BlobItem? ==> BlobStore.Exists(acct.containers[container], r.value.name)
  {
    if |parts| == 0 then Ok(entry)
    else if entry.GroupItem? || entry.BlobItem? then Err(FileNotFound)
    else
      var part := parts[0];
      match ListDirs(acct, container, prefix)
      case Err(e) => Err(e)
      case Ok(dirs) =>
        if part in dirs then
          var next := prefix + "/" + part;
          Walk(acct, container, DirItem(ContainerOf(entry), part, next), next, parts[1..])
        else
          match ListBlobs(acct, container, prefix)
          case Err(e) => Err(e)
          case Ok(blobs) =>
            if part in blobs then Walk(acct, container, BlobItem(ContainerOf(entry), part), prefix, parts[1..])
            else Err(FileNotFound)
  }

  /** One step of the walk: a directory of the segment's name wins over a blob of that name. */
  lemma WalkStep(acct: Account, container: string, entry: Item, prefix: string, parts: seq<string>)
    requires |parts| > 0 && (entry.ContainerItem? || entry.DirItem?) && container in acct.containers
    ensures var c := acct.containers[container];
      var next := prefix + "/" + parts[0];
      parts[0] in BlobStore.ListDirectories(c, prefix) ==>
        Walk(acct, container, entry, prefix, parts)
          == Walk(acct, container, DirItem(ContainerOf(entry), parts[0], next), next, parts[1..])
    ensures var c := acct.containers[container];
      parts[0] !in BlobStore.ListDirectories(c, prefix) && parts[0] in BlobStore.ListBlobs(c, prefix) ==>
        Walk(acct, container, entry, prefix, parts)
          == Walk(acct, container, BlobItem(ContainerOf(entry), parts[0]), prefix, parts[1..])
    ensures var c := acct.containers[container];
      parts[0] !in BlobStore.ListDirectories(c, prefix) && parts[0] !in BlobStore.ListBlobs(c, prefix) ==>
        Walk(acct, container, entry, prefix, parts) == Err(FileNotFound)
  {
  }

  /**
   * Listed directory prefixes end in "/", which a segment of a split path
   * never contains, so the walk never enters a directory and succeeds on at
   * most one segment: only blobs at the top of a container resolve.
   */
  lemma {:induction false} WalkTopLevelOnly(acct: Account, container: string, entry: Item, prefix: string, parts: seq<string>)
    requires forall i :: 0 <= i < |parts| ==> '/' !in parts[i]
    requires !entry.DirItem?
    ensures var r := Walk(acct, container, entry, prefix, parts);
      r.Ok? ==> |parts| <= 1 && !r.value.DirItem?
    decreases |parts|
  {
    var r := Walk(acct, container, entry, prefix, parts);
    if |parts| > 0 && !entry.GroupItem? && !entry.BlobItem? && container in acct.containers {
      BlobStore.DirectoriesHaveSlash(acct.containers[container], prefix);
      if parts[0] in BlobStore.ListBlobs(acct.containers[container], prefix) {
        var e := BlobItem(ContainerOf(entry), parts[0]);
        assert r == Walk(acct, container, e, prefix, parts[1..]);
        WalkTopLevelOnly(acct, container, e, prefix, parts[1..]);
      }
    }
  }

  /** A blob directly at the top of a container resolves from the container item when the first page holds it. */
  lemma WalkFindsTopLevelBlob(acct: Account, container: string, name: string)
    requires container in acct.containers
    requires var c := acct.containers[container]; |c.names| <= c.pageSize && BlobStore.Exists(c, name)
    requires '/' !in name
    ensures Walk(acct, container, ContainerItem(container), "", [name]) == Ok(BlobItem(container, name))
  {
    var c := acct.containers[container];
    assert name[|""|..] == name;
    assert BlobStore.DirectlyUnder(name, "");
    BlobStore.DirectoriesHaveSlash(c, "");
  }

  /**
   * `lookup`: the container name is the first segment after
   * "Blob Containers/"; a root cached under it is used, otherwise `findRoot`
   * is asked (and caches what it finds); the other segments are walked.
   */
  function Lookup(rootMap: RootMap, find: string -> Option<RootItem>, acct: Account, path: string): (r: Reply<Item>)
    ensures LookupKey(path) in rootMap ==> r.rootMap == rootMap
    ensures LookupKey(path) !in rootMap ==> r.rootMap == FindRoot(rootMap, find, path).rootMap
    ensures forall k :: k in rootMap ==> k in r.rootMap && r.rootMap[k] == rootMap[k]
    ensures LookupKey(path) !in rootMap && find(RootPath(path)).None? ==> r.result == Err(FileNotFound)
    ensures r.result.Ok? ==> (|Parts(path)| == 1 <==> r.result.value.GroupItem? || r.result.value.ContainerItem?)
    ensures r.result.Ok? ==> |Parts(path)| <= 2 && !r.result.value.DirItem?
    ensures r.result.Ok? && r.result.value.BlobItem? ==>
      |Parts(path)| == 2 && r.result.value.name == Parts(path)[1]
      && LookupKey(path) in acct.containers && BlobStore.Exists(acct.containers[LookupKey(path)], r.result.value.name)
  {
    var parts := Parts(path);
    var key := LookupKey(path);
    var found := if key in rootMap then Reply(Ok(rootMap[key]), rootMap) else FindRoot(rootMap, find, path);
    match found.result
    case Err(e) => Reply(Err(e), found.rootMap)
    case Ok(root) =>
      var r := Walk(acct, key, ItemOf(root), "", parts[1..]);
      WalkTopLevelOnly(acct, key, ItemOf(root), "", parts[1..]);
      Reply(r, found.rootMap)
  }

  /** Once `findRoot` has found a path's root, the next lookup of that container hits the cache. */
  lemma FindRootCaches(rootMap: RootMap, find: string -> Option<RootItem>, acct: Account, path: string, other: string)
    requires find(RootPath(path)).Some?
    requires LookupKey(other) == LookupKey(path)
    ensures var r := Lookup(rootMap, find, acct, path);
      LookupKey(other) in r.rootMap && Lookup(r.rootMap, find, acct, other).rootMap == r.rootMap
  {
  }

  /** A cached container root makes `lookup` independent of what the tree would answer. */
  lemma CachedLookupIgnoresTree(rootMap: RootMap, f: string -> Option<RootItem>, g: string -> Option<RootItem>, acct: Account, path: string)
    requires LookupKey(path) in rootMap
    ensures Lookup(rootMap, f, acct, path) == Lookup(rootMap, g, acct, path)
  {
  }

  /** `lookupAsBlob`: anything but a blob is a directory. */
  function LookupAsBlob(rootMap: RootMap, find: string -> Option<RootItem>, acct: Account, path: string): (r: Reply<Item>)
    ensures r.rootMap == Lookup(rootMap, find, acct, path).rootMap
    ensures r.result.Ok? <==> Lookup(rootMap, find, acct, path).result.Ok? && Lookup(rootMap, find, acct, path).result.value.BlobItem?
    ensures r.result.Ok? ==> r.result == Lookup(rootMap, find, acct, path).result
    ensures Lookup(rootMap, find, acct, path).result.Ok? && !r.result.Ok? ==> r.result == Err(FileIsADirectory)
  {
    var l := Lookup(rootMap, find, acct, path);
    match l.result
    case Err(e) => Reply(Err(e), l.rootMap)
    case Ok(BlobItem(c, n)) => l
    case Ok(_) => Reply(Err(FileIsADirectory), l.rootMap)
  }

  /** `stat`: the group, a container and a directory are directories, a blob a file, all with zero times and size. */
  function Stat(rootMap: RootMap, find: string -> Option<RootItem>, acct: Account, path: string): (r: Reply<FileStat>)
    ensures r.rootMap == Lookup(rootMap, find, acct, path).rootMap
    ensures r.result.Ok? <==> Lookup(rootMap, find, acct, path).result.Ok?
    ensures r.result.Ok? ==> r.result.value == ZeroStat(r.result.value.kind)
    ensures r.result.Ok? ==> (r.result.value.kind == File <==> Lookup(rootMap, find, acct, path).result.value.BlobItem?)
    ensures r.result.Err? ==> r.result.error == Lookup(rootMap, find, acct, path).result.error
  {
    var l := Lookup(rootMap, find, acct, path);
    match l.result
    case Err(e) => Reply(Err(e), l.rootMap)
    case Ok(BlobItem(_, _)) => Reply(Ok(ZeroStat(File)), l.rootMap)
    case Ok(_) => Reply(Ok(ZeroStat(Directory)), l.rootMap)
  }

  /** The listing prefix `readDirectory` cuts from a container path: from just before the container name to the last "/". */
  function ContainerPrefix(path: string): string {
    var k := IndexOf(path, BlobContainerString);
    Substring(path, k + |BlobContainerString|, LastIndexOf(path, '/'))
  }

  function Tagged(names: seq<string>, kind: FileType): (r: seq<(string, FileType)>)
    ensures |r| == |names|
    ensures forall i :: 0 <= i < |r| ==> r[i] == (names[i], kind)
  {
    if |names| == 0 then [] else [(names[0], kind)] + Tagged(names[1..], kind)
  }

  /**
   * The children `readDirectory` reports for a resolved entry: the group
   * lists the first page of container names; a container lists its blobs (as
   * files) and then its directory prefixes, with their full names; any other
   * entry lists nothing.
   */
  function Children(acct: Account, e: Item, path: string): (r: Outcome<seq<(string, FileType)>>)
    ensures e.GroupItem? ==> r == Ok(Tagged(BlobStore.FirstPage(acct.names, acct.pageSize), Directory))
    ensures e.ContainerItem? && e.name in acct.containers ==>
      var c := acct.containers[e.name];
      var prefix := ContainerPrefix(path);
      r == Ok(Tagged(BlobStore.ListBlobs(c, prefix), File) + Tagged(BlobStore.ListDirectories(c, prefix), Directory))
    ensures e.ContainerItem? && e.name !in acct.containers ==> r == Err(ContainerNotFound)
    ensures e.DirItem? || e.BlobItem? ==> r == Ok([])
  {
    match e
    case GroupItem => Ok(Tagged(BlobStore.FirstPage(acct.names, acct.pageSize), Directory))
    case ContainerItem(name) =>
      var prefix := ContainerPrefix(path);
      if name in acct.containers then
        var c := acct.containers[name];
        Ok(Tagged(BlobStore.ListBlobs(c, prefix), File) + Tagged(BlobStore.ListDirectories(c, prefix), Directory))
      else Err(ContainerNotFound)
    case _ => Ok([])
  }

  /** `readDirectory`: the children of the entry `lookup` resolves. */
  function ReadDirectory(rootMap: RootMap, find: string -> Option<RootItem>, acct: Account, path: string): (r: Reply<seq<(string, FileType)>>)
    ensures r.rootMap == Lookup(rootMap, find, acct, path).rootMap
    ensures var l := Lookup(rootMap, find, acct, path).result;
      r.result == if l.Err? then Err(l.error) else Children(acct, l.value, path)
  {
    var l := Lookup(rootMap, find, acct, path);
    match l.result
    case Err(e) => Reply(Err(e), l.rootMap)
    case Ok(e) => Reply(Children(acct, e, path), l.rootMap)
  }

  /**
   * For a path of the form `…Blob Containers/<container>` the listing prefix
   * is empty, so reading a container lists the top level of that container.
   */
  lemma ContainerPrefixTopLevel(path: string)
    requires IndexOf(path, BlobContainerString) >= 0
    requires var k := IndexOf(path, BlobContainerString) + |BlobContainerString|;
      k < |path| && path[k] == '/' && '/' !in path[k + 1..]
    ensures ContainerPrefix(path) == ""
  {
    var k := IndexOf(path, BlobContainerString) + |BlobContainerString|;
    LastIndexOfAt(path, '/', k);
  }

  /** A container item is only reached for a path with no segment after the container name. */
  lemma ContainerItemOnlyAtContainer(rootMap: RootMap, find: string -> Option<RootItem>, acct: Account, path: string)
    requires Lookup(rootMap, find, acct, path).result.Ok?
    requires Lookup(rootMap, find, acct, path).result.value.ContainerItem?
    ensures NameStart(path) <= |path| ==> '/' !in path[NameStart(path)..]
  {
    var a := NameStart(path);
    SplitSingle(SubstringFrom(path, a), '/');
    if a <= |path| {
      assert SubstringFrom(path, a) == path[a..];
    }
  }

  /** `readFile`: the text of the blob named by the path's basename, in the container of the blob item. */
  function ReadFile(rootMap: RootMap, find: string -> Option<RootItem>, acct: Account, path: string): (r: Reply<string>)
    requires Valid(acct)
    ensures r.rootMap == Lookup(rootMap, find, acct, path).rootMap
    ensures LookupAsBlob(rootMap, find, acct, path).result.Err? ==> r.result == Err(LookupAsBlob(rootMap, find, acct, path).result.error)
    ensures r.result.Ok? ==>
      var b := LookupAsBlob(rootMap, find, acct, path).result.value;
      b.container in acct.containers
      && BlobStore.Get(acct.containers[b.container], Basename(path)) == Some(r.result.value)
    ensures r.result.Err? && LookupAsBlob(rootMap, find, acct, path).result.Ok? ==>
      r.result.error == ContainerNotFound || r.result.error == BlobNotFound
  {
    var l := LookupAsBlob(rootMap, find, acct, path);
    match l.result
    case Err(e) => Reply(Err(e), l.rootMap)
    case Ok(b) =>
      if b.container !in acct.containers then Reply(Err(ContainerNotFound), l.rootMap)
      else
        match BlobStore.Get(acct.containers[b.container], Basename(path))
        case None => Reply(Err(BlobNotFound), l.rootMap)
        case Some(text) => Reply(Ok(text), l.rootMap)
  }

  /** The path is the text before the container name followed by the joined segments. */
  lemma PathIsParts(path: string)
    requires NameStart(path) <= |path|
    ensures path == path[..NameStart(path)] + JoinWith(Parts(path), '/')
  {
    assert SubstringFrom(path, NameStart(path)) == path[NameStart(path)..];
  }

  /** A path with two segments after the container name spelled out. */
  lemma PathIsTwoParts(path: string)
    requires |Parts(path)| == 2 && NameStart(path) <= |path|
    ensures path == (path[..NameStart(path)] + Parts(path)[0]) + "/" + Parts(path)[1]
  {
    var a := NameStart(path);
    assert Parts(path) == Split(path[a..], '/') by {
      assert SubstringFrom(path, a) == path[a..];
    }
    CutTwo(path, a);
  }

  /** A string cut at `a` whose rest splits into two pieces, spelled out. */
  lemma CutTwo(path: string, a: nat)
    requires a <= |path| && |Split(path[a..], '/')| == 2
    ensures var parts := Split(path[a..], '/');
      path == (path[..a] + parts[0]) + "/" + parts[1]
  {
    var rest := path[a..];
    SplitTwo(rest, '/');
    assert path == path[..a] + rest;
    ConcatAssoc(path[..a], Split(rest, '/')[0], Split(rest, '/')[1]);
  }

  /** A path with exactly one segment after the container name ends in that segment. */
  lemma BasenameOfSecondPart(path: string)
    requires |Parts(path)| == 2 && |Parts(path)[1]| > 0
    ensures Basename(path) == Parts(path)[1]
  {
    var parts := Parts(path);
    var a := NameStart(path);
    if a <= |path| {
      var p := path[..a] + parts[0];
      PathIsTwoParts(path);
      BasenameLast(p, parts[1], "");
      assert p + "/" + parts[1] + "" == path;
    }
  }

  /**
   * Reading a resolved blob reads that blob: the path's basename is the blob
   * item's name, so when the root item's container is the one named in the
   * path, `readFile` answers the blob's text.
   */
  lemma ReadFileReadsResolvedBlob(rootMap: RootMap, find: string -> Option<RootItem>, acct: Account, path: string)
    requires Valid(acct)
    requires Lookup(rootMap, find, acct, path).result.Ok?
    requires Lookup(rootMap, find, acct, path).result.value.BlobItem?
    requires Lookup(rootMap, find, acct, path).result.value.container == LookupKey(path)
    requires Lookup(rootMap, find, acct, path).result.value.name != ""
    ensures var b := Lookup(rootMap, find, acct, path).result.value;
      ReadFile(rootMap, find, acct, path).result == Ok(acct.containers[b.container].text[b.name])
  {
    BasenameOfSecondPart(path);
  }

  /** `createDirectory` throws. */
  function CreateDirectory(path: string): (r: Outcome<()>)
    ensures r == Err(NotImplemented)
  {
    Err(NotImplemented)
  }

  /** `writeFile` throws, whatever the content and flags. */
  function WriteFile(path: string, content: string, create: bool, overwrite: bool): (r: Outcome<()>)
    ensures r == Err(NotImplemented)
  {
    Err(NotImplemented)
  }

  /** `delete` throws, recursive or not. */
  function Delete(path: string, recursive: bool): (r: Outcome<()>)
    ensures r == Err(NotImplemented)
  {
    Err(NotImplemented)
  }

  /** `rename` throws. */
  function Rename(oldPath: string, newPath: string, overwrite: bool): (r: Outcome<()>)
    ensures r == Err(NotImplemented)
  {
    Err(NotImplemented)
  }

  /** `watch` throws. */
  function Watch(path: string): (r: Outcome<()>)
    ensures r == Err(NotImplemented)
  {
    Err(NotImplemented)
  }
}
