/**
 * The file-share filesystem provider of `FileShareFS.ts`: a URI
 * `…/File Shares/<share>/a/b` is served from one share. Lookups walk the
 * file path segment by segment over the first page of each directory's
 * listing. `readDirectory` remembers the children it reported as marker
 * paths `<dir>/<name>/1` (file) and `<dir>/<name>/2` (directory), which
 * `stat` consults before any lookup.
 *
 * `parseUri`, `findRoot` and `validateDirectoryName` are not part of this
 * model: the parsed URI, the root found and the validator's answer are
 * inputs. The tree item's cached and freshly loaded children, which
 * `readDirectory` reports, are an input too. Changes to the share are
 * returned as the calls the provider makes.
 */
module FileShareFs {
  import opened Wrappers
  import opened JsString
  import opened PosixPath
  import opened FsTypes
  import opened ShareListing
  import OrderedSet

  const RootMessage := "The root found must be a FileShareTreeItem."
  const NonRecursiveMessage := "Azure storage does not support nonrecursive deletion of folders."
  const DeleteRootMessage := "Tried to delete a FileShare or the folder of FileShares."
  const RenameMessage := "Renaming/moving folders or files not supported."

  /** What `findRoot(context, uri, 'File Shares')` finds. */
  datatype RootAnswer = FoundShare(name: string, listing: Dir) | FoundOther | RootFailed(error: FsError)

  /** The tree item `lookup` resolves a URI to; directories and files keep the parent path they were found under. */
  datatype Entry =
    | ShareItem(name: string, listing: Dir)
    | DirItem(share: string, parentPath: string, name: string, listing: Dir)
    | FileItem(share: string, parentPath: string, name: string)

  /** A child the tree item holds: a file, a directory, or anything else (such as a "load more" item). */
  datatype Child = FileChild(caption: string) | DirChild(caption: string) | OtherChild

  /** What a provider call asks of the share. */
  datatype Call =
    | Remote(op: ShareOp)
    | CreateChild(share: string, parentPath: string, name: string)   // directoryUtils' createDirectory
    | DeleteTree(share: string, path: string)                        // directoryUtils' deleteDirectoryAndContents

  /** The provider's `_readDirChild` set of marker paths (insertion-ordered). */
  datatype State = State(markers: seq<string>)

  /** `getRoot`: only a share root is accepted. */
  function GetRoot(root: RootAnswer): (r: Outcome<Entry>)
    ensures r.Ok? <==> root.FoundShare?
    ensures r.Ok? ==> r.value == ShareItem(root.name, root.listing)
    ensures root.FoundOther? ==> r == Err(RangeError(RootMessage))
    ensures root.RootFailed? ==> r == Err(root.error)
  {
    match root
    case FoundShare(n, l) => Ok(ShareItem(n, l))
    case FoundOther => Err(RangeError(RootMessage))
    case RootFailed(e) => Err(e)
  }

  function ShareOf(e: Entry): string {
    match e
    case ShareItem(n, _) => n
    case DirItem(s, _, _, _) => s
    case FileItem(s, _, _) => s
  }

  /** The listing of a share or directory item. */
  function ListingOf(e: Entry): Dir
    requires !e.FileItem?
  {
    match e
    case ShareItem(_, l) => l
    case DirItem(_, _, _, l) => l
  }

  /** The parent path after entering the directories `names` from `pp`, joined one at a time as `path.posix.join` does. */
  function Descend(pp: string, names: seq<string>): string
    decreases |names|
  {
    if |names| == 0 then pp else Descend(Join([pp, names[0]]), names[1..])
  }

  /**
   * The segment walk of `lookup`: a file cannot be descended; on the first
   * page of the current listing a directory of the segment's name is entered
   * (the parent path joined with the segment), else a file of that name is
   * taken, else the segment is not found.
   */
  function Walk(entry: Entry, parentPath: string, parts: seq<string>): (r: Outcome<Entry>)
    decreases |parts|
    ensures |parts| == 0 ==> r == Ok(entry)
    ensures |parts| > 0 && entry.FileItem? ==> r == Err(FileNotFound)
    ensures r.Err? ==> r.error == FileNotFound
    ensures r.Ok? && |parts| > 0 ==>
      && !r.value.ShareItem?
      && r.value.name == parts[|parts| - 1]
      && r.value.share == ShareOf(entry)
      && r.value.parentPath == Descend(parentPath, parts[..|parts| - 1])
  {
    if |parts| == 0 then Ok(entry)
    else if entry.FileItem? then Err(FileNotFound)
    else
      var page := FirstPage(ListingOf(entry));
      var last := parts[..|parts| - 1];
      match FindDir(page.dirs, parts[0])
      case Some(d) =>
        var next := Join([parentPath, parts[0]]);
        var r := Walk(DirItem(ShareOf(entry), parentPath, parts[0], d.listing), next, parts[1..]);
        assert |parts| > 1 ==> last[1..] == parts[1..][..|parts[1..]| - 1] && Descend(parentPath, last) == Descend(next, last[1..]);
        assert |parts| == 1 ==> last == [] && Descend(parentPath, last) == parentPath;
        r
      case None =>
        if parts[0] in page.files then
          assert |parts| == 1 ==> last == [] && Descend(parentPath, last) == parentPath;
          Walk(FileItem(ShareOf(entry), parentPath, parts[0]), parentPath, parts[1..])
        else Err(FileNotFound)
  }

  /** One step of the walk: on the first page a directory of the segment's name wins over a file of that name. */
  lemma WalkStep(entry: Entry, parentPath: string, parts: seq<string>)
    requires |parts| > 0 && !entry.FileItem?
    ensures var page := FirstPage(ListingOf(entry));
      var d := FindDir(page.dirs, parts[0]);
      d.Some? ==>
        Walk(entry, parentPath, parts)
          == Walk(DirItem(ShareOf(entry), parentPath, parts[0], d.value.listing), Join([parentPath, parts[0]]), parts[1..])
    ensures var page := FirstPage(ListingOf(entry));
      FindDir(page.dirs, parts[0]).None? && parts[0] in page.files ==>
        Walk(entry, parentPath, parts) == Walk(FileItem(ShareOf(entry), parentPath, parts[0]), parentPath, parts[1..])
    ensures var page := FirstPage(ListingOf(entry));
      FindDir(page.dirs, parts[0]).None? && parts[0] !in page.files ==> Walk(entry, parentPath, parts) == Err(FileNotFound)
  {
  }

  /** `parts.join('/')` prefixed by `pp` when `pp` is not empty. */
  function Under(pp: string, names: seq<string>): string {
    if |names| == 0 then pp
    else if pp == "" then JoinWith(names, '/')
    else pp + "/" + JoinWith(names, '/')
  }

  /** For plain segments the joined parent path is the segments glued by "/". */
  lemma {:induction false} DescendPlain(pp: string, names: seq<string>)
    requires pp == "" || CleanRelative(pp)
    requires AllPlain(names)
    ensures Descend(pp, names) == Under(pp, names)
    decreases |names|
  {
    if |names| > 0 {
      var rest := names[1..];
      var next := Join([pp, names[0]]);
      JoinCleanRelative(pp, names[0]);
      assert AllPlain(rest) by {
        forall i | 0 <= i < |rest| ensures Plain(rest[i]) {
          assert rest[i] == names[i + 1];
        }
      }
      DescendPlain(next, rest);
      UnderStep(pp, names);
    }
  }

  /** Entering the first segment and then the rest lands where entering them all does. */
  lemma UnderStep(pp: string, names: seq<string>)
    requires pp == "" || CleanRelative(pp)
    requires |names| > 0 && Plain(names[0])
    ensures Under(Join([pp, names[0]]), names[1..]) == Under(pp, names)
  {
    var n := names[0];
    var rest := names[1..];
    var next := Join([pp, n]);
    assert next == if pp == "" then n else pp + "/" + n by { JoinCleanRelative(pp, n); }
    if |rest| > 0 {
      var t := JoinWith(rest, '/');
      assert JoinWith(names, '/') == n + "/" + t by { assert names[1..] == rest; }
      assert Under(next, rest) == next + "/" + t by { assert |n| > 0; }
      if pp != "" {
        ConcatAssoc(pp + "/", n, t);
      }
    } else {
      assert JoinWith(names, '/') == n;
    }
  }

  /**
   * A file or directory reached from the share root by plain segments was
   * found under the parent path made of the segments before it.
   */
  lemma WalkParentPath(share: string, listing: Dir, parts: seq<string>)
    requires |parts| > 0 && AllPlain(parts)
    ensures var r := Walk(ShareItem(share, listing), "", parts);
      r.Ok? ==> r.value.parentPath == JoinWith(parts[..|parts| - 1], '/')
  {
    var init := parts[..|parts| - 1];
    assert AllPlain(init) by {
      forall i | 0 <= i < |init| ensures Plain(init[i]) {
        assert init[i] == parts[i];
      }
    }
    DescendPlain("", init);
  }

  /** `lookup`: the root for an empty file path, otherwise the walk over the path's segments. */
  function Lookup(root: RootAnswer, p: ParsedUri): (r: Outcome<Entry>)
    ensures !root.FoundShare? ==> r == Err(GetRoot(root).error)
    ensures root.FoundShare? && p.filePath == "" ==> r == Ok(ShareItem(root.name, root.listing))
    ensures root.FoundShare? && p.filePath != "" ==>
      r == Walk(ShareItem(root.name, root.listing), "", Split(p.filePath, '/'))
    ensures r.Ok? ==> ShareOf(r.value) == root.name
  {
    match GetRoot(root)
    case Err(e) => Err(e)
    case Ok(entry) =>
      if p.filePath == "" then Ok(entry) else Walk(entry, "", Split(p.filePath, '/'))
  }

  /** `lookupAsDirectory`: a share or a directory, otherwise not a directory. */
  function LookupAsDirectory(root: RootAnswer, p: ParsedUri): (r: Outcome<Entry>)
    ensures r.Ok? <==> Lookup(root, p).Ok? && !Lookup(root, p).value.FileItem?
    ensures r.Ok? ==> r == Lookup(root, p)
    ensures Lookup(root, p).Err? ==> r == Lookup(root, p)
    ensures Lookup(root, p).Ok? && Lookup(root, p).value.FileItem? ==> r == Err(FileNotADirectory)
  {
    match Lookup(root, p)
    case Err(e) => Err(e)
    case Ok(FileItem(_, _, _)) => Err(FileNotADirectory)
    case Ok(e) => Ok(e)
  }

  /** The marker path `path.posix.join(dir, base, tag)` readDirectory records. */
  function Marker(dir: string, base: string, tag: string): string {
    Join([dir, base, tag])
  }

  /**
   * `stat`: a file marker `<path>/1` answers File, else a directory marker
   * `<path>/2` answers Directory, both without a lookup; otherwise a share
   * or directory is a Directory and a file a File, all with zero times and
   * size.
   */
  function Stat(s: State, root: RootAnswer, req: Request): (r: Outcome<FileStat>)
    ensures Join([req.path, "1"]) in s.markers ==> r == Ok(ZeroStat(File))
    ensures Join([req.path, "1"]) !in s.markers && Join([req.path, "2"]) in s.markers ==> r == Ok(ZeroStat(Directory))
    ensures Join([req.path, "1"]) !in s.markers && Join([req.path, "2"]) !in s.markers ==>
      && (r.Ok? <==> Lookup(root, req.parsed).Ok?)
      && (r.Ok? ==> r.value == ZeroStat(if Lookup(root, req.parsed).value.FileItem? then File else Directory))
      && (r.Err? ==> r.error == Lookup(root, req.parsed).error)
  {
    if Join([req.path, "1"]) in s.markers then Ok(ZeroStat(File))
    else if Join([req.path, "2"]) in s.markers then Ok(ZeroStat(Directory))
    else
      match Lookup(root, req.parsed)
      case Err(e) => Err(e)
      case Ok(FileItem(_, _, _)) => Ok(ZeroStat(File))
      case Ok(_) => Ok(ZeroStat(Directory))
  }

  /** The (basename, type) pairs reported for the children, in child order. */
  function Listed(children: seq<Child>): (r: seq<(string, FileType)>)
    ensures |r| <= |children|
    ensures forall l :: FileChild(l) in children ==> (Basename(l), File) in r
    ensures forall l :: DirChild(l) in children ==> (Basename(l), Directory) in r
    ensures forall e :: e in r ==>
      (e.1 == File && exists l :: FileChild(l) in children && Basename(l) == e.0) ||
      (e.1 == Directory && exists l :: DirChild(l) in children && Basename(l) == e.0)
  {
    if |children| == 0 then []
    else
      var rest := Listed(children[1..]);
      match children[0]
      case FileChild(l) => [(Basename(l), File)] + rest
      case DirChild(l) => [(Basename(l), Directory)] + rest
      case OtherChild => rest
  }

  /** The marker of each file or directory child under `dir`, in child order. */
  function MarkersOf(dir: string, children: seq<Child>): (r: seq<string>)
    ensures forall l :: FileChild(l) in children ==> Marker(dir, Basename(l), "1") in r
    ensures forall l :: DirChild(l) in children ==> Marker(dir, Basename(l), "2") in r
    ensures forall m :: m in r ==>
      (exists l :: FileChild(l) in children && m == Marker(dir, Basename(l), "1")) ||
      (exists l :: DirChild(l) in children && m == Marker(dir, Basename(l), "2"))
  {
    if |children| == 0 then []
    else
      var rest := MarkersOf(dir, children[1..]);
      assert forall c :: c in children <==> c == children[0] || c in children[1..] by {
        assert children == [children[0]] + children[1..];
      }
      match children[0]
      case FileChild(l) => [Marker(dir, Basename(l), "1")] + rest
      case DirChild(l) => [Marker(dir, Basename(l), "2")] + rest
      case OtherChild => rest
  }

  /**
   * `readDirectory`: for a share or directory, the children as
   * (basename, type) pairs, remembering a marker for each.
   */
  function ReadDirectory(s: State, root: RootAnswer, req: Request, children: seq<Child>)
    : (r: (Outcome<seq<(string, FileType)>>, State))
    ensures r.0.Ok? <==> LookupAsDirectory(root, req.parsed).Ok?
    ensures r.0.Err? ==> r.0.error == LookupAsDirectory(root, req.parsed).error && r.1 == s
    ensures r.0.Ok? ==> r.0.value == Listed(children) && r.1.markers == OrderedSet.InsertAll(s.markers, MarkersOf(req.path, children))
  {
    match LookupAsDirectory(root, req.parsed)
    case Err(e) => (Err(e), s)
    case Ok(_) => (Ok(Listed(children)), State(OrderedSet.InsertAll(s.markers, MarkersOf(req.path, children))))
  }

  /**
   * After listing a directory, `stat` of a listed file answers File without
   * a lookup, whatever the root now is.
   */
  lemma ReadDirectoryThenStatFile(s: State, root: RootAnswer, req: Request, children: seq<Child>,
                                  l: string, root': RootAnswer, child: Request)
    requires CleanAbsolute(req.path) && Plain(Basename(l)) && FileChild(l) in children
    requires LookupAsDirectory(root, req.parsed).Ok?
    requires child.path == req.path + "/" + Basename(l)
    ensures Stat(ReadDirectory(s, root, req, children).1, root', child) == Ok(ZeroStat(File))
  {
    JoinThreeCleanAbsolute(req.path, Basename(l), "1");
  }

  /**
   * After listing a directory, `stat` of a listed directory answers
   * Directory without a lookup, unless a file marker of the same path was
   * recorded too (the file marker is consulted first).
   */
  lemma ReadDirectoryThenStatDirectory(s: State, root: RootAnswer, req: Request, children: seq<Child>,
                                       l: string, root': RootAnswer, child: Request)
    requires CleanAbsolute(req.path) && Plain(Basename(l)) && DirChild(l) in children
    requires LookupAsDirectory(root, req.parsed).Ok?
    requires child.path == req.path + "/" + Basename(l)
    ensures var s' := ReadDirectory(s, root, req, children).1;
      Stat(s', root', child) == Ok(ZeroStat(if Join([child.path, "1"]) in s'.markers then File else Directory))
  {
    JoinThreeCleanAbsolute(req.path, Basename(l), "2");
  }

  /** `createDirectory`: the root first, then the name's validation, then the creation. */
  function CreateDirectory(root: RootAnswer, p: ParsedUri, validation: Option<string>): (r: Outcome<Call>)
    ensures !root.FoundShare? ==> r == Err(GetRoot(root).error)
    ensures root.FoundShare? && validation.Some? && validation.value != "" ==> r == Err(Error(validation.value))
    ensures r.Ok? <==> root.FoundShare? && (validation.None? || validation.value == "")
    ensures r.Ok? ==> r.value == CreateChild(root.name, p.parentDirPath, p.baseName)
  {
    match GetRoot(root)
    case Err(e) => Err(e)
    case Ok(_) =>
      if validation.Some? && validation.value != "" then Err(Error(validation.value))
      else Ok(CreateChild(root.name, p.parentDirPath, p.baseName))
  }

  /**
   * `readFile`: asks the file service (`fetch`, given share name, parent
   * directory and base name) for the file's text; "" when it answers none.
   */
  function ReadFile(root: RootAnswer, p: ParsedUri, fetch: (string, string, string) -> Outcome<Option<string>>)
    : (r: Outcome<string>)
    ensures !root.FoundShare? ==> r == Err(GetRoot(root).error)
    ensures root.FoundShare? ==>
      var fetched := fetch(root.name, p.parentDirPath, p.baseName);
      && (r.Ok? <==> fetched.Ok?)
      && (r.Ok? ==> r.value == fetched.value.GetOr(""))
      && (fetched.Err? ==> r == Err(fetched.error))
  {
    match GetRoot(root)
    case Err(e) => Err(e)
    case Ok(_) =>
      match fetch(root.name, p.parentDirPath, p.baseName)
      case Err(e) => Err(e)
      case Ok(t) => Ok(t.GetOr(""))
  }

  /**
   * `writeFile`: with neither flag nothing is tried; a missing file needs
   * `create` and an existing one `overwrite`; the file is then uploaded
   * under the URI's root name, parent directory and base name. `present` is
   * the service's `doesFileExist` answer.
   */
  function WriteFile(root: RootAnswer, p: ParsedUri, content: string, create: bool, overwrite: bool, present: bool)
    : (r: Outcome<Call>)
    ensures !create && !overwrite ==> r == Err(NoPermissions)
    ensures r.Ok? <==> root.FoundShare? && (if present then overwrite else create)
    ensures (create || overwrite) && root.FoundShare? && r.Err? ==>
      r.error == (if present then FileExists else FileNotFound)
    ensures r.Ok? ==> r.value == Remote(PutFile(p.rootName, p.parentDirPath, p.baseName, content))
  {
    if !create && !overwrite then Err(NoPermissions)
    else
      match GetRoot(root)
      case Err(e) => Err(e)
      case Ok(_) =>
        if !present && !create then Err(FileNotFound)
        else if present && !overwrite then Err(FileExists)
        else Ok(Remote(PutFile(p.rootName, p.parentDirPath, p.baseName, content)))
  }

  /**
   * `delete`: only recursive deletion; a file is deleted from the directory
   * it was found in, a directory with all its contents, and the share itself
   * is refused.
   */
  function Delete(root: RootAnswer, p: ParsedUri, recursive: bool): (r: Outcome<Call>)
    ensures !recursive ==> r == Err(Error(NonRecursiveMessage))
    ensures recursive && Lookup(root, p).Err? ==> r == Err(Lookup(root, p).error)
    ensures recursive && Lookup(root, p).Ok? ==>
      match Lookup(root, p).value
      case FileItem(share, dir, name) => r == Ok(Remote(RemoveFile(share, dir, name)))
      case DirItem(share, _, _, _) => r == Ok(DeleteTree(share, p.filePath))
      case ShareItem(_, _) => r == Err(RangeError(DeleteRootMessage))
    ensures p.filePath == "" ==> r.Err?
  {
    if !recursive then Err(Error(NonRecursiveMessage))
    else
      match Lookup(root, p)
      case Err(e) => Err(e)
      case Ok(FileItem(share, dir, name)) => Ok(Remote(RemoveFile(share, dir, name)))
      case Ok(DirItem(share, _, _, _)) => Ok(DeleteTree(share, p.filePath))
      case Ok(ShareItem(_, _)) => Err(RangeError(DeleteRootMessage))
  }

  /** `rename` is not supported. */
  function Rename(from: Request, to: Request, overwrite: bool): (r: Outcome<Call>)
    ensures r == Err(Error(RenameMessage))
  {
    Err(Error(RenameMessage))
  }

  /** `watch` is not implemented. */
  function Watch(req: Request): (r: Outcome<()>)
    ensures r == Err(NotImplemented)
  {
    Err(NotImplemented)
  }
}
