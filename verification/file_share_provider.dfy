/**
 * The second file-share provider (`fileShareFileSystemProvider.ts`), which
 * walks the tree items itself: from the "File Shares" group item it pages
 * through the account's shares, then through each directory's listing, one
 * path segment at a time, until a page holds a match.
 *
 * The lookup is modelled twice. `RunAsWritten` keeps the source's two
 * slips: the continuation token is one function-scoped variable, so the
 * token left by one segment's search starts the next segment's search, and
 * a segment that matches nothing leaves the walk where it was. `Run` starts
 * every search from the first page and fails on a segment that matches
 * nothing. `Stat`, `ReadDirectory` and `Delete` are the provider's
 * operations over the lookup as written; `StatIntended`,
 * `ReadDirectoryIntended` and `DeleteIntended` are the same operations over
 * the corrected lookup.
 *
 * `findTreeItem` is not part of this model: what it answers for the root
 * path is the `find` parameter. Errors inside the lookup are swallowed by
 * the telemetry wrapper, which answers `undefined` (`None`).
 */
module FileShareProvider {
  import opened Wrappers
  import opened JsString
  import opened FsTypes
  import opened ShareListing

  /** The marker that ends the root path, and its length. */
  const SharesMarker := "File Shares"

  /** The tree items `lookup` moves through. */
  datatype Entry =
    | GroupItem(pages: seq<seq<ShareInfo>>)                                            // FileShareGroupTreeItem
    | ShareItem(info: ShareInfo)                                                       // FileShareTreeItem2
    | DirItem(share: Option<string>, parentPath: string, name: string, listing: Dir) // DirectoryTreeItem
    | FileItem(share: Option<string>, parentPath: string, name: string)          // FileTreeItem2

  /** The lookup's variables: the current entry, `parentPath`, `shareResult` and `continuationToken`. */
  datatype Cursor = Cursor(entry: Option<Entry>, parentPath: string, share: Option<string>, token: Token)

  /** A deletion the provider asks of a file item (`deleteTreeItemImpl`). */
  datatype Call = DeleteFile(share: Option<string>, dir: string, name: string)

  /** The page at index `i`, or `empty` past the end (what a token past the end fetches). */
  function PageAt<P>(pages: seq<P>, i: nat, empty: P): P {
    if i < |pages| then pages[i] else empty
  }

  /**
   * The `do … while (continuationToken != undefined)` search: fetch the page
   * the token names, stop on a page that `hit`s, otherwise go on while there
   * is a next page. Answers the index of the page that hit, if any, and the
   * token left behind.
   */
  function Drain<P>(pages: seq<P>, token: Token, empty: P, hit: P -> bool): (r: (Option<nat>, Token))
    decreases |pages| - Index(token)
    ensures r.0.Some? ==> Index(token) <= r.0.value && hit(PageAt(pages, r.0.value, empty))
    ensures r.0.Some? ==> forall j :: Index(token) <= j < r.0.value && j < |pages| ==> !hit(pages[j])
    ensures r.0.Some? ==> r.1 == if r.0.value + 1 < |pages| then Some(r.0.value + 1) else None
    ensures r.0.None? ==> r.1 == None && forall j :: Index(token) <= j < |pages| ==> !hit(pages[j])
    ensures Index(token) < |pages| && r.0.Some? ==> r.0.value < |pages|
  {
    var (page, next) := Fetch(pages, token, empty);
    if hit(page) then (Some(Index(token)), next)
    else if next.Some? then Drain(pages, next, empty, hit)
    else (None, None)
  }

  /** A page of shares holds the share named `part`. */
  function ShareHit(part: string): seq<ShareInfo> -> bool {
    (p: seq<ShareInfo>) => FindShare(p, part).Some?
  }

  /** A page of a directory listing holds a directory or a file named `part`. */
  function PageHit(part: string): Page -> bool {
    (p: Page) => FindDir(p.dirs, part).Some? || part in p.files
  }

  /** The listing of a share or directory item. */
  function ListingOf(e: Entry): Dir
    requires e.ShareItem? || e.DirItem?
  {
    if e.ShareItem? then e.info.root else e.listing
  }

  /**
   * One segment of the loop as written. The search starts from the token
   * the cursor carries; a share found becomes `shareResult` (which a search
   * without a match resets); in a page a directory wins over a file, and a
   * directory extends the parent path by the segment and "/". A segment
   * without a match leaves the entry as it was. `None` is the branch for an
   * entry that is neither a group, a share nor a directory.
   */
  function StepAsWritten(c: Cursor, part: string): (r: Option<Cursor>)
    ensures r.None? <==> c.entry.None? || c.entry.value.FileItem?
  {
    match c.entry
    case Some(GroupItem(pages)) =>
      var (k, t) := Drain(pages, c.token, [], ShareHit(part));
      if k.Some? then
        var info := FindShare(PageAt(pages, k.value, []), part).value;
        Some(Cursor(Some(ShareItem(info)), c.parentPath, Some(info.name), t))
      else Some(Cursor(c.entry, c.parentPath, None, t))
    case Some(ShareItem(_)) => Some(Descend(c, c.token, part))
    case Some(DirItem(_, _, _, _)) => Some(Descend(c, c.token, part))
    case _ => None
  }

  /** The share or directory search of one segment, starting from `token`. */
  function Descend(c: Cursor, token: Token, part: string): (r: Cursor)
    requires c.entry.Some? && (c.entry.value.ShareItem? || c.entry.value.DirItem?)
    ensures r.share == c.share
    ensures r.entry.Some? && (r.entry.value.DirItem? || r.entry.value.FileItem? || r.entry == c.entry)
    ensures (forall j :: 0 <= j < |ListingOf(c.entry.value).pages| ==> !PageHit(part)(ListingOf(c.entry.value).pages[j]))
      ==> r.entry == c.entry
  {
    var pages := ListingOf(c.entry.value).pages;
    var (k, t) := Drain(pages, token, EmptyPage, PageHit(part));
    if k.Some? then
      var page := PageAt(pages, k.value, EmptyPage);
      match FindDir(page.dirs, part)
      case Some(d) => Cursor(Some(DirItem(c.share, c.parentPath, part, d.listing)), c.parentPath + part + "/", c.share, t)
      case None => Cursor(Some(FileItem(c.share, c.parentPath, part)), c.parentPath, c.share, t)
    else Cursor(c.entry, c.parentPath, c.share, t)
  }

  /** The loop over the segments as written: `None` when it reaches the `else` branch. */
  function RunAsWritten(c: Cursor, parts: seq<string>): (r: Option<Cursor>)
    decreases |parts|
    ensures |parts| == 0 ==> r == Some(c)
  {
    if |parts| == 0 then Some(c)
    else
      match StepAsWritten(c, parts[0])
      case None => None
      case Some(c') => RunAsWritten(c', parts[1..])
  }

  /**
   * One segment as evidently intended: every search starts from the first
   * page, and a segment that matches nothing fails the lookup.
   */
  function Step(c: Cursor, part: string): (r: Option<Cursor>)
    ensures r.Some? ==> c.entry.Some? && !c.entry.value.FileItem?
    ensures r.Some? && c.entry.value.GroupItem? ==>
      && r.value.entry.Some? && r.value.entry.value.ShareItem? && r.value.entry.value.info.name == part
      && r.value.share == Some(part) && r.value.parentPath == c.parentPath
    ensures r.Some? && !c.entry.value.GroupItem? ==>
      && r.value.entry.Some? && r.value.share == c.share
      && match r.value.entry.value
         case DirItem(s, pp, n, _) => s == c.share && pp == c.parentPath && n == part && r.value.parentPath == c.parentPath + part + "/"
         case FileItem(s, pp, n) => s == c.share && pp == c.parentPath && n == part && r.value.parentPath == c.parentPath
         case _ => false
  {
    match c.entry
    case Some(GroupItem(pages)) =>
      var (k, t) := Drain(pages, None, [], ShareHit(part));
      if k.Some? then
        var info := FindShare(PageAt(pages, k.value, []), part).value;
        Some(Cursor(Some(ShareItem(info)), c.parentPath, Some(info.name), t))
      else None
    case Some(ShareItem(_)) => Found(c, part)
    case Some(DirItem(_, _, _, _)) => Found(c, part)
    case _ => None
  }

  /** The share or directory search of one segment from the first page, failing when nothing matches. */
  function Found(c: Cursor, part: string): (r: Option<Cursor>)
    requires c.entry.Some? && (c.entry.value.ShareItem? || c.entry.value.DirItem?)
    ensures r.Some? ==> r.value == Descend(c, None, part) && r.value.entry.Some?
    ensures r.Some? ==> r.value.entry.value.DirItem? || r.value.entry.value.FileItem?
  {
    var pages := ListingOf(c.entry.value).pages;
    var (k, _) := Drain(pages, None, EmptyPage, PageHit(part));
    if k.Some? then Some(Descend(c, None, part)) else None
  }

  /** A segment is found exactly when some page of the share list or listing matches it. */
  lemma StepFoundIff(c: Cursor, part: string)
    requires c.entry.Some?
    ensures c.entry.value.GroupItem? ==>
      (Step(c, part).Some? <==> exists j :: 0 <= j < |c.entry.value.pages| && ShareHit(part)(c.entry.value.pages[j]))
    ensures (c.entry.value.ShareItem? || c.entry.value.DirItem?) ==>
      (Step(c, part).Some? <==> exists j :: 0 <= j < |ListingOf(c.entry.value).pages| && PageHit(part)(ListingOf(c.entry.value).pages[j]))
  {
  }

  /** The loop over the segments as evidently intended. */
  function Run(c: Cursor, parts: seq<string>): (r: Option<Cursor>)
    decreases |parts|
    ensures |parts| == 0 ==> r == Some(c)
  {
    if |parts| == 0 then Some(c)
    else
      match Step(c, parts[0])
      case None => None
      case Some(c') => Run(c', parts[1..])
  }

  /** Each segment followed by "/", concatenated: the parent path a directory walk builds. */
  function Slashed(dirs: seq<string>): (r: string)
    ensures |r| == |dirs| + Sum(dirs)
  {
    if |dirs| == 0 then "" else dirs[0] + "/" + Slashed(dirs[1..])
  }

  function Sum(dirs: seq<string>): nat {
    if |dirs| == 0 then 0 else |dirs[0]| + Sum(dirs[1..])
  }

  /** `Slashed` of one more leading segment. */
  lemma SlashedCons(d: string, dirs: seq<string>)
    ensures Slashed([d] + dirs) == d + "/" + Slashed(dirs)
  {
    assert ([d] + dirs)[1..] == dirs;
  }

  /** The segments before the last, slashed: the first one, "/", then the middle ones slashed. */
  lemma SlashedInit(parts: seq<string>)
    requires |parts| > 1
    ensures Slashed(parts[..|parts| - 1]) == parts[0] + "/" + Slashed(parts[1..][..|parts| - 2])
  {
    var mid := parts[1..][..|parts| - 2];
    assert parts[..|parts| - 1] == [parts[0]] + mid;
    SlashedCons(parts[0], mid);
  }

  /**
   * A successful walk from a share or directory ends on a directory or file
   * named by the last segment, found under the parent path extended by
   * every earlier segment and "/", in the same share.
   */
  lemma {:induction false} RunFromListing(c: Cursor, parts: seq<string>)
    requires c.entry.Some? && (c.entry.value.ShareItem? || c.entry.value.DirItem?)
    requires |parts| > 0
    ensures var r := Run(c, parts);
      r.Some? ==>
        && r.value.entry.Some?
        && (r.value.entry.value.DirItem? || r.value.entry.value.FileItem?)
        && r.value.entry.value.share == c.share
        && r.value.entry.value.name == parts[|parts| - 1]
        && r.value.entry.value.parentPath == c.parentPath + Slashed(parts[..|parts| - 1])
    decreases |parts|, 1
  {
    var s := Step(c, parts[0]);
    if s.Some? {
      if |parts| == 1 {
        assert parts[..0] == [];
      } else {
        RunAfterStep(c, parts, s.value);
      }
    }
  }

  /** `RunFromListing` once the first segment has been stepped. */
  lemma {:induction false} RunAfterStep(c: Cursor, parts: seq<string>, c': Cursor)
    requires c.entry.Some? && (c.entry.value.ShareItem? || c.entry.value.DirItem?)
    requires |parts| > 1 && Step(c, parts[0]) == Some(c')
    ensures var r := Run(c, parts);
      r.Some? ==>
        && r.value.entry.Some?
        && (r.value.entry.value.DirItem? || r.value.entry.value.FileItem?)
        && r.value.entry.value.share == c.share
        && r.value.entry.value.name == parts[|parts| - 1]
        && r.value.entry.value.parentPath == c.parentPath + Slashed(parts[..|parts| - 1])
    decreases |parts|, 0
  {
    var rest := parts[1..];
    assert Run(c, parts) == Run(c', rest);
    if c'.entry.value.DirItem? {
      RunFromListing(c', rest);
      var mid := rest[..|rest| - 1];
      SlashedInit(parts);
      ConcatAssoc(c.parentPath, parts[0], Slashed(mid));
    } else {
      assert Step(c', rest[0]).None?;
    }
  }

  /** A walk over one or more segments steps the first and walks the rest. */
  lemma RunCons(c: Cursor, parts: seq<string>)
    requires |parts| > 0
    ensures Run(c, parts) == if Step(c, parts[0]).Some? then Run(Step(c, parts[0]).value, parts[1..]) else None
  {
  }

  /** The cursor the lookup starts from: the root item, parent path "/", no share, no token. */
  function Start(root: Option<Entry>): Cursor {
    Cursor(root, "/", None, None)
  }

  /**
   * From the share group, a successful walk ends on a directory or file of
   * the share named by the first segment, named by the last segment, under
   * the middle segments each followed by "/".
   */
  lemma FromGroup(pages: seq<seq<ShareInfo>>, parts: seq<string>)
    requires |parts| > 1
    ensures var r := Run(Start(Some(GroupItem(pages))), parts);
      r.Some? ==>
        && r.value.entry.Some?
        && (r.value.entry.value.DirItem? || r.value.entry.value.FileItem?)
        && r.value.entry.value.share == Some(parts[0])
        && r.value.entry.value.name == parts[|parts| - 1]
        && r.value.entry.value.parentPath == "/" + Slashed(parts[1..|parts| - 1])
  {
    var start := Start(Some(GroupItem(pages)));
    var s := Step(start, parts[0]);
    RunCons(start, parts);
    if s.Some? {
      FromShare(s.value, parts);
    }
  }

  /** `FromGroup` once the share named by the first segment has been entered. */
  lemma FromShare(c: Cursor, parts: seq<string>)
    requires |parts| > 1
    requires c.entry.Some? && c.entry.value.ShareItem? && c.share == Some(parts[0]) && c.parentPath == "/"
    ensures var r := Run(c, parts[1..]);
      r.Some? ==>
        && r.value.entry.Some?
        && (r.value.entry.value.DirItem? || r.value.entry.value.FileItem?)
        && r.value.entry.value.share == Some(parts[0])
        && r.value.entry.value.name == parts[|parts| - 1]
        && r.value.entry.value.parentPath == "/" + Slashed(parts[1..|parts| - 1])
  {
    RunFromListing(c, parts[1..]);
    assert parts[1..][..|parts| - 2] == parts[1..|parts| - 1];
  }

  /** Walking one more segment continues from where the walk ended. */
  lemma {:induction false} RunSnoc(c: Cursor, parts: seq<string>, part: string)
    ensures Run(c, parts + [part]) == if Run(c, parts).Some? then Step(Run(c, parts).value, part) else None
    decreases |parts|
  {
    if |parts| == 0 {
      assert [] + [part] == [part];
      assert [part][1..] == [];
    } else {
      assert (parts + [part])[0] == parts[0];
      assert (parts + [part])[1..] == parts[1..] + [part];
      var s := Step(c, parts[0]);
      if s.Some? {
        RunSnoc(s.value, parts[1..], part);
      }
    }
  }

  /** Where `lookup` cuts `authority + path`: the root path through "File Shares", and the segments after it. */
  function Locate(temp: string): (r: (string, seq<string>))
    ensures IndexOf(temp, SharesMarker) >= 0 ==>
      var m := IndexOf(temp, SharesMarker) + |SharesMarker|;
      m <= |temp| && r.0 == temp[..m] && r.1 == Split(temp[m..], '/')[1..]
    ensures IndexOf(temp, SharesMarker) < 0 ==> r.0 == temp[..Clamp(10, |temp|)]
  {
    var end := IndexOf(temp, SharesMarker);
    var rootPath := Substring(temp, 0, end + 11);
    var branchPath := SubstringFrom(temp, end + 11);
    assert |SharesMarker| == 11;
    assert end >= 0 ==> end + 11 <= |temp| && rootPath == temp[..end + 11] && branchPath == temp[end + 11..] by {
      if end >= 0 { assert At(temp, SharesMarker, end); }
    }
    (rootPath, Split(branchPath, '/')[1..])
  }

  /** Appending "/" and a name leaves the first "File Shares" marker where it was. */
  lemma MarkerStays(temp: string, n: string)
    requires IndexOf(temp, SharesMarker) >= 0
    ensures IndexOf(temp + "/" + n, SharesMarker) == IndexOf(temp, SharesMarker)
  {
    assert temp + "/" + n == temp + ("/" + n);
    IndexOfExtend(temp, SharesMarker, "/" + n);
  }

  /** A path one "/"-free name longer is cut at the same place, with one more segment. */
  lemma LocateExtend(temp: string, n: string)
    requires IndexOf(temp, SharesMarker) >= 0 && '/' !in n
    ensures Locate(temp + "/" + n).0 == Locate(temp).0
    ensures Locate(temp + "/" + n).1 == Locate(temp).1 + [n]
  {
    var k := IndexOf(temp, SharesMarker);
    var t := temp + "/" + n;
    MarkerStays(temp, n);
    var m := k + |SharesMarker|;
    var before := Locate(temp);
    var after := Locate(t);
    assert m <= |temp| && before.0 == temp[..m] && before.1 == Split(temp[m..], '/')[1..];
    assert after.0 == t[..m] && after.1 == Split(t[m..], '/')[1..];
    CutExtend(temp, n, m);
  }

  /** Cutting `temp + "/" + n` and `temp` at the same index inside `temp`. */
  lemma CutExtend(temp: string, n: string, m: nat)
    requires m <= |temp| && '/' !in n
    ensures (temp + "/" + n)[..m] == temp[..m]
    ensures Split((temp + "/" + n)[m..], '/')[1..] == Split(temp[m..], '/')[1..] + [n]
  {
    CutInside(temp, "/", n, m);
    SplitAppend(temp[m..], n, '/');
    var pieces := Split(temp[m..], '/');
    assert (pieces + [n])[1..] == pieces[1..] + [n];
  }

  /** The walk's answer before the telemetry wrapper: the `else` branch throws unless `silent`. */
  function Answer(walked: Option<Cursor>, silent: bool): (r: Outcome<Option<Entry>>)
    ensures r.Err? <==> walked.None? && !silent
    ensures r.Err? ==> r.error == FileNotFound
    ensures walked.Some? ==> r == Ok(walked.value.entry)
    ensures walked.None? && silent ==> r == Ok(None)
  {
    match walked
    case Some(c) => Ok(c.entry)
    case None => if silent then Ok(None) else Err(FileNotFound)
  }

  /** `callWithTelemetryAndErrorHandling` before `rethrow` is set: a thrown error becomes `undefined`. */
  function Swallow(o: Outcome<Option<Entry>>): (r: Option<Entry>)
    ensures o.Ok? ==> r == o.value
    ensures o.Err? ==> r == None
  {
    if o.Ok? then o.value else None
  }

  /** `lookup` as written, with the shared token and the unchanged entry on a missing segment. */
  function LookupAsWritten(authority: string, path: string, find: string -> Option<Entry>, silent: bool): (r: Option<Entry>)
    ensures var (rootPath, parts) := Locate(authority + path);
      var w := RunAsWritten(Start(find(rootPath)), parts);
      r == if w.Some? then w.value.entry else None
  {
    var (rootPath, parts) := Locate(authority + path);
    Swallow(Answer(RunAsWritten(Start(find(rootPath)), parts), silent))
  }

  /** `lookup` as evidently intended: each search from the first page, a missing segment not found. */
  function Lookup(authority: string, path: string, find: string -> Option<Entry>, silent: bool): (r: Option<Entry>)
    ensures var (rootPath, parts) := Locate(authority + path);
      var w := Run(Start(find(rootPath)), parts);
      r == if w.Some? then w.value.entry else None
  {
    var (rootPath, parts) := Locate(authority + path);
    Swallow(Answer(Run(Start(find(rootPath)), parts), silent))
  }

  /** The `silent` flag changes nothing: the error it would raise is swallowed anyway. */
  lemma SilentIrrelevant(authority: string, path: string, find: string -> Option<Entry>)
    ensures Lookup(authority, path, find, true) == Lookup(authority, path, find, false)
    ensures LookupAsWritten(authority, path, find, true) == LookupAsWritten(authority, path, find, false)
  {
  }

  /** What `stat` answers for the entry a lookup found. */
  function StatOf(e: Option<Entry>): (r: Outcome<FileStat>)
    ensures r.Ok? <==> e.Some? && !e.value.GroupItem?
    ensures r.Ok? ==> r.value == ZeroStat(if e.value.FileItem? then File else Directory)
    ensures r.Err? ==> r.error == FileNotFound
  {
    match e
    case Some(FileItem(_, _, _)) => Ok(ZeroStat(File))
    case Some(DirItem(_, _, _, _)) => Ok(ZeroStat(Directory))
    case Some(ShareItem(_)) => Ok(ZeroStat(Directory))
    case _ => Err(FileNotFound)
  }

  /** `stat`: a file is a File, a share or directory a Directory, anything else is not found. */
  function Stat(authority: string, path: string, find: string -> Option<Entry>): (r: Outcome<FileStat>)
    ensures var e := LookupAsWritten(authority, path, find, false);
      && (r.Ok? <==> e.Some? && !e.value.GroupItem?)
      && (r.Ok? ==> r.value == ZeroStat(if e.value.FileItem? then File else Directory))
      && (r.Err? ==> r.error == FileNotFound)
  {
    StatOf(LookupAsWritten(authority, path, find, false))
  }

  /** `stat` over the corrected lookup. */
  function StatIntended(authority: string, path: string, find: string -> Option<Entry>): (r: Outcome<FileStat>)
    ensures var e := Lookup(authority, path, find, false);
      && (r.Ok? <==> e.Some? && !e.value.GroupItem?)
      && (r.Ok? ==> r.value == ZeroStat(if e.value.FileItem? then File else Directory))
      && (r.Err? ==> r.error == FileNotFound)
  {
    StatOf(Lookup(authority, path, find, false))
  }

  /** Pairs each name with `kind`. */
  function Tag(names: seq<string>, kind: FileType): (r: seq<(string, FileType)>)
    ensures |r| == |names|
    ensures forall i :: 0 <= i < |names| ==> r[i] == (names[i], kind)
  {
    seq(|names|, i requires 0 <= i < |names| => (names[i], kind))
  }

  /** The entries of one page: its directories first, then its files. */
  function PageEntries(page: Page): (r: seq<(string, FileType)>)
    ensures forall n :: (n, Directory) in r <==> exists d :: d in page.dirs && d.name == n
    ensures forall n :: (n, File) in r <==> n in page.files
    ensures |r| == |page.dirs| + |page.files|
  {
    var ds := Tag(DirNames(page.dirs), Directory);
    var fs := Tag(page.files, File);
    assert forall n :: (n, Directory) in ds <==> exists i :: 0 <= i < |page.dirs| && page.dirs[i].name == n;
    ds + fs
  }

  /** What `readDirectory` answers for the entry a lookup found. */
  function ListOf(e: Option<Entry>): (r: Outcome<seq<(string, FileType)>>)
    ensures r.Ok? <==> e.Some? && (e.value.ShareItem? || e.value.DirItem?)
    ensures r.Ok? ==> r.value == PageEntries(FirstPage(ListingOf(e.value)))
    ensures r.Err? ==> r.error == FileNotADirectory
  {
    match e
    case Some(x) =>
      if x.ShareItem? || x.DirItem? then Ok(PageEntries(FirstPage(ListingOf(x)))) else Err(FileNotADirectory)
    case None => Err(FileNotADirectory)
  }

  /** `readDirectory`: the first page of a share's or directory's listing. */
  function ReadDirectory(authority: string, path: string, find: string -> Option<Entry>): (r: Outcome<seq<(string, FileType)>>)
    ensures var e := LookupAsWritten(authority, path, find, false);
      && (r.Ok? <==> e.Some? && (e.value.ShareItem? || e.value.DirItem?))
      && (r.Ok? ==> r.value == PageEntries(FirstPage(ListingOf(e.value))))
      && (r.Err? ==> r.error == FileNotADirectory)
  {
    ListOf(LookupAsWritten(authority, path, find, false))
  }

  /** `readDirectory` over the corrected lookup. */
  function ReadDirectoryIntended(authority: string, path: string, find: string -> Option<Entry>): (r: Outcome<seq<(string, FileType)>>)
    ensures var e := Lookup(authority, path, find, false);
      && (r.Ok? <==> e.Some? && (e.value.ShareItem? || e.value.DirItem?))
      && (r.Ok? ==> r.value == PageEntries(FirstPage(ListingOf(e.value))))
      && (r.Err? ==> r.error == FileNotADirectory)
  {
    ListOf(Lookup(authority, path, find, false))
  }

  /** A listing whose first page holds a match is searched no further than that page. */
  lemma StepOnFirstPage(c: Cursor, n: string)
    requires c.entry.Some? && (c.entry.value.ShareItem? || c.entry.value.DirItem?)
    requires PageHit(n)(FirstPage(ListingOf(c.entry.value)))
    ensures var r := Step(c, n);
      var page := FirstPage(ListingOf(c.entry.value));
      && r.Some? && r.value.entry.Some?
      && (FindDir(page.dirs, n).Some? ==> r.value.entry.value.DirItem?)
      && (FindDir(page.dirs, n).None? ==> r.value.entry.value.FileItem?)
  {
    var pages := ListingOf(c.entry.value).pages;
    assert |pages| > 0 by {
      assert !PageHit(n)(EmptyPage);
    }
    var (k, _) := Drain(pages, None, EmptyPage, PageHit(n));
    assert k == Some(0);
  }

  /**
   * Every entry `readDirectory` lists is found again by `stat` of the
   * directory's path extended by the entry's name: a listed directory as a
   * Directory, a listed file as a File unless the page also lists a
   * directory of that name.
   */
  lemma ReadDirectoryThenStatIntended(authority: string, path: string, find: string -> Option<Entry>, n: string, kind: FileType)
    requires IndexOf(authority + path, SharesMarker) >= 0 && '/' !in n
    requires ReadDirectoryIntended(authority, path, find).Ok? && (n, kind) in ReadDirectoryIntended(authority, path, find).value
    ensures var s := StatIntended(authority, path + "/" + n, find);
      && (kind == Directory ==> s == Ok(ZeroStat(Directory)))
      && (kind == File && (n, Directory) !in ReadDirectoryIntended(authority, path, find).value ==> s == Ok(ZeroStat(File)))
  {
    var (rootPath, parts) := Locate(authority + path);
    var w := Run(Start(find(rootPath)), parts);
    assert w.Some? && Lookup(authority, path, find, false) == w.value.entry;
    LookupExtend(authority, path, find, n);
    ListedThenStep(w.value, n, kind);
  }

  /** Looking up `path + "/" + n` is looking up `path` and stepping once more to `n`. */
  lemma LookupExtend(authority: string, path: string, find: string -> Option<Entry>, n: string)
    requires IndexOf(authority + path, SharesMarker) >= 0 && '/' !in n
    ensures var (rootPath, parts) := Locate(authority + path);
      var w := Run(Start(find(rootPath)), parts);
      var r := if w.Some? then Step(w.value, n) else None;
      Lookup(authority, path + "/" + n, find, false) == if r.Some? then r.value.entry else None
  {
    var temp := authority + path;
    var (rootPath, parts) := Locate(temp);
    LocateExtend(temp, n);
    ConcatAssoc(authority, path, n);
    RunSnoc(Start(find(rootPath)), parts, n);
  }

  /** A name listed on the first page of the walk's entry is found by one more step, as the kind listed. */
  lemma ListedThenStep(c: Cursor, n: string, kind: FileType)
    requires c.entry.Some? && (c.entry.value.ShareItem? || c.entry.value.DirItem?)
    requires (n, kind) in PageEntries(FirstPage(ListingOf(c.entry.value)))
    ensures var r := Step(c, n);
      var listed := PageEntries(FirstPage(ListingOf(c.entry.value)));
      && r.Some? && r.value.entry.Some?
      && (kind == Directory ==> r.value.entry.value.DirItem?)
      && (kind == File && (n, Directory) !in listed ==> r.value.entry.value.FileItem?)
  {
    var page := FirstPage(ListingOf(c.entry.value));
    if kind == Directory {
      var d :| d in page.dirs && d.name == n;
      var i :| 0 <= i < |page.dirs| && page.dirs[i] == d;
      assert FindDir(page.dirs, n).Some?;
    } else {
      assert n in page.files;
    }
    StepOnFirstPage(c, n);
  }

  /** What `lookupAsFile` then `deleteTreeItemImpl` do with the entry a lookup found. */
  function DeleteOf(e: Option<Entry>): (r: Outcome<Call>)
    ensures r.Ok? <==> e.Some? && e.value.FileItem?
    ensures r.Ok? ==> r.value == DeleteFile(e.value.share, e.value.parentPath, e.value.name)
    ensures r.Err? ==> r.error == FileIsADirectory
  {
    match e
    case Some(FileItem(s, pp, n)) => Ok(DeleteFile(s, pp, n))
    case _ => Err(FileIsADirectory)
  }

  /** `delete`: only a file is deleted; anything else is a directory. */
  function Delete(authority: string, path: string, find: string -> Option<Entry>, recursive: bool): (r: Outcome<Call>)
    ensures var e := LookupAsWritten(authority, path, find, false);
      && (r.Ok? <==> e.Some? && e.value.FileItem?)
      && (r.Ok? ==> r.value == DeleteFile(e.value.share, e.value.parentPath, e.value.name))
      && (r.Err? ==> r.error == FileIsADirectory)
  {
    DeleteOf(LookupAsWritten(authority, path, find, false))
  }

  /** `delete` over the corrected lookup. */
  function DeleteIntended(authority: string, path: string, find: string -> Option<Entry>, recursive: bool): (r: Outcome<Call>)
    ensures var e := Lookup(authority, path, find, false);
      && (r.Ok? <==> e.Some? && e.value.FileItem?)
      && (r.Ok? ==> r.value == DeleteFile(e.value.share, e.value.parentPath, e.value.name))
      && (r.Err? ==> r.error == FileIsADirectory)
  {
    DeleteOf(Lookup(authority, path, find, false))
  }

  /** Walking one more segment as written continues from where the walk ended. */
  lemma {:induction false} RunAsWrittenSnoc(c: Cursor, parts: seq<string>, part: string)
    ensures RunAsWritten(c, parts + [part]) ==
      if RunAsWritten(c, parts).Some? then StepAsWritten(RunAsWritten(c, parts).value, part) else None
    decreases |parts|
  {
    if |parts| == 0 {
      assert [] + [part] == [part];
      assert [part][1..] == [];
    } else {
      assert (parts + [part])[0] == parts[0];
      assert (parts + [part])[1..] == parts[1..] + [part];
      var s := StepAsWritten(c, parts[0]);
      if s.Some? {
        RunAsWrittenSnoc(s.value, parts[1..], part);
      }
    }
  }

  /** As written, looking up `path + "/" + n` is looking up `path` and stepping once more, with the token left over. */
  lemma LookupAsWrittenExtend(authority: string, path: string, find: string -> Option<Entry>, n: string)
    requires IndexOf(authority + path, SharesMarker) >= 0 && '/' !in n
    ensures var (rootPath, parts) := Locate(authority + path);
      var w := RunAsWritten(Start(find(rootPath)), parts);
      var r := if w.Some? then StepAsWritten(w.value, n) else None;
      LookupAsWritten(authority, path + "/" + n, find, false) == if r.Some? then r.value.entry else None
  {
    var temp := authority + path;
    var (rootPath, parts) := Locate(temp);
    LocateExtend(temp, n);
    ConcatAssoc(authority, path, n);
    RunAsWrittenSnoc(Start(find(rootPath)), parts, n);
  }

  /**
   * As written, once `readDirectory` succeeds on a path, `stat` succeeds on
   * every name under it, listed or not; a name that no page of the listing
   * holds stats as a Directory, the directory itself.
   */
  lemma StatUnderDirectory(authority: string, path: string, find: string -> Option<Entry>, n: string)
    requires IndexOf(authority + path, SharesMarker) >= 0 && '/' !in n
    requires ReadDirectory(authority, path, find).Ok?
    ensures Stat(authority, path + "/" + n, find).Ok?
    ensures var pages := ListingOf(LookupAsWritten(authority, path, find, false).value).pages;
      (forall j :: 0 <= j < |pages| ==> !PageHit(n)(pages[j])) ==>
        Stat(authority, path + "/" + n, find) == Ok(ZeroStat(Directory))
  {
    var (rootPath, parts) := Locate(authority + path);
    var w := RunAsWritten(Start(find(rootPath)), parts);
    assert w.Some? && LookupAsWritten(authority, path, find, false) == w.value.entry;
    LookupAsWrittenExtend(authority, path, find, n);
    StepAsWrittenFromListing(w.value, n);
  }

  /** As written, a step from a share or directory always lands on an entry, the same one when no page holds the name. */
  lemma StepAsWrittenFromListing(c: Cursor, n: string)
    requires c.entry.Some? && (c.entry.value.ShareItem? || c.entry.value.DirItem?)
    ensures var r := StepAsWritten(c, n);
      && r.Some? && r.value.entry.Some? && !r.value.entry.value.GroupItem?
      && ((forall j :: 0 <= j < |ListingOf(c.entry.value).pages| ==> !PageHit(n)(ListingOf(c.entry.value).pages[j]))
          ==> r.value.entry == c.entry)
  {
    assert StepAsWritten(c, n) == Some(Descend(c, c.token, n));
  }

  /**
   * With the corrected lookup, a name under a path `readDirectory` succeeds
   * on stats successfully exactly when some page of the listing holds it.
   */
  lemma StatIntendedUnderDirectory(authority: string, path: string, find: string -> Option<Entry>, n: string)
    requires IndexOf(authority + path, SharesMarker) >= 0 && '/' !in n
    requires ReadDirectoryIntended(authority, path, find).Ok?
    ensures var pages := ListingOf(Lookup(authority, path, find, false).value).pages;
      StatIntended(authority, path + "/" + n, find).Ok? <==> exists j :: 0 <= j < |pages| && PageHit(n)(pages[j])
  {
    var (rootPath, parts) := Locate(authority + path);
    var w := Run(Start(find(rootPath)), parts);
    assert w.Some? && Lookup(authority, path, find, false) == w.value.entry;
    LookupExtend(authority, path, find, n);
    StepFoundIff(w.value, n);
  }

  /** `createDirectory`, `readFile`, `writeFile`, `rename` and `watch` are not implemented. */
  function Unsupported(): (r: Outcome<()>)
    ensures r == Err(NotImplemented)
  {
    Err(NotImplemented)
  }

  /** The listing of the share in the counterexamples: two pages, directory "a" on the first. */
  const ShareRoot := Dir([Page([], [SubDir("a", Dir([Page(["b"], [])]))]), Page([], [])])

  /**
   * The token left by finding "a" on the first of the share's two pages
   * starts the search in "a" at its second page, which does not exist, so
   * "b" is skipped and the walk as written stays at "a"; the intended walk
   * finds the file "b".
   */
  lemma StaleTokenSkipsFirstPage()
    ensures var start := Start(Some(GroupItem([[ShareInfo("s", ShareRoot)]])));
      && RunAsWritten(start, ["s", "a", "b"]).value.entry == Some(DirItem(Some("s"), "/", "a", Dir([Page(["b"], [])])))
      && Run(start, ["s", "a", "b"]).value.entry == Some(FileItem(Some("s"), "/a/", "b"))
  {
    var start := Start(Some(GroupItem([[ShareInfo("s", ShareRoot)]])));
    var c1 := StepAsWritten(start, "s").value;
    assert c1.token == None;
    var c2 := StepAsWritten(c1, "a").value;
    assert c2.token == Some(1);
    assert ["s", "a", "b"][1..] == ["a", "b"];
    assert ["a", "b"][1..] == ["b"];
    assert RunAsWritten(start, ["s", "a", "b"]) == StepAsWritten(c2, "b");
    IntendedWalk(start);
  }

  /** The intended walk of "s", "a", "b" in the counterexample share. */
  lemma IntendedWalk(start: Cursor)
    requires start == Start(Some(GroupItem([[ShareInfo("s", ShareRoot)]])))
    ensures Run(start, ["s", "a", "b"]).Some?
    ensures Run(start, ["s", "a", "b"]).value.entry == Some(FileItem(Some("s"), "/a/", "b"))
  {
    var sub := Dir([Page(["b"], [])]);
    var d1 := Step(start, "s");
    assert d1 == Some(Cursor(Some(ShareItem(ShareInfo("s", ShareRoot))), "/", Some("s"), None)) by {
      assert FindShare([ShareInfo("s", ShareRoot)], "s").Some?;
    }
    var d2 := Step(d1.value, "a");
    assert d2.Some? && d2.value.entry == Some(DirItem(Some("s"), "/", "a", sub)) && d2.value.parentPath == "/a/" by {
      assert FindDir(FirstPage(ShareRoot).dirs, "a") == Some(SubDir("a", sub));
      assert PageHit("a")(FirstPage(ShareRoot));
      StepOnFirstPage(d1.value, "a");
    }
    var d3 := Step(d2.value, "b");
    assert d3.Some? && d3.value.entry == Some(FileItem(Some("s"), "/a/", "b")) by {
      assert FindDir(FirstPage(sub).dirs, "b").None?;
      assert PageHit("b")(FirstPage(sub));
      StepOnFirstPage(d2.value, "b");
    }
    assert ["s", "a", "b"][1..] == ["a", "b"];
    assert ["a", "b"][1..] == ["b"];
  }

  /**
   * A missing segment leaves the walk as written at the share, so `stat`
   * of a path that does not exist answers Directory; the intended walk
   * answers not found.
   */
  lemma MissingSegmentKeepsParent()
    ensures var start := Start(Some(GroupItem([[ShareInfo("s", ShareRoot)]])));
      && RunAsWritten(start, ["s", "missing"]).value.entry == Some(ShareItem(ShareInfo("s", ShareRoot)))
      && Run(start, ["s", "missing"]).None?
  {
    var start := Start(Some(GroupItem([[ShareInfo("s", ShareRoot)]])));
    assert ["s", "missing"][1..] == ["missing"];
    var c1 := StepAsWritten(start, "s").value;
    assert c1.entry == Some(ShareItem(ShareInfo("s", ShareRoot)));
  }
}
