/**
 * A file share as the providers see it through the service. A directory's
 * contents come back in pages, each holding file names and sub-directories;
 * a continuation token names the page after the one just fetched. Remote
 * changes a provider asks for are recorded as calls, in order.
 */
module ShareListing {
  import opened Wrappers

  /** A directory: its listing, page by page. */
  datatype Dir = Dir(pages: seq<Page>)

  /** One page of `listFilesAndDirectoriesSegmented`. */
  datatype Page = Page(files: seq<string>, dirs: seq<SubDir>)

  /** A sub-directory entry of a page: its name and its own listing. */
  datatype SubDir = SubDir(name: string, listing: Dir)

  /** A share entry of a `listFileShares` page. */
  datatype ShareInfo = ShareInfo(name: string, root: Dir)

  /**
   * A continuation token: `None` (undefined) asks for the first page and,
   * when returned, means there is no further page; `Some(i)` names page `i`.
   */
  type Token = Option<nat>

  const EmptyPage := Page([], [])

  /** The page index a token asks for. */
  function Index(token: Token): nat {
    if token.None? then 0 else token.value
  }

  /**
   * One segmented listing call: the page the token names and the token of
   * the page after it. A token past the end yields an empty final page.
   */
  function Fetch<P>(pages: seq<P>, token: Token, empty: P): (r: (P, Token))
    ensures Index(token) < |pages| ==> r.0 == pages[Index(token)]
    ensures Index(token) >= |pages| ==> r.0 == empty
    ensures r.1.Some? <==> Index(token) + 1 < |pages|
    ensures r.1.Some? ==> r.1.value == Index(token) + 1
  {
    var i := Index(token);
    var page := if i < |pages| then pages[i] else empty;
    (page, if i + 1 < |pages| then Some(i + 1) else None)
  }

  /** `listFiles(undefined)`: the first page of a directory. */
  function FirstPage(d: Dir): (p: Page)
    ensures |d.pages| > 0 ==> p == d.pages[0]
    ensures |d.pages| == 0 ==> p == EmptyPage
  {
    Fetch(d.pages, None, EmptyPage).0
  }

  /** `dirs.find(d => d.name === name)` */
  function FindDir(dirs: seq<SubDir>, name: string): (r: Option<SubDir>)
    ensures r.Some? ==> r.value in dirs && r.value.name == name
    ensures r.None? <==> forall i :: 0 <= i < |dirs| ==> dirs[i].name != name
  {
    if |dirs| == 0 then None
    else if dirs[0].name == name then Some(dirs[0])
    else FindDir(dirs[1..], name)
  }

  /** `shares.find(s => s.name === name)` */
  function FindShare(shares: seq<ShareInfo>, name: string): (r: Option<ShareInfo>)
    ensures r.Some? ==> r.value in shares && r.value.name == name
    ensures r.None? <==> forall i :: 0 <= i < |shares| ==> shares[i].name != name
  {
    if |shares| == 0 then None
    else if shares[0].name == name then Some(shares[0])
    else FindShare(shares[1..], name)
  }

  /** The names a page lists as sub-directories. */
  function DirNames(dirs: seq<SubDir>): (r: seq<string>)
    ensures |r| == |dirs|
    ensures forall i :: 0 <= i < |dirs| ==> r[i] == dirs[i].name
  {
    if |dirs| == 0 then [] else [dirs[0].name] + DirNames(dirs[1..])
  }

  /** A remote call a provider makes against a share. */
  datatype ShareOp =
    | PutFile(share: string, dir: string, name: string, text: string)    // createFileFromText
    | MakeDirectory(share: string, path: string)                          // createDirectory
    | RemoveFile(share: string, dir: string, name: string)                // deleteFile
    | RemoveDirectory(share: string, path: string)                        // deleteDirectory
}
