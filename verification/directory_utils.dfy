/**
 * The file-share directory helpers of `directoryUtils.ts`: creating a child
 * directory, and deleting a directory with everything in it. The deletion
 * fetches the directory's listing page by page until the continuation
 * token runs out; on each page it deletes the files, then empties and
 * deletes each sub-directory, and at the end it deletes the directory
 * itself. The listing is a snapshot taken before any deletion; the calls
 * made are the result.
 */
module DirectoryUtils {
  import opened Wrappers
  import opened JsString
  import opened PosixPath
  import opened FsTypes
  import opened ShareListing

  /** The calls deleting `d` at `directory`: every page's contents in page order, then the directory. */
  function TreeOps(share: string, directory: string, d: Dir): (r: seq<ShareOp>)
    decreases d, 2
    ensures |r| > 0 && r[|r| - 1] == RemoveDirectory(share, directory)
  {
    PagesOps(share, directory, d, 0) + [RemoveDirectory(share, directory)]
  }

  /** The calls for pages `i..` of `d`. */
  function PagesOps(share: string, directory: string, d: Dir, i: nat): seq<ShareOp>
    requires i <= |d.pages|
    decreases d, 1, |d.pages| - i
  {
    if i == |d.pages| then [] else PageOps(share, directory, d, i) + PagesOps(share, directory, d, i + 1)
  }

  /** The calls for page `i`: its files, then its sub-directories. */
  function PageOps(share: string, directory: string, d: Dir, i: nat): seq<ShareOp>
    requires i < |d.pages|
    decreases d, 1, 0
  {
    FileOps(share, directory, d.pages[i].files) + SubsOps(share, directory, d, i, 0)
  }

  /** Deleting each file of `directory`, in order. */
  function FileOps(share: string, directory: string, files: seq<string>): (r: seq<ShareOp>)
    ensures |r| == |files|
    ensures forall k :: 0 <= k < |files| ==> r[k] == RemoveFile(share, directory, files[k])
  {
    seq(|files|, k requires 0 <= k < |files| => RemoveFile(share, directory, files[k]))
  }

  /** The calls emptying and deleting sub-directories `j..` of page `i`, each at `join(directory, name)`. */
  function SubsOps(share: string, directory: string, d: Dir, i: nat, j: nat): seq<ShareOp>
    requires i < |d.pages| && j <= |d.pages[i].dirs|
    decreases d, 0, |d.pages[i].dirs| - j
  {
    if j == |d.pages[i].dirs| then []
    else
      var sub := d.pages[i].dirs[j];
      TreeOps(share, Join([directory, sub.name]), sub.listing) + SubsOps(share, directory, d, i, j + 1)
  }

  /**
   * `deleteDirectoryAndContents`: the paged loop and the recursion, making
   * exactly the calls of `TreeOps`.
   */
  method DeleteDirectoryAndContents(share: string, directory: string, d: Dir) returns (ops: seq<ShareOp>)
    ensures ops == TreeOps(share, directory, d)
    decreases d
  {
    ops := [];
    var token: Token := None;
    var i := 0;
    while true
      invariant i <= |d.pages| && (i == 0 || i < |d.pages|)
      invariant token == if i == 0 then None else Some(i)
      invariant ops + PagesOps(share, directory, d, i) == PagesOps(share, directory, d, 0)
      decreases |d.pages| - i
    {
      assert Index(token) == i;
      var next := Fetch(d.pages, token, EmptyPage).1;
      assert next.Some? ==> next == Some(i + 1);
      if i < |d.pages| {
        var pageOps := DeletePage(share, directory, d, i);
        AdvancePage(share, directory, d, i, ops);
        ops := ops + pageOps;
        if next.None? {
          assert ops == PagesOps(share, directory, d, 0) by {
            assert i + 1 == |d.pages|;
            assert ops + [] == ops;
          }
          break;
        }
        i := i + 1;
        token := next;
      } else {
        assert ops == PagesOps(share, directory, d, 0) by { assert ops + [] == ops; }
        break;
      }
    }
    ops := ops + [RemoveDirectory(share, directory)];
  }

  /** The calls made so far and those of pages `i..` add up to all pages' calls, one page further on. */
  lemma AdvancePage(share: string, directory: string, d: Dir, i: nat, ops: seq<ShareOp>)
    requires i < |d.pages|
    requires ops + PagesOps(share, directory, d, i) == PagesOps(share, directory, d, 0)
    ensures ops + PageOps(share, directory, d, i) + PagesOps(share, directory, d, i + 1) == PagesOps(share, directory, d, 0)
  {
    var page := PageOps(share, directory, d, i);
    var rest := PagesOps(share, directory, d, i + 1);
    assert ops + (page + rest) == ops + page + rest;
  }

  /** One page of the loop: its files, then each sub-directory recursively. */
  method DeletePage(share: string, directory: string, d: Dir, i: nat) returns (ops: seq<ShareOp>)
    requires i < |d.pages|
    ensures ops == PageOps(share, directory, d, i)
    decreases d, 0
  {
    var page := d.pages[i];
    ops := DeleteFiles(share, directory, page.files);
    var j := 0;
    while j < |page.dirs|
      invariant j <= |page.dirs|
      invariant ops + SubsOps(share, directory, d, i, j) == PageOps(share, directory, d, i)
    {
      var sub := page.dirs[j];
      assert sub in page.dirs && page in d.pages;
      var subOps := DeleteDirectoryAndContents(share, Join([directory, sub.name]), sub.listing);
      ops := ops + subOps;
      j := j + 1;
    }
  }

  /** The files loop of one page: `deleteFile(directory, name)` for each file, in order. */
  method DeleteFiles(share: string, directory: string, files: seq<string>) returns (ops: seq<ShareOp>)
    ensures ops == FileOps(share, directory, files)
  {
    ops := [];
    var k := 0;
    while k < |files|
      invariant k <= |files|
      invariant ops == FileOps(share, directory, files[..k])
    {
      assert files[..k + 1] == files[..k] + [files[k]];
      ops := ops + [RemoveFile(share, directory, files[k])];
      k := k + 1;
    }
    assert files[..k] == files;
  }

  /** The directory a call acts in (a file call) or on (a directory call). */
  function Target(op: ShareOp): string {
    match op
    case PutFile(_, dir, _, _) => dir
    case MakeDirectory(_, path) => path
    case RemoveFile(_, dir, _) => dir
    case RemoveDirectory(_, path) => path
  }

  /** `p` lies strictly inside `directory`. */
  predicate Within(p: string, directory: string) {
    StartsWith(p, directory + "/")
  }

  /** Every sub-directory name in the tree, at any depth, is a plain segment. */
  ghost predicate PlainTree(d: Dir)
    decreases d
  {
    forall i, j :: 0 <= i < |d.pages| && 0 <= j < |d.pages[i].dirs| ==>
      Plain(d.pages[i].dirs[j].name) && PlainTree(d.pages[i].dirs[j].listing)
  }

  /** Every call of the pages lies in `directory`: a file deletion there, or anything strictly inside it. */
  lemma {:induction false} PagesBelow(share: string, directory: string, d: Dir, i: nat)
    requires CleanRelative(directory) && PlainTree(d) && i <= |d.pages|
    ensures forall op :: op in PagesOps(share, directory, d, i) ==>
      op.share == share && ((op.RemoveFile? && op.dir == directory) || Within(Target(op), directory))
    decreases d, 1, |d.pages| - i
  {
    if i < |d.pages| {
      SubsBelow(share, directory, d, i, 0);
      PagesBelow(share, directory, d, i + 1);
    }
  }

  /** Every call emptying or deleting a sub-directory lies strictly inside `directory`. */
  lemma {:induction false} SubsBelow(share: string, directory: string, d: Dir, i: nat, j: nat)
    requires CleanRelative(directory) && PlainTree(d) && i < |d.pages| && j <= |d.pages[i].dirs|
    ensures forall op :: op in SubsOps(share, directory, d, i, j) ==> op.share == share && Within(Target(op), directory)
    decreases d, 0, |d.pages[i].dirs| - j
  {
    if j < |d.pages[i].dirs| {
      var sub := d.pages[i].dirs[j];
      var child := Join([directory, sub.name]);
      JoinCleanRelative(directory, sub.name);
      PagesBelow(share, child, sub.listing, 0);
      forall op | op in TreeOps(share, child, sub.listing)
        ensures op.share == share && Within(Target(op), directory)
      {
        assert StartsWith(child, directory + "/") by {
          assert child == directory + "/" + sub.name;
          assert child[..|directory + "/"|] == directory + "/";
        }
        if Target(op) != child {
          StartsWithTrans(Target(op), child + "/", child);
          StartsWithTrans(Target(op), child, directory + "/");
        }
      }
      SubsBelow(share, directory, d, i, j + 1);
    }
  }

  /**
   * Deleting a directory of plainly named sub-directories only touches the
   * directory and what lies inside it, and deletes the directory itself
   * exactly once, as the last call.
   */
  lemma DirectoryDeletedLastOnce(share: string, directory: string, d: Dir)
    requires CleanRelative(directory) && PlainTree(d)
    ensures var ops := TreeOps(share, directory, d);
      && ops[|ops| - 1] == RemoveDirectory(share, directory)
      && (forall k :: 0 <= k < |ops| - 1 ==> ops[k] != RemoveDirectory(share, directory))
      && (forall op :: op in ops ==> op.share == share && (Target(op) == directory || Within(Target(op), directory)))
  {
    var ops := TreeOps(share, directory, d);
    var pages := PagesOps(share, directory, d, 0);
    PagesBelow(share, directory, d, 0);
    forall k | 0 <= k < |ops| - 1
      ensures ops[k] != RemoveDirectory(share, directory)
    {
      assert ops[k] == pages[k];
    }
  }

  /** The calls of page `i` are among the calls of pages `k..`. */
  lemma {:induction false} PagesOpsHas(share: string, directory: string, d: Dir, k: nat, i: nat)
    requires k <= i < |d.pages|
    ensures forall op :: op in PageOps(share, directory, d, i) ==> op in PagesOps(share, directory, d, k)
    decreases i - k
  {
    if k < i {
      PagesOpsHas(share, directory, d, k + 1, i);
    }
  }

  /** The calls for sub-directory `j` of page `i` are among those for sub-directories `k..`. */
  lemma {:induction false} SubsOpsHas(share: string, directory: string, d: Dir, i: nat, k: nat, j: nat)
    requires i < |d.pages| && k <= j < |d.pages[i].dirs|
    ensures var sub := d.pages[i].dirs[j];
      forall op :: op in TreeOps(share, Join([directory, sub.name]), sub.listing) ==> op in SubsOps(share, directory, d, i, k)
    decreases j - k
  {
    var here := d.pages[i].dirs[k];
    var first := TreeOps(share, Join([directory, here.name]), here.listing);
    assert SubsOps(share, directory, d, i, k) == first + SubsOps(share, directory, d, i, k + 1);
    if k < j {
      SubsOpsHas(share, directory, d, i, k + 1, j);
    }
  }

  /**
   * Every file listed on any page is deleted from the directory, and every
   * sub-directory listed on any page is deleted at `join(directory, name)`.
   */
  lemma EveryListedEntryDeleted(share: string, directory: string, d: Dir, i: nat)
    requires i < |d.pages|
    ensures forall f :: f in d.pages[i].files ==> RemoveFile(share, directory, f) in TreeOps(share, directory, d)
    ensures forall j :: 0 <= j < |d.pages[i].dirs| ==>
      RemoveDirectory(share, Join([directory, d.pages[i].dirs[j].name])) in TreeOps(share, directory, d)
  {
    PagesOpsHas(share, directory, d, 0, i);
    var files := d.pages[i].files;
    forall f | f in files
      ensures RemoveFile(share, directory, f) in TreeOps(share, directory, d)
    {
      var k :| 0 <= k < |files| && files[k] == f;
      assert FileOps(share, directory, files)[k] == RemoveFile(share, directory, f);
      assert RemoveFile(share, directory, f) in PageOps(share, directory, d, i);
    }
    forall j | 0 <= j < |d.pages[i].dirs|
      ensures RemoveDirectory(share, Join([directory, d.pages[i].dirs[j].name])) in TreeOps(share, directory, d)
    {
      var sub := d.pages[i].dirs[j];
      SubsOpsHas(share, directory, d, i, 0, j);
      var subOps := TreeOps(share, Join([directory, sub.name]), sub.listing);
      assert subOps[|subOps| - 1] in subOps;
      assert RemoveDirectory(share, Join([directory, sub.name])) in PageOps(share, directory, d, i);
    }
  }

  /** Why no directory was created. */
  datatype CreateFailure =
    | UserCancelled                 // the input box was dismissed or left empty
    | CreateFailed(error: FsError)  // the service refused

  /** The tree node made for a created directory (`DirectoryNode`). */
  datatype DirNode = DirNode(parentPath: string, name: string, share: string)

  /** The call a creation makes, if any, and its outcome. */
  datatype Creation = Creation(call: Option<ShareOp>, node: Result<DirNode, CreateFailure>)

  /**
   * `askAndCreateChildDirectory`: the name entered (`dirName`; `None` when
   * the box is dismissed) is created at `join(parentPath, dirName)`; the
   * service's answer carries the new directory's name, which is cut to its
   * basename.
   */
  function AskAndCreateChildDirectory(parentPath: string, share: string, dirName: Option<string>, answer: Outcome<string>)
    : (r: Creation)
    ensures r.call.Some? <==> dirName.Some? && dirName.value != ""
    ensures r.call.Some? ==> r.call.value == MakeDirectory(share, Join([parentPath, dirName.value]))
    ensures r.call.None? ==> r.node == Err(UserCancelled)
    ensures r.call.Some? && answer.Err? ==> r.node == Err(CreateFailed(answer.error))
    ensures r.node.Ok? <==> r.call.Some? && answer.Ok?
    ensures r.node.Ok? ==> r.node.value == DirNode(parentPath, Basename(answer.value), share)
  {
    if dirName.None? || dirName.value == "" then Creation(None, Err(UserCancelled))
    else
      var call := MakeDirectory(share, Join([parentPath, dirName.value]));
      match answer
      case Err(e) => Creation(Some(call), Err(CreateFailed(e)))
      case Ok(name) => Creation(Some(call), Ok(DirNode(parentPath, Basename(name), share)))
  }

  /**
   * When the service answers with the full path it was asked to create, the
   * node's name is the name entered, as it is in listings.
   */
  lemma CreatedNameIsEnteredName(parentPath: string, share: string, n: string)
    requires parentPath == "" || CleanRelative(parentPath)
    requires Plain(n)
    ensures var r := AskAndCreateChildDirectory(parentPath, share, Some(n), Ok(Join([parentPath, n])));
      r.node.Ok? && r.node.value.name == n
  {
    JoinCleanRelative(parentPath, n);
    if parentPath == "" {
      BasenameSingle(n, "");
      assert n + "" == n;
    } else {
      BasenameLast(parentPath, n, "");
      assert parentPath + "/" + n + "" == parentPath + "/" + n;
    }
  }
}
