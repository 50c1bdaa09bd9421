/**
 * The blob directory tree item: a virtual directory of a blob container,
 * named by a path inside the container that always ends in "/". It pages its
 * children with a continuation token, creates sub-directories by joining
 * paths, and deletes itself by walking its cached sub-tree with a LIFO
 * worklist, trying every blob once and reporting whether any delete failed.
 */
module BlobDirectoryItem {
  import opened Wrappers
  import opened JsString
  import opened PosixPath
  import Paging

  /** A directory item: its path (ending in "/"), its name, its container and its paging token. */
  datatype Item = Item(dirPath: string, dirName: string, container: string, token: Option<string>)

  /** The constructor's normalisation: one "/" is appended unless the path already ends in one. */
  function WithTrailingSlash(p: string): (r: string)
    ensures EndsWith(r, "/")
    ensures StartsWith(r, p) && |r| <= |p| + 1
    ensures EndsWith(p, "/") ==> r == p
  {
    if EndsWith(p, "/") then p else p + "/"
  }

  /** `new BlobDirectoryTreeItem(parent, dirPath, container)`: the name is the basename of the normalised path. */
  function New(dirPath: string, container: string): (r: Item)
    ensures EndsWith(r.dirPath, "/")
    ensures r.dirName == Basename(r.dirPath) && '/' !in r.dirName
    ensures r.container == container && r.token == None
  {
    var p := WithTrailingSlash(dirPath);
    Item(p, Basename(p), container, None)
  }

  /** `label` */
  function Label(item: Item): string {
    item.dirName
  }

  /** Rebuilding an item from its own path leaves path and name as they were. */
  lemma NewIdempotent(dirPath: string, container: string)
    ensures var item := New(dirPath, container);
      New(item.dirPath, container) == item
  {
  }

  /** The name (and label) of a directory at a path of plain segments is the last segment. */
  lemma NameIsLastSegment(segs: seq<string>, trailing: bool, container: string)
    requires |segs| >= 1 && AllPlain(segs)
    ensures var item := New(JoinWith(segs, '/') + (if trailing then "/" else ""), container);
      item.dirPath == JoinWith(segs, '/') + "/" && Label(item) == segs[|segs| - 1]
  {
    var body := JoinWith(segs, '/');
    var p := body + (if trailing then "/" else "");
    assert WithTrailingSlash(p) == body + "/" by {
      JoinWithEnds(segs);
      if !trailing {
        assert p == body;
        assert !EndsWith(p, "/") by { assert p[|p| - 1..] == [p[|p| - 1]]; }
      }
    }
    BasenameOfJoin(segs);
  }

  /** The basename of plain segments joined by "/", with one trailing "/", is the last segment. */
  lemma BasenameOfJoin(segs: seq<string>)
    requires |segs| >= 1 && AllPlain(segs)
    ensures Basename(JoinWith(segs, '/') + "/") == segs[|segs| - 1]
  {
    var last := segs[|segs| - 1];
    assert Plain(last);
    if |segs| == 1 {
      BasenameSingle(last, "/");
    } else {
      var h := JoinWith(segs[..|segs| - 1], '/');
      JoinWithLast(segs);
      BasenameLast(h, last, "/");
    }
  }

  /** What `createChildImpl` is asked to create. */
  datatype ChildType = BlobChild | DirectoryChild

  /** What `createChildImpl` answers; a new blob comes from a helper outside this model. */
  datatype Created = NewBlob(name: string) | NewDirectory(item: Item)

  /** `createChildImpl`: a directory child is constructed at `path.posix.join(dirPath, childName)`. */
  function CreateChild(item: Item, kind: ChildType, childName: string): (r: Created)
    ensures kind == BlobChild <==> r.NewBlob?
    ensures r.NewDirectory? ==> EndsWith(r.item.dirPath, "/") && r.item.container == item.container
  {
    match kind
    case BlobChild => NewBlob(childName)
    case DirectoryChild => NewDirectory(New(Join([item.dirPath, childName]), item.container))
  }

  /**
   * Under a directory at `q + "/"` with plain segments, a child directory
   * `name` lives at `q + "/" + name + "/"` and is labelled `name`.
   */
  lemma ChildDirectoryPath(item: Item, q: string, name: string)
    requires item.dirPath == q + "/" && CleanRelative(q) && Plain(name)
    ensures CreateChild(item, DirectoryChild, name).item.dirPath == item.dirPath + name + "/"
    ensures Label(CreateChild(item, DirectoryChild, name).item) == name
  {
    JoinAfterSlash(q, name);
    var p := q + "/" + name;
    assert p[|p| - 1] == name[|name| - 1] && name[|name| - 1] in name;
    assert !EndsWith(p, "/") by { assert p[|p| - 1..] == [p[|p| - 1]]; }
    BasenameLast(q, name, "/");
  }

  /** `loadMoreChildrenImpl(clearCache)`: the children listed and the item with the returned token stored. */
  function LoadMore<C>(item: Item, clearCache: bool, list: Option<string> -> Paging.Reply<C>): (r: (seq<C>, Item))
    ensures r.1 == item.(token := r.1.token)
    ensures r.0 == list(if clearCache then None else item.token).entries
    ensures r.1.token == list(if clearCache then None else item.token).next
    ensures Paging.HasMore(r.1.token) <==> Paging.Truthy(list(if clearCache then None else item.token).next)
  {
    var loaded := Paging.LoadMore(item.token, clearCache, list);
    (loaded.0, item.(token := loaded.1))
  }

  /** `hasMoreChildrenImpl()` */
  predicate HasMoreChildren(item: Item) {
    Paging.HasMore(item.token)
  }

  /** The cached children of a directory: blobs, sub-directories and anything else. */
  datatype Node = Node(children: seq<Child>)
  datatype Child = Blob(path: string) | Folder(node: Node) | OtherChild

  /** The blob paths among the first children, in child order. */
  function Own(cs: seq<Child>): (r: seq<string>)
    ensures forall x :: x in r <==> exists i :: 0 <= i < |cs| && cs[i] == Blob(x)
  {
    if |cs| == 0 then []
    else
      var last := cs[|cs| - 1];
      assert forall i :: 0 <= i < |cs| - 1 ==> cs[..|cs| - 1][i] == cs[i];
      Own(cs[..|cs| - 1]) + (if last.Blob? then [last.path] else [])
  }

  /** The sub-directories among the children, in child order: what the walk pushes. */
  function Folders(cs: seq<Child>): seq<Node> {
    if |cs| == 0 then []
    else
      var last := cs[|cs| - 1];
      Folders(cs[..|cs| - 1]) + (if last.Folder? then [last.node] else [])
  }

  /**
   * The reference order of the walk: a directory's own blobs, then its
   * sub-directories from the last pushed to the first, each one fully.
   */
  function Sweep(n: Node): seq<string>
    decreases n, 1
  {
    Own(n.children) + Descend(n, |n.children|)
  }

  /** The sweeps of the sub-directories among the first `k` children of `n`, last first. */
  function Descend(n: Node, k: nat): seq<string>
    requires k <= |n.children|
    decreases n, 0, k
  {
    if k == 0 then []
    else
      var c := n.children[k - 1];
      (if c.Folder? then Sweep(c.node) else []) + Descend(n, k - 1)
  }

  /** The number of directories in a sub-tree: the walk's termination measure. */
  function Count(n: Node): nat
    decreases n, 1
  {
    1 + CountBelow(n, |n.children|)
  }

  function CountBelow(n: Node, k: nat): nat
    requires k <= |n.children|
    decreases n, 0, k
  {
    if k == 0 then 0
    else
      var c := n.children[k - 1];
      (if c.Folder? then Count(c.node) else 0) + CountBelow(n, k - 1)
  }

  /** What is left to do for a worklist: the sweep of its top, then of the rest. */
  function SweepStack(stack: seq<Node>): seq<string> {
    if |stack| == 0 then [] else Sweep(stack[|stack| - 1]) + SweepStack(stack[..|stack| - 1])
  }

  function CountStack(stack: seq<Node>): nat {
    if |stack| == 0 then 0 else Count(stack[|stack| - 1]) + CountStack(stack[..|stack| - 1])
  }

  /** Pushing the sub-directories of the first `k` children puts their sweeps in front of the rest. */
  lemma {:induction false} PushFolders(rest: seq<Node>, n: Node, k: nat)
    requires k <= |n.children|
    ensures SweepStack(rest + Folders(n.children[..k])) == Descend(n, k) + SweepStack(rest)
    decreases k
  {
    if k == 0 {
      assert rest + Folders(n.children[..0]) == rest;
    } else {
      PushFolders(rest, n, k - 1);
      if n.children[k - 1].Folder? {
        PushFolderChild(rest, n, k);
      } else {
        PushOtherChild(rest, n, k);
      }
    }
  }

  /** `PushFolders` one child further, when that child is a sub-directory. */
  lemma PushFolderChild(rest: seq<Node>, n: Node, k: nat)
    requires 0 < k <= |n.children| && n.children[k - 1].Folder?
    requires SweepStack(rest + Folders(n.children[..k - 1])) == Descend(n, k - 1) + SweepStack(rest)
    ensures SweepStack(rest + Folders(n.children[..k])) == Descend(n, k) + SweepStack(rest)
  {
    var c := n.children[k - 1];
    var pushed := rest + Folders(n.children[..k - 1]);
    var a, b := Sweep(c.node), Descend(n, k - 1);
    assert SweepStack(rest + Folders(n.children[..k])) == a + SweepStack(pushed) by {
      PushOne(rest, n, k);
      assert (pushed + [c.node])[..|pushed|] == pushed;
    }
    assert a + (b + SweepStack(rest)) == (a + b) + SweepStack(rest);
  }

  /** `PushFolders` one child further, when that child is not a sub-directory. */
  lemma PushOtherChild(rest: seq<Node>, n: Node, k: nat)
    requires 0 < k <= |n.children| && !n.children[k - 1].Folder?
    requires SweepStack(rest + Folders(n.children[..k - 1])) == Descend(n, k - 1) + SweepStack(rest)
    ensures SweepStack(rest + Folders(n.children[..k])) == Descend(n, k) + SweepStack(rest)
  {
    var pushed := rest + Folders(n.children[..k - 1]);
    assert rest + Folders(n.children[..k]) == pushed by {
      PushOne(rest, n, k);
      assert pushed + [] == pushed;
    }
    assert Descend(n, k) == Descend(n, k - 1) by { assert [] + Descend(n, k - 1) == Descend(n, k - 1); }
  }

  /** Pushing the sub-directories of one more child: its node if it is one, nothing otherwise. */
  lemma PushOne(rest: seq<Node>, n: Node, k: nat)
    requires 0 < k <= |n.children|
    ensures var c := n.children[k - 1];
      rest + Folders(n.children[..k])
        == rest + Folders(n.children[..k - 1]) + (if c.Folder? then [c.node] else [])
  {
    assert n.children[..k][..k - 1] == n.children[..k - 1];
  }

  /** Pushing the sub-directories of the first `k` children adds their directory counts. */
  lemma {:induction false} PushFoldersCount(rest: seq<Node>, n: Node, k: nat)
    requires k <= |n.children|
    ensures CountStack(rest + Folders(n.children[..k])) == CountBelow(n, k) + CountStack(rest)
    decreases k
  {
    if k == 0 {
      assert rest + Folders(n.children[..0]) == rest;
    } else {
      var c := n.children[k - 1];
      var pushed := rest + Folders(n.children[..k - 1]);
      PushFoldersCount(rest, n, k - 1);
      PushOne(rest, n, k);
      if c.Folder? {
        assert (pushed + [c.node])[..|pushed|] == pushed;
      } else {
        assert pushed + [] == pushed;
      }
    }
  }

  /** The work left when `dir` is being visited and `stack` waits. */
  function Pending(dir: Option<Node>, stack: seq<Node>): seq<string> {
    (if dir.Some? then Sweep(dir.value) else []) + SweepStack(stack)
  }

  /** Visiting `n` moves its own blobs to the attempted list and its sub-directories onto the worklist. */
  lemma VisitStep(done: seq<string>, n: Node, before: seq<Node>)
    ensures (done + Own(n.children)) + SweepStack(before + Folders(n.children)) == done + Pending(Some(n), before)
    ensures CountStack(before + Folders(n.children)) < Count(n) + CountStack(before)
  {
    var pushed := before + Folders(n.children);
    assert n.children[..|n.children|] == n.children;
    assert CountStack(pushed) == CountBelow(n, |n.children|) + CountStack(before) by {
      PushFoldersCount(before, n, |n.children|);
    }
    var own, below, rest := Own(n.children), Descend(n, |n.children|), SweepStack(before);
    assert SweepStack(pushed) == below + rest by {
      PushFolders(before, n, |n.children|);
    }
    assert Pending(Some(n), before) == (own + below) + rest;
    assert (done + own) + (below + rest) == done + ((own + below) + rest);
  }

  /** Some attempted delete failed. */
  predicate AnyFails(paths: seq<string>, fails: string -> bool) {
    exists i :: 0 <= i < |paths| && fails(paths[i])
  }

  /** Attempts the blob children of one directory and pushes its sub-directories. */
  method VisitChildren(n: Node, fails: string -> bool, stack0: seq<Node>, errors0: bool, attempted0: seq<string>)
    returns (stack: seq<Node>, errors: bool, attempted: seq<string>)
    requires errors0 <==> AnyFails(attempted0, fails)
    ensures stack == stack0 + Folders(n.children)
    ensures attempted == attempted0 + Own(n.children)
    ensures errors <==> AnyFails(attempted, fails)
  {
    stack, errors, attempted := stack0, errors0, attempted0;
    var i := 0;
    while i < |n.children|
      invariant 0 <= i <= |n.children|
      invariant stack == stack0 + Folders(n.children[..i])
      invariant attempted == attempted0 + Own(n.children[..i])
      invariant errors <==> AnyFails(attempted, fails)
    {
      var c := n.children[i];
      assert n.children[..i + 1][..i] == n.children[..i];
      match c {
        case Blob(p) =>
          if fails(p) {
            errors := true;
          }
          assert (attempted + [p])[|attempted|] == p;
          assert forall j :: 0 <= j < |attempted| ==> (attempted + [p])[j] == attempted[j];
          attempted := attempted + [p];
        case Folder(m) =>
          stack := stack + [m];
        case OtherChild =>
      }
      i := i + 1;
    }
    assert n.children[..i] == n.children;
  }

  /**
   * `deleteFolder`: starting at `root`, attempt every blob child and push
   * every sub-directory, then pop the next directory, until the worklist is
   * empty. A failed delete is recorded and the walk goes on.
   */
  method DeleteFolder(root: Node, fails: string -> bool) returns (errors: bool, attempted: seq<string>)
    ensures attempted == Sweep(root)
    ensures errors <==> AnyFails(attempted, fails)
  {
    var dir: Option<Node> := Some(root);
    var stack: seq<Node> := [];
    errors, attempted := false, [];
    while dir.Some?
      invariant attempted + Pending(dir, stack) == Sweep(root)
      invariant errors <==> AnyFails(attempted, fails)
      invariant dir.None? ==> stack == []
      decreases (if dir.Some? then Count(dir.value) else 0) + CountStack(stack)
    {
      var n := dir.value;
      var before := stack;
      ghost var done := attempted;
      stack, errors, attempted := VisitChildren(n, fails, stack, errors, attempted);
      VisitStep(done, n, before);
      if |stack| > 0 {
        dir, stack := Some(stack[|stack| - 1]), stack[..|stack| - 1];
      } else {
        dir := None;
      }
    }
  }

  /** Every blob a directory holds, directly or in any sub-directory, is in its sweep, and nothing else. */
  lemma {:induction false} SweepContents(n: Node, x: string)
    ensures x in Sweep(n) <==>
      (exists i :: 0 <= i < |n.children| && n.children[i] == Blob(x)) ||
      (exists i :: 0 <= i < |n.children| && n.children[i].Folder? && x in Sweep(n.children[i].node))
  {
    DescendContents(n, |n.children|, x);
  }

  lemma {:induction false} DescendContents(n: Node, k: nat, x: string)
    requires k <= |n.children|
    ensures x in Descend(n, k) <==>
      exists i :: 0 <= i < k && n.children[i].Folder? && x in Sweep(n.children[i].node)
    decreases k
  {
    if k > 0 {
      DescendContents(n, k - 1, x);
    }
  }

  /** The error `deleteTreeItemImpl` throws. */
  function DeleteErrorMessage(dirName: string): string {
    "Errors occurred when deleting \"" + dirName + "\"."
  }

  /** `deleteTreeItemImpl`: throws exactly when some blob delete of the walk failed. */
  method DeleteTreeItem(item: Item, root: Node, fails: string -> bool) returns (r: Option<string>)
    ensures r.Some? <==> AnyFails(Sweep(root), fails)
    ensures r.Some? ==> r.value == DeleteErrorMessage(item.dirName)
  {
    var errors, attempted := DeleteFolder(root, fails);
    if errors {
      r := Some(DeleteErrorMessage(item.dirName));
    } else {
      r := None;
    }
  }
}
