/**
 * The remote side of a blob container, reduced to what the providers ask of
 * it: a sequence of distinct blob names (with their text) in the order the
 * service lists them, and the listing calls the providers make with no
 * continuation token, which therefore only ever see the first page.
 */
module BlobStore {
  import opened Wrappers
  import opened JsString
  import opened OrderedSet

  /**
   * One container: the blob names in listing order, each blob's text, and
   * how many entries a first page holds.
   */
  datatype Container = Container(names: seq<string>, text: map<string, string>, pageSize: nat)

  /** Blob names in a container are unique, and every listed blob has a text. */
  predicate Valid(c: Container) {
    NoDup(c.names) && (forall n :: n in c.names ==> n in c.text) && (forall n :: n in c.text ==> n in c.names)
  }

  /** The blob `name` exists (`doesBlobExist`). */
  predicate Exists(c: Container, name: string) {
    name in c.names
  }

  /** The first page of a listing. */
  function FirstPage<T>(s: seq<T>, n: nat): (r: seq<T>)
    ensures |r| <= n && |r| <= |s|
    ensures r == s[..|r|]
    ensures |s| <= n ==> r == s
    ensures forall x :: x in r ==> x in s
  {
    if |s| <= n then s else s[..n]
  }

  /** `name` lies directly under `prefix`: no "/" follows the prefix. */
  predicate DirectlyUnder(name: string, prefix: string) {
    StartsWith(name, prefix) && '/' !in name[|prefix|..]
  }

  /** `name` lies in some virtual directory below `prefix`. */
  predicate Deeper(name: string, prefix: string) {
    StartsWith(name, prefix) && '/' in name[|prefix|..]
  }

  /** The virtual directory one level below `prefix` holding `name`, with its trailing "/". */
  function NextLevel(name: string, prefix: string): (d: string)
    requires Deeper(name, prefix)
    ensures StartsWith(d, prefix) && StartsWith(name, d)
    ensures |prefix| < |d| && d[|d| - 1] == '/'
    ensures '/' !in d[|prefix|..|d| - 1]
  {
    var k := IndexOfChar(name[|prefix|..], '/');
    assert name[|prefix|..][..k] == name[|prefix|..|prefix| + k];
    name[..|prefix| + k + 1]
  }

  /** Names directly under `prefix`, in listing order. */
  function DirectBlobs(names: seq<string>, prefix: string): (r: seq<string>)
    ensures |r| <= |names|
    ensures forall x :: x in r <==> x in names && DirectlyUnder(x, prefix)
    ensures NoDup(names) ==> NoDup(r)
  {
    if |names| == 0 then []
    else
      var rest := DirectBlobs(names[1..], prefix);
      if DirectlyUnder(names[0], prefix) then
        assert names[0] !in names[1..] ==> names[0] !in rest;
        [names[0]] + rest
      else rest
  }

  /** `d` is a directory prefix one level below `prefix` holding some name of `names`. */
  ghost predicate IsLevel(d: string, names: seq<string>, prefix: string) {
    && StartsWith(d, prefix) && |prefix| < |d| && d[|d| - 1] == '/' && '/' !in d[|prefix|..|d| - 1]
    && exists n :: n in names && StartsWith(n, d)
  }

  /** The next-level directory of every deeper name, in listing order, possibly repeated. */
  function Levels(names: seq<string>, prefix: string): (r: seq<string>)
    ensures |r| <= |names|
    ensures forall x :: x in r ==> IsLevel(x, names, prefix)
    ensures forall n :: n in names && Deeper(n, prefix) ==> NextLevel(n, prefix) in r
  {
    if |names| == 0 then []
    else
      var rest := Levels(names[1..], prefix);
      assert forall x :: x in rest ==> IsLevel(x, names, prefix) by {
        forall x | x in rest
          ensures IsLevel(x, names, prefix)
        {
          var n :| n in names[1..] && StartsWith(n, x);
          assert n in names;
        }
      }
      if Deeper(names[0], prefix) then
        assert names[0] in names && StartsWith(names[0], NextLevel(names[0], prefix));
        [NextLevel(names[0], prefix)] + rest
      else rest
  }

  /** Keeps the first occurrence of each element. */
  function Dedupe(s: seq<string>): (r: seq<string>)
    ensures |r| <= |s| && NoDup(r)
    ensures forall x :: x in r <==> x in s
  {
    if |s| == 0 then []
    else
      var r := Dedupe(s[..|s| - 1]);
      assert s == s[..|s| - 1] + [s[|s| - 1]];
      if s[|s| - 1] in r then r else r + [s[|s| - 1]]
  }

  /** `listBlobsSegmentedWithPrefix(container, prefix, undefined, { delimiter: '/' })` */
  function ListBlobs(c: Container, prefix: string): (r: seq<string>)
    ensures |r| <= c.pageSize
    ensures forall x :: x in r ==> Exists(c, x) && DirectlyUnder(x, prefix)
    ensures |c.names| <= c.pageSize ==> forall x :: Exists(c, x) && DirectlyUnder(x, prefix) ==> x in r
    ensures Valid(c) ==> NoDup(r)
  {
    var all := DirectBlobs(c.names, prefix);
    var r := FirstPage(all, c.pageSize);
    assert forall i, j :: 0 <= i < j < |r| ==> r[i] == all[i] && r[j] == all[j];
    r
  }

  /** `listBlobDirectoriesSegmentedWithPrefix(container, prefix, undefined)` */
  function ListDirectories(c: Container, prefix: string): (r: seq<string>)
    ensures |r| <= c.pageSize && NoDup(r)
    ensures forall d :: d in r ==> IsLevel(d, c.names, prefix)
    ensures |c.names| <= c.pageSize ==>
      forall n :: Exists(c, n) && Deeper(n, prefix) ==> NextLevel(n, prefix) in r
  {
    var all := Dedupe(Levels(c.names, prefix));
    var r := FirstPage(all, c.pageSize);
    assert forall i, j :: 0 <= i < j < |r| ==> r[i] == all[i] && r[j] == all[j];
    r
  }

  /** Every listed directory prefix contains a "/" (its last character). */
  lemma DirectoriesHaveSlash(c: Container, prefix: string)
    ensures forall d :: d in ListDirectories(c, prefix) ==> '/' in d
  {
    forall d | d in ListDirectories(c, prefix)
      ensures '/' in d
    {
      assert IsLevel(d, c.names, prefix);
      assert d[|d| - 1] == '/';
    }
  }

  /** `getBlobToText`: the blob's text, or None when it does not exist. */
  function Get(c: Container, name: string): (r: Option<string>)
    requires Valid(c)
    ensures r.Some? <==> Exists(c, name)
  {
    if name in c.text then Some(c.text[name]) else None
  }

  /** `createBlockBlobFromText`: overwrites the blob in place, or appends a new one. */
  function Put(c: Container, name: string, text: string): (r: Container)
    requires Valid(c)
    ensures Valid(r) && r.pageSize == c.pageSize
    ensures Get(r, name) == Some(text)
    ensures forall n :: n != name ==> Get(r, n) == Get(c, n)
    ensures forall n :: Exists(r, n) <==> Exists(c, n) || n == name
    ensures Exists(c, name) ==> r.names == c.names
  {
    if name in c.names then Container(c.names, c.text[name := text], c.pageSize)
    else Container(c.names + [name], c.text[name := text], c.pageSize)
  }

  /** `deleteBlob`: removes the blob, keeping the others in order. */
  function Delete(c: Container, name: string): (r: Container)
    requires Valid(c)
    ensures Valid(r) && r.pageSize == c.pageSize
    ensures |r.names| <= |c.names|
    ensures forall n :: Exists(r, n) <==> Exists(c, n) && n != name
    ensures forall n :: n != name ==> Get(r, n) == Get(c, n)
  {
    Container(Without(c.names, name), c.text - {name}, c.pageSize)
  }
}
