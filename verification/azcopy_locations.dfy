/**
 * The path part of AzCopy transfer locations. A folder location gets one
 * platform separator appended unless it already ends in one, a remote path
 * additionally gets a leading "/", and the wildcard flag is `!!isFolder`.
 * The separator is a parameter: it is "/" or "\" depending on the platform.
 */
module AzCopyLocations {
  import opened JsString

  datatype Location = Location(path: string, useWildCard: bool)

  /** The shared first step: a folder path is closed with the separator. */
  function WithSeparator(path: string, isFolder: bool, sep: char): (r: string)
    ensures StartsWith(r, path) && |r| <= |path| + 1
    ensures isFolder ==> EndsWith(r, [sep])
    ensures !isFolder || EndsWith(path, [sep]) ==> r == path
  {
    if isFolder && !EndsWith(path, [sep]) then path + [sep] else path
  }

  /** `createAzCopyLocalLocation(path, isFolder)`; an absent `isFolder` is `false`. */
  function LocalLocation(path: string, isFolder: bool, sep: char): (r: Location)
    ensures r.useWildCard == isFolder
    ensures isFolder ==> EndsWith(r.path, [sep])
    ensures !isFolder ==> r.path == path
    ensures StartsWith(r.path, path) && |r.path| <= |path| + 1
  {
    Location(WithSeparator(path, isFolder, sep), isFolder)
  }

  /** The path of `createAzCopyRemoteLocation(item, path, isFolder)`; the SAS part is not modelled. */
  function RemoteLocation(path: string, isFolder: bool, sep: char): (r: Location)
    ensures r.useWildCard == isFolder
    ensures |r.path| > 0 && r.path[0] == '/'
    ensures isFolder ==> EndsWith(r.path, [sep])
    ensures var q := WithSeparator(path, isFolder, sep);
      && (|q| > 0 && q[0] == '/' ==> r.path == q)
      && (|q| == 0 || q[0] != '/' ==> r.path == "/" + q)
  {
    var q := WithSeparator(path, isFolder, sep);
    Location(if |q| > 0 && q[0] == '/' then q else "/" + q, isFolder)
  }

  /** Normalising a local location's path again changes nothing. */
  lemma LocalIdempotent(path: string, isFolder: bool, sep: char)
    ensures var once := LocalLocation(path, isFolder, sep);
      LocalLocation(once.path, isFolder, sep) == once
  {
  }

  /** Normalising a remote location's path again changes nothing. */
  lemma RemoteIdempotent(path: string, isFolder: bool, sep: char)
    ensures var once := RemoteLocation(path, isFolder, sep);
      RemoteLocation(once.path, isFolder, sep) == once
  {
    var once := RemoteLocation(path, isFolder, sep);
    var q := WithSeparator(once.path, isFolder, sep);
    assert q == once.path;
  }

  /**
   * The empty path names the root: "/" for a file, and for a folder "/"
   * followed by the separator unless the separator is itself "/".
   */
  lemma RemoteEmpty(isFolder: bool, sep: char)
    ensures RemoteLocation("", isFolder, sep).path == if isFolder && sep != '/' then "/" + [sep] else "/"
  {
  }
}
