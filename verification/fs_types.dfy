/** The host filesystem vocabulary every provider generation answers in. */
module FsTypes {
  import opened Wrappers

  /** `vscode.FileType`, restricted to the two kinds the providers report. */
  datatype FileType = File | Directory

  /** `vscode.FileStat` */
  datatype FileStat = FileStat(kind: FileType, ctime: int, mtime: int, size: int)

  /** The errors the providers throw. */
  datatype FsError =
    | FileNotFound                  // vscode.FileSystemError.FileNotFound
    | FileExists                    // vscode.FileSystemError.FileExists
    | FileNotADirectory             // vscode.FileSystemError.FileNotADirectory
    | FileIsADirectory              // vscode.FileSystemError.FileIsADirectory
    | NoPermissions                 // vscode.FileSystemError.NoPermissions
    | Error(message: string)        // new Error(message)
    | RangeError(message: string)   // new RangeError(message)
    | RemoteError(code: string)     // a failure reported by the storage service

  type Outcome<T> = Result<T, FsError>

  /** The stat every provider returns: times and size are always reported as 0. */
  function ZeroStat(kind: FileType): (s: FileStat)
    ensures s.kind == kind && s.ctime == 0 && s.mtime == 0 && s.size == 0
  {
    FileStat(kind, 0, 0, 0)
  }

  /**
   * What `parseUri(uri, marker)` answers for a URI below a marker such as
   * "Blob Containers" or "File Shares". `parseUri` is not part of this
   * model, so its answer is an input.
   */
  datatype ParsedUri = ParsedUri(
    rootPath: string,
    rootName: string,
    filePath: string,
    parentDirPath: string,
    dirPath: string,
    baseName: string)

  /** A request: the URI's path and its parsed form. */
  datatype Request = Request(path: string, parsed: ParsedUri)

  /** `throw new Error("Method not implemented.")` */
  const NotImplemented: FsError := Error("Method not implemented.")
}
