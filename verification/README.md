# Azure Storage explorer: virtual file systems, directory helpers and name rules

This project models, in Dafny, the core of the Azure Storage extension for
VS Code. It proves properties of that model.

- **The virtual file-system providers**, in their three generations:
  - the blob-container file system with its set of pending (not yet written)
    directories;
  - the root-map blob file system of the blob-container explorer;
  - the file-share file system of the file-share explorer;
  - the path-walking file-share provider, which pages the service's listings.
- **The blob directory tree item**: its name and path, paging, child creation
  and the depth-first folder deletion.
- **The file-share directory helpers**: creating a child directory, and the
  paged recursive deletion of a directory and its contents.
- **Validators**: the name validators of the container, file-share and queue
  group nodes, and the validator of the static website's 404 error document.
- **Other pieces**:
  - the paged `loadMoreChildren` of the group nodes;
  - the azCopy local and remote locations;
  - the access-level report and the save dialog of the blob node.

## Representation

**The remote service is data.**
- A blob container is a list of distinct blob names with a page size. Every
  listing call returns the first page, as the source's calls without a
  continuation token do.
- A file-share listing is a tree of pages. A continuation token is the index
  of the next page.
- A file-share mutation is a recorded call (`ShareOp`, `Call`), not a change
  to the snapshot.

**Functions the model does not define are parameters.** The results of URI
parsing, root finding and tree search are passed in:
- `parseUri`, `findRoot`, `findTreeItem`;
- the tree's `findTreeItem` used by `lookup`;
- `validateDirectoryName`.

**Semantics taken from JavaScript and node.** Module `JsString` gives the
JavaScript string methods their JavaScript edge cases:
- `indexOf` returns -1 when nothing matches;
- `substring` clamps its bounds and swaps them when they are reversed;
- `split` always returns at least one piece.

Module `PosixPath` models node's `path.posix` `normalize`, `join`,
`basename` and `extname`. Several call sites use the platform `path`
module instead; the model gives them the POSIX behaviour, which is what
they do on Linux and macOS (see "## Left out").

**Errors are values.** Errors are `FsError` values, for example
`FileNotFound`, `FileExists`, `NoPermissions` and `Error(message)`. Each
operation returns a `Result`.

**A proved consequence of the code.** A listed directory prefix ends in "/"
and a path segment never contains one. So the root-map blob file system never
enters a directory: `WalkTopLevelOnly` proves that its lookup only resolves
blobs at the top level of a container.

## Model

| member | source | states |
|---|---|---|
| BlobStore.ListDirectories | src/azureStorageExplorer/blobContainers/BlobContainerFS.ts:279-291 | the first page of the directory prefixes directly under `prefix`: no duplicates, each the next path level of a stored blob, and every such level when the container fits one page |
| BlobStore.ListBlobs | src/azureStorageExplorer/blobContainers/BlobContainerFS.ts:293-307 | the first page of blobs directly under `prefix`: each one exists, and every one is listed when the container fits one page |
| BlobStore.DirectoriesHaveSlash | src/azureStorageExplorer/blobContainers/BlobContainerFS.ts:279-291 | every listed directory prefix contains a "/" |
| BlobStore.Get | src/azureStorageExplorer/blobContainers/BlobContainerFS.ts:95-103 | a blob's text is found exactly when the blob exists |
| BlobStore.Put | src/azureStorageExplorer/blobContainers/BlobContainerFS.ts:142-152 | after the upload the blob holds the text; every other blob is unchanged; the set of names gains exactly this one |
| BlobStore.Delete | src/azureStorageExplorer/blobContainers/BlobContainerFS.ts:224-234 | the named blob no longer exists and every other blob is unchanged |
| OrderedSet.Insert | src/azureStorageExplorer/blobContainers/BlobContainerFS.ts:84 | `Set.add`: the member is added once, at the end, and a present member leaves the set as it was |
| OrderedSet.Without | src/azureStorageExplorer/blobContainers/BlobContainerFS.ts:163 | `Set.delete`: exactly that member is gone and the rest keep their order |
| BlobContainerFs.GetRoot | src/azureStorageExplorer/blobContainers/BlobContainerFS.ts:270-277 | succeeds only for a blob-container root; any other root gives the "not a container" error; a failed root search passes its error on |
| BlobContainerFs.Lookup | src/azureStorageExplorer/blobContainers/BlobContainerFS.ts:240-268 | root errors pass through; an empty file path is the container; a directory prefix listed under the parent gives the directory item (base name, parent path), even over a blob of the same name; otherwise a blob listed under the parent gives the blob item, and anything else is FileNotFound |
| BlobContainerFs.LookupSound | src/azureStorageExplorer/blobContainers/BlobContainerFS.ts:256-266 | a directory item is only given for a directory prefix listed under the parent, which some existing blob starts with; a blob item only for an existing blob |
| BlobContainerFs.LookupComplete | src/azureStorageExplorer/blobContainers/BlobContainerFS.ts:250-266 | in a container that fits one page, an existing blob directly under the parent is always found, as a blob unless a directory of that name shadows it |
| BlobContainerFs.LookupCompleteDirectory | src/azureStorageExplorer/blobContainers/BlobContainerFS.ts:256-260 | in a container that fits one page, a path naming the next directory level of some existing blob below the parent is found as a directory item |
| BlobContainerFs.Stat | src/azureStorageExplorer/blobContainers/BlobContainerFS.ts:33-51 | a pending directory stats as a directory; otherwise stat succeeds exactly when lookup does, is a File exactly for a blob and a Directory otherwise, and fails with lookup's own error; all times and sizes are zero |
| BlobContainerFs.CreateDirectory | src/azureStorageExplorer/blobContainers/BlobContainerFS.ts:83-85 | adds the path to the pending directories and leaves the blobs alone |
| BlobContainerFs.CreateDirectoryIdempotent | src/azureStorageExplorer/blobContainers/BlobContainerFS.ts:83-85 | creating the same directory twice is the same as creating it once |
| BlobContainerFs.CreateThenStat | src/azureStorageExplorer/blobContainers/BlobContainerFS.ts:35-37 | a directory just created stats as a directory, even though no blob exists under it |
| BlobContainerFs.TrimSlash | src/azureStorageExplorer/blobContainers/BlobContainerFS.ts:157-159 | drops one character exactly when the path ends in "/" |
| BlobContainerFs.UpOne | src/azureStorageExplorer/blobContainers/BlobContainerFS.ts:168 | cuts a path at its last "/", giving the empty path when there is none; the result is a strictly shorter prefix |
| BlobContainerFs.PendingChildren | src/azureStorageExplorer/blobContainers/BlobContainerFS.ts:66-77 | lists, as directories, the base name of every pending key whose parent is the path, and nothing else |
| BlobContainerFs.ListedEntries | src/azureStorageExplorer/blobContainers/BlobContainerFS.ts:62-64 | each listed blob becomes a File named by its base name; after the blobs, each listed prefix becomes a Directory, in listing order |
| BlobContainerFs.ReadDirectory | src/azureStorageExplorer/blobContainers/BlobContainerFS.ts:53-81 | succeeds exactly under a container root; gives the listed blobs and directories, then the pending children |
| BlobContainerFs.CreateThenReadDirectory | src/azureStorageExplorer/blobContainers/BlobContainerFS.ts:66-77 | a directory created under a path shows up when that path is read |
| BlobContainerFs.ReadDirectoryListsBlobs | src/azureStorageExplorer/blobContainers/BlobContainerFS.ts:59-64 | a blob directly under the path, in a container that fits one page, is listed as a File |
| BlobContainerFs.ReadFile | src/azureStorageExplorer/blobContainers/BlobContainerFS.ts:87-108 | succeeds exactly when the root is a container and the blob exists, with the blob's text; a root error passes through and a missing blob is the service's BlobNotFound error |
| BlobContainerFs.Retire | src/azureStorageExplorer/blobContainers/BlobContainerFS.ts:155-169 | the reference meaning of the pending-directory walk: the walked keys that are pending are removed; every other pending key stays |
| BlobContainerFs.RetireWalk | src/azureStorageExplorer/blobContainers/BlobContainerFS.ts:155-169 | the loop removes each ancestor key from the parent upward while it is pending; it stops at the first that is not, and equals Retire on the keys it visited |
| BlobContainerFs.WriteFile | src/azureStorageExplorer/blobContainers/BlobContainerFS.ts:110-172 | neither flag gives NoPermissions; the write succeeds exactly for create-if-absent or overwrite-if-present; otherwise FileExists or FileNotFound; a successful write stores the content, reading it back gives the content, and the ancestor pending directories are retired |
| BlobContainerFs.Purge | src/azureStorageExplorer/blobContainers/BlobContainerFS.ts:196-202 | keeps exactly the pending keys that do not start with the path |
| BlobContainerFs.Delete | src/azureStorageExplorer/blobContainers/BlobContainerFS.ts:175-204 | fails exactly when not recursive; never creates a blob; a blob is deleted; a directory loses its blobs (all of them when the container fits one page) and keeps those outside; a failed lookup or the container purges the pending keys under the path |
| BlobContainerFs.DeleteEach | src/azureStorageExplorer/blobContainers/BlobContainerFS.ts:211-213 | deletes each listed blob, recording it once |
| BlobContainerFs.DeleteFolder | src/azureStorageExplorer/blobContainers/BlobContainerFS.ts:206-222 | deletes only blobs under the directory, each once; an empty directory path changes nothing; when the container fits one page, every blob under the directory is deleted |
| BlobContainerFs.VisitPrefix | src/azureStorageExplorer/blobContainers/BlobContainerFS.ts:209-218 | one prefix of the work stack: its blobs deleted and its sub-prefixes pushed, keeping the walk's invariant |
| BlobContainerFs.Pop | src/azureStorageExplorer/blobContainers/BlobContainerFS.ts:220 | takes the top of the stack and visits it, so the set of blobs still to delete shrinks |
| BlobContainerFs.Rename | src/azureStorageExplorer/blobContainers/BlobContainerFS.ts:236-238 | always fails with the "not supported" error |
| BlobContainerFs.Watch | src/azureStorageExplorer/blobContainers/BlobContainerFS.ts:29-31 | always fails with "Method not implemented." |
| BlobRootMapFs.NameEnd | src/azureStorageExplorer/blobContainers/blobContainerFS.ts:121-122 | the first "/" after the container marker, or the end of the path |
| BlobRootMapFs.RootPath | src/azureStorageExplorer/blobContainers/blobContainerFS.ts:120-124 | the path cut just before the first "/" of the container name, so it contains no further "/" |
| BlobRootMapFs.CacheKey | src/azureStorageExplorer/blobContainers/blobContainerFS.ts:128 | the container name, without any "/" |
| BlobRootMapFs.Parts | src/azureStorageExplorer/blobContainers/blobContainerFS.ts:154-156 | at least one segment, none containing "/" |
| BlobRootMapFs.CacheKeyIsLookupKey | src/azureStorageExplorer/blobContainers/blobContainerFS.ts:128 | the key findRoot caches under is the key lookup searches for |
| BlobRootMapFs.FindRoot | src/azureStorageExplorer/blobContainers/blobContainerFS.ts:115-138 | a root that is not found is FileNotFound with the cache unchanged; a found root is cached under its container name and answered |
| BlobRootMapFs.FindRootCaches | src/azureStorageExplorer/blobContainers/blobContainerFS.ts:131-136 | after a successful lookup, every path with the same container name hits the cache |
| BlobRootMapFs.ListDirs | src/azureStorageExplorer/blobContainers/blobContainerFS.ts:192-204 | the directory listing of an existing container; a missing container is an error |
| BlobRootMapFs.ListBlobs | src/azureStorageExplorer/blobContainers/blobContainerFS.ts:206-220 | the blob listing of an existing container; a missing container is an error |
| BlobRootMapFs.Walk | src/azureStorageExplorer/blobContainers/blobContainerFS.ts:166-187 | no segments leaves the entry; a group or blob cannot be walked into; a blob reached exists; errors are FileNotFound or the service's |
| BlobRootMapFs.WalkStep | src/azureStorageExplorer/blobContainers/blobContainerFS.ts:170-186 | one segment matches a listed directory first, then a listed blob, and otherwise fails with FileNotFound |
| BlobRootMapFs.WalkTopLevelOnly | src/azureStorageExplorer/blobContainers/blobContainerFS.ts:174-179 | since listed prefixes end in "/", a walk over "/"-free segments never gives a directory and succeeds only with at most one segment |
| BlobRootMapFs.WalkFindsTopLevelBlob | src/azureStorageExplorer/blobContainers/blobContainerFS.ts:180-185 | a top-level blob of a container that fits one page is found |
| BlobRootMapFs.Lookup | src/azureStorageExplorer/blobContainers/blobContainerFS.ts:149-190 | a cache hit leaves the cache alone; a miss goes through findRoot; no cached root is ever changed; one segment gives a group or container; a blob comes from two segments and exists; never a directory |
| BlobRootMapFs.CachedLookupIgnoresTree | src/azureStorageExplorer/blobContainers/blobContainerFS.ts:158-160 | with a cached root, the tree search is never consulted |
| BlobRootMapFs.ContainerItemOnlyAtContainer | src/azureStorageExplorer/blobContainers/blobContainerFS.ts:155-172 | a container item is only answered for a path with nothing after the container name |
| BlobRootMapFs.LookupAsBlob | src/azureStorageExplorer/blobContainers/blobContainerFS.ts:140-146 | succeeds exactly when lookup gives a blob; any other item is FileIsADirectory |
| BlobRootMapFs.Stat | src/azureStorageExplorer/blobContainers/blobContainerFS.ts:32-46 | succeeds exactly when lookup does, as a File exactly for a blob, with zero times and size |
| BlobRootMapFs.Children | src/azureStorageExplorer/blobContainers/blobContainerFS.ts:51-73 | a group lists its containers as directories; a container lists its top-level directories and blobs; any other item lists nothing |
| BlobRootMapFs.ReadDirectory | src/azureStorageExplorer/blobContainers/blobContainerFS.ts:48-76 | the children of what lookup finds, or lookup's error |
| BlobRootMapFs.ContainerPrefixTopLevel | src/azureStorageExplorer/blobContainers/blobContainerFS.ts:59-60 | for a path ending at the container name, the listing prefix is empty |
| BlobRootMapFs.ReadFile | src/azureStorageExplorer/blobContainers/blobContainerFS.ts:82-100 | fails as lookupAsBlob does; otherwise reads the blob at the path's base name in the resolved container |
| BlobRootMapFs.BasenameOfSecondPart | src/azureStorageExplorer/blobContainers/blobContainerFS.ts:86 | for a two-segment path, the base name is the second segment |
| BlobRootMapFs.ReadFileReadsResolvedBlob | src/azureStorageExplorer/blobContainers/blobContainerFS.ts:82-89 | reading a path that resolves to a blob gives exactly that blob's text |
| BlobRootMapFs.CreateDirectory | src/azureStorageExplorer/blobContainers/blobContainerFS.ts:78-80 | always "Method not implemented." |
| BlobRootMapFs.WriteFile | src/azureStorageExplorer/blobContainers/blobContainerFS.ts:102-104 | always "Method not implemented." |
| BlobRootMapFs.Delete | src/azureStorageExplorer/blobContainers/blobContainerFS.ts:107-109 | always "Method not implemented." |
| BlobRootMapFs.Rename | src/azureStorageExplorer/blobContainers/blobContainerFS.ts:111-113 | always "Method not implemented." |
| BlobRootMapFs.Watch | src/azureStorageExplorer/blobContainers/blobContainerFS.ts:28-30 | always "Method not implemented." |
| ShareListing.Fetch | src/azureStroageExplorer/fileShares/directoryUtils.ts:53-64 | one listing call: the page the token points at (empty past the end), and a next token exactly when a later page exists |
| ShareListing.FindDir | src/azureStorageExplorer/fileShares/FileShareFS.ts:239 | the first directory with that name, and none exactly when no directory has it |
| FileShareFs.GetRoot | src/azureStorageExplorer/fileShares/FileShareFS.ts:256-265 | succeeds exactly for a file-share root; any other root is a RangeError; a failed search passes its error on |
| FileShareFs.Walk | src/azureStorageExplorer/fileShares/FileShareFS.ts:228-253 | no segments leaves the entry; a file cannot be walked into; every failure is FileNotFound; a success is a directory or file on the walked path |
| FileShareFs.WalkStep | src/azureStorageExplorer/fileShares/FileShareFS.ts:239-250 | each segment is matched on the first page, a directory before a file, and otherwise fails with FileNotFound |
| FileShareFs.WalkParentPath | src/azureStorageExplorer/fileShares/FileShareFS.ts:241-242 | the parent path built during the walk is the segments joined by "/" |
| FileShareFs.Lookup | src/azureStorageExplorer/fileShares/FileShareFS.ts:214-254 | an empty path is the share; otherwise the walk from the share; every answer belongs to the share |
| FileShareFs.LookupAsDirectory | src/azureStorageExplorer/fileShares/FileShareFS.ts:206-212 | succeeds exactly when lookup finds a non-file; a file is FileNotADirectory |
| FileShareFs.Stat | src/azureStorageExplorer/fileShares/FileShareFS.ts:39-61 | a path recorded as a listed file or directory stats as such, the file marker first; otherwise the lookup decides |
| FileShareFs.Listed | src/azureStorageExplorer/fileShares/FileShareFS.ts:75-92 | every file and directory child appears under its base name with its kind, and nothing else |
| FileShareFs.MarkersOf | src/azureStorageExplorer/fileShares/FileShareFS.ts:82-90 | records a file marker for each file child and a directory marker for each directory child |
| FileShareFs.ReadDirectory | src/azureStorageExplorer/fileShares/FileShareFS.ts:63-96 | succeeds exactly when the path is a directory, listing the children and recording their markers; a failure leaves the state alone |
| FileShareFs.ReadDirectoryThenStatFile | src/azureStorageExplorer/fileShares/FileShareFS.ts:41-42 | a file listed by readDirectory afterwards stats as a File, whatever the root search says |
| FileShareFs.ReadDirectoryThenStatDirectory | src/azureStorageExplorer/fileShares/FileShareFS.ts:43-44 | a directory listed by readDirectory afterwards stats as a Directory, unless the same name was recorded as a file |
| FileShareFs.CreateDirectory | src/azureStorageExplorer/fileShares/FileShareFS.ts:98-112 | a validation message is an error; otherwise the directory is created in the share |
| FileShareFs.ReadFile | src/azureStorageExplorer/fileShares/FileShareFS.ts:114-138 | root errors pass through; otherwise the text the service returns for the share's name, the parent directory and the base name, "" when it returns none, and its error when it fails |
| FileShareFs.WriteFile | src/azureStorageExplorer/fileShares/FileShareFS.ts:140-176 | neither flag gives NoPermissions; the upload happens exactly for create-if-absent or overwrite-if-present; otherwise FileExists or FileNotFound |
| FileShareFs.Delete | src/azureStorageExplorer/fileShares/FileShareFS.ts:179-197 | non-recursive fails; a file is deleted by name in its directory; a directory is deleted with its contents; a share is refused, so an empty file path never succeeds |
| FileShareFs.Rename | src/azureStorageExplorer/fileShares/FileShareFS.ts:199-204 | always fails with the rename message |
| FileShareFs.Watch | src/azureStorageExplorer/fileShares/FileShareFS.ts:35-37 | always "Method not implemented." |
| FileShareProvider.Drain | src/azureStorageExplorer/fileShares/fileShareFileSystemProvider.ts:143-156 | pages from the token on until the first page with a match, with the token after it; no match means the pages ran out |
| FileShareProvider.StepAsWritten | src/azureStorageExplorer/fileShares/fileShareFileSystemProvider.ts:138-190 | one segment as written; the walk stops exactly at a missing entry or a file |
| FileShareProvider.Descend | src/azureStorageExplorer/fileShares/fileShareFileSystemProvider.ts:158-181 | the page search in a share or directory, from the token left over; the share is kept; it always ends on an entry, a directory or file found or else the entry it started from, and on the latter whenever no page holds the name |
| FileShareProvider.RunAsWritten | src/azureStorageExplorer/fileShares/fileShareFileSystemProvider.ts:138-191 | the loop over segments as written: no segments answers the start |
| FileShareProvider.Step | src/azureStorageExplorer/fileShares/fileShareFileSystemProvider.ts:138-190 | one segment, with a fresh token: from the group a share with that name; from a share or directory a directory or file with that name |
| FileShareProvider.Found | src/azureStorageExplorer/fileShares/fileShareFileSystemProvider.ts:162-181 | a match in a share or directory is a directory or a file reached by a fresh page search |
| FileShareProvider.StepFoundIff | src/azureStorageExplorer/fileShares/fileShareFileSystemProvider.ts:138-181 | a segment steps exactly when some page has a share (from the group) or an entry (from a share or directory) with that name |
| FileShareProvider.Run | src/azureStorageExplorer/fileShares/fileShareFileSystemProvider.ts:138-191 | the corrected loop: no segments answers the start |
| FileShareProvider.RunFromListing | src/azureStorageExplorer/fileShares/fileShareFileSystemProvider.ts:169-180 | a successful walk from a share or directory ends at a directory or a file |
| FileShareProvider.RunSnoc | src/azureStorageExplorer/fileShares/fileShareFileSystemProvider.ts:138-191 | walking one more segment is one more step after the walk |
| FileShareProvider.FromGroup | src/azureStorageExplorer/fileShares/fileShareFileSystemProvider.ts:139-157 | the first segment picks the share from the group and the rest is walked inside it |
| FileShareProvider.Locate | src/azureStorageExplorer/fileShares/fileShareFileSystemProvider.ts:125-132 | with the shares marker present, the root path ends after the marker and the segments are the rest split on "/"; without it, the first ten characters |
| FileShareProvider.LocateExtend | src/azureStorageExplorer/fileShares/fileShareFileSystemProvider.ts:125-132 | appending "/name" keeps the root path and appends one segment |
| FileShareProvider.Answer | src/azureStorageExplorer/fileShares/fileShareFileSystemProvider.ts:183-190 | a stopped walk is FileNotFound unless silent, and then undefined; otherwise the walk's entry |
| FileShareProvider.Swallow | src/azureStorageExplorer/fileShares/fileShareFileSystemProvider.ts:121-122 | an error thrown inside the telemetry wrapper becomes undefined |
| FileShareProvider.LookupAsWritten | src/azureStorageExplorer/fileShares/fileShareFileSystemProvider.ts:121-197 | lookup as written: the located root, the segments walked as written, and the answer with errors swallowed |
| FileShareProvider.Lookup | src/azureStorageExplorer/fileShares/fileShareFileSystemProvider.ts:121-197 | lookup with the corrected walk |
| FileShareProvider.SilentIrrelevant | src/azureStorageExplorer/fileShares/fileShareFileSystemProvider.ts:183-195 | since the wrapper swallows the error, the silent flag never changes the answer |
| FileShareProvider.StatOf | src/azureStorageExplorer/fileShares/fileShareFileSystemProvider.ts:47-58 | for the entry found: a file is File, a share or directory is Directory, and anything else, the group or nothing, is FileNotFound |
| FileShareProvider.Stat | src/azureStorageExplorer/fileShares/fileShareFileSystemProvider.ts:45-60 | over the lookup as written: a file is File, a share or directory is Directory, and anything else is FileNotFound |
| FileShareProvider.StatIntended | src/azureStorageExplorer/fileShares/fileShareFileSystemProvider.ts:45-60 | the same answers over the corrected lookup |
| FileShareProvider.Tag | src/azureStorageExplorer/fileShares/fileShareFileSystemProvider.ts:68-74 | each name, in order, tagged with its kind |
| FileShareProvider.PageEntries | src/azureStorageExplorer/fileShares/fileShareFileSystemProvider.ts:68-74 | the page's directories and files, each with its kind, and nothing else |
| FileShareProvider.ListOf | src/azureStorageExplorer/fileShares/fileShareFileSystemProvider.ts:62-77 | for the entry found: the first page of a share or directory; anything else is FileNotADirectory |
| FileShareProvider.ReadDirectory | src/azureStorageExplorer/fileShares/fileShareFileSystemProvider.ts:62-77 | over the lookup as written: the first page of a share or directory; anything else is FileNotADirectory |
| FileShareProvider.ReadDirectoryIntended | src/azureStorageExplorer/fileShares/fileShareFileSystemProvider.ts:62-77 | the same answers over the corrected lookup |
| FileShareProvider.StepOnFirstPage | src/azureStorageExplorer/fileShares/fileShareFileSystemProvider.ts:162-180 | a name on the first page is found by a step, a directory before a file |
| FileShareProvider.ListedThenStep | src/azureStorageExplorer/fileShares/fileShareFileSystemProvider.ts:169-180 | a step to an entry of the first page's listing succeeds |
| FileShareProvider.LookupExtend | src/azureStorageExplorer/fileShares/fileShareFileSystemProvider.ts:125-138 | looking up "path/name" walks one step further than looking up "path" |
| FileShareProvider.ReadDirectoryThenStatIntended | src/azureStorageExplorer/fileShares/fileShareFileSystemProvider.ts:45-77 | with the corrected lookup, every entry readDirectory lists afterwards stats as its kind (a file unless a directory of that name is listed too) |
| FileShareProvider.RunAsWrittenSnoc | src/azureStorageExplorer/fileShares/fileShareFileSystemProvider.ts:138-191 | as written, walking one more segment is one more step after the walk, from the token it left |
| FileShareProvider.LookupAsWrittenExtend | src/azureStorageExplorer/fileShares/fileShareFileSystemProvider.ts:125-191 | as written, looking up "path/name" walks one step further than looking up "path" |
| FileShareProvider.StepAsWrittenFromListing | src/azureStorageExplorer/fileShares/fileShareFileSystemProvider.ts:158-181 | as written, a step from a share or directory always lands on an entry other than the group, and stays on the same entry when no page holds the name |
| FileShareProvider.StatUnderDirectory | src/azureStorageExplorer/fileShares/fileShareFileSystemProvider.ts:45-60 | as written, under a path readDirectory succeeds on, every name stats successfully, and a name no page holds stats as a Directory |
| FileShareProvider.StatIntendedUnderDirectory | src/azureStorageExplorer/fileShares/fileShareFileSystemProvider.ts:45-60 | with the corrected lookup, a name under such a path stats successfully exactly when some page of the listing holds it |
| FileShareProvider.DeleteOf | src/azureStorageExplorer/fileShares/fileShareFileSystemProvider.ts:91-111 | for the entry found: only a file is deleted, from its share and parent path; anything else is FileIsADirectory |
| FileShareProvider.Delete | src/azureStorageExplorer/fileShares/fileShareFileSystemProvider.ts:91-111 | over the lookup as written: only a file is deleted; anything else is FileIsADirectory |
| FileShareProvider.DeleteIntended | src/azureStorageExplorer/fileShares/fileShareFileSystemProvider.ts:91-111 | the same answers over the corrected lookup |
| FileShareProvider.Unsupported | src/azureStorageExplorer/fileShares/fileShareFileSystemProvider.ts:79-89 | the unimplemented operations fail with "Method not implemented." |
| FileShareProvider.StaleTokenSkipsFirstPage | src/azureStorageExplorer/fileShares/fileShareFileSystemProvider.ts:141-165 | a counterexample: as written, a file on a directory's first page is not found after a two-page share |
| FileShareProvider.IntendedWalk | src/azureStorageExplorer/fileShares/fileShareFileSystemProvider.ts:158-181 | with a fresh token per segment, the same path reaches the file |
| FileShareProvider.MissingSegmentKeepsParent | src/azureStorageExplorer/fileShares/fileShareFileSystemProvider.ts:158-181 | a counterexample: as written, an unmatched segment answers the parent; the corrected walk stops |
| DirectoryUtils.TreeOps | src/azureStroageExplorer/fileShares/directoryUtils.ts:66-89 | the reference order of the deletion calls, ending with deleting the directory itself |
| DirectoryUtils.FileOps | src/azureStroageExplorer/fileShares/directoryUtils.ts:72-75 | one file deletion per listed file, in order |
| DirectoryUtils.DeleteDirectoryAndContents | src/azureStroageExplorer/fileShares/directoryUtils.ts:66-89 | the paged loop makes exactly the reference calls |
| DirectoryUtils.DeletePage | src/azureStroageExplorer/fileShares/directoryUtils.ts:71-79 | one page: its files, then each sub-directory emptied and deleted |
| DirectoryUtils.DeleteFiles | src/azureStroageExplorer/fileShares/directoryUtils.ts:72-75 | the file deletions of one page |
| DirectoryUtils.PagesBelow | src/azureStroageExplorer/fileShares/directoryUtils.ts:72-79 | every call on the pages acts in or strictly inside the directory, in the same share |
| DirectoryUtils.SubsBelow | src/azureStroageExplorer/fileShares/directoryUtils.ts:77-79 | every call for a sub-directory acts strictly inside the directory |
| DirectoryUtils.DirectoryDeletedLastOnce | src/azureStroageExplorer/fileShares/directoryUtils.ts:87-88 | the directory is deleted exactly once, as the last call, and nothing outside it is touched |
| DirectoryUtils.EveryListedEntryDeleted | src/azureStroageExplorer/fileShares/directoryUtils.ts:72-79 | every listed file and sub-directory of every page gets its deletion call |
| DirectoryUtils.AskAndCreateChildDirectory | src/azureStroageExplorer/fileShares/directoryUtils.ts:17-38 | a dismissed or empty name is UserCancelled with no call; otherwise exactly one create call at the joined path; the node takes the base name of the answer |
| DirectoryUtils.CreatedNameIsEnteredName | src/azureStroageExplorer/fileShares/directoryUtils.ts:29-31 | when the service answers with the path asked for, the node's name is the name entered |
| Paging.LoadMore | src/azureStorageExplorer/fileShares/fileShareGroupNode.ts:32-52 | refresh lists from the start, otherwise from the stored token; the entries and the token kept are those of that one listing call; more children exactly when the service returned a truthy token (the container and queue group nodes page the same way, `blobContainerGroupNode.ts:29-45`, `queueGroupNode.ts:28-49`) |
| Paging.ServeNext | src/azureStorageExplorer/fileShares/fileShareGroupNode.ts:38-40 | the token stored after one page fetches the next page |
| Paging.LoadAll | src/azureStorageExplorer/fileShares/fileShareGroupNode.ts:38-52 | loading until no more children gives every page's entries in order, and then there are no more |
| BlobDirectoryItem.WithTrailingSlash | src/tree/blob/BlobDirectoryTreeItem.ts:34-36 | ends in "/", adding one only when missing |
| BlobDirectoryItem.New | src/tree/blob/BlobDirectoryTreeItem.ts:32-40 | the path ends in "/" and the name is its last segment, without "/" |
| BlobDirectoryItem.NewIdempotent | src/tree/blob/BlobDirectoryTreeItem.ts:34-39 | building an item from an item's own path gives the same item |
| BlobDirectoryItem.NameIsLastSegment | src/tree/blob/BlobDirectoryTreeItem.ts:39-44 | the label is the last segment of the path, with or without a trailing "/" |
| BlobDirectoryItem.CreateChild | src/tree/blob/BlobDirectoryTreeItem.ts:60-66 | a blob kind makes a blob; a directory kind makes a directory item in the same container |
| BlobDirectoryItem.ChildDirectoryPath | src/tree/blob/BlobDirectoryTreeItem.ts:64 | a child directory's path is the parent's followed by the name and "/", and its label is the name |
| BlobDirectoryItem.LoadMore | src/tree/blob/BlobDirectoryTreeItem.ts:46-58 | lists from the start on refresh and from the stored token otherwise; returns that listing's entries and stores its token, nothing else changes; more children exist exactly when the listing returned a truthy token |
| BlobDirectoryItem.VisitChildren | src/tree/blob/BlobDirectoryTreeItem.ts:97-109 | a directory's blobs are attempted and its folders pushed; the error flag records whether any attempt failed |
| BlobDirectoryItem.DeleteFolder | src/tree/blob/BlobDirectoryTreeItem.ts:89-115 | the stack walk attempts exactly the blobs of the reference depth-first sweep and reports whether any failed |
| BlobDirectoryItem.SweepContents | src/tree/blob/BlobDirectoryTreeItem.ts:89-112 | a blob is attempted exactly when it lies in the folder or in one of its sub-folders |
| BlobDirectoryItem.DeleteTreeItem | src/tree/blob/BlobDirectoryTreeItem.ts:68-87 | the "could not delete" error is raised exactly when some deletion failed |
| NameRules.FirstBroken | src/azureStorageExplorer/fileShares/fileShareGroupNode.ts:114-133 | the first check broken in the order of the validators; none exactly for a well-formed name |
| NameRules.Validate | src/azureStorageExplorer/fileShares/fileShareGroupNode.ts:111-134 | undefined exactly for a well-formed name; otherwise the message of a broken rule that every earlier check passed |
| NameRules.MessagesDistinct | src/azureStorageExplorer/fileShares/fileShareGroupNode.ts:114-131 | different rules give different messages |
| NameRules.ValidateContainerName | src/azureStorageExplorer/blobContainers/blobContainerGroupNode.ts:93-116 | accepts exactly the well-formed names; the empty name gets the "cannot be empty" message |
| NameRules.ValidateFileShareName | src/azureStorageExplorer/fileShares/fileShareGroupNode.ts:111-134 | accepts exactly the well-formed names; the empty name gets the "cannot be empty" message |
| NameRules.ValidateQueueName | src/azureStorageExplorer/queues/queueGroupNode.ts:97-120 | accepts exactly the well-formed names; the empty name gets the "cannot be empty" message |
| NameRules.SpacesBeforeLength | src/azureStorageExplorer/fileShares/fileShareGroupNode.ts:117-122 | " " is reported for its space, not its length |
| NameRules.LengthBeforeCharset | src/azureStorageExplorer/fileShares/fileShareGroupNode.ts:120-125 | a too-long name without spaces is reported for its length, whatever its characters |
| ErrorDocument.Validate | src/tree/createWizard/staticWebsiteErrorDocument404Step.ts:30-41 | accepts exactly the acceptable paths; the slash message exactly for a leading or trailing "/"; the length message exactly for a non-empty path without either whose length is below 3 or above 255 |
| ErrorDocument.DefaultValue | src/tree/createWizard/staticWebsiteErrorDocument404Step.ts:12-21 | the current setting when it is non-empty, otherwise the default "index.html" |
| ErrorDocument.DefaultValueValid | src/tree/createWizard/staticWebsiteErrorDocument404Step.ts:21-41 | the prefilled value passes the validator whenever the current setting does |
| AzCopyLocations.WithSeparator | src/commands/azCopy/azCopyLocations.ts:22-24 | a folder path ends in the separator, adding one only when missing |
| AzCopyLocations.LocalLocation | src/commands/azCopy/azCopyLocations.ts:21-26 | wildcard exactly for a folder; a folder path ends in the separator; a file path is unchanged |
| AzCopyLocations.RemoteLocation | src/commands/azCopy/azCopyLocations.ts:28-52 | wildcard exactly for a folder; the separated path unchanged when it already starts with "/", and "/" followed by it otherwise |
| AzCopyLocations.LocalIdempotent | src/commands/azCopy/azCopyLocations.ts:21-26 | making a local location of its own path changes nothing |
| AzCopyLocations.RemoteIdempotent | src/commands/azCopy/azCopyLocations.ts:28-51 | making a remote location of its own path changes nothing |
| AzCopyLocations.RemoteEmpty | src/commands/azCopy/azCopyLocations.ts:50 | the empty path becomes "/"; for a folder the separator follows it, unless the separator is "/" |
| BlobNode.FallThrough | src/azureStorageExplorer/blobContainers/blobNode.ts:39-49 | a switch without break runs to the end, so the last arm's assignment wins |
| BlobNode.ClassifyAsWritten | src/azureStorageExplorer/blobContainers/blobNode.ts:39-49 | as written, every access level ends up private and not publicly accessible |
| BlobNode.BlobLevelReportedPrivate | src/azureStorageExplorer/blobContainers/blobNode.ts:39-49 | the "blob" level is reported as private, where the corrected switch reports it public |
| BlobNode.Classify | src/azureStorageExplorer/blobContainers/blobNode.ts:39-49 | with breaks: public exactly for "blob" and "container", each with its own friendly name, and private otherwise |
| BlobNode.UrlMessageVerdict | src/azureStorageExplorer/blobContainers/blobNode.ts:52-58 | the line starts with the URL and says "and it is" exactly when the level is public, "but it is not" otherwise |
| BlobNode.MessageAsWrittenNeverPublic | src/azureStorageExplorer/blobContainers/blobNode.ts:39-58 | as written, every report says the blob is not publicly accessible |
| BlobNode.GetUrlVerdict | src/azureStorageExplorer/blobContainers/blobNode.ts:39-58 | with breaks, the report says "and it is" exactly for the "blob" and "container" levels |
| BlobNode.Filters | src/azureStorageExplorer/blobContainers/blobNode.ts:89-96 | "All files" first, and a second filter for the extension exactly when the name has one |
| BlobNode.FiltersWithExtension | src/azureStorageExplorer/blobContainers/blobNode.ts:89-96 | "stem.ext" gets the filter "*.ext" |
| BlobNode.FiltersWithoutExtension | src/azureStorageExplorer/blobContainers/blobNode.ts:89-96 | a name without a dot gets only "All files" |
| BlobNode.Download | src/azureStorageExplorer/blobContainers/blobNode.ts:98-105 | downloads exactly to a chosen `file:` location, at its path |

## Left out

- The Azure Storage SDK is a remote service: transport errors, authentication,
  retries and timing are not modelled. A call's outcome is a parameter where
  the source handles a failure.
- URI parsing, `findRoot`, `findTreeItem`, `validateDirectoryName`,
  `loadMoreBlobChildren` and `createChildAsNewBlockBlob` are defined outside
  the modelled files. Their results are parameters. So are the tree item's
  cached and freshly loaded children (`getCachedChildren` and
  `loadMoreChildrenImpl`, `FileShareFS.ts:67-72`), which
  `FileShareFs.ReadDirectory` reports.
- Telemetry is not modelled (`callWithTelemetryAndErrorHandling`,
  `suppressErrorDisplay`, the `_configUri` lists), except for one effect.
  Unless an operation sets `errorHandling.rethrow`, the wrapper catches an
  error, displays it and resolves with `undefined`. The model swallows errors
  this way only in the file-share provider's lookup (`Swallow`). Elsewhere an
  operation's model returns the error that is thrown inside the wrapper. For
  the operations below, the program instead displays that error and resolves.
  `findRoot.ts` is not part of this model; if it sets `rethrow` itself, only
  the errors raised before it is called are swallowed.
- BlobContainerFs.WriteFile: the program swallows its NoPermissions,
  FileNotFound and FileExists errors, and any root or service error. It does
  not set `rethrow` (`BlobContainerFS.ts:110-116`), so `writeFile` resolves
  without writing. The model returns these errors.
- FileShareFs.WriteFile: the same as `BlobContainerFs.WriteFile`
  (`FileShareFS.ts:140-147`).
- BlobContainerFs.ReadDirectory: the program swallows a root error or a
  listing error. It does not set `rethrow` and never calls lookup, which
  would set it (`BlobContainerFS.ts:53-60`). `readDirectory` then resolves
  with `undefined`, and the model returns the error. The stat operations
  and `FileShareFs.ReadDirectory` are unaffected: their errors are raised
  after lookup has set `rethrow`. The pending-directory answers of `stat`
  are not errors.
- Progress notifications, output-channel lines, input boxes and the
  "View Errors" button are user interface. For the group nodes' `createChild`
  only the validators are modelled; the prompt and the creation call are UI
  and SDK.
- `validateQuota` is left out because it works on floating-point numbers.
- File contents are strings: `Buffer` encoding and MIME type choice are left
  out.
- Concurrency is left out. Each operation runs to completion; no other
  operation interleaves with its awaits.
- String lengths are in characters; JavaScript counts UTF-16 code units.
- The platform `path.basename` and `path.extname` are modelled as their
  POSIX versions. On Windows they also split at "\" and drop a drive
  prefix. The model splits only at "/". This affects these sites:
  - `BlobContainerFS.ts:63-64`, for listed blob and directory names;
  - `blobContainerFS.ts:86`;
  - `FileShareFS.ts:78` and `FileShareFS.ts:85`;
  - `directoryUtils.ts:31`;
  - `BlobDirectoryTreeItem.ts:39`;
  - `blobNode.ts:89`.
- azCopy's SAS token, resource URI and `Date.now` expiry are left out
  (`azCopyLocations.ts:33-48`). The path separator is a parameter.
- Messages are the English default strings.
- These source branches cannot be reached, so they are not modelled:
  - `FileShareFS.ts:55-56`: lookup starts at a share, so it never answers the
    group.
  - `fileShareFileSystemProvider.ts:98`: `lookupAsFile` throws first.
  - `blobContainerFS.ts:162-164`: `findRoot` throws or gives a root.
- The listing `maxResults` of `directoryUtils.ts` is left out: page sizes are
  part of the listing data.
- BlobContainerFs.LookupComplete: completeness is stated only for a container
  whose names fit one listing page. The source lists only the first page.
- BlobContainerFs.Delete: for the same reason, removing every blob under a
  directory is stated only when the container fits one page.
- BlobContainerFs.DeleteFolder: the same one-page condition for completeness.
- BlobStore.ListBlobs: the same one-page condition for completeness.
- DirectoryUtils.DeleteDirectoryAndContents: the listing is a snapshot taken
  before any deletion. How the service pages a listing that changes under it
  is not modelled.
- BlobRootMapFs.Children: directories and blobs list nothing, as the source
  does (`blobContainerFS.ts:74`).

## Findings

| source | as written | input that shows it | evidently intended | confidence | as-written member | corrected member |
|---|---|---|---|---|---|---|
| src/azureStorageExplorer/blobContainers/blobNode.ts:39-49 | the `switch` on the access level has no `break`, so every case falls through to `default` | access level "blob" (or "container") | "blob" and "container" report public access with their own friendly names | not executed | BlobNode.ClassifyAsWritten (BlobNode.BlobLevelReportedPrivate, BlobNode.MessageAsWrittenNeverPublic) | BlobNode.Classify (BlobNode.GetUrlVerdict) |
| src/azureStorageExplorer/fileShares/fileShareFileSystemProvider.ts:141-165 | one function-scoped `continuationToken` is shared by all segments, so a segment's search starts at the page where the previous segment's match left off | share "s" whose listing has two pages with directory "a" on the first; file "b" on the only page of "a"; path "s/a/b" | each segment's search starts at its listing's first page | not executed | FileShareProvider.RunAsWritten (FileShareProvider.StaleTokenSkipsFirstPage) | FileShareProvider.Run (FileShareProvider.IntendedWalk, FileShareProvider.ReadDirectoryThenStatIntended) |
| src/azureStorageExplorer/fileShares/fileShareFileSystemProvider.ts:158-181 | a segment that matches nothing on any page leaves the entry unchanged, so lookup answers the parent | path "s/missing" in share "s" | the lookup fails with FileNotFound | not executed | FileShareProvider.Stat (FileShareProvider.MissingSegmentKeepsParent, FileShareProvider.StatUnderDirectory) | FileShareProvider.StatIntended (FileShareProvider.StatIntendedUnderDirectory) |
