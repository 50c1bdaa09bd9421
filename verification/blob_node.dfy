/**
 * The blob node of the first-generation explorer: the URL report of
 * `getUrl`, whose access-level `switch` has no `break` statements, and the
 * save dialog of `download`.
 *
 * A JavaScript `switch` jumps to the first case whose label equals the value
 * (or to `default` when none does) and then runs every following case body
 * until a `break`. The as-written classification runs that fall-through; the
 * corrected one stops after the matched case.
 */
module BlobNode {
  import opened Wrappers
  import opened JsString
  import PosixPath

  const BlobLevel := "Blob (anonymous read access for blobs only)"
  const ContainerLevel := "Container (anonymous read access for containers and blobs)"
  const PrivateLevel := "Private (no anonymous access)"

  /** The two variables the case bodies assign: `friendlyAccessLevel` and `canAccessPublicy`. */
  datatype Access = Access(friendly: string, canAccessPublicly: bool)

  /** One arm of a `switch`: a label (`None` for `default`) and the assignment its body makes. */
  datatype Arm = Arm(caseLabel: Option<string>, body: Access)

  /** The `switch (accessLevel)` of `getUrl`, arm by arm. */
  const AccessSwitch: seq<Arm> := [
    Arm(Some("blob"), Access(BlobLevel, true)),
    Arm(Some("container"), Access(ContainerLevel, true)),
    Arm(None, Access(PrivateLevel, false))
  ]

  /** The first arm labelled `v`, from `i` on. */
  function FindLabel(arms: seq<Arm>, v: string, i: nat): (r: nat)
    requires i <= |arms|
    decreases |arms| - i
    ensures i <= r <= |arms|
    ensures r < |arms| ==> arms[r].caseLabel == Some(v)
    ensures forall j :: i <= j < r ==> arms[j].caseLabel != Some(v)
  {
    if i == |arms| then i
    else if arms[i].caseLabel == Some(v) then i
    else FindLabel(arms, v, i + 1)
  }

  /** The `default` arm from `i` on, or `|arms|`. */
  function FindDefault(arms: seq<Arm>, i: nat): (r: nat)
    requires i <= |arms|
    decreases |arms| - i
    ensures i <= r <= |arms|
    ensures r < |arms| ==> arms[r].caseLabel.None?
  {
    if i == |arms| then i
    else if arms[i].caseLabel.None? then i
    else FindDefault(arms, i + 1)
  }

  /** Where execution enters the `switch`. */
  function Entry(arms: seq<Arm>, v: string): (r: nat)
    ensures r <= |arms|
  {
    var k := FindLabel(arms, v, 0);
    if k < |arms| then k else FindDefault(arms, 0)
  }

  /** Runs the arm bodies from `i` to the end without stopping: the last assignment wins. */
  function FallThrough(arms: seq<Arm>, i: nat, acc: Option<Access>): (r: Option<Access>)
    requires i <= |arms|
    decreases |arms| - i
    ensures i < |arms| ==> r == Some(arms[|arms| - 1].body)
    ensures i == |arms| ==> r == acc
  {
    if i == |arms| then acc else FallThrough(arms, i + 1, Some(arms[i].body))
  }

  /** Runs only the entered arm, as a `switch` with a `break` after every arm does. */
  function WithBreaks(arms: seq<Arm>, i: nat): (r: Option<Access>)
    requires i <= |arms|
  {
    if i < |arms| then Some(arms[i].body) else None
  }

  /** The classification of `getUrl` as written: fall-through from the matched arm. */
  function ClassifyAsWritten(accessLevel: string): (r: Access)
    ensures r == Access(PrivateLevel, false)
  {
    FallThrough(AccessSwitch, Entry(AccessSwitch, accessLevel), None).GetOr(Access(PrivateLevel, false))
  }

  /** A container whose level is "blob" is reported as private and not publicly accessible. */
  lemma BlobLevelReportedPrivate()
    ensures ClassifyAsWritten("blob").friendly == PrivateLevel
    ensures !ClassifyAsWritten("blob").canAccessPublicly
    ensures Classify("blob") == Access(BlobLevel, true)
  {
  }

  /** The classification with a `break` after each arm. */
  function Classify(accessLevel: string): (r: Access)
    ensures r.canAccessPublicly <==> accessLevel == "blob" || accessLevel == "container"
    ensures accessLevel == "blob" ==> r.friendly == BlobLevel
    ensures accessLevel == "container" ==> r.friendly == ContainerLevel
    ensures accessLevel != "blob" && accessLevel != "container" ==> r.friendly == PrivateLevel
  {
    assert FindLabel(AccessSwitch, accessLevel, 2) == 3;
    assert FindDefault(AccessSwitch, 1) == 2;
    WithBreaks(AccessSwitch, Entry(AccessSwitch, accessLevel)).GetOr(Access(PrivateLevel, false))
  }

  /** The opening of the line `getUrl` writes, up to the verdict. */
  function Opening(blobName: string, url: string): string {
    "The URL for blob '" + blobName + "' is " + url
  }

  /** ", and it is" for a public level, ", but it is not" otherwise. */
  function Verdict(canAccessPublicly: bool): (r: string)
    ensures |r| >= 5
    ensures r[..5] == if canAccessPublicly then ", and" else ", but"
  {
    if canAccessPublicly then ", and it is" else ", but it is not"
  }

  /** Why: the friendly access level, quoted. */
  function Reason(friendly: string): string {
    " publicly accessible because the container's public access level is set to '" + friendly + "'"
  }

  /** The line `getUrl` writes to the output channel: the opening, the verdict and the reason. */
  function UrlMessage(blobName: string, url: string, access: Access): (r: string)
    ensures |r| >= |Opening(blobName, url)| + 5
  {
    Opening(blobName, url) + (Verdict(access.canAccessPublicly) + Reason(access.friendly))
  }

  /**
   * The line opens with the URL and says "and it is" publicly accessible
   * exactly when the level allows it, "but it is not" otherwise.
   */
  lemma UrlMessageVerdict(blobName: string, url: string, access: Access)
    ensures var h := Opening(blobName, url); UrlMessage(blobName, url, access)[..|h|] == h
    ensures var h := Opening(blobName, url);
      UrlMessage(blobName, url, access)[|h|..|h| + 5] == if access.canAccessPublicly then ", and" else ", but"
  {
    var h, v := Opening(blobName, url), Verdict(access.canAccessPublicly);
    var m := h + (v + Reason(access.friendly));
    assert m[..|h|] == h;
    assert m[|h|..|h| + 5] == v[..5];
  }

  /** As written, every level gets the "not publicly accessible" message. */
  lemma MessageAsWrittenNeverPublic(blobName: string, url: string, accessLevel: string)
    ensures var h := Opening(blobName, url);
      UrlMessage(blobName, url, ClassifyAsWritten(accessLevel))[|h|..|h| + 5] == ", but"
  {
    UrlMessageVerdict(blobName, url, ClassifyAsWritten(accessLevel));
  }

  /** `getUrl` with a `break` after each arm: the line written for the container's access level. */
  function GetUrl(blobName: string, url: string, accessLevel: string): string {
    UrlMessage(blobName, url, Classify(accessLevel))
  }

  /** With the breaks, a "blob" or "container" level is reported publicly accessible and any other level not. */
  lemma GetUrlVerdict(blobName: string, url: string, accessLevel: string)
    ensures var h := Opening(blobName, url);
      |GetUrl(blobName, url, accessLevel)| >= |h| + 5 &&
      GetUrl(blobName, url, accessLevel)[|h|..|h| + 5] ==
        if accessLevel == "blob" || accessLevel == "container" then ", and" else ", but"
  {
    UrlMessageVerdict(blobName, url, Classify(accessLevel));
  }

  /** The save-dialog filters of `download`, in insertion order: name and extensions. */
  function Filters(blobName: string): (r: seq<(string, seq<string>)>)
    ensures |r| >= 1 && r[0] == ("All files", ["*"])
    ensures |r| == 2 <==> PosixPath.Extname(blobName) != ""
    ensures |r| == 2 ==> r[1] == ("*" + PosixPath.Extname(blobName), [PosixPath.Extname(blobName)])
  {
    var extension := PosixPath.Extname(blobName);
    [("All files", ["*"])] + (if extension != "" then [("*" + extension, [extension])] else [])
  }

  /** A name `stem.ext` gets a "*.ext" filter next to "All files". */
  lemma FiltersWithExtension(stem: string, ext: string)
    requires |stem| > 0 && |ext| > 0 && '/' !in stem && '/' !in ext && '.' !in ext
    ensures Filters(stem + "." + ext) == [("All files", ["*"]), ("*." + ext, ["." + ext])]
  {
    PosixPath.ExtnameLast(stem, ext);
    FiltersOf(stem + "." + ext, "." + ext);
    assert "*" + ("." + ext) == "*." + ext;
  }

  /** The filters of a name whose extension is `e`. */
  lemma FiltersOf(blobName: string, e: string)
    requires PosixPath.Extname(blobName) == e && e != ""
    ensures Filters(blobName) == [("All files", ["*"]), ("*" + e, [e])]
  {
    var r := Filters(blobName);
    assert r == [r[0], r[1]];
  }

  /** A name without a dot gets only the "All files" filter. */
  lemma FiltersWithoutExtension(blobName: string)
    requires '.' !in blobName
    ensures Filters(blobName) == [("All files", ["*"])]
  {
    PosixPath.NoDotNoExtension(blobName);
  }

  /** The location chosen in the save dialog. */
  datatype Target = Target(scheme: string, fsPath: string)

  /** `download`: the local path written to, only for a chosen `file:` location. */
  function Download(chosen: Option<Target>): (r: Option<string>)
    ensures r.Some? <==> chosen.Some? && chosen.value.scheme == "file"
    ensures r.Some? ==> r.value == chosen.value.fsPath
  {
    if chosen.Some? && chosen.value.scheme == "file" then Some(chosen.value.fsPath) else None
  }
}
