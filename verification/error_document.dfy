/**
 * The 404 error-document step of the static-website wizard: the path the
 * user types is checked for a leading or trailing "/" before its length is
 * checked, an empty path is accepted, and the prompt is prefilled with the
 * current setting or "index.html".
 */
module ErrorDocument {
  import opened Wrappers
  import opened JsString

  const MinLength := 3
  const MaxLength := 255
  const DefaultPath := "index.html"
  const SlashMessage := "The error document path start or end with a \"/\" character."
  const LengthMessage := "The error document path must be between 3 and 255 characters in length."

  /** A path the step accepts, stated without the order of the checks. */
  predicate Acceptable(p: string) {
    |p| == 0 || (MinLength <= |p| <= MaxLength && p[0] != '/' && p[|p| - 1] != '/')
  }

  /** `validateErrorDocumentName`: `undefined` or the message of the first failed check. */
  function Validate(p: string): (r: Option<string>)
    ensures r.None? <==> Acceptable(p)
    ensures r.Some? ==> |p| > 0
    ensures r == Some(SlashMessage) <==> |p| > 0 && (p[0] == '/' || p[|p| - 1] == '/')
    ensures r == Some(LengthMessage) <==>
      |p| > 0 && p[0] != '/' && p[|p| - 1] != '/' && (|p| < MinLength || |p| > MaxLength)
  {
    if |p| > 0 then
      if StartsWith(p, "/") || EndsWith(p, "/") then Some(SlashMessage)
      else if |p| < MinLength || |p| > MaxLength then Some(LengthMessage)
      else None
    else None
  }

  /** The prompt's prefilled value: `oldErrorDocument404Path || 'index.html'`. */
  function DefaultValue(current: Option<string>): (r: string)
    ensures |r| > 0
    ensures current.Some? && current.value != "" ==> r == current.value
    ensures current.None? || current.value == "" ==> r == DefaultPath
  {
    if current.Some? && current.value != "" then current.value else DefaultPath
  }

  /** The prefilled value passes validation whenever the current setting does. */
  lemma DefaultValueValid(current: Option<string>)
    requires current.Some? ==> Acceptable(current.value)
    ensures Validate(DefaultValue(current)).None?
  {
  }
}
