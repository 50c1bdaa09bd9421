/**
 * The name rules the group nodes enforce when a container, file share or
 * queue is created. One validator, parameterised by the noun in its
 * messages, runs six checks in a fixed order and answers the message of the
 * first one that fails, or `undefined` when every check passes.
 */
module NameRules {
  import opened Wrappers
  import opened JsString

  const MinLength := 3
  const MaxLength := 63

  /** The checks, in the order the validators run them. */
  datatype Rule = NotEmpty | NoSpaces | LengthInRange | Charset | NoDoubleHyphen | NoEdgeHyphen

  function Rank(rule: Rule): nat {
    match rule
    case NotEmpty => 0
    case NoSpaces => 1
    case LengthInRange => 2
    case Charset => 3
    case NoDoubleHyphen => 4
    case NoEdgeHyphen => 5
  }

  /** `/^[a-z0-9-]+$/` accepts this character. */
  predicate Allowed(c: char) {
    ('a' <= c <= 'z') || ('0' <= c <= '9') || c == '-'
  }

  /** `name` breaks `rule`. */
  predicate Breaks(rule: Rule, name: string) {
    match rule
    case NotEmpty => |name| == 0
    case NoSpaces => ' ' in name  // `name.indexOf(" ") >= 0`, see JsString.IndexOfSingle
    case LengthInRange => |name| < MinLength || |name| > MaxLength
    case Charset => !(|name| > 0 && forall i :: 0 <= i < |name| ==> Allowed(name[i]))
    case NoDoubleHyphen => exists i :: 0 <= i < |name| - 1 && name[i] == '-' && name[i + 1] == '-'
    case NoEdgeHyphen => |name| > 0 && (name[0] == '-' || name[|name| - 1] == '-')
  }

  /** The name the service accepts, stated without the order of the checks. */
  predicate WellFormed(name: string) {
    MinLength <= |name| <= MaxLength
    && (forall i :: 0 <= i < |name| ==> Allowed(name[i]))
    && (forall i :: 0 <= i < |name| - 1 ==> !(name[i] == '-' && name[i + 1] == '-'))
    && name[0] != '-' && name[|name| - 1] != '-'
  }

  /** The first rule `name` breaks, in check order. */
  function FirstBroken(name: string): (r: Option<Rule>)
    ensures r.Some? ==> Breaks(r.value, name)
    ensures r.Some? ==> forall rule :: Rank(rule) < Rank(r.value) ==> !Breaks(rule, name)
    ensures r.None? ==> forall rule :: !Breaks(rule, name)
    ensures r.None? <==> WellFormed(name)
  {
    if Breaks(NotEmpty, name) then Some(NotEmpty)
    else if Breaks(NoSpaces, name) then Some(NoSpaces)
    else if Breaks(LengthInRange, name) then Some(LengthInRange)
    else if Breaks(Charset, name) then Some(Charset)
    else if Breaks(NoDoubleHyphen, name) then Some(NoDoubleHyphen)
    else if Breaks(NoEdgeHyphen, name) then Some(NoEdgeHyphen)
    else None
  }

  /** What the message says about a broken rule, after "<noun> name ". */
  function Complaint(rule: Rule): string {
    match rule
    case NotEmpty => "cannot be empty"
    case NoSpaces => "cannot contain spaces"
    case LengthInRange => "must contain between 3 and 63 characters"
    case Charset => "can only contain lowercase letters, numbers and hyphens"
    case NoDoubleHyphen => "cannot contain two hyphens in a row"
    case NoEdgeHyphen => "cannot begin or end with a hyphen"
  }

  /** The message for a broken rule, with the noun of the node ("Container", "Share", "Queue"). */
  function Message(noun: string, rule: Rule): (r: string)
    ensures StartsWith(r, noun + " name ")
  {
    noun + " name " + Complaint(rule)
  }

  /** Different rules have different messages, so the message names the check that failed. */
  lemma MessagesDistinct(noun: string, a: Rule, b: Rule)
    requires a != b
    ensures Message(noun, a) != Message(noun, b)
  {
    var head := noun + " name ";
    assert Message(noun, a)[|head|..] == Complaint(a);
    assert Message(noun, b)[|head|..] == Complaint(b);
  }

  /** The validator: the message of the first broken rule, or `undefined` for an acceptable name. */
  function Validate(noun: string, name: string): (r: Option<string>)
    ensures r.None? <==> WellFormed(name)
    ensures |name| == 0 ==> r == Some(Message(noun, NotEmpty))
    ensures r.Some? ==> StartsWith(r.value, noun + " name ")
    ensures r.Some? ==> exists rule :: (Breaks(rule, name) && r.value == Message(noun, rule)
      && forall earlier :: Rank(earlier) < Rank(rule) ==> !Breaks(earlier, name))
  {
    match FirstBroken(name)
    case None => None
    case Some(rule) => Some(Message(noun, rule))
  }

  /** `validateContainerName` of the blob container group node. */
  function ValidateContainerName(name: string): (r: Option<string>)
    ensures r.None? <==> WellFormed(name)
    ensures |name| == 0 ==> r == Some("Container name cannot be empty")
    ensures r.Some? ==> StartsWith(r.value, "Container name ")
  {
    assert "Container" + " name " == "Container name ";
    assert Message("Container", NotEmpty) == "Container name cannot be empty";
    Validate("Container", name)
  }

  /** `validateFileShareName` of the file share group node. */
  function ValidateFileShareName(name: string): (r: Option<string>)
    ensures r.None? <==> WellFormed(name)
    ensures |name| == 0 ==> r == Some("Share name cannot be empty")
    ensures r.Some? ==> StartsWith(r.value, "Share name ")
  {
    assert "Share" + " name " == "Share name ";
    assert Message("Share", NotEmpty) == "Share name cannot be empty";
    Validate("Share", name)
  }

  /** `validateQueueName` of the queue group node. */
  function ValidateQueueName(name: string): (r: Option<string>)
    ensures r.None? <==> WellFormed(name)
    ensures |name| == 0 ==> r == Some("Queue name cannot be empty")
    ensures r.Some? ==> StartsWith(r.value, "Queue name ")
  {
    assert "Queue" + " name " == "Queue name ";
    assert Message("Queue", NotEmpty) == "Queue name cannot be empty";
    Validate("Queue", name)
  }

  /** A space is reported before a bad length: " " is a spaces error, not a length error. */
  lemma SpacesBeforeLength(noun: string)
    ensures Validate(noun, " ") == Some(Message(noun, NoSpaces))
  {
  }

  /** A too-long name without spaces fails the length check, whatever its characters. */
  lemma LengthBeforeCharset(noun: string, name: string)
    requires |name| > MaxLength && ' ' !in name
    ensures Validate(noun, name) == Some(Message(noun, LengthInRange))
  {
  }
}
