/**
 * `format_event`: turns one stored document, possibly malformed, into
 * exactly one display string, with fixed sentinel strings on error.
 */
module Formatter {
  import opened Wrappers
  import opened Events
  import Strings
  import Timestamps

  /**
   * A stored document as read back from the store: any key may be missing,
   * so each field is optional.
   */
  datatype Document = Document(
    requestId: Option<string>,
    author: Option<string>,
    action: Option<string>,
    fromBranch: Option<string>,
    toBranch: Option<string>,
    timestamp: Option<string>)

  /** The document the handler stores for a record. */
  function FromRecord(r: Record): Document {
    Document(Some(r.requestId), Some(r.author), Some(r.action.Name()),
             Some(r.fromBranch), Some(r.toBranch), Some(r.timestamp))
  }

  const MissingTimestamp: string := "Event with missing timestamp"
  const DataErrorPrefix: string := "Could not display event due to a data error: "

  /** The sentinel for a missing key or an unparseable timestamp. */
  function DataError(d: Document): (r: string)
    ensures |r| >= |DataErrorPrefix| && r[..|DataErrorPrefix|] == DataErrorPrefix
    ensures r[|DataErrorPrefix|..] == d.requestId.GetOr("Unknown ID")
    ensures r != MissingTimestamp
  {
    DataErrorPrefix + d.requestId.GetOr("Unknown ID")
  }

  /** `not raw_timestamp`: absent or empty. */
  predicate LacksTimestamp(d: Document) {
    d.timestamp.None? || d.timestamp.value == ""
  }

  /** The sentence chosen by the action, once the timestamp has been rendered. */
  function Sentence(author: string, action: string, fromBranch: string, toBranch: string, when: string): (r: string)
    ensures action in {"PUSH", "PULL_REQUEST", "MERGE"} ==>
      |author| + |when| <= |r| && r[..|author|] == author && r[|r| - |when|..] == when
    ensures action !in {"PUSH", "PULL_REQUEST", "MERGE"} ==>
      |r| >= 16 + |author| && r[..16] == "Unknown action: " && r[|r| - |author|..] == author
  {
    match action
    case "PUSH" => author + " pushed to " + toBranch + " on " + when
    case "PULL_REQUEST" => author + " submitted a pull request from " + fromBranch + " to " + toBranch + " on " + when
    case "MERGE" => author + " merged branch " + fromBranch + " to " + toBranch + " on " + when
    case _ => "Unknown action: " + action + " by " + author
  }

  /**
   * Total: every document yields one string. The keys `author` and `action`
   * are looked up first, then the timestamp is checked for presence, then
   * parsed, and only then is the action dispatched.
   */
  function FormatEvent(d: Document): (r: string)
    ensures d.author.None? || d.action.None? ==> r == DataError(d)
    ensures d.author.Some? && d.action.Some? && LacksTimestamp(d) ==> r == MissingTimestamp
    ensures d.author.Some? && d.action.Some? && !LacksTimestamp(d) ==>
      var author, action := d.author.value, d.action.value;
      var fromBranch, toBranch := d.fromBranch.GetOr(""), d.toBranch.GetOr("");
      match Timestamps.DisplayTimestamp(d.timestamp.value)
      case None => r == DataError(d)
      case Some(when) =>
        && (action == "PUSH" ==> r == author + " pushed to " + toBranch + " on " + when)
        && (action == "PULL_REQUEST" ==>
              r == author + " submitted a pull request from " + fromBranch + " to " + toBranch + " on " + when)
        && (action == "MERGE" ==> r == author + " merged branch " + fromBranch + " to " + toBranch + " on " + when)
        && (action !in {"PUSH", "PULL_REQUEST", "MERGE"} ==> r == "Unknown action: " + action + " by " + author)
  {
    if d.author.None? || d.action.None? then DataError(d)
    else if LacksTimestamp(d) then MissingTimestamp
    else
      match Timestamps.DisplayTimestamp(d.timestamp.value)
      case None => DataError(d)
      case Some(when) =>
        Sentence(d.author.value, d.action.value, d.fromBranch.GetOr(""), d.toBranch.GetOr(""), when)
  }

  /**
   * A stored record never hits the missing-key path nor the unknown-action
   * path: it shows its own action's sentence whenever its timestamp parses.
   */
  lemma FormatStoredRecord(r: Record)
    ensures r.timestamp == "" ==> FormatEvent(FromRecord(r)) == MissingTimestamp
    ensures r.timestamp != "" && Timestamps.DisplayTimestamp(r.timestamp).None? ==>
      FormatEvent(FromRecord(r)) == DataErrorPrefix + r.requestId
    ensures r.timestamp != "" && Timestamps.DisplayTimestamp(r.timestamp).Some? ==>
      var when := Timestamps.DisplayTimestamp(r.timestamp).value;
      FormatEvent(FromRecord(r)) ==
        match r.action
        case Push => r.author + " pushed to " + r.toBranch + " on " + when
        case PullRequest =>
          r.author + " submitted a pull request from " + r.fromBranch + " to " + r.toBranch + " on " + when
        case Merge => r.author + " merged branch " + r.fromBranch + " to " + r.toBranch + " on " + when
  {
  }

  /** From delivery to display: a push is shown with the last segment of its ref. */
  lemma FormatNormalizedPush(p: Payload)
    requires p.PushPayload? && p.headCommit.Some?
    requires Timestamps.DisplayTimestamp(p.headCommit.value.timestamp).Some?
    ensures Normalize(p).Some?
    ensures FormatEvent(FromRecord(Normalize(p).value)) ==
      p.pusherName + " pushed to " + Strings.LastSegment(p.ref, '/') + " on "
      + Timestamps.DisplayTimestamp(p.headCommit.value.timestamp).value
  {
    FormatStoredRecord(Normalize(p).value);
  }

  /** Only the wall-clock fields matter: changing the offset of the stored timestamp changes nothing. */
  lemma FormatIgnoresOffset(d: Document, dt: Timestamps.DateTime, o: Option<Timestamps.Offset>)
    requires Timestamps.Valid(dt) && (o.Some? ==> Timestamps.ValidOffset(o.value))
    ensures FormatEvent(d.(timestamp := Some(Timestamps.Show(dt)))) ==
            FormatEvent(d.(timestamp := Some(Timestamps.Show(dt.(offset := o)))))
  {
    Timestamps.DisplayIgnoresOffset(dt, o);
    NonEmptyShow(dt);
    NonEmptyShow(dt.(offset := o));
    FormatDependsOnDisplay(d, Timestamps.Show(dt), Timestamps.Show(dt.(offset := o)));
  }

  /** Two non-empty timestamps with the same display (or both unparseable) format alike. */
  lemma FormatDependsOnDisplay(d: Document, t1: string, t2: string)
    requires t1 != "" && t2 != ""
    requires Timestamps.DisplayTimestamp(t1) == Timestamps.DisplayTimestamp(t2)
    ensures FormatEvent(d.(timestamp := Some(t1))) == FormatEvent(d.(timestamp := Some(t2)))
  {
  }

  lemma NonEmptyShow(dt: Timestamps.DateTime)
    requires Timestamps.Valid(dt)
    ensures Timestamps.Show(dt) != ""
  {
    assert |Timestamps.DateText(dt)| == 19;
  }

  /** `...Z` and `...+00:00` display alike. */
  lemma FormatZulu(d: Document, x: string)
    requires 'Z' !in x
    ensures FormatEvent(d.(timestamp := Some(x + "Z"))) == FormatEvent(d.(timestamp := Some(x + "+00:00")))
  {
    Timestamps.ZuluIsUtc(x);
    FormatDependsOnDisplay(d, x + "Z", x + "+00:00");
  }
}
