/**
 * The canonical event record and the normaliser that turns a GitHub webhook
 * delivery into zero or one record.
 */
module Events {
  import opened Wrappers
  import Decimal
  import Strings

  datatype Action = Push | PullRequest | Merge {
    /** The string stored in the `action` field. */
    function Name(): string {
      match this
      case Push => "PUSH"
      case PullRequest => "PULL_REQUEST"
      case Merge => "MERGE"
    }
  }

  /** The stored record. `timestamp` is kept verbatim; it is parsed only for display. */
  datatype Record = Record(
    requestId: string,
    author: string,
    action: Action,
    fromBranch: string,
    toBranch: string,
    timestamp: string)
  {
    /** The deduplication key. */
    function Key(): (string, Action) {
      (requestId, action)
    }
  }

  datatype HeadCommit = HeadCommit(timestamp: string)

  /** The `merged_by` object, whose `login` may be missing. */
  datatype User = User(login: Option<string>)

  /** The `pull_request` object of a pull-request delivery. */
  datatype PullRequestInfo = PullRequestInfo(
    id: int,
    userLogin: string,
    headRef: string,
    baseRef: string,
    createdAt: string,
    merged: Option<bool>,
    mergedBy: Option<User>,
    mergedAt: string)

  /**
   * A delivery, tagged by its event type header: `push`, `pull_request`, or
   * any other value (or none).
   */
  datatype Payload =
    | PushPayload(pusherName: string, ref: string, after: string, headCommit: Option<HeadCommit>)
    | PullRequestPayload(action: Option<string>, pullRequest: PullRequestInfo)
    | OtherPayload

  /** `merged_by.login`, or "Unknown" when either is missing. */
  function MergeAuthor(mergedBy: Option<User>): (r: string)
    ensures mergedBy.Some? && mergedBy.value.login.Some? ==> r == mergedBy.value.login.value
    ensures mergedBy.None? || mergedBy.value.login.None? ==> r == "Unknown"
  {
    match mergedBy
    case None => "Unknown"
    case Some(u) => u.login.GetOr("Unknown")
  }

  /** The deliveries that produce no record. */
  predicate Ignored(p: Payload) {
    match p
    case PushPayload(_, _, _, headCommit) => headCommit.None?
    case PullRequestPayload(action, pr) =>
      !(action == Some("opened") || (action == Some("closed") && pr.merged == Some(true)))
    case OtherPayload => true
  }

  /** The payload-to-record mapping of the webhook handler. */
  function Normalize(p: Payload): (r: Option<Record>)
    ensures r.None? <==> Ignored(p)
    // pushes
    ensures p.PushPayload? && r.Some? ==>
      && r.value.action == Push
      && r.value.fromBranch == ""
      && r.value.requestId == p.after
      && r.value.author == p.pusherName
      && r.value.timestamp == p.headCommit.value.timestamp
      && r.value.toBranch == Strings.LastSegment(p.ref, '/')
      && '/' !in r.value.toBranch
    // pull requests and merges
    ensures p.PullRequestPayload? && r.Some? ==>
      && Decimal.ParseInt(r.value.requestId) == Some(p.pullRequest.id)
      && r.value.fromBranch == p.pullRequest.headRef
      && r.value.toBranch == p.pullRequest.baseRef
    ensures p.PullRequestPayload? && p.action == Some("opened") ==>
      r.Some? && r.value.action == PullRequest
      && r.value.author == p.pullRequest.userLogin
      && r.value.timestamp == p.pullRequest.createdAt
    ensures p.PullRequestPayload? && p.action == Some("closed") && r.Some? ==>
      r.value.action == Merge
      && r.value.author == MergeAuthor(p.pullRequest.mergedBy)
      && r.value.timestamp == p.pullRequest.mergedAt
  {
    match p
    case PushPayload(pusherName, ref, after, headCommit) =>
      if headCommit.None? then None
      else Some(Record(after, pusherName, Push, "", Strings.LastSegment(ref, '/'), headCommit.value.timestamp))
    case PullRequestPayload(action, pr) =>
      Decimal.IntToStringRoundTrip(pr.id);
      if action == Some("opened") then
        Some(Record(Decimal.IntToString(pr.id), pr.userLogin, PullRequest, pr.headRef, pr.baseRef, pr.createdAt))
      else if action == Some("closed") && pr.merged == Some(true) then
        Some(Record(Decimal.IntToString(pr.id), MergeAuthor(pr.mergedBy), Merge, pr.headRef, pr.baseRef, pr.mergedAt))
      else None
    case OtherPayload => None
  }

  /** Two pull-request deliveries of the same kind share a key exactly when they are about the same pull request. */
  lemma PullRequestKeys(p: Payload, q: Payload)
    requires p.PullRequestPayload? && q.PullRequestPayload?
    requires Normalize(p).Some? && Normalize(q).Some?
    requires Normalize(p).value.action == Normalize(q).value.action
    ensures Normalize(p).value.Key() == Normalize(q).value.Key() <==> p.pullRequest.id == q.pullRequest.id
  {
    Decimal.IntToStringInjective(p.pullRequest.id, q.pullRequest.id);
  }

  /** Opening and merging the same pull request give records with different keys. */
  lemma OpenedAndMergedDiffer(p: Payload, q: Payload)
    requires p.PullRequestPayload? && p.action == Some("opened")
    requires q.PullRequestPayload? && q.action == Some("closed") && Normalize(q).Some?
    ensures Normalize(p).value.Key() != Normalize(q).value.Key()
  {
  }
}
