/**
 * The GitHub side as values: the repository's issues, the payload of a new
 * issue, and the start-number check made against the last issue number.
 * Issue `issues[k]` carries number `k + 1`: GitHub numbers issues by strict
 * auto-increment.
 */
module GitHub {
  import opened Failures
  import opened Text
  import opened Transformer

  const NewGitHubIssueLabels: seq<string> := ["From Unfuddle"]
  const BodyOnBlankDescription: string := "N/A"

  datatype IssueState = Open | Closed

  datatype Issue = Issue(title: string, body: string, labels: seq<string>, comments: seq<string>, state: IssueState)

  /** One remote call; the network oracle says whether it succeeds. */
  datatype Call =
    | LastIssueQuery
    | CreateIssue(ticket: nat)
    | PostComment(issue: nat, index: nat)
    | CloseIssue(issue: nat)

  type Network = Call -> bool

  /** The body sent when creating an issue: the description, or "N/A" when it trims to nothing. */
  function IssueBody(description: string): (body: string)
    ensures !IsBlank(body)
    ensures !IsBlank(description) ==> body == description
    ensures IsBlank(description) ==> body == BodyOnBlankDescription
  {
    TrimEmptyIffBlank(description);
    assert BodyOnBlankDescription[0] == 'N';
    if Trim(description) != "" then description else BodyOnBlankDescription
  }

  /** The issue `createGitHubIssueFromUnfuddleTicket` asks GitHub to create. */
  function NewIssue(data: TicketData): (issue: Issue)
    ensures issue.title == data.title && issue.labels == NewGitHubIssueLabels
    ensures !IsBlank(issue.body) && issue.comments == [] && issue.state == Open
  {
    Issue(data.title, IssueBody(data.description), NewGitHubIssueLabels, [], Open)
  }

  /** `["closed", "resolved"].indexOf(status) > -1` */
  predicate IsTerminal(status: string) {
    status == "closed" || status == "resolved"
  }

  /** The number of the most recent issue, fatal when the query fails or the repository has none. */
  function LastIssueNumber(issues: seq<Issue>, net: Network): (r: Result<nat>)
    ensures r.Ok? <==> net(LastIssueQuery) && |issues| > 0
    ensures r.Ok? ==> r.value == |issues| && r.value >= 1
    ensures !net(LastIssueQuery) ==> r == Fatal(LastIssueQueryFailed)
    ensures net(LastIssueQuery) && issues == [] ==> r == Fatal(MissingLastIssueNumber)
  {
    if !net(LastIssueQuery) then Fatal(LastIssueQueryFailed)
    else if |issues| == 0 then Fatal(MissingLastIssueNumber)
    else Ok(|issues|)
  }

  /**
   * The start ticket number is usable only above the last issue number; the
   * result is the last issue number.
   */
  function ValidateStart(start: int, issues: seq<Issue>, net: Network): (r: Result<nat>)
    ensures r.Ok? <==> net(LastIssueQuery) && 0 < |issues| < start
    ensures r.Ok? ==> r.value == |issues| && 1 <= r.value < start
    ensures net(LastIssueQuery) && 0 < |issues| && start <= |issues| ==>
      r == Fatal(StartNotAboveLastIssue(start, |issues|))
  {
    match LastIssueNumber(issues, net)
    case Fatal(e) => Fatal(e)
    case Ok(last) => if start <= last then Fatal(StartNotAboveLastIssue(start, last)) else Ok(last)
  }
}
