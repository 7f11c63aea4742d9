/**
 * Reading one Unfuddle ticket and turning it into the record the copier
 * migrates: `{id, title, description, status, comments}`. The HTTP requests
 * are replaced by their answers, given as values.
 */
module Transformer {
  import opened Failures
  import opened Text

  const GitHubTitlePrefixOnMissingTicket: string := "Missing Unfuddle Ticket#"
  const GitHubDescOnMissingTicket: string := "N/A"
  const GitHubStatusOnMissingTicket: string := "closed"
  const NotFound: int := 404

  /** One element of the comment list Unfuddle returns; a `null` element makes `object.body` throw. */
  datatype CommentObject = CommentObject(body: string) | NullComment

  /** The answer to the comment-list request of one ticket. */
  datatype CommentsResponse =
    | CommentsReceived(items: seq<CommentObject>)
    | CommentsRequestFailed

  /** The fields of a ticket as Unfuddle sends them; `None` is an absent field. */
  datatype TicketFields = TicketFields(
    id: Option<nat>,
    summary: Option<string>,
    description: Option<string>,
    status: Option<string>,
    resolutionDescription: Option<string>)

  /**
   * The answer to the ticket-by-number request: the ticket with the answer to
   * the follow-up comment request, or a failure with the HTTP status of the
   * error response (`None` when there was no response at all).
   */
  datatype TicketResponse =
    | TicketReceived(fields: TicketFields, comments: CommentsResponse)
    | TicketRequestFailed(status: Option<int>)

  /** The migrated record (`ticketData` plus `comments`); `id` is `null` for a placeholder. */
  datatype TicketData = TicketData(id: Option<nat>, title: string, description: string, status: string, comments: seq<string>)

  /** A fetched record with the warnings logged while fetching it. */
  datatype Fetched = Fetched(data: TicketData, warnings: seq<Warning>)

  /** JavaScript truthiness of an optional string: present and not empty. */
  predicate Truthy(s: Option<string>) {
    s.Some? && s.value != ""
  }

  /** JavaScript truthiness of an optional number: present and not zero. */
  predicate TruthyId(id: Option<nat>) {
    id.Some? && id.value != 0
  }

  /** The title of the placeholder issue created for a ticket Unfuddle no longer has. */
  function PlaceholderTitle(n: nat): (t: string)
    ensures |t| > |GitHubTitlePrefixOnMissingTicket| + 1
    ensures t[..|GitHubTitlePrefixOnMissingTicket| + 1] == GitHubTitlePrefixOnMissingTicket + " "
    // the ticket number can be read back from the digits after the prefix
    ensures var digits := t[|GitHubTitlePrefixOnMissingTicket| + 1..];
      (forall i :: 0 <= i < |digits| ==> IsDigit(digits[i])) && ParseNat(digits) == n
  {
    ParseNatToString(n);
    var t := GitHubTitlePrefixOnMissingTicket + " " + NatToString(n);
    assert t[..|GitHubTitlePrefixOnMissingTicket| + 1] == GitHubTitlePrefixOnMissingTicket + " ";
    assert t[|GitHubTitlePrefixOnMissingTicket| + 1..] == NatToString(n);
    t
  }

  /** The record for a ticket that answered 404. */
  function Placeholder(n: nat): TicketData {
    TicketData(None, PlaceholderTitle(n), GitHubDescOnMissingTicket, GitHubStatusOnMissingTicket, [])
  }

  /**
   * The bodies pushed by `forEach` before it stops: the elements in order, up
   * to (not including) the first `null` one.
   */
  function BodiesUntilNull(items: seq<CommentObject>): (r: seq<string>)
    ensures |r| <= |items|
    ensures forall k :: 0 <= k < |r| ==> items[k] == CommentObject(r[k])
    ensures |r| == |items| || items[|r|] == NullComment
  {
    if items == [] then []
    else match items[0]
      case NullComment => []
      case CommentObject(b) => [b] + BodiesUntilNull(items[1..])
  }

  /** The contract of `BodiesUntilNull` determines its result. */
  lemma {:induction false} BodiesUntilNullUnique(items: seq<CommentObject>, cs: seq<string>)
    requires |cs| <= |items|
    requires forall k :: 0 <= k < |cs| ==> items[k] == CommentObject(cs[k])
    requires |cs| == |items| || items[|cs|] == NullComment
    ensures cs == BodiesUntilNull(items)
  {
    if cs != [] {
      BodiesUntilNullUnique(items[1..], cs[1..]);
    }
  }

  /** The comment bodies a comment answer yields (an empty list when the request failed). */
  function CommentBodies(cr: CommentsResponse): (r: seq<string>)
    ensures cr.CommentsRequestFailed? ==> r == []
    ensures cr.CommentsReceived? ==>
      |r| <= |cr.items| && forall k :: 0 <= k < |r| ==> cr.items[k] == CommentObject(r[k])
    // without a `null` element every body is read
    ensures cr.CommentsReceived? && !CommentsIncomplete(cr) ==> |r| == |cr.items|
  {
    match cr
    case CommentsRequestFailed => []
    case CommentsReceived(items) => BodiesUntilNull(items)
  }

  /** Whether reading the comments threw, so that a warning is logged. */
  predicate CommentsIncomplete(cr: CommentsResponse) {
    match cr
    case CommentsRequestFailed => true
    case CommentsReceived(items) => NullComment in items
  }

  /** The resolution note is appended when it is present and not blank after trimming. */
  predicate HasResolutionNote(f: TicketFields) {
    Truthy(f.resolutionDescription) && Trim(f.resolutionDescription.value) != ""
  }

  /** The specification of reading one ticket by its number. */
  function TicketFromResponse(n: nat, resp: TicketResponse): (r: Result<Fetched>)
    // 404: a placeholder record and a warning, never an error
    ensures resp == TicketRequestFailed(Some(NotFound)) ==>
      r == Ok(Fetched(Placeholder(n), [TicketMissing(n)]))
    // any other request failure is fatal
    ensures resp.TicketRequestFailed? && resp.status != Some(NotFound) ==>
      r == Fatal(TicketFetchFailed(n))
    // a received ticket is accepted exactly when id, summary and status are all truthy,
    // and the first missing one names the error
    ensures resp.TicketReceived? ==>
      (r.Ok? <==> TruthyId(resp.fields.id) && Truthy(resp.fields.summary) && Truthy(resp.fields.status))
    ensures resp.TicketReceived? && !TruthyId(resp.fields.id) ==> r == Fatal(MissingTicketId(n))
    ensures resp.TicketReceived? && TruthyId(resp.fields.id) && !Truthy(resp.fields.summary) ==>
      r == Fatal(MissingTicketName(n))
    ensures (resp.TicketReceived? && TruthyId(resp.fields.id) && Truthy(resp.fields.summary)
             && !Truthy(resp.fields.status)) ==> r == Fatal(MissingTicketStatus(n))
    // a received ticket keeps its id, summary and status verbatim
    ensures resp.TicketReceived? && r.Ok? ==>
      r.value.data.id == resp.fields.id
      && r.value.data.title == resp.fields.summary.value
      && r.value.data.status == resp.fields.status.value
    // the description is the source's when truthy, else "N/A"
    ensures resp.TicketReceived? && r.Ok? ==>
      r.value.data.description ==
        (if Truthy(resp.fields.description) then resp.fields.description.value else GitHubDescOnMissingTicket)
    // the comments are the fetched bodies in order, then the resolution note when it is not blank
    ensures resp.TicketReceived? && r.Ok? ==>
      var cs := r.value.data.comments;
      var bodies := CommentBodies(resp.comments);
      |cs| == |bodies| + (if HasResolutionNote(resp.fields) then 1 else 0)
      && cs[..|bodies|] == bodies
      && (HasResolutionNote(resp.fields) ==> cs[|bodies|] == resp.fields.resolutionDescription.value)
    ensures resp.TicketReceived? && r.Ok? ==>
      r.value.warnings == (if CommentsIncomplete(resp.comments) then [CommentsUnavailable(n)] else [])
  {
    match resp
    case TicketRequestFailed(status) =>
      if status == Some(NotFound) then Ok(Fetched(Placeholder(n), [TicketMissing(n)]))
      else Fatal(TicketFetchFailed(n))
    case TicketReceived(f, cr) =>
      if !TruthyId(f.id) then Fatal(MissingTicketId(n))
      else if !Truthy(f.summary) then Fatal(MissingTicketName(n))
      else if !Truthy(f.status) then Fatal(MissingTicketStatus(n))
      else
        var description := if Truthy(f.description) then f.description.value else GitHubDescOnMissingTicket;
        var comments := CommentBodies(cr) + (if HasResolutionNote(f) then [f.resolutionDescription.value] else []);
        var warnings := if CommentsIncomplete(cr) then [CommentsUnavailable(n)] else [];
        Ok(Fetched(TicketData(f.id, f.summary.value, description, f.status.value, comments), warnings))
  }

  /**
   * Collects the comment bodies of a ticket one by one; a failed request or a
   * `null` element ends the collection with a warning and keeps what was
   * collected so far.
   */
  method GetUnfuddleTicketCommentsById(n: nat, cr: CommentsResponse) returns (comments: seq<string>, warning: Option<Warning>)
    ensures comments == CommentBodies(cr)
    ensures warning == (if CommentsIncomplete(cr) then Some(CommentsUnavailable(n)) else None)
  {
    comments := [];
    warning := None;
    match cr
    case CommentsRequestFailed =>
      warning := Some(CommentsUnavailable(n));
    case CommentsReceived(items) =>
      var k := 0;
      while k < |items|
        invariant 0 <= k <= |items| && |comments| == k
        invariant forall j :: 0 <= j < k ==> items[j] == CommentObject(comments[j])
      {
        if items[k].NullComment? {
          warning := Some(CommentsUnavailable(n));
          break;
        }
        comments := comments + [items[k].body];
        k := k + 1;
      }
      BodiesUntilNullUnique(items, comments);
      if warning.None? {
        assert NullComment !in items by {
          forall j | 0 <= j < |items| ensures items[j] != NullComment {
            assert items[j] == CommentObject(comments[j]);
          }
        }
      } else {
        assert items[|comments|] == NullComment;
      }
  }

  /** Reads one ticket by its number, as `getUnfuddleTicketByNumber` does. */
  method GetUnfuddleTicketByNumber(n: nat, resp: TicketResponse) returns (r: Result<Fetched>)
    ensures r == TicketFromResponse(n, resp)
  {
    var warnings: seq<Warning> := [];
    var associatedComments: seq<string> := [];
    if resp.TicketRequestFailed? {
      if resp.status != Some(NotFound) {
        return Fatal(TicketFetchFailed(n));
      }
      return Ok(Fetched(Placeholder(n), [TicketMissing(n)]));
    }
    var f := resp.fields;
    if !TruthyId(f.id) {
      return Fatal(MissingTicketId(n));
    }
    if !Truthy(f.summary) {
      return Fatal(MissingTicketName(n));
    }
    if !Truthy(f.status) {
      return Fatal(MissingTicketStatus(n));
    }
    var description := if Truthy(f.description) then f.description.value else GitHubDescOnMissingTicket;
    var warning;
    associatedComments, warning := GetUnfuddleTicketCommentsById(n, resp.comments);
    if warning.Some? {
      warnings := warnings + [warning.value];
    }
    assert warnings == (if CommentsIncomplete(resp.comments) then [CommentsUnavailable(n)] else []);
    if Truthy(f.resolutionDescription) && Trim(f.resolutionDescription.value) != "" {
      associatedComments := associatedComments + [f.resolutionDescription.value];
    }
    assert associatedComments == CommentBodies(resp.comments) + (if HasResolutionNote(f) then [f.resolutionDescription.value] else []);
    r := Ok(Fetched(TicketData(f.id, f.summary.value, description, f.status.value, associatedComments), warnings));
    assert resp == TicketReceived(f, resp.comments);
  }
}
