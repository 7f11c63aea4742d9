/**
 * The outcomes of the copier's steps. The source raises exceptions for both
 * run-aborting and recoverable conditions; here a fatal condition is a
 * `Fatal` result and a recoverable one is a `Warning` that is logged.
 */
module Failures {

  datatype Option<+T> = None | Some(value: T)

  /** Why a run stops. */
  datatype Error =
    | LastIssueQueryFailed          // the query for the last GitHub issue did not succeed
    | MissingLastIssueNumber        // the GitHub repository has no issue yet
    | StartNotAboveLastIssue(start: int, last: nat)
    | TicketFetchFailed(ticket: nat)   // any Unfuddle answer other than 404
    | MissingTicketId(ticket: nat)
    | MissingTicketName(ticket: nat)
    | MissingTicketStatus(ticket: nat)
    | CreateFailed(ticket: nat)
    | CloseFailed(issue: nat)

  /** A condition that is logged and then lived with. */
  datatype Warning =
    | TicketMissing(ticket: nat)        // Unfuddle answered 404: a placeholder issue is created
    | CommentsUnavailable(ticket: nat)  // the comment thread could not be read (fully)
    | CommentNotPosted(issue: nat)      // one comment post failed and is skipped

  datatype Result<+T> = Ok(value: T) | Fatal(error: Error)
}
