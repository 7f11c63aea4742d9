# unfuddle-to-github, modelled in Dafny

The copier reads the Unfuddle tickets numbered `start..end` one by one and
turns each into a GitHub issue. It copies the title,
the description (as the issue body), the comment thread with the resolution
note appended, and the closed status. Before the first ticket it checks that
`start` lies above the last GitHub issue number, because GitHub numbers
issues by strict auto-increment. Each ticket ends up on the GitHub issue
with the same number only when `start` is exactly one above the last issue
number and the run meets no fatal error. A larger `start` also passes the
check, but then the numbers no longer line up.

A ticket that Unfuddle answers with 404 becomes a placeholder issue titled
`Missing Unfuddle Ticket# N`, so the numbering stays aligned. A failed
comment fetch or comment post is logged as a warning and skipped. Every
other failure is fatal: the run logs it and stops, and the start and end
banners are always written.

The project has seven modules:

- `Failures` (failures.dfy): the `Option` and `Result` types, the fatal errors and the warnings.
- `Text` (text.dfy): JavaScript's `String.prototype.trim` and the decimal rendering of a ticket number.
- `Transformer` (transformer.dfy): how the answer to one ticket fetch becomes the migrated record `{id, title, description, status, comments}`. `TicketFromResponse` is the function; the two `Get…` methods are the step-by-step versions proved equal to it.
- `GitHub` (github.dfy): issues as values, the payload of a new issue, the last-issue-number query and the start-number check. Issue `issues[k]` has number `k + 1`.
- `MigrationSpec` (migration_spec.dfy): one run as functions over a `World`. A world holds the GitHub issues, the run log, the number of pacing delays waited and the ticket numbers fetched. `MigrateRange` is the main loop, generic over the work done for one ticket; `TicketStep` supplies the copier's own work.
- `Migration` (migration.dfy): the copier as it runs. `Destination` is a class whose `issues` field grows on create and changes on comment and close. `Runtime` holds the log. Each GitHub-side function of `index.js` and `start` itself is a method here, and each is proved to end in the state its `MigrationSpec` function gives. The two Unfuddle-side functions are the methods of `Transformer`, proved equal to `TicketFromResponse` and `CommentBodies`.
- `MigrationProperties` (properties.dfy): lemmas about the specification functions. Through the methods' postconditions they hold for the methods as well.

Remote calls are replaced by an oracle `net: Call -> bool`, which says whether
a given call succeeds. The calls are the last-issue query, creating the issue
for ticket `n`, posting comment `k` to issue `m`, and closing issue `m`.
Posting to, or closing, an issue that does not exist fails as GitHub's 404
would. Ticket fetches are replaced by `tickets: nat -> TicketResponse`, the
answer Unfuddle gives for each number.

Three points where the code's behaviour is easy to misread:

- When an element of the comment list is `null`, `object.body` throws inside `forEach` (index.js:174-176). The bodies pushed before that element are kept, and a warning is logged: the ticket goes on with a partial comment list, not an empty one. A failed comment request yields the empty list.
- The ticket-level description is kept whenever it is truthy, i.e. not empty (index.js:131). A whitespace-only description is therefore kept in the record. It is replaced by "N/A" only when the issue body is built (index.js:206).
- The braces of `getUnfuddleTicketByNumber` do not balance (index.js:135-151): the `if (unfuddleTicketExists)` opened at line 135 never closes before the `return`. The model follows the evident intent: a 404 ticket returns the placeholder record with the initial empty comment list of index.js:75.

## Model

| member | source | states |
|---|---|---|
| Text.Trim | index.js:140 | `trim()` returns the slice of its input left after removing leading and trailing ECMAScript whitespace, and the slice neither starts nor ends with whitespace |
| Text.TrimEmptyIffBlank | index.js:140 | `s.trim() !== ''` holds exactly when `s` has a non-whitespace character |
| Text.NatToString | index.js:130 | `${n}` is a non-empty string of decimal digits with no leading zero |
| Text.ParseNatToString | index.js:130 | reading the rendered digits back gives the number: the rendering loses nothing |
| Text.NatToStringInjective | index.js:130 | different ticket numbers render differently |
| Transformer.BodiesUntilNull | index.js:174-176 | the bodies `forEach` pushes are those of the leading non-null elements, in order, and it stops exactly at the first `null` element or at the end |
| Transformer.BodiesUntilNullUnique | index.js:174-176 | that characterisation determines the pushed list uniquely |
| Transformer.CommentBodies | index.js:161-183 | a failed comment request gives no comments. Otherwise the bodies are read in order from the front of the list, and all of them are read when no element is `null` |
| Transformer.CommentsIncomplete | index.js:174-180 | the comment warning is logged exactly when the request failed or an element is `null`; its consequences are stated by `GetUnfuddleTicketCommentsById` and `TicketFromResponse` |
| Transformer.HasResolutionNote | index.js:140 | the note is appended exactly when it is truthy and not blank after trim; `TicketFromResponse` states where it goes |
| Transformer.PlaceholderTitle | index.js:130 | the title is `Missing Unfuddle Ticket# ` followed by decimal digits from which the ticket number reads back |
| Transformer.Placeholder | index.js:128-133 | the record of a 404 ticket; its fields are stated by `TicketFromResponse` and `RecordFieldsNotEmpty` |
| Transformer.TicketFromResponse | index.js:70-151 | a 404 gives the placeholder record (title `Missing Unfuddle Ticket# N`, description "N/A", status "closed", id null, no comments) with a warning. Any other fetch failure is fatal. A fetched ticket is accepted exactly when id, summary and status are truthy, and the first falsy one names the error. Title, status and id are kept verbatim. The description is kept when truthy, else "N/A". The comments are the fetched bodies in order, then the untrimmed resolution note when it is present and non-blank after trim. A comment-fetch failure gives a warning, never an error |
| Transformer.GetUnfuddleTicketCommentsById | index.js:157-184 | the loop collects exactly `CommentBodies` and warns exactly when the request failed or hit a `null` element |
| Transformer.GetUnfuddleTicketByNumber | index.js:70-151 | the step-by-step fetch, including the `push` of the resolution note, returns exactly `TicketFromResponse` |
| GitHub.IssueBody | index.js:206 | the body is never blank. It is the description when that is not blank after trim, and "N/A" otherwise |
| GitHub.NewIssue | index.js:204-208 | a new issue has the record's title, a non-blank body, exactly the labels `["From Unfuddle"]`, no comments, and is open |
| GitHub.LastIssueNumber | index.js:29-49 | the query succeeds exactly when the call goes through and the repository has an issue, and then yields the number of the last issue. A failed call, or an empty repository, is fatal with the matching error |
| GitHub.ValidateStart | index.js:58-65 | the start number passes exactly when the last-number query succeeds and `last < start`. `start <= last` is fatal and reports both numbers |
| GitHub.IsTerminal | index.js:325 | the statuses that close the issue are exactly "closed" and "resolved"; the consequences are stated by `FinishTicketEffect` and `TicketLogOrder` |
| MigrationSpec.WarningEntries | index.js:96 | each fetch warning becomes one log entry, in order |
| MigrationSpec.AppendComment | index.js:242-255 | posting a comment appends it to issue `m` and to no other issue |
| MigrationSpec.PostOneComment | index.js:233-265 | one iteration of the comment loop waits one delay, adds one log entry, fetches nothing, and changes no issue when the post is refused |
| MigrationSpec.Posted | index.js:240-261 | the comments GitHub accepts are at most those attempted; `PostedBounds` and `ReplayCommentsEffect` give the rest |
| MigrationSpec.ReplayComments | index.js:229-269 | replaying `j` comments waits `j` pacing delays, adds `j` log entries after the old log, fetches nothing and never changes the number of issues |
| MigrationSpec.CreateStep | index.js:189-219 | creation succeeds exactly when the create call goes through, and then adds exactly one issue. It only appends to the log |
| MigrationSpec.CloseStep | index.js:274-301 | closing succeeds exactly when the close call goes through and issue `m` exists. It never adds an issue and only appends to the log |
| MigrationSpec.FinishTicket | index.js:319-329 | the comments-then-close phase never adds an issue, fetches nothing and only appends to the log |
| MigrationSpec.MigrateTicket | index.js:313-330 | one iteration records ticket `n` as fetched, only appends to the log, and adds at most one issue, exactly one when it meets no fatal error |
| MigrationSpec.MigrateRange | index.js:313-330 | the `for` loop: one step per ticket from `s` to `e`, stopping at the first fatal error. Its properties are `FatalIsFinal`, `RangeVisitsInOrder` and `RangeCorrespondence` |
| MigrationSpec.RunOutcome | index.js:305-336 | the opening banner and the `try` block: a failed start check is the fatal error, else the loop's outcome; `FailedValidationCreatesNothing` and `RunCorrespondence` state it |
| MigrationSpec.Run | index.js:303-342 | a whole run. Its properties are `RunIsFramedByBanners`, `RunCorrespondence`, `FailedValidationCreatesNothing` and `ShippedRangeNeverStarts` |
| Migration.Destination.Create | index.js:196-209 | creating appends the issue; its number is the new issue count |
| Migration.Destination.AddComment | index.js:242-253 | the issue list becomes `AppendComment` of the old one |
| Migration.Destination.Close | index.js:281-292 | issue `m` becomes closed and nothing else changes |
| Migration.Runtime.Log | index.js:21-24 | a log call appends one entry |
| Migration.Runtime.Pause | index.js:264 | `timeout(5000)` adds one pacing delay and changes nothing else |
| Migration.GetGitHubLastIssueNumber | index.js:29-49 | the method returns `LastIssueNumber` of the destination, which is the issue count on success |
| Migration.ValidateUnfuddleStartTicketNumber | index.js:58-65 | the method returns `ValidateStart`, and succeeds exactly when the query succeeds and `0 < last < start` |
| Migration.CreateGitHubIssueFromUnfuddleTicket | index.js:189-219 | the new destination and log state, and the fatal error, are those of `CreateStep` |
| Migration.AddGitHubIssueComments | index.js:229-269 | the `for` loop ends in the state `ReplayComments` gives for all the comments |
| Migration.CloseGitHubIssueByNumber | index.js:274-301 | the new state and the fatal error are those of `CloseStep` |
| Migration.CopyTicket | index.js:315-329 | the body of the main loop for ticket `n` ends in the state and error `MigrateTicket` gives |
| Migration.CopyNextTicket | index.js:313-330 | one more iteration extends the loop's state by one ticket. A fatal error ends the whole loop in that state |
| Migration.CopyTickets | index.js:313-330 | the `for` loop ends in the state and error `MigrateRange` gives |
| Migration.Start | index.js:303-342 | the whole run, including the error report and the closing lines, ends in the state `Run` gives |
| Migration.ValidateAndCopy | index.js:305-336 | the opening banner and the `try` block end in the state and error `RunOutcome` gives |
| Migration.MigrateRangeStep | index.js:313-336 | the range up to `i` ends where iteration `i` ends, and a fatal error there is also the end of every longer range |
| MigrationProperties.PlaceholderTitlesDistinct | index.js:130 | placeholder titles of different ticket numbers differ |
| MigrationProperties.PlaceholderOnlyOnNotFound | index.js:91-104 | the placeholder warning is produced exactly for a 404 answer |
| MigrationProperties.RecordFieldsNotEmpty | index.js:106-133 | every accepted record has a non-empty title, description and status, and its issue body is never blank |
| MigrationProperties.PostedBounds | index.js:229-267 | at most as many comments are posted as were given, and all of them, in order, when no post fails |
| MigrationProperties.ReplayCommentsEffect | index.js:229-267 | comment `k` is attempted once, in order, logged as posted or as skipped, and a failure does not stop later comments. An existing issue gains exactly the accepted comments, in order; nothing else changes on GitHub |
| MigrationProperties.FinishTicketEffect | index.js:319-329 | after creation: one delay and one log entry per comment, and the close is logged last. Only a failed close is fatal. The issue gains the accepted comments and is closed exactly when the status is "closed" or "resolved" and the close succeeds |
| MigrationProperties.FinishAfterCreation | index.js:317-329 | right after creation the log reads: creation, one entry per comment, then the close exactly when the status is terminal |
| MigrationProperties.TicketIsFinish | index.js:315-321 | a ticket without fatal error was fetched, its warnings logged, its issue created, and then finished |
| MigrationProperties.TicketLogOrder | index.js:315-329 | without a fatal error, one ticket logs its warnings, the creation, one entry per comment and, last and only for a terminal status, the close. It waits one delay per comment, and none when there are no comments |
| MigrationProperties.FinishNewestIssue | index.js:317-329 | finishing the issue just created turns it into the expected issue: accepted comments, closed iff terminal |
| MigrationProperties.TicketOnNextNumber | index.js:313-329 | on the next free number, a ticket without fatal error adds exactly its expected issue |
| MigrationProperties.TicketCopyOnNextNumber | index.js:313-329 | the same, stated with `CopyOf` |
| MigrationProperties.FatalIsFinal | index.js:309-336 | after the first fatal error no further ticket is processed: every longer range ends in the same state with the same error |
| MigrationProperties.TicketStepKeepsFrame | index.js:313-330 | every iteration of the copier fetches one ticket, only appends to the log and creates at most one issue |
| MigrationProperties.LoopProgressStep | index.js:313 | one more iteration keeps the loop's progress invariant |
| MigrationProperties.RangeVisitsInOrder | index.js:313 | the loop fetches `start, start+1, ...` in strictly increasing order and never beyond `end`. It fetches all of them when no fatal error occurs, with exactly one new issue per number; the log only grows |
| MigrationProperties.CorrespondsStep | index.js:313-330 | appending the copy of ticket `e` extends the number correspondence by one |
| MigrationProperties.TicketStepAppendsCopy | index.js:317-327 | each iteration of the copier without fatal error, on the next free number, appends that ticket's copy |
| MigrationProperties.RangeCorrespondence | index.js:313-330 | when the first ticket lands on the next free number and no fatal error occurs, issue `n` is the copy of ticket `n` for every `n` in range, and earlier issues are untouched |
| MigrationProperties.FailedValidationCreatesNothing | index.js:309-336 | a failed start-number check logs the banners and the error and then stops: no fetch, no issue |
| MigrationProperties.ShippedRangeNeverStarts | index.js:7-8 | with the shipped `start = 1`, the check always fails and no issue is created |
| MigrationProperties.RunIsFramedByBanners | index.js:303-342 | every run begins with the start banner and ends with the end banner. A fatal error is reported, followed by the stop message, just before the closing lines. The earlier log is kept |
| MigrationProperties.ClosingLines | index.js:332-340 | appending the error report and the closing lines keeps the opening lines and ends the log with the end banner, after the error and the stop message when there is an error |
| MigrationProperties.RunCorrespondence | index.js:303-342 | when `start == last + 1` and the run meets no fatal error, GitHub issue `n` is the copy of Unfuddle ticket `n` for every `n` in `start..end` |
| MigrationProperties.GapBreaksCorrespondence | index.js:58-65 | with `start > last + 1` the check passes, but the first ticket's issue gets number `last + 1` and stays open without any comment, because its comments are posted to the missing issue `start`. A terminal status then aborts the run with the failure to close issue `start` |
| MigrationProperties.FinishOnMissingIssue | index.js:319-329 | finishing on an issue number that does not exist changes no issue; a terminal status makes the close fail and nothing else is fatal |

## Left out

- HTTP requests, URLs, headers and Basic-auth encoding (index.js:10, 31-40, 72-87, 159-172, 191-209, 236-253, 276-292): replaced by the `net` oracle and the `tickets` answers.
- The log file, `console.log`, message texts and the `Date` timestamps in the banners and file name (index.js:11, 21-24, 305-306, 339-340): the log is a sequence of message kinds (`Entry`).
- `setTimeout` and `Promise.all` timing (index.js:221, 233-265): each pacing delay is a counter step taken after the post completes; the waits of the post and the delay are not modelled as running together.
- config.js: it only loads settings, and config.js is not part of this model.
- The `TypeError` raised when a failed request carries no `response` (index.js:94): modelled as an ordinary fatal fetch error (`TicketRequestFailed(None)`), without the different message.
- Values of unexpected JSON types: a field that is present but not a string, and a comment element that is an object without a `body`, whose `undefined` would be pushed.
- Deleted issues and pull requests that share GitHub's numbering: the last issue number is the issue count.
- The range constants `unfuddleTicketNumberStart`/`unfuddleTicketNumberEnd` (index.js:7-8) become the parameters `start` and `end`; the shipped values are kept as constants, and `ShippedRangeNeverStarts` is proved about them.
- Issue numbers returned by GitHub's create call: the copier never reads them, so `Destination.Create`'s number is not used by the loop.
- Ticket and issue numbers are unbounded naturals. JavaScript number precision (integers above 2^53, where `i++` at index.js:313 stops advancing) and the exponent rendering of numbers of 10^21 and above are not modelled.
- Text.NatToString: states the digit rendering of `${n}`, which JavaScript produces only below 10^21.
- MigrationSpec.MigrateRange: always ends, whereas a JavaScript loop whose end lies above 2^53 would not.
