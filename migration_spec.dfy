/**
 * What one run of the copier does, as functions over a value of the world it
 * acts on: the GitHub issues, the run log, the pacing delays waited and the
 * ticket numbers fetched. The imperative methods in module Migration are
 * proved to follow these functions.
 */
module MigrationSpec {
  import opened Failures
  import opened Transformer
  import opened GitHub

  /** The range of Unfuddle ticket numbers the source is configured with. */
  const UnfuddleTicketNumberStart: int := 1
  const UnfuddleTicketNumberEnd: int := 1

  /** The pacing delay after every comment post, in milliseconds. */
  const CommentDelayMs: nat := 5000

  /** The kinds of message the run writes to its log. */
  datatype Entry =
    | StartBanner
    | Blank
    | Warned(warning: Warning)
    | IssueCreated(ticket: nat)
    | CommentPosted(issue: nat)
    | IssueClosed(issue: nat)
    | Failed(error: Error)
    | Stopping
    | EndBanner

  datatype World = World(issues: seq<Issue>, log: seq<Entry>, delays: nat, visited: seq<nat>)

  /** A world reached by some steps, and the fatal error that stopped them, if any. */
  datatype Step = Step(world: World, fatal: Option<Error>)

  function WarningEntries(ws: seq<Warning>): (es: seq<Entry>)
    ensures |es| == |ws| && forall i :: 0 <= i < |ws| ==> es[i] == Warned(ws[i])
  {
    seq(|ws|, i requires 0 <= i < |ws| => Warned(ws[i]))
  }

  /** Whether GitHub accepts comment `k` posted to issue `m`: the network is up and the issue exists. */
  predicate CommentAccepted(issues: seq<Issue>, m: nat, k: nat, net: Network) {
    net(PostComment(m, k)) && 1 <= m <= |issues|
  }

  /** Issue `m` with `c` appended to its comments. */
  function AppendComment(issues: seq<Issue>, m: nat, c: string): (r: seq<Issue>)
    requires 1 <= m <= |issues|
    ensures |r| == |issues| && r[m - 1].comments == issues[m - 1].comments + [c]
    ensures forall i :: 0 <= i < |issues| && i != m - 1 ==> r[i] == issues[i]
  {
    issues[m - 1 := issues[m - 1].(comments := issues[m - 1].comments + [c])]
  }

  /** Posting comment `k` (body `c`) to issue `m`, then waiting out the pacing delay whatever the outcome. */
  function PostOneComment(w: World, m: nat, k: nat, c: string, net: Network): (r: World)
    ensures r.visited == w.visited && r.delays == w.delays + 1 && |r.issues| == |w.issues|
    ensures |r.log| == |w.log| + 1 && w.log <= r.log
    ensures !CommentAccepted(w.issues, m, k, net) ==> r.issues == w.issues
  {
    if CommentAccepted(w.issues, m, k, net) then
      w.(issues := AppendComment(w.issues, m, c), log := w.log + [CommentPosted(m)], delays := w.delays + 1)
    else
      w.(log := w.log + [Warned(CommentNotPosted(m))], delays := w.delays + 1)
  }

  /** The first `j` comments of `cs` posted to issue `m`, one after the other. */
  function ReplayComments(w: World, m: nat, cs: seq<string>, j: nat, net: Network): (r: World)
    requires j <= |cs|
    ensures r.visited == w.visited && r.delays == w.delays + j && |r.issues| == |w.issues|
    ensures |r.log| == |w.log| + j && w.log <= r.log
  {
    if j == 0 then w else PostOneComment(ReplayComments(w, m, cs, j - 1, net), m, j - 1, cs[j - 1], net)
  }

  /** The comments among the first `j` of `cs` whose post to issue `m` the network lets through. */
  function Posted(cs: seq<string>, m: nat, net: Network, j: nat): (r: seq<string>)
    requires j <= |cs|
    ensures |r| <= j
  {
    if j == 0 then [] else Posted(cs, m, net, j - 1) + (if net(PostComment(m, j - 1)) then [cs[j - 1]] else [])
  }

  /** `createGitHubIssueFromUnfuddleTicket`: the new issue gets the next number; failure is fatal. */
  function CreateStep(w: World, data: TicketData, n: nat, net: Network): (r: Step)
    ensures r.world.visited == w.visited && w.log <= r.world.log
    ensures r.fatal.None? <==> net(CreateIssue(n))
    ensures |r.world.issues| == |w.issues| + (if r.fatal.None? then 1 else 0)
  {
    if net(CreateIssue(n)) then
      Step(w.(issues := w.issues + [NewIssue(data)], log := w.log + [IssueCreated(n)]), None)
    else
      Step(w, Some(CreateFailed(n)))
  }

  /** `closeGitHubIssueByNumber`: failure, including a missing issue, is fatal. */
  function CloseStep(w: World, m: nat, net: Network): (r: Step)
    ensures r.world.visited == w.visited && w.log <= r.world.log && |r.world.issues| == |w.issues|
    ensures r.fatal.None? <==> net(CloseIssue(m)) && 1 <= m <= |w.issues|
  {
    if net(CloseIssue(m)) && 1 <= m <= |w.issues| then
      Step(w.(issues := w.issues[m - 1 := w.issues[m - 1].(state := Closed)], log := w.log + [IssueClosed(m)]), None)
    else
      Step(w, Some(CloseFailed(m)))
  }

  /** After the creation of issue `n`: replay the comments when there are any, then close it when the status is terminal. */
  function FinishTicket(w: World, n: nat, data: TicketData, net: Network): (r: Step)
    ensures r.world.visited == w.visited && w.log <= r.world.log && |r.world.issues| == |w.issues|
  {
    var cs := data.comments;
    var replayed := if |cs| > 0 then ReplayComments(w, n, cs, |cs|, net) else w;
    if IsTerminal(data.status) then CloseStep(replayed, n, net) else Step(replayed, None)
  }

  /**
   * One iteration of the main loop for ticket `n`: fetch, log the fetch
   * warnings, create, then finish on issue `n`.
   */
  function MigrateTicket(w: World, n: nat, resp: TicketResponse, net: Network): (r: Step)
    ensures r.world.visited == w.visited + [n]
    ensures w.log <= r.world.log
    ensures |w.issues| <= |r.world.issues| <= |w.issues| + 1
    ensures r.fatal.None? ==> |r.world.issues| == |w.issues| + 1
  {
    var w0 := w.(visited := w.visited + [n]);
    match TicketFromResponse(n, resp)
    case Fatal(e) => Step(w0, Some(e))
    case Ok(f) =>
      var created := CreateStep(w0.(log := w0.log + WarningEntries(f.warnings)), f.data, n, net);
      if created.fatal.Some? then created else FinishTicket(created.world, n, f.data, net)
  }

  /** The work of one iteration of the main loop, for ticket `n` answered by `tickets(n)`. */
  function TicketStep(tickets: nat -> TicketResponse, net: Network): (World, nat) -> Step {
    (w: World, n: nat) => MigrateTicket(w, n, tickets(n), net)
  }

  /**
   * `step` is the work of one iteration for the tickets `tickets`. The
   * quantifier is only instantiated where a `MigrateTicket` term is already
   * at hand, so that a proof about the loop as a whole does not unfold the
   * work of every ticket.
   */
  ghost predicate IsTicketStep(step: (World, nat) -> Step, tickets: nat -> TicketResponse, net: Network) {
    forall w: World, n: nat {:trigger MigrateTicket(w, n, tickets(n), net)} :: step(w, n) == MigrateTicket(w, n, tickets(n), net)
  }

  /** The main loop over tickets `s..e`, doing `step` for each and stopping at the first fatal error. */
  function MigrateRange(w: World, s: nat, e: int, step: (World, nat) -> Step): Step
    decreases e - s + 1
  {
    if e < s then Step(w, None)
    else
      var before := MigrateRange(w, s, e - 1, step);
      if before.fatal.Some? then before else step(before.world, e)
  }

  /** Banner, validation, then the main loop unless validation failed. */
  function RunOutcome(w: World, start: int, end: int, tickets: nat -> TicketResponse, net: Network): Step {
    var w1 := w.(log := w.log + [StartBanner, Blank]);
    match ValidateStart(start, w.issues, net)
    case Fatal(e) => Step(w1, Some(e))
    case Ok(_) => MigrateRange(w1, start as nat, end, TicketStep(tickets, net))
  }

  /** A whole run of `start`: the outcome, the error report if any, and the closing banner. */
  function Run(w: World, start: int, end: int, tickets: nat -> TicketResponse, net: Network): World {
    var o := RunOutcome(w, start, end, tickets, net);
    o.world.(log := o.world.log + (if o.fatal.Some? then [Failed(o.fatal.value), Stopping] else []) + [Blank, EndBanner])
  }
}
