/**
 * The copier as it runs: the GitHub repository is an object whose issue list
 * grows and changes, the run log is an object the steps append to, and each
 * function of the source is a method proved to follow module MigrationSpec.
 */
module Migration {
  import opened Failures
  import opened Transformer
  import opened GitHub
  import opened MigrationSpec
  import opened MigrationProperties

  /** The GitHub repository the issues are copied into. */
  class Destination {
    var issues: seq<Issue>

    constructor (issues: seq<Issue>)
      ensures this.issues == issues
    {
      this.issues := issues;
    }

    /** Creates an issue; GitHub gives it the next number. */
    method Create(issue: Issue) returns (number: nat)
      modifies this
      ensures issues == old(issues) + [issue]
      ensures number == |issues| && issues[number - 1] == issue
    {
      issues := issues + [issue];
      number := |issues|;
    }

    /** Appends a comment to issue `m`; every other issue is left as it was. */
    method AddComment(m: nat, body: string)
      requires 1 <= m <= |issues|
      modifies this
      ensures issues == AppendComment(old(issues), m, body)
    {
      issues := issues[m - 1 := issues[m - 1].(comments := issues[m - 1].comments + [body])];
    }

    /** Sets the state of issue `m` to closed. */
    method Close(m: nat)
      requires 1 <= m <= |issues|
      modifies this
      ensures issues == old(issues)[m - 1 := old(issues)[m - 1].(state := Closed)]
    {
      issues := issues[m - 1 := issues[m - 1].(state := Closed)];
    }
  }

  /** The local side of a run: the log it writes, the pacing delays it waits and the tickets it fetches. */
  class Runtime {
    var log: seq<Entry>
    ghost var delays: nat
    ghost var visited: seq<nat>

    constructor ()
      ensures log == [] && delays == 0 && visited == []
    {
      log := [];
      delays := 0;
      visited := [];
    }

    method Log(e: Entry)
      modifies this
      ensures log == old(log) + [e] && delays == old(delays) && visited == old(visited)
    {
      log := log + [e];
    }

    /** `timeout(5000)`: waits out one pacing delay. */
    method Pause(ms: nat)
      requires ms == CommentDelayMs
      modifies this
      ensures delays == old(delays) + 1 && log == old(log) && visited == old(visited)
    {
      delays := delays + 1;
    }
  }

  ghost function Snapshot(dest: Destination, rt: Runtime): World
    reads dest, rt
  {
    World(dest.issues, rt.log, rt.delays, rt.visited)
  }

  /** `getGitHubLastIssueNumber` */
  method GetGitHubLastIssueNumber(dest: Destination, net: Network) returns (r: Result<nat>)
    ensures r == LastIssueNumber(dest.issues, net)
    ensures r.Ok? ==> r.value == |dest.issues|
  {
    if !net(LastIssueQuery) {
      return Fatal(LastIssueQueryFailed);
    }
    if |dest.issues| == 0 {
      return Fatal(MissingLastIssueNumber);
    }
    r := Ok(|dest.issues|);
  }

  /** `validateUnfuddleStartTicketNumber` */
  method ValidateUnfuddleStartTicketNumber(dest: Destination, start: int, net: Network) returns (r: Result<nat>)
    ensures r == ValidateStart(start, dest.issues, net)
    ensures r.Ok? <==> net(LastIssueQuery) && 0 < |dest.issues| < start
  {
    r := GetGitHubLastIssueNumber(dest, net);
    if r.Ok? && start <= r.value {
      r := Fatal(StartNotAboveLastIssue(start, r.value));
    }
  }

  /** `createGitHubIssueFromUnfuddleTicket` */
  method CreateGitHubIssueFromUnfuddleTicket(dest: Destination, rt: Runtime, data: TicketData, n: nat, net: Network)
    returns (err: Option<Error>)
    modifies dest, rt
    ensures Step(Snapshot(dest, rt), err) == CreateStep(old(Snapshot(dest, rt)), data, n, net)
  {
    if !net(CreateIssue(n)) {
      return Some(CreateFailed(n));
    }
    var _ := dest.Create(Issue(data.title, IssueBody(data.description), NewGitHubIssueLabels, [], Open));
    rt.Log(IssueCreated(n));
    err := None;
  }

  /** `addGitHubIssueComments`: each comment is posted once, in order, each followed by the pacing delay. */
  method AddGitHubIssueComments(dest: Destination, rt: Runtime, m: nat, comments: seq<string>, net: Network)
    modifies dest, rt
    ensures Snapshot(dest, rt) == ReplayComments(old(Snapshot(dest, rt)), m, comments, |comments|, net)
  {
    ghost var w := Snapshot(dest, rt);
    for i := 0 to |comments|
      invariant Snapshot(dest, rt) == ReplayComments(w, m, comments, i, net)
    {
      if CommentAccepted(dest.issues, m, i, net) {
        dest.AddComment(m, comments[i]);
        rt.Log(CommentPosted(m));
      } else {
        rt.Log(Warned(CommentNotPosted(m)));
      }
      rt.Pause(CommentDelayMs);
    }
  }

  /** `closeGitHubIssueByNumber` */
  method CloseGitHubIssueByNumber(dest: Destination, rt: Runtime, m: nat, net: Network) returns (err: Option<Error>)
    modifies dest, rt
    ensures Step(Snapshot(dest, rt), err) == CloseStep(old(Snapshot(dest, rt)), m, net)
  {
    if !(net(CloseIssue(m)) && 1 <= m <= |dest.issues|) {
      return Some(CloseFailed(m));
    }
    dest.Close(m);
    rt.Log(IssueClosed(m));
    err := None;
  }

  /** The body of the main loop of `start` for ticket `n`. */
  method CopyTicket(dest: Destination, rt: Runtime, n: nat, resp: TicketResponse, net: Network) returns (err: Option<Error>)
    modifies dest, rt
    ensures Step(Snapshot(dest, rt), err) == MigrateTicket(old(Snapshot(dest, rt)), n, resp, net)
  {
    rt.visited := rt.visited + [n];
    var fetched := GetUnfuddleTicketByNumber(n, resp);
    if fetched.Fatal? {
      return Some(fetched.error);
    }
    var data := fetched.value.data;
    // The fetch returns its warnings as values; logging them here stands for the
    // `log` calls made where they arise (index.js:96, 180), at most one per ticket.
    for i := 0 to |fetched.value.warnings|
      invariant rt.log == old(rt.log) + WarningEntries(fetched.value.warnings[..i])
      invariant dest.issues == old(dest.issues) && rt.delays == old(rt.delays) && rt.visited == old(rt.visited) + [n]
    {
      assert fetched.value.warnings[..i + 1] == fetched.value.warnings[..i] + [fetched.value.warnings[i]];
      rt.Log(Warned(fetched.value.warnings[i]));
    }
    assert fetched.value.warnings[..|fetched.value.warnings|] == fetched.value.warnings;
    err := CreateGitHubIssueFromUnfuddleTicket(dest, rt, data, n, net);
    if err.Some? {
      return;
    }
    if |data.comments| > 0 {
      AddGitHubIssueComments(dest, rt, n, data.comments, net);
    }
    if IsTerminal(data.status) {
      err := CloseGitHubIssueByNumber(dest, rt, n, net);
    }
  }

  /** The `for` loop of `start`: tickets `s..e` in increasing order until the first fatal error. */
  method CopyTickets(dest: Destination, rt: Runtime, s: nat, e: int, tickets: nat -> TicketResponse, net: Network,
                     ghost step: (World, nat) -> Step)
    returns (fatal: Option<Error>)
    requires IsTicketStep(step, tickets, net)
    modifies dest, rt
    ensures Step(Snapshot(dest, rt), fatal) == MigrateRange(old(Snapshot(dest, rt)), s, e, step)
  {
    ghost var w := Snapshot(dest, rt);
    fatal := None;
    var i: nat := s;
    while i <= e
      invariant s <= i && (i <= e + 1 || i == s)
      invariant MigrateRange(w, s, i - 1, step) == Step(Snapshot(dest, rt), None)
      invariant fatal.None?
      decreases e - i
    {
      fatal := CopyNextTicket(dest, rt, w, s, i, e, tickets, net, step);
      if fatal.Some? {
        return;
      }
      i := i + 1;
    }
    assert i - 1 == e || (i == s && e < s);
  }

  /** One iteration of the loop of `CopyTickets`: ticket `i`, after `s..i-1` went through without fatal error. */
  method CopyNextTicket(dest: Destination, rt: Runtime, ghost w: World, s: nat, i: nat, e: int,
                        tickets: nat -> TicketResponse, net: Network, ghost step: (World, nat) -> Step)
    returns (fatal: Option<Error>)
    requires IsTicketStep(step, tickets, net)
    requires s <= i <= e
    requires MigrateRange(w, s, i - 1, step) == Step(Snapshot(dest, rt), None)
    modifies dest, rt
    ensures MigrateRange(w, s, i, step) == Step(Snapshot(dest, rt), fatal)
    ensures fatal.Some? ==> MigrateRange(w, s, e, step) == Step(Snapshot(dest, rt), fatal)
  {
    ghost var before := Snapshot(dest, rt);
    fatal := CopyTicket(dest, rt, i, tickets(i), net);
    MigrateRangeStep(w, s, i, e, before, Step(Snapshot(dest, rt), fatal), step);
  }

  /**
   * `start`: the banners, the start-number check, then the loop over the
   * tickets; a fatal error is logged and ends the run early.
   */
  method Start(dest: Destination, rt: Runtime, start: int, end: int, tickets: nat -> TicketResponse, net: Network)
    modifies dest, rt
    ensures Snapshot(dest, rt) == Run(old(Snapshot(dest, rt)), start, end, tickets, net)
  {
    ghost var w := Snapshot(dest, rt);
    var fatal := ValidateAndCopy(dest, rt, start, end, tickets, net);
    if fatal.Some? {
      rt.Log(Failed(fatal.value));
      rt.Log(Stopping);
    }
    rt.Log(Blank);
    rt.Log(EndBanner);
  }

  /** The opening banner and the `try` block of `start`: the start-number check, then the loop over the tickets. */
  method ValidateAndCopy(dest: Destination, rt: Runtime, start: int, end: int, tickets: nat -> TicketResponse, net: Network)
    returns (fatal: Option<Error>)
    modifies dest, rt
    ensures Step(Snapshot(dest, rt), fatal) == RunOutcome(old(Snapshot(dest, rt)), start, end, tickets, net)
  {
    ghost var w := Snapshot(dest, rt);
    rt.Log(StartBanner);
    rt.Log(Blank);
    ghost var w1 := Snapshot(dest, rt);
    assert w1 == w.(log := w.log + [StartBanner, Blank]);
    var valid := ValidateUnfuddleStartTicketNumber(dest, start, net);
    if valid.Fatal? {
      fatal := Some(valid.error);
      assert RunOutcome(w, start, end, tickets, net) == Step(w1, fatal);
    } else {
      assert RunOutcome(w, start, end, tickets, net) == MigrateRange(w1, start, end, TicketStep(tickets, net));
      TicketStepIsTicketStep(tickets, net);
      fatal := CopyTickets(dest, rt, start, end, tickets, net, TicketStep(tickets, net));
    }
  }

  /**
   * One more iteration of the main loop: the range up to `i` ends where ticket
   * `i` ends, and if that is a fatal error, so does every longer range.
   */
  lemma MigrateRangeStep(w: World, s: nat, i: nat, e: int, before: World, after: Step, step: (World, nat) -> Step)
    requires s <= i
    requires MigrateRange(w, s, i - 1, step) == Step(before, None)
    requires after == step(before, i)
    ensures MigrateRange(w, s, i, step) == after
    ensures after.fatal.Some? && i <= e ==> MigrateRange(w, s, e, step) == after
  {
    if after.fatal.Some? && i <= e {
      FatalIsFinal(w, s, i, e, step);
    }
  }
}
