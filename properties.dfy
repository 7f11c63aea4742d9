/**
 * What the copier guarantees, proved about the specification in module
 * MigrationSpec (and so, through their postconditions, about the methods of
 * module Migration).
 */
module MigrationProperties {
  import opened Failures
  import opened Text
  import opened Transformer
  import opened GitHub
  import opened MigrationSpec

  /** The issue ticket `n` should become: its title, its body, the label, the comments GitHub accepted, closed iff terminal. */
  function ExpectedIssue(n: nat, data: TicketData, net: Network): Issue {
    Issue(data.title, IssueBody(data.description), NewGitHubIssueLabels,
          Posted(data.comments, n, net, |data.comments|),
          if IsTerminal(data.status) then Closed else Open)
  }

  /** The log entry for an attempt to post comment `k` to issue `m`. */
  function CommentEntry(issues: seq<Issue>, m: nat, k: nat, net: Network): Entry {
    if CommentAccepted(issues, m, k, net) then CommentPosted(m) else Warned(CommentNotPosted(m))
  }

  // ---------------------------------------------------------------- transformer

  /** Placeholder titles of different ticket numbers differ. */
  lemma PlaceholderTitlesDistinct(a: nat, b: nat)
    requires a != b
    ensures PlaceholderTitle(a) != PlaceholderTitle(b)
  {
  }

  /** A placeholder is made for a 404 answer and for nothing else; every other outcome is real data or fatal. */
  lemma PlaceholderOnlyOnNotFound(n: nat, resp: TicketResponse)
    ensures TicketFromResponse(n, resp).Ok? && TicketMissing(n) in TicketFromResponse(n, resp).value.warnings
            <==> resp == TicketRequestFailed(Some(NotFound))
  {
  }

  /** Every record that is created has a truthy title and description, and its issue body is never blank. */
  lemma RecordFieldsNotEmpty(n: nat, resp: TicketResponse)
    requires TicketFromResponse(n, resp).Ok?
    ensures var d := TicketFromResponse(n, resp).value.data;
      d.title != "" && d.description != "" && d.status != "" && !IsBlank(NewIssue(d).body)
  {
    assert PlaceholderTitle(n)[0] == 'M';
  }

  // ---------------------------------------------------------------- comment replay

  /** `Posted` keeps at most the comments it was given, and all of them when the network never fails. */
  lemma {:induction false} PostedBounds(cs: seq<string>, m: nat, net: Network, j: nat)
    requires j <= |cs|
    ensures |Posted(cs, m, net, j)| <= j
    ensures (forall k :: 0 <= k < j ==> net(PostComment(m, k))) ==> Posted(cs, m, net, j) == cs[..j]
  {
    if j > 0 {
      PostedBounds(cs, m, net, j - 1);
      assert cs[..j] == cs[..j - 1] + [cs[j - 1]];
    }
  }

  /**
   * Replaying the first `j` comments on issue `m`: one attempt per comment in
   * order, each logged as posted or skipped (the pacing delays and the log
   * length are in the contract of `ReplayComments`); when issue `m` exists it
   * gains exactly the accepted comments, otherwise nothing changes on GitHub.
   */
  lemma {:induction false} ReplayCommentsEffect(w: World, m: nat, cs: seq<string>, j: nat, net: Network)
    requires j <= |cs|
    ensures var r := ReplayComments(w, m, cs, j, net);
      (forall k :: |w.log| <= k < |r.log| ==> r.log[k] == CommentEntry(w.issues, m, k - |w.log|, net))
      && r.issues == (if 1 <= m <= |w.issues|
                      then w.issues[m - 1 := w.issues[m - 1].(comments := w.issues[m - 1].comments + Posted(cs, m, net, j))]
                      else w.issues)
  {
    if j > 0 {
      ReplayCommentsEffect(w, m, cs, j - 1, net);
      var p := ReplayComments(w, m, cs, j - 1, net);
      assert |p.issues| == |w.issues|;
      assert CommentAccepted(p.issues, m, j - 1, net) == CommentAccepted(w.issues, m, j - 1, net);
      var r := ReplayComments(w, m, cs, j, net);
      if 1 <= m <= |w.issues| {
        var before := w.issues[m - 1].comments;
        var extra := if net(PostComment(m, j - 1)) then [cs[j - 1]] else [];
        assert Posted(cs, m, net, j) == Posted(cs, m, net, j - 1) + extra;
        assert before + Posted(cs, m, net, j) == (before + Posted(cs, m, net, j - 1)) + extra;
        assert p.issues[m - 1].comments == before + Posted(cs, m, net, j - 1);
        assert r.issues[m - 1].comments == p.issues[m - 1].comments + extra;
        assert r.issues[m - 1] == w.issues[m - 1].(comments := before + Posted(cs, m, net, j));
        assert |r.issues| == |w.issues|;
        forall i | 0 <= i < |w.issues| && i != m - 1 ensures r.issues[i] == w.issues[i] {
          assert p.issues[i] == w.issues[i];
        }
      }
    } else if 1 <= m <= |w.issues| {
      assert w.issues[m - 1].comments + Posted(cs, m, net, 0) == w.issues[m - 1].comments;
      assert w.issues[m - 1 := w.issues[m - 1]] == w.issues;
    }
  }

  // ---------------------------------------------------------------- one ticket

  /**
   * After creation: one pacing delay per comment, one log entry per comment
   * attempt in order, then the closing entry last when the status is terminal
   * and the close succeeds; a failed close is the only fatal outcome. Issue
   * `n`, when it exists, gains the accepted comments and is closed exactly
   * when the status is terminal; no other issue changes.
   */
  lemma FinishTicketEffect(w: World, n: nat, data: TicketData, net: Network)
    ensures var o := FinishTicket(w, n, data, net);
      var r := o.world;
      var cs := data.comments;
      var closed := IsTerminal(data.status) && o.fatal.None?;
      r.visited == w.visited && r.delays == w.delays + |cs| && |r.issues| == |w.issues|
      && |r.log| == |w.log| + |cs| + (if closed then 1 else 0)
      && r.log[..|w.log|] == w.log
      && (forall k :: |w.log| <= k < |w.log| + |cs| ==> r.log[k] == CommentEntry(w.issues, n, k - |w.log|, net))
      && (closed ==> r.log[|r.log| - 1] == IssueClosed(n))
      && (o.fatal.None? <==> !IsTerminal(data.status) || (net(CloseIssue(n)) && 1 <= n <= |w.issues|))
      && (o.fatal.Some? ==> o.fatal == Some(CloseFailed(n)))
      && r.issues == (if 1 <= n <= |w.issues|
                      then w.issues[n - 1 := w.issues[n - 1].(comments := w.issues[n - 1].comments + Posted(cs, n, net, |cs|),
                                                              state := if closed then Closed else w.issues[n - 1].state)]
                      else w.issues)
  {
    var cs := data.comments;
    ReplayCommentsEffect(w, n, cs, |cs|, net);
    assert |cs| == 0 ==> Posted(cs, n, net, |cs|) == [];
  }

  /**
   * The log of a successful finish of issue `n` right after its creation: what
   * came before, the creation, one entry per comment attempt, then the closing
   * when terminal.
   */
  lemma FinishAfterCreation(w: World, n: nat, data: TicketData, net: Network, before: seq<Entry>)
    requires w.log == before + [IssueCreated(n)]
    requires FinishTicket(w, n, data, net).fatal.None?
    ensures var r := FinishTicket(w, n, data, net).world;
      var cs := data.comments;
      var created := |before|;
      |r.log| == created + 1 + |cs| + (if IsTerminal(data.status) then 1 else 0)
      && r.log[..created] == before
      && r.log[created] == IssueCreated(n)
      && (forall k :: created < k <= created + |cs| ==>
            r.log[k] == CommentPosted(n) || r.log[k] == Warned(CommentNotPosted(n)))
      && (IsTerminal(data.status) ==> r.log[|r.log| - 1] == IssueClosed(n))
      && r.delays == w.delays + |cs|
  {
    FinishTicketEffect(w, n, data, net);
    var r := FinishTicket(w, n, data, net).world;
    assert r.log[..|before|] == w.log[..|before|];
  }

  /**
   * Without a fatal error, ticket `n` logs its fetch warnings, the creation,
   * one entry per comment and, last and only for a terminal status, the
   * closing; it waits one pacing delay per comment.
   */
  lemma TicketLogOrder(w: World, n: nat, resp: TicketResponse, net: Network)
    requires MigrateTicket(w, n, resp, net).fatal.None?
    ensures TicketFromResponse(n, resp).Ok?
    ensures var f := TicketFromResponse(n, resp).value;
      var r := MigrateTicket(w, n, resp, net).world;
      var cs := f.data.comments;
      var created := |w.log + WarningEntries(f.warnings)|;
      |r.log| == created + 1 + |cs| + (if IsTerminal(f.data.status) then 1 else 0)
      && r.log[..created] == w.log + WarningEntries(f.warnings)
      && r.log[created] == IssueCreated(n)
      && (forall k :: created < k <= created + |cs| ==>
            r.log[k] == CommentPosted(n) || r.log[k] == Warned(CommentNotPosted(n)))
      && (IsTerminal(f.data.status) ==> r.log[|r.log| - 1] == IssueClosed(n))
      && r.delays == w.delays + |cs|
  {
    TicketIsFinish(w, n, resp, net);
    var f := TicketFromResponse(n, resp).value;
    var before := w.log + WarningEntries(f.warnings);
    var cw := w.(visited := w.visited + [n], log := before + [IssueCreated(n)], issues := w.issues + [NewIssue(f.data)]);
    FinishAfterCreation(cw, n, f.data, net, before);
  }

  /** A ticket without fatal error is its creation, with the fetch warnings logged first, followed by its finish. */
  lemma TicketIsFinish(w: World, n: nat, resp: TicketResponse, net: Network)
    requires MigrateTicket(w, n, resp, net).fatal.None?
    ensures TicketFromResponse(n, resp).Ok?
    ensures var f := TicketFromResponse(n, resp).value;
      var cw := w.(visited := w.visited + [n], log := w.log + WarningEntries(f.warnings) + [IssueCreated(n)],
                   issues := w.issues + [NewIssue(f.data)]);
      net(CreateIssue(n)) && MigrateTicket(w, n, resp, net) == FinishTicket(cw, n, f.data, net)
  {
    var f := TicketFromResponse(n, resp).value;
    var w1 := w.(visited := w.visited + [n], log := w.log + WarningEntries(f.warnings));
    assert CreateStep(w1, f.data, n, net).fatal.None?;
  }

  /** Finishing the issue just created as the last one turns it into the expected issue. */
  lemma FinishNewestIssue(w: World, n: nat, data: TicketData, net: Network)
    requires n >= 1 && |w.issues| == n && w.issues[n - 1] == NewIssue(data)
    requires FinishTicket(w, n, data, net).fatal.None?
    ensures FinishTicket(w, n, data, net).world.issues == w.issues[..n - 1] + [ExpectedIssue(n, data, net)]
  {
    FinishTicketEffect(w, n, data, net);
    var cs := data.comments;
    var exp := ExpectedIssue(n, data, net);
    assert [] + Posted(cs, n, net, |cs|) == Posted(cs, n, net, |cs|);
    assert NewIssue(data).(comments := [] + Posted(cs, n, net, |cs|),
                           state := if IsTerminal(data.status) then Closed else Open) == exp;
    assert w.issues[n - 1 := exp] == w.issues[..n - 1] + [exp];
  }

  /** On the next free number, a ticket without fatal error becomes exactly its expected issue. */
  lemma TicketOnNextNumber(w: World, n: nat, resp: TicketResponse, net: Network)
    requires n >= 1 && |w.issues| == n - 1
    requires MigrateTicket(w, n, resp, net).fatal.None?
    ensures TicketFromResponse(n, resp).Ok?
    ensures MigrateTicket(w, n, resp, net).world.issues ==
            w.issues + [ExpectedIssue(n, TicketFromResponse(n, resp).value.data, net)]
  {
    var f := TicketFromResponse(n, resp).value;
    var w1 := w.(visited := w.visited + [n], log := w.log + WarningEntries(f.warnings));
    var created := CreateStep(w1, f.data, n, net);
    assert created.fatal.None?;
    assert created.world.issues == w.issues + [NewIssue(f.data)];
    assert MigrateTicket(w, n, resp, net) == FinishTicket(created.world, n, f.data, net);
    FinishNewestIssue(created.world, n, f.data, net);
    assert created.world.issues[..n - 1] == w.issues;
  }

  // ---------------------------------------------------------------- the main loop

  /** `TicketStep` is the work of one iteration for its tickets. */
  lemma TicketStepIsTicketStep(tickets: nat -> TicketResponse, net: Network)
    ensures IsTicketStep(TicketStep(tickets, net), tickets, net)
  {
  }

  /** The first fatal error ends the loop: a longer range ends in the same state with the same error. */
  lemma {:induction false} FatalIsFinal(w: World, s: nat, e: int, e': int, step: (World, nat) -> Step)
    requires e <= e'
    requires MigrateRange(w, s, e, step).fatal.Some?
    ensures MigrateRange(w, s, e', step) == MigrateRange(w, s, e, step)
    decreases e' - e
  {
    if e < e' {
      FatalIsFinal(w, s, e, e' - 1, step);
    }
  }

  /**
   * What one iteration does to the parts of the world the loop keeps track
   * of: it records ticket `n` as fetched, only appends to the log, and creates
   * at most one issue, exactly one when it meets no fatal error.
   */
  ghost predicate TicketFrame(w: World, n: nat, o: Step) {
    o.world.visited == w.visited + [n]
    && w.log <= o.world.log
    && |w.issues| <= |o.world.issues| <= |w.issues| + 1
    && (o.fatal.None? ==> |o.world.issues| == |w.issues| + 1)
  }

  /** Every iteration of `step` keeps `TicketFrame`. */
  ghost predicate StepKeepsFrame(step: (World, nat) -> Step) {
    forall w: World, n: nat :: TicketFrame(w, n, step(w, n))
  }

  /** The iterations of the copier keep `TicketFrame`. */
  lemma TicketStepKeepsFrame(tickets: nat -> TicketResponse, net: Network)
    ensures StepKeepsFrame(TicketStep(tickets, net))
  {
    forall w: World, n: nat
      ensures TicketFrame(w, n, TicketStep(tickets, net)(w, n))
    {
      var o := MigrateTicket(w, n, tickets(n), net);
      assert TicketStep(tickets, net)(w, n) == o;
    }
  }

  /**
   * How far a run of the loop from `w` over tickets starting at `s` may have
   * got, having been given `count` tickets: it fetched `s, s+1, ...` in
   * increasing order and no more than `count` of them, all of them when no
   * fatal error occurred; the log only grew; at most one issue was created
   * per fetched ticket, exactly one without fatal error.
   */
  ghost predicate LoopProgress(w: World, o: Step, s: nat, count: nat) {
    var r := o.world;
    |w.visited| <= |r.visited| <= |w.visited| + count
    && r.visited[..|w.visited|] == w.visited
    && (forall k :: |w.visited| <= k < |r.visited| ==> r.visited[k] == s + (k - |w.visited|))
    && w.log <= r.log
    && |w.issues| <= |r.issues| <= |w.issues| + (|r.visited| - |w.visited|)
    && (o.fatal.None? ==> |r.visited| == |w.visited| + count && |r.issues| == |w.issues| + count)
    && (o.fatal.Some? ==> |r.visited| > |w.visited|)
  }

  /** One ticket more: `LoopProgress` is kept by an iteration for ticket `s + count`. */
  lemma LoopProgressStep(w: World, b: Step, o: Step, s: nat, count: nat)
    requires LoopProgress(w, b, s, count) && b.fatal.None?
    requires TicketFrame(b.world, s + count, o)
    ensures LoopProgress(w, o, s, count + 1)
  {
    assert o.world.visited[..|w.visited|] == b.world.visited[..|w.visited|];
  }

  /** With iterations that keep `TicketFrame`, the loop over `s..e` makes the progress `LoopProgress` describes, `e - s + 1` tickets given. */
  lemma {:induction false} RangeVisitsInOrder(w: World, s: nat, e: int, step: (World, nat) -> Step)
    requires StepKeepsFrame(step)
    decreases e - s + 1
    ensures LoopProgress(w, MigrateRange(w, s, e, step), s, if e < s then 0 else e - s + 1)
  {
    if e >= s {
      RangeVisitsInOrder(w, s, e - 1, step);
      var before := MigrateRange(w, s, e - 1, step);
      if before.fatal.None? {
        var o := step(before.world, e);
        assert TicketFrame(before.world, e, o);
        LoopProgressStep(w, before, o, s, e - s);
      }
    }
  }

  /** The issue ticket `n` should become, given the answer `resp` to its fetch; `None` when the fetch is fatal. */
  function CopyOf(n: nat, resp: TicketResponse, net: Network): Option<Issue> {
    match TicketFromResponse(n, resp)
    case Ok(f) => Some(ExpectedIssue(n, f.data, net))
    case Fatal(_) => None
  }

  /** `CopyOf` for every ticket number, the tickets being answered by `tickets`. */
  function Copies(tickets: nat -> TicketResponse, net: Network): nat -> Option<Issue> {
    (n: nat) => CopyOf(n, tickets(n), net)
  }

  /**
   * Issue `n` is `copy(n)` for every `n` in `s..e`, those are the last
   * issues, and the issues that were there before are untouched.
   */
  ghost predicate Corresponds(before: seq<Issue>, issues: seq<Issue>, s: nat, e: int, copy: nat -> Option<Issue>)
    requires s >= 1 && |before| == s - 1
  {
    |issues| == (if e < s then s - 1 else e)
    && issues[..s - 1] == before
    && (forall n :: s <= n <= e ==> copy(n) == Some(issues[n - 1]))
  }

  /** Appending the copy of ticket `e` extends the correspondence from `s..e-1` to `s..e`. */
  lemma CorrespondsStep(before: seq<Issue>, issues: seq<Issue>, s: nat, e: nat, copy: nat -> Option<Issue>, x: Issue)
    requires s >= 1 && |before| == s - 1 && s <= e
    requires Corresponds(before, issues, s, e - 1, copy)
    requires copy(e) == Some(x)
    ensures Corresponds(before, issues + [x], s, e, copy)
  {
    var next := issues + [x];
    assert next[..s - 1] == issues[..s - 1];
    forall n | s <= n <= e
      ensures copy(n) == Some(next[n - 1])
    {
      if n < e {
        assert next[n - 1] == issues[n - 1];
      }
    }
  }

  /** An iteration of `step` without fatal error on the next free number `n` appends exactly `copy(n)`. */
  ghost predicate StepAppendsCopy(step: (World, nat) -> Step, copy: nat -> Option<Issue>) {
    forall w: World, n: nat :: n >= 1 && |w.issues| == n - 1 && step(w, n).fatal.None? ==>
      copy(n).Some? && step(w, n).world.issues == w.issues + [copy(n).value]
  }

  /** The iterations of the copier append the copies `Copies` names. */
  lemma TicketStepAppendsCopy(tickets: nat -> TicketResponse, net: Network)
    ensures StepAppendsCopy(TicketStep(tickets, net), Copies(tickets, net))
  {
    forall w: World, n: nat | n >= 1 && |w.issues| == n - 1 && TicketStep(tickets, net)(w, n).fatal.None?
      ensures Copies(tickets, net)(n).Some?
      ensures TicketStep(tickets, net)(w, n).world.issues == w.issues + [Copies(tickets, net)(n).value]
    {
      var o := MigrateTicket(w, n, tickets(n), net);
      assert TicketStep(tickets, net)(w, n) == o;
      assert Copies(tickets, net)(n) == CopyOf(n, tickets(n), net);
      TicketCopyOnNextNumber(w, n, tickets(n), net, o);
    }
  }

  /** `TicketOnNextNumber` in terms of `CopyOf`. */
  lemma TicketCopyOnNextNumber(w: World, n: nat, resp: TicketResponse, net: Network, o: Step)
    requires n >= 1 && |w.issues| == n - 1
    requires o == MigrateTicket(w, n, resp, net) && o.fatal.None?
    ensures CopyOf(n, resp, net).Some? && o.world.issues == w.issues + [CopyOf(n, resp, net).value]
  {
    TicketOnNextNumber(w, n, resp, net);
  }

  /**
   * The numbering correspondence: when the first ticket lands on the next free
   * GitHub number, every iteration appends its copy, and no fatal error
   * occurs, issue `n` is `copy(n)` for every `n` in `s..e`, and the issues
   * that were there before are untouched.
   */
  lemma {:induction false} RangeCorrespondence(w: World, s: nat, e: int, step: (World, nat) -> Step, copy: nat -> Option<Issue>)
    requires StepAppendsCopy(step, copy)
    requires s >= 1 && |w.issues| == s - 1
    requires MigrateRange(w, s, e, step).fatal.None?
    decreases e - s + 1
    ensures Corresponds(w.issues, MigrateRange(w, s, e, step).world.issues, s, e, copy)
  {
    if e >= s {
      var before := MigrateRange(w, s, e - 1, step);
      assert before.fatal.None?;
      RangeCorrespondence(w, s, e - 1, step, copy);
      var o := step(before.world, e);
      assert o == MigrateRange(w, s, e, step);
      CorrespondsStep(w.issues, before.world.issues, s, e, copy, copy(e).value);
    }
  }

  // ---------------------------------------------------------------- a whole run

  /** A failed start-number check ends the run before anything is fetched or created. */
  lemma FailedValidationCreatesNothing(w: World, start: int, end: int, tickets: nat -> TicketResponse, net: Network)
    requires ValidateStart(start, w.issues, net).Fatal?
    ensures Run(w, start, end, tickets, net) ==
      w.(log := w.log + [StartBanner, Blank, Failed(ValidateStart(start, w.issues, net).error), Stopping, Blank, EndBanner])
  {
  }

  /** The start ticket number the source ships with (1) can never pass the check: no issue is ever created. */
  lemma ShippedRangeNeverStarts(w: World, tickets: nat -> TicketResponse, net: Network)
    ensures Run(w, UnfuddleTicketNumberStart, UnfuddleTicketNumberEnd, tickets, net).issues == w.issues
    ensures ValidateStart(UnfuddleTicketNumberStart, w.issues, net).Fatal?
  {
  }

  /**
   * Every run opens with the start banner and ends with the end banner; a
   * fatal error is reported just before the closing lines, and nothing already
   * in the log is lost.
   */
  lemma RunIsFramedByBanners(w: World, start: int, end: int, tickets: nat -> TicketResponse, net: Network)
    ensures var r := Run(w, start, end, tickets, net);
      var o := RunOutcome(w, start, end, tickets, net);
      |r.log| >= |w.log| + 4
      && r.log[..|w.log| + 2] == w.log + [StartBanner, Blank]
      && r.log[|r.log| - 2..] == [Blank, EndBanner]
      && (o.fatal.Some? ==> r.log[|r.log| - 4..] == [Failed(o.fatal.value), Stopping, Blank, EndBanner])
  {
    var w1 := w.(log := w.log + [StartBanner, Blank]);
    var o := RunOutcome(w, start, end, tickets, net);
    if ValidateStart(start, w.issues, net).Ok? {
      TicketStepKeepsFrame(tickets, net);
      RangeVisitsInOrder(w1, start as nat, end, TicketStep(tickets, net));
    }
    assert w1.log <= o.world.log;
    ClosingLines(w.log, o.world.log, o.fatal);
  }

  /** The log of a run, from its outcome's log: the opening lines kept, the error report if any, then the closing lines. */
  lemma ClosingLines(before: seq<Entry>, mid: seq<Entry>, fatal: Option<Error>)
    requires before + [StartBanner, Blank] <= mid
    ensures var r := mid + (if fatal.Some? then [Failed(fatal.value), Stopping] else []) + [Blank, EndBanner];
      |r| >= |before| + 4
      && r[..|before| + 2] == before + [StartBanner, Blank]
      && r[|r| - 2..] == [Blank, EndBanner]
      && (fatal.Some? ==> r[|r| - 4..] == [Failed(fatal.value), Stopping, Blank, EndBanner])
  {
    var r := mid + (if fatal.Some? then [Failed(fatal.value), Stopping] else []) + [Blank, EndBanner];
    assert r[..|before| + 2] == mid[..|before| + 2];
  }

  /**
   * The run-level correspondence: when `start` is exactly one above the last
   * GitHub issue number and the run meets no fatal error, GitHub issue `n` is
   * the copy of Unfuddle ticket `n` for every `n` in `start..end`.
   */
  lemma RunCorrespondence(w: World, start: int, end: int, tickets: nat -> TicketResponse, net: Network)
    requires net(LastIssueQuery) && |w.issues| > 0 && start == |w.issues| + 1
    requires RunOutcome(w, start, end, tickets, net).fatal.None?
    ensures Corresponds(w.issues, Run(w, start, end, tickets, net).issues, start as nat, end, Copies(tickets, net))
  {
    var w1 := w.(log := w.log + [StartBanner, Blank]);
    TicketStepAppendsCopy(tickets, net);
    RangeCorrespondence(w1, start as nat, end, TicketStep(tickets, net), Copies(tickets, net));
  }

  /**
   * Why the correspondence needs `start == last + 1`: with a gap, the first
   * ticket's issue gets number `last + 1`, its comments are sent to the
   * missing issue `start` and all fail, and a terminal status aborts the run
   * when closing issue `start`.
   */
  lemma GapBreaksCorrespondence(w: World, start: int, end: int, tickets: nat -> TicketResponse, net: Network)
    requires net(LastIssueQuery) && |w.issues| > 0 && start > |w.issues| + 1 && start <= end
    requires TicketFromResponse(start as nat, tickets(start as nat)).Ok?
    requires net(CreateIssue(start as nat))
    requires IsTerminal(TicketFromResponse(start as nat, tickets(start as nat)).value.data.status)
    ensures var o := RunOutcome(w, start, end, tickets, net);
      o.fatal == Some(CloseFailed(start as nat))
      && |o.world.issues| == |w.issues| + 1 < start
      && o.world.issues[|w.issues|].comments == []
      && o.world.issues[|w.issues|].state == Open
  {
    var s := start as nat;
    var w1 := w.(log := w.log + [StartBanner, Blank]);
    var f := TicketFromResponse(s, tickets(s)).value;
    var w2 := w1.(visited := w1.visited + [s], log := w1.log + WarningEntries(f.warnings));
    var created := CreateStep(w2, f.data, s, net);
    assert created.world.issues == w.issues + [NewIssue(f.data)];
    assert MigrateTicket(w1, s, tickets(s), net) == FinishTicket(created.world, s, f.data, net);
    FinishOnMissingIssue(created.world, s, f.data, net);
    assert MigrateRange(w1, s, s, TicketStep(tickets, net)) == MigrateTicket(w1, s, tickets(s), net);
    FatalIsFinal(w1, s, s, end, TicketStep(tickets, net));
  }

  /** Finishing a ticket whose issue number does not exist changes no issue, and a terminal status makes the close fail. */
  lemma FinishOnMissingIssue(w: World, n: nat, data: TicketData, net: Network)
    requires n > |w.issues|
    ensures var o := FinishTicket(w, n, data, net);
      o.world.issues == w.issues
      && o.fatal == (if IsTerminal(data.status) then Some(CloseFailed(n)) else None)
  {
    ReplayCommentsEffect(w, n, data.comments, |data.comments|, net);
  }
}
