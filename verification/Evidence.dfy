/** What the stages store, for arbitrary agents, and what the stored artifacts prove about one commit,
    gate by gate. Rows are kept in one log, in the order they are written. */
module Evidence {
  import opened Wrappers
  import opened StateMachine
  import opened TaskLifecycle
  import opened Orchestration

  type Commit = nat

  datatype Artifact =
    | SummaryRow(commit: Option<Commit>)
    | TestRow(run: TestStatus)
    | ReviewRow(review: Review, commit: Option<Commit>)
    | ScanRow(scan: Scan, commit: Option<Commit>)

  datatype Kind = Summaries | TestRuns | Reviews | Scans

  function KindOf(a: Artifact): Kind {
    match a
    case SummaryRow(_) => Summaries
    case TestRow(_) => TestRuns
    case ReviewRow(_, _) => Reviews
    case ScanRow(_, _) => Scans
  }

  /** The position of the latest row of a kind, or -1: the query ordered by descending time. */
  function Latest(log: seq<Artifact>, kind: Kind): (i: int)
    ensures -1 <= i < |log|
    ensures i >= 0 ==> KindOf(log[i]) == kind
    ensures forall k :: i < k < |log| ==> KindOf(log[k]) != kind
  {
    if log == [] then -1
    else if KindOf(log[|log| - 1]) == kind then |log| - 1
    else Latest(log[..|log| - 1], kind)
  }

  /** The commit of the latest implementation summary; none for no summary or one without a commit. */
  function SummaryCommit(log: seq<Artifact>): Option<Commit> {
    var i := Latest(log, Summaries);
    if i < 0 then None else log[i].commit
  }

  /** What the agent did during a job. */
  datatype Script =
    | Raised(left: seq<Artifact>)
    | Returned
    | Implemented(commit: Commit)
    | Ran(run: TestStatus)
    | Debugged(rerun: Option<TestStatus>, isFlaky: bool, fixable: bool, category: string)
    | ReviewedAs(review: Review)
    | ScannedAs(scan: Scan)
    | HeadRead(head: Option<Commit>)

  /** The log after the stage, the outcome its handler branches on, and the HEAD it read, if any. */
  datatype Handled = Handled(log: seq<Artifact>, outcome: Outcome, head: Option<Commit>)

  /** A suite run leaves a row unless its dependencies could not be installed. */
  function RunRows(run: TestStatus): seq<Artifact> {
    if run.InstallFailed? then [] else [TestRow(run)]
  }

  function Crash(log: seq<Artifact>, text: string): Handled { Handled(log, Crashed(text), None) }

  /** The handlers' queries and branches. An exception may leave any rows behind. */
  function Handle(stage: Stage, log: seq<Artifact>, script: Script): Handled {
    if script.Raised? then Crash(log + script.left, "error")
    else
      match stage
      case Implementing => AfterImplementing(log, script)
      case Testing => AfterTesting(log, script)
      case Debugging => AfterDebugging(log, script)
      case Reviewing => AfterReviewing(log, script)
      case SecurityReview => AfterSecurityReview(log, script)
      case Verification => AfterVerification(log, script)
      case _ => AfterOther(log, script)
  }

  function AfterOther(log: seq<Artifact>, script: Script): Handled {
    if script.Returned? then Handled(log, Done, None) else Crash(log, "error")
  }

  function AfterImplementing(log: seq<Artifact>, script: Script): Handled {
    if script.Implemented? then Handled(log + [SummaryRow(Some(script.commit))], Done, None) else Crash(log, "error")
  }

  function AfterTesting(log: seq<Artifact>, script: Script): Handled {
    if script.Ran? then Handled(log + RunRows(script.run), Tested(script.run), None) else Crash(log, "error")
  }

  function AfterDebugging(log: seq<Artifact>, script: Script): Handled {
    if Latest(log, TestRuns) < 0 then Crash(log, "no_test_run")
    else if Latest(log, Summaries) < 0 then Crash(log, "no_implementation_summary")
    else
      match script
      case Debugged(rerun, flaky, fixable, category) =>
        Handled(if rerun.Some? then log + RunRows(rerun.value) else log, Classified(flaky, fixable, category), None)
      case _ => Crash(log, "error")
  }

  function AfterReviewing(log: seq<Artifact>, script: Script): Handled {
    var commit := SummaryCommit(log);
    if commit.None? then Crash(log, "no_implementation_summary")
    else if Latest(log, TestRuns) < 0 then Crash(log, "no_test_run")
    else if script.ReviewedAs? then Handled(log + [ReviewRow(script.review, commit)], Reviewed(script.review), None)
    else Crash(log, "error")
  }

  function AfterSecurityReview(log: seq<Artifact>, script: Script): Handled {
    var commit := SummaryCommit(log);
    if commit.None? then Crash(log, "no_implementation_summary")
    else if script.ScannedAs? then Handled(log + [ScanRow(script.scan, commit)], Scanned(script.scan), None)
    else Crash(log, "error")
  }

  /** The staleness check: no agent, but the worktree may be unreadable. */
  function AfterVerification(log: seq<Artifact>, script: Script): Handled {
    var commit, run := SummaryCommit(log), Latest(log, TestRuns);
    if commit.None? then Crash(log, "no_implementation_summary")
    else if run < 0 || !log[run].run.Passed? then Handled(log, Checked(false), None)
    else if script.HeadRead? then Handled(log, Checked(script.head == commit), script.head)
    else Handled(log, Checked(false), None)
  }

  // ----- the gates ---------------------------------------------------------------------------------

  /** How many gates a task in this status has behind it: 1 a summary with a commit, 2 a test
      run of it, 3 an approving review of it, 4 a passed scan of it, 5 the final check. */
  function GatesPassed(s: Status): nat {
    match s
    case Testing => 1
    case Debugging => 2
    case Reviewing => 2
    case SecurityReview => 3
    case Verification => 4
    case PrCreation => 5
    case AwaitingApproval => 5
    case Completed => 5
    case _ => 0
  }

  /** The evidence for commit c behind the first `gates` gates; all of it is newer than the
      latest summary, which is for c. */
  ghost predicate Earned(log: seq<Artifact>, head: Option<Commit>, gates: nat, c: Commit) {
    var summary, run := Latest(log, Summaries), Latest(log, TestRuns);
    var review, scan := Latest(log, Reviews), Latest(log, Scans);
    && (gates >= 1 ==> summary >= 0 && log[summary] == SummaryRow(Some(c)))
    && (gates >= 2 ==> run > summary)
    && (gates >= 3 ==> review > summary && log[review] == ReviewRow(Approve, Some(c)))
    && (gates >= 4 ==> scan > summary && log[scan] == ScanRow(Pass, Some(c)))
    && (gates >= 5 ==> run >= 0 && log[run] == TestRow(Passed) && head == Some(c))
  }

  lemma LatestAppend(log: seq<Artifact>, a: Artifact, kind: Kind)
    ensures Latest(log + [a], kind) == if KindOf(a) == kind then |log| else Latest(log, kind)
  {
    assert (log + [a])[..|log|] == log;
  }

  /** What writing one row does to the four queries. */
  lemma Appended(log: seq<Artifact>, a: Artifact)
    ensures var log' := log + [a];
            && Latest(log', Summaries) == (if a.SummaryRow? then |log| else Latest(log, Summaries))
            && Latest(log', TestRuns) == (if a.TestRow? then |log| else Latest(log, TestRuns))
            && Latest(log', Reviews) == (if a.ReviewRow? then |log| else Latest(log, Reviews))
            && Latest(log', Scans) == (if a.ScanRow? then |log| else Latest(log, Scans))
            && log'[|log|] == a && log <= log'
  {
    LatestAppend(log, a, Summaries);
    LatestAppend(log, a, TestRuns);
    LatestAppend(log, a, Reviews);
    LatestAppend(log, a, Scans);
  }

  /** The status an undisturbed handler asks for, when it asks for a plain transition. */
  function Asked(stage: Stage, o: Outcome): Status {
    match HandlerDecision(stage, o)
    case Swap(target, _) => target
    case Replan(_) => Implementing
  }

  /** The claim of a task with so many gates behind it, for the latest summary's commit. */
  ghost predicate Backed(log: seq<Artifact>, head: Option<Commit>, gates: nat) {
    gates >= 1 ==> SummaryCommit(log).Some? && Earned(log, head, gates, SummaryCommit(log).value)
  }

  lemma SummaryEarned(log: seq<Artifact>, head: Option<Commit>, c: Commit)
    ensures Backed(log + [SummaryRow(Some(c))], head, 1)
  {
    Appended(log, SummaryRow(Some(c)));
  }

  lemma RunEarned(log: seq<Artifact>, head: Option<Commit>, run: TestStatus)
    requires Backed(log, head, 1)
    ensures Backed(log + [TestRow(run)], head, 2)
  {
    Appended(log, TestRow(run));
  }

  lemma ReviewEarned(log: seq<Artifact>, head: Option<Commit>)
    requires Backed(log, head, 2)
    ensures Backed(log + [ReviewRow(Approve, SummaryCommit(log))], head, 3)
  {
    Appended(log, ReviewRow(Approve, SummaryCommit(log)));
  }

  lemma ScanEarned(log: seq<Artifact>, head: Option<Commit>)
    requires Backed(log, head, 3)
    ensures Backed(log + [ScanRow(Pass, SummaryCommit(log))], head, 4)
  {
    Appended(log, ScanRow(Pass, SummaryCommit(log)));
  }

  lemma ImplementingEarns(log: seq<Artifact>, head: Option<Commit>, script: Script)
    ensures var h := AfterImplementing(log, script);
            Backed(h.log, head, GatesPassed(Asked(Implementing, h.outcome)))
  {
    if script.Implemented? { SummaryEarned(log, head, script.commit); }
  }

  lemma OthersEarn(stage: Stage, log: seq<Artifact>, head: Option<Commit>, script: Script)
    requires stage.Planning? || stage.Researching? || stage.PrCreation?
    requires Backed(log, head, GatesPassed(stage))
    ensures var h := AfterOther(log, script);
            Backed(h.log, head, GatesPassed(Asked(stage, h.outcome)))
  {
    assert GatesPassed(Asked(stage, AfterOther(log, script).outcome)) in {0, GatesPassed(stage)};
  }

  lemma TestingEarns(log: seq<Artifact>, head: Option<Commit>, script: Script)
    requires Backed(log, head, 1)
    ensures var h := AfterTesting(log, script);
            Backed(h.log, head, GatesPassed(Asked(Testing, h.outcome)))
  {
    if script.Ran? && !script.run.InstallFailed? {
      RunEarned(log, head, script.run);
      assert GatesPassed(Asked(Testing, Tested(script.run))) == 2;
    }
  }

  lemma DebuggingEarns(log: seq<Artifact>, head: Option<Commit>, script: Script)
    requires Backed(log, head, 2)
    ensures var h := AfterDebugging(log, script);
            Backed(h.log, head, GatesPassed(Asked(Debugging, h.outcome)))
  {
    NoGateByDebugging(AfterDebugging(log, script).outcome);
    if script.Debugged? && script.rerun.Some? && !script.rerun.value.InstallFailed? {
      RunEarned(log, head, script.rerun.value);
    } else {
      assert log + [] == log;
    }
  }

  lemma NoGateByDebugging(o: Outcome)
    ensures GatesPassed(Asked(Debugging, o)) in {0, 2}
  {
  }

  lemma ReviewingEarns(log: seq<Artifact>, head: Option<Commit>, script: Script)
    requires Backed(log, head, 2)
    ensures var h := AfterReviewing(log, script);
            Backed(h.log, head, GatesPassed(Asked(Reviewing, h.outcome)))
  {
    var h := AfterReviewing(log, script);
    assert GatesPassed(Asked(Reviewing, h.outcome)) == if h.outcome == Reviewed(Approve) then 3 else 0;
    if h.outcome == Reviewed(Approve) { ReviewEarned(log, head); }
  }

  lemma SecurityReviewEarns(log: seq<Artifact>, head: Option<Commit>, script: Script)
    requires Backed(log, head, 3)
    ensures var h := AfterSecurityReview(log, script);
            Backed(h.log, head, GatesPassed(Asked(SecurityReview, h.outcome)))
  {
    var h := AfterSecurityReview(log, script);
    assert GatesPassed(Asked(SecurityReview, h.outcome)) == if h.outcome == Scanned(Pass) then 4 else 0;
    if h.outcome == Scanned(Pass) { ScanEarned(log, head); }
  }

  lemma VerificationEarns(log: seq<Artifact>, head: Option<Commit>, script: Script)
    requires Backed(log, head, 4)
    ensures var h := AfterVerification(log, script);
            Backed(h.log, h.head, GatesPassed(Asked(Verification, h.outcome)))
  {
  }

  /** One stage adds exactly the evidence that the status it asks for claims. */
  lemma StageEarnsItsGate(stage: Stage, log: seq<Artifact>, head: Option<Commit>, script: Script)
    requires Backed(log, head, GatesPassed(stage))
    ensures var h := Handle(stage, log, script);
            Backed(h.log, if stage.Verification? then h.head else head, GatesPassed(Asked(stage, h.outcome)))
  {
    if script.Raised? {
      assert Asked(stage, Crashed("error")).Failed?;
    } else {
      match stage
      case Implementing => ImplementingEarns(log, head, script);
      case Testing => TestingEarns(log, head, script);
      case Debugging => DebuggingEarns(log, head, script);
      case Reviewing => ReviewingEarns(log, head, script);
      case SecurityReview => SecurityReviewEarns(log, head, script);
      case Verification => VerificationEarns(log, head, script);
      case _ => OthersEarn(stage, log, head, script);
    }
  }

  // ----- where each stage leads ------------------------------------------------------------------------

  /** Where a stage sends an undisturbed task. */
  function Leads(stage: Stage, log: seq<Artifact>, script: Script): Status {
    Asked(stage, Handle(stage, log, script).outcome)
  }

  /** The stage stored a new row of this kind, and it is the latest. */
  ghost predicate Stored(before: seq<Artifact>, after: seq<Artifact>, a: Artifact) {
    Latest(after, KindOf(a)) >= |before| && after[Latest(after, KindOf(a))] == a
  }

  /** The first gate: implementing leads on exactly when the agent has an implementation, which is then
      the latest summary; anything else fails the task. */
  lemma {:induction false} ImplementingLeadsOn(log: seq<Artifact>, head: Option<Commit>, script: Script)
    ensures var after := Handle(Implementing, log, script).log;
            && (Leads(Implementing, log, script).Testing? <==> script.Implemented?)
            && (Leads(Implementing, log, script).Failed? <==> !script.Implemented?)
            && (script.Implemented? ==>
                  Stored(log, after, SummaryRow(Some(script.commit))) && Earned(after, head, 1, script.commit))
  {
    if script.Implemented? { Appended(log, SummaryRow(Some(script.commit))); }
  }

  /** The second gate: testing leads to review exactly on a passed run, to debugging exactly on a failing or
      erroring one, and fails the task otherwise; a run is stored unless its dependencies did not install. */
  lemma {:induction false} TestingLeadsOn(log: seq<Artifact>, script: Script)
    ensures var after, s := Handle(Testing, log, script).log, Leads(Testing, log, script);
            && (s.Reviewing? <==> script.Ran? && Stored(log, after, TestRow(Passed)))
            && (s.Debugging? <==> script.Ran? && (Stored(log, after, TestRow(FailedTests))
                                                  || Stored(log, after, TestRow(ErrorInRun))))
            && (s.Failed? <==> !s.Reviewing? && !s.Debugging?)
            && (script.Ran? && script.run.InstallFailed? ==> after == log)
            && (script.Ran? && !script.run.InstallFailed? ==> Stored(log, after, TestRow(script.run)))
  {
    if script.Ran? && !script.run.InstallFailed? { OneRun(log, script.run); } else { NoRun(log); }
  }

  lemma OneRun(log: seq<Artifact>, run: TestStatus)
    ensures forall r :: Stored(log, log + [TestRow(run)], TestRow(r)) <==> r == run
  {
    Appended(log, TestRow(run));
  }

  lemma NoRun(log: seq<Artifact>)
    ensures forall r :: !Stored(log, log, TestRow(r))
  {
  }

  /** Debugging leads to review exactly on a flaky verdict, to a replan exactly on a fixable one, and fails
      the task otherwise; a rerun is stored like a run. */
  lemma {:induction false} DebuggingLeadsOn(log: seq<Artifact>, head: Option<Commit>, script: Script)
    requires Backed(log, head, 2)
    ensures var after, s := Handle(Debugging, log, script).log, Leads(Debugging, log, script);
            && (s.Reviewing? <==> script.Debugged? && script.isFlaky)
            && (s.Implementing? <==> script.Debugged? && !script.isFlaky && script.fixable)
            && (s.Failed? <==> !s.Reviewing? && !s.Implementing?)
            && (script.Debugged? && script.rerun.Some? && !script.rerun.value.InstallFailed? ==>
                  Stored(log, after, TestRow(script.rerun.value)))
            && (script.Debugged? && (script.rerun.None? || script.rerun.value.InstallFailed?) ==> after == log)
  {
    if script.Debugged? && script.rerun.Some? && !script.rerun.value.InstallFailed? {
      Appended(log, TestRow(script.rerun.value));
    }
  }

  /** The third gate: review leads on exactly when the review it stored earns it, and asks for a replan on
      any other verdict; without a verdict the task fails. */
  lemma {:induction false} ReviewingLeadsOn(log: seq<Artifact>, head: Option<Commit>, script: Script)
    requires Backed(log, head, 2)
    ensures var after, s := Handle(Reviewing, log, script).log, Leads(Reviewing, log, script);
            && (s.SecurityReview? <==> script.ReviewedAs? && exists c :: Earned(after, head, 3, c))
            && (s.Implementing? <==> script.ReviewedAs? && !exists c :: Earned(after, head, 3, c))
            && (s.Failed? <==> !script.ReviewedAs?)
            && (script.ReviewedAs? ==> Stored(log, after, ReviewRow(script.review, SummaryCommit(log))))
  {
    if script.ReviewedAs? {
      Appended(log, ReviewRow(script.review, SummaryCommit(log)));
      ReviewDecides(log, head, script.review);
    }
  }

  /** A stored review earns the third gate exactly when it approves. */
  lemma ReviewDecides(log: seq<Artifact>, head: Option<Commit>, review: Review)
    requires Backed(log, head, 2)
    ensures (exists c :: Earned(log + [ReviewRow(review, SummaryCommit(log))], head, 3, c)) <==> review.Approve?
  {
    var after := log + [ReviewRow(review, SummaryCommit(log))];
    Appended(log, ReviewRow(review, SummaryCommit(log)));
    if review.Approve? {
      ReviewEarned(log, head);
      assert Earned(after, head, 3, SummaryCommit(after).value);
    }
  }

  /** The fourth gate, in the same way. */
  lemma {:induction false} SecurityReviewLeadsOn(log: seq<Artifact>, head: Option<Commit>, script: Script)
    requires Backed(log, head, 3)
    ensures var after, s := Handle(SecurityReview, log, script).log, Leads(SecurityReview, log, script);
            && (s.Verification? <==> script.ScannedAs? && exists c :: Earned(after, head, 4, c))
            && (s.Implementing? <==> script.ScannedAs? && !exists c :: Earned(after, head, 4, c))
            && (s.Failed? <==> !script.ScannedAs?)
            && (script.ScannedAs? ==> Stored(log, after, ScanRow(script.scan, SummaryCommit(log))))
  {
    if script.ScannedAs? {
      Appended(log, ScanRow(script.scan, SummaryCommit(log)));
      ScanDecides(log, head, script.scan);
    }
  }

  /** A stored scan earns the fourth gate exactly when it passes. */
  lemma ScanDecides(log: seq<Artifact>, head: Option<Commit>, scan: Scan)
    requires Backed(log, head, 3)
    ensures (exists c :: Earned(log + [ScanRow(scan, SummaryCommit(log))], head, 4, c)) <==> scan.Pass?
  {
    var after := log + [ScanRow(scan, SummaryCommit(log))];
    Appended(log, ScanRow(scan, SummaryCommit(log)));
    if scan.Pass? {
      ScanEarned(log, head);
      assert Earned(after, head, 4, SummaryCommit(after).value);
    }
  }

  /** The last gate: verification opens it exactly when HEAD could be read and completes the evidence; it
      goes back to testing otherwise, and stores nothing either way. */
  lemma {:induction false} VerificationLeadsOn(log: seq<Artifact>, head: Option<Commit>, script: Script)
    requires Backed(log, head, 4)
    ensures var h, s := Handle(Verification, log, script), Leads(Verification, log, script);
            && (s.PrCreation? <==> script.HeadRead? && exists c :: Earned(log, script.head, 5, c))
            && (s.Testing? <==> !script.Raised? && !s.PrCreation?)
            && (s.Failed? <==> script.Raised?)
            && (!script.Raised? ==> h.log == log)
  {
    var c := SummaryCommit(log).value;
    assert Earned(log, head, 4, c);
    if script.HeadRead? && script.head == Some(c) && log[Latest(log, TestRuns)] == TestRow(Passed) {
      assert Earned(log, script.head, 5, c);
    }
  }

  /** The stages without evidence lead on exactly when their agent returns. */
  lemma {:induction false} OthersLeadOn(stage: Stage, log: seq<Artifact>, script: Script)
    requires stage.Planning? || stage.Researching? || stage.PrCreation?
    ensures var s := Leads(stage, log, script);
            && (script.Returned? ==> s == if stage.Planning? then Researching
                                          else if stage.Researching? then Implementing else AwaitingApproval)
            && (s.Failed? <==> !script.Returned?)
            && (script.Returned? ==> Handle(stage, log, script).log == log)
  {
  }

  /** An exception fails the task in every stage, and the rows written before it stay. */
  lemma {:induction false} ExceptionsFail(stage: Stage, log: seq<Artifact>, left: seq<Artifact>)
    ensures Leads(stage, log, Raised(left)).Failed? && Handle(stage, log, Raised(left)).log == log + left
  {
  }

  /** For any log, checks without their inputs fail the task. */
  lemma {:induction false} MissingInputs(log: seq<Artifact>, script: Script)
    ensures SummaryCommit(log).None? ==>
      && Leads(Reviewing, log, script).Failed? && Leads(SecurityReview, log, script).Failed?
      && Leads(Verification, log, script).Failed?
    ensures Latest(log, TestRuns) < 0 ==> Leads(Debugging, log, script).Failed? && Leads(Reviewing, log, script).Failed?
    ensures Latest(log, Summaries) < 0 ==> Leads(Debugging, log, script).Failed?
  {
  }

  /** Without a passed run to its name a verification goes back to testing. */
  lemma {:induction false} NoPassedRun(log: seq<Artifact>, script: Script)
    requires SummaryCommit(log).Some? && !script.Raised?
    requires forall k :: 0 <= k < |log| && log[k].TestRow? ==> !log[k].run.Passed?
    ensures Leads(Verification, log, script).Testing?
  {
  }
}
