/** The evidence behind a pull request, over whole runs of the queue. That there is one job at a
    time is not assumed here: it is what the queue keeps. */
module EvidenceByQueue {
  import opened Wrappers
  import opened StateMachine
  import opened TaskLifecycle
  import opened Orchestration
  import opened JobChain
  import Evidence

  /** The queue with its workers, the artifact log, and the HEAD that the last verification read. */
  datatype World = World(chain: Chain, log: seq<Evidence.Artifact>, head: Option<Evidence.Commit>)

  /** A worker's stage ends with what its agent did, or queue, worker or human take another step. */
  datatype QueueStep = JobEnds(w: WorkerId, script: Evidence.Script, now: int) | Other(step: ChainStep)

  function Perform(w: World, s: QueueStep): World {
    match s
    case JobEnds(v, script, now) =>
      if !InPhase(w.chain, v, Working) || v !in w.chain.sys.flight then w
      else
        var stage := w.chain.sys.flight[v];
        var h := Evidence.Handle(stage, w.log, script);
        World(ChainApply(w.chain, End(v, h.outcome, now)), h.log, if stage.Verification? then h.head else w.head)
    case Other(step) => if step.End? then w else w.(chain := ChainApply(w.chain, step))
  }

  function PerformAll(w: World, steps: seq<QueueStep>): World
    decreases |steps|
  {
    if steps == [] then w else PerformAll(Perform(w, steps[0]), steps[1..])
  }

  function Begin(maxReplans: Option<int>): World { World(Bootstrap(maxReplans), [], None) }

  ghost predicate Backed(w: World) {
    Evidence.Backed(w.log, w.head, Evidence.GatesPassed(w.chain.sys.task.status))
  }

  /** The end of the one job that is working: its stage is still the task's status, or a user has
      cancelled the task, which then claims nothing. */
  lemma JobEndKeepsBacked(w: World, tok: Token, v: WorkerId, script: Evidence.Script, now: int)
    requires Single(w.chain, tok) && Backed(w)
    ensures Backed(Perform(w, JobEnds(v, script, now)))
  {
    if InPhase(w.chain, v, Working) && v in w.chain.sys.flight {
      assert tok == With(v);
      StageEndKeepsBacked(w.chain.sys.task, w.chain.sys.flight[v], w.log, w.head, script, now);
    }
  }

  lemma StageEndKeepsBacked(t: Task, stage: Stage, log: seq<Evidence.Artifact>, head: Option<Evidence.Commit>,
                            script: Evidence.Script, now: int)
    requires t.status == stage || Cancelled(t)
    requires Evidence.Backed(log, head, Evidence.GatesPassed(t.status))
    ensures var h := Evidence.Handle(stage, log, script);
            var t' := AfterDecision(t, stage, HandlerDecision(stage, h.outcome), now);
            Evidence.Backed(h.log, if stage.Verification? then h.head else head, Evidence.GatesPassed(t'.status))
  {
    var h := Evidence.Handle(stage, log, script);
    if t.status == stage {
      Evidence.StageEarnsItsGate(stage, log, head, script);
      MoveKeepsBacked(t, stage, h.outcome, now, h.log, if stage.Verification? then h.head else head);
    } else {
      StaysCancelled(t, stage, h.outcome, now);
    }
  }

  /** The move claims no more than what the handler asked for. */
  lemma MoveKeepsBacked(t: Task, stage: Stage, o: Outcome, now: int, log: seq<Evidence.Artifact>,
                        head: Option<Evidence.Commit>)
    requires t.status == stage
    requires Evidence.Backed(log, head, Evidence.GatesPassed(Evidence.Asked(stage, o)))
    ensures Evidence.Backed(log, head,
                            Evidence.GatesPassed(AfterDecision(t, stage, HandlerDecision(stage, o), now).status))
  {
    var s := AfterDecision(t, stage, HandlerDecision(stage, o), now).status;
    assert s == Evidence.Asked(stage, o) || s.Escalated?;
  }

  lemma StaysCancelled(t: Task, stage: Stage, o: Outcome, now: int)
    requires Cancelled(t)
    ensures Evidence.GatesPassed(AfterDecision(t, stage, HandlerDecision(stage, o), now).status) == 0
  {
    HandlerDecisionIsLegal(stage, o);
  }

  /** No other step moves a task towards its pull request. */
  lemma OtherKeepsBacked(w: World, step: ChainStep)
    requires Backed(w) && !step.End?
    ensures Backed(w.(chain := ChainApply(w.chain, step)))
  {
    match step {
      case Begin(v, now) => OtherKeepsGates(w.chain.sys, Dispatch(v, now));
      case UserCancel(now) => OtherKeepsGates(w.chain.sys, Step.Cancel(now));
      case UserDecide(approve, note, now) => OtherKeepsGates(w.chain.sys, Decide(approve, note, now));
      case _ =>
    }
  }

  lemma OtherKeepsGates(sys: System, step: Step)
    requires !step.Finish?
    ensures var gates := Evidence.GatesPassed(Apply(sys, step).task.status);
            gates == 0 || gates == Evidence.GatesPassed(sys.task.status)
  {
    if step.Dispatch? && !AgentStage(sys.task.status) && !sys.task.status.AwaitingApproval? {
      AdvanceClaimsNothing(sys.task, step.now);
    }
  }

  lemma AdvanceClaimsNothing(t: Task, now: int)
    requires !AgentStage(t.status) && !t.status.AwaitingApproval?
    ensures AfterAdvanceOnce(t, now) == t || Evidence.GatesPassed(AfterAdvanceOnce(t, now).status) == 0
  {
    NextStatusIsLegal(t);
    if NextStatus(t).Some? { NoGateFromOutside(t.status, NextStatus(t).value); }
  }

  /** Gates are passed by the agents' stages and by humans only. */
  lemma NoGateFromOutside(s: Status, target: Status)
    requires !AgentStage(s) && !s.AwaitingApproval? && CanTransition(s, target)
    ensures Evidence.GatesPassed(target) == 0
  {
  }

  lemma {:induction false} RunKeepsBacked(w: World, tok: Token, steps: seq<QueueStep>)
    requires Single(w.chain, tok) && Backed(w)
    ensures Backed(PerformAll(w, steps))
    decreases |steps|
  {
    if steps != [] {
      var w', next := Perform(w, steps[0]), tok;
      match steps[0] {
        case JobEnds(v, script, now) =>
          JobEndKeepsBacked(w, tok, v, script, now);
          if w'.chain != w.chain {
            var stage := w.chain.sys.flight[v];
            next := StepKeeps(w.chain, tok, End(v, Evidence.Handle(stage, w.log, script).outcome, now));
          }
        case Other(step) =>
          if !step.End? {
            OtherKeepsBacked(w, step);
            next := StepKeeps(w.chain, tok, step);
          }
      }
      RunKeepsBacked(w', next, steps[1..]);
    }
  }

  /** From one bootstrap enqueue, in every interleaving of workers, queue and humans without crashes,
      and whatever the agents do: a task that creates its pull request, waits for approval or is
      completed has one commit with all the evidence. */
  lemma {:induction false} PullRequestsAreEarned(maxReplans: Option<int>, steps: seq<QueueStep>)
    ensures var w := PerformAll(Begin(maxReplans), steps);
            var s := w.chain.sys.task.status;
            s.PrCreation? || s.AwaitingApproval? || s.Completed? ==> exists c :: Evidence.Earned(w.log, w.head, 5, c)
  {
    StartsSingle(maxReplans);
    RunKeepsBacked(Begin(maxReplans), InQueue(Created), steps);
    var w := PerformAll(Begin(maxReplans), steps);
    if Evidence.GatesPassed(w.chain.sys.task.status) == 5 {
      assert Evidence.Earned(w.log, w.head, 5, Evidence.SummaryCommit(w.log).value);
    }
  }

  /** These runs are runs of the queue, so its results hold for them too. */
  lemma {:induction false} StepsAreAChainRun(w: World, steps: seq<QueueStep>) returns (chain: seq<ChainStep>)
    ensures PerformAll(w, steps).chain == RunChain(w.chain, chain)
    decreases |steps|
  {
    if steps == [] {
      chain := [];
    } else {
      var rest := StepsAreAChainRun(Perform(w, steps[0]), steps[1..]);
      var here := match steps[0]
        case JobEnds(v, script, now) =>
          if v in w.chain.sys.flight then
            [End(v, Evidence.Handle(w.chain.sys.flight[v], w.log, script).outcome, now)]
          else []
        case Other(step) => if step.End? then [] else [step];
      if here != [] { OneChainStep(w.chain, here[0]); }
      assert RunChain(w.chain, here) == Perform(w, steps[0]).chain;
      RunChainConcat(w.chain, here, rest);
      chain := here + rest;
    }
  }

  lemma {:induction false} PerformConcat(w: World, a: seq<QueueStep>, b: seq<QueueStep>)
    ensures PerformAll(w, a + b) == PerformAll(PerformAll(w, a), b)
    decreases |a|
  {
    if a == [] {
      assert a + b == b;
    } else {
      assert (a + b)[1..] == a[1..] + b;
      PerformConcat(Perform(w, a[0]), a[1..], b);
    }
  }

  lemma PerformOneMore(w: World, a: seq<QueueStep>, s: QueueStep)
    ensures PerformAll(w, a + [s]) == Perform(PerformAll(w, a), s)
  {
    PerformConcat(w, a, [s]);
    var rest := [s][1..];
    assert rest == [] && PerformAll(PerformAll(w, a), [s]) == Perform(PerformAll(w, a), s);
  }

  // ----- where the stages lead, over runs -----------------------------------------------------------------

  /** A worker's stage is about to end, and the task is still in it. */
  predicate StageEnds(w: World, s: QueueStep) {
    && s.JobEnds? && InPhase(w.chain, s.w, Working) && s.w in w.chain.sys.flight
    && w.chain.sys.flight[s.w] == w.chain.sys.task.status
  }

  /** In every run, the end of a stage takes the task where its evidence leads, or to escalation exactly
      when that is a replan and the budget is spent; and the evidence of the earlier gates is there, so
      the conditions of each gate apply. */
  lemma {:induction false} StagesLeadOn(maxReplans: Option<int>, steps: seq<QueueStep>, s: QueueStep)
    requires StageEnds(PerformAll(Begin(maxReplans), steps), s)
    ensures var w := PerformAll(Begin(maxReplans), steps);
            var t := w.chain.sys.task;
            var target := Evidence.Leads(t.status, w.log, s.script);
            && Backed(w)
            && Perform(w, s).chain.sys.task.status ==
               if target.Implementing? && !t.status.Researching? && BudgetSpent(t) then Escalated else target
  {
    StartsSingle(maxReplans);
    RunKeepsBacked(Begin(maxReplans), InQueue(Created), steps);
    var w := PerformAll(Begin(maxReplans), steps);
    HandlerDecisionIsLegal(w.chain.sys.task.status,
                           Evidence.Handle(w.chain.sys.task.status, w.log, s.script).outcome);
  }

  /** The step puts the task into review: its tests passed, by a run that was stored, or a failure was
      found to be flaky. */
  ghost predicate PutsIntoReview(w: World, s: QueueStep) {
    && StageEnds(w, s)
    && (|| (w.chain.sys.task.status.Testing? && s.script.Ran?
            && Evidence.Stored(w.log, Perform(w, s).log, Evidence.TestRow(Passed)))
        || (w.chain.sys.task.status.Debugging? && s.script.Debugged? && s.script.isFlaky))
  }

  /** The step that took the task to where it is. */
  ghost predicate LastMove(w: World, steps: seq<QueueStep>, k: nat)
    requires k < |steps|
  {
    PerformAll(w, steps[..k + 1]).chain.sys.task == PerformAll(w, steps).chain.sys.task
  }

  /** In every run: a task that is in review was put there by such a step. */
  lemma {:induction false} ReviewHasItsCause(maxReplans: Option<int>, steps: seq<QueueStep>)
    requires PerformAll(Begin(maxReplans), steps).chain.sys.task.status.Reviewing?
    ensures exists k :: 0 <= k < |steps| && LastMove(Begin(maxReplans), steps, k)
              && PutsIntoReview(PerformAll(Begin(maxReplans), steps[..k]), steps[k])
    decreases |steps|
  {
    var b, n := Begin(maxReplans), |steps| - 1;
    var front := steps[..n];
    var w := PerformAll(b, front);
    assert steps == front + [steps[n]] && steps[..n + 1] == steps;
    PerformOneMore(b, front, steps[n]);
    if Perform(w, steps[n]).chain.sys.task == w.chain.sys.task {
      ReviewHasItsCause(maxReplans, front);
      var k :| 0 <= k < n && LastMove(b, front, k) && PutsIntoReview(PerformAll(b, front[..k]), front[k]);
      assert front[..k] == steps[..k] && front[..k + 1] == steps[..k + 1];
      assert LastMove(b, steps, k);
    } else {
      OnlyStagesPutIntoReview(maxReplans, front, steps[n]);
      assert LastMove(b, steps, n);
    }
  }

  lemma OnlyStagesPutIntoReview(maxReplans: Option<int>, steps: seq<QueueStep>, s: QueueStep)
    requires var w := PerformAll(Begin(maxReplans), steps);
             Perform(w, s).chain.sys.task != w.chain.sys.task && Perform(w, s).chain.sys.task.status.Reviewing?
    ensures PutsIntoReview(PerformAll(Begin(maxReplans), steps), s)
  {
    var w := PerformAll(Begin(maxReplans), steps);
    match s {
      case JobEnds(v, script, now) =>
        StageEndedHere(w, s);
        StagesLeadOn(maxReplans, steps, s);
        ReviewComesFrom(w.chain.sys.task.status, w.log, w.head, script);
      case Other(step) =>
        OthersLeadNotToReview(w, step);
        assert false;
    }
  }

  lemma StageEndedHere(w: World, s: QueueStep)
    requires s.JobEnds? && Perform(w, s).chain.sys.task != w.chain.sys.task
    ensures StageEnds(w, s)
  {
  }

  /** Only testing and debugging lead to review. */
  lemma ReviewComesFrom(stage: Stage, log: seq<Evidence.Artifact>, head: Option<Evidence.Commit>,
                        script: Evidence.Script)
    requires Evidence.Backed(log, head, Evidence.GatesPassed(stage)) && Evidence.Leads(stage, log, script).Reviewing?
    ensures (stage.Testing? && script.Ran?
             && Evidence.Stored(log, Evidence.Handle(stage, log, script).log, Evidence.TestRow(Passed)))
         || (stage.Debugging? && script.Debugged? && script.isFlaky)
  {
    if stage.Testing? {
      Evidence.TestingLeadsOn(log, script);
    } else if stage.Debugging? {
      Evidence.DebuggingLeadsOn(log, head, script);
    }
  }

  lemma OthersLeadNotToReview(w: World, step: ChainStep)
    requires !step.End?
    requires ChainApply(w.chain, step).sys.task != w.chain.sys.task
    ensures !ChainApply(w.chain, step).sys.task.status.Reviewing?
  {
    match step {
      case Begin(v, now) =>
        if AgentStage(w.chain.sys.task.status) || w.chain.sys.task.status.AwaitingApproval? {
        } else {
          AdvanceClaimsNothing(w.chain.sys.task, now);
        }
      case _ =>
    }
  }

  // ----- and the gates do open --------------------------------------------------------------------------------

  /** The queue is at status s with nothing else live. */
  predicate Resting(w: World, s: Status) {
    At(w.chain, s, map[])
  }

  /** One whole undisturbed job of an agent's stage. */
  lemma StageRuns(b: World, before: seq<QueueStep>, s: Status, script: Evidence.Script, target: Status)
    returns (steps: seq<QueueStep>)
    requires Resting(PerformAll(b, before), s) && AgentStage(s) && !Terminal(target) && target != s
    requires var h := Evidence.Handle(s, PerformAll(b, before).log, script); JobChain.Leads(s, h.outcome, target)
    ensures var w, h := PerformAll(b, steps), Evidence.Handle(s, PerformAll(b, before).log, script);
            && Resting(w, target) && w.log == h.log
            && w.head == if s.Verification? then h.head else PerformAll(b, before).head
  {
    var w := PerformAll(b, before);
    var h := Evidence.Handle(s, w.log, script);
    JobBegins(w.chain, 0, s, map[]);
    PerformOneMore(b, before, Other(Take(0, s)));
    steps := before + [Other(Take(0, s))];
    PerformOneMore(b, steps, Other(ChainStep.Begin(0, 0)));
    steps := steps + [Other(ChainStep.Begin(0, 0))];
    var w1 := PerformAll(b, steps);
    JobChain.JobEnds(w1.chain, 0, s, h.outcome, target, map[]);
    PerformOneMore(b, steps, JobEnds(0, script, 0));
    steps := steps + [JobEnds(0, script, 0)];
    steps := StageLeaves(b, steps, s, target);
  }

  lemma StageLeaves(b: World, before: seq<QueueStep>, s: Status, target: Status) returns (steps: seq<QueueStep>)
    requires var c := PerformAll(b, before).chain;
             && c.queued == {} && c.sys.task.status == target && c.sys.flight == map[]
             && c.running == map[0 := Job(s, Returned(Some(target)))]
    requires !Terminal(target) && target != s
    ensures var w := PerformAll(b, before);
            && Resting(PerformAll(b, steps), target)
            && PerformAll(b, steps).log == w.log && PerformAll(b, steps).head == w.head
  {
    var w := PerformAll(b, before);
    JobHandsOver(w.chain, 0, s, target, map[]);
    PerformOneMore(b, before, Other(Enqueue(0)));
    steps := before + [Other(Enqueue(0))];
    PerformOneMore(b, steps, Other(Close(0)));
    steps := steps + [Other(Close(0))];
    assert map[0 := Job(s, Closing)] - {0} == map[];
  }

  lemma FirstStage(maxReplans: Option<int>) returns (steps: seq<QueueStep>)
    ensures Resting(PerformAll(Begin(maxReplans), steps), Planning) && PerformAll(Begin(maxReplans), steps).log == []
  {
    var b := Begin(maxReplans);
    assert NextStatus(b.chain.sys.task) == Some(Planning);
    StubReturns(b.chain, Created, Planning, map[]);
    PerformOneMore(b, [], Other(Take(0, Created)));
    steps := [] + [Other(Take(0, Created))];
    PerformOneMore(b, steps, Other(ChainStep.Begin(0, 0)));
    steps := steps + [Other(ChainStep.Begin(0, 0))];
    steps := StageLeaves(b, steps, Created, Planning);
  }

  /** With nothing going wrong a new task has an implementation of commit c and a passed run of it. */
  lemma ToReview(maxReplans: Option<int>, c: Evidence.Commit) returns (steps: seq<QueueStep>)
    ensures var w := PerformAll(Begin(maxReplans), steps);
            Resting(w, Reviewing) && w.log == [Evidence.SummaryRow(Some(c)), Evidence.TestRow(Passed)]
  {
    var b := Begin(maxReplans);
    steps := FirstStage(maxReplans);
    steps := StageRuns(b, steps, Planning, Evidence.Script.Returned, Researching);
    steps := StageRuns(b, steps, Researching, Evidence.Script.Returned, Implementing);
    steps := StageRuns(b, steps, Implementing, Evidence.Implemented(c), Testing);
    steps := StageRuns(b, steps, Testing, Evidence.Ran(Passed), Reviewing);
  }

  function Rows(c: Evidence.Commit): seq<Evidence.Artifact> {
    [Evidence.SummaryRow(Some(c)), Evidence.TestRow(Passed)]
    + [Evidence.ReviewRow(Approve, Some(c))] + [Evidence.ScanRow(Pass, Some(c))]
  }

  lemma ToTheLastGate(maxReplans: Option<int>, c: Evidence.Commit) returns (steps: seq<QueueStep>)
    ensures var w := PerformAll(Begin(maxReplans), steps); Resting(w, Verification) && w.log == Rows(c)
  {
    var b := Begin(maxReplans);
    var log := [Evidence.SummaryRow(Some(c)), Evidence.TestRow(Passed)];
    steps := ToReview(maxReplans, c);
    LatestOf(log, c);
    steps := StageRuns(b, steps, Reviewing, Evidence.ReviewedAs(Approve), SecurityReview);
    Evidence.Appended(log, Evidence.ReviewRow(Approve, Some(c)));
    steps := StageRuns(b, steps, SecurityReview, Evidence.ScannedAs(Pass), Verification);
  }

  lemma RowsEarn(c: Evidence.Commit)
    ensures Evidence.Earned(Rows(c), Some(c), 5, c)
    ensures Evidence.SummaryCommit(Rows(c)) == Some(c)
  {
    var log := [Evidence.SummaryRow(Some(c)), Evidence.TestRow(Passed)];
    LatestOf(log, c);
    Evidence.Appended(log, Evidence.ReviewRow(Approve, Some(c)));
    Evidence.Appended(log + [Evidence.ReviewRow(Approve, Some(c))], Evidence.ScanRow(Pass, Some(c)));
  }

  /** For every limit and every commit, some run takes the task to a human with all the evidence for that
      commit: the gates can be passed, and only this evidence is asked for. */
  lemma {:induction false} TheGatesOpen(maxReplans: Option<int>, c: Evidence.Commit) returns (steps: seq<QueueStep>)
    ensures var w := PerformAll(Begin(maxReplans), steps);
            w.chain.sys.task.status.AwaitingApproval? && Evidence.Earned(w.log, w.head, 5, c)
  {
    var b := Begin(maxReplans);
    steps := ToTheLastGate(maxReplans, c);
    RowsEarn(c);
    steps := StageRuns(b, steps, Verification, Evidence.HeadRead(Some(c)), PrCreation);
    steps := StageRuns(b, steps, PrCreation, Evidence.Script.Returned, AwaitingApproval);
  }

  lemma LatestOf(log: seq<Evidence.Artifact>, c: Evidence.Commit)
    requires log == [Evidence.SummaryRow(Some(c)), Evidence.TestRow(Passed)]
    ensures Evidence.Latest(log, Evidence.Summaries) == 0 && Evidence.Latest(log, Evidence.TestRuns) == 1
    ensures Evidence.Latest(log, Evidence.Reviews) == -1 && Evidence.Latest(log, Evidence.Scans) == -1
  {
    var first := [Evidence.SummaryRow(Some(c))];
    Evidence.Appended([], Evidence.SummaryRow(Some(c)));
    assert [] + first == first;
    Evidence.Appended(first, Evidence.TestRow(Passed));
    assert log == first + [Evidence.TestRow(Passed)];
  }
}
