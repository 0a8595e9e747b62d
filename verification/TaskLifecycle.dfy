/** A task row and its event trail, and the locked operations on it. Each operation is
    specified by a function on task values and carried out by a method on the row. */
module TaskLifecycle {
  import opened Wrappers
  import opened StateMachine

  /** Why a transition happened. Reasons written by the agents' handlers are kept as text. */
  datatype Reason =
    | NoReason
    | UserCancelled
    | UserApproved
    | UserRejected(note: Option<string>)
    | BudgetExhausted
    | JobTimeout
    | Note(text: string)

  /** A recorded transition; times are in microseconds. */
  datatype Event = Event(source: Status, target: Status, reason: Reason, at: int)

  datatype Task = Task(status: Status, replans: nat, maxReplans: Option<int>, trail: seq<Event>)

  // ----- one transition --------------------------------------------------------------------

  /** The latest time in the trail, as the ordering query finds it. */
  function LatestTime(trail: seq<Event>): int
    requires trail != []
  {
    var last := trail[|trail| - 1].at;
    if |trail| == 1 then last
    else
      var before := LatestTime(trail[..|trail| - 1]);
      if before > last then before else last
  }

  /** The time of the next event: the clock, unless it has not moved past the latest event. */
  function NextEventTime(trail: seq<Event>, now: int): int {
    if trail != [] && now <= LatestTime(trail) then LatestTime(trail) + 1 else now
  }

  /** A time not before the clock and after every event so far. */
  ghost predicate Admissible(trail: seq<Event>, now: int, at: int) {
    now <= at && forall k :: 0 <= k < |trail| ==> trail[k].at < at
  }

  /** The next event's time is the earliest one that is not before the clock and comes after every event
      so far. */
  lemma {:induction false} NextTimeIsTheEarliest(trail: seq<Event>, now: int)
    ensures Admissible(trail, now, NextEventTime(trail, now))
    ensures forall at :: Admissible(trail, now, at) ==> NextEventTime(trail, now) <= at
  {
    if trail != [] { LatestIsTheMaximum(trail); }
  }

  lemma {:induction false} LatestIsTheMaximum(trail: seq<Event>)
    requires trail != []
    ensures exists k :: 0 <= k < |trail| && trail[k].at == LatestTime(trail)
    ensures forall k :: 0 <= k < |trail| ==> trail[k].at <= LatestTime(trail)
  {
    if |trail| > 1 {
      var front := trail[..|trail| - 1];
      LatestIsTheMaximum(front);
      var k :| 0 <= k < |front| && front[k].at == LatestTime(front);
      assert trail[k].at == LatestTime(front);
      assert forall j :: 0 <= j < |front| ==> trail[j] == front[j];
    }
    assert trail[|trail| - 1].at <= LatestTime(trail);
  }

  /** The task after one legal transition. */
  function Moved(t: Task, target: Status, reason: Reason, now: int): Task {
    Task(target,
         if target.Replanning? then t.replans + 1 else t.replans,
         t.maxReplans,
         t.trail + [Event(t.status, target, reason, NextEventTime(t.trail, now))])
  }

  function LastReason(t: Task): Reason {
    if t.trail == [] then NoReason else t.trail[|t.trail| - 1].reason
  }

  /** The budget check shared by every replan: a missing limit never runs out. */
  predicate BudgetSpent(t: Task) {
    t.maxReplans.Some? && t.replans >= t.maxReplans.value
  }

  // ----- decisions -------------------------------------------------------------------------

  /** The pipeline the stub driver walks. */
  const AUTO_PIPELINE: seq<Status> := [
    Created, Planning, Researching, Implementing, Testing, Reviewing,
    SecurityReview, Verification, PrCreation, AwaitingApproval, Completed
  ]

  /** The position of s in the pipeline, or none. */
  function IndexOf(s: Status, pipeline: seq<Status>): (i: Option<nat>)
    ensures i.Some? ==> i.value < |pipeline| && pipeline[i.value] == s
    ensures i.None? ==> s !in pipeline
  {
    if pipeline == [] then None
    else if pipeline[0] == s then Some(0)
    else
      match IndexOf(s, pipeline[1..])
      case None => None
      case Some(k) => Some(k + 1)
  }

  /** The stub driver's next status; none means that nothing is to be done. */
  function NextStatus(t: Task): Option<Status> {
    match t.status
    case Completed => None
    case Escalated => None
    case Failed => if LastReason(t).UserCancelled? then None else Some(Recovering)
    case Recovering => Some(Replanning)
    case Replanning => if BudgetSpent(t) then Some(Escalated) else Some(Researching)
    case Debugging => Some(Implementing)
    case s => PipelineSuccessor(s)
  }

  function PipelineSuccessor(s: Status): Option<Status> {
    match IndexOf(s, AUTO_PIPELINE)
    case None => None
    case Some(i) => if i + 1 < |AUTO_PIPELINE| then Some(AUTO_PIPELINE[i + 1]) else None
  }

  datatype TestStatus = Passed | FailedTests | ErrorInRun | InstallFailed
  datatype Review = Approve | RequestChanges | Reject
  datatype Scan = Pass | Fail

  /** How an agent's stage ended, seen by the handler that ran it. `Crashed` stands for a
      missing agent, a missing row or any exception. */
  datatype Outcome =
    | Crashed(text: string)
    | Done
    | Tested(run: TestStatus)
    | Classified(isFlaky: bool, fixable: bool, category: string)
    | Reviewed(review: Review)
    | Scanned(scan: Scan)
    | Checked(current: bool)

  /** What a handler asks for under a fresh lock: a compare-and-swap, or a budgeted replan. */
  datatype Decision = Swap(target: Status, reason: Reason) | Replan(reason: Reason)

  /** The statuses whose work is done by an agent, outside the lock. */
  predicate AgentStage(s: Status) {
    s.Planning? || s.Researching? || s.Implementing? || s.Testing? || s.Debugging?
    || s.Reviewing? || s.SecurityReview? || s.Verification? || s.PrCreation?
  }

  /** The branching of the handlers. An outcome that a stage cannot have is a crash. */
  function HandlerDecision(stage: Status, o: Outcome): Decision
    requires AgentStage(stage)
  {
    match (stage, o)
    case (Planning, Done) => Swap(Researching, Note("plan_persisted"))
    case (Researching, Done) => Swap(Implementing, Note("artifact_persisted"))
    case (Implementing, Done) => Swap(Testing, Note("implementation_persisted"))
    case (Testing, Tested(Passed)) => Swap(Reviewing, Note("tests_passed"))
    case (Testing, Tested(InstallFailed)) => Swap(Failed, Note("dependency_install_failed"))
    case (Testing, Tested(FailedTests)) => Swap(Debugging, Note("tests_failed"))
    case (Testing, Tested(ErrorInRun)) => Swap(Debugging, Note("tests_error"))
    case (Debugging, Classified(flaky, fixable, category)) =>
      if flaky then Swap(Reviewing, Note("flaky_test"))
      else if !fixable then Swap(Failed, Note("unfixable:" + category))
      else Replan(Note("debugger_replan"))
    case (Reviewing, Reviewed(Approve)) => Swap(SecurityReview, Note("review_approved"))
    case (Reviewing, Reviewed(RequestChanges)) => Replan(Note("review_requested_changes"))
    case (Reviewing, Reviewed(Reject)) => Replan(Note("review_rejected"))
    case (SecurityReview, Scanned(Pass)) => Swap(Verification, Note("security_passed"))
    case (SecurityReview, Scanned(Fail)) => Replan(Note("security_failed"))
    case (Verification, Checked(current)) =>
      if current then Swap(PrCreation, Note("verification_passed")) else Swap(Testing, Note("stale_review"))
    case (PrCreation, Done) => Swap(AwaitingApproval, Note("pr_created"))
    case (_, Crashed(text)) => Swap(Failed, Note(text))
    case (_, _) => Swap(Failed, Note("error"))
  }

  // ----- the locked operations, as functions on task values -----------------------------------

  function AfterAdvanceOnce(t: Task, now: int): Task {
    match NextStatus(t)
    case None => t
    case Some(s) => Moved(t, s, NoReason, now)
  }

  function AfterSwap(t: Task, expected: Status, target: Status, reason: Reason, now: int): Task {
    if t.status != expected then t else Moved(t, target, reason, now)
  }

  function AfterReplan(t: Task, expected: Status, reason: Reason, now: int): Task {
    if t.status != expected then t
    else if BudgetSpent(t) then Moved(t, Escalated, BudgetExhausted, now)
    else Moved(t.(replans := t.replans + 1), Implementing, reason, now)
  }

  function AfterDecision(t: Task, stage: Status, d: Decision, now: int): Task {
    match d
    case Swap(target, reason) => AfterSwap(t, stage, target, reason, now)
    case Replan(reason) => AfterReplan(t, stage, reason, now)
  }

  /** Cancelling is refused in terminal statuses and after a failure. */
  predicate Cancellable(t: Task) {
    !Terminal(t.status) && !t.status.Failed?
  }

  function AfterCancel(t: Task, now: int): Task {
    if Cancellable(t) then Moved(t, Failed, UserCancelled, now) else t
  }

  /** The deadline of a job fails the task, unless it is terminal or has failed already. */
  function AfterTimeout(t: Task, now: int): Task {
    if Terminal(t.status) || t.status.Failed? then t else Moved(t, Failed, JobTimeout, now)
  }

  /** Approval and rejection are refused unless the task waits for a human. */
  function AfterApproval(t: Task, approve: bool, note: Option<string>, now: int): Task {
    if !t.status.AwaitingApproval? then t
    else if approve then Moved(t, Completed, UserApproved, now)
    else Moved(t, Failed, UserRejected(note), now)
  }

  // ----- the row -----------------------------------------------------------------------------

  class TaskRow {
    var status: Status
    var replans: nat
    const maxReplans: Option<int>
    var trail: seq<Event>

    constructor (maxReplans: Option<int>)
      ensures Value() == Task(Created, 0, maxReplans, [])
    {
      this.status, this.replans, this.maxReplans, this.trail := Created, 0, maxReplans, [];
    }

    function Value(): Task
      reads this
    {
      Task(status, replans, maxReplans, trail)
    }

    /** The only writer of the status. An illegal target changes nothing and is reported. */
    method TransitionTask(target: Status, reason: Reason, now: int) returns (legal: bool)
      modifies this
      ensures legal <==> CanTransition(old(status), target)
      ensures Value() == if legal then Moved(old(Value()), target, reason, now) else old(Value())
    {
      if !CanTransition(status, target) { return false; }
      var current := status;
      status := target;
      if target.Replanning? { replans := replans + 1; }
      var at := NextEventTime(trail, now);
      trail := trail + [Event(current, target, reason, at)];
      return true;
    }

    /** The stub driver's unit of work. It never meets an illegal transition. */
    method AdvanceOnce(now: int) returns (moved: Option<Status>)
      modifies this
      ensures Value() == AfterAdvanceOnce(old(Value()), now)
      ensures moved == NextStatus(old(Value()))
      ensures old(status).Debugging? ==> moved == Some(Implementing)
    {
      moved := NextStatus(Value());
      if moved.Some? {
        NextStatusIsLegal(Value());
        var legal := TransitionTask(moved.value, NoReason, now);
        assert legal;
      }
    }

    /** Re-lock and move only if the status is still the expected one. */
    method CasTransition(expected: Status, target: Status, reason: Reason, now: int) returns (result: Status)
      requires CanTransition(expected, target)
      modifies this
      ensures Value() == AfterSwap(old(Value()), expected, target, reason, now)
      ensures result == status
    {
      if status != expected { return status; }
      var legal := TransitionTask(target, reason, now);
      assert legal;
      return target;
    }

    /** The one shared replan path: the budget is enforced here. */
    method ReplanToImplementing(expected: Status, reason: Reason, now: int) returns (result: Status)
      requires CanTransition(expected, Implementing)
      modifies this
      ensures Value() == AfterReplan(old(Value()), expected, reason, now)
      ensures result == status
    {
      if status != expected { return status; }
      if maxReplans.Some? && replans >= maxReplans.value {
        var legal := TransitionTask(Escalated, BudgetExhausted, now);
        assert legal;
        return Escalated;
      }
      replans := replans + 1;
      var legal := TransitionTask(Implementing, reason, now);
      assert legal;
      return Implementing;
    }

    /** The end of an agent's stage: whatever it reports, the requested move is legal. */
    method Finish(stage: Status, o: Outcome, now: int) returns (result: Status)
      requires AgentStage(stage)
      modifies this
      ensures Value() == AfterDecision(old(Value()), stage, HandlerDecision(stage, o), now)
      ensures result == status
    {
      HandlerDecisionIsLegal(stage, o);
      match HandlerDecision(stage, o) {
        case Swap(target, reason) => result := CasTransition(stage, target, reason, now);
        case Replan(reason) => result := ReplanToImplementing(stage, reason, now);
      }
    }

    /** Cancel: false stands for the conflict response, which changes nothing. */
    method Cancel(now: int) returns (ok: bool)
      modifies this
      ensures ok <==> !Terminal(old(status)) && !old(status).Failed?
      ensures Value() == AfterCancel(old(Value()), now)
      ensures ok ==> status.Failed? && |trail| == |old(trail)| + 1 && LastReason(Value()).UserCancelled?
      ensures !ok ==> Value() == old(Value())
    {
      if Terminal(status) || status.Failed? { return false; }
      ok := TransitionTask(Failed, UserCancelled, now);
    }

    /** The write of a job whose deadline has passed; none stands for nothing to be done. */
    method MarkTimeout(now: int) returns (result: Option<Status>)
      modifies this
      ensures Value() == AfterTimeout(old(Value()), now)
      ensures result == if Terminal(old(status)) || old(status).Failed? then None else Some(Failed)
      ensures result.Some? ==> status.Failed? && |trail| == |old(trail)| + 1 && LastReason(Value()).JobTimeout?
      ensures result.None? ==> Value() == old(Value())
    {
      if Terminal(status) || status.Failed? { return None; }
      var legal := TransitionTask(Failed, JobTimeout, now);
      assert legal;
      return Some(Failed);
    }

    /** Approve or reject, under the lock that checks for the waiting status. */
    method Decide(approve: bool, note: Option<string>, now: int) returns (ok: bool)
      modifies this
      ensures ok <==> old(status).AwaitingApproval?
      ensures Value() == AfterApproval(old(Value()), approve, note, now)
      ensures ok ==> status == (if approve then Completed else Failed) && |trail| == |old(trail)| + 1
      ensures ok ==> LastReason(Value()) == if approve then UserApproved else UserRejected(note)
      ensures !ok ==> Value() == old(Value())
    {
      if !status.AwaitingApproval? { return false; }
      if approve {
        ok := TransitionTask(Completed, UserApproved, now);
      } else {
        ok := TransitionTask(Failed, UserRejected(note), now);
      }
    }
  }

  // ----- legality ------------------------------------------------------------------------------

  /** The stub driver only ever asks for a legal transition, and asks for one unless the task
      is finished or was cancelled. */
  lemma NextStatusIsLegal(t: Task)
    ensures NextStatus(t).Some? ==> CanTransition(t.status, NextStatus(t).value)
    ensures NextStatus(t).None? <==> Terminal(t.status) || (t.status.Failed? && LastReason(t).UserCancelled?)
  {
    match t.status {
      case Completed | Debugging | Failed | Recovering | Replanning | Escalated =>
      case _ => PipelineSuccessorIsLegal(t.status);
    }
  }

  lemma PipelineSuccessorIsLegal(s: Status)
    requires !(s.Completed? || s.Debugging? || s.Failed? || s.Recovering? || s.Replanning? || s.Escalated?)
    ensures PipelineSuccessor(s).Some? && CanTransition(s, PipelineSuccessor(s).value)
  {
    PipelineHoldsTheRest(s);
    assert IndexOf(s, AUTO_PIPELINE).value != 10;
    PipelineStepIsLegal(IndexOf(s, AUTO_PIPELINE).value);
  }

  lemma PipelineStepIsLegal(i: nat)
    requires i + 1 < |AUTO_PIPELINE|
    ensures CanTransition(AUTO_PIPELINE[i], AUTO_PIPELINE[i + 1])
  {
  }

  lemma PipelineHoldsTheRest(s: Status)
    requires !(s.Completed? || s.Debugging? || s.Failed? || s.Recovering? || s.Replanning? || s.Escalated?)
    ensures s in AUTO_PIPELINE
  {
    var i := match s
      case Created => 0
      case Planning => 1
      case Researching => 2
      case Implementing => 3
      case Testing => 4
      case Reviewing => 5
      case SecurityReview => 6
      case Verification => 7
      case PrCreation => 8
      case _ => 9;
    assert AUTO_PIPELINE[i] == s;
  }

  function AdvancedTimes(t: Task, n: nat): Task {
    if n == 0 then t else AfterAdvanceOnce(AdvancedTimes(t, n - 1), 0)
  }

  /** The stub driver takes a new task to completion in ten moves. */
  lemma {:induction false} TenMovesComplete(maxReplans: Option<int>)
    ensures var t := AdvancedTimes(Task(Created, 0, maxReplans, []), 10); t.status.Completed? && |t.trail| == 10
  {
    AfterMoves(maxReplans, 10);
  }

  lemma {:induction false} AfterMoves(maxReplans: Option<int>, n: nat)
    requires n < |AUTO_PIPELINE|
    ensures var t := AdvancedTimes(Task(Created, 0, maxReplans, []), n);
            t.status == AUTO_PIPELINE[n] && |t.trail| == n
  {
    if n > 0 {
      AfterMoves(maxReplans, n - 1);
      OneMove(AdvancedTimes(Task(Created, 0, maxReplans, []), n - 1), n - 1);
    }
  }

  lemma OneMove(t: Task, i: nat)
    requires i + 1 < |AUTO_PIPELINE| && t.status == AUTO_PIPELINE[i]
    ensures AfterAdvanceOnce(t, 0).status == AUTO_PIPELINE[i + 1] && |AfterAdvanceOnce(t, 0).trail| == |t.trail| + 1
  {
    assert IndexOf(t.status, AUTO_PIPELINE) == Some(i) by {
      forall j | 0 <= j < |AUTO_PIPELINE| && AUTO_PIPELINE[j] == t.status ensures j == i { NoStatusTwice(i, j); }
      FoundAt(t.status, AUTO_PIPELINE, i);
    }
    StubUsesThePipeline(t, i);
  }

  lemma StubUsesThePipeline(t: Task, i: nat)
    requires i + 1 < |AUTO_PIPELINE| && t.status == AUTO_PIPELINE[i]
    ensures NextStatus(t) == PipelineSuccessor(t.status)
  {
    NotSpecial(i);
  }

  lemma NotSpecial(i: nat)
    requires i + 1 < |AUTO_PIPELINE|
    ensures var s := AUTO_PIPELINE[i];
            !Terminal(s) && !s.Failed? && !s.Recovering? && !s.Replanning? && !s.Debugging?
  {
  }

  lemma FoundAt(s: Status, pipeline: seq<Status>, i: nat)
    requires i < |pipeline| && pipeline[i] == s && forall j :: 0 <= j < |pipeline| && pipeline[j] == s ==> j == i
    ensures IndexOf(s, pipeline) == Some(i)
  {
  }

  lemma NoStatusTwice(i: nat, j: nat)
    requires i < |AUTO_PIPELINE| && j < |AUTO_PIPELINE| && AUTO_PIPELINE[i] == AUTO_PIPELINE[j]
    ensures i == j
  {
  }

  /** Whatever an agent reports, its handler asks for a legal transition, and neither for one
      that a human alone may cause nor for a restart from replanning. */
  lemma HandlerDecisionIsLegal(stage: Status, o: Outcome)
    requires AgentStage(stage)
    ensures match HandlerDecision(stage, o)
            case Swap(target, reason) =>
              CanTransition(stage, target) && !target.Completed? && !target.Replanning? && reason.Note?
              && (target.Implementing? ==> stage.Researching?)
            case Replan(reason) => stage.Debugging? || stage.Reviewing? || stage.SecurityReview?
  {
  }
}
