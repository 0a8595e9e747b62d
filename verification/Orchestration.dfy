/** Any number of workers and humans acting on one task. A worker's job has two locked
    sections, the dispatch and the end of the agent's stage; anything may happen between
    them. A job may die, or pass its deadline and fail the task; that write is taken to be
    one step. Clock readings and what agents report are arbitrary. */
module Orchestration {
  import opened Wrappers
  import opened StateMachine
  import opened TaskLifecycle

  type WorkerId = nat

  type Stage = s: Status | AgentStage(s) witness Planning

  /** The task, the stage each busy worker dispatched on, and the human decisions so far
      (true for approve), oldest first. */
  datatype System = System(task: Task, flight: map<WorkerId, Stage>, approvals: seq<bool>)

  datatype Step =
    | Dispatch(w: WorkerId, now: int)
    | Finish(w: WorkerId, o: Outcome, now: int)
    | Abandon(w: WorkerId)
    | Deadline(w: WorkerId, now: int)
    | Cancel(now: int)
    | Decide(approve: bool, note: Option<string>, now: int)

  function Start(maxReplans: Option<int>): System {
    System(Task(Created, 0, maxReplans, []), map[], [])
  }

  /** One locked section, or the death of a worker. */
  function Apply(sys: System, step: Step): System {
    match step
    case Dispatch(w, now) =>
      if w in sys.flight || sys.task.status.AwaitingApproval? then sys
      else if AgentStage(sys.task.status) then sys.(flight := sys.flight[w := sys.task.status])
      else sys.(task := AfterAdvanceOnce(sys.task, now))
    case Finish(w, o, now) =>
      if w !in sys.flight then sys
      else
        var stage := sys.flight[w];
        sys.(task := AfterDecision(sys.task, stage, HandlerDecision(stage, o), now), flight := sys.flight - {w})
    case Abandon(w) => sys.(flight := sys.flight - {w})
    case Deadline(w, now) => sys.(task := AfterTimeout(sys.task, now), flight := sys.flight - {w})
    case Cancel(now) => sys.(task := AfterCancel(sys.task, now))
    case Decide(approve, note, now) =>
      if !sys.task.status.AwaitingApproval? then sys
      else sys.(task := AfterApproval(sys.task, approve, note, now), approvals := sys.approvals + [approve])
  }

  function Run(sys: System, steps: seq<Step>): System
    decreases |steps|
  {
    if steps == [] then sys else Run(Apply(sys, steps[0]), steps[1..])
  }

  // ----- what a single step can do to the task -------------------------------------------------

  /** A transition, and whether it is charged to the replan budget when it is decided. */
  datatype Move = Move(target: Status, reason: Reason, now: int, charged: bool)

  function Moves(t: Task, m: Move): Task {
    Moved(if m.charged then t.(replans := t.replans + 1) else t, m.target, m.reason, m.now)
  }

  predicate Replannable(s: Status) {
    s.Debugging? || s.Reviewing? || s.SecurityReview?
  }

  predicate Cancelled(t: Task) {
    t.status.Failed? && LastReason(t).UserCancelled?
  }

  /** The moves that some worker or human can make. */
  predicate Allowed(t: Task, m: Move) {
    && CanTransition(t.status, m.target)
    && (m.charged <==> Replannable(t.status) && m.target.Implementing?)
    && (m.charged ==> !BudgetSpent(t))
    && (m.target.Escalated? ==> BudgetSpent(t) && (Replannable(t.status) || t.status.Replanning?))
    && (t.status.Failed? ==> m.target.Recovering? && !Cancelled(t))
    && (m.target.Replanning? ==> t.status.Recovering?)
    && (m.reason.JobTimeout? ==> m.target.Failed?)
    && (t.status.Recovering? ==>
          || m.target.Replanning?
          || (m.target.Failed? && (m.reason.UserCancelled? || m.reason.JobTimeout?)))
    && (t.status.Replanning? ==>
          || (m.target.Researching? && !BudgetSpent(t))
          || m.target.Escalated?
          || (m.target.Failed? && (m.reason.UserCancelled? || m.reason.JobTimeout?)))
  }

  /** Every step leaves the task alone or makes one allowed move. */
  ghost predicate StepsTo(t: Task, t': Task) {
    t' == t || exists m :: Allowed(t, m) && t' == Moves(t, m)
  }

  lemma EveryStepIsAllowed(sys: System, step: Step)
    ensures StepsTo(sys.task, Apply(sys, step).task)
  {
    var t, t' := sys.task, Apply(sys, step).task;
    match step {
      case Dispatch(w, now) =>
        NextStatusIsLegal(t);
        if t' != t { assert t' == Moves(t, Move(NextStatus(t).value, NoReason, now, false)); }
      case Finish(w, o, now) =>
        if w in sys.flight { DecisionIsAllowed(t, sys.flight[w], o, now); }
      case Abandon(w) =>
      case Deadline(w, now) =>
        if t' != t { assert t' == Moves(t, Move(Failed, JobTimeout, now, false)); }
      case Cancel(now) =>
        if Cancellable(t) { assert t' == Moves(t, Move(Failed, UserCancelled, now, false)); }
      case Decide(approve, note, now) =>
        if t.status.AwaitingApproval? {
          var m := if approve then Move(Completed, UserApproved, now, false)
                   else Move(Failed, UserRejected(note), now, false);
          assert t' == Moves(t, m);
        }
    }
  }

  lemma DecisionIsAllowed(t: Task, stage: Stage, o: Outcome, now: int)
    ensures StepsTo(t, AfterDecision(t, stage, HandlerDecision(stage, o), now))
  {
    HandlerDecisionIsLegal(stage, o);
    var t' := AfterDecision(t, stage, HandlerDecision(stage, o), now);
    if t.status == stage {
      match HandlerDecision(stage, o)
      case Swap(target, reason) => assert t' == Moves(t, Move(target, reason, now, false));
      case Replan(reason) =>
        if BudgetSpent(t) {
          assert t' == Moves(t, Move(Escalated, BudgetExhausted, now, false));
        } else {
          assert t' == Moves(t, Move(Implementing, reason, now, true));
        }
    }
  }

  // ----- the event trail -------------------------------------------------------------------------

  /** The trail is a gapless chain of legal transitions from creation to the current status,
      with strictly increasing times. */
  ghost predicate TrailSound(t: Task) {
    && (t.trail == [] ==> t.status.Created?)
    && (t.trail != [] ==> t.trail[0].source.Created? && t.trail[|t.trail| - 1].target == t.status)
    && (forall k :: 0 <= k < |t.trail| ==> CanTransition(t.trail[k].source, t.trail[k].target))
    && (forall k :: 0 <= k < |t.trail| - 1 ==> t.trail[k].target == t.trail[k + 1].source)
    && Increasing(t.trail)
  }

  ghost predicate Increasing(trail: seq<Event>) {
    forall i, j :: 0 <= i < j < |trail| ==> trail[i].at < trail[j].at
  }

  /** In an increasing trail the newest time is the last one, so ordering by time is
      ordering by insertion. */
  lemma {:induction false} LatestIsLast(trail: seq<Event>)
    requires trail != [] && Increasing(trail)
    ensures LatestTime(trail) == trail[|trail| - 1].at
  {
    if |trail| > 1 { LatestIsLast(trail[..|trail| - 1]); }
  }

  lemma MoveKeepsTrail(t: Task, m: Move)
    requires TrailSound(t) && Allowed(t, m)
    ensures TrailSound(Moves(t, m))
  {
    if t.trail != [] { LatestIsLast(t.trail); }
  }

  // ----- the replan budget -------------------------------------------------------------------------

  predicate SpendsBudget(e: Event) {
    e.target.Replanning? || (e.target.Implementing? && Replannable(e.source))
  }

  predicate Stale(e: Event) {
    e.source.Verification? && e.target.Testing?
  }

  function Count(trail: seq<Event>, counted: Event -> bool): nat {
    if trail == [] then 0
    else Count(trail[..|trail| - 1], counted) + if counted(trail[|trail| - 1]) then 1 else 0
  }

  function ReplanEvents(t: Task): nat { Count(t.trail, SpendsBudget) }

  function StaleEvents(t: Task): nat { Count(t.trail, Stale) }

  /** A deadline that passed while the task was in recovery or replanning. */
  predicate LateInRecovery(e: Event) { e.source.Recovering? && e.reason.JobTimeout? }

  predicate LateInReplanning(e: Event) { e.source.Replanning? && e.reason.JobTimeout? }

  function LateRecoveries(t: Task): nat { Count(t.trail, LateInRecovery) }

  function LateReplans(t: Task): nat { Count(t.trail, LateInReplanning) }

  /** The limit as the checks see it: a negative one acts like zero. */
  function Limit(max: int): nat { if max < 0 then 0 else max }

  /** The counter equals the replans on the trail. It overruns the limit by at most one for each
      deadline that passed in replanning, and by one more only on the way to escalation or when a
      task in replanning was cancelled. */
  ghost predicate BudgetSound(t: Task) {
    && t.replans == ReplanEvents(t)
    && (t.maxReplans.Some? ==>
          var most := Limit(t.maxReplans.value) + LateReplans(t);
          t.replans <= most + if t.status.Replanning? || t.status.Escalated? || Cancelled(t) then 1 else 0)
  }

  lemma CountAppend(trail: seq<Event>, e: Event, counted: Event -> bool)
    ensures Count(trail + [e], counted) == Count(trail, counted) + if counted(e) then 1 else 0
  {
    assert (trail + [e])[..|trail|] == trail;
  }

  lemma MoveKeepsBudget(t: Task, m: Move)
    requires BudgetSound(t) && Allowed(t, m)
    ensures BudgetSound(Moves(t, m))
  {
    var e := Moves(t, m).trail[|t.trail|];
    CountAppend(t.trail, e, SpendsBudget);
    CountAppend(t.trail, e, LateInReplanning);
  }

  /** Event k took the task into replanning although the replans before it had used up the limit. */
  ghost predicate RecoveredTooOften(trail: seq<Event>, limit: nat, k: nat)
    requires k < |trail|
  {
    trail[k].target.Replanning? && Count(trail[..k], SpendsBudget) >= limit
  }

  /** The counter is over the limit exactly when such an event is on the trail. */
  ghost predicate OverrunSound(t: Task) {
    t.maxReplans.Some? ==>
      var limit := Limit(t.maxReplans.value);
      t.replans > limit <==> exists k :: 0 <= k < |t.trail| && RecoveredTooOften(t.trail, limit, k)
  }

  /** For one move, checked beforehand: it passes the limit exactly when it goes into replanning, which
      is counted without a check, with the budget spent. */
  lemma {:induction false} MoveOverrunsIff(t: Task, m: Move)
    requires t.maxReplans.Some? && BudgetSound(t) && Allowed(t, m) && t.replans <= Limit(t.maxReplans.value)
    ensures Moves(t, m).replans > Limit(t.maxReplans.value) <==> m.target.Replanning? && BudgetSpent(t)
  {
  }

  lemma {:induction false} MoveKeepsOverrun(t: Task, m: Move)
    requires BudgetSound(t) && OverrunSound(t) && Allowed(t, m)
    ensures OverrunSound(Moves(t, m))
  {
    if t.maxReplans.Some? {
      var limit, t', n := Limit(t.maxReplans.value), Moves(t, m), |t.trail|;
      assert t'.trail[..n] == t.trail;
      assert forall k :: 0 <= k < n ==> t'.trail[..k] == t.trail[..k] && t'.trail[k] == t.trail[k];
      assert forall k :: 0 <= k < n ==>
        (RecoveredTooOften(t'.trail, limit, k) <==> RecoveredTooOften(t.trail, limit, k));
      if t.replans > limit {
        var k :| 0 <= k < n && RecoveredTooOften(t.trail, limit, k);
        assert RecoveredTooOften(t'.trail, limit, k);
      } else {
        MoveOverrunsIff(t, m);
        assert RecoveredTooOften(t'.trail, limit, n) <==> m.target.Replanning? && t.replans >= limit;
      }
    }
  }

  // ----- every run stops ---------------------------------------------------------------------------

  /** Distance to a stop within one replan round. */
  function Rank(t: Task): nat {
    match t.status
    case Replanning => 17
    case Created => 16
    case Planning => 15
    case Researching => 14
    case Implementing => 13
    case Testing => 12
    case Debugging => 11
    case Reviewing => 10
    case SecurityReview => 9
    case Verification => 8
    case PrCreation => 7
    case AwaitingApproval => 6
    case Failed => if Cancelled(t) then 1 else 5
    case Recovering => 4
    case Completed => 0
    case Escalated => 0
  }

  /** What is left to do: replans first, then the rank. */
  function Potential(t: Task): int
    requires t.maxReplans.Some?
  {
    (Limit(t.maxReplans.value) + 1 + LateReplans(t) - t.replans) * 18 + Rank(t)
  }

  /** The opening account, five events for each verification that found the review stale, and what
      each deadline in recovery or replanning adds. */
  function Account(t: Task): int
    requires t.maxReplans.Some?
  {
    18 * (Limit(t.maxReplans.value) + 1) + 16 + 5 * StaleEvents(t) + 2 * LateRecoveries(t) + 7 * LateReplans(t)
  }

  /** The trail so far and what is left never exceed the account. */
  ghost predicate Bounded(t: Task) {
    t.maxReplans.Some? ==> |t.trail| + Potential(t) <= Account(t)
  }

  function One(b: bool): nat { if b then 1 else 0 }

  /** A move lowers the rank, but for what is accounted for: spending budget, going back for a stale
      review, or failing a task in recovery for its deadline; a deadline in replanning takes eleven. */
  lemma MoveLowersRank(t: Task, m: Move)
    requires Allowed(t, m)
    ensures var e := Moves(t, m).trail[|t.trail|];
            && e.source == t.status && e.target == m.target
            && Rank(Moves(t, m)) + 1 <= Rank(t) + 18 * One(SpendsBudget(e)) + 5 * One(Stale(e))
                                        + 2 * One(LateInRecovery(e)) - 11 * One(LateInReplanning(e))
  {
    assert Cancelled(Moves(t, m)) <==> m.target.Failed? && m.reason.UserCancelled?;
  }

  /** What a move adds to the counts. */
  lemma MoveCounts(t: Task, m: Move)
    requires BudgetSound(t) && Allowed(t, m)
    ensures var t' := Moves(t, m); var e := t'.trail[|t.trail|];
            && |t'.trail| == |t.trail| + 1 && t'.maxReplans == t.maxReplans
            && t'.replans == t.replans + One(SpendsBudget(e)) && StaleEvents(t') == StaleEvents(t) + One(Stale(e))
            && LateRecoveries(t') == LateRecoveries(t) + One(LateInRecovery(e))
            && LateReplans(t') == LateReplans(t) + One(LateInReplanning(e))
  {
    var e := Moves(t, m).trail[|t.trail|];
    CountAppend(t.trail, e, Stale);
    CountAppend(t.trail, e, LateInRecovery);
    CountAppend(t.trail, e, LateInReplanning);
  }

  lemma MoveKeepsBound(t: Task, m: Move)
    requires t.maxReplans.Some? && BudgetSound(t) && Bounded(t) && Allowed(t, m)
    ensures Bounded(Moves(t, m))
  {
    MoveCounts(t, m);
    MoveLowersRank(t, m);
  }

  // ----- human decisions -----------------------------------------------------------------------------

  /** Only the last decision can be an approval, and it is one exactly when the task is complete. */
  ghost predicate ApprovalsSound(sys: System) {
    && (sys.task.status.Completed? <==> sys.approvals != [] && sys.approvals[|sys.approvals| - 1])
    && (forall k :: 0 <= k < |sys.approvals| - 1 ==> !sys.approvals[k])
  }

  lemma StepKeepsApprovals(sys: System, step: Step)
    requires ApprovalsSound(sys)
    ensures ApprovalsSound(Apply(sys, step))
  {
    EveryStepIsAllowed(sys, step);
    var sys' := Apply(sys, step);
    if step.Decide? && sys.task.status.AwaitingApproval? {
      assert sys'.approvals == sys.approvals + [step.approve];
    } else if sys'.task != sys.task {
      OnlyApprovalCompletes(sys, step);
    }
  }

  lemma OnlyApprovalCompletes(sys: System, step: Step)
    requires !step.Decide? && Apply(sys, step).task != sys.task
    ensures !Apply(sys, step).task.status.Completed? && !sys.task.status.Completed?
    ensures Apply(sys, step).approvals == sys.approvals
  {
    NextStatusIsLegal(sys.task);
    if step.Finish? && step.w in sys.flight { HandlerDecisionIsLegal(sys.flight[step.w], step.o); }
  }

  // ----- the theorems about whole runs ---------------------------------------------------------------

  ghost predicate Sound(sys: System) {
    && TrailSound(sys.task) && BudgetSound(sys.task) && OverrunSound(sys.task)
    && Bounded(sys.task) && ApprovalsSound(sys)
  }

  lemma StepKeepsSound(sys: System, step: Step)
    requires Sound(sys)
    ensures Sound(Apply(sys, step))
  {
    EveryStepIsAllowed(sys, step);
    var t' := Apply(sys, step).task;
    if t' != sys.task {
      var m :| Allowed(sys.task, m) && t' == Moves(sys.task, m);
      MoveKeepsTrail(sys.task, m);
      MoveKeepsBudget(sys.task, m);
      MoveKeepsOverrun(sys.task, m);
      if sys.task.maxReplans.Some? { MoveKeepsBound(sys.task, m); }
    }
    StepKeepsApprovals(sys, step);
  }

  lemma {:induction false} RunKeepsSound(sys: System, steps: seq<Step>)
    requires Sound(sys)
    ensures Sound(Run(sys, steps))
    decreases |steps|
  {
    if steps != [] {
      StepKeepsSound(sys, steps[0]);
      RunKeepsSound(Apply(sys, steps[0]), steps[1..]);
    }
  }

  /** For every interleaving of workers and humans, every clock and every agent. */
  lemma EveryRunIsSound(maxReplans: Option<int>, steps: seq<Step>)
    ensures Sound(Run(Start(maxReplans), steps))
  {
    RunKeepsSound(Start(maxReplans), steps);
  }

  lemma {:induction false} RunKeepsLimit(sys: System, steps: seq<Step>)
    ensures Run(sys, steps).task.maxReplans == sys.task.maxReplans
    decreases |steps|
  {
    if steps != [] {
      EveryStepIsAllowed(sys, steps[0]);
      RunKeepsLimit(Apply(sys, steps[0]), steps[1..]);
    }
  }

  /** When a run ends up over its limit: exactly when a failure was recovered with the budget already
      spent. By how much: by one, and one more for each deadline that passed in replanning. */
  lemma {:induction false} OverrunIff(max: int, steps: seq<Step>)
    ensures var t := Run(Start(Some(max)), steps).task;
            && (t.replans > Limit(max) <==>
                  exists k :: 0 <= k < |t.trail| && RecoveredTooOften(t.trail, Limit(max), k))
            && t.replans <= Limit(max) + 1 + LateReplans(t)
  {
    EveryRunIsSound(Some(max), steps);
    RunKeepsLimit(Start(Some(max)), steps);
  }

  /** With a limit on replans, the trail of every run is shorter than an explicit bound in the limit, the
      number of stale verifications, and the deadlines that passed in recovery and replanning. */
  lemma EveryRunStops(max: int, steps: seq<Step>)
    ensures var t := Run(Start(Some(max)), steps).task;
            |t.trail| <= 18 * (Limit(max) + 1) + 16 + 5 * StaleEvents(t) + 2 * LateRecoveries(t) + 7 * LateReplans(t)
  {
    EveryRunIsSound(Some(max), steps);
    RunKeepsLimit(Start(Some(max)), steps);
  }

  /** And it does not stop early: unless the task is finished, cancelled or waiting for a
      human, one job of an idle worker moves it, whatever its agent reports. */
  lemma OneJobMovesTheTask(sys: System, w: WorkerId, o: Outcome, now: int, later: int)
    requires w !in sys.flight && !Terminal(sys.task.status) && !Cancelled(sys.task)
    requires !sys.task.status.AwaitingApproval?
    ensures var after := Run(sys, [Dispatch(w, now), Finish(w, o, later)]);
            |after.task.trail| == |sys.task.trail| + 1
  {
    var mid := Apply(sys, Dispatch(w, now));
    assert [Dispatch(w, now), Finish(w, o, later)][1..] == [Finish(w, o, later)];
    assert Run(mid, [Finish(w, o, later)]) == Apply(mid, Finish(w, o, later));
    if !AgentStage(sys.task.status) { AdvanceMoves(sys.task, now); }
  }

  lemma AdvanceMoves(t: Task, now: int)
    requires !Terminal(t.status) && !Cancelled(t)
    ensures |AfterAdvanceOnce(t, now).trail| == |t.trail| + 1
  {
    NextStatusIsLegal(t);
  }

  /** Nothing brings a task back from completion, escalation or a user's cancellation: not a
      late agent, not another worker, not a human. */
  lemma {:induction false} StoppedForGood(sys: System, steps: seq<Step>)
    requires Terminal(sys.task.status) || Cancelled(sys.task)
    ensures Run(sys, steps).task == sys.task
    decreases |steps|
  {
    if steps != [] {
      EveryStepIsAllowed(sys, steps[0]);
      StoppedForGood(Apply(sys, steps[0]), steps[1..]);
    }
  }

  /** A cancel is accepted exactly before the end and before a failure, and then nothing undoes it. */
  lemma {:induction false} CancelIsFinal(sys: System, now: int, steps: seq<Step>)
    ensures var t := Run(Apply(sys, Step.Cancel(now)), steps).task;
            && (!Terminal(sys.task.status) && !sys.task.status.Failed? ==>
                  t.status.Failed? && |t.trail| == |sys.task.trail| + 1 && LastReason(t).UserCancelled?)
            && (Terminal(sys.task.status) ==> t == sys.task)
    ensures sys.task.status.Failed? ==> Apply(sys, Step.Cancel(now)) == sys
  {
    var after := Apply(sys, Step.Cancel(now));
    if Terminal(after.task.status) || Cancelled(after.task) { StoppedForGood(after, steps); }
  }

  /** A deadline fails a task that is neither finished nor failed, and the next dispatch recovers it. */
  lemma {:induction false} DeadlineFailsAndRecovers(sys: System, w: WorkerId, v: WorkerId, now: int, later: int)
    requires !Terminal(sys.task.status) && !sys.task.status.Failed? && v !in sys.flight
    ensures var failed := Apply(sys, Deadline(w, now));
            && failed.task.status.Failed? && |failed.task.trail| == |sys.task.trail| + 1 && w !in failed.flight
            && Apply(failed, Dispatch(v, later)).task.status.Recovering?
  {
    var failed := Apply(sys, Deadline(w, now));
    assert LastReason(failed.task).JobTimeout?;
  }

  /** A worker that died leaves the task and the other jobs as they were, and never moves the task again
      unless it is dispatched anew; that dispatch resumes the stage it had died in. */
  lemma {:induction false} DeadWorkersStayOut(sys: System, w: WorkerId, rest: seq<Step>, o: Outcome, now: int)
    requires forall step :: step in rest && step.Dispatch? ==> step.w != w
    ensures Apply(sys, Abandon(w)) == System(sys.task, sys.flight - {w}, sys.approvals)
    ensures var after := Run(Apply(sys, Abandon(w)), rest);
            w !in after.flight && Apply(after, Finish(w, o, now)) == after
    ensures AgentStage(sys.task.status) ==>
      Apply(Apply(sys, Abandon(w)), Dispatch(w, now)).flight == sys.flight[w := sys.task.status]
  {
    StaysOut(Apply(sys, Abandon(w)), w, rest);
  }

  lemma {:induction false} StaysOut(sys: System, w: WorkerId, rest: seq<Step>)
    requires w !in sys.flight && forall step :: step in rest && step.Dispatch? ==> step.w != w
    ensures w !in Run(sys, rest).flight
    decreases |rest|
  {
    if rest != [] { StaysOut(Apply(sys, rest[0]), w, rest[1..]); }
  }

  /** A rejected task, unlike a cancelled one, is picked up by the next dispatch. The table's
      documentation calls both a deliberate stop; the driver holds only the cancelled one. */
  lemma RejectionIsNotAStop(sys: System, note: Option<string>, w: WorkerId, now: int, later: int)
    requires sys.task.status.AwaitingApproval? && w !in sys.flight
    ensures Run(sys, [Decide(false, note, now), Dispatch(w, later)]).task.status.Recovering?
  {
    var mid := Apply(sys, Decide(false, note, now));
    assert [Decide(false, note, now), Dispatch(w, later)][1..] == [Dispatch(w, later)];
    assert Run(mid, [Dispatch(w, later)]) == Apply(mid, Dispatch(w, later));
  }

  /** A failed task is left alone by a dispatch if and only if a user cancelled it. */
  lemma FailureIsHeldIffCancelled(sys: System, w: WorkerId, now: int)
    requires sys.task.status.Failed? && w !in sys.flight
    ensures Apply(sys, Dispatch(w, now)).task == sys.task <==> Cancelled(sys.task)
  {
  }

  // ----- the bounds are reached ------------------------------------------------------------------------

  /** One complete job of worker 0. */
  function Job(o: Outcome): seq<Step> { [Dispatch(0, 0), Finish(0, o, 0)] }

  function Jobs(os: seq<Outcome>): seq<Step> {
    if os == [] then [] else Job(os[0]) + Jobs(os[1..])
  }

  /** What one job with nobody interfering does to the task. */
  function Worked(t: Task, o: Outcome): Task {
    if AgentStage(t.status) then AfterDecision(t, t.status, HandlerDecision(t.status, o), 0)
    else if t.status.AwaitingApproval? then t
    else AfterAdvanceOnce(t, 0)
  }

  function WorkedAll(t: Task, os: seq<Outcome>): Task
    decreases |os|
  {
    if os == [] then t else WorkedAll(Worked(t, os[0]), os[1..])
  }

  lemma {:induction false} RunConcat(sys: System, a: seq<Step>, b: seq<Step>)
    ensures Run(sys, a + b) == Run(Run(sys, a), b)
    decreases |a|
  {
    if a == [] {
      assert a + b == b;
    } else {
      assert (a + b)[0] == a[0] && (a + b)[1..] == a[1..] + b;
      RunConcat(Apply(sys, a[0]), a[1..], b);
    }
  }

  /** A run of undisturbed jobs is a run. */
  lemma {:induction false} JobsAreARun(sys: System, os: seq<Outcome>)
    requires sys.flight == map[]
    ensures Run(sys, Jobs(os)).flight == map[] && Run(sys, Jobs(os)).task == WorkedAll(sys.task, os)
    decreases |os|
  {
    if os != [] {
      var mid := Apply(sys, Dispatch(0, 0));
      var after := Apply(mid, Finish(0, os[0], 0));
      assert Job(os[0])[1..] == [Finish(0, os[0], 0)];
      assert Run(mid, [Finish(0, os[0], 0)]) == after;
      assert after.flight == map[] && after.task == Worked(sys.task, os[0]);
      RunConcat(sys, Job(os[0]), Jobs(os[1..]));
      JobsAreARun(after, os[1..]);
    }
  }

  lemma {:induction false} WorkedConcat(t: Task, a: seq<Outcome>, b: seq<Outcome>)
    ensures WorkedAll(t, a + b) == WorkedAll(WorkedAll(t, a), b)
    decreases |a|
  {
    if a == [] {
      assert a + b == b;
    } else {
      assert (a + b)[0] == a[0] && (a + b)[1..] == a[1..] + b;
      WorkedConcat(Worked(t, a[0]), a[1..], b);
    }
  }

  lemma ThreeJobs(t: Task, a: Outcome, b: Outcome, c: Outcome)
    ensures WorkedAll(t, [a, b, c]) == Worked(Worked(Worked(t, a), b), c)
  {
    assert [a, b, c][1..] == [b, c] && [b, c][1..] == [c];
    assert WorkedAll(Worked(t, a), [b, c]) == WorkedAll(Worked(Worked(t, a), b), [c]);
  }

  lemma ToReview(t: Task, o: Outcome)
    requires (t.status.Verification? && o == Checked(false)) || (t.status.Implementing? && o == Done)
    ensures var t' := Worked(Worked(t, o), Tested(Passed));
            t'.status.Reviewing? && t'.replans == t.replans && t'.maxReplans == t.maxReplans
            && |t'.trail| == |t.trail| + 2
  {
    assert Worked(t, o).status.Testing?;
  }

  lemma RejectedRound(t: Task)
    requires t.status.Implementing? && !BudgetSpent(t)
    ensures var t' := WorkedAll(t, [Done, Tested(Passed), Reviewed(Reject)]);
            t'.status.Implementing? && t'.replans == t.replans + 1 && t'.maxReplans == t.maxReplans
  {
    ThreeJobs(t, Done, Tested(Passed), Reviewed(Reject));
    ToReview(t, Done);
  }

  lemma FailingRound(t: Task)
    requires t.status.Implementing?
    ensures WorkedAll(t, [Crashed(""), Done, Done]).replans == t.replans + 1
  {
    ThreeJobs(t, Crashed(""), Done, Done);
    var t1 := Worked(t, Crashed(""));
    assert t1.status.Failed? && !Cancelled(t1);
    assert Worked(t1, Done).status.Recovering?;
  }

  /** Rejected reviews spend the budget, and a failure after that still replans once more. */
  lemma {:induction false} OverrunFrom(t: Task, max: nat) returns (os: seq<Outcome>)
    requires t.status.Implementing? && t.maxReplans == Some(max) && t.replans <= max
    ensures WorkedAll(t, os).replans == max + 1
    decreases max - t.replans
  {
    if t.replans == max {
      os := [Crashed(""), Done, Done];
      FailingRound(t);
    } else {
      var round := [Done, Tested(Passed), Reviewed(Reject)];
      RejectedRound(t);
      var rest := OverrunFrom(WorkedAll(t, round), max);
      os := round + rest;
      WorkedConcat(t, round, rest);
    }
  }

  lemma ToImplementing(maxReplans: Option<int>)
    ensures var t := WorkedAll(Start(maxReplans).task, [Done, Done, Done]);
            t.status.Implementing? && t.replans == 0 && t.maxReplans == maxReplans
  {
    var t := Start(maxReplans).task;
    ThreeJobs(t, Done, Done, Done);
    EarlyStage(t);
    EarlyStage(Worked(t, Done));
    EarlyStage(Worked(Worked(t, Done), Done));
  }

  lemma EarlyStage(t: Task)
    requires t.status.Created? || t.status.Planning? || t.status.Researching?
    ensures var t' := Worked(t, Done);
            && t'.replans == t.replans && t'.maxReplans == t.maxReplans
            && t'.status == (if t.status.Created? then Planning
                             else if t.status.Planning? then Researching else Implementing)
  {
  }

  /** The overrun by one is real: for every limit some run spends one replan more. */
  lemma OverrunIsReached(max: nat) returns (steps: seq<Step>)
    ensures Run(Start(Some(max)), steps).task.replans == max + 1
  {
    var t, head := Start(Some(max)).task, [Done, Done, Done];
    ToImplementing(Some(max));
    var rest := OverrunFrom(WorkedAll(t, head), max);
    WorkedConcat(t, head, rest);
    JobsAreARun(Start(Some(max)), head + rest);
    steps := Jobs(head + rest);
  }

  /** Three undisturbed jobs take a task in verification or implementing to the security review. */
  lemma BackToSecurityReview(t: Task, o: Outcome)
    requires (t.status.Verification? && o == Checked(false)) || (t.status.Implementing? && o == Done)
    ensures var t' := WorkedAll(t, [o, Tested(Passed), Reviewed(Approve)]);
            t'.status.SecurityReview? && t'.replans == t.replans && |t'.trail| == |t.trail| + 3
  {
    ThreeJobs(t, o, Tested(Passed), Reviewed(Approve));
    ToReview(t, o);
    ReviewPasses(Worked(Worked(t, o), Tested(Passed)));
  }

  lemma ReviewPasses(t: Task)
    requires t.status.Reviewing?
    ensures var t' := Worked(t, Reviewed(Approve));
            t'.status.SecurityReview? && t'.replans == t.replans && |t'.trail| == |t.trail| + 1
  {
  }

  lemma PassSecurity(t: Task, os: seq<Outcome>)
    requires WorkedAll(t, os).status.SecurityReview?
    ensures var t' := WorkedAll(t, os + [Scanned(Pass)]);
            t'.status.Verification? && t'.replans == WorkedAll(t, os).replans
            && |t'.trail| == |WorkedAll(t, os).trail| + 1
  {
    WorkedConcat(t, os, [Scanned(Pass)]);
    assert WorkedAll(WorkedAll(t, os), [Scanned(Pass)]) == Worked(WorkedAll(t, os), Scanned(Pass));
  }

  /** Going back to testing for a stale review costs no budget. */
  lemma {:induction false} StaleRoundsAreFree(t: Task, n: nat) returns (os: seq<Outcome>)
    requires t.status.Verification?
    ensures WorkedAll(t, os).status.Verification? && WorkedAll(t, os).replans == t.replans
    ensures |WorkedAll(t, os).trail| == |t.trail| + 4 * n
    decreases n
  {
    if n == 0 {
      os := [];
    } else {
      var round := [Checked(false), Tested(Passed), Reviewed(Approve)] + [Scanned(Pass)];
      BackToSecurityReview(t, Checked(false));
      PassSecurity(t, [Checked(false), Tested(Passed), Reviewed(Approve)]);
      var rest := StaleRoundsAreFree(WorkedAll(t, round), n - 1);
      os := round + rest;
      WorkedConcat(t, round, rest);
    }
  }

  /** So the number of stale verifications in the bound cannot be dropped: one worker alone,
      never replanning, makes trails of any length. */
  lemma TrailsAreUnbounded(maxReplans: Option<int>, n: nat) returns (steps: seq<Step>)
    ensures Run(Start(maxReplans), steps).task.replans == 0
    ensures |Run(Start(maxReplans), steps).task.trail| >= n
  {
    var t, head, gates := Start(maxReplans).task, [Done, Done, Done], [Done, Tested(Passed), Reviewed(Approve)];
    ToImplementing(maxReplans);
    var t1 := WorkedAll(t, head);
    BackToSecurityReview(t1, Done);
    PassSecurity(t1, gates);
    var rest := StaleRoundsAreFree(WorkedAll(t1, gates + [Scanned(Pass)]), n);
    WorkedConcat(t1, gates + [Scanned(Pass)], rest);
    WorkedConcat(t, head, gates + [Scanned(Pass)] + rest);
    JobsAreARun(Start(maxReplans), head + (gates + [Scanned(Pass)] + rest));
    steps := Jobs(head + (gates + [Scanned(Pass)] + rest));
  }
}
