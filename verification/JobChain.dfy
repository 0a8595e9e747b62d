/** The queue side of the pipeline: each job runs one locked section and then enqueues its
    own continuation under an id made from the status it left behind. The queue drops an
    enqueue whose id is already queued or held by a job that has not closed yet. */
module JobChain {
  import opened Wrappers
  import opened StateMachine
  import opened TaskLifecycle
  import opened Orchestration

  /** All ids belong to one task, so an id is the status that ends it. */
  type JobId = Status

  datatype Phase = Fetched | Working | Returned(result: Option<Status>) | Closing

  datatype Job = Job(id: JobId, phase: Phase)

  datatype Chain = Chain(sys: System, queued: set<JobId>, running: map<WorkerId, Job>)

  datatype ChainStep =
    | Take(w: WorkerId, id: JobId)
    | Begin(w: WorkerId, now: int)
    | End(w: WorkerId, o: Outcome, now: int)
    | Enqueue(w: WorkerId)
    | Close(w: WorkerId)
    | UserCancel(now: int)
    | UserDecide(approve: bool, note: Option<string>, now: int)

  predicate InPhase(c: Chain, w: WorkerId, p: Phase) {
    w in c.running && c.running[w].phase == p
  }

  function Set(c: Chain, w: WorkerId, p: Phase): Chain
    requires w in c.running
  {
    c.(running := c.running[w := c.running[w].(phase := p)])
  }

  /** An id is taken while a job with it is queued, or running and not closed. */
  predicate IdTaken(c: Chain, id: JobId) {
    id in c.queued || exists w :: w in c.running && c.running[w].id == id
  }

  function ChainApply(c: Chain, step: ChainStep): Chain {
    match step
    case Take(w, id) =>
      if id !in c.queued || w in c.running then c
      else c.(queued := c.queued - {id}, running := c.running[w := Job(id, Fetched)])
    case Begin(w, now) =>
      if !InPhase(c, w, Fetched) then c
      else
        var sys' := Apply(c.sys, Dispatch(w, now));
        var p := if w in sys'.flight then Working
                 else if sys'.task == c.sys.task then Returned(None)
                 else Returned(Some(sys'.task.status));
        Set(c.(sys := sys'), w, p)
    case End(w, o, now) =>
      if !InPhase(c, w, Working) then c
      else
        var sys' := Apply(c.sys, Finish(w, o, now));
        Set(c.(sys := sys'), w, Returned(Some(sys'.task.status)))
    case Enqueue(w) =>
      if w !in c.running || !c.running[w].phase.Returned? then c
      else
        var result := c.running[w].phase.result;
        if result.None? || Terminal(result.value) || IdTaken(c, result.value) then Set(c, w, Closing)
        else Set(c.(queued := c.queued + {result.value}), w, Closing)
    case Close(w) =>
      if !InPhase(c, w, Closing) then c else c.(running := c.running - {w})
    case UserCancel(now) => c.(sys := Apply(c.sys, Step.Cancel(now)))
    case UserDecide(approve, note, now) => c.(sys := Apply(c.sys, Decide(approve, note, now)))
  }

  /** The bootstrap enqueue of a new task, under its current status. */
  function Bootstrap(maxReplans: Option<int>): Chain {
    Chain(Start(maxReplans), {Created}, map[])
  }

  // ----- the token -----------------------------------------------------------------------------------

  /** Where the duty to move the task on lies: nowhere, in the queue, or with a running job that
      has not enqueued its continuation yet. */
  datatype Token = NoToken | InQueue(id: JobId) | With(w: WorkerId)

  /** There is a next step that a worker may take. */
  predicate NeedsWorker(t: Task) {
    !Terminal(t.status) && !Cancelled(t) && !t.status.AwaitingApproval?
  }

  predicate Rejected(t: Task) {
    t.status.Failed? && LastReason(t).UserRejected?
  }

  /** The id names the task's status, or a human has moved the task since the id was chosen. */
  predicate Fits(t: Task, id: JobId) {
    t.status == id || Cancelled(t) || (id.AwaitingApproval? && (Rejected(t) || t.status.Completed?))
  }

  ghost predicate OthersClosing(c: Chain, holder: Option<WorkerId>) {
    forall v :: v in c.running && Some(v) != holder ==> c.running[v].phase.Closing?
  }

  ghost predicate Holds(c: Chain, tok: Token) {
    match tok
    case NoToken => c.queued == {} && OthersClosing(c, None) && c.sys.flight == map[]
    case InQueue(id) => c.queued == {id} && OthersClosing(c, None) && c.sys.flight == map[]
    case With(w) =>
      && c.queued == {} && OthersClosing(c, Some(w)) && w in c.running && !c.running[w].phase.Closing?
      && c.sys.flight.Keys == if c.running[w].phase.Working? then {w} else {}
  }

  /** At most one live job, and the id or the result it carries fits the task. */
  ghost predicate Single(c: Chain, tok: Token) {
    var t := c.sys.task;
    && Holds(c, tok)
    && match tok
       case NoToken => true
       case InQueue(id) => Fits(t, id)
       case With(w) =>
         var id := c.running[w].id;
         match c.running[w].phase
         case Fetched => Fits(t, id)
         case Working => c.sys.flight[w] == id && (t.status == id || Cancelled(t))
         case Returned(Some(s)) => s != id && Fits(t, s)
         case _ => true
  }

  /** The duty is gone: no job is live, or the live one has found nothing to do. */
  ghost predicate Idle(c: Chain, tok: Token) {
    tok.NoToken? || (tok.With? && InPhase(c, tok.w, Returned(None)))
  }

  /** The duty is gone only when the task has no next step. */
  ghost predicate Served(c: Chain, tok: Token) {
    Idle(c, tok) ==> !NeedsWorker(c.sys.task)
  }

  /** A continuation that is needed meets its own id, still held by another job that has not closed. */
  ghost predicate Blocked(c: Chain, step: ChainStep) {
    step.Enqueue? && step.w in c.running && NeedsWorker(c.sys.task) &&
    match c.running[step.w].phase
    case Returned(Some(s)) => exists v :: v in c.running && v != step.w && c.running[v].id == s
    case _ => false
  }

  /** The live jobs: queued, or running and still owing their continuation. */
  ghost predicate LiveQueued(c: Chain, id: JobId) { id in c.queued }

  ghost predicate LiveRunning(c: Chain, w: WorkerId) {
    w in c.running && !c.running[w].phase.Closing?
  }

  /** Some job is queued or running that has not yet decided to stop. */
  ghost predicate Alive(c: Chain) {
    (exists i :: LiveQueued(c, i)) || (exists w :: LiveRunning(c, w) && c.running[w].phase != Returned(None))
  }

  lemma AliveIffNotIdle(c: Chain, tok: Token)
    requires Single(c, tok)
    ensures Alive(c) <==> !Idle(c, tok)
  {
    match tok
    case NoToken =>
    case InQueue(id) => assert LiveQueued(c, id);
    case With(w) =>
      assert LiveRunning(c, w);
      assert forall v :: LiveRunning(c, v) ==> v == w;
  }

  /** A human rejects the waiting task when no job is left that could take it up. */
  ghost predicate RejectsUnattended(c: Chain, step: ChainStep) {
    step.UserDecide? && !step.approve && c.sys.task.status.AwaitingApproval? && !Alive(c)
  }

  /** The two ways in which a step can lose the duty to move the task on. */
  ghost predicate Loses(c: Chain, step: ChainStep) {
    Blocked(c, step) || RejectsUnattended(c, step)
  }

  lemma TakeKeeps(c: Chain, tok: Token, w: WorkerId, id: JobId) returns (tok': Token)
    requires Single(c, tok)
    ensures Single(ChainApply(c, Take(w, id)), tok')
    ensures Served(c, tok) ==> Served(ChainApply(c, Take(w, id)), tok')
  {
    tok' := if id in c.queued && w !in c.running then With(w) else tok;
  }

  lemma BeginKeeps(c: Chain, tok: Token, w: WorkerId, now: int)
    requires Single(c, tok)
    ensures Single(ChainApply(c, Begin(w, now)), tok)
    ensures Served(c, tok) ==> Served(ChainApply(c, Begin(w, now)), tok)
  {
    if InPhase(c, w, Fetched) {
      assert tok == With(w);
      NextStatusIsLegal(c.sys.task);
      EveryStepIsAllowed(c.sys, Dispatch(w, now));
      var c' := ChainApply(c, Begin(w, now));
      if c'.sys.task != c.sys.task {
        var m :| Allowed(c.sys.task, m) && c'.sys.task == Moves(c.sys.task, m);
        TableShape(c.sys.task.status, m.target);
      }
    }
  }

  lemma EndKeeps(c: Chain, tok: Token, w: WorkerId, o: Outcome, now: int)
    requires Single(c, tok)
    ensures Single(ChainApply(c, End(w, o, now)), tok)
    ensures Served(c, tok) ==> Served(ChainApply(c, End(w, o, now)), tok)
  {
    if InPhase(c, w, Working) {
      assert tok == With(w);
      EveryStepIsAllowed(c.sys, Finish(w, o, now));
      var c' := ChainApply(c, End(w, o, now));
      if c'.sys.task != c.sys.task {
        var m :| Allowed(c.sys.task, m) && c'.sys.task == Moves(c.sys.task, m);
        TableShape(c.sys.task.status, m.target);
      } else {
        UnmovedMeansElsewhere(c.sys.task, c.sys.flight[w], o, now);
      }
    }
  }

  /** A handler leaves the task alone only when it finds another status than its own. */
  lemma UnmovedMeansElsewhere(t: Task, stage: Stage, o: Outcome, now: int)
    requires AfterDecision(t, stage, HandlerDecision(stage, o), now) == t
    ensures t.status != stage
  {
    var t' := AfterDecision(t, stage, HandlerDecision(stage, o), now);
    assert t.status == stage ==> |t'.trail| == |t.trail| + 1;
  }

  lemma EnqueueKeeps(c: Chain, tok: Token, w: WorkerId) returns (tok': Token)
    requires Single(c, tok)
    ensures Single(ChainApply(c, Enqueue(w)), tok')
    ensures Served(c, tok) && !Blocked(c, Enqueue(w)) ==> Served(ChainApply(c, Enqueue(w)), tok')
    ensures Blocked(c, Enqueue(w)) ==> tok' == NoToken
  {
    tok' := tok;
    if w in c.running && c.running[w].phase.Returned? {
      assert tok == With(w);
      var result := c.running[w].phase.result;
      tok' := if result.None? || Terminal(result.value) || IdTaken(c, result.value) then NoToken
              else InQueue(result.value);
    }
  }

  lemma HumanKeeps(c: Chain, tok: Token, step: ChainStep)
    requires Single(c, tok) && (step.UserCancel? || step.UserDecide?)
    ensures Single(ChainApply(c, step), tok)
    ensures Idle(ChainApply(c, step), tok) <==> Idle(c, tok)
    ensures Served(c, tok) && !RejectsUnattended(c, step) ==> Served(ChainApply(c, step), tok)
    ensures RejectsUnattended(c, step) ==> Idle(c, tok) && NeedsWorker(ChainApply(c, step).sys.task)
  {
    AliveIffNotIdle(c, tok);
    if tok.With? && c.running[tok.w].phase.Working? { assert AgentStage(c.sys.flight[tok.w]); }
  }

  /** Every step keeps the single duty, and a step after which it is missing is one that loses it. */
  lemma StepKeeps(c: Chain, tok: Token, step: ChainStep) returns (tok': Token)
    requires Single(c, tok)
    ensures Single(ChainApply(c, step), tok')
    ensures Served(c, tok) && !Loses(c, step) ==> Served(ChainApply(c, step), tok')
    ensures Loses(c, step) ==> Idle(ChainApply(c, step), tok') && NeedsWorker(ChainApply(c, step).sys.task)
  {
    tok' := tok;
    match step {
      case Take(w, id) => tok' := TakeKeeps(c, tok, w, id);
      case Begin(w, now) => BeginKeeps(c, tok, w, now);
      case End(w, o, now) => EndKeeps(c, tok, w, o, now);
      case Enqueue(w) => tok' := EnqueueKeeps(c, tok, w);
      case Close(w) =>
      case UserCancel(now) => HumanKeeps(c, tok, step);
      case UserDecide(approve, note, now) => HumanKeeps(c, tok, step);
    }
  }

  // ----- whole runs -------------------------------------------------------------------------------------

  function RunChain(c: Chain, steps: seq<ChainStep>): Chain
    decreases |steps|
  {
    if steps == [] then c else RunChain(ChainApply(c, steps[0]), steps[1..])
  }

  ghost predicate NeverLost(c: Chain, steps: seq<ChainStep>)
    decreases |steps|
  {
    steps == [] || (!Loses(c, steps[0]) && NeverLost(ChainApply(c, steps[0]), steps[1..]))
  }

  /** The duty is lost for good: nobody holds it, and the task still has a next step or was cancelled
      in that state. */
  ghost predicate Lost(c: Chain, tok: Token) {
    Single(c, tok) && Idle(c, tok) && (NeedsWorker(c.sys.task) || Cancelled(c.sys.task))
  }

  lemma LostStaysLost(c: Chain, tok: Token, step: ChainStep) returns (tok': Token)
    requires Lost(c, tok)
    ensures Lost(ChainApply(c, step), tok')
    ensures !step.UserCancel? ==> ChainApply(c, step).sys.task == c.sys.task
  {
    tok' := if tok.With? && step == Enqueue(tok.w) then NoToken else tok;
    assert forall w :: w in c.running ==> c.running[w].phase.Closing? || c.running[w].phase == Returned(None);
  }

  lemma {:induction false} RunKeeps(c: Chain, tok: Token, steps: seq<ChainStep>) returns (tok': Token)
    requires Single(c, tok) && Served(c, tok)
    ensures Single(RunChain(c, steps), tok')
    ensures NeverLost(c, steps) ==> Served(RunChain(c, steps), tok')
    ensures !NeverLost(c, steps) ==> Lost(RunChain(c, steps), tok')
    decreases |steps|
  {
    if steps == [] {
      tok' := tok;
    } else {
      var next := StepKeeps(c, tok, steps[0]);
      var c' := ChainApply(c, steps[0]);
      if Loses(c, steps[0]) {
        tok' := RunStaysLost(c', next, steps[1..]);
      } else {
        tok' := RunKeeps(c', next, steps[1..]);
      }
    }
  }

  lemma {:induction false} RunStaysLost(c: Chain, tok: Token, steps: seq<ChainStep>) returns (tok': Token)
    requires Lost(c, tok)
    ensures Lost(RunChain(c, steps), tok')
    decreases |steps|
  {
    if steps == [] {
      tok' := tok;
    } else {
      var next := LostStaysLost(c, tok, steps[0]);
      tok' := RunStaysLost(ChainApply(c, steps[0]), next, steps[1..]);
    }
  }

  lemma {:induction false} StartsSingle(maxReplans: Option<int>)
    ensures Single(Bootstrap(maxReplans), InQueue(Created)) && Served(Bootstrap(maxReplans), InQueue(Created))
  {
    assert Holds(Bootstrap(maxReplans), InQueue(Created));
  }

  /** From one bootstrap enqueue, in every run without crashes: two live jobs never exist. */
  lemma {:induction false} OneJobPerTask(maxReplans: Option<int>, steps: seq<ChainStep>)
    ensures var c := RunChain(Bootstrap(maxReplans), steps);
            && (forall i, j :: LiveQueued(c, i) && LiveQueued(c, j) ==> i == j)
            && (forall v, w :: LiveRunning(c, v) && LiveRunning(c, w) ==> v == w)
            && (forall i, w :: LiveQueued(c, i) ==> !LiveRunning(c, w))
  {
    StartsSingle(maxReplans);
    var tok := RunKeeps(Bootstrap(maxReplans), InQueue(Created), steps);
  }

  /** In every run, a job's own id never blocks its continuation. */
  lemma {:induction false} OwnIdNeverBlocks(maxReplans: Option<int>, steps: seq<ChainStep>, w: WorkerId, s: Status)
    requires InPhase(RunChain(Bootstrap(maxReplans), steps), w, Returned(Some(s)))
    ensures RunChain(Bootstrap(maxReplans), steps).running[w].id != s
  {
    StartsSingle(maxReplans);
    var tok := RunKeeps(Bootstrap(maxReplans), InQueue(Created), steps);
    assert tok == With(w);
  }

  /** In every run no job is ever queued or run for a finished status: a continuation into one is not
      enqueued. */
  lemma {:induction false} NoJobForTheEnd(maxReplans: Option<int>, steps: seq<ChainStep>)
    ensures NoTerminalIds(RunChain(Bootstrap(maxReplans), steps))
  {
    RunKeepsIds(Bootstrap(maxReplans), steps);
  }

  ghost predicate NoTerminalIds(c: Chain) {
    && (forall i :: i in c.queued ==> !Terminal(i))
    && (forall w :: w in c.running ==> !Terminal(c.running[w].id))
  }

  lemma {:induction false} RunKeepsIds(c: Chain, steps: seq<ChainStep>)
    requires NoTerminalIds(c)
    ensures NoTerminalIds(RunChain(c, steps))
    decreases |steps|
  {
    if steps != [] { RunKeepsIds(ChainApply(c, steps[0]), steps[1..]); }
  }

  /** A job that begins on a finished task finds nothing to do and queues nothing. */
  lemma {:induction false} FinishedTaskQueuesNothing(c: Chain, w: WorkerId, now: int)
    requires InPhase(c, w, Fetched) && Terminal(c.sys.task.status) && w !in c.sys.flight
    ensures var c' := ChainApply(ChainApply(c, Begin(w, now)), Enqueue(w));
            c'.queued == c.queued && c'.sys == c.sys && InPhase(c', w, Closing)
  {
  }

  // ----- stranded tasks -----------------------------------------------------------------------------------

  predicate WithoutHumans(steps: seq<ChainStep>) {
    forall k :: 0 <= k < |steps| ==> !steps[k].UserCancel? && !steps[k].UserDecide?
  }

  /** Whatever queue and workers do, the task stays as it is until a human acts. */
  ghost predicate Stranded(c: Chain) {
    forall steps :: WithoutHumans(steps) ==> RunChain(c, steps).sys.task == c.sys.task
  }

  lemma {:induction false} IdleStaysIdle(c: Chain, tok: Token, steps: seq<ChainStep>)
    requires Single(c, tok) && Idle(c, tok) && WithoutHumans(steps)
    ensures RunChain(c, steps).sys.task == c.sys.task
    decreases |steps|
  {
    if steps != [] {
      var next := if tok.With? && steps[0] == Enqueue(tok.w) then NoToken else tok;
      var c' := ChainApply(c, steps[0]);
      assert c'.sys == c.sys && Single(c', next) && Idle(c', next);
      IdleStaysIdle(c', next, steps[1..]);
    }
  }

  lemma {:induction false} RunChainConcat(c: Chain, a: seq<ChainStep>, b: seq<ChainStep>)
    ensures RunChain(c, a + b) == RunChain(RunChain(c, a), b)
    decreases |a|
  {
    if a == [] {
      assert a + b == b;
    } else {
      assert (a + b)[1..] == a[1..] + b;
      RunChainConcat(ChainApply(c, a[0]), a[1..], b);
    }
  }

  lemma OneChainStep(c: Chain, step: ChainStep)
    ensures RunChain(c, [step]) == ChainApply(c, step)
  {
    var rest := [step][1..];
    assert rest == [];
  }

  /** Only the holder of the duty is running. */
  predicate Tidy(c: Chain, tok: Token) {
    c.running.Keys == if tok.With? then {tok.w} else {}
  }

  lemma CloseOne(c: Chain, tok: Token, v: WorkerId)
    requires Single(c, tok) && InPhase(c, v, Closing)
    ensures var c1 := ChainApply(c, Close(v));
            && Single(c1, tok) && c1.sys == c.sys && c1.queued == c.queued && |c1.running| < |c.running|
            && (tok.With? ==> tok.w in c.running && tok.w in c1.running && c1.running[tok.w] == c.running[tok.w])
  {
    var c1 := ChainApply(c, Close(v));
    assert c.running.Keys == c1.running.Keys + {v};
    assert |c1.running.Keys| < |c.running.Keys|;
  }

  /** The closing jobs can close, and nothing else changes. */
  lemma {:induction false} TidyUp(c: Chain, tok: Token) returns (steps: seq<ChainStep>)
    requires Single(c, tok)
    ensures WithoutHumans(steps)
    ensures var c' := RunChain(c, steps);
            && c'.sys == c.sys && c'.queued == c.queued && Tidy(c', tok)
            && (tok.With? ==> tok.w in c.running && tok.w in c'.running && c'.running[tok.w] == c.running[tok.w])
    decreases |c.running|
  {
    if v :| v in c.running && c.running[v].phase.Closing? {
      var c1 := ChainApply(c, Close(v));
      CloseOne(c, tok, v);
      var rest := TidyUp(c1, tok);
      OneChainStep(c, Close(v));
      RunChainConcat(c, [Close(v)], rest);
      steps := [Close(v)] + rest;
    } else {
      steps := [];
    }
  }

  /** While the duty is held and there is a next step, workers and queue can take it. */
  lemma {:induction false} AliveMovesOn(c: Chain, tok: Token) returns (steps: seq<ChainStep>)
    requires Single(c, tok) && Tidy(c, tok) && !Idle(c, tok) && NeedsWorker(c.sys.task)
    ensures WithoutHumans(steps) && RunChain(c, steps).sys.task != c.sys.task
    decreases match tok
              case InQueue(_) => 2
              case With(w) => (match c.running[w].phase case Fetched => 1 case Working => 0 case _ => 3)
              case NoToken => 0
  {
    var step, next := NextOf(c, tok), tok;
    match tok {
      case InQueue(id) => next := With(0);
      case With(w) =>
        if c.running[w].phase.Returned? {
          next := InQueue(c.running[w].phase.result.value);
        }
    }
    var c1 := ChainApply(c, step);
    OneChainStep(c, step);
    NextStatusIsLegal(c.sys.task);
    if tok.With? && c.running[tok.w].phase.Working? {
      WorkingMoves(c, tok.w);
      steps := [step];
    } else if c1.sys.task != c.sys.task {
      steps := [step];
    } else {
      StepIsOnward(c, tok, next);
      var tidy := TidyUp(c1, next);
      var c2 := RunChain(c1, tidy);
      var rest := AliveMovesOn(c2, next);
      RunChainConcat(c1, tidy, rest);
      RunChainConcat(c, [step], tidy + rest);
      steps := [step] + (tidy + rest);
    }
  }

  /** What the holder of the duty does next. */
  function NextOf(c: Chain, tok: Token): ChainStep
    requires Tidy(c, tok) && !tok.NoToken?
  {
    match tok
    case InQueue(id) => Take(0, id)
    case With(w) =>
      match c.running[w].phase
      case Fetched => Begin(w, 0)
      case Working => End(w, Done, 0)
      case _ => Enqueue(w)
  }

  lemma WorkingMoves(c: Chain, w: WorkerId)
    requires Single(c, With(w)) && InPhase(c, w, Working) && NeedsWorker(c.sys.task)
    ensures ChainApply(c, End(w, Done, 0)).sys.task != c.sys.task
  {
    var stage := c.sys.flight[w];
    if AfterDecision(c.sys.task, stage, HandlerDecision(stage, Done), 0) == c.sys.task {
      UnmovedMeansElsewhere(c.sys.task, stage, Done, 0);
    }
  }

  /** A step of the holder that does not move the task hands the duty on. */
  lemma StepIsOnward(c: Chain, tok: Token, next: Token)
    requires Single(c, tok) && Tidy(c, tok) && !Idle(c, tok) && NeedsWorker(c.sys.task)
    requires tok.With? ==> !c.running[tok.w].phase.Working?
    requires next == match tok
                     case InQueue(id) => With(0)
                     case With(w) => (match c.running[w].phase case Returned(Some(s)) => InQueue(s) case _ => tok)
                     case NoToken => tok
    requires ChainApply(c, NextOf(c, tok)).sys.task == c.sys.task
    ensures var c1 := ChainApply(c, NextOf(c, tok));
            && Single(c1, next)
            && (tok.InQueue? ==> InPhase(c1, 0, Fetched))
            && (tok.With? && InPhase(c, tok.w, Fetched) ==> InPhase(c1, tok.w, Working))
  {
    match tok
    case InQueue(id) =>
    case With(w) => if InPhase(c, w, Fetched) { FetchedGoesOn(c, w); } else { ReturnedGoesOn(c, w); }
  }

  lemma MovedIsLonger(t: Task)
    requires NextStatus(t).Some?
    ensures AfterAdvanceOnce(t, 0).status == NextStatus(t).value && AfterAdvanceOnce(t, 0) != t
  {
    assert |AfterAdvanceOnce(t, 0).trail| == |t.trail| + 1;
  }

  lemma FetchedGoesOn(c: Chain, w: WorkerId)
    requires Single(c, With(w)) && InPhase(c, w, Fetched) && NeedsWorker(c.sys.task)
    requires ChainApply(c, Begin(w, 0)).sys.task == c.sys.task
    ensures Single(ChainApply(c, Begin(w, 0)), With(w)) && InPhase(ChainApply(c, Begin(w, 0)), w, Working)
  {
    if !AgentStage(c.sys.task.status) {
      NextStatusIsLegal(c.sys.task);
      MovedIsLonger(c.sys.task);
    }
  }

  lemma ReturnedGoesOn(c: Chain, w: WorkerId)
    requires Single(c, With(w)) && Tidy(c, With(w)) && NeedsWorker(c.sys.task)
    requires w in c.running && c.running[w].phase.Returned? && c.running[w].phase.result.Some?
    ensures Single(ChainApply(c, Enqueue(w)), InQueue(c.running[w].phase.result.value))
  {
    assert !IdTaken(c, c.running[w].phase.result.value);
  }

  /** Of a task with a next step: it is stranded exactly when no live job is left that has not
      decided to stop. */
  lemma {:induction false} StrandedIffNotAlive(c: Chain, tok: Token)
    requires Single(c, tok) && NeedsWorker(c.sys.task)
    ensures Stranded(c) <==> !Alive(c)
  {
    AliveIffNotIdle(c, tok);
    if Idle(c, tok) {
      forall steps | WithoutHumans(steps) ensures RunChain(c, steps).sys.task == c.sys.task {
        IdleStaysIdle(c, tok, steps);
      }
    } else {
      var tidy := TidyUp(c, tok);
      var rest := AliveMovesOn(RunChain(c, tidy), tok);
      RunChainConcat(c, tidy, rest);
      assert WithoutHumans(tidy + rest);
    }
  }

  /** A needed continuation leaves the task stranded exactly when its id is still held by another job
      that has not closed; otherwise it is queued. */
  lemma {:induction false} ContinuationLostIffBlocked(c: Chain, tok: Token, w: WorkerId)
    requires Single(c, tok) && NeedsWorker(c.sys.task) && w in c.running && c.running[w].phase.Returned?
    requires c.running[w].phase.result.Some?
    ensures Stranded(ChainApply(c, Enqueue(w))) <==> Blocked(c, Enqueue(w))
    ensures !Blocked(c, Enqueue(w)) ==> ChainApply(c, Enqueue(w)).queued == {c.running[w].phase.result.value}
  {
    assert tok == With(w);
    var tok' := StepKeeps(c, tok, Enqueue(w));
    var c' := ChainApply(c, Enqueue(w));
    StrandedIffNotAlive(c', tok');
    AliveIffNotIdle(c', tok');
    if !Blocked(c, Enqueue(w)) {
      assert !IdTaken(c, c.running[w].phase.result.value);
      assert LiveQueued(c', c.running[w].phase.result.value);
    }
  }

  /** Over whole runs: a task that has a next step, rejected or not, is stranded exactly when some step
      of the run lost the duty, by blocking a needed continuation or by rejecting it unattended. */
  lemma {:induction false} StrandedIffLost(maxReplans: Option<int>, steps: seq<ChainStep>)
    requires NeedsWorker(RunChain(Bootstrap(maxReplans), steps).sys.task)
    ensures Stranded(RunChain(Bootstrap(maxReplans), steps)) <==> !NeverLost(Bootstrap(maxReplans), steps)
    ensures !NeverLost(Bootstrap(maxReplans), steps) <==>
      exists k :: 0 <= k < |steps| && Loses(RunChain(Bootstrap(maxReplans), steps[..k]), steps[k])
  {
    StartsSingle(maxReplans);
    var tok := RunKeeps(Bootstrap(maxReplans), InQueue(Created), steps);
    var c := RunChain(Bootstrap(maxReplans), steps);
    AliveIffNotIdle(c, tok);
    StrandedIffNotAlive(c, tok);
    LostAtSomeStep(Bootstrap(maxReplans), steps);
  }

  lemma {:induction false} LostAtSomeStep(c: Chain, steps: seq<ChainStep>)
    ensures !NeverLost(c, steps) <==> exists k :: 0 <= k < |steps| && Loses(RunChain(c, steps[..k]), steps[k])
    decreases |steps|
  {
    if steps != [] {
      var c', rest := ChainApply(c, steps[0]), steps[1..];
      LostAtSomeStep(c', rest);
      assert RunChain(c, steps[..0]) == c;
      forall k | 0 <= k < |rest|
        ensures RunChain(c, steps[..k + 1]) == RunChain(c', rest[..k])
      {
        assert steps[..k + 1][1..] == rest[..k];
      }
      if k :| 0 <= k < |rest| && Loses(RunChain(c', rest[..k]), rest[k]) {
        assert Loses(RunChain(c, steps[..k + 1]), steps[k + 1]);
      }
      if k :| 0 <= k < |steps| && Loses(RunChain(c, steps[..k]), steps[k]) {
        if k > 0 { assert Loses(RunChain(c', rest[..k - 1]), rest[k - 1]); }
      }
    }
  }

  /** And it stays so until a user cancels it, which ends it. */
  lemma {:induction false} OnlyACancelEndsIt(c: Chain, tok: Token, steps: seq<ChainStep>)
    requires Lost(c, tok)
    ensures var t := RunChain(c, steps).sys.task; t == c.sys.task || Cancelled(t)
    decreases |steps|
  {
    if steps != [] {
      var c' := ChainApply(c, steps[0]);
      var next := LostStaysLost(c, tok, steps[0]);
      OnlyACancelEndsIt(c', next, steps[1..]);
      if c'.sys.task != c.sys.task { CancelledStays(c', steps[1..]); }
    }
  }

  lemma {:induction false} CancelledStays(c: Chain, steps: seq<ChainStep>)
    requires Cancelled(c.sys.task)
    ensures RunChain(c, steps).sys.task == c.sys.task
  {
    var locked := ChainIsARun(c, steps);
    StoppedForGood(c.sys, locked);
  }

  /** At the moment of a rejection: the rejected task has a next step, and it is stranded there and then
      exactly when the job that saw it waiting had already ended, or had decided to stop. */
  lemma {:induction false} RejectionStrandsIff(c: Chain, tok: Token, note: Option<string>, now: int)
    requires Single(c, tok) && c.sys.task.status.AwaitingApproval?
    ensures var c' := ChainApply(c, UserDecide(false, note, now));
            && NextStatus(c'.sys.task) == Some(Recovering)
            && (Stranded(c') <==> Idle(c, tok))
            && (Stranded(c') <==> RejectsUnattended(c, UserDecide(false, note, now)))
  {
    var c' := ChainApply(c, UserDecide(false, note, now));
    HumanKeeps(c, tok, UserDecide(false, note, now));
    RejectedNeedsWorker(c, note, now);
    AliveIffNotIdle(c, tok);
    AliveIffNotIdle(c', tok);
    StrandedIffNotAlive(c', tok);
  }

  lemma RejectedNeedsWorker(c: Chain, note: Option<string>, now: int)
    requires c.sys.task.status.AwaitingApproval?
    ensures var t := ChainApply(c, UserDecide(false, note, now)).sys.task;
            NeedsWorker(t) && Rejected(t) && NextStatus(t) == Some(Recovering)
  {
  }

  // ----- every gap is reached ----------------------------------------------------------------------------

  /** The task is queued in status s, with nothing live but some closing jobs left over. */
  predicate At(c: Chain, s: Status, left: map<WorkerId, Job>) {
    c.queued == {s} && c.sys.task.status == s && c.sys.flight == map[] && c.running == left
  }

  /** A job with this outcome moves a task from an agent's stage to target. */
  predicate Leads(s: Status, o: Outcome, target: Status)
    requires AgentStage(s)
  {
    HandlerDecision(s, o).Swap? && HandlerDecision(s, o).target == target
  }

  lemma RunThen(c: Chain, steps: seq<ChainStep>, step: ChainStep) returns (more: seq<ChainStep>)
    ensures RunChain(c, more) == ChainApply(RunChain(c, steps), step)
    ensures WithoutHumans(steps) && !step.UserCancel? && !step.UserDecide? ==> WithoutHumans(more)
  {
    RunChainConcat(c, steps, [step]);
    OneChainStep(RunChain(c, steps), step);
    more := steps + [step];
  }

  lemma JobBegins(c: Chain, w: WorkerId, s: Status, left: map<WorkerId, Job>)
    requires At(c, s, left) && w !in left && AgentStage(s)
    ensures ChainApply(ChainApply(c, Take(w, s)), Begin(w, 0)) ==
            Chain(c.sys.(flight := map[w := s]), {}, left[w := Job(s, Working)])
  {
    assert c.queued - {s} == {};
    assert left[w := Job(s, Fetched)][w := Job(s, Working)] == left[w := Job(s, Working)];
  }

  lemma JobEnds(c: Chain, w: WorkerId, s: Status, o: Outcome, target: Status, left: map<WorkerId, Job>)
    requires AgentStage(s) && c.sys.task.status == s && c.sys.flight == map[w := s]
    requires c.running == left[w := Job(s, Working)] && Leads(s, o, target)
    ensures var c' := ChainApply(c, End(w, o, 0));
            && c'.queued == c.queued && c'.sys.task.status == target && c'.sys.flight == map[]
            && c'.running == left[w := Job(s, Returned(Some(target)))]
  {
    assert map[w := s] - {w} == map[];
    assert left[w := Job(s, Working)][w := Job(s, Returned(Some(target)))] == left[w := Job(s, Returned(Some(target)))];
  }

  /** The job of an agent's stage runs up to its enqueue. */
  lemma JobReturns(c: Chain, before: seq<ChainStep>, w: WorkerId, s: Status, o: Outcome, target: Status,
                   left: map<WorkerId, Job>)
    returns (steps: seq<ChainStep>)
    requires At(RunChain(c, before), s, left) && w !in left
    requires AgentStage(s) && Leads(s, o, target)
    ensures WithoutHumans(before) ==> WithoutHumans(steps)
    ensures var c' := RunChain(c, steps);
            && c'.queued == {} && c'.sys.task.status == target && c'.sys.flight == map[]
            && c'.running == left[w := Job(s, Returned(Some(target)))]
  {
    JobBegins(RunChain(c, before), w, s, left);
    steps := RunThen(c, before, Take(w, s));
    steps := RunThen(c, steps, Begin(w, 0));
    JobEnds(RunChain(c, steps), w, s, o, target, left);
    steps := RunThen(c, steps, End(w, o, 0));
  }

  /** The whole job; it closes, or stays behind closing. */
  lemma JobRuns(c: Chain, before: seq<ChainStep>, w: WorkerId, s: Status, o: Outcome, target: Status,
                left: map<WorkerId, Job>, closes: bool)
    returns (steps: seq<ChainStep>)
    requires At(RunChain(c, before), s, left) && w !in left
    requires AgentStage(s) && Leads(s, o, target)
    requires !Terminal(target) && target != s && forall v :: v in left ==> left[v].id != target
    ensures WithoutHumans(before) ==> WithoutHumans(steps)
    ensures At(RunChain(c, steps), target, if closes then left else left[w := Job(s, Closing)])
  {
    steps := JobReturns(c, before, w, s, o, target, left);
    steps := JobLeaves(c, steps, w, s, target, left, closes);
  }

  /** From its return a job enqueues, and closes or stays behind closing. */
  lemma JobLeaves(c: Chain, before: seq<ChainStep>, w: WorkerId, s: Status, target: Status,
                  left: map<WorkerId, Job>, closes: bool)
    returns (steps: seq<ChainStep>)
    requires var c' := RunChain(c, before);
             && c'.queued == {} && c'.sys.task.status == target && c'.sys.flight == map[]
             && c'.running == left[w := Job(s, Returned(Some(target)))]
    requires w !in left && !Terminal(target) && target != s && forall v :: v in left ==> left[v].id != target
    ensures WithoutHumans(before) ==> WithoutHumans(steps)
    ensures At(RunChain(c, steps), target, if closes then left else left[w := Job(s, Closing)])
  {
    JobHandsOver(RunChain(c, before), w, s, target, left);
    steps := RunThen(c, before, Enqueue(w));
    if closes {
      assert left[w := Job(s, Closing)] - {w} == left;
      steps := RunThen(c, steps, Close(w));
    }
  }

  lemma JobHandsOver(c: Chain, w: WorkerId, s: Status, target: Status, left: map<WorkerId, Job>)
    requires c.queued == {} && c.sys.task.status == target && c.sys.flight == map[]
    requires w !in left && c.running == left[w := Job(s, Returned(Some(target)))]
    requires !Terminal(target) && target != s && forall v :: v in left ==> left[v].id != target
    ensures At(ChainApply(c, Enqueue(w)), target, left[w := Job(s, Closing)])
  {
    assert !IdTaken(c, target);
    assert left[w := Job(s, Returned(Some(target)))][w := Job(s, Closing)] == left[w := Job(s, Closing)];
  }

  /** A job of a status without an agent, from queue to close. */
  lemma StubRuns(c: Chain, before: seq<ChainStep>, s: Status, target: Status, left: map<WorkerId, Job>)
    returns (steps: seq<ChainStep>)
    requires At(RunChain(c, before), s, left) && 0 !in left && !AgentStage(s) && !s.AwaitingApproval?
    requires NextStatus(RunChain(c, before).sys.task) == Some(target)
    requires !Terminal(target) && target != s && forall v :: v in left ==> left[v].id != target
    ensures WithoutHumans(before) ==> WithoutHumans(steps)
    ensures At(RunChain(c, steps), target, left)
  {
    StubReturns(RunChain(c, before), s, target, left);
    steps := RunThen(c, before, Take(0, s));
    steps := RunThen(c, steps, Begin(0, 0));
    steps := JobLeaves(c, steps, 0, s, target, left, true);
  }

  lemma StubReturns(c: Chain, s: Status, target: Status, left: map<WorkerId, Job>)
    requires At(c, s, left) && 0 !in left && !AgentStage(s) && !s.AwaitingApproval?
    requires NextStatus(c.sys.task) == Some(target)
    ensures var c' := ChainApply(ChainApply(c, Take(0, s)), Begin(0, 0));
            && c'.queued == {} && c'.sys.task.status == target && c'.sys.flight == map[]
            && c'.running == left[0 := Job(s, Returned(Some(target)))]
  {
    assert c.queued - {s} == {};
    var job := Job(s, Returned(Some(target)));
    assert left[0 := Job(s, Fetched)][0 := job] == left[0 := job];
    MovedIsLonger(c.sys.task);
  }

  /** What may be left over from an earlier job: one job, still closing. */
  predicate Leftover(left: map<WorkerId, Job>) {
    left == map[] || left == map[1 := Job(Testing, Closing)] || left == map[1 := Job(AwaitingApproval, Closing)]
  }

  /** Undisturbed jobs take a new task to research. */
  lemma ToResearch(maxReplans: Option<int>) returns (steps: seq<ChainStep>)
    ensures WithoutHumans(steps) && At(RunChain(Bootstrap(maxReplans), steps), Researching, map[])
  {
    var b := Bootstrap(maxReplans);
    assert NextStatus(b.sys.task) == Some(Planning);
    steps := StubRuns(b, [], Created, Planning, map[]);
    steps := JobRuns(b, steps, 0, Planning, Done, Researching, map[], true);
  }

  /** And a task in research to testing. */
  lemma ToTesting(b: Chain, before: seq<ChainStep>, left: map<WorkerId, Job>) returns (steps: seq<ChainStep>)
    requires At(RunChain(b, before), Researching, left)
    requires left == map[] || left == map[1 := Job(AwaitingApproval, Closing)]
    ensures WithoutHumans(before) ==> WithoutHumans(steps)
    ensures At(RunChain(b, steps), Testing, left)
  {
    steps := JobRuns(b, before, 0, Researching, Done, Implementing, left, true);
    steps := JobRuns(b, steps, 0, Implementing, Done, Testing, left, true);
  }

  /** And one in review to verification. */
  lemma ToVerification(b: Chain, before: seq<ChainStep>, left: map<WorkerId, Job>) returns (steps: seq<ChainStep>)
    requires At(RunChain(b, before), Reviewing, left) && Leftover(left)
    ensures WithoutHumans(before) ==> WithoutHumans(steps)
    ensures At(RunChain(b, steps), Verification, left)
  {
    steps := JobRuns(b, before, 0, Reviewing, Reviewed(Approve), SecurityReview, left, true);
    steps := JobRuns(b, steps, 0, SecurityReview, Scanned(Pass), Verification, left, true);
  }

  /** A whole round from research: the pull request's job has run and not yet enqueued. */
  lemma ToPullRequest(b: Chain, before: seq<ChainStep>, left: map<WorkerId, Job>) returns (steps: seq<ChainStep>)
    requires At(RunChain(b, before), Researching, left)
    requires left == map[] || left == map[1 := Job(AwaitingApproval, Closing)]
    ensures WithoutHumans(before) ==> WithoutHumans(steps)
    ensures var c := RunChain(b, steps);
            && c.queued == {} && c.sys.task.status.AwaitingApproval? && c.sys.flight == map[]
            && c.running == left[0 := Job(PrCreation, Returned(Some(AwaitingApproval)))]
  {
    steps := ToPrCreation(b, before, left);
    steps := JobReturns(b, steps, 0, PrCreation, Done, AwaitingApproval, left);
  }

  lemma ToPrCreation(b: Chain, before: seq<ChainStep>, left: map<WorkerId, Job>) returns (steps: seq<ChainStep>)
    requires At(RunChain(b, before), Researching, left)
    requires left == map[] || left == map[1 := Job(AwaitingApproval, Closing)]
    ensures WithoutHumans(before) ==> WithoutHumans(steps)
    ensures At(RunChain(b, steps), PrCreation, left)
  {
    steps := ToTesting(b, before, left);
    steps := JobRuns(b, steps, 0, Testing, Tested(Passed), Reviewing, left, true);
    steps := ToVerification(b, steps, left);
    steps := JobRuns(b, steps, 0, Verification, Checked(true), PrCreation, left, true);
  }

  /** For every limit some run waits for approval, with the job for that status queued. */
  lemma ToApproval(maxReplans: Option<int>) returns (steps: seq<ChainStep>)
    ensures WithoutHumans(steps) && At(RunChain(Bootstrap(maxReplans), steps), AwaitingApproval, map[])
  {
    var b := Bootstrap(maxReplans);
    steps := ToResearch(maxReplans);
    steps := ToPullRequest(b, steps, map[]);
    steps := JobLeaves(b, steps, 0, PrCreation, AwaitingApproval, map[], true);
  }

  /** For every limit on replans some run blocks a needed continuation: the testing job is slow to close
      and the verification finds the review stale. No human has acted, and the task is stranded. */
  lemma {:induction false} ContinuationCanBeLost(maxReplans: Option<int>) returns (steps: seq<ChainStep>)
    ensures WithoutHumans(steps) && NeverLost(Bootstrap(maxReplans), steps)
    ensures var c := RunChain(Bootstrap(maxReplans), steps);
            Blocked(c, Enqueue(0)) && Stranded(ChainApply(c, Enqueue(0)))
  {
    var b := Bootstrap(maxReplans);
    var left: map<WorkerId, Job> := map[1 := Job(Testing, Closing)];
    steps := SlowTesting(maxReplans);
    steps := ToVerification(b, steps, left);
    steps := JobReturns(b, steps, 0, Verification, Checked(false), Testing, left);
    BlockedHere(maxReplans, steps, Verification, Testing, left);
  }

  lemma SlowTesting(maxReplans: Option<int>) returns (steps: seq<ChainStep>)
    ensures WithoutHumans(steps)
    ensures At(RunChain(Bootstrap(maxReplans), steps), Reviewing, map[1 := Job(Testing, Closing)])
  {
    steps := ToResearch(maxReplans);
    steps := ToTesting(Bootstrap(maxReplans), steps, map[]);
    steps := JobRuns(Bootstrap(maxReplans), steps, 1, Testing, Tested(Passed), Reviewing, map[], false);
  }

  /** A run that ends with worker 0 about to enqueue an id that the leftover job holds. */
  lemma BlockedHere(maxReplans: Option<int>, steps: seq<ChainStep>, s: Status, target: Status,
                    left: map<WorkerId, Job>)
    requires var c := RunChain(Bootstrap(maxReplans), steps);
             NeedsWorker(c.sys.task) && c.running == left[0 := Job(s, Returned(Some(target)))]
    requires 1 in left && left[1].id == target
    ensures NeverLost(Bootstrap(maxReplans), steps)
    ensures var c := RunChain(Bootstrap(maxReplans), steps);
            Blocked(c, Enqueue(0)) && Stranded(ChainApply(c, Enqueue(0)))
  {
    var c := RunChain(Bootstrap(maxReplans), steps);
    assert c.running[1].id == target;
    assert Blocked(c, Enqueue(0));
    StartsSingle(maxReplans);
    var tok := RunKeeps(Bootstrap(maxReplans), InQueue(Created), steps);
    assert LiveRunning(c, 0);
    AliveIffNotIdle(c, tok);
    ContinuationLostIffBlocked(c, tok, 0);
  }

  /** For every limit some run waits for approval with only a job left that has decided to stop. There a
      rejection strands the task, although nothing was lost before. */
  lemma {:induction false} RejectionCanStrand(maxReplans: Option<int>, note: Option<string>, now: int)
    returns (steps: seq<ChainStep>)
    ensures WithoutHumans(steps) && NeverLost(Bootstrap(maxReplans), steps)
    ensures var c := ChainApply(RunChain(Bootstrap(maxReplans), steps), UserDecide(false, note, now));
            NeedsWorker(c.sys.task) && Rejected(c.sys.task) && Stranded(c)
  {
    var b := Bootstrap(maxReplans);
    steps := ToApproval(maxReplans);
    assert RunChain(b, steps).queued - {AwaitingApproval} == {};
    steps := RunThen(b, steps, Take(0, AwaitingApproval));
    steps := RunThen(b, steps, Begin(0, 0));
    var c := RunChain(b, steps);
    WaitingMeansNeverLost(maxReplans, steps);
    assert Holds(c, With(0));
    RejectionStrandsIff(c, With(0), note, now);
    RejectedNeedsWorker(c, note, now);
  }

  /** A waiting task has lost nothing yet. */
  lemma WaitingMeansNeverLost(maxReplans: Option<int>, steps: seq<ChainStep>)
    requires RunChain(Bootstrap(maxReplans), steps).sys.task.status.AwaitingApproval?
    ensures NeverLost(Bootstrap(maxReplans), steps)
  {
    StartsSingle(maxReplans);
    var tok := RunKeeps(Bootstrap(maxReplans), InQueue(Created), steps);
  }

  /** The two gaps together: a task rejected once comes back for approval while the job that took the
      first rejection up is still closing; rejected again, before the last job has enqueued, it is not
      stranded yet, but that job's continuation is then blocked. */
  lemma {:induction false} RejectedTaskCanBeBlocked() returns (steps: seq<ChainStep>)
    ensures NeverLost(Bootstrap(None), steps)
    ensures var c := RunChain(Bootstrap(None), steps);
            Rejected(c.sys.task) && Blocked(c, Enqueue(0)) && Stranded(ChainApply(c, Enqueue(0)))
  {
    var b := Bootstrap(None);
    var left: map<WorkerId, Job> := map[1 := Job(AwaitingApproval, Closing)];
    steps := BackToResearch();
    steps := ToPullRequest(b, steps, left);
    RejectedNeedsWorker(RunChain(b, steps), None, 0);
    steps := RunThen(b, steps, UserDecide(false, None, 0));
    BlockedHere(None, steps, PrCreation, AwaitingApproval, left);
  }

  /** A task without a limit, rejected once, is in research again; the job that took the rejection up is
      still closing. */
  lemma BackToResearch() returns (steps: seq<ChainStep>)
    ensures At(RunChain(Bootstrap(None), steps), Researching, map[1 := Job(AwaitingApproval, Closing)])
  {
    var b := Bootstrap(None);
    var left: map<WorkerId, Job> := map[1 := Job(AwaitingApproval, Closing)];
    steps := ToApproval(None);
    steps := ToRecovery(b, steps);
    RecoveryGoesOn(RunChain(b, steps).sys.task);
    steps := StubRuns(b, steps, Recovering, Replanning, left);
    LimitStays(b, steps);
    RecoveryGoesOn(RunChain(b, steps).sys.task);
    steps := StubRuns(b, steps, Replanning, Researching, left);
  }

  lemma ToRecovery(b: Chain, before: seq<ChainStep>) returns (steps: seq<ChainStep>)
    requires At(RunChain(b, before), AwaitingApproval, map[])
    ensures At(RunChain(b, steps), Recovering, map[1 := Job(AwaitingApproval, Closing)])
  {
    RejectedOnce(RunChain(b, before));
    steps := RunThen(b, before, Take(1, AwaitingApproval));
    steps := RunThen(b, steps, UserDecide(false, None, 0));
    steps := RunThen(b, steps, Begin(1, 0));
    steps := RunThen(b, steps, Enqueue(1));
  }

  lemma RecoveryGoesOn(t: Task)
    ensures t.status.Recovering? ==> NextStatus(t) == Some(Replanning)
    ensures t.status.Replanning? && t.maxReplans.None? ==> NextStatus(t) == Some(Researching)
  {
  }

  /** The waiting task's job is fetched, the task is rejected, and the job recovers it. */
  lemma RejectedOnce(c: Chain)
    requires At(c, AwaitingApproval, map[])
    ensures var c1 := ChainApply(ChainApply(c, Take(1, AwaitingApproval)), UserDecide(false, None, 0));
            var c2 := ChainApply(ChainApply(c1, Begin(1, 0)), Enqueue(1));
            At(c2, Recovering, map[1 := Job(AwaitingApproval, Closing)])
  {
    assert c.queued - {AwaitingApproval} == {};
    var c1 := ChainApply(ChainApply(c, Take(1, AwaitingApproval)), UserDecide(false, None, 0));
    RejectedNeedsWorker(ChainApply(c, Take(1, AwaitingApproval)), None, 0);
    assert c1.queued == {} && c1.running == map[1 := Job(AwaitingApproval, Fetched)];
    TakenUp(c1);
    JobHandsOver(ChainApply(c1, Begin(1, 0)), 1, AwaitingApproval, Recovering, map[]);
  }

  lemma TakenUp(c: Chain)
    requires c.queued == {} && c.running == map[1 := Job(AwaitingApproval, Fetched)] && c.sys.flight == map[]
    requires c.sys.task.status.Failed? && NextStatus(c.sys.task) == Some(Recovering)
    ensures var c' := ChainApply(c, Begin(1, 0));
            && c'.queued == {} && c'.sys.task.status == Recovering && c'.sys.flight == map[]
            && c'.running == map[1 := Job(AwaitingApproval, Returned(Some(Recovering)))]
  {
    MovedIsLonger(c.sys.task);
  }

  lemma LimitStays(c: Chain, steps: seq<ChainStep>)
    ensures RunChain(c, steps).sys.task.maxReplans == c.sys.task.maxReplans
  {
    var locked := ChainIsARun(c, steps);
    RunKeepsLimit(c.sys, locked);
  }

  /** Every run of the queue is a run of the many-worker system. */
  lemma {:induction false} ChainIsARun(c: Chain, steps: seq<ChainStep>) returns (locked: seq<Step>)
    ensures RunChain(c, steps).sys == Run(c.sys, locked)
    decreases |steps|
  {
    if steps == [] {
      locked := [];
    } else {
      var c' := ChainApply(c, steps[0]);
      var rest := ChainIsARun(c', steps[1..]);
      var here := match steps[0]
        case Begin(w, now) => if c'.sys == c.sys then [] else [Dispatch(w, now)]
        case End(w, o, now) => if c'.sys == c.sys then [] else [Finish(w, o, now)]
        case UserCancel(now) => [Step.Cancel(now)]
        case UserDecide(approve, note, now) => [Decide(approve, note, now)]
        case _ => [];
      assert Run(c.sys, here) == c'.sys;
      RunConcat(c.sys, here, rest);
      locked := here + rest;
    }
  }
}
