/** The table of legal task transitions. */
module StateMachine {

  datatype Status =
    | Created | Planning | Researching | Implementing | Testing | Debugging
    | Reviewing | SecurityReview | Verification | PrCreation | AwaitingApproval
    | Completed | Failed | Recovering | Replanning | Escalated

  predicate Terminal(s: Status) {
    s.Completed? || s.Escalated?
  }

  /** The successors of each status before failure and escalation are added. */
  function PipelineTargets(s: Status): set<Status> {
    match s
    case Created => {Planning}
    case Planning => {Researching}
    case Researching => {Implementing}
    case Implementing => {Testing}
    case Testing => {Debugging, Reviewing}
    case Debugging => {Implementing, Reviewing}
    case Reviewing => {SecurityReview, Implementing}
    case SecurityReview => {Verification, Implementing}
    case Verification => {PrCreation, Testing}
    case PrCreation => {AwaitingApproval}
    case AwaitingApproval => {Completed}
    case Completed => {}
    case Failed => {Recovering}
    case Recovering => {Replanning}
    case Replanning => {Researching, Implementing}
    case Escalated => {}
  }

  /** What the table means: a pipeline step, or failing or escalating from any status that
      is not terminal, except failing from failure itself. */
  predicate CanTransition(s: Status, t: Status) {
    t in PipelineTargets(s) || (!Terminal(s) && (t.Failed? || t.Escalated?) && s != t)
  }

  /** Builds the table by updating the target set of every status that is not terminal. */
  method AllTransitions() returns (table: map<Status, set<Status>>)
    ensures forall s :: s in table
    ensures forall s, t :: t in table[s] <==> CanTransition(s, t)
  {
    var failureTargets := {Failed, Escalated};
    table := map s: Status | true :: PipelineTargets(s);
    var todo := table.Keys;
    while todo != {}
      invariant forall s :: s in table
      invariant forall s, t :: s in todo ==> (t in table[s] <==> t in PipelineTargets(s))
      invariant forall s, t :: s !in todo ==> (t in table[s] <==> CanTransition(s, t))
      decreases todo
    {
      var s :| s in todo;
      if !Terminal(s) { table := table[s := table[s] + (failureTargets - {s})]; }
      todo := todo - {s};
    }
  }

  /** Every documented way through the table is there: along the pipeline, round its loops, and back in
      after a failure. */
  lemma DocumentedWays(s: Status)
    ensures CanTransition(Created, Planning) && CanTransition(Planning, Researching)
    ensures CanTransition(Researching, Implementing) && CanTransition(Implementing, Testing)
    ensures CanTransition(Testing, Reviewing) && CanTransition(Reviewing, SecurityReview)
    ensures CanTransition(SecurityReview, Verification) && CanTransition(Verification, PrCreation)
    ensures CanTransition(PrCreation, AwaitingApproval) && CanTransition(AwaitingApproval, Completed)
    ensures CanTransition(Testing, Debugging) && CanTransition(Debugging, Implementing)
    ensures CanTransition(Debugging, Reviewing) && CanTransition(Verification, Testing)
    ensures CanTransition(Reviewing, Implementing) && CanTransition(SecurityReview, Implementing)
    ensures CanTransition(Failed, Recovering) && CanTransition(Recovering, Replanning)
    ensures CanTransition(Replanning, Researching) && CanTransition(Replanning, Implementing)
    ensures !Terminal(s) ==> CanTransition(s, Escalated) && (s != Failed ==> CanTransition(s, Failed))
  {
  }

  /** No status leads to itself; nothing leaves a terminal status; only a human decision
      leads to completion; and the reviewed path to a pull request has no side entrance. */
  lemma TableShape(s: Status, t: Status)
    requires CanTransition(s, t)
    ensures s != t && !Terminal(s)
    ensures t.Completed? ==> s.AwaitingApproval?
    ensures t.AwaitingApproval? ==> s.PrCreation?
    ensures t.PrCreation? ==> s.Verification?
    ensures t.Verification? ==> s.SecurityReview?
    ensures t.SecurityReview? ==> s.Reviewing?
    ensures t.Reviewing? ==> s.Testing? || s.Debugging?
  {
  }
}
