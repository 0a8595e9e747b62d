/** The developer agent's tool loop: two budgets, a single commit, and a summary grounded in
    what was written. Paths are compared in normalised form. */
module DeveloperLoop {
  import opened Wrappers

  type Path = string
  type Sha = string

  datatype Tool = WriteFile(path: Path) | GitCommit | OtherTool(name: string)

  datatype CallStatus = Executed | FailedInTool | Denied

  /** What the pipeline does with a call, should it be asked. */
  datatype PipelineReply =
    | UnknownTool
    | InvalidInput
    | Raised
    | Result(status: CallStatus, sha: Option<Sha>)

  /** One round of the conversation: an unparsable reply, a provider failure, the final signal,
      or a tool call with the pipeline's reaction to it. */
  datatype Proposal =
    | Unparsable
    | ProviderFailed
    | Final
    | Call(tool: Tool, reply: PipelineReply)

  datatype Observation = Observation(tool: Tool, status: CallStatus, sha: Option<Sha>)

  datatype Note = NoteExecuted | NoteRejected | NoteFinal

  /** Executed calls and rejections are counted apart, each under its own cap. */
  class ToolBudget {
    const maxCalls: int
    const maxRejections: int
    var executed: nat
    var rejections: nat

    constructor (maxCalls: int, maxRejections: int)
      ensures this.maxCalls == maxCalls && this.maxRejections == maxRejections
      ensures executed == 0 && rejections == 0
    {
      this.maxCalls, this.maxRejections, executed, rejections := maxCalls, maxRejections, 0, 0;
    }

    method Note(outcome: Note)
      modifies this
      ensures executed == old(executed) + if outcome.NoteExecuted? then 1 else 0
      ensures rejections == old(rejections) + if outcome.NoteRejected? then 1 else 0
    {
      if outcome.NoteExecuted? {
        executed := executed + 1;
      } else if outcome.NoteRejected? {
        rejections := rejections + 1;
      }
    }

    predicate ShouldContinue()
      reads this
    {
      executed < maxCalls && rejections < maxRejections
    }
  }

  // ----- what the observations show --------------------------------------------------------------

  predicate IsCommit(o: Observation) {
    o.status.Executed? && o.tool.GitCommit?
  }

  predicate IsWrite(o: Observation) {
    o.status.Executed? && o.tool.WriteFile?
  }

  /** At most one executed commit, and no executed write after it. */
  ghost predicate CommitsOnce(obs: seq<Observation>) {
    forall i, j :: 0 <= i < j < |obs| && IsCommit(obs[i]) ==> !IsCommit(obs[j]) && !IsWrite(obs[j])
  }

  /** The sha reported by the run's commit. */
  ghost predicate CommittedAs(obs: seq<Observation>, sha: Option<Sha>) {
    exists k :: 0 <= k < |obs| && IsCommit(obs[k]) && obs[k].sha == sha
  }

  ghost predicate HasCommit(obs: seq<Observation>) {
    exists k :: 0 <= k < |obs| && IsCommit(obs[k])
  }

  /** The one-commit contract: nothing may be written or committed after the commit. */
  predicate Guarded(tool: Tool, committed: bool) {
    committed && (tool.WriteFile? || tool.GitCommit?)
  }

  /** The tool itself ran, whether it succeeded or raised. */
  predicate ReachedTheTool(reply: PipelineReply) {
    reply.Result? && !reply.status.Denied?
  }

  /** What a call leaves in the record: the pipeline's own answer, unless the contract forbids it. */
  function Observed(tool: Tool, reply: PipelineReply, committed: bool): Observation {
    if Guarded(tool, committed) then Observation(tool, Denied, None)
    else if reply.Result? then Observation(tool, reply.status, reply.sha)
    else Observation(tool, FailedInTool, None)
  }

  /** One call: after the commit, writes and commits are denied without asking the pipeline. */
  method ExecuteTool(tool: Tool, reply: PipelineReply, committed: bool) returns (obs: Observation, note: Note)
    ensures obs.tool == tool && (note.NoteExecuted? || note.NoteRejected?)
    ensures obs == Observed(tool, reply, committed)
    ensures committed && (tool.WriteFile? || tool.GitCommit?) ==> obs.status.Denied? && note.NoteRejected?
    ensures !(committed && (tool.WriteFile? || tool.GitCommit?)) ==>
      if reply.Result? then obs.status == reply.status && obs.sha == reply.sha else obs.status.FailedInTool?
    ensures note.NoteExecuted? <==>
      !(committed && (tool.WriteFile? || tool.GitCommit?)) && reply.Result? && !reply.status.Denied?
  {
    if Guarded(tool, committed) {
      return Observation(tool, Denied, None), NoteRejected;
    }
    match reply {
      case UnknownTool | InvalidInput | Raised => return Observation(tool, FailedInTool, None), NoteRejected;
      case Result(status, sha) =>
        return Observation(tool, status, sha), if status.Denied? then NoteRejected else NoteExecuted;
    }
  }

  /** A tool call of the loop: one more entry in the record, one budget charged. */
  method TakeCall(budget: ToolBudget, tool: Tool, reply: PipelineReply,
                  obs: seq<Observation>, committed: bool, sha: Option<Sha>)
    returns (obs': seq<Observation>, committed': bool, sha': Option<Sha>)
    requires committed ==> CommittedAs(obs, sha)
    modifies budget
    ensures var o := Observed(tool, reply, committed);
            && obs' == obs + [o] && (committed' <==> committed || IsCommit(o))
            && (committed' ==> CommittedAs(obs', sha'))
    ensures var ran := !Guarded(tool, committed) && ReachedTheTool(reply);
            && budget.executed == old(budget.executed) + (if ran then 1 else 0)
            && budget.rejections == old(budget.rejections) + (if ran then 0 else 1)
  {
    var o, note := ExecuteTool(tool, reply, committed);
    budget.Note(note);
    ShaStays(obs, o, sha);
    obs', committed', sha' := obs + [o], committed, sha;
    if IsCommit(o) {
      committed', sha' := true, o.sha;
    }
  }

  /** How the loop ends. `OutOfReplies` means that the model has not answered yet. */
  datatype LoopEnd = AnsweredFinal | BudgetExhausted | ProviderRaised | OutOfReplies

  /** The loop, for any stream of replies. `used` counts the replies taken. */
  method ToolLoop(proposals: seq<Proposal>, maxCalls: int, maxRejections: int)
    returns (end: LoopEnd, obs: seq<Observation>, committed: bool, sha: Option<Sha>, used: nat)
    ensures used <= |proposals|
    ensures obs == Observations(proposals[..used])
    ensures CommitsOnce(obs) && (committed <==> HasCommit(obs))
    ensures committed ==> CommittedAs(obs, sha)
    ensures |obs| <= AttemptBound(maxCalls, maxRejections)
    ensures committed ==> exists k :: IsTheCommit(proposals[..used], k) && proposals[k].reply.sha == sha
    ensures end.AnsweredFinal? <==> used > 0 && proposals[used - 1].Final?
    ensures end.ProviderRaised? <==> used > 0 && proposals[used - 1].ProviderFailed?
    ensures end.OutOfReplies? ==> used == |proposals|
    ensures end.BudgetExhausted? <==>
      Executions(proposals[..used]) >= maxCalls || Rejections(proposals[..used]) >= maxRejections
    ensures committed <==> CommitSeen(proposals[..used])
  {
    var budget := new ToolBudget(maxCalls, maxRejections);
    end, obs, committed, sha, used := OutOfReplies, [], false, None, 0;
    while budget.ShouldContinue()
      invariant fresh(budget) && budget.maxCalls == maxCalls && budget.maxRejections == maxRejections
      invariant used <= |proposals| && end.OutOfReplies?
      invariant used > 0 ==> !proposals[used - 1].Final? && !proposals[used - 1].ProviderFailed?
      invariant obs == Observations(proposals[..used])
      invariant committed ==> CommittedAs(obs, sha)
      invariant budget.executed == Executions(proposals[..used]) && budget.rejections == Rejections(proposals[..used])
      invariant budget.executed + budget.rejections == |obs| && (committed <==> CommitSeen(proposals[..used]))
      invariant |obs| <= AttemptBound(maxCalls, maxRejections)
      decreases |proposals| - used
    {
      if used == |proposals| { Recorded(proposals, used, sha); return; }
      var proposal := proposals[used];
      used := used + 1;
      assert proposals[..used] == proposals[..used - 1] + [proposal];
      CountsAppend(proposals[..used - 1], proposal);
      match proposal {
        case Unparsable =>
        case ProviderFailed => Recorded(proposals, used, sha); end := ProviderRaised; return;
        case Final => budget.Note(NoteFinal); Recorded(proposals, used, sha); end := AnsweredFinal; return;
        case Call(tool, reply) =>
          obs, committed, sha := TakeCall(budget, tool, reply, obs, committed, sha);
      }
    }
    Recorded(proposals, used, sha);
    end := BudgetExhausted;
  }

  lemma ShaStays(obs: seq<Observation>, o: Observation, sha: Option<Sha>)
    ensures IsCommit(o) ==> CommittedAs(obs + [o], o.sha)
    ensures CommittedAs(obs, sha) ==> CommittedAs(obs + [o], sha)
  {
    var more := obs + [o];
    assert more[|obs|] == o;
    if CommittedAs(obs, sha) {
      var k :| 0 <= k < |obs| && IsCommit(obs[k]) && obs[k].sha == sha;
      assert IsCommit(more[k]) && more[k].sha == sha;
    }
  }

  /** For any replies: the record has one entry for each call, a commit exactly when one was
      executed, and the guard leaves it with a single commit and no later write. */
  lemma {:induction false} RecordIsSound(proposals: seq<Proposal>)
    ensures var obs := Observations(proposals);
            CommitsOnce(obs) && (HasCommit(obs) <==> CommitSeen(proposals)) && |obs| == CallCount(proposals)
  {
    if proposals != [] {
      var front, p := proposals[..|proposals| - 1], proposals[|proposals| - 1];
      assert proposals == front + [p];
      RecordIsSound(front);
      CountsAppend(front, p);
      if p.Call? {
        OneMoreObservation(Observations(front), Observed(p.tool, p.reply, CommitSeen(front)));
      } else {
        assert Observations(proposals) == Observations(front);
      }
    }
  }

  lemma OneMoreObservation(obs: seq<Observation>, o: Observation)
    requires CommitsOnce(obs) && (HasCommit(obs) ==> !IsCommit(o) && !IsWrite(o))
    ensures CommitsOnce(obs + [o])
    ensures HasCommit(obs + [o]) <==> HasCommit(obs) || IsCommit(o)
  {
    var more := obs + [o];
    assert more[|obs|] == o;
    assert forall k :: 0 <= k < |obs| ==> more[k] == obs[k];
  }

  /** Tool attempts that fit under the caps: none at all unless both allow one. */
  function AttemptBound(maxCalls: int, maxRejections: int): nat {
    if maxCalls <= 0 || maxRejections <= 0 then 0 else maxCalls + maxRejections - 1
  }

  /** The tool calls among the first replies; unparsable replies cost nothing. */
  function CallCount(proposals: seq<Proposal>): nat {
    if proposals == [] then 0
    else CallCount(proposals[..|proposals| - 1]) + if proposals[|proposals| - 1].Call? then 1 else 0
  }

  /** The record that the first replies leave, call by call. */
  ghost function Observations(proposals: seq<Proposal>): seq<Observation> {
    if proposals == [] then []
    else
      var front, p := proposals[..|proposals| - 1], proposals[|proposals| - 1];
      Observations(front) + if p.Call? then [Observed(p.tool, p.reply, CommitSeen(front))] else []
  }

  /** Some call among the first replies is an executed commit. */
  ghost predicate CommitSeen(proposals: seq<Proposal>) {
    exists k :: 0 <= k < |proposals| && CommitCall(proposals[k])
  }

  predicate CommitCall(p: Proposal) {
    p.Call? && p.tool.GitCommit? && p.reply.Result? && p.reply.status.Executed?
  }

  /** Reply k is the first executed commit. */
  ghost predicate IsTheCommit(proposals: seq<Proposal>, k: int) {
    0 <= k < |proposals| && CommitCall(proposals[k]) && forall j :: 0 <= j < k ==> !CommitCall(proposals[j])
  }

  /** Reply k is an executed write of this path, with no commit before it. */
  ghost predicate WritesPath(proposals: seq<Proposal>, k: int, path: Path) {
    && 0 <= k < |proposals| && proposals[k].Call? && proposals[k].tool == WriteFile(path)
    && proposals[k].reply.Result? && proposals[k].reply.status.Executed?
    && forall j :: 0 <= j < k ==> !CommitCall(proposals[j])
  }

  /** The calls that reach their tool, given that the contract guards what follows a commit. */
  ghost function Executions(proposals: seq<Proposal>): nat {
    if proposals == [] then 0
    else
      var front, p := proposals[..|proposals| - 1], proposals[|proposals| - 1];
      Executions(front) + if p.Call? && !Guarded(p.tool, CommitSeen(front)) && ReachedTheTool(p.reply) then 1 else 0
  }

  /** The other calls: denied, refused, unknown or raising. */
  ghost function Rejections(proposals: seq<Proposal>): int {
    CallCount(proposals) - Executions(proposals)
  }

  lemma CountsAppend(proposals: seq<Proposal>, p: Proposal)
    ensures CallCount(proposals + [p]) == CallCount(proposals) + if p.Call? then 1 else 0
    ensures CommitSeen(proposals + [p]) <==> CommitSeen(proposals) || CommitCall(p)
    ensures Observations(proposals + [p]) ==
      Observations(proposals) + if p.Call? then [Observed(p.tool, p.reply, CommitSeen(proposals))] else []
    ensures Executions(proposals + [p]) == Executions(proposals)
      + if p.Call? && !Guarded(p.tool, CommitSeen(proposals)) && ReachedTheTool(p.reply) then 1 else 0
  {
    assert (proposals + [p])[..|proposals|] == proposals;
    assert (proposals + [p])[|proposals|] == p;
    if CommitSeen(proposals) {
      var k :| 0 <= k < |proposals| && CommitCall(proposals[k]);
      assert (proposals + [p])[k] == proposals[k];
    }
  }

  /** The record in terms of the replies: its commit is the first executed commit, under the sha that the
      pipeline reported, and its writes are the executed writes before that commit. */
  lemma {:induction false} RecordInWords(proposals: seq<Proposal>, sha: Option<Sha>, path: Path)
    ensures CommittedAs(Observations(proposals), sha) <==>
      exists k :: IsTheCommit(proposals, k) && proposals[k].reply.sha == sha
    ensures path in Written(Observations(proposals)) <==> path != "" && exists k :: WritesPath(proposals, k, path)
  {
    if proposals != [] {
      var front, p := proposals[..|proposals| - 1], proposals[|proposals| - 1];
      assert proposals == front + [p];
      RecordInWords(front, sha, path);
      RecordIsSound(front);
      CountsAppend(front, p);
      CommitAppend(front, p, sha);
      WriteAppend(front, p, path);
      if p.Call? {
        var o := Observed(p.tool, p.reply, CommitSeen(front));
        ShaAppend(Observations(front), o, sha);
        WrittenAppend(Observations(front), o);
      } else {
        assert Observations(proposals) == Observations(front);
      }
    }
  }

  lemma ShaAppend(obs: seq<Observation>, o: Observation, sha: Option<Sha>)
    ensures CommittedAs(obs + [o], sha) <==> CommittedAs(obs, sha) || (IsCommit(o) && o.sha == sha)
  {
    ShaStays(obs, o, sha);
    var more := obs + [o];
    assert more[|obs|] == o && forall k :: 0 <= k < |obs| ==> more[k] == obs[k];
  }

  lemma CommitAppend(front: seq<Proposal>, p: Proposal, sha: Option<Sha>)
    ensures (exists k :: IsTheCommit(front + [p], k) && (front + [p])[k].reply.sha == sha) <==>
      (exists k :: IsTheCommit(front, k) && front[k].reply.sha == sha)
      || (CommitCall(p) && !CommitSeen(front) && p.reply.sha == sha)
  {
    var all := front + [p];
    assert all[|front|] == p && forall k :: 0 <= k < |front| ==> all[k] == front[k];
    if k :| IsTheCommit(front, k) && front[k].reply.sha == sha {
      assert IsTheCommit(all, k) && all[k].reply.sha == sha;
    }
    if CommitCall(p) && !CommitSeen(front) && p.reply.sha == sha {
      assert IsTheCommit(all, |front|) && all[|front|].reply.sha == sha;
    }
    if k :| IsTheCommit(all, k) && all[k].reply.sha == sha {
      if k < |front| { assert IsTheCommit(front, k) && front[k].reply.sha == sha; }
    }
  }

  lemma WriteAppend(front: seq<Proposal>, p: Proposal, path: Path)
    ensures (exists k :: WritesPath(front + [p], k, path)) <==>
      (exists k :: WritesPath(front, k, path))
      || (!CommitSeen(front) && p.Call? && p.tool == WriteFile(path) && p.reply.Result? && p.reply.status.Executed?)
  {
    var all := front + [p];
    assert all[|front|] == p && forall k :: 0 <= k < |front| ==> all[k] == front[k];
    if k :| WritesPath(front, k, path) { assert WritesPath(all, k, path); }
    if !CommitSeen(front) && p.Call? && p.tool == WriteFile(path) && p.reply.Result? && p.reply.status.Executed? {
      assert WritesPath(all, |front|, path);
    }
    if k :| WritesPath(all, k, path) {
      if k < |front| { assert WritesPath(front, k, path); }
    }
  }

  /** What the loop may say of its record when it ends. */
  lemma Recorded(proposals: seq<Proposal>, used: nat, sha: Option<Sha>)
    requires used <= |proposals|
    ensures var taken := proposals[..used]; var obs := Observations(taken);
            && CommitsOnce(obs) && (HasCommit(obs) <==> CommitSeen(taken)) && |obs| == CallCount(taken)
            && (CommittedAs(obs, sha) ==> exists k :: IsTheCommit(taken, k) && proposals[k].reply.sha == sha)
  {
    RecordIsSound(proposals[..used]);
    RecordInWords(proposals[..used], sha, "");
  }

  // ----- the summary ---------------------------------------------------------------------------------

  datatype Draft = UnparsableDraft | DraftFailed | Drafted(filesChanged: set<Path>, explained: bool)

  /** What a run returns or raises. A summary records the problems it was accepted with. */
  datatype RunResult =
    | Summary(sha: Sha, filesChanged: set<Path>, mismatch: set<Path>, unexplained: set<Path>)
    | NoCommit
    | RunRaised
    | StillRunning

  /** The paths of executed writes, by the loop over the observations. */
  method WrittenPaths(obs: seq<Observation>) returns (written: set<Path>)
    ensures written == Written(obs)
  {
    written := {};
    for i := 0 to |obs|
      invariant written == Written(obs[..i])
    {
      assert obs[..i + 1] == obs[..i] + [obs[i]];
      WrittenAppend(obs[..i], obs[i]);
      if IsWrite(obs[i]) && obs[i].tool.path != "" { written := written + {obs[i].tool.path}; }
    }
    assert obs[..|obs|] == obs;
  }

  function Written(obs: seq<Observation>): set<Path> {
    set o | o in obs && IsWrite(o) && o.tool.path != "" :: o.tool.path
  }

  lemma WrittenAppend(obs: seq<Observation>, o: Observation)
    ensures Written(obs + [o]) == Written(obs) + if IsWrite(o) && o.tool.path != "" then {o.tool.path} else {}
  {
    forall p ensures p in Written(obs + [o]) <==>
        p in Written(obs) || (IsWrite(o) && o.tool.path != "" && p == o.tool.path)
    {
      assert (obs + [o])[|obs|] == o;
      if p in Written(obs) {
        var q :| q in obs && IsWrite(q) && q.tool.path != "" && q.tool.path == p;
        assert q in obs + [o];
      }
    }
  }

  /** Claimed but never written, or written but not claimed. */
  function Mismatch(claimed: set<Path>, written: set<Path>): set<Path> {
    (claimed - written) + (written - claimed)
  }

  /** The artifact's own check on the sha: 7 to 64 characters. */
  predicate AcceptableSha(sha: Option<Sha>) {
    sha.Some? && 7 <= |sha.value| <= 64
  }

  /** The summary repeats the draft, and records exactly what is wrong with it. */
  ghost predicate FromDraft(r: RunResult, d: Draft, obs: seq<Observation>, researched: set<Path>)
    requires r.Summary?
  {
    && d.Drafted? && r.filesChanged == d.filesChanged
    && r.mismatch == Mismatch(d.filesChanged, Written(obs))
    && r.unexplained == if d.explained then {} else Written(obs) - researched
  }

  /** The draft claims exactly what was written and explains what research did not flag. */
  predicate Grounded(d: Draft, written: set<Path>, researched: set<Path>) {
    d.Drafted? && Mismatch(d.filesChanged, written) == {} && (d.explained || written <= researched)
  }

  /** The problems of a draft are the paths that only one side names. */
  lemma MismatchIsOneSided(claimed: set<Path>, written: set<Path>, path: Path)
    ensures path in Mismatch(claimed, written) <==> ((path in claimed) != (path in written))
    ensures Mismatch(claimed, written) == {} <==> claimed == written
  {
    if claimed != written {
      var p :| (p in claimed) != (p in written);
      assert p in Mismatch(claimed, written);
    }
  }

  /** Some draft is accepted: nothing failed before it was reached, and one parsed. */
  predicate SomeDraftStands(drafts: seq<Draft>, written: set<Path>, researched: set<Path>)
    requires |drafts| == 2
  {
    && !drafts[0].DraftFailed?
    && ((drafts[0].Drafted? && drafts[0].filesChanged == written && (drafts[0].explained || written <= researched))
        || (!drafts[1].DraftFailed? && (drafts[0].Drafted? || drafts[1].Drafted?)))
  }

  /** Two attempts at a grounded summary; then the last parsed draft is accepted, with its problems
      recorded. Two unparsable drafts leave nothing to accept, which fails the run. A summary without
      recorded problems names exactly what was written, and one with problems is accepted only after
      two attempts, neither of them grounded. */
  method Synthesize(obs: seq<Observation>, sha: Option<Sha>, researched: set<Path>, drafts: seq<Draft>)
    returns (r: RunResult)
    requires |drafts| == 2
    ensures r.Summary? <==> AcceptableSha(sha) && SomeDraftStands(drafts, Written(obs), researched)
    ensures r.Summary? ==> r.sha == sha.value && 7 <= |r.sha| <= 64
    ensures !r.Summary? && SomeDraftStands(drafts, Written(obs), researched) ==>
      sha.None? || |sha.value| < 7 || |sha.value| > 64
    ensures r.Summary? ==> FromDraft(r, drafts[0], obs, researched) || FromDraft(r, drafts[1], obs, researched)
    ensures r.Summary? && drafts[1].Drafted? && r.mismatch + r.unexplained != {} ==>
      FromDraft(r, drafts[1], obs, researched)
    ensures r.Summary? ==> forall p :: p in r.mismatch <==> ((p in r.filesChanged) != (p in Written(obs)))
    ensures r.Summary? && r.mismatch + r.unexplained != {} ==>
      forall d :: d in drafts && d.Drafted? ==>
        d.filesChanged != Written(obs) || !(d.explained || Written(obs) <= researched)
    ensures r.Summary? ==>
      exists d :: (d in drafts && d.Drafted? && d.filesChanged == r.filesChanged
                   && forall p :: p in r.unexplained <==> !d.explained && p in Written(obs) && p !in researched)
    ensures !r.Summary? ==> r.RunRaised?
  {
    var written := WrittenPaths(obs);
    var deviations := written - researched;
    var last := UnparsableDraft;
    for k := 0 to 2
      invariant last == if k == 0 then UnparsableDraft
                        else if k == 2 && drafts[1].Drafted? then drafts[1]
                        else if drafts[0].Drafted? then drafts[0] else UnparsableDraft
      invariant forall j :: 0 <= j < k ==> !drafts[j].DraftFailed? && !Grounded(drafts[j], written, researched)
    {
      match drafts[k] {
        case UnparsableDraft =>
        case DraftFailed => return RunRaised;
        case Drafted(files, explained) =>
          last := drafts[k];
          MismatchIsOneSided(files, written, "");
          if Mismatch(files, written) == {} && (explained || deviations == {}) {
            if !AcceptableSha(sha) { return RunRaised; }
            return Summary(sha.value, files, {}, {});
          }
      }
    }
    if !last.Drafted? || !AcceptableSha(sha) { return RunRaised; }
    return Summary(sha.value, last.filesChanged, Mismatch(last.filesChanged, written),
                   if last.explained then {} else deviations);
  }

  predicate Ended(end: LoopEnd) {
    end.AnsweredFinal? || end.BudgetExhausted?
  }

  /** A whole run, in terms of the replies it took. A summary names the sha that the pipeline reported for
      the first executed commit; that commit came after every executed write, so it holds the full
      change. With a commit there is a summary exactly when sha and drafts allow it, and without one
      there is none. */
  method RunDeveloper(proposals: seq<Proposal>, maxCalls: int, maxRejections: int,
                      researched: set<Path>, drafts: seq<Draft>)
    returns (r: RunResult, obs: seq<Observation>, end: LoopEnd, used: nat)
    requires |drafts| == 2
    ensures used <= |proposals| && obs == Observations(proposals[..used])
    ensures CommitsOnce(obs)
    ensures if maxCalls >= 1 && maxRejections >= 1 then |obs| <= maxCalls + maxRejections - 1 else obs == []
    ensures r.Summary? ==> WritesPrecedeCommit(obs)
    ensures r.Summary? ==> exists k :: IsTheCommit(proposals[..used], k) && proposals[k].reply.sha == Some(r.sha)
    ensures r.Summary? ==> r.mismatch == Mismatch(r.filesChanged, Written(obs))
    ensures r.Summary? ==>
      exists d :: (d in drafts && d.Drafted? && d.filesChanged == r.filesChanged
                   && forall p :: p in r.unexplained <==> !d.explained && p in Written(obs) && p !in researched)
    ensures r.StillRunning? <==> end.OutOfReplies?
    ensures end.ProviderRaised? ==> r.RunRaised?
    ensures r.NoCommit? <==> Ended(end) && !CommitSeen(proposals[..used])
    ensures forall k :: Ended(end) && IsTheCommit(proposals[..used], k) ==>
      (r.Summary? <==> AcceptableSha(proposals[k].reply.sha) && SomeDraftStands(drafts, Written(obs), researched))
  {
    var committed, sha;
    end, obs, committed, sha, used := ToolLoop(proposals, maxCalls, maxRejections);
    match end {
      case OutOfReplies => return StillRunning, obs, end, used;
      case ProviderRaised => return RunRaised, obs, end, used;
      case AnsweredFinal | BudgetExhausted =>
        if !committed {
          assert !CommitSeen(proposals[..used]);
          return NoCommit, obs, end, used;
        }
        ghost var k :| IsTheCommit(proposals[..used], k) && proposals[k].reply.sha == sha;
        assert forall j :: IsTheCommit(proposals[..used], j) ==> j == k;
        r := Synthesize(obs, sha, researched, drafts);
    }
  }

  /** Some commit has every executed write before it. */
  ghost predicate WritesPrecedeCommit(obs: seq<Observation>) {
    exists c :: 0 <= c < |obs| && IsCommit(obs[c]) && forall k :: 0 <= k < |obs| && IsWrite(obs[k]) ==> k < c
  }
}
