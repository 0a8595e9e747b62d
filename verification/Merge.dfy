/** The gated squash merge: the stub of GitHub with its two indices, the merge tool with its gates,
    and runs of merge calls among arbitrary other operations. */
module Merge {
  import opened StateMachine
  import opened Wrappers

  datatype Slug = Slug(owner: string, repo: string)
  datatype Branch = Branch(name: string)

  datatype Sha = BaseOf(base: Branch, number: nat) | SquashOf(slug: Slug, number: nat) | OtherSha(text: string)

  datatype PrState = Unstated | Draft | Open | Closed

  datatype PrData = PrData(slug: Slug, branch: Branch, number: nat, state: PrState, mergeable: Option<bool>,
                           baseSha: Option<Sha>, merged: bool)

  datatype BranchKey = BranchKey(slug: Slug, branch: Branch)
  datatype PrKey = PrKey(slug: Slug, number: nat)

  datatype Call = CreateCall(key: BranchKey) | GetCall(pr: PrKey) | MergeCall(pr: PrKey)

  // ----- the stub ------------------------------------------------------------------------------------

  /** What the stub holds: the pull requests by branch and by number, the next number, the test hooks,
      and the calls it was sent. */
  datatype Hub = Hub(prs: map<BranchKey, PrData>, byNumber: map<PrKey, PrData>, next: nat,
                     mergeableHook: map<PrKey, bool>, baseHook: map<PrKey, Sha>, calls: seq<Call>)

  const EMPTY_HUB: Hub := Hub(map[], map[], 1, map[], map[], [])

  function NewPr(slug: Slug, branch: Branch, base: Branch, number: nat): PrData {
    PrData(slug, branch, number, Draft, Some(true), Some(BaseOf(base, number)), false)
  }

  /** A second request for the same branch is answered with the first one's pull request. */
  function CreatePr(h: Hub, slug: Slug, branch: Branch, base: Branch): (Hub, PrData) {
    var key := BranchKey(slug, branch);
    var called := h.(calls := h.calls + [CreateCall(key)]);
    if key in h.prs then (called, h.prs[key])
    else
      var pr := NewPr(slug, branch, base, h.next);
      (called.(prs := h.prs[key := pr], byNumber := h.byNumber[PrKey(slug, h.next) := pr], next := h.next + 1), pr)
  }

  function Hooked(h: Hub, key: PrKey, pr: PrData): PrData {
    var pr1 := if key in h.mergeableHook then pr.(mergeable := Some(h.mergeableHook[key])) else pr;
    if key in h.baseHook then pr1.(baseSha := Some(h.baseHook[key])) else pr1
  }

  function GetPr(h: Hub, key: PrKey): (Hub, Option<PrData>) {
    (h.(calls := h.calls + [GetCall(key)]),
     if key in h.byNumber then Some(Hooked(h, key, h.byNumber[key])) else None)
  }

  /** No gate of its own: merging twice would be recorded twice. */
  function MergePr(h: Hub, key: PrKey): (Hub, Option<Sha>) {
    var called := h.(calls := h.calls + [MergeCall(key)]);
    if key !in h.byNumber then (called, None)
    else
      var pr := h.byNumber[key].(state := Closed, mergeable := None, merged := true);
      var branchKey := BranchKey(key.slug, pr.branch);
      (called.(byNumber := h.byNumber[key := pr],
               prs := if branchKey in h.prs then h.prs[branchKey := pr] else h.prs),
       Some(SquashOf(key.slug, key.number)))
  }

  ghost predicate NumberEntry(h: Hub, k: PrKey)
    requires k in h.byNumber
  {
    var pr := h.byNumber[k];
    && PrKey(pr.slug, pr.number) == k && 1 <= k.number < h.next
    && BranchKey(k.slug, pr.branch) in h.prs && h.prs[BranchKey(k.slug, pr.branch)] == pr
    && pr.baseSha.Some?
    && (if pr.merged then pr.state.Closed? && pr.mergeable.None? else pr.state.Draft? && pr.mergeable == Some(true))
  }

  ghost predicate BranchEntry(h: Hub, b: BranchKey)
    requires b in h.prs
  {
    var pr := h.prs[b];
    && BranchKey(pr.slug, pr.branch) == b
    && PrKey(b.slug, pr.number) in h.byNumber && h.byNumber[PrKey(b.slug, pr.number)] == pr
  }

  /** The two indices hold the same pull requests, each under its own names; a number is given out
      once over all repositories; a pull request is a mergeable draft until it is merged. */
  ghost predicate Agree(h: Hub) {
    && h.next >= 1
    && (forall k :: k in h.byNumber ==> NumberEntry(h, k))
    && (forall b :: b in h.prs ==> BranchEntry(h, b))
    && (forall k, l :: k in h.byNumber && l in h.byNumber && k.number == l.number ==> k == l)
  }

  lemma {:induction false} CreateKeepsAgreement(h: Hub, slug: Slug, branch: Branch, base: Branch)
    requires Agree(h)
    ensures Agree(CreatePr(h, slug, branch, base).0)
  {
    var h1 := CreatePr(h, slug, branch, base).0;
    forall k | k in h1.byNumber ensures NumberEntry(h1, k) {
      if k in h.byNumber { assert NumberEntry(h, k); }
    }
    forall b | b in h1.prs ensures BranchEntry(h1, b) {
      if b in h.prs { assert BranchEntry(h, b); }
    }
    assert forall k :: k in h.byNumber ==> NumberEntry(h, k);
  }

  lemma {:induction false} MergeKeepsAgreement(h: Hub, key: PrKey)
    requires Agree(h)
    ensures Agree(MergePr(h, key).0)
  {
    if key in h.byNumber {
      var h1 := MergePr(h, key).0;
      assert NumberEntry(h, key);
      forall k | k in h1.byNumber ensures NumberEntry(h1, k) {
        assert NumberEntry(h, k);
      }
      forall b | b in h1.prs ensures BranchEntry(h1, b) {
        assert BranchEntry(h, b);
      }
    }
  }

  // ----- the tool ------------------------------------------------------------------------------------

  /** What the tool reads of the task: the status, the decisions in order, and the fork's slug. */
  datatype TaskInfo = TaskInfo(status: Status, approvals: seq<bool>, fork: Option<Slug>)

  predicate Approved(info: TaskInfo) {
    info.approvals != [] && info.approvals[|info.approvals| - 1]
  }

  datatype Reason =
    | AlreadyMerged | NotApproved | WrongStatus | RepoNotAllowed | StalenessCheckFailed
    | NotOpen | NotMergeable | BaseDrifted

  /** What a merge request comes to: a squash commit, a denial, or a raised error. */
  datatype Outcome = Squashed(sha: Sha) | Denied(reason: Reason) | Raised

  /** The recorded pull request, as the tool reads it. */
  datatype Row = Row(repo: Slug, number: nat, baseSha: Option<Sha>, merged: Option<Sha>)

  /** The gates that need no call to GitHub. */
  function LocalGates(row: Row, info: TaskInfo, allowed: set<Slug>): Option<Outcome> {
    if row.merged.Some? then Some(Denied(AlreadyMerged))
    else if !Approved(info) then Some(Denied(NotApproved))
    else if !info.status.Completed? then Some(Denied(WrongStatus))
    else if row.repo !in allowed then Some(Denied(RepoNotAllowed))
    else if info.fork.None? then Some(Raised)
    else None
  }

  /** The gates on the pull request as GitHub reports it now. */
  function FreshGates(row: Row, current: Option<PrData>): Option<Outcome> {
    if current.None? then Some(Denied(StalenessCheckFailed))
    else if current.value.state.Closed? then Some(Denied(NotOpen))
    else if current.value.mergeable == Some(false) then Some(Denied(NotMergeable))
    else if row.baseSha.Some? && current.value.baseSha != row.baseSha then Some(Denied(BaseDrifted))
    else None
  }

  function Execute(h: Hub, row: Option<Row>, info: TaskInfo, allowed: set<Slug>): (Hub, Outcome) {
    if row.None? then (h, Raised)
    else
      var local := LocalGates(row.value, info, allowed);
      if local.Some? then (h, local.value)
      else
        var key := PrKey(info.fork.value, row.value.number);
        var (h1, current) := GetPr(h, key);
        var gate := FreshGates(row.value, current);
        if gate.Some? then (h1, gate.value)
        else
          var (h2, sha) := MergePr(h1, key);
          (h2, if sha.Some? then Squashed(sha.value) else Raised)
  }

  // ----- the stub and the tool as they run -----------------------------------------------------------

  class StubGitHub {
    var prs: map<BranchKey, PrData>
    var byNumber: map<PrKey, PrData>
    var nextNumber: nat
    var overrideMergeable: map<PrKey, bool>
    var overrideBaseSha: map<PrKey, Sha>
    var calls: seq<Call>

    constructor ()
      ensures Contents() == EMPTY_HUB
    {
      prs, byNumber, nextNumber := map[], map[], 1;
      overrideMergeable, overrideBaseSha, calls := map[], map[], [];
    }

    ghost function Contents(): (h: Hub)
      reads this
    {
      Hub(prs, byNumber, nextNumber, overrideMergeable, overrideBaseSha, calls)
    }

    method Create(slug: Slug, head: Branch, base: Branch) returns (pr: PrData)
      modifies this
      ensures (Contents(), pr) == CreatePr(old(Contents()), slug, head, base)
      ensures var known := BranchKey(slug, head) in old(prs);
              && (known ==> pr == old(prs)[BranchKey(slug, head)] && byNumber == old(byNumber))
              && (!known ==> pr == PrData(slug, head, old(nextNumber), Draft, Some(true),
                                          Some(BaseOf(base, old(nextNumber))), false))
    {
      var key := BranchKey(slug, head);
      calls := calls + [CreateCall(key)];
      if key in prs { return prs[key]; }
      var number := nextNumber;
      nextNumber := nextNumber + 1;
      pr := NewPr(slug, head, base, number);
      prs := prs[key := pr];
      byNumber := byNumber[PrKey(slug, number) := pr];
    }

    method Get(key: PrKey) returns (pr: Option<PrData>)
      modifies this`calls
      ensures (Contents(), pr) == GetPr(old(Contents()), key)
    {
      calls := calls + [GetCall(key)];
      if key !in byNumber { return None; }
      var current := byNumber[key];
      if key in overrideMergeable { current := current.(mergeable := Some(overrideMergeable[key])); }
      if key in overrideBaseSha { current := current.(baseSha := Some(overrideBaseSha[key])); }
      return Some(current);
    }

    method Squash(key: PrKey) returns (sha: Option<Sha>)
      modifies this
      ensures (Contents(), sha) == MergePr(old(Contents()), key)
      ensures sha == if key in old(byNumber) then Some(SquashOf(key.slug, key.number)) else None
      ensures key in old(byNumber) ==> key in byNumber && byNumber[key].merged && byNumber[key].state.Closed?
    {
      calls := calls + [MergeCall(key)];
      if key !in byNumber { return None; }
      var updated := byNumber[key].(state := Closed, mergeable := None, merged := true);
      byNumber := byNumber[key := updated];
      var branchKey := BranchKey(key.slug, updated.branch);
      if branchKey in prs { prs := prs[branchKey := updated]; }
      return Some(SquashOf(key.slug, key.number));
    }
  }

  /** A pull request row of the table; only the merge state changes. */
  class PullRequest {
    const repo: Slug
    const number: nat
    const baseSha: Option<Sha>
    var merged: Option<Sha>

    constructor (repo: Slug, number: nat, baseSha: Option<Sha>)
      ensures Value() == Row(repo, number, baseSha, None)
    {
      this.repo, this.number, this.baseSha, merged := repo, number, baseSha, None;
    }

    function Value(): (r: Row)
      reads this
    {
      Row(repo, number, baseSha, merged)
    }
  }

  /** The tool: the gates in order, then the merge, then the row's merge state. */
  method MergePrTool(client: StubGitHub, pr: PullRequest?, info: TaskInfo, allowed: set<Slug>) returns (o: Outcome)
    modifies client, pr
    ensures (client.Contents(), o) ==
            Execute(old(client.Contents()), if pr == null then None else Some(old(pr.Value())), info, allowed)
    ensures pr != null ==> pr.merged == if o.Squashed? then Some(o.sha) else old(pr.merged)
  {
    if pr == null { return Raised; }
    if pr.merged.Some? { return Denied(AlreadyMerged); }
    if !(info.status.Completed? && Approved(info)) {
      return Denied(if !Approved(info) then NotApproved else WrongStatus);
    }
    if pr.repo !in allowed { return Denied(RepoNotAllowed); }
    if info.fork.None? { return Raised; }
    var key := PrKey(info.fork.value, pr.number);
    var current := client.Get(key);
    if current.None? { return Denied(StalenessCheckFailed); }
    if !(current.value.state in {Unstated, Open, Draft}) { return Denied(NotOpen); }
    if current.value.mergeable == Some(false) { return Denied(NotMergeable); }
    if pr.baseSha.Some? && current.value.baseSha != pr.baseSha { return Denied(BaseDrifted); }
    var sha := client.Squash(key);
    if sha.None? { return Raised; }
    pr.merged := sha;
    return Squashed(sha.value);
  }

  // ----- runs ----------------------------------------------------------------------------------------

  type TaskId = nat

  datatype PrRow = PrRow(task: TaskId, row: Row)

  datatype World = World(hub: Hub, tasks: map<TaskId, TaskInfo>, rows: seq<PrRow>)

  /** Merge calls of any task with any allow-list, among pull requests being opened, tasks changing
      status, decisions, forks being set anew, and the hub's own changes. */
  datatype Op =
    | OpenPr(task: TaskId, branch: Branch, base: Branch)
    | MergeTask(task: TaskId, allowed: set<Slug>)
    | Move(task: TaskId, status: Status)
    | Decide(task: TaskId, approve: bool)
    | SetFork(task: TaskId, fork: Option<Slug>)
    | FlipMergeable(pr: PrKey, mergeable: bool)
    | MoveBase(pr: PrKey, sha: Sha)

  /** The task's latest row. */
  function LatestRow(rows: seq<PrRow>, t: TaskId): (i: Option<nat>)
    ensures i.Some? ==> i.value < |rows| && rows[i.value].task == t
    ensures i.None? ==> forall k :: 0 <= k < |rows| ==> rows[k].task != t
    ensures i.Some? ==> forall k :: i.value < k < |rows| ==> rows[k].task != t
  {
    if rows == [] then None
    else if rows[|rows| - 1].task == t then Some(|rows| - 1)
    else LatestRow(rows[..|rows| - 1], t)
  }

  datatype Reply = NotFound | Conflict | Answer(outcome: Outcome)

  /** The endpoint: a task whose latest decision is not an approval is refused before the tool runs. */
  function MergeEndpoint(w: World, t: TaskId, allowed: set<Slug>): (World, Reply) {
    if t !in w.tasks then (w, NotFound)
    else if !Approved(w.tasks[t]) then (w, Conflict)
    else
      match LatestRow(w.rows, t)
      case None => (w, Answer(Raised))
      case Some(i) =>
        var row := w.rows[i].row;
        var (hub, o) := Execute(w.hub, Some(row), w.tasks[t], allowed);
        var rows := if o.Squashed? then w.rows[i := PrRow(t, row.(merged := Some(o.sha)))] else w.rows;
        (World(hub, w.tasks, rows), Answer(o))
  }

  function Apply(w: World, op: Op): World {
    match op
    case OpenPr(t, branch, base) =>
      if t in w.tasks && w.tasks[t].fork.Some? then
        var (hub, pr) := CreatePr(w.hub, w.tasks[t].fork.value, branch, base);
        World(hub, w.tasks, w.rows + [PrRow(t, Row(pr.slug, pr.number, pr.baseSha, None))])
      else w
    case MergeTask(t, allowed) => MergeEndpoint(w, t, allowed).0
    case Move(t, status) =>
      if t in w.tasks then w.(tasks := w.tasks[t := w.tasks[t].(status := status)]) else w
    case Decide(t, approve) =>
      if t in w.tasks then w.(tasks := w.tasks[t := w.tasks[t].(approvals := w.tasks[t].approvals + [approve])]) else w
    case SetFork(t, fork) =>
      if t in w.tasks then w.(tasks := w.tasks[t := w.tasks[t].(fork := fork)]) else w
    case FlipMergeable(key, mergeable) => w.(hub := w.hub.(mergeableHook := w.hub.mergeableHook[key := mergeable]))
    case MoveBase(key, sha) => w.(hub := w.hub.(baseHook := w.hub.baseHook[key := sha]))
  }

  function Run(w: World, ops: seq<Op>): World {
    if ops == [] then w else Apply(Run(w, ops[..|ops| - 1]), ops[|ops| - 1])
  }

  function Start(tasks: map<TaskId, TaskInfo>): World {
    World(EMPTY_HUB, tasks, [])
  }

  // ----- what every run keeps ------------------------------------------------------------------------

  /** A row names a pull request that exists where it was opened, with the base it was opened on. */
  ghost predicate RowSound(w: World, r: PrRow) {
    var key := PrKey(r.row.repo, r.row.number);
    && r.task in w.tasks
    && key in w.hub.byNumber && r.row.baseSha == w.hub.byNumber[key].baseSha
    && (r.row.merged.Some? ==> w.hub.byNumber[key].merged)
  }

  /** The merge calls are the merged pull requests, each once. */
  ghost predicate MergesOnce(h: Hub) {
    && (forall i :: 0 <= i < |h.calls| && h.calls[i].MergeCall? ==>
          h.calls[i].pr in h.byNumber && h.byNumber[h.calls[i].pr].merged)
    && (forall i, j :: 0 <= i < j < |h.calls| && h.calls[i].MergeCall? ==> h.calls[i] != h.calls[j])
    && (forall k :: k in h.byNumber && h.byNumber[k].merged ==> MergeCall(k) in h.calls)
  }

  ghost predicate Sound(w: World) {
    && Agree(w.hub)
    && MergesOnce(w.hub)
    && forall r :: r in w.rows ==> RowSound(w, r)
  }

  /** All known pull requests stay, with their bases; what is merged stays merged. */
  ghost predicate Extends(h: Hub, h1: Hub) {
    forall k :: k in h.byNumber ==>
      && k in h1.byNumber && h1.byNumber[k].baseSha == h.byNumber[k].baseSha
      && (h.byNumber[k].merged ==> h1.byNumber[k].merged)
  }

  ghost predicate SoundHub(h: Hub) {
    Agree(h) && MergesOnce(h)
  }

  lemma NextIsUnused(h: Hub, slug: Slug)
    requires Agree(h)
    ensures PrKey(slug, h.next) !in h.byNumber
  {
    assert forall k :: k in h.byNumber ==> NumberEntry(h, k);
  }

  /** A call that is no merge, with all known pull requests left as they are, adds no merge. */
  lemma NoMergeCalled(h: Hub, h1: Hub, c: Call)
    requires MergesOnce(h) && !c.MergeCall? && h1.calls == h.calls + [c]
    requires forall k :: k in h.byNumber ==> k in h1.byNumber && h1.byNumber[k] == h.byNumber[k]
    requires forall k :: k in h1.byNumber && k !in h.byNumber ==> !h1.byNumber[k].merged
    ensures MergesOnce(h1)
  {
  }

  lemma CreateExtends(h: Hub, slug: Slug, branch: Branch, base: Branch)
    requires SoundHub(h)
    ensures var (h1, pr) := CreatePr(h, slug, branch, base);
            && SoundHub(h1) && Extends(h, h1) && pr.slug == slug
            && PrKey(slug, pr.number) in h1.byNumber && h1.byNumber[PrKey(slug, pr.number)] == pr
  {
    CreateKeepsAgreement(h, slug, branch, base);
    NextIsUnused(h, slug);
    var h1 := CreatePr(h, slug, branch, base).0;
    NoMergeCalled(h, h1, CreateCall(BranchKey(slug, branch)));
    assert BranchEntry(h1, BranchKey(slug, branch));
  }

  lemma LookExtends(h: Hub, key: PrKey)
    requires SoundHub(h)
    ensures var (h1, _) := GetPr(h, key); SoundHub(h1) && Extends(h, h1)
  {
    SameBooks(h, GetPr(h, key).0);
    NoMergeCalled(h, GetPr(h, key).0, GetCall(key));
  }

  lemma SameBooks(h: Hub, h1: Hub)
    requires Agree(h) && h1.prs == h.prs && h1.byNumber == h.byNumber && h1.next == h.next
    ensures Agree(h1)
  {
    forall k | k in h1.byNumber ensures NumberEntry(h1, k) { assert NumberEntry(h, k); }
    forall b | b in h1.prs ensures BranchEntry(h1, b) { assert BranchEntry(h, b); }
  }

  lemma SquashExtends(h: Hub, key: PrKey)
    requires SoundHub(h) && key in h.byNumber && !h.byNumber[key].merged
    ensures var (h1, _) := MergePr(h, key); SoundHub(h1) && Extends(h, h1) && IsMerged(h1, key)
  {
    MergeKeepsAgreement(h, key);
    OneMoreMerge(h, key);
  }

  lemma OneMoreMerge(h: Hub, key: PrKey)
    requires MergesOnce(h) && key in h.byNumber && !h.byNumber[key].merged
    ensures MergesOnce(MergePr(h, key).0)
    ensures Extends(h, MergePr(h, key).0)
  {
    var h1 := MergePr(h, key).0;
    forall k | k in h1.byNumber && h1.byNumber[k].merged ensures MergeCall(k) in h1.calls {
      if k == key { assert h1.calls[|h.calls|] == MergeCall(k); } else { assert MergeCall(k) in h.calls; }
    }
  }

  /** The tool calls merge exactly when it answers with a squash, and then on an open pull request. */
  lemma ToolCases(h: Hub, row: Row, info: TaskInfo, allowed: set<Slug>)
    requires Agree(h)
    ensures var (h1, o) := Execute(h, Some(row), info, allowed);
            if o.Squashed? then
              var key := PrKey(info.fork.value, row.number);
              && info.fork.Some? && key in h.byNumber && !h.byNumber[key].merged
              && h1 == MergePr(GetPr(h, key).0, key).0
            else h1 == h || (info.fork.Some? && h1 == GetPr(h, PrKey(info.fork.value, row.number)).0)
  {
    if LocalGates(row, info, allowed).None? {
      var key := PrKey(info.fork.value, row.number);
      if key in h.byNumber { assert NumberEntry(h, key); }
    }
  }

  lemma {:induction false} ToolExtends(h: Hub, row: Row, info: TaskInfo, allowed: set<Slug>)
    requires SoundHub(h)
    ensures var (h1, o) := Execute(h, Some(row), info, allowed);
            && SoundHub(h1) && Extends(h, h1)
            && (o.Squashed? ==> info.fork.Some? && IsMerged(h1, PrKey(info.fork.value, row.number)))
  {
    ToolCases(h, row, info, allowed);
    if info.fork.Some? {
      var key := PrKey(info.fork.value, row.number);
      LookExtends(h, key);
      if Execute(h, Some(row), info, allowed).1.Squashed? { SquashExtends(GetPr(h, key).0, key); }
    }
  }

  predicate IsMerged(h: Hub, key: PrKey) {
    key in h.byNumber && h.byNumber[key].merged
  }

  lemma RowsStaySound(w: World, v: World)
    requires forall r :: r in w.rows ==> RowSound(w, r)
    requires Extends(w.hub, v.hub)
    requires forall t :: t in w.tasks ==> t in v.tasks
    ensures forall r :: r in w.rows ==> RowSound(v, r)
  {
    forall r | r in w.rows ensures RowSound(v, r) {
      assert RowSound(w, r);
    }
  }

  lemma {:induction false} OpenKeepsSound(w: World, op: Op)
    requires Sound(w) && op.OpenPr?
    ensures Sound(Apply(w, op))
  {
    if op.task in w.tasks && w.tasks[op.task].fork.Some? {
      CreateExtends(w.hub, w.tasks[op.task].fork.value, op.branch, op.base);
      RowsStaySound(w, Apply(w, op));
    }
  }

  lemma {:induction false} MergeTaskKeepsSound(w: World, t: TaskId, allowed: set<Slug>)
    requires Sound(w)
    ensures Sound(MergeEndpoint(w, t, allowed).0)
  {
    if t in w.tasks && Approved(w.tasks[t]) && LatestRow(w.rows, t).Some? {
      var r := w.rows[LatestRow(w.rows, t).value];
      var (v, reply) := MergeEndpoint(w, t, allowed);
      ToolExtends(w.hub, r.row, w.tasks[t], allowed);
      RowsStaySound(w, v);
      assert RowSound(w, r);
      MarkedRow(w, v, r, reply.outcome);
    }
  }

  /** The row that a squash marks names the pull request that was merged. */
  lemma MarkedRow(w: World, v: World, r: PrRow, o: Outcome)
    requires RowSound(w, r) && v.tasks == w.tasks && Extends(w.hub, v.hub)
    requires o.Squashed? ==> IsMerged(v.hub, PrKey(r.row.repo, r.row.number))
    ensures o.Squashed? ==> RowSound(v, PrRow(r.task, r.row.(merged := Some(o.sha))))
  {
  }

  lemma {:induction false} EveryRunIsSound(tasks: map<TaskId, TaskInfo>, ops: seq<Op>)
    ensures Sound(Run(Start(tasks), ops))
    decreases |ops|
  {
    if ops != [] {
      var n := |ops| - 1;
      var w := Run(Start(tasks), ops[..n]);
      EveryRunIsSound(tasks, ops[..n]);
      match ops[n]
      case OpenPr(_, _, _) => OpenKeepsSound(w, ops[n]);
      case MergeTask(t, allowed) => MergeTaskKeepsSound(w, t, allowed);
      case _ => OthersKeepSound(w, ops[n]);
    }
  }

  lemma {:induction false} OthersKeepSound(w: World, op: Op)
    requires Sound(w) && !op.OpenPr? && !op.MergeTask?
    ensures Sound(Apply(w, op))
  {
    var v := Apply(w, op);
    SameBooks(w.hub, v.hub);
    forall r | r in v.rows ensures RowSound(v, r) {
      assert RowSound(w, r);
    }
  }

  // ----- results -------------------------------------------------------------------------------------

  /** Over every run: no pull request is merged twice, and the two indices never disagree. */
  lemma {:induction false} MergedAtMostOnce(tasks: map<TaskId, TaskInfo>, ops: seq<Op>, i: nat, j: nat)
    requires var calls := Run(Start(tasks), ops).hub.calls;
             i < |calls| && j < |calls| && calls[i].MergeCall? && calls[j].MergeCall?
    ensures var calls := Run(Start(tasks), ops).hub.calls;
            calls[i].pr.number == calls[j].pr.number ==> i == j
    ensures Agree(Run(Start(tasks), ops).hub)
  {
    EveryRunIsSound(tasks, ops);
    var h := Run(Start(tasks), ops).hub;
    assert h.calls[i].pr in h.byNumber && h.calls[j].pr in h.byNumber;
  }

  /** When a merge call merges, in terms of the past: the task's latest row names a pull request that
      was never merged, by any row or task; the task is completed on an approval; the repository is
      still the task's fork, and allowed; and GitHub neither reports a conflict nor a base other than
      the recorded one. */
  ghost predicate MayMerge(w: World, t: TaskId, allowed: set<Slug>) {
    && t in w.tasks && w.tasks[t].status.Completed? && Approved(w.tasks[t])
    && LatestRow(w.rows, t).Some?
    && var row := w.rows[LatestRow(w.rows, t).value].row;
       var key := PrKey(row.repo, row.number);
       && w.tasks[t].fork == Some(row.repo) && row.repo in allowed
       && MergeCall(key) !in w.hub.calls
       && (key in w.hub.mergeableHook ==> w.hub.mergeableHook[key])
       && (key in w.hub.baseHook ==> Some(w.hub.baseHook[key]) == row.baseSha)
  }

  lemma {:induction false} MergesIff(w: World, t: TaskId, allowed: set<Slug>)
    requires Sound(w)
    ensures MayMerge(w, t, allowed) <==>
            MergeEndpoint(w, t, allowed).1.Answer? && MergeEndpoint(w, t, allowed).1.outcome.Squashed?
    ensures MayMerge(w, t, allowed) ==>
            var r := w.rows[LatestRow(w.rows, t).value].row;
            var key := PrKey(r.repo, r.number);
            MergeEndpoint(w, t, allowed).0.hub.calls == w.hub.calls + [GetCall(key), MergeCall(key)]
    ensures !MayMerge(w, t, allowed) ==>
            var v := MergeEndpoint(w, t, allowed).0;
            v.rows == w.rows && v.hub.byNumber == w.hub.byNumber && v.hub.prs == w.hub.prs
            && (v.hub.calls == w.hub.calls || exists k :: v.hub.calls == w.hub.calls + [GetCall(k)])
  {
    if t in w.tasks && LatestRow(w.rows, t).Some? {
      var r := w.rows[LatestRow(w.rows, t).value];
      var key := PrKey(r.row.repo, r.row.number);
      assert RowSound(w, r) && NumberEntry(w.hub, key);
      assert MergeCall(key) in w.hub.calls <==> w.hub.byNumber[key].merged;
    }
  }

  /** What a denial means, in terms of the task, the recorded row and the past. */
  ghost predicate Holds(reason: Reason, w: World, t: TaskId, allowed: set<Slug>)
    requires t in w.tasks && LatestRow(w.rows, t).Some?
  {
    var row := w.rows[LatestRow(w.rows, t).value].row;
    var key := PrKey(row.repo, row.number);
    match reason
    case AlreadyMerged => row.merged.Some?
    case NotApproved => false
    case WrongStatus => !w.tasks[t].status.Completed?
    case RepoNotAllowed => row.repo !in allowed
    case StalenessCheckFailed => w.tasks[t].fork != Some(row.repo)
    case NotOpen => MergeCall(key) in w.hub.calls
    case NotMergeable => key in w.hub.mergeableHook && !w.hub.mergeableHook[key]
    case BaseDrifted => key in w.hub.baseHook && Some(w.hub.baseHook[key]) != row.baseSha
  }

  /** The checks that need no call to GitHub come first, in this order; a task without a fork then ends in
      an error. The endpoint has asked for the approval before the tool does. */
  lemma {:induction false} DeniedLocally(w: World, t: TaskId, allowed: set<Slug>)
    requires Sound(w) && t in w.tasks && Approved(w.tasks[t]) && LatestRow(w.rows, t).Some?
    ensures var reply := MergeEndpoint(w, t, allowed).1;
            var merged, status := Holds(AlreadyMerged, w, t, allowed), Holds(WrongStatus, w, t, allowed);
            var repo := Holds(RepoNotAllowed, w, t, allowed);
            && (reply == Answer(Denied(AlreadyMerged)) <==> merged)
            && (reply == Answer(Denied(WrongStatus)) <==> !merged && status)
            && (reply == Answer(Denied(RepoNotAllowed)) <==> !merged && !status && repo)
            && (reply == Answer(Raised) <==> !merged && !status && !repo && w.tasks[t].fork.None?)
            && reply != Answer(Denied(NotApproved))
  {
    var r := w.rows[LatestRow(w.rows, t).value];
    assert RowSound(w, r) && NumberEntry(w.hub, PrKey(r.row.repo, r.row.number));
  }

  /** Then the pull request as GitHub shows it now, in this order; a request that passes is merged. */
  lemma {:induction false} DeniedByGitHub(w: World, t: TaskId, allowed: set<Slug>)
    requires Sound(w) && t in w.tasks && Approved(w.tasks[t]) && LatestRow(w.rows, t).Some?
    requires !Holds(AlreadyMerged, w, t, allowed) && !Holds(WrongStatus, w, t, allowed)
    requires !Holds(RepoNotAllowed, w, t, allowed) && w.tasks[t].fork.Some?
    ensures var reply := MergeEndpoint(w, t, allowed).1;
            var gone, shut := Holds(StalenessCheckFailed, w, t, allowed), Holds(NotOpen, w, t, allowed);
            var conflict, drift := Holds(NotMergeable, w, t, allowed), Holds(BaseDrifted, w, t, allowed);
            && (reply == Answer(Denied(StalenessCheckFailed)) <==> gone)
            && (reply == Answer(Denied(NotOpen)) <==> !gone && shut)
            && (reply == Answer(Denied(NotMergeable)) <==> !gone && !shut && conflict)
            && (reply == Answer(Denied(BaseDrifted)) <==> !gone && !shut && !conflict && drift)
  {
    var r := w.rows[LatestRow(w.rows, t).value];
    WhatGitHubShows(w, r, w.tasks[t].fork.value);
  }

  /** The answer to the tool's look, in terms of the past. */
  lemma WhatGitHubShows(w: World, r: PrRow, fork: Slug)
    requires Sound(w) && r in w.rows
    ensures var key := PrKey(r.row.repo, r.row.number);
            var current := GetPr(w.hub, PrKey(fork, r.row.number)).1;
            && (current.None? <==> fork != r.row.repo)
            && (current.Some? ==>
                  && (current.value.state.Closed? <==> MergeCall(key) in w.hub.calls)
                  && (MergeCall(key) !in w.hub.calls ==>
                        (current.value.mergeable == Some(false) <==>
                           key in w.hub.mergeableHook && !w.hub.mergeableHook[key]))
                  && r.row.baseSha.Some?
                  && (current.value.baseSha != r.row.baseSha <==>
                        key in w.hub.baseHook && Some(w.hub.baseHook[key]) != r.row.baseSha))
  {
    var key := PrKey(r.row.repo, r.row.number);
    assert RowSound(w, r) && NumberEntry(w.hub, key);
    assert MergeCall(key) in w.hub.calls <==> w.hub.byNumber[key].merged;
  }

  /** Every merge in a run's history was earned: at the call that made it, its task was completed on
      an approval, and the pull request was the task's, allowed, and never merged before. */
  lemma {:induction false} EveryMergeIsEarned(tasks: map<TaskId, TaskInfo>, ops: seq<Op>, key: PrKey)
    requires MergeCall(key) in Run(Start(tasks), ops).hub.calls
    ensures exists k :: 0 <= k < |ops| && ops[k].MergeTask?
              && MayMerge(Run(Start(tasks), ops[..k]), ops[k].task, ops[k].allowed)
              && Names(Run(Start(tasks), ops[..k]), ops[k].task, key)
    decreases |ops|
  {
    if ops != [] {
      var n := |ops| - 1;
      var front := ops[..n];
      var w := Run(Start(tasks), front);
      EveryRunIsSound(tasks, front);
      if MergeCall(key) in w.hub.calls {
        EveryMergeIsEarned(tasks, front, key);
        var k :| 0 <= k < |front| && front[k].MergeTask?
          && MayMerge(Run(Start(tasks), front[..k]), front[k].task, front[k].allowed)
          && Names(Run(Start(tasks), front[..k]), front[k].task, key);
        assert front[..k] == ops[..k];
      } else {
        NewMergeIsTheCall(w, ops[n], key);
      }
    }
  }

  predicate Names(w: World, t: TaskId, key: PrKey) {
    var i := LatestRow(w.rows, t);
    i.Some? && PrKey(w.rows[i.value].row.repo, w.rows[i.value].row.number) == key
  }

  lemma NewMergeIsTheCall(w: World, op: Op, key: PrKey)
    requires Sound(w) && MergeCall(key) !in w.hub.calls && MergeCall(key) in Apply(w, op).hub.calls
    ensures op.MergeTask? && MayMerge(w, op.task, op.allowed) && Names(w, op.task, key)
  {
    if op.MergeTask? {
      MergesIff(w, op.task, op.allowed);
    }
  }
}
