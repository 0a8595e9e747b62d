/** The tool pipeline: capability gate, policy gate, execution under an audit row, and the
    persistence of that row over a session that may have to be rolled back. */
module ToolPipeline {
  import opened Wrappers

  type Capability = string
  type RowId = nat

  datatype RowStatus = Allowed | Denied | Executed | FailedCall

  /** An audit row; the text stands for its output, error or denial reason. */
  datatype Row = Row(status: RowStatus, text: string)

  // ----- policy --------------------------------------------------------------------------------------

  /** A rule abstains, allows, or denies with a reason. */
  datatype Vote = Abstain | Allow | Deny(reason: string)

  /** The rules in order: the first denial decides, and an allowing vote decides nothing. */
  method Evaluate(votes: seq<Vote>) returns (denied: Option<string>)
    ensures denied.None? <==> forall k :: 0 <= k < |votes| ==> !votes[k].Deny?
    ensures denied.Some? ==>
      exists k :: 0 <= k < |votes| && votes[k] == Deny(denied.value) && forall j :: 0 <= j < k ==> !votes[j].Deny?
  {
    for k := 0 to |votes|
      invariant forall j :: 0 <= j < k ==> !votes[j].Deny?
    {
      if votes[k].Deny? { return Some(votes[k].reason); }
    }
    return None;
  }

  // ----- the session -----------------------------------------------------------------------------------

  /** A database session over the audit table. Row objects have identity: an object in the session is
      written, or written again, at the next flush. A rollback drops the objects that were never
      committed. After a failed statement the session refuses everything until it is rolled back. */
  class Session {
    var committed: map<RowId, Row>
    var pending: map<RowId, Row>
    var poisoned: bool

    constructor ()
      ensures committed == map[] && pending == map[] && !poisoned
    {
      committed, pending, poisoned := map[], map[], false;
    }

    method Add(id: RowId, row: Row)
      modifies this`pending
      ensures pending == old(pending)[id := row]
    {
      pending := pending[id := row];
    }

    /** Changing a row object reaches the database only while the object is in the session. */
    method Change(id: RowId, row: Row)
      modifies this`pending
      ensures pending == if id in old(pending) || id in committed then old(pending)[id := row] else old(pending)
    {
      if id in pending || id in committed { pending := pending[id := row]; }
    }

    /** Flush and commit. `accepts` is the database's verdict on the pending rows. */
    method FlushCommit(accepts: bool) returns (ok: bool)
      modifies this
      ensures ok <==> !old(poisoned) && (accepts || old(pending) == map[])
      ensures ok ==> committed == old(committed) + old(pending) && pending == map[] && !poisoned
      ensures !ok ==> committed == old(committed) && pending == old(pending) && poisoned
    {
      if poisoned || (!accepts && pending != map[]) {
        poisoned := true;
        return false;
      }
      committed, pending := committed + pending, map[];
      return true;
    }

    method Rollback()
      modifies this
      ensures committed == old(committed) && pending == map[] && !poisoned
    {
      pending, poisoned := map[], false;
    }
  }

  // ----- one invocation ----------------------------------------------------------------------------------

  /** What a tool may do to the shared session while it runs. */
  datatype SessionAction = CommitIt | RollItBack | BreakIt

  /** A tool's run: its session actions in order, and whether it raises in the end. */
  datatype ToolRun = ToolRun(actions: seq<SessionAction>, raises: bool)

  /** Where the audit row is after some actions: still only in the session, committed, or dropped. */
  datatype RowPlace = InSession | InDatabase | Dropped

  datatype Effect = Effect(place: RowPlace, broken: bool)

  function AfterAction(e: Effect, a: SessionAction): Effect {
    match a
    case CommitIt => if e.broken || e.place != InSession then e else e.(place := InDatabase)
    case RollItBack => Effect(if e.place.InSession? then Dropped else e.place, false)
    case BreakIt => e.(broken := true)
  }

  function EffectOf(actions: seq<SessionAction>): Effect {
    if actions == [] then Effect(InSession, false)
    else AfterAction(EffectOf(actions[..|actions| - 1]), actions[|actions| - 1])
  }

  /** The last break is not followed by a rollback. */
  ghost predicate LeavesItBroken(actions: seq<SessionAction>) {
    exists b :: 0 <= b < |actions| && actions[b].BreakIt? && forall k :: b < k < |actions| ==> !actions[k].RollItBack?
  }

  /** No rollback so far, and no commit that came before the session broke. */
  ghost predicate Uncommitted(actions: seq<SessionAction>) {
    && (forall k :: 0 <= k < |actions| ==> !actions[k].RollItBack?)
    && (forall c :: 0 <= c < |actions| && actions[c].CommitIt? ==> exists b :: 0 <= b < c && actions[b].BreakIt?)
  }

  /** The first rollback comes before any commit that succeeds. */
  ghost predicate DropsTheRow(actions: seq<SessionAction>) {
    exists r :: 0 <= r < |actions| && actions[r].RollItBack? && Uncommitted(actions[..r])
  }

  /** In terms of the actions: when the session stays broken, when the row is still waiting in it,
      and when a rollback has dropped the row. */
  lemma {:induction false} EffectInWords(actions: seq<SessionAction>)
    ensures EffectOf(actions).broken <==> LeavesItBroken(actions)
    ensures EffectOf(actions).place.InSession? <==> Uncommitted(actions)
    ensures EffectOf(actions).place.Dropped? <==> DropsTheRow(actions)
  {
    if actions != [] {
      var front, last := actions[..|actions| - 1], actions[|actions| - 1];
      EffectInWords(front);
      assert actions == front + [last];
      BrokenAppend(front, last);
      UncommittedAppend(front, last);
      DropsAppend(front, last);
    }
  }

  lemma BrokenAppend(front: seq<SessionAction>, last: SessionAction)
    ensures LeavesItBroken(front + [last]) <==> last.BreakIt? || (LeavesItBroken(front) && !last.RollItBack?)
  {
    var all := front + [last];
    assert all[|front|] == last && forall k :: 0 <= k < |front| ==> all[k] == front[k];
    if LeavesItBroken(front) && !last.RollItBack? {
      var b :| 0 <= b < |front| && front[b].BreakIt? && forall k :: b < k < |front| ==> !front[k].RollItBack?;
      assert all[b].BreakIt?;
    }
  }

  /** While the row waits, the session is broken exactly when some action has broken it. */
  lemma UncommittedAppend(front: seq<SessionAction>, last: SessionAction)
    ensures Uncommitted(front + [last]) <==>
      Uncommitted(front) && !last.RollItBack? && (last.CommitIt? ==> LeavesItBroken(front))
  {
    var all := front + [last];
    assert all[|front|] == last && forall k :: 0 <= k < |front| ==> all[k] == front[k];
    if Uncommitted(all) {
      forall c | 0 <= c < |front| && front[c].CommitIt? ensures exists b :: 0 <= b < c && front[b].BreakIt? {
        var b :| 0 <= b < c && all[b].BreakIt?;
        assert front[b].BreakIt?;
      }
      assert all[|front|].CommitIt? ==> exists b :: 0 <= b < |front| && all[b].BreakIt?;
    }
    if Uncommitted(front) && !last.RollItBack? && (last.CommitIt? ==> LeavesItBroken(front)) {
      forall c | 0 <= c < |all| && all[c].CommitIt? ensures exists b :: 0 <= b < c && all[b].BreakIt? {
        if c < |front| {
          var b :| 0 <= b < c && front[b].BreakIt?;
          assert all[b].BreakIt?;
        } else {
          var b :| 0 <= b < |front| && front[b].BreakIt?;
          assert all[b].BreakIt?;
        }
      }
    }
  }

  lemma DropsAppend(front: seq<SessionAction>, last: SessionAction)
    ensures DropsTheRow(front + [last]) <==> DropsTheRow(front) || (last.RollItBack? && Uncommitted(front))
  {
    var all := front + [last];
    assert all[|front|] == last && all[..|front|] == front;
    assert forall r :: 0 <= r < |front| ==> all[r] == front[r] && all[..r] == front[..r];
    if DropsTheRow(front) {
      var r :| 0 <= r < |front| && front[r].RollItBack? && Uncommitted(front[..r]);
      assert all[r].RollItBack? && Uncommitted(all[..r]);
    }
  }

  /** The database's verdicts on the first write of the audit row and on the second attempt. */
  datatype Verdicts = Verdicts(first: bool, retry: bool)

  /** What the caller gets. An escaping database error is not a result of the pipeline. */
  datatype Result = Returned(status: RowStatus) | Escaped

  predicate Denies(votes: seq<Vote>) {
    exists k :: 0 <= k < |votes| && votes[k].Deny?
  }

  /** Both gates let the call through. */
  predicate Admitted(required: set<Capability>, held: set<Capability>, votes: seq<Vote>) {
    required <= held && !Denies(votes)
  }

  /** What the tool meets: a session that was left broken is broken from the start. */
  function Seen(broken: bool, actions: seq<SessionAction>): seq<SessionAction> {
    if broken then [BreakIt] + actions else actions
  }

  function EffectIn(broken: bool, run: ToolRun): Effect {
    EffectOf(Seen(broken, run.actions))
  }

  /** The conditions under which exactly one audit row reaches the database with its final status. */
  predicate Audited(broken: bool, ran: bool, run: ToolRun, v: Verdicts) {
    var e := EffectIn(broken, run);
    if !ran then !broken && v.first else !e.broken && !e.place.Dropped? && (v.first || v.retry)
  }

  /** The tool's own status, before anything goes wrong with its row. */
  function OwnStatus(run: ToolRun): RowStatus {
    if run.raises then FailedCall else Executed
  }

  /** The status of an audited call. */
  function FinalStatus(ran: bool, run: ToolRun, v: Verdicts): RowStatus {
    if !ran then Denied else if v.first then OwnStatus(run) else FailedCall
  }

  /** What the caller is given: a status, or a database error that escapes. */
  function Answer(broken: bool, ran: bool, run: ToolRun, v: Verdicts): Result {
    var e := EffectIn(broken, run);
    if Audited(broken, ran, run, v) then Returned(FinalStatus(ran, run, v))
    else if ran && !e.broken && e.place.Dropped? then Returned(OwnStatus(run))
    else Escaped
  }

  /** On a session that is broken at entry no call is audited, whatever the tool does: without a
      rollback the session stays broken, and the first rollback drops the row. */
  lemma {:induction false} BrokenEntry(actions: seq<SessionAction>)
    ensures var e := EffectOf(Seen(true, actions)); if e.place.InSession? then e.broken else e.place.Dropped?
    ensures EffectOf(Seen(true, actions)).place.Dropped? <==>
      exists k :: 0 <= k < |actions| && actions[k].RollItBack?
  {
    var all := Seen(true, actions);
    if actions == [] {
      assert all[..0] == [];
    } else {
      var front := actions[..|actions| - 1];
      assert all[..|all| - 1] == Seen(true, front);
      BrokenEntry(front);
    }
  }

  /** Exactly when a call has its row, in terms of the actions: the session is usable at entry, the tool
      neither leaves it broken nor drops the row, and the database takes one of the two writes. */
  lemma {:induction false} AuditedInWords(broken: bool, run: ToolRun, v: Verdicts)
    ensures Audited(broken, true, run, v) <==>
      !broken && !LeavesItBroken(run.actions) && !DropsTheRow(run.actions) && (v.first || v.retry)
  {
    if broken { BrokenEntry(run.actions); } else { EffectInWords(run.actions); }
  }

  /** Exactly when the caller is given a status although no row was written: the tool rolled its row
      away, on a session broken at entry by any rollback, and left the session usable. */
  lemma {:induction false} StatusWithoutRow(broken: bool, run: ToolRun, v: Verdicts)
    ensures !Audited(broken, true, run, v) && Answer(broken, true, run, v).Returned? <==>
      !LeavesItBroken(Seen(broken, run.actions)) && DropsTheRow(Seen(broken, run.actions))
  {
    EffectInWords(Seen(broken, run.actions));
  }

  class Pipeline {
    const db: Session

    constructor (db: Session)
      ensures this.db == db
    {
      this.db := db;
    }

    /** Between calls nothing waits in a usable session; a broken one may hold rows that failed. */
    ghost predicate Settled()
      reads this, db
    {
      db.pending != map[] ==> db.poisoned
    }

    /** A resolved and validated call, with `id` the identity of its new audit row, on a session that an
        earlier call may have left broken. The tool runs if and only if both gates pass. One row with
        the returned status is added if and only if the call is audited; otherwise no row is added,
        except that one already committed by the tool stays behind at ALLOWED. The session is broken
        afterwards exactly when the error escapes. */
    method Invoke(id: RowId, required: set<Capability>, held: set<Capability>, votes: seq<Vote>,
                  run: ToolRun, v: Verdicts)
      returns (r: Result, ran: bool)
      requires Settled() && id !in db.committed && id !in db.pending
      modifies db
      ensures ran <==> Admitted(required, held, votes)
      ensures ran <==> (forall c :: c in required ==> c in held) && (forall k :: 0 <= k < |votes| ==> !votes[k].Deny?)
      ensures r.Returned? ==> StatusFits(r.status, ran, run.raises, v)
      ensures id in db.committed && db.committed[id].status != Allowed ==>
        r == Returned(db.committed[id].status) && (r.status.Executed? ==> v.first)
      ensures r == Answer(old(db.poisoned), ran, run, v)
      ensures Recorded(id, old(db.committed), db.committed, old(db.poisoned), ran, run, v)
      ensures Settled() && (db.poisoned <==> r.Escaped?) && db.pending.Keys <= old(db.pending.Keys) + {id}
    {
      if !(required <= held) {
        r := RecordDenied(id, "missing required capability", v.first);
        return r, false;
      }
      var denied := Evaluate(votes);
      if denied.Some? {
        r := RecordDenied(id, denied.value, v.first);
        return r, false;
      }
      ghost var broken := db.poisoned;
      db.Add(id, Row(Allowed, ""));
      RunActions(id, run.actions);
      if broken { BrokenEntry(run.actions); }
      var row := Row(if run.raises then FailedCall else Executed, "");
      db.Change(id, row);
      r := PersistAudit(id, row, v);
      return r, true;
    }

    /** The tool's own use of the session. */
    method RunActions(id: RowId, actions: seq<SessionAction>)
      requires id !in db.committed && id in db.pending && db.pending[id] == Row(Allowed, "")
      requires !db.poisoned ==> db.pending == map[id := Row(Allowed, "")]
      modifies db
      ensures Placed(id, old(db.committed), old(db.pending), db.committed, db.pending,
                     EffectOf(Seen(old(db.poisoned), actions)))
      ensures db.poisoned <==> EffectOf(Seen(old(db.poisoned), actions)).broken
    {
      ghost var before, waiting, broken := db.committed, db.pending, db.poisoned;
      if broken { BrokenEntry([]); }
      for i := 0 to |actions|
        invariant Placed(id, before, waiting, db.committed, db.pending, EffectOf(Seen(broken, actions[..i])))
        invariant db.poisoned <==> EffectOf(Seen(broken, actions[..i])).broken
      {
        ghost var more := Seen(broken, actions[..i + 1]);
        assert more[..|more| - 1] == Seen(broken, actions[..i]) && more[|more| - 1] == actions[i];
        if broken { BrokenEntry(actions[..i]); }
        match actions[i] {
          case CommitIt => if !db.poisoned { var ok := db.FlushCommit(true); assert ok; }
          case RollItBack => db.Rollback();
          case BreakIt => db.poisoned := true;
        }
      }
      assert actions[..|actions|] == actions;
    }

    /** Write the row; on a database reject roll back first, mark the row failed and write it again.
        A broken session raises an error of another class, which is not caught here. */
    method PersistAudit(id: RowId, row: Row, v: Verdicts) returns (r: Result)
      requires db.poisoned || db.pending == map[] || db.pending == map[id := row]
      modifies db
      ensures old(db.poisoned) ==> r == Escaped && db.committed == old(db.committed) && db.pending == old(db.pending)
      ensures !old(db.poisoned) && old(db.pending) == map[] ==>
        r == Returned(row.status) && db.committed == old(db.committed)
      ensures !old(db.poisoned) && old(db.pending) != map[] ==> Written(id, row, v, old(db.committed), db.committed, r)
      ensures db.poisoned <==> r.Escaped?
      ensures Settled() && (!old(db.poisoned) ==> db.pending.Keys <= {id})
    {
      if db.poisoned { return Escaped; }
      if db.pending != map[] { assert id in db.pending; }
      var ok := db.FlushCommit(v.first);
      if ok { return Returned(row.status); }
      db.Rollback();
      db.Add(id, Row(FailedCall, "failed to persist tool audit row"));
      assert id in db.pending;
      ok := db.FlushCommit(v.retry);
      return if ok then Returned(FailedCall) else Escaped;
    }

    /** The single row of a denied call; the tool is never reached. */
    method RecordDenied(id: RowId, reason: string, accepts: bool) returns (r: Result)
      requires Settled() && id !in db.committed && id !in db.pending
      modifies db
      ensures r == if accepts && !old(db.poisoned) then Returned(Denied) else Escaped
      ensures db.committed == if r.Returned? then old(db.committed)[id := Row(Denied, reason)] else old(db.committed)
      ensures Settled() && (db.poisoned <==> r.Escaped?) && db.pending.Keys <= old(db.pending.Keys) + {id}
    {
      db.Add(id, Row(Denied, reason));
      assert id in db.pending;
      var ok := db.FlushCommit(accepts);
      return if ok then Returned(Denied) else Escaped;
    }
  }

  /** What a status says of its call: denied calls never ran; an executed one ran without raising; a failed
      one ran, and raised or had its first write refused. */
  predicate StatusFits(s: RowStatus, ran: bool, raised: bool, v: Verdicts) {
    match s
    case Denied => !ran
    case Executed => ran && !raised
    case FailedCall => ran && (raised || !v.first)
    case Allowed => false
  }

  /** The table and the session agree with the row's place. */
  ghost predicate Placed(id: RowId, before: map<RowId, Row>, waiting: map<RowId, Row>,
                         committed: map<RowId, Row>, pending: map<RowId, Row>, e: Effect)
  {
    match e.place
    case InSession => committed == before && pending == waiting
    case InDatabase => committed == before[id := Row(Allowed, "")] && pending == map[]
    case Dropped => committed == before && pending == map[]
  }

  /** A row that was in the session is written once, with the returned status, unless both attempts fail. */
  ghost predicate Written(id: RowId, row: Row, v: Verdicts, before: map<RowId, Row>,
                          committed: map<RowId, Row>, r: Result)
  {
    && (v.first ==> committed == before[id := row] && r == Returned(row.status))
    && (!v.first && v.retry ==>
          (r == Returned(FailedCall) && id in committed && committed[id].status == FailedCall
           && committed == before[id := committed[id]]))
    && (!v.first && !v.retry ==> r == Escaped && committed == before)
  }

  /** The table after a call: its row at the final status if the call is audited; else nothing new, or
      the row that the tool itself committed before things went wrong. */
  ghost predicate Recorded(id: RowId, before: map<RowId, Row>, after: map<RowId, Row>,
                           broken: bool, ran: bool, run: ToolRun, v: Verdicts)
  {
    var e := EffectIn(broken, run);
    if Audited(broken, ran, run, v) then
      id in after && after == before[id := after[id]] && after[id].status == FinalStatus(ran, run, v)
    else if ran && e.place.InDatabase? then after == before[id := Row(Allowed, "")]
    else after == before
  }

  /** A tool that rolls back once and does nothing else, on a new session: the caller gets EXECUTED. */
  method ARollbackLosesTheRow(id: RowId, votes: seq<Vote>, v: Verdicts) returns (r: Result, rows: map<RowId, Row>)
    requires !Denies(votes)
    ensures r == Returned(Executed) && rows == map[]
  {
    var db := new Session();
    var pipeline := new Pipeline(db);
    var run := ToolRun([RollItBack], false);
    assert Seen(false, run.actions)[..0] == [] && Uncommitted([]);
    assert run.actions[..0] == [] && run.actions[0].RollItBack?;
    EffectInWords(run.actions);
    assert !LeavesItBroken(run.actions);
    var ran;
    r, ran := pipeline.Invoke(id, {}, {}, votes, run, v);
    rows := db.committed;
  }

  /** A harmless tool called after one that broke the session, with nobody rolling back in between: it
      runs, the database would take its row, and neither call has one. */
  method ABrokenSessionLosesTheNextRow(votes: seq<Vote>) returns (r: Result, ran: bool, rows: map<RowId, Row>)
    requires !Denies(votes)
    ensures r == Escaped && ran && rows == map[]
  {
    var db := new Session();
    var pipeline := new Pipeline(db);
    var breaks, harmless := ToolRun([BreakIt], true), ToolRun([], false);
    assert breaks.actions[0].BreakIt?;
    AuditedInWords(false, breaks, Verdicts(true, true));
    EffectInWords(breaks.actions);
    var first, _ := pipeline.Invoke(0, {}, {}, votes, breaks, Verdicts(true, true));
    BrokenEntry(harmless.actions);
    r, ran := pipeline.Invoke(1, {}, {}, votes, harmless, Verdicts(true, true));
    rows := db.committed;
  }

  // ----- many invocations ----------------------------------------------------------------------------------

  /** A call, and whether its caller rolls the session back when an error escapes. */
  datatype Invocation = Invocation(required: set<Capability>, held: set<Capability>, votes: seq<Vote>,
                                   run: ToolRun, verdicts: Verdicts, callerRollsBack: bool)

  predicate Admits(i: Invocation) {
    Admitted(i.required, i.held, i.votes)
  }

  function AnswerTo(broken: bool, c: Invocation): Result {
    Answer(broken, Admits(c), c.run, c.verdicts)
  }

  predicate HasRow(broken: bool, c: Invocation) {
    Audited(broken, Admits(c), c.run, c.verdicts)
  }

  /** Some error has escaped, and no caller has rolled the session back since: the session is broken
      after these calls. */
  predicate BrokenAfter(calls: seq<Invocation>) {
    calls != [] &&
    var front, last := calls[..|calls| - 1], calls[|calls| - 1];
    AnswerTo(BrokenAfter(front), last).Escaped? && !last.callerRollsBack
  }

  /** The table after the calls so far: call k has its row, at the status its caller was given, exactly
      when the session was usable at its entry and the call is audited; there are no other rows, but
      for those that a tool committed itself before its call failed, which stay at ALLOWED. */
  ghost predicate RowsOf(table: map<RowId, Row>, calls: seq<Invocation>, results: seq<Result>) {
    && |results| <= |calls|
    && (forall k :: k in table ==> k < |results|)
    && (forall k :: 0 <= k < |results| ==> CallAccounted(table, calls, results, k))
  }

  ghost predicate CallAccounted(table: map<RowId, Row>, calls: seq<Invocation>, results: seq<Result>, k: nat)
    requires k < |results| <= |calls|
  {
    var broken := BrokenAfter(calls[..k]);
    && results[k] == AnswerTo(broken, calls[k])
    && (k in table && results[k] == Returned(table[k].status) <==> HasRow(broken, calls[k]))
    && (k in table && !HasRow(broken, calls[k]) ==> table[k].status == Allowed && results[k].Escaped?)
    && (results[k].Returned? ==>
          StatusFits(results[k].status, Admits(calls[k]), calls[k].run.raises, calls[k].verdicts))
    && (k in table && table[k].status.Executed? ==>
          Admits(calls[k]) && !calls[k].run.raises && calls[k].verdicts.first)
  }

  /** Any sequence of calls over one session, whatever their tools, verdicts and callers do. */
  method InvokeAll(pipeline: Pipeline, calls: seq<Invocation>) returns (results: seq<Result>)
    requires pipeline.db.committed == map[] && pipeline.db.pending == map[] && !pipeline.db.poisoned
    modifies pipeline.db
    ensures |results| == |calls| && RowsOf(pipeline.db.committed, calls, results)
    ensures pipeline.db.poisoned <==> BrokenAfter(calls)
  {
    results := [];
    var db := pipeline.db;
    for i := 0 to |calls|
      invariant |results| == i && pipeline.Settled() && (forall k :: k in db.pending ==> k < i)
      invariant db.poisoned <==> BrokenAfter(calls[..i])
      invariant RowsOf(db.committed, calls, results)
    {
      var c := calls[i];
      ghost var before, given := db.committed, results;
      var r, ran := pipeline.Invoke(i, c.required, c.held, c.votes, c.run, c.verdicts);
      if r.Escaped? && c.callerRollsBack { db.Rollback(); }
      results := results + [r];
      assert calls[..i + 1][..i] == calls[..i];
      OneMoreCall(before, db.committed, calls, given, r);
    }
    assert calls[..|calls|] == calls;
  }

  lemma OneMoreCall(before: map<RowId, Row>, after: map<RowId, Row>, calls: seq<Invocation>,
                    results: seq<Result>, r: Result)
    requires |results| < |calls| && RowsOf(before, calls, results)
    requires var i := |results|;
             var c, broken := calls[i], BrokenAfter(calls[..i]);
             && r == AnswerTo(broken, c)
             && Recorded(i, before, after, broken, Admits(c), c.run, c.verdicts)
    ensures RowsOf(after, calls, results + [r])
  {
    var i, more := |results|, results + [r];
    var c, broken := calls[i], BrokenAfter(calls[..i]);
    forall k | 0 <= k < |more| ensures CallAccounted(after, calls, more, k) {
      if k < i {
        assert CallAccounted(before, calls, results, k);
      } else {
        NewCallAccounted(before, after, calls, results, r);
      }
    }
  }

  lemma NewCallAccounted(before: map<RowId, Row>, after: map<RowId, Row>, calls: seq<Invocation>,
                         results: seq<Result>, r: Result)
    requires |results| < |calls| && |results| !in before
    requires var i := |results|;
             var c, broken := calls[i], BrokenAfter(calls[..i]);
             && r == AnswerTo(broken, c)
             && Recorded(i, before, after, broken, Admits(c), c.run, c.verdicts)
    ensures CallAccounted(after, calls, results + [r], |results|)
  {
  }
}
