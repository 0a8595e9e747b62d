/** The planning agent: at most one correction retry, and the projection of an accepted
    dependency graph onto rows that can point at a single parent each. */
module PlanRows {
  import opened Wrappers
  import opened Graphs
  import opened PlanDag

  /** A persisted plan step. Rows are identified by their position in the table; `parent`
      is the single foreign key, `dependsOn` the full list kept beside it. */
  datatype StepRow = StepRow(stepType: StepType, sequence: nat, stepId: Id, dependsOn: seq<Id>, parent: Option<nat>)

  /** Rows of a plan, with the parent link of each row at its first dependency. */
  ghost predicate Projects(rows: seq<StepRow>, steps: seq<PlanStep>) {
    && |rows| == |steps|
    && (forall i :: 0 <= i < |rows| ==> Copies(rows[i], steps[i], i) && LinkOf(steps, steps[i], rows[i].parent))
  }

  ghost predicate Copies(row: StepRow, step: PlanStep, i: nat) {
    row.stepType == step.stepType && row.sequence == i && row.stepId == step.id && row.dependsOn == step.dependsOn
  }

  /** The link is absent when there is no first dependency or it names no step. */
  ghost predicate LinkOf(steps: seq<PlanStep>, step: PlanStep, link: Option<nat>) {
    match link
    case None => step.dependsOn == [] || forall j :: 0 <= j < |steps| ==> steps[j].id != step.dependsOn[0]
    case Some(j) => step.dependsOn != [] && j < |steps| && steps[j].id == step.dependsOn[0]
  }

  ghost predicate Inserted(rows: seq<StepRow>, rowOf: map<Id, nat>, steps: seq<PlanStep>, n: nat)
    requires n <= |steps|
  {
    && |rows| == n
    && (forall j :: 0 <= j < n ==> Copies(rows[j], steps[j], j) && rows[j].parent.None?)
    && (forall j :: 0 <= j < n ==> steps[j].id in rowOf && rowOf[steps[j].id] == j)
    && (forall x :: x in rowOf ==> rowOf[x] < n && steps[rowOf[x]].id == x)
  }

  /** First pass: one row per step, and the dictionary from ids to rows. */
  method InsertRows(steps: seq<PlanStep>) returns (rows: seq<StepRow>, rowOf: map<Id, nat>)
    requires UniqueIds(steps)
    ensures Inserted(rows, rowOf, steps, |steps|)
  {
    rows, rowOf := [], map[];
    for i := 0 to |steps|
      invariant Inserted(rows, rowOf, steps, i)
    {
      rows := rows + [StepRow(steps[i].stepType, i, steps[i].id, steps[i].dependsOn, None)];
      rowOf := rowOf[steps[i].id := i];
    }
  }

  /** Both passes: insert every row, then set the foreign keys through the id dictionary. */
  method PersistSteps(steps: seq<PlanStep>) returns (rows: seq<StepRow>)
    requires UniqueIds(steps)
    ensures Projects(rows, steps)
  {
    var rowOf: map<Id, nat>;
    rows, rowOf := InsertRows(steps);
    for i := 0 to |steps|
      invariant |rows| == |steps|
      invariant forall j :: 0 <= j < |steps| ==> Copies(rows[j], steps[j], j)
      invariant forall j :: 0 <= j < i ==> LinkOf(steps, steps[j], rows[j].parent)
      invariant forall j :: i <= j < |steps| ==> rows[j].parent.None?
    {
      if steps[i].dependsOn != [] && steps[i].dependsOn[0] in rowOf {
        var self := rowOf[steps[i].id];
        rows := rows[self := rows[self].(parent := Some(rowOf[steps[i].dependsOn[0]]))];
      }
    }
  }

  /** The row reached from row i by following `hops` parent links, if they all exist. */
  function Ancestor(rows: seq<StepRow>, i: nat, hops: nat): Option<nat>
    decreases hops
  {
    if i >= |rows| then None
    else if hops == 0 then Some(i)
    else if rows[i].parent.None? then None
    else Ancestor(rows, rows[i].parent.value, hops - 1)
  }

  /** Each parent link is an edge of the validated graph. */
  lemma LinksAreEdges(rows: seq<StepRow>, steps: seq<PlanStep>, i: nat)
    requires UniqueIds(steps) && Projects(rows, steps) && i < |rows| && rows[i].parent.Some?
    ensures rows[i].parent.value < |rows|
    ensures steps[i].id in Edges(steps)
    ensures rows[rows[i].parent.value].stepId in Edges(steps)[rows[i].stepId]
  {
    DictionariesHoldEveryStep(steps);
    assert LinkOf(steps, steps[i], rows[i].parent);
    assert Copies(rows[rows[i].parent.value], steps[rows[i].parent.value], rows[i].parent.value);
  }

  lemma {:induction false} ChainIsWalk(rows: seq<StepRow>, steps: seq<PlanStep>, i: nat, hops: nat) returns (p: seq<Id>)
    requires UniqueIds(steps) && Projects(rows, steps) && Ancestor(rows, i, hops).Some?
    ensures Walk(Edges(steps), {}, p) && |p| == hops + 1 && p[0] == rows[i].stepId
    decreases hops
  {
    DictionariesHoldEveryStep(steps);
    assert Copies(rows[i], steps[i], i);
    assert Ids(steps)[i] == steps[i].id;
    p := [rows[i].stepId];
    if hops > 0 {
      LinksAreEdges(rows, steps, i);
      var rest := ChainIsWalk(rows, steps, rows[i].parent.value, hops - 1);
      p := p + rest;
    }
  }

  /** From every row of an accepted plan, following the single parent link reaches a row
      without a parent in fewer hops than there are steps. */
  lemma EveryRowReachesARoot(rows: seq<StepRow>, steps: seq<PlanStep>, i: nat)
    requires LegalPlan(steps) && Projects(rows, steps) && i < |rows|
    ensures exists hops: nat :: hops < |rows| && EndsAtRoot(rows, i, hops)
  {
    var hops: nat := 0;
    while !EndsAtRoot(rows, i, hops)
      invariant hops < |rows| && Ancestor(rows, i, hops).Some?
      decreases |rows| - hops
    {
      OneMoreHop(rows, steps, i, hops);
      var p := ChainIsWalk(rows, steps, i, hops + 1);
      AcyclicWalkBound(Edges(steps), p);
      DictionariesHoldEveryStep(steps);
      ElementsAtMostLength(Ids(steps));
      hops := hops + 1;
    }
  }

  ghost predicate EndsAtRoot(rows: seq<StepRow>, i: nat, hops: nat) {
    var end := Ancestor(rows, i, hops);
    end.Some? && end.value < |rows| && rows[end.value].parent.None?
  }

  lemma {:induction false} OneMoreHop(rows: seq<StepRow>, steps: seq<PlanStep>, i: nat, hops: nat)
    requires Projects(rows, steps) && Ancestor(rows, i, hops).Some? && !EndsAtRoot(rows, i, hops)
    ensures Ancestor(rows, i, hops + 1).Some?
    decreases hops
  {
    if hops > 0 {
      assert LinkOf(steps, steps[i], rows[i].parent);
      OneMoreHop(rows, steps, rows[i].parent.value, hops - 1);
    } else {
      assert LinkOf(steps, steps[i], rows[i].parent);
    }
  }

  /** The reply of the language model to one planning prompt. */
  datatype Reply = Planned(steps: seq<PlanStep>) | Malformed(raw: string) | TimedOut | Broken

  /** Output kept for debugging: nothing yet, the raw text, or a dump of the rejected plan. */
  datatype Raw = Nothing | Text(raw: string) | Dump(steps: seq<PlanStep>)

  datatype PlanningOutcome =
    | Produced(steps: seq<PlanStep>, rows: seq<StepRow>)
    | InvalidPlan(kept: Raw)
    | Timeout(kept: Raw)
    | Crashed

  /** A reply that costs the correction attempt: unparsable, or not a legal plan. */
  ghost predicate Correctable(r: Reply) {
    r.Malformed? || (r.Planned? && !LegalPlan(r.steps))
  }

  ghost function KeptFrom(r: Reply): Raw {
    match r
    case Planned(steps) => Dump(steps)
    case Malformed(raw) => Text(raw)
    case _ => Nothing
  }

  /** One prompt and exactly one correction. The first reply that is not correctable decides;
      a plan is persisted as active only when it is legal; the last raw output is never lost. */
  method RunPlanner(replies: seq<Reply>) returns (outcome: PlanningOutcome, calls: nat)
    requires |replies| == 2
    ensures 1 <= calls <= 2 && forall j :: 0 <= j < calls - 1 ==> Correctable(replies[j])
    ensures outcome.Produced? <==> replies[calls - 1].Planned? && LegalPlan(replies[calls - 1].steps)
    ensures outcome.Produced? ==> outcome.steps == replies[calls - 1].steps && Projects(outcome.rows, outcome.steps)
    ensures outcome.InvalidPlan? <==> Correctable(replies[0]) && Correctable(replies[1])
    ensures outcome.InvalidPlan? ==> calls == 2 && outcome.kept == KeptFrom(replies[1])
    ensures outcome.Crashed? <==> replies[calls - 1].Broken?
    ensures outcome.Timeout? <==> replies[calls - 1].TimedOut?
    ensures outcome.Timeout? ==> outcome.kept == if calls == 1 then Nothing else KeptFrom(replies[0])
  {
    var kept := Nothing;
    calls := 0;
    while calls < 2
      invariant 0 <= calls <= 2
      invariant forall j :: 0 <= j < calls ==> Correctable(replies[j])
      invariant kept == if calls == 0 then Nothing else KeptFrom(replies[calls - 1])
    {
      var reply := replies[calls];
      calls := calls + 1;
      match reply {
        case Malformed(raw) => kept := Text(raw);
        case TimedOut => return Timeout(kept), calls;
        case Broken => return Crashed, calls;
        case Planned(steps) =>
          var verdict := ValidatePlanDag(steps);
          if verdict.Accepted? {
            var rows := PersistSteps(steps);
            return Produced(steps, rows), calls;
          }
          kept := Dump(steps);
      }
    }
    outcome := InvalidPlan(kept);
  }
}
