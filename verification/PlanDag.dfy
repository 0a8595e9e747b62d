/** The plan validator: unique ids, no dangling dependency, no cycle (Kahn's
    algorithm), and research before every implement step (depth-first search). */
module PlanDag {
  import opened Graphs

  datatype StepType = Research | Implement | Test | Debug | Review | Security | GitHub

  datatype PlanStep = PlanStep(id: Id, stepType: StepType, dependsOn: seq<Id>)

  datatype PlanError =
    | NoSteps
    | DuplicateIds
    | UnknownDependency(step: Id, dep: Id)
    | DependencyCycle
    | NoResearchBefore(step: Id)

  datatype Verdict = Accepted | Rejected(error: PlanError)

  function Ids(steps: seq<PlanStep>): (ids: seq<Id>)
    ensures |ids| == |steps| && forall i :: 0 <= i < |ids| ==> ids[i] == steps[i].id
  {
    seq(|steps|, i requires 0 <= i < |steps| => steps[i].id)
  }

  /** The dictionary from a step's id to its dependencies; a later step wins. */
  function Edges(steps: seq<PlanStep>): Graph {
    if steps == [] then map[]
    else
      var last := steps[|steps| - 1];
      Edges(steps[..|steps| - 1])[last.id := Elems(last.dependsOn)]
  }

  /** The dictionary from a step's id to its type. */
  function Types(steps: seq<PlanStep>): map<Id, StepType> {
    if steps == [] then map[]
    else
      var last := steps[|steps| - 1];
      Types(steps[..|steps| - 1])[last.id := last.stepType]
  }

  ghost predicate UniqueIds(steps: seq<PlanStep>) {
    forall i, j :: 0 <= i < j < |steps| ==> steps[i].id != steps[j].id
  }

  /** Dependency k of step i names no step. */
  ghost predicate Dangling(steps: seq<PlanStep>, i: nat, k: nat)
    requires i < |steps| && k < |steps[i].dependsOn|
  {
    forall j :: 0 <= j < |steps| ==> steps[j].id != steps[i].dependsOn[k]
  }

  ghost predicate NothingDangles(steps: seq<PlanStep>) {
    forall i, k :: 0 <= i < |steps| && 0 <= k < |steps[i].dependsOn| ==> !Dangling(steps, i, k)
  }

  /** Some research step is a proper, transitive dependency of step i. */
  ghost predicate Researched(steps: seq<PlanStep>, i: nat)
    requires i < |steps|
  {
    exists j :: 0 <= j < |steps| && steps[j].stepType.Research?
                && ProperlyReaches(Edges(steps), steps[i].id, steps[j].id)
  }

  /** What the architecture asks of a plan, in terms of paths only. */
  ghost predicate LegalPlan(steps: seq<PlanStep>) {
    && steps != []
    && UniqueIds(steps)
    && NothingDangles(steps)
    && Acyclic(Edges(steps))
    && EveryImplementResearched(steps, |steps|)
  }

  /** With unique ids no entry is overwritten: the dictionaries hold what the steps say. */
  lemma {:induction false} DictionariesHoldEveryStep(steps: seq<PlanStep>)
    requires UniqueIds(steps)
    ensures Edges(steps).Keys == Types(steps).Keys == Elems(Ids(steps))
    ensures forall i :: 0 <= i < |steps| ==>
      && steps[i].id in Edges(steps)
      && Edges(steps)[steps[i].id] == Elems(steps[i].dependsOn)
      && Types(steps)[steps[i].id] == steps[i].stepType
  {
    KeysAreTheIds(steps);
    forall i | 0 <= i < |steps|
      ensures steps[i].id in Edges(steps) && Edges(steps)[steps[i].id] == Elems(steps[i].dependsOn)
      ensures steps[i].id in Types(steps) && Types(steps)[steps[i].id] == steps[i].stepType
    {
      EntryHoldsTheStep(steps, i);
    }
  }

  lemma {:induction false} KeysAreTheIds(steps: seq<PlanStep>)
    ensures Edges(steps).Keys == Types(steps).Keys == Elems(Ids(steps))
  {
    if steps != [] {
      var front, last := steps[..|steps| - 1], steps[|steps| - 1];
      KeysAreTheIds(front);
      assert Ids(steps) == Ids(front) + [last.id];
      assert Elems(Ids(front) + [last.id]) == Elems(Ids(front)) + {last.id};
    }
  }

  lemma {:induction false} EntryHoldsTheStep(steps: seq<PlanStep>, i: nat)
    requires UniqueIds(steps) && i < |steps|
    ensures steps[i].id in Edges(steps) && Edges(steps)[steps[i].id] == Elems(steps[i].dependsOn)
    ensures steps[i].id in Types(steps) && Types(steps)[steps[i].id] == steps[i].stepType
    decreases |steps|
  {
    if i < |steps| - 1 { EntryHoldsTheStep(steps[..|steps| - 1], i); }
  }

  lemma DependenciesAreClosed(steps: seq<PlanStep>)
    requires UniqueIds(steps) && NothingDangles(steps)
    ensures Closed(Edges(steps))
  {
    DictionariesHoldEveryStep(steps);
    var g, ids := Edges(steps), Ids(steps);
    forall a, b | a in g && b in g[a] ensures b in g {
      var i :| 0 <= i < |ids| && ids[i] == a;
      var k :| 0 <= k < |steps[i].dependsOn| && steps[i].dependsOn[k] == b;
      assert !Dangling(steps, i, k);
    }
  }

  /** The waiting list holds nodes of the graph that are not yet placed, once each. */
  ghost predicate Waiting(g: Graph, placed: set<Id>, ready: seq<Id>) {
    NoDuplicates(ready) && (forall s :: s in ready ==> s in g && s !in placed)
  }

  /** The counter of s is the number of its dependencies outside `counted`, and it is zero
      exactly when s is placed or waiting. */
  ghost predicate Counted(g: Graph, counted: set<Id>, placed: set<Id>, ready: seq<Id>, s: Id, counter: int)
    requires s in g
  {
    counter == |g[s] - counted| && (counter == 0 <==> s in placed || s in ready)
  }

  /** The state of Kahn's loop while the nodes in `todo` have not yet been told that the
      node placed last is done; before that their counters reflect only `counted`. */
  ghost predicate Counting(g: Graph, counted: set<Id>, placed: set<Id>, todo: set<Id>,
                           ready: seq<Id>, indegree: map<Id, int>) {
    && Waiting(g, placed, ready)
    && indegree.Keys == g.Keys
    && (forall s :: s in g ==> Counted(g, if s in todo then counted else placed, placed, ready, s, indegree[s]))
  }

  /** Taking the last waiting node: all its dependencies are placed, and only its dependents
      have counters that now lag behind. */
  lemma TakeLast(g: Graph, placed: set<Id>, ready: seq<Id>, indegree: map<Id, int>, sid: Id, dependents: set<Id>)
    requires Counting(g, placed, placed, {}, ready + [sid], indegree)
    requires dependents == set s | s in g && sid in g[s]
    ensures sid in g && sid !in placed && g[sid] <= placed
    ensures Counting(g, placed, placed + {sid}, dependents, ready, indegree)
  {
    var before, placed' := ready + [sid], placed + {sid};
    assert before[|ready|] == sid && before[..|ready|] == ready;
    assert Counted(g, placed, placed, before, sid, indegree[sid]);
    assert g[sid] - placed == {};
    forall s | s in g
      ensures Counted(g, if s in dependents then placed else placed', placed', ready, s, indegree[s])
    {
      assert Counted(g, placed, placed, before, s, indegree[s]);
      assert s in before <==> s in ready || s == sid;
      if s !in dependents { assert g[s] - placed == g[s] - placed'; }
    }
  }

  /** Lowering the counter of one lagging dependent, which joins the waiting list at zero. */
  lemma LowerOne(g: Graph, counted: set<Id>, sid: Id, todo: set<Id>, ready: seq<Id>, indegree: map<Id, int>, s: Id)
    requires sid !in counted && s in todo && s in g && sid in g[s]
    requires Counting(g, counted, counted + {sid}, todo, ready, indegree)
    ensures Counting(g, counted, counted + {sid}, todo - {s},
                     if indegree[s] == 1 then ready + [s] else ready, indegree[s := indegree[s] - 1])
  {
    var placed := counted + {sid};
    var ready', indegree' := if indegree[s] == 1 then ready + [s] else ready, indegree[s := indegree[s] - 1];
    assert Counted(g, counted, placed, ready, s, indegree[s]);
    LoweredIsCounted(g, counted, sid, ready, s, indegree[s]);
    forall t | t in g
      ensures Counted(g, if t in todo - {s} then counted else placed, placed, ready', t, indegree'[t])
    {
      if t != s {
        assert Counted(g, if t in todo then counted else placed, placed, ready, t, indegree[t]);
        OtherStaysCounted(g, if t in todo then counted else placed, placed, ready, s, t, indegree[t]);
      }
    }
    if indegree[s] == 1 { AppendWaiting(g, placed, ready, s); }
  }

  lemma LoweredIsCounted(g: Graph, counted: set<Id>, sid: Id, ready: seq<Id>, s: Id, counter: int)
    requires s in g && sid in g[s] && sid !in counted
    requires Counted(g, counted, counted + {sid}, ready, s, counter)
    ensures s !in counted + {sid} && s !in ready
    ensures Counted(g, counted + {sid}, counted + {sid}, if counter == 1 then ready + [s] else ready, s, counter - 1)
  {
    assert g[s] - counted == (g[s] - (counted + {sid})) + {sid};
  }

  lemma OtherStaysCounted(g: Graph, counted: set<Id>, placed: set<Id>, ready: seq<Id>, s: Id, t: Id, counter: int)
    requires t in g && t != s && Counted(g, counted, placed, ready, t, counter)
    ensures Counted(g, counted, placed, ready + [s], t, counter)
  {
  }

  lemma AppendWaiting(g: Graph, placed: set<Id>, ready: seq<Id>, s: Id)
    requires Waiting(g, placed, ready) && s in g && s !in placed && s !in ready
    ensures Waiting(g, placed, ready + [s])
  {
  }

  /** Kahn's loop: nodes whose dependencies are all placed wait in `ready`; placing one lowers
      the counter of each of its dependents once. The result lists dependencies first, and a
      node is left out only because it leads into a cycle. */
  method KahnOrder(ids: seq<Id>, g: Graph, dependents: map<Id, set<Id>>) returns (ordered: seq<Id>)
    requires NoDuplicates(ids) && Elems(ids) == g.Keys && Closed(g)
    requires dependents.Keys == g.Keys
    requires forall d :: d in g ==> dependents[d] == set s | s in g && d in g[s]
    ensures DependenciesFirst(g, ordered)
    ensures forall s :: s in g && s !in ordered ==> LeadsToCycle(g, s)
  {
    var indegree: map<Id, int> := map s | s in g :: |g[s]|;
    var ready := InitiallyReady(ids, g, indegree);
    ordered := [];
    ghost var placed: set<Id> := {};
    while ready != []
      invariant DependenciesFirst(g, ordered) && placed == Elems(ordered)
      invariant Counting(g, placed, placed, {}, ready, indegree)
      decreases |g| - |ordered|
    {
      var sid := ready[|ready| - 1];
      assert ready == ready[..|ready| - 1] + [sid];
      ready := ready[..|ready| - 1];
      assert sid in dependents;
      TakeLast(g, placed, ready, indegree, sid, dependents[sid]);
      PlaceNext(g, ordered, sid);
      ordered := ordered + [sid];
      var todo := dependents[sid];
      while todo != {}
        invariant todo <= dependents[sid]
        invariant Counting(g, placed, placed + {sid}, todo, ready, indegree)
        decreases todo
      {
        var s :| s in todo;
        LowerOne(g, placed, sid, todo, ready, indegree, s);
        todo := todo - {s};
        indegree := indegree[s := indegree[s] - 1];
        if indegree[s] == 0 { ready := ready + [s]; }
      }
      placed := placed + {sid};
    }
    RemainderIsStuck(g, ordered, indegree);
  }

  /** The nodes whose counter starts at zero, in insertion order. */
  method InitiallyReady(ids: seq<Id>, g: Graph, indegree: map<Id, int>) returns (ready: seq<Id>)
    requires NoDuplicates(ids) && Elems(ids) == g.Keys == indegree.Keys
    requires forall s :: s in g ==> indegree[s] == |g[s]|
    ensures Counting(g, {}, {}, {}, ready, indegree)
  {
    ready := [];
    for i := 0 to |ids|
      invariant NoDuplicates(ready)
      invariant forall s :: s in ready <==> s in ids[..i] && indegree[s] == 0
    {
      if indegree[ids[i]] == 0 { ready := ready + [ids[i]]; }
    }
    assert ids[..|ids|] == ids;
    forall s | s in g ensures Counted(g, {}, {}, ready, s, indegree[s]) {
      assert g[s] - {} == g[s];
      assert s in Elems(ids);
    }
  }

  lemma PlaceNext(g: Graph, order: seq<Id>, sid: Id)
    requires DependenciesFirst(g, order) && sid in g && sid !in order && g[sid] <= Elems(order)
    ensures DependenciesFirst(g, order + [sid]) && Elems(order + [sid]) == Elems(order) + {sid}
    ensures |order| < |g|
  {
    var longer := order + [sid];
    assert longer[..|order|] == order;
    OrderByIndex(g, order);
    ExtendDistinct(order, sid, g.Keys);
    assert Elems(longer) == Elems(order) + {sid};
  }

  /** When the loop stops, every node not placed waits for another one not placed. */
  lemma RemainderIsStuck(g: Graph, ordered: seq<Id>, indegree: map<Id, int>)
    requires Closed(g) && Counting(g, Elems(ordered), Elems(ordered), {}, [], indegree)
    ensures forall s :: s in g && s !in ordered ==> LeadsToCycle(g, s)
  {
    var placed := Elems(ordered);
    var rest := g.Keys - placed;
    forall s | s in rest ensures g[s] * rest != {} {
      assert Counted(g, placed, placed, [], s, indegree[s]);
      assert g[s] - placed != {};
      var d :| d in g[s] - placed;
      assert d in g[s] * rest;
    }
    forall s | s in g && s !in ordered ensures LeadsToCycle(g, s) {
      assert WalkFromTo(g, {}, s, s, [s]);
      var c := StuckSetHasCycle(g, rest, [s]);
    }
  }

  /** A full order means no cycle; a short one means there is a cycle. */
  lemma FullOrderIffAcyclic(g: Graph, ordered: seq<Id>)
    requires DependenciesFirst(g, ordered)
    requires forall s :: s in g && s !in ordered ==> LeadsToCycle(g, s)
    ensures |ordered| == |g| <==> Acyclic(g)
  {
    OrderByIndex(g, ordered);
    DistinctCount(ordered);
    SubsetCount(Elems(ordered), g.Keys);
    if |ordered| == |g| {
      forall a ensures !ProperlyReaches(g, a, a) {
        if ProperlyReaches(g, a, a) {
          assert a in ordered by { assert a in Elems(ordered); }
          OrderedNodeAvoidsCycles(g, ordered, a, a);
        }
      }
    } else {
      assert Elems(ordered) != g.Keys;
      var s :| s in g && s !in ordered;
      assert LeadsToCycle(g, s);
    }
  }

  /** The nested search of the validator: `seen` is shared by the whole recursion. */
  class AncestorSearch {
    const edges: Graph
    var seen: set<Id>

    constructor (edges: Graph)
      ensures this.edges == edges && seen == {}
    {
      this.edges := edges;
      seen := {};
    }

    /** Whatever was seen before, the call adds exactly the nodes that s reaches
        without passing through a node already seen. */
    method Visit(s: Id)
      requires Closed(edges) && s in edges && seen <= edges.Keys
      modifies this
      ensures seen <= edges.Keys
      ensures forall x :: x in seen <==> x in old(seen) || Reaches(edges, old(seen), s, x)
      decreases edges.Keys - seen
    {
      if s in seen { return; }
      ghost var before := seen;
      seen := seen + {s};
      ReachBySelf(edges, before, s);
      var todo := edges[s];
      while todo != {}
        invariant todo <= edges[s]
        invariant before + {s} <= seen <= edges.Keys
        invariant edges[s] - todo <= seen
        invariant forall x :: x in seen && x !in before ==> Reaches(edges, before, s, x)
        invariant forall x :: x in seen && x !in before && x != s ==> edges[x] <= seen
        decreases todo
      {
        var dep :| dep in todo;
        ghost var mid := seen;
        Visit(dep);
        todo := todo - {dep};
        forall x | x in seen && x !in mid ensures Reaches(edges, before, s, x) && edges[x] <= seen {
          ReachByFirstEdge(edges, mid, before, s, dep, x);
          forall y | y in edges[x] ensures y in seen {
            if y !in mid { ReachByLastEdge(edges, mid, dep, x, y); }
          }
        }
        if dep !in mid { ReachBySelf(edges, mid, dep); }
      }
      forall x | Reaches(edges, before, s, x) ensures x in seen {
        var p :| WalkFromTo(edges, before, s, x, p);
        ClosedSetHoldsReach(edges, before, seen, p);
      }
    }
  }

  /** One of the first n steps has id s and names d. */
  ghost predicate Named(steps: seq<PlanStep>, n: nat, s: Id, d: Id)
    requires n <= |steps|
  {
    exists j :: 0 <= j < n && steps[j].id == s && d in steps[j].dependsOn
  }

  /** dependents[d] collects the steps that name d. */
  method CollectDependents(steps: seq<PlanStep>) returns (dependents: map<Id, set<Id>>)
    requires UniqueIds(steps) && NothingDangles(steps)
    ensures dependents.Keys == Edges(steps).Keys
    ensures forall d :: d in dependents ==> dependents[d] == set s | s in Edges(steps) && d in Edges(steps)[s]
  {
    dependents := map s | s in Elems(Ids(steps)) :: {};
    for i := 0 to |steps|
      invariant dependents.Keys == Elems(Ids(steps))
      invariant forall d, s :: d in dependents ==> (s in dependents[d] <==> Named(steps, i, s, d))
    {
      var own := steps[i].id;
      forall k | 0 <= k < |steps[i].dependsOn| ensures steps[i].dependsOn[k] in dependents {
        DependencyIsAStep(steps, i, k);
      }
      dependents := AddToEach(dependents, steps[i].dependsOn, own);
      forall d, s | d in dependents
        ensures Named(steps, i + 1, s, d) <==> Named(steps, i, s, d) || (s == own && d in steps[i].dependsOn)
      {
        NamedNext(steps, i, s, d);
      }
    }
    NamesAreEdges(steps, dependents);
  }

  lemma NamedNext(steps: seq<PlanStep>, i: nat, s: Id, d: Id)
    requires i < |steps|
    ensures Named(steps, i + 1, s, d) <==> Named(steps, i, s, d) || (s == steps[i].id && d in steps[i].dependsOn)
  {
  }

  lemma NamesAreEdges(steps: seq<PlanStep>, dependents: map<Id, set<Id>>)
    requires UniqueIds(steps) && dependents.Keys == Elems(Ids(steps))
    requires forall d, s :: d in dependents ==> (s in dependents[d] <==> Named(steps, |steps|, s, d))
    ensures dependents.Keys == Edges(steps).Keys
    ensures forall d :: d in dependents ==> dependents[d] == set s | s in Edges(steps) && d in Edges(steps)[s]
  {
    KeysAreTheIds(steps);
    forall s, d ensures Named(steps, |steps|, s, d) <==> s in Edges(steps) && d in Edges(steps)[s] {
      NamedByEdge(steps, s, d);
    }
  }

  method AddToEach(dependents: map<Id, set<Id>>, deps: seq<Id>, own: Id) returns (result: map<Id, set<Id>>)
    requires forall d :: d in deps ==> d in dependents
    ensures result.Keys == dependents.Keys
    ensures forall d :: d in dependents ==> result[d] == dependents[d] + if d in deps then {own} else {}
  {
    result := dependents;
    for k := 0 to |deps|
      invariant result.Keys == dependents.Keys
      invariant forall d :: d in dependents ==> result[d] == dependents[d] + if d in deps[..k] then {own} else {}
    {
      result := result[deps[k] := result[deps[k]] + {own}];
    }
    assert deps[..|deps|] == deps;
  }

  lemma NamedByEdge(steps: seq<PlanStep>, s: Id, d: Id)
    requires UniqueIds(steps)
    ensures Named(steps, |steps|, s, d) <==> s in Edges(steps) && d in Edges(steps)[s]
  {
    DictionariesHoldEveryStep(steps);
    if s in Edges(steps) {
      assert s in Elems(Ids(steps));
      var i :| 0 <= i < |Ids(steps)| && Ids(steps)[i] == s;
      assert steps[i].id == s;
    }
  }

  lemma DependencyIsAStep(steps: seq<PlanStep>, i: nat, k: nat)
    requires NothingDangles(steps) && i < |steps| && k < |steps[i].dependsOn|
    ensures steps[i].dependsOn[k] in Elems(Ids(steps))
  {
    assert !Dangling(steps, i, k);
    var j :| 0 <= j < |steps| && steps[j].id == steps[i].dependsOn[k];
    assert Ids(steps)[j] == steps[j].id;
  }

  /** The first dangling dependency, if there is one. */
  method FindDangling(steps: seq<PlanStep>) returns (found: bool, step: Id, dep: Id)
    ensures found <==> !NothingDangles(steps)
    ensures found ==> FirstDangling(steps, step, dep)
  {
    var ids := Elems(Ids(steps));
    for i := 0 to |steps|
      invariant NoneDangles(steps, i)
    {
      var deps := steps[i].dependsOn;
      for k := 0 to |deps|
        invariant forall m :: 0 <= m < k ==> !Dangling(steps, i, m)
      {
        if deps[k] !in ids {
          assert forall j :: 0 <= j < |steps| ==> Ids(steps)[j] in ids;
          assert Dangling(steps, i, k);
          return true, steps[i].id, deps[k];
        }
        var j :| 0 <= j < |Ids(steps)| && Ids(steps)[j] == deps[k];
        assert steps[j].id == deps[k];
      }
    }
    return false, Id(""), Id("");
  }

  ghost predicate NoneDangles(steps: seq<PlanStep>, n: nat)
    requires n <= |steps|
  {
    forall j: nat, m: nat :: j < n && m < |steps[j].dependsOn| ==> !Dangling(steps, j, m)
  }

  /** A fresh search from s, with s itself taken out of the result. */
  method ProperAncestors(edges: Graph, s: Id) returns (reachable: set<Id>)
    requires Closed(edges) && s in edges
    ensures forall x :: x in reachable <==> x != s && Reaches(edges, {}, s, x)
  {
    var search := new AncestorSearch(edges);
    search.Visit(s);
    reachable := search.seen - {s};
  }

  /** The first implement step without research before it, found by one search per implement step. */
  method FindUnresearched(steps: seq<PlanStep>) returns (found: bool, step: Id)
    requires UniqueIds(steps) && NothingDangles(steps) && Acyclic(Edges(steps))
    ensures found <==> !EveryImplementResearched(steps, |steps|)
    ensures found ==> FirstUnresearched(steps, step)
  {
    var edges, types := Edges(steps), Types(steps);
    for i := 0 to |steps|
      invariant EveryImplementResearched(steps, i)
    {
      if steps[i].stepType.Implement? {
        var researched := HasResearchAncestor(steps, edges, types, i);
        if !researched { return true, steps[i].id; }
      }
    }
    return false, Id("");
  }

  method HasResearchAncestor(steps: seq<PlanStep>, edges: Graph, types: map<Id, StepType>, i: nat)
    returns (researched: bool)
    requires UniqueIds(steps) && NothingDangles(steps) && Acyclic(edges) && i < |steps|
    requires edges == Edges(steps) && types == Types(steps)
    ensures researched <==> Researched(steps, i)
  {
    DictionariesHoldEveryStep(steps);
    DependenciesAreClosed(steps);
    var reachable := ProperAncestors(edges, steps[i].id);
    SearchFindsResearch(steps, i, reachable);
    researched := exists x :: x in reachable && types[x].Research?;
  }

  ghost predicate EveryImplementResearched(steps: seq<PlanStep>, n: nat)
    requires n <= |steps|
  {
    forall i :: 0 <= i < n && steps[i].stepType.Implement? ==> Researched(steps, i)
  }

  /** The validator. The first three clauses fix its answer for every list of steps; the last
      two say which step and dependency the error names. */
  method ValidatePlanDag(steps: seq<PlanStep>) returns (v: Verdict)
    ensures v.Accepted? <==> LegalPlan(steps)
    ensures v == Rejected(NoSteps) <==> steps == []
    ensures v == Rejected(DuplicateIds) <==> !UniqueIds(steps)
    ensures v.Rejected? && v.error.UnknownDependency? <==> UniqueIds(steps) && !NothingDangles(steps)
    ensures v == Rejected(DependencyCycle) <==>
      UniqueIds(steps) && NothingDangles(steps) && !Acyclic(Edges(steps))
    ensures v.Rejected? && v.error.UnknownDependency? ==> FirstDangling(steps, v.error.step, v.error.dep)
    ensures v.Rejected? && v.error.NoResearchBefore? ==> FirstUnresearched(steps, v.error.step)
  {
    if steps == [] { return Rejected(NoSteps); }
    var ids := Ids(steps);
    DuplicatesAreCounted(steps);
    if |Elems(ids)| != |ids| { return Rejected(DuplicateIds); }
    var dangling, step, dep := FindDangling(steps);
    if dangling { return Rejected(UnknownDependency(step, dep)); }
    DictionariesHoldEveryStep(steps);
    DependenciesAreClosed(steps);
    var edges := Edges(steps);
    var dependents := CollectDependents(steps);
    var ordered := KahnOrder(ids, edges, dependents);
    FullOrderIffAcyclic(edges, ordered);
    DistinctCount(ids);
    if |ordered| != |steps| { return Rejected(DependencyCycle); }
    var unresearched, at := FindUnresearched(steps);
    if unresearched { return Rejected(NoResearchBefore(at)); }
    return Accepted;
  }

  /** The error names the first dangling dependency, steps in list order, then dependencies. */
  ghost predicate FirstDangling(steps: seq<PlanStep>, step: Id, dep: Id) {
    exists i: nat, k: nat ::
      && i < |steps| && k < |steps[i].dependsOn|
      && steps[i].id == step && steps[i].dependsOn[k] == dep && Dangling(steps, i, k)
      && NoneDangles(steps, i)
      && (forall m: nat :: m < k ==> !Dangling(steps, i, m))
  }

  /** The error names the first implement step without research before it. */
  ghost predicate FirstUnresearched(steps: seq<PlanStep>, step: Id) {
    exists i: nat ::
      && i < |steps| && steps[i].id == step && steps[i].stepType.Implement? && !Researched(steps, i)
      && EveryImplementResearched(steps, i)
  }

  lemma DuplicatesAreCounted(steps: seq<PlanStep>)
    ensures UniqueIds(steps) <==> |Elems(Ids(steps))| == |Ids(steps)|
    ensures UniqueIds(steps) <==> NoDuplicates(Ids(steps))
  {
    var ids := Ids(steps);
    assert forall i :: 0 <= i < |steps| ==> ids[i] == steps[i].id;
    assert NoDuplicates(ids) ==> UniqueIds(steps);
    ElementsAtMostLength(ids);
    if UniqueIds(steps) { DistinctCount(ids); }
  }

  /** The search result, less the step itself, holds a research step exactly when the
      step properly depends on one. */
  lemma SearchFindsResearch(steps: seq<PlanStep>, i: nat, reachable: set<Id>)
    requires UniqueIds(steps) && NothingDangles(steps) && Acyclic(Edges(steps)) && i < |steps|
    requires forall x :: x in reachable <==> x != steps[i].id && Reaches(Edges(steps), {}, steps[i].id, x)
    ensures reachable <= Types(steps).Keys
    ensures (exists x :: x in reachable && Types(steps)[x].Research?) <==> Researched(steps, i)
  {
    DictionariesHoldEveryStep(steps);
    var g, s := Edges(steps), steps[i].id;
    forall x | x in reachable ensures x in g && ProperlyReaches(g, s, x) {
      ProperReachIsReachLessSelf(g, s, x);
    }
    if x :| x in reachable && Types(steps)[x].Research? {
      var j :| 0 <= j < |Ids(steps)| && Ids(steps)[j] == x;
      assert steps[j].stepType.Research? && ProperlyReaches(g, s, steps[j].id);
    }
    if Researched(steps, i) {
      var j :| 0 <= j < |steps| && steps[j].stepType.Research? && ProperlyReaches(g, s, steps[j].id);
      ProperReachIsReachLessSelf(g, s, steps[j].id);
      assert steps[j].id in reachable;
    }
  }
}
