/** The worktree of one task: table rows, the task branch and the directory on disk. Any number of
    creators run the create-or-reuse protocol at once, one atomic step at a time; a discard is one
    step. `git worktree add -b` fails when the branch or the directory is there, which makes the
    branch a lock that the row insert takes over from. */
module Worktrees {
  import opened Wrappers

  type RowId = nat
  type Creator = nat

  datatype RowStatus = Active | Discarded

  datatype Disk = Disk(rows: seq<RowStatus>, branch: bool, dir: bool)

  // ----- atomic steps on the disk and the table ------------------------------------------------------

  /** The active row, if there is one. */
  function ActiveFor(rows: seq<RowStatus>): (r: Option<RowId>)
    ensures r.Some? ==> r.value < |rows| && rows[r.value].Active?
    ensures r.None? ==> forall i :: 0 <= i < |rows| ==> !rows[i].Active?
  {
    if rows == [] then None
    else if rows[|rows| - 1].Active? then Some(|rows| - 1)
    else ActiveFor(rows[..|rows| - 1])
  }

  predicate Blocked(d: Disk) {
    d.branch || d.dir
  }

  function Added(d: Disk): Disk {
    d.(branch := true, dir := true)
  }

  function Inserted(d: Disk): Disk {
    d.(rows := d.rows + [Active])
  }

  /** Discarding by row id: the branch and the directory are found by name and removed, whatever the
      row's own status. */
  function DiscardedRow(d: Disk, id: RowId): Disk {
    if id < |d.rows| then Disk(d.rows[id := Discarded], false, false) else d
  }

  // ----- the protocol --------------------------------------------------------------------------------

  /** Where a creator is; `left` is the number of tries it has after this one. */
  datatype Phase =
    | Looking
    | CheckingRow(left: nat)
    | CheckingPath(left: nat)
    | Adding(left: nat)
    | Inserting
    | Reloading(left: nat)
    | Finished(row: RowId)
    | GaveUp

  datatype World = World(disk: Disk, creators: map<Creator, Phase>)

  /** One atomic step of a creator: its next phase and the new disk. */
  function Next(d: Disk, p: Phase): (Disk, Phase) {
    match p
    case Looking =>
      (d, if ActiveFor(d.rows).Some? then Finished(ActiveFor(d.rows).value) else CheckingRow(1))
    case CheckingRow(left) => (d, if ActiveFor(d.rows).Some? then Reloading(left) else CheckingPath(left))
    case CheckingPath(left) => (d, if d.dir then Reloading(left) else Adding(left))
    case Adding(left) => if Blocked(d) then (d, Reloading(left)) else (Added(d), Inserting)
    case Inserting => (Inserted(d), Finished(|d.rows|))
    case Reloading(left) =>
      (d, if ActiveFor(d.rows).Some? then Finished(ActiveFor(d.rows).value)
          else if left > 0 then CheckingRow(left - 1) else GaveUp)
    case Finished(_) => (d, p)
    case GaveUp => (d, p)
  }

  datatype Step = Arrive(c: Creator) | Move(c: Creator) | Discard(id: RowId)

  function Apply(w: World, s: Step): World {
    match s
    case Arrive(c) => if c in w.creators then w else w.(creators := w.creators[c := Looking])
    case Move(c) =>
      if c in w.creators then
        var (d, p) := Next(w.disk, w.creators[c]);
        World(d, w.creators[c := p])
      else w
    case Discard(id) => w.(disk := DiscardedRow(w.disk, id))
  }

  function Run(w: World, steps: seq<Step>): World {
    if steps == [] then w else Apply(Run(w, steps[..|steps| - 1]), steps[|steps| - 1])
  }

  const FRESH: World := World(Disk([], false, false), map[])

  lemma RunOneMore(w: World, steps: seq<Step>, s: Step)
    ensures Run(w, steps + [s]) == Apply(Run(w, steps), s)
  {
    assert (steps + [s])[..|steps|] == steps;
  }

  lemma {:induction false} RunSplit(w: World, a: seq<Step>, b: seq<Step>)
    ensures Run(w, a + b) == Run(Run(w, a), b)
    decreases |b|
  {
    if b == [] {
      assert a + b == a;
    } else {
      var n := |b| - 1;
      RunSplit(w, a, b[..n]);
      assert (a + b)[..|a + b| - 1] == a + b[..n];
    }
  }

  // ----- at most one active row ----------------------------------------------------------------------

  function ActiveCount(rows: seq<RowStatus>): nat {
    if rows == [] then 0
    else ActiveCount(rows[..|rows| - 1]) + if rows[|rows| - 1].Active? then 1 else 0
  }

  lemma {:induction false} CountAfterUpdate(rows: seq<RowStatus>, id: RowId)
    requires id < |rows|
    ensures ActiveCount(rows[id := Discarded]) == ActiveCount(rows) - if rows[id].Active? then 1 else 0
  {
    var n := |rows| - 1;
    if id < n {
      CountAfterUpdate(rows[..n], id);
      assert rows[id := Discarded][..n] == rows[..n][id := Discarded];
    } else {
      assert rows[id := Discarded][..n] == rows[..n];
    }
  }

  lemma {:induction false} NoneActiveIffZero(rows: seq<RowStatus>)
    ensures ActiveFor(rows).None? <==> ActiveCount(rows) == 0
  {
    if rows != [] { NoneActiveIffZero(rows[..|rows| - 1]); }
  }

  function InFlight(creators: map<Creator, Phase>): set<Creator> {
    set c | c in creators && creators[c].Inserting?
  }

  /** Active rows and creators between `git worktree add` and the insert number one when the branch
      exists and none when it does not; the directory exists with the branch. */
  predicate Mutex(w: World) {
    && w.disk.dir == w.disk.branch
    && ActiveCount(w.disk.rows) + |InFlight(w.creators)| == if w.disk.branch then 1 else 0
  }

  lemma {:induction false} PhaseChange(creators: map<Creator, Phase>, c: Creator, p: Phase)
    ensures var before := c in creators && creators[c].Inserting?;
            |InFlight(creators[c := p])| ==
            |InFlight(creators)| + (if p.Inserting? then 1 else 0) - (if before then 1 else 0)
  {
    var old_, new_ := InFlight(creators), InFlight(creators[c := p]);
    if p.Inserting? {
      assert new_ == old_ + {c};
    } else {
      assert new_ == old_ - {c};
    }
  }

  /** No step of any creator breaks the lock. */
  lemma {:induction false} CreatorsKeepTheMutex(w: World, s: Step)
    requires Mutex(w) && !s.Discard?
    ensures Mutex(Apply(w, s))
  {
    var v := Apply(w, s);
    if s.Arrive? {
      PhaseChange(w.creators, s.c, Looking);
    } else if s.c in w.creators {
      PhaseChange(w.creators, s.c, v.creators[s.c]);
      if w.creators[s.c].Inserting? {
        assert v.disk.rows[..|w.disk.rows|] == w.disk.rows;
        assert s.c in InFlight(w.creators);
      }
    }
  }

  /** A discard keeps it exactly when the row is active or there is no branch to take away. */
  lemma {:induction false} DiscardKeepsTheMutexIff(w: World, id: RowId)
    requires Mutex(w) && id < |w.disk.rows|
    ensures Mutex(Apply(w, Discard(id))) <==> w.disk.rows[id].Active? || !w.disk.branch
  {
    CountAfterUpdate(w.disk.rows, id);
  }

  /** Every discard of the run names the row that is active at that point, or finds no branch. */
  predicate DiscardsAreCurrent(w: World, steps: seq<Step>)
    decreases |steps|
  {
    steps == [] ||
    var before, s := Run(w, steps[..|steps| - 1]), steps[|steps| - 1];
    && DiscardsAreCurrent(w, steps[..|steps| - 1])
    && (s.Discard? && s.id < |before.disk.rows| ==> before.disk.rows[s.id].Active? || !before.disk.branch)
  }

  /** In every interleaving of creators and current discards the lock holds, so the task never has
      two active rows. */
  lemma {:induction false} AtMostOneActiveRow(steps: seq<Step>)
    requires DiscardsAreCurrent(FRESH, steps)
    ensures Mutex(Run(FRESH, steps)) && ActiveCount(Run(FRESH, steps).disk.rows) <= 1
    decreases |steps|
  {
    if steps == [] {
      assert InFlight(FRESH.creators) == {};
    } else {
      var front, s := steps[..|steps| - 1], steps[|steps| - 1];
      AtMostOneActiveRow(front);
      if s.Discard? {
        if s.id < |Run(FRESH, front).disk.rows| { DiscardKeepsTheMutexIff(Run(FRESH, front), s.id); }
      } else {
        CreatorsKeepTheMutex(Run(FRESH, front), s);
      }
    }
  }

  // ----- runs without discards -----------------------------------------------------------------------

  predicate NoDiscards(steps: seq<Step>) {
    forall k :: 0 <= k < |steps| ==> !steps[k].Discard?
  }

  /** Without discards there is one row at most, everyone who finished has it, and whoever failed a
      try did so because the branch was there; it still is. */
  ghost predicate OneWinner(w: World) {
    && Mutex(w)
    && (w.disk.rows == [] || w.disk.rows == [Active])
    && forall c :: c in w.creators ==>
         match w.creators[c]
         case Finished(r) => r == 0 && w.disk.rows == [Active]
         case Reloading(_) => w.disk.branch
         case GaveUp => w.disk.branch
         case _ => true
  }

  lemma {:induction false} StepKeepsOneWinner(w: World, s: Step)
    requires OneWinner(w) && !s.Discard?
    ensures OneWinner(Apply(w, s))
  {
    CreatorsKeepTheMutex(w, s);
    NoneActiveIffZero(w.disk.rows);
    if s.Move? && s.c in w.creators && w.creators[s.c].Inserting? {
      assert s.c in InFlight(w.creators);
      assert ActiveCount([Active]) == 1;
    }
  }

  lemma {:induction false} EveryoneGetsTheSameRow(steps: seq<Step>)
    requires NoDiscards(steps)
    ensures OneWinner(Run(FRESH, steps))
    decreases |steps|
  {
    if steps == [] {
      assert InFlight(FRESH.creators) == {};
    } else {
      EveryoneGetsTheSameRow(steps[..|steps| - 1]);
      StepKeepsOneWinner(Run(FRESH, steps[..|steps| - 1]), steps[|steps| - 1]);
    }
  }

  // ----- giving up -----------------------------------------------------------------------------------------

  /** Another creator stands between `git worktree add` and its insert. */
  ghost predicate WinnerInFlight(w: World, c: Creator) {
    exists d :: d in w.creators && d != c && w.creators[d].Inserting?
  }

  /** In every state that keeps the lock: the last reload fails exactly while another creator is in
      flight, or when there is nothing to reload because a discard has taken branch and row away. */
  lemma {:induction false} GivesUpIff(w: World, c: Creator)
    requires Mutex(w) && c in w.creators && w.creators[c] == Reloading(0)
    ensures Apply(w, Move(c)).creators[c].GaveUp? <==> !w.disk.branch || WinnerInFlight(w, c)
  {
    NoneActiveIffZero(w.disk.rows);
    if ActiveCount(w.disk.rows) == 0 {
      if w.disk.branch {
        assert |InFlight(w.creators)| == 1;
        var d :| d in InFlight(w.creators);
        assert d in w.creators && d != c && w.creators[d].Inserting?;
      }
    } else {
      assert InFlight(w.creators) == {};
      assert forall d :: d in w.creators && w.creators[d].Inserting? ==> d in InFlight(w.creators);
    }
  }

  /** Over whole runs with current discards: whoever gave up did so at a move of its own at which another
      creator was in flight or the branch had been discarded. */
  lemma {:induction false} NobodyGivesUpAlone(steps: seq<Step>, c: Creator)
    requires DiscardsAreCurrent(FRESH, steps)
    requires var w := Run(FRESH, steps); c in w.creators && w.creators[c].GaveUp?
    ensures exists k :: 0 <= k < |steps| && steps[k] == Move(c) && MayGiveUp(Run(FRESH, steps[..k]), c)
    decreases |steps|
  {
    var n := |steps| - 1;
    var front := steps[..n];
    var before := Run(FRESH, front);
    AtMostOneActiveRow(front);
    if c in before.creators && before.creators[c].GaveUp? {
      NobodyGivesUpAlone(front, c);
      var k :| 0 <= k < |front| && front[k] == Move(c) && MayGiveUp(Run(FRESH, front[..k]), c);
      assert front[..k] == steps[..k];
    } else {
      assert steps[n] == Move(c) && before.creators[c] == Reloading(0);
      GivesUpIff(before, c);
      assert MayGiveUp(Run(FRESH, steps[..n]), c);
    }
  }

  ghost predicate MayGiveUp(w: World, c: Creator) {
    c in w.creators && w.creators[c] == Reloading(0) && (!w.disk.branch || WinnerInFlight(w, c))
  }

  /** Without discards only the first reason is left. */
  lemma {:induction false} WithoutDiscardsAWinnerIsInFlight(steps: seq<Step>, c: Creator)
    requires NoDiscards(steps)
    requires var w := Run(FRESH, steps); c in w.creators && w.creators[c] == Reloading(0)
    ensures Apply(Run(FRESH, steps), Move(c)).creators[c].GaveUp? <==> WinnerInFlight(Run(FRESH, steps), c)
  {
    EveryoneGetsTheSameRow(steps);
    GivesUpIff(Run(FRESH, steps), c);
  }

  // ----- the second try ------------------------------------------------------------------------------------

  /** At step k the creator reloads after a failed try and finds no row. */
  ghost predicate FailedReload(steps: seq<Step>, k: int, c: Creator) {
    && 0 <= k < |steps| && steps[k] == Move(c)
    && var w := Run(FRESH, steps[..k]);
       c in w.creators && w.creators[c].Reloading? && ActiveFor(w.disk.rows).None?
  }

  ghost predicate ReloadFailed(steps: seq<Step>, c: Creator) {
    exists k :: FailedReload(steps, k, c)
  }

  ghost predicate ReloadFailedTwice(steps: seq<Step>, c: Creator) {
    exists j, k :: j < k && FailedReload(steps, j, c) && FailedReload(steps, k, c)
  }

  /** A creator counts its tries by the reloads that found nothing. */
  ghost predicate TriesFit(steps: seq<Step>, c: Creator) {
    var creators := Run(FRESH, steps).creators;
    (c !in creators ==> !ReloadFailed(steps, c)) &&
    (c in creators ==>
       match creators[c]
       case Looking => !ReloadFailed(steps, c)
       case CheckingRow(left) => left <= 1 && (left == 0 <==> ReloadFailed(steps, c)) && !ReloadFailedTwice(steps, c)
       case CheckingPath(left) => left <= 1 && (left == 0 <==> ReloadFailed(steps, c)) && !ReloadFailedTwice(steps, c)
       case Adding(left) => left <= 1 && (left == 0 <==> ReloadFailed(steps, c)) && !ReloadFailedTwice(steps, c)
       case Reloading(left) => left <= 1 && (left == 0 <==> ReloadFailed(steps, c)) && !ReloadFailedTwice(steps, c)
       case GaveUp => ReloadFailedTwice(steps, c)
       case _ => !ReloadFailedTwice(steps, c))
  }

  lemma FailedAppend(front: seq<Step>, s: Step, c: Creator)
    ensures ReloadFailed(front + [s], c) <==> ReloadFailed(front, c) || FailedReload(front + [s], |front|, c)
    ensures ReloadFailedTwice(front + [s], c) <==>
      ReloadFailedTwice(front, c) || (ReloadFailed(front, c) && FailedReload(front + [s], |front|, c))
  {
    var all := front + [s];
    forall k | 0 <= k < |front| ensures FailedReload(all, k, c) <==> FailedReload(front, k, c) {
      assert all[..k] == front[..k] && all[k] == front[k];
    }
    if k :| FailedReload(front, k, c) { assert FailedReload(all, k, c); }
    if j, k :| j < k && FailedReload(front, j, c) && FailedReload(front, k, c) {
      assert FailedReload(all, j, c) && FailedReload(all, k, c);
    }
    if k :| FailedReload(all, k, c) && k < |front| { assert FailedReload(front, k, c); }
    if j, k :| j < k && FailedReload(all, j, c) && FailedReload(all, k, c) {
      assert FailedReload(front, j, c);
      if k < |front| { assert FailedReload(front, k, c); }
    }
  }

  lemma {:induction false} TriesAlwaysFit(steps: seq<Step>, c: Creator)
    ensures TriesFit(steps, c)
    decreases |steps|
  {
    if steps != [] {
      var front, s := steps[..|steps| - 1], steps[|steps| - 1];
      TriesAlwaysFit(front, c);
      assert steps == front + [s];
      FailedAppend(front, s, c);
      assert steps[..|front|] == front;
      if s != Move(c) {
        assert !FailedReload(steps, |front|, c);
        OthersLeaveItAlone(Run(FRESH, front), s, c);
      }
    }
  }

  lemma OthersLeaveItAlone(w: World, s: Step, c: Creator)
    requires s != Move(c)
    ensures c in w.creators ==> c in Apply(w, s).creators && Apply(w, s).creators[c] == w.creators[c]
    ensures c !in w.creators && c in Apply(w, s).creators ==> Apply(w, s).creators[c] == Looking
  {
  }

  /** In every run, whatever is discarded: a creator has given up exactly when two of its own reloads have
      found no row. One failed try is always followed by another. */
  lemma {:induction false} GivesUpAfterTwoReloads(steps: seq<Step>, c: Creator)
    ensures c in Run(FRESH, steps).creators && Run(FRESH, steps).creators[c].GaveUp? <==> ReloadFailedTwice(steps, c)
  {
    TriesAlwaysFit(steps, c);
    if ReloadFailedTwice(steps, c) { assert ReloadFailed(steps, c); }
  }

  /** What the second try is for: the first reload found nothing, the winner's row is there before the
      creator's next look, and nothing is discarded after that. Two steps later the creator has the row. */
  lemma {:induction false} TheRetryFindsTheRow(before: seq<Step>, meanwhile: seq<Step>, rest: seq<Step>,
                                                 c: Creator, r: RowId)
    requires DiscardsAreCurrent(FRESH, before + [Move(c)] + meanwhile)
    requires FailedReload(before + [Move(c)], |before|, c) && !ReloadFailed(before, c)
    requires forall k :: 0 <= k < |meanwhile| ==> meanwhile[k] != Move(c)
    requires ActiveFor(Run(FRESH, before + [Move(c)] + meanwhile).disk.rows) == Some(r)
    requires NoDiscards(rest) && MovesOf(rest, c) >= 2
    ensures var w := Run(FRESH, before + [Move(c)] + meanwhile + rest); c in w.creators && w.creators[c] == Finished(r)
  {
    var steps := before + [Move(c)] + meanwhile;
    AtMostOneActiveRow(steps);
    assert (before + [Move(c)])[..|before|] == before;
    TriesAlwaysFit(before, c);
    RunOneMore(FRESH, before, Move(c));
    RunSplit(FRESH, before + [Move(c)], meanwhile);
    StaysPut(Run(FRESH, before + [Move(c)]), meanwhile, c);
    RunSplit(FRESH, steps, rest);
    RetryFrom(Run(FRESH, steps), rest, c, r);
  }

  lemma {:induction false} StaysPut(w: World, steps: seq<Step>, c: Creator)
    requires c in w.creators && forall k :: 0 <= k < |steps| ==> steps[k] != Move(c)
    ensures c in Run(w, steps).creators && Run(w, steps).creators[c] == w.creators[c]
    decreases |steps|
  {
    if steps != [] {
      StaysPut(w, steps[..|steps| - 1], c);
      OthersLeaveItAlone(Run(w, steps[..|steps| - 1]), steps[|steps| - 1], c);
    }
  }

  lemma {:induction false} RetryFrom(w: World, rest: seq<Step>, c: Creator, r: RowId)
    requires Mutex(w) && c in w.creators && w.creators[c] == CheckingRow(0) && ActiveFor(w.disk.rows) == Some(r)
    requires NoDiscards(rest)
    ensures Mutex(Run(w, rest)) && Run(w, rest).disk == w.disk
    ensures c in Run(w, rest).creators
    ensures Run(w, rest).creators[c] == match MovesOf(rest, c)
                                        case 0 => CheckingRow(0)
                                        case 1 => Reloading(0)
                                        case _ => Finished(r)
    decreases |rest|
  {
    if rest != [] {
      var front, s := rest[..|rest| - 1], rest[|rest| - 1];
      RetryFrom(w, front, c, r);
      var v := Run(w, front);
      CreatorsKeepTheMutex(v, s);
      DiskIsTaken(v, s);
      if s != Move(c) { OthersLeaveItAlone(v, s, c); }
    }
  }

  /** While a row is active no creator changes the disk. */
  lemma DiskIsTaken(w: World, s: Step)
    requires Mutex(w) && ActiveFor(w.disk.rows).Some? && !s.Discard?
    ensures Apply(w, s).disk == w.disk
  {
    NoneActiveIffZero(w.disk.rows);
    assert InFlight(w.creators) == {};
    assert forall d :: d in w.creators && w.creators[d].Inserting? ==> d in InFlight(w.creators);
  }

  /** A creator that comes to a task with a worktree has it after its first look. */
  lemma FirstLookSuffices(w: World, c: Creator)
    requires c !in w.creators && ActiveFor(w.disk.rows).Some?
    ensures Run(w, [Arrive(c), Move(c)]) == w.(creators := w.creators[c := Finished(ActiveFor(w.disk.rows).value)])
  {
    RunOneMore(w, [], Arrive(c));
    assert [] + [Arrive(c)] == [Arrive(c)];
    RunOneMore(w, [Arrive(c)], Move(c));
    assert [Arrive(c)] + [Move(c)] == [Arrive(c), Move(c)];
  }

  // ----- every creator ends --------------------------------------------------------------------------

  /** Own steps left before a creator must have an answer. */
  function StepsLeft(p: Phase): nat {
    match p
    case Looking => 9
    case CheckingRow(left) => 4 * left + 4
    case CheckingPath(left) => 4 * left + 3
    case Adding(left) => 4 * left + 2
    case Reloading(left) => 4 * left + 1
    case Inserting => 1
    case _ => 0
  }

  function MovesOf(steps: seq<Step>, c: Creator): nat {
    if steps == [] then 0
    else MovesOf(steps[..|steps| - 1], c) + if steps[|steps| - 1] == Move(c) then 1 else 0
  }

  /** Under any interleaving, discards included, nine steps of its own bring a creator to an end. */
  lemma {:induction false} NineStepsAreEnough(w: World, steps: seq<Step>, c: Creator)
    requires c in w.creators && w.creators[c].Looking?
    ensures c in Run(w, steps).creators
    ensures MovesOf(steps, c) >= 9 ==> StepsLeft(Run(w, steps).creators[c]) == 0
    ensures MovesOf(steps, c) <= 9 ==> StepsLeft(Run(w, steps).creators[c]) <= 9 - MovesOf(steps, c)
    decreases |steps|
  {
    if steps != [] { NineStepsAreEnough(w, steps[..|steps| - 1], c); }
  }

  // ----- two schedules -------------------------------------------------------------------------------

  /** The run so far left the disk at d and creator c in phase p, and no discard happened. */
  ghost predicate Brings(w: World, steps: seq<Step>, d: Disk, c: Creator, p: Phase) {
    NoDiscards(steps) && Run(w, steps) == World(d, w.creators[c := p])
  }

  lemma MoveOn(w: World, steps: seq<Step>, d: Disk, c: Creator, p: Phase) returns (more: seq<Step>)
    requires Brings(w, steps, d, c, p)
    ensures Brings(w, more, Next(d, p).0, c, Next(d, p).1)
  {
    RunOneMore(w, steps, Move(c));
    assert w.creators[c := p][c := Next(d, p).1] == w.creators[c := Next(d, p).1];
    more := steps + [Move(c)];
  }

  lemma ComeIn(w: World, c: Creator) returns (steps: seq<Step>)
    requires c !in w.creators
    ensures Brings(w, steps, w.disk, c, Looking)
  {
    RunOneMore(w, [], Arrive(c));
    steps := [Arrive(c)];
    assert [] + steps == steps;
  }

  /** With nothing there, four steps take a newcomer past `git worktree add`. */
  lemma FirstComer(w: World, c: Creator) returns (steps: seq<Step>)
    requires c !in w.creators && ActiveFor(w.disk.rows).None? && !Blocked(w.disk)
    ensures Brings(w, steps, Added(w.disk), c, Inserting)
  {
    steps := ComeIn(w, c);
    steps := MoveOn(w, steps, w.disk, c, Looking);
    steps := MoveOn(w, steps, w.disk, c, CheckingRow(1));
    steps := MoveOn(w, steps, w.disk, c, CheckingPath(1));
    steps := MoveOn(w, steps, w.disk, c, Adding(1));
  }

  /** Seven steps make a newcomer give up if all the while the directory is there and no row is. */
  lemma LateComer(w: World, c: Creator) returns (steps: seq<Step>)
    requires c !in w.creators && ActiveFor(w.disk.rows).None? && w.disk.dir
    ensures Brings(w, steps, w.disk, c, GaveUp)
  {
    var d := w.disk;
    steps := ComeIn(w, c);
    steps := MoveOn(w, steps, d, c, Looking);
    steps := MoveOn(w, steps, d, c, CheckingRow(1));
    steps := MoveOn(w, steps, d, c, CheckingPath(1));
    steps := MoveOn(w, steps, d, c, Reloading(1));
    steps := MoveOn(w, steps, d, c, CheckingRow(0));
    steps := MoveOn(w, steps, d, c, CheckingPath(0));
    steps := MoveOn(w, steps, d, c, Reloading(0));
  }

  /** The documentation promises no spurious failures; yet whenever the task has no worktree, a second
      creator can fail both its tries although the first one goes on to succeed. */
  lemma {:induction false} ALoserCanFailSpuriously(w: World, c: Creator, d: Creator)
    returns (steps: seq<Step>)
    requires ActiveFor(w.disk.rows).None? && !Blocked(w.disk)
    requires c !in w.creators && d !in w.creators && c != d
    ensures NoDiscards(steps)
    ensures Run(w, steps).creators == w.creators[c := Finished(|w.disk.rows|)][d := GaveUp]
  {
    var a := FirstComer(w, c);
    var w1 := Run(w, a);
    var b := LateComer(w1, d);
    RunSplit(w, a, b);
    RunOneMore(w, a + b, Move(c));
    steps := a + b + [Move(c)];
  }

  /** The run so far, all its discards current, has led to this disk and these phases. */
  ghost predicate Leads(w: World, steps: seq<Step>, d: Disk, m: map<Creator, Phase>) {
    DiscardsAreCurrent(w, steps) && Run(w, steps) == World(d, m)
  }

  lemma RunOn(w: World, steps: seq<Step>, s: Step) returns (more: seq<Step>)
    requires DiscardsAreCurrent(w, steps)
    requires s.Discard? && s.id < |Run(w, steps).disk.rows| ==>
      Run(w, steps).disk.rows[s.id].Active? || !Run(w, steps).disk.branch
    ensures DiscardsAreCurrent(w, more) && Run(w, more) == Apply(Run(w, steps), s)
  {
    more := steps + [s];
    assert more[..|more| - 1] == steps;
  }

  lemma Moves(w: World, steps: seq<Step>, d: Disk, m: map<Creator, Phase>, c: Creator, p: Phase)
    returns (more: seq<Step>)
    requires Leads(w, steps, d, m) && c in m && m[c] == p
    ensures Leads(w, more, Next(d, p).0, m[c := Next(d, p).1])
  {
    more := RunOn(w, steps, Move(c));
  }

  lemma Discards(w: World, steps: seq<Step>, d: Disk, m: map<Creator, Phase>, id: RowId) returns (more: seq<Step>)
    requires Leads(w, steps, d, m) && id < |d.rows| && d.rows[id].Active?
    ensures Leads(w, more, Disk(d.rows[id := Discarded], false, false), m)
  {
    more := RunOn(w, steps, Discard(id));
  }

  /** A newcomer makes the worktree from start to finish, undisturbed. */
  lemma MakeOne(w: World, steps: seq<Step>, d: Disk, m: map<Creator, Phase>, c: Creator) returns (more: seq<Step>)
    requires Leads(w, steps, d, m) && c !in m && ActiveFor(d.rows).None? && !Blocked(d)
    ensures Leads(w, more, Inserted(Added(d)), m[c := Finished(|d.rows|)])
  {
    more := RunOn(w, steps, Arrive(c));
    more := Moves(w, more, d, m[c := Looking], c, Looking);
    more := Again(w, more, d, m, c, Looking, CheckingRow(1));
    more := Again(w, more, d, m, c, CheckingRow(1), CheckingPath(1));
    more := Again(w, more, d, m, c, CheckingPath(1), Adding(1));
    more := Again(w, more, Added(d), m, c, Adding(1), Inserting);
    assert m[c := Inserting][c := Finished(|d.rows|)] == m[c := Finished(|d.rows|)];
  }

  /** The creator's next step, its phases so far written as one. */
  lemma Again(w: World, steps: seq<Step>, d: Disk, m: map<Creator, Phase>, c: Creator, p: Phase, q: Phase)
    returns (more: seq<Step>)
    requires Leads(w, steps, d, m[c := p][c := q])
    ensures Leads(w, more, Next(d, q).0, m[c := q][c := Next(d, q).1])
  {
    assert m[c := p][c := q] == m[c := q];
    more := Moves(w, steps, d, m[c := q], c, q);
  }

  /** With discards in between, each of them of the active row, a creator can fail both its tries while
      nobody else is in flight at the end: two others each made a worktree that was discarded again. */
  lemma {:induction false} DiscardsCanDefeatACreator() returns (steps: seq<Step>)
    ensures DiscardsAreCurrent(FRESH, steps)
    ensures var w := Run(FRESH, steps);
            0 in w.creators && w.creators[0] == GaveUp && InFlight(w.creators) == {} && !w.disk.branch
  {
    var none, first := Disk([], false, false), Disk([Discarded], false, false);
    steps := RunOn(FRESH, [], Arrive(0));
    steps := Moves(FRESH, steps, none, map[0 := Looking], 0, Looking);
    steps := DiscardedMeanwhile(FRESH, steps, none, map[0 := CheckingRow(1)], 1, 1);
    var m := map[0 := CheckingRow(1), 1 := Finished(0)][0 := Reloading(1)];
    steps := Moves(FRESH, steps, first, m, 0, Reloading(1));
    steps := DiscardedMeanwhile(FRESH, steps, first, m[0 := CheckingRow(0)], 2, 0);
    var m2 := m[0 := CheckingRow(0)][2 := Finished(1)][0 := Reloading(0)];
    steps := Moves(FRESH, steps, Disk([Discarded, Discarded], false, false), m2, 0, Reloading(0));
  }

  /** While creator 0 is about to check for a row, another makes one and sees it discarded after the check. */
  lemma DiscardedMeanwhile(w: World, steps: seq<Step>, d: Disk, m: map<Creator, Phase>, c: Creator, left: nat)
    returns (more: seq<Step>)
    requires Leads(w, steps, d, m) && c !in m && c != 0 && ActiveFor(d.rows).None? && !Blocked(d)
    requires 0 in m && m[0] == CheckingRow(left)
    ensures Leads(w, more, Disk(d.rows + [Discarded], false, false), m[c := Finished(|d.rows|)][0 := Reloading(left)])
  {
    more := MakeOne(w, steps, d, m, c);
    var d1, m1 := Inserted(Added(d)), m[c := Finished(|d.rows|)];
    assert ActiveFor(d1.rows) == Some(|d.rows|);
    more := Moves(w, more, d1, m1, 0, CheckingRow(left));
    more := Discards(w, more, d1, m1[0 := Reloading(left)], |d.rows|);
    assert d1.rows[|d.rows| := Discarded] == d.rows + [Discarded];
  }

  /** Discarding an old row at the wrong moment lets a second creator in: from any resting state with
      a discarded row, two new creators can both end up with an active row of their own. */
  lemma {:induction false} AStaleDiscardBreaksTheLock(w: World, id: RowId, c: Creator, d: Creator)
    returns (steps: seq<Step>)
    requires id < |w.disk.rows| && ActiveFor(w.disk.rows).None? && !Blocked(w.disk)
    requires c !in w.creators && d !in w.creators && c != d
    ensures Run(w, steps).disk.rows == w.disk.rows + [Active, Active]
  {
    assert w.disk.rows[id] == Discarded;
    var a := FirstComer(w, c);
    var w2 := Apply(Run(w, a), Discard(id));
    assert w2.disk == w.disk;
    RunOneMore(w, a, Discard(id));
    var b := FirstComer(w2, d);
    RunOneMore(w2, b, Move(c));
    RunOneMore(w2, b + [Move(c)], Move(d));
    RunSplit(w, a + [Discard(id)], b + [Move(c)] + [Move(d)]);
    steps := a + [Discard(id)] + (b + [Move(c)] + [Move(d)]);
  }

  // ----- one creator alone ---------------------------------------------------------------------------

  /** What a creator that nobody disturbs is given, and the disk afterwards. */
  function Alone(d: Disk): (Disk, Option<RowId>) {
    if ActiveFor(d.rows).Some? then (d, ActiveFor(d.rows))
    else if Blocked(d) then (d, None)
    else (Inserted(Added(d)), Some(|d.rows|))
  }

  /** A creator's steps with nobody in between. */
  function NextTimes(d: Disk, p: Phase, n: nat): (Disk, Phase)
    decreases n
  {
    if n == 0 then (d, p) else NextTimes(Next(d, p).0, Next(d, p).1, n - 1)
  }

  /** Undisturbed, the protocol ends with that answer, in nine steps at most. */
  lemma {:induction false} AloneIsAnUndisturbedRun(d: Disk)
    ensures NextTimes(d, Looking, 9) ==
            (Alone(d).0, match Alone(d).1 case Some(r) => Finished(r) case None => GaveUp)
  {
    if ActiveFor(d.rows).Some? {
      Rests(d, Finished(ActiveFor(d.rows).value), 8);
    } else if !Blocked(d) {
      Rests(Inserted(Added(d)), Finished(|d.rows|), 4);
      assert NextTimes(Added(d), Inserting, 5) == (Inserted(Added(d)), Finished(|d.rows|));
      assert NextTimes(d, CheckingPath(1), 7) == NextTimes(Added(d), Inserting, 5);
    }
  }

  /** One try with nobody in between: it ends at the first of the three things in its way, and adds the
      worktree when there is none. */
  lemma {:induction false} OneTry(d: Disk, left: nat)
    ensures NextTimes(d, CheckingRow(left), if ActiveFor(d.rows).Some? then 1 else if d.dir then 2 else 3) ==
            if ActiveFor(d.rows).Some? || Blocked(d) then (d, Reloading(left)) else (Added(d), Inserting)
    ensures NextTimes(d, CheckingRow(left), 1).1.Reloading? <==> ActiveFor(d.rows).Some?
    ensures ActiveFor(d.rows).None? ==> (NextTimes(d, CheckingRow(left), 2).1.Reloading? <==> d.dir)
  {
  }

  /** Once a creator has its answer, further steps change nothing. */
  lemma {:induction false} Rests(d: Disk, p: Phase, n: nat)
    requires StepsLeft(p) == 0
    ensures NextTimes(d, p, n) == (d, p)
  {
    if n > 0 { Rests(d, p, n - 1); }
  }

  /** Discarding the active row and asking again gives a new worktree with a new row, so the discard
      undoes the create as far as branch and directory go. */
  lemma {:induction false} DiscardThenRecreate(d: Disk, id: RowId)
    requires Mutex(World(d, map[])) && ActiveFor(d.rows) == Some(id)
    ensures Alone(DiscardedRow(d, id)) == (d.(rows := d.rows[id := Discarded] + [Active]), Some(|d.rows|))
  {
    CountAfterUpdate(d.rows, id);
    NoneActiveIffZero(d.rows);
    NoneActiveIffZero(d.rows[id := Discarded]);
    assert InFlight(map[]) == {};
  }

  datatype CreateError = DirtyWorktree | GitOperation

  datatype Created = Made(row: RowId) | Refused(error: CreateError)

  /** The manager working on one task's rows, branch and directory. */
  class WorktreeManager {
    var rows: seq<RowStatus>
    var branch: bool
    var dir: bool

    constructor ()
      ensures Contents() == FRESH.disk
    {
      rows, branch, dir := [], false, false;
    }

    ghost function Contents(): (d: Disk)
      reads this
    {
      Disk(rows, branch, dir)
    }

    method Create() returns (r: Created)
      modifies this
      ensures r.Made? <==> ActiveFor(old(rows)).None? && !Blocked(old(Contents()))
      ensures r.Made? ==> r.row == |old(rows)| && Contents() == Inserted(Added(old(Contents())))
      ensures r.Refused? ==> Contents() == old(Contents())
      ensures r == Refused(GitOperation) <==> ActiveFor(old(rows)).None? && !old(dir) && old(branch)
    {
      if ActiveFor(rows).Some? { return Refused(DirtyWorktree); }
      if dir { return Refused(DirtyWorktree); }
      if branch || dir { return Refused(GitOperation); }
      branch, dir := true, true;
      rows := rows + [Active];
      return Made(|rows| - 1);
    }

    method DiscardRow(id: RowId) returns (found: bool)
      modifies this
      ensures found <==> id < |old(rows)|
      ensures Contents() == DiscardedRow(old(Contents()), id)
    {
      if id >= |rows| { return false; }
      branch, dir := false, false;
      rows := rows[id := Discarded];
      return true;
    }

    /** Look, then at most two tries to create, with a reload after each failure. None is the raised
        error, after two tries: a branch or a directory is there and no active row. */
    method GetOrCreate() returns (r: Option<RowId>, tries: nat)
      modifies this
      ensures (Contents(), r) == Alone(old(Contents()))
      ensures r.None? <==> ActiveFor(old(rows)).None? && Blocked(old(Contents()))
      ensures r.Some? ==> r == ActiveFor(rows)
      ensures tries == if ActiveFor(old(rows)).Some? then 0 else if r.Some? then 1 else 2
    {
      tries := 0;
      r := ActiveFor(rows);
      if r.Some? { return r, tries; }
      for attempt := 0 to 2
        invariant Contents() == old(Contents()) && ActiveFor(rows).None?
        invariant attempt > 0 ==> Blocked(Contents())
        invariant tries == attempt
      {
        tries := tries + 1;
        var c := Create();
        if c.Made? { return Some(c.row), tries; }
        r := ActiveFor(rows);
        if r.Some? { return r, tries; }
      }
      return None, tries;
    }
  }
}
