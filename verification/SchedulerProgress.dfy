/**
 What a tick that survives achieves in any interleaving, and exactly when a paused plan can never
 move again.
 */
module SchedulerProgress {
  import opened Outcomes
  import opened Calendar
  import opened SchedulerProtocol

  // ---------------------------------------------------------------------------
  // A surviving tick has dealt with every row it listed
  // ---------------------------------------------------------------------------

  ghost predicate Alive(run: Run, t: nat, a: nat, b: nat) {
    forall i :: a <= i <= b < |run.states| ==> t in run.states[i].tickers
  }

  ghost predicate Lines(s: State, t: nat, r: Row) {
    t in s.tickers && r in s.tickers[t].queue
  }

  /** How ticker t can be done with row r: not due, already there, or advanced. */
  ghost predicate DoneWith(s: State, s': State, t: nat, r: Row)
    requires t in s.tickers
  {
    var k := s.tickers[t];
    || (k.pass.ActivePass? && !Due(r.plan, k.today))
    || (k.pass.PausedPass? && Has(s.occs, r.id, r.plan.next))
    || (r.id in s.plans && r.id in s'.plans && s.plans[r.id] == r.plan && s'.plans[r.id] == Advanced(r.plan))
  }

  lemma RowLeavesQueue(s: State, l: Label, s': State, t: nat, r: Row)
    requires Inv(s) && Step(s, l, s') && Lines(s, t, r) && t in s'.tickers && !Lines(s', t, r)
    ensures DoneWith(s, s', t, r)
  {
    var k := s.tickers[t];
    assert k.queue == [k.queue[0]] + k.queue[1..];
    assert s'.tickers[t] == NextRow(k) && r == k.queue[0];
    assert Older(r, s.plans) && Selected(r, k);
  }

  lemma RowStaysInQueue(s: State, l: Label, s': State, t: nat, r: Row)
    requires Step(s, l, s') && Lines(s, t, r) && Lines(s', t, r)
    ensures s'.tickers[t].pass == s.tickers[t].pass && s'.tickers[t].today == s.tickers[t].today
  {
  }

  lemma {:induction false} RowLeavesSomewhere(states: seq<State>, a: nat, b: nat, t: nat, r: Row) returns (i: nat)
    requires a <= b < |states| && Lines(states[a], t, r) && !Lines(states[b], t, r)
    ensures a <= i < b && !Lines(states[i + 1], t, r)
    ensures forall j :: a <= j <= i ==> Lines(states[j], t, r)
    decreases b - a
  {
    if Lines(states[a + 1], t, r) {
      i := RowLeavesSomewhere(states, a + 1, b, t, r);
    } else {
      i := a;
    }
  }

  lemma {:induction false} PassStays(run: Run, a: nat, i: nat, t: nat, r: Row)
    requires IsStretch(run) && a <= i < |run.states|
    requires Lines(run.states[a], t, r) && Lines(run.states[i], t, r)
    requires forall j :: a <= j <= i ==> Lines(run.states[j], t, r)
    ensures run.states[i].tickers[t].pass == run.states[a].tickers[t].pass
    ensures run.states[i].tickers[t].today == run.states[a].tickers[t].today
  {
    if a < i {
      PassStays(run, a, i - 1, t, r);
      RowStaysInQueue(run.states[i - 1], run.labels[i - 1], run.states[i], t, r);
    }
  }

  lemma SurvivorIsDone(run: Run, a: nat, b: nat, t: nat, r: Row) returns (i: nat)
    requires IsStretch(run) && Inv(run.states[0]) && a <= b < |run.states| && Alive(run, t, a, b)
    requires Lines(run.states[a], t, r) && !Lines(run.states[b], t, r)
    ensures a <= i < b && t in run.states[i].tickers && DoneWith(run.states[i], run.states[i + 1], t, r)
    ensures run.states[i].tickers[t].pass == run.states[a].tickers[t].pass
    ensures run.states[i].tickers[t].today == run.states[a].tickers[t].today
  {
    i := RowLeavesSomewhere(run.states, a, b, t, r);
    PassStays(run, a, i, t, r);
    StretchKeepsInv(run, i);
    RowLeavesQueue(run.states[i], run.labels[i], run.states[i + 1], t, r);
  }

  /**
   In any interleaving: once a tick that is still alive no longer lists a row, the plan has left
   the row's date behind, unless the row was not due in the first pass or its occurrence was found
   in the second.
   */
  lemma SurvivorMovesPlan(run: Run, a: nat, b: nat, t: nat, r: Row)
    requires IsStretch(run) && Inv(run.states[0]) && a <= b < |run.states| && Alive(run, t, a, b)
    requires Lines(run.states[a], t, r) && !Lines(run.states[b], t, r)
    ensures
      var k := run.states[a].tickers[t];
      || DayNumber(r.plan.next) < DueDay(run.states[b], r.id)
      || (k.pass.ActivePass? && !Due(r.plan, k.today))
      || (k.pass.PausedPass? && Has(run.states[b].occs, r.id, r.plan.next))
  {
    var i := SurvivorIsDone(run, a, b, t, r);
    OccurrencesPersist(run, i, b);
    if Has(run.states[i].occs, r.id, r.plan.next) {
      HasPersists(run.states[i].occs, run.states[b].occs, r.id, r.plan.next);
    }
    DueDateNeverGoesBack(run, i + 1, b, r.id);
  }

  // ---------------------------------------------------------------------------
  // Paused plans
  // ---------------------------------------------------------------------------

  /** Some tick has the stored plan at its head, past the creation of the occurrence. */
  ghost predicate AboutToAdvance(s: State, id: nat) {
    exists t :: t in s.tickers && Heads(s.tickers[t], id, s)
  }

  ghost predicate Heads(k: Ticker, id: nat, s: State) {
    k.point == AtAdvance && k.queue != [] && id in s.plans && k.queue[0] == Row(id, s.plans[id])
  }

  /** A paused plan whose due date has its occurrence, with no tick about to advance it. */
  ghost predicate Stuck(s: State, id: nat) {
    id in s.plans && !s.plans[id].active && Has(s.occs, id, s.plans[id].next) && !AboutToAdvance(s, id)
  }

  predicate Edits(l: Label, id: nat) {
    l.EditPlan? && l.read.id == id
  }

  lemma StuckPlanIsUnchanged(s: State, l: Label, s': State, id: nat)
    requires Inv(s) && Stuck(s, id) && Step(s, l, s') && !Edits(l, id)
    ensures id in s'.plans && s'.plans[id] == s.plans[id]
  {
    if l.Advance? && s'.plans != s.plans {
      var k := s.tickers[l.t];
      assert k.queue[0] in k.queue && Older(k.queue[0], s.plans);
      assert !Heads(k, id, s);
    }
  }

  lemma NobodyGetsToAdvance(s: State, l: Label, s': State, id: nat, t: nat)
    requires Inv(s) && Stuck(s, id) && Step(s, l, s') && !Edits(l, id) && t in s'.tickers
    ensures !Heads(s'.tickers[t], id, s')
  {
    StuckPlanIsUnchanged(s, l, s', id);
    if t in s.tickers {
      var k := s.tickers[t];
      assert !Heads(k, id, s);
      assert k.queue != [] ==> k.queue[0] in k.queue && Selected(k.queue[0], k);
    }
  }

  lemma StuckStep(s: State, l: Label, s': State, id: nat)
    requires Inv(s) && Stuck(s, id) && Step(s, l, s') && !Edits(l, id)
    ensures Stuck(s', id) && s'.plans[id] == s.plans[id]
  {
    StuckPlanIsUnchanged(s, l, s', id);
    StepGrows(s, l, s');
    HasPersists(s.occs, s'.occs, id, s.plans[id].next);
    forall t | t in s'.tickers
      ensures !Heads(s'.tickers[t], id, s')
    {
      NobodyGetsToAdvance(s, l, s', id, t);
    }
  }

  /**
   A stuck plan never changes again until somebody edits it, whatever ticks run, crash or
   interleave.
   */
  lemma {:induction false} StuckPlanNeverMoves(run: Run, i: nat, j: nat, id: nat)
    requires IsStretch(run) && Inv(run.states[0]) && i <= j < |run.states| && Stuck(run.states[i], id)
    requires forall k :: i <= k < j ==> !Edits(run.labels[k], id)
    ensures Stuck(run.states[j], id) && run.states[j].plans[id] == run.states[i].plans[id]
  {
    if i < j {
      StuckPlanNeverMoves(run, i, j - 1, id);
      StretchKeepsInv(run, j - 1);
      StuckStep(run.states[j - 1], run.labels[j - 1], run.states[j], id);
    }
  }

  // ---------------------------------------------------------------------------
  // A paused plan that is not stuck can be moved by a tick
  // ---------------------------------------------------------------------------

  /** `run` leads from s to s' without an edit of the plan. */
  ghost predicate Connects(run: Run, s: State, s': State, id: nat) {
    && IsStretch(run) && run.states[0] == s && run.states[|run.labels|] == s'
    && forall i :: 0 <= i < |run.labels| ==> !Edits(run.labels[i], id)
  }

  ghost predicate Reaches(s: State, s': State, id: nat) {
    exists run :: Connects(run, s, s', id)
  }

  lemma ReachesItself(s: State, id: nat)
    ensures Reaches(s, s, id)
  {
    assert Connects(Run([s], []), s, s, id);
  }

  lemma ReachesOn(s: State, m: State, l: Label, s': State, id: nat)
    requires Reaches(s, m, id) && Step(m, l, s') && !Edits(l, id)
    ensures Reaches(s, s', id)
  {
    var run :| Connects(run, s, m, id);
    var run' := Run(run.states + [s'], run.labels + [l]);
    forall i | 0 <= i < |run'.labels|
      ensures Step(run'.states[i], run'.labels[i], run'.states[i + 1])
    {
      if i < |run.labels| {
        assert Step(run.states[i], run.labels[i], run.states[i + 1]);
      }
    }
    assert Connects(run', s, s', id);
  }

  lemma {:induction false} FreshTicker(used: set<nat>) returns (t: nat)
    ensures forall u :: u in used ==> u < t
    decreases |used|
  {
    if used == {} {
      t := 0;
    } else {
      var u :| u in used;
      var rest := FreshTicker(used - {u});
      t := if u < rest then rest else u + 1;
      assert forall x :: x in used ==> x == u || x in used - {u};
    }
  }

  /** A query may return its rows in any order, so any matching row first. */
  lemma ListingFrom(plans: map<nat, Plan>, filter: Plan -> bool, first: seq<Row>) returns (queue: seq<Row>)
    requires |first| <= 1 && forall r :: r in first ==> r.id in plans && plans[r.id] == r.plan && filter(r.plan)
    ensures Lists(queue, plans, filter) && first <= queue
  {
    queue := first;
    var todo := set p | p in plans && filter(plans[p]) && Row(p, plans[p]) !in first;
    while todo != {}
      invariant first <= queue
      invariant todo <= plans.Keys && forall p :: p in todo ==> filter(plans[p])
      invariant forall i, j :: 0 <= i < j < |queue| ==> queue[i].id != queue[j].id
      invariant forall i :: 0 <= i < |queue| ==> queue[i].id !in todo
      invariant forall r :: r in queue ==> r.id in plans && plans[r.id] == r.plan && filter(r.plan)
      invariant forall p :: p in plans && filter(plans[p]) && p !in todo ==> Row(p, plans[p]) in queue
      decreases |todo|
    {
      var p :| p in todo;
      queue := queue + [Row(p, plans[p])];
      todo := todo - {p};
    }
    forall r: Row | r.id in plans && plans[r.id] == r.plan && filter(r.plan)
      ensures r in queue
    {
      assert r == Row(r.id, plans[r.id]);
    }
  }

  /** The rows of the queue are as stored, each plan once, and `id` is not among them. */
  ghost predicate Current(queue: seq<Row>, plans: map<nat, Plan>, id: nat) {
    && (forall i, j :: 0 <= i < j < |queue| ==> queue[i].id != queue[j].id)
    && (forall r :: r in queue ==> r.id != id && r.id in plans && plans[r.id] == r.plan)
  }

  /** Plan `id` is as in s0 and its due date has no occurrence. */
  ghost predicate Untouched(s0: State, s: State, id: nat) {
    id in s0.plans && id in s.plans && s.plans[id] == s0.plans[id] && !Has(s.occs, id, s0.plans[id].next)
  }

  ghost predicate Draining(s0: State, s: State, t: nat, id: nat, k: Ticker) {
    && Reaches(s0, s, id) && Untouched(s0, s, id)
    && t in s.tickers && s.tickers[t] == k && k.pass == ActivePass && Current(k.queue, s.plans, id)
  }

  lemma AdvanceDrains(s0: State, s: State, t: nat, id: nat, k: Ticker) returns (s': State)
    requires Draining(s0, s, t, id, k) && k.queue != [] && k.point == AtAdvance
    ensures Draining(s0, s', t, id, NextRow(k))
  {
    var r := k.queue[0];
    assert r in k.queue;
    s' := s.(plans := s.plans[r.id := Advanced(r.plan)], tickers := s.tickers[t := NextRow(k)]);
    ReachesOn(s0, s, Label.Advance(t), s', id);
    forall x | x in k.queue[1..]
      ensures x.id != r.id && x in k.queue
    {
      var i :| 0 <= i < |k.queue[1..]| && k.queue[1..][i] == x;
      assert k.queue[i + 1] == x;
    }
  }

  lemma CreateDrains(s0: State, s: State, t: nat, id: nat, k: Ticker) returns (s': State)
    requires Draining(s0, s, t, id, k) && k.queue != [] && k.point == AtCreate
    requires !Has(s.occs, k.queue[0].id, k.queue[0].plan.next)
    ensures Draining(s0, s', t, id, NextRow(k))
  {
    var r := k.queue[0];
    assert r in k.queue;
    var o := Occurrence(r.id, r.plan.next, NewStatus(k, r.plan), r.plan.version);
    var m := s.(occs := s.occs + [o], tickers := s.tickers[t := k.(point := AtAdvance)]);
    ReachesOn(s0, s, Label.CreateOccurrence(t), m, id);
    s' := AdvanceDrains(s0, m, t, id, k.(point := AtAdvance));
  }

  lemma RowDrains(s0: State, s: State, t: nat, id: nat, k: Ticker) returns (s': State)
    requires Draining(s0, s, t, id, k) && k.queue != [] && k.point == AtFind
    ensures Draining(s0, s', t, id, NextRow(k))
  {
    var found := Found(k, s.occs);
    var m := s.(tickers := s.tickers[t := found]);
    ReachesOn(s0, s, Label.Find(t), m, id);
    if found.point == AtCreate {
      s' := CreateDrains(s0, m, t, id, found);
    } else if found.point == AtAdvance {
      s' := AdvanceDrains(s0, m, t, id, found);
    } else {
      assert forall x :: x in k.queue[1..] ==> x in k.queue;
      s' := m;
    }
  }

  lemma {:induction false} ActivePassDrains(s0: State, s: State, t: nat, id: nat, k: Ticker) returns (s': State)
    requires Draining(s0, s, t, id, k) && k.point == AtFind
    ensures Draining(s0, s', t, id, k.(queue := []))
    decreases |k.queue|
  {
    if k.queue == [] {
      s' := s;
    } else {
      var m := RowDrains(s0, s, t, id, k);
      s' := ActivePassDrains(s0, m, t, id, NextRow(k));
    }
  }

  /** The paused pass creates the missing occurrence of its first row and moves the plan. */
  lemma PausedPassMoves(s0: State, s: State, t: nat, id: nat, k: Ticker) returns (s': State)
    requires Draining(s0, s, t, id, k) && k.queue == [] && !s0.plans[id].active && Due(s0.plans[id], k.today)
    ensures Reaches(s0, s', id) && id in s'.plans && s'.plans[id] == Advanced(s0.plans[id])
  {
    var r := Row(id, s.plans[id]);
    var queue := ListingFrom(s.plans, PausedAndDue(k.today), [r]);
    assert queue[0] == r;
    var k1 := Ticker(k.today, PausedPass, AtFind, queue);
    var s1 := s.(tickers := s.tickers[t := k1]);
    ReachesOn(s0, s, Label.StartPaused(t, queue), s1, id);
    var s2 := s1.(tickers := s1.tickers[t := k1.(point := AtCreate)]);
    ReachesOn(s0, s1, Label.Find(t), s2, id);
    var o := Occurrence(id, r.plan.next, NewStatus(k1, r.plan), r.plan.version);
    var s3 := s2.(occs := s2.occs + [o], tickers := s2.tickers[t := k1.(point := AtAdvance)]);
    ReachesOn(s0, s2, Label.CreateOccurrence(t), s3, id);
    s' := s3.(plans := s3.plans[id := Advanced(r.plan)], tickers := s3.tickers[t := NextRow(k1)]);
    ReachesOn(s0, s3, Label.Advance(t), s', id);
  }

  lemma MissingOccurrenceCanBeMade(s: State, id: nat) returns (s': State)
    requires id in s.plans && !s.plans[id].active && !Has(s.occs, id, s.plans[id].next)
    ensures Reaches(s, s', id) && id in s'.plans && s'.plans[id] == Advanced(s.plans[id])
  {
    ReachesItself(s, id);
    var t := FreshTicker(s.tickers.Keys);
    assert t !in s.tickers;
    var rows := ListingFrom(s.plans, ActiveFixed(), []);
    var k := Ticker(DayNumber(s.plans[id].next), ActivePass, AtFind, rows);
    var s1 := s.(tickers := s.tickers[t := k]);
    ReachesOn(s, s, Label.StartTick(t, k), s1, id);
    var s2 := ActivePassDrains(s, s1, t, id, k);
    s' := PausedPassMoves(s, s2, t, id, k.(queue := []));
  }

  lemma PendingAdvanceCanCommit(s: State, id: nat) returns (s': State)
    requires AboutToAdvance(s, id)
    ensures Reaches(s, s', id) && id in s'.plans && s'.plans[id] == Advanced(s.plans[id])
  {
    var t :| t in s.tickers && Heads(s.tickers[t], id, s);
    s' := s.(plans := s.plans[id := Advanced(s.plans[id])], tickers := s.tickers[t := NextRow(s.tickers[t])]);
    ReachesItself(s, id);
    ReachesOn(s, s, Label.Advance(t), s', id);
  }

  /**
   A paused plan can never be moved again without an edit exactly when its due date already has an
   occurrence and no tick is about to advance it; otherwise some tick can still move it.
   */
  lemma PausedPlanIsStuckIff(s: State, id: nat)
    requires Inv(s) && id in s.plans && !s.plans[id].active
    ensures Has(s.occs, id, s.plans[id].next) && !AboutToAdvance(s, id)
       <==> forall s' :: Reaches(s, s', id) ==> id in s'.plans && s'.plans[id] == s.plans[id]
  {
    if Stuck(s, id) {
      forall s' | Reaches(s, s', id)
        ensures id in s'.plans && s'.plans[id] == s.plans[id]
      {
        var run :| Connects(run, s, s', id);
        StuckPlanNeverMoves(run, 0, |run.labels|, id);
      }
    } else {
      var s';
      if AboutToAdvance(s, id) {
        s' := PendingAdvanceCanCommit(s, id);
      } else {
        s' := MissingOccurrenceCanBeMade(s, id);
      }
      assert Reaches(s, s', id) && s'.plans[id].version != s.plans[id].version;
    }
  }

  // ---------------------------------------------------------------------------
  // The stuck state is reached: a crash between create and advance, then a pause
  // ---------------------------------------------------------------------------

  function PlanOne(active: bool, version: nat): PlanRow {
    PlanRow(active, true, DAY, 1, Date(0, 1), version)
  }

  const FIRST := Occurrence(1, Date(0, 1), PLANNED, 1)

  function TickAt(point: Point): Ticker {
    Ticker(0, ActivePass, point, [Row(1, PlanOne(true, 1))])
  }

  ghost function CrashedRun(): Run {
    var p, q: map<nat, Plan> := map[1 := PlanOne(true, 1)], map[1 := PlanOne(false, 2)];
    var row := Row(1, PlanOne(true, 1));
    Run([State(map[], [], map[], {}),
         State(p, [], map[], {}),
         State(p, [], map[5 := TickAt(AtFind)], {}),
         State(p, [], map[5 := TickAt(AtCreate)], {}),
         State(p, [FIRST], map[5 := TickAt(AtAdvance)], {}),
         State(p, [FIRST], map[], {}),
         State(p, [FIRST], map[], {row}),
         State(q, [FIRST], map[], {row})],
        [CreatePlan(1, PlanOne(true, 1)), StartTick(5, TickAt(AtFind)), Label.Find(5), Label.CreateOccurrence(5), Crash(5),
         ReadPlan(1), EditPlan(row, Patch(None, None, Some(false)))])
  }

  lemma TickCreates()
    ensures
      var run := CrashedRun();
      && Step(run.states[0], run.labels[0], run.states[1])
      && Step(run.states[2], run.labels[2], run.states[3]) && Step(run.states[3], run.labels[3], run.states[4])
  {
    assert DayNumber(Date(0, 1)) == 0;
    assert [] + [FIRST] == [FIRST];
  }

  lemma TickStartsAndCrashes()
    ensures
      var run := CrashedRun();
      Step(run.states[1], run.labels[1], run.states[2]) && Step(run.states[4], run.labels[4], run.states[5])
  {
    assert Row(1, PlanOne(true, 1)) in TickAt(AtFind).queue;
  }

  lemma CrashThenPauseSticks()
    ensures IsRun(CrashedRun()) && Stuck(CrashedRun().states[7], 1)
  {
    var run := CrashedRun();
    TickCreates();
    TickStartsAndCrashes();
    assert {} + {Row(1, PlanOne(true, 1))} == {Row(1, PlanOne(true, 1))};
    assert Step(run.states[5], run.labels[5], run.states[6]);
    assert Step(run.states[6], run.labels[6], run.states[7]);
    assert FIRST in run.states[7].occs;
  }
}
