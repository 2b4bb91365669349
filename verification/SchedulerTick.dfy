/**
 The effect of one scheduler tick that nothing interrupts, plan by plan, and such a tick as one
 of the runs of the concurrent protocol.
 */
module SchedulerTick {
  import opened Calendar
  import opened SP = SchedulerProtocol

  // ---------------------------------------------------------------------------
  // Effect on one plan
  // ---------------------------------------------------------------------------

  /** What one tick does to a plan, given the occurrences before it. */
  ghost predicate Processed(id: nat, p: Plan, occs: seq<Occurrence>, today: nat) {
    Due(p, today) && if p.active then p.fixedBasis else !Has(occs, id, p.next)
  }

  ghost function AfterTick(id: nat, p: Plan, occs: seq<Occurrence>, today: nat): Plan {
    if Processed(id, p, occs, today) then Advanced(p) else p
  }

  /** The occurrence a tick creates for a plan. */
  function CreatedBy(id: nat, p: Plan, today: nat): Occurrence {
    Occurrence(id, p.next,
               if !p.active then SKIPPED else if DayNumber(p.next) < today then OVERDUE else PLANNED,
               p.version)
  }

  /** `o` is what a tick creates for a due plan that had no occurrence for its due date. */
  ghost predicate IsNew(o: Occurrence, p: Plan, occs: seq<Occurrence>, today: nat) {
    o == CreatedBy(o.plan, p, today) && Due(p, today) && !Has(occs, o.plan, p.next)
  }

  ghost predicate OnePerPlan(occs: seq<Occurrence>) {
    forall i, j :: 0 <= i < j < |occs| ==> occs[i].plan != occs[j].plan
  }

  /** One whole tick: each due plan gets its occurrence and is moved on, nothing else is touched. */
  ghost predicate TickEffect(plans: map<nat, Plan>, occs: seq<Occurrence>,
                             plans': map<nat, Plan>, occs': seq<Occurrence>, today: nat) {
    && plans'.Keys == plans.Keys
    && (forall p :: p in plans ==> plans'[p] == AfterTick(p, plans[p], occs, today))
    && occs <= occs'
    && OnePerPlan(occs'[|occs|..])
    && (forall o :: o in occs'[|occs|..] ==> o.plan in plans && IsNew(o, plans[o.plan], occs, today))
    && (forall p, d :: Has(occs', p, d) <==>
          (Has(occs, p, d) || (p in plans && plans[p].next == d && Processed(p, plans[p], occs, today))))
  }

  /** A new occurrence is PLANNED exactly when it is due today, OVERDUE when it was due earlier, SKIPPED for paused plans. */
  lemma NewStatusTellsDueDay(plans: map<nat, Plan>, occs: seq<Occurrence>, plans': map<nat, Plan>,
                             occs': seq<Occurrence>, today: nat, o: Occurrence)
    requires TickEffect(plans, occs, plans', occs', today) && o in occs'[|occs|..]
    ensures o.plan in plans && o.due == plans[o.plan].next && DayNumber(o.due) <= today
    ensures o.status == PLANNED <==> plans[o.plan].active && DayNumber(o.due) == today
    ensures o.status == OVERDUE <==> plans[o.plan].active && DayNumber(o.due) < today
    ensures o.status == SKIPPED <==> !plans[o.plan].active
    ensures DayNumber(o.due) < DayNumber(plans'[o.plan].next)
  {
    assert IsNew(o, plans[o.plan], occs, today);
    assert Has(occs', o.plan, o.due);
    assert plans'[o.plan] == AfterTick(o.plan, plans[o.plan], occs, today);
  }

  // ---------------------------------------------------------------------------
  // A tick alone is a run of the protocol
  // ---------------------------------------------------------------------------

  /** A step that ticks at one clock value take: nobody creates or edits a plan. */
  predicate TickLabel(l: Label, today: nat) {
    && !l.CreatePlan? && !l.ReadPlan? && !l.EditPlan?
    && (l.StartTick? ==> l.ticker.today == today)
  }

  /** Ticker 0 starts at this clock value and is alive from then on. */
  ghost predicate IsTrace(tr: Run, s: State, s': State, today: nat) {
    && IsStretch(tr) && tr.states[0] == s && tr.states[|tr.labels|] == s'
    && tr.labels != [] && tr.labels[0].StartTick? && tr.labels[0].t == 0 && tr.labels[0].ticker.today == today
    && (forall i :: 0 <= i < |tr.labels| ==> TickLabel(tr.labels[i], today))
    && (forall i :: 0 < i <= |tr.labels| ==> 0 in tr.states[i].tickers)
  }

  ghost predicate Leads(s: State, s': State, today: nat) {
    exists tr :: IsTrace(tr, s, s', today)
  }

  lemma LeadsOn(s: State, m: State, l: Label, s': State, today: nat)
    requires Leads(s, m, today) && Step(m, l, s') && TickLabel(l, today) && 0 in s'.tickers
    ensures Leads(s, s', today)
  {
    var tr :| IsTrace(tr, s, m, today);
    var tr' := Run(tr.states + [s'], tr.labels + [l]);
    forall i | 0 <= i < |tr'.labels|
      ensures Step(tr'.states[i], tr'.labels[i], tr'.states[i + 1])
    {
      if i < |tr.labels| {
        assert Step(tr.states[i], tr.labels[i], tr.states[i + 1]);
      }
    }
    assert IsTrace(tr', s, s', today);
  }

  ghost function Idle(plans: map<nat, Plan>, occs: seq<Occurrence>): State {
    State(plans, occs, map[], {})
  }

  ghost function Ticking(plans: map<nat, Plan>, occs: seq<Occurrence>, k: Ticker): State {
    State(plans, occs, map[0 := k], {})
  }

  lemma OneTicker(a: Ticker, b: Ticker)
    ensures map[0 := a][0 := b] == map[0 := b] && map[0 := a] - {0} == map[] && map[][0 := b] == map[0 := b]
  {
  }

  lemma FindStep(s: State, plans: map<nat, Plan>, occs: seq<Occurrence>, k: Ticker)
    requires Leads(s, Ticking(plans, occs, k), k.today) && k.point == AtFind && k.queue != []
    ensures Leads(s, Ticking(plans, occs, Found(k, occs)), k.today)
  {
    OneTicker(k, Found(k, occs));
    LeadsOn(s, Ticking(plans, occs, k), Label.Find(0), Ticking(plans, occs, Found(k, occs)), k.today);
  }

  lemma CreateStep(s: State, plans: map<nat, Plan>, occs: seq<Occurrence>, k: Ticker)
    requires Leads(s, Ticking(plans, occs, k), k.today) && k.point == AtCreate && k.queue != []
    requires !Has(occs, k.queue[0].id, k.queue[0].plan.next)
    requires k.pass.PausedPass? <==> !k.queue[0].plan.active
    ensures Leads(s, Ticking(plans, occs + [CreatedBy(k.queue[0].id, k.queue[0].plan, k.today)], k.(point := AtAdvance)), k.today)
  {
    OneTicker(k, k.(point := AtAdvance));
    LeadsOn(s, Ticking(plans, occs, k), Label.CreateOccurrence(0),
            Ticking(plans, occs + [CreatedBy(k.queue[0].id, k.queue[0].plan, k.today)], k.(point := AtAdvance)), k.today);
  }

  lemma AdvanceStep(s: State, plans: map<nat, Plan>, occs: seq<Occurrence>, k: Ticker)
    requires Leads(s, Ticking(plans, occs, k), k.today) && k.point == AtAdvance && k.queue != []
    requires k.queue[0].id in plans && plans[k.queue[0].id] == k.queue[0].plan
    ensures Leads(s, Ticking(plans[k.queue[0].id := Advanced(k.queue[0].plan)], occs, NextRow(k)), k.today)
  {
    OneTicker(k, NextRow(k));
    LeadsOn(s, Ticking(plans, occs, k), Label.Advance(0),
            Ticking(plans[k.queue[0].id := Advanced(k.queue[0].plan)], occs, NextRow(k)), k.today);
  }

  /** A tick at the end of its second pass. */
  function Finished(today: nat): Ticker {
    Ticker(today, PausedPass, AtFind, [])
  }

  // ---------------------------------------------------------------------------
  // The two passes over the plans
  // ---------------------------------------------------------------------------

  /** Row x of a pass stands for the date d of plan p and gets an occurrence. */
  ghost predicate Covers(x: Row, p: nat, d: Date, occs: seq<Occurrence>, today: nat) {
    x.id == p && x.plan.next == d && Processed(p, x.plan, occs, today)
  }

  ghost predicate Covered(rows: seq<Row>, p: nat, d: Date, occs: seq<Occurrence>, today: nat) {
    exists x :: x in rows && Covers(x, p, d, occs, today)
  }

  ghost predicate PlansDone(rows: seq<Row>, before: map<nat, Plan>, occsBefore: seq<Occurrence>,
                            plans: map<nat, Plan>, today: nat) {
    && plans.Keys == before.Keys
    && (forall r :: r in rows ==> r.id in plans && plans[r.id] == AfterTick(r.id, r.plan, occsBefore, today))
    && (forall p :: p in plans && (forall r :: r in rows ==> r.id != p) ==> plans[p] == before[p])
  }

  ghost predicate OccurrencesDone(rows: seq<Row>, before: map<nat, Plan>, occsBefore: seq<Occurrence>,
                                  occs: seq<Occurrence>, today: nat) {
    && occsBefore <= occs
    && (forall p, d :: Has(occs, p, d) <==> (Has(occsBefore, p, d) || Covered(rows, p, d, occsBefore, today)))
    && OnePerPlan(occs[|occsBefore|..])
    && (forall o :: o in occs[|occsBefore|..] ==>
          o.plan in before && Row(o.plan, before[o.plan]) in rows && IsNew(o, before[o.plan], occsBefore, today))
  }

  /** The effect of one pass over the plans in `rows`: these are processed, the others untouched. */
  ghost predicate PassDone(rows: seq<Row>, before: map<nat, Plan>, occsBefore: seq<Occurrence>,
                           plans: map<nat, Plan>, occs: seq<Occurrence>, today: nat) {
    && PlansDone(rows, before, occsBefore, plans, today)
    && OccurrencesDone(rows, before, occsBefore, occs, today)
  }

  ghost predicate DistinctIds(queue: seq<Row>) {
    forall j, k :: 0 <= j < k < |queue| ==> queue[j].id != queue[k].id
  }

  lemma EarlierRowsAreOthers(queue: seq<Row>, i: nat)
    requires i < |queue| && DistinctIds(queue)
    ensures forall x :: x in queue[..i] ==> x.id != queue[i].id
    ensures queue[..i + 1] == queue[..i] + [queue[i]]
  {
    forall x | x in queue[..i]
      ensures x.id != queue[i].id
    {
      var k :| 0 <= k < i && queue[..i][k] == x;
      assert queue[k] == x;
    }
  }

  lemma PlansStep(rows: seq<Row>, r: Row, before: map<nat, Plan>, occsBefore: seq<Occurrence>, plans: map<nat, Plan>, today: nat)
    requires PlansDone(rows, before, occsBefore, plans, today)
    requires forall x :: x in rows ==> x.id != r.id
    requires r.id in before
    ensures PlansDone(rows + [r], before, occsBefore, plans[r.id := AfterTick(r.id, r.plan, occsBefore, today)], today)
  {
    var plans' := plans[r.id := AfterTick(r.id, r.plan, occsBefore, today)];
    forall p | p in plans' && forall x :: x in rows + [r] ==> x.id != p
      ensures plans'[p] == before[p]
    {
      assert r in rows + [r];
      assert forall x :: x in rows ==> x in rows + [r];
    }
  }

  lemma CoveredStep(rows: seq<Row>, r: Row, p: nat, d: Date, occsBefore: seq<Occurrence>, today: nat)
    ensures Covered(rows + [r], p, d, occsBefore, today)
       <==> Covered(rows, p, d, occsBefore, today) || Covers(r, p, d, occsBefore, today)
  {
    assert r in rows + [r];
    if x :| x in rows && Covers(x, p, d, occsBefore, today) {
      assert x in rows + [r];
    }
  }

  lemma HasOneMore(occs: seq<Occurrence>, o: Occurrence, p: nat, d: Date)
    ensures Has(occs + [o], p, d) <==> Has(occs, p, d) || (o.plan == p && o.due == d)
  {
    HasGrows(occs, o, p, d);
  }

  lemma OccurrencesStep(rows: seq<Row>, r: Row, before: map<nat, Plan>, occsBefore: seq<Occurrence>,
                        occs: seq<Occurrence>, occs': seq<Occurrence>, today: nat)
    requires OccurrencesDone(rows, before, occsBefore, occs, today)
    requires forall x :: x in rows ==> x.id != r.id
    requires r.id in before && before[r.id] == r.plan
    requires occs' == if Processed(r.id, r.plan, occsBefore, today) && !Has(occs, r.id, r.plan.next)
                      then occs + [CreatedBy(r.id, r.plan, today)] else occs
    ensures OccurrencesDone(rows + [r], before, occsBefore, occs', today)
  {
    forall p, d
      ensures Has(occs', p, d) <==> (Has(occsBefore, p, d) || Covered(rows + [r], p, d, occsBefore, today))
    {
      CoveredStep(rows, r, p, d, occsBefore, today);
      HasOneMore(occs, CreatedBy(r.id, r.plan, today), p, d);
    }
    if occs' != occs {
      NewOccurrenceJoins(rows, r, before, occsBefore, occs, today);
    } else {
      assert forall x :: x in rows ==> x in rows + [r];
    }
  }

  lemma NewOccurrenceJoins(rows: seq<Row>, r: Row, before: map<nat, Plan>, occsBefore: seq<Occurrence>,
                           occs: seq<Occurrence>, today: nat)
    requires OccurrencesDone(rows, before, occsBefore, occs, today)
    requires forall x :: x in rows ==> x.id != r.id
    requires r.id in before && before[r.id] == r.plan
    requires Due(r.plan, today) && !Has(occs, r.id, r.plan.next)
    ensures
      var added := (occs + [CreatedBy(r.id, r.plan, today)])[|occsBefore|..];
      && OnePerPlan(added)
      && forall o :: o in added ==>
           o.plan in before && Row(o.plan, before[o.plan]) in rows + [r] && IsNew(o, before[o.plan], occsBefore, today)
  {
    var c := CreatedBy(r.id, r.plan, today);
    var old', added := occs[|occsBefore|..], (occs + [c])[|occsBefore|..];
    assert added == old' + [c];
    assert r in rows + [r] && r == Row(r.id, r.plan);
    assert !Has(occsBefore, r.id, r.plan.next);
    forall o | o in old'
      ensures o.plan != c.plan && Row(o.plan, before[o.plan]) in rows + [r]
    {
      assert Row(o.plan, before[o.plan]) in rows;
    }
    forall i, j | 0 <= i < j < |added|
      ensures added[i].plan != added[j].plan
    {
      assert old'[i] in old';
    }
  }

  ghost function DueRows(rows: seq<Row>, today: nat): set<Row> {
    set r | r in rows && Due(r.plan, today)
  }

  lemma OneMoreDue(queue: seq<Row>, i: nat, today: nat)
    requires i < |queue| && DistinctIds(queue)
    ensures |DueRows(queue[..i + 1], today)| == |DueRows(queue[..i], today)| + (if Due(queue[i].plan, today) then 1 else 0)
  {
    EarlierRowsAreOthers(queue, i);
    var a, b := DueRows(queue[..i], today), DueRows(queue[..i + 1], today);
    assert b == if Due(queue[i].plan, today) then a + {queue[i]} else a;
  }

  /** An unprocessed row's occurrence is found now exactly when it was there before the pass. */
  lemma LookupUnchanged(queue: seq<Row>, i: nat, before: map<nat, Plan>, occsBefore: seq<Occurrence>,
                        plans: map<nat, Plan>, occs: seq<Occurrence>, today: nat)
    requires i < |queue| && PassDone(queue[..i], before, occsBefore, plans, occs, today) && DistinctIds(queue)
    requires queue[i].id in before && before[queue[i].id] == queue[i].plan
    ensures Has(occs, queue[i].id, queue[i].plan.next) <==> Has(occsBefore, queue[i].id, queue[i].plan.next)
    ensures queue[i].id in plans && plans[queue[i].id] == queue[i].plan
  {
    EarlierRowsAreOthers(queue, i);
  }

  lemma PassStep(queue: seq<Row>, i: nat, before: map<nat, Plan>, occsBefore: seq<Occurrence>,
                 plans: map<nat, Plan>, occs: seq<Occurrence>, today: nat,
                 plans': map<nat, Plan>, occs': seq<Occurrence>)
    requires i < |queue| && PassDone(queue[..i], before, occsBefore, plans, occs, today) && DistinctIds(queue)
    requires queue[i].id in before && before[queue[i].id] == queue[i].plan
    requires plans' == plans[queue[i].id := AfterTick(queue[i].id, queue[i].plan, occsBefore, today)]
    requires occs' == if Processed(queue[i].id, queue[i].plan, occsBefore, today) && !Has(occs, queue[i].id, queue[i].plan.next)
                      then occs + [CreatedBy(queue[i].id, queue[i].plan, today)] else occs
    ensures PassDone(queue[..i + 1], before, occsBefore, plans', occs', today)
  {
    EarlierRowsAreOthers(queue, i);
    PlansStep(queue[..i], queue[i], before, occsBefore, plans, today);
    OccurrencesStep(queue[..i], queue[i], before, occsBefore, occs, occs', today);
  }

  lemma ActivePassStarts(rows: seq<Row>, plans: map<nat, Plan>, occs: seq<Occurrence>, today: nat)
    requires Lists(rows, plans, ActiveFixed())
    ensures Leads(Idle(plans, occs), Ticking(plans, occs, Ticker(today, ActivePass, AtFind, rows)), today)
  {
    var s, k := Idle(plans, occs), Ticker(today, ActivePass, AtFind, rows);
    OneTicker(k, k);
    var tr := Run([s, Ticking(plans, occs, k)], [Label.StartTick(0, k)]);
    assert IsTrace(tr, s, Ticking(plans, occs, k), today);
  }

  lemma PausedPassStarts(s: State, rows: seq<Row>, plans: map<nat, Plan>, occs: seq<Occurrence>, today: nat)
    requires Leads(s, Ticking(plans, occs, Ticker(today, ActivePass, AtFind, [])), today)
    requires Lists(rows, plans, PausedAndDue(today))
    ensures Leads(s, Ticking(plans, occs, Ticker(today, PausedPass, AtFind, rows)), today)
  {
    var k := Ticker(today, PausedPass, AtFind, rows);
    OneTicker(Ticker(today, ActivePass, AtFind, []), k);
    LeadsOn(s, Ticking(plans, occs, Ticker(today, ActivePass, AtFind, [])), Label.StartPaused(0, rows),
            Ticking(plans, occs, k), today);
  }

  /** One round of the first loop: lookup, perhaps create, perhaps advance. */
  lemma ActiveRow(rows: seq<Row>, i: nat, before: map<nat, Plan>, occsBefore: seq<Occurrence>,
                  plans: map<nat, Plan>, occs: seq<Occurrence>, plans': map<nat, Plan>, occs': seq<Occurrence>, today: nat)
    requires i < |rows| && Lists(rows, before, ActiveFixed())
    requires PassDone(rows[..i], before, occsBefore, plans, occs, today)
    requires Leads(Idle(before, occsBefore), Ticking(plans, occs, Ticker(today, ActivePass, AtFind, rows[i..])), today)
    requires
      var r := rows[i];
      && occs' == (if Due(r.plan, today) && !Has(occs, r.id, r.plan.next) then occs + [CreatedBy(r.id, r.plan, today)] else occs)
      && plans' == if Due(r.plan, today) then plans[r.id := Advanced(r.plan)] else plans
    ensures PassDone(rows[..i + 1], before, occsBefore, plans', occs', today)
    ensures Leads(Idle(before, occsBefore), Ticking(plans', occs', Ticker(today, ActivePass, AtFind, rows[i + 1..])), today)
  {
    var s, r, k := Idle(before, occsBefore), rows[i], Ticker(today, ActivePass, AtFind, rows[i..]);
    assert r in rows;
    LookupUnchanged(rows, i, before, occsBefore, plans, occs, today);
    assert rows[i..][1..] == rows[i + 1..];
    FindStep(s, plans, occs, k);
    if Due(r.plan, today) {
      if !Has(occs, r.id, r.plan.next) {
        CreateStep(s, plans, occs, k.(point := AtCreate));
      }
      AdvanceStep(s, plans, occs', k.(point := AtAdvance));
    }
    assert plans' == plans[r.id := AfterTick(r.id, r.plan, occsBefore, today)];
    PassStep(rows, i, before, occsBefore, plans, occs, today, plans', occs');
  }

  /** One round of the second loop: lookup, then create and advance or neither. */
  lemma PausedRow(s: State, rows: seq<Row>, i: nat, before: map<nat, Plan>, occsBefore: seq<Occurrence>,
                  plans: map<nat, Plan>, occs: seq<Occurrence>, plans': map<nat, Plan>, occs': seq<Occurrence>, today: nat)
    requires i < |rows| && Lists(rows, before, PausedAndDue(today))
    requires PassDone(rows[..i], before, occsBefore, plans, occs, today)
    requires Leads(s, Ticking(plans, occs, Ticker(today, PausedPass, AtFind, rows[i..])), today)
    requires
      var r := rows[i];
      && occs' == (if !Has(occs, r.id, r.plan.next) then occs + [CreatedBy(r.id, r.plan, today)] else occs)
      && plans' == if !Has(occs, r.id, r.plan.next) then plans[r.id := Advanced(r.plan)] else plans
    ensures PassDone(rows[..i + 1], before, occsBefore, plans', occs', today)
    ensures Leads(s, Ticking(plans', occs', Ticker(today, PausedPass, AtFind, rows[i + 1..])), today)
  {
    var r, k := rows[i], Ticker(today, PausedPass, AtFind, rows[i..]);
    assert r in rows;
    LookupUnchanged(rows, i, before, occsBefore, plans, occs, today);
    assert rows[i..][1..] == rows[i + 1..];
    FindStep(s, plans, occs, k);
    if !Has(occs, r.id, r.plan.next) {
      CreateStep(s, plans, occs, k.(point := AtCreate));
      AdvanceStep(s, plans, occs', k.(point := AtAdvance));
    }
    assert plans' == plans[r.id := AfterTick(r.id, r.plan, occsBefore, today)];
    PassStep(rows, i, before, occsBefore, plans, occs, today, plans', occs');
  }

  // ---------------------------------------------------------------------------
  // How many occurrences each pass creates
  // ---------------------------------------------------------------------------

  /** Due plans without an occurrence for their due date: the active fixed ones, and the paused ones. */
  ghost function ToCreate(plans: map<nat, Plan>, occs: seq<Occurrence>, today: nat): set<nat> {
    set p | p in plans && plans[p].active && plans[p].fixedBasis
            && DayNumber(plans[p].next) <= today && !Has(occs, p, plans[p].next)
  }

  ghost function ToSkip(plans: map<nat, Plan>, occs: seq<Occurrence>, today: nat): set<nat> {
    set p | p in plans && !plans[p].active && DayNumber(plans[p].next) <= today && !Has(occs, p, plans[p].next)
  }

  ghost function PlansOf(occs: seq<Occurrence>): set<nat> {
    set i | 0 <= i < |occs| :: occs[i].plan
  }

  lemma {:induction false} OnePlanEach(occs: seq<Occurrence>)
    requires OnePerPlan(occs)
    ensures |PlansOf(occs)| == |occs|
  {
    if occs != [] {
      var rest, o := occs[..|occs| - 1], occs[|occs| - 1];
      OnePlanEach(rest);
      forall p
        ensures p in PlansOf(occs) <==> p in PlansOf(rest) || p == o.plan
      {
        if p in PlansOf(rest) {
          var i :| 0 <= i < |rest| && rest[i].plan == p;
          assert occs[i].plan == p;
        }
        assert occs[|occs| - 1].plan == o.plan;
      }
      assert PlansOf(occs) == PlansOf(rest) + {o.plan};
    }
  }

  lemma OccurrenceIsNew(occs: seq<Occurrence>, occs': seq<Occurrence>, p: nat, d: Date)
    requires occs <= occs' && Has(occs', p, d) && !Has(occs, p, d)
    ensures p in PlansOf(occs'[|occs|..])
  {
    var o :| o in occs' && o.plan == p && o.due == d;
    var i :| 0 <= i < |occs'| && occs'[i] == o;
    forall j | 0 <= j < |occs|
      ensures occs'[j] != o
    {
      assert occs[j] in occs;
    }
    assert occs'[|occs|..][i - |occs|] == o;
  }

  lemma AddedArePlans(occs: seq<Occurrence>, p: nat)
    requires p in PlansOf(occs)
    ensures exists o :: o in occs && o.plan == p
  {
    var i :| 0 <= i < |occs| && occs[i].plan == p;
    assert occs[i] in occs;
  }

  lemma ActivePassCounts(q: seq<Row>, plans: map<nat, Plan>, occs: seq<Occurrence>, occs': seq<Occurrence>, today: nat)
    requires Lists(q, plans, ActiveFixed()) && OccurrencesDone(q, plans, occs, occs', today)
    ensures |occs'| - |occs| == |ToCreate(plans, occs, today)|
  {
    var added := occs'[|occs|..];
    forall p
      ensures p in PlansOf(added) <==> p in ToCreate(plans, occs, today)
    {
      if p in PlansOf(added) {
        AddedArePlans(added, p);
        var o :| o in added && o.plan == p;
        assert Row(p, plans[p]) in q && IsNew(o, plans[p], occs, today);
      }
      if p in ToCreate(plans, occs, today) {
        var r := Row(p, plans[p]);
        assert r in q && Covers(r, p, r.plan.next, occs, today);
        OccurrenceIsNew(occs, occs', p, r.plan.next);
      }
    }
    assert PlansOf(added) == ToCreate(plans, occs, today);
    OnePlanEach(added);
  }

  lemma PausedPassCounts(q: seq<Row>, plans: map<nat, Plan>, occs: seq<Occurrence>, occs': seq<Occurrence>, today: nat)
    requires Lists(q, plans, PausedAndDue(today)) && OccurrencesDone(q, plans, occs, occs', today)
    ensures |occs'| - |occs| == |ToSkip(plans, occs, today)|
  {
    var added := occs'[|occs|..];
    forall p
      ensures p in PlansOf(added) <==> p in ToSkip(plans, occs, today)
    {
      if p in PlansOf(added) {
        AddedArePlans(added, p);
        var o :| o in added && o.plan == p;
        assert Row(p, plans[p]) in q && IsNew(o, plans[p], occs, today);
      }
      if p in ToSkip(plans, occs, today) {
        var r := Row(p, plans[p]);
        assert r in q && Covers(r, p, r.plan.next, occs, today);
        OccurrenceIsNew(occs, occs', p, r.plan.next);
      }
    }
    assert PlansOf(added) == ToSkip(plans, occs, today);
    OnePlanEach(added);
  }

  /** The first pass changes nothing about what the second has to skip. */
  lemma SkipsAreUnchanged(q1: seq<Row>, plans0: map<nat, Plan>, occs0: seq<Occurrence>, plans1: map<nat, Plan>,
                          occs1: seq<Occurrence>, today: nat)
    requires Lists(q1, plans0, ActiveFixed()) && PassDone(q1, plans0, occs0, plans1, occs1, today)
    ensures ToSkip(plans1, occs1, today) == ToSkip(plans0, occs0, today)
  {
    forall p
      ensures p in plans0 <==> p in plans1
      ensures p in plans0 ==> plans1[p].active == plans0[p].active
      ensures p in plans0 && !plans0[p].active ==>
                plans1[p] == plans0[p] && (Has(occs1, p, plans0[p].next) <==> Has(occs0, p, plans0[p].next))
    {
      if p in plans0 {
        ActivePassOnPlan(q1, plans0, occs0, plans1, occs1, today, p);
      }
    }
  }

  lemma ActivePassOnPlan(q1: seq<Row>, plans0: map<nat, Plan>, occs0: seq<Occurrence>, plans1: map<nat, Plan>,
                         occs1: seq<Occurrence>, today: nat, p: nat)
    requires Lists(q1, plans0, ActiveFixed()) && PassDone(q1, plans0, occs0, plans1, occs1, today) && p in plans0
    ensures plans1[p].active == plans0[p].active
    ensures !plans0[p].active ==>
              plans1[p] == plans0[p] && (Has(occs1, p, plans0[p].next) <==> Has(occs0, p, plans0[p].next))
  {
    var r := Row(p, plans0[p]);
    if r in q1 {
      assert plans1[p] == AfterTick(p, plans0[p], occs0, today);
    } else {
      assert forall x :: x in q1 ==> x.id != p;
      assert !Covered(q1, p, plans0[p].next, occs0, today);
    }
  }

  /** The first pass leaves paused plans alone, so the two passes together make one tick. */
  lemma PassesMakeTick(q1: seq<Row>, q2: seq<Row>, plans0: map<nat, Plan>, occs0: seq<Occurrence>,
                       plans1: map<nat, Plan>, occs1: seq<Occurrence>,
                       plans2: map<nat, Plan>, occs2: seq<Occurrence>, today: nat)
    requires Lists(q1, plans0, ActiveFixed()) && PassDone(q1, plans0, occs0, plans1, occs1, today)
    requires Lists(q2, plans1, PausedAndDue(today)) && PassDone(q2, plans1, occs1, plans2, occs2, today)
    ensures TickEffect(plans0, occs0, plans2, occs2, today)
  {
    forall p | p in plans0
      ensures plans1[p] == if plans0[p].active then AfterTick(p, plans0[p], occs0, today) else plans0[p]
      ensures plans2[p] == if plans0[p].active then plans1[p] else AfterTick(p, plans0[p], occs1, today)
    {
      PlanInPasses(q1, q2, plans0, occs0, plans1, occs1, plans2, today, p);
    }
    forall p, d
      ensures p in plans0 && !plans0[p].active ==> (Has(occs1, p, d) <==> Has(occs0, p, d))
      ensures Has(occs2, p, d) <==>
              (Has(occs0, p, d) || (p in plans0 && plans0[p].next == d && Processed(p, plans0[p], occs0, today)))
    {
      OccurrenceInPasses(q1, q2, plans0, occs0, plans1, occs1, occs2, today, p, d);
    }
    BothPassesCreate(q1, q2, plans0, occs0, plans1, occs1, occs2, today);
  }

  lemma BothPassesCreate(q1: seq<Row>, q2: seq<Row>, plans0: map<nat, Plan>, occs0: seq<Occurrence>,
                         plans1: map<nat, Plan>, occs1: seq<Occurrence>, occs2: seq<Occurrence>, today: nat)
    requires Lists(q1, plans0, ActiveFixed()) && OccurrencesDone(q1, plans0, occs0, occs1, today)
    requires Lists(q2, plans1, PausedAndDue(today)) && OccurrencesDone(q2, plans1, occs1, occs2, today)
    requires plans1.Keys == plans0.Keys
    requires forall p :: p in plans0 ==>
               plans1[p] == if plans0[p].active then AfterTick(p, plans0[p], occs0, today) else plans0[p]
    ensures OnePerPlan(occs2[|occs0|..])
    ensures forall o :: o in occs2[|occs0|..] ==> o.plan in plans0 && IsNew(o, plans0[o.plan], occs0, today)
  {
    var first, second := occs1[|occs0|..], occs2[|occs1|..];
    assert occs2[|occs0|..] == first + second;
    forall o | o in second
      ensures o.plan in plans0 && !plans0[o.plan].active && IsNew(o, plans0[o.plan], occs0, today)
    {
      assert Row(o.plan, plans1[o.plan]) in q2;
      assert IsNew(o, plans1[o.plan], occs1, today);
    }
    forall o | o in first
      ensures o.plan in plans0 && plans0[o.plan].active
    {
      assert Row(o.plan, plans0[o.plan]) in q1;
    }
    forall i, j | 0 <= i < j < |first + second|
      ensures (first + second)[i].plan != (first + second)[j].plan
    {
      if i < |first| <= j {
        assert first[i] in first && second[j - |first|] in second;
      }
    }
  }

  lemma PlanInPasses(q1: seq<Row>, q2: seq<Row>, plans0: map<nat, Plan>, occs0: seq<Occurrence>,
                     plans1: map<nat, Plan>, occs1: seq<Occurrence>, plans2: map<nat, Plan>, today: nat, p: nat)
    requires Lists(q1, plans0, ActiveFixed()) && PlansDone(q1, plans0, occs0, plans1, today)
    requires Lists(q2, plans1, PausedAndDue(today)) && PlansDone(q2, plans1, occs1, plans2, today)
    requires p in plans0
    ensures plans1[p] == if plans0[p].active then AfterTick(p, plans0[p], occs0, today) else plans0[p]
    ensures plans2[p] == if plans0[p].active then plans1[p] else AfterTick(p, plans0[p], occs1, today)
  {
    var r := Row(p, plans0[p]);
    if r in q1 {
      assert plans1[p] == AfterTick(p, plans0[p], occs0, today);
    } else {
      assert forall x :: x in q1 ==> x.id != p;
    }
    var r1 := Row(p, plans1[p]);
    if r1 in q2 {
      assert plans2[p] == AfterTick(p, plans1[p], occs1, today);
    } else {
      assert forall x :: x in q2 ==> x.id != p;
    }
  }

  lemma OccurrenceInPasses(q1: seq<Row>, q2: seq<Row>, plans0: map<nat, Plan>, occs0: seq<Occurrence>,
                           plans1: map<nat, Plan>, occs1: seq<Occurrence>, occs2: seq<Occurrence>,
                           today: nat, p: nat, d: Date)
    requires Lists(q1, plans0, ActiveFixed()) && OccurrencesDone(q1, plans0, occs0, occs1, today)
    requires Lists(q2, plans1, PausedAndDue(today)) && OccurrencesDone(q2, plans1, occs1, occs2, today)
    requires PlansDone(q1, plans0, occs0, plans1, today)
    ensures p in plans0 && !plans0[p].active ==> (Has(occs1, p, d) <==> Has(occs0, p, d))
    ensures Has(occs2, p, d) <==>
            (Has(occs0, p, d) || (p in plans0 && plans0[p].next == d && Processed(p, plans0[p], occs0, today)))
  {
    assert Has(occs1, p, d) <==> (Has(occs0, p, d) || Covered(q1, p, d, occs0, today));
    assert Has(occs2, p, d) <==> (Has(occs1, p, d) || Covered(q2, p, d, occs1, today));
    if p in plans0 {
      var r0, r1 := Row(p, plans0[p]), Row(p, plans1[p]);
      assert Covered(q1, p, d, occs0, today) <==> (r0 in q1 && Covers(r0, p, d, occs0, today));
      assert Covered(q2, p, d, occs1, today) <==> (r1 in q2 && Covers(r1, p, d, occs1, today));
      if !plans0[p].active {
        assert forall x :: x in q1 ==> x.id != p;
        assert plans1[p] == plans0[p];
        assert forall e :: Has(occs1, p, e) <==> (Has(occs0, p, e) || Covered(q1, p, e, occs0, today));
      }
    }
  }
}
