/**
 What repeated ticks at a fixed clock do to one plan that nobody edits: its occurrences follow
 the schedule computed from its first due date, and enough surviving ticks bring it up to date,
 whatever other ticks crash or interleave on the way.
 */
module CatchUp {
  import opened Calendar
  import opened SP = SchedulerProtocol
  import opened SchedulerProgress
  import opened SchedulerTick

  /** The plan after k advances. */
  function PlanAt(p0: Plan, k: nat): Plan {
    p0.(next := Iterate(p0.next, p0.unit, p0.value, k), version := p0.version + k)
  }

  function DateAt(p0: Plan, k: nat): Date {
    PlanAt(p0, k).next
  }

  /** The version counts the advances. */
  predicate OnSchedule(p: Plan, p0: Plan) {
    p.version >= p0.version && p == PlanAt(p0, p.version - p0.version)
  }

  /** Any step that does not edit plan `id`; no tick's clock is ahead of `today`. */
  predicate Quiet(l: Label, id: nat, today: nat) {
    !Edits(l, id) && (l.StartTick? ==> l.ticker.today <= today)
  }

  ghost predicate ClocksUpTo(s: State, today: nat) {
    forall t :: t in s.tickers ==> s.tickers[t].today <= today
  }

  // ---------------------------------------------------------------------------
  // The schedule
  // ---------------------------------------------------------------------------

  lemma {:induction false} DatesGrow(p0: Plan, i: nat, j: nat)
    requires i <= j
    ensures DayNumber(DateAt(p0, i)) + (j - i) <= DayNumber(DateAt(p0, j))
  {
    if i < j {
      DatesGrow(p0, i, j - 1);
    }
  }

  /** Date number j has been due by the time k advances have been made. */
  ghost predicate Scheduled(p0: Plan, d: Date, k: nat, today: nat) {
    exists j :: 0 <= j <= k && d == DateAt(p0, j) && DayNumber(d) <= today
  }

  // ---------------------------------------------------------------------------
  // The invariant
  // ---------------------------------------------------------------------------

  ghost predicate OccurrencesOnSchedule(occs: seq<Occurrence>, occs0: seq<Occurrence>, id: nat, p0: Plan, k: nat, today: nat) {
    && (forall d :: Has(occs0, id, d) ==> Has(occs, id, d))
    && (forall d :: Has(occs, id, d) ==> Has(occs0, id, d) || Scheduled(p0, d, k, today))
    && (forall j :: 0 <= j < k ==> Has(occs, id, DateAt(p0, j)) && DayNumber(DateAt(p0, j)) <= today)
  }

  ghost predicate Inv(s: State, occs0: seq<Occurrence>, id: nat, p0: Plan, today: nat) {
    && SP.Inv(s) && ClocksUpTo(s, today)
    && id in s.plans && OnSchedule(s.plans[id], p0)
    && OccurrencesOnSchedule(s.occs, occs0, id, p0, s.plans[id].version - p0.version, today)
  }

  /** The plan changes only by one advance, from a due date that has its occurrence. */
  lemma PlanStep(s: State, l: Label, s': State, id: nat, today: nat)
    requires SP.Inv(s) && ClocksUpTo(s, today) && id in s.plans && Step(s, l, s') && Quiet(l, id, today)
    ensures id in s'.plans
    ensures s'.plans[id] == s.plans[id]
         || (s'.plans[id] == Advanced(s.plans[id]) && s'.occs == s.occs && Has(s.occs, id, s.plans[id].next) && Due(s.plans[id], today))
  {
    if l.Advance? && s'.plans != s.plans {
      var k := s.tickers[l.t];
      assert k.queue[0] in k.queue;
      assert TickerSound(k, s.plans, s.occs) && PointSound(k, s.occs);
    }
  }

  /** Whatever snapshot a tick holds, a new occurrence is for the plan's due date of that moment. */
  lemma OccurrenceStep(s: State, l: Label, s': State, id: nat, today: nat) returns (o: Occurrence)
    requires SP.Inv(s) && ClocksUpTo(s, today) && id in s.plans && Step(s, l, s') && s'.occs != s.occs
    ensures s'.occs == s.occs + [o]
    ensures o.plan == id ==> o.due == s.plans[id].next && DayNumber(o.due) <= today
  {
    var k := s.tickers[l.t];
    var r := k.queue[0];
    o := Occurrence(r.id, r.plan.next, NewStatus(k, r.plan), r.plan.version);
    if r.id == id {
      assert r in k.queue && StillDueOrDone(r, s.plans, s.occs);
      assert PointSound(k, s.occs);
    }
  }

  lemma OccurrencesGrow(occs: seq<Occurrence>, o: Occurrence, occs0: seq<Occurrence>, id: nat, p0: Plan, k: nat, today: nat)
    requires OccurrencesOnSchedule(occs, occs0, id, p0, k, today)
    requires o.plan == id ==> o.due == DateAt(p0, k) && DayNumber(o.due) <= today
    ensures OccurrencesOnSchedule(occs + [o], occs0, id, p0, k, today)
  {
    forall d
      ensures Has(occs + [o], id, d) <==> Has(occs, id, d) || (o.plan == id && o.due == d)
    {
      HasOneMore(occs, o, id, d);
    }
  }

  lemma OccurrencesAdvance(occs: seq<Occurrence>, occs0: seq<Occurrence>, id: nat, p: Plan, p0: Plan, today: nat)
    requires OnSchedule(p, p0) && OccurrencesOnSchedule(occs, occs0, id, p0, p.version - p0.version, today)
    requires Has(occs, id, p.next) && Due(p, today)
    ensures OccurrencesOnSchedule(occs, occs0, id, p0, p.version - p0.version + 1, today)
  {
    var k := p.version - p0.version;
    assert p.next == DateAt(p0, k);
    forall d | Has(occs, id, d) && !Has(occs0, id, d)
      ensures Scheduled(p0, d, k + 1, today)
    {
      assert Scheduled(p0, d, k, today);
    }
    forall j | 0 <= j < k + 1
      ensures Has(occs, id, DateAt(p0, j)) && DayNumber(DateAt(p0, j)) <= today
    {
      assert j < k || DateAt(p0, j) == p.next;
    }
  }

  lemma AdvancedStaysOnSchedule(p: Plan, p0: Plan)
    requires OnSchedule(p, p0)
    ensures OnSchedule(Advanced(p), p0) && Advanced(p).version == p.version + 1
  {
    assert Advanced(p) == PlanAt(p0, p.version + 1 - p0.version);
  }

  lemma AdvanceKeepsSchedule(occs: seq<Occurrence>, occs0: seq<Occurrence>, id: nat, p: Plan, p0: Plan, today: nat)
    requires OnSchedule(p, p0) && OccurrencesOnSchedule(occs, occs0, id, p0, p.version - p0.version, today)
    requires Has(occs, id, p.next) && Due(p, today)
    ensures OnSchedule(Advanced(p), p0)
    ensures OccurrencesOnSchedule(occs, occs0, id, p0, Advanced(p).version - p0.version, today)
  {
    AdvancedStaysOnSchedule(p, p0);
    OccurrencesAdvance(occs, occs0, id, p, p0, today);
  }

  lemma CreationKeepsSchedule(occs: seq<Occurrence>, o: Occurrence, occs0: seq<Occurrence>, id: nat, p: Plan, p0: Plan, today: nat)
    requires OnSchedule(p, p0) && OccurrencesOnSchedule(occs, occs0, id, p0, p.version - p0.version, today)
    requires o.plan == id ==> o.due == p.next && DayNumber(o.due) <= today
    ensures OccurrencesOnSchedule(occs + [o], occs0, id, p0, p.version - p0.version, today)
  {
    assert p.next == DateAt(p0, p.version - p0.version);
    OccurrencesGrow(occs, o, occs0, id, p0, p.version - p0.version, today);
  }

  lemma StepKeepsSchedule(s: State, l: Label, s': State, occs0: seq<Occurrence>, id: nat, p0: Plan, today: nat)
    requires Inv(s, occs0, id, p0, today) && Step(s, l, s') && Quiet(l, id, today)
    ensures id in s'.plans && OnSchedule(s'.plans[id], p0)
    ensures OccurrencesOnSchedule(s'.occs, occs0, id, p0, s'.plans[id].version - p0.version, today)
  {
    PlanStep(s, l, s', id, today);
    if s'.plans[id] != s.plans[id] {
      AdvanceKeepsSchedule(s.occs, occs0, id, s.plans[id], p0, today);
    } else if s'.occs != s.occs {
      var o := OccurrenceStep(s, l, s', id, today);
      CreationKeepsSchedule(s.occs, o, occs0, id, s.plans[id], p0, today);
    }
  }

  lemma StepKeepsInv(s: State, l: Label, s': State, occs0: seq<Occurrence>, id: nat, p0: Plan, today: nat)
    requires Inv(s, occs0, id, p0, today) && Step(s, l, s') && Quiet(l, id, today)
    ensures Inv(s', occs0, id, p0, today)
  {
    SP.StepKeepsInv(s, l, s');
    StepKeepsSchedule(s, l, s', occs0, id, p0, today);
    ClocksStay(s, l, s', id, today);
  }

  lemma ClocksStay(s: State, l: Label, s': State, id: nat, today: nat)
    requires ClocksUpTo(s, today) && Step(s, l, s') && Quiet(l, id, today)
    ensures ClocksUpTo(s', today)
  {
  }

  // ---------------------------------------------------------------------------
  // An up-to-date plan has exactly its schedule
  // ---------------------------------------------------------------------------

  /** A stretch of a protocol run in which nobody edits the plan and no clock is ahead of `today`. */
  ghost predicate QuietStretch(tr: Run, id: nat, today: nat) {
    IsStretch(tr) && forall i :: 0 <= i < |tr.labels| ==> Quiet(tr.labels[i], id, today)
  }

  lemma {:induction false} QuietStretchKeepsInv(tr: Run, n: nat, occs0: seq<Occurrence>, id: nat, p0: Plan, today: nat)
    requires QuietStretch(tr, id, today) && n < |tr.states| && Inv(tr.states[0], occs0, id, p0, today)
    ensures Inv(tr.states[n], occs0, id, p0, today)
  {
    if n > 0 {
      QuietStretchKeepsInv(tr, n - 1, occs0, id, p0, today);
      StepKeepsInv(tr.states[n - 1], tr.labels[n - 1], tr.states[n], occs0, id, p0, today);
    }
  }

  lemma InvAtStart(s: State, id: nat, today: nat)
    requires SP.Inv(s) && id in s.plans && ClocksUpTo(s, today)
    ensures Inv(s, s.occs, id, s.plans[id], today)
  {
  }

  /** Up to date: the plan's next date lies after today. */
  ghost predicate UpToDate(s: State, id: nat, today: nat) {
    id in s.plans && !Due(s.plans[id], today)
  }

  ghost predicate InSchedule(p0: Plan, d: Date, today: nat) {
    exists j: nat :: d == DateAt(p0, j) && DayNumber(d) <= today
  }

  /** The plan's occurrences are the earlier ones and exactly the dates of its schedule up to today. */
  ghost predicate ExactlyTheSchedule(occs: seq<Occurrence>, occs0: seq<Occurrence>, id: nat, p0: Plan, today: nat) {
    forall d :: Has(occs, id, d) <==> (Has(occs0, id, d) || InSchedule(p0, d, today))
  }

  lemma DueDatesArePassed(p0: Plan, d: Date, k: nat, today: nat)
    requires DayNumber(DateAt(p0, k)) > today
    ensures InSchedule(p0, d, today) <==> exists j: nat :: j < k && d == DateAt(p0, j) && DayNumber(d) <= today
    ensures InSchedule(p0, d, today) <==> Scheduled(p0, d, k, today)
  {
    if InSchedule(p0, d, today) {
      var j: nat :| d == DateAt(p0, j) && DayNumber(d) <= today;
      if k <= j {
        DatesGrow(p0, k, j);
      }
      assert j < k;
    }
  }

  lemma UpToDateMeansExact(s: State, occs0: seq<Occurrence>, id: nat, p0: Plan, today: nat)
    requires Inv(s, occs0, id, p0, today) && UpToDate(s, id, today)
    ensures ExactlyTheSchedule(s.occs, occs0, id, p0, today)
  {
    var k := s.plans[id].version - p0.version;
    forall d
      ensures Has(s.occs, id, d) <==> (Has(occs0, id, d) || InSchedule(p0, d, today))
    {
      DueDatesArePassed(p0, d, k, today);
    }
  }

  /**
   From any reachable state, ticks under way included, and in any interleaving of ticks, crashes
   and edits of other plans: an unedited plan that has come up to date has exactly the occurrences
   its schedule says.
   */
  lemma UpToDatePlanHasExactlyItsSchedule(tr: Run, n: nat, id: nat, today: nat)
    requires QuietStretch(tr, id, today) && n < |tr.states|
    requires SP.Inv(tr.states[0]) && ClocksUpTo(tr.states[0], today) && id in tr.states[0].plans
    requires UpToDate(tr.states[n], id, today)
    ensures ExactlyTheSchedule(tr.states[n].occs, tr.states[0].occs, id, tr.states[0].plans[id], today)
  {
    InvAtStart(tr.states[0], id, today);
    QuietStretchKeepsInv(tr, n, tr.states[0].occs, id, tr.states[0].plans[id], today);
    UpToDateMeansExact(tr.states[n], tr.states[0].occs, id, tr.states[0].plans[id], today);
  }

  // ---------------------------------------------------------------------------
  // Enough surviving ticks bring the plan up to date
  // ---------------------------------------------------------------------------

  /** Ticker t starts at label a, reads `today`, and is alive at b, when it has finished its first pass. */
  ghost predicate Survives(tr: Run, a: nat, b: nat, t: nat, today: nat)
    requires |tr.states| == |tr.labels| + 1
  {
    && a < b <= |tr.labels|
    && tr.labels[a].StartTick? && tr.labels[a].t == t && tr.labels[a].ticker.today == today
    && Alive(tr, t, a + 1, b)
    && t in tr.states[b].tickers && (tr.states[b].tickers[t].queue == [] || tr.states[b].tickers[t].pass.PausedPass?)
  }

  /** A quiet stretch in which, among whatever else ticks, crashes or interleaves, one tick survives. */
  ghost predicate TickThrough(s: State, s': State, id: nat, today: nat) {
    exists tr: Run, a: nat, b: nat, t: nat ::
      && QuietStretch(tr, id, today) && tr.states[0] == s && tr.states[|tr.labels|] == s'
      && Survives(tr, a, b, t, today)
  }

  /** What the tick method guarantees is such a stretch, back to a state without ticks. */
  lemma SoleTickRunsThrough(plans: map<nat, Plan>, occs: seq<Occurrence>, plans': map<nat, Plan>,
                            occs': seq<Occurrence>, id: nat, today: nat)
    requires Leads(Idle(plans, occs), Ticking(plans', occs', Finished(today)), today)
    ensures TickThrough(Idle(plans, occs), Idle(plans', occs'), id, today)
  {
    var s, m, s' := Idle(plans, occs), Ticking(plans', occs', Finished(today)), Idle(plans', occs');
    var tr :| IsTrace(tr, s, m, today);
    var tr' := Run(tr.states + [s'], tr.labels + [Crash(0)]);
    OneTicker(Finished(today), Finished(today));
    forall i | 0 <= i < |tr'.labels|
      ensures Step(tr'.states[i], tr'.labels[i], tr'.states[i + 1])
    {
      if i < |tr.labels| {
        assert Step(tr.states[i], tr.labels[i], tr.states[i + 1]);
      }
    }
    assert QuietStretch(tr', id, today);
    assert Survives(tr', 0, |tr.labels|, 0, today);
  }

  /** The row of the plan that a starting tick lists is gone from its queue when the first pass is over. */
  lemma SurvivorListsPlan(tr: Run, a: nat, b: nat, t: nat, id: nat, today: nat)
    requires IsStretch(tr) && SP.Inv(tr.states[0]) && Survives(tr, a, b, t, today)
    requires id in tr.states[a].plans && tr.states[a].plans[id].active && tr.states[a].plans[id].fixedBasis
    ensures Lines(tr.states[a + 1], t, Row(id, tr.states[a].plans[id])) && tr.states[a + 1].tickers[t].pass.ActivePass?
    ensures tr.states[a + 1].tickers[t].today == today
    ensures !Lines(tr.states[b], t, Row(id, tr.states[a].plans[id]))
  {
    var r := Row(id, tr.states[a].plans[id]);
    assert Step(tr.states[a], tr.labels[a], tr.states[a + 1]);
    StretchKeepsInv(tr, b);
    if Lines(tr.states[b], t, r) {
      assert Selected(r, tr.states[b].tickers[t]);
    }
  }

  /** Whatever interleaves with it, a surviving tick has moved the plan on or found it not due. */
  lemma SurvivorServesPlan(tr: Run, a: nat, b: nat, t: nat, id: nat, today: nat)
    requires IsStretch(tr) && SP.Inv(tr.states[0]) && Survives(tr, a, b, t, today)
    requires id in tr.states[a].plans && tr.states[a].plans[id].active && tr.states[a].plans[id].fixedBasis
    ensures DueDay(tr.states[a], id) <= today ==> DueDay(tr.states[a], id) < DueDay(tr.states[b], id)
  {
    SurvivorListsPlan(tr, a, b, t, id, today);
    SurvivorMovesPlan(tr, a + 1, b, t, Row(id, tr.states[a].plans[id]));
  }

  lemma DueDaysGrow(tr: Run, a: nat, b: nat, id: nat)
    requires IsStretch(tr) && SP.Inv(tr.states[0]) && a <= b <= |tr.labels|
    ensures DueDay(tr.states[0], id) <= DueDay(tr.states[a], id) <= DueDay(tr.states[b], id)
    ensures DueDay(tr.states[b], id) <= DueDay(tr.states[|tr.labels|], id)
  {
    DueDateNeverGoesBack(tr, 0, a, id);
    DueDateNeverGoesBack(tr, a, b, id);
    DueDateNeverGoesBack(tr, b, |tr.labels|, id);
  }

  lemma InvGivesPlan(s: State, occs0: seq<Occurrence>, id: nat, p0: Plan, today: nat)
    requires Inv(s, occs0, id, p0, today)
    ensures id in s.plans && s.plans[id].active == p0.active && s.plans[id].fixedBasis == p0.fixedBasis
    ensures DueDay(s, id) == DayNumber(s.plans[id].next) && (UpToDate(s, id, today) <==> DueDay(s, id) > today)
  {
  }

  lemma TickThroughMovesOn(s: State, s': State, occs0: seq<Occurrence>, id: nat, p0: Plan, today: nat)
    requires TickThrough(s, s', id, today) && Inv(s, occs0, id, p0, today) && p0.active && p0.fixedBasis
    ensures Inv(s', occs0, id, p0, today)
    ensures DueDay(s', id) > today || DueDay(s, id) < DueDay(s', id)
  {
    var tr: Run, a: nat, b: nat, t: nat :|
      && QuietStretch(tr, id, today) && tr.states[0] == s && tr.states[|tr.labels|] == s'
      && Survives(tr, a, b, t, today);
    QuietStretchKeepsInv(tr, a, occs0, id, p0, today);
    QuietStretchKeepsInv(tr, |tr.labels|, occs0, id, p0, today);
    InvGivesPlan(tr.states[a], occs0, id, p0, today);
    SurvivorServesPlan(tr, a, b, t, id, today);
    DueDaysGrow(tr, a, b, id);
  }

  lemma {:induction false} TicksMoveOn(states: seq<State>, n: nat, occs0: seq<Occurrence>, id: nat, p0: Plan, today: nat)
    requires n < |states| && Inv(states[0], occs0, id, p0, today) && p0.active && p0.fixedBasis
    requires forall i :: 0 <= i < n ==> TickThrough(states[i], states[i + 1], id, today)
    ensures Inv(states[n], occs0, id, p0, today)
    ensures DueDay(states[n], id) > today || DueDay(states[0], id) + n <= DueDay(states[n], id)
  {
    if n > 0 {
      TicksMoveOn(states, n - 1, occs0, id, p0, today);
      TickThroughMovesOn(states[n - 1], states[n], occs0, id, p0, today);
    }
  }

  /**
   From any reachable state: an active plan with a fixed basis that nobody edits is up to date after
   at most as many surviving ticks as there are days from its due date through today, however many
   others interleave with them or crash; its occurrences are then exactly its schedule.
   */
  lemma RepeatedTicksCatchUp(states: seq<State>, n: nat, id: nat, today: nat)
    requires n < |states| && SP.Inv(states[0]) && ClocksUpTo(states[0], today) && id in states[0].plans
    requires states[0].plans[id].active && states[0].plans[id].fixedBasis
    requires forall i :: 0 <= i < n ==> TickThrough(states[i], states[i + 1], id, today)
    requires n >= today - DayNumber(states[0].plans[id].next) + 1
    ensures UpToDate(states[n], id, today)
    ensures ExactlyTheSchedule(states[n].occs, states[0].occs, id, states[0].plans[id], today)
  {
    var p0 := states[0].plans[id];
    InvAtStart(states[0], id, today);
    TicksMoveOn(states, n, states[0].occs, id, p0, today);
    InvGivesPlan(states[n], states[0].occs, id, p0, today);
    UpToDateMeansExact(states[n], states[0].occs, id, p0, today);
  }
}
