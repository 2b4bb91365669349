/**
 The maintenance scheduler as a concurrent protocol: any number of ticks, started by the worker
 or over HTTP, interleave with each other, with plan edits and with crashes. Only the unique
 key (plan, due date) and the compare-and-set on the plan's version protect the schedule.
 */
module SchedulerProtocol {
  import opened Outcomes
  import opened Calendar

  datatype OccurrenceStatus = PLANNED | SKIPPED | OVERDUE | IN_PROGRESS | COMPLETED

  datatype PlanRow = PlanRow(active: bool, fixedBasis: bool, unit: IntervalUnit, value: int, next: Date, version: nat)

  /** The table only holds real dates and, by its check constraint, positive intervals. */
  type Plan = p: PlanRow | p.next.Valid() && p.value > 0
    witness PlanRow(true, true, DAY, 1, Date(0, 1), 1)

  datatype Occurrence = Occurrence(plan: nat, due: Date, status: OccurrenceStatus, planVersion: nat)

  /** A plan as it was read. */
  datatype Row = Row(id: nat, plan: Plan)

  datatype Pass = ActivePass | PausedPass

  datatype Point = AtFind | AtCreate | AtAdvance

  /** A tick under way: the rows it has listed and not finished, the first one being processed. */
  datatype Ticker = Ticker(today: nat, pass: Pass, point: Point, queue: seq<Row>)

  /** `seen` holds the plan rows that edits under way have read. */
  datatype State = State(plans: map<nat, Plan>, occs: seq<Occurrence>, tickers: map<nat, Ticker>, seen: set<Row>)

  /** A positive interval value is part of a valid request. */
  datatype Patch = Patch(unit: Option<IntervalUnit>, value: Option<int>, active: Option<bool>) {
    predicate Valid() {
      value.Some? ==> value.value > 0
    }
  }

  datatype Label =
    | CreatePlan(id: nat, plan: Plan)
    | ReadPlan(id: nat)
    | EditPlan(read: Row, patch: Patch)
    | StartTick(t: nat, ticker: Ticker)
    | StartPaused(t: nat, queue: seq<Row>)
    | Find(t: nat)
    | CreateOccurrence(t: nat)
    | Advance(t: nat)
    | Crash(t: nat)

  predicate Due(p: Plan, today: nat) {
    DayNumber(p.next) <= today
  }

  ghost predicate Has(occs: seq<Occurrence>, plan: nat, due: Date) {
    exists o :: o in occs && o.plan == plan && o.due == due
  }

  /** The rows a query returns: each matching plan once, in some order. */
  ghost predicate Lists(queue: seq<Row>, plans: map<nat, Plan>, filter: Plan -> bool) {
    && (forall i, j :: 0 <= i < j < |queue| ==> queue[i].id != queue[j].id)
    && (forall r :: r in queue <==> r.id in plans && plans[r.id] == r.plan && filter(r.plan))
  }

  function ActiveFixed(): Plan -> bool {
    (p: Plan) => p.active && p.fixedBasis
  }

  function PausedAndDue(today: nat): Plan -> bool {
    (p: Plan) => !p.active && Due(p, today)
  }

  function Patched(p: Plan, patch: Patch): Plan
    requires patch.Valid()
  {
    p.(unit := if patch.unit.Some? then patch.unit.value else p.unit,
       value := if patch.value.Some? then patch.value.value else p.value,
       active := if patch.active.Some? then patch.active.value else p.active,
       version := p.version + 1)
  }

  function Advanced(p: Plan): Plan {
    p.(next := AdvanceDueOn(p.next, p.unit, p.value).value, version := p.version + 1)
  }

  /** A due date before today is overdue, today's is planned; a paused plan's is skipped. */
  function NewStatus(k: Ticker, p: Plan): OccurrenceStatus {
    if k.pass.PausedPass? then SKIPPED
    else if DayNumber(p.next) < k.today then OVERDUE
    else PLANNED
  }

  function NextRow(k: Ticker): Ticker
    requires k.queue != []
  {
    k.(queue := k.queue[1..], point := AtFind)
  }

  /** Where the lookup of the first row's occurrence leads. */
  ghost function Found(k: Ticker, occs: seq<Occurrence>): Ticker
    requires k.queue != []
  {
    var r := k.queue[0];
    var existing := Has(occs, r.id, r.plan.next);
    if k.pass.ActivePass? then
      if !Due(r.plan, k.today) then NextRow(k)
      else if existing then k.(point := AtAdvance)
      else k.(point := AtCreate)
    else if existing then NextRow(k)
    else k.(point := AtCreate)
  }

  ghost predicate Step(s: State, l: Label, s': State) {
    match l
    case CreatePlan(id, plan) =>
      && id !in s.plans && plan.version == 1
      && s' == s.(plans := s.plans[id := plan])
    case ReadPlan(id) =>
      && id in s.plans
      && s' == s.(seen := s.seen + {Row(id, s.plans[id])})
    case EditPlan(read, patch) =>
      // pause, resume and update: compare-and-set on the version read
      && read in s.seen && read.id in s.plans && s.plans[read.id].version == read.plan.version
      && patch.Valid()
      && s' == s.(plans := s.plans[read.id := Patched(s.plans[read.id], patch)])
    case StartTick(t, k) =>
      && t !in s.tickers && k.pass == ActivePass && k.point == AtFind
      && Lists(k.queue, s.plans, ActiveFixed())
      && s' == s.(tickers := s.tickers[t := k])
    case StartPaused(t, queue) =>
      && t in s.tickers && s.tickers[t].pass == ActivePass && s.tickers[t].queue == []
      && Lists(queue, s.plans, PausedAndDue(s.tickers[t].today))
      && s' == s.(tickers := s.tickers[t := Ticker(s.tickers[t].today, PausedPass, AtFind, queue)])
    case Find(t) =>
      && t in s.tickers
      && var k := s.tickers[t];
      && k.point == AtFind && k.queue != []
      && s' == s.(tickers := s.tickers[t := Found(k, s.occs)])
    case CreateOccurrence(t) =>
      && t in s.tickers
      && var k := s.tickers[t];
      && k.point == AtCreate && k.queue != []
      && var r := k.queue[0];
      // a violated unique key is an exception that ends the tick
      if Has(s.occs, r.id, r.plan.next) then s' == s.(tickers := s.tickers - {t})
      else s' == s.(occs := s.occs + [Occurrence(r.id, r.plan.next, NewStatus(k, r.plan), r.plan.version)],
                    tickers := s.tickers[t := k.(point := AtAdvance)])
    case Advance(t) =>
      && t in s.tickers
      && var k := s.tickers[t];
      && k.point == AtAdvance && k.queue != []
      && var r := k.queue[0];
      // so is an update that matches no row
      if r.id !in s.plans || s.plans[r.id].version != r.plan.version then s' == s.(tickers := s.tickers - {t})
      else s' == s.(plans := s.plans[r.id := s.plans[r.id].(next := Advanced(r.plan).next, version := r.plan.version + 1)],
                    tickers := s.tickers[t := NextRow(k)])
    case Crash(t) =>
      s' == s.(tickers := s.tickers - {t})
  }

  datatype Run = Run(states: seq<State>, labels: seq<Label>)

  /** Consecutive steps from any state. */
  ghost predicate IsStretch(run: Run) {
    && |run.states| == |run.labels| + 1
    && forall i :: 0 <= i < |run.labels| ==> Step(run.states[i], run.labels[i], run.states[i + 1])
  }

  ghost predicate IsRun(run: Run) {
    IsStretch(run) && run.states[0] == State(map[], [], map[], {})
  }

  // ---------------------------------------------------------------------------
  // What every step keeps
  // ---------------------------------------------------------------------------

  /** A snapshot is older than the stored plan or identical with it. */
  ghost predicate Older(r: Row, plans: map<nat, Plan>) {
    && r.id in plans
    && r.plan.version <= plans[r.id].version
    && (r.plan.version == plans[r.id].version ==> r.plan == plans[r.id])
  }

  /** The date of a snapshot is still due, or was left behind and has its occurrence. */
  ghost predicate StillDueOrDone(r: Row, plans: map<nat, Plan>, occs: seq<Occurrence>) {
    r.id in plans && (r.plan.next == plans[r.id].next || Has(occs, r.id, r.plan.next))
  }

  /** A pass works on the rows its query selected. */
  predicate Selected(r: Row, k: Ticker) {
    if k.pass.PausedPass? then PausedAndDue(k.today)(r.plan) else ActiveFixed()(r.plan)
  }

  /** Creation and advance only happen for what is due; before an advance the occurrence exists. */
  ghost predicate PointSound(k: Ticker, occs: seq<Occurrence>) {
    k.queue != [] && k.point != AtFind ==>
      && Due(k.queue[0].plan, k.today)
      && (k.point == AtAdvance ==> Has(occs, k.queue[0].id, k.queue[0].plan.next))
  }

  ghost predicate TickerSound(k: Ticker, plans: map<nat, Plan>, occs: seq<Occurrence>) {
    && (forall r :: r in k.queue ==> Older(r, plans) && StillDueOrDone(r, plans, occs) && Selected(r, k))
    && PointSound(k, occs)
  }

  ghost predicate UniqueKey(occs: seq<Occurrence>) {
    forall i, j :: 0 <= i < j < |occs| ==> !(occs[i].plan == occs[j].plan && occs[i].due == occs[j].due)
  }

  ghost predicate Inv(s: State) {
    && (forall r :: r in s.seen ==> Older(r, s.plans))
    && (forall t :: t in s.tickers ==> TickerSound(s.tickers[t], s.plans, s.occs))
    && UniqueKey(s.occs)
  }

  lemma HasGrows(occs: seq<Occurrence>, o: Occurrence, plan: nat, due: Date)
    ensures Has(occs, plan, due) ==> Has(occs + [o], plan, due)
    ensures Has(occs + [o], o.plan, o.due)
  {
    assert o in occs + [o];
    if x :| x in occs && x.plan == plan && x.due == due {
      assert x in occs + [o];
    }
  }

  lemma HasPersists(occs: seq<Occurrence>, occs': seq<Occurrence>, plan: nat, due: Date)
    requires occs <= occs' && Has(occs, plan, due)
    ensures Has(occs', plan, due)
  {
    var o :| o in occs && o.plan == plan && o.due == due;
    var i :| 0 <= i < |occs| && occs[i] == o;
    assert occs'[i] == o;
  }

  /** A plan changes only to higher versions, and leaves a date behind only with its occurrence. */
  ghost predicate PlanGrows(s: State, s': State, p: nat)
    requires p in s.plans
  {
    && Older(Row(p, s.plans[p]), s'.plans)
    && (s'.plans[p].next != s.plans[p].next ==> Has(s.occs, p, s.plans[p].next))
  }

  ghost predicate Grows(s: State, s': State) {
    && (forall p :: p in s.plans ==> PlanGrows(s, s', p))
    && s.occs <= s'.occs
  }

  lemma StepGrows(s: State, l: Label, s': State)
    requires Inv(s) && Step(s, l, s')
    ensures Grows(s, s')
  {
    if l.Advance? {
      assert s.tickers[l.t].queue[0] in s.tickers[l.t].queue;
      assert PointSound(s.tickers[l.t], s.occs);
    }
  }

  lemma SnapshotsStay(s: State, s': State, r: Row)
    requires Grows(s, s') && Older(r, s.plans)
    ensures Older(r, s'.plans)
    ensures StillDueOrDone(r, s.plans, s.occs) ==> StillDueOrDone(r, s'.plans, s'.occs)
  {
    assert PlanGrows(s, s', r.id);
    if StillDueOrDone(r, s.plans, s.occs) && s'.plans[r.id].next != r.plan.next {
      HasPersists(s.occs, s'.occs, r.id, r.plan.next);
    }
  }

  lemma TickersStay(s: State, s': State, k: Ticker)
    requires Grows(s, s') && TickerSound(k, s.plans, s.occs)
    ensures TickerSound(k, s'.plans, s'.occs)
  {
    forall r | r in k.queue
      ensures Older(r, s'.plans) && StillDueOrDone(r, s'.plans, s'.occs)
    {
      SnapshotsStay(s, s', r);
    }
    if k.queue != [] && k.point == AtAdvance {
      HasPersists(s.occs, s'.occs, k.queue[0].id, k.queue[0].plan.next);
    }
  }

  lemma NextRowSound(k: Ticker, plans: map<nat, Plan>, occs: seq<Occurrence>)
    requires TickerSound(k, plans, occs) && k.queue != []
    ensures TickerSound(NextRow(k), plans, occs)
  {
    assert forall r :: r in k.queue[1..] ==> r in k.queue;
  }

  lemma FoundSound(k: Ticker, plans: map<nat, Plan>, occs: seq<Occurrence>)
    requires TickerSound(k, plans, occs) && k.queue != []
    ensures TickerSound(Found(k, occs), plans, occs)
  {
    assert k.queue[0] in k.queue;
    NextRowSound(k, plans, occs);
    assert Found(k, occs) == NextRow(k) || Found(k, occs).queue == k.queue;
  }

  lemma MovedTickerSound(s: State, l: Label, s': State, t: nat)
    requires Inv(s) && Step(s, l, s') && t in s'.tickers
    requires t !in s.tickers || s.tickers[t] != s'.tickers[t]
    ensures TickerSound(s'.tickers[t], s'.plans, s'.occs)
  {
    StepGrows(s, l, s');
    match l
    case StartTick(_, _) =>
    case StartPaused(_, _) =>
    case Find(_) =>
      FoundSound(s.tickers[t], s.plans, s.occs);
    case CreateOccurrence(_) =>
      TickersStay(s, s', s.tickers[t]);
      HasGrows(s.occs, s'.occs[|s.occs|], 0, s'.occs[|s.occs|].due);
    case Advance(_) =>
      TickersStay(s, s', s.tickers[t]);
      NextRowSound(s.tickers[t], s'.plans, s'.occs);
    case _ =>
  }

  lemma StepKeepsInv(s: State, l: Label, s': State)
    requires Inv(s) && Step(s, l, s')
    ensures Inv(s')
  {
    StepGrows(s, l, s');
    forall t | t in s'.tickers
      ensures TickerSound(s'.tickers[t], s'.plans, s'.occs)
    {
      if t in s.tickers && s.tickers[t] == s'.tickers[t] {
        TickersStay(s, s', s.tickers[t]);
      } else {
        MovedTickerSound(s, l, s', t);
      }
    }
    forall r | r in s'.seen
      ensures Older(r, s'.plans)
    {
      if r in s.seen {
        SnapshotsStay(s, s', r);
      }
    }
    UniqueKeyStays(s, l, s');
  }

  lemma UniqueKeyStays(s: State, l: Label, s': State)
    requires UniqueKey(s.occs) && Step(s, l, s')
    ensures UniqueKey(s'.occs)
  {
    forall i | 0 <= i < |s.occs|
      ensures s.occs[i] in s.occs
    {
    }
  }

  lemma {:induction false} StretchKeepsInv(run: Run, n: nat)
    requires IsStretch(run) && n < |run.states| && Inv(run.states[0])
    ensures Inv(run.states[n])
  {
    if n > 0 {
      StretchKeepsInv(run, n - 1);
      StepKeepsInv(run.states[n - 1], run.labels[n - 1], run.states[n]);
    }
  }

  lemma RunKeepsInv(run: Run, n: nat)
    requires IsRun(run) && n < |run.states|
    ensures Inv(run.states[n])
  {
    StretchKeepsInv(run, n);
  }

  // ---------------------------------------------------------------------------
  // Safety of the schedule
  // ---------------------------------------------------------------------------

  /**
   Whenever a plan's due date changes, it is advanced once by the interval in force at that
   moment, to a later date, and the date left behind already has its occurrence.
   */
  lemma AdvanceIsCurrent(s: State, l: Label, s': State, p: nat)
    requires Inv(s) && Step(s, l, s') && p in s.plans
    ensures p in s'.plans
    ensures s'.plans[p].next != s.plans[p].next ==>
              && s'.plans[p] == Advanced(s.plans[p])
              && DayNumber(s.plans[p].next) < DayNumber(s'.plans[p].next)
              && Has(s.occs, p, s.plans[p].next)
  {
    if l.Advance? {
      assert s.tickers[l.t].queue[0] in s.tickers[l.t].queue;
    }
  }

  lemma StepAt(run: Run, i: nat, p: nat)
    requires IsStretch(run) && i < |run.labels| && Inv(run.states[0])
    ensures Grows(run.states[i], run.states[i + 1])
    ensures DueDay(run.states[i], p) <= DueDay(run.states[i + 1], p)
  {
    StretchKeepsInv(run, i);
    StepGrows(run.states[i], run.labels[i], run.states[i + 1]);
    StepMovesForward(run.states[i], run.labels[i], run.states[i + 1], p);
  }

  lemma {:induction false} GrowthChain(states: seq<State>, i: nat, j: nat)
    requires i <= j < |states|
    requires forall k :: 0 <= k < |states| - 1 ==> states[k].occs <= states[k + 1].occs
    ensures states[i].occs <= states[j].occs
  {
    if i < j {
      GrowthChain(states, i, j - 1);
    }
  }

  lemma OccurrencesPersist(run: Run, i: nat, j: nat)
    requires IsStretch(run) && i <= j < |run.states| && Inv(run.states[0])
    ensures run.states[i].occs <= run.states[j].occs
  {
    forall k | 0 <= k < |run.states| - 1
      ensures run.states[k].occs <= run.states[k + 1].occs
    {
      StepAt(run, k, 0);
    }
    GrowthChain(run.states, i, j);
  }

  ghost predicate ExactlyOne(occs: seq<Occurrence>, plan: nat, due: Date) {
    exists i ::
      && 0 <= i < |occs| && occs[i].plan == plan && occs[i].due == due
      && forall j :: 0 <= j < |occs| && occs[j].plan == plan && occs[j].due == due ==> j == i
  }

  lemma HasExactlyOne(occs: seq<Occurrence>, plan: nat, due: Date)
    requires UniqueKey(occs) && Has(occs, plan, due)
    ensures ExactlyOne(occs, plan, due)
  {
    var o :| o in occs && o.plan == plan && o.due == due;
    var i :| 0 <= i < |occs| && occs[i] == o;
    forall j | 0 <= j < |occs| && occs[j].plan == plan && occs[j].due == due
      ensures j == i
    {
      assert j < i || j == i || i < j;
    }
  }

  /** Every date that a plan's due date has ever left behind has exactly one occurrence from then on. */
  lemma DateLeftBehindHasOneOccurrence(run: Run, i: nat, j: nat, p: nat)
    requires IsRun(run) && i + 1 <= j < |run.states| && p in run.states[i].plans
    requires p in run.states[i + 1].plans && run.states[i + 1].plans[p].next != run.states[i].plans[p].next
    ensures ExactlyOne(run.states[j].occs, p, run.states[i].plans[p].next)
  {
    var due := run.states[i].plans[p].next;
    StepAt(run, i, p);
    assert PlanGrows(run.states[i], run.states[i + 1], p);
    OccurrencesPersist(run, i, j);
    HasPersists(run.states[i].occs, run.states[j].occs, p, due);
    RunKeepsInv(run, j);
    HasExactlyOne(run.states[j].occs, p, due);
  }

  /** No plan has two occurrences for one date. */
  lemma NoTwoOccurrencesForOneDate(run: Run, n: nat, i: nat, j: nat)
    requires IsRun(run) && n < |run.states| && i < j < |run.states[n].occs|
    ensures run.states[n].occs[i].plan != run.states[n].occs[j].plan || run.states[n].occs[i].due != run.states[n].occs[j].due
  {
    RunKeepsInv(run, n);
  }

  /** Some state up to n stored exactly this plan row. */
  ghost predicate WasStored(run: Run, n: nat, r: Row) {
    exists i :: 0 <= i <= n < |run.states| && r.id in run.states[i].plans && run.states[i].plans[r.id] == r.plan
  }

  /** All snapshots held in state n were stored at some time. */
  lemma {:induction false} SnapshotsWereStored(run: Run, n: nat)
    requires IsRun(run) && n < |run.states|
    ensures forall t, r :: t in run.states[n].tickers && r in run.states[n].tickers[t].queue ==> WasStored(run, n, r)
  {
    if n > 0 {
      SnapshotsWereStored(run, n - 1);
      var s, s' := run.states[n - 1], run.states[n];
      assert Step(s, run.labels[n - 1], s');
      forall t, r | t in s'.tickers && r in s'.tickers[t].queue
        ensures WasStored(run, n, r)
      {
        if t in s.tickers && r in s.tickers[t].queue {
          assert WasStored(run, n - 1, r);
        } else {
          assert r.id in s.plans && s.plans[r.id] == r.plan;
        }
      }
    }
  }

  /** Every occurrence's due date was once its plan's due date, at the version the occurrence records. */
  lemma {:induction false} OccurrenceDateWasDue(run: Run, n: nat, o: Occurrence)
    requires IsRun(run) && n < |run.states| && o in run.states[n].occs
    ensures exists i :: 0 <= i <= n && o.plan in run.states[i].plans
              && run.states[i].plans[o.plan].next == o.due && run.states[i].plans[o.plan].version == o.planVersion
  {
    if n > 0 {
      var s, s' := run.states[n - 1], run.states[n];
      assert Step(s, run.labels[n - 1], s');
      if o in s.occs {
        OccurrenceDateWasDue(run, n - 1, o);
      } else {
        var r := s.tickers[run.labels[n - 1].t].queue[0];
        SnapshotsWereStored(run, n - 1);
        assert WasStored(run, n - 1, r);
      }
    }
  }

  /** The day a plan is due; -1 before it exists. */
  ghost function DueDay(s: State, p: nat): int {
    if p in s.plans then DayNumber(s.plans[p].next) else -1
  }

  lemma StepMovesForward(s: State, l: Label, s': State, p: nat)
    requires Inv(s) && Step(s, l, s')
    ensures DueDay(s, p) <= DueDay(s', p)
    ensures p in s.plans && s'.plans[p].next != s.plans[p].next ==> DueDay(s, p) < DueDay(s', p)
  {
    if p in s.plans {
      AdvanceIsCurrent(s, l, s', p);
    }
  }

  lemma {:induction false} ForwardChain(states: seq<State>, i: nat, j: nat, p: nat)
    requires i <= j < |states|
    requires forall k :: 0 <= k < |states| - 1 ==> DueDay(states[k], p) <= DueDay(states[k + 1], p)
    ensures DueDay(states[i], p) <= DueDay(states[j], p)
  {
    if i < j {
      ForwardChain(states, i, j - 1, p);
    }
  }

  /** A plan's due date never goes back, so no date is ever due twice. */
  lemma DueDateNeverGoesBack(run: Run, i: nat, j: nat, p: nat)
    requires IsStretch(run) && Inv(run.states[0]) && i <= j < |run.states|
    ensures DueDay(run.states[i], p) <= DueDay(run.states[j], p)
  {
    forall k | 0 <= k < |run.states| - 1
      ensures DueDay(run.states[k], p) <= DueDay(run.states[k + 1], p)
    {
      StepAt(run, k, p);
    }
    ForwardChain(run.states, i, j, p);
  }

  lemma {:induction false} VersionChain(states: seq<State>, i: nat, j: nat, p: nat)
    requires i <= j < |states| && p in states[i].plans
    requires forall k :: 0 <= k < |states| - 1 ==> Grows(states[k], states[k + 1])
    ensures p in states[j].plans && states[i].plans[p].version <= states[j].plans[p].version
  {
    if i < j {
      VersionChain(states, i, j - 1, p);
      assert Grows(states[j - 1], states[j]);
      assert PlanGrows(states[j - 1], states[j], p);
    }
  }

  /**
   No lost update among ticks, pauses, resumes and edits: any two writes to a plan in a run
   find different versions stored, the later one a higher version.
   */
  lemma EachVersionIsWrittenOnce(run: Run, i: nat, j: nat, p: nat)
    requires IsRun(run) && i < j < |run.labels| && p in run.states[i].plans
    requires p in run.states[i + 1].plans && run.states[i + 1].plans[p] != run.states[i].plans[p]
    ensures p in run.states[j].plans && run.states[i].plans[p].version < run.states[j].plans[p].version
  {
    forall k | 0 <= k < |run.states| - 1
      ensures Grows(run.states[k], run.states[k + 1])
    {
      StepAt(run, k, p);
    }
    assert PlanGrows(run.states[i], run.states[i + 1], p);
    VersionChain(run.states, i + 1, j, p);
  }
}
