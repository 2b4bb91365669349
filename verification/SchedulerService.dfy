/**
 The scheduler tick loop by loop, as it runs when nothing interrupts it, with the other service
 methods that change occurrences.
 */
module SchedulerService {
  import opened Outcomes
  import opened Calendar
  import opened SP = SchedulerProtocol
  import opened SchedulerTick
  import Shared
  import WorkOrders
  import W = OccurrenceWork

  /** The occurrence statuses as the work-order side sees them. */
  function Statuses(occs: seq<Occurrence>): (r: seq<W.Status>)
    ensures |r| == |occs| && forall i :: 0 <= i < |occs| ==> r[i] == occs[i].status
  {
    seq(|occs|, i requires 0 <= i < |occs| => occs[i].status)
  }

  ghost function View(occs: seq<Occurrence>, paused: seq<bool>, orders: seq<W.Order>): W.Work {
    W.Work(Statuses(occs), paused, orders)
  }

  /** The rows counted as advanced; paused plans that move on are not. */
  ghost function ActiveAndDue(plans: map<nat, Plan>, today: nat): set<Row> {
    set p | p in plans && plans[p].active && plans[p].fixedBasis && Due(plans[p], today) :: Row(p, plans[p])
  }

  /** Only statuses differ. */
  ghost predicate SameRows(occs: seq<Occurrence>, occs': seq<Occurrence>) {
    && |occs| == |occs'|
    && forall i :: 0 <= i < |occs| ==> occs'[i] == occs[i].(status := occs'[i].status)
  }

  lemma StatusesSplit(occs: seq<Occurrence>, occs': seq<Occurrence>)
    requires occs <= occs'
    ensures Statuses(occs') == Statuses(occs) + Statuses(occs'[|occs|..])
  {
  }

  lemma ActivePassAddsPending(q: seq<Row>, plans: map<nat, Plan>, occs: seq<Occurrence>, occs': seq<Occurrence>, today: nat)
    requires Lists(q, plans, ActiveFixed()) && OccurrencesDone(q, plans, occs, occs', today)
    ensures forall i :: 0 <= i < |occs'| - |occs| ==> W.Pending(occs'[|occs|..][i].status)
  {
    forall i | 0 <= i < |occs'| - |occs|
      ensures W.Pending(occs'[|occs|..][i].status)
    {
      var o := occs'[|occs|..][i];
      assert o in occs'[|occs|..];
      assert Row(o.plan, plans[o.plan]) in q;
    }
  }

  lemma PausedPassAddsSkipped(q: seq<Row>, plans: map<nat, Plan>, occs: seq<Occurrence>, occs': seq<Occurrence>, today: nat)
    requires Lists(q, plans, PausedAndDue(today)) && OccurrencesDone(q, plans, occs, occs', today)
    ensures forall i :: 0 <= i < |occs'| - |occs| ==> occs'[|occs|..][i].status == SKIPPED
  {
    forall i | 0 <= i < |occs'| - |occs|
      ensures occs'[|occs|..][i].status == SKIPPED
    {
      var o := occs'[|occs|..][i];
      assert o in occs'[|occs|..];
      assert Row(o.plan, plans[o.plan]) in q;
    }
  }

  /** Occurrences that are all pending, or all skipped and marked so, keep the work sound. */
  lemma AddedOccurrencesKeepSound(occs: seq<Occurrence>, occs': seq<Occurrence>, paused: seq<bool>, orders: seq<W.Order>,
                                  byPausedPass: bool, n: nat)
    requires W.Sound(View(occs, paused, orders)) && occs <= occs' && n == |occs'| - |occs|
    requires forall i :: 0 <= i < n ==>
               if byPausedPass then occs'[|occs|..][i].status == SKIPPED else W.Pending(occs'[|occs|..][i].status)
    ensures W.Sound(View(occs', paused + seq(n, _ => byPausedPass), orders))
  {
    StatusesSplit(occs, occs');
    W.AddedKeepSound(View(occs, paused, orders), Statuses(occs'[|occs|..]), seq(n, _ => byPausedPass));
  }

  /** Pending occurrences from the first pass and skipped ones from the second keep the work sound. */
  lemma NewOccurrencesKeepSound(paused: seq<bool>, orders: seq<W.Order>, q1: seq<Row>, q2: seq<Row>,
                                plans0: map<nat, Plan>, occs0: seq<Occurrence>, plans1: map<nat, Plan>,
                                occs1: seq<Occurrence>, occs2: seq<Occurrence>, created: nat, skipped: nat, today: nat)
    requires Lists(q1, plans0, ActiveFixed()) && OccurrencesDone(q1, plans0, occs0, occs1, today)
    requires Lists(q2, plans1, PausedAndDue(today)) && OccurrencesDone(q2, plans1, occs1, occs2, today)
    requires created == |occs1| - |occs0| && skipped == |occs2| - |occs1|
    ensures W.Sound(View(occs0, paused, orders)) ==> W.Sound(View(occs2, Marked(paused, created, skipped), orders))
  {
    if W.Sound(View(occs0, paused, orders)) {
      ActivePassAddsPending(q1, plans0, occs0, occs1, today);
      AddedOccurrencesKeepSound(occs0, occs1, paused, orders, false, created);
      PausedPassAddsSkipped(q2, plans1, occs1, occs2, today);
      AddedOccurrencesKeepSound(occs1, occs2, paused + seq(created, _ => false), orders, true, skipped);
    }
  }

  /** The marks after a tick: nothing the first pass creates, everything the second does. */
  ghost function Marked(paused: seq<bool>, created: nat, skipped: nat): (marks: seq<bool>)
    ensures paused <= marks
  {
    paused + seq(created, _ => false) + seq(skipped, _ => true)
  }

  lemma ActiveDueRows(q: seq<Row>, plans: map<nat, Plan>, today: nat)
    requires Lists(q, plans, ActiveFixed())
    ensures DueRows(q, today) == ActiveAndDue(plans, today)
  {
  }

  lemma GenerationLeavesNothingPending(w1: W.Work, l1: seq<nat>)
    requires W.Sound(w1) && W.Selects(l1, w1.occs, W.IsPending())
    ensures W.Sound(W.GenerateAll(w1, l1))
    ensures forall i :: 0 <= i < |w1.occs| ==> !W.Pending(W.GenerateAll(w1, l1).occs[i])
  {
    assert forall j :: 0 <= j < |l1| ==> l1[j] in l1;
    W.GenerateAllEffect(w1, l1);
  }

  lemma OrderPassesFinish(w1: W.Work, l1: seq<nat>, w2: W.Work, l2: seq<nat>)
    requires W.Selects(l1, w1.occs, W.IsPending()) && w2 == W.GenerateAll(w1, l1)
    requires W.Selects(l2, w2.occs, W.IsInProgress())
    ensures W.Sound(w1) ==> W.Sound(W.FinishAll(w2, l2)) && W.NothingLeftToDo(W.FinishAll(w2, l2))
    ensures W.Sound(w1) ==> W.OrderPasses(w1, W.FinishAll(w2, l2))
  {
    if W.Sound(w1) {
      W.OrderPassesEffect(w1, l1, l2);
      GenerationLeavesNothingPending(w1, l1);
      assert forall j :: 0 <= j < |l2| ==> l2[j] in l2;
      W.FinishAllEffect(w2, l2);
      W.FinishAllKeepsSound(w2, l2);
    }
  }

  class Scheduler {
    var plans: map<nat, Plan>
    var occs: seq<Occurrence>
    var orders: seq<W.Order>

    method ListPlans(filter: Plan -> bool) returns (queue: seq<Row>)
      ensures Lists(queue, plans, filter)
    {
      queue := [];
      var todo := set p | p in plans && filter(plans[p]);
      while todo != {}
        invariant todo <= plans.Keys && forall p :: p in todo ==> filter(plans[p])
        invariant forall i, j :: 0 <= i < j < |queue| ==> queue[i].id != queue[j].id
        invariant forall i :: 0 <= i < |queue| ==> queue[i].id !in todo
        invariant forall r :: r in queue ==> r.id in plans && plans[r.id] == r.plan && filter(r.plan)
        invariant forall p :: p in plans && filter(plans[p]) && p !in todo ==> Row(p, plans[p]) in queue
        decreases |todo|
      {
        var p :| p in todo;
        queue := queue + [Row(p, plans[p])];
        todo := todo - {p};
      }
    }

    /** The lookup by the unique key: the only row for this plan and date, if there is one. */
    method FindOccurrence(plan: nat, due: Date) returns (existing: Option<Occurrence>)
      ensures existing.Some? <==> Has(occs, plan, due)
      ensures existing.Some? && UniqueKey(occs) ==>
                forall o :: o in occs && o.plan == plan && o.due == due <==> o == existing.value
    {
      existing := None;
      for i := 0 to |occs|
        invariant existing.None? ==> forall j :: 0 <= j < i ==> !(occs[j].plan == plan && occs[j].due == due)
        invariant existing.Some? ==> existing.value in occs && existing.value.plan == plan && existing.value.due == due
      {
        if existing.None? && occs[i].plan == plan && occs[i].due == due {
          existing := Some(occs[i]);
        }
      }
    }

    /** First loop: create what is due and move the plan on, whether or not the occurrence was there. */
    method RunActivePass(today: nat) returns (advanced: nat, created: nat, ghost queue: seq<Row>)
      modifies this`plans, this`occs
      ensures Lists(queue, old(plans), ActiveFixed())
      ensures PassDone(queue, old(plans), old(occs), plans, occs, today)
      ensures Leads(Idle(old(plans), old(occs)), Ticking(plans, occs, Ticker(today, ActivePass, AtFind, [])), today)
      ensures advanced == |DueRows(queue, today)|
      ensures created == |occs| - |old(occs)|
    {
      advanced, created := 0, 0;
      var rows := ListPlans(ActiveFixed());
      queue := rows;
      ghost var before, occsBefore := plans, occs;
      ActivePassStarts(rows, plans, occs, today);
      assert rows[0..] == rows;
      for i := 0 to |rows|
        invariant PassDone(rows[..i], before, occsBefore, plans, occs, today)
        invariant Leads(Idle(before, occsBefore), Ticking(plans, occs, Ticker(today, ActivePass, AtFind, rows[i..])), today)
        invariant advanced == |DueRows(rows[..i], today)|
        invariant created == |occs| - |occsBefore|
      {
        var r := rows[i];
        ghost var plans0, occs0 := plans, occs;
        var existing := FindOccurrence(r.id, r.plan.next);
        if existing.None? && Due(r.plan, today) {
          occs := occs + [CreatedBy(r.id, r.plan, today)];
          created := created + 1;
        }
        if Due(r.plan, today) {
          plans := plans[r.id := Advanced(r.plan)];
          advanced := advanced + 1;
        }
        OneMoreDue(rows, i, today);
        ActiveRow(rows, i, before, occsBefore, plans0, occs0, plans, occs, today);
      }
      assert rows[..|rows|] == rows && rows[|rows|..] == [];
    }

    /** Second loop: a paused plan moves on only together with a new SKIPPED occurrence. */
    method RunPausedPass(today: nat, ghost s: State) returns (skipped: nat, ghost queue: seq<Row>)
      requires Leads(s, Ticking(plans, occs, Ticker(today, ActivePass, AtFind, [])), today)
      modifies this`plans, this`occs
      ensures Lists(queue, old(plans), PausedAndDue(today))
      ensures PassDone(queue, old(plans), old(occs), plans, occs, today)
      ensures Leads(s, Ticking(plans, occs, Ticker(today, PausedPass, AtFind, [])), today)
      ensures skipped == |occs| - |old(occs)|
    {
      skipped := 0;
      var rows := ListPlans(PausedAndDue(today));
      queue := rows;
      ghost var before, occsBefore := plans, occs;
      PausedPassStarts(s, rows, plans, occs, today);
      assert rows[0..] == rows;
      for i := 0 to |rows|
        invariant PassDone(rows[..i], before, occsBefore, plans, occs, today)
        invariant Leads(s, Ticking(plans, occs, Ticker(today, PausedPass, AtFind, rows[i..])), today)
        invariant skipped == |occs| - |occsBefore|
      {
        var r := rows[i];
        ghost var plans0, occs0 := plans, occs;
        var existing := FindOccurrence(r.id, r.plan.next);
        if existing.None? {
          occs := occs + [CreatedBy(r.id, r.plan, today)];
          skipped := skipped + 1;
          plans := plans[r.id := Advanced(r.plan)];
        }
        PausedRow(s, rows, i, before, occsBefore, plans0, occs0, plans, occs, today);
      }
      assert rows[..|rows|] == rows && rows[|rows|..] == [];
    }

    method ListOccurrences(filter: W.Status -> bool) returns (ids: seq<nat>)
      ensures W.Selects(ids, Statuses(occs), filter)
    {
      ids := [];
      for i := 0 to |occs|
        invariant forall j, k :: 0 <= j < k < |ids| ==> ids[j] != ids[k]
        invariant W.InRange(ids, i)
        invariant forall j :: 0 <= j < i ==> (j in ids <==> filter(occs[j].status))
      {
        if filter(occs[i].status) {
          ids := ids + [i];
        }
      }
    }

    /** Third loop. The foreign key from occurrences to plans makes the lookup of the plan succeed. */
    method GenerateWorkOrders(ghost paused: seq<bool>) returns (created: nat, ghost listed: seq<nat>)
      modifies this`occs, this`orders
      ensures W.Selects(listed, Statuses(old(occs)), W.IsPending())
      ensures View(occs, paused, orders) == W.GenerateAll(old(View(occs, paused, orders)), listed)
      ensures SameRows(old(occs), occs)
      ensures created == |orders| - |old(orders)|
    {
      created := 0;
      var ids := ListOccurrences(W.IsPending());
      listed := ids;
      ghost var before := View(occs, paused, orders);
      for n := 0 to |ids|
        invariant |occs| == |before.occs|
        invariant View(occs, paused, orders) == W.GenerateAll(before, ids[..n])
        invariant SameRows(old(occs), occs)
        invariant created == |orders| - |old(orders)|
      {
        assert ids[..n + 1] == ids[..n] + [ids[n]];
        var i := ids[n];
        assert i in ids;
        if !W.HasOpenOrder(orders, i) {
          orders := orders + [W.Order(i, Shared.NEW)];
          occs := occs[i := occs[i].(status := IN_PROGRESS)];
          created := created + 1;
        }
      }
      assert ids[..|ids|] == ids;
    }

    /** Fourth loop. */
    method CompleteOccurrences(ghost paused: seq<bool>) returns (ghost listed: seq<nat>)
      modifies this`occs
      ensures W.Selects(listed, Statuses(old(occs)), W.IsInProgress())
      ensures View(occs, paused, orders) == W.FinishAll(old(View(occs, paused, orders)), listed)
      ensures SameRows(old(occs), occs)
    {
      var ids := ListOccurrences(W.IsInProgress());
      listed := ids;
      ghost var before := View(occs, paused, orders);
      for n := 0 to |ids|
        invariant View(occs, paused, orders) == W.FinishAll(before, ids[..n])
        invariant SameRows(old(occs), occs)
      {
        var i := ids[n];
        assert ids[..n + 1] == ids[..n] + [i];
        if W.LatestOrder(orders, i) == Some(Shared.COMPLETED) {
          occs := occs[i := occs[i].(status := COMPLETED)];
        }
      }
      assert ids[..|ids|] == ids;
    }

    /** Both loops over the plans: the part of the tick that is a run of the protocol. */
    method RunPlanPasses(today: nat, ghost paused: seq<bool>)
      returns (advanced: nat, created: nat, skipped: nat, ghost paused': seq<bool>)
      modifies this`plans, this`occs
      ensures TickEffect(old(plans), old(occs), plans, occs, today)
      ensures Leads(Idle(old(plans), old(occs)), Ticking(plans, occs, Finished(today)), today)
      ensures paused <= paused'
      ensures W.Sound(old(View(occs, paused, orders))) ==> W.Sound(View(occs, paused', orders))
      ensures advanced == |ActiveAndDue(old(plans), today)|
      ensures created == |ToCreate(old(plans), old(occs), today)|
      ensures skipped == |ToSkip(old(plans), old(occs), today)|
      ensures created + skipped == |occs| - |old(occs)|
    {
      ghost var plans0, occs0 := plans, occs;
      ghost var q1, q2;
      advanced, created, q1 := RunActivePass(today);
      ghost var plans1, occs1 := plans, occs;
      ActiveDueRows(q1, plans0, today);
      skipped, q2 := RunPausedPass(today, Idle(plans0, occs0));
      ActivePassCounts(q1, plans0, occs0, occs1, today);
      PausedPassCounts(q2, plans1, occs1, occs, today);
      SkipsAreUnchanged(q1, plans0, occs0, plans1, occs1, today);
      PassesMakeTick(q1, q2, plans0, occs0, plans1, occs1, plans, occs, today);
      paused' := Marked(paused, created, skipped);
      NewOccurrencesKeepSound(paused, orders, q1, q2, plans0, occs0, plans1, occs1, occs, created, skipped, today);
    }

    /**
     The whole tick. Each due plan gets its occurrence and moves on; no occurrence is left pending
     and none whose newest order is COMPLETED is left in progress; `mid` is the occurrence table
     between the plan passes and the order passes.
     */
    method RunSchedulerTick(today: nat, ghost paused: seq<bool>)
      returns (advanced: nat, created: nat, skipped: nat, createdOrders: nat, ghost mid: seq<Occurrence>, ghost paused': seq<bool>)
      modifies this
      ensures TickEffect(old(plans), old(occs), plans, mid, today) && SameRows(mid, occs)
      ensures Leads(Idle(old(plans), old(occs)), Ticking(plans, mid, Finished(today)), today)
      ensures paused <= paused'
      ensures W.Sound(old(View(occs, paused, orders))) ==>
                W.Sound(View(occs, paused', orders)) && W.NothingLeftToDo(View(occs, paused', orders))
      ensures W.Sound(old(View(occs, paused, orders))) ==>
                W.OrderPasses(W.Work(Statuses(mid), paused', old(orders)), View(occs, paused', orders))
      ensures advanced == |ActiveAndDue(old(plans), today)|
      ensures created == |ToCreate(old(plans), old(occs), today)|
      ensures skipped == |ToSkip(old(plans), old(occs), today)|
      ensures created + skipped == |occs| - |old(occs)| && createdOrders == |orders| - |old(orders)|
    {
      advanced, created, skipped, paused' := RunPlanPasses(today, paused);
      mid := occs;
      ghost var w1 := View(occs, paused', orders);
      ghost var l1, l2;
      createdOrders, l1 := GenerateWorkOrders(paused');
      ghost var w2 := View(occs, paused', orders);
      l2 := CompleteOccurrences(paused');
      OrderPassesFinish(w1, l1, w2, l2);
    }

    method Skip(i: nat, ghost paused: seq<bool>) returns (r: Result<()>)
      modifies this`occs
      ensures SameRows(old(occs), occs)
      ensures
        match W.Skip(old(View(occs, paused, orders)), i)
        case Success(w) => r == Success(()) && View(occs, paused, orders) == w
        case Failure(error) => r == Failure(error) && occs == old(occs)
      ensures r.Success? <==> i < |old(occs)| && old(occs)[i].status != COMPLETED
      ensures r.Success? ==> forall j :: 0 <= j < |occs| ==>
                occs[j].status == if j == i then SKIPPED else old(occs)[j].status
    {
      if i >= |occs| {
        return Failure("NOT_FOUND");
      }
      if occs[i].status == COMPLETED {
        return Failure("OCCURRENCE_ALREADY_COMPLETED");
      }
      if occs[i].status == SKIPPED {
        assert Statuses(occs)[i := SKIPPED] == Statuses(occs);
        return Success(());
      }
      occs := occs[i := occs[i].(status := SKIPPED)];
      return Success(());
    }

    /** The cascade of a cancelled maintenance order: its occurrence is skipped unless finished. */
    method CancelMaintenanceOrder(k: nat, ghost paused: seq<bool>)
      requires k < |orders| && orders[k].occurrence < |occs|
      modifies this`occs, this`orders
      ensures SameRows(old(occs), occs)
      ensures View(occs, paused, orders) == W.Cancel(old(View(occs, paused, orders)), k)
      ensures orders == old(orders)[k := W.Order(old(orders)[k].occurrence, Shared.CANCELLED)]
      ensures forall j :: 0 <= j < |occs| ==> (
                occs[j].status == if j == old(orders)[k].occurrence && old(occs)[j].status != COMPLETED then SKIPPED
                                  else old(occs)[j].status)
    {
      var i := orders[k].occurrence;
      orders := orders[k := orders[k].(status := Shared.CANCELLED)];
      if occs[i].status != COMPLETED && occs[i].status != SKIPPED {
        occs := occs[i := occs[i].(status := SKIPPED)];
      }
    }
  }
}
