/**
 What a submitted approval says about its work order: exactly when the order is waiting, and a run
 in which it is not.
 */
module SecondRound {
  import opened Outcomes
  import Shared
  import WorkOrders
  import Approvals
  import ApprovalRuns
  import Stock
  import opened IssueGate

  // ---------------------------------------------------------------------------
  // From the submission on
  // ---------------------------------------------------------------------------

  /** A cancelled approval can still be edited or cancelled again by a stale request, nothing else. */
  lemma CancelledTakesNoAction(st: ApprovalRuns.State, first: Approvals.Approval, latest: Approvals.Approval,
                               op: Approvals.Op, st': ApprovalRuns.State)
    requires ApprovalRuns.Inv(st) && ApprovalRuns.Step(st, ApprovalRuns.Do(first, latest, op), st')
    requires st.row.status == Approvals.CANCELLED
    ensures op.Edit? || op.AutoCancel?
  {
    assert ApprovalRuns.Older(first, st.row);
  }

  lemma SubmittedTakesNoActionButEdits(st: ApprovalRuns.State, first: Approvals.Approval, latest: Approvals.Approval,
                                       op: Approvals.Op, st': ApprovalRuns.State)
    requires ApprovalRuns.Inv(st) && ApprovalRuns.Step(st, ApprovalRuns.Do(first, latest, op), st')
    requires st.row.status == Approvals.SUBMITTED && st'.row.status == Approvals.SUBMITTED
    ensures op.Edit?
  {
    assert ApprovalRuns.Older(first, st.row);
  }

  ghost predicate Submitted(s: System, a: nat) {
    a in s.approvals && s.approvals[a].st.row.status == Approvals.SUBMITTED
  }

  /** A user's own transition, assignment, completion or note on the order. */
  predicate Changes(l: Label, order: nat) {
    l.ChangeOrder? && l.order == order
  }

  /** While its approval stays SUBMITTED, only its users move the order. */
  lemma OrderStaysPut(s: System, l: Label, s': System, a: nat)
    requires Inv(s) && Step(s, l, s') && Submitted(s, a) && Submitted(s', a)
    requires s.approvals[a].order in s.orders && !Changes(l, s.approvals[a].order)
    ensures s'.approvals[a].order == s.approvals[a].order && s.approvals[a].order in s'.orders
    ensures s'.orders[s.approvals[a].order].row == s.orders[s.approvals[a].order].row
  {
    if l.DoApproval? && s.approvals[l.approval].order == s.approvals[a].order {
      var st, st' := s.approvals[l.approval].st, s'.approvals[l.approval].st;
      if l.approval == a {
        SubmittedTakesNoActionButEdits(st, l.first, l.latest, l.aop, st');
      } else {
        assert Open(s, a);
        CancelledTakesNoAction(st, l.first, l.latest, l.aop, st');
      }
    }
  }

  ghost predicate StaysSubmitted(run: Run, a: nat, i: nat, j: nat) {
    forall k :: i <= k <= j < |run.states| ==> Submitted(run.states[k], a)
  }

  lemma {:induction false} OrderRowStays(run: Run, i: nat, j: nat, a: nat, o: nat)
    requires IsRun(run) && i <= j < |run.states| && StaysSubmitted(run, a, i, j)
    requires a in run.states[i].approvals && run.states[i].approvals[a].order == o && o in run.states[i].orders
    requires forall k :: i <= k < j ==> !Changes(run.labels[k], o)
    ensures a in run.states[j].approvals && run.states[j].approvals[a].order == o && o in run.states[j].orders
    ensures run.states[j].orders[o].row == run.states[i].orders[o].row
  {
    if i < j {
      OrderRowStays(run, i, j - 1, a, o);
      RunKeepsInv(run, j - 1);
      assert Submitted(run.states[j - 1], a) && Submitted(run.states[j], a);
      OrderStaysPut(run.states[j - 1], run.labels[j - 1], run.states[j], a);
    }
  }

  lemma SubmissionMoves(s: System, l: Label, s': System)
    requires Step(s, l, s') && l.DoApproval? && l.aop.Act? && l.aop.action == Approvals.Submit
    ensures l.approval in s.approvals && l.approval in s'.approvals
    ensures
      var o := s.approvals[l.approval].order;
      && o in s.orders && o in s'.orders && s'.approvals[l.approval].order == o
      && s'.orders[o].row == Approvals.CoupledOrder(l.first, l.aop, s.orders[o].row)
  {
  }

  /**
   In every run, from a submission on and as long as the approval stays SUBMITTED and no user moves
   the order: the order is waiting exactly when it was waiting before the submission, or had never
   waited for an approval and was not closed.
   */
  lemma SubmittedWaitsIff(run: Run, i: nat, j: nat)
    requires IsRun(run) && i < j < |run.states|
    requires run.labels[i].DoApproval? && run.labels[i].aop.Act? && run.labels[i].aop.action == Approvals.Submit
    requires run.labels[i].approval in run.states[i].approvals
    requires StaysSubmitted(run, run.labels[i].approval, i + 1, j)
    requires forall k :: i < k < j ==> !Changes(run.labels[k], run.states[i].approvals[run.labels[i].approval].order)
    ensures
      var o := run.states[i].approvals[run.labels[i].approval].order;
      && o in run.states[i].orders && o in run.states[j].orders
      && var before := run.states[i].orders[o].row;
      (run.states[j].orders[o].row.status == Shared.WAITING_APPROVAL <==>
         (before.status == Shared.WAITING_APPROVAL
          || (Shared.WAITING_APPROVAL_START !in before.notes && !WorkOrders.Terminal(before.status))))
  {
    var a := run.labels[i].approval;
    var o := run.states[i].approvals[a].order;
    assert Step(run.states[i], run.labels[i], run.states[i + 1]);
    SubmissionMoves(run.states[i], run.labels[i], run.states[i + 1]);
    Approvals.SubmissionParksOrderIff(run.labels[i].first, run.labels[i].aop, run.states[i].orders[o].row);
    OrderRowStays(run, i + 1, j, a, o);
  }

  // ---------------------------------------------------------------------------
  // A second round leaves the order in progress
  // ---------------------------------------------------------------------------

  const C := Approvals.Content("r", "p", 0)

  function Row(status: Approvals.Status, version: nat, revisions: seq<Approvals.Revision>,
               events: seq<Approvals.Event>): Approvals.Approval {
    Approvals.Approval(10, status, version, revisions, events)
  }

  const OPEN1 := Approvals.Revision(1, C, None)
  const SENT1 := Approvals.Revision(1, C, Some(C))
  const OPEN2 := Approvals.Revision(2, C, None)
  const SENT2 := Approvals.Revision(2, C, Some(C))
  const E1 := Approvals.Event(Approvals.Submitted, 1, 10)
  const E2 := Approvals.Event(Approvals.Rejected, 1, 20)
  const E3 := Approvals.Event(Approvals.RevisionCreated, 2, 10)
  const E4 := Approvals.Event(Approvals.Submitted, 2, 10)

  const DRAFTED := Row(Approvals.DRAFT, 1, [OPEN1], [])
  const SENT := Row(Approvals.SUBMITTED, 2, [SENT1], [E1])
  const REFUSED := Row(Approvals.REJECTED, 3, [SENT1], [E1, E2])
  const REDRAFTED := Row(Approvals.DRAFT, 4, [SENT1, OPEN2], [E1, E2, E3])
  const RESENT := Row(Approvals.SUBMITTED, 5, [SENT1, SENT2], [E1, E2, E3, E4])

  function OrderAs(status: Shared.WorkOrderStatus, version: nat, notes: seq<Shared.NoteType>): WorkOrders.Order {
    WorkOrders.Order(status, version, None, None, None, None, None, notes)
  }

  const FRESH := OrderAs(Shared.NEW, 1, [])
  const WAITING := OrderAs(Shared.WAITING_APPROVAL, 2, [Shared.WAITING_APPROVAL_START])
  const RELEASED := OrderAs(Shared.IN_PROGRESS, 3, [Shared.WAITING_APPROVAL_START, Shared.WAITING_APPROVAL_END])

  function Sys(o: WorkOrders.Order, a: Approvals.Approval, seen: set<Approvals.Approval>): System {
    System(map[1 := WorkOrders.State(o, {})], map[5 := Approval(1, ApprovalRuns.State(a, seen))],
           Stock.Store(map[], []), map[])
  }

  ghost predicate EndsIn(run: Run, s: System) {
    IsRun(run) && run.states[|run.labels|] == s
  }

  ghost predicate Reachable(s: System) {
    exists run :: EndsIn(run, s)
  }

  lemma ReachableOn(s: System, l: Label, s': System)
    requires Reachable(s) && Step(s, l, s')
    ensures Reachable(s')
  {
    var run :| EndsIn(run, s);
    var run' := Run(run.states + [s'], run.labels + [l]);
    forall i | 0 <= i < |run'.labels|
      ensures Step(run'.states[i], run'.labels[i], run'.states[i + 1])
    {
      if i < |run.labels| {
        assert Step(run.states[i], run.labels[i], run.states[i + 1]);
      }
    }
    assert EndsIn(run', s');
  }

  /** One request: it reads the approval and then commits on what it has read. */
  lemma Request(o: WorkOrders.Order, o': WorkOrders.Order, a: Approvals.Approval, a': Approvals.Approval,
                seen: set<Approvals.Approval>, op: Approvals.Op)
    requires Reachable(Sys(o, a, seen)) && Approvals.Commit(a, a, a, op) == Success(a') && !op.AutoCancel?
    requires o' == Approvals.CoupledOrder(a, op, o)
    ensures Reachable(Sys(o', a', seen + {a}))
  {
    var s, m, s' := Sys(o, a, seen), Sys(o, a, seen + {a}), Sys(o', a', seen + {a});
    assert s.approvals[5 := m.approvals[5]] == m.approvals;
    ReachableOn(s, ReadApproval(5), m);
    assert m.approvals[5 := s'.approvals[5]] == s'.approvals;
    assert m.orders[1 := s'.orders[1]] == s'.orders;
    ReachableOn(m, DoApproval(5, a, a, op), s');
  }

  lemma FirstSubmission()
    ensures Approvals.Commit(DRAFTED, DRAFTED, DRAFTED, Approvals.Act(10, Approvals.Submit, None, true)) == Success(SENT)
    ensures Approvals.CoupledOrder(DRAFTED, Approvals.Act(10, Approvals.Submit, None, true), FRESH) == WAITING
  {
    assert Approvals.LatestNo([]) == 0;
    assert Approvals.LatestNo([OPEN1]) == 1;
    assert Approvals.MarkSubmitted([OPEN1], 1) == [SENT1];
    assert [] + [E1] == [E1];
    assert [] + [Shared.WAITING_APPROVAL_START] == [Shared.WAITING_APPROVAL_START];
  }

  lemma Rejection()
    ensures Approvals.Commit(SENT, SENT, SENT, Approvals.Act(20, Approvals.Reject, None, true)) == Success(REFUSED)
    ensures Approvals.CoupledOrder(SENT, Approvals.Act(20, Approvals.Reject, None, true), WAITING) == RELEASED
  {
    assert Approvals.LatestNo([]) == 0;
    assert Approvals.LatestNo([SENT1]) == 1;
    assert [E1] + [E2] == [E1, E2];
    assert [Shared.WAITING_APPROVAL_START] + [Shared.WAITING_APPROVAL_END] == RELEASED.notes;
    assert WAITING.notes[0] == Shared.WAITING_APPROVAL_START;
  }

  lemma NewRevision()
    ensures Approvals.Commit(REFUSED, REFUSED, REFUSED, Approvals.Op.NewRevision(10)) == Success(REDRAFTED)
    ensures Approvals.CoupledOrder(REFUSED, Approvals.Op.NewRevision(10), RELEASED) == RELEASED
  {
    assert Approvals.LatestNo([]) == 0;
    assert Approvals.LatestNo([SENT1]) == 1;
    assert Approvals.ContentOf([SENT1], 1) == C;
    assert [SENT1] + [OPEN2] == [SENT1, OPEN2] && [E1, E2] + [E3] == [E1, E2, E3];
    assert RELEASED.notes[0] == Shared.WAITING_APPROVAL_START;
  }

  lemma SecondSubmission()
    ensures Approvals.Commit(REDRAFTED, REDRAFTED, REDRAFTED, Approvals.Act(10, Approvals.Submit, None, true)) == Success(RESENT)
    ensures Approvals.CoupledOrder(REDRAFTED, Approvals.Act(10, Approvals.Submit, None, true), RELEASED) == RELEASED
  {
    assert [SENT1, OPEN2][..1] == [SENT1] && [SENT1][..0] == [];
    assert Approvals.LatestNo([]) == 0;
    assert Approvals.LatestNo([SENT1]) == 1;
    assert Approvals.LatestNo([SENT1, OPEN2]) == 2;
    assert Approvals.MarkSubmitted([SENT1, OPEN2], 2) == [SENT1, SENT2];
    assert [E1, E2, E3] + [E4] == [E1, E2, E3, E4];
    assert RELEASED.notes[0] == Shared.WAITING_APPROVAL_START;
  }

  lemma DraftIsReachable()
    ensures Reachable(Sys(FRESH, DRAFTED, {}))
  {
    var empty := System(map[], map[], Stock.Store(map[], []), map[]);
    var s1, s2 := empty.(orders := map[1 := WorkOrders.State(FRESH, {})]), Sys(FRESH, DRAFTED, {});
    assert EndsIn(Run([empty], []), empty);
    assert empty.orders[1 := WorkOrders.State(WorkOrders.Created(None, 0), {})] == s1.orders;
    ReachableOn(empty, CreateOrder(1, None, 0), s1);
    assert s1.approvals[5 := Approval(1, ApprovalRuns.State(Approvals.NewDraft(10, C), {}))] == s2.approvals;
    ReachableOn(s1, CreateDraft(5, 1, 10, C), s2);
  }

  lemma RefusedIsReachable()
    ensures Reachable(Sys(RELEASED, REFUSED, {} + {DRAFTED} + {SENT}))
  {
    DraftIsReachable();
    FirstSubmission();
    Request(FRESH, WAITING, DRAFTED, SENT, {}, Approvals.Act(10, Approvals.Submit, None, true));
    Rejection();
    Request(WAITING, RELEASED, SENT, REFUSED, {} + {DRAFTED}, Approvals.Act(20, Approvals.Reject, None, true));
  }

  /** Submitted, rejected, revised and submitted again: the approval is SUBMITTED, its order not waiting. */
  lemma SecondSubmissionLeavesOrderInProgress()
    ensures exists s :: Reachable(s) && Submitted(s, 5) && s.approvals[5].order in s.orders
              && s.orders[s.approvals[5].order].row.status == Shared.IN_PROGRESS
  {
    RefusedIsReachable();
    var seen := {} + {DRAFTED} + {SENT};
    NewRevision();
    Request(RELEASED, RELEASED, REFUSED, REDRAFTED, seen, Approvals.Op.NewRevision(10));
    SecondSubmission();
    Request(RELEASED, RELEASED, REDRAFTED, RESENT, seen + {REFUSED}, Approvals.Act(10, Approvals.Submit, None, true));
    assert Submitted(Sys(RELEASED, RESENT, seen + {REFUSED} + {REDRAFTED}), 5);
  }
}
