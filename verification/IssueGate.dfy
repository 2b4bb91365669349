/**
 Work orders, approvals and stock together: which issues of stock an approval gates.
 */
module IssueGate {
  import opened Outcomes
  import Shared
  import WorkOrders
  import Approvals
  import ApprovalRuns
  import Stock
  import StockLedger

  datatype Approval = Approval(order: nat, st: ApprovalRuns.State)

  /** `lines` are the part lists of the revisions; no service writes them, so they are fixed. */
  datatype System = System(
    orders: map<nat, WorkOrders.State>,
    approvals: map<nat, Approval>,
    store: Stock.Store,
    lines: map<Stock.RevisionId, seq<Stock.Line>>)

  datatype Label =
    | CreateOrder(order: nat, assignee: Option<nat>, at: int)
    | ReadOrder(order: nat)
    | ChangeOrder(order: nat, read: WorkOrders.Order, op: WorkOrders.Op)
    | CreateDraft(approval: nat, order: nat, actor: nat, content: Approvals.Content)
    | ReadApproval(approval: nat)
    | DoApproval(approval: nat, first: Approvals.Approval, latest: Approvals.Approval, aop: Approvals.Op)
    | DoStock(sop: Stock.Op)

  predicate Open(s: System, a: nat)
    requires a in s.approvals
  {
    s.approvals[a].st.row.status != Approvals.CANCELLED
  }

  /** What precedes a draft: the order exists, has no open approval and is not closed. */
  function DraftCheck(s: System, order: nat): Result<()> {
    if order !in s.orders then Failure("NOT_FOUND")
    else if exists b :: b in s.approvals && s.approvals[b].order == order && Open(s, b) then Failure("CONFLICT")
    else if WorkOrders.Terminal(s.orders[order].row.status) then Failure("WO_TERMINAL_CANNOT_APPROVE")
    else Success(())
  }

  /** A draft goes through exactly for an existing order that is not closed and whose approvals are all cancelled. */
  lemma DraftIsAcceptedIff(s: System, order: nat)
    ensures DraftCheck(s, order).Success? <==>
              && order in s.orders
              && s.orders[order].row.status != Shared.COMPLETED && s.orders[order].row.status != Shared.CANCELLED
              && forall b :: b in s.approvals && s.approvals[b].order == order ==>
                   s.approvals[b].st.row.status == Approvals.CANCELLED
  {
    if b :| b in s.approvals && s.approvals[b].order == order && Open(s, b) {
      assert s.approvals[b].st.row.status != Approvals.CANCELLED;
    }
  }

  /** The status the issue reads for its work order. */
  function StatusOf(s: System, order: nat): Option<Shared.WorkOrderStatus> {
    if order in s.orders then Some(s.orders[order].row.status) else None
  }

  /** The revision created last in an approved approval of the order: what the issue looks up. */
  ghost predicate NewestApproved(s: System, order: nat, a: nat, r: Stock.RevisionId) {
    && a in s.approvals && s.approvals[a].order == order
    && s.approvals[a].st.row.status == Approvals.APPROVED
    && var revisions := s.approvals[a].st.row.revisions;
       revisions != [] && r == Stock.RevisionId(a, revisions[|revisions| - 1].no)
  }

  ghost predicate LooksUp(s: System, order: nat, approved: Option<Stock.RevisionId>) {
    match approved
    case Some(r) => exists a :: NewestApproved(s, order, a, r)
    case None => forall a :: a in s.approvals && s.approvals[a].order == order ==>
                   s.approvals[a].st.row.status != Approvals.APPROVED
  }

  ghost predicate Step(s: System, l: Label, s': System) {
    match l
    case CreateOrder(o, assignee, at) =>
      && o !in s.orders
      && s' == s.(orders := s.orders[o := WorkOrders.State(WorkOrders.Created(assignee, at), {})])
    case ReadOrder(o) =>
      && o in s.orders
      && s' == s.(orders := s.orders[o := WorkOrders.State(s.orders[o].row, s.orders[o].seen + {s.orders[o].row})])
    case ChangeOrder(o, read, op) =>
      // users cannot enter or leave the waiting status this way; approvals do
      && o in s.orders && !op.EnterWaiting? && !op.ExitWaiting?
      && o in s'.orders && WorkOrders.CommitStep(s.orders[o], s'.orders[o], read, op)
      && s' == s.(orders := s.orders[o := s'.orders[o]])
    case CreateDraft(a, o, actor, content) =>
      && a !in s.approvals && DraftCheck(s, o).Success?
      && s' == s.(approvals := s.approvals[a := Approval(o, ApprovalRuns.State(Approvals.NewDraft(actor, content), {}))])
    case ReadApproval(a) =>
      && a in s.approvals && a in s'.approvals
      && ApprovalRuns.Step(s.approvals[a].st, ApprovalRuns.Read, s'.approvals[a].st)
      && s' == s.(approvals := s.approvals[a := Approval(s.approvals[a].order, s'.approvals[a].st)])
    case DoApproval(a, first, latest, op) =>
      && a in s.approvals && a in s'.approvals
      && var o := s.approvals[a].order;
      && o in s.orders
      && (op.AutoCancel? ==> s.orders[o].row.status == Shared.CANCELLED)
      && ApprovalRuns.Step(s.approvals[a].st, ApprovalRuns.Do(first, latest, op), s'.approvals[a].st)
      && s' == s.(approvals := s.approvals[a := Approval(o, s'.approvals[a].st)],
                  orders := s.orders[o := Coupled(s.orders[o], first, op)])
    case DoStock(op) =>
      && Stock.Admissible(op)
      && (op.Issue? ==> op.status == StatusOf(s, op.order) && LooksUp(s, op.order, op.approved))
      && Stock.Apply(s.store, s.lines, op) == Success(s'.store)
      && s' == s.(store := s'.store)
  }

  function Coupled(o: WorkOrders.State, first: Approvals.Approval, op: Approvals.Op): WorkOrders.State {
    WorkOrders.State(Approvals.CoupledOrder(first, op, o.row), o.seen)
  }

  datatype Run = Run(states: seq<System>, labels: seq<Label>)

  ghost predicate IsRun(run: Run) {
    && |run.states| == |run.labels| + 1
    && run.states[0] == System(map[], map[], Stock.Store(map[], []), run.states[0].lines)
    && forall i :: 0 <= i < |run.labels| ==> Step(run.states[i], run.labels[i], run.states[i + 1])
  }

  // ---------------------------------------------------------------------------
  // The joint invariant
  // ---------------------------------------------------------------------------

  /** A work order has at most one approval that is not cancelled. */
  ghost predicate OneOpenApproval(s: System) {
    forall a, b | a in s.approvals && b in s.approvals && Open(s, a) && Open(s, b) ::
      s.approvals[a].order == s.approvals[b].order ==> a == b
  }

  /** What an issue under a revision can rely on for ever. */
  ghost predicate Covered(s: System, t: Stock.Tx) {
    t.revision.Some? ==>
      && t.revision.value.approval in s.approvals
      && t.workOrder == Some(s.approvals[t.revision.value.approval].order)
      && ApprovalRuns.ApprovedByAnother(s.approvals[t.revision.value.approval].st.row, t.revision.value.no)
  }

  ghost predicate ApprovalsSound(s: System) {
    forall a :: a in s.approvals ==> ApprovalRuns.Inv(s.approvals[a].st) && s.approvals[a].order in s.orders
  }

  ghost predicate OrdersSound(s: System) {
    forall o :: o in s.orders ==> WorkOrders.Inv(s.orders[o])
  }

  ghost predicate Inv(s: System) {
    && ApprovalsSound(s) && OrdersSound(s) && OneOpenApproval(s)
    && StockLedger.Inv(s.store) && StockLedger.WithinBudgets(s.store, s.lines)
    && forall t :: t in s.store.ledger ==> Covered(s, t)
  }

  /** What an approval transaction does to its order is one legal step of that order. */
  lemma CouplingIsOrderStep(o: WorkOrders.State, first: Approvals.Approval, op: Approvals.Op)
    ensures WorkOrders.Next(o, Coupled(o, first, op))
  {
    var o' := Coupled(o, first, op);
    assert WorkOrders.CommitStep(o, WorkOrders.State(WorkOrders.Entered(o.row), o.seen), o.row, WorkOrders.EnterWaiting);
    assert WorkOrders.CommitStep(o, WorkOrders.State(WorkOrders.Exited(o.row), o.seen), o.row, WorkOrders.ExitWaiting);
    assert WorkOrders.CommitStep(o, WorkOrders.State(o.row.(notes := o.row.notes + [Shared.PROGRESS]), o.seen),
                                 o.row, WorkOrders.AddNote(Shared.PROGRESS, true));
    if o'.row == o.row {
      assert o' == o;
    }
  }

  /** Every order of the joint system moves as in the interleavings of a single order. */
  lemma OrdersStep(s: System, l: Label, s': System, o: nat)
    requires Step(s, l, s') && o in s.orders
    ensures o in s'.orders && WorkOrders.Next(s.orders[o], s'.orders[o])
  {
    if l.DoApproval? {
      CouplingIsOrderStep(s.orders[s.approvals[l.approval].order], l.first, l.aop);
    }
  }

  lemma OrdersStaySound(s: System, l: Label, s': System)
    requires OrdersSound(s) && Step(s, l, s')
    ensures OrdersSound(s')
  {
    forall o | o in s'.orders
      ensures WorkOrders.Inv(s'.orders[o])
    {
      if o in s.orders {
        OrdersStep(s, l, s', o);
        WorkOrders.StepKeepsInv(s.orders[o], s'.orders[o]);
      }
    }
  }

  lemma ApprovalsStaySound(s: System, l: Label, s': System)
    requires ApprovalsSound(s) && Step(s, l, s')
    ensures ApprovalsSound(s')
  {
    match l
    case ReadApproval(a) => ApprovalRuns.StepKeepsInv(s.approvals[a].st, ApprovalRuns.Read, s'.approvals[a].st);
    case DoApproval(a, first, latest, op) =>
      ApprovalRuns.StepKeepsInv(s.approvals[a].st, ApprovalRuns.Do(first, latest, op), s'.approvals[a].st);
    case CreateDraft(a, _, _, _) =>
      ApprovalRuns.InitInv(s'.approvals[a].st);
    case _ =>
  }

  /** No step reopens a cancelled approval or moves an approval to another order. */
  lemma OpenWasOpen(s: System, l: Label, s': System, a: nat)
    requires ApprovalsSound(s) && Step(s, l, s') && a in s.approvals
    ensures a in s'.approvals && s'.approvals[a].order == s.approvals[a].order
    ensures Open(s', a) ==> Open(s, a)
  {
    if l.DoApproval? && l.approval == a && !Open(s, a) {
      ApprovalRuns.CancelledIsAbsorbing(s.approvals[a].st, ApprovalRuns.Do(l.first, l.latest, l.aop), s'.approvals[a].st);
    }
  }

  /** A draft is only opened where no approval is open. */
  lemma NewApproval(s: System, l: Label, s': System, a: nat)
    requires Step(s, l, s') && a in s'.approvals && a !in s.approvals
    ensures l.CreateDraft? && l.approval == a && s'.approvals[a].order == l.order
    ensures forall b :: b in s.approvals && s.approvals[b].order == l.order ==> !Open(s, b)
  {
  }

  lemma OneOpenStays(s: System, l: Label, s': System)
    requires ApprovalsSound(s) && OneOpenApproval(s) && Step(s, l, s')
    ensures OneOpenApproval(s')
  {
    forall a, b | a in s'.approvals && b in s'.approvals && Open(s', a) && Open(s', b)
                  && s'.approvals[a].order == s'.approvals[b].order
      ensures a == b
    {
      if a in s.approvals {
        OpenWasOpen(s, l, s', a);
      } else {
        NewApproval(s, l, s', a);
      }
      if b in s.approvals {
        OpenWasOpen(s, l, s', b);
      } else {
        NewApproval(s, l, s', b);
      }
    }
  }

  /**
   The check that precedes a draft is needed and enough: a new draft keeps the order at one open
   approval exactly when none is open on it at that moment.
   */
  lemma DraftKeepsOneOpenIffNoneIsOpen(s: System, a: nat, order: nat, actor: nat, content: Approvals.Content)
    requires OneOpenApproval(s) && a !in s.approvals
    ensures
      var draft := Approval(order, ApprovalRuns.State(Approvals.NewDraft(actor, content), {}));
      OneOpenApproval(s.(approvals := s.approvals[a := draft]))
      <==> forall b :: b in s.approvals && s.approvals[b].order == order ==> !Open(s, b)
  {
    var draft := Approval(order, ApprovalRuns.State(Approvals.NewDraft(actor, content), {}));
    var s' := s.(approvals := s.approvals[a := draft]);
    forall b | b in s.approvals
      ensures b in s'.approvals && s'.approvals[b] == s.approvals[b] && (Open(s', b) <==> Open(s, b))
    {
    }
    assert Open(s', a);
    if b :| b in s.approvals && s.approvals[b].order == order && Open(s, b) {
      assert Open(s', b) && b != a && s'.approvals[b].order == s'.approvals[a].order;
    }
  }

  lemma EventsPersist(s: System, l: Label, s': System, a: nat, no: nat)
    requires ApprovalsSound(s) && Step(s, l, s') && a in s.approvals
    requires ApprovalRuns.ApprovedByAnother(s.approvals[a].st.row, no)
    ensures a in s'.approvals && s'.approvals[a].order == s.approvals[a].order
    ensures ApprovalRuns.ApprovedByAnother(s'.approvals[a].st.row, no)
  {
    var row := s.approvals[a].st.row;
    var e :| e in row.events && e.kind == Approvals.Approved && e.revision == no && e.actor != row.proposer;
    if l.DoApproval? && l.approval == a {
      ApprovalRuns.EventsAndProposerStay(s.approvals[a].st, ApprovalRuns.Do(l.first, l.latest, l.aop), s'.approvals[a].st);
      assert e in s'.approvals[a].st.row.events;
    }
  }

  /**
   When a part that requires approval is issued, the issue names the latest revision of the
   order's only approval that is not cancelled; that approval is APPROVED, by someone other
   than its proposer.
   */
  ghost predicate Gated(s: System, order: nat, r: Stock.RevisionId) {
    && r.approval in s.approvals
    && var a := s.approvals[r.approval];
    && a.order == order
    && a.st.row.status == Approvals.APPROVED
    && r.no == Approvals.LatestNo(a.st.row.revisions)
    && (forall b :: b in s.approvals && s.approvals[b].order == order && Open(s, b) ==> b == r.approval)
    && ApprovalRuns.ApprovedByAnother(a.st.row, r.no)
  }

  lemma LookupIsGated(s: System, order: nat, r: Stock.RevisionId)
    requires Inv(s) && LooksUp(s, order, Some(r))
    ensures Gated(s, order, r)
  {
    var a :| NewestApproved(s, order, a, r);
    assert Open(s, a);
    ApprovalRuns.ApprovedMeansByAnother(s.approvals[a].st.row);
  }

  lemma StockIsCovered(s: System, l: Label, s': System)
    requires Inv(s) && Step(s, l, s') && l.DoStock?
    ensures forall t :: t in s'.store.ledger ==> Covered(s', t)
  {
    var op := l.sop;
    if !op.CreatePart? && !op.UpdatePart? {
      var t := StockLedger.ApplyAppends(s.store, s.lines, op, s'.store);
      if op.Issue? && t.revision.Some? {
        LookupIsGated(s, op.order, t.revision.value);
      }
      forall x | x in s'.store.ledger
        ensures Covered(s', x)
      {
        if x in s.store.ledger {
          assert Covered(s, x);
        }
      }
    }
  }

  lemma LedgerStaysCovered(s: System, l: Label, s': System)
    requires Inv(s) && Step(s, l, s')
    ensures forall t :: t in s'.store.ledger ==> Covered(s', t)
  {
    if l.DoStock? {
      StockIsCovered(s, l, s');
    } else {
      forall t | t in s'.store.ledger
        ensures Covered(s', t)
      {
        assert Covered(s, t);
        if t.revision.Some? {
          EventsPersist(s, l, s', t.revision.value.approval, t.revision.value.no);
        }
      }
    }
  }

  lemma StepKeepsInv(s: System, l: Label, s': System)
    requires Inv(s) && Step(s, l, s')
    ensures Inv(s')
  {
    OrdersStaySound(s, l, s');
    ApprovalsStaySound(s, l, s');
    OneOpenStays(s, l, s');
    LedgerStaysCovered(s, l, s');
    if l.DoStock? {
      StockLedger.ApplyKeeps(s.store, s.lines, l.sop, s'.store);
    }
  }

  lemma {:induction false} RunKeepsInv(run: Run, n: nat)
    requires IsRun(run) && n < |run.states|
    ensures Inv(run.states[n])
  {
    if n == 0 {
      StockLedger.EmptyStore(run.states[0].lines);
    } else {
      RunKeepsInv(run, n - 1);
      StepKeepsInv(run.states[n - 1], run.labels[n - 1], run.states[n]);
    }
  }

  /** In every run, every issue of a part that requires approval when it is recorded is gated. */
  lemma IssuesAreGated(run: Run, n: nat)
    requires IsRun(run) && n < |run.labels|
    requires run.labels[n].DoStock? && run.labels[n].sop.Issue?
    requires run.labels[n].sop.part in run.states[n].store.parts
    requires run.states[n].store.parts[run.labels[n].sop.part].requiresApproval
    ensures
      var s, op, ledger' := run.states[n], run.labels[n].sop, run.states[n + 1].store.ledger;
      var t := ledger'[|ledger'| - 1];
      && ledger' == s.store.ledger + [t]
      && t.movement == Stock.ISSUE && t.part == op.part && t.quantity == op.quantity && t.workOrder == Some(op.order)
      && t.revision.Some? && Gated(s, op.order, t.revision.value)
      && op.order in s.orders && !WorkOrders.Terminal(s.orders[op.order].row.status)
  {
    RunKeepsInv(run, n);
    var s, op := run.states[n], run.labels[n].sop;
    assert Step(s, run.labels[n], run.states[n + 1]);
    var t := StockLedger.ApplyAppends(s.store, s.lines, op, run.states[n + 1].store);
    LookupIsGated(s, op.order, op.approved.value);
  }

  /**
   In every state of every run: the orders move along legal edges only, no order has two open
   approvals, every issue under a revision stays backed by a foreign approval of it, and no
   revision's budget is exceeded for any part.
   */
  lemma JointSafety(run: Run, n: nat, o: nat)
    requires IsRun(run) && n < |run.labels|
    ensures o in run.states[n].orders ==>
              o in run.states[n + 1].orders && WorkOrders.Legal(run.states[n].orders[o].row, run.states[n + 1].orders[o].row)
    ensures OneOpenApproval(run.states[n])
    ensures forall t :: t in run.states[n].store.ledger ==> Covered(run.states[n], t)
    ensures forall r, p :: Stock.Sum(run.states[n].store.ledger, Stock.PartUnder(r, p))
                           <= Stock.Budget(Stock.LinesOf(run.states[n].lines, r), p)
  {
    RunKeepsInv(run, n);
    if o in run.states[n].orders {
      OrdersStep(run.states[n], run.labels[n], run.states[n + 1], o);
      WorkOrders.StepKeepsInv(run.states[n].orders[o], run.states[n + 1].orders[o]);
    }
  }
}
