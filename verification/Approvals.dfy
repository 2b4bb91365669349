/**
 Approvals: the transition table and the service's operations on one approval with its numbered
 revisions and its event log, each given what its request has read earlier.
 */
module Approvals {
  import opened Outcomes
  import Shared
  import WorkOrders

  datatype Status = DRAFT | SUBMITTED | INFO_REQUESTED | APPROVED | REJECTED | CANCELLED

  datatype Action = Submit | Approve | Reject | RequestInfo | Cancel

  datatype EventKind = Submitted | RevisionCreated | Approved | Rejected | InfoRequested | Cancelled

  predicate CanTransition(from: Status, to: Status) {
    match from
    case DRAFT => to == SUBMITTED || to == CANCELLED
    case SUBMITTED => to == APPROVED || to == REJECTED || to == INFO_REQUESTED || to == CANCELLED
    case INFO_REQUESTED => to == DRAFT || to == CANCELLED
    case APPROVED => to == DRAFT
    case REJECTED => to == DRAFT
    case CANCELLED => false
  }

  function ResolveTargetState(current: Status, action: Action): Result<Status> {
    if action == Submit && current == DRAFT then Success(SUBMITTED)
    else if action == Approve && current == SUBMITTED then Success(APPROVED)
    else if action == Reject && current == SUBMITTED then Success(REJECTED)
    else if action == RequestInfo && current == SUBMITTED then Success(INFO_REQUESTED)
    else if action == Cancel && (current == DRAFT || current == SUBMITTED || current == INFO_REQUESTED) then Success(CANCELLED)
    else Failure("APR_INVALID_ACTION_FOR_STATE")
  }

  /** The actions and the opening of a new revision realise the table edge by edge, and nothing else. */
  lemma ActionsRealiseTheTable(from: Status, to: Status)
    ensures CanTransition(from, to) <==>
            (exists a :: ResolveTargetState(from, a) == Success(to)) || (to == DRAFT && MayOpenRevision(from))
  {
    assert ResolveTargetState(from, Submit) == Success(to) || ResolveTargetState(from, Approve) == Success(to)
        || ResolveTargetState(from, Reject) == Success(to) || ResolveTargetState(from, RequestInfo) == Success(to)
        || ResolveTargetState(from, Cancel) == Success(to) || to == DRAFT || !CanTransition(from, to);
  }

  /** Each action has its own target, and only drafts are submitted. */
  lemma TargetTellsAction(from: Status, action: Action)
    requires ResolveTargetState(from, action).Success?
    ensures
      var to := ResolveTargetState(from, action).value;
      && (to == SUBMITTED <==> action == Submit) && (action == Submit ==> from == DRAFT)
      && (to == APPROVED <==> action == Approve) && (to == REJECTED <==> action == Reject)
      && (to == INFO_REQUESTED <==> action == RequestInfo) && (to == CANCELLED <==> action == Cancel)
  {
  }

  predicate IsTerminal(s: Status) {
    s == APPROVED || s == CANCELLED
  }

  /** `isTerminal` and the table agree on every status but APPROVED. */
  lemma TerminalExceptApproved(s: Status)
    ensures (IsTerminal(s) <==> forall t :: !CanTransition(s, t)) <==> s != APPROVED
  {
    assert CanTransition(APPROVED, DRAFT) && CanTransition(REJECTED, DRAFT) && CanTransition(DRAFT, SUBMITTED)
        && CanTransition(SUBMITTED, APPROVED) && CanTransition(INFO_REQUESTED, DRAFT);
  }

  // ---------------------------------------------------------------------------
  // Data
  // ---------------------------------------------------------------------------

  datatype Content = Content(reason: string, plan: string, cost: nat)

  /** `submitted` is set when `submitted_at` is; it also remembers the content at that moment. */
  datatype Revision = Revision(no: nat, content: Content, submitted: Option<Content>)

  datatype Event = Event(kind: EventKind, revision: nat, actor: nat)

  datatype Approval = Approval(
    proposer: nat,
    status: Status,
    version: nat,
    revisions: seq<Revision>,
    events: seq<Event>)

  function NewDraft(actor: nat, content: Content): Approval {
    Approval(actor, DRAFT, 1, [Revision(1, content, None)], [])
  }

  /** The largest revision number; 0 if there is no revision. */
  function LatestNo(revisions: seq<Revision>): nat {
    if revisions == [] then 0
    else
      var best, r := LatestNo(revisions[..|revisions| - 1]), revisions[|revisions| - 1];
      if r.no > best then r.no else best
  }

  function ContentOf(revisions: seq<Revision>, no: nat): Content {
    if revisions == [] then Content("", "", 0)
    else if revisions[|revisions| - 1].no == no then revisions[|revisions| - 1].content
    else ContentOf(revisions[..|revisions| - 1], no)
  }

  function MarkSubmitted(revisions: seq<Revision>, no: nat): seq<Revision> {
    seq(|revisions|, i requires 0 <= i < |revisions| =>
      if revisions[i].no == no then revisions[i].(submitted := Some(revisions[i].content)) else revisions[i])
  }

  /** The fields an edit names. Unlike the others, a cost that is not named is reset to 0. */
  datatype Edits = Edits(reason: Option<string>, plan: Option<string>, cost: Option<nat>)

  function Edited(c: Content, e: Edits): Content {
    Content(if e.reason.Some? then e.reason.value else c.reason,
            if e.plan.Some? then e.plan.value else c.plan,
            if e.cost.Some? then e.cost.value else 0)
  }

  function WithEdits(revisions: seq<Revision>, no: nat, e: Edits): seq<Revision> {
    seq(|revisions|, i requires 0 <= i < |revisions| =>
      if revisions[i].no == no then revisions[i].(content := Edited(revisions[i].content, e)) else revisions[i])
  }

  // ---------------------------------------------------------------------------
  // Operations: check what was read, then write
  // ---------------------------------------------------------------------------

  /** `expected` is the version the caller names, if any; `permitted` whether their role may take the action. */
  datatype Op =
    | Act(actor: nat, action: Action, expected: Option<nat>, permitted: bool)
    | NewRevision(actor: nat)
    | Edit(actor: nat, edits: Edits)
    | AutoCancel(actor: nat)

  predicate MayOpenRevision(s: Status) {
    s == APPROVED || s == REJECTED || s == INFO_REQUESTED
  }

  predicate Editable(s: Status) {
    s == DRAFT || s == INFO_REQUESTED || s == REJECTED
  }

  function EventOf(action: Action): EventKind {
    match action
    case Submit => Submitted
    case Approve => Approved
    case Reject => Rejected
    case RequestInfo => InfoRequested
    case Cancel => Cancelled
  }

  /** `first` is the approval as read at the start; `latest` is the later read of its latest revision. */
  function Check(first: Approval, latest: Approval, op: Op): Result<()> {
    match op
    case Act(actor, action, expected, permitted) =>
      if !permitted then Failure("FORBIDDEN")
      else if expected.Some? && expected.value != first.version then Failure("CONFLICT")
      else if ResolveTargetState(first.status, action).Failure? then Failure("APR_INVALID_ACTION_FOR_STATE")
      else if action == Approve && first.proposer == actor then Failure("APR_SELF_APPROVAL_FORBIDDEN")
      else if first.proposer == actor && (action == Reject || action == RequestInfo) then Failure("FORBIDDEN")
      else if latest.revisions == [] then Failure("APR_NO_REVISION")
      else Success(())
    case NewRevision(actor) =>
      if first.proposer != actor then Failure("FORBIDDEN")
      else if !MayOpenRevision(first.status) then Failure("APR_INVALID_FOR_NEW_REVISION")
      else Success(())
    case Edit(actor, _) =>
      if first.proposer != actor then Failure("FORBIDDEN")
      else if !Editable(first.status) then Failure("APR_NOT_EDITABLE")
      else if latest.revisions == [] then Failure("APR_NO_REVISION")
      else Success(())
    case AutoCancel(_) =>
      // the cascade only lists pending approvals
      if first.status != SUBMITTED && first.status != INFO_REQUESTED then Failure("NOT_PENDING")
      else if latest.revisions == [] then Failure("APR_NO_REVISION")
      else Success(())
  }

  function Commit(first: Approval, latest: Approval, row: Approval, op: Op): Result<Approval> {
    match Check(first, latest, op)
    case Failure(e) => Failure(e)
    case Success(_) =>
      var no := LatestNo(latest.revisions);
      match op
      case Act(actor, action, _, _) =>
        var target := ResolveTargetState(first.status, action).value;
        if row.version != first.version then Failure(RECORD_NOT_FOUND)
        else Success(row.(status := target, version := row.version + 1,
                          revisions := if target == SUBMITTED then MarkSubmitted(row.revisions, no) else row.revisions,
                          events := row.events + [Event(EventOf(action), no, actor)]))
      case NewRevision(actor) =>
        if exists r :: r in row.revisions && r.no == no + 1 then Failure("P2002")
        else if row.version != first.version then Failure(RECORD_NOT_FOUND)
        else Success(row.(status := DRAFT, version := row.version + 1,
                          revisions := row.revisions + [Revision(no + 1, ContentOf(latest.revisions, no), None)],
                          events := row.events + [Event(RevisionCreated, no + 1, actor)]))
      case Edit(_, edits) =>
        Success(row.(revisions := WithEdits(row.revisions, no, edits)))
      case AutoCancel(actor) =>
        Success(row.(status := CANCELLED, version := row.version + 1,
                     events := row.events + [Event(Cancelled, no, actor)]))
  }

  // ---------------------------------------------------------------------------
  // When an operation is accepted, and what it changes
  // ---------------------------------------------------------------------------

  /** The statuses from which an action leads on, and where to. */
  predicate Leads(from: Status, action: Action, to: Status) {
    || (action == Submit && from == DRAFT && to == SUBMITTED)
    || (action == Approve && from == SUBMITTED && to == APPROVED)
    || (action == Reject && from == SUBMITTED && to == REJECTED)
    || (action == RequestInfo && from == SUBMITTED && to == INFO_REQUESTED)
    || (action == Cancel && (from == DRAFT || from == SUBMITTED || from == INFO_REQUESTED) && to == CANCELLED)
  }

  /**
   An action goes through exactly when: the role permits it; the version the caller names, if any, is
   the one read; it leads on from the status read; the proposer only submits or cancels; there is a
   revision; and the version read is still stored.
   */
  ghost predicate ActionGoesThrough(first: Approval, latest: Approval, stored: nat, actor: nat, action: Action,
                                    expected: Option<nat>, permitted: bool) {
    && permitted
    && (expected == None || expected == Some(first.version))
    && (exists to :: Leads(first.status, action, to))
    && (actor == first.proposer ==> action == Submit || action == Cancel)
    && |latest.revisions| > 0
    && stored == first.version
  }

  lemma ActionIsAcceptedIff(first: Approval, latest: Approval, row: Approval, actor: nat, action: Action,
                            expected: Option<nat>, permitted: bool)
    ensures Commit(first, latest, row, Act(actor, action, expected, permitted)).Success?
       <==> ActionGoesThrough(first, latest, row.version, actor, action, expected, permitted)
  {
    ResolvedIffLeads(first.status, action);
  }

  /** The reason an action is refused for: the first of its conditions that fails. */
  lemma ActionRefusals(first: Approval, latest: Approval, row: Approval, actor: nat, action: Action,
                       expected: Option<nat>, permitted: bool)
    ensures
      var r := Commit(first, latest, row, Act(actor, action, expected, permitted));
      var current := expected == None || expected == Some(first.version);
      var leads := exists to :: Leads(first.status, action, to);
      var decides := actor == first.proposer && action != Submit && action != Cancel;
      && (!permitted ==> r == Failure("FORBIDDEN"))
      && (permitted && !current ==> r == Failure("CONFLICT"))
      && (permitted && current && !leads ==> r == Failure("APR_INVALID_ACTION_FOR_STATE"))
      && (permitted && current && leads && decides ==>
            r == Failure(if action == Approve then "APR_SELF_APPROVAL_FORBIDDEN" else "FORBIDDEN"))
      && (permitted && current && leads && !decides && |latest.revisions| == 0 ==> r == Failure("APR_NO_REVISION"))
      && (permitted && current && leads && !decides && |latest.revisions| > 0 && row.version != first.version ==>
            r == Failure(RECORD_NOT_FOUND))
  {
    ResolvedIffLeads(first.status, action);
  }

  lemma ResolvedIffLeads(from: Status, action: Action)
    ensures ResolveTargetState(from, action).Success? <==> exists to :: Leads(from, action, to)
    ensures ResolveTargetState(from, action).Success? ==> Leads(from, action, ResolveTargetState(from, action).value)
  {
    assert Leads(DRAFT, Submit, SUBMITTED) && Leads(SUBMITTED, Approve, APPROVED) && Leads(SUBMITTED, Reject, REJECTED)
        && Leads(SUBMITTED, RequestInfo, INFO_REQUESTED) && Leads(DRAFT, Cancel, CANCELLED)
        && Leads(SUBMITTED, Cancel, CANCELLED) && Leads(INFO_REQUESTED, Cancel, CANCELLED);
  }

  lemma {:induction false} LatestNoIsMaximum(revisions: seq<Revision>)
    ensures forall r :: r in revisions ==> r.no <= LatestNo(revisions)
    ensures revisions != [] ==> exists r :: r in revisions && r.no == LatestNo(revisions)
  {
    if revisions != [] {
      var rest, r := revisions[..|revisions| - 1], revisions[|revisions| - 1];
      LatestNoIsMaximum(rest);
      assert forall x :: x in revisions <==> x in rest || x == r;
    }
  }

  /** One event on the latest revision read; on submission that revision's content is put on record. */
  lemma ActionEffect(first: Approval, latest: Approval, row: Approval, actor: nat, action: Action,
                     expected: Option<nat>, permitted: bool)
    requires Commit(first, latest, row, Act(actor, action, expected, permitted)).Success?
    ensures
      var a := Commit(first, latest, row, Act(actor, action, expected, permitted)).value;
      var no := LatestNo(latest.revisions);
      && Leads(first.status, action, a.status) && a.version == row.version + 1 && a.proposer == row.proposer
      && |a.events| == |row.events| + 1 && row.events <= a.events
      && a.events[|row.events|].revision == no && a.events[|row.events|].actor == actor
      && (a.events[|row.events|].kind == Submitted <==> action == Submit)
      && (a.events[|row.events|].kind == Approved <==> action == Approve)
      && (a.events[|row.events|].kind == Rejected <==> action == Reject)
      && (a.events[|row.events|].kind == InfoRequested <==> action == RequestInfo)
      && (a.events[|row.events|].kind == Cancelled <==> action == Cancel)
      && |a.revisions| == |row.revisions|
      && forall i :: 0 <= i < |row.revisions| ==>
           && a.revisions[i].no == row.revisions[i].no && a.revisions[i].content == row.revisions[i].content
           && a.revisions[i].submitted == (if action == Submit && row.revisions[i].no == no
                                           then Some(row.revisions[i].content) else row.revisions[i].submitted)
  {
    ResolvedIffLeads(first.status, action);
  }

  /** A new revision goes through exactly for the proposer of a decided approval, on the version read, under a free number. */
  lemma NewRevisionIsAcceptedIff(first: Approval, latest: Approval, row: Approval, actor: nat)
    ensures Commit(first, latest, row, Op.NewRevision(actor)).Success? <==>
              && actor == first.proposer
              && (first.status == APPROVED || first.status == REJECTED || first.status == INFO_REQUESTED)
              && (forall r :: r in row.revisions ==> r.no != LatestNo(latest.revisions) + 1)
              && row.version == first.version
  {
  }

  lemma {:induction false} ContentIsOfThatRevision(revisions: seq<Revision>, no: nat)
    requires exists r :: r in revisions && r.no == no
    ensures exists r :: r in revisions && r.no == no && r.content == ContentOf(revisions, no)
  {
    var rest, last := revisions[..|revisions| - 1], revisions[|revisions| - 1];
    assert forall x :: x in revisions <==> x in rest || x == last;
    if last.no != no {
      ContentIsOfThatRevision(rest, no);
    }
  }

  /** It is an unsubmitted DRAFT copy of the latest revision read, under the next number. */
  lemma NewRevisionEffect(first: Approval, latest: Approval, row: Approval, actor: nat)
    requires Commit(first, latest, row, Op.NewRevision(actor)).Success? && latest.revisions != []
    ensures
      var a := Commit(first, latest, row, Op.NewRevision(actor)).value;
      var no := LatestNo(latest.revisions);
      && a.status == DRAFT && a.version == row.version + 1 && a.proposer == row.proposer
      && |a.revisions| == |row.revisions| + 1 && row.revisions <= a.revisions
      && a.revisions[|row.revisions|].no == no + 1 && a.revisions[|row.revisions|].submitted == None
      && (exists r :: r in latest.revisions && r.no == no && r.content == a.revisions[|row.revisions|].content)
      && a.events == row.events + [Event(RevisionCreated, no + 1, actor)]
  {
    LatestNoIsMaximum(latest.revisions);
    ContentIsOfThatRevision(latest.revisions, LatestNo(latest.revisions));
  }

  /** An edit goes through exactly for the proposer of an approval read in an editable status; no version is compared. */
  lemma EditIsAcceptedIff(first: Approval, latest: Approval, row: Approval, actor: nat, edits: Edits)
    ensures Commit(first, latest, row, Op.Edit(actor, edits)).Success? <==>
              && actor == first.proposer
              && (first.status == DRAFT || first.status == INFO_REQUESTED || first.status == REJECTED)
              && |latest.revisions| > 0
  {
  }

  /** It writes the named fields of the latest revision read, resets a cost not named, and touches nothing else. */
  lemma EditEffect(first: Approval, latest: Approval, row: Approval, actor: nat, edits: Edits)
    requires Commit(first, latest, row, Op.Edit(actor, edits)).Success?
    ensures
      var a := Commit(first, latest, row, Op.Edit(actor, edits)).value;
      && a.status == row.status && a.version == row.version && a.events == row.events && a.proposer == row.proposer
      && |a.revisions| == |row.revisions|
      && forall i :: 0 <= i < |row.revisions| ==>
           var r, r' := row.revisions[i], a.revisions[i];
           && r'.no == r.no && r'.submitted == r.submitted
           && (r.no != LatestNo(latest.revisions) ==> r' == r)
           && (r.no == LatestNo(latest.revisions) ==>
                 && r'.content.reason == (match edits.reason case Some(x) => x case None => r.content.reason)
                 && r'.content.plan == (match edits.plan case Some(x) => x case None => r.content.plan)
                 && r'.content.cost == (match edits.cost case Some(x) => x case None => 0))
  {
  }

  /** The cascade cancels exactly what was read as pending, and logs it on the latest revision read. */
  lemma CascadeCancelsIff(first: Approval, latest: Approval, row: Approval, actor: nat)
    ensures Commit(first, latest, row, Op.AutoCancel(actor)).Success? <==>
              (first.status == SUBMITTED || first.status == INFO_REQUESTED) && |latest.revisions| > 0
    ensures Commit(first, latest, row, Op.AutoCancel(actor)).Success? ==>
              Commit(first, latest, row, Op.AutoCancel(actor)).value ==
                row.(status := CANCELLED, version := row.version + 1,
                     events := row.events + [Event(Cancelled, LatestNo(latest.revisions), actor)])
  {
  }

  /** What a successful operation does to the approval's work order, in the same transaction. */
  function CoupledOrder(first: Approval, op: Op, order: WorkOrders.Order): WorkOrders.Order {
    match op
    case Act(_, Submit, _, _) => WorkOrders.Entered(order)
    case Act(_, RequestInfo, _, _) => order.(notes := order.notes + [Shared.PROGRESS])
    case Act(_, Cancel, _, _) => if first.status == SUBMITTED then WorkOrders.Exited(order) else order
    case Act(_, _, _, _) => WorkOrders.Exited(order)
    case NewRevision(_) => WorkOrders.Entered(order)
    case _ => order
  }

  /** The last approval-wait note: an order waits on its timeline while a start is unanswered. */
  predicate WaitIsOpen(notes: seq<Shared.NoteType>) {
    if notes == [] then false
    else
      var n := notes[|notes| - 1];
      if n == Shared.WAITING_APPROVAL_START then true
      else if n == Shared.WAITING_APPROVAL_END then false
      else WaitIsOpen(notes[..|notes| - 1])
  }

  /**
   A submission or a new revision parks the work order exactly when the order was waiting before,
   or has never waited for an approval and is not closed. A second round is never parked.
   */
  lemma SubmissionParksOrderIff(first: Approval, op: Op, order: WorkOrders.Order)
    requires (op.Act? && op.action == Submit) || op.NewRevision?
    ensures CoupledOrder(first, op, order).status == Shared.WAITING_APPROVAL <==>
            order.status == Shared.WAITING_APPROVAL
            || (Shared.WAITING_APPROVAL_START !in order.notes && !WorkOrders.Terminal(order.status))
    ensures Shared.WAITING_APPROVAL_START in order.notes ==> CoupledOrder(first, op, order) == order
    ensures Shared.WAITING_APPROVAL_START !in order.notes ==> WaitIsOpen(CoupledOrder(first, op, order).notes)
  {
  }

  lemma {:induction false} NoStartNoWait(notes: seq<Shared.NoteType>)
    requires Shared.WAITING_APPROVAL_START !in notes
    ensures !WaitIsOpen(notes)
  {
    if notes != [] {
      NoStartNoWait(notes[..|notes| - 1]);
    }
  }

  /** A decision, or the withdrawal of a submission, releases the order and ends its wait; the other actions do not move it. */
  lemma DecisionReleasesOrder(first: Approval, actor: nat, action: Action, expected: Option<nat>, permitted: bool,
                                order: WorkOrders.Order)
    ensures
      var after := CoupledOrder(first, Act(actor, action, expected, permitted), order);
      if action == Approve || action == Reject || (action == Cancel && first.status == SUBMITTED) then
        && after.status == (if order.status == Shared.WAITING_APPROVAL then Shared.IN_PROGRESS else order.status)
        && !WaitIsOpen(after.notes)
      else action != Submit ==>
        && after == order.(notes := order.notes + (if action == RequestInfo then [Shared.PROGRESS] else []))
        && (WaitIsOpen(after.notes) <==> WaitIsOpen(order.notes))
  {
    var after := CoupledOrder(first, Act(actor, action, expected, permitted), order);
    if after.notes != order.notes {
      assert after.notes[..|after.notes| - 1] == order.notes;
    }
    if Shared.WAITING_APPROVAL_START !in order.notes {
      NoStartNoWait(order.notes);
    }
  }

  // ---------------------------------------------------------------------------
  // The service on a stored approval
  // ---------------------------------------------------------------------------

  class ApprovalRow {
    const proposer: nat
    const workOrder: WorkOrders.WorkOrderRow
    var status: Status
    var version: nat
    var revisions: seq<Revision>
    var events: seq<Event>

    function View(): Approval
      reads this
    {
      Approval(proposer, status, version, revisions, events)
    }

    constructor (actor: nat, content: Content, workOrder: WorkOrders.WorkOrderRow)
      ensures View() == NewDraft(actor, content) && this.workOrder == workOrder
    {
      this.proposer, this.workOrder := actor, workOrder;
      status, version := DRAFT, 1;
      revisions, events := [Revision(1, content, None)], [];
    }

    /** A call commits to the approval and to its order together, or fails and changes neither. */
    ghost predicate Outcome(r: Result<()>, before: Approval, order: WorkOrders.Order,
                            first: Approval, latest: Approval, op: Op)
      reads this, workOrder
    {
      match Commit(first, latest, before, op)
      case Success(a) => r.Success? && View() == a && workOrder.View() == CoupledOrder(first, op, order)
      case Failure(e) => r == Failure(e) && View() == before && workOrder.View() == order
    }

    method PerformAction(first: Approval, latest: Approval, actor: nat, action: Action, expected: Option<nat>, permitted: bool)
      returns (r: Result<()>)
      modifies this, workOrder
      ensures Outcome(r, old(View()), old(workOrder.View()), first, latest, Act(actor, action, expected, permitted))
      ensures r.Success? <==> ActionGoesThrough(first, latest, old(version), actor, action, expected, permitted)
    {
      ActionIsAcceptedIff(first, latest, View(), actor, action, expected, permitted);
      if !permitted {
        return Failure("FORBIDDEN");
      }
      if expected.Some? && expected.value != first.version {
        return Failure("CONFLICT");
      }
      var resolved := ResolveTargetState(first.status, action);
      if resolved.Failure? {
        return Failure("APR_INVALID_ACTION_FOR_STATE");
      }
      var target := resolved.value;
      if target == APPROVED && first.proposer == actor {
        return Failure("APR_SELF_APPROVAL_FORBIDDEN");
      }
      if first.proposer == actor && (action == Approve || action == Reject || action == RequestInfo) {
        return Failure("FORBIDDEN");
      }
      if latest.revisions == [] {
        return Failure("APR_NO_REVISION");
      }
      if version != first.version {
        return Failure(RECORD_NOT_FOUND);
      }
      TargetTellsAction(first.status, action);
      assert Check(first, latest, Act(actor, action, expected, permitted)) == Success(());
      status := target;
      version := version + 1;
      var no := LatestNo(latest.revisions);
      if target == SUBMITTED && first.status == DRAFT {
        revisions := MarkSubmitted(revisions, no);
      }
      events := events + [Event(EventOf(action), no, actor)];
      assert Success(View()) == Commit(first, latest, old(View()), Act(actor, action, expected, permitted));
      if target == SUBMITTED && first.status == DRAFT {
        workOrder.EnterWaitingApproval();
      } else if target == APPROVED || target == REJECTED || (target == CANCELLED && first.status == SUBMITTED) {
        workOrder.ExitWaitingApproval();
      } else if target == INFO_REQUESTED {
        workOrder.notes := workOrder.notes + [Shared.PROGRESS];
      }
      return Success(());
    }

    method CreateNewRevision(first: Approval, latest: Approval, actor: nat) returns (r: Result<()>)
      modifies this, workOrder
      ensures Outcome(r, old(View()), old(workOrder.View()), first, latest, Op.NewRevision(actor))
    {
      if first.proposer != actor {
        return Failure("FORBIDDEN");
      }
      if first.status != APPROVED && first.status != REJECTED && first.status != INFO_REQUESTED {
        return Failure("APR_INVALID_FOR_NEW_REVISION");
      }
      var no := LatestNo(latest.revisions);
      if exists x :: x in revisions && x.no == no + 1 {
        return Failure("P2002");
      }
      if version != first.version {
        return Failure(RECORD_NOT_FOUND);
      }
      revisions := revisions + [Revision(no + 1, ContentOf(latest.revisions, no), None)];
      status := DRAFT;
      version := version + 1;
      events := events + [Event(RevisionCreated, no + 1, actor)];
      workOrder.EnterWaitingApproval();
      return Success(());
    }

    method UpdateDraft(first: Approval, latest: Approval, actor: nat, edits: Edits) returns (r: Result<()>)
      modifies this
      ensures Outcome(r, old(View()), old(workOrder.View()), first, latest, Op.Edit(actor, edits))
    {
      if first.proposer != actor {
        return Failure("FORBIDDEN");
      }
      if first.status != DRAFT && first.status != INFO_REQUESTED && first.status != REJECTED {
        return Failure("APR_NOT_EDITABLE");
      }
      if latest.revisions == [] {
        return Failure("APR_NO_REVISION");
      }
      revisions := WithEdits(revisions, LatestNo(latest.revisions), edits);
      return Success(());
    }

    /** The cascade of a cancelled work order; its update names the id but no version. */
    method CancelWithOrder(first: Approval, latest: Approval, actor: nat) returns (r: Result<()>)
      modifies this
      ensures Outcome(r, old(View()), old(workOrder.View()), first, latest, Op.AutoCancel(actor))
    {
      if first.status != SUBMITTED && first.status != INFO_REQUESTED {
        return Failure("NOT_PENDING");
      }
      if latest.revisions == [] {
        return Failure("APR_NO_REVISION");
      }
      status := CANCELLED;
      version := version + 1;
      events := events + [Event(Cancelled, LatestNo(latest.revisions), actor)];
      return Success(());
    }
  }
}
