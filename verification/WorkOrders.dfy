/**
 Work orders: the transition table, the service's read/compare-and-set operations, the steps
 that approvals take on an order, and every interleaving of them.
 */
module WorkOrders {
  import opened Outcomes
  import opened Shared

  predicate CanTransition(from: WorkOrderStatus, to: WorkOrderStatus) {
    match from
    case NEW => to == ASSIGNED || to == CANCELLED
    case ASSIGNED => to == IN_PROGRESS || to == CANCELLED
    case IN_PROGRESS => to == WAITING_APPROVAL || to == COMPLETED || to == CANCELLED
    case WAITING_APPROVAL => to == IN_PROGRESS || to == COMPLETED || to == CANCELLED
    case COMPLETED => false
    case CANCELLED => false
  }

  predicate Terminal(s: WorkOrderStatus) {
    s == COMPLETED || s == CANCELLED
  }

  /** A work order row with the kinds of its notes, oldest first; `result` stands for all result columns. */
  datatype Order = Order(
    status: WorkOrderStatus,
    version: nat,
    assignee: Option<nat>,
    startedAt: Option<int>,
    completedAt: Option<int>,
    cancelReason: Option<string>,
    result: Option<string>,
    notes: seq<NoteType>)

  /**
   `reason` is the caller's text after trimming; `expected` is the version the caller names, if
   any; `known` tells whether the assignee is a user, `reasoned` whether a note gives a pause reason.
   */
  datatype Op =
    | Transition(to: WorkOrderStatus, reason: string, at: int, expected: Option<nat>)
    | Assign(who: nat, known: bool)
    | Complete(at: int, result: string)
    | EnterWaiting
    | ExitWaiting
    | AddNote(kind: NoteType, reasoned: bool)

  /** What a request checks on the row it has read, before it writes. */
  function Check(read: Order, op: Op): Result<()> {
    match op
    case Transition(to, reason, _, expected) =>
      if expected.Some? && expected.value != read.version then Failure("CONFLICT")
      else if !CanTransition(read.status, to) then Failure("WO_INVALID_TRANSITION")
      else if to == CANCELLED && reason == "" then Failure("WO_CANCEL_REQUIRES_REASON")
      else Success(())
    case Assign(_, known) =>
      if !known then Failure("NOT_FOUND")
      else if read.status != NEW && read.status != ASSIGNED then Failure("WO_INVALID_ASSIGN_STATE") else Success(())
    case Complete(_, _) =>
      if read.status != IN_PROGRESS then Failure("WO_INVALID_TRANSITION") else Success(())
    case AddNote(kind, reasoned) =>
      if kind == PAUSE_START && !reasoned then Failure("WO_PAUSE_REQUIRES_REASON")
      else if kind == PAUSE_END && PAUSE_START !in read.notes then Failure("WO_RESUME_WITHOUT_PAUSE") else Success(())
    case _ => Success(())
  }

  /** The columns written by a request that read `read` and now updates `row`. */
  function Patched(read: Order, row: Order, op: Op): Order {
    match op
    case Transition(to, reason, at, _) =>
      row.(status := to, version := row.version + 1,
           startedAt := if to == IN_PROGRESS || (to == COMPLETED && read.startedAt == None) then Some(at) else row.startedAt,
           completedAt := if to == COMPLETED then Some(at) else row.completedAt,
           cancelReason := if to == CANCELLED then Some(reason) else row.cancelReason)
    case Assign(who, _) =>
      row.(status := ASSIGNED, version := row.version + 1, assignee := Some(who))
    case Complete(at, result) =>
      row.(status := COMPLETED, version := row.version + 1, completedAt := Some(at), result := Some(result))
    case EnterWaiting => Entered(row)
    case ExitWaiting => Exited(row)
    case AddNote(kind, _) => row.(notes := row.notes + [kind])
  }

  /** `enterWaitingApproval`: nothing once any start note exists, be it long closed. */
  function Entered(row: Order): Order {
    if WAITING_APPROVAL_START in row.notes then row
    else
      var noted := row.(notes := row.notes + [WAITING_APPROVAL_START]);
      if row.status == WAITING_APPROVAL || Terminal(row.status) then noted
      else noted.(status := WAITING_APPROVAL, version := row.version + 1)
  }

  function Exited(row: Order): Order {
    var noted := if WAITING_APPROVAL_START in row.notes
                 then row.(notes := row.notes + [WAITING_APPROVAL_END]) else row;
    if row.status == WAITING_APPROVAL then noted.(status := IN_PROGRESS, version := row.version + 1) else noted
  }

  predicate ComparesVersion(op: Op) {
    op.Transition? || op.Assign? || op.Complete?
  }

  function Commit(read: Order, row: Order, op: Op): Result<Order> {
    match Check(read, op)
    case Failure(e) => Failure(e)
    case Success(_) =>
      if ComparesVersion(op) && row.version != read.version then Failure(RECORD_NOT_FOUND)
      else Success(Patched(read, row, op))
  }

  // ---------------------------------------------------------------------------
  // When a request is accepted, and what it changes
  // ---------------------------------------------------------------------------

  /** The table read backwards: from which statuses each status can be reached. */
  lemma PredecessorsInTable(from: WorkOrderStatus, to: WorkOrderStatus)
    ensures !CanTransition(from, NEW)
    ensures CanTransition(from, ASSIGNED) <==> from == NEW
    ensures CanTransition(from, IN_PROGRESS) <==> from == ASSIGNED || from == WAITING_APPROVAL
    ensures CanTransition(from, WAITING_APPROVAL) <==> from == IN_PROGRESS
    ensures CanTransition(from, COMPLETED) <==> from == IN_PROGRESS || from == WAITING_APPROVAL
    ensures CanTransition(from, CANCELLED) <==> from != COMPLETED && from != CANCELLED
    ensures Terminal(from) <==> forall t :: !CanTransition(from, t)
  {
    assert CanTransition(NEW, ASSIGNED) && CanTransition(ASSIGNED, IN_PROGRESS) && CanTransition(IN_PROGRESS, COMPLETED)
        && CanTransition(WAITING_APPROVAL, COMPLETED);
  }

  /** A transition goes through exactly on the version read and, if named, expected, along an edge from the status read. */
  lemma TransitionIsAcceptedIff(read: Order, row: Order, to: WorkOrderStatus, reason: string, at: int, expected: Option<nat>)
    ensures Commit(read, row, Transition(to, reason, at, expected)).Success? <==>
              && (expected == None || expected == Some(read.version))
              && CanTransition(read.status, to)
              && (to == CANCELLED ==> |reason| > 0)
              && row.version == read.version
  {
  }

  /** Starting sets the start, completing the end and a missing start, cancelling the reason; nothing else changes. */
  lemma TransitionEffect(read: Order, row: Order, to: WorkOrderStatus, reason: string, at: int, expected: Option<nat>)
    requires Commit(read, row, Transition(to, reason, at, expected)).Success?
    ensures
      var o := Commit(read, row, Transition(to, reason, at, expected)).value;
      && o.status == to && o.version == row.version + 1
      && o.assignee == row.assignee && o.result == row.result && o.notes == row.notes
      && (to == IN_PROGRESS ==> o.startedAt == Some(at))
      && (to == COMPLETED ==> o.completedAt == Some(at) && (read.startedAt == None ==> o.startedAt == Some(at)))
      && (to == COMPLETED && read.startedAt != None ==> o.startedAt == row.startedAt)
      && (to != IN_PROGRESS && to != COMPLETED ==> o.startedAt == row.startedAt)
      && (to != COMPLETED ==> o.completedAt == row.completedAt)
      && o.cancelReason == (if to == CANCELLED then Some(reason) else row.cancelReason)
  {
  }

  /** An assignment goes through exactly for a known user, read in NEW or ASSIGNED and unchanged since; it names that user. */
  lemma AssignmentIsAcceptedIff(read: Order, row: Order, who: nat, known: bool)
    ensures Commit(read, row, Assign(who, known)).Success? <==>
              known && (read.status == NEW || read.status == ASSIGNED) && row.version == read.version
    ensures Commit(read, row, Assign(who, known)).Success? ==>
              var o := Commit(read, row, Assign(who, known)).value;
              && o.assignee == Some(who) && o.status == ASSIGNED && o.version == row.version + 1
              && o == row.(assignee := o.assignee, status := o.status, version := o.version)
  {
  }

  /** A completion goes through exactly from IN_PROGRESS, unchanged since; it stores end and result. */
  lemma CompletionIsAcceptedIff(read: Order, row: Order, at: int, result: string)
    ensures Commit(read, row, Complete(at, result)).Success? <==> read.status == IN_PROGRESS && row.version == read.version
    ensures Commit(read, row, Complete(at, result)).Success? ==>
              var o := Commit(read, row, Complete(at, result)).value;
              && o.completedAt == Some(at) && o.result == Some(result) && o.status == COMPLETED && o.version == row.version + 1
              && o == row.(completedAt := o.completedAt, result := o.result, status := o.status, version := o.version)
  {
  }

  /** A pause needs a reason to start and a start to end; other notes always go through, and versions are not compared. */
  lemma NoteIsAcceptedIff(read: Order, row: Order, kind: NoteType, reasoned: bool)
    ensures Commit(read, row, AddNote(kind, reasoned)).Success? <==>
              && (kind == PAUSE_START ==> reasoned)
              && (kind == PAUSE_END ==> exists k :: 0 <= k < |read.notes| && read.notes[k] == PAUSE_START)
    ensures Commit(read, row, AddNote(kind, reasoned)).Success? ==>
              Commit(read, row, AddNote(kind, reasoned)).value == row.(notes := row.notes + [kind])
  {
  }

  // ---------------------------------------------------------------------------
  // The service on a stored row
  // ---------------------------------------------------------------------------

  /** The stored row. A request passes the snapshot it read earlier as `read`. */
  class WorkOrderRow {
    var status: WorkOrderStatus
    var version: nat
    var assignee: Option<nat>
    var startedAt: Option<int>
    var completedAt: Option<int>
    var cancelReason: Option<string>
    var result: Option<string>
    var notes: seq<NoteType>

    function View(): Order
      reads this
    {
      Order(status, version, assignee, startedAt, completedAt, cancelReason, result, notes)
    }

    /** Created with an assignee, an order starts ASSIGNED and its clock runs. */
    constructor (assignee: Option<nat>, at: int)
      ensures View() == Created(assignee, at)
      ensures this.assignee == assignee && version == 1 && notes == []
      ensures completedAt == None && cancelReason == None && result == None
      ensures if assignee == None then status == NEW && startedAt == None else status == ASSIGNED && startedAt == Some(at)
    {
      this.assignee := assignee;
      status := if assignee.Some? then ASSIGNED else NEW;
      startedAt := if assignee.Some? then Some(at) else None;
      version, completedAt, cancelReason, result, notes := 1, None, None, None, [];
    }

    method Transition(read: Order, to: WorkOrderStatus, reason: string, at: int, expected: Option<nat>)
      returns (r: Result<()>)
      modifies this
      ensures Outcome(r, old(View()), View(), read, Op.Transition(to, reason, at, expected))
    {
      if expected.Some? && expected.value != read.version {
        return Failure("CONFLICT");
      }
      if !CanTransition(read.status, to) {
        return Failure("WO_INVALID_TRANSITION");
      }
      if to == CANCELLED && reason == "" {
        return Failure("WO_CANCEL_REQUIRES_REASON");
      }
      if version != read.version {
        return Failure(RECORD_NOT_FOUND);
      }
      status := to;
      version := version + 1;
      if to == IN_PROGRESS {
        startedAt := Some(at);
      }
      if to == COMPLETED {
        completedAt := Some(at);
        if read.startedAt == None {
          startedAt := Some(at);
        }
      }
      if to == CANCELLED {
        cancelReason := Some(reason);
      }
      return Success(());
    }

    method Assign(read: Order, who: nat, known: bool) returns (r: Result<()>)
      modifies this
      ensures Outcome(r, old(View()), View(), read, Op.Assign(who, known))
    {
      if !known {
        return Failure("NOT_FOUND");
      }
      if read.status != NEW && read.status != ASSIGNED {
        return Failure("WO_INVALID_ASSIGN_STATE");
      }
      if version != read.version {
        return Failure(RECORD_NOT_FOUND);
      }
      assignee := Some(who);
      status := ASSIGNED;
      version := version + 1;
      return Success(());
    }

    method Complete(read: Order, at: int, result: string) returns (r: Result<()>)
      modifies this
      ensures Outcome(r, old(View()), View(), read, Op.Complete(at, result))
    {
      if read.status != IN_PROGRESS {
        return Failure("WO_INVALID_TRANSITION");
      }
      if version != read.version {
        return Failure(RECORD_NOT_FOUND);
      }
      completedAt, this.result := Some(at), Some(result);
      status := COMPLETED;
      version := version + 1;
      return Success(());
    }

    method AddUserNote(read: Order, kind: NoteType, reasoned: bool) returns (r: Result<()>)
      modifies this
      ensures Outcome(r, old(View()), View(), read, Op.AddNote(kind, reasoned))
    {
      if kind == PAUSE_START && !reasoned {
        return Failure("WO_PAUSE_REQUIRES_REASON");
      }
      if kind == PAUSE_END && PAUSE_START !in read.notes {
        return Failure("WO_RESUME_WITHOUT_PAUSE");
      }
      notes := notes + [kind];
      return Success(());
    }

    method EnterWaitingApproval()
      modifies this
      ensures View() == Entered(old(View()))
      ensures WAITING_APPROVAL_START in old(notes) ==> View() == old(View())
      ensures WAITING_APPROVAL_START !in old(notes) ==>
                && notes == old(notes) + [WAITING_APPROVAL_START]
                && status == (if old(status) in {COMPLETED, CANCELLED} then old(status) else WAITING_APPROVAL)
                && version == old(version) + (if status == old(status) then 0 else 1)
      ensures unchanged(`assignee, `startedAt, `completedAt, `cancelReason, `result)
    {
      if WAITING_APPROVAL_START in notes {
        return;
      }
      if status != WAITING_APPROVAL && status != COMPLETED && status != CANCELLED {
        status := WAITING_APPROVAL;
        version := version + 1;
      }
      notes := notes + [WAITING_APPROVAL_START];
    }

    method ExitWaitingApproval()
      modifies this
      ensures View() == Exited(old(View()))
      ensures notes == old(notes) + (if WAITING_APPROVAL_START in old(notes) then [WAITING_APPROVAL_END] else [])
      ensures status == (if old(status) == WAITING_APPROVAL then IN_PROGRESS else old(status))
      ensures version == old(version) + (if status == old(status) then 0 else 1)
      ensures unchanged(`assignee, `startedAt, `completedAt, `cancelReason, `result)
    {
      if WAITING_APPROVAL_START in notes {
        notes := notes + [WAITING_APPROVAL_END];
      }
      if status == WAITING_APPROVAL {
        status := IN_PROGRESS;
        version := version + 1;
      }
    }
  }

  /** A service call either commits what the specification says or fails and leaves the row alone. */
  predicate Outcome(r: Result<()>, before: Order, after: Order, read: Order, op: Op) {
    match Commit(read, before, op)
    case Success(o) => r.Success? && after == o
    case Failure(e) => r == Failure(e) && after == before
  }

  // ---------------------------------------------------------------------------
  // All interleavings
  // ---------------------------------------------------------------------------

  /** The stored row and the snapshots that requests under way have read. */
  datatype State = State(row: Order, seen: set<Order>)

  function Created(assignee: Option<nat>, at: int): Order {
    Order(if assignee.Some? then ASSIGNED else NEW, 1, assignee,
          if assignee.Some? then Some(at) else None, None, None, None, [])
  }

  ghost predicate Init(s: State) {
    s.seen == {} && exists assignee, at :: s.row == Created(assignee, at)
  }

  /** One request reads the row, or one that has read it commits. */
  ghost predicate Next(s: State, s': State) {
    || s' == s
    || s' == State(s.row, s.seen + {s.row})
    || exists read, op :: CommitStep(s, s', read, op)
  }

  ghost predicate CommitStep(s: State, s': State, read: Order, op: Op) {
    && (ComparesVersion(op) || (op.AddNote? && op.kind == PAUSE_END) ==> read in s.seen)
    && Commit(read, s.row, op).Success?
    && s' == State(Commit(read, s.row, op).value, s.seen)
  }

  ghost predicate IsRun(run: seq<State>) {
    run != [] && Init(run[0]) && forall i :: 0 <= i < |run| - 1 ==> Next(run[i], run[i + 1])
  }

  /** A snapshot is older than the row, or agrees with it in everything but the notes. */
  ghost predicate Older(read: Order, row: Order) {
    && read.version <= row.version
    && (read.version == row.version ==> read.(notes := row.notes) == row)
    && read.notes <= row.notes
  }

  /** Closing columns tell the terminal statuses. */
  ghost predicate Stamped(row: Order) {
    && (row.status == COMPLETED <==> row.completedAt.Some?)
    && (row.status == CANCELLED <==> row.cancelReason.Some?)
  }

  /** Work under way or completed has a start instant, unless an approval parked the order before it began. */
  ghost predicate ClockKnown(row: Order) {
    (row.status == IN_PROGRESS || row.status == WAITING_APPROVAL || row.status == COMPLETED) && row.startedAt.None? ==>
      WAITING_APPROVAL_START in row.notes
  }

  ghost predicate Inv(s: State) {
    Stamped(s.row) && ClockKnown(s.row) && forall read :: read in s.seen ==> Older(read, s.row)
  }

  /** The status changes a commit can make: the table, re-assignment, and waiting from NEW or ASSIGNED. */
  predicate Edge(from: WorkOrderStatus, to: WorkOrderStatus) {
    || CanTransition(from, to)
    || (from == ASSIGNED && to == ASSIGNED)
    || ((from == NEW || from == ASSIGNED) && to == WAITING_APPROVAL)
  }

  /** A change of version is exactly one legal change of status. */
  predicate Legal(before: Order, after: Order) {
    || (after.version == before.version && after.status == before.status)
    || (after.version == before.version + 1 && Edge(before.status, after.status))
  }

  /** Each commit is legal from the status stored when it commits, however old its snapshot. */
  lemma CommitIsLegal(s: State, s': State, read: Order, op: Op)
    requires Inv(s) && CommitStep(s, s', read, op)
    ensures Legal(s.row, s'.row)
    ensures Older(s.row, s'.row) && Stamped(s'.row) && ClockKnown(s'.row)
  {
  }

  /**
   The exact commits that leave the transition table: re-assigning an ASSIGNED order, and an
   approval that sends a NEW or ASSIGNED order without a start note to WAITING_APPROVAL.
   */
  lemma CommitLeavesTableExactly(s: State, s': State, read: Order, op: Op)
    requires Inv(s) && CommitStep(s, s', read, op) && s'.row.version != s.row.version
    ensures CanTransition(s.row.status, s'.row.status) <==>
            !(op.Assign? && s.row.status == ASSIGNED)
            && !(op.EnterWaiting? && (s.row.status == NEW || s.row.status == ASSIGNED))
  {
  }

  lemma StepKeepsInv(s: State, s': State)
    requires Inv(s) && Next(s, s')
    ensures Inv(s') && Legal(s.row, s'.row)
  {
    if read, op :| CommitStep(s, s', read, op) {
      CommitIsLegal(s, s', read, op);
      forall r | r in s'.seen
        ensures Older(r, s'.row)
      {
        assert Older(r, s.row);
      }
    }
  }

  lemma {:induction false} RunKeepsInv(run: seq<State>, n: nat)
    requires IsRun(run) && n < |run|
    ensures Inv(run[n])
  {
    if n > 0 {
      RunKeepsInv(run, n - 1);
      StepKeepsInv(run[n - 1], run[n]);
    }
  }

  /** The history of every run is a path of legal changes, one version each. */
  lemma RunIsPath(run: seq<State>, i: nat)
    requires IsRun(run) && i + 1 < |run|
    ensures Legal(run[i].row, run[i + 1].row)
    ensures Stamped(run[i].row) && ClockKnown(run[i].row)
  {
    RunKeepsInv(run, i);
    StepKeepsInv(run[i], run[i + 1]);
  }

  /** The exception happens: parked before its start, released and completed, an order has no start instant. */
  lemma ParkedOrderCompletesWithoutStart(at: int)
    ensures
      var parked := Entered(Created(None, 0));
      var done := Patched(Exited(parked), Exited(parked), Complete(at, ""));
      && Legal(Created(None, 0), parked) && Legal(parked, Exited(parked)) && Legal(Exited(parked), done)
      && Commit(Exited(parked), Exited(parked), Complete(at, "")) == Success(done)
      && done.status == COMPLETED && done.startedAt == None && done.completedAt == Some(at)
  {
  }

  /** Versions never decrease, and grow strictly with every change of status. */
  lemma {:induction false} VersionsGrow(run: seq<State>, i: nat, j: nat)
    requires IsRun(run) && i <= j < |run|
    ensures run[i].row.version <= run[j].row.version
    ensures run[i].row.status != run[j].row.status ==> run[i].row.version < run[j].row.version
  {
    if i < j {
      VersionsGrow(run, i, j - 1);
      RunIsPath(run, j - 1);
    }
  }

  lemma {:induction false} LegalPathAbsorbs(run: seq<State>, i: nat, j: nat)
    requires i <= j < |run| && Terminal(run[i].row.status)
    requires forall k :: 0 <= k < |run| - 1 ==> Legal(run[k].row, run[k + 1].row)
    ensures run[j].row.status == run[i].row.status && run[j].row.version == run[i].row.version
  {
    if i < j {
      LegalPathAbsorbs(run, i, j - 1);
      assert Legal(run[j - 1].row, run[j].row);
    }
  }

  /** COMPLETED and CANCELLED are absorbing, whatever requests are still under way. */
  lemma TerminalIsAbsorbing(run: seq<State>, i: nat, j: nat)
    requires IsRun(run) && i <= j < |run| && Terminal(run[i].row.status)
    ensures run[j].row.status == run[i].row.status && run[j].row.version == run[i].row.version
  {
    forall k | 0 <= k < |run| - 1
      ensures Legal(run[k].row, run[k + 1].row)
    {
      RunIsPath(run, k);
    }
    LegalPathAbsorbs(run, i, j);
  }
}
