/**
 Occurrences and the work orders generated for them, over ticks, skips, progress and
 cancellation. Ticks and skip requests read first and write later, on what they have read; the
 work order service's methods are single steps.
 */
module OccurrenceWork {
  import opened Outcomes
  import opened Shared
  import WorkOrders
  import SP = SchedulerProtocol

  type Status = SP.OccurrenceStatus

  /** `occurrence` indexes the occurrence table. */
  datatype Order = Order(occurrence: nat, status: WorkOrderStatus)

  /** `paused` remembers which occurrences the paused pass created. */
  datatype Work = Work(occs: seq<Status>, paused: seq<bool>, orders: seq<Order>)

  predicate Pending(s: Status) {
    s == SP.PLANNED || s == SP.OVERDUE
  }

  predicate HasOpenOrder(orders: seq<Order>, i: nat) {
    exists k :: 0 <= k < |orders| && orders[k].occurrence == i && !WorkOrders.Terminal(orders[k].status)
  }

  // ---------------------------------------------------------------------------
  // The operations, each undisturbed
  // ---------------------------------------------------------------------------

  /** The third loop's body: unless an order is open, create one and set IN_PROGRESS. */
  function Generate(w: Work, i: nat): Work
    requires i < |w.occs|
  {
    if HasOpenOrder(w.orders, i) then w
    else w.(orders := w.orders + [Order(i, NEW)], occs := w.occs[i := SP.IN_PROGRESS])
  }

  /** The status of the newest order of an occurrence. */
  function LatestOrder(orders: seq<Order>, i: nat): Option<WorkOrderStatus> {
    if orders == [] then None
    else if orders[|orders| - 1].occurrence == i then Some(orders[|orders| - 1].status)
    else LatestOrder(orders[..|orders| - 1], i)
  }

  /** The fourth loop's body; it does not look at the occurrence's status again. */
  function Finish(w: Work, i: nat): Work
    requires i < |w.occs|
  {
    if LatestOrder(w.orders, i) == Some(COMPLETED) then w.(occs := w.occs[i := SP.COMPLETED]) else w
  }

  function Skip(w: Work, i: nat): Result<Work> {
    if i >= |w.occs| then Failure("NOT_FOUND")
    else if w.occs[i] == SP.COMPLETED then Failure("OCCURRENCE_ALREADY_COMPLETED")
    else Success(w.(occs := w.occs[i := SP.SKIPPED]))
  }

  /** A skip is accepted exactly for an existing occurrence that is not COMPLETED, and changes that one to SKIPPED. */
  lemma SkipIsAcceptedIff(w: Work, i: nat)
    ensures Skip(w, i).Success? <==> i < |w.occs| && w.occs[i] != SP.COMPLETED
    ensures Skip(w, i).Success? ==> Skip(w, i).value.orders == w.orders && Skip(w, i).value.paused == w.paused
    ensures Skip(w, i).Success? ==> |Skip(w, i).value.occs| == |w.occs|
    ensures Skip(w, i).Success? ==> forall j :: 0 <= j < |w.occs| ==>
              Skip(w, i).value.occs[j] == if j == i then SP.SKIPPED else w.occs[j]
  {
  }

  /** A cancelled maintenance order skips its occurrence unless that is finished. */
  function Cancel(w: Work, k: nat): Work
    requires k < |w.orders|
  {
    var i := w.orders[k].occurrence;
    w.(orders := w.orders[k := w.orders[k].(status := CANCELLED)],
       occs := if i < |w.occs| && w.occs[i] != SP.COMPLETED && w.occs[i] != SP.SKIPPED
               then w.occs[i := SP.SKIPPED] else w.occs)
  }

  function Moved(w: Work, k: nat, to: WorkOrderStatus): Work
    requires k < |w.orders|
  {
    w.(orders := w.orders[k := w.orders[k].(status := to)])
  }

  function IsPending(): Status -> bool {
    (s: Status) => Pending(s)
  }

  function IsInProgress(): Status -> bool {
    (s: Status) => s == SP.IN_PROGRESS
  }

  /** What a tick that nothing interrupts leaves: no pending occurrence, none to be completed. */
  ghost predicate NothingLeftToDo(w: Work) {
    && (forall i :: 0 <= i < |w.occs| ==> !Pending(w.occs[i]))
    && (forall i :: 0 <= i < |w.occs| && w.occs[i] == SP.IN_PROGRESS ==> LatestOrder(w.orders, i) != Some(COMPLETED))
  }

  predicate InRange(ids: seq<nat>, n: nat) {
    forall j :: 0 <= j < |ids| ==> ids[j] < n
  }

  /** The occurrences a query returns: each matching one once, in some order. */
  ghost predicate Selects(ids: seq<nat>, occs: seq<Status>, filter: Status -> bool) {
    && InRange(ids, |occs|)
    && (forall i, j :: 0 <= i < j < |ids| ==> ids[i] != ids[j])
    && (forall i :: 0 <= i < |occs| ==> (i in ids <==> filter(occs[i])))
  }

  /** The loops of one tick over the occurrences it has listed. */
  function GenerateAll(w: Work, ids: seq<nat>): (w': Work)
    requires InRange(ids, |w.occs|)
    ensures |w'.occs| == |w.occs|
  {
    if ids == [] then w else Generate(GenerateAll(w, ids[..|ids| - 1]), ids[|ids| - 1])
  }

  function FinishAll(w: Work, ids: seq<nat>): (w': Work)
    requires InRange(ids, |w.occs|)
    ensures |w'.occs| == |w.occs| && w'.orders == w.orders
  {
    if ids == [] then w else Finish(FinishAll(w, ids[..|ids| - 1]), ids[|ids| - 1])
  }

  // ---------------------------------------------------------------------------
  // The steps of ticks and requests
  // ---------------------------------------------------------------------------

  datatype Label =
    | Add(status: Status, byPausedPass: bool)
    | ListPending
    | GenerateFor(i: nat)
    | ListInProgress
    | FindCompleted(i: nat)
    | CompleteOne(i: nat)
    | ReadForSkip(i: nat)
    | SkipOne(i: nat)
    | Move(k: nat, to: WorkOrderStatus)
    | CancelOne(k: nat)

  /**
   Besides the stored rows, what ticks and requests under way hold: occurrences listed as pending,
   listed as in progress, found to have a COMPLETED newest order, and read by a skip that will
   write. Any number of ticks and requests may hold the same occurrence.
   */
  datatype State = State(w: Work, pending: set<nat>, working: set<nat>, completing: set<nat>, skipping: set<nat>)

  function With(occs: seq<Status>, filter: Status -> bool): set<nat> {
    set i: nat | i < |occs| && filter(occs[i])
  }

  ghost predicate Step(s: State, l: Label, s': State) {
    match l
    case Add(status, byPausedPass) =>
      && (if byPausedPass then status == SP.SKIPPED else Pending(status))
      && s' == s.(w := s.w.(occs := s.w.occs + [status], paused := s.w.paused + [byPausedPass]))
    case ListPending =>
      s' == s.(pending := s.pending + With(s.w.occs, IsPending()))
    case GenerateFor(i) =>
      // a second open order for the occurrence would violate a unique index
      && i in s.pending && i < |s.w.occs| && !HasOpenOrder(s.w.orders, i)
      && s' == s.(w := Generate(s.w, i))
    case ListInProgress =>
      s' == s.(working := s.working + With(s.w.occs, IsInProgress()))
    case FindCompleted(i) =>
      && i in s.working && LatestOrder(s.w.orders, i) == Some(COMPLETED)
      && s' == s.(completing := s.completing + {i})
    case CompleteOne(i) =>
      && i in s.completing && i < |s.w.occs|
      && s' == s.(w := s.w.(occs := s.w.occs[i := SP.COMPLETED]))
    case ReadForSkip(i) =>
      && i < |s.w.occs| && s.w.occs[i] != SP.COMPLETED && s.w.occs[i] != SP.SKIPPED
      && s' == s.(skipping := s.skipping + {i})
    case SkipOne(i) =>
      && i in s.skipping && i < |s.w.occs|
      && s' == s.(w := s.w.(occs := s.w.occs[i := SP.SKIPPED]))
    case Move(k, to) =>
      && k < |s.w.orders| && to != CANCELLED && WorkOrders.Edge(s.w.orders[k].status, to)
      && s' == s.(w := Moved(s.w, k, to))
    case CancelOne(k) =>
      && k < |s.w.orders| && WorkOrders.CanTransition(s.w.orders[k].status, CANCELLED)
      && s' == s.(w := Cancel(s.w, k))
  }

  // ---------------------------------------------------------------------------
  // What every step keeps, however stale
  // ---------------------------------------------------------------------------

  ghost predicate Has(w: Work, i: nat) {
    exists k :: 0 <= k < |w.orders| && w.orders[k].occurrence == i
  }

  ghost predicate HasCompleted(w: Work, i: nat) {
    exists k :: 0 <= k < |w.orders| && w.orders[k].occurrence == i && w.orders[k].status == COMPLETED
  }

  /** No order belongs to a pending occurrence or to one the paused pass created. */
  ghost predicate Placed(w: Work, o: Order) {
    o.occurrence < |w.occs| && o.occurrence < |w.paused| && !Pending(w.occs[o.occurrence]) && !w.paused[o.occurrence]
  }

  /** Of two orders of one occurrence the older is closed. */
  ghost predicate OlderClosed(orders: seq<Order>) {
    forall j, k :: 0 <= j < k < |orders| && orders[j].occurrence == orders[k].occurrence ==>
      WorkOrders.Terminal(orders[j].status)
  }

  ghost predicate Backed(w: Work, i: nat)
    requires i < |w.occs|
  {
    && (w.occs[i] == SP.COMPLETED ==> HasCompleted(w, i))
    && (w.occs[i] == SP.IN_PROGRESS ==> Has(w, i))
  }

  /**
   At every moment: a pending occurrence has no order, an occurrence has at most one open order, a
   COMPLETED one has a COMPLETED order, what the paused pass created is SKIPPED and has none.
   */
  ghost predicate Basic(w: Work) {
    && |w.paused| == |w.occs|
    && (forall i :: 0 <= i < |w.occs| && w.paused[i] ==> w.occs[i] == SP.SKIPPED)
    && (forall k :: 0 <= k < |w.orders| ==> Placed(w, w.orders[k]))
    && OlderClosed(w.orders)
    && (forall i :: 0 <= i < |w.occs| ==> Backed(w, i))
  }

  ghost predicate NotPaused(w: Work, ids: set<nat>) {
    forall i :: i in ids ==> i < |w.occs| && i < |w.paused| && !w.paused[i]
  }

  ghost predicate AllBegun(w: Work, ids: set<nat>) {
    forall i :: i in ids ==> i < |w.occs| && !Pending(w.occs[i])
  }

  ghost predicate AllCompleted(w: Work, ids: set<nat>) {
    forall i :: i in ids ==> HasCompleted(w, i)
  }

  ghost predicate Always(s: State) {
    && Basic(s.w)
    && NotPaused(s.w, s.pending) && NotPaused(s.w, s.working) && NotPaused(s.w, s.completing) && NotPaused(s.w, s.skipping)
    && AllBegun(s.w, s.working) && AllBegun(s.w, s.completing) && AllCompleted(s.w, s.completing)
  }

  /** Rows are not removed, nothing becomes pending again, a COMPLETED order stays, paused marks stay. */
  ghost predicate Grows(w: Work, w': Work) {
    && |w.occs| <= |w'.occs| && w.paused <= w'.paused && |w.orders| <= |w'.orders|
    && (forall i :: 0 <= i < |w.occs| && !Pending(w.occs[i]) ==> !Pending(w'.occs[i]))
    && (forall k :: 0 <= k < |w.orders| ==> w'.orders[k].occurrence == w.orders[k].occurrence)
    && (forall k :: 0 <= k < |w.orders| && w.orders[k].status == COMPLETED ==> w'.orders[k].status == COMPLETED)
  }

  lemma OrdersPersist(w: Work, w': Work, i: nat)
    requires Grows(w, w')
    ensures Has(w, i) ==> Has(w', i)
    ensures HasCompleted(w, i) ==> HasCompleted(w', i)
  {
    if Has(w, i) {
      var k :| 0 <= k < |w.orders| && w.orders[k].occurrence == i;
      assert w'.orders[k].occurrence == i;
    }
    if HasCompleted(w, i) {
      var k :| 0 <= k < |w.orders| && w.orders[k].occurrence == i && w.orders[k].status == COMPLETED;
      assert w'.orders[k].occurrence == i && w'.orders[k].status == COMPLETED;
    }
  }

  lemma NoOrderOfPendingOrPaused(w: Work, i: nat)
    requires Basic(w) && i < |w.occs| && (Pending(w.occs[i]) || w.paused[i])
    ensures !Has(w, i)
  {
    forall k | 0 <= k < |w.orders|
      ensures w.orders[k].occurrence != i
    {
      assert Placed(w, w.orders[k]);
    }
  }

  /** Writing one occurrence's status keeps everything if the status is backed by its orders. */
  lemma WriteKeepsBasic(w: Work, i: nat, status: Status)
    requires Basic(w) && i < |w.occs| && !w.paused[i] && !Pending(status)
    requires (status == SP.COMPLETED ==> HasCompleted(w, i)) && (status == SP.IN_PROGRESS ==> Has(w, i))
    ensures Basic(w.(occs := w.occs[i := status])) && Grows(w, w.(occs := w.occs[i := status]))
  {
    var w' := w.(occs := w.occs[i := status]);
    forall k | 0 <= k < |w'.orders|
      ensures Placed(w', w'.orders[k])
    {
      assert Placed(w, w.orders[k]);
    }
    forall j | 0 <= j < |w'.occs|
      ensures Backed(w', j)
    {
      assert Backed(w, j);
      OrdersPersist(w, w', j);
    }
  }

  lemma GenerateKeepsBasic(w: Work, i: nat)
    requires Basic(w) && i < |w.occs| && !w.paused[i] && !HasOpenOrder(w.orders, i)
    ensures Basic(Generate(w, i)) && Grows(w, Generate(w, i))
  {
    var w' := Generate(w, i);
    forall k | 0 <= k < |w'.orders|
      ensures Placed(w', w'.orders[k])
    {
      assert k < |w.orders| ==> Placed(w, w.orders[k]);
    }
    forall j | 0 <= j < |w'.occs|
      ensures Backed(w', j)
    {
      assert Backed(w, j);
      OrdersPersist(w, w', j);
      assert w'.orders[|w.orders|].occurrence == i;
    }
  }

  lemma AddedKeepBasic(w: Work, occs: seq<Status>, paused: seq<bool>)
    requires Basic(w) && |occs| == |paused|
    requires forall i :: 0 <= i < |occs| ==> if paused[i] then occs[i] == SP.SKIPPED else Pending(occs[i])
    ensures
      var w' := w.(occs := w.occs + occs, paused := w.paused + paused);
      Basic(w') && Grows(w, w')
  {
    var w' := w.(occs := w.occs + occs, paused := w.paused + paused);
    forall k | 0 <= k < |w'.orders|
      ensures Placed(w', w'.orders[k])
    {
      assert Placed(w, w.orders[k]);
    }
    forall j | 0 <= j < |w'.occs|
      ensures Backed(w', j)
    {
      OrdersPersist(w, w', j);
      assert j < |w.occs| ==> Backed(w, j);
    }
  }

  lemma MoveKeepsBasic(w: Work, k: nat, to: WorkOrderStatus)
    requires Basic(w) && k < |w.orders| && WorkOrders.Edge(w.orders[k].status, to)
    ensures Basic(Moved(w, k, to)) && Grows(w, Moved(w, k, to))
  {
    var w' := Moved(w, k, to);
    forall j | 0 <= j < |w'.orders|
      ensures Placed(w', w'.orders[j])
    {
      assert Placed(w, w.orders[j]);
    }
    forall i | 0 <= i < |w'.occs|
      ensures Backed(w', i)
    {
      assert Backed(w, i);
      OrdersPersist(w, w', i);
    }
  }

  lemma CancelKeepsBasic(w: Work, k: nat)
    requires Basic(w) && k < |w.orders| && WorkOrders.CanTransition(w.orders[k].status, CANCELLED)
    ensures Basic(Cancel(w, k)) && Grows(w, Cancel(w, k))
  {
    var i := w.orders[k].occurrence;
    assert Placed(w, w.orders[k]);
    MoveKeepsBasic(w, k, CANCELLED);
    var w' := Moved(w, k, CANCELLED);
    if w.occs[i] != SP.COMPLETED && w.occs[i] != SP.SKIPPED {
      WriteKeepsBasic(w', i, SP.SKIPPED);
    }
  }

  lemma {:induction false} LatestIsAnOrder(orders: seq<Order>, i: nat)
    ensures LatestOrder(orders, i).Some? ==>
              exists k :: 0 <= k < |orders| && orders[k].occurrence == i && orders[k].status == LatestOrder(orders, i).value
  {
    if orders != [] && orders[|orders| - 1].occurrence != i {
      LatestIsAnOrder(orders[..|orders| - 1], i);
    }
  }

  lemma FlightStays(s: State, w': Work)
    requires Always(s) && Grows(s.w, w')
    ensures NotPaused(w', s.pending) && NotPaused(w', s.working) && NotPaused(w', s.completing) && NotPaused(w', s.skipping)
    ensures AllBegun(w', s.working) && AllBegun(w', s.completing) && AllCompleted(w', s.completing)
  {
    forall i | i in s.completing
      ensures HasCompleted(w', i)
    {
      OrdersPersist(s.w, w', i);
    }
  }

  /** What a step writes, whatever was read before it. */
  lemma WriteKeepsAlways(s: State, l: Label, s': State)
    requires Always(s) && Step(s, l, s')
    requires l.Add? || l.GenerateFor? || l.CompleteOne? || l.SkipOne? || l.Move? || l.CancelOne?
    ensures Basic(s'.w) && Grows(s.w, s'.w)
  {
    match l
    case Add(status, byPausedPass) => AddedKeepBasic(s.w, [status], [byPausedPass]);
    case GenerateFor(i) => GenerateKeepsBasic(s.w, i);
    case CompleteOne(i) => WriteKeepsBasic(s.w, i, SP.COMPLETED);
    case SkipOne(i) => WriteKeepsBasic(s.w, i, SP.SKIPPED);
    case Move(k, to) => MoveKeepsBasic(s.w, k, to);
    case CancelOne(k) => CancelKeepsBasic(s.w, k);
    case _ =>
  }

  lemma ReadKeepsAlways(s: State, l: Label, s': State)
    requires Always(s) && Step(s, l, s')
    requires l.ListPending? || l.ListInProgress? || l.FindCompleted? || l.ReadForSkip?
    ensures Always(s')
  {
    if l.FindCompleted? {
      LatestIsAnOrder(s.w.orders, l.i);
    }
  }

  /** Every step keeps the promises that need no freshness. */
  lemma StepKeepsAlways(s: State, l: Label, s': State)
    requires Always(s) && Step(s, l, s')
    ensures Always(s')
  {
    if l.ListPending? || l.ListInProgress? || l.FindCompleted? || l.ReadForSkip? {
      ReadKeepsAlways(s, l, s');
    } else {
      WriteKeepsAlways(s, l, s');
      FlightStays(s, s'.w);
    }
  }

  // ---------------------------------------------------------------------------
  // What fresh writes keep
  // ---------------------------------------------------------------------------

  ghost predicate AtMostOneOrder(w: Work) {
    forall j, k :: 0 <= j < k < |w.orders| ==> w.orders[j].occurrence != w.orders[k].occurrence
  }

  ghost predicate CancelledAreSkipped(w: Work) {
    forall k :: 0 <= k < |w.orders| && w.orders[k].status == CANCELLED ==>
      w.orders[k].occurrence < |w.occs| && w.occs[w.orders[k].occurrence] == SP.SKIPPED
  }

  /** Moreover each occurrence has at most one work order at all, and a CANCELLED one means SKIPPED. */
  ghost predicate Sound(w: Work) {
    Basic(w) && AtMostOneOrder(w) && CancelledAreSkipped(w)
  }

  /** SKIPPED and COMPLETED occurrences stay as they are. */
  ghost predicate Absorbing(w: Work, w': Work) {
    && |w.occs| <= |w'.occs|
    && forall i :: 0 <= i < |w.occs| && (w.occs[i] == SP.SKIPPED || w.occs[i] == SP.COMPLETED) ==> w'.occs[i] == w.occs[i]
  }

  /**
   The write still finds what its reader relied on: a tick generates for a pending occurrence, it
   completes one that has not been skipped, a request skips one that has not been completed.
   */
  ghost predicate Fresh(s: State, l: Label) {
    && (l.GenerateFor? && l.i < |s.w.occs| ==> Pending(s.w.occs[l.i]))
    && (l.CompleteOne? && l.i < |s.w.occs| ==> s.w.occs[l.i] != SP.SKIPPED)
    && (l.SkipOne? && l.i < |s.w.occs| ==> s.w.occs[l.i] != SP.COMPLETED)
  }

  lemma GenerateKeepsSound(w: Work, i: nat)
    requires Sound(w) && i < |w.occs| && Pending(w.occs[i])
    ensures Sound(Generate(w, i)) && Absorbing(w, Generate(w, i))
    ensures !HasOpenOrder(w.orders, i)
  {
    NoOrderOfPendingOrPaused(w, i);
    GenerateKeepsBasic(w, i);
  }

  /** The one order of an occurrence that has a COMPLETED one. */
  lemma OnlyOrderIsCompleted(w: Work, i: nat, k: nat)
    requires Sound(w) && k < |w.orders| && w.orders[k].occurrence == i
    ensures HasCompleted(w, i) ==> w.orders[k].status == COMPLETED
  {
    if c :| 0 <= c < |w.orders| && w.orders[c].occurrence == i && w.orders[c].status == COMPLETED {
      assert c < k || c == k || k < c;
    }
  }

  lemma CompleteKeepsSound(w: Work, i: nat)
    requires Sound(w) && i < |w.occs| && HasCompleted(w, i) && w.occs[i] != SP.SKIPPED
    ensures Sound(w.(occs := w.occs[i := SP.COMPLETED])) && Absorbing(w, w.(occs := w.occs[i := SP.COMPLETED]))
  {
    var w' := w.(occs := w.occs[i := SP.COMPLETED]);
    CompletedHasBegun(w, i);
    WriteKeepsBasic(w, i, SP.COMPLETED);
    forall k | 0 <= k < |w.orders|
      ensures w.orders[k].occurrence == i ==> w.orders[k].status == COMPLETED
    {
      if w.orders[k].occurrence == i {
        OnlyOrderIsCompleted(w, i, k);
      }
    }
  }

  lemma CompletedHasBegun(w: Work, i: nat)
    requires Basic(w) && i < |w.occs| && HasCompleted(w, i)
    ensures !w.paused[i] && !Pending(w.occs[i])
  {
    var k :| 0 <= k < |w.orders| && w.orders[k].occurrence == i && w.orders[k].status == COMPLETED;
    assert Placed(w, w.orders[k]);
  }

  lemma FinishKeepsSound(w: Work, i: nat)
    requires Sound(w) && i < |w.occs| && w.occs[i] != SP.SKIPPED
    ensures Sound(Finish(w, i)) && Absorbing(w, Finish(w, i))
  {
    if LatestOrder(w.orders, i) == Some(COMPLETED) {
      LatestIsAnOrder(w.orders, i);
      CompleteKeepsSound(w, i);
    }
  }

  lemma SkipKeepsSound(w: Work, i: nat)
    requires Sound(w) && i < |w.occs| && w.occs[i] != SP.COMPLETED
    ensures Sound(w.(occs := w.occs[i := SP.SKIPPED])) && Absorbing(w, w.(occs := w.occs[i := SP.SKIPPED]))
  {
    if w.paused[i] {
      assert w.occs[i := SP.SKIPPED] == w.occs;
    } else {
      WriteKeepsBasic(w, i, SP.SKIPPED);
    }
  }

  lemma MoveKeepsSound(w: Work, k: nat, to: WorkOrderStatus)
    requires Sound(w) && k < |w.orders| && to != CANCELLED && WorkOrders.Edge(w.orders[k].status, to)
    ensures Sound(Moved(w, k, to))
  {
    MoveKeepsBasic(w, k, to);
  }

  lemma CancelKeepsSound(w: Work, k: nat)
    requires Sound(w) && k < |w.orders| && WorkOrders.CanTransition(w.orders[k].status, CANCELLED)
    ensures Sound(Cancel(w, k)) && Absorbing(w, Cancel(w, k))
  {
    var i := w.orders[k].occurrence;
    CancelKeepsBasic(w, k);
    assert Placed(w, w.orders[k]) && Backed(w, i);
    OnlyOrderIsCompleted(w, i, k);
  }

  lemma FreshStepKeepsSound(s: State, l: Label, s': State)
    requires Always(s) && Sound(s.w) && Step(s, l, s') && Fresh(s, l)
    ensures Sound(s'.w) && Absorbing(s.w, s'.w)
  {
    match l
    case Add(status, byPausedPass) => AddedKeepSound(s.w, [status], [byPausedPass]);
    case GenerateFor(i) => GenerateKeepsSound(s.w, i);
    case CompleteOne(i) => CompleteKeepsSound(s.w, i);
    case SkipOne(i) => SkipKeepsSound(s.w, i);
    case Move(k, to) => MoveKeepsSound(s.w, k, to);
    case CancelOne(k) => CancelKeepsSound(s.w, k);
    case _ =>
  }

  /** A write that comes too late always breaks something. */
  lemma StaleWriteBreaks(s: State, l: Label, s': State)
    requires Always(s) && Sound(s.w) && Step(s, l, s') && !Fresh(s, l)
    ensures !(Sound(s'.w) && Absorbing(s.w, s'.w))
  {
    if l.GenerateFor? && s.w.occs[l.i] == SP.IN_PROGRESS {
      assert Backed(s.w, l.i);
      var k :| 0 <= k < |s.w.orders| && s.w.orders[k].occurrence == l.i;
      assert s'.w.orders[k].occurrence == s'.w.orders[|s.w.orders|].occurrence;
    }
  }

  // ---------------------------------------------------------------------------
  // Undisturbed ticks
  // ---------------------------------------------------------------------------

  /** A tick that nothing interrupts gives each pending occurrence exactly one new order. */
  lemma {:induction false} GenerateAllEffect(w: Work, ids: seq<nat>)
    requires Sound(w)
    requires forall i, j :: 0 <= i < j < |ids| ==> ids[i] != ids[j]
    requires InRange(ids, |w.occs|) && forall j :: 0 <= j < |ids| ==> Pending(w.occs[ids[j]])
    ensures
      var w' := GenerateAll(w, ids);
      && Sound(w') && w'.paused == w.paused
      && (forall i :: 0 <= i < |w.occs| ==> w'.occs[i] == if i in ids then SP.IN_PROGRESS else w.occs[i])
      && |w'.orders| == |w.orders| + |ids| && w.orders <= w'.orders
      && (forall j :: 0 <= j < |ids| ==> w'.orders[|w.orders| + j] == Order(ids[j], NEW))
  {
    if ids != [] {
      var rest, i := ids[..|ids| - 1], ids[|ids| - 1];
      assert ids == rest + [i];
      GenerateAllEffect(w, rest);
      GenerateKeepsSound(GenerateAll(w, rest), i);
    }
  }

  /** Among the listed occurrences exactly those whose newest order is COMPLETED are completed. */
  lemma {:induction false} FinishAllEffect(w: Work, ids: seq<nat>)
    requires InRange(ids, |w.occs|)
    ensures
      var w' := FinishAll(w, ids);
      && w'.paused == w.paused && w'.orders == w.orders
      && (forall i :: 0 <= i < |w.occs| ==>
            w'.occs[i] == if i in ids && LatestOrder(w.orders, i) == Some(COMPLETED) then SP.COMPLETED else w.occs[i])
  {
    if ids != [] {
      var rest, i := ids[..|ids| - 1], ids[|ids| - 1];
      assert ids == rest + [i];
      FinishAllEffect(w, rest);
    }
  }

  /** The newest order of an occurrence, told without the lookup: none after it belongs to the occurrence. */
  ghost predicate NewestIs(orders: seq<Order>, i: nat, status: WorkOrderStatus) {
    exists k :: 0 <= k < |orders| && NewestAt(orders, i, k) && orders[k].status == status
  }

  ghost predicate NewestAt(orders: seq<Order>, i: nat, k: nat)
    requires k < |orders|
  {
    orders[k].occurrence == i && forall j :: k < j < |orders| ==> orders[j].occurrence != i
  }

  lemma {:induction false} LatestIsNewest(orders: seq<Order>, i: nat, status: WorkOrderStatus)
    ensures LatestOrder(orders, i) == Some(status) <==> NewestIs(orders, i, status)
  {
    if orders != [] {
      var n := |orders| - 1;
      LatestIsNewest(orders[..n], i, status);
      if orders[n].occurrence == i {
        assert NewestAt(orders, i, n);
      } else {
        if k :| 0 <= k < n && NewestAt(orders[..n], i, k) && orders[..n][k].status == status {
          assert NewestAt(orders, i, k);
        }
        if k :| 0 <= k < |orders| && NewestAt(orders, i, k) && orders[k].status == status {
          assert NewestAt(orders[..n], i, k);
        }
      }
    }
  }

  /** Undisturbed generation creates an order exactly when every order of the occurrence is closed. */
  lemma GeneratesIffAllClosed(w: Work, i: nat)
    requires i < |w.occs|
    ensures Generate(w, i) != w <==>
              forall k :: 0 <= k < |w.orders| && w.orders[k].occurrence == i ==>
                w.orders[k].status == COMPLETED || w.orders[k].status == CANCELLED
    ensures Generate(w, i) != w ==> Generate(w, i) == w.(orders := w.orders + [Order(i, NEW)], occs := w.occs[i := SP.IN_PROGRESS])
  {
    assert |w.orders + [Order(i, NEW)]| != |w.orders|;
  }

  lemma {:induction false} LatestOfOthers(orders: seq<Order>, added: seq<Order>, i: nat)
    requires forall k :: 0 <= k < |added| ==> added[k].occurrence != i
    ensures LatestOrder(orders + added, i) == LatestOrder(orders, i)
  {
    if added == [] {
      assert orders + added == orders;
    } else {
      assert (orders + added)[..|orders + added| - 1] == orders + added[..|added| - 1];
      LatestOfOthers(orders, added[..|added| - 1], i);
    }
  }

  /** What the two order loops do, row by row: one NEW order for each pending occurrence, and its status. */
  ghost predicate OrderPasses(w: Work, w': Work) {
    && w.orders <= w'.orders && w'.paused == w.paused && |w'.occs| == |w.occs|
    && (forall i :: 0 <= i < |w.occs| ==> (
          w'.occs[i] == if w.occs[i] == SP.PLANNED || w.occs[i] == SP.OVERDUE then SP.IN_PROGRESS
                        else if w.occs[i] == SP.IN_PROGRESS && NewestIs(w.orders, i, COMPLETED) then SP.COMPLETED
                        else w.occs[i]))
    && (forall k :: |w.orders| <= k < |w'.orders| ==>
          w'.orders[k].status == NEW && w'.orders[k].occurrence in With(w.occs, IsPending()))
    && |w'.orders| - |w.orders| == |With(w.occs, IsPending())|
  }

  lemma {:induction false} DistinctIds(ids: seq<nat>)
    requires forall i, j :: 0 <= i < j < |ids| ==> ids[i] != ids[j]
    ensures |set j | 0 <= j < |ids| :: ids[j]| == |ids|
  {
    if ids != [] {
      var rest, last := ids[..|ids| - 1], ids[|ids| - 1];
      DistinctIds(rest);
      var a, b := set j | 0 <= j < |ids| :: ids[j], set j | 0 <= j < |rest| :: rest[j];
      assert ids == rest + [last];
      assert forall x :: x in a <==> x in ids;
      assert forall x :: x in b <==> x in rest;
      assert a == b + {last};
    }
  }

  lemma SelectedCount(ids: seq<nat>, occs: seq<Status>, filter: Status -> bool)
    requires Selects(ids, occs, filter)
    ensures |ids| == |With(occs, filter)|
  {
    DistinctIds(ids);
    var listed := set j | 0 <= j < |ids| :: ids[j];
    assert forall i :: i in listed <==> i in ids;
    assert forall j :: 0 <= j < |ids| ==> ids[j] in ids;
    assert listed == With(occs, filter);
  }

  lemma OrderPassesEffect(w: Work, l1: seq<nat>, l2: seq<nat>)
    requires Sound(w) && Selects(l1, w.occs, IsPending()) && Selects(l2, GenerateAll(w, l1).occs, IsInProgress())
    ensures OrderPasses(w, FinishAll(GenerateAll(w, l1), l2))
  {
    assert forall j :: 0 <= j < |l1| ==> l1[j] in l1;
    GenerateAllEffect(w, l1);
    var m := GenerateAll(w, l1);
    FinishAllEffect(m, l2);
    SelectedCount(l1, w.occs, IsPending());
    forall i | 0 <= i < |w.occs|
      ensures i in l1 ==> LatestOrder(m.orders, i) != Some(COMPLETED)
      ensures i !in l1 ==> (LatestOrder(m.orders, i) == Some(COMPLETED) <==> NewestIs(w.orders, i, COMPLETED))
    {
      LatestAfterGeneration(w, l1, i);
    }
    forall k | |w.orders| <= k < |m.orders|
      ensures m.orders[k].status == NEW && m.orders[k].occurrence in With(w.occs, IsPending())
    {
      assert m.orders[|w.orders| + (k - |w.orders|)] == Order(l1[k - |w.orders|], NEW);
    }
  }

  lemma LatestAfterGeneration(w: Work, ids: seq<nat>, i: nat)
    requires Sound(w) && Selects(ids, w.occs, IsPending()) && i < |w.occs|
    ensures i in ids ==> LatestOrder(GenerateAll(w, ids).orders, i) != Some(COMPLETED)
    ensures i !in ids ==> (LatestOrder(GenerateAll(w, ids).orders, i) == Some(COMPLETED) <==> NewestIs(w.orders, i, COMPLETED))
  {
    forall j | 0 <= j < |ids|
      ensures !HasOpenOrder(w.orders, ids[j])
    {
      assert ids[j] in ids;
      NoOrderOfPendingOrPaused(w, ids[j]);
    }
    OrdersAfterGeneration(w, ids);
    if i in ids {
      NoOrderOfPendingOrPaused(w, i);
      NewOrdersAreOpen(w.orders, ids, i);
    } else {
      LatestOfOthers(w.orders, NewOrders(ids), i);
      LatestIsNewest(w.orders, i, COMPLETED);
    }
  }

  function NewOrders(ids: seq<nat>): seq<Order> {
    seq(|ids|, j requires 0 <= j < |ids| => Order(ids[j], NEW))
  }

  lemma {:induction false} OrdersAfterGeneration(w: Work, ids: seq<nat>)
    requires InRange(ids, |w.occs|)
    requires forall i, j :: 0 <= i < j < |ids| ==> ids[i] != ids[j]
    requires forall j :: 0 <= j < |ids| ==> !HasOpenOrder(w.orders, ids[j])
    ensures GenerateAll(w, ids).orders == w.orders + NewOrders(ids)
  {
    if ids != [] {
      var rest, i := ids[..|ids| - 1], ids[|ids| - 1];
      OrdersAfterGeneration(w, rest);
      assert NewOrders(ids) == NewOrders(rest) + [Order(i, NEW)];
      if HasOpenOrder(w.orders + NewOrders(rest), i) {
        OpenOrderIsOld(w.orders, rest, i);
      }
    }
  }

  lemma OpenOrderIsOld(orders: seq<Order>, ids: seq<nat>, i: nat)
    requires i !in ids && HasOpenOrder(orders + NewOrders(ids), i)
    ensures HasOpenOrder(orders, i)
  {
    var all := orders + NewOrders(ids);
    forall k | |orders| <= k < |all|
      ensures all[k].occurrence != i
    {
      assert ids[k - |orders|] in ids;
    }
  }

  lemma NewOrdersAreOpen(orders: seq<Order>, ids: seq<nat>, i: nat)
    requires forall k :: 0 <= k < |orders| ==> orders[k].occurrence != i
    ensures LatestOrder(orders + NewOrders(ids), i) != Some(COMPLETED)
  {
    LatestIsAnOrder(orders + NewOrders(ids), i);
  }

  lemma {:induction false} FinishAllKeepsSound(w: Work, ids: seq<nat>)
    requires Sound(w) && InRange(ids, |w.occs|) && forall j :: 0 <= j < |ids| ==> w.occs[ids[j]] == SP.IN_PROGRESS
    ensures Sound(FinishAll(w, ids))
  {
    if ids != [] {
      var rest, i := ids[..|ids| - 1], ids[|ids| - 1];
      FinishAllKeepsSound(w, rest);
      FinishAllEffect(w, rest);
      FinishKeepsSound(FinishAll(w, rest), i);
    }
  }

  /** New occurrences: pending ones from the active pass, skipped ones from the paused pass. */
  lemma AddedKeepSound(w: Work, occs: seq<Status>, paused: seq<bool>)
    requires Sound(w) && |occs| == |paused|
    requires forall i :: 0 <= i < |occs| ==> if paused[i] then occs[i] == SP.SKIPPED else Pending(occs[i])
    ensures Sound(w.(occs := w.occs + occs, paused := w.paused + paused))
  {
    AddedKeepBasic(w, occs, paused);
  }

  // ---------------------------------------------------------------------------
  // Runs
  // ---------------------------------------------------------------------------

  datatype Run = Run(states: seq<State>, labels: seq<Label>)

  ghost predicate IsRun(run: Run) {
    && |run.states| == |run.labels| + 1
    && run.states[0] == State(Work([], [], []), {}, {}, {}, {})
    && forall i :: 0 <= i < |run.labels| ==> Step(run.states[i], run.labels[i], run.states[i + 1])
  }

  lemma {:induction false} RunKeepsAlways(run: Run, n: nat)
    requires IsRun(run) && n < |run.states|
    ensures Always(run.states[n])
  {
    if n > 0 {
      RunKeepsAlways(run, n - 1);
      StepKeepsAlways(run.states[n - 1], run.labels[n - 1], run.states[n]);
    }
  }

  /** In every run, however its ticks interleave, a pending occurrence has no order. */
  lemma PendingHasNoOrder(run: Run, n: nat, i: nat)
    requires IsRun(run) && n < |run.states| && i < |run.states[n].w.occs| && Pending(run.states[n].w.occs[i])
    ensures !Has(run.states[n].w, i)
  {
    RunKeepsAlways(run, n);
    NoOrderOfPendingOrPaused(run.states[n].w, i);
  }

  /** In every run no occurrence has two open orders, and a COMPLETED one has a COMPLETED order. */
  lemma AtMostOneOpenOrder(run: Run, n: nat)
    requires IsRun(run) && n < |run.states|
    ensures
      var w := run.states[n].w;
      && (forall j, k :: 0 <= j < k < |w.orders| && w.orders[j].occurrence == w.orders[k].occurrence ==>
            WorkOrders.Terminal(w.orders[j].status))
      && (forall i :: 0 <= i < |w.occs| && w.occs[i] == SP.COMPLETED ==> HasCompleted(w, i))
  {
    RunKeepsAlways(run, n);
    var w := run.states[n].w;
    assert OlderClosed(w.orders);
    forall i | 0 <= i < |w.occs| && w.occs[i] == SP.COMPLETED
      ensures HasCompleted(w, i)
    {
      assert Backed(w, i);
    }
  }

  /** What the paused pass created never gets a work order, in any later state and whatever is resumed. */
  lemma PausedOccurrenceNeverGetsOrder(run: Run, n: nat, i: nat)
    requires IsRun(run) && n < |run.states|
    requires i < |run.states[n].w.paused| && run.states[n].w.paused[i]
    ensures !Has(run.states[n].w, i) && i < |run.states[n].w.occs| && run.states[n].w.occs[i] == SP.SKIPPED
  {
    RunKeepsAlways(run, n);
    NoOrderOfPendingOrPaused(run.states[n].w, i);
  }

  ghost predicate GoodUpTo(run: Run, n: nat)
    requires n < |run.states|
  {
    && (forall i :: 0 <= i <= n ==> Sound(run.states[i].w))
    && (forall i :: 0 <= i < n ==> Absorbing(run.states[i].w, run.states[i + 1].w))
  }

  ghost predicate FreshUpTo(run: Run, n: nat)
    requires n <= |run.labels| < |run.states|
  {
    forall i :: 0 <= i < n ==> Fresh(run.states[i], run.labels[i])
  }

  lemma {:induction false} FreshRunIsGood(run: Run, n: nat)
    requires IsRun(run) && n < |run.states| && FreshUpTo(run, n)
    ensures GoodUpTo(run, n)
  {
    if n > 0 {
      FreshRunIsGood(run, n - 1);
      RunKeepsAlways(run, n - 1);
      FreshStepKeepsSound(run.states[n - 1], run.labels[n - 1], run.states[n]);
    }
  }

  lemma StaleRunBreaks(run: Run, n: nat)
    requires IsRun(run) && n < |run.labels| && FreshUpTo(run, n) && !Fresh(run.states[n], run.labels[n])
    ensures !GoodUpTo(run, n + 1)
  {
    FreshRunIsGood(run, n);
    RunKeepsAlways(run, n);
    StaleWriteBreaks(run.states[n], run.labels[n], run.states[n + 1]);
  }

  /**
   At most one order per occurrence at all, CANCELLED orders only on SKIPPED occurrences, and
   SKIPPED and COMPLETED for good: these hold throughout a run exactly when every write of a tick
   or skip still finds the occurrence as its reader relied on. Undisturbed ticks always do.
   */
  lemma {:induction false} GoodIffWritesAreFresh(run: Run, n: nat)
    requires IsRun(run) && n < |run.states|
    ensures GoodUpTo(run, n) <==> FreshUpTo(run, n)
  {
    if FreshUpTo(run, n) {
      FreshRunIsGood(run, n);
    } else {
      GoodIffWritesAreFresh(run, n - 1);
      if FreshUpTo(run, n - 1) {
        StaleRunBreaks(run, n - 1);
      }
    }
  }

  // ---------------------------------------------------------------------------
  // Late writes happen
  // ---------------------------------------------------------------------------

  ghost predicate StepAt(run: Run, i: nat)
    requires i < |run.labels| && i + 1 < |run.states|
  {
    Step(run.states[i], run.labels[i], run.states[i + 1])
  }

  function At(occ: Status, orders: seq<Order>, pending: set<nat>): State {
    State(Work([occ], [false], orders), pending, {}, {}, {})
  }

  /** Two ticks list; one generates; its order is worked off; the other generates again. */
  ghost function SlowTickRun(): Run {
    Run([State(Work([], [], []), {}, {}, {}, {}),
         At(SP.PLANNED, [], {}),
         At(SP.PLANNED, [], {0}),
         At(SP.IN_PROGRESS, [Order(0, NEW)], {0}),
         At(SP.IN_PROGRESS, [Order(0, ASSIGNED)], {0}),
         At(SP.IN_PROGRESS, [Order(0, IN_PROGRESS)], {0}),
         At(SP.IN_PROGRESS, [Order(0, COMPLETED)], {0}),
         At(SP.IN_PROGRESS, [Order(0, COMPLETED), Order(0, NEW)], {0})],
        [Add(SP.PLANNED, false), ListPending, GenerateFor(0), Move(0, ASSIGNED), Move(0, IN_PROGRESS),
         Move(0, COMPLETED), GenerateFor(0)])
  }

  lemma TicksListAndGenerate()
    ensures
      var run := SlowTickRun();
      StepAt(run, 0) && StepAt(run, 1) && StepAt(run, 2) && StepAt(run, 6)
  {
    assert With([SP.PLANNED], IsPending()) == {0};
  }

  lemma OrderIsWorkedOff()
    ensures
      var run := SlowTickRun();
      StepAt(run, 3) && StepAt(run, 4) && StepAt(run, 5)
  {
  }

  lemma TwoTicksGenerateTwoOrders()
    ensures
      var run := SlowTickRun();
      IsRun(run) && run.states[7].w.orders == [Order(0, COMPLETED), Order(0, NEW)]
  {
    TicksListAndGenerate();
    OrderIsWorkedOff();
    var run := SlowTickRun();
    forall i | 0 <= i < |run.labels|
      ensures Step(run.states[i], run.labels[i], run.states[i + 1])
    {
      assert i <= 6 && StepAt(run, i);
    }
  }

  /** A tick finds the order COMPLETED; the occurrence is skipped; the tick completes it. */
  ghost function LateCompletionRun(): Run {
    var before := SlowTickRun();
    var done := [Order(0, COMPLETED)];
    Run(before.states[..7] +
        [State(Work([SP.IN_PROGRESS], [false], done), {0}, {0}, {}, {}),
         State(Work([SP.IN_PROGRESS], [false], done), {0}, {0}, {0}, {}),
         State(Work([SP.IN_PROGRESS], [false], done), {0}, {0}, {0}, {0}),
         State(Work([SP.SKIPPED], [false], done), {0}, {0}, {0}, {0}),
         State(Work([SP.COMPLETED], [false], done), {0}, {0}, {0}, {0})],
        before.labels[..6] + [ListInProgress, FindCompleted(0), ReadForSkip(0), SkipOne(0), CompleteOne(0)])
  }

  lemma TickFindsCompleted()
    ensures
      var run := LateCompletionRun();
      StepAt(run, 6) && StepAt(run, 7)
  {
    assert With([SP.IN_PROGRESS], IsInProgress()) == {0};
    assert {} + {0} == {0};
  }

  lemma SkipSlipsIn()
    ensures
      var run := LateCompletionRun();
      StepAt(run, 8) && StepAt(run, 9) && StepAt(run, 10)
  {
    assert {} + {0} == {0};
  }

  lemma SkippedOccurrenceIsCompleted()
    ensures
      var run := LateCompletionRun();
      && IsRun(run) && FreshUpTo(run, 10)
      && run.states[10].w.occs == [SP.SKIPPED] && run.states[11].w.occs == [SP.COMPLETED]
  {
    TwoTicksGenerateTwoOrders();
    TickFindsCompleted();
    SkipSlipsIn();
    var before, run := SlowTickRun(), LateCompletionRun();
    forall i | 0 <= i < |run.labels|
      ensures Step(run.states[i], run.labels[i], run.states[i + 1])
      ensures i < 10 ==> Fresh(run.states[i], run.labels[i])
    {
      if i < 6 {
        assert run.states[i] == before.states[i] && run.states[i + 1] == before.states[i + 1];
        assert run.labels[i] == before.labels[i];
      } else {
        assert i <= 10 && StepAt(run, i);
      }
    }
  }
}
