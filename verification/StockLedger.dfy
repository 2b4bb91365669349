/** What every sequence of stock transactions keeps. */
module StockLedger {
  import opened Outcomes
  import opened Stock
  import Shared

  /** How a row moved the balance. */
  function Delta(t: Tx): int {
    if t.movement == ISSUE || t.movement == TRANSFER_OUT then -t.quantity else t.quantity
  }

  function Effect(part: nat): Tx -> int {
    (t: Tx) => if t.part == part then Delta(t) else 0
  }

  /** The reading of a ledger row by its movement's sign on the absolute quantity. */
  function Signed(part: nat): Tx -> int {
    (t: Tx) => if t.part == part then MovementSign(t.movement, t.quantity) * Abs(t.quantity) else 0
  }

  function Moved(part: nat, order: nat, m: Movement): Tx -> int {
    (t: Tx) => if t.part == part && t.workOrder == Some(order) && t.movement == m then t.quantity else 0
  }

  // ---------------------------------------------------------------------------
  // The invariant
  // ---------------------------------------------------------------------------

  ghost predicate UniqueKeys(ledger: seq<Tx>) {
    forall i, j :: 0 <= i < j < |ledger| ==> ledger[i].id != ledger[j].id
  }

  /** The rows the service writes. */
  ghost predicate Shape(t: Tx) {
    && t.movement != TRANSFER_IN && t.movement != TRANSFER_OUT
    && (t.movement == ISSUE || t.movement == RETURN ==> t.quantity > 0)
    && (t.movement == RETURN ==> t.original.Some? && t.revision == None && t.workOrder.Some?)
    && (t.movement != ISSUE ==> t.revision == None)
  }

  /** `i` is the issue that `t` returns: same part, same work order. */
  ghost predicate Returns(t: Tx, i: Tx) {
    i.movement == ISSUE && t.original == Some(i.id) && i.part == t.part && i.workOrder == t.workOrder
  }

  ghost predicate Balanced(s: Store) {
    forall p :: p in s.parts ==> s.parts[p].onHand == Sum(s.ledger, Effect(p)) && s.parts[p].onHand >= 0
  }

  ghost predicate WellShaped(ledger: seq<Tx>) {
    forall t :: t in ledger ==> Shape(t)
  }

  ghost predicate Sound(ledger: seq<Tx>) {
    && UniqueKeys(ledger)
    && WellShaped(ledger)
    && (forall t :: t in ledger && t.movement == RETURN ==> exists i :: i in ledger && Returns(t, i))
  }

  /** No issue has had more returned than it took. */
  ghost predicate ReturnsBounded(ledger: seq<Tx>) {
    forall i :: i in ledger && i.movement == ISSUE ==> Sum(ledger, ReturnsOf(i.id)) <= i.quantity
  }

  ghost predicate Inv(s: Store) {
    && Balanced(s)
    && Sound(s.ledger)
    && ReturnsBounded(s.ledger)
    && (forall t :: t in s.ledger ==> t.part in s.parts)
  }

  /** Nothing is issued under a revision beyond what it approves, part by part. */
  ghost predicate WithinBudgets(s: Store, lines: map<RevisionId, seq<Line>>) {
    forall r, p :: Sum(s.ledger, PartUnder(r, p)) <= Budget(LinesOf(lines, r), p)
  }

  /** What has been issued under a revision in all fits the budget of one of its parts. */
  ghost predicate GrossFitsOnePart(s: Store, lines: map<RevisionId, seq<Line>>) {
    forall r :: Sum(s.ledger, Under(r, ISSUE)) > 0 ==> FitsOnePart(s.ledger, LinesOf(lines, r), r)
  }

  ghost predicate FitsOnePart(ledger: seq<Tx>, lines: seq<Line>, r: RevisionId) {
    exists p :: Lists(lines, p) && Sum(ledger, Under(r, ISSUE)) <= Budget(lines, p)
  }

  lemma {:induction false} SumZero(ledger: seq<Tx>, f: Tx -> int)
    requires forall t :: t in ledger ==> f(t) == 0
    ensures Sum(ledger, f) == 0
  {
    if ledger != [] {
      SumZero(ledger[..|ledger| - 1], f);
    }
  }

  /** Recording a row keeps balances, keys and parts in step. */
  lemma RecordKeeps(s: Store, delta: int, t: Tx, s': Store)
    requires Balanced(s) && UniqueKeys(s.ledger) && (forall x :: x in s.ledger ==> x.part in s.parts)
    requires Record(s, delta, t) == Success(s') && delta == Delta(t)
    ensures Balanced(s') && UniqueKeys(s'.ledger) && (forall x :: x in s'.ledger ==> x.part in s'.parts)
    ensures s'.ledger == s.ledger + [t]
  {
    forall p | p in s'.parts
      ensures s'.parts[p].onHand == Sum(s'.ledger, Effect(p)) && s'.parts[p].onHand >= 0
    {
      SumStep(s.ledger, t, Effect(p));
    }
    assert forall i :: 0 <= i < |s.ledger| ==> s.ledger[i] in s.ledger;
  }

  lemma SoundStep(ledger: seq<Tx>, t: Tx)
    requires Sound(ledger) && Shape(t) && UniqueKeys(ledger + [t])
    requires t.movement == RETURN ==> exists i :: i in ledger && Returns(t, i)
    ensures Sound(ledger + [t])
  {
    forall x | x in ledger + [t] && x.movement == RETURN
      ensures exists i :: i in ledger + [t] && Returns(x, i)
    {
      var i :| i in ledger && Returns(x, i);
      assert i in ledger + [t];
    }
  }

  /** A new row that returns nothing leaves the totals returned; a fresh issue has none yet. */
  lemma ReturnsBoundedStep(ledger: seq<Tx>, t: Tx)
    requires Sound(ledger) && ReturnsBounded(ledger) && UniqueKeys(ledger + [t]) && Shape(t)
    requires t.movement == RETURN ==> forall i :: i in ledger && t.original == Some(i.id) && i.movement == ISSUE ==>
               t.quantity <= i.quantity - Sum(ledger, ReturnsOf(i.id))
    ensures ReturnsBounded(ledger + [t])
  {
    forall i | i in ledger + [t] && i.movement == ISSUE
      ensures Sum(ledger + [t], ReturnsOf(i.id)) <= i.quantity
    {
      if i in ledger {
        OldIssueStaysBounded(ledger, t, i);
      } else {
        SumStep(ledger, t, ReturnsOf(t.id));
        NothingReturnsNewRow(ledger, t);
      }
    }
  }

  lemma OldIssueStaysBounded(ledger: seq<Tx>, t: Tx, i: Tx)
    requires ReturnsBounded(ledger) && i in ledger && i.movement == ISSUE
    requires t.movement == RETURN && t.original == Some(i.id) ==> t.quantity <= i.quantity - Sum(ledger, ReturnsOf(i.id))
    ensures Sum(ledger + [t], ReturnsOf(i.id)) <= i.quantity
  {
    SumStep(ledger, t, ReturnsOf(i.id));
  }

  lemma NothingReturnsNewRow(ledger: seq<Tx>, t: Tx)
    requires Sound(ledger) && UniqueKeys(ledger + [t])
    ensures Sum(ledger, ReturnsOf(t.id)) == 0
  {
    forall x | x in ledger
      ensures ReturnsOf(t.id)(x) == 0
    {
      if x.movement == RETURN {
        var y :| y in ledger && Returns(x, y);
        DistinctFromLast(ledger, t, y);
      }
    }
    SumZero(ledger, ReturnsOf(t.id));
  }

  lemma DistinctFromLast(ledger: seq<Tx>, t: Tx, y: Tx)
    requires UniqueKeys(ledger + [t]) && y in ledger
    ensures y.id != t.id
  {
    var k :| 0 <= k < |ledger| && ledger[k] == y;
    assert (ledger + [t])[k] == y && (ledger + [t])[|ledger|] == t;
  }

  lemma BudgetStep(s: Store, lines: map<RevisionId, seq<Line>>, t: Tx)
    requires Sound(s.ledger) && WithinBudgets(s, lines) && Shape(t)
    requires t.revision.Some? ==>
               WithinIssuedBudget(s.ledger, LinesOf(lines, t.revision.value), t.part, t.revision.value, t.quantity).Success?
    ensures WithinBudgets(s.(ledger := s.ledger + [t]), lines)
  {
    forall r, p
      ensures Sum(s.ledger + [t], PartUnder(r, p)) <= Budget(LinesOf(lines, r), p)
    {
      SumStep(s.ledger, t, PartUnder(r, p));
      assert Sum(s.ledger, PartUnder(r, p)) <= Budget(LinesOf(lines, r), p);
      if t.revision == Some(r) && t.part == p {
        SumMonotone(s.ledger, PartUnder(r, p), Under(r, ISSUE));
        SumZero(s.ledger, Under(r, RETURN));
      }
    }
  }

  lemma IssueKeeps(s: Store, lines: map<RevisionId, seq<Line>>, op: Op, s': Store)
    requires Inv(s) && op.Issue? && Admissible(op) && Apply(s, lines, op) == Success(s')
    ensures Inv(s') && (WithinBudgets(s, lines) ==> WithinBudgets(s', lines))
  {
    var t := Tx(op.key, op.part, ISSUE, op.quantity, Some(op.order),
                if s.parts[op.part].requiresApproval then op.approved else None, None);
    RecordKeeps(s, -op.quantity, t, s');
    SoundStep(s.ledger, t);
    ReturnsBoundedStep(s.ledger, t);
    if WithinBudgets(s, lines) {
      BudgetStep(s, lines, t);
    }
  }

  lemma ReturnKeeps(s: Store, lines: map<RevisionId, seq<Line>>, op: Op, s': Store)
    requires Inv(s) && op.Return? && Admissible(op) && Apply(s, lines, op) == Success(s')
    ensures Inv(s') && (WithinBudgets(s, lines) ==> WithinBudgets(s', lines))
  {
    var orig := Find(s.ledger, op.original).value;
    var t := Tx(op.key, orig.part, RETURN, op.quantity, Some(op.order), None, Some(op.original));
    RecordKeeps(s, op.quantity, t, s');
    assert Returns(t, orig);
    SoundStep(s.ledger, t);
    forall i | i in s.ledger && i.id == op.original
      ensures i == orig
    {
      SameKeySameRow(s.ledger, i, orig);
    }
    ReturnsBoundedStep(s.ledger, t);
    if WithinBudgets(s, lines) {
      BudgetStep(s, lines, t);
    }
  }

  lemma SameKeySameRow(ledger: seq<Tx>, a: Tx, b: Tx)
    requires UniqueKeys(ledger) && a in ledger && b in ledger && a.id == b.id
    ensures a == b
  {
  }

  lemma MovementKeeps(s: Store, lines: map<RevisionId, seq<Line>>, t: Tx, s': Store)
    requires Inv(s) && (t.movement == RECEIPT || t.movement == ADJUSTMENT) && t.revision == None
    requires Record(s, t.quantity, t) == Success(s')
    ensures Inv(s') && (WithinBudgets(s, lines) ==> WithinBudgets(s', lines))
  {
    RecordKeeps(s, t.quantity, t, s');
    SoundStep(s.ledger, t);
    ReturnsBoundedStep(s.ledger, t);
    if WithinBudgets(s, lines) {
      BudgetStep(s, lines, t);
    }
  }

  lemma PartKeeps(s: Store, lines: map<RevisionId, seq<Line>>, op: Op, s': Store)
    requires Inv(s) && (op.CreatePart? || op.UpdatePart?) && Apply(s, lines, op) == Success(s')
    ensures Inv(s') && (WithinBudgets(s, lines) ==> WithinBudgets(s', lines))
  {
    if op.CreatePart? {
      SumZero(s.ledger, Effect(op.id));
    }
  }

  lemma ApplyKeeps(s: Store, lines: map<RevisionId, seq<Line>>, op: Op, s': Store)
    requires Inv(s) && Admissible(op) && Apply(s, lines, op) == Success(s')
    ensures Inv(s') && (WithinBudgets(s, lines) ==> WithinBudgets(s', lines))
  {
    match op
    case CreatePart(_, _) => PartKeeps(s, lines, op, s');
    case UpdatePart(_, _) => PartKeeps(s, lines, op, s');
    case Issue(_, _, _, _, _, _) => IssueKeeps(s, lines, op, s');
    case Return(_, _, _, _) => ReturnKeeps(s, lines, op, s');
    case Receipt(part, quantity, key) =>
      MovementKeeps(s, lines, Tx(key, part, RECEIPT, quantity, None, None, None), s');
    case Adjust(part, quantity, _, key) =>
      MovementKeeps(s, lines, Tx(key, part, ADJUSTMENT, quantity, None, None, None), s');
  }

  /** The one row that a stock movement appends; only an issue can name a revision. */
  lemma ApplyAppends(s: Store, lines: map<RevisionId, seq<Line>>, op: Op, s': Store) returns (t: Tx)
    requires Apply(s, lines, op) == Success(s') && !op.CreatePart? && !op.UpdatePart?
    ensures s'.ledger == s.ledger + [t]
    ensures op.Issue? ==>
      && op.part in s.parts && (s.parts[op.part].requiresApproval ==> op.approved.Some?)
      && op.status.Some? && op.status != Some(Shared.COMPLETED) && op.status != Some(Shared.CANCELLED)
      && t == Tx(op.key, op.part, ISSUE, op.quantity, Some(op.order),
                 if s.parts[op.part].requiresApproval then op.approved else None, None)
    ensures !op.Issue? ==> t.revision == None
  {
    t := s'.ledger[|s.ledger|];
  }

  // ---------------------------------------------------------------------------
  // Runs
  // ---------------------------------------------------------------------------

  ghost predicate Step(s: Store, s': Store, lines: map<RevisionId, seq<Line>>) {
    exists op :: Admissible(op) && Apply(s, lines, op) == Success(s')
  }

  ghost predicate IsRun(run: seq<Store>, lines: map<RevisionId, seq<Line>>) {
    && run != [] && run[0] == Store(map[], [])
    && forall i :: 0 <= i < |run| - 1 ==> Step(run[i], run[i + 1], lines)
  }

  lemma EmptyStore(lines: map<RevisionId, seq<Line>>)
    ensures Inv(Store(map[], [])) && WithinBudgets(Store(map[], []), lines)
  {
  }

  lemma StepKeepsInv(s: Store, s': Store, lines: map<RevisionId, seq<Line>>)
    requires Inv(s) && WithinBudgets(s, lines) && Step(s, s', lines)
    ensures Inv(s') && WithinBudgets(s', lines)
  {
    var op :| Admissible(op) && Apply(s, lines, op) == Success(s');
    ApplyKeeps(s, lines, op, s');
  }

  lemma {:induction false} RunKeepsInv(run: seq<Store>, lines: map<RevisionId, seq<Line>>, n: nat)
    requires IsRun(run, lines) && n < |run|
    ensures Inv(run[n]) && WithinBudgets(run[n], lines)
  {
    if n == 0 {
      EmptyStore(lines);
    } else {
      RunKeepsInv(run, lines, n - 1);
      StepKeepsInv(run[n - 1], run[n], lines);
    }
  }

  /** The stored balance never goes negative and is the sum of all movements recorded for the part. */
  lemma BalanceIsLedger(run: seq<Store>, lines: map<RevisionId, seq<Line>>, n: nat, p: nat)
    requires IsRun(run, lines) && n < |run| && p in run[n].parts
    ensures run[n].parts[p].onHand >= 0
    ensures run[n].parts[p].onHand == Sum(run[n].ledger, Effect(p))
  {
    RunKeepsInv(run, lines, n);
  }

  /**
   Read with the movement signs of the domain on absolute quantities, the ledger gives the
   balance exactly when no receipt of the part was entered with a negative quantity (the
   service does not refuse one).
   */
  lemma SignedLedgerIffReceiptsPositive(run: seq<Store>, lines: map<RevisionId, seq<Line>>, n: nat, p: nat)
    requires IsRun(run, lines) && n < |run| && p in run[n].parts
    ensures run[n].parts[p].onHand == Sum(run[n].ledger, Signed(p))
            <==> forall t :: t in run[n].ledger && t.part == p && t.movement == RECEIPT ==> t.quantity >= 0
  {
    RunKeepsInv(run, lines, n);
    var ledger := run[n].ledger;
    forall t | t in ledger
      ensures Effect(p)(t) <= Signed(p)(t)
      ensures Effect(p)(t) == Signed(p)(t) <==> !(t.part == p && t.movement == RECEIPT && t.quantity < 0)
    {
      assert Shape(t);
    }
    SumMonotone(ledger, Effect(p), Signed(p));
  }

  const THREE_IN := Tx(1, 7, RECEIPT, 3, None, None, None)
  const MINUS_ONE_IN := Tx(2, 7, RECEIPT, -1, None, None, None)

  function Stocked(onHand: int, ledger: seq<Tx>): Store {
    Store(map[7 := Part(onHand, false)], ledger)
  }

  lemma ReceiptStep(onHand: int, ledger: seq<Tx>, quantity: int, key: nat)
    requires onHand + quantity >= 0 && forall t :: t in ledger ==> t.id != key
    ensures Step(Stocked(onHand, ledger),
                 Stocked(onHand + quantity, ledger + [Tx(key, 7, RECEIPT, quantity, None, None, None)]), map[])
  {
    var s, s' := Stocked(onHand, ledger),
                 Stocked(onHand + quantity, ledger + [Tx(key, 7, RECEIPT, quantity, None, None, None)]);
    assert s.parts[7 := Part(onHand + quantity, false)] == s'.parts;
    assert Apply(s, map[], Receipt(7, quantity, key)) == Success(s');
    assert Admissible(Receipt(7, quantity, key));
  }

  lemma NegativeReceiptSteps()
    ensures Step(Stocked(0, []), Stocked(3, [THREE_IN]), map[])
    ensures Step(Stocked(3, [THREE_IN]), Stocked(2, [THREE_IN, MINUS_ONE_IN]), map[])
  {
    ReceiptStep(0, [], 3, 1);
    assert [] + [THREE_IN] == [THREE_IN];
    ReceiptStep(3, [THREE_IN], -1, 2);
    assert [THREE_IN] + [MINUS_ONE_IN] == [THREE_IN, MINUS_ONE_IN];
  }

  /** The balance can disagree with the signed ledger: a receipt of minus one after one of three. */
  lemma NegativeReceiptIsAccepted()
    ensures
      var run := [Store(map[], []), Stocked(0, []), Stocked(3, [THREE_IN]), Stocked(2, [THREE_IN, MINUS_ONE_IN])];
      IsRun(run, map[]) && run[3].parts[7].onHand != Sum(run[3].ledger, Signed(7))
  {
    var run := [Store(map[], []), Stocked(0, []), Stocked(3, [THREE_IN]), Stocked(2, [THREE_IN, MINUS_ONE_IN])];
    assert Apply(run[0], map[], CreatePart(7, false)) == Success(run[1]) && Admissible(CreatePart(7, false));
    NegativeReceiptSteps();
    assert IsRun(run, map[]);
    SignedLedgerIffReceiptsPositive(run, map[], 3, 7);
    assert MINUS_ONE_IN in run[3].ledger;
  }

  // ---------------------------------------------------------------------------
  // Returned never exceeds issued
  // ---------------------------------------------------------------------------

  /** Everything returned, in `ledger`, to the issues of this part and order listed in `issues`. */
  function ReturnedTo(issues: seq<Tx>, ledger: seq<Tx>, part: nat, order: nat): int {
    if issues == [] then 0
    else
      var i := issues[|issues| - 1];
      ReturnedTo(issues[..|issues| - 1], ledger, part, order)
      + (if Moved(part, order, ISSUE)(i) != 0 then Sum(ledger, ReturnsOf(i.id)) else 0)
  }

  /** One more return row reaches at least one of the issues. */
  lemma {:induction false} ReturnedToStep(issues: seq<Tx>, ledger: seq<Tx>, t: Tx, part: nat, order: nat)
    requires forall i :: i in issues ==> Shape(i)
    requires Shape(t)
    ensures ReturnedTo(issues, ledger, part, order) <= ReturnedTo(issues, ledger + [t], part, order)
    ensures Moved(part, order, RETURN)(t) != 0 && (exists i :: i in issues && Returns(t, i)) ==>
              ReturnedTo(issues, ledger, part, order) + t.quantity <= ReturnedTo(issues, ledger + [t], part, order)
  {
    if issues != [] {
      var n := |issues| - 1;
      SumStep(ledger, t, ReturnsOf(issues[n].id));
      ReturnedToStep(issues[..n], ledger, t, part, order);
      assert forall i :: i in issues <==> i in issues[..n] || i == issues[n];
    }
  }

  lemma {:induction false} EmptyLedgerReturnsNothing(issues: seq<Tx>, part: nat, order: nat)
    ensures ReturnedTo(issues, [], part, order) == 0
  {
    if issues != [] {
      EmptyLedgerReturnsNothing(issues[..|issues| - 1], part, order);
    }
  }

  lemma {:induction false} ReturnedIsToIssues(issues: seq<Tx>, ledger: seq<Tx>, part: nat, order: nat)
    requires forall i :: i in issues ==> Shape(i)
    requires forall t :: t in ledger ==> Shape(t)
    requires forall t :: t in ledger && t.movement == RETURN ==> exists i :: i in issues && Returns(t, i)
    ensures Sum(ledger, Moved(part, order, RETURN)) <= ReturnedTo(issues, ledger, part, order)
  {
    if ledger == [] {
      EmptyLedgerReturnsNothing(issues, part, order);
    } else {
      var n := |ledger| - 1;
      ReturnedIsToIssues(issues, ledger[..n], part, order);
      ReturnedToStep(issues, ledger[..n], ledger[n], part, order);
      assert ledger[..n] + [ledger[n]] == ledger;
    }
  }

  lemma {:induction false} ReturnedToAtMostIssued(issues: seq<Tx>, ledger: seq<Tx>, part: nat, order: nat)
    requires forall i :: i in issues ==> Shape(i)
    requires forall i :: i in issues && i.movement == ISSUE ==> Sum(ledger, ReturnsOf(i.id)) <= i.quantity
    ensures ReturnedTo(issues, ledger, part, order) <= Sum(issues, Moved(part, order, ISSUE))
  {
    if issues != [] {
      var n := |issues| - 1;
      assert issues[n] in issues;
      ReturnedToAtMostIssued(issues[..n], ledger, part, order);
    }
  }

  /** In every run, for each issue, and so for each part on each work order, at most what was issued has been returned. */
  lemma ReturnedAtMostIssued(run: seq<Store>, lines: map<RevisionId, seq<Line>>, n: nat, part: nat, order: nat)
    requires IsRun(run, lines) && n < |run|
    ensures forall i :: i in run[n].ledger && i.movement == ISSUE ==> Sum(run[n].ledger, ReturnsOf(i.id)) <= i.quantity
    ensures Sum(run[n].ledger, Moved(part, order, RETURN)) <= Sum(run[n].ledger, Moved(part, order, ISSUE))
  {
    RunKeepsInv(run, lines, n);
    var ledger := run[n].ledger;
    ReturnedIsToIssues(ledger, ledger, part, order);
    ReturnedToAtMostIssued(ledger, ledger, part, order);
  }

  // ---------------------------------------------------------------------------
  // The revision budget
  // ---------------------------------------------------------------------------

  /** The gross quantity of a part issued under a revision never exceeds what the revision approves for it. */
  lemma IssuedWithinBudget(run: seq<Store>, lines: map<RevisionId, seq<Line>>, n: nat, r: RevisionId, p: nat)
    requires IsRun(run, lines) && n < |run|
    ensures Sum(run[n].ledger, PartUnder(r, p)) <= Budget(LinesOf(lines, r), p)
  {
    RunKeepsInv(run, lines, n);
  }

  /** The service writes no revision on returns, so nothing is deducted. */
  lemma NothingReturnedUnderRevision(ledger: seq<Tx>, r: RevisionId)
    requires WellShaped(ledger)
    ensures Sum(ledger, Under(r, RETURN)) == 0
  {
    forall t | t in ledger
      ensures Under(r, RETURN)(t) == 0
    {
      assert Shape(t);
    }
    SumZero(ledger, Under(r, RETURN));
  }

  lemma ApplyKeepsGrossFitting(s: Store, lines: map<RevisionId, seq<Line>>, op: Op, s': Store)
    requires WellShaped(s.ledger) && GrossFitsOnePart(s, lines) && Apply(s, lines, op) == Success(s')
    ensures GrossFitsOnePart(s', lines)
  {
    if !op.CreatePart? && !op.UpdatePart? {
      var t := ApplyAppends(s, lines, op, s');
      forall r | Sum(s'.ledger, Under(r, ISSUE)) > 0
        ensures FitsOnePart(s'.ledger, LinesOf(lines, r), r)
      {
        SumStep(s.ledger, t, Under(r, ISSUE));
        if t.revision == Some(r) {
          NothingReturnedUnderRevision(s.ledger, r);
          assert WithinIssuedBudget(s.ledger, LinesOf(lines, r), op.part, r, op.quantity).Success?;
        } else {
          assert FitsOnePart(s.ledger, LinesOf(lines, r), r);
        }
      }
    }
  }

  lemma StepKeepsGrossFitting(s: Store, s': Store, lines: map<RevisionId, seq<Line>>)
    requires WellShaped(s.ledger) && GrossFitsOnePart(s, lines) && Step(s, s', lines)
    ensures GrossFitsOnePart(s', lines)
  {
    var op :| Admissible(op) && Apply(s, lines, op) == Success(s');
    ApplyKeepsGrossFitting(s, lines, op, s');
  }

  lemma {:induction false} RunKeepsGrossFitting(run: seq<Store>, lines: map<RevisionId, seq<Line>>, n: nat)
    requires IsRun(run, lines) && n < |run|
    ensures GrossFitsOnePart(run[n], lines)
  {
    if n == 0 {
      NothingIssuedFits(lines);
    } else {
      assert Step(run[n - 1], run[n], lines);
      RunKeepsGrossFitting(run, lines, n - 1);
      RunIsWellShaped(run, lines, n - 1);
      StepKeepsGrossFitting(run[n - 1], run[n], lines);
    }
  }

  lemma RunIsWellShaped(run: seq<Store>, lines: map<RevisionId, seq<Line>>, n: nat)
    requires IsRun(run, lines) && n < |run|
    ensures WellShaped(run[n].ledger)
  {
    RunKeepsInv(run, lines, n);
  }

  lemma NothingIssuedFits(lines: map<RevisionId, seq<Line>>)
    ensures GrossFitsOnePart(Store(map[], []), lines)
  {
  }

  /** Without part lists, which no service writes, no issue under a revision is ever recorded. */
  lemma NoPartListsNoGatedIssues(run: seq<Store>, n: nat, t: Tx)
    requires IsRun(run, map[]) && n < |run| && t in run[n].ledger
    ensures t.revision == None
  {
    RunIsWellShaped(run, map[], n);
    RunKeepsGrossFitting(run, map[], n);
    if t.revision.Some? {
      EmptyListFitsNothing(run[n].ledger, t.revision.value);
      IssuedIsPositive(run[n].ledger, t.revision.value, t);
    }
  }

  lemma EmptyListFitsNothing(ledger: seq<Tx>, r: RevisionId)
    ensures !FitsOnePart(ledger, LinesOf(map[], r), r)
  {
  }

  /** A row under a revision is an issue, so the revision's gross total is positive. */
  lemma IssuedIsPositive(ledger: seq<Tx>, r: RevisionId, i: Tx)
    requires WellShaped(ledger) && i in ledger && i.revision == Some(r)
    ensures Sum(ledger, Under(r, ISSUE)) > 0
  {
    forall t | t in ledger
      ensures 0 <= Under(r, ISSUE)(t)
    {
      assert Shape(t);
    }
    var zero := (t: Tx) => 0;
    SumZero(ledger, zero);
    SumMonotone(ledger, zero, Under(r, ISSUE));
    assert Shape(i) && Under(r, ISSUE)(i) != zero(i);
  }

  /** Returned, by the documented net rule, against the issues of a revision. */
  function ReturnedAgainst(r: RevisionId, ledger: seq<Tx>): Tx -> int {
    (t: Tx) =>
      if t.movement == RETURN && t.original.Some?
         && exists i :: i in ledger && i.id == t.original.value && i.revision == Some(r) then t.quantity else 0
  }

  /** The documented rule: net issued under the revision, returns deducted, against the budget. */
  predicate NetRuleAccepts(ledger: seq<Tx>, lines: seq<Line>, part: nat, r: RevisionId, quantity: int) {
    Lists(lines, part)
    && Sum(ledger, Under(r, ISSUE)) - Sum(ledger, ReturnedAgainst(r, ledger)) + quantity <= Budget(lines, part)
  }

  /** The two rules decide a request for this revision alike. */
  ghost predicate RulesAgree(ledger: seq<Tx>, lines: seq<Line>, r: RevisionId, part: nat, quantity: nat) {
    WithinIssuedBudget(ledger, lines, part, r, quantity).Success? <==> NetRuleAccepts(ledger, lines, part, r, quantity)
  }

  lemma ReturnedNeedsAnIssue(ledger: seq<Tx>, r: RevisionId)
    requires WellShaped(ledger)
    ensures Sum(ledger, ReturnedAgainst(r, ledger)) >= 0
    ensures Sum(ledger, ReturnedAgainst(r, ledger)) > 0 ==> Sum(ledger, Under(r, ISSUE)) > 0
  {
    forall t | t in ledger
      ensures 0 <= ReturnedAgainst(r, ledger)(t)
    {
      assert Shape(t);
    }
    var zero := (t: Tx) => 0;
    SumZero(ledger, zero);
    SumMonotone(ledger, zero, ReturnedAgainst(r, ledger));
    if i :| i in ledger && i.revision == Some(r) {
      IssuedIsPositive(ledger, r, i);
    } else {
      SumZero(ledger, ReturnedAgainst(r, ledger));
    }
  }

  /**
   Return rows carry no revision, so the check deducts nothing: it agrees with the documented
   net rule on every request for the revision's own part list exactly when nothing was returned
   against the revision. Once something was, there is a request it refuses and the rule accepts.
   */
  lemma GrossCheckIsNetRuleIffNothingReturned(run: seq<Store>, lines: map<RevisionId, seq<Line>>, n: nat, r: RevisionId)
    requires IsRun(run, lines) && n < |run|
    ensures (forall p: nat, q: nat :: q > 0 ==> RulesAgree(run[n].ledger, LinesOf(lines, r), r, p, q))
            <==> Sum(run[n].ledger, ReturnedAgainst(r, run[n].ledger)) == 0
  {
    RunIsWellShaped(run, lines, n);
    RunKeepsGrossFitting(run, lines, n);
    var ledger, ls := run[n].ledger, LinesOf(lines, r);
    NothingReturnedUnderRevision(ledger, r);
    ReturnedNeedsAnIssue(ledger, r);
    if Sum(ledger, ReturnedAgainst(r, ledger)) > 0 {
      assert FitsOnePart(ledger, ls, r);
      var p: nat :| Lists(ls, p) && Sum(ledger, Under(r, ISSUE)) <= Budget(ls, p);
      var q: nat := Budget(ls, p) - Sum(ledger, Under(r, ISSUE)) + 1;
      assert NetRuleAccepts(ledger, ls, p, r, q) && WithinIssuedBudget(ledger, ls, p, r, q).Failure?;
      assert !RulesAgree(ledger, ls, r, p, q);
    }
  }

  // ---------------------------------------------------------------------------
  // Issued, returned, refused
  // ---------------------------------------------------------------------------

  ghost predicate Reachable(s: Store, lines: map<RevisionId, seq<Line>>) {
    exists run :: IsRun(run, lines) && run[|run| - 1] == s
  }

  lemma ReachableOn(s: Store, op: Op, s': Store, lines: map<RevisionId, seq<Line>>)
    requires Reachable(s, lines) && Admissible(op) && Apply(s, lines, op) == Success(s')
    ensures Reachable(s', lines)
  {
    assert Step(s, s', lines);
    var run :| IsRun(run, lines) && run[|run| - 1] == s;
    RunExtends(run, s', lines);
  }

  lemma RunExtends(run: seq<Store>, s': Store, lines: map<RevisionId, seq<Line>>)
    requires IsRun(run, lines) && Step(run[|run| - 1], s', lines)
    ensures IsRun(run + [s'], lines) && Reachable(s', lines)
  {
    var run' := run + [s'];
    forall i | 0 <= i < |run'| - 1
      ensures Step(run'[i], run'[i + 1], lines)
    {
      assert i < |run| - 1 ==> Step(run[i], run[i + 1], lines);
    }
    assert run'[|run'| - 1] == s';
  }

  const R := RevisionId(1, 1)
  const THREE_OUT := Tx(2, 7, ISSUE, 3, Some(4), Some(R), None)
  const THREE_BACK := Tx(3, 7, RETURN, 3, Some(4), None, Some(2))

  function Gated(onHand: int, ledger: seq<Tx>): Store {
    Store(map[7 := Part(onHand, true)], ledger)
  }

  function Again(key: nat): Op {
    Issue(4, Some(Shared.IN_PROGRESS), 7, 3, Some(R), key)
  }

  lemma BudgetOfThree()
    ensures Lists([Line(7, 3)], 7) && Budget([Line(7, 3)], 7) == 3
    ensures Sum([THREE_IN], Under(R, ISSUE)) == 0 && Sum([THREE_IN], Under(R, RETURN)) == 0
    ensures Sum([THREE_IN, THREE_OUT, THREE_BACK], Under(R, ISSUE)) == 3
  {
    assert Line(7, 3) in [Line(7, 3)] && [Line(7, 3)][..0] == [];
    assert [THREE_IN] == [] + [THREE_IN];
    SumStep([], THREE_IN, Under(R, ISSUE));
    SumStep([], THREE_IN, Under(R, RETURN));
    assert [THREE_IN, THREE_OUT] == [THREE_IN] + [THREE_OUT];
    SumStep([THREE_IN], THREE_OUT, Under(R, ISSUE));
    assert [THREE_IN, THREE_OUT, THREE_BACK] == [THREE_IN, THREE_OUT] + [THREE_BACK];
    SumStep([THREE_IN, THREE_OUT], THREE_BACK, Under(R, ISSUE));
  }

  lemma StockIsReceived(lines: map<RevisionId, seq<Line>>)
    ensures Reachable(Gated(3, [THREE_IN]), lines)
  {
    var s0 := Store(map[], []);
    assert IsRun([s0], lines);
    assert Apply(s0, lines, CreatePart(7, true)) == Success(Gated(0, []));
    ReachableOn(s0, CreatePart(7, true), Gated(0, []), lines);
    assert [] + [THREE_IN] == [THREE_IN];
    assert Gated(0, []).parts[7 := Part(3, true)] == Gated(3, [THREE_IN]).parts;
    assert Apply(Gated(0, []), lines, Receipt(7, 3, 1)) == Success(Gated(3, [THREE_IN]));
    ReachableOn(Gated(0, []), Receipt(7, 3, 1), Gated(3, [THREE_IN]), lines);
  }

  lemma StockIsIssued()
    ensures Reachable(Gated(0, [THREE_IN, THREE_OUT]), map[R := [Line(7, 3)]])
  {
    var lines := map[R := [Line(7, 3)]];
    StockIsReceived(lines);
    BudgetOfThree();
    var s1, s2 := Gated(3, [THREE_IN]), Gated(0, [THREE_IN, THREE_OUT]);
    assert Find([THREE_IN], 2).None? && [THREE_IN] + [THREE_OUT] == s2.ledger;
    assert s1.parts[7 := Part(0, true)] == s2.parts;
    assert Apply(s1, lines, Again(2)) == Success(s2);
    ReachableOn(s1, Again(2), s2, lines);
  }

  lemma StockIsIssuedAndReturned()
    ensures Reachable(Gated(3, [THREE_IN, THREE_OUT, THREE_BACK]), map[R := [Line(7, 3)]])
  {
    var lines := map[R := [Line(7, 3)]];
    StockIsIssued();
    NothingReturnedYet();
    var s2, s3 := Gated(0, [THREE_IN, THREE_OUT]), Gated(3, [THREE_IN, THREE_OUT, THREE_BACK]);
    assert s2.ledger[..1] == [THREE_IN];
    assert Find(s2.ledger, 2) == Some(THREE_OUT) && Find([THREE_IN], 3).None? && Find(s2.ledger, 3).None?;
    assert s2.parts[7 := Part(3, true)] == s3.parts && s2.ledger + [THREE_BACK] == s3.ledger;
    assert Apply(s2, lines, Return(4, 2, 3, 3)) == Success(s3);
    ReachableOn(s2, Return(4, 2, 3, 3), s3, lines);
  }

  lemma NothingReturnedYet()
    ensures Sum([THREE_IN, THREE_OUT], ReturnsOf(2)) == 0
  {
    SumZero([THREE_IN, THREE_OUT], ReturnsOf(2));
  }

  lemma EverythingIsReturned()
    ensures Sum([THREE_IN, THREE_OUT, THREE_BACK], ReturnedAgainst(R, [THREE_IN, THREE_OUT, THREE_BACK])) == 3
  {
    var ledger := [THREE_IN, THREE_OUT, THREE_BACK];
    assert ledger == [THREE_IN, THREE_OUT] + [THREE_BACK];
    SumStep([THREE_IN, THREE_OUT], THREE_BACK, ReturnedAgainst(R, ledger));
    SumZero([THREE_IN, THREE_OUT], ReturnedAgainst(R, ledger));
    assert ledger[1] in ledger && ledger[1].id == 2 && ledger[1].revision == Some(R);
  }

  /** After everything issued was returned, the same request is refused though the net rule accepts it. */
  lemma ReturnedStockIsNotReissued()
    ensures
      var s, lines := Gated(3, [THREE_IN, THREE_OUT, THREE_BACK]), map[R := [Line(7, 3)]];
      && Reachable(s, lines)
      && Apply(s, lines, Again(4)) == Failure("APR_EXCEEDS_REVISION_BUDGET_QTY")
      && NetRuleAccepts(s.ledger, LinesOf(lines, R), 7, R, 3)
  {
    StockIsIssuedAndReturned();
    BudgetOfThree();
    EverythingIsReturned();
    ReturnsAreUnmarked();
  }

  lemma ReturnsAreUnmarked()
    ensures Sum([THREE_IN, THREE_OUT, THREE_BACK], Under(R, RETURN)) == 0
  {
    SumZero([THREE_IN, THREE_OUT, THREE_BACK], Under(R, RETURN));
  }
}
