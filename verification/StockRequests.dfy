/** When each stock request is accepted and what exactly it leaves behind. */
module StockRequests {
  import opened Outcomes
  import opened Stock
  import L = StockLedger
  import Shared

  /** What the rows return of an issue, first row first. */
  function ReturnedOf(rows: seq<Tx>, issue: nat): int {
    if rows == [] then 0
    else
      (if rows[0].movement == RETURN && rows[0].original == Some(issue) then rows[0].quantity else 0)
      + ReturnedOf(rows[1..], issue)
  }

  /** What the rows issue under a revision, of whatever part, first row first. */
  function IssuedUnder(rows: seq<Tx>, r: RevisionId): int {
    if rows == [] then 0
    else
      (if rows[0].movement == ISSUE && rows[0].revision == Some(r) then rows[0].quantity else 0)
      + IssuedUnder(rows[1..], r)
  }

  // ---------------------------------------------------------------------------
  // Sums
  // ---------------------------------------------------------------------------

  lemma {:induction false} SumFromFront(ledger: seq<Tx>, f: Tx -> int)
    requires ledger != []
    ensures Sum(ledger, f) == f(ledger[0]) + Sum(ledger[1..], f)
  {
    var n := |ledger| - 1;
    if n > 0 {
      SumFromFront(ledger[..n], f);
      assert ledger[..n][1..] == ledger[1..][..n - 1];
    }
  }

  lemma {:induction false} ReturnedIsSum(ledger: seq<Tx>, issue: nat)
    ensures Sum(ledger, ReturnsOf(issue)) == ReturnedOf(ledger, issue)
  {
    if ledger != [] {
      SumFromFront(ledger, ReturnsOf(issue));
      ReturnedIsSum(ledger[1..], issue);
    }
  }

  lemma {:induction false} IssuedIsSum(ledger: seq<Tx>, r: RevisionId)
    ensures Sum(ledger, Under(r, ISSUE)) == IssuedUnder(ledger, r)
  {
    if ledger != [] {
      SumFromFront(ledger, Under(r, ISSUE));
      IssuedIsSum(ledger[1..], r);
    }
  }

  lemma {:induction false} ReturnedIsNotNegative(ledger: seq<Tx>, issue: nat)
    requires L.WellShaped(ledger)
    ensures ReturnedOf(ledger, issue) >= 0
  {
    if ledger != [] {
      assert L.Shape(ledger[0]);
      ReturnedIsNotNegative(ledger[1..], issue);
    }
  }

  /** With one line per part the budget of a listed part is the quantity on its line. */
  lemma {:induction false} BudgetIsTheLine(lines: seq<Line>, part: nat)
    requires forall i, j :: 0 <= i < j < |lines| ==> lines[i].part != lines[j].part
    ensures forall l :: l in lines && l.part == part ==> Lists(lines, part) && Budget(lines, part) == l.quantity
    ensures (forall l :: l in lines ==> l.part != part) ==> !Lists(lines, part) && Budget(lines, part) == 0
  {
    if lines != [] {
      var n := |lines| - 1;
      BudgetIsTheLine(lines[..n], part);
      assert forall l :: l in lines <==> l in lines[..n] || l == lines[n];
    }
  }

  // ---------------------------------------------------------------------------
  // Returns
  // ---------------------------------------------------------------------------

  /** `i` is an issue on this order with enough left to return. */
  ghost predicate CanReturn(ledger: seq<Tx>, i: Tx, order: nat, original: nat, quantity: int) {
    && i in ledger && i.id == original && i.movement == ISSUE && i.workOrder == Some(order)
    && ReturnedOf(ledger, original) + quantity <= i.quantity
  }

  /**
   A return is accepted exactly when the ledger holds an issue with that key on that order whose
   returns, this one included, stay within its quantity.
   */
  lemma ReturnIsAcceptedIff(s: Store, lines: map<RevisionId, seq<Line>>, order: nat, original: nat, quantity: int,
                            key: nat)
    requires L.Inv(s) && quantity > 0 && Fresh(s.ledger, key)
    ensures Apply(s, lines, Return(order, original, quantity, key)).Success?
            <==> exists i :: CanReturn(s.ledger, i, order, original, quantity)
  {
    ReturnedIsSum(s.ledger, original);
    ReturnedIsNotNegative(s.ledger, original);
    var orig := Find(s.ledger, original);
    if orig.Some? {
      forall i | CanReturn(s.ledger, i, order, original, quantity)
        ensures i == orig.value
      {
        L.SameKeySameRow(s.ledger, i, orig.value);
      }
      assert orig.value.part in s.parts && s.parts[orig.value.part].onHand >= 0;
      assert Apply(s, lines, Return(order, original, quantity, key)).Success?
             <==> CanReturn(s.ledger, orig.value, order, original, quantity);
    }
  }

  /** It appends one row for the part of that issue and raises the balance of that part alone. */
  lemma ReturnEffect(s: Store, lines: map<RevisionId, seq<Line>>, order: nat, original: nat, quantity: int, key: nat,
                     i: Tx, s': Store)
    requires L.Inv(s) && i in s.ledger && i.id == original
    requires Apply(s, lines, Return(order, original, quantity, key)) == Success(s')
    ensures Posted(s, s', quantity, Tx(key, i.part, RETURN, quantity, Some(order), None, Some(original)))
  {
    L.SameKeySameRow(s.ledger, i, Find(s.ledger, original).value);
  }

  /** The reason a return is refused for. */
  lemma ReturnRefusals(s: Store, lines: map<RevisionId, seq<Line>>, order: nat, original: nat, quantity: int, key: nat)
    requires L.Inv(s) && quantity > 0
    ensures
      var r := Apply(s, lines, Return(order, original, quantity, key));
      && (Fresh(s.ledger, original) ==> r == Failure("NOT_FOUND"))
      && forall i :: i in s.ledger && i.id == original ==>
           && (i.movement != ISSUE ==> r == Failure("STOCK_RETURN_INVALID_ORIGINAL"))
           && (i.movement == ISSUE && i.workOrder != Some(order) ==> r == Failure("STOCK_RETURN_WRONG_WO"))
           && (i.movement == ISSUE && i.workOrder == Some(order) && ReturnedOf(s.ledger, original) + quantity > i.quantity ==>
                 r == Failure("STOCK_RETURN_EXCEEDS_ISSUE"))
  {
    ReturnedIsSum(s.ledger, original);
    forall i | i in s.ledger && i.id == original
      ensures Find(s.ledger, original) == Some(i)
    {
      L.SameKeySameRow(s.ledger, i, Find(s.ledger, original).value);
    }
  }

  // ---------------------------------------------------------------------------
  // Issues
  // ---------------------------------------------------------------------------

  /** The revision approves the part and has this much left of its quantity, all parts issued under it counted. */
  ghost predicate Covers(ledger: seq<Tx>, lines: map<RevisionId, seq<Line>>, r: RevisionId, part: nat, quantity: int) {
    && Lists(LinesOf(lines, r), part)
    && IssuedUnder(ledger, r) + quantity <= Budget(LinesOf(lines, r), part)
  }

  /** An issue is accepted exactly on an open order, within the balance, and covered where the part needs approval. */
  lemma IssueIsAcceptedIff(s: Store, lines: map<RevisionId, seq<Line>>, order: nat,
                           status: Option<Shared.WorkOrderStatus>, part: nat, quantity: int,
                           approved: Option<RevisionId>, key: nat)
    requires L.Inv(s) && quantity > 0 && Fresh(s.ledger, key)
    ensures Apply(s, lines, Issue(order, status, part, quantity, approved, key)).Success?
            <==> (&& status.Some? && status.value !in {Shared.COMPLETED, Shared.CANCELLED}
                  && part in s.parts && quantity <= s.parts[part].onHand
                  && (s.parts[part].requiresApproval ==>
                        approved.Some? && Covers(s.ledger, lines, approved.value, part, quantity)))
  {
    if approved.Some? {
      L.NothingReturnedUnderRevision(s.ledger, approved.value);
      IssuedIsSum(s.ledger, approved.value);
    }
  }

  /** The reason an issue is refused for. */
  lemma IssueRefusals(s: Store, lines: map<RevisionId, seq<Line>>, order: nat,
                      status: Option<Shared.WorkOrderStatus>, part: nat, quantity: int,
                      approved: Option<RevisionId>, key: nat)
    requires L.Inv(s) && quantity > 0 && Fresh(s.ledger, key)
    ensures
      var r := Apply(s, lines, Issue(order, status, part, quantity, approved, key));
      && (status == None ==> r == Failure("NOT_FOUND"))
      && (status == Some(Shared.COMPLETED) || status == Some(Shared.CANCELLED) ==> r == Failure("WO_TERMINAL_NO_ISSUE"))
      && (status.Some? && status.value !in {Shared.COMPLETED, Shared.CANCELLED} && part in s.parts ==>
            if s.parts[part].requiresApproval && approved == None then r == Failure("APR_NO_APPROVED_REVISION")
            else if s.parts[part].requiresApproval && !Lists(LinesOf(lines, approved.value), part) then
              r == Failure("APR_PART_NOT_IN_REVISION")
            else if s.parts[part].requiresApproval && !Covers(s.ledger, lines, approved.value, part, quantity) then
              r == Failure("APR_EXCEEDS_REVISION_BUDGET_QTY")
            else if s.parts[part].onHand < quantity then r == Failure("STOCK_INSUFFICIENT")
            else r.Success?)
  {
    if approved.Some? {
      L.NothingReturnedUnderRevision(s.ledger, approved.value);
      IssuedIsSum(s.ledger, approved.value);
    }
  }

  /** No movement is recorded under a key that the ledger already holds. */
  lemma KeyIsUsedOnce(s: Store, lines: map<RevisionId, seq<Line>>, op: Op)
    requires op.Issue? || op.Return? || op.Receipt? || op.Adjust?
    requires !Fresh(s.ledger, op.key)
    ensures Apply(s, lines, op).Failure?
  {
    assert Find(s.ledger, op.key).Some?;
  }
}
