/**
 The stock ledger: issues, partial returns, receipts and adjustments, each one a serializable
 transaction. Quantities are integer thousandths.
 */
module Stock {
  import opened Outcomes
  import Shared

  datatype Movement = RECEIPT | ISSUE | RETURN | ADJUSTMENT | TRANSFER_OUT | TRANSFER_IN

  datatype RevisionId = RevisionId(approval: nat, no: nat)

  datatype Tx = Tx(
    id: nat,
    part: nat,
    movement: Movement,
    quantity: int,
    workOrder: Option<nat>,
    revision: Option<RevisionId>,
    original: Option<nat>)

  datatype Part = Part(onHand: int, requiresApproval: bool)

  datatype Store = Store(parts: map<nat, Part>, ledger: seq<Tx>)

  /** A part with its approved quantity, as listed by a revision. */
  datatype Line = Line(part: nat, quantity: nat)

  predicate IsInbound(m: Movement) {
    m == RECEIPT || m == RETURN || m == TRANSFER_IN
  }

  function MovementSign(m: Movement, quantity: int): int {
    if m == ADJUSTMENT then (if quantity < 0 then -1 else 1)
    else if IsInbound(m) then 1 else -1
  }

  function Abs(x: int): nat {
    if x < 0 then -x else x
  }

  function Sum(ledger: seq<Tx>, f: Tx -> int): int {
    if ledger == [] then 0 else Sum(ledger[..|ledger| - 1], f) + f(ledger[|ledger| - 1])
  }

  lemma SumStep(ledger: seq<Tx>, t: Tx, f: Tx -> int)
    ensures Sum(ledger + [t], f) == Sum(ledger, f) + f(t)
  {
    assert (ledger + [t])[..|ledger|] == ledger;
  }

  lemma {:induction false} SumMonotone(ledger: seq<Tx>, f: Tx -> int, g: Tx -> int)
    requires forall t :: t in ledger ==> f(t) <= g(t)
    ensures Sum(ledger, f) <= Sum(ledger, g)
    ensures Sum(ledger, f) == Sum(ledger, g) <==> forall t :: t in ledger ==> f(t) == g(t)
  {
    if ledger != [] {
      var n := |ledger| - 1;
      SumMonotone(ledger[..n], f, g);
      assert forall t :: t in ledger <==> t in ledger[..n] || t == ledger[n];
    }
  }

  // ---------------------------------------------------------------------------
  // Operations
  // ---------------------------------------------------------------------------

  /** `status` is the work order's, absent if there is none; `approved` its approved revision, if any. */
  datatype Op =
    | CreatePart(id: nat, requiresApproval: bool)
    | UpdatePart(id: nat, requiresApproval: bool)
    | Issue(order: nat, status: Option<Shared.WorkOrderStatus>, part: nat, quantity: int,
            approved: Option<RevisionId>, key: nat)
    | Return(order: nat, original: nat, quantity: int, key: nat)
    | Receipt(part: nat, quantity: int, key: nat)
    | Adjust(part: nat, quantity: int, reason: string, key: nat)

  /** Issue and return requests carry at least one thousandth. */
  predicate Admissible(op: Op) {
    (op.Issue? || op.Return?) ==> op.quantity > 0
  }

  function Under(r: RevisionId, m: Movement): Tx -> int {
    (t: Tx) => if t.revision == Some(r) && t.movement == m then t.quantity else 0
  }

  function PartUnder(r: RevisionId, part: nat): Tx -> int {
    (t: Tx) => if t.revision == Some(r) && t.movement == ISSUE && t.part == part then t.quantity else 0
  }

  function ReturnsOf(issue: nat): Tx -> int {
    (t: Tx) => if t.movement == RETURN && t.original == Some(issue) then t.quantity else 0
  }

  /** The quantity a revision approves for a part. */
  function Budget(lines: seq<Line>, part: nat): nat {
    if lines == [] then 0
    else Budget(lines[..|lines| - 1], part)
         + (if lines[|lines| - 1].part == part then lines[|lines| - 1].quantity else 0)
  }

  predicate Lists(lines: seq<Line>, part: nat) {
    exists l :: l in lines && l.part == part
  }

  /** The budget check compares the total issued under the revision, over all parts, with the part's own budget. */
  function WithinIssuedBudget(ledger: seq<Tx>, lines: seq<Line>, part: nat, r: RevisionId, quantity: int): Result<()> {
    if !Lists(lines, part) then Failure("APR_PART_NOT_IN_REVISION")
    else if Sum(ledger, Under(r, ISSUE)) - Sum(ledger, Under(r, RETURN)) + quantity > Budget(lines, part) then
      Failure("APR_EXCEEDS_REVISION_BUDGET_QTY")
    else Success(())
  }

  function Of(m: Movement): Tx -> int {
    (t: Tx) => if t.movement == m then t.quantity else 0
  }

  /** The entries of a revision, as the budget check queries them. */
  function EntriesOf(ledger: seq<Tx>, r: RevisionId): seq<Tx> {
    if ledger == [] then []
    else
      var t := ledger[|ledger| - 1];
      EntriesOf(ledger[..|ledger| - 1], r) + (if t.revision == Some(r) then [t] else [])
  }

  /** The domain's one-pass breakdown of a list of entries. */
  method ComputeNetIssued(entries: seq<Tx>) returns (totalIssued: int, totalReturned: int, netIssued: int)
    ensures totalIssued == Sum(entries, Of(ISSUE)) && totalReturned == Sum(entries, Of(RETURN))
    ensures netIssued == totalIssued - totalReturned
  {
    totalIssued, totalReturned := 0, 0;
    for i := 0 to |entries|
      invariant totalIssued == Sum(entries[..i], Of(ISSUE))
      invariant totalReturned == Sum(entries[..i], Of(RETURN))
    {
      var e := entries[i];
      assert entries[..i + 1] == entries[..i] + [e];
      SumStep(entries[..i], e, Of(ISSUE));
      SumStep(entries[..i], e, Of(RETURN));
      if e.movement == ISSUE {
        totalIssued := totalIssued + e.quantity;
      } else if e.movement == RETURN {
        totalReturned := totalReturned + e.quantity;
      }
    }
    assert entries[..|entries|] == entries;
    netIssued := totalIssued - totalReturned;
  }

  /** On the entries of a revision the domain's totals are the ones the service compares with the budget. */
  lemma {:induction false} EntriesSumToRevision(ledger: seq<Tx>, r: RevisionId, m: Movement)
    ensures Sum(EntriesOf(ledger, r), Of(m)) == Sum(ledger, Under(r, m))
  {
    if ledger != [] {
      var rest, t := ledger[..|ledger| - 1], ledger[|ledger| - 1];
      EntriesSumToRevision(rest, r, m);
      SumStep(EntriesOf(rest, r), t, Of(m));
      if t.revision != Some(r) {
        assert EntriesOf(ledger, r) == EntriesOf(rest, r);
      }
    }
  }

  function UpdateOnHand(parts: map<nat, Part>, part: nat, delta: int): Result<map<nat, Part>> {
    if part !in parts then Failure("NOT_FOUND")
    else if parts[part].onHand + delta < 0 then Failure("STOCK_INSUFFICIENT")
    else Success(parts[part := parts[part].(onHand := parts[part].onHand + delta)])
  }

  function Find(ledger: seq<Tx>, id: nat): (r: Option<Tx>)
    ensures r.Some? ==> r.value in ledger && r.value.id == id
    ensures r.None? ==> forall t :: t in ledger ==> t.id != id
  {
    if ledger == [] then None
    else if ledger[|ledger| - 1].id == id then Some(ledger[|ledger| - 1])
    else
      assert forall t :: t in ledger <==> t in ledger[..|ledger| - 1] || t == ledger[|ledger| - 1];
      Find(ledger[..|ledger| - 1], id)
  }

  /** Balance and ledger row change together; the row's key is unique. */
  function Record(s: Store, delta: int, t: Tx): Result<Store> {
    match UpdateOnHand(s.parts, t.part, delta)
    case Failure(e) => Failure(e)
    case Success(parts) =>
      if Find(s.ledger, t.id).Some? then Failure("P2002") else Success(Store(parts, s.ledger + [t]))
  }

  function LinesOf(lines: map<RevisionId, seq<Line>>, r: RevisionId): seq<Line> {
    if r in lines then lines[r] else []
  }

  function Apply(s: Store, lines: map<RevisionId, seq<Line>>, op: Op): Result<Store> {
    match op
    case CreatePart(id, requiresApproval) =>
      if id in s.parts then Failure("CONFLICT") else Success(s.(parts := s.parts[id := Part(0, requiresApproval)]))
    case UpdatePart(id, requiresApproval) =>
      if id !in s.parts then Failure("NOT_FOUND")
      else Success(s.(parts := s.parts[id := s.parts[id].(requiresApproval := requiresApproval)]))
    case Issue(order, status, part, quantity, approved, key) =>
      if status.None? then Failure("NOT_FOUND")
      else if status.value == Shared.COMPLETED || status.value == Shared.CANCELLED then Failure("WO_TERMINAL_NO_ISSUE")
      else if part !in s.parts then Failure("NOT_FOUND")
      else if !s.parts[part].requiresApproval then
        Record(s, -quantity, Tx(key, part, ISSUE, quantity, Some(order), None, None))
      else if approved.None? then Failure("APR_NO_APPROVED_REVISION")
      else
        var check := WithinIssuedBudget(s.ledger, LinesOf(lines, approved.value), part, approved.value, quantity);
        if check.Failure? then Failure(check.error)
        else Record(s, -quantity, Tx(key, part, ISSUE, quantity, Some(order), approved, None))
    case Return(order, original, quantity, key) =>
      var orig := Find(s.ledger, original);
      if orig.None? then Failure("NOT_FOUND")
      else if orig.value.movement != ISSUE then Failure("STOCK_RETURN_INVALID_ORIGINAL")
      else if orig.value.workOrder != Some(order) then Failure("STOCK_RETURN_WRONG_WO")
      else if quantity > orig.value.quantity then Failure("STOCK_RETURN_EXCEEDS_ISSUE")
      else if quantity > orig.value.quantity - Sum(s.ledger, ReturnsOf(original)) then Failure("STOCK_RETURN_EXCEEDS_ISSUE")
      else Record(s, quantity, Tx(key, orig.value.part, RETURN, quantity, Some(order), None, Some(original)))
    case Receipt(part, quantity, key) =>
      Record(s, quantity, Tx(key, part, RECEIPT, quantity, None, None, None))
    case Adjust(part, quantity, reason, key) =>
      if |reason| < 3 then Failure("STOCK_ADJUSTMENT_REQUIRES_REASON")
      else Record(s, quantity, Tx(key, part, ADJUSTMENT, quantity, None, None, None))
  }

  ghost predicate Fresh(ledger: seq<Tx>, key: nat) {
    forall t :: t in ledger ==> t.id != key
  }

  /** The part's balance moves by `delta`, the row is appended, and nothing else changes. */
  ghost predicate Posted(s: Store, s': Store, delta: int, t: Tx) {
    && s'.ledger == s.ledger + [t]
    && s'.parts.Keys == s.parts.Keys
    && forall p :: p in s.parts ==>
         && s'.parts[p].requiresApproval == s.parts[p].requiresApproval
         && s'.parts[p].onHand == s.parts[p].onHand + (if p == t.part then delta else 0)
  }

  // ---------------------------------------------------------------------------
  // The service
  // ---------------------------------------------------------------------------

  class StockService {
    var parts: map<nat, Part>
    var ledger: seq<Tx>

    function View(): Store
      reads this
    {
      Store(parts, ledger)
    }

    predicate Outcome(r: Result<()>, before: Store, lines: map<RevisionId, seq<Line>>, op: Op)
      reads this
    {
      match Apply(before, lines, op)
      case Success(s) => r.Success? && View() == s
      case Failure(e) => r == Failure(e) && View() == before
    }

    constructor ()
      ensures View() == Store(map[], [])
    {
      parts, ledger := map[], [];
    }

    /** Sums the entries of the revision in one pass. */
    method AssertWithinIssuedBudget(lines: seq<Line>, part: nat, r: RevisionId, additional: int)
      returns (ok: Result<()>)
      ensures ok == WithinIssuedBudget(ledger, lines, part, r, additional)
    {
      var issued, returned := 0, 0;
      for i := 0 to |ledger|
        invariant issued == Sum(ledger[..i], Under(r, ISSUE))
        invariant returned == Sum(ledger[..i], Under(r, RETURN))
      {
        var e := ledger[i];
        assert ledger[..i + 1] == ledger[..i] + [e];
        SumStep(ledger[..i], e, Under(r, ISSUE));
        SumStep(ledger[..i], e, Under(r, RETURN));
        if e.revision == Some(r) {
          if e.movement == ISSUE {
            issued := issued + e.quantity;
          } else if e.movement == RETURN {
            returned := returned + e.quantity;
          }
        }
      }
      assert ledger[..|ledger|] == ledger;
      var net := issued - returned + additional;
      if !Lists(lines, part) {
        return Failure("APR_PART_NOT_IN_REVISION");
      }
      if net > Budget(lines, part) {
        return Failure("APR_EXCEEDS_REVISION_BUDGET_QTY");
      }
      return Success(());
    }

    /** Moves the balance and appends the row; a violated constraint rolls both back. */
    method Post(delta: int, t: Tx) returns (r: Result<()>)
      modifies this
      ensures match Record(old(View()), delta, t)
              case Success(s) => r.Success? && View() == s
              case Failure(e) => r == Failure(e) && View() == old(View())
      ensures r.Success? <==> t.part in old(parts) && old(parts)[t.part].onHand + delta >= 0 && Fresh(old(ledger), t.id)
      ensures r.Success? ==> Posted(old(View()), View(), delta, t)
    {
      if t.part !in parts {
        return Failure("NOT_FOUND");
      }
      var onHand := parts[t.part].onHand + delta;
      if onHand < 0 {
        return Failure("STOCK_INSUFFICIENT");
      }
      if Find(ledger, t.id).Some? {
        return Failure("P2002");
      }
      parts := parts[t.part := parts[t.part].(onHand := onHand)];
      ledger := ledger + [t];
      return Success(());
    }

    method IssueForWorkOrder(order: nat, status: Option<Shared.WorkOrderStatus>, part: nat, quantity: int,
                             approved: Option<RevisionId>, lines: map<RevisionId, seq<Line>>, key: nat)
      returns (r: Result<()>)
      requires quantity > 0
      modifies this
      ensures Outcome(r, old(View()), lines, Op.Issue(order, status, part, quantity, approved, key))
      ensures r.Success? ==>
                && part in old(parts)
                && Posted(old(View()), View(), -quantity,
                          Tx(key, part, ISSUE, quantity, Some(order),
                             if old(parts)[part].requiresApproval then approved else None, None))
    {
      if status.None? {
        return Failure("NOT_FOUND");
      }
      if status.value == Shared.COMPLETED || status.value == Shared.CANCELLED {
        return Failure("WO_TERMINAL_NO_ISSUE");
      }
      if part !in parts {
        return Failure("NOT_FOUND");
      }
      var revision: Option<RevisionId> := None;
      if parts[part].requiresApproval {
        if approved.None? {
          return Failure("APR_NO_APPROVED_REVISION");
        }
        revision := approved;
        var ok := AssertWithinIssuedBudget(LinesOf(lines, approved.value), part, approved.value, quantity);
        if ok.Failure? {
          return ok;
        }
      }
      r := Post(-quantity, Tx(key, part, ISSUE, quantity, Some(order), revision, None));
    }

    method ReturnForWorkOrder(order: nat, original: nat, quantity: int, lines: map<RevisionId, seq<Line>>, key: nat)
      returns (r: Result<()>)
      requires quantity > 0
      modifies this
      ensures Outcome(r, old(View()), lines, Op.Return(order, original, quantity, key))
      ensures r.Success? ==>
                exists i :: i in old(ledger) && i.id == original && i.movement == ISSUE && i.workOrder == Some(order)
                            && Posted(old(View()), View(), quantity,
                                      Tx(key, i.part, RETURN, quantity, Some(order), None, Some(original)))
    {
      var orig := Find(ledger, original);
      if orig.None? {
        return Failure("NOT_FOUND");
      }
      if orig.value.movement != ISSUE {
        return Failure("STOCK_RETURN_INVALID_ORIGINAL");
      }
      if orig.value.workOrder != Some(order) {
        return Failure("STOCK_RETURN_WRONG_WO");
      }
      if quantity > orig.value.quantity {
        return Failure("STOCK_RETURN_EXCEEDS_ISSUE");
      }
      var remaining := orig.value.quantity - Sum(ledger, ReturnsOf(original));
      if quantity > remaining {
        return Failure("STOCK_RETURN_EXCEEDS_ISSUE");
      }
      r := Post(quantity, Tx(key, orig.value.part, RETURN, quantity, Some(order), None, Some(original)));
    }

    method Receive(part: nat, quantity: int, lines: map<RevisionId, seq<Line>>, key: nat) returns (r: Result<()>)
      modifies this
      ensures Outcome(r, old(View()), lines, Op.Receipt(part, quantity, key))
      ensures r.Success? <==>
              part in old(parts) && old(parts)[part].onHand + quantity >= 0 && Fresh(old(ledger), key)
      ensures r.Success? ==>
                Posted(old(View()), View(), quantity, Tx(key, part, RECEIPT, quantity, None, None, None))
    {
      r := Post(quantity, Tx(key, part, RECEIPT, quantity, None, None, None));
    }

    method AdjustStock(part: nat, quantity: int, reason: string, lines: map<RevisionId, seq<Line>>, key: nat)
      returns (r: Result<()>)
      modifies this
      ensures Outcome(r, old(View()), lines, Op.Adjust(part, quantity, reason, key))
      ensures r.Success? <==>
              |reason| >= 3 && part in old(parts) && old(parts)[part].onHand + quantity >= 0 && Fresh(old(ledger), key)
      ensures r.Success? ==>
                Posted(old(View()), View(), quantity, Tx(key, part, ADJUSTMENT, quantity, None, None, None))
    {
      if |reason| < 3 {
        return Failure("STOCK_ADJUSTMENT_REQUIRES_REASON");
      }
      r := Post(quantity, Tx(key, part, ADJUSTMENT, quantity, None, None, None));
    }
  }
}
