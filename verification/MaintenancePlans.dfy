/**
 The plan service: creation, and the edits that race with the scheduler. An edit reads the plan
 first and then updates it only where the version it read is still stored.
 */
module MaintenancePlans {
  import opened Outcomes
  import opened Calendar
  import opened SP = SchedulerProtocol

  type Plans = map<nat, Plan>

  datatype Request =
    | Update(expected: Option<int>, patch: Patch)
    | Pause
    | Resume

  predicate Valid(q: Request) {
    q.Update? ==> q.patch.Valid()
  }

  /** What the request sets on a plan. */
  function PatchOf(q: Request): Patch {
    match q
    case Update(_, patch) => patch
    case Pause => Patch(None, None, Some(false))
    case Resume => Patch(None, None, Some(true))
  }

  /** Pausing what is paused, or resuming what runs, writes nothing. */
  predicate IsNoop(q: Request, p: Plan) {
    (q.Pause? && !p.active) || (q.Resume? && p.active)
  }

  /** The plans after a request whose read returned `read`. */
  function Edited(plans: Plans, id: nat, read: Option<Plan>, q: Request): Result<Plans>
    requires Valid(q)
  {
    if read.None? then Failure("NOT_FOUND")
    else if q.Update? && q.expected.Some? && q.expected.value != read.value.version then Failure("CONFLICT")
    else if IsNoop(q, read.value) then Success(plans)
    else if id !in plans || plans[id].version != read.value.version then Failure(RECORD_NOT_FOUND)
    else Success(plans[id := Patched(plans[id], PatchOf(q))])
  }

  /** An update is accepted exactly on the version read, which the caller has named if they named one. */
  lemma UpdateIsAcceptedIff(plans: Plans, id: nat, read: Option<Plan>, expected: Option<int>, patch: Patch)
    requires patch.Valid()
    ensures Edited(plans, id, read, Update(expected, patch)).Success? <==>
              && read.Some? && (expected.Some? ==> expected.value == read.value.version)
              && id in plans && plans[id].version == read.value.version
    ensures read.Some? && expected.Some? && expected.value != read.value.version ==>
              Edited(plans, id, read, Update(expected, patch)) == Failure("CONFLICT")
  {
  }

  /** It sets the fields that the patch names, leaves the others and every other plan, and counts the version up. */
  lemma UpdateSetsNamedFields(plans: Plans, id: nat, read: Option<Plan>, expected: Option<int>, patch: Patch)
    requires patch.Valid() && Edited(plans, id, read, Update(expected, patch)).Success?
    ensures
      var after := Edited(plans, id, read, Update(expected, patch)).value;
      && id in plans && after.Keys == plans.Keys && (forall p :: p in plans && p != id ==> after[p] == plans[p])
      && after[id].unit == (if patch.unit.Some? then patch.unit.value else plans[id].unit)
      && after[id].value == (if patch.value.Some? then patch.value.value else plans[id].value)
      && after[id].active == (if patch.active.Some? then patch.active.value else plans[id].active)
      && after[id].next == plans[id].next && after[id].fixedBasis == plans[id].fixedBasis
      && after[id].version == plans[id].version + 1
  {
  }

  class PlanTable {
    var plans: Plans

    /** A new plan is active, at version 1 and first due on its start date. */
    method Create(id: nat, assetExists: bool, unit: IntervalUnit, value: int, start: Date, fixedBasis: bool)
      returns (r: Result<()>)
      requires id !in plans && value > 0 && start.Valid()
      modifies this
      ensures r.Success? <==> assetExists
      ensures plans == if assetExists then old(plans)[id := PlanRow(true, fixedBasis, unit, value, start, 1)] else old(plans)
    {
      if !assetExists {
        return Failure("NOT_FOUND");
      }
      plans := plans[id := PlanRow(true, fixedBasis, unit, value, start, 1)];
      return Success(());
    }

    /** The first statement of an edit. Unless somebody writes in between, the edit goes through if the plan exists. */
    method Read(id: nat) returns (p: Option<Plan>)
      ensures forall q :: Valid(q) && (q.Update? ==> q.expected == None) ==>
                (Edited(plans, id, p, q).Success? <==> id in plans)
      ensures p.Some? ==> forall q :: Valid(q) && q.Update? && q.expected == Some(p.value.version as int) ==>
                Edited(plans, id, p, q).Success?
    {
      p := if id in plans then Some(plans[id]) else None;
    }

    /** `read` is what the method's first statement returned; others may have written since. */
    method UpdatePlan(id: nat, read: Option<Plan>, expected: Option<int>, patch: Patch) returns (r: Result<()>)
      requires patch.Valid()
      modifies this
      ensures match Edited(old(plans), id, read, Update(expected, patch))
              case Success(after) => r.Success? && plans == after
              case Failure(e) => r == Failure(e) && plans == old(plans)
      ensures r.Success? <==>
                && read.Some? && (expected.Some? ==> expected.value == read.value.version)
                && id in old(plans) && old(plans)[id].version == read.value.version
    {
      if read.None? {
        return Failure("NOT_FOUND");
      }
      if expected.Some? && expected.value != read.value.version {
        return Failure("CONFLICT");
      }
      if id !in plans || plans[id].version != read.value.version {
        return Failure(RECORD_NOT_FOUND);
      }
      var p: Plan := plans[id];
      p := p.(version := p.version + 1);
      if patch.unit.Some? {
        p := p.(unit := patch.unit.value);
      }
      if patch.value.Some? {
        p := p.(value := patch.value.value);
      }
      if patch.active.Some? {
        p := p.(active := patch.active.value);
      }
      plans := plans[id := p];
      return Success(());
    }

    method PausePlan(id: nat, read: Option<Plan>) returns (r: Result<()>)
      modifies this
      ensures match Edited(old(plans), id, read, Pause)
              case Success(after) => r.Success? && plans == after
              case Failure(e) => r == Failure(e) && plans == old(plans)
      ensures r.Success? <==> read.Some? && (read.value.active ==> id in old(plans) && old(plans)[id].version == read.value.version)
      ensures plans == if r.Success? && read.value.active
                       then old(plans)[id := old(plans)[id].(active := false, version := old(plans)[id].version + 1)]
                       else old(plans)
    {
      if read.None? {
        return Failure("NOT_FOUND");
      }
      if !read.value.active {
        return Success(());
      }
      if id !in plans || plans[id].version != read.value.version {
        return Failure(RECORD_NOT_FOUND);
      }
      plans := plans[id := plans[id].(active := false, version := plans[id].version + 1)];
      return Success(());
    }

    method ResumePlan(id: nat, read: Option<Plan>) returns (r: Result<()>)
      modifies this
      ensures match Edited(old(plans), id, read, Resume)
              case Success(after) => r.Success? && plans == after
              case Failure(e) => r == Failure(e) && plans == old(plans)
      ensures r.Success? <==> read.Some? && (!read.value.active ==> id in old(plans) && old(plans)[id].version == read.value.version)
      ensures plans == if r.Success? && !read.value.active
                       then old(plans)[id := old(plans)[id].(active := true, version := old(plans)[id].version + 1)]
                       else old(plans)
    {
      if read.None? {
        return Failure("NOT_FOUND");
      }
      if read.value.active {
        return Success(());
      }
      if id !in plans || plans[id].version != read.value.version {
        return Failure(RECORD_NOT_FOUND);
      }
      plans := plans[id := plans[id].(active := true, version := plans[id].version + 1)];
      return Success(());
    }
  }

  // ---------------------------------------------------------------------------
  // Edits inside the protocol
  // ---------------------------------------------------------------------------

  /** Every accepted edit of a plan that was read is a step of the protocol, or writes nothing. */
  lemma EditIsProtocolStep(s: State, id: nat, read: Plan, q: Request)
    requires Valid(q) && Row(id, read) in s.seen && Edited(s.plans, id, Some(read), q).Success?
    ensures
      var s' := s.(plans := Edited(s.plans, id, Some(read), q).value);
      s' == s || Step(s, EditPlan(Row(id, read), PatchOf(q)), s')
  {
  }

  /** No lost update: an edit that writes makes every other edit based on the same read fail. */
  lemma OneWriterPerRead(plans: Plans, id: nat, read: Plan, q1: Request, q2: Request)
    requires Valid(q1) && Valid(q2) && !IsNoop(q1, read) && !IsNoop(q2, read)
    requires Edited(plans, id, Some(read), q1).Success?
    ensures Edited(Edited(plans, id, Some(read), q1).value, id, Some(read), q2).Failure?
  {
  }

  /** Pausing and resuming on fresh reads changes nothing but the version. */
  lemma PauseThenResume(plans: Plans, id: nat)
    requires id in plans && plans[id].active
    ensures
      var paused := Edited(plans, id, Some(plans[id]), Pause);
      && paused.Success? && !paused.value[id].active
      && Edited(paused.value, id, Some(paused.value[id]), Resume)
         == Success(plans[id := plans[id].(version := plans[id].version + 2)])
  {
    var paused := Edited(plans, id, Some(plans[id]), Pause).value;
    assert paused[id := plans[id].(version := plans[id].version + 2)]
        == plans[id := plans[id].(version := plans[id].version + 2)];
  }
}
