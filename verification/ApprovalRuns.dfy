/**
 Every interleaving of requests on one approval. A request reads the approval, later its latest
 revision, and later still commits; any number of requests may be between these points.
 */
module ApprovalRuns {
  import opened Outcomes
  import opened Approvals

  /** The stored approval and all snapshots that requests under way have read. */
  datatype State = State(row: Approval, seen: set<Approval>)

  datatype Label = Read | Do(first: Approval, latest: Approval, op: Op)

  ghost predicate Init(s: State) {
    s.seen == {} && exists actor, content :: s.row == NewDraft(actor, content)
  }

  /** `first` was read before `latest`; both are snapshots of the past. */
  ghost predicate Step(s: State, l: Label, s': State) {
    match l
    case Read => s' == State(s.row, s.seen + {s.row})
    case Do(first, latest, op) =>
      && first in s.seen && latest in s.seen && first.version <= latest.version
      && Commit(first, latest, s.row, op).Success?
      && s' == State(Commit(first, latest, s.row, op).value, s.seen)
  }

  datatype Run = Run(states: seq<State>, labels: seq<Label>)

  ghost predicate IsRun(run: Run) {
    && |run.states| == |run.labels| + 1
    && Init(run.states[0])
    && forall i :: 0 <= i < |run.labels| ==> Step(run.states[i], run.labels[i], run.states[i + 1])
  }

  lemma EventsAndProposerStay(s: State, l: Label, s': State)
    requires Step(s, l, s')
    ensures s.row.events <= s'.row.events && s'.row.proposer == s.row.proposer
  {
  }

  // ---------------------------------------------------------------------------
  // The event log
  // ---------------------------------------------------------------------------

  function StatusAfter(kind: EventKind): Status {
    match kind
    case Submitted => SUBMITTED
    case RevisionCreated => DRAFT
    case Approved => APPROVED
    case Rejected => REJECTED
    case InfoRequested => INFO_REQUESTED
    case Cancelled => CANCELLED
  }

  /** The status told by the event log alone. */
  function Replay(events: seq<Event>): Status {
    if events == [] then DRAFT else StatusAfter(events[|events| - 1].kind)
  }

  /** Every event of the log is an edge of the transition table. */
  predicate IsPath(events: seq<Event>) {
    events == [] || (IsPath(events[..|events| - 1])
                     && CanTransition(Replay(events[..|events| - 1]), Replay(events)))
  }

  function Count(events: seq<Event>, kind: EventKind, no: nat): nat {
    if events == [] then 0
    else Count(events[..|events| - 1], kind, no)
         + (if events[|events| - 1].kind == kind && events[|events| - 1].revision == no then 1 else 0)
  }

  lemma CountStep(events: seq<Event>, e: Event, kind: EventKind, no: nat)
    ensures Count(events + [e], kind, no) == Count(events, kind, no) + (if e.kind == kind && e.revision == no then 1 else 0)
    ensures Replay(events + [e]) == StatusAfter(e.kind)
    ensures IsPath(events + [e]) <==> IsPath(events) && CanTransition(Replay(events), StatusAfter(e.kind))
  {
    assert (events + [e])[..|events|] == events;
  }

  // ---------------------------------------------------------------------------
  // What every step keeps
  // ---------------------------------------------------------------------------

  /** Revision numbers are exactly 1..n. */
  ghost predicate Numbered(revisions: seq<Revision>) {
    revisions != [] && forall i :: 0 <= i < |revisions| ==> revisions[i].no == i + 1
  }

  /** A draft's latest revision is unsubmitted; every earlier revision, and the latest outside DRAFT, has been submitted. */
  ghost predicate SubmissionsFollowStatus(a: Approval)
    requires Numbered(a.revisions)
  {
    var n := |a.revisions|;
    && (forall i :: 0 <= i < n - 1 ==> a.revisions[i].submitted.Some?)
    && (a.status == DRAFT ==> a.revisions[n - 1].submitted.None?)
    && (a.status != DRAFT && a.status != CANCELLED ==> a.revisions[n - 1].submitted.Some?)
  }

  /** Each revision has one SUBMITTED event if it was submitted and none otherwise. */
  ghost predicate SubmittedOnce(a: Approval) {
    forall no: nat :: Count(a.events, Submitted, no) ==
      if 1 <= no <= |a.revisions| && a.revisions[no - 1].submitted.Some? then 1 else 0
  }

  ghost predicate ApprovedBy(a: Approval, no: nat) {
    exists e :: e in a.events && e.kind == Approved && e.revision == no
  }

  /** Approvals come from someone else; an approved revision is latest only while APPROVED (or cancelled after it). */
  ghost predicate ApprovalsAreForeign(a: Approval) {
    && (forall e :: e in a.events && e.kind == Approved ==> e.actor != a.proposer && 1 <= e.revision <= |a.revisions|)
    && (a.status == APPROVED ==> ApprovedBy(a, |a.revisions|))
    && (ApprovedBy(a, |a.revisions|) ==> a.status == APPROVED || a.status == CANCELLED)
  }

  /** A snapshot is older than the row, or has its status and its revision count. */
  ghost predicate Older(read: Approval, row: Approval) {
    && read.proposer == row.proposer
    && read.version <= row.version
    && Numbered(read.revisions) && |read.revisions| <= |row.revisions|
    && (read.version == row.version ==> read.status == row.status && |read.revisions| == |row.revisions|)
  }

  ghost predicate RowInv(a: Approval) {
    && Numbered(a.revisions)
    && a.status == Replay(a.events)
    && SubmissionsFollowStatus(a)
    && SubmittedOnce(a)
    && ApprovalsAreForeign(a)
  }

  ghost predicate Inv(s: State) {
    RowInv(s.row) && forall read :: read in s.seen ==> Older(read, s.row)
  }

  lemma {:induction false} LatestIsLast(revisions: seq<Revision>)
    requires forall i :: 0 <= i < |revisions| ==> revisions[i].no == i + 1
    ensures LatestNo(revisions) == |revisions|
  {
    if revisions != [] {
      LatestIsLast(revisions[..|revisions| - 1]);
    }
  }

  lemma InitInv(s: State)
    requires Init(s)
    ensures Inv(s) && Frozen(s.row) && IsPath(s.row.events)
  {
  }

  lemma EventsAfter(a: Approval, e: Event, revisions: seq<Revision>, status: Status, version: nat)
    ensures
      var b := Approval(a.proposer, status, version, revisions, a.events + [e]);
      && b.events == a.events + [e]
      && forall no :: ApprovedBy(b, no) <==> ApprovedBy(a, no) || (e.kind == Approved && e.revision == no)
  {
    var b := Approval(a.proposer, status, version, revisions, a.events + [e]);
    forall no
      ensures ApprovedBy(b, no) <==> ApprovedBy(a, no) || (e.kind == Approved && e.revision == no)
    {
      if ApprovedBy(a, no) {
        var x :| x in a.events && x.kind == Approved && x.revision == no;
        assert x in b.events;
      }
      if e.kind == Approved && e.revision == no {
        assert e in b.events;
      }
    }
  }

  /** The effect of an action: an edge of the table, one event on the latest revision, and on submission its mark. */
  ghost predicate ActedOn(a: Approval, b: Approval, actor: nat, action: Action) {
    var n := |a.revisions|;
    && n > 0
    && ResolveTargetState(a.status, action) == Success(b.status)
    && b.proposer == a.proposer
    && b.events == a.events + [Event(EventOf(action), n, actor)]
    && (action == Approve ==> actor != a.proposer)
    && b.revisions == if action == Submit
                      then a.revisions[n - 1 := a.revisions[n - 1].(submitted := Some(a.revisions[n - 1].content))]
                      else a.revisions
  }

  lemma ActEffect(s: State, first: Approval, latest: Approval, op: Op, s': State)
    requires Inv(s) && op.Act? && Step(s, Do(first, latest, op), s')
    ensures ActedOn(s.row, s'.row, op.actor, op.action)
  {
    LatestIsLast(latest.revisions);
    assert Older(first, s.row) && Older(latest, s.row);
    var n := |s.row.revisions|;
    assert MarkSubmitted(s.row.revisions, n)
        == s.row.revisions[n - 1 := s.row.revisions[n - 1].(submitted := Some(s.row.revisions[n - 1].content))];
  }

  lemma ActCounts(a: Approval, b: Approval, actor: nat, action: Action)
    requires RowInv(a) && ActedOn(a, b, actor, action)
    ensures SubmittedOnce(b)
  {
    var e := b.events[|a.events|];
    forall no: nat
      ensures Count(b.events, Submitted, no) ==
              if 1 <= no <= |b.revisions| && b.revisions[no - 1].submitted.Some? then 1 else 0
    {
      CountStep(a.events, e, Submitted, no);
    }
  }

  lemma ActIsForeign(a: Approval, b: Approval, actor: nat, action: Action)
    requires RowInv(a) && ActedOn(a, b, actor, action)
    ensures ApprovalsAreForeign(b)
  {
    var e := b.events[|a.events|];
    EventsAfter(a, e, b.revisions, b.status, b.version);
    forall x | x in b.events && x.kind == Approved
      ensures x.actor != b.proposer && 1 <= x.revision <= |b.revisions|
    {
      assert x in a.events || x == e;
    }
  }

  lemma ActKeeps(s: State, first: Approval, latest: Approval, op: Op, s': State)
    requires Inv(s) && op.Act? && Step(s, Do(first, latest, op), s')
    ensures RowInv(s'.row)
  {
    var a, b := s.row, s'.row;
    ActEffect(s, first, latest, op, s');
    ActCounts(a, b, op.actor, op.action);
    ActIsForeign(a, b, op.actor, op.action);
    ActFollowsStatus(a, b, op.actor, op.action);
  }

  lemma ActFollowsStatus(a: Approval, b: Approval, actor: nat, action: Action)
    requires RowInv(a) && ActedOn(a, b, actor, action)
    ensures Numbered(b.revisions) && b.status == Replay(b.events) && SubmissionsFollowStatus(b)
  {
    TargetTellsAction(a.status, action);
    assert b.events[..|b.events| - 1] == a.events;
  }

  lemma NewRevisionKeeps(s: State, first: Approval, latest: Approval, op: Op, s': State)
    requires Inv(s) && op.NewRevision? && Step(s, Do(first, latest, op), s')
    ensures RowInv(s'.row)
  {
    var a, b := s.row, s'.row;
    LatestIsLast(latest.revisions);
    assert Older(first, a) && Older(latest, a);
    var e := Event(RevisionCreated, |a.revisions| + 1, op.actor);
    assert b.events == a.events + [e];
    EventsAfter(a, e, b.revisions, b.status, b.version);
    CountStep(a.events, e, Submitted, 0);
    forall no: nat
      ensures Count(b.events, Submitted, no) ==
              if 1 <= no <= |b.revisions| && b.revisions[no - 1].submitted.Some? then 1 else 0
    {
      CountStep(a.events, e, Submitted, no);
    }
    assert !ApprovedBy(a, |b.revisions|);
  }

  lemma EditKeeps(s: State, first: Approval, latest: Approval, op: Op, s': State)
    requires Inv(s) && op.Edit? && Step(s, Do(first, latest, op), s')
    ensures RowInv(s'.row)
  {
    assert forall no :: ApprovedBy(s'.row, no) <==> ApprovedBy(s.row, no);
  }

  lemma AutoCancelKeeps(s: State, first: Approval, latest: Approval, op: Op, s': State)
    requires Inv(s) && op.AutoCancel? && Step(s, Do(first, latest, op), s')
    ensures RowInv(s'.row)
  {
    var a, b := s.row, s'.row;
    LatestIsLast(latest.revisions);
    var e := Event(Cancelled, |latest.revisions|, op.actor);
    assert b.events == a.events + [e];
    EventsAfter(a, e, b.revisions, b.status, b.version);
    CountStep(a.events, e, Submitted, 0);
    forall no: nat
      ensures Count(b.events, Submitted, no) == Count(a.events, Submitted, no)
    {
      CountStep(a.events, e, Submitted, no);
    }
  }

  lemma StepKeepsInv(s: State, l: Label, s': State)
    requires Inv(s) && Step(s, l, s')
    ensures Inv(s')
  {
    match l
    case Read =>
    case Do(first, latest, op) =>
      match op {
        case Act(_, _, _, _) => ActKeeps(s, first, latest, op, s');
        case NewRevision(_) => NewRevisionKeeps(s, first, latest, op, s');
        case Edit(_, _) => EditKeeps(s, first, latest, op, s');
        case AutoCancel(_) => AutoCancelKeeps(s, first, latest, op, s');
      }
      forall read | read in s'.seen
        ensures Older(read, s'.row)
      {
        assert Older(read, s.row);
      }
  }

  /**
   In every interleaving: the status is the replay of the event log, revision numbers are
   1..n, every revision but the latest has been submitted, and none was submitted twice.
   */
  lemma {:induction false} RunKeepsInv(run: Run, n: nat)
    requires IsRun(run) && n < |run.states|
    ensures Inv(run.states[n])
    ensures
      var a := run.states[n].row;
      && a.status == Replay(a.events)
      && (forall i :: 0 <= i < |a.revisions| ==> a.revisions[i].no == i + 1)
      && (forall i :: 0 <= i < |a.revisions| - 1 ==> a.revisions[i].submitted.Some?)
      && (forall no: nat :: Count(a.events, Submitted, no) <= 1)
  {
    if n == 0 {
      InitInv(run.states[0]);
    } else {
      RunKeepsInv(run, n - 1);
      StepKeepsInv(run.states[n - 1], run.labels[n - 1], run.states[n]);
    }
  }

  /** The revision carries an APPROVED event by someone other than the proposer. */
  ghost predicate ApprovedByAnother(a: Approval, no: nat) {
    exists e :: e in a.events && e.kind == Approved && e.revision == no && e.actor != a.proposer
  }

  /** The newest revision of an APPROVED approval was approved by someone other than the proposer. */
  lemma ApprovedMeansByAnother(a: Approval)
    requires RowInv(a) && a.status == APPROVED
    ensures LatestNo(a.revisions) == |a.revisions| && ApprovedByAnother(a, |a.revisions|)
  {
    LatestIsLast(a.revisions);
    var e :| e in a.events && e.kind == Approved && e.revision == |a.revisions|;
    assert e.actor != a.proposer;
  }

  /** CANCELLED is absorbing, stale cascades included. */
  lemma CancelledIsAbsorbing(s: State, l: Label, s': State)
    requires Inv(s) && Step(s, l, s') && s.row.status == CANCELLED
    ensures s'.row.status == CANCELLED
  {
    if l.Do? {
      assert Older(l.first, s.row);
    }
  }

  // ---------------------------------------------------------------------------
  // The history is a path in the table, except for late cascades
  // ---------------------------------------------------------------------------

  /** A cascade that commits while the stored status may still be cancelled. */
  ghost predicate TimelyCascade(s: State, l: Label) {
    l.Do? && l.op.AutoCancel? ==> CanTransition(s.row.status, CANCELLED)
  }

  /** The event a step logs; requests that compare the version log an edge of the table. */
  lemma LoggedEvent(s: State, l: Label, s': State) returns (e: Event)
    requires Inv(s) && Step(s, l, s') && l.Do? && !l.op.Edit?
    ensures s'.row.events == s.row.events + [e]
    ensures if l.op.AutoCancel? then e.kind == Cancelled else CanTransition(s.row.status, StatusAfter(e.kind))
  {
    assert Older(l.first, s.row);
    e := s'.row.events[|s.row.events|];
    if l.op.Act? {
      ActEffect(s, l.first, l.latest, l.op, s');
    }
  }

  lemma StepExtendsPath(s: State, l: Label, s': State)
    requires Inv(s) && Step(s, l, s')
    ensures IsPath(s'.row.events) <==> IsPath(s.row.events) && TimelyCascade(s, l)
  {
    if l.Do? && !l.op.Edit? {
      var e := LoggedEvent(s, l, s');
      var events := s.row.events;
      assert Replay(events) == s.row.status;
      CountStep(events, e, Submitted, 0);
    }
  }

  /**
   The history is a path in the transition table exactly when every cascade of a cancelled
   work order commits on a status the table lets be cancelled. (The cascade updates the
   approval without naming its version.)
   */
  lemma {:induction false} HistoryIsPathIffCascadesAreTimely(run: Run, n: nat)
    requires IsRun(run) && n < |run.states|
    ensures IsPath(run.states[n].row.events) <==> TimelyUpTo(run, n)
  {
    if n == 0 {
      InitInv(run.states[0]);
    } else {
      HistoryIsPathIffCascadesAreTimely(run, n - 1);
      RunKeepsInv(run, n - 1);
      StepExtendsPath(run.states[n - 1], run.labels[n - 1], run.states[n]);
      assert TimelyUpTo(run, n) <==> TimelyUpTo(run, n - 1) && TimelyCascade(run.states[n - 1], run.labels[n - 1]);
    }
  }

  ghost predicate TimelyUpTo(run: Run, n: nat)
    requires n <= |run.labels| < |run.states|
  {
    forall i :: 0 <= i < n ==> TimelyCascade(run.states[i], run.labels[i])
  }

  // ---------------------------------------------------------------------------
  // Approved revisions are frozen, except for late edits
  // ---------------------------------------------------------------------------

  /** Under review or approved: its content must be what was submitted. */
  ghost predicate Protected(a: Approval, no: nat) {
    ApprovedBy(a, no) || (a.status == SUBMITTED && no == |a.revisions|)
  }

  ghost predicate Frozen(a: Approval) {
    forall i :: 0 <= i < |a.revisions| && Protected(a, i + 1) ==>
      a.revisions[i].submitted == Some(a.revisions[i].content)
  }

  /** An edit that lands on an unprotected revision, or writes the content already there. */
  ghost predicate HarmlessEdit(s: State, l: Label) {
    l.Do? && l.op.Edit? ==>
      var no := LatestNo(l.latest.revisions);
      !Protected(s.row, no) || Edited(ContentOf(s.row.revisions, no), l.op.edits) == ContentOf(s.row.revisions, no)
  }

  /** The guard that the service checks when it reads: still satisfied when the edit commits, it makes the edit harmless. */
  lemma CurrentEditIsHarmless(s: State, l: Label, s': State)
    requires Inv(s) && Step(s, l, s') && l.Do? && l.op.Edit?
    requires Editable(s.row.status) && |l.latest.revisions| == |s.row.revisions|
    ensures HarmlessEdit(s, l)
  {
    LatestIsLast(l.latest.revisions);
  }

  lemma {:induction false} ContentOfNumbered(revisions: seq<Revision>, no: nat)
    requires forall i :: 0 <= i < |revisions| ==> revisions[i].no == i + 1
    requires 1 <= no <= |revisions|
    ensures ContentOf(revisions, no) == revisions[no - 1].content
  {
    if no < |revisions| {
      ContentOfNumbered(revisions[..|revisions| - 1], no);
    }
  }

  lemma EditFreezes(s: State, l: Label, s': State)
    requires Inv(s) && Step(s, l, s') && l.Do? && l.op.Edit? && Frozen(s.row)
    ensures Frozen(s'.row) <==> HarmlessEdit(s, l)
  {
    var a, b, no := s.row, s'.row, LatestNo(l.latest.revisions);
    assert Older(l.latest, a);
    LatestIsLast(l.latest.revisions);
    ContentOfNumbered(a.revisions, no);
    assert forall k :: Protected(b, k) <==> Protected(a, k) by {
      assert forall k :: ApprovedBy(b, k) <==> ApprovedBy(a, k);
    }
    assert b.revisions == WithEdits(a.revisions, no, l.op.edits);
    forall i | 0 <= i < |b.revisions| && i + 1 != no
      ensures b.revisions[i] == a.revisions[i]
    {
    }
    assert b.revisions[no - 1] == a.revisions[no - 1].(content := Edited(a.revisions[no - 1].content, l.op.edits));
    if Protected(a, no) {
      assert a.revisions[no - 1].submitted == Some(a.revisions[no - 1].content);
      assert Protected(b, no - 1 + 1);
    }
  }

  lemma OthersFreeze(s: State, l: Label, s': State)
    requires Inv(s) && Step(s, l, s') && !(l.Do? && l.op.Edit?) && Frozen(s.row)
    ensures Frozen(s'.row)
  {
    if l.Do? {
      var a, b := s.row, s'.row;
      assert Older(l.first, a) && Older(l.latest, a);
      LatestIsLast(l.latest.revisions);
      var e := b.events[|a.events|];
      assert b.events == a.events + [e];
      EventsAfter(a, e, b.revisions, b.status, b.version);
      forall i | 0 <= i < |b.revisions| && Protected(b, i + 1)
        ensures b.revisions[i].submitted == Some(b.revisions[i].content)
      {
        assert i < |a.revisions|;
        assert Protected(a, i + 1) || (a.status == DRAFT && b.status == SUBMITTED && i + 1 == |b.revisions|);
      }
    }
  }

  ghost predicate HarmlessUpTo(run: Run, n: nat)
    requires n <= |run.labels| < |run.states|
  {
    forall i :: 0 <= i < n ==> HarmlessEdit(run.states[i], run.labels[i])
  }

  ghost predicate FrozenUpTo(run: Run, n: nat)
    requires n < |run.states|
  {
    forall i :: 0 <= i <= n ==> Frozen(run.states[i].row)
  }

  lemma StepFreezes(s: State, l: Label, s': State)
    requires Inv(s) && Step(s, l, s') && Frozen(s.row)
    ensures Frozen(s'.row) <==> HarmlessEdit(s, l)
  {
    if l.Do? && l.op.Edit? {
      EditFreezes(s, l, s');
    } else {
      OthersFreeze(s, l, s');
    }
  }

  /**
   What approvers decide on is what was submitted, in every state of a run, exactly when every
   edit of the run is harmless.
   */
  lemma {:induction false} FrozenIffEditsAreHarmless(run: Run, n: nat)
    requires IsRun(run) && n < |run.states|
    ensures FrozenUpTo(run, n) <==> HarmlessUpTo(run, n)
  {
    if n == 0 {
      InitInv(run.states[0]);
    } else {
      FrozenIffEditsAreHarmless(run, n - 1);
      assert FrozenUpTo(run, n) <==> FrozenUpTo(run, n - 1) && Frozen(run.states[n].row);
      assert HarmlessUpTo(run, n) <==> HarmlessUpTo(run, n - 1) && HarmlessEdit(run.states[n - 1], run.labels[n - 1]);
      if FrozenUpTo(run, n - 1) {
        RunKeepsInv(run, n - 1);
        StepFreezes(run.states[n - 1], run.labels[n - 1], run.states[n]);
      }
    }
  }

  ghost predicate RecordGrows(a: Approval, b: Approval) {
    && |a.revisions| <= |b.revisions|
    && forall no :: 1 <= no <= |a.revisions| ==> RevisionRecordStays(a, b, no)
  }

  ghost predicate RevisionRecordStays(a: Approval, b: Approval, no: nat)
    requires 1 <= no <= |a.revisions| <= |b.revisions|
  {
    && (a.revisions[no - 1].submitted.Some? ==> b.revisions[no - 1].submitted == a.revisions[no - 1].submitted)
    && (ApprovedBy(a, no) ==> ApprovedBy(b, no))
  }

  /** What was recorded at submission never changes, and an approval stays on record. */
  lemma StepKeepsRecord(s: State, l: Label, s': State, no: nat)
    requires Inv(s) && Step(s, l, s') && 1 <= no <= |s.row.revisions|
    ensures |s.row.revisions| <= |s'.row.revisions|
    ensures s.row.revisions[no - 1].submitted.Some? ==>
              s'.row.revisions[no - 1].submitted == s.row.revisions[no - 1].submitted
    ensures ApprovedBy(s.row, no) ==> ApprovedBy(s'.row, no)
  {
    if l.Do? {
      var a, b := s.row, s'.row;
      assert Older(l.first, a) && Older(l.latest, a);
      LatestIsLast(l.latest.revisions);
      if !l.op.Edit? {
        var e := b.events[|a.events|];
        assert b.events == a.events + [e];
        EventsAfter(a, e, b.revisions, b.status, b.version);
      }
    }
  }

  lemma StepGrowsRecord(s: State, l: Label, s': State)
    requires Inv(s) && Step(s, l, s')
    ensures RecordGrows(s.row, s'.row)
  {
    StepKeepsRecord(s, l, s', 1);
    forall no | 1 <= no <= |s.row.revisions|
      ensures RevisionRecordStays(s.row, s'.row, no)
    {
      StepKeepsRecord(s, l, s', no);
    }
  }

  lemma RecordGrowsOn(a: Approval, b: Approval, c: Approval)
    requires RecordGrows(a, b) && RecordGrows(b, c)
    ensures RecordGrows(a, c)
  {
    forall no | 1 <= no <= |a.revisions|
      ensures RevisionRecordStays(a, c, no)
    {
      assert RevisionRecordStays(a, b, no) && RevisionRecordStays(b, c, no);
    }
  }

  /** Submission records and approvals stay for ever. */
  lemma {:induction false} RecordPersists(run: Run, i: nat, j: nat)
    requires IsRun(run) && i <= j < |run.states|
    ensures RecordGrows(run.states[i].row, run.states[j].row)
  {
    if i < j {
      RecordPersists(run, i, j - 1);
      RunKeepsInv(run, j - 1);
      StepGrowsRecord(run.states[j - 1], run.labels[j - 1], run.states[j]);
      RecordGrowsOn(run.states[i].row, run.states[j - 1].row, run.states[j].row);
    }
  }

  /**
   Once approved, a revision keeps the reason, plan and budget it was submitted with in every
   later state, as long as edits are harmless.
   */
  lemma ApprovedContentNeverChanges(run: Run, i: nat, j: nat, no: nat)
    requires IsRun(run) && i <= j < |run.states|
    requires HarmlessUpTo(run, j)
    requires 1 <= no <= |run.states[i].row.revisions| && ApprovedBy(run.states[i].row, no)
    ensures no <= |run.states[j].row.revisions|
    ensures run.states[j].row.revisions[no - 1].content == run.states[i].row.revisions[no - 1].content
    ensures run.states[i].row.revisions[no - 1].submitted == Some(run.states[j].row.revisions[no - 1].content)
  {
    FrozenIffEditsAreHarmless(run, j);
    RecordPersists(run, i, j);
    assert RevisionRecordStays(run.states[i].row, run.states[j].row, no);
    assert Frozen(run.states[i].row) && Frozen(run.states[j].row);
    assert Protected(run.states[i].row, no - 1 + 1) && Protected(run.states[j].row, no - 1 + 1);
  }

  // ---------------------------------------------------------------------------
  // Both exceptions happen
  // ---------------------------------------------------------------------------

  const A := Content("a", "a", 1)
  const B := Content("b", "b", 9)
  const TO_B := Edits(Some("b"), Some("b"), Some(9))

  function Draft(): Approval { NewDraft(1, A) }

  function Pending(): Approval {
    Approval(1, SUBMITTED, 2, [Revision(1, A, Some(A))], [Event(Submitted, 1, 1)])
  }

  function Decided(): Approval {
    Approval(1, APPROVED, 3, [Revision(1, A, Some(A))], [Event(Submitted, 1, 1), Event(Approved, 1, 2)])
  }

  /** Draft, submission by user 1, approval by user 2, and then a request that read at an earlier point. */
  ghost function LateRun(late: Label, last: Approval): Run {
    var d, p := Draft(), Pending();
    Run([State(d, {}), State(d, {d}), State(p, {d}), State(p, {d, p}), State(Decided(), {d, p}), State(last, {d, p})],
        [Read, Do(d, d, Act(1, Submit, None, true)), Read, Do(p, p, Act(2, Approve, None, true)), late])
  }

  lemma LateRunIsRun(late: Label, last: Approval)
    requires Step(State(Decided(), {Draft(), Pending()}), late, State(last, {Draft(), Pending()}))
    ensures IsRun(LateRun(late, last))
  {
    var run := LateRun(late, last);
    var d, p := Draft(), Pending();
    assert LatestNo([Revision(1, A, None)]) == 1 && LatestNo([Revision(1, A, Some(A))]) == 1 by {
      LatestIsLast([Revision(1, A, None)]);
      LatestIsLast([Revision(1, A, Some(A))]);
    }
    assert MarkSubmitted(d.revisions, 1) == p.revisions;
    assert {} + {d} == {d} && {d} + {p} == {d, p};
    assert Init(run.states[0]);
    assert Step(run.states[0], run.labels[0], run.states[1]);
    assert Step(run.states[1], run.labels[1], run.states[2]);
    assert Step(run.states[2], run.labels[2], run.states[3]);
    assert p.events + [Event(Approved, 1, 2)] == Decided().events;
    assert Step(run.states[3], run.labels[3], run.states[4]);
  }

  /** An edit read in DRAFT and committed after the approval rewrites the approved budget. */
  lemma LateEditRewritesApprovedRevision()
    ensures
      var edited := Decided().(revisions := [Revision(1, B, Some(A))]);
      var run := LateRun(Do(Draft(), Draft(), Edit(1, TO_B)), edited);
      && IsRun(run)
      && ApprovedBy(run.states[4].row, 1)
      && run.states[5].row.revisions[0].content != run.states[4].row.revisions[0].content
  {
    var edited := Decided().(revisions := [Revision(1, B, Some(A))]);
    LatestIsLast(Draft().revisions);
    assert WithEdits(Decided().revisions, 1, TO_B) == edited.revisions;
    LateRunIsRun(Do(Draft(), Draft(), Edit(1, TO_B)), edited);
    assert Decided().events[1] in Decided().events;
  }

  /** A cascade read in SUBMITTED and committed after the approval cancels an APPROVED approval. */
  lemma LateCascadeLeavesTheTable()
    ensures
      var cancelled := Approval(1, CANCELLED, 4, Decided().revisions, Decided().events + [Event(Cancelled, 1, 3)]);
      var run := LateRun(Do(Pending(), Pending(), AutoCancel(3)), cancelled);
      IsRun(run) && run.states[4].row.status == APPROVED && !IsPath(run.states[5].row.events)
  {
    var cancelled := Approval(1, CANCELLED, 4, Decided().revisions, Decided().events + [Event(Cancelled, 1, 3)]);
    LatestIsLast(Pending().revisions);
    LateRunIsRun(Do(Pending(), Pending(), AutoCancel(3)), cancelled);
    CountStep(Decided().events, Event(Cancelled, 1, 3), Submitted, 0);
  }
}
