/**
 From the note timeline of a work order to intervals (work order service) and to a running
 sum (dashboard): two computations of the same excluded time, and how far apart they can be.
 */
module SlaTimeline {
  import opened Outcomes
  import opened Shared
  import opened Sla

  datatype Note = Note(kind: NoteType, at: int)

  // ---------------------------------------------------------------------------
  // buildSlaIntervals
  // ---------------------------------------------------------------------------

  /** An interval object; the builder closes it after it is already in the result list. */
  class SlaInterval {
    const startedAt: int
    var endedAt: Option<int>

    constructor (startedAt: int)
      ensures this.startedAt == startedAt && endedAt == None
    {
      this.startedAt := startedAt;
      endedAt := None;
    }
  }

  /** The objects hold exactly these values. */
  ghost predicate Holds(xs: seq<SlaInterval>, vs: seq<Interval>)
    reads xs
  {
    && |xs| == |vs|
    && forall i :: 0 <= i < |xs| ==> xs[i].startedAt == vs[i].startedAt && xs[i].endedAt == vs[i].endedAt
  }

  function Values(xs: seq<SlaInterval>): (vs: seq<Interval>)
    reads xs
    ensures Holds(xs, vs)
  {
    seq(|xs|, i requires 0 <= i < |xs| reads xs => Interval(xs[i].startedAt, xs[i].endedAt))
  }

  datatype Track = Track(intervals: seq<Interval>, open: bool)

  /** The intervals that the notes of kind `starts` open and those of kind `ends` close. */
  function TrackOf(notes: seq<Note>, starts: NoteType, ends: NoteType): (t: Track)
    ensures t.open ==> t.intervals != []
  {
    if notes == [] then Track([], false)
    else Extended(TrackOf(notes[..|notes| - 1], starts, ends), notes[|notes| - 1], starts, ends)
  }

  function Extended(t: Track, n: Note, starts: NoteType, ends: NoteType): (t': Track)
    requires t.open ==> t.intervals != []
    ensures t'.open ==> t'.intervals != []
  {
    if n.kind == starts then Track(t.intervals + [Interval(n.at, None)], true)
    else if n.kind == ends && t.open then Track(CloseLast(t.intervals, n.at), false)
    else t
  }

  lemma TrackStep(notes: seq<Note>, i: nat, starts: NoteType, ends: NoteType)
    requires i < |notes|
    ensures TrackOf(notes[..i + 1], starts, ends) == Extended(TrackOf(notes[..i], starts, ends), notes[i], starts, ends)
  {
    assert notes[..i + 1] == notes[..i] + [notes[i]];
  }

  function CloseLast(xs: seq<Interval>, at: int): seq<Interval>
    requires xs != []
  {
    xs[|xs| - 1 := xs[|xs| - 1].(endedAt := Some(at))]
  }

  ghost predicate Distinct(xs: seq<SlaInterval>) {
    forall i, j :: 0 <= i < j < |xs| ==> xs[i] != xs[j]
  }

  ghost predicate Disjoint(xs: seq<SlaInterval>, ys: seq<SlaInterval>) {
    forall x :: x in xs ==> x !in ys
  }

  /** The reference the builder keeps is the last element of its list. */
  ghost predicate Tracks(xs: seq<SlaInterval>, current: SlaInterval?, t: Track)
    reads xs
  {
    && Distinct(xs)
    && Holds(xs, t.intervals)
    && (t.open <==> current != null)
    && (current != null ==> xs != [] && xs[|xs| - 1] == current)
  }

  /** Two tracks under construction that share no object. */
  ghost predicate Building(ps: seq<SlaInterval>, openPause: SlaInterval?, ws: seq<SlaInterval>, openWait: SlaInterval?,
                           pauses: Track, waits: Track)
    reads ps, ws
  {
    Tracks(ps, openPause, pauses) && Tracks(ws, openWait, waits) && Disjoint(ps, ws)
  }

  /** A start note pushes a new open interval onto its track and remembers it. */
  method OpenInterval(xs: seq<SlaInterval>, current: SlaInterval?, ghost t: Track, at: int) returns (x: SlaInterval)
    requires Tracks(xs, current, t)
    ensures fresh(x)
    ensures Tracks(xs + [x], x, Track(t.intervals + [Interval(at, None)], true))
  {
    x := new SlaInterval(at);
  }

  /** An end note closes the remembered interval where it stands in the list. */
  method CloseInterval(xs: seq<SlaInterval>, current: SlaInterval, ghost t: Track, at: int)
    requires Tracks(xs, current, t)
    modifies current
    ensures Tracks(xs, null, Track(CloseLast(t.intervals, at), false))
  {
    current.endedAt := Some(at);
  }

  /** The loop body: one note on both tracks. */
  method AddNote(ps: seq<SlaInterval>, openPause: SlaInterval?, ws: seq<SlaInterval>, openWait: SlaInterval?,
                 ghost pauses: Track, ghost waits: Track, n: Note)
    returns (ps': seq<SlaInterval>, openPause': SlaInterval?, ws': seq<SlaInterval>, openWait': SlaInterval?)
    requires Building(ps, openPause, ws, openWait, pauses, waits)
    modifies openPause, openWait
    ensures Building(ps', openPause', ws', openWait', Extended(pauses, n, PAUSE_START, PAUSE_END),
                     Extended(waits, n, WAITING_APPROVAL_START, WAITING_APPROVAL_END))
    ensures forall x :: x in ps' && x !in ps ==> fresh(x)
    ensures forall x :: x in ws' && x !in ws ==> fresh(x)
  {
    ps', openPause', ws', openWait' := ps, openPause, ws, openWait;
    if n.kind == PAUSE_START {
      openPause' := OpenInterval(ps, openPause, pauses, n.at);
      ps' := ps + [openPause'];
    } else if n.kind == PAUSE_END && openPause != null {
      assert openPause in ps;
      CloseInterval(ps, openPause, pauses, n.at);
      openPause' := null;
    } else if n.kind == WAITING_APPROVAL_START {
      openWait' := OpenInterval(ws, openWait, waits, n.at);
      ws' := ws + [openWait'];
    } else if n.kind == WAITING_APPROVAL_END && openWait != null {
      assert openWait in ws;
      CloseInterval(ws, openWait, waits, n.at);
      openWait' := null;
    }
  }

  /** How the first note of either kind ends an interval that is open before these notes. */
  function EndIn(notes: seq<Note>, starts: NoteType, ends: NoteType): Option<int> {
    if notes == [] || notes[0].kind == starts then None
    else if notes[0].kind == ends then Some(notes[0].at)
    else EndIn(notes[1..], starts, ends)
  }

  /** One interval per start note: closed by the next note of either kind if that is an end note, and never otherwise. */
  function Paired(notes: seq<Note>, starts: NoteType, ends: NoteType): seq<Interval> {
    if notes == [] then []
    else FirstOf(notes[0], notes[1..], starts, ends) + Paired(notes[1..], starts, ends)
  }

  function FirstOf(n: Note, rest: seq<Note>, starts: NoteType, ends: NoteType): seq<Interval> {
    if n.kind == starts then [Interval(n.at, EndIn(rest, starts, ends))] else []
  }

  /** No note is of either kind. */
  predicate Quiet(notes: seq<Note>, starts: NoteType, ends: NoteType) {
    notes == [] || (notes[0].kind != starts && notes[0].kind != ends && Quiet(notes[1..], starts, ends))
  }

  /** The last note of either kind is a start note. */
  predicate LeftOpen(notes: seq<Note>, starts: NoteType, ends: NoteType) {
    notes != []
    && (LeftOpen(notes[1..], starts, ends) || (notes[0].kind == starts && Quiet(notes[1..], starts, ends)))
  }

  lemma {:induction false} EndInStep(notes: seq<Note>, n: Note, starts: NoteType, ends: NoteType)
    requires starts != ends
    ensures EndIn(notes + [n], starts, ends)
            == if n.kind == ends && Quiet(notes, starts, ends) then Some(n.at) else EndIn(notes, starts, ends)
    ensures Quiet(notes + [n], starts, ends) <==> Quiet(notes, starts, ends) && n.kind != starts && n.kind != ends
  {
    if notes == [] {
      assert [n][1..] == [];
    } else {
      assert (notes + [n])[1..] == notes[1..] + [n];
      EndInStep(notes[1..], n, starts, ends);
    }
  }

  lemma {:induction false} LeftOpenStep(notes: seq<Note>, n: Note, starts: NoteType, ends: NoteType)
    requires starts != ends
    ensures LeftOpen(notes + [n], starts, ends)
            <==> n.kind == starts || (n.kind != ends && LeftOpen(notes, starts, ends))
  {
    var after := notes + [n];
    if notes != [] {
      assert after[1..] == notes[1..] + [n];
      EndInStep(notes[1..], n, starts, ends);
      LeftOpenStep(notes[1..], n, starts, ends);
    }
  }

  lemma {:induction false} OpenIsPaired(notes: seq<Note>, starts: NoteType, ends: NoteType)
    ensures LeftOpen(notes, starts, ends) ==> Paired(notes, starts, ends) != [] && !Quiet(notes, starts, ends)
    ensures Quiet(notes, starts, ends) ==> Paired(notes, starts, ends) == []
  {
    if notes != [] {
      OpenIsPaired(notes[1..], starts, ends);
    }
  }

  lemma {:induction false} QuietEndsNothing(notes: seq<Note>, starts: NoteType, ends: NoteType)
    requires Quiet(notes, starts, ends)
    ensures EndIn(notes, starts, ends) == None
  {
    if notes != [] {
      QuietEndsNothing(notes[1..], starts, ends);
    }
  }

  function PairedTrack(notes: seq<Note>, starts: NoteType, ends: NoteType): (t: Track)
    ensures t.open ==> t.intervals != []
  {
    OpenIsPaired(notes, starts, ends);
    Track(Paired(notes, starts, ends), LeftOpen(notes, starts, ends))
  }

  /** If notes of either kind follow the first one, its interval is settled. */
  lemma SettledStep(first: Note, rest: seq<Note>, n: Note, starts: NoteType, ends: NoteType)
    requires starts != ends && !Quiet(rest, starts, ends)
    ensures Extended(Track(FirstOf(first, rest, starts, ends) + Paired(rest, starts, ends),
                           PairedTrack(rest, starts, ends).open), n, starts, ends).intervals
            == FirstOf(first, rest + [n], starts, ends) + Extended(PairedTrack(rest, starts, ends), n, starts, ends).intervals
  {
    EndInStep(rest, n, starts, ends);
  }

  /** If none follow, it is the last interval, and open. */
  lemma LastStep(first: Note, rest: seq<Note>, n: Note, starts: NoteType, ends: NoteType)
    requires starts != ends && Quiet(rest, starts, ends)
    ensures Extended(Track(FirstOf(first, rest, starts, ends), first.kind == starts), n, starts, ends).intervals
            == FirstOf(first, rest + [n], starts, ends) + (if n.kind == starts then [Interval(n.at, None)] else [])
  {
    EndInStep(rest, n, starts, ends);
    QuietEndsNothing(rest, starts, ends);
  }

  lemma PairedFirst(first: Note, rest: seq<Note>, starts: NoteType, ends: NoteType)
    ensures Paired([first] + rest, starts, ends) == FirstOf(first, rest, starts, ends) + Paired(rest, starts, ends)
  {
    assert ([first] + rest)[1..] == rest;
  }

  lemma {:induction false} PairedStep(notes: seq<Note>, n: Note, starts: NoteType, ends: NoteType)
    requires starts != ends
    ensures Paired(notes + [n], starts, ends) == Extended(PairedTrack(notes, starts, ends), n, starts, ends).intervals
  {
    if notes == [] {
      PairedFirst(n, [], starts, ends);
      assert [] + [n] == [n];
    } else {
      var first, rest := notes[0], notes[1..];
      PairedStep(rest, n, starts, ends);
      PairedFirst(first, rest + [n], starts, ends);
      assert notes + [n] == [first] + (rest + [n]);
      if Quiet(rest, starts, ends) {
        OpenIsPaired(rest, starts, ends);
        LastStep(first, rest, n, starts, ends);
        assert PairedTrack(notes, starts, ends) == Track(FirstOf(first, rest, starts, ends), first.kind == starts);
      } else {
        SettledStep(first, rest, n, starts, ends);
      }
    }
  }

  /** The builder's track is the pairing of each start note with what follows it. */
  lemma {:induction false} TrackIsPaired(notes: seq<Note>, starts: NoteType, ends: NoteType)
    requires starts != ends
    ensures TrackOf(notes, starts, ends) == PairedTrack(notes, starts, ends)
  {
    if notes != [] {
      var rest, n := notes[..|notes| - 1], notes[|notes| - 1];
      assert notes == rest + [n];
      TrackIsPaired(rest, starts, ends);
      PairedStep(rest, n, starts, ends);
      LeftOpenStep(rest, n, starts, ends);
    }
  }

  method BuildSlaIntervals(notes: seq<Note>)
    returns (pauseIntervals: seq<SlaInterval>, waitingApprovalIntervals: seq<SlaInterval>)
    ensures forall x :: x in pauseIntervals + waitingApprovalIntervals ==> fresh(x)
    ensures Holds(pauseIntervals, TrackOf(notes, PAUSE_START, PAUSE_END).intervals)
    ensures Holds(waitingApprovalIntervals, TrackOf(notes, WAITING_APPROVAL_START, WAITING_APPROVAL_END).intervals)
  {
    pauseIntervals, waitingApprovalIntervals := [], [];
    var openPause: SlaInterval? := null;
    var openWait: SlaInterval? := null;
    for i := 0 to |notes|
      invariant forall x :: x in pauseIntervals ==> fresh(x)
      invariant forall x :: x in waitingApprovalIntervals ==> fresh(x)
      invariant Building(pauseIntervals, openPause, waitingApprovalIntervals, openWait,
                         TrackOf(notes[..i], PAUSE_START, PAUSE_END),
                         TrackOf(notes[..i], WAITING_APPROVAL_START, WAITING_APPROVAL_END))
    {
      TrackStep(notes, i, PAUSE_START, PAUSE_END);
      TrackStep(notes, i, WAITING_APPROVAL_START, WAITING_APPROVAL_END);
      assert openPause != null ==> openPause in pauseIntervals;
      assert openWait != null ==> openWait in waitingApprovalIntervals;
      pauseIntervals, openPause, waitingApprovalIntervals, openWait :=
        AddNote(pauseIntervals, openPause, waitingApprovalIntervals, openWait,
                TrackOf(notes[..i], PAUSE_START, PAUSE_END),
                TrackOf(notes[..i], WAITING_APPROVAL_START, WAITING_APPROVAL_END), notes[i]);
    }
    assert notes[..|notes|] == notes;
  }

  /** All intervals excluded from the SLA clock of a work order with these notes. */
  function ExcludedIntervals(notes: seq<Note>): seq<Interval> {
    TrackOf(notes, PAUSE_START, PAUSE_END).intervals
    + TrackOf(notes, WAITING_APPROVAL_START, WAITING_APPROVAL_END).intervals
  }

  /** Each interval floored on its own. */
  function FlooredSum(xs: seq<Interval>, now: int): nat {
    if xs == [] then 0 else FlooredSum(xs[..|xs| - 1], now) + DurationSeconds(xs[|xs| - 1], now)
  }

  method SumSeconds(xs: seq<Interval>, now: int) returns (total: nat)
    ensures total == FlooredSum(xs, now)
  {
    total := 0;
    for i := 0 to |xs|
      invariant total == FlooredSum(xs[..i], now)
    {
      assert xs[..i + 1][..i] == xs[..i];
      var end := if xs[i].endedAt.Some? then xs[i].endedAt.value else now;
      total := total + Max(0, (end - xs[i].startedAt) / 1000);
    }
    assert xs[..|xs|] == xs;
  }

  datatype SlaStatus = SlaStatus(active: nat, overdue: bool, remaining: nat, pauseSeconds: nat, waitingApprovalSeconds: nat)

  method GetSlaStatus(status: WorkOrderStatus, slaSeconds: nat, slaStartedAt: int, notes: seq<Note>, now: int)
    returns (r: Result<SlaStatus>)
    ensures match ActiveSeconds(slaStartedAt, now, ExcludedIntervals(notes))
            case Failure(e) => r == Failure(e)
            case Success(a) =>
              r == Success(SlaStatus(a, IsOverdue(status, slaSeconds, a), Max(0, slaSeconds - a),
                                     FlooredSum(TrackOf(notes, PAUSE_START, PAUSE_END).intervals, now),
                                     FlooredSum(TrackOf(notes, WAITING_APPROVAL_START, WAITING_APPROVAL_END).intervals, now)))
    ensures r.Success? ==>
              && (r.value.overdue <==> status in {ASSIGNED, IN_PROGRESS} && r.value.active > slaSeconds)
              && (status in {ASSIGNED, IN_PROGRESS} ==>
                    (!r.value.overdue <==> r.value.active + r.value.remaining == slaSeconds))
  {
    var pauses, waits := BuildSlaIntervals(notes);
    var p, w := Values(pauses), Values(waits);
    assert p == TrackOf(notes, PAUSE_START, PAUSE_END).intervals;
    assert w == TrackOf(notes, WAITING_APPROVAL_START, WAITING_APPROVAL_END).intervals;
    var active := ComputeActiveElapsed(slaStartedAt, now, p, w);
    var pauseSeconds := SumSeconds(p, now);
    var waitingSeconds := SumSeconds(w, now);
    match active
    case Failure(e) => return Failure(e);
    case Success(a) =>
      var status := SlaStatus(a, IsOverdue(status, slaSeconds, a), Max(0, slaSeconds - a), pauseSeconds, waitingSeconds);
      return Success(status);
  }

  /** A pause that ends in the millisecond it began makes the status fail, whenever it is asked for. */
  lemma InstantPauseIsAnError(t: int, slaStartedAt: int, now: int)
    ensures
      var notes := [Note(PAUSE_START, t), Note(PAUSE_END, t)];
      ActiveSeconds(slaStartedAt, now, ExcludedIntervals(notes)) == Failure(READ_OF_UNDEFINED)
  {
    var notes := [Note(PAUSE_START, t), Note(PAUSE_END, t)];
    var first := [Note(PAUSE_START, t)];
    assert notes[..1] == first && first[..0] == [];
    assert TrackOf([], PAUSE_START, PAUSE_END) == Track([], false);
    assert TrackOf(first, PAUSE_START, PAUSE_END) == Track([Interval(t, None)], true);
    assert TrackOf(notes, PAUSE_START, PAUSE_END) == Track([Interval(t, Some(t))], false);
    assert TrackOf(first, WAITING_APPROVAL_START, WAITING_APPROVAL_END) == Track([], false);
    assert TrackOf(notes, WAITING_APPROVAL_START, WAITING_APPROVAL_END) == Track([], false);
    assert ExcludedIntervals(notes) == [Interval(t, Some(t))];
  }

  // ---------------------------------------------------------------------------
  // The dashboard's running sum
  // ---------------------------------------------------------------------------

  /** A stored start counts as present only when it is neither null nor the instant 0. */
  predicate Truthy(start: Option<int>) {
    start.Some? && start.value != 0
  }

  datatype Tally = Tally(total: nat, start: Option<int>)

  function TallyOf(notes: seq<Note>, starts: NoteType, ends: NoteType): Tally {
    if notes == [] then Tally(0, None)
    else
      var t, n := TallyOf(notes[..|notes| - 1], starts, ends), notes[|notes| - 1];
      if n.kind == starts then t.(start := Some(n.at))
      else if n.kind == ends && Truthy(t.start) then
        Tally(t.total + Max(0, (n.at - t.start.value) / 1000), None)
      else t
  }

  /** The excluded seconds the dashboard sees: both kinds of spans, each floored on its own. */
  function DashboardSeconds(notes: seq<Note>): nat {
    TallyOf(notes, PAUSE_START, PAUSE_END).total
    + TallyOf(notes, WAITING_APPROVAL_START, WAITING_APPROVAL_END).total
  }

  method ComputeExcludedSeconds(notes: seq<Note>) returns (total: nat)
    ensures total == DashboardSeconds(notes)
  {
    total := 0;
    var pauseStart: Option<int> := None;
    var waStart: Option<int> := None;
    for i := 0 to |notes|
      invariant total == DashboardSeconds(notes[..i])
      invariant pauseStart == TallyOf(notes[..i], PAUSE_START, PAUSE_END).start
      invariant waStart == TallyOf(notes[..i], WAITING_APPROVAL_START, WAITING_APPROVAL_END).start
    {
      var n := notes[i];
      assert notes[..i + 1][..i] == notes[..i];
      if n.kind == PAUSE_START {
        pauseStart := Some(n.at);
      } else if n.kind == PAUSE_END && Truthy(pauseStart) {
        total := total + Max(0, (n.at - pauseStart.value) / 1000);
        pauseStart := None;
      } else if n.kind == WAITING_APPROVAL_START {
        waStart := Some(n.at);
      } else if n.kind == WAITING_APPROVAL_END && Truthy(waStart) {
        total := total + Max(0, (n.at - waStart.value) / 1000);
        waStart := None;
      }
    }
    assert notes[..|notes|] == notes;
  }

  // ---------------------------------------------------------------------------
  // How far the two computations are apart
  // ---------------------------------------------------------------------------

  /** Starts and ends of one kind alternate; `open` tells whether the last start is unanswered. */
  predicate Alternates(notes: seq<Note>, starts: NoteType, ends: NoteType, open: bool) {
    if notes == [] then !open
    else
      var rest, n := notes[..|notes| - 1], notes[|notes| - 1];
      if n.kind == starts then open && Alternates(rest, starts, ends, false)
      else if n.kind == ends then !open && Alternates(rest, starts, ends, true)
      else Alternates(rest, starts, ends, open)
  }

  lemma {:induction false} FlooredSumConcat(xs: seq<Interval>, ys: seq<Interval>, now: int)
    ensures FlooredSum(xs + ys, now) == FlooredSum(xs, now) + FlooredSum(ys, now)
  {
    if ys == [] {
      assert xs + ys == xs;
    } else {
      assert (xs + ys)[..|xs + ys| - 1] == xs + ys[..|ys| - 1];
      FlooredSumConcat(xs, ys[..|ys| - 1], now);
    }
  }

  /** On an alternating timeline the tally is the floored sum of the intervals closed so far. */
  lemma {:induction false} TallyIsFlooredSum(notes: seq<Note>, starts: NoteType, ends: NoteType, open: bool, now: int)
    requires starts != ends && Alternates(notes, starts, ends, open)
    requires forall n :: n in notes ==> n.at > 0
    ensures
      var track, tally := TrackOf(notes, starts, ends), TallyOf(notes, starts, ends);
      && track.open == open
      && (!open ==> tally.start == None && tally.total == FlooredSum(track.intervals, now))
      && (open ==>
            var k := |track.intervals| - 1;
            && tally.start == Some(track.intervals[k].startedAt)
            && track.intervals[k].endedAt == None
            && tally.start.value > 0
            && tally.total == FlooredSum(track.intervals[..k], now))
  {
    if notes != [] {
      var rest, n := notes[..|notes| - 1], notes[|notes| - 1];
      var track, track' := TrackOf(rest, starts, ends), TrackOf(notes, starts, ends);
      if n.kind == starts {
        TallyIsFlooredSum(rest, starts, ends, false, now);
        assert n in notes;
        assert track'.intervals[..|track'.intervals| - 1] == track.intervals;
      } else if n.kind == ends {
        TallyIsFlooredSum(rest, starts, ends, true, now);
        var k := |track.intervals| - 1;
        assert track'.intervals[..k] == track.intervals[..k];
      } else {
        TallyIsFlooredSum(rest, starts, ends, open, now);
      }
    }
  }

  /** On closed timelines the seconds that the status reports per kind add up to the dashboard's sum. */
  lemma ReportedSecondsMatchDashboard(notes: seq<Note>, now: int)
    requires Alternates(notes, PAUSE_START, PAUSE_END, false)
    requires Alternates(notes, WAITING_APPROVAL_START, WAITING_APPROVAL_END, false)
    requires forall n :: n in notes ==> n.at > 0
    ensures FlooredSum(TrackOf(notes, PAUSE_START, PAUSE_END).intervals, now)
            + FlooredSum(TrackOf(notes, WAITING_APPROVAL_START, WAITING_APPROVAL_END).intervals, now)
            == DashboardSeconds(notes)
  {
    TallyIsFlooredSum(notes, PAUSE_START, PAUSE_END, false, now);
    TallyIsFlooredSum(notes, WAITING_APPROVAL_START, WAITING_APPROVAL_END, false, now);
  }

  /** No millisecond belongs to two intervals. */
  ghost predicate MutuallyDisjoint(xs: seq<Interval>, now: int) {
    forall i, j, t :: 0 <= i < j < |xs| && CoversInstant(xs[i], now, t) ==> !CoversInstant(xs[j], now, t)
  }

  lemma {:induction false} DisjointUnionIsSum(xs: seq<Interval>, now: int)
    requires MutuallyDisjoint(xs, now)
    ensures |Excluded(xs, now)| == TotalLength(xs, now)
  {
    if xs != [] {
      var n := |xs| - 1;
      forall i, j, t | 0 <= i < j < n && CoversInstant(xs[..n][i], now, t)
        ensures !CoversInstant(xs[..n][j], now, t)
      {
        assert CoversInstant(xs[i], now, t);
        assert !CoversInstant(xs[j], now, t);
      }
      DisjointUnionIsSum(xs[..n], now);
      var a, b := Excluded(xs[..n], now), Range(Close(xs[n], now).from, Close(xs[n], now).to);
      forall t | t in a
        ensures t !in b
      {
        var i :| 0 <= i < n && CoversInstant(xs[..n][i], now, t);
        assert CoversInstant(xs[i], now, t);
        assert !CoversInstant(xs[n], now, t);
      }
      assert a !! b;
    }
  }

  lemma FloorOfSum(a: nat, b: nat)
    ensures a / 1000 + b / 1000 <= (a + b) / 1000 <= a / 1000 + b / 1000 + 1
  {
  }

  /** Flooring n pieces separately loses at most n-1 seconds against flooring their sum. */
  lemma {:induction false} FlooringLoss(xs: seq<Interval>, now: int)
    ensures FlooredSum(xs, now) <= TotalLength(xs, now) / 1000
    ensures xs != [] ==> TotalLength(xs, now) / 1000 <= FlooredSum(xs, now) + |xs| - 1
  {
    if xs != [] {
      var n := |xs| - 1;
      FlooringLoss(xs[..n], now);
      FloorOfSum(TotalLength(xs[..n], now), Max(0, Close(xs[n], now).to - xs[n].startedAt));
      if n == 0 {
        assert xs[..n] == [];
      }
    }
  }

  /**
   On closed, alternating, mutually disjoint timelines with n spans, at least one of positive
   length, the SLA engine excludes between 0 and n-1 seconds more than the dashboard.
   */
  lemma EngineExceedsDashboardByLessThanSpans(notes: seq<Note>, now: int)
    requires Alternates(notes, PAUSE_START, PAUSE_END, false)
    requires Alternates(notes, WAITING_APPROVAL_START, WAITING_APPROVAL_END, false)
    requires forall n :: n in notes ==> n.at > 0
    requires MutuallyDisjoint(ExcludedIntervals(notes), now)
    requires HasPositive(ExcludedIntervals(notes), now)
    ensures
      var engine := UnionSeconds(ExcludedIntervals(notes), now);
      && engine.Success?
      && 0 <= engine.value - DashboardSeconds(notes) <= |ExcludedIntervals(notes)| - 1
  {
    var pauses := TrackOf(notes, PAUSE_START, PAUSE_END).intervals;
    var waits := TrackOf(notes, WAITING_APPROVAL_START, WAITING_APPROVAL_END).intervals;
    TallyIsFlooredSum(notes, PAUSE_START, PAUSE_END, false, now);
    TallyIsFlooredSum(notes, WAITING_APPROVAL_START, WAITING_APPROVAL_END, false, now);
    FlooredSumConcat(pauses, waits, now);
    DisjointUnionIsSum(pauses + waits, now);
    FlooringLoss(pauses + waits, now);
  }
}
