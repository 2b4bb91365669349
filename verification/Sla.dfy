/**
 The SLA engine: how long a work order has actively run, once pauses and approval waits are
 taken out. All instants are integer milliseconds.
 */
module Sla {
  import opened Outcomes
  import opened Shared

  /** `endedAt` is absent while the interval is still open. */
  datatype Interval = Interval(startedAt: int, endedAt: Option<int>)

  datatype Span = Span(from: int, to: int)

  /** `closed[0].from` is evaluated on an empty array. */
  const READ_OF_UNDEFINED := "TypeError"

  function Max(a: int, b: int): int {
    if a >= b then a else b
  }

  function Close(x: Interval, now: int): Span {
    Span(x.startedAt, if x.endedAt.Some? then x.endedAt.value else now)
  }

  function DurationSeconds(x: Interval, now: int): nat {
    Max(0, (Close(x, now).to - x.startedAt) / 1000)
  }

  // ---------------------------------------------------------------------------
  // What the union of intervals means: the set of milliseconds they cover
  // ---------------------------------------------------------------------------

  ghost function Range(a: int, b: int): (s: set<int>)
    ensures forall t :: t in s <==> a <= t < b
    ensures |s| == Max(0, b - a)
    decreases b - a
  {
    if a < b then Range(a, b - 1) + {b - 1} else {}
  }

  ghost predicate CoversInstant(x: Interval, now: int, t: int) {
    Close(x, now).from <= t < Close(x, now).to
  }

  ghost predicate SomeCovers(xs: seq<Interval>, now: int, t: int) {
    exists i :: 0 <= i < |xs| && CoversInstant(xs[i], now, t)
  }

  lemma SomeCoversPrefix(xs: seq<Interval>, now: int, t: int)
    requires xs != []
    ensures SomeCovers(xs, now, t) <==> SomeCovers(xs[..|xs| - 1], now, t) || CoversInstant(xs[|xs| - 1], now, t)
  {
    var ys := xs[..|xs| - 1];
    if SomeCovers(ys, now, t) {
      var i :| 0 <= i < |ys| && CoversInstant(ys[i], now, t);
      assert CoversInstant(xs[i], now, t);
    }
    if SomeCovers(xs, now, t) && !CoversInstant(xs[|xs| - 1], now, t) {
      var i :| 0 <= i < |xs| && CoversInstant(xs[i], now, t);
      assert CoversInstant(ys[i], now, t);
    }
  }

  /** All milliseconds covered by at least one interval. */
  ghost function Excluded(xs: seq<Interval>, now: int): (s: set<int>)
    ensures forall t :: t in s <==> SomeCovers(xs, now, t)
  {
    if xs == [] then {}
    else
      var n := |xs| - 1;
      assert forall t :: SomeCovers(xs, now, t) <==> SomeCovers(xs[..n], now, t) || CoversInstant(xs[n], now, t) by {
        forall t ensures SomeCovers(xs, now, t) <==> SomeCovers(xs[..n], now, t) || CoversInstant(xs[n], now, t) {
          SomeCoversPrefix(xs, now, t);
        }
      }
      Excluded(xs[..n], now) + Range(Close(xs[n], now).from, Close(xs[n], now).to)
  }

  ghost predicate HasPositive(xs: seq<Interval>, now: int) {
    exists x :: x in xs && Close(x, now).from < Close(x, now).to
  }

  /** The seconds excluded by a list of intervals, or the error of the unguarded first element. */
  ghost function UnionSeconds(xs: seq<Interval>, now: int): Result<nat> {
    if xs == [] then Success(0)
    else if !HasPositive(xs, now) then Failure(READ_OF_UNDEFINED)
    else Success(|Excluded(xs, now)| / 1000)
  }

  // ---------------------------------------------------------------------------
  // unionDuration: sort and sweep
  // ---------------------------------------------------------------------------

  /** Map to closed spans and keep the positive ones. */
  function PositiveSpans(xs: seq<Interval>, now: int): seq<Span> {
    if xs == [] then []
    else
      var p := Close(xs[0], now);
      (if p.from < p.to then [p] else []) + PositiveSpans(xs[1..], now)
  }

  lemma {:induction false} InPositiveSpans(xs: seq<Interval>, now: int, p: Span)
    ensures p in PositiveSpans(xs, now) <==> p.from < p.to && exists x :: x in xs && Close(x, now) == p
  {
    if xs != [] {
      InPositiveSpans(xs[1..], now, p);
      assert xs == [xs[0]] + xs[1..];
    }
  }

  /** Adjacent spans are in order. */
  ghost predicate SortedByFrom(spans: seq<Span>) {
    forall i :: 0 < i < |spans| ==> spans[i - 1].from <= spans[i].from
  }

  function Insert(p: Span, spans: seq<Span>): (r: seq<Span>)
    ensures multiset(r) == multiset(spans) + multiset{p}
    ensures r != [] && r[0] == if spans == [] || p.from <= spans[0].from then p else spans[0]
  {
    if spans == [] then [p]
    else if p.from <= spans[0].from then [p] + spans
    else
      assert spans == [spans[0]] + spans[1..];
      [spans[0]] + Insert(p, spans[1..])
  }

  lemma SameElements(a: seq<Span>, b: seq<Span>)
    requires multiset(a) == multiset(b)
    ensures forall q :: q in a <==> q in b
  {
    forall q
      ensures q in a <==> q in b
    {
      assert q in a <==> q in multiset(a);
      assert q in b <==> q in multiset(b);
    }
  }

  lemma {:induction false} InsertKeepsSorted(p: Span, spans: seq<Span>)
    requires SortedByFrom(spans)
    ensures SortedByFrom(Insert(p, spans))
  {
    if spans != [] && spans[0].from < p.from {
      var rest := Insert(p, spans[1..]);
      InsertKeepsSorted(p, spans[1..]);
      assert forall i :: 0 < i < |rest| ==> rest[i - 1] == Insert(p, spans)[i] && rest[i] == Insert(p, spans)[i + 1];
    }
  }

  /** The stable sort by start instant. */
  function SortByFrom(spans: seq<Span>): (r: seq<Span>)
    ensures SortedByFrom(r)
    ensures multiset(r) == multiset(spans)
  {
    if spans == [] then [] else
      assert spans == [spans[0]] + spans[1..];
      var rest := SortByFrom(spans[1..]);
      InsertKeepsSorted(spans[0], rest);
      Insert(spans[0], rest)
  }

  ghost function CoveredBySpans(spans: seq<Span>): set<int> {
    if spans == [] then {}
    else CoveredBySpans(spans[..|spans| - 1]) + Range(spans[|spans| - 1].from, spans[|spans| - 1].to)
  }

  lemma {:induction false} InCoveredBySpans(spans: seq<Span>, t: int)
    ensures t in CoveredBySpans(spans) <==> exists p :: p in spans && p.from <= t < p.to
  {
    if spans != [] {
      var n := |spans| - 1;
      InCoveredBySpans(spans[..n], t);
      assert spans == spans[..n] + [spans[n]];
    }
  }

  lemma SpansCoverTheIntervals(xs: seq<Interval>, now: int, spans: seq<Span>)
    requires forall p :: p in spans <==> p in PositiveSpans(xs, now)
    ensures CoveredBySpans(spans) == Excluded(xs, now)
    ensures spans != [] <==> HasPositive(xs, now)
  {
    forall t
      ensures t in CoveredBySpans(spans) <==> t in Excluded(xs, now)
    {
      InCoveredBySpans(spans, t);
      if SomeCovers(xs, now, t) {
        var i :| 0 <= i < |xs| && CoversInstant(xs[i], now, t);
        InPositiveSpans(xs, now, Close(xs[i], now));
        assert xs[i] in xs;
      }
      if p :| p in spans && p.from <= t < p.to {
        InPositiveSpans(xs, now, p);
        var x :| x in xs && Close(x, now) == p;
        var i :| 0 <= i < |xs| && xs[i] == x;
        assert CoversInstant(xs[i], now, t);
      }
    }
    if spans != [] {
      InPositiveSpans(xs, now, spans[0]);
    }
    if HasPositive(xs, now) {
      var x :| x in xs && Close(x, now).from < Close(x, now).to;
      InPositiveSpans(xs, now, Close(x, now));
    }
  }

  /** The map, filter and sort that precede the sweep. */
  method CloseAndSort(xs: seq<Interval>, now: int) returns (closed: seq<Span>)
    ensures SortedByFrom(closed)
    ensures forall i :: 0 <= i < |closed| ==> closed[i].from < closed[i].to
    ensures CoveredBySpans(closed) == Excluded(xs, now)
    ensures closed != [] <==> HasPositive(xs, now)
  {
    closed := SortByFrom(PositiveSpans(xs, now));
    SameElements(closed, PositiveSpans(xs, now));
    SpansCoverTheIntervals(xs, now, closed);
    forall i | 0 <= i < |closed|
      ensures closed[i].from < closed[i].to
    {
      InPositiveSpans(xs, now, closed[i]);
    }
  }

  /** What the sweep has established after the spans `done`: `total` for the gaps behind, one span still growing. */
  ghost predicate Swept(done: seq<Span>, behind: set<int>, total: int, curFrom: int, curTo: int) {
    && curFrom < curTo
    && CoveredBySpans(done) == behind + Range(curFrom, curTo)
    && |behind| == total
    && (forall t :: t in behind ==> t < curFrom)
  }

  lemma CoveredStep(done: seq<Span>, next: Span)
    ensures CoveredBySpans(done + [next]) == CoveredBySpans(done) + Range(next.from, next.to)
  {
    assert (done + [next])[..|done|] == done;
  }

  lemma SetUnionAssociates(a: set<int>, b: set<int>, c: set<int>)
    ensures (a + b) + c == a + (b + c)
  {
  }

  lemma RangesMerge(a: int, b: int, c: int, d: int)
    requires a <= c <= b && c < d
    ensures Range(a, b) + Range(c, d) == Range(a, Max(b, d))
  {
  }

  lemma SweepGrows(done: seq<Span>, behind: set<int>, total: int, curFrom: int, curTo: int, next: Span)
    requires Swept(done, behind, total, curFrom, curTo)
    requires curFrom <= next.from <= curTo && next.from < next.to
    ensures Swept(done + [next], behind, total, curFrom, Max(curTo, next.to))
  {
    CoveredStep(done, next);
    RangesMerge(curFrom, curTo, next.from, next.to);
    SetUnionAssociates(behind, Range(curFrom, curTo), Range(next.from, next.to));
  }

  lemma SweepMovesOn(done: seq<Span>, behind: set<int>, total: int, curFrom: int, curTo: int, next: Span)
    requires Swept(done, behind, total, curFrom, curTo)
    requires curTo < next.from < next.to
    ensures Swept(done + [next], behind + Range(curFrom, curTo), total + (curTo - curFrom), next.from, next.to)
  {
    CoveredStep(done, next);
    assert behind !! Range(curFrom, curTo);
  }

  lemma PrefixStep(spans: seq<Span>, i: nat)
    requires i < |spans|
    ensures spans[..i + 1] == spans[..i] + [spans[i]]
  {
  }

  lemma SweepEnds(done: seq<Span>, behind: set<int>, total: int, curFrom: int, curTo: int)
    requires Swept(done, behind, total, curFrom, curTo)
    ensures |CoveredBySpans(done)| == total + (curTo - curFrom)
  {
    assert behind !! Range(curFrom, curTo);
  }

  /** The sweep over the sorted spans: the milliseconds they cover. */
  method Sweep(closed: seq<Span>) returns (total: int)
    requires closed != [] && SortedByFrom(closed)
    requires forall i :: 0 <= i < |closed| ==> closed[i].from < closed[i].to
    ensures total == |CoveredBySpans(closed)|
  {
    total := 0;
    var curFrom, curTo := closed[0].from, closed[0].to;
    ghost var behind: set<int> := {};
    FirstSpan(closed);
    for i := 1 to |closed|
      invariant Swept(closed[..i], behind, total, curFrom, curTo)
      invariant curFrom <= closed[i - 1].from
    {
      var next := closed[i];
      PrefixStep(closed, i);
      if next.from <= curTo {
        SweepGrows(closed[..i], behind, total, curFrom, curTo, next);
        curTo := Max(curTo, next.to);
      } else {
        SweepMovesOn(closed[..i], behind, total, curFrom, curTo, next);
        behind := behind + Range(curFrom, curTo);
        total := total + (curTo - curFrom);
        curFrom, curTo := next.from, next.to;
      }
    }
    assert closed[..|closed|] == closed;
    SweepEnds(closed, behind, total, curFrom, curTo);
    total := total + (curTo - curFrom);
  }

  method UnionDuration(intervals: seq<Interval>, now: int) returns (r: Result<nat>)
    ensures r == UnionSeconds(intervals, now)
  {
    if |intervals| == 0 {
      assert UnionSeconds(intervals, now) == Success(0);
      return Success(0);
    }
    var closed := CloseAndSort(intervals, now);
    if |closed| == 0 {
      assert UnionSeconds(intervals, now) == Failure(READ_OF_UNDEFINED);
      return Failure(READ_OF_UNDEFINED);
    }
    var total := Sweep(closed);
    var seconds: nat := Max(0, total / 1000);
    assert seconds == |Excluded(intervals, now)| / 1000;
    return Success(seconds);
  }

  lemma FirstSpan(closed: seq<Span>)
    requires closed != [] && closed[0].from < closed[0].to
    ensures Swept(closed[..1], {}, 0, closed[0].from, closed[0].to)
  {
    var done := closed[..1];
    assert done[..0] == [];
    assert CoveredBySpans(done) == CoveredBySpans(done[..0]) + Range(done[0].from, done[0].to);
  }

  // ---------------------------------------------------------------------------
  // Laws of the union
  // ---------------------------------------------------------------------------

  lemma SubsetSize(a: set<int>, b: set<int>)
    requires a <= b
    ensures |a| <= |b|
  {
    assert |b| == |a| + |b - a| by {
      assert b == a + (b - a);
    }
  }

  /** More intervals never exclude less. */
  lemma UnionMonotone(xs: seq<Interval>, ys: seq<Interval>, now: int)
    requires forall x :: x in xs ==> x in ys
    requires UnionSeconds(xs, now).Success? && UnionSeconds(ys, now).Success?
    ensures UnionSeconds(xs, now).value <= UnionSeconds(ys, now).value
  {
    forall t | t in Excluded(xs, now)
      ensures t in Excluded(ys, now)
    {
      var i :| 0 <= i < |xs| && CoversInstant(xs[i], now, t);
      assert xs[i] in ys;
      var j :| 0 <= j < |ys| && ys[j] == xs[i];
      assert CoversInstant(ys[j], now, t);
    }
    SubsetSize(Excluded(xs, now), Excluded(ys, now));
  }

  /** The result depends only on which intervals occur, not on their order or repetition. */
  lemma UnionIgnoresOrderAndDuplicates(xs: seq<Interval>, ys: seq<Interval>, now: int)
    requires forall x :: x in xs <==> x in ys
    ensures UnionSeconds(xs, now) == UnionSeconds(ys, now)
  {
    if xs != [] {
      assert xs[0] in xs;
    }
    if ys != [] {
      assert ys[0] in ys;
    }
    if xs != [] && HasPositive(xs, now) {
      UnionMonotone(xs, ys, now);
      UnionMonotone(ys, xs, now);
    }
  }

  function TotalLength(xs: seq<Interval>, now: int): nat {
    if xs == [] then 0
    else TotalLength(xs[..|xs| - 1], now) + Max(0, Close(xs[|xs| - 1], now).to - xs[|xs| - 1].startedAt)
  }

  lemma {:induction false} ExcludedAtMostTotal(xs: seq<Interval>, now: int)
    ensures |Excluded(xs, now)| <= TotalLength(xs, now)
  {
    if xs != [] {
      var n := |xs| - 1;
      var a, b := Excluded(xs[..n], now), Range(Close(xs[n], now).from, Close(xs[n], now).to);
      ExcludedAtMostTotal(xs[..n], now);
      assert |a + b| <= |a| + |b|;
    }
  }

  /** The union lies between every single interval and the sum of all. */
  lemma UnionBounds(xs: seq<Interval>, now: int, x: Interval)
    requires x in xs && UnionSeconds(xs, now).Success?
    ensures DurationSeconds(x, now) <= UnionSeconds(xs, now).value <= TotalLength(xs, now) / 1000
  {
    var p := Close(x, now);
    forall t | t in Range(p.from, p.to)
      ensures t in Excluded(xs, now)
    {
      var i :| 0 <= i < |xs| && xs[i] == x;
      assert CoversInstant(xs[i], now, t);
    }
    SubsetSize(Range(p.from, p.to), Excluded(xs, now));
    ExcludedAtMostTotal(xs, now);
  }

  // ---------------------------------------------------------------------------
  // computeActiveElapsed
  // ---------------------------------------------------------------------------

  ghost function ActiveSeconds(slaStartedAt: int, now: int, xs: seq<Interval>): Result<nat> {
    match UnionSeconds(xs, now)
    case Failure(e) => Failure(e)
    case Success(excluded) => Success(Max(0, DurationSeconds(Interval(slaStartedAt, Some(now)), now) - excluded))
  }

  method ComputeActiveElapsed(slaStartedAt: int, now: int, pauses: seq<Interval>, waits: seq<Interval>)
    returns (r: Result<nat>)
    ensures r == ActiveSeconds(slaStartedAt, now, pauses + waits)
  {
    var total := DurationSeconds(Interval(slaStartedAt, Some(now)), now);
    var excluded := UnionDuration(pauses + waits, now);
    match excluded
    case Failure(e) => return Failure(e);
    case Success(s) => return Success(Max(0, total - s));
  }

  ghost predicate Inside(xs: seq<Interval>, start: int, now: int) {
    && start <= now
    && forall x :: x in xs ==> start <= x.startedAt && Close(x, now).to <= now
  }

  /** Milliseconds of [start, now) covered by no interval. */
  ghost function ExactActive(xs: seq<Interval>, start: int, now: int): int {
    now - start - |Excluded(xs, now)|
  }

  lemma ExcludedInside(xs: seq<Interval>, start: int, now: int)
    requires Inside(xs, start, now)
    ensures Excluded(xs, now) <= Range(start, now)
    ensures ExactActive(xs, start, now) >= 0
  {
    forall t | t in Excluded(xs, now)
      ensures t in Range(start, now)
    {
      var i :| 0 <= i < |xs| && CoversInstant(xs[i], now, t);
      assert xs[i] in xs;
    }
    SubsetSize(Excluded(xs, now), Range(start, now));
  }

  /** When nothing leaves [start, now] no clamp applies, and flooring costs at most one second. */
  lemma ActivePlusExcludedIsTotal(xs: seq<Interval>, start: int, now: int)
    requires Inside(xs, start, now) && UnionSeconds(xs, now).Success?
    ensures
      var active := ActiveSeconds(start, now, xs).value;
      && active + UnionSeconds(xs, now).value == DurationSeconds(Interval(start, Some(now)), now)
      && ExactActive(xs, start, now) / 1000 <= active <= ExactActive(xs, start, now) / 1000 + 1
  {
    ExcludedInside(xs, start, now);
    if xs == [] {
      assert Excluded(xs, now) == {};
    }
  }

  function Seen(x: Interval, t: int): Interval {
    if x.endedAt.Some? && x.endedAt.value > t then x.(endedAt := None) else x
  }

  /** The intervals known at instant `t`: later ones are missing and later ends are still open. */
  ghost function AsOf(xs: seq<Interval>, t: int): seq<Interval> {
    if xs == [] then []
    else
      var rest, x := AsOf(xs[..|xs| - 1], t), xs[|xs| - 1];
      if x.startedAt <= t then rest + [Seen(x, t)] else rest
  }

  lemma {:induction false} AsOfHolds(xs: seq<Interval>, t: int, y: Interval)
    ensures y in AsOf(xs, t) <==> exists x :: x in xs && x.startedAt <= t && y == Seen(x, t)
  {
    if xs != [] {
      var n := |xs| - 1;
      AsOfHolds(xs[..n], t, y);
      assert xs == xs[..n] + [xs[n]];
    }
  }

  /** At `t` the interval was known and covered `e`. */
  ghost predicate KnownToCover(x: Interval, t: int, e: int) {
    x.startedAt <= t && CoversInstant(Seen(x, t), t, e)
  }

  ghost predicate SomeKnown(xs: seq<Interval>, t: int, e: int) {
    exists x :: x in xs && KnownToCover(x, t, e)
  }

  lemma SomeKnownPrefix(xs: seq<Interval>, t: int, e: int)
    requires xs != []
    ensures SomeKnown(xs, t, e) <==> SomeKnown(xs[..|xs| - 1], t, e) || KnownToCover(xs[|xs| - 1], t, e)
  {
    assert xs == xs[..|xs| - 1] + [xs[|xs| - 1]];
  }

  lemma {:induction false} CoveredByKnown(xs: seq<Interval>, t: int, e: int)
    ensures SomeCovers(AsOf(xs, t), t, e) <==> SomeKnown(xs, t, e)
  {
    if xs != [] {
      var n := |xs| - 1;
      CoveredByKnown(xs[..n], t, e);
      SomeKnownPrefix(xs, t, e);
      if xs[n].startedAt <= t {
        SomeCoversLast(AsOf(xs[..n], t), Seen(xs[n], t), t, e);
      }
    }
  }

  lemma SomeCoversLast(ys: seq<Interval>, y: Interval, now: int, e: int)
    ensures SomeCovers(ys + [y], now, e) <==> SomeCovers(ys, now, e) || CoversInstant(y, now, e)
  {
    SomeCoversPrefix(ys + [y], now, e);
    assert (ys + [y])[..|ys|] == ys;
  }

  lemma CoveredEarlier(xs: seq<Interval>, t: int, now: int, e: int)
    requires t <= now
    ensures SomeCovers(AsOf(xs, t), t, e) <==> SomeCovers(AsOf(xs, now), now, e) && e < t
  {
    CoveredByKnown(xs, t, e);
    CoveredByKnown(xs, now, e);
    if SomeKnown(xs, t, e) {
      var x :| x in xs && KnownToCover(x, t, e);
      assert KnownToCover(x, now, e);
    }
    if SomeKnown(xs, now, e) && e < t {
      var x :| x in xs && KnownToCover(x, now, e);
      assert KnownToCover(x, t, e);
    }
  }

  lemma ExcludedAsOf(xs: seq<Interval>, t: int, now: int)
    requires t <= now
    ensures forall e :: e in Excluded(AsOf(xs, t), t) <==> e in Excluded(AsOf(xs, now), now) && e < t
  {
    forall e
      ensures e in Excluded(AsOf(xs, t), t) <==> e in Excluded(AsOf(xs, now), now) && e < t
    {
      CoveredEarlier(xs, t, now, e);
    }
  }

  lemma EarlierIsInside(xs: seq<Interval>, start: int, t1: int, t2: int)
    requires start <= t1 <= t2 && Inside(AsOf(xs, t2), start, t2)
    ensures Inside(AsOf(xs, t1), start, t1)
  {
    forall y | y in AsOf(xs, t1)
      ensures start <= y.startedAt && Close(y, t1).to <= t1
    {
      AsOfHolds(xs, t1, y);
      var x :| x in xs && x.startedAt <= t1 && y == Seen(x, t1);
      AsOfHolds(xs, t2, Seen(x, t2));
    }
  }

  lemma GainedSize(e1: set<int>, e2: set<int>, t1: int, t2: int)
    requires t1 <= t2 && e1 <= e2 && forall e :: e in e2 ==> (e in e1 <==> e < t1)
    requires forall e :: e in e2 ==> e < t2
    ensures |e2| - |e1| <= t2 - t1
    ensures Range(t1, t2) <= e2 ==> |e2| - |e1| == t2 - t1
  {
    var gained := e2 - e1;
    assert e2 == e1 + gained && e1 !! gained;
    SubsetSize(gained, Range(t1, t2));
    if Range(t1, t2) <= e2 {
      assert gained == Range(t1, t2);
    }
  }

  /** Exact active time gained between two instants: what no interval covers in between. */
  lemma ExactGain(xs: seq<Interval>, start: int, t1: int, t2: int)
    requires start <= t1 <= t2
    requires Inside(AsOf(xs, t2), start, t2)
    ensures Inside(AsOf(xs, t1), start, t1)
    ensures ExactActive(AsOf(xs, t1), start, t1) <= ExactActive(AsOf(xs, t2), start, t2)
    ensures Range(t1, t2) <= Excluded(AsOf(xs, t2), t2) ==>
            ExactActive(AsOf(xs, t1), start, t1) == ExactActive(AsOf(xs, t2), start, t2)
  {
    EarlierIsInside(xs, start, t1, t2);
    var e1, e2 := Excluded(AsOf(xs, t1), t1), Excluded(AsOf(xs, t2), t2);
    ExcludedAsOf(xs, t1, t2);
    ExcludedInside(AsOf(xs, t2), start, t2);
    GainedSize(e1, e2, t1, t2);
  }

  /** Active time never runs backwards by more than the one second lost to flooring. */
  lemma ActiveNeverDropsMoreThanASecond(xs: seq<Interval>, start: int, t1: int, t2: int)
    requires start <= t1 <= t2 && Inside(AsOf(xs, t2), start, t2)
    requires UnionSeconds(AsOf(xs, t1), t1).Success? && UnionSeconds(AsOf(xs, t2), t2).Success?
    ensures ActiveSeconds(start, t1, AsOf(xs, t1)).value <= ActiveSeconds(start, t2, AsOf(xs, t2)).value + 1
  {
    ExactGain(xs, start, t1, t2);
    ActivePlusExcludedIsTotal(AsOf(xs, t1), start, t1);
    ActivePlusExcludedIsTotal(AsOf(xs, t2), start, t2);
  }

  /** While one interval covers [t1, t2] the active time stands still, up to one second. */
  lemma ActiveStandsStillWhilePaused(xs: seq<Interval>, start: int, t1: int, t2: int, pause: Interval)
    requires start <= t1 <= t2 && Inside(AsOf(xs, t2), start, t2)
    requires UnionSeconds(AsOf(xs, t1), t1).Success? && UnionSeconds(AsOf(xs, t2), t2).Success?
    requires pause in xs && pause.startedAt <= t1 && (pause.endedAt.Some? ==> t2 <= pause.endedAt.value)
    ensures
      var a1, a2 := ActiveSeconds(start, t1, AsOf(xs, t1)).value, ActiveSeconds(start, t2, AsOf(xs, t2)).value;
      -1 <= a2 - a1 <= 1
  {
    forall e | e in Range(t1, t2)
      ensures e in Excluded(AsOf(xs, t2), t2)
    {
      CoveredByKnown(xs, t2, e);
      assert KnownToCover(pause, t2, e);
    }
    ExactGain(xs, start, t1, t2);
    ActivePlusExcludedIsTotal(AsOf(xs, t1), start, t1);
    ActivePlusExcludedIsTotal(AsOf(xs, t2), start, t2);
  }

  function IsOverdue(status: WorkOrderStatus, slaSeconds: nat, active: nat): bool {
    (status == ASSIGNED || status == IN_PROGRESS) && active > slaSeconds
  }

  /** A work order over its limit by more than the flooring error stays overdue until its status leaves the open ones. */
  lemma OverdueIsStable(xs: seq<Interval>, start: int, t1: int, t2: int, s1: WorkOrderStatus, s2: WorkOrderStatus, sla: nat)
    requires start <= t1 <= t2 && Inside(AsOf(xs, t2), start, t2)
    requires UnionSeconds(AsOf(xs, t1), t1).Success? && UnionSeconds(AsOf(xs, t2), t2).Success?
    requires IsOverdue(s1, sla + 1, ActiveSeconds(start, t1, AsOf(xs, t1)).value)
    ensures IsOverdue(s2, sla, ActiveSeconds(start, t2, AsOf(xs, t2)).value) <==> s2 == ASSIGNED || s2 == IN_PROGRESS
  {
    ActiveNeverDropsMoreThanASecond(xs, start, t1, t2);
  }
}
