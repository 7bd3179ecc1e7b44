/** The mock client's statistics: the peak of served requests in flight, found by
    a sweep over their time spans, and its bound by the peak seen under the lock. */
module MockStats {
  import Lexicographic
  import opened Wrappers

  datatype Span = Span(start: real, end: real)

  datatype Event = Event(time: real, delta: int)

  // ---------------------------------------------------------------- definition

  predicate Covers(s: Span, t: real) { s.start <= t < s.end }

  function Ones(b: bool): nat { if b then 1 else 0 }

  /** How many spans contain the instant `t`; a span does not contain its end. */
  function Coverage(spans: seq<Span>, t: real): nat {
    if spans == [] then 0
    else Coverage(spans[..|spans| - 1], t) + Ones(Covers(spans[|spans| - 1], t))
  }

  /** `n` is the largest number of spans that contain a common instant. */
  ghost predicate PeakCoverage(spans: seq<Span>, n: int) {
    && (exists t :: Coverage(spans, t) == n)
    && (forall t :: Coverage(spans, t) <= n)
  }

  predicate Ordered(spans: seq<Span>) {
    forall i :: 0 <= i < |spans| ==> spans[i].start <= spans[i].end
  }

  // ---------------------------------------------------------------- the sort

  /** The key `(time, delta)`: at equal times ends come before starts. */
  predicate Before(x: Event, y: Event) {
    x.time < y.time || (x.time == y.time && x.delta <= y.delta)
  }

  predicate Sorted(events: seq<Event>) {
    forall i, j :: 0 <= i < j < |events| ==> Before(events[i], events[j])
  }

  /** What sorting by that key may return. */
  predicate SortOf(events: seq<Event>, original: seq<Event>) {
    Sorted(events) && multiset(events) == multiset(original)
  }

  function Insert(events: seq<Event>, e: Event): seq<Event>
    decreases events
  {
    if events == [] || Before(events[|events| - 1], e) then events + [e]
    else Insert(events[..|events| - 1], e) + [events[|events| - 1]]
  }

  lemma InsertLast(events: seq<Event>, e: Event)
    requires Sorted(events) && (events == [] || Before(events[|events| - 1], e))
    ensures Sorted(events + [e])
  {
  }

  lemma AllBefore(put: seq<Event>, front: seq<Event>, e: Event, last: Event)
    requires multiset(put) == multiset(front + [e]) && Sorted(front + [last]) && Before(e, last)
    ensures forall i :: 0 <= i < |put| ==> Before(put[i], last)
  {
    forall i | 0 <= i < |put| ensures Before(put[i], last) {
      assert put[i] in multiset(front + [e]);
      if put[i] != e {
        assert put[i] in front;
        var j :| 0 <= j < |front| && front[j] == put[i];
        assert Before((front + [last])[j], (front + [last])[|front|]);
      }
    }
  }

  lemma {:induction false} InsertSorts(events: seq<Event>, e: Event)
    requires Sorted(events)
    ensures SortOf(Insert(events, e), events + [e])
    decreases events
  {
    if events == [] || Before(events[|events| - 1], e) {
      InsertLast(events, e);
    } else {
      var front, last := events[..|events| - 1], events[|events| - 1];
      assert events == front + [last];
      InsertSorts(front, e);
      var put := Insert(front, e);
      AllBefore(put, front, e, last);
      assert multiset(put + [last]) == multiset(events + [e]);
    }
  }

  function SortEvents(events: seq<Event>): seq<Event> {
    if events == [] then [] else Insert(SortEvents(events[..|events| - 1]), events[|events| - 1])
  }

  lemma {:induction false} SortSorts(events: seq<Event>)
    ensures SortOf(SortEvents(events), events)
  {
    if events != [] {
      var front, e := events[..|events| - 1], events[|events| - 1];
      assert events == front + [e];
      SortSorts(front);
      InsertSorts(SortEvents(front), e);
    }
  }

  // ---------------------------------------------------------------- the sweep

  function Starts(spans: seq<Span>): seq<Event> {
    seq(|spans|, i requires 0 <= i < |spans| => Event(spans[i].start, 1))
  }

  function Ends(spans: seq<Span>): seq<Event> {
    seq(|spans|, i requires 0 <= i < |spans| => Event(spans[i].end, -1))
  }

  function Edges(spans: seq<Span>): seq<Event> { Starts(spans) + Ends(spans) }

  function Sum(events: seq<Event>): int {
    if events == [] then 0 else Sum(events[..|events| - 1]) + events[|events| - 1].delta
  }

  /** The largest running sum of the sweep, at least 0. */
  function PeakSum(events: seq<Event>): int {
    if events == [] then 0
    else
      var p := PeakSum(events[..|events| - 1]);
      if p < Sum(events) then Sum(events) else p
  }

  function Share(e: Event, t: real): int { if e.time <= t then e.delta else 0 }

  /** The deltas of the events at or before `t`. */
  function SumUpTo(events: seq<Event>, t: real): int {
    if events == [] then 0
    else SumUpTo(events[..|events| - 1], t) + Share(events[|events| - 1], t)
  }

  lemma {:induction false} SumUpToConcat(a: seq<Event>, b: seq<Event>, t: real)
    ensures SumUpTo(a + b, t) == SumUpTo(a, t) + SumUpTo(b, t)
    decreases b
  {
    if b == [] {
      assert a + b == a;
    } else {
      assert (a + b)[..|a + b| - 1] == a + b[..|b| - 1];
      SumUpToConcat(a, b[..|b| - 1], t);
    }
  }

  lemma SumUpToWithout(events: seq<Event>, k: nat, t: real)
    requires k < |events|
    ensures SumUpTo(events, t) == Share(events[k], t) + SumUpTo(events[..k] + events[k + 1..], t)
  {
    var e := events[k];
    SumUpToConcat(events[..k], events[k + 1..], t);
    SumUpToConcat(events[..k] + [e], events[k + 1..], t);
    SumUpToConcat(events[..k], [e], t);
    assert events == events[..k] + [e] + events[k + 1..];
    assert SumUpTo([e], t) == Share(e, t) by { assert [e][..0] == []; }
  }

  lemma {:induction false} SumUpToPermutation(a: seq<Event>, b: seq<Event>, t: real)
    requires multiset(a) == multiset(b)
    ensures SumUpTo(a, t) == SumUpTo(b, t)
    decreases |a|
  {
    if a == [] {
      assert |b| == |multiset(b)| == 0;
    } else {
      assert a[0] in multiset(b);
      var k :| 0 <= k < |b| && b[k] == a[0];
      hide SumUpTo, Share;
      Lexicographic.RemoveMatching(a, b, k);
      SumUpToPermutation(a[1..], b[..k] + b[k + 1..], t);
      SumUpToWithout(a, 0, t);
      SumUpToWithout(b, k, t);
      assert a[..0] + a[1..] == a[1..];
    }
  }

  /** At any instant the edges passed so far count the spans open there. */
  lemma {:induction false} EdgesCountCoverage(spans: seq<Span>, t: real)
    requires Ordered(spans)
    ensures SumUpTo(Edges(spans), t) == Coverage(spans, t)
  {
    SumUpToConcat(Starts(spans), Ends(spans), t);
    if spans != [] {
      var n := |spans| - 1;
      EdgesCountCoverage(spans[..n], t);
      SumUpToConcat(Starts(spans[..n]), Ends(spans[..n]), t);
      assert Starts(spans)[..n] == Starts(spans[..n]) && Ends(spans)[..n] == Ends(spans[..n]);
    }
  }

  /** The events at or before `t` are a prefix of the sorted list. */
  lemma {:induction false} UpToIsPrefix(events: seq<Event>, t: real) returns (k: nat)
    requires Sorted(events)
    ensures k <= |events| && Sum(events[..k]) == SumUpTo(events, t)
    ensures forall i :: 0 <= i < |events| ==> (events[i].time <= t <==> i < k)
    decreases events
  {
    if events == [] {
      k := 0;
    } else {
      var n := |events| - 1;
      k := UpToIsPrefix(events[..n], t);
      assert events[..n][..k] == events[..k];
      if events[n].time <= t {
        assert n > 0 ==> Before(events[n - 1], events[n]) && events[..n][n - 1].time <= t;
        k := n + 1;
        assert events[..k] == events;
      } else {
        assert forall i :: 0 <= i < n ==> events[i] == events[..n][i];
      }
    }
  }

  /** Right after a start, every other event of the same instant still to come is
      a start too. */
  lemma {:induction false} AfterStart(events: seq<Event>, i: nat, k: nat)
    requires Sorted(events) && 0 < i <= k <= |events| && events[i - 1].delta == 1
    requires forall j :: i <= j < k ==> events[j].time == events[i - 1].time
    requires forall j :: 0 <= j < |events| ==> events[j].delta == 1 || events[j].delta == -1
    ensures Sum(events[..i]) <= Sum(events[..k])
    decreases k
  {
    if i < k {
      assert Before(events[i - 1], events[k - 1]);
      AfterStart(events, i, k - 1);
      assert events[..k][..k - 1] == events[..k - 1];
    }
  }

  /** Every running sum is at most the count at some instant. */
  lemma {:induction false} PrefixBelow(events: seq<Event>, i: nat, bound: int)
    requires Sorted(events) && i <= |events| && 0 <= bound
    requires forall j :: 0 <= j < |events| ==> events[j].delta == 1 || events[j].delta == -1
    requires forall t :: SumUpTo(events, t) <= bound
    ensures Sum(events[..i]) <= bound
  {
    if i > 0 {
      assert events[..i][..i - 1] == events[..i - 1];
      if events[i - 1].delta == -1 {
        PrefixBelow(events, i - 1, bound);
      } else {
        var t := events[i - 1].time;
        var k := UpToIsPrefix(events, t);
        forall j | i <= j < k ensures events[j].time == t {
          assert Before(events[i - 1], events[j]);
        }
        AfterStart(events, i, k);
      }
    }
  }

  lemma {:induction false} PeakSumIsMax(events: seq<Event>)
    ensures PeakSum(events) >= 0
    ensures forall i :: 0 <= i <= |events| ==> Sum(events[..i]) <= PeakSum(events)
    ensures exists i :: 0 <= i <= |events| && PeakSum(events) == Sum(events[..i])
  {
    if events == [] {
      assert PeakSum(events) == Sum(events[..0]);
    } else {
      var front := events[..|events| - 1];
      PeakSumIsMax(front);
      assert forall i :: 0 <= i <= |front| ==> front[..i] == events[..i];
      assert events[..|events|] == events;
      if PeakSum(front) < Sum(events) {
        assert PeakSum(events) == Sum(events[..|events|]);
      } else {
        var i :| 0 <= i <= |front| && PeakSum(front) == Sum(front[..i]);
        assert PeakSum(events) == Sum(events[..i]);
      }
    }
  }

  lemma EdgeDeltas(events: seq<Event>, spans: seq<Span>)
    requires multiset(events) == multiset(Edges(spans))
    ensures forall j :: 0 <= j < |events| ==> events[j].delta == 1 || events[j].delta == -1
  {
    forall j | 0 <= j < |events| ensures events[j].delta == 1 || events[j].delta == -1 {
      assert events[j] in multiset(events);
      assert events[j] in Edges(spans);
    }
  }

  /** Whichever sorted order is taken, the largest running sum is the largest
      number of spans that contain a common instant. */
  lemma SweepFindsPeak(spans: seq<Span>, events: seq<Event>)
    requires Ordered(spans) && SortOf(events, Edges(spans))
    ensures PeakCoverage(spans, PeakSum(events))
  {
    PeakSumIsMax(events);
    EdgeDeltas(events, spans);
    forall t ensures Coverage(spans, t) == SumUpTo(events, t) <= PeakSum(events) {
      SumUpToPermutation(events, Edges(spans), t);
      EdgesCountCoverage(spans, t);
      var k := UpToIsPrefix(events, t);
    }
    if forall t :: Coverage(spans, t) < PeakSum(events) {
      var bound := PeakSum(events) - 1;
      assert Coverage(spans, 0.0) <= bound;
      forall i | 0 <= i <= |events| ensures Sum(events[..i]) <= bound {
        assert forall t :: SumUpTo(events, t) <= bound by {
          forall t ensures SumUpTo(events, t) <= bound { assert Coverage(spans, t) < PeakSum(events); }
        }
        PrefixBelow(events, i, bound);
      }
      assert false;
    }
  }

  /** Spans that only touch do not overlap. */
  lemma TouchingDoNotOverlap(a: Span, b: Span)
    requires a.start <= a.end == b.start <= b.end
    ensures PeakCoverage([a, b], if a.start < a.end || b.start < b.end then 1 else 0)
  {
    forall t ensures Coverage([a, b], t) == Ones(Covers(a, t)) + Ones(Covers(b, t)) {
      assert [a, b][..1] == [a] && [a][..0] == [];
      assert Coverage([a], t) == Coverage([], t) + Ones(Covers(a, t));
      assert Coverage([a, b], t) == Coverage([a], t) + Ones(Covers(b, t));
    }
    if a.start < a.end {
      assert Coverage([a, b], a.start) == 1;
    } else if b.start < b.end {
      assert Coverage([a, b], b.start) == 1;
    } else {
      assert Coverage([a, b], 0.0) == 0;
    }
  }

  lemma PeakOfSpans(spans: seq<Span>)
    ensures spans == [] ==> PeakSum(SortEvents(Edges(spans))) == 0
    ensures Ordered(spans) ==> PeakCoverage(spans, PeakSum(SortEvents(Edges(spans))))
  {
    hide SortEvents, PeakCoverage, Ordered;
    var events := SortEvents(Edges(spans));
    SortSorts(Edges(spans));
    if spans == [] {
      assert Edges(spans) == [];
      assert |events| == |multiset(events)| == 0;
    }
    if Ordered(spans) { SweepFindsPeak(spans, events); }
  }

  lemma SweepStart(events: seq<Event>)
    ensures Sum(events[..0]) == 0 && PeakSum(events[..0]) == 0
  {
  }

  lemma SweepTurn(events: seq<Event>, k: nat)
    requires k < |events|
    ensures Sum(events[..k + 1]) == Sum(events[..k]) + events[k].delta
    ensures PeakSum(events[..k + 1]) ==
            if Sum(events[..k + 1]) > PeakSum(events[..k]) then Sum(events[..k + 1]) else PeakSum(events[..k])
  {
    assert events[..k + 1][..k] == events[..k];
  }

  class Stats {
    var inflight: int
    var peakInflight: int
    var okSpans: seq<Span>

    constructor ()
      ensures inflight == 0 && peakInflight == 0 && okSpans == []
    {
      inflight, peakInflight, okSpans := 0, 0, [];
    }

    method Enter()
      modifies this`inflight, this`peakInflight
      ensures inflight == old(inflight) + 1
      ensures peakInflight >= old(peakInflight) && peakInflight >= inflight
      ensures peakInflight == old(peakInflight) || peakInflight == inflight
    {
      inflight := inflight + 1;
      peakInflight := if inflight > peakInflight then inflight else peakInflight;
    }

    method Leave(status: int, started: real, ended: real)
      modifies this`inflight, this`okSpans
      ensures inflight == old(inflight) - 1
      ensures okSpans == old(okSpans) + if status == 200 then [Span(started, ended)] else []
    {
      if status == 200 {
        okSpans := okSpans + [Span(started, ended)];
      }
      inflight := inflight - 1;
    }

    /** The sweep; the caller holds the lock. */
    method PeakAccepted() returns (peak: int)
      ensures okSpans == [] ==> peak == 0
      ensures peak == PeakSum(SortEvents(Edges(okSpans)))
      ensures Ordered(okSpans) ==> PeakCoverage(okSpans, peak)
    {
      hide SortEvents, Edges, Ordered, PeakCoverage, Sum, PeakSum;
      PeakOfSpans(okSpans);
      peak := 0;
      if okSpans == [] {
        return;
      }
      var events := SortEvents(Edges(okSpans));
      var cur := 0;
      SweepStart(events);
      for k := 0 to |events|
        invariant cur == Sum(events[..k]) && peak == PeakSum(events[..k])
      {
        SweepTurn(events, k);
        cur := cur + events[k].delta;
        peak := if cur > peak then cur else peak;
      }
      assert events[..|events|] == events;
    }
  }

  // ---------------------------------------------------------------- concurrent workers

  /** Where a worker is around one request: the two clock readings lie between
      its `enter` and its `leave`. */
  datatype Worker = Outside | Entered | Started(start: real) | Stopped(start: real, end: real)

  datatype World = World(
    now: real, inflight: int, peakInflight: int, okSpans: seq<Span>, workers: seq<Worker>)

  datatype Action =
    | Tick(now: real)
    | Enter(w: nat) | ReadStart(w: nat) | ReadEnd(w: nat) | Leave(w: nat, ok: bool)

  function Step(s: World, a: Action): Option<World> {
    match a
    case Tick(now) => if now < s.now then None else Some(s.(now := now))
    case Enter(w) =>
      if w >= |s.workers| || s.workers[w] != Outside then None
      else
        var n := s.inflight + 1;
        Some(s.(workers := s.workers[w := Entered], inflight := n,
                peakInflight := if n > s.peakInflight then n else s.peakInflight))
    case ReadStart(w) =>
      if w >= |s.workers| || s.workers[w] != Entered then None
      else Some(s.(workers := s.workers[w := Started(s.now)]))
    case ReadEnd(w) =>
      if w >= |s.workers| || !s.workers[w].Started? then None
      else Some(s.(workers := s.workers[w := Stopped(s.workers[w].start, s.now)]))
    case Leave(w, ok) =>
      if w >= |s.workers| || !s.workers[w].Stopped? then None
      else
        var span := Span(s.workers[w].start, s.workers[w].end);
        Some(s.(workers := s.workers[w := Outside], inflight := s.inflight - 1,
                okSpans := s.okSpans + if ok then [span] else []))
  }

  function Exec(s: World, acts: seq<Action>): Option<World>
    decreases acts
  {
    if acts == [] then Some(s)
    else
      var t := Step(s, acts[0]);
      if t.None? then None else Exec(t.value, acts[1..])
  }

  function Init(workerCount: nat, now: real): World {
    World(now, 0, 0, [], seq(workerCount, i => Outside))
  }

  function Inside(workers: seq<Worker>): nat {
    if workers == [] then 0 else Inside(workers[1..]) + Ones(!workers[0].Outside?)
  }

  /** The request of `w` is, or may turn out to be, in flight at `t`. */
  predicate Occupies(w: Worker, t: real) {
    match w
    case Started(start) => start <= t
    case Stopped(start, end) => start <= t < end
    case _ => false
  }

  function Occupied(workers: seq<Worker>, t: real): nat {
    if workers == [] then 0 else Occupied(workers[1..], t) + Ones(Occupies(workers[0], t))
  }

  predicate Past(w: Worker, now: real) {
    match w
    case Started(start) => start <= now
    case Stopped(start, end) => start <= end <= now
    case _ => true
  }

  ghost predicate Inv(s: World) {
    && s.inflight == Inside(s.workers) <= s.peakInflight
    && (forall i :: 0 <= i < |s.workers| ==> Past(s.workers[i], s.now))
    && (forall i :: 0 <= i < |s.okSpans| ==> s.okSpans[i].start <= s.okSpans[i].end <= s.now)
    && (forall t :: Coverage(s.okSpans, t) + Occupied(s.workers, t) <= s.peakInflight)
  }

  lemma {:induction false} InsideUpdate(workers: seq<Worker>, i: nat, w: Worker)
    requires i < |workers|
    ensures Inside(workers[i := w]) + Ones(!workers[i].Outside?) == Inside(workers) + Ones(!w.Outside?)
  {
    if i > 0 {
      assert workers[i := w][1..] == workers[1..][i - 1 := w];
      InsideUpdate(workers[1..], i - 1, w);
    } else {
      assert workers[i := w][1..] == workers[1..];
    }
  }

  lemma {:induction false} OccupiedUpdate(workers: seq<Worker>, i: nat, w: Worker, t: real)
    requires i < |workers|
    ensures Occupied(workers[i := w], t) + Ones(Occupies(workers[i], t)) == Occupied(workers, t) + Ones(Occupies(w, t))
  {
    if i > 0 {
      assert workers[i := w][1..] == workers[1..][i - 1 := w];
      OccupiedUpdate(workers[1..], i - 1, w, t);
    } else {
      assert workers[i := w][1..] == workers[1..];
    }
  }

  lemma {:induction false} OccupiedIsInside(workers: seq<Worker>, t: real)
    ensures Occupied(workers, t) <= Inside(workers)
  {
    if workers != [] { OccupiedIsInside(workers[1..], t); }
  }

  lemma {:induction false} NothingServedYet(spans: seq<Span>, t: real)
    requires forall i :: 0 <= i < |spans| ==> spans[i].end <= t
    ensures Coverage(spans, t) == 0
  {
    if spans != [] { NothingServedYet(spans[..|spans| - 1], t); }
  }

  lemma CoverLast(spans: seq<Span>, span: Span, t: real)
    ensures Coverage(spans + [span], t) == Coverage(spans, t) + Ones(Covers(span, t))
  {
    assert (spans + [span])[..|spans|] == spans;
  }

  /** A clock reading begins a span: before it nothing is covered that was not, and
      from then on only the workers inside can cover anything. */
  lemma StartKeepsCover(s: World, w: nat, t: real)
    requires Inv(s) && w < |s.workers| && s.workers[w] == Entered
    ensures Coverage(s.okSpans, t) + Occupied(s.workers[w := Started(s.now)], t) <= s.peakInflight
  {
    var workers := s.workers[w := Started(s.now)];
    OccupiedUpdate(s.workers, w, Started(s.now), t);
    OccupiedIsInside(workers, t);
    InsideUpdate(s.workers, w, Started(s.now));
    hide Coverage, Occupied, Inside;
    if t >= s.now { NothingServedYet(s.okSpans, t); }
  }

  lemma LeaveKeepsCover(s: World, w: nat, ok: bool, t: real)
    requires Inv(s) && w < |s.workers| && s.workers[w].Stopped?
    ensures var span := Span(s.workers[w].start, s.workers[w].end);
            Coverage(s.okSpans + (if ok then [span] else []), t) + Occupied(s.workers[w := Outside], t) <= s.peakInflight
  {
    OccupiedUpdate(s.workers, w, Outside, t);
    CoverLast(s.okSpans, Span(s.workers[w].start, s.workers[w].end), t);
    assert s.okSpans + [] == s.okSpans;
    hide Coverage, Occupied, Inside;
    assert Coverage(s.okSpans, t) + Occupied(s.workers, t) <= s.peakInflight;
  }

  lemma StepKeepsCover(s: World, a: Action, t: real)
    requires Inv(s) && Step(s, a).Some?
    ensures var u := Step(s, a).value; Coverage(u.okSpans, t) + Occupied(u.workers, t) <= u.peakInflight
  {
    var u := Step(s, a).value;
    hide Coverage, Occupied, Inside;
    assert Coverage(s.okSpans, t) + Occupied(s.workers, t) <= s.peakInflight;
    match a {
      case Tick(_) =>
      case ReadStart(w) => StartKeepsCover(s, w, t);
      case Leave(w, ok) => LeaveKeepsCover(s, w, ok, t);
      case _ => OccupiedUpdate(s.workers, a.w, u.workers[a.w], t);
    }
  }

  lemma StepKeepsInv(s: World, a: Action)
    requires Inv(s) && Step(s, a).Some?
    ensures Inv(Step(s, a).value)
  {
    if !a.Tick? { InsideUpdate(s.workers, a.w, Step(s, a).value.workers[a.w]); }
    forall t ensures var u := Step(s, a).value; Coverage(u.okSpans, t) + Occupied(u.workers, t) <= u.peakInflight {
      StepKeepsCover(s, a, t);
    }
  }

  lemma {:induction false} NobodyInside(workers: seq<Worker>)
    requires forall i :: 0 <= i < |workers| ==> workers[i] == Outside
    ensures Inside(workers) == 0 && forall t :: Occupied(workers, t) == 0
  {
    if workers != [] { NobodyInside(workers[1..]); }
  }

  lemma {:induction false} ExecKeepsInv(s: World, acts: seq<Action>)
    requires Inv(s) && Exec(s, acts).Some?
    ensures Inv(Exec(s, acts).value)
    decreases acts
  {
    hide Inv, Step;
    if acts != [] {
      StepKeepsInv(s, acts[0]);
      ExecKeepsInv(Step(s, acts[0]).value, acts[1..]);
    }
  }

  /** Over every interleaving of any number of workers with a clock that never
      goes back, the peak of served requests reported from the spans is at most
      the peak of requests counted under the lock. */
  lemma AcceptedAtMostInflight(workerCount: nat, now: real, acts: seq<Action>, s: World, peak: int)
    requires Exec(Init(workerCount, now), acts) == Some(s)
    requires PeakCoverage(s.okSpans, peak)
    ensures Ordered(s.okSpans) && 0 <= peak <= s.peakInflight
  {
    NobodyInside(Init(workerCount, now).workers);
    ExecKeepsInv(Init(workerCount, now), acts);
    var t :| Coverage(s.okSpans, t) == peak;
  }

  // ---------------------------------------------------------------- what the counters are

  lemma {:induction false} ExecSnoc(s: World, acts: seq<Action>, a: Action)
    ensures Exec(s, acts + [a]) == if Exec(s, acts).None? then None else Step(Exec(s, acts).value, a)
    decreases |acts|
  {
    hide Step;
    if acts == [] {
      assert [a][1..] == [] && acts + [a] == [a];
    } else {
      assert (acts + [a])[1..] == acts[1..] + [a];
      if Step(s, acts[0]).Some? { ExecSnoc(Step(s, acts[0]).value, acts[1..], a); }
    }
  }

  /** How many requests a run has sent, how many have ended, how many were served. */
  function Sent(acts: seq<Action>): nat {
    if acts == [] then 0 else Sent(acts[..|acts| - 1]) + Ones(acts[|acts| - 1].Enter?)
  }

  function EndedCount(acts: seq<Action>): nat {
    if acts == [] then 0 else EndedCount(acts[..|acts| - 1]) + Ones(acts[|acts| - 1].Leave?)
  }

  function Served(acts: seq<Action>): nat {
    if acts == [] then 0
    else Served(acts[..|acts| - 1]) + Ones(acts[|acts| - 1].Leave? && acts[|acts| - 1].ok)
  }

  /** What the clock showed at the end of a run that began at `now`. */
  function Clock(now: real, acts: seq<Action>): real {
    if acts == [] then now
    else if acts[|acts| - 1].Tick? then acts[|acts| - 1].now
    else Clock(now, acts[..|acts| - 1])
  }

  /** `n` is the largest number of requests in flight at any moment of the run. */
  ghost predicate PeakOf(acts: seq<Action>, n: int) {
    && (forall k :: 0 <= k <= |acts| ==> Sent(acts[..k]) - EndedCount(acts[..k]) <= n)
    && (exists k :: 0 <= k <= |acts| && Sent(acts[..k]) - EndedCount(acts[..k]) == n)
  }

  lemma PeakSnoc(acts: seq<Action>, a: Action, n: int)
    requires PeakOf(acts, n)
    ensures var all := acts + [a];
            var last := Sent(all) - EndedCount(all);
            PeakOf(all, if last > n then last else n)
  {
    hide Sent, EndedCount;
    var all := acts + [a];
    assert all[..|all|] == all;
    forall k | 0 <= k <= |acts| ensures all[..k] == acts[..k] {}
    var k :| 0 <= k <= |acts| && Sent(acts[..k]) - EndedCount(acts[..k]) == n;
    assert all[..k] == acts[..k];
  }

  lemma CountSnoc(now: real, acts: seq<Action>, a: Action)
    ensures var all := acts + [a];
            && Sent(all) == Sent(acts) + Ones(a.Enter?) && EndedCount(all) == EndedCount(acts) + Ones(a.Leave?)
            && Served(all) == Served(acts) + Ones(a.Leave? && a.ok)
            && Clock(now, all) == if a.Tick? then a.now else Clock(now, acts)
  {
    var all := acts + [a];
    assert all[..|all| - 1] == acts && all[|all| - 1] == a;
  }

  ghost predicate CountInv(now: real, acts: seq<Action>, s: World) {
    && s.now == Clock(now, acts) && s.inflight == Sent(acts) - EndedCount(acts)
    && |s.okSpans| == Served(acts) && PeakOf(acts, s.peakInflight)
  }

  lemma CountStep(now: real, acts: seq<Action>, s: World, a: Action)
    requires CountInv(now, acts, s) && Step(s, a).Some?
    ensures CountInv(now, acts + [a], Step(s, a).value)
  {
    CountSnoc(now, acts, a);
    PeakSnoc(acts, a, s.peakInflight);
    hide Sent, EndedCount, Served, Clock, PeakOf;
    PeakAtLeast(acts, s.peakInflight);
  }

  lemma PeakAtLeast(acts: seq<Action>, n: int)
    requires PeakOf(acts, n)
    ensures Sent(acts) - EndedCount(acts) <= n
  {
    assert acts[..|acts|] == acts;
  }

  lemma {:induction false} CountRun(workerCount: nat, now: real, acts: seq<Action>)
    requires Exec(Init(workerCount, now), acts).Some?
    ensures CountInv(now, acts, Exec(Init(workerCount, now), acts).value)
    decreases |acts|
  {
    if acts == [] {
      assert acts[..0] == [];
    } else {
      var n := |acts| - 1;
      assert acts == acts[..n] + [acts[n]];
      ExecSnoc(Init(workerCount, now), acts[..n], acts[n]);
      hide CountInv, Exec, Step;
      CountRun(workerCount, now, acts[..n]);
      CountStep(now, acts[..n], Exec(Init(workerCount, now), acts[..n]).value, acts[n]);
    }
  }

  /** Over every run: in flight are the requests sent less those ended; the peak is
      the largest such number at any moment of the run, no more and no less; and
      each served request has left one span. */
  lemma CountersExact(workerCount: nat, now: real, acts: seq<Action>, s: World)
    requires Exec(Init(workerCount, now), acts) == Some(s)
    ensures s.inflight == Sent(acts) - EndedCount(acts)
    ensures PeakOf(acts, s.peakInflight)
    ensures |s.okSpans| == Served(acts)
  {
    CountRun(workerCount, now, acts);
  }

  // ---------------------------------------------------------------- where spans come from

  predicate Of(a: Action, w: nat) { !a.Tick? && a.w == w }

  /** Worker `w` read its start at step `i` and has done nothing since. */
  predicate ReadAt(now: real, acts: seq<Action>, w: nat, start: real, i: nat) {
    && i < |acts| && acts[i] == ReadStart(w) && Clock(now, acts[..i]) == start
    && forall m :: i < m < |acts| ==> !Of(acts[m], w)
  }

  /** Worker `w` read its start at step `i`, its end at step `j`, and did nothing
      else from the one to the other. */
  predicate ReadsAt(now: real, acts: seq<Action>, w: nat, start: real, end: real, i: nat, j: nat) {
    && i < j < |acts| && acts[j] == ReadEnd(w) && Clock(now, acts[..j]) == end
    && ReadAt(now, acts[..j], w, start, i)
  }

  /** The span of a served request: what one worker's clock showed before and
      after it, with nothing else of that worker in between. */
  ghost predicate SpanOf(now: real, acts: seq<Action>, span: Span) {
    exists w, i, j, k ::
      && ReadsAt(now, acts, w, span.start, span.end, i, j)
      && ServedAt(acts, w, j, k)
  }

  predicate ServedAt(acts: seq<Action>, w: nat, j: nat, k: nat) {
    j < k < |acts| && acts[k] == Leave(w, true) && forall m :: j < m < k ==> !Of(acts[m], w)
  }

  ghost predicate WorkerInv(now: real, acts: seq<Action>, w: nat, worker: Worker) {
    match worker
    case Started(start) => exists i :: ReadAt(now, acts, w, start, i)
    case Stopped(start, end) => exists i, j :: ReadsAt(now, acts, w, start, end, i, j) && Idle(acts, w, j)
    case _ => true
  }

  predicate Idle(acts: seq<Action>, w: nat, j: nat) { forall m :: j < m < |acts| ==> !Of(acts[m], w) }

  lemma ReadAtLater(now: real, acts: seq<Action>, a: Action, w: nat, start: real, i: nat)
    requires ReadAt(now, acts, w, start, i) && !Of(a, w)
    ensures ReadAt(now, acts + [a], w, start, i)
  {
    assert (acts + [a])[..i] == acts[..i];
    hide Clock;
  }

  lemma ReadsAtLater(now: real, acts: seq<Action>, a: Action, w: nat, start: real, end: real, i: nat, j: nat)
    requires ReadsAt(now, acts, w, start, end, i, j)
    ensures ReadsAt(now, acts + [a], w, start, end, i, j)
  {
    assert (acts + [a])[..j] == acts[..j];
    hide Clock, ReadAt;
  }

  lemma SpanLater(now: real, acts: seq<Action>, a: Action, span: Span)
    requires SpanOf(now, acts, span)
    ensures SpanOf(now, acts + [a], span)
  {
    var w, i, j, k :| ReadsAt(now, acts, w, span.start, span.end, i, j) && ServedAt(acts, w, j, k);
    ReadsAtLater(now, acts, a, w, span.start, span.end, i, j);
    hide ReadsAt;
    assert ServedAt(acts + [a], w, j, k);
  }

  /** A worker that does nothing is where it was. */
  lemma WorkerRests(now: real, acts: seq<Action>, a: Action, w: nat, worker: Worker)
    requires WorkerInv(now, acts, w, worker) && !Of(a, w)
    ensures WorkerInv(now, acts + [a], w, worker)
  {
    match worker {
      case Started(start) =>
        var i: nat :| ReadAt(now, acts, w, start, i);
        ReadAtLater(now, acts, a, w, start, i);
        hide ReadAt;
      case Stopped(start, end) =>
        var i: nat, j: nat :| ReadsAt(now, acts, w, start, end, i, j) && Idle(acts, w, j);
        ReadsAtLater(now, acts, a, w, start, end, i, j);
        hide ReadsAt;
        assert Idle(acts + [a], w, j);
      case _ =>
    }
  }

  lemma WorkerReadsStart(now: real, acts: seq<Action>, w: nat)
    ensures WorkerInv(now, acts + [ReadStart(w)], w, Started(Clock(now, acts)))
  {
    var all := acts + [ReadStart(w)];
    assert all[..|acts|] == acts;
    hide Clock;
    assert ReadAt(now, all, w, Clock(now, acts), |acts|);
  }

  lemma WorkerReadsEnd(now: real, acts: seq<Action>, w: nat, start: real)
    requires WorkerInv(now, acts, w, Started(start))
    ensures WorkerInv(now, acts + [ReadEnd(w)], w, Stopped(start, Clock(now, acts)))
  {
    var i: nat :| ReadAt(now, acts, w, start, i);
    var all := acts + [ReadEnd(w)];
    assert all[..|acts|] == acts;
    assert i < |acts|;
    hide Clock, ReadAt;
    assert ReadsAt(now, all, w, start, Clock(now, acts), i, |acts|) && Idle(all, w, |acts|);
  }

  lemma WorkerIsServed(now: real, acts: seq<Action>, w: nat, start: real, end: real)
    requires WorkerInv(now, acts, w, Stopped(start, end))
    ensures SpanOf(now, acts + [Leave(w, true)], Span(start, end))
  {
    var i: nat, j: nat :| ReadsAt(now, acts, w, start, end, i, j) && Idle(acts, w, j);
    assert j < |acts|;
    ReadsAtLater(now, acts, Leave(w, true), w, start, end, i, j);
    hide ReadsAt;
    assert ServedAt(acts + [Leave(w, true)], w, j, |acts|);
  }

  ghost predicate ReadingInv(now: real, acts: seq<Action>, s: World) {
    && (forall w :: 0 <= w < |s.workers| ==> WorkerInv(now, acts, w, s.workers[w]))
    && (forall n :: 0 <= n < |s.okSpans| ==> SpanOf(now, acts, s.okSpans[n]))
  }

  lemma ReadingStep(now: real, acts: seq<Action>, s: World, a: Action)
    requires ReadingInv(now, acts, s) && s.now == Clock(now, acts) && Step(s, a).Some?
    ensures ReadingInv(now, acts + [a], Step(s, a).value)
  {
    hide WorkerInv, SpanOf, Clock;
    var t := Step(s, a).value;
    forall w | 0 <= w < |t.workers| ensures WorkerInv(now, acts + [a], w, t.workers[w]) {
      if !Of(a, w) {
        WorkerRests(now, acts, a, w, s.workers[w]);
      } else {
        match a {
          case ReadStart(_) => WorkerReadsStart(now, acts, w);
          case ReadEnd(_) => WorkerReadsEnd(now, acts, w, s.workers[w].start);
          case Enter(_) => NotReading(now, acts + [a], w, t.workers[w]);
          case Leave(_, _) => NotReading(now, acts + [a], w, t.workers[w]);
          case Tick(_) =>
        }
      }
    }
    forall n | 0 <= n < |t.okSpans| ensures SpanOf(now, acts + [a], t.okSpans[n]) {
      if n < |s.okSpans| {
        SpanLater(now, acts, a, s.okSpans[n]);
      } else {
        WorkerIsServed(now, acts, a.w, s.workers[a.w].start, s.workers[a.w].end);
      }
    }
  }

  lemma NotReading(now: real, acts: seq<Action>, w: nat, worker: Worker)
    requires worker.Outside? || worker.Entered?
    ensures WorkerInv(now, acts, w, worker)
  {}

  lemma {:induction false} ReadingRun(workerCount: nat, now: real, acts: seq<Action>)
    requires Exec(Init(workerCount, now), acts).Some?
    ensures ReadingInv(now, acts, Exec(Init(workerCount, now), acts).value)
    decreases |acts|
  {
    if acts != [] {
      var n := |acts| - 1;
      assert acts == acts[..n] + [acts[n]];
      ExecSnoc(Init(workerCount, now), acts[..n], acts[n]);
      hide ReadingInv, CountInv, Exec, Step;
      ReadingRun(workerCount, now, acts[..n]);
      var s := Exec(Init(workerCount, now), acts[..n]).value;
      CountRun(workerCount, now, acts[..n]);
      ClockOf(now, acts[..n], s);
      ReadingStep(now, acts[..n], s, acts[n]);
    }
  }

  lemma ClockOf(now: real, acts: seq<Action>, s: World)
    requires CountInv(now, acts, s)
    ensures s.now == Clock(now, acts)
  {}

  /** Over every run each recorded span is what the clock showed when one worker
      began and ended a request that was then served. */
  lemma SpansAreReadings(workerCount: nat, now: real, acts: seq<Action>, s: World, n: nat)
    requires Exec(Init(workerCount, now), acts) == Some(s) && n < |s.okSpans|
    ensures SpanOf(now, acts, s.okSpans[n])
  {
    ReadingRun(workerCount, now, acts);
  }
}
