/** The session-relative timeline of `/asr/stream`.

    With speaker embedding on, the handler buffers the audio of the current
    utterance in `_seg` and counts every sample in `_t_samples`.  Each final
    carries the window of its utterance.  Resets, endpoints and backpressure all
    clear the buffer, on different paths. */
module SegmentTimeline {
  import opened Wrappers

  type Samples = seq<int>

  /** What follows one audio frame: nothing, an utterance ended by the frontend
      VAD (finalized, rejected for backpressure, or finalized for a client that
      is gone), or an endpoint of the backend. */
  datatype AfterAudio = Nothing | VadFinal | VadBusy | VadUnsent | BackendFinal

  datatype Event =
    | Audio(samples: Samples, after: AfterAudio)
    | Reset
    | EndUtterance(busy: bool)
    | EndOfAudio(busy: bool)

  /** A stretch of the timeline: the utterance of a final, or audio thrown away. */
  datatype Piece = Final(start: nat, end: nat) | Dropped(start: nat, end: nat)

  /** `heard` is all audio ever received, `pieces` what became of it. */
  datatype View = View(seg: seq<Samples>, heard: Samples, pieces: seq<Piece>, closed: bool)

  const INIT := View([], [], [], false)

  function Concat(seg: seq<Samples>): Samples {
    if seg == [] then [] else Concat(seg[..|seg| - 1]) + seg[|seg| - 1]
  }

  function TotalLength(seg: seq<Samples>): nat {
    if seg == [] then 0 else |seg[0]| + TotalLength(seg[1..])
  }

  lemma {:induction false} TotalLengthSnoc(seg: seq<Samples>, samples: Samples)
    ensures TotalLength(seg + [samples]) == TotalLength(seg) + |samples|
  {
    if seg != [] {
      assert (seg + [samples])[1..] == seg[1..] + [samples];
      TotalLengthSnoc(seg[1..], samples);
    }
  }

  lemma {:induction false} TotalLengthIsConcat(seg: seq<Samples>)
    ensures TotalLength(seg) == |Concat(seg)|
  {
    if seg != [] {
      TotalLengthIsConcat(seg[..|seg| - 1]);
      TotalLengthSnoc(seg[..|seg| - 1], seg[|seg| - 1]);
      assert seg == seg[..|seg| - 1] + [seg[|seg| - 1]];
    }
  }

  /** The audio buffered now, as a stretch of the timeline. */
  function Start(v: View): int { |v.heard| - |Concat(v.seg)| }

  function Finalize(v: View): View
    requires 0 <= Start(v)
  {
    v.(pieces := v.pieces + [Final(Start(v), |v.heard|)], seg := [])
  }

  function Discard(v: View): View
    requires 0 <= Start(v)
  {
    v.(pieces := v.pieces + [Dropped(Start(v), |v.heard|)], seg := [])
  }

  function Hear(v: View, samples: Samples): View {
    v.(seg := v.seg + [samples], heard := v.heard + samples)
  }

  function Next(v: View, e: Event): View
    requires Tiles(v)
  {
    if v.closed then v
    else
      match e
      case Audio(samples, after) =>
        HearKeepsTiles(v, samples);
        (match after
         case Nothing => Hear(v, samples)
         case VadFinal => Finalize(Hear(v, samples))
         case VadBusy => Discard(Hear(v, samples))
         case VadUnsent => Hear(v, samples).(closed := true)
         case BackendFinal => Finalize(Hear(v, samples)))
      case Reset => Discard(v)
      case EndUtterance(busy) => if busy then Discard(v) else Finalize(v)
      case EndOfAudio(busy) => if busy then v.(closed := true) else Finalize(v).(closed := true)
  }

  /** The pieces and the open buffer tile the timeline without gap or overlap,
      and the buffer holds exactly the audio of its stretch. */
  predicate Tiles(v: View) {
    && (forall k :: 0 <= k < |v.pieces| ==> v.pieces[k].start <= v.pieces[k].end <= |v.heard|)
    && (v.pieces != [] ==> v.pieces[0].start == 0)
    && (forall k :: 0 <= k < |v.pieces| - 1 ==> v.pieces[k].end == v.pieces[k + 1].start)
    && Start(v) == (if v.pieces == [] then 0 else v.pieces[|v.pieces| - 1].end)
    && Concat(v.seg) == v.heard[Start(v)..]
  }

  lemma HearKeepsTiles(v: View, samples: Samples)
    requires Tiles(v)
    ensures Tiles(Hear(v, samples)) && Start(Hear(v, samples)) == Start(v)
  {
    var w := Hear(v, samples);
    assert w.seg[..|v.seg|] == v.seg;
    assert w.heard[Start(v)..] == v.heard[Start(v)..] + samples;
  }

  lemma CutKeepsTiles(v: View, piece: Piece)
    requires Tiles(v) && piece.start == Start(v) && piece.end == |v.heard|
    ensures Tiles(v.(pieces := v.pieces + [piece], seg := []))
  {
    assert v.heard[|v.heard|..] == [];
  }

  lemma CloseKeepsTiles(v: View)
    requires Tiles(v)
    ensures Tiles(v.(closed := true))
  {}

  lemma NextKeepsTiles(v: View, e: Event)
    requires Tiles(v)
    ensures Tiles(Next(v, e))
  {
    hide Tiles, Start, Concat;
    if !v.closed {
      if e.Audio? { HearKeepsTiles(v, e.samples); }
      var w := if e.Audio? then Hear(v, e.samples) else v;
      StartInRange(w);
      EndsKeepTiles(w);
      hide Finalize, Discard, Hear;
    }
  }

  lemma StartInRange(v: View)
    requires Tiles(v)
    ensures 0 <= Start(v)
  {
  }

  /** However a stretch ends, the tiling is kept. */
  lemma EndsKeepTiles(w: View)
    requires Tiles(w)
    ensures Tiles(Finalize(w)) && Tiles(Discard(w))
    ensures Tiles(w.(closed := true)) && Tiles(Finalize(w).(closed := true))
  {
    CutKeepsTiles(w, Final(Start(w), |w.heard|));
    CutKeepsTiles(w, Dropped(Start(w), |w.heard|));
    hide Start, Concat;
    CloseKeepsTiles(w);
    CloseKeepsTiles(Finalize(w));
    hide Tiles;
  }

  function Run(events: seq<Event>): (v: View)
    ensures Tiles(v)
  {
    if events == [] then INIT
    else
      var v := Run(events[..|events| - 1]);
      NextKeepsTiles(v, events[|events| - 1]);
      Next(v, events[|events| - 1])
  }

  // ---------------------------------------------------------------- results

  predicate Covers(p: Piece, t: int) { p.start <= t < p.end }

  lemma {:induction false} PiecesAscend(v: View, i: nat, j: nat)
    requires Tiles(v) && i < j < |v.pieces|
    ensures v.pieces[i].end <= v.pieces[j].start
    decreases j
  {
    if i + 1 < j { PiecesAscend(v, i, j - 1); }
  }

  /** Over any run of audio, resets, end-of-utterance commands, rejections and
      endpoints, the windows of successive finals are ordered and disjoint. */
  lemma FinalsAreDisjoint(events: seq<Event>, i: nat, j: nat)
    requires var v := Run(events); i < j < |v.pieces| && v.pieces[i].Final? && v.pieces[j].Final?
    ensures var v := Run(events); v.pieces[i].end <= v.pieces[j].start
  {
    PiecesAscend(Run(events), i, j);
  }

  lemma {:induction false} SomePieceCovers(v: View, t: nat, n: nat)
    requires Tiles(v) && n <= |v.pieces|
    requires t < if n == 0 then 0 else v.pieces[n - 1].end
    ensures exists k :: 0 <= k < n && Covers(v.pieces[k], t)
    decreases n
  {
    if Covers(v.pieces[n - 1], t) {
    } else {
      SomePieceCovers(v, t, n - 1);
    }
  }

  /** Every sample received is accounted for exactly once: it belongs to the
      window of one final, or to one stretch dropped by a reset or a rejection,
      or it is still buffered.  So the gaps between finals are exactly the audio
      dropped. */
  lemma EverySampleOnce(events: seq<Event>, t: nat)
    requires t < |Run(events).heard|
    ensures var v := Run(events);
            if Start(v) <= t then forall k :: 0 <= k < |v.pieces| ==> !Covers(v.pieces[k], t)
            else exists k :: 0 <= k < |v.pieces| && Covers(v.pieces[k], t)
                             && forall m :: 0 <= m < |v.pieces| && m != k ==> !Covers(v.pieces[m], t)
  {
    var v := Run(events);
    if Start(v) <= t {
      forall k | 0 <= k < |v.pieces| ensures !Covers(v.pieces[k], t) {
        if k + 1 < |v.pieces| { PiecesAscend(v, k, |v.pieces| - 1); }
      }
    } else {
      SomePieceCovers(v, t, |v.pieces|);
      var k :| 0 <= k < |v.pieces| && Covers(v.pieces[k], t);
      forall m | 0 <= m < |v.pieces| && m != k ensures !Covers(v.pieces[m], t) {
        if m < k { PiecesAscend(v, m, k); } else { PiecesAscend(v, k, m); }
      }
    }
  }

  /** A final's window is the stretch of the received audio that was buffered for
      it, no longer and no shorter. */
  lemma FinalWindowIsItsAudio(v: View, e: Event)
    requires Tiles(v) && !v.closed
    requires e == EndUtterance(false) || e == EndOfAudio(false)
             || (e.Audio? && (e.after == VadFinal || e.after == BackendFinal))
    ensures var buffered := Concat(if e.Audio? then Hear(v, e.samples).seg else v.seg);
            var w := Next(v, e);
            && |w.pieces| == |v.pieces| + 1 && w.pieces[|v.pieces|].Final? && w.seg == []
            && var p := w.pieces[|v.pieces|];
               p.end - p.start == |buffered| && p.end <= |w.heard| && w.heard[p.start..p.end] == buffered
  {
    NextKeepsTiles(v, e);
    if e.Audio? {
      HearKeepsTiles(v, e.samples);
      var h := Hear(v, e.samples);
      assert h.heard[Start(h)..|h.heard|] == h.heard[Start(h)..];
    } else {
      assert v.heard[Start(v)..|v.heard|] == v.heard[Start(v)..];
    }
  }

  predicate EmitsFinal(e: Event) {
    match e
    case Audio(_, after) => after == VadFinal || after == BackendFinal
    case Reset => false
    case EndUtterance(busy) => !busy
    case EndOfAudio(busy) => !busy
  }

  /** The utterance is thrown away: by the client, or for backpressure. */
  predicate Drops(e: Event) {
    e == Reset || e == EndUtterance(true) || (e.Audio? && e.after == VadBusy)
  }

  /** The connection is over. */
  predicate Ends(e: Event) { e.EndOfAudio? || (e.Audio? && e.after == VadUnsent) }

  function Arriving(e: Event): Samples { if e.Audio? then e.samples else [] }

  /** What every event does: the audio that arrives is heard, and joins what was
      buffered; that becomes the window of a final, or a dropped stretch, or stays
      buffered. */
  lemma EventExact(v: View, e: Event)
    requires Tiles(v) && !v.closed
    ensures var w, buffered := Next(v, e), Concat(v.seg) + Arriving(e);
            && w.heard == v.heard + Arriving(e) && (w.closed <==> Ends(e))
            && |buffered| <= |w.heard| && w.heard[|w.heard| - |buffered|..] == buffered
            && (if EmitsFinal(e) then
                  w.pieces == v.pieces + [Final(|w.heard| - |buffered|, |w.heard|)] && Concat(w.seg) == []
                else if Drops(e) then
                  w.pieces == v.pieces + [Dropped(|w.heard| - |buffered|, |w.heard|)] && Concat(w.seg) == []
                else w.pieces == v.pieces && Concat(w.seg) == buffered)
  {
    var h := if e.Audio? then Hear(v, e.samples) else v;
    if e.Audio? { HearKeepsTiles(v, e.samples); }
    Joined(v, e);
    hide Tiles, Concat;
    assert Concat([]) == [];
  }

  lemma Joined(v: View, e: Event)
    requires Tiles(v)
    ensures var h := if e.Audio? then Hear(v, e.samples) else v;
            && Concat(h.seg) == Concat(v.seg) + Arriving(e) && h.heard == v.heard + Arriving(e)
            && 0 <= Start(h) && Concat(h.seg) == h.heard[Start(h)..]
    ensures Concat([]) == []
  {
    if e.Audio? {
      HearKeepsTiles(v, e.samples);
      assert (v.seg + [e.samples])[..|v.seg|] == v.seg;
    } else {
      assert Concat(v.seg) + [] == Concat(v.seg) && v.heard + [] == v.heard;
    }
  }

  lemma ClosedStays(v: View, e: Event)
    requires Tiles(v) && v.closed
    ensures Next(v, e) == v
  {}

  /** Whatever `w` has cut since `v`, and whatever it has buffered, was heard since. */
  predicate Since(v: View, w: View) {
    && v.pieces <= w.pieces && |v.heard| <= Start(w) <= |w.heard|
    && forall k :: |v.pieces| <= k < |w.pieces| ==> w.pieces[k].start >= |v.heard|
  }

  lemma CutSince(v: View)
    requires Concat(v.seg) == []
    ensures Since(v, v)
  {}

  lemma StillSince(v: View, u: View, w: View)
    requires Since(v, u) && w.pieces == u.pieces && Start(w) == Start(u) && |u.heard| <= |w.heard|
    ensures Since(v, w)
  {
    hide Start;
  }

  lemma CutStillSince(v: View, u: View, p: Piece, w: View)
    requires Since(v, u) && w.pieces == u.pieces + [p] && p.start == Start(u)
    requires Start(w) == |w.heard| && |u.heard| <= |w.heard|
    ensures Since(v, w)
  {
    hide Start;
  }

  lemma NextSince(v: View, u: View, e: Event)
    requires Tiles(u) && Since(v, u)
    ensures Since(v, Next(u, e))
  {
    hide Since, Next, Tiles, Concat;
    if u.closed {
      ClosedStays(u, e);
    } else {
      EventExact(u, e);
      StartInRange(u);
      var w := Next(u, e);
      if EmitsFinal(e) || Drops(e) {
        CutStillSince(v, u, w.pieces[|u.pieces|], w);
      } else {
        StillSince(v, u, w);
      }
    }
  }

  lemma {:induction false} RunSince(v: View, events: seq<Event>, more: seq<Event>)
    requires Since(v, Run(events))
    ensures Since(v, Run(events + more))
    decreases |more|
  {
    hide Since;
    if more == [] {
      assert events + more == events;
    } else {
      var n := |more| - 1;
      RunSince(v, events, more[..n]);
      assert (events + more)[..|events + more| - 1] == events + more[..n];
      NextSince(v, Run(events + more[..n]), more[n]);
      hide Next;
    }
  }

  /** Once an utterance has been answered, dropped by a reset or rejected, nothing
      of it is buffered, and every piece cut later starts after all that had been
      heard by then. */
  lemma LaterPiecesStartLater(events: seq<Event>, e: Event, more: seq<Event>)
    requires !Run(events).closed && (EmitsFinal(e) || Drops(e))
    ensures var v, w := Run(events + [e]), Run(events + [e] + more);
            && Concat(v.seg) == [] && v.pieces <= w.pieces && |v.heard| <= Start(w)
            && forall k :: |v.pieces| <= k < |w.pieces| ==> w.pieces[k].start >= |v.heard|
  {
    assert (events + [e])[..|events|] == events;
    EventExact(Run(events), e);
    hide Next, Tiles;
    CutSince(Run(events + [e]));
    hide Concat, Start;
    RunSince(Run(events + [e]), events + [e], more);
    hide Run;
  }

  // ---------------------------------------------------------------- the handler's variables

  /** Session-relative seconds, before rounding. */
  datatype Window = Window(start: real, end: real)

  /** `_seg_window`, from the samples counted and buffered. */
  function SegWindow(counted: nat, buffered: int, sampleRate: nat): Window {
    if sampleRate == 0 then Window(0.0, 0.0)
    else Window((counted - buffered) as real / sampleRate as real, counted as real / sampleRate as real)
  }

  /** The window in seconds of the piece cut by a final. */
  function PieceWindow(p: Piece, sampleRate: nat): Window {
    SegWindow(p.end, p.end - p.start, sampleRate)
  }

  /** The variables of one connection with embedding on. */
  class Connection {
    const sampleRate: nat
    var seg: seq<Samples>
    var tSamples: nat
    var closed: bool
    ghost var view: View

    ghost predicate Valid()
      reads this
    {
      && Tiles(view) && seg == view.seg && tSamples == |view.heard| && closed == view.closed
    }

    constructor (sampleRate: nat)
      ensures Valid() && view == INIT && this.sampleRate == sampleRate
    {
      this.sampleRate := sampleRate;
      seg, tSamples, closed, view := [], 0, false, INIT;
    }

    method CurrentWindow() returns (w: Window)
      requires Valid()
      ensures w == SegWindow(|view.heard|, |view.heard| - Start(view), sampleRate)
    {
      var length := 0;
      for k := 0 to |seg|
        invariant length == TotalLength(seg[..k])
      {
        length := length + |seg[k]|;
        assert seg[..k + 1] == seg[..k] + [seg[k]];
        TotalLengthSnoc(seg[..k], seg[k]);
      }
      assert seg[..|seg|] == seg;
      TotalLengthIsConcat(seg);
      w := SegWindow(tSamples, length, sampleRate);
    }

    /** A binary frame. */
    method BufferAudio(samples: Samples)
      requires Valid()
      modifies this
      ensures Valid() && view == Hear(old(view), samples)
    {
      HearKeepsTiles(view, samples);
      seg := seg + [samples];
      tSamples := tSamples + |samples|;
      view := Hear(view, samples);
    }

    /** Take the window, then clear the buffer, as every path to a final does. */
    method EmitFinal() returns (w: Window)
      requires Valid()
      modifies this
      ensures Valid() && view == Finalize(old(view))
      ensures w == PieceWindow(view.pieces[|old(view).pieces|], sampleRate)
    {
      w := CurrentWindow();
      CutKeepsTiles(view, Final(Start(view), |view.heard|));
      seg := [];
      view := Finalize(view);
    }

    /** A reset, or an utterance rejected because the inference queue is full. */
    method DropBuffer()
      requires Valid()
      modifies this
      ensures Valid() && view == Discard(old(view))
    {
      CutKeepsTiles(view, Dropped(Start(view), |view.heard|));
      seg := [];
      view := Discard(view);
    }

    method Close()
      requires Valid()
      modifies this
      ensures Valid() && view == old(view).(closed := true)
    {
      closed := true;
      view := view.(closed := true);
    }

    /** One message of the receive loop; the result is the window of the final
        that was sent, if one was. */
    method Receive(e: Event) returns (final: Option<Window>)
      requires Valid() && !closed
      modifies this
      ensures Valid() && view == Next(old(view), e)
      ensures tSamples == old(tSamples) + |Arriving(e)| && (closed <==> Ends(e))
      ensures Concat(seg) == if EmitsFinal(e) || Drops(e) then [] else Concat(old(seg)) + Arriving(e)
      ensures final.Some? <==> EmitsFinal(e)
      ensures final.Some? ==> |view.pieces| == |old(view).pieces| + 1
                              && final.value == PieceWindow(view.pieces[|old(view).pieces|], sampleRate)
    {
      hide Tiles, Concat;
      EventExact(view, e);
      final := None;
      match e {
        case Audio(samples, after) =>
          BufferAudio(samples);
          match after {
            case Nothing =>
            case VadFinal => var w := EmitFinal(); final := Some(w);
            case VadBusy => DropBuffer();
            case VadUnsent => Close();
            case BackendFinal => var w := EmitFinal(); final := Some(w);
          }
        case Reset => DropBuffer();
        case EndUtterance(busy) =>
          if busy {
            DropBuffer();
          } else {
            var w := EmitFinal();
            final := Some(w);
          }
        case EndOfAudio(busy) =>
          if !busy {
            var w := EmitFinal();
            final := Some(w);
          }
          Close();
      }
    }
  }
}
