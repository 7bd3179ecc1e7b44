/** The preroll ring of `/v2v/stream`: the most recent frames received while no
    ASR turn is open, replayed into the stream when the frontend VAD opens one.
    Frames that a session ignores for good, after which it opens no turn, are not
    part of this model. */
module Preroll {
  type Samples = seq<int>

  function Total(frames: seq<Samples>): nat {
    if frames == [] then 0 else |frames[0]| + Total(frames[1..])
  }

  function Concat(frames: seq<Samples>): Samples {
    if frames == [] then [] else frames[0] + Concat(frames[1..])
  }

  /** Every suffix longer than `frames[k..]` is over the cap. */
  predicate OverBefore(frames: seq<Samples>, k: nat, cap: nat)
    requires k <= |frames|
  {
    forall j :: 0 <= j < k ==> Total(frames[j..]) > cap
  }

  /** `frames[k..]` is the longest suffix of `frames` whose total length is within
      the cap, or the last frame alone if even that exceeds it. */
  predicate LongestSuffix(frames: seq<Samples>, k: nat, cap: nat) {
    && k < |frames|
    && (Total(frames[k..]) <= cap || k == |frames| - 1)
    && OverBefore(frames, k, cap)
  }

  lemma {:induction false} TotalConcat(a: seq<Samples>, b: seq<Samples>)
    ensures Total(a + b) == Total(a) + Total(b)
  {
    if a == [] {
      assert a + b == b;
    } else {
      assert (a + b)[1..] == a[1..] + b;
      TotalConcat(a[1..], b);
    }
  }

  lemma {:induction false} ConcatConcat(a: seq<Samples>, b: seq<Samples>)
    ensures Concat(a + b) == Concat(a) + Concat(b)
  {
    if a == [] {
      assert a + b == b;
    } else {
      assert (a + b)[1..] == a[1..] + b;
      ConcatConcat(a[1..], b);
    }
  }

  /** There is only one such suffix, so the ring is a function of the frames pushed
      since it was last cleared. */
  lemma LongestSuffixUnique(frames: seq<Samples>, k: nat, m: nat, cap: nat)
    requires LongestSuffix(frames, k, cap) && LongestSuffix(frames, m, cap)
    ensures k == m
  {}

  /** Frames the ring has already let go can never come back into the longest
      suffix. */
  lemma DroppedStayDropped(pushed: seq<Samples>, frame: Samples, k: nat, cap: nat)
    requires pushed != [] ==> LongestSuffix(pushed, k, cap)
    requires pushed == [] ==> k == 0
    ensures OverBefore(pushed + [frame], k, cap)
    ensures (pushed + [frame])[k..] == pushed[k..] + [frame]
    ensures Total((pushed + [frame])[k..]) == Total(pushed[k..]) + |frame|
  {
    forall j | 0 <= j < k ensures Total((pushed + [frame])[j..]) > cap {
      assert (pushed + [frame])[j..] == pushed[j..] + [frame];
      TotalConcat(pushed[j..], [frame]);
    }
    TotalConcat(pushed[k..], [frame]);
    assert (pushed + [frame])[k..] == pushed[k..] + [frame];
  }

  lemma DropOldest(pushed: seq<Samples>, gone: nat, cap: nat)
    requires gone + 1 < |pushed| && OverBefore(pushed, gone, cap) && Total(pushed[gone..]) > cap
    ensures pushed[gone..][0] == pushed[gone] && pushed[gone..][1..] == pushed[gone + 1..]
    ensures Total(pushed[gone..]) == |pushed[gone]| + Total(pushed[gone + 1..])
    ensures OverBefore(pushed, gone + 1, cap)
  {}

  // ---------------------------------------------------------------- the frames of a connection

  /** What becomes of the stream on a frame: nothing is opened; the frontend VAD
      opens a turn, or is refused one; audio opens a turn by itself, or is refused. */
  datatype Outcome = NoOpen | VadOpened | VadRefused | LazyOpened | LazyRefused

  /** `ends`: the output task closes the turn while the frame is being fed. */
  datatype Event = Frame(samples: Samples, outcome: Outcome, ends: bool) | EndTurn

  /** Every frame received; which of them were pushed since the ring was last
      cleared; and how many of those came before the last frame that was not
      pushed. */
  datatype View = View(received: seq<Samples>, pushed: seq<nat>, missedAt: nat, active: bool)

  const INIT := View([], [], 0, false)

  predicate Refuses(outcome: Outcome) { outcome == VadRefused || outcome == LazyRefused }

  function Next(cap: nat, v: View, e: Event): View {
    match e
    case EndTurn => v.(active := false)
    case Frame(samples, outcome, ends) =>
      var n := |v.received|;
      var heard := v.(received := v.received + [samples]);
      if Refuses(outcome) then heard.(active := false, missedAt := |v.pushed|)
      else
        var ready := if outcome == VadOpened then heard.(pushed := [], missedAt := 0) else heard;
        var active := (v.active || outcome != NoOpen) && !ends;
        if cap > 0 && !active then ready.(active := active, pushed := ready.pushed + [n])
        else ready.(active := active, missedAt := |ready.pushed|)
  }

  function Run(cap: nat, events: seq<Event>): View {
    if events == [] then INIT else Next(cap, Run(cap, events[..|events| - 1]), events[|events| - 1])
  }

  /** After `n` frames: the pushed ones are in order, none is missing after the
      last miss, and one is missing there. */
  predicate Places(n: nat, pushed: seq<nat>, missedAt: nat) {
    && missedAt <= |pushed| <= n
    && (forall j :: 0 <= j < |pushed| ==> pushed[j] < n)
    && (forall i, j :: 0 <= i < j < |pushed| ==> pushed[i] < pushed[j])
    && (forall j :: missedAt <= j < |pushed| ==> pushed[j] == n - (|pushed| - j))
    && (missedAt > 0 ==> pushed[missedAt - 1] + 1 < n - (|pushed| - missedAt))
  }

  predicate WellPlaced(v: View) { Places(|v.received|, v.pushed, v.missedAt) }

  lemma NextIsWellPlaced(cap: nat, v: View, e: Event)
    requires WellPlaced(v)
    ensures WellPlaced(Next(cap, v, e))
  {
    hide Places;
    if e.Frame? {
      var ready := if e.outcome == VadOpened then v.(pushed := [], missedAt := 0) else v;
      Cleared(|v.received|);
      FrameMissed(|v.received|, v.pushed, v.missedAt);
      FrameMissed(|v.received|, ready.pushed, ready.missedAt);
      FramePushed(|v.received|, ready.pushed, ready.missedAt);
    }
  }

  lemma Cleared(n: nat)
    ensures Places(n, [], 0)
  {}

  lemma FrameMissed(n: nat, pushed: seq<nat>, missedAt: nat)
    requires Places(n, pushed, missedAt)
    ensures Places(n + 1, pushed, |pushed|)
  {}

  lemma FramePushed(n: nat, pushed: seq<nat>, missedAt: nat)
    requires Places(n, pushed, missedAt)
    ensures Places(n + 1, pushed + [n], missedAt)
  {}

  lemma {:induction false} RunIsWellPlaced(cap: nat, events: seq<Event>)
    ensures WellPlaced(Run(cap, events))
  {
    if events == [] {
      Cleared(0);
    } else {
      RunIsWellPlaced(cap, events[..|events| - 1]);
      NextIsWellPlaced(cap, Run(cap, events[..|events| - 1]), events[|events| - 1]);
    }
  }

  /** The frames pushed since the last clear. */
  function Pushed(v: View): seq<Samples>
    requires WellPlaced(v)
  {
    seq(|v.pushed|, j requires 0 <= j < |v.pushed| => v.received[v.pushed[j]])
  }

  /** How many of the pushed frames the ring has let go. */
  function Gone(frames: seq<Samples>, cap: nat): (k: nat)
    ensures frames == [] ==> k == 0
    ensures frames != [] ==> LongestSuffix(frames, k, cap)
  {
    if frames == [] then 0 else FirstFit(frames, cap, 0)
  }

  function FirstFit(frames: seq<Samples>, cap: nat, from: nat): (k: nat)
    requires from < |frames| && OverBefore(frames, from, cap)
    ensures LongestSuffix(frames, k, cap)
    decreases |frames| - from
  {
    if Total(frames[from..]) <= cap || from == |frames| - 1 then from else FirstFit(frames, cap, from + 1)
  }

  /** The ring is a stretch of consecutive frames that ends with the last one
      received. */
  predicate Unbroken(v: View, gone: nat) {
    forall j :: gone <= j < |v.pushed| ==> v.pushed[j] == |v.received| - (|v.pushed| - j)
  }

  /** Exactly when the ring is unbroken: every frame pushed before the last one
      that was missed has been let go. */
  lemma UnbrokenExact(cap: nat, events: seq<Event>)
    ensures var v := Run(cap, events);
            WellPlaced(v) && (Unbroken(v, Gone(Pushed(v), cap)) <==> v.missedAt <= Gone(Pushed(v), cap))
  {
    RunIsWellPlaced(cap, events);
    var v := Run(cap, events);
    hide Run, Next, Gone, LongestSuffix;
    BrokenBefore(v, Gone(Pushed(v), cap));
  }

  lemma BrokenBefore(v: View, gone: nat)
    requires WellPlaced(v)
    ensures Unbroken(v, gone) <==> v.missedAt <= gone
  {
    if gone < v.missedAt {
      assert v.pushed[v.missedAt - 1] != |v.received| - (|v.pushed| - (v.missedAt - 1));
    }
  }

  /** What the decoder hears of a turn opened on `trigger`. */
  function Onset(v: View, cap: nat, trigger: Samples): Samples
    requires WellPlaced(v)
  {
    Concat(Pushed(v)[Gone(Pushed(v), cap)..]) + trigger
  }

  /** Then the onset is the end of the received audio, each sample once and in
      order, as long as whole frames and the cap allow, up to the trigger. */
  lemma OnsetIsContiguous(v: View, cap: nat, trigger: Samples)
    requires WellPlaced(v) && Unbroken(v, Gone(Pushed(v), cap))
    ensures var onset, all := Onset(v, cap, trigger), Concat(v.received + [trigger]);
            |onset| <= |all| && all[|all| - |onset|..] == onset
  {
    var gone := Gone(Pushed(v), cap);
    assert gone <= |v.pushed|;
    var ring := Pushed(v)[gone..];
    RingIsTheEnd(v, gone);
    hide WellPlaced, Unbroken, Gone;
    var at := |v.received| - |ring|;
    EndOfAll(v.received[..at], ring, trigger);
    assert v.received[..at] + ring == v.received;
  }

  lemma EndOfAll(front: seq<Samples>, ring: seq<Samples>, trigger: Samples)
    ensures var onset, all := Concat(ring) + trigger, Concat(front + ring + [trigger]);
            |onset| <= |all| && all[|all| - |onset|..] == onset
  {
    ConcatConcat(front, ring);
    ConcatConcat(front + ring, [trigger]);
    assert Concat([trigger]) == trigger + Concat([trigger][1..]);
    hide Concat;
    assert Concat(front + ring + [trigger]) == Concat(front) + (Concat(ring) + trigger);
  }

  lemma RingIsTheEnd(v: View, gone: nat)
    requires WellPlaced(v) && gone <= |v.pushed| && Unbroken(v, gone)
    ensures |v.pushed| - gone <= |v.received| && v.received[|v.received| - (|v.pushed| - gone)..] == Pushed(v)[gone..]
  {
    if gone < |v.pushed| { assert v.pushed[gone] == |v.received| - (|v.pushed| - gone); }
  }

  // ---------------------------------------------------------------- which frames are in the ring

  predicate Opens(e: Event) { e.Frame? && (e.outcome == VadOpened || e.outcome == LazyOpened) }

  predicate Closes(e: Event) { e.EndTurn? || Refuses(e.outcome) || e.ends }

  predicate Clears(e: Event) { e.Frame? && e.outcome == VadOpened }

  /** A turn was opened at `k` and nothing has closed it since. */
  predicate OpenAt(events: seq<Event>, k: nat) {
    k < |events| && Opens(events[k]) && forall m :: k <= m < |events| ==> !Closes(events[m])
  }

  ghost predicate TurnOpen(events: seq<Event>) { exists k :: OpenAt(events, k) }

  lemma TurnOpenSnoc(events: seq<Event>, e: Event)
    ensures TurnOpen(events + [e]) <==> !Closes(e) && (Opens(e) || TurnOpen(events))
  {
    var all := events + [e];
    hide Closes, Opens;
    assert all[|events|] == e && forall m :: 0 <= m < |events| ==> all[m] == events[m];
    if !Closes(e) && Opens(e) { assert OpenAt(all, |events|); }
    if !Closes(e) && TurnOpen(events) {
      var k :| OpenAt(events, k);
      assert OpenAt(all, k);
    }
    if k: nat :| OpenAt(all, k) {
      if k < |events| { assert OpenAt(events, k); }
    }
  }

  /** Over every run a turn is open exactly if one was opened, by the frontend VAD
      or by audio, and no end of a turn and no refusal has come since. */
  lemma {:induction false} ActiveExact(cap: nat, events: seq<Event>)
    ensures Run(cap, events).active <==> TurnOpen(events)
    decreases |events|
  {
    if events != [] {
      var n := |events| - 1;
      assert events == events[..n] + [events[n]];
      ActiveExact(cap, events[..n]);
      TurnOpenSnoc(events[..n], events[n]);
      hide TurnOpen;
    }
  }

  function Frames(events: seq<Event>): nat {
    if events == [] then 0 else Frames(events[..|events| - 1]) + if events[|events| - 1].Frame? then 1 else 0
  }

  lemma {:induction false} ReceivedCount(cap: nat, events: seq<Event>)
    ensures |Run(cap, events).received| == Frames(events)
    decreases |events|
  {
    if events != [] { ReceivedCount(cap, events[..|events| - 1]); }
  }

  /** Event `k` is the `n`th frame; no open was refused for it, no turn was open
      after it, and the frontend VAD has opened none since. */
  ghost predicate RingFrame(cap: nat, events: seq<Event>, k: nat, n: nat) {
    && k < |events| && cap > 0 && events[k].Frame? && !Refuses(events[k].outcome)
    && !TurnOpen(events[..k + 1]) && Frames(events[..k]) == n
    && forall m :: k < m < |events| ==> !Clears(events[m])
  }

  ghost predicate InRing(cap: nat, events: seq<Event>, n: nat) {
    exists k :: RingFrame(cap, events, k, n)
  }

  lemma OlderRingFrame(cap: nat, events: seq<Event>, e: Event, k: nat, n: nat)
    requires k < |events|
    ensures RingFrame(cap, events + [e], k, n) <==> !Clears(e) && RingFrame(cap, events, k, n)
  {
    hide TurnOpen, Clears, Frames, Refuses;
    var all := events + [e];
    assert all[..k] == events[..k] && all[..k + 1] == events[..k + 1] && all[|events|] == e;
    assert forall m :: 0 <= m < |events| ==> all[m] == events[m];
  }

  lemma NewRingFrame(cap: nat, events: seq<Event>, e: Event, n: nat)
    ensures RingFrame(cap, events + [e], |events|, n) <==>
            cap > 0 && e.Frame? && !Refuses(e.outcome) && !TurnOpen(events + [e]) && n == Frames(events)
  {
    hide TurnOpen, Clears, Frames, Refuses;
    var all := events + [e];
    assert all[..|events|] == events && all[..|events| + 1] == all && all[|events|] == e;
  }

  lemma InRingSnoc(cap: nat, events: seq<Event>, e: Event, n: nat)
    ensures InRing(cap, events + [e], n) <==>
            || (cap > 0 && e.Frame? && !Refuses(e.outcome) && !TurnOpen(events + [e]) && n == Frames(events))
            || (!Clears(e) && InRing(cap, events, n))
  {
    NewRingFrame(cap, events, e, n);
    if !Clears(e) && InRing(cap, events, n) {
      var k: nat :| RingFrame(cap, events, k, n);
      OlderRingFrame(cap, events, e, k, n);
    }
    if InRing(cap, events + [e], n) {
      var k: nat :| RingFrame(cap, events + [e], k, n);
      if k < |events| { OlderRingFrame(cap, events, e, k, n); }
    }
    hide RingFrame, TurnOpen, Clears, Frames;
  }

  lemma NextPushes(cap: nat, v: View, e: Event, n: nat)
    ensures n in Next(cap, v, e).pushed <==>
            || (cap > 0 && e.Frame? && !Refuses(e.outcome) && !Next(cap, v, e).active && n == |v.received|)
            || (!Clears(e) && n in v.pushed)
  {}

  /** Over every run the frames pushed since the last clear, of which the ring
      keeps the longest suffix that fits, are exactly those. */
  lemma {:induction false} PushedExact(cap: nat, events: seq<Event>, n: nat)
    ensures n in Run(cap, events).pushed <==> InRing(cap, events, n)
    decreases |events|
  {
    if events != [] {
      var last := |events| - 1;
      var before, e := events[..last], events[last];
      assert events == before + [e];
      PushedExact(cap, before, n);
      ActiveExact(cap, events);
      ReceivedCount(cap, before);
      InRingSnoc(cap, before, e, n);
      NextPushes(cap, Run(cap, before), e, n);
      hide InRing, Next, TurnOpen;
    }
  }

  // ---------------------------------------------------------------- which connections keep it unbroken

  /** Whether opens can be refused, and whether audio can open a turn by itself. */
  datatype Setting = Setting(refuses: bool, lazy: bool)

  predicate Permits(setting: Setting, e: Event) {
    e.Frame? ==> (Refuses(e.outcome) ==> setting.refuses) && (e.outcome == LazyOpened ==> setting.lazy)
  }

  predicate AllPermitted(setting: Setting, events: seq<Event>) {
    forall i :: 0 <= i < |events| ==> Permits(setting, events[i])
  }

  lemma {:induction false} NothingMissed(cap: nat, setting: Setting, events: seq<Event>)
    requires cap == 0 || (!setting.refuses && !setting.lazy)
    requires AllPermitted(setting, events)
    ensures Run(cap, events).missedAt == 0 && (Run(cap, events).active || cap == 0 ==> Run(cap, events).pushed == [])
  {
    if events != [] { NothingMissed(cap, setting, events[..|events| - 1]); }
  }

  /** A ring with a hole: a frame kept, a frame the stream refused or a turn took
      without clearing the ring, and then an open. */
  function BreakingEvents(outcome: Outcome): seq<Event> {
    [Frame([0], NoOpen, false), Frame([1], outcome, false), EndTurn]
  }

  lemma BreakingRun(cap: nat, outcome: Outcome)
    requires cap > 0 && (Refuses(outcome) || outcome == LazyOpened)
    ensures var v := Run(cap, BreakingEvents(outcome));
            WellPlaced(v) && !Unbroken(v, Gone(Pushed(v), cap))
  {
    var events := BreakingEvents(outcome);
    var one, two := [events[0]], [events[0], events[1]];
    var v1 := View([[0]], [0], 0, false);
    var v2 := View([[0], [1]], [0], 1, outcome == LazyOpened);
    var v := v2.(active := false);
    assert one[..0] == [] && two[..1] == one && events[..2] == two;
    assert Run(cap, []) == INIT;
    assert Run(cap, one) == Next(cap, INIT, events[0]) == v1;
    assert Run(cap, two) == Next(cap, v1, events[1]) == v2;
    assert Run(cap, events) == Next(cap, v2, EndTurn) == v;
    assert v.pushed[0] == 0;
    assert |Pushed(v)| == 1;
  }

  /** Over all runs of a connection the audio a turn is opened with is one unbroken
      stretch of what was received exactly when the ring is off, or no open is ever
      refused and no turn is opened but by the frontend VAD. */
  lemma UnbrokenOnsets(cap: nat, setting: Setting)
    ensures (forall events :: AllPermitted(setting, events) ==>
               var v := Run(cap, events);
               WellPlaced(v) && Unbroken(v, Gone(Pushed(v), cap)))
            <==> cap == 0 || (!setting.refuses && !setting.lazy)
  {
    if cap == 0 || (!setting.refuses && !setting.lazy) {
      forall events | AllPermitted(setting, events)
        ensures WellPlaced(Run(cap, events)) && Unbroken(Run(cap, events), Gone(Pushed(Run(cap, events)), cap))
      {
        UnbrokenExact(cap, events);
        NothingMissed(cap, setting, events);
      }
    } else {
      var outcome := if setting.refuses then VadRefused else LazyOpened;
      BreakingRun(cap, outcome);
      assert AllPermitted(setting, BreakingEvents(outcome));
    }
  }

  /** Where the loop stops is where the longest suffix starts. */
  lemma RingFits(frames: seq<Samples>, gone: nat, cap: nat)
    requires gone < |frames| && OverBefore(frames, gone, cap) && (Total(frames[gone..]) <= cap || |frames[gone..]| <= 1)
    ensures gone == Gone(frames, cap) && LongestSuffix(frames, gone, cap)
  {
    LongestSuffixUnique(frames, gone, Gone(frames, cap), cap);
  }

  /** What a frame does to the pushed frames. */
  lemma NextPushed(cap: nat, v: View, frame: Samples, outcome: Outcome, ends: bool)
    requires WellPlaced(v) && WellPlaced(Next(cap, v, Frame(frame, outcome, ends)))
    ensures var w := Next(cap, v, Frame(frame, outcome, ends));
            var before := if outcome == VadOpened then [] else Pushed(v);
            && Pushed(w) == (if !Refuses(outcome) && cap > 0 && !w.active then before + [frame] else before)
            && w.active == (!Refuses(outcome) && (v.active || outcome != NoOpen) && !ends)
  {
    hide Total, Gone;
  }

  // ---------------------------------------------------------------- the session

  /** The ring holds the longest suffix of the pushed frames that fits. */
  predicate RingIs(ring: seq<Samples>, total: nat, pushed: seq<Samples>, cap: nat) {
    Gone(pushed, cap) <= |pushed| && ring == pushed[Gone(pushed, cap)..] && total == Total(ring)
  }

  lemma RingHolds(ring: seq<Samples>, total: nat, pushed: seq<Samples>, cap: nat)
    requires RingIs(ring, total, pushed, cap)
    ensures Gone(pushed, cap) <= |pushed| && pushed[Gone(pushed, cap)..] == ring
    ensures ring == [] ==> Concat(ring) == []
  {
    hide Gone, Total;
  }

  lemma EmptyRing(cap: nat)
    ensures RingIs([], 0, [], cap)
  {}

  class Session {
    const cap: nat
    var preroll: seq<Samples>
    var prerollSamples: nat
    var active: bool
    /** Everything accepted by the ASR stream. */
    ghost var fed: Samples
    /** The frames pushed since the ring was last cleared. */
    ghost var pushed: seq<Samples>
    ghost var view: View

    ghost predicate Valid()
      reads this
    {
      && WellPlaced(view) && active == view.active && pushed == Pushed(view)
      && RingIs(preroll, prerollSamples, pushed, cap)
    }

    constructor (cap: nat)
      ensures Valid() && this.cap == cap && view == INIT && fed == []
    {
      this.cap := cap;
      preroll, prerollSamples, active := [], 0, false;
      fed, pushed, view := [], [], INIT;
      EmptyRing(cap);
    }

    /** Append a frame, then drop the oldest ones while the total is over the cap
        and more than one is left. */
    method Push(frame: Samples)
      requires RingIs(preroll, prerollSamples, pushed, cap)
      modifies this`preroll, this`prerollSamples, this`pushed
      ensures pushed == old(pushed) + [frame] && LongestSuffix(pushed, Gone(pushed, cap), cap)
      ensures RingIs(preroll, prerollSamples, pushed, cap)
    {
      ghost var all := pushed + [frame];
      ghost var gone: nat := Gone(pushed, cap);
      DroppedStayDropped(pushed, frame, gone, cap);
      preroll := preroll + [frame];
      prerollSamples := prerollSamples + |frame|;
      pushed := all;
      hide Total, OverBefore, LongestSuffix, Gone;
      while prerollSamples > cap && |preroll| > 1
        invariant gone < |all| && preroll == all[gone..] && pushed == all
        invariant prerollSamples == Total(preroll)
        invariant OverBefore(all, gone, cap)
        decreases |preroll|
      {
        DropOldest(all, gone, cap);
        prerollSamples := prerollSamples - |preroll[0]|;
        preroll := preroll[1..];
        gone := gone + 1;
      }
      RingFits(all, gone, cap);
    }

    /** The frontend VAD opens a turn: the ring goes into the fresh stream, and is
        cleared. */
    method OpenTurn()
      requires RingIs(preroll, prerollSamples, pushed, cap)
      modifies this`preroll, this`prerollSamples, this`active, this`fed, this`pushed
      ensures active && pushed == [] && RingIs(preroll, prerollSamples, pushed, cap)
      ensures fed == old(fed) + Concat(old(pushed)[Gone(old(pushed), cap)..])
    {
      RingHolds(preroll, prerollSamples, pushed, cap);
      EmptyRing(cap);
      hide RingIs, Gone, Concat;
      active := true;
      if preroll != [] {
        fed := fed + Concat(preroll);
      }
      preroll, prerollSamples := [], 0;
      pushed := [];
    }

    /** One audio frame. */
    method Receive(frame: Samples, outcome: Outcome, ends: bool)
      requires Valid()
      modifies this
      ensures Valid() && view == Next(cap, old(view), Frame(frame, outcome, ends))
      ensures outcome == VadOpened ==> fed == old(fed) + Onset(old(view), cap, frame)
      ensures outcome == LazyOpened || (outcome == NoOpen && old(active)) ==> fed == old(fed) + frame
      ensures Refuses(outcome) || (outcome == NoOpen && !old(active)) ==> fed == old(fed)
    {
      hide RingIs, Gone, Concat, WellPlaced, Pushed, Next;
      ghost var next := Next(cap, view, Frame(frame, outcome, ends));
      NextIsWellPlaced(cap, view, Frame(frame, outcome, ends));
      NextPushed(cap, view, frame, outcome, ends);
      Admit(frame, outcome, ends);
      view := next;
    }

    /** What `Receive` does to the stream and the ring. */
    method Admit(frame: Samples, outcome: Outcome, ends: bool)
      requires RingIs(preroll, prerollSamples, pushed, cap)
      modifies this`preroll, this`prerollSamples, this`active, this`fed, this`pushed
      ensures RingIs(preroll, prerollSamples, pushed, cap)
      ensures active == (!Refuses(outcome) && (old(active) || outcome != NoOpen) && !ends)
      ensures var before := if outcome == VadOpened then [] else old(pushed);
              pushed == if !Refuses(outcome) && cap > 0 && !active then before + [frame] else before
      ensures outcome == VadOpened ==> fed == old(fed) + (Concat(old(pushed)[Gone(old(pushed), cap)..]) + frame)
      ensures outcome == LazyOpened || (outcome == NoOpen && old(active)) ==> fed == old(fed) + frame
      ensures Refuses(outcome) || (outcome == NoOpen && !old(active)) ==> fed == old(fed)
    {
      hide RingIs, Gone, Concat, LongestSuffix;
      if outcome == VadRefused || outcome == LazyRefused {
        active := false;
        return;
      }
      if outcome == VadOpened {
        OpenTurn();
      } else if outcome == LazyOpened {
        active := true;
      }
      if active {
        fed := fed + frame;
        if ends {
          active := false;
        }
      }
      if cap > 0 && !active {
        Push(frame);
      }
    }

    /** The output task has finalized the turn. */
    method EndTurn()
      requires Valid()
      modifies this`active, this`view
      ensures Valid() && view == Next(cap, old(view), Event.EndTurn)
    {
      ghost var next := Next(cap, view, Event.EndTurn);
      NextIsWellPlaced(cap, view, Event.EndTurn);
      assert Pushed(next) == Pushed(view);
      hide RingIs, WellPlaced, Next;
      active := false;
      view := next;
    }
  }
}
