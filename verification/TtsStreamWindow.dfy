/** How far the `/tts/stream` window reaches: how many sentences a text ever gets
    submitted, and how many of them are inside the backend together. */
module TtsStreamWindow {
  import opened TtsStream
  import opened TtsStreamInvariant
  import opened Wrappers

  // ---------------------------------------------------------------- how many are ever submitted

  function Prefetched(c: Config, n: nat, cur: nat): nat {
    if n < |c.jobs| && Allows(c, n, cur) then n + 1 else n
  }

  /** Sentences submitted by the time the consumer turns to sentence `i`, if
      nobody cancels: one more at each first chunk and one more at each end, as
      far as the guard lets them. */
  function AtSentence(c: Config, i: nat): nat
    requires c.Valid() && i <= |c.jobs|
    decreases i, 0
  {
    if i == 0 then 1 else Prefetched(c, AfterFirst(c, i - 1), i - 1)
  }

  /** The same, once sentence `i` has emitted whatever it emits. */
  function AfterFirst(c: Config, i: nat): nat
    requires c.Valid() && i < |c.jobs|
    decreases i, 1
  {
    if c.jobs[i].chunks == [] then AtSentence(c, i) else Prefetched(c, AtSentence(c, i), i)
  }

  /** The most that is submitted from sentence `i` on: until the text is over, a
      sentence raises, or the consumer waits for one that was not submitted. */
  function Reach(c: Config, i: nat): nat
    requires c.Valid() && i <= |c.jobs|
    decreases |c.jobs| - i
  {
    if i == |c.jobs| || AtSentence(c, i) <= i then AtSentence(c, i)
    else if c.jobs[i].ending == Raises then AfterFirst(c, i)
    else Reach(c, i + 1)
  }

  function Submitted(c: Config): nat
    requires c.Valid()
  {
    Reach(c, 0)
  }

  lemma {:induction false} ReachBounds(c: Config, i: nat)
    requires c.Valid() && i <= |c.jobs|
    ensures AtSentence(c, i) <= Reach(c, i)
    ensures i < |c.jobs| && i < AtSentence(c, i) ==> AfterFirst(c, i) <= Reach(c, i)
    decreases |c.jobs| - i
  {
    if i < |c.jobs| && i < AtSentence(c, i) && c.jobs[i].ending != Raises { ReachBounds(c, i + 1); }
  }

  lemma {:induction false} SubmittedFits(c: Config, i: nat)
    requires c.Valid() && i <= |c.jobs|
    ensures 1 <= AtSentence(c, i) <= |c.jobs|
    ensures i < |c.jobs| ==> AfterFirst(c, i) <= |c.jobs|
  {
    if i > 0 { SubmittedFits(c, i - 1); }
  }

  /** The number submitted is decided by where the consumer is. */
  ghost predicate Placed(c: Config, s: State)
    requires Shape(c, s)
  {
    && s.next <= Submitted(c)
    && (Live(s) ==> s.cur < |s.jobs| && (s.firstSeen <==> s.jobs[s.cur].taken > 0))
    && (Live(s) && !s.cancel ==>
          && Reach(c, s.cur) == Submitted(c) && (s.firstSeen ==> s.cur < AtSentence(c, s.cur))
          && s.next == (if s.firstSeen then AfterFirst(c, s.cur) else AtSentence(c, s.cur)))
    && (s.phase == Setup ==> !s.firstSeen)
  }

  ghost predicate PlacedInv(c: Config, s: State) { Inv(c, s) && Placed(c, s) }

  lemma PrefetchCounts(c: Config, s: State)
    requires |s.jobs| == |c.jobs|
    ensures MaybePrefetch(c, s).next == if s.cancel then s.next else Prefetched(c, s.next, s.cur)
  {}

  lemma CurrentIsSubmitted(c: Config, s: State)
    requires Inv(c, s) && Take(c, s).Some?
    ensures Live(s) && s.cur < s.next
    ensures JobInv(c.jobs[s.cur], s.jobs[s.cur], s.cancel) && s.jobs[s.cur].taken <= s.jobs[s.cur].delivered
  {
    assert JobInv(c.jobs[s.cur], s.jobs[s.cur], s.cancel);
    hide JobInv, Drained, CleanupInv;
    if s.jobs[s.cur].status.Unsubmitted? { UnsubmittedEmpty(c.jobs[s.cur], s.jobs[s.cur], s.cancel); }
  }

  lemma LiveInRange(c: Config, s: State)
    requires Inv(c, s)
    ensures Shape(c, s) && (Live(s) ==> s.cur < |s.jobs|)
  {
    hide Shape, CleanupInv, Drained;
  }

  lemma PcmPlaced(c: Config, s: State)
    requires PlacedInv(c, s) && Step(c, s, TakeItem).Some? && s.jobs[s.cur].log[s.jobs[s.cur].taken].Pcm?
    requires Shape(c, Step(c, s, TakeItem).value)
    ensures Placed(c, Step(c, s, TakeItem).value)
  {
    var j := s.jobs[s.cur];
    var popped := s.(jobs := s.jobs[s.cur := j.(taken := j.taken + 1)]);
    CurrentIsSubmitted(c, s);
    TakePcmStep(c, s, popped);
    LiveInRange(c, s) by { hide Step; }
    hide Inv, Step;
    ReadPcm(c.jobs[s.cur], j, s.cancel);
    hide JobInv, Shape;
    PrefetchCounts(c, popped);
    PrefetchKeepsTaken(c, popped, s.cur);
    hide MaybePrefetch;
    PlaceAfterChunk(c, s, Step(c, s, TakeItem).value);
  }

  /** The sums, when a chunk of the current sentence has been read. */
  lemma PlaceAfterChunk(c: Config, s: State, t: State)
    requires Shape(c, s) && Shape(c, t) && Placed(c, s) && Live(s) && s.cur < s.next
    requires t.phase == Yielded && t.cur == s.cur && t.cancel == s.cancel && t.firstSeen && t.jobs[s.cur].taken > 0
    requires c.jobs[s.cur].chunks != []
    requires t.next == if s.cancel || s.firstSeen then s.next else Prefetched(c, s.next, s.cur)
    ensures Placed(c, t)
  {
    ReachBounds(c, s.cur);
    hide Shape, Reach, Prefetched;
  }

  lemma EndReads(script: Script, j: Job)
    requires JobInv(script, j, false) && j.taken <= j.delivered && j.taken < |j.log| && j.log[j.taken] == EndMark
    ensures script.ending != Raises && (j.taken > 0 <==> script.chunks != [])
  {}

  lemma EndPlaced(c: Config, s: State)
    requires PlacedInv(c, s) && Step(c, s, TakeItem).Some? && s.jobs[s.cur].log[s.jobs[s.cur].taken] == EndMark
    requires Shape(c, Step(c, s, TakeItem).value) && !s.cancel && s.cur + 1 < |s.jobs|
    ensures Placed(c, Step(c, s, TakeItem).value)
  {
    hide PlacedInv, Step, Placed, Shape, MaybePrefetch, AtSentence, Prefetched, Reach;
    var popped := s.(jobs := s.jobs[s.cur := s.jobs[s.cur].(taken := s.jobs[s.cur].taken + 1)]);
    EndFacts(c, s);
    TakeEndStep(c, s, popped);
    PrefetchCounts(c, popped);
    PrefetchKeepsTaken(c, popped, s.cur + 1);
    PlaceAfterEnd(c, s);
    var t := MaybePrefetch(c, popped).(cur := s.cur + 1, firstSeen := false, phase := Fetching);
    PlacedAtStart(c, t);
  }

  lemma EndFacts(c: Config, s: State)
    requires PlacedInv(c, s) && Step(c, s, TakeItem).Some? && s.jobs[s.cur].log[s.jobs[s.cur].taken] == EndMark
    requires !s.cancel && s.cur + 1 < |s.jobs|
    ensures Shape(c, s) && Placed(c, s) && Live(s) && s.cur < s.next && |s.jobs| == |c.jobs|
    ensures c.jobs[s.cur].ending != Raises && (s.jobs[s.cur].taken > 0 <==> c.jobs[s.cur].chunks != [])
    ensures s.jobs[s.cur + 1].taken == 0
  {
    CurrentIsSubmitted(c, s);
    NextUntouched(c, s);
    hide Placed, Step, ConsumerInv, CleanupInv;
    EndReads(c.jobs[s.cur], s.jobs[s.cur]);
    hide JobInv;
  }

  lemma PlacedAtStart(c: Config, t: State)
    requires Shape(c, t) && t.phase == Fetching && t.cur < |t.jobs| && !t.firstSeen && t.jobs[t.cur].taken == 0
    requires t.next == AtSentence(c, t.cur) && Reach(c, t.cur) == Submitted(c)
    ensures Placed(c, t)
  {
    ReachBounds(c, t.cur);
    hide Shape, Reach, AtSentence;
  }

  lemma PrefetchKeepsTaken(c: Config, s: State, i: nat)
    requires i < |s.jobs|
    ensures |MaybePrefetch(c, s).jobs| == |s.jobs| && MaybePrefetch(c, s).jobs[i].taken == s.jobs[i].taken
  {
    hide Allows;
  }

  /** The sums, when a sentence that did not raise has been read to its end. */
  lemma PlaceAfterEnd(c: Config, s: State)
    requires Shape(c, s) && Placed(c, s) && Live(s) && !s.cancel && s.cur < s.next && s.cur + 1 < |s.jobs|
    requires c.jobs[s.cur].ending != Raises && (s.jobs[s.cur].taken > 0 <==> c.jobs[s.cur].chunks != [])
    ensures AtSentence(c, s.cur + 1) == Prefetched(c, s.next, s.cur)
    ensures Reach(c, s.cur + 1) == Submitted(c)
  {
    assert s.cur < AtSentence(c, s.cur) && s.next == AfterFirst(c, s.cur) && |s.jobs| == |c.jobs|;
    hide Shape, Allows, Prefetched;
    assert Reach(c, s.cur) == Reach(c, s.cur + 1);
  }

  lemma NextUntouched(c: Config, s: State)
    requires Inv(c, s) && Live(s) && s.cur + 1 < |s.jobs|
    ensures s.jobs[s.cur + 1].taken == 0
  {}

  lemma SamePlace(c: Config, s: State, t: State)
    requires Shape(c, s) && Shape(c, t) && Placed(c, s)
    requires t.next == s.next && t.cur == s.cur && t.firstSeen == s.firstSeen
    requires Live(t) ==> Live(s) && s.cur < |t.jobs| && t.jobs[s.cur].taken == s.jobs[s.cur].taken
    requires (s.cancel ==> t.cancel) && (t.phase == Setup ==> s.phase == Setup)
    ensures Placed(c, t)
  {
    hide Shape, Reach, AtSentence, AfterFirst;
  }

  lemma StopPlaced(c: Config, s: State)
    requires PlacedInv(c, s) && Step(c, s, TakeItem).Some? && Step(c, s, TakeItem).value.phase.Closed?
    requires Shape(c, Step(c, s, TakeItem).value)
    ensures Placed(c, Step(c, s, TakeItem).value)
  {
    CurrentIsSubmitted(c, s);
    assert s.next <= |s.jobs| by { hide JobInv, ConsumerInv, CleanupInv; }
    hide Inv, Placed, Shape;
    StopSubmitsNothing(c, s);
    hide Step;
    SamePlace(c, s, Step(c, s, TakeItem).value);
  }

  lemma StopSubmitsNothing(c: Config, s: State)
    requires Step(c, s, TakeItem).Some? && Step(c, s, TakeItem).value.phase.Closed?
    requires s.cur < s.next <= |s.jobs|
    ensures var t := Step(c, s, TakeItem).value;
            t.next == s.next && t.cur == s.cur && t.firstSeen == s.firstSeen && t.cancel
  {
    hide Allows;
  }

  lemma TakePlaced(c: Config, s: State)
    requires PlacedInv(c, s) && Step(c, s, TakeItem).Some? && Shape(c, Step(c, s, TakeItem).value)
    ensures Placed(c, Step(c, s, TakeItem).value)
  {
    TakeKinds(c, s);
    hide PlacedInv, Placed, Step, Shape;
    if s.jobs[s.cur].log[s.jobs[s.cur].taken].Pcm? {
      PcmPlaced(c, s);
    } else if Step(c, s, TakeItem).value.phase.Closed? {
      StopPlaced(c, s);
    } else {
      EndPlaced(c, s);
    }
  }

  lemma TakeKinds(c: Config, s: State)
    requires Step(c, s, TakeItem).Some?
    ensures s.cur < |s.jobs| && s.jobs[s.cur].taken < |s.jobs[s.cur].log|
    ensures var item := s.jobs[s.cur].log[s.jobs[s.cur].taken];
            !item.Pcm? && !Step(c, s, TakeItem).value.phase.Closed? ==>
              item == EndMark && !s.cancel && s.cur + 1 < |s.jobs|
  {
    hide MaybePrefetch;
  }

  lemma ThreadFrame(c: Config, s: State, a: Action)
    requires Step(c, s, a).Some? && (IsThreadAction(a) || a.JobStart?)
    ensures a.job < |s.jobs|
    ensures var t := Step(c, s, a).value;
            t == s.(jobs := s.jobs[a.job := t.jobs[a.job]]) && t.jobs[a.job].taken == s.jobs[a.job].taken
  {
    if IsThreadAction(a) {
      StepIsThread(c, s, a);
      JobStepFrame(c.jobs[a.job], s.jobs[a.job], s.cancel, a);
      hide Step, JobStep;
    } else {
      hide RunningCount;
    }
  }

  lemma ThreadPlaced(c: Config, s: State, a: Action)
    requires PlacedInv(c, s) && Step(c, s, a).Some? && (IsThreadAction(a) || a.JobStart?)
    requires Shape(c, Step(c, s, a).value)
    ensures Placed(c, Step(c, s, a).value)
  {
    LiveInRange(c, s);
    hide Inv, Placed, Shape, Step;
    ThreadFrame(c, s, a);
    SamePlace(c, s, Step(c, s, a).value);
  }

  lemma ControlFrame(c: Config, s: State, a: Action)
    requires Step(c, s, a).Some? && !IsThreadAction(a) && !a.JobStart? && a != TakeItem && a != Begin
    ensures var t := Step(c, s, a).value;
            && t.next == s.next && t.cur == s.cur && t.firstSeen == s.firstSeen && t.jobs == s.jobs
            && (Live(t) ==> Live(s)) && (s.cancel ==> t.cancel) && (t.phase == Setup ==> s.phase == Setup)
  {
    hide Take, JobStep;
  }

  lemma ControlPlaced(c: Config, s: State, a: Action)
    requires PlacedInv(c, s) && Step(c, s, a).Some?
    requires !IsThreadAction(a) && !a.JobStart? && a != TakeItem
    requires Shape(c, Step(c, s, a).value)
    ensures Placed(c, Step(c, s, a).value)
  {
    if a == Begin {
      BeginPlaced(c, s);
    } else {
      ControlFrame(c, s, a);
      LiveInRange(c, s) by { hide Step; }
      hide Inv, Placed, Shape, Step;
      SamePlace(c, s, Step(c, s, a).value);
    }
  }

  lemma BeginPlaced(c: Config, s: State)
    requires PlacedInv(c, s) && Step(c, s, Begin).Some? && Shape(c, Step(c, s, Begin).value)
    ensures Placed(c, Step(c, s, Begin).value)
  {
    assert s.next == 0 && s.cur == 0 && !s.cancel && s.jobs[0].taken == 0;
    hide Inv, Shape;
    ReachBounds(c, 0);
    hide Reach;
  }

  lemma StepKeepsPlace(c: Config, s: State, a: Action)
    requires PlacedInv(c, s) && Step(c, s, a).Some?
    ensures PlacedInv(c, Step(c, s, a).value)
  {
    StepKeepsInv(c, s, a);
    hide Placed, Step;
    if a == TakeItem {
      TakePlaced(c, s);
    } else if IsThreadAction(a) || a.JobStart? {
      ThreadPlaced(c, s, a);
    } else {
      ControlPlaced(c, s, a);
    }
  }

  lemma {:induction false} ExecKeepsPlace(c: Config, s: State, acts: seq<Action>)
    requires PlacedInv(c, s) && Exec(c, s, acts).Some?
    ensures PlacedInv(c, Exec(c, s, acts).value)
    decreases acts
  {
    hide PlacedInv, Step;
    if acts != [] {
      StepKeepsPlace(c, s, acts[0]);
      ExecKeepsPlace(c, Step(c, s, acts[0]).value, acts[1..]);
    }
  }

  lemma ReachablePlace(c: Config, s: State)
    requires c.Valid() && Reachable(c, s)
    ensures PlacedInv(c, s)
  {
    InitInv(c);
    var acts :| Exec(c, Init(c), acts) == Some(s);
    ExecKeepsPlace(c, Init(c), acts);
  }

  /** Over every run no more sentences are handed to the executor than the text,
      the window and the guard allow. */
  lemma NeverMoreSubmitted(c: Config, s: State, i: nat)
    requires c.Valid() && Reachable(c, s) && i < |s.jobs| && !s.jobs[i].status.Unsubmitted?
    ensures i < Submitted(c)
  {
    ReachablePlace(c, s);
  }

  // ---------------------------------------------------------------- how many are inside together

  function BackendCount(jobs: seq<Job>): nat {
    if jobs == [] then 0 else (if InBackend(jobs[0]) then 1 else 0) + BackendCount(jobs[1..])
  }

  lemma {:induction false} BackendIsRunning(jobs: seq<Job>)
    ensures BackendCount(jobs) <= RunningCount(jobs)
  {
    if jobs != [] { BackendIsRunning(jobs[1..]); }
  }

  lemma {:induction false} BackendSpan(jobs: seq<Job>, lo: nat, hi: nat)
    requires lo <= hi && forall i :: 0 <= i < |jobs| && InBackend(jobs[i]) ==> lo <= i < hi
    ensures BackendCount(jobs) <= hi - lo
  {
    if jobs != [] {
      forall i | 0 <= i < |jobs| - 1 && InBackend(jobs[1..][i])
        ensures (if lo > 0 then lo - 1 else 0) <= i < hi - 1
      {
        assert jobs[1..][i] == jobs[i + 1];
      }
      if hi == 0 {
        BackendSpan(jobs[1..], 0, 0);
      } else {
        BackendSpan(jobs[1..], if lo > 0 then lo - 1 else 0, hi - 1);
      }
    }
  }

  lemma {:induction false} BackendAll(jobs: seq<Job>, lo: nat, hi: nat)
    requires lo <= hi <= |jobs| && forall i :: lo <= i < hi ==> InBackend(jobs[i])
    ensures BackendCount(jobs) >= hi - lo
  {
    if hi > 0 {
      assert forall i :: 0 <= i < |jobs[1..]| ==> jobs[1..][i] == jobs[i + 1];
      BackendAll(jobs[1..], if lo > 0 then lo - 1 else 0, hi - 1);
    }
  }

  lemma {:induction false} RunningUpdate(jobs: seq<Job>, i: nat, k: Job)
    requires i < |jobs|
    ensures RunningCount(jobs[i := k]) + (if Running(jobs[i]) then 1 else 0)
            == RunningCount(jobs) + (if Running(k) then 1 else 0)
  {
    if i > 0 {
      assert jobs[i := k][1..] == jobs[1..][i - 1 := k];
      RunningUpdate(jobs[1..], i - 1, k);
    } else {
      assert jobs[i := k][1..] == jobs[1..];
    }
  }

  lemma {:induction false} RunningSpan(jobs: seq<Job>, lo: nat, hi: nat)
    requires lo <= hi && forall i :: 0 <= i < |jobs| && Running(jobs[i]) ==> lo <= i < hi
    ensures RunningCount(jobs) <= hi - lo
  {
    if jobs != [] {
      forall i | 0 <= i < |jobs| - 1 && Running(jobs[1..][i])
        ensures (if lo > 0 then lo - 1 else 0) <= i < hi - 1
      {
        assert jobs[1..][i] == jobs[i + 1];
      }
      if hi == 0 {
        RunningSpan(jobs[1..], 0, 0);
      } else {
        RunningSpan(jobs[1..], if lo > 0 then lo - 1 else 0, hi - 1);
      }
    }
  }

  /** What stays true after the drain loop has been left, too. */
  ghost predicate Bounded(c: Config, s: State) {
    && s.next <= s.cur + 1 + Lookahead(c) && RunningCount(s.jobs) <= c.workers
    && forall i :: 0 <= i < s.cur && i < |s.jobs| ==> Marked(s.jobs[i])
  }

  lemma MarkedStays(script: Script, j: Job, cancel: bool, a: Action)
    requires JobStep(script, j, cancel, a).Some?
    ensures Running(j) && (Marked(j) ==> Marked(JobStep(script, j, cancel, a).value))
  {}

  lemma ThreadBounded(c: Config, s: State, a: Action)
    requires Bounded(c, s) && Step(c, s, a).Some? && IsThreadAction(a)
    ensures Bounded(c, Step(c, s, a).value)
  {
    StepIsThread(c, s, a);
    MarkedStays(c.jobs[a.job], s.jobs[a.job], s.cancel, a);
    hide Step, JobStep, Marked, Running;
    RunningUpdate(s.jobs, a.job, JobStep(c.jobs[a.job], s.jobs[a.job], s.cancel, a).value);
  }

  lemma StartBounded(c: Config, s: State, i: nat)
    requires Bounded(c, s) && Step(c, s, JobStart(i)).Some?
    ensures Bounded(c, Step(c, s, JobStart(i)).value)
  {
    hide RunningCount;
    RunningUpdate(s.jobs, i, s.jobs[i].(status := Started));
  }

  lemma SubmitRunsNothing(s: State)
    requires s.next < |s.jobs| && !Running(s.jobs[s.next])
    ensures RunningCount(Submit(s).jobs) == RunningCount(s.jobs)
  {
    RunningUpdate(s.jobs, s.next, s.jobs[s.next].(status := Queued));
  }

  lemma PrefetchRunsNothing(c: Config, s: State)
    requires forall i :: s.next <= i < |s.jobs| ==> !Running(s.jobs[i])
    ensures RunningCount(MaybePrefetch(c, s).jobs) == RunningCount(s.jobs)
  {
    if s.next < |s.jobs| { SubmitRunsNothing(s); }
  }

  /** Reading an item neither starts nor ends a thread, and leaving the loop
      neither submits a sentence nor moves on to one. */
  lemma TakeBounded(c: Config, s: State)
    requires Inv(c, s) && Bounded(c, s) && Step(c, s, TakeItem).Some? && Inv(c, Step(c, s, TakeItem).value)
    ensures Bounded(c, Step(c, s, TakeItem).value)
  {
    var t := Step(c, s, TakeItem).value;
    CurrentIsSubmitted(c, s);
    LiveInRange(c, s) by { hide Step; }
    assert s.next <= |s.jobs| && forall i :: s.next <= i < |s.jobs| ==> !Running(s.jobs[i]) by {
      hide JobInv, ConsumerInv, CleanupInv, Step;
    }
    TakeRunsNothing(c, s);
    if t.phase.Closed? {
      StopSubmitsNothing(c, s);
      hide Inv;
      TakeStatuses(c, s);
      hide Step, Lookahead;
    } else {
      TakeLeavesLive(c, s);
      hide Step, Lookahead, RunningCount;
      LiveBounded(c, t);
    }
  }

  lemma TakeLeavesLive(c: Config, s: State)
    requires Step(c, s, TakeItem).Some? && !Step(c, s, TakeItem).value.phase.Closed?
    ensures Live(Step(c, s, TakeItem).value)
  {
    hide Allows;
  }

  lemma LiveBounded(c: Config, s: State)
    requires Inv(c, s) && Live(s)
    ensures s.next <= s.cur + 1 + Lookahead(c)
    ensures forall i :: 0 <= i < s.cur && i < |s.jobs| ==> Marked(s.jobs[i])
  {
    hide Shape, CleanupInv;
  }

  lemma TakeRunsNothing(c: Config, s: State)
    requires Step(c, s, TakeItem).Some? && s.cur < |s.jobs|
    requires forall i :: s.next <= i < |s.jobs| ==> !Running(s.jobs[i])
    ensures RunningCount(Step(c, s, TakeItem).value.jobs) == RunningCount(s.jobs)
  {
    var k := s.jobs[s.cur].(taken := s.jobs[s.cur].taken + 1);
    var popped := s.(jobs := s.jobs[s.cur := k]);
    RunningUpdate(s.jobs, s.cur, k);
    PrefetchRunsNothing(c, popped);
    hide RunningCount, Step, MaybePrefetch, Running;
    TakeJobs(c, s, popped);
  }

  lemma TakeJobs(c: Config, s: State, popped: State)
    requires Step(c, s, TakeItem).Some? && s.cur < |s.jobs|
    requires popped == s.(jobs := s.jobs[s.cur := s.jobs[s.cur].(taken := s.jobs[s.cur].taken + 1)])
    ensures Step(c, s, TakeItem).value.jobs == popped.jobs
            || Step(c, s, TakeItem).value.jobs == MaybePrefetch(c, popped).jobs
  {
    hide MaybePrefetch;
  }

  lemma TakeStatuses(c: Config, s: State)
    requires Step(c, s, TakeItem).Some? && s.cur < |s.jobs|
    ensures var t := Step(c, s, TakeItem).value;
            && |t.jobs| == |s.jobs|
            && forall i :: 0 <= i < |s.jobs| && Marked(s.jobs[i]) && i < s.next ==> Marked(t.jobs[i])
  {
    var popped := s.(jobs := s.jobs[s.cur := s.jobs[s.cur].(taken := s.jobs[s.cur].taken + 1)]);
    hide Step, Allows;
    TakeJobs(c, s, popped);
  }

  lemma BeginBounded(c: Config, s: State)
    requires Inv(c, s) && Bounded(c, s) && Step(c, s, Begin).Some?
    ensures Bounded(c, Step(c, s, Begin).value)
  {
    assert s.next == 0 && s.cur == 0 && s.jobs[0].status.Unsubmitted?;
    hide Inv, RunningCount;
    SubmitRunsNothing(s);
  }

  lemma StepKeepsBounded(c: Config, s: State, a: Action)
    requires Inv(c, s) && Bounded(c, s) && Step(c, s, a).Some?
    ensures Inv(c, Step(c, s, a).value) && Bounded(c, Step(c, s, a).value)
  {
    StepKeepsInv(c, s, a);
    if a == TakeItem {
      hide Inv, Bounded, Step;
      TakeBounded(c, s);
    } else if a == Begin {
      hide Inv, Bounded, Step;
      BeginBounded(c, s);
    } else if IsThreadAction(a) {
      hide Inv, Bounded, Step;
      ThreadBounded(c, s, a);
    } else if a.JobStart? {
      hide Inv, Bounded, Step;
      StartBounded(c, s, a.job);
    } else {
      hide Inv;
      ControlFrame(c, s, a);
      hide Step;
    }
  }

  lemma {:induction false} ExecKeepsBounded(c: Config, s: State, acts: seq<Action>)
    requires Inv(c, s) && Bounded(c, s) && Exec(c, s, acts).Some?
    ensures Inv(c, Exec(c, s, acts).value) && Bounded(c, Exec(c, s, acts).value)
    decreases acts
  {
    hide Inv, Bounded, Step;
    if acts != [] {
      StepKeepsBounded(c, s, acts[0]);
      ExecKeepsBounded(c, Step(c, s, acts[0]).value, acts[1..]);
    }
  }

  lemma ReachableBounded(c: Config, s: State)
    requires c.Valid() && Reachable(c, s)
    ensures Inv(c, s) && Bounded(c, s)
  {
    InitInv(c);
    RunningSpan(Init(c).jobs, 0, 0);
    assert Inv(c, Init(c)) && Bounded(c, Init(c));
    hide Inv, Bounded;
    var acts :| Exec(c, Init(c), acts) == Some(s);
    ExecKeepsBounded(c, Init(c), acts);
  }

  lemma BackendRange(c: Config, s: State, i: nat)
    requires Inv(c, s) && Bounded(c, s) && i < |s.jobs| && InBackend(s.jobs[i])
    ensures s.cur <= i < s.cur + 1 + Lookahead(c)
  {
    hide JobInv, ConsumerInv, CleanupInv, RunningCount, Lookahead;
    assert i < s.next;
  }

  /** Over every run at most `workers` sentences of a response are inside the
      backend together, and at most one more than the window lets ahead. */
  lemma InFlightBound(c: Config, s: State)
    requires c.Valid() && Reachable(c, s)
    ensures BackendCount(s.jobs) <= c.workers
    ensures BackendCount(s.jobs) <= Lookahead(c) + 1
  {
    ReachableBounded(c, s);
    assert RunningCount(s.jobs) <= c.workers;
    BackendIsRunning(s.jobs);
    forall i | 0 <= i < |s.jobs| && InBackend(s.jobs[i]) ensures s.cur <= i < s.cur + 1 + Lookahead(c) {
      BackendRange(c, s, i);
    }
    hide Inv, Bounded, InBackend;
    BackendSpan(s.jobs, s.cur, s.cur + 1 + Lookahead(c));
  }
}
