/** Safety of the `/tts/stream` pipeline over every run: what the client hears,
    how far the window reaches, and when the leases are given back. */
module TtsStreamSafety {
  import opened TtsStream
  import opened TtsStreamInvariant
  import opened TtsStreamWindow
  import opened Wrappers

  /** Whatever the window, the number of workers, the schedule, the moment of a
      cancel and the sentence that fails: the chunks yielded so far are a prefix
      of the serial concatenation, and all of it once the drain loop has run to
      its end without a cancel. */
  lemma OrderedPrefix(c: Config, s: State)
    requires c.Valid() && Reachable(c, s)
    ensures s.out <= Serial(c.jobs)
    ensures s.phase == Closed(Completed) ==> s.out == Serial(c.jobs)
  {
    ReachableInv(c, s);
    if Live(s) { LivePrefix(c, s); }
  }

  /** The only sentences in the executor that may still produce audio are the
      one being drained and the `Lookahead` sentences after it; with the current
      guard the one being drained is always among the submitted ones. */
  lemma WindowBound(c: Config, s: State, i: nat)
    requires c.Valid() && Reachable(c, s) && Live(s)
    requires i < |s.jobs| && !s.jobs[i].status.Unsubmitted? && !Marked(s.jobs[i])
    ensures s.cur <= i <= s.cur + Lookahead(c)
    ensures c.guard == Current ==> s.cur < s.next && s.next - 1 - s.cur <= c.window
  {
    ReachableInv(c, s);
    assert i < s.cur ==> Drained(c.jobs[i], s.jobs[i]);
  }

  // ---------------------------------------------------------------- threads

  predicate InOrder(s: State) {
    forall i, k :: 0 <= i < k < |s.jobs| && HasStarted(s.jobs[k]) ==> HasStarted(s.jobs[i])
  }

  lemma SameStartedInOrder(s: State, t: State)
    requires InOrder(s) && |t.jobs| == |s.jobs|
    requires forall i :: 0 <= i < |s.jobs| ==> (HasStarted(t.jobs[i]) <==> HasStarted(s.jobs[i]))
    ensures InOrder(t)
  {
    hide HasStarted;
  }

  lemma StartInOrder(c: Config, s: State, i: nat)
    requires Inv(c, s) && InOrder(s) && Step(c, s, JobStart(i)).Some?
    ensures InOrder(Step(c, s, JobStart(i)).value)
  {
    hide RunningCount, JobInv, ConsumerInv, CleanupInv;
    var t := Step(c, s, JobStart(i)).value;
    assert forall k :: 0 <= k < i ==> HasStarted(s.jobs[k]);
    assert forall k :: 0 <= k < |s.jobs| && k != i ==> t.jobs[k] == s.jobs[k];
    hide Step, Inv, NextInLine;
  }

  lemma TakeStartsNone(c: Config, s: State)
    requires Inv(c, s) && Step(c, s, TakeItem).Some?
    ensures var t := Step(c, s, TakeItem).value;
            |t.jobs| == |s.jobs|
            && forall i :: 0 <= i < |s.jobs| ==> (HasStarted(t.jobs[i]) <==> HasStarted(s.jobs[i]))
  {
    hide Step, Allows, JobInv, ConsumerInv, CleanupInv;
    LiveWhileTaking(c, s);
    TakeJobs(c, s, s.(jobs := s.jobs[s.cur := s.jobs[s.cur].(taken := s.jobs[s.cur].taken + 1)]));
  }

  lemma OtherStartsNone(c: Config, s: State, a: Action)
    requires Inv(c, s) && Step(c, s, a).Some? && !a.JobStart? && a != TakeItem
    ensures var t := Step(c, s, a).value;
            |t.jobs| == |s.jobs|
            && forall i :: 0 <= i < |s.jobs| ==> (HasStarted(t.jobs[i]) <==> HasStarted(s.jobs[i]))
  {
    if IsThreadAction(a) {
      StepIsThread(c, s, a);
      JobStepFrame(c.jobs[a.job], s.jobs[a.job], s.cancel, a);
      hide Inv, Step, JobStep, HasStarted;
    } else if a == Begin {
      hide JobInv, ConsumerInv, CleanupInv;
    } else {
      ControlFrame(c, s, a);
      hide Step, Inv;
    }
  }

  lemma StepInOrder(c: Config, s: State, a: Action)
    requires Inv(c, s) && InOrder(s) && Step(c, s, a).Some?
    ensures InOrder(Step(c, s, a).value)
  {
    hide Inv, InOrder, Step, HasStarted;
    if a.JobStart? {
      StartInOrder(c, s, a.job);
    } else {
      if a == TakeItem { TakeStartsNone(c, s); } else { OtherStartsNone(c, s, a); }
      SameStartedInOrder(s, Step(c, s, a).value);
    }
  }

  lemma {:induction false} ExecInOrder(c: Config, s: State, acts: seq<Action>)
    requires Inv(c, s) && InOrder(s) && Exec(c, s, acts).Some?
    ensures InOrder(Exec(c, s, acts).value)
    decreases acts
  {
    hide Inv, InOrder, Step;
    if acts != [] {
      StepKeepsInv(c, s, acts[0]);
      StepInOrder(c, s, acts[0]);
      ExecInOrder(c, Step(c, s, acts[0]).value, acts[1..]);
    }
  }

  /** A sentence is given a thread only after every sentence before it, so one
      that the client waits for is never held up by one prefetched behind it. */
  lemma StartedInOrder(c: Config, s: State)
    requires c.Valid() && Reachable(c, s)
    ensures forall i, k :: 0 <= i < k < |s.jobs| && HasStarted(s.jobs[k]) ==> HasStarted(s.jobs[i])
  {
    InitInv(c);
    var acts :| Exec(c, Init(c), acts) == Some(s);
    ExecInOrder(c, Init(c), acts);
  }

  // ---------------------------------------------------------------- leases

  predicate LeaseGone(s: State) { s.attempts != [0, 0, 0] }

  /** A sentence that leaves an exception in its future is the last one ever
      submitted, or is never submitted itself. */
  predicate EscapesContained(c: Config)
    requires c.Valid()
  {
    forall k :: 0 <= k < |c.jobs| && c.jobs[k].ending == Escapes ==> Submitted(c) <= k + 1
  }

  /** Which jobs may be inside the backend, by the stage of the cleanup. */
  ghost predicate LeaseInv(s: State) {
    && (s.cleanup.Draining? ==>
          |s.cleanup.wait| == |s.jobs|
          && forall i :: 0 <= i < |s.jobs| && InBackend(s.jobs[i]) ==>
               s.cleanup.wait[i] && s.cleanup.from <= i)
    && (s.release != Held ==> forall i :: 0 <= i < |s.jobs| ==> !InBackend(s.jobs[i]))
  }

  predicate Guarded(s: State) { s.cleanup.Draining? || s.release != Held }

  lemma JobUpdateLeases(s: State, i: nat, k: Job)
    requires LeaseInv(s) && i < |s.jobs|
    requires InBackend(k) ==> InBackend(s.jobs[i]) || !Guarded(s)
    ensures LeaseInv(s.(jobs := s.jobs[i := k]))
  {
    hide InBackend;
  }

  /** While the cleanup drains or releases, the flag is up or nothing was ever
      submitted. */
  lemma GuardedMeansCancelled(c: Config, s: State)
    requires Inv(c, s) && Guarded(s)
    ensures s.cancel || s.next == 0
  {
    hide Shape, LeaseCounts;
  }

  lemma ThreadKeepsLeases(c: Config, s: State, a: Action)
    requires Inv(c, s) && LeaseInv(s) && Step(c, s, a).Some? && IsThreadAction(a)
    ensures LeaseInv(Step(c, s, a).value)
  {
    StepIsThread(c, s, a);
    hide Step;
    var j := s.jobs[a.job];
    var k := JobStep(c.jobs[a.job], j, s.cancel, a).value;
    JobStepFrame(c.jobs[a.job], j, s.cancel, a);
    hide JobStep;
    assert !(s.next == 0) by { hide ConsumerInv, CleanupInv, JobInv; }
    if Guarded(s) { GuardedMeansCancelled(c, s); }
    hide Inv, LeaseInv, InBackend;
    JobUpdateLeases(s, a.job, k);
  }

  lemma OtherKeepsLeases(c: Config, s: State, a: Action)
    requires Inv(c, s) && LeaseInv(s) && Step(c, s, a).Some?
    requires !IsThreadAction(a) && a != TakeItem && a != DrainNext && !a.JobStart?
    ensures LeaseInv(Step(c, s, a).value)
  {
    hide JobStep, Take, LeaseCounts, RunningCount, JobInv, Drained;
  }

  lemma StartKeepsLeases(c: Config, s: State, i: nat)
    requires LeaseInv(s) && Step(c, s, JobStart(i)).Some?
    ensures LeaseInv(Step(c, s, JobStart(i)).value)
  {
    hide RunningCount;
    JobUpdateLeases(s, i, s.jobs[i].(status := Started));
  }

  lemma StepKeepsLeases(c: Config, s: State, a: Action)
    requires PlacedInv(c, s) && LeaseInv(s) && c.Valid() && EscapesContained(c) && Step(c, s, a).Some?
    ensures LeaseInv(Step(c, s, a).value)
  {
    assert Inv(c, s) && s.next <= Submitted(c);
    hide Inv, PlacedInv, LeaseInv, Step, EscapesContained, Submitted;
    if IsThreadAction(a) {
      ThreadKeepsLeases(c, s, a);
    } else if a == TakeItem {
      TakeKeepsLeases(c, s);
    } else if a == DrainNext {
      DrainKeepsLeases(c, s);
    } else if a.JobStart? {
      StartKeepsLeases(c, s, a.job);
    } else {
      OtherKeepsLeases(c, s, a);
    }
  }

  lemma TakeFrame(c: Config, s: State)
    requires Take(c, s).Some?
    ensures var t := Take(c, s).value;
            && |t.jobs| == |s.jobs| && t.release == s.release && t.attempts == s.attempts
            && (t.cleanup == s.cleanup || t.cleanup == Scheduled)
            && (forall i :: 0 <= i < |s.jobs| ==> InBackend(t.jobs[i]) ==> InBackend(s.jobs[i]))
  {
    hide Allows;
    var t := Take(c, s).value;
    var j := s.jobs[s.cur];
    var popped := s.(jobs := s.jobs[s.cur := j.(taken := j.taken + 1)]);
    assert t.jobs == popped.jobs || t.jobs == MaybePrefetch(c, popped).jobs;
  }

  lemma TakeKeepsLeases(c: Config, s: State)
    requires LeaseInv(s) && Step(c, s, TakeItem).Some?
    ensures LeaseInv(Step(c, s, TakeItem).value)
  {
    TakeFrame(c, s);
    hide Take, InBackend;
  }

  lemma DrainEffect(s: State)
    requires CleanupStep(s, DrainNext).Some?
    ensures s.cleanup.Draining? && s.cleanup.from < |s.jobs| == |s.cleanup.wait|
    ensures var t, i := CleanupStep(s, DrainNext).value, s.cleanup.from;
            && t.jobs == s.jobs
            && (s.cleanup.wait[i] ==> !InBackend(s.jobs[i]))
            && (t == s.(cleanup := s.cleanup.(from := i + 1))
                || (s.cleanup.wait[i] && s.jobs[i].escaped && t.cleanup == Over))
  {}

  lemma DrainKeepsLeases(c: Config, s: State)
    requires Inv(c, s) && LeaseInv(s) && Step(c, s, DrainNext).Some?
    requires c.Valid() && EscapesContained(c) && s.next <= Submitted(c)
    ensures LeaseInv(Step(c, s, DrainNext).value)
  {
    hide Inv, CleanupStep, InBackend, Step, EscapesContained, Submitted;
    StepIsDrain(c, s);
    DrainEffect(s);
    var i := s.cleanup.from;
    if s.jobs[i].escaped { EscapesLast(c, s, i); }
  }

  lemma StepIsDrain(c: Config, s: State)
    ensures Step(c, s, DrainNext) == CleanupStep(s, DrainNext)
  {
    hide CleanupStep;
  }

  lemma EscapesLast(c: Config, s: State, i: nat)
    requires Inv(c, s) && i < |s.jobs| && s.jobs[i].escaped
    requires c.Valid() && EscapesContained(c) && s.next <= Submitted(c)
    ensures forall m :: i < m < |s.jobs| ==> !InBackend(s.jobs[m])
  {
    assert JobInv(c.jobs[i], s.jobs[i], s.cancel);
    hide LogInv, ConsumerInv, CleanupInv, Submitted;
    assert s.next <= i + 1;
  }

  lemma {:induction false} ExecKeepsLeases(c: Config, s: State, acts: seq<Action>)
    requires PlacedInv(c, s) && LeaseInv(s) && c.Valid() && EscapesContained(c) && Exec(c, s, acts).Some?
    ensures PlacedInv(c, Exec(c, s, acts).value) && LeaseInv(Exec(c, s, acts).value)
    decreases acts
  {
    hide PlacedInv, LeaseInv, Step, EscapesContained;
    if acts != [] {
      StepKeepsPlace(c, s, acts[0]);
      StepKeepsLeases(c, s, acts[0]);
      ExecKeepsLeases(c, Step(c, s, acts[0]).value, acts[1..]);
    }
  }

  lemma ReachableLeases(c: Config, s: State)
    requires c.Valid() && EscapesContained(c) && Reachable(c, s)
    ensures PlacedInv(c, s) && LeaseInv(s)
  {
    InitInv(c);
    assert PlacedInv(c, Init(c)) && LeaseInv(Init(c));
    hide PlacedInv, LeaseInv;
    var acts :| Exec(c, Init(c), acts) == Some(s);
    ExecKeepsLeases(c, Init(c), acts);
  }

  lemma {:induction false} LeasesStayGone(c: Config, s: State, acts: seq<Action>)
    requires Inv(c, s) && LeaseGone(s) && Exec(c, s, acts).Some?
    ensures LeaseGone(Exec(c, s, acts).value)
    decreases acts
  {
    if acts != [] {
      var t := Step(c, s, acts[0]).value;
      StepKeepsInv(c, s, acts[0]);
      assert LeaseGone(t) by { OneStepStaysGone(c, s, acts[0]); }
      hide Inv, LeaseGone, Step;
      LeasesStayGone(c, t, acts[1..]);
    }
  }

  lemma OneStepStaysGone(c: Config, s: State, a: Action)
    requires Inv(c, s) && LeaseGone(s) && Step(c, s, a).Some?
    ensures LeaseGone(Step(c, s, a).value)
  {
    hide Shape, ConsumerInv, JobStep;
    if a == ReleaseNext {
      assert s.attempts[0] == 1;
    }
  }

  /** Once any of the three leases has been released, no job of this response is
      inside the backend, and none ever enters it again, in any continuation. */
  lemma LeaseSafety(c: Config, s: State, later: State)
    requires c.Valid() && EscapesContained(c)
    requires Reachable(c, s) && LeaseGone(s) && Reaches(c, s, later)
    ensures forall i :: 0 <= i < |later.jobs| ==> !InBackend(later.jobs[i])
  {
    ReachableLeases(c, s);
    var acts :| Exec(c, s, acts) == Some(later);
    LeasesStayGone(c, s, acts);
    ExecKeepsLeases(c, s, acts);
  }

  /** No lease is ever released twice; they go in the order coordinator, backend
      manager, session. */
  lemma ReleasedAtMostOnce(c: Config, s: State)
    requires c.Valid() && Reachable(c, s)
    ensures |s.attempts| == 3
    ensures 1 >= s.attempts[0] >= s.attempts[1] >= s.attempts[2] >= 0
  {
    ReachableInv(c, s);
  }
}
