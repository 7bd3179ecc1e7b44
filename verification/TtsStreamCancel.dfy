/** What a cancel of a `/tts/stream` response does: which runs are cancelled, and
    how little happens afterwards. */
module TtsStreamCancel {
  import opened TtsStream
  import opened TtsStreamInvariant
  import opened TtsStreamWindow
  import opened Wrappers

  // ---------------------------------------------------------------- who cancels

  predicate Stopped(s: State) { s.phase.Closed? && s.phase.outcome != NeverStarted }

  /** The cancel flag and the cleanup, from the steps taken so far. */
  ghost predicate Raised(acts: seq<Action>, s: State) {
    && (s.cancel <==> Disconnect in acts || FrameCancel in acts || Stopped(s))
    && (s.cleanup != NotStarted <==> Disconnect in acts || Stopped(s))
    && (s.phase == Closed(Aborted) <==> Abort in acts)
    && (s.phase == Closed(NeverStarted) <==> OuterFail in acts)
  }

  /** The same, of one step. */
  ghost predicate RaisedBy(s: State, a: Action, t: State) {
    && (t.cancel <==> s.cancel || a == Disconnect || a == FrameCancel || (Stopped(t) && !Stopped(s)))
    && (t.cleanup != NotStarted <==> s.cleanup != NotStarted || a == Disconnect || (Stopped(t) && !Stopped(s)))
    && (t.phase == Closed(Aborted) <==> s.phase == Closed(Aborted) || a == Abort)
    && (t.phase == Closed(NeverStarted) <==> s.phase == Closed(NeverStarted) || a == OuterFail)
    && (Stopped(s) ==> Stopped(t))
  }

  lemma ThreadRaisesNothing(c: Config, s: State, a: Action)
    requires Step(c, s, a).Some? && IsThreadAction(a)
    ensures RaisedBy(s, a, Step(c, s, a).value)
  {
    StepIsThread(c, s, a);
    hide Step, JobStep;
  }

  lemma TakeRaises(c: Config, s: State)
    requires Step(c, s, TakeItem).Some?
    ensures RaisedBy(s, TakeItem, Step(c, s, TakeItem).value)
  {
    hide Step, MaybePrefetch;
    LiveWhileTaking(c, s);
    var item := s.jobs[s.cur].log[s.jobs[s.cur].taken];
    var popped := s.(jobs := s.jobs[s.cur := s.jobs[s.cur].(taken := s.jobs[s.cur].taken + 1)]);
    PrefetchKeepsFlags(c, popped);
    if item.Pcm? {
      TakePcmStep(c, s, popped);
    } else if item == EndMark && !s.cancel {
      TakeEndStep(c, s, popped);
    } else {
      TakeStopStep(c, s, popped);
    }
  }

  lemma PrefetchKeepsFlags(c: Config, s: State)
    ensures var t := MaybePrefetch(c, s);
            t == s.(jobs := t.jobs, next := t.next) && |t.jobs| == |s.jobs|
    ensures s.cancel ==> MaybePrefetch(c, s) == s
  {}

  lemma StepRaises(c: Config, s: State, a: Action)
    requires Step(c, s, a).Some?
    ensures RaisedBy(s, a, Step(c, s, a).value)
  {
    hide Step, RaisedBy;
    if IsThreadAction(a) {
      ThreadRaisesNothing(c, s, a);
    } else if a == TakeItem {
      TakeRaises(c, s);
    } else {
      OtherRaises(c, s, a);
    }
  }

  lemma OtherRaises(c: Config, s: State, a: Action)
    requires Step(c, s, a).Some? && !IsThreadAction(a) && a != TakeItem
    ensures RaisedBy(s, a, Step(c, s, a).value)
  {
    hide JobStep, Take, NextInLine, RunningCount;
  }

  lemma RaisedSoFar(acts: seq<Action>, s: State, a: Action, t: State)
    requires Raised(acts, s) && RaisedBy(s, a, t)
    ensures Raised(acts + [a], t)
  {
    assert forall b :: b in acts + [a] <==> b in acts || b == a;
  }

  lemma {:induction false} RaisedOnwards(c: Config, past: seq<Action>, s: State, acts: seq<Action>, t: State)
    requires Raised(past, s) && Exec(c, s, acts) == Some(t)
    ensures Raised(past + acts, t)
    decreases acts
  {
    hide Raised, RaisedBy, Step;
    if acts == [] {
      assert past + acts == past;
    } else {
      var s1 := Step(c, s, acts[0]).value;
      StepRaises(c, s, acts[0]);
      RaisedSoFar(past, s, acts[0], s1);
      RaisedOnwards(c, past + [acts[0]], s1, acts[1..], t);
      assert past + [acts[0]] + acts[1..] == past + acts;
    }
  }

  /** Over every run: the flag is up exactly if the client left, the framed
      response asked for it, or the generator is past its `finally`; the cleanup
      has been started exactly if the client left or the generator is past its
      `finally`; and the generator ends as aborted exactly if it was. */
  lemma CancelExact(c: Config, acts: seq<Action>, s: State)
    requires Exec(c, Init(c), acts) == Some(s)
    ensures s.cancel <==> Disconnect in acts || FrameCancel in acts || Stopped(s)
    ensures s.cleanup != NotStarted <==> Disconnect in acts || Stopped(s)
    ensures s.phase == Closed(Aborted) <==> Abort in acts
    ensures s.phase == Closed(NeverStarted) <==> OuterFail in acts
  {
    RaisedOnwards(c, [], Init(c), acts, s);
    assert [] + acts == acts;
  }

  // ---------------------------------------------------------------- what is left to happen

  /** A chunk past the flag test will be queued. */
  function InHand(j: Job): nat { Ones(j.status.Holding?) }

  /** A job, and what has become of it under a raised flag. */
  predicate Winds(j: Job, k: Job) {
    && j.delivered <= k.delivered && k.delivered + InHand(k) <= j.delivered + InHand(j)
    && (InBackend(k) ==> InBackend(j))
    && (Iterating(k) ==> Iterating(j))
  }

  /** The thread is in the loop over its generator. */
  predicate Iterating(j: Job) { j.status.Inside? || j.status.Holding? }

  /** A cancelled state, and what has become of it. */
  ghost predicate WindsDown(s: State, t: State) {
    && t.cancel && t.next == s.next && t.cur == s.cur && |t.jobs| == |s.jobs|
    && (forall i :: 0 <= i < |s.jobs| ==> Winds(s.jobs[i], t.jobs[i]))
    && (!Live(s) ==> !Live(t) && t.out == s.out)
    && (Live(s) && s.cur < |s.jobs| ==>
          && |t.out| + s.jobs[s.cur].taken <= |s.out| + t.jobs[s.cur].delivered
          && (Live(t) ==> |t.out| + s.jobs[s.cur].taken == |s.out| + t.jobs[s.cur].taken))
  }

  lemma JobWinds(script: Script, j: Job, a: Action)
    requires JobStep(script, j, true, a).Some?
    ensures Winds(j, JobStep(script, j, true, a).value)
  {}

  lemma ReadsWithinQueue(c: Config, s: State)
    requires Inv(c, s)
    ensures Live(s) ==> s.cur < |s.jobs| && s.jobs[s.cur].taken <= s.jobs[s.cur].delivered
    ensures s.cancel ==> s.phase != Setup
  {
    hide Shape, CleanupInv, Drained;
  }

  /** One job changes and nothing is read. */
  lemma OneJobWinds(s: State, i: nat, k: Job)
    requires s.cancel && i < |s.jobs| && Winds(s.jobs[i], k) && k.taken == s.jobs[i].taken
    requires Live(s) ==> s.cur < |s.jobs| && s.jobs[s.cur].taken <= s.jobs[s.cur].delivered
    ensures WindsDown(s, s.(jobs := s.jobs[i := k]))
  {
    hide InBackend, Iterating;
    assert forall m :: 0 <= m < |s.jobs| ==> Winds(s.jobs[m], s.jobs[m]);
  }

  lemma ThreadWinds(c: Config, s: State, a: Action)
    requires Inv(c, s) && s.cancel && Step(c, s, a).Some? && IsThreadAction(a)
    ensures WindsDown(s, Step(c, s, a).value)
  {
    hide WindsDown, Winds, Step, JobStep;
    StepIsThread(c, s, a);
    ReadsWithinQueue(c, s);
    hide Inv;
    JobWinds(c.jobs[a.job], s.jobs[a.job], a);
    JobStepFrame(c.jobs[a.job], s.jobs[a.job], s.cancel, a);
    OneJobWinds(s, a.job, JobStep(c.jobs[a.job], s.jobs[a.job], s.cancel, a).value);
  }

  /** The consumer takes an item; a chunk goes to the client, anything else ends
      the generator. */
  lemma PoppedWinds(s: State, t: State, chunks: nat)
    requires s.cancel && Live(s) && s.cur < |s.jobs| && t.cancel && t.next == s.next && t.cur == s.cur
    requires var j := s.jobs[s.cur]; t.jobs == s.jobs[s.cur := j.(taken := j.taken + 1)]
    requires |t.out| == |s.out| + chunks && s.jobs[s.cur].taken + chunks <= s.jobs[s.cur].delivered
    requires Live(t) ==> chunks == 1
    ensures WindsDown(s, t)
  {
    ReadingWinds(s.jobs[s.cur]);
    hide InBackend, Iterating;
    assert forall m :: 0 <= m < |s.jobs| ==> Winds(s.jobs[m], t.jobs[m]);
  }

  lemma ReadingWinds(j: Job)
    ensures Winds(j, j.(taken := j.taken + 1))
  {}

  lemma TakeChunkWinds(c: Config, s: State)
    requires Inv(c, s) && s.cancel && Step(c, s, TakeItem).Some?
    requires s.cur < |s.jobs| && s.jobs[s.cur].taken < |s.jobs[s.cur].log| && s.jobs[s.cur].log[s.jobs[s.cur].taken].Pcm?
    ensures WindsDown(s, Step(c, s, TakeItem).value)
  {
    hide Step, MaybePrefetch, WindsDown, Inv;
    CurrentIsSubmitted(c, s) by { LiveWhileTaking(c, s); }
    var j := s.jobs[s.cur];
    var popped := s.(jobs := s.jobs[s.cur := j.(taken := j.taken + 1)]);
    PrefetchKeepsFlags(c, popped);
    TakePcmStep(c, s, popped);
    LiveInRange(c, s);
    ReadPcm(c.jobs[s.cur], j, s.cancel);
    hide JobInv, Shape;
    PoppedWinds(s, Step(c, s, TakeItem).value, 1);
  }

  lemma TakeStopWinds(c: Config, s: State)
    requires Inv(c, s) && s.cancel && Step(c, s, TakeItem).Some?
    requires s.cur < |s.jobs| && s.jobs[s.cur].taken < |s.jobs[s.cur].log| && !s.jobs[s.cur].log[s.jobs[s.cur].taken].Pcm?
    ensures WindsDown(s, Step(c, s, TakeItem).value)
  {
    hide Step, MaybePrefetch, WindsDown, Inv, JobInv;
    CurrentIsSubmitted(c, s) by { LiveWhileTaking(c, s); }
    var j := s.jobs[s.cur];
    var popped := s.(jobs := s.jobs[s.cur := j.(taken := j.taken + 1)]);
    TakeStopStep(c, s, popped);
    PoppedWinds(s, Step(c, s, TakeItem).value, 0);
  }

  lemma TakeWinds(c: Config, s: State)
    requires Inv(c, s) && s.cancel && Step(c, s, TakeItem).Some?
    ensures WindsDown(s, Step(c, s, TakeItem).value)
  {
    hide Inv, Step, WindsDown;
    LiveWhileTaking(c, s);
    if s.jobs[s.cur].log[s.jobs[s.cur].taken].Pcm? { TakeChunkWinds(c, s); } else { TakeStopWinds(c, s); }
  }

  lemma StartWinds(c: Config, s: State, i: nat)
    requires Inv(c, s) && s.cancel && Step(c, s, JobStart(i)).Some?
    ensures WindsDown(s, Step(c, s, JobStart(i)).value)
  {
    hide WindsDown, RunningCount;
    ReadsWithinQueue(c, s);
    hide Inv;
    OneJobWinds(s, i, s.jobs[i].(status := Started));
  }

  /** No job changes and nothing is read. */
  lemma SameJobsWinds(s: State, t: State)
    requires s.cancel && (Live(s) ==> s.cur < |s.jobs| && s.jobs[s.cur].taken <= s.jobs[s.cur].delivered)
    requires t.cancel && t.next == s.next && t.cur == s.cur && t.jobs == s.jobs && t.out == s.out
    requires Live(t) ==> Live(s)
    ensures WindsDown(s, t)
  {
    hide InBackend, Iterating;
    assert forall m :: 0 <= m < |s.jobs| ==> Winds(s.jobs[m], s.jobs[m]);
  }

  lemma OtherWinds(c: Config, s: State, a: Action)
    requires Inv(c, s) && s.cancel && Step(c, s, a).Some?
    requires !IsThreadAction(a) && a != TakeItem && !a.JobStart?
    ensures WindsDown(s, Step(c, s, a).value)
  {
    hide WindsDown;
    ReadsWithinQueue(c, s);
    hide Inv, JobStep, Take, NextInLine, RunningCount;
    SameJobsWinds(s, Step(c, s, a).value);
  }

  lemma StepWinds(c: Config, s: State, a: Action)
    requires Inv(c, s) && s.cancel && Step(c, s, a).Some?
    ensures WindsDown(s, Step(c, s, a).value)
  {
    hide Inv, Step, WindsDown;
    if IsThreadAction(a) {
      ThreadWinds(c, s, a);
    } else if a == TakeItem {
      TakeWinds(c, s);
    } else if a.JobStart? {
      StartWinds(c, s, a.job);
    } else {
      OtherWinds(c, s, a);
    }
  }

  lemma WindsOn(s: State, t: State, u: State)
    requires WindsDown(s, t) && WindsDown(t, u)
    ensures WindsDown(s, u)
  {
    hide InBackend, Iterating;
  }

  lemma WindsFrom(c: Config, s: State)
    requires Inv(c, s) && s.cancel
    ensures WindsDown(s, s)
  {
    hide WindsDown;
    ReadsWithinQueue(c, s);
    hide Inv;
    SameJobsWinds(s, s);
  }

  lemma {:induction false} RunWinds(c: Config, s: State, acts: seq<Action>, t: State)
    requires Inv(c, s) && s.cancel && Exec(c, s, acts) == Some(t)
    ensures WindsDown(s, t)
    decreases acts
  {
    hide Inv, Step, WindsDown;
    if acts == [] {
      WindsFrom(c, s);
    } else {
      var s1 := Step(c, s, acts[0]).value;
      StepKeepsInv(c, s, acts[0]);
      StepWinds(c, s, acts[0]);
      StaysCancelled(s, s1);
      RunWinds(c, s1, acts[1..], t);
      WindsOn(s, s1, t);
    }
  }

  lemma StaysCancelled(s: State, t: State)
    requires WindsDown(s, t)
    ensures t.cancel
  {}

  /** Over every continuation of a cancelled run: nothing more is submitted, no
      thread enters the backend that was not in it, none begins to iterate, and a
      thread queues at most the one chunk it had taken before it saw the flag. */
  lemma CancelStopsThreads(c: Config, s: State, t: State)
    requires c.Valid() && Reachable(c, s) && s.cancel && Reaches(c, s, t)
    ensures t.cancel && t.next == s.next && |t.jobs| == |s.jobs|
    ensures forall i :: 0 <= i < |s.jobs| ==>
              && t.jobs[i].delivered <= s.jobs[i].delivered + (if s.jobs[i].status.Holding? then 1 else 0)
              && (InBackend(t.jobs[i]) ==> InBackend(s.jobs[i]))
              && (Iterating(t.jobs[i]) ==> Iterating(s.jobs[i]))
  {
    ReachableInv(c, s);
    var acts :| Exec(c, s, acts) == Some(t);
    RunWinds(c, s, acts, t);
    hide Inv, InBackend, Iterating;
  }

  /** And the client hears at most the rest of what was queued for the current
      sentence, and that one chunk; nothing if the consumer had ended. */
  lemma CancelStopsAudio(c: Config, s: State, t: State)
    requires c.Valid() && Reachable(c, s) && s.cancel && Reaches(c, s, t)
    ensures t.cur == s.cur
    ensures if Live(s) then
              && s.cur < |s.jobs|
              && var j := s.jobs[s.cur];
                 |t.out| <= |s.out| + j.delivered - j.taken + (if j.status.Holding? then 1 else 0)
            else t.out == s.out
  {
    ReachableInv(c, s);
    ReadsWithinQueue(c, s);
    var acts :| Exec(c, s, acts) == Some(t);
    RunWinds(c, s, acts, t);
    hide Inv, InBackend, Iterating;
  }
}
