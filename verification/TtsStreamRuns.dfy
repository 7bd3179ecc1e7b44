/** Exactness results for the `/tts/stream` pipeline: what an undisturbed run
    delivers, which window guards can hang, and which failures break the lease
    protocol.  The negative halves build the runs. */
module TtsStreamRuns {
  import opened TtsStream
  import opened TtsStreamInvariant
  import opened TtsStreamSafety
  import opened TtsStreamProgress
  import opened TtsStreamWindow
  import opened TtsStreamCancel
  import opened Wrappers

  // ---------------------------------------------------------------- undisturbed runs

  predicate NoRaises(c: Config) {
    forall i :: 0 <= i < |c.jobs| ==> c.jobs[i].ending != Raises
  }

  predicate FirstRaise(c: Config, k: nat) {
    && k < |c.jobs| && c.jobs[k].ending == Raises
    && forall i :: 0 <= i < k ==> c.jobs[i].ending != Raises
  }

  predicate AllInternal(acts: seq<Action>) {
    forall i :: 0 <= i < |acts| ==> Internal(acts[i])
  }

  /** The stream has been read to its end, or to the first sentence that raises. */
  ghost predicate EndedItself(c: Config, s: State) {
    || (s.phase == Closed(Completed) && NoRaises(c))
    || (s.phase == Closed(Failed) && FirstRaise(c, s.cur) && s.out == Serial(c.jobs[..s.cur + 1]))
  }

  /** Nobody has cancelled, and the stream ends only by itself. */
  ghost predicate Calm(c: Config, s: State) {
    (Live(s) ==> !s.cancel) && (s.phase.Closed? ==> EndedItself(c, s))
  }

  lemma ErrorRead(script: Script, j: Job)
    requires JobInv(script, j, false) && j.taken <= j.delivered && j.taken < |j.log| && j.log[j.taken] == Error
    ensures script.ending == Raises && script.chunks[..j.taken] == script.chunks
  {}

  lemma BeforeAreOver(c: Config, s: State)
    requires Inv(c, s) && Live(s)
    ensures s.cur < |s.jobs| == |c.jobs|
    ensures forall i :: 0 <= i < s.cur ==> c.jobs[i].ending != Raises
  {
    hide JobInv, CleanupInv;
  }

  lemma CalmChunk(c: Config, s: State)
    requires Step(c, s, TakeItem).Some? && Calm(c, s)
    requires s.cur < |s.jobs| && s.jobs[s.cur].taken < |s.jobs[s.cur].log| && s.jobs[s.cur].log[s.jobs[s.cur].taken].Pcm?
    ensures Calm(c, Step(c, s, TakeItem).value)
  {
    var popped := s.(jobs := s.jobs[s.cur := s.jobs[s.cur].(taken := s.jobs[s.cur].taken + 1)]);
    hide Step, MaybePrefetch, EndedItself;
    LiveWhileTaking(c, s);
    PrefetchKeepsFlags(c, popped);
    TakePcmStep(c, s, popped);
  }

  lemma CalmEnd(c: Config, s: State)
    requires Inv(c, s) && Step(c, s, TakeItem).Some? && Calm(c, s)
    requires s.cur < |s.jobs| && s.jobs[s.cur].taken < |s.jobs[s.cur].log| && s.jobs[s.cur].log[s.jobs[s.cur].taken] == EndMark
    ensures Calm(c, Step(c, s, TakeItem).value)
  {
    var popped := s.(jobs := s.jobs[s.cur := s.jobs[s.cur].(taken := s.jobs[s.cur].taken + 1)]);
    hide Step, MaybePrefetch, Inv, JobInv;
    LiveWhileTaking(c, s);
    CurrentIsSubmitted(c, s);
    BeforeAreOver(c, s);
    EndReads(c.jobs[s.cur], s.jobs[s.cur]);
    PrefetchKeepsFlags(c, popped);
    TakeEndStep(c, s, popped);
  }

  lemma CalmError(c: Config, s: State)
    requires Inv(c, s) && Step(c, s, TakeItem).Some? && Calm(c, s)
    requires s.cur < |s.jobs| && s.jobs[s.cur].taken < |s.jobs[s.cur].log| && s.jobs[s.cur].log[s.jobs[s.cur].taken] == Error
    ensures Calm(c, Step(c, s, TakeItem).value)
  {
    var popped := s.(jobs := s.jobs[s.cur := s.jobs[s.cur].(taken := s.jobs[s.cur].taken + 1)]);
    hide Step, Inv, JobInv, Serial;
    LiveWhileTaking(c, s);
    CurrentIsSubmitted(c, s);
    BeforeAreOver(c, s);
    LiveOut(c, s);
    ErrorRead(c.jobs[s.cur], s.jobs[s.cur]);
    SerialSnoc(c.jobs, s.cur);
    TakeStopStep(c, s, popped);
  }

  lemma CalmThread(c: Config, s: State, a: Action)
    requires Calm(c, s) && IsThreadAction(a) && Step(c, s, a).Some?
    ensures Calm(c, Step(c, s, a).value)
  {
    hide Step, JobStep, NoRaises, FirstRaise;
    StepIsThread(c, s, a);
  }

  lemma CalmControl(c: Config, s: State, a: Action)
    requires Calm(c, s) && Internal(a) && Step(c, s, a).Some?
    requires !IsThreadAction(a) && a != TakeItem && (a == Begin ==> !s.cancel)
    ensures Calm(c, Step(c, s, a).value)
  {
    hide Take, JobStep, RunningCount, NoRaises, FirstRaise;
  }

  lemma SetupIsClear(c: Config, s: State)
    requires Inv(c, s) && s.phase == Setup
    ensures !s.cancel
  {}

  lemma CalmTake(c: Config, s: State)
    requires Inv(c, s) && Calm(c, s) && Step(c, s, TakeItem).Some?
    ensures Calm(c, Step(c, s, TakeItem).value)
  {
    hide Inv, Calm, Step;
    LiveWhileTaking(c, s);
    match s.jobs[s.cur].log[s.jobs[s.cur].taken] {
      case Pcm(_) => CalmChunk(c, s);
      case EndMark => CalmEnd(c, s);
      case Error => CalmError(c, s);
    }
  }

  lemma CalmStep(c: Config, s: State, a: Action)
    requires Inv(c, s) && Calm(c, s) && Internal(a) && Step(c, s, a).Some?
    ensures Calm(c, Step(c, s, a).value)
  {
    if s.phase == Setup { SetupIsClear(c, s); }
    hide Inv, JobStep, Take, RunningCount, NextInLine, Calm;
    if IsThreadAction(a) {
      CalmThread(c, s, a);
    } else if a == TakeItem {
      CalmTake(c, s);
    } else {
      CalmControl(c, s, a);
    }
  }

  lemma {:induction false} CalmRun(c: Config, s: State, acts: seq<Action>)
    requires Inv(c, s) && Calm(c, s) && AllInternal(acts) && Exec(c, s, acts).Some?
    ensures Inv(c, Exec(c, s, acts).value) && Calm(c, Exec(c, s, acts).value)
    decreases acts
  {
    hide Inv, Calm, Step, Internal;
    if acts != [] {
      StepKeepsInv(c, s, acts[0]);
      CalmStep(c, s, acts[0]);
      CalmRun(c, Step(c, s, acts[0]).value, acts[1..]);
    }
  }

  /** If nobody cancels, then wherever the run ends by itself the client has heard
      the serial audio, up to and including all that the first raising sentence
      produced if there is one, and all three leases are back; the drain loop has
      run to its end exactly if no sentence raises.  With `NeverHangs` and
      `RunLength`, every undisturbed run that is continued while it can be gets
      there. */
  lemma UndisturbedDeliversAll(c: Config, acts: seq<Action>, s: State)
    requires c.Valid() && AllInternal(acts)
    requires Exec(c, Init(c), acts) == Some(s) && Terminal(s)
    ensures s.attempts == [1, 1, 1]
    ensures s.phase == Closed(Completed) <==> NoRaises(c)
    ensures NoRaises(c) ==> s.out == Serial(c.jobs)
    ensures forall k :: FirstRaise(c, k) ==> s.out == Serial(c.jobs[..k + 1])
  {
    InitInv(c);
    CalmRun(c, Init(c), acts);
    ReachableInv(c, s);
    CompletedIsSerial(c, s);
    hide Inv, Serial;
    forall k | FirstRaise(c, k) ensures k == s.cur && s.out == Serial(c.jobs[..k + 1]) {
      OneFirstRaise(c, k, s.cur);
    }
  }

  lemma OneFirstRaise(c: Config, k: nat, m: nat)
    requires FirstRaise(c, k)
    ensures !NoRaises(c)
    ensures FirstRaise(c, m) ==> k == m
  {}

  lemma CompletedIsSerial(c: Config, s: State)
    requires Inv(c, s) && Terminal(s)
    ensures s.phase == Closed(Completed) ==> s.out == Serial(c.jobs)
    ensures s.attempts == [1, 1, 1]
  {
    hide Shape;
  }

  /** However it ended: a response that cannot take another step has released
      each of its three leases exactly once. */
  lemma TerminalReleasesAll(c: Config, s: State)
    requires c.Valid() && Reachable(c, s) && Terminal(s)
    ensures s.attempts == [1, 1, 1]
  {
    ReachableInv(c, s);
  }

  // ---------------------------------------------------------------- building runs

  /** The consumer is about to wait for sentence `s.cur`, everything before it
      is over and nothing after it has been given a thread. */
  ghost predicate Boundary(c: Config, s: State) {
    && Inv(c, s) && s.phase == Fetching && !s.cancel && s.cleanup == NotStarted && s.watching
    && s.cur < s.next && s.jobs[s.cur].status == Queued && s.jobs[s.cur].taken == 0
    && Alone(s)
  }

  predicate Alone(s: State) {
    && (forall i :: 0 <= i < s.cur && i < |s.jobs| ==> s.jobs[i].status == Finished)
    && (forall i :: s.cur < i < |s.jobs| ==> !HasStarted(s.jobs[i]))
  }

  /** Sentence `s.cur` has produced and delivered `pulled` chunks, all read. */
  ghost predicate Serving(c: Config, s: State) {
    && Inv(c, s) && s.phase == Fetching && !s.cancel && s.cleanup == NotStarted && s.watching
    && s.cur < s.next && s.cur < |s.jobs| && Alone(s)
    && s.jobs[s.cur].status == Inside
    && s.jobs[s.cur].taken == |s.jobs[s.cur].log|
  }

  /** Sentence `s.cur` is over and only its end mark is unread. */
  ghost predicate Sealed(c: Config, s: State) {
    && Inv(c, s) && s.phase == Fetching && !s.cancel && s.cleanup == NotStarted && s.watching
    && s.cur < s.next && s.cur < |s.jobs| && Alone(s)
    && s.jobs[s.cur].status == Finished
    && s.jobs[s.cur].taken + 1 == |s.jobs[s.cur].log|
    && s.jobs[s.cur].log[s.jobs[s.cur].taken] == EndMark
    && (s.jobs[s.cur].escaped <==> c.jobs[s.cur].ending == Escapes)
  }

  /** One step of an executor thread. */
  lemma OneThread(c: Config, s: State, a: Action, t: State)
    requires Inv(c, s) && IsThreadAction(a) && a.job < |s.jobs| && |s.jobs| == |c.jobs|
    requires JobStep(c.jobs[a.job], s.jobs[a.job], s.cancel, a).Some?
    requires t == s.(jobs := s.jobs[a.job := JobStep(c.jobs[a.job], s.jobs[a.job], s.cancel, a).value])
    ensures Reaches(c, s, t) && Inv(c, t)
  {
    hide JobStep, Inv;
    assert Step(c, s, a) == Some(t);
    StepKeepsInv(c, s, a);
    ReachesStep(c, s, a, t);
  }

  lemma QueuedIsEmpty(c: Config, s: State)
    requires Boundary(c, s)
    ensures s.cur < |s.jobs| == |c.jobs| && s.jobs[s.cur].log == []
  {
    ShapeOf(c, s);
    hide Inv;
    assert JobInv(c.jobs[s.cur], s.jobs[s.cur], s.cancel);
  }

  lemma SameLength(c: Config, s: State)
    requires Inv(c, s)
    ensures |s.jobs| == |c.jobs|
  {}

  lemma EnterSteps(script: Script, j: Job, i: nat)
    requires j.status == Started
    ensures JobStep(script, j, false, JobCheck(i)) == Some(j.(status := Entering))
    ensures JobStep(script, j.(status := Entering), false, JobRegister(i)) == Some(j.(status := Inside))
  {}

  lemma EnterBackend(c: Config, s: State) returns (t: State)
    requires Boundary(c, s)
    ensures Reaches(c, s, t) && Serving(c, t)
    ensures t == s.(jobs := t.jobs) && t.jobs[s.cur].log == []
    ensures forall i :: 0 <= i < |s.jobs| && i != s.cur ==> t.jobs[i] == s.jobs[i]
  {
    hide Inv, JobStep;
    QueuedIsEmpty(c, s);
    StartCurrent(c, s);
    EnterSteps(c.jobs[s.cur], s.jobs[s.cur].(status := Started), s.cur);
    var k1 := s.jobs[s.cur].(status := Started);
    var s1 := s.(jobs := s.jobs[s.cur := k1]);
    var k2 := k1.(status := Entering);
    var s2 := s1.(jobs := s1.jobs[s.cur := k2]);
    OneThread(c, s1, JobCheck(s.cur), s2);
    var k3 := k2.(status := Inside);
    t := s2.(jobs := s2.jobs[s.cur := k3]);
    OneThread(c, s2, JobRegister(s.cur), t);
    ReachesTrans(c, s, s1, s2);
    ReachesTrans(c, s, s2, t);
  }

  lemma StartCurrent(c: Config, s: State)
    requires Inv(c, s) && s.cur < |s.jobs| && s.jobs[s.cur].status == Queued && Alone(s)
    ensures var t := s.(jobs := s.jobs[s.cur := s.jobs[s.cur].(status := Started)]);
            Reaches(c, s, t) && Inv(c, t)
  {
    ShapeOf(c, s);
    hide JobInv;
    var t := s.(jobs := s.jobs[s.cur := s.jobs[s.cur].(status := Started)]);
    NoneRunning(s.jobs);
    assert NextInLine(s, s.cur);
    assert Step(c, s, JobStart(s.cur)) == Some(t);
    hide Inv, Step;
    StepKeepsInv(c, s, JobStart(s.cur));
    ReachesStep(c, s, JobStart(s.cur), t);
  }

  lemma ServingJob(c: Config, s: State)
    requires Serving(c, s)
    ensures var j := s.jobs[s.cur];
            && |j.log| == j.delivered == j.pulled <= |c.jobs[s.cur].chunks| && !j.erred && !j.cut
            && !j.escaped
  {
    ShapeOf(c, s);
    assert JobInv(c.jobs[s.cur], s.jobs[s.cur], s.cancel);
  }

  /** The consumer reads the chunk at the head of the current queue. */
  lemma TakePcmFrame(c: Config, s: State)
    requires Take(c, s).Some? && s.jobs[s.cur].log[s.jobs[s.cur].taken].Pcm? && s.cur < s.next && Alone(s)
    ensures var t := Take(c, s).value;
            && t.phase == Yielded && Alone(t) && t.cur == s.cur && t.cancel == s.cancel
            && t.cleanup == s.cleanup && t.watching == s.watching && t.next >= s.next
            && |t.jobs| == |s.jobs|
            && t.jobs[s.cur] == s.jobs[s.cur].(taken := s.jobs[s.cur].taken + 1)
  {
    hide Allows;
  }

  /** The consumer reads the chunk at the head of the current queue. */
  lemma ReadChunk(c: Config, s: State) returns (t: State)
    requires Inv(c, s) && s.phase == Fetching && s.cur < s.next && s.cur < |s.jobs| && Alone(s)
    requires s.jobs[s.cur].taken < |s.jobs[s.cur].log| && s.jobs[s.cur].log[s.jobs[s.cur].taken].Pcm?
    ensures Reaches(c, s, t) && Inv(c, t) && Alone(t)
    ensures t.cur == s.cur && t.phase == Fetching && t.cancel == s.cancel && t.cleanup == s.cleanup
    ensures t.watching == s.watching && t.cur < t.next && |t.jobs| == |s.jobs|
    ensures t.jobs[s.cur] == s.jobs[s.cur].(taken := s.jobs[s.cur].taken + 1)
  {
    assert Take(c, s).Some? by { hide Inv, MaybePrefetch; }
    StepIsTake(c, s);
    var s1 := Take(c, s).value;
    TakePcmFrame(c, s);
    t := s1.(phase := Fetching);
    assert Step(c, s1, Resume) == Some(t);
    hide Inv, Step, Take, Alone;
    StepKeepsInv(c, s, TakeItem);
    StepKeepsInv(c, s1, Resume);
    ReachesStep(c, s, TakeItem, s1);
    ReachesStep(c, s1, Resume, t);
    ReachesTrans(c, s, s1, t);
  }

  lemma ServeChunk(c: Config, s: State) returns (t: State)
    requires Serving(c, s) && s.jobs[s.cur].pulled < |c.jobs[s.cur].chunks|
    ensures Reaches(c, s, t) && Serving(c, t) && t.cur == s.cur && |t.jobs| == |s.jobs|
    ensures t.jobs[s.cur].pulled == s.jobs[s.cur].pulled + 1
  {
    ServingJob(c, s);
    SameLength(c, s);
    var script := c.jobs[s.cur];
    var j := s.jobs[s.cur];
    var k1 := j.(pulled := j.pulled + 1, status := Holding);
    var s1 := s.(jobs := s.jobs[s.cur := k1]);
    hide Inv;
    OneThread(c, s, JobPull(s.cur), s1);
    var k2 := k1.(status := Inside, delivered := k1.delivered + 1, log := k1.log + [Pcm(script.chunks[j.pulled])]);
    var s2 := s1.(jobs := s1.jobs[s.cur := k2]);
    OneThread(c, s1, JobPut(s.cur), s2);
    t := ReadChunk(c, s2);
    ReachesTrans(c, s, s1, s2);
    ReachesTrans(c, s, s2, t);
  }

  lemma {:induction false} ServeAllChunks(c: Config, s: State) returns (t: State)
    requires Serving(c, s)
    ensures Reaches(c, s, t) && Serving(c, t) && t.cur == s.cur && |t.jobs| == |s.jobs|
    ensures t.jobs[s.cur].pulled == |c.jobs[s.cur].chunks|
    decreases |c.jobs[s.cur].chunks| - s.jobs[s.cur].pulled
  {
    ServingJob(c, s);
    hide Serving;
    if s.jobs[s.cur].pulled == |c.jobs[s.cur].chunks| {
      t := s;
      assert Exec(c, s, []) == Some(s);
    } else {
      var s1 := ServeChunk(c, s);
      t := ServeAllChunks(c, s1);
      ReachesTrans(c, s, s1, t);
    }
  }

  lemma EndStep(script: Script, j: Job, cancel: bool, i: nat)
    requires j.status == Inside && j.pulled == |script.chunks| && script.ending != Raises && !j.escaped
    ensures var k := j.(status := Closing, escaped := script.ending == Escapes);
            && JobStep(script, j, cancel, JobEnd(i)) == Some(k)
            && JobStep(script, k, cancel, JobClose(i)) == Some(k.(status := Marking))
  {}

  lemma MarkStep(script: Script, j: Job, cancel: bool, i: nat)
    requires j.status == Marking
    ensures var k := j.(status := Signalling, log := j.log + [EndMark]);
            && JobStep(script, j, cancel, JobMark(i)) == Some(k)
            && JobStep(script, k, cancel, JobFinish(i)) == Some(k.(status := Finished))
  {}

  lemma Close(c: Config, s: State) returns (t: State)
    requires Serving(c, s) && s.jobs[s.cur].pulled == |c.jobs[s.cur].chunks|
    requires c.jobs[s.cur].ending != Raises
    ensures Reaches(c, s, t) && Inv(c, t)
    ensures var j := s.jobs[s.cur];
            t == s.(jobs := s.jobs[s.cur := j.(status := Marking, escaped := c.jobs[s.cur].ending == Escapes)])
  {
    ServingJob(c, s);
    SameLength(c, s) by { hide ConsumerInv, CleanupInv; }
    hide Inv, Alone, JobStep;
    var i := s.cur;
    EndStep(c.jobs[i], s.jobs[i], s.cancel, i);
    var k1 := s.jobs[i].(status := Closing, escaped := c.jobs[i].ending == Escapes);
    var s1 := s.(jobs := s.jobs[i := k1]);
    OneThread(c, s, JobEnd(i), s1);
    t := s1.(jobs := s1.jobs[i := k1.(status := Marking)]);
    OneThread(c, s1, JobClose(i), t);
    ReachesTrans(c, s, s1, t);
  }

  lemma Finish(c: Config, s: State) returns (t: State)
    requires Inv(c, s) && s.cur < |s.jobs| && s.jobs[s.cur].status == Marking
    ensures Reaches(c, s, t) && Inv(c, t)
    ensures var j := s.jobs[s.cur];
            t == s.(jobs := s.jobs[s.cur := j.(status := Finished, log := j.log + [EndMark])])
  {
    var i := s.cur;
    SameLength(c, s) by { hide ConsumerInv, CleanupInv; }
    hide Inv, JobStep;
    MarkStep(c.jobs[i], s.jobs[i], s.cancel, i);
    var k1 := s.jobs[i].(status := Signalling, log := s.jobs[i].log + [EndMark]);
    var s1 := s.(jobs := s.jobs[i := k1]);
    OneThread(c, s, JobMark(i), s1);
    t := s1.(jobs := s1.jobs[i := k1.(status := Finished)]);
    OneThread(c, s1, JobFinish(i), t);
    ReachesTrans(c, s, s1, t);
  }

  lemma Seal(c: Config, s: State) returns (t: State)
    requires Serving(c, s) && s.jobs[s.cur].pulled == |c.jobs[s.cur].chunks|
    requires c.jobs[s.cur].ending != Raises
    ensures Reaches(c, s, t) && Sealed(c, t) && t.cur == s.cur && |t.jobs| == |s.jobs|
  {
    hide Inv;
    var s1 := Close(c, s);
    t := Finish(c, s1);
    ReachesTrans(c, s, s1, t);
  }

  lemma ServeSentence(c: Config, s: State) returns (t: State)
    requires Boundary(c, s) && c.jobs[s.cur].ending != Raises
    ensures Reaches(c, s, t) && Sealed(c, t) && t.cur == s.cur && |t.jobs| == |s.jobs|
  {
    var s1 := EnterBackend(c, s);
    var s2 := ServeAllChunks(c, s1);
    hide Boundary, Serving, Sealed;
    t := Seal(c, s2);
    ReachesTrans(c, s, s1, s2);
    ReachesTrans(c, s, s2, t);
  }

  lemma FirstBoundary(c: Config) returns (s: State)
    requires c.Valid()
    ensures Reachable(c, s) && Boundary(c, s) && s.cur == 0 && |s.jobs| == |c.jobs| && s.next == 1
    ensures !s.firstSeen
  {
    InitInv(c);
    s := Step(c, Init(c), Begin).value;
    StepKeepsInv(c, Init(c), Begin);
    ReachesStep(c, Init(c), Begin, s);
  }

  // ---------------------------------------------------------------- which guards can hang

  /** The state at the next sentence, if the guard lets it be submitted. */
  lemma TakeEndFrame(c: Config, s: State)
    requires Take(c, s).Some? && s.jobs[s.cur].log[s.jobs[s.cur].taken] == EndMark
    requires !s.cancel && s.cur + 1 < |s.jobs| && s.cur < s.next && Alone(s)
    requires s.jobs[s.cur].status == Finished
    ensures var t := Take(c, s).value;
            && t.cur == s.cur + 1 && t.phase == Fetching && !t.cancel && t.cleanup == s.cleanup
            && t.watching == s.watching && Alone(t) && |t.jobs| == |s.jobs|
            && s.next <= t.next && t.jobs[s.cur].status == Finished
            && t.jobs[s.cur].escaped == s.jobs[s.cur].escaped
            && (forall i :: s.cur < i < |s.jobs| ==> t.jobs[i].taken == s.jobs[i].taken)
            && (!Allows(c, s.next, s.cur) ==> t.next == s.next
                                              && forall i :: s.cur < i < |s.jobs| ==> t.jobs[i] == s.jobs[i])
  {
    hide Allows;
  }

  /** With no sentence allowed ahead and sentence 0 drained, the consumer waits
      on a queue that nothing will ever fill. */
  lemma HangAtSecond(c: Config) returns (s: State)
    requires c.Valid() && Lookahead(c) == 0 && 2 <= |c.jobs| && c.jobs[0].ending != Raises
    ensures Reachable(c, s) && Stuck(c, s)
    ensures s.phase == Fetching && s.cur == 1 && 2 <= |s.jobs| && s.jobs[1].status == Unsubmitted && s.cleanup == NotStarted
  {
    var s0 := FirstBoundary(c);
    var s1 := ServeSentence(c, s0);
    ShapeOf(c, s1);
    assert s1.next == 1 && s1.release == Held;
    StepIsTake(c, s1);
    assert Take(c, s1).Some? by { hide Inv, MaybePrefetch; }
    s := Take(c, s1).value;
    TakeEndFrame(c, s1);
    StepKeepsInv(c, s1, TakeItem);
    ReachesStep(c, s1, TakeItem, s);
    ReachesTrans(c, s0, s1, s);
    ReachesTrans(c, Init(c), s0, s);
    ShapeOf(c, s);
    assert s.release == Held;
    NobodyMoves(c, s);
  }

  lemma NobodyMoves(c: Config, s: State)
    requires Inv(c, s) && s.phase == Fetching && s.cur == s.next < |s.jobs|
    requires s.cleanup == NotStarted && s.release == Held && Idle(s)
    ensures Stuck(c, s)
  {
    ShapeOf(c, s);
    assert JobInv(c.jobs[s.cur], s.jobs[s.cur], s.cancel);
    UnsubmittedEmpty(c.jobs[s.cur], s.jobs[s.cur], s.cancel);
    assert s.jobs[s.cur].log == [];
    hide Inv, Shape, JobInv;
    forall a | Internal(a) ensures Step(c, s, a).None? {
      if IsThreadAction(a) {
        if Step(c, s, a).Some? {
          StepIsThread(c, s, a);
          ThreadNeedsRunning(c.jobs[a.job], s.jobs[a.job], s.cancel, a);
        }
      }
    }
  }

  lemma ThreadNeedsRunning(script: Script, j: Job, cancel: bool, a: Action)
    requires JobStep(script, j, cancel, a).Some?
    ensures Running(j)
  {}

  /** A window guard is deadlock-free exactly when it lets at least one sentence
      be submitted ahead, or there is nothing to wait for after sentence 0. */
  lemma NeverHangs(c: Config)
    requires c.Valid()
    ensures (forall s :: Reachable(c, s) ==> !Stuck(c, s))
            <==> (1 <= Lookahead(c) || |c.jobs| == 1 || c.jobs[0].ending == Raises)
  {
    if 1 <= Lookahead(c) || |c.jobs| == 1 || c.jobs[0].ending == Raises {
      forall s | Reachable(c, s) ensures !Stuck(c, s) {
        ReachableInv(c, s);
        assert Live(s) ==> s.cur < s.next by {
          assert Live(s) && 1 <= s.cur ==> Drained(c.jobs[0], s.jobs[0]);
        }
        NeverStuck(c, s);
      }
    } else {
      var s := HangAtSecond(c);
    }
  }

  /** The two guards the handler has had.  The current one is live for every
      window; the old one hangs exactly at window 1, on every text of two or more
      sentences whose first sentence does not fail. */
  lemma GuardVerdict(c: Config)
    requires c.Valid()
    ensures c.guard == Current ==> forall s :: Reachable(c, s) ==> !Stuck(c, s)
    ensures c.guard == Legacy ==>
              ((exists s :: Reachable(c, s) && Stuck(c, s))
               <==> c.window == 1 && 2 <= |c.jobs| && c.jobs[0].ending != Raises)
  {
    NeverHangs(c);
  }

  // ---------------------------------------------------------------- running threads to their end

  lemma ReachesSelf(c: Config, s: State)
    ensures Reaches(c, s, s)
  {
    assert Exec(c, s, []) == Some(s);
  }

  lemma StartJob(c: Config, s: State, i: nat) returns (t: State)
    requires Inv(c, s) && NextInLine(s, i) && RunningCount(s.jobs) < c.workers
    ensures Reaches(c, s, t) && Inv(c, t) && t == s.(jobs := s.jobs[i := s.jobs[i].(status := Started)])
  {
    t := s.(jobs := s.jobs[i := s.jobs[i].(status := Started)]);
    hide Inv, RunningCount;
    assert Step(c, s, JobStart(i)) == Some(t);
    StepKeepsInv(c, s, JobStart(i));
    ReachesStep(c, s, JobStart(i), t);
  }

  lemma JobKept(c: Config, s: State, i: nat)
    requires Inv(c, s) && i < |s.jobs| == |c.jobs|
    ensures JobInv(c.jobs[i], s.jobs[i], s.cancel)
  {
    hide JobInv, ConsumerInv, CleanupInv;
  }

  /** A thread that has begun can always run to its end, whatever the others do. */
  lemma {:induction false} FinishJob(c: Config, s: State, i: nat) returns (t: State)
    requires Inv(c, s) && i < |s.jobs| == |c.jobs| && Running(s.jobs[i])
    ensures Reaches(c, s, t) && Inv(c, t) && |t.jobs| == |s.jobs|
    ensures t == s.(jobs := s.jobs[i := t.jobs[i]]) && t.jobs[i].status == Finished
    decreases JobWork(c.jobs[i], s.jobs[i])
  {
    hide Inv, JobInv, JobStep, JobWork, ThreadMove;
    JobKept(c, s, i);
    RunningThreadMoves(c.jobs[i], s.jobs[i], s.cancel, i);
    var a := ThreadMove(c.jobs[i], s.jobs[i], i);
    var k := JobStep(c.jobs[i], s.jobs[i], s.cancel, a).value;
    JobStepDecreases(c.jobs[i], s.jobs[i], s.cancel, a);
    JobStepFrame(c.jobs[i], s.jobs[i], s.cancel, a);
    var s1 := s.(jobs := s.jobs[i := k]);
    OneThread(c, s, a, s1);
    if k.status == Finished {
      t := s1;
    } else {
      t := FinishJob(c, s1, i);
      ReachesTrans(c, s, s1, t);
      assert s.jobs[i := k][i := t.jobs[i]] == s.jobs[i := t.jobs[i]];
    }
  }

  /** Sentences `i` to `k`, one after the other; nobody needs to read them. */
  lemma {:induction false} FinishThrough(c: Config, s: State, i: nat, k: nat) returns (t: State)
    requires c.Valid() && Inv(c, s) && i <= k < |s.jobs| == |c.jobs|
    requires forall m :: 0 <= m < i ==> s.jobs[m].status == Finished
    requires s.jobs[i].status == Queued || Running(s.jobs[i])
    requires forall m :: i < m <= k ==> s.jobs[m].status == Queued
    requires forall m :: i < m < |s.jobs| ==> !HasStarted(s.jobs[m])
    ensures Reaches(c, s, t) && Inv(c, t) && t == s.(jobs := t.jobs) && |t.jobs| == |s.jobs|
    ensures forall m :: 0 <= m <= k ==> t.jobs[m].status == Finished
    ensures forall m :: k < m < |s.jobs| ==> t.jobs[m] == s.jobs[m]
    decreases k - i
  {
    hide Inv;
    var s1 := s;
    ReachesSelf(c, s);
    if s.jobs[i].status == Queued {
      NoneRunning(s.jobs);
      s1 := StartJob(c, s, i);
    }
    var s2 := FinishJob(c, s1, i);
    ReachesTrans(c, s, s1, s2);
    t := s2;
    if i < k {
      t := FinishThrough(c, s2, i + 1, k);
      ReachesTrans(c, s, s2, t);
    }
  }

  lemma EnterJob(c: Config, s: State, i: nat) returns (t: State)
    requires Inv(c, s) && NextInLine(s, i) && RunningCount(s.jobs) < c.workers && !s.cancel && |s.jobs| == |c.jobs|
    ensures Reaches(c, s, t) && Inv(c, t) && t == s.(jobs := s.jobs[i := s.jobs[i].(status := Entering)])
  {
    hide Inv, RunningCount, JobStep;
    var s1 := StartJob(c, s, i);
    EnterSteps(c.jobs[i], s1.jobs[i], i);
    t := s1.(jobs := s1.jobs[i := s1.jobs[i].(status := Entering)]);
    OneThread(c, s1, JobCheck(i), t);
    ReachesTrans(c, s, s1, t);
  }

  // ---------------------------------------------------------------- as many sentences ahead as the window allows

  lemma NextSentence(c: Config, s: State) returns (t: State)
    requires Boundary(c, s) && c.jobs[s.cur].ending != Raises && 1 <= Lookahead(c)
    requires s.cur + 1 < |s.jobs|
    ensures Reaches(c, s, t) && Boundary(c, t) && t.cur == s.cur + 1 && |t.jobs| == |s.jobs|
  {
    var s1 := ServeSentence(c, s);
    assert Take(c, s1).Some? by { hide Inv, MaybePrefetch; }
    StepIsTake(c, s1);
    t := Take(c, s1).value;
    TakeEndFrame(c, s1);
    StepKeepsInv(c, s1, TakeItem);
    ReachesStep(c, s1, TakeItem, t);
    ReachesTrans(c, s, s1, t);
    ShapeOf(c, t);
    hide Step, Take, JobInv, Drained, Lookahead;
  }

  /** The current sentence's first chunk has been read. */
  lemma FirstChunkRead(c: Config, s: State) returns (t: State)
    requires c.Valid() && Reachable(c, s) && Boundary(c, s) && s.cur < |c.jobs| && c.jobs[s.cur].chunks != []
    ensures Reachable(c, t) && Serving(c, t) && t.cur == s.cur && |t.jobs| == |s.jobs|
    ensures t.next == AfterFirst(c, t.cur)
  {
    var s1 := EnterBackend(c, s);
    ServingJob(c, s1);
    t := ServeChunk(c, s1);
    ServingJob(c, t);
    ReachesTrans(c, Init(c), s, s1);
    ReachesTrans(c, Init(c), s1, t);
    ReachablePlace(c, t);
    hide Inv, Submitted, AfterFirst, Reach, AtSentence;
  }

  lemma BoundaryPlace(c: Config, s: State)
    requires c.Valid() && Reachable(c, s) && Boundary(c, s)
    ensures s.cur < s.next == AtSentence(c, s.cur) && Reach(c, s.cur) == Submitted(c)
    ensures s.cur < |s.jobs| == |c.jobs| && s.next - 1 - s.cur <= Lookahead(c)
  {
    ReachablePlace(c, s);
    hide AtSentence, AfterFirst, Reach, JobInv, Drained, CleanupInv;
  }

  /** A sentence that does not bring the count to `n` is neither the last nor one
      that raises, and the window lets something ahead. */
  lemma MoreToCome(c: Config, i: nat, n: nat)
    requires c.Valid() && i < |c.jobs| && i < AtSentence(c, i) && AtSentence(c, i) - 1 - i <= Lookahead(c)
    requires AfterFirst(c, i) < n <= Reach(c, i)
    ensures c.jobs[i].ending != Raises && i + 1 < |c.jobs| && 1 <= Lookahead(c)
  {
    SubmittedFits(c, i);
    SubmittedFits(c, i + 1);
    assert AtSentence(c, i) <= AfterFirst(c, i);
    assert Reach(c, i) == Reach(c, i + 1);
    assert AtSentence(c, i + 1) == Prefetched(c, AfterFirst(c, i), i);
    hide AfterFirst, AtSentence;
  }

  /** The consumer waits for the current sentence, which is queued or under way,
      and no later one has a thread. */
  ghost predicate Standing(c: Config, s: State) {
    && Inv(c, s) && s.phase == Fetching && !s.cancel && s.cleanup == NotStarted && s.watching
    && s.cur < s.next && s.cur < |s.jobs| && Alone(s)
    && (s.jobs[s.cur].status == Queued || s.jobs[s.cur].status == Inside)
  }

  /** Read in order, the text gets as many sentences submitted as it ever can. */
  lemma {:induction false} SubmitEnough(c: Config, s: State, n: nat) returns (t: State)
    requires c.Valid() && Reachable(c, s) && Boundary(c, s) && s.cur < n <= Submitted(c)
    ensures Reachable(c, t) && Standing(c, t) && t.cur < n <= t.next
    decreases |s.jobs| - s.cur
  {
    BoundaryPlace(c, s);
    if n <= s.next {
      t := s;
    } else {
      if c.jobs[s.cur].chunks != [] {
        t := FirstChunkRead(c, s);
        if n <= t.next { return; }
      }
      hide Serving, Standing, Boundary;
      assert AfterFirst(c, s.cur) < n;
      MoreToCome(c, s.cur, n);
      hide AtSentence, AfterFirst, Reach, Submitted, Lookahead;
      var s2 := NextSentence(c, s);
      ReachesTrans(c, Init(c), s, s2);
      assert s.cur + 1 < n;
      t := SubmitEnough(c, s2, n);
    }
  }

  // ---------------------------------------------------------------- what the window counts

  predicate NoRaiseBefore(c: Config, n: nat) {
    forall i :: 0 <= i < n && i < |c.jobs| ==> c.jobs[i].ending != Raises
  }

  lemma {:induction false} BoundaryAt(c: Config, n: nat) returns (s: State)
    requires c.Valid() && NoRaiseBefore(c, n) && 1 <= Lookahead(c) && n < |c.jobs|
    ensures Reachable(c, s) && Boundary(c, s) && s.cur == n && |s.jobs| == |c.jobs|
  {
    if n == 0 {
      s := FirstBoundary(c);
    } else {
      hide Boundary, Lookahead;
      var s0 := BoundaryAt(c, n - 1);
      s := NextSentence(c, s0);
      ReachesTrans(c, Init(c), s0, s);
    }
  }

  /** While every sentence has a chunk, the lead over the consumer grows by one a
      sentence until the window is full. */
  lemma {:induction false} LeadGrows(c: Config, i: nat)
    requires c.Valid() && c.guard == Current && i < c.window && 2 * c.window <= |c.jobs|
    requires forall k :: 0 <= k <= i ==> c.jobs[k].chunks != []
    ensures AtSentence(c, i) == 2 * i + 1 && AfterFirst(c, i) == 2 * i + 2
  {
    if i > 0 { LeadGrows(c, i - 1); }
  }

  /** Sentences `lo` to `m - 1` are inside the backend and the rest of those
      submitted enter it, too. */
  lemma {:induction false} EnterAll(c: Config, s: State, lo: nat, m: nat) returns (t: State)
    requires Inv(c, s) && !s.cancel && lo <= m <= s.next <= |s.jobs| == |c.jobs| && s.next - lo <= c.workers
    requires forall i :: 0 <= i < lo ==> s.jobs[i].status == Finished
    requires forall i :: lo <= i < m ==> InBackend(s.jobs[i])
    requires forall i :: m <= i < |s.jobs| ==> !HasStarted(s.jobs[i])
    requires forall i :: m <= i < s.next ==> s.jobs[i].status == Queued
    ensures Reaches(c, s, t) && t.next == s.next && |t.jobs| == |s.jobs|
    ensures forall i :: lo <= i < s.next ==> InBackend(t.jobs[i])
    decreases s.next - m
  {
    if m == s.next {
      ReachesSelf(c, s);
      t := s;
    } else {
      hide Inv;
      RunningSpan(s.jobs, lo, m);
      var s1 := EnterJob(c, s, m);
      t := EnterAll(c, s1, lo, m + 1);
      ReachesTrans(c, s, s1, t);
    }
  }

  lemma AloneIsQueued(c: Config, s: State)
    requires Standing(c, s)
    ensures s.next <= |s.jobs| == |c.jobs|
    ensures forall i :: s.cur < i < s.next ==> s.jobs[i].status == Queued
  {
    hide JobInv, ConsumerInv, CleanupInv;
  }

  /** The state in which the window has just been filled. */
  lemma WindowFull(c: Config) returns (s: State)
    requires c.Valid() && c.guard == Current && 2 * c.window <= |c.jobs| && NoRaiseBefore(c, c.window - 1)
    requires forall i :: 0 <= i < c.window ==> c.jobs[i].chunks != []
    ensures Reachable(c, s) && Serving(c, s) && s.cur == c.window - 1 && s.next == 2 * c.window
  {
    var s0 := BoundaryAt(c, c.window - 1);
    s := FirstChunkRead(c, s0);
    hide Boundary, Serving;
    LeadGrows(c, c.window - 1);
  }

  lemma ServingFacts(c: Config, s: State)
    requires Serving(c, s)
    ensures Inv(c, s) && !s.cancel && s.cur < s.next <= |s.jobs| == |c.jobs| && InBackend(s.jobs[s.cur])
    ensures forall i :: 0 <= i < s.cur ==> s.jobs[i].status == Finished
    ensures forall i :: s.cur < i < |s.jobs| ==> !HasStarted(s.jobs[i])
    ensures forall i :: s.cur < i < s.next ==> s.jobs[i].status == Queued
  {
    AloneIsQueued(c, s);
    hide Inv;
  }

  /** The window bounds the sentences ahead of the current one, not the sentences
      in flight: for every window `n` a run has `n + 1` sentences of one response
      inside the backend at once, if the text has `2 n` sentences, the first `n`
      have audio, the first `n - 1` do not raise, and there are threads enough. */
  lemma WindowOverlaps(c: Config) returns (t: State)
    requires c.Valid() && c.guard == Current && c.window < c.workers && 2 * c.window <= |c.jobs|
    requires NoRaiseBefore(c, c.window - 1)
    requires forall i :: 0 <= i < c.window ==> c.jobs[i].chunks != []
    ensures Reachable(c, t) && BackendCount(t.jobs) == c.window + 1
  {
    var s1 := WindowFull(c);
    ServingFacts(c, s1);
    hide Inv, Serving, InBackend, NoRaiseBefore, BackendCount, HasStarted;
    t := EnterAll(c, s1, s1.cur, s1.cur + 1);
    ReachesTrans(c, Init(c), s1, t);
    BackendAll(t.jobs, s1.cur, s1.next);
    InFlightBound(c, t);
  }

  // ---------------------------------------------------------------- which failures break the leases

  /** The cleanup is draining, has got as far as `from`, and will meet the
      escaped job `k` before the running job `k + 1`. */
  ghost predicate Doomed(s: State, k: nat) {
    && k + 1 < |s.jobs| && s.cleanup.Draining? && s.cleanup.from <= k
    && |s.cleanup.wait| == |s.jobs| && s.cleanup.wait[k]
    && s.release == Held && s.attempts == [0, 0, 0]
    && (forall i :: 0 <= i <= k ==> s.jobs[i].status == Finished)
    && s.jobs[k].escaped && InBackend(s.jobs[k + 1])
  }

  lemma DrainMoves(c: Config, s: State, k: nat)
    requires Doomed(s, k)
    ensures Step(c, s, DrainNext).Some?
    ensures var t := Step(c, s, DrainNext).value;
            && t.jobs == s.jobs && t.attempts == [0, 0, 0]
            && (if s.cleanup.from < k && !(s.cleanup.wait[s.cleanup.from] && s.jobs[s.cleanup.from].escaped)
                then t.cleanup == s.cleanup.(from := s.cleanup.from + 1) && t.release == Held
                else t.cleanup == Over && t.release == Releasing(0))
  {}

  lemma {:induction false} DoomedReleases(c: Config, s: State, k: nat) returns (t: State)
    requires Doomed(s, k)
    ensures Reaches(c, s, t) && LeaseGone(t) && k + 1 < |t.jobs| && InBackend(t.jobs[k + 1])
    decreases k - s.cleanup.from
  {
    DrainMoves(c, s, k);
    var s1 := Step(c, s, DrainNext).value;
    ReachesStep(c, s, DrainNext, s1);
    if s1.cleanup.Draining? {
      hide Step, InBackend;
      t := DoomedReleases(c, s1, k);
      ReachesTrans(c, s, s1, t);
    } else {
      t := s1.(attempts := s1.attempts[0 := 1], release := Releasing(1));
      assert Step(c, s1, ReleaseNext) == Some(t);
      ReachesStep(c, s1, ReleaseNext, t);
      ReachesTrans(c, s, s1, t);
    }
  }

  /** A disconnect while sentence `k + 1` is inside the backend. */
  lemma DisconnectDooms(c: Config, s: State, k: nat) returns (t: State)
    requires s.watching && s.cleanup == NotStarted && s.release == Held && s.attempts == [0, 0, 0]
    requires k + 1 < |s.jobs| && s.jobs[k].escaped && InBackend(s.jobs[k + 1])
    requires forall i :: 0 <= i <= k ==> s.jobs[i].status == Finished
    ensures Reaches(c, s, t) && Doomed(t, k)
  {
    var s2 := s.(cancel := true, watching := false, cleanup := Scheduled);
    assert Step(c, s, Disconnect) == Some(s2);
    var wait := seq(|s.jobs|, i requires 0 <= i < |s.jobs| => HasStarted(s.jobs[i]));
    t := s2.(cleanup := Draining(wait, 0));
    assert Step(c, s2, Snapshot) == Some(t) by {
      assert s2.jobs == s.jobs;
      assert Step(c, s2, Snapshot).value.cleanup.wait == wait;
    }
    hide Step, InBackend;
    ReachesStep(c, s, Disconnect, s2);
    ReachesStep(c, s2, Snapshot, t);
    ReachesTrans(c, s, s2, t);
  }

  lemma EscapedWhenDone(script: Script, j: Job)
    requires JobInv(script, j, false) && j.status == Finished && script.ending == Escapes
    ensures j.escaped
  {}

  lemma DoneHasEscaped(c: Config, s: State, k: nat)
    requires Inv(c, s) && !s.cancel && k < |s.jobs| && s.jobs[k].status == Finished && c.jobs[k].ending == Escapes
    ensures s.jobs[k].escaped
  {
    SameLength(c, s);
    JobKept(c, s, k);
    hide Inv;
    EscapedWhenDone(c.jobs[k], s.jobs[k]);
  }

  lemma HeldBeforeCleanup(c: Config, s: State)
    requires Inv(c, s) && s.phase == Fetching && s.cleanup == NotStarted
    ensures s.release == Held && s.attempts == [0, 0, 0]
  {
    hide Shape, ConsumerInv;
  }

  /** The sentences up to `k` run to their ends, and the next one stays as it is. */
  lemma FinishUpTo(c: Config, s: State, k: nat) returns (t: State)
    requires c.Valid() && Standing(c, s) && s.cur <= k + 1 && k + 2 <= s.next
    ensures Reaches(c, s, t) && Inv(c, t) && t == s.(jobs := t.jobs) && k + 1 < |t.jobs| == |c.jobs|
    ensures forall m :: 0 <= m <= k ==> t.jobs[m].status == Finished
    ensures forall m :: k + 1 < m < |t.jobs| ==> !HasStarted(t.jobs[m])
    ensures t.jobs[k + 1].status == Queued || t.jobs[k + 1].status == Inside
  {
    AloneIsQueued(c, s);
    hide Inv;
    if s.cur <= k {
      t := FinishThrough(c, s, s.cur, k);
    } else {
      ReachesSelf(c, s);
      t := s;
    }
  }

  lemma FollowerIsNext(s: State, k: nat)
    requires k + 1 < |s.jobs| && s.jobs[k + 1].status == Queued
    requires forall m :: 0 <= m <= k ==> s.jobs[m].status == Finished
    requires forall m :: k + 1 < m < |s.jobs| ==> !HasStarted(s.jobs[m])
    ensures NextInLine(s, k + 1) && RunningCount(s.jobs) == 0
  {
    NoneRunning(s.jobs);
  }

  /** With sentence `k + 1` submitted, sentence `k` runs to its end and sentence
      `k + 1` enters the backend. */
  lemma FollowerEnters(c: Config, s: State, k: nat) returns (t: State)
    requires c.Valid() && Standing(c, s) && s.cur <= k + 1 && k + 2 <= s.next
    ensures Reaches(c, s, t) && Inv(c, t) && t == s.(jobs := t.jobs) && k + 1 < |t.jobs| == |c.jobs|
    ensures InBackend(t.jobs[k + 1]) && forall m :: 0 <= m <= k ==> t.jobs[m].status == Finished
  {
    assert !s.cancel;
    hide Inv, Standing, RunningCount, NextInLine;
    var s1 := FinishUpTo(c, s, k);
    if s1.jobs[k + 1].status == Queued {
      FollowerIsNext(s1, k);
      t := EnterJob(c, s1, k + 1);
      ReachesTrans(c, s, s1, t);
    } else {
      t := s1;
    }
  }

  /** A run in which the leases go while a job is inside the backend. */
  lemma EscapeBreaksLeases(c: Config, k: nat) returns (t: State)
    requires c.Valid() && k < |c.jobs| && c.jobs[k].ending == Escapes && k + 1 < Submitted(c)
    ensures Reachable(c, t) && LeaseGone(t) && k + 1 < |t.jobs| && InBackend(t.jobs[k + 1])
  {
    var s0 := FirstBoundary(c);
    var s1 := SubmitEnough(c, s0, k + 2);
    var s2 := FollowerEnters(c, s1, k);
    assert s2.phase == Fetching && s2.cleanup == NotStarted && s2.watching && !s2.cancel;
    hide Boundary, Standing, Submitted;
    HeldBeforeCleanup(c, s2);
    DoneHasEscaped(c, s2, k);
    hide Inv;
    var s3 := DisconnectDooms(c, s2, k);
    t := DoomedReleases(c, s3, k);
    ReachesTrans(c, Init(c), s1, s2);
    ReachesTrans(c, Init(c), s2, s3);
    ReachesTrans(c, Init(c), s3, t);
  }

  /** Lease safety holds for every run exactly when no sentence that leaves an
      exception in its future has a submitted successor: the drain re-raises such
      an exception and skips the jobs after it. */
  lemma LeaseSafetyExact(c: Config)
    requires c.Valid()
    ensures EscapesContained(c)
            <==> forall s, i :: Reachable(c, s) && LeaseGone(s) && 0 <= i < |s.jobs| ==> !InBackend(s.jobs[i])
  {
    hide Submitted;
    if EscapesContained(c) {
      forall s, i | Reachable(c, s) && LeaseGone(s) && 0 <= i < |s.jobs| ensures !InBackend(s.jobs[i]) {
        ReachesSelf(c, s);
        LeaseSafety(c, s, s);
      }
    } else {
      var k :| 0 <= k < |c.jobs| && c.jobs[k].ending == Escapes && k + 1 < Submitted(c);
      var t := EscapeBreaksLeases(c, k);
    }
  }
}
