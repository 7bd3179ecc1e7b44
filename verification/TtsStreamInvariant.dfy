/** What every step of the `/tts/stream` pipeline keeps. */
module TtsStreamInvariant {
  import opened TtsStream
  import opened Wrappers

  // ---------------------------------------------------------------- one job

  predicate Marked(j: Job) { j.status.Signalling? || j.status.Finished? }

  /** Past the generator: only cleaning up is left. */
  predicate Wrapping(j: Job) { j.status.Closing? || j.status.Marking? || Marked(j) }

  function Ones(b: bool): nat { if b then 1 else 0 }

  /** The job's queue is a prefix of its script's chunks, then at most one
      error, then at most one end mark. */
  ghost predicate LogInv(script: Script, j: Job) {
    && j.delivered <= j.pulled <= |script.chunks|
    && |j.log| == j.delivered + Ones(j.erred) + Ones(Marked(j))
    && j.taken <= |j.log|
    && (forall k :: 0 <= k < j.delivered ==> j.log[k] == Pcm(script.chunks[k]))
    && (j.erred ==> Wrapping(j) && j.log[j.delivered] == Error)
    && (Marked(j) ==> j.log[|j.log| - 1] == EndMark)
  }

  /** Unless the cancel flag cut it short, a job that is wrapping up has
      delivered everything. */
  predicate ProgressInv(script: Script, j: Job, cancel: bool) {
    && (!HasStarted(j) || j.status.Started? || j.status.Entering? ==> j.pulled == 0 && !j.cut)
    && (j.cut ==> cancel)
    && (j.escaped ==> script.ending == Escapes && Wrapping(j))
    && (j.status.Holding? ==> j.delivered + 1 == j.pulled)
    && (!j.cut && j.status.Inside? ==> j.delivered == j.pulled)
    && (!j.cut && j.status.Failing? ==> j.delivered == |script.chunks| && script.ending == Raises)
    && (!j.cut && Wrapping(j) ==>
          j.delivered == |script.chunks|
          && (j.erred <==> script.ending == Raises) && (j.escaped <==> script.ending == Escapes))
  }

  ghost predicate JobInv(script: Script, j: Job, cancel: bool) {
    LogInv(script, j) && ProgressInv(script, j, cancel)
  }

  predicate Appends(a: Action) { a.JobPut? || a.JobReport? || a.JobMark? }

  lemma QuietKeepsLog(script: Script, j: Job, cancel: bool, a: Action)
    requires LogInv(script, j) && JobStep(script, j, cancel, a).Some? && !Appends(a)
    ensures LogInv(script, JobStep(script, j, cancel, a).value)
  {}

  lemma QuietKeepsProgress(script: Script, j: Job, cancel: bool, a: Action)
    requires ProgressInv(script, j, cancel) && j.delivered <= j.pulled <= |script.chunks| && (j.erred ==> Wrapping(j))
    requires JobStep(script, j, cancel, a).Some? && !Appends(a)
    ensures ProgressInv(script, JobStep(script, j, cancel, a).value, cancel)
  {}

  lemma QuietStepInv(script: Script, j: Job, cancel: bool, a: Action)
    requires JobInv(script, j, cancel) && JobStep(script, j, cancel, a).Some? && !Appends(a)
    ensures JobInv(script, JobStep(script, j, cancel, a).value, cancel)
  {
    QuietKeepsProgress(script, j, cancel, a);
    hide JobStep, ProgressInv;
    QuietKeepsLog(script, j, cancel, a);
  }

  lemma PutStepInv(script: Script, j: Job, cancel: bool, a: Action)
    requires JobInv(script, j, cancel) && JobStep(script, j, cancel, a).Some? && a.JobPut?
    ensures JobInv(script, JobStep(script, j, cancel, a).value, cancel)
  {}

  lemma WrapStepInv(script: Script, j: Job, cancel: bool, a: Action)
    requires JobInv(script, j, cancel) && JobStep(script, j, cancel, a).Some?
    requires a.JobReport? || a.JobMark?
    ensures JobInv(script, JobStep(script, j, cancel, a).value, cancel)
  {}

  /** Once the flag is up only a chunk already past its test can still be queued. */
  lemma CancelledQueuesNoMore(script: Script, j: Job, a: Action)
    requires JobStep(script, j, true, a).Some?
    ensures var k := JobStep(script, j, true, a).value;
            k.delivered + Ones(k.status.Holding?) <= j.delivered + Ones(j.status.Holding?)
  {}

  lemma JobStepInv(script: Script, j: Job, cancel: bool, a: Action)
    requires JobInv(script, j, cancel) && JobStep(script, j, cancel, a).Some?
    ensures JobInv(script, JobStep(script, j, cancel, a).value, cancel)
    ensures var k := JobStep(script, j, cancel, a).value;
            cancel ==> k.delivered + Ones(k.status.Holding?) <= j.delivered + Ones(j.status.Holding?)
  {
    hide JobInv, JobStep;
    if cancel { CancelledQueuesNoMore(script, j, a); }
    if !Appends(a) {
      QuietStepInv(script, j, cancel, a);
    } else if a.JobPut? {
      PutStepInv(script, j, cancel, a);
    } else {
      WrapStepInv(script, j, cancel, a);
    }
  }

  /** The inverse view: a job's step never changes what the consumer has read,
      only appends to the queue, and enters the backend only past a clear flag. */
  lemma JobStepFrame(script: Script, j: Job, cancel: bool, a: Action)
    requires JobStep(script, j, cancel, a).Some?
    ensures var k := JobStep(script, j, cancel, a).value;
            && k.taken == j.taken && j.log <= k.log
            && HasStarted(j) && HasStarted(k)
            && (InBackend(k) && !InBackend(j) ==> !cancel)
            && (j.status != Finished)
            && (j.cut ==> k.cut)
  {}

  // ---------------------------------------------------------------- the rest

  predicate Live(s: State) { s.phase == Fetching || s.phase == Yielded }

  function Min0(n: int): nat { if n < 0 then 0 else n }

  ghost predicate Shape(c: Config, s: State) {
    && c.Valid()
    && |s.jobs| == |c.jobs|
    && s.next <= |s.jobs|
    && (forall i :: 0 <= i < |s.jobs| ==> (i < s.next <==> s.jobs[i].status != Unsubmitted))
    && (forall i :: 0 <= i < |s.jobs| ==> JobInv(c.jobs[i], s.jobs[i], s.cancel))
  }

  /** Sentence `i` has been drained to its end mark, and was neither cut short
      nor failed. */
  ghost predicate Drained(script: Script, j: Job) {
    && Marked(j) && j.taken == |j.log| && !j.cut && script.ending != Raises
  }

  ghost predicate ConsumerInv(c: Config, s: State)
    requires Shape(c, s)
  {
    match s.phase
    case Setup =>
      && s.next == 0 && s.cur == 0 && s.out == [] && !s.cancel && !s.watching
      && s.cleanup == NotStarted && s.release == Held
      && (forall i :: 0 <= i < |s.jobs| ==> s.jobs[i].taken == 0)
    case Closed(outcome) =>
      && (outcome == NeverStarted ==>
            s.next == 0 && s.cleanup == NotStarted && s.release != Held && s.out == [] && !s.watching)
      && (outcome != NeverStarted ==> s.cleanup != NotStarted && s.cancel)
      && s.out <= Serial(c.jobs)
      && (outcome == Completed ==> s.out == Serial(c.jobs))
    case _ =>
      && s.cur < |s.jobs| && 1 <= s.next && s.cur <= s.next
      && (1 <= Lookahead(c) ==> s.cur < s.next)
      && s.next - 1 - s.cur <= Lookahead(c)
      && (forall i :: 0 <= i < s.cur ==> Drained(c.jobs[i], s.jobs[i]))
      && (forall i :: s.cur < i < |s.jobs| ==> s.jobs[i].taken == 0)
      && s.jobs[s.cur].taken <= s.jobs[s.cur].delivered
      && s.out == Serial(c.jobs[..s.cur]) + c.jobs[s.cur].chunks[..s.jobs[s.cur].taken]
  }

  predicate LeaseCounts(s: State) {
    && |s.attempts| == 3
    && (forall k :: 0 <= k < 3 ==>
          s.attempts[k] == match s.release
                           case Held => 0
                           case Releasing(n) => if k < n then 1 else 0
                           case Freed => 1)
    && (s.release.Releasing? ==> s.release.attempted < 3)
  }

  ghost predicate CleanupInv(s: State) {
    && (s.cleanup != NotStarted ==> s.cancel && s.phase != Setup)
    && (s.phase != Closed(NeverStarted) ==> (s.release != Held <==> s.cleanup == Over))
    && (s.cleanup.Draining? ==>
          && |s.cleanup.wait| == |s.jobs|
          && (forall i :: 0 <= i < |s.jobs| && s.cleanup.wait[i] ==> HasStarted(s.jobs[i])))
    && LeaseCounts(s)
  }

  ghost predicate Inv(c: Config, s: State) {
    Shape(c, s) && ConsumerInv(c, s) && CleanupInv(s)
  }

  lemma InitInv(c: Config)
    requires c.Valid()
    ensures Inv(c, Init(c))
  {}

  // ---------------------------------------------------------------- steps keep it

  lemma SerialSnoc(jobs: seq<Script>, n: nat)
    requires n < |jobs|
    ensures Serial(jobs[..n + 1]) == Serial(jobs[..n]) + jobs[n].chunks
  {
    assert jobs[..n + 1][..n] == jobs[..n];
  }

  lemma {:induction false} SerialPrefix(jobs: seq<Script>, n: nat)
    requires n <= |jobs|
    ensures Serial(jobs[..n]) <= Serial(jobs)
    decreases |jobs| - n
  {
    if n == |jobs| {
      assert jobs[..n] == jobs;
    } else {
      SerialSnoc(jobs, n);
      SerialPrefix(jobs, n + 1);
    }
  }

  lemma LivePrefix(c: Config, s: State)
    requires Inv(c, s) && Live(s)
    ensures s.out <= Serial(c.jobs)
  {
    hide Inv, Live;
    LiveOut(c, s);
    var k, chunks := s.jobs[s.cur].taken, c.jobs[s.cur].chunks;
    hide Serial;
    SerialSnoc(c.jobs, s.cur);
    SerialPrefix(c.jobs, s.cur + 1);
    PartIsPrefix(Serial(c.jobs[..s.cur]), chunks, k, Serial(c.jobs));
  }

  lemma PartIsPrefix(before: seq<Chunk>, chunks: seq<Chunk>, k: nat, all: seq<Chunk>)
    requires k <= |chunks| && before + chunks <= all
    ensures before + chunks[..k] <= all
  {
    assert before + chunks == before + chunks[..k] + chunks[k..];
  }

  lemma LiveOut(c: Config, s: State)
    requires Inv(c, s) && Live(s)
    ensures s.cur < |s.jobs| == |c.jobs| && s.jobs[s.cur].taken <= |c.jobs[s.cur].chunks|
    ensures s.out == Serial(c.jobs[..s.cur]) + c.jobs[s.cur].chunks[..s.jobs[s.cur].taken]
  {
    hide Drained, CleanupInv, Lookahead, Serial, ProgressInv;
    assert JobInv(c.jobs[s.cur], s.jobs[s.cur], s.cancel);
  }

  predicate IsThreadAction(a: Action) {
    a.JobCheck? || a.JobRegister? || a.JobPull? || a.JobPut? || a.JobEnd? || a.JobCut?
    || a.JobReport? || a.JobClose? || a.JobMark? || a.JobFinish?
  }

  /** What a thread may do to its own job, as the consumer and the cleanup task
      see it. */
  ghost predicate Advances(script: Script, j: Job, k: Job) {
    && !j.status.Unsubmitted? && HasStarted(k)
    && k.taken == j.taken && j.delivered <= k.delivered
    && (Drained(script, j) ==> Drained(script, k))
  }

  lemma ThreadAdvances(script: Script, j: Job, cancel: bool, a: Action)
    requires JobInv(script, j, cancel) && JobStep(script, j, cancel, a).Some?
    ensures Advances(script, j, JobStep(script, j, cancel, a).value)
  {}

  lemma JobsUpdate(c: Config, s: State, i: nat, k: Job)
    requires Shape(c, s) && i < |s.jobs| && JobInv(c.jobs[i], k, s.cancel)
    requires s.jobs[i].status.Unsubmitted? <==> k.status.Unsubmitted?
    ensures Shape(c, s.(jobs := s.jobs[i := k]))
  {
    hide JobInv;
  }

  lemma AdvanceKeeps(c: Config, s: State, i: nat, k: Job)
    requires Inv(c, s) && i < |s.jobs|
    requires JobInv(c.jobs[i], k, s.cancel) && Advances(c.jobs[i], s.jobs[i], k)
    ensures Inv(c, s.(jobs := s.jobs[i := k]))
  {
    hide JobInv, Drained;
    JobsUpdate(c, s, i, k);
    var t := s.(jobs := s.jobs[i := k]);
    assert ConsumerInv(c, t) by {
      hide CleanupInv, Shape;
      assert forall m :: 0 <= m < |s.jobs| && m != i ==> t.jobs[m] == s.jobs[m];
    }
    assert CleanupInv(t) by {
      hide ConsumerInv, Shape;
    }
  }

  lemma StepIsThread(c: Config, s: State, a: Action)
    requires IsThreadAction(a) && Step(c, s, a).Some?
    ensures a.job < |s.jobs| && a.job < |c.jobs|
    ensures JobStep(c.jobs[a.job], s.jobs[a.job], s.cancel, a).Some?
    ensures Step(c, s, a).value
            == s.(jobs := s.jobs[a.job := JobStep(c.jobs[a.job], s.jobs[a.job], s.cancel, a).value])
  {
    hide JobStep;
  }

  lemma JobActionKeeps(c: Config, s: State, a: Action)
    requires Inv(c, s) && Step(c, s, a).Some? && IsThreadAction(a)
    ensures Inv(c, Step(c, s, a).value)
  {
    hide JobInv, ConsumerInv, CleanupInv, Advances, JobStep, Step;
    StepIsThread(c, s, a);
    JobStepInv(c.jobs[a.job], s.jobs[a.job], s.cancel, a);
    ThreadAdvances(c.jobs[a.job], s.jobs[a.job], s.cancel, a);
    AdvanceKeeps(c, s, a.job, JobStep(c.jobs[a.job], s.jobs[a.job], s.cancel, a).value);
  }

  lemma StartAdvances(script: Script, j: Job, cancel: bool)
    requires JobInv(script, j, cancel) && j.status == Queued
    ensures JobInv(script, j.(status := Started), cancel)
    ensures Advances(script, j, j.(status := Started))
  {}

  lemma JobStartKeeps(c: Config, s: State, i: nat)
    requires Inv(c, s) && Step(c, s, JobStart(i)).Some?
    ensures Inv(c, Step(c, s, JobStart(i)).value)
  {
    hide JobInv, ConsumerInv, CleanupInv, Advances;
    StartAdvances(c.jobs[i], s.jobs[i], s.cancel);
    AdvanceKeeps(c, s, i, s.jobs[i].(status := Started));
  }

  lemma RaiseCancel(c: Config, s: State)
    requires Shape(c, s)
    ensures Shape(c, s.(cancel := true))
  {}

  /** Leaving the drain loop for a reason other than having drained it. */
  lemma StopKeeps(c: Config, s: State, p: State, outcome: Outcome)
    requires Inv(c, s) && Live(s) && Shape(c, p) && p == s.(jobs := p.jobs)
    requires forall i :: 0 <= i < |s.jobs| ==> p.jobs[i].status == s.jobs[i].status
    requires outcome != NeverStarted && outcome != Completed
    ensures Inv(c, Finally(p, outcome))
  {
    hide JobInv, Drained;
    var t := Finally(p, outcome);
    RaiseCancel(c, p);
    LivePrefix(c, s);
    assert ConsumerInv(c, t) by { hide LeaseCounts; }
    hide Shape, ConsumerInv;
    assert LeaseCounts(t);
    hide LeaseCounts;
    assert CleanupInv(t);
  }

  lemma CancelKeeps(c: Config, s: State, a: Action)
    requires Inv(c, s) && Step(c, s, a).Some?
    requires a == Disconnect || a == FrameCancel || a == Resume
    ensures Inv(c, Step(c, s, a).value)
  {
    hide JobInv, Drained;
    var t := Step(c, s, a).value;
    RaiseCancel(c, s);
    assert LeaseCounts(t) by { hide Shape, ConsumerInv; }
    hide LeaseCounts;
    assert t == s.(cancel := t.cancel, cleanup := t.cleanup, watching := t.watching, phase := t.phase);
    assert Shape(c, t) by { hide ConsumerInv, CleanupInv; }
    hide Shape;
    assert ConsumerInv(c, t);
    hide ConsumerInv;
    assert CleanupInv(t);
  }

  lemma OuterFailKeeps(c: Config, s: State)
    requires Inv(c, s) && Step(c, s, OuterFail).Some?
    ensures Inv(c, Step(c, s, OuterFail).value)
  {
    hide JobInv, Drained;
  }

  lemma SubmitKeepsShape(c: Config, s: State)
    requires Shape(c, s) && s.next < |s.jobs|
    ensures Shape(c, Submit(s))
  {
    assert JobInv(c.jobs[s.next], s.jobs[s.next], s.cancel);
    assert JobInv(c.jobs[s.next], s.jobs[s.next].(status := Queued), s.cancel);
    hide JobInv;
  }

  lemma BeginKeeps(c: Config, s: State)
    requires Inv(c, s) && Step(c, s, Begin).Some?
    ensures Inv(c, Step(c, s, Begin).value)
  {
    SubmitKeepsShape(c, s);
    hide JobInv;
    assert c.jobs[..0] == [];
    assert c.jobs[0].chunks[..0] == [];
  }

  lemma PrefetchKeepsShape(c: Config, s: State)
    requires Shape(c, s)
    ensures Shape(c, MaybePrefetch(c, s))
  {
    hide Shape;
    if s.next < |s.jobs| { SubmitKeepsShape(c, s); }
  }

  /** Prefetching submits at most the next sentence, and only inside the
      window; if nothing was ahead, it makes sure that something is. */
  lemma PrefetchEffect(c: Config, s: State)
    requires s.cur < s.next <= |s.jobs| && s.next - 1 - s.cur <= Lookahead(c)
    ensures var t := MaybePrefetch(c, s);
            && t == s.(jobs := t.jobs, next := t.next) && |t.jobs| == |s.jobs|
            && s.next <= t.next <= |s.jobs|
            && (forall i :: 0 <= i < |s.jobs| ==>
                  t.jobs[i] == s.jobs[i] || (s.next <= i && t.jobs[i] == s.jobs[i].(status := Queued)))
            && t.next - 1 - s.cur <= Lookahead(c)
            && (!s.cancel && 1 <= Lookahead(c) && s.cur + 1 < |s.jobs| ==> s.cur + 1 < t.next)
  {}

  lemma ReadPcm(script: Script, j: Job, cancel: bool)
    requires JobInv(script, j, cancel) && j.taken <= j.delivered && j.taken < |j.log|
    requires j.log[j.taken].Pcm?
    ensures j.taken < |script.chunks| && j.log[j.taken] == Pcm(script.chunks[j.taken])
    ensures var k := j.(taken := j.taken + 1); JobInv(script, k, cancel) && k.taken <= k.delivered
    ensures script.chunks[..j.taken + 1] == script.chunks[..j.taken] + [script.chunks[j.taken]]
  {}

  lemma ReadEnd(script: Script, j: Job, cancel: bool)
    requires JobInv(script, j, cancel) && j.taken <= j.delivered && j.taken < |j.log|
    requires !j.log[j.taken].Pcm?
    ensures JobInv(script, j.(taken := j.taken + 1), cancel)
    ensures !cancel && j.log[j.taken] == EndMark ==>
              Drained(script, j.(taken := j.taken + 1)) && script.chunks[..j.taken] == script.chunks
  {}

  lemma TakeKeeps(c: Config, s: State)
    requires Inv(c, s) && Step(c, s, TakeItem).Some?
    ensures Inv(c, Step(c, s, TakeItem).value)
  {
    hide JobInv;
    var j := s.jobs[s.cur];
    assert JobInv(c.jobs[s.cur], j, s.cancel);
    assert s.cur < s.next by {
      if s.cur == s.next {
        assert j.status.Unsubmitted?;
        UnsubmittedEmpty(c.jobs[s.cur], j, s.cancel);
      }
    }
    hide ConsumerInv, Shape, CleanupInv;
    if j.log[j.taken].Pcm? {
      TakePcmKeeps(c, s);
    } else if j.log[j.taken] == EndMark && !s.cancel {
      TakeEndKeeps(c, s);
    } else {
      TakeStopKeeps(c, s);
    }
  }

  lemma UnsubmittedEmpty(script: Script, j: Job, cancel: bool)
    requires JobInv(script, j, cancel) && j.status.Unsubmitted?
    ensures j.log == []
  {}

  lemma TakeStopKeeps(c: Config, s: State)
    requires Inv(c, s) && Step(c, s, TakeItem).Some? && s.cur < s.next
    requires var item := s.jobs[s.cur].log[s.jobs[s.cur].taken];
             item == Error || (item == EndMark && s.cancel)
    ensures Inv(c, Step(c, s, TakeItem).value)
  {
    hide Step, JobInv, Drained;
    LiveWhileTaking(c, s);
    var j := s.jobs[s.cur];
    var popped := s.(jobs := s.jobs[s.cur := j.(taken := j.taken + 1)]);
    TakeStopStep(c, s, popped);
    ReadEnd(c.jobs[s.cur], j, s.cancel);
    JobsUpdate(c, s, s.cur, popped.jobs[s.cur]);
    hide Inv, Shape;
    StopKeeps(c, s, popped, if j.log[j.taken] == Error then Failed else Cancelled);
  }

  lemma TakeStopStep(c: Config, s: State, popped: State)
    requires Step(c, s, TakeItem).Some?
    requires var item := s.jobs[s.cur].log[s.jobs[s.cur].taken];
             item == Error || (item == EndMark && s.cancel)
    requires popped == s.(jobs := s.jobs[s.cur := s.jobs[s.cur].(taken := s.jobs[s.cur].taken + 1)])
    ensures Step(c, s, TakeItem)
            == Some(Finally(popped, if s.jobs[s.cur].log[s.jobs[s.cur].taken] == Error then Failed else Cancelled))
  {
    hide Allows;
  }

  lemma TakePcmKeeps(c: Config, s: State)
    requires Inv(c, s) && Step(c, s, TakeItem).Some? && s.cur < s.next
    requires s.jobs[s.cur].log[s.jobs[s.cur].taken].Pcm?
    ensures Inv(c, Step(c, s, TakeItem).value)
  {
    hide JobInv;
    LiveWhileTaking(c, s);
    var j := s.jobs[s.cur];
    var k := j.(taken := j.taken + 1);
    var popped := s.(jobs := s.jobs[s.cur := k]);
    TakePcmStep(c, s, popped);
    hide Step;
    ReadPcm(c.jobs[s.cur], j, s.cancel);
    JobsUpdate(c, s, s.cur, k);
    PrefetchKeepsShape(c, popped);
    PrefetchEffect(c, popped);
    var fetched := if s.firstSeen then popped else MaybePrefetch(c, popped);
    var t := fetched.(firstSeen := true, out := s.out + [j.log[j.taken].chunk], phase := Yielded);
    hide MaybePrefetch;
    assert Shape(c, t) && CleanupInv(t) by { hide ConsumerInv; }
    hide Shape, CleanupInv;
    ReadingKeepsConsumer(c, s, t, k);
  }

  /** One chunk of the current sentence read and passed on. */
  lemma ReadingKeepsConsumer(c: Config, s: State, t: State, k: Job)
    requires Shape(c, s) && Shape(c, t) && ConsumerInv(c, s) && s.phase == Fetching && s.cur < s.next
    requires t.phase == Yielded && t.cur == s.cur && s.next <= t.next && t.next - 1 - s.cur <= Lookahead(c)
    requires k.taken <= k.delivered && k.taken == s.jobs[s.cur].taken + 1 && k.taken <= |c.jobs[s.cur].chunks|
    requires t.jobs[s.cur] == k && forall i :: 0 <= i < |s.jobs| && i != s.cur ==>
               t.jobs[i] == s.jobs[i] || (s.next <= i && t.jobs[i] == s.jobs[i].(status := Queued))
    requires t.out == s.out + [c.jobs[s.cur].chunks[k.taken - 1]]
    ensures ConsumerInv(c, t)
  {
    var chunks := c.jobs[s.cur].chunks;
    assert chunks[..k.taken] == chunks[..k.taken - 1] + [chunks[k.taken - 1]];
    hide Shape, JobInv, Drained, Lookahead, Serial;
  }

  /** The state the consumer is in when it has read the end mark of a sentence
      nobody cancelled, before it tries to prefetch. */
  ghost predicate AtEnd(c: Config, s: State) {
    && Shape(c, s) && CleanupInv(s) && Live(s) && !s.cancel
    && s.cur < |s.jobs| && s.cur < s.next && s.next - 1 - s.cur <= Lookahead(c)
    && (forall i :: 0 <= i <= s.cur ==> Drained(c.jobs[i], s.jobs[i]))
    && (forall i :: s.cur < i < |s.jobs| ==> s.jobs[i].taken == 0)
    && s.out == Serial(c.jobs[..s.cur + 1])
  }

  lemma ReachAtEnd(c: Config, s: State, popped: State)
    requires Inv(c, s) && Live(s) && s.cur < s.next && !s.cancel
    requires var j := s.jobs[s.cur];
             && j.taken < |j.log| && j.log[j.taken] == EndMark
             && popped == s.(jobs := s.jobs[s.cur := j.(taken := j.taken + 1)])
    ensures AtEnd(c, popped)
  {
    hide JobInv, Drained;
    ReadEnd(c.jobs[s.cur], s.jobs[s.cur], s.cancel);
    SerialSnoc(c.jobs, s.cur);
    JobsUpdate(c, s, s.cur, popped.jobs[s.cur]);
    assert CleanupInv(popped) by { hide Shape, ConsumerInv; }
  }

  lemma CompleteFromEnd(c: Config, s: State)
    requires AtEnd(c, s) && s.cur + 1 == |s.jobs|
    ensures Inv(c, Finally(s, Completed))
  {
    hide JobInv, Drained;
    assert c.jobs[..s.cur + 1] == c.jobs;
    RaiseCancel(c, s);
    assert CleanupInv(Finally(s, Completed)) by { hide Shape; }
  }

  lemma AdvanceFromEnd(c: Config, s: State)
    requires AtEnd(c, s) && s.cur + 1 < |s.jobs|
    ensures Inv(c, MaybePrefetch(c, s).(cur := s.cur + 1, firstSeen := false, phase := Fetching))
  {
    hide JobInv, Drained;
    var fetched := MaybePrefetch(c, s);
    PrefetchKeepsShape(c, s);
    PrefetchEffect(c, s);
    hide MaybePrefetch;
    var t := fetched.(cur := s.cur + 1, firstSeen := false, phase := Fetching);
    assert c.jobs[s.cur + 1].chunks[..0] == [];
    assert CleanupInv(t) by { hide Shape; }
    hide CleanupInv;
    assert Shape(c, t);
    hide Shape;
    assert ConsumerInv(c, t);
  }

  lemma TakeEndKeeps(c: Config, s: State)
    requires Inv(c, s) && Step(c, s, TakeItem).Some? && s.cur < s.next
    requires s.jobs[s.cur].log[s.jobs[s.cur].taken] == EndMark && !s.cancel
    ensures Inv(c, Step(c, s, TakeItem).value)
  {
    hide Inv, Step, MaybePrefetch, AtEnd;
    LiveWhileTaking(c, s);
    var j := s.jobs[s.cur];
    var popped := s.(jobs := s.jobs[s.cur := j.(taken := j.taken + 1)]);
    TakeEndStep(c, s, popped);
    ReachAtEnd(c, s, popped);
    if s.cur + 1 == |s.jobs| {
      AllSubmitted(c, popped);
      CompleteFromEnd(c, popped);
    } else {
      AdvanceFromEnd(c, popped);
    }
  }

  lemma LiveWhileTaking(c: Config, s: State)
    requires Step(c, s, TakeItem).Some?
    ensures s.phase == Fetching && s.cur < |s.jobs| && s.jobs[s.cur].taken < |s.jobs[s.cur].log|
  {
    hide MaybePrefetch;
  }

  lemma TakeEndStep(c: Config, s: State, popped: State)
    requires Step(c, s, TakeItem).Some? && !s.cancel
    requires s.jobs[s.cur].log[s.jobs[s.cur].taken] == EndMark
    requires popped == s.(jobs := s.jobs[s.cur := s.jobs[s.cur].(taken := s.jobs[s.cur].taken + 1)])
    ensures Step(c, s, TakeItem) == Some(
              if s.cur + 1 == |s.jobs| then Finally(MaybePrefetch(c, popped), Completed)
              else MaybePrefetch(c, popped).(cur := s.cur + 1, firstSeen := false, phase := Fetching))
  {
    hide Allows;
  }

  lemma TakePcmStep(c: Config, s: State, popped: State)
    requires Step(c, s, TakeItem).Some? && s.jobs[s.cur].log[s.jobs[s.cur].taken].Pcm?
    requires popped == s.(jobs := s.jobs[s.cur := s.jobs[s.cur].(taken := s.jobs[s.cur].taken + 1)])
    ensures var fetched := if s.firstSeen then popped else MaybePrefetch(c, popped);
            Step(c, s, TakeItem)
            == Some(fetched.(firstSeen := true, out := s.out + [s.jobs[s.cur].log[s.jobs[s.cur].taken].chunk], phase := Yielded))
  {
    hide MaybePrefetch;
  }

  lemma AllSubmitted(c: Config, s: State)
    requires AtEnd(c, s) && s.cur + 1 == |s.jobs|
    ensures MaybePrefetch(c, s) == s
  {}

  /** The consumer's side does not look at how far the cleanup has come. */
  lemma ConsumerIgnoresCleanup(c: Config, s: State, t: State)
    requires Shape(c, s) && Shape(c, t) && ConsumerInv(c, s)
    requires t == s.(cleanup := t.cleanup, release := t.release)
    requires s.cleanup != NotStarted && t.cleanup != NotStarted
    ensures ConsumerInv(c, t) && s.phase != Closed(NeverStarted)
  {
    hide Shape, JobInv, Drained;
  }

  lemma CleanupAdvances(s: State, a: Action)
    requires CleanupInv(s) && CleanupStep(s, a).Some? && s.phase != Closed(NeverStarted)
    requires a == Snapshot || a == DrainNext || a == DrainDone
    ensures CleanupInv(CleanupStep(s, a).value)
  {
    var t := CleanupStep(s, a).value;
    assert LeaseCounts(t);
    hide LeaseCounts;
  }

  lemma CleanupKeeps(c: Config, s: State, a: Action)
    requires Inv(c, s) && Step(c, s, a).Some?
    requires a == Snapshot || a == DrainNext || a == DrainDone
    ensures Inv(c, Step(c, s, a).value)
  {
    hide JobInv, Drained, LeaseCounts;
    var t := Step(c, s, a).value;
    assert t == s.(cleanup := t.cleanup, release := t.release) && s.cleanup != NotStarted && t.cleanup != NotStarted;
    assert CleanupStep(s, a) == Some(t);
    hide Step, CleanupStep, CleanupInv;
    assert Shape(c, t) by { hide ConsumerInv; }
    hide Shape, ConsumerInv;
    ConsumerIgnoresCleanup(c, s, t);
    CleanupAdvances(s, a);
  }

  lemma ReleaseKeeps(c: Config, s: State)
    requires Inv(c, s) && Step(c, s, ReleaseNext).Some?
    ensures Inv(c, Step(c, s, ReleaseNext).value)
  {
    hide JobInv, Drained;
    var t := Step(c, s, ReleaseNext).value;
    assert t == s.(release := t.release, attempts := t.attempts) && t.release != Held;
    assert LeaseCounts(t) by { hide Shape, ConsumerInv; }
    hide Step, LeaseCounts;
  }

  lemma StepKeepsInv(c: Config, s: State, a: Action)
    requires Inv(c, s) && Step(c, s, a).Some?
    ensures Inv(c, Step(c, s, a).value)
  {
    match a {
      case Begin => BeginKeeps(c, s);
      case TakeItem => TakeKeeps(c, s);
      case Resume => CancelKeeps(c, s, a);
      case Abort => StopKeeps(c, s, s, Aborted);
      case OuterFail => OuterFailKeeps(c, s);
      case Disconnect => CancelKeeps(c, s, a);
      case FrameCancel => CancelKeeps(c, s, a);
      case JobStart(i) => JobStartKeeps(c, s, i);
      case Snapshot => CleanupKeeps(c, s, a);
      case DrainNext => CleanupKeeps(c, s, a);
      case DrainDone => CleanupKeeps(c, s, a);
      case ReleaseNext => ReleaseKeeps(c, s);
      case _ => JobActionKeeps(c, s, a);
    }
  }

  lemma {:induction false} ExecKeepsInv(c: Config, s: State, acts: seq<Action>)
    requires Inv(c, s) && Exec(c, s, acts).Some?
    ensures Inv(c, Exec(c, s, acts).value)
    decreases acts
  {
    if acts != [] {
      StepKeepsInv(c, s, acts[0]);
      ExecKeepsInv(c, Step(c, s, acts[0]).value, acts[1..]);
    }
  }

  lemma ReachableInv(c: Config, s: State)
    requires c.Valid() && Reachable(c, s)
    ensures Inv(c, s)
  {
    InitInv(c);
    var acts :| Exec(c, Init(c), acts) == Some(s);
    ExecKeepsInv(c, Init(c), acts);
  }
}
