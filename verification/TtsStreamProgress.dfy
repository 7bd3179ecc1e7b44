/** Progress of the `/tts/stream` pipeline: every run is finite, and a run that
    cannot go on has given everything back. */
module TtsStreamProgress {
  import opened TtsStream
  import opened TtsStreamInvariant
  import opened Wrappers

  /** Steps the response takes on its own, as opposed to a disconnect, a cancel
      or a failure of the surrounding endpoint. */
  predicate Internal(a: Action) {
    match a
    case Abort => false
    case OuterFail => false
    case Disconnect => false
    case FrameCancel => false
    case JobCut(_, _) => false
    case JobReport(_, quiet) => !quiet
    case _ => true
  }

  /** The stream has ended, all leases are back, and no thread is left working. */
  predicate Terminal(s: State) {
    && s.phase.Closed? && s.release == Freed
    && (forall i :: 0 <= i < |s.jobs| ==> s.jobs[i].status.Unsubmitted? || s.jobs[i].status.Finished?)
  }

  ghost predicate CanMove(c: Config, s: State) {
    exists a :: Internal(a) && Step(c, s, a).Some?
  }

  /** Nothing but a cancel from outside could ever change this state. */
  ghost predicate Stuck(c: Config, s: State) { !Terminal(s) && !CanMove(c, s) }

  // ---------------------------------------------------------------- no deadlock

  /** The next thing a running thread does. */
  function ThreadMove(script: Script, j: Job, i: nat): Action {
    match j.status
    case Started => JobCheck(i)
    case Entering => JobRegister(i)
    case Inside => if j.pulled < |script.chunks| then JobPull(i) else JobEnd(i)
    case Holding => JobPut(i)
    case Failing => JobReport(i, false)
    case Closing => JobClose(i)
    case Marking => JobMark(i)
    case _ => JobFinish(i)
  }

  lemma RunningThreadMoves(script: Script, j: Job, cancel: bool, i: nat)
    requires JobInv(script, j, cancel) && Running(j)
    ensures var a := ThreadMove(script, j, i);
            IsThreadAction(a) && Internal(a) && a.job == i && JobStep(script, j, cancel, a).Some?
  {}

  lemma {:induction false} NoneRunning(jobs: seq<Job>)
    requires forall i :: 0 <= i < |jobs| ==> !Running(jobs[i])
    ensures RunningCount(jobs) == 0
  {
    if jobs != [] { NoneRunning(jobs[1..]); }
  }

  lemma {:induction false} FirstQueued(s: State, i: nat) returns (first: nat)
    requires i < |s.jobs| && s.jobs[i].status == Queued
    ensures NextInLine(s, first)
    decreases i
  {
    if k :| 0 <= k < i && s.jobs[k].status == Queued {
      first := FirstQueued(s, k);
    } else {
      first := i;
    }
  }

  lemma ShapeOf(c: Config, s: State)
    requires Inv(c, s)
    ensures Shape(c, s)
  {}

  lemma ThreadCanMove(c: Config, s: State, i: nat)
    requires Shape(c, s) && i < |s.jobs| && Running(s.jobs[i])
    ensures CanMove(c, s)
  {
    assert JobInv(c.jobs[i], s.jobs[i], s.cancel);
    RunningThreadMoves(c.jobs[i], s.jobs[i], s.cancel, i);
    var a := ThreadMove(c.jobs[i], s.jobs[i], i);
    hide JobInv, JobStep, ThreadMove, Internal;
    assert Step(c, s, a).Some?;
  }

  lemma QueuedCanStart(c: Config, s: State, i: nat)
    requires Shape(c, s) && i < |s.jobs| && s.jobs[i].status == Queued
    requires forall k :: 0 <= k < |s.jobs| ==> !Running(s.jobs[k])
    ensures CanMove(c, s)
  {
    hide JobInv;
    NoneRunning(s.jobs);
    var first := FirstQueued(s, i);
    assert Step(c, s, JobStart(first)).Some?;
  }

  predicate Idle(s: State) {
    forall k :: 0 <= k < |s.jobs| ==> s.jobs[k].status.Unsubmitted? || s.jobs[k].status.Finished?
  }

  lemma FinishedHasUnread(script: Script, j: Job, cancel: bool)
    requires JobInv(script, j, cancel) && j.status == Finished && j.taken <= j.delivered
    ensures j.taken < |j.log|
  {}

  lemma ConsumerCanMove(c: Config, s: State)
    requires Inv(c, s) && Idle(s) && !s.phase.Closed?
    requires Live(s) ==> s.cur < s.next
    ensures CanMove(c, s)
  {
    match s.phase {
      case Setup => assert Step(c, s, Begin).Some?;
      case Yielded => assert Step(c, s, Resume).Some?;
      case Fetching =>
        assert s.jobs[s.cur].status == Finished;
        FinishedHasUnread(c.jobs[s.cur], s.jobs[s.cur], s.cancel);
        hide JobInv, Drained;
        assert Step(c, s, TakeItem).Some?;
    }
  }

  lemma CleanupCanMove(c: Config, s: State)
    requires Inv(c, s) && Idle(s) && s.phase.Closed? && s.release != Freed
    ensures CanMove(c, s)
  {
    hide JobInv, JobStep, Take, RunningCount;
    if s.release.Releasing? {
      assert Step(c, s, ReleaseNext).Some?;
    } else if s.cleanup == Scheduled {
      assert Step(c, s, Snapshot).Some?;
    } else {
      assert s.cleanup.Draining?;
      if s.cleanup.from < |s.jobs| {
        assert Step(c, s, DrainNext).Some?;
      } else {
        assert Step(c, s, DrainDone).Some?;
      }
    }
  }

  /** As long as the sentence being drained has been submitted, the response can
      always take another step of its own until everything has been released. */
  lemma NeverStuck(c: Config, s: State)
    requires Inv(c, s) && (Live(s) ==> s.cur < s.next)
    ensures !Stuck(c, s)
  {
    hide Inv, CanMove;
    if !Terminal(s) {
      if i :| 0 <= i < |s.jobs| && Running(s.jobs[i]) {
        ThreadCanMove(c, s, i) by { ShapeOf(c, s); }
      } else if i :| 0 <= i < |s.jobs| && s.jobs[i].status == Queued {
        QueuedCanStart(c, s, i) by { ShapeOf(c, s); }
      } else if s.phase.Closed? {
        CleanupCanMove(c, s);
      } else {
        ConsumerCanMove(c, s);
      }
    }
  }

  // ---------------------------------------------------------------- every run ends

  function StatusWork(status: Status): nat {
    match status
    case Unsubmitted => 40
    case Queued => 38
    case Started => 36
    case Entering => 34
    case Inside => 30
    case Holding => 34
    case Failing => 26
    case Closing => 20
    case Marking => 18
    case Signalling => 12
    case Finished => 0
  }

  function JobWork(script: Script, j: Job): nat {
    8 * Min0(|script.chunks| - j.pulled) + StatusWork(j.status) + 3 * Min0(|j.log| - j.taken)
  }

  function Work(scripts: seq<Script>, jobs: seq<Job>): nat
    requires |scripts| == |jobs|
  {
    if jobs == [] then 0 else JobWork(scripts[0], jobs[0]) + Work(scripts[1..], jobs[1..])
  }

  function ControlWork(s: State): nat {
    (match s.phase case Setup => 3 case Yielded => 2 case Fetching => 1 case Closed(_) => 0)
    + Ones(!s.cancel) + Ones(s.watching)
    + (match s.cleanup
       case NotStarted => |s.jobs| + 3
       case Scheduled => |s.jobs| + 2
       case Draining(_, from) => Min0(|s.jobs| - from) + 1
       case Over => 0)
    + (match s.release case Held => 4 case Releasing(n) => Min0(3 - n) case Freed => 0)
  }

  /** The work left in a state: an upper bound on the length of any run from it. */
  function Measure(c: Config, s: State): nat
    requires |c.jobs| == |s.jobs|
  {
    Work(c.jobs, s.jobs) + ControlWork(s)
  }

  lemma {:induction false} WorkUpdate(scripts: seq<Script>, jobs: seq<Job>, i: nat, k: Job)
    requires |scripts| == |jobs| && i < |jobs|
    ensures Work(scripts, jobs[i := k]) + JobWork(scripts[i], jobs[i])
            == Work(scripts, jobs) + JobWork(scripts[i], k)
  {
    if i > 0 {
      assert jobs[i := k][1..] == jobs[1..][i - 1 := k];
      WorkUpdate(scripts[1..], jobs[1..], i - 1, k);
    } else {
      assert jobs[i := k][1..] == jobs[1..];
    }
  }

  lemma JobStepDecreases(script: Script, j: Job, cancel: bool, a: Action)
    requires JobInv(script, j, cancel) && JobStep(script, j, cancel, a).Some?
    ensures JobWork(script, JobStep(script, j, cancel, a).value) < JobWork(script, j)
  {}

  lemma PrefetchDecreases(c: Config, s: State)
    requires Shape(c, s)
    ensures |MaybePrefetch(c, s).jobs| == |s.jobs|
    ensures Work(c.jobs, MaybePrefetch(c, s).jobs) <= Work(c.jobs, s.jobs)
  {
    hide JobInv;
    if s.next < |s.jobs| {
      WorkUpdate(c.jobs, s.jobs, s.next, s.jobs[s.next].(status := Queued));
    }
  }

  lemma ReadingDecreases(c: Config, s: State, popped: State)
    requires Shape(c, s) && Take(c, s).Some?
    requires popped == s.(jobs := s.jobs[s.cur := s.jobs[s.cur].(taken := s.jobs[s.cur].taken + 1)])
    ensures |MaybePrefetch(c, popped).jobs| == |s.jobs|
    ensures Work(c.jobs, popped.jobs) + 3 <= Work(c.jobs, s.jobs)
    ensures Work(c.jobs, MaybePrefetch(c, popped).jobs) + 3 <= Work(c.jobs, s.jobs)
  {
    hide JobInv, Allows;
    TakeKeepsShape(c, s, popped);
    WorkUpdate(c.jobs, s.jobs, s.cur, popped.jobs[s.cur]);
    hide Take;
    PrefetchDecreases(c, popped);
  }

  /** What taking an item changes besides the queues. */
  lemma TakeFields(c: Config, s: State, popped: State)
    requires Take(c, s).Some?
    requires popped == s.(jobs := s.jobs[s.cur := s.jobs[s.cur].(taken := s.jobs[s.cur].taken + 1)])
    ensures var t := Take(c, s).value;
            && (t.jobs == popped.jobs || t.jobs == MaybePrefetch(c, popped).jobs)
            && |t.jobs| == |s.jobs| && t.watching == s.watching && t.release == s.release
            && s.phase == Fetching
            && (if t.phase.Closed? then t.cancel && t.cleanup == StartCleanup(s).cleanup
                else (t.phase == Yielded || t.phase == Fetching) && t.cancel == s.cancel && t.cleanup == s.cleanup)
  {
    hide Allows;
  }

  lemma TakeControl(c: Config, s: State, popped: State)
    requires |c.jobs| == |s.jobs| && Take(c, s).Some?
    requires popped == s.(jobs := s.jobs[s.cur := s.jobs[s.cur].(taken := s.jobs[s.cur].taken + 1)])
    ensures var t := Take(c, s).value;
            && (t.jobs == popped.jobs || t.jobs == MaybePrefetch(c, popped).jobs)
            && |t.jobs| == |s.jobs| && ControlWork(t) <= ControlWork(s) + 1
  {
    TakeFields(c, s, popped);
    hide Take, MaybePrefetch;
  }

  lemma TakeDecreases(c: Config, s: State)
    requires Shape(c, s) && Take(c, s).Some?
    ensures var t := Take(c, s).value;
            |t.jobs| == |s.jobs| && Measure(c, t) < Measure(c, s)
  {
    var popped := s.(jobs := s.jobs[s.cur := s.jobs[s.cur].(taken := s.jobs[s.cur].taken + 1)]);
    hide JobInv, MaybePrefetch, ControlWork, Work;
    ReadingDecreases(c, s, popped);
    TakeControl(c, s, popped);
    hide Take;
  }

  lemma TakeKeepsShape(c: Config, s: State, popped: State)
    requires Shape(c, s) && Take(c, s).Some?
    requires popped == s.(jobs := s.jobs[s.cur := s.jobs[s.cur].(taken := s.jobs[s.cur].taken + 1)])
    ensures Shape(c, popped)
  {}

  lemma CleanupDecreases(c: Config, s: State, a: Action)
    requires Inv(c, s) && Step(c, s, a).Some?
    requires a == Snapshot || a == DrainNext || a == DrainDone || a == ReleaseNext
    ensures var t := Step(c, s, a).value;
            t.jobs == s.jobs && ControlWork(t) < ControlWork(s)
  {
    assert Step(c, s, a) == CleanupStep(s, a) && CleanupInv(s) by { hide CleanupStep; }
    hide Inv, Step, ControlWork;
    if a == ReleaseNext {
      ReleaseDecreases(s);
    } else {
      DrainDecreases(s, a);
    }
  }

  lemma ReleaseDecreases(s: State)
    requires CleanupInv(s) && CleanupStep(s, ReleaseNext).Some?
    ensures var t := CleanupStep(s, ReleaseNext).value;
            t.jobs == s.jobs && ControlWork(t) < ControlWork(s)
  {}

  lemma DrainDecreases(s: State, a: Action)
    requires CleanupInv(s) && CleanupStep(s, a).Some? && (a == Snapshot || a == DrainNext || a == DrainDone)
    ensures var t := CleanupStep(s, a).value;
            t.jobs == s.jobs && ControlWork(t) < ControlWork(s)
  {
    hide LeaseCounts;
  }

  lemma ControlDecreases(c: Config, s: State, a: Action)
    requires CleanupInv(s) && Step(c, s, a).Some?
    requires a == Resume || a == Abort || a == OuterFail || a == Disconnect || a == FrameCancel
    ensures var t := Step(c, s, a).value;
            t.jobs == s.jobs && ControlWork(t) < ControlWork(s)
  {}

  lemma ThreadDecreases(c: Config, s: State, a: Action)
    requires Shape(c, s) && Step(c, s, a).Some? && IsThreadAction(a)
    ensures var t := Step(c, s, a).value;
            |t.jobs| == |s.jobs| && Measure(c, t) < Measure(c, s)
  {
    hide JobStep, JobInv, JobWork, Work, Step, StatusWork;
    StepIsThread(c, s, a);
    JobStepDecreases(c.jobs[a.job], s.jobs[a.job], s.cancel, a);
    var k := JobStep(c.jobs[a.job], s.jobs[a.job], s.cancel, a).value;
    hide Shape;
    WorkUpdate(c.jobs, s.jobs, a.job, k);
  }

  lemma SubmitDecreases(c: Config, s: State)
    requires Shape(c, s) && s.next < |s.jobs|
    ensures |Submit(s).jobs| == |s.jobs| && Work(c.jobs, Submit(s).jobs) < Work(c.jobs, s.jobs)
  {
    hide JobInv;
    WorkUpdate(c.jobs, s.jobs, s.next, s.jobs[s.next].(status := Queued));
  }

  lemma BeginDecreases(c: Config, s: State)
    requires Shape(c, s) && Step(c, s, Begin).Some?
    ensures var t := Step(c, s, Begin).value;
            |t.jobs| == |s.jobs| && Measure(c, t) < Measure(c, s)
  {
    hide JobInv, Work;
    SubmitDecreases(c, s);
  }

  lemma StartDecreases(c: Config, s: State, i: nat)
    requires Shape(c, s) && Step(c, s, JobStart(i)).Some?
    ensures var t := Step(c, s, JobStart(i)).value;
            |t.jobs| == |s.jobs| && Measure(c, t) < Measure(c, s)
  {
    hide JobInv, RunningCount, Work, JobWork, ControlWork;
    var k := s.jobs[i].(status := Started);
    assert Step(c, s, JobStart(i)).value == s.(jobs := s.jobs[i := k]) && s.jobs[i].status == Queued;
    hide Step, Shape;
    StartedIsLess(c.jobs[i], s.jobs[i]);
    WorkUpdate(c.jobs, s.jobs, i, k);
    SameControl(s, s.jobs[i := k]);
  }

  lemma StartedIsLess(script: Script, j: Job)
    requires j.status == Queued
    ensures JobWork(script, j.(status := Started)) < JobWork(script, j)
  {}

  lemma SameControl(s: State, jobs: seq<Job>)
    requires |jobs| == |s.jobs|
    ensures ControlWork(s.(jobs := jobs)) == ControlWork(s)
  {}

  lemma StepDecreases(c: Config, s: State, a: Action)
    requires Inv(c, s) && Step(c, s, a).Some?
    ensures var t := Step(c, s, a).value;
            |t.jobs| == |s.jobs| && Measure(c, t) < Measure(c, s)
  {
    hide Step, JobStep, Work, JobInv, ControlWork, ConsumerInv, CleanupInv;
    if IsThreadAction(a) {
      ThreadDecreases(c, s, a);
    } else if a.JobStart? {
      StartDecreases(c, s, a.job);
    } else if a == Begin {
      BeginDecreases(c, s);
    } else if a == TakeItem {
      TakeDecreases(c, s) by { assert Take(c, s) == Step(c, s, a) by { StepIsTake(c, s); } }
      StepIsTake(c, s);
    } else if a == Snapshot || a == DrainNext || a == DrainDone || a == ReleaseNext {
      CleanupDecreases(c, s, a);
    } else {
      ControlDecreases(c, s, a);
    }
  }

  lemma StepIsTake(c: Config, s: State)
    ensures Step(c, s, TakeItem) == Take(c, s)
  {
    hide Take;
  }

  lemma {:induction false} RunsAreShort(c: Config, s: State, acts: seq<Action>)
    requires Inv(c, s) && Exec(c, s, acts).Some?
    ensures |acts| <= Measure(c, s)
    decreases acts
  {
    ShapeOf(c, s);
    hide Inv, Step, Measure, Shape;
    if acts != [] {
      StepKeepsInv(c, s, acts[0]);
      StepDecreases(c, s, acts[0]);
      RunsAreShort(c, Step(c, s, acts[0]).value, acts[1..]);
    }
  }

  function ChunkCount(jobs: seq<Script>): nat {
    if jobs == [] then 0 else |jobs[0].chunks| + ChunkCount(jobs[1..])
  }

  lemma {:induction false} InitialWork(scripts: seq<Script>, jobs: seq<Job>)
    requires |scripts| == |jobs| && forall i :: 0 <= i < |jobs| ==> jobs[i] == FreshJob()
    ensures Work(scripts, jobs) == 8 * ChunkCount(scripts) + 40 * |scripts|
  {
    if jobs != [] { InitialWork(scripts[1..], jobs[1..]); }
  }

  /** No run of any kind, cancelled or not, is longer than this: there is no
      livelock, and no fairness assumption is needed. */
  lemma RunLength(c: Config, acts: seq<Action>)
    requires c.Valid() && Exec(c, Init(c), acts).Some?
    ensures |acts| <= 8 * ChunkCount(c.jobs) + 41 * |c.jobs| + 11
  {
    InitInv(c);
    RunsAreShort(c, Init(c), acts);
    InitialWork(c.jobs, Init(c).jobs);
  }
}
