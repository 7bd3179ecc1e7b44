/** The `/tts/stream` sentence pipeline as a step system.

    One response splits its text into sentences.  The event-loop task (the
    consumer) hands sentences to a thread pool through a sliding window and
    drains one queue per sentence, in order.  It races with the executor
    threads, with a disconnect watcher, with a cancel request from the framed
    response, and with a cleanup task that owns the response's three leases.

    Every action below is one stretch of code between two points where another
    actor may run: between two `await`s on the event loop, or between two
    accesses to a shared event or queue in an executor thread. */
module TtsStream {
  import opened Wrappers

  type Chunk = seq<bv8>

  /** How a backend generator ends once it has produced its chunks.  `Raises` is
      an ordinary exception, which `_run` catches and forwards; `Escapes` is one
      that `except Exception` does not catch, so it ends up in the future. */
  datatype Ending = Ends | Raises | Escapes

  /** What the backend does for one sentence when nobody cancels it. */
  datatype Script = Script(chunks: seq<Chunk>, ending: Ending)

  datatype Guard = Current | Legacy

  /** `window` is `prefetch_max`; `workers` the size of the executor. */
  datatype Config = Config(jobs: seq<Script>, window: nat, workers: nat, guard: Guard)
  {
    predicate Valid() {
      1 <= |jobs| && 1 <= window && 1 <= workers
    }
  }

  /** `prefetch_max`: the configured window, at least 1, at most the job count. */
  function PrefetchMax(requested: int, jobCount: nat): (window: nat)
    ensures 1 <= window <= if jobCount == 0 then 1 else jobCount
    ensures 1 <= requested <= jobCount ==> window == requested
    ensures 1 <= jobCount < requested ==> window == jobCount
    ensures requested < 1 ==> window == 1
  {
    var capped := if requested < jobCount then requested else jobCount;
    if 1 < capped then capped else 1
  }

  predicate PrefetchWindowAllows(nextToSubmit: int, currentIdx: int, prefetchMax: int) {
    nextToSubmit - 1 - currentIdx < prefetchMax
  }

  /** The comparison the handler used before the fix. */
  predicate LegacyWindowAllows(nextToSubmit: int, currentIdx: int, prefetchMax: int) {
    nextToSubmit - currentIdx < prefetchMax
  }

  predicate Allows(c: Config, nextToSubmit: int, currentIdx: int) {
    match c.guard
    case Current => PrefetchWindowAllows(nextToSubmit, currentIdx, c.window)
    case Legacy => LegacyWindowAllows(nextToSubmit, currentIdx, c.window)
  }

  /** How many sentences may be submitted ahead of the one being drained. */
  function Lookahead(c: Config): int {
    match c.guard
    case Current => c.window
    case Legacy => c.window - 1
  }

  // ---------------------------------------------------------------- state

  datatype Item = Pcm(chunk: Chunk) | Error | EndMark

  /** Where one executor job is in `_run`. */
  datatype Status =
    | Unsubmitted
    | Queued       // handed to the executor, no thread yet
    | Started      // `started` raised, cancel flag not read yet
    | Entering     // flag read as clear, generator created, not registered yet
    | Inside       // iterating the generator
    | Holding      // took a chunk and saw the flag clear, chunk not queued yet
    | Failing      // the generator raised, nothing reported yet
    | Closing      // in `gen.close()`
    | Marking      // about to queue the end mark
    | Signalling   // end mark queued, `finished` not raised yet
    | Finished

  /** `log` is everything ever put on the job's queue, of which the first
      `delivered` items are audio; the consumer has taken the first `taken`.
      `erred` records that an error was queued, `cut` that the cancel flag made
      the job stop early or drop something, `escaped` that its future holds an
      error. */
  datatype Job = Job(
    status: Status, pulled: nat, log: seq<Item>, delivered: nat, taken: nat,
    erred: bool, cut: bool, escaped: bool)

  datatype Outcome = Completed | Cancelled | Failed | Aborted | NeverStarted

  datatype Phase =
    | Setup                     // leases held, generator not entered
    | Fetching                  // awaiting the current sentence's queue
    | Yielded                   // suspended at `yield`
    | Closed(outcome: Outcome)  // past the generator's `finally`

  datatype Cleanup =
    | NotStarted
    | Scheduled                 // task created, not run yet
    | Draining(wait: seq<bool>, from: nat)
                                // jobs whose `started` was raised at the snapshot;
                                // those before `from` have been awaited
    | Over                      // release callback reached

  datatype Release = Held | Releasing(attempted: nat) | Freed

  datatype State = State(
    cancel: bool,
    jobs: seq<Job>,
    next: nat,
    cur: nat,
    firstSeen: bool,
    phase: Phase,
    out: seq<Chunk>,
    watching: bool,
    cleanup: Cleanup,
    release: Release,
    // release attempts per lease: coordinator, backend manager, session
    attempts: seq<nat>)

  datatype Action =
    // consumer
    | Begin | TakeItem | Resume | Abort
    // the endpoint's own exception handler, before the generator is entered
    | OuterFail
    // watcher and framed response
    | Disconnect | FrameCancel
    // executor thread of one job
    | JobStart(job: nat) | JobCheck(job: nat) | JobRegister(job: nat)
    | JobPull(job: nat) | JobPut(job: nat) | JobEnd(job: nat)
    | JobCut(job: nat, raises: bool) | JobReport(job: nat, quiet: bool)
    | JobClose(job: nat) | JobMark(job: nat) | JobFinish(job: nat)
    // cleanup task
    | Snapshot | DrainNext | DrainDone | ReleaseNext

  function FreshJob(): Job { Job(Unsubmitted, 0, [], 0, 0, false, false, false) }

  function Init(c: Config): State {
    State(false, seq(|c.jobs|, i => FreshJob()), 0, 0, false, Setup, [], false,
          NotStarted, Held, [0, 0, 0])
  }

  /** The thread has raised `started`. */
  predicate HasStarted(j: Job) {
    j.status != Unsubmitted && j.status != Queued
  }

  predicate Running(j: Job) { HasStarted(j) && j.status != Finished }

  /** The thread is between its first call into the backend and the return of
      `gen.close()`. */
  predicate InBackend(j: Job) {
    j.status.Entering? || j.status.Inside? || j.status.Holding? || j.status.Failing? || j.status.Closing?
  }

  function RunningCount(jobs: seq<Job>): nat {
    if jobs == [] then 0 else (if Running(jobs[0]) then 1 else 0) + RunningCount(jobs[1..])
  }

  // ---------------------------------------------------------------- steps

  function Submit(s: State): State
    requires s.next < |s.jobs|
  {
    s.(jobs := s.jobs[s.next := s.jobs[s.next].(status := Queued)], next := s.next + 1)
  }

  function MaybePrefetch(c: Config, s: State): State {
    if s.next < |s.jobs| && !s.cancel && Allows(c, s.next, s.cur) then Submit(s) else s
  }

  /** `_TTSStreamCleanupOwner.start`: idempotent. */
  function StartCleanup(s: State): State {
    s.(cleanup := if s.cleanup.NotStarted? then Scheduled else s.cleanup)
  }

  /** The generator's `finally`, up to its first await. */
  function Finally(s: State, outcome: Outcome): State {
    StartCleanup(s.(cancel := true, phase := Closed(outcome)))
  }

  /** `_release_stream_resources`: only the first call does anything. */
  function CallRelease(s: State): State {
    if s.release.Held? then s.(release := Releasing(0)) else s
  }

  function Take(c: Config, s: State): Option<State> {
    if s.phase != Fetching || s.cur >= |s.jobs| || |s.jobs[s.cur].log| <= s.jobs[s.cur].taken then
      None
    else
      var j := s.jobs[s.cur];
      var popped := s.(jobs := s.jobs[s.cur := j.(taken := j.taken + 1)]);
      match j.log[j.taken]
      case Pcm(chunk) =>
        var fetched := if s.firstSeen then popped else MaybePrefetch(c, popped);
        Some(fetched.(firstSeen := true, out := s.out + [chunk], phase := Yielded))
      case Error =>
        Some(Finally(popped, Failed))
      case EndMark =>
        var fetched := MaybePrefetch(c, popped);
        if s.cancel then Some(Finally(fetched, Cancelled))
        else if s.cur + 1 == |s.jobs| then Some(Finally(fetched, Completed))
        else Some(fetched.(cur := s.cur + 1, firstSeen := false))
  }

  /** One step of an executor thread that depends on nothing but its own job
      and the cancel flag. */
  function JobStep(script: Script, j: Job, cancel: bool, a: Action): Option<Job> {
    match a
    case JobCheck(_) =>
      if j.status != Started then None
      else Some(if cancel then j.(status := Marking, cut := true) else j.(status := Entering))
    case JobRegister(_) =>
      if j.status != Entering then None
      else Some(if cancel then j.(status := Closing, cut := true) else j.(status := Inside))
    case JobPull(_) =>
      if j.status != Inside || j.pulled >= |script.chunks| then None
      else Some(if cancel then j.(pulled := j.pulled + 1, cut := true)
                else j.(pulled := j.pulled + 1, status := Holding))
    case JobPut(_) =>
      if j.status != Holding || j.pulled == 0 || j.pulled > |script.chunks| then None
      else Some(j.(status := Inside, delivered := j.delivered + 1,
                   log := j.log + [Pcm(script.chunks[j.pulled - 1])]))
    case JobEnd(_) =>
      if j.status != Inside || j.pulled != |script.chunks| then None
      else (match script.ending
            case Ends => Some(j.(status := Closing))
            case Raises => Some(j.(status := Failing))
            case Escapes => Some(j.(status := Closing, escaped := true)))
    case JobCut(_, raises) =>
      // the backend shares the cancel event and may stop as soon as it is set
      if j.status != Inside || !cancel then None
      else Some(j.(status := if raises then Failing else Closing, cut := true))
    case JobReport(_, quiet) =>
      // a backend's own "cancelled" error is swallowed once the flag is set
      if j.status != Failing || (quiet && !cancel) then None
      else if quiet then Some(j.(status := Closing, cut := true))
      else Some(j.(status := Closing, erred := true, log := j.log + [Error]))
    case JobClose(_) =>
      if j.status != Closing then None else Some(j.(status := Marking))
    case JobMark(_) =>
      if j.status != Marking then None
      else Some(j.(status := Signalling, log := j.log + [EndMark]))
    case JobFinish(_) =>
      if j.status != Signalling then None else Some(j.(status := Finished))
    case _ => None
  }

  /** The executor's queue is first in, first out. */
  predicate NextInLine(s: State, i: nat) {
    i < |s.jobs| && s.jobs[i].status == Queued
    && forall k :: 0 <= k < i ==> s.jobs[k].status != Queued
  }

  function CleanupStep(s: State, a: Action): Option<State> {
    match a
    case Snapshot =>
      if s.cleanup != Scheduled then None
      else Some(s.(cleanup := Draining(seq(|s.jobs|, i requires 0 <= i < |s.jobs| => HasStarted(s.jobs[i])), 0)))
    case DrainNext =>
      if !s.cleanup.Draining? || s.cleanup.from >= |s.jobs| || |s.cleanup.wait| != |s.jobs| then None
      else
        var i := s.cleanup.from;
        if !s.cleanup.wait[i] then Some(s.(cleanup := s.cleanup.(from := i + 1)))
        else if s.jobs[i].status != Finished then None
        // `future.result()` re-raises: the `finally` releases at once
        else if s.jobs[i].escaped then Some(CallRelease(s.(cleanup := Over)))
        else Some(s.(cleanup := s.cleanup.(from := i + 1)))
    case DrainDone =>
      if !s.cleanup.Draining? || s.cleanup.from < |s.jobs| then None
      else Some(CallRelease(s.(cleanup := Over)))
    case ReleaseNext =>
      // a release that raises or is cancelled counts as attempted all the same
      if !s.release.Releasing? || s.release.attempted >= |s.attempts| then None
      else
        var k := s.release.attempted;
        Some(s.(attempts := s.attempts[k := s.attempts[k] + 1],
                release := if k + 1 == |s.attempts| then Freed else Releasing(k + 1)))
    case _ => None
  }

  function Step(c: Config, s: State, a: Action): Option<State> {
    match a
    case Begin =>
      if s.phase != Setup || s.next >= |s.jobs| then None
      else Some(Submit(s).(phase := Fetching, watching := true))
    case TakeItem => Take(c, s)
    case Resume =>
      if s.phase != Yielded then None else Some(s.(phase := Fetching))
    case Abort =>
      if s.phase != Fetching && s.phase != Yielded then None else Some(Finally(s, Aborted))
    case OuterFail =>
      if s.phase != Setup then None
      else Some(CallRelease(s.(phase := Closed(NeverStarted))))
    case Disconnect =>
      if !s.watching then None
      else Some(StartCleanup(s.(cancel := true, watching := false)))
    case FrameCancel =>
      if s.cancel || s.phase == Setup then None else Some(s.(cancel := true))
    case JobStart(i) =>
      if !NextInLine(s, i) || RunningCount(s.jobs) >= c.workers then None
      else Some(s.(jobs := s.jobs[i := s.jobs[i].(status := Started)]))
    case Snapshot => CleanupStep(s, a)
    case DrainNext => CleanupStep(s, a)
    case DrainDone => CleanupStep(s, a)
    case ReleaseNext => CleanupStep(s, a)
    // every other action is a thread's
    case _ =>
      if a.job >= |s.jobs| || a.job >= |c.jobs| then None
      else
        var moved := JobStep(c.jobs[a.job], s.jobs[a.job], s.cancel, a);
        if moved.None? then None else Some(s.(jobs := s.jobs[a.job := moved.value]))
  }

  // ---------------------------------------------------------------- runs

  function Exec(c: Config, s: State, acts: seq<Action>): Option<State>
    decreases acts
  {
    if acts == [] then Some(s)
    else
      var s1 := Step(c, s, acts[0]);
      if s1.None? then None else Exec(c, s1.value, acts[1..])
  }

  ghost predicate Reaches(c: Config, s: State, t: State) {
    exists acts :: Exec(c, s, acts) == Some(t)
  }

  ghost predicate Reachable(c: Config, s: State) { Reaches(c, Init(c), s) }

  lemma {:induction false} ExecConcat(c: Config, s: State, a: seq<Action>, b: seq<Action>)
    requires Exec(c, s, a).Some?
    ensures Exec(c, s, a + b) == Exec(c, Exec(c, s, a).value, b)
    decreases a
  {
    if a == [] {
      assert a + b == b;
    } else {
      assert (a + b)[1..] == a[1..] + b;
      ExecConcat(c, Step(c, s, a[0]).value, a[1..], b);
    }
  }

  lemma ReachesTrans(c: Config, s: State, t: State, u: State)
    requires Reaches(c, s, t) && Reaches(c, t, u)
    ensures Reaches(c, s, u)
  {
    var a :| Exec(c, s, a) == Some(t);
    var b :| Exec(c, t, b) == Some(u);
    ExecConcat(c, s, a, b);
    assert Exec(c, s, a + b) == Some(u);
  }

  lemma ReachesStep(c: Config, s: State, a: Action, t: State)
    requires Step(c, s, a) == Some(t)
    ensures Reaches(c, s, t)
  {
    assert [a][1..] == [];
    assert Exec(c, s, [a]) == Some(t);
  }

  /** What the client would hear if the sentences ran one after the other. */
  function Serial(jobs: seq<Script>): seq<Chunk> {
    if jobs == [] then [] else Serial(jobs[..|jobs| - 1]) + jobs[|jobs| - 1].chunks
  }
}
