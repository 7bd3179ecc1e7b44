/** Who gets through the ASR slots: a session keeps its permit until it leaves or
    is cancelled, jobs are never lost, and everyone in line is served. */
module AsrSlotsService {
  import opened AsrSlots
  import opened Wrappers

  // ---------------------------------------------------------------- what a step touches

  /** `_wake_next` may have reached this session; otherwise it stays put. */
  predicate OnlyWoken(before: Session, after: Session) {
    after == before || (before.pc == Waiting && after == before.(pc := Granted(false)))
  }

  predicate OthersStay(s: State, t: State, i: nat) {
    && |t.sessions| == |s.sessions|
    && forall k :: 0 <= k < |s.sessions| && k != i ==> OnlyWoken(s.sessions[k], t.sessions[k])
  }

  lemma {:induction false} WakeNextFrame(s: State)
    ensures var t := WakeNext(s);
            && t.jobs == s.jobs && t.lock == s.lock && |t.sessions| == |s.sessions|
            && forall k :: 0 <= k < |s.sessions| ==> OnlyWoken(s.sessions[k], t.sessions[k])
    decreases |s.waiters|
  {
    if s.waiters != [] { WakeNextFrame(s.(waiters := s.waiters[1..])); }
  }

  /** A session outside the queue is not touched when a permit is passed on. */
  lemma WakePassesOver(s: State, i: nat)
    requires i < |s.sessions| && s.sessions[i].pc == Out
    ensures var t := WakeNext(s);
            OthersStay(s, t, i) && t.sessions[i] == s.sessions[i] && t.jobs == s.jobs && t.lock == s.lock
  {
    WakeNextFrame(s);
    hide WakeNext;
  }

  /** The session that takes a step, if it is one's. */
  function Actor(a: Action): Option<nat> {
    match a
    case JobStart(_) => None
    case JobReturn(_) => None
    case OtherLocks => None
    case OtherUnlocks => None
    case _ => Some(a.i)
  }

  lemma ExitFrame(c: Config, s: State, i: nat)
    requires i < |s.sessions|
    ensures var t := Exit(c, s, i);
            OthersStay(s, t, i) && t.sessions[i] == Session(Out, []) && t.jobs == s.jobs
            && t.lock == if c.locked then Free else s.lock
  {
    hide WakeNext;
    WakePassesOver(s.(sessions := s.sessions[i := Session(Out, [])], lock := if c.locked then Free else s.lock), i);
  }

  lemma GateOthersStay(c: Config, s: State, a: Action)
    requires GateStep(c, s, a).Some?
    ensures Actor(a).Some? && a.i < |s.sessions| && OthersStay(s, GateStep(c, s, a).value, a.i)
    ensures GateStep(c, s, a).value.jobs == s.jobs && GateStep(c, s, a).value.lock == s.lock
  {
    hide WakeNext, QueueFull, Remove;
    if a.i < |s.sessions| { WakePassesOver(SetPc(s, a.i, Out), a.i); }
  }

  lemma BeginDrainFrame(c: Config, s: State, i: nat)
    requires i < |s.sessions|
    ensures var t, pending := BeginDrain(c, s, i), PendingFutures(s, i);
            && OthersStay(s, t, i) && t.jobs == s.jobs
            && t.sessions[i].pc == (if pending == {} then Out else Draining(pending))
            && t.lock == (if pending == {} && c.locked then Free else s.lock)
  {
    hide WakeNext, Exit;
    ExitFrame(c, s, i);
  }

  /** The cancelled session's job is withdrawn if no thread has taken it. */
  lemma CancelAwaitFrame(c: Config, s: State, i: nat)
    requires SlotStep(c, s, CancelAwait(i)).Some?
    ensures i < |s.sessions| && s.sessions[i].pc.Awaiting? && s.sessions[i].pc.job < |s.jobs|
    ensures var t, m := SlotStep(c, s, CancelAwait(i)).value, s.sessions[i].pc.job;
            && OthersStay(s, t, i)
            && t.jobs == (if s.jobs[m].status == Queued then s.jobs[m := s.jobs[m].(status := Withdrawn)] else s.jobs)
            && var pending := PendingFutures(s.(jobs := t.jobs), i);
               && t.sessions[i].pc == (if pending == {} then Out else Draining(pending))
               && t.lock == (if pending == {} && c.locked then Free else s.lock)
  {
    hide BeginDrain;
    var m := s.sessions[i].pc.job;
    BeginDrainFrame(c, s, i);
    BeginDrainFrame(c, s.(jobs := s.jobs[m := s.jobs[m].(status := Withdrawn)]), i);
    hide PendingFutures;
    assert s == s.(jobs := s.jobs);
  }

  lemma CancelDrainFrame(c: Config, s: State, i: nat)
    requires SlotStep(c, s, CancelDrain(i)).Some?
    ensures i < |s.sessions| && s.sessions[i].pc.Draining?
    ensures var t, pending := SlotStep(c, s, CancelDrain(i)).value, s.sessions[i].pc.pending;
            && OthersStay(s, t, i) && t.sessions[i].pc == Out && t.lock == (if c.locked then Free else s.lock)
            && |t.jobs| == |s.jobs|
            && forall n :: 0 <= n < |s.jobs| ==>
                 t.jobs[n] == s.jobs[n] || (n in pending && t.jobs[n] == s.jobs[n].(orphan := true))
  {
    hide Exit;
    var pending := s.sessions[i].pc.pending;
    var orphaned := seq(|s.jobs|, n requires 0 <= n < |s.jobs| =>
      if n in pending && Unfinished(s.jobs[n]) then s.jobs[n].(orphan := true) else s.jobs[n]);
    ExitFrame(c, s.(jobs := orphaned), i);
  }

  lemma SlotOthersStay(c: Config, s: State, a: Action)
    requires SlotStep(c, s, a).Some?
    ensures Actor(a).Some? && a.i < |s.sessions| && OthersStay(s, SlotStep(c, s, a).value, a.i)
  {
    match a {
      case CancelAwait(i) => CancelAwaitFrame(c, s, i);
      case CancelDrain(i) => CancelDrainFrame(c, s, i);
      case Drained(i) => hide Exit; ExitFrame(c, s, i);
      case Leave(i) => hide BeginDrain, PendingFutures; BeginDrainFrame(c, s, i);
      case _ =>
    }
  }

  lemma StepOthersStay(c: Config, s: State, a: Action, k: nat)
    requires Step(c, s, a).Some? && k < |s.sessions| && Actor(a) != Some(k)
    ensures |Step(c, s, a).value.sessions| == |s.sessions|
    ensures OnlyWoken(s.sessions[k], Step(c, s, a).value.sessions[k])
  {
    hide GateStep, SlotStep;
    if Actor(a).Some? {
      if GateStep(c, s, a).Some? { GateOthersStay(c, s, a); } else { SlotOthersStay(c, s, a); }
    }
  }

  // ---------------------------------------------------------------- jobs

  /** One step, seen by one job. */
  ghost predicate JobMoves(j: Job, a: Action, n: nat, k: Job) {
    && k.owner == j.owner
    && (k.status != j.status ==>
          || (a == JobStart(n) && j.status == Queued && k.status == Running)
          || (a == JobReturn(n) && j.status == Running && k.status == Returned)
          || (a == CancelAwait(j.owner) && j.status == Queued && k.status == Withdrawn))
    && (a == JobStart(n) ==> j.status == Queued && k.status == Running)
    && (a == JobReturn(n) ==> j.status == Running && k.status == Returned)
    && (k.orphan <==> j.orphan || (a == CancelDrain(j.owner) && k.orphan))
  }

  lemma OtherJobs(c: Config, s: State, a: Action)
    requires SlotStep(c, s, a).Some? && !a.CancelAwait? && !a.CancelDrain? && !a.Submit?
    ensures SlotStep(c, s, a).value.jobs == s.jobs
  {
    hide Exit, BeginDrain, PendingFutures;
    if a.i < |s.sessions| {
      ExitFrame(c, s, a.i);
      BeginDrainFrame(c, s, a.i);
    }
  }

  /** Whoever waits for a job owns it. */
  lemma AwaitedIsOwned(c: Config, s: State, i: nat, n: nat)
    requires SlotInv(c, s) && i < |s.sessions| && WaitsFor(s.sessions[i].pc, n)
    ensures n < |s.jobs| && s.jobs[n].owner == i
  {
    assert SessionInv(s.jobs, s.sessions[i], i);
  }

  lemma SlotMovesJob(c: Config, s: State, a: Action, n: nat)
    requires SlotInv(c, s) && SlotStep(c, s, a).Some? && n < |s.jobs|
    ensures |s.jobs| <= |SlotStep(c, s, a).value.jobs|
    ensures JobMoves(s.jobs[n], a, n, SlotStep(c, s, a).value.jobs[n])
  {
    hide SlotInv;
    if a.CancelAwait? {
      CancelAwaitFrame(c, s, a.i);
      AwaitedIsOwned(c, s, a.i, s.sessions[a.i].pc.job);
      hide SlotStep;
    } else if a.CancelDrain? {
      CancelDrainFrame(c, s, a.i);
      if n in s.sessions[a.i].pc.pending { AwaitedIsOwned(c, s, a.i, n); }
      hide SlotStep;
    } else if !a.Submit? {
      OtherJobs(c, s, a);
      hide SlotStep;
    }
  }

  lemma StepMovesJob(c: Config, s: State, a: Action, n: nat)
    requires SlotInv(c, s) && Step(c, s, a).Some? && n < |s.jobs|
    ensures |s.jobs| <= |Step(c, s, a).value.jobs|
    ensures JobMoves(s.jobs[n], a, n, Step(c, s, a).value.jobs[n])
  {
    hide GateStep, SlotStep, SlotInv;
    if Actor(a).Some? {
      if GateStep(c, s, a).Some? { GateOthersStay(c, s, a); } else { SlotMovesJob(c, s, a, n); }
    }
  }

  /** A job at the start of a run and at its end. */
  ghost predicate JobFate(j: Job, acts: seq<Action>, n: nat, k: Job) {
    && k.owner == j.owner
    && (j.status == Running ==> k.status == if JobReturn(n) in acts then Returned else Running)
    && (JobStart(n) in acts ==> j.status == Queued)
    && (j.status == Queued ==> (k.status == Running || k.status == Returned <==> JobStart(n) in acts))
    && (j.status == Queued && k.status == Withdrawn ==> CancelAwait(j.owner) in acts)
    && (j.status == Returned || j.status == Withdrawn ==> k.status == j.status)
    && (k.orphan && !j.orphan ==> CancelDrain(j.owner) in acts)
  }

  lemma FateStep(j: Job, a: Action, n: nat, k: Job, rest: seq<Action>, l: Job)
    requires JobMoves(j, a, n, k) && JobFate(k, rest, n, l)
    ensures JobFate(j, [a] + rest, n, l)
  {
    assert forall b :: b in [a] + rest <==> b == a || b in rest;
  }

  lemma {:induction false} FateOfRun(c: Config, s: State, acts: seq<Action>, t: State, n: nat)
    requires Inv(c, s) && Exec(c, s, acts) == Some(t) && n < |s.jobs|
    ensures n < |t.jobs| && JobFate(s.jobs[n], acts, n, t.jobs[n])
    decreases acts
  {
    if acts != [] {
      assert SlotInv(c, s);
      hide Inv, SlotInv, Step, JobFate, JobMoves;
      var s1 := Step(c, s, acts[0]).value;
      StepKeepsInv(c, s, acts[0]);
      StepMovesJob(c, s, acts[0], n);
      FateOfRun(c, s1, acts[1..], t, n);
      FateStep(s.jobs[n], acts[0], n, s1.jobs[n], acts[1..], t.jobs[n]);
      assert [acts[0]] + acts[1..] == acts;
    }
  }

  /** A job once in the backend leaves it only by returning, whatever is cancelled;
      one not begun is dropped only by its own session's cancellation; and only
      that session's second cancellation gives a job's slot up. */
  lemma JobsAreNotLost(c: Config, sessionCount: nat, before: seq<Action>, s: State, acts: seq<Action>, t: State, n: nat)
    requires Exec(c, Init(sessionCount), before) == Some(s) && Exec(c, s, acts) == Some(t) && n < |s.jobs|
    ensures n < |t.jobs| && t.jobs[n].owner == s.jobs[n].owner
    ensures s.jobs[n].status == Running ==> t.jobs[n].status == if JobReturn(n) in acts then Returned else Running
    ensures s.jobs[n].status == Queued ==> (t.jobs[n].status == Running || t.jobs[n].status == Returned <==> JobStart(n) in acts)
    ensures s.jobs[n].status == Queued && t.jobs[n].status == Withdrawn ==> CancelAwait(s.jobs[n].owner) in acts
    ensures t.jobs[n].orphan && !s.jobs[n].orphan ==> CancelDrain(s.jobs[n].owner) in acts
  {
    InitInv(c, sessionCount);
    ExecKeepsInv(c, Init(sessionCount), before);
    FateOfRun(c, s, acts, t, n);
  }

  // ---------------------------------------------------------------- permits

  /** Session `i` gives its permit up in this step: it leaves the slot with
      nothing of its own unfinished, is done draining, or is cancelled. */
  predicate PartsNow(s: State, a: Action, t: State, i: nat)
    requires i < |s.sessions|
  {
    || a == CancelLock(i) || a == Drained(i) || a == CancelDrain(i)
    || (a == Resume(i) && s.sessions[i].pc == Granted(true))
    || ((a == Leave(i) || a == CancelAwait(i))
        && forall f :: f in s.sessions[i].futures && f < |t.jobs| ==> !Unfinished(t.jobs[f]))
  }

  lemma OthersKeepPermit(c: Config, s: State, a: Action, i: nat)
    requires Step(c, s, a).Some? && i < |s.sessions| && Actor(a) != Some(i)
    ensures |Step(c, s, a).value.sessions| == |s.sessions|
    ensures HasPermit(s.sessions[i].pc) ==> Step(c, s, a).value.sessions[i] == s.sessions[i]
  {
    StepOthersStay(c, s, a, i);
    hide Step;
  }

  lemma GateKeepsPermit(c: Config, s: State, a: Action, i: nat)
    requires GateStep(c, s, a).Some? && i < |s.sessions| && a.i == i && HasPermit(s.sessions[i].pc)
    ensures var t := GateStep(c, s, a).value;
            |t.sessions| == |s.sessions| && (!HasPermit(t.sessions[i].pc) <==> PartsNow(s, a, t, i))
  {
    hide WakeNext, QueueFull, Remove;
    WakePassesOver(SetPc(s, i, Out), i);
  }

  lemma SlotKeepsPermit(c: Config, s: State, a: Action, i: nat)
    requires SlotStep(c, s, a).Some? && i < |s.sessions| && a.i == i && HasPermit(s.sessions[i].pc)
    requires forall f :: f in s.sessions[i].futures ==> f < |s.jobs|
    ensures var t := SlotStep(c, s, a).value;
            |t.sessions| == |s.sessions| && (!HasPermit(t.sessions[i].pc) <==> PartsNow(s, a, t, i))
  {
    match a {
      case CancelAwait(_) =>
        CancelAwaitFrame(c, s, i);
        DrainsUnlessDone(s.(jobs := SlotStep(c, s, a).value.jobs), i);
        hide SlotStep, PendingFutures;
      case CancelDrain(_) => CancelDrainFrame(c, s, i); hide SlotStep;
      case Drained(_) => hide Exit; ExitFrame(c, s, i);
      case Leave(_) =>
        hide BeginDrain, PendingFutures;
        BeginDrainFrame(c, s, i);
        DrainsUnlessDone(s, i);
      case _ =>
    }
  }

  lemma DrainsUnlessDone(s: State, i: nat)
    requires i < |s.sessions|
    ensures PendingFutures(s, i) == {} <==>
            forall f :: f in s.sessions[i].futures && f < |s.jobs| ==> !Unfinished(s.jobs[f])
  {
    if f :| f in s.sessions[i].futures && f < |s.jobs| && Unfinished(s.jobs[f]) {
      assert f in PendingFutures(s, i);
    }
  }

  lemma StepIsGateOrSlot(c: Config, s: State, a: Action)
    requires Actor(a).Some?
    ensures Step(c, s, a) == if GateStep(c, s, a).Some? then GateStep(c, s, a) else SlotStep(c, s, a)
  {
    hide GateStep, SlotStep;
  }

  /** At every step a holder stops being one exactly if it leaves its slot or
      gives up after a cancellation of its own; and only a session that asks while
      a permit is free, or has been waiting, becomes one. */
  lemma HoldersExact(c: Config, s: State, a: Action, i: nat)
    requires Inv(c, s) && Step(c, s, a).Some? && i < |s.sessions|
    ensures var t := Step(c, s, a).value;
            && |t.sessions| == |s.sessions|
            && (HasPermit(s.sessions[i].pc) ==> (!HasPermit(t.sessions[i].pc) <==> PartsNow(s, a, t, i)))
            && (!HasPermit(s.sessions[i].pc) && HasPermit(t.sessions[i].pc) ==>
                  s.sessions[i].pc == Waiting || (a == Acquire(i) && |Holders(s)| < c.permits))
  {
    hide Holders, Inv;
    FuturesExist(c, s, i);
    if Actor(a).Some? { StepIsGateOrSlot(c, s, a); }
    hide Step, GateStep, SlotStep;
    if Actor(a) != Some(i) {
      OthersKeepPermit(c, s, a, i);
      StepOthersStay(c, s, a, i);
    } else if HasPermit(s.sessions[i].pc) {
      if GateStep(c, s, a).Some? { GateKeepsPermit(c, s, a, i); } else { SlotKeepsPermit(c, s, a, i); }
    } else {
      JoinsByAsking(c, s, a, i);
    }
  }

  lemma FuturesExist(c: Config, s: State, i: nat)
    requires Inv(c, s) && i < |s.sessions|
    ensures forall f :: f in s.sessions[i].futures ==> f < |s.jobs|
    ensures s.running == |Holders(s)|
  {
    assert SessionInv(s.jobs, s.sessions[i], i);
  }

  lemma JoinsByAsking(c: Config, s: State, a: Action, i: nat)
    requires Step(c, s, a).Some? && i < |s.sessions| && Actor(a) == Some(i) && !HasPermit(s.sessions[i].pc)
    ensures var t := Step(c, s, a).value;
            && |t.sessions| == |s.sessions|
            && (HasPermit(t.sessions[i].pc) ==> a == Acquire(i) && s.running < c.permits)
  {
    hide WakeNext, QueueFull, Remove, Exit, BeginDrain;
  }

  /** Session `i` leaves its slot, or is cancelled. */
  predicate Parts(a: Action, i: nat) {
    a == CancelWait(i) || a == CancelLock(i) || a == CancelAwait(i) || a == CancelDrain(i)
    || a == Leave(i) || a == Drained(i)
  }

  predicate Secure(pc: Pc) { HasPermit(pc) && pc != Granted(true) }

  lemma DiesByCancel(c: Config, s: State, a: Action, i: nat)
    requires Step(c, s, a).Some? && i < |s.sessions| && Actor(a) == Some(i) && s.sessions[i].pc != Granted(true)
    requires i < |Step(c, s, a).value.sessions|
    ensures Step(c, s, a).value.sessions[i].pc == Granted(true) ==> a == CancelWait(i)
  {
    if a.CancelAwait? && SlotStep(c, s, a).Some? { CancelAwaitFrame(c, s, i); }
    if a.CancelDrain? && SlotStep(c, s, a).Some? { CancelDrainFrame(c, s, i); }
    WakePassesOver(SetPc(s, i, Out), i);
    ExitFrame(c, s, i);
    BeginDrainFrame(c, s, i);
    hide WakeNext, QueueFull, Remove, Exit, BeginDrain, PendingFutures;
  }

  lemma StaysSecure(c: Config, s: State, a: Action, i: nat)
    requires Inv(c, s) && Step(c, s, a).Some? && i < |s.sessions| && Secure(s.sessions[i].pc) && !Parts(a, i)
    ensures i < |Step(c, s, a).value.sessions| && Secure(Step(c, s, a).value.sessions[i].pc)
  {
    hide Inv, Step, HasPermit;
    HoldersExact(c, s, a, i);
    if Actor(a) == Some(i) { DiesByCancel(c, s, a, i); } else { OthersKeepPermit(c, s, a, i); }
  }

  lemma {:induction false} RunStaysSecure(c: Config, s: State, acts: seq<Action>, t: State, i: nat)
    requires Inv(c, s) && Exec(c, s, acts) == Some(t)
    requires i < |s.sessions| && Secure(s.sessions[i].pc) && forall a :: a in acts ==> !Parts(a, i)
    ensures i < |t.sessions| && Secure(t.sessions[i].pc)
    decreases acts
  {
    hide Inv, Step, Secure;
    if acts != [] {
      StepKeepsInv(c, s, acts[0]);
      StaysSecure(c, s, acts[0], i);
      RunStaysSecure(c, Step(c, s, acts[0]).value, acts[1..], t, i);
    }
  }

  /** Over every run: a session that has been handed a permit, and was not
      cancelled since, holds it until it leaves its slot or is cancelled. */
  lemma KeepsItsPermit(c: Config, sessionCount: nat, before: seq<Action>, s: State, acts: seq<Action>, t: State, i: nat)
    requires Exec(c, Init(sessionCount), before) == Some(s) && Exec(c, s, acts) == Some(t)
    requires i in Holders(s) && s.sessions[i].pc != Granted(true)
    requires forall a :: a in acts ==> !Parts(a, i)
    ensures i in Holders(t)
  {
    InitInv(c, sessionCount);
    ExecKeepsInv(c, Init(sessionCount), before);
    hide Inv, Exec;
    RunStaysSecure(c, s, acts, t, i);
  }

  /** A waiter that was handed a permit and not cancelled goes on to the lock with it. */
  lemma GrantedGoesOn(c: Config, s: State, i: nat)
    requires i < |s.sessions| && s.sessions[i].pc == Granted(false)
    ensures Step(c, s, Resume(i)).Some?
    ensures var t := Step(c, s, Resume(i)).value;
            i < |t.sessions| && t.sessions[i].pc == LockWait && Holders(t) == Holders(s) && t.running == s.running
  {
    SetPcHolders(s, i, LockWait);
    assert i in Holders(s);
  }

  /** Asking for a slot is refused exactly if all permits are held and the queue
      is at its bound; it is granted at once exactly if a permit is free;
      otherwise the session goes to the end of the queue. */
  lemma AcquireExact(c: Config, s: State, i: nat)
    requires Inv(c, s) && i < |s.sessions| && s.sessions[i].pc == Out
    ensures Step(c, s, Acquire(i)).Some?
    ensures var t := Step(c, s, Acquire(i)).value;
            && i < |t.sessions|
            && (t.sessions[i].pc == Out <==>
                  |Holders(s)| == c.permits && c.maxWaiting.Some? && |s.waiters| == c.maxWaiting.value)
            && (t.sessions[i].pc == LockWait <==> |Holders(s)| < c.permits)
            && (t.sessions[i].pc == Out || t.sessions[i].pc == LockWait ==> t.waiters == s.waiters)
            && (t.sessions[i].pc != Out && t.sessions[i].pc != LockWait ==>
                  t.sessions[i].pc == Waiting && t.waiters == s.waiters + [i])
  {
    FuturesExist(c, s, i);
    assert s.running <= c.permits && (c.maxWaiting.Some? ==> |s.waiters| <= c.maxWaiting.value);
    hide Inv, Holders;
  }

  // ---------------------------------------------------------------- everyone is served

  /** Steps that nobody has to be cancelled for, and that start nothing new. */
  predicate Calm(a: Action) {
    a.Resume? || a.TakeLock? || a.Complete? || a.Leave? || a.Drained? || a.JobStart? || a.JobReturn?
    || a.OtherUnlocks?
  }

  predicate AllCalm(acts: seq<Action>) { forall a :: a in acts ==> Calm(a) }

  /** Nobody is in line or in a slot. */
  predicate Idle(s: State) {
    forall i :: 0 <= i < |s.sessions| ==> s.sessions[i].pc == Out
  }

  ghost predicate CanMove(c: Config, s: State) {
    exists a :: Calm(a) && Step(c, s, a).Some?
  }

  /** A job that is awaited has not been withdrawn. */
  predicate AwaitInv(s: State) {
    forall i :: 0 <= i < |s.sessions| && s.sessions[i].pc.Awaiting? ==> GoodAwait(s, s.sessions[i].pc.job)
  }

  predicate GoodAwait(s: State, n: nat) { n < |s.jobs| && s.jobs[n].status != Withdrawn }

  lemma OnlyOwnerWithdraws(c: Config, s: State, a: Action, n: nat)
    requires SlotInv(c, s) && Step(c, s, a).Some? && GoodAwait(s, n) && a != CancelAwait(s.jobs[n].owner)
    ensures GoodAwait(Step(c, s, a).value, n)
  {
    StepMovesJob(c, s, a, n);
    hide Step, SlotInv;
  }

  /** A session comes to await a job only by starting it. */
  lemma AwaitsBySubmitting(c: Config, s: State, a: Action, i: nat)
    requires Step(c, s, a).Some? && i < |s.sessions| && Actor(a) == Some(i) && i < |Step(c, s, a).value.sessions|
    requires Step(c, s, a).value.sessions[i].pc.Awaiting?
    ensures a == Submit(i) && GoodAwait(Step(c, s, a).value, Step(c, s, a).value.sessions[i].pc.job)
  {
    if a.CancelAwait? && SlotStep(c, s, a).Some? { CancelAwaitFrame(c, s, i); }
    if a.CancelDrain? && SlotStep(c, s, a).Some? { CancelDrainFrame(c, s, i); }
    WakePassesOver(SetPc(s, i, Out), i);
    ExitFrame(c, s, i);
    BeginDrainFrame(c, s, i);
    hide WakeNext, QueueFull, Remove, Exit, BeginDrain, PendingFutures;
  }

  lemma StepKeepsAwait(c: Config, s: State, a: Action, i: nat)
    requires Inv(c, s) && AwaitInv(s) && Step(c, s, a).Some? && i < |s.sessions|
    requires i < |Step(c, s, a).value.sessions| && Step(c, s, a).value.sessions[i].pc.Awaiting?
    ensures GoodAwait(Step(c, s, a).value, Step(c, s, a).value.sessions[i].pc.job)
  {
    assert SlotInv(c, s);
    hide Inv, SlotInv, Step;
    if Actor(a) == Some(i) {
      AwaitsBySubmitting(c, s, a, i);
    } else {
      StepOthersStay(c, s, a, i);
      var n := s.sessions[i].pc.job;
      AwaitedIsOwned(c, s, i, n);
      OnlyOwnerWithdraws(c, s, a, n);
    }
  }

  lemma StepKeepsCount(c: Config, s: State, a: Action)
    requires Step(c, s, a).Some?
    ensures |Step(c, s, a).value.sessions| == |s.sessions|
  {
    hide GateStep, SlotStep;
    if Actor(a).Some? {
      if GateStep(c, s, a).Some? { GateOthersStay(c, s, a); } else { SlotOthersStay(c, s, a); }
    }
  }

  lemma {:induction false} RunKeepsAwait(c: Config, s: State, acts: seq<Action>)
    requires Inv(c, s) && AwaitInv(s) && Exec(c, s, acts).Some?
    ensures Inv(c, Exec(c, s, acts).value) && AwaitInv(Exec(c, s, acts).value)
    ensures |Exec(c, s, acts).value.sessions| == |s.sessions|
    decreases acts
  {
    hide Inv, Step, GoodAwait;
    if acts != [] {
      var t := Step(c, s, acts[0]).value;
      StepKeepsInv(c, s, acts[0]);
      StepKeepsCount(c, s, acts[0]);
      forall i | 0 <= i < |t.sessions| && t.sessions[i].pc.Awaiting? ensures GoodAwait(t, t.sessions[i].pc.job) {
        StepKeepsAwait(c, s, acts[0], i);
      }
      RunKeepsAwait(c, t, acts[1..]);
    }
  }

  lemma InitAwait(c: Config, sessionCount: nat, acts: seq<Action>, s: State)
    requires Exec(c, Init(sessionCount), acts) == Some(s)
    ensures Inv(c, s) && AwaitInv(s) && |s.sessions| == sessionCount
  {
    InitInv(c, sessionCount);
    hide Inv, Exec;
    RunKeepsAwait(c, Init(sessionCount), acts);
  }

  /** An unfinished job can go on. */
  lemma JobMovesOn(c: Config, s: State, n: nat)
    requires n < |s.jobs| && Unfinished(s.jobs[n])
    ensures CanMove(c, s)
  {
    if s.jobs[n].status == Queued {
      assert Step(c, s, JobStart(n)).Some? && Calm(JobStart(n));
    } else {
      assert Step(c, s, JobReturn(n)).Some? && Calm(JobReturn(n));
    }
  }

  lemma SlotMovesOn(c: Config, s: State, i: nat)
    requires AwaitInv(s) && i < |s.sessions| && InSlot(s.sessions[i].pc)
    ensures CanMove(c, s)
  {
    match s.sessions[i].pc {
      case Body =>
        assert Step(c, s, Leave(i)).Some? && Calm(Leave(i));
      case Awaiting(n) =>
        assert GoodAwait(s, n);
        if Unfinished(s.jobs[n]) {
          JobMovesOn(c, s, n);
        } else {
          assert Step(c, s, Complete(i)).Some? && Calm(Complete(i));
        }
      case Draining(pending) =>
        if f :| f in pending && f < |s.jobs| && Unfinished(s.jobs[f]) {
          JobMovesOn(c, s, f);
        } else {
          assert Step(c, s, Drained(i)).Some? && Calm(Drained(i));
        }
    }
  }

  lemma HolderMovesOn(c: Config, s: State, i: nat)
    requires Inv(c, s) && AwaitInv(s) && i < |s.sessions| && HasPermit(s.sessions[i].pc)
    ensures CanMove(c, s)
  {
    hide AwaitInv, GateInv;
    if InSlot(s.sessions[i].pc) {
      SlotMovesOn(c, s, i);
    } else if s.sessions[i].pc.Granted? {
      assert Step(c, s, Resume(i)).Some? && Calm(Resume(i));
    } else if c.locked && s.lock.HeldBy? {
      SlotMovesOn(c, s, s.lock.session);
    } else if c.locked && s.lock == HeldElsewhere {
      assert Step(c, s, OtherUnlocks).Some? && Calm(OtherUnlocks);
    } else {
      assert Step(c, s, TakeLock(i)).Some? && Calm(TakeLock(i));
    }
  }

  /** Gate and lock never deadlock: unless nobody is in line or in a slot,
      something can go on with nobody cancelled. */
  lemma NeverStuck(c: Config, sessionCount: nat, acts: seq<Action>, s: State)
    requires 1 <= c.permits && Exec(c, Init(sessionCount), acts) == Some(s) && !Idle(s)
    ensures CanMove(c, s)
  {
    InitAwait(c, sessionCount, acts, s);
    hide Exec, AwaitInv, CanMove;
    var i :| 0 <= i < |s.sessions| && s.sessions[i].pc != Out;
    if s.sessions[i].pc == Waiting {
      SomeoneHolds(c, s, i);
      var k :| k in Holders(s);
      hide Inv;
      HolderMovesOn(c, s, k);
    } else if s.sessions[i].pc == Revoked {
      RevokedMovesOn(c, s, i);
    } else {
      hide Inv;
      HolderMovesOn(c, s, i);
    }
  }

  lemma SomeoneHolds(c: Config, s: State, i: nat)
    requires GateInv(c, s) && 1 <= c.permits && i < |s.sessions| && s.sessions[i].pc == Waiting
    ensures Holders(s) != {}
  {}

  lemma RevokedMovesOn(c: Config, s: State, i: nat)
    requires i < |s.sessions| && s.sessions[i].pc == Revoked
    ensures CanMove(c, s)
  {
    assert Step(c, s, Resume(i)).Some? && Calm(Resume(i));
  }

  function Rank(pc: Pc): nat {
    match pc
    case Out => 0
    case Revoked => 1
    case Draining(_) => 1
    case Body => 2
    case Awaiting(_) => 3
    case LockWait => 4
    case Granted(_) => 5
    case Waiting => 6
  }

  function SessionWork(sessions: seq<Session>): nat {
    if sessions == [] then 0 else Rank(sessions[0].pc) + SessionWork(sessions[1..])
  }

  function JobWork(jobs: seq<Job>): nat {
    if jobs == [] then 0
    else (match jobs[0].status
          case Queued => 2
          case Running => 1
          case _ => 0) + JobWork(jobs[1..])
  }

  /** What is left to do before nobody is in line or in a slot. */
  function Work(s: State): nat {
    SessionWork(s.sessions) + JobWork(s.jobs) + if s.lock == HeldElsewhere then 1 else 0
  }

  lemma {:induction false} SessionsDown(xs: seq<Session>, ys: seq<Session>)
    requires |xs| == |ys| && forall k :: 0 <= k < |xs| ==> Rank(ys[k].pc) <= Rank(xs[k].pc)
    ensures SessionWork(ys) <= SessionWork(xs)
    ensures (exists k :: 0 <= k < |xs| && Rank(ys[k].pc) < Rank(xs[k].pc)) ==> SessionWork(ys) < SessionWork(xs)
  {
    if xs != [] {
      SessionsDown(xs[1..], ys[1..]);
      if k :| 0 <= k < |xs| && Rank(ys[k].pc) < Rank(xs[k].pc) {
        if k > 0 { assert Rank(ys[1..][k - 1].pc) < Rank(xs[1..][k - 1].pc); }
      }
    }
  }

  lemma {:induction false} JobDown(jobs: seq<Job>, n: nat, j: Job)
    requires n < |jobs|
    requires (jobs[n].status == Queued && j.status == Running) || (jobs[n].status == Running && j.status == Returned)
    ensures JobWork(jobs[n := j]) < JobWork(jobs)
  {
    if n > 0 {
      assert jobs[n := j][1..] == jobs[1..][n - 1 := j];
      JobDown(jobs[1..], n - 1, j);
    } else {
      assert jobs[n := j][1..] == jobs[1..];
    }
  }

  /** What a calm step of a session does to its own place. */
  lemma OwnRankFalls(c: Config, s: State, a: Action, i: nat)
    requires Step(c, s, a).Some? && Calm(a) && Actor(a) == Some(i)
    ensures var t := Step(c, s, a).value;
            && i < |s.sessions| && OthersStay(s, t, i) && Rank(t.sessions[i].pc) < Rank(s.sessions[i].pc)
            && t.jobs == s.jobs && (t.lock == HeldElsewhere ==> s.lock == HeldElsewhere)
  {
    if i < |s.sessions| {
      match a {
        case Resume(_) => WakePassesOver(SetPc(s, i, Out), i);
        case Drained(_) => ExitFrame(c, s, i);
        case Leave(_) => BeginDrainFrame(c, s, i);
        case _ =>
      }
    }
    hide WakeNext, QueueFull, Remove, Exit, BeginDrain, PendingFutures;
  }

  /** Every calm step leaves less to do, so that no sequence of them goes on for ever. */
  lemma CalmDecreases(c: Config, s: State, a: Action)
    requires Step(c, s, a).Some? && Calm(a)
    ensures Work(Step(c, s, a).value) < Work(s)
  {
    var t := Step(c, s, a).value;
    if Actor(a).Some? {
      OwnRankFalls(c, s, a, a.i);
      hide Step;
      assert forall k :: 0 <= k < |s.sessions| ==> Rank(t.sessions[k].pc) <= Rank(s.sessions[k].pc);
      SessionsDown(s.sessions, t.sessions);
    } else if a.OtherUnlocks? {
    } else {
      JobDown(s.jobs, a.n, t.jobs[a.n]);
    }
  }

  /** In line, and not cancelled. */
  predicate InLine(pc: Pc) { pc == Waiting || pc == Granted(false) || pc == LockWait }

  lemma StaysInLine(c: Config, s: State, a: Action, i: nat)
    requires Step(c, s, a).Some? && Calm(a) && a != TakeLock(i)
    requires i < |s.sessions| && InLine(s.sessions[i].pc)
    ensures i < |Step(c, s, a).value.sessions| && InLine(Step(c, s, a).value.sessions[i].pc)
  {
    if Actor(a) != Some(i) {
      StepOthersStay(c, s, a, i);
      hide Step;
    } else {
      hide WakeNext, Remove, Exit, BeginDrain, PendingFutures;
    }
  }

  lemma {:induction false} StillInLine(c: Config, s: State, acts: seq<Action>, t: State, i: nat)
    requires Exec(c, s, acts) == Some(t) && AllCalm(acts) && TakeLock(i) !in acts
    requires i < |s.sessions| && InLine(s.sessions[i].pc)
    ensures i < |t.sessions| && InLine(t.sessions[i].pc)
    decreases acts
  {
    hide Step;
    if acts != [] {
      StaysInLine(c, s, acts[0], i);
      StillInLine(c, Step(c, s, acts[0]).value, acts[1..], t, i);
    }
  }

  lemma {:induction false} CalmRunIsShort(c: Config, s: State, acts: seq<Action>)
    requires AllCalm(acts) && Exec(c, s, acts).Some?
    ensures |acts| + Work(Exec(c, s, acts).value) <= Work(s)
    decreases acts
  {
    hide Step, Work;
    if acts != [] {
      CalmDecreases(c, s, acts[0]);
      CalmRunIsShort(c, Step(c, s, acts[0]).value, acts[1..]);
    }
  }

  /** Nobody in line is forgotten.  From any reachable state, let slots finish,
      threads return and nobody be cancelled: that cannot go on for ever, it stops
      only when nobody is in line or in a slot, and by then every session that
      had been waiting has entered its slot. */
  lemma EveryoneIsServed(c: Config, sessionCount: nat, before: seq<Action>, s: State, acts: seq<Action>, t: State)
    requires 1 <= c.permits && Exec(c, Init(sessionCount), before) == Some(s)
    requires AllCalm(acts) && Exec(c, s, acts) == Some(t)
    ensures |acts| <= Work(s)
    ensures CanMove(c, t) || Idle(t)
    ensures !CanMove(c, t) ==> forall i :: 0 <= i < |s.sessions| && InLine(s.sessions[i].pc) ==> TakeLock(i) in acts
  {
    hide Exec, Work, CanMove, Idle, InLine;
    CalmRunIsShort(c, s, acts);
    ExecAppend(c, Init(sessionCount), before, acts);
    if !Idle(t) { NeverStuck(c, sessionCount, before + acts, t); }
    if !CanMove(c, t) {
      forall i | 0 <= i < |s.sessions| && InLine(s.sessions[i].pc) ensures TakeLock(i) in acts {
        if TakeLock(i) !in acts {
          StillInLine(c, s, acts, t, i);
          NotIdle(t, i);
        }
      }
    }
  }

  lemma NotIdle(t: State, i: nat)
    requires i < |t.sessions| && InLine(t.sessions[i].pc)
    ensures !Idle(t)
  {}
}
