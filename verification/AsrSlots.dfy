/** ASR utterance slots: the bounded FIFO gate, the coordinator lock and the
    executor jobs that a slot has to outlive.

    Any number of sessions finalize utterances.  Each takes a permit of the gate,
    then the coordinator lock, then runs jobs on executor threads that cannot be
    stopped once they have begun.  A task may be cancelled at every `await`.
    Steps are the stretches of code between two awaits; a job's start and its
    return are steps of the executor. */
module AsrSlots {
  import opened Wrappers

  /** `permits`: the gate's concurrency; `maxWaiting`: its queue bound, if any;
      `locked`: whether the coordinator's mode has a lock. */
  datatype Config = Config(permits: nat, maxWaiting: Option<nat>, locked: bool)

  /** Where a session's handler is with respect to the slot. */
  datatype Pc =
    | Out
    | Waiting              // queued at the gate, future pending
    | Revoked              // cancelled while queued, not resumed yet
    | Granted(dead: bool)  // handed a permit, not resumed yet; `dead` if cancelled since
    | LockWait             // holds a permit, wants the coordinator lock
    | Body                 // holds both, between two jobs
    | Awaiting(job: nat)   // holds both, awaits a job's future
    | Draining(pending: set<nat>)  // holds both, waits for the futures it started

  datatype Session = Session(pc: Pc, futures: seq<nat>)

  datatype JobStatus = Queued | Running | Returned | Withdrawn

  /** `orphan`: its slot was given up by a second cancellation. */
  datatype Job = Job(owner: nat, status: JobStatus, orphan: bool)

  datatype Lock = Free | HeldBy(session: nat) | HeldElsewhere

  datatype State = State(
    running: nat, waiters: seq<nat>, lock: Lock, sessions: seq<Session>, jobs: seq<Job>)

  datatype Action =
    | Acquire(i: nat) | CancelWait(i: nat) | Resume(i: nat)
    | TakeLock(i: nat) | CancelLock(i: nat)
    | Submit(i: nat) | Complete(i: nat) | CancelAwait(i: nat) | Leave(i: nat)
    | Drained(i: nat) | CancelDrain(i: nat)
    | JobStart(n: nat) | JobReturn(n: nat)
    | OtherLocks | OtherUnlocks

  function Init(sessionCount: nat): State {
    State(0, [], Free, seq(sessionCount, i => Session(Out, [])), [])
  }

  predicate HasPermit(pc: Pc) {
    match pc
    case Out => false
    case Waiting => false
    case Revoked => false
    case _ => true
  }

  /** Past the coordinator lock: the only place from which jobs are started. */
  predicate InSlot(pc: Pc) { pc.Body? || pc.Awaiting? || pc.Draining? }

  predicate Unfinished(j: Job) { j.status == Queued || j.status == Running }

  function SetPc(s: State, i: nat, pc: Pc): State
    requires i < |s.sessions|
  {
    s.(sessions := s.sessions[i := s.sessions[i].(pc := pc)])
  }

  /** `_wake_next`: hand the permit to the oldest waiter whose future is still
      pending, dropping cancelled ones; with none, the permit goes back. */
  function WakeNext(s: State): (t: State)
    decreases |s.waiters|
  {
    if s.waiters == [] then s.(running := if s.running > 0 then s.running - 1 else 0)
    else
      var first := s.waiters[0];
      var rest := s.(waiters := s.waiters[1..]);
      if first < |s.sessions| && s.sessions[first].pc == Waiting then SetPc(rest, first, Granted(false))
      else WakeNext(rest)
  }

  function Remove(xs: seq<nat>, x: nat): (ys: seq<nat>) {
    if xs == [] then [] else if xs[0] == x then xs[1..] else [xs[0]] + Remove(xs[1..], x)
  }

  /** Leaving the slot: the lock first, then the permit. */
  function Exit(c: Config, s: State, i: nat): State
    requires i < |s.sessions|
  {
    var out := s.(sessions := s.sessions[i := Session(Out, [])],
                  lock := if c.locked then Free else s.lock);
    WakeNext(out)
  }

  function PendingFutures(s: State, i: nat): set<nat>
    requires i < |s.sessions|
  {
    set f | f in s.sessions[i].futures && f < |s.jobs| && Unfinished(s.jobs[f])
  }

  /** `drain`: wait for whatever is still pending; nothing pending, no wait. */
  function BeginDrain(c: Config, s: State, i: nat): State
    requires i < |s.sessions|
  {
    var pending := PendingFutures(s, i);
    if pending == {} then Exit(c, s, i) else SetPc(s, i, Draining(pending))
  }

  predicate QueueFull(c: Config, s: State) {
    c.maxWaiting.Some? && |s.waiters| >= c.maxWaiting.value
  }

  function GateStep(c: Config, s: State, a: Action): Option<State> {
    match a
    case Acquire(i) =>
      if i >= |s.sessions| || s.sessions[i].pc != Out then None
      else if s.running < c.permits then Some(SetPc(s, i, LockWait).(running := s.running + 1))
      else if QueueFull(c, s) then Some(s)  // InferenceQueueFull
      else Some(SetPc(s, i, Waiting).(waiters := s.waiters + [i]))
    case CancelWait(i) =>
      if i >= |s.sessions| then None
      else if s.sessions[i].pc == Waiting then Some(SetPc(s, i, Revoked))
      else if s.sessions[i].pc == Granted(false) then Some(SetPc(s, i, Granted(true)))
      else None
    case Resume(i) =>
      if i >= |s.sessions| then None
      else (match s.sessions[i].pc
            case Revoked => Some(SetPc(s, i, Out).(waiters := Remove(s.waiters, i)))
            case Granted(dead) => Some(if dead then WakeNext(SetPc(s, i, Out)) else SetPc(s, i, LockWait))
            case _ => None)
    case CancelLock(i) =>
      if i >= |s.sessions| || s.sessions[i].pc != LockWait then None
      else Some(WakeNext(SetPc(s, i, Out)))
    case _ => None
  }

  function SlotStep(c: Config, s: State, a: Action): Option<State> {
    match a
    case TakeLock(i) =>
      if i >= |s.sessions| || s.sessions[i].pc != LockWait || (c.locked && s.lock != Free) then None
      else Some(SetPc(s, i, Body).(lock := if c.locked then HeldBy(i) else s.lock))
    case Submit(i) =>
      if i >= |s.sessions| || s.sessions[i].pc != Body then None
      else
        var n := |s.jobs|;
        Some(s.(jobs := s.jobs + [Job(i, Queued, false)],
                sessions := s.sessions[i := Session(Awaiting(n), s.sessions[i].futures + [n])]))
    case Complete(i) =>
      if i >= |s.sessions| || !s.sessions[i].pc.Awaiting? || s.sessions[i].pc.job >= |s.jobs| then None
      else if s.jobs[s.sessions[i].pc.job].status != Returned then None
      else Some(SetPc(s, i, Body))
    case CancelAwait(i) =>
      if i >= |s.sessions| || !s.sessions[i].pc.Awaiting? || s.sessions[i].pc.job >= |s.jobs| then None
      else
        // cancelling the wrapper withdraws a job no thread has taken; a running
        // one goes on
        var n := s.sessions[i].pc.job;
        var cancelled := if s.jobs[n].status == Queued
                         then s.(jobs := s.jobs[n := s.jobs[n].(status := Withdrawn)]) else s;
        Some(BeginDrain(c, cancelled, i))
    case Leave(i) =>
      if i >= |s.sessions| || s.sessions[i].pc != Body then None else Some(BeginDrain(c, s, i))
    case Drained(i) =>
      if i >= |s.sessions| || !s.sessions[i].pc.Draining? then None
      else if exists f :: f in s.sessions[i].pc.pending && f < |s.jobs| && Unfinished(s.jobs[f]) then None
      else Some(Exit(c, s, i))
    case CancelDrain(i) =>
      if i >= |s.sessions| || !s.sessions[i].pc.Draining? then None
      else
        var pending := s.sessions[i].pc.pending;
        var orphaned := seq(|s.jobs|, n requires 0 <= n < |s.jobs| =>
          if n in pending && Unfinished(s.jobs[n]) then s.jobs[n].(orphan := true) else s.jobs[n]);
        Some(Exit(c, s.(jobs := orphaned), i))
    case _ => None
  }

  function Step(c: Config, s: State, a: Action): Option<State> {
    match a
    case JobStart(n) =>
      if n >= |s.jobs| || s.jobs[n].status != Queued then None
      else Some(s.(jobs := s.jobs[n := s.jobs[n].(status := Running)]))
    case JobReturn(n) =>
      if n >= |s.jobs| || s.jobs[n].status != Running then None
      else Some(s.(jobs := s.jobs[n := s.jobs[n].(status := Returned)]))
    case OtherLocks =>
      if !c.locked || s.lock != Free then None else Some(s.(lock := HeldElsewhere))
    case OtherUnlocks =>
      if s.lock != HeldElsewhere then None else Some(s.(lock := Free))
    case _ =>
      var gate := GateStep(c, s, a);
      if gate.Some? then gate else SlotStep(c, s, a)
  }

  function Exec(c: Config, s: State, acts: seq<Action>): Option<State>
    decreases acts
  {
    if acts == [] then Some(s)
    else
      var t := Step(c, s, acts[0]);
      if t.None? then None else Exec(c, t.value, acts[1..])
  }

  // ---------------------------------------------------------------- the gate

  function Holders(s: State): set<nat> {
    set i | 0 <= i < |s.sessions| && HasPermit(s.sessions[i].pc)
  }

  predicate Queueing(pc: Pc) { pc == Waiting || pc == Revoked }

  ghost predicate QueueInv(c: Config, s: State) {
    && (forall k :: 0 <= k < |s.waiters| ==>
          s.waiters[k] < |s.sessions| && Queueing(s.sessions[s.waiters[k]].pc))
    && (forall k, m :: 0 <= k < m < |s.waiters| ==> s.waiters[k] != s.waiters[m])
    && (forall i :: 0 <= i < |s.sessions| && s.sessions[i].pc == Waiting ==> i in s.waiters)
    && (s.running < c.permits ==> forall i :: 0 <= i < |s.sessions| ==> s.sessions[i].pc != Waiting)
    && (c.maxWaiting.Some? ==> |s.waiters| <= c.maxWaiting.value)
    && s.running <= c.permits
  }

  /** Every permit is with exactly one session, whether it runs or has only been
      handed it; nobody waits while a permit is free. */
  ghost predicate GateInv(c: Config, s: State) {
    QueueInv(c, s) && s.running == |Holders(s)|
  }

  /** `t` is `s` after `_wake_next`: at most one session moves, from waiting to
      granted, and it is the longest-waiting one. */
  ghost predicate Woken(s: State, t: State) {
    && t.lock == s.lock && t.jobs == s.jobs && |t.sessions| == |s.sessions|
    && (exists k :: 0 <= k <= |s.waiters| && t.waiters == s.waiters[k..])
    && (forall i :: 0 <= i < |s.sessions| ==>
          t.sessions[i] == s.sessions[i]
          || (s.sessions[i].pc == Waiting && t.sessions[i] == s.sessions[i].(pc := Granted(false))))
  }

  lemma SetPcHolders(s: State, i: nat, pc: Pc)
    requires i < |s.sessions|
    ensures Holders(SetPc(s, i, pc)) == if HasPermit(pc) then Holders(s) + {i} else Holders(s) - {i}
  {}

  lemma DropFirst(c: Config, s: State)
    requires QueueInv(c, s) && s.waiters != []
    requires s.sessions[s.waiters[0]].pc != Waiting
    ensures QueueInv(c, s.(waiters := s.waiters[1..]))
  {
    var rest := s.(waiters := s.waiters[1..]);
    assert forall i :: i in s.waiters && i != s.waiters[0] ==> i in rest.waiters;
  }

  lemma HandOver(c: Config, s: State)
    requires QueueInv(c, s) && s.waiters != [] && s.running == |Holders(s)| + 1
    requires s.sessions[s.waiters[0]].pc == Waiting
    ensures GateInv(c, WakeNext(s))
    ensures WakeNext(s) == SetPc(s.(waiters := s.waiters[1..]), s.waiters[0], Granted(false))
  {
    var first := s.waiters[0];
    var rest := s.(waiters := s.waiters[1..]);
    var t := SetPc(rest, first, Granted(false));
    assert WakeNext(s) == t;
    SetPcHolders(rest, first, Granted(false));
    assert Holders(rest) == Holders(s);
    assert first !in Holders(s);
    hide Holders, WakeNext;
    ServeFirst(c, s);
    hide QueueInv;
  }

  lemma ServeFirst(c: Config, s: State)
    requires QueueInv(c, s) && s.waiters != [] && s.sessions[s.waiters[0]].pc == Waiting
    ensures QueueInv(c, SetPc(s.(waiters := s.waiters[1..]), s.waiters[0], Granted(false)))
  {
    var rest := s.waiters[1..];
    forall i | i in s.waiters && i != s.waiters[0] ensures i in rest {
      var k :| 0 <= k < |s.waiters| && s.waiters[k] == i;
      assert rest[k - 1] == i;
    }
  }

  /** A permit given up goes to the longest waiter, or back to the gate. */
  lemma {:induction false} WakeNextKeeps(c: Config, s: State)
    requires QueueInv(c, s) && s.running == |Holders(s)| + 1
    ensures GateInv(c, WakeNext(s)) && Woken(s, WakeNext(s))
    decreases |s.waiters|
  {
    if s.waiters == [] {
      assert Holders(WakeNext(s)) == Holders(s);
      assert WakeNext(s).waiters == s.waiters[0..];
    } else if s.sessions[s.waiters[0]].pc == Waiting {
      HandOver(c, s);
      hide QueueInv;
      assert WakeNext(s).waiters == s.waiters[1..];
    } else {
      DropFirst(c, s);
      var rest := s.(waiters := s.waiters[1..]);
      assert Holders(rest) == Holders(s);
      assert WakeNext(s) == WakeNext(rest);
      hide QueueInv, WakeNext, Holders, Woken;
      WakeNextKeeps(c, rest);
      WokenLater(s, WakeNext(rest));
    }
  }

  lemma WokenLater(s: State, t: State)
    requires s.waiters != [] && Woken(s.(waiters := s.waiters[1..]), t)
    ensures Woken(s, t)
  {
    var rest := s.waiters[1..];
    var k :| 0 <= k <= |rest| && t.waiters == rest[k..];
    assert rest[k..] == s.waiters[k + 1..];
  }

  lemma {:induction false} RemoveKeeps(xs: seq<nat>, x: nat)
    requires forall k, m :: 0 <= k < m < |xs| ==> xs[k] != xs[m]
    ensures |Remove(xs, x)| <= |xs|
    ensures forall y :: y in Remove(xs, x) <==> y in xs && y != x
    ensures var ys := Remove(xs, x); forall k, m :: 0 <= k < m < |ys| ==> ys[k] != ys[m]
  {
    if xs != [] {
      if xs[0] == x {
        assert forall y :: y in xs <==> y == x || y in xs[1..];
      } else {
        RemoveKeeps(xs[1..], x);
        var ys := Remove(xs[1..], x);
        assert forall y :: y in xs <==> y == xs[0] || y in xs[1..];
        assert xs[0] !in ys;
      }
    }
  }

  // ---------------------------------------------------------------- the slot

  /** Session `i` is waiting for job `f` to leave the backend. */
  predicate WaitsFor(pc: Pc, f: nat) {
    pc == Awaiting(f) || (pc.Draining? && f in pc.pending)
  }

  ghost predicate LockInv(c: Config, s: State) {
    && (c.locked ==> forall i :: 0 <= i < |s.sessions| ==> (InSlot(s.sessions[i].pc) <==> s.lock == HeldBy(i)))
    && (s.lock.HeldBy? ==> s.lock.session < |s.sessions|)
  }

  ghost predicate SessionInv(jobs: seq<Job>, session: Session, i: nat) {
    && (!InSlot(session.pc) ==> session.futures == [])
    && (forall f :: f in session.futures ==>
          f < |jobs| && jobs[f].owner == i && (Unfinished(jobs[f]) ==> WaitsFor(session.pc, f)))
    && (forall f :: WaitsFor(session.pc, f) ==> f in session.futures)
    && (forall f, g :: WaitsFor(session.pc, f) && WaitsFor(session.pc, g) ==> f == g)
  }

  /** Every job that may still be inside the backend is awaited by the session
      whose slot it runs in, unless that slot was given up by force. */
  ghost predicate SlotInv(c: Config, s: State) {
    && LockInv(c, s)
    && (forall i :: 0 <= i < |s.sessions| ==> SessionInv(s.jobs, s.sessions[i], i))
    && (forall n :: 0 <= n < |s.jobs| && Unfinished(s.jobs[n]) && !s.jobs[n].orphan ==>
          s.jobs[n].owner < |s.sessions| && n in s.sessions[s.jobs[n].owner].futures)
  }

  ghost predicate Inv(c: Config, s: State) { GateInv(c, s) && SlotInv(c, s) }

  lemma InitInv(c: Config, sessionCount: nat)
    ensures Inv(c, Init(sessionCount))
  {
    assert Holders(Init(sessionCount)) == {};
  }

  // ---------------------------------------------------------------- steps keep it

  lemma WokenKeepsSlots(c: Config, s: State, t: State)
    requires SlotInv(c, s) && Woken(s, t)
    ensures SlotInv(c, t)
  {
    forall i | 0 <= i < |s.sessions| ensures SessionInv(t.jobs, t.sessions[i], i) {
      assert SessionInv(s.jobs, s.sessions[i], i);
    }
  }

  /** Giving the permit up once the session is out of the slot. */
  lemma ReleasePermit(c: Config, s: State, out: State, i: nat)
    requires GateInv(c, s) && i < |s.sessions| && HasPermit(s.sessions[i].pc)
    requires |out.sessions| == |s.sessions| && out.waiters == s.waiters && out.running == s.running
    requires out.sessions[i].pc == Out && forall k :: 0 <= k < |s.sessions| && k != i ==> out.sessions[k] == s.sessions[k]
    requires SlotInv(c, out)
    ensures Inv(c, WakeNext(out)) && Woken(out, WakeNext(out))
  {
    assert Holders(out) == Holders(s) - {i};
    assert i in Holders(s);
    assert QueueInv(c, out) by { hide Holders, SlotInv; }
    hide QueueInv, SlotInv;
    WakeNextKeeps(c, out);
    WokenKeepsSlots(c, out, WakeNext(out));
  }

  lemma ExitKeeps(c: Config, s: State, i: nat)
    requires Inv(c, s) && i < |s.sessions| && InSlot(s.sessions[i].pc)
    requires forall f :: f in s.sessions[i].futures ==> !Unfinished(s.jobs[f]) || s.jobs[f].orphan
    ensures Inv(c, Exit(c, s, i))
  {
    var out := s.(sessions := s.sessions[i := Session(Out, [])], lock := if c.locked then Free else s.lock);
    assert SlotInv(c, out) by {
      hide GateInv;
      forall k | 0 <= k < |s.sessions| ensures SessionInv(out.jobs, out.sessions[k], k) {
        assert SessionInv(s.jobs, s.sessions[k], k);
      }
      assert SessionInv(s.jobs, s.sessions[i], i);
    }
    hide SlotInv;
    ReleasePermit(c, s, out, i);
  }

  /** A session moves between places that do not touch the gate. */
  lemma StayInside(c: Config, s: State, t: State, i: nat)
    requires GateInv(c, s) && i < |s.sessions| && HasPermit(s.sessions[i].pc)
    requires t.running == s.running && t.waiters == s.waiters
    requires |t.sessions| == |s.sessions| && HasPermit(t.sessions[i].pc)
    requires forall k :: 0 <= k < |s.sessions| && k != i ==> t.sessions[k] == s.sessions[k]
    ensures GateInv(c, t)
  {
    assert Holders(t) == Holders(s);
  }

  /** A session that was outside joins the holders or the queue. */
  lemma Joins(c: Config, s: State, t: State, i: nat)
    requires GateInv(c, s) && i < |s.sessions| && s.sessions[i].pc == Out
    requires |t.sessions| == |s.sessions| && forall k :: 0 <= k < |s.sessions| && k != i ==> t.sessions[k] == s.sessions[k]
    requires || (s.running < c.permits && t.sessions[i].pc == LockWait && t.running == s.running + 1 && t.waiters == s.waiters)
             || (s.running == c.permits && !QueueFull(c, s) && t.sessions[i].pc == Waiting
                 && t.running == s.running && t.waiters == s.waiters + [i])
    ensures GateInv(c, t)
  {
    assert Holders(t) == if t.sessions[i].pc == LockWait then Holders(s) + {i} else Holders(s);
    assert i !in Holders(s);
    hide Holders;
    assert forall k :: 0 <= k < |s.waiters| ==> s.waiters[k] != i;
    assert t.sessions[i].pc == Waiting ==> t.waiters[|s.waiters|] == i;
  }

  lemma AcquireKeeps(c: Config, s: State, i: nat)
    requires Inv(c, s) && GateStep(c, s, Acquire(i)).Some?
    ensures Inv(c, GateStep(c, s, Acquire(i)).value)
  {
    var t := GateStep(c, s, Acquire(i)).value;
    if t != s {
      assert SlotInv(c, t) by {
        hide GateInv;
        forall k | 0 <= k < |s.sessions| ensures SessionInv(t.jobs, t.sessions[k], k) {
          assert SessionInv(s.jobs, s.sessions[k], k);
        }
      }
      hide SlotInv;
      Joins(c, s, t, i);
    }
  }

  lemma MovedKeepsSlots(c: Config, s: State, t: State, i: nat)
    requires SlotInv(c, s) && i < |s.sessions| && !InSlot(s.sessions[i].pc)
    requires t.jobs == s.jobs && t.lock == s.lock && |t.sessions| == |s.sessions|
    requires !InSlot(t.sessions[i].pc) && t.sessions[i].futures == s.sessions[i].futures
    requires forall k :: 0 <= k < |s.sessions| && k != i ==> t.sessions[k] == s.sessions[k]
    ensures SlotInv(c, t)
  {
    forall k | 0 <= k < |s.sessions| ensures SessionInv(t.jobs, t.sessions[k], k) {
      assert SessionInv(s.jobs, s.sessions[k], k);
    }
  }

  lemma CancelWaitKeeps(c: Config, s: State, i: nat)
    requires Inv(c, s) && GateStep(c, s, CancelWait(i)).Some?
    ensures Inv(c, GateStep(c, s, CancelWait(i)).value)
  {
    var t := GateStep(c, s, CancelWait(i)).value;
    MovedKeepsSlots(c, s, t, i);
    hide SlotInv;
    if s.sessions[i].pc == Waiting {
      Revoke(c, s, i);
    } else {
      StayInside(c, s, t, i);
    }
    hide GateInv;
  }

  lemma Revoke(c: Config, s: State, i: nat)
    requires GateInv(c, s) && i < |s.sessions| && s.sessions[i].pc == Waiting
    ensures GateInv(c, SetPc(s, i, Revoked))
  {
    var t := SetPc(s, i, Revoked);
    SetPcHolders(s, i, Revoked);
    assert i !in Holders(s);
    hide Holders;
    forall k | 0 <= k < |t.waiters| ensures Queueing(t.sessions[t.waiters[k]].pc) {
      assert Queueing(s.sessions[s.waiters[k]].pc);
    }
  }

  lemma LeaveQueue(c: Config, s: State, i: nat)
    requires GateInv(c, s) && i < |s.sessions| && s.sessions[i].pc == Revoked
    ensures GateInv(c, SetPc(s, i, Out).(waiters := Remove(s.waiters, i)))
  {
    var t := SetPc(s, i, Out).(waiters := Remove(s.waiters, i));
    RemoveKeeps(s.waiters, i);
    assert Holders(t) == Holders(s);
    hide Holders;
    forall k | 0 <= k < |t.waiters|
      ensures t.waiters[k] < |t.sessions| && Queueing(t.sessions[t.waiters[k]].pc)
    {
      assert t.waiters[k] in t.waiters;
      assert t.waiters[k] in s.waiters;
    }
  }

  lemma ResumeKeeps(c: Config, s: State, i: nat)
    requires Inv(c, s) && GateStep(c, s, Resume(i)).Some?
    ensures Inv(c, GateStep(c, s, Resume(i)).value)
  {
    var t := GateStep(c, s, Resume(i)).value;
    var out := SetPc(s, i, Out);
    MovedKeepsSlots(c, s, out, i);
    if s.sessions[i].pc == Revoked {
      MovedKeepsSlots(c, s, t, i);
      hide Inv, GateInv, SlotInv;
      LeaveQueue(c, s, i);
    } else if s.sessions[i].pc.dead {
      hide SlotInv;
      ReleasePermit(c, s, out, i);
    } else {
      MovedKeepsSlots(c, s, t, i);
      hide SlotInv;
      StayInside(c, s, t, i);
    }
  }

  lemma CancelLockKeeps(c: Config, s: State, i: nat)
    requires Inv(c, s) && GateStep(c, s, CancelLock(i)).Some?
    ensures Inv(c, GateStep(c, s, CancelLock(i)).value)
  {
    var out := SetPc(s, i, Out);
    MovedKeepsSlots(c, s, out, i);
    hide SlotInv;
    ReleasePermit(c, s, out, i);
  }

  lemma TakeLockKeeps(c: Config, s: State, i: nat)
    requires Inv(c, s) && SlotStep(c, s, TakeLock(i)).Some?
    ensures Inv(c, SlotStep(c, s, TakeLock(i)).value)
  {
    var t := SlotStep(c, s, TakeLock(i)).value;
    assert SlotInv(c, t) by {
      hide GateInv;
      forall k | 0 <= k < |s.sessions| ensures SessionInv(t.jobs, t.sessions[k], k) {
        assert SessionInv(s.jobs, s.sessions[k], k);
      }
    }
    hide SlotInv;
    StayInside(c, s, t, i);
  }

  lemma SubmitKeeps(c: Config, s: State, i: nat)
    requires Inv(c, s) && SlotStep(c, s, Submit(i)).Some?
    ensures Inv(c, SlotStep(c, s, Submit(i)).value)
  {
    var t := SlotStep(c, s, Submit(i)).value;
    assert SlotInv(c, t) by {
      hide GateInv;
      forall k | 0 <= k < |s.sessions| ensures SessionInv(t.jobs, t.sessions[k], k) {
        assert SessionInv(s.jobs, s.sessions[k], k);
      }
      assert |s.jobs| in t.sessions[i].futures by { assert t.sessions[i].futures[|s.sessions[i].futures|] == |s.jobs|; }
    }
    hide SlotInv;
    StayInside(c, s, t, i);
  }

  /** The job at `n` has left the backend or was withdrawn before entering it. */
  lemma JobUpdateKeeps(c: Config, s: State, n: nat, k: Job)
    requires Inv(c, s) && n < |s.jobs| && k.owner == s.jobs[n].owner && k.orphan == s.jobs[n].orphan
    requires Unfinished(k) ==> Unfinished(s.jobs[n])
    ensures Inv(c, s.(jobs := s.jobs[n := k]))
  {
    var t := s.(jobs := s.jobs[n := k]);
    assert GateInv(c, t) by { hide SlotInv; assert Holders(t) == Holders(s); }
    hide GateInv;
    forall i | 0 <= i < |s.sessions| ensures SessionInv(t.jobs, t.sessions[i], i) {
      assert SessionInv(s.jobs, s.sessions[i], i);
    }
  }

  lemma CompleteKeeps(c: Config, s: State, i: nat)
    requires Inv(c, s) && SlotStep(c, s, Complete(i)).Some?
    ensures Inv(c, SlotStep(c, s, Complete(i)).value)
  {
    var t := SlotStep(c, s, Complete(i)).value;
    assert SlotInv(c, t) by {
      hide GateInv;
      forall k | 0 <= k < |s.sessions| ensures SessionInv(t.jobs, t.sessions[k], k) {
        assert SessionInv(s.jobs, s.sessions[k], k);
      }
    }
    hide SlotInv;
    StayInside(c, s, t, i);
  }

  lemma BeginDrainKeeps(c: Config, s: State, i: nat)
    requires Inv(c, s) && i < |s.sessions| && InSlot(s.sessions[i].pc)
    ensures Inv(c, BeginDrain(c, s, i))
  {
    var pending := PendingFutures(s, i);
    assert SessionInv(s.jobs, s.sessions[i], i);
    if pending == {} {
      assert forall f :: f in s.sessions[i].futures && Unfinished(s.jobs[f]) ==> f in pending;
      ExitKeeps(c, s, i);
    } else {
      var t := SetPc(s, i, Draining(pending));
      assert SlotInv(c, t) by {
        hide GateInv;
        forall k | 0 <= k < |s.sessions| ensures SessionInv(t.jobs, t.sessions[k], k) {
          assert SessionInv(s.jobs, s.sessions[k], k);
        }
      }
      hide SlotInv;
      StayInside(c, s, t, i);
    }
  }

  lemma CancelAwaitKeeps(c: Config, s: State, i: nat)
    requires Inv(c, s) && SlotStep(c, s, CancelAwait(i)).Some?
    ensures Inv(c, SlotStep(c, s, CancelAwait(i)).value)
  {
    var n := s.sessions[i].pc.job;
    if s.jobs[n].status == Queued {
      JobUpdateKeeps(c, s, n, s.jobs[n].(status := Withdrawn));
      hide Inv;
      BeginDrainKeeps(c, s.(jobs := s.jobs[n := s.jobs[n].(status := Withdrawn)]), i);
    } else {
      BeginDrainKeeps(c, s, i);
    }
  }

  lemma DrainedKeeps(c: Config, s: State, i: nat)
    requires Inv(c, s) && SlotStep(c, s, Drained(i)).Some?
    ensures Inv(c, SlotStep(c, s, Drained(i)).value)
  {
    assert SessionInv(s.jobs, s.sessions[i], i);
    ExitKeeps(c, s, i);
  }

  lemma CancelDrainKeeps(c: Config, s: State, i: nat)
    requires Inv(c, s) && SlotStep(c, s, CancelDrain(i)).Some?
    ensures Inv(c, SlotStep(c, s, CancelDrain(i)).value)
  {
    var pending := s.sessions[i].pc.pending;
    var orphaned := seq(|s.jobs|, n requires 0 <= n < |s.jobs| =>
      if n in pending && Unfinished(s.jobs[n]) then s.jobs[n].(orphan := true) else s.jobs[n]);
    var t := s.(jobs := orphaned);
    assert GateInv(c, t) by { hide SlotInv; assert Holders(t) == Holders(s); }
    assert SlotInv(c, t) by {
      hide GateInv;
      forall k | 0 <= k < |s.sessions| ensures SessionInv(t.jobs, t.sessions[k], k) {
        assert SessionInv(s.jobs, s.sessions[k], k);
      }
    }
    assert SessionInv(s.jobs, s.sessions[i], i);
    hide GateInv;
    ExitKeeps(c, t, i);
  }

  lemma LockKeeps(c: Config, s: State, lock: Lock)
    requires Inv(c, s) && !s.lock.HeldBy? && !lock.HeldBy?
    ensures Inv(c, s.(lock := lock))
  {
    var t := s.(lock := lock);
    assert GateInv(c, t) by { hide SlotInv; assert Holders(t) == Holders(s); }
    hide GateInv;
  }

  lemma StepKeepsInv(c: Config, s: State, a: Action)
    requires Inv(c, s) && Step(c, s, a).Some?
    ensures Inv(c, Step(c, s, a).value)
  {
    hide Inv;
    match a {
      case Acquire(i) => AcquireKeeps(c, s, i);
      case CancelWait(i) => CancelWaitKeeps(c, s, i);
      case Resume(i) => ResumeKeeps(c, s, i);
      case CancelLock(i) => CancelLockKeeps(c, s, i);
      case TakeLock(i) => TakeLockKeeps(c, s, i);
      case Submit(i) => SubmitKeeps(c, s, i);
      case Complete(i) => CompleteKeeps(c, s, i);
      case CancelAwait(i) => CancelAwaitKeeps(c, s, i);
      case Leave(i) => BeginDrainKeeps(c, s, i);
      case Drained(i) => DrainedKeeps(c, s, i);
      case CancelDrain(i) => CancelDrainKeeps(c, s, i);
      case JobStart(n) => JobUpdateKeeps(c, s, n, s.jobs[n].(status := Running));
      case JobReturn(n) => JobUpdateKeeps(c, s, n, s.jobs[n].(status := Returned));
      case OtherLocks => LockKeeps(c, s, HeldElsewhere);
      case OtherUnlocks => LockKeeps(c, s, Free);
    }
  }

  lemma {:induction false} ExecKeepsInv(c: Config, s: State, acts: seq<Action>)
    requires Inv(c, s) && Exec(c, s, acts).Some?
    ensures Inv(c, Exec(c, s, acts).value)
    decreases acts
  {
    hide Inv, Step;
    if acts != [] {
      StepKeepsInv(c, s, acts[0]);
      ExecKeepsInv(c, Step(c, s, acts[0]).value, acts[1..]);
    }
  }

  // ---------------------------------------------------------------- results

  /** Jobs inside the backend whose slot is still held. */
  function LiveJobs(s: State): set<nat> {
    set n | 0 <= n < |s.jobs| && s.jobs[n].status == Running && !s.jobs[n].orphan
  }

  lemma {:induction false} OwnersBound(jobs: seq<Job>, live: set<nat>, holders: set<nat>)
    requires forall n :: n in live ==> n < |jobs| && jobs[n].owner in holders
    requires forall n, m :: n in live && m in live && jobs[n].owner == jobs[m].owner ==> n == m
    ensures |live| <= |holders|
    decreases |live|
  {
    if live != {} {
      var n :| n in live;
      OwnersBound(jobs, live - {n}, holders - {jobs[n].owner});
    }
  }

  lemma LiveJobIsAwaited(c: Config, s: State, n: nat)
    requires Inv(c, s) && n in LiveJobs(s)
    ensures var i := s.jobs[n].owner;
            i < |s.sessions| && WaitsFor(s.sessions[i].pc, n) && InSlot(s.sessions[i].pc) && i in Holders(s)
  {
    var i := s.jobs[n].owner;
    assert SessionInv(s.jobs, s.sessions[i], i);
  }

  /** At most as many finalize-path workers are inside the backend, on behalf of
      slots that were not given up by force, as the gate has permits; and at most
      one if the coordinator serialises. */
  lemma WorkersBounded(c: Config, sessionCount: nat, acts: seq<Action>, s: State)
    requires Exec(c, Init(sessionCount), acts) == Some(s)
    ensures |LiveJobs(s)| <= c.permits
    ensures c.locked ==> |LiveJobs(s)| <= 1
  {
    InitInv(c, sessionCount);
    ExecKeepsInv(c, Init(sessionCount), acts);
    hide LiveJobs;
    forall n | n in LiveJobs(s) ensures n < |s.jobs| && s.jobs[n].owner in Holders(s) {
      LiveJobIsAwaited(c, s, n);
      assert n < |s.jobs| by { LiveJobIndex(s, n); }
    }
    forall n, m | n in LiveJobs(s) && m in LiveJobs(s) && s.jobs[n].owner == s.jobs[m].owner ensures n == m {
      SameOwnerSameJob(c, s, n, m);
    }
    OwnersBound(s.jobs, LiveJobs(s), Holders(s));
    if c.locked {
      forall n, m | n in LiveJobs(s) && m in LiveJobs(s) ensures s.jobs[n].owner == s.jobs[m].owner {
        LiveJobHoldsLock(c, s, n);
        LiveJobHoldsLock(c, s, m);
      }
      if LiveJobs(s) != {} {
        var n :| n in LiveJobs(s);
        OwnersBound(s.jobs, LiveJobs(s), {s.jobs[n].owner});
      }
    }
  }

  lemma LiveJobHoldsLock(c: Config, s: State, n: nat)
    requires Inv(c, s) && n in LiveJobs(s) && c.locked
    ensures s.lock == HeldBy(s.jobs[n].owner)
  {
    LiveJobIsAwaited(c, s, n);
  }

  lemma LiveJobIndex(s: State, n: nat)
    requires n in LiveJobs(s)
    ensures n < |s.jobs|
  {}

  lemma SameOwnerSameJob(c: Config, s: State, n: nat, m: nat)
    requires Inv(c, s) && n in LiveJobs(s) && m in LiveJobs(s) && s.jobs[n].owner == s.jobs[m].owner
    ensures n == m
  {
    LiveJobIsAwaited(c, s, n);
    LiveJobIsAwaited(c, s, m);
    var i := s.jobs[n].owner;
    assert SessionInv(s.jobs, s.sessions[i], i);
  }

  predicate NoSecondCancel(acts: seq<Action>) {
    forall k :: 0 <= k < |acts| ==> !acts[k].CancelDrain?
  }

  predicate NoOrphans(s: State) {
    forall n :: 0 <= n < |s.jobs| ==> !s.jobs[n].orphan
  }

  lemma WakeNextJobs(s: State)
    ensures WakeNext(s).jobs == s.jobs
    decreases |s.waiters|
  {}

  lemma StepMakesNoOrphan(c: Config, s: State, a: Action)
    requires NoOrphans(s) && !a.CancelDrain? && Step(c, s, a).Some?
    ensures NoOrphans(Step(c, s, a).value)
  {
    hide HasPermit, QueueFull, PendingFutures, Remove;
    forall u: State ensures WakeNext(u).jobs == u.jobs { WakeNextJobs(u); }
    hide WakeNext;
  }

  lemma {:induction false} RunMakesNoOrphan(c: Config, s: State, acts: seq<Action>)
    requires NoOrphans(s) && NoSecondCancel(acts) && Exec(c, s, acts).Some?
    ensures NoOrphans(Exec(c, s, acts).value)
    decreases acts
  {
    hide NoOrphans, Step;
    if acts != [] {
      StepMakesNoOrphan(c, s, acts[0]);
      RunMakesNoOrphan(c, Step(c, s, acts[0]).value, acts[1..]);
    }
  }

  /** With one permit, any number of sessions and a cancellation at any await, no
      two finalize-path workers are inside the backend at once, as long as nobody
      is cancelled a second time while draining. */
  lemma Exclusion(c: Config, sessionCount: nat, acts: seq<Action>, s: State, n: nat, m: nat)
    requires c.permits == 1 || c.locked
    requires Exec(c, Init(sessionCount), acts) == Some(s) && NoSecondCancel(acts)
    requires n < |s.jobs| && s.jobs[n].status == Running
    requires m < |s.jobs| && s.jobs[m].status == Running
    ensures n == m
  {
    WorkersBounded(c, sessionCount, acts, s);
    RunMakesNoOrphan(c, Init(sessionCount), acts);
    assert n in LiveJobs(s) && m in LiveJobs(s);
    if n != m {
      assert {n, m} <= LiveJobs(s);
      SubsetSize({n, m}, LiveJobs(s));
    }
  }

  lemma {:induction false} SubsetSize(a: set<nat>, b: set<nat>)
    requires a <= b
    ensures |a| <= |b|
    decreases a
  {
    if a != {} {
      var x :| x in a;
      SubsetSize(a - {x}, b - {x});
    }
  }

  function Enter(i: nat, n: nat): seq<Action> { [Acquire(i), TakeLock(i), Submit(i), JobStart(n)] }

  /** Session `i` takes a free slot and starts job `n` in it. */
  lemma EnterSlot(c: Config, s: State, i: nat, n: nat) returns (t: State)
    requires i < |s.sessions| && s.sessions[i] == Session(Out, []) && s.running < c.permits
    requires |s.jobs| == n && s.lock == Free
    ensures Exec(c, s, Enter(i, n)) == Some(t)
    ensures t == State(s.running + 1, s.waiters, if c.locked then HeldBy(i) else Free,
                       s.sessions[i := Session(Awaiting(n), [n])], s.jobs + [Job(i, Running, false)])
  {
    var s1 := SetPc(s, i, LockWait).(running := s.running + 1);
    var s2 := SetPc(s1, i, Body).(lock := if c.locked then HeldBy(i) else Free);
    var s3 := s2.(jobs := s.jobs + [Job(i, Queued, false)], sessions := s.sessions[i := Session(Awaiting(n), [n])]);
    t := s3.(jobs := s.jobs + [Job(i, Running, false)]);
    assert Step(c, s, Acquire(i)) == Some(s1);
    assert Step(c, s1, TakeLock(i)) == Some(s2);
    assert Step(c, s2, Submit(i)) == Some(s3) by {
      assert [] + [n] == [n];
      assert s2.sessions[i := Session(Awaiting(n), [n])] == s.sessions[i := Session(Awaiting(n), [n])];
    }
    assert Step(c, s3, JobStart(n)) == Some(t) by {
      assert s3.jobs[n := Job(i, Running, false)] == s.jobs + [Job(i, Running, false)];
    }
    ExecPath(c, s, Enter(i, n), [s, s1, s2, s3, t]);
  }

  /** Cancelled while its job runs, and cancelled again while it drains, session 0
      leaves the slot with the job still running. */
  lemma CancelTwice(c: Config, s: State) returns (t: State)
    requires s.sessions != [] && s.sessions[0] == Session(Awaiting(0), [0]) && s.waiters == [] && s.running == 1
    requires s.jobs == [Job(0, Running, false)] && s.lock == if c.locked then HeldBy(0) else Free
    ensures Exec(c, s, [CancelAwait(0), CancelDrain(0)]) == Some(t)
    ensures t == State(0, [], Free, s.sessions[0 := Session(Out, [])], [Job(0, Running, true)])
  {
    assert PendingFutures(s, 0) == {0} by { assert s.sessions[0].futures[0] == 0; }
    var s1 := SetPc(s, 0, Draining({0}));
    t := State(0, [], Free, s.sessions[0 := Session(Out, [])], [Job(0, Running, true)]);
    assert Step(c, s, CancelAwait(0)) == Some(s1);
    var u := Step(c, s1, CancelDrain(0)).value;
    assert u.jobs == t.jobs;
    assert u.sessions == t.sessions;
    ExecPath(c, s, [CancelAwait(0), CancelDrain(0)], [s, s1, t]);
  }

  function BreakingRun(): seq<Action> { Enter(0, 0) + [CancelAwait(0), CancelDrain(0)] + Enter(1, 1) }

  /** Whatever the configuration, a second cancellation during the drain frees
      the slot under a running worker, and the next session joins it inside the
      backend. */
  lemma SecondCancelBreaksExclusion(c: Config, sessionCount: nat)
    requires 1 <= c.permits && 2 <= sessionCount
    ensures var r := Exec(c, Init(sessionCount), BreakingRun());
            && r.Some? && |r.value.jobs| == 2
            && r.value.jobs[0].status == Running && r.value.jobs[1].status == Running
  {
    hide Exec;
    var s0 := Init(sessionCount);
    assert s0.sessions[0] == Session(Out, []) && s0.sessions[1] == Session(Out, []);
    var s1 := EnterSlot(c, s0, 0, 0);
    var s2 := CancelTwice(c, s1);
    var s3 := EnterSlot(c, s2, 1, 1);
    ExecAppend(c, s0, Enter(0, 0), [CancelAwait(0), CancelDrain(0)]);
    ExecAppend(c, s0, Enter(0, 0) + [CancelAwait(0), CancelDrain(0)], Enter(1, 1));
  }

  lemma {:induction false} ExecAppend(c: Config, s: State, a: seq<Action>, b: seq<Action>)
    requires Exec(c, s, a).Some?
    ensures Exec(c, s, a + b) == Exec(c, Exec(c, s, a).value, b)
    decreases a
  {
    hide Step;
    if a == [] {
      assert a + b == b;
    } else {
      assert (a + b)[1..] == a[1..] + b;
      ExecAppend(c, Step(c, s, a[0]).value, a[1..], b);
    }
  }

  lemma {:induction false} ExecPath(c: Config, s: State, acts: seq<Action>, path: seq<State>)
    requires |path| == |acts| + 1 && path[0] == s
    requires forall k :: 0 <= k < |acts| ==> Step(c, path[k], acts[k]) == Some(path[k + 1])
    ensures Exec(c, s, acts) == Some(path[|acts|])
    decreases acts
  {
    hide Step;
    if acts != [] {
      ExecPath(c, path[1], acts[1..], path[1..]);
    }
  }

  /** The backlog stays bounded, no permit is lost or duplicated whatever is
      cancelled, nobody waits while a permit is free, and no more tasks than
      permits are ever parked on the coordinator's unbounded lock. */
  lemma GateConserves(c: Config, sessionCount: nat, acts: seq<Action>, s: State)
    requires Exec(c, Init(sessionCount), acts) == Some(s)
    ensures s.running == |Holders(s)| <= c.permits
    ensures c.maxWaiting.Some? ==> |s.waiters| <= c.maxWaiting.value
    ensures forall i :: 0 <= i < |s.sessions| && s.sessions[i].pc == Waiting ==> |Holders(s)| == c.permits && i in s.waiters
    ensures |set i | 0 <= i < |s.sessions| && s.sessions[i].pc == LockWait| <= c.permits
  {
    InitInv(c, sessionCount);
    ExecKeepsInv(c, Init(sessionCount), acts);
    SubsetSize((set i | 0 <= i < |s.sessions| && s.sessions[i].pc == LockWait), Holders(s));
  }

  /** First come, first served: a freed permit goes to the session that has been
      waiting longest among those not cancelled. */
  lemma {:induction false} OldestWaiterIsServed(c: Config, s: State, k: nat)
    requires QueueInv(c, s) && k < |s.waiters| && s.sessions[s.waiters[k]].pc == Waiting
    requires forall m :: 0 <= m < k ==> s.sessions[s.waiters[m]].pc != Waiting
    ensures WakeNext(s) == SetPc(s, s.waiters[k], Granted(false)).(waiters := s.waiters[k + 1..])
    decreases k
  {
    if k > 0 {
      var rest := s.(waiters := s.waiters[1..]);
      DropFirst(c, s);
      OldestWaiterIsServed(c, rest, k - 1);
      assert rest.waiters[k..] == s.waiters[k + 1..];
    }
  }
}
