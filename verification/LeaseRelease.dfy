/** `_release_stream_resources`: the three leases of a stream response are given
    back by whoever calls first.

    The body awaits between the releases, so several callers (the cleanup task,
    the endpoint's exception handler, a second cleanup) can be inside it or call
    it again at any point.  A release may succeed, be cancelled, or raise. */
module LeaseRelease {
  import opened Wrappers

  type Error = nat

  datatype Outcome = Done | Cancelled | Raised(error: Error)

  /** `At(k)`: about to release lease `k` (coordinator, manager, session). */
  datatype Caller =
    | At(next: nat, errors: seq<Error>)
    | ReturnedEarly
    | ReturnedLast(raised: Option<Error>)

  datatype State = State(released: bool, callers: map<nat, Caller>, attempts: seq<nat>)

  datatype Action = Call(id: nat) | Attempt(id: nat, outcome: Outcome)

  const LEASES: nat := 3

  const INIT := State(false, map[], [0, 0, 0])

  function Step(s: State, a: Action): Option<State> {
    match a
    case Call(id) =>
      if id in s.callers then None
      else if s.released then Some(s.(callers := s.callers[id := ReturnedEarly]))
      else Some(s.(released := true, callers := s.callers[id := At(0, [])]))
    case Attempt(id, outcome) =>
      if id !in s.callers || !s.callers[id].At? || s.callers[id].next >= |s.attempts| then None
      else
        var k := s.callers[id].next;
        var errors := s.callers[id].errors + if outcome.Raised? then [outcome.error] else [];
        var after := if k + 1 < LEASES then At(k + 1, errors)
                     else ReturnedLast(if errors == [] then None else Some(errors[0]));
        Some(s.(callers := s.callers[id := after], attempts := s.attempts[k := s.attempts[k] + 1]))
  }

  function Exec(s: State, acts: seq<Action>): Option<State>
    decreases acts
  {
    if acts == [] then Some(s)
    else
      var t := Step(s, acts[0]);
      if t.None? then None else Exec(t.value, acts[1..])
  }

  predicate Winner(c: Caller) { !c.ReturnedEarly? }

  /** How many leases the winner has attempted. */
  function Reached(c: Caller): nat { if c.At? then c.next else LEASES }

  /** Every attempt made so far was made by one and the same caller. */
  ghost predicate Inv(s: State) {
    && |s.attempts| == LEASES
    && (forall i, j :: i in s.callers && j in s.callers && Winner(s.callers[i]) && Winner(s.callers[j]) ==> i == j)
    && (s.released <==> exists i :: i in s.callers && Winner(s.callers[i]))
    && (!s.released ==> s.attempts == [0, 0, 0])
    && (forall i, k :: i in s.callers && Winner(s.callers[i]) && 0 <= k < LEASES ==>
          s.attempts[k] == if k < Reached(s.callers[i]) then 1 else 0)
    && (forall i :: i in s.callers && s.callers[i].At? ==> s.callers[i].next < LEASES)
  }

  lemma StepKeepsInv(s: State, a: Action)
    requires Inv(s) && Step(s, a).Some?
    ensures Inv(Step(s, a).value)
  {
    match a
    case Call(id) => CallKeepsInv(s, id);
    case Attempt(id, outcome) => AttemptKeepsInv(s, id, outcome);
  }

  lemma CallKeepsInv(s: State, id: nat)
    requires Inv(s) && Step(s, Call(id)).Some?
    ensures Inv(Step(s, Call(id)).value)
  {
    var t := Step(s, Call(id)).value;
    if s.released {
      var w :| w in s.callers && Winner(s.callers[w]);
      assert w in t.callers && Winner(t.callers[w]);
    } else {
      assert id in t.callers && Winner(t.callers[id]);
    }
  }

  lemma AttemptKeepsInv(s: State, id: nat, outcome: Outcome)
    requires Inv(s) && Step(s, Attempt(id, outcome)).Some?
    ensures Inv(Step(s, Attempt(id, outcome)).value)
  {
    var t := Step(s, Attempt(id, outcome)).value;
    assert id in t.callers && Winner(t.callers[id]);
    assert forall i :: i in s.callers && i != id ==> !Winner(s.callers[i]);
  }

  lemma {:induction false} ExecKeepsInv(s: State, acts: seq<Action>)
    requires Inv(s) && Exec(s, acts).Some?
    ensures Inv(Exec(s, acts).value)
    decreases acts
  {
    if acts != [] {
      StepKeepsInv(s, acts[0]);
      ExecKeepsInv(Step(s, acts[0]).value, acts[1..]);
    }
  }

  /** Any number of callers, in any interleaving, with any releases failing: no
      lease is released twice, and once a caller has run the body to its end
      every lease has been released exactly once. */
  lemma ExactlyOnce(acts: seq<Action>)
    requires Exec(INIT, acts).Some?
    ensures var s := Exec(INIT, acts).value;
            && |s.attempts| == LEASES
            && (forall k :: 0 <= k < LEASES ==> s.attempts[k] <= 1)
            && (forall i :: i in s.callers && s.callers[i].ReturnedLast? ==> s.attempts == [1, 1, 1])
            && (acts != [] ==> s.released)
  {
    ExecKeepsInv(INIT, acts);
    var s := Exec(INIT, acts).value;
    assert s.released ==> exists i :: i in s.callers && Winner(s.callers[i]);
    if acts != [] {
      CalledMeansReleased(INIT, acts);
    }
    forall i | i in s.callers && s.callers[i].ReturnedLast? ensures s.attempts == [1, 1, 1] {
      assert Reached(s.callers[i]) == LEASES;
    }
  }

  lemma {:induction false} CalledMeansReleased(s: State, acts: seq<Action>)
    requires Inv(s) && acts != [] && Exec(s, acts).Some?
    ensures Exec(s, acts).value.released
    decreases acts
  {
    var t := Step(s, acts[0]).value;
    StepKeepsInv(s, acts[0]);
    assert t.released by {
      if acts[0].Attempt? {
        assert Winner(s.callers[acts[0].id]);
      }
    }
    if acts[1..] != [] {
      CalledMeansReleased(t, acts[1..]);
    }
  }

  /** The winner's own run through the body. */
  function Body(id: nat, outcomes: seq<Outcome>): seq<Action> {
    seq(|outcomes|, i requires 0 <= i < |outcomes| => Attempt(id, outcomes[i]))
  }

  /** Whichever subset of the three releases raises or is cancelled, all three
      are attempted, and the caller sees the first error raised, if any. */
  lemma AllAttempted(id: nat, a: Outcome, b: Outcome, c: Outcome)
    ensures Exec(INIT, [Call(id)] + Body(id, [a, b, c])).Some?
    ensures var s := Exec(INIT, [Call(id)] + Body(id, [a, b, c])).value;
            && s.attempts == [1, 1, 1]
            && id in s.callers
            && s.callers[id] == ReturnedLast(
                 if a.Raised? then Some(a.error)
                 else if b.Raised? then Some(b.error)
                 else if c.Raised? then Some(c.error) else None)
  {
    var acts := [Call(id)] + Body(id, [a, b, c]);
    assert acts == [Call(id), Attempt(id, a), Attempt(id, b), Attempt(id, c)];
    var s1 := Step(INIT, Call(id)).value;
    var s2 := Step(s1, Attempt(id, a)).value;
    var s3 := Step(s2, Attempt(id, b)).value;
    var s4 := Step(s3, Attempt(id, c)).value;
    assert acts[1..] == [Attempt(id, a), Attempt(id, b), Attempt(id, c)];
    assert acts[1..][1..] == [Attempt(id, b), Attempt(id, c)];
    assert acts[1..][1..][1..] == [Attempt(id, c)];
    assert acts[1..][1..][1..][1..] == [];
    assert s4.attempts == [1, 1, 1];
    assert Exec(INIT, acts) == Exec(s1, acts[1..]);
    assert Exec(s1, acts[1..]) == Exec(s2, acts[1..][1..]);
    assert Exec(s2, acts[1..][1..]) == Exec(s3, acts[1..][1..][1..]);
    assert Exec(s3, acts[1..][1..][1..]) == Exec(s4, []);
  }

  /** A caller that finds the flag up returns at once, even though nothing has
      been released yet: returning is no proof that the leases are back. */
  lemma LoserDoesNotWait(winner: nat, loser: nat)
    requires winner != loser
    ensures var r := Exec(INIT, [Call(winner), Call(loser)]);
            && r.Some? && loser in r.value.callers
            && r.value.callers[loser] == ReturnedEarly && r.value.attempts == [0, 0, 0]
  {
    var acts := [Call(winner), Call(loser)];
    assert acts[1..] == [Call(loser)] && acts[1..][1..] == [];
    var s1 := Step(INIT, Call(winner)).value;
    var s2 := Step(s1, Call(loser)).value;
    assert Exec(INIT, acts) == Exec(s1, acts[1..]);
    assert Exec(s1, acts[1..]) == Exec(s2, []);
  }
}
