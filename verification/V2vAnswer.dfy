/** What becomes of endpoints and utterances in `/v2v/stream`: every endpoint is
    taken, every one taken is answered, and the shared flags change when they
    should and at no other time. */
module V2vAnswer {
  import opened V2vTurn
  import opened Wrappers

  // ---------------------------------------------------------------- an endpoint is taken

  /** In this step the ASR task looks for an endpoint: nothing is open, or a poll
      has come back and any partial has been sent. */
  predicate Looks(s: State, a: Action) {
    || (a.Tick? && s.asr == Sleeping && !s.clientClosed && !s.active)
    || (a.Polled? && s.asr.Polling? && !(a.partial && s.asr.polled == s.gen))
    || (a.PartialSent? && s.asr.SendingPartial?)
  }

  /** The backend's poll reported an endpoint. */
  predicate Reported(s: State, a: Action) {
    (a.Polled? && a.endpoint) || (a.PartialSent? && s.asr.SendingPartial? && s.asr.endpoint)
  }

  /** The answer to an endpoint begins. */
  predicate Takes(s: State, t: State) { !Finishing(s.asr) && Finishing(t.asr) }

  lemma FinalizeTakes(c: Config, s: State, fired: Fired, prepare: bool)
    ensures var t := Finalize(c, s, fired, prepare);
            && Finishing(t.asr) && t == s.(asr := t.asr, behind := t.behind, finals := t.finals)
            && (t.asr.SendingFinal? <==> t.finals == s.finals + 1)
            && (!t.asr.SendingFinal? ==> t.finals == s.finals)
            && (s.active <==> !t.asr.SendingFinal?)
            && (t.asr.Preparing? ==> t.asr.fired == fired) && (t.asr.AwaitingFinalize? ==> t.asr.fired == fired)
  {
    hide Calling;
  }

  lemma AfterPollTakes(c: Config, s: State, endpoint: bool, utterance: nat, prepare: bool)
    requires !GateDrops(s)
    ensures var t := AfterPoll(c, s, endpoint, utterance, prepare);
            && (Finishing(t.asr) <==> s.pending.Some? || (endpoint && s.active))
            && (Finishing(t.asr) ==>
                  && t == s.(pending := None, pendingGen := None, sessionClosed := s.sessionClosed || !c.multi,
                             asr := t.asr, behind := t.behind, finals := t.finals)
                  && (t.asr.SendingEndpoint? <==> s.pending != Some(ClientEos))
                  && (t.asr.SendingEndpoint? ==>
                        t.asr.fired == Fired(s.pending, if s.pending.Some? then s.pendingFor else utterance))
                  && (!t.asr.SendingEndpoint? ==> (t.asr.SendingFinal? <==> !s.active))
                  && t.finals == s.finals + (if t.asr.SendingFinal? then 1 else 0))
            && (!Finishing(t.asr) ==>
                  t == s.(asr := t.asr) && t.asr == if s.sessionClosed && !s.active then Exited else Sleeping)
  {
    var taken := ClearPending(s).(sessionClosed := s.sessionClosed || !c.multi);
    var fired := Fired(s.pending, if s.pending.Some? then s.pendingFor else utterance);
    FinalizeTakes(c, taken, fired, prepare);
    hide Finalize;
  }

  lemma NoFrame(c: Config, s: State, a: Action)
    requires Answers(a) || a.TimeoutCancelled? || a.TimeoutReported? || a.Finalized? || a.Enriched? || a.FinalSent?
    ensures DispatcherStep(c, s, a) == None
  {
    hide AfterVad, AfterOpen, AfterFeed, Open, Latch;
  }

  lemma LooksStep(c: Config, s: State, a: Action)
    requires Step(c, s, a).Some? && Looks(s, a)
    ensures exists utterance: nat :: Step(c, s, a).value == AfterPoll(c, s, Reported(s, a), utterance, a.prepare)
  {
    hide AfterPoll, FrameStep;
    NoFrame(c, s, a);
    var utterance := if a.Tick? then 0 else s.asr.utterance;
    assert Step(c, s, a).value == AfterPoll(c, s, Reported(s, a), utterance, a.prepare);
  }

  /** Whenever the ASR task looks for an endpoint, in any reachable state, it takes
      one exactly if one is pending, or the poll reported one on an utterance that
      is still open.  Taking it clears what was pending, closes the input side of
      a single-turn connection, and leads to a final; otherwise nothing changes
      but that the task sleeps, or ends if it has nothing left to wait for. */
  lemma EndpointIsTaken(c: Config, s: State, a: Action)
    requires Reachable(c, s) && Step(c, s, a).Some? && Looks(s, a)
    ensures var t := Step(c, s, a).value;
            && (Finishing(t.asr) <==> s.pending.Some? || (Reported(s, a) && s.active))
            && (Finishing(t.asr) ==> t.pending == None && (t.sessionClosed <==> s.sessionClosed || !c.multi))
            && (!Finishing(t.asr) ==> t == s.(asr := if s.sessionClosed && !s.active then Exited else Sleeping))
  {
    PendingIsCurrent(c, s);
    LooksStep(c, s, a);
    var utterance: nat :| Step(c, s, a).value == AfterPoll(c, s, Reported(s, a), utterance, a.prepare);
    hide AfterPoll, Step, Reachable;
    AfterPollTakes(c, s, Reported(s, a), utterance, a.prepare);
  }

  /** An endpoint that a poll reports is kept while the partial is sent. */
  lemma PartialKeepsEndpoint(c: Config, s: State, a: Action)
    requires Step(c, s, a).Some? && a.Polled? && s.asr.Polling? && !Looks(s, a)
    ensures Step(c, s, a).value == s.(asr := SendingPartial(a.endpoint, s.asr.utterance))
  {
    hide AfterPoll, AfterVad, AfterOpen, AfterFeed, Open, Latch;
  }

  // ---------------------------------------------------------------- an endpoint taken is answered

  /** An endpoint has been taken and its final is not sent yet. */
  function InHand(asr: AsrOut): nat { if Finishing(asr) && !asr.SendingFinal? then 1 else 0 }

  predicate Discards(a: Action) { a.Finalized? && !a.accepted }

  function Discarded(acts: seq<Action>): nat {
    if acts == [] then 0 else (if Discards(acts[0]) then 1 else 0) + Discarded(acts[1..])
  }

  /** How many endpoints a run takes. */
  function Taken(c: Config, s: State, acts: seq<Action>): nat
    requires Exec(c, s, acts).Some?
    decreases acts
  {
    if acts == [] then 0
    else
      var t := Step(c, s, acts[0]).value;
      (if Takes(s, t) then 1 else 0) + Taken(c, t, acts[1..])
  }

  /** One step, and the sums. */
  predicate Balanced(s: State, a: Action, t: State) {
    t.finals + InHand(t.asr) + (if Discards(a) then 1 else 0)
    == s.finals + InHand(s.asr) + (if Takes(s, t) then 1 else 0)
  }

  lemma FrameKeepsAsr(c: Config, s: State, a: Action)
    requires DispatcherStep(c, s, a).Some?
    ensures var t := DispatcherStep(c, s, a).value; t.asr == s.asr && t.finals == s.finals
    ensures !Discards(a) && !Answers(a)
  {
    var u := if Returns(a) then s.(behind := false) else s;
    assert FrameStep(c, u, a) == DispatcherStep(c, s, a) by { hide FrameStep; }
    FrameEffect(c, u, a);
    FrameFinals(c, u, a);
    if Answers(a) || Discards(a) { NoFrame(c, s, a); }
    hide FrameStep, DispatcherStep;
  }

  lemma FrameFinals(c: Config, s: State, a: Action)
    requires FrameStep(c, s, a).Some?
    ensures FrameStep(c, s, a).value.finals == s.finals
  {
    if Other(a) {
      OtherFrame(c, s, a);
      hide FrameStep;
    } else {
      hide AfterVad;
      assert forall v: State, ended: bool, may: bool :: AfterVad(c, v, ended, may).finals == v.finals by { AfterVadFinals(c); }
    }
  }

  lemma AfterVadFinals(c: Config)
    ensures forall v: State, ended: bool, may: bool :: AfterVad(c, v, ended, may).finals == v.finals
  {}

  lemma LookBalances(c: Config, s: State, a: Action)
    requires !GateDrops(s) && Step(c, s, a).Some? && Looks(s, a)
    ensures Balanced(s, a, Step(c, s, a).value)
  {
    assert !Finishing(s.asr) && !Discards(a);
    hide Step, AfterPoll, GateDrops, Looks, Reported;
    LooksStep(c, s, a);
    var utterance: nat :| Step(c, s, a).value == AfterPoll(c, s, Reported(s, a), utterance, a.prepare);
    AfterPollTakes(c, s, Reported(s, a), utterance, a.prepare);
  }

  lemma AnswerBalances(c: Config, s: State, a: Action)
    requires AsrStep(c, s, a).Some? && !Looks(s, a)
    ensures Balanced(s, a, AsrStep(c, s, a).value)
  {
    if a.EndpointSent? && s.asr.SendingEndpoint? { FinalizeTakes(c, s, s.asr.fired, a.prepare); }
    hide Finalize, AfterPoll, Calling;
  }

  lemma StepBalances(c: Config, s: State, a: Action)
    requires Inv(c, s) && Step(c, s, a).Some?
    ensures Balanced(s, a, Step(c, s, a).value)
  {
    assert !GateDrops(s) by { hide SingleTurn; }
    hide Inv, AsrStep, DispatcherStep, Looks;
    if DispatcherStep(c, s, a).Some? {
      FrameKeepsAsr(c, s, a);
    } else if Looks(s, a) {
      LookBalances(c, s, a);
    } else {
      AnswerBalances(c, s, a);
    }
  }

  lemma {:induction false} RunBalances(c: Config, s: State, acts: seq<Action>, t: State)
    requires Inv(c, s) && Exec(c, s, acts) == Some(t)
    ensures t.finals + InHand(t.asr) + Discarded(acts) == s.finals + InHand(s.asr) + Taken(c, s, acts)
    decreases acts
  {
    hide Inv, Step, InHand, Takes, Discards;
    if acts != [] {
      StepKeepsInv(c, s, acts[0]);
      StepBalances(c, s, acts[0]);
      RunBalances(c, Step(c, s, acts[0]).value, acts[1..], t);
    }
  }

  /** Over every run: each endpoint taken has been answered by exactly one final,
      or its finalize was discarded, or its answer is still being prepared; and no
      final is sent without an endpoint. */
  lemma EndpointsAnswered(c: Config, acts: seq<Action>, s: State)
    requires Exec(c, Init(), acts) == Some(s)
    ensures Taken(c, Init(), acts) == s.finals + Discarded(acts) + InHand(s.asr)
    ensures s.asr == Sleeping || s.asr == Exited ==> Taken(c, Init(), acts) == s.finals + Discarded(acts)
  {
    RunBalances(c, Init(), acts, s);
  }

  // ---------------------------------------------------------------- single-turn connections

  /** Nothing takes the turn away: neither the client nor a timeout, and no
      finalize is discarded. */
  predicate Undisturbed(acts: seq<Action>) {
    forall a :: a in acts ==> !Disturbs(a)
  }

  predicate Disturbs(a: Action) { a.Abort? || a.Disconnect? || a.TimeoutCancelled? || Discards(a) }

  /** A single-turn connection whose input side is closed has an endpoint to
      answer, or has answered it. */
  predicate AnswerInv(s: State) {
    && (s.sessionClosed ==> s.pending.Some? || Finishing(s.asr) || s.finals == 1)
    && (s.asr == Exited || s.clientClosed ==> s.finals == 1)
    && s.asr != ReportingTimeout && s.disp != Aborting
    && (s.disp == Refusing || s.disp == LazyRefusing ==> !s.sessionClosed && !s.startedOnce)
    && (s.asr.SendingFinal? ==> s.finals == 1) && (s.finals == 1 ==> s.sessionClosed)
  }

  /** What a step of the dispatcher does to the flags, in a single turn. */
  lemma FrameAnswers(c: Config, s: State, a: Action)
    requires Inv(c, s) && AnswerInv(s) && !c.multi && !Disturbs(a) && FrameStep(c, s, a).Some?
    ensures AnswerInv(FrameStep(c, s, a).value)
  {
    if a.Fed? {
      FedAnswers(c, s, a);
    } else if Other(a) {
      OtherFrame(c, s, a);
      OtherAnswers(c, s, a);
    } else if a.OpenDone? || a.LazyDone? {
      OpenAnswers(c, s, a);
    } else {
      HearAnswers(c, s, a);
    }
    hide FrameStep, Inv;
  }

  lemma FedAnswers(c: Config, s: State, a: Action)
    requires AnswerInv(s) && FrameStep(c, s, a).Some? && a.Fed?
    ensures AnswerInv(FrameStep(c, s, a).value)
  {
    hide AfterVad, AfterOpen, Open;
  }

  lemma OtherAnswers(c: Config, s: State, a: Action)
    requires Inv(c, s) && AnswerInv(s) && !c.multi && !Disturbs(a) && FrameStep(c, s, a).Some? && Other(a) && !a.Fed?
    ensures AnswerInv(FrameStep(c, s, a).value)
  {
    hide AfterVad, AfterOpen, AfterFeed, Open, OfTheLast, Stamped;
  }

  lemma OpenAnswers(c: Config, s: State, a: Action)
    requires Inv(c, s) && AnswerInv(s) && !c.multi && FrameStep(c, s, a).Some? && (a.OpenDone? || a.LazyDone?)
    ensures AnswerInv(FrameStep(c, s, a).value)
  {
    hide OfTheLast, Stamped;
  }

  lemma HearAnswers(c: Config, s: State, a: Action)
    requires Inv(c, s) && AnswerInv(s) && !c.multi && FrameStep(c, s, a).Some?
    requires a.Audio? || a.StartSent? || a.PrerollFed?
    ensures AnswerInv(FrameStep(c, s, a).value)
  {
    hide OfTheLast, Stamped, Open;
  }

  lemma LookAnswers(c: Config, s: State, a: Action)
    requires Inv(c, s) && AnswerInv(s) && !c.multi && Step(c, s, a).Some? && Looks(s, a)
    ensures AnswerInv(Step(c, s, a).value)
  {
    assert !GateDrops(s) && s.finals == 0;
    hide Step, AfterPoll, GateDrops;
    LooksStep(c, s, a);
    var utterance: nat :| Step(c, s, a).value == AfterPoll(c, s, Reported(s, a), utterance, a.prepare);
    AfterPollTakes(c, s, Reported(s, a), utterance, a.prepare);
  }

  lemma AnswerAnswers(c: Config, s: State, a: Action)
    requires Inv(c, s) && AnswerInv(s) && !c.multi && !Disturbs(a) && AsrStep(c, s, a).Some? && !Looks(s, a)
    ensures AnswerInv(AsrStep(c, s, a).value)
  {
    if a.EndpointSent? && s.asr.SendingEndpoint? { FinalizeTakes(c, s, s.asr.fired, a.prepare); }
    hide Finalize, AfterPoll, Calling, OfTheLast, Stamped;
  }

  lemma {:induction false} RunAnswers(c: Config, s: State, acts: seq<Action>, t: State)
    requires Inv(c, s) && AnswerInv(s) && !c.multi && Undisturbed(acts) && Exec(c, s, acts) == Some(t)
    ensures Inv(c, t) && AnswerInv(t)
    decreases acts
  {
    hide Inv, AnswerInv, Looks, Disturbs, DispatcherStep, AsrStep;
    if acts != [] {
      var a := acts[0];
      StepKeepsInv(c, s, a);
      if DispatcherStep(c, s, a).Some? {
        DispatcherAnswers(c, s, a);
      } else if Looks(s, a) {
        LookAnswers(c, s, a);
      } else {
        AnswerAnswers(c, s, a);
      }
      RunAnswers(c, Step(c, s, a).value, acts[1..], t);
    }
  }

  lemma DispatcherAnswers(c: Config, s: State, a: Action)
    requires Inv(c, s) && AnswerInv(s) && !c.multi && !Disturbs(a) && DispatcherStep(c, s, a).Some?
    ensures AnswerInv(DispatcherStep(c, s, a).value)
  {
    var u := if Returns(a) then s.(behind := false) else s;
    assert FrameStep(c, u, a) == DispatcherStep(c, s, a) by { hide FrameStep; }
    CallReturns(c, s);
    assert AnswerInv(u);
    hide Inv, FrameStep, DispatcherStep, AnswerInv;
    FrameAnswers(c, u, a);
  }

  /** On a single-turn connection, as long as neither the client nor a timeout
      takes the turn away and no finalize is discarded: once the input side is
      closed there is an endpoint waiting, being answered, or answered with the one
      final; and the task ends only after that final. */
  lemma SingleTurnAnswers(c: Config, acts: seq<Action>, s: State)
    requires !c.multi && Undisturbed(acts) && Exec(c, Init(), acts) == Some(s)
    ensures s.sessionClosed <==> s.pending.Some? || Finishing(s.asr) || s.finals == 1
    ensures s.asr == Exited ==> s.finals == 1
    ensures Taken(c, Init(), acts) == s.finals + InHand(s.asr)
  {
    RunAnswers(c, Init(), acts, s);
    EndpointsAnswered(c, acts, s);
    NoneDiscarded(acts);
    hide Exec, Taken, Undisturbed;
    ClosedByEndpoint(c, s);
  }

  lemma ClosedByEndpoint(c: Config, s: State)
    requires Inv(c, s) && AnswerInv(s) && !c.multi
    ensures s.sessionClosed <==> s.pending.Some? || Finishing(s.asr) || s.finals == 1
    ensures s.asr == Exited ==> s.finals == 1
  {
    hide OfTheLast, Stamped;
  }

  lemma {:induction false} NoneDiscarded(acts: seq<Action>)
    requires Undisturbed(acts)
    ensures Discarded(acts) == 0
    decreases acts
  {
    if acts != [] {
      assert !Disturbs(acts[0]);
      NoneDiscarded(acts[1..]);
    }
  }

  // ---------------------------------------------------------------- the shared flags

  predicate Opens(a: Action) { a.OpenDone? || a.LazyDone? }

  /** The open utterance is over: refused, aborted, timed out, finalized as the one
      still active, or given up because the manager went idle. */
  predicate EndsTurn(s: State, a: Action) {
    || a == RefusalSent || a == LazyRefusalSent || a == AbortDone || a == TimeoutCancelled
    || (a.Finalized? && s.asr.Finalizing? && if a.accepted then s.gen == s.asr.target else a.idle)
  }

  /** An endpoint is latched: by the client's end of stream, or by an end of speech
      that may finalize, once the audio that carried it has been fed. */
  predicate Latches(s: State, a: Action, t: State) {
    || a == Eos || (a.Fed? && s.disp == Feeding(true) && a.may)
    || (a.Audio? && a.event == SpeechEnd && a.may && t.disp == SendingEnd)
  }

  /** A pending endpoint is dropped with the utterance it was for. */
  predicate Forgets(a: Action) {
    Opens(a) || a == RefusalSent || a == TimeoutCancelled || (a.Finalized? && !a.accepted && a.idle)
  }

  predicate TurnFlags(s: State, a: Action, t: State) {
    && (t.active <==> Opens(a) || (s.active && !EndsTurn(s, a)))
    && t.opens == s.opens + (if Opens(a) then 1 else 0)
    && t.gen == (if Opens(a) then a.newGen else s.gen)
    && (t.startedOnce <==> s.startedOnce || Opens(a))
  }

  predicate EndpointFlags(c: Config, s: State, a: Action, t: State) {
    && (t.pending.Some? <==> Latches(s, a, t) || (s.pending.Some? && !Forgets(a) && !Takes(s, t)))
    && (t.pending.Some? ==>
          t.pending == if a == Eos then Some(ClientEos) else if Latches(s, a, t) then Some(Vad) else s.pending)
    && (t.sessionClosed <==> s.sessionClosed || (!c.multi && (Latches(s, a, t) || Takes(s, t))))
    && (t.clientClosed <==> s.clientClosed || a == Disconnect || (!c.multi && a == FinalSent && s.asr == SendingFinal(true)))
  }

  lemma FrameFlags(c: Config, s: State, a: Action)
    requires FrameStep(c, s, a).Some?
    ensures TurnFlags(s, a, FrameStep(c, s, a).value) && EndpointFlags(c, s, a, FrameStep(c, s, a).value)
  {
    hide FrameStep, TurnFlags, EndpointFlags;
    if a.Fed? {
      FedFlags(c, s, a);
    } else if Other(a) {
      QuietFlags(c, s, a);
    } else if Opens(a) {
      OpenFlags(c, s, a);
    } else {
      HearFlags(c, s, a);
    }
  }

  lemma FedFlags(c: Config, s: State, a: Action)
    requires FrameStep(c, s, a).Some? && a.Fed?
    ensures TurnFlags(s, a, FrameStep(c, s, a).value) && EndpointFlags(c, s, a, FrameStep(c, s, a).value)
  {
    hide AfterVad, AfterOpen, Open, Finishing;
  }

  lemma QuietFlags(c: Config, s: State, a: Action)
    requires FrameStep(c, s, a).Some? && Other(a) && !a.Fed?
    ensures TurnFlags(s, a, FrameStep(c, s, a).value) && EndpointFlags(c, s, a, FrameStep(c, s, a).value)
  {
    hide AfterVad, AfterOpen, AfterFeed, Open, Finishing;
  }

  lemma AfterVadFlags(c: Config, s: State, ended: bool, may: bool)
    ensures var t := AfterVad(c, s, ended, may);
            && t == s.(pending := t.pending, pendingGen := t.pendingGen, pendingFor := t.pendingFor,
                       sessionClosed := t.sessionClosed, disp := t.disp)
            && t.pending == (if ended && may && t.disp == SendingEnd then Some(Vad) else s.pending)
            && t.sessionClosed == (s.sessionClosed || (!c.multi && ended && may && t.disp == SendingEnd))
  {}

  lemma OpenFlags(c: Config, s: State, a: Action)
    requires FrameStep(c, s, a).Some? && Opens(a)
    ensures TurnFlags(s, a, FrameStep(c, s, a).value) && EndpointFlags(c, s, a, FrameStep(c, s, a).value)
  {
    AfterVadFlags(c, Open(s, a.newGen), false, a.may);
    if a.OpenDone? {
      hide Finishing, AfterVad, AfterOpen, AfterFeed;
    } else {
      hide Finishing, AfterVad, AfterFeed;
    }
  }

  lemma HearFlags(c: Config, s: State, a: Action)
    requires FrameStep(c, s, a).Some? && (a.Audio? || a.StartSent? || a.PrerollFed?)
    ensures TurnFlags(s, a, FrameStep(c, s, a).value) && EndpointFlags(c, s, a, FrameStep(c, s, a).value)
  {
    hide TurnFlags, EndpointFlags;
    if a.Audio? { AudioFlags(c, s, a); } else { StartFlags(c, s, a); }
  }

  lemma AudioFlags(c: Config, s: State, a: Action)
    requires FrameStep(c, s, a).Some? && a.Audio?
    ensures TurnFlags(s, a, FrameStep(c, s, a).value) && EndpointFlags(c, s, a, FrameStep(c, s, a).value)
  {
    AfterVadFlags(c, s, a.event == SpeechEnd, a.may);
    hide Finishing, AfterVad, AfterOpen, AfterFeed, Open;
  }

  lemma StartFlags(c: Config, s: State, a: Action)
    requires FrameStep(c, s, a).Some? && (a.StartSent? || a.PrerollFed?)
    ensures TurnFlags(s, a, FrameStep(c, s, a).value) && EndpointFlags(c, s, a, FrameStep(c, s, a).value)
  {
    AfterVadFlags(c, s, false, a.may);
    hide Finishing, AfterVad, AfterOpen, AfterFeed, Open;
  }

  lemma LookFlags(c: Config, s: State, a: Action)
    requires !GateDrops(s) && Step(c, s, a).Some? && Looks(s, a)
    ensures TurnFlags(s, a, Step(c, s, a).value) && EndpointFlags(c, s, a, Step(c, s, a).value)
  {
    hide Step, AfterPoll, GateDrops, TurnFlags, EndpointFlags;
    LooksStep(c, s, a);
    var utterance: nat :| Step(c, s, a).value == AfterPoll(c, s, Reported(s, a), utterance, a.prepare);
    AfterPollTakes(c, s, Reported(s, a), utterance, a.prepare);
    LookedFlags(c, s, a, Step(c, s, a).value);
  }

  lemma LookedFlags(c: Config, s: State, a: Action, t: State)
    requires a.Tick? || a.Polled? || a.PartialSent?
    requires !Finishing(s.asr)
    requires if Finishing(t.asr) then
               t == s.(pending := None, pendingGen := None, sessionClosed := s.sessionClosed || !c.multi,
                       asr := t.asr, behind := t.behind, finals := t.finals)
             else t == s.(asr := t.asr)
    ensures TurnFlags(s, a, t) && EndpointFlags(c, s, a, t)
  {
    hide Finishing;
  }

  lemma AnswerFlags(c: Config, s: State, a: Action)
    requires AsrStep(c, s, a).Some? && !Looks(s, a)
    ensures TurnFlags(s, a, AsrStep(c, s, a).value) && EndpointFlags(c, s, a, AsrStep(c, s, a).value)
  {
    hide AsrStep, TurnFlags, EndpointFlags, Looks;
    if a.EndpointSent? {
      AnnouncedFlags(c, s, a);
    } else if a.Finalized? {
      FinalizedFlags(c, s, a);
    } else {
      PlainFlags(c, s, a);
    }
  }

  lemma AnnouncedFlags(c: Config, s: State, a: Action)
    requires AsrStep(c, s, a).Some? && a.EndpointSent?
    ensures TurnFlags(s, a, AsrStep(c, s, a).value) && EndpointFlags(c, s, a, AsrStep(c, s, a).value)
  {
    var t := AsrStep(c, s, a).value;
    assert s.asr.SendingEndpoint? && t == Finalize(c, s, s.asr.fired, a.prepare) by { hide Finalize; }
    hide AsrStep, Finalize;
    FinalizeTakes(c, s, s.asr.fired, a.prepare);
  }

  lemma FinalizedFlags(c: Config, s: State, a: Action)
    requires AsrStep(c, s, a).Some? && a.Finalized?
    ensures TurnFlags(s, a, AsrStep(c, s, a).value) && EndpointFlags(c, s, a, AsrStep(c, s, a).value)
  {
    hide Finalize, AfterPoll, Tail;
  }

  lemma PlainFlags(c: Config, s: State, a: Action)
    requires AsrStep(c, s, a).Some? && !Looks(s, a) && !a.EndpointSent? && !a.Finalized?
    ensures TurnFlags(s, a, AsrStep(c, s, a).value) && EndpointFlags(c, s, a, AsrStep(c, s, a).value)
  {
    PlainTurn(c, s, a);
    hide AsrStep, TurnFlags, Looks;
    PlainEndpoint(c, s, a);
    hide EndpointFlags;
  }

  lemma PlainTurn(c: Config, s: State, a: Action)
    requires AsrStep(c, s, a).Some? && !Looks(s, a) && !a.EndpointSent? && !a.Finalized?
    ensures TurnFlags(s, a, AsrStep(c, s, a).value)
  {
    hide Finalize, AfterPoll, Calling;
  }

  lemma PlainEndpoint(c: Config, s: State, a: Action)
    requires AsrStep(c, s, a).Some? && !Looks(s, a) && !a.EndpointSent? && !a.Finalized?
    ensures EndpointFlags(c, s, a, AsrStep(c, s, a).value)
  {
    hide Finalize, AfterPoll, Calling;
  }

  /** The shared flags change at these moments and at no others, whichever task
      takes the step: an utterance is open from its open on until it ends; an
      endpoint is pending from its latch on until it is taken or its utterance is
      gone; a single-turn input side closes with the first endpoint latched or
      taken. */
  lemma FlagsExact(c: Config, s: State, a: Action)
    requires Reachable(c, s) && Step(c, s, a).Some?
    ensures TurnFlags(s, a, Step(c, s, a).value) && EndpointFlags(c, s, a, Step(c, s, a).value)
  {
    PendingIsCurrent(c, s);
    hide Reachable, GateDrops, Looks, TurnFlags, EndpointFlags, FrameStep, AsrStep;
    if DispatcherStep(c, s, a).Some? {
      DispatcherFlags(c, s, a);
    } else if Looks(s, a) {
      LookFlags(c, s, a);
    } else {
      AnswerFlags(c, s, a);
    }
  }

  lemma DispatcherFlags(c: Config, s: State, a: Action)
    requires DispatcherStep(c, s, a).Some?
    ensures TurnFlags(s, a, DispatcherStep(c, s, a).value) && EndpointFlags(c, s, a, DispatcherStep(c, s, a).value)
  {
    var u := if Returns(a) then s.(behind := false) else s;
    assert FrameStep(c, u, a) == DispatcherStep(c, s, a) by { hide FrameStep; }
    FrameFlags(c, u, a);
    hide FrameStep, DispatcherStep;
  }

  // ---------------------------------------------------------------- frames

  /** The dispatcher has an end of speech to latch or to announce. */
  predicate Carries(d: Dispatcher) { d == LazyOpening(true) || d == Feeding(true) || d == SendingEnd }

  /** The frame is for a connection or a turn that is over. */
  predicate Ignores(c: Config, s: State) {
    s.sessionClosed || (!c.multi && s.startedOnce && !s.active)
  }

  /** No frontend decides when an utterance begins, none is open, and one may be. */
  predicate OpensLazily(c: Config, s: State) {
    (!c.hasVad || c.backendPrefers) && !s.active && s.pending == None && (c.multi || !s.startedOnce)
  }

  /** Frame by frame: audio of an open utterance is fed, audio that may open one
      opens it, a speech start is announced and then opens one unless the single
      turn has begun or it only barges in; and an end of speech is carried along
      until its audio has been fed. */
  lemma FramesExact(c: Config, s: State, a: Action)
    requires DispatcherStep(c, s, a).Some?
    ensures var t := DispatcherStep(c, s, a).value;
            && (a.Audio? && !Ignores(c, s) ==>
                  && (t.disp == SendingStart <==> a.event == SpeechStart)
                  && (a.event != SpeechStart ==>
                        && (t.disp.LazyOpening? <==> OpensLazily(c, s)) && (t.disp.Feeding? <==> s.active)
                        && (Carries(t.disp) <==> a.event == SpeechEnd)))
            && (a.Audio? && Ignores(c, s) ==> t == s)
            && (a.LazyDone? ==> t.disp.Feeding? && (Carries(t.disp) <==> Carries(s.disp)))
            && (a.Fed? ==> (t.disp == SendingEnd <==> Carries(s.disp)))
            && (a.StartSent? ==> (t.disp == Opening <==> !a.bargeOnly && (c.multi || !s.startedOnce)))
            && (a.StartSent? && t.disp.Feeding? ==> s.active)
  {
    hide Open;
    if a.LazyDone? {
      LazyCarries(c, s, a);
      hide FrameStep, DispatcherStep;
    } else if a.Audio? {
      AudioFrames(c, s, a);
      hide FrameStep, DispatcherStep;
    } else if a.StartSent? {
      hide AfterFeed;
    } else {
      hide AfterVad, AfterOpen;
    }
  }

  lemma AudioFrames(c: Config, s: State, a: Action)
    requires DispatcherStep(c, s, a).Some? && a.Audio?
    ensures var t := DispatcherStep(c, s, a).value;
            && (!Ignores(c, s) ==>
                  && (t.disp == SendingStart <==> a.event == SpeechStart)
                  && (a.event != SpeechStart ==>
                        && (t.disp.LazyOpening? <==> OpensLazily(c, s)) && (t.disp.Feeding? <==> s.active)
                        && (Carries(t.disp) <==> a.event == SpeechEnd)))
            && (Ignores(c, s) ==> t == s)
  {
    hide Open;
  }

  lemma LazyCarries(c: Config, s: State, a: Action)
    requires DispatcherStep(c, s, a).Some? && a.LazyDone?
    ensures var t := DispatcherStep(c, s, a).value; t.disp.Feeding? && (Carries(t.disp) <==> Carries(s.disp))
  {
    hide AfterFeed, AfterVad;
  }

  // ---------------------------------------------------------------- nothing is stuck

  predicate BehindInv(s: State) { s.behind ==> Calling(s.disp) }

  lemma FinalizeBehind(c: Config, s: State, fired: Fired, prepare: bool)
    ensures var t := Finalize(c, s, fired, prepare); t.disp == s.disp && (t.behind ==> s.behind || Calling(s.disp))
  {
    hide Calling;
  }

  lemma AfterPollBehind(c: Config, s: State, endpoint: bool, utterance: nat, prepare: bool)
    ensures var t := AfterPoll(c, s, endpoint, utterance, prepare);
            t.disp == s.disp && (t.behind ==> s.behind || Calling(s.disp))
  {
    hide Finalize, Calling, GateDrops;
    var gated := if GateDrops(s) then ClearPending(s) else s;
    var fired := Fired(gated.pending, if gated.pending.Some? then gated.pendingFor else utterance);
    FinalizeBehind(c, ClearPending(gated).(sessionClosed := gated.sessionClosed || !c.multi), fired, prepare);
  }

  lemma FrameBehind(c: Config, s: State, a: Action)
    requires BehindInv(s) && DispatcherStep(c, s, a).Some?
    ensures BehindInv(DispatcherStep(c, s, a).value)
  {
    var u := if Returns(a) then s.(behind := false) else s;
    assert FrameStep(c, u, a) == DispatcherStep(c, s, a) by { hide FrameStep; }
    FrameEffect(c, u, a);
    hide FrameStep, DispatcherStep;
  }

  lemma AsrBehind(c: Config, s: State, a: Action)
    requires BehindInv(s) && AsrStep(c, s, a).Some?
    ensures BehindInv(AsrStep(c, s, a).value)
  {
    match a {
      case Tick(_, prepare) => AfterPollBehind(c, s, false, 0, prepare);
      case Polled(endpoint, _, prepare) => AfterPollBehind(c, s, endpoint, s.asr.utterance, prepare);
      case PartialSent(prepare) => AfterPollBehind(c, s, s.asr.endpoint, s.asr.utterance, prepare);
      case EndpointSent(prepare) => FinalizeBehind(c, s, s.asr.fired, prepare);
      case _ =>
    }
    hide Calling, Finalize, AfterPoll;
  }

  lemma {:induction false} RunBehind(c: Config, s: State, acts: seq<Action>)
    requires BehindInv(s) && Exec(c, s, acts).Some?
    ensures BehindInv(Exec(c, s, acts).value)
    decreases acts
  {
    hide BehindInv, DispatcherStep, AsrStep;
    if acts != [] {
      if DispatcherStep(c, s, acts[0]).Some? { FrameBehind(c, s, acts[0]); } else { AsrBehind(c, s, acts[0]); }
      RunBehind(c, Step(c, s, acts[0]).value, acts[1..]);
    }
  }

  lemma ReachableBehind(c: Config, s: State)
    requires Reachable(c, s)
    ensures BehindInv(s)
  {
    var acts :| Exec(c, Init(), acts) == Some(s);
    RunBehind(c, Init(), acts);
  }

  /** What the ASR task waits for in line comes: the dispatcher's call returns. */
  lemma Unblock(c: Config, s: State) returns (t: State)
    requires BehindInv(s) && (s.asr.AwaitingPoll? || s.asr.AwaitingFinalize?)
    ensures Reaches(c, s, t) && t == s.(behind := false, disp := t.disp, active := t.active)
    ensures !t.behind
  {
    ReachesSelf(c, s);
    hide Reaches;
    if !s.behind {
      t := s;
    } else {
      var u := s.(behind := false);
      match s.disp {
        case Opening => t := u.(disp := Refusing); CallBack(c, s, s, OpenFailed, t);
        case FeedingPreroll => t := FedOn(c, s);
        case LazyOpening(_) => t := u.(disp := LazyRefusing); CallBack(c, s, s, LazyFailed, t);
        case Feeding(ended) =>
          t := u.(disp := if ended then SendingEnd else Receiving);
          CallBack(c, s, s, Fed(false), t);
        case Aborting => t := u.(active := false, disp := Receiving); CallBack(c, s, s, AbortDone, t);
      }
    }
  }

  lemma FedOn(c: Config, s: State) returns (t: State)
    requires s.behind && s.disp == FeedingPreroll && (s.asr.AwaitingPoll? || s.asr.AwaitingFinalize?)
    ensures Reaches(c, s, t) && t == s.(behind := false, disp := t.disp)
  {
    ReachesSelf(c, s);
    t := AfterVad(c, s.(behind := false), false, false);
    AfterVadFlags(c, s.(behind := false), false, false);
    hide AfterVad, Reaches;
    CallBack(c, s, s, PrerollFed(false), t);
    AfterVadStays(c, s.(behind := false));
  }

  lemma AfterVadStays(c: Config, s: State)
    ensures AfterVad(c, s, false, false) == s.(disp := AfterVad(c, s, false, false).disp)
  {}

  /** A run goes on with a step of the ASR output task. */
  lemma Goes(c: Config, s: State, t: State, a: Action, u: State)
    requires Reaches(c, s, t) && AsrStep(c, t, a) == Some(u)
    requires Answers(a) || a.Finalized? || a.Enriched? || a.FinalSent?
    ensures Reaches(c, s, u)
  {
    hide AsrStep, Reaches, DispatcherStep;
    NoFrame(c, t, a);
    ReachesStep(c, s, t, a, u);
  }

  /** The ASR task is in its loop, with no endpoint in hand and no timeout. */
  predicate Looping(asr: AsrOut) {
    asr == Sleeping || asr.AwaitingPoll? || asr.Polling? || asr.SendingPartial?
  }

  lemma ComesToLook(c: Config, s: State) returns (t: State, a: Action)
    requires BehindInv(s) && !s.clientClosed && Looping(s.asr)
    ensures Reaches(c, s, t) && Looks(t, a) && Answers(a) && AsrStep(c, t, a).Some?
    ensures t == s.(asr := t.asr, disp := t.disp, behind := t.behind, active := t.active)
  {
    ReachesSelf(c, s);
    hide Reaches, AfterPoll;
    t := s;
    if s.asr == Sleeping && !s.active {
      a := Tick(false, false);
    } else if s.asr.SendingPartial? {
      a := PartialSent(false);
    } else {
      if s.asr == Sleeping {
        t := LineUp(c, s, AwaitingPoll);
        Goes(c, s, s, Tick(false, false), t);
      }
      a := Polled(false, false, false);
      if !s.asr.Polling? {
        var u := Unblock(c, t);
        ReachesTrans(c, s, t, u);
        t := u.(asr := Polling(u.opens, u.gen));
        Goes(c, s, u, PollBegins, t);
      }
    }
  }

  lemma PendingCanBeTaken(c: Config, s: State) returns (t: State)
    requires Reachable(c, s) && s.pending.Some? && !s.clientClosed && Looping(s.asr)
    ensures Reaches(c, s, t) && t.finals + InHand(t.asr) == s.finals + 1
    ensures Finishing(t.asr)
  {
    ReachableBehind(c, s);
    var u, a := ComesToLook(c, s);
    ReachesTrans(c, Init(), s, u);
    hide Reaches, Reachable;
    t := AsrStep(c, u, a).value;
    PendingIsCurrent(c, u);
    hide Looping, GateDrops, BehindInv, AsrStep;
    Goes(c, s, u, a, t);
    NoFrame(c, u, a);
    EndpointIsTaken(c, u, a);
    LookBalances(c, u, a);
  }

  lemma FinalizeReturns(c: Config, s: State) returns (t: State)
    requires s.asr.Finalizing?
    ensures Reaches(c, s, t) && t.finals == s.finals + 1
  {
    ReachesSelf(c, s);
    hide Reaches, AfterPoll, Finalize, Calling;
    t := SendFinal(c, if s.gen == s.asr.target then s.(active := false) else s);
    Goes(c, s, s, Finalized(true, false, false), t);
  }

  lemma LinedUpIsFinalized(c: Config, s: State) returns (t: State)
    requires BehindInv(s) && s.asr.AwaitingFinalize?
    ensures Reaches(c, s, t) && t.finals == s.finals + 1
  {
    hide Reaches, BehindInv, AfterPoll, Finalize, Calling;
    var u := Unblock(c, s);
    var v := u.(asr := Finalizing(u.asr.fired, u.asr.target, u.opens));
    Goes(c, s, u, FinalizeBegins, v);
    hide AsrStep;
    t := FinalizeReturns(c, v);
    ReachesTrans(c, s, v, t);
  }

  lemma CanBeFinalized(c: Config, s: State) returns (t: State)
    requires BehindInv(s) && (s.asr.Preparing? || s.asr.AwaitingFinalize? || s.asr.Finalizing?)
    ensures Reaches(c, s, t) && t.finals == s.finals + 1
  {
    ReachesSelf(c, s);
    hide Reaches, AfterPoll, Finalize;
    if s.asr.Preparing? {
      var u := LineUp(c, s, AwaitingFinalize(s.asr.fired, s.asr.target));
      Goes(c, s, s, Prepared, u);
      hide AsrStep;
      t := LinedUpIsFinalized(c, u);
      ReachesTrans(c, s, u, t);
    } else if s.asr.AwaitingFinalize? {
      t := LinedUpIsFinalized(c, s);
    } else {
      t := FinalizeReturns(c, s);
    }
  }

  lemma InHandCanBeAnswered(c: Config, s: State) returns (t: State)
    requires BehindInv(s) && Finishing(s.asr) && !s.asr.SendingFinal?
    ensures Reaches(c, s, t) && t.finals == s.finals + 1
  {
    ReachesSelf(c, s);
    hide Reaches;
    if s.asr == Enriching {
      t := SendFinal(c, s);
      Goes(c, s, s, Enriched, t) by { hide AfterPoll, Finalize; }
    } else if s.asr.SendingEndpoint? {
      var u := Finalize(c, s, s.asr.fired, false);
      FinalizeTakes(c, s, s.asr.fired, false);
      FinalizeBehind(c, s, s.asr.fired, false);
      hide AfterPoll, Finalize;
      Goes(c, s, s, EndpointSent(false), u);
      if u.asr.SendingFinal? {
        t := u;
      } else {
        PreparesOrWaits(c, s);
        t := CanBeFinalized(c, u);
        ReachesTrans(c, s, u, t);
      }
    } else {
      t := CanBeFinalized(c, s);
    }
  }

  lemma PreparesOrWaits(c: Config, s: State)
    requires s.asr.SendingEndpoint?
    ensures var t := Finalize(c, s, s.asr.fired, false); t.asr.SendingFinal? || t.asr.AwaitingFinalize?
  {
    hide Calling;
  }

  /** No endpoint is ever wedged: wherever the two tasks are, one that is pending
      or in hand can still be answered with a final, unless the client has left or
      the turn has just timed out. */
  lemma EndpointCanBeAnswered(c: Config, s: State) returns (t: State)
    requires Reachable(c, s) && !s.clientClosed
    requires (s.pending.Some? && Looping(s.asr)) || (Finishing(s.asr) && !s.asr.SendingFinal?)
    ensures Reaches(c, s, t) && t.finals == s.finals + 1
  {
    var u := s;
    ReachesSelf(c, s);
    if Looping(s.asr) { u := PendingCanBeTaken(c, s); }
    if u.asr.SendingFinal? {
      t := u;
    } else {
      ReachesTrans(c, Init(), s, u);
      ReachableBehind(c, u);
      t := InHandCanBeAnswered(c, u);
      ReachesTrans(c, s, u, t);
    }
  }
}
