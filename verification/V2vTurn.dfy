/** Turn state of the `/v2v/stream` handler.

    Two tasks share one `state` dict on the event loop: the dispatcher, which
    receives frames and opens utterances, and the ASR output task, which polls
    the open utterance and finalizes it at an endpoint.  Each step below is what
    one of them does between two awaits.  The session manager appears only
    through what it returns: any generation number from an open, any outcome of
    a poll or a finalize.  It works on the utterance that is open when a call
    starts; utterances are counted here, so that they can be told apart whatever
    numbers the manager gives them. */
module V2vTurn {
  import opened Wrappers

  datatype Reason = Vad | ClientEos

  /** `multi`: several utterances per connection; `hasVad`: a frontend VAD is
      configured; `backendPrefers`: the backend does its own endpointing;
      `prepares`: preparations ahead of an endpoint are asked for; `locked`: calls
      into the session manager are serialised, first come first served. */
  datatype Config = Config(multi: bool, hasVad: bool, backendPrefers: bool, prepares: bool, locked: bool)

  /** Where the dispatcher is suspended.  `ended`: this audio frame carried the
      end of speech. */
  datatype Dispatcher =
    | Receiving
    | SendingStart
    | Opening
    | Refusing
    | FeedingPreroll
    | LazyOpening(ended: bool)
    | LazyRefusing
    | Feeding(ended: bool)
    | SendingEnd
    | Aborting

  /** What fired an endpoint (the backend, if no reason is pending), and the
      utterance it was latched for or reported on. */
  datatype Fired = Fired(reason: Option<Reason>, utterance: nat)

  /** Where the ASR output task is suspended.  `target` is the generation read
      before finalizing, `ran` the utterance that finalizing started on. */
  datatype AsrOut =
    | Sleeping
    | TimingOut
    | ReportingTimeout
    | AwaitingPoll
    | Polling(utterance: nat, polled: int)
    | SendingPartial(endpoint: bool, utterance: nat)
    | SendingEndpoint(fired: Fired)
    | Preparing(fired: Fired, target: int)
    | AwaitingFinalize(fired: Fired, target: int)
    | Finalizing(fired: Fired, target: int, ran: nat)
    | Enriching
    | SendingFinal(last: bool)
    | Exited

  datatype State = State(
    // the shared dict
    sessionClosed: bool,
    pending: Option<Reason>,
    pendingGen: Option<int>,
    active: bool,
    gen: int,
    startedOnce: bool,
    clientClosed: bool,
    // the two tasks
    disp: Dispatcher,
    asr: AsrOut,
    /** The dispatcher asked for the lock before the ASR task did. */
    behind: bool,
    // what has happened so far
    opens: nat,
    pendingFor: nat,
    finals: nat)

  datatype VadEvent = Quiet | SpeechStart | SpeechEnd

  /** `may`: whether the stream lets a frontend end of speech finalize it;
      `prepare`: whether a preparation of the same generation is still running. */
  datatype Action =
    | Audio(event: VadEvent, may: bool)
    | Eos | Abort | Disconnect
    | StartSent(bargeOnly: bool, may: bool)
    | OpenDone(newGen: int, preroll: bool, may: bool) | OpenFailed | RefusalSent
    | PrerollFed(may: bool)
    | LazyDone(newGen: int, may: bool) | LazyFailed | LazyRefusalSent
    | Fed(may: bool) | EndSent | AbortDone
    | Tick(timeout: bool, prepare: bool) | TimeoutCancelled | TimeoutReported
    | PollBegins | Polled(endpoint: bool, partial: bool, prepare: bool) | PartialSent(prepare: bool)
    | EndpointSent(prepare: bool) | Prepared | FinalizeBegins
    | Finalized(accepted: bool, idle: bool, enrich: bool) | Enriched | FinalSent

  function Init(): State {
    State(false, None, None, false, 0, false, false, Receiving, Sleeping, false, 0, 0, 0)
  }

  // ---------------------------------------------------------------- dispatcher

  function ClearPending(s: State): State { s.(pending := None, pendingGen := None) }

  /** Latch an endpoint, stamped with the generation it belongs to. */
  function Latch(c: Config, s: State, reason: Reason): State {
    s.(pending := Some(reason), pendingGen := Some(s.gen), pendingFor := s.opens,
       sessionClosed := s.sessionClosed || !c.multi)
  }

  function Open(s: State, newGen: int): State {
    ClearPending(s).(active := true, gen := newGen, startedOnce := true, opens := s.opens + 1)
  }

  function AfterFeed(c: Config, s: State, ended: bool, may: bool): State {
    if !ended then s.(disp := Receiving)
    else (if may then Latch(c, s, Vad) else s).(disp := SendingEnd)
  }

  function AfterOpen(c: Config, s: State, ended: bool, may: bool): State {
    if s.active then s.(disp := Feeding(ended)) else AfterFeed(c, s, ended, may)
  }

  function AfterVad(c: Config, s: State, ended: bool, may: bool): State {
    if (!c.hasVad || c.backendPrefers) && !s.active && s.pending == None && (c.multi || !s.startedOnce) then
      s.(disp := LazyOpening(ended))
    else AfterOpen(c, s, ended, may)
  }

  /** The dispatcher is in, or waits for, a call into the session manager. */
  predicate Calling(d: Dispatcher) {
    d == Opening || d == FeedingPreroll || d.LazyOpening? || d.Feeding? || d == Aborting
  }

  /** The dispatcher's call returns. */
  predicate Returns(a: Action) {
    a.OpenDone? || a.OpenFailed? || a.PrerollFed? || a.LazyDone? || a.LazyFailed? || a.Fed? || a.AbortDone?
  }

  /** The ASR task is in a call, or next in line for one. */
  predicate Blocked(c: Config, s: State) {
    || ((s.asr.AwaitingPoll? || s.asr.AwaitingFinalize?) && !s.behind)
    || (c.locked && (s.asr.Polling? || s.asr.Finalizing?))
  }

  function DispatcherStep(c: Config, s: State, a: Action): Option<State> {
    if !Returns(a) then FrameStep(c, s, a)
    else if Blocked(c, s) then None
    else FrameStep(c, s.(behind := false), a)
  }

  function FrameStep(c: Config, s: State, a: Action): Option<State> {
    match a
    case Audio(event, may) =>
      if s.disp != Receiving || s.clientClosed || (!c.hasVad && event != Quiet) then None
      else if s.sessionClosed || (!c.multi && s.startedOnce && !s.active) then Some(s)
      else if event == SpeechStart then Some(s.(disp := SendingStart))
      else Some(AfterVad(c, s, event == SpeechEnd, may))
    case StartSent(bargeOnly, may) =>
      if s.disp != SendingStart || (bargeOnly && !s.active) then None
      else if !c.multi && s.startedOnce then Some(s.(disp := Receiving))
      else if bargeOnly then Some(AfterVad(c, s, false, may))
      else Some(s.(disp := Opening))
    case OpenDone(newGen, preroll, may) =>
      if s.disp != Opening then None
      else if preroll then Some(Open(s, newGen).(disp := FeedingPreroll))
      else Some(AfterVad(c, Open(s, newGen), false, may))
    case OpenFailed =>
      if s.disp != Opening then None else Some(s.(disp := Refusing))
    case RefusalSent =>
      if s.disp != Refusing then None
      else Some(ClearPending(s).(active := false, disp := Receiving))
    case PrerollFed(may) =>
      if s.disp != FeedingPreroll then None else Some(AfterVad(c, s, false, may))
    case LazyDone(newGen, may) =>
      if !s.disp.LazyOpening? then None
      else Some(AfterOpen(c, Open(s, newGen), s.disp.ended, may))
    case LazyFailed =>
      if !s.disp.LazyOpening? then None else Some(s.(disp := LazyRefusing))
    case LazyRefusalSent =>
      if s.disp != LazyRefusing then None else Some(s.(active := false, disp := Receiving))
    case Fed(may) =>
      if !s.disp.Feeding? then None else Some(AfterFeed(c, s, s.disp.ended, may))
    case EndSent =>
      if s.disp != SendingEnd then None else Some(s.(disp := Receiving))
    case Eos =>
      if s.disp != Receiving || s.clientClosed then None else Some(Latch(c, s, ClientEos))
    case Abort =>
      if s.disp != Receiving || s.clientClosed then None
      else Some(if s.active then s.(disp := Aborting) else s)
    case AbortDone =>
      if s.disp != Aborting then None else Some(s.(active := false, disp := Receiving))
    case Disconnect =>
      if s.disp != Receiving then None else Some(s.(clientClosed := true))
    case _ => None
  }

  // ---------------------------------------------------------------- ASR output

  /** The end of one turn of the loop. */
  function Tail(s: State): State {
    s.(asr := if s.sessionClosed && !s.active then Exited else Sleeping)
  }

  /** Send the final of an utterance; in single-turn mode it is the last thing. */
  function SendFinal(c: Config, s: State): State {
    s.(finals := s.finals + 1, asr := SendingFinal(!c.multi || s.sessionClosed))
  }

  /** Get in line for a call into the session manager. */
  function LineUp(c: Config, s: State, asr: AsrOut): State {
    s.(asr := asr, behind := c.locked && Calling(s.disp))
  }

  /** After the endpoint has been taken: finalize the active utterance, or answer
      an endpoint that has none with an empty final. */
  function Finalize(c: Config, s: State, fired: Fired, prepare: bool): State {
    if !s.active then SendFinal(c, s)
    else if prepare && c.prepares then s.(asr := Preparing(fired, s.gen))
    else LineUp(c, s, AwaitingFinalize(fired, s.gen))
  }

  /** The generation gate: a pending endpoint of another generation is dropped. */
  predicate GateDrops(s: State) {
    s.pending.Some? && s.pendingGen.Some? && s.pendingGen.value != s.gen
  }

  /** `endpoint`: whether the poll of `utterance` reported one. */
  function AfterPoll(c: Config, s: State, endpoint: bool, utterance: nat, prepare: bool): State {
    var gated := if GateDrops(s) then ClearPending(s) else s;
    if gated.pending == None && !(endpoint && gated.active) then Tail(gated)
    else
      var fired := Fired(gated.pending, if gated.pending.Some? then gated.pendingFor else utterance);
      var taken := ClearPending(gated).(sessionClosed := gated.sessionClosed || !c.multi);
      if fired.reason != Some(ClientEos) then taken.(asr := SendingEndpoint(fired))
      else Finalize(c, taken, fired, prepare)
  }

  function AsrStep(c: Config, s: State, a: Action): Option<State> {
    match a
    case Tick(timeout, prepare) =>
      if s.asr != Sleeping then None
      else if s.clientClosed then Some(s.(asr := Exited))
      else if timeout && s.active then Some(s.(asr := TimingOut))
      else if s.active then Some(LineUp(c, s, AwaitingPoll))
      else Some(AfterPoll(c, s, false, 0, prepare))
    case TimeoutCancelled =>
      if s.asr != TimingOut then None
      else Some(ClearPending(s).(active := false, asr := ReportingTimeout))
    case TimeoutReported =>
      if s.asr != ReportingTimeout then None
      else Some(s.(asr := if c.multi && !s.sessionClosed then Sleeping else Exited))
    case PollBegins =>
      if s.asr != AwaitingPoll || s.behind then None else Some(s.(asr := Polling(s.opens, s.gen)))
    case Polled(endpoint, partial, prepare) =>
      if !s.asr.Polling? then None
      // a partial of a replaced utterance is not sent
      else if partial && s.asr.polled == s.gen then Some(s.(asr := SendingPartial(endpoint, s.asr.utterance)))
      else Some(AfterPoll(c, s, endpoint, s.asr.utterance, prepare))
    case PartialSent(prepare) =>
      if !s.asr.SendingPartial? then None
      else Some(AfterPoll(c, s, s.asr.endpoint, s.asr.utterance, prepare))
    case EndpointSent(prepare) =>
      if !s.asr.SendingEndpoint? then None else Some(Finalize(c, s, s.asr.fired, prepare))
    case Prepared =>
      if !s.asr.Preparing? then None
      else Some(LineUp(c, s, AwaitingFinalize(s.asr.fired, s.asr.target)))
    case FinalizeBegins =>
      if !s.asr.AwaitingFinalize? || s.behind then None
      else Some(s.(asr := Finalizing(s.asr.fired, s.asr.target, s.opens)))
    case Finalized(accepted, idle, enrich) =>
      if !s.asr.Finalizing? then None
      else
        var done := if accepted && s.gen == s.asr.target then s.(active := false) else s;
        if !accepted then
          Some((if idle then ClearPending(done).(active := false) else done).(asr := Sleeping))
        else if enrich then Some(done.(asr := Enriching))
        else Some(SendFinal(c, done))
    case Enriched =>
      if s.asr != Enriching then None else Some(SendFinal(c, s))
    case FinalSent =>
      if !s.asr.SendingFinal? then None
      else if s.asr.last then Some(s.(asr := Exited, clientClosed := s.clientClosed || !c.multi))
      else Some(Tail(s))
    case _ => None
  }

  function Step(c: Config, s: State, a: Action): Option<State> {
    var d := DispatcherStep(c, s, a);
    if d.Some? then d else AsrStep(c, s, a)
  }

  function Exec(c: Config, s: State, acts: seq<Action>): Option<State>
    decreases acts
  {
    if acts == [] then Some(s)
    else
      var t := Step(c, s, acts[0]);
      if t.None? then None else Exec(c, t.value, acts[1..])
  }

  ghost predicate Reaches(c: Config, s: State, t: State) {
    exists acts :: Exec(c, s, acts) == Some(t)
  }

  ghost predicate Reachable(c: Config, s: State) { Reaches(c, Init(), s) }

  // ---------------------------------------------------------------- invariants

  predicate Finishing(a: AsrOut) {
    a.SendingEndpoint? || a.Preparing? || a.AwaitingFinalize? || a.Finalizing? || a.Enriching? || a.SendingFinal?
  }

  /** A pending endpoint carries the generation, and belongs to the utterance,
      that is active now. */
  predicate Stamped(s: State) {
    s.pending.Some? ==> s.pendingGen == Some(s.gen) && s.pendingFor == s.opens
  }

  /** The poll or the endpoint in hand is of the last utterance opened. */
  predicate OfTheLast(s: State) {
    match s.asr
    case Polling(utterance, _) => utterance == s.opens
    case SendingPartial(_, utterance) => utterance == s.opens
    case SendingEndpoint(fired) => fired.utterance == s.opens
    case Preparing(fired, _) => fired.utterance == s.opens
    case AwaitingFinalize(fired, _) => fired.utterance == s.opens
    case Finalizing(fired, _, ran) => fired.utterance == ran
    case _ => true
  }

  /** One utterance per connection: nothing is opened after the first open, nor
      once an endpoint has won. */
  predicate SingleTurn(c: Config, s: State) {
    !c.multi ==>
      && s.opens == (if s.startedOnce then 1 else 0)
      && (s.pending.Some? || Finishing(s.asr) ==> s.sessionClosed)
      && (s.disp == Opening || s.disp.LazyOpening? ==> !s.startedOnce && !s.sessionClosed)
      && (s.disp == SendingStart && !s.startedOnce ==> !s.sessionClosed)
      && (s.asr.AwaitingPoll? || s.asr.Polling? || s.asr.SendingPartial? ==> s.startedOnce)
      && OfTheLast(s)
      && (s.finals == 0 || (s.finals == 1 && (s.asr == Exited || s.asr == SendingFinal(true))))
  }

  predicate Inv(c: Config, s: State) {
    && Stamped(s) && SingleTurn(c, s)
    && (s.active || s.disp == FeedingPreroll ==> s.startedOnce)
    && (s.disp.LazyOpening? ==> !s.active)
    && (s.disp == SendingStart || s.disp == Opening ==> c.hasVad)
    && (s.asr.SendingEndpoint? ==> s.asr.fired.reason != Some(ClientEos))
  }

  lemma AfterVadKeepsInv(c: Config, s: State, ended: bool, may: bool)
    requires Inv(c, s.(disp := Receiving)) && (c.multi || s.startedOnce || !s.sessionClosed)
    ensures Inv(c, AfterVad(c, s, ended, may))
  {}

  lemma OpenKeepsInv(c: Config, s: State, newGen: int)
    requires Inv(c, s) && (s.disp == Opening || s.disp.LazyOpening?)
    ensures Inv(c, Open(s, newGen).(disp := FeedingPreroll)) && Inv(c, Open(s, newGen).(disp := Receiving))
  {}

  lemma CallReturns(c: Config, s: State)
    requires Inv(c, s)
    ensures Inv(c, s.(behind := false))
  {}

  lemma OpeningKeepsInv(c: Config, s: State, a: Action)
    requires Inv(c, s) && FrameStep(c, s, a).Some? && (a.OpenDone? || a.LazyDone?)
    ensures Inv(c, FrameStep(c, s, a).value)
  {
    OpenKeepsInv(c, s, a.newGen);
    if a.OpenDone? {
      var begun := Open(s, a.newGen);
      hide Inv;
      AfterVadKeepsInv(c, begun, false, a.may) by { assert begun.startedOnce; }
    } else {
      LazilyOpened(c, Open(s, a.newGen), s.disp.ended, a.may);
    }
    hide AfterVad, AfterFeed, AfterOpen;
  }

  lemma LazilyOpened(c: Config, s: State, ended: bool, may: bool)
    requires Inv(c, s.(disp := Receiving)) && s.active
    ensures Inv(c, AfterOpen(c, s, ended, may))
  {}

  lemma DispatcherKeepsInv(c: Config, s: State, a: Action)
    requires Inv(c, s) && DispatcherStep(c, s, a).Some?
    ensures Inv(c, DispatcherStep(c, s, a).value)
  {
    CallReturns(c, s);
    hide Inv, FrameStep;
    FrameStepKeepsInv(c, if Returns(a) then s.(behind := false) else s, a);
  }

  lemma FrameStepKeepsInv(c: Config, s: State, a: Action)
    requires Inv(c, s) && FrameStep(c, s, a).Some?
    ensures Inv(c, FrameStep(c, s, a).value)
  {
    hide Inv, FrameStep;
    if a.OpenDone? || a.LazyDone? {
      OpeningKeepsInv(c, s, a);
    } else if a.Audio? || a.StartSent? || a.PrerollFed? {
      FrameKeepsInv(c, s, a);
    } else {
      OtherKeepsInv(c, s, a);
    }
  }

  lemma FrameKeepsInv(c: Config, s: State, a: Action)
    requires Inv(c, s) && FrameStep(c, s, a).Some? && (a.Audio? || a.StartSent? || a.PrerollFed?)
    ensures Inv(c, FrameStep(c, s, a).value)
  {
    var ended := a.Audio? && a.event == SpeechEnd;
    if c.multi || s.startedOnce || !s.sessionClosed { AfterVadKeepsInv(c, s, ended, a.may); }
    hide AfterVad, OfTheLast, AfterOpen, Open;
  }

  predicate Other(a: Action) {
    !a.OpenDone? && !a.LazyDone? && !a.Audio? && !a.StartSent? && !a.PrerollFed?
  }

  /** What the other dispatcher steps leave alone. */
  predicate SameTurn(s: State, t: State) {
    && t.asr == s.asr && t.opens == s.opens && t.finals == s.finals && t.startedOnce == s.startedOnce
    && t.gen == s.gen && (t.active ==> s.active) && (s.sessionClosed ==> t.sessionClosed)
  }

  predicate Starting(d: Dispatcher) { d == SendingStart || d == Opening || d.LazyOpening? || d == FeedingPreroll }

  lemma OtherFrame(c: Config, s: State, a: Action)
    requires FrameStep(c, s, a).Some? && Other(a)
    ensures SameTurn(s, FrameStep(c, s, a).value)
  {
    if a.Fed? { FedFrame(c, s, a); } else { QuietFrame(c, s, a); }
    hide FrameStep, SameTurn;
  }

  lemma FedFrame(c: Config, s: State, a: Action)
    requires FrameStep(c, s, a).Some? && a.Fed?
    ensures SameTurn(s, FrameStep(c, s, a).value)
  {
    var t := AfterFeed(c, s, s.disp.ended, a.may);
    assert FrameStep(c, s, a) == Some(t) by { hide AfterFeed; }
    hide FrameStep;
  }

  lemma QuietFrame(c: Config, s: State, a: Action)
    requires FrameStep(c, s, a).Some? && Other(a) && !a.Fed?
    ensures SameTurn(s, FrameStep(c, s, a).value)
  {
    hide AfterVad, AfterOpen, AfterFeed, Open;
  }

  lemma OtherPending(c: Config, s: State, a: Action)
    requires FrameStep(c, s, a).Some? && Other(a)
    ensures var t := FrameStep(c, s, a).value;
            t.pending.Some? ==>
              (t.pending == s.pending && t.pendingGen == s.pendingGen && t.pendingFor == s.pendingFor)
              || (t.pendingGen == Some(s.gen) && t.pendingFor == s.opens && (t.sessionClosed || c.multi))
  {
    hide AfterVad, AfterOpen, Open;
  }

  lemma OtherPlace(c: Config, s: State, a: Action)
    requires FrameStep(c, s, a).Some? && Other(a)
    ensures var t := FrameStep(c, s, a).value;
            !Starting(t.disp) || (t.disp == s.disp && t.active == s.active && t.sessionClosed == s.sessionClosed)
  {
    hide AfterVad, AfterOpen, Open;
  }

  lemma OtherKeepsInv(c: Config, s: State, a: Action)
    requires Inv(c, s) && FrameStep(c, s, a).Some?
    requires Other(a)
    ensures Inv(c, FrameStep(c, s, a).value)
  {
    OtherFrame(c, s, a);
    OtherPending(c, s, a);
    OtherPlace(c, s, a);
    hide FrameStep;
  }

  lemma FinalizeKeepsInv(c: Config, s: State, fired: Fired, prepare: bool)
    requires Inv(c, s.(asr := Sleeping))
    requires c.multi || (s.sessionClosed && s.finals == 0 && fired.utterance == s.opens)
    ensures Inv(c, Finalize(c, s, fired, prepare))
  {
    hide Calling;
  }

  lemma AfterPollKeepsInv(c: Config, s: State, endpoint: bool, utterance: nat, prepare: bool)
    requires Inv(c, s) && (s.asr == Sleeping || s.asr.Polling? || s.asr.SendingPartial?)
    requires c.multi || utterance == s.opens || !endpoint
    ensures Inv(c, AfterPoll(c, s, endpoint, utterance, prepare))
  {
    assert !GateDrops(s);
    var taken := ClearPending(s).(sessionClosed := s.sessionClosed || !c.multi);
    if s.pending == Some(ClientEos) {
      FinalizeKeepsInv(c, taken, Fired(s.pending, s.pendingFor), prepare);
      hide Finalize;
    }
  }

  lemma AnswerKeepsInv(c: Config, s: State, a: Action)
    requires Inv(c, s) && AsrStep(c, s, a).Some?
    requires !a.Tick? && !a.Polled? && !a.PartialSent? && !a.EndpointSent?
    ensures Inv(c, AsrStep(c, s, a).value)
  {
    hide AsrStep, Inv;
    if a == PollBegins || a == Prepared || a == FinalizeBegins {
      CallKeepsInv(c, s, a);
    } else if a.Finalized? {
      FinalizedKeepsInv(c, s, a);
    } else {
      SentKeepsInv(c, s, a);
    }
  }

  lemma CallKeepsInv(c: Config, s: State, a: Action)
    requires Inv(c, s) && AsrStep(c, s, a).Some? && (a == PollBegins || a == Prepared || a == FinalizeBegins)
    ensures Inv(c, AsrStep(c, s, a).value)
  {
    hide Finalize, AfterPoll, Calling;
  }

  /** A finalize has returned; the turn goes on without an endpoint in hand, or
      answers with a final. */
  predicate HasReturned(c: Config, s: State, t: State) {
    && t == s.(active := t.active, pending := t.pending, pendingGen := t.pendingGen, asr := t.asr, finals := t.finals)
    && (t.active ==> s.active)
    && (t.pending == None || (t.pending == s.pending && t.pendingGen == s.pendingGen))
    && (|| (t.finals == s.finals && (t.asr == Sleeping || t.asr == Enriching))
        || (t.finals == s.finals + 1 && t.asr == SendingFinal(!c.multi || s.sessionClosed)))
  }

  lemma ReturnKeepsInv(c: Config, s: State, t: State)
    requires Inv(c, s) && s.asr.Finalizing? && HasReturned(c, s, t)
    ensures Inv(c, t)
  {}

  lemma FinalizedFields(c: Config, s: State, a: Action)
    requires AsrStep(c, s, a).Some? && a.Finalized?
    ensures s.asr.Finalizing? && HasReturned(c, s, AsrStep(c, s, a).value)
  {
    hide HasReturned;
    if a.accepted { AcceptedFields(c, s, a); } else { DiscardedFields(c, s, a); }
    hide Finalize, AfterPoll, Calling, Tail, SendFinal;
  }

  lemma AcceptedFields(c: Config, s: State, a: Action)
    requires AsrStep(c, s, a).Some? && a.Finalized? && a.accepted
    ensures HasReturned(c, s, AsrStep(c, s, a).value)
  {
    var done := if s.asr.Finalizing? && s.gen == s.asr.target then s.(active := false) else s;
    assert AsrStep(c, s, a) == Some(if a.enrich then done.(asr := Enriching) else SendFinal(c, done)) by {
      hide Finalize, AfterPoll, Calling, Tail, SendFinal;
    }
    hide AsrStep;
  }

  lemma DiscardedFields(c: Config, s: State, a: Action)
    requires AsrStep(c, s, a).Some? && a.Finalized? && !a.accepted
    ensures HasReturned(c, s, AsrStep(c, s, a).value)
  {
    hide Finalize, AfterPoll, Calling, Tail, SendFinal;
  }

  lemma FinalizedKeepsInv(c: Config, s: State, a: Action)
    requires Inv(c, s) && AsrStep(c, s, a).Some? && a.Finalized?
    ensures Inv(c, AsrStep(c, s, a).value)
  {
    hide Inv, AsrStep, HasReturned;
    FinalizedFields(c, s, a);
    ReturnKeepsInv(c, s, AsrStep(c, s, a).value);
  }

  lemma SentKeepsInv(c: Config, s: State, a: Action)
    requires Inv(c, s) && AsrStep(c, s, a).Some?
    requires a == TimeoutCancelled || a == TimeoutReported || a == Enriched || a == FinalSent || Returns(a) || a.Audio?
             || a.Eos? || a.Abort? || a.Disconnect? || a.StartSent? || a.RefusalSent? || a.LazyRefusalSent? || a.EndSent?
    ensures Inv(c, AsrStep(c, s, a).value)
  {
    hide Finalize, AfterPoll, Calling;
  }

  lemma TickKeepsInv(c: Config, s: State, timeout: bool, prepare: bool)
    requires Inv(c, s) && AsrStep(c, s, Tick(timeout, prepare)).Some?
    ensures Inv(c, AsrStep(c, s, Tick(timeout, prepare)).value)
  {
    AfterPollKeepsInv(c, s, false, 0, prepare);
    hide AfterPoll, Calling;
  }

  lemma AsrKeepsInv(c: Config, s: State, a: Action)
    requires Inv(c, s) && AsrStep(c, s, a).Some?
    ensures Inv(c, AsrStep(c, s, a).value)
  {
    match a {
      case Tick(timeout, prepare) =>
        TickKeepsInv(c, s, timeout, prepare);
      case Polled(endpoint, _, prepare) =>
        AfterPollKeepsInv(c, s, endpoint, s.asr.utterance, prepare);
        hide AfterPoll;
      case PartialSent(prepare) =>
        AfterPollKeepsInv(c, s, s.asr.endpoint, s.asr.utterance, prepare);
        hide AfterPoll, Inv;
      case EndpointSent(prepare) =>
        FinalizeKeepsInv(c, s, s.asr.fired, prepare);
        hide Finalize, Inv;
      case _ =>
        hide Inv, AfterPoll, Finalize, SendFinal;
        AnswerKeepsInv(c, s, a);
    }
  }

  lemma StepKeepsInv(c: Config, s: State, a: Action)
    requires Inv(c, s) && Step(c, s, a).Some?
    ensures Inv(c, Step(c, s, a).value)
  {
    hide Inv, DispatcherStep, AsrStep;
    if DispatcherStep(c, s, a).Some? {
      DispatcherKeepsInv(c, s, a);
    } else {
      AsrKeepsInv(c, s, a);
    }
  }

  lemma {:induction false} ExecKeepsInv(c: Config, s: State, acts: seq<Action>)
    requires Inv(c, s) && Exec(c, s, acts).Some?
    ensures Inv(c, Exec(c, s, acts).value)
    decreases acts
  {
    hide Inv, Step;
    if acts != [] {
      StepKeepsInv(c, s, acts[0]);
      ExecKeepsInv(c, Step(c, s, acts[0]).value, acts[1..]);
    }
  }

  lemma ReachableInv(c: Config, s: State)
    requires Reachable(c, s)
    ensures Inv(c, s)
  {
    var acts :| Exec(c, Init(), acts) == Some(s);
    ExecKeepsInv(c, Init(), acts);
  }

  // ---------------------------------------------------------------- results

  /** At every await of either task a pending endpoint is stamped with the active
      generation and belongs to the last utterance opened; so the gate never has
      anything to drop. */
  lemma PendingIsCurrent(c: Config, s: State)
    requires Reachable(c, s)
    ensures s.pending.Some? ==> s.pendingGen == Some(s.gen) && s.pendingFor == s.opens
    ensures !GateDrops(s)
  {
    ReachableInv(c, s);
  }

  /** A single-turn connection opens at most one ASR stream and answers with at
      most one final, however frames, refusals, timeouts and endpoints interleave. */
  lemma SingleTurnOnce(c: Config, s: State)
    requires Reachable(c, s) && !c.multi
    ensures s.opens <= 1 && s.finals <= 1
  {
    ReachableInv(c, s);
  }

  /** An utterance is being finalized because of its own endpoint. */
  predicate RightUtterance(s: State) {
    s.asr.Finalizing? ==> s.asr.ran == s.asr.fired.utterance
  }

  // ---------------------------------------------------------------- building runs

  lemma {:induction false} ExecAppend(c: Config, s: State, a: seq<Action>, b: seq<Action>)
    requires Exec(c, s, a).Some?
    ensures Exec(c, s, a + b) == Exec(c, Exec(c, s, a).value, b)
    decreases a
  {
    hide Step;
    if a == [] {
      assert a + b == b;
    } else {
      assert (a + b)[1..] == a[1..] + b;
      ExecAppend(c, Step(c, s, a[0]).value, a[1..], b);
    }
  }

  lemma ReachesTrans(c: Config, s: State, t: State, u: State)
    requires Reaches(c, s, t) && Reaches(c, t, u)
    ensures Reaches(c, s, u)
  {
    var a :| Exec(c, s, a) == Some(t);
    var b :| Exec(c, t, b) == Some(u);
    ExecAppend(c, s, a, b);
    assert Exec(c, s, a + b) == Some(u);
  }

  lemma ReachesStep(c: Config, s: State, t: State, a: Action, u: State)
    requires Reaches(c, s, t) && Step(c, t, a) == Some(u)
    ensures Reaches(c, s, u)
  {
    hide Step;
    assert [a][1..] == [];
    assert Exec(c, t, [a]) == Some(u);
    ReachesTrans(c, s, t, u);
  }

  /** A run goes on with a frame, or with something sent to the client. */
  lemma Hears(c: Config, s: State, t: State, a: Action, u: State)
    requires Reaches(c, s, t) && !Returns(a) && FrameStep(c, t, a) == Some(u)
    ensures Reaches(c, s, u)
  {
    hide FrameStep, Reaches;
    assert DispatcherStep(c, t, a) == Some(u);
    ReachesStep(c, s, t, a, u);
  }

  /** A run goes on with the return of a call of the dispatcher. */
  lemma CallBack(c: Config, s: State, t: State, a: Action, u: State)
    requires Reaches(c, s, t) && Returns(a) && !Blocked(c, t) && FrameStep(c, t.(behind := false), a) == Some(u)
    ensures Reaches(c, s, u)
  {
    hide FrameStep, Reaches;
    assert DispatcherStep(c, t, a) == Some(u);
    ReachesStep(c, s, t, a, u);
  }

  predicate Answers(a: Action) {
    a.Tick? || a == PollBegins || a.Polled? || a.PartialSent? || a.EndpointSent? || a == Prepared || a == FinalizeBegins
  }

  /** A run goes on with a step of the ASR output task. */
  lemma Answered(c: Config, s: State, t: State, a: Action, u: State)
    requires Reaches(c, s, t) && Answers(a) && AsrStep(c, t, a) == Some(u)
    ensures Reaches(c, s, u)
  {
    hide AsrStep, Reaches;
    assert DispatcherStep(c, t, a) == None by { hide AfterVad, AfterOpen, AfterFeed, Open, Latch; }
    ReachesStep(c, s, t, a, u);
  }

  lemma ReachesSelf(c: Config, s: State)
    ensures Reaches(c, s, s)
  {
    assert Exec(c, s, []) == Some(s);
  }

  function FirstOpen(): State {
    Init().(active := true, gen := 1, startedOnce := true, opens := 1)
  }

  /** The first utterance: opened by the frontend VAD if there is one, otherwise
      by the first audio. */
  lemma OpenFirst(c: Config)
    ensures Reachable(c, FirstOpen())
  {
    var fed := FirstOpen().(disp := Feeding(false));
    if c.hasVad { OpenByVad(c, fed); } else { OpenByAudio(c, fed); }
    hide Reaches;
    CallBack(c, Init(), fed, Fed(true), FirstOpen());
  }

  lemma OpenByVad(c: Config, fed: State)
    requires c.hasVad && fed == FirstOpen().(disp := Feeding(false))
    ensures Reachable(c, fed)
  {
    hide Reaches;
    var s0 := Init();
    var s1, s2 := s0.(disp := SendingStart), s0.(disp := Opening);
    ReachesSelf(c, s0);
    Hears(c, s0, s0, Audio(SpeechStart, true), s1);
    Hears(c, s0, s1, StartSent(false, true), s2);
    CallBack(c, s0, s2, OpenDone(1, false, true), fed);
  }

  lemma OpenByAudio(c: Config, fed: State)
    requires !c.hasVad && fed == FirstOpen().(disp := Feeding(false))
    ensures Reachable(c, fed)
  {
    hide Reaches;
    var s0 := Init();
    var s1 := s0.(disp := LazyOpening(false));
    ReachesSelf(c, s0);
    Hears(c, s0, s0, Audio(Quiet, true), s1);
    CallBack(c, s0, s1, LazyDone(1, true), fed);
  }

  /** The ASR task is between two calls, with an utterance active and no endpoint
      pending. */
  predicate Overtakable(c: Config, s: State) {
    && c.multi && s.disp == Receiving && s.active && s.startedOnce && !s.sessionClosed && !s.clientClosed
    && s.pending == None && s.pendingGen == None && !s.behind
    && (s.asr.SendingPartial? || s.asr.SendingEndpoint? || s.asr.Preparing?)
  }

  /** Another utterance is opened: by a new speech start, or by audio after a
      barge-in. */
  lemma OpenAnother(c: Config, s: State) returns (t: State)
    requires Overtakable(c, s)
    ensures Reaches(c, s, t) && t == s.(gen := 2, opens := s.opens + 1)
  {
    hide Reaches;
    t := s.(gen := 2, opens := s.opens + 1);
    var fed := t.(disp := Feeding(false));
    ReachesSelf(c, s);
    if c.hasVad {
      var s1, s2 := s.(disp := SendingStart), s.(disp := Opening);
      Hears(c, s, s, Audio(SpeechStart, true), s1);
      Hears(c, s, s1, StartSent(false, true), s2);
      CallBack(c, s, s2, OpenDone(2, false, true), fed);
    } else {
      BargeIn(c, s, fed);
    }
    CallBack(c, s, fed, Fed(true), t);
  }

  lemma BargeIn(c: Config, s: State, fed: State)
    requires Overtakable(c, s) && !c.hasVad && fed == s.(gen := 2, opens := s.opens + 1, disp := Feeding(false))
    ensures Reaches(c, s, fed)
  {
    hide Reaches;
    ReachesSelf(c, s);
    var s1, s2, s3 := s.(disp := Aborting), s.(active := false), s.(active := false, disp := LazyOpening(false));
    Hears(c, s, s, Abort, s1);
    CallBack(c, s, s1, AbortDone, s2);
    Hears(c, s, s2, Audio(Quiet, true), s3);
    CallBack(c, s, s3, LazyDone(2, true), fed);
  }

  /** A poll of the first utterance is over. */
  lemma PollFirst(c: Config, eos: bool) returns (s: State)
    ensures Reachable(c, s)
    ensures var one := if eos then Latch(c, FirstOpen(), ClientEos) else FirstOpen(); s == one.(asr := Polling(1, 1))
  {
    hide Reaches;
    var one := FirstOpen();
    OpenFirst(c);
    if eos {
      one := Latch(c, one, ClientEos);
      Hears(c, Init(), FirstOpen(), Eos, one);
    }
    var s1 := one.(asr := AwaitingPoll);
    s := one.(asr := Polling(1, 1));
    Answered(c, Init(), one, Tick(false, false), s1);
    Answered(c, Init(), s1, PollBegins, s);
  }

  lemma FinalizeNow(c: Config, s: State) returns (t: State)
    requires Reachable(c, s) && s.asr.AwaitingFinalize? && !s.behind
    ensures Reachable(c, t) && t == s.(asr := Finalizing(s.asr.fired, s.asr.target, s.opens))
  {
    hide Reaches;
    t := s.(asr := Finalizing(s.asr.fired, s.asr.target, s.opens));
    Answered(c, Init(), s, FinalizeBegins, t);
  }

  /** The backend's endpoint of one utterance is announced to the client while
      another is opened, and then finalizes that one. */
  lemma OvertakenAtTheAnnouncement(c: Config) returns (s: State)
    requires c.multi
    ensures Reachable(c, s) && s.asr.Finalizing? && !RightUtterance(s)
  {
    hide Reaches, FrameStep;
    var s0 := PollFirst(c, false);
    var fired := Fired(None, 1);
    var s1 := s0.(asr := SendingEndpoint(fired));
    Answered(c, Init(), s0, Polled(true, false, false), s1);
    var s2 := OpenAnother(c, s1);
    ReachesTrans(c, Init(), s1, s2);
    var s3 := s2.(asr := AwaitingFinalize(fired, 2));
    Answered(c, Init(), s2, EndpointSent(false), s3);
    s := FinalizeNow(c, s3);
  }

  /** An endpoint reported on one utterance is taken for another that was opened
      while a partial was being sent. */
  lemma OvertakenAtThePartial(c: Config) returns (s: State)
    requires c.multi
    ensures Reachable(c, s) && s.asr.SendingEndpoint? && s.active && s.asr.fired.utterance < s.opens
  {
    hide Reaches, FrameStep;
    var s0 := PollFirst(c, false);
    var s1 := s0.(asr := SendingPartial(true, 1));
    Answered(c, Init(), s0, Polled(true, true, false), s1);
    var s2 := OpenAnother(c, s1);
    ReachesTrans(c, Init(), s1, s2);
    s := s2.(asr := SendingEndpoint(Fired(None, 1)));
    Answered(c, Init(), s2, PartialSent(false), s);
  }

  /** A client's end of stream waits for a preparation while another utterance is
      opened, and then finalizes that one. */
  lemma OvertakenAtThePreparation(c: Config) returns (s: State)
    requires c.multi && c.prepares
    ensures Reachable(c, s) && s.asr.Finalizing? && s.asr.fired.reason == Some(ClientEos) && !RightUtterance(s)
  {
    hide Reaches, FrameStep;
    var s0 := PollFirst(c, true);
    var fired := Fired(Some(ClientEos), 1);
    var s1 := FirstOpen().(pendingFor := 1, asr := Preparing(fired, 1));
    Answered(c, Init(), s0, Polled(false, false, true), s1);
    var s2 := OpenAnother(c, s1);
    ReachesTrans(c, Init(), s1, s2);
    var s3 := s2.(asr := AwaitingFinalize(fired, 1));
    Answered(c, Init(), s2, Prepared, s3);
    s := FinalizeNow(c, s3);
  }

  /** A client's end of stream is in line behind the opening of another utterance,
      and then finalizes that one. */
  lemma OvertakenAtTheLock(c: Config) returns (s: State)
    requires c.multi && c.locked && c.hasVad
    ensures Reachable(c, s) && s.asr.Finalizing? && s.asr.fired.reason == Some(ClientEos) && !RightUtterance(s)
  {
    hide Reaches, AsrStep;
    var s0 := InLineBehindAnOpen(c);
    var s1 := s0.(gen := 2, opens := 2, disp := Feeding(false), behind := false);
    CallBack(c, Init(), s0, OpenDone(2, false, true), s1);
    s := FinalizeNow(c, s1);
  }

  lemma InLineBehindAnOpen(c: Config) returns (s: State)
    requires c.multi && c.locked && c.hasVad
    ensures Reachable(c, s)
    ensures s == FirstOpen().(pendingFor := 1, disp := Opening,
                              asr := AwaitingFinalize(Fired(Some(ClientEos), 1), 1), behind := true)
  {
    hide Reaches;
    var s0 := PollFirst(c, true);
    var s1 := s0.(asr := SendingPartial(false, 1));
    Answered(c, Init(), s0, Polled(false, true, false), s1) by { hide FrameStep; }
    var s3 := s1.(disp := Opening);
    OpeningBegins(c, s1, s3);
    s := FirstOpen().(pendingFor := 1, disp := Opening,
                      asr := AwaitingFinalize(Fired(Some(ClientEos), 1), 1), behind := true);
    hide FrameStep;
    Answered(c, Init(), s3, PartialSent(false), s);
  }

  lemma OpeningBegins(c: Config, s: State, t: State)
    requires c.multi && c.hasVad && Reachable(c, s) && s.disp == Receiving && !s.clientClosed && !s.sessionClosed
    requires t == s.(disp := Opening)
    ensures Reachable(c, t)
  {
    hide Reaches, AsrStep;
    var s1 := s.(disp := SendingStart);
    Hears(c, Init(), s, Audio(SpeechStart, true), s1);
    Hears(c, Init(), s1, StartSent(false, true), t);
  }

  // ---------------------------------------------------------------- which endpoints hit their utterance

  /** Whether an endpoint can finalize another utterance than its own is decided
      by the connection's mode: never with a single turn, and in some interleaving
      as soon as several utterances share the connection. */
  lemma EndpointTargetExact(c: Config)
    ensures (forall s :: Reachable(c, s) ==> RightUtterance(s)) <==> !c.multi
  {
    if c.multi {
      var s := OvertakenAtTheAnnouncement(c);
    } else {
      forall s | Reachable(c, s) ensures RightUtterance(s) { ReachableInv(c, s); }
    }
  }

  /** Nothing that can open an utterance comes between taking a client's end of
      stream and finalizing. */
  predicate EosIsSafe(c: Config) {
    !c.multi || (!c.prepares && !(c.locked && c.hasVad))
  }

  predicate EosInv(s: State) {
    match s.asr
    case Preparing(fired, _) => fired.reason != Some(ClientEos)
    case AwaitingFinalize(fired, _) =>
      fired.reason == Some(ClientEos) ==>
        fired.utterance == s.opens
        && (s.behind ==> Calling(s.disp) && s.disp != Opening && !s.disp.LazyOpening?)
    case Finalizing(fired, _, ran) => fired.reason == Some(ClientEos) ==> ran == fired.utterance
    case _ => true
  }

  lemma FrameKeepsEos(c: Config, s: State, a: Action)
    requires Inv(c, s) && EosInv(s) && EosIsSafe(c) && c.multi && DispatcherStep(c, s, a).Some?
    ensures EosInv(DispatcherStep(c, s, a).value)
  {
    FrameEffect(c, if Returns(a) then s.(behind := false) else s, a);
    hide FrameStep;
  }

  /** The dispatcher opens an utterance only when a call of its own returns, and
      begins a call only when it was in none. */
  lemma FrameEffect(c: Config, s: State, a: Action)
    requires FrameStep(c, s, a).Some?
    ensures var t := FrameStep(c, s, a).value;
            && t.asr == s.asr && t.behind == s.behind
            && (t.opens == s.opens || (a.OpenDone? && s.disp == Opening) || (a.LazyDone? && s.disp.LazyOpening?))
            && (Calling(s.disp) ==> Returns(a))
  {
    if Other(a) { OtherEffect(c, s, a); } else { TurnEffect(c, s, a); }
    hide FrameStep;
  }

  lemma OtherEffect(c: Config, s: State, a: Action)
    requires FrameStep(c, s, a).Some? && Other(a)
    ensures var t := FrameStep(c, s, a).value;
            t.asr == s.asr && t.behind == s.behind && t.opens == s.opens && (Calling(s.disp) ==> Returns(a))
  {
    OtherFrame(c, s, a);
    OtherCalls(c, s, a);
    hide FrameStep;
  }

  lemma OtherCalls(c: Config, s: State, a: Action)
    requires FrameStep(c, s, a).Some? && Other(a)
    ensures FrameStep(c, s, a).value.behind == s.behind && (Calling(s.disp) ==> Returns(a))
  {
    hide AfterVad, AfterOpen, Open;
  }

  lemma TurnEffect(c: Config, s: State, a: Action)
    requires FrameStep(c, s, a).Some? && !Other(a)
    ensures var t := FrameStep(c, s, a).value;
            && t.asr == s.asr && t.behind == s.behind
            && (t.opens == s.opens || (a.OpenDone? && s.disp == Opening) || (a.LazyDone? && s.disp.LazyOpening?))
            && (Calling(s.disp) ==> Returns(a))
  {
    if a.OpenDone? || a.LazyDone? { OpenEffect(c, s, a); } else { HearEffect(c, s, a); }
    hide FrameStep;
  }

  lemma OpenEffect(c: Config, s: State, a: Action)
    requires FrameStep(c, s, a).Some? && (a.OpenDone? || a.LazyDone?)
    ensures var t := FrameStep(c, s, a).value;
            && t.asr == s.asr && t.behind == s.behind
            && ((a.OpenDone? && s.disp == Opening) || (a.LazyDone? && s.disp.LazyOpening?))
  {
    hide AfterVad;
    AfterVadFrame(c);
  }

  lemma HearEffect(c: Config, s: State, a: Action)
    requires FrameStep(c, s, a).Some? && (a.Audio? || a.StartSent? || a.PrerollFed?)
    ensures var t := FrameStep(c, s, a).value;
            t.asr == s.asr && t.behind == s.behind && t.opens == s.opens && (Calling(s.disp) ==> Returns(a))
  {
    hide AfterVad, AfterOpen, Open;
    AfterVadFrame(c);
  }

  lemma AfterVadFrame(c: Config)
    ensures forall v: State, ended: bool, may: bool ::
              AfterVad(c, v, ended, may).asr == v.asr && AfterVad(c, v, ended, may).behind == v.behind
              && AfterVad(c, v, ended, may).opens == v.opens
  {}

  lemma FinalizeKeepsEos(c: Config, s: State, fired: Fired, prepare: bool)
    requires EosIsSafe(c) && c.multi && fired.utterance == s.opens
    requires (s.disp.LazyOpening? ==> !s.active) && (s.disp == Opening ==> c.hasVad)
    ensures EosInv(Finalize(c, s, fired, prepare))
  {}

  lemma AfterPollKeepsEos(c: Config, s: State, endpoint: bool, utterance: nat, prepare: bool)
    requires Inv(c, s) && EosIsSafe(c) && c.multi
    requires s.asr == Sleeping || s.asr.Polling? || s.asr.SendingPartial?
    ensures EosInv(AfterPoll(c, s, endpoint, utterance, prepare))
  {
    hide SingleTurn, EosIsSafe, Finalize;
    if s.pending == Some(ClientEos) {
      FinalizeKeepsEos(c, ClearPending(s), Fired(s.pending, s.pendingFor), prepare);
      assert ClearPending(s).(sessionClosed := s.sessionClosed || !c.multi) == ClearPending(s);
    }
  }

  lemma AsrKeepsEos(c: Config, s: State, a: Action)
    requires Inv(c, s) && EosInv(s) && EosIsSafe(c) && c.multi && AsrStep(c, s, a).Some?
    ensures EosInv(AsrStep(c, s, a).value)
  {
    if a.Tick? {
      if s.asr == Sleeping { AfterPollKeepsEos(c, s, false, 0, a.prepare); }
      hide AfterPoll, Inv, EosIsSafe, Calling;
    } else if a.Polled? {
      if s.asr.Polling? { AfterPollKeepsEos(c, s, a.endpoint, s.asr.utterance, a.prepare); }
      hide AfterPoll, Inv, EosIsSafe, Calling;
    } else if a.PartialSent? {
      if s.asr.SendingPartial? { AfterPollKeepsEos(c, s, s.asr.endpoint, s.asr.utterance, a.prepare); }
      hide AfterPoll, Inv, EosIsSafe, Calling;
    } else {
      AnswerKeepsEos(c, s, a);
      hide AsrStep, Inv;
    }
  }

  lemma AnswerKeepsEos(c: Config, s: State, a: Action)
    requires Inv(c, s) && EosInv(s) && EosIsSafe(c) && c.multi && AsrStep(c, s, a).Some?
    requires !a.Tick? && !a.Polled? && !a.PartialSent?
    ensures EosInv(AsrStep(c, s, a).value)
  {
    hide SingleTurn, AfterPoll, Stamped;
  }

  lemma {:induction false} ExecKeepsEos(c: Config, s: State, acts: seq<Action>)
    requires Inv(c, s) && EosInv(s) && EosIsSafe(c) && c.multi && Exec(c, s, acts).Some?
    ensures EosInv(Exec(c, s, acts).value)
    decreases acts
  {
    hide Inv, EosInv, DispatcherStep, AsrStep, EosIsSafe;
    if acts != [] {
      var t := Step(c, s, acts[0]).value;
      StepKeepsInv(c, s, acts[0]);
      if DispatcherStep(c, s, acts[0]).Some? {
        FrameKeepsEos(c, s, acts[0]);
      } else {
        AsrKeepsEos(c, s, acts[0]);
      }
      ExecKeepsEos(c, t, acts[1..]);
    }
  }

  /** A client's end of stream always finalizes the utterance it was sent for
      exactly when the connection is single-turn, or no preparation is ever waited
      for and no utterance can be opened by a frontend VAD ahead in the line. */
  lemma ClientEosExact(c: Config)
    ensures (forall s :: Reachable(c, s) && s.asr.Finalizing? && s.asr.fired.reason == Some(ClientEos) ==> RightUtterance(s))
            <==> EosIsSafe(c)
  {
    if !EosIsSafe(c) {
      if c.prepares {
        var s := OvertakenAtThePreparation(c);
      } else {
        var s := OvertakenAtTheLock(c);
      }
    } else if c.multi {
      forall s | Reachable(c, s) && s.asr.Finalizing? && s.asr.fired.reason == Some(ClientEos)
        ensures RightUtterance(s)
      {
        var acts :| Exec(c, Init(), acts) == Some(s);
        ExecKeepsEos(c, Init(), acts);
      }
    } else {
      EndpointTargetExact(c);
    }
  }

  // ---------------------------------------------------------------- a finalize that returns late

  /** Steps that neither take a turn away nor begin another finalize, and opens
      that return another number than the one being finalized. */
  predicate Spares(a: Action, target: int) {
    match a
    case AbortDone => false
    case RefusalSent => false
    case LazyRefusalSent => false
    case TimeoutCancelled => false
    case FinalizeBegins => false
    case Finalized(accepted, idle, _) => accepted || !idle
    case OpenDone(newGen, _, _) => newGen != target
    case LazyDone(newGen, _) => newGen != target
    case _ => true
  }

  predicate AllSpare(acts: seq<Action>, target: int) {
    forall i :: 0 <= i < |acts| ==> Spares(acts[i], target)
  }

  /** The open utterance is not the one that the finalize under way was for. */
  predicate Newer(s: State, target: int) {
    s.active && (s.asr.Finalizing? ==> s.asr.target == target && s.gen != target)
  }

  predicate SameTarget(s: State, target: int) { s.asr.Finalizing? ==> s.asr.target == target }

  lemma StepKeepsNewer(c: Config, s: State, a: Action, target: int)
    requires SameTarget(s, target) && Spares(a, target) && Step(c, s, a).Some?
    ensures var t := Step(c, s, a).value;
            SameTarget(t, target) && (Newer(s, target) || a.OpenDone? || a.LazyDone? ==> Newer(t, target))
  {
    var d := DispatcherStep(c, s, a);
    if d.Some? {
      hide AsrStep;
      FrameActive(c, if Returns(a) then s.(behind := false) else s, a);
      FrameEffect(c, if Returns(a) then s.(behind := false) else s, a);
      hide FrameStep;
    } else {
      hide DispatcherStep;
      AsrActive(c, s, a);
      hide AsrStep;
    }
  }

  lemma FrameActive(c: Config, s: State, a: Action)
    requires FrameStep(c, s, a).Some? && a != AbortDone && a != RefusalSent && a != LazyRefusalSent
    ensures var t := FrameStep(c, s, a).value;
            if a.OpenDone? || a.LazyDone? then t.active && t.gen == a.newGen else t.active == s.active && t.gen == s.gen
  {
    hide AfterVad;
    assert forall v: State, ended: bool, may: bool ::
        AfterVad(c, v, ended, may).active == v.active && AfterVad(c, v, ended, may).gen == v.gen by { AfterVadActive(c); }
  }

  lemma AfterVadActive(c: Config)
    ensures forall v: State, ended: bool, may: bool ::
              AfterVad(c, v, ended, may).active == v.active && AfterVad(c, v, ended, may).gen == v.gen
  {}

  lemma FinalizeActive(c: Config, s: State, fired: Fired, prepare: bool)
    ensures var t := Finalize(c, s, fired, prepare); t.gen == s.gen && t.active == s.active && !t.asr.Finalizing?
  {
    hide Calling;
  }

  lemma AfterPollActive(c: Config, s: State, endpoint: bool, utterance: nat, prepare: bool)
    ensures var t := AfterPoll(c, s, endpoint, utterance, prepare);
            t.gen == s.gen && t.active == s.active && !t.asr.Finalizing?
  {
    var gated := if GateDrops(s) then ClearPending(s) else s;
    var fired := Fired(gated.pending, if gated.pending.Some? then gated.pendingFor else utterance);
    FinalizeActive(c, ClearPending(gated).(sessionClosed := gated.sessionClosed || !c.multi), fired, prepare);
    hide Finalize, GateDrops;
  }

  lemma AsrActive(c: Config, s: State, a: Action)
    requires AsrStep(c, s, a).Some? && a != TimeoutCancelled && a != FinalizeBegins
    requires a.Finalized? ==> a.accepted || !a.idle
    ensures var t := AsrStep(c, s, a).value;
            && t.gen == s.gen && !t.asr.Finalizing?
            && t.active == (s.active && !(a.Finalized? && a.accepted && s.asr.Finalizing? && s.gen == s.asr.target))
  {
    if a.Tick? {
      AfterPollActive(c, s, false, 0, a.prepare);
    } else if a.Polled? && s.asr.Polling? {
      AfterPollActive(c, s, a.endpoint, s.asr.utterance, a.prepare);
    } else if a.PartialSent? && s.asr.SendingPartial? {
      AfterPollActive(c, s, s.asr.endpoint, s.asr.utterance, a.prepare);
    }
    hide AfterPoll, Calling;
  }

  /** However the run goes on after a finalize began, and whether it returns before
      or after: an utterance opened since then is still active, unless the client
      or a timeout cancelled it, an open was refused, or the manager went idle. */
  lemma {:induction false} LateFinalizeKeepsNewer(c: Config, s: State, acts: seq<Action>, target: int)
    requires SameTarget(s, target) && AllSpare(acts, target) && Exec(c, s, acts).Some?
    requires Newer(s, target) || exists i :: 0 <= i < |acts| && (acts[i].OpenDone? || acts[i].LazyDone?)
    ensures Exec(c, s, acts).value.active
    decreases acts
  {
    hide Step, Spares;
    if acts != [] {
      var t := Step(c, s, acts[0]).value;
      StepKeepsNewer(c, s, acts[0], target);
      assert forall i :: 0 <= i < |acts[1..]| ==> acts[1..][i] == acts[i + 1];
      if !Newer(t, target) {
        var i :| 0 <= i < |acts| && (acts[i].OpenDone? || acts[i].LazyDone?);
        assert acts[1..][i - 1] == acts[i];
      }
      LateFinalizeKeepsNewer(c, t, acts[1..], target);
    }
  }
}
