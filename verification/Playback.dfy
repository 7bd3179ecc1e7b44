/** Local playback: one byte buffer, filled by the event loop and drained by the
    audio device's callback, with a latch that silences a turn after a barge-in
    and a counter of what the device has played of a response. */
module Playback {
  import opened Bytes
  import opened Wrappers

  /** A buffered byte, whether `play` (speech) or `play_notification` put it there,
      and how many responses had begun by then. */
  datatype Cell = Cell(b: byte, speech: bool, turn: nat)

  datatype Op =
    | Output(needed: nat)
    | Play(pcm: seq<byte>)
    | Notify(pcm: seq<byte>)
    | Stop | Arm | Done
    | Begin(response: string)

  /** `device` is everything ever handed to the device apart from padding;
      `pushed` everything buffered since the last clear, when the device log had
      length `mark`.  `turn` counts the calls of `Begin`; the last four fields are
      since the last of them, when the log had length `since`. */
  datatype View = View(
    buffer: seq<Cell>, discard: bool, playing: bool,
    response: Option<string>, counted: nat,
    device: seq<Cell>, pushed: seq<Cell>, mark: nat,
    turn: nat, since: nat, atBegin: nat, added: nat, cleared: nat)

  const INIT := View([], false, false, None, 0, [], [], 0, 0, 0, 0, 0, 0)

  function Cells(pcm: seq<byte>, speech: bool, turn: nat): (cells: seq<Cell>)
    ensures |cells| == |pcm|
    ensures forall i :: 0 <= i < |pcm| ==> cells[i] == Cell(pcm[i], speech, turn)
  {
    seq(|pcm|, i requires 0 <= i < |pcm| => Cell(pcm[i], speech, turn))
  }

  function Min(a: nat, b: nat): nat { if a < b then a else b }

  function Push(v: View, cells: seq<Cell>): View {
    v.(buffer := v.buffer + cells, pushed := v.pushed + cells, added := v.added + |cells|)
  }

  function Next(v: View, op: Op): View {
    match op
    case Output(needed) =>
      var n := Min(needed, |v.buffer|);
      v.(buffer := v.buffer[n..], device := v.device + v.buffer[..n],
         counted := if v.response.Some? then v.counted + n else v.counted)
    case Play(pcm) =>
      if v.discard then v else Push(v, Cells(pcm, true, v.turn)).(playing := true)
    case Notify(pcm) => Push(v, Cells(pcm, false, v.turn))
    case Stop =>
      v.(buffer := [], playing := false, discard := true,
         pushed := [], mark := |v.device|, cleared := v.cleared + |v.buffer|)
    case Arm => v.(discard := false)
    case Done => v.(playing := false)
    case Begin(response) =>
      v.(response := Some(response), counted := 0, turn := v.turn + 1, since := |v.device|, atBegin := |v.buffer|, added := 0, cleared := 0)
  }

  function Run(v: View, ops: seq<Op>): View
    decreases |ops|
  {
    if ops == [] then v else Run(Next(v, ops[0]), ops[1..])
  }

  predicate NoSpeech(cells: seq<Cell>) {
    forall i :: 0 <= i < |cells| ==> !cells[i].speech
  }

  predicate NoLater(cells: seq<Cell>, turn: nat) {
    forall i :: 0 <= i < |cells| ==> cells[i].turn <= turn
  }

  predicate Inv(v: View) {
    && v.mark <= |v.device|
    && v.pushed == v.device[v.mark..] + v.buffer
    && (v.discard ==> NoSpeech(v.buffer))
    && (v.response.Some? ==> v.counted + v.cleared + |v.buffer| == v.atBegin + v.added)
    && v.since <= |v.device| && (v.response.Some? ==> v.counted == |v.device| - v.since)
    && NoLater(v.buffer, v.turn)
  }

  lemma NextKeepsInv(v: View, op: Op)
    requires Inv(v)
    ensures Inv(Next(v, op))
  {
    match op
    case Output(needed) => OutputKeepsInv(v, needed);
    case Play(pcm) => if !v.discard { PushKeepsInv(v, Cells(pcm, true, v.turn)); }
    case Notify(pcm) => PushKeepsInv(v, Cells(pcm, false, v.turn));
    case _ =>
  }

  lemma OutputKeepsInv(v: View, needed: nat)
    requires Inv(v)
    ensures Inv(Next(v, Output(needed)))
  {
    var n := Min(needed, |v.buffer|);
    HandOver(v.device, v.buffer, n, v.mark);
    StillLater(v.buffer, n, v.turn);
    hide NoLater, NoSpeech;
  }

  /** The first `n` buffered cells go to the device. */
  lemma HandOver(device: seq<Cell>, buffer: seq<Cell>, n: nat, mark: nat)
    requires n <= |buffer| && mark <= |device|
    ensures device[mark..] + buffer == (device + buffer[..n])[mark..] + buffer[n..]
  {
    assert buffer == buffer[..n] + buffer[n..];
    assert (device + buffer[..n])[mark..] == device[mark..] + buffer[..n];
  }

  lemma StillLater(cells: seq<Cell>, n: nat, turn: nat)
    requires n <= |cells|
    ensures NoLater(cells, turn) ==> NoLater(cells[n..], turn)
    ensures NoSpeech(cells) ==> NoSpeech(cells[n..])
  {}

  lemma PushKeepsInv(v: View, cells: seq<Cell>)
    requires Inv(v) && (v.discard ==> NoSpeech(cells)) && NoLater(cells, v.turn)
    ensures Inv(Push(v, cells))
  {
    assert v.device[v.mark..] + v.buffer + cells == v.device[v.mark..] + (v.buffer + cells);
  }

  lemma {:induction false} RunKeepsInv(v: View, ops: seq<Op>)
    requires Inv(v)
    ensures Inv(Run(v, ops))
    decreases |ops|
  {
    if ops != [] {
      NextKeepsInv(v, ops[0]);
      RunKeepsInv(Next(v, ops[0]), ops[1..]);
    }
  }

  /** Over any run: what the device got since the last clear is a prefix, in
      order, of what was pushed since then; and once a response has begun, the
      bytes counted for it are those buffered when it began, plus those pushed,
      minus those cleared, minus those still waiting. */
  lemma Conservation(ops: seq<Op>)
    ensures var v := Run(INIT, ops);
            && v.mark <= |v.device| && v.device[v.mark..] <= v.pushed
            && v.pushed == v.device[v.mark..] + v.buffer
            && (v.response.Some? ==> v.counted == v.atBegin + v.added - v.cleared - |v.buffer|)
  {
    RunKeepsInv(INIT, ops);
  }

  predicate NeverArms(ops: seq<Op>) {
    forall i :: 0 <= i < |ops| ==> ops[i] != Arm
  }

  lemma SilenceJoins(a: seq<Cell>, b: seq<Cell>, c: seq<Cell>)
    requires a <= b <= c && NoSpeech(b[|a|..]) && NoSpeech(c[|b|..])
    ensures a <= c && NoSpeech(c[|a|..])
  {
    forall i | 0 <= i < |c| - |a| ensures !c[|a|..][i].speech {
      if i < |b| - |a| {
        assert c[|a|..][i] == b[|a| + i] == b[|a|..][i];
      } else {
        assert c[|a|..][i] == c[|b|..][i - (|b| - |a|)];
      }
    }
  }

  lemma SilentStep(v: View, op: Op)
    requires Inv(v) && v.discard && op != Arm
    ensures var u := Next(v, op); u.discard && v.device <= u.device && NoSpeech(u.device[|v.device|..])
  {
    if op.Output? {
      var n := Min(op.needed, |v.buffer|);
      assert (v.device + v.buffer[..n])[|v.device|..] == v.buffer[..n];
    }
  }

  lemma {:induction false} DiscardIsSilent(v: View, ops: seq<Op>)
    requires Inv(v) && v.discard && NeverArms(ops)
    ensures var w := Run(v, ops);
            && w.discard && v.device <= w.device && NoSpeech(w.device[|v.device|..])
    decreases |ops|
  {
    if ops != [] {
      var u := Next(v, ops[0]);
      NextKeepsInv(v, ops[0]);
      SilentStep(v, ops[0]);
      assert forall i :: 0 <= i < |ops[1..]| ==> ops[1..][i] == ops[i + 1];
      hide Inv, Next;
      DiscardIsSilent(u, ops[1..]);
      SilenceJoins(v.device, u.device, Run(v, ops).device);
    }
  }

  /** Between a `stop_playback` and the next `arm_for_next_turn`, whatever else is
      called and however the device drains, no byte of speech reaches the device;
      only notifications may. */
  lemma BargeInIsSilent(before: seq<Op>, after: seq<Op>)
    requires NeverArms(after)
    ensures var v := Run(INIT, before);
            var w := Run(Next(v, Stop), after);
            && v.device <= w.device && NoSpeech(w.device[|v.device|..])
  {
    RunKeepsInv(INIT, before);
    NextKeepsInv(Run(INIT, before), Stop);
    DiscardIsSilent(Next(Run(INIT, before), Stop), after);
  }

  // ---------------------------------------------------------------- what is played

  lemma {:induction false} RunSnoc(v: View, ops: seq<Op>, op: Op)
    ensures Run(v, ops + [op]) == Next(Run(v, ops), op)
    decreases |ops|
  {
    if ops == [] {
      assert [op][1..] == [];
      assert ops + [op] == [op];
    } else {
      assert (ops + [op])[1..] == ops[1..] + [op];
      hide Next;
      RunSnoc(Next(v, ops[0]), ops[1..], op);
    }
  }

  /** A `stop_playback` at `k` has not been followed by an `arm_for_next_turn`. */
  predicate StoppedAt(ops: seq<Op>, k: nat) {
    k < |ops| && ops[k] == Stop && forall m :: k < m < |ops| ==> ops[m] != Arm
  }

  ghost predicate Silenced(ops: seq<Op>) { exists k :: StoppedAt(ops, k) }

  lemma SilencedSnoc(ops: seq<Op>, op: Op)
    ensures Silenced(ops + [op]) <==> op == Stop || (op != Arm && Silenced(ops))
  {
    var all := ops + [op];
    if op == Stop { assert StoppedAt(all, |ops|); }
    if op != Arm && Silenced(ops) {
      var k :| StoppedAt(ops, k);
      assert StoppedAt(all, k);
    }
    if Silenced(all) && op != Stop {
      var k :| StoppedAt(all, k);
      assert all[|ops|] == op;
      assert forall m :: 0 <= m < |ops| ==> all[m] == ops[m];
      assert StoppedAt(ops, k);
    }
  }

  /** Over any run the latch is set exactly if the last of the calls that stop and
      arm was one that stops. */
  lemma {:induction false} LatchExact(ops: seq<Op>)
    ensures Run(INIT, ops).discard <==> Silenced(ops)
    decreases |ops|
  {
    if ops != [] {
      var n := |ops| - 1;
      assert ops == ops[..n] + [ops[n]];
      LatchExact(ops[..n]);
      RunSnoc(INIT, ops[..n], ops[n]);
      SilencedSnoc(ops[..n], ops[n]);
      hide Run, Silenced;
    }
  }

  /** Speech was accepted at `k`, and neither a stop nor the end of the stream came
      after it. */
  ghost predicate SpokenAt(ops: seq<Op>, k: nat) {
    k < |ops| && ops[k].Play? && !Silenced(ops[..k])
    && forall m :: k < m < |ops| ==> ops[m] != Stop && ops[m] != Done
  }

  ghost predicate Speaking(ops: seq<Op>) { exists k :: SpokenAt(ops, k) }

  lemma SpeakingSnoc(ops: seq<Op>, op: Op)
    ensures Speaking(ops + [op]) <==>
            (op.Play? && !Silenced(ops)) || (op != Stop && op != Done && Speaking(ops))
  {
    hide Silenced;
    var all := ops + [op];
    assert all[..|ops|] == ops && all[|ops|] == op;
    assert forall k :: 0 <= k < |ops| ==> all[k] == ops[k] && all[..k] == ops[..k];
    if op.Play? && !Silenced(ops) { assert SpokenAt(all, |ops|); }
    if op != Stop && op != Done && Speaking(ops) {
      var k :| SpokenAt(ops, k);
      assert SpokenAt(all, k);
    }
    if k: nat :| SpokenAt(all, k) {
      if k < |ops| { assert SpokenAt(ops, k); }
    }
  }

  /** Speech is due exactly if some was accepted since the last stop or end. */
  lemma {:induction false} PlayingExact(ops: seq<Op>)
    ensures Run(INIT, ops).playing <==> Speaking(ops)
    decreases |ops|
  {
    if ops != [] {
      var n := |ops| - 1;
      assert ops == ops[..n] + [ops[n]];
      PlayingExact(ops[..n]);
      LatchExact(ops[..n]);
      RunSnoc(INIT, ops[..n], ops[n]);
      SpeakingSnoc(ops[..n], ops[n]);
      hide Run, Silenced, Speaking;
    }
  }

  predicate NeverStops(ops: seq<Op>) {
    forall i :: 0 <= i < |ops| ==> ops[i] != Stop
  }

  /** Everything the device has got or will get, if nothing is cleared. */
  function Sound(v: View): seq<Cell> { v.device + v.buffer }

  lemma SoundGrows(v: View, op: Op)
    requires op != Stop
    ensures Sound(v) <= Sound(Next(v, op))
    ensures op != Arm ==> Next(v, op).discard == v.discard
  {
    if op.Output? {
      var n := Min(op.needed, |v.buffer|);
      assert v.device + v.buffer == v.device + v.buffer[..n] + v.buffer[n..];
    } else if op.Play? && !v.discard {
      assert Sound(Next(v, op)) == Sound(v) + Cells(op.pcm, true, v.turn);
    } else if op.Notify? {
      assert Sound(Next(v, op)) == Sound(v) + Cells(op.pcm, false, v.turn);
    }
  }

  lemma {:induction false} SoundKept(v: View, ops: seq<Op>)
    requires NeverStops(ops)
    ensures Sound(v) <= Sound(Run(v, ops))
    decreases |ops|
  {
    if ops != [] {
      SoundGrows(v, ops[0]);
      hide Next;
      SoundKept(Next(v, ops[0]), ops[1..]);
    }
  }

  /** Speech that comes when the last stop, if any, has been followed by an
      `arm_for_next_turn` is heard: until the next stop, once the device has drained
      the buffer, it has got every byte of it, in order, right after all that was
      buffered before. */
  lemma ArmedSpeechIsHeard(before: seq<Op>, pcm: seq<byte>, after: seq<Op>)
    requires !Silenced(before) && NeverStops(after)
    ensures var v := Run(INIT, before);
            var w := Run(Next(v, Play(pcm)), after);
            var u := Next(w, Output(|w.buffer|));
            && u.buffer == [] && v.device + v.buffer + Cells(pcm, true, v.turn) <= u.device
  {
    var v := Run(INIT, before);
    LatchExact(before);
    var x := Next(v, Play(pcm));
    assert Sound(x) == v.device + (v.buffer + Cells(pcm, true, v.turn));
    assert Sound(x) == v.device + v.buffer + Cells(pcm, true, v.turn);
    SoundKept(x, after);
    var w := Run(x, after);
    assert Next(w, Output(|w.buffer|)).device == Sound(w);
  }

  /** A notification is heard whatever the latch says. */
  lemma NotificationIsHeard(before: seq<Op>, pcm: seq<byte>, after: seq<Op>)
    requires NeverStops(after)
    ensures var v := Run(INIT, before);
            var w := Run(Next(v, Notify(pcm)), after);
            var u := Next(w, Output(|w.buffer|));
            && u.buffer == [] && v.device + v.buffer + Cells(pcm, false, v.turn) <= u.device
  {
    var v := Run(INIT, before);
    var x := Next(v, Notify(pcm));
    assert Sound(x) == v.device + (v.buffer + Cells(pcm, false, v.turn));
    assert Sound(x) == v.device + v.buffer + Cells(pcm, false, v.turn);
    SoundKept(x, after);
    var w := Run(x, after);
    assert Next(w, Output(|w.buffer|)).device == Sound(w);
  }

  // ---------------------------------------------------------------- what the counter counts

  /** Whose a byte played during response `turn` is: the response's own speech,
      something buffered before the response began, or a notification. */
  datatype Origin = OwnSpeech | Leftover | Notification

  function OriginOf(cell: Cell, turn: nat): Origin {
    if cell.turn != turn then Leftover else if cell.speech then OwnSpeech else Notification
  }

  function CountOf(cells: seq<Cell>, turn: nat, origin: Origin): (n: nat)
    ensures n <= |cells|
  {
    if cells == [] then 0 else (if OriginOf(cells[0], turn) == origin then 1 else 0) + CountOf(cells[1..], turn, origin)
  }

  lemma {:induction false} OriginsPartition(cells: seq<Cell>, turn: nat)
    ensures |cells| == CountOf(cells, turn, OwnSpeech) + CountOf(cells, turn, Leftover) + CountOf(cells, turn, Notification)
  {
    if cells != [] { OriginsPartition(cells[1..], turn); }
  }

  predicate AllOwn(cells: seq<Cell>, turn: nat) {
    forall i :: 0 <= i < |cells| ==> OriginOf(cells[i], turn) == OwnSpeech
  }

  lemma {:induction false} AllCounted(cells: seq<Cell>, turn: nat)
    ensures CountOf(cells, turn, OwnSpeech) == |cells| <==> AllOwn(cells, turn)
  {
    if cells != [] {
      AllCounted(cells[1..], turn);
      if AllOwn(cells, turn) {
        assert forall i :: 0 <= i < |cells[1..]| ==> cells[1..][i] == cells[i + 1];
      }
      if AllOwn(cells[1..], turn) && OriginOf(cells[0], turn) == OwnSpeech {
        assert forall i :: 0 < i < |cells| ==> cells[i] == cells[1..][i - 1];
      }
    }
  }

  /** What the device has got since the current response began. */
  function Played(v: View): seq<Cell>
    requires v.since <= |v.device|
  {
    v.device[v.since..]
  }

  /** Over any run the counter is the response's own speech, plus what was left
      over from before it began, plus the notifications, that the device has got
      since. */
  lemma CounterSplits(ops: seq<Op>)
    ensures var v := Run(INIT, ops);
            v.response.Some? ==>
              && v.since <= |v.device|
              && v.counted == CountOf(Played(v), v.turn, OwnSpeech) + CountOf(Played(v), v.turn, Leftover)
                              + CountOf(Played(v), v.turn, Notification)
  {
    RunKeepsInv(INIT, ops);
    var v := Run(INIT, ops);
    OriginsPartition(Played(v), v.turn);
  }

  /** The counter is the duration of the response's own speech. */
  predicate Pure(v: View) {
    v.since <= |v.device| && v.counted == CountOf(Played(v), v.turn, OwnSpeech)
  }

  predicate NoBegin(ops: seq<Op>) {
    forall i :: 0 <= i < |ops| ==> !ops[i].Begin?
  }

  predicate NoNotify(ops: seq<Op>) {
    forall i :: 0 <= i < |ops| ==> !ops[i].Notify?
  }

  lemma OwnStep(v: View, op: Op)
    requires Inv(v) && AllOwn(Played(v), v.turn) && AllOwn(v.buffer, v.turn) && !op.Begin? && !op.Notify?
    ensures var w := Next(v, op);
            w.turn == v.turn && w.response == v.response && w.since == v.since <= |w.device|
            && AllOwn(Played(w), w.turn) && AllOwn(w.buffer, w.turn)
  {
    if op.Output? {
      var n := Min(op.needed, |v.buffer|);
      assert (v.device + v.buffer[..n])[v.since..] == v.device[v.since..] + v.buffer[..n];
    }
  }

  lemma {:induction false} OwnRun(v: View, ops: seq<Op>)
    requires Inv(v) && v.response.Some? && AllOwn(Played(v), v.turn) && AllOwn(v.buffer, v.turn)
    requires NoBegin(ops) && NoNotify(ops)
    ensures Pure(Run(v, ops))
    decreases |ops|
  {
    if ops == [] {
      AllCounted(Played(v), v.turn);
    } else {
      NextKeepsInv(v, ops[0]);
      OwnStep(v, ops[0]);
      assert forall i :: 0 <= i < |ops[1..]| ==> ops[1..][i] == ops[i + 1];
      hide Inv, Next, AllOwn;
      OwnRun(Next(v, ops[0]), ops[1..]);
    }
  }

  /** What was buffered when the response began is counted for it. */
  lemma LeftoverIsCounted(v: View, response: string)
    requires Inv(v) && v.buffer != []
    ensures !Pure(Run(Next(v, Begin(response)), [Output(|v.buffer|)]))
  {
    var b := Next(v, Begin(response));
    var op := Output(|v.buffer|);
    var w := Next(b, op);
    assert [op][1..] == [] && Run(b, [op]) == Run(w, []);
    assert Played(w) == v.buffer;
    assert OriginOf(Played(w)[0], w.turn) == Leftover;
    hide Inv, Run;
    AllCounted(Played(w), w.turn);
  }

  /** So is a notification. */
  lemma NotificationIsCounted(v: View, response: string)
    requires Inv(v) && v.buffer == []
    ensures !Pure(Run(Next(v, Begin(response)), [Notify([0]), Output(1)]))
  {
    var b := Next(v, Begin(response));
    var b' := Next(b, Notify([0]));
    var w := Next(b', Output(1));
    assert [Notify([0]), Output(1)][1..] == [Output(1)] && [Output(1)][1..] == [];
    assert Run(b, [Notify([0]), Output(1)]) == Run(b', [Output(1)]) == Run(w, []);
    assert b'.buffer == [Cell(0, false, b.turn)];
    assert Played(w) == b'.buffer;
    assert OriginOf(Played(w)[0], w.turn) == Notification;
    hide Inv, Run;
    AllCounted(Played(w), w.turn);
  }

  /** However the calls go on, the counter of a response is its own speech exactly
      when nothing was buffered as it began and no notification is played. */
  lemma CounterExact(before: seq<Op>, response: string, notifies: bool)
    ensures var v := Run(INIT, before);
            (forall after :: NoBegin(after) && (notifies || NoNotify(after)) ==> Pure(Run(Next(v, Begin(response)), after)))
            <==> v.buffer == [] && !notifies
  {
    RunKeepsInv(INIT, before);
    var v := Run(INIT, before);
    var b := Next(v, Begin(response));
    NextKeepsInv(v, Begin(response));
    if v.buffer != [] {
      LeftoverIsCounted(v, response);
      assert NoBegin([Output(|v.buffer|)]) && NoNotify([Output(|v.buffer|)]);
    } else if notifies {
      NotificationIsCounted(v, response);
      assert NoBegin([Notify([0]), Output(1)]);
    } else {
      assert Played(b) == [];
      forall after | NoBegin(after) && NoNotify(after) ensures Pure(Run(b, after)) {
        OwnRun(b, after);
      }
    }
  }

  // ---------------------------------------------------------------- the player

  function Raw(cells: seq<Cell>): (b: seq<byte>)
    ensures |b| == |cells|
  {
    seq(|cells|, i requires 0 <= i < |cells| => cells[i].b)
  }

  lemma Floor(n: nat, d: nat)
    requires d > 0
    ensures n / d * d <= n < (n / d + 1) * d
  {
    assert n == n / d * d + n % d;
    assert (n / d + 1) * d == n / d * d + d;
  }

  class AudioIO {
    /** Resampling from the source's to the device's rate. */
    const resample: (seq<byte>, nat, nat) -> seq<byte>
    var playbackBuffer: seq<byte>
    var isPlaying: bool
    var discardPlayback: bool
    var responseId: Option<string>
    var deviceBytes: nat
    var sourceRate: nat
    var outputRate: nat
    ghost var view: View

    ghost predicate Valid()
      reads this
    {
      && Inv(view)
      && playbackBuffer == Raw(view.buffer) && isPlaying == view.playing && discardPlayback == view.discard
      && responseId == view.response && deviceBytes == view.counted
    }

    constructor (resample: (seq<byte>, nat, nat) -> seq<byte>, sourceRate: nat, outputRate: nat)
      ensures Valid() && view == INIT && this.resample == resample
      ensures this.sourceRate == sourceRate && this.outputRate == outputRate
    {
      this.resample, this.sourceRate, this.outputRate := resample, sourceRate, outputRate;
      playbackBuffer, isPlaying, discardPlayback, responseId, deviceBytes := [], false, false, None, 0;
      view := INIT;
    }

    /** The device asks for `outdata.Length` bytes: buffered bytes, then zeros. */
    method OutputCallback(outdata: array<byte>)
      requires Valid()
      modifies this, outdata
      ensures Valid() && view == Next(old(view), Output(outdata.Length))
      ensures var n := |view.device| - |old(view).device|;
              && 0 <= n <= outdata.Length
              && view.device == old(view).device + view.device[|old(view).device|..]
              && outdata[..n] == Raw(view.device[|old(view).device|..])
              && forall i :: n <= i < outdata.Length ==> outdata[i] == 0
      ensures sourceRate == old(sourceRate) && outputRate == old(outputRate)
    {
      NextKeepsInv(view, Output(outdata.Length));
      var needed := outdata.Length;
      var n := Min(needed, |playbackBuffer|);
      var before := playbackBuffer;
      forall i | 0 <= i < needed {
        outdata[i] := if i < n then before[i] else 0;
      }
      playbackBuffer := playbackBuffer[n..];
      if responseId.Some? {
        deviceBytes := deviceBytes + n;
      }
      ghost var was := view;
      view := Next(view, Output(needed));
      assert Raw(view.buffer) == Raw(was.buffer)[n..];
      assert view.device[|was.device|..] == was.buffer[..n];
      assert outdata[..n] == before[..n] == Raw(was.buffer[..n]);
    }

    /** Speech, dropped while the latch is set.  `available` is false when no
        output device can be opened, in which case the call raises. */
    method PlayPcm(pcm: seq<byte>, available: bool) returns (raised: bool)
      requires Valid()
      modifies this`playbackBuffer, this`isPlaying, this`view
      ensures Valid() && raised == (!discardPlayback && !available)
      ensures raised ==> view == old(view)
      ensures !raised ==>
                view == Next(old(view), Play(if sourceRate != outputRate && pcm != [] then resample(pcm, sourceRate, outputRate) else pcm))
    {
      if discardPlayback {
        return false;
      }
      if !available {
        return true;
      }
      isPlaying := true;
      var out := if sourceRate != outputRate && pcm != [] then resample(pcm, sourceRate, outputRate) else pcm;
      NextKeepsInv(view, Play(out));
      assert Raw(view.buffer + Cells(out, true, view.turn)) == Raw(view.buffer) + out;
      hide Inv, Raw;
      playbackBuffer := playbackBuffer + out;
      view := Next(view, Play(out));
      raised := false;
    }

    method PlayNotification(pcm: seq<byte>, available: bool) returns (raised: bool)
      requires Valid()
      modifies this`playbackBuffer, this`view
      ensures Valid() && raised == !available
      ensures view == if raised then old(view) else Next(old(view), Notify(pcm))
    {
      if !available {
        return true;
      }
      NextKeepsInv(view, Notify(pcm));
      assert Raw(view.buffer + Cells(pcm, false, view.turn)) == Raw(view.buffer) + pcm;
      playbackBuffer := playbackBuffer + pcm;
      view := Next(view, Notify(pcm));
      raised := false;
    }

    method StopPlayback()
      requires Valid()
      modifies this`playbackBuffer, this`isPlaying, this`discardPlayback, this`view
      ensures Valid() && view == Next(old(view), Stop)
    {
      NextKeepsInv(view, Stop);
      playbackBuffer := [];
      isPlaying := false;
      discardPlayback := true;
      view := Next(view, Stop);
    }

    method ArmForNextTurn()
      requires Valid()
      modifies this`discardPlayback, this`view
      ensures Valid() && view == Next(old(view), Arm)
    {
      discardPlayback := false;
      view := Next(view, Arm);
    }

    method MarkPlaybackDone()
      requires Valid()
      modifies this`isPlaying, this`view
      ensures Valid() && view == Next(old(view), Done)
    {
      isPlaying := false;
      view := Next(view, Done);
    }

    method BeginResponsePlayback(response: string)
      requires Valid()
      modifies this`responseId, this`deviceBytes, this`view
      ensures Valid() && view == Next(old(view), Begin(response))
    {
      responseId := Some(response);
      deviceBytes := 0;
      view := Next(view, Begin(response));
    }

    /** Milliseconds of 16-bit mono audio played of the current response; 0 when
        asked about another one. */
    method PlaybackPositionMs(response: Option<string>) returns (ms: nat)
      requires Valid()
      ensures response.Some? && response.value != [] && view.response != response ==> ms == 0
      ensures !(response.Some? && response.value != [] && view.response != response) ==>
                var rate := if outputRate < 1 then 1 else outputRate;
                ms * (2 * rate) <= view.counted * 1000 < (ms + 1) * (2 * rate)
    {
      hide Inv, Raw;
      if response.Some? && response.value != [] && responseId != response {
        return 0;
      }
      var rate := if outputRate < 1 then 1 else outputRate;
      ms := deviceBytes * 1000 / (2 * rate);
      Floor(deviceBytes * 1000, 2 * rate);
    }

    /** Audible speech or a tail still in the buffer. */
    method Playing() returns (b: bool)
      requires Valid()
      ensures b <==> view.playing || view.buffer != []
    {
      b := isPlaying || playbackBuffer != [];
    }
  }
}
