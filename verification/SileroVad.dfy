/** The streaming voice-activity detector: fixed windows over a sample stream that
    arrives in arbitrary pieces, with a context and a recurrent state carried from
    window to window.  The network is an uninterpreted function. */
module SileroVad {
  import opened Bytes

  /** `infer` maps an input and a recurrent state to a speech probability and the
      next state. */
  datatype Model<!S> = Model(infer: (seq<real>, S) -> (real, S), threshold: real, win: nat, context: nat)
  {
    /** The context is cut from the end of a window's input. */
    predicate Valid() { 0 < win && context <= win }
  }

  datatype Stream<S> = Stream(buf: seq<real>, ctx: seq<real>, state: S)

  /** What feeding samples produced: the new stream state, the inputs the network
      was called with, and whether any window was speech. */
  datatype Outcome<S> = Outcome(next: Stream<S>, calls: seq<seq<real>>, speech: bool)

  function Tail(x: seq<real>, n: nat): seq<real>
    requires n <= |x|
  {
    x[|x| - n..]
  }

  /** Process whole windows until less than one is left. */
  function Consume<S>(m: Model<S>, v: Stream<S>): (o: Outcome<S>)
    requires m.Valid() && |v.ctx| == m.context
    ensures |o.next.ctx| == m.context && |o.next.buf| < m.win
    decreases |v.buf|
  {
    if |v.buf| < m.win then Outcome(v, [], false)
    else
      var x := v.ctx + v.buf[..m.win];
      var (prob, state) := m.infer(x, v.state);
      var rest := Consume(m, Stream(v.buf[m.win..], Tail(x, m.context), state));
      Outcome(rest.next, [x] + rest.calls, prob >= m.threshold || rest.speech)
  }

  function Feed<S>(m: Model<S>, v: Stream<S>, samples: seq<real>): Outcome<S>
    requires m.Valid() && |v.ctx| == m.context
  {
    Consume(m, v.(buf := v.buf + samples))
  }

  // ---------------------------------------------------------------- chunking

  /** The stream state after its first whole window. */
  function AfterWindow<S>(m: Model<S>, v: Stream<S>): (w: Stream<S>)
    requires m.Valid() && |v.ctx| == m.context && |v.buf| >= m.win
    ensures |w.ctx| == m.context
  {
    var x := v.ctx + v.buf[..m.win];
    Stream(v.buf[m.win..], Tail(x, m.context), m.infer(x, v.state).1)
  }

  lemma ConsumeStep<S>(m: Model<S>, v: Stream<S>)
    requires m.Valid() && |v.ctx| == m.context && |v.buf| >= m.win
    ensures var x := v.ctx + v.buf[..m.win];
            var rest := Consume(m, AfterWindow(m, v));
            Consume(m, v) == Outcome(rest.next, [x] + rest.calls, m.infer(x, v.state).0 >= m.threshold || rest.speech)
  {}

  lemma LongerWindow<S>(m: Model<S>, v: Stream<S>, more: seq<real>)
    requires m.Valid() && |v.ctx| == m.context && |v.buf| >= m.win
    ensures (v.buf + more)[..m.win] == v.buf[..m.win]
    ensures var w := AfterWindow(m, v); AfterWindow(m, v.(buf := v.buf + more)) == w.(buf := w.buf + more)
  {
    assert (v.buf + more)[..m.win] == v.buf[..m.win];
    assert (v.buf + more)[m.win..] == v.buf[m.win..] + more;
  }

  lemma ConsumeShort<S>(m: Model<S>, v: Stream<S>, more: seq<real>)
    requires m.Valid() && |v.ctx| == m.context && |v.buf| < m.win
    ensures Consume(m, v) == Outcome(v, [], false)
    ensures var rest := Consume(m, v.(buf := v.buf + more));
            rest == Outcome(rest.next, [] + rest.calls, false || rest.speech)
  {
    var rest := Consume(m, v.(buf := v.buf + more));
    assert [] + rest.calls == rest.calls;
  }

  /** Windows that are complete before more samples arrive are the same windows
      afterwards. */
  lemma {:induction false} ConsumeMore<S>(m: Model<S>, v: Stream<S>, more: seq<real>)
    requires m.Valid() && |v.ctx| == m.context
    ensures var first := Consume(m, v);
            var second := Consume(m, first.next.(buf := first.next.buf + more));
            Consume(m, v.(buf := v.buf + more))
            == Outcome(second.next, first.calls + second.calls, first.speech || second.speech)
    decreases |v.buf|
  {
    hide Consume;
    if |v.buf| < m.win {
      ConsumeShort(m, v, more);
    } else {
      var w, x := AfterWindow(m, v), v.ctx + v.buf[..m.win];
      assert |w.buf| < |v.buf|;
      hide AfterWindow;
      LongerWindow(m, v, more);
      ConsumeStep(m, v);
      ConsumeStep(m, v.(buf := v.buf + more));
      ConsumeMore(m, w, more);
      var rest := Consume(m, w);
      var second := Consume(m, rest.next.(buf := rest.next.buf + more));
      assert [x] + (rest.calls + second.calls) == ([x] + rest.calls) + second.calls;
    }
  }

  /** Two calls are one call on the concatenation: the same network inputs in the
      same order, the same state, context and residue afterwards, and the same
      verdict between them. */
  lemma FeedSplit<S>(m: Model<S>, v: Stream<S>, a: seq<real>, b: seq<real>)
    requires m.Valid() && |v.ctx| == m.context
    ensures var first := Feed(m, v, a);
            var second := Feed(m, first.next, b);
            Feed(m, v, a + b) == Outcome(second.next, first.calls + second.calls, first.speech || second.speech)
  {
    ConsumeMore(m, v.(buf := v.buf + a), b);
    assert v.buf + (a + b) == v.buf + a + b;
  }

  function Concat(chunks: seq<seq<real>>): seq<real> {
    if chunks == [] then [] else chunks[0] + Concat(chunks[1..])
  }

  function FeedAll<S>(m: Model<S>, v: Stream<S>, chunks: seq<seq<real>>): Outcome<S>
    requires m.Valid() && |v.ctx| == m.context
    decreases |chunks|
  {
    if chunks == [] then Outcome(v, [], false)
    else
      var first := Feed(m, v, chunks[0]);
      var rest := FeedAll(m, first.next, chunks[1..]);
      Outcome(rest.next, first.calls + rest.calls, first.speech || rest.speech)
  }

  /** However a sample stream is cut into calls, the detector does the same. */
  lemma {:induction false} ChunkingIndependence<S>(m: Model<S>, v: Stream<S>, chunks: seq<seq<real>>)
    requires m.Valid() && |v.ctx| == m.context && |v.buf| < m.win
    ensures FeedAll(m, v, chunks) == Feed(m, v, Concat(chunks))
    decreases |chunks|
  {
    if chunks == [] {
      assert v.buf + [] == v.buf;
    } else {
      var first := Feed(m, v, chunks[0]);
      ChunkingIndependence(m, first.next, chunks[1..]);
      FeedSplit(m, v, chunks[0], Concat(chunks[1..]));
    }
  }

  // ---------------------------------------------------------------- windows of the stream

  function Zeros(n: nat): seq<real> { seq(n, i => 0.0) }

  function Reset<S>(m: Model<S>, zero: S): (v: Stream<S>)
    ensures |v.ctx| == m.context
  {
    Stream([], Zeros(m.context), zero)
  }

  /** The sample at which window `k` starts. */
  function At(k: nat, win: nat): (at: nat) { k * win }

  lemma AtNext(k: nat, win: nat)
    ensures At(0, win) == 0 && At(k + 1, win) == At(k, win) + win
  {}

  /** The whole windows are consumed and the rest stays, behind the context that
      precedes it in the stream. */
  lemma {:induction false} ConsumeResidue<S>(m: Model<S>, v: Stream<S>)
    requires m.Valid() && |v.ctx| == m.context
    ensures var o := Consume(m, v);
            var stream := v.ctx + v.buf;
            && |v.buf| == At(|o.calls|, m.win) + |o.next.buf|
            && o.next.ctx + o.next.buf == stream[At(|o.calls|, m.win)..]
    decreases |v.buf|
  {
    var stream := v.ctx + v.buf;
    var o := Consume(m, v);
    if |v.buf| < m.win {
      AtNext(0, m.win);
    } else {
      var w := AfterWindow(m, v);
      var rest := Consume(m, w);
      ConsumeStep(m, v);
      WindowShift(m, v);
      AtNext(|rest.calls|, m.win);
      hide At, Consume, AfterWindow;
      ConsumeResidue(m, w);
      assert stream[m.win..][At(|rest.calls|, m.win)..] == stream[At(|rest.calls|, m.win) + m.win..];
    }
  }

  lemma SliceOfDrop<T>(xs: seq<T>, n: nat, lo: nat, hi: nat)
    requires n <= |xs| && lo <= hi <= |xs| - n
    ensures xs[n..][lo..hi] == xs[lo + n..hi + n]
  {
  }

  /** One window on, the stream is the same stream one window later. */
  lemma WindowShift<S>(m: Model<S>, v: Stream<S>)
    requires m.Valid() && |v.ctx| == m.context && |v.buf| >= m.win
    ensures var stream, w := v.ctx + v.buf, AfterWindow(m, v);
            && w.ctx + w.buf == stream[m.win..] && |w.buf| < |v.buf|
            && v.ctx + v.buf[..m.win] == stream[..m.context + m.win]
  {
  }

  /** `stream` is the context followed by the buffered samples: call `k` sees one
      context and one window of it, `k` windows in. */
  lemma {:induction false} ConsumeWindow<S>(m: Model<S>, v: Stream<S>, k: nat)
    requires m.Valid() && |v.ctx| == m.context && k < |Consume(m, v).calls|
    ensures var stream := v.ctx + v.buf;
            && At(k, m.win) + m.context + m.win <= |stream|
            && Consume(m, v).calls[k] == stream[At(k, m.win)..At(k, m.win) + m.context + m.win]
    decreases |v.buf|
  {
    var stream := v.ctx + v.buf;
    if |v.buf| >= m.win {
      var w := AfterWindow(m, v);
      ConsumeStep(m, v);
      WindowShift(m, v);
      hide Consume, AfterWindow, At;
      if k == 0 {
        AtNext(0, m.win);
      } else {
        AtNext(k - 1, m.win);
        ConsumeWindow(m, w, k - 1);
        SliceOfDrop(stream, m.win, At(k - 1, m.win), At(k - 1, m.win) + m.context + m.win);
      }
    }
  }

  /** After a reset, call `k` sees exactly the context and window of the
      zero-prefixed stream; as many calls are made as whole windows fit, and the
      residue is what they leave over, always shorter than a window. */
  lemma WindowsOfStream<S>(m: Model<S>, zero: S, samples: seq<real>)
    requires m.Valid()
    ensures var o := Feed(m, Reset(m, zero), samples);
            var padded := Zeros(m.context) + samples;
            && |samples| == |o.calls| * m.win + |o.next.buf| && |o.next.buf| < m.win
            && o.next.ctx + o.next.buf == padded[|o.calls| * m.win..]
            && forall k :: 0 <= k < |o.calls| ==>
                 0 <= At(k, m.win) && At(k, m.win) + m.context + m.win <= |padded|
                 && o.calls[k] == padded[At(k, m.win)..At(k, m.win) + m.context + m.win]
  {
    assert [] + samples == samples;
    var v := Reset(m, zero).(buf := samples);
    ConsumeResidue(m, v);
    forall k | 0 <= k < |Consume(m, v).calls|
      ensures At(k, m.win) + m.context + m.win <= |v.ctx + v.buf|
      ensures Consume(m, v).calls[k] == (v.ctx + v.buf)[At(k, m.win)..At(k, m.win) + m.context + m.win]
    {
      ConsumeWindow(m, v, k);
    }
  }

  // ---------------------------------------------------------------- the recurrent state

  /** The network finds speech in this input, in this state. */
  predicate IsSpeechIn<S>(m: Model<S>, x: seq<real>, state: S) { m.infer(x, state).0 >= m.threshold }

  /** Each call is given the state that the call before it returned. */
  ghost predicate Chained<S(!new)>(m: Model<S>, calls: seq<seq<real>>, states: seq<S>) {
    && |states| == |calls| + 1
    && forall k :: 0 <= k < |calls| ==> states[k + 1] == m.infer(calls[k], states[k]).1
  }

  lemma ChainedCons<S(!new)>(m: Model<S>, x: seq<real>, state: S, calls: seq<seq<real>>, states: seq<S>)
    requires Chained(m, calls, states) && states[0] == m.infer(x, state).1
    ensures Chained(m, [x] + calls, [state] + states)
  {
    var all, sts := [x] + calls, [state] + states;
    forall k | 0 <= k < |all| ensures sts[k + 1] == m.infer(all[k], sts[k]).1 {
      if k > 0 { assert all[k] == calls[k - 1] && sts[k] == states[k - 1] && sts[k + 1] == states[k]; }
    }
  }

  /** Some call finds speech. */
  ghost predicate Heard<S(!new)>(m: Model<S>, calls: seq<seq<real>>, states: seq<S>)
    requires |states| >= |calls|
  {
    exists k :: 0 <= k < |calls| && IsSpeechIn(m, calls[k], states[k])
  }

  lemma HeardCons<S(!new)>(m: Model<S>, x: seq<real>, state: S, calls: seq<seq<real>>, states: seq<S>)
    requires |states| >= |calls|
    ensures Heard(m, [x] + calls, [state] + states) <==> IsSpeechIn(m, x, state) || Heard(m, calls, states)
  {
    var all, sts := [x] + calls, [state] + states;
    assert all[0] == x && sts[0] == state;
    if Heard(m, calls, states) {
      var k :| 0 <= k < |calls| && IsSpeechIn(m, calls[k], states[k]);
      assert IsSpeechIn(m, all[k + 1], sts[k + 1]);
    }
    if Heard(m, all, sts) && !IsSpeechIn(m, x, state) {
      var k :| 0 <= k < |all| && IsSpeechIn(m, all[k], sts[k]);
      assert IsSpeechIn(m, calls[k - 1], states[k - 1]);
    }
  }

  /** The recurrent state is handed from call to call, from the stream's state
      before to its state after, and the verdict is that some call found speech. */
  lemma {:induction false} StateIsThreaded<S(!new)>(m: Model<S>, v: Stream<S>) returns (states: seq<S>)
    requires m.Valid() && |v.ctx| == m.context
    ensures var o := Consume(m, v);
            && Chained(m, o.calls, states) && states[0] == v.state && states[|o.calls|] == o.next.state
            && (o.speech <==> Heard(m, o.calls, states))
    decreases |v.buf|
  {
    if |v.buf| < m.win {
      states := [v.state];
    } else {
      var x, w := v.ctx + v.buf[..m.win], AfterWindow(m, v);
      ConsumeStep(m, v);
      var rest := Consume(m, w);
      assert |w.buf| < |v.buf| && w.state == m.infer(x, v.state).1;
      hide Consume, AfterWindow, Chained, Heard;
      var later := StateIsThreaded(m, w);
      ChainedLength(m, rest.calls, later);
      ChainedCons(m, x, v.state, rest.calls, later);
      HeardCons(m, x, v.state, rest.calls, later);
      states := [v.state] + later;
    }
  }

  lemma ChainedLength<S(!new)>(m: Model<S>, calls: seq<seq<real>>, states: seq<S>)
    requires Chained(m, calls, states)
    ensures |states| == |calls| + 1
  {}

  // ---------------------------------------------------------------- the detector

  datatype Result<+T> = Ok(value: T) | BadLength

  /** A signed 16-bit little-endian sample, scaled to [-1, 1). */
  function Sample(lo: byte, hi: byte): (v: real)
    ensures -1.0 <= v < 1.0
  {
    var n := lo as int + 0x100 * hi as int;
    (if n < 0x8000 then n else n - 0x1_0000) as real / 32768.0
  }

  function Samples(pcm: seq<byte>): seq<real>
    requires |pcm| % 2 == 0
  {
    seq(|pcm| / 2, i requires 0 <= i < |pcm| / 2 => Sample(pcm[2 * i], pcm[2 * i + 1]))
  }

  /** A sample is the signed 16-bit number whose two's complement its bytes are, low
      byte first. */
  lemma SampleExact(pcm: seq<byte>, k: nat, n: int)
    requires |pcm| % 2 == 0 && 2 * k < |pcm|
    ensures |Samples(pcm)| == |pcm| / 2
    ensures Samples(pcm)[k] == n as real / 32768.0 <==>
            -0x8000 <= n < 0x8000 && (n - (pcm[2 * k] as int + 0x100 * pcm[2 * k + 1] as int)) % 0x1_0000 == 0
  {
    var raw := pcm[2 * k] as int + 0x100 * pcm[2 * k + 1] as int;
    var value := if raw < 0x8000 then raw else raw - 0x1_0000;
    assert Samples(pcm)[k] == value as real / 32768.0;
  }

  lemma SamplesConcat(a: seq<byte>, b: seq<byte>)
    requires |a| % 2 == 0 && |b| % 2 == 0
    ensures Samples(a + b) == Samples(a) + Samples(b)
  {}

  function Window(sampleRate: int): nat { if sampleRate == 16000 then 512 else 256 }

  function Context(sampleRate: int): nat { if sampleRate == 16000 then 64 else 32 }

  /** One turn of the loop: what is left to do still adds up to the outcome. */
  lemma ConsumeTurn<S>(m: Model<S>, v: Stream<S>, o: Outcome<S>, made: seq<seq<real>>, any: bool)
    requires m.Valid() && |v.ctx| == m.context && |v.buf| >= m.win
    requires var rest := Consume(m, v); o == Outcome(rest.next, made + rest.calls, any || rest.speech)
    ensures var x := v.ctx + v.buf[..m.win];
            var rest := Consume(m, AfterWindow(m, v));
            o == Outcome(rest.next, (made + [x]) + rest.calls, (any || m.infer(x, v.state).0 >= m.threshold) || rest.speech)
  {
    ConsumeStep(m, v);
    var x := v.ctx + v.buf[..m.win];
    var rest := Consume(m, AfterWindow(m, v));
    hide Consume, AfterWindow;
    assert made + ([x] + rest.calls) == (made + [x]) + rest.calls;
  }

  class Detector<S> {
    const model: Model<S>
    const zero: S
    var buf: seq<real>
    var ctx: seq<real>
    var state: S
    /** The inputs of all network calls since the last reset. */
    ghost var calls: seq<seq<real>>

    ghost predicate Valid()
      reads this
    {
      model.Valid() && |ctx| == model.context && |buf| < model.win
    }

    ghost function View(): Stream<S>
      reads this
    {
      Stream(buf, ctx, state)
    }

    constructor (infer: (seq<real>, S) -> (real, S), zero: S, threshold: real, sampleRate: int)
      ensures Valid() && calls == []
      ensures model == Model(infer, threshold, Window(sampleRate), Context(sampleRate))
      ensures this.zero == zero && View() == Reset(model, zero)
    {
      model := Model(infer, threshold, Window(sampleRate), Context(sampleRate));
      this.zero := zero;
      buf, ctx, state := [], Zeros(Context(sampleRate)), zero;
      calls := [];
    }

    method ResetStream()
      requires Valid()
      modifies this
      ensures Valid() && View() == Reset(model, zero) && calls == []
    {
      buf, ctx, state := [], Zeros(model.context), zero;
      calls := [];
    }

    /** Bytes that are not whole samples are refused before anything changes. */
    method IsSpeech(pcm: seq<byte>) returns (r: Result<bool>)
      requires Valid()
      modifies this
      ensures Valid()
      ensures |pcm| % 2 != 0 ==> r == BadLength && View() == old(View()) && calls == old(calls)
      ensures |pcm| % 2 == 0 ==>
                var o := Feed(model, old(View()), Samples(pcm));
                r == Ok(o.speech) && View() == o.next && calls == old(calls) + o.calls
    {
      if |pcm| % 2 != 0 {
        return BadLength;
      }
      ghost var o := Feed(model, View(), Samples(pcm));
      buf := buf + Samples(pcm);
      var anySpeech := false;
      ghost var made: seq<seq<real>> := [];
      hide Consume, Samples;
      while |buf| >= model.win
        invariant model.Valid() && |ctx| == model.context
        invariant calls == old(calls) + made
        invariant var rest := Consume(model, View());
                  o == Outcome(rest.next, made + rest.calls, anySpeech || rest.speech)
        decreases |buf|
      {
        ghost var after := AfterWindow(model, View());
        ConsumeTurn(model, View(), o, made, anySpeech);
        var win := buf[..model.win];
        buf := buf[model.win..];
        var x := ctx + win;
        var (prob, next) := model.infer(x, state);
        state := next;
        ctx := Tail(x, model.context);
        assert View() == after;
        calls, made := calls + [x], made + [x];
        if prob >= model.threshold {
          anySpeech := true;
        }
      }
      ConsumeShort(model, View(), []);
      assert made + [] == made;
      r := Ok(anySpeech);
    }
  }
}
