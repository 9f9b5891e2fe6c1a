/**
 * The greedy Token-and-Duration Transducer decoder (`ParakeetTDT.decode`).
 *
 * The networks are abstract: the prediction network maps the last emitted
 * token (or none) and its recurrent state (or none) to a decoder output and a
 * new state; the joint network, with the two argmaxes over its output, maps an
 * encoder frame and that decoder output to a class choice and a duration bin,
 * or reports non-finite logits, or a malformed output.
 */
module TdtDecoder {
  import opened Wrappers
  import opened Timeline

  /** `max_symbols` when the greedy section of the configuration does not give it. */
  const DefaultMaxSymbols: int := 10

  /** The stall counter's hard cap: beyond it the sequence is abandoned. */
  const StallCap: int := 100

  /**
   * The error cases of `ParakeetError`, without their messages, plus Swift's
   * index traps and whatever the log-mel front end throws.
   */
  datatype Error =
    | InvalidModelType
    | UnsupportedDecoding
    | AudioProcessingError
    | IndexOutOfRange
    | FrontEndError

  /** What one joint-network evaluation, followed by the two argmaxes, reports. */
  datatype JointOut =
    | NonFinite
    | Malformed
    | Choice(predToken: int, decision: int)

  /**
   * The external collaborators of the model. `melFails` tells on which samples
   * the log-mel front end (`getLogMel`) throws; `encode` and `encodeCached` are
   * the front end followed by the encoder, on samples where it does not.
   */
  datatype Networks<!F, !D, !H, !C> = Networks(
    predict: (Option<int>, Option<H>) -> (D, H),
    joint: (F, D) -> JointOut,
    detokenize: int -> string,
    melFails: seq<real> -> bool,
    encode: seq<real> -> (seq<F>, int),
    nLayers: nat,
    newCache: (int, int) -> C,
    encodeCached: (seq<real>, seq<C>) -> (seq<F>, int, seq<C>))

  /** A loaded `ParakeetTDT`: every field is fixed once it is built. */
  datatype Model<!F, !D, !H, !C> = Model(
    audio: AudioConfig,
    vocabulary: seq<string>,
    durations: seq<nat>,
    maxSymbols: int,
    net: Networks<F, D, H, C>)
  {
    function VocabSize(): nat
    {
      |vocabulary|
    }
  }

  /** The decoding section of the model configuration. */
  datatype TdtConfig = TdtConfig(modelType: string, durations: seq<nat>, greedyMaxSymbols: Option<int>)

  /** The `ParakeetTDT` initialiser: only TDT models are accepted; `maxSymbols` defaults to 10. */
  function MakeModel<F, D, H, C>(cfg: TdtConfig, audio: AudioConfig, vocabulary: seq<string>,
                                 net: Networks<F, D, H, C>): (r: Result<Model<F, D, H, C>, Error>)
    ensures r.Success? <==> cfg.modelType == "tdt"
    ensures r.Failure? ==> r.error == InvalidModelType
    ensures r.Success? ==> r.value.durations == cfg.durations && r.value.vocabulary == vocabulary
                           && r.value.audio == audio && r.value.net == net
    ensures r.Success? && cfg.greedyMaxSymbols.None? ==> r.value.maxSymbols == DefaultMaxSymbols
    ensures r.Success? && cfg.greedyMaxSymbols.Some? ==> r.value.maxSymbols == cfg.greedyMaxSymbols.value
  {
    if cfg.modelType != "tdt" then Failure(InvalidModelType)
    else
      var maxSymbols := if cfg.greedyMaxSymbols.Some? then cfg.greedyMaxSymbols.value else DefaultMaxSymbols;
      Success(Model(audio, vocabulary, cfg.durations, maxSymbols, net))
  }

  /** The per-sequence loop state: the frame pointer, the stall counter and the carry-state. */
  datatype DecodeState<H> = DecodeState(
    step: nat,
    newSymbols: int,
    lastToken: Option<int>,
    hidden: Option<H>,
    hypothesis: seq<Token>)

  function InitialState<H>(lastToken: Option<int>, hidden: Option<H>): DecodeState<H>
  {
    DecodeState(0, 0, lastToken, hidden, [])
  }

  datatype StopReason = NonFiniteLogits | StallCapExceeded

  /** The outcome of one pass of the loop body. */
  datatype StepOutcome<H> =
    | Continue(next: DecodeState<H>)
    | Stop(reason: StopReason, final: DecodeState<H>)
    | Abort(error: Error)

  /** The stall counter is 0, or counts zero-length steps still below `maxSymbols`. */
  predicate StallInvariant(maxSymbols: int, newSymbols: int)
  {
    newSymbols == 0 || 0 < newSymbols < maxSymbols
  }

  /**
   * The frame-pointer update with stall prevention: every pass either moves the
   * pointer forward and clears the counter, or keeps it and counts one more
   * zero-length step, still below `maxSymbols`.
   */
  function Advance(step: nat, newSymbols: int, dur: nat, maxSymbols: int): (r: (nat, int))
    requires StallInvariant(maxSymbols, newSymbols)
    ensures (r.0 > step && r.1 == 0) || (r.0 == step && r.1 == newSymbols + 1 && r.1 < maxSymbols)
    ensures dur != 0 ==> r.0 == step + dur
    ensures dur == 0 ==> r.0 <= step + 1
    ensures dur == 0 && newSymbols + 1 >= maxSymbols ==> r.0 == step + 1
    ensures StallInvariant(maxSymbols, r.1)
  {
    var n := newSymbols + 1;
    if dur != 0 then (step + dur, 0)
    else if n >= maxSymbols then (step + 1, 0)
    else (step, n)
  }

  /** The stall cap can only be exceeded when `maxSymbols` itself lies above it. */
  lemma StallCapNeedsLargeMaxSymbols(step: nat, newSymbols: int, dur: nat, maxSymbols: int)
    requires StallInvariant(maxSymbols, newSymbols)
    requires Advance(step, newSymbols, dur, maxSymbols).1 > StallCap
    ensures maxSymbols > StallCap + 1
  {
  }

  /** The joint network's report at the current frame, for the current carry-state. */
  function JointAt<F, D, H, C>(m: Model<F, D, H, C>, frames: seq<F>, st: DecodeState<H>): JointOut
    requires st.step < |frames|
  {
    m.net.joint(frames[st.step], m.net.predict(st.lastToken, st.hidden).0)
  }

  /** A blank pass: nothing emitted and the carry-state untouched. */
  ghost predicate Unchanged<H>(st: DecodeState<H>, n: DecodeState<H>)
  {
    n.hypothesis == st.hypothesis && n.lastToken == st.lastToken && n.hidden == st.hidden
  }

  /**
   * A pass that emits one token: it is stamped with the current frame, lasts
   * a whole number of frames from the duration table, and the carry-state
   * becomes that token and the prediction network's new state.
   */
  ghost predicate EmittedOne<F, D, H, C>(m: Model<F, D, H, C>, st: DecodeState<H>, n: DecodeState<H>)
  {
    && |n.hypothesis| == |st.hypothesis| + 1
    && n.hypothesis[..|st.hypothesis|] == st.hypothesis
    && var t := n.hypothesis[|st.hypothesis|];
    && 0 <= t.id < m.VocabSize()
    && t.start == FrameTime(m.audio, st.step)
    && DurationFromTable(m, t)
    && t.text == m.net.detokenize(t.id)
    && n.lastToken == Some(t.id)
    && n.hidden == Some(m.net.predict(st.lastToken, st.hidden).1)
  }

  function After<H>(r: StepOutcome<H>): DecodeState<H>
    requires !r.Abort?
  {
    if r.Continue? then r.next else r.final
  }

  /** One pass of the loop body of `decode`. */
  function Step<F, D, H, C>(m: Model<F, D, H, C>, frames: seq<F>, st: DecodeState<H>): (r: StepOutcome<H>)
    requires StallInvariant(m.maxSymbols, st.newSymbols)
    ensures r.Abort? <==> st.step >= |frames| || JointAt(m, frames, st).Malformed?
                          || (JointAt(m, frames, st).Choice?
                              && !(0 <= JointAt(m, frames, st).predToken <= m.VocabSize()
                                   && 0 <= JointAt(m, frames, st).decision < |m.durations|))
    ensures r.Stop? && r.reason == NonFiniteLogits <==> st.step < |frames| && JointAt(m, frames, st).NonFinite?
    ensures r.Stop? && r.reason == NonFiniteLogits ==> r.final == st
    ensures r.Stop? && r.reason == StallCapExceeded ==> m.maxSymbols > StallCap + 1
    ensures r.Continue? ==> StallInvariant(m.maxSymbols, r.next.newSymbols)
    ensures r.Continue? ==> (r.next.step > st.step && r.next.newSymbols == 0)
                            || (r.next.step == st.step && r.next.newSymbols == st.newSymbols + 1)
    ensures !r.Abort? ==> After(r).step >= st.step
    ensures !r.Abort? ==> Unchanged(st, After(r)) || EmittedOne(m, st, After(r))
    ensures !r.Abort? && JointAt(m, frames, st).Choice? ==>
              (Unchanged(st, After(r)) <==> JointAt(m, frames, st).predToken == m.VocabSize())
  {
    var (decoderOut, newHidden) := m.net.predict(st.lastToken, st.hidden);
    if st.step >= |frames| then Abort(IndexOutOfRange)
    else match m.net.joint(frames[st.step], decoderOut)
      case NonFinite => Stop(NonFiniteLogits, st)
      case Malformed => Abort(AudioProcessingError)
      case Choice(predToken, decision) =>
        if !(0 <= predToken <= m.VocabSize()) then Abort(AudioProcessingError)
        else if !(0 <= decision < |m.durations|) then Abort(IndexOutOfRange)
        else
          var dur := m.durations[decision];
          var emit := predToken != m.VocabSize();
          var token := Token(predToken, FrameTime(m.audio, st.step), FrameTime(m.audio, dur),
                             m.net.detokenize(predToken));
          var hypothesis := if emit then st.hypothesis + [token] else st.hypothesis;
          var lastToken := if emit then Some(predToken) else st.lastToken;
          var hidden := if emit then Some(newHidden) else st.hidden;
          var (step, newSymbols) := Advance(st.step, st.newSymbols, dur, m.maxSymbols);
          var next := DecodeState(step, newSymbols, lastToken, hidden, hypothesis);
          assert emit ==> hypothesis[|st.hypothesis|] == token;
          if newSymbols > StallCap then Stop(StallCapExceeded, next) else Continue(next)
  }

  /** The decoded tokens of one sequence and its final committed recurrent state. */
  type Decoded<H> = (seq<Token>, Option<H>)

  /** The loop of `decode` for one sequence, from state `st` on. */
  function DecodeLoop<F, D, H, C>(m: Model<F, D, H, C>, frames: seq<F>, length: int,
                                  st: DecodeState<H>): Result<Decoded<H>, Error>
    requires StallInvariant(m.maxSymbols, st.newSymbols)
    decreases length - st.step, m.maxSymbols - st.newSymbols
  {
    if st.step >= length then Success((st.hypothesis, st.hidden))
    else match Step(m, frames, st)
      case Abort(e) => Failure(e)
      case Stop(_, f) => Success((f.hypothesis, f.hidden))
      case Continue(n) => DecodeLoop(m, frames, length, n)
  }

  /** How many passes of the loop body `DecodeLoop` makes from `st` on. */
  function Iterations<F, D, H, C>(m: Model<F, D, H, C>, frames: seq<F>, length: int,
                                  st: DecodeState<H>): nat
    requires StallInvariant(m.maxSymbols, st.newSymbols)
    decreases length - st.step, m.maxSymbols - st.newSymbols
  {
    if st.step >= length then 0
    else match Step(m, frames, st)
      case Continue(n) => 1 + Iterations(m, frames, length, n)
      case _ => 1
  }

  function Max1(n: int): Pos
  {
    if n < 1 then 1 else n
  }

  /** A sequence with frames left has budget for at least one more pass. */
  lemma BudgetLeft(d: int, k: int, s: int)
    requires d >= 1 && k >= 1 && 0 <= s < k
    ensures d * k - s >= 1
  {
    assert d * k == (d - 1) * k + k;
    assert (d - 1) * k >= 0;
  }

  /** One pass uses one unit of the budget: it either moves to a later frame or emits on the same one. */
  lemma BudgetStep(d: int, d': int, k: int, s: int, s': int)
    requires k >= 1 && 0 <= s < k && d >= 1 && d' >= 1
    requires (d' < d && s' == 0) || (d' == d && s' == s + 1)
    ensures 1 + (d' * k - s') <= d * k - s
  {
    if d' < d {
      MulMonotone(d', d - 1, k);
      assert d * k == (d - 1) * k + k;
    }
  }

  lemma MulSucc(a: int, k: int)
    ensures (a + 1) * k == a * k + k
  {
  }

  lemma {:induction false} IterationsBoundFrom<F, D, H, C>(m: Model<F, D, H, C>, frames: seq<F>,
                                                          length: int, st: DecodeState<H>)
    requires StallInvariant(m.maxSymbols, st.newSymbols)
    requires st.step < length
    ensures Iterations(m, frames, length, st) <= (length - st.step) * Max1(m.maxSymbols) - st.newSymbols
    decreases length - st.step, m.maxSymbols - st.newSymbols
  {
    var k := Max1(m.maxSymbols);
    var d := length - st.step;
    assert 0 <= st.newSymbols < k;
    BudgetLeft(d, k, st.newSymbols);
    match Step(m, frames, st)
    case Continue(n) =>
      if n.step < length {
        IterationsBoundFrom(m, frames, length, n);
        BudgetStep(d, length - n.step, k, st.newSymbols, n.newSymbols);
      }
    case Stop(_, _) =>
    case Abort(_) =>
  }

  /**
   * Termination in numbers: a sequence of `length` frames takes at most
   * length * max(1, maxSymbols) passes of the loop body.
   */
  lemma IterationsBound<F, D, H, C>(m: Model<F, D, H, C>, frames: seq<F>, length: int,
                                    lastToken: Option<int>, hidden: Option<H>)
    ensures Iterations(m, frames, length, InitialState(lastToken, hidden)) <= (if length < 0 then 0 else length) * Max1(m.maxSymbols)
  {
    if length > 0 {
      IterationsBoundFrom(m, frames, length, InitialState(lastToken, hidden));
    }
  }

  /**
   * The default guards against endless decoding: a TDT model whose configuration
   * gives no `max_symbols` decodes any sequence of `length` frames in at most
   * ten passes per frame, and never gives up on a sequence at the stall cap.
   */
  lemma DefaultModelBounded<F, D, H, C>(cfg: TdtConfig, audio: AudioConfig, vocabulary: seq<string>,
                                        net: Networks<F, D, H, C>, frames: seq<F>, length: int,
                                        lastToken: Option<int>, hidden: Option<H>)
    requires cfg.modelType == "tdt" && cfg.greedyMaxSymbols.None?
    ensures var r := MakeModel(cfg, audio, vocabulary, net);
            && r.Success?
            && Iterations(r.value, frames, length, InitialState(lastToken, hidden))
               <= (if length < 0 then 0 else length) * DefaultMaxSymbols
            && forall st: DecodeState<H> :: StallInvariant(r.value.maxSymbols, st.newSymbols) ==>
                 (Step(r.value, frames, st).Stop? ==> Step(r.value, frames, st).reason == NonFiniteLogits)
  {
    var m := MakeModel(cfg, audio, vocabulary, net).value;
    IterationsBound(m, frames, length, lastToken, hidden);
  }

  /** The token starts on a frame in [from, bound). */
  ghost predicate StartsOnFrame<F, D, H, C>(m: Model<F, D, H, C>, from: int, bound: int, t: Token)
  {
    exists s: int :: from <= s < bound && t.start == FrameTime(m.audio, s)
  }

  /** The token lasts a number of frames taken from the duration table. */
  ghost predicate DurationFromTable<F, D, H, C>(m: Model<F, D, H, C>, t: Token)
  {
    exists j :: 0 <= j < |m.durations| && t.duration == FrameTime(m.audio, m.durations[j])
  }

  /** Every token of `ts` starts on a frame in [from, bound). */
  ghost predicate StartsInFrames<F, D, H, C>(m: Model<F, D, H, C>, from: int, bound: int, ts: seq<Token>)
  {
    forall k :: 0 <= k < |ts| ==> StartsOnFrame(m, from, bound, ts[k])
  }

  /** Every token of `ts` lasts a number of frames taken from the duration table. */
  ghost predicate DurationsFromTable<F, D, H, C>(m: Model<F, D, H, C>, ts: seq<Token>)
  {
    forall k :: 0 <= k < |ts| ==> DurationFromTable(m, ts[k])
  }

  lemma StartsOnFrameWeaken<F, D, H, C>(m: Model<F, D, H, C>, from: int, from': int, bound: int, t: Token)
    requires from <= from' && StartsOnFrame(m, from', bound, t)
    ensures StartsOnFrame(m, from, bound, t)
  {
    var s: int :| from' <= s < bound && t.start == FrameTime(m.audio, s);
    assert from <= s < bound;
  }

  /**
   * What a run of emitted tokens looks like: real vocabulary ids (never the
   * blank), their tokenizer text, starts on frames in [from, length) that never
   * go down, durations taken from the duration table.
   */
  ghost predicate WellTimed<F, D, H, C>(m: Model<F, D, H, C>, from: int, length: int, ts: seq<Token>)
  {
    && (forall k :: 0 <= k < |ts| ==> 0 <= ts[k].id < m.VocabSize())
    && (forall k :: 0 <= k < |ts| ==> ts[k].text == m.net.detokenize(ts[k].id))
    && StartsInFrames(m, from, length, ts)
    && DurationsFromTable(m, ts)
    && (forall k :: 0 <= k < |ts| ==> FrameTime(m.audio, from) <= ts[k].start)
    && (forall k1, k2 :: 0 <= k1 <= k2 < |ts| ==> ts[k1].start <= ts[k2].start)
  }

  lemma WellTimedWeaken<F, D, H, C>(m: Model<F, D, H, C>, from: int, from': int, length: int, ts: seq<Token>)
    requires from <= from' && WellTimed(m, from', length, ts)
    ensures WellTimed(m, from, length, ts)
  {
    FrameTimeMonotone(m.audio, from, from');
    forall k | 0 <= k < |ts|
      ensures StartsOnFrame(m, from, length, ts[k])
    {
      StartsOnFrameWeaken(m, from, from', length, ts[k]);
    }
  }

  lemma WellTimedCons<F, D, H, C>(m: Model<F, D, H, C>, from: int, from': int, length: int,
                                  t: Token, ts: seq<Token>)
    requires from <= from' && from < length
    requires 0 <= t.id < m.VocabSize() && t.text == m.net.detokenize(t.id)
    requires t.start == FrameTime(m.audio, from)
    requires DurationFromTable(m, t)
    requires WellTimed(m, from', length, ts)
    ensures WellTimed(m, from, length, [t] + ts)
  {
    WellTimedWeaken(m, from, from', length, ts);
    var r := [t] + ts;
    assert forall k :: 1 <= k < |r| ==> r[k] == ts[k - 1];
    assert r[0] == t;
  }

  /** Appending the tokens decoded after one pass to what that pass produced. */
  lemma EmissionCombine<F, D, H, C>(m: Model<F, D, H, C>, length: int, st: DecodeState<H>,
                                    n: DecodeState<H>, rest: seq<Token>)
    requires st.step < length && st.step <= n.step
    requires Unchanged(st, n) || EmittedOne(m, st, n)
    requires WellTimed(m, n.step, length, rest)
    ensures var out := n.hypothesis + rest;
            && |st.hypothesis| <= |out|
            && out[..|st.hypothesis|] == st.hypothesis
            && WellTimed(m, st.step, length, out[|st.hypothesis|..])
  {
    var n0 := |st.hypothesis|;
    var out := n.hypothesis + rest;
    if Unchanged(st, n) {
      assert out[n0..] == rest;
      WellTimedWeaken(m, st.step, n.step, length, rest);
    } else {
      var t := n.hypothesis[n0];
      assert n.hypothesis == st.hypothesis + [t];
      assert out == st.hypothesis + ([t] + rest);
      assert out[n0..] == [t] + rest;
      WellTimedCons(m, st.step, n.step, length, t, rest);
    }
  }

  /**
   * What one sequence's decoding emits: it only appends to the hypothesis it
   * starts with, and the appended tokens are well timed from the current frame on.
   */
  lemma {:induction false} DecodeEmission<F, D, H, C>(m: Model<F, D, H, C>, frames: seq<F>,
                                                     length: int, st: DecodeState<H>)
    requires StallInvariant(m.maxSymbols, st.newSymbols)
    ensures var r := DecodeLoop(m, frames, length, st);
            r.Success? ==> && |st.hypothesis| <= |r.value.0|
                           && r.value.0[..|st.hypothesis|] == st.hypothesis
                           && WellTimed(m, st.step, length, r.value.0[|st.hypothesis|..])
    decreases length - st.step, m.maxSymbols - st.newSymbols
  {
    if st.step >= length {
      assert st.hypothesis[|st.hypothesis|..] == [];
    } else {
      match Step(m, frames, st)
      case Abort(_) =>
      case Stop(_, n) =>
        assert n.hypothesis + [] == n.hypothesis;
        EmissionCombine(m, length, st, n, []);
      case Continue(n) =>
        DecodeEmission(m, frames, length, n);
        var out := DecodeLoop(m, frames, length, n);
        if out.Success? {
          var rest := out.value.0[|n.hypothesis|..];
          assert out.value.0 == n.hypothesis + rest;
          EmissionCombine(m, length, st, n, rest);
        }
    }
  }

  /**
   * The carry-state returned for a sequence: the one it started with when
   * nothing was emitted, and a committed state once something was.
   */
  lemma {:induction false} DecodeCarry<F, D, H, C>(m: Model<F, D, H, C>, frames: seq<F>,
                                                  length: int, st: DecodeState<H>)
    requires StallInvariant(m.maxSymbols, st.newSymbols)
    requires st.hypothesis != [] ==> st.hidden.Some?
    ensures var r := DecodeLoop(m, frames, length, st);
            r.Success? ==> && (|r.value.0| == |st.hypothesis| ==> r.value.1 == st.hidden)
                           && (r.value.0 != [] ==> r.value.1.Some?)
    decreases length - st.step, m.maxSymbols - st.newSymbols
  {
    if st.step < length {
      var r := Step(m, frames, st);
      if r.Continue? {
        DecodeCarry(m, frames, length, r.next);
        DecodeEmission(m, frames, length, r.next);
      }
    }
  }

  /** A whole sequence from cold or warm state: no emission returns the input state. */
  lemma DecodeCarryFromStart<F, D, H, C>(m: Model<F, D, H, C>, frames: seq<F>, length: int,
                                         lastToken: Option<int>, hidden: Option<H>)
    ensures var r := DecodeLoop(m, frames, length, InitialState(lastToken, hidden));
            r.Success? ==> && (r.value.0 == [] ==> r.value.1 == hidden)
                           && (r.value.0 != [] ==> r.value.1.Some?)
  {
    DecodeCarry(m, frames, length, InitialState(lastToken, hidden));
  }

  /**
   * Ids, texts and timing of one sequence's output: no blank ids, starts on frames
   * in [0, length) that never decrease, durations from the duration table.
   */
  lemma DecodeWellTimed<F, D, H, C>(m: Model<F, D, H, C>, frames: seq<F>, length: int,
                                    lastToken: Option<int>, hidden: Option<H>)
    ensures var r := DecodeLoop(m, frames, length, InitialState(lastToken, hidden));
            r.Success? ==> WellTimed(m, 0, length, r.value.0)
  {
    var st := InitialState(lastToken, hidden);
    DecodeEmission(m, frames, length, st);
    var r := DecodeLoop(m, frames, length, st);
    if r.Success? {
      assert r.value.0[0..] == r.value.0;
    }
  }

  /**
   * A frame whose logits are non-finite ends the sequence there: when every
   * duration is at most one frame, every token comes from an earlier frame.
   */
  lemma {:induction false} NonFiniteFrameCutsOff<F, D(!new), H, C>(m: Model<F, D, H, C>, frames: seq<F>,
                                                            length: int, f: nat, st: DecodeState<H>)
    requires StallInvariant(m.maxSymbols, st.newSymbols)
    requires f < |frames| && forall d :: m.net.joint(frames[f], d) == NonFinite
    requires forall j :: 0 <= j < |m.durations| ==> m.durations[j] <= 1
    requires st.step <= f
    ensures var r := DecodeLoop(m, frames, length, st);
            r.Success? ==> && |st.hypothesis| <= |r.value.0|
                           && StartsInFrames(m, st.step, f, r.value.0[|st.hypothesis|..])
    decreases length - st.step, m.maxSymbols - st.newSymbols
  {
    var n0 := |st.hypothesis|;
    if st.step >= length {
      assert st.hypothesis[n0..] == [];
    } else if st.step == f {
      assert m.net.joint(frames[f], m.net.predict(st.lastToken, st.hidden).0) == NonFinite;
      assert st.hypothesis[n0..] == [];
    } else {
      var r := Step(m, frames, st);
      if !r.Abort? {
        var n := After(r);
        assert n.step <= st.step + 1 by {
          var (decoderOut, _) := m.net.predict(st.lastToken, st.hidden);
          var jo := m.net.joint(frames[st.step], decoderOut);
          assert jo == JointAt(m, frames, st);
        }
        var out := DecodeLoop(m, frames, length, st);
        if r.Continue? {
          NonFiniteFrameCutsOff(m, frames, length, f, n);
          DecodeEmission(m, frames, length, n);
        }
        if out.Success? {
          var rest: seq<Token> := if r.Continue? then out.value.0[|n.hypothesis|..] else [];
          assert out.value.0 == n.hypothesis + rest;
          StartsInFramesCombine(m, st, n, rest, f);
        }
      }
    }
  }

  /** The frame range of one pass's emission followed by what comes after it. */
  lemma StartsInFramesCombine<F, D, H, C>(m: Model<F, D, H, C>, st: DecodeState<H>, n: DecodeState<H>,
                                          rest: seq<Token>, f: int)
    requires st.step < f && st.step <= n.step
    requires Unchanged(st, n) || EmittedOne(m, st, n)
    requires StartsInFrames(m, n.step, f, rest)
    ensures |st.hypothesis| <= |n.hypothesis + rest|
    ensures StartsInFrames(m, st.step, f, (n.hypothesis + rest)[|st.hypothesis|..])
  {
    var n0 := |st.hypothesis|;
    var out := n.hypothesis + rest;
    forall k | 0 <= k < |rest|
      ensures StartsOnFrame(m, st.step, f, rest[k])
    {
      StartsOnFrameWeaken(m, st.step, n.step, f, rest[k]);
    }
    if Unchanged(st, n) {
      assert out[n0..] == rest;
    } else {
      var t := n.hypothesis[n0];
      assert n.hypothesis == st.hypothesis + [t];
      assert out[n0..] == [t] + rest;
      var all := [t] + rest;
      forall k | 0 <= k < |all|
        ensures StartsOnFrame(m, st.step, f, all[k])
      {
        if k == 0 {
          assert all[0].start == FrameTime(m.audio, st.step) && st.step < f;
        } else {
          assert all[k] == rest[k - 1];
        }
      }
    }
  }

  /** `decode` for one sequence: the `while` loop and its carry-state. */
  method DecodeSequence<F, D, H, C>(m: Model<F, D, H, C>, frames: seq<F>, length: int,
                                    lastToken: Option<int>, hidden: Option<H>)
    returns (r: Result<Decoded<H>, Error>)
    ensures r == DecodeLoop(m, frames, length, InitialState(lastToken, hidden))
  {
    var hypothesis: seq<Token> := [];
    var step: nat := 0;
    var newSymbols := 0;
    var currentLastToken := lastToken;
    var currentHidden := hidden;
    while step < length
      invariant StallInvariant(m.maxSymbols, newSymbols)
      invariant DecodeLoop(m, frames, length, InitialState(lastToken, hidden))
             == DecodeLoop(m, frames, length, DecodeState(step, newSymbols, currentLastToken, currentHidden, hypothesis))
      decreases length - step, m.maxSymbols - newSymbols
    {
      ghost var pre := DecodeState(step, newSymbols, currentLastToken, currentHidden, hypothesis);
      var (decoderOut, decoderHidden) := m.net.predict(currentLastToken, currentHidden);
      if step >= |frames| {
        return Failure(IndexOutOfRange);
      }
      var jointOut := m.net.joint(frames[step], decoderOut);
      if jointOut.NonFinite? {
        assert Step(m, frames, pre) == Stop(NonFiniteLogits, pre);
        break;
      }
      if jointOut.Malformed? {
        return Failure(AudioProcessingError);
      }
      var predToken := jointOut.predToken;
      var decision := jointOut.decision;
      if !(0 <= predToken <= |m.vocabulary|) {
        return Failure(AudioProcessingError);
      }
      if !(0 <= decision < |m.durations|) {
        return Failure(IndexOutOfRange);
      }
      if predToken != |m.vocabulary| {
        var tokenText := m.net.detokenize(predToken);
        var startTime := FrameTime(m.audio, step);
        var duration := FrameTime(m.audio, m.durations[decision]);
        hypothesis := hypothesis + [Token(predToken, startTime, duration, tokenText)];
        currentLastToken := Some(predToken);
        currentHidden := Some(decoderHidden);
      }
      step := step + m.durations[decision];
      newSymbols := newSymbols + 1;
      if m.durations[decision] != 0 {
        newSymbols := 0;
      } else if newSymbols >= m.maxSymbols {
        step := step + 1;
        newSymbols := 0;
      }
      if newSymbols > StallCap {
        assert Step(m, frames, pre)
            == Stop(StallCapExceeded, DecodeState(step, newSymbols, currentLastToken, currentHidden, hypothesis));
        break;
      }
      assert Step(m, frames, pre) == Continue(DecodeState(step, newSymbols, currentLastToken, currentHidden, hypothesis));
    }
    return Success((hypothesis, currentHidden));
  }

  lemma DivUnique(x: int, q: int, r: int, k: Pos)
    requires x == q * k + r && 0 <= r < k
    ensures x / k == q
  {
    var q' := x / k;
    var r' := x % k;
    assert x == q' * k + r';
    assert (q - q') * k == r' - r;
    if q > q' {
      assert (q - q') * k >= k by { MulMonotone(1, q - q', k); }
    } else if q < q' {
      assert (q' - q) * k >= k by { MulMonotone(1, q' - q, k); }
    }
  }

  lemma DivAddDivisor(i: int, k: Pos)
    ensures (k + i) / k == i / k + 1
  {
    var q := i / k;
    var r := i % k;
    assert i == q * k + r;
    assert k + i == (q + 1) * k + r;
    DivUnique(k + i, q + 1, r, k);
  }

  /** The state after one pass of the stall scenario's loop body. */
  function StallNext<F, D, H, C>(m: Model<F, D, H, C>, c: int, st: DecodeState<H>): DecodeState<H>
  {
    var forced := st.newSymbols + 1 >= m.maxSymbols;
    var t := Token(c, FrameTime(m.audio, st.step), FrameTime(m.audio, 0), m.net.detokenize(c));
    DecodeState(if forced then st.step + 1 else st.step, if forced then 0 else st.newSymbols + 1,
                Some(c), Some(m.net.predict(st.lastToken, st.hidden).1), st.hypothesis + [t])
  }

  lemma StallStep<F(!new), D(!new), H, C>(m: Model<F, D, H, C>, frames: seq<F>, c: int, j: int, st: DecodeState<H>)
    requires 0 <= c < m.VocabSize() && 0 <= j < |m.durations| && m.durations[j] == 0
    requires forall fr, d :: m.net.joint(fr, d) == Choice(c, j)
    requires 1 <= m.maxSymbols <= StallCap + 1
    requires 0 <= st.newSymbols < m.maxSymbols && st.step < |frames|
    ensures Step(m, frames, st) == Continue(StallNext(m, c, st))
  {
    assert m.net.joint(frames[st.step], m.net.predict(st.lastToken, st.hidden).0) == Choice(c, j);
  }

  /** The k-th token of the scenario from a state with `ns` on the counter lies on frame step + (ns + k) / M. */
  lemma StallFrameIndex(M: Pos, ns: int, k: nat, forced: bool)
    requires 0 <= ns < M && forced == (ns + 1 >= M)
    ensures k == 0 ==> (ns + k) / M == 0
    ensures k > 0 && forced ==> (ns + k) / M == 1 + (k - 1) / M
    ensures k > 0 && !forced ==> (ns + k) / M == (ns + 1 + (k - 1)) / M
  {
    if k == 0 {
      DivUnique(ns, 0, ns, M);
    } else if forced {
      DivAddDivisor(k - 1, M);
      assert ns + k == M + (k - 1);
    }
  }

  /**
   * What the stall scenario leaves in `out` from state `st` on: `st`'s hypothesis
   * first, then one token with id `c` per remaining symbol slot, the k-th of them
   * on frame st.step + (st.newSymbols + k) / maxSymbols.
   */
  ghost predicate StallTail<F, D, H, C>(m: Model<F, D, H, C>, length: int, c: int, st: DecodeState<H>, out: seq<Token>)
    requires 1 <= m.maxSymbols
  {
    && |st.hypothesis| <= |out|
    && out[..|st.hypothesis|] == st.hypothesis
    && |out| - |st.hypothesis| == (length - st.step) * m.maxSymbols - st.newSymbols
    && forall k :: |st.hypothesis| <= k < |out| ==>
         && out[k].id == c
         && out[k].start == FrameTime(m.audio, st.step + (st.newSymbols + k - |st.hypothesis|) / m.maxSymbols)
  }

  /** The tail from `st` follows from the tail from the state after it. */
  lemma StallTailShift<F, D, H, C>(m: Model<F, D, H, C>, length: int, c: int, st: DecodeState<H>, out: seq<Token>)
    requires 1 <= m.maxSymbols && 0 <= st.newSymbols < m.maxSymbols && st.step < length
    requires StallTail(m, length, c, StallNext(m, c, st), out)
    ensures StallTail(m, length, c, st, out)
  {
    var M: Pos := m.maxSymbols;
    var n := StallNext(m, c, st);
    var n0 := |st.hypothesis|;
    var forced := st.newSymbols + 1 >= M;
    assert out[..n0] == st.hypothesis by {
      assert out[..n0 + 1][..n0] == out[..n0];
    }
    if forced {
      MulSucc(length - st.step - 1, M);
    }
    forall k | n0 <= k < |out|
      ensures out[k].id == c
      ensures out[k].start == FrameTime(m.audio, st.step + (st.newSymbols + k - n0) / M)
    {
      StallFrameIndex(M, st.newSymbols, k - n0, forced);
      if k == n0 {
        assert out[k] == n.hypothesis[n0];
      }
    }
  }

  /** A step that continues leaves the rest of the loop to the next state. */
  lemma LoopContinues<F, D, H, C>(m: Model<F, D, H, C>, frames: seq<F>, length: int,
                                  st: DecodeState<H>, n: DecodeState<H>)
    requires StallInvariant(m.maxSymbols, st.newSymbols)
    requires st.step < length && Step(m, frames, st) == Continue(n)
    ensures StallInvariant(m.maxSymbols, n.newSymbols)
    ensures DecodeLoop(m, frames, length, st) == DecodeLoop(m, frames, length, n)
  {
  }

  lemma {:induction false} StallScenarioFrom<F(!new), D(!new), H, C>(
      m: Model<F, D, H, C>, frames: seq<F>, length: nat, c: int, j: int, st: DecodeState<H>)
    requires 0 <= c < m.VocabSize() && 0 <= j < |m.durations| && m.durations[j] == 0
    requires forall fr, d :: m.net.joint(fr, d) == Choice(c, j)
    requires 1 <= m.maxSymbols <= StallCap + 1
    requires length <= |frames|
    requires 0 <= st.newSymbols < m.maxSymbols
    requires st.step <= length && (st.step == length ==> st.newSymbols == 0)
    ensures DecodeLoop(m, frames, length, st).Success?
    ensures StallTail(m, length, c, st, DecodeLoop(m, frames, length, st).value.0)
    decreases length - st.step, m.maxSymbols - st.newSymbols
  {
    if st.step == length {
      assert st.hypothesis[..|st.hypothesis|] == st.hypothesis;
    } else {
      var n := StallNext(m, c, st);
      StallStep(m, frames, c, j, st);
      LoopContinues(m, frames, length, st, n);
      StallScenarioFrom(m, frames, length, c, j, n);
      StallTailShift(m, length, c, st, DecodeLoop(m, frames, length, n).value.0);
    }
  }

  /**
   * The stall scenario: a joint network that always picks the same non-blank
   * class and a zero-frame duration bin makes the decoder emit exactly
   * maxSymbols tokens per frame and still finish, the k-th token on frame
   * k / maxSymbols — the forced step comes after every maxSymbols emissions.
   */
  lemma StallScenario<F(!new), D(!new), H, C>(m: Model<F, D, H, C>, frames: seq<F>, length: nat,
                                              c: int, j: int, lastToken: Option<int>, hidden: Option<H>)
    requires 0 <= c < m.VocabSize() && 0 <= j < |m.durations| && m.durations[j] == 0
    requires forall fr, d :: m.net.joint(fr, d) == Choice(c, j)
    requires 1 <= m.maxSymbols <= StallCap + 1
    requires length <= |frames|
    ensures var r := DecodeLoop(m, frames, length, InitialState(lastToken, hidden));
            && r.Success?
            && |r.value.0| == length * m.maxSymbols
            && forall k :: 0 <= k < |r.value.0| ==>
                 r.value.0[k].id == c && r.value.0[k].start == FrameTime(m.audio, k / m.maxSymbols)
  {
    StallScenarioFrom(m, frames, length, c, j, InitialState(lastToken, hidden));
  }

  /** The shapes `decode` indexes: one length, last token and state per sequence when given. */
  predicate BatchShapes<F, H>(features: seq<seq<F>>, lengths: Option<seq<int>>,
                              lastToken: Option<seq<Option<int>>>, hiddenState: Option<seq<Option<H>>>)
  {
    && (lengths.Some? ==> |lengths.value| >= |features|)
    && (lastToken.Some? ==> |lastToken.value| >= |features|)
    && (hiddenState.Some? ==> |hiddenState.value| >= |features|)
  }

  /** The valid frame count of sequence `b`: the given length, or all of its frames. */
  function SequenceLength<F>(features: seq<seq<F>>, lengths: Option<seq<int>>, b: nat): int
    requires b < |features| && (lengths.Some? ==> |lengths.value| >= |features|)
  {
    if lengths.Some? then lengths.value[b] else |features[b]|
  }

  /** The batch loop of `decode`, from sequence `b` on. */
  function DecodeBatchFrom<F, D, H, C>(m: Model<F, D, H, C>, features: seq<seq<F>>, lengths: Option<seq<int>>,
                                       lastTokens: seq<Option<int>>, b: nat, results: seq<seq<Token>>,
                                       hidden: seq<Option<H>>): (r: Result<(seq<seq<Token>>, seq<Option<H>>), Error>)
    requires b <= |features| <= |lastTokens| && |features| <= |hidden|
    requires lengths.Some? ==> |lengths.value| >= |features|
    ensures r.Success? ==> |r.value.0| == |results| + |features| - b && |r.value.1| == |hidden|
    decreases |features| - b
  {
    if b == |features| then Success((results, hidden))
    else match DecodeLoop(m, features[b], SequenceLength(features, lengths, b), InitialState(lastTokens[b], hidden[b]))
      case Failure(e) => Failure(e)
      case Success(d) => DecodeBatchFrom(m, features, lengths, lastTokens, b + 1, results + [d.0], hidden[b := d.1])
  }

  function OrNone<T>(given: Option<seq<Option<T>>>, n: nat): (r: seq<Option<T>>)
    ensures given.Some? ==> r == given.value
    ensures given.None? ==> |r| == n && forall i :: 0 <= i < n ==> r[i].None?
  {
    if given.Some? then given.value else seq(n, _ => None)
  }

  /** `decode` over a batch: only greedy decoding; sequences are decoded one after another. */
  function DecodeBatch<F, D, H, C>(m: Model<F, D, H, C>, features: seq<seq<F>>, lengths: Option<seq<int>>,
                                   lastToken: Option<seq<Option<int>>>, hiddenState: Option<seq<Option<H>>>,
                                   mode: string): (r: Result<(seq<seq<Token>>, seq<Option<H>>), Error>)
    requires BatchShapes(features, lengths, lastToken, hiddenState)
    ensures mode != "greedy" ==> r == Failure(UnsupportedDecoding)
    ensures r.Success? ==> |r.value.0| == |features| && |r.value.1| == |OrNone(hiddenState, |features|)|
  {
    if mode != "greedy" then Failure(UnsupportedDecoding)
    else DecodeBatchFrom(m, features, lengths, OrNone(lastToken, |features|), 0, [], OrNone(hiddenState, |features|))
  }

  /** Sequence `b` of the batch decoded on its own. */
  function DecodeOne<F, D, H, C>(m: Model<F, D, H, C>, features: seq<seq<F>>, lengths: Option<seq<int>>,
                                 lastTokens: seq<Option<int>>, hidden: seq<Option<H>>, b: nat): Result<Decoded<H>, Error>
    requires b < |features| <= |lastTokens| && |features| <= |hidden|
    requires lengths.Some? ==> |lengths.value| >= |features|
  {
    DecodeLoop(m, features[b], SequenceLength(features, lengths, b), InitialState(lastTokens[b], hidden[b]))
  }

  lemma {:induction false} DecodeBatchFromIndependent<F, D, H, C>(
      m: Model<F, D, H, C>, features: seq<seq<F>>, lengths: Option<seq<int>>,
      lastTokens: seq<Option<int>>, b: nat, results: seq<seq<Token>>, hidden: seq<Option<H>>)
    requires b <= |features| <= |lastTokens| && |features| <= |hidden|
    requires lengths.Some? ==> |lengths.value| >= |features|
    ensures var r := DecodeBatchFrom(m, features, lengths, lastTokens, b, results, hidden);
            && (r.Success? <==> forall i :: b <= i < |features| ==> DecodeOne(m, features, lengths, lastTokens, hidden, i).Success?)
            && (r.Success? ==>
                  && |r.value.0| == |results| + |features| - b
                  && r.value.0[..|results|] == results
                  && |r.value.1| == |hidden|
                  && (forall i :: 0 <= i < b || |features| <= i < |hidden| ==> r.value.1[i] == hidden[i])
                  && (forall i :: b <= i < |features| ==>
                        DecodeOne(m, features, lengths, lastTokens, hidden, i)
                        == Success((r.value.0[|results| + i - b], r.value.1[i]))))
    decreases |features| - b
  {
    if b < |features| {
      var d := DecodeOne(m, features, lengths, lastTokens, hidden, b);
      if d.Success? {
        var hidden' := hidden[b := d.value.1];
        var results' := results + [d.value.0];
        DecodeBatchFromIndependent(m, features, lengths, lastTokens, b + 1, results', hidden');
        assert forall i :: b < i < |features| ==>
          DecodeOne(m, features, lengths, lastTokens, hidden', i) == DecodeOne(m, features, lengths, lastTokens, hidden, i);
        var r := DecodeBatchFrom(m, features, lengths, lastTokens, b, results, hidden);
        if r.Success? {
          assert r.value.0[..|results'|][..|results|] == r.value.0[..|results|];
        }
      }
    }
  }

  /**
   * Sequences of a batch do not interact: the batch succeeds exactly when each
   * sequence decoded on its own does, and then holds each one's tokens and
   * final state at its own index; states past the batch are passed through.
   */
  lemma DecodeBatchIndependent<F, D, H, C>(m: Model<F, D, H, C>, features: seq<seq<F>>, lengths: Option<seq<int>>,
                                           lastToken: Option<seq<Option<int>>>, hiddenState: Option<seq<Option<H>>>)
    requires BatchShapes(features, lengths, lastToken, hiddenState)
    ensures var lt := OrNone(lastToken, |features|);
            var hs := OrNone(hiddenState, |features|);
            var r := DecodeBatch(m, features, lengths, lastToken, hiddenState, "greedy");
            && (r.Success? <==> forall b :: 0 <= b < |features| ==> DecodeOne(m, features, lengths, lt, hs, b).Success?)
            && (r.Success? ==>
                  && |r.value.0| == |features| && |r.value.1| == |hs|
                  && (forall b :: |features| <= b < |hs| ==> r.value.1[b] == hs[b])
                  && (forall b :: 0 <= b < |features| ==>
                        DecodeOne(m, features, lengths, lt, hs, b) == Success((r.value.0[b], r.value.1[b]))))
  {
    var lt := OrNone(lastToken, |features|);
    var hs := OrNone(hiddenState, |features|);
    var none: seq<seq<Token>> := [];
    assert DecodeBatch(m, features, lengths, lastToken, hiddenState, "greedy")
        == DecodeBatchFrom(m, features, lengths, lt, 0, none, hs);
    DecodeBatchFromIndependent(m, features, lengths, lt, 0, none, hs);
    var r := DecodeBatchFrom(m, features, lengths, lt, 0, none, hs);
    if r.Success? {
      forall b | 0 <= b < |features|
        ensures DecodeOne(m, features, lengths, lt, hs, b) == Success((r.value.0[b], r.value.1[b]))
      {
        assert |none| + b - 0 == b;
      }
    }
  }

  /** A one-sequence batch argument, as the callers build it with `x.map { [$0] }`. */
  function Single<T>(o: Option<T>): (r: Option<seq<Option<T>>>)
    ensures OrNone(r, 1) == [o]
  {
    if o.Some? then Some([o]) else None
  }

  /** `decode` on a batch of one sequence with an explicit length: the mode guard, then that sequence's loop. */
  function DecodeSingleSequence<F, D, H, C>(m: Model<F, D, H, C>, frames: seq<F>, length: int,
                                            lastToken: Option<int>, hidden: Option<H>, mode: string): Result<Decoded<H>, Error>
  {
    if mode != "greedy" then Failure(UnsupportedDecoding)
    else DecodeLoop(m, frames, length, InitialState(lastToken, hidden))
  }

  /**
   * A batch of one sequence with an explicit length is that sequence's own
   * decode: the batch fails exactly when it does, with the same error, and
   * otherwise returns its tokens and final state as one-element lists.
   */
  lemma DecodeSingle<F, D, H, C>(m: Model<F, D, H, C>, frames: seq<F>, length: int,
                                 lastToken: Option<int>, hidden: Option<H>, mode: string)
    ensures BatchShapes([frames], Some([length]), Single(lastToken), Single(hidden))
    ensures var r := DecodeBatch(m, [frames], Some([length]), Single(lastToken), Single(hidden), mode);
            var d := DecodeSingleSequence(m, frames, length, lastToken, hidden, mode);
            && (r.Success? <==> d.Success?)
            && (r.Failure? ==> r.error == d.error)
            && (r.Success? ==> r.value.0 == [d.value.0] && r.value.1 == [d.value.1])
  {
    if mode == "greedy" {
      var d := DecodeLoop(m, frames, length, InitialState(lastToken, hidden));
      var none: seq<seq<Token>> := [];
      assert DecodeBatch(m, [frames], Some([length]), Single(lastToken), Single(hidden), mode)
          == DecodeBatchFrom(m, [frames], Some([length]), [lastToken], 0, none, [hidden]);
      assert [frames][0] == frames && [lastToken][0] == lastToken && [hidden][0] == hidden;
      assert SequenceLength([frames], Some([length]), 0) == length;
      if d.Success? {
        assert none + [d.value.0] == [d.value.0];
        assert [hidden][0 := d.value.1] == [d.value.1];
        assert DecodeBatchFrom(m, [frames], Some([length]), [lastToken], 1, [d.value.0], [d.value.1])
            == Success(([d.value.0], [d.value.1]));
      }
    }
  }

  /** The callers' use of `decode`: a batch of one sequence, and its first result. */
  method DecodeBatchOfOne<F, D, H, C>(m: Model<F, D, H, C>, frames: seq<F>, length: int,
                                      lastToken: Option<int>, hidden: Option<H>, mode: string)
    returns (r: Result<Decoded<H>, Error>)
    ensures r == DecodeSingleSequence(m, frames, length, lastToken, hidden, mode)
  {
    DecodeSingle(m, frames, length, lastToken, hidden, mode);
    var out := Decode(m, [frames], Some([length]), Single(lastToken), Single(hidden), mode);
    if out.Failure? {
      return Failure(out.error);
    }
    return Success((out.value.0[0], out.value.1[0]));
  }

  /** `decode`: the mode guard, then the batch loop around the per-sequence loop. */
  method Decode<F, D, H, C>(m: Model<F, D, H, C>, features: seq<seq<F>>, lengths: Option<seq<int>>,
                            lastToken: Option<seq<Option<int>>>, hiddenState: Option<seq<Option<H>>>, mode: string)
    returns (r: Result<(seq<seq<Token>>, seq<Option<H>>), Error>)
    requires BatchShapes(features, lengths, lastToken, hiddenState)
    ensures r == DecodeBatch(m, features, lengths, lastToken, hiddenState, mode)
  {
    if mode != "greedy" {
      return Failure(UnsupportedDecoding);
    }
    var actualLastToken := OrNone(lastToken, |features|);
    var actualHiddenState := OrNone(hiddenState, |features|);
    ghost var hidden0 := actualHiddenState;
    var results: seq<seq<Token>> := [];
    for batch := 0 to |features|
      invariant |results| == batch && |actualHiddenState| == |hidden0|
      invariant DecodeBatchFrom(m, features, lengths, actualLastToken, batch, results, actualHiddenState)
             == DecodeBatch(m, features, lengths, lastToken, hiddenState, mode)
    {
      var length := if lengths.Some? then lengths.value[batch] else |features[batch]|;
      var decoded := DecodeSequence(m, features[batch], length, actualLastToken[batch], actualHiddenState[batch]);
      if decoded.Failure? {
        return Failure(decoded.error);
      }
      results := results + [decoded.value.0];
      actualHiddenState := actualHiddenState[batch := decoded.value.1];
    }
    return Success((results, actualHiddenState));
  }
}
