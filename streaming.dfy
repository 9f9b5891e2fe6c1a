/**
 * The streaming session (`StreamingParakeet`). Audio arrives in pieces; each
 * piece is appended to a buffer, the whole buffer is encoded with the
 * encoder's layer caches, and the encoder frames are split at
 * `length - dropSize`: the frames before the split are "clean" (their tokens
 * are final and appended for good), the rest are "dirty" (decoded again on
 * the next call, their tokens replaced every time).
 */
module Streaming {
  import opened Wrappers
  import opened Timeline
  import opened Segmentation
  import opened TdtDecoder

  function Max(a: int, b: int): int
  {
    if a >= b then a else b
  }

  /** The first `n` frames, or all of them when there are fewer (a clamped slice `[0..<n]`). */
  function Take<T>(s: seq<T>, n: int): (r: seq<T>)
    requires n >= 0
    ensures |r| == if n <= |s| then n else |s|
    ensures r == s[..|r|]
  {
    if n <= |s| then s[..n] else s
  }

  /** The frames from `n` on, or none when there are fewer (a clamped slice `[n...]`). */
  function DropFront<T>(s: seq<T>, n: int): (r: seq<T>)
    requires n >= 0
    ensures Take(s, n) + r == s
  {
    if n <= |s| then s[n..] else []
  }

  /**
   * The buffer after trimming: its last `samplesToKeep` samples when it is
   * longer than that (none at all when that count is not positive, the slice
   * then starting at or past the end), otherwise the buffer unchanged.
   */
  function KeepLast(buffer: seq<real>, samplesToKeep: int): (r: seq<real>)
    ensures |r| == if |buffer| > samplesToKeep then Max(0, samplesToKeep) else |buffer|
    ensures r == buffer[|buffer| - |r|..]
  {
    if |buffer| > samplesToKeep then
      if samplesToKeep <= 0 then [] else buffer[|buffer| - samplesToKeep..]
    else buffer
  }

  /** The id of the last token, if any (`tokens.last?.id`). */
  function LastId(tokens: seq<Token>): (r: Option<int>)
    ensures tokens == [] <==> r.None?
    ensures tokens != [] ==> r.value == tokens[|tokens| - 1].id
  {
    if tokens == [] then None else Some(tokens[|tokens| - 1].id)
  }

  /** The mutable state of a session. */
  datatype Session<H, C> = Session(
    audioBuffer: seq<real>,
    decoderHidden: Option<H>,
    lastToken: Option<int>,
    cleanTokens: seq<Token>,
    dirtyTokens: seq<Token>,
    cache: seq<C>)

  /** The samples kept in the buffer between calls: the audio behind the dirty frames. */
  function SamplesToKeep<F, D, H, C>(m: Model<F, D, H, C>, dropSize: int): int
  {
    dropSize * m.audio.subsamplingFactor * m.audio.hopLength
  }

  /** The number of frames decoded as clean. */
  function CleanLength(length: int, dropSize: int): (n: int)
    ensures n >= 0 && n >= length - dropSize
    ensures n == 0 || n == length - dropSize
  {
    Max(0, length - dropSize)
  }

  /**
   * The clean decode: when there are clean frames, decode them from the carried
   * token and hidden state and commit the result's final state, last id and tokens.
   */
  function AfterClean<F, D, H, C>(m: Model<F, D, H, C>, mode: string, s: Session<H, C>,
                                  features: seq<F>, cleanLength: int): Result<Session<H, C>, Error>
  {
    if cleanLength <= 0 then Success(s)
    else match DecodeSingleSequence(m, Take(features, cleanLength), cleanLength, s.lastToken, s.decoderHidden, mode)
      case Failure(e) => Failure(e)
      case Success(out) =>
        Success(s.(decoderHidden := out.1, lastToken := LastId(out.0), cleanTokens := s.cleanTokens + out.0))
  }

  /**
   * The dirty decode: when frames remain after the clean ones, decode them from
   * the state the clean decode left and replace the dirty tokens; the carried
   * state itself is not updated by it.
   */
  function AfterDirty<F, D, H, C>(m: Model<F, D, H, C>, mode: string, s: Session<H, C>,
                                  features: seq<F>, cleanLength: int, length: int): Result<Session<H, C>, Error>
    requires cleanLength >= 0
  {
    if length <= cleanLength then Success(s)
    else match DecodeSingleSequence(m, DropFront(features, cleanLength), length - cleanLength,
                                    s.lastToken, s.decoderHidden, mode)
      case Failure(e) => Failure(e)
      case Success(out) => Success(s.(dirtyTokens := out.0))
  }

  /**
   * `addAudio` on a session state: the outcome and the new state. The new audio
   * is appended before the front end can throw; the trimmed buffer and the
   * caches are in place before a decode can fail, the clean part before the
   * dirty decode; so a failure leaves the updates made before it in place.
   */
  function AddAudioSpec<F, D, H, C>(m: Model<F, D, H, C>, dropSize: int, samplesToKeep: int, mode: string,
                                    s: Session<H, C>, audio: seq<real>): (Result<(), Error>, Session<H, C>)
  {
    var buffer := s.audioBuffer + audio;
    if m.net.melFails(buffer) then (Failure(FrontEndError), s.(audioBuffer := buffer))
    else
      var enc := m.net.encodeCached(buffer, s.cache);
      var encoded := s.(audioBuffer := KeepLast(buffer, samplesToKeep), cache := enc.2);
      var cleanLength := CleanLength(enc.1, dropSize);
      match AfterClean(m, mode, encoded, enc.0, cleanLength)
      case Failure(e) => (Failure(e), encoded)
      case Success(clean) =>
        match AfterDirty(m, mode, clean, enc.0, cleanLength, enc.1)
        case Failure(e) => (Failure(e), clean)
        case Success(dirty) => (Success(()), dirty)
  }

  /**
   * When the front end throws on the old buffer followed by the new audio, the
   * call fails with only that concatenation stored as the buffer. Otherwise,
   * whatever the outcome, the buffer ends as the trimmed concatenation, a
   * suffix of it, and the caches are the encoder's updated caches.
   */
  lemma AddAudioBuffer<F, D, H, C>(m: Model<F, D, H, C>, dropSize: int, samplesToKeep: int, mode: string,
                                   s: Session<H, C>, audio: seq<real>)
    ensures var buffer := s.audioBuffer + audio;
            var keep := samplesToKeep;
            var r := AddAudioSpec(m, dropSize, samplesToKeep, mode, s, audio);
            var s' := r.1;
            && (m.net.melFails(buffer) ==> r.0 == Failure(FrontEndError) && s' == s.(audioBuffer := buffer))
            && (!m.net.melFails(buffer) ==>
                  && |s'.audioBuffer| == (if |buffer| > keep then Max(0, keep) else |buffer|)
                  && s'.audioBuffer == buffer[|buffer| - |s'.audioBuffer|..]
                  && s'.cache == m.net.encodeCached(buffer, s.cache).2)
  {
  }

  /** Clean tokens are only ever appended to: the old ones stay a prefix, whatever the outcome. */
  lemma AddAudioKeepsClean<F, D, H, C>(m: Model<F, D, H, C>, dropSize: int, samplesToKeep: int, mode: string,
                                       s: Session<H, C>, audio: seq<real>)
    ensures var s' := AddAudioSpec(m, dropSize, samplesToKeep, mode, s, audio).1;
            |s.cleanTokens| <= |s'.cleanTokens| && s'.cleanTokens[..|s.cleanTokens|] == s.cleanTokens
  {
    var s' := AddAudioSpec(m, dropSize, samplesToKeep, mode, s, audio).1;
    assert s'.cleanTokens == s.cleanTokens || exists t :: s'.cleanTokens == s.cleanTokens + t;
  }

  /**
   * With greedy decoding, a successful call appends to the clean tokens exactly
   * what the clean frames decode to from the carried state, and sets the dirty
   * tokens to what the remaining frames decode to from the state after that —
   * leaving them as they were when no frames remain.
   */
  lemma AddAudioTokens<F, D, H, C>(m: Model<F, D, H, C>, dropSize: int, samplesToKeep: int, s: Session<H, C>, audio: seq<real>)
    ensures var enc := m.net.encodeCached(s.audioBuffer + audio, s.cache);
            var length := enc.1;
            var cleanLength := CleanLength(length, dropSize);
            var r := AddAudioSpec(m, dropSize, samplesToKeep, "greedy", s, audio);
            var s' := r.1;
            var clean := DecodeLoop(m, Take(enc.0, cleanLength), cleanLength, InitialState(s.lastToken, s.decoderHidden));
            var dirty := DecodeLoop(m, DropFront(enc.0, cleanLength), length - cleanLength,
                                    InitialState(s'.lastToken, s'.decoderHidden));
            r.0.Success? ==>
              && !m.net.melFails(s.audioBuffer + audio)
              && (cleanLength > 0 ==> clean.Success? && s'.cleanTokens == s.cleanTokens + clean.value.0)
              && (cleanLength == 0 ==> s'.cleanTokens == s.cleanTokens)
              && (length > cleanLength ==> dirty.Success? && s'.dirtyTokens == dirty.value.0)
              && (length <= cleanLength ==> s'.dirtyTokens == s.dirtyTokens)
  {
    var buffer := s.audioBuffer + audio;
    if !m.net.melFails(buffer) {
      var enc := m.net.encodeCached(buffer, s.cache);
      var length := enc.1;
      var cleanLength := CleanLength(length, dropSize);
      var encoded := s.(audioBuffer := KeepLast(buffer, samplesToKeep), cache := enc.2);
      var c := AfterClean(m, "greedy", encoded, enc.0, cleanLength);
    }
  }

  /**
   * The carried decoder state after a successful greedy call with clean frames:
   * the last token becomes the id of the last clean token, or none at all when
   * the clean frames emit nothing — while the hidden state is then left as it
   * was. So a session can carry a hidden state with no last token.
   */
  lemma AddAudioCarry<F, D, H, C>(m: Model<F, D, H, C>, dropSize: int, samplesToKeep: int, s: Session<H, C>, audio: seq<real>)
    ensures var enc := m.net.encodeCached(s.audioBuffer + audio, s.cache);
            var cleanLength := CleanLength(enc.1, dropSize);
            var r := AddAudioSpec(m, dropSize, samplesToKeep, "greedy", s, audio);
            var s' := r.1;
            var emitted := s'.cleanTokens[|s.cleanTokens|..];
            r.0.Success? && cleanLength > 0 ==>
              && |s.cleanTokens| <= |s'.cleanTokens|
              && s'.lastToken == LastId(emitted)
              && (emitted == [] ==> s'.lastToken.None? && s'.decoderHidden == s.decoderHidden)
              && (emitted != [] ==> s'.decoderHidden.Some?)
  {
    var buffer := s.audioBuffer + audio;
    var enc := m.net.encodeCached(buffer, s.cache);
    var cleanLength := CleanLength(enc.1, dropSize);
    var encoded := s.(audioBuffer := KeepLast(buffer, samplesToKeep), cache := enc.2);
    DecodeCarryFromStart(m, Take(enc.0, cleanLength), cleanLength, s.lastToken, s.decoderHidden);
    var c := AfterClean(m, "greedy", encoded, enc.0, cleanLength);
    if c.Success? && cleanLength > 0 {
      var d := DecodeLoop(m, Take(enc.0, cleanLength), cleanLength, InitialState(s.lastToken, s.decoderHidden));
      assert c.value.cleanTokens[|s.cleanTokens|..] == d.value.0;
    }
  }

  /**
   * Once the front end has accepted the buffer, a mode other than greedy fails
   * the call as soon as there is a frame to decode, clean or dirty; with none
   * only the buffer and the caches change.
   */
  lemma AddAudioMode<F, D, H, C>(m: Model<F, D, H, C>, dropSize: int, samplesToKeep: int, mode: string,
                                 s: Session<H, C>, audio: seq<real>)
    ensures var enc := m.net.encodeCached(s.audioBuffer + audio, s.cache);
            var r := AddAudioSpec(m, dropSize, samplesToKeep, mode, s, audio);
            var nothingToDecode := enc.1 <= 0 && enc.1 <= dropSize;
            var accepted := !m.net.melFails(s.audioBuffer + audio);
            && (accepted && mode != "greedy" && !nothingToDecode ==> r.0 == Failure(UnsupportedDecoding))
            && (accepted && nothingToDecode ==>
                  && r.0.Success? && r.1.decoderHidden == s.decoderHidden && r.1.lastToken == s.lastToken
                  && r.1.cleanTokens == s.cleanTokens && r.1.dirtyTokens == s.dirtyTokens)
  {
    var buffer := s.audioBuffer + audio;
    var enc := m.net.encodeCached(buffer, s.cache);
    var cleanLength := CleanLength(enc.1, dropSize);
    var encoded := s.(audioBuffer := KeepLast(buffer, samplesToKeep), cache := enc.2);
    if !m.net.melFails(buffer) && mode != "greedy" && cleanLength > 0 {
      assert AfterClean(m, mode, encoded, enc.0, cleanLength) == Failure(UnsupportedDecoding);
    }
  }

  /** The transcript of a session state: its clean and dirty tokens, segmented. */
  function SessionResult<H, C>(s: Session<H, C>): (r: AlignedResult)
    ensures Flatten(r.sentences) == s.cleanTokens + s.dirtyTokens
    ensures WellSegmented(r.sentences)
  {
    SegmentFlatten(s.cleanTokens + s.dirtyTokens);
    SegmentShape(s.cleanTokens + s.dirtyTokens);
    AlignedResult(Segment(s.cleanTokens + s.dirtyTokens))
  }

  class StreamingParakeet<F, D, H, C> {
    const model: Model<F, D, H, C>
    const contextSize: (int, int)
    const depth: int
    const decodingMode: string

    var audioBuffer: seq<real>
    var decoderHidden: Option<H>
    var lastToken: Option<int>
    var cleanTokens: seq<Token>
    var dirtyTokens: seq<Token>
    var cache: seq<C>

    /**
     * A fresh session: empty buffer, nothing carried, and one cache slot per
     * encoder layer, each holding the initial rotating cache for the context
     * size and drop size.
     */
    constructor (model: Model<F, D, H, C>, contextSize: (int, int), depth: int, decodingMode: string)
      ensures this.model == model && this.contextSize == contextSize && this.depth == depth
      ensures this.decodingMode == decodingMode
      ensures State() == Session([], None, None, [], [],
                                 seq(model.net.nLayers, _ => model.net.newCache(contextSize.0, contextSize.1 * depth)))
    {
      this.model := model;
      this.contextSize := contextSize;
      this.depth := depth;
      this.decodingMode := decodingMode;
      audioBuffer := [];
      decoderHidden := None;
      lastToken := None;
      cleanTokens := [];
      dirtyTokens := [];
      cache := seq(model.net.nLayers, _ => model.net.newCache(contextSize.0, contextSize.1 * depth));
    }

    /** The session's mutable fields as one value. */
    function State(): Session<H, C>
      reads this
    {
      Session(audioBuffer, decoderHidden, lastToken, cleanTokens, dirtyTokens, cache)
    }

    /** `dropSize`: the number of trailing encoder frames treated as dirty. */
    function DropSize(): int
    {
      contextSize.1 * depth
    }

    /** The `result` property: reads the session, changes nothing. */
    function CurrentResult(): (r: AlignedResult)
      reads this
      ensures r == SessionResult(State())
      ensures Flatten(r.sentences) == cleanTokens + dirtyTokens
    {
      SessionResult(State())
    }

    /** The clean-region part of `addAudio`: decode the clean frames and commit what they give. */
    method DecodeClean(features: seq<F>, cleanLength: int) returns (r: Result<(), Error>)
      modifies this
      ensures var c := AfterClean(model, decodingMode, old(State()), features, cleanLength);
              && (c.Failure? ==> r == Failure(c.error) && State() == old(State()))
              && (c.Success? ==> r == Success(()) && State() == c.value)
    {
      if cleanLength > 0 {
        var cleanDecoded := DecodeBatchOfOne(model, Take(features, cleanLength), cleanLength,
                                             lastToken, decoderHidden, decodingMode);
        if cleanDecoded.Failure? {
          return Failure(cleanDecoded.error);
        }
        decoderHidden := cleanDecoded.value.1;
        lastToken := LastId(cleanDecoded.value.0);
        cleanTokens := cleanTokens + cleanDecoded.value.0;
      }
      return Success(());
    }

    /** The dirty-region part of `addAudio`: decode the frames after the clean ones and replace the dirty tokens. */
    method DecodeDirty(features: seq<F>, cleanLength: int, length: int) returns (r: Result<(), Error>)
      requires cleanLength >= 0
      modifies this
      ensures var d := AfterDirty(model, decodingMode, old(State()), features, cleanLength, length);
              && (d.Failure? ==> r == Failure(d.error) && State() == old(State()))
              && (d.Success? ==> r == Success(()) && State() == d.value)
    {
      if length > cleanLength {
        var dirtyDecoded := DecodeBatchOfOne(model, DropFront(features, cleanLength), length - cleanLength,
                                             lastToken, decoderHidden, decodingMode);
        if dirtyDecoded.Failure? {
          return Failure(dirtyDecoded.error);
        }
        dirtyTokens := dirtyDecoded.value.0;
      }
      return Success(());
    }

    /** `addAudio` */
    method AddAudio(audio: seq<real>) returns (r: Result<(), Error>)
      modifies this
      ensures (r, State()) == AddAudioSpec(model, DropSize(), SamplesToKeep(model, DropSize()), decodingMode, old(State()), audio)
    {
      ghost var s0 := State();
      audioBuffer := audioBuffer + audio;
      if model.net.melFails(audioBuffer) {
        return Failure(FrontEndError);
      }

      var enc := model.net.encodeCached(audioBuffer, cache);
      var features, length := enc.0, enc.1;
      cache := enc.2;

      var samplesToKeep := DropSize() * model.audio.subsamplingFactor * model.audio.hopLength;
      if |audioBuffer| > samplesToKeep {
        audioBuffer := if samplesToKeep <= 0 then [] else audioBuffer[|audioBuffer| - samplesToKeep..];
      }
      assert State() == s0.(audioBuffer := KeepLast(s0.audioBuffer + audio, samplesToKeep), cache := enc.2);

      var cleanLength := Max(0, length - DropSize());
      assert cleanLength == CleanLength(length, DropSize());
      r := DecodeClean(features, cleanLength);
      if r.Failure? {
        return;
      }
      r := DecodeDirty(features, cleanLength, length);
    }
  }
}
