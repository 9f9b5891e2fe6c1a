/**
 * Whole-utterance and chunked transcription (`generate`, `transcribe`,
 * `transcribeChunked`). Audio is a sequence of samples. The log-mel front end
 * may throw (`melFails`); where it does not, the front end and the encoder
 * together are the model's `encode` network, which yields the encoder frames
 * and the frame count the decoder is to read.
 */
module Transcription {
  import opened Wrappers
  import opened Timeline
  import opened Segmentation
  import opened TdtDecoder
  import opened Merge

  function Min(a: int, b: int): int
  {
    if a <= b then a else b
  }

  /** Swift's `Int(x)` on a finite Float: truncation toward zero. */
  function Truncate(x: real): (n: int)
    ensures 0.0 <= x ==> n as real <= x < n as real + 1.0
    ensures x < 0.0 ==> n as real - 1.0 < x <= n as real
  {
    if x >= 0.0 then x.Floor else -((-x).Floor)
  }

  // ---------------------------------------------------------------- generate

  /**
   * `getLogMel` and then `generate` on one utterance: the front end, then
   * encode, decode greedily from a fresh state, segment.
   */
  function GenerateResult<F, D, H, C>(m: Model<F, D, H, C>, audio: seq<real>): Result<AlignedResult, Error>
  {
    if m.net.melFails(audio) then Failure(FrontEndError)
    else
      var enc := m.net.encode(audio);
      match DecodeLoop(m, enc.0, enc.1, InitialState(None, None))
      case Failure(e) => Failure(e)
      case Success(d) => Success(AlignedResult(Segment(d.0)))
  }

  /**
   * Transcribing one utterance succeeds exactly when the front end does not
   * throw and the decode succeeds; it fails with the front end's error or else
   * the decode's. Its sentences are then a segmentation of the decoded tokens,
   * which carry vocabulary ids and starts on encoder frames that never go down.
   */
  lemma GenerateTokens<F, D, H, C>(m: Model<F, D, H, C>, audio: seq<real>)
    ensures var enc := m.net.encode(audio);
            var d := DecodeLoop(m, enc.0, enc.1, InitialState(None, None));
            var r := GenerateResult(m, audio);
            && (r.Success? <==> !m.net.melFails(audio) && d.Success?)
            && (r.Failure? && m.net.melFails(audio) ==> r.error == FrontEndError)
            && (r.Failure? && !m.net.melFails(audio) ==> r.error == d.error)
            && (r.Success? ==> && Flatten(r.value.sentences) == d.value.0
                               && WellSegmented(r.value.sentences)
                               && WellTimed(m, 0, enc.1, d.value.0))
  {
    var enc := m.net.encode(audio);
    var d := DecodeLoop(m, enc.0, enc.1, InitialState(None, None));
    DecodeWellTimed(m, enc.0, enc.1, None, None);
    if d.Success? {
      SegmentFlatten(d.value.0);
      SegmentShape(d.value.0);
    }
  }

  /** `generate`: a batch of one utterance through `decode`, then `tokensToSentences`. */
  method Generate<F, D, H, C>(m: Model<F, D, H, C>, audio: seq<real>) returns (r: Result<AlignedResult, Error>)
    ensures r == GenerateResult(m, audio)
  {
    if m.net.melFails(audio) {
      return Failure(FrontEndError);
    }
    var enc := m.net.encode(audio);
    var features, length := enc.0, enc.1;
    var decoded := DecodeBatchOfOne(m, features, length, None, None, "greedy");
    if decoded.Failure? {
      return Failure(decoded.error);
    }
    var sentences := TokensToSentences(decoded.value.0);
    return Success(SentencesToResult(sentences));
  }

  // ----------------------------------------------------------------- windows

  /**
   * Whether the window loop, at sample `start`, ends without running forever
   * or reading before the audio: it stops here, or its stride moves forward.
   */
  predicate WindowsEnd(audioLength: int, chunkSamples: int, stride: int, hop: nat, start: int)
  {
    0 <= start && (stride > 0 || start >= audioLength || Min(start + chunkSamples, audioLength) - start < hop)
  }

  /**
   * The sample windows `[start, end)` the chunk loop visits from `start` on:
   * the loop stops at the end of the audio or at a window shorter than a hop.
   */
  function Windows(audioLength: int, chunkSamples: int, stride: int, hop: nat, start: int): (ws: seq<(int, int)>)
    requires WindowsEnd(audioLength, chunkSamples, stride, hop, start)
    ensures forall k :: 0 <= k < |ws| ==> start <= ws[k].0 <= ws[k].1 <= audioLength
    decreases audioLength - start
  {
    if start >= audioLength then []
    else
      var end := Min(start + chunkSamples, audioLength);
      if end - start < hop then []
      else [(start, end)] + Windows(audioLength, chunkSamples, stride, hop, start + stride)
  }

  /** Whether the loop stops at `start` without processing a window there. */
  predicate StopsAt(audioLength: int, chunkSamples: int, hop: int, start: int)
  {
    start >= audioLength || Min(start + chunkSamples, audioLength) - start < hop
  }

  /**
   * The k-th window starts k strides in, ends a chunk later or at the end of
   * the audio, is at least a hop long; the loop stops exactly at the first
   * position past the last window.
   */
  lemma {:induction false} WindowsShape(audioLength: int, chunkSamples: int, stride: int, hop: nat, start: int)
    requires WindowsEnd(audioLength, chunkSamples, stride, hop, start)
    ensures var ws := Windows(audioLength, chunkSamples, stride, hop, start);
            && (forall k :: 0 <= k < |ws| ==>
                  && ws[k].0 == start + k * stride
                  && ws[k].1 == Min(ws[k].0 + chunkSamples, audioLength)
                  && ws[k].1 - ws[k].0 >= hop
                  && !StopsAt(audioLength, chunkSamples, hop, ws[k].0))
            && StopsAt(audioLength, chunkSamples, hop, start + |ws| * stride)
    decreases audioLength - start
  {
    var ws := Windows(audioLength, chunkSamples, stride, hop, start);
    if ws != [] {
      WindowsShape(audioLength, chunkSamples, stride, hop, start + stride);
      var rest := Windows(audioLength, chunkSamples, stride, hop, start + stride);
      var w0 := (start, Min(start + chunkSamples, audioLength));
      assert ws == [w0] + rest;
      forall k | 0 <= k < |ws|
        ensures && ws[k].0 == start + k * stride
                && ws[k].1 == Min(ws[k].0 + chunkSamples, audioLength)
                && ws[k].1 - ws[k].0 >= hop
                && !StopsAt(audioLength, chunkSamples, hop, ws[k].0)
      {
        if k == 0 {
          assert ws[0] == w0 && 0 * stride == 0;
        } else {
          assert ws[k] == rest[k - 1];
          MulSucc(k - 1, stride);
        }
      }
      MulSucc(|rest|, stride);
    }
  }

  /** Where the loop stops, there are no windows left. */
  lemma WindowsStop(audioLength: int, chunkSamples: int, stride: int, hop: nat, start: int)
    requires WindowsEnd(audioLength, chunkSamples, stride, hop, start)
    requires StopsAt(audioLength, chunkSamples, hop, start)
    ensures Windows(audioLength, chunkSamples, stride, hop, start) == []
  {
  }

  // ----------------------------------------------------------------- rebasing

  /** Every token moved later by `offset` seconds. */
  function ShiftAll(ts: seq<Token>, offset: real): (r: seq<Token>)
  {
    seq(|ts|, i requires 0 <= i < |ts| => ts[i].Shifted(offset))
  }

  /**
   * Re-basing keeps each token's id, text and duration and the gaps between
   * starts, and moves every start by exactly the offset.
   */
  lemma ShiftAllKeeps(ts: seq<Token>, offset: real)
    ensures var r := ShiftAll(ts, offset);
            && |r| == |ts|
            && (forall i :: 0 <= i < |ts| ==>
                  && r[i].id == ts[i].id && r[i].text == ts[i].text && r[i].duration == ts[i].duration
                  && r[i].start == ts[i].start + offset)
            && (forall i, j :: 0 <= i < |ts| && 0 <= j < |ts| ==> r[j].start - r[i].start == ts[j].start - ts[i].start)
  {
  }

  /** Re-basing by zero changes nothing. */
  lemma ShiftAllZero(ts: seq<Token>)
    ensures ShiftAll(ts, 0.0) == ts
  {
    assert forall i :: 0 <= i < |ts| ==> ts[i].Shifted(0.0) == ts[i];
  }

  /** The re-basing loop of `transcribeChunked`: every token of every sentence, its start moved by the offset. */
  method RebaseChunk(sentences: seq<Sentence>, chunkOffset: real) returns (chunkTokens: seq<Token>)
    ensures chunkTokens == ShiftAll(Flatten(sentences), chunkOffset)
  {
    chunkTokens := [];
    for i := 0 to |sentences|
      invariant chunkTokens == ShiftAll(Flatten(sentences[..i]), chunkOffset)
    {
      var sentence := sentences[i];
      ghost var before := Flatten(sentences[..i]);
      for j := 0 to |sentence.tokens|
        invariant chunkTokens == ShiftAll(before + sentence.tokens[..j], chunkOffset)
      {
        var token := sentence.tokens[j];
        token := token.(start := token.start + chunkOffset);
        assert before + sentence.tokens[..j + 1] == (before + sentence.tokens[..j]) + [sentence.tokens[j]];
        chunkTokens := chunkTokens + [token];
      }
      assert sentences[..i + 1] == sentences[..i] + [sentence];
      FlattenAppend(sentences[..i], [sentence]);
      assert Flatten([sentence]) == sentence.tokens;
      assert sentence.tokens[..|sentence.tokens|] == sentence.tokens;
    }
    assert sentences[..|sentences|] == sentences;
  }

  // ------------------------------------------------------------- chunk loop

  /** Sample sizes of a duration, truncated as `Int(duration * Float(sampleRate))`. */
  function Samples(c: AudioConfig, duration: real): int
  {
    Truncate(duration * c.sampleRate as real)
  }

  /** Every window lies within `n` samples. */
  predicate WithinAudio(ws: seq<(int, int)>, n: int)
  {
    forall k :: 0 <= k < |ws| ==> 0 <= ws[k].0 <= ws[k].1 <= n
  }

  /**
   * One turn of the chunk loop at window `w`: its decoded tokens re-based to
   * the window's start and merged into `acc` (or taken as they are while `acc`
   * is empty); a failed decode is the turn's error.
   */
  function StitchStep<F, D, H, C>(m: Model<F, D, H, C>, audio: seq<real>, w: (int, int),
                                  overlapDuration: real, acc: seq<Token>): Result<seq<Token>, Error>
    requires 0 <= w.0 <= w.1 <= |audio|
  {
    match GenerateResult(m, audio[w.0..w.1])
    case Failure(e) => Failure(e)
    case Success(res) =>
      var chunkTokens := ShiftAll(Flatten(res.sentences), w.0 as real / m.audio.sampleRate as real);
      Success(if acc != [] then MergeLongestContiguous(acc, chunkTokens, overlapDuration) else chunkTokens)
  }

  /**
   * The tokens the chunk loop holds after the windows `ws`, starting from `acc`;
   * the first window whose decode fails ends the whole call with its error.
   */
  function Stitch<F, D, H, C>(m: Model<F, D, H, C>, audio: seq<real>, ws: seq<(int, int)>,
                              overlapDuration: real, acc: seq<Token>): Result<seq<Token>, Error>
    requires WithinAudio(ws, |audio|)
    decreases |ws|
  {
    if ws == [] then Success(acc)
    else match StitchStep(m, audio, ws[0], overlapDuration, acc)
      case Failure(e) => Failure(e)
      case Success(next) => Stitch(m, audio, ws[1..], overlapDuration, next)
  }

  /** Whether the front end accepts `chunk` and the greedy decode of its frames succeeds. */
  predicate ChunkDecodes<F, D, H, C>(m: Model<F, D, H, C>, chunk: seq<real>)
  {
    !m.net.melFails(chunk) && DecodeLoop(m, m.net.encode(chunk).0, m.net.encode(chunk).1, InitialState(None, None)).Success?
  }

  /** Whether every window of `ws` passes the front end and decodes. */
  predicate AllChunksDecode<F, D, H, C>(m: Model<F, D, H, C>, audio: seq<real>, ws: seq<(int, int)>)
    requires WithinAudio(ws, |audio|)
  {
    forall k :: 0 <= k < |ws| ==> ChunkDecodes(m, audio[ws[k].0..ws[k].1])
  }

  /** The chunk loop fails exactly when, at some window, the front end throws or the decode fails. */
  lemma {:induction false} StitchSucceeds<F, D, H, C>(m: Model<F, D, H, C>, audio: seq<real>, ws: seq<(int, int)>,
                                                      overlapDuration: real, acc: seq<Token>)
    requires WithinAudio(ws, |audio|)
    ensures Stitch(m, audio, ws, overlapDuration, acc).Success? <==> AllChunksDecode(m, audio, ws)
    decreases |ws|
  {
    if ws != [] {
      var step := StitchStep(m, audio, ws[0], overlapDuration, acc);
      assert step.Success? <==> ChunkDecodes(m, audio[ws[0].0..ws[0].1]);
      if step.Success? {
        StitchSucceeds(m, audio, ws[1..], overlapDuration, step.value);
        assert forall k :: 1 <= k < |ws| ==> ws[k] == ws[1..][k - 1];
        if AllChunksDecode(m, audio, ws[1..]) {
          forall k | 0 <= k < |ws|
            ensures ChunkDecodes(m, audio[ws[k].0..ws[k].1])
          {
            if k > 0 {
              assert ws[k] == ws[1..][k - 1];
            }
          }
        }
      }
    }
  }

  /**
   * One turn of the chunk loop: at a window it does not stop at, the loop's
   * outcome is that window's decode failure, or the outcome from the next start
   * with that window's re-based tokens merged in.
   */
  lemma StitchUnfold<F, D, H, C>(m: Model<F, D, H, C>, audio: seq<real>, chunkSamples: int, stride: int,
                                 start: int, next: int, overlapDuration: real, acc: seq<Token>)
    requires WindowsEnd(|audio|, chunkSamples, stride, m.audio.hopLength, start)
    requires !StopsAt(|audio|, chunkSamples, m.audio.hopLength, start)
    requires next == start + stride
    ensures stride > 0 && WindowsEnd(|audio|, chunkSamples, stride, m.audio.hopLength, next)
    ensures var step := StitchStep(m, audio, (start, Min(start + chunkSamples, |audio|)), overlapDuration, acc);
            var here := Stitch(m, audio, Windows(|audio|, chunkSamples, stride, m.audio.hopLength, start), overlapDuration, acc);
            && (step.Failure? ==> here == Failure(step.error))
            && (step.Success? ==>
                  here == Stitch(m, audio, Windows(|audio|, chunkSamples, stride, m.audio.hopLength, next),
                                 overlapDuration, step.value))
  {
    var ws := Windows(|audio|, chunkSamples, stride, m.audio.hopLength, start);
    assert ws[1..] == Windows(|audio|, chunkSamples, stride, m.audio.hopLength, next);
  }

  /** Whether the window loop over `audioLength` samples ends, for the given chunk and overlap sizes. */
  predicate WindowLoopEnds(c: AudioConfig, audioLength: int, chunkSamples: int, overlapSamples: int)
  {
    WindowsEnd(audioLength, chunkSamples, chunkSamples - overlapSamples, c.hopLength, 0)
  }

  /** Whether chunked transcription of `audioLength` samples ends (its window loop does). */
  predicate ChunkingEnds(c: AudioConfig, audioLength: int, chunkDuration: real, overlapDuration: real)
  {
    WindowLoopEnds(c, audioLength, Samples(c, chunkDuration), Samples(c, overlapDuration))
  }

  /** The windows the chunk loop visits. */
  function ChunkWindows(c: AudioConfig, audioLength: int, chunkSamples: int, overlapSamples: int): (ws: seq<(int, int)>)
    requires WindowLoopEnds(c, audioLength, chunkSamples, overlapSamples)
    ensures WithinAudio(ws, audioLength)
  {
    Windows(audioLength, chunkSamples, chunkSamples - overlapSamples, c.hopLength, 0)
  }

  /** The tokens the chunk loop gathers over the whole audio. */
  function StitchedTokens<F, D, H, C>(m: Model<F, D, H, C>, audio: seq<real>, chunkSamples: int, overlapSamples: int,
                                      overlapDuration: real): Result<seq<Token>, Error>
    requires WindowLoopEnds(m.audio, |audio|, chunkSamples, overlapSamples)
  {
    Stitch(m, audio, ChunkWindows(m.audio, |audio|, chunkSamples, overlapSamples), overlapDuration, [])
  }

  /** What `transcribeChunked` returns: the stitched tokens, segmented. */
  function ChunkedResult<F, D, H, C>(m: Model<F, D, H, C>, audio: seq<real>, chunkDuration: real,
                                     overlapDuration: real): Result<AlignedResult, Error>
    requires ChunkingEnds(m.audio, |audio|, chunkDuration, overlapDuration)
  {
    match StitchedTokens(m, audio, Samples(m.audio, chunkDuration), Samples(m.audio, overlapDuration), overlapDuration)
    case Failure(e) => Failure(e)
    case Success(ts) => Success(AlignedResult(Segment(ts)))
  }

  /**
   * Chunked transcription succeeds exactly when every window passes the front
   * end and decodes, fails
   * with the chunk loop's error otherwise, and then its sentences are a
   * segmentation of the stitched tokens.
   */
  lemma ChunkedTokens<F, D, H, C>(m: Model<F, D, H, C>, audio: seq<real>, chunkDuration: real, overlapDuration: real)
    requires ChunkingEnds(m.audio, |audio|, chunkDuration, overlapDuration)
    ensures var cs := Samples(m.audio, chunkDuration);
            var os := Samples(m.audio, overlapDuration);
            var t := StitchedTokens(m, audio, cs, os, overlapDuration);
            var r := ChunkedResult(m, audio, chunkDuration, overlapDuration);
            && (r.Success? <==> AllChunksDecode(m, audio, ChunkWindows(m.audio, |audio|, cs, os)))
            && (r.Failure? ==> t.Failure? && r.error == t.error)
            && (r.Success? ==> t.Success? && Flatten(r.value.sentences) == t.value && WellSegmented(r.value.sentences))
  {
    var cs := Samples(m.audio, chunkDuration);
    var os := Samples(m.audio, overlapDuration);
    StitchSucceeds(m, audio, ChunkWindows(m.audio, |audio|, cs, os), overlapDuration, []);
    var t := StitchedTokens(m, audio, cs, os, overlapDuration);
    if t.Success? {
      SegmentFlatten(t.value);
      SegmentShape(t.value);
    }
  }

  /**
   * Audio that fits one window, with a stride that reaches past its end, is
   * transcribed chunk-wise exactly as it is by `generate`.
   */
  lemma ChunkedSingleWindow<F, D, H, C>(m: Model<F, D, H, C>, audio: seq<real>, chunkDuration: real,
                                        overlapDuration: real)
    requires var chunkSamples := Samples(m.audio, chunkDuration);
             && 0 < |audio| && m.audio.hopLength <= |audio| <= chunkSamples
             && |audio| <= chunkSamples - Samples(m.audio, overlapDuration)
    ensures ChunkingEnds(m.audio, |audio|, chunkDuration, overlapDuration)
    ensures ChunkedResult(m, audio, chunkDuration, overlapDuration) == GenerateResult(m, audio)
  {
    var chunkSamples := Samples(m.audio, chunkDuration);
    var stride := chunkSamples - Samples(m.audio, overlapDuration);
    var ws := ChunkWindows(m.audio, |audio|, chunkSamples, Samples(m.audio, overlapDuration));
    assert ws == [(0, |audio|)] by {
      assert Windows(|audio|, chunkSamples, stride, m.audio.hopLength, stride) == [];
    }
    assert audio[0..|audio|] == audio;
    var res := GenerateResult(m, audio);
    if res.Success? {
      var tokens := Flatten(res.value.sentences);
      assert 0 as real / m.audio.sampleRate as real == 0.0;
      ShiftAllZero(tokens);
      var enc := m.net.encode(audio);
      var d := DecodeLoop(m, enc.0, enc.1, InitialState(None, None));
      SegmentFlatten(d.value.0);
      assert Stitch(m, audio, ws, overlapDuration, []) == Success(tokens);
    }
  }

  /**
   * The window loop of `transcribeChunked`: decode each window, re-base its
   * tokens to the window's start, merge them into what came before.
   */
  method ChunkLoop<F, D, H, C>(m: Model<F, D, H, C>, audio: seq<real>, chunkSamples: int, overlapSamples: int,
                               overlapDuration: real) returns (r: Result<seq<Token>, Error>)
    requires WindowLoopEnds(m.audio, |audio|, chunkSamples, overlapSamples)
    ensures r == StitchedTokens(m, audio, chunkSamples, overlapSamples, overlapDuration)
  {
    var audioLength := |audio|;
    var stride := chunkSamples - overlapSamples;
    var hop := m.audio.hopLength;

    var allTokens: seq<Token> := [];
    var start := 0;
    ghost var target := StitchedTokens(m, audio, chunkSamples, overlapSamples, overlapDuration);
    assert Windows(audioLength, chunkSamples, stride, hop, start) == ChunkWindows(m.audio, |audio|, chunkSamples, overlapSamples);
    assert Stitch(m, audio, Windows(audioLength, chunkSamples, stride, hop, start), overlapDuration, allTokens) == target;

    while start < audioLength
      invariant WindowsEnd(audioLength, chunkSamples, stride, hop, start)
      invariant Stitch(m, audio, Windows(audioLength, chunkSamples, stride, hop, start), overlapDuration, allTokens) == target
      decreases audioLength - start
    {
      var end := Min(start + chunkSamples, audioLength);

      if end - start < hop {
        WindowsStop(audioLength, chunkSamples, stride, hop, start);
        break;
      }
      var next := start + stride;
      var step := ChunkTurn(m, audio, chunkSamples, stride, start, next, overlapDuration, allTokens, target);
      if step.Failure? {
        return Failure(step.error);
      }
      allTokens := step.value;
      start := next;
    }
    if start >= audioLength {
      WindowsStop(audioLength, chunkSamples, stride, hop, start);
    }
    return Success(allTokens);
  }

  /**
   * One turn of the chunk loop at a start it does not stop at, related to the
   * loop's outcome `target`: a failure is that outcome, and on success the
   * outcome is unchanged from the next start with the new tokens.
   */
  method ChunkTurn<F, D, H, C>(m: Model<F, D, H, C>, audio: seq<real>, chunkSamples: int, stride: int, start: int,
                               next: int, overlapDuration: real, allTokens: seq<Token>, ghost target: Result<seq<Token>, Error>)
    returns (r: Result<seq<Token>, Error>)
    requires WindowsEnd(|audio|, chunkSamples, stride, m.audio.hopLength, start)
    requires !StopsAt(|audio|, chunkSamples, m.audio.hopLength, start)
    requires next == start + stride
    requires Stitch(m, audio, Windows(|audio|, chunkSamples, stride, m.audio.hopLength, start), overlapDuration, allTokens)
             == target
    ensures stride > 0 && WindowsEnd(|audio|, chunkSamples, stride, m.audio.hopLength, next)
    ensures r.Failure? ==> target == Failure(r.error)
    ensures r.Success? ==>
              Stitch(m, audio, Windows(|audio|, chunkSamples, stride, m.audio.hopLength, next), overlapDuration, r.value)
              == target
  {
    StitchUnfold(m, audio, chunkSamples, stride, start, next, overlapDuration, allTokens);
    r := ChunkStep(m, audio, start, Min(start + chunkSamples, |audio|), overlapDuration, allTokens);
  }

  /** The body of the chunk loop for the window [start, end): `generate`, re-base, merge. */
  method ChunkStep<F, D, H, C>(m: Model<F, D, H, C>, audio: seq<real>, start: int, end: int,
                               overlapDuration: real, allTokens: seq<Token>) returns (r: Result<seq<Token>, Error>)
    requires 0 <= start <= end <= |audio|
    ensures r == StitchStep(m, audio, (start, end), overlapDuration, allTokens)
  {
    var chunkResult := Generate(m, audio[start..end]);
    if chunkResult.Failure? {
      return Failure(chunkResult.error);
    }
    var chunkOffset := start as real / m.audio.sampleRate as real;
    var chunkTokens := RebaseChunk(chunkResult.value.sentences, chunkOffset);
    if allTokens != [] {
      return Success(MergeLongestContiguous(allTokens, chunkTokens, overlapDuration));
    }
    return Success(chunkTokens);
  }

  /** `transcribeChunked`: chunk and overlap sizes in samples, the window loop, then `tokensToSentences`. */
  method TranscribeChunked<F, D, H, C>(m: Model<F, D, H, C>, audio: seq<real>, chunkDuration: real,
                                       overlapDuration: real) returns (r: Result<AlignedResult, Error>)
    requires ChunkingEnds(m.audio, |audio|, chunkDuration, overlapDuration)
    ensures r == ChunkedResult(m, audio, chunkDuration, overlapDuration)
  {
    var chunkSamples := Samples(m.audio, chunkDuration);
    var overlapSamples := Samples(m.audio, overlapDuration);
    var allTokens := ChunkLoop(m, audio, chunkSamples, overlapSamples, overlapDuration);
    if allTokens.Failure? {
      return Failure(allTokens.error);
    }
    var sentences := TokensToSentences(allTokens.value);
    return Success(SentencesToResult(sentences));
  }

  /** Whether `transcribe` takes the one-shot path: no chunk duration, or audio no longer than one chunk. */
  predicate OneShot(c: AudioConfig, audioLength: int, chunkDuration: Option<real>)
  {
    chunkDuration.None? || audioLength as real / c.sampleRate as real <= chunkDuration.value
  }

  /**
   * `transcribe`: audio that needs no chunking goes through `generate` whole;
   * longer audio goes through the chunk loop.
   */
  method Transcribe<F, D, H, C>(m: Model<F, D, H, C>, audio: seq<real>, chunkDuration: Option<real>,
                                overlapDuration: real) returns (r: Result<AlignedResult, Error>)
    requires !OneShot(m.audio, |audio|, chunkDuration) ==>
               ChunkingEnds(m.audio, |audio|, chunkDuration.value, overlapDuration)
    ensures OneShot(m.audio, |audio|, chunkDuration) ==> r == GenerateResult(m, audio)
    ensures !OneShot(m.audio, |audio|, chunkDuration) ==>
              r == ChunkedResult(m, audio, chunkDuration.value, overlapDuration)
  {
    if chunkDuration.Some? {
      var audioLengthSeconds := |audio| as real / m.audio.sampleRate as real;
      if audioLengthSeconds <= chunkDuration.value {
        r := Generate(m, audio);
        return;
      }
      r := TranscribeChunked(m, audio, chunkDuration.value, overlapDuration);
    } else {
      r := Generate(m, audio);
    }
  }
}
