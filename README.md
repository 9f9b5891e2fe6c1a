# swift-parakeet-mlx core, modelled in Dafny

This project models the inference core of `ParakeetMLX`: a speech-to-text
model built on a Token-and-Duration Transducer (TDT). The core has five
parts.

- **The greedy decoder** (`ParakeetTDT.decode`). A frame pointer walks the
  encoder frames. At each pass the prediction network and the joint network
  choose a class and a duration bin. A non-blank class emits a token. The
  pointer moves by the chosen duration, and a stall counter forces it
  forward after `maxSymbols` zero-length passes.
- **The timeline value types and sentence segmentation**. These are
  `AlignedToken`, `AlignedSentence`, `AlignedResult`, `tokensToSentences`
  and `sentencesToResult`.
- **Utterance and chunked transcription, and the merge**. This covers
  `generate`, `transcribe`, `transcribeChunked` and `mergeLongestContiguous`.
  Long audio is cut into overlapping sample windows. Each window is decoded
  on its own and its tokens are re-based to the window's start. They are
  then stitched to the tokens so far by a time-cutoff filter.
- **The streaming session** (`StreamingParakeet`). This is a class whose
  `addAudio` appends audio to a buffer and encodes the buffer with the
  encoder caches. It appends the tokens of the "clean" frames for good and
  replaces the tokens of the trailing "dirty" frames.
- **Checkpoint key renaming** (`mapSafetensorsKeyToSwiftPath`). This uses
  prefix tests, dropping a prefix, and fixed lists of replace-all rewrites.

The neural networks, the log-mel front end and the tokenizer are
function-valued fields of the `Networks` datatype (in `decoder.dfy`). The
model states everything in terms of what they return. Times are exact
`real` seconds, and encoder frames and audio samples are integers.

Files:

- `wrappers.dfy`: `Option` and `Result`.
- `timeline.dfy`: tokens, sentences, results, and frame-to-seconds conversion.
- `segmentation.dfy`: `tokensToSentences`.
- `decoder.dfy`: `decode`, the `ParakeetTDT` initialiser's guard and default.
- `merge.dfy`: `mergeLongestContiguous`.
- `transcription.dfy`: `generate`, `transcribe`, `transcribeChunked`.
- `streaming.dfy`: `StreamingParakeet`.
- `key_rewrite.dfy`: replace-all and the rewrite lists.
- `key_mapping.dfy`: `mapSafetensorsKeyToSwiftPath` and its properties.

Three behaviours of the code are easy to misread, and the model follows
the code in each.

- **The merge cutoff.** The cutoff is written
  `tokens1.last?.end ?? (0.0 - overlapDuration)` (`:857`). Swift's `??`
  binds more loosely than `-`, so the cutoff is the last earlier token's
  end, or `-overlapDuration` when there is no earlier token.
- **The stall hard cap.** The `newSymbols > 100` break (`:528-530`) leaves
  the loop and keeps the tokens emitted so far.
- **The carried last token.** After a clean decode that emits nothing, the
  streaming session's `lastToken` becomes nil while `decoderHidden` keeps its
  old value (`:936-938`).

## Model

| member | source | states |
|---|---|---|
| TdtDecoder.Advance | Sources/ParakeetMLX/ParakeetMLX.swift:513-525 | each pass either moves the pointer forward and clears the counter, or keeps the pointer and counts one more, still below `maxSymbols`; a non-zero duration moves by exactly that much; `maxSymbols` zero-length passes force a move of one frame |
| TdtDecoder.StallCapNeedsLargeMaxSymbols | Sources/ParakeetMLX/ParakeetMLX.swift:515-530 | the `newSymbols > 100` break can only be taken when `maxSymbols > 101` |
| TdtDecoder.Step | Sources/ParakeetMLX/ParakeetMLX.swift:430-533 | one pass aborts exactly on a read past the frames, a malformed joint output, or a class or duration bin out of range; it stops exactly on non-finite logits, with the state unchanged; otherwise the pointer never goes back; a pass either changes nothing (exactly when the class is the blank) or emits one token, stamped with the current frame, with a duration from the table, and commits that token and the new hidden state |
| TdtDecoder.IterationsBound | Sources/ParakeetMLX/ParakeetMLX.swift:430-533 | termination in numbers: a sequence of `length` frames takes at most `length * max(1, maxSymbols)` passes |
| TdtDecoder.DefaultModelBounded | Sources/ParakeetMLX/ParakeetMLX.swift:278-288 | the initialiser (`MakeModel`) accepts a TDT configuration without `max_symbols` and defaults it to 10, so that model decodes `length` frames in at most `10 * length` passes and never gives up a sequence at the stall cap; only non-finite logits stop it early |
| TdtDecoder.DecodeEmission | Sources/ParakeetMLX/ParakeetMLX.swift:491-513 | decoding only appends to the hypothesis: the old tokens stay a prefix, and the appended ones are well timed from the current frame |
| TdtDecoder.DecodeCarry | Sources/ParakeetMLX/ParakeetMLX.swift:491-511 | when nothing is appended the hidden state is the one the loop started with; once something is emitted a hidden state is committed |
| TdtDecoder.DecodeCarryFromStart | Sources/ParakeetMLX/ParakeetMLX.swift:415-538 | a sequence that emits nothing returns its input hidden state unchanged; one that emits returns some committed state |
| TdtDecoder.DecodeWellTimed | Sources/ParakeetMLX/ParakeetMLX.swift:487-513 | every emitted id is in `[0, vocabSize)` with the tokenizer's text; starts lie on frames in `[0, length)` and never decrease; durations are whole frame counts from the duration table |
| TdtDecoder.NonFiniteFrameCutsOff | Sources/ParakeetMLX/ParakeetMLX.swift:453-456 | with durations of at most one frame, a frame whose logits are non-finite ends the sequence: every token starts on an earlier frame |
| TdtDecoder.StallScenario | Sources/ParakeetMLX/ParakeetMLX.swift:513-525 | a joint network that always picks the same non-blank class and a zero duration makes the decoder finish with exactly `length * maxSymbols` tokens, the k-th on frame `k / maxSymbols` |
| TdtDecoder.DecodeSequence | Sources/ParakeetMLX/ParakeetMLX.swift:420-536 | the `while` loop for one sequence computes the outcome of `DecodeLoop` from the initial carry-state |
| TdtDecoder.DecodeBatchFrom | Sources/ParakeetMLX/ParakeetMLX.swift:420-536 | the batch loop appends one token list per remaining sequence and keeps one hidden state per given slot |
| TdtDecoder.DecodeBatch | Sources/ParakeetMLX/ParakeetMLX.swift:400-539 | a mode other than greedy fails with UnsupportedDecoding; success gives one token list per sequence and the per-sequence hidden states |
| TdtDecoder.DecodeBatchIndependent | Sources/ParakeetMLX/ParakeetMLX.swift:413-538 | with missing last-token or hidden-state arguments defaulting to `nil` for every sequence (`OrNone`), sequences do not interact: the batch succeeds exactly when each sequence decoded alone does, and then holds each one's tokens and final state at its own index; states beyond the batch are passed through |
| TdtDecoder.Single | Sources/ParakeetMLX/ParakeetMLX.swift:931-932 | `x.map { [$0] }` is a batch argument whose one entry is `x` |
| TdtDecoder.DecodeSingle | Sources/ParakeetMLX/ParakeetMLX.swift:928-934 | a batch of one sequence with an explicit length fails exactly when that sequence's own decode fails, with the same error, and otherwise returns its tokens and state as one-element lists |
| TdtDecoder.DecodeBatchOfOne | Sources/ParakeetMLX/ParakeetMLX.swift:928-937 | the callers' one-sequence use of `decode`, and its first result, computes the single-sequence decode |
| TdtDecoder.Decode | Sources/ParakeetMLX/ParakeetMLX.swift:400-539 | the method with its two nested loops computes `DecodeBatch` |
| Timeline.FrameTimeAdditive | Sources/ParakeetMLX/ParakeetMLX.swift:493-498 | start and duration use the same frame-to-seconds conversion (`FrameTime`: frames times subsampling factor over sample rate times hop length), so a token from frame a lasting b frames ends at the time of frame a + b |
| Timeline.FrameTimeMonotone | Sources/ParakeetMLX/ParakeetMLX.swift:493-495 | under `FrameTime`, a later frame never has an earlier start time |
| Timeline.Token.WithEnd | Sources/ParakeetMLX/ParakeetMLX.swift:214-217 | setting `end` makes `end` the new value and changes only the duration |
| Timeline.Token.Shifted | Sources/ParakeetMLX/ParakeetMLX.swift:361-362 | adding an offset to `start` moves the end by the same offset and keeps id, duration and text |
| Timeline.ConcatTextsAppend | Sources/ParakeetMLX/ParakeetMLX.swift:232-234 | the joined texts of two token lists are the two joined texts concatenated |
| Timeline.SentenceTextSplit | Sources/ParakeetMLX/ParakeetMLX.swift:232-240 | for sentences built by the initialiser (`MakeSentence`), splitting the tokens splits the text at the same place |
| Timeline.SentenceTextLength | Sources/ParakeetMLX/ParakeetMLX.swift:232-234 | a sentence's text is exactly as long as its tokens' texts together |
| Timeline.JoinWithSpaceAppend | Sources/ParakeetMLX/ParakeetMLX.swift:246-248 | joining two non-empty lists with `" "` is the two joins with one space between |
| Timeline.ResultTextAppend | Sources/ParakeetMLX/ParakeetMLX.swift:246-248 | a result's text, the sentence texts (`SentenceTexts`) joined by spaces, is for two sentence lists the two texts separated by one space |
| Segmentation.SegmentEmpty | Sources/ParakeetMLX/ParakeetMLX.swift:823-845 | no sentences exactly when no tokens |
| Segmentation.SegmentFlatten | Sources/ParakeetMLX/ParakeetMLX.swift:823-845 | concatenating the tokens of the segmentation's sentences (`Segment`) gives back the input |
| Segmentation.SegmentShape | Sources/ParakeetMLX/ParakeetMLX.swift:829-842 | every sentence is non-empty, only its last token may contain `.`, `!` or `?`, and every sentence but the last ends with such a token |
| Segmentation.SegmentFromFlatten | Sources/ParakeetMLX/ParakeetMLX.swift:829-842 | the loop from any open sentence (`SegmentFrom`) loses and reorders no token |
| Segmentation.SegmentFromShape | Sources/ParakeetMLX/ParakeetMLX.swift:829-842 | the loop from an open sentence without punctuation produces a well-segmented list |
| Segmentation.SegmentWithoutPunctuation | Sources/ParakeetMLX/ParakeetMLX.swift:839-842 | a non-empty list without punctuation becomes one sentence holding all of it |
| Segmentation.SegmentFromNoBoundary | Sources/ParakeetMLX/ParakeetMLX.swift:829-842 | with no punctuation left, the open sentence and the rest become one sentence |
| Segmentation.SegmentFromUnique | Sources/ParakeetMLX/ParakeetMLX.swift:829-842 | any well-segmented split of the open sentence and the rest, built by the initialiser, is the loop's result |
| Segmentation.SegmentUnique | Sources/ParakeetMLX/ParakeetMLX.swift:823-845 | the segmentation is the only well-segmented split of the tokens into initialiser-built sentences |
| Segmentation.TokensToSentences | Sources/ParakeetMLX/ParakeetMLX.swift:823-849 | the loop with its two accumulators computes the segmentation, which `sentencesToResult` (`SentencesToResult`) wraps as given |
| Merge.Filter | Sources/ParakeetMLX/ParakeetMLX.swift:858-859 | the kept tokens are exactly those of the input that pass, never more than the input |
| Merge.FilterAppend | Sources/ParakeetMLX/ParakeetMLX.swift:858-859 | filtering distributes over concatenation, so the kept tokens keep their order |
| Merge.MergeMembership | Sources/ParakeetMLX/ParakeetMLX.swift:851-862 | a token is in the merge (`MergeLongestContiguous`) exactly when it is an earlier token ending by the cutoff or a later token starting at or after it |
| Merge.MergeSeparated | Sources/ParakeetMLX/ParakeetMLX.swift:857-861 | the merge is the kept earlier tokens followed by the kept later ones, and no kept earlier token ends after a kept later token starts |
| Merge.MergeKeepsLastOfFirst | Sources/ParakeetMLX/ParakeetMLX.swift:857-861 | with the cutoff (`Cutoff`) at the last earlier token's end, that token always survives, as the last of the merge's earlier part |
| Merge.MergeIgnoresOverlap | Sources/ParakeetMLX/ParakeetMLX.swift:857 | with earlier tokens present, the overlap duration has no effect on the merge |
| Merge.MergeKeepsWholeFirst | Sources/ParakeetMLX/ParakeetMLX.swift:857-861 | when no earlier token ends after the last one, all earlier tokens are kept |
| Merge.MergeIntoEmpty | Sources/ParakeetMLX/ParakeetMLX.swift:857-861 | into no earlier tokens, a non-negative overlap keeps every later token that starts at or after time 0 |
| Transcription.Truncate | Sources/ParakeetMLX/ParakeetMLX.swift:337-338 | `Int(x)` truncates toward zero |
| Transcription.GenerateTokens | Sources/ParakeetMLX/ParakeetMLX.swift:384-398 | `generate` on the output of `getLogMel` (`:313-314`) succeeds exactly when the front end does not throw and the decode succeeds; it fails with the front end's error, or else with the decode's; its sentences segment the decoded tokens, which are well timed |
| Transcription.Generate | Sources/ParakeetMLX/ParakeetMLX.swift:384-398 | the method computes `GenerateResult` |
| Transcription.Windows | Sources/ParakeetMLX/ParakeetMLX.swift:344-351 | every window lies between its start and the end of the audio |
| Transcription.WindowsShape | Sources/ParakeetMLX/ParakeetMLX.swift:344-378 | the k-th window starts `k * (chunkSamples - overlapSamples)` in and ends at `min(start + chunkSamples, audioLength)`; it is at least a hop long; the loop stops exactly at the first start past the last window |
| Transcription.WindowsStop | Sources/ParakeetMLX/ParakeetMLX.swift:344-351 | where the loop stops, no windows are left |
| Transcription.ShiftAllKeeps | Sources/ParakeetMLX/ParakeetMLX.swift:357-365 | re-basing moves every start by the offset and keeps each id, text and duration and the gaps between starts |
| Transcription.ShiftAllZero | Sources/ParakeetMLX/ParakeetMLX.swift:357-362 | re-basing by zero changes nothing |
| Transcription.RebaseChunk | Sources/ParakeetMLX/ParakeetMLX.swift:358-365 | the nested loop yields every token of every sentence, in order, re-based |
| Transcription.ChunkWindows | Sources/ParakeetMLX/ParakeetMLX.swift:337-351 | the chunk loop's windows lie within the audio |
| Transcription.StitchSucceeds | Sources/ParakeetMLX/ParakeetMLX.swift:341-379 | the chunk loop's outcome (`Stitch`, one `StitchStep` per window) is a failure exactly when, at some window, the front end throws or the decode fails |
| Transcription.StitchUnfold | Sources/ParakeetMLX/ParakeetMLX.swift:345-378 | at a start the loop does not stop at, the outcome (`Stitch`) is that window's error from `StitchStep`, or the outcome from the next start with the window's tokens merged in |
| Transcription.ChunkedTokens | Sources/ParakeetMLX/ParakeetMLX.swift:330-381 | chunked transcription succeeds exactly when every window passes the front end and decodes, and then its sentences segment the stitched tokens |
| Transcription.ChunkedSingleWindow | Sources/ParakeetMLX/ParakeetMLX.swift:341-381 | audio that fits one window, with a stride past its end, is transcribed chunk-wise exactly as `generate` transcribes it |
| Transcription.ChunkLoop | Sources/ParakeetMLX/ParakeetMLX.swift:341-379 | the `while` loop over windows computes the stitched tokens, stopping at the first failing window |
| Transcription.ChunkTurn | Sources/ParakeetMLX/ParakeetMLX.swift:345-378 | one turn keeps the loop's outcome: a failure is that outcome, and a success leaves it unchanged from the next start |
| Transcription.ChunkStep | Sources/ParakeetMLX/ParakeetMLX.swift:353-376 | the loop body decodes, re-bases, and merges (or takes the tokens as they are while none are held) |
| Transcription.TranscribeChunked | Sources/ParakeetMLX/ParakeetMLX.swift:330-382 | the method computes `ChunkedResult` |
| Transcription.Transcribe | Sources/ParakeetMLX/ParakeetMLX.swift:298-328 | without a chunk duration, or with audio no longer than one chunk, the result is `generate`'s; otherwise it is the chunked result |
| Streaming.Take | Sources/ParakeetMLX/ParakeetMLX.swift:929 | `features[0..., 0..<n]` is the first `n` frames, or all of them |
| Streaming.DropFront | Sources/ParakeetMLX/ParakeetMLX.swift:944 | `features[0..., n...]` is what follows the first `n` frames |
| Streaming.KeepLast | Sources/ParakeetMLX/ParakeetMLX.swift:918-922 | the buffer is cut to its last `samplesToKeep` samples only when it is longer than that, and is always a suffix of itself |
| Streaming.CleanLength | Sources/ParakeetMLX/ParakeetMLX.swift:925 | the clean frame count is `length - dropSize`, or 0 when that is negative |
| Streaming.AddAudioBuffer | Sources/ParakeetMLX/ParakeetMLX.swift:908-922 | when the front end throws, the call fails having only stored the concatenation of old buffer and new audio; otherwise, whatever the outcome, the buffer ends as the trimmed concatenation, and the caches are the encoder's updated ones |
| Streaming.AddAudioKeepsClean | Sources/ParakeetMLX/ParakeetMLX.swift:927-939 | clean tokens are only appended to: the old ones stay a prefix |
| Streaming.AddAudioTokens | Sources/ParakeetMLX/ParakeetMLX.swift:908-952 | a successful greedy call passed the front end; it appends exactly the clean decode to the clean tokens; the dirty tokens become the dirty decode from the updated carry-state when frames remain after the clean ones, and are otherwise unchanged |
| Streaming.AddAudioCarry | Sources/ParakeetMLX/ParakeetMLX.swift:936-938 | after a clean decode the last token is `last?.id` (`LastId`) of the new clean tokens, which is nil when none was emitted; the hidden state is then left as it was |
| Streaming.AddAudioMode | Sources/ParakeetMLX/ParakeetMLX.swift:911-952 | once the front end accepts the buffer, a non-greedy mode fails the call when there is a frame to decode; with none, only the buffer and the caches change |
| Streaming.SessionResult | Sources/ParakeetMLX/ParakeetMLX.swift:902-904 | the transcript's tokens are the clean tokens followed by the dirty ones, segmented into well-formed sentences |
| Streaming.StreamingParakeet.constructor | Sources/ParakeetMLX/ParakeetMLX.swift:879-896 | a fresh session has an empty buffer, no carry-state, no tokens, and one cache slot per encoder layer, each holding the initial rotating cache (as independent values; see "Left out") |
| Streaming.StreamingParakeet.CurrentResult | Sources/ParakeetMLX/ParakeetMLX.swift:902-904 | `result` reads the session without changing it, and its tokens are the clean ones followed by the dirty ones |
| Streaming.StreamingParakeet.DecodeClean | Sources/ParakeetMLX/ParakeetMLX.swift:927-939 | the clean part commits the new hidden state, the last id and the appended tokens, or fails with nothing changed |
| Streaming.StreamingParakeet.DecodeDirty | Sources/ParakeetMLX/ParakeetMLX.swift:942-952 | the dirty part replaces only the dirty tokens, or fails with nothing changed |
| Streaming.StreamingParakeet.AddAudio | Sources/ParakeetMLX/ParakeetMLX.swift:906-953 | the outcome and the new session state are `AddAudioSpec` of the old state, including the updates that a throwing front end or a failing decode leaves in place |
| KeyRewrite.ReplaceAllNoOccurrence | Sources/ParakeetMLX/ParakeetMLX.swift:589-619 | a rewrite whose pattern does not occur leaves the key unchanged |
| KeyRewrite.ReplaceAllIdentity | Sources/ParakeetMLX/ParakeetMLX.swift:589-619 | replacing a pattern by itself changes nothing |
| KeyRewrite.ApplyRulesKeepsPrefix | Sources/ParakeetMLX/ParakeetMLX.swift:586-619 | a rewrite list none of whose patterns can start inside a prefix leaves that prefix in place and rewrites only the rest |
| KeyRewrite.LayerRulesKeepLayers | Sources/ParakeetMLX/ParakeetMLX.swift:589-619 | no layer rewrite can reach into `layers.` |
| KeyRewrite.JointRulesKeepJointNet | Sources/ParakeetMLX/ParakeetMLX.swift:642-648 | no joint rewrite can reach into `joint_net.` |
| KeyRewrite.JointRulesKeepTwo | Sources/ParakeetMLX/ParakeetMLX.swift:642-648 | no joint rewrite can reach into `2.` |
| KeyRewrite.LayerRulesAfterLayers | Sources/ParakeetMLX/ParakeetMLX.swift:586-619 | the layer rewrites keep `layers.` and rewrite what follows it |
| KeyRewrite.JointRulesAfterJointNet | Sources/ParakeetMLX/ParakeetMLX.swift:639-651 | the joint rewrites keep `joint_net.` and rewrite what follows it |
| KeyRewrite.JointRulesAfterTwo | Sources/ParakeetMLX/ParakeetMLX.swift:642-654 | the joint rewrites keep `2.` and rewrite what follows it |
| KeyRewrite.ApplyRulesHead | Sources/ParakeetMLX/ParakeetMLX.swift:642-654 | rewrites whose replacements do not start with a character cannot make a key start with it |
| KeyRewrite.ApplyRulesKeepsPlainPrefix | Sources/ParakeetMLX/ParakeetMLX.swift:586-648 | rewrites whose patterns all start with a character absent from a prefix leave that prefix in place and rewrite only the rest |
| KeyRewrite.LayerRulesAfterIndex | Sources/ParakeetMLX/ParakeetMLX.swift:589-619 | a decimal layer index and its dot are left in place by the layer rewrites |
| KeyRewrite.JointRulesAfterDigitTwo | Sources/ParakeetMLX/ParakeetMLX.swift:642-648 | a leading `2` is left in place by the joint rewrites |
| KeyRewrite.JointRulesNoNewTwo | Sources/ParakeetMLX/ParakeetMLX.swift:642-654 | the joint rewrites never make a key start with `2.` that did not |
| KeyMappingProperties.MapKeyEncoder | Sources/ParakeetMLX/ParakeetMLX.swift:565-622 | an `encoder.` key that one of the encoder branches maps gets that mapping |
| KeyMappingProperties.MapKeyDecoder | Sources/ParakeetMLX/ParakeetMLX.swift:626-635 | a `decoder.` key maps to `decoder.` followed by its rewritten remainder |
| KeyMappingProperties.MapKeyJoint | Sources/ParakeetMLX/ParakeetMLX.swift:638-664 | a `joint.` key maps as its remainder does in the joint branch |
| KeyMappingProperties.UnknownComponent | Sources/ParakeetMLX/ParakeetMLX.swift:565-666 | keys without an `encoder.`, `decoder.` or `joint.` prefix map to nil |
| KeyMappingProperties.MapEncoderKeyPreEncode | Sources/ParakeetMLX/ParakeetMLX.swift:569-581 | a pre-encoder `conv.` or `out.` key becomes `encoder.preEncode.` with its remainder verbatim |
| KeyMappingProperties.MapEncoderKeyLayers | Sources/ParakeetMLX/ParakeetMLX.swift:585-621 | a `layers.` key becomes `encoder.` followed by the layer rewrites of it |
| KeyMappingProperties.MapEncoderKeyPrefix | Sources/ParakeetMLX/ParakeetMLX.swift:565-622 | every mapped encoder key starts with `encoder.` |
| KeyMappingProperties.MapJointKeyPrefix | Sources/ParakeetMLX/ParakeetMLX.swift:638-664 | every mapped joint key starts with `joint.` |
| KeyMappingProperties.MappedStaysInComponent | Sources/ParakeetMLX/ParakeetMLX.swift:563-667 | a mapped key stays under the component it came from |
| KeyMappingProperties.DecoderKey | Sources/ParakeetMLX/ParakeetMLX.swift:626-635 | every `decoder.` key maps to a `decoder.` key: its rewritten remainder |
| KeyMappingProperties.PreEncodeKey | Sources/ParakeetMLX/ParakeetMLX.swift:569-581 | after `encoder.`, `pre_encode.conv.X` and `pre_encode.out.X` become `encoder.preEncode.conv.X` and `encoder.preEncode.out.X` |
| KeyMappingProperties.EncoderLayerKey | Sources/ParakeetMLX/ParakeetMLX.swift:585-621 | after `encoder.`, a layer key keeps `layers.` and the rest is rewritten |
| KeyMappingProperties.JointNetFinalKey | Sources/ParakeetMLX/ParakeetMLX.swift:651-663 | after `joint.`, `joint_net.2.X` becomes `joint.jointLinear.` followed by the rewritten X |
| KeyMappingProperties.JointNetOtherKey | Sources/ParakeetMLX/ParakeetMLX.swift:651-660 | after `joint.`, any `joint_net.` key not followed by `2.` (layer `20`, a bare `2`, `2x`, any other layer) maps to nil |
| KeyMappingProperties.WholePreEncodeKey | Sources/ParakeetMLX/ParakeetMLX.swift:565-581 | `encoder.pre_encode.conv.X` maps to `encoder.preEncode.conv.X`, and likewise for `out.` |
| KeyMappingProperties.WholeEncoderLayerKey | Sources/ParakeetMLX/ParakeetMLX.swift:565-621 | `encoder.layers.X` maps to `encoder.layers.` followed by the rewritten X |
| KeyMappingProperties.WholeEncoderLayerIndexKey | Sources/ParakeetMLX/ParakeetMLX.swift:565-621 | `encoder.layers.<d>.X`, for a decimal layer index `d`, maps to `encoder.layers.<d>.` followed by the rewritten X: the layer index survives |
| KeyMappingProperties.WholeJointNetFinalKey | Sources/ParakeetMLX/ParakeetMLX.swift:638-663 | `joint.joint_net.2.X` maps to `joint.jointLinear.` followed by the rewritten X |
| KeyMappingProperties.WholeJointNetOtherKey | Sources/ParakeetMLX/ParakeetMLX.swift:638-660 | `joint.joint_net.Y`, with Y not starting with `2.`, maps to nil |

## Left out

- The MLX tensor operations are not modelled: the Conformer encoder, the prediction and joint networks, argmax over slices, `asType` and `MLX.eval`. They are abstract functions in `Networks`, and the two argmaxes are folded into the joint network's report.
- `getLogMel` and `Tokenizer.decode` are not part of this model. Whether the front end throws on given samples is the `melFails` function, and a throw is the one FrontEndError (what it throws is not visible here). On samples it accepts, the front end is folded into the `encode` and `encodeCached` networks. Token text comes from the `detokenize` function.
- Float arithmetic is not modelled: times are exact reals. The NaN test on the joint output is the joint network's `NonFinite` report, not IEEE semantics.
- The joint-output shape guards (`:462-483`) are one oracle-reported `Malformed` case, which aborts the call with AudioProcessingError. Error messages are not modelled.
- `audioData.asType(dtype)` (`:306`) is not modelled: conversion between sample types is not visible at this level.
- `chunkCallback` (`:347`) is left out: it only reports progress.
- The internals of `RotatingConformerCache` are not part of this model. New caches come from the `newCache` function, and the encoder returns the updated caches.
- Streaming.StreamingParakeet.constructor: the per-layer caches are modelled as `nLayers` independent values that the encoder replaces. `Array(repeating:count:)` (`:891-895`) evaluates its argument once, and `model.encode(mel, cache: cache)` (`:914`) can update the caches only if the cache type is a reference type, so every slot likely holds the same object. That sharing, and whatever one layer's update does to the others, is not modelled.
- `loadWeights`, `loadParakeetModel`, the model download and the directory helpers (`:542-560`, `:678-797`) are I/O and are left out. Only the key renaming they rely on is modelled.
- Codable configuration parsing (`:10-204`) is left out, apart from the TDT guard, the greedy guard and the `maxSymbols` default.
- `transcribeStream` (`:957-966`) is not a separate member. It is the session constructor called with context size (256, 256) and depth 1.
- Batch decoding is modelled, but callers inside the core only ever pass one sequence. `generate` is modelled on one utterance and returns its one result rather than a one-element list.
- Transcription.TranscribeChunked: requires its window loop to end, that is, a stride (`chunkSamples - overlapSamples`) above zero or a loop that stops at its first window. With a non-positive stride and a first window of at least a hop, the Swift loop (`:344`) never ends; that case is not modelled. The default arguments reach it: with the default `overlapDuration` of 15 seconds (`:302`), any `chunkDuration` of 15 seconds or less on audio longer than one chunk gives `chunkSamples - overlapSamples <= 0`.
- Streaming.StreamingParakeet.AddAudio: trimming with a non-positive `samplesToKeep` is modelled as an empty buffer, which is how a clamped MLX slice `[n...]` with `n` at or past the end behaves. Slices past the frame count in the clean and dirty decodes are clamped in the same way.
- KeyRewrite.ReplaceAll: compares strings character by character. Foundation's `hasPrefix` and `replacingOccurrences` compare Unicode canonically equivalent strings as equal; that is not modelled. Checkpoint keys are ASCII, where the two agree.
- Segmentation.IsBoundary: tests for `.`, `!` or `?` character by character. Swift's `String.contains` (`:833`) works on grapheme clusters, so a punctuation mark followed by a combining mark does not count there; that is not modelled.
- The argmax over the vocabulary slice cannot yield a class outside `[0, vocabSize]`. The model still reports such a class from the joint network as AudioProcessingError.
- Out-of-range reads of encoder frames and of the duration table, which trap in Swift, are the IndexOutOfRange error in the model.
- TdtDecoder.DecodeBatch: requires `BatchShapes`, one length, last token and hidden state per sequence when they are given. Shorter arrays trap in Swift (`:414-416`, `:427`); every caller in the core passes matching sizes, so that trap is not modelled.
- TdtDecoder.MakeModel: durations are `nat`, so the duration table is assumed not to hold negative entries, which Swift's `[Int]` allows (`:160`, `:271`). A negative duration moves the frame pointer back (`:513`), so the decode loop may then never end or read before frame 0; the model's termination and its frame bounds depend on this assumption.
