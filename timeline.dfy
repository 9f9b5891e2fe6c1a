/**
 * The timeline value types: an aligned token, a sentence of tokens and a
 * transcription result, together with the conversion from encoder frames to
 * seconds. Seconds are modelled as exact reals.
 */
module Timeline {

  type Pos = n: int | n > 0 witness 1

  /** The audio front-end constants that fix the length of one encoder frame. */
  datatype AudioConfig = AudioConfig(sampleRate: Pos, hopLength: nat, subsamplingFactor: nat)

  /** Seconds covered by `frames` encoder frames: frames * subsampling / sampleRate * hop. */
  function FrameTime(c: AudioConfig, frames: int): real
  {
    (frames * c.subsamplingFactor) as real / c.sampleRate as real * c.hopLength as real
  }

  /** Frame times add up: a token starting at frame `a` and lasting `b` frames ends at frame a + b. */
  lemma FrameTimeAdditive(c: AudioConfig, a: int, b: int)
    ensures FrameTime(c, a) + FrameTime(c, b) == FrameTime(c, a + b)
  {
    assert (a + b) * c.subsamplingFactor == a * c.subsamplingFactor + b * c.subsamplingFactor;
    assert ((a + b) * c.subsamplingFactor) as real
        == (a * c.subsamplingFactor) as real + (b * c.subsamplingFactor) as real;
  }

  /** A later frame never has an earlier time. */
  lemma FrameTimeMonotone(c: AudioConfig, a: int, b: int)
    requires a <= b
    ensures FrameTime(c, a) <= FrameTime(c, b)
  {
    assert a * c.subsamplingFactor <= b * c.subsamplingFactor by {
      MulMonotone(a, b, c.subsamplingFactor);
    }
    var x := (a * c.subsamplingFactor) as real / c.sampleRate as real;
    var y := (b * c.subsamplingFactor) as real / c.sampleRate as real;
    assert x <= y;
    RealMulMonotone(x, y, c.hopLength as real);
  }

  lemma MulMonotone(a: int, b: int, k: nat)
    requires a <= b
    ensures a * k <= b * k
  {
    assert b * k - a * k == (b - a) * k;
  }

  lemma RealMulMonotone(x: real, y: real, k: real)
    requires x <= y && 0.0 <= k
    ensures x * k <= y * k
  {
    assert y * k - x * k == (y - x) * k;
  }

  /** One recognised sub-word token with its position on the timeline (an AlignedToken). */
  datatype Token = Token(id: int, start: real, duration: real, text: string)
  {
    /** The derived end time; it is never stored. */
    function End(): real
    {
      start + duration
    }

    /** Setting the end adjusts the duration and keeps every other field. */
    function WithEnd(newEnd: real): (t: Token)
      ensures t.End() == newEnd
      ensures t.id == id && t.start == start && t.text == text
    {
      this.(duration := newEnd - start)
    }

    /** Re-basing a chunk-local token onto the whole recording's time axis. */
    function Shifted(offset: real): (t: Token)
      ensures t.End() == End() + offset
      ensures t.id == id && t.duration == duration && t.text == text
      ensures t.start - start == offset
    {
      this.(start := start + offset)
    }
  }

  /** The texts of `ts` concatenated without a separator (`map { $0.text }.joined()`). */
  function ConcatTexts(ts: seq<Token>): string
  {
    if ts == [] then "" else ts[0].text + ConcatTexts(ts[1..])
  }

  lemma {:induction false} ConcatTextsAppend(a: seq<Token>, b: seq<Token>)
    ensures ConcatTexts(a + b) == ConcatTexts(a) + ConcatTexts(b)
  {
    if a == [] {
      assert a + b == b;
    } else {
      assert (a + b)[1..] == a[1..] + b;
      ConcatTextsAppend(a[1..], b);
    }
  }

  /** The sum of the lengths of the token texts. */
  function TextsLength(ts: seq<Token>): nat
  {
    if ts == [] then 0 else |ts[0].text| + TextsLength(ts[1..])
  }

  /** A run of tokens together with its first start and last end (an AlignedSentence). */
  datatype Sentence = Sentence(tokens: seq<Token>, start: real, end: real)
  {
    function Text(): string
    {
      ConcatTexts(tokens)
    }
  }

  /** The sentence initialiser: start and end default to 0 for an empty token list. */
  function MakeSentence(tokens: seq<Token>): (s: Sentence)
    ensures s.tokens == tokens
    ensures tokens != [] ==> s.start == tokens[0].start && s.end == tokens[|tokens| - 1].End()
    ensures tokens == [] ==> s.start == 0.0 && s.end == 0.0
  {
    Sentence(tokens,
             if tokens == [] then 0.0 else tokens[0].start,
             if tokens == [] then 0.0 else tokens[|tokens| - 1].End())
  }

  /** Splitting a sentence's tokens splits its text at the same place. */
  lemma SentenceTextSplit(a: seq<Token>, b: seq<Token>)
    ensures MakeSentence(a + b).Text() == MakeSentence(a).Text() + MakeSentence(b).Text()
  {
    ConcatTextsAppend(a, b);
  }

  /** A sentence's text is exactly as long as its token texts together. */
  lemma {:induction false} SentenceTextLength(ts: seq<Token>)
    ensures |MakeSentence(ts).Text()| == TextsLength(ts)
  {
    if ts != [] {
      SentenceTextLength(ts[1..]);
    }
  }

  /** `joined(separator: " ")`: the parts with one space between neighbours. */
  function JoinWithSpace(parts: seq<string>): string
  {
    if parts == [] then ""
    else if |parts| == 1 then parts[0]
    else parts[0] + " " + JoinWithSpace(parts[1..])
  }

  lemma {:induction false} JoinWithSpaceAppend(a: seq<string>, b: seq<string>)
    requires a != [] && b != []
    ensures JoinWithSpace(a + b) == JoinWithSpace(a) + " " + JoinWithSpace(b)
  {
    if |a| == 1 {
      assert (a + b)[1..] == b;
    } else {
      assert (a + b)[1..] == a[1..] + b;
      JoinWithSpaceAppend(a[1..], b);
    }
  }

  function SentenceTexts(ss: seq<Sentence>): (r: seq<string>)
    ensures |r| == |ss| && forall i :: 0 <= i < |ss| ==> r[i] == ss[i].Text()
  {
    seq(|ss|, i requires 0 <= i < |ss| => ss[i].Text())
  }

  /** The final transcription: sentences in order (an AlignedResult). */
  datatype AlignedResult = AlignedResult(sentences: seq<Sentence>)
  {
    function Text(): string
    {
      JoinWithSpace(SentenceTexts(sentences))
    }
  }

  /** The text of a result built from two sentence lists is the two texts joined by a space. */
  lemma ResultTextAppend(a: seq<Sentence>, b: seq<Sentence>)
    requires a != [] && b != []
    ensures AlignedResult(a + b).Text() == AlignedResult(a).Text() + " " + AlignedResult(b).Text()
  {
    assert SentenceTexts(a + b) == SentenceTexts(a) + SentenceTexts(b);
    JoinWithSpaceAppend(SentenceTexts(a), SentenceTexts(b));
  }
}
