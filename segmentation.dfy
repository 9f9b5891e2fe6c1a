/**
 * Sentence segmentation (`tokensToSentences`): tokens are gathered into the
 * current sentence, and a token whose text contains '.', '!' or '?' closes it.
 */
module Segmentation {
  import opened Timeline

  /** Whether a token's text carries sentence-final punctuation. */
  predicate IsBoundary(t: Token)
  {
    '.' in t.text || '!' in t.text || '?' in t.text
  }

  /**
   * The segmentation of `rest`, given the tokens `current` already gathered
   * into the open sentence; it follows the loop of `tokensToSentences`.
   */
  function SegmentFrom(current: seq<Token>, rest: seq<Token>): seq<Sentence>
    decreases |rest|
  {
    if rest == [] then
      if current == [] then [] else [MakeSentence(current)]
    else if IsBoundary(rest[0]) then
      [MakeSentence(current + [rest[0]])] + SegmentFrom([], rest[1..])
    else
      SegmentFrom(current + [rest[0]], rest[1..])
  }

  /** The sentences of a token list. */
  function Segment(tokens: seq<Token>): seq<Sentence>
  {
    if tokens == [] then [] else SegmentFrom([], tokens)
  }

  /** All tokens of a sentence list, in order. */
  function Flatten(ss: seq<Sentence>): seq<Token>
  {
    if ss == [] then [] else ss[0].tokens + Flatten(ss[1..])
  }

  lemma {:induction false} FlattenAppend(a: seq<Sentence>, b: seq<Sentence>)
    ensures Flatten(a + b) == Flatten(a) + Flatten(b)
  {
    if a == [] {
      assert a + b == b;
    } else {
      assert (a + b)[1..] == a[1..] + b;
      FlattenAppend(a[1..], b);
    }
  }

  /** The shape every segmentation has: non-empty sentences, punctuation only at their ends. */
  predicate WellSegmented(ss: seq<Sentence>)
  {
    && (forall k :: 0 <= k < |ss| ==> ss[k].tokens != [])
    && (forall k, j :: 0 <= k < |ss| && 0 <= j < |ss[k].tokens| - 1 ==> !IsBoundary(ss[k].tokens[j]))
    && (forall k :: 0 <= k < |ss| - 1 ==> IsBoundary(ss[k].tokens[|ss[k].tokens| - 1]))
  }

  predicate NoBoundary(ts: seq<Token>)
  {
    forall j :: 0 <= j < |ts| ==> !IsBoundary(ts[j])
  }

  lemma {:induction false} SegmentFromFlatten(current: seq<Token>, rest: seq<Token>)
    ensures Flatten(SegmentFrom(current, rest)) == current + rest
    decreases |rest|
  {
    if rest == [] {
    } else if IsBoundary(rest[0]) {
      SegmentFromFlatten([], rest[1..]);
      assert current + rest == (current + [rest[0]]) + rest[1..];
    } else {
      SegmentFromFlatten(current + [rest[0]], rest[1..]);
      assert current + rest == (current + [rest[0]]) + rest[1..];
    }
  }

  lemma {:induction false} SegmentFromShape(current: seq<Token>, rest: seq<Token>)
    requires NoBoundary(current)
    ensures WellSegmented(SegmentFrom(current, rest))
    decreases |rest|
  {
    if rest == [] {
    } else if IsBoundary(rest[0]) {
      SegmentFromShape([], rest[1..]);
      var tail := SegmentFrom([], rest[1..]);
      var s := MakeSentence(current + [rest[0]]);
      assert SegmentFrom(current, rest) == [s] + tail;
      assert forall k :: 1 <= k < |tail| + 1 ==> ([s] + tail)[k] == tail[k - 1];
    } else {
      SegmentFromShape(current + [rest[0]], rest[1..]);
    }
  }

  /** Concatenating the sentences' tokens gives back the input. */
  lemma SegmentFlatten(tokens: seq<Token>)
    ensures Flatten(Segment(tokens)) == tokens
  {
    SegmentFromFlatten([], tokens);
  }

  /** There are no sentences exactly when there are no tokens. */
  lemma SegmentEmpty(tokens: seq<Token>)
    ensures Segment(tokens) == [] <==> tokens == []
  {
    SegmentFlatten(tokens);
  }

  /**
   * Every sentence is non-empty, only its last token may carry '.', '!' or '?',
   * and every sentence but the final one ends with such a token.
   */
  lemma SegmentShape(tokens: seq<Token>)
    ensures WellSegmented(Segment(tokens))
  {
    SegmentFromShape([], tokens);
  }

  lemma {:induction false} SegmentFromNoBoundary(current: seq<Token>, rest: seq<Token>)
    requires NoBoundary(rest) && current + rest != []
    ensures SegmentFrom(current, rest) == [MakeSentence(current + rest)]
    decreases |rest|
  {
    if rest == [] {
      assert current + rest == current;
    } else {
      assert NoBoundary(rest[1..]) by {
        forall j | 0 <= j < |rest[1..]| ensures !IsBoundary(rest[1..][j]) {
          assert rest[1..][j] == rest[j + 1];
        }
      }
      assert !IsBoundary(rest[0]);
      SegmentFromNoBoundary(current + [rest[0]], rest[1..]);
      assert (current + [rest[0]]) + rest[1..] == current + rest;
    }
  }

  /** A non-empty token list without punctuation is one sentence holding all of it. */
  lemma SegmentWithoutPunctuation(tokens: seq<Token>)
    requires tokens != [] && NoBoundary(tokens)
    ensures Segment(tokens) == [MakeSentence(tokens)]
  {
    SegmentFromNoBoundary([], tokens);
    assert [] + tokens == tokens;
  }

  lemma {:induction false} WellSegmentedTail(ss: seq<Sentence>)
    requires ss != [] && WellSegmented(ss)
    ensures WellSegmented(ss[1..])
  {
    var t := ss[1..];
    assert forall k :: 0 <= k < |t| ==> t[k] == ss[k + 1];
  }

  /**
   * The segmentation is the only well-segmented split of the tokens into
   * sentences: any other sentence list with the same shape, whose sentences
   * are built by the initialiser and whose tokens concatenate to `current ++ rest`
   * with `current` an open sentence, is the one `SegmentFrom` returns.
   */
  lemma {:induction false} SegmentFromUnique(current: seq<Token>, rest: seq<Token>, ss: seq<Sentence>)
    requires NoBoundary(current)
    requires WellSegmented(ss)
    requires forall k :: 0 <= k < |ss| ==> ss[k] == MakeSentence(ss[k].tokens)
    requires Flatten(ss) == current + rest
    ensures ss == SegmentFrom(current, rest)
    decreases |rest|
  {
    if ss == [] {
      assert current + rest == [];
      assert current == [] && rest == [];
    } else {
      var s0 := ss[0].tokens;
      var n := |s0|;
      assert Flatten(ss) == s0 + Flatten(ss[1..]);
      WellSegmentedTail(ss);
      assert forall k :: 0 <= k < |ss[1..]| ==> ss[1..][k] == ss[k + 1];
      if |s0| <= |current| {
        // The first sentence would end inside the open sentence, whose tokens carry no punctuation.
        assert s0 == current[..n] by {
          assert (s0 + Flatten(ss[1..]))[..n] == s0;
          assert (current + rest)[..n] == current[..n];
        }
        if |ss| > 1 {
          assert false;
        }
        assert ss == [ss[0]];
        assert Flatten(ss[1..]) == [];
        assert s0 == current + rest;
        assert rest == [] by {
          assert |s0| == |current| + |rest|;
        }
        assert ss == [MakeSentence(current)];
      } else {
        assert rest != [] by {
          assert |current + rest| >= |s0|;
        }
        assert (current + rest)[|current|] == rest[0];
        assert s0[|current|] == rest[0];
        assert s0[..|current|] == current by {
          assert (s0 + Flatten(ss[1..]))[..|current|] == s0[..|current|];
          assert (current + rest)[..|current|] == current;
        }
        var c1 := current + [rest[0]];
        assert s0[..|current| + 1] == c1;
        if |s0| == |current| + 1 {
          assert s0 == c1;
          assert Flatten(ss[1..]) == rest[1..] by {
            assert current + rest == c1 + rest[1..];
          }
          if IsBoundary(rest[0]) {
            SegmentFromUnique([], rest[1..], ss[1..]);
            assert ss == [ss[0]] + ss[1..];
          } else {
            // The sentence ends without punctuation, so it must be the final one.
            if |ss| > 1 {
              assert false;
            }
            assert Flatten(ss[1..]) == [];
            assert rest[1..] == [];
            assert ss == [MakeSentence(c1)];
          }
        } else {
          // The sentence goes on past rest[0], so rest[0] carries no punctuation.
          assert !IsBoundary(s0[|current|]);
          assert NoBoundary(c1) by {
            forall j | 0 <= j < |c1| ensures !IsBoundary(c1[j]) {
              assert c1[j] == s0[j];
            }
          }
          assert Flatten(ss) == c1 + rest[1..] by {
            assert current + rest == c1 + rest[1..];
          }
          SegmentFromUnique(c1, rest[1..], ss);
        }
      }
    }
  }

  /** Segmentation is fixed by its shape: any well-segmented split of `tokens` equals it. */
  lemma SegmentUnique(tokens: seq<Token>, ss: seq<Sentence>)
    requires WellSegmented(ss)
    requires forall k :: 0 <= k < |ss| ==> ss[k] == MakeSentence(ss[k].tokens)
    requires Flatten(ss) == tokens
    ensures ss == Segment(tokens)
  {
    SegmentFromUnique([], tokens, ss);
  }

  /** `tokensToSentences`: the loop over the tokens with its two accumulators. */
  method TokensToSentences(tokens: seq<Token>) returns (sentences: seq<Sentence>)
    ensures sentences == Segment(tokens)
  {
    if tokens == [] {
      return [];
    }
    sentences := [];
    var currentTokens: seq<Token> := [];
    for i := 0 to |tokens|
      invariant sentences + SegmentFrom(currentTokens, tokens[i..]) == SegmentFrom([], tokens)
    {
      assert tokens[i..][1..] == tokens[i + 1..];
      currentTokens := currentTokens + [tokens[i]];
      if IsBoundary(tokens[i]) {
        sentences := sentences + [MakeSentence(currentTokens)];
        currentTokens := [];
      }
    }
    if currentTokens != [] {
      sentences := sentences + [MakeSentence(currentTokens)];
    }
  }

  /** `sentencesToResult`. */
  function SentencesToResult(sentences: seq<Sentence>): (r: AlignedResult)
    ensures r.sentences == sentences
  {
    AlignedResult(sentences)
  }
}
