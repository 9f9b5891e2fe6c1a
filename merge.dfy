/**
 * Stitching the tokens of two overlapping chunks (`mergeLongestContiguous`):
 * keep the earlier chunk's tokens that end by a cutoff time and the later
 * chunk's tokens that start at or after it.
 */
module Merge {
  import opened Timeline

  /** The tokens of `ts` that satisfy `keep`, in their original order (Swift's `filter`). */
  function Filter(ts: seq<Token>, keep: Token -> bool): (r: seq<Token>)
    ensures |r| <= |ts|
    ensures forall t :: t in r <==> t in ts && keep(t)
  {
    if ts == [] then []
    else (if keep(ts[0]) then [ts[0]] else []) + Filter(ts[1..], keep)
  }

  /** Filtering distributes over concatenation, so the relative order of kept tokens is preserved. */
  lemma {:induction false} FilterAppend(a: seq<Token>, b: seq<Token>, keep: Token -> bool)
    ensures Filter(a + b, keep) == Filter(a, keep) + Filter(b, keep)
  {
    if a == [] {
      assert a + b == b;
    } else {
      assert (a + b)[1..] == a[1..] + b;
      FilterAppend(a[1..], b, keep);
    }
  }

  /** A filter that every token passes keeps the whole list. */
  lemma {:induction false} FilterAll(ts: seq<Token>, keep: Token -> bool)
    requires forall i :: 0 <= i < |ts| ==> keep(ts[i])
    ensures Filter(ts, keep) == ts
  {
    if ts != [] {
      FilterAll(ts[1..], keep);
    }
  }

  /**
   * The cutoff time. Swift's `??` binds more loosely than `-`, so the written
   * expression is `tokens1.last?.end ?? (0.0 - overlapDuration)`: the end of the
   * earlier chunk's last token, and minus the overlap only when that chunk is empty.
   */
  function Cutoff(tokens1: seq<Token>, overlapDuration: real): (c: real)
    ensures tokens1 != [] ==> c == tokens1[|tokens1| - 1].End()
    ensures tokens1 == [] ==> c == -overlapDuration
  {
    if tokens1 != [] then tokens1[|tokens1| - 1].End() else 0.0 - overlapDuration
  }

  /** The earlier chunk's test: the token ends by the cutoff. */
  function EndsBy(cutoff: real): Token -> bool
  {
    (t: Token) => t.End() <= cutoff
  }

  /** The later chunk's test: the token starts at or after the cutoff. */
  function StartsFrom(cutoff: real): Token -> bool
  {
    (t: Token) => t.start >= cutoff
  }

  function MergeLongestContiguous(tokens1: seq<Token>, tokens2: seq<Token>, overlapDuration: real): seq<Token>
  {
    var cutoff := Cutoff(tokens1, overlapDuration);
    Filter(tokens1, EndsBy(cutoff)) + Filter(tokens2, StartsFrom(cutoff))
  }

  /**
   * A token is in the merge exactly when it is an earlier token ending by the
   * cutoff or a later token starting at or after it.
   */
  lemma MergeMembership(tokens1: seq<Token>, tokens2: seq<Token>, overlapDuration: real, t: Token)
    ensures var cutoff := Cutoff(tokens1, overlapDuration);
            t in MergeLongestContiguous(tokens1, tokens2, overlapDuration)
            <==> (t in tokens1 && t.End() <= cutoff) || (t in tokens2 && t.start >= cutoff)
  {
  }

  /**
   * The merge is the kept part of the earlier chunk followed by the kept part of
   * the later one: its first tokens all come from `tokens1` and end by the
   * cutoff, the rest all come from `tokens2` and start at or after it, so no
   * kept earlier token ends after a kept later token starts.
   */
  lemma MergeSeparated(tokens1: seq<Token>, tokens2: seq<Token>, overlapDuration: real)
    ensures var cutoff := Cutoff(tokens1, overlapDuration);
            var r := MergeLongestContiguous(tokens1, tokens2, overlapDuration);
            var n := |Filter(tokens1, EndsBy(cutoff))|;
            && n <= |r| && n <= |tokens1| && |r| - n <= |tokens2|
            && (forall i :: 0 <= i < n ==> r[i] in tokens1 && r[i].End() <= cutoff)
            && (forall i :: n <= i < |r| ==> r[i] in tokens2 && r[i].start >= cutoff)
            && (forall i, k :: 0 <= i < n <= k < |r| ==> r[i].End() <= r[k].start)
  {
    var cutoff := Cutoff(tokens1, overlapDuration);
    var a := Filter(tokens1, EndsBy(cutoff));
    var b := Filter(tokens2, StartsFrom(cutoff));
    var r := MergeLongestContiguous(tokens1, tokens2, overlapDuration);
    assert r == a + b;
    assert forall i :: 0 <= i < |a| ==> r[i] == a[i] && a[i] in a;
    assert forall i :: |a| <= i < |r| ==> r[i] == b[i - |a|] && b[i - |a|] in b;
  }

  /** The last token of a non-empty earlier chunk always survives, as the merge's last earlier token. */
  lemma MergeKeepsLastOfFirst(tokens1: seq<Token>, tokens2: seq<Token>, overlapDuration: real)
    requires tokens1 != []
    ensures var r := MergeLongestContiguous(tokens1, tokens2, overlapDuration);
            var kept := Filter(tokens1, EndsBy(Cutoff(tokens1, overlapDuration)));
            && kept != [] && kept[|kept| - 1] == tokens1[|tokens1| - 1]
            && r[..|kept|] == kept
  {
    var last := tokens1[|tokens1| - 1];
    var keep := EndsBy(Cutoff(tokens1, overlapDuration));
    assert tokens1 == tokens1[..|tokens1| - 1] + [last];
    FilterAppend(tokens1[..|tokens1| - 1], [last], keep);
    assert Filter([last], keep) == [last] by {
      assert [last][1..] == [];
    }
  }

  /** With a non-empty earlier chunk the overlap duration has no influence on the merge. */
  lemma MergeIgnoresOverlap(tokens1: seq<Token>, tokens2: seq<Token>, overlap: real, overlap': real)
    requires tokens1 != []
    ensures MergeLongestContiguous(tokens1, tokens2, overlap) == MergeLongestContiguous(tokens1, tokens2, overlap')
  {
  }

  /**
   * When the earlier chunk's ends never pass its last token's end (as for the
   * decoder's tokens merged so far) the whole earlier chunk is kept.
   */
  lemma MergeKeepsWholeFirst(tokens1: seq<Token>, tokens2: seq<Token>, overlapDuration: real)
    requires tokens1 != []
    requires forall i :: 0 <= i < |tokens1| ==> tokens1[i].End() <= tokens1[|tokens1| - 1].End()
    ensures var cutoff := tokens1[|tokens1| - 1].End();
            MergeLongestContiguous(tokens1, tokens2, overlapDuration)
            == tokens1 + Filter(tokens2, StartsFrom(cutoff))
  {
    var cutoff := Cutoff(tokens1, overlapDuration);
    FilterAll(tokens1, EndsBy(cutoff));
  }

  /**
   * Into an empty earlier chunk, a non-negative overlap keeps every later token
   * that does not start before time zero.
   */
  lemma MergeIntoEmpty(tokens2: seq<Token>, overlapDuration: real)
    requires overlapDuration >= 0.0
    requires forall i :: 0 <= i < |tokens2| ==> tokens2[i].start >= 0.0
    ensures MergeLongestContiguous([], tokens2, overlapDuration) == tokens2
  {
    FilterAll(tokens2, StartsFrom(-overlapDuration));
  }
}
