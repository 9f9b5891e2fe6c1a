/**
 * Replace-all string rewriting (`replacingOccurrences(of:with:)`), the three
 * fixed rewrite lists the checkpoint-key renaming applies, and the fact that
 * none of those rewrites reaches into the key prefixes the renaming tests.
 */
module KeyRewrite {
  predicate HasPrefix(s: string, p: string)
  {
    |p| <= |s| && s[..|p|] == p
  }

  /**
   * Every occurrence of `pat` in `s` replaced by `rep`, scanning left to right
   * and resuming after each replaced occurrence (`replacingOccurrences(of:with:)`);
   * an empty pattern leaves the string as it is.
   */
  function ReplaceAll(s: string, pat: string, rep: string): string
    decreases |s|
  {
    if pat == [] || |s| < |pat| then s
    else if s[..|pat|] == pat then rep + ReplaceAll(s[|pat|..], pat, rep)
    else [s[0]] + ReplaceAll(s[1..], pat, rep)
  }

  /** A rewrite: replace every occurrence of the first string by the second. */
  type Rule = (string, string)

  /** The rewrites applied one after the other, in order. */
  function ApplyRules(s: string, rules: seq<Rule>): string
    decreases |rules|
  {
    if rules == [] then s else ApplyRules(ReplaceAll(s, rules[0].0, rules[0].1), rules[1..])
  }

  /** Conformer layer parameters. */
  const LayerRules: seq<Rule> := [
    ("norm_self_att", "normSelfAtt"),
    ("self_attn.linear_q", "selfAttn.wq"),
    ("self_attn.linear_k", "selfAttn.wk"),
    ("self_attn.linear_v", "selfAttn.wv"),
    ("self_attn.linear_out", "selfAttn.wo"),
    ("self_attn.linear_pos", "selfAttn.linearPos"),
    ("self_attn.pos_bias_u", "selfAttn.posBiasU"),
    ("self_attn.pos_bias_v", "selfAttn.posBiasV"),
    ("norm_conv", "normConv"),
    ("conv.pointwise_conv1", "conv.pointwiseConv1"),
    ("conv.depthwise_conv", "conv.depthwiseConv"),
    ("conv.batch_norm", "conv.batchNorm"),
    ("conv.pointwise_conv2", "conv.pointwiseConv2"),
    ("norm_feed_forward1", "normFeedForward1"),
    ("feed_forward1", "feedForward1"),
    ("norm_feed_forward2", "normFeedForward2"),
    ("feed_forward2", "feedForward2"),
    ("norm_out", "normOut")
  ]

  /** Prediction network parameters. */
  const DecoderRules: seq<Rule> := [
    ("prediction.embed", "embed"),
    ("prediction.dec_rnn.lstm", "decRNN.lstmLayers")
  ]

  /** Joint network parameters. */
  const JointRules: seq<Rule> := [
    ("enc_proj", "encLinear"),
    ("pred_proj", "predLinear"),
    ("joint_proj", "jointLinear"),
    ("enc.", "encLinear."),
    ("pred.", "predLinear.")
  ]

  // ------------------------------------------------------------ ReplaceAll

  /** Whether `pat` occurs in `s` starting at index `i`. */
  predicate OccursAt(s: string, i: int, pat: string)
  {
    0 <= i && i + |pat| <= |s| && s[i..i + |pat|] == pat
  }

  /** A string without an occurrence of the pattern is left unchanged. */
  lemma {:induction false} ReplaceAllNoOccurrence(s: string, pat: string, rep: string)
    requires pat != []
    requires forall i :: 0 <= i < |s| ==> !OccursAt(s, i, pat)
    ensures ReplaceAll(s, pat, rep) == s
    decreases |s|
  {
    if |s| >= |pat| {
      assert s[..|pat|] == s[0..|pat|] && !OccursAt(s, 0, pat);
      forall i | 0 <= i < |s[1..]|
        ensures !OccursAt(s[1..], i, pat)
      {
        assert !OccursAt(s, i + 1, pat);
        if i + |pat| <= |s[1..]| {
          assert s[1..][i..i + |pat|] == s[i + 1..i + 1 + |pat|];
        }
      }
      ReplaceAllNoOccurrence(s[1..], pat, rep);
    }
  }

  /** Replacing a pattern by itself changes nothing. */
  lemma {:induction false} ReplaceAllIdentity(s: string, pat: string)
    ensures ReplaceAll(s, pat, pat) == s
    decreases |s|
  {
    if pat != [] && |s| >= |pat| {
      if s[..|pat|] == pat {
        ReplaceAllIdentity(s[|pat|..], pat);
        assert s == s[..|pat|] + s[|pat|..];
      } else {
        ReplaceAllIdentity(s[1..], pat);
      }
    }
  }

  /** A position where the pattern is known not to start is copied through. */
  lemma StepOver(s: string, pat: string, rep: string, k: nat)
    requires pat != [] && |s| >= 1
    requires k < |pat| && k < |s| && s[k] != pat[k]
    ensures ReplaceAll(s, pat, rep) == [s[0]] + ReplaceAll(s[1..], pat, rep)
  {
    if |s| >= |pat| {
      assert s[..|pat|][k] == s[k];
    } else {
      assert [s[0]] + s[1..] == s;
    }
  }

  /** Rewriting never reaches into `p`: it is copied through whatever follows it. */
  ghost predicate KeepsPrefix(p: string, pat: string, rep: string)
  {
    forall y :: ReplaceAll(p + y, pat, rep) == p + ReplaceAll(y, pat, rep)
  }

  lemma KeepsPrefixConcat(p: string, q: string, pat: string, rep: string)
    requires KeepsPrefix(p, pat, rep) && KeepsPrefix(q, pat, rep)
    ensures KeepsPrefix(p + q, pat, rep)
  {
    forall y
      ensures ReplaceAll(p + q + y, pat, rep) == p + q + ReplaceAll(y, pat, rep)
    {
      assert p + q + y == p + (q + y);
      assert ReplaceAll(q + y, pat, rep) == q + ReplaceAll(y, pat, rep);
    }
  }

  /** A prefix without the pattern's first character is kept. */
  lemma {:induction false} KeepsPrefixNoHead(p: string, pat: string, rep: string)
    requires pat != [] && pat[0] !in p
    ensures KeepsPrefix(p, pat, rep)
    decreases |p|
  {
    if p == [] {
      forall y ensures ReplaceAll(p + y, pat, rep) == p + ReplaceAll(y, pat, rep) {
        assert p + y == y;
      }
    } else {
      forall y ensures ReplaceAll([p[0]] + y, pat, rep) == [p[0]] + ReplaceAll(y, pat, rep) {
        StepOver([p[0]] + y, pat, rep, 0);
        assert ([p[0]] + y)[1..] == y;
      }
      KeepsPrefixNoHead(p[1..], pat, rep);
      KeepsPrefixConcat([p[0]], p[1..], pat, rep);
      assert [p[0]] + p[1..] == p;
    }
  }

  /**
   * A character in front of a kept prefix is kept too when the pattern starting
   * there already mismatches inside the prefix (at the pattern's index k).
   */
  lemma KeepsPrefixMismatch(c: char, q: string, pat: string, rep: string, k: nat)
    requires KeepsPrefix(q, pat, rep)
    requires 1 <= k < |pat| && k <= |q| && q[k - 1] != pat[k]
    ensures KeepsPrefix([c] + q, pat, rep)
  {
    forall y
      ensures ReplaceAll([c] + q + y, pat, rep) == [c] + q + ReplaceAll(y, pat, rep)
    {
      var s := [c] + q + y;
      assert s[k] == q[k - 1];
      StepOver(s, pat, rep, k);
      assert s[1..] == q + y;
      assert ReplaceAll(q + y, pat, rep) == q + ReplaceAll(y, pat, rep);
      assert [c] + (q + ReplaceAll(y, pat, rep)) == [c] + q + ReplaceAll(y, pat, rep);
    }
  }

  lemma {:induction false} ApplyRulesKeepsPrefix(p: string, y: string, rules: seq<Rule>)
    requires forall i :: 0 <= i < |rules| ==> KeepsPrefix(p, rules[i].0, rules[i].1)
    ensures ApplyRules(p + y, rules) == p + ApplyRules(y, rules)
    decreases |rules|
  {
    if rules != [] {
      assert ReplaceAll(p + y, rules[0].0, rules[0].1) == p + ReplaceAll(y, rules[0].0, rules[0].1);
      ApplyRulesKeepsPrefix(p, ReplaceAll(y, rules[0].0, rules[0].1), rules[1..]);
    }
  }

  // --------------------------------------------------------- the rule books

  /**
   * A pattern starting with a character other than those of `layers.`, or with
   * `s` not followed by `.`, cannot start inside the prefix `layers.`.
   */
  lemma KeepsLayers(pat: string, rep: string)
    requires |pat| >= 2
    requires pat[0] == 'n' || pat[0] == 'c' || pat[0] == 'f' || (pat[0] == 's' && pat[1] != '.')
    ensures KeepsPrefix("layers.", pat, rep)
  {
    if pat[0] == 's' {
      KeepsPrefixNoHead("layer", pat, rep);
      KeepsPrefixNoHead(".", pat, rep);
      KeepsPrefixMismatch('s', ".", pat, rep, 1);
      assert ['s'] + "." == "s.";
      KeepsPrefixConcat("layer", "s.", pat, rep);
      assert "layer" + "s." == "layers.";
    } else {
      KeepsPrefixNoHead("layers.", pat, rep);
    }
  }

  /** No layer rewrite reaches into the `layers.` prefix: the layer index stays in place. */
  lemma LayerRulesKeepLayers()
    ensures forall i :: 0 <= i < |LayerRules| ==> KeepsPrefix("layers.", LayerRules[i].0, LayerRules[i].1)
  {
    forall i | 0 <= i < |LayerRules|
      ensures KeepsPrefix("layers.", LayerRules[i].0, LayerRules[i].1)
    {
      KeepsLayers(LayerRules[i].0, LayerRules[i].1);
    }
  }

  /** No joint rewrite reaches into the `joint_net.` prefix. */
  lemma JointRulesKeepJointNet()
    ensures forall i :: 0 <= i < |JointRules| ==> KeepsPrefix("joint_net.", JointRules[i].0, JointRules[i].1)
  {
    forall i | 0 <= i < |JointRules|
      ensures KeepsPrefix("joint_net.", JointRules[i].0, JointRules[i].1)
    {
      var pat, rep := JointRules[i].0, JointRules[i].1;
      if pat[0] == 'e' {
        KeepsPrefixNoHead("joint_n", pat, rep);
        KeepsPrefixNoHead("t.", pat, rep);
        KeepsPrefixMismatch('e', "t.", pat, rep, 1);
        assert ['e'] + "t." == "et.";
        KeepsPrefixConcat("joint_n", "et.", pat, rep);
        assert "joint_n" + "et." == "joint_net.";
      } else if pat[0] == 'j' {
        KeepsPrefixNoHead("oint_net.", pat, rep);
        KeepsPrefixMismatch('j', "oint_net.", pat, rep, 6);
        assert "j" + "oint_net." == "joint_net.";
      } else {
        KeepsPrefixNoHead("joint_net.", pat, rep);
      }
    }
  }

  /** No joint rewrite reaches into the `2.` prefix. */
  lemma JointRulesKeepTwo()
    ensures forall i :: 0 <= i < |JointRules| ==> KeepsPrefix("2.", JointRules[i].0, JointRules[i].1)
  {
    forall i | 0 <= i < |JointRules|
      ensures KeepsPrefix("2.", JointRules[i].0, JointRules[i].1)
    {
      KeepsPrefixNoHead("2.", JointRules[i].0, JointRules[i].1);
    }
  }

  lemma LayerRulesAfterLayers(x: string)
    ensures ApplyRules("layers." + x, LayerRules) == "layers." + ApplyRules(x, LayerRules)
  {
    LayerRulesKeepLayers();
    ApplyRulesKeepsPrefix("layers.", x, LayerRules);
  }

  lemma JointRulesAfterJointNet(y: string)
    ensures ApplyRules("joint_net." + y, JointRules) == "joint_net." + ApplyRules(y, JointRules)
  {
    JointRulesKeepJointNet();
    ApplyRulesKeepsPrefix("joint_net.", y, JointRules);
  }

  lemma JointRulesAfterTwo(x: string)
    ensures ApplyRules("2." + x, JointRules) == "2." + ApplyRules(x, JointRules)
  {
    JointRulesKeepTwo();
    ApplyRulesKeepsPrefix("2.", x, JointRules);
  }

  /** A rewrite whose replacement does not start with `ch` cannot make a string start with `ch`. */
  lemma ReplaceAllHead(s: string, pat: string, rep: string, ch: char)
    requires s == [] || s[0] != ch
    requires rep != [] && rep[0] != ch
    ensures var r := ReplaceAll(s, pat, rep); r == [] || r[0] != ch
  {
  }

  lemma {:induction false} ApplyRulesHead(s: string, rules: seq<Rule>, ch: char)
    requires s == [] || s[0] != ch
    requires forall i :: 0 <= i < |rules| ==> rules[i].1 != [] && rules[i].1[0] != ch
    ensures var r := ApplyRules(s, rules); r == [] || r[0] != ch
    decreases |rules|
  {
    if rules != [] {
      ReplaceAllHead(s, rules[0].0, rules[0].1, ch);
      ApplyRulesHead(ReplaceAll(s, rules[0].0, rules[0].1), rules[1..], ch);
    }
  }

  /** Rewrites whose patterns all start with a character absent from `p` never reach into `p`. */
  lemma ApplyRulesKeepsPlainPrefix(p: string, y: string, rules: seq<Rule>)
    requires forall i :: 0 <= i < |rules| ==> rules[i].0 != [] && rules[i].0[0] !in p
    ensures ApplyRules(p + y, rules) == p + ApplyRules(y, rules)
  {
    forall i | 0 <= i < |rules|
      ensures KeepsPrefix(p, rules[i].0, rules[i].1)
    {
      KeepsPrefixNoHead(p, rules[i].0, rules[i].1);
    }
    ApplyRulesKeepsPrefix(p, y, rules);
  }

  /** A string of decimal digits, such as a layer index. */
  predicate IsDigits(d: string)
  {
    forall k :: 0 <= k < |d| ==> '0' <= d[k] <= '9'
  }

  /** No layer pattern starts with a digit or a dot. */
  lemma LayerPatternsNotInIndex(d: string)
    requires IsDigits(d)
    ensures forall i :: 0 <= i < |LayerRules| ==> LayerRules[i].0 != [] && LayerRules[i].0[0] !in d + "."
  {
    forall i | 0 <= i < |LayerRules|
      ensures LayerRules[i].0 != [] && LayerRules[i].0[0] !in d + "."
    {
      var c := LayerRules[i].0[0];
      assert c == 'n' || c == 's' || c == 'c' || c == 'f';
      forall k | 0 <= k < |d + "."|
        ensures (d + ".")[k] != c
      {
        if k < |d| {
          assert (d + ".")[k] == d[k];
        }
      }
    }
  }

  lemma ApplyRulesKeepsIndex(d: string, x: string, rules: seq<Rule>)
    requires forall i :: 0 <= i < |rules| ==> rules[i].0 != [] && rules[i].0[0] !in d + "."
    ensures ApplyRules(d + ("." + x), rules) == d + ("." + ApplyRules(x, rules))
  {
    ApplyRulesKeepsPlainPrefix(d + ".", x, rules);
    assert d + "." + x == d + ("." + x);
    assert d + "." + ApplyRules(x, rules) == d + ("." + ApplyRules(x, rules));
  }

  /** A layer index and the dot after it are left alone by the layer rewrites. */
  lemma LayerRulesAfterIndex(d: string, x: string)
    requires IsDigits(d)
    ensures ApplyRules(d + ("." + x), LayerRules) == d + ("." + ApplyRules(x, LayerRules))
  {
    LayerPatternsNotInIndex(d);
    ApplyRulesKeepsIndex(d, x, LayerRules);
  }

  /** A leading `2` is left alone by the joint rewrites. */
  lemma JointRulesAfterDigitTwo(z: string)
    ensures ApplyRules("2" + z, JointRules) == "2" + ApplyRules(z, JointRules)
  {
    assert forall i :: 0 <= i < |JointRules| ==> JointRules[i].0 != [] && JointRules[i].0[0] !in "2";
    ApplyRulesKeepsPlainPrefix("2", z, JointRules);
  }

  /** The joint rewrites never make a string start with `2.` that did not. */
  lemma JointRulesNoNewTwo(y: string)
    requires !HasPrefix(y, "2.")
    ensures !HasPrefix(ApplyRules(y, JointRules), "2.")
  {
    if y != [] && y[0] == '2' {
      var z := y[1..];
      assert y == "2" + z;
      if |z| >= 1 {
        assert y[..2] == ['2', z[0]];
      }
      JointRulesAfterDigitTwo(z);
      assert forall i :: 0 <= i < |JointRules| ==> JointRules[i].1 != [] && JointRules[i].1[0] != '.';
      ApplyRulesHead(z, JointRules, '.');
      var r := ApplyRules(z, JointRules);
      if |r| >= 1 {
        assert ("2" + r)[..2] == ['2', r[0]];
      }
    } else {
      assert forall i :: 0 <= i < |JointRules| ==> JointRules[i].1 != [] && JointRules[i].1[0] != '2';
      ApplyRulesHead(y, JointRules, '2');
      var r := ApplyRules(y, JointRules);
      if |r| >= 2 {
        assert r[..2][0] == r[0];
      }
    }
  }

  lemma PrefixOfConcat(p: string, x: string, q: string)
    requires HasPrefix(p, q)
    ensures HasPrefix(p + x, q) && (p + x)[|q|..] == p[|q|..] + x
  {
    assert (p + x)[..|q|] == p[..|q|];
  }
}
