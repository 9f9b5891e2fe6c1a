/**
 * Renaming checkpoint parameter keys to the model's parameter paths
 * (`mapSafetensorsKeyToSwiftPath`): prefix tests, dropping a leading part,
 * and fixed sequences of replace-all rewrites from snake_case to camelCase.
 * Keys that the model has no parameter for map to None.
 */
module KeyMapping {
  import opened Wrappers
  import opened KeyRewrite

  /** An `encoder.` key with that prefix dropped: pre-encoder convolution and output keys, or conformer layer keys. */
  function MapEncoderKey(encoderKey: string): Option<string>
  {
    if HasPrefix(encoderKey, "pre_encode.") && (HasPrefix(encoderKey[11..], "conv.") || HasPrefix(encoderKey[11..], "out.")) then
      Some("encoder.preEncode." + encoderKey[11..])
    else if HasPrefix(encoderKey, "layers.") then
      Some("encoder." + ApplyRules(encoderKey, LayerRules))
    else None
  }

  /**
   * A `joint.` key with that prefix dropped. The rewrites run first; of the
   * `joint_net` layers only the final linear one, `2`, has a parameter.
   */
  function MapJointKey(jointKey: string): Option<string>
  {
    var rewritten := ApplyRules(jointKey, JointRules);
    if !HasPrefix(rewritten, "joint_net.") then Some("joint." + rewritten)
    else
      var jointNetKey := rewritten[10..];
      if HasPrefix(jointNetKey, "2.") then Some("joint." + ("jointLinear." + jointNetKey[2..]))
      else None
  }

  /**
   * An `encoder.` key that neither branch maps falls through to the later
   * tests, which it cannot pass, and so has no parameter.
   */
  function MapKey(key: string): Option<string>
  {
    var fromEncoder := if HasPrefix(key, "encoder.") then MapEncoderKey(key[8..]) else None;
    if fromEncoder.Some? then fromEncoder
    else if HasPrefix(key, "decoder.") then Some("decoder." + ApplyRules(key[8..], DecoderRules))
    else if HasPrefix(key, "joint.") then MapJointKey(key[6..])
    else None
  }
}

/** What the renaming does to each kind of key. */
module KeyMappingProperties {
  import opened Wrappers
  import opened KeyRewrite
  import opened KeyMapping

  /** The branch of MapKey an `encoder.` key with a mapping takes. */
  lemma MapKeyEncoder(key: string)
    requires HasPrefix(key, "encoder.") && MapEncoderKey(key[8..]).Some?
    ensures MapKey(key) == MapEncoderKey(key[8..])
  {
  }

  /** The branch of MapKey a `decoder.` key takes. */
  lemma MapKeyDecoder(key: string)
    requires HasPrefix(key, "decoder.")
    ensures MapKey(key) == Some("decoder." + ApplyRules(key[8..], DecoderRules))
  {
    assert key[0] == 'd';
  }

  /** The branch of MapKey a `joint.` key takes. */
  lemma MapKeyJoint(key: string)
    requires HasPrefix(key, "joint.")
    ensures MapKey(key) == MapJointKey(key[6..])
  {
    assert key[0] == 'j';
    if |key| >= 8 {
      assert key[..8][0] == 'j';
    }
  }

  /** Keys outside the encoder, the prediction network and the joint network have no parameter. */
  lemma UnknownComponent(key: string)
    requires !HasPrefix(key, "encoder.") && !HasPrefix(key, "decoder.") && !HasPrefix(key, "joint.")
    ensures MapKey(key) == None
  {
  }

  lemma UnderEncoder(y: string)
    ensures HasPrefix("encoder.preEncode." + y, "encoder.") && HasPrefix("encoder." + y, "encoder.")
  {
    assert HasPrefix("encoder.preEncode.", "encoder.");
    PrefixOfConcat("encoder.preEncode.", y, "encoder.");
    PrefixOfConcat("encoder.", y, "encoder.");
  }

  /** The pre-encoder branch of MapEncoderKey. */
  lemma MapEncoderKeyPreEncode(encoderKey: string)
    requires HasPrefix(encoderKey, "pre_encode.")
    requires HasPrefix(encoderKey[11..], "conv.") || HasPrefix(encoderKey[11..], "out.")
    ensures MapEncoderKey(encoderKey) == Some("encoder.preEncode." + encoderKey[11..])
  {
  }

  /** The conformer-layer branch of MapEncoderKey. */
  lemma MapEncoderKeyLayers(encoderKey: string)
    requires HasPrefix(encoderKey, "layers.")
    ensures MapEncoderKey(encoderKey) == Some("encoder." + ApplyRules(encoderKey, LayerRules))
  {
    LayersNotPreEncode(encoderKey);
  }

  lemma LayersNotPreEncode(encoderKey: string)
    requires HasPrefix(encoderKey, "layers.")
    ensures !HasPrefix(encoderKey, "pre_encode.")
  {
    if |encoderKey| >= 11 {
      assert encoderKey[..11][0] == 'l';
    }
  }

  lemma MapEncoderKeyPrefix(encoderKey: string)
    ensures var r := MapEncoderKey(encoderKey); r.Some? ==> HasPrefix(r.value, "encoder.")
  {
    if HasPrefix(encoderKey, "pre_encode.") && (HasPrefix(encoderKey[11..], "conv.") || HasPrefix(encoderKey[11..], "out.")) {
      MapEncoderKeyPreEncode(encoderKey);
      UnderEncoder(encoderKey[11..]);
    } else if HasPrefix(encoderKey, "layers.") {
      MapEncoderKeyLayers(encoderKey);
      UnderEncoder(ApplyRules(encoderKey, LayerRules));
    }
  }

  lemma MapJointKeyPrefix(jointKey: string)
    ensures var r := MapJointKey(jointKey); r.Some? ==> HasPrefix(r.value, "joint.")
  {
    var rewritten := ApplyRules(jointKey, JointRules);
    if !HasPrefix(rewritten, "joint_net.") {
      PrefixOfConcat("joint.", rewritten, "joint.");
    } else if HasPrefix(rewritten[10..], "2.") {
      PrefixOfConcat("joint.", "jointLinear." + rewritten[10..][2..], "joint.");
    }
  }

  /** A mapped key stays under its component. */
  lemma MappedStaysInComponent(key: string)
    ensures var r := MapKey(key);
            r.Some? ==>
              || (HasPrefix(key, "encoder.") && HasPrefix(r.value, "encoder."))
              || (HasPrefix(key, "decoder.") && HasPrefix(r.value, "decoder."))
              || (HasPrefix(key, "joint.") && HasPrefix(r.value, "joint."))
  {
    if HasPrefix(key, "encoder.") && MapEncoderKey(key[8..]).Some? {
      MapKeyEncoder(key);
      MapEncoderKeyPrefix(key[8..]);
    } else if HasPrefix(key, "decoder.") {
      MapKeyDecoder(key);
      PrefixOfConcat("decoder.", ApplyRules(key[8..], DecoderRules), "decoder.");
    } else if HasPrefix(key, "joint.") {
      MapKeyJoint(key);
      MapJointKeyPrefix(key[6..]);
    }
  }

  /** Every prediction-network key maps to a `decoder.` path: its rewritten remainder. */
  lemma DecoderKey(x: string)
    ensures MapKey("decoder." + x) == Some("decoder." + ApplyRules(x, DecoderRules))
  {
    PrefixOfConcat("decoder.", x, "decoder.");
    MapKeyDecoder("decoder." + x);
  }

  /** Pre-encoder convolution and output keys (after `encoder.`) keep their remainder verbatim. */
  lemma PreEncodeKey(sub: string, x: string)
    requires sub == "conv." || sub == "out."
    ensures MapEncoderKey("pre_encode." + (sub + x)) == Some("encoder.preEncode." + (sub + x))
  {
    PrefixOfConcat("pre_encode.", sub + x, "pre_encode.");
    PrefixOfConcat(sub, x, sub);
    MapEncoderKeyPreEncode("pre_encode." + (sub + x));
  }

  /** Conformer layer keys (after `encoder.`) keep their `layers.` prefix and have the rest rewritten. */
  lemma EncoderLayerKey(x: string)
    ensures MapEncoderKey("layers." + x) == Some("encoder." + ("layers." + ApplyRules(x, LayerRules)))
  {
    PrefixOfConcat("layers.", x, "layers.");
    MapEncoderKeyLayers("layers." + x);
    LayerRulesAfterLayers(x);
  }

  /**
   * The joint network's last layer (after `joint.`), `joint_net.2`, becomes
   * `jointLinear`, its parameter name rewritten.
   */
  lemma JointNetFinalKey(x: string)
    ensures MapJointKey("joint_net." + ("2." + x)) == Some("joint." + ("jointLinear." + ApplyRules(x, JointRules)))
  {
    JointRulesAfterJointNet("2." + x);
    JointRulesAfterTwo(x);
    var rewritten := ApplyRules(x, JointRules);
    PrefixOfConcat("joint_net.", "2." + rewritten, "joint_net.");
    PrefixOfConcat("2.", rewritten, "2.");
  }

  /** Any other `joint_net` layer (`20`, a bare `2`, `2x`, ...) has no parameter in the model. */
  lemma JointNetOtherKey(y: string)
    requires !HasPrefix(y, "2.")
    ensures MapJointKey("joint_net." + y) == None
  {
    JointRulesAfterJointNet(y);
    var rewritten := ApplyRules(y, JointRules);
    JointRulesNoNewTwo(y);
    PrefixOfConcat("joint_net.", rewritten, "joint_net.");
  }

  /** A whole pre-encoder convolution or output key keeps everything after `pre_encode.`. */
  lemma WholePreEncodeKey(sub: string, x: string)
    requires sub == "conv." || sub == "out."
    ensures MapKey("encoder." + ("pre_encode." + (sub + x))) == Some("encoder.preEncode." + (sub + x))
  {
    var key := "encoder." + ("pre_encode." + (sub + x));
    PrefixOfConcat("encoder.", "pre_encode." + (sub + x), "encoder.");
    PreEncodeKey(sub, x);
    MapKeyEncoder(key);
  }

  /** A whole conformer layer key keeps its `encoder.layers.` prefix and has the rest rewritten. */
  lemma WholeEncoderLayerKey(x: string)
    ensures MapKey("encoder." + ("layers." + x)) == Some("encoder." + ("layers." + ApplyRules(x, LayerRules)))
  {
    var key := "encoder." + ("layers." + x);
    PrefixOfConcat("encoder.", "layers." + x, "encoder.");
    EncoderLayerKey(x);
    MapKeyEncoder(key);
  }

  /**
   * A whole conformer layer key keeps its layer index: `encoder.layers.<d>.X`
   * maps to `encoder.layers.<d>.` followed by the rewritten X.
   */
  lemma WholeEncoderLayerIndexKey(d: string, x: string)
    requires IsDigits(d)
    ensures MapKey("encoder." + ("layers." + (d + ("." + x))))
            == Some("encoder." + ("layers." + (d + ("." + ApplyRules(x, LayerRules)))))
  {
    WholeEncoderLayerKey(d + ("." + x));
    LayerRulesAfterIndex(d, x);
  }

  /** The whole key of the joint network's last layer maps to `joint.jointLinear.`. */
  lemma WholeJointNetFinalKey(x: string)
    ensures MapKey("joint." + ("joint_net." + ("2." + x))) == Some("joint." + ("jointLinear." + ApplyRules(x, JointRules)))
  {
    PrefixOfConcat("joint.", "joint_net." + ("2." + x), "joint.");
    MapKeyJoint("joint." + ("joint_net." + ("2." + x)));
    JointNetFinalKey(x);
  }

  /** The whole key of any other joint network layer has no parameter. */
  lemma WholeJointNetOtherKey(y: string)
    requires !HasPrefix(y, "2.")
    ensures MapKey("joint." + ("joint_net." + y)) == None
  {
    PrefixOfConcat("joint.", "joint_net." + y, "joint.");
    MapKeyJoint("joint." + ("joint_net." + y));
    JointNetOtherKey(y);
  }
}
