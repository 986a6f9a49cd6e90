/**
 * src/lib.rs, the three arms of `add_job_with_dict_and_serde_input` that
 * merge the serde-derived dictionary with the caller's dictionary.
 *
 * Typst's `Dict` keeps insertion order; here it is a map, so only which
 * keys are present and what they hold is modelled.
 */
module InputMerge {
  import opened Wrappers
  import opened External

  /** `InputUnifyMode`. */
  datatype InputUnifyMode =
    | SerdeOverridesDict
    | DictOverridesSerde
    | SeparateKeys(serdeKey: string, dictKey: string)

  /** The derived `Default`. */
  const DefaultUnifyMode := SerdeOverridesDict

  /** The merged input, key by key: what the three arms are meant to produce. */
  function Unified(serde: Dict, dict: Dict, mode: InputUnifyMode): (r: Dict)
    ensures mode.SerdeOverridesDict? ==>
      r.Keys == serde.Keys + dict.Keys &&
      (forall k :: k in serde ==> r[k] == serde[k]) &&
      (forall k :: k in dict && k !in serde ==> r[k] == dict[k])
    ensures mode.DictOverridesSerde? ==>
      r.Keys == serde.Keys + dict.Keys &&
      (forall k :: k in dict ==> r[k] == dict[k]) &&
      (forall k :: k in serde && k !in dict ==> r[k] == serde[k])
    ensures mode.SeparateKeys? ==>
      r.Keys == {mode.serdeKey, mode.dictKey} &&
      r[mode.dictKey] == DictValue(dict) &&
      (mode.serdeKey != mode.dictKey ==> r[mode.serdeKey] == DictValue(serde))
  {
    match mode
    case SerdeOverridesDict => dict + serde
    case DictOverridesSerde => serde + dict
    case SeparateKeys(serdeKey, dictKey) => map[serdeKey := DictValue(serde)][dictKey := DictValue(dict)]
  }

  /** `for (key, value) in from { into.insert(key, value); }` */
  method InsertAll(into: Dict, from: Dict) returns (r: Dict)
    ensures r.Keys == into.Keys + from.Keys
    ensures forall k :: k in from ==> r[k] == from[k]
    ensures forall k :: k in into && k !in from ==> r[k] == into[k]
  {
    r := into;
    var rest := from.Keys;
    while rest != {}
      invariant rest <= from.Keys
      invariant r.Keys == into.Keys + (from.Keys - rest)
      invariant forall k :: k in from && k !in rest ==> r[k] == from[k]
      invariant forall k :: k in into && (k !in from || k in rest) ==> r[k] == into[k]
      decreases rest
    {
      var k :| k in rest;
      r := r[k := from[k]];
      rest := rest - {k};
    }
  }

  /** The `match options.input_unify_mode` in `add_job_with_dict_and_serde_input`. */
  method Unify(serde: Dict, dict: Dict, mode: InputUnifyMode) returns (r: Dict)
    ensures r == Unified(serde, dict, mode)
  {
    match mode
    case SerdeOverridesDict =>
      r := InsertAll(dict, serde);
    case DictOverridesSerde =>
      r := InsertAll(serde, dict);
    case SeparateKeys(serdeKey, dictKey) =>
      r := map[];
      r := r[serdeKey := DictValue(serde)];
      r := r[dictKey := DictValue(dict)];
  }

  /** The two precedence modes differ exactly on the keys both sides hold with different values. */
  lemma PrecedenceModesAgreeIff(serde: Dict, dict: Dict)
    ensures Unified(serde, dict, SerdeOverridesDict) == Unified(serde, dict, DictOverridesSerde) <==>
            forall k :: k in serde && k in dict ==> serde[k] == dict[k]
  {
    var a := Unified(serde, dict, SerdeOverridesDict);
    var b := Unified(serde, dict, DictOverridesSerde);
    if forall k :: k in serde && k in dict ==> serde[k] == dict[k] {
      assert forall k :: k in a ==> a[k] == b[k];
    } else {
      var k :| k in serde && k in dict && serde[k] != dict[k];
      assert a[k] != b[k];
    }
  }

  /** With an empty dictionary, serde precedence yields the serde dictionary itself. */
  lemma SerdeOverEmptyIsSerde(serde: Dict)
    ensures Unified(serde, map[], SerdeOverridesDict) == serde
  {
    assert forall k :: k in serde ==> Unified(serde, map[], SerdeOverridesDict)[k] == serde[k];
  }
}
