/**
  The SmoothQuant quantization configuration: how a raw `quant_config.json`
  dictionary becomes a `quant_map`, and which (weight width, quant_map) pairs
  the configuration accepts.
 */
module SmoothQuantConfig {
  import opened Wrappers

  /** A value of the raw configuration dictionary, as a JSON loader produces it. */
  datatype JsonValue =
    | JString(s: string)
    | JNumber(n: int)
    | JBool(b: bool)
    | JNull
    | JArray(elems: seq<JsonValue>)
    | JObject(fields: seq<(string, JsonValue)>)

  /** The raw configuration dictionary: key to arbitrary JSON value. */
  type RawConfig = map<string, JsonValue>

  /** Layer name to activation-quantization scheme. */
  type QuantMap = map<string, string>

  /** The abstract `get_from_keys(config, keys)`: the first value found, or None
      where the lookup raises ValueError. */
  type KeyLookup = (RawConfig, seq<string>) -> Option<int>

  const PerTensor: string := "per-tensor"
  const PerToken: string := "per-token"

  /** Only w8a8 quantization is accepted. */
  const SupportedWeightBits: int := 8

  /** The width used when no weight-width key is present. */
  const DefaultWeightBits: int := 8

  /** The keys searched for the weight width, in order. */
  const BitsKeys: seq<string> := ["w_bit", "bits"]

  /** The two activation-quantization schemes SmoothQuant knows. */
  predicate IsScheme(s: string) {
    s == PerTensor || s == PerToken
  }

  /** `value in ["per-tensor", "per-token"]`: only a string can compare equal. */
  predicate IsQuantValue(v: JsonValue) {
    v.JString? && IsScheme(v.s)
  }

  /** Every entry of the map names one of the two schemes. */
  predicate SchemesOnly(qm: QuantMap) {
    forall k :: k in qm ==> IsScheme(qm[k])
  }

  /** The two ValueErrors the constructor raises. */
  datatype ConfigError =
    | UnsupportedWeightBits(bits: int)
    | EmptyQuantMap

  /** A constructed configuration. */
  datatype Config = Config(weightBits: int, quantMap: QuantMap) {

    /** What construction guarantees of every configuration it returns. */
    predicate Valid() {
      weightBits == SupportedWeightBits && |quantMap| > 0
    }
  }

  /** The configuration's constructor: the weight width is checked before the
      map, and a missing map (`None`) is refused like an empty one. */
  function NewConfig(weightBits: int, quantMap: Option<QuantMap>): (r: Result<Config, ConfigError>)
    ensures weightBits != SupportedWeightBits ==> r == Failure(UnsupportedWeightBits(weightBits))
    ensures weightBits == SupportedWeightBits && (quantMap.None? || quantMap == Some(map[])) ==>
              r == Failure(EmptyQuantMap)
    ensures r.Success? <==> weightBits == SupportedWeightBits && quantMap.Some? && quantMap.value != map[]
    ensures r.Success? ==> r.value.Valid()
    ensures r.Success? ==> r.value.weightBits == weightBits && Some(r.value.quantMap) == quantMap
  {
    if weightBits != SupportedWeightBits then
      Failure(UnsupportedWeightBits(weightBits))
    else if quantMap.None? || quantMap.value == map[] then
      Failure(EmptyQuantMap)
    else
      assert quantMap.value.Keys != {};
      Success(Config(weightBits, quantMap.value))
  }

  /** Constructing with every argument left at its default fails: the default
      quant_map is None. */
  lemma DefaultArgumentsRejected()
    ensures NewConfig(DefaultWeightBits, None) == Failure(EmptyQuantMap)
  {
  }

  /** Construction takes back every valid configuration unchanged. */
  lemma ValidConfigReconstructs(c: Config)
    requires c.Valid()
    ensures NewConfig(c.weightBits, Some(c.quantMap)) == Success(c)
  {
    assert c.quantMap.Keys != {};
  }

  /** The quant_map the loop over the raw dictionary builds: every entry whose
      value is one of the two scheme strings, with that string. */
  function FilterQuantMap(config: RawConfig): (qm: QuantMap)
    ensures forall k :: k in qm <==> k in config && IsQuantValue(config[k])
    ensures forall k :: k in qm ==> config[k] == JString(qm[k])
    ensures SchemesOnly(qm)
  {
    map k | k in config && IsQuantValue(config[k]) :: config[k].s
  }

  /** The weight width `from_config` settles on: the lookup's value, or the
      default when the lookup raises. */
  function WeightBitsOf(config: RawConfig, getFromKeys: KeyLookup): (bits: int)
    ensures getFromKeys(config, BitsKeys) == None ==> bits == DefaultWeightBits
    ensures getFromKeys(config, BitsKeys).Some? ==> bits == getFromKeys(config, BitsKeys).value
  {
    match getFromKeys(config, BitsKeys)
    case Some(b) => b
    case None => DefaultWeightBits
  }

  /** Builds a configuration from the raw dictionary. */
  function FromConfig(config: RawConfig, getFromKeys: KeyLookup): (r: Result<Config, ConfigError>)
    ensures var bits := WeightBitsOf(config, getFromKeys);
            && (bits != SupportedWeightBits ==> r == Failure(UnsupportedWeightBits(bits)))
            && (r.Success? <==>
                  bits == SupportedWeightBits && exists k :: k in config && IsQuantValue(config[k]))
            && (r.Failure? && bits == SupportedWeightBits ==>
                  r.error == EmptyQuantMap && forall k :: k in config ==> !IsQuantValue(config[k]))
    ensures r.Success? ==> r.value.Valid() && SchemesOnly(r.value.quantMap)
    ensures r.Success? ==> forall k :: k in r.value.quantMap <==> k in config && IsQuantValue(config[k])
    ensures r.Success? ==> forall k :: k in r.value.quantMap ==> config[k] == JString(r.value.quantMap[k])
  {
    NewConfig(WeightBitsOf(config, getFromKeys), Some(FilterQuantMap(config)))
  }

  /** When no weight-width key can be found, `from_config` falls back to 8 bits
      and so never fails on the width: it succeeds exactly when some entry
      names a scheme, and otherwise reports the empty map. */
  lemma MissingWidthFallsBackToEight(config: RawConfig, getFromKeys: KeyLookup)
    requires getFromKeys(config, BitsKeys) == None
    ensures FromConfig(config, getFromKeys).Success? ==>
              FromConfig(config, getFromKeys).value.weightBits == DefaultWeightBits
    ensures FromConfig(config, getFromKeys).Failure? ==>
              FromConfig(config, getFromKeys).error == EmptyQuantMap
  {
  }

  /** A width other than 8 is refused whatever the dictionary holds. */
  lemma WrongWidthAlwaysRejected(config: RawConfig, getFromKeys: KeyLookup, bits: int)
    requires getFromKeys(config, BitsKeys) == Some(bits)
    requires bits != SupportedWeightBits
    ensures FromConfig(config, getFromKeys) == Failure(UnsupportedWeightBits(bits))
  {
  }

  /** Overwriting one dictionary entry changes the filtered map at that key only:
      a scheme string is kept, anything else drops the key. */
  lemma {:induction false} FilterUpdate(config: RawConfig, k: string, v: JsonValue)
    ensures FilterQuantMap(config[k := v]) ==
              if IsQuantValue(v) then FilterQuantMap(config)[k := v.s]
              else FilterQuantMap(config) - {k}
  {
    var lhs := FilterQuantMap(config[k := v]);
    var rhs := if IsQuantValue(v) then FilterQuantMap(config)[k := v.s] else FilterQuantMap(config) - {k};
    assert lhs.Keys == rhs.Keys;
    forall key | key in lhs
      ensures lhs[key] == rhs[key]
    {
    }
  }

  /** The dictionary a quant_map is written back as (the `quant_config.json`
      layout the constructor's error message shows). */
  function ToRawConfig(qm: QuantMap): (config: RawConfig)
    ensures config.Keys == qm.Keys
    ensures forall k :: k in config ==> config[k] == JString(qm[k])
  {
    map k | k in qm :: JString(qm[k])
  }

  /** Filtering a written-back quant_map gives it back: the filter keeps every
      scheme entry and invents none. */
  lemma FilterToRawConfig(qm: QuantMap)
    requires SchemesOnly(qm)
    ensures FilterQuantMap(ToRawConfig(qm)) == qm
  {
    var back := FilterQuantMap(ToRawConfig(qm));
    assert back.Keys == qm.Keys;
  }

  /** Filtering is idempotent: filtering the written-back result again changes nothing. */
  lemma FilterIdempotent(config: RawConfig)
    ensures FilterQuantMap(ToRawConfig(FilterQuantMap(config))) == FilterQuantMap(config)
  {
    FilterToRawConfig(FilterQuantMap(config));
  }

  /** A configuration `from_config` accepted, written back as its dictionary and
      read again, is the same configuration, provided the width lookup on that
      dictionary yields 8 or nothing. */
  lemma ConfigRoundTrip(c: Config, getFromKeys: KeyLookup)
    requires c.Valid() && SchemesOnly(c.quantMap)
    requires getFromKeys(ToRawConfig(c.quantMap), BitsKeys) in {None, Some(SupportedWeightBits)}
    ensures FromConfig(ToRawConfig(c.quantMap), getFromKeys) == Success(c)
  {
    FilterToRawConfig(c.quantMap);
    ValidConfigReconstructs(c);
  }

  /** The example dictionary for a llama model given in the constructor's error
      message, read with a lookup that finds no width or finds 8. */
  lemma LlamaExampleAccepted(getFromKeys: KeyLookup)
    requires var config := map["qkv" := JString(PerTensor), "out" := JString(PerToken),
                               "fc1" := JString(PerTensor), "fc2" := JString(PerToken)];
             getFromKeys(config, BitsKeys) in {None, Some(SupportedWeightBits)}
    ensures var config := map["qkv" := JString(PerTensor), "out" := JString(PerToken),
                              "fc1" := JString(PerTensor), "fc2" := JString(PerToken)];
            FromConfig(config, getFromKeys) ==
              Success(Config(8, map["qkv" := PerTensor, "out" := PerToken,
                                    "fc1" := PerTensor, "fc2" := PerToken]))
  {
    var config := map["qkv" := JString(PerTensor), "out" := JString(PerToken),
                      "fc1" := JString(PerTensor), "fc2" := JString(PerToken)];
    var expected := map["qkv" := PerTensor, "out" := PerToken, "fc1" := PerTensor, "fc2" := PerToken];
    assert ToRawConfig(expected) == config;
    ConfigRoundTrip(Config(8, expected), getFromKeys);
  }

  // ---- The loop over `config.items()` ----

  /** A dictionary's items: no key occurs twice. */
  predicate DistinctKeys(items: seq<(string, JsonValue)>) {
    forall i, j :: 0 <= i < j < |items| ==> items[i].0 != items[j].0
  }

  /** The dictionary whose items, in order, are `items`. */
  function ItemsToMap(items: seq<(string, JsonValue)>): RawConfig
  {
    if |items| == 0 then map[]
    else ItemsToMap(items[..|items| - 1])[items[|items| - 1].0 := items[|items| - 1].1]
  }

  /** Each item of a dictionary is its entry. */
  lemma {:induction false} ItemsToMapEntry(items: seq<(string, JsonValue)>, i: int)
    requires DistinctKeys(items)
    requires 0 <= i < |items|
    ensures items[i].0 in ItemsToMap(items) && ItemsToMap(items)[items[i].0] == items[i].1
    decreases |items|
  {
    if i < |items| - 1 {
      var init := items[..|items| - 1];
      assert init[i] == items[i];
      ItemsToMapEntry(init, i);
    }
  }

  /** A key that no item carries is not in the dictionary. */
  lemma {:induction false} AbsentKey(items: seq<(string, JsonValue)>, k: string)
    requires forall i :: 0 <= i < |items| ==> items[i].0 != k
    ensures k !in ItemsToMap(items)
    decreases |items|
  {
    if |items| > 0 {
      var init := items[..|items| - 1];
      assert forall i :: 0 <= i < |init| ==> init[i] == items[i];
      AbsentKey(init, k);
    }
  }

  /** In a dictionary's items, a key is not among the items before it. */
  lemma LaterKeyUnseen(items: seq<(string, JsonValue)>, n: int)
    requires DistinctKeys(items)
    requires 0 <= n < |items|
    ensures items[n].0 !in ItemsToMap(items[..n])
  {
    var seen := items[..n];
    assert forall i :: 0 <= i < |seen| ==> seen[i].0 != items[n].0;
    AbsentKey(seen, items[n].0);
  }

  /** The loop that builds quant_map: visits the items in order and copies
      every entry whose value is a scheme string. */
  method CollectQuantMap(items: seq<(string, JsonValue)>) returns (qm: QuantMap)
    requires DistinctKeys(items)
    ensures qm == FilterQuantMap(ItemsToMap(items))
  {
    qm := map[];
    for n := 0 to |items|
      invariant qm == FilterQuantMap(ItemsToMap(items[..n]))
    {
      var (key, value) := items[n];
      var seen := items[..n];
      assert items[..n + 1][..n] == seen;
      LaterKeyUnseen(items, n);
      FilterUpdate(ItemsToMap(seen), key, value);
      if IsQuantValue(value) {
        qm := qm[key := value.s];
      } else {
        assert key !in qm;
      }
    }
    assert items[..|items|] == items;
  }

  /** Item by item, the filtered dictionary keeps each scheme item with its
      string and drops every other item's key. */
  lemma {:induction false} FilterItems(items: seq<(string, JsonValue)>, i: int)
    requires DistinctKeys(items)
    requires 0 <= i < |items|
    ensures IsQuantValue(items[i].1) ==>
              items[i].0 in FilterQuantMap(ItemsToMap(items)) &&
              FilterQuantMap(ItemsToMap(items))[items[i].0] == items[i].1.s
    ensures !IsQuantValue(items[i].1) ==> items[i].0 !in FilterQuantMap(ItemsToMap(items))
  {
    ItemsToMapEntry(items, i);
  }

  /** `from_config` as its loop runs over the dictionary's items; the result is
      the one the map-level definition gives. */
  method FromConfigItems(items: seq<(string, JsonValue)>, getFromKeys: KeyLookup)
    returns (r: Result<Config, ConfigError>)
    requires DistinctKeys(items)
    ensures r == FromConfig(ItemsToMap(items), getFromKeys)
  {
    var config := ItemsToMap(items);
    var weightBits := WeightBitsOf(config, getFromKeys);
    var quantMap := CollectQuantMap(items);
    r := NewConfig(weightBits, Some(quantMap));
  }
}
