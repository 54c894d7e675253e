/**
 * The flat configuration the credential manager reads: a string-to-string
 * dictionary, modelled as its entries in enumeration order so that "the first
 * entry that matches" can be stated.
 */
module Configuration {
  import opened Wrappers

  type Entry = (string, string)
  type Config = seq<Entry>

  /** A dictionary never holds two entries with the same key. */
  predicate DistinctKeys(config: Config) {
    forall i, j :: 0 <= i < j < |config| ==> config[i].0 != config[j].0
  }

  /** The value stored under `key`, or `None` when the key is absent. */
  function Lookup(config: Config, key: string): (r: Option<string>)
    ensures r.None? <==> forall i :: 0 <= i < |config| ==> config[i].0 != key
    ensures r.Some? ==> (key, r.value) in config
  {
    LookupFrom(config, key, 0)
  }

  /** The value of the first entry at or after position `from` whose key is `key`. */
  function LookupFrom(config: Config, key: string, from: nat): (r: Option<string>)
    requires from <= |config|
    ensures r.None? <==> forall i :: from <= i < |config| ==> config[i].0 != key
    ensures r.Some? ==> exists i :: from <= i < |config| && config[i] == (key, r.value)
    decreases |config| - from
  {
    if from == |config| then None
    else if config[from].0 == key then Some(config[from].1)
    else LookupFrom(config, key, from + 1)
  }

  /**
   * `v` is what `ContainsKey` and the indexer give for `key`: unset exactly
   * when no entry has the key, otherwise a value stored under it.
   */
  predicate Finds(config: Config, key: string, v: Option<string>) {
    (v.None? <==> forall i :: 0 <= i < |config| ==> config[i].0 != key)
    && (v.Some? ==> (key, v.value) in config)
  }

  /** `config.ContainsKey(key)`. */
  predicate ContainsKey(config: Config, key: string) {
    Lookup(config, key).Some?
  }

  /** `config[key]` for a key that is present. */
  function Get(config: Config, key: string): (v: string)
    requires ContainsKey(config, key)
    ensures (key, v) in config
  {
    Lookup(config, key).value
  }

  /** With distinct keys, the value found under a key is the one stored with it. */
  lemma LookupUnique(config: Config, key: string, value: string)
    requires DistinctKeys(config) && (key, value) in config
    ensures Lookup(config, key) == Some(value)
  {
    var i :| 0 <= i < |config| && config[i] == (key, value);
    var r := Lookup(config, key);
    var j :| 0 <= j < |config| && config[j] == (key, r.value);
    assert i == j;
  }
}
