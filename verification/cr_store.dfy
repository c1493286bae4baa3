/** Prefixed key-value stores over a storage provider.

    A `BaseCRStore(provider, p)` stores key `k` under provider key `p/k`; a
    `PrefixCRStore(inner, p)` forwards key `k` to its inner store as `p/k`. The
    provider is modelled as the map it holds; reading a key the map lacks
    returns the empty object, so the store answers `undefined` (`None`). */
module CRStore {

  import opened Wrappers

  datatype Store =
    | Base(prefix: string)                   // BaseCRStore over the provider
    | Prefixed(inner: Store, prefix: string) // PrefixCRStore over `inner`

  /** `prefix()`: the prefix the store was constructed with. */
  function Prefix(store: Store): string {
    store.prefix
  }

  /** The composed path of all prefixes from the provider down to `store`. */
  function Path(store: Store): string {
    match store
    case Base(p) => p
    case Prefixed(inner, p) => Path(inner) + "/" + p
  }

  /** `${prefix}/${key}`, the key handed one level down. */
  function Join(prefix: string, key: string): string {
    prefix + "/" + key
  }

  /** The provider key a store key ends up under, following the delegation chain. */
  function ProviderKey(store: Store, key: string): (k: string)
    ensures k == Path(store) + "/" + key
  {
    match store
    case Base(p) => Join(p, key)
    case Prefixed(inner, p) => ProviderKey(inner, Join(p, key))
  }

  /** The provider's `get(k)`: the one-entry object `{[k]: value}`, or `{}`. */
  function ProviderRead<V>(provider: map<string, V>, k: string): map<string, V> {
    if k in provider then map[k := provider[k]] else map[]
  }

  /** The provider's `set(items)`: merges the given entries. */
  function ProviderWrite<V>(provider: map<string, V>, items: map<string, V>): map<string, V> {
    provider + items
  }

  /** `get(key)`. */
  function Get<V>(store: Store, provider: map<string, V>, key: string): (r: Option<V>)
    ensures ProviderKey(store, key) in provider ==> r == Some(provider[ProviderKey(store, key)])
    ensures ProviderKey(store, key) !in provider ==> r == None
  {
    match store
    case Base(p) =>
      var k := Join(p, key);
      var data := ProviderRead(provider, k);
      if k in data then Some(data[k]) else None
    case Prefixed(inner, p) =>
      Get(inner, provider, Join(p, key))
  }

  /** `set(key, data)`; `data` may be the JSON null. */
  function Set<V>(store: Store, provider: map<string, V>, key: string, data: V): (r: map<string, V>)
    ensures r == provider[ProviderKey(store, key) := data]
  {
    match store
    case Base(p) =>
      var k := Join(p, key);
      ProviderWrite(provider, map[k := data])
    case Prefixed(inner, p) =>
      Set(inner, provider, Join(p, key), data)
  }

  /** Distinct store keys land on distinct provider keys. */
  lemma ProviderKeyInjective(store: Store, k1: string, k2: string)
    requires k1 != k2
    ensures ProviderKey(store, k1) != ProviderKey(store, k2)
  {
    var head := Path(store) + "/";
    assert ProviderKey(store, k1) == head + k1;
    assert ProviderKey(store, k2) == head + k2;
    assert (head + k1)[|head|..] == k1;
    assert (head + k2)[|head|..] == k2;
  }

  /** A value written is read back. */
  lemma SetThenGet<V>(store: Store, provider: map<string, V>, key: string, data: V)
    ensures Get(store, Set(store, provider, key, data), key) == Some(data)
  {
  }

  /** Writing one key leaves every other key's value as it was. */
  lemma SetLeavesOtherKeys<V>(store: Store, provider: map<string, V>, key: string, other: string, data: V)
    requires other != key
    ensures Get(store, Set(store, provider, key, data), other) == Get(store, provider, other)
  {
    ProviderKeyInjective(store, key, other);
  }

  /** A key never written reads as `undefined`, and writing other keys keeps it so. */
  lemma GetUnset<V>(store: Store, provider: map<string, V>, key: string, other: string, data: V)
    requires ProviderKey(store, key) !in provider
    requires other != key
    ensures Get(store, provider, key) == None
    ensures Get(store, Set(store, provider, other, data), key) == None
  {
    ProviderKeyInjective(store, key, other);
  }

  /** A prefix wrapper over a base store keeps `k` at provider key `p1/p2/k`. */
  lemma NestedProviderKey(p1: string, p2: string, key: string)
    ensures ProviderKey(Prefixed(Base(p1), p2), key) == p1 + "/" + p2 + "/" + key
  {
  }

  /** A prefix wrapper's `prefix()` is its own prefix, never the composed path. */
  lemma WrapperPrefixIsOwn(inner: Store, p: string)
    ensures Prefix(Prefixed(inner, p)) == p
    ensures Prefix(Prefixed(inner, p)) != Path(Prefixed(inner, p))
  {
    assert |Path(Prefixed(inner, p))| > |p|;
  }
}
