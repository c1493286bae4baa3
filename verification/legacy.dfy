/** The legacy single-password key store the migration reads, and the
    collaborators that interpret it. */
module Legacy {

  import opened Wrappers
  import opened Json
  import opened Errors
  import opened Bip44

  /** `meta` of a legacy entry; absent fields are `None`. */
  datatype Meta = Meta(
    id: Option<string>,            // __id__
    name: Option<string>,
    email: Option<string>,
    socialType: Option<string>,
    cosmosAppLike: Option<string>) // __ledger__cosmos_app_like__

  /** One legacy key store: `type` is "mnemonic", "privateKey", "ledger" or anything else. */
  datatype KeyStore = KeyStore(kind: string, meta: Option<Meta>, bip44HDPath: Option<HDPath>, ciphertext: string)

  /** What the legacy store holds under "key-multi-store" and "key-store". */
  datatype Storage = Storage(multiKeyStore: Option<seq<KeyStore>>, keyStore: Option<KeyStore>)

  /** The `{cosmos, ethereum}` hex public keys of a JSON ledger payload. */
  datatype LedgerPubKeys = LedgerPubKeys(cosmos: Option<string>, ethereum: Option<string>)

  /** Collaborators the migration calls but whose internals are not modelled. */
  datatype Crypto = Crypto(
    decrypt: (KeyStore, string) -> Result<string, Error>, // Legacy.Crypto.decrypt, read back as text; fails on a wrong password
    isJsonPayload: string -> bool,                       // the hex round-trip comparison deciding JSON vs raw key
    parseJson: string -> Result<LedgerPubKeys, Error>)   // JSON.parse of the payload

  /** `keyStore.meta?.__id__`. */
  function KeyStoreId(ks: KeyStore): Option<string> {
    if ks.meta.Some? then ks.meta.value.id else None
  }

  /** `legacySelectedKeyStore?.meta?.__id__`. */
  function SelectedId(storage: Storage): Option<string> {
    if storage.keyStore.Some? then KeyStoreId(storage.keyStore.value) else None
  }

  /** `multiKeyStore && multiKeyStore.length > 0`. */
  predicate HasEntries(storage: Storage) {
    storage.multiKeyStore.Some? && |storage.multiKeyStore.value| > 0
  }

  /** A truthy optional string. */
  predicate Present(v: Option<string>) {
    v.Some? && v.value != ""
  }
}
