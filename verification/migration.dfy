/** The one-time migration of the legacy key store into vaults (`migrate`,
    `unlockKeyRing`, `checkLegacyKeyRingPassword`). */
module Migration {

  import opened Wrappers
  import opened Json
  import opened Errors
  import opened Hex
  import opened Bip44
  import CRStore
  import Ledger = LedgerKeyRing
  import Legacy
  import opened KeyRing
  import KeyRingInvariants

  // ---------------------------------------------------------------------------
  // Reading a legacy entry

  /** `keyStore.bip44HDPath ?? {0, 0, 0}`. */
  function LegacyPath(ks: Legacy.KeyStore): HDPath {
    ks.bip44HDPath.GetOr(DefaultPath)
  }

  /** `keyStore.meta?.name ?? "Keplr Account"`: only an absent name is replaced. */
  function LegacyName(ks: Legacy.KeyStore): string {
    if ks.meta.Some? && ks.meta.value.name.Some? then ks.meta.value.name.value else DefaultKeyRingName
  }

  /** The private-key meta: a web3Auth record when the entry has an email, the
      social type defaulting to "google". */
  function Web3AuthMeta(ks: Legacy.KeyStore): (meta: Json)
    ensures meta.Obj? && meta.fields.Keys <= {"web3Auth"}
    ensures "web3Auth" in meta.fields <==> ks.meta.Some? && Legacy.Present(ks.meta.value.email)
    ensures "web3Auth" in meta.fields ==>
      var w := meta.fields["web3Auth"];
      w.Obj? && w.fields.Keys == {"email", "type"} && w.fields["email"] == Str(ks.meta.value.email.value)
    ensures "web3Auth" in meta.fields && Legacy.Present(ks.meta.value.socialType) ==>
      meta.fields["web3Auth"].fields["type"] == Str(ks.meta.value.socialType.value)
    ensures "web3Auth" in meta.fields && !Legacy.Present(ks.meta.value.socialType) ==>
      meta.fields["web3Auth"].fields["type"] == Str("google")
  {
    if ks.meta.Some? && Legacy.Present(ks.meta.value.email) then
      var social := if Legacy.Present(ks.meta.value.socialType) then ks.meta.value.socialType.value else "google";
      Obj(map["web3Auth" := Obj(map["email" := Str(ks.meta.value.email.value), "type" := Str(social)])])
    else Obj(map[])
  }

  /** The Ledger app a JSON payload's cosmos key is stored under. */
  function LedgerApp(ks: Legacy.KeyStore): string {
    if ks.meta.Some? && ks.meta.value.cosmosAppLike == Some("Terra") then "Terra" else "Cosmos"
  }

  /** The per-entry flag "migration/v1/keyStore/<id>" is truthy. */
  predicate Flagged(s: State, id: string) {
    var v := CRStore.Get(Store, s.kv, KeyStoreMigrationKey(id));
    v.Some? && Truthy(v.value)
  }

  function SetFlag(s: State, id: string): State {
    s.(kv := CRStore.Set(Store, s.kv, KeyStoreMigrationKey(id), Bool(true)))
  }

  /** The vault to select at the end: the latest one created from an entry whose
      id equals the legacy selected entry's id, compared as optional values. */
  function Selecting(ks: Legacy.KeyStore, legacySelected: Option<string>, vaultId: string, selecting: Option<string>): Option<string> {
    if Legacy.KeyStoreId(ks) == legacySelected then Some(vaultId) else selecting
  }

  /** Turns a create's outcome into the loop's outcome. */
  function Adopt(o: Outcome<string>, ks: Legacy.KeyStore, legacySelected: Option<string>, selecting: Option<string>): Outcome<Option<string>> {
    match o.ret
    case Err(e) => Outcome(o.state, Err(e))
    case Ok(id) => Outcome(o.state, Ok(Selecting(ks, legacySelected, id, selecting)))
  }

  /** Vaults present before are kept untouched and the listing only grows at its end. */
  ghost predicate Extends(s: State, t: State) {
    && (forall id :: id in s.vaults ==> id in t.vaults && t.vaults[id] == s.vaults[id])
    && |s.order| <= |t.order| && t.order[..|s.order|] == s.order
  }

  /** Writes to the store other than the persisted selection. */
  ghost predicate SameOtherKeys(s: State, t: State) {
    forall k :: k != SelectedVaultIdKey ==> CRStore.Get(Store, t.kv, k) == CRStore.Get(Store, s.kv, k)
  }

  /** What converting one entry may do to the state: keep the invariant, add at
      most one vault at the end of the listing and select it, and write nothing
      else to the store. */
  ghost predicate EntryStep(s: State, r: Outcome<Option<string>>, ks: Legacy.KeyStore, legacySelected: Option<string>,
                            selecting: Option<string>) {
    && Valid(r.state) && Extends(s, r.state) && |r.state.order| <= |s.order| + 1
    && r.state.needMigration == s.needMigration && r.state.isMigrating == s.isMigrating
    && (r.ret.Ok? && |r.state.order| > |s.order| ==>
          && r.state.selected == Some(r.state.order[|s.order|])
          && r.ret.value == Selecting(ks, legacySelected, r.state.order[|s.order|], selecting))
    && (r.ret.Ok? && |r.state.order| == |s.order| ==> r == Outcome(s, Ok(selecting)))
    && SameOtherKeys(s, r.state)
  }

  // ---------------------------------------------------------------------------
  // Migrating one entry

  /** A mnemonic entry: the decrypted text is the mnemonic. */
  function ConvertMnemonic(b: Backends, c: Legacy.Crypto, s: State, ks: Legacy.KeyStore, legacySelected: Option<string>,
                           password: string, selecting: Option<string>): (r: Outcome<Option<string>>)
    requires Valid(s)
    ensures EntryStep(s, r, ks, legacySelected, selecting)
    ensures r.ret.Ok? ==> |r.state.order| == |s.order| + 1
    ensures r.ret.Ok? && |r.state.order| > |s.order| ==> IsType(r.state.vaults[r.state.order[|s.order|]], MnemonicType)
    ensures r.ret.Ok? && |r.state.order| > |s.order| ==>
      var ins := r.state.vaults[r.state.order[|s.order|]];
      && c.decrypt(ks, password).Ok?
      && b.mnemonicVault(c.decrypt(ks, password).value, LegacyPath(ks)).Ok?
      && ins == Merge(b.mnemonicVault(c.decrypt(ks, password).value, LegacyPath(ks)).value, MnemonicFields(LegacyName(ks)))
      && "keyRingName" in ins && ins["keyRingName"] == Str(LegacyName(ks))
  {
    match c.decrypt(ks, password)
    case Err(e) => Outcome(s, Err(e))
    case Ok(mnemonic) =>
      var o := CreateMnemonicKeyRing(b, s, mnemonic, LegacyPath(ks), LegacyName(ks), Some(password));
      Created(s, o, ks, legacySelected, selecting);
      Adopt(o, ks, legacySelected, selecting)
  }

  /** A private-key entry: the decrypted text is the key in hex. */
  function ConvertPrivateKey(b: Backends, c: Legacy.Crypto, s: State, ks: Legacy.KeyStore, legacySelected: Option<string>,
                             password: string, selecting: Option<string>): (r: Outcome<Option<string>>)
    requires Valid(s)
    ensures EntryStep(s, r, ks, legacySelected, selecting)
    ensures r.ret.Ok? ==> |r.state.order| == |s.order| + 1
    ensures r.ret.Ok? && |r.state.order| > |s.order| ==> IsType(r.state.vaults[r.state.order[|s.order|]], PrivateKeyType)
    ensures r.ret.Ok? && |r.state.order| > |s.order| ==>
      var ins := r.state.vaults[r.state.order[|s.order|]];
      && c.decrypt(ks, password).Ok?
      && b.privateKeyVault(FromHex(c.decrypt(ks, password).value)).Ok?
      && ins == Merge(b.privateKeyVault(FromHex(c.decrypt(ks, password).value)).value,
                      PrivateKeyFields(LegacyName(ks), Web3AuthMeta(ks)))
      && "keyRingName" in ins && ins["keyRingName"] == Str(LegacyName(ks))
      && "keyRingMeta" in ins && ins["keyRingMeta"] == Web3AuthMeta(ks)
  {
    match c.decrypt(ks, password)
    case Err(e) => Outcome(s, Err(e))
    case Ok(text) =>
      var o := CreatePrivateKeyKeyRing(b, s, FromHex(text), Web3AuthMeta(ks), LegacyName(ks), Some(password));
      Created(s, o, ks, legacySelected, selecting);
      Adopt(o, ks, legacySelected, selecting)
  }

  /** A Ledger entry whose payload is JSON: a vault only when it has a cosmos key,
      with the ethereum key appended as the "Ethereum" app when present. */
  function ConvertLedgerJson(s: State, keys: Legacy.LedgerPubKeys, ks: Legacy.KeyStore, legacySelected: Option<string>,
                             password: string, selecting: Option<string>): (r: Outcome<Option<string>>)
    requires Valid(s)
    ensures EntryStep(s, r, ks, legacySelected, selecting)
    ensures !Legacy.Present(keys.cosmos) ==> r == Outcome(s, Ok(selecting))
    ensures Legacy.Present(keys.cosmos) && r.ret.Ok? ==> |r.state.order| == |s.order| + 1
    ensures r.ret.Ok? && |r.state.order| > |s.order| ==>
              var ins := r.state.vaults[r.state.order[|s.order|]];
              IsType(ins, LedgerType) && ("Ethereum" in ins <==> Legacy.Present(keys.ethereum))
  {
    if !Legacy.Present(keys.cosmos) then Outcome(s, Ok(selecting))
    else LedgerFromJson(s, keys.cosmos.value, keys.ethereum, ks, legacySelected, password, selecting)
  }

  /** The Ledger vault of a JSON payload with a cosmos key. */
  function LedgerFromJson(s: State, cosmos: string, ethereum: Option<string>, ks: Legacy.KeyStore, legacySelected: Option<string>,
                          password: string, selecting: Option<string>): (r: Outcome<Option<string>>)
    requires Valid(s)
    ensures EntryStep(s, r, ks, legacySelected, selecting)
    ensures r.ret.Ok? ==> |r.state.order| == |s.order| + 1
    ensures r.ret.Ok? ==>
              var ins := r.state.vaults[r.state.order[|s.order|]];
              IsType(ins, LedgerType) && ("Ethereum" in ins <==> Legacy.Present(ethereum))
  {
    var o := CreateLedgerKeyRing(s, FromHex(cosmos), LedgerApp(ks), LegacyPath(ks), LegacyName(ks), Some(password));
    Created(s, o, ks, legacySelected, selecting);
    assert LedgerApp(ks) != "Ethereum";
    LedgerCreatedWithoutEthereum(s, o, FromHex(cosmos), LedgerApp(ks), LegacyPath(ks), LegacyName(ks), Some(password));
    if o.ret.Err? then Adopt(o, ks, legacySelected, selecting)
    else WithEthereum(s, o, ethereum, ks, legacySelected, selecting)
  }

  /** A Ledger vault created for another app has no "Ethereum" app yet. */
  lemma LedgerCreatedWithoutEthereum(s: State, o: Outcome<string>, pubKey: seq<Byte>, app: string, path: HDPath, name: string,
                                     password: Option<string>)
    requires Valid(s) && app != "Ethereum"
    requires o == CreateLedgerKeyRing(s, pubKey, app, path, name, password)
    ensures o.ret.Ok? ==>
              && o.state.order == s.order + [o.ret.value] && o.ret.value !in s.vaults
              && o.ret.value in o.state.vaults && IsType(o.state.vaults[o.ret.value], LedgerType)
              && "Ethereum" !in o.state.vaults[o.ret.value]
  {
    if o.ret.Ok? {
      assert o.state.vaults[o.ret.value].Keys == {app, "bip44Path", "keyRingName", "keyRingType"};
    }
  }

  /** The freshly created Ledger vault, with the "Ethereum" app appended when the payload has one. */
  function WithEthereum(s: State, o: Outcome<string>, ethereum: Option<string>, ks: Legacy.KeyStore,
                        legacySelected: Option<string>, selecting: Option<string>): (r: Outcome<Option<string>>)
    requires o.ret.Ok? && EntryStep(s, Adopt(o, ks, legacySelected, selecting), ks, legacySelected, selecting)
    requires o.state.order == s.order + [o.ret.value] && o.ret.value !in s.vaults
    requires o.ret.value in o.state.vaults && IsType(o.state.vaults[o.ret.value], LedgerType)
    requires "Ethereum" !in o.state.vaults[o.ret.value]
    ensures EntryStep(s, r, ks, legacySelected, selecting)
    ensures r.ret.Ok? && r.state.order == o.state.order && |r.state.order| == |s.order| + 1
    ensures r.state.order[|s.order|] == o.ret.value && o.ret.value in r.state.vaults
    ensures var ins := r.state.vaults[o.ret.value];
            IsType(ins, LedgerType) && ("Ethereum" in ins <==> Legacy.Present(ethereum))
  {
    var t := AppendEthereum(o.state, o.ret.value, ethereum);
    EthereumStep(s, o, t, ks, legacySelected, selecting);
    Adopt(Outcome(t, o.ret), ks, legacySelected, selecting)
  }

  /** The "Ethereum" app appended to a vault freshly created from a JSON payload;
      it cannot already be there, so the append does not throw. */
  function AppendEthereum(s: State, id: string, ethereum: Option<string>): (t: State)
    requires id in s.vaults && IsType(s.vaults[id], LedgerType)
    requires "Ethereum" !in s.vaults[id]
    ensures t.order == s.order && t.selected == s.selected && t.kv == s.kv
    ensures t.signedUp == s.signedUp && t.locked == s.locked
    ensures t.needMigration == s.needMigration && t.isMigrating == s.isMigrating
    ensures t.vaults.Keys == s.vaults.Keys
    ensures forall v :: v in s.vaults && v != id ==> t.vaults[v] == s.vaults[v]
    ensures IsType(t.vaults[id], LedgerType) && ("Ethereum" in t.vaults[id] <==> Legacy.Present(ethereum))
  {
    if !Legacy.Present(ethereum) then s
    else
      assert !FieldTruthy(s.vaults[id], "Ethereum");
      var entry := Ledger.AppEntry(FromHex(ethereum.value));
      var r := AppendLedgerKeyRing(s, id, FromHex(ethereum.value), "Ethereum");
      assert r == Ok(s.(vaults := s.vaults[id := s.vaults[id]["Ethereum" := entry]]));
      r.value
  }

  /** A Ledger entry: the payload is JSON or a raw Cosmos public key in hex. */
  function ConvertLedger(c: Legacy.Crypto, s: State, ks: Legacy.KeyStore, legacySelected: Option<string>,
                         password: string, selecting: Option<string>): (r: Outcome<Option<string>>)
    requires Valid(s)
    ensures EntryStep(s, r, ks, legacySelected, selecting)
    ensures r.ret.Ok? && |r.state.order| > |s.order| ==> IsType(r.state.vaults[r.state.order[|s.order|]], LedgerType)
    ensures r.ret.Ok? ==> (|r.state.order| == |s.order| + 1 <==> LedgerCreatesVault(c, ks, password))
  {
    match c.decrypt(ks, password)
    case Err(e) => Outcome(s, Err(e))
    case Ok(text) =>
      if c.isJsonPayload(text) then
        match c.parseJson(text)
        case Err(e) => Outcome(s, Err(e))
        case Ok(keys) =>
          assert LedgerCreatesVault(c, ks, password) <==> Legacy.Present(keys.cosmos);
          ConvertLedgerJson(s, keys, ks, legacySelected, password, selecting)
      else
        var o := CreateLedgerKeyRing(s, FromHex(text), "Cosmos", LegacyPath(ks), LegacyName(ks), Some(password));
        Created(s, o, ks, legacySelected, selecting);
        Adopt(o, ks, legacySelected, selecting)
  }

  /** A successful conversion of the entry adds a vault: it is a mnemonic or a
      private-key entry, or a Ledger entry whose payload is a raw key or JSON
      with a cosmos key. */
  predicate CreatesVault(c: Legacy.Crypto, ks: Legacy.KeyStore, password: string) {
    || ks.kind == "mnemonic" || ks.kind == "privateKey"
    || (ks.kind == "ledger" && LedgerCreatesVault(c, ks, password))
  }

  /** A Ledger payload that is not JSON, or JSON with a cosmos key. */
  predicate LedgerCreatesVault(c: Legacy.Crypto, ks: Legacy.KeyStore, password: string) {
    c.decrypt(ks, password).Ok? && c.isJsonPayload(c.decrypt(ks, password).value) &&
    c.parseJson(c.decrypt(ks, password).value).Ok? ==>
      Legacy.Present(c.parseJson(c.decrypt(ks, password).value).value.cosmos)
  }

  /** Creates the vault an entry describes; an entry of unknown type creates nothing. */
  function ConvertEntry(b: Backends, c: Legacy.Crypto, s: State, ks: Legacy.KeyStore, legacySelected: Option<string>,
                        password: string, selecting: Option<string>): (r: Outcome<Option<string>>)
    requires Valid(s)
    ensures EntryStep(s, r, ks, legacySelected, selecting)
    ensures ks.kind !in {"mnemonic", "privateKey", "ledger"} ==> r == Outcome(s, Ok(selecting))
    ensures r.ret.Ok? ==> (|r.state.order| == |s.order| + 1 <==> CreatesVault(c, ks, password))
  {
    if ks.kind == "mnemonic" then ConvertMnemonic(b, c, s, ks, legacySelected, password, selecting)
    else if ks.kind == "privateKey" then ConvertPrivateKey(b, c, s, ks, legacySelected, password, selecting)
    else if ks.kind == "ledger" then ConvertLedger(c, s, ks, legacySelected, password, selecting)
    else Outcome(s, Ok(selecting))
  }

  /** Appending to the vault just created keeps the step legal. */
  lemma EthereumStep(s: State, o: Outcome<string>, t: State, ks: Legacy.KeyStore, legacySelected: Option<string>,
                     selecting: Option<string>)
    requires o.ret.Ok? && EntryStep(s, Adopt(o, ks, legacySelected, selecting), ks, legacySelected, selecting)
    requires o.state.order == s.order + [o.ret.value] && o.ret.value !in s.vaults
    requires t.order == o.state.order && t.selected == o.state.selected && t.kv == o.state.kv
    requires t.signedUp == o.state.signedUp && t.locked == o.state.locked
    requires t.needMigration == o.state.needMigration && t.isMigrating == o.state.isMigrating
    requires t.vaults.Keys == o.state.vaults.Keys
    requires forall v :: v in o.state.vaults && v != o.ret.value ==> t.vaults[v] == o.state.vaults[v]
    ensures EntryStep(s, Adopt(Outcome(t, o.ret), ks, legacySelected, selecting), ks, legacySelected, selecting)
  {
    assert Valid(o.state);
  }

  /** A create's outcome, adopted, is a legal step of the loop. */
  lemma Created(s: State, o: Outcome<string>, ks: Legacy.KeyStore, legacySelected: Option<string>, selecting: Option<string>)
    requires Valid(s)
    requires o.state.needMigration == s.needMigration && o.state.isMigrating == s.isMigrating
    requires o.ret.Err? ==> o.state.order == s.order && o.state.vaults == s.vaults &&
                            o.state.selected == s.selected && o.state.kv == s.kv
    requires o.ret.Ok? ==> o.ret.value != "" && o.ret.value !in s.order && o.state.order == s.order + [o.ret.value] &&
                           o.ret.value in o.state.vaults && o.state.vaults == s.vaults[o.ret.value := o.state.vaults[o.ret.value]] &&
                           o.state.selected == Some(o.ret.value) &&
                           o.state.kv == CRStore.Set(Store, s.kv, SelectedVaultIdKey, Str(o.ret.value))
    ensures EntryStep(s, Adopt(o, ks, legacySelected, selecting), ks, legacySelected, selecting)
    ensures o.ret.Ok? ==> o.state.order[|s.order|] == o.ret.value
  {
    if o.ret.Ok? {
      KeyRingInvariants.AppendFreshDistinct(s.order, o.ret.value);
      CRStore.SetThenGet(Store, s.kv, SelectedVaultIdKey, Str(o.ret.value));
      forall k | k != SelectedVaultIdKey
        ensures CRStore.Get(Store, o.state.kv, k) == CRStore.Get(Store, s.kv, k)
      {
        CRStore.SetLeavesOtherKeys(Store, s.kv, SelectedVaultIdKey, k, Str(o.ret.value));
      }
      assert o.state.order[..|s.order|] == s.order;
    }
  }

  // ---------------------------------------------------------------------------
  // Flags

  /** The entry is skipped: it has an id and its flag is set. */
  predicate Skipped(s: State, ks: Legacy.KeyStore) {
    var id := Legacy.KeyStoreId(ks);
    Legacy.Present(id) && Flagged(s, id.value)
  }

  /** The entry's flag is set if it has an id. */
  predicate EntryDone(s: State, ks: Legacy.KeyStore) {
    var id := Legacy.KeyStoreId(ks);
    Legacy.Present(id) ==> Flagged(s, id.value)
  }

  ghost predicate AllDone(s: State, entries: seq<Legacy.KeyStore>) {
    forall i :: 0 <= i < |entries| ==> EntryDone(s, entries[i])
  }

  ghost predicate AllSkipped(s: State, entries: seq<Legacy.KeyStore>) {
    forall i :: 0 <= i < |entries| ==> Skipped(s, entries[i])
  }

  /** No flag that was set is lost, and the "migration/v1" flag is unchanged. */
  ghost predicate KeepsFlags(s: State, t: State) {
    && (forall x :: Flagged(s, x) ==> Flagged(t, x))
    && CRStore.Get(Store, t.kv, MigrationKey) == CRStore.Get(Store, s.kv, MigrationKey)
  }

  lemma FlagKeyDistinct(id: string)
    ensures KeyStoreMigrationKey(id) != SelectedVaultIdKey
    ensures KeyStoreMigrationKey(id) != MigrationKey
  {
    assert KeyStoreMigrationKey(id)[0] == 'm';
    assert |KeyStoreMigrationKey(id)| > |MigrationKey|;
  }

  lemma FlagKeyInjective(a: string, b: string)
    requires a != b
    ensures KeyStoreMigrationKey(a) != KeyStoreMigrationKey(b)
  {
    var p := "migration/v1/keyStore/";
    assert KeyStoreMigrationKey(a)[|p|..] == a;
    assert KeyStoreMigrationKey(b)[|p|..] == b;
  }

  /** A write that spares every key but the persisted selection keeps all flags. */
  lemma SameOtherKeysKeepsFlags(s: State, t: State)
    requires SameOtherKeys(s, t)
    ensures KeepsFlags(s, t)
    ensures forall x :: Flagged(t, x) ==> Flagged(s, x)
  {
    forall x ensures Flagged(s, x) <==> Flagged(t, x) {
      FlagKeyDistinct(x);
    }
  }

  /** Setting one entry's flag sets it, keeps every other flag and spares the selection. */
  lemma SetFlagEffect(s: State, id: string)
    ensures Flagged(SetFlag(s, id), id)
    ensures KeepsFlags(s, SetFlag(s, id))
    ensures forall x :: Flagged(SetFlag(s, id), x) ==> Flagged(s, x) || x == id
    ensures CRStore.Get(Store, SetFlag(s, id).kv, SelectedVaultIdKey) == CRStore.Get(Store, s.kv, SelectedVaultIdKey)
  {
    var key := KeyStoreMigrationKey(id);
    CRStore.SetThenGet(Store, s.kv, key, Bool(true));
    FlagKeyDistinct(id);
    CRStore.SetLeavesOtherKeys(Store, s.kv, key, SelectedVaultIdKey, Bool(true));
    CRStore.SetLeavesOtherKeys(Store, s.kv, key, MigrationKey, Bool(true));
    forall x | x != id ensures Flagged(SetFlag(s, id), x) <==> Flagged(s, x) {
      FlagKeyInjective(x, id);
      CRStore.SetLeavesOtherKeys(Store, s.kv, key, KeyStoreMigrationKey(x), Bool(true));
    }
  }

  // ---------------------------------------------------------------------------
  // The loop

  /** One iteration: skip a flagged entry, else convert it and, if it has an id, flag it. */
  function MigrateEntry(b: Backends, c: Legacy.Crypto, s: State, ks: Legacy.KeyStore, legacySelected: Option<string>,
                        password: string, selecting: Option<string>): (r: Outcome<Option<string>>)
    requires Valid(s)
    ensures Valid(r.state) && Extends(s, r.state) && |r.state.order| <= |s.order| + 1
    ensures r.state.needMigration == s.needMigration && r.state.isMigrating == s.isMigrating
    ensures Skipped(s, ks) ==> r == Outcome(s, Ok(selecting))
    ensures r.ret.Ok? ==> EntryDone(r.state, ks)
    ensures KeepsFlags(s, r.state)
    ensures forall x :: Flagged(r.state, x) ==> Flagged(s, x) || Some(x) == Legacy.KeyStoreId(ks)
    ensures r.ret.Ok? && !Skipped(s, ks) ==> (|r.state.order| == |s.order| + 1 <==> CreatesVault(c, ks, password))
    ensures !Skipped(s, ks) && ks.kind !in {"mnemonic", "privateKey", "ledger"} ==>
              r.ret == Ok(selecting) && r.state.vaults == s.vaults && r.state.order == s.order && r.state.selected == s.selected
  {
    var id := Legacy.KeyStoreId(ks);
    if Legacy.Present(id) && Flagged(s, id.value) then Outcome(s, Ok(selecting))
    else
      var o := ConvertEntry(b, c, s, ks, legacySelected, password, selecting);
      SameOtherKeysKeepsFlags(s, o.state);
      if o.ret.Err? then o
      else
        if !Legacy.Present(id) then o
        else
          SetFlagEffect(o.state, id.value);
          Outcome(SetFlag(o.state, id.value), o.ret)
  }

  /** The loop over the legacy entries, stopping at the first error with the
      progress made so far. */
  function MigrateEntries(b: Backends, c: Legacy.Crypto, s: State, entries: seq<Legacy.KeyStore>, legacySelected: Option<string>,
                          password: string, selecting: Option<string>): (r: Outcome<Option<string>>)
    requires Valid(s)
    ensures Valid(r.state) && Extends(s, r.state) && |r.state.order| <= |s.order| + |entries|
    ensures r.state.needMigration == s.needMigration && r.state.isMigrating == s.isMigrating
    ensures r.ret.Ok? ==> AllDone(r.state, entries)
    ensures KeepsFlags(s, r.state)
    ensures r.ret.Ok? <==> Processed(b, c, s, entries, legacySelected, password, selecting) == |entries|
    ensures DonePrefix(r.state, entries, Processed(b, c, s, entries, legacySelected, password, selecting))
    decreases |entries|
  {
    if |entries| == 0 then Outcome(s, Ok(selecting))
    else
      var o := MigrateEntry(b, c, s, entries[0], legacySelected, password, selecting);
      if o.ret.Err? then o
      else
        var r := MigrateEntries(b, c, o.state, entries[1..], legacySelected, password, o.ret.value);
        LaterKeepsDone(o.state, r.state, entries, Processed(b, c, o.state, entries[1..], legacySelected, password, o.ret.value));
        ExtendsChain(s, o.state, r.state);
        r
  }

  /** How many entries the loop gets through: all of them when it succeeds,
      else the index of the entry whose conversion throws. */
  function Processed(b: Backends, c: Legacy.Crypto, s: State, entries: seq<Legacy.KeyStore>, legacySelected: Option<string>,
                     password: string, selecting: Option<string>): (k: nat)
    requires Valid(s)
    ensures k <= |entries|
    decreases |entries|
  {
    if |entries| == 0 then 0
    else
      var o := MigrateEntry(b, c, s, entries[0], legacySelected, password, selecting);
      if o.ret.Err? then 0
      else 1 + Processed(b, c, o.state, entries[1..], legacySelected, password, o.ret.value)
  }

  /** The first `k` entries are done. */
  ghost predicate DonePrefix(s: State, entries: seq<Legacy.KeyStore>, k: nat)
    requires k <= |entries|
  {
    forall i :: 0 <= i < k ==> EntryDone(s, entries[i])
  }

  lemma ExtendsChain(s: State, m: State, t: State)
    requires Extends(s, m) && Extends(m, t)
    ensures Extends(s, t)
  {
    assert t.order[..|s.order|] == t.order[..|m.order|][..|s.order|];
  }

  /** The entry done before the rest of the loop stays done after it. */
  lemma LaterKeepsDone(s: State, t: State, entries: seq<Legacy.KeyStore>, k: nat)
    requires |entries| > 0 && k < |entries| && EntryDone(s, entries[0])
    requires DonePrefix(t, entries[1..], k) && KeepsFlags(s, t)
    ensures DonePrefix(t, entries, k + 1)
  {
    forall i | 0 <= i < k + 1 ensures EntryDone(t, entries[i]) {
      if i > 0 {
        assert entries[i] == entries[1..][i - 1];
      }
    }
  }

  // ---------------------------------------------------------------------------
  // migrate, unlockKeyRing, checkLegacyKeyRingPassword

  /** The end of a successful loop: select the vault of the legacy selected entry
      if it exists, set "migration/v1" and clear `needMigration`. */
  function Finish(s: State, selecting: Option<string>): (r: Outcome<()>)
    requires Valid(s)
    ensures Valid(r.state) && r.state.vaults == s.vaults && r.state.order == s.order
    ensures r.state.isMigrating == s.isMigrating
    ensures r.ret.Ok? ==> !r.state.needMigration && MigrationDone(r.state)
    ensures r.ret.Err? ==> r.state == s
    ensures r.ret.Ok? ==> forall x :: Flagged(s, x) ==> Flagged(r.state, x)
    ensures r.ret.Ok? && selecting.Some? && selecting.value != "" && selecting.value in s.vaults ==>
              r.state.selected == selecting
    ensures !(selecting.Some? && selecting.value != "" && selecting.value in s.vaults) ==>
              r.ret.Ok? && r.state.selected == s.selected
  {
    var selected := if selecting.Some? && selecting.value != "" && selecting.value in s.vaults
                    then SelectKeyRing(s, selecting.value) else Ok(s);
    match selected
    case Err(e) => Outcome(s, Err(e))
    case Ok(t) =>
      assert SameOtherKeys(s, t) by {
        forall k | k != SelectedVaultIdKey ensures CRStore.Get(Store, t.kv, k) == CRStore.Get(Store, s.kv, k) {
          CRStore.SetLeavesOtherKeys(Store, s.kv, SelectedVaultIdKey, k, SelectionJson(t.selected));
        }
      }
      SameOtherKeysKeepsFlags(s, t);
      var u := t.(kv := CRStore.Set(Store, t.kv, MigrationKey, Bool(true)), needMigration := false);
      CRStore.SetThenGet(Store, t.kv, MigrationKey, Bool(true));
      CRStore.SetLeavesOtherKeys(Store, t.kv, MigrationKey, SelectedVaultIdKey, Bool(true));
      forall x | Flagged(t, x) ensures Flagged(u, x) {
        FlagKeyDistinct(x);
        CRStore.SetLeavesOtherKeys(Store, t.kv, MigrationKey, KeyStoreMigrationKey(x), Bool(true));
      }
      Outcome(u, Ok(()))
  }

  /** `migrate(password)`. `isMigrating` is cleared on every exit of the body. */
  function Migrate(b: Backends, c: Legacy.Crypto, s: State, legacy: Legacy.Storage, password: string): (r: Outcome<()>)
    requires Valid(s)
    ensures Valid(r.state) && Extends(s, r.state)
    ensures !s.needMigration ==> r == Outcome(s, Err(MigrationNotNeeded))
    ensures s.needMigration && s.isMigrating ==> r == Outcome(s, Err(MigrationInProgress))
    ensures s.needMigration && !s.isMigrating && s.signedUp && s.locked && password != s.password ==>
              r == Outcome(s, Err(WrongPassword))
    ensures !s.isMigrating ==> !r.state.isMigrating
    ensures r.state.needMigration == (s.needMigration && r.ret.Err?)
    ensures r.ret.Ok? ==> Legacy.HasEntries(legacy) && MigrationDone(r.state) && AllDone(r.state, legacy.multiKeyStore.value)
    ensures forall x :: Flagged(s, x) ==> Flagged(r.state, x)
    ensures s.needMigration && !s.isMigrating && !(s.signedUp && s.locked) && !Legacy.HasEntries(legacy) ==>
              r == Outcome(s, Err(NoKeyStoreToMigrate))
  {
    if !s.needMigration then Outcome(s, Err(MigrationNotNeeded))
    else if s.isMigrating then Outcome(s, Err(MigrationInProgress))
    else
      var unlocked := if s.signedUp && s.locked then VaultUnlock(s, password) else Ok(s);
      match unlocked
      case Err(e) => Outcome(s, Err(e))
      case Ok(s1) =>
        assert s1.kv == s.kv;
        var o := MigrateBody(b, c, s1.(isMigrating := true), legacy, password);
        assert forall x :: Flagged(o.state, x) ==> Flagged(o.state.(isMigrating := false), x);
        Outcome(o.state.(isMigrating := false), o.ret)
  }

  /** The `try` block of `migrate`. */
  function MigrateBody(b: Backends, c: Legacy.Crypto, s: State, legacy: Legacy.Storage, password: string): (r: Outcome<()>)
    requires Valid(s)
    ensures Valid(r.state) && Extends(s, r.state)
    ensures r.state.isMigrating == s.isMigrating
    ensures r.state.needMigration == (s.needMigration && r.ret.Err?)
    ensures r.ret.Ok? ==> Legacy.HasEntries(legacy) && MigrationDone(r.state) && AllDone(r.state, legacy.multiKeyStore.value)
    ensures forall x :: Flagged(s, x) ==> Flagged(r.state, x)
    ensures !Legacy.HasEntries(legacy) ==> r == Outcome(s, Err(NoKeyStoreToMigrate))
  {
    if !Legacy.HasEntries(legacy) then Outcome(s, Err(NoKeyStoreToMigrate))
    else
      var entries := legacy.multiKeyStore.value;
      var o := MigrateEntries(b, c, s, entries, Legacy.SelectedId(legacy), password, None);
      match o.ret
      case Err(e) => Outcome(o.state, Err(e))
      case Ok(selecting) =>
        var f := Finish(o.state, selecting);
        assert f.ret.Ok? ==> AllDone(f.state, entries);
        f
  }

  /** `unlockKeyRing(password)`: migrates while a migration is pending, else unlocks. */
  function UnlockKeyRing(b: Backends, c: Legacy.Crypto, s: State, legacy: Legacy.Storage, password: string): (r: Outcome<()>)
    requires Valid(s)
    ensures s.needMigration ==> r == Migrate(b, c, s, legacy, password)
    ensures !s.needMigration ==> (r.ret.Ok? <==> s.signedUp && password == s.password)
    ensures !s.needMigration && r.ret.Ok? ==> r.state == s.(locked := false)
    ensures !s.needMigration && r.ret.Err? ==> r.state == s
  {
    if s.needMigration then Migrate(b, c, s, legacy, password)
    else
      match VaultUnlock(s, password)
      case Err(e) => Outcome(s, Err(e))
      case Ok(t) => Outcome(t, Ok(()))
  }

  /** `checkLegacyKeyRingPassword(password)`: decrypts the first legacy entry. */
  function CheckLegacyKeyRingPassword(c: Legacy.Crypto, s: State, legacy: Legacy.Storage, password: string): (r: Result<(), Error>)
    ensures !s.needMigration ==> r == Err(MigrationNotNeeded)
    ensures s.needMigration && !Legacy.HasEntries(legacy) ==> r == Err(NoKeyStoreToMigrate)
    ensures r.Ok? <==> s.needMigration && Legacy.HasEntries(legacy) && c.decrypt(legacy.multiKeyStore.value[0], password).Ok?
  {
    if !s.needMigration then Err(MigrationNotNeeded)
    else if !Legacy.HasEntries(legacy) then Err(NoKeyStoreToMigrate)
    else
      match c.decrypt(legacy.multiKeyStore.value[0], password)
      case Err(e) => Err(e)
      case Ok(_) => Ok(())
  }
}
