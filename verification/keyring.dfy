/** The key-ring orchestrator (`KeyRingService`), modelled over an abstract
    vault store as an immutable state with pure transition functions. An
    operation that throws returns `Err`; one that changed the state before
    throwing returns that state alongside the error. */
module KeyRing {

  import opened Wrappers
  import opened Json
  import opened Errors
  import opened Hex
  import opened Bip44
  import CRStore
  import Ledger = LedgerKeyRing
  import Legacy

  // ---------------------------------------------------------------------------
  // Constants

  /** The insensitive key holding a vault's finalised coin type. */
  const CoinTypeTag := "keyRing-clore-coinType"
  const DefaultCoinType := 118
  const DefaultKeyRingName := "Keplr Account"

  const MnemonicType := "mnemonic"
  const PrivateKeyType := "private-key"
  const LedgerType := "ledger"
  const KeystoneType := "keystone"

  /** The service's own persistent store. */
  const Store := CRStore.Base("keyring-v2")
  const SelectedVaultIdKey := "selectedVaultId"
  const MigrationKey := "migration/v1"

  /** The per-entry migration flag key. */
  function KeyStoreMigrationKey(id: string): string {
    "migration/v1/keyStore/" + id
  }

  // ---------------------------------------------------------------------------
  // State

  datatype KeyRingStatus = Empty | Locked | Unlocked

  /** What a backend's `sign` did: returned a signature, threw before returning
      a promise, or returned a promise that rejects. */
  datatype SignOutcome =
    | Signed(signature: Ledger.Signature)
    | ThrowsSync(error: Error)
    | Rejects(error: Error)

  /** The keystone device export; only the key paths matter here. */
  datatype MultiAccounts = MultiAccounts(keyPaths: seq<string>)

  /** The mnemonic, private-key and keystone backends, whose internals are not
      modelled: how they build a vault's insensitive half, derive a public key
      and sign. The Ledger backend is modelled in full. */
  datatype Backends = Backends(
    mnemonicVault: (string, HDPath) -> Result<Bag, Error>,
    privateKeyVault: seq<Byte> -> Result<Bag, Error>,
    keystoneVault: MultiAccounts -> Result<Bag, Error>,
    pubKey: (string, Bag, Json) -> Result<Ledger.PubKey, Error>,
    sign: (string, Bag, Json, seq<Byte>, Ledger.DigestMethod) -> SignOutcome)

  datatype State = State(
    signedUp: bool,            // vault service: isSignedUp
    locked: bool,              // vault service: isLocked
    password: string,          // the vault's user password
    order: seq<string>,        // ids of the "keyRing" vaults, in listing order
    vaults: map<string, Bag>,  // id -> insensitive record
    selected: Option<string>,  // _selectedVaultId
    needMigration: bool,
    isMigrating: bool,
    kv: map<string, Json>)     // the provider behind `Store`

  /** The state after an operation, and what the operation returned or threw. */
  datatype Outcome<T> = Outcome(state: State, ret: Result<T, Error>)

  /** `KeyInfo`. */
  datatype KeyInfo = KeyInfo(id: string, name: Option<Json>, keyType: Option<Json>, isSelected: bool, insensitive: Bag)

  ghost predicate DistinctIds(order: seq<string>) {
    forall i, j :: 0 <= i < j < |order| ==> order[i] != order[j]
  }

  /** The vault store: listed ids are distinct, non-empty and exactly the stored ones. */
  ghost predicate VaultsWellFormed(s: State) {
    && DistinctIds(s.order)
    && (forall id :: id in s.vaults <==> id in s.order)
    && (forall id :: id in s.vaults ==> id != "")
  }

  /** What the selection autorun persists: the id when truthy, else null. */
  function SelectionJson(sel: Option<string>): Json {
    if sel.Some? && sel.value != "" then Str(sel.value) else Null
  }

  /** The state invariant: a well-formed vault store, a selection that never
      dangles, and a persisted selection equal to the in-memory one. */
  ghost predicate Valid(s: State) {
    && VaultsWellFormed(s)
    && (s.selected.Some? ==> s.selected.value in s.vaults)
    && CRStore.Get(Store, s.kv, SelectedVaultIdKey) == Some(SelectionJson(s.selected))
  }

  // ---------------------------------------------------------------------------
  // Reading the insensitive record

  predicate IsType(insensitive: Bag, t: string) {
    "keyRingType" in insensitive && insensitive["keyRingType"] == Str(t)
  }

  /** Mnemonic and keystone vaults carry a coin type to finalise. */
  predicate Finalizable(insensitive: Bag) {
    IsType(insensitive, MnemonicType) || IsType(insensitive, KeystoneType)
  }

  /** The coin-type tag counts as set only when truthy. */
  predicate CoinTypeSet(insensitive: Bag) {
    FieldTruthy(insensitive, CoinTypeTag)
  }

  /** The coin type used for keys and signatures: the tag if set, else 118. */
  function ResolvedCoinType(insensitive: Bag): (c: Json)
    ensures Truthy(c)
    ensures CoinTypeSet(insensitive) ==> c == insensitive[CoinTypeTag]
    ensures !CoinTypeSet(insensitive) ==> c == Num(Integral(DefaultCoinType))
  {
    if CoinTypeSet(insensitive) then insensitive[CoinTypeTag] else Num(Integral(DefaultCoinType))
  }

  /** The type a registered non-Ledger backend serves, if the vault has one. */
  function SoftwareType(insensitive: Bag): Option<string> {
    if IsType(insensitive, MnemonicType) then Some(MnemonicType)
    else if IsType(insensitive, PrivateKeyType) then Some(PrivateKeyType)
    else if IsType(insensitive, KeystoneType) then Some(KeystoneType)
    else None
  }

  /** `getVaultKeyRing(vault).getPubKey(vault, coinType)`. */
  function VaultPubKey(b: Backends, insensitive: Bag, coinType: Json): (r: Result<Ledger.PubKey, Error>)
    ensures IsType(insensitive, LedgerType) ==> r == Ledger.GetPubKey(insensitive, coinType)
    ensures !IsType(insensitive, LedgerType) && SoftwareType(insensitive).None? ==> r == Err(UnsupportedKeyRing)
  {
    if IsType(insensitive, LedgerType) then Ledger.GetPubKey(insensitive, coinType)
    else match SoftwareType(insensitive)
      case Some(t) => b.pubKey(t, insensitive, coinType)
      case None => Err(UnsupportedKeyRing)
  }

  /** `getVaultKeyRing(vault).sign(...)`; the Ledger backend throws synchronously. */
  function VaultSign(b: Backends, insensitive: Bag, coinType: Json, data: seq<Byte>, digest: Ledger.DigestMethod): (r: SignOutcome)
    ensures IsType(insensitive, LedgerType) ==> r == ThrowsSync(LedgerCannotSign)
    ensures !IsType(insensitive, LedgerType) && SoftwareType(insensitive).None? ==> r == ThrowsSync(UnsupportedKeyRing)
  {
    if IsType(insensitive, LedgerType) then
      match Ledger.Sign(insensitive, coinType, data, digest)
      case Ok(sig) => Signed(sig)
      case Err(e) => ThrowsSync(e)
    else match SoftwareType(insensitive)
      case Some(t) => b.sign(t, insensitive, coinType, data, digest)
      case None => ThrowsSync(UnsupportedKeyRing)
  }

  // ---------------------------------------------------------------------------
  // The vault store and the selection

  /** The length of the longest id. */
  function MaxLength(ids: seq<string>): (n: nat)
    ensures forall i :: 0 <= i < |ids| ==> |ids[i]| <= n
  {
    if |ids| == 0 then 0
    else
      var rest := MaxLength(ids[1..]);
      assert forall i :: 1 <= i < |ids| ==> ids[i] == ids[1..][i - 1];
      if |ids[0]| > rest then |ids[0]| else rest
  }

  /** An id no listed vault has: longer than all of them. */
  function FreshId(ids: seq<string>): (id: string)
    ensures id != "" && id !in ids
  {
    var id := seq(MaxLength(ids) + 1, _ => 'v');
    assert forall i :: 0 <= i < |ids| ==> |ids[i]| < |id|;
    id
  }

  /** `vaultService.addVault("keyRing", insensitive, sensitive)`. */
  function AddVault(s: State, insensitive: Bag): (r: (State, string))
    ensures r.1 != "" && r.1 !in s.order
    ensures r.0 == s.(order := s.order + [r.1], vaults := s.vaults[r.1 := insensitive])
  {
    var id := FreshId(s.order);
    (s.(order := s.order + [id], vaults := s.vaults[id := insensitive]), id)
  }

  /** `vaultService.setAndMergeInsensitiveToVault("keyRing", id, patch)`. */
  function MergeInsensitive(s: State, id: string, patch: Bag): State
    requires id in s.vaults
  {
    s.(vaults := s.vaults[id := Merge(s.vaults[id], patch)])
  }

  /** The listing without `id`. */
  function RemoveId(ids: seq<string>, id: string): (r: seq<string>)
    ensures forall x :: x in r <==> x in ids && x != id
    ensures |r| <= |ids|
  {
    if |ids| == 0 then []
    else
      var rest := RemoveId(ids[1..], id);
      if ids[0] == id then rest else [ids[0]] + rest
  }

  /** `vaultService.removeVault("keyRing", id)`. */
  function RemoveVault(s: State, id: string): State {
    s.(order := RemoveId(s.order, id), vaults := s.vaults - {id})
  }

  /** Assigning `_selectedVaultId`, together with the autorun's write of it to `Store`. */
  function WithSelection(s: State, sel: Option<string>): State {
    s.(selected := sel, kv := CRStore.Set(Store, s.kv, SelectedVaultIdKey, SelectionJson(sel)))
  }

  /** `vaultService.signUp(password)`: signs up and leaves the vault unlocked. */
  function SignUp(s: State, password: string): State {
    s.(signedUp := true, locked := false, password := password)
  }

  /** `vaultService.unlock(password)`. */
  function VaultUnlock(s: State, password: string): (r: Result<State, Error>)
    ensures r.Ok? <==> s.signedUp && password == s.password
    ensures r.Ok? ==> r.value == s.(locked := false)
  {
    if s.signedUp && password == s.password then Ok(s.(locked := false)) else Err(WrongPassword)
  }

  /** `vaultService.clearAll(password)` once the password has been checked: signs out. */
  function ClearAll(s: State): State {
    s.(signedUp := false, locked := true, order := [], vaults := map[])
  }

  // ---------------------------------------------------------------------------
  // Status, selection, key infos

  /** `lockKeyRing`. */
  function LockKeyRing(s: State): (r: State)
    ensures r.locked && r.vaults == s.vaults && r.order == s.order && r.selected == s.selected && r.kv == s.kv
    ensures r.signedUp == s.signedUp && r.password == s.password
    ensures r.needMigration == s.needMigration && r.isMigrating == s.isMigrating
    ensures s.signedUp && |s.order| > 0 ==> Status(r) == Locked
  {
    s.(locked := true)
  }

  /** `keyRingStatus`. */
  function Status(s: State): (r: KeyRingStatus)
    ensures s.needMigration ==> r == Locked
    ensures !s.needMigration ==> (r == Empty <==> !s.signedUp || |s.order| == 0)
    ensures !s.needMigration && s.signedUp && |s.order| > 0 ==> (r == Locked <==> s.locked)
  {
    if s.needMigration then Locked
    else if !s.signedUp || |s.order| == 0 then Empty
    else if s.locked then Locked
    else Unlocked
  }

  /** The `selectedVaultId` getter: the stored id if it resolves, else the first vault's id. */
  function SelectedVaultId(s: State): (r: Result<string, Error>)
    ensures s.selected.Some? && s.selected.value != "" && s.selected.value in s.vaults ==> r == Ok(s.selected.value)
    ensures r.Err? <==> |s.order| == 0 && !(s.selected.Some? && s.selected.value != "" && s.selected.value in s.vaults)
    ensures r.Err? ==> r.error == KeyRingEmpty
    ensures Valid(s) ==> (r.Ok? <==> |s.order| > 0) && (r.Ok? ==> r.value in s.vaults)
    ensures !(s.selected.Some? && s.selected.value != "" && s.selected.value in s.vaults) && |s.order| > 0 ==>
              r == Ok(s.order[0])
  {
    if s.selected.Some? && s.selected.value != "" && s.selected.value in s.vaults then Ok(s.selected.value)
    else if |s.order| == 0 then Err(KeyRingEmpty)
    else Ok(s.order[0])
  }

  /** `selectKeyRing(id)`. */
  function SelectKeyRing(s: State, id: string): (r: Result<State, Error>)
    ensures r.Ok? <==> !s.locked && id in s.vaults
    ensures s.locked ==> r == Err(KeyRingLocked)
    ensures !s.locked && id !in s.vaults ==> r == Err(UnknownVault)
    ensures r.Ok? ==> r.value.selected == Some(id) && r.value.vaults == s.vaults && r.value.order == s.order
    ensures r.Ok? && Valid(s) ==> SelectedVaultId(r.value) == Ok(id) && Valid(r.value)
  {
    if s.locked then Err(KeyRingLocked)
    else if id !in s.vaults then Err(UnknownVault)
    else
      var t := WithSelection(s, Some(id));
      CRStore.SetThenGet(Store, s.kv, SelectedVaultIdKey, SelectionJson(Some(id)));
      Ok(t)
  }

  function KeyInfoOf(s: State, id: string): KeyInfo
    requires id in s.vaults
  {
    var ins := s.vaults[id];
    KeyInfo(id, Field(ins, "keyRingName"), Field(ins, "keyRingType"), s.selected == Some(id), ins)
  }

  /** `getKeyInfos`: one info per vault, in listing order; `isSelected` compares with
      the raw selection, not the getter. */
  function GetKeyInfos(s: State): (r: seq<KeyInfo>)
    requires forall i :: 0 <= i < |s.order| ==> s.order[i] in s.vaults
    ensures |r| == |s.order|
    ensures forall i :: 0 <= i < |r| ==> r[i].id == s.order[i] && r[i].insensitive == s.vaults[s.order[i]]
    ensures forall i :: 0 <= i < |r| ==> (r[i].isSelected <==> s.selected == Some(s.order[i]))
  {
    seq(|s.order|, i requires 0 <= i < |s.order| => KeyInfoOf(s, s.order[i]))
  }

  /** `getKeyInfo(id)`: the first info with that id. */
  function GetKeyInfo(s: State, id: string): (r: Option<KeyInfo>)
    requires forall i :: 0 <= i < |s.order| ==> s.order[i] in s.vaults
    ensures r.Some? <==> id in s.order
    ensures r.Some? ==> r.value.id == id && r.value.insensitive == s.vaults[id]
  {
    FindInfo(GetKeyInfos(s), id)
  }

  function FindInfo(infos: seq<KeyInfo>, id: string): (r: Option<KeyInfo>)
    ensures r.Some? <==> exists i :: 0 <= i < |infos| && infos[i].id == id
    ensures r.Some? ==> r.value in infos && r.value.id == id
  {
    if |infos| == 0 then None
    else if infos[0].id == id then Some(infos[0])
    else
      var r := FindInfo(infos[1..], id);
      assert forall i :: 1 <= i < |infos| ==> infos[i] == infos[1..][i - 1];
      r
  }

  /** `getKeyRingName(id)`: the stored name, or the default when it is falsy. */
  function GetKeyRingName(s: State, id: string): (r: Result<Json, Error>)
    ensures r.Ok? <==> id in s.vaults
    ensures r.Ok? ==> Truthy(r.value)
    ensures r.Ok? && FieldTruthy(s.vaults[id], "keyRingName") ==> r.value == s.vaults[id]["keyRingName"]
    ensures r.Ok? && !FieldTruthy(s.vaults[id], "keyRingName") ==> r.value == Str(DefaultKeyRingName)
  {
    if id !in s.vaults then Err(VaultNotFound)
    else if FieldTruthy(s.vaults[id], "keyRingName") then Ok(s.vaults[id]["keyRingName"])
    else Ok(Str(DefaultKeyRingName))
  }

  /** `getKeyRingNameSelected()`: the name of the vault the getter resolves to. */
  function GetKeyRingNameSelected(s: State): (r: Result<Json, Error>)
    ensures SelectedVaultId(s).Err? ==> r == Err(KeyRingEmpty)
    ensures SelectedVaultId(s).Ok? ==> r == GetKeyRingName(s, SelectedVaultId(s).value)
    ensures Valid(s) ==> (r.Ok? <==> |s.order| > 0) && (r.Ok? ==> Truthy(r.value))
  {
    match SelectedVaultId(s)
    case Err(e) => Err(e)
    case Ok(id) => GetKeyRingName(s, id)
  }

  /** `changeKeyRingName(id, name)`. */
  function ChangeKeyRingName(s: State, id: string, name: string): (r: Result<State, Error>)
    ensures r.Ok? <==> !s.locked && id in s.vaults
    ensures r.Ok? ==> r.value == s.(vaults := s.vaults[id := s.vaults[id]["keyRingName" := Str(name)]])
    ensures r.Ok? && name != "" ==> GetKeyRingName(r.value, id) == Ok(Str(name))
  {
    if s.locked then Err(KeyRingLocked)
    else if id !in s.vaults then Err(VaultNotFound)
    else
      MergeOne(s.vaults[id], "keyRingName", Str(name));
      Ok(MergeInsensitive(s, id, map["keyRingName" := Str(name)]))
  }

  // ---------------------------------------------------------------------------
  // Coin-type finalisation

  /** `needKeyCoinTypeFinalize(id)`. */
  function NeedKeyCoinTypeFinalize(s: State, id: string): (r: Result<bool, Error>)
    ensures r.Ok? <==> !s.locked && id in s.vaults
    ensures s.locked ==> r == Err(KeyRingLocked)
    ensures !s.locked && id !in s.vaults ==> r == Err(VaultNotFound)
    ensures r.Ok? ==> (r.value <==> Finalizable(s.vaults[id]) && !CoinTypeSet(s.vaults[id]))
  {
    if s.locked then Err(KeyRingLocked)
    else if id !in s.vaults then Err(VaultNotFound)
    else if !Finalizable(s.vaults[id]) then Ok(false)
    else Ok(!CoinTypeSet(s.vaults[id]))
  }

  /** `finalizeKeyCoinType(id, coinType)`: a write-once merge of the tag. */
  function FinalizeKeyCoinType(s: State, id: string, coinType: Json): (r: Result<State, Error>)
    ensures r.Ok? <==> !s.locked && id in s.vaults && Finalizable(s.vaults[id]) && !CoinTypeSet(s.vaults[id])
    ensures r.Ok? <==> NeedKeyCoinTypeFinalize(s, id) == Ok(true)
    ensures !s.locked && id in s.vaults && Finalizable(s.vaults[id]) && CoinTypeSet(s.vaults[id]) ==>
              r == Err(CoinTypeAlreadyFinalized)
    ensures !s.locked && id in s.vaults && !Finalizable(s.vaults[id]) ==> r == Err(NotFinalizable)
    ensures r.Ok? ==> r.value == s.(vaults := s.vaults[id := s.vaults[id][CoinTypeTag := coinType]])
    ensures r.Ok? ==> NeedKeyCoinTypeFinalize(r.value, id) == Ok(!Truthy(coinType))
  {
    if s.locked then Err(KeyRingLocked)
    else if id !in s.vaults then Err(VaultNotFound)
    else if !Finalizable(s.vaults[id]) then Err(NotFinalizable)
    else if CoinTypeSet(s.vaults[id]) then Err(CoinTypeAlreadyFinalized)
    else
      MergeOne(s.vaults[id], CoinTypeTag, coinType);
      Ok(MergeInsensitive(s, id, map[CoinTypeTag := coinType]))
  }

  // ---------------------------------------------------------------------------
  // Creating key rings

  /** A truthy optional password. */
  predicate HasPassword(password: Option<string>) {
    password.Some? && password.value != ""
  }

  /** The sign-up gate every create starts with. */
  function SignUpIfNeeded(s: State, password: Option<string>): (r: Result<State, Error>)
    ensures r.Ok? <==> s.signedUp || HasPassword(password)
    ensures r.Err? ==> r.error == PasswordRequired
    ensures r.Ok? && s.signedUp ==> r.value == s
    ensures r.Ok? && !s.signedUp ==> r.value == SignUp(s, password.value) && !r.value.locked
  {
    if s.signedUp then Ok(s)
    else if !HasPassword(password) then Err(PasswordRequired)
    else Ok(SignUp(s, password.value))
  }

  /** The shared shape of every create: sign up if needed, run the input check,
      take the backend's vault data, add the vault with `fields` spread over it,
      and select it. */
  function CreateKeyRing(s: State, password: Option<string>, check: Result<(), Error>,
                         data: Result<Bag, Error>, fields: Bag): (r: Outcome<string>)
    ensures r.ret.Ok? <==> (s.signedUp || HasPassword(password)) && check.Ok? && data.Ok?
    ensures !s.signedUp && !HasPassword(password) ==> r == Outcome(s, Err(PasswordRequired))
    ensures r.state.needMigration == s.needMigration && r.state.isMigrating == s.isMigrating
    ensures r.ret.Err? ==> r.state.order == s.order && r.state.vaults == s.vaults &&
                           r.state.selected == s.selected && r.state.kv == s.kv
    ensures r.ret.Ok? ==>
      var id := r.ret.value;
      && id != "" && id !in s.order
      && r.state.order == s.order + [id]
      && r.state.vaults == s.vaults[id := Merge(data.value, fields)]
      && r.state.selected == Some(id)
      && r.state.signedUp
      && (r.state.locked <==> s.signedUp && s.locked)
      && r.state.kv == CRStore.Set(Store, s.kv, SelectedVaultIdKey, Str(id))
  {
    match SignUpIfNeeded(s, password)
    case Err(e) => Outcome(s, Err(e))
    case Ok(s1) =>
      if check.Err? then Outcome(s1, Err(check.error))
      else if data.Err? then Outcome(s1, Err(data.error))
      else
        var (s2, id) := AddVault(s1, Merge(data.value, fields));
        Outcome(WithSelection(s2, Some(id)), Ok(id))
  }

  /** The fields a create spreads over the backend's data. */
  function TypeFields(name: string, keyRingType: string): Bag {
    map["keyRingName" := Str(name), "keyRingType" := Str(keyRingType)]
  }

  /** The fields `createMnemonicKeyRing` spreads over the backend's record. */
  function MnemonicFields(name: string): Bag {
    TypeFields(name, MnemonicType)[CoinTypeTag := Num(Integral(DefaultCoinType))]
  }

  /** The fields `createPrivateKeyKeyRing` spreads over the backend's record. */
  function PrivateKeyFields(name: string, meta: Json): Bag {
    TypeFields(name, PrivateKeyType)["keyRingMeta" := meta]
  }

  /** `createMnemonicKeyRing(mnemonic, bip44Path, name, password)`: stamps coin type 118. */
  function CreateMnemonicKeyRing(b: Backends, s: State, mnemonic: string, path: HDPath, name: string,
                                 password: Option<string>): (r: Outcome<string>)
    ensures r.ret.Ok? <==> (s.signedUp || HasPassword(password)) && ValidateBIP44Path(path).Ok? &&
                           b.mnemonicVault(mnemonic, path).Ok?
    ensures r.ret.Ok? ==> r.ret.value in r.state.vaults
    ensures r.ret.Ok? ==>
      var ins := r.state.vaults[r.ret.value];
      IsType(ins, MnemonicType) && CoinTypeTag in ins && "keyRingName" in ins && ins[CoinTypeTag] == Num(Integral(DefaultCoinType)) &&
      ins["keyRingName"] == Str(name) && r.state.selected == Some(r.ret.value)
    ensures r.ret.Ok? ==> r.state.vaults[r.ret.value] == Merge(b.mnemonicVault(mnemonic, path).value, MnemonicFields(name))
  {
    CreateKeyRing(s, password, ValidateBIP44Path(path), b.mnemonicVault(mnemonic, path), MnemonicFields(name))
  }

  /** `createLedgerKeyRing(pubKey, app, bip44Path, name, password)`: no coin type is stamped. */
  function CreateLedgerKeyRing(s: State, pubKey: seq<Byte>, app: string, path: HDPath, name: string,
                               password: Option<string>): (r: Outcome<string>)
    ensures r.ret.Ok? <==> (s.signedUp || HasPassword(password)) && ValidateBIP44Path(path).Ok?
    ensures r.ret.Ok? ==> r.ret.value in r.state.vaults
    ensures r.ret.Ok? ==>
      var ins := r.state.vaults[r.ret.value];
      && IsType(ins, LedgerType)
      && ins.Keys == {app, "bip44Path", "keyRingName", "keyRingType"}
      && (app != CoinTypeTag ==> CoinTypeTag !in ins)
      && (app !in {"bip44Path", "keyRingName", "keyRingType"} ==> app in ins && ins[app] == Ledger.AppEntry(pubKey))
      && r.state.selected == Some(r.ret.value)
  {
    var data := Ledger.CreateKeyRingVault(pubKey, app, path);
    CreateKeyRing(s, password, ValidateBIP44Path(path), Ok(data.insensitive),
      TypeFields(name, Ledger.SupportedKeyRingType()))
  }

  /** `createKeystoneKeyRing(multiAccounts, name, password)`: every key path must parse
      and validate; stamps coin type 118. */
  function CreateKeystoneKeyRing(b: Backends, s: State, accounts: MultiAccounts, name: string,
                                 password: Option<string>): (r: Outcome<string>)
    ensures r.ret.Ok? <==> (s.signedUp || HasPassword(password)) && CheckKeyPaths(accounts.keyPaths).Ok? &&
                           b.keystoneVault(accounts).Ok?
    ensures r.ret.Ok? ==> r.ret.value in r.state.vaults
    ensures r.ret.Ok? ==>
      var ins := r.state.vaults[r.ret.value];
      IsType(ins, KeystoneType) && CoinTypeTag in ins && ins[CoinTypeTag] == Num(Integral(DefaultCoinType)) &&
      r.state.selected == Some(r.ret.value)
  {
    CreateKeyRing(s, password, CheckKeyPaths(accounts.keyPaths), b.keystoneVault(accounts),
      TypeFields(name, KeystoneType)[CoinTypeTag := Num(Integral(DefaultCoinType))])
  }

  /** `createPrivateKeyKeyRing(privateKey, meta, name, password)`: no path, no coin type stamped. */
  function CreatePrivateKeyKeyRing(b: Backends, s: State, privateKey: seq<Byte>, meta: Json, name: string,
                                   password: Option<string>): (r: Outcome<string>)
    ensures r.ret.Ok? <==> (s.signedUp || HasPassword(password)) && b.privateKeyVault(privateKey).Ok?
    ensures r.ret.Ok? ==> r.ret.value in r.state.vaults
    ensures r.ret.Ok? ==>
      var ins := r.state.vaults[r.ret.value];
      && IsType(ins, PrivateKeyType) && "keyRingMeta" in ins && ins["keyRingMeta"] == meta
      && (CoinTypeTag in ins <==> CoinTypeTag in b.privateKeyVault(privateKey).value)
      && r.state.selected == Some(r.ret.value)
    ensures r.ret.Ok? ==> r.state.vaults[r.ret.value] == Merge(b.privateKeyVault(privateKey).value, PrivateKeyFields(name, meta))
  {
    CreateKeyRing(s, password, Ok(()), b.privateKeyVault(privateKey), PrivateKeyFields(name, meta))
  }

  /** `appendLedgerKeyRing(id, pubKey, app)`: adds one app entry, never overwriting. */
  function AppendLedgerKeyRing(s: State, id: string, pubKey: seq<Byte>, app: string): (r: Result<State, Error>)
    ensures r.Ok? <==> id in s.vaults && IsType(s.vaults[id], LedgerType) && !FieldTruthy(s.vaults[id], app)
    ensures id !in s.vaults ==> r == Err(VaultNotFound)
    ensures id in s.vaults && !IsType(s.vaults[id], LedgerType) ==> r == Err(NotLedger)
    ensures id in s.vaults && IsType(s.vaults[id], LedgerType) && FieldTruthy(s.vaults[id], app) ==>
              r == Err(AppAlreadyAppended)
    ensures r.Ok? ==> r.value == s.(vaults := s.vaults[id := s.vaults[id][app := Ledger.AppEntry(pubKey)]])
    ensures r.Ok? ==> forall k :: FieldTruthy(s.vaults[id], k) ==> r.value.vaults[id][k] == s.vaults[id][k]
  {
    if id !in s.vaults then Err(VaultNotFound)
    else if !IsType(s.vaults[id], LedgerType) then Err(NotLedger)
    else if FieldTruthy(s.vaults[id], app) then Err(AppAlreadyAppended)
    else
      MergeOne(s.vaults[id], app, Ledger.AppEntry(pubKey));
      Ok(MergeInsensitive(s, id, map[app := Ledger.AppEntry(pubKey)]))
  }

  // ---------------------------------------------------------------------------
  // Deleting

  /** `deleteKeyRing(id, password)`: returns whether the vault was the selected one. */
  function DeleteKeyRing(s: State, id: string, password: string): (r: Outcome<bool>)
    ensures r.ret.Ok? <==> !s.locked && id in s.vaults && password == s.password && SelectedVaultId(s).Ok?
    ensures r.ret.Err? ==> r.state == s
    ensures r.ret.Ok? ==>
      && r.ret.value == (SelectedVaultId(s) == Ok(id))
      && r.state.order == RemoveId(s.order, id)
      && (|r.state.order| > 0 ==> r.state.vaults == s.vaults - {id})
      && (|r.state.order| == 0 ==> r.state.vaults == map[])
      && (r.ret.value ==> r.state.selected == (if |r.state.order| > 0 then Some(r.state.order[0]) else None))
      && (!r.ret.value ==> r.state.selected == s.selected)
      && (|r.state.order| == 0 ==> !r.state.signedUp)
      && (|r.state.order| > 0 ==> r.state.signedUp == s.signedUp)
  {
    if s.locked then Outcome(s, Err(KeyRingLocked))
    else if id !in s.vaults then Outcome(s, Err(VaultNotFound))
    else if password != s.password then Outcome(s, Err(WrongPassword))
    else
      match SelectedVaultId(s)
      case Err(e) => Outcome(s, Err(e))
      case Ok(current) =>
        var wasSelected := current == id;
        var s1 := RemoveVault(s, id);
        var s2 := if wasSelected then WithSelection(s1, if |s1.order| > 0 then Some(s1.order[0]) else None) else s1;
        var s3 := if |s2.order| == 0 then ClearAll(s2) else s2;
        Outcome(s3, Ok(wasSelected))
  }

  // ---------------------------------------------------------------------------
  // Public keys and signing

  /** `getPubKey(id)`: at the finalised coin type, or 118. */
  function GetPubKey(b: Backends, s: State, id: string): (r: Result<Ledger.PubKey, Error>)
    ensures s.locked ==> r == Err(KeyRingLocked)
    ensures !s.locked && id !in s.vaults ==> r == Err(VaultNotFound)
    ensures !s.locked && id in s.vaults ==> r == VaultPubKey(b, s.vaults[id], ResolvedCoinType(s.vaults[id]))
  {
    if s.locked then Err(KeyRingLocked)
    else if id !in s.vaults then Err(VaultNotFound)
    else VaultPubKey(b, s.vaults[id], ResolvedCoinType(s.vaults[id]))
  }

  /** `getPubKeyWithNotFinalizedCoinType(id, coinType)`: only for mnemonic and keystone
      vaults, whether or not the coin type is already finalised. */
  function GetPubKeyWithNotFinalizedCoinType(b: Backends, s: State, id: string, coinType: Json): (r: Result<Ledger.PubKey, Error>)
    ensures s.locked ==> r == Err(KeyRingLocked)
    ensures !s.locked && id !in s.vaults ==> r == Err(VaultNotFound)
    ensures !s.locked && id in s.vaults && !Finalizable(s.vaults[id]) ==> r == Err(NotFinalizable)
    ensures !s.locked && id in s.vaults && Finalizable(s.vaults[id]) ==> r == VaultPubKey(b, s.vaults[id], coinType)
  {
    if s.locked then Err(KeyRingLocked)
    else if id !in s.vaults then Err(VaultNotFound)
    else if !Finalizable(s.vaults[id]) then Err(NotFinalizable)
    else VaultPubKey(b, s.vaults[id], coinType)
  }

  /** `sign(id, data, digestMethod)`. Unless the backend throws synchronously,
      a vault still needing finalisation is finalised at the coin type used,
      even when the returned promise rejects. */
  function Sign(b: Backends, s: State, id: string, data: seq<Byte>, digest: Ledger.DigestMethod): (r: Outcome<Ledger.Signature>)
    ensures s.locked ==> r == Outcome(s, Err(KeyRingLocked))
    ensures !s.locked && id !in s.vaults ==> r == Outcome(s, Err(VaultNotFound))
    ensures r.state.order == s.order && r.state.selected == s.selected && r.state.kv == s.kv
    ensures r.state.signedUp == s.signedUp && r.state.locked == s.locked && r.state.needMigration == s.needMigration
    ensures r.state.vaults.Keys == s.vaults.Keys
    ensures r.ret.Ok? ==> NeedKeyCoinTypeFinalize(r.state, id) == Ok(false)
    ensures !s.locked && id in s.vaults ==>
      var ins := s.vaults[id];
      var outcome := VaultSign(b, ins, ResolvedCoinType(ins), data, digest);
      && (outcome.ThrowsSync? ==> r == Outcome(s, Err(outcome.error)))
      && (outcome.Signed? ==> r.ret == Ok(outcome.signature))
      && (outcome.Rejects? ==> r.ret == Err(outcome.error))
      && (!outcome.ThrowsSync? && Finalizable(ins) && !CoinTypeSet(ins) ==>
            r.state.vaults == s.vaults[id := ins[CoinTypeTag := Num(Integral(DefaultCoinType))]])
      && (!(Finalizable(ins) && !CoinTypeSet(ins)) ==> r.state == s)
  {
    if s.locked then Outcome(s, Err(KeyRingLocked))
    else if id !in s.vaults then Outcome(s, Err(VaultNotFound))
    else
      var ins := s.vaults[id];
      var coinType := ResolvedCoinType(ins);
      match VaultSign(b, ins, coinType, data, digest)
      case ThrowsSync(e) => Outcome(s, Err(e))
      case Signed(sig) => FinalizeAfterSign(s, id, coinType, Ok(sig))
      case Rejects(e) => FinalizeAfterSign(s, id, coinType, Err(e))
  }

  /** What `sign` does once the backend has returned: finalise the coin type if
      the vault still needs it, then hand back the backend's result. */
  function FinalizeAfterSign(s: State, id: string, coinType: Json, ret: Result<Ledger.Signature, Error>): (r: Outcome<Ledger.Signature>)
    requires !s.locked && id in s.vaults && Truthy(coinType)
    ensures r.ret == ret
    ensures Finalizable(s.vaults[id]) && !CoinTypeSet(s.vaults[id]) ==>
              r.state == s.(vaults := s.vaults[id := s.vaults[id][CoinTypeTag := coinType]])
    ensures !(Finalizable(s.vaults[id]) && !CoinTypeSet(s.vaults[id])) ==> r.state == s
    ensures NeedKeyCoinTypeFinalize(r.state, id) == Ok(false)
  {
    match NeedKeyCoinTypeFinalize(s, id)
    case Err(e) => assert false; Outcome(s, ret)
    case Ok(need) =>
      if !need then Outcome(s, ret)
      else
        match FinalizeKeyCoinType(s, id, coinType)
        case Err(e) => assert false; Outcome(s, ret)
        case Ok(s1) => Outcome(s1, ret)
  }

  /** `signSelected(data, digestMethod)`. */
  function SignSelected(b: Backends, s: State, data: seq<Byte>, digest: Ledger.DigestMethod): (r: Outcome<Ledger.Signature>)
    ensures SelectedVaultId(s).Err? ==> r == Outcome(s, Err(KeyRingEmpty))
    ensures SelectedVaultId(s).Ok? ==> r == Sign(b, s, SelectedVaultId(s).value, data, digest)
  {
    match SelectedVaultId(s)
    case Err(e) => Outcome(s, Err(e))
    case Ok(id) => Sign(b, s, id, data, digest)
  }

  // ---------------------------------------------------------------------------
  // Start-up

  /** The selection `init` restores: the persisted id when it is truthy and still names a vault. */
  function RestoredSelection(s: State): (r: Option<string>)
    ensures r.Some? <==> exists id :: CRStore.Get(Store, s.kv, SelectedVaultIdKey) == Some(Str(id)) && id != "" && id in s.vaults
    ensures r.Some? ==> CRStore.Get(Store, s.kv, SelectedVaultIdKey) == Some(Str(r.value)) && r.value in s.vaults
  {
    var stored := CRStore.Get(Store, s.kv, SelectedVaultIdKey);
    if stored.Some? && stored.value.Str? && stored.value.s != "" && stored.value.s in s.vaults
    then Some(stored.value.s) else None
  }

  /** `init()`: detects a pending migration, restores a persisted selection that
      still resolves (keeping the current one otherwise), and starts persisting the selection. */
  function Init(s: State, legacy: Legacy.Storage): (r: State)
    ensures r.vaults == s.vaults && r.order == s.order && r.signedUp == s.signedUp && r.locked == s.locked
    ensures r.needMigration == (s.needMigration || (!MigrationDone(s) && Legacy.HasEntries(legacy)))
    ensures RestoredSelection(s).Some? ==> r.selected == RestoredSelection(s)
    ensures RestoredSelection(s).None? ==> r.selected == s.selected
    ensures CRStore.Get(Store, r.kv, SelectedVaultIdKey) == Some(SelectionJson(r.selected))
    ensures VaultsWellFormed(s) && (s.selected.Some? ==> s.selected.value in s.vaults) ==> Valid(r)
  {
    var s1 := if !MigrationDone(s) && Legacy.HasEntries(legacy) then s.(needMigration := true) else s;
    var sel := if RestoredSelection(s).Some? then RestoredSelection(s) else s.selected;
    CRStore.SetThenGet(Store, s1.kv, SelectedVaultIdKey, SelectionJson(sel));
    WithSelection(s1, sel)
  }

  /** The "migration/v1" flag is truthy. */
  predicate MigrationDone(s: State) {
    var migrated := CRStore.Get(Store, s.kv, MigrationKey);
    migrated.Some? && Truthy(migrated.value)
  }
}
