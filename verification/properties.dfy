/** Properties that relate several calls of the key-ring orchestrator and the migration. */
module KeyRingProperties {

  import opened Wrappers
  import opened Json
  import opened Errors
  import opened Hex
  import opened Bip44
  import CRStore
  import Ledger = LedgerKeyRing
  import Legacy
  import opened KeyRing
  import opened Migration

  // ---------------------------------------------------------------------------
  // Coin-type finalisation

  /** A fresh mnemonic vault is already finalised at 118: finalising it again throws. */
  lemma CreatedMnemonicIsFinalized(b: Backends, s: State, mnemonic: string, path: HDPath, name: string,
                                   password: Option<string>, coinType: Json)
    requires CreateMnemonicKeyRing(b, s, mnemonic, path, name, password).ret.Ok?
    ensures var r := CreateMnemonicKeyRing(b, s, mnemonic, path, name, password);
            !r.state.locked ==>
              && NeedKeyCoinTypeFinalize(r.state, r.ret.value) == Ok(false)
              && FinalizeKeyCoinType(r.state, r.ret.value, coinType) == Err(CoinTypeAlreadyFinalized)
  {
    var r := CreateMnemonicKeyRing(b, s, mnemonic, path, name, password);
    if !r.state.locked {
      assert CoinTypeSet(r.state.vaults[r.ret.value]);
    }
  }

  /** Signing with an unfinalised mnemonic or keystone vault finalises it at 118
      unless the backend throws synchronously; after that the coin type is fixed. */
  lemma SignFinalizesOnce(b: Backends, s: State, id: string, data: seq<Byte>, digest: Ledger.DigestMethod, coinType: Json)
    requires !s.locked && id in s.vaults && Finalizable(s.vaults[id]) && !CoinTypeSet(s.vaults[id])
    requires !VaultSign(b, s.vaults[id], Num(Integral(DefaultCoinType)), data, digest).ThrowsSync?
    ensures var t := Sign(b, s, id, data, digest).state;
            && t.vaults[id][CoinTypeTag] == Num(Integral(DefaultCoinType))
            && NeedKeyCoinTypeFinalize(t, id) == Ok(false)
            && FinalizeKeyCoinType(t, id, coinType) == Err(CoinTypeAlreadyFinalized)
  {
    var t := Sign(b, s, id, data, digest).state;
    assert t.vaults[id] == s.vaults[id][CoinTypeTag := Num(Integral(DefaultCoinType))];
    assert Finalizable(t.vaults[id]);
  }

  /** A coin type of 0 is stored but counts as unset: the vault can be finalised
      again, overwriting it. */
  lemma FinalizeWithZeroIsNotFinal(s: State, id: string, coinType: Json)
    requires FinalizeKeyCoinType(s, id, Num(Integral(0))).Ok?
    ensures var t := FinalizeKeyCoinType(s, id, Num(Integral(0))).value;
            && NeedKeyCoinTypeFinalize(t, id) == Ok(true)
            && FinalizeKeyCoinType(t, id, coinType).Ok?
            && FinalizeKeyCoinType(FinalizeKeyCoinType(t, id, coinType).value, id, Num(Integral(0))).Ok? == !Truthy(coinType)
  {
  }

  /** A backend that throws synchronously leaves the vault unfinalised. */
  lemma SyncThrowDoesNotFinalize(b: Backends, s: State, id: string, data: seq<Byte>, digest: Ledger.DigestMethod)
    requires !s.locked && id in s.vaults && Finalizable(s.vaults[id]) && !CoinTypeSet(s.vaults[id])
    requires VaultSign(b, s.vaults[id], Num(Integral(DefaultCoinType)), data, digest).ThrowsSync?
    ensures NeedKeyCoinTypeFinalize(Sign(b, s, id, data, digest).state, id) == Ok(true)
  {
  }

  // ---------------------------------------------------------------------------
  // Ledger

  /** A Ledger vault created for the Cosmos app yields back the public key it was created with. */
  lemma LedgerCreateThenGetPubKey(b: Backends, s: State, pubKey: seq<Byte>, path: HDPath, name: string, password: Option<string>)
    requires CreateLedgerKeyRing(s, pubKey, "Cosmos", path, name, password).ret.Ok?
    ensures var r := CreateLedgerKeyRing(s, pubKey, "Cosmos", path, name, password);
            !r.state.locked ==> GetPubKey(b, r.state, r.ret.value) == Ok(Ledger.PubKey(pubKey))
  {
    var r := CreateLedgerKeyRing(s, pubKey, "Cosmos", path, name, password);
    var ins := r.state.vaults[r.ret.value];
    assert !FieldTruthy(ins, "Terra") && !FieldTruthy(ins, "Secret");
    Ledger.GetPubKeyOfCosmosEntry(ins, pubKey, ResolvedCoinType(ins));
  }

  /** Signing with a Ledger vault always throws and changes nothing. */
  lemma LedgerVaultNeverSigns(b: Backends, s: State, id: string, data: seq<Byte>, digest: Ledger.DigestMethod)
    requires !s.locked && id in s.vaults && IsType(s.vaults[id], LedgerType)
    ensures Sign(b, s, id, data, digest) == Outcome(s, Err(LedgerCannotSign))
  {
  }

  /** The same app cannot be appended twice. */
  lemma AppendTwiceFails(s: State, id: string, pk1: seq<Byte>, pk2: seq<Byte>, app: string)
    requires AppendLedgerKeyRing(s, id, pk1, app).Ok?
    ensures AppendLedgerKeyRing(AppendLedgerKeyRing(s, id, pk1, app).value, id, pk2, app) == Err(AppAlreadyAppended)
  {
    var t := AppendLedgerKeyRing(s, id, pk1, app).value;
    assert t.vaults[id][app] == Ledger.AppEntry(pk1);
  }

  /** A keystone export holding a path whose change is 2 or more is refused, although the path parses. */
  lemma KeystoneRejectsChangeOutOfRange(b: Backends, s: State, g: seq<string>, name: string, password: Option<string>)
    requires IsGroups(g) && DecimalValue(g[2]) > 1
    ensures CreateKeystoneKeyRing(b, s, MultiAccounts([Render('m', g)]), name, password).ret.Err?
  {
    ParsedChangeOutOfRange(g);
  }

  // ---------------------------------------------------------------------------
  // Selection and deletion

  /** Deleting the only vault signs out: the key ring is empty and nothing is selected. */
  lemma DeleteLastEmpties(s: State, id: string, password: string)
    requires Valid(s) && s.order == [id]
    requires DeleteKeyRing(s, id, password).ret.Ok?
    ensures var r := DeleteKeyRing(s, id, password);
            && r.ret == Ok(true)
            && r.state.selected.None?
            && |r.state.order| == 0 && !r.state.signedUp
            && (!r.state.needMigration ==> Status(r.state) == Empty)
            && SelectedVaultId(r.state) == Err(KeyRingEmpty)
  {
    assert SelectedVaultId(s) == Ok(id);
    assert RemoveId(s.order, id) == [];
  }

  /** Deleting the selected vault while others remain selects the first remaining one. */
  lemma DeleteSelectedReselects(s: State, id: string, password: string)
    requires Valid(s) && |s.order| >= 2
    requires s.selected == Some(id)
    requires DeleteKeyRing(s, id, password).ret.Ok?
    ensures var r := DeleteKeyRing(s, id, password);
            && r.ret == Ok(true)
            && r.state.selected.Some? && r.state.selected.value in s.vaults && r.state.selected.value != id
            && r.state.selected == Some(RemoveId(s.order, id)[0])
  {
    assert s.order[0] in s.vaults;
    if s.order[0] == id {
      assert s.order[1] != id && s.order[1] in RemoveId(s.order, id);
    } else {
      assert s.order[0] in RemoveId(s.order, id);
    }
  }

  /** At most one key info is marked selected. */
  lemma AtMostOneSelected(s: State, i: nat, j: nat)
    requires Valid(s)
    requires i < |s.order| && j < |s.order|
    requires GetKeyInfos(s)[i].isSelected && GetKeyInfos(s)[j].isSelected
    ensures i == j
  {
  }

  /** The persisted selection survives a restart: `init` restores the vault last selected. */
  lemma SelectionSurvivesRestart(s: State, id: string, legacy: Legacy.Storage)
    requires Valid(s) && SelectKeyRing(s, id).Ok?
    ensures var t := SelectKeyRing(s, id).value;
            Init(t.(selected := None), legacy).selected == Some(id)
  {
    var t := SelectKeyRing(s, id).value;
    CRStore.SetThenGet(Store, s.kv, SelectedVaultIdKey, SelectionJson(Some(id)));
    assert CRStore.Get(Store, t.kv, SelectedVaultIdKey) == Some(Str(id));
  }

  // ---------------------------------------------------------------------------
  // Migration

  /** Flagged entries are skipped: re-running the loop over them does nothing. */
  lemma {:induction false} SkippedEntriesChangeNothing(b: Backends, c: Legacy.Crypto, s: State, entries: seq<Legacy.KeyStore>,
                                                       legacySelected: Option<string>, password: string, selecting: Option<string>)
    requires Valid(s) && AllSkipped(s, entries)
    ensures MigrateEntries(b, c, s, entries, legacySelected, password, selecting) == Outcome(s, Ok(selecting))
    decreases |entries|
  {
    if |entries| > 0 {
      assert Skipped(s, entries[0]);
      assert AllSkipped(s, entries[1..]) by {
        forall i | 0 <= i < |entries[1..]| ensures Skipped(s, entries[1..][i]) {
          assert entries[1..][i] == entries[i + 1];
        }
      }
      SkippedEntriesChangeNothing(b, c, s, entries[1..], legacySelected, password, selecting);
    }
  }

  /** After a successful migration every entry with an id is flagged, so running
      the loop again over the same entries creates nothing. */
  lemma MigrationIsNotRepeated(b: Backends, c: Legacy.Crypto, s: State, legacy: Legacy.Storage, password: string,
                               b2: Backends, c2: Legacy.Crypto, password2: string, selecting: Option<string>)
    requires Valid(s)
    requires Migrate(b, c, s, legacy, password).ret.Ok?
    requires forall i :: 0 <= i < |legacy.multiKeyStore.value| ==> Legacy.Present(Legacy.KeyStoreId(legacy.multiKeyStore.value[i]))
    ensures var t := Migrate(b, c, s, legacy, password).state;
            MigrateEntries(b2, c2, t, legacy.multiKeyStore.value, Legacy.SelectedId(legacy), password2, selecting) == Outcome(t, Ok(selecting))
  {
    var t := Migrate(b, c, s, legacy, password).state;
    var entries := legacy.multiKeyStore.value;
    assert AllSkipped(t, entries) by {
      forall i | 0 <= i < |entries| ensures Skipped(t, entries[i]) {
        assert EntryDone(t, entries[i]);
      }
    }
    SkippedEntriesChangeNothing(b2, c2, t, entries, Legacy.SelectedId(legacy), password2, selecting);
  }

  /** An entry of unknown type with an id is flagged and creates no vault. */
  lemma UnknownEntryIsFlagged(b: Backends, c: Legacy.Crypto, s: State, ks: Legacy.KeyStore, legacySelected: Option<string>,
                              password: string, selecting: Option<string>)
    requires Valid(s) && ks.kind !in {"mnemonic", "privateKey", "ledger"}
    requires Legacy.Present(Legacy.KeyStoreId(ks))
    ensures var r := MigrateEntry(b, c, s, ks, legacySelected, password, selecting);
            r.ret == Ok(selecting) && Flagged(r.state, Legacy.KeyStoreId(ks).value) && r.state.vaults == s.vaults
  {
  }

  /** Each entry of a successful loop that is not yet flagged, has an id of its
      own and describes a vault adds exactly one vault. */
  lemma {:induction false} OneVaultPerEntry(b: Backends, c: Legacy.Crypto, s: State, entries: seq<Legacy.KeyStore>,
                                            legacySelected: Option<string>, password: string, selecting: Option<string>)
    requires Valid(s)
    requires forall i :: 0 <= i < |entries| ==>
               Legacy.Present(Legacy.KeyStoreId(entries[i])) && !Skipped(s, entries[i]) && CreatesVault(c, entries[i], password)
    requires forall i, j :: 0 <= i < j < |entries| ==> Legacy.KeyStoreId(entries[i]) != Legacy.KeyStoreId(entries[j])
    ensures var r := MigrateEntries(b, c, s, entries, legacySelected, password, selecting);
            r.ret.Ok? ==> |r.state.order| == |s.order| + |entries|
    decreases |entries|
  {
    if |entries| > 0 {
      var o := MigrateEntry(b, c, s, entries[0], legacySelected, password, selecting);
      if o.ret.Ok? {
        var rest := entries[1..];
        forall i | 0 <= i < |rest|
          ensures Legacy.Present(Legacy.KeyStoreId(rest[i])) && !Skipped(o.state, rest[i]) && CreatesVault(c, rest[i], password)
        {
          assert rest[i] == entries[i + 1];
          assert Legacy.KeyStoreId(entries[0]) != Legacy.KeyStoreId(entries[i + 1]);
        }
        forall i, j | 0 <= i < j < |rest| ensures Legacy.KeyStoreId(rest[i]) != Legacy.KeyStoreId(rest[j]) {
          assert rest[i] == entries[i + 1] && rest[j] == entries[j + 1];
        }
        OneVaultPerEntry(b, c, o.state, rest, legacySelected, password, o.ret.value);
      }
    }
  }

  /** The state the loop of `migrate` starts from once the vault is unlocked. */
  function MigrationStart(s: State): State {
    s.(locked := s.locked && !s.signedUp, isMigrating := true)
  }

  /** Running the loop over entries whose first `k` are flagged is running it over the rest. */
  lemma {:induction false} SkippedPrefix(b: Backends, c: Legacy.Crypto, t: State, entries: seq<Legacy.KeyStore>, k: nat,
                                         legacySelected: Option<string>, password: string, selecting: Option<string>)
    requires Valid(t) && k <= |entries|
    requires forall i :: 0 <= i < k ==> Skipped(t, entries[i])
    ensures MigrateEntries(b, c, t, entries, legacySelected, password, selecting)
            == MigrateEntries(b, c, t, entries[k..], legacySelected, password, selecting)
    decreases k
  {
    if k > 0 {
      assert Skipped(t, entries[0]);
      forall i | 0 <= i < k - 1 ensures Skipped(t, entries[1..][i]) {
        assert entries[1..][i] == entries[i + 1];
      }
      SkippedPrefix(b, c, t, entries[1..], k - 1, legacySelected, password, selecting);
      assert entries[1..][k - 1..] == entries[k..];
    }
  }

  /** A migration that stops at entry `k` fails, stays pending and leaves the
      entries before `k` flagged, so running the loop again skips them and
      creates none of their vaults a second time. */
  lemma FailedMigrationRetry(b: Backends, c: Legacy.Crypto, s: State, legacy: Legacy.Storage, password: string,
                             b2: Backends, c2: Legacy.Crypto, password2: string, selecting: Option<string>)
    requires Valid(s) && s.needMigration && !s.isMigrating && Legacy.HasEntries(legacy)
    requires s.signedUp && s.locked ==> password == s.password
    requires forall i :: 0 <= i < |legacy.multiKeyStore.value| ==> Legacy.Present(Legacy.KeyStoreId(legacy.multiKeyStore.value[i]))
    ensures var entries := legacy.multiKeyStore.value;
            var k := Processed(b, c, MigrationStart(s), entries, Legacy.SelectedId(legacy), password, None);
            var r := Migrate(b, c, s, legacy, password);
            && (k < |entries| ==> r.ret.Err? && r.state.needMigration && !r.state.isMigrating)
            && (forall i :: 0 <= i < k ==> Skipped(r.state, entries[i]))
            && MigrateEntries(b2, c2, r.state, entries, Legacy.SelectedId(legacy), password2, selecting)
               == MigrateEntries(b2, c2, r.state, entries[k..], Legacy.SelectedId(legacy), password2, selecting)
  {
    var entries := legacy.multiKeyStore.value;
    var l := MigrateEntries(b, c, MigrationStart(s), entries, Legacy.SelectedId(legacy), password, None);
    var k := Processed(b, c, MigrationStart(s), entries, Legacy.SelectedId(legacy), password, None);
    var r := Migrate(b, c, s, legacy, password);
    MigrateKeepsLoopFlags(b, c, s, legacy, password);
    forall i | 0 <= i < k ensures Skipped(r.state, entries[i]) {
      assert EntryDone(l.state, entries[i]);
    }
    SkippedPrefix(b2, c2, r.state, entries, k, Legacy.SelectedId(legacy), password2, selecting);
  }

  /** `migrate` runs its loop from `MigrationStart`; a loop that stops early is
      the migration's failure, and the flags the loop set survive the rest. */
  lemma MigrateKeepsLoopFlags(b: Backends, c: Legacy.Crypto, s: State, legacy: Legacy.Storage, password: string)
    requires Valid(s) && s.needMigration && !s.isMigrating && Legacy.HasEntries(legacy)
    requires s.signedUp && s.locked ==> password == s.password
    ensures var l := MigrateEntries(b, c, MigrationStart(s), legacy.multiKeyStore.value, Legacy.SelectedId(legacy), password, None);
            var r := Migrate(b, c, s, legacy, password);
            && (l.ret.Err? ==> r.ret.Err? && r.state.needMigration && !r.state.isMigrating)
            && (forall x :: Flagged(l.state, x) ==> Flagged(r.state, x))
  {
    var l := MigrateEntries(b, c, MigrationStart(s), legacy.multiKeyStore.value, Legacy.SelectedId(legacy), password, None);
    var o := MigrateBody(b, c, MigrationStart(s), legacy, password);
    assert Migrate(b, c, s, legacy, password) == Outcome(o.state.(isMigrating := false), o.ret);
    if l.ret.Ok? {
      assert o == Finish(l.state, l.ret.value);
    }
  }

  /** The loop's single iteration over the mnemonic entry of `SingleMnemonicMigration`. */
  lemma SingleMnemonicEntry(b: Backends, c: Legacy.Crypto, s: State, ks: Legacy.KeyStore, password: string)
    requires Valid(s) && !s.signedUp && password != ""
    requires ks.kind == "mnemonic" && ks.bip44HDPath.None?
    requires ks.meta.Some? && ks.meta.value.id == Some("A") && !Flagged(s, "A")
    requires c.decrypt(ks, password).Ok?
    requires b.mnemonicVault(c.decrypt(ks, password).value, DefaultPath).Ok?
    ensures var e := MigrateEntries(b, c, s, [ks], Some("A"), password, None);
            && e.ret.Ok? && |e.state.order| == |s.order| + 1
            && e.ret.value == Some(e.state.order[|s.order|])
            && IsType(e.state.vaults[e.state.order[|s.order|]], MnemonicType)
            && Flagged(e.state, "A") && e.state.signedUp && !e.state.locked
            && e.state.needMigration == s.needMigration && e.state.isMigrating == s.isMigrating
  {
    MnemonicEntryCreates(b, c, s, ks, password);
    var e := MigrateEntry(b, c, s, ks, Some("A"), password, None);
    SingletonLoop(b, c, s, ks, Some("A"), password, None);
  }

  lemma MnemonicEntryCreates(b: Backends, c: Legacy.Crypto, s: State, ks: Legacy.KeyStore, password: string)
    requires Valid(s) && !s.signedUp && password != ""
    requires ks.kind == "mnemonic" && ks.bip44HDPath.None?
    requires ks.meta.Some? && ks.meta.value.id == Some("A")
    requires c.decrypt(ks, password).Ok?
    requires b.mnemonicVault(c.decrypt(ks, password).value, DefaultPath).Ok?
    ensures var o := ConvertMnemonic(b, c, s, ks, Some("A"), password, None);
            && o.ret.Ok? && |o.state.order| == |s.order| + 1
            && o.ret.value == Some(o.state.order[|s.order|])
            && IsType(o.state.vaults[o.state.order[|s.order|]], MnemonicType)
            && o.state.signedUp && !o.state.locked
  {
    assert ValidateBIP44Path(DefaultPath).Ok?;
    var m := CreateMnemonicKeyRing(b, s, c.decrypt(ks, password).value, LegacyPath(ks), LegacyName(ks), Some(password));
    assert m.ret.Ok?;
  }

  lemma SingletonLoop(b: Backends, c: Legacy.Crypto, s: State, ks: Legacy.KeyStore, legacySelected: Option<string>,
                      password: string, selecting: Option<string>)
    requires Valid(s)
    ensures MigrateEntries(b, c, s, [ks], legacySelected, password, selecting) == MigrateEntry(b, c, s, ks, legacySelected, password, selecting)
  {
    var e := MigrateEntry(b, c, s, ks, legacySelected, password, selecting);
    assert [ks][1..] == [];
  }

  /** A legacy store holding one mnemonic entry, also the legacy selected one,
      migrates into one mnemonic vault which becomes the selection. */
  lemma SingleMnemonicMigration(b: Backends, c: Legacy.Crypto, s: State, ks: Legacy.KeyStore, password: string)
    requires Valid(s) && s.needMigration && !s.isMigrating
    requires !s.signedUp && password != ""
    requires ks.kind == "mnemonic" && ks.bip44HDPath.None?
    requires ks.meta.Some? && ks.meta.value.id == Some("A") && !Flagged(s, "A")
    requires c.decrypt(ks, password).Ok?
    requires b.mnemonicVault(c.decrypt(ks, password).value, DefaultPath).Ok?
    ensures var legacy := Legacy.Storage(Some([ks]), Some(ks));
            var r := Migrate(b, c, s, legacy, password);
            && r.ret.Ok?
            && |r.state.order| == |s.order| + 1
            && r.state.selected == Some(r.state.order[|s.order|])
            && IsType(r.state.vaults[r.state.order[|s.order|]], MnemonicType)
            && Flagged(r.state, "A") && !r.state.needMigration && !r.state.isMigrating
            && Status(r.state) == Unlocked
  {
    var legacy := Legacy.Storage(Some([ks]), Some(ks));
    var s1 := s.(isMigrating := true);
    SingleMnemonicBody(b, c, s1, ks, password);
    assert Migrate(b, c, s, legacy, password) ==
           var o := MigrateBody(b, c, s1, legacy, password); Outcome(o.state.(isMigrating := false), o.ret);
  }

  /** The body of `migrate` over the single mnemonic entry. */
  lemma SingleMnemonicBody(b: Backends, c: Legacy.Crypto, s: State, ks: Legacy.KeyStore, password: string)
    requires Valid(s) && s.needMigration
    requires !s.signedUp && password != ""
    requires ks.kind == "mnemonic" && ks.bip44HDPath.None?
    requires ks.meta.Some? && ks.meta.value.id == Some("A") && !Flagged(s, "A")
    requires c.decrypt(ks, password).Ok?
    requires b.mnemonicVault(c.decrypt(ks, password).value, DefaultPath).Ok?
    ensures var r := MigrateBody(b, c, s, Legacy.Storage(Some([ks]), Some(ks)), password);
            && r.ret.Ok?
            && |r.state.order| == |s.order| + 1
            && r.state.selected == Some(r.state.order[|s.order|])
            && IsType(r.state.vaults[r.state.order[|s.order|]], MnemonicType)
            && Flagged(r.state, "A") && !r.state.needMigration
            && r.state.signedUp && !r.state.locked
  {
    var legacy := Legacy.Storage(Some([ks]), Some(ks));
    SingleMnemonicEntry(b, c, s, ks, password);
    var e := MigrateEntries(b, c, s, [ks], Some("A"), password, None);
    var f := Finish(e.state, e.ret.value);
    assert f.ret.Ok? && f.state.signedUp && !f.state.locked;
    assert MigrateBody(b, c, s, legacy, password) == f;
  }

  // ---------------------------------------------------------------------------
  // Unlocking, the legacy password check, and restarting

  /** With no migration pending, unlocking with the stored password undoes a lock,
      and any other password leaves the key ring locked. */
  lemma LockThenUnlock(b: Backends, c: Legacy.Crypto, s: State, legacy: Legacy.Storage, password: string)
    requires Valid(s) && !s.needMigration && s.signedUp && !s.locked
    ensures UnlockKeyRing(b, c, LockKeyRing(s), legacy, s.password) == Outcome(s, Ok(()))
    ensures password != s.password ==>
              var r := UnlockKeyRing(b, c, LockKeyRing(s), legacy, password);
              r.ret.Err? && r.state.locked && Status(r.state) != Unlocked
  {
    assert LockKeyRing(s).(locked := false) == s;
  }

  /** A known-type entry converts only after its decryption succeeds. */
  lemma EntryNeedsDecrypt(b: Backends, c: Legacy.Crypto, s: State, ks: Legacy.KeyStore, legacySelected: Option<string>,
                          password: string, selecting: Option<string>)
    requires Valid(s) && !Skipped(s, ks) && ks.kind in {"mnemonic", "privateKey", "ledger"}
    ensures MigrateEntry(b, c, s, ks, legacySelected, password, selecting).ret.Ok? ==> c.decrypt(ks, password).Ok?
  {
  }

  /** A migration that succeeds has decrypted the first legacy entry, so the legacy
      password check accepts the same password, as long as that entry was not
      already migrated and has a known type. */
  lemma MigrationPassesPasswordCheck(b: Backends, c: Legacy.Crypto, s: State, legacy: Legacy.Storage, password: string)
    requires Valid(s) && Legacy.HasEntries(legacy)
    requires !Skipped(s, legacy.multiKeyStore.value[0])
    requires legacy.multiKeyStore.value[0].kind in {"mnemonic", "privateKey", "ledger"}
    ensures Migrate(b, c, s, legacy, password).ret.Ok? ==> CheckLegacyKeyRingPassword(c, s, legacy, password).Ok?
  {
    if Migrate(b, c, s, legacy, password).ret.Ok? {
      var entries := legacy.multiKeyStore.value;
      var s1 := (if s.signedUp && s.locked then VaultUnlock(s, password) else Ok(s)).value;
      var s2 := s1.(isMigrating := true);
      assert Skipped(s2, entries[0]) == Skipped(s, entries[0]);
      var first := MigrateEntry(b, c, s2, entries[0], Legacy.SelectedId(legacy), password, None);
      EntryNeedsDecrypt(b, c, s2, entries[0], Legacy.SelectedId(legacy), password, None);
      assert MigrateBody(b, c, s2, legacy, password).ret.Ok?;
      assert MigrateEntries(b, c, s2, entries, Legacy.SelectedId(legacy), password, None).ret.Ok?;
      assert first.ret.Ok?;
    }
  }

  /** Re-running `init` on a consistent key ring keeps its selection, whether or not
      the persisted one could be restored. */
  lemma InitKeepsConsistentSelection(s: State, legacy: Legacy.Storage)
    requires Valid(s)
    ensures Init(s, legacy).selected == s.selected
    ensures Valid(Init(s, legacy))
  {
    if s.selected.Some? {
      assert CRStore.Get(Store, s.kv, SelectedVaultIdKey) == Some(Str(s.selected.value));
    }
  }
}
