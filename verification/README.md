# Key-ring service model

A Dafny model of the key-ring core of a Cosmos wallet:

- `KeyRingService`, the orchestrator. It keeps zero or more key rings, each stored as a vault: mnemonic, private key, Ledger or keystone. It gates operations on the vault's lock and picks the backend for each vault from its declared type. It also finalises each vault's coin type once and persists the selected vault. Finally it runs a one-time migration from the legacy single-password key store.
- `KeyRingLedgerService`, the Ledger backend. It builds the vault record, picks the app entry that supplies the public key, and never signs.
- `BaseCRStore` and `PrefixCRStore`, the prefixed key-value stores. The orchestrator keeps the selection and the migration flags in them.

The model is functional. A `KeyRing.State` record holds:

- the vault service's sign-up and lock flags and its user password;
- the listing order of the key-ring vaults, and each vault's insensitive record;
- the selection;
- the `needMigration` and `isMigrating` flags;
- the provider map behind the service's `keyring-v2` store.

Every operation is a pure function of that state. An operation that can throw returns a `Result`. An operation that changes the state before it throws returns an `Outcome`, which holds the new state and the result. Examples are a create that signs up first, a migration that fails halfway, and a sign whose promise rejects after the coin type was finalised.

Modules, one per file:

| file | module | what |
|---|---|---|
| wrappers.dfy | `Wrappers` | `Option`, `Result` |
| errors.dfy | `Errors` | one constructor per error the core throws |
| json.dfy | `Json` | loosely typed records, JavaScript truthiness, object spread |
| hex.dfy | `Hex` | lowercase hex encoding of bytes and its inverse |
| cr_store.dfy | `CRStore` | base and prefixed stores over a provider map |
| bip44.dfy | `Bip44` | `validateBIP44Path`, `parseBIP44Path` |
| ledger.dfy | `LedgerKeyRing` | the Ledger backend |
| legacy.dfy | `Legacy` | the legacy key-store records and the decrypt collaborators |
| keyring.dfy | `KeyRing` | state, invariant, and every orchestrator operation except migration |
| migration.dfy | `Migration` | `migrate`, `unlockKeyRing`, `checkLegacyKeyRingPassword` |
| invariants.dfy | `KeyRingInvariants` | the invariant and the write-once coin type hold across all operations |
| properties.dfy | `KeyRingProperties` | properties that relate several calls |

Parameters stand in for collaborators whose code is not part of this model:

- `KeyRing.Backends` holds the mnemonic, private-key and keystone backends' `createKeyRingVault`, `getPubKey` and `sign`. A backend's `sign` can return a signature, throw synchronously, or return a rejecting promise.
- `Legacy.Crypto` holds the legacy decryption, the hex-or-JSON test on a Ledger payload, and `JSON.parse`.
- The vault service is modelled by its observable effects:
  - `signUp` signs up and unlocks;
  - `unlock` and `checkUserPassword` compare the password with the stored one;
  - `clearAll` signs out and removes all vaults;
  - `addVault` appends a vault whose id is new and non-empty.

The migration loop flags every processed legacy entry that has an id, unknown types included (packages/keyring/service.ts:316-323). `Migration.MigrateEntry` and `KeyRingProperties.UnknownEntryIsFlagged` state this behaviour. Each flag is written as soon as its entry is done, so a migration that throws midway keeps the flags of the entries before the failing one; `KeyRingProperties.FailedMigrationRetry` states that a retry skips them. Two consequences follow from the code. An entry without an id is never flagged, so a retry converts it again. A retry also starts with no vault to select, so when the legacy selected entry was converted by the failed run, the retry does not select its vault.

## Model

| member | source | states |
|---|---|---|
| CRStore.ProviderKey | packages/cr-store/base.ts:9-20 | the provider key of `k` is the store's full path, `/`, then `k`; a prefixed store adds its prefix in front of `k` |
| CRStore.Get | packages/cr-store/base.ts:9-14 | `get(k)` reads exactly provider key `path/k`; it returns the stored value if there is one and undefined otherwise |
| CRStore.Set | packages/cr-store/base.ts:16-20 | `set(k, v)` changes exactly one provider entry, `path/k`, to `v` (which may be null) |
| CRStore.ProviderKeyInjective | packages/cr-store/base.ts:10-17 | distinct keys map to distinct provider keys |
| CRStore.SetThenGet | packages/cr-store/prefix.ts:13-23 | round trip: after `set(k, v)`, `get(k)` returns `v`, for base and prefixed stores nested to any depth |
| CRStore.SetLeavesOtherKeys | packages/cr-store/prefix.ts:13-23 | non-interference: `set(k, v)` leaves `get(k')` unchanged for every `k' != k` |
| CRStore.GetUnset | packages/cr-store/base.ts:12-13 | a key never set reads as undefined, before and after a write to another key |
| CRStore.NestedProviderKey | packages/cr-store/prefix.ts:13-17 | a prefixed store `p2` over a base store `p1` keeps `k` at provider key `p1/p2/k` |
| CRStore.WrapperPrefixIsOwn | packages/cr-store/prefix.ts:9-11 | `prefix()` of a prefixed store is its own prefix, not the composed path |
| Hex.ByteToHex | packages/keyring-ledger/service.ts:29 | a byte encodes as two lowercase hex digits whose value is the byte |
| Hex.ToHex | packages/keyring-ledger/service.ts:29 | the encoding is twice as long as the bytes and all lowercase hex digits |
| Hex.FromHexToHex | packages/keyring-ledger/service.ts:57-60 | decoding an encoding gives the original bytes back |
| Hex.ToHexFromHex | packages/keyring-ledger/service.ts:57-60 | encoding the decoding of well-formed hex gives the same text, lowercased |
| Hex.ToHexInjective | packages/keyring-ledger/service.ts:29 | distinct byte strings have distinct encodings |
| Bip44.ValidateBIP44Path | packages/keyring/service.ts:1134-1152 | succeeds iff account is an integer >= 0, change is 0 or 1, and addressIndex is an integer >= 0; otherwise it throws the error of the first failing check |
| Bip44.ParseBIP44Path | packages/keyring/service.ts:1114-1132 | succeeds iff the text matches `m/44'/c'/a'/ch/i` (either case of `m`, decimal digits); otherwise it throws "Invalid BIP44 hd path" |
| Bip44.ParseAcceptsExactly | packages/keyring/service.ts:1118-1131 | both directions: a text is accepted iff it starts with `m` or `M` and is the rendering of four digit groups; an accepted text yields the numbers of its own groups |
| Bip44.ParseRendered | packages/keyring/service.ts:1125-1131 | a parsed rendering returns exactly the four decimal values it was rendered from |
| Bip44.ParseFormat | packages/keyring/service.ts:1114-1132 | round trip: formatting four numbers and parsing gives those numbers back as doubles (an integer below the double overflow bound, else `Infinity`) |
| Bip44.CheckKeyPaths | packages/keyring/service.ts:638-641 | the keystone check succeeds iff every key path parses and validates; on failure it throws some path's error |
| Bip44.ParsedChangeOutOfRange | packages/keyring/service.ts:638-641 | a path with change 2 or more parses, yet its check throws "Invalid change" (or "Invalid account" first when the account overflows a double) |
| LedgerKeyRing.SupportedKeyRingType | packages/keyring-ledger/service.ts:10-12 | the Ledger backend serves type "ledger" |
| LedgerKeyRing.CreateKeyRingVault | packages/keyring-ledger/service.ts:14-35 | the insensitive record has exactly the keys `app` and `bip44Path`; `app` holds `{pubKey: hex(pk)}`; the sensitive record is empty |
| LedgerKeyRing.SelectApp | packages/keyring-ledger/service.ts:41-51 | the app is Secret if that entry is truthy, else Terra if that entry is truthy, else Cosmos |
| LedgerKeyRing.GetPubKey | packages/keyring-ledger/service.ts:37-62 | throws "Ledger is not initialized for app" when the selected entry is falsy; otherwise returns the key decoded from that entry's hex `pubKey` |
| LedgerKeyRing.Sign | packages/keyring-ledger/service.ts:64-72 | always throws, whatever the inputs |
| LedgerKeyRing.CreateThenGetPubKey | packages/keyring-ledger/service.ts:26-61 | round trip: a vault created for Cosmos yields the public key it was created with |
| LedgerKeyRing.GetPubKeyIgnoresCoinType | packages/keyring-ledger/service.ts:37-40 | the result does not depend on the coin type |
| LedgerKeyRing.EthereumOnlyIsNotInitialized | packages/keyring-ledger/service.ts:53-55 | a vault that holds only an Ethereum entry fails with "not initialized for Cosmos" |
| KeyRing.Status | packages/keyring/service.ts:356-371 | "locked" while a migration is pending; otherwise "empty" iff not signed up or no vaults; otherwise locked or unlocked as the vault is |
| KeyRing.SelectedVaultId | packages/keyring/service.ts:395-407 | the stored selection if it names a vault; a selection that does not resolve falls back to the first vault; with neither it throws "Key ring is empty"; under the invariant it fails iff there are no vaults |
| KeyRing.SelectKeyRing | packages/keyring/service.ts:341-354 | throws when locked or when the id is unknown; otherwise the selection, and the getter, become that id |
| KeyRing.GetKeyInfos | packages/keyring/service.ts:377-385 | one info per vault in listing order; `isSelected` holds iff the raw selection equals the vault id |
| KeyRing.GetKeyInfo | packages/keyring/service.ts:387-389 | found iff the id is listed; the result carries that vault's record |
| KeyRing.GetKeyRingName | packages/keyring/service.ts:732-739 | throws for an unknown id; otherwise returns the stored name if truthy, else "Keplr Account" |
| KeyRing.GetKeyRingNameSelected | packages/keyring/service.ts:728-730 | the name of the vault the getter resolves to; throws iff there are no vaults |
| KeyRing.ChangeKeyRingName | packages/keyring/service.ts:741-756 | throws when locked or for an unknown vault; otherwise changes only that vault's name, and the name reads back |
| KeyRing.NeedKeyCoinTypeFinalize | packages/keyring/service.ts:441-461 | throws when locked or for an unknown vault; otherwise true iff the vault is mnemonic or keystone and its tag is falsy |
| KeyRing.FinalizeKeyCoinType | packages/keyring/service.ts:409-439 | succeeds iff `needKeyCoinTypeFinalize` is true, with each error case for its failing check; on success it writes only the tag; finalising with a falsy coin type leaves the vault still needing finalisation |
| KeyRing.SignUpIfNeeded | packages/keyring/service.ts:469-475 | when not signed up, no password throws "Must provide password" and a password signs up and unlocks |
| KeyRing.CreateKeyRing | packages/keyring/service.ts:463-508 | sign-up gate, then the input check, then the backend; on success a new id is appended, its record is the backend's data overridden by the service's fields, it is selected, and the selection is persisted; on failure nothing but the sign-up changes |
| KeyRing.CreateMnemonicKeyRing | packages/keyring/service.ts:463-508 | succeeds iff the sign-up gate, path validation and backend succeed; the new vault is a mnemonic vault with coin type 118 and the given name, and is selected |
| KeyRing.CreateLedgerKeyRing | packages/keyring/service.ts:587-623 | succeeds iff the sign-up gate and path validation pass; the new vault has exactly the keys app, bip44Path, keyRingName and keyRingType and no coin-type tag, and is selected |
| KeyRing.CreateKeystoneKeyRing | packages/keyring/service.ts:625-669 | succeeds iff the sign-up gate, every key path's parse and validation, and the backend succeed; the new vault gets coin type 118 and is selected |
| KeyRing.CreatePrivateKeyKeyRing | packages/keyring/service.ts:671-705 | no path check and no coin type stamped; the new vault carries the given meta and is selected |
| KeyRing.AppendLedgerKeyRing | packages/keyring/service.ts:707-726 | throws for a missing vault, a non-Ledger vault or a truthy app entry; otherwise adds only `{[app]: {pubKey: hex}}` and keeps every truthy entry as it was |
| KeyRing.DeleteKeyRing | packages/keyring/service.ts:759-792 | throws when locked, for an unknown vault or for a wrong password, changing nothing; otherwise removes the vault and reports whether the getter named it; a deleted selection moves to the first remaining vault or to none; with no vaults left the service signs out |
| KeyRing.ResolvedCoinType | packages/keyring/service.ts:876-884 | the coin type used is the tag when truthy, else 118 |
| KeyRing.VaultPubKey | packages/keyring/service.ts:900-911 | a Ledger vault goes to the Ledger backend; a vault of unregistered type throws "Unsupported keyRing vault" |
| KeyRing.VaultSign | packages/keyring/service.ts:913-932 | a Ledger vault's sign throws synchronously; a vault of unregistered type throws synchronously |
| KeyRing.GetPubKey | packages/keyring/service.ts:805-827 | throws when locked or for an unknown vault; otherwise asks the vault's backend at the resolved coin type |
| KeyRing.GetPubKeyWithNotFinalizedCoinType | packages/keyring/service.ts:829-856 | throws for vaults that are not mnemonic or keystone; otherwise asks the backend at the given coin type, finalised or not |
| KeyRing.Sign | packages/keyring/service.ts:858-898 | throws when locked or for an unknown vault; a synchronous backend throw changes nothing; otherwise a vault needing finalisation is finalised at the coin type used, even if the promise rejects; after a successful sign it needs no finalisation |
| KeyRing.FinalizeAfterSign | packages/keyring/service.ts:893-897 | finalises only a vault that still needs it and returns the backend's result unchanged |
| KeyRing.SignSelected | packages/keyring/service.ts:794-803 | signs with the vault the getter resolves to; throws "Key ring is empty" without vaults |
| KeyRing.LockKeyRing | packages/keyring/service.ts:93-95 | locks and keeps every other field (vaults, listing, selection, store, sign-up, password, migration flags); a signed-up key ring with vaults then reports Locked |
| KeyRing.RestoredSelection | packages/keyring/service.ts:51-59 | a persisted selection is restored iff it is a truthy id naming a vault |
| KeyRing.Init | packages/keyring/service.ts:39-66 | a migration is pending iff "migration/v1" is falsy and the legacy multi store is non-empty; a persisted selection that resolves is restored, otherwise the current selection is kept; the persisted selection then agrees with memory, so the invariant holds |
| KeyRingInvariants.CreatePreservesValid | packages/keyring/service.ts:488-504 | every create, successful or not, keeps the invariant |
| KeyRingInvariants.DeletePreservesValid | packages/keyring/service.ts:771-789 | deleting keeps the invariant: ids stay distinct and the selection never dangles |
| KeyRingInvariants.ApplyPreservesValid | packages/keyring/service.ts:341-354 | every operation keeps the invariant: distinct non-empty ids, listing equal to the stored vaults, a resolving selection, and a persisted selection equal to memory |
| KeyRingInvariants.ApplyKeepsCoinType | packages/keyring/service.ts:429-433 | write-once: after a vault's coin type is set, no operation changes it while the vault exists |
| KeyRingInvariants.RemoveIdDistinct | packages/keyring/service.ts:773 | removing an id from a listing of distinct ids leaves them distinct |
| Migration.Web3AuthMeta | packages/keyring/service.ts:210-217 | a private-key entry gets a web3Auth meta iff it has an email; that meta is exactly `{email, type}` with the type defaulting to "google" when the social type is empty |
| Migration.ConvertEntry | packages/keyring/service.ts:172-319 | an entry adds at most one vault, at the end of the listing, and selects it; older vaults stay untouched; an unknown type adds nothing; a success adds a vault iff the entry is a mnemonic, a private key, or a Ledger entry with a raw key or a cosmos key |
| Migration.ConvertMnemonic | packages/keyring/service.ts:172-197 | a success always adds exactly one vault: the mnemonic backend's record for the decrypted mnemonic at the entry's path (default 0/0/0), stamped with the entry's name (default "Keplr Account") |
| Migration.ConvertPrivateKey | packages/keyring/service.ts:198-230 | a success always adds exactly one vault: the private-key backend's record for the hex-decoded key, stamped with the entry's name and its web3Auth meta |
| Migration.ConvertLedger | packages/keyring/service.ts:231-318 | a created vault is a Ledger vault; a success adds one exactly when the payload is a raw key, or JSON with a cosmos key |
| Migration.ConvertLedgerJson | packages/keyring/service.ts:251-295 | no vault without a cosmos key; with one, a success adds exactly one vault, which has an Ethereum entry iff the payload has an ethereum key |
| Migration.AppendEthereum | packages/keyring/service.ts:275-285 | the Ethereum append on a new JSON-payload vault never throws, and touches only that vault |
| Migration.SetFlagEffect | packages/keyring/service.ts:321-323 | setting an entry's flag sets it, keeps every other flag, and spares the persisted selection |
| Migration.MigrateEntry | packages/keyring/service.ts:162-323 | a flagged entry is skipped unchanged; a processed entry with an id ends flagged, unknown types included; whether it succeeds or throws, no flag is lost and only the entry's own flag can be new; an unflagged success adds a vault iff the entry describes one |
| Migration.MigrateEntries | packages/keyring/service.ts:162-324 | the loop keeps the invariant, adds at most one vault per entry and loses no flag, also when it throws; it succeeds iff it gets through every entry, and every entry it got through before stopping is flagged if it has an id |
| Migration.Finish | packages/keyring/service.ts:326-335 | selects the vault of the legacy selected entry when it exists, then sets "migration/v1" and clears `needMigration` |
| Migration.Migrate | packages/keyring/service.ts:133-339 | throws if no migration is pending or one is running; `isMigrating` is cleared on every exit; `needMigration` clears only on success; no flag is lost, also on failure; success sets "migration/v1" and flags every entry with an id |
| Migration.MigrateBody | packages/keyring/service.ts:148-338 | throws "No key store to migrate" without legacy entries |
| Migration.UnlockKeyRing | packages/keyring/service.ts:105-111 | while a migration is pending it migrates; otherwise it unlocks iff signed up with the right password |
| Migration.CheckLegacyKeyRingPassword | packages/keyring/service.ts:113-131 | throws without a pending migration or without entries; otherwise succeeds iff the first entry decrypts |
| KeyRingProperties.LockThenUnlock | packages/keyring/service.ts:93-111 | with no migration pending, unlocking with the stored password undoes a lock exactly; another password leaves it locked |
| KeyRingProperties.EntryNeedsDecrypt | packages/keyring/service.ts:172-244 | an entry of a known type that is not skipped converts only if it decrypts |
| KeyRingProperties.MigrationPassesPasswordCheck | packages/keyring/service.ts:113-131 | a migration that succeeds, with an unmigrated known-type first entry, implies the legacy password check accepts the same password |
| KeyRingProperties.InitKeepsConsistentSelection | packages/keyring/service.ts:51-66 | re-running `init` on a consistent key ring keeps its selection and the invariant |
| Bip44.OverflowingAccountRejected | packages/keyring/service.ts:1124-1137 | a path whose account overflows a double parses to `Infinity` and its check throws "Invalid account" |
| KeyRingProperties.CreatedMnemonicIsFinalized | packages/keyring/service.ts:488-490 | a fresh mnemonic vault needs no finalisation, and finalising it throws "already finalized" |
| KeyRingProperties.FinalizeWithZeroIsNotFinal | packages/keyring/service.ts:429-433 | a stored coin type of 0 counts as unset, so the vault can be finalised again |
| KeyRingProperties.SignFinalizesOnce | packages/keyring/service.ts:876-895 | signing with an unfinalised vault fixes its coin type at 118; later finalisation throws |
| KeyRingProperties.SyncThrowDoesNotFinalize | packages/keyring/service.ts:886-895 | a synchronous backend throw leaves the vault needing finalisation |
| KeyRingProperties.LedgerCreateThenGetPubKey | packages/keyring/service.ts:587-623 | a Ledger key ring created for Cosmos yields its public key back through the service |
| KeyRingProperties.LedgerVaultNeverSigns | packages/keyring-ledger/service.ts:64-72 | signing with a Ledger vault throws and changes nothing, not even the coin type |
| KeyRingProperties.AppendTwiceFails | packages/keyring/service.ts:717-719 | the same app cannot be appended twice |
| KeyRingProperties.KeystoneRejectsChangeOutOfRange | packages/keyring/service.ts:638-641 | a keystone export holding a path with change 2 or more is refused |
| KeyRingProperties.DeleteLastEmpties | packages/keyring/service.ts:786-789 | deleting the only vault signs out, empties the key ring and clears the selection |
| KeyRingProperties.DeleteSelectedReselects | packages/keyring/service.ts:775-783 | deleting the selected vault while others remain selects the first remaining one |
| KeyRingProperties.AtMostOneSelected | packages/keyring/service.ts:377-385 | at most one key info is marked selected |
| KeyRingProperties.SelectionSurvivesRestart | packages/keyring/service.ts:51-66 | the persisted selection round-trips: `init` restores the vault last selected |
| KeyRingProperties.SkippedEntriesChangeNothing | packages/keyring/service.ts:162-170 | a loop over flagged entries changes nothing |
| KeyRingProperties.MigrationIsNotRepeated | packages/keyring/service.ts:162-170 | after a successful migration the same entries, all with ids, are all skipped |
| KeyRingProperties.UnknownEntryIsFlagged | packages/keyring/service.ts:316-323 | an unknown-type entry with an id is flagged and creates no vault |
| KeyRingProperties.OneVaultPerEntry | packages/keyring/service.ts:162-324 | a successful loop over unflagged entries with distinct ids, each describing a vault, adds exactly one vault per entry |
| KeyRingProperties.SkippedPrefix | packages/keyring/service.ts:162-170 | the loop over entries whose first `k` are flagged behaves as the loop over the remaining ones |
| KeyRingProperties.MigrateKeepsLoopFlags | packages/keyring/service.ts:142-338 | `migrate` runs its loop from the unlocked state; a loop that throws makes the migration throw and stay pending, and the flags it set survive |
| KeyRingProperties.FailedMigrationRetry | packages/keyring/service.ts:162-323 | a migration that stops at entry `k` fails and stays pending with the entries before `k` flagged, so running the loop again skips them and creates none of their vaults a second time |
| KeyRingProperties.SingleMnemonicMigration | packages/keyring/service.ts:133-338 | one legacy mnemonic entry, also the legacy selection, migrates into one selected mnemonic vault; the key ring ends unlocked |

## Left out

- Export and display operations are not modelled: `exportKeyRingVaults`, `exportKeyRingData`, `showSensitiveKeyRingData`. They decrypt and reshape data.
- `changeUserPassword` is not modelled. It only forwards to the vault service.
- `computeNotFinalizedKeyAddresses`, `computeCloreAIWalletInfo` and `isEthermintLike` are not modelled. They do bech32 address work, swallow errors, or read chain data the model does not have.
- `init`'s second autorun is not modelled. It counts vaults per type and discards the counts.
- The selection autorun is modelled as a synchronous write on every selection change. Reactive scheduling is not modelled.
- Concurrency between async calls is not modelled; every operation is one atomic step. For example, a second `migrate` started while the first awaits `unlock` is not covered.
- Cryptography is not modelled: legacy decryption, vault encryption, key derivation and signing. These are the function parameters in `Backends` and `Legacy.Crypto`.
- Migration.ConvertLedger: the test that decides between a JSON payload and a raw hex key is a parameter. It depends on how Buffer partially decodes hex.
- Hex.FromHex decodes the leading run of hex-digit pairs and stops at the first bad pair. Buffer's handling of other malformed input is not modelled.
- Numbers are exact integers, with a non-integral and a NaN case. Precision loss above 2^53 is not modelled; a digit group at or past 2^1024 - 2^970 becomes `Infinity`, as `+` does.
- The `console.log` calls are not modelled (service.ts:318, 421, 501, 541, 580). The one at 501 prints a new mnemonic in clear; logging has no effect on state.
- `PubKeySecp256k1`'s own checks on key length are not modelled; a public key is its bytes.
- The vault service's internals are left out: random ids, encryption, and sensitive halves of vaults. The model keeps only what the core observes.
- The Capacitor Preferences provider is not modelled. The store's provider is a map that returns the single stored entry or nothing.
- All UI, routing, hooks and constants are not modelled.
