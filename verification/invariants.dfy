/** The state invariant `KeyRing.Valid` and the write-once coin-type tag, shown
    to survive every operation of the orchestrator. */
module KeyRingInvariants {

  import opened Wrappers
  import opened Json
  import opened Errors
  import opened Hex
  import opened Bip44
  import CRStore
  import Ledger = LedgerKeyRing
  import opened KeyRing

  /** The operations a caller can invoke on a running key ring. */
  datatype Op =
    | CreateMnemonic(mnemonic: string, path: HDPath, name: string, password: Option<string>)
    | CreatePrivateKey(privateKey: seq<Byte>, meta: Json, name: string, password: Option<string>)
    | CreateLedger(pubKey: seq<Byte>, app: string, path: HDPath, name: string, password: Option<string>)
    | CreateKeystone(accounts: MultiAccounts, name: string, password: Option<string>)
    | Select(id: string)
    | Rename(id: string, name: string)
    | Finalize(id: string, coinType: Json)
    | AppendLedger(id: string, pubKey: seq<Byte>, app: string)
    | Delete(id: string, userPassword: string)
    | SignWith(id: string, data: seq<Byte>, digest: Ledger.DigestMethod)
    | Lock

  /** The state after `op`; an operation that throws without side effects leaves it as it was. */
  function Apply(b: Backends, s: State, op: Op): State {
    match op
    case CreateMnemonic(m, p, n, pw) => CreateMnemonicKeyRing(b, s, m, p, n, pw).state
    case CreatePrivateKey(k, meta, n, pw) => CreatePrivateKeyKeyRing(b, s, k, meta, n, pw).state
    case CreateLedger(k, app, p, n, pw) => CreateLedgerKeyRing(s, k, app, p, n, pw).state
    case CreateKeystone(a, n, pw) => CreateKeystoneKeyRing(b, s, a, n, pw).state
    case Select(id) => SelectKeyRing(s, id).GetOr(s)
    case Rename(id, n) => ChangeKeyRingName(s, id, n).GetOr(s)
    case Finalize(id, c) => FinalizeKeyCoinType(s, id, c).GetOr(s)
    case AppendLedger(id, k, app) => AppendLedgerKeyRing(s, id, k, app).GetOr(s)
    case Delete(id, pw) => DeleteKeyRing(s, id, pw).state
    case SignWith(id, d, m) => Sign(b, s, id, d, m).state
    case Lock => LockKeyRing(s)
  }

  // ---------------------------------------------------------------------------
  // Distinct listings

  lemma AppendFreshDistinct(ids: seq<string>, id: string)
    requires DistinctIds(ids) && id !in ids
    ensures DistinctIds(ids + [id])
  {
    var r := ids + [id];
    forall i, j | 0 <= i < j < |r| ensures r[i] != r[j] {
      if j == |ids| {
        assert r[i] == ids[i];
      } else {
        assert r[i] == ids[i] && r[j] == ids[j];
      }
    }
  }

  lemma {:induction false} RemoveIdDistinct(ids: seq<string>, id: string)
    requires DistinctIds(ids)
    ensures DistinctIds(RemoveId(ids, id))
  {
    if |ids| > 0 {
      var tail := ids[1..];
      forall i, j | 0 <= i < j < |tail| ensures tail[i] != tail[j] {
        assert tail[i] == ids[i + 1] && tail[j] == ids[j + 1];
      }
      RemoveIdDistinct(tail, id);
      var rest := RemoveId(tail, id);
      if ids[0] != id {
        assert ids[0] !in tail by {
          forall k | 0 <= k < |tail| ensures tail[k] != ids[0] {
            assert tail[k] == ids[k + 1];
          }
        }
        var r := [ids[0]] + rest;
        assert r == RemoveId(ids, id);
        forall i, j | 0 <= i < j < |r| ensures r[i] != r[j] {
          assert r[j] == rest[j - 1] && r[j] in rest;
          if i > 0 {
            assert r[i] == rest[i - 1];
          }
        }
      }
    }
  }

  // ---------------------------------------------------------------------------
  // Valid is preserved

  /** Any create keeps the invariant, whether it succeeds or fails. */
  lemma CreatePreservesValid(s: State, password: Option<string>, check: Result<(), Error>, data: Result<Bag, Error>, fields: Bag)
    requires Valid(s)
    ensures Valid(CreateKeyRing(s, password, check, data, fields).state)
  {
    var r := CreateKeyRing(s, password, check, data, fields);
    if r.ret.Ok? {
      AppendFreshDistinct(s.order, r.ret.value);
      CRStore.SetThenGet(Store, s.kv, SelectedVaultIdKey, Str(r.ret.value));
    }
  }

  /** Deleting keeps the invariant: the listing stays distinct, a deleted selection
      moves to the first remaining vault, and an emptied key ring has no selection. */
  lemma DeletePreservesValid(s: State, id: string, password: string)
    requires Valid(s)
    ensures Valid(DeleteKeyRing(s, id, password).state)
  {
    var r := DeleteKeyRing(s, id, password);
    if r.ret.Ok? {
      RemoveIdDistinct(s.order, id);
      var rest := RemoveId(s.order, id);
      if r.ret.value {
        var sel := if |rest| > 0 then Some(rest[0]) else None;
        CRStore.SetThenGet(Store, s.kv, SelectedVaultIdKey, SelectionJson(sel));
      } else {
        assert SelectedVaultId(s).value != id;
        if s.selected.None? {
          assert s.order[0] in rest;
        } else {
          assert s.selected.value in rest;
        }
      }
    }
  }

  /** Every operation keeps the invariant. */
  lemma ApplyPreservesValid(b: Backends, s: State, op: Op)
    requires Valid(s)
    ensures Valid(Apply(b, s, op))
  {
    match op {
      case CreateMnemonic(m, p, n, pw) =>
        CreatePreservesValid(s, pw, ValidateBIP44Path(p), b.mnemonicVault(m, p),
          TypeFields(n, MnemonicType)[CoinTypeTag := Num(Integral(DefaultCoinType))]);
      case CreatePrivateKey(k, meta, n, pw) =>
        CreatePreservesValid(s, pw, Ok(()), b.privateKeyVault(k), TypeFields(n, PrivateKeyType)["keyRingMeta" := meta]);
      case CreateLedger(k, app, p, n, pw) =>
        CreatePreservesValid(s, pw, ValidateBIP44Path(p), Ok(Ledger.CreateKeyRingVault(k, app, p).insensitive),
          TypeFields(n, Ledger.SupportedKeyRingType()));
      case CreateKeystone(a, n, pw) =>
        CreatePreservesValid(s, pw, CheckKeyPaths(a.keyPaths), b.keystoneVault(a),
          TypeFields(n, KeystoneType)[CoinTypeTag := Num(Integral(DefaultCoinType))]);
      case Delete(id, pw) =>
        DeletePreservesValid(s, id, pw);
      case _ =>
    }
  }

  // ---------------------------------------------------------------------------
  // The coin-type tag is written once

  /** Once a vault's coin type is finalised, no operation changes it: the vault
      either keeps the same tag value or is gone. */
  lemma ApplyKeepsCoinType(b: Backends, s: State, op: Op, id: string)
    requires id in s.order && id in s.vaults && CoinTypeSet(s.vaults[id])
    ensures KeepsCoinType(s, Apply(b, s, op), id)
  {
    if op.CreateMnemonic? || op.CreatePrivateKey? || op.CreateLedger? || op.CreateKeystone? {
      CreateKeepsCoinType(b, s, op, id);
    } else if op.Rename? || op.Finalize? || op.AppendLedger? {
      EditKeepsCoinType(b, s, op, id);
    } else {
      OtherKeepsCoinType(b, s, op, id);
    }
  }

  /** The coin type of `id` in `t` is set and is the one it had in `s`, if `id` is still there. */
  ghost predicate KeepsCoinType(s: State, t: State, id: string)
    requires id in s.vaults && CoinTypeSet(s.vaults[id])
  {
    id in t.vaults ==> CoinTypeSet(t.vaults[id]) && t.vaults[id][CoinTypeTag] == s.vaults[id][CoinTypeTag]
  }

  /** A create adds a vault under a fresh id and leaves the others alone. */
  lemma CreateKeepsCoinType(b: Backends, s: State, op: Op, id: string)
    requires op.CreateMnemonic? || op.CreatePrivateKey? || op.CreateLedger? || op.CreateKeystone?
    requires id in s.order && id in s.vaults && CoinTypeSet(s.vaults[id])
    ensures KeepsCoinType(s, Apply(b, s, op), id)
  {
  }

  /** Renaming and appending touch other fields; finalizing refuses a vault whose coin type is set. */
  lemma EditKeepsCoinType(b: Backends, s: State, op: Op, id: string)
    requires op.Rename? || op.Finalize? || op.AppendLedger?
    requires id in s.order && id in s.vaults && CoinTypeSet(s.vaults[id])
    ensures KeepsCoinType(s, Apply(b, s, op), id)
  {
    match op {
      case Finalize(v, c) => FinalizeKeepsCoinType(s, v, c, id);
      case Rename(v, n) => RenameKeepsCoinType(s, v, n, id);
      case AppendLedger(_, _, _) =>
    }
  }

  lemma FinalizeKeepsCoinType(s: State, v: string, c: Json, id: string)
    requires id in s.vaults && CoinTypeSet(s.vaults[id])
    ensures KeepsCoinType(s, FinalizeKeyCoinType(s, v, c).GetOr(s), id)
  {
    if v == id {
      assert FinalizeKeyCoinType(s, v, c).Err?;
    }
  }

  lemma RenameKeepsCoinType(s: State, v: string, n: string, id: string)
    requires id in s.vaults && CoinTypeSet(s.vaults[id])
    ensures KeepsCoinType(s, ChangeKeyRingName(s, v, n).GetOr(s), id)
  {
    assert CoinTypeTag != "keyRingName";
  }

  /** Selecting, deleting, signing and locking rewrite no vault's coin type. */
  lemma OtherKeepsCoinType(b: Backends, s: State, op: Op, id: string)
    requires op.Select? || op.Delete? || op.SignWith? || op.Lock?
    requires id in s.order && id in s.vaults && CoinTypeSet(s.vaults[id])
    ensures KeepsCoinType(s, Apply(b, s, op), id)
  {
  }
}
