/** The Ledger key-ring backend. A Ledger vault keeps, per device app, the hex
    public key the device reported; it holds no secret and never signs. */
module LedgerKeyRing {

  import opened Wrappers
  import opened Json
  import opened Errors
  import opened Hex
  import opened Bip44

  /** A secp256k1 public key, constructed from raw bytes. */
  datatype PubKey = PubKey(bytes: seq<Byte>)

  /** `{r, s, v}`. */
  datatype Signature = Signature(r: seq<Byte>, s: seq<Byte>, v: Option<int>)

  datatype DigestMethod = Sha256 | Keccak256

  /** What a backend's `createKeyRingVault` returns. */
  datatype VaultData = VaultData(insensitive: Bag, sensitive: Bag)

  const LedgerType := "ledger"

  /** `supportedKeyRingType`. */
  function SupportedKeyRingType(): (t: string)
    ensures t == LedgerType
  {
    "ledger"
  }

  /** A BIP44 path as stored in a plain object. */
  function PathJson(p: HDPath): Json {
    Obj(map["account" := Num(p.account), "change" := Num(p.change), "addressIndex" := Num(p.addressIndex)])
  }

  /** `{pubKey: <hex>}`, one app's entry. */
  function AppEntry(pubKey: seq<Byte>): Json {
    Obj(map["pubKey" := Str(ToHex(pubKey))])
  }

  /** `createKeyRingVault(pubKey, app, bip44Path)`. */
  function CreateKeyRingVault(pubKey: seq<Byte>, app: string, path: HDPath): (r: VaultData)
    ensures r.sensitive == map[]
    ensures r.insensitive.Keys == {app, "bip44Path"}
    ensures r.insensitive["bip44Path"] == PathJson(path)
    ensures app != "bip44Path" ==> r.insensitive[app] == AppEntry(pubKey)
  {
    VaultData(map[app := AppEntry(pubKey)]["bip44Path" := PathJson(path)], map[])
  }

  /** The app whose entry supplies the public key: Cosmos, unless a Terra
      entry exists, unless a Secret entry exists. */
  function SelectApp(insensitive: Bag): (app: string)
    ensures app == "Secret" <==> FieldTruthy(insensitive, "Secret")
    ensures app == "Terra" <==> !FieldTruthy(insensitive, "Secret") && FieldTruthy(insensitive, "Terra")
    ensures app == "Cosmos" <==> !FieldTruthy(insensitive, "Secret") && !FieldTruthy(insensitive, "Terra")
  {
    var app := "Cosmos";
    var app := if FieldTruthy(insensitive, "Terra") then "Terra" else app;
    if FieldTruthy(insensitive, "Secret") then "Secret" else app
  }

  /** The hex text of an app entry's `pubKey`, when the entry is an object holding a string. */
  function EntryPubKey(entry: Json): Option<string> {
    if entry.Obj? && "pubKey" in entry.fields && entry.fields["pubKey"].Str? then
      Some(entry.fields["pubKey"].s)
    else None
  }

  /** `getPubKey(vault, coinType)`; the coin type plays no part. */
  function GetPubKey(insensitive: Bag, coinType: Json): (r: Result<PubKey, Error>)
    ensures !FieldTruthy(insensitive, SelectApp(insensitive)) ==>
              r == Err(LedgerNotInitialized(SelectApp(insensitive)))
    ensures r.Ok? <==> FieldTruthy(insensitive, SelectApp(insensitive)) &&
                       EntryPubKey(insensitive[SelectApp(insensitive)]).Some?
    ensures r.Ok? ==> r.value == PubKey(FromHex(EntryPubKey(insensitive[SelectApp(insensitive)]).value))
  {
    var app := SelectApp(insensitive);
    if !FieldTruthy(insensitive, app) then Err(LedgerNotInitialized(app))
    else
      match EntryPubKey(insensitive[app])
      case None => Err(MalformedLedgerEntry)
      case Some(hex) => Ok(PubKey(FromHex(hex)))
  }

  /** `sign`: a Ledger key never signs here; the device does. */
  function Sign(insensitive: Bag, coinType: Json, data: seq<Byte>, digest: DigestMethod): (r: Result<Signature, Error>)
    ensures r == Err(LedgerCannotSign)
  {
    Err(LedgerCannotSign)
  }

  /** A Cosmos entry written by `createKeyRingVault` yields the original key,
      as long as no Terra or Secret entry takes precedence. */
  lemma GetPubKeyOfCosmosEntry(insensitive: Bag, pubKey: seq<Byte>, coinType: Json)
    requires "Cosmos" in insensitive && insensitive["Cosmos"] == AppEntry(pubKey)
    requires !FieldTruthy(insensitive, "Terra") && !FieldTruthy(insensitive, "Secret")
    ensures GetPubKey(insensitive, coinType) == Ok(PubKey(pubKey))
  {
    FromHexToHex(pubKey);
  }

  /** Round trip: the vault built for the Cosmos app gives back its public key. */
  lemma CreateThenGetPubKey(pubKey: seq<Byte>, path: HDPath, coinType: Json)
    ensures GetPubKey(CreateKeyRingVault(pubKey, "Cosmos", path).insensitive, coinType) == Ok(PubKey(pubKey))
  {
    GetPubKeyOfCosmosEntry(CreateKeyRingVault(pubKey, "Cosmos", path).insensitive, pubKey, coinType);
  }

  /** The public key does not depend on the coin type asked for. */
  lemma GetPubKeyIgnoresCoinType(insensitive: Bag, c1: Json, c2: Json)
    ensures GetPubKey(insensitive, c1) == GetPubKey(insensitive, c2)
  {
  }

  /** A vault holding only an Ethereum entry has no Cosmos key to offer. */
  lemma EthereumOnlyIsNotInitialized(pubKey: seq<Byte>, path: HDPath, coinType: Json)
    ensures GetPubKey(CreateKeyRingVault(pubKey, "Ethereum", path).insensitive, coinType)
         == Err(LedgerNotInitialized("Cosmos"))
  {
  }
}
