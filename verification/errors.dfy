/** The errors the key-ring core throws, one constructor per distinct message. */
module Errors {

  datatype Error =
    | KeyRingLocked              // "KeyRing is locked"
    | VaultNotFound              // "Vault is null"
    | UnknownVault               // "Unknown vault" (selectKeyRing)
    | KeyRingEmpty               // "Key ring is empty" (selectedVaultId getter)
    | NotFinalizable             // "Key is not needed to be finalized"
    | CoinTypeAlreadyFinalized   // "Coin type is already finalized"
    | PasswordRequired           // "Must provide password to sign in to vault"
    | InvalidAccount             // "Invalid account in hd path"
    | InvalidChange              // "Invalid change in hd path"
    | InvalidAddressIndex        // "Invalid address index in hd path"
    | InvalidHdPath              // "Invalid BIP44 hd path"
    | NotLedger                  // "Key is not from ledger"
    | AppAlreadyAppended         // "App is already appended"
    | UnsupportedKeyRing         // "Unsupported keyRing vault"
    | LedgerNotInitialized(app: string)  // "Ledger is not initialized for <app>"
    | MalformedLedgerEntry       // reading `.pubKey` of an app entry that is not an object holding a string
    | LedgerCannotSign           // "Ledger can't sign message in background. ..."
    | MigrationNotNeeded         // "Migration is not needed"
    | MigrationInProgress        // "Migration is already in progress"
    | NoKeyStoreToMigrate        // "No key store to migrate"
    | WrongPassword              // the vault service rejecting a password
    | Collaborator(message: string)  // an error raised by a backend or the legacy decryptor
}
