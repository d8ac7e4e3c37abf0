/**
 * The user manager's login state: the wallet (present or absent), the
 * metadata read from and written to the user's metadata file, and whether
 * the keystore is still protected by the default password.
 *
 * The state changes are written twice: as pure steps on an `Account` value,
 * about which the lemmas speak, and as the `UserManager` class whose methods
 * assign its fields as the program does and are proved to take those steps.
 * What the file system, the keystore decryption and wallet generation
 * produce is passed in, since they are outside the model.
 */
module Accounts {
  import opened Wrappers
  import Identity

  /** `DEFAULT_PASSWORD`, used for the keystore created on first start. */
  const DefaultPassword: string := "pystart"

  /** A wallet, reduced to its address and its mnemonic; a wallet unlocked from a legacy keystore has none. */
  datatype Wallet = Wallet(address: string, mnemonic: Option<string>)

  /** The JSON values that occur in the metadata. */
  datatype MetaValue = MBool(b: bool) | MText(s: string) | MNull

  /** Python truthiness of a metadata value. */
  predicate Truthy(v: MetaValue) {
    match v
    case MBool(b) => b
    case MText(s) => s != []
    case MNull => false
  }

  type Metadata = map<string, MetaValue>

  /** `metadata.get(key, False)`. */
  function Get(md: Metadata, key: string): (v: MetaValue)
    ensures key !in md ==> v == MBool(false)
    ensures key in md ==> v == md[key]
  {
    if key in md then md[key] else MBool(false)
  }

  /** What reading the metadata file gives: no file, a JSON object, or an error. */
  datatype MetadataFile = Missing | Parsed(contents: Metadata) | Unreadable

  /** `_load_metadata`: a missing file keeps what is loaded, a readable one replaces it, a broken one clears it. */
  function LoadedMetadata(current: Metadata, file: MetadataFile): (r: Metadata)
    ensures file.Missing? ==> r == current
    ensures file.Parsed? ==> r == file.contents
    ensures file.Unreadable? ==> r == map[]
  {
    match file
    case Missing => current
    case Parsed(contents) => contents
    case Unreadable => map[]
  }

  /** Loading twice from the same file is loading once. */
  lemma LoadIdempotent(current: Metadata, file: MetadataFile)
    ensures LoadedMetadata(LoadedMetadata(current, file), file) == LoadedMetadata(current, file)
  {
  }

  /**
   * What the keystore gives for one password: whether a keystore file
   * exists, what the metadata file holds, and whether decrypting the
   * keystore in the legacy format (yielding the account's address) and in
   * the mnemonic-wallet format succeeds.
   */
  datatype Keystore = Keystore(present: bool, metadataFile: MetadataFile, legacy: Option<string>, hd: Option<Wallet>)

  /** The user manager's state. */
  datatype Account = Account(wallet: Option<Wallet>, metadata: Metadata, isDefaultPassword: bool)

  function Initial(): Account {
    Account(None, map[], false)
  }

  predicate IsLoggedIn(a: Account) {
    a.wallet.Some?
  }

  /** The address of the logged-in wallet, or the empty string. */
  function Address(a: Account): string {
    if a.wallet.Some? then a.wallet.value.address else ""
  }

  /** The address as shown in the menu. */
  function ShortAddressOf(a: Account): (r: string)
    ensures !IsLoggedIn(a) ==> r == ""
    ensures |r| <= 17
  {
    Identity.ShortAddressIdempotent(Address(a));
    Identity.ShortAddress(Address(a))
  }

  /** `logout`. */
  function LoggedOut(a: Account): Account {
    Account(None, map[], false)
  }

  /**
   * `change_password`: without a wallet nothing happens; when the keystore
   * is saved under the new password, the metadata records that the default
   * password is no longer in use.
   */
  function PasswordChanged(a: Account, saved: bool): (Account, bool) {
    if a.wallet.None? || !saved then (a, false)
    else (a.(metadata := a.metadata["default_password" := MBool(false)], isDefaultPassword := false), true)
  }

  /** The wallet `login` opens for a keystore, in the format the metadata names. */
  function OpenedWallet(md: Metadata, ks: Keystore): Option<Wallet> {
    if Truthy(Get(md, "legacy_format")) then
      match ks.legacy
      case None => None
      case Some(address) => Some(Wallet(address, None))
    else ks.hd
  }

  /**
   * `login`: with no keystore nothing happens; otherwise the metadata is
   * loaded and the keystore unlocked in the format it names. A failure to
   * open keeps the wallet and the flag but not the metadata loaded before
   * it; success records whether the default password was used.
   */
  function LoggedIn(a: Account, password: string, ks: Keystore): (Account, bool) {
    if !ks.present then (a, false)
    else
      var md := LoadedMetadata(a.metadata, ks.metadataFile);
      var unlocked := OpenedWallet(md, ks);
      if unlocked.None? then (a.(metadata := md), false)
      else (Account(unlocked, md, password == DefaultPassword && Truthy(Get(md, "default_password"))), true)
  }

  /**
   * `auto_login`: when a keystore exists and the metadata says that the
   * default password protects it, log in with the default password.
   */
  function AutoLoggedIn(a: Account, ks: Keystore): (Account, bool) {
    if !ks.present then (a, false)
    else
      var a1 := a.(metadata := LoadedMetadata(a.metadata, ks.metadataFile));
      if !Truthy(Get(a1.metadata, "default_password")) then (a1, false)
      else
        var (a2, ok) := LoggedIn(a1, DefaultPassword, ks);
        if ok then (a2.(isDefaultPassword := true), true) else (a2, false)
  }

  /**
   * `import_from_mnemonic`: a wallet derived from the mnemonic and saved
   * under the chosen password becomes the user, with metadata saying the
   * default password is not in use; any failure leaves no wallet.
   */
  function Imported(a: Account, derived: Option<Wallet>, saved: bool, timestamp: string): (Account, bool) {
    if derived.None? || !saved then (a.(wallet := None), false)
    else
      var w := derived.value;
      (Account(derived, map["address" := MText(w.address), "imported_at" := MText(timestamp), "default_password" := MBool(false)], false), true)
  }

  /**
   * `auto_create_user`: a newly generated wallet saved under the default
   * password becomes the user, with metadata saying so; any failure leaves
   * no wallet.
   */
  function AutoCreated(a: Account, generated: Option<Wallet>, saved: bool, timestamp: string): (Account, bool) {
    if generated.None? || !saved then (a.(wallet := None), false)
    else
      var w := generated.value;
      (Account(generated, map["address" := MText(w.address), "created_at" := MText(timestamp), "default_password" := MBool(true)], true), true)
  }

  // ---------------------------------------------------------------------
  // Properties of the steps

  /** After logging out no wallet, no metadata and no default-password flag remain, and no address is shown. */
  lemma LogoutClears(a: Account)
    ensures !IsLoggedIn(LoggedOut(a)) && LoggedOut(a).metadata == map[] && !LoggedOut(a).isDefaultPassword
    ensures ShortAddressOf(LoggedOut(a)) == ""
    ensures LoggedOut(a) == Initial()
  {
  }

  /** Changing the password without a wallet fails and changes nothing. */
  lemma ChangePasswordWithoutWallet(a: Account, saved: bool)
    requires !IsLoggedIn(a)
    ensures PasswordChanged(a, saved) == (a, false)
  {
  }

  /**
   * A successful password change keeps the wallet, clears the flag, records
   * `default_password` as false and leaves every other metadata entry alone;
   * it succeeds exactly when there is a wallet and the keystore was saved.
   */
  lemma ChangePasswordEffect(a: Account, saved: bool)
    ensures PasswordChanged(a, saved).1 <==> IsLoggedIn(a) && saved
    ensures var (b, ok) := PasswordChanged(a, saved);
      ok ==> && b.wallet == a.wallet && !b.isDefaultPassword
             && Get(b.metadata, "default_password") == MBool(false)
             && forall k :: k != "default_password" ==> (k in b.metadata <==> k in a.metadata) && Get(b.metadata, k) == Get(a.metadata, k)
    ensures !PasswordChanged(a, saved).1 ==> PasswordChanged(a, saved).0 == a
  {
  }

  /**
   * A successful login sets the default-password flag exactly when the
   * password is the default one and the loaded metadata says the default
   * password is in use.
   */
  lemma LoginDefaultFlag(a: Account, password: string, ks: Keystore)
    ensures var (b, ok) := LoggedIn(a, password, ks);
      ok ==> (b.isDefaultPassword <==> password == DefaultPassword && Truthy(Get(b.metadata, "default_password")))
  {
  }

  /** Login succeeds exactly when a keystore exists and it opens in the format the metadata names, and then the user is logged in. */
  lemma LoginOutcome(a: Account, password: string, ks: Keystore)
    ensures var (b, ok) := LoggedIn(a, password, ks);
      && (ok <==> ks.present && OpenedWallet(LoadedMetadata(a.metadata, ks.metadataFile), ks).Some?)
      && (ok ==> IsLoggedIn(b))
      && (!ok ==> b.wallet == a.wallet && b.isDefaultPassword == a.isDefaultPassword)
  {
  }

  /** A wallet unlocked from a legacy keystore has no mnemonic. */
  lemma LegacyWalletHasNoMnemonic(a: Account, password: string, ks: Keystore)
    requires ks.present && Truthy(Get(LoadedMetadata(a.metadata, ks.metadataFile), "legacy_format"))
    ensures var (b, ok) := LoggedIn(a, password, ks);
      ok ==> b.wallet.value.mnemonic.None? && ks.legacy == Some(b.wallet.value.address)
  {
  }

  /**
   * Automatic login succeeds exactly when a keystore exists, the metadata
   * says the default password is in use and the keystore opens with it;
   * then the user is logged in with the flag set.
   */
  lemma AutoLoginOutcome(a: Account, ks: Keystore)
    ensures var (b, ok) := AutoLoggedIn(a, ks);
      var md := LoadedMetadata(a.metadata, ks.metadataFile);
      && (ok <==> ks.present && Truthy(Get(md, "default_password")) && OpenedWallet(md, ks).Some?)
      && (ok ==> IsLoggedIn(b) && b.isDefaultPassword)
  {
    if ks.present {
      LoadIdempotent(a.metadata, ks.metadataFile);
    }
  }

  /** After a successful automatic login, the flag is the one an ordinary login with the default password sets. */
  lemma AutoLoginAgreesWithLogin(a: Account, ks: Keystore)
    ensures var (b, ok) := AutoLoggedIn(a, ks);
      ok ==> LoggedIn(a, DefaultPassword, ks) == (b, true)
  {
    if ks.present {
      LoadIdempotent(a.metadata, ks.metadataFile);
    }
  }

  /** A failed import leaves no one logged in; a successful one logs in the derived wallet without the default flag. */
  lemma ImportOutcome(a: Account, derived: Option<Wallet>, saved: bool, timestamp: string)
    ensures var (b, ok) := Imported(a, derived, saved, timestamp);
      && (ok <==> derived.Some? && saved)
      && (!ok ==> !IsLoggedIn(b))
      && (ok ==> b.wallet == derived && !b.isDefaultPassword && !Truthy(Get(b.metadata, "default_password"))
                 && Get(b.metadata, "address") == MText(derived.value.address))
  {
  }

  /**
   * Once the password was changed and the metadata saved, logging in again
   * reads the saved metadata and never sets the default flag, even with the
   * default password.
   */
  lemma NoDefaultAfterChange(a: Account, saved: bool, password: string, ks: Keystore)
    requires PasswordChanged(a, saved).1
    requires ks.metadataFile == Parsed(PasswordChanged(a, saved).0.metadata)
    ensures !LoggedIn(PasswordChanged(a, saved).0, password, ks).0.isDefaultPassword
  {
  }

  /**
   * A user created automatically is logged in again automatically at the
   * next start, when the saved metadata is read back and the keystore opens
   * with the default password.
   */
  lemma AutoCreateThenAutoLogin(generated: Wallet, timestamp: string, ks: Keystore)
    requires ks.present && ks.hd.Some?
    requires ks.metadataFile == Parsed(AutoCreated(Initial(), Some(generated), true, timestamp).0.metadata)
    ensures AutoLoggedIn(Initial(), ks).1
    ensures AutoLoggedIn(Initial(), ks).0.isDefaultPassword
  {
    var md := AutoCreated(Initial(), Some(generated), true, timestamp).0.metadata;
    assert Get(md, "default_password") == MBool(true);
    assert Get(md, "legacy_format") == MBool(false);
    AutoLoginOutcome(Initial(), ks);
  }

  // ---------------------------------------------------------------------
  // The user manager

  class UserManager {
    var wallet: Option<Wallet>
    var metadata: Metadata
    var isDefaultPassword: bool

    function Snapshot(): Account
      reads this
    {
      Account(wallet, metadata, isDefaultPassword)
    }

    constructor ()
      ensures Snapshot() == Initial()
    {
      wallet := None;
      metadata := map[];
      isDefaultPassword := false;
    }

    method Logout()
      modifies this
      ensures Snapshot() == LoggedOut(old(Snapshot()))
    {
      wallet := None;
      metadata := map[];
      isDefaultPassword := false;
    }

    method LoadMetadata(file: MetadataFile)
      modifies this
      ensures Snapshot() == old(Snapshot()).(metadata := LoadedMetadata(old(metadata), file))
    {
      match file
      case Missing =>
      case Parsed(contents) => metadata := contents;
      case Unreadable => metadata := map[];
    }

    method ChangePassword(saved: bool) returns (ok: bool)
      modifies this
      ensures (Snapshot(), ok) == PasswordChanged(old(Snapshot()), saved)
    {
      if wallet.None? {
        return false;
      }
      if !saved {
        return false;
      }
      metadata := metadata["default_password" := MBool(false)];
      isDefaultPassword := false;
      return true;
    }

    method Login(password: string, ks: Keystore) returns (ok: bool)
      modifies this
      ensures (Snapshot(), ok) == LoggedIn(old(Snapshot()), password, ks)
    {
      if !ks.present {
        return false;
      }
      LoadMetadata(ks.metadataFile);
      var unlocked: Option<Wallet>;
      if Truthy(Get(metadata, "legacy_format")) {
        if ks.legacy.None? {
          return false;
        }
        unlocked := Some(Wallet(ks.legacy.value, None));
      } else {
        if ks.hd.None? {
          return false;
        }
        unlocked := ks.hd;
      }
      wallet := unlocked;
      isDefaultPassword := password == DefaultPassword && Truthy(Get(metadata, "default_password"));
      return true;
    }

    method AutoLogin(ks: Keystore) returns (ok: bool)
      modifies this
      ensures (Snapshot(), ok) == AutoLoggedIn(old(Snapshot()), ks)
    {
      if !ks.present {
        return false;
      }
      LoadMetadata(ks.metadataFile);
      if Truthy(Get(metadata, "default_password")) {
        var loggedIn := Login(DefaultPassword, ks);
        if loggedIn {
          isDefaultPassword := true;
          return true;
        }
      }
      return false;
    }

    method ImportFromMnemonic(derived: Option<Wallet>, saved: bool, timestamp: string) returns (ok: bool)
      modifies this
      ensures (Snapshot(), ok) == Imported(old(Snapshot()), derived, saved, timestamp)
    {
      wallet := derived;
      if derived.None? || !saved {
        wallet := None;
        return false;
      }
      metadata := map["address" := MText(derived.value.address), "imported_at" := MText(timestamp), "default_password" := MBool(false)];
      isDefaultPassword := false;
      return true;
    }

    method AutoCreateUser(generated: Option<Wallet>, saved: bool, timestamp: string) returns (ok: bool)
      modifies this
      ensures (Snapshot(), ok) == AutoCreated(old(Snapshot()), generated, saved, timestamp)
    {
      wallet := generated;
      if generated.None? || !saved {
        wallet := None;
        return false;
      }
      isDefaultPassword := true;
      metadata := map["address" := MText(generated.value.address), "created_at" := MText(timestamp), "default_password" := MBool(true)];
      return true;
    }
  }
}
