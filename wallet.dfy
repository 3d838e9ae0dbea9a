/**
  The wallet context of the frontend: the shortened address shown in the
  navigation bar, and the session state that connecting, disconnecting and
  restoring a Freighter session change. Freighter's answers (is the extension
  there, is access granted, which address) are parameters, and the browser's
  local storage is a map that outlives a page reload.
*/
module Wallet {
  import opened Wrappers

  /** The local-storage key remembering that the user connected. */
  const FlagKey := "stellarmarket_wallet_connected"

  const NotInstalled := "Freighter wallet extension not found. Please install it from https://freighter.app"
  const FailedToConnect := "Failed to connect wallet"
  const FailedToRetrieve := "Failed to retrieve address"
  const Unexpected := "An unexpected error occurred while connecting the wallet"

  function Min(a: int, b: int): int { if a < b then a else b }

  /** `truncateAddress`: the first and last four characters around "...", or the whole address twice when it is shorter. */
  function TruncateAddress(address: string): (r: string)
    ensures var k := Min(4, |address|);
      && |r| == 2 * k + 3
      && r[..k] == address[..k]
      && r[k..k + 3] == "..."
      && r[k + 3..] == address[|address| - k..]
  {
    var k := Min(4, |address|);
    address[..k] + "..." + address[|address| - k..]
  }

  /** An address of eight characters or more shortens to eleven, the last four starting after the first four end. */
  lemma TruncateLongAddress(address: string)
    requires |address| >= 8
    ensures |TruncateAddress(address)| == 11
    ensures TruncateAddress(address) == address[..4] + "..." + address[|address| - 4..]
    ensures 4 <= |address| - 4
  {
    var r := TruncateAddress(address);
    assert r == r[..4] + r[4..7] + r[7..];
  }

  /** An address of at most four characters appears whole on both sides. */
  lemma TruncateShortAddress(address: string)
    requires |address| <= 4
    ensures TruncateAddress(address) == address + "..." + address
  {
    var r := TruncateAddress(address);
    var k := |address|;
    assert address[..k] == address && address[|address| - k..] == address;
    assert r == r[..k] + r[k..k + 3] + r[k + 3..];
  }

  /** What `freighterIsConnected()` gave: an answer, or an error result or a thrown exception. */
  datatype InstalledCheck = Answered(isConnected: bool) | CheckFailed

  /** What `requestAccess()` gave. */
  datatype AccessResult = Granted | Denied(message: Option<string>) | AccessThrew

  /** What `getAddress()` gave. */
  datatype AddressResult = Address(address: string) | AddressError(message: Option<string>) | AddressThrew

  /** `checkFreighterInstalled`'s verdict: a failed check counts as not installed. */
  function Installed(check: InstalledCheck): bool
  {
    match check
    case Answered(b) => b
    case CheckFailed => false
  }

  /** `message ?? fallback`. */
  function MessageOr(message: Option<string>, fallback: string): string
  {
    match message
    case Some(s) => s
    case None => fallback
  }

  /** The provider's state together with the local storage. */
  datatype WalletState = WalletState(
    address: Option<string>,
    isConnecting: bool,
    isFreighterInstalled: Option<bool>,
    error: Option<string>,
    storage: map<string, string>)

  /** A newly mounted provider over whatever local storage holds. */
  function Fresh(storage: map<string, string>): WalletState
  {
    WalletState(None, false, None, None, storage)
  }

  /** The stored flag says the user connected. */
  predicate Remembered(storage: map<string, string>)
  {
    FlagKey in storage && storage[FlagKey] == "true"
  }

  /**
    The state after `connect`: it succeeds, clearing the error, setting the
    address and remembering the connection, exactly when the extension is
    installed, access is granted and an address comes back; otherwise the error
    says which step failed and the address and storage are as before.
  */
  function AfterConnect(w: WalletState, check: InstalledCheck, access: AccessResult, addr: AddressResult): (r: WalletState)
    ensures !r.isConnecting
    ensures r.isFreighterInstalled == Some(Installed(check))
    ensures r.error.None? <==> Installed(check) && access.Granted? && addr.Address?
    ensures r.error.None? ==> r.address == Some(addr.address) && r.storage == w.storage[FlagKey := "true"]
    ensures r.error.Some? ==> r.address == w.address && r.storage == w.storage
    ensures !Installed(check) ==> r.error == Some(NotInstalled)
    ensures Installed(check) && access.Denied? ==> r.error == Some(MessageOr(access.message, FailedToConnect))
    ensures Installed(check) && access.Granted? && addr.AddressError? ==> r.error == Some(MessageOr(addr.message, FailedToRetrieve))
    ensures Installed(check) && (access.AccessThrew? || (access.Granted? && addr.AddressThrew?)) ==> r.error == Some(Unexpected)
  {
    var installed := Installed(check);
    var checked := w.(error := None, isFreighterInstalled := Some(installed), isConnecting := false);
    if !installed then checked.(error := Some(NotInstalled))
    else match access
      case Denied(message) => checked.(error := Some(MessageOr(message, FailedToConnect)))
      case AccessThrew => checked.(error := Some(Unexpected))
      case Granted =>
        match addr
        case AddressError(message) => checked.(error := Some(MessageOr(message, FailedToRetrieve)))
        case AddressThrew => checked.(error := Some(Unexpected))
        case Address(a) => checked.(address := Some(a), storage := w.storage[FlagKey := "true"])
  }

  /** The state after `disconnect`: no address, no error, nothing remembered. */
  function AfterDisconnect(w: WalletState): (r: WalletState)
    ensures r.address.None? && r.error.None? && !Remembered(r.storage)
    ensures r.storage == w.storage - {FlagKey}
    ensures r.isConnecting == w.isConnecting && r.isFreighterInstalled == w.isFreighterInstalled
  {
    w.(address := None, error := None, storage := w.storage - {FlagKey})
  }

  /**
    The state after `restoreSession`: without the remembered flag nothing
    happens; otherwise the extension is checked and, when it is installed, the
    address it reports is taken, or the flag is forgotten if it reports none.
  */
  function AfterRestore(w: WalletState, check: InstalledCheck, addr: AddressResult): (r: WalletState)
    ensures !Remembered(w.storage) ==> r == w
    ensures Remembered(w.storage) ==> r.isFreighterInstalled == Some(Installed(check))
    ensures Remembered(w.storage) && !Installed(check) ==> r == w.(isFreighterInstalled := Some(false))
    ensures Remembered(w.storage) && Installed(check) && addr.Address? ==>
      r.address == Some(addr.address) && r.storage == w.storage
    ensures Remembered(w.storage) && Installed(check) && !addr.Address? ==>
      r.address == w.address && r.storage == w.storage - {FlagKey}
    ensures r.error == w.error && r.isConnecting == w.isConnecting
  {
    if !Remembered(w.storage) then w
    else
      var checked := w.(isFreighterInstalled := Some(Installed(check)));
      if !Installed(check) then checked
      else match addr
        case Address(a) => checked.(address := Some(a))
        case _ => checked.(storage := w.storage - {FlagKey})
  }

  /** After a successful connect, reloading the page restores the address Freighter then reports. */
  lemma ReloadRestoresConnection(w: WalletState, check: InstalledCheck, access: AccessResult, addr: AddressResult,
                                 check': InstalledCheck, addr': AddressResult)
    requires AfterConnect(w, check, access, addr).error.None?
    requires Installed(check') && addr'.Address?
    ensures AfterRestore(Fresh(AfterConnect(w, check, access, addr).storage), check', addr').address == Some(addr'.address)
  {
    assert Remembered(AfterConnect(w, check, access, addr).storage);
  }

  /** After a disconnect, reloading the page leaves the new provider untouched, whatever Freighter says. */
  lemma DisconnectSurvivesReload(w: WalletState, check: InstalledCheck, addr: AddressResult)
    ensures AfterRestore(Fresh(AfterDisconnect(w).storage), check, addr) == Fresh(AfterDisconnect(w).storage)
  {
  }

  /** A failed connect changes neither the address nor what the next reload restores. */
  lemma FailedConnectKeepsSession(w: WalletState, check: InstalledCheck, access: AccessResult, addr: AddressResult,
                                  check': InstalledCheck, addr': AddressResult)
    requires AfterConnect(w, check, access, addr).error.Some?
    ensures AfterConnect(w, check, access, addr).address == w.address
    ensures AfterRestore(Fresh(AfterConnect(w, check, access, addr).storage), check', addr')
         == AfterRestore(Fresh(w.storage), check', addr')
  {
  }

  /** A restore that finds no address forgets the flag, so the reload after it does nothing. */
  lemma FailedRestoreIsFinal(storage: map<string, string>, check: InstalledCheck, addr: AddressResult,
                             check': InstalledCheck, addr': AddressResult)
    requires Installed(check) && !addr.Address?
    ensures var s := AfterRestore(Fresh(storage), check, addr).storage;
      AfterRestore(Fresh(s), check', addr') == Fresh(s)
  {
  }

  /** The `WalletProvider`'s state and the browser's local storage. */
  class WalletSession {
    var address: Option<string>
    var isConnecting: bool
    var isFreighterInstalled: Option<bool>
    var error: Option<string>
    var storage: map<string, string>

    function State(): WalletState
      reads this
    {
      WalletState(address, isConnecting, isFreighterInstalled, error, storage)
    }

    /** Mounting the provider over the current local storage. */
    constructor (storage: map<string, string>)
      ensures State() == Fresh(storage)
    {
      address, isConnecting, isFreighterInstalled, error := None, false, None, None;
      this.storage := storage;
    }

    /** `checkFreighterInstalled`: records and returns whether the extension answered that it is there. */
    method CheckInstalled(check: InstalledCheck) returns (installed: bool)
      modifies this
      ensures installed == Installed(check)
      ensures State() == old(State()).(isFreighterInstalled := Some(installed))
    {
      match check {
        case Answered(b) =>
          isFreighterInstalled := Some(b);
          installed := b;
        case CheckFailed =>
          isFreighterInstalled := Some(false);
          installed := false;
      }
    }

    /** `connect`. */
    method Connect(check: InstalledCheck, access: AccessResult, addr: AddressResult)
      modifies this
      ensures State() == AfterConnect(old(State()), check, access, addr)
    {
      error := None;
      isConnecting := true;
      var installed := CheckInstalled(check);
      if !installed {
        error := Some(NotInstalled);
        isConnecting := false;
        return;
      }
      match access {
        case Denied(message) =>
          error := Some(MessageOr(message, FailedToConnect));
          isConnecting := false;
          return;
        case AccessThrew =>
          error := Some(Unexpected);
        case Granted =>
          match addr {
            case AddressError(message) =>
              error := Some(MessageOr(message, FailedToRetrieve));
              isConnecting := false;
              return;
            case AddressThrew =>
              error := Some(Unexpected);
            case Address(a) =>
              address := Some(a);
              storage := storage[FlagKey := "true"];
          }
      }
      isConnecting := false;
    }

    /** `disconnect`. */
    method Disconnect()
      modifies this
      ensures State() == AfterDisconnect(old(State()))
    {
      address := None;
      error := None;
      storage := storage - {FlagKey};
    }

    /** `restoreSession`, run when the provider mounts. */
    method RestoreSession(check: InstalledCheck, addr: AddressResult)
      modifies this
      ensures State() == AfterRestore(old(State()), check, addr)
    {
      if FlagKey !in storage || storage[FlagKey] != "true" {
        return;
      }
      var installed := CheckInstalled(check);
      if !installed {
        return;
      }
      match addr {
        case Address(a) =>
          address := Some(a);
        case AddressError(_) =>
          storage := storage - {FlagKey};
        case AddressThrew =>
          storage := storage - {FlagKey};
      }
    }
  }
}
