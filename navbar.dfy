/** `components/Navbar.tsx`: the shortened address it shows, and the connect and disconnect
    handlers. `handleConnect` is split at its `await`: `BeginConnect` runs before the wallet answers,
    `FinishConnect` after. The wallet library's `connect` and `disconnect` are inputs or effects. */
module Navbar {
  import opened Options
  import WS = WalletStore

  function Min(a: int, b: int): int {
    if a <= b then a else b
  }

  /** `s.slice(start)`: a negative start counts from the end and stops at the front. */
  function SliceFrom(s: string, start: int): string {
    if start < 0 then s[if |s| + start < 0 then 0 else |s| + start..]
    else if start > |s| then []
    else s[start..]
  }

  /** `s.slice(0, end)` for a non-negative end. */
  function SliceTo(s: string, end: nat): string {
    if end > |s| then s else s[..end]
  }

  /** `truncateAddress`: the first six characters, `...`, the last four. Shorter addresses give all
      they have to both ends. */
  function TruncateAddress(addr: string): (r: string)
    ensures var head := Min(6, |addr|); var tail := Min(4, |addr|);
      && |r| == head + 3 + tail
      && r[..head] == addr[..head]
      && r[head..head + 3] == "..."
      && r[head + 3..] == addr[|addr| - tail..]
  {
    var r := SliceTo(addr, 6) + "..." + SliceFrom(addr, -4);
    assert r[..Min(6, |addr|)] == SliceTo(addr, 6);
    r
  }

  /** The shown address is shorter than the address exactly when it has more than 13 characters,
      and it has 13 characters once the address has at least 6. */
  lemma TruncateShortens(addr: string)
    ensures |TruncateAddress(addr)| < |addr| <==> |addr| > 13
    ensures |addr| >= 6 ==> |TruncateAddress(addr)| == 13
  {
  }

  /** An entry of `result.addresses`. */
  datatype AddressEntry = AddressEntry(symbol: string, address: string)

  /** The position of the first STX entry, or the length when there is none. */
  function StxIndex(entries: seq<AddressEntry>): (i: nat)
    ensures i <= |entries|
    ensures forall j :: 0 <= j < i ==> entries[j].symbol != "STX"
    ensures i < |entries| ==> entries[i].symbol == "STX"
  {
    if |entries| == 0 || entries[0].symbol == "STX" then 0
    else
      assert forall j :: 1 <= j < |entries| ==> entries[1..][j - 1] == entries[j];
      1 + StxIndex(entries[1..])
  }

  /** `addresses.find((a) => a.symbol === 'STX')`: the first STX entry's address. */
  function FindStx(entries: seq<AddressEntry>): (r: Option<string>)
    ensures r.None? <==> forall i :: 0 <= i < |entries| ==> entries[i].symbol != "STX"
    ensures r.Some? ==> r.value == entries[StxIndex(entries)].address
  {
    var i := StxIndex(entries);
    if i < |entries| then Some(entries[i].address) else None
  }

  /** What the wallet's `connect` produced: an exception, or the addresses of the accounts. */
  datatype ConnectResult = Threw | Connected(addresses: seq<AddressEntry>)

  datatype Level = ErrorToast | SuccessToast

  datatype Effect = Toast(level: Level, message: string) | Disconnect

  const ConnectedMessage := "Wallet connected!"
  const ConnectFailed := "Failed to connect. Install Leather or Xverse wallet."
  const DisconnectedMessage := "Wallet disconnected"

  class Navbar {
    const store: WS.WalletStore
    var connecting: bool
    /** What the last handler did, in order. */
    var effects: seq<Effect>

    constructor (store: WS.WalletStore)
      ensures this.store == store && !connecting && effects == []
    {
      this.store := store;
      connecting := false;
      effects := [];
    }

    /** The connect button: the flag goes up before the wallet is asked. */
    method BeginConnect()
      modifies this
      ensures connecting && effects == []
    {
      connecting := true;
      effects := [];
    }

    /** The wallet's answer. The first STX address, when there is one, is stored and announced;
        an exception is reported; the flag comes down whatever happened, and nothing but the
        address in the store changes there. */
    method FinishConnect(result: ConnectResult)
      modifies this, store
      ensures !connecting
      ensures store.network == old(store.network)
      ensures result.Threw? ==> effects == [Toast(ErrorToast, ConnectFailed)] && store.address == old(store.address)
      ensures result.Connected? && FindStx(result.addresses).Some? ==>
        effects == [Toast(SuccessToast, ConnectedMessage)] && store.address == FindStx(result.addresses)
      ensures result.Connected? && FindStx(result.addresses).None? ==>
        effects == [] && store.address == old(store.address)
    {
      effects := [];
      match result {
      case Threw =>
        effects := [Toast(ErrorToast, ConnectFailed)];
      case Connected(addresses) =>
        var stx := FindStx(addresses);
        if stx.Some? {
          store.SetAddress(stx.value);
          effects := [Toast(SuccessToast, ConnectedMessage)];
        }
      }
      connecting := false;
    }

    /** The disconnect button: the address is cleared and the toast shown at once; the library's
        `disconnect` runs later, once its module has loaded, and its failure is not awaited. */
    method HandleDisconnect()
      modifies this, store
      ensures store.State() == WS.Apply(old(store.State()), WS.ClearWallet)
      ensures effects == [Toast(SuccessToast, DisconnectedMessage), Disconnect]
      ensures connecting == old(connecting)
    {
      store.ClearWallet();
      effects := [Toast(SuccessToast, DisconnectedMessage)];
      effects := effects + [Disconnect];
    }
  }
}
