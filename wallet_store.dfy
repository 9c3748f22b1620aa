/** The wallet store of `lib/store.ts`: the connected address and the network. Persisting the
    state to local storage is not part of this model. */
module WalletStore {
  import opened Options

  datatype Network = Mainnet | Testnet

  /** The two data fields of the store. */
  datatype WalletState = WalletState(address: Option<string>, network: Network)

  /** The state a fresh store starts in. */
  const Initial := WalletState(None, Testnet)

  /** The store's two actions. */
  datatype Action = SetAddress(address: string) | ClearWallet

  /** `set(...)` merges the one field it names into the state. */
  function Apply(s: WalletState, a: Action): (r: WalletState)
    ensures r.network == s.network
    ensures a.SetAddress? ==> r.address == Some(a.address)
    ensures a.ClearWallet? ==> r.address.None?
  {
    match a
    case SetAddress(address) => s.(address := Some(address))
    case ClearWallet => s.(address := None)
  }

  /** The state after a series of actions. */
  function Run(s: WalletState, actions: seq<Action>): WalletState
    decreases |actions|
  {
    if |actions| == 0 then s else Run(Apply(s, actions[0]), actions[1..])
  }

  /** No action changes the network: it is `testnet` for good. */
  lemma {:induction false} RunKeepsNetwork(s: WalletState, actions: seq<Action>)
    ensures Run(s, actions).network == s.network
    decreases |actions|
  {
    if |actions| > 0 {
      RunKeepsNetwork(Apply(s, actions[0]), actions[1..]);
    }
  }

  /** Only the last action decides the address: any two states end with the same address after
      the same non-empty series of actions. */
  lemma {:induction false} LastActionDecides(s: WalletState, t: WalletState, actions: seq<Action>)
    requires |actions| > 0
    ensures Run(s, actions).address == Run(t, actions).address
    ensures Run(s, actions).address == Apply(s, actions[|actions| - 1]).address
    decreases |actions|
  {
    if |actions| > 1 {
      LastActionDecides(Apply(s, actions[0]), Apply(t, actions[0]), actions[1..]);
      LastActionDecides(Apply(s, actions[0]), s, actions[1..]);
    }
  }

  /** Clearing twice is clearing once, and clearing after setting an address gives back the initial state. */
  lemma ClearLaws(s: WalletState, address: string)
    ensures Apply(Apply(s, ClearWallet), ClearWallet) == Apply(s, ClearWallet)
    ensures Apply(Apply(Initial, SetAddress(address)), ClearWallet) == Initial
  {
  }

  class WalletStore {
    var address: Option<string>
    var network: Network

    function State(): WalletState
      reads this
    {
      WalletState(address, network)
    }

    constructor ()
      ensures State() == Initial
    {
      address := None;
      network := Testnet;
    }

    /** `setAddress` */
    method SetAddress(a: string)
      modifies this
      ensures State() == Apply(old(State()), Action.SetAddress(a))
    {
      address := Some(a);
    }

    /** `clearWallet` */
    method ClearWallet()
      modifies this
      ensures State() == Apply(old(State()), Action.ClearWallet)
    {
      address := None;
    }
  }
}
