/**
 * hooks/web3State.ts: the module-level store shared by every hook instance — its fields,
 * their setters (each but one notifies the subscribed listeners), getters, `subscribe` and
 * `getState`. A listener is named by a number; `notified` records, for each notification,
 * the listeners it reached.
 */
module Web3State {
  import opened Wrappers
  import Js
  import Ledger

  /** The `Proposal` record of the store. `createdAt` is the load time in milliseconds. */
  datatype ProposalView = ProposalView(
    id: nat,
    description: string,
    yesCount: Js.Numeric,
    noCount: Js.Numeric,
    isPublic: bool,
    createdAt: int,
    encryptedYes: Option<string>,
    encryptedNo: Option<string>,
    totalVotes: Js.Numeric)

  /** What `getState()` returns. */
  datatype State = State(
    account: Option<string>,
    isConnected: bool,
    isConnecting: bool,
    chainId: Option<int>,
    contract: Ledger.Zdao?,
    proposals: seq<ProposalView>,
    isLoading: bool,
    hasAttemptedAutoConnect: bool)

  class Store {
    var account: Option<string>
    var isConnected: bool
    var isConnecting: bool
    var chainId: Option<int>
    var contract: Ledger.Zdao?
    var proposals: seq<ProposalView>
    var isLoading: bool
    var hasAttemptedAutoConnect: bool
    var listeners: set<nat>
    var notified: seq<set<nat>>

    /** The initial values of the module's globals. */
    constructor ()
      ensures GetState() == State(None, false, false, None, null, [], false, false)
      ensures listeners == {} && notified == []
    {
      account := None;
      isConnected := false;
      isConnecting := false;
      chainId := None;
      contract := null;
      proposals := [];
      isLoading := false;
      hasAttemptedAutoConnect := false;
      listeners := {};
      notified := [];
    }

    /** `getState()`: every field at once, each equal to its own getter. */
    function GetState(): (s: State)
      reads this
      ensures s.account == GetAccount() && s.isConnected == GetIsConnected()
      ensures s.isConnecting == GetIsConnecting() && s.chainId == GetChainId()
      ensures s.contract == GetContract() && s.proposals == GetProposals()
      ensures s.isLoading == GetIsLoading() && s.hasAttemptedAutoConnect == GetHasAttemptedAutoConnect()
    {
      State(account, isConnected, isConnecting, chainId, contract, proposals, isLoading, hasAttemptedAutoConnect)
    }

    function GetAccount(): Option<string> reads this { account }
    function GetIsConnected(): bool reads this { isConnected }
    function GetIsConnecting(): bool reads this { isConnecting }
    function GetChainId(): Option<int> reads this { chainId }
    function GetContract(): Ledger.Zdao? reads this { contract }
    function GetProposals(): seq<ProposalView> reads this { proposals }
    function GetIsLoading(): bool reads this { isLoading }
    function GetHasAttemptedAutoConnect(): bool reads this { hasAttemptedAutoConnect }

    /** `notifyListeners()`: every current listener is called once. */
    method NotifyListeners()
      modifies this`notified
      ensures notified == old(notified) + [listeners]
    {
      notified := notified + [listeners];
    }

    method SetAccount(value: Option<string>)
      modifies this`account, this`notified
      ensures GetState() == old(GetState()).(account := value)
      ensures notified == old(notified) + [listeners]
    {
      account := value;
      NotifyListeners();
    }

    method SetIsConnected(value: bool)
      modifies this`isConnected, this`notified
      ensures GetState() == old(GetState()).(isConnected := value)
      ensures notified == old(notified) + [listeners]
    {
      isConnected := value;
      NotifyListeners();
    }

    method SetIsConnecting(value: bool)
      modifies this`isConnecting, this`notified
      ensures GetState() == old(GetState()).(isConnecting := value)
      ensures notified == old(notified) + [listeners]
    {
      isConnecting := value;
      NotifyListeners();
    }

    method SetChainId(value: Option<int>)
      modifies this`chainId, this`notified
      ensures GetState() == old(GetState()).(chainId := value)
      ensures notified == old(notified) + [listeners]
    {
      chainId := value;
      NotifyListeners();
    }

    method SetContract(value: Ledger.Zdao?)
      modifies this`contract, this`notified
      ensures GetState() == old(GetState()).(contract := value)
      ensures notified == old(notified) + [listeners]
    {
      contract := value;
      NotifyListeners();
    }

    method SetProposals(value: seq<ProposalView>)
      modifies this`proposals, this`notified
      ensures GetState() == old(GetState()).(proposals := value)
      ensures notified == old(notified) + [listeners]
    {
      proposals := value;
      NotifyListeners();
    }

    method SetIsLoading(value: bool)
      modifies this`isLoading, this`notified
      ensures GetState() == old(GetState()).(isLoading := value)
      ensures notified == old(notified) + [listeners]
    {
      isLoading := value;
      NotifyListeners();
    }

    /** The one setter that notifies nobody. */
    method SetHasAttemptedAutoConnect(value: bool)
      modifies this`hasAttemptedAutoConnect
      ensures GetState() == old(GetState()).(hasAttemptedAutoConnect := value)
    {
      hasAttemptedAutoConnect := value;
    }

    /** `subscribe(listener)`; the function it returns is `Unsubscribe(listener)`. */
    method Subscribe(listener: nat)
      modifies this`listeners
      ensures listeners == old(listeners) + {listener}
    {
      listeners := listeners + {listener};
    }

    method Unsubscribe(listener: nat)
      modifies this`listeners
      ensures listeners == old(listeners) - {listener}
    {
      listeners := listeners - {listener};
    }
  }

  /** After unsubscribing, a listener is not reached by the next change, and every other subscriber is. */
  method UnsubscribedNotNotified(store: Store, gone: nat, kept: nat, value: bool)
    requires gone != kept
    modifies store
    ensures |store.notified| == |old(store.notified)| + 1
    ensures gone !in store.notified[|store.notified| - 1]
    ensures kept in store.notified[|store.notified| - 1]
  {
    store.Subscribe(gone);
    store.Subscribe(kept);
    store.Unsubscribe(gone);
    store.SetIsLoading(value);
  }
}
