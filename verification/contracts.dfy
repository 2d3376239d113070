// The two contracts as objects that update their storage in place, inside an EVM that moves
// ether, runs recipients' code and rolls back. Every method is proved to do what the functions
// of `PegState` say.

module Contracts {
  import opened ByteCodec
  import opened M6
  import opened QueueStorage
  import opened PegState

  /** Accounts, contracts and event log of the sidechain. */
  class Evm {
    const queue: WithdrawalRequestQueue
    const vault: DepositVault
    var circulating: nat
    var burned: nat
    var forcedQueue: nat
    var forcedVault: nat
    var minted: nat
    var refunds: seq<RefundEvent>
    var credits: seq<CreditEvent>

    constructor Genesis()
      ensures fresh(queue) && fresh(vault) && State() == GENESIS_WORLD
    {
      queue := new WithdrawalRequestQueue();
      vault := new DepositVault(RESERVE);
      circulating, burned, forcedQueue, forcedVault, minted := 0, 0, 0, 0, 0;
      refunds, credits := [], [];
    }

    function State(): World
      reads this, queue, vault
    {
      World(queue.State(), vault.balance, circulating, burned, forcedQueue, forcedVault, minted, refunds, credits)
    }

    /** Rolls everything back to an earlier state. */
    method Restore(w: World)
      modifies this, queue, vault
      ensures State() == w
    {
      queue.requestCount, queue.requests := w.queue.requestCount, w.queue.requests;
      queue.balance, queue.slots := w.queue.balance, w.queue.slots;
      vault.balance := w.vault;
      circulating, burned := w.circulating, w.burned;
      forcedQueue, forcedVault, minted := w.forcedQueue, w.forcedVault, w.minted;
      refunds, credits := w.refunds, w.credits;
    }

    /** One action of anyone outside the contracts. */
    method Perform(h: Hashes, a: Action)
      modifies this, queue, vault
      ensures State() == Do(h, old(State()), a)
    {
      hide Push, CheckRequest;
      match a
      case RequestWithdrawal(sender, dest, fee, valueWei) =>
        if valueWei <= circulating {
          var index := queue.RequestWithdrawal(h, sender, dest, fee, valueWei);
          if index.Ok? {
            circulating := circulating - valueWei;
          }
        }
      case ForceIntoQueue(amount) =>
        if amount <= circulating {
          queue.balance := queue.balance + amount;
          forcedQueue, circulating := forcedQueue + amount, circulating - amount;
        }
      case ForceIntoVault(amount) =>
        if amount <= circulating {
          vault.balance := vault.balance + amount;
          forcedVault, circulating := forcedVault + amount, circulating - amount;
        }
      case Burn(amount) =>
        if amount <= circulating {
          burned, circulating := burned + amount, circulating - amount;
        }
    }

    method PerformAll(h: Hashes, actions: seq<Action>)
      modifies this, queue, vault
      ensures State() == DoAll(h, old(State()), actions)
    {
      for k := 0 to |actions|
        invariant State() == DoAll(h, old(State()), actions[..k])
      {
        assert actions[..k + 1][..k] == actions[..k];
        Perform(h, actions[k]);
      }
      assert actions[..|actions|] == actions;
    }

    /** `recipient.call{value: amount}("")` from one of the contracts. */
    method TransferTo(h: Hashes, payer: Payer, amount: nat, recipient: Reaction) returns (success: bool)
      modifies this, queue, vault
      ensures (State(), success) == Call(h, old(State()), payer, amount, recipient)
    {
      if amount > Funds(State(), payer) {
        return false;
      }
      var snapshot := State();
      match payer {
        case FromQueue => queue.balance := queue.balance - amount;
        case FromVault => vault.balance := vault.balance - amount;
      }
      circulating := circulating + amount;
      assert State() == Handed(snapshot, payer, amount);
      PerformAll(h, recipient.actions);
      if !recipient.accepts {
        Restore(snapshot);
      }
      return recipient.accepts;
    }
  }

  class WithdrawalRequestQueue {
    var requestCount: U256
    var requests: map<U256, Request>
    var balance: nat
    var slots: Slots

    constructor ()
      ensures State() == EMPTY_QUEUE
    {
      requestCount, requests, balance, slots := 0, map[], 0, map[];
    }

    function State(): Queue
      reads this
    {
      Queue(requestCount, requests, balance, slots)
    }

    method StoreStatus(h: Hashes, index: U256, status: Status)
      modifies this
      ensures State() == SetStatus(h, old(State()), index, status)
    {
      slots := ApplyWrites(h, slots, [(FieldPlace(index, 4), StatusWord(status))]);
      requests := requests[index := At(State(), index).(status := status)];
    }

    method StoreBundle(h: Hashes, index: U256, m6id: U256)
      modifies this
      ensures State() == SetBundle(h, old(State()), index, m6id)
    {
      slots := ApplyWrites(h, slots, [(FieldPlace(index, 5), m6id)]);
      requests := requests[index := At(State(), index).(bundleM6id := m6id)];
    }

    /** Locks `valueWei`, which arrives with the call; a failed check leaves no trace. */
    method RequestWithdrawal(h: Hashes, sender: Address, btcDestination: Script, mainFeeSats: U256, valueWei: U256)
      returns (index: Result<U256, RequestError>)
      modifies this
      ensures
        match CheckRequest(old(State()), sender, btcDestination, mainFeeSats, valueWei)
        case Err(e) => index == Err(e) && State() == old(State())
        case Ok(r) =>
          && index == Ok(old(requestCount))
          && State() == Push(h, old(State()), r).(balance := old(balance) + valueWei)
    {
      hide ApplyWrites, RequestWrites;
      if valueWei == 0 {
        return Err(ZeroAmount);
      }
      if valueWei % WEI_PER_SAT != 0 {
        return Err(NotWholeSats);
      }
      var totalSats := valueWei / WEI_PER_SAT;
      if mainFeeSats >= totalSats {
        return Err(FeeExceedsValue);
      }
      if totalSats > U64_MAX {
        return Err(AmountTooLarge);
      }
      if requestCount + 1 >= TWO_256 {
        return Err(TooManyRequests);
      }
      var valueSats := totalSats - mainFeeSats;
      var i := requestCount;
      var request := Request(sender, valueSats, mainFeeSats, btcDestination, Pending, 0);
      slots := ApplyWrites(h, slots, RequestWrites(i, request));
      requestCount := i + 1;
      requests := requests[i := request];
      balance := balance + valueWei;
      return Ok(i);
    }

    /** One block's lifecycle call. False: reverted, with nothing changed. */
    method SystemReportBundleLifecycle(h: Hashes, evm: Evm, sender: Address, bundledIndices: seq<U256>, newM6id: U256,
                                       succeededIndices: seq<U256>, failedIndices: seq<U256>,
                                       requesters: nat -> Reaction)
      returns (ok: bool)
      requires evm.queue == this
      modifies evm, evm.queue, evm.vault
      ensures
        match Lifecycle(h, old(evm.State()), sender, bundledIndices, newM6id, succeededIndices, failedIndices,
                        requesters)
        case Some(w) => ok && evm.State() == w
        case None => !ok && evm.State() == old(evm.State())
    {
      if sender != SYSTEM_ADDRESS {
        return false;
      }
      var snapshot := evm.State();
      ok := Bundle(h, bundledIndices, newM6id);
      if ok {
        ok := Confirm(h, succeededIndices);
      }
      if ok {
        ok := Refund(h, evm, failedIndices, requesters);
      }
      if !ok {
        evm.Restore(snapshot);
      }
    }

    method Bundle(h: Hashes, indices: seq<U256>, newM6id: U256) returns (ok: bool)
      modifies this
      ensures
        match BundleUpTo(h, old(State()), indices, |indices|, newM6id)
        case Some(q) => ok && State() == q
        case None => !ok
    {
      hide SetStatus, SetBundle;
      for k := 0 to |indices|
        invariant BundleUpTo(h, old(State()), indices, k, newM6id) == Some(State())
      {
        if At(State(), indices[k]).status != Pending {
          BundleStaysReverted(h, old(State()), indices, k + 1, newM6id);
          return false;
        }
        StoreStatus(h, indices[k], Bundled);
        StoreBundle(h, indices[k], newM6id);
      }
      return true;
    }

    method Confirm(h: Hashes, indices: seq<U256>) returns (ok: bool)
      modifies this
      ensures
        match ConfirmUpTo(h, old(State()), indices, |indices|)
        case Some(q) => ok && State() == q
        case None => !ok
    {
      for k := 0 to |indices|
        invariant ConfirmUpTo(h, old(State()), indices, k) == Some(State())
      {
        if At(State(), indices[k]).status != Bundled {
          ConfirmStaysReverted(h, old(State()), indices, k + 1);
          return false;
        }
        StoreStatus(h, indices[k], Confirmed);
      }
      return true;
    }

    /** Status first, call second; a transfer that fails is recorded and not retried. */
    method Refund(h: Hashes, evm: Evm, indices: seq<U256>, requesters: nat -> Reaction) returns (ok: bool)
      requires evm.queue == this
      modifies evm, evm.queue, evm.vault
      ensures
        match RefundUpTo(h, old(evm.State()), indices, |indices|, requesters)
        case Some(w) => ok && evm.State() == w
        case None => !ok
    {
      hide Call, SetStatus, AmountWei, At;
      for k := 0 to |indices|
        invariant RefundUpTo(h, old(evm.State()), indices, k, requesters) == Some(evm.State())
      {
        var request := At(State(), indices[k]);
        if request.status != Bundled || AmountWei(request) >= TWO_256 {
          RefundStaysReverted(h, old(evm.State()), indices, k + 1, requesters);
          return false;
        }
        StoreStatus(h, indices[k], Refunded);
        var success := evm.TransferTo(h, FromQueue, AmountWei(request), requesters(k));
        evm.refunds := evm.refunds + [RefundEvent(indices[k], request.requester, AmountWei(request), success)];
      }
      return true;
    }
  }

  class DepositVault {
    var balance: nat

    constructor (reserve: nat)
      ensures balance == reserve
    {
      balance := reserve;
    }

    /** Credits every recipient in turn; one that rejects its credit costs only itself. False:
        reverted, with nothing changed. */
    method SystemCreditDeposits(h: Hashes, evm: Evm, sender: Address, recipients: seq<Address>,
                                amountsSats: seq<U256>, reactions: nat -> Reaction)
      returns (ok: bool)
      requires evm.vault == this
      modifies evm, evm.queue, evm.vault
      ensures
        match SystemCredit(h, old(evm.State()), sender, recipients, amountsSats, reactions)
        case Some(w) => ok && evm.State() == w
        case None => !ok && evm.State() == old(evm.State())
    {
      if sender != SYSTEM_ADDRESS {
        return false;
      }
      var snapshot := evm.State();
      for k := 0 to |recipients|
        invariant CreditArrays(h, snapshot, recipients, amountsSats, k, reactions) == Some(evm.State())
      {
        if k >= |amountsSats| || amountsSats[k] * WEI_PER_SAT >= TWO_256 {
          CreditStaysReverted(h, snapshot, recipients, amountsSats, k + 1, reactions);
          evm.Restore(snapshot);
          return false;
        }
        var funded := amountsSats[k] * WEI_PER_SAT <= balance;
        var success := evm.TransferTo(h, FromVault, amountsSats[k] * WEI_PER_SAT, reactions(k));
        evm.credits := evm.credits + [CreditEvent(recipients[k], amountsSats[k], funded, success)];
      }
      return true;
    }
  }

  // A check that failed has failed for the whole loop.

  lemma {:induction false} CreditStaysReverted(h: Hashes, w: World, recipients: seq<Address>, amountsSats: seq<U256>,
                                               n: nat, env: nat -> Reaction)
    requires n <= |recipients| && CreditArrays(h, w, recipients, amountsSats, n, env).None?
    ensures CreditArrays(h, w, recipients, amountsSats, |recipients|, env).None?
    decreases |recipients| - n
  {
    if n < |recipients| {
      CreditStaysReverted(h, w, recipients, amountsSats, n + 1, env);
    }
  }

  lemma {:induction false} BundleStaysReverted(h: Hashes, q: Queue, s: seq<U256>, n: nat, m6id: U256)
    requires n <= |s| && BundleUpTo(h, q, s, n, m6id).None?
    ensures BundleUpTo(h, q, s, |s|, m6id).None?
    decreases |s| - n
  {
    if n < |s| {
      BundleStaysReverted(h, q, s, n + 1, m6id);
    }
  }

  lemma {:induction false} ConfirmStaysReverted(h: Hashes, q: Queue, s: seq<U256>, n: nat)
    requires n <= |s| && ConfirmUpTo(h, q, s, n).None?
    ensures ConfirmUpTo(h, q, s, |s|).None?
    decreases |s| - n
  {
    if n < |s| {
      ConfirmStaysReverted(h, q, s, n + 1);
    }
  }

  lemma {:induction false} RefundStaysReverted(h: Hashes, w: World, s: seq<U256>, n: nat, env: nat -> Reaction)
    requires n <= |s| && RefundUpTo(h, w, s, n, env).None?
    ensures RefundUpTo(h, w, s, |s|, env).None?
    decreases |s| - n
  {
    if n < |s| {
      RefundStaysReverted(h, w, s, n + 1, env);
    }
  }
}
