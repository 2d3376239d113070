// Where every wei is. The invariants here hold between any two steps of the two contracts,
// including while a refund's or a credit's recipient is running and re-entering the queue.

module Escrow {
  import opened ByteCodec
  import opened M6
  import opened QueueStorage
  import opened PegState

  // ----- Sums over requests -----

  function LockedSats(r: Request): nat {
    if r.status == Refunded then 0 else r.valueSats + r.mainFeeSats
  }

  function ConfirmedSats(r: Request): nat {
    if r.status == Confirmed then r.valueSats + r.mainFeeSats else 0
  }

  function OpenSats(r: Request): nat {
    if r.status == Pending || r.status == Bundled then r.valueSats + r.mainFeeSats else 0
  }

  /** The total of `amount` over the first `n` requests. */
  ghost function SumRequests(q: Queue, n: nat, amount: Request -> nat): nat
    requires n <= TWO_256
  {
    if n == 0 then 0 else SumRequests(q, n - 1, amount) + amount(At(q, n - 1))
  }

  ghost function Total(q: Queue, amount: Request -> nat): nat {
    SumRequests(q, q.requestCount, amount)
  }

  lemma {:induction false} SumAgrees(q: Queue, q': Queue, n: nat, amount: Request -> nat)
    requires n <= TWO_256
    requires forall i :: 0 <= i < n ==> amount(At(q', i)) == amount(At(q, i))
    ensures SumRequests(q', n, amount) == SumRequests(q, n, amount)
  {
    if n > 0 {
      SumAgrees(q, q', n - 1, amount);
    }
  }

  lemma {:induction false} SumChangesAt(q: Queue, q': Queue, n: nat, k: U256, amount: Request -> nat)
    requires k < n <= TWO_256
    requires forall i :: 0 <= i < n && i != k ==> At(q', i) == At(q, i)
    ensures SumRequests(q', n, amount) + amount(At(q, k)) == SumRequests(q, n, amount) + amount(At(q', k))
  {
    if k == n - 1 {
      SumAgrees(q, q', n - 1, amount);
    } else {
      SumChangesAt(q, q', n - 1, k, amount);
    }
  }

  lemma {:induction false} LockedSplits(q: Queue, n: nat)
    requires n <= TWO_256
    ensures SumRequests(q, n, LockedSats) == SumRequests(q, n, OpenSats) + SumRequests(q, n, ConfirmedSats)
  {
    if n > 0 {
      LockedSplits(q, n - 1);
    }
  }

  lemma {:induction false} SumBounds(q: Queue, n: nat, k: U256, amount: Request -> nat)
    requires k < n <= TWO_256
    ensures amount(At(q, k)) <= SumRequests(q, n, amount)
  {
    if k < n - 1 {
      SumBounds(q, n - 1, k, amount);
    }
  }

  // ----- Totals of the recorded transfers -----

  /** Wei of refunds whose transfer failed: they stay in the queue for good. */
  ghost function FailedRefunds(events: seq<RefundEvent>): nat {
    if events == [] then 0 else
      var last := events[|events| - 1];
      FailedRefunds(events[..|events| - 1]) + if last.transferred then 0 else last.amountWei
  }

  /** Wei the vault has handed out. */
  ghost function CreditedWei(events: seq<CreditEvent>): nat {
    if events == [] then 0 else
      var last := events[|events| - 1];
      CreditedWei(events[..|events| - 1]) + if last.credited then last.amountSats * WEI_PER_SAT else 0
  }

  /** Wei of credits that the vault could pay and their recipients rejected: they stay in the vault. */
  ghost function RejectedWei(events: seq<CreditEvent>): nat {
    if events == [] then 0 else
      var last := events[|events| - 1];
      RejectedWei(events[..|events| - 1])
      + if last.funded && !last.credited then last.amountSats * WEI_PER_SAT else 0
  }

  /** Wei of credits that the vault could not pay: nobody was asked, and they are not made later. */
  ghost function UnfundedWei(events: seq<CreditEvent>): nat {
    if events == [] then 0 else
      var last := events[|events| - 1];
      UnfundedWei(events[..|events| - 1]) + if last.funded then 0 else last.amountSats * WEI_PER_SAT
  }

  /** A credit goes unfunded only when making it would have taken the total above the reserve. */
  ghost predicate UnfundedOnlyWhenDry(events: seq<CreditEvent>) {
    forall k :: 0 <= k < |events| && !events[k].funded
          ==> CreditedWei(events[..k]) + events[k].amountSats * WEI_PER_SAT > RESERVE
  }

  ghost function DepositedSats(deposits: seq<Deposit>): nat {
    if deposits == [] then 0 else DepositedSats(deposits[..|deposits| - 1]) + deposits[|deposits| - 1].valueSats
  }

  // ----- The invariants -----

  ghost predicate GoodRequest(r: Request) {
    && 1 <= r.valueSats
    && r.valueSats + r.mainFeeSats <= U64_MAX
    && (r.status == Pending ==> r.bundleM6id == 0)
  }

  /** Entries exist exactly below the counter. */
  ghost predicate Shape(q: Queue) {
    && (forall i :: i in q.requests <==> 0 <= i < q.requestCount)
    && (forall i :: i in q.requests ==> GoodRequest(q.requests[i]))
  }

  /** The queue holds exactly its escrow: everything not refunded, plus refunds that failed, plus
      what was forced in. */
  ghost predicate Solvent(w: World) {
    w.queue.balance == WEI_PER_SAT * Total(w.queue, LockedSats) + FailedRefunds(w.refunds) + w.forcedQueue
  }

  ghost predicate VaultBooked(w: World) {
    w.vault + CreditedWei(w.credits) == RESERVE + w.forcedVault
  }

  /** No ether is created but by EIP-4895 lists; burned ether is the only ether lost. */
  ghost predicate SupplyConserved(w: World) {
    w.vault + w.queue.balance + w.circulating + w.burned == RESERVE + w.minted
  }

  ghost predicate Books(w: World) {
    Solvent(w) && VaultBooked(w) && SupplyConserved(w) && UnfundedOnlyWhenDry(w.credits)
  }

  /** All that code outside the contracts can do to the queue: append pending requests. */
  ghost predicate Appends(q: Queue, q': Queue) {
    && q.requestCount <= q'.requestCount
    && (forall i :: 0 <= i < q.requestCount ==> At(q', i) == At(q, i))
    && (forall i :: q.requestCount <= i < q'.requestCount ==> At(q', i).status == Pending)
  }

  lemma {:induction false} AppendsTransitive(q: Queue, q': Queue, q'': Queue)
    requires Appends(q, q') && Appends(q', q'')
    ensures Appends(q, q'')
  {
    forall i | q.requestCount <= i < q''.requestCount ensures At(q'', i).status == Pending {
      if i < q'.requestCount {
        assert At(q'', i) == At(q', i);
      }
    }
  }

  // ----- Actions -----

  lemma {:induction false} AcceptedAmount(q: Queue, sender: Address, dest: Script, fee: U256, valueWei: U256)
    requires CheckRequest(q, sender, dest, fee, valueWei).Ok?
    ensures
      var r := CheckRequest(q, sender, dest, fee, valueWei).value;
      && valueWei == AmountWei(r) && GoodRequest(r) && r.status == Pending
      && r.requester == sender && r.btcDestination == dest && r.mainFeeSats == fee
  {
    assert valueWei == valueWei / WEI_PER_SAT * WEI_PER_SAT + valueWei % WEI_PER_SAT;
  }

  /** Which requests are accepted, and what the others are told, on the inputs alone. */
  lemma {:induction false} RequestAcceptedExactly(q: Queue, sender: Address, dest: Script, fee: U256, valueWei: U256)
    ensures
      var r := CheckRequest(q, sender, dest, fee, valueWei);
      var whole := valueWei % WEI_PER_SAT == 0;
      && (r.Ok? <==> 0 < valueWei && whole && fee * WEI_PER_SAT < valueWei && valueWei <= U64_MAX * WEI_PER_SAT
                     && q.requestCount + 1 < TWO_256)
      && (r == Err(ZeroAmount) <==> valueWei == 0)
      && (r == Err(NotWholeSats) <==> !whole)
      && (r == Err(FeeExceedsValue) <==> 0 < valueWei && whole && valueWei <= fee * WEI_PER_SAT)
      && (r == Err(AmountTooLarge) <==> whole && fee * WEI_PER_SAT < valueWei && U64_MAX * WEI_PER_SAT < valueWei)
      && (r == Err(TooManyRequests)
          <==> 0 < valueWei && whole && fee * WEI_PER_SAT < valueWei && valueWei <= U64_MAX * WEI_PER_SAT
               && q.requestCount + 1 >= TWO_256)
  {
    assert valueWei == valueWei / WEI_PER_SAT * WEI_PER_SAT + valueWei % WEI_PER_SAT;
  }

  /** A request that is accepted, by a sender who can pay, leaves at the old counter a pending request
      with what was asked for, and moves its ether into escrow; nothing else changes. Any other leaves
      everything as it was. */
  lemma {:induction false} RequestEffect(h: Hashes, w: World, sender: Address, dest: Script, fee: U256, valueWei: U256)
    ensures
      var w' := Do(h, w, RequestWithdrawal(sender, dest, fee, valueWei));
      var n := w.queue.requestCount;
      if 0 < valueWei && valueWei % WEI_PER_SAT == 0 && fee * WEI_PER_SAT < valueWei
         && valueWei <= U64_MAX * WEI_PER_SAT && n + 1 < TWO_256 && valueWei <= w.circulating then
        && fee <= valueWei / WEI_PER_SAT
        && At(w'.queue, n) == Request(sender, valueWei / WEI_PER_SAT - fee, fee, dest, Pending, 0)
        && (forall i :: i != n ==> At(w'.queue, i) == At(w.queue, i))
        && w'.queue.requestCount == n + 1 && w'.queue.balance == w.queue.balance + valueWei
        && w' == w.(queue := w'.queue, circulating := w.circulating - valueWei)
      else w' == w
  {
    hide RequestWrites, ApplyWrites;
    RequestAcceptedExactly(w.queue, sender, dest, fee, valueWei);
  }

  /** Ether that can be paid is forced into a contract or burned, and counted; nothing else changes. */
  lemma {:induction false} ForcedOrBurned(h: Hashes, w: World, amount: nat)
    ensures
      var q, v, b := Do(h, w, ForceIntoQueue(amount)), Do(h, w, ForceIntoVault(amount)), Do(h, w, Burn(amount));
      if amount <= w.circulating then
        && q.queue == w.queue.(balance := w.queue.balance + amount) && q.forcedQueue == w.forcedQueue + amount
        && q.vault == w.vault && q.forcedVault == w.forcedVault && q.burned == w.burned
        && v.vault == w.vault + amount && v.forcedVault == w.forcedVault + amount
        && v.queue == w.queue && v.forcedQueue == w.forcedQueue && v.burned == w.burned
        && b == w.(burned := w.burned + amount, circulating := b.circulating)
        && q.circulating == v.circulating == b.circulating == w.circulating - amount
      else q == v == b == w
  {
  }

  /** Actions happen in turn. */
  lemma {:induction false} ActionsInTurn(h: Hashes, w: World, a: seq<Action>, b: seq<Action>)
    ensures DoAll(h, w, a + b) == DoAll(h, DoAll(h, w, a), b)
    ensures b != [] ==> DoAll(h, w, [b[0]]) == Do(h, w, b[0])
  {
    hide Do;
    if b == [] {
      assert a + b == a;
    } else {
      ActionsInTurn(h, w, a, b[..|b| - 1]);
      assert (a + b)[..|a + b| - 1] == a + b[..|b| - 1];
      assert [b[0]][..0] == [];
    }
  }

  lemma {:induction false} PushedTotal(q: Queue, q': Queue, r: Request)
    requires q'.requestCount == q.requestCount + 1 && q'.requests == q.requests[q.requestCount := r]
    ensures Total(q', LockedSats) == Total(q, LockedSats) + LockedSats(r)
  {
    SumAgrees(q, q', q.requestCount, LockedSats);
  }

  lemma {:induction false} TotalIgnoresBalance(q: Queue, q': Queue, amount: Request -> nat)
    requires q'.requestCount == q.requestCount && q'.requests == q.requests
    ensures Total(q', amount) == Total(q, amount)
  {
    SumAgrees(q, q', q.requestCount, amount);
  }

  /** An accepted request locks exactly what it sends. */
  lemma {:induction false} LockKeepsBooks(w: World, w': World, r: Request)
    requires Books(w) && r.status == Pending
    requires w'.queue.requestCount == w.queue.requestCount + 1
    requires w'.queue.requests == w.queue.requests[w.queue.requestCount := r]
    requires w'.queue.balance == w.queue.balance + AmountWei(r) && w'.circulating == w.circulating - AmountWei(r)
    requires w' == w.(queue := w'.queue, circulating := w'.circulating)
    ensures Books(w')
  {
    PushedTotal(w.queue, w'.queue, r);
  }

  lemma {:induction false} LockAppends(q: Queue, q': Queue, r: Request)
    requires Shape(q) && r.status == Pending && GoodRequest(r)
    requires q'.requestCount == q.requestCount + 1 && q'.requests == q.requests[q.requestCount := r]
    ensures Shape(q') && Appends(q, q')
  {
  }

  lemma {:induction false} ActionKeepsBooks(h: Hashes, w: World, a: Action)
    requires Books(w)
    ensures Books(Do(h, w, a))
    ensures Do(h, w, a).refunds == w.refunds && Do(h, w, a).credits == w.credits && Do(h, w, a).minted == w.minted
  {
    if a.RequestWithdrawal? {
      var checked := CheckRequest(w.queue, a.sender, a.btcDestination, a.mainFeeSats, a.valueWei);
      if checked.Ok? && a.valueWei <= w.circulating {
        AcceptedAmount(w.queue, a.sender, a.btcDestination, a.mainFeeSats, a.valueWei);
        LockKeepsBooks(w, Do(h, w, a), checked.value);
      }
    } else if a.ForceIntoQueue? {
      TotalIgnoresBalance(w.queue, Do(h, w, a).queue, LockedSats);
    }
  }

  lemma {:induction false} ActionAppends(h: Hashes, w: World, a: Action)
    requires Shape(w.queue)
    ensures Shape(Do(h, w, a).queue) && Appends(w.queue, Do(h, w, a).queue)
  {
    if a.RequestWithdrawal? {
      var checked := CheckRequest(w.queue, a.sender, a.btcDestination, a.mainFeeSats, a.valueWei);
      if checked.Ok? && a.valueWei <= w.circulating {
        AcceptedAmount(w.queue, a.sender, a.btcDestination, a.mainFeeSats, a.valueWei);
        LockAppends(w.queue, Do(h, w, a).queue, checked.value);
      }
    }
  }

  lemma {:induction false} StoredIgnoresBalance(h: Hashes, q: Queue, q': Queue)
    requires q' == q.(balance := q'.balance) && Stored(h, q)
    ensures Stored(h, q')
  {
    assert forall p :: Used(q, p) <==> Used(q', p);
    if Separated(h, q') {
      assert Separated(h, q);
      forall p | Used(q', p) ensures Load(q'.slots, SlotOf(h, p)) == PlaceWord(q', p) {
        assert Used(q, p) && PlaceWord(q, p) == PlaceWord(q', p);
      }
    }
  }

  lemma {:induction false} ActionKeepsStored(h: Hashes, w: World, a: Action)
    requires Stored(h, w.queue)
    ensures Stored(h, Do(h, w, a).queue)
  {
    if a.RequestWithdrawal? && CheckRequest(w.queue, a.sender, a.btcDestination, a.mainFeeSats, a.valueWei).Ok?
       && a.valueWei <= w.circulating {
      var r := CheckRequest(w.queue, a.sender, a.btcDestination, a.mainFeeSats, a.valueWei).value;
      PushStored(h, w.queue, r);
      StoredIgnoresBalance(h, Push(h, w.queue, r), Do(h, w, a).queue);
    } else {
      StoredIgnoresBalance(h, w.queue, Do(h, w, a).queue);
    }
  }

  lemma {:induction false} ActionsKeepBooks(h: Hashes, w: World, actions: seq<Action>)
    requires Books(w)
    ensures Books(DoAll(h, w, actions))
    ensures DoAll(h, w, actions).refunds == w.refunds && DoAll(h, w, actions).credits == w.credits
    ensures DoAll(h, w, actions).minted == w.minted
  {
    if actions != [] {
      var n := |actions| - 1;
      ActionsKeepBooks(h, w, actions[..n]);
      ActionKeepsBooks(h, DoAll(h, w, actions[..n]), actions[n]);
    }
  }

  lemma {:induction false} ActionsAppend(h: Hashes, w: World, actions: seq<Action>)
    requires Shape(w.queue)
    ensures Shape(DoAll(h, w, actions).queue) && Appends(w.queue, DoAll(h, w, actions).queue)
  {
    if actions != [] {
      var n := |actions| - 1;
      ActionsAppend(h, w, actions[..n]);
      ActionAppends(h, DoAll(h, w, actions[..n]), actions[n]);
      AppendsTransitive(w.queue, DoAll(h, w, actions[..n]).queue, DoAll(h, w, actions).queue);
    }
  }

  lemma {:induction false} ActionsKeepStored(h: Hashes, w: World, actions: seq<Action>)
    requires Stored(h, w.queue)
    ensures Stored(h, DoAll(h, w, actions).queue)
  {
    if actions != [] {
      var n := |actions| - 1;
      ActionsKeepStored(h, w, actions[..n]);
      ActionKeepsStored(h, DoAll(h, w, actions[..n]), actions[n]);
    }
  }

  // ----- External calls -----

  /** Whatever the recipient of a transfer does, it can only append pending requests to the queue. */
  lemma {:induction false} CallAppends(h: Hashes, w: World, payer: Payer, amount: nat, r: Reaction)
    requires Shape(w.queue)
    ensures Shape(Call(h, w, payer, amount, r).0.queue) && Appends(w.queue, Call(h, w, payer, amount, r).0.queue)
  {
    if amount <= Funds(w, payer) && r.accepts {
      var handed := Handed(w, payer, amount);
      ActionsAppend(h, handed, r.actions);
      AppendsTransitive(w.queue, handed.queue, DoAll(h, handed, r.actions).queue);
    }
  }

  lemma {:induction false} CallKeepsStored(h: Hashes, w: World, payer: Payer, amount: nat, r: Reaction)
    requires Stored(h, w.queue)
    ensures Stored(h, Call(h, w, payer, amount, r).0.queue)
  {
    if amount <= Funds(w, payer) && r.accepts {
      var handed := Handed(w, payer, amount);
      StoredIgnoresBalance(h, w.queue, handed.queue);
      ActionsKeepStored(h, handed, r.actions);
    }
  }

  /** Actions neither read nor write the event logs. */
  lemma {:induction false} LogsDoNotMatter(h: Hashes, w: World, v: World, actions: seq<Action>)
    requires v == w.(refunds := v.refunds, credits := v.credits)
    ensures DoAll(h, v, actions) == DoAll(h, w, actions).(refunds := v.refunds, credits := v.credits)
  {
    hide Push, CheckRequest;
    if actions != [] {
      LogsDoNotMatter(h, w, v, actions[..|actions| - 1]);
    }
  }

  // ----- EIP-4895 -----

  /** What a list mints to one kind of payee. */
  ghost function MintedTo(mints: seq<Mint>, payee: Payee): nat {
    if mints == [] then 0 else
      var last := mints[|mints| - 1];
      MintedTo(mints[..|mints| - 1], payee) + if last.payee == payee then last.amountWei else 0
  }

  /** Minted ether reaches the accounts it is minted to, and counts as forced in where they are contracts. */
  lemma {:induction false} MintsArrive(w: World, mints: seq<Mint>)
    ensures
      var w' := MintAll(w, mints);
      && w'.queue.balance == w.queue.balance + MintedTo(mints, TheQueue)
      && w'.forcedQueue == w.forcedQueue + MintedTo(mints, TheQueue)
      && w'.vault == w.vault + MintedTo(mints, TheVault)
      && w'.forcedVault == w.forcedVault + MintedTo(mints, TheVault)
      && w'.circulating == w.circulating + MintedTo(mints, AnAccount)
  {
    if mints != [] {
      MintsArrive(w, mints[..|mints| - 1]);
    }
  }

  /** Minted ether moves no request and settles no transfer; what reaches a contract is counted as
      forced in. */
  lemma {:induction false} MintsKeepBooks(w: World, mints: seq<Mint>)
    requires Books(w)
    ensures
      var w' := MintAll(w, mints);
      && Books(w') && w'.refunds == w.refunds && w'.credits == w.credits
      && w'.minted == w.minted + MintedWei(mints) && w'.queue == w.queue.(balance := w'.queue.balance)
  {
    if mints != [] {
      hide UnfundedOnlyWhenDry, SumRequests;
      var n := |mints| - 1;
      MintsKeepBooks(w, mints[..n]);
      TotalIgnoresBalance(MintAll(w, mints[..n]).queue, MintAll(w, mints).queue, LockedSats);
    }
  }

  // ----- Credits -----

  /** The record of a credit: it is made exactly when the vault can pay it and its recipient takes
      it. */
  ghost function CreditOf(d: Deposit, funded: bool, accepts: bool): CreditEvent {
    CreditEvent(d.address, d.valueSats, funded, funded && accepts)
  }

  lemma {:induction false} CreditedOneMore(log: seq<CreditEvent>, e: CreditEvent)
    ensures CreditedWei(log + [e]) == CreditedWei(log) + if e.credited then e.amountSats * WEI_PER_SAT else 0
  {
    assert (log + [e])[..|log|] == log;
  }

  /** The vault can pay a credit exactly when that keeps the total within the reserve and what was
      forced in. */
  lemma {:induction false} FundedExactlyWhen(w: World, amount: nat)
    requires Books(w)
    ensures amount <= w.vault <==> CreditedWei(w.credits) + amount <= RESERVE + w.forcedVault
  {
  }

  lemma {:induction false} DryOneMore(w: World, d: Deposit, accepts: bool)
    requires Books(w)
    ensures UnfundedOnlyWhenDry(w.credits + [CreditOf(d, d.valueSats * WEI_PER_SAT <= w.vault, accepts)])
  {
    hide CreditedWei;
    var e := CreditOf(d, d.valueSats * WEI_PER_SAT <= w.vault, accepts);
    var log := w.credits + [e];
    FundedExactlyWhen(w, d.valueSats * WEI_PER_SAT);
    forall k | 0 <= k < |log| && !log[k].funded
      ensures CreditedWei(log[..k]) + log[k].amountSats * WEI_PER_SAT > RESERVE
    {
      assert log[..k] == w.credits[..k];
      assert w.credits[..|w.credits|] == w.credits;
    }
  }

  lemma {:induction false} CreditKeepsBooks(h: Hashes, w: World, d: Deposit, r: Reaction)
    requires Books(w)
    ensures Books(CreditOne(h, w, d, r)) && CreditOne(h, w, d, r).refunds == w.refunds
    ensures CreditOne(h, w, d, r).minted == w.minted
    ensures CreditOne(h, w, d, r).credits
         == w.credits + [CreditOf(d, d.valueSats * WEI_PER_SAT <= w.vault, r.accepts)]
  {
    hide UnfundedOnlyWhenDry, SumRequests, CreditedWei;
    var amount := d.valueSats * WEI_PER_SAT;
    var w' := CreditOne(h, w, d, r);
    var event := CreditOf(d, amount <= w.vault, r.accepts);
    var credits := w.credits + [event];
    CreditedOneMore(w.credits, event);
    DryOneMore(w, d, r.accepts);
    if amount <= w.vault && r.accepts {
      // While the recipient runs, the books already count the credit as made.
      var handed := Handed(w, FromVault, amount);
      var during := handed.(credits := credits);
      assert Books(during);
      ActionsKeepBooks(h, during, r.actions);
      LogsDoNotMatter(h, during, handed, r.actions);
      ActionsKeepLogs(h, handed, r.actions);
      assert w' == DoAll(h, during, r.actions);
    } else {
      assert w' == w.(credits := credits);
    }
  }

  /** The books while a credit of `amount` is on its way: the vault has paid it, and the log does
      not have it yet. */
  ghost predicate BooksDuringCredit(w: World, amount: nat) {
    && Solvent(w) && SupplyConserved(w)
    && w.vault + CreditedWei(w.credits) + amount == RESERVE + w.forcedVault
  }

  /** The escrow is solvent, and everything accounted for, after each action of a credit's
      recipient. */
  lemma {:induction false} SolventInsideCredit(h: Hashes, w: World, d: Deposit, r: Reaction, k: nat)
    requires Books(w) && d.valueSats * WEI_PER_SAT <= w.vault && k <= |r.actions|
    ensures BooksDuringCredit(DoAll(h, Handed(w, FromVault, d.valueSats * WEI_PER_SAT), r.actions[..k]),
                              d.valueSats * WEI_PER_SAT)
  {
    hide UnfundedOnlyWhenDry, SumRequests, CreditedWei;
    var handed := Handed(w, FromVault, d.valueSats * WEI_PER_SAT);
    var event := CreditOf(d, true, true);
    CreditedOneMore(w.credits, event);
    DryOneMore(w, d, true);
    var counted := handed.(credits := w.credits + [event]);
    assert Books(counted);
    ActionsKeepBooks(h, counted, r.actions[..k]);
    LogsDoNotMatter(h, counted, handed, r.actions[..k]);
    ActionsKeepLogs(h, handed, r.actions[..k]);
  }

  /** `after` continues `before` with one event for each deposit, in order, to its address and for
      its amount; a credit the vault could pay was made exactly if its recipient took it, and one it
      could not pay was not made. */
  ghost predicate CreditsFor(before: seq<CreditEvent>, after: seq<CreditEvent>, deposits: seq<Deposit>,
                             answers: seq<bool>) {
    && |after| == |before| + |deposits| && |answers| == |deposits|
    && after[..|before|] == before
    && (forall k :: 0 <= k < |deposits| ==>
          var e := after[|before| + k]; e == CreditOf(deposits[k], e.funded, answers[k]))
  }

  lemma {:induction false} CreditLogged(before: seq<CreditEvent>, log: seq<CreditEvent>, deposits: seq<Deposit>,
                                        answers: seq<bool>, d: Deposit, funded: bool, accepts: bool)
    requires CreditsFor(before, log, deposits, answers)
    ensures CreditsFor(before, log + [CreditOf(d, funded, accepts)], deposits + [d], answers + [accepts])
  {
    assert (log + [CreditOf(d, funded, accepts)])[..|before|] == log[..|before|];
  }

  lemma {:induction false} CreditsForShorter(credits: seq<CreditEvent>, deposits: seq<Deposit>, answers: seq<bool>)
    requires CreditsFor([], credits, deposits, answers) && credits != []
    ensures CreditsFor([], credits[..|credits| - 1], deposits[..|deposits| - 1], answers[..|answers| - 1])
    ensures |credits| == |deposits| == |answers|
    ensures
      var n := |credits| - 1;
      credits[n] == CreditOf(deposits[n], credits[n].funded, answers[n])
  {
    var n := |credits| - 1;
    forall k | 0 <= k < n
      ensures credits[..n][0 + k] == CreditOf(deposits[..n][k], credits[..n][0 + k].funded, answers[..n][k])
    {
      assert credits[0 + k] == CreditOf(deposits[k], credits[0 + k].funded, answers[k]);
    }
    assert credits[0 + n] == CreditOf(deposits[n], credits[0 + n].funded, answers[n]);
  }

  /** What the deposits add up to was credited, rejected, or beyond what the vault could pay. */
  lemma {:induction false} RecordedIsDeposited(credits: seq<CreditEvent>, deposits: seq<Deposit>, answers: seq<bool>)
    requires CreditsFor([], credits, deposits, answers)
    ensures CreditedWei(credits) + RejectedWei(credits) + UnfundedWei(credits) == DepositedSats(deposits) * WEI_PER_SAT
  {
    if credits != [] {
      CreditsForShorter(credits, deposits, answers);
      hide CreditsFor;
      RecordedIsDeposited(credits[..|credits| - 1], deposits[..|deposits| - 1], answers[..|answers| - 1]);
    }
  }

  /** A credit call is accepted exactly from the system, with an amount for each recipient and each amount
      in wei within a word; it then records each credit, in order, to its recipient and for its amount,
      as made exactly if the vault could pay it and the recipient took it. */
  lemma {:induction false} SystemCreditExactly(h: Hashes, w: World, sender: Address, recipients: seq<Address>,
                                               amountsSats: seq<U256>, env: nat -> Reaction)
    ensures SystemCredit(h, w, sender, recipients, amountsSats, env).Some?
       <==> sender == SYSTEM_ADDRESS && |recipients| <= |amountsSats|
            && forall k :: 0 <= k < |recipients| ==> amountsSats[k] * WEI_PER_SAT < TWO_256
    ensures SystemCredit(h, w, sender, recipients, amountsSats, env).Some? ==>
      CreditsRecorded(w.credits, SystemCredit(h, w, sender, recipients, amountsSats, env).value.credits, recipients,
                      amountsSats, env, |recipients|)
  {
    hide CreditArrays, CreditsRecorded;
    CreditArraysExactly(h, w, recipients, amountsSats, |recipients|, env);
  }

  /** `after` continues `before` with a record of each of the first `n` credits. */
  ghost predicate CreditsRecorded(before: seq<CreditEvent>, after: seq<CreditEvent>, recipients: seq<Address>,
                                  amountsSats: seq<U256>, env: nat -> Reaction, n: nat) {
    && n <= |recipients| && n <= |amountsSats| && |after| == |before| + n && after[..|before|] == before
    && (forall k :: 0 <= k < n ==>
          var e := after[|before| + k];
          e == CreditEvent(recipients[k], amountsSats[k], e.funded, e.funded && env(k).accepts))
  }

  lemma {:induction false} CreditRecords(h: Hashes, w: World, recipient: Address, amountSats: U256, r: Reaction)
    ensures
      var funded := amountSats * WEI_PER_SAT <= w.vault;
      Credit(h, w, recipient, amountSats, r).credits
      == w.credits + [CreditEvent(recipient, amountSats, funded, funded && r.accepts)]
  {
    if amountSats * WEI_PER_SAT <= w.vault {
      ActionsKeepLogs(h, Handed(w, FromVault, amountSats * WEI_PER_SAT), r.actions);
    }
  }

  lemma {:induction false} CreditArraysExactly(h: Hashes, w: World, recipients: seq<Address>, amountsSats: seq<U256>,
                                               n: nat, env: nat -> Reaction)
    requires n <= |recipients|
    ensures CreditArrays(h, w, recipients, amountsSats, n, env).Some?
       <==> n <= |amountsSats| && forall k :: 0 <= k < n ==> amountsSats[k] * WEI_PER_SAT < TWO_256
    ensures CreditArrays(h, w, recipients, amountsSats, n, env).Some? ==>
      CreditsRecorded(w.credits, CreditArrays(h, w, recipients, amountsSats, n, env).value.credits, recipients,
                      amountsSats, env, n)
  {
    hide Credit;
    if n > 0 {
      CreditArraysExactly(h, w, recipients, amountsSats, n - 1, env);
      var before := CreditArrays(h, w, recipients, amountsSats, n - 1, env);
      if before.Some? && n <= |amountsSats| {
        CreditRecords(h, before.value, recipients[n - 1], amountsSats[n - 1], env(n - 1));
      }
    }
  }

  const RESERVE_SATS: u64 := 2_100_000_000_000_000

  lemma {:induction false} DryShorter(credits: seq<CreditEvent>)
    requires UnfundedOnlyWhenDry(credits) && credits != []
    ensures UnfundedOnlyWhenDry(credits[..|credits| - 1])
  {
    hide CreditedWei;
    var shorter := credits[..|credits| - 1];
    forall k | 0 <= k < |shorter| && !shorter[k].funded
      ensures CreditedWei(shorter[..k]) + shorter[k].amountSats * WEI_PER_SAT > RESERVE
    {
      assert shorter[..k] == credits[..k];
    }
  }

  /** As long as no more than the reserve was ever deposited, every credit is funded, and made exactly
      if its recipient takes it. */
  lemma {:induction false} WithinReserveAllFunded(credits: seq<CreditEvent>, deposits: seq<Deposit>,
                                                  answers: seq<bool>, k: nat)
    requires CreditsFor([], credits, deposits, answers) && UnfundedOnlyWhenDry(credits)
    requires DepositedSats(deposits) <= RESERVE_SATS && k < |credits|
    ensures k < |deposits| == |answers| && credits[k] == CreditOf(deposits[k], true, answers[k])
  {
    var n := |credits| - 1;
    CreditsForShorter(credits, deposits, answers);
    DryShorter(credits);
    if k < n {
      hide CreditsFor, UnfundedOnlyWhenDry;
      WithinReserveAllFunded(credits[..n], deposits[..n], answers[..n], k);
    } else {
      RecordedIsDeposited(credits[..n], deposits[..n], answers[..n]);
      assert CreditedWei(credits[..n]) + deposits[n].valueSats * WEI_PER_SAT <= RESERVE;
    }
  }

  lemma {:induction false} NothingCredited(log: seq<CreditEvent>)
    ensures CreditsFor(log, log, [], [])
  {
    assert log[..|log|] == log;
  }

  lemma {:induction false} CreditsKeepBooks(h: Hashes, w: World, deposits: seq<Deposit>, n: nat, env: nat -> Reaction)
    requires Books(w) && n <= |deposits|
    ensures
      var w' := CreditUpTo(h, w, deposits, n, env);
      && Books(w') && w'.refunds == w.refunds && w'.minted == w.minted
      && CreditsFor(w.credits, w'.credits, deposits[..n], Answers(env, n))
  {
    hide CreditOne, Books, CreditsFor, CreditOf;
    if n > 0 {
      var before, d := CreditUpTo(h, w, deposits, n - 1, env), deposits[n - 1];
      CreditsKeepBooks(h, w, deposits, n - 1, env);
      CreditKeepsBooks(h, before, d, env(n - 1));
      CreditLogged(w.credits, before.credits, deposits[..n - 1], Answers(env, n - 1), d,
                   d.valueSats * WEI_PER_SAT <= before.vault, env(n - 1).accepts);
      assert deposits[..n] == deposits[..n - 1] + [d];
    } else {
      NothingCredited(w.credits);
      assert deposits[..n] == [];
    }
  }

  lemma {:induction false} CreditsAppend(h: Hashes, w: World, deposits: seq<Deposit>, n: nat, env: nat -> Reaction)
    requires Shape(w.queue) && n <= |deposits|
    ensures Shape(CreditUpTo(h, w, deposits, n, env).queue)
    ensures Appends(w.queue, CreditUpTo(h, w, deposits, n, env).queue)
  {
    if n > 0 {
      var before := CreditUpTo(h, w, deposits, n - 1, env);
      CreditsAppend(h, w, deposits, n - 1, env);
      CallAppends(h, before, FromVault, deposits[n - 1].valueSats * WEI_PER_SAT, env(n - 1));
      AppendsTransitive(w.queue, before.queue, CreditUpTo(h, w, deposits, n, env).queue);
    }
  }

  lemma {:induction false} CreditsKeepStored(h: Hashes, w: World, deposits: seq<Deposit>, n: nat, env: nat -> Reaction)
    requires Stored(h, w.queue) && n <= |deposits|
    ensures Stored(h, CreditUpTo(h, w, deposits, n, env).queue)
  {
    hide Stored, Call;
    if n > 0 {
      CreditsKeepStored(h, w, deposits, n - 1, env);
      CallKeepsStored(h, CreditUpTo(h, w, deposits, n - 1, env), FromVault, deposits[n - 1].valueSats * WEI_PER_SAT,
                      env(n - 1));
    }
  }

  /** The supply cap. Cumulative successful credits never exceed the genesis reserve except by
      ether that was credited before and then forced back into the vault, and they stay within the
      reserve itself exactly as long as the vault still holds all ether forced into it. */
  lemma {:induction false} CreditsCapped(w: World)
    requires Books(w)
    ensures CreditedWei(w.credits) <= RESERVE + w.forcedVault
    ensures CreditedWei(w.credits) <= RESERVE <==> w.forcedVault <= w.vault
  {
  }

  /** Whether a credit keeps the cumulative total within the reserve can be told beforehand: it does
      unless it goes through and would leave the vault with less than was forced into it. */
  lemma {:induction false} CreditKeepsCapExactly(h: Hashes, w: World, d: Deposit, r: Reaction)
    requires Books(w) && CreditedWei(w.credits) <= RESERVE
    ensures CreditedWei(CreditOne(h, w, d, r).credits) <= RESERVE
       <==> !r.accepts || d.valueSats * WEI_PER_SAT > w.vault
            || d.valueSats * WEI_PER_SAT + w.forcedVault <= w.vault
  {
    hide CreditOne, SumRequests, CreditedWei, UnfundedOnlyWhenDry;
    CreditKeepsBooks(h, w, d, r);
    CreditedOneMore(w.credits, CreditOf(d, d.valueSats * WEI_PER_SAT <= w.vault, r.accepts));
  }

  /** A recipient that forces part of its credit back into the vault. */
  lemma {:induction false} CreditForcedBack(h: Hashes, w: World, d: Deposit, back: nat)
    requires back <= d.valueSats * WEI_PER_SAT <= w.vault
    ensures
      var w' := CreditOne(h, w, d, Reaction([ForceIntoVault(back)], true));
      w'.vault == w.vault - d.valueSats * WEI_PER_SAT + back && w'.credits == w.credits + [CreditOf(d, true, true)]
  {
    var amount := d.valueSats * WEI_PER_SAT;
    var force := ForceIntoVault(back);
    assert [force][..0] == [];
    assert DoAll(h, Handed(w, FromVault, amount), [force]) == Do(h, Handed(w, FromVault, amount), force);
  }

  /** A recipient that just takes its credit. */
  lemma {:induction false} CreditTaken(h: Hashes, w: World, d: Deposit)
    ensures
      var amount, w' := d.valueSats * WEI_PER_SAT, CreditOne(h, w, d, Reaction([], true));
      && w'.vault == w.vault - (if amount <= w.vault then amount else 0)
      && w'.credits == w.credits + [CreditOf(d, amount <= w.vault, true)]
  {
  }

  lemma {:induction false} TwoCredits(h: Hashes, w: World, d1: Deposit, d2: Deposit, env: nat -> Reaction)
    ensures CreditUpTo(h, w, [d1, d2], 2, env) == CreditOne(h, CreditOne(h, w, d1, env(0)), d2, env(1))
  {
    hide CreditOne;
    assert CreditUpTo(h, w, [d1, d2], 0, env) == w;
    assert CreditUpTo(h, w, [d1, d2], 1, env) == CreditOne(h, w, d1, env(0));
  }

  lemma {:induction false} TotalsOfTwo(a: CreditEvent, b: CreditEvent)
    ensures
      var log := [] + [a] + [b];
      && CreditedWei(log) == (if a.credited then a.amountSats * WEI_PER_SAT else 0)
                             + (if b.credited then b.amountSats * WEI_PER_SAT else 0)
      && RejectedWei(log) == (if a.funded && !a.credited then a.amountSats * WEI_PER_SAT else 0)
                             + (if b.funded && !b.credited then b.amountSats * WEI_PER_SAT else 0)
      && UnfundedWei(log) == (if a.funded then 0 else a.amountSats * WEI_PER_SAT)
                             + (if b.funded then 0 else b.amountSats * WEI_PER_SAT)
  {
    assert ([] + [a] + [b])[..1] == [a] && [a][..0] == [];
    assert RejectedWei([a]) == if a.funded && !a.credited then a.amountSats * WEI_PER_SAT else 0;
    assert UnfundedWei([a]) == if a.funded then 0 else a.amountSats * WEI_PER_SAT;
    assert CreditedWei([a]) == if a.credited then a.amountSats * WEI_PER_SAT else 0;
  }

  /** The cap on cumulative credits is not absolute: the first depositor is credited the whole
      reserve and forces one sat's worth back into the vault, which then credits one sat more. */
  lemma {:induction false} ForcedEtherLiftsCap(h: Hashes, alice: Address, bob: Address, env: nat -> Reaction)
    requires env(0) == Reaction([ForceIntoVault(WEI_PER_SAT)], true) && env(1) == Reaction([], true)
    ensures
      var deposits := [Deposit(alice, RESERVE_SATS), Deposit(bob, 1)];
      CreditedWei(CreditUpTo(h, GENESIS_WORLD, deposits, 2, env).credits) == RESERVE + WEI_PER_SAT
  {
    hide CreditOne, CreditUpTo, CreditedWei;
    var first, second := Deposit(alice, RESERVE_SATS), Deposit(bob, 1);
    TwoCredits(h, GENESIS_WORLD, first, second, env);
    CreditForcedBack(h, GENESIS_WORLD, first, WEI_PER_SAT);
    CreditTaken(h, CreditOne(h, GENESIS_WORLD, first, env(0)), second);
    TotalsOfTwo(CreditOf(first, true, true), CreditOf(second, true, true));
  }

  /** A credit may fail although nobody rejects it: once the whole reserve has been credited, the
      vault cannot pay one sat more, although its recipient would take it. */
  lemma {:induction false} DryVaultFailsCredit(h: Hashes, alice: Address, bob: Address, env: nat -> Reaction)
    requires env(0) == env(1) == Reaction([], true)
    ensures
      var w := CreditUpTo(h, GENESIS_WORLD, [Deposit(alice, RESERVE_SATS), Deposit(bob, 1)], 2, env);
      && w.vault == 0 && |w.credits| == 2 && !w.credits[1].credited
      && RejectedWei(w.credits) == 0 && UnfundedWei(w.credits) == WEI_PER_SAT
  {
    hide CreditOne, CreditUpTo, CreditedWei, RejectedWei, UnfundedWei;
    var first, second := Deposit(alice, RESERVE_SATS), Deposit(bob, 1);
    TwoCredits(h, GENESIS_WORLD, first, second, env);
    CreditTaken(h, GENESIS_WORLD, first);
    CreditTaken(h, CreditOne(h, GENESIS_WORLD, first, env(0)), second);
    TotalsOfTwo(CreditOf(first, true, true), CreditOf(second, false, true));
  }

  // ----- Refunds -----

  /** The record of the refund of request `r`, at index `i`: all that it had locked was sent to its
      requester, who took it or not. */
  ghost function RefundOf(i: U256, r: Request, taken: bool): RefundEvent {
    RefundEvent(i, r.requester, (r.valueSats + r.mainFeeSats) * WEI_PER_SAT, taken)
  }

  ghost function Marked(h: Hashes, w: World, i: U256): World {
    w.(queue := SetStatus(h, w.queue, i, Refunded))
  }

  /** Marking a bundled request as refunded frees its escrow: the balance then exceeds the books
      by exactly the amount about to be paid out. */
  lemma {:induction false} MarkingFreesEscrow(h: Hashes, w: World, i: U256)
    requires Solvent(w) && i < w.queue.requestCount && At(w.queue, i).status != Refunded
    ensures
      w.queue.balance == AmountWei(At(w.queue, i)) + WEI_PER_SAT * Total(Marked(h, w, i).queue, LockedSats)
                       + FailedRefunds(w.refunds) + w.forcedQueue
  {
    SumChangesAt(w.queue, Marked(h, w, i).queue, w.queue.requestCount, i, LockedSats);
  }

  /** No refund fails for lack of funds, and the books hold at every moment of the refund's
      external call: after each prefix of whatever the recipient does. */
  lemma {:induction false} SolventInsideRefund(h: Hashes, w: World, i: U256, r: Reaction, n: nat)
    requires Books(w) && i < w.queue.requestCount && At(w.queue, i).status == Bundled
    requires n <= |r.actions|
    ensures
      var amount := AmountWei(At(w.queue, i));
      && amount <= Funds(Marked(h, w, i), FromQueue)
      && Books(DoAll(h, Handed(Marked(h, w, i), FromQueue, amount), r.actions[..n]))
  {
    var marked := Marked(h, w, i);
    MarkingFreesEscrow(h, w, i);
    var handed := Handed(marked, FromQueue, AmountWei(At(w.queue, i)));
    TotalIgnoresBalance(marked.queue, handed.queue, LockedSats);
    ActionsKeepBooks(h, handed, r.actions[..n]);
  }

  lemma {:induction false} RefundAccepted(h: Hashes, w: World, i: U256, r: Reaction)
    requires Shape(w.queue) && i < w.queue.requestCount && At(w.queue, i).status == Bundled
    ensures RefundOne(h, w, i, r).Some?
  {
    assert GoodRequest(w.queue.requests[i]);
  }

  /** A refund goes to the requester, for all that the request had locked, and is paid whenever the
      requester takes it: the event says so. */
  lemma {:induction false} RefundKeepsBooks(h: Hashes, w: World, i: U256, r: Reaction)
    requires Books(w) && i < w.queue.requestCount && RefundOne(h, w, i, r).Some?
    ensures Books(RefundOne(h, w, i, r).value) && RefundOne(h, w, i, r).value.credits == w.credits
    ensures RefundOne(h, w, i, r).value.minted == w.minted
    ensures
      var request, log := At(w.queue, i), RefundOne(h, w, i, r).value.refunds;
      && |log| == |w.refunds| + 1 && log[..|w.refunds|] == w.refunds
      && log[|w.refunds|].index == i && log[|w.refunds|].requester == request.requester
      && log[|w.refunds|].amountWei == (request.valueSats + request.mainFeeSats) * WEI_PER_SAT
      && log[|w.refunds|].transferred == r.accepts
  {
    var amount := AmountWei(At(w.queue, i));
    var w' := RefundOne(h, w, i, r).value;
    var event := RefundOf(i, At(w.queue, i), r.accepts);
    assert (w.refunds + [event])[..|w.refunds|] == w.refunds;
    MarkingFreesEscrow(h, w, i);
    if r.accepts {
      SolventInsideRefund(h, w, i, r, |r.actions|);
      assert r.actions[..|r.actions|] == r.actions;
      var during := DoAll(h, Handed(Marked(h, w, i), FromQueue, amount), r.actions);
      ActionsKeepLogs(h, Handed(Marked(h, w, i), FromQueue, amount), r.actions);
      assert w' == during.(refunds := w.refunds + [event]);
    } else {
      assert w' == Marked(h, w, i).(refunds := w.refunds + [event]);
    }
  }

  /** A refund passes its checks exactly for a bundled request whose amount in wei fits a word. */
  lemma {:induction false} RefundPassesExactly(h: Hashes, w: World, i: U256, r: Reaction)
    ensures RefundOne(h, w, i, r).Some?
       <==> At(w.queue, i).status == Bundled
            && (At(w.queue, i).valueSats + At(w.queue, i).mainFeeSats) * WEI_PER_SAT < TWO_256
  {
    hide DoAll, SetStatus;
  }

  /** A refund marks the request, then lets its requester, if it takes the ether, run; one that does not
      leaves nothing but the mark and the record. */
  lemma {:induction false} RefundRunsRequester(h: Hashes, w: World, i: U256, r: Reaction)
    requires Books(w) && i < w.queue.requestCount && RefundOne(h, w, i, r).Some?
    ensures
      var amount := AmountWei(At(w.queue, i));
      && At(w.queue, i).status == Bundled && amount <= Funds(Marked(h, w, i), FromQueue)
      && RefundOne(h, w, i, r).value
         == (if r.accepts then DoAll(h, Handed(Marked(h, w, i), FromQueue, amount), r.actions) else Marked(h, w, i))
            .(refunds := w.refunds + [RefundOf(i, At(w.queue, i), r.accepts)])
  {
    hide Books, DoAll;
    SolventInsideRefund(h, w, i, r, 0);
    ActionsKeepLogs(h, Handed(Marked(h, w, i), FromQueue, AmountWei(At(w.queue, i))), r.actions);
  }

  /** A credit the vault can pay lets its recipient, if it takes the ether, run; any other leaves nothing
      but the record. */
  lemma {:induction false} CreditRunsRecipient(h: Hashes, w: World, d: Deposit, r: Reaction)
    ensures
      var amount := d.valueSats * WEI_PER_SAT;
      var log := w.credits + [CreditOf(d, amount <= w.vault, r.accepts)];
      CreditOne(h, w, d, r)
      == if amount <= w.vault && r.accepts
         then DoAll(h, Handed(w, FromVault, amount), r.actions).(credits := log)
         else w.(credits := log)
  {
    if d.valueSats * WEI_PER_SAT <= w.vault && r.accepts {
      ActionsKeepLogs(h, Handed(w, FromVault, d.valueSats * WEI_PER_SAT), r.actions);
    }
  }

  lemma {:induction false} ActionsKeepLogs(h: Hashes, w: World, actions: seq<Action>)
    ensures DoAll(h, w, actions).refunds == w.refunds && DoAll(h, w, actions).credits == w.credits
    ensures DoAll(h, w, actions).minted == w.minted
  {
    if actions != [] {
      ActionsKeepLogs(h, w, actions[..|actions| - 1]);
    }
  }

  lemma {:induction false} RefundAppends(h: Hashes, w: World, i: U256, r: Reaction)
    requires Shape(w.queue) && i < w.queue.requestCount && RefundOne(h, w, i, r).Some?
    ensures Shape(RefundOne(h, w, i, r).value.queue)
    ensures Appends(SetStatus(h, w.queue, i, Refunded), RefundOne(h, w, i, r).value.queue)
  {
    assert GoodRequest(w.queue.requests[i]);
    CallAppends(h, Marked(h, w, i), FromQueue, AmountWei(At(w.queue, i)), r);
  }

  lemma {:induction false} RefundKeepsStored(h: Hashes, w: World, i: U256, r: Reaction)
    requires Stored(h, w.queue) && i < w.queue.requestCount && RefundOne(h, w, i, r).Some?
    ensures Stored(h, RefundOne(h, w, i, r).value.queue)
  {
    SetStatusStored(h, w.queue, i, Refunded);
    CallKeepsStored(h, Marked(h, w, i), FromQueue, AmountWei(At(w.queue, i)), r);
  }
}
