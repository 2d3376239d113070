// The two predeployed contracts as functions of the sidechain's state: what a withdrawal
// request, a lifecycle call and a credit call do, with recipients of ether free to re-enter.

module PegState {
  import opened ByteCodec
  import opened M6
  import opened QueueStorage

  const WEI_PER_SAT: nat := 10_000_000_000

  /** 21,000,000 BTC in wei: the vault's genesis balance. */
  const RESERVE: nat := 21_000_000_000_000_000_000_000_000

  const SYSTEM_ADDRESS: Address := 0xffff_ffff_ffff_ffff_ffff_ffff_ffff_ffff_ffff_fffe

  /** The transfers recorded by `WithdrawalRefunded` and `DepositCredited`: to whom, how much, and
      whether it went through; for a credit also whether the vault could pay it. */
  datatype RefundEvent = RefundEvent(index: U256, requester: Address, amountWei: nat, transferred: bool)

  datatype CreditEvent = CreditEvent(recipient: Address, amountSats: U256, funded: bool, credited: bool)

  datatype Deposit = Deposit(address: Address, valueSats: u64)

  /** `circulating` is everything held outside the two contracts. Ether can be forced into a
      contract without calling it, fees are burned, and a block's EIP-4895 list mints; all of it is
      counted. */
  datatype World = World(queue: Queue, vault: nat, circulating: nat, burned: nat,
                         forcedQueue: nat, forcedVault: nat, minted: nat,
                         refunds: seq<RefundEvent>, credits: seq<CreditEvent>)

  const GENESIS_WORLD := World(EMPTY_QUEUE, RESERVE, 0, 0, 0, 0, 0, [], [])

  // ----- What anyone can do -----

  datatype Action =
    | RequestWithdrawal(sender: Address, btcDestination: Script, mainFeeSats: U256, valueWei: U256)
    | ForceIntoQueue(amountWei: nat)
    | ForceIntoVault(amountWei: nat)
    | Burn(amountWei: nat)

  datatype RequestError = ZeroAmount | NotWholeSats | FeeExceedsValue | AmountTooLarge | TooManyRequests

  /** The checks of `requestWithdrawal`, in order, and the request they let through. */
  function CheckRequest(q: Queue, sender: Address, btcDestination: Script, mainFeeSats: U256, valueWei: U256)
    : (r: Result<Request, RequestError>)
    ensures r.Ok? ==> q.requestCount + 1 < TWO_256
  {
    var totalSats := valueWei / WEI_PER_SAT;
    if valueWei == 0 then Err(ZeroAmount)
    else if valueWei % WEI_PER_SAT != 0 then Err(NotWholeSats)
    else if mainFeeSats >= totalSats then Err(FeeExceedsValue)
    else if totalSats > U64_MAX then Err(AmountTooLarge)
    else if q.requestCount + 1 >= TWO_256 then Err(TooManyRequests)
    else Ok(Request(sender, totalSats - mainFeeSats, mainFeeSats, btcDestination, Pending, 0))
  }

  function Withdraw(h: Hashes, w: World, r: Request, valueWei: nat): World
    requires w.queue.requestCount + 1 < TWO_256 && valueWei <= w.circulating
  {
    w.(queue := Push(h, w.queue, r).(balance := w.queue.balance + valueWei), circulating := w.circulating - valueWei)
  }

  /** An action nobody can pay for, or one the contract rejects, changes nothing. */
  function Do(h: Hashes, w: World, a: Action): World {
    match a
    case RequestWithdrawal(sender, dest, fee, valueWei) =>
      var checked := CheckRequest(w.queue, sender, dest, fee, valueWei);
      if checked.Ok? && valueWei <= w.circulating then Withdraw(h, w, checked.value, valueWei) else w
    case ForceIntoQueue(amount) =>
      if amount > w.circulating then w
      else w.(queue := w.queue.(balance := w.queue.balance + amount),
              forcedQueue := w.forcedQueue + amount, circulating := w.circulating - amount)
    case ForceIntoVault(amount) =>
      if amount > w.circulating then w
      else w.(vault := w.vault + amount, forcedVault := w.forcedVault + amount, circulating := w.circulating - amount)
    case Burn(amount) =>
      if amount > w.circulating then w
      else w.(burned := w.burned + amount, circulating := w.circulating - amount)
  }

  function DoAll(h: Hashes, w: World, actions: seq<Action>): World {
    if actions == [] then w else Do(h, DoAll(h, w, actions[..|actions| - 1]), actions[|actions| - 1])
  }

  // ----- EIP-4895 -----

  /** Where an entry of a block's EIP-4895 list puts its ether; no code runs. */
  datatype Payee = AnAccount | TheQueue | TheVault

  datatype Mint = Mint(payee: Payee, amountWei: nat)

  function MintOne(w: World, x: Mint): World {
    var minted := w.minted + x.amountWei;
    match x.payee
    case AnAccount => w.(circulating := w.circulating + x.amountWei, minted := minted)
    case TheQueue => w.(queue := w.queue.(balance := w.queue.balance + x.amountWei),
                        forcedQueue := w.forcedQueue + x.amountWei, minted := minted)
    case TheVault => w.(vault := w.vault + x.amountWei, forcedVault := w.forcedVault + x.amountWei, minted := minted)
  }

  function MintAll(w: World, mints: seq<Mint>): World {
    if mints == [] then w else MintOne(MintAll(w, mints[..|mints| - 1]), mints[|mints| - 1])
  }

  function MintedWei(mints: seq<Mint>): nat {
    if mints == [] then 0 else MintedWei(mints[..|mints| - 1]) + mints[|mints| - 1].amountWei
  }

  // ----- External calls -----

  /** What the recipient of a transfer does with the control it gets: any sequence of actions,
      after which it returns or reverts. */
  datatype Reaction = Reaction(actions: seq<Action>, accepts: bool)

  /** Whether each of the first `n` recipients takes its transfer. */
  ghost function Answers(env: nat -> Reaction, n: nat): (answers: seq<bool>)
    ensures |answers| == n && forall k :: 0 <= k < n ==> answers[k] == env(k).accepts
  {
    if n == 0 then [] else Answers(env, n - 1) + [env(n - 1).accepts]
  }

  datatype Payer = FromQueue | FromVault

  function Funds(w: World, payer: Payer): nat {
    match payer case FromQueue => w.queue.balance case FromVault => w.vault
  }

  /** The state the recipient's code starts in. */
  function Handed(w: World, payer: Payer, amount: nat): World
    requires amount <= Funds(w, payer)
  {
    match payer
    case FromQueue => w.(queue := w.queue.(balance := w.queue.balance - amount), circulating := w.circulating + amount)
    case FromVault => w.(vault := w.vault - amount, circulating := w.circulating + amount)
  }

  /** `recipient.call{value: amount}("")`: false, with everything undone, when the payer lacks
      the funds or the recipient reverts. */
  function Call(h: Hashes, w: World, payer: Payer, amount: nat, r: Reaction): (World, bool) {
    if amount > Funds(w, payer) || !r.accepts then (w, false)
    else (DoAll(h, Handed(w, payer, amount), r.actions), true)
  }

  // ----- DepositVault.systemCreditDeposits -----

  function Credit(h: Hashes, w: World, recipient: Address, amountSats: U256, r: Reaction): World {
    var funded := amountSats * WEI_PER_SAT <= w.vault;
    var (w', success) := Call(h, w, FromVault, amountSats * WEI_PER_SAT, r);
    w'.(credits := w'.credits + [CreditEvent(recipient, amountSats, funded, success)])
  }

  /** After the first `n` turns of the contract's loop; None: a panic reverted the call, because
      the second array is the shorter or an amount in wei does not fit a word. */
  function CreditArrays(h: Hashes, w: World, recipients: seq<Address>, amountsSats: seq<U256>, n: nat,
                        env: nat -> Reaction): Option<World>
    requires n <= |recipients|
  {
    if n == 0 then Some(w) else
      var w' :- CreditArrays(h, w, recipients, amountsSats, n - 1, env);
      if n > |amountsSats| || amountsSats[n - 1] * WEI_PER_SAT >= TWO_256 then None
      else Some(Credit(h, w', recipients[n - 1], amountsSats[n - 1], env(n - 1)))
  }

  function SystemCredit(h: Hashes, w: World, sender: Address, recipients: seq<Address>, amountsSats: seq<U256>,
                        env: nat -> Reaction): Option<World>
  {
    if sender != SYSTEM_ADDRESS then None else CreditArrays(h, w, recipients, amountsSats, |recipients|, env)
  }

  // The two arrays the node passes.

  function Recipients(deposits: seq<Deposit>): (recipients: seq<Address>)
    ensures |recipients| == |deposits|
    ensures forall k :: 0 <= k < |deposits| ==> recipients[k] == deposits[k].address
  {
    seq(|deposits|, k requires 0 <= k < |deposits| => deposits[k].address)
  }

  function AmountsSats(deposits: seq<Deposit>): (amounts: seq<U256>)
    ensures |amounts| == |deposits|
    ensures forall k :: 0 <= k < |deposits| ==> amounts[k] == deposits[k].valueSats
  {
    seq(|deposits|, k requires 0 <= k < |deposits| => deposits[k].valueSats)
  }

  function CreditOne(h: Hashes, w: World, d: Deposit, r: Reaction): World {
    Credit(h, w, d.address, d.valueSats, r)
  }

  /** After the first `n` deposits; `env(k)` is how the `k`-th recipient reacts. */
  function CreditUpTo(h: Hashes, w: World, deposits: seq<Deposit>, n: nat, env: nat -> Reaction): World
    requires n <= |deposits|
  {
    if n == 0 then w else CreditOne(h, CreditUpTo(h, w, deposits, n - 1, env), deposits[n - 1], env(n - 1))
  }

  /** The call a node makes for its deposits never panics, and credits them in turn. */
  lemma {:induction false} DepositsAreCredited(h: Hashes, w: World, deposits: seq<Deposit>, n: nat,
                                               env: nat -> Reaction)
    requires n <= |deposits|
    ensures CreditArrays(h, w, Recipients(deposits), AmountsSats(deposits), n, env)
         == Some(CreditUpTo(h, w, deposits, n, env))
  {
    hide Credit;
    if n > 0 {
      DepositsAreCredited(h, w, deposits, n - 1, env);
    }
  }

  // ----- WithdrawalRequestQueue.systemReportBundleLifecycle -----

  /** None: the call reverts. */
  function BundleUpTo(h: Hashes, q: Queue, indices: seq<U256>, n: nat, m6id: U256): Option<Queue>
    requires n <= |indices|
  {
    if n == 0 then Some(q) else
      var q' :- BundleUpTo(h, q, indices, n - 1, m6id);
      var i := indices[n - 1];
      if At(q', i).status != Pending then None
      else Some(SetBundle(h, SetStatus(h, q', i, Bundled), i, m6id))
  }

  function ConfirmUpTo(h: Hashes, q: Queue, indices: seq<U256>, n: nat): Option<Queue>
    requires n <= |indices|
  {
    if n == 0 then Some(q) else
      var q' :- ConfirmUpTo(h, q, indices, n - 1);
      var i := indices[n - 1];
      if At(q', i).status != Bundled then None else Some(SetStatus(h, q', i, Confirmed))
  }

  function AmountWei(r: Request): nat {
    (r.valueSats + r.mainFeeSats) * WEI_PER_SAT
  }

  /** The request is marked before its requester is called, whatever the call returns. */
  function RefundOne(h: Hashes, w: World, i: U256, r: Reaction): Option<World> {
    var request := At(w.queue, i);
    if request.status != Bundled || AmountWei(request) >= TWO_256 then None else
      var marked := w.(queue := SetStatus(h, w.queue, i, Refunded));
      var (w', success) := Call(h, marked, FromQueue, AmountWei(request), r);
      Some(w'.(refunds := w'.refunds + [RefundEvent(i, request.requester, AmountWei(request), success)]))
  }

  function RefundUpTo(h: Hashes, w: World, indices: seq<U256>, n: nat, env: nat -> Reaction): Option<World>
    requires n <= |indices|
  {
    if n == 0 then Some(w) else
      var w' :- RefundUpTo(h, w, indices, n - 1, env);
      RefundOne(h, w', indices[n - 1], env(n - 1))
  }

  function Lifecycle(h: Hashes, w: World, sender: Address, bundled: seq<U256>, newM6id: U256,
                     succeeded: seq<U256>, failed: seq<U256>, env: nat -> Reaction): Option<World> {
    if sender != SYSTEM_ADDRESS then None else
      var q1 :- BundleUpTo(h, w.queue, bundled, |bundled|, newM6id);
      var q2 :- ConfirmUpTo(h, q1, succeeded, |succeeded|);
      RefundUpTo(h, w.(queue := q2), failed, |failed|, env)
  }
}
