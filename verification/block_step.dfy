// The protocol work at the start of every block: credit the deposits of the block's mainchain
// range, then advance the queue by what the parent's storage and that range's outcomes decide.

module BlockStep {
  import opened ByteCodec
  import opened M6
  import opened Selection
  import opened SelectionLaws
  import opened QueueStorage
  import opened StorageReader
  import opened PegState
  import opened Mainchain
  import opened LifecycleUpdate
  import opened Contracts

  /** `Panicked`: the storage reader aborted. */
  datatype BlockError = BadExtraData | FromEnforcer(error: EnforcerError) | Panicked

  /** `B256::try_from(extraData)`; genesis has none. */
  function MainHash(extraData: Bytes): Option<U256> {
    if |extraData| == 32 then Some(WordOf(extraData)) else None
  }

  /** A header names the mainchain block whose hash its extraData is, byte for byte; of any other length
      than 32 bytes it names none. */
  lemma {:induction false} MainHashExactly(extraData: Bytes, x: U256)
    ensures MainHash(extraData) == Some(x) <==> extraData == BigEndian(x, 32)
    ensures MainHash(extraData) == None <==> |extraData| != 32
  {
    Pow256Values();
    BigEndianRoundTrip(x, 32);
    FromBigEndianRoundTrip(extraData);
  }

  /** The height a bundle commits to: the block number, saturating first at 64, then at 32 bits. */
  function BundleHeight(number: nat): u32 {
    Min(Min(number, U64_MAX), U32_MAX)
  }

  /** What a block's system calls did: the state they left, what the range contained, and the
      bundle assigned, if any. */
  datatype Executed = Executed(world: World, deposits: seq<Deposit>, outcomes: seq<Outcome>,
                               accepted: bool, bundle: Option<WithdrawalBundle>)

  ghost function SystemCall(h: Hashes, w: World, u: BundleLifecycleUpdate, requesters: nat -> Reaction): Option<World> {
    Lifecycle(h, w, SYSTEM_ADDRESS, u.bundledIndices, if u.newM6id.Some? then u.newM6id.value else 0,
              u.succeededIndices, u.failedIndices, requesters)
  }

  /** The lifecycle call, skipped when there is nothing to say. Its result is committed whether or
      not it reverted; reverting leaves `w` as it is. */
  ghost function Report(h: Hashes, g: Gathered, u: BundleLifecycleUpdate, bundle: Option<WithdrawalBundle>,
                      requesters: nat -> Reaction): Executed {
    var called := SystemCall(h, g.credited, u, requesters);
    if u.IsEmpty() then Executed(g.credited, g.deposits, g.outcomes, true, None)
    else if called.None? then Executed(g.credited, g.deposits, g.outcomes, false, None)
    else Executed(called.value, g.deposits, g.outcomes, true, bundle)
  }

  /** What a block's lifecycle call is decided from: the state its credits left, the parent's
      requests, and the events of its range. */
  datatype Gathered = Gathered(credited: World, entries: seq<RequestEntry>, deposits: seq<Deposit>,
                               outcomes: seq<Outcome>)

  /** `w` is the state of the parent block, and its queue storage is what is read. */
  ghost function Gather(h: Hashes, m: Mainchain, w: World, parentExtraData: Bytes, extraData: Bytes,
                        recipients: nat -> Reaction): Result<Gathered, BlockError>
    requires Tree(m)
  {
    var mainHash := MainHash(extraData);
    if mainHash.None? then Err(BadExtraData) else
      var deposits := DepositsInRange(m, MainHash(parentExtraData), mainHash.value);
      if deposits.Err? then Err(FromEnforcer(deposits.error)) else
        var credited := CreditUpTo(h, w, deposits.value, |deposits.value|, recipients);
        var entries := EntriesUpTo(h, w.queue.slots, ReadU64(w.queue.slots, 0));
        if entries.None? then Err(Panicked) else
          var outcomes := OutcomesInRange(m, MainHash(parentExtraData), mainHash.value);
          if outcomes.Err? then Err(FromEnforcer(outcomes.error))
          else Ok(Gathered(credited, entries.value, deposits.value, outcomes.value))
  }

  ghost function Advance(h: Hashes, g: Gathered, height: u32, requesters: nat -> Reaction): Executed {
    Report(h, g, UpdateFor(h, g.entries, g.outcomes, height), Selected(h, PendingOf(g.entries), height), requesters)
  }

  ghost function PreExecution(h: Hashes, m: Mainchain, w: World, parentExtraData: Bytes, extraData: Bytes, number: nat,
                              recipients: nat -> Reaction, requesters: nat -> Reaction): Result<Executed, BlockError>
    requires Tree(m)
  {
    if number == 0 then Ok(Executed(w, [], [], true, None)) else
      var gathered :- Gather(h, m, w, parentExtraData, extraData, recipients);
      Ok(Advance(h, gathered, BundleHeight(number), requesters))
  }

  class BlockExecutor {
    const evm: Evm

    constructor (evm: Evm)
      ensures this.evm == evm
    {
      this.evm := evm;
    }

    /** `parentSlots` is the queue's storage in the parent block, which the block starts from;
        the two replies are the enforcer's for this block's range. */
    method ApplyPreExecutionChanges(h: Hashes, ghost m: Mainchain, parentSlots: Slots, parentExtraData: Bytes,
                                    extraData: Bytes, number: nat,
                                    depositsReply: Option<seq<MainBlock>>, outcomesReply: Option<seq<MainBlock>>,
                                    recipients: nat -> Reaction, requesters: nat -> Reaction)
      returns (result: Result<(), BlockError>)
      requires Tree(m) && parentSlots == evm.queue.slots
      requires MainHash(extraData).Some?
        ==> Replies(m, MainHash(parentExtraData), MainHash(extraData).value, depositsReply)
      requires MainHash(extraData).Some?
        ==> Replies(m, MainHash(parentExtraData), MainHash(extraData).value, outcomesReply)
      modifies evm, evm.queue, evm.vault
      ensures
        match PreExecution(h, m, old(evm.State()), parentExtraData, extraData, number, recipients, requesters)
        case Err(e) => result == Err(e)
        case Ok(executed) => result == Ok(()) && evm.State() == executed.world
    {
      if number == 0 {
        return Ok(());
      }
      var parentMainHash := MainHash(parentExtraData);
      var mainHash := MainHash(extraData);
      if mainHash.None? {
        return Err(BadExtraData);
      }
      var deposits := Deposits(m, parentMainHash, mainHash.value, depositsReply);
      if deposits.Err? {
        return Err(FromEnforcer(deposits.error));
      }
      if |deposits.value| > 0 {
        var credited := evm.vault.SystemCreditDeposits(
          h, evm, SYSTEM_ADDRESS, Recipients(deposits.value), AmountsSats(deposits.value), recipients);
        DepositsAreCredited(h, old(evm.State()), deposits.value, |deposits.value|, recipients);
      }
      var allRequests := ReadAllRequests(h, parentSlots);
      if allRequests.None? {
        return Err(Panicked);
      }
      var outcomes := WithdrawalBundleEvents(m, parentMainHash, mainHash.value, outcomesReply);
      if outcomes.Err? {
        return Err(FromEnforcer(outcomes.error));
      }
      var update := ComputeLifecycleUpdate(h, allRequests.value, outcomes.value, BundleHeight(number));
      if !update.IsEmpty() {
        var newM6id := if update.newM6id.Some? then update.newM6id.value else 0;
        var accepted := evm.queue.SystemReportBundleLifecycle(
          h, evm, SYSTEM_ADDRESS, update.bundledIndices, newM6id, update.succeededIndices, update.failedIndices,
          requesters);
      }
      return Ok(());
    }
  }

  /** What the builder of the next block broadcasts, from its parent's storage and number. */
  ghost function Broadcast(h: Hashes, parentSlots: Slots, parentNumber: u64): Option<WithdrawalBundle> {
    var entries :- EntriesUpTo(h, parentSlots, ReadU64(parentSlots, 0));
    Selected(h, PendingOf(entries), Min(Min(parentNumber + 1, U64_MAX), U32_MAX))
  }

  /** The bundle a builder broadcasts is the bundle every node assigns in the block built. */
  lemma {:induction false} BroadcastIsAssigned(h: Hashes, m: Mainchain, w: World, parentNumber: u64,
                                               parentExtraData: Bytes,
                                               extraData: Bytes, recipients: nat -> Reaction,
                                               requesters: nat -> Reaction)
    requires Tree(m)
    ensures
      var executed := PreExecution(h, m, w, parentExtraData, extraData, parentNumber + 1, recipients, requesters);
      executed.Ok? && executed.value.accepted
      ==> executed.value.bundle == Broadcast(h, w.queue.slots, parentNumber)
  {
    hide Selected, UpdateFor, SystemCall, CreditUpTo, PendingOf;
    var gathered := Gather(h, m, w, parentExtraData, extraData, recipients);
    if gathered.Ok? && Advance(h, gathered.value, BundleHeight(parentNumber + 1), requesters).accepted {
      AcceptedAssignsSelected(h, gathered.value, BundleHeight(parentNumber + 1), requesters);
    }
  }

  lemma {:induction false} AcceptedAssignsSelected(h: Hashes, g: Gathered, height: u32, requesters: nat -> Reaction)
    requires Advance(h, g, height, requesters).accepted
    ensures Advance(h, g, height, requesters).bundle == Selected(h, PendingOf(g.entries), height)
  {
    if Selected(h, PendingOf(g.entries), height).Some? {
      BundleNotEmpty(h, PendingOf(g.entries), height);
    }
  }
}
