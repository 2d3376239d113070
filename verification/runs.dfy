// The main theorems: what holds of every branch grown from genesis, over any mainchain, whatever
// depositors, requesters and users do.

module Runs {
  import opened ByteCodec
  import opened M6
  import opened Aggregation
  import opened Selection
  import opened QueueStorage
  import opened StorageReader
  import opened PegState
  import opened Escrow
  import opened Mainchain
  import opened RawEvents
  import opened LifecycleUpdate
  import opened BlockStep
  import opened BlockEffect
  import opened Peg
  import opened History
  import opened Bundles
  import opened Outcomes
  import opened Payments
  import opened Backing
  import opened OnMainchain
  import opened Drain

  // ----- What every block keeps, whatever the mainchain does -----

  ghost predicate Invariant(h: Hashes, m: Mainchain, c: Chain)
    requires Tree(m)
  {
    && Sound(h, c.world)
    && CreditsFor([], c.world.credits, c.deposits, c.creditAnswers)
    && CaughtUp(m, c)
    && SeenAsNamed(m, c)
    && RefundsLogged(c.world.queue, c.world.refunds, c.refundAnswers)
    && Partition(h, c)
    && Honest(c)
  }

  lemma {:induction false} GenesisStored(h: Hashes)
    ensures Stored(h, EMPTY_QUEUE)
  {
    forall p | Used(EMPTY_QUEUE, p) ensures Load(EMPTY_QUEUE.slots, SlotOf(h, p)) == PlaceWord(EMPTY_QUEUE, p) {
      assert p == CountPlace;
    }
  }

  lemma {:induction false} GenesisInvariant(h: Hashes, m: Mainchain)
    requires Tree(m)
    ensures Invariant(h, m, GENESIS) && Fated(GENESIS)
    ensures Atomic(GENESIS.world.queue) && Balanced(h, GENESIS) && AllItemised(h, GENESIS)
  {
    hide Stored, Tree;
    GenesisStored(h);
    assert Shape(EMPTY_QUEUE) && Books(GENESIS_WORLD);
  }

  lemma {:induction false} CreditsJoin(a: seq<CreditEvent>, b: seq<CreditEvent>, before: seq<Deposit>,
                                       deposits: seq<Deposit>, answers: seq<bool>, more: seq<bool>)
    requires CreditsFor([], a, before, answers) && CreditsFor(a, b, deposits, more)
    ensures CreditsFor([], b, before + deposits, answers + more)
  {
    var all, taken := before + deposits, answers + more;
    forall k | 0 <= k < |all| ensures b[0 + k] == CreditOf(all[k], b[0 + k].funded, taken[k]) {
      if k < |a| {
        assert b[k] == b[..|a|][k] == a[k] && a[0 + k] == CreditOf(before[k], a[0 + k].funded, answers[k]);
      } else {
        var e := b[|a| + (k - |a|)];
        assert e == CreditOf(deposits[k - |a|], e.funded, more[k - |a|]);
      }
    }
  }

  lemma {:induction false} LogsKept(h: Hashes, c: Chain, c': Chain, x: Executed)
    requires Readable(c.world.queue) && Follows(h, c, c', x)
    requires CreditsFor([], c.world.credits, c.deposits, c.creditAnswers)
    requires RefundsLogged(c.world.queue, c.world.refunds, c.refundAnswers)
    ensures CreditsFor([], c'.world.credits, c'.deposits, c'.creditAnswers)
    ensures RefundsLogged(c'.world.queue, c'.world.refunds, c'.refundAnswers)
  {
    hide CreditsFor, RefundsLogged, LogGrows, Progresses, ResolvedOnce, Selected, PendingIn;
    CreditsJoin(c.world.credits, c'.world.credits, c.deposits, x.deposits, c.creditAnswers,
                c'.creditAnswers[|c.creditAnswers|..]);
    assert c'.creditAnswers == c.creditAnswers + c'.creditAnswers[|c.creditAnswers|..];
    RefundsStayLogged(h, c.world.queue, c'.world.queue, x.bundle, if x.accepted then x.outcomes else [],
                      c.world.refunds, c'.world.refunds, c.refundAnswers, c'.refundAnswers[|c.refundAnswers|..]);
    assert c'.refundAnswers == c.refundAnswers + c'.refundAnswers[|c.refundAnswers|..];
  }

  lemma {:induction false} ExtendKeepsInvariant(h: Hashes, m: Mainchain, c: Chain, b: Block, c': Chain)
    returns (x: Executed)
    requires Tree(m) && Invariant(h, m, c) && Apart(h, c.world.queue) && Extend(h, m, c, b) == Ok(c')
    ensures Readable(c.world.queue) && Follows(h, c, c', x)
    ensures Invariant(h, m, c')
  {
    hide Extend, Sound, CaughtUp, SeenAsNamed, RefundsLogged, Partition, Honest, CreditsFor, Follows, Apart,
         Readable;
    x := ExtendFollows(h, m, c, b, c');
    ExtendCatchesUp(h, m, c, b, c');
    SeenKept(h, m, c, c', x);
    LogsKept(h, c, c', x);
    PartitionKept(h, c, c', x);
    HonestKept(h, c, c', x);
  }

  lemma {:induction false} RunKeepsInvariant(h: Hashes, m: Mainchain, c: Chain, blocks: seq<Block>, c': Chain)
    requires Tree(m) && Invariant(h, m, c) && Grows(h, m, c, blocks, c')
    ensures Invariant(h, m, c')
  {
    if blocks != [] {
      hide Run, Extend, Invariant, Apart, ApartThroughout, Follows, Grows;
      var before, b := LastBlock(h, m, c, blocks, c');
      RunKeepsInvariant(h, m, c, blocks[..|blocks| - 1], before);
      var x := ExtendKeepsInvariant(h, m, before, b, c');
    }
  }

  lemma {:induction false} BranchInvariant(h: Hashes, m: Mainchain, blocks: seq<Block>, c: Chain)
    requires Tree(m) && Branch(h, m, blocks, c)
    ensures Invariant(h, m, c)
  {
    hide Grows, Invariant, Atomic, Balanced, Fated;
    GenesisInvariant(h, m);
    RunKeepsInvariant(h, m, GENESIS, blocks, c);
  }

  // ----- Safety of every branch -----

  /** On every branch: escrow and vault are exactly accounted for, no ether appears but from EIP-4895
      lists, credits stay within the genesis reserve (plus ether forced back into the vault; within
      the reserve itself, whatever is forced, as long as no more than that was ever deposited),
      every deposit and every report in the blocks of the mainchain path was processed once, every
      deposit was recorded for its address once and credited unless rejected there or beyond the
      reserve, every refunded request's requester was sent its refund once and got it unless it
      rejected it, and no status was invented. */
  lemma {:induction false} EveryBranchIsSafe(h: Hashes, m: Mainchain, blocks: seq<Block>, c: Chain)
    returns (path: seq<U256>, deposited: seq<Position>, reported: seq<Position>)
    requires Tree(m) && Branch(h, m, blocks, c)
    ensures Solvent(c.world) && VaultBooked(c.world) && SupplyConserved(c.world)
    ensures CreditedWei(c.world.credits) <= RESERVE + c.world.forcedVault
    ensures DepositedSats(c.deposits) <= RESERVE_SATS ==> CreditedWei(c.world.credits) <= RESERVE
    ensures CaughtUp(m, c) && SeenAsNamed(m, c)
    ensures PathOf(m, c, path) && forall i, j :: 0 <= i < j < |path| ==> path[i] != path[j]
    ensures Lists(m, path, c.deposits, DepositOn, deposited) && Lists(m, path, c.outcomes, OutcomeOn, reported)
    ensures CreditsFor([], c.world.credits, c.deposits, c.creditAnswers) && UnfundedOnlyWhenDry(c.world.credits)
    ensures RefundsLogged(c.world.queue, c.world.refunds, c.refundAnswers)
    ensures NoneInvented(m, path, c.world.queue)
  {
    hide Branch, CaughtUp, SeenAsNamed, RefundsLogged, Honest, Partition, Solvent, CreditedWei, CreditsFor, PathOf,
         Lists, NoneInvented;
    BranchInvariant(h, m, blocks, c);
    path, deposited, reported := EventsProcessedOnce(m, c);
    HonestIsNoneInvented(m, path, c, reported);
    CreditsCapped(c.world);
    RecordedIsDeposited(c.world.credits, c.deposits, c.creditAnswers);
  }

  /** On every branch the node reads from the raw slots exactly the requests the contract means. */
  lemma {:induction false} EveryBranchIsReadable(h: Hashes, m: Mainchain, blocks: seq<Block>, c: Chain)
    requires Tree(m) && Branch(h, m, blocks, c) && Apart(h, c.world.queue)
    ensures Readable(c.world.queue)
    ensures EntriesUpTo(h, c.world.queue.slots, ReadU64(c.world.queue.slots, 0)) == Some(Entries(c.world.queue))
  {
    hide Branch, CaughtUp, SeenAsNamed, RefundsLogged, Honest, Partition, Books, CreditsFor, EntriesUpTo, Apart,
         Readable, Legible;
    BranchInvariant(h, m, blocks, c);
    SoundIsReadable(h, c.world.queue);
    LegibleReads(h, c.world.queue);
  }

  /** The range of a block on top of branch `c`, when its extraData names a mainchain block that is
      the one `c` names or comes after it. */
  ghost function RangeOf(m: Mainchain, c: Chain, b: Block): Option<seq<U256>>
    requires Tree(m)
  {
    var mainHash :- MainHash(b.extraData);
    Path(m, MainHash(c.extraData), mainHash)
  }

  /** Every event in the blocks of a path can be read. */
  ghost predicate RangeWellFormed(m: Mainchain, path: seq<U256>) {
    forall p, e :: Stands(m, path, p, e) ==> WellFormed(e)
  }

  lemma {:induction false} RangeWellFormedIs(m: Mainchain, path: seq<U256>)
    requires forall i :: 0 <= i < |path| ==> path[i] in m.blocks
    ensures RangeWellFormed(m, path) <==> AllWellFormed(PathEvents(m, path))
  {
    hide PathEvents, Stands, WellFormed;
    var at := PathEventsStand(m, path);
    if RangeWellFormed(m, path) {
      forall i | 0 <= i < |PathEvents(m, path)| ensures WellFormed(PathEvents(m, path)[i]) {
        assert Stands(m, path, at[i], PathEvents(m, path)[i]);
      }
    }
    if AllWellFormed(PathEvents(m, path)) {
      forall p, e | Stands(m, path, p, e) ensures WellFormed(e) {
        var i :| 0 <= i < |at| && at[i] == p;
        SameEvent(m, path, p, e, PathEvents(m, path)[i]);
      }
    }
  }

  lemma {:induction false} SameEvent(m: Mainchain, path: seq<U256>, p: Position, e: MainEvent, e2: MainEvent)
    requires Stands(m, path, p, e) && Stands(m, path, p, e2)
    ensures e == e2
  {
  }

  lemma {:induction false} RangeInChain(m: Mainchain, c: Chain, b: Block)
    requires Tree(m) && RangeOf(m, c, b).Some?
    ensures forall i :: 0 <= i < |RangeOf(m, c, b).value| ==> RangeOf(m, c, b).value[i] in m.blocks
  {
    PathRises(m, MainHash(c.extraData), MainHash(b.extraData).value);
  }

  /** On every branch a block is valid, as far as its protocol work goes, exactly when its extraData
      names a mainchain block at or after the one its parent names, and every event in between is
      well formed: the storage reader never aborts. */
  lemma {:induction false} ValidExactlyWhenWellFormed(h: Hashes, m: Mainchain, blocks: seq<Block>, c: Chain, b: Block)
    requires Tree(m) && Branch(h, m, blocks, c) && Apart(h, c.world.queue)
    ensures RangeOf(m, c, b).Some?
        ==> forall i :: 0 <= i < |RangeOf(m, c, b).value| ==> RangeOf(m, c, b).value[i] in m.blocks
    ensures Extend(h, m, c, b).Ok? <==> RangeOf(m, c, b).Some? && RangeWellFormed(m, RangeOf(m, c, b).value)
  {
    hide Branch, EntriesUpTo, Apart, Collected, Path, Advance, CreditUpTo, WorldAfter, AllWellFormed;
    EveryBranchIsReadable(h, m, blocks, c);
    if RangeOf(m, c, b).Some? {
      RangeInChain(m, c, b);
      RangeWellFormedIs(m, RangeOf(m, c, b).value);
      WellFormedExactly(PathEvents(m, RangeOf(m, c, b).value));
    }
  }

  /** Why a block that is not valid is turned down: its extraData is not a hash; or it names no block at or
      after the one its parent names; or else for the error of the first deposit of its range that cannot
      be read, or, when all can, of the first report. */
  lemma {:induction false} InvalidBlockError(h: Hashes, m: Mainchain, blocks: seq<Block>, c: Chain, b: Block)
    requires Tree(m) && Branch(h, m, blocks, c) && Apart(h, c.world.queue)
    ensures Extend(h, m, c, b) == Err(BadExtraData) <==> |b.extraData| != 32
    ensures |b.extraData| == 32 && RangeOf(m, c, b).None? ==> Extend(h, m, c, b) == Err(FromEnforcer(Rpc))
    ensures RangeOf(m, c, b).Some?
        ==> forall i :: 0 <= i < |RangeOf(m, c, b).value| ==> RangeOf(m, c, b).value[i] in m.blocks
    ensures RangeOf(m, c, b).Some? && Extend(h, m, c, b).Err? ==>
      var events := PathEvents(m, RangeOf(m, c, b).value);
      && (Collected(events, DepositOf).Err?
          ==> Extend(h, m, c, b) == Err(FromEnforcer(Collected(events, DepositOf).error)))
      && (Collected(events, DepositOf).Ok?
          ==> Collected(events, OutcomeOf).Err?
              && Extend(h, m, c, b) == Err(FromEnforcer(Collected(events, OutcomeOf).error)))
  {
    hide Branch, EntriesUpTo, Apart, Collected, Path, Advance, CreditUpTo, WorldAfter, PathEvents;
    EveryBranchIsReadable(h, m, blocks, c);
    if RangeOf(m, c, b).Some? {
      RangeInChain(m, c, b);
    }
  }

  /** One malformed event is enough: whoever put it on the mainchain, no branch ever gets past the
      block it is in, because no branch's path to the block it names contains that block. */
  lemma {:induction false} MalformedEventStopsBranch(h: Hashes, m: Mainchain, blocks: seq<Block>, c: Chain, x: U256,
                                                     e: MainEvent) returns (path: seq<U256>)
    requires Tree(m) && Branch(h, m, blocks, c)
    requires x in m.blocks && m.blocks[x].info.Some? && e in m.blocks[x].info.value && !WellFormed(e)
    ensures PathOf(m, c, path) && x !in path
  {
    hide Branch, SeenAsNamed, RefundsLogged, Honest, Partition, Sound, CreditsFor, WellFormed, Path, Collected;
    BranchInvariant(h, m, blocks, c);
    if c.number == 0 {
      return [];
    }
    path := ProcessedPath(m, c);
    NamedPath(m, c, path);
    WellFormedExactly(PathEvents(m, path));
    forall k | 0 <= k < |path| ensures path[k] != x {
      if e in EventsOf(m.blocks[path[k]]) {
        PathEventsInclude(m, path, k, e);
      }
    }
  }

  /** A block may name the mainchain block its parent names: it is valid, and nothing is processed
      twice. */
  lemma {:induction false} SameMainBlockAgain(h: Hashes, m: Mainchain, blocks: seq<Block>, c: Chain, b: Block)
    requires Tree(m) && Branch(h, m, blocks, c) && Apart(h, c.world.queue)
    requires c.number > 0 && b.extraData == c.extraData
    ensures Extend(h, m, c, b).Ok?
    ensures Extend(h, m, c, b).value.deposits == c.deposits && Extend(h, m, c, b).value.outcomes == c.outcomes
  {
    hide Branch, EntriesUpTo, Apart, UpdateFor, SystemCall, Selected, CreditUpTo, WorldAfter, CreditsFor,
         RefundsLogged, Honest, Partition, Sound, SeenAsNamed;
    BranchInvariant(h, m, blocks, c);
    var x := MainHash(c.extraData).value;
    assert Path(m, None, x).Some?;
    assert InRange(m, Some(x), x, DepositOf) == Ok([]) && InRange(m, Some(x), x, OutcomeOf) == Ok([]);
    assert RangeOf(m, c, b) == Some([]);
    ValidExactlyWhenWellFormed(h, m, blocks, c, b);
    assert c.deposits + [] == c.deposits && c.outcomes + [] == c.outcomes;
  }

  /** Between any two points of a branch, requests only move along their lifecycle. */
  lemma {:induction false} RequestsOnlyEvolve(h: Hashes, m: Mainchain, c: Chain, blocks: seq<Block>, c': Chain)
    requires Tree(m) && Invariant(h, m, c) && Grows(h, m, c, blocks, c')
    ensures AllEvolved(c.world.queue, c'.world.queue)
  {
    if blocks != [] {
      hide Run, Extend, Invariant, Apart, ApartThroughout, Grows, Readable, Progresses, AllEvolved;
      var before, b := LastBlock(h, m, c, blocks, c');
      RunKeepsInvariant(h, m, c, blocks[..|blocks| - 1], before);
      RequestsOnlyEvolve(h, m, c, blocks[..|blocks| - 1], before);
      var x := ExtendKeepsInvariant(h, m, before, b, c');
      ProgressEvolves(h, c.world.queue, before.world.queue, c'.world.queue, x.bundle,
                      if x.accepted then x.outcomes else []);
    }
  }

  /** As long as no more than the reserve was ever deposited, every deposit of a branch is credited
      unless its recipient rejects it. */
  lemma {:induction false} DepositsWithinReserveAreCredited(h: Hashes, m: Mainchain, blocks: seq<Block>, c: Chain,
                                                            k: nat)
    requires Tree(m) && Branch(h, m, blocks, c)
    requires DepositedSats(c.deposits) <= RESERVE_SATS && k < |c.deposits|
    ensures |c.world.credits| == |c.deposits| == |c.creditAnswers|
    ensures c.world.credits[k] == CreditOf(c.deposits[k], true, c.creditAnswers[k])
  {
    hide Branch, CaughtUp, SeenAsNamed, RefundsLogged, Honest, Partition, Solvent, CreditedWei, UnfundedOnlyWhenDry;
    BranchInvariant(h, m, blocks, c);
    WithinReserveAllFunded(c.world.credits, c.deposits, c.creditAnswers, k);
  }

  lemma {:induction false} BlockMints(h: Hashes, m: Mainchain, c: Chain, b: Block, c': Chain)
    requires Tree(m) && Invariant(h, m, c) && Apart(h, c.world.queue) && Extend(h, m, c, b) == Ok(c')
    ensures c'.world.minted == c.world.minted + MintedWei(b.mints)
  {
    hide Extend, Execute, Apart, Readable, Follows, CaughtUp, SeenAsNamed, RefundsLogged, Honest, Partition, Sound,
         CreditsFor, MintedWei;
    var x := ExtendFollows(h, m, c, b, c');
  }

  /** While no block of a branch carries an EIP-4895 list, nothing is minted. */
  lemma {:induction false} NoListsNothingMinted(h: Hashes, m: Mainchain, blocks: seq<Block>, c: Chain)
    requires Tree(m) && Branch(h, m, blocks, c)
    requires forall k :: 0 <= k < |blocks| ==> blocks[k].mints == []
    ensures c.world.minted == 0 && FewMinted(c.world)
  {
    if blocks != [] {
      hide Grows, Extend, Run, ApartThroughout, Apart, Invariant;
      var before, b := LastBlock(h, m, GENESIS, blocks, c);
      NoListsNothingMinted(h, m, blocks[..|blocks| - 1], before);
      BranchInvariant(h, m, blocks[..|blocks| - 1], before);
      BlockMints(h, m, before, b, c);
    }
  }

  // ----- With collision-free hashes -----

  lemma {:induction false} CollisionFreeBefore(h: Hashes, a: seq<Assignment>, b: seq<Assignment>)
    requires CollisionFree(h, a + b)
    ensures CollisionFree(h, a)
  {
    hide NoCollision;
    forall j, k | 0 <= j < k < |a|
      ensures NoCollision(h, a[j].bundle.requestIndices, BundleHeight(a[j].number), a[j].bundle.tx,
                          a[k].bundle.requestIndices, BundleHeight(a[k].number), a[k].bundle.tx)
    {
      assert (a + b)[j] == a[j] && (a + b)[k] == a[k];
    }
  }

  lemma {:induction false} RunKeepsAtomic(h: Hashes, m: Mainchain, c: Chain, blocks: seq<Block>, c': Chain)
    requires Tree(m) && Invariant(h, m, c) && Grows(h, m, c, blocks, c')
    requires CollisionFree(h, c'.bundles) && Atomic(c.world.queue)
    ensures Atomic(c'.world.queue)
  {
    if blocks != [] {
      hide Run, Extend, Apart, ApartThroughout, Grows, Readable, Effective, LogGrows, Atomic, CollisionFree, Sound,
           CaughtUp, SeenAsNamed, RefundsLogged, Partition, Honest, CreditsFor;
      var before, b := LastBlock(h, m, c, blocks, c');
      RunKeepsInvariant(h, m, c, blocks[..|blocks| - 1], before);
      var x := ExtendKeepsInvariant(h, m, before, b, c');
      CollisionFreeBefore(h, before.bundles, Assigned(x.bundle, c'.number, MainHash(c'.extraData), |c'.outcomes|));
      RunKeepsAtomic(h, m, c, blocks[..|blocks| - 1], before);
      AtomicKept(h, before, c', x);
    }
  }

  lemma {:induction false} RunKeepsPayments(h: Hashes, m: Mainchain, c: Chain, blocks: seq<Block>, c': Chain)
    requires Tree(m) && Invariant(h, m, c) && Grows(h, m, c, blocks, c')
    requires CollisionFree(h, c'.bundles) && FewMinted(c'.world) && Balanced(h, c) && AllItemised(h, c)
    ensures Balanced(h, c') && AllItemised(h, c')
  {
    if blocks != [] {
      hide Run, Extend, Apart, ApartThroughout, Grows, Readable, Effective, LogGrows, Balanced, AllItemised,
           CollisionFree, Shape, Books, Stored, CaughtUp, SeenAsNamed, RefundsLogged, Partition, Honest, CreditsFor;
      var before, b := LastBlock(h, m, c, blocks, c');
      RunKeepsInvariant(h, m, c, blocks[..|blocks| - 1], before);
      var x := ExtendKeepsInvariant(h, m, before, b, c');
      CollisionFreeBefore(h, before.bundles, Assigned(x.bundle, c'.number, MainHash(c'.extraData), |c'.outcomes|));
      RunKeepsPayments(h, m, c, blocks[..|blocks| - 1], before);
      BalancedKept(h, before, c', x);
      ItemisedKept(h, before, c', x);
    }
  }

  /** On every branch: the requests carrying a bundle's m6id are exactly those one selection chose,
      and they all have the same status. */
  lemma {:induction false} BundlesResolveAtomically(h: Hashes, m: Mainchain, blocks: seq<Block>, c: Chain, j: nat)
    requires Tree(m) && Branch(h, m, blocks, c) && CollisionFree(h, c.bundles) && j < |c.bundles|
    ensures Atomic(c.world.queue)
    ensures Built(h, c.bundles[j].bundle, c.bundles[j].number) && c.bundles[j].bundle.requestIndices != []
    ensures forall i :: 0 <= i < c.world.queue.requestCount ==>
              (i in c.bundles[j].bundle.requestIndices
               <==> At(c.world.queue, i).status != Pending
                    && At(c.world.queue, i).bundleM6id == M6id(h, c.bundles[j].bundle))
  {
    hide Grows, Sound, CaughtUp, SeenAsNamed, RefundsLogged, Honest, Built, Disjoint, InSome, Atomic, CollisionFree,
         M6id, Balanced, Fated, CreditsFor;
    GenesisInvariant(h, m);
    BranchInvariant(h, m, blocks, c);
    RunKeepsAtomic(h, m, GENESIS, blocks, c);
    assert Holds(h, c.world.queue, c.bundles[j].bundle);
    forall i | 0 <= i < c.world.queue.requestCount
      ensures i in c.bundles[j].bundle.requestIndices
         <==> At(c.world.queue, i).status != Pending && At(c.world.queue, i).bundleM6id == M6id(h, c.bundles[j].bundle)
    {
      BundleIsWhatWasSelected(h, c, j, i);
    }
  }

  /** On every branch, for every bundle: each payout is worth exactly what the requests it holds asked
      to be paid to that script, each script is paid once, and no request it holds is left unpaid. */
  lemma {:induction false} EveryPayoutIsOwed(h: Hashes, m: Mainchain, blocks: seq<Block>, c: Chain, j: nat)
    requires Tree(m) && Branch(h, m, blocks, c) && CollisionFree(h, c.bundles) && FewMinted(c.world)
    requires j < |c.bundles|
    ensures Itemised(h, c.world.queue, c.bundles[j].bundle)
  {
    hide Grows, Invariant, Atomic, Balanced, Itemised, CollisionFree, Fated;
    GenesisInvariant(h, m);
    RunKeepsPayments(h, m, GENESIS, blocks, c);
  }

  // ----- With a faithful enforcer -----

  lemma {:induction false} RunKeepsFates(h: Hashes, m: Mainchain, c: Chain, blocks: seq<Block>, c': Chain)
    requires Tree(m) && Invariant(h, m, c) && Grows(h, m, c, blocks, c')
    requires Faithful(h, c') && Fated(c)
    ensures Fated(c')
  {
    if blocks != [] {
      hide Run, Extend, Apart, ApartThroughout, Grows, Readable, Follows, Faithful, Fated, Sound, CaughtUp,
           SeenAsNamed, RefundsLogged, Partition, Honest, CreditsFor;
      var before, b := LastBlock(h, m, c, blocks, c');
      RunKeepsInvariant(h, m, c, blocks[..|blocks| - 1], before);
      var x := ExtendKeepsInvariant(h, m, before, b, c');
      FaithfulBefore(h, before, c', x);
      RunKeepsFates(h, m, c, blocks[..|blocks| - 1], before);
      FatedKept(h, before, c', x);
    }
  }

  /** No outcome is lost and none misapplied: on every branch a request that has left Pending is
      confirmed exactly when some block of the path to the named block reports that its bundle
      succeeded, refunded exactly when one reports that it failed, and bundled exactly while there is
      no verdict. */
  lemma {:induction false} StatusTracksMainchain(h: Hashes, m: Mainchain, blocks: seq<Block>, c: Chain, i: int)
    returns (path: seq<U256>)
    requires Tree(m) && Branch(h, m, blocks, c) && Faithful(h, c)
    requires 0 <= i < c.world.queue.requestCount && At(c.world.queue, i).status != Pending
    ensures PathOf(m, c, path)
    ensures At(c.world.queue, i).status == Confirmed <==> Says(m, path, At(c.world.queue, i).bundleM6id, Succeeded)
    ensures At(c.world.queue, i).status == Refunded <==> Says(m, path, At(c.world.queue, i).bundleM6id, Failed)
  {
    hide Branch, CaughtUp, SeenAsNamed, RefundsLogged, Honest, Partition, Faithful, Sound, CreditsFor, PathOf, Lists,
         Reported, Says;
    BranchInvariant(h, m, blocks, c);
    StatusTracksOutcomes(h, m, blocks, c, i);
    var deposited, reported;
    path, deposited, reported := EventsProcessedOnce(m, c);
    ReportedExactly(m, path, c.outcomes, reported, At(c.world.queue, i).bundleM6id, Succeeded);
    ReportedExactly(m, path, c.outcomes, reported, At(c.world.queue, i).bundleM6id, Failed);
  }

  lemma {:induction false} StatusTracksOutcomes(h: Hashes, m: Mainchain, blocks: seq<Block>, c: Chain, i: int)
    requires Tree(m) && Branch(h, m, blocks, c) && Faithful(h, c)
    requires 0 <= i < c.world.queue.requestCount && At(c.world.queue, i).status != Pending
    ensures At(c.world.queue, i).status == Confirmed
       <==> Reported(c.outcomes, At(c.world.queue, i).bundleM6id, Succeeded)
    ensures At(c.world.queue, i).status == Refunded
       <==> Reported(c.outcomes, At(c.world.queue, i).bundleM6id, Failed)
  {
    hide Grows, Sound, CaughtUp, SeenAsNamed, RefundsLogged, Honest, Partition, Faithful, Balanced, Atomic,
         OnceAfter, Reported, CreditsFor;
    GenesisInvariant(h, m);
    BranchInvariant(h, m, blocks, c);
    RunKeepsFates(h, m, GENESIS, blocks, c);
    var seen := AssignedOnceAfter(h, c, i);
    if Reported(c.outcomes, At(c.world.queue, i).bundleM6id, Succeeded) {
      SucceededDoesNotFail(c.outcomes, At(c.world.queue, i).bundleM6id, seen);
    }
  }

  /** The lifecycle call of a block never reverts, so committing its result unseen is harmless. */
  lemma {:induction false} LifecycleCallNeverReverts(h: Hashes, m: Mainchain, blocks: seq<Block>, c: Chain, b: Block,
                                                     c': Chain)
    requires Tree(m) && Branch(h, m, blocks, c) && Apart(h, c.world.queue)
    requires Extend(h, m, c, b) == Ok(c') && Faithful(h, c')
    ensures Execute(h, m, c.world, c.number + 1, c.extraData, b).Ok?
    ensures Execute(h, m, c.world, c.number + 1, c.extraData, b).value.accepted
  {
    hide Branch, Extend, CaughtUp, SeenAsNamed, RefundsLogged, Honest, Partition, Faithful, Apart, Execute,
         Effective, LogGrows, Readable, Sound, CreditsFor;
    BranchInvariant(h, m, blocks, c);
    var x := ExtendFollows(h, m, c, b, c');
    AlwaysAccepted(h, c, c', x);
  }

  /** On every branch the peg is fully backed, to the wei, by what the deposits in the blocks of its
      mainchain path bring into the treasury and the successes reported there leave in it; in
      particular, when nothing was paid to M6s of other branches and nothing minted, what the treasury
      still holds covers everything in circulation and all escrow not yet paid out. */
  lemma {:induction false} EveryBranchIsBacked(h: Hashes, m: Mainchain, blocks: seq<Block>, c: Chain, paid: U256 -> nat)
    returns (path: seq<U256>)
    requires Tree(m) && Branch(h, m, blocks, c)
    requires CollisionFree(h, c.bundles) && Faithful(h, c) && DebitsAsCommitted(h, paid, c.bundles)
    requires FewMinted(c.world)
    ensures PathOf(m, c, path) && forall i :: 0 <= i < |path| ==> path[i] in m.blocks
    ensures WEI_PER_SAT * (TreasuryAt(m, path, paid) + SumOnPath(m, path, TakenBy(Foreign(h, paid, c.bundles))))
            + c.world.minted
         == c.world.circulating + OpenEscrow(c.world)
            + RejectedWei(c.world.credits) + UnfundedWei(c.world.credits) + c.world.burned + c.world.forcedVault
    ensures OpenEscrow(c.world) >= WEI_PER_SAT * Total(c.world.queue, OpenSats)
    ensures SumOnPath(m, path, TakenBy(Foreign(h, paid, c.bundles))) == 0 && c.world.minted == 0
        ==> WEI_PER_SAT * TreasuryAt(m, path, paid) >= c.world.circulating + OpenEscrow(c.world)
  {
    hide Grows, CaughtUp, SeenAsNamed, RefundsLogged, Honest, Partition, Faithful, Balanced, Atomic, Fated,
         CollisionFree, DebitsAsCommitted, Treasury, OpenEscrow, RejectedWei, UnfundedWei, CreditedWei,
         DepositedSats, PaidOut, SumRequests, Books, CreditsFor, PathOf, TreasuryAt, SumOnPath, TakenBy, Lists;
    GenesisInvariant(h, m);
    BranchInvariant(h, m, blocks, c);
    RunKeepsPayments(h, m, GENESIS, blocks, c);
    RunKeepsFates(h, m, GENESIS, blocks, c);
    RecordedIsDeposited(c.world.credits, c.deposits, c.creditAnswers);
    FullyBacked(h, c, paid);
    var deposited, reported;
    path, deposited, reported := EventsProcessedOnce(m, c);
    TreasuryIs(m, c, path, paid);
    TreasuryIs(m, c, path, Foreign(h, paid, c.bundles));
  }

  // ----- The queue drains -----

  /** If no request arrived over a run, none arrived before its last block. */
  lemma {:induction false} QuietBefore(h: Hashes, m: Mainchain, c: Chain, blocks: seq<Block>, before: Chain,
                                       c': Chain, x: Executed)
    requires Tree(m) && Invariant(h, m, c) && Grows(h, m, c, blocks, before)
    requires Readable(before.world.queue) && Follows(h, before, c', x)
    requires c'.world.queue.requestCount == c.world.queue.requestCount
    ensures before.world.queue.requestCount == c.world.queue.requestCount
  {
    hide Grows, Invariant, Next, LogGrows, CreditsFor, Evolved, Readable;
    RequestsOnlyEvolve(h, m, c, blocks, before);
  }

  lemma {:induction false} RunDrains(h: Hashes, m: Mainchain, c: Chain, blocks: seq<Block>, c': Chain)
    requires Tree(m) && Invariant(h, m, c) && Grows(h, m, c, blocks, c')
    requires Apart(h, c.world.queue) && Apart(h, c'.world.queue) && Faithful(h, c') && Short(c.world.queue)
    requires c'.world.queue.requestCount == c.world.queue.requestCount
    ensures Readable(c.world.queue) && Readable(c'.world.queue) && Short(c'.world.queue)
    ensures Waiting(c'.world.queue) == {} || |Waiting(c'.world.queue)| + |blocks| <= |Waiting(c.world.queue)|
  {
    hide Extend, Apart, ApartThroughout, Readable, Faithful, Short, Waiting, CaughtUp, SeenAsNamed, RefundsLogged,
         Partition, Honest, Books, Shape, Stored, Effective, LogGrows, CreditsFor;
    RunKeepsInvariant(h, m, c, blocks, c');
    SoundIsReadable(h, c.world.queue);
    SoundIsReadable(h, c'.world.queue);
    if blocks != [] {
      hide Run, Grows;
      var before, b := LastBlock(h, m, c, blocks, c');
      RunKeepsInvariant(h, m, c, blocks[..|blocks| - 1], before);
      var x := ExtendKeepsInvariant(h, m, before, b, c');
      QuietBefore(h, m, c, blocks[..|blocks| - 1], before, c', x);
      FaithfulBefore(h, before, c', x);
      RunDrains(h, m, c, blocks[..|blocks| - 1], before);
      AlwaysAccepted(h, before, c', x);
      BlockDrains(h, before, c', x);
    }
  }

  /** A pending request whose script is too long to fit a bundle alone is never assigned: it is
      exactly as it was after any number of blocks, whatever else happens. */
  lemma {:induction false} LongRequestsStayForever(h: Hashes, m: Mainchain, c: Chain, blocks: seq<Block>, c': Chain,
                                                   i: int)
    requires Tree(m) && Invariant(h, m, c) && Grows(h, m, c, blocks, c')
    requires 0 <= i < c.world.queue.requestCount && At(c.world.queue, i).status == Pending
    requires |At(c.world.queue, i).btcDestination| > 99_874
    ensures i < c'.world.queue.requestCount && At(c'.world.queue, i) == At(c.world.queue, i)
  {
    if blocks != [] {
      hide Run, Extend, Invariant, Apart, ApartThroughout, Grows, Readable, Evolved;
      var before, b := LastBlock(h, m, c, blocks, c');
      RunKeepsInvariant(h, m, c, blocks[..|blocks| - 1], before);
      LongRequestsStayForever(h, m, c, blocks[..|blocks| - 1], before, i);
      var x := ExtendKeepsInvariant(h, m, before, b, c');
      LongStaysPending(h, before, c', x, i);
      RequestsOnlyEvolve(h, m, c, blocks, c');
    }
  }

  /** On every branch a block assigns a bundle exactly when some candidate is pending and the one
      ranked first fits alone. */
  lemma {:induction false} AssignsExactlyWhenFirstFits(h: Hashes, m: Mainchain, blocks: seq<Block>, c: Chain, b: Block,
                                                       c': Chain)
    requires Tree(m) && Branch(h, m, blocks, c) && Apart(h, c.world.queue)
    requires Extend(h, m, c, b) == Ok(c') && Faithful(h, c')
    ensures Readable(c.world.queue)
    ensures
      var candidates := Packable(Ranked(PendingIn(c.world.queue)));
      c'.bundles != c.bundles <==> candidates != [] && |candidates[0].btcDestination| <= 99_874
  {
    hide Branch, Extend, Apart, Readable, Follows, Faithful, Partition, CaughtUp, SeenAsNamed, RefundsLogged,
         Honest, CreditsFor, PendingIn, Ranked, Packable;
    BranchInvariant(h, m, blocks, c);
    var x := ExtendFollows(h, m, c, b, c');
    AlwaysAccepted(h, c, c', x);
    AssignsExactlyWhen(h, c, c', x);
  }

  /** From any state of any branch, while no request arrives: after as many blocks as there are
      pending destinations, everything pending has been assigned to a bundle if and only if every
      pending script fits a bundle alone. */
  lemma {:induction false} QueueDrains(h: Hashes, m: Mainchain, blocks: seq<Block>, c: Chain, more: seq<Block>,
                                       c': Chain)
    requires Tree(m) && Branch(h, m, blocks, c) && Grows(h, m, c, more, c')
    requires Apart(h, c.world.queue) && Apart(h, c'.world.queue) && Faithful(h, c')
    requires c'.world.queue.requestCount == c.world.queue.requestCount
    ensures Readable(c.world.queue)
    ensures |more| >= |Waiting(c.world.queue)| ==> (NonePending(c'.world.queue) <==> Short(c.world.queue))
  {
    hide Grows, Apart, Readable, Faithful, Waiting, Shape, Books, Stored, CaughtUp, SeenAsNamed, RefundsLogged,
         Partition, Honest, CreditsFor;
    BranchInvariant(h, m, blocks, c);
    SoundIsReadable(h, c.world.queue);
    if |more| >= |Waiting(c.world.queue)| {
      if Short(c.world.queue) {
        RunDrains(h, m, c, more, c');
        NoneLeft(Waiting(c'.world.queue), |more|, |Waiting(c.world.queue)|);
        NoneWaitingNonePending(c'.world.queue);
      } else {
        var i :| 0 <= i < c.world.queue.requestCount && At(c.world.queue, i).status == Pending
                 && |At(c.world.queue, i).btcDestination| > 99_874;
        LongRequestsStayForever(h, m, c, more, c', i);
      }
    }
  }

  lemma {:induction false} NoneLeft(left: set<Script>, blocks: nat, waiting: nat)
    requires left == {} || |left| + blocks <= waiting
    requires blocks >= waiting
    ensures left == {}
  {
    assert left != {} ==> |left| > 0;
  }
}
