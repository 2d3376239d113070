// Between the steps of a block: on every branch the escrow is solvent not only when a block is
// done but at each moment in which somebody else's code runs.

module InsideBlocks {
  import opened ByteCodec
  import opened M6
  import opened QueueStorage
  import opened StorageReader
  import opened PegState
  import opened Escrow
  import opened LifecycleCall
  import opened Mainchain
  import opened LifecycleUpdate
  import opened BlockStep
  import opened BlockEffect
  import opened Peg
  import opened History
  import opened Bundles
  import opened Outcomes
  import opened Runs

  /** What a block on top of branch `c` gathers. */
  ghost predicate Gathers(h: Hashes, m: Mainchain, c: Chain, b: Block, g: Gathered)
    requires Tree(m)
  {
    Gather(h, m, c.world, c.extraData, b.extraData, b.recipients) == Ok(g)
  }

  /** On every branch, in every block: before each credit the books balance, and after each action of
      its recipient they balance but for the credit on its way. */
  lemma {:induction false} SolventInsideEveryCredit(h: Hashes, m: Mainchain, blocks: seq<Block>, c: Chain, b: Block,
                                                    g: Gathered, n: nat, k: nat)
    requires Tree(m) && Branch(h, m, blocks, c) && Gathers(h, m, c, b, g)
    requires 0 < n <= |g.deposits| && k <= |b.recipients(n - 1).actions|
    ensures Books(CreditUpTo(h, c.world, g.deposits, n - 1, b.recipients))
    ensures
      var before := CreditUpTo(h, c.world, g.deposits, n - 1, b.recipients);
      var amount := g.deposits[n - 1].valueSats * WEI_PER_SAT;
      amount <= before.vault
      ==> BooksDuringCredit(DoAll(h, Handed(before, FromVault, amount), b.recipients(n - 1).actions[..k]), amount)
  {
    hide Branch, Books, BooksDuringCredit, CreditUpTo, DoAll, Gather, CaughtUp, SeenAsNamed, RefundsLogged,
         Partition, Honest, CreditsFor;
    BranchInvariant(h, m, blocks, c);
    CreditsKeepBooks(h, c.world, g.deposits, n - 1, b.recipients);
    var before := CreditUpTo(h, c.world, g.deposits, n - 1, b.recipients);
    if g.deposits[n - 1].valueSats * WEI_PER_SAT <= before.vault {
      SolventInsideCredit(h, before, g.deposits[n - 1], b.recipients(n - 1), k);
    }
  }

  /** The record of the `n`-th credit of a block. */
  ghost function CreditRecord(h: Hashes, c: Chain, b: Block, g: Gathered, n: nat): CreditEvent
    requires 0 < n <= |g.deposits|
  {
    var before := CreditUpTo(h, c.world, g.deposits, n - 1, b.recipients);
    CreditOf(g.deposits[n - 1], g.deposits[n - 1].valueSats * WEI_PER_SAT <= before.vault, b.recipients(n - 1).accepts)
  }

  lemma {:induction false} CreditRecorded(h: Hashes, c: Chain, b: Block, g: Gathered, n: nat, total: nat)
    requires Books(c.world) && 0 < n <= total <= |g.deposits|
    ensures
      var credits := CreditUpTo(h, c.world, g.deposits, total, b.recipients).credits;
      |credits| == |c.world.credits| + total && credits[|c.world.credits| + n - 1] == CreditRecord(h, c, b, g, n)
    decreases total
  {
    hide Books, CreditOne, CreditsFor, CreditOf;
    var before := CreditUpTo(h, c.world, g.deposits, total - 1, b.recipients);
    CreditsKeepBooks(h, c.world, g.deposits, total - 1, b.recipients);
    CreditKeepsBooks(h, before, g.deposits[total - 1], b.recipients(total - 1));
    if n < total {
      CreditRecorded(h, c, b, g, n, total - 1);
    } else {
      CreditsForLength(c.world.credits, before.credits, g.deposits[..total - 1], Answers(b.recipients, total - 1));
    }
  }

  lemma {:induction false} CreditsForLength(before: seq<CreditEvent>, after: seq<CreditEvent>, deposits: seq<Deposit>,
                                            answers: seq<bool>)
    requires CreditsFor(before, after, deposits, answers)
    ensures |after| == |before| + |deposits|
  {
  }

  /** On every branch, in every block: the `n`-th credit is recorded as made exactly when the vault can
      pay it and its recipient takes it, which the vault can exactly when the total credited stays
      within the reserve and what was forced in. */
  lemma {:induction false} CreditRecordedExactly(h: Hashes, m: Mainchain, blocks: seq<Block>, c: Chain, b: Block,
                                                 g: Gathered, c': Chain, n: nat)
    requires Tree(m) && Branch(h, m, blocks, c) && Gathers(h, m, c, b, g) && Apart(h, c.world.queue)
    requires Extend(h, m, c, b) == Ok(c') && 0 < n <= |g.deposits|
    ensures |c'.world.credits| == |c.world.credits| + |g.deposits|
    ensures
      var before := CreditUpTo(h, c.world, g.deposits, n - 1, b.recipients);
      var amount := g.deposits[n - 1].valueSats * WEI_PER_SAT;
      && c'.world.credits[|c.world.credits| + n - 1]
         == CreditOf(g.deposits[n - 1], amount <= before.vault, b.recipients(n - 1).accepts)
      && (amount <= before.vault <==> CreditedWei(before.credits) + amount <= RESERVE + before.forcedVault)
  {
    hide Branch, Books, CreditUpTo, Gather, CaughtUp, SeenAsNamed, RefundsLogged, Partition, Honest, CreditsFor,
         Apart, Extend, CreditOf;
    BranchInvariant(h, m, blocks, c);
    CreditsKeepBooks(h, c.world, g.deposits, n - 1, b.recipients);
    FundedExactlyWhen(CreditUpTo(h, c.world, g.deposits, n - 1, b.recipients),
                      g.deposits[n - 1].valueSats * WEI_PER_SAT);
    CreditRecorded(h, c, b, g, n, |g.deposits|);
    BlockKeepsCredits(h, m, blocks, c, b, g, c');
  }

  /** Nothing after a block's credits adds to the record of credits. */
  lemma {:induction false} BlockKeepsCredits(h: Hashes, m: Mainchain, blocks: seq<Block>, c: Chain, b: Block,
                                             g: Gathered, c': Chain)
    requires Tree(m) && Branch(h, m, blocks, c) && Gathers(h, m, c, b, g) && Apart(h, c.world.queue)
    requires Extend(h, m, c, b) == Ok(c')
    ensures c'.world.credits == CreditUpTo(h, c.world, g.deposits, |g.deposits|, b.recipients).credits
  {
    hide Branch, Books, CreditUpTo, Gather, Apart, Advance, DoAll, MintAll, Stored, Shape, Effective, LogGrows,
         Readable, CaughtUp, SeenAsNamed, RefundsLogged, Partition, Honest, CreditsFor;
    CreditedIsSound(h, m, blocks, c, b, g);
    GatheredCredits(h, m, blocks, c, b, g);
    AdvanceEffective(h, c.world.queue, g, c.number + 1, b.requesters);
    UsersKeepAll(h, Advance(h, g, BundleHeight(c.number + 1), b.requesters).world, b.actions, b.mints);
  }

  lemma {:induction false} GatheredCredits(h: Hashes, m: Mainchain, blocks: seq<Block>, c: Chain, b: Block, g: Gathered)
    requires Tree(m) && Gathers(h, m, c, b, g)
    ensures g.credited == CreditUpTo(h, c.world, g.deposits, |g.deposits|, b.recipients)
  {
    hide CreditUpTo, EntriesUpTo, InRange;
  }

  /** On every branch, in every block: while no more than the reserve has been deposited, each deposit
      is credited exactly when its recipient takes it. */
  lemma {:induction false} DepositWithinReserveIsCredited(h: Hashes, m: Mainchain, blocks: seq<Block>, c: Chain,
                                                          b: Block,
                                                          g: Gathered, c': Chain, n: nat)
    requires Tree(m) && Branch(h, m, blocks, c) && Gathers(h, m, c, b, g) && Apart(h, c.world.queue)
    requires Extend(h, m, c, b) == Ok(c') && 0 < n <= |g.deposits|
    requires DepositedSats(c.deposits + g.deposits[..n]) <= RESERVE_SATS
    ensures |c'.world.credits| == |c.world.credits| + |g.deposits|
    ensures c'.world.credits[|c.world.credits| + n - 1]
         == CreditOf(g.deposits[n - 1], true, b.recipients(n - 1).accepts)
  {
    hide Branch, Books, CreditUpTo, Gather, CaughtUp, SeenAsNamed, RefundsLogged, Partition, Honest, CreditsFor,
         Apart, Extend, DepositedSats, UnfundedOnlyWhenDry;
    BranchInvariant(h, m, blocks, c);
    CreditRecorded(h, c, b, g, n, n);
    CreditRecorded(h, c, b, g, n, |g.deposits|);
    BlockKeepsCredits(h, m, blocks, c, b, g, c');
    CreditsKeepBooks(h, c.world, g.deposits, n, b.recipients);
    var after := CreditUpTo(h, c.world, g.deposits, n, b.recipients);
    CreditsJoin(c.world.credits, after.credits, c.deposits, g.deposits[..n], c.creditAnswers, Answers(b.recipients, n));
    BooksAreDry(after);
    WithinReserveAllFunded(after.credits, c.deposits + g.deposits[..n], c.creditAnswers + Answers(b.recipients, n),
                           |c.world.credits| + n - 1);
  }

  lemma {:induction false} BooksAreDry(w: World)
    requires Books(w)
    ensures UnfundedOnlyWhenDry(w.credits)
  {
  }

  /** The state in which the block's lifecycle call starts to refund. */
  ghost function RefundsStart(h: Hashes, g: Gathered, v: Moves): Option<World> {
    var q :- Resolvable(h, g.credited.queue, v.bundled, v.m6id, v.succeeded);
    Some(g.credited.(queue := q))
  }

  /** The block's call is the refunding loop run from that state. */
  lemma {:induction false} CallRefundsFromStart(h: Hashes, q: Queue, g: Gathered, height: u32,
                                                requesters: nat -> Reaction)
    requires Readable(q) && g.entries == Entries(q)
    ensures
      var v := MovesFor(h, q, g.outcomes, height);
      SystemCall(h, g.credited, UpdateFor(h, g.entries, g.outcomes, height), requesters)
      == match RefundsStart(h, g, v)
         case None => None
         case Some(w) => RefundUpTo(h, w, v.failed, |v.failed|, requesters)
  {
    hide UpdateFor, BundleUpTo, ConfirmUpTo, RefundUpTo, Readable;
  }

  lemma {:induction false} CreditedIsSound(h: Hashes, m: Mainchain, blocks: seq<Block>, c: Chain, b: Block, g: Gathered)
    requires Tree(m) && Branch(h, m, blocks, c) && Gathers(h, m, c, b, g) && Apart(h, c.world.queue)
    ensures Readable(c.world.queue) && g.entries == Entries(c.world.queue)
    ensures Sound(h, g.credited) && Appends(c.world.queue, g.credited.queue)
  {
    hide Branch, Books, CreditUpTo, Gather, CaughtUp, SeenAsNamed, RefundsLogged, Partition, Honest, CreditsFor,
         Apart, Readable, Legible, Appends;
    BranchInvariant(h, m, blocks, c);
    SoundIsReadable(h, c.world.queue);
    GatheredFromQueue(h, m, c.world, c.extraData, b.extraData, b.recipients);
    CreditsKeepAll(h, c.world, g.deposits, b.recipients);
  }

  lemma {:induction false} RefundsStartInOrder(h: Hashes, q: Queue, g: Gathered, height: u32)
    requires Readable(q) && Sound(h, g.credited) && Appends(q, g.credited.queue)
    requires RefundsStart(h, g, MovesFor(h, q, g.outcomes, height)).Some?
    ensures
      var w := RefundsStart(h, g, MovesFor(h, q, g.outcomes, height)).value;
      Shape(w.queue) && Books(w)
  {
    hide Shape, Books, Readable, UpdateFor, Resolvable, Stored;
    var v := MovesFor(h, q, g.outcomes, height);
    ListsBelow(h, q, g.outcomes, height);
    ResolvableExactly(h, g.credited.queue, v.bundled, v.m6id, v.succeeded);
    ResolvableKeepsBooks(h, g.credited, v.bundled, v.m6id, v.succeeded);
  }

  /** On every branch, in every block: each refund of the lifecycle call is funded when its turn
      comes, and after each action of its requester the books balance. No refund can fail for lack
      of funds. */
  lemma {:induction false} SolventInsideEveryRefund(h: Hashes, m: Mainchain, blocks: seq<Block>, c: Chain, b: Block,
                                                    g: Gathered, w: World, n: nat, k: nat)
    requires Tree(m) && Branch(h, m, blocks, c) && Gathers(h, m, c, b, g) && Apart(h, c.world.queue)
    requires Readable(c.world.queue)
    requires RefundsStart(h, g, MovesFor(h, c.world.queue, g.outcomes, BundleHeight(c.number + 1))) == Some(w)
    requires
      var failed := MovesFor(h, c.world.queue, g.outcomes, BundleHeight(c.number + 1)).failed;
      0 < n <= |failed| && RefundUpTo(h, w, failed, n, b.requesters).Some? && k <= |b.requesters(n - 1).actions|
    ensures
      var failed := MovesFor(h, c.world.queue, g.outcomes, BundleHeight(c.number + 1)).failed;
      RefundUpTo(h, w, failed, n - 1, b.requesters).Some?
    ensures
      var failed := MovesFor(h, c.world.queue, g.outcomes, BundleHeight(c.number + 1)).failed;
      var marked := Marked(h, RefundUpTo(h, w, failed, n - 1, b.requesters).value, failed[n - 1]);
      var amount := AmountWei(At(w.queue, failed[n - 1]));
      && amount <= Funds(marked, FromQueue)
      && Books(DoAll(h, Handed(marked, FromQueue, amount), b.requesters(n - 1).actions[..k]))
  {
    hide Branch, Gathers, Apart, Books, DoAll, RefundUpTo, Resolvable, UpdateFor, Readable, Shape, Stored, Marked,
         AmountWei;
    CreditedIsSound(h, m, blocks, c, b, g);
    RefundsStartInOrder(h, c.world.queue, g, BundleHeight(c.number + 1));
    SolventThroughoutRefunds(h, w, MovesFor(h, c.world.queue, g.outcomes, BundleHeight(c.number + 1)).failed, n,
                             b.requesters, k);
  }

  /** On every branch, in every block: after each action of its users the books balance. */
  lemma {:induction false} SolventAfterEveryAction(h: Hashes, m: Mainchain, blocks: seq<Block>, c: Chain, b: Block,
                                                   k: nat)
    requires Tree(m) && Branch(h, m, blocks, c) && Apart(h, c.world.queue) && k <= |b.actions|
    requires Execute(h, m, c.world, c.number + 1, c.extraData, b).Ok?
    ensures Books(DoAll(h, Execute(h, m, c.world, c.number + 1, c.extraData, b).value.world, b.actions[..k]))
  {
    hide Branch, Apart, Books, DoAll, Execute, Readable, Legible, Effective, LogGrows, CreditsFor, CaughtUp,
         SeenAsNamed, RefundsLogged, Partition, Honest;
    BranchInvariant(h, m, blocks, c);
    SoundIsReadable(h, c.world.queue);
    ExecuteEffect(h, m, c.world, c.number + 1, c.extraData, b);
    ActionsKeepBooks(h, Execute(h, m, c.world, c.number + 1, c.extraData, b).value.world, b.actions[..k]);
  }
}
