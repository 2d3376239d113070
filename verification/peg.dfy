// Whole runs: a branch of sidechain blocks grown from genesis over a mainchain, and what every
// block of it keeps.

module Peg {
  import opened ByteCodec
  import opened M6
  import opened Selection
  import opened QueueStorage
  import opened StorageReader
  import opened PegState
  import opened Escrow
  import opened Mainchain
  import opened LifecycleUpdate
  import opened BlockStep
  import opened BlockEffect

  /** A bundle assigned on the branch: the block that assigned it, the mainchain block that one
      names, and how many outcomes the branch had then processed. */
  datatype Assignment = Assignment(bundle: WithdrawalBundle, number: nat, named: Option<U256>, seen: nat)

  /** A branch: the state its last block left, that block's number and extraData, everything its
      blocks took from the mainchain or assigned, in order, and whether the recipient of each credit
      and the requester of each refund takes it. */
  datatype Chain = Chain(world: World, number: nat, extraData: Bytes,
                         deposits: seq<Deposit>, outcomes: seq<Outcome>, bundles: seq<Assignment>,
                         creditAnswers: seq<bool>, refundAnswers: seq<bool>)

  /** Genesis has empty extraData, so the range of block 1 has no start. */
  const GENESIS := Chain(GENESIS_WORLD, 0, [], [], [], [], [], [])

  function Assigned(bundle: Option<WithdrawalBundle>, number: nat, named: Option<U256>, seen: nat): seq<Assignment> {
    if bundle.Some? then [Assignment(bundle.value, number, named, seen)] else []
  }

  ghost function Extend(h: Hashes, m: Mainchain, c: Chain, b: Block): Result<Chain, BlockError>
    requires Tree(m)
  {
    var x :- Execute(h, m, c.world, c.number + 1, c.extraData, b);
    Ok(Chain(WorldAfter(h, x, b), c.number + 1, b.extraData, c.deposits + x.deposits, c.outcomes + x.outcomes,
             c.bundles + Assigned(x.bundle, c.number + 1, MainHash(b.extraData), |c.outcomes| + |x.outcomes|),
             c.creditAnswers + Answers(b.recipients, |x.deposits|),
             c.refundAnswers + NewAnswers(b.requesters, c.world.refunds, WorldAfter(h, x, b).refunds)))
  }

  /** The branch `c` grown by `blocks`; an error when one of them is invalid. */
  ghost function Run(h: Hashes, m: Mainchain, c: Chain, blocks: seq<Block>): Result<Chain, BlockError>
    requires Tree(m)
  {
    if blocks == [] then Ok(c) else
      var before :- Run(h, m, c, blocks[..|blocks| - 1]);
      Extend(h, m, before, blocks[|blocks| - 1])
  }

  /** What is asked of keccak256, and of the number of requests, for a queue to be readable: the
      contract keeps everything else in order itself. */
  ghost predicate Apart(h: Hashes, q: Queue) {
    Separated(h, q) && q.requestCount <= U64_MAX
  }

  /** Every state a block of the run starts from can be read. */
  ghost predicate ApartThroughout(h: Hashes, m: Mainchain, c: Chain, blocks: seq<Block>)
    requires Tree(m)
  {
    blocks != [] ==>
      var before := blocks[..|blocks| - 1];
      && ApartThroughout(h, m, c, before)
      && (Run(h, m, c, before).Ok? ==> Apart(h, Run(h, m, c, before).value.world.queue))
  }

  /** `c'` is the branch `c` grown by `blocks`, each of them valid and each on a readable state. */
  ghost predicate Grows(h: Hashes, m: Mainchain, c: Chain, blocks: seq<Block>, c': Chain)
    requires Tree(m)
  {
    Run(h, m, c, blocks) == Ok(c') && ApartThroughout(h, m, c, blocks)
  }

  /** `c` is a branch grown from genesis. */
  ghost predicate Branch(h: Hashes, m: Mainchain, blocks: seq<Block>, c: Chain)
    requires Tree(m)
  {
    Grows(h, m, GENESIS, blocks, c)
  }

  /** The last block of a run. */
  lemma {:induction false} LastBlock(h: Hashes, m: Mainchain, c: Chain, blocks: seq<Block>, c': Chain)
    returns (before: Chain, b: Block)
    requires Tree(m) && blocks != [] && Grows(h, m, c, blocks, c')
    ensures Grows(h, m, c, blocks[..|blocks| - 1], before) && b == blocks[|blocks| - 1]
    ensures Apart(h, before.world.queue) && Extend(h, m, before, b) == Ok(c')
  {
    hide Extend, Apart;
    before := Run(h, m, c, blocks[..|blocks| - 1]).value;
    b := blocks[|blocks| - 1];
  }

  // ----- One block of a run -----

  /** `c'` is `c` after one more block, whose system calls did `x`. */
  ghost predicate Follows(h: Hashes, c: Chain, c': Chain, x: Executed)
    requires Readable(c.world.queue)
  {
    && Effective(h, c.world.queue, c'.world.queue, c.number + 1, x)
    && |c.refundAnswers| <= |c'.refundAnswers| && c'.refundAnswers[..|c.refundAnswers|] == c.refundAnswers
    && LogGrows(c.world.queue, c'.world.queue, c.world.refunds, c'.world.refunds,
                c'.refundAnswers[|c.refundAnswers|..])
    && |c.creditAnswers| <= |c'.creditAnswers| && c'.creditAnswers[..|c.creditAnswers|] == c.creditAnswers
    && CreditsFor(c.world.credits, c'.world.credits, x.deposits, c'.creditAnswers[|c.creditAnswers|..])
    && c.world.minted <= c'.world.minted
    && c'.number == c.number + 1
    && c'.deposits == c.deposits + x.deposits
    && c'.outcomes == c.outcomes + x.outcomes
    && c'.bundles == c.bundles + Assigned(x.bundle, c'.number, MainHash(c'.extraData), |c'.outcomes|)
  }

  lemma {:induction false} SoundIsReadable(h: Hashes, q: Queue)
    requires Shape(q) && Stored(h, q) && Apart(h, q)
    ensures Legible(h, q) && Readable(q)
  {
    LegibleReads(h, q);
  }

  lemma {:induction false} ExtendFollows(h: Hashes, m: Mainchain, c: Chain, b: Block, c': Chain) returns (x: Executed)
    requires Tree(m) && Sound(h, c.world) && Apart(h, c.world.queue) && Extend(h, m, c, b) == Ok(c')
    ensures Readable(c.world.queue)
    ensures Sound(h, c'.world) && Follows(h, c, c', x)
    ensures Execute(h, m, c.world, c.number + 1, c.extraData, b) == Ok(x)
    ensures c'.world.minted == c.world.minted + MintedWei(b.mints)
  {
    hide Execute, Effective, LogGrows, Books, WorldAfter, Readable, Legible;
    SoundIsReadable(h, c.world.queue);
    BlockKeepsAll(h, m, c.world, c.number + 1, c.extraData, b);
    x := Execute(h, m, c.world, c.number + 1, c.extraData, b).value;
  }

  // ----- Every mainchain event is processed once -----

  /** What the branch has processed is what the mainchain reports from the start of history to
      the block its last header names. */
  ghost predicate CaughtUp(m: Mainchain, c: Chain)
    requires Tree(m)
  {
    if c.number == 0 then c.extraData == [] && c.deposits == [] && c.outcomes == []
    else
      && MainHash(c.extraData).Some?
      && DepositsInRange(m, None, MainHash(c.extraData).value) == Ok(c.deposits)
      && OutcomesInRange(m, None, MainHash(c.extraData).value) == Ok(c.outcomes)
  }

  /** `c'` names the mainchain block that `c` names, or one after it. */
  ghost predicate Continues(m: Mainchain, c: Chain, c': Chain)
    requires Tree(m)
  {
    MainHash(c'.extraData).Some? && Path(m, MainHash(c.extraData), MainHash(c'.extraData).value).Some?
  }

  lemma {:induction false} RangeHasPath(m: Mainchain, start: Option<U256>, end: U256)
    requires Tree(m)
    ensures DepositsInRange(m, start, end).Ok? ==> Path(m, start, end).Some?
  {
  }

  lemma {:induction false} ExtendCatchesUp(h: Hashes, m: Mainchain, c: Chain, b: Block, c': Chain)
    requires Tree(m) && CaughtUp(m, c) && Extend(h, m, c, b) == Ok(c')
    ensures CaughtUp(m, c') && Continues(m, c, c')
  {
    hide InRange, CreditUpTo, EntriesUpTo, UpdateFor, Selected, SystemCall;
    var end := MainHash(c'.extraData).value;
    RangeHasPath(m, MainHash(c.extraData), end);
    if c.number == 0 {
      assert MainHash(c.extraData) == None;
      var x := Execute(h, m, c.world, 1, c.extraData, b).value;
      assert c.deposits + x.deposits == x.deposits && c.outcomes + x.outcomes == x.outcomes;
    } else {
      RangesJoin(m, None, MainHash(c.extraData).value, end, DepositOf);
      RangesJoin(m, None, MainHash(c.extraData).value, end, OutcomeOf);
    }
  }

  /** What the branch had processed when it assigned a bundle is what the mainchain reports up to
      the block that the assigning block names, which the branch's last block names or comes after. */
  ghost predicate SeenAsNamed(m: Mainchain, c: Chain)
    requires Tree(m)
  {
    forall j :: 0 <= j < |c.bundles| ==> SeenUpTo(m, c, c.bundles[j])
  }

  ghost predicate SeenUpTo(m: Mainchain, c: Chain, a: Assignment)
    requires Tree(m)
  {
    && a.named.Some? && a.seen <= |c.outcomes|
    && OutcomesInRange(m, None, a.named.value) == Ok(c.outcomes[..a.seen])
    && MainHash(c.extraData).Some? && Path(m, a.named, MainHash(c.extraData).value).Some?
  }

  lemma {:induction false} EndsAtItself(m: Mainchain, start: Option<U256>, end: U256)
    requires Tree(m) && Path(m, start, end).Some?
    ensures Path(m, Some(end), end) == Some([])
  {
  }

  lemma {:induction false} SeenKept(h: Hashes, m: Mainchain, c: Chain, c': Chain, x: Executed)
    requires Tree(m) && Readable(c.world.queue) && Follows(h, c, c', x) && CaughtUp(m, c') && SeenAsNamed(m, c)
    requires Continues(m, c, c')
    ensures SeenAsNamed(m, c')
  {
    hide OutcomesInRange, DepositsInRange, MainHash, Effective, LogGrows, CreditsFor, Path;
    forall j | 0 <= j < |c'.bundles| ensures SeenUpTo(m, c', c'.bundles[j]) {
      if j < |c.bundles| {
        var a := c.bundles[j];
        assert c'.bundles[j] == a && SeenUpTo(m, c, a);
        assert c'.outcomes[..a.seen] == c.outcomes[..a.seen];
        PathsJoin(m, a.named, MainHash(c.extraData).value, MainHash(c'.extraData).value);
      } else {
        EndsAtItself(m, MainHash(c.extraData), MainHash(c'.extraData).value);
        assert c'.outcomes[..|c'.outcomes|] == c'.outcomes;
      }
    }
  }

  /** The blocks of the mainchain path add up to exactly what the branch processed. */
  lemma {:induction false} ProcessedPath(m: Mainchain, c: Chain) returns (path: seq<U256>)
    requires Tree(m) && CaughtUp(m, c) && c.number > 0
    ensures Path(m, None, MainHash(c.extraData).value) == Some(path)
    ensures forall i :: 0 <= i < |path| ==> path[i] in m.blocks
    ensures Collected(PathEvents(m, path), DepositOf) == Ok(c.deposits)
    ensures Collected(PathEvents(m, path), OutcomeOf) == Ok(c.outcomes)
  {
    path := Path(m, None, MainHash(c.extraData).value).value;
    PathRises(m, None, MainHash(c.extraData).value);
  }
}
