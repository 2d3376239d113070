// What one whole block, its users' transactions included, does to the peg's state.

module BlockEffect {
  import opened ByteCodec
  import opened M6
  import opened Selection
  import opened QueueStorage
  import opened StorageReader
  import opened PegState
  import opened Escrow
  import opened LifecycleCall
  import opened Mainchain
  import opened LifecycleUpdate
  import opened BlockStep

  /** The indices a block's lifecycle call moves, and the bundle it assigns. */
  datatype Moves = Moves(bundled: seq<u64>, m6id: U256, succeeded: seq<u64>, failed: seq<u64>)

  const NO_MOVES := Moves([], 0, [], [])

  ghost function MovesFor(h: Hashes, q: Queue, outcomes: seq<Outcome>, height: u32): Moves
    requires Readable(q)
  {
    var u := UpdateFor(h, Entries(q), outcomes, height);
    Moves(u.bundledIndices, if u.newM6id.Some? then u.newM6id.value else 0, u.succeededIndices, u.failedIndices)
  }

  /** The parent's queue `q` became `q'`: the listed requests moved, nothing else changed, and
      what was appended is pending. */
  ghost predicate Moved(q: Queue, q': Queue, v: Moves) {
    && q.requestCount <= q'.requestCount
    && (forall i :: 0 <= i < q.requestCount
               ==> At(q', i) == Advanced(At(q, i), i, v.bundled, v.m6id, v.succeeded, v.failed))
    && (forall i :: q.requestCount <= i < q'.requestCount ==> At(q', i).status == Pending)
  }

  lemma {:induction false} AppendsIsMoved(q: Queue, q': Queue)
    ensures Appends(q, q') <==> Moved(q, q', NO_MOVES)
  {
  }

  lemma {:induction false} AppendsThenMoved(q: Queue, q1: Queue, q2: Queue, v: Moves)
    requires Appends(q, q1) && Moved(q1, q2, v)
    requires AllBelow(v.bundled, q.requestCount) && AllBelow(v.succeeded, q.requestCount)
    requires AllBelow(v.failed, q.requestCount)
    ensures Moved(q, q2, v)
  {
    forall i | q.requestCount <= i < q2.requestCount ensures At(q2, i).status == Pending {
      if i < q1.requestCount {
        assert At(q2, i) == Advanced(At(q1, i), i, v.bundled, v.m6id, v.succeeded, v.failed);
        assert i !in v.bundled && i !in v.succeeded && i !in v.failed;
      }
    }
  }

  /** A queue that can be read back from its slots. */
  ghost predicate Legible(h: Hashes, q: Queue) {
    Shape(q) && Stored(h, q) && Separated(h, q) && q.requestCount <= U64_MAX
  }

  lemma {:induction false} LegibleReads(h: Hashes, q: Queue)
    requires Legible(h, q)
    ensures Readable(q) && EntriesUpTo(h, q.slots, ReadU64(q.slots, 0)) == Some(Entries(q))
  {
    forall i | 0 <= i < q.requestCount ensures At(q, i).valueSats <= U64_MAX && At(q, i).mainFeeSats <= U64_MAX {
      assert i in q.requests;
    }
    ReaderInvertsLayout(h, q);
  }

  /** Books and storage in order. */
  ghost predicate Sound(h: Hashes, w: World) {
    Shape(w.queue) && Books(w) && Stored(h, w.queue)
  }

  ghost predicate ListsOf(u: BundleLifecycleUpdate, v: Moves) {
    && u.bundledIndices == v.bundled && u.succeededIndices == v.succeeded && u.failedIndices == v.failed
    && v.m6id == if u.newM6id.Some? then u.newM6id.value else 0
  }

  lemma {:induction false} ReportEffect(h: Hashes, q: Queue, g: Gathered, u: BundleLifecycleUpdate, v: Moves,
                                        bundle: Option<WithdrawalBundle>, requesters: nat -> Reaction)
    requires Shape(g.credited.queue) && Appends(q, g.credited.queue) && ListsOf(u, v)
    requires AllBelow(v.bundled, q.requestCount) && AllBelow(v.succeeded, q.requestCount)
    requires AllBelow(v.failed, q.requestCount)
    ensures
      var x := Report(h, g, u, bundle, requesters);
      && (x.accepted <==> Acceptable(g.credited.queue, v.bundled, v.succeeded, v.failed))
      && Shape(x.world.queue) && Moved(q, x.world.queue, if x.accepted then v else NO_MOVES)
  {
    var w := g.credited;
    LifecycleExactly(h, w, SYSTEM_ADDRESS, u.bundledIndices, v.m6id, u.succeededIndices, u.failedIndices, requesters);
    AppendsIsMoved(q, w.queue);
    if u.IsEmpty() {
      NothingListed(q, w.queue, v);
    } else if SystemCall(h, w, u, requesters).Some? {
      AppendsThenMoved(q, w.queue, SystemCall(h, w, u, requesters).value.queue, v);
    }
  }

  lemma {:induction false} NothingListed(q: Queue, q': Queue, v: Moves)
    requires Appends(q, q') && v.bundled == v.succeeded == v.failed == []
    ensures Moved(q, q', v) && Acceptable(q', v.bundled, v.succeeded, v.failed)
  {
  }

  lemma {:induction false} ReportKeepsSound(h: Hashes, g: Gathered, u: BundleLifecycleUpdate, v: Moves,
                                            bundle: Option<WithdrawalBundle>, requesters: nat -> Reaction)
    requires Sound(h, g.credited) && ListsOf(u, v)
    requires AllBelow(v.bundled, g.credited.queue.requestCount) && AllBelow(v.succeeded, g.credited.queue.requestCount)
    requires AllBelow(v.failed, g.credited.queue.requestCount)
    ensures
      var x := Report(h, g, u, bundle, requesters);
      var failed := if x.accepted then v.failed else [];
      && Sound(h, x.world) && x.world.credits == g.credited.credits
      && x.world.minted == g.credited.minted
      && LogsRefunds(g.credited.refunds, x.world.refunds, g.credited.queue, failed, Answers(requesters, |failed|))
  {
    hide Shape, Books, Stored, Acceptable, Lifecycle;
    if SystemCall(h, g.credited, u, requesters).Some? {
      LifecycleExactly(h, g.credited, SYSTEM_ADDRESS, v.bundled, v.m6id, v.succeeded, v.failed, requesters);
      LifecycleKeepsBooks(h, g.credited, v.bundled, v.m6id, v.succeeded, v.failed, requesters);
    }
  }

  /** The lifecycle call of a block is accepted exactly when its range resolves no awaited bundle
      twice, although credits have run in between; and it then moves what the update lists. */
  lemma {:induction false} AdvanceEffect(h: Hashes, q: Queue, g: Gathered, height: u32, requesters: nat -> Reaction)
    requires Readable(q) && g.entries == Entries(q) && Appends(q, g.credited.queue) && Sound(h, g.credited)
    ensures
      var x := Advance(h, g, height, requesters);
      var v := if x.accepted then MovesFor(h, q, g.outcomes, height) else NO_MOVES;
      && x.deposits == g.deposits && x.outcomes == g.outcomes
      && (x.accepted <==> ResolvedOnce(q, g.outcomes))
      && Sound(h, x.world) && x.world.credits == g.credited.credits && x.world.minted == g.credited.minted
      && Moved(q, x.world.queue, v)
      && LogsRefunds(g.credited.refunds, x.world.refunds, g.credited.queue, v.failed, Answers(requesters, |v.failed|))
  {
    hide Lifecycle, Acceptable, Selected, Moved, Shape, Books, Stored, ResolvedOnce, LogsRefunds;
    var u, v := UpdateFor(h, g.entries, g.outcomes, height), MovesFor(h, q, g.outcomes, height);
    ListsBelow(h, q, g.outcomes, height);
    UpdateAcceptedExactly(h, q, g.credited.queue, g.outcomes, height);
    ReportEffect(h, q, g, u, v, Selected(h, PendingOf(g.entries), height), requesters);
    ReportKeepsSound(h, g, u, v, Selected(h, PendingOf(g.entries), height), requesters);
  }

  // ----- What the moves mean for a request -----

  /** Where a range's outcomes leave a request that awaits bundle `m6id`. */
  ghost function Fate(outcomes: seq<Outcome>, m6id: U256): Status {
    if Reported(outcomes, m6id, Failed) then Refunded
    else if Reported(outcomes, m6id, Succeeded) then Confirmed
    else Bundled
  }

  /** What one block makes of request `i`: a pending one may join the block's bundle, a bundled
      one meets its bundle's fate, and a resolved one stays as it is. */
  ghost function Next(h: Hashes, r: Request, i: int, bundle: Option<WithdrawalBundle>,
                      outcomes: seq<Outcome>): Request {
    match r.status
    case Pending =>
      if bundle.Some? && i in bundle.value.requestIndices then AssignedTo(r, M6id(h, bundle.value)) else r
    case Bundled => r.(status := Fate(outcomes, r.bundleM6id))
    case _ => r
  }

  ghost predicate Progresses(h: Hashes, q: Queue, q': Queue, bundle: Option<WithdrawalBundle>, outcomes: seq<Outcome>) {
    && q.requestCount <= q'.requestCount
    && (forall i :: 0 <= i < q.requestCount ==> At(q', i) == Next(h, At(q, i), i, bundle, outcomes))
    && (forall i :: q.requestCount <= i < q'.requestCount ==> At(q', i).status == Pending)
  }

  /** The indices the update lists are those the definition of `Next` speaks of. */
  lemma {:induction false} MovesAreNext(h: Hashes, q: Queue, q': Queue, outcomes: seq<Outcome>, height: u32)
    requires Readable(q) && Moved(q, q', MovesFor(h, q, outcomes, height))
    ensures Progresses(h, q, q', Selected(h, PendingIn(q), height), outcomes)
  {
    hide Selected, M6id, Resolved, Reported;
    var bundle, v := Selected(h, PendingIn(q), height), MovesFor(h, q, outcomes, height);
    ResolvedMembers(q, outcomes, Succeeded);
    ResolvedMembers(q, outcomes, Failed);
    if bundle.Some? {
      BundledMembers(h, q, height);
    }
    forall i | 0 <= i < q.requestCount ensures At(q', i) == Next(h, At(q, i), i, bundle, outcomes) {
      assert At(q', i) == Advanced(At(q, i), i, v.bundled, v.m6id, v.succeeded, v.failed);
      if i in v.bundled {
        var k :| 0 <= k < |v.bundled| && v.bundled[k] == i;
        assert At(q, v.bundled[k]).status == Pending;
      }
    }
  }

  lemma {:induction false} NoMovesAreNext(h: Hashes, q: Queue, q': Queue)
    requires Moved(q, q', NO_MOVES)
    ensures Progresses(h, q, q', None, [])
  {
  }

  /** What the requesters answered to the refunds that took the log from `log` to `log'`. */
  ghost function NewAnswers(env: nat -> Reaction, log: seq<RefundEvent>, log': seq<RefundEvent>): seq<bool> {
    Answers(env, if |log| <= |log'| then |log'| - |log| else 0)
  }

  ghost predicate Logged(log: seq<RefundEvent>, start: nat, i: int) {
    exists k :: start <= k < |log| && log[k].index == i
  }

  ghost predicate JustRefunded(q: Queue, q': Queue, i: int) {
    0 <= i < q.requestCount && At(q, i).status != Refunded && At(q', i).status == Refunded
  }

  /** The refund log gains one event for every request that became refunded, sending its requester
      what it had locked, and no other; the transfer failed exactly if the requester rejected it. */
  ghost predicate LogGrows(q: Queue, q': Queue, log: seq<RefundEvent>, log': seq<RefundEvent>, answers: seq<bool>) {
    && |log'| == |log| + |answers| && log'[..|log|] == log
    && (forall k :: |log| <= k < |log'| ==>
          var e := log'[k]; JustRefunded(q, q', e.index) && e == RefundOf(e.index, At(q, e.index), answers[k - |log|]))
    && (forall j, k :: |log| <= j < k < |log'| ==> log'[j].index != log'[k].index)
    && (forall i :: JustRefunded(q, q', i) ==> Logged(log', |log|, i))
  }

  lemma {:induction false} RefundsLogGrows(h: Hashes, q: Queue, q1: Queue, q': Queue, log: seq<RefundEvent>,
                                           log': seq<RefundEvent>, answers: seq<bool>, outcomes: seq<Outcome>,
                                           height: u32)
    requires Readable(q) && Appends(q, q1) && ResolvedOnce(q, outcomes)
    requires Progresses(h, q, q', Selected(h, PendingIn(q), height), outcomes)
    requires LogsRefunds(log, log', q1, MovesFor(h, q, outcomes, height).failed, answers)
    ensures LogGrows(q, q', log, log', answers)
  {
    hide Selected, Resolved, M6id, ResolvedOnce, OncePer;
    var failed := Resolved(Entries(q), outcomes, Failed);
    ResolvedMembers(q, outcomes, Failed);
    ResolvedOnceSplits(q, outcomes);
    ResolvedDistinct(q, outcomes, Failed);
    FailedAreRefunded(h, q, q', Selected(h, PendingIn(q), height), outcomes);
    ListGrowsLog(q, q1, q', log, log', failed, answers);
  }

  lemma {:induction false} FailedAreRefunded(h: Hashes, q: Queue, q': Queue, bundle: Option<WithdrawalBundle>,
                                             outcomes: seq<Outcome>)
    requires Progresses(h, q, q', bundle, outcomes)
    ensures forall i :: JustRefunded(q, q', i)
                   <==> 0 <= i < q.requestCount && At(q, i).status == Bundled
                        && Reported(outcomes, At(q, i).bundleM6id, Failed)
  {
  }

  lemma {:induction false} ListGrowsLog(q: Queue, q1: Queue, q': Queue, log: seq<RefundEvent>, log': seq<RefundEvent>,
                                        failed: seq<U256>, answers: seq<bool>)
    requires LogsRefunds(log, log', q1, failed, answers) && NoDuplicates(failed) && Appends(q, q1)
    requires forall i :: i in failed <==> JustRefunded(q, q', i)
    ensures LogGrows(q, q', log, log', answers)
  {
    forall k | |log| <= k < |log'|
      ensures log'[k].index == failed[k - |log|] && JustRefunded(q, q', log'[k].index)
              && log'[k] == RefundOf(log'[k].index, At(q, log'[k].index), answers[k - |log|])
    {
      assert k == |log| + (k - |log|) && failed[k - |log|] in failed;
    }
    forall i | JustRefunded(q, q', i) ensures Logged(log', |log|, i) {
      var k :| 0 <= k < |failed| && failed[k] == i;
      assert log'[|log| + k].index == i;
    }
  }

  // ----- A block -----

  datatype Block = Block(extraData: Bytes, recipients: nat -> Reaction, requesters: nat -> Reaction,
                         actions: seq<Action>, mints: seq<Mint>)

  /** The world a block leaves: its system calls, then its users, then its EIP-4895 list. */
  ghost function WorldAfter(h: Hashes, x: Executed, b: Block): World {
    MintAll(DoAll(h, x.world, b.actions), b.mints)
  }

  ghost function Execute(h: Hashes, m: Mainchain, w: World, number: nat, parentExtraData: Bytes, b: Block)
    : Result<Executed, BlockError>
    requires Tree(m)
  {
    PreExecution(h, m, w, parentExtraData, b.extraData, number, b.recipients, b.requesters)
  }

  lemma {:induction false} CreditsKeepAll(h: Hashes, w: World, deposits: seq<Deposit>, env: nat -> Reaction)
    requires Sound(h, w)
    ensures
      var w' := CreditUpTo(h, w, deposits, |deposits|, env);
      && Sound(h, w') && Appends(w.queue, w'.queue) && w'.refunds == w.refunds && w'.minted == w.minted
      && CreditsFor(w.credits, w'.credits, deposits, Answers(env, |deposits|))
  {
    CreditsKeepBooks(h, w, deposits, |deposits|, env);
    CreditsAppend(h, w, deposits, |deposits|, env);
    CreditsKeepStored(h, w, deposits, |deposits|, env);
    assert deposits[..|deposits|] == deposits;
  }

  lemma {:induction false} UsersKeepAll(h: Hashes, w: World, actions: seq<Action>, mints: seq<Mint>)
    requires Sound(h, w)
    ensures
      var w' := MintAll(DoAll(h, w, actions), mints);
      && Sound(h, w') && Appends(w.queue, w'.queue)
      && w'.refunds == w.refunds && w'.credits == w.credits && w'.minted == w.minted + MintedWei(mints)
  {
    hide DoAll, MintAll, Books, Stored;
    ActionsAppend(h, w, actions);
    ActionsKeepBooks(h, w, actions);
    ActionsKeepStored(h, w, actions);
    var before := DoAll(h, w, actions);
    MintsKeepBooks(before, mints);
    StoredIgnoresBalance(h, before.queue, MintAll(before, mints).queue);
    AppendsTransitive(w.queue, before.queue, MintAll(before, mints).queue);
  }

  /** On a legible parent state the reader delivers the abstract queue. */
  lemma {:induction false} GatheredFromQueue(h: Hashes, m: Mainchain, w: World, parentExtraData: Bytes,
                                             extraData: Bytes,
                                             recipients: nat -> Reaction)
    requires Tree(m) && Legible(h, w.queue)
    requires Gather(h, m, w, parentExtraData, extraData, recipients).Ok?
    ensures Readable(w.queue)
    ensures
      var g := Gather(h, m, w, parentExtraData, extraData, recipients).value;
      g.entries == Entries(w.queue) && g.credited == CreditUpTo(h, w, g.deposits, |g.deposits|, recipients)
  {
    LegibleReads(h, w.queue);
  }

  /** `x` is what the system calls of a block on top of queue `q` did, and `q'` the queue they
      left: outcomes and bundle took effect together, or, if the call was not accepted, not at
      all. */
  ghost predicate Effective(h: Hashes, q: Queue, q': Queue, number: nat, x: Executed)
    requires Readable(q)
  {
    && (x.accepted <==> ResolvedOnce(q, x.outcomes))
    && x.bundle == (if x.accepted then Selected(h, PendingIn(q), BundleHeight(number)) else None)
    && Progresses(h, q, q', x.bundle, if x.accepted then x.outcomes else [])
  }

  lemma {:induction false} AdvanceEffective(h: Hashes, q: Queue, g: Gathered, number: nat, requesters: nat -> Reaction)
    requires Readable(q) && g.entries == Entries(q) && Appends(q, g.credited.queue) && Sound(h, g.credited)
    ensures
      var x := Advance(h, g, BundleHeight(number), requesters);
      && Sound(h, x.world) && x.world.credits == g.credited.credits && x.world.minted == g.credited.minted
      && x.deposits == g.deposits && x.outcomes == g.outcomes
      && Effective(h, q, x.world.queue, number, x)
      && LogGrows(q, x.world.queue, g.credited.refunds, x.world.refunds,
                  NewAnswers(requesters, g.credited.refunds, x.world.refunds))
  {
    hide Lifecycle, Selected, Moved, ResolvedOnce, Progresses, Sound, LogGrows, UpdateFor, Appends, MovesFor,
         SystemCall;
    var height := BundleHeight(number);
    var x := Advance(h, g, height, requesters);
    AdvanceEffect(h, q, g, height, requesters);
    if x.accepted {
      AcceptedAssignsSelected(h, g, height, requesters);
      MovesAreNext(h, q, x.world.queue, g.outcomes, height);
      RefundsLogGrows(h, q, g.credited.queue, x.world.queue, g.credited.refunds, x.world.refunds,
                      NewAnswers(requesters, g.credited.refunds, x.world.refunds), g.outcomes, height);
    } else {
      NoMovesAreNext(h, q, x.world.queue);
      NothingRefunded(h, q, g.credited.queue, x.world.queue, g.credited.refunds, x.world.refunds);
    }
  }

  lemma {:induction false} NothingRefunded(h: Hashes, q: Queue, q1: Queue, q': Queue, log: seq<RefundEvent>,
                                           log': seq<RefundEvent>)
    requires Progresses(h, q, q', None, []) && LogsRefunds(log, log', q1, [], []) && Appends(q, q1)
    ensures LogGrows(q, q', log, log', [])
  {
    FailedAreRefunded(h, q, q', None, []);
    ListGrowsLog(q, q1, q', log, log', [], []);
  }

  /** The block's system calls, before its users. */
  lemma {:induction false} ExecuteEffect(h: Hashes, m: Mainchain, w: World, number: nat, parentExtraData: Bytes,
                                         b: Block)
    requires Tree(m) && number > 0 && Legible(h, w.queue) && Books(w)
    requires Execute(h, m, w, number, parentExtraData, b).Ok?
    ensures Readable(w.queue)
    ensures
      var x := Execute(h, m, w, number, parentExtraData, b).value;
      && Sound(h, x.world) && Effective(h, w.queue, x.world.queue, number, x)
      && LogGrows(w.queue, x.world.queue, w.refunds, x.world.refunds,
                  NewAnswers(b.requesters, w.refunds, x.world.refunds))
      && CreditsFor(w.credits, x.world.credits, x.deposits, Answers(b.recipients, |x.deposits|))
      && x.world.minted == w.minted
  {
    hide Advance, Effective, LogGrows, CreditsFor, CreditUpTo;
    GatheredFromQueue(h, m, w, parentExtraData, b.extraData, b.recipients);
    var g := Gather(h, m, w, parentExtraData, b.extraData, b.recipients).value;
    CreditsKeepAll(h, w, g.deposits, b.recipients);
    AdvanceEffective(h, w.queue, g, number, b.requesters);
    assert Execute(h, m, w, number, parentExtraData, b).value == Advance(h, g, BundleHeight(number), b.requesters);
  }

  lemma {:induction false} UsersOnlyAppend(h: Hashes, q: Queue, q1: Queue, q2: Queue, number: nat, x: Executed,
                                           log: seq<RefundEvent>, log': seq<RefundEvent>, answers: seq<bool>)
    requires Readable(q) && Effective(h, q, q1, number, x) && LogGrows(q, q1, log, log', answers) && Appends(q1, q2)
    ensures Effective(h, q, q2, number, x) && LogGrows(q, q2, log, log', answers)
  {
    hide Selected, ResolvedOnce, Next, AmountWei;
    forall i | q.requestCount <= i < q2.requestCount ensures At(q2, i).status == Pending {
      if i < q1.requestCount {
        assert At(q2, i) == At(q1, i);
      }
    }
    forall i ensures JustRefunded(q, q1, i) <==> JustRefunded(q, q2, i) {
    }
  }

  /** One block, its users' transactions included: books, storage and shape are kept, the
      lifecycle call is accepted exactly when no awaited bundle is resolved twice, requests move
      as their bundles' outcomes and the block's selection say and in no other way, every refund
      made is logged once, and every deposit of the range is recorded once, in order. */
  lemma {:induction false} BlockKeepsAll(h: Hashes, m: Mainchain, w: World, number: nat, parentExtraData: Bytes,
                                         b: Block)
    requires Tree(m) && number > 0 && Legible(h, w.queue) && Books(w)
    requires Execute(h, m, w, number, parentExtraData, b).Ok?
    ensures Readable(w.queue)
    ensures
      var x := Execute(h, m, w, number, parentExtraData, b).value;
      var w' := WorldAfter(h, x, b);
      && Sound(h, w') && Effective(h, w.queue, w'.queue, number, x)
      && LogGrows(w.queue, w'.queue, w.refunds, w'.refunds, NewAnswers(b.requesters, w.refunds, w'.refunds))
      && CreditsFor(w.credits, w'.credits, x.deposits, Answers(b.recipients, |x.deposits|))
      && w'.minted == w.minted + MintedWei(b.mints)
  {
    hide Execute, Effective, LogGrows, CreditsFor, DoAll, MintAll, Sound;
    ExecuteEffect(h, m, w, number, parentExtraData, b);
    var x := Execute(h, m, w, number, parentExtraData, b).value;
    UsersKeepAll(h, x.world, b.actions, b.mints);
    UsersOnlyAppend(h, w.queue, x.world.queue, WorldAfter(h, x, b).queue, number, x, w.refunds, x.world.refunds,
                    NewAnswers(b.requesters, w.refunds, x.world.refunds));
  }
}
