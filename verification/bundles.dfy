// The bundles a branch has assigned: which requests each one holds, why no two share an m6id,
// and why a bundle's requests always stand together.

module Bundles {
  import opened ByteCodec
  import opened M6
  import opened Selection
  import opened SelectionLaws
  import opened QueueStorage
  import opened StorageReader
  import opened Escrow
  import opened LifecycleCall
  import opened Mainchain
  import opened LifecycleUpdate
  import opened BlockStep
  import opened BlockEffect
  import opened Peg

  /** The bundle is one the builder makes at that block, whose number it commits to as far as 32 bits can
      say. */
  ghost predicate Built(h: Hashes, b: WithdrawalBundle, number: nat) {
    exists fee: u64, payouts: seq<TxOut> ::
      |payouts| + 2 <= U64_MAX && b == BuildWithdrawalBundle(h, Min(number, U32_MAX), fee, b.requestIndices, payouts)
  }

  /** The bundle's requests exist, have left Pending, and carry its m6id. */
  ghost predicate Holds(h: Hashes, q: Queue, b: WithdrawalBundle) {
    var ids := b.requestIndices;
    && ids != [] && NoDuplicates(ids) && AllBelow(ids, q.requestCount)
    && (forall k :: 0 <= k < |ids| ==> At(q, ids[k]).status != Pending && At(q, ids[k]).bundleM6id == M6id(h, b))
  }

  ghost predicate InSome(bundles: seq<Assignment>, i: int) {
    exists j :: 0 <= j < |bundles| && i in bundles[j].bundle.requestIndices
  }

  ghost predicate Disjoint(a: seq<u64>, b: seq<u64>) {
    forall x :: x in a ==> x !in b
  }

  /** The assigned bundles partition the requests that have left Pending. */
  ghost predicate Partition(h: Hashes, c: Chain) {
    && (forall j :: 0 <= j < |c.bundles| ==> Built(h, c.bundles[j].bundle, c.bundles[j].number))
    && (forall j :: 0 <= j < |c.bundles| ==> Holds(h, c.world.queue, c.bundles[j].bundle))
    && (forall j, k :: 0 <= j < k < |c.bundles|
                 ==> Disjoint(c.bundles[j].bundle.requestIndices, c.bundles[k].bundle.requestIndices))
    && (forall i :: 0 <= i < c.world.queue.requestCount && At(c.world.queue, i).status != Pending
               ==> InSome(c.bundles, i))
  }

  // ----- Every block keeps the partition -----

  lemma {:induction false} SelectedIsBuilt(h: Hashes, q: Queue, number: nat)
    requires Readable(q) && Selected(h, PendingIn(q), BundleHeight(number)).Some?
    ensures Built(h, Selected(h, PendingIn(q), BundleHeight(number)).value, number)
  {
    var p := PendingIn(q);
    SelectedIsStandard(h, p, BundleHeight(number), Zeros(36), 0);
    var fee, payouts := Min(TotalFee(Chosen(p)), U64_MAX), Payouts(Chosen(p));
    var b := Selected(h, p, BundleHeight(number)).value;
    assert b == BuildWithdrawalBundle(h, Min(number, U32_MAX), fee, b.requestIndices, payouts);
  }

  lemma {:induction false} HeldStaysHeld(h: Hashes, q: Queue, q': Queue, bundle: Option<WithdrawalBundle>,
                                         outcomes: seq<Outcome>, b: WithdrawalBundle)
    requires Progresses(h, q, q', bundle, outcomes) && Holds(h, q, b)
    ensures Holds(h, q', b)
  {
    hide M6id, NoDuplicates;
    var ids := b.requestIndices;
    forall k | 0 <= k < |ids| ensures At(q', ids[k]).status != Pending && At(q', ids[k]).bundleM6id == M6id(h, b) {
      assert At(q', ids[k]) == Next(h, At(q, ids[k]), ids[k], bundle, outcomes);
    }
  }

  lemma {:induction false} NewIsHeld(h: Hashes, q: Queue, q': Queue, height: u32, outcomes: seq<Outcome>)
    requires Readable(q) && Selected(h, PendingIn(q), height).Some?
    requires Progresses(h, q, q', Selected(h, PendingIn(q), height), outcomes)
    ensures Holds(h, q', Selected(h, PendingIn(q), height).value)
    ensures AllHave(q, Selected(h, PendingIn(q), height).value.requestIndices, Pending)
  {
    hide M6id, Selected, NoDuplicates;
    var b := Selected(h, PendingIn(q), height).value;
    var ids := b.requestIndices;
    BundledMembers(h, q, height);
    forall k | 0 <= k < |ids| ensures At(q', ids[k]).status != Pending && At(q', ids[k]).bundleM6id == M6id(h, b) {
      assert At(q', ids[k]) == Next(h, At(q, ids[k]), ids[k], Some(b), outcomes);
    }
  }

  lemma {:induction false} LeftPendingIsAssigned(h: Hashes, c: Chain, c': Chain, x: Executed, i: int)
    requires Readable(c.world.queue) && Follows(h, c, c', x) && Partition(h, c)
    requires 0 <= i < c'.world.queue.requestCount && At(c'.world.queue, i).status != Pending
    ensures InSome(c'.bundles, i)
  {
    hide Selected, M6id, Built, Holds, Disjoint, CreditsFor, LogGrows, Fate;
    var q, q' := c.world.queue, c'.world.queue;
    assert i < q.requestCount;
    if At(q, i).status != Pending {
      var j :| 0 <= j < |c.bundles| && i in c.bundles[j].bundle.requestIndices;
      assert c'.bundles[j] == c.bundles[j];
    } else {
      assert x.bundle.Some? && i in x.bundle.value.requestIndices;
      assert c'.bundles[|c.bundles|].bundle == x.bundle.value;
    }
  }

  lemma {:induction false} PendingIsDisjoint(h: Hashes, q: Queue, b: WithdrawalBundle, ids: seq<u64>)
    requires Holds(h, q, b) && AllHave(q, ids, Pending)
    ensures Disjoint(b.requestIndices, ids)
  {
    forall x | x in b.requestIndices ensures x !in ids {
      HoldsMember(h, q, b, x);
      NotAmong(q, ids, x);
    }
  }

  lemma {:induction false} NotAmong(q: Queue, ids: seq<U256>, i: U256)
    requires AllHave(q, ids, Pending) && At(q, i).status != Pending
    ensures i !in ids
  {
  }

  lemma {:induction false} HoldsMember(h: Hashes, q: Queue, b: WithdrawalBundle, i: int)
    requires Holds(h, q, b) && i in b.requestIndices
    ensures 0 <= i < q.requestCount && At(q, i).status != Pending && At(q, i).bundleM6id == M6id(h, b)
  {
    var k :| 0 <= k < |b.requestIndices| && b.requestIndices[k] == i;
  }

  lemma {:induction false} NewAssignment(h: Hashes, c: Chain, c': Chain, x: Executed)
    requires Readable(c.world.queue) && Follows(h, c, c', x) && Partition(h, c) && x.bundle.Some?
    ensures Built(h, x.bundle.value, c.number + 1) && Holds(h, c'.world.queue, x.bundle.value)
    ensures forall j :: 0 <= j < |c.bundles|
                 ==> Disjoint(c.bundles[j].bundle.requestIndices, x.bundle.value.requestIndices)
  {
    hide Selected, M6id, Built, Holds, Disjoint, CreditsFor, LogGrows, Progresses;
    SelectedIsBuilt(h, c.world.queue, c.number + 1);
    NewIsHeld(h, c.world.queue, c'.world.queue, BundleHeight(c.number + 1), x.outcomes);
    forall j | 0 <= j < |c.bundles|
      ensures Disjoint(c.bundles[j].bundle.requestIndices, x.bundle.value.requestIndices)
    {
      PendingIsDisjoint(h, c.world.queue, c.bundles[j].bundle, x.bundle.value.requestIndices);
    }
  }

  lemma {:induction false} PartitionKept(h: Hashes, c: Chain, c': Chain, x: Executed)
    requires Readable(c.world.queue) && Follows(h, c, c', x) && Partition(h, c)
    ensures Partition(h, c')
  {
    hide Selected, M6id, Built, Holds, Disjoint, InSome, CreditsFor, LogGrows, Progresses, ResolvedOnce;
    forall i | 0 <= i < c'.world.queue.requestCount && At(c'.world.queue, i).status != Pending
      ensures InSome(c'.bundles, i)
    {
      LeftPendingIsAssigned(h, c, c', x, i);
    }
    forall j | 0 <= j < |c.bundles| ensures Holds(h, c'.world.queue, c.bundles[j].bundle) {
      HeldStaysHeld(h, c.world.queue, c'.world.queue, x.bundle, if x.accepted then x.outcomes else [],
                    c.bundles[j].bundle);
    }
    if x.bundle.Some? {
      NewAssignment(h, c, c', x);
    }
  }

  // ----- An m6id is never used twice -----

  /** The hash functions do not collide on the bundles this branch assigned. */
  ghost predicate CollisionFree(h: Hashes, bundles: seq<Assignment>) {
    forall j, k :: 0 <= j < k < |bundles| ==>
      NoCollision(h, bundles[j].bundle.requestIndices, BundleHeight(bundles[j].number), bundles[j].bundle.tx,
                  bundles[k].bundle.requestIndices, BundleHeight(bundles[k].number), bundles[k].bundle.tx)
  }

  lemma {:induction false} SameM6idSameIndices(h: Hashes, a: Assignment, b: Assignment)
    requires Built(h, a.bundle, a.number) && Built(h, b.bundle, b.number)
    requires NoCollision(h, a.bundle.requestIndices, BundleHeight(a.number), a.bundle.tx,
                         b.bundle.requestIndices, BundleHeight(b.number), b.bundle.tx)
    requires M6id(h, a.bundle) == M6id(h, b.bundle)
    ensures a.bundle.requestIndices == b.bundle.requestIndices
  {
    var feeA: u64, payoutsA: seq<TxOut> :|
      |payoutsA| + 2 <= U64_MAX
      && a.bundle == BuildWithdrawalBundle(h, BundleHeight(a.number), feeA, a.bundle.requestIndices, payoutsA);
    var feeB: u64, payoutsB: seq<TxOut> :|
      |payoutsB| + 2 <= U64_MAX
      && b.bundle == BuildWithdrawalBundle(h, BundleHeight(b.number), feeB, b.bundle.requestIndices, payoutsB);
    M6idDeterminesBundle(h, BundleHeight(a.number), feeA, a.bundle.requestIndices, payoutsA,
                         BundleHeight(b.number), feeB, b.bundle.requestIndices, payoutsB);
  }

  /** Every new bundle's m6id is fresh, even where the committed height has saturated: it consumes
      requests no earlier bundle consumed, and an m6id determines the requests. */
  lemma {:induction false} M6idsDistinct(h: Hashes, c: Chain, j: nat, k: nat)
    requires Partition(h, c) && CollisionFree(h, c.bundles) && j < k < |c.bundles|
    ensures M6id(h, c.bundles[j].bundle) != M6id(h, c.bundles[k].bundle)
  {
    hide M6id, Built, InSome, NoCollision;
    assert Holds(h, c.world.queue, c.bundles[j].bundle);
    assert c.bundles[j].bundle.requestIndices[0] !in c.bundles[k].bundle.requestIndices;
    if M6id(h, c.bundles[j].bundle) == M6id(h, c.bundles[k].bundle) {
      SameM6idSameIndices(h, c.bundles[j], c.bundles[k]);
    }
  }

  // ----- Bundles stand and fall whole -----

  /** The requests that carry a bundle's m6id are exactly those one selection chose. */
  lemma {:induction false} BundleIsWhatWasSelected(h: Hashes, c: Chain, j: nat, i: int)
    requires Partition(h, c) && CollisionFree(h, c.bundles) && j < |c.bundles| && 0 <= i < c.world.queue.requestCount
    ensures i in c.bundles[j].bundle.requestIndices
       <==> At(c.world.queue, i).status != Pending && At(c.world.queue, i).bundleM6id == M6id(h, c.bundles[j].bundle)
  {
    hide M6id, Built, NoCollision, CollisionFree, Disjoint, NoDuplicates;
    var q := c.world.queue;
    if i in c.bundles[j].bundle.requestIndices {
      HoldsMember(h, q, c.bundles[j].bundle, i);
    } else if At(q, i).status != Pending && At(q, i).bundleM6id == M6id(h, c.bundles[j].bundle) {
      assert InSome(c.bundles, i);
      var k :| 0 <= k < |c.bundles| && i in c.bundles[k].bundle.requestIndices;
      HoldsMember(h, q, c.bundles[k].bundle, i);
      if j < k {
        M6idsDistinct(h, c, j, k);
      } else {
        M6idsDistinct(h, c, k, j);
      }
    }
  }

  /** Requests that share an m6id share their status: a bundle's requests resolve together. */
  ghost predicate Atomic(q: Queue) {
    forall i, k :: 0 <= i < q.requestCount && 0 <= k < q.requestCount
                   && At(q, i).status != Pending && At(q, k).status != Pending
                   && At(q, i).bundleM6id == At(q, k).bundleM6id
             ==> At(q, i).status == At(q, k).status
  }

  /** No request that had left Pending carries the m6id the block assigns. */
  lemma {:induction false} AssignedIsFresh(h: Hashes, c: Chain, c': Chain, x: Executed, i: int)
    requires Readable(c.world.queue) && Follows(h, c, c', x) && Partition(h, c) && Partition(h, c')
    requires CollisionFree(h, c'.bundles) && x.bundle.Some?
    requires 0 <= i < c.world.queue.requestCount && At(c.world.queue, i).status != Pending
    ensures At(c.world.queue, i).bundleM6id != M6id(h, x.bundle.value)
  {
    hide M6id, Built, NoCollision, CollisionFree, Disjoint, NoDuplicates, Effective, LogGrows, CreditsFor;
    assert InSome(c.bundles, i);
    var j :| 0 <= j < |c.bundles| && i in c.bundles[j].bundle.requestIndices;
    HoldsMember(h, c.world.queue, c.bundles[j].bundle, i);
    assert c'.bundles[j] == c.bundles[j] && c'.bundles[|c.bundles|].bundle == x.bundle.value;
    M6idsDistinct(h, c', j, |c.bundles|);
  }

  lemma {:induction false} AtomicKept(h: Hashes, c: Chain, c': Chain, x: Executed)
    requires Readable(c.world.queue) && Follows(h, c, c', x) && Partition(h, c) && Partition(h, c')
    requires CollisionFree(h, c'.bundles) && Atomic(c.world.queue)
    ensures Atomic(c'.world.queue)
  {
    hide M6id, Partition, CollisionFree, Selected, ResolvedOnce, LogGrows, CreditsFor, Fate;
    var q, q' := c.world.queue, c'.world.queue;
    var outcomes := if x.accepted then x.outcomes else [];
    forall i, k | 0 <= i < q'.requestCount && 0 <= k < q'.requestCount
                  && At(q', i).status != Pending && At(q', k).status != Pending
                  && At(q', i).bundleM6id == At(q', k).bundleM6id
      ensures At(q', i).status == At(q', k).status
    {
      assert At(q', i) == Next(h, At(q, i), i, x.bundle, outcomes);
      assert At(q', k) == Next(h, At(q, k), k, x.bundle, outcomes);
      if At(q, i).status == Pending && At(q, k).status != Pending {
        AssignedIsFresh(h, c, c', x, k);
      } else if At(q, i).status != Pending && At(q, k).status == Pending {
        AssignedIsFresh(h, c, c', x, i);
      }
    }
  }
}
