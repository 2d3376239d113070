// What a bundle takes from the mainchain treasury, and why it is exactly what the requests it
// holds had locked.

module Payments {
  import opened ByteCodec
  import opened M6
  import opened Aggregation
  import opened Selection
  import opened SelectionLaws
  import opened QueueStorage
  import opened StorageReader
  import opened PegState
  import opened Escrow
  import opened LifecycleUpdate
  import opened BlockStep
  import opened BlockEffect
  import opened Peg
  import opened Bundles

  // ----- Nothing saturates -----

  lemma {:induction false} PendingSums(q: Queue, n: nat, d: set<Script>)
    requires Readable(q) && n <= q.requestCount
    ensures SumIn(PendingOf(Entries(q)[..n]), d, ValueOf) + SumIn(PendingOf(Entries(q)[..n]), d, FeeOf)
         <= SumRequests(q, n, LockedSats)
  {
    if n > 0 {
      hide SumIn, PendingOf, Readable, LockedSats;
      PendingSums(q, n - 1, d);
      PendingOneMore(q, n);
      SumsOneMore(q, n, d, PendingOf(Entries(q)[..n - 1]), PendingOf(Entries(q)[..n]));
    }
  }

  lemma {:induction false} SumsOneMore(q: Queue, n: nat, d: set<Script>, p: seq<PendingWithdrawal>,
                                       p': seq<PendingWithdrawal>)
    requires Readable(q) && 0 < n <= q.requestCount
    requires p' == p + if At(q, n - 1).status == Pending then [PendingAt(q, n - 1)] else []
    ensures SumIn(p', d, ValueOf) + SumIn(p', d, FeeOf)
         <= SumIn(p, d, ValueOf) + SumIn(p, d, FeeOf) + LockedSats(At(q, n - 1))
  {
    assert p' == p || p'[..|p'| - 1] == p;
  }

  /** What EIP-4895 lists have minted, nothing unless a block carries such a list, leaves the supply
      within 2^64 sats. */
  ghost predicate FewMinted(w: World) {
    RESERVE + w.minted <= WEI_PER_SAT * U64_MAX
  }

  /** The escrow, and so any sum of pending amounts, is bounded by the supply: no sum the selector
      forms exceeds 64 bits. */
  lemma {:induction false} NothingSaturates(w: World)
    requires Books(w) && Readable(w.queue) && FewMinted(w)
    ensures TotalsFit(PendingIn(w.queue))
  {
    var q := w.queue;
    PendingSums(q, q.requestCount, DestinationSet(PendingIn(q)));
    assert Entries(q)[..q.requestCount] == Entries(q);
    assert WEI_PER_SAT * Total(q, LockedSats) <= RESERVE + w.minted;
  }

  // ----- A bundle debits what its requests locked -----

  ghost function CommittedFee(tx: Transaction): nat {
    if tx.outputs == [] || |tx.outputs[0].scriptPubkey| < 2 then 0 else FromBigEndian(tx.outputs[0].scriptPubkey[2..])
  }

  /** What the treasury loses when the bundle succeeds: all its outputs and the fee it commits to. */
  ghost function Debit(tx: Transaction): nat {
    OutputSum(tx.outputs) + CommittedFee(tx)
  }

  /** What request `r` locked, if bundle `m6id` holds it. */
  ghost function Share(r: Request, m6id: U256): nat {
    if r.status != Pending && r.bundleM6id == m6id then r.valueSats + r.mainFeeSats else 0
  }

  /** What the first `n` requests held by bundle `m6id` locked. */
  ghost function HeldSats(q: Queue, n: nat, m6id: U256): nat
    requires n <= TWO_256
  {
    if n == 0 then 0 else HeldSats(q, n - 1, m6id) + Share(At(q, n - 1), m6id)
  }

  lemma {:induction false} HeldAgrees(q: Queue, q': Queue, n: nat, k: nat, m6id: U256)
    requires n <= k <= TWO_256
    requires forall i :: 0 <= i < n ==> Share(At(q', i), m6id) == Share(At(q, i), m6id)
    requires forall i :: n <= i < k ==> Share(At(q', i), m6id) == 0
    ensures HeldSats(q', k, m6id) == HeldSats(q, n, m6id)
    decreases k
  {
    if k > n {
      HeldAgrees(q, q', n, k - 1, m6id);
    } else if n > 0 {
      HeldAgrees(q, q', n - 1, n - 1, m6id);
    }
  }

  /** Every assigned bundle debits exactly what its requests locked. */
  ghost predicate Balanced(h: Hashes, c: Chain) {
    forall j :: 0 <= j < |c.bundles| ==>
      Debit(c.bundles[j].bundle.tx)
      == HeldSats(c.world.queue, c.world.queue.requestCount, M6id(h, c.bundles[j].bundle))
  }

  lemma {:induction false} SelectedDebit(h: Hashes, w: World, height: u32)
    requires Books(w) && Readable(w.queue) && FewMinted(w) && Selected(h, PendingIn(w.queue), height).Some?
    ensures
      var p, b := PendingIn(w.queue), Selected(h, PendingIn(w.queue), height).value;
      Debit(b.tx) == SumOver(p, b.requestIndices, ValueOf) + SumOver(p, b.requestIndices, FeeOf)
  {
    hide Selected, SumOver, Readable, Books, TotalsFit, DistinctIndices;
    var p, b := PendingIn(w.queue), Selected(h, PendingIn(w.queue), height).value;
    NothingSaturates(w);
    PendingIs(w.queue);
    BundlePaysWhatItConsumes(h, p, height);
    var fee := SumOver(p, b.requestIndices, FeeOf);
    assert b.tx.outputs[0].scriptPubkey[2..] == BigEndian(fee, 8);
    Pow256Values();
    BigEndianRoundTrip(fee, 8);
  }

  /** What one pending request contributes to the sums over the selected indices. */
  ghost function Taken(q: Queue, i: U256, ids: seq<u64>): nat {
    if At(q, i).status == Pending && i in ids then At(q, i).valueSats + At(q, i).mainFeeSats else 0
  }

  lemma {:induction false} SumOverOneMore(q: Queue, n: nat, ids: seq<u64>)
    requires Readable(q) && 0 < n <= q.requestCount
    ensures
      var p, p' := PendingOf(Entries(q)[..n - 1]), PendingOf(Entries(q)[..n]);
      SumOver(p', ids, ValueOf) + SumOver(p', ids, FeeOf)
      == SumOver(p, ids, ValueOf) + SumOver(p, ids, FeeOf) + Taken(q, n - 1, ids)
  {
    hide Entries, PendingOf, Readable;
    var p, p' := PendingOf(Entries(q)[..n - 1]), PendingOf(Entries(q)[..n]);
    PendingOneMore(q, n);
    assert p' == p || p'[..|p'| - 1] == p;
  }

  lemma {:induction false} TakenIsHeld(q: Queue, q': Queue, n: nat, ids: seq<u64>, m6id: U256)
    requires Readable(q) && n <= q.requestCount
    requires forall i :: 0 <= i < n ==> Share(At(q', i), m6id) == Taken(q, i, ids)
    ensures SumOver(PendingOf(Entries(q)[..n]), ids, ValueOf) + SumOver(PendingOf(Entries(q)[..n]), ids, FeeOf)
         == HeldSats(q', n, m6id)
  {
    hide Readable, Share, Taken;
    if n > 0 {
      SumOverOneMore(q, n, ids);
      TakenIsHeld(q, q', n - 1, ids, m6id);
    }
  }

  lemma {:induction false} NewBundleBalanced(h: Hashes, c: Chain, c': Chain, x: Executed)
    requires Readable(c.world.queue) && Books(c.world) && FewMinted(c.world) && Follows(h, c, c', x) && x.bundle.Some?
    requires Partition(h, c) && Partition(h, c') && CollisionFree(h, c'.bundles)
    ensures Debit(x.bundle.value.tx)
         == HeldSats(c'.world.queue, c'.world.queue.requestCount, M6id(h, x.bundle.value))
  {
    hide Selected, M6id, Partition, CollisionFree, Debit, SumOver, HeldSats, LogGrows, CreditsFor, ResolvedOnce,
         Books, Readable, Fate;
    var q, q' := c.world.queue, c'.world.queue;
    var b, m6id := x.bundle.value, M6id(h, x.bundle.value);
    forall i | 0 <= i < q.requestCount ensures Share(At(q', i), m6id) == Taken(q, i, b.requestIndices) {
      assert At(q', i) == Next(h, At(q, i), i, x.bundle, x.outcomes);
      if At(q, i).status != Pending {
        AssignedIsFresh(h, c, c', x, i);
      }
    }
    TakenIsHeld(q, q', q.requestCount, b.requestIndices, m6id);
    assert Entries(q)[..q.requestCount] == Entries(q);
    SelectedDebit(h, c.world, BundleHeight(c.number + 1));
    HeldAgrees(q', q', q.requestCount, q'.requestCount, m6id);
  }

  lemma {:induction false} OldBundleBalanced(h: Hashes, c: Chain, c': Chain, x: Executed, j: nat)
    requires Readable(c.world.queue) && Follows(h, c, c', x) && j < |c.bundles|
    requires Partition(h, c') && CollisionFree(h, c'.bundles)
    ensures
      var m6id := M6id(h, c.bundles[j].bundle);
      HeldSats(c'.world.queue, c'.world.queue.requestCount, m6id)
      == HeldSats(c.world.queue, c.world.queue.requestCount, m6id)
  {
    hide Selected, M6id, Partition, CollisionFree, HeldSats, LogGrows, CreditsFor, ResolvedOnce, Readable, Reported;
    var q, q' := c.world.queue, c'.world.queue;
    var m6id := M6id(h, c.bundles[j].bundle);
    if x.bundle.Some? {
      assert c'.bundles[j] == c.bundles[j] && c'.bundles[|c.bundles|].bundle == x.bundle.value;
      M6idsDistinct(h, c', j, |c.bundles|);
    }
    forall i | 0 <= i < q.requestCount ensures Share(At(q', i), m6id) == Share(At(q, i), m6id) {
      assert At(q', i) == Next(h, At(q, i), i, x.bundle, if x.accepted then x.outcomes else []);
    }
    HeldAgrees(q, q', q.requestCount, q'.requestCount, m6id);
  }

  lemma {:induction false} BalancedKept(h: Hashes, c: Chain, c': Chain, x: Executed)
    requires Readable(c.world.queue) && Books(c.world) && FewMinted(c.world) && Follows(h, c, c', x)
    requires Partition(h, c) && Partition(h, c') && CollisionFree(h, c'.bundles) && Balanced(h, c)
    ensures Balanced(h, c')
  {
    hide M6id, Partition, CollisionFree, HeldSats, Debit, Effective, LogGrows, CreditsFor, Readable, Books;
    if x.bundle.Some? {
      NewBundleBalanced(h, c, c', x);
    }
    forall j | 0 <= j < |c'.bundles|
      ensures Debit(c'.bundles[j].bundle.tx)
           == HeldSats(c'.world.queue, c'.world.queue.requestCount, M6id(h, c'.bundles[j].bundle))
    {
      if j < |c.bundles| {
        OldBundleBalanced(h, c, c', x, j);
      }
    }
  }

  // ----- Payout by payout -----

  /** The value of request `r`, if bundle `m6id` holds it and it pays to `d`. */
  ghost function ShareTo(r: Request, m6id: U256, d: Script): nat {
    if r.status != Pending && r.bundleM6id == m6id && r.btcDestination == d then r.valueSats else 0
  }

  /** What the first `n` requests held by bundle `m6id` asked to be paid to `d`. */
  ghost function HeldTo(q: Queue, n: nat, m6id: U256, d: Script): nat
    requires n <= TWO_256
  {
    if n == 0 then 0 else HeldTo(q, n - 1, m6id, d) + ShareTo(At(q, n - 1), m6id, d)
  }

  lemma {:induction false} HeldToAgrees(q: Queue, q': Queue, n: nat, k: nat, m6id: U256, d: Script)
    requires n <= k <= TWO_256
    requires forall i :: 0 <= i < n ==> ShareTo(At(q', i), m6id, d) == ShareTo(At(q, i), m6id, d)
    requires forall i :: n <= i < k ==> ShareTo(At(q', i), m6id, d) == 0
    ensures HeldTo(q', k, m6id, d) == HeldTo(q, n, m6id, d)
    decreases k
  {
    if k > n {
      HeldToAgrees(q, q', n, k - 1, m6id, d);
    } else if n > 0 {
      HeldToAgrees(q, q', n - 1, n - 1, m6id, d);
    }
  }

  /** Each payout of the bundle is worth exactly what the requests it holds asked to be paid to that
      script, no script is paid twice, and every request it holds has its script paid. */
  ghost predicate Itemised(h: Hashes, q: Queue, b: WithdrawalBundle) {
    && (forall k :: 2 <= k < |b.tx.outputs|
               ==> b.tx.outputs[k].value == HeldTo(q, q.requestCount, M6id(h, b), b.tx.outputs[k].scriptPubkey))
    && (forall j, k :: 2 <= j < k < |b.tx.outputs|
                  ==> b.tx.outputs[j].scriptPubkey != b.tx.outputs[k].scriptPubkey)
    && (forall i :: 0 <= i < q.requestCount && At(q, i).status != Pending && At(q, i).bundleM6id == M6id(h, b)
               ==> PaysTo(b.tx, At(q, i).btcDestination))
  }

  ghost predicate AllItemised(h: Hashes, c: Chain) {
    forall j :: 0 <= j < |c.bundles| ==> Itemised(h, c.world.queue, c.bundles[j].bundle)
  }

  /** What pending request `i` asks to be paid to `d`. */
  ghost function OwedAt(q: Queue, i: U256, d: Script): nat {
    if At(q, i).status == Pending && At(q, i).btcDestination == d then At(q, i).valueSats else 0
  }

  lemma {:induction false} OwedOneMore(q: Queue, n: nat, d: Script)
    requires Readable(q) && 0 < n <= q.requestCount
    ensures SumIn(PendingOf(Entries(q)[..n]), {d}, ValueOf)
         == SumIn(PendingOf(Entries(q)[..n - 1]), {d}, ValueOf) + OwedAt(q, n - 1, d)
  {
    hide Entries, PendingOf, Readable;
    var p, p' := PendingOf(Entries(q)[..n - 1]), PendingOf(Entries(q)[..n]);
    PendingOneMore(q, n);
    assert p' == p || p'[..|p'| - 1] == p;
  }

  lemma {:induction false} OwedIsHeld(q: Queue, q': Queue, n: nat, m6id: U256, d: Script)
    requires Readable(q) && n <= q.requestCount
    requires forall i :: 0 <= i < n ==> ShareTo(At(q', i), m6id, d) == OwedAt(q, i, d)
    ensures SumIn(PendingOf(Entries(q)[..n]), {d}, ValueOf) == HeldTo(q', n, m6id, d)
  {
    hide Readable, ShareTo, OwedAt;
    if n > 0 {
      OwedOneMore(q, n, d);
      OwedIsHeld(q, q', n - 1, m6id, d);
    }
  }

  /** The pending requests to a destination are selected together. */
  lemma {:induction false} SelectedTo(h: Hashes, q: Queue, height: u32, i: int)
    requires Readable(q) && Selected(h, PendingIn(q), height).Some?
    requires 0 <= i < q.requestCount && At(q, i).status == Pending
    ensures i in Selected(h, PendingIn(q), height).value.requestIndices
       <==> At(q, i).btcDestination in Paid(PendingIn(q))
  {
    hide PendingIn, Selected, Paid;
    PendingIs(q);
    ConsumesWholeDestinations(h, PendingIn(q), height);
    assert PendingAt(q, i) in PendingIn(q);
  }

  lemma {:induction false} NewPayoutIsOwed(h: Hashes, c: Chain, c': Chain, x: Executed, d: Script)
    requires Readable(c.world.queue) && Follows(h, c, c', x) && x.bundle.Some?
    requires Partition(h, c) && Partition(h, c') && CollisionFree(h, c'.bundles)
    requires d in Paid(PendingIn(c.world.queue))
    ensures HeldTo(c'.world.queue, c'.world.queue.requestCount, M6id(h, x.bundle.value), d)
         == SumIn(PendingIn(c.world.queue), {d}, ValueOf)
  {
    hide Selected, M6id, Partition, CollisionFree, SumIn, HeldTo, LogGrows, CreditsFor, ResolvedOnce, Readable,
         Fate, Paid;
    var q, q' := c.world.queue, c'.world.queue;
    var m6id := M6id(h, x.bundle.value);
    forall i | 0 <= i < q.requestCount ensures ShareTo(At(q', i), m6id, d) == OwedAt(q, i, d) {
      assert At(q', i) == Next(h, At(q, i), i, x.bundle, x.outcomes);
      if At(q, i).status != Pending {
        AssignedIsFresh(h, c, c', x, i);
      } else {
        SelectedTo(h, q, BundleHeight(c.number + 1), i);
      }
    }
    OwedIsHeld(q, q', q.requestCount, m6id, d);
    assert Entries(q)[..q.requestCount] == Entries(q);
    HeldToAgrees(q', q', q.requestCount, q'.requestCount, m6id, d);
  }

  lemma {:induction false} HeldHaveTheirScriptPaid(h: Hashes, c: Chain, c': Chain, x: Executed, i: int)
    requires Readable(c.world.queue) && Follows(h, c, c', x) && x.bundle.Some?
    requires Partition(h, c) && Partition(h, c') && CollisionFree(h, c'.bundles)
    requires 0 <= i < c'.world.queue.requestCount && At(c'.world.queue, i).status != Pending
    requires At(c'.world.queue, i).bundleM6id == M6id(h, x.bundle.value)
    ensures At(c'.world.queue, i).btcDestination in Paid(PendingIn(c.world.queue))
  {
    hide Selected, M6id, Partition, CollisionFree, LogGrows, CreditsFor, ResolvedOnce, Readable, Fate, Paid,
         PendingIn;
    var q, q' := c.world.queue, c'.world.queue;
    assert At(q', i) == Next(h, At(q, i), i, x.bundle, x.outcomes);
    if At(q, i).status != Pending {
      AssignedIsFresh(h, c, c', x, i);
    } else {
      SelectedTo(h, q, BundleHeight(c.number + 1), i);
    }
  }

  lemma {:induction false} NewBundleItemised(h: Hashes, c: Chain, c': Chain, x: Executed)
    requires Readable(c.world.queue) && Books(c.world) && FewMinted(c.world) && Follows(h, c, c', x) && x.bundle.Some?
    requires Partition(h, c) && Partition(h, c') && CollisionFree(h, c'.bundles)
    ensures Itemised(h, c'.world.queue, x.bundle.value)
  {
    hide Selected, M6id, Partition, CollisionFree, SumIn, HeldTo, LogGrows, CreditsFor, Progresses, ResolvedOnce,
         Readable, Paid, PendingIn, TotalsFit, Books, PaysTo;
    var p, b := PendingIn(c.world.queue), x.bundle.value;
    NothingSaturates(c.world);
    PaysEachDestinationItsRequests(h, p, BundleHeight(c.number + 1));
    forall k | 2 <= k < |b.tx.outputs|
      ensures b.tx.outputs[k].value
           == HeldTo(c'.world.queue, c'.world.queue.requestCount, M6id(h, b), b.tx.outputs[k].scriptPubkey)
    {
      PayoutPays(b.tx, k);
      NewPayoutIsOwed(h, c, c', x, b.tx.outputs[k].scriptPubkey);
    }
    forall i | 0 <= i < c'.world.queue.requestCount && At(c'.world.queue, i).status != Pending
               && At(c'.world.queue, i).bundleM6id == M6id(h, b)
      ensures PaysTo(b.tx, At(c'.world.queue, i).btcDestination)
    {
      HeldHaveTheirScriptPaid(h, c, c', x, i);
    }
  }

  lemma {:induction false} PayoutPays(tx: Transaction, k: nat)
    requires 2 <= k < |tx.outputs|
    ensures PaysTo(tx, tx.outputs[k].scriptPubkey)
  {
  }

  /** A block leaves what an earlier bundle holds as it is. */
  lemma {:induction false} OldBundleItemised(h: Hashes, c: Chain, c': Chain, x: Executed, j: nat)
    requires Readable(c.world.queue) && Follows(h, c, c', x) && j < |c.bundles|
    requires Partition(h, c') && CollisionFree(h, c'.bundles) && Itemised(h, c.world.queue, c.bundles[j].bundle)
    ensures Itemised(h, c'.world.queue, c.bundles[j].bundle)
  {
    hide Selected, M6id, Partition, CollisionFree, HeldTo, LogGrows, CreditsFor, ResolvedOnce, Readable, Reported,
         PaysTo;
    var q, q', b := c.world.queue, c'.world.queue, c.bundles[j].bundle;
    if x.bundle.Some? {
      assert c'.bundles[j] == c.bundles[j] && c'.bundles[|c.bundles|].bundle == x.bundle.value;
      M6idsDistinct(h, c', j, |c.bundles|);
    }
    forall i | 0 <= i < q.requestCount
      ensures HoldsAlike(At(q, i), At(q', i), M6id(h, b))
    {
      assert At(q', i) == Next(h, At(q, i), i, x.bundle, if x.accepted then x.outcomes else []);
    }
    forall k | 2 <= k < |b.tx.outputs|
      ensures b.tx.outputs[k].value == HeldTo(q', q'.requestCount, M6id(h, b), b.tx.outputs[k].scriptPubkey)
    {
      HeldToAgrees(q, q', q.requestCount, q'.requestCount, M6id(h, b), b.tx.outputs[k].scriptPubkey);
    }
  }

  /** Bundle `m6id` holds the request after the block if and only if it did before, for the same
      payment. */
  ghost predicate HoldsAlike(r: Request, r': Request, m6id: U256) {
    && r'.btcDestination == r.btcDestination && r'.valueSats == r.valueSats
    && (r'.status != Pending && r'.bundleM6id == m6id <==> r.status != Pending && r.bundleM6id == m6id)
  }

  lemma {:induction false} ItemisedKept(h: Hashes, c: Chain, c': Chain, x: Executed)
    requires Readable(c.world.queue) && Books(c.world) && FewMinted(c.world) && Follows(h, c, c', x)
    requires Partition(h, c) && Partition(h, c') && CollisionFree(h, c'.bundles) && AllItemised(h, c)
    ensures AllItemised(h, c')
  {
    hide Partition, CollisionFree, Itemised, Effective, LogGrows, CreditsFor, Readable, Books;
    if x.bundle.Some? {
      NewBundleItemised(h, c, c', x);
    }
    forall j | 0 <= j < |c'.bundles| ensures Itemised(h, c'.world.queue, c'.bundles[j].bundle) {
      if j < |c.bundles| {
        OldBundleItemised(h, c, c', x, j);
      }
    }
  }
}
