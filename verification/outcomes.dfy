// The mainchain's verdicts and the queue's statuses: none is invented, none is lost, and under
// the enforcer's rules the contract never turns a lifecycle call down.

module Outcomes {
  import opened ByteCodec
  import opened M6
  import opened QueueStorage
  import opened StorageReader
  import opened Escrow
  import opened Mainchain
  import opened LifecycleUpdate
  import opened BlockStep
  import opened BlockEffect
  import opened Peg
  import opened Bundles

  // ----- Nothing is invented -----

  /** Whatever the mainchain does: a confirmed request's bundle was reported to have succeeded, a
      refunded one's to have failed. */
  ghost predicate Honest(c: Chain) {
    forall i :: 0 <= i < c.world.queue.requestCount ==>
      && (At(c.world.queue, i).status == Confirmed ==> Reported(c.outcomes, At(c.world.queue, i).bundleM6id, Succeeded))
      && (At(c.world.queue, i).status == Refunded ==> Reported(c.outcomes, At(c.world.queue, i).bundleM6id, Failed))
  }

  lemma {:induction false} HonestKept(h: Hashes, c: Chain, c': Chain, x: Executed)
    requires Readable(c.world.queue) && Follows(h, c, c', x) && Honest(c)
    ensures Honest(c')
  {
    hide M6id, ResolvedOnce, LogGrows, CreditsFor;
    var q, q' := c.world.queue, c'.world.queue;
    forall i | 0 <= i < q'.requestCount
      ensures At(q', i).status == Confirmed ==> Reported(c'.outcomes, At(q', i).bundleM6id, Succeeded)
      ensures At(q', i).status == Refunded ==> Reported(c'.outcomes, At(q', i).bundleM6id, Failed)
    {
      if i < q.requestCount {
        assert At(q', i) == Next(h, At(q, i), i, x.bundle, if x.accepted then x.outcomes else []);
      }
    }
  }

  // ----- What the enforcer guarantees -----

  /** Bundle `m6id` has at most one terminal outcome, and not among the first `seen`. */
  ghost predicate OnceAfter(outcomes: seq<Outcome>, m6id: U256, seen: nat) {
    && (forall i :: 0 <= i < |outcomes| && Terminal(outcomes[i]) && outcomes[i].m6id == m6id ==> seen <= i)
    && (forall i, j :: 0 <= i < j < |outcomes| && outcomes[i].m6id == outcomes[j].m6id == m6id && Terminal(outcomes[i])
                 ==> !Terminal(outcomes[j]))
  }

  /** A bundle this branch assigned is resolved at most once, and only by mainchain blocks after
      the one its assigning block names. */
  ghost predicate Faithful(h: Hashes, c: Chain) {
    forall j :: 0 <= j < |c.bundles| ==> OnceAfter(c.outcomes, M6id(h, c.bundles[j].bundle), c.bundles[j].seen)
  }

  lemma {:induction false} OnceAfterPrefix(outcomes: seq<Outcome>, more: seq<Outcome>, m6id: U256, seen: nat)
    requires OnceAfter(outcomes + more, m6id, seen)
    ensures OnceAfter(outcomes, m6id, seen)
  {
    var all := outcomes + more;
    assert forall i :: 0 <= i < |outcomes| ==> all[i] == outcomes[i];
  }

  lemma {:induction false} FaithfulBefore(h: Hashes, c: Chain, c': Chain, x: Executed)
    requires Readable(c.world.queue) && Follows(h, c, c', x) && Faithful(h, c')
    ensures Faithful(h, c)
  {
    hide M6id, OnceAfter, Effective, LogGrows, CreditsFor;
    forall j | 0 <= j < |c.bundles| ensures OnceAfter(c.outcomes, M6id(h, c.bundles[j].bundle), c.bundles[j].seen) {
      assert c'.bundles[j] == c.bundles[j];
      OnceAfterPrefix(c.outcomes, x.outcomes, M6id(h, c.bundles[j].bundle), c.bundles[j].seen);
    }
  }

  /** A request that has left Pending carries the m6id of a bundle the enforcer's rules cover. */
  lemma {:induction false} AssignedOnceAfter(h: Hashes, c: Chain, i: int) returns (seen: nat)
    requires Partition(h, c) && Faithful(h, c)
    requires 0 <= i < c.world.queue.requestCount && At(c.world.queue, i).status != Pending
    ensures OnceAfter(c.outcomes, At(c.world.queue, i).bundleM6id, seen)
  {
    hide M6id, OnceAfter, Built, Disjoint;
    assert InSome(c.bundles, i);
    var j :| 0 <= j < |c.bundles| && i in c.bundles[j].bundle.requestIndices;
    HoldsMember(h, c.world.queue, c.bundles[j].bundle, i);
    seen := c.bundles[j].seen;
  }

  // ----- The lifecycle call never reverts -----

  lemma {:induction false} OnceMeansOnce(before: seq<Outcome>, outcomes: seq<Outcome>, m6id: U256, seen: nat, j: nat,
                                         k: nat)
    requires OnceAfter(before + outcomes, m6id, seen) && j < k < |outcomes|
    requires outcomes[j].m6id == m6id && outcomes[k].m6id == m6id && Terminal(outcomes[j])
    ensures !Terminal(outcomes[k])
  {
    var all := before + outcomes;
    assert all[|before| + j] == outcomes[j] && all[|before| + k] == outcomes[k];
  }

  lemma {:induction false} RangeResolvesOnce(h: Hashes, c: Chain, outcomes: seq<Outcome>)
    requires Partition(h, c) && Faithful(h, c.(outcomes := c.outcomes + outcomes))
    ensures ResolvedOnce(c.world.queue, outcomes)
  {
    hide M6id, OnceAfter, Partition, Terminal;
    var d := c.(outcomes := c.outcomes + outcomes);
    var q := c.world.queue;
    forall j, k | 0 <= j < k < |outcomes| && Terminal(outcomes[j]) && Terminal(outcomes[k])
                  && outcomes[j].m6id == outcomes[k].m6id
      ensures !Tracked(q, outcomes[k].m6id)
    {
      forall i ensures !Awaits(q, i, outcomes[k].m6id) {
        if Awaits(q, i, outcomes[k].m6id) {
          PartitionIgnoresOutcomes(h, c, d);
          var seen := AssignedOnceAfter(h, d, i);
          OnceMeansOnce(c.outcomes, outcomes, outcomes[k].m6id, seen, j, k);
        }
      }
    }
  }

  lemma {:induction false} PartitionIgnoresOutcomes(h: Hashes, c: Chain, d: Chain)
    requires Partition(h, c) && d == c.(outcomes := d.outcomes)
    ensures Partition(h, d)
  {
    hide Built, Holds, Disjoint, InSome;
  }

  lemma {:induction false} AlwaysAccepted(h: Hashes, c: Chain, c': Chain, x: Executed)
    requires Readable(c.world.queue) && Follows(h, c, c', x) && Partition(h, c) && Faithful(h, c')
    ensures x.accepted
  {
    hide M6id, OnceAfter, Partition, ResolvedOnce, Progresses, LogGrows, CreditsFor;
    var d := c.(outcomes := c.outcomes + x.outcomes);
    forall j | 0 <= j < |d.bundles| ensures OnceAfter(d.outcomes, M6id(h, d.bundles[j].bundle), d.bundles[j].seen) {
      assert c'.bundles[j] == c.bundles[j];
    }
    RangeResolvesOnce(h, c, x.outcomes);
  }

  // ----- Nothing is lost -----

  /** Every request that has left Pending stands exactly where the mainchain's verdict on its
      bundle puts it. */
  ghost predicate Fated(c: Chain) {
    forall i :: 0 <= i < c.world.queue.requestCount && At(c.world.queue, i).status != Pending
          ==> At(c.world.queue, i).status == Fate(c.outcomes, At(c.world.queue, i).bundleM6id)
  }

  lemma {:induction false} ReportedJoin(a: seq<Outcome>, b: seq<Outcome>, m6id: U256, status: BundleStatus)
    ensures Reported(a + b, m6id, status) <==> Reported(a, m6id, status) || Reported(b, m6id, status)
  {
  }

  /** A bundle with one verdict does not get the other. */
  lemma {:induction false} SucceededDoesNotFail(outcomes: seq<Outcome>, m6id: U256, seen: nat)
    requires OnceAfter(outcomes, m6id, seen) && Reported(outcomes, m6id, Succeeded)
    ensures !Reported(outcomes, m6id, Failed)
  {
    var j :| 0 <= j < |outcomes| && outcomes[j] == Outcome(m6id, Succeeded);
    forall k | 0 <= k < |outcomes| ensures outcomes[k] != Outcome(m6id, Failed) {
      assert outcomes[k].m6id == m6id && Terminal(outcomes[k]) ==> k == j;
    }
  }

  lemma {:induction false} UnseenIsBundled(outcomes: seq<Outcome>, m6id: U256)
    requires OnceAfter(outcomes, m6id, |outcomes|)
    ensures Fate(outcomes, m6id) == Bundled
  {
    forall status | status == Succeeded || status == Failed ensures !Reported(outcomes, m6id, status) {
      forall i | 0 <= i < |outcomes| ensures outcomes[i] != Outcome(m6id, status) {
        assert outcomes[i] == Outcome(m6id, status) ==> Terminal(outcomes[i]);
      }
    }
  }

  /** A verdict, once in, is not changed by what is reported later. */
  lemma {:induction false} FateSettles(before: seq<Outcome>, outcomes: seq<Outcome>, m6id: U256, seen: nat)
    requires OnceAfter(before + outcomes, m6id, seen)
    ensures Fate(before + outcomes, m6id)
         == if Fate(before, m6id) == Bundled then Fate(outcomes, m6id) else Fate(before, m6id)
  {
    hide OnceAfter, Reported;
    ReportedJoin(before, outcomes, m6id, Succeeded);
    ReportedJoin(before, outcomes, m6id, Failed);
    if Reported(before, m6id, Succeeded) {
      SucceededDoesNotFail(before + outcomes, m6id, seen);
    }
  }

  lemma {:induction false} FateOfOne(h: Hashes, c: Chain, c': Chain, x: Executed, i: int)
    requires Readable(c.world.queue) && Follows(h, c, c', x) && x.accepted
    requires Partition(h, c') && Faithful(h, c') && Fated(c)
    requires 0 <= i < c'.world.queue.requestCount && At(c'.world.queue, i).status != Pending
    ensures At(c'.world.queue, i).status == Fate(c'.outcomes, At(c'.world.queue, i).bundleM6id)
  {
    hide M6id, Partition, OnceAfter, Fate, ResolvedOnce, LogGrows, CreditsFor;
    var q, q' := c.world.queue, c'.world.queue;
    assert At(q', i) == Next(h, At(q, i), i, x.bundle, x.outcomes);
    var seen := AssignedOnceAfter(h, c', i);
    if At(q, i).status == Pending {
      assert c'.bundles[|c.bundles|] == Assignment(x.bundle.value, c'.number, MainHash(c'.extraData), |c'.outcomes|);
      UnseenIsBundled(c'.outcomes, At(q', i).bundleM6id);
    } else {
      FateSettles(c.outcomes, x.outcomes, At(q', i).bundleM6id, seen);
    }
  }

  lemma {:induction false} FatedKept(h: Hashes, c: Chain, c': Chain, x: Executed)
    requires Readable(c.world.queue) && Follows(h, c, c', x) && Partition(h, c) && Partition(h, c')
    requires Faithful(h, c') && Fated(c)
    ensures Fated(c')
  {
    hide Partition, Faithful, Follows, Fate;
    AlwaysAccepted(h, c, c', x);
    forall i | 0 <= i < c'.world.queue.requestCount && At(c'.world.queue, i).status != Pending
      ensures At(c'.world.queue, i).status == Fate(c'.outcomes, At(c'.world.queue, i).bundleM6id)
    {
      FateOfOne(h, c, c', x, i);
    }
  }
}
