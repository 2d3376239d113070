// The peg is fully backed: on every branch, the sats left in the mainchain treasury are worth
// exactly the ether in circulation, plus the escrow of everything not yet paid out, plus what
// was rejected or could not be credited, burned or forced away, less what was minted.

module Backing {
  import opened ByteCodec
  import opened M6
  import opened QueueStorage
  import opened PegState
  import opened Escrow
  import opened Mainchain
  import opened LifecycleUpdate
  import opened Peg
  import opened Bundles
  import opened Outcomes
  import opened Payments

  // ----- The mainchain's side -----

  ghost predicate Ours(h: Hashes, bundles: seq<Assignment>, m6id: U256) {
    exists j :: 0 <= j < |bundles| && M6id(h, bundles[j].bundle) == m6id
  }

  /** What the successes among `outcomes` took from the treasury; `paid` says how much each M6
      took. */
  ghost function PaidOut(paid: U256 -> nat, outcomes: seq<Outcome>): nat {
    if outcomes == [] then 0 else
      var last := outcomes[|outcomes| - 1];
      PaidOut(paid, outcomes[..|outcomes| - 1]) + if last.status == Succeeded then paid(last.m6id) else 0
  }

  /** What each M6 that this branch never assigned took. */
  ghost function Foreign(h: Hashes, paid: U256 -> nat, bundles: seq<Assignment>): U256 -> nat {
    (m6id: U256) => if Ours(h, bundles, m6id) then 0 else paid(m6id)
  }

  /** A success of an assigned bundle debits the treasury by its payouts plus its committed fee. */
  ghost predicate DebitsAsCommitted(h: Hashes, paid: U256 -> nat, bundles: seq<Assignment>) {
    forall j :: 0 <= j < |bundles| ==> paid(M6id(h, bundles[j].bundle)) == Debit(bundles[j].bundle.tx)
  }

  // ----- Counting by bundle and counting by request -----

  /** The successes counted bundle by bundle: what the first `n` requests of each had locked. */
  ghost function WonSats(q: Queue, n: nat, outcomes: seq<Outcome>): nat
    requires n <= TWO_256
  {
    if outcomes == [] then 0 else
      var last := outcomes[|outcomes| - 1];
      WonSats(q, n, outcomes[..|outcomes| - 1]) + if last.status == Succeeded then HeldSats(q, n, last.m6id) else 0
  }

  /** The successes counted for one request. */
  ghost function WonBy(r: Request, outcomes: seq<Outcome>): nat {
    if outcomes == [] then 0 else
      var last := outcomes[|outcomes| - 1];
      WonBy(r, outcomes[..|outcomes| - 1]) + if last.status == Succeeded then Share(r, last.m6id) else 0
  }

  lemma {:induction false} WonOneMore(q: Queue, n: nat, outcomes: seq<Outcome>)
    requires 0 < n <= TWO_256
    ensures WonSats(q, n, outcomes) == WonSats(q, n - 1, outcomes) + WonBy(At(q, n - 1), outcomes)
  {
    hide Share;
    if outcomes != [] {
      WonOneMore(q, n, outcomes[..|outcomes| - 1]);
    }
  }

  lemma {:induction false} NothingWon(r: Request, outcomes: seq<Outcome>)
    requires r.status == Pending || !Reported(outcomes, r.bundleM6id, Succeeded)
    ensures WonBy(r, outcomes) == 0
  {
    if outcomes != [] {
      var n := |outcomes| - 1;
      assert outcomes == outcomes[..n] + [outcomes[n]];
      NothingWon(r, outcomes[..n]);
    }
  }

  /** One verdict means a request is counted once. */
  lemma {:induction false} WonOnce(r: Request, outcomes: seq<Outcome>, seen: nat)
    requires r.status != Pending && OnceAfter(outcomes, r.bundleM6id, seen)
    requires Reported(outcomes, r.bundleM6id, Succeeded)
    ensures WonBy(r, outcomes) == r.valueSats + r.mainFeeSats
  {
    var n := |outcomes| - 1;
    var before, last := outcomes[..n], outcomes[n];
    assert outcomes == before + [last];
    OnceAfterPrefix(before, [last], r.bundleM6id, seen);
    if last == Outcome(r.bundleM6id, Succeeded) {
      forall i | 0 <= i < n ensures before[i] != Outcome(r.bundleM6id, Succeeded) {
        assert outcomes[i].m6id == r.bundleM6id ==> !Terminal(outcomes[i]);
      }
      NothingWon(r, before);
    } else {
      assert Reported(before, r.bundleM6id, Succeeded);
      WonOnce(r, before, seen);
    }
  }

  lemma {:induction false} WonIsConfirmed(h: Hashes, c: Chain, i: int)
    requires Partition(h, c) && Faithful(h, c) && Fated(c) && 0 <= i < c.world.queue.requestCount
    ensures WonBy(At(c.world.queue, i), c.outcomes) == ConfirmedSats(At(c.world.queue, i))
  {
    hide Partition, Faithful, OnceAfter, WonBy;
    var r := At(c.world.queue, i);
    if r.status == Pending {
      NothingWon(r, c.outcomes);
    } else {
      var seen := AssignedOnceAfter(h, c, i);
      if Reported(c.outcomes, r.bundleM6id, Succeeded) {
        SucceededDoesNotFail(c.outcomes, r.bundleM6id, seen);
        WonOnce(r, c.outcomes, seen);
      } else {
        NothingWon(r, c.outcomes);
      }
    }
  }

  lemma {:induction false} WonTotals(h: Hashes, c: Chain, n: nat)
    requires Partition(h, c) && Faithful(h, c) && Fated(c) && n <= c.world.queue.requestCount
    ensures WonSats(c.world.queue, n, c.outcomes) == SumRequests(c.world.queue, n, ConfirmedSats)
  {
    hide Partition, Faithful, Fated, ConfirmedSats, WonBy;
    if n == 0 {
      NoneWon(c.world.queue, c.outcomes);
    } else {
      WonOneMore(c.world.queue, n, c.outcomes);
      WonTotals(h, c, n - 1);
      WonIsConfirmed(h, c, n - 1);
    }
  }

  lemma {:induction false} NoneWon(q: Queue, outcomes: seq<Outcome>)
    ensures WonSats(q, 0, outcomes) == 0
  {
    if outcomes != [] {
      NoneWon(q, outcomes[..|outcomes| - 1]);
    }
  }

  // ----- Counting by bundle is what the treasury paid -----

  lemma {:induction false} NotOursHoldsNothing(h: Hashes, c: Chain, n: nat, m6id: U256)
    requires Partition(h, c) && n <= c.world.queue.requestCount && !Ours(h, c.bundles, m6id)
    ensures HeldSats(c.world.queue, n, m6id) == 0
  {
    hide M6id, Built, Disjoint;
    if n > 0 {
      NotOursHoldsNothing(h, c, n - 1, m6id);
      if At(c.world.queue, n - 1).status != Pending {
        assert InSome(c.bundles, n - 1);
        var j :| 0 <= j < |c.bundles| && n - 1 in c.bundles[j].bundle.requestIndices;
        HoldsMember(h, c.world.queue, c.bundles[j].bundle, n - 1);
      }
    }
  }

  lemma {:induction false} PaidSplits(h: Hashes, c: Chain, paid: U256 -> nat, outcomes: seq<Outcome>)
    requires Partition(h, c) && Balanced(h, c) && DebitsAsCommitted(h, paid, c.bundles)
    ensures PaidOut(paid, outcomes)
         == PaidOut(Foreign(h, paid, c.bundles), outcomes)
            + WonSats(c.world.queue, c.world.queue.requestCount, outcomes)
  {
    hide M6id, Partition, Debit, HeldSats;
    if outcomes != [] {
      var n := |outcomes| - 1;
      PaidSplits(h, c, paid, outcomes[..n]);
      if Ours(h, c.bundles, outcomes[n].m6id) {
        var j :| 0 <= j < |c.bundles| && M6id(h, c.bundles[j].bundle) == outcomes[n].m6id;
        assert paid(outcomes[n].m6id) == Debit(c.bundles[j].bundle.tx);
      } else {
        NotOursHoldsNothing(h, c, c.world.queue.requestCount, outcomes[n].m6id);
      }
    }
  }

  /** The successes of this branch's bundles took exactly what the confirmed requests had locked. */
  lemma {:induction false} PaidIsConfirmed(h: Hashes, c: Chain, paid: U256 -> nat)
    requires Partition(h, c) && Balanced(h, c) && Faithful(h, c) && Fated(c) && DebitsAsCommitted(h, paid, c.bundles)
    ensures PaidOut(paid, c.outcomes)
         == PaidOut(Foreign(h, paid, c.bundles), c.outcomes) + Total(c.world.queue, ConfirmedSats)
  {
    hide Partition, Balanced, Faithful, Fated, DebitsAsCommitted, PaidOut, WonSats, SumRequests;
    PaidSplits(h, c, paid, c.outcomes);
    WonTotals(h, c, c.world.queue.requestCount);
  }

  // ----- The backing -----

  /** Sats deposited less sats paid out: what is left in the treasury. */
  ghost function Treasury(paid: U256 -> nat, c: Chain): int {
    DepositedSats(c.deposits) - PaidOut(paid, c.outcomes)
  }

  /** Escrow that does not belong to confirmed requests. */
  ghost function OpenEscrow(w: World): int {
    w.queue.balance - WEI_PER_SAT * Total(w.queue, ConfirmedSats)
  }

  lemma {:induction false} OpenEscrowIs(w: World)
    requires Solvent(w)
    ensures OpenEscrow(w) == WEI_PER_SAT * Total(w.queue, OpenSats) + FailedRefunds(w.refunds) + w.forcedQueue
  {
    LockedSplits(w.queue, w.queue.requestCount);
  }

  /** Everything the treasury owes, to the wei. */
  lemma {:induction false} FullyBacked(h: Hashes, c: Chain, paid: U256 -> nat)
    requires Books(c.world)
    requires CreditedWei(c.world.credits) + RejectedWei(c.world.credits) + UnfundedWei(c.world.credits)
          == DepositedSats(c.deposits) * WEI_PER_SAT
    requires Partition(h, c) && Balanced(h, c) && Faithful(h, c) && Fated(c) && DebitsAsCommitted(h, paid, c.bundles)
    ensures
      WEI_PER_SAT * (Treasury(paid, c) + PaidOut(Foreign(h, paid, c.bundles), c.outcomes)) + c.world.minted
      == c.world.circulating + OpenEscrow(c.world)
         + RejectedWei(c.world.credits) + UnfundedWei(c.world.credits) + c.world.burned + c.world.forcedVault
    ensures OpenEscrow(c.world) >= WEI_PER_SAT * Total(c.world.queue, OpenSats)
  {
    hide Partition, Balanced, Faithful, Fated, DebitsAsCommitted, PaidOut, SumRequests, FailedRefunds,
         DepositedSats, RejectedWei, UnfundedWei, CreditedWei, UnfundedOnlyWhenDry;
    PaidIsConfirmed(h, c, paid);
    OpenEscrowIs(c.world);
  }
}
