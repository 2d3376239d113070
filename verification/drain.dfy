// The queue drains: while no request arrives, every block takes whole destinations off it.

module Drain {
  import opened ByteCodec
  import opened M6
  import opened Aggregation
  import opened Selection
  import opened SelectionLaws
  import opened QueueStorage
  import opened StorageReader
  import opened Escrow
  import opened Mainchain
  import opened LifecycleUpdate
  import opened BlockStep
  import opened BlockEffect
  import opened Peg

  ghost predicate WaitsFor(q: Queue, i: int, d: Script) {
    0 <= i < q.requestCount && At(q, i).status == Pending && At(q, i).btcDestination == d
  }

  /** Destinations with a pending request. */
  ghost function Waiting(q: Queue): set<Script>
    requires Readable(q)
  {
    DestinationSet(PendingIn(q))
  }

  lemma {:induction false} WaitingIs(q: Queue)
    requires Readable(q)
    ensures forall d :: d in Waiting(q) <==> exists i :: WaitsFor(q, i, d)
  {
    hide PendingIn;
    var p := PendingIn(q);
    PendingIs(q);
    forall d ensures d in Waiting(q) <==> exists i :: WaitsFor(q, i, d) {
      if d in Waiting(q) {
        var k :| 0 <= k < |p| && p[k].btcDestination == d;
        assert WaitsFor(q, p[k].index, d);
      }
      if i :| WaitsFor(q, i, d) {
        assert PendingAt(q, i) in p;
      }
    }
  }

  /** Every pending script fits a bundle alone. */
  ghost predicate Short(q: Queue) {
    forall i :: 0 <= i < q.requestCount && At(q, i).status == Pending ==> |At(q, i).btcDestination| <= 99_874
  }

  lemma {:induction false} ShortSelects(h: Hashes, q: Queue, height: u32)
    requires Readable(q) && Short(q) && Waiting(q) != {}
    ensures Selected(h, PendingIn(q), height).Some?
  {
    hide PendingIn, Selected;
    PendingIs(q);
    ShortRequestsAreSelected(h, PendingIn(q), height);
  }

  /** A request to a destination is selected exactly when the destination is paid. */
  lemma {:induction false} SelectedByDestination(h: Hashes, q: Queue, height: u32, i: int, d: Script)
    requires Readable(q) && Selected(h, PendingIn(q), height).Some? && WaitsFor(q, i, d)
    ensures i in Selected(h, PendingIn(q), height).value.requestIndices <==> d in Paid(PendingIn(q))
  {
    hide PendingIn, Selected, Paid;
    PendingIs(q);
    ConsumesWholeDestinations(h, PendingIn(q), height);
    assert PendingAt(q, i) in PendingIn(q);
  }

  lemma {:induction false} PaidWereWaiting(h: Hashes, q: Queue, height: u32)
    requires Readable(q) && Selected(h, PendingIn(q), height).Some?
    ensures Paid(PendingIn(q)) <= Waiting(q) && Paid(PendingIn(q)) != {}
  {
    hide PendingIn, Selected, Paid;
    ConsumedIndices(h, PendingIn(q), height);
  }

  lemma {:induction false} StillWaiting(h: Hashes, q: Queue, q': Queue, height: u32, outcomes: seq<Outcome>, i: int,
                                        d: Script)
    requires Readable(q) && q'.requestCount == q.requestCount && Selected(h, PendingIn(q), height).Some?
    requires Progresses(h, q, q', Selected(h, PendingIn(q), height), outcomes)
    ensures WaitsFor(q', i, d) <==> WaitsFor(q, i, d) && d !in Paid(PendingIn(q))
  {
    hide PendingIn, Selected, Paid, Reported, Readable, M6id;
    if 0 <= i < q.requestCount {
      assert At(q', i) == Next(h, At(q, i), i, Selected(h, PendingIn(q), height), outcomes);
      if WaitsFor(q, i, d) {
        SelectedByDestination(h, q, height, i, d);
      }
    }
  }

  /** A block whose call is accepted, and in which no request arrives, takes exactly the paid
      destinations off the queue: all of their requests, and none of any other's. */
  lemma {:induction false} TakesWholeDestinations(h: Hashes, q: Queue, q': Queue, height: u32, outcomes: seq<Outcome>)
    requires Readable(q) && Readable(q') && q'.requestCount == q.requestCount
    requires Selected(h, PendingIn(q), height).Some?
    requires Progresses(h, q, q', Selected(h, PendingIn(q), height), outcomes)
    ensures Waiting(q') == Waiting(q) - Paid(PendingIn(q))
  {
    hide PendingIn, Selected, Paid, Waiting, WaitsFor, Readable, Progresses;
    WaitingIs(q);
    WaitingIs(q');
    forall d ensures d in Waiting(q') <==> d in Waiting(q) && d !in Paid(PendingIn(q)) {
      forall i ensures WaitsFor(q', i, d) <==> WaitsFor(q, i, d) && d !in Paid(PendingIn(q)) {
        StillWaiting(h, q, q', height, outcomes, i, d);
      }
    }
  }

  lemma {:induction false} NoneWaitingStays(h: Hashes, q: Queue, q': Queue, bundle: Option<WithdrawalBundle>,
                                            outcomes: seq<Outcome>)
    requires Readable(q) && Readable(q') && q'.requestCount == q.requestCount
    requires Progresses(h, q, q', bundle, outcomes) && Waiting(q) == {}
    ensures Waiting(q') == {}
  {
    hide PendingIn, Readable, M6id, Reported, Waiting;
    WaitingIs(q);
    WaitingIs(q');
    forall d ensures d !in Waiting(q') {
      assert d !in Waiting(q);
      forall i ensures !WaitsFor(q', i, d) {
        assert !WaitsFor(q, i, d);
        assert 0 <= i < q.requestCount ==> At(q', i) == Next(h, At(q, i), i, bundle, outcomes);
      }
    }
  }

  lemma {:induction false} ShortStays(h: Hashes, q: Queue, q': Queue, bundle: Option<WithdrawalBundle>,
                                      outcomes: seq<Outcome>)
    requires q'.requestCount == q.requestCount && Progresses(h, q, q', bundle, outcomes) && Short(q)
    ensures Short(q')
  {
    hide M6id, Reported;
    forall i | 0 <= i < q'.requestCount && At(q', i).status == Pending ensures |At(q', i).btcDestination| <= 99_874 {
      assert At(q', i) == Next(h, At(q, i), i, bundle, outcomes);
    }
  }

  /** While the pending scripts are short and none arrives, each block strictly lowers the number
      of distinct pending destinations, until there is none. */
  lemma {:induction false} BlockDrains(h: Hashes, c: Chain, c': Chain, x: Executed)
    requires Readable(c.world.queue) && Readable(c'.world.queue) && Follows(h, c, c', x) && x.accepted
    requires Short(c.world.queue) && c'.world.queue.requestCount == c.world.queue.requestCount
    ensures Short(c'.world.queue)
    ensures Waiting(c.world.queue) == {} ==> Waiting(c'.world.queue) == {}
    ensures Waiting(c.world.queue) != {} ==> |Waiting(c'.world.queue)| < |Waiting(c.world.queue)|
  {
    hide PendingIn, Selected, Paid, Waiting, Short, Readable, Progresses, ResolvedOnce, LogGrows, CreditsFor;
    var q, q' := c.world.queue, c'.world.queue;
    ShortStays(h, q, q', x.bundle, x.outcomes);
    if Waiting(q) == {} {
      NoneWaitingStays(h, q, q', x.bundle, x.outcomes);
    } else {
      var height := BundleHeight(c.number + 1);
      ShortSelects(h, q, height);
      TakesWholeDestinations(h, q, q', height, x.outcomes);
      PaidWereWaiting(h, q, height);
      FewerLeft(Waiting(q), Paid(PendingIn(q)));
    }
  }

  lemma {:induction false} FewerLeft(all: set<Script>, taken: set<Script>)
    requires taken <= all && taken != {}
    ensures |all - taken| < |all|
  {
    assert |all| == |all - taken| + |taken|;
  }

  // ----- What never drains -----

  /** A pending request with a script too long to fit a bundle alone is exactly as it was after any
      block. */
  lemma {:induction false} LongStaysPending(h: Hashes, c: Chain, c': Chain, x: Executed, i: int)
    requires Readable(c.world.queue) && Follows(h, c, c', x)
    requires 0 <= i < c.world.queue.requestCount && At(c.world.queue, i).status == Pending
    requires |At(c.world.queue, i).btcDestination| > 99_874
    ensures At(c'.world.queue, i) == At(c.world.queue, i)
  {
    hide PendingIn, Selected, Paid, Readable, ResolvedOnce, LogGrows, CreditsFor, M6id, Fate;
    var q, d := c.world.queue, At(c.world.queue, i).btcDestination;
    if x.bundle.Some? {
      SelectedByDestination(h, q, BundleHeight(c.number + 1), i, d);
      LongIsNeverPaid(PendingIn(q), d);
    }
  }

  ghost predicate NonePending(q: Queue) {
    forall i :: 0 <= i < q.requestCount ==> At(q, i).status != Pending
  }

  lemma {:induction false} NoneWaitingNonePending(q: Queue)
    requires Readable(q)
    ensures Waiting(q) == {} <==> NonePending(q)
  {
    hide Waiting, Readable;
    WaitingIs(q);
    if Waiting(q) == {} {
      forall i | 0 <= i < q.requestCount ensures At(q, i).status != Pending {
        assert At(q, i).btcDestination !in Waiting(q);
        assert !WaitsFor(q, i, At(q, i).btcDestination);
      }
    }
    if NonePending(q) {
      forall d ensures d !in Waiting(q) {
        forall i ensures !WaitsFor(q, i, d) {
        }
      }
    }
  }

  /** A block whose call is accepted assigns a bundle exactly when some candidate is pending and the
      first in the ranking fits alone: a long first candidate holds everything up. */
  lemma {:induction false} AssignsExactlyWhen(h: Hashes, c: Chain, c': Chain, x: Executed)
    requires Readable(c.world.queue) && Follows(h, c, c', x) && x.accepted
    ensures
      var candidates := Packable(Ranked(PendingIn(c.world.queue)));
      c'.bundles != c.bundles <==> candidates != [] && |candidates[0].btcDestination| <= 99_874
  {
    hide PendingIn, Selected, Packable, Ranked, Progresses, ResolvedOnce, LogGrows, CreditsFor, Readable;
    NothingSelectedExactlyWhen(h, PendingIn(c.world.queue), BundleHeight(c.number + 1));
    assert |c'.bundles| == |c.bundles| + if x.bundle.Some? then 1 else 0;
    assert x.bundle.None? ==> c'.bundles == c.bundles;
  }
}
