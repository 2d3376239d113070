// A branch and the mainchain it follows, told from the events in the mainchain's own blocks: what
// the branch has processed, what is assumed of the enforcer, and what the treasury holds.

module OnMainchain {
  import opened ByteCodec
  import opened M6
  import opened QueueStorage
  import opened PegState
  import opened Escrow
  import opened Mainchain
  import opened RawEvents
  import opened LifecycleUpdate
  import opened BlockStep
  import opened Peg
  import opened Outcomes
  import opened Backing

  // ----- What a branch has processed -----

  /** `path` leads from the first mainchain block to the one that the last header of `c` names. */
  ghost predicate PathOf(m: Mainchain, c: Chain, path: seq<U256>) {
    if c.number == 0 then path == []
    else path != [] && c.extraData == BigEndian(path[|path| - 1], 32) && Linked(m, None, path, path[|path| - 1])
  }

  /** Every block on the path once, and of their events every deposit and every report on a bundle once:
      just those the branch has processed, in that order. */
  lemma {:induction false} EventsProcessedOnce(m: Mainchain, c: Chain)
    returns (path: seq<U256>, deposited: seq<Position>, reported: seq<Position>)
    requires Tree(m) && CaughtUp(m, c)
    ensures PathOf(m, c, path)
    ensures forall i, j :: 0 <= i < j < |path| ==> path[i] != path[j]
    ensures Lists(m, path, c.deposits, DepositOn, deposited)
    ensures Lists(m, path, c.outcomes, OutcomeOn, reported)
  {
    hide Lists, Linked, Collected, PathEvents;
    if c.number == 0 {
      path, deposited, reported := [], [], [];
      NothingListed<Deposit>(m, DepositOn);
      NothingListed<Outcome>(m, OutcomeOn);
    } else {
      path := ProcessedPath(m, c);
      PathDistinct(m, None, MainHash(c.extraData).value);
      deposited := DepositsListed(m, path);
      reported := OutcomesListed(m, path);
      NamedPath(m, c, path);
    }
  }

  lemma {:induction false} NothingListed<T(!new)>(m: Mainchain, event: T -> MainEvent)
    ensures Lists(m, [], [], event, [])
  {
  }

  lemma {:induction false} NamedPath(m: Mainchain, c: Chain, path: seq<U256>)
    requires Tree(m) && MainHash(c.extraData).Some? && Path(m, None, MainHash(c.extraData).value) == Some(path)
    ensures path != [] && c.extraData == BigEndian(path[|path| - 1], 32) && Linked(m, None, path, path[|path| - 1])
  {
    PathExactly(m, None, path, MainHash(c.extraData).value);
    MainHashExactly(c.extraData, MainHash(c.extraData).value);
  }

  lemma {:induction false} PathOfIs(m: Mainchain, c: Chain, path: seq<U256>)
    requires Tree(m) && PathOf(m, c, path) && c.number > 0
    ensures MainHash(c.extraData).Some? && Path(m, None, MainHash(c.extraData).value) == Some(path)
  {
    MainHashExactly(c.extraData, path[|path| - 1]);
    PathExactly(m, None, path, path[|path| - 1]);
  }

  /** The path to `end` begins with that to `named`, and exactly the blocks after it are above `named`. */
  lemma {:induction false} AboveNamed(m: Mainchain, named: U256, end: U256)
    requires Tree(m) && Path(m, None, named).Some? && Path(m, Some(named), end).Some?
    ensures
      var before, after := Path(m, None, named).value, Path(m, Some(named), end).value;
      && named in m.blocks && Path(m, None, end) == Some(before + after)
      && (forall b :: 0 <= b < |before| ==> before[b] in m.blocks)
      && (forall b :: 0 <= b < |after| ==> after[b] in m.blocks)
      && (forall b :: 0 <= b < |before + after| ==>
            && (before + after)[b] in m.blocks
            && (|before| <= b <==> m.blocks[named].height < m.blocks[(before + after)[b]].height))
  {
    hide Path;
    PathsJoin(m, None, named, end);
    PathRises(m, None, named);
    PathRises(m, Some(named), end);
  }

  /** The branch's outcomes with their places on its path; those it had processed when it made
      assignment `a` are those in blocks up to the one that `a` names. */
  lemma {:induction false} OutcomesPlaced(m: Mainchain, c: Chain, path: seq<U256>, a: Assignment)
    returns (at: seq<Position>)
    requires Tree(m) && CaughtUp(m, c) && c.number > 0 && PathOf(m, c, path) && SeenUpTo(m, c, a)
    ensures Lists(m, path, c.outcomes, OutcomeOn, at) && a.named.Some? && a.named.value in m.blocks
    ensures forall k :: 0 <= k < |at| ==>
      && at[k].block < |path| && path[at[k].block] in m.blocks
      && (a.seen <= k <==> m.blocks[a.named.value].height < m.blocks[path[at[k].block]].height)
  {
    hide Lists, Linked, Collected, Path, PathEvents;
    PathOfIs(m, c, path);
    var end := MainHash(c.extraData).value;
    var before, after := Path(m, None, a.named.value).value, Path(m, a.named, end).value;
    AboveNamed(m, a.named.value, end);
    RangeRest(m, None, a.named.value, end, OutcomeOf);
    var rest := InRange(m, a.named, end, OutcomeOf).value;
    var first := OutcomesListed(m, before);
    var second := OutcomesListed(m, after);
    at := ListsJoin(m, before, after, c.outcomes[..a.seen], rest, OutcomeOn, first, second);
    assert c.outcomes == c.outcomes[..a.seen] + rest;
    forall k | 0 <= k < |at|
      ensures at[k].block < |path| && path[at[k].block] in m.blocks
      ensures a.seen <= k <==> m.blocks[a.named.value].height < m.blocks[path[at[k].block]].height
    {
      ListedIsOnPath(m, path, c.outcomes, OutcomeOn, at, k);
    }
  }

  lemma {:induction false} ListedIsOnPath<T(!new)>(m: Mainchain, path: seq<U256>, list: seq<T>, event: T -> MainEvent,
                                                   at: seq<Position>, k: nat)
    requires Lists(m, path, list, event, at) && k < |at|
    ensures at[k].block < |path|
  {
    assert Stands(m, path, at[k], event(list[k]));
  }

  // ----- What is assumed of the enforcer -----

  /** At `p` the mainchain reports that bundle `m6id` succeeded, or that it failed. */
  ghost predicate VerdictAt(m: Mainchain, path: seq<U256>, p: Position, m6id: U256) {
    || Stands(m, path, p, BundleEvent(Some(BigEndian(m6id, 32)), Some(Succeeded)))
    || Stands(m, path, p, BundleEvent(Some(BigEndian(m6id, 32)), Some(Failed)))
  }

  /** There is at most one verdict on bundle `m6id`, and it is in a block above `named`. */
  ghost predicate ResolvedOnceAfter(m: Mainchain, path: seq<U256>, m6id: U256, named: Option<U256>) {
    && (forall p, p2 :: VerdictAt(m, path, p, m6id) && VerdictAt(m, path, p2, m6id) ==> p == p2)
    && (forall p :: VerdictAt(m, path, p, m6id) ==>
          && named.Some? && named.value in m.blocks
          && m.blocks[named.value].height < m.blocks[path[p.block]].height)
  }

  /** Where the `k`-th outcome stands there is a verdict on `m6id` exactly if that outcome is one. */
  lemma {:induction false} VerdictListed(m: Mainchain, path: seq<U256>, outcomes: seq<Outcome>, at: seq<Position>,
                                         m6id: U256, k: nat)
    requires Lists(m, path, outcomes, OutcomeOn, at) && k < |at|
    ensures VerdictAt(m, path, at[k], m6id) <==> outcomes[k].m6id == m6id && Terminal(outcomes[k])
  {
    assert Stands(m, path, at[k], OutcomeOn(outcomes[k]));
    Pow256Values();
    BigEndianRoundTrip(m6id, 32);
    BigEndianRoundTrip(outcomes[k].m6id, 32);
  }

  lemma {:induction false} VerdictIndex(m: Mainchain, path: seq<U256>, outcomes: seq<Outcome>, at: seq<Position>,
                                        m6id: U256, p: Position) returns (k: nat)
    requires Lists(m, path, outcomes, OutcomeOn, at) && VerdictAt(m, path, p, m6id)
    ensures k < |at| && at[k] == p
  {
    var succeeded, failed := Outcome(m6id, Succeeded), Outcome(m6id, Failed);
    k := ListedAt(m, path, outcomes, OutcomeOn, at, p,
                  if Stands(m, path, p, OutcomeOn(succeeded)) then succeeded else failed);
  }

  lemma {:induction false} OnceAfterExactly(m: Mainchain, c: Chain, path: seq<U256>, a: Assignment, m6id: U256)
    requires Tree(m) && CaughtUp(m, c) && c.number > 0 && PathOf(m, c, path) && SeenUpTo(m, c, a)
    ensures OnceAfter(c.outcomes, m6id, a.seen) <==> ResolvedOnceAfter(m, path, m6id, a.named)
  {
    hide Lists, VerdictAt, Linked, Path, CaughtUp, SeenUpTo, Terminal;
    var at := OutcomesPlaced(m, c, path, a);
    PlacesApart(m, path, c.outcomes, at);
    forall k | 0 <= k < |at|
      ensures VerdictAt(m, path, at[k], m6id) <==> c.outcomes[k].m6id == m6id && Terminal(c.outcomes[k])
    {
      VerdictListed(m, path, c.outcomes, at, m6id, k);
    }
    forall p | VerdictAt(m, path, p, m6id) ensures p in at {
      var k := VerdictIndex(m, path, c.outcomes, at, m6id, p);
    }
    if ResolvedOnceAfter(m, path, m6id, a.named) {
      forall j, k | 0 <= j < k < |at| && c.outcomes[j].m6id == c.outcomes[k].m6id == m6id && Terminal(c.outcomes[j])
        ensures !Terminal(c.outcomes[k])
      {
        assert VerdictAt(m, path, at[j], m6id) && at[j] != at[k];
      }
      forall k | 0 <= k < |at| && c.outcomes[k].m6id == m6id && Terminal(c.outcomes[k]) ensures a.seen <= k {
        assert VerdictAt(m, path, at[k], m6id);
      }
    }
    if OnceAfter(c.outcomes, m6id, a.seen) {
      forall p, p2 | VerdictAt(m, path, p, m6id) && VerdictAt(m, path, p2, m6id) ensures p == p2 {
        var j := VerdictIndex(m, path, c.outcomes, at, m6id, p);
        var k := VerdictIndex(m, path, c.outcomes, at, m6id, p2);
        assert VerdictAt(m, path, at[j], m6id) && VerdictAt(m, path, at[k], m6id);
      }
    }
  }

  lemma {:induction false} PlacesApart(m: Mainchain, path: seq<U256>, outcomes: seq<Outcome>, at: seq<Position>)
    requires Lists(m, path, outcomes, OutcomeOn, at)
    ensures |at| == |outcomes|
    ensures forall j, k :: 0 <= j < k < |at| ==> at[j] != at[k]
  {
    forall j, k | 0 <= j < k < |at| ensures at[j] != at[k] {
      assert Earlier(at[j], at[k]);
    }
  }

  /** What is assumed of the enforcer, in terms of the mainchain's own blocks: each bundle the branch
      assigned gets at most one verdict on its path, in a block above the one that the assigning
      block names. */
  lemma {:induction false} FaithfulExactly(h: Hashes, m: Mainchain, c: Chain, path: seq<U256>)
    requires Tree(m) && CaughtUp(m, c) && SeenAsNamed(m, c) && PathOf(m, c, path)
    ensures Faithful(h, c)
       <==> forall j :: 0 <= j < |c.bundles|
                   ==> ResolvedOnceAfter(m, path, M6id(h, c.bundles[j].bundle), c.bundles[j].named)
  {
    hide M6id, OnceAfter, ResolvedOnceAfter, Linked, OutcomesInRange, Path;
    forall j | 0 <= j < |c.bundles|
      ensures OnceAfter(c.outcomes, M6id(h, c.bundles[j].bundle), c.bundles[j].seen)
         <==> ResolvedOnceAfter(m, path, M6id(h, c.bundles[j].bundle), c.bundles[j].named)
    {
      assert SeenUpTo(m, c, c.bundles[j]);
      OnceAfterExactly(m, c, path, c.bundles[j], M6id(h, c.bundles[j].bundle));
    }
  }

  // ----- What the mainchain says of a request -----

  /** Some block of the path reports that bundle `m6id` reached `status`. */
  ghost predicate Says(m: Mainchain, path: seq<U256>, m6id: U256, status: BundleStatus) {
    exists p :: Stands(m, path, p, BundleEvent(Some(BigEndian(m6id, 32)), Some(status)))
  }

  lemma {:induction false} ReportedExactly(m: Mainchain, path: seq<U256>, outcomes: seq<Outcome>, at: seq<Position>,
                                           m6id: U256, status: BundleStatus)
    requires Lists(m, path, outcomes, OutcomeOn, at)
    ensures Reported(outcomes, m6id, status) <==> Says(m, path, m6id, status)
  {
    var o := Outcome(m6id, status);
    if o in outcomes {
      var k :| 0 <= k < |outcomes| && outcomes[k] == o;
      assert Stands(m, path, at[k], OutcomeOn(outcomes[k]));
    }
    if p :| Stands(m, path, p, BundleEvent(Some(BigEndian(m6id, 32)), Some(status))) {
      var k := ListedAt(m, path, outcomes, OutcomeOn, at, p, o);
      Pow256Values();
      BigEndianRoundTrip(m6id, 32);
      BigEndianRoundTrip(outcomes[k].m6id, 32);
    }
  }

  /** Whatever the mainchain does: a confirmed request's bundle was reported on the path to have
      succeeded, a refunded one's to have failed. */
  ghost predicate NoneInvented(m: Mainchain, path: seq<U256>, q: Queue) {
    forall i :: 0 <= i < q.requestCount ==>
      && (At(q, i).status == Confirmed ==> Says(m, path, At(q, i).bundleM6id, Succeeded))
      && (At(q, i).status == Refunded ==> Says(m, path, At(q, i).bundleM6id, Failed))
  }

  lemma {:induction false} HonestIsNoneInvented(m: Mainchain, path: seq<U256>, c: Chain, at: seq<Position>)
    requires Lists(m, path, c.outcomes, OutcomeOn, at) && Honest(c)
    ensures NoneInvented(m, path, c.world.queue)
  {
    hide Lists, Reported, Says;
    forall i | 0 <= i < c.world.queue.requestCount
      ensures At(c.world.queue, i).status == Confirmed ==> Says(m, path, At(c.world.queue, i).bundleM6id, Succeeded)
      ensures At(c.world.queue, i).status == Refunded ==> Says(m, path, At(c.world.queue, i).bundleM6id, Failed)
    {
      ReportedExactly(m, path, c.outcomes, at, At(c.world.queue, i).bundleM6id, Succeeded);
      ReportedExactly(m, path, c.outcomes, at, At(c.world.queue, i).bundleM6id, Failed);
    }
  }

  // ----- What the treasury holds -----

  /** The sats an event takes out of the treasury; `paid` says how much each M6 takes. */
  function SatsOut(paid: U256 -> nat, e: MainEvent): nat {
    match e
    case BundleEvent(Some(bytes), Some(Succeeded)) => if |bytes| == 32 then paid(WordOf(bytes)) else 0
    case _ => 0
  }

  ghost function TakenBy(paid: U256 -> nat): MainEvent -> nat {
    (e: MainEvent) => SatsOut(paid, e)
  }

  /** What the blocks of a path bring into the treasury, less what they take out of it. */
  ghost function TreasuryAt(m: Mainchain, path: seq<U256>, paid: U256 -> nat): int
    requires forall i :: 0 <= i < |path| ==> path[i] in m.blocks
  {
    SumOnPath(m, path, SatsIn) - SumOnPath(m, path, TakenBy(paid))
  }

  lemma {:induction false} PaidOneMore(paid: U256 -> nat, outcomes: seq<Outcome>, o: Outcome)
    ensures PaidOut(paid, outcomes + [o]) == PaidOut(paid, outcomes) + if o.status == Succeeded then paid(o.m6id) else 0
  {
    assert (outcomes + [o])[..|outcomes|] == outcomes;
  }

  lemma {:induction false} PaidIsOnPath(events: seq<MainEvent>, paid: U256 -> nat)
    requires Collected(events, OutcomeOf).Ok?
    ensures PaidOut(paid, Collected(events, OutcomeOf).value) == SumEvents(events, TakenBy(paid))
  {
    if events != [] {
      hide PaidOut, WordOf;
      var n := |events| - 1;
      var before := Collected(events[..n], OutcomeOf).value;
      PaidIsOnPath(events[..n], paid);
      if OutcomeOf(events[n]).value == [] {
        assert before + [] == before;
      } else {
        PaidOneMore(paid, before, OutcomeOf(events[n]).value[0]);
        assert before + [OutcomeOf(events[n]).value[0]] == Collected(events, OutcomeOf).value;
      }
    }
  }

  lemma {:induction false} PathInChain(m: Mainchain, c: Chain, path: seq<U256>)
    requires PathOf(m, c, path)
    ensures forall i :: 0 <= i < |path| ==> path[i] in m.blocks
  {
  }

  /** What was deposited and paid out is what the mainchain's own events bring in and take out. */
  lemma {:induction false} TreasuryIs(m: Mainchain, c: Chain, path: seq<U256>, paid: U256 -> nat)
    requires Tree(m) && CaughtUp(m, c) && PathOf(m, c, path)
    ensures forall i :: 0 <= i < |path| ==> path[i] in m.blocks
    ensures DepositedSats(c.deposits) == SumOnPath(m, path, SatsIn)
    ensures PaidOut(paid, c.outcomes) == SumOnPath(m, path, TakenBy(paid))
    ensures Treasury(paid, c) == TreasuryAt(m, path, paid)
  {
    hide DepositedSats, PaidOut, SumEvents, Collected, PathEvents, Linked, Path, TakenBy;
    PathInChain(m, c, path);
    if c.number == 0 {
      NothingProcessed(paid);
    } else {
      PathOfIs(m, c, path);
      DepositedIsOnPath(PathEvents(m, path));
      PaidIsOnPath(PathEvents(m, path), paid);
      SumOnPathIs(m, path, SatsIn);
      SumOnPathIs(m, path, TakenBy(paid));
    }
  }

  lemma {:induction false} NothingProcessed(paid: U256 -> nat)
    ensures DepositedSats([]) == 0 && PaidOut(paid, []) == 0
  {
  }
}
