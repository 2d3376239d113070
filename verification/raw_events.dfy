// What the enforcer's two folds list, told from the events in the mainchain's blocks themselves:
// where each entry stands, that none is missing and none is there twice, and what they add up to.

module RawEvents {
  import opened ByteCodec
  import opened QueueStorage
  import opened PegState
  import opened Escrow
  import opened Mainchain

  // ----- Where an event stands -----

  /** The `event`-th event of the `block`-th block of a path. */
  datatype Position = Position(block: nat, event: nat)

  predicate Earlier(a: Position, b: Position) {
    a.block < b.block || (a.block == b.block && a.event < b.event)
  }

  ghost predicate Stands(m: Mainchain, path: seq<U256>, p: Position, e: MainEvent) {
    && p.block < |path| && path[p.block] in m.blocks
    && m.blocks[path[p.block]].info.Some?
    && p.event < |m.blocks[path[p.block]].info.value|
    && m.blocks[path[p.block]].info.value[p.event] == e
  }

  /** `list` has one entry for each event of the path that is `event` of some entry, in the order
      of the events, and no other entry; `at` says where each one stands. */
  ghost predicate Lists<T(!new)>(m: Mainchain, path: seq<U256>, list: seq<T>, event: T -> MainEvent,
                                 at: seq<Position>) {
    && |at| == |list|
    && (forall j, k :: 0 <= j < k < |at| ==> Earlier(at[j], at[k]))
    && (forall k :: 0 <= k < |at| ==> Stands(m, path, at[k], event(list[k])))
    && (forall p, t :: Stands(m, path, p, event(t)) ==> p in at)
  }

  /** The event that deposits `d`. */
  function DepositOn(d: Deposit): MainEvent {
    DepositEvent(Some(DepositOutput(Some(d.valueSats), Parsed(d.address))))
  }

  /** The event that reports `o`; its m6id comes as 32 bytes, most significant first. */
  function OutcomeOn(o: Outcome): MainEvent {
    BundleEvent(Some(BigEndian(o.m6id, 32)), Some(o.status))
  }

  lemma {:induction false} ListedAt<T(!new)>(m: Mainchain, path: seq<U256>, list: seq<T>, event: T -> MainEvent,
                                             at: seq<Position>, p: Position, t: T) returns (k: nat)
    requires Lists(m, path, list, event, at) && Stands(m, path, p, event(t))
    ensures k < |at| && at[k] == p && event(list[k]) == event(t)
  {
    assert p in at;
    k :| 0 <= k < |at| && at[k] == p;
    assert Stands(m, path, at[k], event(list[k]));
  }

  // ----- The folds list just those events -----

  /** `Lists` for a flat list of events. */
  ghost predicate Picks<T(!new)>(events: seq<MainEvent>, list: seq<T>, event: T -> MainEvent, at: seq<nat>) {
    && |at| == |list|
    && (forall j, k :: 0 <= j < k < |at| ==> at[j] < at[k])
    && (forall k :: 0 <= k < |at| ==> at[k] < |events| && events[at[k]] == event(list[k]))
    && (forall i, t :: 0 <= i < |events| && events[i] == event(t) ==> i in at)
  }

  /** `f` reads an event as the one entry it stands for, or as nothing. */
  ghost predicate ReadsAs<T(!new)>(f: MainEvent -> Result<seq<T>, EnforcerError>, event: T -> MainEvent) {
    forall e :: f(e).Ok? ==> |f(e).value| <= 1 && forall t :: t in f(e).value <==> event(t) == e
  }

  /** One event more. */
  lemma {:induction false} PicksOneMore<T(!new)>(events: seq<MainEvent>, e: MainEvent, list: seq<T>, added: seq<T>,
                                                 event: T -> MainEvent, before: seq<nat>) returns (at: seq<nat>)
    requires Picks(events, list, event, before)
    requires |added| <= 1 && forall t :: t in added <==> event(t) == e
    ensures Picks(events + [e], list + added, event, at)
  {
    at := before + if added == [] then [] else [|events|];
    forall i, t | 0 <= i < |events| + 1 && (events + [e])[i] == event(t) ensures i in at {
      if i < |events| {
        assert events[i] == event(t);
      } else {
        assert t in added && at[|before|] == i;
      }
    }
    if added != [] {
      assert added[0] in added;
    }
  }

  lemma {:induction false} CollectedPicks<T(!new)>(events: seq<MainEvent>,
                                                   f: MainEvent -> Result<seq<T>, EnforcerError>, event: T -> MainEvent)
    returns (at: seq<nat>)
    requires Collected(events, f).Ok? && ReadsAs(f, event)
    ensures Picks(events, Collected(events, f).value, event, at)
  {
    if events == [] {
      at := [];
    } else {
      hide Picks;
      var n := |events| - 1;
      var before := CollectedPicks(events[..n], f, event);
      at := PicksOneMore(events[..n], events[n], Collected(events[..n], f).value, f(events[n]).value, event, before);
      assert events == events[..n] + [events[n]];
    }
  }

  lemma {:induction false} DepositsRead()
    ensures ReadsAs(DepositOf, DepositOn)
  {
  }

  lemma {:induction false} OutcomesRead()
    ensures ReadsAs(OutcomeOf, OutcomeOn)
  {
    forall e: MainEvent, o | OutcomeOf(e).Ok? ensures o in OutcomeOf(e).value <==> OutcomeOn(o) == e {
      Pow256Values();
      BigEndianRoundTrip(o.m6id, 32);
      if e.BundleEvent? {
        FromBigEndianRoundTrip(e.m6id.value);
      }
    }
  }

  /** `events` are all the events of the path, and `at` says where each one stands. */
  ghost predicate AllStand(m: Mainchain, path: seq<U256>, events: seq<MainEvent>, at: seq<Position>) {
    && |at| == |events|
    && (forall j, k :: 0 <= j < k < |at| ==> Earlier(at[j], at[k]))
    && (forall k :: 0 <= k < |at| ==> Stands(m, path, at[k], events[k]))
    && (forall p, e :: Stands(m, path, p, e) ==> p in at)
  }

  /** Every event of a path stands somewhere on it, and the flat list has them in that order. */
  lemma {:induction false} PathEventsStand(m: Mainchain, path: seq<U256>) returns (at: seq<Position>)
    requires forall i :: 0 <= i < |path| ==> path[i] in m.blocks
    ensures AllStand(m, path, PathEvents(m, path), at)
  {
    if path == [] {
      at := [];
    } else {
      var n := |path| - 1;
      var before := PathEventsStand(m, path[..n]);
      var last := EventsOf(m.blocks[path[n]]);
      at := before + seq(|last|, j requires 0 <= j < |last| => Position(n, j));
      var events := PathEvents(m, path);
      forall k | 0 <= k < |at| ensures Stands(m, path, at[k], events[k]) {
        if k < |before| {
          assert Stands(m, path[..n], before[k], PathEvents(m, path[..n])[k]);
        }
      }
      forall p, e | Stands(m, path, p, e) ensures p in at {
        if p.block < n {
          assert Stands(m, path[..n], p, e);
        } else {
          assert at[|before| + p.event] == p;
        }
      }
      forall j, k | 0 <= j < k < |at| ensures Earlier(at[j], at[k]) {
        if j < |before| <= k {
          assert Stands(m, path[..n], before[j], PathEvents(m, path[..n])[j]);
        }
      }
    }
  }

  lemma {:induction false} PicksOnPath<T(!new)>(m: Mainchain, path: seq<U256>, events: seq<MainEvent>,
                                                where: seq<Position>, list: seq<T>, event: T -> MainEvent,
                                                picked: seq<nat>) returns (at: seq<Position>)
    requires AllStand(m, path, events, where) && Picks(events, list, event, picked)
    ensures Lists(m, path, list, event, at)
  {
    at := seq(|picked|, k requires 0 <= k < |picked| => where[picked[k]]);
    forall p, t | Stands(m, path, p, event(t)) ensures p in at {
      var i :| 0 <= i < |where| && where[i] == p;
      assert Stands(m, path, where[i], events[i]);
      assert i in picked;
      var k :| 0 <= k < |picked| && picked[k] == i;
      assert at[k] == p;
    }
    forall k | 0 <= k < |at| ensures Stands(m, path, at[k], event(list[k])) {
      assert Stands(m, path, where[picked[k]], events[picked[k]]);
    }
  }

  /** A fold of deposits that succeeds lists, in order, each deposit the path's blocks hold, once, and
      nothing else. */
  lemma {:induction false} DepositsListed(m: Mainchain, path: seq<U256>) returns (at: seq<Position>)
    requires forall i :: 0 <= i < |path| ==> path[i] in m.blocks
    requires Collected(PathEvents(m, path), DepositOf).Ok?
    ensures Lists(m, path, Collected(PathEvents(m, path), DepositOf).value, DepositOn, at)
  {
    hide Collected, Picks, Lists, AllStand, PathEvents;
    DepositsRead();
    var where := PathEventsStand(m, path);
    var picked := CollectedPicks(PathEvents(m, path), DepositOf, DepositOn);
    at := PicksOnPath(m, path, PathEvents(m, path), where, Collected(PathEvents(m, path), DepositOf).value, DepositOn,
                      picked);
  }

  /** A fold of outcomes that succeeds lists, in order, each status report the path's blocks hold for a
      bundle, once, and nothing else. */
  lemma {:induction false} OutcomesListed(m: Mainchain, path: seq<U256>) returns (at: seq<Position>)
    requires forall i :: 0 <= i < |path| ==> path[i] in m.blocks
    requires Collected(PathEvents(m, path), OutcomeOf).Ok?
    ensures Lists(m, path, Collected(PathEvents(m, path), OutcomeOf).value, OutcomeOn, at)
  {
    hide Collected, Picks, Lists, AllStand, PathEvents;
    OutcomesRead();
    var where := PathEventsStand(m, path);
    var picked := CollectedPicks(PathEvents(m, path), OutcomeOf, OutcomeOn);
    at := PicksOnPath(m, path, PathEvents(m, path), where, Collected(PathEvents(m, path), OutcomeOf).value, OutcomeOn,
                      picked);
  }

  lemma {:induction false} StandsJoin(m: Mainchain, a: seq<U256>, b: seq<U256>, p: Position, e: MainEvent)
    ensures p.block < |a| ==> (Stands(m, a + b, p, e) <==> Stands(m, a, p, e))
    ensures p.block >= |a| ==>
      (Stands(m, a + b, p, e) <==> Stands(m, b, Position(p.block - |a|, p.event), e))
  {
  }

  /** Paths that follow one another list one after the other. */
  lemma {:induction false} ListsJoin<T(!new)>(m: Mainchain, a: seq<U256>, b: seq<U256>, first: seq<T>, second: seq<T>,
                                              event: T -> MainEvent, atA: seq<Position>, atB: seq<Position>)
    returns (at: seq<Position>)
    requires Lists(m, a, first, event, atA) && Lists(m, b, second, event, atB)
    ensures Lists(m, a + b, first + second, event, at)
    ensures forall k :: 0 <= k < |at| ==> (k < |first| <==> at[k].block < |a|)
  {
    hide Stands;
    at := atA + seq(|atB|, k requires 0 <= k < |atB| => Position(|a| + atB[k].block, atB[k].event));
    forall k | 0 <= k < |at|
      ensures Stands(m, a + b, at[k], event((first + second)[k])) && (k < |first| <==> at[k].block < |a|)
    {
      StandsJoin(m, a, b, at[k], event((first + second)[k]));
      if k < |first| {
        StandsOnPath(m, a, atA[k], event(first[k]));
      } else {
        assert Position(at[k].block - |a|, at[k].event) == atB[k - |first|];
      }
    }
    forall p, t | Stands(m, a + b, p, event(t)) ensures p in at {
      StandsJoin(m, a, b, p, event(t));
      if p.block < |a| {
        var k := ListedAt(m, a, first, event, atA, p, t);
      } else {
        var there := Position(p.block - |a|, p.event);
        var k := ListedAt(m, b, second, event, atB, there, t);
        assert at[|atA| + k] == p;
      }
    }
  }

  lemma {:induction false} StandsOnPath(m: Mainchain, path: seq<U256>, p: Position, e: MainEvent)
    requires Stands(m, path, p, e)
    ensures p.block < |path|
  {
  }

  // ----- Errors -----

  lemma {:induction false} FirstErrorIsFinal<T>(events: seq<MainEvent>, f: MainEvent -> Result<seq<T>, EnforcerError>,
                                                n: nat)
    requires n < |events| && Collected(events[..n], f).Ok? && f(events[n]).Err?
    ensures Collected(events, f) == Err(f(events[n]).error)
  {
    assert events[..n + 1][..n] == events[..n] && events == events[..n + 1] + events[n + 1..];
    CollectedConcat(events[..n + 1], events[n + 1..], f);
  }

  /** A deposit with everything there, but an address that is no Ethereum address. */
  ghost predicate BadAddress(e: MainEvent) {
    exists sats: u64 :: e == DepositEvent(Some(DepositOutput(Some(sats), Malformed)))
  }

  /** The first event that cannot be read decides the error. */
  lemma {:induction false} FirstUnreadableDecides(events: seq<MainEvent>, n: nat)
    requires n < |events| && AllWellFormed(events[..n]) && !WellFormed(events[n])
    ensures events[n].DepositEvent? ==>
      Collected(events, DepositOf) == Err(if BadAddress(events[n]) then InvalidDepositAddress else MissingField)
    ensures events[n].BundleEvent? ==>
      Collected(events, OutcomeOf) == Err(if events[n].m6id == None then MissingField else InvalidHex)
  {
    hide Collected, AllWellFormed;
    WellFormedExactly(events[..n]);
    if events[n].DepositEvent? {
      FirstErrorIsFinal(events, DepositOf, n);
      if events[n].output.Some? && events[n].output.value.valueSats.Some? && events[n].output.value.address.Malformed? {
        assert events[n] == DepositEvent(Some(DepositOutput(Some(events[n].output.value.valueSats.value), Malformed)));
      }
    } else if events[n].BundleEvent? {
      FirstErrorIsFinal(events, OutcomeOf, n);
    }
  }

  // ----- What the events add up to -----

  ghost function SumEvents(events: seq<MainEvent>, amount: MainEvent -> nat): nat {
    if events == [] then 0 else SumEvents(events[..|events| - 1], amount) + amount(events[|events| - 1])
  }

  /** The total of `amount` over all events in the blocks of a path. */
  ghost function SumOnPath(m: Mainchain, path: seq<U256>, amount: MainEvent -> nat): nat
    requires forall i :: 0 <= i < |path| ==> path[i] in m.blocks
  {
    if path == [] then 0 else
      SumOnPath(m, path[..|path| - 1], amount)
      + match m.blocks[path[|path| - 1]].info case Some(events) => SumEvents(events, amount) case None => 0
  }

  /** The sats an event brings into the treasury. */
  function SatsIn(e: MainEvent): nat {
    match e
    case DepositEvent(Some(DepositOutput(Some(sats), Parsed(_)))) => sats
    case _ => 0
  }

  lemma {:induction false} SumEventsConcat(a: seq<MainEvent>, b: seq<MainEvent>, amount: MainEvent -> nat)
    ensures SumEvents(a + b, amount) == SumEvents(a, amount) + SumEvents(b, amount)
  {
    if b == [] {
      assert a + b == a;
    } else {
      SumEventsConcat(a, b[..|b| - 1], amount);
      assert (a + b)[..|a + b| - 1] == a + b[..|b| - 1];
    }
  }

  lemma {:induction false} SumOnPathIs(m: Mainchain, path: seq<U256>, amount: MainEvent -> nat)
    requires forall i :: 0 <= i < |path| ==> path[i] in m.blocks
    ensures SumOnPath(m, path, amount) == SumEvents(PathEvents(m, path), amount)
  {
    if path != [] {
      var n := |path| - 1;
      SumOnPathIs(m, path[..n], amount);
      SumEventsConcat(PathEvents(m, path[..n]), EventsOf(m.blocks[path[n]]), amount);
    }
  }

  lemma {:induction false} DepositedOneMore(deposits: seq<Deposit>, d: Deposit)
    ensures DepositedSats(deposits + [d]) == DepositedSats(deposits) + d.valueSats
  {
    assert (deposits + [d])[..|deposits|] == deposits;
  }

  /** What is deposited is what the mainchain's own events bring in. */
  lemma {:induction false} DepositedIsOnPath(events: seq<MainEvent>)
    requires Collected(events, DepositOf).Ok?
    ensures DepositedSats(Collected(events, DepositOf).value) == SumEvents(events, SatsIn)
  {
    if events != [] {
      hide DepositedSats;
      var n := |events| - 1;
      var before := Collected(events[..n], DepositOf).value;
      DepositedIsOnPath(events[..n]);
      if SatsIn(events[n]) != 0 || DepositOf(events[n]).value != [] {
        var d := DepositOf(events[n]).value[0];
        DepositedOneMore(before, d);
        assert before + [d] == Collected(events, DepositOf).value;
      } else {
        assert before + [] == before;
      }
    }
  }
}
