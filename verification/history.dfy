// The life of a request over a run: which statuses it passes through, what never changes, and
// that its refund is attempted once at most.

module History {
  import opened ByteCodec
  import opened M6
  import opened QueueStorage
  import opened PegState
  import opened Escrow
  import opened Mainchain
  import opened BlockEffect

  // ----- The lifecycle -----

  /** What one block may do to a request: nothing, or one edge of its lifecycle. */
  ghost predicate OneEdge(r: Request, r': Request) {
    || r' == r
    || (r.status == Pending && r' == r.(status := Bundled, bundleM6id := r'.bundleM6id))
    || (r.status == Bundled && r' == r.(status := Confirmed))
    || (r.status == Bundled && r' == r.(status := Refunded))
  }

  lemma {:induction false} NextIsOneEdge(h: Hashes, r: Request, i: int, bundle: Option<WithdrawalBundle>,
                                         outcomes: seq<Outcome>)
    ensures OneEdge(r, Next(h, r, i, bundle, outcomes))
  {
  }

  /** What any number of blocks may do: follow Pending, Bundled, then Confirmed or Refunded. Who
      asked for what never changes, and a bundle once assigned is never replaced. */
  ghost predicate Evolved(r: Request, r': Request) {
    && r'.requester == r.requester && r'.btcDestination == r.btcDestination
    && r'.valueSats == r.valueSats && r'.mainFeeSats == r.mainFeeSats
    && (r'.status == Pending ==> r' == r)
    && (r.status != Pending ==> r'.status != Pending && r'.bundleM6id == r.bundleM6id)
    && (r.status == Confirmed || r.status == Refunded ==> r'.status == r.status)
  }

  lemma {:induction false} EdgeEvolves(r: Request, r1: Request, r2: Request)
    requires Evolved(r, r1) && OneEdge(r1, r2)
    ensures Evolved(r, r2)
  {
  }

  ghost predicate AllEvolved(q: Queue, q': Queue) {
    q.requestCount <= q'.requestCount && forall i :: 0 <= i < q.requestCount ==> Evolved(At(q, i), At(q', i))
  }

  lemma {:induction false} ProgressEvolves(h: Hashes, q: Queue, q1: Queue, q2: Queue, bundle: Option<WithdrawalBundle>,
                                           outcomes: seq<Outcome>)
    requires AllEvolved(q, q1) && Progresses(h, q1, q2, bundle, outcomes)
    ensures AllEvolved(q, q2)
  {
    hide Evolved, OneEdge, Next;
    forall i | 0 <= i < q.requestCount ensures Evolved(At(q, i), At(q2, i)) {
      NextIsOneEdge(h, At(q1, i), i, bundle, outcomes);
      EdgeEvolves(At(q, i), At(q1, i), At(q2, i));
    }
  }

  // ----- Refunds -----

  /** The log has exactly one event for each refunded request and none for any other: its requester
      was sent all it had locked, and the transfer failed exactly if that requester rejected it. */
  ghost predicate RefundsLogged(q: Queue, log: seq<RefundEvent>, answers: seq<bool>) {
    && |answers| == |log|
    && (forall k :: 0 <= k < |log| ==>
          var e, r := log[k], At(q, log[k].index);
          && e.index < q.requestCount && r.status == Refunded && e.requester == r.requester
          && e.amountWei == (r.valueSats + r.mainFeeSats) * WEI_PER_SAT && e.transferred == answers[k])
    && (forall j, k :: 0 <= j < k < |log| ==> log[j].index != log[k].index)
    && (forall i :: 0 <= i < q.requestCount && At(q, i).status == Refunded ==> Logged(log, 0, i))
  }

  lemma {:induction false} OldEventsStay(h: Hashes, q: Queue, q': Queue, bundle: Option<WithdrawalBundle>,
                                         outcomes: seq<Outcome>, log: seq<RefundEvent>, log': seq<RefundEvent>,
                                         answers: seq<bool>, more: seq<bool>, k: nat)
    requires RefundsLogged(q, log, answers) && Progresses(h, q, q', bundle, outcomes)
    requires LogGrows(q, q', log, log', more) && k < |log'|
    ensures log'[k].index < q.requestCount
    ensures At(q', log'[k].index).status == Refunded
    ensures log'[k] == RefundOf(log'[k].index, At(q', log'[k].index), (answers + more)[k])
    ensures k < |log| <==> At(q, log'[k].index).status == Refunded
    ensures k < |log| ==> log'[k] == log[k]
  {
    if k < |log| {
      assert log'[k] == log'[..|log|][k];
    }
  }

  /** At most one refund is ever attempted for a request. */
  lemma {:induction false} RefundsStayLogged(h: Hashes, q: Queue, q': Queue, bundle: Option<WithdrawalBundle>,
                                             outcomes: seq<Outcome>, log: seq<RefundEvent>, log': seq<RefundEvent>,
                                             answers: seq<bool>, more: seq<bool>)
    requires RefundsLogged(q, log, answers) && Progresses(h, q, q', bundle, outcomes)
    requires LogGrows(q, q', log, log', more)
    ensures RefundsLogged(q', log', answers + more)
  {
    forall k | 0 <= k < |log'|
      ensures log'[k].index < q'.requestCount && At(q', log'[k].index).status == Refunded
              && log'[k] == RefundOf(log'[k].index, At(q', log'[k].index), (answers + more)[k])
    {
      OldEventsStay(h, q, q', bundle, outcomes, log, log', answers, more, k);
    }
    forall j, k | 0 <= j < k < |log'| ensures log'[j].index != log'[k].index {
      OldEventsStay(h, q, q', bundle, outcomes, log, log', answers, more, j);
      OldEventsStay(h, q, q', bundle, outcomes, log, log', answers, more, k);
    }
    forall i | 0 <= i < q'.requestCount && At(q', i).status == Refunded ensures Logged(log', 0, i) {
      if JustRefunded(q, q', i) {
        var k :| |log| <= k < |log'| && log'[k].index == i;
      } else {
        assert i < q.requestCount && At(q, i).status == Refunded;
        var k :| 0 <= k < |log| && log[k].index == i;
        OldEventsStay(h, q, q', bundle, outcomes, log, log', answers, more, k);
      }
    }
  }
}
