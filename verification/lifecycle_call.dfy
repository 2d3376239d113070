// Exactly when a lifecycle call is accepted, and what an accepted call does to every request,
// whatever the refunded requesters do with the control they are handed.

module LifecycleCall {
  import opened ByteCodec
  import opened M6
  import opened QueueStorage
  import opened PegState
  import opened Escrow

  ghost predicate NoDuplicates(s: seq<U256>) {
    forall j, k :: 0 <= j < k < |s| ==> s[j] != s[k]
  }

  ghost predicate AllBelow(s: seq<U256>, n: nat) {
    forall k :: 0 <= k < |s| ==> s[k] < n
  }

  ghost predicate AllHave(q: Queue, s: seq<U256>, status: Status) {
    forall k :: 0 <= k < |s| ==> At(q, s[k]).status == status
  }

  lemma {:induction false} PrefixExtends(s: seq<U256>, n: nat)
    requires n < |s|
    ensures s[..n + 1] == s[..n] + [s[n]]
    ensures NoDuplicates(s[..n + 1]) <==> NoDuplicates(s[..n]) && s[n] !in s[..n]
  {
    assert s[..n + 1] == s[..n] + [s[n]];
    if NoDuplicates(s[..n]) && s[n] !in s[..n] {
      var t := s[..n + 1];
      forall j, k | 0 <= j < k < |t| ensures t[j] != t[k] {
        if k == n {
          assert s[..n][j] in s[..n];
        } else {
          assert s[..n][j] != s[..n][k];
        }
      }
    }
    if NoDuplicates(s[..n + 1]) {
      forall j, k | 0 <= j < k < n ensures s[..n][j] != s[..n][k] {
        assert s[..n + 1][j] != s[..n + 1][k];
      }
      forall j | 0 <= j < n ensures s[..n][j] != s[n] {
        assert s[..n + 1][j] != s[..n + 1][n];
      }
    }
  }

  // ----- The three loops -----

  function AssignedTo(r: Request, m6id: U256): Request {
    r.(status := Bundled, bundleM6id := m6id)
  }

  /** The bundling loop passes exactly on distinct pending requests, and assigns just those. */
  lemma {:induction false} BundleExactly(h: Hashes, q: Queue, s: seq<U256>, n: nat, m6id: U256)
    requires n <= |s|
    ensures BundleUpTo(h, q, s, n, m6id).Some? <==> NoDuplicates(s[..n]) && AllHave(q, s[..n], Pending)
    ensures BundleUpTo(h, q, s, n, m6id).Some? ==>
      var q' := BundleUpTo(h, q, s, n, m6id).value;
      && q'.requestCount == q.requestCount && q'.balance == q.balance
      && (forall i :: At(q', i) == if i in s[..n] then AssignedTo(At(q, i), m6id) else At(q, i))
  {
    hide ApplyWrites;
    if n > 0 {
      BundleExactly(h, q, s, n - 1, m6id);
      PrefixExtends(s, n - 1);
      var t := s[..n];
      assert AllHave(q, t, Pending) <==> AllHave(q, s[..n - 1], Pending) && At(q, s[n - 1]).status == Pending by {
        assert t[n - 1] == s[n - 1];
        assert forall k :: 0 <= k < n - 1 ==> t[k] == s[..n - 1][k];
      }
    }
  }

  lemma {:induction false} ConfirmExactly(h: Hashes, q: Queue, s: seq<U256>, n: nat)
    requires n <= |s|
    ensures ConfirmUpTo(h, q, s, n).Some? <==> NoDuplicates(s[..n]) && AllHave(q, s[..n], Bundled)
    ensures ConfirmUpTo(h, q, s, n).Some? ==>
      var q' := ConfirmUpTo(h, q, s, n).value;
      && q'.requestCount == q.requestCount && q'.balance == q.balance
      && (forall i :: At(q', i) == if i in s[..n] then At(q, i).(status := Confirmed) else At(q, i))
  {
    hide ApplyWrites;
    if n > 0 {
      ConfirmExactly(h, q, s, n - 1);
      PrefixExtends(s, n - 1);
      var t := s[..n];
      assert AllHave(q, t, Bundled) <==> AllHave(q, s[..n - 1], Bundled) && At(q, s[n - 1]).status == Bundled by {
        assert t[n - 1] == s[n - 1];
        assert forall k :: 0 <= k < n - 1 ==> t[k] == s[..n - 1][k];
      }
    }
  }

  /** `q'` is `q` with the requests in `s` refunded, and possibly new pending ones at the end. */
  ghost predicate RefundedThenAppended(q: Queue, q': Queue, s: seq<U256>) {
    && q.requestCount <= q'.requestCount
    && (forall i :: 0 <= i < q.requestCount
               ==> At(q', i) == if i in s then At(q, i).(status := Refunded) else At(q, i))
    && (forall i :: q.requestCount <= i < q'.requestCount ==> At(q', i).status == Pending)
  }

  /** Entries exist only below the counter, and only they can have left Pending. */
  lemma {:induction false} LeftPendingIsBelow(q: Queue, i: U256)
    requires Shape(q) && At(q, i).status != Pending
    ensures i < q.requestCount
  {
  }

  lemma {:induction false} AllHaveIsBelow(q: Queue, s: seq<U256>, status: Status)
    requires Shape(q) && AllHave(q, s, status) && status != Pending
    ensures AllBelow(s, q.requestCount)
  {
  }

  lemma {:induction false} RefundStep(h: Hashes, q: Queue, w: World, s: seq<U256>, n: nat, r: Reaction)
    requires n < |s| && Shape(w.queue) && s[n] < q.requestCount
    requires RefundedThenAppended(q, w.queue, s[..n])
    ensures RefundOne(h, w, s[n], r).Some? <==> s[n] !in s[..n] && At(q, s[n]).status == Bundled
    ensures RefundOne(h, w, s[n], r).Some? ==>
      var w' := RefundOne(h, w, s[n], r).value;
      Shape(w'.queue) && RefundedThenAppended(q, w'.queue, s[..n + 1])
  {
    var i := s[n];
    assert At(w.queue, i) == if i in s[..n] then At(q, i).(status := Refunded) else At(q, i);
    if i !in s[..n] && At(q, i).status == Bundled {
      RefundAccepted(h, w, i, r);
      RefundAppends(h, w, i, r);
      assert s[..n + 1] == s[..n] + [i];
      var marked, q' := SetStatus(h, w.queue, i, Refunded), RefundOne(h, w, i, r).value.queue;
      forall x | 0 <= x < q.requestCount
        ensures At(q', x) == if x in s[..n + 1] then At(q, x).(status := Refunded) else At(q, x)
      {
        assert At(q', x) == At(marked, x);
      }
      forall x | q.requestCount <= x < q'.requestCount ensures At(q', x).status == Pending {
        if x < w.queue.requestCount {
          assert At(q', x) == At(marked, x) == At(w.queue, x);
        }
      }
    }
  }

  /** An index at or beyond the counter stops the loop, whether or not a recipient has meanwhile
      put a new request there. */
  lemma {:induction false} BeyondCounterStops(h: Hashes, q: Queue, w: World, s: seq<U256>, i: U256, r: Reaction)
    requires Shape(q) && Shape(w.queue) && RefundedThenAppended(q, w.queue, s) && i >= q.requestCount
    ensures RefundOne(h, w, i, r).None? && At(q, i).status == Pending
  {
    assert i < w.queue.requestCount ==> At(w.queue, i).status == Pending;
  }

  /** The refunding loop passes exactly on distinct bundled requests, re-entrancy or not: a
      recipient can append to the queue, never touch what is being resolved. */
  lemma {:induction false} RefundExactly(h: Hashes, w: World, s: seq<U256>, n: nat, env: nat -> Reaction)
    requires n <= |s| && Shape(w.queue)
    ensures RefundUpTo(h, w, s, n, env).Some? <==> NoDuplicates(s[..n]) && AllHave(w.queue, s[..n], Bundled)
    ensures RefundUpTo(h, w, s, n, env).Some? ==>
      var w' := RefundUpTo(h, w, s, n, env).value;
      Shape(w'.queue) && RefundedThenAppended(w.queue, w'.queue, s[..n])
  {
    hide RefundOne, Shape;
    if n > 0 {
      RefundExactly(h, w, s, n - 1, env);
      PrefixExtends(s, n - 1);
      var t := s[..n];
      assert AllHave(w.queue, t, Bundled)
        <==> AllHave(w.queue, s[..n - 1], Bundled) && At(w.queue, s[n - 1]).status == Bundled by {
        assert t[n - 1] == s[n - 1];
        assert forall k :: 0 <= k < n - 1 ==> t[k] == s[..n - 1][k];
      }
      if RefundUpTo(h, w, s, n - 1, env).Some? {
        var before := RefundUpTo(h, w, s, n - 1, env).value;
        if s[n - 1] < w.queue.requestCount {
          RefundStep(h, w.queue, before, s, n - 1, env(n - 1));
        } else {
          BeyondCounterStops(h, w.queue, before, s[..n - 1], s[n - 1], env(n - 1));
        }
      }
    }
  }

  // ----- The whole call -----

  /** When the three lists pass every check of the contract. */
  ghost predicate Acceptable(q: Queue, bundled: seq<U256>, succeeded: seq<U256>, failed: seq<U256>) {
    && NoDuplicates(bundled) && NoDuplicates(succeeded) && NoDuplicates(failed)
    && AllHave(q, bundled, Pending)
    && (forall k :: 0 <= k < |succeeded| ==> succeeded[k] in bundled || At(q, succeeded[k]).status == Bundled)
    && (forall k :: 0 <= k < |failed| ==> failed[k] in bundled || At(q, failed[k]).status == Bundled)
    && (forall k :: 0 <= k < |failed| ==> failed[k] !in succeeded)
  }

  /** What an accepted call makes of request `i`. */
  ghost function Advanced(r: Request, i: U256, bundled: seq<U256>, m6id: U256,
                          succeeded: seq<U256>, failed: seq<U256>): Request {
    var r1 := if i in bundled then AssignedTo(r, m6id) else r;
    if i in failed then r1.(status := Refunded) else if i in succeeded then r1.(status := Confirmed) else r1
  }

  lemma {:induction false} ShapeAfterAssign(q: Queue, q': Queue)
    requires Shape(q) && q'.requestCount == q.requestCount
    requires forall i :: i in q'.requests <==> i in q.requests
    requires forall i :: 0 <= i < q.requestCount ==>
      At(q', i) == At(q, i) || (At(q', i).status != Pending && GoodRequest(At(q, i).(status := Bundled))
        && At(q', i).valueSats == At(q, i).valueSats && At(q', i).mainFeeSats == At(q, i).mainFeeSats)
    ensures Shape(q')
  {
    forall i | i in q'.requests ensures GoodRequest(q'.requests[i]) {
      assert q'.requests[i] == At(q', i) && q.requests[i] == At(q, i);
      assert GoodRequest(q.requests[i]);
    }
  }

  lemma {:induction false} BundleKeepsKeys(h: Hashes, q: Queue, s: seq<U256>, n: nat, m6id: U256)
    requires n <= |s| && Shape(q) && AllBelow(s, q.requestCount) && BundleUpTo(h, q, s, n, m6id).Some?
    ensures forall i :: i in BundleUpTo(h, q, s, n, m6id).value.requests <==> i in q.requests
  {
    if n > 0 {
      BundleKeepsKeys(h, q, s, n - 1, m6id);
    }
  }

  lemma {:induction false} ConfirmKeepsKeys(h: Hashes, q: Queue, s: seq<U256>, n: nat)
    requires n <= |s| && AllBelow(s, q.requestCount) && ConfirmUpTo(h, q, s, n).Some?
    requires forall i :: i in q.requests <==> 0 <= i < q.requestCount
    ensures forall i :: i in ConfirmUpTo(h, q, s, n).value.requests <==> i in q.requests
  {
    if n > 0 {
      ConfirmKeepsKeys(h, q, s, n - 1);
    }
  }

  lemma {:induction false} BundleKeepsShape(h: Hashes, q: Queue, s: seq<U256>, m6id: U256)
    requires Shape(q) && AllBelow(s, q.requestCount) && BundleUpTo(h, q, s, |s|, m6id).Some?
    ensures Shape(BundleUpTo(h, q, s, |s|, m6id).value)
  {
    BundleExactly(h, q, s, |s|, m6id);
    BundleKeepsKeys(h, q, s, |s|, m6id);
    forall i | 0 <= i < q.requestCount ensures GoodRequest(At(q, i)) {
      assert i in q.requests;
    }
    ShapeAfterAssign(q, BundleUpTo(h, q, s, |s|, m6id).value);
  }

  lemma {:induction false} ConfirmKeepsShape(h: Hashes, q: Queue, s: seq<U256>)
    requires Shape(q) && AllBelow(s, q.requestCount) && ConfirmUpTo(h, q, s, |s|).Some?
    ensures Shape(ConfirmUpTo(h, q, s, |s|).value)
  {
    ConfirmExactly(h, q, s, |s|);
    ConfirmKeepsKeys(h, q, s, |s|);
    forall i | 0 <= i < q.requestCount ensures GoodRequest(At(q, i)) {
      assert i in q.requests;
    }
    ShapeAfterAssign(q, ConfirmUpTo(h, q, s, |s|).value);
  }

  /** The queue the refunding loop starts from. */
  ghost function Resolvable(h: Hashes, q: Queue, bundled: seq<U256>, m6id: U256, succeeded: seq<U256>): Option<Queue> {
    var q1 :- BundleUpTo(h, q, bundled, |bundled|, m6id);
    ConfirmUpTo(h, q1, succeeded, |succeeded|)
  }

  lemma {:induction false} ResolvableExactly(h: Hashes, q: Queue, bundled: seq<U256>, m6id: U256, succeeded: seq<U256>)
    requires Shape(q) && AllBelow(bundled, q.requestCount)
    ensures Resolvable(h, q, bundled, m6id, succeeded).Some? <==> Acceptable(q, bundled, succeeded, [])
    ensures Resolvable(h, q, bundled, m6id, succeeded).Some? ==>
      var q' := Resolvable(h, q, bundled, m6id, succeeded).value;
      && Shape(q') && q'.requestCount == q.requestCount && q'.balance == q.balance
      && (forall i :: At(q', i) == Advanced(At(q, i), i, bundled, m6id, succeeded, []))
  {
    BundleExactly(h, q, bundled, |bundled|, m6id);
    assert bundled[..|bundled|] == bundled && succeeded[..|succeeded|] == succeeded;
    if BundleUpTo(h, q, bundled, |bundled|, m6id).Some? {
      var q1 := BundleUpTo(h, q, bundled, |bundled|, m6id).value;
      BundleKeepsShape(h, q, bundled, m6id);
      ConfirmExactly(h, q1, succeeded, |succeeded|);
      if Resolvable(h, q, bundled, m6id, succeeded).Some? {
        AllHaveIsBelow(q1, succeeded, Bundled);
        ConfirmKeepsShape(h, q1, succeeded);
      }
    }
  }

  /** A lifecycle call that bundles existing requests succeeds exactly when its caller is the system
      and its lists are acceptable; an accepted call moves exactly the listed requests, and
      whatever its recipients do can only append pending requests. */
  lemma {:induction false} LifecycleExactly(h: Hashes, w: World, sender: Address, bundled: seq<U256>, m6id: U256,
                                            succeeded: seq<U256>, failed: seq<U256>, env: nat -> Reaction)
    requires Shape(w.queue) && AllBelow(bundled, w.queue.requestCount)
    ensures Lifecycle(h, w, sender, bundled, m6id, succeeded, failed, env).Some?
       <==> sender == SYSTEM_ADDRESS && Acceptable(w.queue, bundled, succeeded, failed)
    ensures Lifecycle(h, w, sender, bundled, m6id, succeeded, failed, env).Some? ==>
      var q, q' := w.queue, Lifecycle(h, w, sender, bundled, m6id, succeeded, failed, env).value.queue;
      && Shape(q') && q.requestCount <= q'.requestCount
      && (forall i :: 0 <= i < q.requestCount ==> At(q', i) == Advanced(At(q, i), i, bundled, m6id, succeeded, failed))
      && (forall i :: q.requestCount <= i < q'.requestCount ==> At(q', i).status == Pending)
  {
    ResolvableExactly(h, w.queue, bundled, m6id, succeeded);
    if sender == SYSTEM_ADDRESS && Resolvable(h, w.queue, bundled, m6id, succeeded).Some? {
      var q2 := Resolvable(h, w.queue, bundled, m6id, succeeded).value;
      RefundExactly(h, w.(queue := q2), failed, |failed|, env);
      assert failed[..|failed|] == failed;
      forall k | 0 <= k < |failed|
        ensures At(q2, failed[k]).status == Bundled
           <==> failed[k] !in succeeded && (failed[k] in bundled || At(w.queue, failed[k]).status == Bundled)
      {
        assert At(q2, failed[k]) == Advanced(At(w.queue, failed[k]), failed[k], bundled, m6id, succeeded, []);
      }
    }
  }

  /** The contract does not compare an index to be bundled with the counter: one beyond it, an
      all-zero entry, passes for a pending request, and is bundled. */
  lemma {:induction false} BundlesBeyondCounter(h: Hashes, w: World, i: U256, m6id: U256, env: nat -> Reaction)
    requires Shape(w.queue) && i >= w.queue.requestCount
    ensures
      var called := Lifecycle(h, w, SYSTEM_ADDRESS, [i], m6id, [], [], env);
      called.Some? && At(called.value.queue, i) == AssignedTo(ZERO_REQUEST, m6id)
  {
    BundleExactly(h, w.queue, [i], 1, m6id);
    assert [i][..1] == [i];
    assert At(w.queue, i) == ZERO_REQUEST;
  }

  // ----- Books, storage and event log of an accepted call -----

  /** The events of the refunding loop: one per index, saying whether the requester took it. */
  ghost function RefundEvents(q: Queue, s: seq<U256>, n: nat, env: nat -> Reaction): seq<RefundEvent>
    requires n <= |s|
  {
    if n == 0 then []
    else RefundEvents(q, s, n - 1, env) + [RefundOf(s[n - 1], At(q, s[n - 1]), env(n - 1).accepts)]
  }

  /** The state in which the loop reaches its last refund. */
  lemma {:induction false} LastRefund(h: Hashes, w: World, s: seq<U256>, n: nat, env: nat -> Reaction)
    requires 0 < n <= |s| && Shape(w.queue)
    requires RefundUpTo(h, w, s, n, env).Some?
    ensures
      var before := RefundUpTo(h, w, s, n - 1, env);
      && before.Some? && Shape(before.value.queue) && s[n - 1] < before.value.queue.requestCount
      && At(before.value.queue, s[n - 1]) == At(w.queue, s[n - 1]) && At(w.queue, s[n - 1]).status == Bundled
      && RefundOne(h, before.value, s[n - 1], env(n - 1)) == RefundUpTo(h, w, s, n, env)
  {
    hide RefundOne;
    RefundExactly(h, w, s, n - 1, env);
    RefundExactly(h, w, s, n, env);
    PrefixExtends(s, n - 1);
    var q := RefundUpTo(h, w, s, n - 1, env).value.queue;
    assert s[..n][n - 1] == s[n - 1];
    LeftPendingIsBelow(w.queue, s[n - 1]);
    assert At(q, s[n - 1]) == At(w.queue, s[n - 1]);
  }

  lemma {:induction false} RefundsKeepBooks(h: Hashes, w: World, s: seq<U256>, n: nat, env: nat -> Reaction)
    requires n <= |s| && Shape(w.queue) && Books(w)
    requires RefundUpTo(h, w, s, n, env).Some?
    ensures Books(RefundUpTo(h, w, s, n, env).value)
    ensures RefundUpTo(h, w, s, n, env).value.credits == w.credits
    ensures RefundUpTo(h, w, s, n, env).value.minted == w.minted
  {
    hide RefundOne;
    if n > 0 {
      LastRefund(h, w, s, n, env);
      RefundsKeepBooks(h, w, s, n - 1, env);
      RefundKeepsBooks(h, RefundUpTo(h, w, s, n - 1, env).value, s[n - 1], env(n - 1));
    }
  }

  /** The escrow is solvent at every moment of every refund of an accepted call: when a requester
      gets control its refund is funded, and after each of its actions the books still balance. */
  lemma {:induction false} SolventThroughoutRefunds(h: Hashes, w: World, s: seq<U256>, n: nat, env: nat -> Reaction,
                                                    k: nat)
    requires 0 < n <= |s| && Shape(w.queue) && Books(w)
    requires RefundUpTo(h, w, s, n, env).Some? && k <= |env(n - 1).actions|
    ensures RefundUpTo(h, w, s, n - 1, env).Some?
    ensures
      var marked := Marked(h, RefundUpTo(h, w, s, n - 1, env).value, s[n - 1]);
      var amount := AmountWei(At(w.queue, s[n - 1]));
      && amount <= Funds(marked, FromQueue)
      && Books(DoAll(h, Handed(marked, FromQueue, amount), env(n - 1).actions[..k]))
  {
    hide Books, Marked, DoAll, Shape, RefundOne, AmountWei;
    LastRefund(h, w, s, n, env);
    RefundsKeepBooks(h, w, s, n - 1, env);
    SolventInsideRefund(h, RefundUpTo(h, w, s, n - 1, env).value, s[n - 1], env(n - 1), k);
  }

  lemma {:induction false} RefundLogged(h: Hashes, w: World, s: seq<U256>, n: nat, env: nat -> Reaction)
    requires 0 < n <= |s| && Shape(w.queue) && Books(w)
    requires RefundUpTo(h, w, s, n, env).Some?
    ensures RefundUpTo(h, w, s, n - 1, env).Some?
    ensures RefundUpTo(h, w, s, n, env).value.refunds
         == RefundUpTo(h, w, s, n - 1, env).value.refunds
            + [RefundOf(s[n - 1], At(w.queue, s[n - 1]), env(n - 1).accepts)]
  {
    hide RefundOne;
    LastRefund(h, w, s, n, env);
    RefundsKeepBooks(h, w, s, n - 1, env);
    RefundKeepsBooks(h, RefundUpTo(h, w, s, n - 1, env).value, s[n - 1], env(n - 1));
  }

  lemma {:induction false} RefundsAppendEvents(h: Hashes, w: World, s: seq<U256>, n: nat, env: nat -> Reaction)
    requires n <= |s| && Shape(w.queue) && Books(w)
    requires RefundUpTo(h, w, s, n, env).Some?
    ensures RefundUpTo(h, w, s, n, env).value.refunds == w.refunds + RefundEvents(w.queue, s, n, env)
  {
    hide RefundOne, AmountWei, RefundOf;
    if n > 0 {
      RefundLogged(h, w, s, n, env);
      RefundsAppendEvents(h, w, s, n - 1, env);
      AppendEvent(w.refunds, RefundEvents(w.queue, s, n - 1, env),
                  RefundOf(s[n - 1], At(w.queue, s[n - 1]), env(n - 1).accepts));
    }
  }

  /** `after` continues `before` with one event for each index in `s`: its requester was sent all
      that the request locked, and the transfer failed exactly if the requester rejected it. */
  ghost predicate LogsRefunds(before: seq<RefundEvent>, after: seq<RefundEvent>, q: Queue, s: seq<U256>,
                              answers: seq<bool>) {
    && |after| == |before| + |s| && |answers| == |s|
    && after[..|before|] == before
    && (forall k :: 0 <= k < |s| ==> after[|before| + k] == RefundOf(s[k], At(q, s[k]), answers[k]))
  }

  lemma {:induction false} RefundEventsLog(log: seq<RefundEvent>, q: Queue, s: seq<U256>, n: nat, env: nat -> Reaction)
    requires n <= |s|
    ensures LogsRefunds(log, log + RefundEvents(q, s, n, env), q, s[..n], Answers(env, n))
  {
    if n > 0 {
      RefundEventsLog(log, q, s, n - 1, env);
      assert s[..n] == s[..n - 1] + [s[n - 1]];
      assert log + RefundEvents(q, s, n, env)
          == log + RefundEvents(q, s, n - 1, env) + [RefundOf(s[n - 1], At(q, s[n - 1]), env(n - 1).accepts)];
    }
  }

  lemma {:induction false} AppendEvent(a: seq<RefundEvent>, b: seq<RefundEvent>, e: RefundEvent)
    ensures a + b + [e] == a + (b + [e])
  {
  }

  lemma {:induction false} RefundsKeepStored(h: Hashes, w: World, s: seq<U256>, n: nat, env: nat -> Reaction)
    requires n <= |s| && Shape(w.queue) && Stored(h, w.queue)
    requires RefundUpTo(h, w, s, n, env).Some?
    ensures Stored(h, RefundUpTo(h, w, s, n, env).value.queue)
  {
    hide RefundOne, Stored;
    if n > 0 {
      LastRefund(h, w, s, n, env);
      RefundsKeepStored(h, w, s, n - 1, env);
      RefundKeepsStored(h, RefundUpTo(h, w, s, n - 1, env).value, s[n - 1], env(n - 1));
    }
  }

  lemma {:induction false} BundleKeepsStored(h: Hashes, q: Queue, s: seq<U256>, n: nat, m6id: U256)
    requires n <= |s| && AllBelow(s, q.requestCount) && Stored(h, q) && BundleUpTo(h, q, s, n, m6id).Some?
    ensures Stored(h, BundleUpTo(h, q, s, n, m6id).value)
    ensures BundleUpTo(h, q, s, n, m6id).value.requestCount == q.requestCount
  {
    hide Stored;
    if n > 0 {
      BundleKeepsStored(h, q, s, n - 1, m6id);
      var q' := BundleUpTo(h, q, s, n - 1, m6id).value;
      SetStatusStored(h, q', s[n - 1], Bundled);
      SetBundleStored(h, SetStatus(h, q', s[n - 1], Bundled), s[n - 1], m6id);
    }
  }

  lemma {:induction false} ConfirmKeepsStored(h: Hashes, q: Queue, s: seq<U256>, n: nat)
    requires n <= |s| && AllBelow(s, q.requestCount) && Stored(h, q) && ConfirmUpTo(h, q, s, n).Some?
    ensures Stored(h, ConfirmUpTo(h, q, s, n).value)
    ensures ConfirmUpTo(h, q, s, n).value.requestCount == q.requestCount
  {
    hide Stored;
    if n > 0 {
      ConfirmKeepsStored(h, q, s, n - 1);
      SetStatusStored(h, ConfirmUpTo(h, q, s, n - 1).value, s[n - 1], Confirmed);
    }
  }

  /** Bundling and confirming leave the escrow where it is. */
  lemma {:induction false} ResolvableKeepsBooks(h: Hashes, w: World, bundled: seq<U256>, m6id: U256,
                                                succeeded: seq<U256>)
    requires Shape(w.queue) && Books(w) && AllBelow(bundled, w.queue.requestCount)
    requires Resolvable(h, w.queue, bundled, m6id, succeeded).Some?
    ensures Books(w.(queue := Resolvable(h, w.queue, bundled, m6id, succeeded).value))
  {
    ResolvableExactly(h, w.queue, bundled, m6id, succeeded);
    var q' := Resolvable(h, w.queue, bundled, m6id, succeeded).value;
    forall i | 0 <= i < w.queue.requestCount ensures LockedSats(At(q', i)) == LockedSats(At(w.queue, i)) {
      assert At(q', i) == Advanced(At(w.queue, i), i, bundled, m6id, succeeded, []);
      SucceededAreBundled(w.queue, i, bundled, succeeded);
    }
    SumAgrees(w.queue, q', w.queue.requestCount, LockedSats);
  }

  lemma {:induction false} SucceededAreBundled(q: Queue, i: U256, bundled: seq<U256>, succeeded: seq<U256>)
    requires Acceptable(q, bundled, succeeded, [])
    ensures i in succeeded ==> i in bundled || At(q, i).status == Bundled
    ensures i in bundled ==> At(q, i).status == Pending
  {
    if i in succeeded {
      var k :| 0 <= k < |succeeded| && succeeded[k] == i;
    }
    if i in bundled {
      var k :| 0 <= k < |bundled| && bundled[k] == i;
    }
  }

  lemma {:induction false} SameAmountsLogged(before: seq<RefundEvent>, after: seq<RefundEvent>, q: Queue, q': Queue,
                                             s: seq<U256>, answers: seq<bool>)
    requires LogsRefunds(before, after, q, s, answers)
    requires forall i :: AmountWei(At(q', i)) == AmountWei(At(q, i)) && At(q', i).requester == At(q, i).requester
    ensures LogsRefunds(before, after, q', s, answers)
  {
  }

  lemma {:induction false} ConfirmedAreBelow(h: Hashes, q: Queue, s: seq<U256>)
    requires Shape(q) && ConfirmUpTo(h, q, s, |s|).Some?
    ensures AllBelow(s, q.requestCount)
  {
    ConfirmExactly(h, q, s, |s|);
    assert s[..|s|] == s;
    AllHaveIsBelow(q, s, Bundled);
  }

  lemma {:induction false} LifecycleKeepsBooks(h: Hashes, w: World, bundled: seq<U256>, m6id: U256,
                                               succeeded: seq<U256>, failed: seq<U256>, env: nat -> Reaction)
    requires Shape(w.queue) && Books(w) && Stored(h, w.queue) && AllBelow(bundled, w.queue.requestCount)
    requires Lifecycle(h, w, SYSTEM_ADDRESS, bundled, m6id, succeeded, failed, env).Some?
    ensures
      var w' := Lifecycle(h, w, SYSTEM_ADDRESS, bundled, m6id, succeeded, failed, env).value;
      && Books(w') && Stored(h, w'.queue) && w'.credits == w.credits && w'.minted == w.minted
      && LogsRefunds(w.refunds, w'.refunds, w.queue, failed, Answers(env, |failed|))
  {
    hide Stored, LogsRefunds, Books, Shape, Acceptable;
    ResolvableExactly(h, w.queue, bundled, m6id, succeeded);
    ResolvableKeepsBooks(h, w, bundled, m6id, succeeded);
    BundleKeepsStored(h, w.queue, bundled, |bundled|, m6id);
    BundleKeepsShape(h, w.queue, bundled, m6id);
    var q1 := BundleUpTo(h, w.queue, bundled, |bundled|, m6id).value;
    ConfirmedAreBelow(h, q1, succeeded);
    ConfirmKeepsStored(h, q1, succeeded, |succeeded|);
    var w2 := w.(queue := Resolvable(h, w.queue, bundled, m6id, succeeded).value);
    RefundsKeepBooks(h, w2, failed, |failed|, env);
    RefundsAppendEvents(h, w2, failed, |failed|, env);
    RefundEventsLog(w.refunds, w2.queue, failed, |failed|, env);
    assert failed[..|failed|] == failed;
    SameAmountsLogged(w.refunds, RefundUpTo(h, w2, failed, |failed|, env).value.refunds, w2.queue, w.queue, failed,
                      Answers(env, |failed|));
    RefundsKeepStored(h, w2, failed, |failed|, env);
  }
}
