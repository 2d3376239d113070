// The one function that decides a block's lifecycle call, and exactly when the contract takes it.

module LifecycleUpdate {
  import opened ByteCodec
  import opened M6
  import opened Aggregation
  import opened Selection
  import opened SelectionLaws
  import opened QueueStorage
  import opened StorageReader
  import opened Escrow
  import opened LifecycleCall
  import opened Mainchain

  datatype BundleLifecycleUpdate = BundleLifecycleUpdate(
    bundledIndices: seq<u64>, newM6id: Option<U256>, succeededIndices: seq<u64>, failedIndices: seq<u64>)
  {
    predicate IsEmpty() {
      bundledIndices == [] && succeededIndices == [] && failedIndices == []
    }
  }

  predicate IsMatch(e: RequestEntry, m6id: U256) {
    e.status == Bundled && e.bundleM6id == Some(m6id)
  }

  /** The bundled requests of one bundle, in queue order. */
  function Matching(es: seq<RequestEntry>, m6id: U256): seq<u64> {
    if es == [] then [] else
      var last := es[|es| - 1];
      Matching(es[..|es| - 1], m6id) + if IsMatch(last, m6id) then [last.index] else []
  }

  /** The requests resolved by the outcomes of one status. */
  function Resolved(es: seq<RequestEntry>, outcomes: seq<Outcome>, status: BundleStatus): seq<u64> {
    if outcomes == [] then [] else
      var last := outcomes[|outcomes| - 1];
      Resolved(es, outcomes[..|outcomes| - 1], status) + if last.status == status then Matching(es, last.m6id) else []
  }

  function PendingOf(es: seq<RequestEntry>): seq<PendingWithdrawal> {
    if es == [] then [] else
      var e := es[|es| - 1];
      PendingOf(es[..|es| - 1])
      + if e.status == Pending then [PendingWithdrawal(e.index, e.valueSats, e.mainFeeSats, e.btcDestination)] else []
  }

  ghost function UpdateFor(h: Hashes, es: seq<RequestEntry>, outcomes: seq<Outcome>,
                           height: u32): BundleLifecycleUpdate {
    var bundle := Selected(h, PendingOf(es), height);
    BundleLifecycleUpdate(
      if bundle.Some? then bundle.value.requestIndices else [],
      if bundle.Some? then Some(M6id(h, bundle.value)) else None,
      Resolved(es, outcomes, Succeeded), Resolved(es, outcomes, Failed))
  }

  method MatchingIndices(es: seq<RequestEntry>, m6id: U256) returns (indices: seq<u64>)
    ensures indices == Matching(es, m6id)
  {
    indices := [];
    for i := 0 to |es|
      invariant indices == Matching(es[..i], m6id)
    {
      assert es[..i + 1][..i] == es[..i];
      if IsMatch(es[i], m6id) {
        indices := indices + [es[i].index];
      }
    }
    assert es[..|es|] == es;
  }

  method ReadPending(es: seq<RequestEntry>) returns (pending: seq<PendingWithdrawal>)
    ensures pending == PendingOf(es)
  {
    pending := [];
    for i := 0 to |es|
      invariant pending == PendingOf(es[..i])
    {
      assert es[..i + 1][..i] == es[..i];
      if es[i].status == Pending {
        pending := pending
          + [PendingWithdrawal(es[i].index, es[i].valueSats, es[i].mainFeeSats, es[i].btcDestination)];
      }
    }
    assert es[..|es|] == es;
  }

  method ComputeLifecycleUpdate(h: Hashes, es: seq<RequestEntry>, outcomes: seq<Outcome>, height: u32)
    returns (update: BundleLifecycleUpdate)
    ensures update == UpdateFor(h, es, outcomes, height)
  {
    var succeeded: seq<u64>, failed: seq<u64> := [], [];
    for k := 0 to |outcomes|
      invariant succeeded == Resolved(es, outcomes[..k], Succeeded)
      invariant failed == Resolved(es, outcomes[..k], Failed)
    {
      assert outcomes[..k + 1][..k] == outcomes[..k];
      var matching := MatchingIndices(es, outcomes[k].m6id);
      match outcomes[k].status
      case Succeeded => succeeded := succeeded + matching;
      case Failed => failed := failed + matching;
      case Submitted =>
    }
    assert outcomes[..|outcomes|] == outcomes;
    var pending := ReadPending(es);
    var bundle := SelectWithdrawalBundle(h, pending, height);
    match bundle
    case Some(b) => update := BundleLifecycleUpdate(b.requestIndices, Some(M6id(h, b)), succeeded, failed);
    case None => update := BundleLifecycleUpdate([], None, succeeded, failed);
  }

  // ----- What is in the lists, in terms of the queue the snapshot shows -----

  /** Request `i` awaits the outcome of bundle `m6id`. */
  ghost predicate Awaits(q: Queue, i: int, m6id: U256) {
    0 <= i < q.requestCount && At(q, i).status == Bundled && At(q, i).bundleM6id == m6id
  }

  ghost predicate Tracked(q: Queue, m6id: U256) {
    exists i :: Awaits(q, i, m6id)
  }

  lemma {:induction false} MatchingMembers(q: Queue, n: nat, m6id: U256)
    requires Readable(q) && n <= q.requestCount
    ensures forall x :: x in Matching(Entries(q)[..n], m6id) <==> x < n && Awaits(q, x, m6id)
    ensures NoDuplicates(Matching(Entries(q)[..n], m6id))
  {
    if n > 0 {
      MatchingMembers(q, n - 1, m6id);
      assert Entries(q)[..n][..n - 1] == Entries(q)[..n - 1];
      var before := Matching(Entries(q)[..n - 1], m6id);
      assert forall k :: 0 <= k < |before| ==> before[k] in before;
    }
  }

  lemma {:induction false} MatchingIs(q: Queue, m6id: U256)
    requires Readable(q)
    ensures forall x :: x in Matching(Entries(q), m6id) <==> Awaits(q, x, m6id)
    ensures NoDuplicates(Matching(Entries(q), m6id))
  {
    MatchingMembers(q, q.requestCount, m6id);
    assert Entries(q)[..q.requestCount] == Entries(q);
  }

  ghost predicate Reported(outcomes: seq<Outcome>, m6id: U256, status: BundleStatus) {
    Outcome(m6id, status) in outcomes
  }

  /** A request is listed exactly when the outcome of its bundle is reported. */
  lemma {:induction false} ResolvedMembers(q: Queue, outcomes: seq<Outcome>, status: BundleStatus)
    requires Readable(q)
    ensures forall x :: x in Resolved(Entries(q), outcomes, status)
                   <==> 0 <= x < q.requestCount && At(q, x).status == Bundled
                        && Reported(outcomes, At(q, x).bundleM6id, status)
  {
    if outcomes != [] {
      var n := |outcomes| - 1;
      ResolvedMembers(q, outcomes[..n], status);
      MatchingIs(q, outcomes[n].m6id);
      assert outcomes == outcomes[..n] + [outcomes[n]];
    }
  }

  ghost predicate Climbs(s: seq<u64>) {
    forall j, k :: 0 <= j < k < |s| ==> s[j] < s[k]
  }

  lemma {:induction false} MatchingAscends(q: Queue, n: nat, m6id: U256)
    requires Readable(q) && n <= q.requestCount
    ensures Climbs(Matching(Entries(q)[..n], m6id))
  {
    if n > 0 {
      MatchingAscends(q, n - 1, m6id);
      MatchingMembers(q, n - 1, m6id);
      assert Entries(q)[..n][..n - 1] == Entries(q)[..n - 1];
      var before, s := Matching(Entries(q)[..n - 1], m6id), Matching(Entries(q)[..n], m6id);
      assert s == before + if Awaits(q, n - 1, m6id) then [n - 1] else [];
      forall j, k | 0 <= j < k < |s| ensures s[j] < s[k] {
        assert before[j] in before;
        assert before[j] < n - 1;
      }
    }
  }

  /** `at` tells for each listed request which outcome it is listed for: one of its own bundle and this
      status. Requests come in the order of their outcomes, those of one outcome in queue order. */
  ghost predicate InOrder(q: Queue, outcomes: seq<Outcome>, status: BundleStatus, s: seq<u64>, at: seq<nat>) {
    && |at| == |s|
    && (forall k :: 0 <= k < |s| ==> at[k] < |outcomes| && outcomes[at[k]] == Outcome(At(q, s[k]).bundleM6id, status))
    && (forall j, k :: 0 <= j < k < |s| ==> at[j] < at[k] || (at[j] == at[k] && s[j] < s[k]))
  }

  lemma {:induction false} InOrderOneMore(q: Queue, outcomes: seq<Outcome>, o: Outcome, s: seq<u64>, at: seq<nat>,
                                          added: seq<u64>) returns (more: seq<nat>)
    requires InOrder(q, outcomes, o.status, s, at)
    requires forall k :: 0 <= k < |added| ==> At(q, added[k]).bundleM6id == o.m6id
    requires Climbs(added)
    ensures InOrder(q, outcomes + [o], o.status, s + added, more)
  {
    more := at + seq(|added|, k requires 0 <= k < |added| => |outcomes|);
  }

  /** The order in which the requests of a range's outcomes are listed, hence refunded. */
  lemma {:induction false} ResolvedInOrder(q: Queue, outcomes: seq<Outcome>, status: BundleStatus)
    returns (at: seq<nat>)
    requires Readable(q)
    ensures InOrder(q, outcomes, status, Resolved(Entries(q), outcomes, status), at)
  {
    if outcomes == [] {
      at := [];
    } else {
      hide Matching, Entries, Readable;
      var n := |outcomes| - 1;
      at := ResolvedInOrder(q, outcomes[..n], status);
      assert outcomes == outcomes[..n] + [outcomes[n]];
      if outcomes[n].status == status {
        var added := Matching(Entries(q), outcomes[n].m6id);
        MatchingIs(q, outcomes[n].m6id);
        MatchingAscends(q, q.requestCount, outcomes[n].m6id);
        assert Entries(q)[..q.requestCount] == Entries(q);
        assert forall k :: 0 <= k < |added| ==> added[k] in added;
        at := InOrderOneMore(q, outcomes[..n], outcomes[n], Resolved(Entries(q), outcomes[..n], status), at, added);
      }
    }
  }

  /** No bundle the queue is waiting for is reported twice with this status. */
  ghost predicate OncePer(q: Queue, outcomes: seq<Outcome>, status: BundleStatus) {
    forall j, k :: 0 <= j < k < |outcomes| && outcomes[j] == outcomes[k] && outcomes[k].status == status
             ==> !Tracked(q, outcomes[k].m6id)
  }

  lemma {:induction false} ResolvedDistinct(q: Queue, outcomes: seq<Outcome>, status: BundleStatus)
    requires Readable(q)
    ensures NoDuplicates(Resolved(Entries(q), outcomes, status)) <==> OncePer(q, outcomes, status)
  {
    if outcomes != [] {
      var n := |outcomes| - 1;
      ResolvedDistinct(q, outcomes[..n], status);
      ResolvedMembers(q, outcomes[..n], status);
      MatchingIs(q, outcomes[n].m6id);
      var before, added := Resolved(Entries(q), outcomes[..n], status), Matching(Entries(q), outcomes[n].m6id);
      if outcomes[n].status == status {
        JoinDistinct(before, added);
        OncePerExtends(q, outcomes, status);
        if Reported(outcomes[..n], outcomes[n].m6id, status) {
          if i :| Awaits(q, i, outcomes[n].m6id) {
            assert i in before && i in added;
          }
        }
      } else {
        assert Resolved(Entries(q), outcomes, status) == before + [] == before;
        OncePerExtends(q, outcomes, status);
      }
    }
  }

  lemma {:induction false} JoinDistinct(a: seq<u64>, b: seq<u64>)
    ensures NoDuplicates(a + b) <==> NoDuplicates(a) && NoDuplicates(b) && forall x :: x in a ==> x !in b
  {
    var t := a + b;
    if NoDuplicates(t) {
      forall j, k | 0 <= j < k < |a| ensures a[j] != a[k] {
        assert t[j] != t[k];
      }
      forall j, k | 0 <= j < k < |b| ensures b[j] != b[k] {
        assert t[|a| + j] != t[|a| + k];
      }
      forall j, k | 0 <= j < |a| && 0 <= k < |b| ensures a[j] != b[k] {
        assert t[j] != t[|a| + k];
      }
    }
    if NoDuplicates(a) && NoDuplicates(b) && forall x :: x in a ==> x !in b {
      forall j, k | 0 <= j < k < |t| ensures t[j] != t[k] {
        if j < |a| <= k {
          assert a[j] in a && b[k - |a|] in b;
        }
      }
    }
  }

  lemma {:induction false} OncePerExtends(q: Queue, outcomes: seq<Outcome>, status: BundleStatus)
    requires outcomes != []
    ensures
      var n := |outcomes| - 1;
      OncePer(q, outcomes, status)
      <==> OncePer(q, outcomes[..n], status)
           && (outcomes[n].status == status && Reported(outcomes[..n], outcomes[n].m6id, status)
               ==> !Tracked(q, outcomes[n].m6id))
  {
    var n := |outcomes| - 1;
    var before := outcomes[..n];
    if OncePer(q, outcomes, status) {
      forall j, k | 0 <= j < k < |before| && before[j] == before[k] && before[k].status == status
        ensures !Tracked(q, before[k].m6id)
      {
        assert outcomes[j] == outcomes[k];
      }
      if outcomes[n].status == status && Reported(before, outcomes[n].m6id, status) {
        var j :| 0 <= j < n && before[j] == outcomes[n];
        assert outcomes[j] == outcomes[n];
      }
    }
    if OncePer(q, before, status)
       && (outcomes[n].status == status && Reported(before, outcomes[n].m6id, status)
           ==> !Tracked(q, outcomes[n].m6id)) {
      forall j, k | 0 <= j < k < |outcomes| && outcomes[j] == outcomes[k] && outcomes[k].status == status
        ensures !Tracked(q, outcomes[k].m6id)
      {
        if k == n {
          assert before[j] == outcomes[n];
        } else {
          assert before[j] == before[k];
        }
      }
    }
  }

  ghost function PendingAt(q: Queue, i: U256): PendingWithdrawal
    requires Readable(q) && i < q.requestCount
  {
    PendingWithdrawal(i, At(q, i).valueSats, At(q, i).mainFeeSats, At(q, i).btcDestination)
  }

  lemma {:induction false} PendingOneMore(q: Queue, n: nat)
    requires Readable(q) && 0 < n <= q.requestCount
    ensures PendingOf(Entries(q)[..n])
         == PendingOf(Entries(q)[..n - 1]) + if At(q, n - 1).status == Pending then [PendingAt(q, n - 1)] else []
  {
    assert Entries(q)[..n][..n - 1] == Entries(q)[..n - 1];
    assert Entries(q)[..n][n - 1] == EntryOf(q, n - 1);
  }

  /** `p` lists exactly the pending requests among the first `n`, each once. */
  ghost predicate ListsPending(q: Queue, n: nat, p: seq<PendingWithdrawal>)
    requires Readable(q) && n <= q.requestCount
  {
    && DistinctIndices(p)
    && (forall k :: 0 <= k < |p| ==> p[k].index < n && At(q, p[k].index).status == Pending
                                     && p[k] == PendingAt(q, p[k].index))
    && (forall i :: 0 <= i < n && At(q, i).status == Pending ==> PendingAt(q, i) in p)
  }

  lemma {:induction false} ListOneMore(q: Queue, n: nat, p: seq<PendingWithdrawal>, p': seq<PendingWithdrawal>)
    requires Readable(q) && 0 < n <= q.requestCount && ListsPending(q, n - 1, p)
    requires p' == p + if At(q, n - 1).status == Pending then [PendingAt(q, n - 1)] else []
    ensures ListsPending(q, n, p')
  {
    forall i | 0 <= i < n && At(q, i).status == Pending ensures PendingAt(q, i) in p' {
      if i == n - 1 {
        assert p'[|p|] == PendingAt(q, i);
      } else {
        assert PendingAt(q, i) in p;
      }
    }
  }

  lemma {:induction false} PendingMembers(q: Queue, n: nat)
    requires Readable(q) && n <= q.requestCount
    ensures ListsPending(q, n, PendingOf(Entries(q)[..n]))
  {
    if n > 0 {
      hide PendingOf, Entries, ListsPending;
      PendingMembers(q, n - 1);
      PendingOneMore(q, n);
      ListOneMore(q, n, PendingOf(Entries(q)[..n - 1]), PendingOf(Entries(q)[..n]));
    }
  }

  ghost function PendingIn(q: Queue): seq<PendingWithdrawal>
    requires Readable(q)
  {
    PendingOf(Entries(q))
  }

  /** The pending list is exactly the queue's pending requests, each once. */
  lemma {:induction false} PendingIs(q: Queue)
    requires Readable(q)
    ensures ListsPending(q, q.requestCount, PendingIn(q))
  {
    PendingMembers(q, q.requestCount);
    assert Entries(q)[..q.requestCount] == Entries(q);
  }

  /** The selected indices: existing, pending, distinct, at least one. */
  lemma {:induction false} BundledMembers(h: Hashes, q: Queue, height: u32)
    requires Readable(q) && Selected(h, PendingIn(q), height).Some?
    ensures
      var b := Selected(h, PendingIn(q), height).value.requestIndices;
      b != [] && NoDuplicates(b) && AllBelow(b, q.requestCount) && AllHave(q, b, Pending)
  {
    var p, b := PendingIn(q), Selected(h, PendingIn(q), height).value.requestIndices;
    PendingIs(q);
    ConsumesWholeDestinations(h, p, height);
    forall k | 0 <= k < |b| ensures b[k] < q.requestCount && At(q, b[k]).status == Pending {
      assert b[k] in b;
      var i :| 0 <= i < |p| && p[i].index == b[k];
    }
  }

  // ----- Exactly when the contract takes the call -----

  predicate Terminal(o: Outcome) {
    o.status != Submitted
  }

  /** No bundle the queue is waiting for has two terminal outcomes in the range. */
  ghost predicate ResolvedOnce(q: Queue, outcomes: seq<Outcome>) {
    forall j, k :: 0 <= j < k < |outcomes| && Terminal(outcomes[j]) && Terminal(outcomes[k])
                   && outcomes[j].m6id == outcomes[k].m6id
             ==> !Tracked(q, outcomes[k].m6id)
  }

  lemma {:induction false} ResolvedOnceSplits(q: Queue, outcomes: seq<Outcome>)
    requires Readable(q)
    ensures ResolvedOnce(q, outcomes)
       <==> OncePer(q, outcomes, Succeeded) && OncePer(q, outcomes, Failed)
            && forall m6id :: Reported(outcomes, m6id, Succeeded) && Reported(outcomes, m6id, Failed)
                         ==> !Tracked(q, m6id)
  {
    if ResolvedOnce(q, outcomes) {
      forall m6id | Reported(outcomes, m6id, Succeeded) && Reported(outcomes, m6id, Failed) ensures !Tracked(q, m6id) {
        var j :| 0 <= j < |outcomes| && outcomes[j] == Outcome(m6id, Succeeded);
        var k :| 0 <= k < |outcomes| && outcomes[k] == Outcome(m6id, Failed);
        assert j < k || k < j;
      }
    }
    if OncePer(q, outcomes, Succeeded) && OncePer(q, outcomes, Failed)
       && forall m6id :: Reported(outcomes, m6id, Succeeded) && Reported(outcomes, m6id, Failed) ==> !Tracked(q, m6id) {
      forall j, k | 0 <= j < k < |outcomes| && Terminal(outcomes[j]) && Terminal(outcomes[k])
                    && outcomes[j].m6id == outcomes[k].m6id
        ensures !Tracked(q, outcomes[k].m6id)
      {
        if outcomes[j].status != outcomes[k].status {
          assert outcomes[j] in outcomes && outcomes[k] in outcomes;
          assert Reported(outcomes, outcomes[k].m6id, Succeeded) && Reported(outcomes, outcomes[k].m6id, Failed);
        }
      }
    }
  }

  lemma {:induction false} ListsBelow(h: Hashes, q: Queue, outcomes: seq<Outcome>, height: u32)
    requires Readable(q)
    ensures
      var u := UpdateFor(h, Entries(q), outcomes, height);
      && AllBelow(u.bundledIndices, q.requestCount)
      && AllBelow(u.succeededIndices, q.requestCount)
      && AllBelow(u.failedIndices, q.requestCount)
  {
    var u := UpdateFor(h, Entries(q), outcomes, height);
    if Selected(h, PendingIn(q), height).Some? {
      BundledMembers(h, q, height);
    }
    ResolvedMembers(q, outcomes, Succeeded);
    ResolvedMembers(q, outcomes, Failed);
    forall k | 0 <= k < |u.succeededIndices| ensures u.succeededIndices[k] < q.requestCount {
      assert u.succeededIndices[k] in u.succeededIndices;
    }
    forall k | 0 <= k < |u.failedIndices| ensures u.failedIndices[k] < q.requestCount {
      assert u.failedIndices[k] in u.failedIndices;
    }
  }

  /** The update computed from the parent's queue `q` is acceptable to the queue `q'` that the
      credits of the same block have meanwhile appended to, exactly when the range resolves no
      awaited bundle twice. */
  lemma {:induction false} UpdateAcceptedExactly(h: Hashes, q: Queue, q': Queue, outcomes: seq<Outcome>, height: u32)
    requires Readable(q) && Appends(q, q')
    ensures
      var u := UpdateFor(h, Entries(q), outcomes, height);
      Acceptable(q', u.bundledIndices, u.succeededIndices, u.failedIndices) <==> ResolvedOnce(q, outcomes)
  {
    hide Selected, Resolved, ResolvedOnce, OncePer, Tracked;
    var u := UpdateFor(h, Entries(q), outcomes, height);
    var b, s, f := u.bundledIndices, u.succeededIndices, u.failedIndices;
    ListsBelow(h, q, outcomes, height);
    assert NoDuplicates(b) && AllHave(q, b, Pending) by {
      if Selected(h, PendingIn(q), height).Some? {
        BundledMembers(h, q, height);
      }
    }
    ResolvedMembers(q, outcomes, Succeeded);
    ResolvedMembers(q, outcomes, Failed);
    ResolvedDistinct(q, outcomes, Succeeded);
    ResolvedDistinct(q, outcomes, Failed);
    ResolvedOnceSplits(q, outcomes);
    forall k | 0 <= k < |s| ensures At(q', s[k]).status == Bundled {
      assert s[k] in s;
    }
    forall k | 0 <= k < |f| ensures At(q', f[k]).status == Bundled {
      assert f[k] in f;
    }
    DisjointExactly(q, outcomes, s, f);
  }

  lemma {:induction false} DisjointExactly(q: Queue, outcomes: seq<Outcome>, s: seq<u64>, f: seq<u64>)
    requires Readable(q)
    requires forall x :: x in s <==> 0 <= x < q.requestCount && At(q, x).status == Bundled
                                     && Reported(outcomes, At(q, x).bundleM6id, Succeeded)
    requires forall x :: x in f <==> 0 <= x < q.requestCount && At(q, x).status == Bundled
                                     && Reported(outcomes, At(q, x).bundleM6id, Failed)
    ensures (forall k :: 0 <= k < |f| ==> f[k] !in s)
       <==> forall m6id :: Reported(outcomes, m6id, Succeeded) && Reported(outcomes, m6id, Failed) ==> !Tracked(q, m6id)
  {
    if forall k :: 0 <= k < |f| ==> f[k] !in s {
      forall m6id | Reported(outcomes, m6id, Succeeded) && Reported(outcomes, m6id, Failed) ensures !Tracked(q, m6id) {
        forall i ensures !Awaits(q, i, m6id) {
          assert i in f ==> i !in s;
        }
      }
    }
    if forall m6id :: Reported(outcomes, m6id, Succeeded) && Reported(outcomes, m6id, Failed) ==> !Tracked(q, m6id) {
      forall k | 0 <= k < |f| ensures f[k] !in s {
        assert f[k] in f;
        if f[k] in s {
          assert Awaits(q, f[k], At(q, f[k]).bundleM6id);
          assert false;
        }
      }
    }
  }
}
