// Pending requests grouped by destination. The sums here are unbounded and say what a group is
// worth; the selector computes them with saturating 64-bit additions.

module Aggregation {
  import opened ByteCodec
  import opened Ranking

  datatype PendingWithdrawal = PendingWithdrawal(
    index: u64, valueSats: u64, mainFeeSats: u64, btcDestination: Script)

  function ValueOf(x: PendingWithdrawal): nat {
    x.valueSats
  }

  function FeeOf(x: PendingWithdrawal): nat {
    x.mainFeeSats
  }

  /** The total of `amount` over the requests paying to a destination in `d`. */
  ghost function SumIn(p: seq<PendingWithdrawal>, d: set<Script>, amount: PendingWithdrawal -> nat): nat {
    if p == [] then 0 else
      var last := p[|p| - 1];
      SumIn(p[..|p| - 1], d, amount) + if last.btcDestination in d then amount(last) else 0
  }

  /** The indices of the requests paying to a destination in `d`, in queue order. */
  ghost function IndicesIn(p: seq<PendingWithdrawal>, d: set<Script>): seq<u64> {
    if p == [] then [] else
      var last := p[|p| - 1];
      IndicesIn(p[..|p| - 1], d) + if last.btcDestination in d then [last.index] else []
  }

  /** The group of one destination. */
  ghost function GroupOf(p: seq<PendingWithdrawal>, d: Script): AggregatedWithdrawal {
    AggregatedWithdrawal(d, Min(SumIn(p, {d}, ValueOf), U64_MAX), Min(SumIn(p, {d}, FeeOf), U64_MAX), IndicesIn(p, {d}))
  }

  ghost function DestinationSet(p: seq<PendingWithdrawal>): set<Script> {
    set i | 0 <= i < |p| :: p[i].btcDestination
  }

  /** Each destination once, in order of first appearance. */
  ghost function Destinations(p: seq<PendingWithdrawal>): (ds: seq<Script>)
    ensures forall i, j :: 0 <= i < j < |ds| ==> ds[i] != ds[j]
    ensures forall d :: d in ds <==> d in DestinationSet(p)
  {
    if p == [] then [] else
      var d := p[|p| - 1].btcDestination;
      var rest := Destinations(p[..|p| - 1]);
      assert DestinationSet(p) == DestinationSet(p[..|p| - 1]) + {d};
      if d in rest then rest else rest + [d]
  }

  ghost function Groups(p: seq<PendingWithdrawal>): seq<AggregatedWithdrawal> {
    var ds := Destinations(p);
    seq(|ds|, i requires 0 <= i < |ds| => GroupOf(p, ds[i]))
  }

  /** The groups in the order in which they compete for a place. */
  ghost function Ranked(p: seq<PendingWithdrawal>): seq<AggregatedWithdrawal> {
    SortRanked(Groups(p))
  }

  /** `s` lists the group of every destination once and nothing else. */
  ghost predicate ListsGroups(s: seq<AggregatedWithdrawal>, p: seq<PendingWithdrawal>) {
    && DistinctDestinations(s)
    && (forall i :: 0 <= i < |s| ==> s[i].btcDestination in DestinationSet(p))
    && (forall i :: 0 <= i < |s| ==> s[i] == GroupOf(p, s[i].btcDestination))
    && (forall d :: d in DestinationSet(p) ==> GroupOf(p, d) in s)
  }

  lemma {:induction false} GroupsListsGroups(p: seq<PendingWithdrawal>)
    ensures ListsGroups(Groups(p), p)
  {
    var ds, gs := Destinations(p), Groups(p);
    forall i | 0 <= i < |gs| ensures gs[i].btcDestination in DestinationSet(p) {
      assert ds[i] in ds;
    }
    forall d | d in DestinationSet(p) ensures GroupOf(p, d) in gs {
      assert d in ds;
      var i :| 0 <= i < |ds| && ds[i] == d;
      assert gs[i] == GroupOf(p, d);
    }
  }

  /** Reordering the groups does not change what is listed. */
  lemma {:induction false} SortListsGroups(s: seq<AggregatedWithdrawal>, p: seq<PendingWithdrawal>)
    requires ListsGroups(s, p)
    ensures ListsGroups(SortRanked(s), p) && StrictlyRanked(SortRanked(s))
  {
    var r := SortRanked(s);
    SortRankedIsRanked(s);
    forall x ensures x in r <==> x in s {
      assert x in multiset(r) <==> x in multiset(s);
    }
    forall i | 0 <= i < |r|
      ensures r[i].btcDestination in DestinationSet(p) && r[i] == GroupOf(p, r[i].btcDestination)
    {
      assert r[i] in s;
    }
    forall i, j | 0 <= i < j < |r| ensures r[i].btcDestination != r[j].btcDestination {
      BeforeIsStrictTotalOrder(RankOf(r[i]), RankOf(r[i]), RankOf(r[i]));
      assert Before(RankOf(r[i]), RankOf(r[j]));
    }
    forall d | d in DestinationSet(p) ensures GroupOf(p, d) in r {
      assert GroupOf(p, d) in s;
    }
  }

  lemma {:induction false} RankedListsGroups(p: seq<PendingWithdrawal>)
    ensures ListsGroups(Ranked(p), p) && StrictlyRanked(Ranked(p))
  {
    GroupsListsGroups(p);
    SortListsGroups(Groups(p), p);
  }

  /** Whatever order the map's values come out in, sorting them gives the same ranking. */
  lemma {:induction false} AnyOrderGivesRanked(s: seq<AggregatedWithdrawal>, p: seq<PendingWithdrawal>)
    requires ListsGroups(s, p)
    ensures SortRanked(s) == Ranked(p)
  {
    SortListsGroups(s, p);
    RankedListsGroups(p);
    var a, b := SortRanked(s), Ranked(p);
    EveryGroupListed(a, b, p);
    EveryGroupListed(b, a, p);
    RankingUnique(a, b);
    forall i | 0 <= i < |a| ensures a[i] == b[i] {
      assert RankOf(a[i]) == RankOf(b[i]);
    }
  }

  lemma {:induction false} EveryGroupListed(a: seq<AggregatedWithdrawal>, b: seq<AggregatedWithdrawal>,
                                            p: seq<PendingWithdrawal>)
    requires ListsGroups(a, p) && ListsGroups(b, p)
    ensures forall i :: 0 <= i < |a| ==> Listed(RankOf(a[i]), b)
  {
    forall i | 0 <= i < |a| ensures Listed(RankOf(a[i]), b) {
      assert GroupOf(p, a[i].btcDestination) in b;
      var j :| 0 <= j < |b| && b[j] == a[i];
    }
  }

  // ----- Groups do not depend on the order of the requests -----

  ghost function Without(p: seq<PendingWithdrawal>, k: nat): seq<PendingWithdrawal>
    requires k < |p|
  {
    p[..k] + p[k + 1..]
  }

  lemma {:induction false} WithoutKeepsLast(p: seq<PendingWithdrawal>, k: nat)
    requires k < |p|
    ensures
      var n := |p| - 1;
      var q := Without(p, k);
      if k == n then q == p[..n] else q != [] && q[|q| - 1] == p[n] && q[..|q| - 1] == Without(p[..n], k)
  {
  }

  lemma {:induction false} SumTakeOut(p: seq<PendingWithdrawal>, k: nat, d: set<Script>,
                                      amount: PendingWithdrawal -> nat)
    requires k < |p|
    ensures SumIn(p, d, amount)
         == SumIn(Without(p, k), d, amount) + (if p[k].btcDestination in d then amount(p[k]) else 0)
  {
    WithoutKeepsLast(p, k);
    if k < |p| - 1 {
      SumTakeOut(p[..|p| - 1], k, d, amount);
    }
  }

  /** What one request contributes. */
  ghost function IndexIn(x: PendingWithdrawal, d: set<Script>): seq<u64> {
    if x.btcDestination in d then [x.index] else []
  }

  lemma {:induction false} IndicesTakeOut(p: seq<PendingWithdrawal>, k: nat, d: set<Script>)
    requires k < |p|
    ensures multiset(IndicesIn(p, d)) == multiset(IndicesIn(Without(p, k), d)) + multiset(IndexIn(p[k], d))
  {
    hide IndicesIn, IndexIn, Without;
    var n := |p| - 1;
    WithoutKeepsLast(p, k);
    IndicesAppendLast(p, d);
    if k < n {
      IndicesTakeOut(p[..n], k, d);
      IndicesAppendLast(Without(p, k), d);
      AppendBoth(IndicesIn(p[..n], d), IndicesIn(Without(p[..n], k), d), multiset(IndexIn(p[k], d)), IndexIn(p[n], d));
    }
  }

  lemma {:induction false} IndicesAppendLast(p: seq<PendingWithdrawal>, d: set<Script>)
    requires p != []
    ensures IndicesIn(p, d) == IndicesIn(p[..|p| - 1], d) + IndexIn(p[|p| - 1], d)
  {
  }

  lemma {:induction false} AppendBoth(a: seq<u64>, b: seq<u64>, x: multiset<u64>, tail: seq<u64>)
    requires multiset(a) == multiset(b) + x
    ensures multiset(a + tail) == multiset(b + tail) + x
  {
  }

  lemma {:induction false} TakeOutLast(p: seq<PendingWithdrawal>, q: seq<PendingWithdrawal>) returns (k: nat)
    requires p != [] && multiset(p) == multiset(q)
    ensures k < |q| && q[k] == p[|p| - 1]
    ensures multiset(p[..|p| - 1]) == multiset(Without(q, k))
  {
    var n := |p| - 1;
    assert p[n] in multiset(q);
    k :| 0 <= k < |q| && q[k] == p[n];
    assert q == q[..k] + [q[k]] + q[k + 1..];
    assert p == p[..n] + [p[n]];
    assert multiset(p[..n]) == multiset(p) - multiset{p[n]};
    assert multiset(Without(q, k)) == multiset(q) - multiset{q[k]};
  }

  lemma {:induction false} SumIgnoresOrder(p: seq<PendingWithdrawal>, q: seq<PendingWithdrawal>, d: set<Script>,
                                           amount: PendingWithdrawal -> nat)
    requires multiset(p) == multiset(q)
    ensures SumIn(p, d, amount) == SumIn(q, d, amount)
  {
    if p == [] {
      assert |multiset(q)| == 0;
    } else {
      var k := TakeOutLast(p, q);
      SumIgnoresOrder(p[..|p| - 1], Without(q, k), d, amount);
      SumTakeOut(q, k, d, amount);
    }
  }

  lemma {:induction false} IndicesIgnoreOrder(p: seq<PendingWithdrawal>, q: seq<PendingWithdrawal>, d: set<Script>)
    requires multiset(p) == multiset(q)
    ensures multiset(IndicesIn(p, d)) == multiset(IndicesIn(q, d))
  {
    if p == [] {
      assert |multiset(q)| == 0;
    } else {
      var k := TakeOutLast(p, q);
      IndicesIgnoreOrder(p[..|p| - 1], Without(q, k), d);
      IndicesTakeOut(q, k, d);
    }
  }

  lemma {:induction false} DestinationsIgnoreOrder(p: seq<PendingWithdrawal>, q: seq<PendingWithdrawal>)
    requires multiset(p) == multiset(q)
    ensures DestinationSet(p) == DestinationSet(q)
  {
    forall d ensures d in DestinationSet(p) <==> d in DestinationSet(q) {
      if d in DestinationSet(p) {
        var i :| 0 <= i < |p| && p[i].btcDestination == d;
        assert p[i] in multiset(q);
      }
      if d in DestinationSet(q) {
        var i :| 0 <= i < |q| && q[i].btcDestination == d;
        assert q[i] in multiset(p);
      }
    }
  }

  /** Permuting the requests permutes indices inside groups and nothing else. */
  lemma {:induction false} RankedIgnoresOrder(p: seq<PendingWithdrawal>, q: seq<PendingWithdrawal>)
    requires multiset(p) == multiset(q)
    ensures |Ranked(p)| == |Ranked(q)|
    ensures forall i :: 0 <= i < |Ranked(p)| ==> RankOf(Ranked(p)[i]) == RankOf(Ranked(q)[i])
    ensures forall i :: 0 <= i < |Ranked(p)|
                 ==> multiset(Ranked(p)[i].requestIndices) == multiset(Ranked(q)[i].requestIndices)
  {
    var a, b := Ranked(p), Ranked(q);
    RankedListsGroups(p);
    RankedListsGroups(q);
    DestinationsIgnoreOrder(p, q);
    RanksCarryOver(p, q);
    RanksCarryOver(q, p);
    RankingUnique(a, b);
    forall i | 0 <= i < |a| ensures multiset(a[i].requestIndices) == multiset(b[i].requestIndices) {
      assert RankOf(a[i]) == RankOf(b[i]);
      IndicesIgnoreOrder(p, q, {a[i].btcDestination});
    }
  }

  lemma {:induction false} RanksCarryOver(p: seq<PendingWithdrawal>, q: seq<PendingWithdrawal>)
    requires multiset(p) == multiset(q)
    ensures forall i :: 0 <= i < |Ranked(p)| ==> Listed(RankOf(Ranked(p)[i]), Ranked(q))
  {
    RankedListsGroups(p);
    RankedListsGroups(q);
    DestinationsIgnoreOrder(p, q);
    forall i | 0 <= i < |Ranked(p)| ensures Listed(RankOf(Ranked(p)[i]), Ranked(q)) {
      var d := Ranked(p)[i].btcDestination;
      SumIgnoresOrder(p, q, {d}, ValueOf);
      SumIgnoresOrder(p, q, {d}, FeeOf);
      assert GroupOf(q, d) in Ranked(q);
      var j :| 0 <= j < |Ranked(q)| && Ranked(q)[j] == GroupOf(q, d);
    }
  }

  // ----- Sums over disjoint sets of destinations add up -----

  lemma {:induction false} SumSplit(p: seq<PendingWithdrawal>, a: set<Script>, b: set<Script>,
                                    amount: PendingWithdrawal -> nat)
    requires a !! b
    ensures SumIn(p, a + b, amount) == SumIn(p, a, amount) + SumIn(p, b, amount)
  {
    if p != [] {
      SumSplit(p[..|p| - 1], a, b, amount);
    }
  }

  lemma {:induction false} SumMonotone(p: seq<PendingWithdrawal>, a: set<Script>, b: set<Script>,
                                       amount: PendingWithdrawal -> nat)
    requires a <= b
    ensures SumIn(p, a, amount) <= SumIn(p, b, amount)
  {
    if p != [] {
      SumMonotone(p[..|p| - 1], a, b, amount);
    }
  }

  ghost predicate DistinctIndices(p: seq<PendingWithdrawal>) {
    forall i, j :: 0 <= i < j < |p| ==> p[i].index != p[j].index
  }

  /** Which indices a set of destinations brings along. */
  lemma {:induction false} IndicesInMembers(p: seq<PendingWithdrawal>, d: set<Script>)
    ensures forall x :: x in IndicesIn(p, d)
                   <==> exists i :: 0 <= i < |p| && p[i].index == x && p[i].btcDestination in d
  {
    if p != [] {
      var n := |p| - 1;
      IndicesInMembers(p[..n], d);
      forall x ensures x in IndicesIn(p, d)
                  <==> exists i :: 0 <= i < |p| && p[i].index == x && p[i].btcDestination in d
      {
        if x in IndicesIn(p[..n], d) {
          var i :| 0 <= i < n && p[..n][i].index == x && p[..n][i].btcDestination in d;
          assert p[i].index == x && p[i].btcDestination in d;
        }
        if i :| 0 <= i < |p| && p[i].index == x && p[i].btcDestination in d {
          if i < n {
            assert p[..n][i].index == x && p[..n][i].btcDestination in d;
          }
        }
      }
    }
  }

  lemma {:induction false} IndicesInDistinct(p: seq<PendingWithdrawal>, d: set<Script>)
    requires DistinctIndices(p)
    ensures forall i, j :: 0 <= i < j < |IndicesIn(p, d)| ==> IndicesIn(p, d)[i] != IndicesIn(p, d)[j]
  {
    if p != [] {
      var n := |p| - 1;
      IndicesInDistinct(p[..n], d);
      IndicesInMembers(p[..n], d);
      var rest := IndicesIn(p[..n], d);
      forall i | 0 <= i < |rest| ensures rest[i] != p[n].index {
        assert rest[i] in rest;
      }
    }
  }
}
