// What a selection promises: the same bundle on every node, a standard transaction that could
// not have been longer, and exact accounting between requests consumed and coins paid.

module SelectionLaws {
  import opened ByteCodec
  import opened M6
  import opened Ranking
  import opened Aggregation
  import opened Selection

  // ----- The selection is canonical -----

  /** The same destinations with the same amounts, up to the order of indices inside a group. */
  ghost predicate Aligned(a: seq<AggregatedWithdrawal>, b: seq<AggregatedWithdrawal>) {
    && |a| == |b|
    && (forall i :: 0 <= i < |a| ==> RankOf(a[i]) == RankOf(b[i]))
    && (forall i :: 0 <= i < |a| ==> multiset(a[i].requestIndices) == multiset(b[i].requestIndices))
  }

  lemma {:induction false} RepresentableByRank(a: AggregatedWithdrawal, b: AggregatedWithdrawal)
    requires RankOf(a) == RankOf(b)
    ensures Representable(a) <==> Representable(b)
  {
  }

  lemma {:induction false} PackableAligned(a: seq<AggregatedWithdrawal>, b: seq<AggregatedWithdrawal>)
    requires Aligned(a, b)
    ensures Aligned(Packable(a), Packable(b))
  {
    hide Representable, RankOf;
    if a != [] {
      var n := |a| - 1;
      RepresentableByRank(a[n], b[n]);
      PackableAligned(a[..n], b[..n]);
    }
  }

  lemma {:induction false} LongestFitAligned(a: seq<AggregatedWithdrawal>, b: seq<AggregatedWithdrawal>, k: nat)
    requires Aligned(a, b) && k <= |a|
    ensures LongestFit(a, k) == LongestFit(b, k)
    decreases |a| - k
  {
    if k < |a| {
      PayoutsAligned(a, b, k + 1);
      LongestFitAligned(a, b, k + 1);
    }
  }

  lemma {:induction false} PayoutsAligned(a: seq<AggregatedWithdrawal>, b: seq<AggregatedWithdrawal>, k: nat)
    requires Aligned(a, b) && k <= |a|
    ensures Payouts(a[..k]) == Payouts(b[..k])
  {
    forall i | 0 <= i < k ensures Payouts(a[..k])[i] == Payouts(b[..k])[i] {
      assert RankOf(a[i]) == RankOf(b[i]);
    }
  }

  lemma {:induction false} TotalsAligned(a: seq<AggregatedWithdrawal>, b: seq<AggregatedWithdrawal>)
    requires Aligned(a, b)
    ensures TotalFee(a) == TotalFee(b)
    ensures multiset(AllIndices(a)) == multiset(AllIndices(b))
  {
    if a != [] {
      var n := |a| - 1;
      assert RankOf(a[n]) == RankOf(b[n]);
      TotalsAligned(a[..n], b[..n]);
    }
  }

  /** Nodes that see the same pending requests, in whatever order, build the same bundle down to
      the byte; the hash map's order is already out of the picture in `SelectWithdrawalBundle`. */
  lemma {:induction false} SelectionCanonical(h: Hashes, p: seq<PendingWithdrawal>, q: seq<PendingWithdrawal>,
                                              height: u32)
    requires multiset(p) == multiset(q)
    ensures Selected(h, p, height) == Selected(h, q, height)
  {
    RankedIgnoresOrder(p, q);
    var a, b := Packable(Ranked(p)), Packable(Ranked(q));
    PackableAligned(Ranked(p), Ranked(q));
    LongestFitAligned(a, b, 0);
    var n := LongestFit(a, 0);
    PayoutsAligned(a, b, n);
    TotalsAligned(a[..n], b[..n]);
    SortIndicesAscending(AllIndices(a[..n]));
    SortIndicesAscending(AllIndices(b[..n]));
    AscendingUnique(SortIndices(AllIndices(a[..n])), SortIndices(AllIndices(b[..n])));
  }

  // ----- The selection is the longest standard one -----

  /** In terms of the real transaction: the first `k` candidates make a standard M6 exactly when
      they are among those chosen. */
  lemma {:induction false} ChosenIsLongestStandardPrefix(p: seq<PendingWithdrawal>, k: nat, commitment: U256, fee: u64,
                                                         outpoint: Bytes, sequence: u32)
    requires k <= |Packable(Ranked(p))| && |outpoint| == 36
    ensures
      var payouts := Payouts(Packable(Ranked(p))[..k]);
      Weight(TreasurySpend(BundleTx(commitment, fee, payouts), outpoint, sequence)) <= MAX_STANDARD_WEIGHT
      <==> k <= |Chosen(p)|
  {
    LongestFitIsThreshold(Packable(Ranked(p)), k);
    FitsMeansStandard(Payouts(Packable(Ranked(p))[..k]), commitment, fee, outpoint, sequence);
  }

  /** Every bundle that is returned is a standard transaction once its input is attached. */
  lemma {:induction false} SelectedIsStandard(h: Hashes, p: seq<PendingWithdrawal>, height: u32, outpoint: Bytes,
                                              sequence: u32)
    requires Selected(h, p, height).Some? && |outpoint| == 36
    ensures Weight(TreasurySpend(Selected(h, p, height).value.tx, outpoint, sequence)) <= MAX_STANDARD_WEIGHT
    ensures |Chosen(p)| <= 99_888
  {
    var chosen := Chosen(p);
    LongestFitIsThreshold(Packable(Ranked(p)), |chosen|);
    FitsMeansStandard(Payouts(chosen), h.keccak(CommitmentPreimage(SortIndices(AllIndices(chosen)), height)),
                      Min(TotalFee(chosen), U64_MAX), outpoint, sequence);
    OutputsAtLeastNineBytes(Payouts(chosen));
  }

  lemma {:induction false} FitsAlone(o: TxOut)
    ensures Fits([o]) <==> |o.scriptPubkey| <= 99_874
  {
    assert [o][1..] == [];
    assert |SerializeOutputs([o])| == |SerializeTxOut(o)|;
  }

  /** Nothing is selected exactly when there is no candidate or the first one does not fit alone.
      (The source's comment also promises a bundle whenever some other destination fits; see
      `FirstCandidateBlocksOthers`.) */
  lemma {:induction false} NothingSelectedExactlyWhen(h: Hashes, p: seq<PendingWithdrawal>, height: u32)
    ensures
      var candidates := Packable(Ranked(p));
      Selected(h, p, height).None? <==> candidates == [] || |candidates[0].btcDestination| > 99_874
  {
    var candidates := Packable(Ranked(p));
    if candidates != [] {
      LongestFitIsThreshold(candidates, 1);
      assert Payouts(candidates[..1]) == [TxOut(candidates[0].valueSats, candidates[0].btcDestination)];
      FitsAlone(Payouts(candidates[..1])[0]);
    }
  }

  lemma {:induction false} HigherFeeRanksFirst(a: PendingWithdrawal, b: PendingWithdrawal)
    requires a.btcDestination != b.btcDestination && a.mainFeeSats > b.mainFeeSats
    ensures Ranked([a, b]) != [] && Ranked([a, b])[0].btcDestination == a.btcDestination
  {
    var p, r := [a, b], Ranked([a, b]);
    RankedListsGroups(p);
    assert p[..1] == [a] && [a][..0] == [];
    assert SumIn([a], {a.btcDestination}, FeeOf) == a.mainFeeSats && SumIn([a], {b.btcDestination}, FeeOf) == 0;
    assert p[0].btcDestination in DestinationSet(p);
    var j :| 0 <= j < |r| && r[j] == GroupOf(p, a.btcDestination);
    assert j == 0 || Before(RankOf(r[0]), RankOf(r[j]));
    assert r[0].btcDestination in DestinationSet(p);
  }

  /** Two requests, the one with the higher fee too long for any bundle: nothing is selected,
      although the other fits. */
  lemma {:induction false} FirstCandidateBlocksOthers(h: Hashes, height: u32)
    ensures
      var long, short := PendingWithdrawal(0, 1, 2, Zeros(99_875)), PendingWithdrawal(1, 1, 1, [0x51]);
      Selected(h, [long, short], height).None? && Selected(h, [short], height).Some?
  {
    var long, short := PendingWithdrawal(0, 1, 2, Zeros(99_875)), PendingWithdrawal(1, 1, 1, [0x51]);
    assert |long.btcDestination| != |short.btcDestination|;
    HigherFeeRanksFirst(long, short);
    PackableKeepsFirst(Ranked([long, short]));
    NothingSelectedExactlyWhen(h, [long, short], height);
    ShortRequestsAreSelected(h, [short], height);
  }

  lemma {:induction false} PackableKeepsFirst(s: seq<AggregatedWithdrawal>)
    requires s != [] && Representable(s[0])
    ensures Packable(s) != [] && Packable(s)[0] == s[0]
  {
    PackablePrefix(s, 1);
    assert s[..1] == [s[0]] && [s[0]][..0] == [];
    assert Packable(s)[..1] == [s[0]];
  }

  /** When every pending script is short enough to fit a bundle alone, any pending request at all
      yields a bundle. */
  lemma {:induction false} ShortRequestsAreSelected(h: Hashes, p: seq<PendingWithdrawal>, height: u32)
    requires p != []
    requires forall i :: 0 <= i < |p| ==> |p[i].btcDestination| <= 99_874
    ensures Selected(h, p, height).Some? && Chosen(p) != []
  {
    RankedListsGroups(p);
    assert p[0].btcDestination in DestinationSet(p);
    var r := Ranked(p);
    assert r != [] && r[0].btcDestination in DestinationSet(p);
    PackableKeepsFirst(r);
    NothingSelectedExactlyWhen(h, p, height);
  }

  /** No pending script fits a bundle alone. */
  ghost predicate NoneFits(p: seq<PendingWithdrawal>) {
    forall d :: d in DestinationSet(p) ==> |d| > 99_874
  }

  /** The documented promise, that nothing is selected only when no request is pending or none fits,
      is kept exactly when none fits or the first candidate does. */
  lemma {:induction false} PromiseKeptExactly(h: Hashes, p: seq<PendingWithdrawal>, height: u32)
    ensures
      var candidates := Packable(Ranked(p));
      (Selected(h, p, height).None? <==> NoneFits(p))
      <==> NoneFits(p) || (candidates != [] && |candidates[0].btcDestination| <= 99_874)
  {
    hide Selected, Ranked, Packable, DestinationSet, GroupOf;
    var candidates := Packable(Ranked(p));
    NothingSelectedExactlyWhen(h, p, height);
    if candidates != [] {
      CandidatesAre(p, candidates[0]);
    }
    forall d | d in DestinationSet(p) && |d| <= 99_874 ensures candidates != [] {
      GroupIsTo(p, d);
      CandidatesAre(p, GroupOf(p, d));
    }
  }

  lemma {:induction false} GroupIsTo(p: seq<PendingWithdrawal>, d: Script)
    ensures GroupOf(p, d).btcDestination == d
  {
  }

  lemma {:induction false} OutputIsPart(outs: seq<TxOut>, k: nat)
    requires k < |outs|
    ensures |SerializeOutputs(outs)| >= |SerializeTxOut(outs[k])|
  {
    hide SerializeTxOut;
    if k > 0 {
      OutputIsPart(outs[1..], k - 1);
    }
  }

  /** A script too long to fit a bundle alone is never paid, whatever is pending beside it. */
  lemma {:induction false} LongIsNeverPaid(p: seq<PendingWithdrawal>, d: Script)
    requires |d| > 99_874
    ensures d !in Paid(p)
  {
    var chosen := Chosen(p);
    LongestFitIsThreshold(Packable(Ranked(p)), |chosen|);
    hide Chosen, Packable, Ranked, SerializeOutputs;
    assert Fits(Payouts(chosen));
    forall i | 0 <= i < |chosen| ensures chosen[i].btcDestination != d {
      OutputIsPart(Payouts(chosen), i);
    }
  }

  /** The candidates are the groups of exactly those destinations whose output 32 bits can size. */
  lemma {:induction false} CandidatesAre(p: seq<PendingWithdrawal>, x: AggregatedWithdrawal)
    ensures x in Packable(Ranked(p))
       <==> x.btcDestination in DestinationSet(p) && x == GroupOf(p, x.btcDestination)
            && 8 + CompactSizeLen(|x.btcDestination|) + |x.btcDestination| <= U32_MAX
  {
    hide Ranked, GroupOf, DestinationSet, Packable;
    RankedListsGroups(p);
    PackableMembers(Ranked(p), x);
  }

  lemma {:induction false} PackableMembers(s: seq<AggregatedWithdrawal>, x: AggregatedWithdrawal)
    ensures x in Packable(s) <==> x in s && Representable(x)
  {
    if s != [] {
      PackableMembers(s[..|s| - 1], x);
      assert s == s[..|s| - 1] + [s[|s| - 1]];
    }
  }

  /** No candidate left for a later bundle offers a higher fee than one that was taken, nor the
      same fee and a higher value, nor the same of both and a greater script. */
  lemma {:induction false} TakenOutrankLeft(p: seq<PendingWithdrawal>, i: nat, j: nat)
    requires i < |Chosen(p)| <= j < |Packable(Ranked(p))|
    ensures
      var taken, left := Chosen(p)[i], Packable(Ranked(p))[j];
      && taken.mainFeeSats >= left.mainFeeSats
      && (taken.mainFeeSats == left.mainFeeSats ==> taken.valueSats >= left.valueSats)
      && (taken.mainFeeSats == left.mainFeeSats && taken.valueSats == left.valueSats
          ==> exists k: nat :: SmallerAt(left.btcDestination, taken.btcDestination, k))
  {
    RankedListsGroups(p);
    PackableRanked(Ranked(p));
    var taken, left := Packable(Ranked(p))[i], Packable(Ranked(p))[j];
    assert Before(RankOf(taken), RankOf(left));
    LexLessExactly(left.btcDestination, taken.btcDestination);
  }

  lemma {:induction false} PackableRanked(s: seq<AggregatedWithdrawal>)
    requires StrictlyRanked(s)
    ensures StrictlyRanked(Packable(s))
  {
    if s != [] {
      hide Before, RankOf, Representable;
      var n := |s| - 1;
      PackableRanked(s[..n]);
      forall i | 0 <= i < |Packable(s[..n])| ensures Before(RankOf(Packable(s[..n])[i]), RankOf(s[n])) {
        PackableMembers(s[..n], Packable(s[..n])[i]);
        var k :| 0 <= k < n && s[..n][k] == Packable(s[..n])[i];
        assert Before(RankOf(s[k]), RankOf(s[n]));
      }
    }
  }

  // ----- The bundle pays what it consumes -----

  ghost function Paid(p: seq<PendingWithdrawal>): set<Script> {
    DestinationsOf(Chosen(p))
  }

  ghost function DestinationsOf(s: seq<AggregatedWithdrawal>): set<Script> {
    set i | 0 <= i < |s| :: s[i].btcDestination
  }

  /** No amount saturates. */
  ghost predicate TotalsFit(p: seq<PendingWithdrawal>) {
    SumIn(p, DestinationSet(p), ValueOf) <= U64_MAX && SumIn(p, DestinationSet(p), FeeOf) <= U64_MAX
  }

  /** No destination in `d` is owed more than 64 bits can say. */
  ghost predicate NoValueSaturates(p: seq<PendingWithdrawal>, d: set<Script>) {
    forall x :: x in d ==> SumIn(p, {x}, ValueOf) <= U64_MAX
  }

  lemma {:induction false} GroupTotals(p: seq<PendingWithdrawal>, s: seq<AggregatedWithdrawal>)
    requires DistinctDestinations(s)
    requires forall i :: 0 <= i < |s| ==> s[i] == GroupOf(p, s[i].btcDestination)
    ensures TotalValue(s) <= SumIn(p, DestinationsOf(s), ValueOf)
    ensures TotalValue(s) == SumIn(p, DestinationsOf(s), ValueOf) <==> NoValueSaturates(p, DestinationsOf(s))
    ensures Min(TotalFee(s), U64_MAX) == Min(SumIn(p, DestinationsOf(s), FeeOf), U64_MAX)
  {
    if s == [] {
      assert DestinationsOf(s) == {};
      NothingIn(p);
    } else {
      hide SumIn;
      var n := |s| - 1;
      var d := s[n].btcDestination;
      GroupTotals(p, s[..n]);
      assert DestinationsOf(s) == DestinationsOf(s[..n]) + {d};
      SumSplit(p, DestinationsOf(s[..n]), {d}, ValueOf);
      SumSplit(p, DestinationsOf(s[..n]), {d}, FeeOf);
      assert NoValueSaturates(p, DestinationsOf(s))
        <==> NoValueSaturates(p, DestinationsOf(s[..n])) && SumIn(p, {d}, ValueOf) <= U64_MAX;
    }
  }

  /** When all pending amounts fit together, so does each destination's share. */
  lemma {:induction false} TotalsFitAll(p: seq<PendingWithdrawal>, d: set<Script>)
    requires TotalsFit(p) && d <= DestinationSet(p)
    ensures NoValueSaturates(p, d) && SumIn(p, d, FeeOf) <= U64_MAX
  {
    SumMonotone(p, d, DestinationSet(p), FeeOf);
    forall x | x in d ensures SumIn(p, {x}, ValueOf) <= U64_MAX {
      SumMonotone(p, {x}, DestinationSet(p), ValueOf);
    }
  }

  lemma {:induction false} GroupIndices(p: seq<PendingWithdrawal>, s: seq<AggregatedWithdrawal>)
    requires DistinctDestinations(s)
    requires forall i :: 0 <= i < |s| ==> s[i] == GroupOf(p, s[i].btcDestination)
    ensures multiset(AllIndices(s)) == multiset(IndicesIn(p, DestinationsOf(s)))
  {
    if s == [] {
      assert DestinationsOf(s) == {};
      NothingIn(p);
    } else {
      var n := |s| - 1;
      GroupIndices(p, s[..n]);
      assert DestinationsOf(s) == DestinationsOf(s[..n]) + {s[n].btcDestination};
      IndicesSplit(p, DestinationsOf(s[..n]), {s[n].btcDestination});
    }
  }

  lemma {:induction false} NothingIn(p: seq<PendingWithdrawal>)
    ensures SumIn(p, {}, ValueOf) == 0 && SumIn(p, {}, FeeOf) == 0 && IndicesIn(p, {}) == []
  {
    if p != [] {
      NothingIn(p[..|p| - 1]);
    }
  }

  lemma {:induction false} IndicesSplit(p: seq<PendingWithdrawal>, a: set<Script>, b: set<Script>)
    requires a !! b
    ensures multiset(IndicesIn(p, a + b)) == multiset(IndicesIn(p, a)) + multiset(IndicesIn(p, b))
  {
    if p != [] {
      IndicesSplit(p[..|p| - 1], a, b);
    }
  }

  lemma {:induction false} ChosenAreGroups(p: seq<PendingWithdrawal>)
    ensures DistinctDestinations(Chosen(p))
    ensures forall i :: 0 <= i < |Chosen(p)| ==> Chosen(p)[i].btcDestination in DestinationSet(p)
    ensures forall i :: 0 <= i < |Chosen(p)| ==> Chosen(p)[i] == GroupOf(p, Chosen(p)[i].btcDestination)
  {
    RankedListsGroups(p);
    PackableSubsequence(Ranked(p));
  }

  lemma {:induction false} PackableSubsequence(s: seq<AggregatedWithdrawal>)
    requires DistinctDestinations(s)
    ensures DistinctDestinations(Packable(s))
    ensures forall i :: 0 <= i < |Packable(s)| ==> Packable(s)[i] in s
  {
    if s != [] {
      var n := |s| - 1;
      PackableSubsequence(s[..n]);
      forall i | 0 <= i < |Packable(s[..n])| ensures Packable(s[..n])[i].btcDestination != s[n].btcDestination {
        assert Packable(s[..n])[i] in s[..n];
      }
    }
  }

  /** The total of `amount` over the requests with an index in `ids`. */
  ghost function SumOver(p: seq<PendingWithdrawal>, ids: seq<u64>, amount: PendingWithdrawal -> nat): nat {
    if p == [] then 0 else
      var last := p[|p| - 1];
      SumOver(p[..|p| - 1], ids, amount) + if last.index in ids then amount(last) else 0
  }

  function OutputSum(outs: seq<TxOut>): nat {
    if outs == [] then 0 else OutputSum(outs[..|outs| - 1]) + outs[|outs| - 1].value
  }

  lemma {:induction false} SumOverConsumed(p: seq<PendingWithdrawal>, ids: seq<u64>, d: set<Script>,
                                           amount: PendingWithdrawal -> nat)
    requires forall i :: 0 <= i < |p| ==> (p[i].index in ids <==> p[i].btcDestination in d)
    ensures SumOver(p, ids, amount) == SumIn(p, d, amount)
  {
    if p != [] {
      var n := |p| - 1;
      assert p[n].index in ids <==> p[n].btcDestination in d;
      forall i | 0 <= i < n ensures p[..n][i].index in ids <==> p[..n][i].btcDestination in d {
        assert p[i].index in ids <==> p[i].btcDestination in d;
      }
      SumOverConsumed(p[..n], ids, d, amount);
    }
  }

  lemma {:induction false} PayoutsSum(s: seq<AggregatedWithdrawal>)
    ensures OutputSum(Payouts(s)) == TotalValue(s)
  {
    if s != [] {
      PayoutsSum(s[..|s| - 1]);
      assert Payouts(s)[..|s| - 1] == Payouts(s[..|s| - 1]);
    }
  }

  lemma {:induction false} ConsumedIndices(h: Hashes, p: seq<PendingWithdrawal>, height: u32)
    requires Selected(h, p, height).Some?
    ensures
      var ids := Selected(h, p, height).value.requestIndices;
      && Ascending(ids) && multiset(ids) == multiset(IndicesIn(p, Paid(p)))
      && Paid(p) != {} && Paid(p) <= DestinationSet(p)
  {
    ChosenAreGroups(p);
    GroupIndices(p, Chosen(p));
    SortIndicesAscending(AllIndices(Chosen(p)));
    assert Chosen(p)[0].btcDestination in Paid(p);
  }

  /** The indices listed, in ascending order, are those of the requests to paid destinations: each
      destination's requests go in all together or not at all, and each once. */
  lemma {:induction false} ConsumesWholeDestinations(h: Hashes, p: seq<PendingWithdrawal>, height: u32)
    requires Selected(h, p, height).Some?
    ensures
      var ids := Selected(h, p, height).value.requestIndices;
      && ids != [] && Ascending(ids) && multiset(ids) == multiset(IndicesIn(p, Paid(p)))
      && (forall i :: 0 <= i < |p| && p[i].btcDestination in Paid(p) ==> p[i].index in ids)
      && (forall x :: x in ids ==> exists i :: 0 <= i < |p| && p[i].index == x && p[i].btcDestination in Paid(p))
    ensures DistinctIndices(p) ==>
      var ids := Selected(h, p, height).value.requestIndices;
      && (forall i :: 0 <= i < |p| ==> (p[i].index in ids <==> p[i].btcDestination in Paid(p)))
      && (forall i, j :: 0 <= i < j < |ids| ==> ids[i] < ids[j])
  {
    hide Selected, IndicesIn, Chosen, DestinationsOf;
    var d, ids := Paid(p), Selected(h, p, height).value.requestIndices;
    ConsumedIndices(h, p, height);
    IndicesInMembers(p, d);
    SameMembers(ids, IndicesIn(p, d));
    if DistinctIndices(p) {
      IndicesInDistinct(p, d);
      AscendingDistinct(ids, IndicesIn(p, d));
    }
    var e :| e in d;
    var i :| 0 <= i < |p| && p[i].btcDestination == e;
    assert p[i].index in IndicesIn(p, d);
  }

  /** A bundle consumes at least one request. */
  lemma {:induction false} BundleNotEmpty(h: Hashes, p: seq<PendingWithdrawal>, height: u32)
    requires Selected(h, p, height).Some?
    ensures Selected(h, p, height).value.requestIndices != []
  {
    hide Selected, Paid, IndicesIn, Ascending;
    ConsumedIndices(h, p, height);
    IndicesInMembers(p, Paid(p));
    var e :| e in Paid(p);
    var i :| 0 <= i < |p| && p[i].btcDestination == e;
    assert p[i].index in IndicesIn(p, Paid(p));
    assert |multiset(IndicesIn(p, Paid(p)))| > 0;
  }

  lemma {:induction false} SameMembers(a: seq<u64>, b: seq<u64>)
    requires multiset(a) == multiset(b)
    ensures forall x :: x in a <==> x in b
  {
    forall x ensures x in a <==> x in b {
      assert x in multiset(a) <==> x in multiset(b);
    }
  }

  lemma {:induction false} AscendingDistinct(ids: seq<u64>, listed: seq<u64>)
    requires Ascending(ids) && multiset(ids) == multiset(listed)
    requires forall i, j :: 0 <= i < j < |listed| ==> listed[i] != listed[j]
    ensures forall i, j :: 0 <= i < j < |ids| ==> ids[i] < ids[j]
  {
    forall i, j | 0 <= i < j < |ids| ensures ids[i] < ids[j] {
      if ids[i] == ids[j] {
        TwiceIn(ids, i, j);
        OnceIn(listed, ids[i]);
      }
    }
  }

  lemma {:induction false} TwiceIn(s: seq<u64>, i: nat, j: nat)
    requires i < j < |s| && s[i] == s[j]
    ensures multiset(s)[s[i]] >= 2
  {
    assert s == s[..j] + [s[j]] + s[j + 1..];
    assert s[..j][i] == s[i];
    assert multiset(s) == multiset(s[..j]) + multiset{s[j]} + multiset(s[j + 1..]);
    assert s[i] in multiset(s[..j]);
  }

  lemma {:induction false} OnceIn(s: seq<u64>, x: u64)
    requires forall i, j :: 0 <= i < j < |s| ==> s[i] != s[j]
    ensures multiset(s)[x] <= 1
  {
    if s != [] {
      OnceIn(s[1..], x);
      assert s == [s[0]] + s[1..];
      assert multiset(s) == multiset{s[0]} + multiset(s[1..]);
      if s[0] == x {
        assert x !in s[1..];
      }
    }
  }

  lemma {:induction false} OutputsAdd(a: seq<TxOut>, b: seq<TxOut>)
    ensures OutputSum(a + b) == OutputSum(a) + OutputSum(b)
  {
    if b == [] {
      assert a + b == a;
    } else {
      OutputsAdd(a, b[..|b| - 1]);
      assert (a + b)[..|a + b| - 1] == a + b[..|b| - 1];
    }
  }

  lemma {:induction false} TwoOutputs(a: TxOut, b: TxOut)
    ensures OutputSum([a, b]) == a.value + b.value
  {
    assert [a, b][..1] == [a] && [a][..0] == [];
    assert OutputSum([a]) == a.value;
  }

  lemma {:induction false} OutputSumIs(h: Hashes, p: seq<PendingWithdrawal>, height: u32)
    requires Selected(h, p, height).Some?
    ensures
      var outputs := Selected(h, p, height).value.tx.outputs;
      && |outputs| > 2 && outputs[0] == FeeTxOut(Min(TotalFee(Chosen(p)), U64_MAX))
      && OutputSum(outputs) == TotalValue(Chosen(p))
  {
    hide SortIndices, AllIndices, Chosen, CommitmentPreimage, BigEndian;
    var outputs := Selected(h, p, height).value.tx.outputs;
    var fixed := [outputs[0], outputs[1]];
    assert outputs == fixed + Payouts(Chosen(p));
    OutputsAdd(fixed, Payouts(Chosen(p)));
    TwoOutputs(outputs[0], outputs[1]);
    PayoutsSum(Chosen(p));
  }

  /** The outputs never add up to more than the paid destinations are owed, and to just that exactly
      when no destination's total saturates; the committed fee is the total of their fees as far as
      64 bits can say. When all pending amounts fit, the outputs add up to the values of exactly the
      requests consumed, and the committed fee to their fees. */
  lemma {:induction false} BundlePaysWhatItConsumes(h: Hashes, p: seq<PendingWithdrawal>, height: u32)
    requires Selected(h, p, height).Some?
    ensures
      var b := Selected(h, p, height).value;
      && |b.tx.outputs| > 2
      && OutputSum(b.tx.outputs) <= SumIn(p, Paid(p), ValueOf)
      && (OutputSum(b.tx.outputs) == SumIn(p, Paid(p), ValueOf) <==> NoValueSaturates(p, Paid(p)))
      && b.tx.outputs[0] == FeeTxOut(Min(SumIn(p, Paid(p), FeeOf), U64_MAX))
    ensures TotalsFit(p) && DistinctIndices(p) ==>
      var b := Selected(h, p, height).value;
      && OutputSum(b.tx.outputs) == SumOver(p, b.requestIndices, ValueOf)
      && SumOver(p, b.requestIndices, FeeOf) <= U64_MAX
      && b.tx.outputs[0] == FeeTxOut(SumOver(p, b.requestIndices, FeeOf))
  {
    hide Selected, SumOver, SumIn, OutputSum, GroupOf, TotalsFit, DistinctIndices, NoValueSaturates, FeeTxOut;
    var b := Selected(h, p, height).value;
    OutputSumIs(h, p, height);
    ChosenAreGroups(p);
    GroupTotals(p, Chosen(p));
    assert Paid(p) <= DestinationSet(p);
    if TotalsFit(p) && DistinctIndices(p) {
      TotalsFitAll(p, Paid(p));
      ConsumesWholeDestinations(h, p, height);
      SumOverConsumed(p, b.requestIndices, Paid(p), ValueOf);
      SumOverConsumed(p, b.requestIndices, Paid(p), FeeOf);
    }
  }

  /** Some payout of the transaction goes to `d`. */
  ghost predicate PaysTo(tx: Transaction, d: Script) {
    exists k :: 2 <= k < |tx.outputs| && tx.outputs[k].scriptPubkey == d
  }

  /** Each payout is worth what all pending requests to its script asked for, as far as 64 bits can
      say; no script is paid twice, and the requests consumed are those to the scripts paid. */
  lemma {:induction false} PaysEachDestinationItsRequests(h: Hashes, p: seq<PendingWithdrawal>, height: u32)
    requires Selected(h, p, height).Some?
    ensures
      var b := Selected(h, p, height).value;
      && (forall k :: 2 <= k < |b.tx.outputs|
                 ==> b.tx.outputs[k].value == Min(SumIn(p, {b.tx.outputs[k].scriptPubkey}, ValueOf), U64_MAX))
      && (forall j, k :: 2 <= j < k < |b.tx.outputs|
                    ==> b.tx.outputs[j].scriptPubkey != b.tx.outputs[k].scriptPubkey)
      && (forall d :: PaysTo(b.tx, d) <==> d in Paid(p))
    ensures TotalsFit(p) ==>
      forall k :: 2 <= k < |Selected(h, p, height).value.tx.outputs| ==>
        var o := Selected(h, p, height).value.tx.outputs[k]; o.value == SumIn(p, {o.scriptPubkey}, ValueOf)
  {
    hide Selected, Chosen, SumIn, DestinationSet, TotalsFit;
    var chosen, b := Chosen(p), Selected(h, p, height).value;
    ChosenAreGroups(p);
    OutputsAre(h, p, height);
    forall k | 2 <= k < |b.tx.outputs|
      ensures b.tx.outputs[k].value == Min(SumIn(p, {b.tx.outputs[k].scriptPubkey}, ValueOf), U64_MAX)
      ensures TotalsFit(p) ==> SumIn(p, {b.tx.outputs[k].scriptPubkey}, ValueOf) <= U64_MAX
    {
      assert chosen[k - 2] == GroupOf(p, chosen[k - 2].btcDestination);
      if TotalsFit(p) {
        TotalsFitAll(p, {chosen[k - 2].btcDestination});
      }
    }
    forall d ensures PaysTo(b.tx, d) <==> d in Paid(p) {
      if d in Paid(p) {
        var i :| 0 <= i < |chosen| && chosen[i].btcDestination == d;
        assert b.tx.outputs[i + 2].scriptPubkey == d;
      }
    }
  }

  /** What the requests to `d` offer in fees, as far as 64 bits can say. */
  ghost function FeeFor(p: seq<PendingWithdrawal>, d: Script): nat {
    Min(SumIn(p, {d}, FeeOf), U64_MAX)
  }

  /** Output `a` pays a destination with a higher fee than output `b`; or with the same fee and more
      sats; or with the same of both and, at the first place where they differ, the greater script. */
  ghost predicate Outranks(p: seq<PendingWithdrawal>, a: TxOut, b: TxOut) {
    || FeeFor(p, a.scriptPubkey) > FeeFor(p, b.scriptPubkey)
    || (&& FeeFor(p, a.scriptPubkey) == FeeFor(p, b.scriptPubkey)
        && (|| a.value > b.value
            || (a.value == b.value && exists k: nat :: SmallerAt(b.scriptPubkey, a.scriptPubkey, k))))
  }

  /** A bundle makes its payouts in the order of their ranks. */
  lemma {:induction false} PayoutsDescend(h: Hashes, p: seq<PendingWithdrawal>, height: u32, j: nat, k: nat)
    requires Selected(h, p, height).Some? && 2 <= j < k < |Selected(h, p, height).value.tx.outputs|
    ensures Outranks(p, Selected(h, p, height).value.tx.outputs[j], Selected(h, p, height).value.tx.outputs[k])
  {
    hide Selected, SumIn, SmallerAt, LexLess, Packable, Ranked;
    OutputsAre(h, p, height);
    ChosenAreGroups(p);
    RankedListsGroups(p);
    PackableRanked(Ranked(p));
    var a, b := Chosen(p)[j - 2], Chosen(p)[k - 2];
    assert a == GroupOf(p, a.btcDestination) && b == GroupOf(p, b.btcDestination);
    assert Before(RankOf(a), RankOf(b));
    LexLessExactly(b.btcDestination, a.btcDestination);
  }

  lemma {:induction false} OutputsAre(h: Hashes, p: seq<PendingWithdrawal>, height: u32)
    requires Selected(h, p, height).Some?
    ensures
      var outputs := Selected(h, p, height).value.tx.outputs;
      && |outputs| == |Chosen(p)| + 2
      && (forall k :: 2 <= k < |outputs|
                 ==> outputs[k] == TxOut(Chosen(p)[k - 2].valueSats, Chosen(p)[k - 2].btcDestination))
  {
    hide SortIndices, AllIndices, TotalFee, Chosen, CommitmentPreimage, BigEndian;
    var outputs := Selected(h, p, height).value.tx.outputs;
    assert outputs == [outputs[0], outputs[1]] + Payouts(Chosen(p));
  }
}
