// The bundle selector: group the pending requests by destination, rank the groups, and pay as
// many of them, from the top, as one standard transaction can hold.

module Selection {
  import opened ByteCodec
  import opened M6
  import opened Ranking
  import opened Aggregation

  // ----- What is selected -----

  /** The size of the output paying to `spk`, when 32 bits can express it. */
  function SpkTxOutSize(spk: Script): Option<u32> {
    if |spk| <= U32_MAX then TxOutSize(|spk|) else None
  }

  /** The others are skipped: the source calls them invalid. */
  predicate Representable(a: AggregatedWithdrawal) {
    SpkTxOutSize(a.btcDestination).Some?
  }

  /** The three checks before an output is taken: the outputs can be counted in 32 bits, so can
      their bytes, and the transaction stays standard. The new byte count if they pass. */
  function GrownSize(outputCount: nat, txOutsSize: u32, txOutSize: u32): Option<u32> {
    if outputCount + 1 > U32_MAX then None else
      var sum :- CheckedAdd(txOutsSize, txOutSize);
      if PredictWeight(outputCount + 1, sum).None? then None else Some(sum)
  }

  function Packable(s: seq<AggregatedWithdrawal>): (r: seq<AggregatedWithdrawal>)
    ensures |r| <= |s|
  {
    if s == [] then [] else
      var last := s[|s| - 1];
      Packable(s[..|s| - 1]) + if Representable(last) then [last] else []
  }

  function Payouts(s: seq<AggregatedWithdrawal>): (outs: seq<TxOut>)
    ensures |outs| == |s|
    ensures forall i :: 0 <= i < |s| ==> outs[i] == TxOut(s[i].valueSats, s[i].btcDestination)
  {
    seq(|s|, i requires 0 <= i < |s| => TxOut(s[i].valueSats, s[i].btcDestination))
  }

  /** The payouts leave room in a standard transaction; `FitsMeansStandard` says so in terms of
      the transaction's weight. */
  predicate Fits(payouts: seq<TxOut>) {
    CompactSizeLen(|payouts| + 2) + |SerializeOutputs(payouts)| <= 99_888
  }

  /** The length of the longest prefix, from `k` on, whose payouts fit. */
  function LongestFit(s: seq<AggregatedWithdrawal>, k: nat): (n: nat)
    requires k <= |s|
    ensures k <= n <= |s|
    decreases |s| - k
  {
    if k < |s| && Fits(Payouts(s[..k + 1])) then LongestFit(s, k + 1) else k
  }

  function AllIndices(s: seq<AggregatedWithdrawal>): seq<u64> {
    if s == [] then [] else AllIndices(s[..|s| - 1]) + s[|s| - 1].requestIndices
  }

  function TotalFee(s: seq<AggregatedWithdrawal>): nat {
    if s == [] then 0 else TotalFee(s[..|s| - 1]) + s[|s| - 1].mainFeeSats
  }

  function TotalValue(s: seq<AggregatedWithdrawal>): nat {
    if s == [] then 0 else TotalValue(s[..|s| - 1]) + s[|s| - 1].valueSats
  }

  /** The destinations the bundle pays. */
  ghost function Chosen(p: seq<PendingWithdrawal>): seq<AggregatedWithdrawal> {
    var candidates := Packable(Ranked(p));
    candidates[..LongestFit(candidates, 0)]
  }

  ghost function Selected(h: Hashes, p: seq<PendingWithdrawal>, height: u32): Option<WithdrawalBundle> {
    var chosen := Chosen(p);
    if chosen == [] then None
    else Some(BuildWithdrawalBundle(h, height, Min(TotalFee(chosen), U64_MAX),
                                    SortIndices(AllIndices(chosen)), Payouts(chosen)))
  }

  // ----- Fitting is monotone -----

  /** Payouts fit exactly when the M6 that makes them is a standard transaction once its
      treasury input is attached, whatever it commits to and spends. */
  lemma {:induction false} FitsMeansStandard(payouts: seq<TxOut>, commitment: U256, fee: u64,
                                             outpoint: Bytes, sequence: u32)
    requires |outpoint| == 36
    ensures Fits(payouts)
       <==> Weight(TreasurySpend(BundleTx(commitment, fee, payouts), outpoint, sequence)) <= MAX_STANDARD_WEIGHT
  {
    TreasurySpendSize(commitment, fee, payouts, outpoint, sequence);
  }

  /** A shorter prefix of payouts fits whenever a longer one does. */
  lemma {:induction false} FitsMonotone(payouts: seq<TxOut>, k: nat)
    requires k <= |payouts| && Fits(payouts)
    ensures Fits(payouts[..k])
  {
    SerializeOutputsConcat(payouts[..k], payouts[k..]);
    assert payouts == payouts[..k] + payouts[k..];
  }

  lemma {:induction false} NoPayoutsFit()
    ensures Fits([])
  {
  }

  lemma {:induction false} LongestFitReached(s: seq<AggregatedWithdrawal>, k: nat)
    requires k <= |s| && Fits(Payouts(s[..k]))
    ensures Fits(Payouts(s[..LongestFit(s, k)]))
    ensures LongestFit(s, k) < |s| ==> !Fits(Payouts(s[..LongestFit(s, k) + 1]))
    decreases |s| - k
  {
    if k < |s| && Fits(Payouts(s[..k + 1])) {
      LongestFitReached(s, k + 1);
    }
  }

  lemma {:induction false} ShorterPrefixFits(s: seq<AggregatedWithdrawal>, k: nat, n: nat)
    requires k <= n <= |s| && Fits(Payouts(s[..n]))
    ensures Fits(Payouts(s[..k]))
  {
    FitsMonotone(Payouts(s[..n]), k);
    assert Payouts(s[..n])[..k] == Payouts(s[..k]);
  }

  /** The packed prefix is exactly the longest one that fits: every prefix up to it fits too,
      and no longer one does. */
  lemma {:induction false} LongestFitIsThreshold(s: seq<AggregatedWithdrawal>, k: nat)
    requires k <= |s|
    ensures Fits(Payouts(s[..k])) <==> k <= LongestFit(s, 0)
  {
    var n := LongestFit(s, 0);
    assert Payouts(s[..0]) == [];
    NoPayoutsFit();
    LongestFitReached(s, 0);
    if k <= n {
      ShorterPrefixFits(s, k, n);
    } else if Fits(Payouts(s[..k])) {
      ShorterPrefixFits(s, n + 1, k);
    }
  }

  lemma {:induction false} PackablePrefix(s: seq<AggregatedWithdrawal>, j: nat)
    requires j <= |s|
    ensures |Packable(s[..j])| <= |Packable(s)|
    ensures Packable(s)[..|Packable(s[..j])|] == Packable(s[..j])
  {
    if j == |s| {
      assert s[..j] == s;
    } else {
      PackablePrefix(s[..|s| - 1], j);
      assert s[..|s| - 1][..j] == s[..j];
    }
  }

  // ----- The imperative selector -----

  lemma {:induction false} AbsentDestination(p: seq<PendingWithdrawal>, d: Script)
    requires d !in DestinationSet(p)
    ensures SumIn(p, {d}, ValueOf) == 0 && SumIn(p, {d}, FeeOf) == 0 && IndicesIn(p, {d}) == []
  {
    if p != [] {
      var n := |p| - 1;
      assert p[n].btcDestination in DestinationSet(p);
      forall x | x in DestinationSet(p[..n]) ensures x in DestinationSet(p) {
        var i :| 0 <= i < n && p[..n][i].btcDestination == x;
        assert p[i].btcDestination == x;
      }
      AbsentDestination(p[..n], d);
    }
  }

  /** One turn of the grouping loop: the request joins its own group, which may be new, and
      leaves the others alone. */
  lemma {:induction false} GroupOfExtend(p: seq<PendingWithdrawal>, x: PendingWithdrawal, d: Script)
    ensures DestinationSet(p + [x]) == DestinationSet(p) + {x.btcDestination}
    ensures
      var g := GroupOf(p, d);
      GroupOf(p + [x], d)
      == if d != x.btcDestination then g
         else AggregatedWithdrawal(d, SaturatingAdd(g.valueSats, x.valueSats),
                                   SaturatingAdd(g.mainFeeSats, x.mainFeeSats), g.requestIndices + [x.index])
  {
    var q := p + [x];
    assert q[..|q| - 1] == p;
    forall e ensures e in DestinationSet(q) <==> e in DestinationSet(p) + {x.btcDestination} {
      if e in DestinationSet(p) {
        var i :| 0 <= i < |p| && p[i].btcDestination == e;
        assert q[i].btcDestination == e;
      }
      assert q[|p|].btcDestination == x.btcDestination;
    }
  }

  method GroupByDestination(pending: seq<PendingWithdrawal>) returns (byDestination: map<Script, AggregatedWithdrawal>)
    ensures byDestination.Keys == DestinationSet(pending)
    ensures forall d :: d in byDestination ==> byDestination[d] == GroupOf(pending, d)
  {
    byDestination := map[];
    for j := 0 to |pending|
      invariant byDestination.Keys == DestinationSet(pending[..j])
      invariant forall d :: d in byDestination ==> byDestination[d] == GroupOf(pending[..j], d)
    {
      var request := pending[j];
      var d := request.btcDestination;
      ghost var before := byDestination;
      var aggregated := if d in byDestination then byDestination[d] else AggregatedWithdrawal(d, 0, 0, []);
      assert aggregated == GroupOf(pending[..j], d) by {
        if d !in byDestination {
          AbsentDestination(pending[..j], d);
        }
      }
      byDestination := byDestination[d := AggregatedWithdrawal(
        d, SaturatingAdd(aggregated.valueSats, request.valueSats),
        SaturatingAdd(aggregated.mainFeeSats, request.mainFeeSats), aggregated.requestIndices + [request.index])];
      assert pending[..j + 1] == pending[..j] + [request];
      GroupOfExtend(pending[..j], request, d);
      forall e | e in byDestination ensures byDestination[e] == GroupOf(pending[..j + 1], e) {
        GroupOfExtend(pending[..j], request, e);
      }
    }
    assert pending[..|pending|] == pending;
  }

  /** `HashMap::into_values`: the values in an order nobody controls. */
  method IntoValues(groups: map<Script, AggregatedWithdrawal>, ghost p: seq<PendingWithdrawal>)
    returns (values: seq<AggregatedWithdrawal>)
    requires groups.Keys == DestinationSet(p)
    requires forall d :: d in groups ==> groups[d] == GroupOf(p, d)
    ensures ListsGroups(values, p)
  {
    values := [];
    var remaining := groups.Keys;
    while remaining != {}
      invariant remaining <= groups.Keys
      invariant DistinctDestinations(values)
      invariant forall i :: 0 <= i < |values| ==>
        values[i].btcDestination in groups.Keys - remaining && values[i] == GroupOf(p, values[i].btcDestination)
      invariant forall d :: d in groups.Keys - remaining ==> GroupOf(p, d) in values
      decreases remaining
    {
      var d :| d in remaining;
      values := values + [groups[d]];
      remaining := remaining - {d};
    }
  }

  /** What the packing loop has accumulated once the destinations in `chosen` are in. */
  ghost predicate Packed(chosen: seq<AggregatedWithdrawal>, outputs: seq<TxOut>, txOutsSize: u32,
                         indices: seq<u64>, fee: u64) {
    && outputs == Payouts(chosen)
    && txOutsSize == |SerializeOutputs(outputs)|
    && indices == AllIndices(chosen)
    && fee == Min(TotalFee(chosen), U64_MAX)
  }

  /** The packing loop: what the first `LongestFit` candidates pay, consume and owe in fees. */
  method PackDestinations(aggregated: seq<AggregatedWithdrawal>)
    returns (bundleOutputs: seq<TxOut>, requestIndices: seq<u64>, totalMainFeeSats: u64)
    ensures
      var candidates := Packable(aggregated);
      var chosen := candidates[..LongestFit(candidates, 0)];
      && bundleOutputs == Payouts(chosen)
      && requestIndices == AllIndices(chosen)
      && totalMainFeeSats == Min(TotalFee(chosen), U64_MAX)
  {
    hide Packed, PrefixOfFit, Fits, GrownSize, TxOutSize, LongestFit;
    requestIndices, bundleOutputs, totalMainFeeSats := [], [], 0;
    var bundleTxOutsSize: u32 := 0;
    ghost var chosen: seq<AggregatedWithdrawal> := [];
    var j := 0;
    NoneChosen(aggregated);
    while j < |aggregated|
      invariant j <= |aggregated|
      invariant chosen == Packable(aggregated[..j]) && PrefixOfFit(chosen, aggregated)
      invariant Packed(chosen, bundleOutputs, bundleTxOutsSize, requestIndices, totalMainFeeSats)
    {
      var destination := aggregated[j];
      assert aggregated[..j + 1][..j] == aggregated[..j];
      j := j + 1;
      var thisTxOutSize := SpkTxOutSize(destination.btcDestination);
      if thisTxOutSize.None? {
        continue;
      }
      ghost var longer := chosen + [destination];
      PackStep(chosen, destination, bundleOutputs, bundleTxOutsSize, requestIndices, totalMainFeeSats);
      FitDecided(aggregated, j, longer);
      var sumTxOutSizes := GrownSize(|bundleOutputs|, bundleTxOutsSize, thisTxOutSize.value);
      if sumTxOutSizes.None? {
        break;
      }
      bundleTxOutsSize := sumTxOutSizes.value;
      bundleOutputs := bundleOutputs + [TxOut(destination.valueSats, destination.btcDestination)];
      requestIndices := requestIndices + destination.requestIndices;
      totalMainFeeSats := SaturatingAdd(totalMainFeeSats, destination.mainFeeSats);
      chosen := longer;
    }
    assert aggregated[..|aggregated|] == aggregated;
    AllChosen(aggregated, chosen, bundleOutputs, bundleTxOutsSize, requestIndices, totalMainFeeSats);
  }

  /** `chosen` is a prefix of the longest fit. */
  ghost predicate PrefixOfFit(chosen: seq<AggregatedWithdrawal>, aggregated: seq<AggregatedWithdrawal>) {
    var candidates := Packable(aggregated);
    |chosen| <= LongestFit(candidates, 0) && candidates[..|chosen|] == chosen
  }

  lemma {:induction false} NoneChosen(aggregated: seq<AggregatedWithdrawal>)
    ensures PrefixOfFit([], aggregated) && Packed([], [], 0, [], 0)
  {
  }

  lemma {:induction false} AllChosen(aggregated: seq<AggregatedWithdrawal>, chosen: seq<AggregatedWithdrawal>,
                                     outputs: seq<TxOut>, txOutsSize: u32, indices: seq<u64>, fee: u64)
    requires PrefixOfFit(chosen, aggregated) && Packed(chosen, outputs, txOutsSize, indices, fee)
    requires |chosen| == LongestFit(Packable(aggregated), 0) || chosen == Packable(aggregated)
    ensures
      var candidates := Packable(aggregated);
      var all := candidates[..LongestFit(candidates, 0)];
      outputs == Payouts(all) && indices == AllIndices(all) && fee == Min(TotalFee(all), U64_MAX)
  {
    assert chosen == Packable(aggregated)[..|chosen|];
  }

  /** Whether the destinations up to `j` fit together decides whether the longest fit has them. */
  lemma {:induction false} FitDecided(aggregated: seq<AggregatedWithdrawal>, j: nat, longer: seq<AggregatedWithdrawal>)
    requires j <= |aggregated| && longer == Packable(aggregated[..j]) && longer != []
    requires PrefixOfFit(longer[..|longer| - 1], aggregated)
    ensures Fits(Payouts(longer)) ==> PrefixOfFit(longer, aggregated)
    ensures !Fits(Payouts(longer)) ==> LongestFit(Packable(aggregated), 0) == |longer| - 1
  {
    PackablePrefix(aggregated, j);
    LongestFitIsThreshold(Packable(aggregated), |longer|);
  }

  /** One turn of the packing loop: the size checks pass exactly when the longer list of payouts
      fits, and the accumulators then extend to it. */
  lemma {:induction false} PackStep(chosen: seq<AggregatedWithdrawal>, d: AggregatedWithdrawal,
                                    outputs: seq<TxOut>, txOutsSize: u32, indices: seq<u64>, fee: u64)
    requires Packed(chosen, outputs, txOutsSize, indices, fee) && Representable(d)
    ensures
      var grown := GrownSize(|outputs|, txOutsSize, SpkTxOutSize(d.btcDestination).value);
      && (grown.Some? <==> Fits(Payouts(chosen + [d])))
      && (grown.Some?
          ==> Packed(chosen + [d], outputs + [TxOut(d.valueSats, d.btcDestination)], grown.value,
                     indices + d.requestIndices, SaturatingAdd(fee, d.mainFeeSats)))
  {
    var longer, o := chosen + [d], TxOut(d.valueSats, d.btcDestination);
    var size := txOutsSize + SpkTxOutSize(d.btcDestination).value;
    assert longer[..|chosen|] == chosen;
    assert Payouts(longer) == outputs + [o];
    PayoutAppended(outputs, o);
    OutputsAtLeastNineBytes(Payouts(longer));
    if |outputs| + 1 <= U32_MAX && size <= U32_MAX {
      PredictWeightReduction(|outputs| + 1, size);
    }
  }

  lemma {:induction false} PayoutAppended(outs: seq<TxOut>, o: TxOut)
    requires |o.scriptPubkey| <= U32_MAX && TxOutSize(|o.scriptPubkey|).Some?
    ensures |SerializeOutputs(outs + [o])| == |SerializeOutputs(outs)| + TxOutSize(|o.scriptPubkey|).value
  {
    SerializeOutputsConcat(outs, [o]);
    assert [o][1..] == [];
    TxOutSizeExact(o);
  }

  method SelectWithdrawalBundle(h: Hashes, pending: seq<PendingWithdrawal>, blockHeight: u32)
    returns (bundle: Option<WithdrawalBundle>)
    ensures bundle == Selected(h, pending, blockHeight)
  {
    if |pending| == 0 {
      return None;
    }
    var byDestination := GroupByDestination(pending);
    var values := IntoValues(byDestination, pending);
    var aggregated := SortRanked(values);
    AnyOrderGivesRanked(values, pending);
    var bundleOutputs, requestIndices, totalMainFeeSats := PackDestinations(aggregated);
    if |bundleOutputs| == 0 {
      return None;
    }
    return Some(BuildWithdrawalBundle(h, blockHeight, totalMainFeeSats, SortIndices(requestIndices), bundleOutputs));
  }
}
