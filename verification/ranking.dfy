// The total order in which destinations compete for a place in a bundle, and the two library
// sorts used on the way. Sorting by a strict total order has one possible result, which is what
// makes the selection independent of the order a hash map hands its values over.

module Ranking {
  import opened ByteCodec

  datatype AggregatedWithdrawal = AggregatedWithdrawal(
    btcDestination: Script, valueSats: u64, mainFeeSats: u64, requestIndices: seq<u64>)

  /** What the sort compares. */
  datatype Rank = Rank(mainFeeSats: u64, valueSats: u64, btcDestination: Script)

  function RankOf(a: AggregatedWithdrawal): Rank {
    Rank(a.mainFeeSats, a.valueSats, a.btcDestination)
  }

  /** Rust's `Ord` on byte vectors. */
  predicate LexLess(a: Bytes, b: Bytes) {
    b != [] && (a == [] || a[0] < b[0] || (a[0] == b[0] && LexLess(a[1..], b[1..])))
  }

  /** `a` and `b` agree up to byte `k`; there `a` ends, or has the smaller byte. */
  ghost predicate SmallerAt(a: Bytes, b: Bytes, k: nat) {
    k <= |a| && k < |b| && a[..k] == b[..k] && (k == |a| || a[k] < b[k])
  }

  /** One byte string is less than another exactly when it is at the first place where they differ. */
  lemma {:induction false} LexLessExactly(a: Bytes, b: Bytes)
    ensures LexLess(a, b) <==> exists k: nat :: SmallerAt(a, b, k)
  {
    if b == [] {
    } else if a == [] || a[0] != b[0] {
      assert SmallerAt(a, b, 0) <==> LexLess(a, b);
      assert forall k: nat :: SmallerAt(a, b, k) && k > 0 ==> a[..k][0] == b[..k][0];
    } else {
      LexLessExactly(a[1..], b[1..]);
      forall k: nat ensures SmallerAt(a, b, k + 1) <==> SmallerAt(a[1..], b[1..], k) {
        SmallerTail(a, b, k);
      }
      if LexLess(a, b) {
        var k: nat :| SmallerAt(a[1..], b[1..], k);
        assert SmallerAt(a, b, k + 1);
      }
      if k: nat :| SmallerAt(a, b, k) {
        assert k > 0;
        SmallerTail(a, b, k - 1);
      }
    }
  }

  lemma {:induction false} SmallerTail(a: Bytes, b: Bytes, k: nat)
    requires a != [] && b != [] && a[0] == b[0]
    ensures SmallerAt(a, b, k + 1) <==> SmallerAt(a[1..], b[1..], k)
  {
    if k + 1 <= |a| && k + 1 < |b| {
      assert a[..k + 1] == [a[0]] + a[1..][..k] && b[..k + 1] == [b[0]] + b[1..][..k];
      assert a[..k + 1] == b[..k + 1] ==> a[..k + 1][1..] == b[..k + 1][1..];
      assert a[..k + 1][1..] == a[1..][..k] && b[..k + 1][1..] == b[1..][..k];
    }
  }

  /** Highest fee first, then highest value, then the greatest destination. */
  predicate Before(a: Rank, b: Rank) {
    a.mainFeeSats > b.mainFeeSats
    || (a.mainFeeSats == b.mainFeeSats
        && (a.valueSats > b.valueSats
            || (a.valueSats == b.valueSats && LexLess(b.btcDestination, a.btcDestination))))
  }

  lemma {:induction false} LexIrreflexive(a: Bytes)
    ensures !LexLess(a, a)
  {
    if a != [] {
      LexIrreflexive(a[1..]);
    }
  }

  lemma {:induction false} LexTransitive(a: Bytes, b: Bytes, c: Bytes)
    requires LexLess(a, b) && LexLess(b, c)
    ensures LexLess(a, c)
  {
    if a != [] && a[0] == b[0] == c[0] {
      LexTransitive(a[1..], b[1..], c[1..]);
    }
  }

  lemma {:induction false} LexTotal(a: Bytes, b: Bytes)
    ensures LexLess(a, b) || a == b || LexLess(b, a)
  {
    if a != [] && b != [] && a[0] == b[0] {
      LexTotal(a[1..], b[1..]);
      assert a == [a[0]] + a[1..] && b == [b[0]] + b[1..];
    }
  }

  /** The comparison is a strict total order: it never calls two distinct destinations equal. */
  lemma {:induction false} BeforeIsStrictTotalOrder(a: Rank, b: Rank, c: Rank)
    ensures !Before(a, a)
    ensures Before(a, b) && Before(b, c) ==> Before(a, c)
    ensures Before(a, b) || a == b || Before(b, a)
  {
    LexIrreflexive(a.btcDestination);
    LexTotal(a.btcDestination, b.btcDestination);
    if LexLess(b.btcDestination, a.btcDestination) && LexLess(c.btcDestination, b.btcDestination) {
      LexTransitive(c.btcDestination, b.btcDestination, a.btcDestination);
    }
  }

  ghost predicate StrictlyRanked(s: seq<AggregatedWithdrawal>) {
    forall i, j :: 0 <= i < j < |s| ==> Before(RankOf(s[i]), RankOf(s[j]))
  }

  function InsertRanked(x: AggregatedWithdrawal, s: seq<AggregatedWithdrawal>): (r: seq<AggregatedWithdrawal>)
    ensures multiset(r) == multiset(s) + multiset{x}
  {
    if s == [] then [x]
    else if Before(RankOf(x), RankOf(s[0])) then [x] + s
    else
      assert s == [s[0]] + s[1..];
      [s[0]] + InsertRanked(x, s[1..])
  }

  /** The library's `sort_by` on the order above. */
  function SortRanked(s: seq<AggregatedWithdrawal>): (r: seq<AggregatedWithdrawal>)
    ensures multiset(r) == multiset(s)
  {
    if s == [] then [] else
      assert s == [s[0]] + s[1..];
      InsertRanked(s[0], SortRanked(s[1..]))
  }

  ghost predicate DistinctDestinations(s: seq<AggregatedWithdrawal>) {
    forall i, j :: 0 <= i < j < |s| ==> s[i].btcDestination != s[j].btcDestination
  }

  lemma {:induction false} InsertKeepsRanked(x: AggregatedWithdrawal, s: seq<AggregatedWithdrawal>)
    requires StrictlyRanked(s)
    requires forall y :: y in s ==> y.btcDestination != x.btcDestination
    ensures StrictlyRanked(InsertRanked(x, s))
  {
    if s != [] {
      BeforeIsStrictTotalOrder(RankOf(x), RankOf(s[0]), RankOf(s[0]));
      if Before(RankOf(x), RankOf(s[0])) {
        forall j | 0 <= j < |s| ensures Before(RankOf(x), RankOf(s[j])) {
          BeforeIsStrictTotalOrder(RankOf(x), RankOf(s[0]), RankOf(s[j]));
        }
      } else {
        InsertKeepsRanked(x, s[1..]);
        var rest := InsertRanked(x, s[1..]);
        forall j | 0 <= j < |rest| ensures Before(RankOf(s[0]), RankOf(rest[j])) {
          assert rest[j] in multiset(rest);
          assert rest[j] == x || rest[j] in s[1..];
        }
      }
    }
  }

  lemma {:induction false} SortRankedIsRanked(s: seq<AggregatedWithdrawal>)
    requires DistinctDestinations(s)
    ensures StrictlyRanked(SortRanked(s))
  {
    if s != [] {
      SortRankedIsRanked(s[1..]);
      forall y | y in SortRanked(s[1..]) ensures y.btcDestination != s[0].btcDestination {
        assert y in multiset(s[1..]);
      }
      InsertKeepsRanked(s[0], SortRanked(s[1..]));
    }
  }

  ghost predicate Listed(r: Rank, s: seq<AggregatedWithdrawal>) {
    exists j :: 0 <= j < |s| && RankOf(s[j]) == r
  }

  /** A set of ranks can be listed in only one strictly ranked way. */
  lemma {:induction false} RankingUnique(a: seq<AggregatedWithdrawal>, b: seq<AggregatedWithdrawal>)
    requires StrictlyRanked(a) && StrictlyRanked(b)
    requires forall i :: 0 <= i < |a| ==> Listed(RankOf(a[i]), b)
    requires forall j :: 0 <= j < |b| ==> Listed(RankOf(b[j]), a)
    ensures |a| == |b|
    ensures forall i :: 0 <= i < |a| ==> RankOf(a[i]) == RankOf(b[i])
  {
    hide Before, RankOf;
    if a == [] {
      assert b == [] || Listed(RankOf(b[0]), a);
    } else {
      assert Listed(RankOf(a[0]), b);
      FirstsAgree(a, b);
      TailsListed(a, b);
      TailsListed(b, a);
      RankingUnique(a[1..], b[1..]);
      assert a == [a[0]] + a[1..] && b == [b[0]] + b[1..];
    }
  }

  lemma {:induction false} FirstsAgree(a: seq<AggregatedWithdrawal>, b: seq<AggregatedWithdrawal>)
    requires a != [] && b != [] && StrictlyRanked(a) && StrictlyRanked(b)
    requires Listed(RankOf(a[0]), b) && Listed(RankOf(b[0]), a)
    ensures RankOf(a[0]) == RankOf(b[0])
  {
    var j :| 0 <= j < |b| && RankOf(b[j]) == RankOf(a[0]);
    var i :| 0 <= i < |a| && RankOf(a[i]) == RankOf(b[0]);
    if i != 0 && j != 0 {
      BeforeIsStrictTotalOrder(RankOf(a[0]), RankOf(b[0]), RankOf(a[0]));
      assert false;
    }
  }

  lemma {:induction false} TailsListed(a: seq<AggregatedWithdrawal>, b: seq<AggregatedWithdrawal>)
    requires a != [] && b != [] && StrictlyRanked(a) && RankOf(a[0]) == RankOf(b[0])
    requires forall i :: 0 <= i < |a| ==> Listed(RankOf(a[i]), b)
    ensures forall i :: 0 <= i < |a[1..]| ==> Listed(RankOf(a[1..][i]), b[1..])
  {
    forall i | 0 <= i < |a[1..]| ensures Listed(RankOf(a[1..][i]), b[1..]) {
      assert Listed(RankOf(a[i + 1]), b);
      var j :| 0 <= j < |b| && RankOf(b[j]) == RankOf(a[i + 1]);
      BeforeIsStrictTotalOrder(RankOf(a[0]), RankOf(a[0]), RankOf(a[0]));
      assert b[1..][j - 1] == b[j];
    }
  }

  // ----- Index sorting -----

  predicate Ascending(s: seq<u64>) {
    forall i, j :: 0 <= i < j < |s| ==> s[i] <= s[j]
  }

  function InsertIndex(x: u64, s: seq<u64>): (r: seq<u64>)
    ensures multiset(r) == multiset(s) + multiset{x}
  {
    if s == [] then [x]
    else if x <= s[0] then [x] + s
    else
      assert s == [s[0]] + s[1..];
      [s[0]] + InsertIndex(x, s[1..])
  }

  lemma {:induction false} InsertKeepsAscending(x: u64, s: seq<u64>)
    requires Ascending(s)
    ensures Ascending(InsertIndex(x, s))
  {
    if s != [] && x > s[0] {
      InsertKeepsAscending(x, s[1..]);
      var rest := InsertIndex(x, s[1..]);
      forall j | 0 <= j < |rest| ensures s[0] <= rest[j] {
        assert rest[j] in multiset(rest);
        assert rest[j] == x || rest[j] in s[1..];
      }
    }
  }

  /** The library's `sort_unstable` on indices. */
  function SortIndices(s: seq<u64>): (r: seq<u64>)
    ensures multiset(r) == multiset(s)
  {
    if s == [] then [] else
      assert s == [s[0]] + s[1..];
      InsertIndex(s[0], SortIndices(s[1..]))
  }

  lemma {:induction false} SortIndicesAscending(s: seq<u64>)
    ensures Ascending(SortIndices(s))
  {
    if s != [] {
      SortIndicesAscending(s[1..]);
      InsertKeepsAscending(s[0], SortIndices(s[1..]));
    }
  }

  lemma {:induction false} AscendingUnique(a: seq<u64>, b: seq<u64>)
    requires Ascending(a) && Ascending(b) && multiset(a) == multiset(b)
    ensures a == b
  {
    if a == [] {
      assert |multiset(b)| == 0;
    } else {
      assert a[0] in multiset(b) && |multiset(a)| == |multiset(b)|;
      assert b[0] in multiset(a);
      assert a[0] == b[0];
      assert a == [a[0]] + a[1..] && b == [b[0]] + b[1..];
      assert multiset(a[1..]) == multiset(a) - multiset{a[0]};
      assert multiset(b[1..]) == multiset(b) - multiset{b[0]};
      AscendingUnique(a[1..], b[1..]);
    }
  }
}
