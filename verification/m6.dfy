// The BIP300 "M6" withdrawal-bundle transaction, down to its bytes: what a bundle commits to,
// how heavy it will be once the enforcer has attached its treasury input, and why two different
// bundles cannot share an m6id without a hash collision.

module M6 {
  import opened ByteCodec

  /** keccak256 and Bitcoin's double-SHA256, left abstract. */
  datatype Hashes = Hashes(keccak: Bytes -> U256, txid: Bytes -> U256)

  datatype TxIn = TxIn(outpoint: Bytes, scriptSig: Script, sequence: u32)

  datatype TxOut = TxOut(value: u64, scriptPubkey: Script)

  datatype Transaction = Transaction(version: u32, inputs: seq<TxIn>, outputs: seq<TxOut>, lockTime: u32)

  datatype WithdrawalBundle = WithdrawalBundle(requestIndices: seq<u64>, tx: Transaction)

  const OP_RETURN: byte := 0x6A
  const AMOUNT_SIZE: u32 := 8
  const MAX_STANDARD_WEIGHT: nat := 400_000
  const WITNESS_SCALE_FACTOR: nat := 4

  // ----- Serialisation without witness data -----

  function SerializeTxIn(i: TxIn): Bytes {
    i.outpoint + CompactSize(|i.scriptSig|) + i.scriptSig + LittleEndian(i.sequence, 4)
  }

  function SerializeTxOut(o: TxOut): (b: Bytes)
    ensures |b| == 8 + CompactSizeLen(|o.scriptPubkey|) + |o.scriptPubkey|
  {
    LittleEndian(o.value, 8) + CompactSize(|o.scriptPubkey|) + o.scriptPubkey
  }

  function SerializeInputs(ins: seq<TxIn>): Bytes {
    if ins == [] then [] else SerializeTxIn(ins[0]) + SerializeInputs(ins[1..])
  }

  function SerializeOutputs(outs: seq<TxOut>): Bytes {
    if outs == [] then [] else SerializeTxOut(outs[0]) + SerializeOutputs(outs[1..])
  }

  function Serialize(tx: Transaction): Bytes {
    LittleEndian(tx.version, 4)
    + CompactSize(|tx.inputs|) + SerializeInputs(tx.inputs)
    + CompactSize(|tx.outputs|) + SerializeOutputs(tx.outputs)
    + LittleEndian(tx.lockTime, 4)
  }

  /** BIP141, "Transaction size calculations": three times the base size plus the total size.
      No input here carries a witness, so the two sizes are the same. */
  function Weight(tx: Transaction): nat {
    var baseSize, totalSize := |Serialize(tx)|, |Serialize(tx)|;
    3 * baseSize + totalSize
  }

  // ----- The bundle -----

  function IndexBytes(indices: seq<u64>): (b: Bytes)
    ensures |b| == 8 * |indices|
  {
    if indices == [] then []
    else IndexBytes(indices[..|indices| - 1]) + BigEndian(indices[|indices| - 1], 8)
  }

  function CommitmentPreimage(indices: seq<u64>, height: u32): (b: Bytes)
    ensures |b| == 8 * |indices| + 4
  {
    IndexBytes(indices) + BigEndian(height, 4)
  }

  method RequestsCommitment(h: Hashes, indices: seq<u64>, height: u32) returns (c: U256)
    ensures c == h.keccak(CommitmentPreimage(indices, height))
  {
    var preimage: Bytes := [];
    for i := 0 to |indices|
      invariant preimage == IndexBytes(indices[..i])
    {
      assert indices[..i + 1][..i] == indices[..i];
      preimage := preimage + BigEndian(indices[i], 8);
    }
    assert indices[..|indices|] == indices;
    c := h.keccak(preimage + BigEndian(height, 4));
  }

  function FeeTxOut(totalMainFeeSats: u64): TxOut {
    TxOut(0, [OP_RETURN, 8] + BigEndian(totalMainFeeSats, 8))
  }

  function CommitmentTxOut(commitment: U256): TxOut {
    TxOut(0, [OP_RETURN, 32] + BigEndian(commitment, 32))
  }

  function BundleTx(commitment: U256, totalMainFeeSats: u64, payouts: seq<TxOut>): Transaction {
    Transaction(2, [], [FeeTxOut(totalMainFeeSats), CommitmentTxOut(commitment)] + payouts, 0)
  }

  function BuildWithdrawalBundle(h: Hashes, height: u32, totalMainFeeSats: u64, indices: seq<u64>,
                                 payouts: seq<TxOut>): WithdrawalBundle {
    WithdrawalBundle(indices, BundleTx(h.keccak(CommitmentPreimage(indices, height)), totalMainFeeSats, payouts))
  }

  /** The txid of the blinded transaction; with no input there is no witness to leave out. */
  function M6id(h: Hashes, bundle: WithdrawalBundle): U256 {
    h.txid(Serialize(bundle.tx))
  }

  /** The transaction the mainchain sees: the treasury output is spent by one input with an
      empty scriptSig. */
  function TreasurySpend(tx: Transaction, outpoint: Bytes, sequence: u32): Transaction {
    tx.(inputs := [TxIn(outpoint, [], sequence)])
  }

  // ----- The bytes themselves -----

  /** The first two outputs pay nothing: OP_RETURN and a push of the fee, then of the commitment, most
      significant byte first. */
  lemma {:induction false} FixedOutputBytes(fee: u64, commitment: U256, k: nat)
    ensures
      var o := FeeTxOut(fee);
      && o.value == 0 && |o.scriptPubkey| == 10 && o.scriptPubkey[0] == 0x6A && o.scriptPubkey[1] == 8
      && (k < 8 ==> Pow256(7 - k) > 0 && o.scriptPubkey[2 + k] == fee / Pow256(7 - k) % 256)
    ensures
      var o := CommitmentTxOut(commitment);
      && o.value == 0 && |o.scriptPubkey| == 34 && o.scriptPubkey[0] == 0x6A && o.scriptPubkey[1] == 32
      && (k < 32 ==> Pow256(31 - k) > 0 && o.scriptPubkey[2 + k] == commitment / Pow256(31 - k) % 256)
  {
    hide BigEndian, Pow256;
    if k < 8 {
      BigEndianDigit(fee, 8, k);
    }
    if k < 32 {
      BigEndianDigit(commitment, 32, k);
    }
  }

  lemma {:induction false} IndexBytesAt(indices: seq<u64>, i: nat, k: nat)
    requires i < |indices| && k < 8
    ensures IndexBytes(indices)[8 * i + k] == BigEndian(indices[i], 8)[k]
  {
    if i < |indices| - 1 {
      IndexBytesAt(indices[..|indices| - 1], i, k);
    }
  }

  /** Byte `k` of the commitment's preimage: eight bytes for each index, then four for the height, most
      significant first. */
  lemma {:induction false} CommitmentBytes(indices: seq<u64>, height: u32, i: nat, k: nat)
    requires (i < |indices| && k < 8) || (i == |indices| && k < 4)
    ensures |CommitmentPreimage(indices, height)| == 8 * |indices| + 4
    ensures i < |indices| ==>
      Pow256(7 - k) > 0 && CommitmentPreimage(indices, height)[8 * i + k] == indices[i] / Pow256(7 - k) % 256
    ensures i == |indices| ==>
      Pow256(3 - k) > 0 && CommitmentPreimage(indices, height)[8 * i + k] == height / Pow256(3 - k) % 256
  {
    hide BigEndian, Pow256, IndexBytes;
    if i < |indices| {
      IndexBytesAt(indices, i, k);
      BigEndianDigit(indices[i], 8, k);
    } else {
      BigEndianDigit(height, 4, k);
    }
  }

  /** An output starts with its value, eight bytes, least significant first, and ends with its script. */
  lemma {:induction false} TxOutBytes(o: TxOut, k: nat)
    requires k < 8
    ensures Pow256(k) > 0 && |SerializeTxOut(o)| >= 8 + |o.scriptPubkey|
    ensures SerializeTxOut(o)[k] == o.value / Pow256(k) % 256
    ensures SerializeTxOut(o)[|SerializeTxOut(o)| - |o.scriptPubkey|..] == o.scriptPubkey
  {
    hide LittleEndian, Pow256, CompactSize;
    LittleEndianDigit(o.value, 8, k);
  }

  /** The bytes of a bundle's transaction: version two, no input, the two fixed outputs, the payouts, and
      lock time zero. */
  lemma {:induction false} BundleBytes(commitment: U256, fee: u64, payouts: seq<TxOut>)
    ensures Serialize(BundleTx(commitment, fee, payouts))
         == [2, 0, 0, 0] + [0] + CompactSize(|payouts| + 2)
            + ([0, 0, 0, 0, 0, 0, 0, 0] + [10, 0x6A, 8] + BigEndian(fee, 8)
               + [0, 0, 0, 0, 0, 0, 0, 0] + [34, 0x6A, 32] + BigEndian(commitment, 32))
            + SerializeOutputs(payouts) + [0, 0, 0, 0]
  {
    hide BigEndian, LittleEndian, SerializeTxOut, CompactSize;
    var fixed := [FeeTxOut(fee), CommitmentTxOut(commitment)];
    SerializeOutputsConcat(fixed, payouts);
    FixedBytes(fee, commitment);
    SmallNumbers();
  }

  lemma {:induction false} SmallNumbers()
    ensures LittleEndian(2, 4) == [2, 0, 0, 0] && LittleEndian(0, 4) == [0, 0, 0, 0]
    ensures LittleEndian(0, 8) == [0, 0, 0, 0, 0, 0, 0, 0] && CompactSize(0) == [0]
  {
    assert LittleEndian(0, 2) == [0, 0] && LittleEndian(0, 4) == [0, 0] + LittleEndian(0, 2);
    assert LittleEndian(0, 6) == [0, 0] + LittleEndian(0, 4) && LittleEndian(0, 8) == [0, 0] + LittleEndian(0, 6);
    assert LittleEndian(0, 3) == [0] + LittleEndian(0, 2) && LittleEndian(2, 4) == [2] + LittleEndian(0, 3);
  }

  lemma {:induction false} FixedBytes(fee: u64, commitment: U256)
    ensures SerializeOutputs([FeeTxOut(fee), CommitmentTxOut(commitment)])
         == [0, 0, 0, 0, 0, 0, 0, 0] + [10, 0x6A, 8] + BigEndian(fee, 8)
            + [0, 0, 0, 0, 0, 0, 0, 0] + [34, 0x6A, 32] + BigEndian(commitment, 32)
  {
    hide BigEndian, LittleEndian;
    SmallNumbers();
    var fixed := [FeeTxOut(fee), CommitmentTxOut(commitment)];
    assert fixed[1..] == [CommitmentTxOut(commitment)] && fixed[1..][1..] == [];
    var a, b := SerializeTxOut(FeeTxOut(fee)), SerializeTxOut(CommitmentTxOut(commitment));
    SerializeOutputsConcat([fixed[0]], [fixed[1]]);
    assert fixed == [fixed[0]] + [fixed[1]] && [fixed[0]][1..] == [] && [fixed[1]][1..] == [];
    assert a == [0, 0, 0, 0, 0, 0, 0, 0] + [10, 0x6A, 8] + BigEndian(fee, 8);
    assert b == [0, 0, 0, 0, 0, 0, 0, 0] + [34, 0x6A, 32] + BigEndian(commitment, 32);
  }

  // ----- Size prediction, in the source's checked 32-bit arithmetic -----

  function TxOutSize(spkSize: u32): Option<u32> {
    var size :- CheckedAdd(AMOUNT_SIZE, CompactSizeLen(spkSize));
    CheckedAdd(size, spkSize)
  }

  function TxInBaseSize(scriptSigSize: u32): Option<u32> {
    var res :- CheckedAdd(36 + CompactSizeLen(scriptSigSize), scriptSigSize);
    CheckedAdd(res, 4)
  }

  function TxBaseSize(nInputs: u32, sumTxInBaseSizes: u32, nOutputs: u32, sumTxOutSizes: u32): Option<u32> {
    var vinBaseSize :- CheckedAdd(CompactSizeLen(nInputs), sumTxInBaseSizes);
    var res :- CheckedAdd(4, vinBaseSize);
    var voutSize :- CheckedAdd(CompactSizeLen(nOutputs), sumTxOutSizes);
    var res' :- CheckedAdd(res, voutSize);
    CheckedAdd(res', 4)
  }

  // The source computes these three when it is compiled.
  const SUM_TXIN_BASE_SIZES: u32 := TxInBaseSize(0).value
  const COMMITMENT_TXOUT_SIZE: u32 := TxOutSize(34).value
  const FEE_TXOUT_SIZE: u32 := TxOutSize(10).value

  function PredictWeight(nOutputs: u32, sumTxOutSizes: u32): Option<nat> {
    var allOutputs :- CheckedAdd(nOutputs, 2);
    var allSizes :- CheckedAdd(COMMITMENT_TXOUT_SIZE + FEE_TXOUT_SIZE, sumTxOutSizes);
    var baseSize :- TxBaseSize(1, SUM_TXIN_BASE_SIZES, allOutputs, allSizes);
    var weight := baseSize * WITNESS_SCALE_FACTOR;
    if weight <= MAX_STANDARD_WEIGHT then Some(weight) else None
  }

  // ----- Sizes are exact -----

  /** The size formula is the length of the serialised output, and it fails exactly when that
      length does not fit 32 bits. */
  lemma {:induction false} TxOutSizeExact(o: TxOut)
    requires |o.scriptPubkey| <= U32_MAX
    ensures TxOutSize(|o.scriptPubkey|)
         == if |SerializeTxOut(o)| <= U32_MAX then Some(|SerializeTxOut(o)|) else None
  {
  }

  lemma {:induction false} OutputsAtLeastNineBytes(outs: seq<TxOut>)
    ensures |SerializeOutputs(outs)| >= 9 * |outs|
  {
    if outs != [] {
      OutputsAtLeastNineBytes(outs[1..]);
    }
  }

  lemma {:induction false} SerializeOutputsConcat(a: seq<TxOut>, b: seq<TxOut>)
    ensures SerializeOutputs(a + b) == SerializeOutputs(a) + SerializeOutputs(b)
  {
    if a == [] {
      assert a + b == b;
    } else {
      SerializeOutputsConcat(a[1..], b);
      assert (a + b)[1..] == a[1..] + b;
      Assoc(SerializeTxOut(a[0]), SerializeOutputs(a[1..]), SerializeOutputs(b));
    }
  }

  /** The serialised size of any M6 with its treasury input attached. */
  lemma {:induction false} TreasurySpendSize(commitment: U256, fee: u64, payouts: seq<TxOut>, outpoint: Bytes,
                                             sequence: u32)
    requires |outpoint| == 36
    ensures |Serialize(TreasurySpend(BundleTx(commitment, fee, payouts), outpoint, sequence))|
         == 112 + CompactSizeLen(|payouts| + 2) + |SerializeOutputs(payouts)|
  {
    var fixed := [FeeTxOut(fee), CommitmentTxOut(commitment)];
    SerializeOutputsConcat(fixed, payouts);
    assert fixed[1..] == [CommitmentTxOut(commitment)];
    assert fixed[1..][1..] == [];
    assert |SerializeOutputs(fixed)| == 19 + 43;
    var input := TxIn(outpoint, [], sequence);
    assert [input][1..] == [];
    assert |SerializeInputs([input])| == 41;
  }

  /** With the library's constants the whole 32-bit computation is one inequality. */
  lemma {:induction false} PredictWeightReduction(nOutputs: u32, sumTxOutSizes: u32)
    ensures PredictWeight(nOutputs, sumTxOutSizes).Some?
       <==> nOutputs + 2 <= U32_MAX && CompactSizeLen(nOutputs + 2) + sumTxOutSizes <= 99_888
    ensures PredictWeight(nOutputs, sumTxOutSizes).Some?
        ==> PredictWeight(nOutputs, sumTxOutSizes).value
            == 4 * (112 + CompactSizeLen(nOutputs + 2) + sumTxOutSizes)
  {
    assert SUM_TXIN_BASE_SIZES == 41 && COMMITMENT_TXOUT_SIZE == 43 && FEE_TXOUT_SIZE == 19;
  }

  /** The prediction is the weight of the real transaction, or None exactly when that
      transaction is above the standard limit: no CompactSize boundary and no 32-bit overflow
      makes the two differ. */
  lemma {:induction false} WeightPredictionExact(commitment: U256, fee: u64, payouts: seq<TxOut>, outpoint: Bytes,
                                                 sequence: u32)
    requires |outpoint| == 36
    requires |payouts| <= U32_MAX && |SerializeOutputs(payouts)| <= U32_MAX
    ensures
      var w := Weight(TreasurySpend(BundleTx(commitment, fee, payouts), outpoint, sequence));
      PredictWeight(|payouts|, |SerializeOutputs(payouts)|) == if w <= MAX_STANDARD_WEIGHT then Some(w) else None
  {
    TreasurySpendSize(commitment, fee, payouts, outpoint, sequence);
    PredictWeightReduction(|payouts|, |SerializeOutputs(payouts)|);
    OutputsAtLeastNineBytes(payouts);
  }

  // ----- The serialisation separates bundles -----

  lemma {:induction false} IndexBytesInjective(a: seq<u64>, b: seq<u64>)
    requires IndexBytes(a) == IndexBytes(b)
    ensures a == b
  {
    if a != [] {
      var n := |a| - 1;
      assert |b| == |a|;
      SplitEqual(IndexBytes(a[..n]), BigEndian(a[n], 8), IndexBytes(b[..n]), BigEndian(b[n], 8));
      IndexBytesInjective(a[..n], b[..n]);
      Pow256Values();
      BigEndianInjective(a[n], b[n], 8);
      assert a == a[..n] + [a[n]] && b == b[..n] + [b[n]];
    } else {
      assert |b| == 0;
    }
  }

  /** The commitment's preimage determines the index list (its length included) and the height. */
  lemma {:induction false} CommitmentPreimageInjective(a: seq<u64>, heightA: u32, b: seq<u64>, heightB: u32)
    requires CommitmentPreimage(a, heightA) == CommitmentPreimage(b, heightB)
    ensures a == b && heightA == heightB
  {
    assert |a| == |b|;
    SplitEqual(IndexBytes(a), BigEndian(heightA, 4), IndexBytes(b), BigEndian(heightB, 4));
    IndexBytesInjective(a, b);
    Pow256Values();
    BigEndianInjective(heightA, heightB, 4);
  }

  lemma {:induction false} TxOutPrefixFree(o: TxOut, x: Bytes, p: TxOut, y: Bytes)
    requires SerializeTxOut(o) + x == SerializeTxOut(p) + y
    ensures o == p && x == y
  {
    var restO := CompactSize(|o.scriptPubkey|) + (o.scriptPubkey + x);
    var restP := CompactSize(|p.scriptPubkey|) + (p.scriptPubkey + y);
    AssocFour(LittleEndian(o.value, 8), CompactSize(|o.scriptPubkey|), o.scriptPubkey, x);
    AssocFour(LittleEndian(p.value, 8), CompactSize(|p.scriptPubkey|), p.scriptPubkey, y);
    SplitEqual(LittleEndian(o.value, 8), restO, LittleEndian(p.value, 8), restP);
    Pow256Values();
    LittleEndianInjective(o.value, p.value, 8);
    CompactSizePrefixFree(|o.scriptPubkey|, o.scriptPubkey + x, |p.scriptPubkey|, p.scriptPubkey + y);
    SplitEqual(o.scriptPubkey, x, p.scriptPubkey, y);
  }

  lemma {:induction false} OutputsPrefixFree(a: seq<TxOut>, x: Bytes, b: seq<TxOut>, y: Bytes)
    requires |a| == |b|
    requires SerializeOutputs(a) + x == SerializeOutputs(b) + y
    ensures a == b && x == y
  {
    if a == [] {
      assert SerializeOutputs(a) + x == x && SerializeOutputs(b) + y == y;
    } else {
      var restA, restB := SerializeOutputs(a[1..]) + x, SerializeOutputs(b[1..]) + y;
      Assoc(SerializeTxOut(a[0]), SerializeOutputs(a[1..]), x);
      Assoc(SerializeTxOut(b[0]), SerializeOutputs(b[1..]), y);
      TxOutPrefixFree(a[0], restA, b[0], restB);
      OutputsPrefixFree(a[1..], x, b[1..], y);
      assert a == [a[0]] + a[1..] && b == [b[0]] + b[1..];
    }
  }

  /** Bundle transactions with the same bytes have the same outputs. */
  lemma {:induction false} BundleBytesInjective(a: Transaction, b: Transaction)
    requires a.version == b.version && a.inputs == b.inputs == [] && a.lockTime == b.lockTime
    requires |a.outputs| <= U64_MAX && |b.outputs| <= U64_MAX
    requires Serialize(a) == Serialize(b)
    ensures a == b
  {
    hide SerializeOutputs, CompactSize, LittleEndian;
    var head := LittleEndian(a.version, 4) + CompactSize(0);
    var lock := LittleEndian(a.lockTime, 4);
    var restA := CompactSize(|a.outputs|) + (SerializeOutputs(a.outputs) + lock);
    var restB := CompactSize(|b.outputs|) + (SerializeOutputs(b.outputs) + lock);
    assert Serialize(a) == head + restA;
    assert Serialize(b) == head + restB;
    SplitEqual(head, restA, head, restB);
    CompactSizePrefixFree(|a.outputs|, SerializeOutputs(a.outputs) + lock,
                          |b.outputs|, SerializeOutputs(b.outputs) + lock);
    OutputsPrefixFree(a.outputs, lock, b.outputs, lock);
  }

  /** The hash functions do not collide on what these two bundles feed them. */
  ghost predicate NoCollision(h: Hashes, indicesA: seq<u64>, heightA: u32, txA: Transaction,
                              indicesB: seq<u64>, heightB: u32, txB: Transaction) {
    && (h.txid(Serialize(txA)) == h.txid(Serialize(txB)) ==> Serialize(txA) == Serialize(txB))
    && (h.keccak(CommitmentPreimage(indicesA, heightA)) == h.keccak(CommitmentPreimage(indicesB, heightB))
        ==> CommitmentPreimage(indicesA, heightA) == CommitmentPreimage(indicesB, heightB))
  }

  lemma {:induction false} CommitmentTxOutInjective(c: U256, d: U256)
    requires CommitmentTxOut(c) == CommitmentTxOut(d)
    ensures c == d
  {
    assert CommitmentTxOut(c).scriptPubkey[2..] == BigEndian(c, 32);
    assert CommitmentTxOut(d).scriptPubkey[2..] == BigEndian(d, 32);
    Pow256Values();
    BigEndianInjective(c, d, 32);
  }

  /** An m6id determines everything its bundle says: the requests consumed, the height it was
      proposed at, the committed fee and the payouts. */
  lemma {:induction false} M6idDeterminesBundle(h: Hashes, heightA: u32, feeA: u64, indicesA: seq<u64>,
                                                payoutsA: seq<TxOut>,
                             heightB: u32, feeB: u64, indicesB: seq<u64>, payoutsB: seq<TxOut>)
    requires |payoutsA| + 2 <= U64_MAX && |payoutsB| + 2 <= U64_MAX
    requires
      var a := BuildWithdrawalBundle(h, heightA, feeA, indicesA, payoutsA);
      var b := BuildWithdrawalBundle(h, heightB, feeB, indicesB, payoutsB);
      NoCollision(h, indicesA, heightA, a.tx, indicesB, heightB, b.tx) && M6id(h, a) == M6id(h, b)
    ensures indicesA == indicesB && heightA == heightB && feeA == feeB && payoutsA == payoutsB
  {
    var a := BuildWithdrawalBundle(h, heightA, feeA, indicesA, payoutsA);
    var b := BuildWithdrawalBundle(h, heightB, feeB, indicesB, payoutsB);
    BundleBytesInjective(a.tx, b.tx);
    assert a.tx.outputs[0] == FeeTxOut(feeA) && b.tx.outputs[0] == FeeTxOut(feeB);
    assert FeeTxOut(feeA).scriptPubkey[2..] == BigEndian(feeA, 8);
    assert FeeTxOut(feeB).scriptPubkey[2..] == BigEndian(feeB, 8);
    Pow256Values();
    BigEndianInjective(feeA, feeB, 8);
    assert a.tx.outputs[1] == b.tx.outputs[1];
    CommitmentTxOutInjective(h.keccak(CommitmentPreimage(indicesA, heightA)),
                             h.keccak(CommitmentPreimage(indicesB, heightB)));
    CommitmentPreimageInjective(indicesA, heightA, indicesB, heightB);
    assert payoutsA == a.tx.outputs[2..] && payoutsB == b.tx.outputs[2..];
  }
}
