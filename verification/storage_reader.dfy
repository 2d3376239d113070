// The node's reader of raw queue storage, and why it inverts the contract's layout.

module StorageReader {
  import opened ByteCodec
  import opened M6
  import opened QueueStorage

  /** `bundleM6id` is present exactly for a request that has left `Pending`. */
  datatype RequestEntry = RequestEntry(index: u64, valueSats: u64, mainFeeSats: u64,
                                       btcDestination: Script, status: Status, bundleM6id: Option<U256>)

  /** A decoded head word. `OutOfRange` is the slice `word_bytes[..length]` panicking on a short
      form whose length exceeds the word; the contract never writes one. */
  datatype BytesHead = Inline(data: Script) | Long(length: u64) | OutOfRange

  const REQUESTS_MAPPING_SLOT: u64 := 1

  function RequestsEntrySlot(h: Hashes, index: u64): U256 {
    h.keccak(Zeros(24) + BigEndian(index, 8) + Zeros(24) + BigEndian(REQUESTS_MAPPING_SLOT, 8))
  }

  function ReadU64(slots: Slots, slot: U256): u64 {
    Min(Load(slots, slot), U64_MAX)
  }

  function DecodeBytesHead(word: U256): BytesHead {
    var lastByte := word % 256;
    if lastByte % 2 == 0 then
      var length := lastByte / 2;
      if length <= 32 then Inline(BigEndian(word, 32)[..length]) else OutOfRange
    else Long(Min(word / 2, U64_MAX))
  }

  /** The first `c` words of data starting at `base`, as bytes. */
  function ChunkBytes(slots: Slots, base: U256, c: nat): (b: Bytes)
    ensures |b| == 32 * c
  {
    if c == 0 then [] else ChunkBytes(slots, base, c - 1) + BigEndian(Load(slots, AddSlot(base, c - 1)), 32)
  }

  /** What a `bytes` value at `slot` reads as; None where the reader panics. */
  function BytesAt(h: Hashes, slots: Slots, slot: U256): Option<Script> {
    match DecodeBytesHead(Load(slots, slot))
    case Inline(data) => Some(data)
    case Long(length) => Some(ChunkBytes(slots, DataSlot(h, slot), (length + 31) / 32)[..length])
    case OutOfRange => None
  }

  function StatusOf(word: nat): Status {
    if word == 0 then Pending else if word == 1 then Bundled else if word == 2 then Confirmed else Refunded
  }

  function EntryAt(h: Hashes, slots: Slots, index: u64): Option<RequestEntry> {
    var base := RequestsEntrySlot(h, index);
    var btcDestination :- BytesAt(h, slots, AddSlot(base, 3));
    var status := StatusOf(ReadU64(slots, AddSlot(base, 4)));
    Some(RequestEntry(index, ReadU64(slots, AddSlot(base, 1)), ReadU64(slots, AddSlot(base, 2)), btcDestination,
                      status, if status == Pending then None else Some(Load(slots, AddSlot(base, 5)))))
  }

  function EntriesUpTo(h: Hashes, slots: Slots, n: nat): Option<seq<RequestEntry>>
    requires n <= U64_MAX
  {
    if n == 0 then Some([]) else
      var before :- EntriesUpTo(h, slots, n - 1);
      var entry :- EntryAt(h, slots, n - 1);
      Some(before + [entry])
  }

  /** What any head word decodes to, also one the contract never writes: an even last byte is twice the
      length of data that stands at the front of the word, and one above 64 is out of range; an odd one
      marks a length, cut off at 64 bits. */
  lemma {:induction false} HeadExactly(word: U256, data: Script)
    ensures DecodeBytesHead(word) == Inline(data)
       <==> |data| <= 32 && BigEndian(word, 32)[31] == 2 * |data| && data == BigEndian(word, 32)[..|data|]
    ensures DecodeBytesHead(word) == OutOfRange
       <==> BigEndian(word, 32)[31] % 2 == 0 && BigEndian(word, 32)[31] > 64
    ensures BigEndian(word, 32)[31] % 2 == 1
        ==> DecodeBytesHead(word) == Long(if word / 2 <= U64_MAX then word / 2 else U64_MAX)
  {
    hide BigEndian;
    BigEndianDigit(word, 32, 31);
    assert Pow256(0) == 1;
  }

  /** What the reader makes of any entry, also one the contract never writes: it aborts only on a head out
      of range, cuts amounts off at 64 bits, takes every unknown status for Refunded, and reads an m6id
      unless the status is Pending. */
  lemma {:induction false} EntryExactly(h: Hashes, slots: Slots, index: u64)
    ensures
      var base := RequestsEntrySlot(h, index);
      var entry, status := EntryAt(h, slots, index), Load(slots, AddSlot(base, 4));
      && (entry.None? <==> DecodeBytesHead(Load(slots, AddSlot(base, 3))) == OutOfRange)
      && (entry.Some? ==>
            var e := entry.value;
            && e.index == index
            && e.valueSats == Min(Load(slots, AddSlot(base, 1)), U64_MAX)
            && e.mainFeeSats == Min(Load(slots, AddSlot(base, 2)), U64_MAX)
            && (e.status == Pending <==> status == 0) && (e.status == Bundled <==> status == 1)
            && (e.status == Confirmed <==> status == 2) && (e.status == Refunded <==> status >= 3)
            && e.bundleM6id == if status == 0 then None else Some(Load(slots, AddSlot(base, 5))))
  {
  }

  method ReadDynamicBytes(h: Hashes, slots: Slots, slot: U256) returns (bytes: Option<Script>)
    ensures bytes == BytesAt(h, slots, slot)
  {
    var head := DecodeBytesHead(Load(slots, slot));
    match head
    case Inline(data) => return Some(data);
    case OutOfRange => return None;
    case Long(length) =>
      var data: Bytes := [];
      var base := DataSlot(h, slot);
      var chunkSlot := base;
      ghost var c := 0;
      while |data| < length
        invariant data == ChunkBytes(slots, base, c) && chunkSlot == AddSlot(base, c)
        invariant c <= (length + 31) / 32
        decreases length - |data|
      {
        data := data + BigEndian(Load(slots, chunkSlot), 32);
        NextSlot(base, c);
        chunkSlot := AddSlot(chunkSlot, 1);
        c := c + 1;
      }
      return Some(data[..length]);
  }

  lemma {:induction false} NextSlot(base: U256, c: nat)
    ensures AddSlot(AddSlot(base, c), 1) == AddSlot(base, c + 1)
  {
  }

  method ReadRequest(h: Hashes, slots: Slots, index: u64) returns (entry: Option<RequestEntry>)
    ensures entry == EntryAt(h, slots, index)
  {
    var base := RequestsEntrySlot(h, index);
    var valueSats := ReadU64(slots, AddSlot(base, 1));
    var mainFeeSats := ReadU64(slots, AddSlot(base, 2));
    var btcDestination := ReadDynamicBytes(h, slots, AddSlot(base, 3));
    if btcDestination.None? {
      return None;
    }
    var status := StatusOf(ReadU64(slots, AddSlot(base, 4)));
    var bundleM6id := if status == Pending then None else Some(Load(slots, AddSlot(base, 5)));
    return Some(RequestEntry(index, valueSats, mainFeeSats, btcDestination.value, status, bundleM6id));
  }

  method ReadAllRequests(h: Hashes, slots: Slots) returns (requests: Option<seq<RequestEntry>>)
    ensures requests == EntriesUpTo(h, slots, ReadU64(slots, 0))
  {
    hide EntryAt;
    var requestCount := ReadU64(slots, 0);
    var read: seq<RequestEntry> := [];
    for index := 0 to requestCount
      invariant EntriesUpTo(h, slots, index) == Some(read)
    {
      var entry := ReadRequest(h, slots, index);
      if entry.None? {
        PanicStays(h, slots, index + 1, requestCount);
        return None;
      }
      read := read + [entry.value];
    }
    return Some(read);
  }

  lemma {:induction false} PanicStays(h: Hashes, slots: Slots, n: nat, m: nat)
    requires n <= m <= U64_MAX && EntriesUpTo(h, slots, n).None?
    ensures EntriesUpTo(h, slots, m).None?
    decreases m - n
  {
    if n < m {
      PanicStays(h, slots, n, m - 1);
    }
  }

  // ----- The reader inverts the layout -----

  /** The reader's 64-byte preimage is Solidity's `abi.encode(index, uint256(1))`. */
  lemma {:induction false} EntrySlotMatchesSolidity(h: Hashes, index: u64)
    ensures RequestsEntrySlot(h, index) == EntrySlot(h, index)
  {
    PaddedBigEndian(index, 24);
    PaddedBigEndian(1, 24);
    Assoc(Zeros(24) + BigEndian(index, 8), Zeros(24), BigEndian(1, 8));
  }

  lemma {:induction false} PaddedBigEndian(n: u64, k: nat)
    ensures BigEndian(n, k + 8) == Zeros(k) + BigEndian(n, 8)
  {
    Pow256Values();
    ZeroPrefix(n, k, 8);
  }

  lemma {:induction false} ZeroPrefix(n: nat, k: nat, width: nat)
    requires n < Pow256(width)
    ensures BigEndian(n, k + width) == Zeros(k) + BigEndian(n, width)
  {
    if width == 0 {
      ZeroBytes(k);
    } else {
      ZeroPrefix(n / 256, k, width - 1);
      Assoc(Zeros(k), BigEndian(n / 256, width - 1), [n % 256]);
    }
  }

  lemma {:induction false} ZeroBytes(k: nat)
    ensures BigEndian(0, k) == Zeros(k)
  {
    if k != 0 {
      ZeroBytes(k - 1);
    }
  }

  lemma {:induction false} WordOfBytes(b: Bytes)
    requires |b| == 32
    ensures BigEndian(WordOf(b), 32) == b && WordOf(b) % 256 == b[31]
  {
    FromBigEndianRoundTrip(b);
    assert BigEndian(WordOf(b), 32)[31] == WordOf(b) % 256;
  }

  /** Decoding the head of a stored value gives the value itself, or its length when it is long. */
  lemma {:induction false} HeadRoundTrip(data: Script)
    ensures DecodeBytesHead(HeadWord(data)) == if |data| <= 31 then Inline(data) else Long(|data|)
  {
    if |data| <= 31 {
      var b := data + Zeros(31 - |data|) + [2 * |data|];
      WordOfBytes(b);
      assert b[..|data|] == data;
    } else {
      var word := 2 * |data| + 1;
      assert word % 2 == 1 && word / 2 == |data|;
      assert word % 256 % 2 == word % 2;
    }
  }

  /** A chunk's word starts with the chunk. */
  lemma {:induction false} ChunkWordBytes(data: Script, c: nat)
    requires c < ChunkCount(data)
    ensures
      var lo, hi := 32 * c, Min(32 * c + 32, |data|);
      lo < hi && BigEndian(ChunkWord(data, c), 32)[..hi - lo] == data[lo..hi]
  {
    var chunk := data[32 * c..Min(32 * c + 32, |data|)];
    WordOfBytes(chunk + Zeros(32 - |chunk|));
  }

  /** After `c` chunks the data read so far is the stored data, followed by padding at most. */
  lemma {:induction false} ChunksRoundTrip(slots: Slots, base: U256, data: Script, c: nat)
    requires |data| > 31 && c <= ChunkCount(data)
    requires forall k :: 0 <= k < c ==> Load(slots, AddSlot(base, k)) == ChunkWord(data, k)
    ensures ChunkBytes(slots, base, c)[..Min(32 * c, |data|)] == data[..Min(32 * c, |data|)]
  {
    hide ChunkWord, Load, AddSlot, BigEndian;
    if c > 0 {
      ChunksRoundTrip(slots, base, data, c - 1);
      ChunkWordBytes(data, c - 1);
      var lo, hi := 32 * (c - 1), Min(32 * c, |data|);
      var before, word := ChunkBytes(slots, base, c - 1), BigEndian(ChunkWord(data, c - 1), 32);
      assert ChunkBytes(slots, base, c) == before + word;
      JoinPrefix(before, word, data, lo, hi);
    }
  }

  lemma {:induction false} JoinPrefix(before: Bytes, word: Bytes, data: Bytes, lo: nat, hi: nat)
    requires lo == |before| <= hi <= |data| && hi - lo <= |word|
    requires before == data[..lo] && word[..hi - lo] == data[lo..hi]
    ensures (before + word)[..hi] == data[..hi]
  {
    assert (before + word)[..hi] == before + word[..hi - lo];
    assert data[..hi] == data[..lo] + data[lo..hi];
  }

  /** Reading Solidity `bytes` inverts writing them, inline or chunked, for every string. */
  lemma {:induction false} BytesRoundTrip(h: Hashes, slots: Slots, slot: U256, data: Script)
    requires Load(slots, slot) == HeadWord(data)
    requires forall k :: 0 <= k < ChunkCount(data) ==> Load(slots, AddSlot(DataSlot(h, slot), k)) == ChunkWord(data, k)
    ensures BytesAt(h, slots, slot) == Some(data)
  {
    HeadRoundTrip(data);
    if |data| > 31 {
      var c := ChunkCount(data);
      ChunksRoundTrip(slots, DataSlot(h, slot), data, c);
      assert Min(32 * c, |data|) == |data| && data[..|data|] == data;
    }
  }

  /** Counts and amounts are within what the reader reads without clamping. */
  ghost predicate Readable(q: Queue) {
    && q.requestCount <= U64_MAX
    && (forall i :: 0 <= i < q.requestCount ==> At(q, i).valueSats <= U64_MAX && At(q, i).mainFeeSats <= U64_MAX)
  }

  ghost function EntryOf(q: Queue, i: u64): RequestEntry
    requires Readable(q) && i < q.requestCount
  {
    var r := At(q, i);
    RequestEntry(i, r.valueSats, r.mainFeeSats, r.btcDestination, r.status,
                 if r.status == Pending then None else Some(r.bundleM6id))
  }

  /** The abstract request list. */
  ghost function Entries(q: Queue): (es: seq<RequestEntry>)
    requires Readable(q)
    ensures |es| == q.requestCount && forall i :: 0 <= i < |es| ==> es[i] == EntryOf(q, i)
  {
    seq(q.requestCount, i requires 0 <= i < q.requestCount => EntryOf(q, i))
  }

  lemma {:induction false} EntryRoundTrip(h: Hashes, q: Queue, i: u64)
    requires Represents(h, q) && Readable(q) && i < q.requestCount
    ensures EntryAt(h, q.slots, i) == Some(EntryOf(q, i))
  {
    hide HeadWord, ChunkWord, BytesAt, EntrySlot, RequestsEntrySlot, ApplyWrites, BigEndian;
    EntrySlotMatchesSolidity(h, i);
    var r, base := At(q, i), EntrySlot(h, i);
    forall f | 0 <= f < 6 ensures Load(q.slots, AddSlot(base, f)) == FieldWord(r, f) {
      assert Used(q, FieldPlace(i, f));
    }
    forall k | 0 <= k < ChunkCount(r.btcDestination)
      ensures Load(q.slots, AddSlot(DataSlot(h, AddSlot(base, 3)), k)) == ChunkWord(r.btcDestination, k)
    {
      assert Used(q, ChunkPlace(i, k));
    }
    BytesRoundTrip(h, q.slots, AddSlot(base, 3), r.btcDestination);
  }

  lemma {:induction false} EntriesRoundTrip(h: Hashes, q: Queue, n: nat)
    requires Represents(h, q) && Readable(q) && n <= q.requestCount
    ensures EntriesUpTo(h, q.slots, n) == Some(Entries(q)[..n])
  {
    hide EntryAt, EntryOf, Represents;
    if n > 0 {
      EntriesRoundTrip(h, q, n - 1);
      EntryRoundTrip(h, q, n - 1);
      assert Entries(q)[..n] == Entries(q)[..n - 1] + [Entries(q)[n - 1]];
    }
  }

  /** Reading the raw slots gives exactly the abstract request list, and no clamp is taken. */
  lemma {:induction false} ReaderInvertsLayout(h: Hashes, q: Queue)
    requires Represents(h, q) && Readable(q)
    ensures EntriesUpTo(h, q.slots, ReadU64(q.slots, 0)) == Some(Entries(q))
  {
    assert Used(q, CountPlace);
    assert Load(q.slots, SlotOf(h, CountPlace)) == q.requestCount;
    EntriesRoundTrip(h, q, q.requestCount);
    assert Entries(q)[..q.requestCount] == Entries(q);
  }
}
