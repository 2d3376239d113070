// The withdrawal queue's contract storage: what a request is, where Solidity puts it, and the
// raw-slot writes the contract performs. `Queue` holds the meaning (`requests`) and the raw
// slots side by side; `Represents` ties the two.

module QueueStorage {
  import opened ByteCodec
  import opened M6

  const TWO_160: nat := 0x1_00000000_00000000_00000000_00000000_00000000
  type Address = x: int | 0 <= x < TWO_160

  /** Raw contract storage; a slot never written reads as zero. */
  type Slots = map<U256, U256>

  datatype Status = Pending | Bundled | Confirmed | Refunded

  datatype Request = Request(requester: Address, valueSats: U256, mainFeeSats: U256,
                             btcDestination: Script, status: Status, bundleM6id: U256)

  datatype Queue = Queue(requestCount: U256, requests: map<U256, Request>, balance: nat, slots: Slots)

  const EMPTY_QUEUE := Queue(0, map[], 0, map[])

  /** A mapping entry never written is all zeros. */
  const ZERO_REQUEST := Request(0, 0, 0, [], Pending, 0)

  function At(q: Queue, i: U256): Request {
    if i in q.requests then q.requests[i] else ZERO_REQUEST
  }

  // ----- Where things are (Solidity, "Layout of State Variables in Storage") -----

  datatype Place = CountPlace | FieldPlace(index: U256, field: nat) | ChunkPlace(index: U256, chunk: nat)

  function AddSlot(slot: U256, offset: nat): U256 {
    (slot + offset) % TWO_256
  }

  /** `keccak256(abi.encode(i, uint256(1)))`. */
  function EntrySlot(h: Hashes, i: U256): U256 {
    h.keccak(BigEndian(i, 32) + BigEndian(1, 32))
  }

  function DataSlot(h: Hashes, slot: U256): U256 {
    h.keccak(BigEndian(slot, 32))
  }

  function SlotOf(h: Hashes, p: Place): U256 {
    match p
    case CountPlace => 0
    case FieldPlace(i, f) => AddSlot(EntrySlot(h, i), f)
    case ChunkPlace(i, c) => AddSlot(DataSlot(h, AddSlot(EntrySlot(h, i), 3)), c)
  }

  function Load(slots: Slots, slot: U256): U256 {
    if slot in slots then slots[slot] else 0
  }

  // ----- What is there -----

  function StatusWord(s: Status): U256 {
    match s
    case Pending => 0
    case Bundled => 1
    case Confirmed => 2
    case Refunded => 3
  }

  /** The head slot of a `bytes` value: data and doubled length inline, or doubled length plus
      one. */
  function HeadWord(data: Script): U256 {
    if |data| <= 31 then WordOf(data + Zeros(31 - |data|) + [2 * |data|]) else 2 * |data| + 1
  }

  function ChunkCount(data: Script): nat {
    if |data| <= 31 then 0 else (|data| + 31) / 32
  }

  function ChunkWord(data: Script, c: nat): U256
    requires c < ChunkCount(data)
  {
    var chunk := data[32 * c..Min(32 * c + 32, |data|)];
    WordOf(chunk + Zeros(32 - |chunk|))
  }

  ghost predicate Used(q: Queue, p: Place) {
    match p
    case CountPlace => true
    case FieldPlace(i, f) => i < q.requestCount && f < 6
    case ChunkPlace(i, c) => i < q.requestCount && c < ChunkCount(At(q, i).btcDestination)
  }

  function FieldWord(r: Request, f: nat): U256 {
    match f
    case 0 => r.requester
    case 1 => r.valueSats
    case 2 => r.mainFeeSats
    case 3 => HeadWord(r.btcDestination)
    case 4 => StatusWord(r.status)
    case _ => r.bundleM6id
  }

  ghost function PlaceWord(q: Queue, p: Place): U256
    requires Used(q, p)
  {
    match p
    case CountPlace => q.requestCount
    case FieldPlace(i, f) => FieldWord(At(q, i), f)
    case ChunkPlace(i, c) => ChunkWord(At(q, i).btcDestination, c)
  }

  ghost predicate Represents(h: Hashes, q: Queue) {
    forall p :: Used(q, p) ==> Load(q.slots, SlotOf(h, p)) == PlaceWord(q, p)
  }

  /** keccak256 sends the places in use to different slots. */
  ghost predicate Separated(h: Hashes, q: Queue) {
    forall p1, p2 :: Used(q, p1) && Used(q, p2) && SlotOf(h, p1) == SlotOf(h, p2) ==> p1 == p2
  }

  /** As long as no slots collide, the raw storage says what the queue means. */
  ghost predicate Stored(h: Hashes, q: Queue) {
    Separated(h, q) ==> Represents(h, q)
  }

  lemma {:induction false} ZerosAreZero(n: nat)
    ensures FromBigEndian(Zeros(n)) == 0
  {
    if n > 0 {
      ZerosAreZero(n - 1);
      assert Zeros(n)[..n - 1] == Zeros(n - 1);
    }
  }

  /** What an entry never written means is what its untouched slots, all zero, say. */
  lemma {:induction false} UnwrittenIsZero(q: Queue, i: U256, f: nat)
    requires i !in q.requests
    ensures FieldWord(At(q, i), f) == 0 && ChunkCount(At(q, i).btcDestination) == 0
  {
    ZerosAreZero(32);
    assert [] + Zeros(31) + [0] == Zeros(32);
  }

  // ----- The contract's writes -----

  function ChunkWrites(i: U256, data: Script, c: nat): (ws: seq<(Place, U256)>)
    requires c <= ChunkCount(data)
    ensures |ws| == ChunkCount(data) - c
    ensures forall k :: 0 <= k < |ws| ==> ws[k] == (ChunkPlace(i, c + k), ChunkWord(data, c + k))
    decreases ChunkCount(data) - c
  {
    if c == ChunkCount(data) then [] else [(ChunkPlace(i, c), ChunkWord(data, c))] + ChunkWrites(i, data, c + 1)
  }

  function RequestWrites(i: U256, r: Request): seq<(Place, U256)>
    requires i + 1 < TWO_256
  {
    [(CountPlace, i + 1)]
    + seq(6, f requires 0 <= f < 6 => (FieldPlace(i, f), FieldWord(r, f)))
    + ChunkWrites(i, r.btcDestination, 0)
  }

  function ApplyWrites(h: Hashes, slots: Slots, ws: seq<(Place, U256)>): Slots {
    if ws == [] then slots
    else
      var before := ApplyWrites(h, slots, ws[..|ws| - 1]);
      before[SlotOf(h, ws[|ws| - 1].0) := ws[|ws| - 1].1]
  }

  /** `requests[requestCount++] = r`. */
  function Push(h: Hashes, q: Queue, r: Request): Queue
    requires q.requestCount + 1 < TWO_256
  {
    Queue(q.requestCount + 1, q.requests[q.requestCount := r], q.balance,
          ApplyWrites(h, q.slots, RequestWrites(q.requestCount, r)))
  }

  /** `requests[i].status = s`. */
  function SetStatus(h: Hashes, q: Queue, i: U256, s: Status): Queue {
    q.(requests := q.requests[i := At(q, i).(status := s)],
       slots := ApplyWrites(h, q.slots, [(FieldPlace(i, 4), StatusWord(s))]))
  }

  /** `requests[i].bundleM6id = m6id`. */
  function SetBundle(h: Hashes, q: Queue, i: U256, m6id: U256): Queue {
    q.(requests := q.requests[i := At(q, i).(bundleM6id := m6id)],
       slots := ApplyWrites(h, q.slots, [(FieldPlace(i, 5), m6id)]))
  }

  // ----- Writes keep the representation -----

  lemma {:induction false} Unwritten(h: Hashes, slots: Slots, ws: seq<(Place, U256)>, slot: U256)
    requires forall k :: 0 <= k < |ws| ==> SlotOf(h, ws[k].0) != slot
    ensures Load(ApplyWrites(h, slots, ws), slot) == Load(slots, slot)
  {
    if ws != [] {
      assert SlotOf(h, ws[|ws| - 1].0) != slot;
      Unwritten(h, slots, ws[..|ws| - 1], slot);
    }
  }

  lemma {:induction false} Written(h: Hashes, slots: Slots, ws: seq<(Place, U256)>, k: nat)
    requires k < |ws|
    requires forall j :: k < j < |ws| ==> SlotOf(h, ws[j].0) != SlotOf(h, ws[k].0)
    ensures Load(ApplyWrites(h, slots, ws), SlotOf(h, ws[k].0)) == ws[k].1
  {
    if k < |ws| - 1 {
      assert SlotOf(h, ws[|ws| - 1].0) != SlotOf(h, ws[k].0);
      Written(h, slots, ws[..|ws| - 1], k);
    }
  }

  /** The place of the `k`-th write of a new request. */
  function WritePlace(i: U256, k: nat): Place {
    if k == 0 then CountPlace else if k < 7 then FieldPlace(i, k - 1) else ChunkPlace(i, k - 7)
  }

  lemma {:induction false} RequestWriteAt(i: U256, r: Request, k: nat)
    requires i + 1 < TWO_256 && k < |RequestWrites(i, r)|
    ensures |RequestWrites(i, r)| == 7 + ChunkCount(r.btcDestination)
    ensures RequestWrites(i, r)[k].0 == WritePlace(i, k)
    ensures RequestWrites(i, r)[k].1
         == if k == 0 then i + 1 else if k < 7 then FieldWord(r, k - 1) else ChunkWord(r.btcDestination, k - 7)
  {
  }

  /** A new request's writes land in places of its own, or on the counter. */
  lemma {:induction false} WritePlaceUsed(h: Hashes, q: Queue, r: Request, k: nat)
    requires q.requestCount + 1 < TWO_256 && k < |RequestWrites(q.requestCount, r)|
    ensures
      var p := WritePlace(q.requestCount, k);
      && RequestWrites(q.requestCount, r)[k].0 == p
      && Used(Push(h, q, r), p) && PlaceWord(Push(h, q, r), p) == RequestWrites(q.requestCount, r)[k].1
  {
    RequestWriteAt(q.requestCount, r, k);
  }

  lemma {:induction false} PlaceIsWritten(h: Hashes, q: Queue, r: Request, p: Place) returns (k: nat)
    requires q.requestCount + 1 < TWO_256 && Used(Push(h, q, r), p)
    requires p == CountPlace || p.index == q.requestCount
    ensures k < |RequestWrites(q.requestCount, r)| && RequestWrites(q.requestCount, r)[k].0 == p
  {
    k := match p
      case CountPlace => 0
      case FieldPlace(_, f) => 1 + f
      case ChunkPlace(_, c) => 7 + c;
    RequestWriteAt(q.requestCount, r, k);
  }

  lemma {:induction false} NewPlaceStored(h: Hashes, q: Queue, r: Request, p: Place)
    requires q.requestCount + 1 < TWO_256
    requires Separated(h, Push(h, q, r)) && Used(Push(h, q, r), p)
    requires p == CountPlace || p.index == q.requestCount
    ensures Load(Push(h, q, r).slots, SlotOf(h, p)) == PlaceWord(Push(h, q, r), p)
  {
    var ws := RequestWrites(q.requestCount, r);
    var k := PlaceIsWritten(h, q, r, p);
    WritePlaceUsed(h, q, r, k);
    forall j | k < j < |ws| ensures SlotOf(h, ws[j].0) != SlotOf(h, ws[k].0) {
      WritePlaceUsed(h, q, r, j);
    }
    Written(h, q.slots, ws, k);
  }

  lemma {:induction false} OldPlaceStored(h: Hashes, q: Queue, r: Request, p: Place)
    requires q.requestCount + 1 < TWO_256
    requires Separated(h, Push(h, q, r)) && Represents(h, q) && Used(Push(h, q, r), p)
    requires !(p == CountPlace || p.index == q.requestCount)
    ensures Load(Push(h, q, r).slots, SlotOf(h, p)) == PlaceWord(Push(h, q, r), p)
  {
    var ws := RequestWrites(q.requestCount, r);
    assert Used(q, p);
    forall k | 0 <= k < |ws| ensures SlotOf(h, ws[k].0) != SlotOf(h, p) {
      WritePlaceUsed(h, q, r, k);
    }
    Unwritten(h, q.slots, ws, SlotOf(h, p));
  }

  lemma {:induction false} PushStored(h: Hashes, q: Queue, r: Request)
    requires q.requestCount + 1 < TWO_256 && Stored(h, q)
    ensures Stored(h, Push(h, q, r))
  {
    hide Load, SlotOf, PlaceWord, ApplyWrites, RequestWrites;
    var q' := Push(h, q, r);
    if Separated(h, q') {
      assert forall p :: Used(q, p) ==> Used(q', p);
      assert Separated(h, q);
      forall p | Used(q', p) ensures Load(q'.slots, SlotOf(h, p)) == PlaceWord(q', p) {
        if p == CountPlace || p.index == q.requestCount {
          NewPlaceStored(h, q, r, p);
        } else {
          OldPlaceStored(h, q, r, p);
        }
      }
    }
  }

  lemma {:induction false} FieldWriteStored(h: Hashes, q: Queue, q': Queue, i: U256, f: nat, word: U256)
    requires i < q.requestCount == q'.requestCount && 4 <= f < 6 && Stored(h, q)
    requires forall p :: Used(q, p) <==> Used(q', p)
    requires forall p :: Used(q, p) && p != FieldPlace(i, f) ==> PlaceWord(q', p) == PlaceWord(q, p)
    requires PlaceWord(q', FieldPlace(i, f)) == word
    requires q'.slots == ApplyWrites(h, q.slots, [(FieldPlace(i, f), word)])
    ensures Stored(h, q')
  {
    var ws := [(FieldPlace(i, f), word)];
    if Separated(h, q') {
      assert Separated(h, q);
      forall p | Used(q', p) ensures Load(q'.slots, SlotOf(h, p)) == PlaceWord(q', p) {
        if p == FieldPlace(i, f) {
          Written(h, q.slots, ws, 0);
        } else {
          assert Used(q', FieldPlace(i, f));
          Unwritten(h, q.slots, ws, SlotOf(h, p));
        }
      }
    }
  }

  lemma {:induction false} SetStatusStored(h: Hashes, q: Queue, i: U256, s: Status)
    requires i < q.requestCount && Stored(h, q)
    ensures Stored(h, SetStatus(h, q, i, s))
  {
    hide Stored, HeadWord, ChunkWord, ChunkCount;
    var q' := SetStatus(h, q, i, s);
    forall p ensures Used(q, p) <==> Used(q', p) {
    }
    FieldWriteStored(h, q, q', i, 4, StatusWord(s));
  }

  lemma {:induction false} SetBundleStored(h: Hashes, q: Queue, i: U256, m6id: U256)
    requires i < q.requestCount && Stored(h, q)
    ensures Stored(h, SetBundle(h, q, i, m6id))
  {
    hide Stored, HeadWord, ChunkWord, ChunkCount;
    var q' := SetBundle(h, q, i, m6id);
    forall p ensures Used(q, p) <==> Used(q', p) {
    }
    FieldWriteStored(h, q, q', i, 5, m6id);
  }
}
