// The mainchain as the enforcer reports it: a tree of blocks with peg events, and the two folds
// that turn a range of blocks into deposits and bundle outcomes.

module Mainchain {
  import opened ByteCodec
  import opened QueueStorage
  import opened PegState

  datatype BundleStatus = Submitted | Succeeded | Failed

  datatype Outcome = Outcome(m6id: U256, status: BundleStatus)

  /** Every field of a reply may be missing. An address comes already parsed: `Malformed` is one
      that is not an Ethereum address. An m6id comes as the bytes its hex stands for. */
  datatype WireAddress = MissingAddress | Malformed | Parsed(address: Address)

  datatype DepositOutput = DepositOutput(valueSats: Option<u64>, address: WireAddress)

  datatype MainEvent =
    | DepositEvent(output: Option<DepositOutput>)
    | BundleEvent(m6id: Option<Bytes>, status: Option<BundleStatus>)
    | OtherEvent

  datatype MainBlock = MainBlock(prev: Option<U256>, height: nat, info: Option<seq<MainEvent>>)

  datatype Mainchain = Mainchain(blocks: map<U256, MainBlock>)

  datatype EnforcerError = Rpc | MissingField | InvalidHex | InvalidDepositAddress

  ghost predicate Tree(m: Mainchain) {
    forall x :: x in m.blocks && m.blocks[x].prev.Some? ==>
      m.blocks[x].prev.value in m.blocks && m.blocks[m.blocks[x].prev.value].height < m.blocks[x].height
  }

  // ----- Ranges -----

  /** The blocks after `start` up to and including `end`, oldest first; from the first block when
      `start` is None. None when `start` is not `end` or an ancestor of it. */
  ghost function Path(m: Mainchain, start: Option<U256>, end: U256): Option<seq<U256>>
    requires Tree(m)
    decreases if end in m.blocks then m.blocks[end].height else 0
  {
    if end !in m.blocks then None
    else if start == Some(end) then Some([])
    else if m.blocks[end].prev.None? then if start.None? then Some([end]) else None
    else
      var before :- Path(m, start, m.blocks[end].prev.value);
      Some(before + [end])
  }

  /** Consecutive ranges join into one. */
  lemma {:induction false} PathsJoin(m: Mainchain, start: Option<U256>, middle: U256, end: U256)
    requires Tree(m) && Path(m, start, middle).Some? && Path(m, Some(middle), end).Some?
    ensures Path(m, start, end) == Some(Path(m, start, middle).value + Path(m, Some(middle), end).value)
    decreases m.blocks[end].height
  {
    var a := Path(m, start, middle).value;
    if end == middle {
      assert a + [] == a;
    } else {
      var prev := m.blocks[end].prev.value;
      PathsJoin(m, start, middle, prev);
      if start == Some(end) {
        PathRises(m, start, middle);
        PathRises(m, Some(middle), end);
        assert false;
      }
      assert a + (Path(m, Some(middle), prev).value + [end]) == a + Path(m, Some(middle), prev).value + [end];
    }
  }

  /** A range's blocks lie above its start and climb strictly to its end. */
  lemma {:induction false} PathRises(m: Mainchain, start: Option<U256>, end: U256)
    requires Tree(m) && Path(m, start, end).Some?
    ensures
      var path := Path(m, start, end).value;
      && (forall i :: 0 <= i < |path| ==> path[i] in m.blocks && m.blocks[path[i]].height <= m.blocks[end].height)
      && (forall i, j :: 0 <= i < j < |path| ==> m.blocks[path[i]].height < m.blocks[path[j]].height)
      && (start.Some? ==> start.value in m.blocks)
      && (start.Some? ==> forall i :: 0 <= i < |path| ==> m.blocks[start.value].height < m.blocks[path[i]].height)
      && (path == [] ==> start == Some(end))
      && (path != [] ==> path[|path| - 1] == end)
    decreases m.blocks[end].height
  {
    if start != Some(end) && m.blocks[end].prev.Some? {
      PathRises(m, start, m.blocks[end].prev.value);
    }
  }

  /** What comes before block `i` of a path from `start`. */
  function Below(start: Option<U256>, path: seq<U256>, i: nat): Option<U256>
    requires i < |path|
  {
    if i == 0 then start else Some(path[i - 1])
  }

  lemma {:induction false} BelowIs(start: Option<U256>, path: seq<U256>, i: nat)
    requires i < |path|
    ensures Below(start, path, i) == if i == 0 then start else Some(path[i - 1])
    ensures forall n :: i < n <= |path| ==> Below(start, path[..n], i) == Below(start, path, i)
    ensures forall x: U256 :: Below(start, path + [x], i) == Below(start, path, i)
  {
  }

  /** `path` leads from `start` to `end` block by block: the parent of each block is the one before
      it, that of the first is `start`, and the last is `end`. */
  ghost predicate Linked(m: Mainchain, start: Option<U256>, path: seq<U256>, end: U256) {
    && end in m.blocks
    && (path == [] ==> start == Some(end))
    && (path != [] ==> path[|path| - 1] == end)
    && (forall i :: 0 <= i < |path| ==>
          path[i] in m.blocks && m.blocks[path[i]].prev == Below(start, path, i))
  }

  lemma {:induction false} LinkedShorter(m: Mainchain, start: Option<U256>, path: seq<U256>, n: nat)
    requires 0 < n < |path| && Linked(m, start, path, path[|path| - 1])
    ensures Linked(m, start, path[..n], path[n - 1])
  {
    hide Below;
    var shorter := path[..n];
    forall i | 0 <= i < n ensures shorter[i] in m.blocks && m.blocks[shorter[i]].prev == Below(start, shorter, i) {
      BelowIs(start, path, i);
      assert path[i] in m.blocks && m.blocks[path[i]].prev == Below(start, path, i);
    }
  }

  lemma {:induction false} LinkedLonger(m: Mainchain, start: Option<U256>, path: seq<U256>, prev: U256, end: U256)
    requires Linked(m, start, path, prev) && end in m.blocks && m.blocks[end].prev == Some(prev)
    ensures Linked(m, start, path + [end], end)
  {
    hide Below;
    var longer := path + [end];
    forall i | 0 <= i < |longer|
      ensures longer[i] in m.blocks
      ensures m.blocks[longer[i]].prev == Below(start, longer, i)
    {
      BelowIs(start, longer, i);
      if i < |path| {
        BelowIs(start, path, i);
        assert path[i] in m.blocks && m.blocks[path[i]].prev == Below(start, path, i);
      }
    }
  }

  lemma {:induction false} LinkedRises(m: Mainchain, start: U256, path: seq<U256>, end: U256)
    requires Tree(m) && Linked(m, Some(start), path, end) && path != []
    ensures start in m.blocks && m.blocks[start].height < m.blocks[end].height
  {
    var n := |path| - 1;
    if n > 0 {
      LinkedShorter(m, Some(start), path, n);
      LinkedRises(m, start, path[..n], path[n - 1]);
    }
  }

  lemma {:induction false} PathIsLinked(m: Mainchain, start: Option<U256>, end: U256)
    requires Tree(m) && Path(m, start, end).Some?
    ensures Linked(m, start, Path(m, start, end).value, end)
    decreases m.blocks[end].height
  {
    if start != Some(end) && m.blocks[end].prev.Some? {
      var prev := m.blocks[end].prev.value;
      PathIsLinked(m, start, prev);
      LinkedLonger(m, start, Path(m, start, prev).value, prev, end);
    }
  }

  lemma {:induction false} PathOneMore(m: Mainchain, start: Option<U256>, path: seq<U256>, end: U256)
    requires Tree(m) && end in m.blocks && start != Some(end)
    ensures m.blocks[end].prev.None? && start.None? ==> Path(m, start, end) == Some([end])
    ensures m.blocks[end].prev.Some? && Path(m, start, m.blocks[end].prev.value) == Some(path)
        ==> Path(m, start, end) == Some(path + [end])
  {
  }

  lemma {:induction false} PathToItself(m: Mainchain, end: U256)
    requires Tree(m) && end in m.blocks
    ensures Path(m, Some(end), end) == Some([])
  {
  }

  lemma {:induction false} NotBelowItself(m: Mainchain, start: Option<U256>, path: seq<U256>, end: U256)
    requires Tree(m) && Linked(m, start, path, end) && path != []
    ensures start != Some(end)
  {
    if start.Some? {
      LinkedRises(m, start.value, path, end);
    }
  }

  lemma {:induction false} LinkedIsPath(m: Mainchain, start: Option<U256>, path: seq<U256>, end: U256)
    requires Tree(m) && Linked(m, start, path, end)
    ensures Path(m, start, end) == Some(path)
    decreases |path|
  {
    hide Path, Tree, Below;
    if path == [] {
      PathToItself(m, end);
    } else {
      var n := |path| - 1;
      NotBelowItself(m, start, path, end);
      BelowIs(start, path, n);
      assert m.blocks[path[n]].prev == Below(start, path, n);
      if n > 0 {
        LinkedShorter(m, start, path, n);
        LinkedIsPath(m, start, path[..n], path[n - 1]);
      } else if start.Some? {
        ParentExists(m, end);
        PathToItself(m, start.value);
      }
      PathOneMore(m, start, path[..n], end);
      assert path == path[..n] + [end];
    }
  }

  lemma {:induction false} ParentExists(m: Mainchain, x: U256)
    requires Tree(m) && x in m.blocks && m.blocks[x].prev.Some?
    ensures m.blocks[x].prev.value in m.blocks
  {
  }

  /** A range is the one sequence of blocks that leads from its start to its end. */
  lemma {:induction false} PathExactly(m: Mainchain, start: Option<U256>, path: seq<U256>, end: U256)
    requires Tree(m)
    ensures Path(m, start, end) == Some(path) <==> Linked(m, start, path, end)
  {
    if Path(m, start, end) == Some(path) {
      PathIsLinked(m, start, end);
    }
    if Linked(m, start, path, end) {
      LinkedIsPath(m, start, path, end);
    }
  }

  /** No block is in a range twice. */
  lemma {:induction false} PathDistinct(m: Mainchain, start: Option<U256>, end: U256)
    requires Tree(m) && Path(m, start, end).Some?
    ensures
      var path := Path(m, start, end).value;
      forall i, j :: 0 <= i < j < |path| ==> path[i] != path[j]
  {
    PathRises(m, start, end);
  }

  // ----- Events of a range -----

  function EventsOf(b: MainBlock): seq<MainEvent> {
    if b.info.Some? then b.info.value else []
  }

  ghost function PathEvents(m: Mainchain, path: seq<U256>): seq<MainEvent>
    requires forall i :: 0 <= i < |path| ==> path[i] in m.blocks
  {
    if path == [] then []
    else PathEvents(m, path[..|path| - 1]) + EventsOf(m.blocks[path[|path| - 1]])
  }

  lemma {:induction false} PathEventsConcat(m: Mainchain, a: seq<U256>, b: seq<U256>)
    requires forall i :: 0 <= i < |a| ==> a[i] in m.blocks
    requires forall i :: 0 <= i < |b| ==> b[i] in m.blocks
    ensures PathEvents(m, a + b) == PathEvents(m, a) + PathEvents(m, b)
  {
    if b == [] {
      assert a + b == a;
    } else {
      var n := |b| - 1;
      PathEventsConcat(m, a, b[..n]);
      assert (a + b)[..|a + b| - 1] == a + b[..n];
    }
  }

  // ----- The two folds -----

  function ParseTxidConsensus(bytes: Bytes): Option<U256> {
    if |bytes| == 32 then Some(WordOf(bytes)) else None
  }

  function Reversed(b: Bytes): (r: Bytes)
    ensures |r| == |b|
  {
    if b == [] then [] else Reversed(b[1..]) + [b[0]]
  }

  /** The bytes of an m6id, in the order the contract stores them, parse back to it; in the reverse
      order, which hexadecimal txids are usually shown in, they name another bundle unless they are
      a palindrome. */
  lemma {:induction false} M6idByteOrder(m6id: U256)
    ensures ParseTxidConsensus(BigEndian(m6id, 32)) == Some(m6id)
    ensures ParseTxidConsensus(Reversed(BigEndian(m6id, 32))) == Some(m6id)
       <==> Reversed(BigEndian(m6id, 32)) == BigEndian(m6id, 32)
  {
    Pow256Values();
    BigEndianRoundTrip(m6id, 32);
    FromBigEndianRoundTrip(Reversed(BigEndian(m6id, 32)));
  }

  /** What one event adds to the deposits. */
  function DepositOf(e: MainEvent): Result<seq<Deposit>, EnforcerError> {
    if !e.DepositEvent? then Ok([])
    else if e.output.None? || e.output.value.valueSats.None? || e.output.value.address.MissingAddress?
      then Err(MissingField)
    else if e.output.value.address.Malformed? then Err(InvalidDepositAddress)
    else Ok([Deposit(e.output.value.address.address, e.output.value.valueSats.value)])
  }

  /** What one event adds to the outcomes; an event without a status is dropped, but only after
      its m6id has been parsed. */
  function OutcomeOf(e: MainEvent): Result<seq<Outcome>, EnforcerError> {
    if !e.BundleEvent? then Ok([])
    else if e.m6id.None? then Err(MissingField)
    else if ParseTxidConsensus(e.m6id.value).None? then Err(InvalidHex)
    else if e.status.None? then Ok([])
    else Ok([Outcome(ParseTxidConsensus(e.m6id.value).value, e.status.value)])
  }

  /** The fold both functions are: what the events add up to, or the first error. */
  ghost function Collected<T>(events: seq<MainEvent>, f: MainEvent -> Result<seq<T>, EnforcerError>)
    : Result<seq<T>, EnforcerError>
  {
    if events == [] then Ok([]) else
      var before :- Collected(events[..|events| - 1], f);
      var last :- f(events[|events| - 1]);
      Ok(before + last)
  }

  /** The fold succeeds exactly when every event does. */
  lemma {:induction false} CollectedOkExactly<T>(events: seq<MainEvent>, f: MainEvent -> Result<seq<T>, EnforcerError>)
    ensures Collected(events, f).Ok? <==> forall i :: 0 <= i < |events| ==> f(events[i]).Ok?
  {
    if events != [] {
      var n := |events| - 1;
      CollectedOkExactly(events[..n], f);
      assert forall i :: 0 <= i < n ==> events[..n][i] == events[i];
    }
  }

  /** An event both folds can read: every field there, a deposit's address an Ethereum address, an
      m6id 32 bytes long. */
  predicate WellFormed(e: MainEvent) {
    match e
    case DepositEvent(output) => output.Some? && output.value.valueSats.Some? && output.value.address.Parsed?
    case BundleEvent(m6id, _) => m6id.Some? && |m6id.value| == 32
    case OtherEvent => true
  }

  ghost predicate AllWellFormed(events: seq<MainEvent>) {
    forall i :: 0 <= i < |events| ==> WellFormed(events[i])
  }

  lemma {:induction false} WellFormedExactly(events: seq<MainEvent>)
    ensures AllWellFormed(events) <==> Collected(events, DepositOf).Ok? && Collected(events, OutcomeOf).Ok?
  {
    CollectedOkExactly(events, DepositOf);
    CollectedOkExactly(events, OutcomeOf);
    forall i | 0 <= i < |events|
      ensures WellFormed(events[i]) <==> DepositOf(events[i]).Ok? && OutcomeOf(events[i]).Ok?
    {
    }
  }

  /** What is on a path is among its events. */
  lemma {:induction false} PathEventsInclude(m: Mainchain, path: seq<U256>, k: nat, e: MainEvent)
    requires forall i :: 0 <= i < |path| ==> path[i] in m.blocks
    requires k < |path| && e in EventsOf(m.blocks[path[k]])
    ensures e in PathEvents(m, path)
  {
    var n := |path| - 1;
    if k < n {
      PathEventsInclude(m, path[..n], k, e);
    }
  }

  /** Ranges that follow one another fold separately, and an error stays an error. */
  lemma {:induction false} CollectedConcat<T>(a: seq<MainEvent>, b: seq<MainEvent>,
                                              f: MainEvent -> Result<seq<T>, EnforcerError>)
    ensures Collected(a, f).Err? ==> Collected(a + b, f) == Collected(a, f)
    ensures Collected(a, f).Ok? && Collected(b, f).Ok?
        ==> Collected(a + b, f) == Ok(Collected(a, f).value + Collected(b, f).value)
  {
    if b == [] {
      assert a + b == a;
      if Collected(a, f).Ok? {
        assert Collected(a, f).value + [] == Collected(a, f).value;
      }
    } else {
      var n := |b| - 1;
      CollectedConcat(a, b[..n], f);
      assert (a + b)[..|a + b| - 1] == a + b[..n];
      if Collected(a, f).Ok? && Collected(b, f).Ok? {
        assert Collected(a, f).value + (Collected(b[..n], f).value + f(b[n]).value)
            == Collected(a, f).value + Collected(b[..n], f).value + f(b[n]).value;
      }
    }
  }

  /** The reply's blocks, flattened. */
  ghost function ReplyEvents(blocks: seq<MainBlock>): seq<MainEvent> {
    if blocks == [] then [] else ReplyEvents(blocks[..|blocks| - 1]) + EventsOf(blocks[|blocks| - 1])
  }

  /** What the nested loops have read: all of the first `b` blocks and `e` events of the next. */
  ghost function ReadSoFar(blocks: seq<MainBlock>, b: nat, e: nat): seq<MainEvent>
    requires b < |blocks| && e <= |EventsOf(blocks[b])|
  {
    ReplyEvents(blocks[..b]) + EventsOf(blocks[b])[..e]
  }

  lemma {:induction false} ReadSoFarIsPrefix(blocks: seq<MainBlock>, b: nat, e: nat) returns (rest: seq<MainEvent>)
    requires b < |blocks| && e <= |EventsOf(blocks[b])|
    ensures ReplyEvents(blocks) == ReadSoFar(blocks, b, e) + rest
  {
    var n := |blocks| - 1;
    if b == n {
      rest := EventsOf(blocks[b])[e..];
    } else {
      var shorter := ReadSoFarIsPrefix(blocks[..n], b, e);
      assert blocks[..n][..b] == blocks[..b];
      rest := shorter + EventsOf(blocks[n]);
    }
  }

  lemma {:induction false} ErrorIsFinal<T>(blocks: seq<MainBlock>, b: nat, e: nat,
                                           f: MainEvent -> Result<seq<T>, EnforcerError>)
    requires b < |blocks| && e <= |EventsOf(blocks[b])|
    requires Collected(ReadSoFar(blocks, b, e), f).Err?
    ensures Collected(ReplyEvents(blocks), f) == Collected(ReadSoFar(blocks, b, e), f)
  {
    var rest := ReadSoFarIsPrefix(blocks, b, e);
    CollectedConcat(ReadSoFar(blocks, b, e), rest, f);
  }

  lemma {:induction false} ReadOneMore(blocks: seq<MainBlock>, b: nat, e: nat)
    requires b < |blocks| && e < |EventsOf(blocks[b])|
    ensures ReadSoFar(blocks, b, e + 1) == ReadSoFar(blocks, b, e) + [EventsOf(blocks[b])[e]]
  {
  }

  lemma {:induction false} ReadWholeBlock(blocks: seq<MainBlock>, b: nat)
    requires b < |blocks|
    ensures ReadSoFar(blocks, b, 0) == ReplyEvents(blocks[..b])
    ensures ReadSoFar(blocks, b, |EventsOf(blocks[b])|) == ReplyEvents(blocks[..b + 1])
  {
    assert blocks[..b + 1][..b] == blocks[..b];
    assert EventsOf(blocks[b])[..|EventsOf(blocks[b])|] == EventsOf(blocks[b]);
  }

  /** The two nested loops of `deposits` and of `withdrawal_bundle_events`. */
  method Collect<T>(blocks: seq<MainBlock>, f: MainEvent -> Result<seq<T>, EnforcerError>)
    returns (r: Result<seq<T>, EnforcerError>)
    ensures r == Collected(ReplyEvents(blocks), f)
  {
    var collected: seq<T> := [];
    for b := 0 to |blocks|
      invariant Collected(ReplyEvents(blocks[..b]), f) == Ok(collected)
    {
      var events := EventsOf(blocks[b]);
      ReadWholeBlock(blocks, b);
      for e := 0 to |events|
        invariant Collected(ReadSoFar(blocks, b, e), f) == Ok(collected)
      {
        ReadOneMore(blocks, b, e);
        assert ReadSoFar(blocks, b, e + 1)[..|ReadSoFar(blocks, b, e)|] == ReadSoFar(blocks, b, e);
        var added := f(events[e]);
        if added.Err? {
          ErrorIsFinal(blocks, b, e + 1, f);
          return Err(added.error);
        }
        collected := collected + added.value;
      }
    }
    assert blocks[..|blocks|] == blocks;
    return Ok(collected);
  }

  // ----- What a node asks the enforcer -----

  /** `GetTwoWayPegData`: the blocks of the range, or an RPC error when it is not a range. */
  ghost predicate Replies(m: Mainchain, start: Option<U256>, end: U256, reply: Option<seq<MainBlock>>)
    requires Tree(m)
  {
    var path := Path(m, start, end);
    && (reply.Some? <==> path.Some?)
    && (reply.Some? ==> |reply.value| == |path.value|)
    && (reply.Some? ==> forall i :: 0 <= i < |path.value| ==>
          path.value[i] in m.blocks && reply.value[i] == m.blocks[path.value[i]])
  }

  /** What the events of a range add up to. */
  ghost function InRange<T>(m: Mainchain, start: Option<U256>, end: U256, f: MainEvent -> Result<seq<T>, EnforcerError>)
    : Result<seq<T>, EnforcerError>
    requires Tree(m)
  {
    var path := Path(m, start, end);
    if path.None? then Err(Rpc) else
      PathRises(m, start, end);
      Collected(PathEvents(m, path.value), f)
  }

  ghost function DepositsInRange(m: Mainchain, start: Option<U256>, end: U256): Result<seq<Deposit>, EnforcerError>
    requires Tree(m)
  {
    InRange(m, start, end, DepositOf)
  }

  ghost function OutcomesInRange(m: Mainchain, start: Option<U256>, end: U256): Result<seq<Outcome>, EnforcerError>
    requires Tree(m)
  {
    InRange(m, start, end, OutcomeOf)
  }

  /** Two ranges, the second starting where the first ends, report together what the joint range
      reports. */
  lemma {:induction false} RangesJoin<T>(m: Mainchain, start: Option<U256>, middle: U256, end: U256,
                                         f: MainEvent -> Result<seq<T>, EnforcerError>)
    requires Tree(m) && InRange(m, start, middle, f).Ok? && InRange(m, Some(middle), end, f).Ok?
    ensures InRange(m, start, end, f) == Ok(InRange(m, start, middle, f).value + InRange(m, Some(middle), end, f).value)
  {
    var a, b := Path(m, start, middle).value, Path(m, Some(middle), end).value;
    PathsJoin(m, start, middle, end);
    PathRises(m, start, middle);
    PathRises(m, Some(middle), end);
    PathEventsConcat(m, a, b);
    CollectedConcat(PathEvents(m, a), PathEvents(m, b), f);
  }

  lemma {:induction false} RestIsReadable<T>(a: seq<MainEvent>, b: seq<MainEvent>,
                                             f: MainEvent -> Result<seq<T>, EnforcerError>)
    requires Collected(a + b, f).Ok?
    ensures Collected(b, f).Ok?
  {
    CollectedOkExactly(a + b, f);
    CollectedOkExactly(b, f);
    forall i | 0 <= i < |b| ensures f(b[i]).Ok? {
      assert (a + b)[|a| + i] == b[i];
    }
  }

  /** When a joint range can be read, so can its second part, and it reports the rest. */
  lemma {:induction false} RangeRest<T>(m: Mainchain, start: Option<U256>, middle: U256, end: U256,
                                        f: MainEvent -> Result<seq<T>, EnforcerError>)
    requires Tree(m) && InRange(m, start, middle, f).Ok? && Path(m, Some(middle), end).Some?
    requires InRange(m, start, end, f).Ok?
    ensures InRange(m, Some(middle), end, f).Ok?
    ensures InRange(m, start, end, f)
         == Ok(InRange(m, start, middle, f).value + InRange(m, Some(middle), end, f).value)
  {
    hide Collected, Path;
    var a, b := Path(m, start, middle).value, Path(m, Some(middle), end).value;
    PathsJoin(m, start, middle, end);
    PathRises(m, start, middle);
    PathRises(m, Some(middle), end);
    PathEventsConcat(m, a, b);
    RestIsReadable(PathEvents(m, a), PathEvents(m, b), f);
    RangesJoin(m, start, middle, end, f);
  }

  lemma {:induction false} ReplyIsPath(m: Mainchain, path: seq<U256>, blocks: seq<MainBlock>)
    requires |blocks| == |path|
    requires forall i :: 0 <= i < |path| ==> path[i] in m.blocks && blocks[i] == m.blocks[path[i]]
    ensures ReplyEvents(blocks) == PathEvents(m, path)
  {
    if path != [] {
      ReplyIsPath(m, path[..|path| - 1], blocks[..|path| - 1]);
    }
  }

  method Deposits(ghost m: Mainchain, ghost start: Option<U256>, ghost end: U256, reply: Option<seq<MainBlock>>)
    returns (r: Result<seq<Deposit>, EnforcerError>)
    requires Tree(m) && Replies(m, start, end, reply)
    ensures r == DepositsInRange(m, start, end)
  {
    if reply.None? {
      return Err(Rpc);
    }
    ReplyIsPath(m, Path(m, start, end).value, reply.value);
    r := Collect(reply.value, DepositOf);
  }

  method WithdrawalBundleEvents(ghost m: Mainchain, ghost start: Option<U256>, ghost end: U256,
                                reply: Option<seq<MainBlock>>)
    returns (r: Result<seq<Outcome>, EnforcerError>)
    requires Tree(m) && Replies(m, start, end, reply)
    ensures r == OutcomesInRange(m, start, end)
  {
    if reply.None? {
      return Err(Rpc);
    }
    ReplyIsPath(m, Path(m, start, end).value, reply.value);
    r := Collect(reply.value, OutcomeOf);
  }
}
