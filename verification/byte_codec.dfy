// Byte strings and the fixed-width and variable-width integer encodings that the contract's
// storage, the M6 transaction and its commitments are written in.

module ByteCodec {
  const U32_MAX: nat := 0xFFFF_FFFF
  const U64_MAX: nat := 0xFFFF_FFFF_FFFF_FFFF
  const TWO_256: nat :=
    0x1_0000000000000000_0000000000000000_0000000000000000_0000000000000000

  type byte = x: int | 0 <= x < 256
  type Bytes = seq<byte>
  type u32 = x: int | 0 <= x <= U32_MAX
  type u64 = x: int | 0 <= x <= U64_MAX
  type U256 = x: int | 0 <= x < TWO_256

  /** A byte vector whose length fits `usize`; every script in the system is one. */
  type Script = s: Bytes | |s| <= U64_MAX witness []

  datatype Option<+T> = None | Some(value: T) {
    predicate IsFailure() {
      None?
    }

    function PropagateFailure<U>(): Option<U>
      requires None?
    {
      None
    }

    function Extract(): T
      requires Some?
    {
      value
    }
  }

  datatype Result<+T, +E> = Ok(value: T) | Err(error: E) {
    predicate IsFailure() {
      Err?
    }

    function PropagateFailure<U>(): Result<U, E>
      requires Err?
    {
      Err(error)
    }

    function Extract(): T
      requires Ok?
    {
      value
    }
  }

  function Min(a: nat, b: nat): nat {
    if a <= b then a else b
  }

  /** Rust's `u32::checked_add`. */
  function CheckedAdd(a: u32, b: u32): Option<u32> {
    if a + b <= U32_MAX then Some(a + b) else None
  }

  /** Rust's `u64::saturating_add`. */
  function SaturatingAdd(a: u64, b: u64): u64 {
    Min(a + b, U64_MAX)
  }

  function Pow256(k: nat): nat {
    if k == 0 then 1 else 256 * Pow256(k - 1)
  }

  function Zeros(k: nat): (b: Bytes)
    ensures |b| == k && forall i :: 0 <= i < k ==> b[i] == 0
  {
    seq(k, i => 0)
  }

  /** The low `width` bytes of `n`, most significant first. */
  function BigEndian(n: nat, width: nat): (b: Bytes)
    ensures |b| == width
  {
    if width == 0 then [] else BigEndian(n / 256, width - 1) + [n % 256]
  }

  /** The low `width` bytes of `n`, least significant first. */
  function LittleEndian(n: nat, width: nat): (b: Bytes)
    ensures |b| == width
  {
    if width == 0 then [] else [n % 256] + LittleEndian(n / 256, width - 1)
  }

  function FromBigEndian(b: Bytes): (n: nat)
    ensures n < Pow256(|b|)
  {
    if b == [] then 0 else FromBigEndian(b[..|b| - 1]) * 256 + b[|b| - 1]
  }

  lemma {:induction false} BigEndianRoundTrip(n: nat, width: nat)
    requires n < Pow256(width)
    ensures FromBigEndian(BigEndian(n, width)) == n
  {
    if width != 0 {
      BigEndianRoundTrip(n / 256, width - 1);
      assert BigEndian(n, width)[..width - 1] == BigEndian(n / 256, width - 1);
    }
  }

  lemma {:induction false} FromBigEndianRoundTrip(b: Bytes)
    ensures BigEndian(FromBigEndian(b), |b|) == b
  {
    if b != [] {
      FromBigEndianRoundTrip(b[..|b| - 1]);
      assert b == b[..|b| - 1] + [b[|b| - 1]];
    }
  }

  // ----- Digit by digit -----

  lemma {:induction false} QuotientIs(n: nat, d: nat, q: nat, r: nat)
    requires r < d && n == d * q + r
    ensures n / d == q
  {
    var x := n / d;
    assert x < q ==> d * (x + 1) <= d * q;
    assert q < x ==> d * (q + 1) <= d * x;
  }

  lemma {:induction false} DivideTwice(n: nat, p: nat)
    requires p > 0
    ensures n / 256 / p == n / (256 * p)
  {
    var a := n / 256;
    var q, r := a / p, a % p;
    assert a == p * q + r;
    assert n == 256 * p * q + (256 * r + n % 256);
    QuotientIs(n, 256 * p, q, 256 * r + n % 256);
  }

  lemma {:induction false} Pow256Positive(k: nat)
    ensures Pow256(k) > 0
  {
    if k > 0 {
      Pow256Positive(k - 1);
    }
  }

  /** The most significant byte comes first. */
  lemma {:induction false} BigEndianDigit(n: nat, width: nat, k: nat)
    requires k < width
    ensures Pow256(width - 1 - k) > 0
    ensures BigEndian(n, width)[k] == n / Pow256(width - 1 - k) % 256
  {
    Pow256Positive(width - 1 - k);
    if k < width - 1 {
      BigEndianDigit(n / 256, width - 1, k);
      DivideTwice(n, Pow256(width - 2 - k));
    }
  }

  /** The least significant byte comes first. */
  lemma {:induction false} LittleEndianDigit(n: nat, width: nat, k: nat)
    requires k < width
    ensures Pow256(k) > 0
    ensures LittleEndian(n, width)[k] == n / Pow256(k) % 256
  {
    Pow256Positive(k);
    if k > 0 {
      LittleEndianDigit(n / 256, width - 1, k - 1);
      DivideTwice(n, Pow256(k - 1));
    }
  }

  function FromLittleEndian(b: Bytes): nat {
    if b == [] then 0 else b[0] + 256 * FromLittleEndian(b[1..])
  }

  lemma {:induction false} LittleEndianRoundTrip(n: nat, width: nat)
    requires n < Pow256(width)
    ensures FromLittleEndian(LittleEndian(n, width)) == n
  {
    if width != 0 {
      LittleEndianRoundTrip(n / 256, width - 1);
      assert LittleEndian(n, width)[1..] == LittleEndian(n / 256, width - 1);
    }
  }

  /** Fixed-width encodings of values that fit lose nothing. */
  lemma {:induction false} LittleEndianInjective(a: nat, b: nat, width: nat)
    requires a < Pow256(width) && b < Pow256(width)
    requires LittleEndian(a, width) == LittleEndian(b, width)
    ensures a == b
  {
    LittleEndianRoundTrip(a, width);
    LittleEndianRoundTrip(b, width);
  }

  lemma {:induction false} BigEndianInjective(a: nat, b: nat, width: nat)
    requires a < Pow256(width) && b < Pow256(width)
    requires BigEndian(a, width) == BigEndian(b, width)
    ensures a == b
  {
    BigEndianRoundTrip(a, width);
    BigEndianRoundTrip(b, width);
  }

  lemma {:induction false} Pow256Values()
    ensures Pow256(4) == U32_MAX + 1
    ensures Pow256(8) == U64_MAX + 1
    ensures Pow256(32) == TWO_256
  {
    assert Pow256(2) == 0x1_0000;
    assert Pow256(4) == 0x1_0000 * 0x1_0000;
    assert Pow256(8) == 0x1_0000_0000 * 0x1_0000_0000;
    assert Pow256(12) == 0x1_0000_0000 * Pow256(8);
    assert Pow256(16) == 0x1_0000_0000 * Pow256(12);
    assert Pow256(20) == 0x1_0000_0000 * Pow256(16);
    assert Pow256(24) == 0x1_0000_0000 * Pow256(20);
    assert Pow256(28) == 0x1_0000_0000 * Pow256(24);
  }

  /** A 32-byte word read as a `U256`. */
  function WordOf(b: Bytes): U256
    requires |b| == 32
  {
    Pow256Values();
    FromBigEndian(b)
  }

  /** Bitcoin's CompactSize prefix of a length (of its low 64 bits, should it not fit). */
  function CompactSize(n: nat): (b: Bytes)
    ensures |b| == CompactSizeLen(n)
  {
    if n < 0xFD then [n]
    else if n <= 0xFFFF then [0xFD] + LittleEndian(n, 2)
    else if n <= U32_MAX then [0xFE] + LittleEndian(n, 4)
    else [0xFF] + LittleEndian(n, 8)
  }

  /** `bitcoin::VarInt::size`. */
  function CompactSizeLen(n: nat): nat {
    if n < 0xFD then 1 else if n <= 0xFFFF then 3 else if n <= U32_MAX then 5 else 9
  }

  lemma {:induction false} Assoc(a: Bytes, b: Bytes, c: Bytes)
    ensures a + b + c == a + (b + c)
  {
  }

  lemma {:induction false} AssocFour(a: Bytes, b: Bytes, c: Bytes, d: Bytes)
    ensures a + b + c + d == a + (b + (c + d))
  {
  }

  /** Two equal strings cut after prefixes of equal length have equal parts. */
  lemma {:induction false} SplitEqual(a: Bytes, x: Bytes, b: Bytes, y: Bytes)
    requires |a| == |b| && a + x == b + y
    ensures a == b && x == y
  {
    assert (a + x)[..|a|] == a && (b + y)[..|a|] == b;
    assert (a + x)[|a|..] == x && (b + y)[|a|..] == y;
  }

  /** The number of bytes after the first byte of a CompactSize. */
  function CompactSizeTail(first: byte): nat {
    if first < 0xFD then 0 else if first == 0xFD then 2 else if first == 0xFE then 4 else 8
  }

  /** Reads a CompactSize off the front: the length, and what follows it. */
  function ParseCompactSize(b: Bytes): Option<(nat, Bytes)> {
    if b == [] then None else
      var tail := CompactSizeTail(b[0]);
      if |b| < 1 + tail then None
      else if tail == 0 then Some((b[0], b[1..]))
      else Some((FromLittleEndian(b[1..1 + tail]), b[1 + tail..]))
  }

  /** What is written as a CompactSize is read back, whatever follows. */
  lemma {:induction false} CompactSizeRoundTrip(n: u64, rest: Bytes)
    ensures ParseCompactSize(CompactSize(n) + rest) == Some((n, rest))
  {
    hide LittleEndian, FromLittleEndian, Pow256;
    var b := CompactSize(n) + rest;
    var w := |CompactSize(n)| - 1;
    assert b[0] == CompactSize(n)[0] && CompactSizeTail(b[0]) == w;
    assert b[1 + w..] == rest && b[1..1 + w] == CompactSize(n)[1..];
    if n >= 0xFD {
      assert CompactSize(n)[1..] == LittleEndian(n, w);
      SmallPowers();
      LittleEndianRoundTrip(n, w);
    }
  }

  lemma {:induction false} SmallPowers()
    ensures Pow256(2) == 0x1_0000 && Pow256(4) == U32_MAX + 1 && Pow256(8) == U64_MAX + 1
  {
    Pow256Values();
    assert Pow256(2) == 0x1_0000;
  }

  /** CompactSize is prefix-free: what follows a length cannot change the length read. */
  lemma {:induction false} CompactSizePrefixFree(n: u64, x: Bytes, m: u64, y: Bytes)
    requires CompactSize(n) + x == CompactSize(m) + y
    ensures n == m && x == y
  {
    CompactSizeRoundTrip(n, x);
    CompactSizeRoundTrip(m, y);
  }
}
