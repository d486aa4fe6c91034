/** The 16-bit message counter, its two id bytes, and the sequence of ids a run uses. */
module MessageIds {
  import opened Basics

  /** The value of a C `char` holding byte `b`, for a signed or an unsigned `char`. */
  function CharValue(signed: bool, b: byte): int {
    if signed && b >= 128 then b - 256 else b
  }

  function Low(c: u16): byte { c % 256 }

  function High(c: u16): byte { c / 256 }

  /** convert2BytesToU16Int: the sum of two chars, truncated to 16 bits. */
  function Decode(signed: bool, low: byte, high: byte): u16 {
    (CharValue(signed, low) + 256 * CharValue(signed, high)) % 65536
  }

  /** One more, in 16 bits. */
  function Following(c: u16): u16 { (c + 1) % 65536 }

  /** The counter after a confirmation that echoes the id stamped from counter `c`. */
  function Next(signed: bool, c: u16): u16 {
    Following(Decode(signed, Low(c), High(c)))
  }

  /** The counter after `n` such confirmations. */
  function Iter(signed: bool, n: nat, c: u16): u16 {
    if n == 0 then c else Iter(signed, n - 1, Next(signed, c))
  }

  /** What one confirmation adds to the high byte: a signed low byte in 0x80..0xFE takes one away. */
  function Carry(signed: bool, low: byte): int {
    if signed then (if 128 <= low < 255 then -1 else 0) else (if low == 255 then 1 else 0)
  }

  function Successor8(b: byte): byte { if b == 255 then 0 else b + 1 }

  /** What `n` confirmations add to the high byte, starting from low byte `low`. */
  function Drift(signed: bool, low: byte, n: nat): int
    decreases n
  {
    if n == 0 then 0 else Carry(signed, low) + Drift(signed, Successor8(low), n - 1)
  }

  // ---------------------------------------------------------------------------
  //  The bytes of one id
  // ---------------------------------------------------------------------------

  lemma SameBytes(a: u16, b: u16)
    requires Low(a) == Low(b) && High(a) == High(b)
    ensures a == b
  {}

  lemma Join(low: byte, high: int)
    ensures Low((low + 256 * high) % 65536) == low
    ensures High((low + 256 * high) % 65536) == high % 256
  {
    var q, r := high / 256, high % 256;
    assert low + 256 * high == 65536 * q + (low + 256 * r);
  }

  /** The decoded id has the low byte unchanged and, for signed chars, borrows from the high byte. */
  lemma DecodeBytes(signed: bool, low: byte, high: byte)
    ensures Low(Decode(signed, low, high)) == low
    ensures High(Decode(signed, low, high)) == (high - (if signed && low >= 128 then 1 else 0)) % 256
  {
    var h := CharValue(signed, high) - (if signed && low >= 128 then 1 else 0);
    assert CharValue(signed, low) + 256 * CharValue(signed, high) == low + 256 * h;
    Join(low, h);
  }

  /** The 16-bit decoding is injective on byte pairs, whatever the signedness of `char`. */
  lemma DecodeInjective(signed: bool, l1: byte, h1: byte, l2: byte, h2: byte)
    requires Decode(signed, l1, h1) == Decode(signed, l2, h2)
    ensures l1 == l2 && h1 == h2
  {
    DecodeBytes(signed, l1, h1);
    DecodeBytes(signed, l2, h2);
  }

  /** A stamped counter is decoded as itself, except for signed chars and a low byte of 0x80 or more. */
  lemma DecodedCounter(signed: bool, c: u16)
    ensures Decode(signed, Low(c), High(c)) == c <==> !signed || Low(c) < 128
  {
    hide Decode;
    DecodeBytes(signed, Low(c), High(c));
    var d := Decode(signed, Low(c), High(c));
    if !signed || Low(c) < 128 {
      SameBytes(d, c);
    } else {
      Borrow(High(c));
    }
  }

  lemma Borrow(h: byte)
    ensures (h - 1) % 256 != h
  {}

  lemma Successor(c: u16)
    ensures Low(Following(c)) == Successor8(Low(c))
    ensures High(Following(c)) == (High(c) + (if Low(c) == 255 then 1 else 0)) % 256
  {}

  lemma NextBytes(signed: bool, c: u16)
    ensures Low(Next(signed, c)) == Successor8(Low(c))
    ensures High(Next(signed, c)) == (High(c) + Carry(signed, Low(c))) % 256
  {
    DecodeBytes(signed, Low(c), High(c));
    Successor(Decode(signed, Low(c), High(c)));
  }

  lemma SuccessorInjective(x: u16, y: u16)
    requires Following(x) == Following(y)
    ensures x == y
  {}

  lemma NextInjective(signed: bool, a: u16, b: u16)
    requires Next(signed, a) == Next(signed, b)
    ensures a == b
  {
    hide Decode;
    SuccessorInjective(Decode(signed, Low(a), High(a)), Decode(signed, Low(b), High(b)));
    DecodeInjective(signed, Low(a), High(a), Low(b), High(b));
    SameBytes(a, b);
  }

  // ---------------------------------------------------------------------------
  //  Many confirmations
  // ---------------------------------------------------------------------------

  lemma {:induction false} IterSplit(signed: bool, m: nat, n: nat, c: u16)
    ensures Iter(signed, m + n, c) == Iter(signed, n, Iter(signed, m, c))
  {
    if m > 0 {
      IterSplit(signed, m - 1, n, Next(signed, c));
    }
  }

  lemma {:induction false} DriftSplit(signed: bool, m: nat, n: nat, low: byte, mid: byte)
    requires mid == (low + m) % 256
    ensures Drift(signed, low, m + n) == Drift(signed, low, m) + Drift(signed, mid, n)
  {
    if m > 0 {
      Advance(low, m);
      DriftSplit(signed, m - 1, n, Successor8(low), mid);
    }
  }

  lemma Advance(low: byte, m: nat)
    requires m > 0
    ensures (Successor8(low) + (m - 1)) % 256 == (low + m) % 256
  {}

  lemma {:induction false} IterBytes(signed: bool, n: nat, c: u16)
    ensures Low(Iter(signed, n, c)) == (Low(c) + n) % 256
    ensures High(Iter(signed, n, c)) == (High(c) + Drift(signed, Low(c), n)) % 256
  {
    if n > 0 {
      var d := Next(signed, c);
      NextBytes(signed, c);
      IterBytes(signed, n - 1, d);
      BytesAdvance(signed, n, Low(c), High(c), Low(d), High(d));
    }
  }

  lemma BytesAdvance(signed: bool, n: nat, l: byte, h: byte, l1: byte, h1: byte)
    requires n > 0 && l1 == Successor8(l) && h1 == (h + Carry(signed, l)) % 256
    ensures (l1 + (n - 1)) % 256 == (l + n) % 256
    ensures (h1 + Drift(signed, l1, n - 1)) % 256 == (h + Drift(signed, l, n)) % 256
  {
    Advance(l, n);
    AddMod(h + Carry(signed, l), Drift(signed, l1, n - 1));
  }

  lemma AddMod(x: int, y: int)
    ensures (x % 256 + y) % 256 == (x + y) % 256
  {}

  /** The drift of a run that starts at low byte 0, up to one whole block. */
  function Ramp(signed: bool, n: nat): int {
    if signed then (if n <= 128 then 0 else if n <= 255 then 128 - n else -127)
    else (if n <= 255 then 0 else 1)
  }

  lemma {:induction false} DriftRamp(signed: bool, n: nat, low: byte)
    requires low + n <= 256
    ensures Drift(signed, low, n) == Ramp(signed, low + n) - Ramp(signed, low)
  {
    if n > 1 {
      DriftRamp(signed, n - 1, low + 1);
    } else if n == 1 {
      assert Drift(signed, Successor8(low), 0) == 0;
    }
  }

  lemma {:induction false} DriftBlock(signed: bool, block: nat, low: byte)
    requires block == 256
    ensures Drift(signed, low, block) == if signed then -127 else 1
  {
    DriftRamp(signed, block - low, low);
    DriftSplit(signed, block - low, low, low, 0);
    DriftRamp(signed, low, 0);
  }

  lemma {:induction false} DriftBlocks(signed: bool, k: nat, n: nat, low: byte)
    requires n == 256 * k
    ensures Drift(signed, low, n) == if signed then -127 * k else k
  {
    if k > 0 {
      DriftBlocks(signed, k - 1, n - 256, low);
      Shift(low, k - 1);
      DriftNextBlock(signed, n - 256, n - (n - 256), low);
    }
  }

  lemma DriftNextBlock(signed: bool, n: nat, block: nat, low: byte)
    requires low == (low + n) % 256 && block == 256
    ensures Drift(signed, low, n + block) == Drift(signed, low, n) + if signed then -127 else 1
  {
    DriftSplit(signed, n, block, low, low);
    DriftBlock(signed, block, low);
  }

  /** A block of 256 confirmations adds 1 to the high byte, or 129 for signed chars. */
  lemma {:induction false} IterBlocks(signed: bool, k: nat, n: nat, c: u16)
    requires n == 256 * k
    ensures Low(Iter(signed, n, c)) == Low(c)
    ensures High(Iter(signed, n, c)) == (High(c) + (if signed then 129 * k else k)) % 256
  {
    IterBytes(signed, n, c);
    DriftBlocks(signed, k, n, Low(c));
    BlockResidues(Low(c), High(c), k, n);
  }

  lemma BlockResidues(l: byte, h: byte, k: nat, n: nat)
    requires n == 256 * k
    ensures (l + n) % 256 == l
    ensures (h + -127 * k) % 256 == (h + 129 * k) % 256
  {
    Shift(l, k);
    Shift(h - 127 * k, k);
  }

  lemma Shift(d: int, z: int)
    ensures (d + 256 * z) % 256 == d % 256
  {}

  /** 129 is its own inverse modulo 256, so the stride of signed chars visits every high byte. */
  lemma Inverse129(d: int)
    ensures (129 * ((129 * d) % 256)) % 256 == d % 256
  {
    var q, r := (129 * d) / 256, (129 * d) % 256;
    assert 129 * r == d + 256 * (65 * d - 129 * q);
    Shift(d, 65 * d - 129 * q);
  }

  lemma SumResidue(h: byte, x: byte, m: int)
    ensures (h + m) % 256 == x <==> m % 256 == (x - h) % 256
  {}

  /** A stride multiplied by fewer than 256 blocks is a multiple of 256 only for none. */
  lemma StrideResidue(signed: bool, k: nat)
    requires k <= 256
    ensures (if signed then 129 * k else k) % 256 == 0 <==> k == 0 || k == 256
  {
    if signed {
      Inverse129(k);
      if k == 256 { Shift(0, 129); }
    }
  }

  /** No id comes back before 65536 confirmations, and the 65536th brings the first one back. */
  lemma {:induction false} IdCycle(signed: bool, n: nat, c: u16)
    requires n <= 65536
    ensures Iter(signed, n, c) == c <==> n == 0 || n == 65536
  {
    if n % 256 == 0 {
      BlockCycle(signed, n / 256, n, c);
    } else {
      IterBytes(signed, n, c);
      assert (Low(c) + n) % 256 != Low(c) by { SumResidue(Low(c), Low(c), n); }
    }
  }

  lemma {:induction false} BlockCycle(signed: bool, k: nat, n: nat, c: u16)
    requires k <= 256 && n == k * 256
    ensures Iter(signed, n, c) == c <==> k == 0 || k == 256
  {
    IterBlocks(signed, k, n, c);
    SumResidue(High(c), High(c), if signed then 129 * k else k);
    StrideResidue(signed, k);
    if k == 0 || k == 256 {
      SameBytes(Iter(signed, n, c), c);
    }
  }

  lemma {:induction false} IdsDistinct(signed: bool, i: nat, j: nat, c: u16)
    requires i < j < i + 65536
    ensures Iter(signed, i, c) != Iter(signed, j, c)
  {
    IterSplit(signed, i, j - i, c);
    IdCycle(signed, j - i, Iter(signed, i, c));
  }

  /** Every id is reached from every other one: the 65536 ids form a single cycle. */
  lemma IdReached(signed: bool, c: u16, x: u16) returns (n: nat)
    ensures n < 65536 && Iter(signed, n, c) == x
  {
    var n0 := LowReached(signed, c, x);
    var k := HighReached(signed, Iter(signed, n0, c), x);
    IterSplit(signed, n0, k * 256, c);
    n := n0 + k * 256;
  }

  lemma LowReached(signed: bool, c: u16, x: u16) returns (n: nat)
    ensures n < 256 && Low(Iter(signed, n, c)) == Low(x)
  {
    n := Distance(Low(c), Low(x));
    IterBytes(signed, n, c);
  }

  lemma Distance(l: byte, x: byte) returns (n: nat)
    ensures n < 256 && (l + n) % 256 == x
  {
    n := if x >= l then x - l else x + 256 - l;
  }

  lemma HighReached(signed: bool, y: u16, x: u16) returns (k: nat)
    requires Low(y) == Low(x)
    ensures k < 256 && Iter(signed, k * 256, y) == x
  {
    k := StridesBetween(signed, High(y), High(x));
    IterBlocks(signed, k, k * 256, y);
    SameBytes(Iter(signed, k * 256, y), x);
  }

  lemma StridesBetween(signed: bool, h: byte, x: byte) returns (k: nat)
    ensures k < 256
    ensures (h + (if signed then 129 * k else k)) % 256 == x
  {
    var d := (x - h) % 256;
    k := if signed then (129 * d) % 256 else d;
    Inverse129(d);
    SumResidue(h, x, if signed then 129 * k else k);
  }
}
