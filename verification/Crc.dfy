/** CRC-32 (IEEE, reflected), bit by bit as the ZIP writer computes it. */
module Crc {

  type Byte = bv8

  function Shift(c: bv32): bv32 {
    if c & 1 != 0 then (c >> 1) ^ 0xedb8_8320 else c >> 1
  }

  function Xor(a: bv32, b: bv32): bv32 {
    a ^ b
  }

  function Word(b: Byte): bv32 {
    b as bv32
  }

  ghost function Iterate<T>(f: T -> T, x: T, n: nat): T
    decreases n
  {
    if n == 0 then x else Iterate(f, f(x), n - 1)
  }

  /** The register after feeding `data` into it. */
  ghost function Feed(c: bv32, data: seq<Byte>): bv32
    decreases |data|
  {
    if data == [] then c
    else Feed(Iterate(Shift, Xor(c, Word(data[0])), 8), data[1..])
  }

  ghost function Crc32(data: seq<Byte>): bv32 {
    !Feed(0xffff_ffff, data)
  }

  /** One byte: eight shifts. */
  method FeedByte(c: bv32, b: Byte) returns (crc: bv32)
    ensures crc == Iterate(Shift, Xor(c, Word(b)), 8)
  {
    crc := c ^ (b as bv32);
    ghost var start := crc;
    for k := 0 to 8
      invariant Iterate(Shift, crc, 8 - k) == Iterate(Shift, start, 8)
    {
      crc := Shift(crc);
    }
  }

  lemma {:induction false} FeedAppend(c: bv32, data: seq<Byte>, more: seq<Byte>)
    ensures Feed(c, data + more) == Feed(Feed(c, data), more)
    decreases |data|
  {
    if data == [] {
      assert data + more == more;
    } else {
      assert (data + more)[1..] == data[1..] + more;
      FeedAppend(Iterate(Shift, Xor(c, Word(data[0])), 8), data[1..], more);
    }
  }

  method ComputeCrc32(data: seq<Byte>) returns (crc: bv32)
    ensures crc == Crc32(data)
  {
    crc := 0xffff_ffff;
    for i := 0 to |data|
      invariant Feed(crc, data[i..]) == Feed(0xffff_ffff, data)
    {
      assert data[i..][1..] == data[i + 1..];
      crc := FeedByte(crc, data[i]);
    }
    crc := !crc;
  }

  // ----- Shifting -----

  lemma {:induction false} IterateInjective<T(!new)>(f: T -> T, a: T, b: T, n: nat)
    requires forall x, y :: f(x) == f(y) ==> x == y
    requires Iterate(f, a, n) == Iterate(f, b, n)
    ensures a == b
    decreases n
  {
    if n > 0 { IterateInjective(f, f(a), f(b), n - 1); }
  }

  lemma {:induction false} IterateLinear<T(!new)>(f: T -> T, plus: (T, T) -> T, a: T, b: T, n: nat)
    requires forall x, y :: f(plus(x, y)) == plus(f(x), f(y))
    ensures Iterate(f, plus(a, b), n) == plus(Iterate(f, a, n), Iterate(f, b, n))
    decreases n
  {
    if n > 0 { IterateLinear(f, plus, f(a), f(b), n - 1); }
  }

  lemma IterateEight<T>(f: T -> T, x: T, y: seq<T>)
    requires |y| == 8 && f(x) == y[0]
    requires forall i :: 0 < i < 8 ==> f(y[i - 1]) == y[i]
    ensures Iterate(f, x, 8) == y[7]
  {
    assert Iterate(f, x, 8) == Iterate(f, y[0], 7) == Iterate(f, y[1], 6) == Iterate(f, y[2], 5);
    assert Iterate(f, y[2], 5) == Iterate(f, y[3], 4) == Iterate(f, y[4], 3) == Iterate(f, y[5], 2);
    assert Iterate(f, y[5], 2) == Iterate(f, y[6], 1) == Iterate(f, y[7], 0);
  }

  lemma ShiftInjectiveAt(a: bv32, b: bv32)
    requires Shift(a) == Shift(b)
    ensures a == b
  {
  }

  lemma ShiftInjective()
    ensures forall a, b :: Shift(a) == Shift(b) ==> a == b
  {
    forall a, b | Shift(a) == Shift(b)
      ensures a == b
    {
      ShiftInjectiveAt(a, b);
    }
  }

  lemma ShiftsInjective(a: bv32, b: bv32, n: nat)
    requires Iterate(Shift, a, n) == Iterate(Shift, b, n)
    ensures a == b
  {
    ShiftInjective();
    IterateInjective(Shift, a, b, n);
  }

  lemma ShiftLinear(a: bv32, b: bv32)
    ensures Shift(Xor(a, b)) == Xor(Shift(a), Shift(b))
  {
    XorIs(a, b);
    XorIs(Shift(a), Shift(b));
    ShiftLinearBits(a, b);
  }

  lemma XorIs(a: bv32, b: bv32)
    ensures Xor(a, b) == a ^ b
  {
  }

  lemma HalfXor(a: bv32, b: bv32)
    ensures (a ^ b) >> 1 == (a >> 1) ^ (b >> 1)
  {
  }

  lemma Parity(a: bv32, b: bv32)
    ensures a & 1 == 0 && b & 1 == 0 ==> (a ^ b) & 1 == 0
    ensures a & 1 == 0 && b & 1 != 0 ==> (a ^ b) & 1 != 0
    ensures a & 1 != 0 && b & 1 != 0 ==> (a ^ b) & 1 == 0
  {
  }

  lemma XorMoves(x: bv32, y: bv32, p: bv32)
    ensures x ^ (y ^ p) == (x ^ y) ^ p
    ensures (x ^ p) ^ (y ^ p) == x ^ y
  {
  }

  lemma ShiftLinearEven(a: bv32, b: bv32)
    requires a & 1 == 0 && b & 1 == 0
    ensures Shift(a ^ b) == Shift(a) ^ Shift(b)
  {
    Parity(a, b);
    HalfXor(a, b);
  }

  lemma ShiftLinearMixed(a: bv32, b: bv32)
    requires a & 1 == 0 && b & 1 != 0
    ensures Shift(a ^ b) == Shift(a) ^ Shift(b)
  {
    Parity(a, b);
    HalfXor(a, b);
    XorMoves(a >> 1, b >> 1, 0xedb8_8320);
  }

  lemma ShiftLinearOdd(a: bv32, b: bv32)
    requires a & 1 != 0 && b & 1 != 0
    ensures Shift(a ^ b) == Shift(a) ^ Shift(b)
  {
    Parity(a, b);
    HalfXor(a, b);
    XorMoves(a >> 1, b >> 1, 0xedb8_8320);
  }

  lemma XorCommutes(a: bv32, b: bv32)
    ensures a ^ b == b ^ a
  {
  }

  lemma ShiftLinearBits(a: bv32, b: bv32)
    ensures Shift(a ^ b) == Shift(a) ^ Shift(b)
  {
    if a & 1 == 0 && b & 1 == 0 {
      ShiftLinearEven(a, b);
    } else if a & 1 == 0 {
      ShiftLinearMixed(a, b);
    } else if b & 1 == 0 {
      ShiftLinearMixed(b, a);
      XorCommutes(a, b);
      XorCommutes(Shift(a), Shift(b));
    } else {
      ShiftLinearOdd(a, b);
    }
  }

  lemma ShiftsLinear(a: bv32, b: bv32)
    ensures Iterate(Shift, Xor(a, b), 8) == Xor(Iterate(Shift, a, 8), Iterate(Shift, b, 8))
  {
    forall x, y
      ensures Shift(Xor(x, y)) == Xor(Shift(x), Shift(y))
    {
      ShiftLinear(x, y);
    }
    IterateLinear(Shift, Xor, a, b, 8);
  }

  function Double(v: bv32): bv32 {
    v << 1
  }

  lemma ShiftDouble(v: bv32)
    requires v < 0x8000_0000
    ensures Shift(Double(v)) == v
  {
    assert (v << 1) & 1 == 0;
  }

  function Up(v: bv32): bv32 {
    v << 8
  }

  lemma UpIsDoubles(v: bv32) returns (y: seq<bv32>)
    requires v < 0x0100_0000
    ensures |y| == 8 && y[7] == v && Up(v) == Double(y[0]) && y[0] < 0x8000_0000
    ensures forall i :: 0 < i < 8 ==> y[i - 1] == Double(y[i]) && y[i] < 0x8000_0000
  {
    y := [v << 7, v << 6, v << 5, v << 4, v << 3, v << 2, v << 1, v];
    HighDoubles(v);
    LowDoubles(v);
    Bounds(v);
  }

  lemma HighDoubles(v: bv32)
    ensures Up(v) == Double(v << 7) && v << 7 == Double(v << 6) && v << 6 == Double(v << 5) && v << 5 == Double(v << 4)
  {
  }

  lemma LowDoubles(v: bv32)
    ensures v << 4 == Double(v << 3) && v << 3 == Double(v << 2) && v << 2 == Double(v << 1) && v << 1 == Double(v)
  {
  }

  lemma Bounds(v: bv32)
    requires v < 0x0100_0000
    ensures v << 7 < 0x8000_0000 && v << 6 < 0x8000_0000 && v << 5 < 0x8000_0000 && v << 4 < 0x8000_0000
    ensures v << 3 < 0x8000_0000 && v << 2 < 0x8000_0000 && v << 1 < 0x8000_0000
  {
  }

  /** Low zero bits are shifted out without feedback. */
  lemma ShiftOut(v: bv32)
    requires v < 0x0100_0000
    ensures Iterate(Shift, Up(v), 8) == v
  {
    var y := UpIsDoubles(v);
    ShiftDouble(y[0]);
    forall i | 0 < i < 8
      ensures Shift(y[i - 1]) == y[i]
    {
      ShiftDouble(y[i]);
    }
    IterateEight(Shift, Up(v), y);
  }

  // ----- What the checksum detects -----

  /** Up to four bytes as one little-endian word. */
  ghost function Packed(w: seq<Byte>): bv32 {
    if w == [] then 0 else Xor(Word(w[0]), Up(Packed(w[1..])))
  }

  lemma {:induction false} PackedBound(w: seq<Byte>)
    requires |w| <= 3
    ensures Packed(w) < 0x0100_0000
    ensures |w| <= 2 ==> Packed(w) < 0x0001_0000
    ensures |w| <= 1 ==> Packed(w) < 0x0000_0100
  {
    if w != [] {
      PackedBound(w[1..]);
      PackStep(w[0], Packed(w[1..]));
    }
  }

  lemma PackStep(b: Byte, v: bv32)
    ensures v < 0x0001_0000 ==> Xor(Word(b), Up(v)) < 0x0100_0000
    ensures v < 0x0000_0100 ==> Xor(Word(b), Up(v)) < 0x0001_0000
    ensures v == 0 ==> Xor(Word(b), Up(v)) < 0x0000_0100
  {
  }

  lemma PackInjective(a: Byte, v: bv32, b: Byte, u: bv32)
    requires v < 0x0100_0000 && u < 0x0100_0000 && Xor(Word(a), Up(v)) == Xor(Word(b), Up(u))
    ensures a == b && v == u
  {
  }

  lemma {:induction false} PackedInjective(w: seq<Byte>, x: seq<Byte>)
    requires |w| == |x| <= 4 && Packed(w) == Packed(x)
    ensures w == x
  {
    if w != [] {
      PackedBound(w[1..]);
      PackedBound(x[1..]);
      PackInjective(w[0], Packed(w[1..]), x[0], Packed(x[1..]));
      PackedInjective(w[1..], x[1..]);
      assert w == [w[0]] + w[1..] && x == [x[0]] + x[1..];
    }
  }

  lemma {:induction false} IterateAdd<T>(f: T -> T, x: T, m: nat, n: nat)
    ensures Iterate(f, Iterate(f, x, m), n) == Iterate(f, x, m + n)
    decreases m
  {
    if m > 0 { IterateAdd(f, f(x), m - 1, n); }
  }

  /** Feeding up to four bytes is feeding their word at once. */
  lemma {:induction false} FeedPacked(c: bv32, w: seq<Byte>)
    requires |w| <= 4
    ensures Feed(c, w) == Iterate(Shift, Xor(c, Packed(w)), 8 * |w|)
    decreases |w|
  {
    if w == [] {
      XorZero(c);
    } else {
      var next, v := Iterate(Shift, Xor(c, Word(w[0])), 8), Packed(w[1..]);
      FeedPacked(next, w[1..]);
      PackedBound(w[1..]);
      ShiftOut(v);
      ShiftsLinear(Xor(c, Word(w[0])), Up(v));
      XorAssociates(c, Word(w[0]), Up(v));
      IterateAdd(Shift, Xor(c, Packed(w)), 8, 8 * |w| - 8);
    }
  }

  lemma XorZero(c: bv32)
    ensures Xor(c, 0) == c
  {
  }

  lemma XorAssociates(a: bv32, b: bv32, c: bv32)
    ensures Xor(Xor(a, b), c) == Xor(a, Xor(b, c))
  {
  }

  lemma XorCancels(a: bv32, b: bv32, c: bv32)
    requires Xor(a, b) == Xor(a, c)
    ensures b == c
  {
  }

  lemma {:induction false} FeedInjective(a: bv32, b: bv32, data: seq<Byte>)
    requires Feed(a, data) == Feed(b, data)
    ensures a == b
    decreases |data|
  {
    if data != [] {
      var x, y := Xor(a, Word(data[0])), Xor(b, Word(data[0]));
      FeedInjective(Iterate(Shift, x, 8), Iterate(Shift, y, 8), data[1..]);
      ShiftsInjective(x, y, 8);
      XorSame(a, b, Word(data[0]));
    }
  }

  lemma XorSame(a: bv32, b: bv32, c: bv32)
    requires Xor(a, c) == Xor(b, c)
    ensures a == b
  {
  }

  lemma SameWindow(c: bv32, w: seq<Byte>, x: seq<Byte>)
    requires |w| == |x| <= 4 && Feed(c, w) == Feed(c, x)
    ensures w == x
  {
    FeedPacked(c, w);
    FeedPacked(c, x);
    ShiftsInjective(Xor(c, Packed(w)), Xor(c, Packed(x)), 8 * |w|);
    XorCancels(c, Packed(w), Packed(x));
    PackedInjective(w, x);
  }

  lemma FeedThrough(c: bv32, before: seq<Byte>, w: seq<Byte>, rest: seq<Byte>)
    ensures Feed(c, before + w + rest) == Feed(Feed(Feed(c, before), w), rest)
  {
    FeedAppend(c, before + w, rest);
    FeedAppend(c, before, w);
  }

  lemma SameFeedSameWindow(c: bv32, before: seq<Byte>, w: seq<Byte>, x: seq<Byte>, rest: seq<Byte>)
    requires |w| == |x| <= 4 && Feed(c, before + w + rest) == Feed(c, before + x + rest)
    ensures w == x
  {
    FeedThrough(c, before, w, rest);
    FeedThrough(c, before, x, rest);
    FeedInjective(Feed(Feed(c, before), w), Feed(Feed(c, before), x), rest);
    SameWindow(Feed(c, before), w, x);
  }

  /** Any change confined to four consecutive bytes changes the checksum. */
  lemma BurstDetected(before: seq<Byte>, w: seq<Byte>, x: seq<Byte>, rest: seq<Byte>)
    requires |w| == |x| <= 4 && w != x
    ensures Crc32(before + w + rest) != Crc32(before + x + rest)
  {
    if Feed(0xffff_ffff, before + w + rest) == Feed(0xffff_ffff, before + x + rest) {
      SameFeedSameWindow(0xffff_ffff, before, w, x, rest);
    }
  }

  // ----- The residue -----

  lemma XorNot(c: bv32)
    ensures Xor(c, !c) == 0xffff_ffff
  {
  }

  lemma Shifts8(x: bv32, y: seq<bv32>)
    requires |y| == 8 && Shift(x) == y[0] && Shift(y[0]) == y[1] && Shift(y[1]) == y[2] && Shift(y[2]) == y[3]
    requires Shift(y[3]) == y[4] && Shift(y[4]) == y[5] && Shift(y[5]) == y[6] && Shift(y[6]) == y[7]
    ensures Iterate(Shift, x, 8) == y[7]
  {
    IterateEight(Shift, x, y);
  }

  lemma {:induction false} OnesShifted(x: bv32, n: nat)
    requires x == 0xffff_ffff && n == 32
    ensures Iterate(Shift, x, n) == 0xdebb_20e3
  {
    Shifts8(0xffffffff, [0x92477cdf, 0xa49b3d4f, 0xbff51d87, 0xb2420de3,
                         0xb49985d1, 0xb7f441c8, 0x5bfa20e4, 0x2dfd1072]);
    Shifts8(0x2dfd1072, [0x16fe8839, 0xe6c7c73c, 0x7363e39e, 0x39b1f1cf,
                         0xf1607bc7, 0x9508bec3, 0xa73cdc41, 0xbe26ed00]);
    Shifts8(0xbe26ed00, [0x5f137680, 0x2f89bb40, 0x17c4dda0, 0x0be26ed0,
                         0x05f13768, 0x02f89bb4, 0x017c4dda, 0x00be26ed]);
    Shifts8(0x00be26ed, [0xede79056, 0x76f3c82b, 0xd6c16735, 0x86d830ba,
                         0x436c185d, 0xcc0e8f0e, 0x66074787, 0xdebb20e3]);
    IterateAdd(Shift, x, 8, 8);
    IterateAdd(Shift, x, 16, 8);
    IterateAdd(Shift, x, 24, 8);
  }

  lemma {:induction false} Cancelled(c: bv32, p: bv32, n: nat)
    requires p == !c && n == 32
    ensures Iterate(Shift, Xor(c, p), n) == 0xdebb_20e3
  {
    XorNot(c);
    OnesShifted(Xor(c, p), n);
  }

  lemma {:induction false} FedOnes(c: bv32, w: seq<Byte>)
    requires |w| == 4 && Packed(w) == !c
    ensures Feed(c, w) == 0xdebb_20e3
  {
    FeedPacked(c, w);
    Cancelled(c, Packed(w), 8 * |w|);
  }

  lemma {:induction false} FedOnesBehind(start: bv32, data: seq<Byte>, w: seq<Byte>)
    requires |w| == 4 && Packed(w) == !Feed(start, data)
    ensures Feed(start, data + w) == 0xdebb_20e3
  {
    FeedAppend(start, data, w);
    FedOnes(Feed(start, data), w);
  }

  /** Data with its own checksum behind it, lowest byte first, has the published residue. */
  lemma {:induction false} Residue(data: seq<Byte>, w: seq<Byte>)
    requires |w| == 4 && Packed(w) == Crc32(data)
    ensures Crc32(data + w) == 0x2144_df1c
  {
    FedOnesBehind(0xffff_ffff, data, w);
  }
}
