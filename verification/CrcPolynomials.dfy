/**
 The checksum as the IEEE 802.3 standard defines it: the remainder of a division of polynomials
 over two elements.
 */
module CrcPolynomials {
  import opened Crc

  /** A polynomial, by the exponents of its terms. */
  type Poly = set<nat>

  ghost function Plus(a: Poly, b: Poly): Poly {
    (a - b) + (b - a)
  }

  ghost function TimesX(a: Poly): (r: Poly)
    ensures forall e :: e in r <==> e > 0 && e - 1 in a
  {
    set e | e in a :: e + 1
  }

  ghost function Raised(a: Poly, n: nat): Poly {
    if n == 0 then a else TimesX(Raised(a, n - 1))
  }

  /** The generator of CRC-32. */
  const GENERATOR: Poly := {32, 26, 23, 22, 16, 12, 11, 10, 8, 7, 5, 4, 2, 1, 0}

  ghost function Term(bit: bool): Poly {
    if bit then GENERATOR else {}
  }

  /** The generator times the polynomial with the coefficients `q`, highest first. */
  ghost function Multiple(q: seq<bool>): Poly {
    if q == [] then {} else Plus(TimesX(Multiple(q[..|q| - 1])), Term(q[|q| - 1]))
  }

  /** `r` is what is left of `m` after division by the generator. */
  ghost predicate IsRemainder(m: Poly, r: Poly) {
    (forall e :: e in r ==> e < 32) && exists q :: m == Plus(Multiple(q), r)
  }

  // ----- Sums -----

  lemma PlusIn(a: Poly, b: Poly, e: nat)
    ensures e in Plus(a, b) <==> (e in a) != (e in b)
  {
  }

  lemma PlusTimesX(a: Poly, b: Poly)
    ensures TimesX(Plus(a, b)) == Plus(TimesX(a), TimesX(b))
  {
  }

  lemma PlusZero(a: Poly)
    ensures Plus(a, {}) == a && Plus({}, a) == a && Plus(a, a) == {}
  {
  }

  lemma PlusCommutes(a: Poly, b: Poly)
    ensures Plus(a, b) == Plus(b, a)
  {
  }

  lemma PlusAssociates(a: Poly, b: Poly, c: Poly)
    ensures Plus(Plus(a, b), c) == Plus(a, Plus(b, c))
  {
    forall e
      ensures e in Plus(Plus(a, b), c) <==> e in Plus(a, Plus(b, c))
    {
      PlusIn(a, b, e);
      PlusIn(b, c, e);
    }
  }

  lemma PlusRegroups(a: Poly, b: Poly, c: Poly, d: Poly)
    ensures Plus(Plus(a, b), Plus(c, d)) == Plus(Plus(a, c), Plus(b, d))
  {
    forall e
      ensures e in Plus(Plus(a, b), Plus(c, d)) <==> e in Plus(Plus(a, c), Plus(b, d))
    {
      PlusIn(a, b, e);
      PlusIn(c, d, e);
      PlusIn(a, c, e);
      PlusIn(b, d, e);
    }
  }

  lemma {:induction false} PlusRaised(a: Poly, b: Poly, n: nat)
    ensures Raised(Plus(a, b), n) == Plus(Raised(a, n), Raised(b, n))
  {
    if n > 0 {
      PlusRaised(a, b, n - 1);
      PlusTimesX(Raised(a, n - 1), Raised(b, n - 1));
    }
  }

  lemma {:induction false} RaisedTwice(a: Poly, m: nat, n: nat)
    ensures Raised(Raised(a, m), n) == Raised(a, m + n)
  {
    if n > 0 {
      RaisedTwice(a, m, n - 1);
    }
  }

  // ----- Multiples -----

  lemma {:induction false} MultipleAppend(q: seq<bool>, bit: bool)
    ensures Multiple(q + [bit]) == Plus(TimesX(Multiple(q)), Term(bit))
  {
    assert (q + [bit])[..|q|] == q;
  }

  lemma {:induction false} MultipleConcat(q: seq<bool>, p: seq<bool>)
    ensures Multiple(q + p) == Plus(Raised(Multiple(q), |p|), Multiple(p))
    decreases |p|
  {
    if p == [] {
      assert q + p == q;
      PlusZero(Multiple(q));
    } else {
      var front, bit := p[..|p| - 1], p[|p| - 1];
      MultipleConcat(q, front);
      MultipleAppend(q + front, bit);
      assert q + front + [bit] == q + p;
      PlusTimesX(Raised(Multiple(q), |front|), Multiple(front));
      PlusAssociates(Raised(Multiple(q), |p|), TimesX(Multiple(front)), Term(bit));
    }
  }

  // ----- The register as a polynomial -----

  function Half(c: bv32): bv32 {
    c >> 1
  }

  predicate Odd(c: bv32) {
    c & 1 != 0
  }

  /** The low `n` bits, the lowest as the highest term. */
  ghost function Bits(c: bv32, n: nat): (r: Poly)
    ensures forall e :: e in r ==> e < n
  {
    if n == 0 then {} else (if Odd(c) then {n - 1} else {}) + Bits(Half(c), n - 1)
  }

  ghost function Register(c: bv32): Poly {
    Bits(c, 32)
  }

  lemma PlusTop(x: bool, y: bool, n: nat, a: Poly, b: Poly)
    requires n > 0 && (forall e :: e in a ==> e < n - 1) && (forall e :: e in b ==> e < n - 1)
    ensures Plus((if x then {n - 1} else {}) + a, (if y then {n - 1} else {}) + b) ==
            (if x != y then {n - 1} else {}) + Plus(a, b)
  {
  }

  lemma {:induction false} BitsXor(a: bv32, b: bv32, n: nat)
    ensures Bits(Xor(a, b), n) == Plus(Bits(a, n), Bits(b, n))
    decreases n
  {
    if n > 0 {
      OddXor(a, b);
      BitsXor(Half(a), Half(b), n - 1);
      PlusTop(Odd(a), Odd(b), n, Bits(Half(a), n - 1), Bits(Half(b), n - 1));
    }
  }

  lemma OddXor(a: bv32, b: bv32)
    ensures Odd(Xor(a, b)) <==> Odd(a) != Odd(b)
    ensures Half(Xor(a, b)) == Xor(Half(a), Half(b))
  {
    Parity(a, b);
    Parity(b, a);
    XorCommutes(a, b);
    HalfXor(a, b);
  }

  /** A word that is zero from bit `n` on. */
  ghost predicate Fits(c: bv32, n: nat) {
    Iterate(Half, c, n) == 0
  }

  lemma TopBit(bit: bool, n: nat, rest: Poly)
    requires n > 0
    ensures TimesX((if bit then {n - 1} else {}) + rest) == (if bit then {n} else {}) + TimesX(rest)
  {
  }

  lemma {:induction false} BitsLonger(c: bv32, n: nat)
    requires Fits(c, n)
    ensures Bits(c, n + 1) == TimesX(Bits(c, n))
    decreases n
  {
    if n == 0 {
      NoBits(c);
    } else {
      var d := Half(c);
      BitsLonger(d, n - 1);
      TopBit(Odd(c), n, Bits(d, n - 1));
    }
  }

  lemma NoBits(c: bv32)
    requires c == 0
    ensures Bits(c, 1) == {} == TimesX(Bits(c, 0))
  {
  }

  lemma HalfEight(c: bv32)
    ensures Iterate(Half, c, 8) == c >> 8
  {
    var y := [c >> 1, c >> 2, c >> 3, c >> 4, c >> 5, c >> 6, c >> 7, c >> 8];
    Halves(c);
    IterateEight(Half, c, y);
  }

  lemma Halves(c: bv32)
    ensures Half(c) == c >> 1 && Half(c >> 1) == c >> 2 && Half(c >> 2) == c >> 3 && Half(c >> 3) == c >> 4
    ensures Half(c >> 4) == c >> 5 && Half(c >> 5) == c >> 6 && Half(c >> 6) == c >> 7 && Half(c >> 7) == c >> 8
  {
  }

  function Down(c: bv32): bv32 {
    c >> 8
  }

  lemma {:induction false} FitsByEight(c: bv32, n: nat)
    requires Fits(Down(c), n)
    ensures Fits(c, 8 + n)
  {
    HalfEight(c);
    IterateAdd(Half, c, 8, n);
  }

  lemma ShiftedOut(c: bv32)
    ensures Down(Down(Down(Down(c)))) == 0
  {
  }

  lemma {:induction false} LowFits(c: bv32)
    requires Down(Down(c)) == 0
    ensures Fits(c, 16)
  {
    assert Fits(0, 0);
    FitsByEight(Down(c), 0);
    FitsByEight(c, 8);
  }

  lemma {:induction false} WordFits(c: bv32)
    ensures Fits(c, 32)
  {
    ShiftedOut(c);
    LowFits(Down(Down(c)));
    FitsByEight(Down(c), 16);
    FitsByEight(c, 24);
  }

  lemma HalfFits(c: bv32)
    ensures Fits(Half(c), 31)
  {
    WordFits(c);
    IterateAdd(Half, c, 1, 31);
    assert Iterate(Half, c, 1) == Iterate(Half, Half(c), 0) == Half(c);
  }

  /** The terms of the lowest four bits. */
  ghost function Nibble(c: bv32, n: nat): Poly {
    (if Odd(c) then {n + 3} else {}) + (if Odd(c >> 1) then {n + 2} else {})
    + (if Odd(c >> 2) then {n + 1} else {}) + (if Odd(c >> 3) then {n} else {})
  }

  lemma {:induction false} FourBits(c: bv32, n: nat, d: bv32)
    requires d == c >> 4
    ensures Bits(c, n + 4) == Nibble(c, n) + Bits(d, n)
  {
    Halves(c);
    assert Bits(c, n + 4) == (if Odd(c) then {n + 3} else {}) + Bits(c >> 1, n + 3);
    assert Bits(c >> 1, n + 3) == (if Odd(c >> 1) then {n + 2} else {}) + Bits(c >> 2, n + 2);
    assert Bits(c >> 2, n + 2) == (if Odd(c >> 2) then {n + 1} else {}) + Bits(c >> 3, n + 1);
  }

  lemma {:induction false} HighTerms()
    ensures Bits(0xedb8_8320, 32) == {26, 23, 22, 16} + Bits(0xedb8, 16)
  {
    FourBits(0xedb8_8320, 28, 0x0edb_8832);
    assert Nibble(0xedb8_8320, 28) == {};
    FourBits(0x0edb_8832, 24, 0x00ed_b883);
    assert Nibble(0x0edb_8832, 24) == {26};
    FourBits(0x00ed_b883, 20, 0x000e_db88);
    assert Nibble(0x00ed_b883, 20) == {23, 22};
    FourBits(0x000e_db88, 16, 0x0000_edb8);
    assert Nibble(0x000e_db88, 16) == {16};
  }

  lemma {:induction false} LowTerms()
    ensures Bits(0xedb8, 16) == {12, 11, 10, 8} + Bits(0x00ed, 8)
  {
    FourBits(0xedb8, 12, 0x0edb);
    assert Nibble(0xedb8, 12) == {12};
    FourBits(0x0edb, 8, 0x00ed);
    assert Nibble(0x0edb, 8) == {11, 10, 8};
  }

  lemma {:induction false} LowestTerms()
    ensures Bits(0x00ed, 8) == {7, 5, 4, 2, 1, 0}
  {
    FourBits(0x00ed, 4, 0x000e);
    assert Nibble(0x00ed, 4) == {7, 5, 4};
    FourBits(0x000e, 0, 0);
    assert Nibble(0x000e, 0) == {2, 1, 0};
  }

  /** The feedback word holds the generator without its highest term. */
  lemma {:induction false} FeedbackIsGenerator()
    ensures Register(0xedb8_8320) == GENERATOR - {32}
  {
    HighTerms();
    LowTerms();
    LowestTerms();
  }

  // ----- Shifting divides -----

  lemma CancelTop(a: Poly, g: Poly, top: nat)
    requires top !in a && top in g
    ensures Plus({top} + a, g) == Plus(a, g - {top})
  {
  }

  lemma {:induction false} HalfRegister(c: bv32)
    ensures Register(Half(c)) == TimesX(Bits(Half(c), 31))
    ensures TimesX(Register(c)) == (if Odd(c) then {32} else {}) + Register(Half(c))
  {
    HalfFits(c);
    BitsLonger(Half(c), 31);
    TopBit(Odd(c), 32, Bits(Half(c), 31));
  }

  lemma {:induction false} OddShift(c: bv32)
    requires Odd(c)
    ensures Register(Shift(c)) == Plus(Register(Half(c)), GENERATOR - {32})
  {
    XorIs(Half(c), 0xedb8_8320);
    BitsXor(Half(c), 0xedb8_8320, 32);
    FeedbackIsGenerator();
  }

  /** One shift multiplies by x and takes the generator away if the result is too long. */
  lemma {:induction false} ShiftDivides(c: bv32)
    ensures Register(Shift(c)) == Plus(TimesX(Register(c)), Term(Odd(c)))
  {
    HalfRegister(c);
    if Odd(c) {
      OddShift(c);
      CancelTop(Register(Half(c)), GENERATOR, 32);
    } else {
      PlusZero(TimesX(Register(c)));
    }
  }

  lemma {:induction false} ShiftsDivide(c: bv32, n: nat) returns (q: seq<bool>)
    ensures |q| == n && Raised(Register(c), n) == Plus(Multiple(q), Register(Iterate(Shift, c, n)))
    decreases n
  {
    if n == 0 {
      q := [];
      PlusZero(Register(c));
    } else {
      q := ShiftsDivide(c, n - 1);
      var d := Iterate(Shift, c, n - 1);
      IterateAdd(Shift, c, n - 1, 1);
      assert Iterate(Shift, d, 1) == Iterate(Shift, Shift(d), 0);
      ShiftDivides(d);
      PlusTimesX(Multiple(q), Register(d));
      MovesOver(TimesX(Register(d)), Term(Odd(d)), Register(Shift(d)));
      PlusAssociates(TimesX(Multiple(q)), Term(Odd(d)), Register(Shift(d)));
      MultipleAppend(q, Odd(d));
      q := q + [Odd(d)];
    }
  }

  lemma MovesOver(a: Poly, b: Poly, c: Poly)
    requires c == Plus(a, b)
    ensures a == Plus(b, c)
  {
  }

  /** The data as a polynomial: bytes in order, the lowest bit of each first. */
  ghost function Message(data: seq<Byte>): Poly {
    if data == [] then {}
    else Plus(Raised(Message(data[..|data| - 1]), 8), Bits(Word(data[|data| - 1]), 8))
  }

  /** The data with room for the checksum behind it, and `c` in front. */
  ghost function Dividend(c: Poly, data: seq<Byte>): Poly {
    Plus(Raised(Message(data), 32), Raised(c, 8 * |data|))
  }

  lemma {:induction false} ZeroFits(n: nat)
    ensures Fits(0, n)
    decreases n
  {
    if n > 0 {
      assert Half(0) == 0;
      ZeroFits(n - 1);
    }
  }

  lemma {:induction false} BitsRaised(c: bv32, n: nat, k: nat)
    requires Fits(c, n)
    ensures Bits(c, n + k) == Raised(Bits(c, n), k)
    decreases k
  {
    if k > 0 {
      BitsRaised(c, n, k - 1);
      ZeroFits(k - 1);
      IterateAdd(Half, c, n, k - 1);
      BitsLonger(c, n + k - 1);
    }
  }

  lemma ByteFits(b: Byte)
    ensures Down(Word(b)) == 0
  {
  }

  lemma {:induction false} ByteInRegister(b: Byte)
    ensures Register(Word(b)) == Raised(Bits(Word(b), 8), 24)
  {
    ByteFits(b);
    assert Fits(0, 0);
    FitsByEight(Word(b), 0);
    BitsRaised(Word(b), 8, 24);
  }

  lemma {:induction false} RaisedSum(a: Poly, b: Poly, j: nat, k: nat)
    ensures Raised(Plus(Raised(a, j), b), k) == Plus(Raised(a, j + k), Raised(b, k))
  {
    PlusRaised(Raised(a, j), b, k);
    RaisedTwice(a, j, k);
  }

  lemma {:induction false} DividendAppend(c: Poly, data: seq<Byte>, b: Byte)
    ensures Dividend(c, data + [b]) == Plus(Raised(Dividend(c, data), 8), Raised(Bits(Word(b), 8), 32))
  {
    var m, more, n := Message(data), Bits(Word(b), 8), 8 * |data|;
    assert (data + [b])[..|data|] == data;
    RaisedSum(m, more, 8, 32);
    RaisedSum(m, Raised(c, n), 32, 8);
    RaisedTwice(c, n, 8);
    SwapLast(Raised(m, 40), Raised(more, 32), Raised(c, n + 8));
  }

  lemma SwapLast(a: Poly, b: Poly, c: Poly)
    ensures Plus(Plus(a, b), c) == Plus(Plus(a, c), b)
  {
    PlusAssociates(a, b, c);
    PlusAssociates(a, c, b);
    PlusCommutes(b, c);
  }

  /** The register with a byte, eight places up. */
  lemma {:induction false} FedUp(c: bv32, b: Byte)
    ensures Raised(Register(Xor(c, Word(b))), 8) == Plus(Raised(Register(c), 8), Raised(Bits(Word(b), 8), 32))
  {
    var byte := Bits(Word(b), 8);
    BitsXor(c, Word(b), 32);
    ByteInRegister(b);
    PlusRaised(Register(c), Raised(byte, 24), 8);
    RaisedTwice(byte, 24, 8);
  }

  /** What one more byte does to the division. */
  lemma {:induction false} ByteDivides(m: Poly, q: seq<bool>, c: bv32, b: Byte) returns (p: seq<bool>)
    requires m == Plus(Multiple(q), Register(c))
    ensures |p| == |q| + 8
    ensures Plus(Raised(m, 8), Raised(Bits(Word(b), 8), 32)) ==
            Plus(Multiple(p), Register(Iterate(Shift, Xor(c, Word(b)), 8)))
  {
    var x := Xor(c, Word(b));
    FedUp(c, b);
    PlusRaised(Multiple(q), Register(c), 8);
    PlusAssociates(Raised(Multiple(q), 8), Raised(Register(c), 8), Raised(Bits(Word(b), 8), 32));
    var r := ShiftsDivide(x, 8);
    PlusAssociates(Raised(Multiple(q), 8), Multiple(r), Register(Iterate(Shift, x, 8)));
    MultipleConcat(q, r);
    p := q + r;
  }

  /** Feeding data into the register divides. */
  lemma {:induction false} FeedDivides(c: bv32, data: seq<Byte>) returns (q: seq<bool>)
    ensures |q| == 8 * |data| && Dividend(Register(c), data) == Plus(Multiple(q), Register(Feed(c, data)))
    decreases |data|
  {
    if data == [] {
      q := [];
      NothingRaised(32);
    } else {
      var front, b := data[..|data| - 1], data[|data| - 1];
      assert data == front + [b];
      q := FeedDivides(c, front);
      FeedAppend(c, front, [b]);
      var next := Iterate(Shift, Xor(Feed(c, front), Word(b)), 8);
      assert Feed(Feed(c, front), [b]) == Feed(next, [b][1..]) == next;
      DividendAppend(Register(c), front, b);
      q := ByteDivides(Dividend(Register(c), front), q, Feed(c, front), b);
    }
  }

  lemma {:induction false} NothingRaised(n: nat)
    ensures Raised({}, n) == {}
  {
    if n > 0 {
      NothingRaised(n - 1);
    }
  }

  ghost function UpTo(n: nat): (r: Poly)
    ensures forall e: nat :: e in r <==> e < n
  {
    if n == 0 then {} else UpTo(n - 1) + {n - 1}
  }

  lemma {:induction false} FourOnes(c: bv32, n: nat, d: bv32)
    requires d == c >> 4 && Odd(c) && Odd(c >> 1) && Odd(c >> 2) && Odd(c >> 3) && Bits(d, n) == UpTo(n)
    ensures Bits(c, n + 4) == UpTo(n + 4)
  {
    FourBits(c, n, d);
  }

  lemma {:induction false} AllOnes()
    ensures Register(0xffff_ffff) == UpTo(32)
  {
    FourOnes(0x0000_000f, 0, 0);
    FourOnes(0x0000_00ff, 4, 0x0000_000f);
    FourOnes(0x0000_0fff, 8, 0x0000_00ff);
    FourOnes(0x0000_ffff, 12, 0x0000_0fff);
    FourOnes(0x000f_ffff, 16, 0x0000_ffff);
    FourOnes(0x00ff_ffff, 20, 0x000f_ffff);
    FourOnes(0x0fff_ffff, 24, 0x00ff_ffff);
    FourOnes(0xffff_ffff, 28, 0x0fff_ffff);
  }

  lemma NotIsXor(c: bv32)
    ensures c == Xor(!c, 0xffff_ffff)
  {
  }

  lemma PlusAll(a: Poly, n: nat)
    requires forall e :: e in a ==> e < n
    ensures Plus(a, UpTo(n)) == UpTo(n) - a
  {
  }

  lemma {:induction false} Complement(c: bv32, start: bv32, d: bv32)
    requires d == !c && start == 0xffff_ffff
    ensures Register(c) == Register(start) - Register(d)
  {
    NotIsXor(c);
    BitsXor(d, start, 32);
    AllOnes();
    PlusAll(Register(d), 32);
  }

  /** All terms below 32. */
  ghost predicate AllTerms(ones: Poly) {
    forall e: nat :: e in ones <==> e < 32
  }

  lemma {:induction false} StartIsOnes(start: bv32, ones: Poly)
    requires start == 0xffff_ffff && AllTerms(ones)
    ensures Register(start) == ones
  {
    AllOnes();
  }

  lemma {:induction false} FedIsRemainder(start: bv32, data: seq<Byte>)
    requires start == 0xffff_ffff
    ensures IsRemainder(Dividend(Register(start), data), Register(start) - Register(Crc32(data)))
  {
    var q := FeedDivides(start, data);
    Complement(Feed(start, data), start, Crc32(data));
  }

  /** The checksum is the complement of the remainder of the data, its first thirty-two bits
      complemented, with thirty-two zeros behind it. */
  lemma {:induction false} CrcIsRemainder(data: seq<Byte>, ones: Poly)
    requires AllTerms(ones)
    ensures IsRemainder(Dividend(ones, data), ones - Register(Crc32(data)))
  {
    StartIsOnes(0xffff_ffff, ones);
    FedIsRemainder(0xffff_ffff, data);
  }

  // ----- There is one remainder -----

  ghost function Sum(p: seq<bool>, q: seq<bool>): seq<bool>
    requires |p| == |q|
  {
    seq(|p|, i requires 0 <= i < |p| => p[i] != q[i])
  }

  lemma {:induction false} MultipleSum(p: seq<bool>, q: seq<bool>)
    requires |p| == |q|
    ensures Plus(Multiple(p), Multiple(q)) == Multiple(Sum(p, q))
  {
    if p == [] {
      PlusZero({});
    } else {
      var n := |p| - 1;
      MultipleSum(p[..n], q[..n]);
      assert Sum(p, q)[..n] == Sum(p[..n], q[..n]);
      PlusRegroups(TimesX(Multiple(p[..n])), Term(p[n]), TimesX(Multiple(q[..n])), Term(q[n]));
      PlusTimesX(Multiple(p[..n]), Multiple(q[..n]));
      PlusZero(GENERATOR);
      PlusZero({});
    }
  }

  ghost function Zeros(n: nat): seq<bool> {
    seq(n, _ => false)
  }

  lemma {:induction false} MultipleZeros(n: nat)
    ensures Multiple(Zeros(n)) == {}
  {
    if n > 0 {
      assert Zeros(n)[..n - 1] == Zeros(n - 1);
      MultipleZeros(n - 1);
      assert TimesX({}) == {};
      PlusZero({});
    }
  }

  lemma {:induction false} Padded(q: seq<bool>, n: nat)
    ensures Multiple(Zeros(n) + q) == Multiple(q)
  {
    MultipleConcat(Zeros(n), q);
    MultipleZeros(n);
    NothingRaised(|q|);
    PlusZero(Multiple(q));
  }

  /** The term `top` and none above it. */
  ghost predicate Tops(a: Poly, top: nat) {
    top in a && forall e :: e in a ==> e <= top
  }

  lemma GeneratorTops()
    ensures Tops(GENERATOR, 32)
  {
  }

  lemma TopsNext(a: Poly, top: nat, g: Poly)
    requires Tops(a, top) && top >= 32 && (g == {} || Tops(g, 32))
    ensures Tops(Plus(TimesX(a), g), top + 1)
  {
  }

  /** The highest term of a multiple. */
  lemma {:induction false} TopTerm(q: seq<bool>)
    requires q != [] && q[0]
    ensures Tops(Multiple(q), 31 + |q|)
  {
    var n := |q| - 1;
    GeneratorTops();
    if n == 0 {
      assert q[..0] == [] && TimesX({}) == {};
      PlusZero(GENERATOR);
    } else {
      TopTerm(q[..n]);
      TopsNext(Multiple(q[..n]), 31 + n, Term(q[n]));
    }
  }

  /** A multiple with no term of 32 or more is nothing. */
  lemma {:induction false} ShortMultiple(q: seq<bool>)
    requires forall e :: e in Multiple(q) ==> e < 32
    ensures Multiple(q) == {}
  {
    if q != [] {
      if q[0] {
        TopTerm(q);
      } else {
        assert q == Zeros(1) + q[1..];
        Padded(q[1..], 1);
        ShortMultiple(q[1..]);
      }
    }
  }

  lemma {:induction false} SumsEqual(a: Poly, b: Poly, r: Poly, t: Poly)
    requires Plus(a, r) == Plus(b, t)
    ensures Plus(a, b) == Plus(r, t)
  {
    forall e
      ensures e in Plus(a, b) <==> e in Plus(r, t)
    {
      PlusIn(a, r, e);
      PlusIn(b, t, e);
      PlusIn(a, b, e);
      PlusIn(r, t, e);
    }
  }

  lemma NoSum(r: Poly, t: Poly)
    requires Plus(r, t) == {}
    ensures r == t
  {
    assert forall e :: e in r && e !in t ==> e in Plus(r, t);
    assert forall e :: e in t && e !in r ==> e in Plus(r, t);
  }

  /** So the remainder, and with it the checksum, is determined by the data. */
  lemma {:induction false} OneRemainder(m: Poly, r: Poly, t: Poly)
    requires IsRemainder(m, r) && IsRemainder(m, t)
    ensures r == t
  {
    var p :| m == Plus(Multiple(p), r);
    var q :| m == Plus(Multiple(q), t);
    SumsEqual(Multiple(p), Multiple(q), r, t);
    Padded(p, |q|);
    Padded(q, |p|);
    MultipleSum(Zeros(|q|) + p, Zeros(|p|) + q);
    ShortMultiple(Sum(Zeros(|q|) + p, Zeros(|p|) + q));
    NoSum(r, t);
  }
}
