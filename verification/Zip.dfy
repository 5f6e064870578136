/**
 The ZIP writer (stored entries only) against a reader that follows the PKWARE APPNOTE:
 end of central directory record (section 4.3.16), central directory headers (4.3.12) and
 local file headers (4.3.7).
 */
module Zip {
  import opened Common
  import opened Crc

  type Octet = n: int | 0 <= n < 256

  datatype File = File(name: seq<Octet>, data: seq<Octet>)

  /** A checksum of 32 bits; the writer's is CRC-32. */
  type Word32 = n: nat | n < 0x1_0000_0000 witness 0

  type Checksum = seq<Octet> -> Word32

  /** The byte with these binary digits, lowest first. */
  function Digits(b0: bool, b1: bool, b2: bool, b3: bool, b4: bool, b5: bool, b6: bool, b7: bool): Byte {
    (if b0 then 1 else 0) | (if b1 then 2 else 0) | (if b2 then 4 else 0) | (if b3 then 8 else 0)
    | (if b4 then 16 else 0) | (if b5 then 32 else 0) | (if b6 then 64 else 0) | (if b7 then 128 else 0)
  }

  function Odd(n: nat): bool {
    n % 2 == 1
  }

  /** `n` halved `k` times. */
  function Halved(n: nat, k: nat): nat {
    if k == 0 then n else Halved(n, k - 1) / 2
  }

  function Digit(n: nat, k: nat): bool {
    Odd(Halved(n, k))
  }

  function ToByte(x: Octet): Byte {
    Digits(Digit(x, 0), Digit(x, 1), Digit(x, 2), Digit(x, 3), Digit(x, 4), Digit(x, 5), Digit(x, 6), Digit(x, 7))
  }

  function ToBytes(data: seq<Octet>): seq<Byte> {
    seq(|data|, i requires 0 <= i < |data| => ToByte(data[i]))
  }

  function Value(bit: bool): nat {
    if bit then 1 else 0
  }

  lemma DigitsValue(b0: bool, b1: bool, b2: bool, b3: bool, b4: bool, b5: bool, b6: bool, b7: bool)
    ensures Digits(b0, b1, b2, b3, b4, b5, b6, b7) as int ==
      Value(b0) + 2 * Value(b1) + 4 * Value(b2) + 8 * Value(b3)
      + 16 * Value(b4) + 32 * Value(b5) + 64 * Value(b6) + 128 * Value(b7)
  {
  }

  function DigitValue(n: nat, k: nat): nat {
    Value(Digit(n, k))
  }

  lemma {:induction false} HalvedOnce(n: nat, k: nat)
    ensures Halved(n, k) == DigitValue(n, k) + 2 * Halved(n, k + 1)
  {
  }

  lemma {:induction false} FourDigits(n: nat, k: nat)
    ensures Halved(n, k) == DigitValue(n, k) + 2 * DigitValue(n, k + 1) + 4 * DigitValue(n, k + 2)
                            + 8 * DigitValue(n, k + 3) + 16 * Halved(n, k + 4)
  {
    HalvedOnce(n, k);
    HalvedOnce(n, k + 1);
    HalvedOnce(n, k + 2);
    HalvedOnce(n, k + 3);
  }

  lemma {:induction false} EightDigits(x: nat, k: nat)
    requires Halved(x, k) < 256
    ensures Halved(x, k) == DigitValue(x, k) + 2 * DigitValue(x, k + 1) + 4 * DigitValue(x, k + 2)
      + 8 * DigitValue(x, k + 3) + 16 * DigitValue(x, k + 4) + 32 * DigitValue(x, k + 5)
      + 64 * DigitValue(x, k + 6) + 128 * DigitValue(x, k + 7)
  {
    FourDigits(x, k);
    FourDigits(x, k + 4);
  }

  lemma {:induction false} ToByteSum(x: Octet, k: nat)
    requires k == 0
    ensures ToByte(x) as int == DigitValue(x, k) + 2 * DigitValue(x, k + 1) + 4 * DigitValue(x, k + 2)
      + 8 * DigitValue(x, k + 3) + 16 * DigitValue(x, k + 4) + 32 * DigitValue(x, k + 5)
      + 64 * DigitValue(x, k + 6) + 128 * DigitValue(x, k + 7)
  {
    DigitsValue(Digit(x, 0), Digit(x, 1), Digit(x, 2), Digit(x, 3), Digit(x, 4), Digit(x, 5), Digit(x, 6), Digit(x, 7));
  }

  lemma {:induction false} ToByteIsFrom(x: Octet, k: nat)
    requires k == 0
    ensures ToByte(x) as int == x
  {
    EightDigits(x, k);
    ToByteSum(x, k);
  }

  /** The byte fed into the checksum is the byte of the file. */
  lemma {:induction false} ToByteIs(x: Octet)
    ensures ToByte(x) as int == x
  {
    ToByteIsFrom(x, 0);
  }

  ghost function CrcOf(data: seq<Octet>): Word32 {
    Crc32(ToBytes(data)) as int
  }

  const LOCAL_SIGNATURE := 0x0403_4b50
  const CENTRAL_SIGNATURE := 0x0201_4b50
  const END_SIGNATURE := 0x0605_4b50

  // ----- Little-endian fields, truncated to their width -----

  /** The lowest `width` bytes of a number, least significant first. */
  function Bytes(n: nat, width: nat): (b: seq<Octet>)
    ensures |b| == width
    decreases width
  {
    if width == 0 then [] else [n % 256] + Bytes(n / 256, width - 1)
  }

  function LE16(n: nat): seq<Octet> {
    Bytes(n, 2)
  }

  function LE32(n: nat): seq<Octet> {
    Bytes(n, 4)
  }

  function Number(b: seq<Octet>): nat {
    if b == [] then 0 else b[0] as int + 256 * Number(b[1..])
  }

  function U16(b: seq<Octet>, i: nat): nat
    requires i + 2 <= |b|
  {
    Number(b[i..i + 2])
  }

  function U32(b: seq<Octet>, i: nat): nat
    requires i + 4 <= |b|
  {
    Number(b[i..i + 4])
  }

  lemma NumberPair(x: Octet, y: Octet)
    ensures Number([x, y]) == x as int + 256 * (y as int)
  {
    assert [x, y][1..] == [y] && [y][1..] == [];
    assert Number([y]) == y as int;
  }

  /** Writing a number into a two-byte field and reading it back truncates it. */
  lemma U16Of(b: seq<Octet>, i: nat, n: nat)
    requires At(b, i, LE16(n))
    ensures U16(b, i) == n % 0x1_0000
  {
    Number2(n);
  }

  lemma Number2(n: nat)
    ensures Number(Bytes(n, 2)) == n % 0x1_0000
  {
    assert Bytes(n, 2) == [n % 256] + Bytes(n / 256, 1) && Bytes(n / 256, 1) == [n / 256 % 256] + [];
    assert Bytes(n, 2) == [n % 256, n / 256 % 256];
    NumberPair(n % 256, n / 256 % 256);
  }

  lemma Number4(n: nat)
    requires n < 0x1_0000_0000
    ensures Number(Bytes(n, 4)) == n
  {
    var n1 := n / 256;
    var n2 := n1 / 256;
    var n3 := n2 / 256;
    assert Bytes(n, 4)[1..] == Bytes(n1, 3) && Bytes(n1, 3)[1..] == Bytes(n2, 2);
    assert Bytes(n2, 2)[1..] == Bytes(n3, 1) && Bytes(n3, 1)[1..] == [];
    assert Number(Bytes(n3, 1)) == n3 % 256;
    assert Number(Bytes(n2, 2)) == n2 % 256 + 256 * (n3 % 256);
    assert Number(Bytes(n1, 3)) == n1 % 256 + 256 * (n2 % 256 + 256 * (n3 % 256));
    assert n3 < 256;
  }

  lemma U32Of(b: seq<Octet>, i: nat, n: nat)
    requires At(b, i, LE32(n)) && n < 0x1_0000_0000
    ensures U32(b, i) == n
  {
    Number4(n);
  }

  lemma SmallMod(n: nat)
    requires n < 0x1_0000
    ensures n % 0x1_0000 == n
  {
  }

  // ----- What stands where -----

  ghost predicate At(b: seq<Octet>, i: nat, s: seq<Octet>) {
    i + |s| <= |b| && b[i..i + |s|] == s
  }

  lemma AtConcat(b: seq<Octet>, i: nat, s: seq<Octet>, t: seq<Octet>)
    requires At(b, i, s + t)
    ensures At(b, i, s) && At(b, i + |s|, t)
  {
    var w := b[i..i + |s + t|];
    assert b[i..i + |s|] == w[..|s|] == s;
    assert b[i + |s|..i + |s| + |t|] == w[|s|..] == t;
  }

  lemma AtPrefix(b: seq<Octet>, s: seq<Octet>, t: seq<Octet>, i: nat, x: seq<Octet>)
    requires b == s + t && At(s, i, x)
    ensures At(b, i, x)
  {
    assert b[i..i + |x|] == s[i..i + |x|];
  }

  lemma AtEnd(b: seq<Octet>, s: seq<Octet>, t: seq<Octet>)
    requires b == s + t
    ensures At(b, |s|, t)
  {
  }

  // ----- The writer -----

  const LOCAL_FIXED: seq<Octet> := [20, 0, 0, 0, 0, 0, 0, 0, 0x21, 0]
  const CENTRAL_FIXED: seq<Octet> := [20, 0, 20, 0, 0, 0, 0, 0, 0, 0, 0x21, 0]
  const TWELVE_ZEROS: seq<Octet> := [0, 0, 0, 0, 0, 0, 0, 0, 0, 0, 0, 0]

  /** A record as the list of its fields. */
  ghost function LocalFields(sum: Checksum, f: File): seq<seq<Octet>> {
    [LE32(LOCAL_SIGNATURE), LOCAL_FIXED, LE32(sum(f.data)), LE32(|f.data|), LE32(|f.data|),
     LE16(|f.name|), LE16(0), f.name, f.data]
  }

  ghost function CentralFields(sum: Checksum, f: File, offset: nat): seq<seq<Octet>> {
    [LE32(CENTRAL_SIGNATURE), CENTRAL_FIXED, LE32(sum(f.data)), LE32(|f.data|), LE32(|f.data|),
     LE16(|f.name|), TWELVE_ZEROS, LE32(offset), f.name]
  }

  ghost function EndFields(count: nat, size: nat, offset: nat): seq<seq<Octet>> {
    [LE32(END_SIGNATURE), [0, 0, 0, 0], LE16(count), LE16(count), LE32(size), LE32(offset), LE16(0)]
  }

  ghost function Flat(fields: seq<seq<Octet>>): seq<Octet> {
    if fields == [] then [] else Flat(fields[..|fields| - 1]) + fields[|fields| - 1]
  }

  lemma FlatAppend(fields: seq<seq<Octet>>, field: seq<Octet>)
    ensures Flat(fields + [field]) == Flat(fields) + field
  {
    assert (fields + [field])[..|fields|] == fields;
  }

  lemma FlatPrefix(fields: seq<seq<Octet>>, k: nat)
    requires k < |fields|
    ensures Flat(fields[..k + 1]) == Flat(fields[..k]) + fields[k]
  {
    assert fields[..k + 1] == fields[..k] + [fields[k]];
    FlatAppend(fields[..k], fields[k]);
  }

  ghost function Local(sum: Checksum, f: File): seq<Octet> {
    Flat(LocalFields(sum, f))
  }

  ghost function Central(sum: Checksum, f: File, offset: nat): seq<Octet> {
    Flat(CentralFields(sum, f, offset))
  }

  ghost function End(count: nat, size: nat, offset: nat): seq<Octet> {
    Flat(EndFields(count, size, offset))
  }

  ghost function Locals(sum: Checksum, files: seq<File>): seq<Octet> {
    if files == [] then [] else Locals(sum, files[..|files| - 1]) + Local(sum, files[|files| - 1])
  }

  ghost function Centrals(sum: Checksum, files: seq<File>): seq<Octet> {
    if files == [] then []
    else Centrals(sum, files[..|files| - 1]) + Central(sum, files[|files| - 1], |Locals(sum, files[..|files| - 1])|)
  }

  ghost function Archive(sum: Checksum, files: seq<File>): seq<Octet> {
    Locals(sum, files) + Centrals(sum, files) + End(|files|, |Centrals(sum, files)|, |Locals(sum, files)|)
  }

  /** Appends fields to a buffer one after the other. */
  method Extend(buffer: seq<Octet>, fields: seq<seq<Octet>>) returns (out: seq<Octet>)
    ensures out == buffer + Flat(fields)
  {
    out := buffer;
    for k := 0 to |fields|
      invariant out == buffer + Flat(fields[..k])
    {
      FlatPrefix(fields, k);
      out := out + fields[k];
    }
    assert fields[..|fields|] == fields;
  }

  /** The archive, byte for byte, and when the reader gets the files back. */
  method Stored(files: seq<File>) returns (out: seq<Octet>)
    ensures out == Archive(CrcOf, files)
    ensures SizeFits(CrcOf, files) ==>
      (ReadArchive(CrcOf, out) == Some(files) <==> NamesFit(files) && |files| < 0x1_0000)
  {
    if SizeFits(CrcOf, files) {
      RoundTrip(CrcOf, files);
    }
    out := [];
    var central: seq<Octet> := [];
    for k := 0 to |files|
      invariant out == Locals(CrcOf, files[..k]) && central == Centrals(CrcOf, files[..k])
    {
      var f := files[k];
      assert files[..k + 1][..k] == files[..k];
      var offset, size, nameLength := |out|, |f.data|, |f.name|;
      var crc := ComputeCrc32(ToBytes(f.data));
      var sum := crc as int;
      out := Extend(out, [LE32(LOCAL_SIGNATURE), LOCAL_FIXED, LE32(sum), LE32(size), LE32(size),
                          LE16(nameLength), LE16(0), f.name, f.data]);
      central := Extend(central, [LE32(CENTRAL_SIGNATURE), CENTRAL_FIXED, LE32(sum), LE32(size), LE32(size),
                                  LE16(nameLength), TWELVE_ZEROS, LE32(offset), f.name]);
    }
    assert files[..|files|] == files;
    var centralOffset, centralSize, count := |out|, |central|, |files|;
    out := out + central;
    out := Extend(out, [LE32(END_SIGNATURE), [0, 0, 0, 0], LE16(count), LE16(count),
                        LE32(centralSize), LE32(centralOffset), LE16(0)]);
  }

  // ----- The reader -----

  /** A record begins with "PK" and the two bytes of its kind. */
  ghost predicate Signed(b: seq<Octet>, at: nat, x: Octet, y: Octet) {
    at + 4 <= |b| && b[at..at + 4] == [0x50, 0x4b, x, y]
  }

  /** A time of day in the format of MS-DOS (section 4.4.6): hours, minutes, half seconds. */
  predicate IsTime(t: nat) {
    t / 2048 < 24 && t / 32 % 64 < 60 && t % 32 < 30
  }

  /** A month and a day. */
  predicate IsDate(d: nat) {
    1 <= d / 32 % 16 <= 12 && 1 <= d % 32 <= 31
  }

  /** Nothing above version 2.0 is needed, no flags, stored, at a time there is (sections 4.4.3
      to 4.4.6). */
  ghost predicate Plain(b: seq<Octet>, at: nat)
    requires at + 10 <= |b|
  {
    && U16(b, at) <= 20 && U16(b, at + 2) == 0 && U16(b, at + 4) == 0
    && IsTime(U16(b, at + 6)) && IsDate(U16(b, at + 8))
  }

  /** The checksum and the sizes before and after compression. */
  ghost predicate Says(b: seq<Octet>, at: nat, crc: nat, size: nat)
    requires at + 12 <= |b|
  {
    U32(b, at) == crc && U32(b, at + 4) == size && U32(b, at + 8) == size
  }

  /** A local file header with the name and checksum its central header announced, and the
      data behind it. */
  ghost function ReadLocal(sum: Checksum, b: seq<Octet>, at: nat, name: seq<Octet>, size: nat, crc: nat): Option<seq<Octet>> {
    if at + 30 > |b| || !Signed(b, at, 3, 4) || !Plain(b, at + 4) || !Says(b, at + 14, crc, size) then None
    else
      var start := at + 30 + U16(b, at + 26) + U16(b, at + 28);
      if start + size > |b| || b[at + 30..at + 30 + U16(b, at + 26)] != name then None
      else
        var data := b[start..start + size];
        if sum(data) != crc then None else Some(data)
  }

  /** What a central header announces, and where the next one starts. */
  datatype Header = Header(name: seq<Octet>, size: nat, crc: nat, offset: nat, next: nat)

  ghost function ReadHeader(b: seq<Octet>, at: nat): Option<Header> {
    if at + 46 > |b| || !Signed(b, at, 1, 2) || !Plain(b, at + 6) then None
    else
      var n := U16(b, at + 28);
      if at + 46 + n > |b| || U32(b, at + 20) != U32(b, at + 24) || U16(b, at + 34) != 0 then None
      else Some(Header(b[at + 46..at + 46 + n], U32(b, at + 24), U32(b, at + 16), U32(b, at + 42),
                       at + 46 + n + U16(b, at + 30) + U16(b, at + 32)))
  }

  /** `count` central headers from `at` on, each with the file its offset leads to. */
  ghost function ReadCentral(header: nat -> Option<Header>, local: Header -> Option<seq<Octet>>, at: nat, count: nat)
    : Option<seq<File>>
    decreases count
  {
    if count == 0 then Some([])
    else if header(at).None? then None
    else
      var h := header(at).value;
      var rest := ReadCentral(header, local, h.next, count - 1);
      if local(h).None? || rest.None? then None else Some([File(h.name, local(h).value)] + rest.value)
  }

  ghost function HeadersOf(b: seq<Octet>): nat -> Option<Header> {
    (at: nat) => ReadHeader(b, at)
  }

  ghost function LocalsOf(sum: Checksum, b: seq<Octet>): Header -> Option<seq<Octet>> {
    (h: Header) => ReadLocal(sum, b, h.offset, h.name, h.size, h.crc)
  }

  /** The end record is searched from the back: the signature, and a comment that reaches
      exactly to the end of the file. */
  ghost predicate IsEnd(b: seq<Octet>, at: nat) {
    at + 22 <= |b| && Signed(b, at, 5, 6) && at + 22 + U16(b, at + 20) == |b|
  }

  ghost function FindEnd(b: seq<Octet>, at: nat): Option<nat> {
    if IsEnd(b, at) then Some(at) else if at == 0 then None else FindEnd(b, at - 1)
  }

  /** One disk, which holds all entries, and a directory that ends where the record begins. */
  ghost predicate EndSound(b: seq<Octet>, end: nat)
    requires end + 22 <= |b|
  {
    && U16(b, end + 4) == 0 && U16(b, end + 6) == 0 && U16(b, end + 8) == U16(b, end + 10)
    && U32(b, end + 16) + U32(b, end + 12) == end
  }

  /** What the end record at `end` announces. */
  ghost function ReadFromEnd(sum: Checksum, b: seq<Octet>, end: nat): Option<seq<File>>
    requires end + 22 <= |b|
  {
    if !EndSound(b, end) then None
    else ReadCentral(HeadersOf(b), LocalsOf(sum, b), U32(b, end + 16), U16(b, end + 10))
  }

  ghost function ReadArchive(sum: Checksum, b: seq<Octet>): Option<seq<File>> {
    if |b| < 22 then None
    else
      var end := FindEnd(b, |b| - 22);
      if end.None? || end.value + 22 > |b| then None
      else ReadFromEnd(sum, b, end.value)
  }

  // ----- Entries are where their offsets say -----

  lemma {:induction false} LocalsPrefix(sum: Checksum, files: seq<File>, k: nat)
    requires k < |files|
    ensures At(Locals(sum, files), |Locals(sum, files[..k])|, Local(sum, files[k]))
    ensures |Locals(sum, files[..k])| + |Local(sum, files[k])| <= |Locals(sum, files)|
    decreases |files|
  {
    var front, last := files[..|files| - 1], files[|files| - 1];
    if k == |front| {
      AtEnd(Locals(sum, files), Locals(sum, front), Local(sum, last));
    } else {
      LocalsPrefix(sum, front, k);
      assert front[..k] == files[..k];
      AtPrefix(Locals(sum, files), Locals(sum, front), Local(sum, last), |Locals(sum, files[..k])|, Local(sum, files[k]));
    }
  }

  lemma {:induction false} CentralsPrefix(sum: Checksum, files: seq<File>, k: nat)
    requires k < |files|
    ensures At(Centrals(sum, files), |Centrals(sum, files[..k])|, Central(sum, files[k], |Locals(sum, files[..k])|))
    decreases |files|
  {
    var front, last := files[..|files| - 1], files[|files| - 1];
    if k == |front| {
      AtEnd(Centrals(sum, files), Centrals(sum, front), Central(sum, last, |Locals(sum, front)|));
    } else {
      CentralsPrefix(sum, front, k);
      assert front[..k] == files[..k];
      AtPrefix(Centrals(sum, files), Centrals(sum, front), Central(sum, last, |Locals(sum, front)|),
               |Centrals(sum, files[..k])|, Central(sum, files[k], |Locals(sum, files[..k])|));
    }
  }

  lemma AtShift(b: seq<Octet>, s: seq<Octet>, m: seq<Octet>, t: seq<Octet>, i: nat, x: seq<Octet>)
    requires b == s + m + t && At(m, i, x)
    ensures At(b, |s| + i, x)
  {
    assert b[|s| + i..|s| + i + |x|] == m[i..i + |x|];
  }

  lemma {:induction false} CentralPlace(sum: Checksum, files: seq<File>, k: nat, l: seq<Octet>, e: seq<Octet>)
    requires k < |files|
    ensures At(l + Centrals(sum, files) + e, |l| + |Centrals(sum, files[..k])|,
               Central(sum, files[k], |Locals(sum, files[..k])|))
  {
    var c := Centrals(sum, files);
    CentralsPrefix(sum, files, k);
    AtShift(l + c + e, l, c, e, |Centrals(sum, files[..k])|, Central(sum, files[k], |Locals(sum, files[..k])|));
  }

  lemma AtFirst(b: seq<Octet>, s: seq<Octet>, m: seq<Octet>, t: seq<Octet>, i: nat, x: seq<Octet>)
    requires b == s + m + t && At(s, i, x)
    ensures At(b, i, x)
  {
    assert b[i..i + |x|] == s[i..i + |x|];
  }

  /** A file's local header stands where its central header says. */
  lemma {:induction false} LocalPlace(sum: Checksum, files: seq<File>, k: nat, c: seq<Octet>, e: seq<Octet>)
    requires k < |files|
    ensures At(Locals(sum, files) + c + e, |Locals(sum, files[..k])|, Local(sum, files[k]))
  {
    var l := Locals(sum, files);
    LocalsPrefix(sum, files, k);
    AtFirst(l + c + e, l, c, e, |Locals(sum, files[..k])|, Local(sum, files[k]));
  }

  // ----- Reading fields back -----

  lemma {:induction false} FieldAt(b: seq<Octet>, at: nat, fields: seq<seq<Octet>>, k: nat)
    requires At(b, at, Flat(fields)) && k < |fields|
    ensures At(b, at + |Flat(fields[..k])|, fields[k])
    decreases |fields|
  {
    var n := |fields| - 1;
    AtConcat(b, at, Flat(fields[..n]), fields[n]);
    if k < n {
      FieldAt(b, at, fields[..n], k);
      assert fields[..n][..k] == fields[..k];
    }
  }

  /** The offset of a field is the sum of the lengths before it. */
  ghost function Offset(fields: seq<seq<Octet>>, k: nat): nat
    requires k <= |fields|
  {
    if k == 0 then 0 else Offset(fields, k - 1) + |fields[k - 1]|
  }

  lemma {:induction false} OffsetIs(fields: seq<seq<Octet>>, k: nat)
    requires k <= |fields|
    ensures |Flat(fields[..k])| == Offset(fields, k)
  {
    if k > 0 {
      OffsetIs(fields, k - 1);
      FlatPrefix(fields, k - 1);
    }
  }

  lemma {:induction false} Field(b: seq<Octet>, at: nat, fields: seq<seq<Octet>>, k: nat)
    requires At(b, at, Flat(fields)) && k < |fields|
    ensures At(b, at + Offset(fields, k), fields[k])
  {
    OffsetIs(fields, k);
    FieldAt(b, at, fields, k);
  }

  /** A number among fixed bytes. */
  lemma FixedPair(b: seq<Octet>, at: nat, fixed: seq<Octet>, i: nat)
    requires At(b, at, fixed) && i + 2 <= |fixed|
    ensures at + i + 2 <= |b| && U16(b, at + i) == fixed[i] as int + 256 * (fixed[i + 1] as int)
  {
    var f := b[at + i..at + i + 2];
    assert f == b[at..at + |fixed|][i..i + 2] == [fixed[i], fixed[i + 1]];
    NumberPair(fixed[i], fixed[i + 1]);
  }

  lemma LocalSums(sum: Checksum, f: File)
    ensures var fields := LocalFields(sum, f);
      && Offset(fields, 0) == 0 && Offset(fields, 1) == 4 && Offset(fields, 2) == 14 && Offset(fields, 3) == 18
      && Offset(fields, 4) == 22 && Offset(fields, 5) == 26 && Offset(fields, 6) == 28 && Offset(fields, 7) == 30 && Offset(fields, 8) == 30 + |f.name|
  {
    var fields := LocalFields(sum, f);
    assert Offset(fields, 1) == 4 && Offset(fields, 2) == 14 && Offset(fields, 3) == 18 && Offset(fields, 4) == 22;
    assert Offset(fields, 5) == 26 && Offset(fields, 6) == 28 && Offset(fields, 7) == 30;
  }

  /** A number field of a record, read back. */
  lemma Word16(b: seq<Octet>, at: nat, fields: seq<seq<Octet>>, k: nat, offset: nat, n: nat)
    requires At(b, at, Flat(fields)) && k < |fields| && fields[k] == LE16(n) && Offset(fields, k) == offset
    requires n < 0x1_0000
    ensures at + offset + 2 <= |b| && U16(b, at + offset) == n
  {
    Field(b, at, fields, k);
    U16Of(b, at + offset, n);
    SmallMod(n);
  }

  lemma Word32At(b: seq<Octet>, at: nat, fields: seq<seq<Octet>>, k: nat, offset: nat, n: nat)
    requires At(b, at, Flat(fields)) && k < |fields| && fields[k] == LE32(n) && Offset(fields, k) == offset
    requires n < 0x1_0000_0000
    ensures at + offset + 4 <= |b| && U32(b, at + offset) == n
  {
    Field(b, at, fields, k);
    U32Of(b, at + offset, n);
  }

  lemma Pair16(b: seq<Octet>, at: nat, fields: seq<seq<Octet>>, k: nat, offset: nat, i: nat)
    requires At(b, at, Flat(fields)) && k < |fields| && Offset(fields, k) == offset && i + 2 <= |fields[k]|
    ensures at + offset + i + 2 <= |b| && U16(b, at + offset + i) == fields[k][i] as int + 256 * (fields[k][i + 1] as int)
  {
    Field(b, at, fields, k);
    FixedPair(b, at + offset, fields[k], i);
  }

  /** The bytes of a signature. */
  lemma Bytes4(n: nat, b0: Octet, b1: Octet, b2: Octet, b3: Octet)
    requires n == b0 + 256 * (b1 + 256 * (b2 + 256 * b3))
    ensures LE32(n) == [b0, b1, b2, b3]
  {
    var n1 := n / 256;
    var n2 := n1 / 256;
    assert n % 256 == b0 && n1 == b1 + 256 * (b2 + 256 * b3) && n1 % 256 == b1 && n2 == b2 + 256 * b3;
    assert Bytes(n, 4) == [b0] + Bytes(n1, 3) && Bytes(n1, 3) == [b1] + Bytes(n2, 2);
    assert Bytes(n2, 2) == [b2] + Bytes(b3 as int, 1) && Bytes(b3 as int, 1) == [b3];
  }

  lemma SignedBy(b: seq<Octet>, at: nat, fields: seq<seq<Octet>>, n: nat, x: Octet, y: Octet)
    requires At(b, at, Flat(fields)) && fields != [] && fields[0] == LE32(n)
    requires n == 0x50 + 256 * (0x4b + 256 * (x + 256 * y))
    ensures Signed(b, at, x, y)
  {
    Field(b, at, fields, 0);
    Bytes4(n, 0x50, 0x4b, x, y);
  }

  /** What the writer puts into the fields the reader wants plain. */
  ghost predicate PlainBytes(fixed: seq<Octet>, i: nat) {
    i + 10 <= |fixed| && fixed[i..i + 10] == [20, 0, 0, 0, 0, 0, 0, 0, 0x21, 0]
  }

  lemma FixedIsPlain()
    ensures PlainBytes(LOCAL_FIXED, 0) && PlainBytes(CENTRAL_FIXED, 2)
  {
  }

  lemma {:induction false} AtInside(b: seq<Octet>, at: nat, w: seq<Octet>, i: nat, n: nat)
    requires At(b, at, w) && i + n <= |w|
    ensures At(b, at + i, w[i..i + n])
  {
    assert w == w[..i] + (w[i..i + n] + w[i + n..]);
    AtConcat(b, at, w[..i], w[i..i + n] + w[i + n..]);
    AtConcat(b, at + i, w[i..i + n], w[i + n..]);
  }

  lemma Calendar()
    ensures IsTime(0) && IsDate(0x21)
  {
  }

  lemma {:induction false} PlainHere(b: seq<Octet>, at: nat, w: seq<Octet>)
    requires At(b, at, w) && |w| == 10 && w[0] == 20 && w[8] == 0x21 && w[1] == w[2] == w[3] == w[4] == w[5] == 0
    requires w[6] == w[7] == w[9] == 0
    ensures at + 10 <= |b| && Plain(b, at)
  {
    FixedPair(b, at, w, 0);
    FixedPair(b, at, w, 2);
    FixedPair(b, at, w, 4);
    FixedPair(b, at, w, 6);
    FixedPair(b, at, w, 8);
    Calendar();
  }

  lemma {:induction false} PlainAt(b: seq<Octet>, at: nat, fixed: seq<Octet>, i: nat)
    requires At(b, at, fixed) && PlainBytes(fixed, i)
    ensures at + i + 10 <= |b| && Plain(b, at + i)
  {
    AtInside(b, at, fixed, i, 10);
    PlainHere(b, at + i, fixed[i..i + 10]);
  }

  lemma LocalPlain(sum: Checksum, b: seq<Octet>, at: nat, f: File)
    requires At(b, at, Local(sum, f))
    ensures at + 14 <= |b| && Signed(b, at, 3, 4) && Plain(b, at + 4)
  {
    var fields := LocalFields(sum, f);
    LocalSums(sum, f);
    SignedBy(b, at, fields, LOCAL_SIGNATURE, 3, 4);
    Field(b, at, fields, 1);
    FixedIsPlain();
    PlainAt(b, at + 4, LOCAL_FIXED, 0);
  }

  lemma LocalSays(sum: Checksum, b: seq<Octet>, at: nat, f: File)
    requires At(b, at, Local(sum, f)) && |f.data| < 0x1_0000_0000
    ensures at + 26 <= |b| && Says(b, at + 14, sum(f.data), |f.data|)
  {
    var fields := LocalFields(sum, f);
    LocalSums(sum, f);
    Word32At(b, at, fields, 2, 14, sum(f.data));
    Word32At(b, at, fields, 3, 18, |f.data|);
    Word32At(b, at, fields, 4, 22, |f.data|);
  }

  lemma LocalNumbers(sum: Checksum, b: seq<Octet>, at: nat, f: File)
    requires At(b, at, Local(sum, f)) && |f.name| < 0x1_0000
    ensures at + 30 <= |b| && U16(b, at + 26) == |f.name| && U16(b, at + 28) == 0
  {
    var fields := LocalFields(sum, f);
    LocalSums(sum, f);
    Word16(b, at, fields, 5, 26, |f.name|);
    Word16(b, at, fields, 6, 28, 0);
  }

  lemma LocalName(sum: Checksum, b: seq<Octet>, at: nat, f: File)
    requires At(b, at, Local(sum, f))
    ensures At(b, at + 30, f.name)
  {
    LocalSums(sum, f);
    Field(b, at, LocalFields(sum, f), 7);
  }

  lemma LocalData(sum: Checksum, b: seq<Octet>, at: nat, f: File)
    requires At(b, at, Local(sum, f))
    ensures At(b, at + 30 + |f.name|, f.data)
  {
    LocalSums(sum, f);
    Field(b, at, LocalFields(sum, f), 8);
  }

  lemma CentralSums(sum: Checksum, f: File, offset: nat)
    ensures var fields := CentralFields(sum, f, offset);
      && Offset(fields, 0) == 0 && Offset(fields, 1) == 4 && Offset(fields, 2) == 16 && Offset(fields, 3) == 20
      && Offset(fields, 4) == 24 && Offset(fields, 5) == 28 && Offset(fields, 6) == 30 && Offset(fields, 7) == 42 && Offset(fields, 8) == 46
  {
    var fields := CentralFields(sum, f, offset);
    assert Offset(fields, 1) == 4 && Offset(fields, 2) == 16 && Offset(fields, 3) == 20 && Offset(fields, 4) == 24;
    assert Offset(fields, 5) == 28 && Offset(fields, 6) == 30 && Offset(fields, 7) == 42 && Offset(fields, 8) == 46;
  }

  lemma CentralPlain(sum: Checksum, b: seq<Octet>, at: nat, f: File, offset: nat)
    requires At(b, at, Central(sum, f, offset))
    ensures at + 16 <= |b| && Signed(b, at, 1, 2) && Plain(b, at + 6)
  {
    var fields := CentralFields(sum, f, offset);
    CentralSums(sum, f, offset);
    SignedBy(b, at, fields, CENTRAL_SIGNATURE, 1, 2);
    Field(b, at, fields, 1);
    FixedIsPlain();
    PlainAt(b, at + 4, CENTRAL_FIXED, 2);
  }

  lemma CentralNumbers(sum: Checksum, b: seq<Octet>, at: nat, f: File, offset: nat)
    requires At(b, at, Central(sum, f, offset)) && |f.name| < 0x1_0000
    ensures at + 36 <= |b| && U16(b, at + 28) == |f.name|
    ensures U16(b, at + 30) == 0 && U16(b, at + 32) == 0 && U16(b, at + 34) == 0
  {
    var fields := CentralFields(sum, f, offset);
    CentralSums(sum, f, offset);
    Word16(b, at, fields, 5, 28, |f.name|);
    Pair16(b, at, fields, 6, 30, 0);
    Pair16(b, at, fields, 6, 30, 2);
    Pair16(b, at, fields, 6, 30, 4);
  }

  lemma CentralContents(sum: Checksum, b: seq<Octet>, at: nat, f: File, offset: nat)
    requires At(b, at, Central(sum, f, offset)) && |f.data| < 0x1_0000_0000 && offset < 0x1_0000_0000
    ensures at + 46 <= |b| && At(b, at + 46, f.name)
    ensures U32(b, at + 16) == sum(f.data) && U32(b, at + 20) == U32(b, at + 24) == |f.data| && U32(b, at + 42) == offset
  {
    var fields := CentralFields(sum, f, offset);
    CentralSums(sum, f, offset);
    Field(b, at, fields, 8);
    Word32At(b, at, fields, 2, 16, sum(f.data));
    Word32At(b, at, fields, 3, 20, |f.data|);
    Word32At(b, at, fields, 4, 24, |f.data|);
    Word32At(b, at, fields, 7, 42, offset);
  }

  lemma EndSums(count: nat, size: nat, offset: nat)
    ensures var fields := EndFields(count, size, offset);
      && Offset(fields, 0) == 0 && Offset(fields, 1) == 4 && Offset(fields, 2) == 8 && Offset(fields, 3) == 10
      && Offset(fields, 4) == 12 && Offset(fields, 5) == 16 && Offset(fields, 6) == 20
      && |End(count, size, offset)| == 22
  {
    var fields := EndFields(count, size, offset);
    assert Offset(fields, 1) == 4 && Offset(fields, 2) == 8 && Offset(fields, 3) == 10 && Offset(fields, 4) == 12;
    assert Offset(fields, 5) == 16 && Offset(fields, 6) == 20 && Offset(fields, 7) == 22;
    OffsetIs(fields, 7);
    assert fields[..7] == fields;
  }

  lemma EndSize(count: nat, size: nat, offset: nat)
    ensures |End(count, size, offset)| == 22
  {
    EndSums(count, size, offset);
  }

  lemma {:induction false} ReadEndFields(b: seq<Octet>, at: nat, count: nat, size: nat, offset: nat)
    requires At(b, at, End(count, size, offset)) && at + 22 == |b| && offset < 0x1_0000_0000
    ensures IsEnd(b, at) && U16(b, at + 10) == count % 0x1_0000 && U32(b, at + 16) == offset
  {
    var fields := EndFields(count, size, offset);
    EndSums(count, size, offset);
    SignedBy(b, at, fields, END_SIGNATURE, 5, 6);
    Field(b, at, fields, 3);
    U16Of(b, at + 10, count);
    Word32At(b, at, fields, 5, 16, offset);
    Word16(b, at, fields, 6, 20, 0);
  }

  lemma {:induction false} EndDisks(b: seq<Octet>, at: nat, count: nat, size: nat, offset: nat)
    requires At(b, at, End(count, size, offset))
    ensures at + 12 <= |b| && U16(b, at + 4) == 0 && U16(b, at + 6) == 0 && U16(b, at + 8) == U16(b, at + 10)
  {
    var fields := EndFields(count, size, offset);
    EndSums(count, size, offset);
    Pair16(b, at, fields, 1, 4, 0);
    Pair16(b, at, fields, 1, 4, 2);
    Field(b, at, fields, 2);
    Field(b, at, fields, 3);
    U16Of(b, at + 8, count);
    U16Of(b, at + 10, count);
  }

  lemma {:induction false} EndPlace(b: seq<Octet>, at: nat, count: nat, size: nat, offset: nat)
    requires At(b, at, End(count, size, offset)) && offset < 0x1_0000_0000 && size < 0x1_0000_0000
    ensures at + 20 <= |b| && U32(b, at + 12) == size && U32(b, at + 16) == offset
  {
    var fields := EndFields(count, size, offset);
    EndSums(count, size, offset);
    Word32At(b, at, fields, 4, 12, size);
    Word32At(b, at, fields, 5, 16, offset);
  }

  lemma {:induction false} ReadEndSound(b: seq<Octet>, at: nat, count: nat, size: nat, offset: nat)
    requires At(b, at, End(count, size, offset)) && at + 22 == |b| && offset + size == at < 0x1_0000_0000
    ensures EndSound(b, at)
  {
    EndDisks(b, at, count, size, offset);
    EndPlace(b, at, count, size, offset);
  }

  // ----- The round trip -----

  ghost predicate NamesFit(files: seq<File>) {
    forall f :: f in files ==> |f.name| < 0x1_0000
  }

  /** Every offset and size fits its four bytes. */
  ghost predicate SizeFits(sum: Checksum, files: seq<File>) {
    |Archive(sum, files)| < 0x1_0000_0000
  }

  lemma ReadsLocal(sum: Checksum, b: seq<Octet>, at: nat, f: File)
    requires At(b, at, Local(sum, f)) && |f.name| < 0x1_0000 && |f.data| < 0x1_0000_0000
    ensures ReadLocal(sum, b, at, f.name, |f.data|, sum(f.data)) == Some(f.data)
  {
    LocalPlain(sum, b, at, f);
    LocalSays(sum, b, at, f);
    LocalNumbers(sum, b, at, f);
    LocalName(sum, b, at, f);
    LocalData(sum, b, at, f);
  }

  lemma HeaderIs(b: seq<Octet>, at: nat, n: nat)
    requires at + 46 + n <= |b| && Signed(b, at, 1, 2) && Plain(b, at + 6)
    requires U16(b, at + 28) == n && U16(b, at + 30) == 0 && U16(b, at + 32) == 0 && U16(b, at + 34) == 0
    requires U32(b, at + 20) == U32(b, at + 24)
    ensures ReadHeader(b, at) == Some(Header(b[at + 46..at + 46 + n], U32(b, at + 24), U32(b, at + 16), U32(b, at + 42),
                                             at + 46 + n))
  {
  }

  lemma ReadsHeader(sum: Checksum, b: seq<Octet>, at: nat, f: File, offset: nat)
    requires At(b, at, Central(sum, f, offset))
    requires |f.name| < 0x1_0000 && |f.data| < 0x1_0000_0000 && offset < 0x1_0000_0000
    ensures ReadHeader(b, at) == Some(Header(f.name, |f.data|, sum(f.data), offset, at + 46 + |f.name|))
  {
    CentralPlain(sum, b, at, f, offset);
    CentralNumbers(sum, b, at, f, offset);
    CentralContents(sum, b, at, f, offset);
    HeaderIs(b, at, |f.name|);
  }

  lemma LocalSize(sum: Checksum, f: File)
    ensures |Local(sum, f)| == 30 + |f.name| + |f.data|
  {
    var fields := LocalFields(sum, f);
    LocalSums(sum, f);
    OffsetIs(fields, 9);
    assert fields[..9] == fields;
  }

  lemma CentralsStep(sum: Checksum, files: seq<File>, k: nat)
    requires k < |files|
    ensures |Centrals(sum, files[..k + 1])| == |Centrals(sum, files[..k])| + 46 + |files[k].name|
  {
    assert files[..k + 1][..k] == files[..k];
    var fields := CentralFields(sum, files[k], |Locals(sum, files[..k])|);
    CentralSums(sum, files[k], |Locals(sum, files[..k])|);
    OffsetIs(fields, 9);
    assert fields[..9] == fields;
  }

  /** The header read at `at` is that of `f`, leads to its data and is followed at `next`. */
  ghost predicate Entry(header: nat -> Option<Header>, local: Header -> Option<seq<Octet>>, at: nat, next: nat, f: File) {
    && header(at).Some? && header(at).value.next == next
    && header(at).value.name == f.name && local(header(at).value) == Some(f.data)
  }

  ghost predicate EntryOf(header: nat -> Option<Header>, local: Header -> Option<seq<Octet>>,
                          places: seq<nat>, files: seq<File>, k: int)
    requires |places| == |files| + 1 && 0 <= k < |files|
  {
    Entry(header, local, places[k], places[k + 1], files[k])
  }

  lemma {:induction false} ReadsFrom(header: nat -> Option<Header>, local: Header -> Option<seq<Octet>>,
                                     places: seq<nat>, files: seq<File>, k: nat)
    requires |places| == |files| + 1 && k <= |files|
    requires forall i :: 0 <= i < |files| ==> EntryOf(header, local, places, files, i)
    ensures ReadCentral(header, local, places[k], |files| - k) == Some(files[k..])
    decreases |files| - k
  {
    if k == |files| {
      assert files[k..] == [];
    } else {
      ReadsFrom(header, local, places, files, k + 1);
      assert EntryOf(header, local, places, files, k);
      var h := header(places[k]).value;
      assert File(h.name, local(h).value) == files[k] && h.next == places[k + 1];
      assert ReadCentral(header, local, places[k], |files| - k) == Some([files[k]] + files[k + 1..]);
      assert files[k..] == [files[k]] + files[k + 1..];
    }
  }

  /** Where the `k`-th central header stands. */
  ghost function HeaderAt(sum: Checksum, files: seq<File>, k: nat): nat
    requires k <= |files|
  {
    |Locals(sum, files)| + |Centrals(sum, files[..k])|
  }

  lemma OffsetFits(sum: Checksum, files: seq<File>, k: nat)
    requires k < |files| && SizeFits(sum, files)
    ensures |Locals(sum, files[..k])| < 0x1_0000_0000 && |files[k].data| < 0x1_0000_0000
  {
    LocalsPrefix(sum, files, k);
    LocalSize(sum, files[k]);
  }

  lemma {:induction false} EntryPlaces(sum: Checksum, files: seq<File>, k: nat, b: seq<Octet>)
    requires k < |files| && b == Archive(sum, files)
    ensures At(b, HeaderAt(sum, files, k), Central(sum, files[k], |Locals(sum, files[..k])|))
    ensures At(b, |Locals(sum, files[..k])|, Local(sum, files[k]))
  {
    var l, c := Locals(sum, files), Centrals(sum, files);
    var e := End(|files|, |c|, |l|);
    CentralPlace(sum, files, k, l, e);
    LocalPlace(sum, files, k, c, e);
  }

  lemma EntryRead(sum: Checksum, b: seq<Octet>, at: nat, next: nat, f: File, offset: nat)
    requires At(b, at, Central(sum, f, offset)) && At(b, offset, Local(sum, f)) && next == at + 46 + |f.name|
    requires |f.name| < 0x1_0000 && |f.data| < 0x1_0000_0000 && offset < 0x1_0000_0000
    ensures Entry(HeadersOf(b), LocalsOf(sum, b), at, next, f)
  {
    ReadsHeader(sum, b, at, f, offset);
    ReadsLocal(sum, b, offset, f);
  }

  lemma {:induction false} ReadsEntry(sum: Checksum, files: seq<File>, k: nat, b: seq<Octet>)
    requires k < |files| && |files[k].name| < 0x1_0000 && SizeFits(sum, files) && b == Archive(sum, files)
    ensures Entry(HeadersOf(b), LocalsOf(sum, b), HeaderAt(sum, files, k), HeaderAt(sum, files, k + 1), files[k])
  {
    OffsetFits(sum, files, k);
    EntryPlaces(sum, files, k, b);
    CentralsStep(sum, files, k);
    EntryRead(sum, b, HeaderAt(sum, files, k), HeaderAt(sum, files, k + 1), files[k], |Locals(sum, files[..k])|);
  }

  lemma {:induction false} EndFound(sum: Checksum, b: seq<Octet>, at: nat)
    requires at + 22 == |b| && IsEnd(b, at)
    ensures ReadArchive(sum, b) == ReadFromEnd(sum, b, at)
  {
  }

  lemma {:induction false} FindsEnd(sum: Checksum, b: seq<Octet>, s: seq<Octet>, count: nat, size: nat, offset: nat)
    requires b == s + End(count, size, offset) && offset + size == |s| < 0x1_0000_0000
    ensures ReadArchive(sum, b) == ReadCentral(HeadersOf(b), LocalsOf(sum, b), offset, count % 0x1_0000)
  {
    AtEnd(b, s, End(count, size, offset));
    EndSize(count, size, offset);
    ReadEndFields(b, |s|, count, size, offset);
    ReadEndSound(b, |s|, count, size, offset);
    EndFound(sum, b, |s|);
  }

  ghost function Places(sum: Checksum, files: seq<File>): seq<nat> {
    seq(|files| + 1, k requires 0 <= k <= |files| => HeaderAt(sum, files, k))
  }

  lemma PlacedEntry(sum: Checksum, files: seq<File>, k: nat)
    requires k < |files| && NamesFit(files) && SizeFits(sum, files)
    ensures EntryOf(HeadersOf(Archive(sum, files)), LocalsOf(sum, Archive(sum, files)), Places(sum, files), files, k)
  {
    assert files[k] in files;
    ReadsEntry(sum, files, k, Archive(sum, files));
  }

  lemma ReadsAll(sum: Checksum, files: seq<File>, b: seq<Octet>)
    requires NamesFit(files) && SizeFits(sum, files) && b == Archive(sum, files)
    ensures ReadCentral(HeadersOf(b), LocalsOf(sum, b), Places(sum, files)[0], |files|) == Some(files)
  {
    forall k | 0 <= k < |files|
      ensures EntryOf(HeadersOf(b), LocalsOf(sum, b), Places(sum, files), files, k)
    {
      PlacedEntry(sum, files, k);
    }
    ReadsFrom(HeadersOf(b), LocalsOf(sum, b), Places(sum, files), files, 0);
  }

  /** Whatever archive it is given, the reader returns no more files than a count field can
      say, and no name longer than a length field can say. */
  lemma {:induction false} ReadWithin(b: seq<Octet>, local: Header -> Option<seq<Octet>>, at: nat, count: nat)
    ensures var r := ReadCentral(HeadersOf(b), local, at, count); r.Some? ==> |r.value| == count && NamesFit(r.value)
    decreases count
  {
    if count > 0 && ReadHeader(b, at).Some? {
      ReadWithin(b, local, ReadHeader(b, at).value.next, count - 1);
      U16Small(b, at + 28);
    }
  }

  lemma U16Small(b: seq<Octet>, i: nat)
    requires i + 2 <= |b|
    ensures U16(b, i) < 0x1_0000
  {
    assert b[i..i + 2] == [b[i], b[i + 1]];
    NumberPair(b[i], b[i + 1]);
  }

  lemma ReadFromEndWithin(sum: Checksum, b: seq<Octet>, end: nat)
    requires end + 22 <= |b|
    ensures var r := ReadFromEnd(sum, b, end); r.Some? ==> |r.value| < 0x1_0000 && NamesFit(r.value)
  {
    U16Small(b, end + 10);
    ReadWithin(b, LocalsOf(sum, b), U32(b, end + 16), U16(b, end + 10));
  }

  lemma ReadArchiveWithin(sum: Checksum, b: seq<Octet>)
    ensures var r := ReadArchive(sum, b); r.Some? ==> |r.value| < 0x1_0000 && NamesFit(r.value)
  {
    if |b| >= 22 && FindEnd(b, |b| - 22).Some? {
      var end := FindEnd(b, |b| - 22).value;
      if end + 22 <= |b| {
        ReadFromEndWithin(sum, b, end);
      }
    }
  }

  /** An archive whose sizes and offsets fit their fields is read back, file for file and in
      order, exactly when every name and the number of files fit theirs. */
  lemma RoundTrip(sum: Checksum, files: seq<File>)
    requires SizeFits(sum, files)
    ensures ReadArchive(sum, Archive(sum, files)) == Some(files) <==> NamesFit(files) && |files| < 0x1_0000
  {
    var b, l, c := Archive(sum, files), Locals(sum, files), Centrals(sum, files);
    ReadArchiveWithin(sum, b);
    if NamesFit(files) && |files| < 0x1_0000 {
      SmallMod(|files|);
      FindsEnd(sum, b, l + c, |files|, |c|, |l|);
      ReadsAll(sum, files, b);
      assert files[..0] == [];
    }
  }
}
