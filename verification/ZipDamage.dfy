/**
 What a reader makes of an archive whose stored data was damaged: a change within four
 consecutive bytes of any file's data makes it refuse the archive.
 */
module ZipDamage {
  import opened Common
  import opened Crc
  import opened Zip

  // ----- The checksum notices -----

  lemma SameByte(x: Octet, y: Octet)
    requires ToByte(x) == ToByte(y)
    ensures x == y
  {
    ToByteIs(x);
    ToByteIs(y);
  }

  lemma BytesDiffer(w: seq<Octet>, x: seq<Octet>)
    requires |w| == |x| && w != x
    ensures ToBytes(w) != ToBytes(x)
  {
    var i :| 0 <= i < |w| && w[i] != x[i];
    if ToBytes(w)[i] == ToBytes(x)[i] {
      SameByte(w[i], x[i]);
    }
  }

  lemma WordsDiffer(x: bv32, y: bv32)
    requires x != y
    ensures x as int != y as int
  {
    assert (x as int) as bv32 == x && (y as int) as bv32 == y;
  }

  lemma ToBytesConcat(s: seq<Octet>, m: seq<Octet>, t: seq<Octet>)
    ensures ToBytes(s + m + t) == ToBytes(s) + ToBytes(m) + ToBytes(t)
  {
  }

  lemma SumsDiffer(before: seq<Octet>, w: seq<Octet>, x: seq<Octet>, rest: seq<Octet>)
    requires |w| == |x| <= 4 && w != x
    ensures CrcOf(before + w + rest) != CrcOf(before + x + rest)
  {
    BytesDiffer(w, x);
    BurstDetected(ToBytes(before), ToBytes(w), ToBytes(x), ToBytes(rest));
    ToBytesConcat(before, w, rest);
    ToBytesConcat(before, x, rest);
    WordsDiffer(Crc32(ToBytes(before + w + rest)), Crc32(ToBytes(before + x + rest)));
  }

  lemma WrongSumRefused(sum: Checksum, b: seq<Octet>, at: nat, name: seq<Octet>, data: seq<Octet>, size: nat, crc: nat)
    requires at + 30 <= |b| && At(b, at + 30 + U16(b, at + 26) + U16(b, at + 28), data) && sum(data) != crc
    requires size == |data|
    ensures ReadLocal(sum, b, at, name, size, crc) == None
  {
  }

  // ----- A patch to the stored data -----

  ghost function Patched(b: seq<Octet>, p: nat, x: seq<Octet>): (r: seq<Octet>)
    requires p + |x| <= |b|
    ensures |r| == |b|
  {
    b[..p] + x + b[p + |x|..]
  }

  lemma {:induction false} PatchKeepsBehind(b: seq<Octet>, p: nat, x: seq<Octet>, i: nat, y: seq<Octet>)
    requires p + |x| <= i && At(b, i, y)
    ensures At(Patched(b, p, x), i, y)
  {
    assert Patched(b, p, x)[i..i + |y|] == b[i..i + |y|];
  }

  lemma {:induction false} PatchInside(b: seq<Octet>, at: nat, head: seq<Octet>, data: seq<Octet>, j: nat, x: seq<Octet>,
                                       p: nat, after: seq<Octet>)
    requires At(b, at, head + data) && j + |x| <= |data| && p == at + |head| + j && p + |x| <= |b|
    requires after == Patched(b, p, x)
    ensures At(after, at, head + Patched(data, j, x))
  {
    var n := |head + data|;
    var inside := b[at..at + n];
    assert inside == head + data;
    assert after[at..at + n] == Patched(inside, |head| + j, x);
    assert Patched(head + data, |head| + j, x) == head + Patched(data, j, x);
  }

  lemma {:induction false} PatchFront(s: seq<Octet>, t: seq<Octet>, p: nat, x: seq<Octet>)
    requires p + |x| <= |s|
    ensures Patched(s + t, p, x) == Patched(s, p, x) + t
  {
    assert (s + t)[p + |x|..] == s[p + |x|..] + t;
  }

  /** The fields of a local header, without the data. */
  ghost function LocalHead(sum: Checksum, f: File): seq<Octet> {
    Flat(LocalFields(sum, f)[..8])
  }

  lemma {:induction false} LocalIs(sum: Checksum, f: File)
    ensures Local(sum, f) == LocalHead(sum, f) + f.data && |LocalHead(sum, f)| == 30 + |f.name|
  {
    var fields := LocalFields(sum, f);
    LocalSums(sum, f);
    OffsetIs(fields, 8);
    assert fields[..|fields| - 1] == fields[..8] && fields[8] == f.data;
  }

  /** The checksum that says `crc` of `data` and the truth of all else. */
  ghost function Claims(sum: Checksum, data: seq<Octet>, crc: Word32): Checksum {
    (d: seq<Octet>) => if d == data then crc else sum(d)
  }

  lemma {:induction false} SameHead(sum: Checksum, f: File, data: seq<Octet>)
    requires |data| == |f.data|
    ensures LocalHead(Claims(sum, data, sum(f.data)), File(f.name, data)) == LocalHead(sum, f)
  {
    var a, b := LocalFields(Claims(sum, data, sum(f.data)), File(f.name, data)), LocalFields(sum, f);
    assert a[..8] == b[..8];
  }

  lemma {:induction false} PatchedIs(sum: Checksum, f: File, data: seq<Octet>)
    requires |data| == |f.data|
    ensures Local(Claims(sum, data, sum(f.data)), File(f.name, data)) == LocalHead(sum, f) + data
  {
    SameHead(sum, f, data);
    LocalIs(Claims(sum, data, sum(f.data)), File(f.name, data));
  }

  /** A local header whose data was patched is that of the patched file, but for the checksum. */
  lemma {:induction false} PatchedLocal(sum: Checksum, b: seq<Octet>, at: nat, f: File, j: nat, x: seq<Octet>,
                                        p: nat, after: seq<Octet>, data: seq<Octet>)
    requires At(b, at, Local(sum, f)) && j + |x| <= |f.data| && p == at + 30 + |f.name| + j && p + |x| <= |b|
    requires after == Patched(b, p, x) && data == Patched(f.data, j, x)
    ensures At(after, at, Local(Claims(sum, data, sum(f.data)), File(f.name, data)))
  {
    LocalIs(sum, f);
    PatchInside(b, at, LocalHead(sum, f), f.data, j, x, p, after);
    PatchedIs(sum, f, data);
  }

  lemma {:induction false} PatchChangesSum(data: seq<Octet>, j: nat, x: seq<Octet>)
    requires j + |x| <= |data| && |x| <= 4 && data[j..j + |x|] != x
    ensures CrcOf(Patched(data, j, x)) != CrcOf(data)
  {
    var before, w, rest := data[..j], data[j..j + |x|], data[j + |x|..];
    SumsDiffer(before, w, x, rest);
    assert before + w + rest == data;
  }

  lemma {:induction false} SamePlace(b: seq<Octet>, i: nat, j: nat, data: seq<Octet>)
    requires At(b, i, data) && i == j
    ensures At(b, j, data)
  {
  }

  lemma {:induction false} DataFound(sum: Checksum, b: seq<Octet>, at: nat, f: File)
    requires At(b, at, Local(sum, f)) && |f.name| < 0x1_0000
    ensures at + 30 <= |b| && At(b, at + 30 + U16(b, at + 26) + U16(b, at + 28), f.data)
  {
    LocalNumbers(sum, b, at, f);
    LocalData(sum, b, at, f);
    SamePlace(b, at + 30 + |f.name|, at + 30 + U16(b, at + 26) + U16(b, at + 28), f.data);
  }

  /** The damaged file is refused where it is stored. */
  lemma {:induction false} DamagedFileRefused(b: seq<Octet>, at: nat, f: File, data: seq<Octet>)
    requires At(b, at, Local(Claims(CrcOf, data, CrcOf(f.data)), File(f.name, data)))
    requires |f.name| < 0x1_0000 && |data| == |f.data| && CrcOf(data) != CrcOf(f.data)
    ensures ReadLocal(CrcOf, b, at, f.name, |f.data|, CrcOf(f.data)) == None
  {
    DataFound(Claims(CrcOf, data, CrcOf(f.data)), b, at, File(f.name, data));
    WrongSumRefused(CrcOf, b, at, f.name, data, |f.data|, CrcOf(f.data));
  }

  lemma {:induction false} PatchedFileRefused(b: seq<Octet>, at: nat, f: File, j: nat, x: seq<Octet>, p: nat, after: seq<Octet>)
    requires At(b, at, Local(CrcOf, f)) && |f.name| < 0x1_0000 && p == at + 30 + |f.name| + j && p + |x| <= |b|
    requires j + |x| <= |f.data| && |x| <= 4 && f.data[j..j + |x|] != x && after == Patched(b, p, x)
    ensures ReadLocal(CrcOf, after, at, f.name, |f.data|, CrcOf(f.data)) == None
  {
    PatchChangesSum(f.data, j, x);
    PatchedLocal(CrcOf, b, at, f, j, x, p, after, Patched(f.data, j, x));
    DamagedFileRefused(after, at, f, Patched(f.data, j, x));
  }

  // ----- The whole archive -----

  ghost predicate HeaderLeads(header: nat -> Option<Header>, places: seq<nat>, n: int)
    requires 0 <= n < |places| - 1
  {
    header(places[n]).Some? && header(places[n]).value.next == places[n + 1]
  }

  /** The header at `at`, if there is one, leads to a file that is refused. */
  ghost predicate RefusedAt(header: nat -> Option<Header>, local: Header -> Option<seq<Octet>>, at: nat) {
    header(at).Some? ==> local(header(at).value).None?
  }

  /** One file that cannot be read makes the reader refuse all. */
  lemma {:induction false} OneRefusedAllRefused(header: nat -> Option<Header>, local: Header -> Option<seq<Octet>>,
                                                places: seq<nat>, k: nat, i: nat, count: nat)
    requires k < |places| - 1 && i <= k && k - i < count
    requires forall n :: 0 <= n <= k ==> HeaderLeads(header, places, n)
    requires RefusedAt(header, local, places[k])
    ensures ReadCentral(header, local, places[i], count).None?
    decreases k - i
  {
    assert HeaderLeads(header, places, i);
    if i < k {
      OneRefusedAllRefused(header, local, places, k, i + 1, count - 1);
    }
  }

  /** What the `n`-th central header says. */
  ghost function HeaderOf(files: seq<File>, n: nat): Header
    requires n < |files|
  {
    Header(files[n].name, |files[n].data|, CrcOf(files[n].data), |Locals(CrcOf, files[..n])|, HeaderAt(CrcOf, files, n + 1))
  }

  lemma {:induction false} CentralKept(files: seq<File>, n: nat, p: nat, x: seq<Octet>, after: seq<Octet>)
    requires n < |files| && p + |x| <= |Locals(CrcOf, files)| && p + |x| <= |Archive(CrcOf, files)|
    requires after == Patched(Archive(CrcOf, files), p, x)
    ensures At(after, HeaderAt(CrcOf, files, n), Central(CrcOf, files[n], |Locals(CrcOf, files[..n])|))
  {
    var b := Archive(CrcOf, files);
    EntryPlaces(CrcOf, files, n, b);
    PatchKeepsBehind(b, p, x, HeaderAt(CrcOf, files, n), Central(CrcOf, files[n], |Locals(CrcOf, files[..n])|));
  }

  lemma {:induction false} HeadersOfIs(b: seq<Octet>, at: nat, h: Header)
    requires ReadHeader(b, at) == Some(h)
    ensures HeadersOf(b)(at) == Some(h)
  {
  }

  lemma {:induction false} ReadsHeaderAs(sum: Checksum, b: seq<Octet>, at: nat, f: File, offset: nat, h: Header)
    requires At(b, at, Central(sum, f, offset)) && h == Header(f.name, |f.data|, sum(f.data), offset, at + 46 + |f.name|)
    requires |f.name| < 0x1_0000 && |f.data| < 0x1_0000_0000 && offset < 0x1_0000_0000
    ensures ReadHeader(b, at) == Some(h)
  {
    ReadsHeader(sum, b, at, f, offset);
  }

  lemma {:induction false} HeaderReadAt(sum: Checksum, b: seq<Octet>, at: nat, f: File, offset: nat, h: Header)
    requires At(b, at, Central(sum, f, offset)) && h == Header(f.name, |f.data|, sum(f.data), offset, at + 46 + |f.name|)
    requires |f.name| < 0x1_0000 && |f.data| < 0x1_0000_0000 && offset < 0x1_0000_0000
    ensures HeadersOf(b)(at) == Some(h)
  {
    ReadsHeaderAs(sum, b, at, f, offset, h);
    HeadersOfIs(b, at, h);
  }

  lemma {:induction false} HeaderKept(files: seq<File>, n: nat, p: nat, x: seq<Octet>, after: seq<Octet>)
    requires n < |files| && NamesFit(files) && SizeFits(CrcOf, files)
    requires p + |x| <= |Locals(CrcOf, files)| && p + |x| <= |Archive(CrcOf, files)|
    requires after == Patched(Archive(CrcOf, files), p, x)
    ensures HeadersOf(after)(HeaderAt(CrcOf, files, n)) == Some(HeaderOf(files, n))
  {
    assert files[n] in files;
    OffsetFits(CrcOf, files, n);
    CentralsStep(CrcOf, files, n);
    CentralKept(files, n, p, x, after);
    HeaderReadAt(CrcOf, after, HeaderAt(CrcOf, files, n), files[n], |Locals(CrcOf, files[..n])|, HeaderOf(files, n));
  }

  /** Where byte `j` of the `k`-th file's data is stored. */
  ghost function DataAt(files: seq<File>, k: nat, j: nat): nat
    requires k < |files|
  {
    |Locals(CrcOf, files[..k])| + 30 + |files[k].name| + j
  }

  lemma {:induction false} DataInLocals(files: seq<File>, k: nat, j: nat)
    requires k < |files| && j <= |files[k].data|
    ensures DataAt(files, k, j) <= |Locals(CrcOf, files)|
  {
    LocalsPrefix(CrcOf, files, k);
    LocalSize(CrcOf, files[k]);
  }

  lemma {:induction false} EndKept(files: seq<File>, p: nat, x: seq<Octet>, after: seq<Octet>)
    requires SizeFits(CrcOf, files) && |files| < 0x1_0000
    requires p + |x| <= |Locals(CrcOf, files)| && p + |x| <= |Archive(CrcOf, files)|
    requires after == Patched(Archive(CrcOf, files), p, x)
    ensures ReadArchive(CrcOf, after) ==
            ReadCentral(HeadersOf(after), LocalsOf(CrcOf, after), |Locals(CrcOf, files)|, |files|)
  {
    var l, c := Locals(CrcOf, files), Centrals(CrcOf, files);
    PatchFront(l + c, End(|files|, |c|, |l|), p, x);
    SmallMod(|files|);
    FindsEnd(CrcOf, after, Patched(l + c, p, x), |files|, |c|, |l|);
  }

  lemma {:induction false} LocalInArchive(files: seq<File>, k: nat)
    requires k < |files|
    ensures At(Archive(CrcOf, files), |Locals(CrcOf, files[..k])|, Local(CrcOf, files[k]))
  {
    EntryPlaces(CrcOf, files, k, Archive(CrcOf, files));
  }

  lemma {:induction false} StoredFileRefused(files: seq<File>, k: nat, j: nat, x: seq<Octet>, after: seq<Octet>, at: nat)
    requires k < |files| && |files[k].name| < 0x1_0000 && at == |Locals(CrcOf, files[..k])|
    requires j + |x| <= |files[k].data| && |x| <= 4 && files[k].data[j..j + |x|] != x
    requires DataAt(files, k, j) + |x| <= |Archive(CrcOf, files)|
    requires after == Patched(Archive(CrcOf, files), DataAt(files, k, j), x)
    ensures ReadLocal(CrcOf, after, at, files[k].name, |files[k].data|, CrcOf(files[k].data)) == None
  {
    LocalInArchive(files, k);
    PatchedFileRefused(Archive(CrcOf, files), at, files[k], j, x, DataAt(files, k, j), after);
  }

  lemma {:induction false} LeadsToRefused(b: seq<Octet>, at: nat, h: Header)
    requires HeadersOf(b)(at) == Some(h) && ReadLocal(CrcOf, b, h.offset, h.name, h.size, h.crc) == None
    ensures RefusedAt(HeadersOf(b), LocalsOf(CrcOf, b), at)
  {
  }

  lemma {:induction false} StoredRefusedAt(files: seq<File>, k: nat, j: nat, x: seq<Octet>, after: seq<Octet>)
    requires NamesFit(files) && SizeFits(CrcOf, files)
    requires k < |files| && j + |x| <= |files[k].data| && |x| <= 4 && files[k].data[j..j + |x|] != x
    requires DataAt(files, k, j) + |x| <= |Locals(CrcOf, files)| && DataAt(files, k, j) + |x| <= |Archive(CrcOf, files)|
    requires after == Patched(Archive(CrcOf, files), DataAt(files, k, j), x)
    ensures RefusedAt(HeadersOf(after), LocalsOf(CrcOf, after), HeaderAt(CrcOf, files, k))
  {
    assert files[k] in files;
    HeaderKept(files, k, DataAt(files, k, j), x, after);
    StoredFileRefused(files, k, j, x, after, |Locals(CrcOf, files[..k])|);
    LeadsToRefused(after, HeaderAt(CrcOf, files, k), HeaderOf(files, k));
  }

  lemma {:induction false} PlaceIs(files: seq<File>, k: nat)
    requires k <= |files|
    ensures Places(CrcOf, files)[k] == HeaderAt(CrcOf, files, k) && Places(CrcOf, files)[0] == |Locals(CrcOf, files)|
  {
    assert files[..0] == [];
  }

  lemma {:induction false} ArchiveHoldsLocals(files: seq<File>)
    ensures |Locals(CrcOf, files)| <= |Archive(CrcOf, files)|
  {
  }

  /** An archive with a change within four consecutive bytes of a file's data, anywhere in it, is
      refused. */
  lemma {:induction false} DamageRefused(files: seq<File>, k: nat, j: nat, x: seq<Octet>)
    requires NamesFit(files) && SizeFits(CrcOf, files) && |files| < 0x1_0000
    requires k < |files| && j + |x| <= |files[k].data| && |x| <= 4 && files[k].data[j..j + |x|] != x
    ensures DataAt(files, k, j) + |x| <= |Archive(CrcOf, files)|
    ensures ReadArchive(CrcOf, Patched(Archive(CrcOf, files), DataAt(files, k, j), x)) == None
  {
    DataInLocals(files, k, j + |x|);
    ArchiveHoldsLocals(files);
    ArchiveRefused(files, k, j, x, Patched(Archive(CrcOf, files), DataAt(files, k, j), x));
  }

  lemma {:induction false} ArchiveRefused(files: seq<File>, k: nat, j: nat, x: seq<Octet>, after: seq<Octet>)
    requires NamesFit(files) && SizeFits(CrcOf, files) && |files| < 0x1_0000
    requires k < |files| && j + |x| <= |files[k].data| && |x| <= 4 && files[k].data[j..j + |x|] != x
    requires DataAt(files, k, j) + |x| <= |Locals(CrcOf, files)| && DataAt(files, k, j) + |x| <= |Archive(CrcOf, files)|
    requires after == Patched(Archive(CrcOf, files), DataAt(files, k, j), x)
    ensures ReadArchive(CrcOf, after) == None
  {
    var p := DataAt(files, k, j);
    EndKept(files, p, x, after);
    StoredRefusedAt(files, k, j, x, after);
    PlacesLead(files, k, p, x, after);
    PlaceIs(files, k);
    OneRefusedAllRefused(HeadersOf(after), LocalsOf(CrcOf, after), Places(CrcOf, files), k, 0, |files|);
  }

  lemma {:induction false} PlacesLead(files: seq<File>, k: nat, p: nat, x: seq<Octet>, after: seq<Octet>)
    requires k < |files| && NamesFit(files) && SizeFits(CrcOf, files)
    requires p + |x| <= |Locals(CrcOf, files)| && p + |x| <= |Archive(CrcOf, files)|
    requires after == Patched(Archive(CrcOf, files), p, x)
    ensures forall n :: 0 <= n <= k ==> HeaderLeads(HeadersOf(after), Places(CrcOf, files), n)
  {
    forall n | 0 <= n <= k
      ensures HeaderLeads(HeadersOf(after), Places(CrcOf, files), n)
    {
      HeaderKept(files, n, p, x, after);
    }
  }
}
