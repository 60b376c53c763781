/** tools/stamp.c: finding the self-digest slot of an ELF file, stamping it, and checking it.

    Offsets, sizes and constants are those of the System V gABI, chapter 4, "ELF Header" and
    "Sections". The digest is any function of the file's bytes. */
module Stamp {
  import opened Text

  type Byte = x: int | 0 <= x < 256
  type U64 = x: int | 0 <= x < TWO_64

  const SLOT_SIZE := 8

  // ---------- byte order ----------

  function LittleEndian(s: seq<Byte>): nat {
    if s == [] then 0 else s[0] + 256 * LittleEndian(s[1..])
  }

  function BigEndian(s: seq<Byte>): nat {
    if s == [] then 0 else BigEndian(s[..|s| - 1]) * 256 + s[|s| - 1]
  }

  function Value(s: seq<Byte>, msb: bool): nat {
    if msb then BigEndian(s) else LittleEndian(s)
  }

  /** The value of the `i` most significant bytes of a field. */
  function MostSignificant(s: seq<Byte>, i: nat, msb: bool): nat
    requires i <= |s|
  {
    if msb then BigEndian(s[..i]) else LittleEndian(s[|s| - i..])
  }

  lemma OneMoreByte(s: seq<Byte>, i: nat, msb: bool)
    requires i < |s|
    ensures MostSignificant(s, i + 1, msb) == MostSignificant(s, i, msb) * 256 + s[if msb then i else |s| - 1 - i]
  {
    if msb {
      assert s[..i + 1][..i] == s[..i];
    } else {
      assert s[|s| - (i + 1)..][1..] == s[|s| - i..];
    }
  }

  /** The low `n` bytes of a number, lowest first. */
  function Bytes(v: nat, n: nat): (s: seq<Byte>)
    ensures |s| == n
  {
    if n == 0 then [] else [v % 256] + Bytes(v / 256, n - 1)
  }

  function Reversed(s: seq<Byte>): (r: seq<Byte>)
    ensures |r| == |s|
    ensures forall i :: 0 <= i < |s| ==> r[i] == s[|s| - 1 - i]
  {
    if s == [] then [] else Reversed(s[1..]) + [s[0]]
  }

  function Encoded(v: nat, msb: bool): (s: seq<Byte>)
    ensures |s| == SLOT_SIZE
  {
    if msb then Reversed(Bytes(v, SLOT_SIZE)) else Bytes(v, SLOT_SIZE)
  }

  function Pow256(n: nat): (p: nat)
    ensures p > 0
  {
    if n == 0 then 1 else 256 * Pow256(n - 1)
  }

  lemma {:induction false} BytesRoundTrip(v: nat, n: nat)
    requires v < Pow256(n)
    ensures LittleEndian(Bytes(v, n)) == v
  {
    if n > 0 {
      BytesRoundTrip(v / 256, n - 1);
      assert Bytes(v, n)[1..] == Bytes(v / 256, n - 1);
    }
  }

  lemma {:induction false} BigEndianReversed(s: seq<Byte>)
    ensures BigEndian(Reversed(s)) == LittleEndian(s)
  {
    if s != [] {
      var r := Reversed(s);
      assert r[..|r| - 1] == Reversed(s[1..]);
      BigEndianReversed(s[1..]);
    }
  }

  lemma EncodedRoundTrip(v: U64, msb: bool)
    ensures Value(Encoded(v, msb), msb) == v
  {
    assert Pow256(8) == TWO_64 by {
      assert Pow256(4) == 0x1_0000_0000;
    }
    BytesRoundTrip(v, 8);
    BigEndianReversed(Bytes(v, 8));
  }

  lemma {:induction false} ZerosEncodeZero(s: seq<Byte>, n: nat)
    requires |s| == n && forall i :: 0 <= i < n ==> s[i] == 0
    ensures Bytes(0, n) == s && Reversed(s) == s
  {
    if n > 0 {
      ZerosEncodeZero(s[1..], n - 1);
    }
  }

  // ---------- the file ----------

  /** The value of an n-byte field, in the file's byte order. */
  function Field(d: seq<Byte>, off: nat, n: nat, msb: bool): nat
    requires off + n <= |d|
  {
    Value(d[off..off + n], msb)
  }

  /** The file with an 8-byte field overwritten. */
  function Written(d: seq<Byte>, off: nat, v: nat, msb: bool): (r: seq<Byte>)
    requires off + SLOT_SIZE <= |d|
    ensures |r| == |d|
  {
    d[..off] + Encoded(v, msb) + d[off + SLOT_SIZE..]
  }

  const NAME: seq<Byte> := [0x2e, 0x68, 0x6d, 0x5f, 0x73, 0x65, 0x6c, 0x66, 0x68, 0x61, 0x73, 0x68, 0] // ".hm_selfhash"
  const MAGIC: seq<Byte> := [0x7f, 0x45, 0x4c, 0x46]
  const EI_NIDENT := 16
  const EI_CLASS := 4
  const EI_DATA := 5
  const ELFCLASS32 := 1
  const ELFCLASS64 := 2
  const ELFDATA2LSB := 1
  const ELFDATA2MSB := 2
  const SHT_PROGBITS := 1

  function EhdrSize(is64: bool): nat { if is64 then 64 else 52 }
  function ShdrSize(is64: bool): nat { if is64 then 64 else 40 }

  /** A field of a header: its offset and its size for each class. */
  datatype Place = Place(off32: nat, size32: nat, off64: nat, size64: nat)

  const E_SHOFF := Place(32, 4, 40, 8)
  const E_SHENTSIZE := Place(46, 2, 58, 2)
  const E_SHNUM := Place(48, 2, 60, 2)
  const E_SHSTRNDX := Place(50, 2, 62, 2)
  const SH_NAME := Place(0, 4, 0, 4)
  const SH_TYPE := Place(4, 4, 4, 4)
  const SH_OFFSET := Place(16, 4, 24, 8)
  const SH_SIZE := Place(20, 4, 32, 8)

  function Off(p: Place, is64: bool): nat { if is64 then p.off64 else p.off32 }
  function Size(p: Place, is64: bool): nat { if is64 then p.size64 else p.size32 }

  /** The field `p` of the header at `base`. */
  function At(d: seq<Byte>, base: nat, p: Place, is64: bool, msb: bool): nat
    requires base + Off(p, is64) + Size(p, is64) <= |d|
  {
    Field(d, base + Off(p, is64), Size(p, is64), msb)
  }

  predicate Identified(d: seq<Byte>) {
    && |d| >= EI_NIDENT && d[..4] == MAGIC
    && (d[EI_CLASS] == ELFCLASS64 || d[EI_CLASS] == ELFCLASS32)
    && (d[EI_DATA] == ELFDATA2MSB || d[EI_DATA] == ELFDATA2LSB)
    && |d| >= EhdrSize(d[EI_CLASS] == ELFCLASS64)
  }

  /** The decoded section table. */
  datatype Table = Table(is64: bool, msb: bool, shoff: nat, shnum: nat, strndx: nat)

  function TableOf(d: seq<Byte>): Table
    requires Identified(d)
  {
    var is64, msb := d[EI_CLASS] == ELFCLASS64, d[EI_DATA] == ELFDATA2MSB;
    Table(is64, msb, At(d, 0, E_SHOFF, is64, msb), At(d, 0, E_SHNUM, is64, msb), At(d, 0, E_SHSTRNDX, is64, msb))
  }

  /** The section table lies in the file and names a string table. */
  predicate Tabled(d: seq<Byte>) {
    && Identified(d)
    && var t := TableOf(d);
    && At(d, 0, E_SHENTSIZE, t.is64, t.msb) == ShdrSize(t.is64)
    && t.shnum > 0 && t.strndx < t.shnum
    && t.shoff + t.shnum * ShdrSize(t.is64) <= |d|
  }

  function Base(t: Table, i: nat): nat {
    t.shoff + i * ShdrSize(t.is64)
  }

  lemma BaseInside(t: Table, i: nat)
    requires i < t.shnum
    ensures Base(t, i) + ShdrSize(t.is64) <= t.shoff + t.shnum * ShdrSize(t.is64)
  {
    if t.is64 {
      assert Base(t, i) == t.shoff + i * 64;
    } else {
      assert Base(t, i) == t.shoff + i * 40;
    }
  }

  /** The field `p` of the i-th section header. */
  function Section(d: seq<Byte>, i: nat, p: Place): nat
    requires Tabled(d) && i < TableOf(d).shnum
    requires p == SH_NAME || p == SH_TYPE || p == SH_OFFSET || p == SH_SIZE
  {
    var t := TableOf(d);
    BaseInside(t, i);
    At(d, Base(t, i), p, t.is64, t.msb)
  }

  lemma SectionIsAt(d: seq<Byte>, i: nat, p: Place, base: nat)
    requires Tabled(d) && i < TableOf(d).shnum && base == Base(TableOf(d), i)
    requires p == SH_NAME || p == SH_TYPE || p == SH_OFFSET || p == SH_SIZE
    ensures var t := TableOf(d);
      base + Off(p, t.is64) + Size(p, t.is64) <= |d| && Section(d, i, p) == At(d, base, p, t.is64, t.msb)
  {
    BaseInside(TableOf(d), i);
  }

  function StrOff(d: seq<Byte>): nat
    requires Tabled(d)
  {
    Section(d, TableOf(d).strndx, SH_OFFSET)
  }

  function StrSize(d: seq<Byte>): nat
    requires Tabled(d)
  {
    Section(d, TableOf(d).strndx, SH_SIZE)
  }

  /** Everything find_slot checks before it looks at the sections. */
  predicate Usable(d: seq<Byte>) {
    Tabled(d) && StrOff(d) + StrSize(d) <= |d|
  }

  /** The i-th section carries the slot's name, NUL included. */
  predicate Named(d: seq<Byte>, i: nat)
    requires Usable(d) && i < TableOf(d).shnum
  {
    var name := Section(d, i, SH_NAME);
    && name + |NAME| <= StrSize(d)
    && d[StrOff(d) + name..StrOff(d) + name + |NAME|] == NAME
  }

  predicate WellFormed(d: seq<Byte>, i: nat)
    requires Usable(d) && i < TableOf(d).shnum
  {
    && Section(d, i, SH_TYPE) == SHT_PROGBITS && Section(d, i, SH_SIZE) == SLOT_SIZE
    && Section(d, i, SH_OFFSET) + SLOT_SIZE <= |d|
  }

  /** Exactly one section has the name, it is well formed, and `slot` is where it lies. */
  ghost predicate Finds(d: seq<Byte>, slot: nat) {
    && Usable(d)
    && exists i: nat :: i < TableOf(d).shnum && SoleSlot(d, i) && Section(d, i, SH_OFFSET) == slot
  }

  /** find_slot succeeds. */
  ghost predicate Accepted(d: seq<Byte>) {
    exists slot: nat :: Finds(d, slot)
  }

  predicate SoleSlot(d: seq<Byte>, i: nat)
    requires Usable(d) && i < TableOf(d).shnum
  {
    && Named(d, i) && WellFormed(d, i)
    && forall j: nat :: j < TableOf(d).shnum && Named(d, j) ==> j == i
  }

  lemma FindsIsUnique(d: seq<Byte>, a: nat, b: nat)
    requires Finds(d, a) && Finds(d, b)
    ensures a == b
  {
  }

  /** On the accepting path every field lies in the file, so with a file size that fits a signed
      64-bit number no sum of offsets wraps around. */
  lemma ReadsAreInBounds(d: seq<Byte>, slot: nat, i: nat)
    requires Finds(d, slot) && |d| < TWO_64 / 2 && i < TableOf(d).shnum
    ensures var t := TableOf(d);
      && Base(t, i) + ShdrSize(t.is64) <= |d| < TWO_64 / 2
      && StrOff(d) + StrSize(d) <= |d| && slot + SLOT_SIZE <= |d|
  {
    BaseInside(TableOf(d), i);
  }

  // ---------- overwriting the slot ----------

  predicate SameOutside(d: seq<Byte>, e: seq<Byte>, slot: nat) {
    && |d| == |e| && slot + SLOT_SIZE <= |d|
    && forall k :: 0 <= k < |d| && !(slot <= k < slot + SLOT_SIZE) ==> d[k] == e[k]
  }

  predicate Apart(slot: nat, off: nat, n: nat) {
    slot + SLOT_SIZE <= off || off + n <= slot
  }

  predicate ApartFrom(slot: nat, base: nat, p: Place, is64: bool) {
    Apart(slot, base + Off(p, is64), Size(p, is64))
  }

  /** The slot overlaps nothing that find_slot reads of the ELF header: magic, class, byte order
      and the fields that describe the section table. */
  predicate HeaderApart(t: Table, slot: nat) {
    && Apart(slot, 0, EI_DATA + 1)
    && ApartFrom(slot, 0, E_SHOFF, t.is64) && ApartFrom(slot, 0, E_SHENTSIZE, t.is64)
    && ApartFrom(slot, 0, E_SHNUM, t.is64) && ApartFrom(slot, 0, E_SHSTRNDX, t.is64)
  }

  predicate NamesApart(d: seq<Byte>, slot: nat)
    requires Usable(d)
  {
    var t := TableOf(d);
    ApartFrom(slot, Base(t, t.strndx), SH_OFFSET, t.is64) && ApartFrom(slot, Base(t, t.strndx), SH_SIZE, t.is64)
  }

  /** ... nor of the i-th section: the offset of its name, the name where it is compared, and
      what else is looked at when it is the slot's. */
  predicate SectionApart(d: seq<Byte>, slot: nat, i: nat)
    requires Usable(d) && i < TableOf(d).shnum
  {
    var t := TableOf(d);
    var name := Section(d, i, SH_NAME);
    && ApartFrom(slot, Base(t, i), SH_NAME, t.is64)
    && (name + |NAME| <= StrSize(d) ==> Apart(slot, StrOff(d) + name, |NAME|))
    && (Named(d, i) ==>
          && ApartFrom(slot, Base(t, i), SH_TYPE, t.is64) && ApartFrom(slot, Base(t, i), SH_OFFSET, t.is64)
          && ApartFrom(slot, Base(t, i), SH_SIZE, t.is64))
  }

  /** The slot overlaps nothing that find_slot bases its result on. */
  ghost predicate Disjoint(d: seq<Byte>, slot: nat)
    requires Usable(d)
  {
    && HeaderApart(TableOf(d), slot) && NamesApart(d, slot)
    && forall i: nat :: i < TableOf(d).shnum ==> SectionApart(d, slot, i)
  }

  lemma SliceOutside(d: seq<Byte>, e: seq<Byte>, slot: nat, off: nat, n: nat)
    requires SameOutside(d, e, slot) && off + n <= |d| && Apart(slot, off, n)
    ensures d[off..off + n] == e[off..off + n]
  {
  }

  lemma FieldOutside(d: seq<Byte>, e: seq<Byte>, slot: nat, off: nat, n: nat, msb: bool)
    requires SameOutside(d, e, slot) && off + n <= |d| && Apart(slot, off, n)
    ensures Field(d, off, n, msb) == Field(e, off, n, msb)
  {
    SliceOutside(d, e, slot, off, n);
  }

  lemma AtOutside(d: seq<Byte>, e: seq<Byte>, slot: nat, base: nat, p: Place, is64: bool, msb: bool)
    requires SameOutside(d, e, slot) && ApartFrom(slot, base, p, is64)
    requires base + Off(p, is64) + Size(p, is64) <= |d|
    ensures At(d, base, p, is64, msb) == At(e, base, p, is64, msb)
  {
    FieldOutside(d, e, slot, base + Off(p, is64), Size(p, is64), msb);
  }

  lemma TableStays(d: seq<Byte>, e: seq<Byte>, slot: nat)
    requires Tabled(d) && HeaderApart(TableOf(d), slot) && SameOutside(d, e, slot)
    ensures Tabled(e) && TableOf(e) == TableOf(d)
  {
    var is64, msb := TableOf(d).is64, TableOf(d).msb;
    assert slot > EI_DATA;
    assert d[..4] == e[..4];
    assert d[EI_CLASS] == e[EI_CLASS] && d[EI_DATA] == e[EI_DATA];
    AtOutside(d, e, slot, 0, E_SHOFF, is64, msb);
    AtOutside(d, e, slot, 0, E_SHENTSIZE, is64, msb);
    AtOutside(d, e, slot, 0, E_SHNUM, is64, msb);
    AtOutside(d, e, slot, 0, E_SHSTRNDX, is64, msb);
  }

  lemma SectionStays(d: seq<Byte>, e: seq<Byte>, slot: nat, i: nat, p: Place)
    requires Tabled(d) && HeaderApart(TableOf(d), slot) && SameOutside(d, e, slot) && i < TableOf(d).shnum
    requires p == SH_NAME || p == SH_TYPE || p == SH_OFFSET || p == SH_SIZE
    requires ApartFrom(slot, Base(TableOf(d), i), p, TableOf(d).is64)
    ensures Tabled(e) && TableOf(e) == TableOf(d) && Section(e, i, p) == Section(d, i, p)
  {
    TableStays(d, e, slot);
    var t := TableOf(d);
    BaseInside(t, i);
    AtOutside(d, e, slot, Base(t, i), p, t.is64, t.msb);
  }

  lemma NamesStay(d: seq<Byte>, e: seq<Byte>, slot: nat)
    requires Usable(d) && HeaderApart(TableOf(d), slot) && NamesApart(d, slot) && SameOutside(d, e, slot)
    ensures Usable(e) && TableOf(e) == TableOf(d) && StrOff(e) == StrOff(d) && StrSize(e) == StrSize(d)
  {
    SectionStays(d, e, slot, TableOf(d).strndx, SH_OFFSET);
    SectionStays(d, e, slot, TableOf(d).strndx, SH_SIZE);
  }

  lemma NamedStays(d: seq<Byte>, e: seq<Byte>, slot: nat, i: nat)
    requires Usable(d) && Disjoint(d, slot) && SameOutside(d, e, slot) && i < TableOf(d).shnum
    ensures Usable(e) && TableOf(e) == TableOf(d)
    ensures Section(e, i, SH_NAME) == Section(d, i, SH_NAME) && Named(e, i) == Named(d, i)
  {
    assert SectionApart(d, slot, i);
    NamesStay(d, e, slot);
    SectionStays(d, e, slot, i, SH_NAME);
    if Section(d, i, SH_NAME) + |NAME| <= StrSize(d) {
      SliceOutside(d, e, slot, StrOff(d) + Section(d, i, SH_NAME), |NAME|);
    }
  }

  lemma SlotSectionStays(d: seq<Byte>, e: seq<Byte>, slot: nat, i: nat)
    requires Usable(d) && Disjoint(d, slot) && SameOutside(d, e, slot) && i < TableOf(d).shnum && Named(d, i)
    ensures Usable(e) && TableOf(e) == TableOf(d)
    ensures WellFormed(e, i) == WellFormed(d, i) && Section(e, i, SH_OFFSET) == Section(d, i, SH_OFFSET)
  {
    assert SectionApart(d, slot, i);
    NamesStay(d, e, slot);
    SectionStays(d, e, slot, i, SH_TYPE);
    SectionStays(d, e, slot, i, SH_OFFSET);
    SectionStays(d, e, slot, i, SH_SIZE);
  }

  lemma DisjointStays(d: seq<Byte>, e: seq<Byte>, slot: nat)
    requires Usable(d) && Disjoint(d, slot) && SameOutside(d, e, slot)
    ensures Usable(e) && Disjoint(e, slot)
  {
    NamesStay(d, e, slot);
    forall i: nat | i < TableOf(d).shnum
      ensures SectionApart(e, slot, i)
    {
      assert SectionApart(d, slot, i);
      NamedStays(d, e, slot, i);
    }
  }

  /** Overwriting a slot that is apart from what find_slot reads does not change what it finds. */
  lemma FindsStays(d: seq<Byte>, e: seq<Byte>, slot: nat)
    requires Finds(d, slot) && Disjoint(d, slot) && SameOutside(d, e, slot)
    ensures Finds(e, slot) && TableOf(e) == TableOf(d) && Disjoint(e, slot)
  {
    var i: nat :| i < TableOf(d).shnum && SoleSlot(d, i) && Section(d, i, SH_OFFSET) == slot;
    NamedStays(d, e, slot, i);
    SlotSectionStays(d, e, slot, i);
    forall j: nat | j < TableOf(e).shnum && Named(e, j)
      ensures j == i
    {
      NamedStays(d, e, slot, j);
    }
    assert SoleSlot(e, i);
    DisjointStays(d, e, slot);
  }

  lemma ByteStep(rest: nat, bytes: seq<Byte>, i: nat)
    requires |bytes| == 8 && i < 8 && Bytes(rest, 8 - i) == bytes[i..]
    ensures bytes[i] == rest % 256 && Bytes(rest / 256, 8 - (i + 1)) == bytes[i + 1..]
  {
    assert bytes[i..][0] == bytes[i] && bytes[i..][1..] == bytes[i + 1..];
  }

  /** The lowest `i` bytes of a field are in place and nothing outside it has changed. */
  ghost predicate Placing(was: seq<Byte>, now: seq<Byte>, slot: nat, msb: bool, bytes: seq<Byte>, i: nat) {
    && SameOutside(was, now, slot) && |bytes| == 8 && i <= 8
    && forall k :: 0 <= k < i ==> now[slot + if msb then 7 - k else k] == bytes[k]
  }

  lemma PlaceOne(was: seq<Byte>, now: seq<Byte>, slot: nat, msb: bool, bytes: seq<Byte>, i: nat)
    requires Placing(was, now, slot, msb, bytes, i) && i < 8
    ensures Placing(was, now[slot + (if msb then 7 - i else i) := bytes[i]], slot, msb, bytes, i + 1)
  {
  }

  /** Bytes placed one by one, lowest first, make the encoded field. */
  lemma {:induction false} Overwritten(d: seq<Byte>, e: seq<Byte>, slot: nat, v: nat, msb: bool)
    requires SameOutside(d, e, slot)
    requires forall k :: 0 <= k < SLOT_SIZE ==> e[slot + if msb then 7 - k else k] == Bytes(v, SLOT_SIZE)[k]
    ensures e == Written(d, slot, v, msb)
  {
    PlacedIsEncoded(e, slot, v, msb);
    assert e[..slot] == d[..slot];
    assert e[slot + SLOT_SIZE..] == d[slot + SLOT_SIZE..];
    ThreeParts(e, slot);
  }

  lemma {:induction false} PlacedIsEncoded(e: seq<Byte>, slot: nat, v: nat, msb: bool)
    requires slot + SLOT_SIZE <= |e|
    requires forall k :: 0 <= k < SLOT_SIZE ==> e[slot + if msb then 7 - k else k] == Bytes(v, SLOT_SIZE)[k]
    ensures e[slot..slot + SLOT_SIZE] == Encoded(v, msb)
  {
    var field := e[slot..slot + SLOT_SIZE];
    forall k | 0 <= k < SLOT_SIZE
      ensures field[k] == Encoded(v, msb)[k]
    {
      var j := if msb then 7 - k else k;
      assert e[slot + if msb then 7 - j else j] == Bytes(v, SLOT_SIZE)[j];
    }
  }

  lemma ThreeParts(d: seq<Byte>, slot: nat)
    requires slot + SLOT_SIZE <= |d|
    ensures d == d[..slot] + d[slot..slot + SLOT_SIZE] + d[slot + SLOT_SIZE..]
  {
  }

  predicate ZeroAt(d: seq<Byte>, slot: nat) {
    slot + SLOT_SIZE <= |d| && forall k :: slot <= k < slot + SLOT_SIZE ==> d[k] == 0
  }

  lemma WrittenThenRead(d: seq<Byte>, slot: nat, v: U64, msb: bool)
    requires slot + SLOT_SIZE <= |d|
    ensures SameOutside(d, Written(d, slot, v, msb), slot)
    ensures Field(Written(d, slot, v, msb), slot, SLOT_SIZE, msb) == v
  {
    var e := Written(d, slot, v, msb);
    assert e[slot..slot + SLOT_SIZE] == Encoded(v, msb);
    EncodedRoundTrip(v, msb);
  }

  lemma WrittenTwice(d: seq<Byte>, slot: nat, v: nat, w: nat, msb: bool)
    requires slot + SLOT_SIZE <= |d|
    ensures Written(Written(d, slot, v, msb), slot, w, msb) == Written(d, slot, w, msb)
  {
    var e := Written(d, slot, v, msb);
    assert e[..slot] == d[..slot];
    assert e[slot + SLOT_SIZE..] == d[slot + SLOT_SIZE..];
  }

  lemma ZeroWritten(d: seq<Byte>, slot: nat, msb: bool)
    requires ZeroAt(d, slot)
    ensures Written(d, slot, 0, msb) == d
  {
    var s := d[slot..slot + SLOT_SIZE];
    ZerosEncodeZero(s, SLOT_SIZE);
    assert Encoded(0, msb) == s;
    assert d[..slot] + s + d[slot + SLOT_SIZE..] == d;
  }

  /** Writing 0 over whatever the slot holds gives back the file whose slot is zero. */
  lemma ZeroedAgain(d: seq<Byte>, slot: nat, v: U64, msb: bool)
    requires ZeroAt(d, slot)
    ensures Written(Written(d, slot, v, msb), slot, 0, msb) == d
  {
    WrittenTwice(d, slot, v, 0, msb);
    ZeroWritten(d, slot, msb);
  }

  /** What `stamp` writes for an accepted file. */
  function Stamped(d: seq<Byte>, slot: nat, digest: seq<Byte> -> U64): seq<Byte>
    requires Identified(d) && slot + SLOT_SIZE <= |d|
  {
    Written(d, slot, digest(d), TableOf(d).msb)
  }

  /** `stamp` accepts a file: its one slot is zero. */
  ghost predicate Stampable(d: seq<Byte>) {
    exists slot: nat :: Finds(d, slot) && ZeroAt(d, slot)
  }

  /** `check` accepts a file: its slot holds the digest of the file with a zero slot. */
  ghost predicate Checks(d: seq<Byte>, digest: seq<Byte> -> U64) {
    exists slot: nat ::
      && Finds(d, slot) && slot + SLOT_SIZE <= |d|
      && Field(d, slot, SLOT_SIZE, TableOf(d).msb) == digest(Written(d, slot, 0, TableOf(d).msb))
  }

  /** The digest of the zeroed file is the only value that checks: any other one is refused. */
  lemma OtherDigestsFail(d: seq<Byte>, slot: nat, v: U64, digest: seq<Byte> -> U64)
    requires Finds(d, slot) && ZeroAt(d, slot) && Disjoint(d, slot)
    ensures Checks(Written(d, slot, v, TableOf(d).msb), digest) <==> v == digest(d)
  {
    var msb := TableOf(d).msb;
    var e := Written(d, slot, v, msb);
    WrittenThenRead(d, slot, v, msb);
    FindsStays(d, e, slot);
    ZeroedAgain(d, slot, v, msb);
    forall other: nat | Finds(e, other)
      ensures other == slot
    {
      FindsIsUnique(e, other, slot);
    }
    assert Finds(e, slot) && slot + SLOT_SIZE <= |e|;
  }

  /** The round trip, for both classes, both byte orders and any digest: a file with a zero slot
      that is disjoint from the headers stamps to a file in which the same slot is found, which
      `check` accepts, and which gives the original back when the slot is zeroed. */
  lemma StampRoundTrip(d: seq<Byte>, slot: nat, digest: seq<Byte> -> U64)
    requires Finds(d, slot) && ZeroAt(d, slot) && Disjoint(d, slot)
    ensures var e := Stamped(d, slot, digest);
      && Finds(e, slot) && TableOf(e) == TableOf(d) && Checks(e, digest)
      && Written(e, slot, 0, TableOf(e).msb) == d
  {
    var msb := TableOf(d).msb;
    WrittenThenRead(d, slot, digest(d), msb);
    FindsStays(d, Stamped(d, slot, digest), slot);
    ZeroedAgain(d, slot, digest(d), msb);
    OtherDigestsFail(d, slot, digest(d), digest);
  }

  lemma {:induction false} ZeroBytes(v: nat, n: nat)
    requires v < Pow256(n) && forall i :: 0 <= i < n ==> Bytes(v, n)[i] == 0
    ensures v == 0
  {
    if n > 0 {
      var rest := Bytes(v / 256, n - 1);
      assert Bytes(v, n)[0] == v % 256;
      forall i | 0 <= i < n - 1
        ensures rest[i] == 0
      {
        assert rest[i] == Bytes(v, n)[i + 1];
      }
      ZeroBytes(v / 256, n - 1);
    }
  }

  lemma ZeroMeansZero(v: U64, msb: bool)
    ensures (forall i :: 0 <= i < SLOT_SIZE ==> Encoded(v, msb)[i] == 0) <==> v == 0
  {
    assert Pow256(8) == TWO_64 by {
      assert Pow256(4) == 0x1_0000_0000;
    }
    var s, e := Bytes(v, SLOT_SIZE), Encoded(v, msb);
    if forall i :: 0 <= i < SLOT_SIZE ==> e[i] == 0 {
      forall i | 0 <= i < SLOT_SIZE
        ensures s[i] == 0
      {
        assert e[i] == 0 && e[SLOT_SIZE - 1 - i] == 0;
      }
      ZeroBytes(v, SLOT_SIZE);
    }
    var zeros: seq<Byte> := [0, 0, 0, 0, 0, 0, 0, 0];
    ZerosEncodeZero(zeros, SLOT_SIZE);
  }

  /** A stamped file is refused by a second stamp, unless its digest happens to be 0. */
  lemma StampedIsRefused(d: seq<Byte>, slot: nat, digest: seq<Byte> -> U64)
    requires Finds(d, slot) && slot + SLOT_SIZE <= |d| && Disjoint(d, slot)
    ensures Stampable(Stamped(d, slot, digest)) <==> digest(d) == 0
  {
    var msb := TableOf(d).msb;
    var e := Stamped(d, slot, digest);
    WrittenThenRead(d, slot, digest(d), msb);
    FindsStays(d, e, slot);
    ZeroSlot(e, slot);
    ZeroMeansZero(digest(d), msb);
    CodeAtSlot(d, slot, digest(d), msb);
  }

  lemma CodeAtSlot(d: seq<Byte>, slot: nat, v: nat, msb: bool)
    requires slot + SLOT_SIZE <= |d|
    ensures ZeroAt(Written(d, slot, v, msb), slot) <==> forall i :: 0 <= i < SLOT_SIZE ==> Encoded(v, msb)[i] == 0
  {
    var e, code := Written(d, slot, v, msb), Encoded(v, msb);
    assert forall i :: 0 <= i < SLOT_SIZE ==> e[slot + i] == code[i];
    if ZeroAt(e, slot) {
      assert forall i :: 0 <= i < SLOT_SIZE ==> code[i] == e[slot + i];
    } else {
      var k :| slot <= k < slot + SLOT_SIZE && e[k] != 0;
      assert code[k - slot] != 0;
    }
  }

  // ---------- two sample files ----------

  /** A 32-bit little-endian file: header, name table at 52, eight unused bytes at 68 and two
      section headers at 76. The slot is said to lie at `slot`. */
  function SampleByte(i: nat, slot: Byte): Byte {
    if i < 4 then MAGIC[i]
    else if i == EI_CLASS then ELFCLASS32
    else if i == EI_DATA then ELFDATA2LSB
    else if i == 32 then 76           // e_shoff
    else if i == 46 then 40           // e_shentsize
    else if i == 48 then 2            // e_shnum
    else if 52 <= i < 65 then NAME[i - 52]
    else if i == 76 then 13           // section 0 is the name table: sh_name past its end
    else if i == 92 then 52           // sh_offset
    else if i == 96 then 13           // sh_size
    else if i == 120 then SHT_PROGBITS
    else if i == 132 then slot        // section 1 is the slot: sh_offset
    else if i == 136 then 8           // sh_size
    else 0
  }

  predicate IsSample(d: seq<Byte>, slot: Byte) {
    |d| == 156 && forall i :: 0 <= i < 156 ==> d[i] == SampleByte(i, slot)
  }

  lemma {:induction false} ZerosAreZero(s: seq<Byte>)
    requires forall i :: 0 <= i < |s| ==> s[i] == 0
    ensures LittleEndian(s) == 0
  {
    if s != [] {
      ZerosAreZero(s[1..]);
    }
  }

  /** A little-endian field whose higher bytes are 0 is its first byte. */
  lemma SmallField(d: seq<Byte>, off: nat, n: nat)
    requires 0 < n && off + n <= |d| && forall i :: off < i < off + n ==> d[i] == 0
    ensures Field(d, off, n, false) == d[off]
  {
    ZerosAreZero(d[off..off + n][1..]);
  }

  lemma SampleTable(d: seq<Byte>, slot: Byte)
    requires IsSample(d, slot)
    ensures Tabled(d) && TableOf(d) == Table(false, false, 76, 2, 0)
  {
    assert d[..4] == MAGIC;
    SmallField(d, 32, 4);
    SmallField(d, 46, 2);
    SmallField(d, 48, 2);
    SmallField(d, 50, 2);
  }

  lemma SampleField(d: seq<Byte>, slot: Byte, i: nat, p: Place)
    requires IsSample(d, slot) && i < 2 && (p == SH_NAME || p == SH_TYPE || p == SH_OFFSET || p == SH_SIZE)
    requires var at := 76 + 40 * i + p.off32; forall k :: at < k < at + 4 ==> SampleByte(k, slot) == 0
    ensures Tabled(d) && TableOf(d).shnum == 2 && Section(d, i, p) == SampleByte(76 + 40 * i + p.off32, slot)
  {
    SampleTable(d, slot);
    SmallField(d, 76 + 40 * i + p.off32, 4);
  }

  lemma SampleNames(d: seq<Byte>, slot: Byte)
    requires IsSample(d, slot)
    ensures Tabled(d) && TableOf(d).strndx == 0
    ensures Section(d, 0, SH_NAME) == 13 && StrOff(d) == 52 && StrSize(d) == 13
  {
    SampleTable(d, slot);
    SampleField(d, slot, 0, SH_NAME);
    SampleField(d, slot, 0, SH_OFFSET);
    SampleField(d, slot, 0, SH_SIZE);
  }

  lemma SampleSlot(d: seq<Byte>, slot: Byte)
    requires IsSample(d, slot)
    ensures Tabled(d) && TableOf(d).shnum == 2
    ensures Section(d, 1, SH_NAME) == 0 && Section(d, 1, SH_TYPE) == SHT_PROGBITS
    ensures Section(d, 1, SH_OFFSET) == slot && Section(d, 1, SH_SIZE) == SLOT_SIZE
  {
    SampleField(d, slot, 1, SH_NAME);
    SampleField(d, slot, 1, SH_TYPE);
    SampleField(d, slot, 1, SH_OFFSET);
    SampleField(d, slot, 1, SH_SIZE);
  }

  lemma SampleIsNamed(d: seq<Byte>, slot: Byte)
    requires IsSample(d, slot) && slot <= 148
    ensures Usable(d) && TableOf(d).shnum == 2
    ensures !Named(d, 0) && Named(d, 1) && WellFormed(d, 1)
  {
    SampleNames(d, slot);
    SampleSlot(d, slot);
    assert d[52..52 + |NAME|] == NAME;
  }

  lemma SampleIsFound(d: seq<Byte>, slot: Byte)
    requires IsSample(d, slot) && slot <= 148
    ensures Finds(d, slot)
  {
    SampleIsNamed(d, slot);
    SampleSlot(d, slot);
    assert SoleSlot(d, 1);
  }

  lemma SampleCanBeStamped(d: seq<Byte>)
    requires IsSample(d, 68)
    ensures Finds(d, 68) && ZeroAt(d, 68) && Disjoint(d, 68)
  {
    SampleIsFound(d, 68);
    SampleNames(d, 68);
    SampleTable(d, 68);
  }

  /** There are files as StampRoundTrip wants them. */
  lemma SomeFileCanBeStamped()
    ensures exists d, slot: nat :: Finds(d, slot) && ZeroAt(d, slot) && Disjoint(d, slot)
  {
    var d: seq<Byte> := seq(156, i requires 0 <= i => SampleByte(i, 68));
    SampleCanBeStamped(d);
  }

  /** The sample with its slot over the upper bytes of e_shoff, which are zero: the number 1
      written there moves the section table beyond the end of the file. */
  lemma SampleLosesItsTable(d: seq<Byte>)
    requires IsSample(d, 33)
    ensures !Tabled(Written(d, 33, 1, false))
  {
    var e := Written(d, 33, 1, false);
    var code := Bytes(1, 8);
    assert code[0] == 1 && code[1..] == Bytes(0, 7);
    assert e[32] == d[32] == 76 && e[33] == code[0] && e[EI_CLASS] == d[EI_CLASS] && e[EI_DATA] == d[EI_DATA];
    var field := e[32..36];
    assert field[0] == 76 && field[1..][0] == 1;
    assert LittleEndian(field) == 76 + 256 * (1 + 256 * LittleEndian(field[1..][1..]));
  }

  /** Apartness from the headers is needed: stamp accepts a zero slot that overlaps the ELF
      header, and check then refuses what it wrote. */
  lemma OverlapBreaksCheck() returns (d: seq<Byte>, digest: seq<Byte> -> U64)
    ensures Finds(d, 33) && ZeroAt(d, 33) && !Checks(Stamped(d, 33, digest), digest)
  {
    d := seq(156, i requires 0 <= i => SampleByte(i, 33));
    digest := bytes => 1;
    SampleIsFound(d, 33);
    SampleTable(d, 33);
    SampleLosesItsTable(d);
  }

  // ---------- the program ----------

  /** elf_file: the loaded bytes and what find_slot learned about how to decode them. */
  class ElfFile {
    var data: array<Byte>
    var is64: bool
    var msb: bool

    constructor (data: array<Byte>)
      ensures this.data == data
    {
      this.data, is64, msb := data, false, false;
    }

    /** rd */
    method Read(off: nat, n: nat) returns (v: nat)
      requires off + n <= data.Length
      ensures v == Field(data[..], off, n, msb)
    {
      v := 0;
      ghost var s := data[..][off..off + n];
      var i := 0;
      while i < n
        invariant 0 <= i <= n && v == MostSignificant(s, i, msb)
      {
        var b := if msb then i else n - 1 - i;
        OneMoreByte(s, i, msb);
        assert s[b] == data[off + b];
        v := v * 256 + data[off + b];
        i := i + 1;
      }
      assert s[..n] == s && s[0..] == s;
    }

    /** wr64 */
    method Write64(off: nat, v: U64)
      requires off + SLOT_SIZE <= data.Length
      modifies data
      ensures data[..] == Written(old(data[..]), off, v, msb)
    {
      ghost var was := data[..];
      ghost var bytes := Bytes(v, SLOT_SIZE);
      var rest: nat := v;
      var i := 0;
      assert bytes[0..] == bytes;
      while i < 8
        invariant 0 <= i <= 8 && Bytes(rest, 8 - i) == bytes[i..]
        invariant Placing(was, data[..], off, msb, bytes, i)
      {
        var b := if msb then 7 - i else i;
        ByteStep(rest, bytes, i);
        ghost var now := data[..];
        data[off + b] := rest % 256;
        assert data[..] == now[off + b := bytes[i]];
        PlaceOne(was, now, off, msb, bytes, i);
        rest := rest / 256;
        i := i + 1;
      }
      Overwritten(was, data[..], off, v, msb);
    }

    /** find_slot's first two checks: decides class and byte order. */
    method Identify() returns (ok: bool)
      modifies this`is64, this`msb
      ensures ok <==> Identified(data[..])
      ensures ok ==> is64 == TableOf(data[..]).is64 && msb == TableOf(data[..]).msb
    {
      if data.Length < EI_NIDENT || data[..4] != MAGIC {
        return false;
      }
      is64 := data[EI_CLASS] == ELFCLASS64;
      msb := data[EI_DATA] == ELFDATA2MSB;
      ok := (is64 || data[EI_CLASS] == ELFCLASS32) && (msb || data[EI_DATA] == ELFDATA2LSB)
            && data.Length >= EhdrSize(is64);
    }

    /** find_slot's checks on the section table. */
    method FindTable() returns (ok: bool, shoff: nat, shnum: nat, shstrndx: nat)
      requires Identified(data[..]) && is64 == TableOf(data[..]).is64 && msb == TableOf(data[..]).msb
      ensures ok <==> Tabled(data[..])
      ensures TableOf(data[..]) == Table(is64, msb, shoff, shnum, shstrndx)
    {
      shoff := Header(0, E_SHOFF);
      var shentsize := Header(0, E_SHENTSIZE);
      shnum := Header(0, E_SHNUM);
      shstrndx := Header(0, E_SHSTRNDX);
      TableGuard(data.Length, shoff, shnum, is64);
      ok := !(shentsize != ShdrSize(is64) || shnum == 0 || shstrndx >= shnum || shoff > data.Length
              || shnum > (data.Length - shoff) / shentsize);
    }

    /** find_slot's checks on the name table. */
    method FindNames(shoff: nat, shstrndx: nat) returns (ok: bool, strOff: nat, strSize: nat)
      requires Tabled(data[..]) && is64 == TableOf(data[..]).is64 && msb == TableOf(data[..]).msb
      requires shoff == TableOf(data[..]).shoff && shstrndx == TableOf(data[..]).strndx
      ensures strOff == StrOff(data[..]) && strSize == StrSize(data[..])
      ensures ok <==> Usable(data[..])
    {
      var base := shoff + shstrndx * ShdrSize(is64);
      BaseInside(TableOf(data[..]), shstrndx);
      strOff := Header(base, SH_OFFSET);
      strSize := Header(base, SH_SIZE);
      ok := !(strOff > data.Length || strSize > data.Length - strOff);
    }

    /** The EHDR and SHDR macros. */
    method Header(base: nat, p: Place) returns (v: nat)
      requires base + Off(p, is64) + Size(p, is64) <= data.Length
      ensures v == At(data[..], base, p, is64, msb)
    {
      v := Read(base + Off(p, is64), Size(p, is64));
    }

    /** A field of the i-th section header. */
    method SectionField(i: nat, p: Place, shoff: nat) returns (v: nat)
      requires Tabled(data[..]) && is64 == TableOf(data[..]).is64 && msb == TableOf(data[..]).msb
      requires shoff == TableOf(data[..]).shoff && i < TableOf(data[..]).shnum
      requires p == SH_NAME || p == SH_TYPE || p == SH_OFFSET || p == SH_SIZE
      ensures v == Section(data[..], i, p)
    {
      var base := shoff + i * ShdrSize(is64);
      SectionIsAt(data[..], i, p, base);
      v := Header(base, p);
    }

    /** Compares a section's name, NUL included, within the name table. */
    method HasName(i: nat, strOff: nat, strSize: nat, shoff: nat) returns (named: bool)
      requires Usable(data[..]) && is64 == TableOf(data[..]).is64 && msb == TableOf(data[..]).msb
      requires strOff == StrOff(data[..]) && strSize == StrSize(data[..])
      requires shoff == TableOf(data[..]).shoff && i < TableOf(data[..]).shnum
      ensures named == Named(data[..], i)
    {
      var name := SectionField(i, SH_NAME, shoff);
      if name >= strSize || strSize - name < |NAME| {
        return false;
      }
      var at := strOff + name;
      assert data[at..at + |NAME|] == data[..][at..at + |NAME|];
      named := data[at..at + |NAME|] == NAME;
    }

    method IsWellFormed(i: nat, shoff: nat) returns (sound: bool, off: nat)
      requires Usable(data[..]) && is64 == TableOf(data[..]).is64 && msb == TableOf(data[..]).msb
      requires shoff == TableOf(data[..]).shoff && i < TableOf(data[..]).shnum
      ensures sound == WellFormed(data[..], i) && off == Section(data[..], i, SH_OFFSET)
    {
      off := SectionField(i, SH_OFFSET, shoff);
      var size := SectionField(i, SH_SIZE, shoff);
      var kind := SectionField(i, SH_TYPE, shoff);
      sound := !(kind != SHT_PROGBITS || size != SLOT_SIZE || off > data.Length || data.Length - off < SLOT_SIZE);
    }

    /** The section loop of find_slot, with its running count. */
    method FindSection(shoff: nat, shnum: nat, strOff: nat, strSize: nat) returns (ok: bool, slot: nat)
      requires Usable(data[..]) && is64 == TableOf(data[..]).is64 && msb == TableOf(data[..]).msb
      requires strOff == StrOff(data[..]) && strSize == StrSize(data[..])
      requires shoff == TableOf(data[..]).shoff && shnum == TableOf(data[..]).shnum
      ensures ok <==> exists i: nat :: i < shnum && SoleSlot(data[..], i)
      ensures ok ==> Finds(data[..], slot)
    {
      ghost var marks: seq<bool> := [];
      slot := 0;
      var found := 0;
      var i := 0;
      while i < shnum
        invariant 0 <= i <= shnum && Scanned(data[..], marks, i, found, slot)
      {
        ok, found, slot := ScanSection(i, strOff, strSize, shoff, found, slot, marks);
        if !ok {
          return;
        }
        marks := marks + [Named(data[..], i)];
        i := i + 1;
      }
      ok := found == 1;
      SoleMark(data[..], marks, slot);
    }

    /** One turn of the loop; `ok` is false for a section of this name that is malformed. */
    method ScanSection(i: nat, strOff: nat, strSize: nat, shoff: nat, found: nat, slot: nat, ghost marks: seq<bool>)
      returns (ok: bool, found': nat, slot': nat)
      requires Usable(data[..]) && is64 == TableOf(data[..]).is64 && msb == TableOf(data[..]).msb
      requires strOff == StrOff(data[..]) && strSize == StrSize(data[..])
      requires shoff == TableOf(data[..]).shoff && i < TableOf(data[..]).shnum
      requires Scanned(data[..], marks, i, found, slot)
      ensures ok ==> Scanned(data[..], marks + [Named(data[..], i)], i + 1, found', slot')
      ensures !ok ==> forall j: nat :: j < TableOf(data[..]).shnum ==> !SoleSlot(data[..], j)
    {
      var hit := HasName(i, strOff, strSize, shoff);
      var sound, off := IsWellFormed(i, shoff);
      ok, found', slot' := true, found, slot;
      if hit {
        if !sound {
          Malformed(data[..], i);
          ok := false;
        } else {
          NamedStep(data[..], marks, i, found, slot);
        }
        found', slot' := found + 1, off;
      } else {
        UnnamedStep(data[..], marks, i, found, slot);
      }
    }

    /** find_slot */
    method FindSlot() returns (ok: bool, slot: nat)
      modifies this`is64, this`msb
      ensures ok <==> Accepted(data[..])
      ensures ok ==> Finds(data[..], slot) && msb == TableOf(data[..]).msb
    {
      slot := 0;
      ok := Identify();
      if ok {
        var shoff, shnum, shstrndx, strOff, strSize;
        ok, shoff, shnum, shstrndx := FindTable();
        if ok {
          ok, strOff, strSize := FindNames(shoff, shstrndx);
          if ok {
            ok, slot := FindSection(shoff, shnum, strOff, strSize);
            if !ok {
              NotFound(data[..]);
            }
          }
        }
      }
    }

    /** stamp, between loading and saving: refuses a slot that is not zero. */
    method Stamp(digest: seq<Byte> -> U64) returns (ok: bool, slot: nat)
      modifies this`is64, this`msb, data
      ensures ok <==> Stampable(old(data[..]))
      ensures ok ==> Finds(old(data[..]), slot) && data[..] == Stamped(old(data[..]), slot, digest)
      ensures !ok ==> data[..] == old(data[..])
    {
      ghost var d := data[..];
      ok, slot := FindSlot();
      if ok {
        ok := StampAt(slot, digest);
      } else {
        NothingFound(d, digest);
      }
    }

    method StampAt(slot: nat, digest: seq<Byte> -> U64) returns (ok: bool)
      requires Finds(data[..], slot) && msb == TableOf(data[..]).msb
      modifies data
      ensures ok <==> Stampable(old(data[..]))
      ensures data[..] == if ok then Stamped(old(data[..]), slot, digest) else old(data[..])
    {
      ghost var d := data[..];
      SlotInside(d, slot);
      ZeroSlot(d, slot);
      ok := IsZero(slot);
      if ok {
        Write64(slot, digest(data[..]));
      }
    }

    method IsZero(slot: nat) returns (zero: bool)
      requires slot + SLOT_SIZE <= data.Length
      ensures zero == ZeroAt(data[..], slot)
    {
      var i := 0;
      while i < SLOT_SIZE
        invariant 0 <= i <= SLOT_SIZE
        invariant forall k :: slot <= k < slot + i ==> data[k] == 0
      {
        if data[slot + i] != 0 {
          assert data[..][slot + i] != 0;
          return false;
        }
        i := i + 1;
      }
      zero := true;
    }

    /** check, after loading. */
    method Check(digest: seq<Byte> -> U64) returns (ok: bool)
      modifies this`is64, this`msb, data
      ensures ok <==> Checks(old(data[..]), digest)
    {
      ghost var d := data[..];
      var slot;
      ok, slot := FindSlot();
      if ok {
        ok := CheckAt(slot, digest);
      } else {
        NothingFound(d, digest);
      }
    }

    method CheckAt(slot: nat, digest: seq<Byte> -> U64) returns (ok: bool)
      requires Finds(data[..], slot) && msb == TableOf(data[..]).msb
      modifies data
      ensures ok <==> Checks(old(data[..]), digest)
    {
      ghost var d := data[..];
      SlotInside(d, slot);
      CheckedSlot(d, slot, digest);
      var stored := Read(slot, SLOT_SIZE);
      Write64(slot, 0);
      var actual := digest(data[..]);
      ok := stored == actual;
    }
  }

  // The section loop in terms of which sections carry the name.

  ghost predicate Marked(d: seq<Byte>, marks: seq<bool>, n: nat) {
    && Usable(d) && n == |marks| && n <= TableOf(d).shnum
    && forall j: nat :: j < n ==> (marks[j] <==> Named(d, j)) && (marks[j] ==> WellFormed(d, j))
  }

  function Trues(marks: seq<bool>): nat {
    if marks == [] then 0 else Trues(marks[..|marks| - 1]) + if marks[|marks| - 1] then 1 else 0
  }

  function LastMark(marks: seq<bool>): nat {
    if marks == [] then 0
    else if marks[|marks| - 1] then |marks| - 1
    else LastMark(marks[..|marks| - 1])
  }

  /** The state of the loop before section `i`. */
  ghost predicate Scanned(d: seq<Byte>, marks: seq<bool>, i: nat, found: nat, slot: nat) {
    && Marked(d, marks, i) && found == Trues(marks)
    && (found > 0 ==> LastMark(marks) < i && slot == Section(d, LastMark(marks), SH_OFFSET))
  }

  /** One more mark. */
  lemma {:induction false} MarkAppend(marks: seq<bool>, named: bool)
    ensures Trues(marks + [named]) == Trues(marks) + if named then 1 else 0
    ensures LastMark(marks + [named]) == if named then |marks| else LastMark(marks)
  {
    var more := marks + [named];
    assert more[..|more| - 1] == marks;
  }

  lemma MarkedStep(d: seq<Byte>, marks: seq<bool>, i: nat, named: bool)
    requires Marked(d, marks, i) && i < TableOf(d).shnum && named == Named(d, i) && (named ==> WellFormed(d, i))
    ensures Marked(d, marks + [named], i + 1)
  {
    var more := marks + [named];
    forall j: nat | j < i + 1
      ensures (more[j] <==> Named(d, j)) && (more[j] ==> WellFormed(d, j))
    {
      if j < i {
        assert more[j] == marks[j];
      } else {
        assert more[j] == named;
      }
    }
  }

  lemma NamedStep(d: seq<Byte>, marks: seq<bool>, i: nat, found: nat, slot: nat)
    requires Scanned(d, marks, i, found, slot) && i < TableOf(d).shnum && Named(d, i) && WellFormed(d, i)
    ensures Scanned(d, marks + [true], i + 1, found + 1, Section(d, i, SH_OFFSET))
  {
    MarkedStep(d, marks, i, true);
    MarkAppend(marks, true);
  }

  lemma UnnamedStep(d: seq<Byte>, marks: seq<bool>, i: nat, found: nat, slot: nat)
    requires Scanned(d, marks, i, found, slot) && i < TableOf(d).shnum && !Named(d, i)
    ensures Scanned(d, marks + [false], i + 1, found, slot)
  {
    MarkedStep(d, marks, i, false);
    MarkAppend(marks, false);
  }

  lemma {:induction false} NoMarks(marks: seq<bool>)
    ensures Trues(marks) == 0 <==> forall j :: 0 <= j < |marks| ==> !marks[j]
  {
    if marks != [] {
      var n := |marks| - 1;
      NoMarks(marks[..n]);
      assert forall j :: 0 <= j < n ==> marks[..n][j] == marks[j];
    }
  }

  lemma {:induction false} OneMark(marks: seq<bool>)
    requires Trues(marks) == 1
    ensures LastMark(marks) < |marks| && marks[LastMark(marks)]
    ensures forall j :: 0 <= j < |marks| && marks[j] ==> j == LastMark(marks)
  {
    var n := |marks| - 1;
    assert forall j :: 0 <= j < n ==> marks[..n][j] == marks[j];
    if marks[n] {
      NoMarks(marks[..n]);
    } else {
      OneMark(marks[..n]);
    }
  }

  lemma {:induction false} LoneMarkCounts(marks: seq<bool>, i: nat)
    requires i < |marks| && marks[i] && forall j :: 0 <= j < |marks| && marks[j] ==> j == i
    ensures Trues(marks) == 1
  {
    var n := |marks| - 1;
    assert forall j :: 0 <= j < n ==> marks[..n][j] == marks[j];
    if i == n {
      NoMarks(marks[..n]);
    } else {
      LoneMarkCounts(marks[..n], i);
    }
  }

  /** A count of one means exactly one section of the name. */
  lemma {:induction false} SoleMark(d: seq<Byte>, marks: seq<bool>, slot: nat)
    requires Usable(d) && Scanned(d, marks, TableOf(d).shnum, Trues(marks), slot)
    ensures Trues(marks) == 1 <==> exists i: nat :: i < TableOf(d).shnum && SoleSlot(d, i)
    ensures Trues(marks) == 1 ==> Finds(d, slot)
  {
    if Trues(marks) == 1 {
      OneMark(marks);
      assert SoleSlot(d, LastMark(marks));
    } else if i: nat :| i < TableOf(d).shnum && SoleSlot(d, i) {
      SoleIsLone(d, marks, i);
      LoneMarkCounts(marks, i);
    }
  }

  lemma SoleIsLone(d: seq<Byte>, marks: seq<bool>, i: nat)
    requires Usable(d) && Marked(d, marks, TableOf(d).shnum) && i < TableOf(d).shnum && SoleSlot(d, i)
    ensures marks[i] && forall j :: 0 <= j < |marks| && marks[j] ==> j == i
  {
  }

  lemma Malformed(d: seq<Byte>, i: nat)
    requires Usable(d) && i < TableOf(d).shnum && Named(d, i) && !WellFormed(d, i)
    ensures forall j: nat :: j < TableOf(d).shnum ==> !SoleSlot(d, j)
  {
  }

  lemma ZeroSlot(d: seq<Byte>, slot: nat)
    requires Finds(d, slot)
    ensures ZeroAt(d, slot) <==> Stampable(d)
  {
    if s: nat :| Finds(d, s) && ZeroAt(d, s) {
      FindsIsUnique(d, s, slot);
    }
  }

  lemma CheckedSlot(d: seq<Byte>, slot: nat, digest: seq<Byte> -> U64)
    requires Finds(d, slot) && slot + SLOT_SIZE <= |d|
    ensures Checks(d, digest) <==>
      Field(d, slot, SLOT_SIZE, TableOf(d).msb) == digest(Written(d, slot, 0, TableOf(d).msb))
  {
    forall s: nat | Finds(d, s)
      ensures s == slot
    {
      FindsIsUnique(d, s, slot);
    }
  }

  lemma NothingFound(d: seq<Byte>, digest: seq<Byte> -> U64)
    requires !Accepted(d)
    ensures !Stampable(d) && !Checks(d, digest)
  {
  }

  lemma SlotInside(d: seq<Byte>, slot: nat)
    requires Finds(d, slot)
    ensures slot + SLOT_SIZE <= |d|
  {
  }

  lemma NotFound(d: seq<Byte>)
    requires Usable(d) && !exists i: nat :: i < TableOf(d).shnum && SoleSlot(d, i)
    ensures !Accepted(d)
  {
  }

  /** The division that guards the section table keeps it inside the file. */
  lemma TableGuard(len: nat, shoff: nat, shnum: nat, is64: bool)
    ensures (shoff <= len && shnum <= (len - shoff) / ShdrSize(is64)) <==> shoff + shnum * ShdrSize(is64) <= len
  {
    if is64 {
      assert ShdrSize(is64) == 64;
    } else {
      assert ShdrSize(is64) == 40;
    }
  }
}
