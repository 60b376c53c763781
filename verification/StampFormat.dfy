/** Which files tools/stamp.c accepts, and where it finds the slot, written out in the numbers of
    the System V gABI for both classes and both byte orders. */
module StampFormat {
  import opened Text
  import opened Stamp

  /** A field, or 0 past the end of the file. */
  function FieldAt(d: seq<Byte>, off: nat, n: nat, msb: bool): nat {
    if off + n <= |d| then Field(d, off, n, msb) else 0
  }

  /** The ELF header of the System V gABI, chapter 4, "ELF Header" and "ELF Identification". */
  predicate BookHeader(d: seq<Byte>, is64: bool, msb: bool) {
    && |d| >= (if is64 then 64 else 52) && d[..4] == [127, 69, 76, 70] // DEL E L F
    && d[4] == (if is64 then 2 else 1) && d[5] == (if msb then 2 else 1)
  }

  /** Its section header table, chapter 4, "Sections". */
  predicate BookTable(d: seq<Byte>, is64: bool, msb: bool) {
    var shoff := if is64 then FieldAt(d, 40, 8, msb) else FieldAt(d, 32, 4, msb);
    var shnum := FieldAt(d, if is64 then 60 else 48, 2, msb);
    && FieldAt(d, if is64 then 58 else 46, 2, msb) == (if is64 then 64 else 40)
    && 0 < shnum && shoff + shnum * (if is64 then 64 else 40) <= |d|
    && FieldAt(d, if is64 then 62 else 50, 2, msb) < shnum
  }

  datatype Header = Header(name: nat, kind: nat, offset: nat, size: nat)

  function BookSection(d: seq<Byte>, is64: bool, msb: bool, i: nat): Header {
    if is64 then
      var base := FieldAt(d, 40, 8, msb) + i * 64;
      Header(FieldAt(d, base, 4, msb), FieldAt(d, base + 4, 4, msb), FieldAt(d, base + 24, 8, msb), FieldAt(d, base + 32, 8, msb))
    else
      var base := FieldAt(d, 32, 4, msb) + i * 40;
      Header(FieldAt(d, base, 4, msb), FieldAt(d, base + 4, 4, msb), FieldAt(d, base + 16, 4, msb), FieldAt(d, base + 20, 4, msb))
  }

  /** In a string table, ".hm_selfhash" and its NUL begin at index `name`. */
  predicate NamedAt(d: seq<Byte>, offset: nat, size: nat, name: nat) {
    && name + 13 <= size && offset + size <= |d|
    && d[offset + name..offset + name + 13] == [46, 104, 109, 95, 115, 101, 108, 102, 104, 97, 115, 104, 0]
  }

  /** Section `i` has this name in the section name string table. */
  predicate BookNamed(d: seq<Byte>, is64: bool, msb: bool, i: nat) {
    var names := BookSection(d, is64, msb, FieldAt(d, if is64 then 62 else 50, 2, msb));
    NamedAt(d, names.offset, names.size, BookSection(d, is64, msb, i).name)
  }

  /** Section `i` is the one of this name, and its eight bytes are the slot. */
  ghost predicate BookSlot(d: seq<Byte>, is64: bool, msb: bool, i: nat, slot: nat) {
    var shnum := FieldAt(d, if is64 then 60 else 48, 2, msb);
    var header := BookSection(d, is64, msb, i);
    && i < shnum && BookNamed(d, is64, msb, i)
    && header.kind == 1 && header.offset == slot && header.size == 8 && slot + 8 <= |d|
    && (forall j: nat :: j < shnum && BookNamed(d, is64, msb, j) ==> j == i)
  }

  ghost predicate BookFinds(d: seq<Byte>, is64: bool, msb: bool, slot: nat) {
    && BookHeader(d, is64, msb) && BookTable(d, is64, msb) && BookNames(d, is64, msb)
    && exists i: nat :: BookSlot(d, is64, msb, i, slot)
  }

  predicate BookNames(d: seq<Byte>, is64: bool, msb: bool) {
    var names := BookSection(d, is64, msb, FieldAt(d, if is64 then 62 else 50, 2, msb));
    names.offset + names.size <= |d|
  }

  lemma TableByTheBook(d: seq<Byte>, is64: bool, msb: bool)
    ensures BookHeader(d, is64, msb) <==> Identified(d) && TableOf(d).is64 == is64 && TableOf(d).msb == msb
    ensures BookHeader(d, is64, msb) ==> (BookTable(d, is64, msb) <==> Tabled(d))
  {
  }

  lemma SectionByTheBook(d: seq<Byte>, i: nat)
    requires Tabled(d) && i < TableOf(d).shnum
    ensures BookSection(d, TableOf(d).is64, TableOf(d).msb, i)
      == Header(Section(d, i, SH_NAME), Section(d, i, SH_TYPE), Section(d, i, SH_OFFSET), Section(d, i, SH_SIZE))
  {
    BaseInside(TableOf(d), i);
  }

  lemma NamesByTheBook(d: seq<Byte>)
    requires Tabled(d)
    ensures BookNames(d, TableOf(d).is64, TableOf(d).msb) <==> Usable(d)
  {
    SectionByTheBook(d, TableOf(d).strndx);
  }

  lemma NamedByTheBook(d: seq<Byte>, i: nat)
    requires Usable(d) && i < TableOf(d).shnum
    ensures BookNamed(d, TableOf(d).is64, TableOf(d).msb, i) <==> Named(d, i)
  {
    SectionByTheBook(d, i);
    SectionByTheBook(d, TableOf(d).strndx);
    NamedInNames(d, i);
  }

  lemma NamedInNames(d: seq<Byte>, i: nat)
    requires Usable(d) && i < TableOf(d).shnum
    ensures Named(d, i) <==> NamedAt(d, StrOff(d), StrSize(d), Section(d, i, SH_NAME))
  {
    assert |NAME| == 13;
  }

  lemma SlotByTheBook(d: seq<Byte>, i: nat, slot: nat)
    requires Usable(d)
    ensures BookSlot(d, TableOf(d).is64, TableOf(d).msb, i, slot) <==>
      i < TableOf(d).shnum && SoleSlot(d, i) && Section(d, i, SH_OFFSET) == slot
  {
    if i < TableOf(d).shnum {
      SectionByTheBook(d, i);
      forall j: nat | j < TableOf(d).shnum
        ensures BookNamed(d, TableOf(d).is64, TableOf(d).msb, j) <==> Named(d, j)
      {
        NamedByTheBook(d, j);
      }
    }
  }

  lemma UsableByTheBook(d: seq<Byte>, slot: nat)
    requires Usable(d)
    ensures BookFinds(d, TableOf(d).is64, TableOf(d).msb, slot) <==> Finds(d, slot)
  {
    TableByTheBook(d, TableOf(d).is64, TableOf(d).msb);
    NamesByTheBook(d);
    forall i: nat
      ensures BookSlot(d, TableOf(d).is64, TableOf(d).msb, i, slot) <==>
        i < TableOf(d).shnum && SoleSlot(d, i) && Section(d, i, SH_OFFSET) == slot
    {
      SlotByTheBook(d, i, slot);
    }
  }

  lemma OnlyUsableFiles(d: seq<Byte>, is64: bool, msb: bool, slot: nat)
    requires BookFinds(d, is64, msb, slot)
    ensures Usable(d) && TableOf(d).is64 == is64 && TableOf(d).msb == msb
  {
    TableByTheBook(d, is64, msb);
    NamesByTheBook(d);
  }

  /** What find_slot accepts, and where it finds the slot, in the numbers of the gABI. */
  lemma FindsByTheBook(d: seq<Byte>, slot: nat)
    ensures Finds(d, slot) <==> exists is64: bool, msb: bool :: BookFinds(d, is64, msb, slot)
  {
    if Finds(d, slot) {
      UsableByTheBook(d, slot);
      assert BookFinds(d, TableOf(d).is64, TableOf(d).msb, slot);
    }
    forall is64: bool, msb: bool | BookFinds(d, is64, msb, slot)
      ensures Finds(d, slot)
    {
      OnlyUsableFiles(d, is64, msb, slot);
      UsableByTheBook(d, slot);
    }
  }
}
