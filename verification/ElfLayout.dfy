/** Files written out field by field, in the order of the structures Elf32_Ehdr, Elf64_Ehdr, Elf32_Phdr
    and Elf64_Phdr in chapters 4 and 5 of the System V gABI, and what the description that the readers
    of src/platform/unix/mod.rs are proved against says of them. */
module ElfLayout {
  import opened Results
  import opened Elf

  // ---------------------------------------------------------------- slices

  lemma SliceOfSlice(bytes: seq<byte>, at: nat, size: nat, start: nat, end: nat)
    requires at + size <= |bytes| && start <= end <= size
    ensures bytes[at..at + size][start..end] == bytes[at + start..at + end]
  {
    var slice := bytes[at..at + size];
    forall k | 0 <= k < end - start
      ensures slice[start..end][k] == bytes[at + start..at + end][k]
    {
      assert slice[start + k] == bytes[at + (start + k)];
    }
  }

  lemma SliceOfPrefix(a: seq<byte>, b: seq<byte>, start: nat, end: nat)
    requires start <= end <= |a|
    ensures (a + b)[start..end] == a[start..end]
  {
  }

  lemma Suffix(a: seq<byte>, b: seq<byte>)
    ensures (a + b)[|a|..|a| + |b|] == b
  {
  }

  // ---------------------------------------------------------------- writing numbers

  function Little(n: nat, width: nat): (bytes: seq<byte>)
    ensures |bytes| == width
  {
    if width == 0 then [] else [n % 256] + Little(n / 256, width - 1)
  }

  function Big(n: nat, width: nat): (bytes: seq<byte>)
    ensures |bytes| == width
  {
    if width == 0 then [] else Big(n / 256, width - 1) + [n % 256]
  }

  function Bytes(n: nat, width: nat, little: bool): (bytes: seq<byte>)
    ensures |bytes| == width
  {
    if little then Little(n, width) else Big(n, width)
  }

  lemma {:induction false} LittleReads(bytes: seq<byte>, at: nat, n: nat, width: nat)
    requires at + width <= |bytes| && bytes[at..at + width] == Little(n, width) && n < Limit(width)
    ensures LittleEndian(bytes, at, at + width) == n
    decreases width
  {
    if width > 0 {
      assert bytes[at] == bytes[at..at + width][0] == n % 256;
      SliceOfSlice(bytes, at, width, 1, width);
      assert Little(n, width)[1..width] == Little(n / 256, width - 1);
      LittleReads(bytes, at + 1, n / 256, width - 1);
    }
  }

  lemma {:induction false} BigReads(bytes: seq<byte>, at: nat, n: nat, width: nat)
    requires at + width <= |bytes| && bytes[at..at + width] == Big(n, width) && n < Limit(width)
    ensures BigEndian(bytes, at, at + width) == n
    decreases width
  {
    if width > 0 {
      var last := at + width - 1;
      assert bytes[last] == bytes[at..at + width][width - 1] == n % 256;
      SliceOfSlice(bytes, at, width, 0, width - 1);
      assert Big(n, width)[0..width - 1] == Big(n / 256, width - 1);
      BigReads(bytes, at, n / 256, width - 1);
    }
  }

  /** In either byte order a written number reads back. */
  lemma NumberReads(bytes: seq<byte>, at: nat, n: nat, width: nat, little: bool)
    requires at + width <= |bytes| && bytes[at..at + width] == Bytes(n, width, little) && n < Limit(width)
    ensures Number(bytes, at, width, little) == n
  {
    if little {
      LittleReads(bytes, at, n, width);
    } else {
      BigReads(bytes, at, n, width);
    }
  }

  // ---------------------------------------------------------------- writing structures

  /** A number and the bytes it takes. */
  datatype Field = Field(value: nat, width: nat)

  function Offset(fields: seq<Field>, k: nat): nat
    requires k <= |fields|
  {
    if k == 0 then 0 else Offset(fields, k - 1) + fields[k - 1].width
  }

  function Written(fields: seq<Field>, k: nat, little: bool): (bytes: seq<byte>)
    requires k <= |fields|
    ensures |bytes| == Offset(fields, k)
  {
    if k == 0 then [] else Written(fields, k - 1, little) + Bytes(fields[k - 1].value, fields[k - 1].width, little)
  }

  predicate Fit(fields: seq<Field>) {
    forall f <- fields :: f.value < Limit(f.width)
  }

  lemma {:induction false} FieldIsWritten(fields: seq<Field>, k: nat, i: nat, little: bool)
    requires i < k <= |fields|
    ensures Offset(fields, i + 1) <= Offset(fields, k)
    ensures Written(fields, k, little)[Offset(fields, i)..Offset(fields, i + 1)]
         == Bytes(fields[i].value, fields[i].width, little)
    decreases k
  {
    var before, last := Written(fields, k - 1, little), Bytes(fields[k - 1].value, fields[k - 1].width, little);
    hide Bytes;
    if i < k - 1 {
      FieldIsWritten(fields, k - 1, i, little);
      SliceOfPrefix(before, last, Offset(fields, i), Offset(fields, i + 1));
    } else {
      Suffix(before, last);
    }
  }

  /** Wherever a structure stands, each of its fields reads back from its place in it. */
  lemma FieldReads(bytes: seq<byte>, at: nat, fields: seq<Field>, i: nat, little: bool)
    requires i < |fields| && Fit(fields) && at + Offset(fields, |fields|) <= |bytes|
    requires bytes[at..at + Offset(fields, |fields|)] == Written(fields, |fields|, little)
    ensures Offset(fields, i) + fields[i].width <= Offset(fields, |fields|)
    ensures Number(bytes, at + Offset(fields, i), fields[i].width, little) == fields[i].value
  {
    hide Number, Written, Bytes, Limit;
    FieldIsWritten(fields, |fields|, i, little);
    SliceOfSlice(bytes, at, Offset(fields, |fields|), Offset(fields, i), Offset(fields, i + 1));
    NumberReads(bytes, at + Offset(fields, i), fields[i].value, fields[i].width, little);
  }

  // ---------------------------------------------------------------- the ELF header

  /** The members of the header that are not identification, sizes apart. */
  datatype Ehdr = Ehdr(kind: nat, machine: nat, version: nat, entry: nat, phoff: nat, shoff: nat, flags: nat,
    ehsize: nat, phentsize: nat, phnum: nat, shentsize: nat, shnum: nat, shstrndx: nat)

  function HeaderFields(h: Ehdr, word: nat): seq<Field> {
    [Field(h.kind, 2), Field(h.machine, 2), Field(h.version, 4), Field(h.entry, word), Field(h.phoff, word),
     Field(h.shoff, word), Field(h.flags, 4), Field(h.ehsize, 2), Field(h.phentsize, 2), Field(h.phnum, 2),
     Field(h.shentsize, 2), Field(h.shnum, 2), Field(h.shstrndx, 2)]
  }

  /** The sixteen bytes of e_ident: the magic number, class, byte order, version and padding. */
  function Ident(elfClass: Class, little: bool, padding: seq<byte>): seq<byte> {
    [0x7F, 0x45, 0x4C, 0x46, if elfClass.Elf32? then 1 else 2, if little then 1 else 2, 1] + padding
  }

  function WrittenHeader(elfClass: Class, little: bool, padding: seq<byte>, h: Ehdr): seq<byte> {
    var fields := HeaderFields(h, if elfClass.Elf32? then 4 else 8);
    Ident(elfClass, little, padding) + Written(fields, |fields|, little)
  }

  lemma HeaderOffsets(h: Ehdr, word: nat)
    ensures var fields := HeaderFields(h, word);
      && |fields| == 13 && Offset(fields, 0) == 0 && Offset(fields, 1) == 2 && Offset(fields, 3) == 8
      && Offset(fields, 4) == 8 + word && Offset(fields, 8) == 14 + 3 * word
      && Offset(fields, 9) == 16 + 3 * word && Offset(fields, 13) == 24 + 3 * word
  {
    var fields := HeaderFields(h, word);
    assert Offset(fields, 1) == 2;
    assert Offset(fields, 2) == 4;
    assert Offset(fields, 3) == 8;
    assert Offset(fields, 4) == 8 + word;
    assert Offset(fields, 5) == 8 + 2 * word;
    assert Offset(fields, 6) == 8 + 3 * word;
    assert Offset(fields, 7) == 12 + 3 * word;
    assert Offset(fields, 8) == 14 + 3 * word;
    assert Offset(fields, 9) == 16 + 3 * word;
    assert Offset(fields, 10) == 18 + 3 * word;
    assert Offset(fields, 11) == 20 + 3 * word;
    assert Offset(fields, 12) == 22 + 3 * word;
  }

  lemma IdentReads(elfClass: Class, little: bool, padding: seq<byte>, rest: seq<byte>)
    requires |padding| == 9 && |rest| >= 36
    ensures var bytes := Ident(elfClass, little, padding) + rest;
      Identified(bytes) && ClassOf(bytes) == Some(elfClass) && Elf.Little(bytes) == little
  {
    var ident := Ident(elfClass, little, padding);
    var bytes := ident + rest;
    assert bytes[..4] == ELF_MAGIC && bytes[4] == ident[4] && bytes[5] == ident[5];
  }

  lemma HeaderFieldsRead(bytes: seq<byte>, h: Ehdr, word: nat, little: bool)
    requires Fit(HeaderFields(h, word)) && 40 + 3 * word <= |bytes|
    requires bytes[16..40 + 3 * word] == Written(HeaderFields(h, word), 13, little)
    ensures Number(bytes, 16, 2, little) == h.kind && Number(bytes, 18, 2, little) == h.machine
    ensures Number(bytes, 24, word, little) == h.entry && Number(bytes, 24 + word, word, little) == h.phoff
    ensures Number(bytes, 30 + 3 * word, 2, little) == h.phentsize
    ensures Number(bytes, 32 + 3 * word, 2, little) == h.phnum
  {
    hide Offset, Written, Number, Fit;
    var fields := HeaderFields(h, word);
    HeaderOffsets(h, word);
    FieldReads(bytes, 16, fields, 0, little);
    FieldReads(bytes, 16, fields, 1, little);
    FieldReads(bytes, 16, fields, 3, little);
    FieldReads(bytes, 16, fields, 4, little);
    FieldReads(bytes, 16, fields, 8, little);
    FieldReads(bytes, 16, fields, 9, little);
  }

  /** A written header is read back, for both classes and byte orders. */
  lemma HeaderReads(elfClass: Class, little: bool, padding: seq<byte>, h: Ehdr, rest: seq<byte>)
    requires |padding| == 9 && Fit(HeaderFields(h, if elfClass.Elf32? then 4 else 8))
    ensures var bytes := WrittenHeader(elfClass, little, padding, h) + rest;
      && Identified(bytes) && ClassOf(bytes) == Some(elfClass) && Elf.Little(bytes) == little
      && elfClass.HeaderLen() == |WrittenHeader(elfClass, little, padding, h)|
      && Number(bytes, 16, 2, little) == h.kind && Number(bytes, 18, 2, little) == h.machine
      && HeaderOf(bytes, elfClass, little) == Header(h.phoff, h.phentsize, h.phnum, h.entry)
  {
    hide Offset, Written, Number, Fit, HeaderFields, Identified, ClassOf, Elf.Little;
    var word := if elfClass.Elf32? then 4 else 8;
    HeaderOffsets(h, word);
    var written := Written(HeaderFields(h, word), 13, little);
    var ident := Ident(elfClass, little, padding);
    var bytes := WrittenHeader(elfClass, little, padding, h) + rest;
    assert bytes == ident + (written + rest);
    IdentReads(elfClass, little, padding, written + rest);
    assert bytes[16..40 + 3 * word] == written;
    HeaderFieldsRead(bytes, h, word, little);
  }

  // ---------------------------------------------------------------- program headers

  datatype Phdr = Phdr(segment: Segment, paddr: nat, align: nat)

  /** In the 64-bit structure the flags come second. */
  function EntryFields(p: Phdr, elfClass: Class): seq<Field> {
    var s := p.segment;
    if elfClass.Elf32? then
      [Field(s.kind, 4), Field(s.offset, 4), Field(s.vaddr, 4), Field(p.paddr, 4), Field(s.filesz, 4),
       Field(s.memsz, 4), Field(s.flags, 4), Field(p.align, 4)]
    else
      [Field(s.kind, 4), Field(s.flags, 4), Field(s.offset, 8), Field(s.vaddr, 8), Field(p.paddr, 8),
       Field(s.filesz, 8), Field(s.memsz, 8), Field(p.align, 8)]
  }

  function WrittenEntry(p: Phdr, elfClass: Class, little: bool): seq<byte> {
    var fields := EntryFields(p, elfClass);
    Written(fields, |fields|, little)
  }

  lemma EntryOffsets(p: Phdr, elfClass: Class)
    ensures var fields := EntryFields(p, elfClass);
      if elfClass.Elf32? then
        && Offset(fields, 0) == 0 && Offset(fields, 1) == 4 && Offset(fields, 2) == 8 && Offset(fields, 4) == 16
        && Offset(fields, 5) == 20 && Offset(fields, 6) == 24 && Offset(fields, 8) == 32
      else
        && Offset(fields, 0) == 0 && Offset(fields, 1) == 4 && Offset(fields, 2) == 8 && Offset(fields, 3) == 16
        && Offset(fields, 5) == 32 && Offset(fields, 6) == 40 && Offset(fields, 8) == 56
  {
    var fields := EntryFields(p, elfClass);
    assert Offset(fields, 1) == 4;
    assert Offset(fields, 2) == 8;
    assert Offset(fields, 3) == if elfClass.Elf32? then 12 else 16;
    assert Offset(fields, 4) == if elfClass.Elf32? then 16 else 24;
    assert Offset(fields, 5) == if elfClass.Elf32? then 20 else 32;
    assert Offset(fields, 6) == if elfClass.Elf32? then 24 else 40;
    assert Offset(fields, 7) == if elfClass.Elf32? then 28 else 48;
  }

  /** A written program header is read back wherever it stands. */
  lemma SegmentReads(bytes: seq<byte>, at: nat, p: Phdr, elfClass: Class, little: bool)
    requires Fit(EntryFields(p, elfClass)) && at + elfClass.EntryLen() <= |bytes|
    requires bytes[at..at + elfClass.EntryLen()] == WrittenEntry(p, elfClass, little)
    ensures SegmentAt(bytes, at, elfClass, little) == p.segment
  {
    var fields := EntryFields(p, elfClass);
    EntryOffsets(p, elfClass);
    hide Offset, Written, Number, Fit;
    FieldReads(bytes, at, fields, 0, little);
    FieldReads(bytes, at, fields, 1, little);
    FieldReads(bytes, at, fields, 2, little);
    FieldReads(bytes, at, fields, if elfClass.Elf32? then 4 else 3, little);
    FieldReads(bytes, at, fields, 5, little);
    FieldReads(bytes, at, fields, 6, little);
  }

  // ---------------------------------------------------------------- a whole file

  function WrittenTable(entries: seq<Phdr>, k: nat, elfClass: Class, little: bool): (bytes: seq<byte>)
    requires k <= |entries|
  {
    if k == 0 then []
    else WrittenTable(entries, k - 1, elfClass, little) + WrittenEntry(entries[k - 1], elfClass, little)
  }

  lemma EntrySize(p: Phdr, elfClass: Class, little: bool)
    ensures |WrittenEntry(p, elfClass, little)| == elfClass.EntryLen()
  {
    EntryOffsets(p, elfClass);
  }

  /** Where the i-th entry of a table begins. */
  function Start(i: nat, elfClass: Class): nat {
    i * elfClass.EntryLen()
  }

  lemma {:induction false} EntryIsWritten(entries: seq<Phdr>, k: nat, i: nat, elfClass: Class, little: bool)
    requires i <= k <= |entries|
    ensures |WrittenTable(entries, k, elfClass, little)| == Start(k, elfClass)
    ensures Start(i, elfClass) <= Start(k, elfClass)
    ensures i < k ==>
      var end := Start(i, elfClass) + elfClass.EntryLen();
      && end <= Start(k, elfClass)
      && WrittenTable(entries, k, elfClass, little)[Start(i, elfClass)..end]
         == WrittenEntry(entries[i], elfClass, little)
    decreases k
  {
    hide WrittenEntry;
    if k > 0 {
      var before := WrittenTable(entries, k - 1, elfClass, little);
      var last := WrittenEntry(entries[k - 1], elfClass, little);
      EntrySize(entries[k - 1], elfClass, little);
      EntryIsWritten(entries, k - 1, if i < k then i else k - 1, elfClass, little);
      Suffix(before, last);
      if i < k - 1 {
        SliceOfPrefix(before, last, Start(i, elfClass), Start(i, elfClass) + elfClass.EntryLen());
      }
    }
  }

  lemma EntryReads(bytes: seq<byte>, table: seq<byte>, at: nat, start: nat, p: Phdr, elfClass: Class, little: bool)
    requires at + |table| <= |bytes| && bytes[at..at + |table|] == table && Fit(EntryFields(p, elfClass))
    requires start + elfClass.EntryLen() <= |table|
    requires table[start..start + elfClass.EntryLen()] == WrittenEntry(p, elfClass, little)
    ensures SegmentAt(bytes, at + start, elfClass, little) == p.segment
  {
    hide WrittenEntry, Fit, SegmentAt, EntryFields;
    SliceOfSlice(bytes, at, |table|, start, start + elfClass.EntryLen());
    SegmentReads(bytes, at + start, p, elfClass, little);
  }

  /** Header, anything, program headers, anything: the table where e_phoff says it is. */
  datatype File = File(elfClass: Class, little: bool, padding: seq<byte>, h: Ehdr, gap: seq<byte>, entries: seq<Phdr>,
    rest: seq<byte>)
  {
    function Bytes(): seq<byte> {
      WrittenHeader(elfClass, little, padding, h) + (gap + WrittenTable(entries, |entries|, elfClass, little) + rest)
    }

    predicate Valid() {
      && |padding| == 9 && Fit(HeaderFields(h, if elfClass.Elf32? then 4 else 8))
      && (forall p <- entries :: Fit(EntryFields(p, elfClass)))
      && h.phnum == |entries|
      && h.phentsize == (if elfClass.Elf32? then 32 else 56)
      && h.phoff == (if elfClass.Elf32? then 52 else 64) + |gap|
    }

    /** An executable or shared object of this machine. */
    predicate Suits(host: Host) {
      && (h.kind == 2 || h.kind == 3) && little == host.littleEndian
      && (host.machines == {} || h.machine in host.machines)
      && h.phoff <= host.usizeMax && h.phnum * h.phentsize <= 1048576
    }
  }

  function Described(entries: seq<Phdr>): seq<Segment> {
    seq(|entries|, i requires 0 <= i < |entries| => entries[i].segment)
  }

  lemma TableReads(bytes: seq<byte>, at: nat, entries: seq<Phdr>, i: nat, elfClass: Class, little: bool)
    requires i < |entries| && Fit(EntryFields(entries[i], elfClass))
    requires var table := WrittenTable(entries, |entries|, elfClass, little);
      at + |table| <= |bytes| && bytes[at..at + |table|] == table
    ensures at + Start(i, elfClass) + elfClass.EntryLen() <= |bytes|
    ensures SegmentAt(bytes, at + Start(i, elfClass), elfClass, little) == entries[i].segment
  {
    hide *;
    var table := WrittenTable(entries, |entries|, elfClass, little);
    EntryIsWritten(entries, |entries|, i, elfClass, little);
    EntryReads(bytes, table, at, Start(i, elfClass), entries[i], elfClass, little);
  }

  lemma TableIsBehind(header: seq<byte>, gap: seq<byte>, table: seq<byte>, rest: seq<byte>)
    ensures var bytes := header + (gap + table + rest);
      var at := |header| + |gap|;
      at + |table| <= |bytes| && bytes[at..at + |table|] == table
  {
    assert header + (gap + table + rest) == (header + gap) + table + rest;
  }

  lemma FileIsDescribed(file: File)
    requires file.Valid()
    ensures var table := WrittenTable(file.entries, |file.entries|, file.elfClass, file.little);
      var bytes := file.Bytes();
      && file.h.phoff + |table| <= |bytes| && bytes[file.h.phoff..file.h.phoff + |table|] == table
      && |table| == Start(|file.entries|, file.elfClass)
    ensures var bytes, h := file.Bytes(), file.h;
      && Identified(bytes) && ClassOf(bytes) == Some(file.elfClass) && Elf.Little(bytes) == file.little
      && file.elfClass.HeaderLen() <= |bytes|
      && Number(bytes, 16, 2, file.little) == h.kind && Number(bytes, 18, 2, file.little) == h.machine
      && HeaderOf(bytes, file.elfClass, file.little) == Header(h.phoff, h.phentsize, h.phnum, h.entry)
  {
    hide WrittenHeader, WrittenTable, HeaderOf, Number, SegmentAt, Identified, ClassOf, Elf.Little, Fit, HeaderFields;
    var table := WrittenTable(file.entries, |file.entries|, file.elfClass, file.little);
    var header := WrittenHeader(file.elfClass, file.little, file.padding, file.h);
    HeaderReads(file.elfClass, file.little, file.padding, file.h, file.gap + table + file.rest);
    EntryIsWritten(file.entries, |file.entries|, 0, file.elfClass, file.little);
    TableIsBehind(header, file.gap, table, file.rest);
  }

  /** Exactly the files that suit the host can be loaded. */
  lemma LoadableExactly(host: Host, file: File)
    requires file.Valid()
    ensures Loadable(host, file.Bytes()) <==> file.Suits(host)
    ensures file.Suits(host) ==>
      EntryOf(file.Bytes()) == file.h.entry && Phnum(file.Bytes()) == |file.entries|
  {
    hide File.Bytes, HeaderOf, Number, Identified, ClassOf, Elf.Little, Fit, HeaderFields, WrittenTable;
    FileIsDescribed(file);
  }

  lemma SegmentsAt(host: Host, bytes: seq<byte>, i: nat)
    requires Loadable(host, bytes) && i < Phnum(bytes)
    ensures var elfClass := ClassOf(bytes).value;
      var start := HeaderOf(bytes, elfClass, Elf.Little(bytes)).phoff + Start(i, elfClass);
      && start + elfClass.EntryLen() <= |bytes|
      && Segments(host, bytes)[i] == SegmentAt(bytes, start, elfClass, Elf.Little(bytes))
  {
    EntryInTable(i, Phnum(bytes), ClassOf(bytes).value.EntryLen());
  }

  /** A written file is described by the program headers it was written with. */
  lemma FileReads(host: Host, file: File)
    requires file.Valid() && file.Suits(host)
    ensures Loadable(host, file.Bytes()) && Segments(host, file.Bytes()) == Described(file.entries)
    ensures EntryOf(file.Bytes()) == file.h.entry
  {
    hide Loadable, File.Bytes, File.Suits, Number, HeaderOf;
    LoadableExactly(host, file);
    forall i | 0 <= i < |file.entries|
      ensures Segments(host, file.Bytes())[i] == file.entries[i].segment
    {
      assert Fit(EntryFields(file.entries[i], file.elfClass)) by {
        assert file.entries[i] in file.entries;
      }
      FileSegment(host, file, i);
    }
  }

  lemma FileSegment(host: Host, file: File, i: nat)
    requires file.Valid() && file.Suits(host) && i < |file.entries| && Fit(EntryFields(file.entries[i], file.elfClass))
    ensures Loadable(host, file.Bytes()) && i < |Segments(host, file.Bytes())|
    ensures Segments(host, file.Bytes())[i] == file.entries[i].segment
  {
    hide *;
    FileIsDescribed(file);
    LoadableExactly(host, file);
    SegmentsAt(host, file.Bytes(), i);
    TableReads(file.Bytes(), file.h.phoff, file.entries, i, file.elfClass, file.little);
  }

  /** A program header that can be loaded. */
  predicate IsLoadable(host: Host, s: Segment) {
    && s.offset <= host.usizeMax && s.filesz <= host.usizeMax && s.filesz <= s.memsz
    && s.vaddr + s.memsz <= 18446744073709551615
  }

  /** Its bytes in the file begin with `path` and a NUL. */
  predicate PointsAt(host: Host, bytes: seq<byte>, s: Segment, path: seq<byte>) {
    && 0 < s.filesz <= 4096 && s.offset <= host.usizeMax && s.offset + s.filesz <= |bytes|
    && path != [] && 0 !in path && path + [0] <= bytes[s.offset..s.offset + s.filesz]
  }

  predicate IsExecutedAt(s: Segment, entry: nat) {
    s.kind == 1 && s.flags % 2 == 1 && s.vaddr <= entry < s.vaddr + s.memsz
  }

  /** Every header of type 1 can be loaded. */
  predicate AllLoad(host: Host, entries: seq<Phdr>) {
    forall p <- entries :: p.segment.kind == 1 ==> IsLoadable(host, p.segment)
  }

  /** The first header of type 3 points at the path. */
  predicate FirstPointsAt(host: Host, bytes: seq<byte>, entries: seq<Phdr>, path: seq<byte>) {
    exists i :: 0 <= i < |entries| && entries[i].segment.kind == 3
      && (forall j :: 0 <= j < i ==> entries[j].segment.kind != 3) && PointsAt(host, bytes, entries[i].segment, path)
  }

  lemma TableAsks(host: Host, bytes: seq<byte>, entries: seq<Phdr>, path: seq<byte>)
    ensures TableAsksFor(host, bytes, Described(entries), path) <==>
      && (exists p <- entries :: p.segment.kind == 1) && AllLoad(host, entries)
      && FirstPointsAt(host, bytes, entries, path)
  {
    var segments := Described(entries);
    LoadsAreThere(host, entries);
    if FirstPointsAt(host, bytes, entries, path) {
      var i :| 0 <= i < |entries| && entries[i].segment.kind == 3
        && (forall j :: 0 <= j < i ==> entries[j].segment.kind != 3)
        && PointsAt(host, bytes, entries[i].segment, path);
      assert IsFirstInterp(segments, i) && InterpHolds(host, bytes, segments[i], path);
    }
    if HoldsFirst(host, bytes, segments, |segments|, path) {
      var i: nat :| i < |segments| && IsFirstInterp(segments, i) && InterpHolds(host, bytes, segments[i], path);
      assert entries[i].segment.kind == 3 && PointsAt(host, bytes, entries[i].segment, path);
      assert forall j :: 0 <= j < i ==> segments[j] == entries[j].segment;
    }
  }

  lemma LoadsAreThere(host: Host, entries: seq<Phdr>)
    ensures HasLoad(Described(entries), |entries|) <==> exists p <- entries :: p.segment.kind == 1
    ensures LoadsFit(host, Described(entries), |entries|) <==> AllLoad(host, entries)
    ensures NoInterp(Described(entries), |entries|) <==> forall p <- entries :: p.segment.kind != 3
  {
    var segments := Described(entries);
    assert forall j :: 0 <= j < |entries| ==> segments[j] == entries[j].segment && entries[j] in entries;
    forall p <- entries
      ensures exists j :: 0 <= j < |segments| && segments[j] == p.segment
    {
      var j :| 0 <= j < |entries| && entries[j] == p;
      assert segments[j] == p.segment;
    }
  }

  /** Exactly then a file asks for a path. */
  lemma FileAsksFor(host: Host, file: File, path: seq<byte>)
    requires file.Valid()
    ensures AsksFor(host, file.Bytes(), path) <==>
      && file.Suits(host)
      && (exists p <- file.entries :: p.segment.kind == 1) && AllLoad(host, file.entries)
      && FirstPointsAt(host, file.Bytes(), file.entries, path)
  {
    hide File.Bytes, File.Valid, File.Suits, Loadable, Segments, TableAsksFor, FirstPointsAt, AllLoad;
    LoadableExactly(host, file);
    if file.Suits(host) {
      FileReads(host, file);
      TableAsks(host, file.Bytes(), file.entries, path);
    }
  }

  /** And exactly then it asks for none: no header of type 3, and an executable one of type 1 that
      covers the entry. */
  lemma FileAsksForNone(host: Host, file: File)
    requires file.Valid()
    ensures AsksForNone(host, file.Bytes()) <==>
      && file.Suits(host)
      && (forall p <- file.entries :: p.segment.kind != 3) && AllLoad(host, file.entries)
      && exists p <- file.entries :: IsExecutedAt(p.segment, file.h.entry)
  {
    hide File.Bytes, File.Valid, File.Suits, Loadable, Segments, TableAsksForNone, AllLoad;
    LoadableExactly(host, file);
    if file.Suits(host) {
      FileReads(host, file);
      TableAsksNone(host, file.entries, file.h.entry);
    }
  }

  lemma TableAsksNone(host: Host, entries: seq<Phdr>, entry: nat)
    ensures TableAsksForNone(host, Described(entries), entry) <==>
      && (forall p <- entries :: p.segment.kind != 3) && AllLoad(host, entries)
      && exists p <- entries :: IsExecutedAt(p.segment, entry)
  {
    hide LoadsFit, NoInterp, LoadsCover, AllLoad;
    LoadsAreThere(host, entries);
    EntryIsCovered(entries, entry);
  }

  lemma EntryIsCovered(entries: seq<Phdr>, entry: nat)
    ensures LoadsCover(Described(entries), |entries|, entry) <==>
      exists p <- entries :: IsExecutedAt(p.segment, entry)
  {
    var segments := Described(entries);
    assert forall j :: 0 <= j < |entries| ==> segments[j] == entries[j].segment && entries[j] in entries;
    if p :| p in entries && IsExecutedAt(p.segment, entry) {
      var j :| 0 <= j < |entries| && entries[j] == p;
      assert segments[j].kind == 1 && Covers(segments[j], entry);
    }
  }
}
