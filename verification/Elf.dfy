/** Finding the loader that an ELF file asks for (src/platform/unix/mod.rs): the reader used for
    policies, the laxer parser of a whole buffer, and what both answer, stated over the program
    headers as chapter 5 of the System V gABI lays them out. */
module Elf {
  import opened Results

  type byte = x: int | 0 <= x < 256

  const U64_MAX: nat := 0xFFFF_FFFF_FFFF_FFFF
  const INTERPRETER_MAX_LEN: nat := 4096
  const PROGRAM_HEADER_TABLE_MAX_LEN: nat := 1024 * 1024
  const HEADER_PREFIX_LEN: nat := 64
  const ELF_MAGIC: seq<byte> := [0x7F, 0x45, 0x4C, 0x46]
  const ET_EXEC := 2
  const ET_DYN := 3
  const PT_LOAD := 1
  const PT_INTERP := 3

  /** The machine the supervisor runs on. An empty list of machine codes accepts every one. */
  datatype Host = Host(usizeMax: nat, littleEndian: bool, machines: set<nat>) {
    predicate Valid() {
      usizeMax == 0xFFFF_FFFF || usizeMax == U64_MAX
    }
  }

  datatype ElfInterpreter = Interpreter(path: seq<byte>) | NoInterpreter | Invalid

  // ---------------------------------------------------------------- numbers

  function Limit(width: nat): nat {
    if width == 0 then 1 else 256 * Limit(width - 1)
  }

  function LittleEndian(bytes: seq<byte>, at: nat, end: nat): (v: nat)
    requires at <= end <= |bytes|
    ensures v < Limit(end - at)
    decreases end - at
  {
    if at == end then 0 else bytes[at] + 256 * LittleEndian(bytes, at + 1, end)
  }

  function BigEndian(bytes: seq<byte>, at: nat, end: nat): (v: nat)
    requires at <= end <= |bytes|
    ensures v < Limit(end - at)
    decreases end - at
  {
    if at == end then 0 else 256 * BigEndian(bytes, at, end - 1) + bytes[end - 1]
  }

  function Number(bytes: seq<byte>, at: nat, width: nat, little: bool): (v: nat)
    requires at + width <= |bytes|
    ensures v < Limit(width)
  {
    if little then LittleEndian(bytes, at, at + width) else BigEndian(bytes, at, at + width)
  }

  lemma {:induction false} NumberInSlice(bytes: seq<byte>, from: nat, to: nat, at: nat, width: nat, little: bool)
    requires from <= to <= |bytes| && from + at + width <= to
    ensures Number(bytes[from..to], at, width, little) == Number(bytes, from + at, width, little)
    decreases width
  {
    if width > 0 {
      if little {
        NumberInSlice(bytes, from, to, at + 1, width - 1, true);
      } else {
        NumberInSlice(bytes, from, to, at, width - 1, false);
      }
    }
  }

  /** The code's reads: bounds and offset overflow are checked each time. */
  function ReadNumber(host: Host, bytes: seq<byte>, offset: nat, width: nat, little: bool): Option<nat> {
    if offset + width > host.usizeMax || offset + width > |bytes| then None
    else Some(Number(bytes, offset, width, little))
  }

  function ReadUsize(host: Host, bytes: seq<byte>, offset: nat, width: nat, little: bool): Option<nat> {
    match ReadNumber(host, bytes, offset, width, little)
    case Some(v) => if v <= host.usizeMax then Some(v) else None
    case None => None
  }

  // ---------------------------------------------------------------- headers as the gABI has them

  datatype Class = Elf32 | Elf64 {
    function HeaderLen(): nat { if Elf32? then 0x34 else 0x40 }
    function EntryLen(): nat { if Elf32? then 32 else 56 }
    /** The width of addresses, offsets and sizes. */
    function Word(): nat { if Elf32? then 4 else 8 }
    function PhoffAt(): nat { if Elf32? then 28 else 32 }
    function PhentsizeAt(): nat { if Elf32? then 42 else 54 }
    function PhnumAt(): nat { if Elf32? then 44 else 56 }
    function OffsetAt(): nat { if Elf32? then 4 else 8 }
    function VaddrAt(): nat { if Elf32? then 8 else 16 }
    function FileszAt(): nat { if Elf32? then 16 else 32 }
    function MemszAt(): nat { if Elf32? then 20 else 40 }
    function FlagsAt(): nat { if Elf32? then 24 else 4 }
  }

  datatype Header = Header(phoff: nat, phentsize: nat, phnum: nat, entry: nat)

  function HeaderOf(bytes: seq<byte>, elfClass: Class, little: bool): Header
    requires elfClass.HeaderLen() <= |bytes|
  {
    Header(
      Number(bytes, elfClass.PhoffAt(), elfClass.Word(), little),
      Number(bytes, elfClass.PhentsizeAt(), 2, little),
      Number(bytes, elfClass.PhnumAt(), 2, little),
      Number(bytes, 24, elfClass.Word(), little))
  }

  datatype Segment = Segment(kind: nat, offset: nat, filesz: nat, vaddr: nat, memsz: nat, flags: nat)

  function SegmentAt(bytes: seq<byte>, at: nat, elfClass: Class, little: bool): Segment
    requires at + elfClass.EntryLen() <= |bytes|
  {
    Segment(
      Number(bytes, at, 4, little),
      Number(bytes, at + elfClass.OffsetAt(), elfClass.Word(), little),
      Number(bytes, at + elfClass.FileszAt(), elfClass.Word(), little),
      Number(bytes, at + elfClass.VaddrAt(), elfClass.Word(), little),
      Number(bytes, at + elfClass.MemszAt(), elfClass.Word(), little),
      Number(bytes, at + elfClass.FlagsAt(), 4, little))
  }

  // ---------------------------------------------------------------- what a file asks for

  function ClassOf(bytes: seq<byte>): Option<Class>
    requires |bytes| > 4
  {
    if bytes[4] == 1 then Some(Elf32) else if bytes[4] == 2 then Some(Elf64) else None
  }

  /** The identification that both parsers ask for. */
  predicate Identified(bytes: seq<byte>) {
    && 0x34 <= |bytes|
    && bytes[..4] == ELF_MAGIC
    && (bytes[5] == 1 || bytes[5] == 2)
    && ClassOf(bytes).Some?
  }

  function Little(bytes: seq<byte>): bool
    requires Identified(bytes)
  {
    bytes[5] == 1
  }

  /** A file this host may run whose program header table is all there. */
  predicate Loadable(host: Host, bytes: seq<byte>) {
    && Identified(bytes)
    && Little(bytes) == host.littleEndian
    && Number(bytes, 16, 2, Little(bytes)) in {ET_EXEC, ET_DYN}
    && (host.machines == {} || Number(bytes, 18, 2, Little(bytes)) in host.machines)
    && var elfClass := ClassOf(bytes).value;
      && elfClass.HeaderLen() <= |bytes|
      && var h := HeaderOf(bytes, elfClass, Little(bytes));
        && h.phoff <= host.usizeMax
        && h.phentsize == elfClass.EntryLen()
        && h.phentsize * h.phnum <= PROGRAM_HEADER_TABLE_MAX_LEN
        && (h.phnum > 0 ==> h.phoff + h.phentsize * h.phnum <= |bytes|)
  }

  function Phnum(bytes: seq<byte>): nat
    requires Identified(bytes) && ClassOf(bytes).value.HeaderLen() <= |bytes|
  {
    HeaderOf(bytes, ClassOf(bytes).value, Little(bytes)).phnum
  }

  lemma EntryInTable(index: nat, count: nat, len: nat)
    requires index < count
    ensures 0 <= index * len && index * len + len <= count * len
  {
    assert (index + 1) * len <= count * len by {
      if index + 1 < count {
        assert count * len == (index + 1) * len + (count - index - 1) * len;
        assert 0 <= (count - index - 1) * len;
      }
    }
  }

  /** The entries of the program header table, in order. */
  ghost function Segments(host: Host, bytes: seq<byte>): (segments: seq<Segment>)
    requires Loadable(host, bytes)
    ensures |segments| == Phnum(bytes)
  {
    var elfClass := ClassOf(bytes).value;
    var h := HeaderOf(bytes, elfClass, Little(bytes));
    seq(h.phnum, (i: nat) requires i < h.phnum =>
      EntryInTable(i, h.phnum, elfClass.EntryLen());
      SegmentAt(bytes, h.phoff + i * elfClass.EntryLen(), elfClass, Little(bytes)))
  }

  ghost predicate IsInterpreterPath(path: seq<byte>, bytes: seq<byte>) {
    path != [] && 0 !in path && path + [0] <= bytes
  }

  ghost predicate LoadFits(host: Host, s: Segment) {
    && s.offset <= host.usizeMax && s.filesz <= host.usizeMax
    && s.filesz <= s.memsz
    && s.vaddr + s.memsz <= U64_MAX
  }

  ghost predicate Covers(s: Segment, entry: nat) {
    s.flags % 2 == 1 && s.vaddr <= entry < s.vaddr + s.memsz
  }

  ghost predicate IsFirstInterp(segments: seq<Segment>, i: nat) {
    i < |segments| && segments[i].kind == PT_INTERP && NoInterp(segments, i)
  }

  ghost predicate HasLoad(segments: seq<Segment>, n: nat)
    requires n <= |segments|
  {
    exists i :: 0 <= i < n && segments[i].kind == PT_LOAD
  }

  ghost predicate LoadsFit(host: Host, segments: seq<Segment>, n: nat)
    requires n <= |segments|
  {
    forall i :: 0 <= i < n && segments[i].kind == PT_LOAD ==> LoadFits(host, segments[i])
  }

  ghost predicate LoadsCover(segments: seq<Segment>, n: nat, entry: nat)
    requires n <= |segments|
  {
    exists i :: 0 <= i < n && segments[i].kind == PT_LOAD && Covers(segments[i], entry)
  }

  ghost predicate NoInterp(segments: seq<Segment>, n: nat)
    requires n <= |segments|
  {
    forall i :: 0 <= i < n ==> segments[i].kind != PT_INTERP
  }

  /** The first PT_INTERP lies in the file and holds `path`. */
  ghost predicate InterpHolds(host: Host, bytes: seq<byte>, s: Segment, path: seq<byte>) {
    && 0 < s.filesz <= INTERPRETER_MAX_LEN
    && s.offset <= host.usizeMax
    && s.offset + s.filesz <= |bytes|
    && IsInterpreterPath(path, bytes[s.offset..s.offset + s.filesz])
  }

  /** The first PT_INTERP is one of the first `n` entries and holds `path`. */
  ghost predicate HoldsFirst(host: Host, bytes: seq<byte>, segments: seq<Segment>, n: nat, path: seq<byte>) {
    exists i: nat :: i < n && IsFirstInterp(segments, i) && InterpHolds(host, bytes, segments[i], path)
  }

  ghost predicate TableAsksFor(host: Host, bytes: seq<byte>, segments: seq<Segment>, path: seq<byte>) {
    && HasLoad(segments, |segments|)
    && LoadsFit(host, segments, |segments|)
    && HoldsFirst(host, bytes, segments, |segments|, path)
  }

  ghost predicate TableAsksForNone(host: Host, segments: seq<Segment>, entry: nat) {
    && LoadsFit(host, segments, |segments|)
    && NoInterp(segments, |segments|)
    && LoadsCover(segments, |segments|, entry)
  }

  ghost predicate TableAnswers(host: Host, bytes: seq<byte>, segments: seq<Segment>, entry: nat,
      answer: ElfInterpreter)
  {
    match answer
    case Interpreter(path) => TableAsksFor(host, bytes, segments, path)
    case NoInterpreter => TableAsksForNone(host, segments, entry)
    case Invalid =>
      && !TableAsksForNone(host, segments, entry)
      && forall path :: !TableAsksFor(host, bytes, segments, path)
  }

  function EntryOf(bytes: seq<byte>): nat
    requires Identified(bytes) && ClassOf(bytes).value.HeaderLen() <= |bytes|
  {
    HeaderOf(bytes, ClassOf(bytes).value, Little(bytes)).entry
  }

  ghost predicate AsksFor(host: Host, bytes: seq<byte>, path: seq<byte>) {
    Loadable(host, bytes) && TableAsksFor(host, bytes, Segments(host, bytes), path)
  }

  ghost predicate AsksForNone(host: Host, bytes: seq<byte>) {
    Loadable(host, bytes) && TableAsksForNone(host, Segments(host, bytes), EntryOf(bytes))
  }

  ghost predicate Answers(host: Host, bytes: seq<byte>, answer: ElfInterpreter) {
    match answer
    case Interpreter(path) => AsksFor(host, bytes, path)
    case NoInterpreter => AsksForNone(host, bytes)
    case Invalid => !AsksForNone(host, bytes) && forall path :: !AsksFor(host, bytes, path)
  }

  /** No file has two answers, so `Answers` says for each of them exactly when it is given. */
  lemma OneAnswer(host: Host, bytes: seq<byte>, a: ElfInterpreter, b: ElfInterpreter)
    requires Answers(host, bytes, a) && Answers(host, bytes, b)
    ensures a == b
  {
    hide Segments, Loadable, EntryOf, LoadFits, Number;
    if a.Interpreter? && b.Interpreter? {
      var segments := Segments(host, bytes);
      var i: nat :| i < |segments| && IsFirstInterp(segments, i) && InterpHolds(host, bytes, segments[i], a.path);
      var j: nat :| j < |segments| && IsFirstInterp(segments, j) && InterpHolds(host, bytes, segments[j], b.path);
      assert i == j;
      SamePath(a.path, b.path, bytes[segments[i].offset..segments[i].offset + segments[i].filesz]);
    }
  }

  lemma PathEnd(p: seq<byte>, bytes: seq<byte>)
    requires IsInterpreterPath(p, bytes)
    ensures |p| < |bytes| && bytes[|p|] == 0 && p == bytes[..|p|]
    ensures forall k :: 0 <= k < |p| ==> bytes[k] != 0
  {
    assert bytes[|p|] == (p + [0])[|p|];
    assert p == bytes[..|p|];
    assert forall k :: 0 <= k < |p| ==> bytes[k] == p[k];
  }

  lemma SamePath(p: seq<byte>, q: seq<byte>, bytes: seq<byte>)
    requires IsInterpreterPath(p, bytes) && IsInterpreterPath(q, bytes)
    ensures p == q
  {
    PathEnd(p, bytes);
    PathEnd(q, bytes);
  }

  function NulFrom(bytes: seq<byte>, i: nat): (n: nat)
    requires i <= |bytes|
    ensures i <= n <= |bytes| && 0 !in bytes[i..n] && (n < |bytes| ==> bytes[n] == 0)
    decreases |bytes| - i
  {
    if i == |bytes| || bytes[i] == 0 then i
    else
      var n := NulFrom(bytes, i + 1);
      assert bytes[i..n] == [bytes[i]] + bytes[i + 1..n];
      n
  }

  /** The bytes before the first NUL. */
  function PathOf(interp: seq<byte>): Option<seq<byte>> {
    var nul := NulFrom(interp, 0);
    if nul == |interp| then None else Some(interp[..nul])
  }

  lemma PathOfIsThePath(interp: seq<byte>, path: seq<byte>)
    ensures IsInterpreterPath(path, interp) <==> path != [] && PathOf(interp) == Some(path)
  {
    var nul := NulFrom(interp, 0);
    if PathOf(interp) == Some(path) {
      assert path + [0] == interp[..nul + 1];
    }
    if IsInterpreterPath(path, interp) {
      PathEnd(path, interp);
      assert |path| == nul;
    }
  }

  // ---------------------------------------------------------------- the reader for policies

  datatype IoError = Eof | Failed

  predicate IsInvalid(e: IoError) {
    e.Eof?
  }

  /** Reads may be short or interrupted and, where `mayFail`, fail; the file itself does not change. */
  method ReadFilePrefix(bytes: seq<byte>, maxLen: nat, mayFail: bool) returns (r: Result<seq<byte>, IoError>)
    ensures r.Ok? ==> r.value == bytes[..if maxLen <= |bytes| then maxLen else |bytes|]
    ensures r.Err? ==> mayFail && r.error == Failed
  {
    var len: nat := 0;
    var interruptions: nat := *;
    while len < maxLen
      invariant len <= maxLen && len <= |bytes|
      decreases maxLen - len, interruptions
    {
      var interrupted: bool := *;
      var fails: bool := *;
      var short: nat := *;
      if interrupted && interruptions > 0 {
        interruptions := interruptions - 1;
      } else if fails && mayFail {
        return Err(Failed);
      } else if len == |bytes| {
        break;
      } else {
        len := len + if 0 < short <= maxLen - len && short <= |bytes| - len then short else 1;
      }
    }
    r := Ok(bytes[..len]);
  }

  method ReadExactFileAt(bytes: seq<byte>, size: nat, offset: nat, mayFail: bool)
    returns (r: Result<seq<byte>, IoError>)
    ensures r.Ok? ==>
      if size == 0 then r.value == [] else offset + size <= |bytes| && r.value == bytes[offset..offset + size]
    ensures r == Err(Eof) ==> size > 0 && offset + size > |bytes|
    ensures r == Err(Failed) ==> mayFail
  {
    var len: nat := 0;
    var interruptions: nat := *;
    while len < size
      invariant len <= size && (len > 0 ==> offset + len <= |bytes|)
      decreases size - len, interruptions
    {
      var interrupted: bool := *;
      var fails: bool := *;
      var short: nat := *;
      if interrupted && interruptions > 0 {
        interruptions := interruptions - 1;
      } else if fails && mayFail {
        return Err(Failed);
      } else if offset + len >= |bytes| {
        return Err(Eof);
      } else {
        len := len + if 0 < short <= size - len && offset + len + short <= |bytes| then short else 1;
      }
    }
    r := Ok(if size == 0 then [] else bytes[offset..offset + size]);
  }

  /** The header fields as the code reads them from the first bytes of the file. */
  function ReadHeader(host: Host, header: seq<byte>, elfClass: Class, little: bool): Option<Header> {
    var phoff := ReadUsize(host, header, elfClass.PhoffAt(), elfClass.Word(), little);
    var phentsize := ReadNumber(host, header, elfClass.PhentsizeAt(), 2, little);
    var phnum := ReadNumber(host, header, elfClass.PhnumAt(), 2, little);
    var entry := ReadNumber(host, header, 24, elfClass.Word(), little);
    if phoff.Some? && phentsize.Some? && phnum.Some? && entry.Some? then
      Some(Header(phoff.value, phentsize.value, phnum.value, entry.value))
    else None
  }

  /** The fields of one program header, as the code reads them from a table. */
  function ReadSegment(host: Host, table: seq<byte>, start: nat, kind: nat, elfClass: Class, little: bool)
    : Option<Segment>
  {
    var offset := ReadUsize(host, table, start + elfClass.OffsetAt(), elfClass.Word(), little);
    var filesz := ReadUsize(host, table, start + elfClass.FileszAt(), elfClass.Word(), little);
    var vaddr := ReadNumber(host, table, start + elfClass.VaddrAt(), elfClass.Word(), little);
    var memsz := ReadNumber(host, table, start + elfClass.MemszAt(), elfClass.Word(), little);
    var flags := ReadNumber(host, table, start + elfClass.FlagsAt(), 4, little);
    if offset.Some? && filesz.Some? && vaddr.Some? && memsz.Some? && flags.Some? then
      Some(Segment(kind, offset.value, filesz.value, vaddr.value, memsz.value, flags.value))
    else None
  }

  lemma ReadHeaderReads(host: Host, bytes: seq<byte>, header: seq<byte>, elfClass: Class, little: bool)
    requires host.Valid() && elfClass.HeaderLen() <= |header| <= |bytes| && header == bytes[..|header|]
    ensures var h := HeaderOf(bytes, elfClass, little);
      ReadHeader(host, header, elfClass, little) == if h.phoff <= host.usizeMax then Some(h) else None
  {
    NumberInSlice(bytes, 0, |header|, elfClass.PhoffAt(), elfClass.Word(), little);
    NumberInSlice(bytes, 0, |header|, elfClass.PhentsizeAt(), 2, little);
    NumberInSlice(bytes, 0, |header|, elfClass.PhnumAt(), 2, little);
    NumberInSlice(bytes, 0, |header|, 24, elfClass.Word(), little);
  }

  lemma ReadNumberReads(host: Host, bytes: seq<byte>, from: nat, table: seq<byte>, start: nat, field: nat,
      width: nat, little: bool)
    requires host.Valid() && from + |table| <= |bytes| && table == bytes[from..from + |table|]
    requires |table| <= host.usizeMax && start + field + width <= |table|
    ensures ReadNumber(host, table, start + field, width, little)
         == Some(Number(bytes, from + start + field, width, little))
  {
    NumberInSlice(bytes, from, from + |table|, start + field, width, little);
  }

  lemma ReadUsizeReads(host: Host, bytes: seq<byte>, from: nat, table: seq<byte>, start: nat, field: nat,
      width: nat, little: bool)
    requires host.Valid() && from + |table| <= |bytes| && table == bytes[from..from + |table|]
    requires |table| <= host.usizeMax && start + field + width <= |table|
    ensures var v := Number(bytes, from + start + field, width, little);
      ReadUsize(host, table, start + field, width, little) == if v <= host.usizeMax then Some(v) else None
  {
    ReadNumberReads(host, bytes, from, table, start, field, width, little);
  }

  /** Inside the table no read can fail: only an offset or size too large for the host does. */
  lemma ReadSegmentReads(host: Host, bytes: seq<byte>, from: nat, table: seq<byte>, start: nat, elfClass: Class,
      little: bool)
    requires host.Valid() && from + |table| <= |bytes| && table == bytes[from..from + |table|]
    requires |table| <= host.usizeMax && start + elfClass.EntryLen() <= |table|
    ensures var s := SegmentAt(bytes, from + start, elfClass, little);
      && ReadNumber(host, table, start, 4, little) == Some(s.kind)
      && ReadSegment(host, table, start, s.kind, elfClass, little)
         == if s.offset <= host.usizeMax && s.filesz <= host.usizeMax then Some(s) else None
  {
    hide ReadNumber, ReadUsize, Number;
    ReadNumberReads(host, bytes, from, table, start, 0, 4, little);
    ReadUsizeReads(host, bytes, from, table, start, elfClass.OffsetAt(), elfClass.Word(), little);
    ReadUsizeReads(host, bytes, from, table, start, elfClass.FileszAt(), elfClass.Word(), little);
    ReadNumberReads(host, bytes, from, table, start, elfClass.VaddrAt(), elfClass.Word(), little);
    ReadNumberReads(host, bytes, from, table, start, elfClass.MemszAt(), elfClass.Word(), little);
    ReadNumberReads(host, bytes, from, table, start, elfClass.FlagsAt(), 4, little);
  }

  method ElfInterpreterPath(interp: seq<byte>) returns (path: Option<seq<byte>>)
    ensures path == PathOf(interp)
  {
    for nul := 0 to |interp|
      invariant NulFrom(interp, 0) == NulFrom(interp, nul)
    {
      if interp[nul] == 0 {
        return Some(interp[..nul]);
      }
    }
    path := None;
  }

  predicate LoadSegmentIsValid(filesz: nat, vaddr: nat, memsz: nat) {
    filesz <= memsz && vaddr + memsz <= U64_MAX
  }

  predicate EntryIsInExecutableLoadSegment(entry: nat, s: Segment) {
    s.flags % 2 == 1 && s.memsz > 0 && s.vaddr + s.memsz <= U64_MAX && s.vaddr <= entry < s.vaddr + s.memsz
  }

  predicate FileRangeIsValid(offset: nat, filesz: nat, fileLen: nat) {
    offset + filesz <= U64_MAX && offset + filesz <= fileLen
  }

  /** Reads the path that a PT_INTERP segment names: None when it names none. */
  method ReadInterpreter(host: Host, bytes: seq<byte>, s: Segment, mayFail: bool)
    returns (r: Result<Option<seq<byte>>, IoError>)
    requires |bytes| <= U64_MAX && s.offset <= host.usizeMax
    ensures r.Ok? && r.value.Some? ==> InterpHolds(host, bytes, s, r.value.value)
    ensures r == Ok(None) ==> forall path :: !InterpHolds(host, bytes, s, path)
    ensures r.Err? ==> mayFail && r.error == Failed
  {
    if s.filesz == 0 || s.filesz > INTERPRETER_MAX_LEN || !FileRangeIsValid(s.offset, s.filesz, |bytes|) {
      return Ok(None);
    }
    var read := ReadExactFileAt(bytes, s.filesz, s.offset, mayFail);
    match read
    case Err(e) =>
      return if IsInvalid(e) then Ok(None) else Err(e);
    case Ok(interp) =>
      var path := ElfInterpreterPath(interp);
      if path.None? || path.value == [] {
        forall p
          ensures !IsInterpreterPath(p, interp)
        {
          PathOfIsThePath(interp, p);
        }
        return Ok(None);
      }
      PathOfIsThePath(interp, path.value);
      r := Ok(path);
  }

  /** What the scan of the table knows after `n` entries. */
  datatype Scan = Scan(hasLoad: bool, covered: bool, detected: Option<seq<byte>>)

  ghost predicate Scanned(host: Host, bytes: seq<byte>, segments: seq<Segment>, n: nat, entry: nat, scan: Scan)
    requires n <= |segments|
  {
    && scan.hasLoad == HasLoad(segments, n)
    && scan.covered == LoadsCover(segments, n, entry)
    && LoadsFit(host, segments, n)
    && (scan.detected.None? ==> NoInterp(segments, n))
    && (scan.detected.Some? ==> HoldsFirst(host, bytes, segments, n, scan.detected.value))
  }

  lemma ScanPasses(host: Host, bytes: seq<byte>, segments: seq<Segment>, n: nat, entry: nat, scan: Scan)
    requires n < |segments| && Scanned(host, bytes, segments, n, entry, scan)
    requires segments[n].kind != PT_LOAD && (segments[n].kind == PT_INTERP ==> scan.detected.Some?)
    ensures Scanned(host, bytes, segments, n + 1, entry, scan)
  {
  }

  lemma ScanLoads(host: Host, bytes: seq<byte>, segments: seq<Segment>, n: nat, entry: nat, scan: Scan)
    requires n < |segments| && Scanned(host, bytes, segments, n, entry, scan)
    requires segments[n].kind == PT_LOAD && LoadFits(host, segments[n])
    ensures Scanned(host, bytes, segments, n + 1, entry,
      Scan(true, scan.covered || Covers(segments[n], entry), scan.detected))
  {
  }

  lemma ScanDetects(host: Host, bytes: seq<byte>, segments: seq<Segment>, n: nat, entry: nat, scan: Scan,
      path: seq<byte>)
    requires n < |segments| && Scanned(host, bytes, segments, n, entry, scan) && scan.detected.None?
    requires segments[n].kind == PT_INTERP && InterpHolds(host, bytes, segments[n], path)
    ensures Scanned(host, bytes, segments, n + 1, entry, scan.(detected := Some(path)))
  {
    assert IsFirstInterp(segments, n);
  }

  lemma ScanRejects(host: Host, bytes: seq<byte>, segments: seq<Segment>, n: nat, entry: nat, scan: Scan)
    requires n < |segments| && Scanned(host, bytes, segments, n, entry, scan)
    requires
      || (segments[n].kind == PT_LOAD && !LoadFits(host, segments[n]))
      || (segments[n].kind == PT_INTERP && scan.detected.None?
          && forall path :: !InterpHolds(host, bytes, segments[n], path))
    ensures TableAnswers(host, bytes, segments, entry, Invalid)
  {
  }

  lemma ScanEnds(host: Host, bytes: seq<byte>, segments: seq<Segment>, entry: nat, scan: Scan)
    requires Scanned(host, bytes, segments, |segments|, entry, scan)
    ensures TableAnswers(host, bytes, segments, entry,
      if !scan.hasLoad || (scan.detected.None? && !scan.covered) then Invalid
      else if scan.detected.Some? then Interpreter(scan.detected.value) else NoInterpreter)
  {
  }

  /** `phdrs` is the table of these segments, so that the code's reads of it cannot fail. */
  ghost predicate TableHolds(host: Host, phdrs: seq<byte>, elfClass: Class, little: bool, segments: seq<Segment>) {
    && |phdrs| == |segments| * elfClass.EntryLen()
    && forall i :: 0 <= i < |segments| ==>
      EntryReads(host, phdrs, i * elfClass.EntryLen(), elfClass, little, segments[i])
  }

  ghost predicate EntryReads(host: Host, phdrs: seq<byte>, start: int, elfClass: Class, little: bool, s: Segment) {
    && 0 <= start
    && ReadNumber(host, phdrs, start, 4, little) == Some(s.kind)
    && ReadSegment(host, phdrs, start, s.kind, elfClass, little)
       == if s.offset <= host.usizeMax && s.filesz <= host.usizeMax then Some(s) else None
  }

  /** The loop over the program headers. */
  method ScanSegments(host: Host, bytes: seq<byte>, phdrs: seq<byte>, h: Header, elfClass: Class, little: bool,
      mayFail: bool, ghost segments: seq<Segment>)
    returns (r: Result<ElfInterpreter, IoError>)
    requires host.Valid() && |bytes| <= U64_MAX && h.phentsize == elfClass.EntryLen() && h.phnum == |segments|
    requires TableHolds(host, phdrs, elfClass, little, segments)
    ensures r.Ok? ==> TableAnswers(host, bytes, segments, h.entry, r.value)
    ensures r.Err? ==> mayFail && r.error == Failed
  {
    var hasLoad, covered, detected := false, false, None;
    for idx := 0 to h.phnum
      invariant Scanned(host, bytes, segments, idx, h.entry, Scan(hasLoad, covered, detected))
    {
      ghost var scan := Scan(hasLoad, covered, detected);
      var start := idx * h.phentsize;
      ghost var s := segments[idx];
      assert EntryReads(host, phdrs, start, elfClass, little, s);
      var kind := ReadNumber(host, phdrs, start, 4, little);
      if kind.None? {
        return Ok(Invalid);
      }
      if kind.value != PT_LOAD && kind.value != PT_INTERP {
        ScanPasses(host, bytes, segments, idx, h.entry, scan);
        continue;
      }
      if kind.value == PT_INTERP && detected.Some? {
        ScanPasses(host, bytes, segments, idx, h.entry, scan);
        continue;
      }
      var segment := ReadSegment(host, phdrs, start, kind.value, elfClass, little);
      if segment.None? {
        ScanRejects(host, bytes, segments, idx, h.entry, scan);
        return Ok(Invalid);
      }
      if kind.value == PT_LOAD {
        hasLoad := true;
        if !LoadSegmentIsValid(segment.value.filesz, segment.value.vaddr, segment.value.memsz) {
          ScanRejects(host, bytes, segments, idx, h.entry, scan);
          return Ok(Invalid);
        }
        if EntryIsInExecutableLoadSegment(h.entry, segment.value) {
          covered := true;
        }
        ScanLoads(host, bytes, segments, idx, h.entry, scan);
        continue;
      }
      var path := ReadInterpreter(host, bytes, segment.value, mayFail);
      if path.Err? {
        return Err(path.error);
      }
      if path.value.None? {
        ScanRejects(host, bytes, segments, idx, h.entry, scan);
        return Ok(Invalid);
      }
      detected := path.value;
      ScanDetects(host, bytes, segments, idx, h.entry, scan, detected.value);
    }
    ScanEnds(host, bytes, segments, h.entry, Scan(hasLoad, covered, detected));
    if !hasLoad || (detected.None? && !covered) {
      return Ok(Invalid);
    }
    r := Ok(if detected.Some? then Interpreter(detected.value) else NoInterpreter);
  }

  lemma TableIsThere(host: Host, bytes: seq<byte>, phdrs: seq<byte>)
    requires host.Valid() && Loadable(host, bytes)
    requires var h := HeaderOf(bytes, ClassOf(bytes).value, Little(bytes));
      |phdrs| == h.phentsize * h.phnum && (h.phnum > 0 ==> phdrs == bytes[h.phoff..h.phoff + |phdrs|])
    ensures TableHolds(host, phdrs, ClassOf(bytes).value, Little(bytes), Segments(host, bytes))
  {
    hide ReadNumber, ReadSegment, Number;
    var elfClass, little, segments := ClassOf(bytes).value, Little(bytes), Segments(host, bytes);
    var h := HeaderOf(bytes, elfClass, little);
    forall i | 0 <= i < |segments|
      ensures EntryReads(host, phdrs, i * elfClass.EntryLen(), elfClass, little, segments[i])
    {
      EntryInTable(i, h.phnum, elfClass.EntryLen());
      ReadSegmentReads(host, bytes, h.phoff, phdrs, i * elfClass.EntryLen(), elfClass, little);
    }
  }

  /** Reads the header: None when it makes the file invalid, whatever follows it. */
  method CheckHeader(host: Host, header: seq<byte>, ghost bytes: seq<byte>)
    returns (r: Option<(Class, bool, Header)>)
    requires host.Valid()
    requires header == bytes[..if HEADER_PREFIX_LEN <= |bytes| then HEADER_PREFIX_LEN else |bytes|]
    ensures r.None? ==> !Loadable(host, bytes)
    ensures r.Some? ==>
      var (elfClass, little, h) := r.value;
      && Identified(bytes) && elfClass == ClassOf(bytes).value && little == Little(bytes)
      && elfClass.HeaderLen() <= |bytes| && h == HeaderOf(bytes, elfClass, little)
      && h.phentsize == elfClass.EntryLen()
      && (Loadable(host, bytes) <==>
          && h.phentsize * h.phnum <= PROGRAM_HEADER_TABLE_MAX_LEN
          && (h.phnum > 0 ==> h.phoff + h.phentsize * h.phnum <= |bytes|))
  {
    if |header| < 0x34 || header[..4] != ELF_MAGIC {
      return None;
    }
    var little;
    match header[5] {
      case 1 => little := true;
      case 2 => little := false;
      case _ => return None;
    }
    if little != host.littleEndian {
      return None;
    }
    NumberInSlice(bytes, 0, |header|, 16, 2, little);
    NumberInSlice(bytes, 0, |header|, 18, 2, little);
    var fileType := ReadNumber(host, header, 16, 2, little);
    if fileType.None? || (fileType.value != ET_EXEC && fileType.value != ET_DYN) {
      return None;
    }
    var machine := ReadNumber(host, header, 18, 2, little);
    if machine.None? || !(host.machines == {} || machine.value in host.machines) {
      return None;
    }
    var elfClass;
    match header[4] {
      case 1 => elfClass := Elf32;
      case 2 => elfClass := Elf64;
      case _ => return None;
    }
    if |header| < elfClass.HeaderLen() {
      return None;
    }
    ReadHeaderReads(host, bytes, header, elfClass, little);
    var h := ReadHeader(host, header, elfClass, little);
    if h.None? || h.value.phentsize != elfClass.EntryLen() {
      return None;
    }
    r := Some((elfClass, little, h.value));
  }

  /** Where reads do not fail there is always an answer. */
  method ReadElfInterpreterFromFile(host: Host, bytes: seq<byte>, mayFail: bool)
    returns (r: Result<ElfInterpreter, IoError>)
    requires host.Valid() && |bytes| <= U64_MAX
    ensures r.Ok? ==> Answers(host, bytes, r.value)
    ensures r.Err? ==> mayFail && r.error == Failed
  {
    var header := ReadFilePrefix(bytes, HEADER_PREFIX_LEN, mayFail);
    if header.Err? {
      return Err(header.error);
    }
    var checked := CheckHeader(host, header.value, bytes);
    if checked.None? {
      return Ok(Invalid);
    }
    var (elfClass, little, h) := checked.value;
    var phdrLen := h.phentsize * h.phnum;
    if phdrLen > host.usizeMax || phdrLen > PROGRAM_HEADER_TABLE_MAX_LEN {
      return Ok(Invalid);
    }
    var phdrs := ReadExactFileAt(bytes, phdrLen, h.phoff, mayFail);
    if phdrs.Err? {
      return if IsInvalid(phdrs.error) then Ok(Invalid) else Err(phdrs.error);
    }
    TableIsThere(host, bytes, phdrs.value);
    var inspected: bool := *;
    if mayFail && !inspected {
      return Err(Failed);
    }
    r := ScanSegments(host, bytes, phdrs.value, h, elfClass, little, mayFail, Segments(host, bytes));
  }

  // ---------------------------------------------------------------- the parser of a whole buffer

  datatype ParseError =
    | ReadOutOfBounds
    | EntryTooSmall
    | OffsetOverflow
    | HeaderExceedsFile
    | SegmentOverflow
    | SegmentExceedsFile
    | NotTerminated
    | NotUtf8

  type Parsed = Result<Option<seq<byte>>, ParseError>

  /** What the parser answers once it has found a PT_INTERP. */
  function ParseInterp(host: Host, utf8: seq<byte> -> bool, bytes: seq<byte>, offset: nat, filesz: nat): Parsed {
    if offset + filesz > host.usizeMax then Err(SegmentOverflow)
    else if offset + filesz > |bytes| then Err(SegmentExceedsFile)
    else
      match PathOf(bytes[offset..offset + filesz])
      case None => Err(NotTerminated)
      case Some(path) => if !utf8(path) then Err(NotUtf8) else Ok(if path == [] then None else Some(path))
  }

  /** What the parser answers at one entry, or None where it goes on. */
  function ParseEntry(host: Host, utf8: seq<byte> -> bool, bytes: seq<byte>, start: nat, phentsize: nat,
      elfClass: Class, little: bool): Option<Parsed>
  {
    if start + phentsize > host.usizeMax then Some(Err(OffsetOverflow))
    else if start + phentsize > |bytes| then Some(Err(HeaderExceedsFile))
    else
      match ReadNumber(host, bytes, start, 4, little)
      case None => Some(Err(ReadOutOfBounds))
      case Some(kind) =>
        if kind != PT_INTERP then None
        else
          var offset := ReadUsize(host, bytes, start + elfClass.OffsetAt(), elfClass.Word(), little);
          var filesz := ReadUsize(host, bytes, start + elfClass.FileszAt(), elfClass.Word(), little);
          Some(
            if offset.None? || filesz.None? then Err(ReadOutOfBounds)
            else ParseInterp(host, utf8, bytes, offset.value, filesz.value))
  }

  /** What the parser answers from the entry `idx` on. */
  function ParseFrom(host: Host, utf8: seq<byte> -> bool, bytes: seq<byte>, h: Header, elfClass: Class, little: bool,
      idx: nat): Parsed
    requires idx <= h.phnum
    decreases h.phnum - idx
  {
    if idx == h.phnum then Ok(None)
    else
      match ParseEntry(host, utf8, bytes, h.phoff + idx * h.phentsize, h.phentsize, elfClass, little)
      case Some(parsed) => parsed
      case None => ParseFrom(host, utf8, bytes, h, elfClass, little, idx + 1)
  }

  function Parse(host: Host, utf8: seq<byte> -> bool, bytes: seq<byte>): Parsed {
    if !Identified(bytes) then Ok(None)
    else
      var elfClass, little := ClassOf(bytes).value, Little(bytes);
      var phoff := ReadUsize(host, bytes, elfClass.PhoffAt(), elfClass.Word(), little);
      var phentsize := ReadNumber(host, bytes, elfClass.PhentsizeAt(), 2, little);
      var phnum := ReadNumber(host, bytes, elfClass.PhnumAt(), 2, little);
      if phoff.None? || phentsize.None? || phnum.None? then Err(ReadOutOfBounds)
      else if phentsize.value < elfClass.EntryLen() then Err(EntryTooSmall)
      else ParseFrom(host, utf8, bytes, Header(phoff.value, phentsize.value, phnum.value, 0), elfClass, little, 0)
  }

  method ParseInterpreterSegment(host: Host, utf8: seq<byte> -> bool, bytes: seq<byte>, offset: nat, filesz: nat)
    returns (r: Parsed)
    ensures r == ParseInterp(host, utf8, bytes, offset, filesz)
  {
    var end := offset + filesz;
    if end > host.usizeMax {
      return Err(SegmentOverflow);
    }
    if end > |bytes| {
      return Err(SegmentExceedsFile);
    }
    var path := ElfInterpreterPath(bytes[offset..end]);
    if path.None? {
      return Err(NotTerminated);
    }
    if !utf8(path.value) {
      return Err(NotUtf8);
    }
    r := Ok(if path.value == [] then None else Some(path.value));
  }

  /** One turn of the loop, with the additions checked one by one as the code does. */
  method ParseProgramHeader(host: Host, utf8: seq<byte> -> bool, bytes: seq<byte>, phoff: nat, phentsize: nat,
      idx: nat, elfClass: Class, little: bool)
    returns (r: Option<Parsed>)
    ensures r == ParseEntry(host, utf8, bytes, phoff + idx * phentsize, phentsize, elfClass, little)
  {
    var skipped := idx * phentsize;
    if skipped > host.usizeMax || phoff + skipped > host.usizeMax {
      return Some(Err(OffsetOverflow));
    }
    var start := phoff + skipped;
    if start + phentsize > host.usizeMax {
      return Some(Err(OffsetOverflow));
    }
    if start + phentsize > |bytes| {
      return Some(Err(HeaderExceedsFile));
    }
    var kind := ReadNumber(host, bytes, start, 4, little);
    if kind.None? {
      return Some(Err(ReadOutOfBounds));
    }
    if kind.value != PT_INTERP {
      return None;
    }
    var offset := ReadUsize(host, bytes, start + elfClass.OffsetAt(), elfClass.Word(), little);
    var filesz := ReadUsize(host, bytes, start + elfClass.FileszAt(), elfClass.Word(), little);
    if offset.None? || filesz.None? {
      return Some(Err(ReadOutOfBounds));
    }
    var parsed := ParseInterpreterSegment(host, utf8, bytes, offset.value, filesz.value);
    r := Some(parsed);
  }

  method ParseElfInterpreter(host: Host, utf8: seq<byte> -> bool, bytes: seq<byte>) returns (r: Parsed)
    ensures r == Parse(host, utf8, bytes)
  {
    if |bytes| < 0x34 || bytes[..4] != ELF_MAGIC {
      return Ok(None);
    }
    if bytes[5] != 1 && bytes[5] != 2 {
      return Ok(None);
    }
    var little := bytes[5] == 1;
    var identified := ClassOf(bytes);
    if identified.None? {
      return Ok(None);
    }
    var elfClass := identified.value;
    var phoff := ReadUsize(host, bytes, elfClass.PhoffAt(), elfClass.Word(), little);
    var phentsize := ReadNumber(host, bytes, elfClass.PhentsizeAt(), 2, little);
    var phnum := ReadNumber(host, bytes, elfClass.PhnumAt(), 2, little);
    if phoff.None? || phentsize.None? || phnum.None? {
      return Err(ReadOutOfBounds);
    }
    if phentsize.value < elfClass.EntryLen() {
      return Err(EntryTooSmall);
    }
    var h := Header(phoff.value, phentsize.value, phnum.value, 0);
    r := ParseProgramHeaders(host, utf8, bytes, h, elfClass, little);
  }

  method ParseProgramHeaders(host: Host, utf8: seq<byte> -> bool, bytes: seq<byte>, h: Header, elfClass: Class,
      little: bool)
    returns (r: Parsed)
    ensures r == ParseFrom(host, utf8, bytes, h, elfClass, little, 0)
  {
    for idx := 0 to h.phnum
      invariant ParseFrom(host, utf8, bytes, h, elfClass, little, 0)
             == ParseFrom(host, utf8, bytes, h, elfClass, little, idx)
    {
      var parsed := ParseProgramHeader(host, utf8, bytes, h.phoff, h.phentsize, idx, elfClass, little);
      if parsed.Some? {
        return parsed.value;
      }
    }
    r := Ok(None);
  }

  // ---------------------------------------------------------------- both give one answer

  ghost predicate EntryParses(host: Host, utf8: seq<byte> -> bool, bytes: seq<byte>, start: int, elfClass: Class,
      little: bool, s: Segment)
  {
    && 0 <= start
    && ParseEntry(host, utf8, bytes, start, elfClass.EntryLen(), elfClass, little)
       == if s.kind != PT_INTERP then None
          else if s.offset > host.usizeMax || s.filesz > host.usizeMax then Some(Err(ReadOutOfBounds))
          else Some(ParseInterp(host, utf8, bytes, s.offset, s.filesz))
  }

  lemma EntryInBufferParses(host: Host, utf8: seq<byte> -> bool, bytes: seq<byte>, start: nat, elfClass: Class,
      little: bool)
    requires host.Valid() && |bytes| <= host.usizeMax && start + elfClass.EntryLen() <= |bytes|
    ensures EntryParses(host, utf8, bytes, start, elfClass, little, SegmentAt(bytes, start, elfClass, little))
  {
    assert bytes == bytes[0..|bytes|];
    ReadNumberReads(host, bytes, 0, bytes, start, 0, 4, little);
    ReadUsizeReads(host, bytes, 0, bytes, start, elfClass.OffsetAt(), elfClass.Word(), little);
    ReadUsizeReads(host, bytes, 0, bytes, start, elfClass.FileszAt(), elfClass.Word(), little);
  }

  ghost predicate TableParses(host: Host, utf8: seq<byte> -> bool, bytes: seq<byte>, h: Header, elfClass: Class,
      little: bool, segments: seq<Segment>)
  {
    && h.phentsize == elfClass.EntryLen() && h.phnum == |segments|
    && forall i :: 0 <= i < |segments| ==>
      EntryParses(host, utf8, bytes, h.phoff + i * h.phentsize, elfClass, little, segments[i])
  }

  lemma {:induction false} ParsesToFirst(host: Host, utf8: seq<byte> -> bool, bytes: seq<byte>, h: Header,
      elfClass: Class, little: bool, segments: seq<Segment>, idx: nat, first: nat)
    requires TableParses(host, utf8, bytes, h, elfClass, little, segments)
    requires idx <= first <= |segments| && NoInterp(segments, first)
    requires first < |segments| ==> IsFirstInterp(segments, first)
    ensures ParseFrom(host, utf8, bytes, h, elfClass, little, idx)
         == ParseFrom(host, utf8, bytes, h, elfClass, little, first)
    decreases first - idx
  {
    hide ParseEntry, ParseInterp;
    if idx < first {
      assert EntryParses(host, utf8, bytes, h.phoff + idx * h.phentsize, elfClass, little, segments[idx]);
      ParsesToFirst(host, utf8, bytes, h, elfClass, little, segments, idx + 1, first);
    }
  }

  lemma ParseInterpHolds(host: Host, utf8: seq<byte> -> bool, bytes: seq<byte>, s: Segment, path: seq<byte>)
    requires |bytes| <= host.usizeMax && InterpHolds(host, bytes, s, path)
    ensures ParseInterp(host, utf8, bytes, s.offset, s.filesz) == if utf8(path) then Ok(Some(path)) else Err(NotUtf8)
  {
    PathOfIsThePath(bytes[s.offset..s.offset + s.filesz], path);
  }

  lemma ParseFindsPath(host: Host, utf8: seq<byte> -> bool, bytes: seq<byte>, h: Header, elfClass: Class,
      little: bool, segments: seq<Segment>, path: seq<byte>)
    requires host.Valid() && TableParses(host, utf8, bytes, h, elfClass, little, segments)
    requires |bytes| <= host.usizeMax && HoldsFirst(host, bytes, segments, |segments|, path)
    ensures ParseFrom(host, utf8, bytes, h, elfClass, little, 0)
         == if utf8(path) then Ok(Some(path)) else Err(NotUtf8)
  {
    var i: nat :| i < |segments| && IsFirstInterp(segments, i) && InterpHolds(host, bytes, segments[i], path);
    ParsesToFirst(host, utf8, bytes, h, elfClass, little, segments, 0, i);
    ParseInterpHolds(host, utf8, bytes, segments[i], path);
    assert EntryParses(host, utf8, bytes, h.phoff + i * h.phentsize, elfClass, little, segments[i]);
  }

  lemma ParseReadsHeader(host: Host, utf8: seq<byte> -> bool, bytes: seq<byte>)
    requires host.Valid() && Loadable(host, bytes)
    ensures var elfClass, little := ClassOf(bytes).value, Little(bytes);
      Parse(host, utf8, bytes)
      == ParseFrom(host, utf8, bytes, HeaderOf(bytes, elfClass, little).(entry := 0), elfClass, little, 0)
  {
    hide ReadNumber, ReadUsize, ParseFrom, Number;
    ReadHeaderReads(host, bytes, bytes, ClassOf(bytes).value, Little(bytes));
  }

  lemma ParseReadsTable(host: Host, utf8: seq<byte> -> bool, bytes: seq<byte>)
    requires host.Valid() && |bytes| <= host.usizeMax && Loadable(host, bytes)
    ensures var elfClass, little := ClassOf(bytes).value, Little(bytes);
      var h := HeaderOf(bytes, elfClass, little).(entry := 0);
      TableParses(host, utf8, bytes, h, elfClass, little, Segments(host, bytes))
  {
    hide ParseEntry, Number;
    var elfClass, little := ClassOf(bytes).value, Little(bytes);
    var h := HeaderOf(bytes, elfClass, little);
    forall i | 0 <= i < h.phnum
      ensures EntryParses(host, utf8, bytes, h.phoff + i * h.phentsize, elfClass, little, Segments(host, bytes)[i])
    {
      EntryInTable(i, h.phnum, h.phentsize);
      EntryInBufferParses(host, utf8, bytes, h.phoff + i * h.phentsize, elfClass, little);
    }
  }

  /** Whatever the reader for policies accepts, the other parser answers in the same way: the same
      path, provided it is UTF-8, or none. */
  lemma ParsersAgree(host: Host, utf8: seq<byte> -> bool, bytes: seq<byte>, answer: ElfInterpreter)
    requires host.Valid() && |bytes| <= host.usizeMax && Answers(host, bytes, answer) && !answer.Invalid?
    ensures Parse(host, utf8, bytes) ==
      match answer
      case Interpreter(path) => if utf8(path) then Ok(Some(path)) else Err(NotUtf8)
      case _ => Ok(None)
  {
    ParseReadsHeader(host, utf8, bytes);
    ParseReadsTable(host, utf8, bytes);
    var elfClass, little, segments := ClassOf(bytes).value, Little(bytes), Segments(host, bytes);
    var h := HeaderOf(bytes, elfClass, little).(entry := 0);
    if answer.Interpreter? {
      ParseFindsPath(host, utf8, bytes, h, elfClass, little, segments, answer.path);
    } else {
      ParsesToFirst(host, utf8, bytes, h, elfClass, little, segments, 0, |segments|);
    }
  }
}
