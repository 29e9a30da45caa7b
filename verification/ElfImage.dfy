/** When exec succeeds, and what it loads. */
module ElfImage {
  // ELF files are written down byte by byte, from the layouts of the System V gABI (chapters 4 and 5),
  // and exec is related to the fields written.

  import opened Words
  import opened FileSystem
  import opened Loader

  type u16 = x: nat | x < 0x1_0000

  // ------------------------------------------------------------------ the layout

  /** Least significant byte first. */
  function Half(n: u16): (b: seq<u8>)
    ensures |b| == 2
  {
    [n % 256, n / 256]
  }

  function Word(n: u32): (b: seq<u8>)
    ensures |b| == 4
  {
    [n % 256, n / 256 % 256, n / 65536 % 256, n / 16777216]
  }

  datatype FileHeader = FileHeader(e_ident: seq<u8>, e_type: u16, e_machine: u16, e_version: u32, e_entry: u32,
                                   e_phoff: u32, e_shoff: u32, e_flags: u32, e_ehsize: u16, e_phentsize: u16,
                                   e_phnum: u16, e_shentsize: u16, e_shnum: u16, e_shstrndx: u16)

  function FileHeaderBytes(h: FileHeader): (b: seq<u8>)
    requires |h.e_ident| == 16
    ensures |b| == EHDR_SIZE
  {
    h.e_ident + Half(h.e_type) + Half(h.e_machine) + Word(h.e_version) + Word(h.e_entry) + Word(h.e_phoff)
    + Word(h.e_shoff) + Word(h.e_flags) + Half(h.e_ehsize) + Half(h.e_phentsize) + Half(h.e_phnum)
    + Half(h.e_shentsize) + Half(h.e_shnum) + Half(h.e_shstrndx)
  }

  datatype ProgramHeader = ProgramHeader(p_type: u32, p_offset: u32, p_vaddr: u32, p_paddr: u32, p_filesz: u32,
                                         p_memsz: u32, p_flags: u32, p_align: u32)

  function ProgramHeaderBytes(s: ProgramHeader): (b: seq<u8>)
    ensures |b| == PHDR_SIZE
  {
    Word(s.p_type) + Word(s.p_offset) + Word(s.p_vaddr) + Word(s.p_paddr) + Word(s.p_filesz) + Word(s.p_memsz)
    + Word(s.p_flags) + Word(s.p_align)
  }

  function TableBytes(ss: seq<ProgramHeader>): (b: seq<u8>)
    ensures |b| == PHDR_SIZE * |ss|
  {
    if ss == [] then [] else TableBytes(ss[..|ss| - 1]) + ProgramHeaderBytes(ss[|ss| - 1])
  }

  /** A file: header, program headers, and everything after them. */
  function FileBytes(h: FileHeader, ss: seq<ProgramHeader>, rest: seq<u8>): (b: seq<u8>)
    requires |h.e_ident| == 16
    ensures |b| == EHDR_SIZE + PHDR_SIZE * |ss| + |rest|
  {
    FileHeaderBytes(h) + TableBytes(ss) + rest
  }

  // ------------------------------------------------------------------ headers are read as written

  lemma HalfReads(n: u16, b: seq<u8>, i: nat)
    requires i + 2 <= |b| && b[i..i + 2] == Half(n)
    ensures U16(b, i) == n
  {
    assert b[i] == Half(n)[0] && b[i + 1] == Half(n)[1];
  }

  lemma WordReads(n: u32, b: seq<u8>, i: nat)
    requires i + 4 <= |b| && b[i..i + 4] == Word(n)
    ensures U32(b, i) == n
  {
    assert b[i] == Word(n)[0] && b[i + 1] == Word(n)[1] && b[i + 2] == Word(n)[2] && b[i + 3] == Word(n)[3];
    assert U16(b, i) == n % 65536 && U16(b, i + 2) == n / 65536;
  }

  lemma FileHeaderReads(h: FileHeader)
    requires |h.e_ident| == 16
    ensures EhdrOf(FileHeaderBytes(h)) == Ehdr(h.e_ident, h.e_type, h.e_machine, h.e_version, h.e_entry, h.e_phoff,
                                               h.e_phentsize, h.e_phnum)
  {
    hide Half, Word, U16, U32;
    var b := FileHeaderBytes(h);
    assert b[..16] == h.e_ident;
    assert b[16..18] == Half(h.e_type) && b[18..20] == Half(h.e_machine);
    assert b[20..24] == Word(h.e_version) && b[24..28] == Word(h.e_entry) && b[28..32] == Word(h.e_phoff);
    assert b[42..44] == Half(h.e_phentsize) && b[44..46] == Half(h.e_phnum);
    hide FileHeaderBytes;
    HalfReads(h.e_type, b, 16);
    HalfReads(h.e_machine, b, 18);
    WordReads(h.e_version, b, 20);
    WordReads(h.e_entry, b, 24);
    WordReads(h.e_phoff, b, 28);
    HalfReads(h.e_phentsize, b, 42);
    HalfReads(h.e_phnum, b, 44);
  }

  /** What exec keeps of a program header. */
  function Kept(s: ProgramHeader): Phdr {
    Phdr(s.p_type, s.p_offset, s.p_vaddr, s.p_filesz, s.p_memsz)
  }

  lemma ProgramHeaderReads(s: ProgramHeader)
    ensures PhdrOf(ProgramHeaderBytes(s)) == Kept(s)
  {
    hide Word, U32;
    var b := ProgramHeaderBytes(s);
    assert b[0..4] == Word(s.p_type) && b[4..8] == Word(s.p_offset) && b[8..12] == Word(s.p_vaddr);
    assert b[16..20] == Word(s.p_filesz) && b[20..24] == Word(s.p_memsz);
    hide ProgramHeaderBytes;
    WordReads(s.p_type, b, 0);
    WordReads(s.p_offset, b, 4);
    WordReads(s.p_vaddr, b, 8);
    WordReads(s.p_filesz, b, 16);
    WordReads(s.p_memsz, b, 20);
  }

  lemma {:induction false} TableAt(ss: seq<ProgramHeader>, i: nat)
    requires i < |ss|
    ensures TableBytes(ss)[PHDR_SIZE * i..PHDR_SIZE * i + PHDR_SIZE] == ProgramHeaderBytes(ss[i])
    decreases ss
  {
    hide ProgramHeaderBytes;
    var n := |ss| - 1;
    var (before, last) := (TableBytes(ss[..n]), ProgramHeaderBytes(ss[n]));
    if i < n {
      TableAt(ss[..n], i);
      var at := PHDR_SIZE * i;
      assert (before + last)[at..at + PHDR_SIZE] == before[at..at + PHDR_SIZE];
    }
  }

  /** The i-th program header of a file is read as written. */
  lemma HeaderAt(h: FileHeader, ss: seq<ProgramHeader>, rest: seq<u8>, i: nat)
    requires |h.e_ident| == 16 && i < |ss|
    ensures var (file, at) := (FileBytes(h, ss, rest), EHDR_SIZE + PHDR_SIZE * i);
            at + PHDR_SIZE <= |file| && PhdrOf(file[at..at + PHDR_SIZE]) == Kept(ss[i])
  {
    hide PhdrOf, FileHeaderBytes, TableBytes, ProgramHeaderBytes;
    TableAt(ss, i);
    ProgramHeaderReads(ss[i]);
    var (file, at, table) := (FileBytes(h, ss, rest), EHDR_SIZE + PHDR_SIZE * i, TableBytes(ss));
    assert file[at..at + PHDR_SIZE] == table[PHDR_SIZE * i..PHDR_SIZE * i + PHDR_SIZE];
  }

  // ------------------------------------------------------------------ when exec succeeds

  predicate Inside(start: int, size: int) {
    0x4000_0000 <= start && start + size <= 0x4010_0000
  }

  /** A 32-bit little-endian ARM executable of version 1 whose program headers follow the file header,
      entered inside the window. */
  predicate Accepted(h: FileHeader) {
    && |h.e_ident| == 16 && h.e_ident[0] == 0x7F && h.e_ident[1] == 'E' as int && h.e_ident[2] == 'L' as int
    && h.e_ident[3] == 'F' as int && h.e_ident[4] == 1 && h.e_ident[5] == 1
    && h.e_type == 2 && h.e_machine == 40 && h.e_version == 1
    && h.e_phentsize == 32 && h.e_phnum > 0 && h.e_phoff == 52 && Inside(h.e_entry, 4)
  }

  predicate IsLoad(s: ProgramHeader) {
    s.p_type == 1
  }

  /** The segment's memory is inside the window and holds its bytes, which are in the file. */
  predicate Fits(s: ProgramHeader, size: nat) {
    s.p_filesz <= s.p_memsz && Inside(s.p_vaddr, s.p_memsz) && s.p_offset as int + s.p_filesz as int <= size
  }

  predicate AllFit(ss: seq<ProgramHeader>, size: nat) {
    forall i :: 0 <= i < |ss| && IsLoad(ss[i]) ==> Fits(ss[i], size)
  }

  /** No loadable segment covers a byte of the path. */
  predicate OffPath(ss: seq<ProgramHeader>, p: u32) {
    forall i :: 0 <= i < |ss| && IsLoad(ss[i]) ==>
      p as int + MAX_PATH <= ss[i].p_vaddr || ss[i].p_vaddr as int + ss[i].p_memsz as int <= p
  }

  /** The loadable segments from the i-th on. */
  function LoadsOf(ss: seq<ProgramHeader>, i: nat): seq<Phdr>
    requires i <= |ss|
    decreases |ss| - i
  {
    if i == |ss| then [] else (if IsLoad(ss[i]) then [Kept(ss[i])] else []) + LoadsOf(ss, i + 1)
  }

  lemma AcceptedExactly(h: FileHeader)
    requires |h.e_ident| == 16
    ensures HeaderCode(EhdrOf(FileHeaderBytes(h))) == E_OK <==> Accepted(h)
  {
    FileHeaderReads(h);
    hide EhdrOf, FileHeaderBytes;
    PointerOkExactly(h.e_entry, 4);
    hide PointerOk;
    var magic := h.e_ident[..4];
    assert magic == [0x7F, 69, 76, 70] <==>
             magic[0] == 0x7F && magic[1] == 69 && magic[2] == 76 && magic[3] == 70;
  }

  lemma FitsExactly(data: seq<u8>, s: ProgramHeader)
    ensures Loadable(data, Kept(s)) <==> Fits(s, |data|)
  {
    PointerOkExactly(s.p_vaddr, s.p_memsz);
    hide PointerOk;
  }

  /** The i-th header, when its bytes are there: skipped, loaded, or refused. */
  lemma OneHeaderMeans(env: Env, h: FileHeader, ss: seq<ProgramHeader>, rest: seq<u8>, user: Window, p: u32, i: nat)
    requires |h.e_ident| == 16 && i < |ss| && PointerOk(p, MAX_PATH)
    requires var file := FileBytes(h, ss, rest);
             OpenIn(env, PathAt(user, p), 0) == (file, E_OK)
    ensures var file := FileBytes(h, ss, rest);
            var (user', code) := OneHeader(env, file, user, p, i);
            if !IsLoad(ss[i]) then user' == user && code == E_OK
            else
              && (code == E_OK <==> Fits(ss[i], |file|) && env.free >= 2)
              && (code == E_OK ==> Loadable(file, Kept(ss[i])) && user' == LoadOne(user, file, Kept(ss[i])))
  {
    var file := FileBytes(h, ss, rest);
    HeaderAt(h, ss, rest, i);
    FitsExactly(file, ss[i]);
    hide PhdrOf, FileBytes, PathAt, Find, PointerOk, LoadOne, LoadPart, Fits;
  }

  /** The loop over the headers, from the i-th on. */
  lemma {:induction false} SegmentsMean(env: Env, h: FileHeader, ss: seq<ProgramHeader>, rest: seq<u8>, user: Window,
                                        p: u32, i: nat)
    requires |h.e_ident| == 16 && i <= |ss| <= h.e_phnum && (|ss| < h.e_phnum ==> |rest| < PHDR_SIZE)
    requires PointerOk(p, MAX_PATH) && OffPath(ss, p)
    requires OpenIn(env, PathAt(user, p), 0) == (FileBytes(h, ss, rest), E_OK)
    ensures var file := FileBytes(h, ss, rest);
            var r := Segments(env, file, user, p, i, EhdrOf(FileHeaderBytes(h)));
            && (r.code == E_OK <==>
                  |ss| == h.e_phnum && AllFit(ss[i..], |file|) && (LoadsOf(ss, i) != [] ==> env.free >= 2))
            && (r.code == E_OK ==>
                  && AllLoadable(file, LoadsOf(ss, i))
                  && r == Result(LoadAll(user, file, LoadsOf(ss, i)), E_OK, h.e_entry))
    decreases |ss| - i
  {
    hide PointerOk, PathAt, Find, OpenIn, Loadable, LoadOne, Fits, FileBytes, EhdrOf, FileHeaderBytes, Apart;
    FileHeaderReads(h);
    var file := FileBytes(h, ss, rest);
    if i < |ss| {
      OneHeaderMeans(env, h, ss, rest, user, p, i);
      var s := ss[i];
      assert ss[i..][0] == s && ss[i..][1..] == ss[i + 1..];
      FitFirst(ss[i..], |file|);
      if !IsLoad(s) {
        assert [] + LoadsOf(ss, i + 1) == LoadsOf(ss, i + 1);
        SegmentsMean(env, h, ss, rest, user, p, i + 1);
      } else if OneHeader(env, file, user, p, i).1 == E_OK {
        PathOff(user, file, ss, i, p);
        SegmentsMean(env, h, ss, rest, LoadOne(user, file, Kept(s)), p, i + 1);
        if AllLoadable(file, LoadsOf(ss, i + 1)) {
          LoadsCons(user, file, Kept(s), LoadsOf(ss, i + 1));
        }
      }
    } else {
      EndOfTable(env, h, ss, rest, user, p);
    }
  }

  lemma FitFirst(ss: seq<ProgramHeader>, size: nat)
    requires ss != []
    ensures AllFit(ss, size) <==> (IsLoad(ss[0]) ==> Fits(ss[0], size)) && AllFit(ss[1..], size)
  {
    hide Fits, IsLoad;
    assert forall k :: 0 < k < |ss| ==> ss[k] == ss[1..][k - 1];
  }

  lemma PathOff(user: Window, file: seq<u8>, ss: seq<ProgramHeader>, i: nat, p: u32)
    requires i < |ss| && OffPath(ss, p) && IsLoad(ss[i]) && PointerOk(p, MAX_PATH) && Loadable(file, Kept(ss[i]))
    ensures PathAt(LoadOne(user, file, Kept(ss[i])), p) == PathAt(user, p)
  {
    assert Apart(p, Kept(ss[i]));
    PathKept(user, file, Kept(ss[i]), p);
  }

  /** Past the last header that is there. */
  lemma EndOfTable(env: Env, h: FileHeader, ss: seq<ProgramHeader>, rest: seq<u8>, user: Window, p: u32)
    requires |h.e_ident| == 16 && |ss| <= h.e_phnum && (|ss| < h.e_phnum ==> |rest| < PHDR_SIZE)
    requires PointerOk(p, MAX_PATH)
    ensures var r := Segments(env, FileBytes(h, ss, rest), user, p, |ss|, EhdrOf(FileHeaderBytes(h)));
            if |ss| == h.e_phnum then r == Result(user, E_OK, h.e_entry) else r.code == E_FAIL
  {
    FileHeaderReads(h);
    hide PointerOk, FileBytes, EhdrOf, FileHeaderBytes;
  }

  /** exec answers E_OK if and only if the path lies in the window and names a file, a descriptor is
      free, the file header is an accepted one, all program headers are there, and every loadable
      segment lies in the window and in the file, with a second descriptor free if there is one. Then
      memory is the fold of the loadable segments, in header order, as their headers were written. */
  lemma ExecExactly(env: Env, user: Window, p: u32, h: FileHeader, ss: seq<ProgramHeader>, rest: seq<u8>)
    requires |h.e_ident| == 16 && |ss| <= h.e_phnum && (|ss| < h.e_phnum ==> |rest| < PHDR_SIZE) && OffPath(ss, p)
    requires Inside(p, MAX_PATH) && Find(env.files, PathIn(user, p)).Some?
    requires env.files[Find(env.files, PathIn(user, p)).value].data == FileBytes(h, ss, rest)
    ensures var (file, x) := (FileBytes(h, ss, rest), Exec(env, user, p));
            && (x.code == E_OK <==>
                  && env.rooted && env.free >= 1 && Accepted(h) && |ss| == h.e_phnum && AllFit(ss, |file|)
                  && (LoadsOf(ss, 0) != [] ==> env.free >= 2))
            && (x.code == E_OK ==>
                  && AllLoadable(file, LoadsOf(ss, 0))
                  && x == Result(LoadAll(user, file, LoadsOf(ss, 0)), E_OK, h.e_entry))
  {
    PathIs(user, p);
    var file := FileBytes(h, ss, rest);
    assert file[..EHDR_SIZE] == FileHeaderBytes(h);
    AcceptedExactly(h);
    assert ss[0..] == ss;
    hide PathAt, PathIn, Find, PointerOk, FileBytes, FileHeaderBytes, EhdrOf, HeaderCode, Accepted, Segments, AllFit,
         LoadsOf;
    if env.rooted && env.free >= 1 {
      SegmentsMean(env, h, ss, rest, user, p, 0);
    }
  }

  /** The path: the bytes before the first zero of the buffer. */
  function PathIn(user: Window, p: u32): seq<u8>
    requires Inside(p, MAX_PATH)
  {
    CString(user[p - 0x4000_0000..p - 0x4000_0000 + MAX_PATH])
  }

  lemma PathIs(user: Window, p: u32)
    requires Inside(p, MAX_PATH)
    ensures PointerOk(p, MAX_PATH) && PathAt(user, p) == PathIn(user, p)
  {
    PointerOkExactly(p, MAX_PATH);
  }

  /** A path outside the window, one that names no file, and a file too short for a header are refused. */
  lemma ExecRefuses(env: Env, user: Window, p: u32)
    requires Inside(p, MAX_PATH) ==>
               var f := Find(env.files, PathIn(user, p));
               f.None? || |env.files[f.value].data| < 52
    ensures Exec(env, user, p).code != E_OK && Exec(env, user, p).user == user
  {
    PointerOkExactly(p, MAX_PATH);
    if Inside(p, MAX_PATH) {
      PathIs(user, p);
    }
    hide PathAt, PathIn, Find, PointerOk;
  }

  // ------------------------------------------------------------------ every file has a layout

  lemma HalfOf(b: seq<u8>, i: nat)
    requires i + 2 <= |b|
    ensures Half(U16(b, i)) == b[i..i + 2]
  {
  }

  lemma WordOf(b: seq<u8>, i: nat)
    requires i + 4 <= |b|
    ensures Word(U32(b, i)) == b[i..i + 4]
  {
    var (low, high) := (U16(b, i), U16(b, i + 2));
    var n := low + 0x1_0000 * high;
    assert n % 65536 == low && n / 65536 == high;
    assert n % 256 == low % 256 && n / 256 % 256 == low / 256;
    assert n / 65536 % 256 == high % 256 && n / 16777216 == high / 256;
    HalfOf(b, i);
    HalfOf(b, i + 2);
    assert Half(low) + Half(high) == b[i..i + 4];
  }

  /** Any 52 bytes are some file header. */
  lemma SomeFileHeader(b: seq<u8>) returns (h: FileHeader)
    requires |b| == EHDR_SIZE
    ensures |h.e_ident| == 16 && FileHeaderBytes(h) == b
  {
    hide Half, Word, U16, U32;
    h := FileHeader(b[..16], U16(b, 16), U16(b, 18), U32(b, 20), U32(b, 24), U32(b, 28), U32(b, 32), U32(b, 36),
                    U16(b, 40), U16(b, 42), U16(b, 44), U16(b, 46), U16(b, 48), U16(b, 50));
    HalfOf(b, 16);
    HalfOf(b, 18);
    WordOf(b, 20);
    WordOf(b, 24);
    WordOf(b, 28);
    WordOf(b, 32);
    WordOf(b, 36);
    HalfOf(b, 40);
    HalfOf(b, 42);
    HalfOf(b, 44);
    HalfOf(b, 46);
    HalfOf(b, 48);
    HalfOf(b, 50);
    assert b == b[..16] + b[16..18] + b[18..20] + b[20..24] + b[24..28] + b[28..32] + b[32..36] + b[36..40]
                + b[40..42] + b[42..44] + b[44..46] + b[46..48] + b[48..50] + b[50..52];
  }

  lemma SomeProgramHeader(b: seq<u8>) returns (s: ProgramHeader)
    requires |b| == PHDR_SIZE
    ensures ProgramHeaderBytes(s) == b
  {
    hide Word, U32;
    s := ProgramHeader(U32(b, 0), U32(b, 4), U32(b, 8), U32(b, 12), U32(b, 16), U32(b, 20), U32(b, 24), U32(b, 28));
    WordOf(b, 0);
    WordOf(b, 4);
    WordOf(b, 8);
    WordOf(b, 12);
    WordOf(b, 16);
    WordOf(b, 20);
    WordOf(b, 24);
    WordOf(b, 28);
    assert b == b[0..4] + b[4..8] + b[8..12] + b[12..16] + b[16..20] + b[20..24] + b[24..28] + b[28..32];
  }

  lemma {:induction false} SomeTable(b: seq<u8>, n: nat) returns (ss: seq<ProgramHeader>, rest: seq<u8>)
    ensures b == TableBytes(ss) + rest && |ss| <= n && (|ss| < n ==> |rest| < PHDR_SIZE)
    decreases n
  {
    hide ProgramHeaderBytes;
    if n == 0 {
      ss, rest := [], b;
      assert b == [] + b;
    } else {
      ss, rest := SomeTable(b, n - 1);
      if |ss| == n - 1 && |rest| >= PHDR_SIZE {
        var s := SomeProgramHeader(rest[..PHDR_SIZE]);
        assert (ss + [s])[..|ss|] == ss;
        assert b == TableBytes(ss + [s]) + rest[PHDR_SIZE..];
        ss, rest := ss + [s], rest[PHDR_SIZE..];
      }
    }
  }

  /** Every file of at least 52 bytes is one of those `ExecExactly` speaks of. */
  lemma EveryFile(file: seq<u8>) returns (h: FileHeader, ss: seq<ProgramHeader>, rest: seq<u8>)
    requires |file| >= EHDR_SIZE
    ensures |h.e_ident| == 16 && |ss| <= h.e_phnum && (|ss| < h.e_phnum ==> |rest| < PHDR_SIZE)
    ensures file == FileBytes(h, ss, rest)
  {
    hide FileHeaderBytes, TableBytes;
    h := SomeFileHeader(file[..EHDR_SIZE]);
    ss, rest := SomeTable(file[EHDR_SIZE..], h.e_phnum);
    assert file == file[..EHDR_SIZE] + file[EHDR_SIZE..];
  }
}
