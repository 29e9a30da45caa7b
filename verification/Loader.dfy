/** exec: an ELF image read through descriptors into the user's memory window. */
module Loader {
  import opened Words
  import opened FileSystem

  const WINDOW: nat := 0x40000000
  const WINDOW_SIZE: nat := 0x100000

  const EHDR_SIZE: nat := 52
  const PHDR_SIZE: nat := 32
  const EXEC_READ_CHUNK: nat := 128
  const PT_LOAD: u32 := 1

  // ------------------------------------------------------------------ pointers and headers

  /** validate_user_pointer, with the end of the range computed in 32 bits. */
  predicate PointerOk(start: u32, len: u32) {
    var end := (start as int + len as int) % 0x1_0000_0000;
    end >= start && start >= WINDOW && end <= WINDOW + WINDOW_SIZE
  }

  /** It accepts exactly the ranges inside the window. */
  lemma PointerOkExactly(start: u32, len: u32)
    ensures PointerOk(start, len) <==> WINDOW <= start && start as int + len as int <= WINDOW + WINDOW_SIZE
  {
  }

  function U16(b: seq<u8>, i: nat): (n: nat)
    requires i + 2 <= |b|
    ensures n < 0x1_0000
  {
    b[i] as int + 256 * b[i + 1] as int
  }

  function U32(b: seq<u8>, i: nat): u32
    requires i + 4 <= |b|
  {
    U16(b, i) + 0x1_0000 * U16(b, i + 2)
  }

  /** What exec uses of an ELF header. */
  datatype Ehdr = Ehdr(ident: seq<u8>, kind: nat, machine: nat, version: u32, entry: u32, phoff: u32, phentsize: nat,
                       phnum: nat)

  function EhdrOf(b: seq<u8>): (h: Ehdr)
    requires |b| == EHDR_SIZE
    ensures |h.ident| == 16
  {
    Ehdr(b[..16], U16(b, 16), U16(b, 18), U32(b, 20), U32(b, 24), U32(b, 28), U16(b, 42), U16(b, 44))
  }

  datatype Phdr = Phdr(kind: u32, offset: u32, vaddr: u32, filesz: u32, memsz: u32)

  function PhdrOf(b: seq<u8>): Phdr
    requires |b| == PHDR_SIZE
  {
    Phdr(U32(b, 0), U32(b, 4), U32(b, 8), U32(b, 16), U32(b, 20))
  }

  function HeaderCode(h: Ehdr): int
    requires |h.ident| == 16
  {
    if h.ident[..4] != [0x7F, 69, 76, 70] then E_ARG
    else if h.ident[4] != 1 || h.ident[5] != 1 then E_ARG
    else if h.kind != 2 || h.machine != 40 || h.version != 1 then E_ARG
    else if h.phentsize != PHDR_SIZE || h.phnum == 0 then E_ARG
    else if h.phoff != EHDR_SIZE then E_ARG
    else if !PointerOk(h.entry, 4) then E_PTR
    else E_OK
  }

  // ------------------------------------------------------------------ the specification

  /** The user's memory window. */
  type Window = s: seq<u8> | |s| == WINDOW_SIZE witness seq(WINDOW_SIZE, _ => 0)

  /** A C string: the bytes before the first zero, of the MAX_PATH bytes looked at. */
  function CString(b: seq<u8>): seq<u8> {
    if b == [] || b[0] == 0 then [] else [b[0]] + CString(b[1..])
  }

  function PathAt(user: Window, p: u32): seq<u8>
    requires PointerOk(p, MAX_PATH)
  {
    PointerOkExactly(p, MAX_PATH);
    CString(user[p - WINDOW..p - WINDOW + MAX_PATH])
  }

  /** The part of the window a segment's file bytes and zeros go to. */
  function Zeros(n: nat): (z: seq<u8>)
    ensures |z| == n && forall i :: 0 <= i < n ==> z[i] == 0
  {
    seq(n, _ => 0)
  }

  /** A segment whose bytes are there and whose memory is in the window. */
  predicate Loadable(data: seq<u8>, h: Phdr) {
    h.filesz <= h.memsz && PointerOk(h.vaddr, h.memsz) && h.offset as int + h.filesz as int <= |data|
  }

  function SegmentImage(data: seq<u8>, h: Phdr): (s: seq<u8>)
    requires Loadable(data, h)
    ensures |s| == h.memsz
  {
    data[h.offset..h.offset as int + h.filesz as int] + Zeros(h.memsz - h.filesz)
  }

  function LoadOne(user: Window, data: seq<u8>, h: Phdr): Window
    requires Loadable(data, h)
  {
    PointerOkExactly(h.vaddr, h.memsz);
    Patched(user, h.vaddr - WINDOW, SegmentImage(data, h))
  }

  /** What is left after reading a segment's file bytes failed: those that were there. */
  function LoadPart(user: Window, data: seq<u8>, h: Phdr): Window
    requires h.filesz <= h.memsz && PointerOk(h.vaddr, h.memsz)
  {
    PointerOkExactly(h.vaddr, h.memsz);
    Patched(user, h.vaddr - WINDOW, Chunk(data, h.offset, h.filesz))
  }

  datatype Result = Result(user: Window, code: int, entry: u32)

  /** The machine's files, whether they are mounted, and how many descriptors are free. */
  datatype Env = Env(files: seq<File>, rooted: bool, free: nat)

  /** Opening a path when `used` descriptors have been taken since the start: the file, or an error. */
  function OpenIn(env: Env, path: seq<u8>, used: nat): (r: (seq<u8>, int))
  {
    if !env.rooted || Find(env.files, path).None? then ([], E_NOENT)
    else if env.free <= used then ([], E_MFILE)
    else (env.files[Find(env.files, path).value].data, E_OK)
  }

  /** The i-th program header: what it does to the window, and E_OK if the loop goes on. The path
      is read again for each. */
  function OneHeader(env: Env, file: seq<u8>, user: Window, p: u32, i: nat): (Window, int)
    requires PointerOk(p, MAX_PATH)
  {
    var at := EHDR_SIZE + PHDR_SIZE * i;
    if |file| < at + PHDR_SIZE then (user, E_FAIL)
    else OneSegment(env, user, p, PhdrOf(file[at..at + PHDR_SIZE]))
  }

  function OneSegment(env: Env, user: Window, p: u32, s: Phdr): (Window, int)
    requires PointerOk(p, MAX_PATH)
  {
    if s.kind != PT_LOAD then (user, E_OK)
    else if s.filesz > s.memsz then (user, E_ARG)
    else if !PointerOk(s.vaddr, s.memsz) then (user, E_PTR)
    else
      var (data, code) := OpenIn(env, PathAt(user, p), 1);
      if code != E_OK then (user, code)
      else if |data| < s.offset then (user, E_FAIL)
      else if !Loadable(data, s) then (LoadPart(user, data, s), E_FAIL)
      else (LoadOne(user, data, s), E_OK)
  }

  /** The loop over the program headers, from the i-th on. */
  function Segments(env: Env, file: seq<u8>, user: Window, p: u32, i: nat, h: Ehdr): Result
    requires PointerOk(p, MAX_PATH)
    decreases h.phnum - i
  {
    if i >= h.phnum then Result(user, E_OK, h.entry)
    else
      var (user', code) := OneHeader(env, file, user, p, i);
      if code != E_OK then Result(user', code, 0) else Segments(env, file, user', p, i + 1, h)
  }

  function Exec(env: Env, user: Window, p: u32): Result {
    if !PointerOk(p, MAX_PATH) then Result(user, E_PTR, 0)
    else
      var (file, code) := OpenIn(env, PathAt(user, p), 0);
      if code != E_OK then Result(user, code, 0)
      else if |file| < EHDR_SIZE then Result(user, E_FAIL, 0)
      else
        var h := EhdrOf(file[..EHDR_SIZE]);
        if HeaderCode(h) != E_OK then Result(user, HeaderCode(h), 0)
        else Segments(env, file, user, p, 0, h)
  }

  // ------------------------------------------------------------------ what a loaded image is

  /** The loadable segments of an image, in header order, from the i-th header on. */
  function LoadsFrom(file: seq<u8>, i: nat, n: nat): (r: seq<Phdr>)
    requires |file| >= EHDR_SIZE + PHDR_SIZE * n
    ensures forall k :: 0 <= k < |r| ==> r[k].kind == PT_LOAD
    decreases n - i
  {
    if i >= n then []
    else
      var at := EHDR_SIZE + PHDR_SIZE * i;
      var s := PhdrOf(file[at..at + PHDR_SIZE]);
      (if s.kind == PT_LOAD then [s] else []) + LoadsFrom(file, i + 1, n)
  }

  /** Segment after segment: file bytes, then zeros up to the memory size. */
  function LoadAll(user: Window, file: seq<u8>, hs: seq<Phdr>): Window
    requires forall k :: 0 <= k < |hs| ==> Loadable(file, hs[k])
    decreases |hs|
  {
    if hs == [] then user else LoadAll(LoadOne(user, file, hs[0]), file, hs[1..])
  }

  /** The path buffer and a segment's memory have no byte in common. */
  predicate Apart(p: u32, h: Phdr) {
    p as int + MAX_PATH <= h.vaddr || h.vaddr as int + h.memsz as int <= p
  }

  /** Every loadable segment keeps off the path buffer. */
  predicate AllApart(p: u32, hs: seq<Phdr>) {
    forall k :: 0 <= k < |hs| ==> Apart(p, hs[k])
  }

  lemma PathKept(user: Window, file: seq<u8>, h: Phdr, p: u32)
    requires PointerOk(p, MAX_PATH) && Loadable(file, h) && Apart(p, h)
    ensures PathAt(LoadOne(user, file, h), p) == PathAt(user, p)
  {
    PointerOkExactly(p, MAX_PATH);
    PointerOkExactly(h.vaddr, h.memsz);
    var user' := LoadOne(user, file, h);
    hide SegmentImage, PointerOk;
    assert user'[p - WINDOW..p - WINDOW + MAX_PATH] == user[p - WINDOW..p - WINDOW + MAX_PATH];
  }

  /** The loop ends well only when all the headers are there. */
  lemma {:induction false} AllHeaders(env: Env, file: seq<u8>, user: Window, p: u32, i: nat, h: Ehdr)
    requires PointerOk(p, MAX_PATH) && i < h.phnum && Segments(env, file, user, p, i, h).code == E_OK
    ensures |file| >= EHDR_SIZE + PHDR_SIZE * h.phnum
    decreases h.phnum - i
  {
    hide PointerOk, OneSegment, PhdrOf;
    if i + 1 < h.phnum {
      AllHeaders(env, file, OneHeader(env, file, user, p, i).0, p, i + 1, h);
    }
  }

  predicate AllLoadable(file: seq<u8>, hs: seq<Phdr>) {
    forall k :: 0 <= k < |hs| ==> Loadable(file, hs[k])
  }

  /** One turn that succeeds, of a loop that reads the one file. */
  lemma TurnLoads(env: Env, file: seq<u8>, user: Window, p: u32, i: nat, h: Ehdr)
    requires PointerOk(p, MAX_PATH) && OpenIn(env, PathAt(user, p), 0) == (file, E_OK)
    requires i < h.phnum && |file| >= EHDR_SIZE + PHDR_SIZE * h.phnum
    requires Segments(env, file, user, p, i, h).code == E_OK
    ensures var at := EHDR_SIZE + PHDR_SIZE * i;
            var s := PhdrOf(file[at..at + PHDR_SIZE]);
            if s.kind != PT_LOAD then Segments(env, file, user, p, i, h) == Segments(env, file, user, p, i + 1, h)
            else Loadable(file, s)
                 && Segments(env, file, user, p, i, h) == Segments(env, file, LoadOne(user, file, s), p, i + 1, h)
  {
    hide PointerOk, Loadable, LoadOne, LoadPart, PhdrOf, PathAt, Find;
  }

  lemma LoadsCons(user: Window, file: seq<u8>, s: Phdr, rest: seq<Phdr>)
    requires Loadable(file, s) && AllLoadable(file, rest)
    ensures AllLoadable(file, [s] + rest)
    ensures LoadAll(user, file, [s] + rest) == LoadAll(LoadOne(user, file, s), file, rest)
  {
    hide Loadable, LoadOne;
    var hs := [s] + rest;
    assert hs[0] == s && hs[1..] == rest;
    assert forall k :: 0 < k < |hs| ==> hs[k] == rest[k - 1];
  }

  lemma ApartCons(p: u32, s: Phdr, rest: seq<Phdr>)
    requires AllApart(p, [s] + rest)
    ensures Apart(p, s) && AllApart(p, rest)
  {
    hide Apart;
    assert ([s] + rest)[0] == s;
    assert forall k :: 0 <= k < |rest| ==> rest[k] == ([s] + rest)[k + 1];
  }

  /** While no segment touches the path buffer, the loop loads the segments of the one file. */
  lemma {:induction false} SegmentsLoad(env: Env, file: seq<u8>, user: Window, p: u32, i: nat, h: Ehdr)
    requires PointerOk(p, MAX_PATH) && OpenIn(env, PathAt(user, p), 0) == (file, E_OK)
    requires i <= h.phnum && |file| >= EHDR_SIZE + PHDR_SIZE * h.phnum && AllApart(p, LoadsFrom(file, i, h.phnum))
    requires Segments(env, file, user, p, i, h).code == E_OK
    ensures var hs := LoadsFrom(file, i, h.phnum);
            AllLoadable(file, hs)
            && Segments(env, file, user, p, i, h) == Result(LoadAll(user, file, hs), E_OK, h.entry)
    decreases h.phnum - i
  {
    hide PointerOk, Loadable, LoadOne, LoadPart, PhdrOf, PathAt, Find, Apart, OpenIn;
    if i < h.phnum {
      TurnLoads(env, file, user, p, i, h);
      var at := EHDR_SIZE + PHDR_SIZE * i;
      var s := PhdrOf(file[at..at + PHDR_SIZE]);
      var rest := LoadsFrom(file, i + 1, h.phnum);
      hide Segments, AllApart, AllLoadable, LoadAll;
      if s.kind != PT_LOAD {
        assert [] + rest == rest;
        SegmentsLoad(env, file, user, p, i + 1, h);
      } else {
        ApartCons(p, s, rest);
        PathKept(user, file, s, p);
        SegmentsLoad(env, file, LoadOne(user, file, s), p, i + 1, h);
        LoadsCons(user, file, s, rest);
      }
    }
  }

  /** exec loads the image: when it succeeds and no loadable segment touches the path buffer, user
      memory is the fold, in header order, of each segment's file bytes and zero fill. */
  lemma ExecLoads(env: Env, user: Window, p: u32)
    requires Exec(env, user, p).code == E_OK
    ensures PointerOk(p, MAX_PATH)
    ensures var file := OpenIn(env, PathAt(user, p), 0).0;
            && |file| >= EHDR_SIZE
            && var h := EhdrOf(file[..EHDR_SIZE]);
            && |file| >= EHDR_SIZE + PHDR_SIZE * h.phnum
            && var hs := LoadsFrom(file, 0, h.phnum);
            (AllApart(p, hs) ==>
               AllLoadable(file, hs) && Exec(env, user, p) == Result(LoadAll(user, file, hs), E_OK, h.entry))
  {
    hide PointerOk, PathAt, Find, EhdrOf, Segments, LoadsFrom, LoadAll;
    var file := OpenIn(env, PathAt(user, p), 0).0;
    var h := EhdrOf(file[..EHDR_SIZE]);
    AllHeaders(env, file, user, p, 0, h);
    var hs := LoadsFrom(file, 0, h.phnum);
    if AllApart(p, hs) {
      SegmentsLoad(env, file, user, p, 0, h);
    }
  }

  predicate Covers(h: Phdr, a: u32) {
    h.vaddr <= a && a as int < h.vaddr as int + h.memsz as int
  }

  predicate InWindow(a: u32) {
    WINDOW <= a < WINDOW + WINDOW_SIZE
  }

  lemma OneByte(user: Window, file: seq<u8>, h: Phdr, a: u32)
    requires Loadable(file, h) && InWindow(a)
    ensures LoadOne(user, file, h)[a - WINDOW]
            == if !Covers(h, a) then user[a - WINDOW]
               else if a - h.vaddr < h.filesz then file[h.offset as int + (a - h.vaddr)]
               else 0
  {
    PointerOkExactly(h.vaddr, h.memsz);
    hide PointerOk;
  }

  /** A byte outside every segment is as it was. */
  lemma {:induction false} OtherBytes(user: Window, file: seq<u8>, hs: seq<Phdr>, a: u32)
    requires AllLoadable(file, hs) && InWindow(a) && forall k :: 0 <= k < |hs| ==> !Covers(hs[k], a)
    ensures LoadAll(user, file, hs)[a - WINDOW] == user[a - WINDOW]
    decreases |hs|
  {
    hide Loadable, LoadOne, Covers;
    if hs != [] {
      OneByte(user, file, hs[0], a);
      assert forall k :: 0 <= k < |hs[1..]| ==> hs[1..][k] == hs[k + 1];
      OtherBytes(LoadOne(user, file, hs[0]), file, hs[1..], a);
    }
  }

  /** A byte of the window belongs to the last segment that covers it: its file's byte there, or
      zero past the file size. */
  lemma {:induction false} LoadedByte(user: Window, file: seq<u8>, hs: seq<Phdr>, k: nat, a: u32)
    requires AllLoadable(file, hs) && k < |hs| && Covers(hs[k], a) && InWindow(a)
    requires forall j :: k < j < |hs| ==> !Covers(hs[j], a)
    ensures Loadable(file, hs[k])
    ensures LoadAll(user, file, hs)[a - WINDOW]
            == if a - hs[k].vaddr < hs[k].filesz then file[hs[k].offset as int + (a - hs[k].vaddr)] else 0
    decreases |hs|
  {
    var rest := hs[1..];
    assert forall j :: 0 <= j < |rest| ==> rest[j] == hs[j + 1];
    assert Loadable(file, hs[0]) && Loadable(file, hs[k]);
    var user1 := LoadOne(user, file, hs[0]);
    if k == 0 {
      OneByte(user, file, hs[0], a);
      OtherBytes(user1, file, rest, a);
    } else {
      LoadedByte(user1, file, rest, k - 1, a);
    }
  }

  // ------------------------------------------------------------------ the kernel's code

  /** Free descriptors from the i-th on. */
  function FreeCount(fds: seq<Fd>, i: nat): (n: nat)
    requires i <= |fds|
    ensures n == 0 <==> FreeFrom(fds, i).None?
    decreases |fds| - i
  {
    if i == |fds| then 0 else (if fds[i].inUse then 0 else 1) + FreeCount(fds, i + 1)
  }

  lemma {:induction false} FreeTaken(fds: seq<Fd>, fd: nat, e: Fd, i: nat)
    requires i <= fd < |fds| && !fds[fd].inUse && e.inUse
    ensures FreeCount(fds, i) == FreeCount(fds[fd := e], i) + 1
    decreases fd - i
  {
    if i < fd {
      FreeTaken(fds, fd, e, i + 1);
    } else {
      FreeBeyond(fds, fd, e, i + 1);
    }
  }

  lemma {:induction false} FreeBeyond(fds: seq<Fd>, fd: nat, e: Fd, i: nat)
    requires fd < i <= |fds|
    ensures FreeCount(fds, i) == FreeCount(fds[fd := e], i)
    decreases |fds| - i
  {
    if i < |fds| {
      FreeBeyond(fds, fd, e, i + 1);
    }
  }

  /** The registers of the caller, saved on its kernel stack: r0 to r12, lr and the status word. */
  class SvcContext {
    var spsr: u32
    var r: seq<u32>
    var lr: u32

    constructor (r: seq<u32>, lr: u32, spsr: u32)
      ensures this.r == r && this.lr == lr && this.spsr == spsr
    {
      this.r, this.lr, this.spsr := r, lr, spsr;
    }
  }

  class Kernel {
    const vfs: Vfs
    const user: array<u8>

    ghost predicate Valid()
      reads this, vfs, vfs.fdTable, vfs.mountTable
    {
      vfs.Valid() && user.Length == WINDOW_SIZE
    }

    constructor (vfs: Vfs, user: array<u8>)
      requires vfs.Valid() && user.Length == WINDOW_SIZE
      ensures Valid() && this.vfs == vfs && this.user == user
    {
      this.vfs, this.user := vfs, user;
    }

    /** Reads until `len` bytes have come; fails as soon as none come. */
    method VfsReadExact(fd: int, buf: array<u8>, at: nat, len: nat) returns (r: int)
      requires vfs.Valid() && vfs.Rooted() && Live(vfs.fdTable[..], fd) && at + len <= buf.Length
      modifies vfs.fdTable, buf
      ensures vfs.Valid()
      ensures var e := old(vfs.fdTable[fd]);
              var bytes := Chunk(vfs.files[e.fileIndex].data, e.offset, len);
              && vfs.fdTable[..] == old(vfs.fdTable[..])[fd := e.(offset := e.offset + |bytes|)]
              && buf[..] == Patched(old(buf[..]), at, bytes)
              && r == (if |bytes| == len then E_OK else E_FAIL)
    {
      hide Patched, TableOk;
      ghost var (fds, before) := (vfs.fdTable[..], buf[..]);
      LiveMeans(vfs.files, fds, fd);
      var e := vfs.fdTable[fd];
      var data := vfs.files[e.fileIndex].data;
      var total: nat := 0;
      assert fds[fd := e] == fds;
      PatchedNothing(before, at);
      assert data[e.offset..e.offset + 0] == [];
      while total < len
        invariant vfs.Valid() && total <= len && e.offset + total <= |data|
        invariant vfs.fdTable[..] == fds[fd := e.(offset := e.offset + total)]
        invariant buf[..] == Patched(before, at, data[e.offset..e.offset + total])
      {
        ghost var buf1 := buf[..];
        var n := vfs.VfsRead(fd, buf, at + total, len - total);
        ghost var bytes := Chunk(data, e.offset + total, len - total);
        assert vfs.fdTable[..] == fds[fd := e.(offset := e.offset + total + n)];
        if n <= 0 {
          assert bytes == [];
          PatchedNothing(buf1, at + total);
          assert Chunk(data, e.offset, len) == data[e.offset..e.offset + total];
          return E_FAIL;
        }
        PatchedTwice(before, at, data[e.offset..e.offset + total], bytes);
        assert data[e.offset..e.offset + total] + bytes == data[e.offset..e.offset + total + n];
        total := total + n;
      }
      assert Chunk(data, e.offset, len) == data[e.offset..e.offset + len];
      return E_OK;
    }

    /** Reads and drops `len` bytes, in pieces. */
    method VfsSkipBytes(fd: int, len: nat) returns (r: int)
      requires vfs.Valid() && vfs.Rooted() && Live(vfs.fdTable[..], fd)
      modifies vfs.fdTable
      ensures vfs.Valid()
      ensures var e := old(vfs.fdTable[fd]);
              var n := |Chunk(vfs.files[e.fileIndex].data, e.offset, len)|;
              && vfs.fdTable[..] == old(vfs.fdTable[..])[fd := e.(offset := e.offset + n)]
              && r == (if n == len then E_OK else E_FAIL)
    {
      var tmp := new u8[EXEC_READ_CHUNK](_ => 0);
      ghost var fds := vfs.fdTable[..];
      var e := vfs.fdTable[fd];
      var data := vfs.files[e.fileIndex].data;
      var left := len;
      assert fds[fd := e] == fds;
      while left > 0
        invariant vfs.Valid() && 0 <= left <= len && e.offset + (len - left) <= |data|
        invariant vfs.fdTable[..] == fds[fd := e.(offset := e.offset + (len - left))]
      {
        var chunk := if left > EXEC_READ_CHUNK then EXEC_READ_CHUNK else left;
        ghost var fds1 := vfs.fdTable[..];
        var n := vfs.VfsRead(fd, tmp, 0, chunk);
        if n <= 0 {
          assert vfs.fdTable[..] == fds1;
          return E_FAIL;
        }
        assert vfs.fdTable[..] == fds[fd := e.(offset := e.offset + (len - left) + n)];
        left := left - n;
      }
      return E_OK;
    }

    ghost function Now(): Env
      requires Valid()
      reads this, vfs, vfs.fdTable, vfs.mountTable
    {
      Env(vfs.files, vfs.Rooted(), FreeCount(vfs.fdTable[..], 3))
    }

    /** Reads the string a checked pointer points to. */
    method ReadPath(p: u32) returns (path: seq<u8>)
      requires Valid() && PointerOk(p, MAX_PATH)
      ensures path == PathAt(user[..], p)
    {
      PointerOkExactly(p, MAX_PATH);
      var b := user[p - WINDOW..p - WINDOW + MAX_PATH];
      assert b == user[..][p - WINDOW..p - WINDOW + MAX_PATH];
      path := CString(b);
    }

    /** Skips to a segment's bytes and reads them into the window. */
    method ReadSegment(fd: int, s: Phdr) returns (r: int)
      requires Valid() && vfs.Rooted() && Live(vfs.fdTable[..], fd) && vfs.fdTable[fd].offset == 0
      requires s.filesz <= s.memsz && PointerOk(s.vaddr, s.memsz)
      modifies user, vfs.fdTable
      ensures Valid() && vfs.Rooted() && Live(vfs.fdTable[..], fd)
      ensures vfs.fdTable[..][fd := CLOSED] == old(vfs.fdTable[..])[fd := CLOSED]
      ensures var data := vfs.files[old(vfs.fdTable[fd]).fileIndex].data;
              if |data| < s.offset then r == E_FAIL && user[..] == old(user[..])
              else user[..] == LoadPart(old(user[..]), data, s) && r == if Loadable(data, s) then E_OK else E_FAIL
    {
      hide PointerOk, Patched;
      PointerOkExactly(s.vaddr, s.memsz);
      r := VfsSkipBytes(fd, s.offset);
      if r != E_OK {
        return;
      }
      r := VfsReadExact(fd, user, s.vaddr - WINDOW, s.filesz);
    }

    /** Loads one segment through a descriptor of its own, which is closed again. */
    method LoadSegment(s: Phdr, p: u32) returns (r: int)
      requires Valid() && PointerOk(p, MAX_PATH) && s.filesz <= s.memsz && PointerOk(s.vaddr, s.memsz)
      modifies user, vfs.fdTable
      ensures Valid() && vfs.fdTable[..] == old(vfs.fdTable[..])
      ensures var (data, code) := OpenIn(old(Now()), PathAt(old(user[..]), p), 0);
              if code != E_OK then r == code && user[..] == old(user[..])
              else if |data| < s.offset then r == E_FAIL && user[..] == old(user[..])
              else if !Loadable(data, s) then r == E_FAIL && user[..] == LoadPart(old(user[..]), data, s)
              else r == E_OK && user[..] == LoadOne(old(user[..]), data, s)
    {
      hide PathAt, Find, FreeFrom, PointerOk, Patched, Chunk, Loadable, TableOk;
      ghost var (fds, before) := (vfs.fdTable[..], user[..]);
      var path := ReadPath(p);
      var fd := vfs.VfsOpen(path, O_RDONLY);
      if fd < 0 {
        OpenKeeps(vfs.files, fds, vfs.Rooted(), path, O_RDONLY);
        return fd;
      }
      OpenKeeps(vfs.files, fds, vfs.Rooted(), path, O_RDONLY);
      WasClosed(vfs.files, fds, fd);
      ghost var data := vfs.files[Find(vfs.files, path).value].data;
      r := ReadSegment(fd, s);
      var _ := vfs.VfsClose(fd);
      assert fds[fd := CLOSED] == fds;
      if r != E_OK {
        return;
      }
      PointerOkExactly(s.vaddr, s.memsz);
      LoadableMeans(data, s);
      ZeroFill(s.vaddr - WINDOW + s.filesz, s.memsz - s.filesz);
      PatchedTwice(before, s.vaddr - WINDOW, Chunk(data, s.offset, s.filesz), Zeros(s.memsz - s.filesz));
    }

    /** The next program header, read from the image's descriptor, and its segment. */
    method LoadHeader(fd: int, p: u32, i: nat, ghost env: Env, ghost file: seq<u8>) returns (r: int)
      requires Valid() && PointerOk(p, MAX_PATH) && vfs.Rooted() && 3 <= fd && Live(vfs.fdTable[..], fd)
      requires vfs.files[vfs.fdTable[fd].fileIndex].data == file && vfs.fdTable[fd].offset == EHDR_SIZE + PHDR_SIZE * i
      requires |file| >= EHDR_SIZE + PHDR_SIZE * i
      requires env.files == vfs.files && env.rooted && env.free == FreeCount(vfs.fdTable[..], 3) + 1
      modifies user, vfs.fdTable
      ensures Valid() && vfs.Rooted() && Live(vfs.fdTable[..], fd)
      ensures (user[..], r) == OneHeader(env, file, old(user[..]), p, i)
      ensures vfs.fdTable[..][fd := CLOSED] == old(vfs.fdTable[..])[fd := CLOSED]
      ensures r == E_OK ==>
                && |file| >= EHDR_SIZE + PHDR_SIZE * (i + 1)
                && vfs.fdTable[fd] == old(vfs.fdTable[fd]).(offset := EHDR_SIZE + PHDR_SIZE * (i + 1))
    {
      hide PointerOk, PathAt, Find, PhdrOf, TableOk, Loadable, Patched;
      var phdr := new u8[PHDR_SIZE](_ => 0);
      ghost var (fds, e, at) := (vfs.fdTable[..], vfs.fdTable[fd], EHDR_SIZE + PHDR_SIZE * i);
      r := VfsReadExact(fd, phdr, 0, PHDR_SIZE);
      if r != E_OK {
        return E_FAIL;
      }
      WholeBuffer(phdr[..], file, at, PHDR_SIZE);
      var s := PhdrOf(phdr[..]);
      assert vfs.fdTable[fd] == e.(offset := at + PHDR_SIZE);
      if s.kind != PT_LOAD {
        return E_OK;
      }
      if s.filesz > s.memsz {
        return E_ARG;
      }
      if !PointerOk(s.vaddr, s.memsz) {
        return E_PTR;
      }
      FreeMoved(fds, fd, e.(offset := at + PHDR_SIZE));
      r := LoadSegment(s, p);
    }

    /** exec on the saved context of the caller, whose r0 points to the path. When the image is loaded
        the caller will resume at its entry point with r0 to r3 cleared; otherwise the context stays. */
    method SysExec(ctx: SvcContext) returns (code: int)
      requires Valid() && |ctx.r| == 13
      modifies user, vfs.fdTable, ctx
      ensures Valid() && vfs.fdTable[..] == old(vfs.fdTable[..])
      ensures var x := Exec(old(Now()), old(user[..]), old(ctx.r[0]));
              && user[..] == x.user && code == x.code
              && ctx.r == (if code == E_OK then [0, 0, 0, 0] + old(ctx.r[4..]) else old(ctx.r))
              && ctx.lr == (if code == E_OK then x.entry else old(ctx.lr)) && ctx.spsr == old(ctx.spsr)
    {
      hide Exec;
      var entry;
      code, entry := LoadImage(ctx.r[0]);
      if code == E_OK {
        ctx.r := ctx.r[0 := 0][1 := 0][2 := 0][3 := 0];
        ctx.lr := entry;
      }
    }

    /** exec up to the rewriting of the context: the outcome, and the entry point of a loaded image. */
    method LoadImage(p: u32) returns (r: int, entry: u32)
      requires Valid()
      modifies user, vfs.fdTable
      ensures Valid() && vfs.fdTable[..] == old(vfs.fdTable[..])
      ensures Result(user[..], r, entry) == Exec(old(Now()), old(user[..]), p)
    {
      hide PointerOk, PathAt, Find, TableOk, OneHeader, EhdrOf, HeaderCode, Patched;
      ghost var (fds, env) := (vfs.fdTable[..], Now());
      r, entry := E_PTR, 0;
      if !PointerOk(p, MAX_PATH) {
        return;
      }
      var path := ReadPath(p);
      var fd := vfs.VfsOpen(path, O_RDONLY);
      OpenKeeps(vfs.files, fds, vfs.Rooted(), path, O_RDONLY);
      if fd < 0 {
        return fd, 0;
      }
      WasClosed(vfs.files, fds, fd);
      FreeTaken(fds, fd, vfs.fdTable[fd], 3);
      ghost var file := vfs.files[Find(vfs.files, path).value].data;
      var ehdr := new u8[EHDR_SIZE](_ => 0);
      r := VfsReadExact(fd, ehdr, 0, EHDR_SIZE);
      if r != E_OK {
        var _ := vfs.VfsClose(fd);
        assert vfs.fdTable[..] == fds;
        return E_FAIL, 0;
      }
      WholeBuffer(ehdr[..], file, 0, EHDR_SIZE);
      var h := EhdrOf(ehdr[..]);
      r := HeaderCode(h);
      if r != E_OK {
        var _ := vfs.VfsClose(fd);
        assert vfs.fdTable[..] == fds;
        return r, 0;
      }
      FreeMoved(fds[fd := Fd(true, Find(vfs.files, path).value, 0)], fd, vfs.fdTable[fd]);
      r := LoadHeaders(fd, p, h, env, file);
      var _ := vfs.VfsClose(fd);
      assert vfs.fdTable[..] == fds;
      entry := if r == E_OK then h.entry else 0;
    }

    method LoadHeaders(fd: int, p: u32, h: Ehdr, ghost env: Env, ghost file: seq<u8>) returns (r: int)
      requires Valid() && PointerOk(p, MAX_PATH) && vfs.Rooted() && 3 <= fd && Live(vfs.fdTable[..], fd)
      requires vfs.files[vfs.fdTable[fd].fileIndex].data == file && vfs.fdTable[fd].offset == EHDR_SIZE
      requires |file| >= EHDR_SIZE
      requires env.files == vfs.files && env.rooted && env.free == FreeCount(vfs.fdTable[..], 3) + 1
      modifies user, vfs.fdTable
      ensures Valid() && Live(vfs.fdTable[..], fd)
      ensures Result(user[..], r, if r == E_OK then h.entry else 0) == Segments(env, file, old(user[..]), p, 0, h)
      ensures vfs.fdTable[..][fd := CLOSED] == old(vfs.fdTable[..])[fd := CLOSED]
    {
      hide PointerOk, OneHeader, TableOk;
      ghost var (fds, before) := (vfs.fdTable[..], user[..]);
      for i := 0 to h.phnum
        invariant Valid() && vfs.Rooted() && Live(vfs.fdTable[..], fd) && |file| >= EHDR_SIZE + PHDR_SIZE * i
        invariant vfs.fdTable[..] == fds[fd := fds[fd].(offset := EHDR_SIZE + PHDR_SIZE * i)]
        invariant Segments(env, file, user[..], p, i, h) == Segments(env, file, before, p, 0, h)
      {
        FreeMoved(fds, fd, vfs.fdTable[fd]);
        ghost var u := user[..];
        r := LoadHeader(fd, p, i, env, file);
        assert Segments(env, file, u, p, i, h)
            == if r != E_OK then Result(user[..], r, 0) else Segments(env, file, user[..], p, i + 1, h);
        assert vfs.fdTable[..][fd := CLOSED] == fds[fd := CLOSED];
        if r != E_OK {
          return;
        }
        SameButOne(fds, vfs.fdTable[..], fd);
      }
      return E_OK;
    }

    /** memset to zero. */
    method ZeroFill(at: nat, n: nat)
      requires at + n <= user.Length
      modifies user
      ensures user[..] == Patched(old(user[..]), at, Zeros(n))
    {
      ghost var before := user[..];
      assert before[..at] + Zeros(0) + before[at..] == before;
      for i := 0 to n
        invariant user[..] == before[..at] + Zeros(i) + before[at + i..]
      {
        user[at + i] := 0;
        assert Zeros(i) + [0] == Zeros(i + 1);
      }
    }
  }

  /** A buffer filled from the start is what was read. */
  lemma WholeBuffer(b: seq<u8>, file: seq<u8>, at: nat, n: nat)
    requires |b| == n && at <= |file| && |Chunk(file, at, n)| == n
    requires exists before: seq<u8> :: |before| == n && b == Patched(before, 0, Chunk(file, at, n))
    ensures at + n <= |file| && b == file[at..at + n]
  {
  }

  /** An open descriptor stays open wherever its cursor is. */
  lemma FreeMoved(fds: seq<Fd>, fd: nat, e: Fd)
    requires 3 <= fd < |fds| && fds[fd].inUse && e.inUse
    ensures FreeCount(fds[fd := e], 3) == FreeCount(fds, 3)
  {
    var closed := fds[fd := CLOSED];
    FreeTaken(closed, fd, e, 3);
    FreeTaken(closed, fd, fds[fd], 3);
    assert closed[fd := e] == fds[fd := e] && closed[fd := fds[fd]] == fds;
  }

  lemma SameButOne(a: seq<Fd>, b: seq<Fd>, fd: nat)
    requires |a| == |b| && fd < |a| && a[fd := CLOSED] == b[fd := CLOSED]
    ensures b == a[fd := b[fd]]
  {
    forall k | 0 <= k < |a| && k != fd
      ensures a[k] == b[k]
    {
      assert a[fd := CLOSED][k] == b[fd := CLOSED][k];
    }
  }

  lemma LiveMeans(files: seq<File>, fds: seq<Fd>, fd: int)
    requires TableOk(files, fds) && Live(fds, fd)
    ensures fds[fd].fileIndex < |files| && fds[fd].offset <= |files[fds[fd].fileIndex].data|
  {
  }

  lemma WasClosed(files: seq<File>, fds: seq<Fd>, fd: nat)
    requires TableOk(files, fds) && fd < MAX_FDS && !fds[fd].inUse
    ensures fds[fd] == CLOSED
  {
  }

  lemma LoadableMeans(data: seq<u8>, s: Phdr)
    requires Loadable(data, s)
    ensures Chunk(data, s.offset, s.filesz) == data[s.offset..s.offset as int + s.filesz as int]
  {
  }

  lemma PatchedNothing(s: seq<u8>, at: nat)
    requires at <= |s|
    ensures Patched(s, at, []) == s
  {
  }

  lemma PatchedTwice(s: seq<u8>, at: nat, a: seq<u8>, b: seq<u8>)
    requires at + |a| + |b| <= |s|
    ensures Patched(Patched(s, at, a), at + |a|, b) == Patched(s, at, a + b)
  {
  }
}
