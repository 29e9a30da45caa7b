/** Descriptors over the RAM file system are independent cursors. */
module FileSystem {
  import opened Words

  type u8 = x: nat | x < 256

  const E_OK: int := 0
  const E_FAIL: int := -1
  const E_ARG: int := -3
  const E_PTR: int := -4
  const E_NOENT: int := -6
  const E_BADF: int := -7
  const E_MFILE: int := -8
  const O_RDONLY: int := 0

  const MAX_FDS: nat := 16
  const MAX_MOUNTS: nat := 4
  const MAX_PATH: nat := 256

  /** Sizes are below 2^31, so that a count of bytes is never taken for an error. */
  type Bytes = s: seq<u8> | |s| < 0x8000_0000

  datatype File = File(name: seq<u8>, data: Bytes)

  datatype Fd = Fd(inUse: bool, fileIndex: nat, offset: nat)

  const CLOSED: Fd := Fd(false, 0, 0)

  const SLASH: u8 := 47

  // ------------------------------------------------------------------ the specification

  function LookupFrom(files: seq<File>, name: seq<u8>, i: nat): (r: Option<nat>)
    requires i <= |files|
    ensures r.Some? ==> i <= r.value < |files| && files[r.value].name == name
    ensures r.Some? ==> forall k :: i <= k < r.value ==> files[k].name != name
    ensures r.None? ==> forall k :: i <= k < |files| ==> files[k].name != name
    decreases |files| - i
  {
    if i == |files| then None else if files[i].name == name then Some(i) else LookupFrom(files, name, i + 1)
  }

  /** The first free descriptor from `i` on. */
  function FreeFrom(fds: seq<Fd>, i: nat): (r: Option<nat>)
    requires i <= |fds|
    ensures r.Some? ==> i <= r.value < |fds| && !fds[r.value].inUse
    ensures r.Some? ==> forall k :: i <= k < r.value ==> fds[k].inUse
    ensures r.None? ==> forall k :: i <= k < |fds| ==> fds[k].inUse
    decreases |fds| - i
  {
    if i == |fds| then None else if !fds[i].inUse then Some(i) else FreeFrom(fds, i + 1)
  }

  function StripSlash(path: seq<u8>): seq<u8> {
    if path != [] && path[0] == SLASH then path[1..] else path
  }

  /** The file a path names. */
  function Find(files: seq<File>, path: seq<u8>): (r: Option<nat>)
    ensures r.Some? ==> r.value < |files|
  {
    LookupFrom(files, StripSlash(path), 0)
  }

  function OpenFd(files: seq<File>, fds: seq<Fd>, rooted: bool, path: seq<u8>, flags: int): (seq<Fd>, int)
    requires |fds| == MAX_FDS
  {
    if flags != O_RDONLY then (fds, E_ARG)
    else if !rooted || Find(files, path).None? then (fds, E_NOENT)
    else if FreeFrom(fds, 3).None? then (fds, E_MFILE)
    else
      var fd := FreeFrom(fds, 3).value;
      (fds[fd := Fd(true, Find(files, path).value, 0)], fd)
  }

  predicate Live(fds: seq<Fd>, fd: int) {
    0 <= fd < |fds| && fds[fd].inUse
  }

  function Min(a: nat, b: nat): nat {
    if a < b then a else b
  }

  /** The bytes a read of `len` gives at a place in a file. */
  function Chunk(data: seq<u8>, offset: nat, len: nat): (r: seq<u8>)
    ensures |r| <= len
  {
    if offset >= |data| then [] else data[offset..offset + Min(len, |data| - offset)]
  }

  /** The table after a read, the number or error returned, and the bytes read. */
  function ReadFd(files: seq<File>, fds: seq<Fd>, rooted: bool, fd: int, len: nat): (seq<Fd>, int, seq<u8>) {
    if !Live(fds, fd) then (fds, E_BADF, [])
    else if !rooted then (fds, E_FAIL, [])
    else if fds[fd].fileIndex >= |files| then (fds, E_BADF, [])
    else
      var bytes := Chunk(files[fds[fd].fileIndex].data, fds[fd].offset, len);
      (fds[fd := fds[fd].(offset := fds[fd].offset + |bytes|)], |bytes|, bytes)
  }

  function CloseFd(fds: seq<Fd>, fd: int): (seq<Fd>, int) {
    if !Live(fds, fd) then (fds, E_BADF) else (fds[fd := CLOSED], E_OK)
  }

  /** Open descriptors point into files; free ones are as at the start; 0 to 2 are never given out. */
  ghost predicate TableOk(files: seq<File>, fds: seq<Fd>) {
    && |fds| == MAX_FDS
    && (forall i :: 0 <= i < |fds| && fds[i].inUse ==>
          && fds[i].fileIndex < |files|
          && fds[i].offset <= |files[fds[i].fileIndex].data|)
    && (forall i :: 0 <= i < |fds| && !fds[i].inUse ==> fds[i] == CLOSED)
    && (forall i :: 0 <= i < 3 ==> !fds[i].inUse)
  }

  lemma OpenKeeps(files: seq<File>, fds: seq<Fd>, rooted: bool, path: seq<u8>, flags: int)
    requires TableOk(files, fds)
    ensures var (fds', fd) := OpenFd(files, fds, rooted, path, flags);
            && TableOk(files, fds')
            && (fd >= 0 ==> 3 <= fd < MAX_FDS && !fds[fd].inUse && fds'[fd] == Fd(true, Find(files, path).value, 0))
            && (fd < 0 ==> fds' == fds)
  {
  }

  /** The first file of that name. */
  ghost predicate FirstNamed(files: seq<File>, name: seq<u8>, i: nat) {
    i < |files| && files[i].name == name && forall k :: 0 <= k < i ==> files[k].name != name
  }

  /** "name" and "/name" open the file of that name, read only, on the lowest free descriptor from 3
      on, at its start; what is missing decides the error. */
  lemma OpenMeans(files: seq<File>, fds: seq<Fd>, rooted: bool, name: seq<u8>, slash: bool, flags: int)
    requires |fds| == 16 && (!slash && name != [] ==> name[0] != 47)
    ensures var (fds', fd) := OpenFd(files, fds, rooted, if slash then [47] + name else name, flags);
            var named := exists i :: 0 <= i < |files| && files[i].name == name;
            var free := exists j :: 3 <= j < 16 && !fds[j].inUse;
            && (fd >= 0 <==> flags == 0 && rooted && named && free)
            && (fd >= 0 ==>
                  && 3 <= fd < 16 && !fds[fd].inUse && (forall j :: 3 <= j < fd ==> fds[j].inUse)
                  && exists i :: FirstNamed(files, name, i) && fds' == fds[fd := Fd(true, i, 0)])
            && (fd < 0 ==>
                  && fds' == fds
                  && fd == (if flags != 0 then E_ARG else if !rooted || !named then E_NOENT else E_MFILE))
  {
    var path := if slash then [47] + name else name;
    assert StripSlash(path) == name;
    var f := Find(files, path);
    assert f.Some? ==> FirstNamed(files, name, f.value);
  }

  /** Closing what was opened leaves the table as it was; a closed descriptor cannot be closed again. */
  lemma OpenCloses(files: seq<File>, fds: seq<Fd>, rooted: bool, path: seq<u8>, flags: int)
    requires TableOk(files, fds)
    ensures var (fds', fd) := OpenFd(files, fds, rooted, path, flags);
            fd >= 0 ==> CloseFd(fds', fd) == (fds, E_OK) && CloseFd(fds, fd) == (fds, E_BADF)
  {
    OpenKeeps(files, fds, rooted, path, flags);
    var (fds', fd) := OpenFd(files, fds, rooted, path, flags);
    if fd >= 0 {
      assert fds[fd] == CLOSED;
      assert fds'[fd := CLOSED] == fds;
    }
  }

  lemma ReadKeeps(files: seq<File>, fds: seq<Fd>, rooted: bool, fd: int, len: nat)
    requires TableOk(files, fds)
    ensures TableOk(files, ReadFd(files, fds, rooted, fd, len).0)
  {
  }

  // ------------------------------------------------------------------ independent cursors

  datatype Op = Open(path: seq<u8>, flags: int) | Read(fd: int, len: nat) | Close(fd: int)

  /** The table after an operation, and the bytes it gave to reads of descriptor `d`. */
  function Perform(files: seq<File>, fds: seq<Fd>, op: Op, d: int): (seq<Fd>, seq<u8>)
    requires |fds| == MAX_FDS
  {
    match op
    case Open(path, flags) => (OpenFd(files, fds, true, path, flags).0, [])
    case Read(fd, len) =>
      var (fds', _, bytes) := ReadFd(files, fds, true, fd, len);
      (fds', if fd == d then bytes else [])
    case Close(fd) => (CloseFd(fds, fd).0, [])
  }

  function After(files: seq<File>, fds: seq<Fd>, ops: seq<Op>): (r: seq<Fd>)
    requires |fds| == MAX_FDS
    ensures |r| == MAX_FDS
    decreases |ops|
  {
    if ops == [] then fds else After(files, Perform(files, fds, ops[0], 0).0, ops[1..])
  }

  /** Everything read from descriptor `d` over a sequence of operations. */
  function ReadsOf(files: seq<File>, fds: seq<Fd>, ops: seq<Op>, d: int): seq<u8>
    requires |fds| == MAX_FDS
    decreases |ops|
  {
    if ops == [] then []
    else Perform(files, fds, ops[0], d).1 + ReadsOf(files, Perform(files, fds, ops[0], d).0, ops[1..], d)
  }

  /** One operation moves the cursor of a descriptor by what it reads, whatever happens to others. */
  lemma CursorStep(files: seq<File>, fds: seq<Fd>, op: Op, d: nat)
    requires TableOk(files, fds) && d < MAX_FDS && fds[d].inUse && op != Close(d)
    ensures var (fds', bytes) := Perform(files, fds, op, d);
            && TableOk(files, fds') && fds' == Perform(files, fds, op, 0).0
            && fds'[d] == fds[d].(offset := fds[d].offset + |bytes|)
            && bytes == files[fds[d].fileIndex].data[fds[d].offset..fds'[d].offset]
  {
    match op
    case Open(path, flags) => OpenKeeps(files, fds, true, path, flags);
    case Read(fd, len) => ReadKeeps(files, fds, true, fd, len);
    case Close(fd) =>
  }

  /** Descriptors refine independent cursors: over any operations on any descriptors, as long as
      this one is not closed, what is read from it is exactly the part of its file its cursor moves
      over. */
  lemma {:induction false} Cursor(files: seq<File>, fds: seq<Fd>, ops: seq<Op>, d: nat)
    requires TableOk(files, fds) && d < MAX_FDS && fds[d].inUse && Close(d) !in ops
    ensures var e := After(files, fds, ops)[d];
            && e.inUse && e.fileIndex == fds[d].fileIndex && fds[d].offset <= e.offset
            && e.offset <= |files[fds[d].fileIndex].data|
            && ReadsOf(files, fds, ops, d) == files[fds[d].fileIndex].data[fds[d].offset..e.offset]
    decreases |ops|
  {
    if ops != [] {
      hide TableOk, Perform, OpenFd, ReadFd, CloseFd, Chunk, FreeFrom, Find, LookupFrom;
      CursorStep(files, fds, ops[0], d);
      var fds1 := Perform(files, fds, ops[0], d).0;
      Cursor(files, fds1, ops[1..], d);
      var data := files[fds[d].fileIndex].data;
      var (x, y, z) := (fds[d].offset, fds1[d].offset, After(files, fds, ops)[d].offset);
      assert data[x..y] + data[y..z] == data[x..z];
    }
  }

  /** From opening on, the reads of a descriptor are a prefix of its file. */
  lemma OpenedPrefix(files: seq<File>, fds: seq<Fd>, path: seq<u8>, ops: seq<Op>)
    requires TableOk(files, fds)
    requires var (fds', fd) := OpenFd(files, fds, true, path, O_RDONLY);
             fd >= 0 && Close(fd) !in ops
    ensures var (fds', fd) := OpenFd(files, fds, true, path, O_RDONLY);
            && 3 <= fd < MAX_FDS && |fds'| == MAX_FDS && Find(files, path).Some?
            && ReadsOf(files, fds', ops, fd) <= files[Find(files, path).value].data
  {
    OpenKeeps(files, fds, true, path, O_RDONLY);
    var (fds', fd) := OpenFd(files, fds, true, path, O_RDONLY);
    Cursor(files, fds', ops, fd);
  }

  /** A read gives nothing only when nothing is asked for or the file is at its end. */
  lemma ZeroExactly(files: seq<File>, fds: seq<Fd>, fd: int, len: nat)
    requires TableOk(files, fds) && Live(fds, fd)
    ensures ReadFd(files, fds, true, fd, len).1 == 0 <==>
              len == 0 || fds[fd].offset == |files[fds[fd].fileIndex].data|
  {
  }

  /** Every read: as many bytes as were asked for and are left, from the cursor on, which moves past
      them; an error for a descriptor that is not open or without a file system. */
  lemma ReadMeans(files: seq<File>, fds: seq<Fd>, rooted: bool, fd: int, len: nat)
    requires TableOk(files, fds)
    ensures var (fds', n, bytes) := ReadFd(files, fds, rooted, fd, len);
            if fd < 0 || fd >= MAX_FDS || !fds[fd].inUse then fds' == fds && n == E_BADF && bytes == []
            else if !rooted then fds' == fds && n == E_FAIL && bytes == []
            else
              var (data, at) := (files[fds[fd].fileIndex].data, fds[fd].offset);
              && n == (if at + len <= |data| then len else |data| - at)
              && bytes == data[at..at + n] && fds' == fds[fd := fds[fd].(offset := at + n)]
  {
  }

  // ------------------------------------------------------------------ the file system

  datatype Mount = Mount(inUse: bool, point: seq<u8>)

  /** A file system is mounted at "/". */
  function RootFrom(mounts: seq<Mount>, i: nat): bool
    requires i <= |mounts|
    decreases |mounts| - i
  {
    if i == |mounts| then false
    else (mounts[i].inUse && mounts[i].point == [SLASH]) || RootFrom(mounts, i + 1)
  }

  /** Files are found if and only if some slot in use is mounted at "/". */
  lemma {:induction false} RootedExactly(mounts: seq<Mount>, i: nat)
    requires i <= |mounts|
    ensures RootFrom(mounts, i) <==> exists k :: i <= k < |mounts| && mounts[k].inUse && mounts[k].point == [47]
    decreases |mounts| - i
  {
    if i < |mounts| {
      RootedExactly(mounts, i + 1);
    }
  }

  /** `bytes` written over `s` from `at` on. */
  function Patched(s: seq<u8>, at: nat, bytes: seq<u8>): (r: seq<u8>)
    requires at + |bytes| <= |s|
    ensures |r| == |s|
  {
    s[..at] + bytes + s[at + |bytes|..]
  }

  lemma PatchedAt(s: seq<u8>, at: nat, bytes: seq<u8>, r: seq<u8>)
    requires at + |bytes| <= |s| == |r|
    requires forall k :: 0 <= k < |s| ==> r[k] == if at <= k < at + |bytes| then bytes[k - at] else s[k]
    ensures r == Patched(s, at, bytes)
  {
  }

  class Vfs {
    const files: seq<File>
    const fdTable: array<Fd>
    const mountTable: array<Mount>

    ghost predicate Valid()
      reads this, fdTable, mountTable
    {
      mountTable.Length == MAX_MOUNTS && TableOk(files, fdTable[..])
    }

    function Rooted(): bool
      reads mountTable
    {
      RootFrom(mountTable[..], 0)
    }

    constructor (files: seq<File>)
      ensures this.files == files && Valid() && !Rooted() && fresh(fdTable) && fresh(mountTable)
    {
      this.files := files;
      fdTable := new Fd[MAX_FDS](_ => CLOSED);
      mountTable := new Mount[MAX_MOUNTS](_ => Mount(false, []));
      new;
      NoRoot(mountTable[..], 0);
    }

    method MountAt(point: seq<u8>) returns (r: int)
      requires Valid()
      modifies mountTable
      ensures Valid() && (r == E_OK || r == E_FAIL)
      ensures r == E_OK <==> exists i :: 0 <= i < MAX_MOUNTS && !old(mountTable[i]).inUse
      ensures r == E_OK && point == [SLASH] ==> Rooted()
      ensures r == E_FAIL ==> mountTable[..] == old(mountTable[..])
    {
      for i := 0 to MAX_MOUNTS
        invariant mountTable[..] == old(mountTable[..])
        invariant forall k :: 0 <= k < i ==> mountTable[k].inUse
      {
        if !mountTable[i].inUse {
          mountTable[i] := Mount(true, point);
          RootAt(mountTable[..], 0, i);
          return E_OK;
        }
      }
      return E_FAIL;
    }

    method FindFs() returns (found: bool)
      requires Valid()
      ensures found == Rooted()
    {
      for i := 0 to MAX_MOUNTS
        invariant RootFrom(mountTable[..], 0) == RootFrom(mountTable[..], i)
      {
        if mountTable[i].inUse && mountTable[i].point == [SLASH] {
          return true;
        }
      }
      return false;
    }

    method RamfsLookup(name: seq<u8>) returns (index: int)
      ensures index == match LookupFrom(files, name, 0) case None => E_NOENT case Some(i) => i
    {
      for i := 0 to |files|
        invariant LookupFrom(files, name, 0) == LookupFrom(files, name, i)
      {
        if files[i].name == name {
          return i;
        }
      }
      return E_NOENT;
    }

    method VfsOpen(path: seq<u8>, flags: int) returns (fd: int)
      requires Valid()
      modifies fdTable
      ensures Valid() && (fdTable[..], fd) == OpenFd(files, old(fdTable[..]), Rooted(), path, flags)
    {
      if flags != O_RDONLY {
        return E_ARG;
      }
      var found := FindFs();
      if !found {
        return E_NOENT;
      }
      var index := RamfsLookup(StripSlash(path));
      if index < 0 {
        return E_NOENT;
      }
      ghost var before := fdTable[..];
      for i := 3 to MAX_FDS
        invariant fdTable[..] == before && FreeFrom(before, 3) == FreeFrom(before, i)
      {
        if !fdTable[i].inUse {
          fdTable[i] := Fd(true, index, 0);
          assert fdTable[..] == before[i := Fd(true, index, 0)];
          OpenKeeps(files, before, true, path, flags);
          return i;
        }
      }
      return E_MFILE;
    }

    /** memcpy of the bytes a file has to give. */
    method RamfsRead(index: nat, offset: nat, buf: array<u8>, at: nat, len: nat) returns (n: int)
      requires at + len <= buf.Length
      modifies buf
      ensures index >= |files| ==> n == E_BADF && buf[..] == old(buf[..])
      ensures index < |files| ==>
                var bytes := Chunk(files[index].data, offset, len);
                n == |bytes| && buf[..] == Patched(old(buf[..]), at, bytes)
    {
      if index >= |files| {
        return E_BADF;
      }
      var data := files[index].data;
      if offset >= |data| {
        assert buf[..at] + [] + buf[at..] == buf[..];
        return 0;
      }
      var count := Min(len, |data| - offset);
      CopyBytes(buf, at, data, offset, count);
      return count;
    }

    method CopyBytes(buf: array<u8>, at: nat, data: seq<u8>, offset: nat, count: nat)
      requires at + count <= buf.Length && offset + count <= |data|
      modifies buf
      ensures buf[..] == Patched(old(buf[..]), at, data[offset..offset + count])
    {
      ghost var before := buf[..];
      for i := 0 to count
        invariant forall k :: 0 <= k < buf.Length ==>
                    buf[k] == if at <= k < at + i then data[offset + (k - at)] else before[k]
      {
        buf[at + i] := data[offset + i];
      }
      PatchedAt(before, at, data[offset..offset + count], buf[..]);
    }

    method VfsRead(fd: int, buf: array<u8>, at: nat, len: nat) returns (n: int)
      requires Valid() && at + len <= buf.Length
      modifies fdTable, buf
      ensures Valid()
      ensures var r := ReadFd(files, old(fdTable[..]), Rooted(), fd, len);
              && fdTable[..] == r.0 && n == r.1 && |r.2| <= len && buf[..] == Patched(old(buf[..]), at, r.2)
    {
      assert buf[..at] + [] + buf[at..] == buf[..];
      ghost var before := fdTable[..];
      if fd < 0 || fd >= MAX_FDS || !fdTable[fd].inUse {
        return E_BADF;
      }
      var found := FindFs();
      if !found {
        return E_FAIL;
      }
      n := RamfsRead(fdTable[fd].fileIndex, fdTable[fd].offset, buf, at, len);
      if n > 0 {
        fdTable[fd] := fdTable[fd].(offset := fdTable[fd].offset + n);
      }
      ReadKeeps(files, before, Rooted(), fd, len);
      assert fdTable[..] == ReadFd(files, before, Rooted(), fd, len).0;
    }

    method VfsClose(fd: int) returns (r: int)
      requires Valid()
      modifies fdTable
      ensures Valid() && (fdTable[..], r) == CloseFd(old(fdTable[..]), fd)
    {
      if fd < 0 || fd >= MAX_FDS || !fdTable[fd].inUse {
        return E_BADF;
      }
      fdTable[fd] := CLOSED;
      assert fdTable[..] == old(fdTable[..])[fd := CLOSED];
      return E_OK;
    }
  }

  lemma NoRoot(mounts: seq<Mount>, i: nat)
    requires i <= |mounts| && forall k :: 0 <= k < |mounts| ==> !mounts[k].inUse
    ensures !RootFrom(mounts, i)
    decreases |mounts| - i
  {
  }

  lemma {:induction false} RootAt(mounts: seq<Mount>, i: nat, k: nat)
    requires i <= k < |mounts|
    ensures mounts[k].inUse && mounts[k].point == [SLASH] ==> RootFrom(mounts, i)
    decreases |mounts| - i
  {
    if i < k {
      RootAt(mounts, i + 1, k);
    }
  }
}
