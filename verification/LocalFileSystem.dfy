/** The operations of parte-2 as they update the static tables, one at a time under single_global_lock. */
module LocalFileSystem {
  import opened Config
  import opened Bytes
  import opened Disk
  import opened Directory
  import opened Files
  import opened Invariant
  import opened FirstFit
  import opened Growth
  import opened ReadLoop
  import opened Tables
  import opened Opening
  import opened Formatting
  import opened FileSystem
  import opened SingleBlock

  /** i_data_block means nothing while the file is empty. */
  function CleanInode(ino: Inode): Inode {
    if ino.size == 0 then ino.(direct := ino.direct[0 := NONE]) else ino
  }

  /** The state that the tables stand for. */
  function Clean(fs: FS): FS {
    fs.(inodes := seq(INODE_TABLE_SIZE, n requires 0 <= n < INODE_TABLE_SIZE => CleanInode(fs.inodes[n])))
  }

  lemma CleanFormatted(fs: FS)
    requires Formatted(fs)
    ensures Formatted(Clean(fs)) && SmallWF(Clean(fs))
  {
    FormattedIsWF(Clean(fs));
  }

  lemma FirstIs(taken: seq<bool>, b: int)
    requires IsFirstFree(taken, b)
    ensures First(taken) == b
  {
    FirstIsFirst(taken);
  }

  lemma FullHasNoFirst(taken: seq<bool>)
    requires Full(taken)
    ensures First(taken) == NONE
  {
    FirstIsFirst(taken);
  }

  /** Changing one i-node changes what the tables stand for in that i-node only. */
  lemma CleanPut(fs: FS, n: int, ino: Inode)
    requires ValidInum(n)
    ensures Clean(PutInode(fs, n, ino)) == PutInode(Clean(fs), n, CleanInode(ino))
  {
    assert Clean(PutInode(fs, n, ino)).inodes == PutInode(Clean(fs), n, CleanInode(ino)).inodes;
  }

  class LocalFS {
    const tables: TecnicoFS

    ghost function View(): FS
      requires tables.Allocated()
      reads this, tables, tables.inodeTaken, tables.inodes, tables.blockTaken, tables.data, tables.handleTaken, tables.handles
    {
      Clean(tables.View())
    }

    ghost predicate Valid()
      reads this, tables, tables.inodeTaken, tables.inodes, tables.blockTaken, tables.data, tables.handleTaken, tables.handles
    {
      tables.Allocated() && SmallWF(View())
    }

    /** tfs_init. */
    constructor ()
      ensures Valid() && Formatted(View())
      ensures fresh(tables) && fresh(tables.inodeTaken) && fresh(tables.inodes) && fresh(tables.blockTaken)
      ensures fresh(tables.data) && fresh(tables.handleTaken) && fresh(tables.handles)
    {
      tables := new TecnicoFS();
      new;
      CleanFormatted(tables.View());
    }

    /** _tfs_write_unsynchronized. */
    method Write(h: int, buf: seq<Byte>) returns (r: int)
      requires Valid() && (ValidHandle(h) ==> Usable(View(), h))
      modifies tables.inodes, tables.blockTaken, tables.data, tables.handles
      ensures Valid()
      ensures (View(), r) == LocalWrite(old(View()), h, buf)
    {
      hide SmallWF, LocalWrite;
      ghost var fs := View();
      if !ValidHandle(h) {
        WriteNeedsHandle(fs, h, buf);
        return NONE;
      }
      HandleOf(fs, h);
      WriteSplicesLocally(fs, h, buf);
      var toWrite := |buf|;
      if toWrite + tables.handles[h].offset > BLOCK_SIZE {
        toWrite := BLOCK_SIZE - tables.handles[h].offset;
      }
      WriteCases(fs, h, buf);
      if toWrite == 0 {
        return 0;
      }
      r := WriteBytes(h, buf[..toWrite]);
    }

    /** The part of the write that moves bytes. */
    method WriteBytes(h: int, bytes: seq<Byte>) returns (r: int)
      requires tables.Allocated() && ValidHandle(h) && ValidInum(tables.handles[h].inum)
      requires bytes != [] && tables.handles[h].offset + |bytes| <= BLOCK_SIZE
      requires BlockWhenFull(View(), tables.handles[h].inum)
      modifies tables.inodes, tables.blockTaken, tables.data, tables.handles
      ensures (View(), r) == WriteTo(old(View()), h, bytes)
    {
      hide WriteTo, Stored, Filled, Slot, Patch;
      ghost var raw := tables.View();
      var n := tables.handles[h].inum;
      var b := BlockToFill(n);
      WriteToCases(raw, h, b, bytes);
      if !ValidBlock(b) {
        return NONE;
      }
      FilledHandles(raw, n, b);
      Store(h, b, bytes);
      return |bytes|;
    }

    /** The copy, and the offset and the size after it. */
    method Store(h: int, b: int, bytes: seq<Byte>)
      requires tables.Allocated() && ValidHandle(h) && ValidInum(tables.handles[h].inum) && ValidBlock(b)
      requires tables.handles[h].offset + |bytes| <= BLOCK_SIZE
      modifies tables.inodes, tables.data, tables.handles
      ensures tables.View() == Stored(old(tables.View()), h, b, bytes)
    {
      ghost var mid := tables.View();
      var n, off := tables.handles[h].inum, tables.handles[h].offset;
      tables.CopyIn(b * BLOCK_SIZE + off, bytes);
      tables.handles[h] := OpenFile(n, off + |bytes|);
      if off + |bytes| > tables.inodes[n].size {
        tables.inodes[n] := tables.inodes[n].(size := off + |bytes|);
      } else {
        assert mid.inodes[n := mid.inodes[n]] == mid.inodes;
      }
    }

    /** The block that a write goes to: a new one if the file is empty. */
    method BlockToFill(n: int) returns (b: Int32)
      requires tables.Allocated() && ValidInum(n)
      modifies tables.inodes, tables.blockTaken
      ensures var raw := old(tables.View());
              && tables.View() == Filled(raw, n, b)
              && b == (if raw.inodes[n].size == 0 then First(raw.blockTaken) else raw.inodes[n].direct[0])
    {
      ghost var raw := tables.View();
      if tables.inodes[n].size == 0 {
        b := tables.AllocBlock();
        if b == NONE { FullHasNoFirst(raw.blockTaken); } else { FirstIs(raw.blockTaken, b); }
        tables.inodes[n] := tables.inodes[n].(direct := tables.inodes[n].direct[0 := b]);
      } else {
        b := tables.inodes[n].direct[0];
        assert raw.inodes[n := raw.inodes[n]] == raw.inodes;
      }
    }

    /** _tfs_read_unsynchronized. */
    method Read(h: int, buffer: array<Byte>, len: nat) returns (r: int)
      requires Valid() && (ValidHandle(h) ==> Usable(View(), h)) && len <= buffer.Length && buffer != tables.data
      modifies tables.handles, buffer
      ensures Valid()
      ensures var (fs', r', bytes) := LocalRead(old(View()), h, len);
              && View() == fs' && r == r' && |bytes| <= buffer.Length
              && buffer[..|bytes|] == bytes && buffer[|bytes|..] == old(buffer[|bytes|..])
    {
      hide SmallWF, LocalRead, Clean, Stretch;
      ghost var raw := tables.View();
      if !ValidHandle(h) {
        ReadNeedsHandle(Clean(raw), h, len);
        return NONE;
      }
      ReadCases(raw, h, len);
      var n, off := tables.handles[h].inum, tables.handles[h].offset;
      var toRead := tables.inodes[n].size - off;
      if toRead > len {
        toRead := len;
      }
      if toRead > 0 {
        tables.CopyFromBlock(h, tables.inodes[n].direct[0], buffer, 0, toRead);
      }
      return toRead;
    }

    /** remove_from_open_file_table. */
    method Close(h: int) returns (r: int)
      requires Valid()
      modifies tables.handleTaken, tables
      ensures Valid()
      ensures (View(), r) == LocalClose(old(View()), h)
    {
      if !ValidHandle(h) || !tables.handleTaken[h] {
        return NONE;
      }
      ghost var raw := tables.View();
      tables.openCount := tables.openCount - 1;
      tables.handleTaken[h] := false;
      assert Clean(tables.View()).inodes == Clean(raw).inodes;
      CloseIsSmall(Clean(raw), h);
      return 0;
    }

    /** _tfs_open_unsynchronized. */
    method Open(path: CString, flags: Flags) returns (r: int)
      requires Valid()
      modifies tables, tables.inodeTaken, tables.inodes, tables.blockTaken, tables.data, tables.handleTaken, tables.handles
      ensures tables.Allocated() && (View(), r) == LocalOpen(old(View()), path, flags)
      ensures LocallySafe(old(View()), path, flags) ==> Valid()
    {
      hide SmallWF, LocalOpen, LocallySafe, RootOk, Find, LocalCreate;
      ghost var fs := View();
      SmallRoot(fs);
      RootOfTables(tables.View());
      OpenStaysSmall(fs, path, flags);
      OpenCases(fs, path, flags);
      var n := tables.Lookup(path);
      if ValidPath(path) { FoundIsInum(fs, path); }
      if n != NONE {
        r := OpenExisting(n, flags);
      } else if flags.create {
        r := Create(Tail(path));
      } else {
        r := NONE;
      }
    }

    /** An open of a file that exists. */
    method OpenExisting(n: int, flags: Flags) returns (r: int)
      requires tables.Allocated() && BlockWhenFull(View(), n)
      modifies tables, tables.inodes, tables.blockTaken, tables.handleTaken, tables.handles
      ensures tables.Allocated() && (View(), r) == Reopened(old(View()), n, flags)
    {
      ghost var raw := tables.View();
      if flags.truncate && tables.inodes[n].size > 0 {
        var ok := tables.FreeBlock(tables.inodes[n].direct[0]);
        tables.inodes[n] := tables.inodes[n].(size := 0);
        EmptiedIsLocal(raw, n);
        assert tables.View() == Voided(raw, n);
      } else if flags.truncate {
        assert Emptied(Clean(raw), n) == Clean(raw);
      }
      r := Hand(n, if flags.append then tables.inodes[n].size else 0);
    }

    /** add_to_open_file_table. */
    method Hand(n: int, offset: nat) returns (h: int)
      requires tables.Allocated()
      modifies tables, tables.handleTaken, tables.handles
      ensures tables.Allocated() && (View(), h) == Handed(old(View()), n, offset)
    {
      ghost var raw := tables.View();
      h := tables.AddHandle(n, offset);
      if h == NONE { FullHasNoFirst(raw.handleTaken); } else { FirstIs(raw.handleTaken, h); }
      assert Clean(tables.View()).inodes == Clean(raw).inodes;
    }

    /** An open that creates. */
    method Create(name: CString) returns (r: int)
      requires tables.Allocated() && RootOk(View())
      modifies tables, tables.inodeTaken, tables.inodes, tables.data, tables.handleTaken, tables.handles
      ensures tables.Allocated() && (View(), r) == LocalCreate(old(View()), name)
    {
      hide RootOk, Linked, FreeEntry, NthFree, EntryNum, Content;
      ghost var raw := tables.View();
      RootOfTables(raw);
      var n := tables.CreateFile();
      if n == NONE {
        FullHasNoFirst(raw.inodeTaken);
        return NONE;
      }
      FirstIs(raw.inodeTaken, n);
      RootStaysTaken(raw, n);
      var i := tables.AddDirEntry(n, name);
      EntryFound(raw, i, name);
      if i == NONE {
        tables.DeleteEmptyInode(n);
        GivenBack(raw, n);
        return NONE;
      }
      LinkIsLocal(raw, n, i, name);
      r := Hand(n, 0);
    }
  }

  lemma CloseIsSmall(fs: FS, h: int)
    requires SmallWF(fs) && ValidHandle(h) && fs.handleTaken[h]
    ensures SmallWF(Closed(fs, h))
  {
    ClosedKeepsWF(fs, h);
    hide WF;
    assert forall m :: IsFile(Closed(fs, h), m) == IsFile(fs, m);
  }

  /** The tables once file n has block b. */
  function Filled(raw: FS, n: int, b: Int32): FS
    requires ValidInum(n)
  {
    var ino := raw.inodes[n];
    if ino.size > 0 then raw
    else if ValidBlock(b) then PutInode(MarkBlock(raw, b, true), n, ino.(direct := ino.direct[0 := b]))
    else PutInode(raw, n, ino.(direct := ino.direct[0 := b]))
  }

  /** A file that is not empty has its block. */
  ghost predicate BlockWhenFull(fs: FS, n: int) {
    ValidInum(n) && (fs.inodes[n].size > 0 ==> ValidBlock(fs.inodes[n].direct[0]))
  }

  lemma HandleOf(fs: FS, h: int)
    requires SmallWF(fs) && Usable(fs, h)
    ensures fs.handles[h].offset <= BLOCK_SIZE && BlockWhenFull(fs, fs.handles[h].inum)
  {
    OffsetFits(fs, h);
    BlockOf(fs, fs.handles[h].inum);
  }

  lemma WriteNeedsHandle(fs: FS, h: int, buf: seq<Byte>)
    requires !ValidHandle(h)
    ensures LocalWrite(fs, h, buf) == (fs, NONE)
  {
  }

  /** The write once it is known how many bytes fit. */
  ghost function WriteTo(fs: FS, h: int, bytes: seq<Byte>): (FS, int)
    requires ValidHandle(h) && ValidInum(fs.handles[h].inum) && bytes != [] && fs.handles[h].offset + |bytes| <= BLOCK_SIZE
  {
    var mid := WithBlock(fs, fs.handles[h].inum);
    if ValidBlock(BlockNo(mid, fs.handles[h].inum, 0)) then (Copied(mid, h, 0, bytes), |bytes|) else (mid, NONE)
  }

  lemma WriteCases(fs: FS, h: int, buf: seq<Byte>)
    requires ValidHandle(h) && ValidInum(fs.handles[h].inum) && fs.handles[h].offset <= BLOCK_SIZE
    ensures var k := Fits(fs.handles[h].offset, |buf|);
            LocalWrite(fs, h, buf) == if k == 0 then (fs, 0) else WriteTo(fs, h, buf[..k])
  {
    hide Copied, WithBlock, Slot;
  }

  lemma FilledHandles(raw: FS, n: int, b: Int32)
    requires ValidInum(n)
    ensures Filled(raw, n, b).handles == raw.handles
  {
  }

  lemma WriteToCases(raw: FS, h: int, b: Int32, bytes: seq<Byte>)
    requires ValidHandle(h) && ValidInum(raw.handles[h].inum) && bytes != [] && raw.handles[h].offset + |bytes| <= BLOCK_SIZE
    requires var ino := raw.inodes[raw.handles[h].inum]; b == if ino.size == 0 then First(raw.blockTaken) else ino.direct[0]
    requires BlockWhenFull(Clean(raw), raw.handles[h].inum)
    ensures var mid := Filled(raw, raw.handles[h].inum, b);
            mid.handles == raw.handles &&
            WriteTo(Clean(raw), h, bytes) ==
              if ValidBlock(b) then (Clean(Stored(mid, h, b, bytes)), |bytes|) else (Clean(mid), NONE)
  {
    hide NthFree, Stored, Copied;
    var n := raw.handles[h].inum;
    if ValidBlock(b) {
      WriteIsLocal(raw, h, b, bytes);
    } else {
      NoBlock(raw, n, b);
    }
  }

  lemma NoBlock(raw: FS, n: int, b: Int32)
    requires ValidInum(n) && raw.inodes[n].size == 0 && !ValidBlock(b) && b == First(raw.blockTaken)
    ensures Clean(Filled(raw, n, b)) == Clean(raw) == WithBlock(Clean(raw), n) && BlockNo(Clean(raw), n, 0) == NONE
  {
    hide NthFree;
    var fs := Clean(raw);
    var ino := raw.inodes[n].(direct := raw.inodes[n].direct[0 := b]);
    CleanPut(raw, n, ino);
    assert CleanInode(ino).direct == fs.inodes[n].direct;
    assert fs.inodes[n := CleanInode(ino)] == fs.inodes;
    assert fs.inodes[n].direct[0 := NONE] == fs.inodes[n].direct;
  }

  /** The tables once the bytes are in block b, and the offset and the size moved on. */
  function Stored(mid: FS, h: int, b: int, bytes: seq<Byte>): FS
    requires ValidHandle(h) && ValidInum(mid.handles[h].inum) && ValidBlock(b)
    requires mid.handles[h].offset + |bytes| <= BLOCK_SIZE
  {
    var f := mid.handles[h];
    var ino := mid.inodes[f.inum];
    var end := f.offset + |bytes|;
    PutInode(PutBytes(mid, b * BLOCK_SIZE + f.offset, bytes), f.inum, if end > ino.size then ino.(size := end) else ino).(
      handles := mid.handles[h := OpenFile(f.inum, end)])
  }

  lemma WriteIsLocal(raw: FS, h: int, b: Int32, bytes: seq<Byte>)
    requires ValidHandle(h) && ValidInum(raw.handles[h].inum) && ValidBlock(b) && bytes != []
    requires raw.handles[h].offset + |bytes| <= BLOCK_SIZE
    requires var ino := raw.inodes[raw.handles[h].inum]; b == if ino.size == 0 then First(raw.blockTaken) else ino.direct[0]
    ensures var n := raw.handles[h].inum;
            var mid := WithBlock(Clean(raw), n);
            && BlockNo(mid, n, 0) == b && mid.handles == raw.handles
            && Clean(Stored(Filled(raw, n, b), h, b, bytes)) == Copied(mid, h, 0, bytes)
  {
    hide Patch, NthFree;
    var n := raw.handles[h].inum;
    var mid := WithBlock(Clean(raw), n);
    var fs, fs' := Clean(Stored(Filled(raw, n, b), h, b, bytes)), Copied(mid, h, 0, bytes);
    assert BlockNo(mid, n, 0) == b;
    assert fs.inodes[n].direct == fs'.inodes[n].direct;
    assert fs.inodes == fs'.inodes;
  }

  lemma ReadNeedsHandle(fs: FS, h: int, len: nat)
    requires !ValidHandle(h)
    ensures LocalRead(fs, h, len) == (fs, NONE, [])
  {
  }

  /** The read once it is known how much there is: a stretch of the file's block, or nothing. */
  lemma ReadCases(raw: FS, h: int, len: nat)
    requires SmallWF(Clean(raw)) && Usable(Clean(raw), h)
    ensures var f := raw.handles[h];
            var k := Available(raw, h, len);
            && ValidInum(f.inum) && f.offset <= raw.inodes[f.inum].size && SmallWF(Clean(MovedOn(raw, h, k)))
            && (k == 0 ==> MovedOn(raw, h, k) == raw && LocalRead(Clean(raw), h, len) == (Clean(raw), 0, []))
            && (k > 0 ==>
                  var b := raw.inodes[f.inum].direct[0];
                  && ValidBlock(b) && b * BLOCK_SIZE + f.offset % BLOCK_SIZE + k <= DISK_SIZE
                  && LocalRead(Clean(raw), h, len) == (Clean(MovedOn(raw, h, k)), k, Stretch(raw, h, b, k)))
  {
    hide Exclusive, AllCovered, DirOk, CountOk, Content, Slot;
    var f := raw.handles[h];
    var k := Available(raw, h, len);
    OffsetFits(Clean(raw), h);
    BlockOf(Clean(raw), f.inum);
    ReadSlicesLocally(Clean(raw), h, len);
    if k == 0 {
      assert MovedOn(raw, h, 0).handles == raw.handles;
    } else {
      StretchOfBlock(raw.data, raw.inodes[f.inum].direct[0], f.offset, k);
    }
  }

  // ---------------------------------------------------------------- open

  /** The root directory is the same in the tables and in what they stand for. */
  lemma RootOfTables(raw: FS)
    requires RootOk(Clean(raw))
    ensures RootOk(raw) && Root(raw) == Root(Clean(raw))
  {
    RootIsBlock(raw);
    RootIsBlock(Clean(raw));
  }

  lemma SmallRoot(fs: FS)
    requires SmallWF(fs)
    ensures RootOk(fs)
  {
  }

  /** A new file is clean. */
  lemma EmptyIsClean()
    ensures CleanInode(EMPTY_FILE) == EMPTY_FILE
  {
    assert EMPTY_FILE.direct[0 := NONE] == EMPTY_FILE.direct;
  }

  lemma FoundIsInum(fs: FS, path: CString)
    requires SmallWF(fs) && ValidPath(path)
    ensures var n := Find(Root(fs), FileName(path)); n != NONE ==> ValidInum(n) && BlockWhenFull(fs, n)
  {
    FoundIsFile(fs, FileName(path));
    var n := Find(Root(fs), FileName(path));
    if n != NONE { BlockOf(fs, n); }
  }

  ghost function Reopened(fs: FS, n: int, flags: Flags): (FS, int)
    requires ValidInum(n)
  {
    var mid := if flags.truncate then Emptied(fs, n) else fs;
    Handed(mid, n, if flags.append then mid.inodes[n].size else 0)
  }

  lemma OpenCases(fs: FS, path: CString, flags: Flags)
    requires RootOk(fs)
    ensures var n := if ValidPath(path) then Find(Root(fs), FileName(path)) else NONE;
            (n != NONE ==> ValidInum(n)) ==>
              LocalOpen(fs, path, flags) ==
                if n != NONE then Reopened(fs, n, flags) else if flags.create then LocalCreate(fs, Tail(path)) else (fs, NONE)
  {
    hide RootOk, Root, Find, LocalCreate, Handed, Emptied;
  }

  /** The tables after a truncation: the size is 0 and the block FREE, but its number is still there. */
  function Voided(raw: FS, n: int): FS
    requires ValidInum(n) && ValidBlock(raw.inodes[n].direct[0])
  {
    PutInode(MarkBlock(raw, raw.inodes[n].direct[0], false), n, raw.inodes[n].(size := 0))
  }

  lemma EmptiedIsLocal(raw: FS, n: int)
    requires ValidInum(n) && raw.inodes[n].size > 0 && ValidBlock(raw.inodes[n].direct[0])
    ensures Clean(Voided(raw, n)) == Emptied(Clean(raw), n)
  {
    var fs, fs' := Clean(Voided(raw, n)), Emptied(Clean(raw), n);
    assert fs.inodes[n] == fs'.inodes[n];
    assert fs.inodes == fs'.inodes;
  }

  lemma RootStaysTaken(raw: FS, n: int)
    requires RootOk(Clean(raw)) && RootOk(raw) && ValidInum(n) && !raw.inodeTaken[n]
    ensures RootOk(Created(raw, n)) && Root(Created(raw, n)) == Root(raw) && RootOk(Created(Clean(raw), n))
    ensures Clean(Created(raw, n)) == Created(Clean(raw), n)
  {
    EmptyIsClean();
    RootIsBlock(raw);
    RootIsBlock(Created(raw, n));
    assert Clean(Created(raw, n)).inodes == Created(Clean(raw), n).inodes;
  }

  lemma EntryFound(raw: FS, i: int, name: CString)
    requires RootOk(Clean(raw)) && RootOk(raw) && Root(raw) == Root(Clean(raw))
    requires if i == NONE then name == [] || AllUsed(Root(raw)) else IsFirstUnused(Root(raw), i)
    ensures if i == NONE then name == [] || FreeEntry(Root(Clean(raw)), 0) == NONE else i == FreeEntry(Root(Clean(raw)), 0)
  {
    hide RootOk, EntryNum, Content;
    EntryIsFirst(Root(raw), 0);
  }

  lemma GivenBack(raw: FS, n: int)
    requires ValidInum(n) && !raw.inodeTaken[n]
    ensures var made := Created(raw, n);
            Clean(made.(inodeTaken := made.inodeTaken[n := false])) == PutInode(Clean(raw), n, EMPTY_FILE)
  {
    EmptyIsClean();
    var made := Created(raw, n);
    var fs := Clean(made.(inodeTaken := made.inodeTaken[n := false]));
    assert fs.inodeTaken == raw.inodeTaken;
    assert fs.inodes == PutInode(Clean(raw), n, EMPTY_FILE).inodes;
  }

  lemma LinkIsLocal(raw: FS, n: int, i: int, name: CString)
    requires RootOk(Clean(raw)) && RootOk(raw) && ValidInum(n) && !raw.inodeTaken[n] && 0 <= i < MAX_DIR_ENTRIES
    requires RootOk(Created(raw, n)) && RootOk(Created(Clean(raw), n))
    ensures Clean(Linked(Created(raw, n), i, n, name)) == Linked(Created(Clean(raw), n), i, n, name)
  {
    hide Patch;
    EmptyIsClean();
    var fs, fs' := Clean(Linked(Created(raw, n), i, n, name)), Linked(Created(Clean(raw), n), i, n, name);
    assert n != ROOT_DIR_INUM;
    assert fs.inodes == fs'.inodes;
  }
}
