/**
  The file system of parte-2: each file has at most one data block, held from the first byte written until truncation.
  Its operations run one at a time, so each is a function of the whole state; i_data_block is direct slot 0, which
  counts as empty while the file is.
 */
module SingleBlock {
  import opened Config
  import opened Bytes
  import opened Disk
  import opened Directory
  import opened Ownership
  import opened Files
  import opened Invariant
  import opened FirstFit
  import opened Growth
  import opened ReadLoop
  import opened Tables
  import opened Truncation
  import opened Opening
  import opened Formatting

  /** Every file fits one block, and has it exactly when it is not empty. */
  ghost predicate Small(fs: FS) {
    forall n :: IsFile(fs, n) ==>
      fs.inodes[n].size <= BLOCK_SIZE && (fs.inodes[n].direct[0] == NONE <==> fs.inodes[n].size == 0)
  }

  ghost predicate SmallWF(fs: FS) {
    WF(fs) && Small(fs)
  }

  // ---------------------------------------------------------------- write

  /** How many of n bytes fit behind offset o. */
  function Fits(o: nat, n: nat): nat {
    if n + o <= BLOCK_SIZE then n else if o < BLOCK_SIZE then BLOCK_SIZE - o else 0
  }

  /** An empty file gets a block before it is written to. */
  function WithBlock(fs: FS, n: int): FS
    requires ValidInum(n)
  {
    if fs.inodes[n].size > 0 then fs
    else
      var b := First(fs.blockTaken);
      var ino := fs.inodes[n];
      if b == NONE then PutInode(fs, n, ino.(direct := ino.direct[0 := NONE]))
      else PutInode(MarkBlock(fs, b, true), n, ino.(direct := ino.direct[0 := b]))
  }

  /** _tfs_write_unsynchronized. */
  ghost function LocalWrite(fs: FS, h: int, buf: seq<Byte>): (FS, int) {
    if !ValidHandle(h) || !ValidInum(fs.handles[h].inum) then (fs, NONE)
    else
      var f := fs.handles[h];
      var k := Fits(f.offset, |buf|);
      if k == 0 then (fs, 0)
      else
        var mid := WithBlock(fs, f.inum);
        if ValidBlock(BlockNo(mid, f.inum, 0)) then (Copied(mid, h, 0, buf[..k]), k) else (mid, NONE)
  }

  lemma WriteBegins(fs: FS, h: int, buf: seq<Byte>)
    requires WF(fs) && Usable(fs, h)
    ensures Progress(fs, fs, h, buf, 0)
  {
    hide Slot, Content, Exclusive, AllCovered;
    var f := fs.handles[h];
    assert fs.handles == fs.handles[h := OpenFile(f.inum, f.offset + 0)];
    assert Splice(Content(fs, f.inum), f.offset, buf[..0]) == Content(fs, f.inum);
  }

  /** An empty file holds no block; any other holds the one it has its bytes in. */
  lemma BlockOf(fs: FS, n: int)
    requires SmallWF(fs) && IsFile(fs, n)
    ensures Slot(fs, n, 0) == BlockNo(fs, n, 0) == fs.inodes[n].direct[0]
    ensures if fs.inodes[n].size == 0 then Slot(fs, n, 0) == NONE else ValidBlock(Slot(fs, n, 0))
  {
    if fs.inodes[n].size > 0 { MappedIsValid(fs, n, 0); }
  }

  lemma BlockTaken(fs: FS, h: int, buf: seq<Byte>, b: int)
    requires SmallWF(fs) && Usable(fs, h) && fs.inodes[fs.handles[h].inum].size == 0
    requires b == First(fs.blockTaken) && b != NONE
    ensures var n := fs.handles[h].inum;
            var mid := WithBlock(fs, n);
            Progress(fs, mid, h, buf, 0) && BlockNo(mid, n, 0) == b && mid.handles == fs.handles
  {
    hide Slot, Content, Progress, DirOk, NthFree, Exclusive, AllCovered, Owns, Grows, Small, CountOk;
    var n := fs.handles[h].inum;
    OffsetFits(fs, h);
    BlockOf(fs, n);
    WriteBegins(fs, h, buf);
    TakeAndAttach(fs, n, 0, b);
    MappedKeepsProgress(fs, fs, WithBlock(fs, n), h, buf, 0);
  }

  /** The block that a write goes to: taken if the file is empty and a block is FREE. */
  lemma BlockReady(fs: FS, h: int, buf: seq<Byte>)
    requires SmallWF(fs) && Usable(fs, h)
    ensures var n := fs.handles[h].inum;
            var mid := WithBlock(fs, n);
            if fs.inodes[n].size == 0 && Full(fs.blockTaken) then mid == fs && BlockNo(fs, n, 0) == NONE
            else Progress(fs, mid, h, buf, 0) && ValidBlock(BlockNo(mid, n, 0)) && mid.handles == fs.handles
  {
    hide Slot, Content, Progress, DirOk, NthFree, Exclusive, AllCovered, Small, CountOk;
    var n := fs.handles[h].inum;
    OffsetFits(fs, h);
    BlockOf(fs, n);
    FirstIsFirst(fs.blockTaken);
    if fs.inodes[n].size > 0 {
      WriteBegins(fs, h, buf);
    } else if First(fs.blockTaken) == NONE {
      assert fs.inodes[n].direct[0 := NONE] == fs.inodes[n].direct;
      assert fs.inodes[n := fs.inodes[n]] == fs.inodes;
    } else {
      BlockTaken(fs, h, buf, First(fs.blockTaken));
    }
  }

  /** A local write puts in all of its bytes that fit the block and answers how many; it fails, and changes nothing, exactly
      when there is a byte to put in, the file is empty and no block is FREE. */
  lemma WriteSplicesLocally(fs: FS, h: int, buf: seq<Byte>)
    requires SmallWF(fs) && Usable(fs, h)
    ensures var f := fs.handles[h];
            var c := Content(fs, f.inum);
            var (fs', r) := LocalWrite(fs, h, buf);
            && SmallWF(fs') && f.offset <= |c| <= BLOCK_SIZE
            && (r == NONE <==> |buf| > 0 && f.offset < BLOCK_SIZE && c == [] && Full(fs.blockTaken))
            && (r == NONE ==> fs' == fs)
            && (r != NONE ==>
                  && r == (if f.offset + |buf| <= BLOCK_SIZE then |buf| else BLOCK_SIZE - f.offset)
                  && Content(fs', f.inum) == Splice(c, f.offset, buf[..r])
                  && OthersSame(fs, fs', {f.inum}) && fs'.inodeTaken == fs.inodeTaken
                  && fs'.handles == fs.handles[h := OpenFile(f.inum, f.offset + r)]
                  && fs'.handleTaken == fs.handleTaken && fs'.openCount == fs.openCount)
  {
    hide Slot, Content, Exclusive, AllCovered, DirOk, CountOk, Copied, WithBlock;
    var f := fs.handles[h];
    var k := Fits(f.offset, |buf|);
    OffsetFits(fs, h);
    assert |Content(fs, f.inum)| == fs.inodes[f.inum].size;
    if k == 0 {
      assert Splice(Content(fs, f.inum), f.offset, buf[..0]) == Content(fs, f.inum);
      assert fs.handles == fs.handles[h := OpenFile(f.inum, f.offset + 0)];
    } else {
      BlockReady(fs, h, buf[..k]);
      var mid := WithBlock(fs, f.inum);
      if ValidBlock(BlockNo(mid, f.inum, 0)) {
        CopyIsLast(fs, mid, h, buf, k);
      }
    }
  }

  lemma OffsetFits(fs: FS, h: int)
    requires SmallWF(fs) && Usable(fs, h)
    ensures fs.handles[h].offset <= BLOCK_SIZE && IsFile(fs, fs.handles[h].inum)
  {
  }

  lemma CopyIsLast(fs: FS, mid: FS, h: int, buf: seq<Byte>, k: nat)
    requires SmallWF(fs) && Usable(fs, h) && mid == WithBlock(fs, fs.handles[h].inum)
    requires 0 < k <= |buf| && fs.handles[h].offset + k <= BLOCK_SIZE
    requires Progress(fs, mid, h, buf[..k], 0) && mid.handles == fs.handles && ValidBlock(BlockNo(mid, fs.handles[h].inum, 0))
    ensures var f := fs.handles[h];
            var fs' := Copied(mid, h, 0, buf[..k]);
            && SmallWF(fs') && Content(fs', f.inum) == Splice(Content(fs, f.inum), f.offset, buf[..k])
            && OthersSame(fs, fs', {f.inum}) && fs'.handles == fs.handles[h := OpenFile(f.inum, f.offset + k)]
            && fs'.inodeTaken == fs.inodeTaken && fs'.handleTaken == fs.handleTaken && fs'.openCount == fs.openCount
  {
    hide Slot, Content, Exclusive, AllCovered, DirOk, CountOk;
    var f := fs.handles[h];
    var fs' := Copied(mid, h, 0, buf[..k]);
    CopyProgress(fs, mid, h, buf[..k], 0, 0, k);
    assert buf[..k][0..k] == buf[..k] && buf[..k][..k] == buf[..k];
    ProgressKeepsWF(fs, fs', h, buf[..k], k);
    CopiedIsSmall(fs, mid, h, buf[..k]);
  }

  lemma CopiedIsSmall(fs: FS, mid: FS, h: int, bytes: seq<Byte>)
    requires SmallWF(fs) && Usable(fs, h) && mid == WithBlock(fs, fs.handles[h].inum)
    requires bytes != [] && fs.handles[h].offset + |bytes| <= BLOCK_SIZE
    requires mid.handles == fs.handles && ValidBlock(BlockNo(mid, fs.handles[h].inum, 0))
    ensures Small(Copied(mid, h, 0, bytes))
  {
    hide Content, Exclusive, AllCovered, DirOk, CountOk, Patch;
    var n := fs.handles[h].inum;
    var fs' := Copied(mid, h, 0, bytes);
    forall m | IsFile(fs', m)
      ensures fs'.inodes[m].size <= BLOCK_SIZE && (fs'.inodes[m].direct[0] == NONE <==> fs'.inodes[m].size == 0)
    {
      assert IsFile(fs, m);
    }
  }

  // ---------------------------------------------------------------- read

  /** _tfs_read_unsynchronized. */
  ghost function LocalRead(fs: FS, h: int, len: nat): (FS, int, seq<Byte>) {
    if !ValidHandle(h) || !ValidInum(fs.handles[h].inum) then (fs, NONE, [])
    else
      var f := fs.handles[h];
      var k := Available(fs, h, len);
      if k == 0 then (fs, 0, [])
      else if ValidBlock(BlockNo(fs, f.inum, 0)) && f.offset + k <= BLOCK_SIZE then
        (MovedOn(fs, h, k), k, Block(fs.data, BlockNo(fs, f.inum, 0))[f.offset..f.offset + k])
      else (fs, NONE, [])
  }

  /** A local read returns the rest of the file, cut at len, and moves the offset past it. */
  lemma ReadSlicesLocally(fs: FS, h: int, len: nat)
    requires SmallWF(fs) && Usable(fs, h)
    ensures var f := fs.handles[h];
            var c := Content(fs, f.inum);
            var (fs', r, bytes) := LocalRead(fs, h, len);
            && f.offset <= |c| && r == (if |c| - f.offset > len then len else |c| - f.offset)
            && bytes == c[f.offset..f.offset + r] && fs' == MovedOn(fs, h, r) && SmallWF(fs')
  {
    hide Slot, Exclusive, DirOk, CountOk, ByteOf;
    var f := fs.handles[h];
    var k := Available(fs, h, len);
    OffsetFits(fs, h);
    assert |Content(fs, f.inum)| == fs.inodes[f.inum].size;
    MovedOnKeepsWF(fs, h, k);
    if k == 0 {
      assert MovedOn(fs, h, 0).handles == fs.handles;
    } else {
      assert Covered(fs, f.inum);
      assert BlockNo(fs, f.inum, 0) != NONE;
      MappedIsValid(fs, f.inum, 0);
      BlockIsContent(fs, f.inum, f.offset, k);
    }
  }

  // ---------------------------------------------------------------- close

  function LocalClose(fs: FS, h: int): (FS, int) {
    if ValidHandle(h) && fs.handleTaken[h] then (Closed(fs, h), 0) else (fs, NONE)
  }

  // ---------------------------------------------------------------- open

  /** The data block of a file that is not empty is given back. */
  function Emptied(fs: FS, n: int): FS
    requires ValidInum(n)
  {
    var ino := fs.inodes[n];
    if ino.size == 0 || !ValidBlock(ino.direct[0]) then fs
    else PutInode(MarkBlock(fs, ino.direct[0], false), n, ino.(direct := ino.direct[0 := NONE], size := 0))
  }

  /** add_to_open_file_table. */
  function Handed(fs: FS, n: int, offset: nat): (FS, int) {
    var h := First(fs.handleTaken);
    if h == NONE then (fs, NONE) else (Opened(fs, h, n, offset), h)
  }

  /** The first directory entry that is not in use. */
  function FreeEntry(c: seq<Byte>, i: nat): (r: int)
    requires |c| == BLOCK_SIZE && i <= MAX_DIR_ENTRIES
    ensures r == NONE || (i <= r < MAX_DIR_ENTRIES && EntryNum(c, r) == NONE)
    decreases MAX_DIR_ENTRIES - i
  {
    if i == MAX_DIR_ENTRIES then NONE else if EntryNum(c, i) == NONE then i else FreeEntry(c, i + 1)
  }

  /** A new file gets its entry, unless the name is empty or the directory is full: then it is given back. */
  ghost function LocalCreate(fs: FS, name: CString): (FS, int)
    requires RootOk(fs)
  {
    var n := First(fs.inodeTaken);
    if n == NONE then (fs, NONE) else LocalLink(fs, n, FreeEntry(Root(fs), 0), name)
  }

  ghost function LocalLink(fs: FS, n: int, i: int, name: CString): (FS, int)
    requires ValidInum(n) && i < MAX_DIR_ENTRIES
  {
    if i < 0 || name == [] then (PutInode(fs, n, EMPTY_FILE), NONE) else HandedOut(Created(fs, n), i, n, name)
  }

  ghost function HandedOut(made: FS, i: int, n: int, name: CString): (FS, int)
    requires 0 <= i < MAX_DIR_ENTRIES && ValidInum(n)
  {
    if RootOk(made) then Handed(Linked(made, i, n, name), n, 0) else (made, NONE)
  }

  /** The path without its first byte, whatever that is. An empty path lies in the zero-filled field of a request, so another
      NUL follows it. */
  function Tail(path: CString): CString {
    if path == [] then []
    else
      assert forall b :: b in path[1..] ==> b in path;
      path[1..]
  }

  /** _tfs_lookup_unsynchronized. */
  ghost function LocalLookup(fs: FS, path: CString): int
    requires RootOk(fs)
  {
    if ValidPath(path) then Find(Root(fs), FileName(path)) else NONE
  }

  /** _tfs_open_unsynchronized. A path that is not valid is not found, but it may still name a file to create. */
  ghost function LocalOpen(fs: FS, path: CString, flags: Flags): (FS, int) {
    if !RootOk(fs) then (fs, NONE)
    else
      var n := LocalLookup(fs, path);
      if n != NONE && ValidInum(n) then
        var mid := if flags.truncate then Emptied(fs, n) else fs;
        Handed(mid, n, if flags.append then mid.inodes[n].size else 0)
      else if flags.create then LocalCreate(fs, Tail(path))
      else (fs, NONE)
  }

  lemma EmptiedIsTruncated(fs: FS, n: int)
    requires SmallWF(fs) && IsFile(fs, n) && fs.inodes[n].size > 0
    ensures TruncatedTo(fs, Emptied(fs, n), n, 1, false, true) && Exclusive(Emptied(fs, n), {})
  {
    var ino := fs.inodes[n];
    assert Owns(fs, n, 0);
    var mid := MarkBlock(fs, ino.direct[0], false);
    var mid' := PutInode(mid, n, ino.(direct := ino.direct[0 := NONE]));
    FreeOwned(fs, n, 0, {});
    ClearSlot(mid, mid', n, 0, {});
    SameMaps(mid', Emptied(fs, n));
    SameOwnership(mid', Emptied(fs, n), {});
    assert ino.direct[..1] == [ino.direct[0]];
  }

  /** Truncation leaves the state well formed exactly when no open handle stood past the start of the file. */
  lemma EmptiedKeepsWFIff(fs: FS, n: int)
    requires SmallWF(fs) && IsFile(fs, n)
    ensures var fs' := Emptied(fs, n);
            && Exclusive(fs', {}) && DirOk(fs') && IsFile(fs', n) && OthersSame(fs, fs', {n}) && Content(fs', n) == []
            && Root(fs') == Root(fs) && fs'.handleTaken == fs.handleTaken
            && (SmallWF(fs') <==> fs.inodes[n].size == 0 || NoneBeyondStart(fs, n))
  {
    var fs' := Emptied(fs, n);
    if fs.inodes[n].size > 0 {
      EmptiedIsTruncated(fs, n);
      TruncatedOthers(fs, fs', n, 1, false, true);
      EmptiedCovered(fs, n);
      hide Exclusive, Slot, Content, DirOk, TruncatedTo;
      assert Content(fs', ROOT_DIR_INUM) == Content(fs, ROOT_DIR_INUM);
      assert Content(fs', n) == [];
    } else {
      assert |Content(fs, n)| == 0;
    }
  }

  lemma EmptiedCovered(fs: FS, n: int)
    requires SmallWF(fs) && IsFile(fs, n) && fs.inodes[n].size > 0
    ensures AllCovered(Emptied(fs, n)) && Small(Emptied(fs, n))
  {
    var fs' := Emptied(fs, n);
    forall m | IsFile(fs', m) ensures Covered(fs', m) {
      assert Covered(fs, m);
      if m != n {
        forall i | 0 <= i && i * BLOCK_SIZE < fs'.inodes[m].size ensures BlockNo(fs', m, i) != NONE {
          assert BlockNo(fs, m, i) != NONE;
        }
      }
    }
  }

  // ---------------------------------------------------------------- what an open does

  lemma {:induction false} EntryIsFirst(c: seq<Byte>, i: nat)
    requires |c| == BLOCK_SIZE && i <= MAX_DIR_ENTRIES && forall j :: 0 <= j < i ==> EntryNum(c, j) != NONE
    ensures if FreeEntry(c, i) == NONE then AllUsed(c) else IsFirstUnused(c, FreeEntry(c, i))
    decreases MAX_DIR_ENTRIES - i
  {
    hide EntryNum;
    if i < MAX_DIR_ENTRIES && EntryNum(c, i) != NONE { EntryIsFirst(c, i + 1); }
  }

  /** Adding an open-file entry keeps the state well formed if it was, and small if it was. */
  lemma HandedKeeps(fs: FS, n: int, offset: nat)
    requires Exclusive(fs, {}) && DirOk(fs) && IsFile(fs, n) && offset <= fs.inodes[n].size
    ensures var (fs', r) := Handed(fs, n, offset);
            && HandleAdded(fs, fs', r, n, offset) && (SmallWF(fs') <==> SmallWF(fs))
            && Root(fs') == Root(fs) && DirOk(fs') && Content(fs', n) == Content(fs, n)
  {
    hide Slot, Content, Exclusive, AllCovered, EntryNum, NumsUnique, CountOk;
    FirstIsFirst(fs.handleTaken);
    var h := First(fs.handleTaken);
    if h != NONE {
      OpenedKeepsWFIff(fs, h, n, offset);
      TableDoesNotShow(fs, Opened(fs, h, n, offset));
      OpenedIsSmall(fs, h, n, offset);
    }
  }

  lemma OpenedIsSmall(fs: FS, h: int, n: int, offset: nat)
    requires ValidHandle(h)
    ensures Small(Opened(fs, h, n, offset)) <==> Small(fs)
  {
    var fs' := Opened(fs, h, n, offset);
    assert forall m :: IsFile(fs', m) == IsFile(fs, m);
  }

  /** The opens that leave the state well formed: all but truncations that leave a handle past the end of its file. */
  ghost predicate LocallySafe(fs: FS, path: CString, flags: Flags)
    requires RootOk(fs)
  {
    var n := LocalLookup(fs, path);
    flags.truncate && ValidInum(n) ==> fs.inodes[n].size == 0 || NoneBeyondStart(fs, n)
  }

  /** An open of a file that exists truncates it if so asked, and stands at its start or its end; it leaves the state well
      formed exactly when it is safe. */
  lemma OpenExistingLocally(fs: FS, path: CString, flags: Flags)
    requires SmallWF(fs) && LocalLookup(fs, path) != NONE
    ensures var n := LocalLookup(fs, path);
            var c := if flags.truncate then [] else Content(fs, n);
            var (fs', r) := LocalOpen(fs, path, flags);
            && IsFile(fs, n) && Content(fs', n) == c && DirOk(fs') && Root(fs') == Root(fs)
            && (if r == NONE then Full(fs.handleTaken)
                else IsFirstFree(fs.handleTaken, r) && fs'.handles[r] == OpenFile(n, if flags.append then |c| else 0))
            && (SmallWF(fs') <==> LocallySafe(fs, path, flags))
  {
    hide Slot, Content, Exclusive, AllCovered, EntryNum, NumsUnique, CountOk, Find, Handed, Emptied, NoneBeyondStart, Small;
    FoundIsFile(fs, FileName(path));
    var n := LocalLookup(fs, path);
    var mid := if flags.truncate then Emptied(fs, n) else fs;
    if flags.truncate { EmptiedKeepsWFIff(fs, n); }
    assert |Content(mid, n)| == mid.inodes[n].size;
    HandedKeeps(mid, n, if flags.append then mid.inodes[n].size else 0);
  }

  /** A file that is created is empty, and its entry is the first unused one. */
  lemma CreateLocally(fs: FS, path: CString)
    requires SmallWF(fs) && Tail(path) != [] && First(fs.inodeTaken) != NONE && FreeEntry(Root(fs), 0) != NONE
    ensures var n := First(fs.inodeTaken);
            var (fs', r) := LocalCreate(fs, Tail(path));
            && SmallWF(fs') && IsFile(fs', n) && Content(fs', n) == []
            && Root(fs') == WithEntry(Root(fs), FreeEntry(Root(fs), 0), n, Tail(path))
  {
    hide Slot, Content, Exclusive, AllCovered, EntryNum, NumsUnique, CountOk, Find, Handed, WithEntry, RootOk;
    var n := First(fs.inodeTaken);
    var i := FreeEntry(Root(fs), 0);
    FirstIsFirst(fs.inodeTaken);
    EntryIsFirst(Root(fs), 0);
    CreatedKeepsWF(fs, n);
    var mid := Linked(Created(fs, n), i, n, Tail(path));
    assert LinkedAt(fs, mid, n, i, Tail(path));
    CreateKeepsWF(fs, mid, n, Tail(path));
    var i' :| IsFirstUnused(Root(fs), i') && Root(mid) == WithEntry(Root(fs), i', n, Tail(path));
    assert i' == i;
    LinkedIsSmall(fs, n, i, Tail(path));
    HandedKeeps(mid, n, 0);
  }

  lemma LinkedIsSmall(fs: FS, n: int, i: int, name: CString)
    requires Small(fs) && ValidInum(n) && RootOk(Created(fs, n)) && 0 <= i < MAX_DIR_ENTRIES
    ensures Small(Linked(Created(fs, n), i, n, name))
  {
    hide Patch;
    var fs' := Linked(Created(fs, n), i, n, name);
    forall m | IsFile(fs', m)
      ensures fs'.inodes[m].size <= BLOCK_SIZE && (fs'.inodes[m].direct[0] == NONE <==> fs'.inodes[m].size == 0)
    {
      assert m != n ==> IsFile(fs, m);
    }
  }

  /** A creating open keeps names unique exactly when nothing answers to the stored part of the path behind its first byte.
      For a valid path of at most 39 more bytes the lookup has seen to that. */
  lemma CreateKeepsNamesIff(fs: FS, path: CString, flags: Flags)
    requires SmallWF(fs) && NamesUnique(Root(fs)) && Tail(path) != [] && flags.create
    requires LocalLookup(fs, path) == NONE && First(fs.inodeTaken) != NONE && FreeEntry(Root(fs), 0) != NONE
    ensures var (fs', r) := LocalOpen(fs, path, flags);
            && DirOk(fs') && (NamesUnique(Root(fs')) <==> Find(Root(fs), Truncated(Tail(path))) == NONE)
    ensures ValidPath(path) && |path| <= MAX_FILE_NAME ==> NamesUnique(Root(LocalOpen(fs, path, flags).0))
  {
    hide Slot, Content, Exclusive, AllCovered, EntryNum, NumsUnique, CountOk, Find, LocalCreate, WithEntry,
         NamesUnique, Small;
    CreateLocally(fs, path);
    AddKeepsUnique(Root(fs), FreeEntry(Root(fs), 0), First(fs.inodeTaken), Tail(path));
  }

  /** The path with another first byte. */
  function Unslashed(path: CString, first: Byte): (other: CString)
    requires path != [] && first != 0
    ensures other != [] && Tail(other) == Tail(path) && other[0] == first
  {
    var other := path[0 := first];
    assert forall b :: b in other ==> b == first || b in path;
    assert other[1..] == path[1..];
    other
  }

  /** So a path without a slash is not refused: it makes a second entry for a name that is there already. */
  lemma PathWithoutSlashDuplicates(fs: FS, path: CString, first: Byte)
    requires SmallWF(fs) && NamesUnique(Root(fs)) && ValidPath(path) && |path| <= MAX_FILE_NAME
    requires Find(Root(fs), FileName(path)) != NONE && First(fs.inodeTaken) != NONE && FreeEntry(Root(fs), 0) != NONE
    requires first != 0 && first != path[0]
    ensures var (fs', r) := LocalOpen(fs, Unslashed(path, first), Flags(true, false, false));
            DirOk(fs') && !NamesUnique(Root(fs'))
  {
    hide Slot, Content, Exclusive, AllCovered, EntryNum, NumsUnique, CountOk, Find, LocalOpen, WithEntry, NamesUnique,
         Small, FreeEntry;
    CreateKeepsNamesIff(fs, Unslashed(path, first), Flags(true, false, false));
  }

  lemma FailedCreateKeepsSmall(fs: FS, path: CString)
    requires SmallWF(fs)
    requires !(Tail(path) != [] && First(fs.inodeTaken) != NONE && FreeEntry(Root(fs), 0) != NONE)
    ensures SmallWF(LocalCreate(fs, Tail(path)).0)
  {
    hide Slot, Content, Exclusive, AllCovered, EntryNum, DirOk, CountOk, FreeEntry, NthFree;
    var n := First(fs.inodeTaken);
    if n != NONE {
      FreeInodeDoesNotShow(fs, PutInode(fs, n, EMPTY_FILE), n);
      assert forall m :: IsFile(PutInode(fs, n, EMPTY_FILE), m) ==> m != n && IsFile(fs, m);
    }
  }

  lemma OpenStaysSmall(fs: FS, path: CString, flags: Flags)
    requires SmallWF(fs)
    ensures LocallySafe(fs, path, flags) ==> SmallWF(LocalOpen(fs, path, flags).0)
  {
    hide Slot, Content, Exclusive, AllCovered, EntryNum, NumsUnique, CountOk, Small, Find, LocalCreate, Handed,
         Emptied, FreeEntry, LocallySafe, NthFree;
    if LocalLookup(fs, path) != NONE {
      OpenExistingLocally(fs, path, flags);
    } else if flags.create {
      if Tail(path) != [] && First(fs.inodeTaken) != NONE && FreeEntry(Root(fs), 0) != NONE {
        CreateLocally(fs, path);
      } else {
        FailedCreateKeepsSmall(fs, path);
      }
    }
  }
}
