/** The file system of parte-1: static tables updated in place, one operation at a time. */
module FileSystem {
  import opened Config
  import opened Bytes
  import opened Disk
  import opened Directory
  import opened Ownership
  import opened Files
  import opened Invariant
  import opened Growth
  import opened Transfer
  import opened FirstFit
  import opened IndexRoom
  import opened Overrun
  import opened WriteLoop
  import opened ReadLoop
  import opened Tables
  import opened Truncation
  import opened Opening
  import opened OpenOutcome
  import opened Formatting

  class TecnicoFS {
    const inodeTaken: array<bool>
    const inodes: array<Inode>
    const blockTaken: array<bool>
    const data: array<Byte>
    const handleTaken: array<bool>
    const handles: array<OpenFile>
    var openCount: int

    /** The tables have the sizes that config.h gives them, and are distinct. */
    predicate Allocated() {
      && inodeTaken.Length == inodes.Length == INODE_TABLE_SIZE
      && blockTaken.Length == DATA_BLOCKS
      && data.Length == DISK_SIZE
      && handleTaken.Length == handles.Length == MAX_OPEN_FILES
      && inodeTaken != blockTaken && inodeTaken != handleTaken && blockTaken != handleTaken
    }

    /** tfs_init: state_init, then inode_create(T_DIRECTORY) for the root. */
    constructor ()
      ensures Valid() && Formatted(View())
      ensures fresh(inodeTaken) && fresh(inodes) && fresh(blockTaken) && fresh(data) && fresh(handleTaken) && fresh(handles)
    {
      inodeTaken := new bool[INODE_TABLE_SIZE](_ => false);
      inodes := new Inode[INODE_TABLE_SIZE](_ => EMPTY_FILE);
      blockTaken := new bool[DATA_BLOCKS](_ => false);
      data := new Byte[DISK_SIZE](_ => 0);
      handleTaken := new bool[MAX_OPEN_FILES](_ => false);
      handles := new OpenFile[MAX_OPEN_FILES](_ => OpenFile(0, 0));
      openCount := 0;
      new;
      CreateRoot();
      FormattedIsWF(View());
    }

    /** inode_create(T_DIRECTORY) on tables that are all FREE. */
    method CreateRoot()
      requires Allocated() && openCount == 0
      requires (forall n :: ValidInum(n) ==> !inodeTaken[n]) && (forall b :: ValidBlock(b) ==> !blockTaken[b])
      requires forall h :: ValidHandle(h) ==> !handleTaken[h]
      modifies inodeTaken, inodes, blockTaken, data
      ensures Formatted(View())
    {
      inodeTaken[ROOT_DIR_INUM] := true;
      assert !blockTaken[..][0];
      var b := AllocBlock();
      assert b == 0;
      var root := inodes[ROOT_DIR_INUM];
      inodes[ROOT_DIR_INUM] := root.(isDir := true, size := BLOCK_SIZE, direct := root.direct[0 := b], indirect := NONE);
      ClearEntries();
    }

    /** The loop in inode_create that marks every directory entry as not in use. */
    method ClearEntries()
      requires Allocated()
      modifies data
      ensures View() == old(View()).(data := data[..])
      ensures forall i :: 0 <= i < MAX_DIR_ENTRIES ==> EntryNum(Block(data[..], 0), i) == NONE
    {
      hide IntAt, EncodeInt;
      var i := 0;
      while i < MAX_DIR_ENTRIES
        invariant 0 <= i <= MAX_DIR_ENTRIES && data.Length == DISK_SIZE
        invariant forall j :: 0 <= j < i ==> EntryNum(Block(data[..], 0), j) == NONE
      {
        ghost var was := data[..];
        CopyIn(DIR_ENTRY_SIZE * i + MAX_FILE_NAME, EncodeInt(NONE));
        EntryCleared(was, i);
        i := i + 1;
      }
    }

    ghost function View(): FS
      requires Allocated()
      reads this, inodeTaken, inodes, blockTaken, data, handleTaken, handles
    {
      FSRec(inodeTaken[..], inodes[..], blockTaken[..], data[..], handleTaken[..], handles[..], openCount)
    }

    /** The tables are allocated and hold a well-formed file system. */
    ghost predicate Valid()
      reads this, inodeTaken, inodes, blockTaken, data, handleTaken, handles
    {
      Allocated() && WF(View())
    }

    // -------------------------------------------------------------- state.c: data blocks

    /** data_block_alloc: the first FREE block becomes TAKEN. */
    method AllocBlock() returns (b: Int32)
      requires Allocated()
      modifies blockTaken
      ensures b == NONE ==> Full(blockTaken[..]) && View() == old(View())
      ensures b != NONE ==> IsFirstFree(old(blockTaken[..]), b) && View() == MarkBlock(old(View()), b, true)
    {
      var i := 0;
      while i < DATA_BLOCKS
        invariant 0 <= i <= DATA_BLOCKS
        invariant forall c :: 0 <= c < i ==> blockTaken[c]
        invariant blockTaken[..] == old(blockTaken[..])
      {
        if !blockTaken[i] {
          blockTaken[i] := true;
          return i;
        }
        i := i + 1;
      }
      return NONE;
    }

    /** data_block_free: a valid block becomes FREE whatever it was. */
    method FreeBlock(b: int) returns (ok: bool)
      requires Allocated()
      modifies blockTaken
      ensures ok <==> ValidBlock(b)
      ensures View() == if ok then MarkBlock(old(View()), b, false) else old(View())
    {
      if !ValidBlock(b) {
        return false;
      }
      blockTaken[b] := false;
      return true;
    }

    /** memcpy into fs_data. */
    method CopyIn(a: nat, s: seq<Byte>)
      requires Allocated() && a + |s| <= DISK_SIZE
      modifies data
      ensures View() == PutBytes(old(View()), a, s)
    {
      forall k | 0 <= k < |s| {
        data[a + k] := s[k];
      }
      assert data[..] == Patch(old(data[..]), a, s);
    }

    /** The C int at address a of fs_data. */
    function IntIn(a: nat): (v: Int32)
      requires Allocated() && a + 4 <= DISK_SIZE
      reads data
      ensures v == IntAt(data[..], a)
    {
      IntInStretch(data[..], a, a + 4, a);
      IntAt(data[a..a + 4], 0)
    }

    /** The fill of a new index block, with the bound that the code uses. */
    method FillIndexBlock(b: nat)
      requires Allocated() && b + 3 < DATA_BLOCKS
      modifies data
      ensures View() == old(View()).(data := Filled(old(data[..]), b))
    {
      var j := MAX_DIRECT_BLOCKS;
      ghost var d := data[..];
      while j < BLOCK_SIZE
        invariant MAX_DIRECT_BLOCKS <= j <= BLOCK_SIZE
        invariant data[..] == Patch(d, b * BLOCK_SIZE, seq(4 * (j - MAX_DIRECT_BLOCKS), _ => 255))
      {
        assert EncodeInt(NONE) == [255, 255, 255, 255];
        CopyIn(b * BLOCK_SIZE + 4 * (j - MAX_DIRECT_BLOCKS), EncodeInt(NONE));
        j := j + 1;
      }
    }

    // -------------------------------------------------------------- operations.c: tfs_write

    /** The part of the loop in tfs_write that finds, or allocates, the block to write to. */
    method BlockToWrite(n: int, i: nat, ghost hi: int) returns (b: Int32)
      requires Allocated() && Exclusive(View(), {}) && AllCovered(View())
      requires IsFile(View(), n) && i < hi <= MAX_FILE_BLOCKS && Room(View(), n, i, hi)
      modifies inodes, blockTaken, data
      ensures Mapped(old(View()), View(), n) && OnlyBlocks(old(View()), View(), n, i, i + 1)
      ensures Room(View(), n, i + 1, hi)
      ensures b == BlockNo(View(), n, i)
      ensures if b == NONE then Full(blockTaken[..]) else ValidBlock(b)
      ensures old(BlockNo(View(), n, i)) != NONE ==> View() == old(View())
    {
      if i < MAX_DIRECT_BLOCKS {
        b := DirectBlockToWrite(n, i, hi);
      } else {
        ghost var fs0 := View();
        var ok := EnsureIndex(n, i, hi);
        if !ok {
          return NONE;
        }
        ghost var fs1 := View();
        b := EntryToWrite(n, i);
        MappedTrans(fs0, fs1, View(), n);
      }
      if b != NONE { MappedIsValid(View(), n, i); }
    }

    method DirectBlockToWrite(n: int, i: nat, ghost hi: int) returns (b: Int32)
      requires Allocated() && Exclusive(View(), {}) && AllCovered(View())
      requires IsFile(View(), n) && i < MAX_DIRECT_BLOCKS && Room(View(), n, i, hi)
      modifies inodes, blockTaken
      ensures Mapped(old(View()), View(), n) && OnlyBlocks(old(View()), View(), n, i, i + 1)
      ensures Room(View(), n, i + 1, hi)
      ensures b == BlockNo(View(), n, i)
      ensures b == NONE ==> Full(blockTaken[..])
      ensures old(BlockNo(View(), n, i)) != NONE ==> View() == old(View())
    {
      hide Exclusive, AllCovered, Mapped;
      ghost var fs0 := View();
      MappedRefl(fs0, n);
      b := inodes[n].direct[i];
      if b == NONE {
        b := AllocBlock();
        ghost var fs1 := View();
        inodes[n] := inodes[n].(direct := inodes[n].direct[i := b]);
        if b == NONE {
          assert inodes[n].direct == fs0.inodes[n].direct;
          assert inodes[..] == fs0.inodes;
        } else {
          assert View() == PutSlot(fs1, n, i, b);
          TakeAndAttach(fs0, n, i, b);
          RoomAfterDirect(fs0, View(), n, i, hi, b);
        }
      }
    }

    method EntryToWrite(n: int, i: nat) returns (b: Int32)
      requires Allocated() && Exclusive(View(), {}) && AllCovered(View())
      requires IsFile(View(), n) && MAX_DIRECT_BLOCKS <= i < MAX_FILE_BLOCKS && ValidBlock(inodes[n].indirect)
      modifies blockTaken, data
      ensures Mapped(old(View()), View(), n) && OnlyBlocks(old(View()), View(), n, i, i + 1)
      ensures b == BlockNo(View(), n, i)
      ensures b == NONE ==> Full(blockTaken[..])
      ensures old(BlockNo(View(), n, i)) != NONE ==> View() == old(View())
    {
      hide Exclusive, AllCovered, Mapped, EncodeInt, IntAt, Block, Patch;
      ghost var fs0 := View();
      MappedRefl(fs0, n);
      var a := inodes[n].indirect * BLOCK_SIZE + 4 * (i - MAX_DIRECT_BLOCKS);
      b := IntIn(a);
      EntryIsSlot(fs0, n, i);
      if b == NONE {
        b := AllocBlock();
        ghost var fs1 := View();
        CopyIn(a, EncodeInt(b));
        if b == NONE {
          EntryRewritten(fs0, n, i);
        } else {
          assert View() == PutSlot(fs1, n, i + 1, b);
          TakeAndAttach(fs0, n, i + 1, b);
        }
      }
    }

    /** The part that gives a file its index block when it has none. */
    method EnsureIndex(n: int, i: nat, ghost hi: int) returns (ok: bool)
      requires Allocated() && Exclusive(View(), {}) && AllCovered(View())
      requires IsFile(View(), n) && MAX_DIRECT_BLOCKS <= i < hi <= MAX_FILE_BLOCKS && Room(View(), n, i, hi)
      modifies inodes, blockTaken, data
      ensures Mapped(old(View()), View(), n)
      ensures forall s :: s != INDEX_SLOT ==> Slot(View(), n, s) == Slot(old(View()), n, s)
      ensures Room(View(), n, i + 1, hi)
      ensures ok ==> ValidBlock(inodes[n].indirect)
      ensures !ok ==> Full(blockTaken[..]) && View() == old(View()) && inodes[n].indirect == NONE
      ensures old(inodes[n].indirect) != NONE ==> View() == old(View())
    {
      hide Exclusive, AllCovered, Mapped, IndexInstalled;
      ghost var fs0 := View();
      MappedRefl(fs0, n);
      if inodes[n].indirect == NONE {
        var b := AllocBlock();
        ghost var fs1 := View();
        inodes[n] := inodes[n].(indirect := b);
        if b == NONE {
          assert View() == fs0;
          return false;
        }
        RoomAtIndex(fs0, n, i, hi, b);
        FillIndexBlock(b);
        FillInstallsIff(fs1, View(), n, b);
        TakeAndInstall(fs0, View(), n, b);
      }
      IndexIsValid(View(), n);
      return true;
    }

    /** memcpy into block i of the file, and past its end where the bytes run so far; then the offset and the size move on. */
    method CopyToBlock(h: int, n: int, b: int, bytes: seq<Byte>, ghost i: nat)
      requires Allocated() && ValidHandle(h) && n == handles[h].inum && ValidInum(n)
      requires b == BlockNo(View(), n, i) && i == handles[h].offset / BLOCK_SIZE && InArray(View(), h, i, |bytes|)
      modifies inodes, data, handles
      ensures old(InArray(View(), h, i, |bytes|)) && View() == Copied(old(View()), h, i, bytes)
    {
      var off := handles[h].offset;
      CopyIn(b * BLOCK_SIZE + off % BLOCK_SIZE, bytes);
      handles[h] := handles[h].(offset := off + |bytes|);
      if handles[h].offset > inodes[n].size {
        inodes[n] := inodes[n].(size := handles[h].offset);
      }
      ghost var was := old(View());
      assert off + |bytes| == i * BLOCK_SIZE + off % BLOCK_SIZE + |bytes|;
      assert inodes[..] == Copied(was, h, i, bytes).inodes;
      assert handles[..] == Copied(was, h, i, bytes).handles;
    }

    /** One iteration of the loop in tfs_write; k is NONE when no block is left. */
    method WriteStep(ghost fs0: FS, h: int, n: int, buf: seq<Byte>, i: nat, end: nat, written: nat)
      returns (k: int, last: bool)
      requires Allocated() && WF(fs0) && Usable(fs0, h) && Confined(fs0, h, |buf|) && |buf| > 0
      requires n == fs0.handles[h].inum && i < end && Poised(fs0, View(), h, buf, i, end, written)
      modifies inodes, blockTaken, data, handles
      ensures k == NONE ==> Stuck(fs0, View(), h, buf, written) && Full(blockTaken[..])
      ensures k == NONE ==> !Straddles(BLOCK_SIZE, fs0.handles[h].offset, |buf|)
      ensures k != NONE ==> 0 < k <= |buf| - written
      ensures k != NONE && last ==> Ended(fs0, View(), h, buf, written + k)
      ensures k != NONE && !last ==> Poised(fs0, View(), h, buf, i + 1, end, written + k)
    {
      hide Exclusive, AllCovered, Progress, Pending, Poised, BlockSet, Ended, Stuck, InArray, OnlyBlocks, Slot, Mapped,
           Room, HighBlock, WF, Allocated, Copied, Confined;
      ghost var fs1 := View();
      IterationStarts(fs0, fs1, h, buf, i, end, written);
      var b := BlockToWrite(n, i, HighBlock(fs0.handles[h].offset, |buf|));
      ghost var fs2 := View();
      BlockIsSet(fs0, fs1, fs2, h, buf, i, end, written);
      if b == NONE {
        StopsAtBlock(fs0, fs2, h, buf, i, end, written);
        return NONE, true;
      }
      CopyFits(fs0, fs2, h, buf, i, end, written);
      var off := handles[h].offset;
      var left := |buf| - written;
      if i + 1 < end && left > BLOCK_SIZE - off % BLOCK_SIZE {
        k, last := BLOCK_SIZE - off % BLOCK_SIZE, false;
        CopyToBlock(h, n, b, buf[written..written + k], i);
      } else if left <= BLOCK_SIZE {
        k, last := left, true;
        CopyToBlock(h, n, b, buf[written..written + left], i);
      } else {
        k, last := BLOCK_SIZE, false;
        CopyToBlock(h, n, b, buf[written..written + BLOCK_SIZE], i);
      }
      CopyGoesOn(fs0, fs2, View(), h, buf, i, end, written, k);
    }

    /** The loop in tfs_write. */
    method WriteBlocks(h: int, n: int, buf: seq<Byte>) returns (r: int)
      requires Valid() && Usable(View(), h) && Confined(View(), h, |buf|)
      requires n == handles[h].inum && |buf| > 0
      modifies inodes, blockTaken, data, handles
      ensures r != NONE ==> r >= 0 && Ended(old(View()), View(), h, buf, r)
      ensures r == NONE ==> Full(blockTaken[..]) && exists moved :: Stuck(old(View()), View(), h, buf, moved)
      ensures r == NONE ==> !old(Straddles(BLOCK_SIZE, handles[h].offset, |buf|))
    {
      hide Progress, Poised, Ended, Stuck, Confined, WF, Allocated;
      ghost var fs0 := View();
      WriteStarts(fs0, h, buf);
      var i: nat := handles[h].offset / BLOCK_SIZE;
      var end := (handles[h].offset + |buf|) / BLOCK_SIZE;
      if |buf| % BLOCK_SIZE > 0 {
        end := end + 1;
      }
      var written: nat := 0;
      while i < end
        invariant written <= |buf| && Poised(fs0, View(), h, buf, i, end, written)
      {
        var k, last := WriteStep(fs0, h, n, buf, i, end, written);
        if k == NONE {
          return NONE;
        }
        written := written + k;
        if last {
          return written;
        }
        i := i + 1;
      }
      LoopEnds(fs0, View(), h, buf, i, end, written);
      return written;
    }

    /** tfs_write. A write that straddles two blocks leaves what one copy past the end of the first leaves; any other, and this one
        too where the two lie one behind the other, does what its plan says. */
    method Write(h: int, buf: seq<Byte>) returns (r: int)
      requires Valid()
      requires ValidHandle(h) ==> Usable(View(), h) && Confined(View(), h, |buf|)
      modifies inodes, blockTaken, data, handles
      ensures !ValidHandle(h) ==> r == NONE && View() == old(View())
      ensures ValidHandle(h) && old(Straddles(BLOCK_SIZE, handles[h].offset, |buf|)) ==>
                && r == BLOCK_SIZE && old(Astride(View(), h))
                && View() == WrittenAstride(old(View()), h, buf)
      ensures ValidHandle(h) && old(Writable(View(), h, |buf|)) ==>
                if r == NONE then
                  Full(blockTaken[..]) && Stuck(old(View()), View(), h, buf, handles[h].offset - old(handles[h].offset))
                else r >= 0 && Done(old(View()), View(), h, buf, r)
      ensures !ValidHandle(h) || old(Writable(View(), h, |buf|)) ==> Valid()
    {
      if !ValidHandle(h) {
        return NONE;
      }
      var n := handles[h].inum;
      r := 0;
      ghost var fs0 := View();
      if |buf| > 0 {
        r := WriteBlocks(h, n, buf);
      }
      WriteOutcome(fs0, View(), h, buf, r);
    }

    // -------------------------------------------------------------- operations.c: tfs_read

    /** The number of block i of file n, through the index block where need be. */
    method BlockToRead(n: int, i: nat) returns (b: Int32)
      requires Allocated() && IsFile(View(), n) && i < MAX_FILE_BLOCKS
      ensures b == BlockNo(View(), n, i)
    {
      if i < MAX_DIRECT_BLOCKS {
        return inodes[n].direct[i];
      }
      if !ValidBlock(inodes[n].indirect) {
        return NONE;
      }
      b := IntIn(inodes[n].indirect * BLOCK_SIZE + 4 * (i - MAX_DIRECT_BLOCKS));
      EntryIsSlot(View(), n, i);
    }

    /** memcpy out of block b, and past its end where the bytes run so far; then the offset moves on. */
    method CopyFromBlock(h: int, b: int, buffer: array<Byte>, at: nat, k: nat)
      requires Allocated() && ValidHandle(h) && ValidBlock(b) && buffer != data
      requires b * BLOCK_SIZE + handles[h].offset % BLOCK_SIZE + k <= DISK_SIZE && at + k <= buffer.Length
      modifies handles, buffer
      ensures View() == MovedOn(old(View()), h, k)
      ensures buffer[..] == Patch(old(buffer[..]), at, old(Stretch(View(), h, b, k)))
    {
      var off := handles[h].offset;
      var from := b * BLOCK_SIZE + off % BLOCK_SIZE;
      forall j | 0 <= j < k {
        buffer[at + j] := data[from + j];
      }
      handles[h] := handles[h].(offset := off + k);
      assert buffer[..] == Patch(old(buffer[..]), at, old(Stretch(View(), h, b, k)));
    }

    /** One iteration of the loop in tfs_read. */
    method ReadStep(ghost fs0: FS, h: int, n: int, buffer: array<Byte>, len: nat, i: nat, end: nat, moved: nat)
      returns (k: nat, last: bool)
      requires Allocated() && WF(fs0) && ValidHandle(h) && ReadPoised(fs0, View(), h, buffer[..], len, i, end, moved)
      requires n == fs0.handles[h].inum && i < end && buffer != data
      modifies handles, buffer
      ensures k <= len - moved && buffer[moved + k..] == old(buffer[moved + k..])
      ensures last ==> ReadEnded(fs0, View(), h, buffer[..], len, moved + k)
      ensures !last ==> ReadPoised(fs0, View(), h, buffer[..], len, i + 1, end, moved + k)
    {
      hide ReadPoised, ReadEnded, WF, Slot, Allocated, MovedOn, Stretch;
      ghost var fs1 := View();
      ghost var before := buffer[..];
      ReadTurnStarts(fs0, fs1, h, before, len, i, end, moved);
      var b := BlockToRead(n, i);
      var off := handles[h].offset;
      var left := len - moved;
      if i + 1 < end && left > BLOCK_SIZE - off % BLOCK_SIZE {
        k, last := BLOCK_SIZE - off % BLOCK_SIZE, false;
        CopyFromBlock(h, b, buffer, moved, k);
      } else if left <= BLOCK_SIZE {
        k, last := left, true;
        CopyFromBlock(h, b, buffer, moved, k);
      } else {
        k, last := BLOCK_SIZE, false;
        CopyFromBlock(h, b, buffer, moved, k);
      }
      ReadTurnEnds(fs0, fs1, h, before, len, i, end, moved, k);
    }

    /** tfs_read. It delivers the bytes of the file exactly when it is readable. */
    method Read(h: int, buffer: array<Byte>, len: nat) returns (r: int)
      requires Valid() && len <= buffer.Length && buffer != data
      requires ValidHandle(h) ==> Usable(View(), h) && ReadConfined(View(), h, len)
      modifies handles, buffer
      ensures Valid()
      ensures !ValidHandle(h) ==> r == NONE && View() == old(View()) && buffer[..] == old(buffer[..])
      ensures ValidHandle(h) ==>
                var f := old(handles[h]);
                var c := Content(old(View()), f.inum);
                && r == Moves(BLOCK_SIZE, f.offset, Available(old(View()), h, len))
                && f.offset + r <= |c|
                && (buffer[..r] == c[f.offset..f.offset + r] <==> old(Readable(View(), h, len)))
                && buffer[r..] == old(buffer[r..])
                && View() == MovedOn(old(View()), h, r)
    {
      if !ValidHandle(h) {
        return NONE;
      }
      ghost var fs0 := View();
      var n := handles[h].inum;
      var toRead := inodes[n].size - handles[h].offset;
      if toRead > len {
        toRead := len;
      }
      if toRead <= 0 {
        assert handles[..] == MovedOn(fs0, h, 0).handles;
        return 0;
      }
      r := ReadBlocks(h, n, buffer, toRead);
      ReadEnds(fs0, View(), h, buffer[..], len, r);
    }

    /** The loop in tfs_read. */
    method ReadBlocks(h: int, n: int, buffer: array<Byte>, toRead: nat) returns (r: nat)
      requires Valid() && Usable(View(), h) && n == handles[h].inum
      requires 0 < toRead <= buffer.Length && toRead <= inodes[n].size - handles[h].offset && buffer != data
      requires Straddles(BLOCK_SIZE, handles[h].offset, toRead) ==>
                 ValidBlock(BlockNo(View(), n, handles[h].offset / BLOCK_SIZE) + 1)
      modifies handles, buffer
      ensures r <= buffer.Length && buffer[r..] == old(buffer[r..])
      ensures ReadEnded(old(View()), View(), h, buffer[..], toRead, r)
    {
      hide ReadPoised, ReadEnded, Content, MovedOn, Exclusive, AllCovered, DirOk, CountOk, Slot;
      ghost var fs0 := View();
      var i: nat := handles[h].offset / BLOCK_SIZE;
      var end := (handles[h].offset + toRead) / BLOCK_SIZE;
      if toRead % BLOCK_SIZE > 0 {
        end := end + 1;
      }
      ReadBegins(fs0, h, buffer[..], toRead);
      r := 0;
      while i < end
        invariant r <= toRead && ReadPoised(fs0, View(), h, buffer[..], toRead, i, end, r)
        invariant buffer[r..] == old(buffer[r..])
      {
        ghost var rest := buffer[r..];
        var k, last := ReadStep(fs0, h, n, buffer, toRead, i, end, r);
        r := r + k;
        assert buffer[r..] == rest[k..];
        if last {
          return r;
        }
        i := i + 1;
      }
      ReadRunsOut(fs0, View(), h, buffer[..], toRead, i, end, r);
    }

    // -------------------------------------------------------------- state.c: i-nodes, directory, open files

    /** inode_create(T_FILE): the first FREE i-node becomes an empty file. */
    method CreateFile() returns (n: int)
      requires Allocated()
      modifies inodeTaken, inodes
      ensures n == NONE ==> Full(inodeTaken[..]) && View() == old(View())
      ensures n != NONE ==> IsFirstFree(old(inodeTaken[..]), n) && View() == Created(old(View()), n)
    {
      n := 0;
      while n < INODE_TABLE_SIZE
        invariant 0 <= n <= INODE_TABLE_SIZE
        invariant forall m :: 0 <= m < n ==> inodeTaken[m]
        invariant inodeTaken[..] == old(inodeTaken[..]) && inodes[..] == old(inodes[..])
      {
        if !inodeTaken[n] {
          inodeTaken[n] := true;
          inodes[n] := EMPTY_FILE;
          return n;
        }
        n := n + 1;
      }
      return NONE;
    }

    /** inode_delete of a file without blocks. */
    method DeleteEmptyInode(n: int)
      requires Allocated() && ValidInum(n) && inodes[n].size == 0
      modifies inodeTaken
      ensures View() == old(View()).(inodeTaken := old(inodeTaken[..])[n := false])
    {
      inodeTaken[n] := false;
    }

    /** The scan in add_dir_entry for the first entry not in use. */
    method FindFreeEntry() returns (i: int)
      requires Allocated() && RootOk(View())
      ensures if i == NONE then AllUsed(Root(View())) else IsFirstUnused(Root(View()), i)
    {
      hide Content, EntryNum, IntAt, Slot;
      ghost var fs0 := View();
      i := 0;
      while i < MAX_DIR_ENTRIES
        invariant 0 <= i <= MAX_DIR_ENTRIES
        invariant forall j :: 0 <= j < i ==> EntryNum(Root(fs0), j) != NONE
      {
        EntryOnDisk(fs0, i);
        if IntIn(EntryAddr(inodes[ROOT_DIR_INUM].direct[0], i) + MAX_FILE_NAME) == NONE {
          return i;
        }
        i := i + 1;
      }
      return NONE;
    }

    /** add_dir_entry in the root directory. */
    method AddDirEntry(n: Int32, name: CString) returns (i: int)
      requires Allocated() && RootOk(View())
      modifies data
      ensures i == NONE ==> (name == [] || !ValidInum(n) || AllUsed(old(Root(View())))) && View() == old(View())
      ensures i != NONE ==>
                && name != [] && ValidInum(n) && IsFirstUnused(old(Root(View())), i)
                && View() == Linked(old(View()), i, n, name)
    {
      hide Content, EntryNum, IntAt, Slot;
      if !ValidInum(n) || |name| == 0 {
        return NONE;
      }
      i := FindFreeEntry();
      if i != NONE {
        CopyIn(EntryAddr(inodes[ROOT_DIR_INUM].direct[0], i), StoredName(name) + EncodeInt(n));
      }
    }

    /** find_in_dir in the root directory. */
    method FindInDir(name: CString) returns (n: int)
      requires Allocated() && RootOk(View())
      ensures n == Find(Root(View()), name)
    {
      hide Content, EntryNum, EntryName, IntAt, NameMatches, Slot;
      ghost var fs0 := View();
      var i := 0;
      while i < MAX_DIR_ENTRIES
        invariant 0 <= i <= MAX_DIR_ENTRIES
        invariant Find(Root(fs0), name) == FindFrom(Root(fs0), name, i)
      {
        var a := EntryAddr(inodes[ROOT_DIR_INUM].direct[0], i);
        EntryOnDisk(fs0, i);
        n := IntIn(a + MAX_FILE_NAME);
        if n != NONE && NameMatches(data[a..a + MAX_FILE_NAME], name) {
          return;
        }
        i := i + 1;
      }
      return NONE;
    }

    /** add_to_open_file_table. */
    method AddHandle(n: int, offset: nat) returns (h: int)
      requires Allocated()
      modifies handleTaken, handles, this
      ensures h == NONE ==> Full(handleTaken[..]) && View() == old(View())
      ensures h != NONE ==> IsFirstFree(old(handleTaken[..]), h) && View() == Opened(old(View()), h, n, offset)
    {
      h := 0;
      while h < MAX_OPEN_FILES
        invariant 0 <= h <= MAX_OPEN_FILES
        invariant forall g :: 0 <= g < h ==> handleTaken[g]
        invariant View() == old(View())
      {
        if !handleTaken[h] {
          handleTaken[h] := true;
          handles[h] := OpenFile(n, offset);
          openCount := openCount + 1;
          return;
        }
        h := h + 1;
      }
      return NONE;
    }

    /** tfs_close, that is, remove_from_open_file_table. */
    method Close(h: int) returns (r: int)
      requires Valid()
      modifies handleTaken, this
      ensures Valid()
      ensures r == 0 <==> ValidHandle(h) && old(handleTaken[h])
      ensures r == 0 ==> View() == Closed(old(View()), h)
      ensures r != 0 ==> r == NONE && View() == old(View())
    {
      if !ValidHandle(h) || !handleTaken[h] {
        return NONE;
      }
      ghost var fs0 := View();
      openCount := openCount - 1;
      handleTaken[h] := false;
      ClosedKeepsWF(fs0, h);
      return 0;
    }

    // -------------------------------------------------------------- operations.c: tfs_open

    /** The truncation in tfs_open. */
    method Truncate(n: int) returns (ok: bool)
      requires Valid() && IsFile(View(), n)
      modifies inodes, blockTaken
      ensures Exclusive(View(), {})
      ensures inodes[n].size == 0 || !ok
      ensures var ino := old(inodes[n]);
              && ok == CanTruncate(ino)
              && if ino.size == 0 then View() == old(View())
                 else TruncatedTo(old(View()), View(), n, Leading(ino.direct, LoopLimit(ino.size)),
                                  ok && WrittenBlocks(ino.size) >= MAX_DIRECT_BLOCKS, ok)
    {
      hide Slot, DirOk, AllCovered, Exclusive, CountOk, Content, TruncatedTo;
      if inodes[n].size == 0 {
        return true;
      }
      ghost var fs0 := View();
      ghost var ino0 := inodes[n];
      var writtenBlocks := inodes[n].size / BLOCK_SIZE;
      if writtenBlocks % BLOCK_SIZE != 0 {
        writtenBlocks := writtenBlocks + 1;
      }
      var limit := if writtenBlocks <= MAX_DIRECT_BLOCKS then writtenBlocks else MAX_DIRECT_BLOCKS;
      ok := FreeDirect(n, limit);
      if !ok {
        return false;
      }
      if writtenBlocks >= MAX_DIRECT_BLOCKS {
        ok := FreeIndex(fs0, n);
        if !ok {
          return false;
        }
      }
      ghost var fs1 := View();
      inodes[n] := inodes[n].(size := 0);
      TruncateEnds(fs0, fs1, View(), n, limit, writtenBlocks >= MAX_DIRECT_BLOCKS);
    }

    method FreeDirect(n: int, limit: nat) returns (ok: bool)
      requires Valid() && IsFile(View(), n) && limit <= MAX_DIRECT_BLOCKS
      modifies inodes, blockTaken
      ensures Exclusive(View(), {})
      ensures ok <==> Leading(old(inodes[n].direct), limit) == limit
      ensures TruncatedTo(old(View()), View(), n, Leading(old(inodes[n].direct), limit), false, false)
    {
      ghost var fs0 := View();
      ghost var direct0 := inodes[n].direct;
      assert TruncatedTo(fs0, fs0, n, 0, false, false);
      var i := 0;
      while i < limit
        invariant 0 <= i <= limit && Exclusive(View(), {})
        invariant TruncatedTo(fs0, View(), n, i, false, false)
        invariant forall j :: 0 <= j < i ==> direct0[j] != NONE
      {
        ghost var fs1 := View();
        SlotIsValid(fs1, n, i);
        ok := FreeBlock(inodes[n].direct[i]);
        if !ok {
          return false;
        }
        inodes[n] := inodes[n].(direct := inodes[n].direct[i := NONE]);
        TruncateStep(fs0, fs1, View(), n, i, i);
        i := i + 1;
      }
      return true;
    }

    method FreeIndex(ghost fs0: FS, n: int) returns (ok: bool)
      requires Allocated() && WF(fs0) && IsFile(fs0, n) && Exclusive(View(), {})
      requires TruncatedTo(fs0, View(), n, MAX_DIRECT_BLOCKS, false, false)
      modifies inodes, blockTaken
      ensures Exclusive(View(), {})
      ensures ok <==> fs0.inodes[n].indirect != NONE
      ensures TruncatedTo(fs0, View(), n, MAX_DIRECT_BLOCKS, ok, false)
    {
      ghost var fs1 := View();
      SlotIsValid(fs1, n, INDEX_SLOT);
      ok := FreeBlock(inodes[n].indirect);
      if ok {
        inodes[n] := inodes[n].(indirect := NONE);
        TruncateStep(fs0, fs1, View(), n, MAX_DIRECT_BLOCKS, INDEX_SLOT);
      }
    }

    /** tfs_lookup. */
    method Lookup(path: CString) returns (n: int)
      requires Allocated() && RootOk(View())
      ensures n == if ValidPath(path) then Find(Root(View()), FileName(path)) else NONE
    {
      if !ValidPath(path) {
        return NONE;
      }
      n := FindInDir(FileName(path));
    }

    /** The part of tfs_open for a file that exists. */
    method OpenExisting(n: int, flags: Flags) returns (ok: bool, offset: nat)
      requires Valid() && IsFile(View(), n)
      modifies inodes, blockTaken
      ensures Prepared(old(View()), View(), n, flags.truncate, ok)
      ensures ok ==> offset == if flags.append then inodes[n].size else 0
    {
      ok, offset := true, 0;
      if flags.truncate {
        ok := Truncate(n);
        if !ok {
          return;
        }
      }
      if flags.append {
        offset := inodes[n].size;
      }
    }

    /** The part of tfs_open that creates the file. */
    method OpenNew(name: CString) returns (n: int)
      requires Valid() && name != []
      modifies inodeTaken, inodes, data
      ensures if n == NONE then NotCreated(old(View()), View()) else CreatedAndLinked(old(View()), View(), n, name)
    {
      ghost var fs0 := View();
      n := CreateFile();
      if n == NONE {
        return;
      }
      CreatedKeeps(fs0, n);
      hide Slot, Content, Exclusive, AllCovered, EntryNum;
      assert Content(View(), ROOT_DIR_INUM) == Content(fs0, ROOT_DIR_INUM);
      ghost var fs1 := View();
      var i := AddDirEntry(n, name);
      if i == NONE {
        DeleteEmptyInode(n);
        assert fs0.inodeTaken[n := true][n := false] == fs0.inodeTaken;
        return NONE;
      }
      assert IsFirstUnused(Root(fs0), i) && LinkedAt(fs0, View(), n, i, name);
    }

    /** tfs_open. The ghost results name the file and the state before the open-file entry was added. */
    method Open(path: CString, flags: Flags) returns (r: int, ghost n: int, ghost mid: FS)
      requires Valid()
      modifies inodeTaken, inodes, blockTaken, data, handleTaken, handles, this
      ensures Exclusive(View(), {})
      ensures OpenEffect(old(View()), View(), path, flags, r, n, mid)
      ensures Valid() <==> OpenIsSafe(old(View()), path, flags)
      ensures forall name: CString :: name != [] && path == [SLASH] + name ==>
                Outcome(old(View()), View(), name, flags, r, CanEmpty(old(View()), Find(Root(old(View())), name)))
      ensures |path| < 2 || path[0] != SLASH ==> r == NONE && View() == old(View())
    {
      hide Exclusive, AllCovered, HandlesOk, CountOk, RootOk, NumsUnique, Slot, Content, EntryNum, Find, Prepared,
           CreatedAndLinked, NotCreated, OpenIsSafe;
      ghost var fs0 := View();
      r, n, mid := NONE, NONE, fs0;
      if ValidPath(path) {
        FoundIsFile(fs0, FileName(path));
        var inum := Lookup(path);
        var ok, offset := true, 0;
        if inum >= 0 {
          ok, offset := OpenExisting(inum, flags);
        } else if flags.create {
          inum := OpenNew(FileName(path));
          ok := inum != NONE;
        } else {
          ok := false;
        }
        n, mid := inum, View();
        if ok {
          r := AddHandle(inum, offset);
        }
      }
      OpenKeepsWFIff(fs0, View(), path, flags, r, n, mid);
      forall name: CString | name != [] && path == [SLASH] + name
        ensures Outcome(fs0, View(), name, flags, r, CanEmpty(fs0, Find(Root(fs0), name)))
      {
        OpenIsAsAsked(fs0, View(), path, flags, r, n, mid, name);
      }
      OpenIsAsAsked(fs0, View(), path, flags, r, n, mid, []);
    }

    // -------------------------------------------------------------- operations.c: tfs_copy_to_external_fs

    /** tfs_copy_to_external_fs; `out` is what is written to the external file. */
    method CopyToExternal(path: CString) returns (ok: bool, out: seq<Byte>)
      requires Valid()
      modifies inodeTaken, inodes, blockTaken, data, handleTaken, handles, this
      ensures Valid()
      ensures forall name: CString :: name != [] && path == [SLASH] + name ==>
                && (ok <==> Find(Root(old(View())), name) != NONE && !Full(old(handleTaken[..])))
                && (ok ==> out == Content(old(View()), Find(Root(old(View())), name)))
      ensures |path| < 2 || path[0] != SLASH ==> !ok
      ensures !ok ==> out == [] && View() == old(View())
      ensures OthersSame(old(View()), View(), {})
      ensures handleTaken[..] == old(handleTaken[..])
    {
      hide Exclusive, AllCovered, HandlesOk, CountOk, RootOk, NumsUnique, Slot, Content, EntryNum, Find, OpenEffect;
      ghost var fs0 := View();
      ghost var n, mid;
      var h;
      h, n, mid := Open(path, Flags(false, false, false));
      PlainOpen(fs0, View(), path, h, n, mid);
      CopyFinds(fs0, path, h);
      if h == NONE {
        return false, [];
      }
      ghost var fs1 := View();
      TakenIsUsable(View(), h);
      out := ReadAll(h);
      ghost var fs2 := View();
      var r := Close(h);
      CopyEnds(fs0, fs1, fs2, View(), h, n, |out|);
      return true, out;
    }

    /** The loop in tfs_copy_to_external_fs: reads of one block, until one comes back short. */
    method ReadAll(h: int) returns (out: seq<Byte>)
      requires Valid() && Usable(View(), h) && handles[h].offset == 0
      modifies handles
      ensures Valid()
      ensures out == Content(old(View()), old(handles[h].inum)) && View() == MovedOn(old(View()), h, |out|)
    {
      hide WF, Content, MovedOn, Readable, Available, Moves;
      ghost var fs0 := View();
      ghost var n := handles[h].inum;
      ghost var c := Content(fs0, n);
      var buffer := new Byte[BLOCK_SIZE];
      out := [];
      var r: int := BLOCK_SIZE;
      StillAtStart(fs0, h);
      while r == BLOCK_SIZE
        invariant Valid() && buffer != data && |out| <= |c| && out == c[..|out|]
        invariant View() == MovedOn(fs0, h, |out|)
        invariant r == BLOCK_SIZE ==> |out| % BLOCK_SIZE == 0
        invariant r != BLOCK_SIZE ==> |out| == |c|
        decreases if r == BLOCK_SIZE then |c| - |out| + 1 else 0
      {
        forall k | 0 <= k < BLOCK_SIZE {
          buffer[k] := 0;
        }
        BlockReadIsWhole(fs0, h, |out|);
        ghost var at := |out|;
        r := Read(h, buffer, BLOCK_SIZE);
        out := out + buffer[..r];
        assert out == c[..at + r];
        MovedTwice(fs0, h, at, r);
      }
    }
  }

  lemma StillAtStart(fs: FS, h: int)
    requires ValidHandle(h) && fs.handles[h].offset == 0
    ensures MovedOn(fs, h, 0) == fs
  {
    assert MovedOn(fs, h, 0).handles == fs.handles;
  }

  lemma MovedTwice(fs: FS, h: int, j: nat, k: nat)
    requires ValidHandle(h)
    ensures MovedOn(MovedOn(fs, h, j), h, k) == MovedOn(fs, h, j + k)
  {
    assert MovedOn(MovedOn(fs, h, j), h, k).handles == MovedOn(fs, h, j + k).handles;
  }

  /** A read of one block at a block boundary is regular, and delivers the next block or all that is left. */
  lemma BlockReadIsWhole(fs0: FS, h: int, k: nat)
    requires WF(fs0) && Usable(fs0, h) && fs0.handles[h].offset == 0
    requires k <= |Content(fs0, fs0.handles[h].inum)| && k % BLOCK_SIZE == 0
    ensures var fs := MovedOn(fs0, h, k);
            && fs.handles[h] == OpenFile(fs0.handles[h].inum, k) && Usable(fs, h)
            && Readable(fs, h, BLOCK_SIZE)
            && Content(fs, fs0.handles[h].inum) == Content(fs0, fs0.handles[h].inum)
            && var left := |Content(fs0, fs0.handles[h].inum)| - k;
               Moves(BLOCK_SIZE, k, Available(fs, h, BLOCK_SIZE)) == if left > BLOCK_SIZE then BLOCK_SIZE else left
  {
    hide Exclusive, AllCovered, DirOk, Slot, Content;
    MovedOnKeepsWF(fs0, h, k);
  }

  /** An open without flags: it succeeds exactly when the file exists and an entry is FREE. */
  lemma PlainOpen(fs0: FS, fs: FS, path: CString, r: int, n: int, mid: FS)
    requires DirOk(fs0) && OpenEffect(fs0, fs, path, Flags(false, false, false), r, n, mid)
    ensures if ValidPath(path) && Find(Root(fs0), FileName(path)) != NONE && !Full(fs0.handleTaken)
            then IsFirstFree(fs0.handleTaken, r) && n == Find(Root(fs0), FileName(path)) && fs == Opened(fs0, r, n, 0)
            else r == NONE && fs == fs0
  {
    hide DirOk, Find;
  }

  /** Which paths a plain open succeeds on, and which file it is. */
  lemma CopyFinds(fs0: FS, path: CString, r: int)
    requires RootOk(fs0)
    requires r != NONE <==> ValidPath(path) && Find(Root(fs0), FileName(path)) != NONE && !Full(fs0.handleTaken)
    ensures forall name: CString :: name != [] && path == [SLASH] + name ==>
              ValidPath(path) && FileName(path) == name && (r != NONE <==> Find(Root(fs0), name) != NONE && !Full(fs0.handleTaken))
    ensures |path| < 2 || path[0] != SLASH ==> r == NONE
  {
    hide Find, Root;
  }

  lemma CopyEnds(fs0: FS, fs1: FS, fs2: FS, fs3: FS, h: int, n: int, k: nat)
    requires WF(fs0) && WF(fs1) && WF(fs2)
    requires IsFirstFree(fs0.handleTaken, h) && fs1 == Opened(fs0, h, n, 0)
    requires fs2 == MovedOn(fs1, h, k) && fs3 == Closed(fs2, h)
    ensures OthersSame(fs0, fs3, {}) && fs3.handleTaken == fs0.handleTaken
    ensures forall m :: Content(fs1, m) == Content(fs0, m)
  {
    TableDoesNotShow(fs0, fs1);
    TableDoesNotShow(fs0, fs3);
    assert fs0.handleTaken[h := true][h := false] == fs0.handleTaken;
  }

  lemma EntryCleared(d: seq<Byte>, i: int)
    requires |d| == DISK_SIZE && 0 <= i < MAX_DIR_ENTRIES
    requires forall j :: 0 <= j < i ==> EntryNum(Block(d, 0), j) == NONE
    ensures var d' := Patch(d, DIR_ENTRY_SIZE * i + MAX_FILE_NAME, EncodeInt(NONE));
            forall j :: 0 <= j <= i ==> EntryNum(Block(d', 0), j) == NONE
  {
    var s := EncodeInt(NONE);
    var d' := Patch(d, DIR_ENTRY_SIZE * i + MAX_FILE_NAME, s);
    PatchBlock(d, 0, DIR_ENTRY_SIZE * i + MAX_FILE_NAME, s);
    forall j | 0 <= j <= i ensures EntryNum(Block(d', 0), j) == NONE {
      if j < i {
        assert DIR_ENTRY_SIZE * j + DIR_ENTRY_SIZE <= DIR_ENTRY_SIZE * i;
        assert EntryNum(Block(d', 0), j) == EntryNum(Block(d, 0), j);
      } else {
        assert EntryNum(Block(d', 0), i) == IntAt(s, 0);
      }
    }
  }

  /** A slot of a live file is either empty or holds a valid block number. */
  lemma SlotIsValid(fs: FS, n: int, s: int)
    requires Exclusive(fs, {}) && ValidInum(n) && fs.inodeTaken[n]
    ensures Slot(fs, n, s) != NONE ==> ValidBlock(Slot(fs, n, s))
  {
    if Slot(fs, n, s) != NONE { assert Owns(fs, n, s); }
  }

  lemma IndexIsValid(fs: FS, n: int)
    requires Exclusive(fs, {}) && IsFile(fs, n) && fs.inodes[n].indirect != NONE
    ensures ValidBlock(fs.inodes[n].indirect)
  {
    assert Owns(fs, n, INDEX_SLOT);
  }

  /** The entry of the index block that the code reads is the slot of that block. */
  lemma EntryIsSlot(fs: FS, n: int, i: nat)
    requires IsFile(fs, n) && MAX_DIRECT_BLOCKS <= i < MAX_FILE_BLOCKS && ValidBlock(fs.inodes[n].indirect)
    ensures var a := fs.inodes[n].indirect * BLOCK_SIZE + 4 * (i - MAX_DIRECT_BLOCKS);
            a + 4 <= DISK_SIZE && IntAt(fs.data, a) == BlockNo(fs, n, i)
  {
  }

  /** Storing NONE over NONE changes nothing. */
  lemma EntryRewritten(fs: FS, n: int, i: nat)
    requires IsFile(fs, n) && MAX_DIRECT_BLOCKS <= i < MAX_FILE_BLOCKS && ValidBlock(fs.inodes[n].indirect)
    requires BlockNo(fs, n, i) == NONE
    ensures var a := fs.inodes[n].indirect * BLOCK_SIZE + 4 * (i - MAX_DIRECT_BLOCKS);
            PutBytes(fs, a, EncodeInt(NONE)) == fs
  {
    var a := fs.inodes[n].indirect * BLOCK_SIZE + 4 * (i - MAX_DIRECT_BLOCKS);
    EntryIsSlot(fs, n, i);
    IntAtInjective(fs.data, a, EncodeInt(NONE), 0);
    assert fs.data[a..a + 4] == EncodeInt(NONE);
    assert Patch(fs.data, a, EncodeInt(NONE)) == fs.data;
  }
}
