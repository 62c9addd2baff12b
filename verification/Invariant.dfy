/** The well-formed states of the file system, and what one write may change. */
module Invariant {
  import opened Config
  import opened Bytes
  import opened Disk
  import opened Directory
  import opened Ownership
  import opened Files

  /** I-node 0 is the root directory and every other live i-node is a file. */
  ghost predicate RootOk(fs: FS) {
    && fs.inodeTaken[ROOT_DIR_INUM] && fs.inodes[ROOT_DIR_INUM].isDir
    && fs.inodes[ROOT_DIR_INUM].size == BLOCK_SIZE
    && ValidBlock(fs.inodes[ROOT_DIR_INUM].direct[0])
    && forall n :: 0 < n < INODE_TABLE_SIZE && fs.inodeTaken[n] ==> !fs.inodes[n].isDir
  }

  /** The content of the root directory. */
  ghost function Root(fs: FS): (c: seq<Byte>)
    requires RootOk(fs)
    ensures |c| == BLOCK_SIZE
  {
    Content(fs, ROOT_DIR_INUM)
  }

  /** Every directory entry in use names a live file, and no file has two entries. */
  ghost predicate DirOk(fs: FS) {
    && RootOk(fs)
    && (forall i :: 0 <= i < MAX_DIR_ENTRIES && EntryNum(Root(fs), i) != NONE ==> IsFile(fs, EntryNum(Root(fs), i)))
    && NumsUnique(Root(fs))
  }

  /** The handle refers to a live file, at an offset within it. One that was closed may still do so, and the source does
      not ask whether a handle is open before it reads or writes through it. */
  predicate Usable(fs: FS, h: int) {
    && ValidHandle(h) && IsFile(fs, fs.handles[h].inum)
    && fs.handles[h].offset <= fs.inodes[fs.handles[h].inum].size
  }

  /** Every open handle is usable. */
  ghost predicate HandlesOk(fs: FS) {
    forall h :: ValidHandle(h) && fs.handleTaken[h] ==> Usable(fs, h)
  }

  function CountTrue(s: seq<bool>): (n: nat) {
    if s == [] then 0 else CountTrue(s[..|s| - 1]) + if s[|s| - 1] then 1 else 0
  }

  ghost predicate CountOk(fs: FS) {
    fs.openCount == CountTrue(fs.handleTaken)
  }

  ghost predicate WF(fs: FS) {
    Exclusive(fs, {}) && AllCovered(fs) && DirOk(fs) && HandlesOk(fs) && CountOk(fs)
  }

  lemma TakenIsUsable(fs: FS, h: int)
    requires WF(fs) && ValidHandle(h) && fs.handleTaken[h]
    ensures Usable(fs, h)
  {
  }

  /** The root directory is one block of fs_data. */
  lemma RootIsBlock(fs: FS)
    requires RootOk(fs)
    ensures Root(fs) == Block(fs.data, fs.inodes[ROOT_DIR_INUM].direct[0])
  {
    var b := fs.inodes[ROOT_DIR_INUM].direct[0];
    forall k | 0 <= k < BLOCK_SIZE ensures ByteOf(fs, ROOT_DIR_INUM, k) == Block(fs.data, b)[k] {
      assert BlockNo(fs, ROOT_DIR_INUM, k / BLOCK_SIZE) == b;
    }
  }

  /** Where entry i of the root directory lies in fs_data. */
  function EntryAddr(rootBlock: int, i: int): (a: nat)
    requires ValidBlock(rootBlock) && 0 <= i < MAX_DIR_ENTRIES
    ensures a + DIR_ENTRY_SIZE <= DISK_SIZE
  {
    rootBlock * BLOCK_SIZE + DIR_ENTRY_SIZE * i
  }

  lemma EntryOnDisk(fs: FS, i: int)
    requires RootOk(fs) && 0 <= i < MAX_DIR_ENTRIES
    ensures var a := EntryAddr(fs.inodes[ROOT_DIR_INUM].direct[0], i);
            && IntAt(fs.data, a + MAX_FILE_NAME) == EntryNum(Root(fs), i)
            && fs.data[a..a + MAX_FILE_NAME] == EntryName(Root(fs), i)
  {
    hide Content, IntAt;
    RootIsBlock(fs);
    var b := fs.inodes[ROOT_DIR_INUM].direct[0];
    var a := EntryAddr(b, i);
    IntInStretch(fs.data, b * BLOCK_SIZE, b * BLOCK_SIZE + BLOCK_SIZE, a + MAX_FILE_NAME);
    StretchInStretch(fs.data, b * BLOCK_SIZE, b * BLOCK_SIZE + BLOCK_SIZE, DIR_ENTRY_SIZE * i, DIR_ENTRY_SIZE * i + MAX_FILE_NAME);
  }

  lemma StretchInStretch(d: seq<Byte>, lo: nat, hi: nat, p: nat, q: nat)
    requires lo + q <= hi <= |d| && p <= q
    ensures d[lo..hi][p..q] == d[lo + p..lo + q]
  {
    forall k | 0 <= k < q - p ensures d[lo..hi][p..q][k] == d[lo + p..lo + q][k] {
    }
  }

  // ---------------------------------------------------------------- growth of one file

  /** Block b was not held before, and file n now holds it in a slot that was empty. */
  ghost predicate NewlyHeld(fs0: FS, fs: FS, n: int, b: int) {
    exists s :: Slot(fs0, n, s) == NONE && Slot(fs, n, s) == b
  }

  /** No slot changed but empty slots of file n, and the blocks taken, all FREE before, are those put there. */
  ghost predicate Grows(fs0: FS, fs: FS, n: int) {
    && fs.inodeTaken == fs0.inodeTaken
    && (forall m, r {:trigger Slot(fs, m, r)} ::
          ValidInum(m) && fs0.inodeTaken[m] && (m != n || Slot(fs0, m, r) != NONE) ==> Slot(fs, m, r) == Slot(fs0, m, r))
    && (forall b :: ValidBlock(b) && fs0.blockTaken[b] ==> fs.blockTaken[b])
    && (forall b :: ValidBlock(b) && fs.blockTaken[b] && !fs0.blockTaken[b] ==> NewlyHeld(fs0, fs, n, b))
    && (forall s {:trigger Slot(fs, n, s)} :: Slot(fs0, n, s) == NONE && ValidBlock(Slot(fs, n, s)) ==>
          fs.blockTaken[Slot(fs, n, s)] && !fs0.blockTaken[Slot(fs, n, s)])
  }

  /** The slots of file n that changed are those of blocks lo..hi-1, and the index slot when hi is past
      the direct blocks. */
  ghost predicate OnlyBlocks(fs0: FS, fs: FS, n: int, lo: int, hi: int) {
    forall s {:trigger Slot(fs, n, s)} :: Slot(fs, n, s) != Slot(fs0, n, s) ==>
      if s == INDEX_SLOT then hi > MAX_DIRECT_BLOCKS
      else lo <= (if s < INDEX_SLOT then s else s - 1) < hi
  }

  /** A file that grows loses no block. */
  lemma GrowsKeepsNoLeak(fs0: FS, fs: FS, n: int)
    requires Grows(fs0, fs, n) && NoLeak(fs0) && IsFile(fs0, n)
    ensures NoLeak(fs)
  {
    forall b | ValidBlock(b) && fs.blockTaken[b] ensures Held(fs, b) {
      if fs0.blockTaken[b] {
        assert Held(fs0, b);
        var m, s :| Owns(fs0, m, s) && Slot(fs0, m, s) == b;
        assert Owns(fs, m, s) && Slot(fs, m, s) == b;
      } else {
        var s :| Slot(fs0, n, s) == NONE && Slot(fs, n, s) == b;
        assert Owns(fs, n, s);
      }
    }
  }

  lemma GrowsTrans(fs0: FS, fs1: FS, fs2: FS, n: int)
    requires Grows(fs0, fs1, n) && Grows(fs1, fs2, n) && IsFile(fs0, n)
    ensures Grows(fs0, fs2, n)
  {
    forall b | ValidBlock(b) && fs2.blockTaken[b] && !fs0.blockTaken[b] ensures NewlyHeld(fs0, fs2, n, b) {
      if fs1.blockTaken[b] {
        var s :| Slot(fs0, n, s) == NONE && Slot(fs1, n, s) == b;
        assert Slot(fs2, n, s) == b;
      } else {
        var s :| Slot(fs1, n, s) == NONE && Slot(fs2, n, s) == b;
        assert Slot(fs0, n, s) == NONE;
      }
    }
  }

  // ---------------------------------------------------------------- a write under way

  /** Of a write of buf through handle h, started in fs0, exactly the first `moved` bytes are in. */
  ghost predicate Progress(fs0: FS, fs: FS, h: int, buf: seq<Byte>, moved: int)
    requires ValidHandle(h)
  {
    var n := fs0.handles[h].inum;
    var o := fs0.handles[h].offset;
    && 0 <= moved <= |buf|
    && IsFile(fs0, n) && o <= |Content(fs0, n)|
    && fs.handleTaken == fs0.handleTaken && fs.openCount == fs0.openCount
    && fs.handles == fs0.handles[h := OpenFile(n, o + moved)]
    && Exclusive(fs, {}) && AllCovered(fs)
    && !fs.inodes[n].isDir
    && Content(fs, n) == Splice(Content(fs0, n), o, buf[..moved])
    && OthersSame(fs0, fs, {n})
    && Grows(fs0, fs, n)
  }

  /** Whatever part of a write is in, the state is well formed. */
  lemma ProgressKeepsWF(fs0: FS, fs: FS, h: int, buf: seq<Byte>, moved: int)
    requires WF(fs0) && Usable(fs0, h)
    requires Progress(fs0, fs, h, buf, moved)
    ensures WF(fs)
  {
    var n := fs0.handles[h].inum;
    assert Content(fs, ROOT_DIR_INUM) == Content(fs0, ROOT_DIR_INUM);
    assert Slot(fs, ROOT_DIR_INUM, 0) == Slot(fs0, ROOT_DIR_INUM, 0);
    forall m | 0 < m < INODE_TABLE_SIZE && fs.inodeTaken[m] ensures !fs.inodes[m].isDir {
    }
    forall i | 0 <= i < MAX_DIR_ENTRIES && EntryNum(Root(fs), i) != NONE ensures IsFile(fs, EntryNum(Root(fs), i)) {
      assert IsFile(fs0, EntryNum(Root(fs0), i));
    }
    forall g | ValidHandle(g) && fs.handleTaken[g]
      ensures IsFile(fs, fs.handles[g].inum) && fs.handles[g].offset <= fs.inodes[fs.handles[g].inum].size
    {
      assert IsFile(fs0, fs0.handles[g].inum);
      assert |Content(fs, n)| == fs.inodes[n].size;
    }
  }
}
