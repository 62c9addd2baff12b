/** Copies and offset moves of concurrent transfers, seen by the whole system and by the other threads. */
module SharedTransfer {
  import opened Options
  import opened Config
  import opened Bytes
  import opened Disk
  import opened Directory
  import opened Ownership
  import opened Invariant
  import opened Growth
  import opened Files
  import opened ReadLoop
  import opened Truncation
  import opened Opening
  import opened Interleaving
  import opened Deadlock
  import opened Safety
  import opened SharedData
  import Tables

  /** Bytes copied into a block of file n reach no slot and no part of the directory. */
  lemma CopyKeepsMaps(fs: FS, X: set<(int, int)>, n: int, i: nat, off: nat, bytes: seq<Byte>)
    requires Whole(fs, X) && ClosedUnderIndex(X) && RootUntouched(X) && (forall r :: (n, r) !in X)
    requires IsFile(fs, n) && ValidBlock(BlockNo(fs, n, i)) && off + |bytes| <= BLOCK_SIZE
    ensures var mid := PutBytes(fs, BlockNo(fs, n, i) * BLOCK_SIZE + off, bytes);
            && SameSlots(fs, mid, X) && Exclusive(mid, X)
            && Block(mid.data, fs.inodes[ROOT_DIR_INUM].direct[0]) == Block(fs.data, fs.inodes[ROOT_DIR_INUM].direct[0])
  {
    hide Slot, Exclusive, Block, Content, EntryNum, NumsUnique, HandlesSane;
    assert Owns(fs, n, DataSlot(i));
    WriteKeepsSlots(fs, n, DataSlot(i), off, bytes, X);
    RootBlockApart(fs, X, n, DataSlot(i));
    PatchBlock(fs.data, BlockNo(fs, n, i), off, bytes);
  }

  lemma Copying(fs: FS, X: set<(int, int)>, h: int, n: int, bytes: seq<Byte>)
    requires Whole(fs, X) && ClosedUnderIndex(X) && RootUntouched(X) && (forall r :: (n, r) !in X)
    requires ValidHandle(h) && fs.handles[h].inum == n && IsFile(fs, n)
    requires var off := fs.handles[h].offset;
             ValidBlock(BlockNo(fs, n, off / BLOCK_SIZE)) && off % BLOCK_SIZE + |bytes| <= BLOCK_SIZE
    ensures var fs' := Copied(fs, h, fs.handles[h].offset / BLOCK_SIZE, bytes);
            && Whole(fs', X) && Root(fs') == Root(fs) && SameSlots(fs, fs', X)
            && fs'.inodeTaken == fs.inodeTaken && fs'.blockTaken == fs.blockTaken
            && fs'.handleTaken == fs.handleTaken && fs'.handles == fs.handles[h := OpenFile(n, fs.handles[h].offset + |bytes|)]
            && fs'.inodes[n].isDir == fs.inodes[n].isDir
            && forall m :: m != n && ValidInum(m) ==> fs'.inodes[m] == fs.inodes[m]
  {
    var off := fs.handles[h].offset;
    var i := off / BLOCK_SIZE;
    var fs' := Copied(fs, h, i, bytes);
    var mid := PutBytes(fs, BlockNo(fs, n, i) * BLOCK_SIZE + off % BLOCK_SIZE, bytes);
    CopyKeepsMaps(fs, X, n, i, off % BLOCK_SIZE, bytes);
    hide Slot, Content, Exclusive, EntryNum, Block, PutBytes;
    SameMaps(mid, fs');
    SameOwnership(mid, fs', X);
    WholeKept(fs, X, fs', X);
  }

  lemma CopyingDisturbsNobody(fs: FS, X: set<(int, int)>, h: int, n: int, bytes: seq<Byte>, q: PC)
    requires Whole(fs, X) && ClosedUnderIndex(X) && RootUntouched(X) && (forall r :: (n, r) !in X)
    requires ValidHandle(h) && fs.handles[h].inum == n && IsFile(fs, n)
    requires var off := fs.handles[h].offset;
             ValidBlock(BlockNo(fs, n, off / BLOCK_SIZE)) && off % BLOCK_SIZE + |bytes| <= BLOCK_SIZE
    requires MapsFree(X, q) && !MapsMatter(q, n) && Making(q) != Some(n) && Hold(Entry(h), true) !in HeldAt(q)
    ensures Undisturbed(fs, X, Copied(fs, h, fs.handles[h].offset / BLOCK_SIZE, bytes), X, q)
  {
    Copying(fs, X, h, n, bytes);
    var fs' := Copied(fs, h, fs.handles[h].offset / BLOCK_SIZE, bytes);
    hide Slot, Content, Exclusive, EntryNum, Copied, DirOk, HeldAt, Whole;
    RootsStay(fs, X, fs', X);
    assert HandKept(fs, X, fs', X, q) by {
      forall m, r | Owns(fs', m, r) && (m, r) !in X ensures Owns(fs, m, r) && Slot(fs', m, r) == Slot(fs, m, r) {
      }
    }
    OnlyFileDisturbs(fs, X, fs', X, n, q);
  }

  lemma Moving(fs: FS, X: set<(int, int)>, h: int, k: nat)
    requires Whole(fs, X) && ValidHandle(h)
    ensures Whole(MovedOn(fs, h, k), X) && Root(MovedOn(fs, h, k)) == Root(fs)
    ensures forall m, r :: Slot(MovedOn(fs, h, k), m, r) == Slot(fs, m, r)
  {
    var fs' := MovedOn(fs, h, k);
    SameMaps(fs, fs');
    SameOwnership(fs, fs', X);
    WholeKept(fs, X, fs', X);
  }

  lemma MovingDisturbsNobody(fs: FS, X: set<(int, int)>, h: int, k: nat, q: PC)
    requires Whole(fs, X) && ValidHandle(h) && Hold(Entry(h), true) !in HeldAt(q) && MapsFree(X, q) && InRange(q)
    ensures Undisturbed(fs, X, MovedOn(fs, h, k), X, q)
  {
    Moving(fs, X, h, k);
    var fs' := MovedOn(fs, h, k);
    hide Slot, Content, Exclusive, EntryNum, DirOk, HeldAt, Whole;
    RootsStay(fs, X, fs', X);
    FilesInRange(q);
    assert HandKept(fs, X, fs', X, q) by {
      assert forall m, r :: Owns(fs', m, r) == Owns(fs, m, r);
    }
    OnlyFileDisturbs(fs, X, fs', X, NONE, q);
  }
}
