/** What each kind of step does to the shared data, and why it leaves the other threads' parts alone. */
module SharedData {
  import opened Options
  import opened Config
  import opened Bytes
  import opened Disk
  import opened Directory
  import opened Ownership
  import opened Invariant
  import opened Growth
  import opened Files
  import opened ReadLoop
  import opened Truncation
  import opened Opening
  import opened Interleaving
  import opened Deadlock
  import opened Safety
  import Tables

  /** No slot of a file whose map matters to the thread is being emptied by another. */
  ghost predicate MapsFree(X: set<(int, int)>, pc: PC) {
    forall n, r :: MapsMatter(pc, n) ==> (n, r) !in X
  }

  ghost predicate RootUntouched(X: set<(int, int)>) {
    forall r :: (ROOT_DIR_INUM, r) !in X
  }

  /** The locks of two threads do not conflict. */
  ghost predicate Compatible(p: PC, q: PC) {
    forall a, b :: a in HeldAt(p) && b in HeldAt(q) ==> !Conflict(a, b)
  }

  /** Data that is not touched disturbs nobody. */
  lemma NothingTouched(fs: FS, X: set<(int, int)>, q: PC)
    ensures Undisturbed(fs, X, fs, X, q)
  {
    hide Slot, Content;
  }

  /** When only marks, handles and such change, the files and the directory stay. */
  lemma WholeKept(fs: FS, X: set<(int, int)>, fs': FS, X': set<(int, int)>)
    requires Whole(fs, X) && Exclusive(fs', X')
    requires fs'.inodeTaken == fs.inodeTaken && fs'.handleTaken == fs.handleTaken
    requires forall m :: ValidInum(m) ==> fs'.inodes[m].isDir == fs.inodes[m].isDir
    requires fs'.inodes[ROOT_DIR_INUM] == fs.inodes[ROOT_DIR_INUM]
    requires Block(fs'.data, fs.inodes[ROOT_DIR_INUM].direct[0]) == Block(fs.data, fs.inodes[ROOT_DIR_INUM].direct[0])
    requires forall h :: ValidHandle(h) ==> fs'.handles[h].inum == fs.handles[h].inum
    ensures Whole(fs', X') && Root(fs') == Root(fs)
  {
    hide Slot, Content, Exclusive, EntryNum, NumsUnique;
    RootIsBlock(fs);
    RootIsBlock(fs');
    forall i | 0 <= i < MAX_DIR_ENTRIES && EntryNum(Root(fs'), i) != NONE ensures IsFile(fs', EntryNum(Root(fs'), i)) {
      assert IsFile(fs, EntryNum(Root(fs), i));
    }
  }

  /** The block of the root directory is not one that a file holds. */
  lemma RootBlockApart(fs: FS, X: set<(int, int)>, n: int, s: int)
    requires Whole(fs, X) && RootUntouched(X) && IsInum(n) && Owns(fs, n, s) && (n, s) !in X
    ensures Slot(fs, n, s) != fs.inodes[ROOT_DIR_INUM].direct[0]
  {
    assert Owns(fs, ROOT_DIR_INUM, 0) && Slot(fs, ROOT_DIR_INUM, 0) == fs.inodes[ROOT_DIR_INUM].direct[0];
  }

  // ---------------------------------------------------------------- taking a block

  lemma Taking(fs: FS, X: set<(int, int)>, b: int)
    requires Whole(fs, X) && ValidBlock(b) && !fs.blockTaken[b]
    ensures Whole(MarkBlock(fs, b, true), X) && Unowned(MarkBlock(fs, b, true), b, X)
    ensures Root(MarkBlock(fs, b, true)) == Root(fs)
    ensures forall m, r :: Slot(MarkBlock(fs, b, true), m, r) == Slot(fs, m, r)
  {
    TakeBlock(fs, b, X);
    SameMaps(fs, MarkBlock(fs, b, true));
    WholeKept(fs, X, MarkBlock(fs, b, true), X);
  }

  lemma TakingDisturbsNobody(fs: FS, X: set<(int, int)>, b: int, q: PC)
    requires Whole(fs, X) && ValidBlock(b) && !fs.blockTaken[b]
    ensures Undisturbed(fs, X, MarkBlock(fs, b, true), X, q)
  {
    Taking(fs, X, b);
    var fs' := MarkBlock(fs, b, true);
    SameMaps(fs, fs');
    WholeKept(fs, X, fs', X);
    hide Slot, Content, Exclusive, DirOk;
  }

  // ---------------------------------------------------------------- filling a slot

  /** The installed index block is an empty one, and no block that is TAKEN and owned changed. */
  lemma InstalledIsIndex(fs: FS, n: int, b: nat)
    requires ValidInum(n) && ValidBlock(b)
    ensures IndexInstalled(fs, Installed(fs, n, b), n, b)
    ensures forall c :: ValidBlock(c) && c != b ==> Block(Installed(fs, n, b).data, c) == Block(fs.data, c)
  {
    PatchBlock(fs.data, b, 0, seq(BLOCK_SIZE, _ => 255));
  }

  lemma Filling(fs: FS, X: set<(int, int)>, n: int, s: nat, b: nat)
    requires Whole(fs, X) && ClosedUnderIndex(X) && RootUntouched(X) && (forall r :: (n, r) !in X)
    requires IsFile(fs, n) && s < N_SLOTS && Slot(fs, n, s) == NONE
    requires s > INDEX_SLOT ==> Slot(fs, n, INDEX_SLOT) != NONE
    requires ValidBlock(b) && fs.blockTaken[b] && Unowned(fs, b, X)
    ensures var fs' := FillSlot(fs, n, s, b);
            && Whole(fs', X) && Root(fs') == Root(fs) && Slot(fs', n, s) == b && SameSlots(fs, fs', X + {(n, s)})
            && fs'.inodeTaken == fs.inodeTaken && fs'.blockTaken == fs.blockTaken
            && fs'.handles == fs.handles && fs'.handleTaken == fs.handleTaken
            && forall m :: m != n && ValidInum(m) ==> fs'.inodes[m] == fs.inodes[m]
  {
    var fs' := FillSlot(fs, n, s, b);
    var rb := fs.inodes[ROOT_DIR_INUM].direct[0];
    assert Owns(fs, ROOT_DIR_INUM, 0) && Slot(fs, ROOT_DIR_INUM, 0) == rb;
    if s == INDEX_SLOT {
      InstalledIsIndex(fs, n, b);
      InstallIndex(fs, fs', n, b, X);
    } else {
      if s > INDEX_SLOT {
        assert Owns(fs, n, INDEX_SLOT);
        RootBlockApart(fs, X, n, INDEX_SLOT);
      }
      AttachBlock(fs, n, s, b, X);
    }
    hide Slot, Content, Exclusive, PutBytes, Installed;
    WholeKept(fs, X, fs', X);
  }

  // ---------------------------------------------------------------- what the other threads notice

  /** The block that a thread has in hand, if it is TAKEN and no i-node holds it, stays so. */
  ghost predicate HandKept(fs: FS, X: set<(int, int)>, fs': FS, X': set<(int, int)>, q: PC) {
    InHand(q).Some? && ValidBlock(InHand(q).value) && fs.blockTaken[InHand(q).value] && Unowned(fs, InHand(q).value, X) ==>
      fs'.blockTaken[InHand(q).value] && Unowned(fs', InHand(q).value, X')
  }

  /** Nothing changed but file n and the offsets of handles whose entry the thread does not hold. */
  ghost predicate OnlyFile(fs: FS, fs': FS, X: set<(int, int)>, n: int, q: PC) {
    && (forall m :: m != n && ValidInum(m) ==> fs'.inodes[m] == fs.inodes[m] && fs'.inodeTaken[m] == fs.inodeTaken[m])
    && (forall m, r {:trigger Slot(fs', m, r)} :: m != n && Live(fs, m) && (m, r) !in X ==> Slot(fs', m, r) == Slot(fs, m, r))
    && fs'.handleTaken == fs.handleTaken
    && (forall g :: ValidHandle(g) ==> fs'.handles[g].inum == fs.handles[g].inum)
    && (forall g :: ValidHandle(g) && Hold(Entry(g), true) in HeldAt(q) ==> fs'.handles[g] == fs.handles[g])
  }

  /** A change to one file disturbs no thread that does not rely on it. */
  lemma OnlyFileDisturbs(fs: FS, X: set<(int, int)>, fs': FS, X': set<(int, int)>, n: int, q: PC)
    requires OnlyFile(fs, fs', X, n, q) && MapsFree(X, q) && HandKept(fs, X, fs', X', q)
    requires !MapsMatter(q, n) && Making(q) != Some(n)
    requires Using(q) == Some(n) && IsFile(fs, n) ==> IsFile(fs', n)
    requires RootOk(fs) && RootOk(fs') && Root(fs') == Root(fs)
    ensures Undisturbed(fs, X, fs', X', q)
  {
    hide Slot, Content, EntryNum, HeldAt, RootOk, Root;
    forall m | MapsMatter(q, m) && IsFile(fs, m) ensures SameMap(fs, fs', m) {
      forall r ensures Slot(fs', m, r) == Slot(fs, m, r) {
        assert (m, r) !in X;
      }
    }
  }

  lemma RootsStay(fs: FS, X: set<(int, int)>, fs': FS, X': set<(int, int)>)
    requires Whole(fs, X) && Whole(fs', X')
    ensures RootOk(fs) && RootOk(fs')
  {
  }

  lemma FilesInRange(q: PC)
    requires InRange(q)
    ensures Making(q).Some? ==> IsInum(Making(q).value)
    ensures Using(q).Some? ==> IsInum(Using(q).value)
  {
  }

  /** Two threads cannot both hold one i-node exclusively. */
  lemma MapNotShared(p: PC, q: PC, n: int)
    requires Compatible(p, q) && Hold(Ino(n), true) in HeldAt(p)
    ensures !MapsMatter(q, n)
  {
    hide HeldAt;
    assert Conflict(Hold(Ino(n), true), Hold(Ino(n), true));
  }

  lemma EntryNotShared(p: PC, q: PC, h: int)
    requires Compatible(p, q) && Hold(Entry(h), true) in HeldAt(p)
    ensures Hold(Entry(h), true) !in HeldAt(q) && Hold(Entry(h), false) !in HeldAt(q)
  {
    hide HeldAt;
    assert Conflict(Hold(Entry(h), true), Hold(Entry(h), true));
    assert Conflict(Hold(Entry(h), true), Hold(Entry(h), false));
  }

  /** Filling a slot with the block in hand. */
  lemma FillingDisturbsNobody(fs: FS, X: set<(int, int)>, n: int, s: nat, b: nat, q: PC)
    requires Whole(fs, X) && ClosedUnderIndex(X) && RootUntouched(X) && (forall r :: (n, r) !in X)
    requires IsFile(fs, n) && s < N_SLOTS && Slot(fs, n, s) == NONE
    requires s > INDEX_SLOT ==> Slot(fs, n, INDEX_SLOT) != NONE
    requires ValidBlock(b) && fs.blockTaken[b] && Unowned(fs, b, X)
    requires MapsFree(X, q) && !MapsMatter(q, n) && Making(q) != Some(n) && InHand(q) != Some(b)
    ensures Undisturbed(fs, X, FillSlot(fs, n, s, b), X, q)
  {
    var fs' := FillSlot(fs, n, s, b);
    Filling(fs, X, n, s, b);
    hide Slot, Content, EntryNum, Exclusive, FillSlot, DirOk;
    assert fs'.inodes[n].isDir == fs.inodes[n].isDir;
    assert HandKept(fs, X, fs', X, q) by {
      forall m, r | Owns(fs', m, r) && (m, r) !in X && (m, r) != (n, s)
        ensures Owns(fs, m, r) && Slot(fs', m, r) == Slot(fs, m, r)
      {
      }
    }
    OnlyFileDisturbs(fs, X, fs', X, n, q);
  }
}
