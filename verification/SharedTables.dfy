/** Creating and linking files, opening and closing handles, among other threads. */
module SharedTables {
  import opened Options
  import opened Config
  import opened Bytes
  import opened Disk
  import opened Directory
  import opened Ownership
  import opened Invariant
  import opened Opening
  import opened Interleaving
  import opened Deadlock
  import opened Safety
  import opened SharedData
  import Tables

  // ---------------------------------------------------------------- a new file

  lemma Creating(fs: FS, X: set<(int, int)>, n: int)
    requires Whole(fs, X) && IsInum(n) && !fs.inodeTaken[n]
    ensures var fs' := Tables.Created(fs, n);
            && Whole(fs', X) && Root(fs') == Root(fs) && Fresh(fs', n)
            && forall m, r :: m != n ==> Slot(fs', m, r) == Slot(fs, m, r)
  {
    var fs' := Tables.Created(fs, n);
    Tables.CreatedSlots(fs, n, X);
    hide Slot, Content, Exclusive, EntryNum, NumsUnique;
    RootIsBlock(fs);
    RootIsBlock(fs');
    NoEntryFor(fs, n);
    forall i | 0 <= i < MAX_DIR_ENTRIES && EntryNum(Root(fs'), i) != NONE ensures IsFile(fs', EntryNum(Root(fs'), i)) {
      assert IsFile(fs, EntryNum(Root(fs), i));
    }
    forall h | ValidHandle(h) ensures fs'.handles[h].inum != n && (fs'.handles[h].inum == 0 || IsFile(fs', fs'.handles[h].inum)) {
      assert fs.handles[h].inum == 0 || IsFile(fs, fs.handles[h].inum);
    }
  }

  lemma CreatingDisturbsNobody(fs: FS, X: set<(int, int)>, n: int, q: PC)
    requires Whole(fs, X) && IsInum(n) && !fs.inodeTaken[n]
    requires MapsFree(X, q) && !MapsMatter(q, n) && Making(q) != Some(n)
    ensures Undisturbed(fs, X, Tables.Created(fs, n), X, q)
  {
    var fs' := Tables.Created(fs, n);
    Creating(fs, X, n);
    Tables.CreatedSlots(fs, n, X);
    hide Slot, Content, Exclusive, DirOk, Whole, HeldAt;
    RootsStay(fs, X, fs', X);
    assert HandKept(fs, X, fs', X, q) by {
      forall m, r | Owns(fs', m, r) ensures Owns(fs, m, r) && Slot(fs', m, r) == Slot(fs, m, r) {
      }
    }
    OnlyFileDisturbs(fs, X, fs', X, n, q);
  }

  /** A fresh file that cannot be linked is given back. */
  function Dropped(fs: FS, n: int): FS
    requires ValidInum(n)
  {
    fs.(inodeTaken := fs.inodeTaken[n := false])
  }

  lemma Dropping(fs: FS, X: set<(int, int)>, n: int)
    requires Whole(fs, X) && IsInum(n) && Fresh(fs, n)
    ensures Whole(Dropped(fs, n), X) && Root(Dropped(fs, n)) == Root(fs)
    ensures forall m, r :: Slot(Dropped(fs, n), m, r) == Slot(fs, m, r)
  {
    var fs' := Dropped(fs, n);
    forall m, r ensures Slot(fs', m, r) == Slot(fs, m, r) {
    }
    hide Slot, Content, EntryNum, NumsUnique;
    assert forall m, r :: Owns(fs', m, r) ==> Owns(fs, m, r);
    RootIsBlock(fs);
    RootIsBlock(fs');
    forall i | 0 <= i < MAX_DIR_ENTRIES && EntryNum(Root(fs'), i) != NONE ensures IsFile(fs', EntryNum(Root(fs'), i)) {
      assert IsFile(fs, EntryNum(Root(fs), i));
    }
  }

  lemma DroppingDisturbsNobody(fs: FS, X: set<(int, int)>, n: int, q: PC)
    requires Whole(fs, X) && IsInum(n) && Fresh(fs, n)
    requires MapsFree(X, q) && !MapsMatter(q, n) && Making(q) != Some(n) && Using(q) != Some(n)
    ensures Undisturbed(fs, X, Dropped(fs, n), X, q)
  {
    var fs' := Dropped(fs, n);
    Dropping(fs, X, n);
    hide Slot, Content, Exclusive, DirOk, Whole, HeldAt, Fresh;
    RootsStay(fs, X, fs', X);
    assert HandKept(fs, X, fs', X, q) by {
      forall m, r | Owns(fs', m, r) ensures Owns(fs, m, r) && Slot(fs', m, r) == Slot(fs, m, r) {
      }
    }
    OnlyFileDisturbs(fs, X, fs', X, n, q);
  }

  // ---------------------------------------------------------------- a new directory entry

  lemma LinkingKeepsMaps(fs: FS, X: set<(int, int)>, i: int, n: Int32, name: CString)
    requires Whole(fs, X) && ClosedUnderIndex(X) && RootUntouched(X) && 0 <= i < MAX_DIR_ENTRIES
    ensures var fs' := Tables.Linked(fs, i, n, name);
            && Exclusive(fs', X) && SameSlots(fs, fs', X) && RootOk(fs')
            && Root(fs') == WithEntry(Root(fs), i, n, name)
  {
    var fs' := Tables.Linked(fs, i, n, name);
    var b := fs.inodes[ROOT_DIR_INUM].direct[0];
    var bytes := StoredName(name) + EncodeInt(n);
    assert Owns(fs, ROOT_DIR_INUM, 0) && Slot(fs, ROOT_DIR_INUM, 0) == b;
    WriteKeepsSlots(fs, ROOT_DIR_INUM, 0, DIR_ENTRY_SIZE * i, bytes, X);
    PatchBlock(fs.data, b, DIR_ENTRY_SIZE * i, bytes);
    RootIsBlock(fs);
    RootIsBlock(fs');
  }

  lemma Linking(fs: FS, X: set<(int, int)>, i: int, n: Int32, name: CString)
    requires Whole(fs, X) && ClosedUnderIndex(X) && RootUntouched(X)
    requires 0 <= i < MAX_DIR_ENTRIES && EntryNum(Root(fs), i) == NONE && Fresh(fs, n)
    ensures Whole(Tables.Linked(fs, i, n, name), X)
  {
    var fs' := Tables.Linked(fs, i, n, name);
    LinkingKeepsMaps(fs, X, i, n, name);
    hide Slot, Root, Exclusive, EntryNum, WithEntry, RootOk, NumsUnique, StoredName, EncodeInt;
    assert fs' == fs.(data := fs'.data);
    LinkedNums(Root(fs), i, n, name);
    forall j | 0 <= j < MAX_DIR_ENTRIES && EntryNum(Root(fs'), j) != NONE ensures IsFile(fs', EntryNum(Root(fs'), j)) {
      assert j != i ==> IsFile(fs, EntryNum(Root(fs), j));
    }
  }

  /** A new number in a free entry leaves the numbers distinct. */
  lemma LinkedNums(c: seq<Byte>, i: int, n: Int32, name: CString)
    requires |c| == BLOCK_SIZE && NumsUnique(c) && 0 <= i < MAX_DIR_ENTRIES && n != NONE
    requires forall j :: 0 <= j < MAX_DIR_ENTRIES ==> EntryNum(c, j) != n
    ensures NumsUnique(WithEntry(c, i, n, name)) && EntryNum(WithEntry(c, i, n, name), i) == n
    ensures forall j :: 0 <= j < MAX_DIR_ENTRIES && j != i ==> EntryNum(WithEntry(c, i, n, name), j) == EntryNum(c, j)
  {
    WithEntryAt(c, i, n, name);
    hide EntryNum, EntryName, WithEntry, StoredName;
  }

  lemma LinkingDisturbsNobody(fs: FS, X: set<(int, int)>, i: int, n: Int32, name: CString, q: PC)
    requires Whole(fs, X) && ClosedUnderIndex(X) && RootUntouched(X) && 0 <= i < MAX_DIR_ENTRIES
    requires MapsFree(X, q) && Hold(OpenLock, true) !in HeldAt(q)
    ensures Undisturbed(fs, X, Tables.Linked(fs, i, n, name), X, q)
  {
    var fs' := Tables.Linked(fs, i, n, name);
    LinkingKeepsMaps(fs, X, i, n, name);
    hide Slot, Content, Exclusive, DirOk, HeldAt, EntryNum;
    assert fs' == fs.(data := fs'.data);
    forall m | MapsMatter(q, m) && IsFile(fs, m) ensures SameMap(fs, fs', m) {
      forall r ensures Slot(fs', m, r) == Slot(fs, m, r) {
        assert (m, r) !in X;
      }
    }
    assert HandKept(fs, X, fs', X, q) by {
      forall m, r | Owns(fs', m, r) && (m, r) !in X ensures Owns(fs, m, r) && Slot(fs', m, r) == Slot(fs, m, r) {
      }
    }
  }

  // ---------------------------------------------------------------- the open-file table

  /** Nothing changed but entry h of the open-file table and the count. */
  ghost predicate OnlyEntry(fs: FS, fs': FS, h: int) {
    && ValidHandle(h)
    && fs' == fs.(handleTaken := fs.handleTaken[h := fs'.handleTaken[h]], handles := fs.handles[h := fs'.handles[h]],
                  openCount := fs'.openCount)
  }

  lemma EntryKeepsWhole(fs: FS, X: set<(int, int)>, fs': FS, h: int)
    requires Whole(fs, X) && OnlyEntry(fs, fs', h) && IsFile(fs, fs'.handles[h].inum)
    ensures Whole(fs', X) && Root(fs') == Root(fs)
    ensures forall m, r :: Slot(fs', m, r) == Slot(fs, m, r)
  {
    SameMaps(fs, fs');
    SameOwnership(fs, fs', X);
    hide Slot, Content, Exclusive, EntryNum, NumsUnique;
    RootIsBlock(fs);
    RootIsBlock(fs');
    forall i | 0 <= i < MAX_DIR_ENTRIES && EntryNum(Root(fs'), i) != NONE ensures IsFile(fs', EntryNum(Root(fs'), i)) {
      assert IsFile(fs, EntryNum(Root(fs), i));
    }
    forall g | ValidHandle(g) ensures fs'.handles[g].inum == 0 || IsFile(fs', fs'.handles[g].inum) {
      assert g != h ==> fs.handles[g].inum == 0 || IsFile(fs, fs.handles[g].inum);
    }
  }

  lemma EntryDisturbsNobody(fs: FS, X: set<(int, int)>, fs': FS, h: int, q: PC)
    requires Whole(fs, X) && OnlyEntry(fs, fs', h) && IsFile(fs, fs'.handles[h].inum)
    requires Hold(Entry(h), true) !in HeldAt(q)
    requires Making(q) != Some(fs'.handles[h].inum)
    ensures Undisturbed(fs, X, fs', X, q)
  {
    EntryKeepsWhole(fs, X, fs', h);
    hide Slot, Content, Exclusive, HeldAt, EntryNum, DirOk;
    RootsStay(fs, X, fs', X);
    assert HandKept(fs, X, fs', X, q) by {
      assert forall m, r :: Owns(fs', m, r) == Owns(fs, m, r);
    }
  }
}
