/** Creation of a file, of its directory entry and of open-file entries, as updates of the state. */
module Tables {
  import opened Config
  import opened Bytes
  import opened Disk
  import opened Directory
  import opened Ownership
  import opened Files
  import opened Invariant
  import opened FirstFit
  import Growth

  // ---------------------------------------------------------------- i-nodes

  /** inode_create(T_FILE) on FREE i-node n. */
  function Created(fs: FS, n: int): FS
    requires ValidInum(n)
  {
    fs.(inodeTaken := fs.inodeTaken[n := true], inodes := fs.inodes[n := EMPTY_FILE])
  }

  lemma CreatedSlots(fs: FS, n: int, X: set<(int, int)>)
    requires Exclusive(fs, X) && ValidInum(n) && !fs.inodeTaken[n]
    ensures var fs' := Created(fs, n);
            && (forall m, r :: m != n ==> Slot(fs', m, r) == Slot(fs, m, r))
            && (forall r :: Slot(fs', n, r) == NONE)
            && Exclusive(fs', X)
  {
    var fs' := Created(fs, n);
    forall m, r | m != n ensures Slot(fs', m, r) == Slot(fs, m, r) {
      assert ValidInum(m) ==> fs'.inodes[m] == fs.inodes[m];
    }
    forall r ensures Slot(fs', n, r) == NONE {
      assert 0 <= r < MAX_DIRECT_BLOCKS ==> EMPTY_FILE.direct[r] == NONE;
    }
    hide Slot;
    assert forall m, r :: Owns(fs', m, r) ==> m != n && Owns(fs, m, r);
  }

  /** A new file is empty, and every other live i-node is as it was. */
  lemma CreatedKeeps(fs: FS, n: int)
    requires Exclusive(fs, {}) && AllCovered(fs) && RootOk(fs)
    requires ValidInum(n) && !fs.inodeTaken[n]
    ensures var fs' := Created(fs, n);
            && Exclusive(fs', {}) && AllCovered(fs') && RootOk(fs')
            && OthersSame(fs, fs', {}) && IsFile(fs', n) && Content(fs', n) == []
  {
    var fs' := Created(fs, n);
    CreatedSlots(fs, n, {});
    forall m | ValidInum(m) && fs.inodeTaken[m] ensures Content(fs', m) == Content(fs, m) {
      hide Slot;
      ContentFrame(fs, fs', m);
    }
    forall m | IsFile(fs', m) ensures Covered(fs', m) {
      if m != n {
        hide Slot;
        assert IsFile(fs, m) && Covered(fs, m);
        forall i | 0 <= i && i * BLOCK_SIZE < fs'.inodes[m].size ensures BlockNo(fs', m, i) != NONE {
          assert BlockNo(fs, m, i) != NONE;
        }
      }
    }
  }

  lemma CreatedKeepsWF(fs: FS, n: int)
    requires WF(fs) && ValidInum(n) && !fs.inodeTaken[n]
    ensures WF(Created(fs, n)) && OthersSame(fs, Created(fs, n), {})
    ensures NoLeak(fs) ==> NoLeak(Created(fs, n))
  {
    hide Slot, Content, Exclusive, AllCovered, NoLeak;
    var fs' := Created(fs, n);
    CreatedKeeps(fs, n);
    if NoLeak(fs) { CreatedKeepsNoLeak(fs, n); }
    assert Content(fs', ROOT_DIR_INUM) == Content(fs, ROOT_DIR_INUM);
    forall i | 0 <= i < MAX_DIR_ENTRIES && EntryNum(Root(fs'), i) != NONE ensures IsFile(fs', EntryNum(Root(fs'), i)) {
      assert IsFile(fs, EntryNum(Root(fs), i));
    }
  }

  lemma CreatedKeepsNoLeak(fs: FS, n: int)
    requires Exclusive(fs, {}) && NoLeak(fs) && ValidInum(n) && !fs.inodeTaken[n]
    ensures NoLeak(Created(fs, n))
  {
    hide Slot;
    var fs' := Created(fs, n);
    CreatedSlots(fs, n, {});
    forall b | ValidBlock(b) && fs'.blockTaken[b] ensures Held(fs', b) {
      assert Held(fs, b);
      var m, r :| Owns(fs, m, r) && Slot(fs, m, r) == b;
      assert Owns(fs', m, r) && Slot(fs', m, r) == b;
    }
  }

  // ---------------------------------------------------------------- directory entries

  /** add_dir_entry on free entry i. */
  ghost function Linked(fs: FS, i: int, n: Int32, name: CString): FS
    requires RootOk(fs) && 0 <= i < MAX_DIR_ENTRIES
  {
    PutBytes(fs, fs.inodes[ROOT_DIR_INUM].direct[0] * BLOCK_SIZE + DIR_ENTRY_SIZE * i, StoredName(name) + EncodeInt(n))
  }

  /** Adding an entry changes the root directory as said, and no file. */
  lemma LinkedKeeps(fs: FS, i: int, n: Int32, name: CString)
    requires Exclusive(fs, {}) && AllCovered(fs) && RootOk(fs) && 0 <= i < MAX_DIR_ENTRIES
    ensures var fs' := Linked(fs, i, n, name);
            && Exclusive(fs', {}) && AllCovered(fs') && RootOk(fs') && SameSlots(fs, fs', {})
            && Root(fs') == WithEntry(Root(fs), i, n, name) && OthersSame(fs, fs', {ROOT_DIR_INUM})
  {
    var bytes := StoredName(name) + EncodeInt(n);
    var b := fs.inodes[ROOT_DIR_INUM].direct[0];
    assert BlockNo(fs, ROOT_DIR_INUM, 0) == b;
    WrittenSplices(fs, ROOT_DIR_INUM, 0, DIR_ENTRY_SIZE * i, bytes);
    var fs' := Linked(fs, i, n, name);
    assert fs'.inodes == Written(fs, ROOT_DIR_INUM, 0, DIR_ENTRY_SIZE * i, bytes).inodes;
    assert fs' == Written(fs, ROOT_DIR_INUM, 0, DIR_ENTRY_SIZE * i, bytes);
    assert Splice(Root(fs), DIR_ENTRY_SIZE * i, bytes) == Patch(Root(fs), DIR_ENTRY_SIZE * i, bytes);
  }

  lemma LinkedKeepsWF(fs: FS, i: int, n: Int32, name: CString)
    requires WF(fs) && IsFile(fs, n)
    requires 0 <= i < MAX_DIR_ENTRIES && EntryNum(Root(fs), i) == NONE
    requires forall j :: 0 <= j < MAX_DIR_ENTRIES ==> EntryNum(Root(fs), j) != n
    ensures WF(Linked(fs, i, n, name)) && Root(Linked(fs, i, n, name)) == WithEntry(Root(fs), i, n, name)
    ensures OthersSame(fs, Linked(fs, i, n, name), {ROOT_DIR_INUM})
    ensures NoLeak(fs) ==> NoLeak(Linked(fs, i, n, name))
  {
    hide Slot, Content, Exclusive, AllCovered, EntryNum;
    var fs' := Linked(fs, i, n, name);
    LinkedKeeps(fs, i, n, name);
    WithEntryAt(Root(fs), i, n, name);
    assert fs'.inodes == fs.inodes;
    forall j | 0 <= j < MAX_DIR_ENTRIES && EntryNum(Root(fs'), j) != NONE ensures IsFile(fs', EntryNum(Root(fs'), j)) {
      assert j != i ==> IsFile(fs, EntryNum(Root(fs), j));
    }
    if NoLeak(fs) {
      forall b | ValidBlock(b) && fs'.blockTaken[b] ensures Held(fs', b) {
        assert Held(fs, b);
        var m, r :| Owns(fs, m, r) && Slot(fs, m, r) == b;
        assert Owns(fs', m, r) && Slot(fs', m, r) == b;
      }
    }
  }

  // ---------------------------------------------------------------- open files

  /** add_to_open_file_table on FREE entry h. */
  function Opened(fs: FS, h: int, n: int, offset: nat): FS
    requires ValidHandle(h)
  {
    fs.(handleTaken := fs.handleTaken[h := true], handles := fs.handles[h := OpenFile(n, offset)],
        openCount := fs.openCount + 1)
  }

  /** remove_from_open_file_table on TAKEN entry h. */
  function Closed(fs: FS, h: int): FS
    requires ValidHandle(h)
  {
    fs.(handleTaken := fs.handleTaken[h := false], openCount := fs.openCount - 1)
  }

  lemma {:induction false} CountUpdate(s: seq<bool>, h: int, v: bool)
    requires 0 <= h < |s| && s[h] != v
    ensures CountTrue(s[h := v]) == CountTrue(s) + if v then 1 else -1
  {
    var k := |s| - 1;
    if h == k {
      assert s[h := v][..k] == s[..k];
    } else {
      CountUpdate(s[..k], h, v);
      assert s[h := v][..k] == s[..k][h := v];
    }
  }

  /** The open-file table does not show in any slot or content. */
  lemma TableDoesNotShow(fs: FS, fs': FS)
    requires fs' == fs.(handleTaken := fs'.handleTaken, handles := fs'.handles, openCount := fs'.openCount)
    requires Exclusive(fs, {})
    ensures Exclusive(fs', {}) && OthersSame(fs, fs', {})
    ensures AllCovered(fs) ==> AllCovered(fs')
    ensures forall m :: Content(fs', m) == Content(fs, m)
    ensures NoLeak(fs) ==> NoLeak(fs')
    ensures DirOk(fs) ==> DirOk(fs')
  {
    SameMaps(fs, fs');
    SameOwnership(fs, fs', {});
    forall m ensures Content(fs', m) == Content(fs, m) {
      if ValidInum(m) { ContentFrame(fs, fs', m); }
    }
    hide Slot, Content, Exclusive;
    if AllCovered(fs) {
      forall m | IsFile(fs', m) ensures Covered(fs', m) {
        assert IsFile(fs, m) && Covered(fs, m);
        forall i | 0 <= i && i * BLOCK_SIZE < fs'.inodes[m].size ensures BlockNo(fs', m, i) != NONE {
          assert BlockNo(fs, m, i) != NONE;
        }
      }
    }
    if NoLeak(fs) {
      forall b | ValidBlock(b) && fs'.blockTaken[b] ensures Held(fs', b) {
        assert Held(fs, b);
        var m, r :| Owns(fs, m, r) && Slot(fs, m, r) == b;
        assert Owns(fs', m, r) && Slot(fs', m, r) == b;
      }
    }
  }

  lemma OpenedKeepsWF(fs: FS, h: int, n: int, offset: nat)
    requires WF(fs) && ValidHandle(h) && !fs.handleTaken[h]
    requires IsFile(fs, n) && offset <= fs.inodes[n].size
    ensures WF(Opened(fs, h, n, offset)) && OthersSame(fs, Opened(fs, h, n, offset), {})
    ensures NoLeak(fs) ==> NoLeak(Opened(fs, h, n, offset))
  {
    TableDoesNotShow(fs, Opened(fs, h, n, offset));
    CountUpdate(fs.handleTaken, h, true);
  }

  lemma ClosedKeepsWF(fs: FS, h: int)
    requires WF(fs) && ValidHandle(h) && fs.handleTaken[h]
    ensures WF(Closed(fs, h)) && OthersSame(fs, Closed(fs, h), {})
    ensures NoLeak(fs) ==> NoLeak(Closed(fs, h))
  {
    TableDoesNotShow(fs, Closed(fs, h));
    CountUpdate(fs.handleTaken, h, false);
  }
}
