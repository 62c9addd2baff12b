/** What each update of the state does to the slots, the block ownership and the file contents. */
module Ownership {
  import opened Config
  import opened Bytes
  import opened Disk

  /** When the index block of m is left out, so are all its entries. */
  ghost predicate ClosedUnderIndex(X: set<(int, int)>) {
    forall m, r {:trigger (m, r) in X} :: (m, INDEX_SLOT) in X && INDEX_SLOT < r < N_SLOTS ==> (m, r) in X
  }

  /** All slots of live i-nodes outside X hold the same numbers in both states. */
  ghost predicate SameSlots(fs: FS, fs': FS, X: set<(int, int)>) {
    forall m, r {:trigger Slot(fs', m, r)} {:trigger Owns(fs', m, r)} ::
      ValidInum(m) && fs.inodeTaken[m] && (m, r) !in X ==> Slot(fs', m, r) == Slot(fs, m, r)
  }

  /** A copy into one block changes that block as a patch and no other block. */
  lemma PatchBlock(d: seq<Byte>, b: int, off: nat, s: seq<Byte>)
    requires |d| == DISK_SIZE && ValidBlock(b) && off + |s| <= BLOCK_SIZE
    ensures var d' := Patch(d, b * BLOCK_SIZE + off, s);
            && Block(d', b) == Patch(Block(d, b), off, s)
            && forall c :: ValidBlock(c) && c != b ==> Block(d', c) == Block(d, c)
  {
    var d' := Patch(d, b * BLOCK_SIZE + off, s);
    forall c | ValidBlock(c) && c != b ensures Block(d', c) == Block(d, c) {
      assert c < b || c > b;
    }
  }

  /** Slots depend only on fs_data and on the block numbers in the i-nodes. */
  lemma SameMaps(fs: FS, fs': FS)
    requires fs'.data == fs.data && fs'.inodeTaken == fs.inodeTaken
    requires forall m :: ValidInum(m) ==>
               var a, b := fs.inodes[m], fs'.inodes[m];
               a.isDir == b.isDir && a.direct == b.direct && a.indirect == b.indirect
    ensures forall m, r :: Slot(fs', m, r) == Slot(fs, m, r)
    ensures forall m, r :: Owns(fs', m, r) == Owns(fs, m, r)
  {
    forall m, r ensures Slot(fs', m, r) == Slot(fs, m, r) {
      assert ValidInum(m) ==> fs'.inodes[m].direct == fs.inodes[m].direct;
    }
  }

  /** Ownership depends only on the slots and on the marks. */
  lemma SameOwnership(fs: FS, fs': FS, X: set<(int, int)>)
    requires Exclusive(fs, X) && fs'.blockTaken == fs.blockTaken
    requires forall m, r :: Slot(fs', m, r) == Slot(fs, m, r)
    requires forall m, r :: Owns(fs', m, r) == Owns(fs, m, r)
    ensures Exclusive(fs', X)
  {
    hide Slot, Owns;
  }

  /** Taking a FREE block keeps exclusive ownership, and no i-node held that block. */
  lemma TakeBlock(fs: FS, b: int, X: set<(int, int)>)
    requires Exclusive(fs, X) && ValidBlock(b) && !fs.blockTaken[b]
    ensures var fs' := MarkBlock(fs, b, true);
            Exclusive(fs', X) && Unowned(fs', b, X) && SameSlots(fs, fs', {})
  {
    var fs' := MarkBlock(fs, b, true);
    SameMaps(fs, fs');
    hide Slot;
  }

  /** A block held in a slot that is not an index slot is no i-node's index block. */
  lemma IndexBlocksApart(fs: FS, n: int, s: int, m: int, X: set<(int, int)>)
    requires Exclusive(fs, X) && Owns(fs, n, s) && (n, s) !in X
    requires ValidInum(m) && fs.inodeTaken[m] && (m, INDEX_SLOT) !in X && (m, INDEX_SLOT) != (n, s)
    requires !fs.inodes[m].isDir && ValidBlock(fs.inodes[m].indirect)
    ensures fs.inodes[m].indirect != Slot(fs, n, s)
  {
    assert Owns(fs, m, INDEX_SLOT);
  }

  /** Copying bytes into a data block of file n changes no slot. */
  lemma WriteKeepsSlots(fs: FS, n: int, s: int, off: nat, bytes: seq<Byte>, X: set<(int, int)>)
    requires Exclusive(fs, X) && ClosedUnderIndex(X)
    requires Owns(fs, n, s) && s != INDEX_SLOT && (n, s) !in X
    requires off + |bytes| <= BLOCK_SIZE
    ensures ValidBlock(Slot(fs, n, s))
    ensures var fs' := PutBytes(fs, Slot(fs, n, s) * BLOCK_SIZE + off, bytes);
            SameSlots(fs, fs', X) && Exclusive(fs', X)
  {
    var b := Slot(fs, n, s);
    var fs' := PutBytes(fs, b * BLOCK_SIZE + off, bytes);
    PatchBlock(fs.data, b, off, bytes);
    forall m, r | ValidInum(m) && fs.inodeTaken[m] && (m, r) !in X
      ensures Slot(fs', m, r) == Slot(fs, m, r)
    {
      if INDEX_SLOT < r < N_SLOTS && ValidBlock(fs.inodes[m].indirect) && !fs.inodes[m].isDir {
        assert (m, INDEX_SLOT) !in X;
        assert Owns(fs, m, INDEX_SLOT);
      }
    }
    assert forall m, r :: (m, r) !in X ==> Owns(fs', m, r) == Owns(fs, m, r);
  }

  /** When one empty slot of a file receives an unowned TAKEN block, ownership stays exclusive. */
  lemma OneMoreSlot(fs: FS, fs': FS, n: int, s: int, X: set<(int, int)>)
    requires Exclusive(fs, X) && ValidInum(n) && (n, s) !in X
    requires Slot(fs, n, s) == NONE && SameSlots(fs, fs', X + {(n, s)})
    requires fs'.inodeTaken == fs.inodeTaken && fs'.blockTaken == fs.blockTaken
    requires var b := Slot(fs', n, s); ValidBlock(b) && fs.blockTaken[b] && Unowned(fs, b, X)
    ensures Exclusive(fs', X)
  {
    assert forall m, r :: (m, r) !in X && (m, r) != (n, s) ==> Owns(fs', m, r) == Owns(fs, m, r);
  }

  /** Storing a block number in an empty slot of a file. */
  lemma AttachBlock(fs: FS, n: int, s: int, b: int, X: set<(int, int)>)
    requires Exclusive(fs, X) && ClosedUnderIndex(X)
    requires IsFile(fs, n) && 0 <= s < N_SLOTS && s != INDEX_SLOT && (n, s) !in X
    requires s > INDEX_SLOT ==> ValidBlock(fs.inodes[n].indirect)
    requires Slot(fs, n, s) == NONE
    requires ValidBlock(b) && fs.blockTaken[b] && Unowned(fs, b, X)
    ensures var fs' := PutSlot(fs, n, s, b);
            && Slot(fs', n, s) == b
            && SameSlots(fs, fs', X + {(n, s)})
            && Exclusive(fs', X)
            && (forall c :: ValidBlock(c) && (s < INDEX_SLOT || c != fs.inodes[n].indirect) ==>
                  Block(fs'.data, c) == Block(fs.data, c))
  {
    var fs' := PutSlot(fs, n, s, b);
    if s > INDEX_SLOT {
      AttachEntry(fs, n, s, b, X);
    }
    assert SameSlots(fs, fs', X + {(n, s)});
    OneMoreSlot(fs, fs', n, s, X);
  }

  lemma AttachEntry(fs: FS, n: int, s: int, b: int, X: set<(int, int)>)
    requires Exclusive(fs, X) && ClosedUnderIndex(X)
    requires IsFile(fs, n) && INDEX_SLOT < s < N_SLOTS && (n, s) !in X
    requires ValidBlock(fs.inodes[n].indirect) && ValidBlock(b)
    ensures var fs' := PutSlot(fs, n, s, b);
            && Slot(fs', n, s) == b
            && SameSlots(fs, fs', X + {(n, s)})
            && (forall c :: ValidBlock(c) && c != fs.inodes[n].indirect ==> Block(fs'.data, c) == Block(fs.data, c))
  {
    hide Exclusive, IntAt, EncodeInt, Patch, Block;
    var fs' := PutSlot(fs, n, s, b);
    var ib := fs.inodes[n].indirect;
    PatchBlock(fs.data, ib, 4 * (s - INDEX_SLOT - 1), EncodeInt(b));
    StoreEntry(Block(fs.data, ib), s - INDEX_SLOT - 1, b);
    assert (n, INDEX_SLOT) !in X;
    assert Owns(fs, n, INDEX_SLOT);
    assert fs'.inodes == fs.inodes;
    forall m, r | ValidInum(m) && fs.inodeTaken[m] && (m, r) !in X && (m, r) != (n, s)
      ensures Slot(fs', m, r) == Slot(fs, m, r)
    {
      if m == n {
        OtherEntrySame(fs, fs', n, s, r);
      } else {
        OtherIndexSame(fs, fs', n, m, r, X);
      }
    }
  }

  lemma OtherEntrySame(fs: FS, fs': FS, n: int, s: int, r: int)
    requires ValidInum(n) && fs'.inodes == fs.inodes && INDEX_SLOT < s < N_SLOTS && r != s
    requires ValidBlock(fs.inodes[n].indirect)
    requires forall f: nat :: f != s - INDEX_SLOT - 1 && 4 * f + 4 <= BLOCK_SIZE ==>
               IntAt(Block(fs'.data, fs.inodes[n].indirect), 4 * f) == IntAt(Block(fs.data, fs.inodes[n].indirect), 4 * f)
    ensures Slot(fs', n, r) == Slot(fs, n, r)
  {
    hide IntAt, Block;
    if INDEX_SLOT < r < N_SLOTS {
      var f: nat := r - INDEX_SLOT - 1;
      assert f != s - INDEX_SLOT - 1 && 4 * f + 4 <= BLOCK_SIZE;
    }
  }

  lemma OtherIndexSame(fs: FS, fs': FS, n: int, m: int, r: int, X: set<(int, int)>)
    requires Exclusive(fs, X) && ClosedUnderIndex(X) && fs'.inodes == fs.inodes
    requires Owns(fs, n, INDEX_SLOT) && (n, INDEX_SLOT) !in X && !fs.inodes[n].isDir
    requires ValidInum(m) && fs.inodeTaken[m] && m != n && (m, r) !in X
    requires forall c :: ValidBlock(c) && c != fs.inodes[n].indirect ==> Block(fs'.data, c) == Block(fs.data, c)
    ensures Slot(fs', m, r) == Slot(fs, m, r)
  {
    hide IntAt, Block;
    if INDEX_SLOT < r < N_SLOTS && ValidBlock(fs.inodes[m].indirect) && !fs.inodes[m].isDir {
      assert (m, INDEX_SLOT) !in X;
      IndexBlocksApart(fs, n, INDEX_SLOT, m, X);
    }
  }

  /** Installing an index block in a file that had none. */
  lemma InstallIndex(fs: FS, fs': FS, n: int, b: int, X: set<(int, int)>)
    requires Exclusive(fs, X) && ClosedUnderIndex(X)
    requires IsFile(fs, n) && (n, INDEX_SLOT) !in X && fs.inodes[n].indirect == NONE
    requires ValidBlock(b) && fs.blockTaken[b] && Unowned(fs, b, X)
    requires IndexInstalled(fs, fs', n, b)
    ensures Slot(fs', n, INDEX_SLOT) == b
    ensures SameSlots(fs, fs', X + {(n, INDEX_SLOT)})
    ensures Exclusive(fs', X)
  {
    forall m, r | ValidInum(m) && fs.inodeTaken[m] && (m, r) !in X && (m, r) != (n, INDEX_SLOT)
      ensures Slot(fs', m, r) == Slot(fs, m, r)
    {
      if INDEX_SLOT < r < N_SLOTS && !fs.inodes[m].isDir {
        if m == n {
          assert IntAt(Block(fs'.data, b), 4 * (r - INDEX_SLOT - 1)) == NONE;
        } else if ValidBlock(fs.inodes[m].indirect) {
          assert (m, INDEX_SLOT) !in X;
          assert Owns(fs, m, INDEX_SLOT);
        }
      }
    }
    OneMoreSlot(fs, fs', n, INDEX_SLOT, X);
  }
}
