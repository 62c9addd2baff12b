/** The byte-sequence view of files under block updates: writes splice, mapping a block is invisible. */
module Files {
  import opened Config
  import opened Bytes
  import opened Disk
  import opened Ownership

  /** The block map of i-node m below its size is the same in both states, and so are the bytes there. */
  lemma ContentFrame(fs: FS, fs': FS, m: int)
    requires ValidInum(m) && fs'.inodes[m].size == fs.inodes[m].size
    requires forall i :: 0 <= i && i * BLOCK_SIZE < fs.inodes[m].size ==>
               var b := BlockNo(fs, m, i);
               BlockNo(fs', m, i) == b && (ValidBlock(b) ==> Block(fs'.data, b) == Block(fs.data, b))
    ensures Content(fs', m) == Content(fs, m)
  {
    forall k | 0 <= k < fs.inodes[m].size ensures ByteOf(fs', m, k) == ByteOf(fs, m, k) {
      assert BlockNo(fs', m, k / BLOCK_SIZE) == BlockNo(fs, m, k / BLOCK_SIZE);
    }
  }

  /** Every live i-node but those in S has the content, size and type it had. */
  ghost predicate OthersSame(fs: FS, fs': FS, S: set<int>) {
    forall m {:trigger Content(fs', m)} {:trigger fs'.inodes[m]} ::
      ValidInum(m) && fs.inodeTaken[m] && m !in S ==>
        Content(fs', m) == Content(fs, m) && fs'.inodes[m].isDir == fs.inodes[m].isDir
        && fs'.inodes[m].size == fs.inodes[m].size
  }

  /** A block mapped below the size of a live i-node is in range and TAKEN. */
  lemma MappedIsValid(fs: FS, m: int, i: nat)
    requires Exclusive(fs, {}) && ValidInum(m) && fs.inodeTaken[m] && BlockNo(fs, m, i) != NONE
    ensures ValidBlock(BlockNo(fs, m, i)) && fs.blockTaken[BlockNo(fs, m, i)]
  {
    assert Owns(fs, m, DataSlot(i));
  }

  /** Mapping one more block of file n changes the content of no file. */
  lemma AttachKeepsContent(fs: FS, n: int, s: int, b: int)
    requires Exclusive(fs, {}) && AllCovered(fs)
    requires IsFile(fs, n) && 0 <= s < N_SLOTS && s != INDEX_SLOT
    requires s > INDEX_SLOT ==> ValidBlock(fs.inodes[n].indirect)
    requires Slot(fs, n, s) == NONE
    requires ValidBlock(b) && fs.blockTaken[b] && Unowned(fs, b, {})
    ensures var fs' := PutSlot(fs, n, s, b);
            OthersSame(fs, fs', {}) && AllCovered(fs')
  {
    var fs' := PutSlot(fs, n, s, b);
    AttachBlock(fs, n, s, b, {});
    forall m | ValidInum(m) && fs.inodeTaken[m] ensures Content(fs', m) == Content(fs, m) {
      AttachFrame(fs, n, s, b, m);
    }
    forall m | IsFile(fs', m) ensures Covered(fs', m) {
      assert IsFile(fs, m) && Covered(fs, m);
      forall i | 0 <= i && i * BLOCK_SIZE < fs'.inodes[m].size ensures BlockNo(fs', m, i) != NONE {
        assert BlockNo(fs, m, i) != NONE;
      }
    }
  }

  lemma AttachFrame(fs: FS, n: int, s: int, b: int, m: int)
    requires Exclusive(fs, {}) && AllCovered(fs)
    requires IsFile(fs, n) && 0 <= s < N_SLOTS && s != INDEX_SLOT
    requires s > INDEX_SLOT ==> ValidBlock(fs.inodes[n].indirect)
    requires Slot(fs, n, s) == NONE
    requires ValidBlock(b) && fs.blockTaken[b] && Unowned(fs, b, {})
    requires ValidInum(m) && fs.inodeTaken[m]
    ensures Content(PutSlot(fs, n, s, b), m) == Content(fs, m)
  {
    var fs' := PutSlot(fs, n, s, b);
    AttachBlock(fs, n, s, b, {});
    forall i | 0 <= i && i * BLOCK_SIZE < fs.inodes[m].size
      ensures var c := BlockNo(fs, m, i);
              BlockNo(fs', m, i) == c && (ValidBlock(c) ==> Block(fs'.data, c) == Block(fs.data, c))
    {
      var r := DataSlot(i);
      if m == n {
        assert Covered(fs, n) && BlockNo(fs, n, i) != NONE;
      }
      assert Slot(fs', m, r) == Slot(fs, m, r);
      if s > INDEX_SLOT && BlockNo(fs, m, i) != NONE {
        assert Owns(fs, n, INDEX_SLOT) && Owns(fs, m, r);
      }
    }
    ContentFrame(fs, fs', m);
  }

  /** Installing an empty index block changes the content of no file. */
  lemma InstallKeepsContent(fs: FS, fs': FS, n: int, b: int)
    requires Exclusive(fs, {}) && AllCovered(fs)
    requires IsFile(fs, n) && fs.inodes[n].indirect == NONE
    requires ValidBlock(b) && fs.blockTaken[b] && Unowned(fs, b, {})
    requires IndexInstalled(fs, fs', n, b)
    ensures OthersSame(fs, fs', {}) && AllCovered(fs')
  {
    InstallIndex(fs, fs', n, b, {});
    forall m | ValidInum(m) && fs.inodeTaken[m] ensures Content(fs', m) == Content(fs, m) {
      forall i | 0 <= i && i * BLOCK_SIZE < fs.inodes[m].size
        ensures var c := BlockNo(fs, m, i);
                BlockNo(fs', m, i) == c && (ValidBlock(c) ==> Block(fs'.data, c) == Block(fs.data, c))
      {
        assert Slot(fs', m, DataSlot(i)) == Slot(fs, m, DataSlot(i));
        if BlockNo(fs, m, i) != NONE {
          MappedIsValid(fs, m, i);
          assert Owns(fs, m, DataSlot(i));
        }
      }
      ContentFrame(fs, fs', m);
    }
    forall m | IsFile(fs', m) ensures Covered(fs', m) {
      assert IsFile(fs, m) && Covered(fs, m);
      forall i | 0 <= i && i * BLOCK_SIZE < fs'.inodes[m].size ensures BlockNo(fs', m, i) != NONE {
        assert BlockNo(fs, m, i) != NONE;
      }
    }
  }

  /** The state after `bytes` was copied into block i of file n at offset `off`, and the size
      of the file raised where the copy ended past it. */
  ghost function Written(fs: FS, n: int, i: nat, off: nat, bytes: seq<Byte>): FS
    requires ValidInum(n) && ValidBlock(BlockNo(fs, n, i)) && BlockNo(fs, n, i) * BLOCK_SIZE + off + |bytes| <= DISK_SIZE
  {
    var end := i * BLOCK_SIZE + off + |bytes|;
    var ino := fs.inodes[n];
    PutInode(PutBytes(fs, BlockNo(fs, n, i) * BLOCK_SIZE + off, bytes), n,
             ino.(size := if end > ino.size then end else ino.size))
  }

  /** One copy into a mapped block changes no slot and no byte outside the copied range. */
  lemma WrittenSlots(fs: FS, n: int, i: nat, off: nat, bytes: seq<Byte>)
    requires Exclusive(fs, {}) && Live(fs, n)
    requires BlockNo(fs, n, i) != NONE && off + |bytes| <= BLOCK_SIZE
    ensures ValidBlock(BlockNo(fs, n, i))
    ensures i < MAX_FILE_BLOCKS
    ensures var fs' := Written(fs, n, i, off, bytes);
            var b := BlockNo(fs, n, i);
            && SameSlots(fs, fs', {}) && Exclusive(fs', {})
            && Block(fs'.data, b) == Patch(Block(fs.data, b), off, bytes)
            && forall c :: ValidBlock(c) && c != b ==> Block(fs'.data, c) == Block(fs.data, c)
  {
    MappedIsValid(fs, n, i);
    var b := BlockNo(fs, n, i);
    var mid := PutBytes(fs, b * BLOCK_SIZE + off, bytes);
    var fs' := Written(fs, n, i, off, bytes);
    assert Owns(fs, n, DataSlot(i));
    WriteKeepsSlots(fs, n, DataSlot(i), off, bytes, {});
    SameMaps(mid, fs');
    SameOwnership(mid, fs', {});
    PatchBlock(fs.data, b, off, bytes);
  }

  /** One copy into a mapped block is a splice of the content, and no other file changes. */
  lemma WrittenSplices(fs: FS, n: int, i: nat, off: nat, bytes: seq<Byte>)
    requires Exclusive(fs, {}) && AllCovered(fs) && Live(fs, n)
    requires BlockNo(fs, n, i) != NONE
    requires 0 < |bytes| && off + |bytes| <= BLOCK_SIZE
    requires i * BLOCK_SIZE + off <= fs.inodes[n].size
    ensures ValidBlock(BlockNo(fs, n, i))
    ensures var fs' := Written(fs, n, i, off, bytes);
            && Exclusive(fs', {}) && AllCovered(fs') && SameSlots(fs, fs', {})
            && Content(fs', n) == Splice(Content(fs, n), i * BLOCK_SIZE + off, bytes)
            && OthersSame(fs, fs', {n})
  {
    WrittenSlots(fs, n, i, off, bytes);
    var fs' := Written(fs, n, i, off, bytes);
    assert Owns(fs, n, DataSlot(i));
    forall m | ValidInum(m) && fs.inodeTaken[m] && m != n ensures Content(fs', m) == Content(fs, m) {
      OtherFileFrame(fs, fs', n, DataSlot(i), m);
    }
    WrittenContent(fs, fs', n, i, off, bytes);
    CoveredAfterWrite(fs, n, i, off, bytes);
  }

  lemma WrittenContent(fs: FS, fs': FS, n: int, i: nat, off: nat, bytes: seq<Byte>)
    requires Exclusive(fs, {}) && Live(fs, n) && SameSlots(fs, fs', {})
    requires var b := BlockNo(fs, n, i);
             && ValidBlock(b) && off + |bytes| <= BLOCK_SIZE
             && Block(fs'.data, b) == Patch(Block(fs.data, b), off, bytes)
             && forall c :: ValidBlock(c) && c != b ==> Block(fs'.data, c) == Block(fs.data, c)
    requires i * BLOCK_SIZE + off <= fs.inodes[n].size
    requires var end := i * BLOCK_SIZE + off + |bytes|;
             fs'.inodes[n].size == if end > fs.inodes[n].size then end else fs.inodes[n].size
    ensures Content(fs', n) == Splice(Content(fs, n), i * BLOCK_SIZE + off, bytes)
  {
    forall k | 0 <= k < fs'.inodes[n].size
      ensures ByteOf(fs', n, k) == Splice(Content(fs, n), i * BLOCK_SIZE + off, bytes)[k]
    {
      assert Slot(fs', n, DataSlot(k / BLOCK_SIZE)) == Slot(fs, n, DataSlot(k / BLOCK_SIZE));
      WrittenByte(fs, fs', n, i, off, bytes, k);
    }
  }

  lemma OtherFileFrame(fs: FS, fs': FS, n: int, s: int, m: int)
    requires Exclusive(fs, {}) && Owns(fs, n, s) && SameSlots(fs, fs', {})
    requires ValidInum(m) && fs.inodeTaken[m] && m != n && fs'.inodes[m] == fs.inodes[m]
    requires forall c :: ValidBlock(c) && c != Slot(fs, n, s) ==> Block(fs'.data, c) == Block(fs.data, c)
    ensures Content(fs', m) == Content(fs, m)
  {
    forall i | 0 <= i && i * BLOCK_SIZE < fs.inodes[m].size
      ensures var c := BlockNo(fs, m, i);
              BlockNo(fs', m, i) == c && (ValidBlock(c) ==> Block(fs'.data, c) == Block(fs.data, c))
    {
      assert Slot(fs', m, DataSlot(i)) == Slot(fs, m, DataSlot(i));
      if BlockNo(fs, m, i) != NONE {
        assert Owns(fs, m, DataSlot(i));
      }
    }
    ContentFrame(fs, fs', m);
  }

  lemma DistinctBlocks(fs: FS, n: int, i: nat, j: nat)
    requires Exclusive(fs, {}) && Live(fs, n) && i != j
    requires BlockNo(fs, n, i) != NONE && BlockNo(fs, n, j) != NONE
    ensures BlockNo(fs, n, i) != BlockNo(fs, n, j)
  {
    assert Owns(fs, n, DataSlot(i)) && Owns(fs, n, DataSlot(j));
  }

  lemma WrittenByte(fs: FS, fs': FS, n: int, i: nat, off: nat, bytes: seq<Byte>, k: nat)
    requires Exclusive(fs, {}) && Live(fs, n)
    requires var b := BlockNo(fs, n, i);
             && ValidBlock(b) && off + |bytes| <= BLOCK_SIZE
             && Block(fs'.data, b) == Patch(Block(fs.data, b), off, bytes)
             && forall c :: ValidBlock(c) && c != b ==> Block(fs'.data, c) == Block(fs.data, c)
    requires i * BLOCK_SIZE + off <= fs.inodes[n].size
    requires BlockNo(fs', n, k / BLOCK_SIZE) == BlockNo(fs, n, k / BLOCK_SIZE)
    requires var end := i * BLOCK_SIZE + off + |bytes|;
             k < if end > fs.inodes[n].size then end else fs.inodes[n].size
    ensures ByteOf(fs', n, k) == Splice(Content(fs, n), i * BLOCK_SIZE + off, bytes)[k]
  {
    hide Exclusive, Slot, Block;
    var b := BlockNo(fs, n, i);
    var j, r := k / BLOCK_SIZE, k % BLOCK_SIZE;
    var o := i * BLOCK_SIZE + off;
    RangeInBlock(k, i, off, |bytes|);
    if j != i && ValidBlock(BlockNo(fs, n, j)) {
      DistinctBlocks(fs, n, i, j);
    }
    if k < o || k >= o + |bytes| {
      assert ByteOf(fs', n, k) == ByteOf(fs, n, k);
    }
  }

  lemma RangeInBlock(k: nat, i: nat, off: nat, len: nat)
    requires off + len <= BLOCK_SIZE
    ensures i * BLOCK_SIZE + off <= k < i * BLOCK_SIZE + off + len <==>
            k / BLOCK_SIZE == i && off <= k % BLOCK_SIZE < off + len
    ensures k / BLOCK_SIZE == i ==> k - (i * BLOCK_SIZE + off) == k % BLOCK_SIZE - off
  {
  }

  lemma CoveredAfterWrite(fs: FS, n: int, i: nat, off: nat, bytes: seq<Byte>)
    requires Exclusive(fs, {}) && AllCovered(fs) && Live(fs, n)
    requires i < MAX_FILE_BLOCKS && ValidBlock(BlockNo(fs, n, i))
    requires 0 < |bytes| && off + |bytes| <= BLOCK_SIZE
    requires i * BLOCK_SIZE + off <= fs.inodes[n].size
    requires SameSlots(fs, Written(fs, n, i, off, bytes), {})
    ensures AllCovered(Written(fs, n, i, off, bytes))
  {
    var fs' := Written(fs, n, i, off, bytes);
    forall m | IsFile(fs', m) ensures Covered(fs', m) {
      assert IsFile(fs, m) && Covered(fs, m);
      forall j | 0 <= j && j * BLOCK_SIZE < fs'.inodes[m].size ensures BlockNo(fs', m, j) != NONE {
        assert BlockNo(fs', m, j) == BlockNo(fs, m, j);
        if j != i { assert j * BLOCK_SIZE < fs.inodes[m].size; }
      }
    }
  }
}
