/** One step of a write: map a block, install the index block, or copy bytes. */
module Growth {
  import opened Config
  import opened Bytes
  import opened Disk
  import opened Ownership
  import opened Files
  import opened Invariant

  /** fs differs from fs0 at most in that file n holds more blocks: no content, size or handle changed. */
  ghost predicate Mapped(fs0: FS, fs: FS, n: int) {
    && Exclusive(fs, {}) && AllCovered(fs)
    && OthersSame(fs0, fs, {})
    && Grows(fs0, fs, n)
    && fs.handleTaken == fs0.handleTaken && fs.handles == fs0.handles && fs.openCount == fs0.openCount
  }

  lemma MappedRefl(fs: FS, n: int)
    requires Exclusive(fs, {}) && AllCovered(fs)
    ensures Mapped(fs, fs, n)
  {
  }

  lemma MappedTrans(fs0: FS, fs1: FS, fs2: FS, n: int)
    requires IsFile(fs0, n) && Mapped(fs0, fs1, n) && Mapped(fs1, fs2, n)
    ensures Mapped(fs0, fs2, n)
  {
    GrowsTrans(fs0, fs1, fs2, n);
  }

  /** A FREE block taken and stored in an empty slot. */
  lemma TakeAndAttach(fs: FS, n: int, s: int, b: int)
    requires Exclusive(fs, {}) && AllCovered(fs)
    requires IsFile(fs, n) && 0 <= s < N_SLOTS && s != INDEX_SLOT
    requires s > INDEX_SLOT ==> ValidBlock(fs.inodes[n].indirect)
    requires Slot(fs, n, s) == NONE
    requires ValidBlock(b) && !fs.blockTaken[b]
    ensures var fs' := PutSlot(MarkBlock(fs, b, true), n, s, b);
            && Mapped(fs, fs', n)
            && Slot(fs', n, s) == b
            && (forall r :: r != s ==> Slot(fs', n, r) == Slot(fs, n, r))
  {
    var mid := MarkBlock(fs, b, true);
    var fs' := PutSlot(mid, n, s, b);
    TakeBlock(fs, b, {});
    SameMaps(fs, mid);
    SameTakenContent(fs, mid);
    AttachBlock(mid, n, s, b, {});
    AttachKeepsContent(mid, n, s, b);
    assert fs'.inodeTaken == mid.inodeTaken && fs'.blockTaken == mid.blockTaken;
    assert fs'.handleTaken == fs.handleTaken && fs'.handles == fs.handles && fs'.openCount == fs.openCount;
    OneSlotGrows(fs, mid, fs', n, s, b);
  }

  /** Taking block b and storing it in an empty slot is a growth. */
  lemma OneSlotGrows(fs: FS, mid: FS, fs': FS, n: int, s: int, b: int)
    requires Live(fs, n) && ValidBlock(b)
    requires !fs.blockTaken[b] && mid.blockTaken == fs.blockTaken[b := true] && fs'.blockTaken == mid.blockTaken
    requires fs'.inodeTaken == mid.inodeTaken == fs.inodeTaken
    requires forall m, r :: Slot(mid, m, r) == Slot(fs, m, r)
    requires SameSlots(mid, fs', {(n, s)}) && Slot(fs, n, s) == NONE && Slot(fs', n, s) == b
    ensures Grows(fs, fs', n)
  {
    hide Slot;
    forall c | ValidBlock(c) && fs'.blockTaken[c] && !fs.blockTaken[c] ensures NewlyHeld(fs, fs', n, c) {
      assert c == b && Slot(fs', n, s) == b;
    }
  }

  /** Marks on blocks do not show in any content. */
  lemma SameTakenContent(fs: FS, mid: FS)
    requires mid == fs.(blockTaken := mid.blockTaken)
    ensures OthersSame(fs, mid, {})
    ensures AllCovered(fs) ==> AllCovered(mid)
  {
    SameMaps(fs, mid);
    forall m | ValidInum(m) ensures Content(mid, m) == Content(fs, m) {
      ContentFrame(fs, mid, m);
    }
    if AllCovered(fs) {
      forall m | IsFile(mid, m) ensures Covered(mid, m) {
        assert IsFile(fs, m) && Covered(fs, m);
        forall i | 0 <= i && i * BLOCK_SIZE < mid.inodes[m].size ensures BlockNo(mid, m, i) != NONE {
          assert BlockNo(fs, m, i) != NONE;
        }
      }
    }
  }

  /** A FREE block taken and installed as an empty index block. */
  lemma TakeAndInstall(fs: FS, fs': FS, n: int, b: int)
    requires Exclusive(fs, {}) && AllCovered(fs)
    requires IsFile(fs, n) && fs.inodes[n].indirect == NONE
    requires ValidBlock(b) && !fs.blockTaken[b]
    requires IndexInstalled(MarkBlock(fs, b, true), fs', n, b)
    ensures Mapped(fs, fs', n)
    ensures Slot(fs', n, INDEX_SLOT) == b
    ensures forall r :: r != INDEX_SLOT ==> Slot(fs', n, r) == Slot(fs, n, r)
  {
    var mid := MarkBlock(fs, b, true);
    TakeBlock(fs, b, {});
    SameMaps(fs, mid);
    SameTakenContent(fs, mid);
    InstallIndex(mid, fs', n, b, {});
    InstallKeepsContent(mid, fs', n, b);
    OneSlotGrows(fs, mid, fs', n, INDEX_SLOT, b);
  }

  /** Mapping blocks does not disturb a write under way. */
  lemma MappedKeepsProgress(fs0: FS, fs: FS, fs': FS, h: int, buf: seq<Byte>, moved: int)
    requires ValidHandle(h)
    requires Progress(fs0, fs, h, buf, moved)
    requires Mapped(fs, fs', fs0.handles[h].inum)
    ensures Progress(fs0, fs', h, buf, moved)
  {
    GrowsTrans(fs0, fs, fs', fs0.handles[h].inum);
  }

  /** A copy at the offset of handle h, into block i of its file, stays inside fs_data. */
  ghost predicate InArray(fs: FS, h: int, i: nat, k: nat)
    requires ValidHandle(h)
  {
    var f := fs.handles[h];
    && ValidInum(f.inum) && ValidBlock(BlockNo(fs, f.inum, i))
    && BlockNo(fs, f.inum, i) * BLOCK_SIZE + f.offset % BLOCK_SIZE + k <= DISK_SIZE
  }

  /** The state after the next bytes were copied into block i and the offset moved on. */
  ghost function Copied(fs: FS, h: int, i: nat, bytes: seq<Byte>): FS
    requires ValidHandle(h) && InArray(fs, h, i, |bytes|)
  {
    var f := fs.handles[h];
    Written(fs, f.inum, i, f.offset % BLOCK_SIZE, bytes).(
      handles := fs.handles[h := OpenFile(f.inum, f.offset + |bytes|)])
  }

  /** One copy of a transfer: the bytes are in block i, the offset and the size moved on. */
  ghost predicate CopyDone(fs: FS, fs': FS, h: int, i: nat, bytes: seq<Byte>)
    requires ValidHandle(h)
  {
    var f := fs.handles[h];
    && ValidInum(f.inum) && ValidBlock(BlockNo(fs, f.inum, i)) && f.offset % BLOCK_SIZE + |bytes| <= BLOCK_SIZE
    && fs' == Copied(fs, h, i, bytes)
  }

  lemma HandlesDoNotShow(fs: FS, fs': FS)
    requires fs' == fs.(handles := fs'.handles)
    ensures forall m, r :: Slot(fs', m, r) == Slot(fs, m, r)
    ensures forall m :: Content(fs', m) == Content(fs, m)
    ensures Exclusive(fs, {}) ==> Exclusive(fs', {})
    ensures AllCovered(fs) ==> AllCovered(fs')
  {
    SameMaps(fs, fs');
    if Exclusive(fs, {}) { SameOwnership(fs, fs', {}); }
    forall m ensures Content(fs', m) == Content(fs, m) {
      if ValidInum(m) { ContentFrame(fs, fs', m); }
    }
    if AllCovered(fs) {
      forall m | IsFile(fs', m) ensures Covered(fs', m) {
        assert IsFile(fs, m) && Covered(fs, m);
        forall i | 0 <= i && i * BLOCK_SIZE < fs'.inodes[m].size ensures BlockNo(fs', m, i) != NONE {
          assert BlockNo(fs, m, i) != NONE;
        }
      }
    }
  }

  /** The next copy of a write under way. */
  lemma CopyProgress(fs0: FS, fs: FS, h: int, buf: seq<Byte>, moved: int, i: nat, k: nat)
    requires WF(fs0) && Usable(fs0, h)
    requires Progress(fs0, fs, h, buf, moved)
    requires var o := fs0.handles[h].offset + moved;
             i == o / BLOCK_SIZE && o % BLOCK_SIZE + k <= BLOCK_SIZE
    requires 0 < k <= |buf| - moved
    requires BlockNo(fs, fs0.handles[h].inum, i) != NONE
    ensures ValidBlock(BlockNo(fs, fs0.handles[h].inum, i))
    ensures Progress(fs0, Copied(fs, h, i, buf[moved..moved + k]), h, buf, moved + k)
    ensures SameSlots(fs, Copied(fs, h, i, buf[moved..moved + k]), {})
  {
    hide WF, Exclusive, AllCovered, Slot, Content, Grows, Splice, Patch;
    var n, o := fs0.handles[h].inum, fs0.handles[h].offset;
    var bytes := buf[moved..moved + k];
    var at := (o + moved) % BLOCK_SIZE;
    OffsetInContent(fs0, fs, h, buf, moved);
    WrittenSplices(fs, n, i, at, bytes);
    var w := Written(fs, n, i, at, bytes);
    var fs' := Copied(fs, h, i, bytes);
    HandlesDoNotShow(w, fs');
    SplicePrefix(Content(fs0, n), o, buf, moved, k);
    CopyGrows(fs0, fs, fs', n);
  }

  lemma OffsetInContent(fs0: FS, fs: FS, h: int, buf: seq<Byte>, moved: int)
    requires WF(fs0) && Usable(fs0, h)
    requires Progress(fs0, fs, h, buf, moved)
    ensures IsFile(fs, fs0.handles[h].inum)
    ensures fs0.handles[h].offset + moved <= fs.inodes[fs0.handles[h].inum].size
  {
    var n := fs0.handles[h].inum;
    assert |Content(fs0, n)| == fs0.inodes[n].size;
    assert |Content(fs, n)| == fs.inodes[n].size;
  }

  lemma SplicePrefix(c: seq<Byte>, o: nat, buf: seq<Byte>, moved: nat, k: nat)
    requires o <= |c| && moved + k <= |buf|
    ensures Splice(Splice(c, o, buf[..moved]), o + moved, buf[moved..moved + k]) == Splice(c, o, buf[..moved + k])
  {
    assert buf[..moved] + buf[moved..moved + k] == buf[..moved + k];
    SpliceTwice(c, o, buf[..moved], buf[moved..moved + k]);
  }

  lemma CopyGrows(fs0: FS, fs: FS, fs': FS, n: int)
    requires Grows(fs0, fs, n) && IsFile(fs0, n) && SameSlots(fs, fs', {})
    requires fs'.inodeTaken == fs.inodeTaken && fs'.blockTaken == fs.blockTaken
    ensures Grows(fs0, fs', n)
  {
    forall b | ValidBlock(b) && fs'.blockTaken[b] && !fs0.blockTaken[b] ensures NewlyHeld(fs0, fs', n, b) {
      assert NewlyHeld(fs0, fs, n, b);
      var s :| Slot(fs0, n, s) == NONE && Slot(fs, n, s) == b;
      assert Slot(fs', n, s) == b;
    }
  }
}
