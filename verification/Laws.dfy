/** Laws that span several operations of the file system. */
module Laws {
  import opened Config
  import opened Bytes
  import opened Disk
  import opened Directory
  import opened Ownership
  import opened Files
  import opened Invariant
  import opened Transfer
  import opened FirstFit
  import opened WriteLoop
  import opened ReadLoop
  import opened Tables
  import opened Truncation
  import opened Opening
  import opened FileSystem

  // ---------------------------------------------------------------- block conservation

  /** What a finished write took: exactly the blocks of its range that were not mapped, and the index block when the
      range reaches past the direct blocks and there was none. */
  lemma WriteTakesExactly(fs0: FS, fs: FS, h: int, buf: seq<Byte>, r: nat)
    requires WF(fs0) && Usable(fs0, h) && |buf| > 0
    requires Regular(BLOCK_SIZE, fs0.handles[h].offset, |buf|)
    requires Done(fs0, fs, h, buf, r)
    ensures var f := fs0.handles[h];
            var lo, hi := f.offset / BLOCK_SIZE, HighBlock(f.offset, |buf|);
            && (forall i :: lo <= i < hi ==> BlockNo(fs, f.inum, i) != NONE)
            && (hi > MAX_DIRECT_BLOCKS ==> Slot(fs, f.inum, INDEX_SLOT) != NONE)
            && (forall b :: ValidBlock(b) ==>
                  (fs.blockTaken[b] && !fs0.blockTaken[b] <==> TakenInRange(fs0, fs, f.inum, lo, hi, b)))
  {
    var f := fs0.handles[h];
    var n := f.inum;
    var lo, hi := f.offset / BLOCK_SIZE, HighBlock(f.offset, |buf|);
    RangeIsMapped(fs0, fs, h, buf, r);
    hide Slot, Content, HighBlock;
    forall b | ValidBlock(b) && fs.blockTaken[b] && !fs0.blockTaken[b] ensures TakenInRange(fs0, fs, n, lo, hi, b) {
      assert NewlyHeld(fs0, fs, n, b);
      var s :| Slot(fs0, n, s) == NONE && Slot(fs, n, s) == b;
      assert SlotInRange(s, lo, hi);
    }
    forall b | ValidBlock(b) && TakenInRange(fs0, fs, n, lo, hi, b) ensures fs.blockTaken[b] && !fs0.blockTaken[b] {
      var s :| SlotInRange(s, lo, hi) && Slot(fs0, n, s) == NONE && Slot(fs, n, s) == b;
      assert Slot(fs, n, s) == b;
    }
  }

  predicate SlotInRange(s: int, lo: int, hi: int) {
    if s == INDEX_SLOT then hi > MAX_DIRECT_BLOCKS else lo <= (if s < INDEX_SLOT then s else s - 1) < hi
  }

  ghost predicate TakenInRange(fs0: FS, fs: FS, n: int, lo: int, hi: int, b: int) {
    exists s :: SlotInRange(s, lo, hi) && Slot(fs0, n, s) == NONE && Slot(fs, n, s) == b
  }

  lemma RangeIsMapped(fs0: FS, fs: FS, h: int, buf: seq<Byte>, r: nat)
    requires WF(fs0) && Usable(fs0, h) && |buf| > 0
    requires Regular(BLOCK_SIZE, fs0.handles[h].offset, |buf|)
    requires Done(fs0, fs, h, buf, r)
    ensures var f := fs0.handles[h];
            var hi := HighBlock(f.offset, |buf|);
            && (forall i :: f.offset / BLOCK_SIZE <= i < hi ==> BlockNo(fs, f.inum, i) != NONE)
            && (hi > MAX_DIRECT_BLOCKS ==> Slot(fs, f.inum, INDEX_SLOT) != NONE)
  {
    var f := fs0.handles[h];
    var hi := HighBlock(f.offset, |buf|);
    ProgressKeepsWF(fs0, fs, h, buf, r);
    assert Covered(fs, f.inum);
    assert fs.handles[h] == OpenFile(f.inum, f.offset + |buf|);
    forall i | f.offset / BLOCK_SIZE <= i < hi ensures BlockNo(fs, f.inum, i) != NONE {
      assert i * BLOCK_SIZE < f.offset + |buf| <= fs.inodes[f.inum].size;
    }
    if hi > MAX_DIRECT_BLOCKS {
      assert BlockNo(fs, f.inum, hi - 1) != NONE;
    }
  }

  /** A write that failed for want of a block has done exactly what a successful write of the bytes that fitted
      would have done to content, size, offset and blocks held, save that the index block may be in place already. */
  lemma FailedWriteIsPrefixWrite(fs0: FS, fs: FS, h: int, buf: seq<Byte>, k: int)
    requires WF(fs0) && Usable(fs0, h) && Stuck(fs0, fs, h, buf, k)
    ensures 0 <= k < |buf| && Progress(fs0, fs, h, buf[..k], k)
    ensures Regular(BLOCK_SIZE, fs0.handles[h].offset, k) && Moves(BLOCK_SIZE, fs0.handles[h].offset, k) == k
    ensures forall s :: s != INDEX_SLOT && Slot(fs, fs0.handles[h].inum, s) != Slot(fs0, fs0.handles[h].inum, s) ==>
              SlotInRange(s, fs0.handles[h].offset / BLOCK_SIZE, HighBlock(fs0.handles[h].offset, k))
  {
    var f := fs0.handles[h];
    assert buf[..k][..k] == buf[..k];
    PrefixIsRegular(f.offset, k);
    hide Slot, Exclusive, Content, Moves, Regular;
    forall s | s != INDEX_SLOT && Slot(fs, f.inum, s) != Slot(fs0, f.inum, s)
      ensures SlotInRange(s, f.offset / BLOCK_SIZE, HighBlock(f.offset, k))
    {
      assert s != DataSlot((f.offset + k) / BLOCK_SIZE);
    }
  }

  /** A transfer that ends on a block boundary is regular. */
  lemma PrefixIsRegular(o: nat, k: nat)
    requires (o + k) % BLOCK_SIZE == 0
    ensures Regular(BLOCK_SIZE, o, k) && Moves(BLOCK_SIZE, o, k) == k
    ensures HighBlock(o, k) == (o + k) / BLOCK_SIZE
  {
  }

  // ---------------------------------------------------------------- names

  /** The open created a file. */
  ghost predicate Creates(fs0: FS, path: CString, flags: Flags, n: int)
    requires DirOk(fs0)
  {
    ValidPath(path) && Find(Root(fs0), FileName(path)) == NONE && flags.create && n != NONE
  }

  /** An open that creates nothing leaves the directory alone. */
  lemma OpenKeepsDirectory(fs0: FS, fs: FS, path: CString, flags: Flags, r: int, n: int, mid: FS)
    requires WF(fs0) && OpenEffect(fs0, fs, path, flags, r, n, mid) && !Creates(fs0, path, flags, n)
    ensures DirOk(fs) && Root(fs) == Root(fs0)
  {
    hide Slot, Content, EntryNum, Find, NumsUnique;
    FoundIsFile(fs0, if ValidPath(path) then FileName(path) else []);
    if ValidPath(path) && Find(Root(fs0), FileName(path)) != NONE {
      var ok :| Prepared(fs0, mid, n, flags.truncate, ok) &&
             if ok then HandleAdded(mid, fs, r, n, if flags.append then mid.inodes[n].size else 0)
             else r == NONE && fs == mid;
      PreparedKeepsWF(fs0, mid, n, flags.truncate, ok);
      if r != NONE { TableDoesNotShow(mid, fs); }
    } else if ValidPath(path) && flags.create {
      NotCreatedKeepsWF(fs0, mid);
      assert Content(mid, ROOT_DIR_INUM) == Content(fs0, ROOT_DIR_INUM);
    }
  }

  /** A creating open keeps names unique, and the file is found under its name ever after, exactly when the name has
      at most 39 bytes (for longer ones: names stay unique only if no entry answers to the 39 bytes that are stored).
      What any other name stands for does not change. */
  lemma CreateKeepsNames(fs0: FS, fs: FS, path: CString, flags: Flags, r: int, n: int, mid: FS)
    requires WF(fs0) && NamesUnique(Root(fs0))
    requires OpenEffect(fs0, fs, path, flags, r, n, mid) && Creates(fs0, path, flags, n)
    ensures DirOk(fs)
    ensures var name := FileName(path);
            && (Find(Root(fs), name) == n <==> |name| < MAX_FILE_NAME)
            && (|name| < MAX_FILE_NAME ==> NamesUnique(Root(fs)))
            && (NamesUnique(Root(fs)) <==> Find(Root(fs0), Truncated(name)) == NONE)
            && forall other :: other != Truncated(name) ==> Find(Root(fs), other) == Find(Root(fs0), other)
  {
    hide Slot, Content, EntryNum, Find, NumsUnique, NamesUnique;
    var name := FileName(path);
    CreateKeepsWF(fs0, mid, n, name);
    var i :| IsFirstUnused(Root(fs0), i) && Root(mid) == WithEntry(Root(fs0), i, n, name);
    if r != NONE { TableDoesNotShow(mid, fs); }
    assert Root(fs) == Root(mid);
    AddKeepsUnique(Root(fs0), i, n, name);
  }

  // ---------------------------------------------------------------- write, then read back

  /** What a regular write puts in, a fresh open of the same file reads back at the same place. */
  method WriteThenReadBack(fs: TecnicoFS, path: CString, h: int, buf: seq<Byte>, skipped: array<Byte>, back: array<Byte>)
    returns (ok: bool)
    requires fs.Valid() && Usable(fs.View(), h) && ValidPath(path)
    requires Find(Root(fs.View()), FileName(path)) == fs.handles[h].inum
    requires Writable(fs.View(), h, |buf|) && Regular(BLOCK_SIZE, fs.handles[h].offset, |buf|)
    requires skipped != fs.data && back != fs.data && skipped != back
    requires skipped.Length == fs.handles[h].offset && back.Length == |buf|
    modifies fs, fs.inodeTaken, fs.inodes, fs.blockTaken, fs.data, fs.handleTaken, fs.handles, skipped, back
    ensures fs.Valid()
    ensures ok ==> back[..] == buf
    ensures !ok ==> Full(fs.blockTaken[..]) || Full(fs.handleTaken[..])
  {
    hide Exclusive, AllCovered, CountOk, NumsUnique, Slot, Content, EntryNum, Find, OpenEffect, Confined, Done, Stuck;
    ghost var fs0 := fs.View();
    var r := fs.Write(h, buf);
    if r == NONE {
      return false;
    }
    WriteKeepsRoot(fs0, fs.View(), h, buf, r);
    ok := ReadBack(fs, path, skipped, back);
  }

  /** A fresh open, a read up to position o, and a read of the range that follows. */
  method ReadBack(fs: TecnicoFS, path: CString, skipped: array<Byte>, back: array<Byte>) returns (ok: bool)
    requires fs.Valid() && ValidPath(path) && Find(Root(fs.View()), FileName(path)) != NONE
    requires skipped != fs.data && back != fs.data && skipped != back
    requires skipped.Length + back.Length <= |Content(fs.View(), Find(Root(fs.View()), FileName(path)))|
    requires Regular(BLOCK_SIZE, skipped.Length, back.Length)
    modifies fs, fs.inodeTaken, fs.inodes, fs.blockTaken, fs.data, fs.handleTaken, fs.handles, skipped, back
    ensures fs.Valid()
    ensures ok ==>
              var c := old(Content(fs.View(), Find(Root(fs.View()), FileName(path))));
              back[..] == c[skipped.Length..skipped.Length + back.Length]
    ensures !ok ==> Full(fs.handleTaken[..])
  {
    hide Exclusive, AllCovered, CountOk, NumsUnique, Slot, Content, EntryNum, Find, OpenEffect, Moves, Regular,
         Readable, ReadConfined, Available;
    ghost var fs1 := fs.View();
    var g, n, mid := fs.Open(path, Flags(false, false, false));
    PlainOpen(fs1, fs.View(), path, g, n, mid);
    if g == NONE {
      return false;
    }
    ghost var fs2 := fs.View();
    FoundIsFile(fs1, FileName(path));
    OpenedReadsSame(fs1, g, n);
    FreshReads(fs2, g, skipped.Length, back.Length);
    var k := fs.Read(g, skipped, skipped.Length);
    FreshReads2(fs2, g, skipped.Length, back.Length);
    k := fs.Read(g, back, back.Length);
    assert back[..] == back[..k];
    return true;
  }

  lemma WriteKeepsRoot(fs0: FS, fs1: FS, h: int, buf: seq<Byte>, r: nat)
    requires WF(fs0) && WF(fs1) && Usable(fs0, h) && Done(fs0, fs1, h, buf, r)
    requires Regular(BLOCK_SIZE, fs0.handles[h].offset, |buf|)
    ensures Root(fs1) == Root(fs0) && fs1.handleTaken == fs0.handleTaken
    ensures var f := fs0.handles[h];
            f.offset + |buf| <= |Content(fs1, f.inum)| && Content(fs1, f.inum)[f.offset..f.offset + |buf|] == buf
  {
    hide Slot, Content, Exclusive, Grows;
    assert Content(fs1, ROOT_DIR_INUM) == Content(fs0, ROOT_DIR_INUM);
    assert buf[..|buf|] == buf;
  }

  lemma OpenedReadsSame(fs1: FS, g: int, n: int)
    requires WF(fs1) && ValidHandle(g) && IsFile(fs1, n)
    ensures forall m :: Content(Opened(fs1, g, n, 0), m) == Content(fs1, m)
  {
    TableDoesNotShow(fs1, Opened(fs1, g, n, 0));
  }

  /** Reading the first o bytes of a file through a fresh handle is a regular read that delivers them all. */
  lemma FreshReads(fs: FS, g: int, o: nat, len: nat)
    requires WF(fs) && Usable(fs, g) && fs.handles[g].offset == 0
    requires o + len <= |Content(fs, fs.handles[g].inum)|
    ensures Readable(fs, g, o) && ReadConfined(fs, g, o) && Moves(BLOCK_SIZE, 0, Available(fs, g, o)) == o
  {
  }

  /** A read of len bytes at o, when that is a regular transfer, delivers them all. */
  lemma FreshReads2(fs: FS, g: int, o: nat, len: nat)
    requires WF(fs) && Usable(fs, g) && fs.handles[g].offset == 0
    requires o + len <= |Content(fs, fs.handles[g].inum)| && Regular(BLOCK_SIZE, o, len)
    ensures var fs' := MovedOn(fs, g, o);
            && Readable(fs', g, len) && ReadConfined(fs', g, len) && Moves(BLOCK_SIZE, o, Available(fs', g, len)) == len
            && fs'.handles[g] == OpenFile(fs.handles[g].inum, o)
            && Content(fs', fs.handles[g].inum) == Content(fs, fs.handles[g].inum)
  {
    hide Slot, Content, Exclusive, AllCovered, DirOk;
    MovedOnKeepsWF(fs, g, o);
  }
}
