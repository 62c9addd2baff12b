/** The invariant of the loop in tfs_write and the lemmas that carry it round the loop. */
module WriteLoop {
  import opened Config
  import opened Bytes
  import opened Disk
  import opened Ownership
  import opened Files
  import opened Invariant
  import opened Growth
  import opened Transfer
  import opened IndexRoom
  import opened Overrun

  /** One past the last block that a transfer touches. */
  function HighBlock(o: nat, n: nat): nat {
    var m := Moves(BLOCK_SIZE, o, n);
    if m == 0 then o / BLOCK_SIZE else (o + m - 1) / BLOCK_SIZE + 1
  }

  /** The writes that stay inside fs_data and the block map, and fill their index block without harm. */
  ghost predicate Confined(fs: FS, h: int, n: nat)
    requires ValidHandle(h)
  {
    var f := fs.handles[h];
    n > 0 && ValidInum(f.inum) ==>
      && (Straddles(BLOCK_SIZE, f.offset, n) ==> ValidBlock(BlockNo(fs, f.inum, f.offset / BLOCK_SIZE) + 1))
      && f.offset + Moves(BLOCK_SIZE, f.offset, n) <= MAX_FILE_SIZE
      && Room(fs, f.inum, f.offset / BLOCK_SIZE, HighBlock(f.offset, n))
  }

  /** Of those, the writes for which every access of tfs_write stays inside the file's own blocks. */
  ghost predicate Writable(fs: FS, h: int, n: nat)
    requires ValidHandle(h)
  {
    var f := fs.handles[h];
    Confined(fs, h, n) && (Straddles(BLOCK_SIZE, f.offset, n) ==> Adjacent(fs, f.inum, f.offset / BLOCK_SIZE))
  }

  /** The loop of a write through h is at block i: `written` bytes of buf are in, and the copies still to
      come are those that the plan of the transfer has left. */
  ghost predicate Underway(fs0: FS, fs: FS, h: int, buf: seq<Byte>, i: nat, end: nat, written: nat)
    requires ValidHandle(h)
  {
    var n, o := fs0.handles[h].inum, fs0.handles[h].offset;
    && |buf| > 0
    && Progress(fs0, fs, h, buf, written)
    && Pending(o, |buf|, i, end, written)
    && Room(fs, n, i, HighBlock(o, |buf|))
    && o / BLOCK_SIZE <= i <= HighBlock(o, |buf|) && OnlyBlocks(fs0, fs, n, o / BLOCK_SIZE, i)
  }

  ghost predicate Pending(o: nat, n: nat, i: nat, end: nat, moved: nat) {
    var off := o + moved;
    && moved <= n && end == EndBlocks(BLOCK_SIZE, o, n)
    && var rest := Copies(BLOCK_SIZE, i, off % BLOCK_SIZE, end, n - moved);
       && Chained(BLOCK_SIZE, off, rest)
       && moved + Total(rest) == Moves(BLOCK_SIZE, o, n)
       && (i < end ==> i == off / BLOCK_SIZE && moved < n)
  }

  /** The length of the copy that one iteration makes. */
  function CopyLen(i: nat, end: nat, off: nat, left: nat): nat {
    if i + 1 < end && left > BLOCK_SIZE - off % BLOCK_SIZE then BLOCK_SIZE - off % BLOCK_SIZE
    else if left <= BLOCK_SIZE then left
    else BLOCK_SIZE
  }

  /** The iteration is the last one: the code leaves the loop. */
  predicate IsLast(i: nat, end: nat, off: nat, left: nat) {
    !(i + 1 < end && left > BLOCK_SIZE - off % BLOCK_SIZE) && left <= BLOCK_SIZE
  }

  lemma PendingStarts(o: nat, n: nat)
    requires n > 0 && !Straddles(BLOCK_SIZE, o, n)
    ensures Pending(o, n, o / BLOCK_SIZE, EndBlocks(BLOCK_SIZE, o, n), 0)
  {
    TransferExact(BLOCK_SIZE, o, n);
  }

  /** One iteration copies a positive number of bytes inside block i, within the transfer. */
  lemma PendingCopy(o: nat, n: nat, i: nat, end: nat, moved: nat)
    requires Pending(o, n, i, end, moved) && i < end
    ensures var off, left := o + moved, n - moved;
            var k := CopyLen(i, end, off, left);
            && 0 < k <= left && off % BLOCK_SIZE + k <= BLOCK_SIZE
            && moved + k <= Moves(BLOCK_SIZE, o, n)
            && if IsLast(i, end, off, left) then moved + k == Moves(BLOCK_SIZE, o, n)
               else Pending(o, n, i + 1, end, moved + k)
  {
    hide BlockStart, Moves, EndBlocks;
    var off, left := o + moved, n - moved;
    var rest := Copies(BLOCK_SIZE, i, off % BLOCK_SIZE, end, left);
    var k := CopyLen(i, end, off, left);
    assert rest[0] == Copy(i, off % BLOCK_SIZE, k);
    assert rest == [rest[0]] + rest[1..];
    assert InBlock(BLOCK_SIZE, rest[0]) && Chained(BLOCK_SIZE, off + k, rest[1..]);
    assert Total(rest) == k + Total(rest[1..]);
    if IsLast(i, end, off, left) {
      assert rest[1..] == [];
    } else {
      assert (off + k) % BLOCK_SIZE == 0;
      assert i + 1 < end ==> (off + k) / BLOCK_SIZE == i + 1 && k < left;
      var next := Copies(BLOCK_SIZE, i + 1, (o + (moved + k)) % BLOCK_SIZE, end, n - (moved + k));
      assert rest[1..] == next;
      assert Chained(BLOCK_SIZE, o + (moved + k), next);
      assert Pending(o, n, i + 1, end, moved + k);
    }
  }

  lemma PendingEnds(o: nat, n: nat, i: nat, end: nat, moved: nat)
    requires Pending(o, n, i, end, moved) && i >= end
    ensures moved == Moves(BLOCK_SIZE, o, n)
  {
  }

  /** The block that an iteration writes is one that the transfer touches. */
  lemma BlockInRange(o: nat, n: nat, i: nat, end: nat, moved: nat)
    requires Pending(o, n, i, end, moved) && i < end
    requires o + Moves(BLOCK_SIZE, o, n) <= MAX_FILE_SIZE
    ensures i < HighBlock(o, n) <= MAX_FILE_BLOCKS
  {
    PendingCopy(o, n, i, end, moved);
  }

  // ---------------------------------------------------------------- changed slots

  lemma OnlyBlocksTrans(fs0: FS, fs1: FS, fs2: FS, n: int, lo: int, i: int)
    requires lo <= i && OnlyBlocks(fs0, fs1, n, lo, i) && OnlyBlocks(fs1, fs2, n, i, i + 1)
    ensures OnlyBlocks(fs0, fs2, n, lo, i + 1)
  {
    hide Slot;
    forall s | Slot(fs2, n, s) != Slot(fs0, n, s)
      ensures if s == INDEX_SLOT then i + 1 > MAX_DIRECT_BLOCKS
              else lo <= (if s < INDEX_SLOT then s else s - 1) < i + 1
    {
      assert Slot(fs1, n, s) == Slot(fs1, n, s);
    }
  }

  lemma OnlyBlocksMonotone(fs0: FS, fs: FS, n: int, lo: int, hi: int, hi': int)
    requires OnlyBlocks(fs0, fs, n, lo, hi) && hi <= hi'
    ensures OnlyBlocks(fs0, fs, n, lo, hi')
  {
    hide Slot;
  }

  // ---------------------------------------------------------------- once round the loop

  /** The loop stands at block i: either a write that straddles two blocks has not moved anything yet, or any other is under way. */
  ghost predicate Poised(fs0: FS, fs: FS, h: int, buf: seq<Byte>, i: nat, end: nat, written: nat)
    requires ValidHandle(h)
  {
    var o := fs0.handles[h].offset;
    if Straddles(BLOCK_SIZE, o, |buf|) then fs == fs0 && written == 0 && i == o / BLOCK_SIZE && end == i + 1
    else Underway(fs0, fs, h, buf, i, end, written)
  }

  /** What the loop leaves. */
  ghost predicate Ended(fs0: FS, fs: FS, h: int, buf: seq<Byte>, written: nat)
    requires ValidHandle(h)
  {
    var o := fs0.handles[h].offset;
    if Straddles(BLOCK_SIZE, o, |buf|) then
      written == BLOCK_SIZE && InArray(fs0, h, o / BLOCK_SIZE, |buf|) && fs == Copied(fs0, h, o / BLOCK_SIZE, buf)
    else Done(fs0, fs, h, buf, written)
  }

  lemma WriteStarts(fs: FS, h: int, buf: seq<Byte>)
    requires WF(fs) && Usable(fs, h)
    ensures |buf| == 0 ==> Done(fs, fs, h, buf, 0)
    ensures Confined(fs, h, |buf|) && |buf| > 0 ==>
              Poised(fs, fs, h, buf, fs.handles[h].offset / BLOCK_SIZE, EndBlocks(BLOCK_SIZE, fs.handles[h].offset, |buf|), 0)
  {
    var n, o := fs.handles[h].inum, fs.handles[h].offset;
    assert Content(fs, n) == Splice(Content(fs, n), o, buf[..0]);
    if Confined(fs, h, |buf|) && |buf| > 0 {
      if Straddles(BLOCK_SIZE, o, |buf|) { EndCovers(BLOCK_SIZE, o, |buf|); } else { PendingStarts(o, |buf|); }
    }
  }

  /** A block number is in place for block i of a write that does not straddle; the state is as in the middle of an iteration. */
  ghost predicate Ready(fs0: FS, fs: FS, h: int, buf: seq<Byte>, i: nat, end: nat, written: nat)
    requires ValidHandle(h)
  {
    var n, o := fs0.handles[h].inum, fs0.handles[h].offset;
    && |buf| > 0 && i < end
    && Progress(fs0, fs, h, buf, written)
    && Pending(o, |buf|, i, end, written)
    && Room(fs, n, i + 1, HighBlock(o, |buf|))
    && o / BLOCK_SIZE <= i < HighBlock(o, |buf|) && OnlyBlocks(fs0, fs, n, o / BLOCK_SIZE, i + 1)
  }

  lemma BlockIsReady(fs0: FS, fs: FS, fs': FS, h: int, buf: seq<Byte>, i: nat, end: nat, written: nat)
    requires WF(fs0) && Usable(fs0, h)
    requires Underway(fs0, fs, h, buf, i, end, written) && i < HighBlock(fs0.handles[h].offset, |buf|) && i < end
    requires Mapped(fs, fs', fs0.handles[h].inum) && OnlyBlocks(fs, fs', fs0.handles[h].inum, i, i + 1)
    requires Room(fs', fs0.handles[h].inum, i + 1, HighBlock(fs0.handles[h].offset, |buf|))
    ensures Ready(fs0, fs', h, buf, i, end, written)
  {
    MappedKeepsProgress(fs0, fs, fs', h, buf, written);
    OnlyBlocksTrans(fs0, fs, fs', fs0.handles[h].inum, fs0.handles[h].offset / BLOCK_SIZE, i);
  }

  /** A block number is in place for block i, whatever the write. */
  ghost predicate BlockSet(fs0: FS, fs: FS, h: int, buf: seq<Byte>, i: nat, end: nat, written: nat)
    requires ValidHandle(h)
  {
    if Straddles(BLOCK_SIZE, fs0.handles[h].offset, |buf|) then Poised(fs0, fs, h, buf, i, end, written)
    else Ready(fs0, fs, h, buf, i, end, written)
  }

  /** What finding or allocating the block leaves. */
  lemma BlockIsSet(fs0: FS, fs: FS, fs': FS, h: int, buf: seq<Byte>, i: nat, end: nat, written: nat)
    requires WF(fs0) && Usable(fs0, h)
    requires Poised(fs0, fs, h, buf, i, end, written) && i < HighBlock(fs0.handles[h].offset, |buf|) && i < end
    requires Mapped(fs, fs', fs0.handles[h].inum) && OnlyBlocks(fs, fs', fs0.handles[h].inum, i, i + 1)
    requires Room(fs', fs0.handles[h].inum, i + 1, HighBlock(fs0.handles[h].offset, |buf|))
    requires BlockNo(fs, fs0.handles[h].inum, i) != NONE ==> fs' == fs
    ensures BlockSet(fs0, fs', h, buf, i, end, written)
  {
    hide Room, Mapped, OnlyBlocks, Underway, Ready, HighBlock, WF;
    if Straddles(BLOCK_SIZE, fs0.handles[h].offset, |buf|) { StartIsMapped(fs0, h); }
    else { BlockIsReady(fs0, fs, fs', h, buf, i, end, written); }
  }

  /** The block that an offset inside it points to is mapped. */
  lemma StartIsMapped(fs: FS, h: int)
    requires WF(fs) && Usable(fs, h) && fs.handles[h].offset % BLOCK_SIZE > 0
    ensures var (n, i) := (fs.handles[h].inum, fs.handles[h].offset / BLOCK_SIZE);
            IsFile(fs, n) && i < MAX_FILE_BLOCKS && BlockNo(fs, n, i) != NONE && ValidBlock(BlockNo(fs, n, i))
  {
    var (n, i) := (fs.handles[h].inum, fs.handles[h].offset / BLOCK_SIZE);
    assert Covered(fs, n);
    hide Slot, Exclusive, DirOk, CountOk;
    assert i * BLOCK_SIZE < fs.inodes[n].size;
    assert BlockNo(fs, n, i) != NONE;
    MappedIsValid(fs, n, i);
  }

  /** The iteration may use the block: the copy that it makes stays inside it, or at least inside fs_data. */
  lemma CopyFits(fs0: FS, fs: FS, h: int, buf: seq<Byte>, i: nat, end: nat, written: nat)
    requires WF(fs0) && Usable(fs0, h) && Confined(fs0, h, |buf|)
    requires BlockSet(fs0, fs, h, buf, i, end, written)
    ensures fs.handles[h] == OpenFile(fs0.handles[h].inum, fs0.handles[h].offset + written)
    ensures IsFile(fs, fs0.handles[h].inum) && Exclusive(fs, {})
    ensures i == fs.handles[h].offset / BLOCK_SIZE && written < |buf|
    ensures var k := CopyLen(i, end, fs.handles[h].offset, |buf| - written);
            0 < k <= |buf| - written && (ValidBlock(BlockNo(fs, fs0.handles[h].inum, i)) ==> InArray(fs, h, i, k))
  {
    hide Slot, Exclusive, AllCovered, Room;
    if !Straddles(BLOCK_SIZE, fs0.handles[h].offset, |buf|) {
      PendingCopy(fs0.handles[h].offset, |buf|, i, end, written);
      OffsetInContent(fs0, fs, h, buf, written);
    }
  }

  /** All that the transfer moves is in. */
  ghost predicate Done(fs0: FS, fs: FS, h: int, buf: seq<Byte>, written: nat)
    requires ValidHandle(h)
  {
    var n, o := fs0.handles[h].inum, fs0.handles[h].offset;
    && Progress(fs0, fs, h, buf, written)
    && written == Moves(BLOCK_SIZE, o, |buf|)
    && OnlyBlocks(fs0, fs, n, o / BLOCK_SIZE, HighBlock(o, |buf|))
  }

  /** After the copy the write is either round the loop again or done. */
  lemma CopyGoesOn(fs0: FS, fs: FS, fs': FS, h: int, buf: seq<Byte>, i: nat, end: nat, written: nat, k: nat)
    requires WF(fs0) && Usable(fs0, h) && Confined(fs0, h, |buf|)
    requires BlockSet(fs0, fs, h, buf, i, end, written) && ValidBlock(BlockNo(fs, fs0.handles[h].inum, i))
    requires k == CopyLen(i, end, fs.handles[h].offset, |buf| - written) && written + k <= |buf| && InArray(fs, h, i, k)
    requires fs' == Copied(fs, h, i, buf[written..written + k])
    ensures if IsLast(i, end, fs.handles[h].offset, |buf| - written) then Ended(fs0, fs', h, buf, written + k)
            else Poised(fs0, fs', h, buf, i + 1, end, written + k)
  {
    hide Exclusive, AllCovered, Slot, Ready, Written, Underway, Done, Confined, WF;
    if Straddles(BLOCK_SIZE, fs0.handles[h].offset, |buf|) {
      assert buf[0..BLOCK_SIZE] == buf;
    } else {
      CopyInBlock(fs0, fs, h, buf, i, end, written);
      CopyMovesOn(fs0, fs, fs', h, buf, i, end, written, k);
    }
  }

  lemma CopyInBlock(fs0: FS, fs: FS, h: int, buf: seq<Byte>, i: nat, end: nat, written: nat)
    requires WF(fs0) && Usable(fs0, h) && Ready(fs0, fs, h, buf, i, end, written)
    ensures fs.handles[h] == OpenFile(fs0.handles[h].inum, fs0.handles[h].offset + written)
    ensures IsFile(fs, fs0.handles[h].inum) && i == fs.handles[h].offset / BLOCK_SIZE && written < |buf|
    ensures var k := CopyLen(i, end, fs.handles[h].offset, |buf| - written);
            0 < k <= |buf| - written && fs.handles[h].offset % BLOCK_SIZE + k <= BLOCK_SIZE
  {
    PendingCopy(fs0.handles[h].offset, |buf|, i, end, written);
    OffsetInContent(fs0, fs, h, buf, written);
  }

  lemma CopyMovesOn(fs0: FS, fs: FS, fs': FS, h: int, buf: seq<Byte>, i: nat, end: nat, written: nat, k: nat)
    requires WF(fs0) && Usable(fs0, h)
    requires Ready(fs0, fs, h, buf, i, end, written)
    requires k == CopyLen(i, end, fs.handles[h].offset, |buf| - written) && written + k <= |buf|
    requires CopyDone(fs, fs', h, i, buf[written..written + k])
    ensures if IsLast(i, end, fs.handles[h].offset, |buf| - written) then Done(fs0, fs', h, buf, written + k)
            else Underway(fs0, fs', h, buf, i + 1, end, written + k)
  {
    hide Exclusive, AllCovered, Slot, Grows, Content, Pending, Progress, Room, Written;
    var n, o := fs0.handles[h].inum, fs0.handles[h].offset;
    CopyInBlock(fs0, fs, h, buf, i, end, written);
    PendingCopy(o, |buf|, i, end, written);
    CopyProgress(fs0, fs, h, buf, written, i, k);
    RoomUnchanged(fs, fs', h, i, buf[written..written + k], i + 1, HighBlock(o, |buf|));
    SlotsKeepBlocks(fs0, fs, fs', n, o / BLOCK_SIZE, i + 1);
    OnlyBlocksMonotone(fs0, fs', n, o / BLOCK_SIZE, i + 1, HighBlock(o, |buf|));
  }

  lemma RoomUnchanged(fs: FS, fs': FS, h: int, i: nat, bytes: seq<Byte>, j: nat, hi: int)
    requires ValidHandle(h) && CopyDone(fs, fs', h, i, bytes) && Room(fs, fs.handles[h].inum, j, hi)
    requires IsFile(fs, fs.handles[h].inum)
    ensures Room(fs', fs.handles[h].inum, j, hi)
  {
    var n := fs.handles[h].inum;
    if fs.inodes[n].indirect == NONE {
      assert i < MAX_DIRECT_BLOCKS && BlockNo(fs, n, i) == fs.inodes[n].direct[i];
      hide Slot, Room;
      PatchBlock(fs.data, BlockNo(fs, n, i), fs.handles[h].offset % BLOCK_SIZE, bytes);
      RoomAfterCopy(fs, fs', n, j, hi, i);
    }
  }

  /** The loop is left because the block counter ran out. */
  lemma LoopEnds(fs0: FS, fs: FS, h: int, buf: seq<Byte>, i: nat, end: nat, written: nat)
    requires ValidHandle(h)
    requires Poised(fs0, fs, h, buf, i, end, written) && i >= end
    ensures Ended(fs0, fs, h, buf, written)
  {
    var n, o := fs0.handles[h].inum, fs0.handles[h].offset;
    PendingEnds(o, |buf|, i, end, written);
    OnlyBlocksMonotone(fs0, fs, n, o / BLOCK_SIZE, i, HighBlock(o, |buf|));
  }

  /** A finished write leaves a well-formed state. */
  lemma WriteEnds(fs0: FS, fs: FS, h: int, buf: seq<Byte>, written: nat)
    requires WF(fs0) && Usable(fs0, h)
    requires Done(fs0, fs, h, buf, written)
    ensures WF(fs) && fs.handles[h].offset == fs0.handles[h].offset + written
  {
    ProgressKeepsWF(fs0, fs, h, buf, written);
  }

  /** A write that straddles two blocks ends well if they lie one behind the other. */
  lemma AdjacentEnds(fs0: FS, fs: FS, h: int, buf: seq<Byte>, written: nat)
    requires WF(fs0) && Usable(fs0, h) && Writable(fs0, h, |buf|) && |buf| > 0
    requires Ended(fs0, fs, h, buf, written)
    ensures Done(fs0, fs, h, buf, written)
  {
    var n, o := fs0.handles[h].inum, fs0.handles[h].offset;
    if Straddles(BLOCK_SIZE, o, |buf|) {
      StartIsMapped(fs0, h);
      AstrideGoesWell(fs0, h, buf);
      hide Slot, Exclusive, AllCovered, Progress, Copied;
      assert forall s :: Slot(fs, n, s) == Slot(fs0, n, s);
    }
  }

  /** What an iteration may rely on before it looks for its block. */
  lemma IterationStarts(fs0: FS, fs: FS, h: int, buf: seq<Byte>, i: nat, end: nat, written: nat)
    requires WF(fs0) && Usable(fs0, h) && Confined(fs0, h, |buf|) && |buf| > 0
    requires Poised(fs0, fs, h, buf, i, end, written) && i < end
    ensures var f := fs0.handles[h];
            && IsFile(fs, f.inum) && Exclusive(fs, {}) && AllCovered(fs)
            && i < HighBlock(f.offset, |buf|) <= MAX_FILE_BLOCKS
            && Room(fs, f.inum, i, HighBlock(f.offset, |buf|))
  {
    hide Exclusive, AllCovered, Room, DirOk, CountOk;
    if !Straddles(BLOCK_SIZE, fs0.handles[h].offset, |buf|) {
      BlockInRange(fs0.handles[h].offset, |buf|, i, end, written);
      OffsetInContent(fs0, fs, h, buf, written);
    }
  }

  /** A write that found no block: exactly the whole blocks before it are in. */
  ghost predicate Stuck(fs0: FS, fs: FS, h: int, buf: seq<Byte>, written: int)
    requires ValidHandle(h)
  {
    var f := fs0.handles[h];
    && Progress(fs0, fs, h, buf, written)
    && written < |buf| && (f.offset + written) % BLOCK_SIZE == 0
    && BlockNo(fs, f.inum, (f.offset + written) / BLOCK_SIZE) == NONE
    && OnlyBlocks(fs0, fs, f.inum, f.offset / BLOCK_SIZE, (f.offset + written) / BLOCK_SIZE + 1)
  }

  lemma StopsAtBlock(fs0: FS, fs: FS, h: int, buf: seq<Byte>, i: nat, end: nat, written: nat)
    requires WF(fs0) && Usable(fs0, h)
    requires BlockSet(fs0, fs, h, buf, i, end, written)
    requires BlockNo(fs, fs0.handles[h].inum, i) == NONE
    ensures Stuck(fs0, fs, h, buf, written) && !Straddles(BLOCK_SIZE, fs0.handles[h].offset, |buf|)
  {
    hide Slot, Exclusive, DirOk, CountOk;
    var n := fs0.handles[h].inum;
    if Straddles(BLOCK_SIZE, fs0.handles[h].offset, |buf|) {
      StartIsMapped(fs0, h);
    } else {
      OffsetInContent(fs0, fs, h, buf, written);
      assert Covered(fs, n);
      assert i * BLOCK_SIZE < fs.inodes[n].size ==> BlockNo(fs, n, i) != NONE;
    }
  }

  lemma StuckEnds(fs0: FS, fs: FS, h: int, buf: seq<Byte>, written: int)
    requires WF(fs0) && Usable(fs0, h)
    requires Stuck(fs0, fs, h, buf, written)
    ensures WF(fs) && fs.handles[h].offset == fs0.handles[h].offset + written
  {
    ProgressKeepsWF(fs0, fs, h, buf, written);
  }

  lemma SlotsKeepBlocks(fs0: FS, fs: FS, fs': FS, n: int, lo: int, hi: int)
    requires ValidInum(n) && fs.inodeTaken[n] && SameSlots(fs, fs', {}) && OnlyBlocks(fs0, fs, n, lo, hi)
    ensures OnlyBlocks(fs0, fs', n, lo, hi)
  {
    hide Slot;
  }

  /** What a write leaves, in all its cases. */
  lemma WriteOutcome(fs0: FS, fs: FS, h: int, buf: seq<Byte>, r: int)
    requires WF(fs0) && Usable(fs0, h) && Confined(fs0, h, |buf|)
    requires if |buf| == 0 then r == 0 && fs == fs0
             else if r == NONE then
               !Straddles(BLOCK_SIZE, fs0.handles[h].offset, |buf|) && exists moved :: Stuck(fs0, fs, h, buf, moved)
             else r >= 0 && Ended(fs0, fs, h, buf, r)
    ensures Straddles(BLOCK_SIZE, fs0.handles[h].offset, |buf|) ==>
              r == BLOCK_SIZE && Astride(fs0, h) && fs == WrittenAstride(fs0, h, buf)
    ensures Writable(fs0, h, |buf|) ==>
              && WF(fs)
              && if r == NONE then Stuck(fs0, fs, h, buf, fs.handles[h].offset - fs0.handles[h].offset)
                 else r >= 0 && Done(fs0, fs, h, buf, r)
  {
    hide Slot, Exclusive, AllCovered, DirOk, CountOk, Progress, Room, Copied, Writable, OnlyBlocks;
    if |buf| == 0 {
      WriteStarts(fs0, h, buf);
    } else if r == NONE {
      var moved :| Stuck(fs0, fs, h, buf, moved);
      StuckEnds(fs0, fs, h, buf, moved);
    } else {
      if Straddles(BLOCK_SIZE, fs0.handles[h].offset, |buf|) { StartIsMapped(fs0, h); }
      if Writable(fs0, h, |buf|) {
        AdjacentEnds(fs0, fs, h, buf, r);
        WriteEnds(fs0, fs, h, buf, r);
      }
    }
  }
}
