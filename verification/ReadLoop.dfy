/** The invariant of the loop in tfs_read and the lemmas that carry it round the loop. */
module ReadLoop {
  import opened Config
  import opened Bytes
  import opened Disk
  import opened Ownership
  import opened Files
  import opened Invariant
  import opened Transfer
  import opened Overrun
  import opened WriteLoop
  import Growth

  /** What a read of at most len bytes through h finds: the rest of the file, cut at len. */
  function Available(fs: FS, h: int, len: nat): (k: nat)
    requires ValidHandle(h)
  {
    var f := fs.handles[h];
    if !ValidInum(f.inum) || fs.inodes[f.inum].size < f.offset then 0
    else if fs.inodes[f.inum].size - f.offset > len then len
    else fs.inodes[f.inum].size - f.offset
  }

  /** The reads that stay inside fs_data. */
  ghost predicate ReadConfined(fs: FS, h: int, len: nat)
    requires ValidHandle(h)
  {
    var f := fs.handles[h];
    Straddles(BLOCK_SIZE, f.offset, Available(fs, h, len)) ==> ValidBlock(BlockNo(fs, f.inum, f.offset / BLOCK_SIZE) + 1)
  }

  /** The reads that deliver the bytes of the file: all but a straddling one whose block behind starts otherwise than the next
      block of the file. */
  ghost predicate Readable(fs: FS, h: int, len: nat)
    requires ValidHandle(h)
  {
    var f := fs.handles[h];
    Straddles(BLOCK_SIZE, f.offset, Available(fs, h, len)) ==>
      SameBehind(fs, f.inum, f.offset / BLOCK_SIZE, f.offset % BLOCK_SIZE)
  }

  /** Nothing changed but the offset of handle h. */
  function MovedOn(fs: FS, h: int, k: nat): FS
    requires ValidHandle(h)
  {
    fs.(handles := fs.handles[h := fs.handles[h].(offset := fs.handles[h].offset + k)])
  }

  /** The first `moved` bytes of the buffer are those of the file from the offset on. */
  ghost predicate Delivered(fs0: FS, fs: FS, h: int, buffer: seq<Byte>, toRead: nat, moved: nat)
    requires ValidHandle(h)
  {
    var f := fs0.handles[h];
    && IsFile(fs0, f.inum) && fs == MovedOn(fs0, h, moved)
    && moved <= toRead <= |buffer| && f.offset + toRead <= fs0.inodes[f.inum].size
    && buffer[..moved] == Content(fs0, f.inum)[f.offset..f.offset + moved]
  }

  ghost predicate Reading(fs0: FS, fs: FS, h: int, buffer: seq<Byte>, toRead: nat, i: nat, end: nat, moved: nat) {
    && ValidHandle(h) && Delivered(fs0, fs, h, buffer, toRead, moved)
    && Pending(fs0.handles[h].offset, toRead, i, end, moved)
  }

  ghost predicate ReadDone(fs0: FS, fs: FS, h: int, buffer: seq<Byte>, toRead: nat, moved: nat) {
    && ValidHandle(h) && Delivered(fs0, fs, h, buffer, toRead, moved)
    && moved == Moves(BLOCK_SIZE, fs0.handles[h].offset, toRead)
  }

  /** The loop stands at block i: either a read that straddles two blocks has not moved anything yet, or any other is under way. */
  ghost predicate ReadPoised(fs0: FS, fs: FS, h: int, buffer: seq<Byte>, toRead: nat, i: nat, end: nat, moved: nat)
    requires ValidHandle(h)
  {
    var f := fs0.handles[h];
    if Straddles(BLOCK_SIZE, f.offset, toRead) then
      && fs == fs0 && moved == 0 && i == f.offset / BLOCK_SIZE && end == i + 1 && Astride(fs0, h) && toRead <= |buffer|
    else Reading(fs0, fs, h, buffer, toRead, i, end, moved)
  }

  /** What the loop leaves. */
  ghost predicate ReadEnded(fs0: FS, fs: FS, h: int, buffer: seq<Byte>, toRead: nat, moved: nat)
    requires ValidHandle(h)
  {
    var f := fs0.handles[h];
    if Straddles(BLOCK_SIZE, f.offset, toRead) then
      && moved == toRead <= |buffer| && fs == MovedOn(fs0, h, moved) && Astride(fs0, h)
      && buffer[..moved] == ReadAstride(fs0.data, BlockNo(fs0, f.inum, f.offset / BLOCK_SIZE), f.offset % BLOCK_SIZE)
    else ReadDone(fs0, fs, h, buffer, toRead, moved)
  }

  lemma ReadBegins(fs: FS, h: int, buffer: seq<Byte>, toRead: nat)
    requires WF(fs) && Usable(fs, h)
    requires 0 < toRead <= |buffer| && fs.handles[h].offset + toRead <= fs.inodes[fs.handles[h].inum].size
    requires var f := fs.handles[h];
             Straddles(BLOCK_SIZE, f.offset, toRead) ==> ValidBlock(BlockNo(fs, f.inum, f.offset / BLOCK_SIZE) + 1)
    ensures var o := fs.handles[h].offset;
            ReadPoised(fs, fs, h, buffer, toRead, o / BLOCK_SIZE, EndBlocks(BLOCK_SIZE, o, toRead), 0)
  {
    hide Slot, Exclusive, AllCovered, DirOk, CountOk;
    var o := fs.handles[h].offset;
    if Straddles(BLOCK_SIZE, o, toRead) {
      EndCovers(BLOCK_SIZE, o, toRead);
      StartIsMapped(fs, h);
    } else {
      PendingStarts(o, toRead);
      assert fs.handles == MovedOn(fs, h, 0).handles;
    }
  }

  /** What an iteration may rely on: the block is mapped, and the copy stays inside it, or at least inside fs_data. */
  lemma ReadTurnStarts(fs0: FS, fs: FS, h: int, buffer: seq<Byte>, toRead: nat, i: nat, end: nat, moved: nat)
    requires WF(fs0) && ValidHandle(h) && ReadPoised(fs0, fs, h, buffer, toRead, i, end, moved) && i < end
    ensures moved < toRead <= |buffer|
    ensures var f := fs0.handles[h];
            && IsFile(fs, f.inum) && fs.handles[h] == OpenFile(f.inum, f.offset + moved)
            && i < MAX_FILE_BLOCKS && ValidBlock(BlockNo(fs, f.inum, i))
            && var k := CopyLen(i, end, f.offset + moved, toRead - moved);
               0 < k <= toRead - moved && Growth.InArray(fs, h, i, k)
  {
    hide Slot, Exclusive, AllCovered, DirOk, CountOk, Reading;
    if Straddles(BLOCK_SIZE, fs0.handles[h].offset, toRead) {
      StartIsMapped(fs0, h);
    } else {
      ReadStarts(fs0, fs, h, buffer, toRead, i, end, moved);
    }
  }

  /** The k bytes that a copy out of block b takes at the offset of handle h. */
  function Stretch(fs: FS, h: int, b: int, k: nat): (r: seq<Byte>)
    requires ValidHandle(h) && ValidBlock(b) && b * BLOCK_SIZE + fs.handles[h].offset % BLOCK_SIZE + k <= DISK_SIZE
    ensures |r| == k
  {
    var a := b * BLOCK_SIZE + fs.handles[h].offset % BLOCK_SIZE;
    fs.data[a..a + k]
  }

  /** After the copy the read is either round the loop again or done. */
  lemma ReadTurnEnds(fs0: FS, fs: FS, h: int, buffer: seq<Byte>, toRead: nat, i: nat, end: nat, moved: nat, k: nat)
    requires WF(fs0) && ValidHandle(h) && ReadPoised(fs0, fs, h, buffer, toRead, i, end, moved) && i < end
    requires k == CopyLen(i, end, fs0.handles[h].offset + moved, toRead - moved)
    requires Growth.InArray(fs, h, i, k) && fs.handles[h] == OpenFile(fs0.handles[h].inum, fs0.handles[h].offset + moved)
    requires moved + k <= |buffer|
    ensures var buffer' := Patch(buffer, moved, Stretch(fs, h, BlockNo(fs, fs0.handles[h].inum, i), k));
            if IsLast(i, end, fs0.handles[h].offset + moved, toRead - moved) then
              ReadEnded(fs0, MovedOn(fs, h, k), h, buffer', toRead, moved + k)
            else ReadPoised(fs0, MovedOn(fs, h, k), h, buffer', toRead, i + 1, end, moved + k)
  {
    hide Slot, Exclusive, AllCovered, DirOk, CountOk, Reading, ReadDone, Block;
    var f := fs0.handles[h];
    var bytes := Stretch(fs, h, BlockNo(fs, f.inum, i), k);
    if Straddles(BLOCK_SIZE, f.offset, toRead) {
      assert Patch(buffer, 0, bytes)[..k] == bytes;
    } else {
      ReadStarts(fs0, fs, h, buffer, toRead, i, end, moved);
      StretchOfBlock(fs.data, BlockNo(fs, f.inum, i), (f.offset + moved) % BLOCK_SIZE, k);
      ReadGoesOn(fs0, fs, h, buffer, toRead, i, end, moved, k);
    }
  }

  /** A stretch of a block, as it lies in fs_data. */
  lemma StretchOfBlock(d: seq<Byte>, b: int, off: nat, k: nat)
    requires |d| == DISK_SIZE && ValidBlock(b) && off + k <= BLOCK_SIZE
    ensures d[b * BLOCK_SIZE + off..b * BLOCK_SIZE + off + k] == Block(d, b)[off..off + k]
  {
    var a := b * BLOCK_SIZE;
    var r, s := d[a..a + BLOCK_SIZE], d[a + off..a + off + k];
    forall j | 0 <= j < k ensures s[j] == r[off..off + k][j] {
      assert r[off..off + k][j] == r[off + j] == d[a + (off + j)];
    }
  }

  /** What an iteration may rely on: the block is mapped and the copy stays inside it. */
  lemma ReadStarts(fs0: FS, fs: FS, h: int, buffer: seq<Byte>, toRead: nat, i: nat, end: nat, moved: nat)
    requires WF(fs0) && Reading(fs0, fs, h, buffer, toRead, i, end, moved) && i < end
    ensures ValidHandle(h) && moved < toRead <= |buffer|
    ensures var f := fs0.handles[h];
            && IsFile(fs, f.inum) && fs.handles[h] == OpenFile(f.inum, f.offset + moved)
            && i < MAX_FILE_BLOCKS && ValidBlock(BlockNo(fs, f.inum, i))
            && var k := CopyLen(i, end, f.offset + moved, toRead - moved);
               && 0 < k <= toRead - moved && (f.offset + moved) % BLOCK_SIZE + k <= BLOCK_SIZE
  {
    var f := fs0.handles[h];
    PendingCopy(f.offset, toRead, i, end, moved);
    SameMaps(fs0, fs);
    assert Covered(fs0, f.inum);
    hide Slot, Exclusive, Pending;
    assert BlockNo(fs0, f.inum, i) != NONE;
    MappedIsValid(fs0, f.inum, i);
  }

  /** The bytes that one copy delivers are the next ones of the file. */
  lemma BlockIsContent(fs: FS, n: int, off: nat, k: nat)
    requires IsFile(fs, n) && off + k <= fs.inodes[n].size && off % BLOCK_SIZE + k <= BLOCK_SIZE
    requires ValidBlock(BlockNo(fs, n, off / BLOCK_SIZE))
    ensures Block(fs.data, BlockNo(fs, n, off / BLOCK_SIZE))[off % BLOCK_SIZE..off % BLOCK_SIZE + k]
            == Content(fs, n)[off..off + k]
  {
    hide Slot, Block;
    var b := BlockNo(fs, n, off / BLOCK_SIZE);
    var s := Block(fs.data, b)[off % BLOCK_SIZE..off % BLOCK_SIZE + k];
    var c := Content(fs, n)[off..off + k];
    forall j | 0 <= j < k ensures s[j] == c[j] {
      assert (off + j) / BLOCK_SIZE == off / BLOCK_SIZE;
      assert c[j] == ByteOf(fs, n, off + j);
    }
  }

  lemma ReadGoesOn(fs0: FS, fs: FS, h: int, buffer: seq<Byte>, toRead: nat, i: nat, end: nat, moved: nat, k: nat)
    requires WF(fs0) && Reading(fs0, fs, h, buffer, toRead, i, end, moved) && i < end
    requires k == CopyLen(i, end, fs0.handles[h].offset + moved, toRead - moved)
    ensures var f := fs0.handles[h];
            var off := f.offset + moved;
            && ValidBlock(BlockNo(fs, f.inum, i)) && off % BLOCK_SIZE + k <= BLOCK_SIZE && moved + k <= |buffer|
            && var buffer' := Patch(buffer, moved, Block(fs.data, BlockNo(fs, f.inum, i))[off % BLOCK_SIZE..off % BLOCK_SIZE + k]);
               if IsLast(i, end, off, toRead - moved) then ReadDone(fs0, MovedOn(fs, h, k), h, buffer', toRead, moved + k)
               else Reading(fs0, MovedOn(fs, h, k), h, buffer', toRead, i + 1, end, moved + k)
  {
    hide Slot, Block, Content, Moves, Chained, Copies, Exclusive, AllCovered, DirOk;
    var f := fs0.handles[h];
    var off := f.offset + moved;
    PendingCopy(f.offset, toRead, i, end, moved);
    ReadStarts(fs0, fs, h, buffer, toRead, i, end, moved);
    SameMaps(fs0, fs);
    BlockIsContent(fs0, f.inum, off, k);
    NextBytes(fs0, fs, h, buffer, toRead, moved, k, Content(fs0, f.inum)[off..off + k]);
  }

  lemma NextBytes(fs0: FS, fs: FS, h: int, buffer: seq<Byte>, toRead: nat, moved: nat, k: nat, bytes: seq<Byte>)
    requires ValidHandle(h) && Delivered(fs0, fs, h, buffer, toRead, moved) && moved + k <= toRead
    requires var f := fs0.handles[h];
             bytes == Content(fs0, f.inum)[f.offset + moved..f.offset + moved + k]
    ensures Delivered(fs0, MovedOn(fs, h, k), h, Patch(buffer, moved, bytes), toRead, moved + k)
  {
    hide Content, Patch;
    var f := fs0.handles[h];
    PrefixGrows(Content(fs0, f.inum), f.offset, moved, k, buffer, bytes);
    assert MovedOn(fs, h, k).handles == MovedOn(fs0, h, moved + k).handles;
  }

  lemma PrefixGrows(c: seq<Byte>, o: nat, moved: nat, k: nat, buffer: seq<Byte>, bytes: seq<Byte>)
    requires o + moved + k <= |c| && moved + k <= |buffer|
    requires buffer[..moved] == c[o..o + moved] && bytes == c[o + moved..o + moved + k]
    ensures Patch(buffer, moved, bytes)[..moved + k] == c[o..o + moved + k]
  {
    assert Patch(buffer, moved, bytes)[..moved + k] == buffer[..moved] + bytes;
  }

  lemma ReadRunsOut(fs0: FS, fs: FS, h: int, buffer: seq<Byte>, toRead: nat, i: nat, end: nat, moved: nat)
    requires ValidHandle(h) && ReadPoised(fs0, fs, h, buffer, toRead, i, end, moved) && i >= end
    ensures ReadEnded(fs0, fs, h, buffer, toRead, moved)
  {
    PendingEnds(fs0.handles[h].offset, toRead, i, end, moved);
  }

  /** Moving an offset inside its file leaves the state well formed. */
  lemma MovedOnKeepsWF(fs: FS, h: int, k: nat)
    requires WF(fs) && Usable(fs, h)
    requires fs.handles[h].offset + k <= fs.inodes[fs.handles[h].inum].size
    ensures WF(MovedOn(fs, h, k))
    ensures forall m :: Content(MovedOn(fs, h, k), m) == Content(fs, m)
  {
    Growth.HandlesDoNotShow(fs, MovedOn(fs, h, k));
  }

  /** A read that ended moved the offset past what its plan moves, and delivered the bytes of the file exactly when it
      is readable. */
  lemma ReadEnds(fs0: FS, fs: FS, h: int, buffer: seq<Byte>, len: nat, moved: nat)
    requires WF(fs0) && Usable(fs0, h) && Available(fs0, h, len) > 0
    requires ReadEnded(fs0, fs, h, buffer, Available(fs0, h, len), moved)
    ensures WF(fs) && fs == MovedOn(fs0, h, moved)
    ensures var f := fs0.handles[h];
            var c := Content(fs0, f.inum);
            && moved == Moves(BLOCK_SIZE, f.offset, Available(fs0, h, len)) && f.offset + moved <= |c| && moved <= |buffer|
            && (buffer[..moved] == c[f.offset..f.offset + moved] <==> Readable(fs0, h, len))
  {
    hide Slot, Exclusive, AllCovered, DirOk, CountOk, SameBehind, Content, ReadAstride;
    var f := fs0.handles[h];
    assert |Content(fs0, f.inum)| == fs0.inodes[f.inum].size;
    if Straddles(BLOCK_SIZE, f.offset, Available(fs0, h, len)) { OneBlockReadIff(fs0, h); }
    MovedOnKeepsWF(fs0, h, moved);
  }
}
