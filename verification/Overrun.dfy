/**
  The one copy that leaves its block: a transfer of exactly one block at an offset that is not aligned. What does not fit behind
  the offset goes to, or comes from, the start of the next block of fs_data, whoever holds it.
 */
module Overrun {
  import opened Config
  import opened Bytes
  import opened Disk
  import opened Ownership
  import opened Files
  import opened Invariant
  import opened Growth

  /** The part of the copy that fits, and the part that spills. */
  function Fitting(at: nat, bytes: seq<Byte>): (s: seq<Byte>)
    requires 0 < at < BLOCK_SIZE == |bytes|
    ensures |s| == BLOCK_SIZE - at && s + Spilled(at, bytes) == bytes
  {
    bytes[..BLOCK_SIZE - at]
  }

  function Spilled(at: nat, bytes: seq<Byte>): (s: seq<Byte>)
    requires 0 < at < BLOCK_SIZE == |bytes|
    ensures |s| == at
  {
    bytes[BLOCK_SIZE - at..]
  }

  /** The copy is one inside block b and one at the start of block b + 1. */
  lemma TwoCopies(d: seq<Byte>, b: int, at: nat, bytes: seq<Byte>)
    requires |d| == DISK_SIZE && ValidBlock(b) && ValidBlock(b + 1) && 0 < at < BLOCK_SIZE == |bytes|
    ensures Patch(d, b * BLOCK_SIZE + at, bytes)
         == Patch(Patch(d, b * BLOCK_SIZE + at, Fitting(at, bytes)), (b + 1) * BLOCK_SIZE, Spilled(at, bytes))
  {
  }

  /** The copy puts what fits into its own block and the rest over the start of the next; the next block keeps what it had
      exactly when that was there already, and all other blocks keep theirs. */
  lemma CopySpills(d: seq<Byte>, b: int, at: nat, bytes: seq<Byte>)
    requires |d| == DISK_SIZE && ValidBlock(b) && ValidBlock(b + 1) && 0 < at < BLOCK_SIZE == |bytes|
    ensures var d' := Patch(d, b * BLOCK_SIZE + at, bytes);
            && Block(d', b) == Patch(Block(d, b), at, Fitting(at, bytes))
            && Block(d', b + 1) == Patch(Block(d, b + 1), 0, Spilled(at, bytes))
            && (Block(d', b + 1) == Block(d, b + 1) <==> Block(d, b + 1)[..at] == Spilled(at, bytes))
            && forall c :: ValidBlock(c) && c != b && c != b + 1 ==> Block(d', c) == Block(d, c)
  {
    hide Block, Patch;
    var mid := Patch(d, b * BLOCK_SIZE + at, Fitting(at, bytes));
    TwoCopies(d, b, at, bytes);
    PatchBlock(d, b, at, Fitting(at, bytes));
    PatchBlock(mid, b + 1, 0, Spilled(at, bytes));
    StartKeptIff(Block(d, b + 1), Spilled(at, bytes));
  }

  lemma StartKeptIff(c: seq<Byte>, s: seq<Byte>)
    requires |s| <= |c|
    ensures Patch(c, 0, s) == c <==> c[..|s|] == s
  {
    if Patch(c, 0, s) == c { assert Patch(c, 0, s)[..|s|] == s; }
  }

  /** Seen from the files: no block number changes, and the file that holds the next block has what spilled at the start of
      that block of its content, as far as its size goes. It notices nothing exactly when that was there already. */
  lemma SpillShows(fs: FS, n: int, i: nat, m: int, j: nat, at: nat, bytes: seq<Byte>)
    requires Exclusive(fs, {}) && Live(fs, n) && Live(fs, m) && n != m && 0 < at < BLOCK_SIZE == |bytes|
    requires BlockNo(fs, n, i) != NONE && BlockNo(fs, m, j) == BlockNo(fs, n, i) + 1
    ensures ValidBlock(BlockNo(fs, n, i)) && ValidBlock(BlockNo(fs, m, j))
    ensures var fs' := PutBytes(fs, BlockNo(fs, n, i) * BLOCK_SIZE + at, bytes);
            var c, c', p := Content(fs, m), Content(fs', m), j * BLOCK_SIZE;
            && SameSlots(fs, fs', {}) && Exclusive(fs', {}) && |c'| == |c|
            && (forall k :: 0 <= k < |c| ==> c'[k] == if p <= k < p + at then Spilled(at, bytes)[k - p] else c[k])
            && (c' == c <==> forall k :: p <= k < p + at && k < |c| ==> c[k] == Spilled(at, bytes)[k - p])
  {
    hide Exclusive, Slot, Patch, Block, Content;
    var b := BlockNo(fs, n, i);
    MappedIsValid(fs, n, i);
    MappedIsValid(fs, m, j);
    SpillKeepsSlots(fs, n, i, m, j, at, bytes);
    CopySpills(fs.data, b, at, bytes);
    SpilledContent(fs, PutBytes(fs, b * BLOCK_SIZE + at, bytes), n, i, m, j, at, bytes);
  }

  lemma SpillKeepsSlots(fs: FS, n: int, i: nat, m: int, j: nat, at: nat, bytes: seq<Byte>)
    requires Exclusive(fs, {}) && Live(fs, n) && Live(fs, m) && 0 < at < BLOCK_SIZE == |bytes|
    requires ValidBlock(BlockNo(fs, n, i)) && ValidBlock(BlockNo(fs, m, j)) && BlockNo(fs, m, j) == BlockNo(fs, n, i) + 1
    ensures var fs' := PutBytes(fs, BlockNo(fs, n, i) * BLOCK_SIZE + at, bytes);
            SameSlots(fs, fs', {}) && Exclusive(fs', {})
  {
    hide Exclusive, Slot, Patch;
    var b := BlockNo(fs, n, i);
    var mid := PutBytes(fs, b * BLOCK_SIZE + at, Fitting(at, bytes));
    assert Owns(fs, n, DataSlot(i));
    WriteKeepsSlots(fs, n, DataSlot(i), at, Fitting(at, bytes), {});
    assert Slot(mid, m, DataSlot(j)) == Slot(fs, m, DataSlot(j));
    assert Owns(mid, m, DataSlot(j));
    WriteKeepsSlots(mid, m, DataSlot(j), 0, Spilled(at, bytes), {});
    TwoCopies(fs.data, b, at, bytes);
  }

  lemma SpilledContent(fs: FS, fs': FS, n: int, i: nat, m: int, j: nat, at: nat, bytes: seq<Byte>)
    requires Exclusive(fs, {}) && Live(fs, n) && Live(fs, m) && n != m && 0 < at < BLOCK_SIZE == |bytes|
    requires ValidBlock(BlockNo(fs, n, i)) && ValidBlock(BlockNo(fs, m, j)) && BlockNo(fs, m, j) == BlockNo(fs, n, i) + 1
    requires SameSlots(fs, fs', {}) && fs'.inodes == fs.inodes
    requires Block(fs'.data, BlockNo(fs, m, j)) == Patch(Block(fs.data, BlockNo(fs, m, j)), 0, Spilled(at, bytes))
    requires forall c :: ValidBlock(c) && c != BlockNo(fs, n, i) && c != BlockNo(fs, m, j) ==>
               Block(fs'.data, c) == Block(fs.data, c)
    ensures var c, c', p := Content(fs, m), Content(fs', m), j * BLOCK_SIZE;
            && |c'| == |c|
            && forall k :: 0 <= k < |c| ==> c'[k] == if p <= k < p + at then Spilled(at, bytes)[k - p] else c[k]
  {
    hide Slot, Exclusive, Block, Patch;
    forall k | 0 <= k < fs.inodes[m].size
      ensures var p := j * BLOCK_SIZE;
              ByteOf(fs', m, k) == if p <= k < p + at then Spilled(at, bytes)[k - p] else ByteOf(fs, m, k)
    {
      SpilledByte(fs, fs', n, i, m, j, at, bytes, k);
    }
  }

  lemma SpilledByte(fs: FS, fs': FS, n: int, i: nat, m: int, j: nat, at: nat, bytes: seq<Byte>, k: nat)
    requires Exclusive(fs, {}) && Live(fs, n) && Live(fs, m) && n != m && 0 < at < BLOCK_SIZE == |bytes|
    requires ValidBlock(BlockNo(fs, n, i)) && ValidBlock(BlockNo(fs, m, j)) && BlockNo(fs, m, j) == BlockNo(fs, n, i) + 1
    requires SameSlots(fs, fs', {})
    requires Block(fs'.data, BlockNo(fs, m, j)) == Patch(Block(fs.data, BlockNo(fs, m, j)), 0, Spilled(at, bytes))
    requires forall c :: ValidBlock(c) && c != BlockNo(fs, n, i) && c != BlockNo(fs, m, j) ==>
               Block(fs'.data, c) == Block(fs.data, c)
    ensures var p := j * BLOCK_SIZE;
            ByteOf(fs', m, k) == if p <= k < p + at then Spilled(at, bytes)[k - p] else ByteOf(fs, m, k)
  {
    hide Slot, Exclusive, Block, Spilled;
    var r := k / BLOCK_SIZE;
    RangeInBlock(k, j, 0, at);
    assert Slot(fs', m, DataSlot(r)) == Slot(fs, m, DataSlot(r));
    OtherBlocks(fs, n, i, m, j, r);
  }

  /** Another block of file m is neither that of file n nor block j of m. */
  lemma OtherBlocks(fs: FS, n: int, i: nat, m: int, j: nat, r: nat)
    requires Exclusive(fs, {}) && Live(fs, n) && Live(fs, m) && n != m && BlockNo(fs, n, i) != NONE && BlockNo(fs, m, j) != NONE
    ensures BlockNo(fs, m, r) != NONE ==>
              BlockNo(fs, m, r) != BlockNo(fs, n, i) && (r != j ==> BlockNo(fs, m, r) != BlockNo(fs, m, j))
  {
    assert Owns(fs, n, DataSlot(i)) && Owns(fs, m, DataSlot(j));
    if BlockNo(fs, m, r) != NONE { assert Owns(fs, m, DataSlot(r)); }
  }

  // ---------------------------------------------------------------- the next block is an index block

  /** If the next block is the index block of file m, the first entries become what spilled. */
  lemma SpillRenumbers(fs: FS, b: int, m: int, at: nat, bytes: seq<Byte>)
    requires ValidInum(m) && !fs.inodes[m].isDir && fs.inodes[m].indirect == b + 1
    requires ValidBlock(b) && ValidBlock(b + 1) && 0 < at < BLOCK_SIZE == |bytes|
    ensures var fs' := PutBytes(fs, b * BLOCK_SIZE + at, bytes);
            && (forall e :: 0 <= e < PTRS ==>
                  Slot(fs', m, INDEX_SLOT + 1 + e) == IntAt(Patch(Block(fs.data, b + 1), 0, Spilled(at, bytes)), 4 * e))
            && (at >= 4 ==> Slot(fs', m, INDEX_SLOT + 1) == IntAt(Spilled(at, bytes), 0))
            && (forall s :: s <= INDEX_SLOT ==> Slot(fs', m, s) == Slot(fs, m, s))
  {
    hide Patch, Block, IntAt;
    CopySpills(fs.data, b, at, bytes);
    StartOfPatch(Block(fs.data, b + 1), Spilled(at, bytes));
  }

  lemma StartOfPatch(c: seq<Byte>, s: seq<Byte>)
    requires 4 <= |c|
    ensures 4 <= |s| <= |c| ==> IntAt(Patch(c, 0, s), 0) == IntAt(s, 0)
  {
  }

  // ---------------------------------------------------------------- the next block is the file's own

  /** The block behind block i of file n is its block i + 1. */
  ghost predicate Adjacent(fs: FS, n: int, i: nat) {
    BlockNo(fs, n, i) != NONE && BlockNo(fs, n, i + 1) == BlockNo(fs, n, i) + 1
  }

  lemma AdjacentIsTwoWrites(fs: FS, n: int, i: nat, at: nat, bytes: seq<Byte>)
    requires Exclusive(fs, {}) && AllCovered(fs) && Live(fs, n) && Adjacent(fs, n, i) && 0 < at < BLOCK_SIZE == |bytes|
    requires i * BLOCK_SIZE + at <= fs.inodes[n].size
    ensures ValidBlock(BlockNo(fs, n, i)) && ValidBlock(BlockNo(fs, n, i) + 1)
    ensures var mid := Written(fs, n, i, at, Fitting(at, bytes));
            && BlockNo(fs, n, i) != NONE && BlockNo(mid, n, i + 1) == BlockNo(fs, n, i + 1) && ValidBlock(BlockNo(mid, n, i + 1))
            && Written(fs, n, i, at, bytes) == Written(mid, n, i + 1, 0, Spilled(at, bytes))
  {
    hide Slot, Exclusive, AllCovered, Patch;
    MappedIsValid(fs, n, i);
    MappedIsValid(fs, n, i + 1);
    WrittenSlots(fs, n, i, at, Fitting(at, bytes));
    var b := BlockNo(fs, n, i);
    var mid := Written(fs, n, i, at, Fitting(at, bytes));
    assert Slot(mid, n, DataSlot(i + 1)) == Slot(fs, n, DataSlot(i + 1));
    TwoCopies(fs.data, b, at, bytes);
    assert Written(fs, n, i, at, bytes).inodes == Written(mid, n, i + 1, 0, Spilled(at, bytes)).inodes;
  }

  /** Then the copy that leaves its block is a splice all the same, and shows in no other file. */
  lemma AdjacentSplices(fs: FS, n: int, i: nat, at: nat, bytes: seq<Byte>)
    requires Exclusive(fs, {}) && AllCovered(fs) && Live(fs, n) && Adjacent(fs, n, i) && 0 < at < BLOCK_SIZE == |bytes|
    requires i * BLOCK_SIZE + at <= fs.inodes[n].size
    ensures ValidBlock(BlockNo(fs, n, i)) && ValidBlock(BlockNo(fs, n, i) + 1)
    ensures var fs' := Written(fs, n, i, at, bytes);
            && Exclusive(fs', {}) && AllCovered(fs') && SameSlots(fs, fs', {}) && OthersSame(fs, fs', {n})
            && Content(fs', n) == Splice(Content(fs, n), i * BLOCK_SIZE + at, bytes)
  {
    hide Slot, Exclusive, AllCovered, Patch, Content, Splice, Written, OthersSame, SameSlots, BlockNo, Adjacent, Fitting, Spilled;
    AdjacentIsTwoWrites(fs, n, i, at, bytes);
    WrittenSplices(fs, n, i, at, Fitting(at, bytes));
    var mid := Written(fs, n, i, at, Fitting(at, bytes));
    KeptByWrite(fs, n, i, at, Fitting(at, bytes));
    WrittenSplices(mid, n, i + 1, 0, Spilled(at, bytes));
    SpliceTwice(Content(fs, n), i * BLOCK_SIZE + at, Fitting(at, bytes), Spilled(at, bytes));
    OthersTwice(fs, mid, Written(fs, n, i, at, bytes), n);
    SlotsTwice(fs, mid, Written(fs, n, i, at, bytes));
  }

  lemma OthersTwice(fs: FS, mid: FS, fs': FS, n: int)
    requires OthersSame(fs, mid, {n}) && OthersSame(mid, fs', {n}) && mid.inodeTaken == fs.inodeTaken
    ensures OthersSame(fs, fs', {n})
  {
    hide Content;
  }

  lemma SlotsTwice(fs: FS, mid: FS, fs': FS)
    requires SameSlots(fs, mid, {}) && SameSlots(mid, fs', {}) && mid.inodeTaken == fs.inodeTaken
    ensures SameSlots(fs, fs', {})
  {
    hide Slot;
    forall m, r | ValidInum(m) && fs.inodeTaken[m] ensures Slot(fs', m, r) == Slot(fs, m, r) {
      assert Slot(mid, m, r) == Slot(fs, m, r);
    }
  }

  lemma KeptByWrite(fs: FS, n: int, i: nat, at: nat, bytes: seq<Byte>)
    requires ValidInum(n) && ValidBlock(BlockNo(fs, n, i)) && at + |bytes| <= BLOCK_SIZE
    ensures var fs' := Written(fs, n, i, at, bytes);
            fs'.inodeTaken == fs.inodeTaken && fs'.inodes[n].size >= i * BLOCK_SIZE + at + |bytes|
  {
    hide Slot, Patch;
  }

  /** The situation of a one-block transfer through h at an offset that is not aligned. */
  ghost predicate Astride(fs: FS, h: int) {
    && WF(fs) && Usable(fs, h) && fs.handles[h].offset % BLOCK_SIZE > 0
    && var f := fs.handles[h];
       ValidBlock(BlockNo(fs, f.inum, f.offset / BLOCK_SIZE)) && ValidBlock(BlockNo(fs, f.inum, f.offset / BLOCK_SIZE) + 1)
  }

  /** The state that such a write leaves. */
  ghost function WrittenAstride(fs: FS, h: int, buf: seq<Byte>): FS
    requires Astride(fs, h) && |buf| == BLOCK_SIZE
  {
    Copied(fs, h, fs.handles[h].offset / BLOCK_SIZE, buf)
  }

  lemma AstrideGoesWell(fs: FS, h: int, buf: seq<Byte>)
    requires Astride(fs, h) && |buf| == BLOCK_SIZE && Adjacent(fs, fs.handles[h].inum, fs.handles[h].offset / BLOCK_SIZE)
    ensures var fs' := WrittenAstride(fs, h, buf);
            Progress(fs, fs', h, buf, BLOCK_SIZE) && SameSlots(fs, fs', {})
  {
    hide Slot, Exclusive, AllCovered, DirOk, CountOk, Content, Splice, Grows;
    var n, o := fs.handles[h].inum, fs.handles[h].offset;
    var i, at := o / BLOCK_SIZE, o % BLOCK_SIZE;
    assert |Content(fs, n)| == fs.inodes[n].size;
    AdjacentSplices(fs, n, i, at, buf);
    var w, fs' := Written(fs, n, i, at, buf), WrittenAstride(fs, h, buf);
    HandlesDoNotShow(w, fs');
    GrowsRefl(fs, n);
    CopyGrows(fs, fs, fs', n);
    assert buf[..BLOCK_SIZE] == buf;
  }

  lemma GrowsRefl(fs: FS, n: int)
    ensures Grows(fs, fs, n)
  {
    hide Slot;
  }

  // ---------------------------------------------------------------- and otherwise

  /** Block i + 1 of the file is another one: it does not get the bytes that belong there. */
  lemma SpillMisses(fs: FS, h: int, buf: seq<Byte>)
    requires Astride(fs, h) && |buf| == BLOCK_SIZE
    requires var (n, i, at) := (fs.handles[h].inum, fs.handles[h].offset / BLOCK_SIZE, fs.handles[h].offset % BLOCK_SIZE);
             var c := BlockNo(fs, n, i + 1);
             c != NONE && c != BlockNo(fs, n, i) + 1 && ValidBlock(c) && Block(fs.data, c)[0] != buf[BLOCK_SIZE - at]
    ensures !Progress(fs, WrittenAstride(fs, h, buf), h, buf, BLOCK_SIZE)
  {
    hide Slot, Exclusive, AllCovered, WF, OthersSame, Block, Content, WrittenAstride, Splice;
    var n, o := fs.handles[h].inum, fs.handles[h].offset;
    var i, at := o / BLOCK_SIZE, o % BLOCK_SIZE;
    var c, fs', p := BlockNo(fs, n, i + 1), WrittenAstride(fs, h, buf), (i + 1) * BLOCK_SIZE;
    AstrideFile(fs, h);
    DistinctBlocks(fs, n, i, i + 1);
    AstrideSize(fs, h, buf);
    CopySpills(fs.data, BlockNo(fs, n, i), at, buf);
    if Progress(fs, fs', h, buf, BLOCK_SIZE) {
      GrownSlot(fs, fs', n, DataSlot(i + 1));
      FirstByteOf(fs', n, i + 1);
      SplicedByte(Content(fs, n), o, buf, p);
      assert false;
    }
  }

  lemma GrownSlot(fs: FS, fs': FS, n: int, s: int)
    requires Grows(fs, fs', n) && Live(fs, n) && Slot(fs, n, s) != NONE
    ensures Slot(fs', n, s) == Slot(fs, n, s)
  {
    hide Slot;
  }

  lemma SplicedByte(c: seq<Byte>, o: nat, buf: seq<Byte>, p: nat)
    requires o <= |c| && |buf| == BLOCK_SIZE && o <= p < o + BLOCK_SIZE
    ensures Splice(c, o, buf[..BLOCK_SIZE])[p] == buf[p - o]
  {
  }

  lemma AstrideFile(fs: FS, h: int)
    requires Astride(fs, h)
    ensures var f := fs.handles[h];
            && IsFile(fs, f.inum) && Live(fs, f.inum) && Exclusive(fs, {}) && AllCovered(fs) && f.offset <= |Content(fs, f.inum)|
            && fs.inodes[f.inum].indirect != BlockNo(fs, f.inum, f.offset / BLOCK_SIZE)
  {
    var f := fs.handles[h];
    assert |Content(fs, f.inum)| == fs.inodes[f.inum].size;
    var ib := fs.inodes[f.inum].indirect;
    assert Owns(fs, f.inum, DataSlot(f.offset / BLOCK_SIZE));
    if ib != NONE { assert Slot(fs, f.inum, INDEX_SLOT) == ib && Owns(fs, f.inum, INDEX_SLOT); }
  }

  lemma AstrideSize(fs: FS, h: int, buf: seq<Byte>)
    requires Astride(fs, h) && |buf| == BLOCK_SIZE
    ensures var (n, o) := (fs.handles[h].inum, fs.handles[h].offset);
            var fs' := WrittenAstride(fs, h, buf);
            && fs'.data == Patch(fs.data, BlockNo(fs, n, o / BLOCK_SIZE) * BLOCK_SIZE + o % BLOCK_SIZE, buf)
            && fs'.inodes[n].size >= o + BLOCK_SIZE && fs'.inodes[n].indirect == fs.inodes[n].indirect
            && fs'.inodes[n].direct == fs.inodes[n].direct && fs'.inodes[n].isDir == fs.inodes[n].isDir
  {
    hide Slot, Patch;
  }

  lemma FirstByteOf(fs: FS, n: int, i: nat)
    requires ValidInum(n) && ValidBlock(BlockNo(fs, n, i)) && i * BLOCK_SIZE < fs.inodes[n].size
    ensures Content(fs, n)[i * BLOCK_SIZE] == Block(fs.data, BlockNo(fs, n, i))[0]
  {
    hide Slot, Block;
    assert Content(fs, n)[i * BLOCK_SIZE] == ByteOf(fs, n, i * BLOCK_SIZE);
  }

  /** Block i + 1 is not mapped, and not by what spilled either: the file now reaches past its blocks. */
  lemma SpillUncovers(fs: FS, h: int, buf: seq<Byte>)
    requires Astride(fs, h) && |buf| == BLOCK_SIZE
    requires BlockNo(fs, fs.handles[h].inum, fs.handles[h].offset / BLOCK_SIZE + 1) == NONE
    requires var (n, i) := (fs.handles[h].inum, fs.handles[h].offset / BLOCK_SIZE);
             fs.inodes[n].indirect != BlockNo(fs, n, i) + 1 || buf == seq(BLOCK_SIZE, _ => 255)
    ensures !AllCovered(WrittenAstride(fs, h, buf))
  {
    var n, i := fs.handles[h].inum, fs.handles[h].offset / BLOCK_SIZE;
    var fs' := WrittenAstride(fs, h, buf);
    StaysUnmapped(fs, h, buf);
    hide Slot, Patch;
    assert IsFile(fs', n) && !Covered(fs', n);
  }

  lemma StaysUnmapped(fs: FS, h: int, buf: seq<Byte>)
    requires Astride(fs, h) && |buf| == BLOCK_SIZE
    requires BlockNo(fs, fs.handles[h].inum, fs.handles[h].offset / BLOCK_SIZE + 1) == NONE
    requires var (n, i) := (fs.handles[h].inum, fs.handles[h].offset / BLOCK_SIZE);
             fs.inodes[n].indirect != BlockNo(fs, n, i) + 1 || buf == seq(BLOCK_SIZE, _ => 255)
    ensures BlockNo(WrittenAstride(fs, h, buf), fs.handles[h].inum, fs.handles[h].offset / BLOCK_SIZE + 1) == NONE
  {
    hide Exclusive, AllCovered, WF, Patch, Block, IntAt, WrittenAstride;
    var n, o := fs.handles[h].inum, fs.handles[h].offset;
    var i, at := o / BLOCK_SIZE, o % BLOCK_SIZE;
    AstrideFile(fs, h);
    AstrideSize(fs, h, buf);
    CopySpills(fs.data, BlockNo(fs, n, i), at, buf);
    var ib, s := fs.inodes[n].indirect, DataSlot(i + 1);
    if INDEX_SLOT < s < N_SLOTS && ValidBlock(ib) && ib == BlockNo(fs, n, i) + 1 {
      NoneStaysNone(Block(fs.data, ib), 4 * (s - INDEX_SLOT - 1), Spilled(at, buf));
    }
  }

  lemma NoneStaysNone(c: seq<Byte>, a: nat, s: seq<Byte>)
    requires a + 4 <= |c| && |s| <= |c| && IntAt(c, a) == NONE && forall k :: 0 <= k < |s| ==> s[k] == 255
    ensures IntAt(Patch(c, 0, s), a) == NONE
  {
    IntAtInjective(c, a, EncodeInt(NONE), 0);
    assert forall k :: 0 <= k < 4 ==> c[a + k] == c[a..a + 4][k] == EncodeInt(NONE)[k] == 255;
  }

  /** A write of exactly one block at an offset that is not aligned does what a write should, whatever the bytes, if and only if
      the block behind the one that it starts in is the next block of the same file. */
  lemma OneBlockWriteIff(fs: FS, h: int)
    requires Astride(fs, h)
    ensures (forall buf :: |buf| == BLOCK_SIZE ==>
               Progress(fs, WrittenAstride(fs, h, buf), h, buf, BLOCK_SIZE) && WF(WrittenAstride(fs, h, buf)))
            <==> Adjacent(fs, fs.handles[h].inum, fs.handles[h].offset / BLOCK_SIZE)
  {
    hide Progress, WrittenAstride, WF;
    var (n, i) := (fs.handles[h].inum, fs.handles[h].offset / BLOCK_SIZE);
    if Adjacent(fs, n, i) {
      forall buf | |buf| == BLOCK_SIZE
        ensures Progress(fs, WrittenAstride(fs, h, buf), h, buf, BLOCK_SIZE) && WF(WrittenAstride(fs, h, buf))
      {
        AstrideGoesWell(fs, h, buf);
        ProgressKeepsWF(fs, WrittenAstride(fs, h, buf), h, buf, BLOCK_SIZE);
      }
    } else {
      var buf := FailsAstride(fs, h);
      assert |buf| == BLOCK_SIZE && !Progress(fs, WrittenAstride(fs, h, buf), h, buf, BLOCK_SIZE);
    }
  }

  /** Bytes for which it fails. */
  lemma FailsAstride(fs: FS, h: int) returns (buf: seq<Byte>)
    requires Astride(fs, h) && !Adjacent(fs, fs.handles[h].inum, fs.handles[h].offset / BLOCK_SIZE)
    ensures |buf| == BLOCK_SIZE && !Progress(fs, WrittenAstride(fs, h, buf), h, buf, BLOCK_SIZE)
  {
    hide Slot, WrittenAstride;
    var (n, i) := (fs.handles[h].inum, fs.handles[h].offset / BLOCK_SIZE);
    var c := BlockNo(fs, n, i + 1);
    if c == NONE {
      buf := seq(BLOCK_SIZE, _ => 255);
      SpillUncovers(fs, h, buf);
    } else {
      MappedIsValid(fs, n, i + 1);
      var x: Byte := if Block(fs.data, c)[0] == 0 then 1 else 0;
      buf := seq(BLOCK_SIZE, _ => x);
      SpillMisses(fs, h, buf);
    }
  }

  // ---------------------------------------------------------------- reads

  /** What the block behind holds at its start is what block i + 1 of the file holds there. */
  ghost predicate SameBehind(fs: FS, n: int, i: nat, at: nat) {
    var (b, c) := (BlockNo(fs, n, i), BlockNo(fs, n, i + 1));
    at <= BLOCK_SIZE && ValidBlock(b + 1) && ValidBlock(c) && Block(fs.data, b + 1)[..at] == Block(fs.data, c)[..at]
  }

  /** The bytes that a one-block read at an offset that is not aligned takes out of fs_data. */
  function ReadAstride(d: seq<Byte>, b: int, at: nat): (r: seq<Byte>)
    requires |d| == DISK_SIZE && ValidBlock(b) && ValidBlock(b + 1) && 0 < at < BLOCK_SIZE
    ensures |r| == BLOCK_SIZE
  {
    d[b * BLOCK_SIZE + at..b * BLOCK_SIZE + at + BLOCK_SIZE]
  }

  lemma AstrideIsTwoParts(d: seq<Byte>, b: int, at: nat)
    requires |d| == DISK_SIZE && ValidBlock(b) && ValidBlock(b + 1) && 0 < at < BLOCK_SIZE
    ensures ReadAstride(d, b, at) == Block(d, b)[at..] + Block(d, b + 1)[..at]
  {
    var a := b * BLOCK_SIZE;
    var m := a + BLOCK_SIZE;
    assert Block(d, b)[at..] == d[a + at..m];
    assert Block(d, b + 1)[..at] == d[m..m + at];
    assert d[a + at..m + at] == d[a + at..m] + d[m..m + at];
  }

  /** Such a read delivers the bytes of the file if and only if the block behind starts as the next block of the file does. */
  lemma OneBlockReadIff(fs: FS, h: int)
    requires Astride(fs, h) && fs.handles[h].offset + BLOCK_SIZE <= fs.inodes[fs.handles[h].inum].size
    ensures var (n, o) := (fs.handles[h].inum, fs.handles[h].offset);
            ReadAstride(fs.data, BlockNo(fs, n, o / BLOCK_SIZE), o % BLOCK_SIZE) == Content(fs, n)[o..o + BLOCK_SIZE]
            <==> SameBehind(fs, n, o / BLOCK_SIZE, o % BLOCK_SIZE)
  {
    hide Slot, Block, Content, WF, Covered, ReadAstride;
    var (n, o) := (fs.handles[h].inum, fs.handles[h].offset);
    var (i, at) := (o / BLOCK_SIZE, o % BLOCK_SIZE);
    NextIsMapped(fs, h);
    AstrideIsTwoParts(fs.data, BlockNo(fs, n, i), at);
    ContentAcross(fs, n, i, at);
    var (b, c) := (BlockNo(fs, n, i), BlockNo(fs, n, i + 1));
    var (x, y, z) := (Block(fs.data, b)[at..], Block(fs.data, b + 1)[..at], Block(fs.data, c)[..at]);
    assert (x + y)[|x|..] == y && (x + z)[|x|..] == z;
  }

  lemma NextIsMapped(fs: FS, h: int)
    requires Astride(fs, h) && fs.handles[h].offset + BLOCK_SIZE <= fs.inodes[fs.handles[h].inum].size
    ensures ValidBlock(BlockNo(fs, fs.handles[h].inum, fs.handles[h].offset / BLOCK_SIZE + 1))
  {
    hide Slot, Exclusive, DirOk, CountOk;
    var (n, i) := (fs.handles[h].inum, fs.handles[h].offset / BLOCK_SIZE);
    assert Covered(fs, n) && BlockNo(fs, n, i + 1) != NONE;
    MappedIsValid(fs, n, i + 1);
  }

  /** One block of content at an offset that is not aligned lies in two blocks. */
  lemma ContentAcross(fs: FS, n: int, i: nat, at: nat)
    requires ValidInum(n) && 0 < at < BLOCK_SIZE && i * BLOCK_SIZE + at + BLOCK_SIZE <= fs.inodes[n].size
    requires ValidBlock(BlockNo(fs, n, i)) && ValidBlock(BlockNo(fs, n, i + 1))
    ensures var o := i * BLOCK_SIZE + at;
            Content(fs, n)[o..o + BLOCK_SIZE] ==
              Block(fs.data, BlockNo(fs, n, i))[at..] + Block(fs.data, BlockNo(fs, n, i + 1))[..at]
  {
    hide Slot, Block;
    var o := i * BLOCK_SIZE + at;
    var c := Content(fs, n)[o..o + BLOCK_SIZE];
    var d := Block(fs.data, BlockNo(fs, n, i))[at..] + Block(fs.data, BlockNo(fs, n, i + 1))[..at];
    forall k | 0 <= k < BLOCK_SIZE ensures c[k] == d[k] {
      assert c[k] == ByteOf(fs, n, o + k);
      assert (o + k) / BLOCK_SIZE == if at + k < BLOCK_SIZE then i else i + 1;
    }
  }
}
