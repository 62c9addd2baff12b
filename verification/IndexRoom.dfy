/**
  The room that a new index block needs. The code fills it with BLOCK_SIZE - MAX_DIRECT_BLOCKS entries,
  far more than the PTRS that fit, so the fill runs over the three blocks that follow.
 */
module IndexRoom {
  import opened Config
  import opened Bytes
  import opened Disk
  import opened Ownership
  import opened FirstFit

  const INDEX_INIT_ENTRIES := BLOCK_SIZE - MAX_DIRECT_BLOCKS
  const INDEX_INIT_BYTES := 4 * INDEX_INIT_ENTRIES

  /** How many of the direct blocks from i on are not mapped. */
  function Missing(direct: seq<Int32>, i: nat): nat
    decreases |direct| - i
  {
    if i >= |direct| then 0
    else Missing(direct, i + 1) + if direct[i] == NONE then 1 else 0
  }

  /** fs_data after the fill of index block b. */
  function Filled(d: seq<Byte>, b: nat): seq<Byte>
    requires b * BLOCK_SIZE + INDEX_INIT_BYTES <= |d|
  {
    Patch(d, b * BLOCK_SIZE, seq(INDEX_INIT_BYTES, _ => 255))
  }

  /** How many bytes of block c the fill of index block b runs over: all of the next two blocks, and most of the third. */
  function RunOver(b: int, c: int): nat {
    if c == b + 1 || c == b + 2 then BLOCK_SIZE else if c == b + 3 then INDEX_INIT_BYTES - 3 * BLOCK_SIZE else 0
  }

  lemma FilledBlock(d: seq<Byte>, b: nat, c: int)
    requires |d| == DISK_SIZE && ValidBlock(b) && ValidBlock(c) && b + 3 < DATA_BLOCKS
    ensures c == b ==> Block(Filled(d, b), c) == seq(BLOCK_SIZE, _ => 255)
    ensures c != b ==> Block(Filled(d, b), c) == Patch(Block(d, c), 0, seq(RunOver(b, c), _ => 255))
  {
    var r := Block(Filled(d, b), c);
    if c == b {
      assert r == seq(BLOCK_SIZE, _ => 255);
    } else if c == b + 1 || c == b + 2 {
      assert r == Patch(Block(d, c), 0, seq(BLOCK_SIZE, _ => 255));
    } else if c == b + 3 {
      assert r == Patch(Block(d, c), 0, seq(RunOver(b, c), _ => 255));
    } else {
      assert r == Block(d, c);
    }
  }

  /** Block c holds 0xFF wherever the fill of index block b runs over it. */
  ghost predicate Blank(d: seq<Byte>, b: int, c: int)
    requires |d| == DISK_SIZE && ValidBlock(c)
  {
    forall k :: 0 <= k < RunOver(b, c) ==> Block(d, c)[k] == 255
  }

  /** No TAKEN block loses anything to the fill of index block b. */
  ghost predicate Harmless(fs: FS, b: int) {
    forall c :: b < c <= b + 3 && ValidBlock(c) && fs.blockTaken[c] ==> Blank(fs.data, b, c)
  }

  /** The three blocks after b exist, the fill of b harms none of them, and none is a direct block of file n. */
  ghost predicate RoomBehind(fs: FS, n: int, b: int)
    requires ValidInum(n)
  {
    && 0 <= b && b + 3 < DATA_BLOCKS && Harmless(fs, b)
    && forall j :: 0 <= j < MAX_DIRECT_BLOCKS && fs.inodes[n].direct[j] != NONE ==> !(b < fs.inodes[n].direct[j] <= b + 3)
  }

  /** If a write of blocks i..hi-1 of file n will need an index block, the block that first-fit will then
      pick for it (if any is left) can be filled as the code does without harm. */
  ghost predicate Room(fs: FS, n: int, i: nat, hi: int)
    requires ValidInum(n)
  {
    fs.inodes[n].indirect == NONE && hi > MAX_DIRECT_BLOCKS ==>
      var b := NthFree(fs.blockTaken, 0, Missing(fs.inodes[n].direct, i));
      b != NONE ==> RoomBehind(fs, n, b)
  }

  lemma {:induction false} MissingAbove(direct: seq<Int32>, j: nat, v: Int32, i: nat)
    requires j < i && j < |direct|
    ensures Missing(direct[j := v], i) == Missing(direct, i)
    decreases |direct| - i
  {
    if i < |direct| { MissingAbove(direct, j, v, i + 1); }
  }

  /** Mapping direct block i with the first FREE block leaves the room that the rest of the write needs. */
  lemma RoomAfterDirect(fs: FS, fs': FS, n: int, i: nat, hi: int, b: int)
    requires ValidInum(n) && i < MAX_DIRECT_BLOCKS && fs.inodes[n].direct[i] == NONE
    requires IsFirstFree(fs.blockTaken, b) && fs' == PutSlot(MarkBlock(fs, b, true), n, i, b)
    requires Room(fs, n, i, hi)
    ensures Room(fs', n, i + 1, hi)
  {
    hide Blank;
    var k := Missing(fs.inodes[n].direct, i);
    MissingAbove(fs.inodes[n].direct, i, b, i + 1);
    AllocShifts(fs.blockTaken, b, k, 0);
    NthIsLater(fs.blockTaken, b, k, 0);
  }

  /** The index block that is allocated once the direct blocks are behind has room. */
  lemma RoomAtIndex(fs: FS, n: int, i: nat, hi: int, b: int)
    requires ValidInum(n) && MAX_DIRECT_BLOCKS <= i < hi && fs.inodes[n].indirect == NONE
    requires Room(fs, n, i, hi) && IsFirstFree(fs.blockTaken, b)
    ensures RoomBehind(fs, n, b)
  {
    hide RoomBehind;
    FirstIsZeroth(fs.blockTaken, b, 0);
  }

  /** A copy into a direct block of the file leaves the room as it is. */
  lemma RoomAfterCopy(fs: FS, fs': FS, n: int, i: nat, hi: int, j: nat)
    requires ValidInum(n) && j < MAX_DIRECT_BLOCKS && ValidBlock(fs.inodes[n].direct[j]) && Room(fs, n, i, hi)
    requires fs'.blockTaken == fs.blockTaken && fs'.inodes[n].direct == fs.inodes[n].direct
    requires fs'.inodes[n].indirect == fs.inodes[n].indirect
    requires forall c :: ValidBlock(c) && c != fs.inodes[n].direct[j] ==> Block(fs'.data, c) == Block(fs.data, c)
    ensures Room(fs', n, i, hi)
  {
    hide Block;
  }

  lemma FillKeepsBlockIff(d: seq<Byte>, b: nat, c: int)
    requires |d| == DISK_SIZE && ValidBlock(b) && ValidBlock(c) && b + 3 < DATA_BLOCKS && c != b
    ensures Block(Filled(d, b), c) == Block(d, c) <==> Blank(d, b, c)
  {
    FilledBlock(d, b, c);
    var s := seq(RunOver(b, c), _ => 255);
    var p := Patch(Block(d, c), 0, s);
    if p == Block(d, c) {
      forall k | 0 <= k < RunOver(b, c) ensures Block(d, c)[k] == 255 { assert p[k] == s[k]; }
    }
  }

  /** The fill of an index block changes no other TAKEN block exactly when each of the three blocks behind it that is TAKEN
      already holds 0xFF on its part of the overrun. */
  lemma FillDamages(fs: FS, b: int)
    requires ValidBlock(b) && b + 3 < DATA_BLOCKS
    ensures (forall c :: ValidBlock(c) && c != b && fs.blockTaken[c] ==> Block(Filled(fs.data, b), c) == Block(fs.data, c))
            <==> Harmless(fs, b)
  {
    hide Blank, Block;
    forall c | ValidBlock(c) && c != b
      ensures Block(Filled(fs.data, b), c) == Block(fs.data, c) <==> Blank(fs.data, b, c)
      ensures c < b || c > b + 3 ==> Blank(fs.data, b, c)
    {
      FillKeepsBlockIff(fs.data, b, c);
      NothingRunOver(fs.data, b, c);
    }
  }

  lemma NothingRunOver(d: seq<Byte>, b: int, c: int)
    requires |d| == DISK_SIZE && ValidBlock(c)
    ensures c <= b || c > b + 3 ==> Blank(d, b, c)
  {
  }

  /** So the fill makes a proper empty index block under the same condition, and only then. */
  lemma FillInstallsIff(fs: FS, fs': FS, n: int, b: int)
    requires ValidInum(n) && ValidBlock(b) && b + 3 < DATA_BLOCKS
    requires fs' == PutInode(fs, n, fs.inodes[n].(indirect := b)).(data := Filled(fs.data, b))
    ensures IndexInstalled(fs, fs', n, b) <==> Harmless(fs, b)
  {
    FillDamages(fs, b);
    FilledBlock(fs.data, b, b);
    hide Filled, Harmless;
  }
}
