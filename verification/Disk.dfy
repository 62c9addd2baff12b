/**
  The state of the file system as a value: the static tables of state.c, with every data block,
  index block and directory entry inside the one flat array fs_data.

  A slot is a place that can hold a block number: for each i-node, slots 0..9 are the direct
  blocks, slot 10 the index block, and slots 11..266 the entries of the index block.
 */
module Disk {
  import opened Config
  import opened Bytes

  datatype InodeRec = InodeRec(isDir: bool, size: nat, direct: seq<Int32>, indirect: Int32)

  type Inode = i: InodeRec | |i.direct| == MAX_DIRECT_BLOCKS
    witness InodeRec(false, 0, [-1, -1, -1, -1, -1, -1, -1, -1, -1, -1], -1)

  /** A file that was just created. */
  const EMPTY_FILE: Inode := InodeRec(false, 0, [-1, -1, -1, -1, -1, -1, -1, -1, -1, -1], -1)

  datatype OpenFile = OpenFile(inum: int, offset: nat)

  datatype FSRec = FSRec(
    inodeTaken: seq<bool>,
    inodes: seq<Inode>,
    blockTaken: seq<bool>,
    data: seq<Byte>,
    handleTaken: seq<bool>,
    handles: seq<OpenFile>,
    openCount: int)

  ghost predicate Shape(f: FSRec) {
    && |f.inodeTaken| == |f.inodes| == INODE_TABLE_SIZE
    && |f.blockTaken| == DATA_BLOCKS
    && |f.data| == DISK_SIZE
    && |f.handleTaken| == |f.handles| == MAX_OPEN_FILES
  }

  type FS = f: FSRec | Shape(f)
    ghost witness FSRec(seq(50, _ => false), seq(50, _ => EMPTY_FILE), seq(1024, _ => false),
                        seq(1024 * 1024, _ => 0), seq(20, _ => false), seq(20, _ => OpenFile(0, 0)), 0)

  predicate ValidInum(n: int) { 0 <= n < INODE_TABLE_SIZE }

  predicate ValidBlock(b: int) { 0 <= b < DATA_BLOCKS }

  predicate ValidHandle(h: int) { 0 <= h < MAX_OPEN_FILES }

  // ---------------------------------------------------------------- slots and ownership

  const INDEX_SLOT := MAX_DIRECT_BLOCKS
  const N_SLOTS := MAX_DIRECT_BLOCKS + 1 + PTRS

  /** The slot that holds the number of block i of a file. */
  function DataSlot(i: int): int {
    if i < MAX_DIRECT_BLOCKS then i else i + 1
  }

  /** The bytes of block c. */
  function Block(d: seq<Byte>, c: int): (r: seq<Byte>)
    requires |d| == DISK_SIZE && ValidBlock(c)
    ensures |r| == BLOCK_SIZE
  {
    d[c * BLOCK_SIZE..c * BLOCK_SIZE + BLOCK_SIZE]
  }

  /** The block number in slot s of i-node n, NONE when there is none. */
  ghost function Slot(fs: FS, n: int, s: int): (b: int) {
    if !ValidInum(n) || s < 0 then NONE
    else
      var ino := fs.inodes[n];
      if ino.isDir then (if s == 0 then ino.direct[0] else NONE)
      else if s < INDEX_SLOT then ino.direct[s]
      else if s == INDEX_SLOT then ino.indirect
      else if s < N_SLOTS && ValidBlock(ino.indirect) then IntAt(Block(fs.data, ino.indirect), 4 * (s - INDEX_SLOT - 1))
      else NONE
  }

  ghost predicate Owns(fs: FS, n: int, s: int) {
    ValidInum(n) && fs.inodeTaken[n] && Slot(fs, n, s) != NONE
  }

  /** Every block number held by a live i-node is in range, marked TAKEN, and held in one slot only.
      The slots in X are left out: their blocks are being freed. */
  ghost predicate Exclusive(fs: FS, X: set<(int, int)>) {
    && (forall n, s {:trigger Owns(fs, n, s)} :: Owns(fs, n, s) && (n, s) !in X ==>
          ValidBlock(Slot(fs, n, s)) && fs.blockTaken[Slot(fs, n, s)])
    && (forall n, s, m, r {:trigger Owns(fs, n, s), Owns(fs, m, r)} ::
          Owns(fs, n, s) && Owns(fs, m, r) && (n, s) !in X && (m, r) !in X && (n, s) != (m, r) ==>
          Slot(fs, n, s) != Slot(fs, m, r))
  }

  /** No live i-node holds block b. */
  ghost predicate Unowned(fs: FS, b: int, X: set<(int, int)>) {
    forall n, s {:trigger Owns(fs, n, s)} :: Owns(fs, n, s) && (n, s) !in X ==> Slot(fs, n, s) != b
  }

  /** Every block marked TAKEN is held by a live i-node: nothing is lost. */
  ghost predicate NoLeak(fs: FS) {
    forall b :: ValidBlock(b) && fs.blockTaken[b] ==> Held(fs, b)
  }

  ghost predicate Held(fs: FS, b: int) {
    exists n, s :: Owns(fs, n, s) && Slot(fs, n, s) == b
  }

  // ---------------------------------------------------------------- files as byte sequences

  predicate Live(fs: FS, n: int) {
    ValidInum(n) && fs.inodeTaken[n]
  }

  predicate IsFile(fs: FS, n: int) {
    ValidInum(n) && n != ROOT_DIR_INUM && fs.inodeTaken[n] && !fs.inodes[n].isDir
  }

  /** The number of block i of i-node n. */
  ghost function BlockNo(fs: FS, n: int, i: int): int {
    Slot(fs, n, DataSlot(i))
  }

  ghost function ByteOf(fs: FS, n: int, k: nat): Byte {
    var b := BlockNo(fs, n, k / BLOCK_SIZE);
    if ValidBlock(b) then Block(fs.data, b)[k % BLOCK_SIZE] else 0
  }

  /** The abstract view of a file: the bytes below its size. */
  ghost function Content(fs: FS, n: int): (c: seq<Byte>)
    ensures ValidInum(n) ==> |c| == fs.inodes[n].size
  {
    if ValidInum(n) then seq(fs.inodes[n].size, k requires 0 <= k => ByteOf(fs, n, k)) else []
  }

  /** Every block below the size of file n is mapped, and the size fits the block map. */
  ghost predicate Covered(fs: FS, n: int)
    requires ValidInum(n)
  {
    && fs.inodes[n].size <= MAX_FILE_SIZE
    && forall i {:trigger BlockNo(fs, n, i)} ::
         0 <= i && i * BLOCK_SIZE < fs.inodes[n].size ==> BlockNo(fs, n, i) != NONE
  }

  ghost predicate AllCovered(fs: FS) {
    forall n :: IsFile(fs, n) ==> Covered(fs, n)
  }

  // ---------------------------------------------------------------- state updates

  /** Mark block b TAKEN or FREE. */
  function MarkBlock(fs: FS, b: int, taken: bool): FS
    requires ValidBlock(b)
  {
    fs.(blockTaken := fs.blockTaken[b := taken])
  }

  function PutInode(fs: FS, n: int, ino: Inode): FS
    requires ValidInum(n)
  {
    fs.(inodes := fs.inodes[n := ino])
  }

  function PutBytes(fs: FS, a: nat, bytes: seq<Byte>): FS
    requires a + |bytes| <= DISK_SIZE
  {
    fs.(data := Patch(fs.data, a, bytes))
  }

  /** Store block number b in slot s of file n. */
  ghost function PutSlot(fs: FS, n: int, s: int, b: Int32): FS
    requires ValidInum(n) && 0 <= s < N_SLOTS
    requires s > INDEX_SLOT ==> ValidBlock(fs.inodes[n].indirect)
  {
    var ino := fs.inodes[n];
    if s < INDEX_SLOT then PutInode(fs, n, ino.(direct := ino.direct[s := b]))
    else if s == INDEX_SLOT then PutInode(fs, n, ino.(indirect := b))
    else PutBytes(fs, ino.indirect * BLOCK_SIZE + 4 * (s - INDEX_SLOT - 1), EncodeInt(b))
  }

  /** fs' is fs with b as the index block of file n and no entry in it; no other TAKEN block changed. */
  ghost predicate IndexInstalled(fs: FS, fs': FS, n: int, b: Int32)
    requires ValidInum(n) && ValidBlock(b)
  {
    && fs' == PutInode(fs, n, fs.inodes[n].(indirect := b)).(data := fs'.data)
    && (forall e :: 0 <= e < PTRS ==> IntAt(Block(fs'.data, b), 4 * e) == NONE)
    && (forall c :: ValidBlock(c) && c != b && fs.blockTaken[c] ==> Block(fs'.data, c) == Block(fs.data, c))
  }
}
