/**
  The truncation in tfs_open, with the rounding of the code: it counts size / BLOCK_SIZE blocks, plus one
  unless that count is a multiple of BLOCK_SIZE; frees that many direct blocks; and frees the index block,
  but none of the blocks that it names, when the count reaches MAX_DIRECT_BLOCKS.
 */
module Truncation {
  import opened Config
  import opened Bytes
  import opened Disk
  import opened Directory
  import opened Ownership
  import opened Files
  import opened Invariant

  function WrittenBlocks(size: nat): nat {
    var w := size / BLOCK_SIZE;
    if w % BLOCK_SIZE != 0 then w + 1 else w
  }

  function LoopLimit(size: nat): (k: nat)
    ensures k <= MAX_DIRECT_BLOCKS
  {
    if WrittenBlocks(size) <= MAX_DIRECT_BLOCKS then WrittenBlocks(size) else MAX_DIRECT_BLOCKS
  }

  /** The number of leading direct blocks that are mapped, at most k. */
  function Leading(direct: seq<Int32>, k: nat): (j: nat)
    requires k <= |direct|
    ensures j <= k && (forall i :: 0 <= i < j ==> direct[i] != NONE) && (j < k ==> direct[j] == NONE)
  {
    if k == 0 then 0
    else
      var j := Leading(direct, k - 1);
      if j == k - 1 && direct[k - 1] != NONE then k else j
  }

  /** Every block that the truncation tries to free is mapped. */
  predicate CanTruncate(ino: Inode) {
    ino.size == 0 ||
    (Leading(ino.direct, LoopLimit(ino.size)) == LoopLimit(ino.size)
     && (WrittenBlocks(ino.size) >= MAX_DIRECT_BLOCKS ==> ino.indirect != NONE))
  }

  /** File n has lost its first k direct blocks, and its index block when idx; the size is 0 when all is done. */
  ghost predicate TruncatedTo(fs0: FS, fs: FS, n: int, k: nat, idx: bool, all: bool)
    requires ValidInum(n) && k <= MAX_DIRECT_BLOCKS
  {
    var ino0, ino := fs0.inodes[n], fs.inodes[n];
    && fs == fs0.(inodes := fs0.inodes[n := ino], blockTaken := fs.blockTaken)
    && ino.isDir == ino0.isDir
    && ino.size == (if all then 0 else ino0.size)
    && ino.indirect == (if idx then NONE else ino0.indirect)
    && (forall j :: 0 <= j < MAX_DIRECT_BLOCKS ==> ino.direct[j] == if j < k then NONE else ino0.direct[j])
    && (forall b :: ValidBlock(b) ==>
          (fs.blockTaken[b] <==> fs0.blockTaken[b] && b !in ino0.direct[..k] && !(idx && b == ino0.indirect)))
  }

  /** The slots whose block numbers must not be relied on once the block of slot s is FREE. */
  function Window(n: int, s: int): set<(int, int)> {
    if s == INDEX_SLOT then set r | INDEX_SLOT <= r < N_SLOTS :: (n, r) else {(n, s)}
  }

  /** Marking the block of one slot FREE disturbs no other slot. */
  lemma FreeOwned(fs: FS, n: int, s: int, X: set<(int, int)>)
    requires Exclusive(fs, X) && Owns(fs, n, s) && (n, s) !in X && ValidBlock(Slot(fs, n, s))
    ensures Exclusive(MarkBlock(fs, Slot(fs, n, s), false), X + Window(n, s))
  {
    var fs' := MarkBlock(fs, Slot(fs, n, s), false);
    SameMaps(fs, fs');
    hide Slot;
    assert (n, s) in Window(n, s);
  }

  /** Emptying the slot ends the disturbance. */
  lemma ClearSlot(fs: FS, fs': FS, n: int, s: int, X: set<(int, int)>)
    requires Exclusive(fs, X + Window(n, s)) && ValidInum(n) && 0 <= s <= INDEX_SLOT && !fs.inodes[n].isDir
    requires var ino := fs.inodes[n];
             fs' == fs.(inodes := fs.inodes[n := if s == INDEX_SLOT then ino.(indirect := NONE)
                                                 else ino.(direct := ino.direct[s := NONE])])
    ensures forall r :: Slot(fs', n, r) == if (n, r) in Window(n, s) then NONE else Slot(fs, n, r)
    ensures forall m, r :: m != n ==> Slot(fs', m, r) == Slot(fs, m, r)
    ensures Exclusive(fs', X)
  {
    forall m, r | m != n ensures Slot(fs', m, r) == Slot(fs, m, r) {
      assert ValidInum(m) ==> fs'.inodes[m] == fs.inodes[m];
    }
    hide Slot;
    SlotsEmptied(fs, fs', n, s);
    assert forall m, r :: Owns(fs', m, r) ==> Owns(fs, m, r) && (m, r) !in Window(n, s);
  }

  lemma SlotsEmptied(fs: FS, fs': FS, n: int, s: int)
    requires ValidInum(n) && 0 <= s <= INDEX_SLOT && !fs.inodes[n].isDir
    requires var ino := fs.inodes[n];
             fs' == fs.(inodes := fs.inodes[n := if s == INDEX_SLOT then ino.(indirect := NONE)
                                                 else ino.(direct := ino.direct[s := NONE])])
    ensures forall r :: Slot(fs', n, r) == if (n, r) in Window(n, s) then NONE else Slot(fs, n, r)
  {
  }

  /** One turn of the loop: a mapped direct block, or the index block, is freed. */
  lemma TruncateStep(fs0: FS, fs: FS, fs': FS, n: int, k: nat, s: int)
    requires WF(fs0) && IsFile(fs0, n) && Exclusive(fs, {})
    requires k <= s && if s < INDEX_SLOT then k == s else s == INDEX_SLOT && k == MAX_DIRECT_BLOCKS
    requires TruncatedTo(fs0, fs, n, k, false, false) && Slot(fs, n, s) != NONE && ValidBlock(Slot(fs, n, s))
    requires var ino := fs.inodes[n];
             fs' == MarkBlock(fs, Slot(fs, n, s), false).(
               inodes := fs.inodes[n := if s == INDEX_SLOT then ino.(indirect := NONE)
                                        else ino.(direct := ino.direct[s := NONE])])
    ensures Exclusive(fs', {})
    ensures TruncatedTo(fs0, fs', n, if s < INDEX_SLOT then s + 1 else k, s == INDEX_SLOT, false)
  {
    assert Owns(fs, n, s);
    FreeOwned(fs, n, s, {});
    var mid := MarkBlock(fs, Slot(fs, n, s), false);
    ClearSlot(mid, fs', n, s, {});
    if s < INDEX_SLOT {
      assert fs0.inodes[n].direct[..s + 1] == fs0.inodes[n].direct[..s] + [fs.inodes[n].direct[s]];
    }
  }

  /** Setting the size to 0 ends it. */
  lemma TruncateEnds(fs0: FS, fs: FS, fs': FS, n: int, k: nat, idx: bool)
    requires ValidInum(n) && k <= MAX_DIRECT_BLOCKS && Exclusive(fs, {})
    requires TruncatedTo(fs0, fs, n, k, idx, false)
    requires fs' == PutInode(fs, n, fs.inodes[n].(size := 0))
    ensures Exclusive(fs', {}) && TruncatedTo(fs0, fs', n, k, idx, true)
  {
    SameMaps(fs, fs');
    SameOwnership(fs, fs', {});
  }

  /** Whatever truncation does to its file, all others keep their content and the directory stays. */
  lemma TruncatedOthers(fs0: FS, fs: FS, n: int, k: nat, idx: bool, all: bool)
    requires WF(fs0) && IsFile(fs0, n) && k <= MAX_DIRECT_BLOCKS
    requires TruncatedTo(fs0, fs, n, k, idx, all)
    ensures OthersSame(fs0, fs, {n}) && DirOk(fs) && CountOk(fs)
    ensures all ==> Content(fs, n) == []
  {
    forall m | ValidInum(m) && fs0.inodeTaken[m] && m != n ensures Content(fs, m) == Content(fs0, m) {
      assert fs.inodes[m] == fs0.inodes[m];
      ContentFrame(fs0, fs, m);
    }
    hide Slot, Content;
    assert Content(fs, ROOT_DIR_INUM) == Content(fs0, ROOT_DIR_INUM);
    forall i | 0 <= i < MAX_DIR_ENTRIES && EntryNum(Root(fs), i) != NONE ensures IsFile(fs, EntryNum(Root(fs), i)) {
      assert IsFile(fs0, EntryNum(Root(fs0), i));
    }
  }

  /** No open handle on file n stands past its start. */
  ghost predicate NoneBeyondStart(fs: FS, n: int) {
    forall h :: ValidHandle(h) && fs.handleTaken[h] && fs.handles[h].inum == n ==> fs.handles[h].offset == 0
  }

  /** After a truncation of a non-empty file the state is well formed exactly when the truncation went through and
      no open handle stood past the start of the file. */
  lemma TruncationKeepsWFIff(fs0: FS, fs: FS, n: int)
    requires WF(fs0) && IsFile(fs0, n) && fs0.inodes[n].size > 0 && Exclusive(fs, {})
    requires var ino := fs0.inodes[n];
             var ok := CanTruncate(ino);
             TruncatedTo(fs0, fs, n, Leading(ino.direct, LoopLimit(ino.size)),
                         ok && WrittenBlocks(ino.size) >= MAX_DIRECT_BLOCKS, ok)
    ensures WF(fs) <==> CanTruncate(fs0.inodes[n]) && NoneBeyondStart(fs0, n)
  {
    var ino := fs0.inodes[n];
    var k := Leading(ino.direct, LoopLimit(ino.size));
    var ok := CanTruncate(ino);
    TruncatedOthers(fs0, fs, n, k, ok && WrittenBlocks(ino.size) >= MAX_DIRECT_BLOCKS, ok);
    TruncatedCovered(fs0, fs, n);
    hide Exclusive, Slot, Content, CanTruncate, DirOk, TruncatedTo;
    assert fs.handles == fs0.handles && fs.handleTaken == fs0.handleTaken && fs.inodeTaken == fs0.inodeTaken by {
      TruncatedTables(fs0, fs, n, k, ok && WrittenBlocks(ino.size) >= MAX_DIRECT_BLOCKS, ok);
    }
  }

  lemma TruncatedTables(fs0: FS, fs: FS, n: int, k: nat, idx: bool, all: bool)
    requires ValidInum(n) && k <= MAX_DIRECT_BLOCKS && TruncatedTo(fs0, fs, n, k, idx, all)
    ensures fs.handles == fs0.handles && fs.handleTaken == fs0.handleTaken && fs.inodeTaken == fs0.inodeTaken
  {
  }

  /** All files are still covered exactly when the truncation went through. */
  lemma TruncatedCovered(fs0: FS, fs: FS, n: int)
    requires WF(fs0) && IsFile(fs0, n) && fs0.inodes[n].size > 0
    requires var ino := fs0.inodes[n];
             var ok := CanTruncate(ino);
             TruncatedTo(fs0, fs, n, Leading(ino.direct, LoopLimit(ino.size)),
                         ok && WrittenBlocks(ino.size) >= MAX_DIRECT_BLOCKS, ok)
    ensures AllCovered(fs) <==> CanTruncate(fs0.inodes[n])
  {
    var ino := fs0.inodes[n];
    assert Covered(fs0, n);
    if CanTruncate(ino) {
      forall m | IsFile(fs, m) ensures Covered(fs, m) {
        assert Covered(fs0, m);
        if m != n {
          forall i | 0 <= i && i * BLOCK_SIZE < fs.inodes[m].size ensures BlockNo(fs, m, i) != NONE {
            assert BlockNo(fs0, m, i) != NONE;
          }
        }
      }
    } else {
      assert BlockNo(fs0, n, 0) != NONE;
      assert BlockNo(fs, n, 0) == NONE;
      assert !Covered(fs, n);
    }
  }

  /** Nothing is mapped past the size of the file. */
  ghost predicate Tight(fs: FS, n: int)
    requires ValidInum(n)
  {
    && (forall i {:trigger BlockNo(fs, n, i)} :: 0 <= i < MAX_FILE_BLOCKS && BlockNo(fs, n, i) != NONE ==>
          i * BLOCK_SIZE < fs.inodes[n].size)
    && (fs.inodes[n].indirect != NONE ==> fs.inodes[n].size > MAX_DIRECT_BLOCKS * BLOCK_SIZE)
  }

  /** The sizes at which truncation of a file with no spare blocks goes through. */
  predicate TruncatableSize(size: nat) {
    || size < BLOCK_SIZE
    || (size < 9 * BLOCK_SIZE && size % BLOCK_SIZE != 0)
    || size > MAX_DIRECT_BLOCKS * BLOCK_SIZE
  }

  lemma TruncatesBySize(fs: FS, n: int)
    requires WF(fs) && IsFile(fs, n) && Tight(fs, n)
    ensures CanTruncate(fs.inodes[n]) <==> TruncatableSize(fs.inodes[n].size)
  {
    var ino := fs.inodes[n];
    var k := LoopLimit(ino.size);
    assert Covered(fs, n);
    assert forall i :: 0 <= i < MAX_DIRECT_BLOCKS ==> BlockNo(fs, n, i) == ino.direct[i];
    if ino.size > MAX_DIRECT_BLOCKS * BLOCK_SIZE {
      assert BlockNo(fs, n, MAX_DIRECT_BLOCKS) != NONE;
    }
  }

  /** Truncation loses blocks exactly when it frees an index block that still names some. */
  lemma TruncationLeaksIff(fs0: FS, fs: FS, n: int)
    requires WF(fs0) && NoLeak(fs0) && IsFile(fs0, n) && fs0.inodes[n].size > 0 && Exclusive(fs, {})
    requires var ino := fs0.inodes[n];
             var ok := CanTruncate(ino);
             TruncatedTo(fs0, fs, n, Leading(ino.direct, LoopLimit(ino.size)),
                         ok && WrittenBlocks(ino.size) >= MAX_DIRECT_BLOCKS, ok)
    ensures NoLeak(fs) <==>
            !(CanTruncate(fs0.inodes[n]) && WrittenBlocks(fs0.inodes[n].size) >= MAX_DIRECT_BLOCKS
              && exists r :: INDEX_SLOT < r < N_SLOTS && Slot(fs0, n, r) != NONE)
  {
    var ino := fs0.inodes[n];
    var ok := CanTruncate(ino);
    var idx := ok && WrittenBlocks(ino.size) >= MAX_DIRECT_BLOCKS;
    var k := Leading(ino.direct, LoopLimit(ino.size));
    if idx && exists r :: INDEX_SLOT < r < N_SLOTS && Slot(fs0, n, r) != NONE {
      var r :| INDEX_SLOT < r < N_SLOTS && Slot(fs0, n, r) != NONE;
      LostBlock(fs0, fs, n, k, r);
    } else {
      forall b | ValidBlock(b) && fs.blockTaken[b] ensures Held(fs, b) {
        assert Held(fs0, b);
        var m, s :| Owns(fs0, m, s) && Slot(fs0, m, s) == b;
        KeptBlock(fs0, fs, n, k, idx, ok, m, s);
      }
    }
  }

  lemma KeptBlock(fs0: FS, fs: FS, n: int, k: nat, idx: bool, all: bool, m: int, s: int)
    requires IsFile(fs0, n) && k <= MAX_DIRECT_BLOCKS && TruncatedTo(fs0, fs, n, k, idx, all)
    requires Owns(fs0, m, s) && ValidBlock(Slot(fs0, m, s)) && fs.blockTaken[Slot(fs0, m, s)]
    requires idx ==> forall r :: INDEX_SLOT < r < N_SLOTS ==> Slot(fs0, n, r) == NONE
    ensures Owns(fs, m, s) && Slot(fs, m, s) == Slot(fs0, m, s)
  {
    var ino0 := fs0.inodes[n];
    assert forall j :: 0 <= j < k ==> ino0.direct[j] in ino0.direct[..k];
  }

  lemma LostBlock(fs0: FS, fs: FS, n: int, k: nat, r: int)
    requires WF(fs0) && IsFile(fs0, n) && k <= MAX_DIRECT_BLOCKS && TruncatedTo(fs0, fs, n, k, true, true)
    requires INDEX_SLOT < r < N_SLOTS && Slot(fs0, n, r) != NONE
    ensures !NoLeak(fs)
  {
    var b := Slot(fs0, n, r);
    var ino0 := fs0.inodes[n];
    assert Owns(fs0, n, r) && Owns(fs0, n, INDEX_SLOT);
    forall j | 0 <= j < k ensures ino0.direct[j] != b {
      assert ino0.direct[j] != NONE ==> Owns(fs0, n, j);
    }
    assert fs.blockTaken[b];
    forall m, s | Owns(fs, m, s) ensures Slot(fs, m, s) != b {
      assert Owns(fs0, m, s) && Slot(fs, m, s) == Slot(fs0, m, s);
      assert (m, s) != (n, r);
    }
  }
}
