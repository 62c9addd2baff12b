/** The freshly initialised file system. */
module Formatting {
  import opened Config
  import opened Bytes
  import opened Disk
  import opened Directory
  import opened Ownership
  import opened Invariant
  import opened Tables

  /** tfs_init on tables that hold anything: only the root i-node and its block are in use. */
  ghost predicate Formatted(fs: FS) {
    && (forall n :: ValidInum(n) ==> (fs.inodeTaken[n] <==> n == ROOT_DIR_INUM))
    && (forall b :: ValidBlock(b) ==> (fs.blockTaken[b] <==> b == 0))
    && (forall h :: ValidHandle(h) ==> !fs.handleTaken[h])
    && fs.openCount == 0
    && fs.inodes[ROOT_DIR_INUM].isDir && fs.inodes[ROOT_DIR_INUM].size == BLOCK_SIZE
    && fs.inodes[ROOT_DIR_INUM].direct[0] == 0
    && forall i :: 0 <= i < MAX_DIR_ENTRIES ==> EntryNum(Block(fs.data, 0), i) == NONE
  }

  lemma {:induction false} CountNone(s: seq<bool>)
    requires forall i :: 0 <= i < |s| ==> !s[i]
    ensures CountTrue(s) == 0
  {
    if s != [] { CountNone(s[..|s| - 1]); }
  }

  /** A freshly initialised file system is well formed, holds no name and has lost no block. */
  lemma FormattedIsWF(fs: FS)
    requires Formatted(fs)
    ensures WF(fs) && NoLeak(fs) && NamesUnique(Root(fs))
    ensures forall name :: Find(Root(fs), name) == NONE
  {
    CountNone(fs.handleTaken);
    RootIsBlock(fs);
    assert Owns(fs, ROOT_DIR_INUM, 0) && Slot(fs, ROOT_DIR_INUM, 0) == 0;
    assert Held(fs, 0);
  }
}
