/** What the code does where it asks its callers not to go: one lemma at each such input. */
module Misuse {
  import opened Options
  import opened Config
  import opened Bytes
  import opened Disk
  import opened Directory
  import opened Ownership
  import opened Files
  import opened Invariant
  import opened Growth
  import opened Tables
  import opened Interleaving

  // ---------------------------------------------------------------- a write past the maximum size

  /** Where the code looks for the number of block i of a file whose index block is ib. */
  function EntryAddress(ib: int, i: int): int {
    ib * BLOCK_SIZE + 4 * (i - MAX_DIRECT_BLOCKS)
  }

  /** For a block past the last one that can be mapped, the number comes from the block behind the index block; a number stored for
      it goes there too, and the file has that block no more than before. */
  lemma PastLastBlock(fs: FS, n: int, i: int, b: Int32)
    requires IsFile(fs, n) && MAX_FILE_BLOCKS <= i < MAX_FILE_BLOCKS + PTRS
    requires ValidBlock(fs.inodes[n].indirect) && ValidBlock(fs.inodes[n].indirect + 1)
    ensures var (ib, e) := (fs.inodes[n].indirect, 4 * (i - MAX_FILE_BLOCKS));
            && EntryAddress(ib, i) + 4 <= DISK_SIZE
            && IntAt(fs.data, EntryAddress(ib, i)) == IntAt(Block(fs.data, ib + 1), e)
            && var fs' := PutBytes(fs, EntryAddress(ib, i), EncodeInt(b));
               && Block(fs'.data, ib + 1) == Patch(Block(fs.data, ib + 1), e, EncodeInt(b))
               && (forall c :: ValidBlock(c) && c != ib + 1 ==> Block(fs'.data, c) == Block(fs.data, c))
               && BlockNo(fs', n, i) == NONE
  {
    hide IntAt, EncodeInt, Patch, Block;
    var (ib, e) := (fs.inodes[n].indirect, 4 * (i - MAX_FILE_BLOCKS));
    PatchBlock(fs.data, ib + 1, e, EncodeInt(b));
    IntOfBlock(fs.data, ib + 1, e);
  }

  lemma IntOfBlock(d: seq<Byte>, b: int, e: nat)
    requires |d| == DISK_SIZE && ValidBlock(b) && e + 4 <= BLOCK_SIZE
    ensures IntAt(d, b * BLOCK_SIZE + e) == IntAt(Block(d, b), e)
  {
    IntInStretch(d, b * BLOCK_SIZE, b * BLOCK_SIZE + BLOCK_SIZE, b * BLOCK_SIZE + e);
  }

  // ---------------------------------------------------------------- a write through a handle that was never opened

  lemma RootBlockNo(fs: FS)
    requires RootOk(fs)
    ensures BlockNo(fs, ROOT_DIR_INUM, 0) == fs.inodes[ROOT_DIR_INUM].direct[0]
  {
  }

  /** The entry of a handle that was never opened refers to the start of the root directory: 44 bytes written through it are its
      first entry from then on. */
  lemma UnopenedWriteRenames(fs: FS, h: int, name: CString, n: Int32)
    requires Exclusive(fs, {}) && AllCovered(fs) && RootOk(fs) && ValidHandle(h) && fs.handles[h] == OpenFile(0, 0)
    ensures InArray(fs, h, 0, DIR_ENTRY_SIZE)
    ensures var fs' := Copied(fs, h, 0, StoredName(name) + EncodeInt(n));
            && RootOk(fs') && Root(fs') == WithEntry(Root(fs), 0, n, name)
            && EntryNum(Root(fs'), 0) == n && EntryName(Root(fs'), 0) == StoredName(name)
            && (n != NONE && !IsFile(fs, n) ==> !DirOk(fs'))
  {
    hide Slot, Exclusive, AllCovered, StoredName, EncodeInt, Patch, EntryNum, EntryName, Content, WithEntry;
    RootBlockNo(fs);
    var bytes := StoredName(name) + EncodeInt(n);
    LinkedKeeps(fs, 0, n, name);
    var (linked, fs') := (Linked(fs, 0, n, name), Copied(fs, h, 0, bytes));
    assert fs'.inodes == linked.inodes;
    HandlesDoNotShow(linked, fs');
    WithEntryAt(Root(fs), 0, n, name);
  }

  // ---------------------------------------------------------------- two closes of one handle

  /** Nobody holds the lock of the count. */
  ghost predicate CountIsFree(s: State) {
    forall v, g {:trigger g in s.threads[v].held} :: 0 <= v < |s.threads| && g in s.threads[v].held ==> g.lock != CountLock
  }

  /** Both threads are past the check of entry h, which they hold for reading, and the lock of the count is free. */
  ghost predicate BothClosing(s: State, t: nat, u: nat, h: int) {
    && t < |s.threads| && u < |s.threads| && t != u && ValidHandle(h) && RootOk(s.fs)
    && s.threads[t].pc == InClose(h, CloseCount) && s.threads[u].pc == InClose(h, CloseCount)
    && CountIsFree(s)
  }

  /** Thread t takes the lock of the count and counts its close. */
  ghost function CountedClose(s: State, t: nat, h: int): (State, State)
    requires t < |s.threads| && ValidHandle(h)
  {
    var lock := Hold(CountLock, true);
    var th := s.threads[t];
    var s1 := s.(threads := s.threads[t := Thread(InClose(h, CloseCountHeld), th.held + {lock})]);
    var s2 := s1.(fs := Closed(s.fs, h), log := s.log + [Shut(h, true)],
                  threads := s.threads[t := Thread(InClose(h, CloseUnlock), th.held + {lock} - {lock})]);
    (s1, s2)
  }

  lemma CountsOnce(s: State, t: nat, h: int)
    requires t < |s.threads| && ValidHandle(h) && RootOk(s.fs) && s.threads[t].pc == InClose(h, CloseCount)
    requires CountIsFree(s)
    ensures var (s1, s2) := CountedClose(s, t, h);
            && ThreadStep(s, s1, t) && ThreadStep(s1, s2, t)
            && RootOk(s2.fs) && |s2.threads| == |s.threads|
            && CountIsFree(s2)
  {
    var (s1, s2) := CountedClose(s, t, h);
    var lock := Hold(CountLock, true);
    assert Do(s.fs, s.threads[t].pc) == Acquire(s.fs, InClose(h, CloseCountHeld), lock);
    assert Do(s1.fs, s1.threads[t].pc) == Release(Closed(s.fs, h), InClose(h, CloseUnlock), lock).(event := Some(Shut(h, true)));
    assert s1.threads[t := s2.threads[t]] == s2.threads;
    assert NewHeld(s.threads[t].held, Do(s.fs, s.threads[t].pc)) == s1.threads[t].held;
    assert NewHeld(s1.threads[t].held, Do(s1.fs, s1.threads[t].pc)) == s2.threads[t].held;
  }

  /** Nobody writes to entry h. */
  ghost predicate EntryIsCalm(s: State, h: int) {
    forall v, g {:trigger g in s.threads[v].held} :: 0 <= v < |s.threads| && g in s.threads[v].held ==> g != Hold(Entry(h), true)
  }

  /** An idle thread begins to close h and gets past the check of its entry. */
  lemma EntersClose(s: State, t: nat, h: int) returns (s1: State, s2: State, s3: State)
    requires t < |s.threads| && s.threads[t] == Thread(Idle, {}) && ValidHandle(h) && s.fs.handleTaken[h] && RootOk(s.fs)
    requires EntryIsCalm(s, h)
    ensures StartStep(s, s1, t, InClose(h, CloseLock)) && ThreadStep(s1, s2, t) && ThreadStep(s2, s3, t)
    ensures s3 == s.(threads := s.threads[t := Thread(InClose(h, CloseCount), {Hold(Entry(h), false)})])
  {
    var lock := Hold(Entry(h), false);
    s1 := s.(threads := s.threads[t := Thread(InClose(h, CloseLock), {})]);
    s2 := s.(threads := s.threads[t := Thread(InClose(h, CloseHeld), {lock})]);
    s3 := s.(threads := s.threads[t := Thread(InClose(h, CloseCount), {lock})]);
    assert Do(s1.fs, s1.threads[t].pc) == Acquire(s.fs, InClose(h, CloseHeld), lock);
    assert Do(s2.fs, s2.threads[t].pc) == Local(s.fs, InClose(h, CloseCount));
    assert s1.threads[t := s2.threads[t]] == s2.threads && s2.threads[t := s3.threads[t]] == s3.threads;
    assert NewHeld({}, Do(s1.fs, s1.threads[t].pc)) == {lock} == NewHeld({lock}, Do(s2.fs, s2.threads[t].pc));
  }

  /** Two threads that have nothing to do close the same open handle at once: ten steps later the entry is freed once, the count has
      dropped twice, and is wrong from then on. */
  lemma TwoClosesCountTwice(s: State, t: nat, u: nat, h: int) returns (run: seq<State>)
    requires t < |s.threads| && u < |s.threads| && t != u && s.threads[t] == s.threads[u] == Thread(Idle, {})
    requires ValidHandle(h) && s.fs.handleTaken[h] && RootOk(s.fs) && CountOk(s.fs) && EntryIsCalm(s, h) && CountIsFree(s)
    ensures |run| == 11 && run[0] == s && forall i :: 0 <= i < 10 ==> Step(run[i], run[i + 1])
    ensures run[10].fs.openCount == s.fs.openCount - 2 && run[10].fs.handleTaken == s.fs.handleTaken[h := false]
    ensures !CountOk(run[10].fs)
  {
    hide ThreadStep, StartStep, RootOk;
    var s1, s2, s3 := EntersClose(s, t, h);
    var s4, s5, s6 := EntersClose(s3, u, h);
    var s7, s8, s9, s10 := BothCount(s6, t, u, h);
    run := [s, s1, s2, s3, s4, s5, s6, s7, s8, s9, s10];
    assert Starts(s, s1, t) && Starts(s3, s4, u);
  }

  /** Two closes of one open handle, both past the check. */
  lemma BothCount(s: State, t: nat, u: nat, h: int) returns (s1: State, s2: State, s3: State, s4: State)
    requires BothClosing(s, t, u, h) && s.fs.handleTaken[h] && CountOk(s.fs)
    ensures ThreadStep(s, s1, t) && ThreadStep(s1, s2, t) && ThreadStep(s2, s3, u) && ThreadStep(s3, s4, u)
    ensures s4.fs.openCount == s.fs.openCount - 2 && s4.fs.handleTaken == s.fs.handleTaken[h := false] && !CountOk(s4.fs)
  {
    hide ThreadStep, RootOk;
    s1, s2 := CountedClose(s, t, h).0, CountedClose(s, t, h).1;
    CountsOnce(s, t, h);
    s3, s4 := CountedClose(s2, u, h).0, CountedClose(s2, u, h).1;
    CountsOnce(s2, u, h);
    assert s.fs.handleTaken[h := false][h := false] == s.fs.handleTaken[h := false];
    CountUpdate(s.fs.handleTaken, h, false);
  }
}
