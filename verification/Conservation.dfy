/** Blocks under truncation: which sizes give back exactly what the file held, and which runs lose nothing. */
module Conservation {
  import opened Config
  import opened Bytes
  import opened Disk
  import opened Directory
  import opened Ownership
  import opened Files
  import opened Invariant
  import opened FirstFit
  import opened Transfer
  import opened WriteLoop
  import opened ReadLoop
  import opened Tables
  import opened Truncation
  import opened Opening
  import opened Formatting
  import opened Runs

  /** File n holds block b. */
  ghost predicate HeldBy(fs: FS, n: int, b: int) {
    exists s :: Owns(fs, n, s) && Slot(fs, n, s) == b
  }

  /** The blocks FREE afterwards are those FREE before, and those of file n. */
  ghost predicate FreesExactly(fs0: FS, fs: FS, n: int) {
    forall b :: ValidBlock(b) ==> (!fs.blockTaken[b] <==> !fs0.blockTaken[b] || HeldBy(fs0, n, b))
  }

  /** What the truncation in tfs_open does to a file that is not empty, whether it goes through or not. */
  ghost predicate AfterTruncation(fs0: FS, fs: FS, n: int)
    requires ValidInum(n)
  {
    var ino := fs0.inodes[n];
    var ok := CanTruncate(ino);
    TruncatedTo(fs0, fs, n, Leading(ino.direct, LoopLimit(ino.size)), ok && WrittenBlocks(ino.size) >= MAX_DIRECT_BLOCKS, ok)
  }

  lemma DirectBlocks(fs: FS, n: int)
    requires WF(fs) && IsFile(fs, n) && Tight(fs, n)
    ensures var ino := fs.inodes[n];
            && (forall i :: 0 <= i < MAX_DIRECT_BLOCKS ==> (ino.direct[i] != NONE <==> i * BLOCK_SIZE < ino.size))
            && (ino.indirect != NONE <==> ino.size > MAX_DIRECT_BLOCKS * BLOCK_SIZE)
            && (ino.size > MAX_DIRECT_BLOCKS * BLOCK_SIZE ==> BlockNo(fs, n, MAX_DIRECT_BLOCKS) != NONE)
  {
    assert Covered(fs, n);
    assert forall i :: 0 <= i < MAX_DIRECT_BLOCKS ==> BlockNo(fs, n, i) == fs.inodes[n].direct[i];
    if fs.inodes[n].size > MAX_DIRECT_BLOCKS * BLOCK_SIZE {
      assert BlockNo(fs, n, MAX_DIRECT_BLOCKS) != NONE;
    }
  }

  /** How many direct blocks the truncation frees, for a file that the direct blocks cover. */
  lemma LeadingIsAll(ino: Inode)
    requires 0 < ino.size <= MAX_DIRECT_BLOCKS * BLOCK_SIZE && ino.indirect == NONE
    requires forall i :: 0 <= i < MAX_DIRECT_BLOCKS ==> (ino.direct[i] != NONE <==> i * BLOCK_SIZE < ino.size)
    ensures var k := Leading(ino.direct, LoopLimit(ino.size));
            && (ino.size < BLOCK_SIZE ==> k == 0)
            && (ino.size >= BLOCK_SIZE ==> forall i :: 0 <= i < MAX_DIRECT_BLOCKS ==> (i < k <==> ino.direct[i] != NONE))
    ensures !(CanTruncate(ino) && WrittenBlocks(ino.size) >= MAX_DIRECT_BLOCKS)
  {
  }

  /** Up to ten blocks, a file holds its mapped direct blocks and no others. */
  lemma HoldsDirect(fs: FS, n: int, b: int)
    requires WF(fs) && IsFile(fs, n) && fs.inodes[n].indirect == NONE && ValidBlock(b)
    ensures HeldBy(fs, n, b) <==> b in fs.inodes[n].direct
  {
    if HeldBy(fs, n, b) {
      var s :| Owns(fs, n, s) && Slot(fs, n, s) == b;
      assert fs.inodes[n].direct[s] == b;
    }
    if b in fs.inodes[n].direct {
      var i :| 0 <= i < MAX_DIRECT_BLOCKS && fs.inodes[n].direct[i] == b;
      assert Owns(fs, n, i) && Slot(fs, n, i) == b;
    }
  }

  lemma HeldIsTaken(fs: FS, n: int, b: int)
    requires WF(fs) && HeldBy(fs, n, b)
    ensures ValidBlock(b) && fs.blockTaken[b]
  {
    var s :| Owns(fs, n, s) && Slot(fs, n, s) == b;
  }

  lemma DirectFreed(fs0: FS, fs: FS, n: int)
    requires WF(fs0) && IsFile(fs0, n) && Tight(fs0, n) && AfterTruncation(fs0, fs, n)
    requires BLOCK_SIZE <= fs0.inodes[n].size <= MAX_DIRECT_BLOCKS * BLOCK_SIZE
    ensures FreesExactly(fs0, fs, n)
  {
    var ino := fs0.inodes[n];
    DirectBlocks(fs0, n);
    LeadingIsAll(ino);
    var k := Leading(ino.direct, LoopLimit(ino.size));
    hide Exclusive, WF, CanTruncate, LoopLimit, WrittenBlocks, Tight, Slot, Owns;
    forall b | ValidBlock(b) ensures !fs.blockTaken[b] <==> !fs0.blockTaken[b] || HeldBy(fs0, n, b) {
      HoldsDirect(fs0, n, b);
      assert b in ino.direct <==> b in ino.direct[..k] by { PrefixHasAll(ino.direct, k, b); }
    }
  }

  lemma PrefixHasAll(direct: seq<Int32>, k: nat, b: int)
    requires k <= |direct| && b != NONE && forall i :: 0 <= i < |direct| ==> (i < k <==> direct[i] != NONE)
    ensures b in direct <==> b in direct[..k]
  {
  }

  /** A block held by file n that the truncation does not free stays TAKEN. */
  lemma StaysTaken(fs0: FS, fs: FS, n: int, b: int)
    requires WF(fs0) && IsFile(fs0, n) && HeldBy(fs0, n, b) && ValidBlock(b) && fs.blockTaken[b]
    ensures !FreesExactly(fs0, fs, n)
  {
  }

  lemma SmallKeepsBlock(fs0: FS, fs: FS, n: int)
    requires WF(fs0) && IsFile(fs0, n) && Tight(fs0, n) && AfterTruncation(fs0, fs, n) && 0 < fs0.inodes[n].size < BLOCK_SIZE
    ensures !FreesExactly(fs0, fs, n)
  {
    var ino := fs0.inodes[n];
    DirectBlocks(fs0, n);
    LeadingIsAll(ino);
    var b := ino.direct[0];
    HoldsDirect(fs0, n, b) by { assert b != NONE; assert Owns(fs0, n, 0); }
    HeldIsTaken(fs0, n, b);
    StaysTaken(fs0, fs, n, b);
  }

  lemma LargeKeepsBlock(fs0: FS, fs: FS, n: int)
    requires WF(fs0) && IsFile(fs0, n) && Tight(fs0, n) && AfterTruncation(fs0, fs, n)
    requires fs0.inodes[n].size > MAX_DIRECT_BLOCKS * BLOCK_SIZE
    ensures !FreesExactly(fs0, fs, n)
  {
    DirectBlocks(fs0, n);
    var r := INDEX_SLOT + 1;
    var b := Slot(fs0, n, r);
    assert Owns(fs0, n, r) && Owns(fs0, n, INDEX_SLOT);
    assert HeldBy(fs0, n, b);
    HeldIsTaken(fs0, n, b);
    forall j | 0 <= j < MAX_DIRECT_BLOCKS ensures fs0.inodes[n].direct[j] != b {
      assert fs0.inodes[n].direct[j] != NONE ==> Owns(fs0, n, j);
    }
    StaysTaken(fs0, fs, n, b);
  }

  /** Truncation of a file with no spare blocks gives back exactly its blocks if and only if it has one to ten blocks' worth of
      bytes: below one block it frees none, above ten it forgets those that the index block names. */
  lemma TruncationFreesExactly(fs0: FS, fs: FS, n: int)
    requires WF(fs0) && IsFile(fs0, n) && Tight(fs0, n) && fs0.inodes[n].size > 0 && AfterTruncation(fs0, fs, n)
    ensures FreesExactly(fs0, fs, n) <==> BLOCK_SIZE <= fs0.inodes[n].size <= MAX_DIRECT_BLOCKS * BLOCK_SIZE
  {
    hide WF, Tight, AfterTruncation, FreesExactly;
    if fs0.inodes[n].size < BLOCK_SIZE { SmallKeepsBlock(fs0, fs, n); }
    else if fs0.inodes[n].size > MAX_DIRECT_BLOCKS * BLOCK_SIZE { LargeKeepsBlock(fs0, fs, n); }
    else { DirectFreed(fs0, fs, n); }
  }

  // ---------------------------------------------------------------- files stay tight

  /** No file has a block past its size. */
  ghost predicate AllTight(fs: FS) {
    forall n :: IsFile(fs, n) ==> Tight(fs, n)
  }

  lemma SameTight(fs: FS, fs': FS, m: int)
    requires IsFile(fs, m) && IsFile(fs', m) && Tight(fs, m) && fs'.inodes[m].size == fs.inodes[m].size
    requires forall r :: Slot(fs', m, r) == Slot(fs, m, r)
    ensures Tight(fs', m)
  {
    assert Slot(fs', m, INDEX_SLOT) == Slot(fs, m, INDEX_SLOT);
    hide Slot;
    forall i | 0 <= i < MAX_FILE_BLOCKS && BlockNo(fs', m, i) != NONE ensures i * BLOCK_SIZE < fs'.inodes[m].size {
      assert BlockNo(fs, m, i) != NONE;
    }
  }

  /** Changes that only the open-file table sees. */
  lemma TableKeepsTight(fs: FS, fs': FS)
    requires AllTight(fs) && fs' == fs.(handleTaken := fs'.handleTaken, handles := fs'.handles, openCount := fs'.openCount)
    ensures AllTight(fs')
  {
    SameMaps(fs, fs');
    hide Tight, Slot;
    forall m | IsFile(fs', m) ensures Tight(fs', m) {
      assert IsFile(fs, m);
      SameTight(fs, fs', m);
    }
  }

  /** A write that ends maps blocks below the new size only. */
  lemma WriteKeepsTight(fs0: FS, fs: FS, h: int, buf: seq<Byte>, k: nat)
    requires WF(fs0) && AllTight(fs0) && Usable(fs0, h) && Done(fs0, fs, h, buf, k)
    ensures AllTight(fs)
  {
    hide Tight, Exclusive, AllCovered, DirOk, CountOk, Slot, HighBlock, Content;
    forall m | IsFile(fs, m) ensures Tight(fs, m) {
      assert IsFile(fs0, m);
      if m == fs0.handles[h].inum {
        WrittenIsTight(fs0, fs, h, buf, k);
      } else {
        assert fs.inodes[m].size == fs0.inodes[m].size;
        SameTight(fs0, fs, m);
      }
    }
  }

  lemma WrittenIsTight(fs0: FS, fs: FS, h: int, buf: seq<Byte>, k: nat)
    requires WF(fs0) && Usable(fs0, h) && Done(fs0, fs, h, buf, k)
    requires Tight(fs0, fs0.handles[h].inum)
    ensures Tight(fs, fs0.handles[h].inum)
  {
    hide Exclusive, AllCovered, DirOk, CountOk, Grows, OthersSame;
    var n, o := fs0.handles[h].inum, fs0.handles[h].offset;
    SizeAfterWrite(fs0, fs, h, buf, k);
    assert Slot(fs, n, INDEX_SLOT) == fs.inodes[n].indirect && Slot(fs0, n, INDEX_SLOT) == fs0.inodes[n].indirect;
    hide Slot;
    forall i | 0 <= i < MAX_FILE_BLOCKS && BlockNo(fs, n, i) != NONE ensures i * BLOCK_SIZE < fs.inodes[n].size {
      if Slot(fs, n, DataSlot(i)) != Slot(fs0, n, DataSlot(i)) {
        BelowHighBlock(o, |buf|, i);
      } else {
        assert BlockNo(fs0, n, i) != NONE;
      }
    }
    if fs.inodes[n].indirect != NONE && fs0.inodes[n].indirect == NONE {
      BelowHighBlock(o, |buf|, MAX_DIRECT_BLOCKS);
    }
  }

  lemma SizeAfterWrite(fs0: FS, fs: FS, h: int, buf: seq<Byte>, k: nat)
    requires WF(fs0) && Usable(fs0, h) && Done(fs0, fs, h, buf, k)
    ensures var n, o := fs0.handles[h].inum, fs0.handles[h].offset;
            && ValidInum(n) && IsFile(fs0, n) && k == Moves(BLOCK_SIZE, o, |buf|) && o <= fs0.inodes[n].size && !fs.inodes[n].isDir
            && fs.inodes[n].size == (if o + k > fs0.inodes[n].size then o + k else fs0.inodes[n].size)
  {
    hide Exclusive, AllCovered, DirOk, CountOk, Grows, OthersSame, OnlyBlocks, Slot;
    var n := fs0.handles[h].inum;
    assert |Content(fs, n)| == fs.inodes[n].size && |Content(fs0, n)| == fs0.inodes[n].size;
  }

  /** A block that the transfer touches starts below its end; with nothing to transfer, it lies below the offset. */
  lemma BelowHighBlock(o: nat, n: nat, i: nat)
    requires i < HighBlock(o, n)
    ensures i * BLOCK_SIZE < o + Moves(BLOCK_SIZE, o, n)
  {
    var m := Moves(BLOCK_SIZE, o, n);
    hide Moves;
    if m > 0 { assert (o + m - 1) / BLOCK_SIZE * BLOCK_SIZE <= o + m - 1; }
  }

  /** A truncation that goes through on a file of at least one block leaves it without any. */
  lemma TruncationKeepsTight(fs0: FS, fs: FS, n: int)
    requires WF(fs0) && AllTight(fs0) && IsFile(fs0, n) && AfterTruncation(fs0, fs, n)
    requires CanTruncate(fs0.inodes[n]) && fs0.inodes[n].size >= BLOCK_SIZE
    ensures AllTight(fs)
  {
    TruncatedIsEmpty(fs0, fs, n);
    hide WF, Tight;
    forall m | IsFile(fs, m) ensures Tight(fs, m) {
      if m == n {
        EmptyIsTight(fs, n);
      } else {
        assert IsFile(fs0, m) && fs.inodes[m] == fs0.inodes[m];
        SameTight(fs0, fs, m);
      }
    }
  }

  lemma TruncatedIsEmpty(fs0: FS, fs: FS, n: int)
    requires WF(fs0) && IsFile(fs0, n) && Tight(fs0, n) && AfterTruncation(fs0, fs, n)
    requires CanTruncate(fs0.inodes[n]) && fs0.inodes[n].size >= BLOCK_SIZE
    ensures fs.inodes[n].indirect == NONE && forall i :: 0 <= i < MAX_DIRECT_BLOCKS ==> fs.inodes[n].direct[i] == NONE
  {
    DirectBlocks(fs0, n);
    hide WF, Tight;
    if fs0.inodes[n].size <= MAX_DIRECT_BLOCKS * BLOCK_SIZE { LeadingIsAll(fs0.inodes[n]); }
  }

  lemma EmptyIsTight(fs: FS, n: int)
    requires ValidInum(n) && !fs.inodes[n].isDir && fs.inodes[n].indirect == NONE
    requires forall i :: 0 <= i < MAX_DIRECT_BLOCKS ==> fs.inodes[n].direct[i] == NONE
    ensures Tight(fs, n)
  {
  }

  lemma CreateKeepsTight(fs0: FS, mid: FS, n: int, name: CString)
    requires WF(fs0) && AllTight(fs0) && CreatedAndLinked(fs0, mid, n, name)
    ensures AllTight(mid)
  {
    hide Tight, Content, Exclusive, AllCovered, EntryNum, NumsUnique, CountOk, HandlesOk;
    var i :| IsFirstUnused(Root(fs0), i) && LinkedAt(fs0, mid, n, i, name);
    var made := Created(fs0, n);
    CreatedSlots(fs0, n, {});
    CreatedKeeps(fs0, n);
    LinkedKeeps(made, i, n, name);
    hide Slot;
    forall m | IsFile(mid, m) ensures Tight(mid, m) {
      assert IsFile(made, m);
      assert mid.inodes[m].size == made.inodes[m].size by { LinkedInodes(made, i, n, name); }
      if m == n { EmptyIsTight(made, n); } else { assert IsFile(fs0, m); SameTight(fs0, made, m); }
      SameTight(made, mid, m);
    }
  }

  lemma LinkedInodes(fs: FS, i: int, n: Int32, name: CString)
    requires RootOk(fs) && 0 <= i < MAX_DIR_ENTRIES
    ensures Linked(fs, i, n, name).inodes == fs.inodes && Linked(fs, i, n, name).inodeTaken == fs.inodeTaken
  {
  }

  lemma NotCreatedKeepsTight(fs0: FS, mid: FS)
    requires WF(fs0) && AllTight(fs0) && NotCreated(fs0, mid)
    ensures AllTight(mid)
  {
    if mid != fs0 {
      var n :| IsFirstFree(fs0.inodeTaken, n) && mid == fs0.(inodes := fs0.inodes[n := EMPTY_FILE]);
      hide WF, Tight;
      forall m | IsFile(mid, m) ensures Tight(mid, m) {
        assert IsFile(fs0, m) && m != n && mid.inodes[m] == fs0.inodes[m];
        SameTight(fs0, mid, m);
      }
    }
  }

  // ---------------------------------------------------------------- runs that lose nothing

  /** A truncating open finds an empty file, or one of one to ten blocks. */
  ghost predicate GivesBack(fs: FS, op: Op) {
    op.Open? && op.flags.truncate && ValidPath(op.path) && DirOk(fs) ==>
      var n := Find(Root(fs), FileName(op.path));
      ValidInum(n) ==> fs.inodes[n].size == 0 || BLOCK_SIZE <= fs.inodes[n].size <= MAX_DIRECT_BLOCKS * BLOCK_SIZE
  }

  /** A write finds the blocks that it needs. */
  ghost predicate GoesThrough(fs: FS, fs': FS, op: Op) {
    op.Write? && ValidHandle(op.h) ==> exists k: nat :: Done(fs, fs', op.h, op.buf, k)
  }

  lemma PreparedConserves(fs0: FS, mid: FS, n: int, truncate: bool, ok: bool)
    requires WF(fs0) && AllTight(fs0) && NoLeak(fs0) && IsFile(fs0, n) && Prepared(fs0, mid, n, truncate, ok)
    requires truncate ==> TruncationSafe(fs0, n)
    requires truncate ==> fs0.inodes[n].size == 0 || BLOCK_SIZE <= fs0.inodes[n].size <= MAX_DIRECT_BLOCKS * BLOCK_SIZE
    ensures AllTight(mid) && NoLeak(mid)
  {
    hide WF, Tight, NoLeak, TruncatedTo;
    if truncate && fs0.inodes[n].size > 0 {
      TruncationKeepsTight(fs0, mid, n);
      TruncationLeaksIff(fs0, mid, n);
      DirectBlocks(fs0, n);
      LeadingIsAll(fs0.inodes[n]);
    }
  }

  lemma OpenConserves(fs: FS, fs': FS, path: CString, flags: Flags)
    requires WF(fs) && AllTight(fs) && NoLeak(fs) && Allowed(fs, Open(path, flags)) && Step(fs, fs', Open(path, flags))
    requires GivesBack(fs, Open(path, flags))
    ensures AllTight(fs') && NoLeak(fs')
  {
    hide AllTight, Exclusive, AllCovered, HandlesOk, CountOk, RootOk, NumsUnique, Slot, Content, EntryNum, Find, Prepared,
         CreatedAndLinked, NotCreated, TruncationSafe, NoLeak;
    var r, n, mid :| OpenEffect(fs, fs', path, flags, r, n, mid);
    if ValidPath(path) {
      FoundIsFile(fs, FileName(path));
      if Find(Root(fs), FileName(path)) != NONE {
        var ok :| Prepared(fs, mid, n, flags.truncate, ok) &&
             if ok then HandleAdded(mid, fs', r, n, if flags.append then mid.inodes[n].size else 0)
             else r == NONE && fs' == mid;
        PreparedConserves(fs, mid, n, flags.truncate, ok);
        PreparedKeepsWF(fs, mid, n, flags.truncate, ok);
        AddedConserves(mid, fs', r);
      } else if flags.create && n == NONE {
        NotCreatedKeepsTight(fs, mid);
        NotCreatedKeepsWF(fs, mid);
      } else if flags.create {
        CreateKeepsTight(fs, mid, n, FileName(path));
        CreateKeepsWF(fs, mid, n, FileName(path));
        AddedConserves(mid, fs', r);
      }
    }
  }

  lemma AddedConserves(mid: FS, fs: FS, r: int)
    requires AllTight(mid) && NoLeak(mid) && Exclusive(mid, {})
    requires fs == mid || fs == mid.(handleTaken := fs.handleTaken, handles := fs.handles, openCount := fs.openCount)
    ensures AllTight(fs) && NoLeak(fs)
  {
    hide AllTight, Exclusive, NoLeak;
    if fs != mid {
      TableKeepsTight(mid, fs);
      TableDoesNotShow(mid, fs);
    }
  }

  lemma StepConserves(fs: FS, fs': FS, op: Op)
    requires WF(fs) && AllTight(fs) && NoLeak(fs) && Allowed(fs, op) && Step(fs, fs', op)
    requires GivesBack(fs, op) && GoesThrough(fs, fs', op)
    ensures AllTight(fs') && NoLeak(fs')
  {
    hide AllTight, Exclusive, AllCovered, Slot, Content, EntryNum, NumsUnique, NoLeak, OpenEffect, Progress, DirOk, CountOk;
    match op
    case Open(path, flags) => OpenConserves(fs, fs', path, flags);
    case Write(h, buf) =>
      if ValidHandle(h) {
        var k: nat :| Done(fs, fs', h, buf, k);
        WriteKeepsTight(fs, fs', h, buf, k);
        DoneGrows(fs, fs', h, buf, k);
        GrowsKeepsNoLeak(fs, fs', fs.handles[h].inum);
      }
    case Read(h, len) => if ValidHandle(h) { AddedConserves(fs, fs', 0); }
    case Close(h) => if ValidHandle(h) && fs.handleTaken[h] { AddedConserves(fs, fs', 0); }
  }

  lemma DoneGrows(fs: FS, fs': FS, h: int, buf: seq<Byte>, k: nat)
    requires ValidHandle(h) && Done(fs, fs', h, buf, k)
    ensures Grows(fs, fs', fs.handles[h].inum) && IsFile(fs, fs.handles[h].inum)
  {
  }

  /** Over runs in which every write finds its blocks and every truncating open finds an empty file or one of one to ten blocks,
      no file ever has a spare block, and the TAKEN blocks are exactly the owned ones. */
  lemma {:induction false} RunsConserve(trace: seq<FS>, ops: seq<Op>, i: nat)
    requires Run(trace, ops) && i < |trace|
    requires forall j :: 0 <= j < |ops| ==> GivesBack(trace[j], ops[j]) && GoesThrough(trace[j], trace[j + 1], ops[j])
    ensures AllTight(trace[i]) && forall b :: ValidBlock(b) ==> (trace[i].blockTaken[b] <==> Held(trace[i], b))
  {
    RunsStayTight(trace, ops, i);
    RunsAreWF(trace, ops, i);
    hide Slot, AllTight, Run;
    forall b | ValidBlock(b) && Held(trace[i], b) ensures trace[i].blockTaken[b] {
      var n, s :| Owns(trace[i], n, s) && Slot(trace[i], n, s) == b;
    }
  }

  lemma {:induction false} RunsStayTight(trace: seq<FS>, ops: seq<Op>, i: nat)
    requires Run(trace, ops) && i < |trace|
    requires forall j :: 0 <= j < |ops| ==> GivesBack(trace[j], ops[j]) && GoesThrough(trace[j], trace[j + 1], ops[j])
    ensures AllTight(trace[i]) && NoLeak(trace[i])
  {
    hide WF, NoLeak, Step, Allowed, AllTight, GivesBack, GoesThrough, Formatted;
    if i == 0 {
      FormattedIsWF(trace[0]);
      FormattedIsTight(trace[0]);
    } else {
      RunsStayTight(trace, ops, i - 1);
      RunsAreWF(trace, ops, i - 1);
      StepConserves(trace[i - 1], trace[i], ops[i - 1]);
    }
  }

  lemma FormattedIsTight(fs: FS)
    requires Formatted(fs)
    ensures AllTight(fs)
  {
  }
}
