/**
  Files set aside: what happens to the other files does not depend on those that some thread truncates. The system
  with the files of `cut` emptied is whole even while a truncation of one of them is half done, and the threads
  that work on the other files take the same steps in it.
 */
module Aside {
  import opened Options
  import opened Config
  import opened Bytes
  import opened Disk
  import opened Directory
  import opened Ownership
  import opened Files
  import opened Invariant
  import opened Growth
  import opened ReadLoop
  import opened Truncation
  import opened Opening
  import opened Interleaving
  import opened Deadlock
  import opened Safety
  import opened SharedData
  import opened SharedTransfer
  import opened SharedTruncation
  import opened SharedTables
  import opened SharedSteps
  import opened SharedCalm
  import opened SharedContents
  import Tables

  /** The file system with the files in cut emptied. */
  ghost function Without(fs: FS, cut: set<int>): FS {
    fs.(inodes := seq(INODE_TABLE_SIZE, m requires 0 <= m < INODE_TABLE_SIZE =>
                        if m in cut then EMPTY_FILE else fs.inodes[m]))
  }

  /** The files outside cut are whole: no slot of theirs is being emptied, and their blocks are there. */
  ghost predicate Spared(fs: FS, X: set<(int, int)>, cut: set<int>) {
    && ROOT_DIR_INUM !in cut && (forall n, r :: (n, r) in X ==> n in cut)
    && forall n :: IsFile(fs, n) && n !in cut ==> Covered(fs, n)
  }

  lemma WithoutSlots(fs: FS, cut: set<int>)
    ensures forall m, r :: Slot(Without(fs, cut), m, r) == if m in cut then NONE else Slot(fs, m, r)
  {
    forall m, r ensures Slot(Without(fs, cut), m, r) == if m in cut then NONE else Slot(fs, m, r) {
      if 0 <= r < MAX_DIRECT_BLOCKS { assert EMPTY_FILE.direct[r] == NONE; }
    }
  }

  lemma WithoutContent(fs: FS, cut: set<int>, m: int)
    requires ValidInum(m) && m !in cut
    ensures Content(Without(fs, cut), m) == Content(fs, m)
    ensures Covered(Without(fs, cut), m) <==> Covered(fs, m)
  {
    WithoutSlots(fs, cut);
    hide Slot;
    var rest := Without(fs, cut);
    forall i: int ensures BlockNo(rest, m, i) == BlockNo(fs, m, i) {
    }
    ContentFrame(fs, rest, m);
  }

  lemma WithoutFiles(fs: FS, cut: set<int>)
    requires ROOT_DIR_INUM !in cut && forall n :: IsInum(n) ==> !fs.inodes[n].isDir
    ensures forall n :: IsFile(Without(fs, cut), n) <==> IsFile(fs, n)
    ensures RootOk(Without(fs, cut)) <==> RootOk(fs)
    ensures RootOk(fs) ==> Root(Without(fs, cut)) == Root(fs)
  {
    if RootOk(fs) { WithoutContent(fs, cut, ROOT_DIR_INUM); }
  }

  lemma WithoutIsSound(fs: FS, X: set<(int, int)>, cut: set<int>)
    requires Whole(fs, X) && Spared(fs, X, cut)
    ensures Sound(Without(fs, cut))
  {
    WithoutSlots(fs, cut);
    WithoutFiles(fs, cut);
    hide Slot, Content, EntryNum, NumsUnique;
    var rest := Without(fs, cut);
    assert forall m, r :: Owns(rest, m, r) ==> Owns(fs, m, r) && (m, r) !in X;
    forall i | 0 <= i < MAX_DIR_ENTRIES && EntryNum(Root(rest), i) != NONE ensures IsFile(rest, EntryNum(Root(rest), i)) {
      assert IsFile(fs, EntryNum(Root(fs), i));
    }
    forall m | IsFile(rest, m) ensures Covered(rest, m) {
      if m !in cut { WithoutContent(fs, cut, m); }
    }
  }

  // ---------------------------------------------------------------- steps outside cut

  /** The file that a transfer is about, once its thread knows it. */
  function TransferFile(p: PC): Option<int> {
    if !p.InRw? then None
    else
      match p.rw
      case Start => None
      case LockIno => None
      case Plan(n) => Some(n)
      case RwLeave(n) => Some(n)
      case RwLeaveIno(n) => Some(n)
      case _ => Some(p.rw.x.n)
  }

  /** The step works on no file in cut, save for making and giving back empty ones. */
  predicate Outside(p: PC, cut: set<int>) {
    Gentle(p) && (TransferFile(p).Some? ==> TransferFile(p).value !in cut)
  }

  lemma WithoutMissing(fs: FS, cut: set<int>, x: Xfer)
    requires x.n !in cut
    ensures MissingSlot(Without(fs, cut), x) == MissingSlot(fs, x)
    ensures BlockNo(Without(fs, cut), x.n, AtBlock(x)) == BlockNo(fs, x.n, AtBlock(x))
  {
    WithoutSlots(fs, cut);
    hide Slot, Without;
  }

  lemma WithoutTransfers(fs: FS, X: set<(int, int)>, job: Job, rw: RwPC, cut: set<int>)
    requires Whole(fs, X) && RwRange(job, rw) && RwPlace(fs, X, job, rw) && Outside(InRw(job, rw), cut) && Spared(fs, X, cut)
    ensures RwPlace(Without(fs, cut), {}, job, rw)
  {
    WithoutFiles(fs, cut);
    match rw
    case AllocScan(x, s, j) => WithoutMissing(fs, cut, x);
    case AllocHeld(x, s, j) => WithoutMissing(fs, cut, x);
    case HasBlock(x, s, b) =>
      WithoutMissing(fs, cut, x);
      WithoutUnowned(fs, X, cut, b);
    case _ =>
  }

  lemma WithoutUnowned(fs: FS, X: set<(int, int)>, cut: set<int>, b: int)
    requires Unowned(fs, b, X) && Spared(fs, X, cut)
    ensures Unowned(Without(fs, cut), b, {})
  {
    WithoutSlots(fs, cut);
    hide Slot;
    assert forall m, r :: Owns(Without(fs, cut), m, r) ==> Owns(fs, m, r) && (m, r) !in X;
  }

  lemma WithoutOpens(fs: FS, name: CString, at: OpenPC, cut: set<int>)
    requires OpenPlace(fs, name, at) && !Truncating(at) && ROOT_DIR_INUM !in cut && forall n :: IsInum(n) ==> !fs.inodes[n].isDir
    ensures OpenPlace(Without(fs, cut), name, at)
  {
    hide Slot, Content, EntryNum, Find, Answers, RootOk, Root, ToFree;
    WithoutFiles(fs, cut);
  }

  lemma WithoutPlaces(fs: FS, X: set<(int, int)>, p: PC, cut: set<int>)
    requires Whole(fs, X) && InRange(p) && Place(fs, X, p) && !p.InRw? && Gentle(p) && ROOT_DIR_INUM !in cut
    ensures Place(Without(fs, cut), {}, p)
  {
    hide Slot, Content, EntryNum, Find, Answers, RootOk, Exclusive, Root, ToFree, OpenPlace;
    WithoutFiles(fs, cut);
    if p.InOpen? { WithoutOpens(fs, p.name, p.at, cut); }
  }

  lemma WithoutIsReady(fs: FS, X: set<(int, int)>, p: PC, cut: set<int>)
    requires Ready(fs, X, p) && Spared(fs, X, cut) && Outside(p, cut)
    ensures Ready(Without(fs, cut), {}, p) && Sound(Without(fs, cut))
  {
    hide OpenPlace, RwPlace, Exclusive, DirOk, HandlesSane, OpenRange, RwRange, HeldAt, AllCovered, Without,
         Spared, TransferFile;
    assert X + EmptyingAt(p) == X && {} + EmptyingAt(p) == {};
    WithoutIsSound(fs, X, cut);
    RootSpared(fs, X, cut);
    if p.InRw? { WithoutTransfers(fs, X, p.job, p.rw, cut); } else { WithoutPlaces(fs, X, p, cut); }
  }

  lemma RootSpared(fs: FS, X: set<(int, int)>, cut: set<int>)
    requires Spared(fs, X, cut)
    ensures ROOT_DIR_INUM !in cut && RootUntouched(X)
  {
  }

  // ---------------------------------------------------------------- the same step without the files of cut

  lemma OpenWithout(fs: FS, cut: set<int>, name: CString, flags: Flags, at: OpenPC)
    requires name != [] && OpenRange(at) && RootOk(fs) && RootOk(Without(fs, cut)) && !Truncating(at) && ROOT_DIR_INUM !in cut
    requires Root(Without(fs, cut)) == Root(fs)
    ensures DoOpen(Without(fs, cut), name, flags, at).fs == Without(DoOpen(fs, name, flags, at).fs, cut)
  {
    hide Slot, Content, EntryNum, Answers, RootOk, StoredName, EncodeInt, Patch;
  }

  lemma RwWithout(fs: FS, cut: set<int>, job: Job, rw: RwPC)
    requires RwRange(job, rw) && Outside(InRw(job, rw), cut) && (rw.Plan? ==> fs.handles[job.h].inum == rw.n)
    ensures DoRw(Without(fs, cut), job, rw) == DoRw(fs, job, rw).(fs := Without(DoRw(fs, job, rw).fs, cut))
  {
    hide Slot, MissingSlot, DoLoop, FillSlot;
    match rw
    case Loop(x) => LoopWithout(fs, cut, job, x);
    case HasBlock(x, s, b) => FillWithout(fs, cut, x.n, s, b);
    case _ =>
  }

  lemma FillWithout(fs: FS, cut: set<int>, n: int, s: nat, b: nat)
    requires ValidInum(n) && n !in cut && ValidBlock(b) && s < N_SLOTS
    ensures FillSlot(Without(fs, cut), n, s, b) == Without(FillSlot(fs, n, s, b), cut)
  {
    hide Patch, EncodeInt;
  }

  lemma LoopWithout(fs: FS, cut: set<int>, job: Job, x: Xfer)
    requires ValidHandle(job.h) && XferRange(job, x) && x.n !in cut
    ensures DoLoop(Without(fs, cut), job, x) == DoLoop(fs, job, x).(fs := Without(DoLoop(fs, job, x).fs, cut))
  {
    WithoutMissing(fs, cut, x);
    hide Slot, MissingSlot, Patch, Block;
  }

  /** What a step shows: every file outside cut covered, and no content of theirs but that of the file written to changed. */
  ghost predicate ShownOutside(fs: FS, p: PC, fs': FS, cut: set<int>)
    requires InRange(p) && (Outside(p, cut) ==> Within(fs, p))
  {
    forall m {:trigger Content(fs', m)} :: IsFile(fs', m) && m !in cut ==>
      && Covered(fs', m)
      && if Outside(p, cut) then Content(fs', m) == ContentAfter(fs, p, m)
         else IsFile(fs, m) && Content(fs', m) == Content(fs, m)
  }

  lemma StepWithout(fs: FS, X: set<(int, int)>, p: PC, cut: set<int>)
    requires Ready(fs, X, p) && Spared(fs, X, cut) && Outside(p, cut)
    ensures InRange(p) && RootOk(fs) && RootOk(Without(fs, cut))
    ensures Do(Without(fs, cut), p).fs == Without(Do(fs, p).fs, cut)
    ensures p.InRw? ==> Do(Without(fs, cut), p).pc == Do(fs, p).pc && Do(Without(fs, cut), p).event == Do(fs, p).event
  {
    hide Place, Exclusive, HandlesSane, OpenRange, RwRange, HeldAt, Without, NumsUnique, DoOpen, DoRw, RootOk, Root;
    WithoutFiles(fs, cut);
    match p
    case InOpen(name, flags, at) => OpenWithout(fs, cut, name, flags, at);
    case InTable(n, off, at) => TableWithout(fs, cut, n, off, at);
    case InClose(h, at) => CloseWithout(fs, cut, h, at);
    case InRw(job, rw) =>
      PlanPlace(fs, X + EmptyingAt(p), job, rw);
      RwWithout(fs, cut, job, rw);
  }

  lemma PlanPlace(fs: FS, X: set<(int, int)>, job: Job, rw: RwPC)
    requires Place(fs, X, InRw(job, rw))
    ensures ValidHandle(job.h) && (rw.Plan? ==> fs.handles[job.h].inum == rw.n)
  {
    hide MissingSlot, Unowned;
  }

  lemma TableWithout(fs: FS, cut: set<int>, n: int, off: nat, at: TablePC)
    requires TableRange(at)
    ensures DoTable(Without(fs, cut), n, off, at).fs == Without(DoTable(fs, n, off, at).fs, cut)
  {
  }

  lemma CloseWithout(fs: FS, cut: set<int>, h: int, at: ClosePC)
    requires ValidHandle(h)
    ensures DoClose(Without(fs, cut), h, at).fs == Without(DoClose(fs, h, at).fs, cut)
  {
  }

  lemma WithinWithout(fs: FS, p: PC, cut: set<int>)
    requires InRange(p) && Outside(p, cut) && Within(fs, p)
    ensures Within(Without(fs, cut), p)
  {
    hide Content, Without;
    if p.InRw? && p.rw.Loop? { WithoutContent(fs, cut, p.rw.x.n); }
  }

  lemma AfterWithout(fs: FS, p: PC, cut: set<int>, m: int)
    requires InRange(p) && Outside(p, cut) && Within(fs, p) && Within(Without(fs, cut), p) && ValidInum(m) && m !in cut
    ensures ContentAfter(Without(fs, cut), p, m) == ContentAfter(fs, p, m)
  {
    hide Content, MissingSlot;
    WithoutContent(fs, cut, m);
    if p.InRw? && p.rw.Loop? { WithoutMissing(fs, cut, p.rw.x); }
  }

  lemma OutsideShown(fs: FS, X: set<(int, int)>, p: PC, cut: set<int>)
    requires Ready(fs, X, p) && Spared(fs, X, cut) && Outside(p, cut)
    requires InRange(p) && RootOk(fs) && !p.Idle? && Within(fs, p)
    ensures ShownOutside(fs, p, Do(fs, p).fs, cut)
  {
    hide Ready, Sound, Do, Content, Without, ContentAfter, Within, RootOk, InRange, Spared;
    WithoutIsReady(fs, X, p, cut);
    StepWithout(fs, X, p, cut);
    WithinWithout(fs, p, cut);
    StepShown(Without(fs, cut), p);
    var fs' := Do(fs, p).fs;
    forall m | IsFile(fs', m) && m !in cut
      ensures Covered(fs', m) && Content(fs', m) == ContentAfter(fs, p, m)
    {
      WithoutContent(fs', cut, m);
      StillFile(fs', cut, m);
      AfterWithout(fs, p, cut, m);
    }
  }

  lemma StillFile(fs: FS, cut: set<int>, m: int)
    requires IsFile(fs, m) && m !in cut
    ensures IsFile(Without(fs, cut), m)
  {
  }

  // ---------------------------------------------------------------- steps on files in cut

  /** A change to other blocks than those of file m, and to other records, does not show in it. */
  lemma FileKept(fs: FS, X: set<(int, int)>, fs': FS, m: int, c: int)
    requires Exclusive(fs, X) && IsFile(fs, m) && Covered(fs, m) && fs'.inodes[m] == fs.inodes[m]
    requires forall r :: Slot(fs', m, r) == Slot(fs, m, r)
    requires forall d :: ValidBlock(d) && d != c ==> Block(fs'.data, d) == Block(fs.data, d)
    requires forall r :: Owns(fs, m, r) ==> Slot(fs, m, r) != c
    ensures Covered(fs', m) && Content(fs', m) == Content(fs, m)
  {
    hide Slot, Block;
    forall i | 0 <= i && i * BLOCK_SIZE < fs.inodes[m].size
      ensures var b := BlockNo(fs, m, i); BlockNo(fs', m, i) == b && (ValidBlock(b) ==> Block(fs'.data, b) == Block(fs.data, b))
    {
      assert BlockNo(fs, m, i) != NONE && Owns(fs, m, DataSlot(i));
    }
    ContentFrame(fs, fs', m);
    forall i | 0 <= i && i * BLOCK_SIZE < fs.inodes[m].size ensures BlockNo(fs', m, i) != NONE {
      assert BlockNo(fs, m, i) != NONE;
    }
  }

  /** The block held in slot s of file n is not one of file m. */
  lemma OtherBlock(fs: FS, X: set<(int, int)>, n: int, s: int, m: int)
    requires Exclusive(fs, X) && Owns(fs, n, s) && (n, s) !in X && m != n && (forall r :: (m, r) !in X)
    ensures forall r :: Owns(fs, m, r) ==> Slot(fs, m, r) != Slot(fs, n, s)
  {
    hide Slot;
  }

  lemma CopyElsewhere(fs: FS, X: set<(int, int)>, h: int, n: int, bytes: seq<Byte>, m: int)
    requires Whole(fs, X) && ClosedUnderIndex(X) && RootUntouched(X) && (forall r :: (n, r) !in X && (m, r) !in X)
    requires ValidHandle(h) && fs.handles[h].inum == n && IsFile(fs, n) && m != n && IsFile(fs, m) && Covered(fs, m)
    requires var off := fs.handles[h].offset;
             ValidBlock(BlockNo(fs, n, off / BLOCK_SIZE)) && off % BLOCK_SIZE + |bytes| <= BLOCK_SIZE
    ensures var fs' := Copied(fs, h, fs.handles[h].offset / BLOCK_SIZE, bytes);
            Covered(fs', m) && Content(fs', m) == Content(fs, m)
  {
    var off := fs.handles[h].offset;
    var fs' := Copied(fs, h, off / BLOCK_SIZE, bytes);
    var b := BlockNo(fs, n, off / BLOCK_SIZE);
    Copying(fs, X, h, n, bytes);
    PatchBlock(fs.data, b, off % BLOCK_SIZE, bytes);
    hide Slot, Patch, Block, DirOk, HandlesSane, Exclusive, Covered, Content;
    assert Owns(fs, n, DataSlot(off / BLOCK_SIZE));
    OtherBlock(fs, X, n, DataSlot(off / BLOCK_SIZE), m);
    assert forall r :: Slot(fs', m, r) == Slot(fs, m, r);
    FileKept(fs, X, fs', m, b);
  }

  lemma FillElsewhere(fs: FS, X: set<(int, int)>, n: int, s: nat, b: nat, m: int)
    requires Whole(fs, X) && ClosedUnderIndex(X) && RootUntouched(X) && (forall r :: (n, r) !in X && (m, r) !in X)
    requires IsFile(fs, n) && s < N_SLOTS && Slot(fs, n, s) == NONE
    requires s > INDEX_SLOT ==> Slot(fs, n, INDEX_SLOT) != NONE
    requires ValidBlock(b) && fs.blockTaken[b] && Unowned(fs, b, X)
    requires m != n && IsFile(fs, m) && Covered(fs, m)
    ensures Covered(FillSlot(fs, n, s, b), m) && Content(FillSlot(fs, n, s, b), m) == Content(fs, m)
  {
    var fs' := FillSlot(fs, n, s, b);
    Filling(fs, X, n, s, b);
    hide Exclusive, DirOk, HandlesSane, Covered, Content, Installed;
    assert forall r :: Slot(fs', m, r) == Slot(fs, m, r);
    if s == INDEX_SLOT {
      InstalledIsIndex(fs, n, b);
      FileKept(fs, X, fs', m, b);
    } else if s > INDEX_SLOT {
      assert Owns(fs, n, INDEX_SLOT);
      OtherBlock(fs, X, n, INDEX_SLOT, m);
      IndexIsBlock(fs, X, n);
      AttachBlock(fs, n, s, b, X);
      FileKept(fs, X, fs', m, fs.inodes[n].indirect);
    } else {
      FileKept(fs, X, fs', m, NONE);
    }
  }

  lemma IndexIsBlock(fs: FS, X: set<(int, int)>, n: int)
    requires Exclusive(fs, X) && IsFile(fs, n) && Owns(fs, n, INDEX_SLOT) && (n, INDEX_SLOT) !in X
    ensures ValidBlock(fs.inodes[n].indirect) && Slot(fs, n, INDEX_SLOT) == fs.inodes[n].indirect
  {
  }

  lemma TruncElsewhere(fs: FS, X: set<(int, int)>, name: CString, flags: Flags, at: OpenPC, m: int)
    requires Ready(fs, X, InOpen(name, flags, at)) && Truncating(at) && m != at.n
    requires IsFile(fs, m) && Covered(fs, m)
    ensures var fs' := DoOpen(fs, name, flags, at).fs; Covered(fs', m) && Content(fs', m) == Content(fs, m)
  {
    hide Content, Covered, EntryNum, NumsUnique, HandlesSane, Window, RootOk, Place, Exclusive, WrittenBlocks;
    var fs' := DoOpen(fs, name, flags, at).fs;
    SlotsElsewhere(fs, fs', m);
    FileKept(fs, X + EmptyingAt(InOpen(name, flags, at)), fs', m, NONE);
  }

  lemma SlotsElsewhere(fs: FS, fs': FS, m: int)
    requires ValidInum(m) && fs'.inodes[m] == fs.inodes[m] && fs'.data == fs.data
    ensures forall r :: Slot(fs', m, r) == Slot(fs, m, r)
  {
  }

  lemma LoopElsewhere(fs: FS, X: set<(int, int)>, job: Job, x: Xfer, m: int)
    requires Ready(fs, X, InRw(job, Loop(x))) && x.n != m && IsFile(fs, m) && Covered(fs, m) && forall r :: (m, r) !in X
    ensures var fs' := DoLoop(fs, job, x).fs; Covered(fs', m) && Content(fs', m) == Content(fs, m)
  {
    hide Content, Covered, EntryNum, Slot, HandlesSane, RootOk, Exclusive, DoLoop, DirOk, CopySize, MissingSlot, Copied;
    var p := InRw(job, Loop(x));
    assert X + EmptyingAt(p) == X;
    if !CopiesNext(fs, job, x) {
      LoopQuietLands(fs, X, job, x);
    } else if job.WriteJob? {
      WriteLands(fs, X, job, x);
      HeldFileIsClear(X, p, x.n);
      CopyElsewhere(fs, X, job.h, x.n, job.buf[x.moved..x.moved + CopySize(x)], m);
    } else {
      ReadLands(fs, X, job, x);
      SameElsewhere(fs, X, MovedOn(fs, job.h, CopySize(x)), m);
    }
  }

  lemma RwElsewhere(fs: FS, X: set<(int, int)>, job: Job, rw: RwPC, m: int)
    requires Ready(fs, X, InRw(job, rw)) && TransferFile(InRw(job, rw)) != Some(m)
    requires IsFile(fs, m) && Covered(fs, m) && forall r :: (m, r) !in X
    ensures var fs' := DoRw(fs, job, rw).fs; Covered(fs', m) && Content(fs', m) == Content(fs, m)
  {
    hide Content, Covered, EntryNum, Slot, HandlesSane, RootOk, Exclusive, FillSlot, DoLoop, DirOk, MissingSlot,
         Unowned;
    var p := InRw(job, rw);
    assert X + EmptyingAt(p) == X;
    match rw
    case Loop(x) => LoopElsewhere(fs, X, job, x, m);
    case HasBlock(x, s, b) =>
      HeldFileIsClear(X, p, x.n);
      MissingIsEmpty(fs, x);
      FillElsewhere(fs, X, x.n, s, b, m);
    case _ => SameElsewhere(fs, X, DoRw(fs, job, rw).fs, m);
  }

  lemma SameElsewhere(fs: FS, X: set<(int, int)>, fs': FS, m: int)
    requires Exclusive(fs, X) && IsFile(fs, m) && Covered(fs, m) && fs'.inodes == fs.inodes && fs'.data == fs.data
    ensures Covered(fs', m) && Content(fs', m) == Content(fs, m)
  {
    hide Content, Covered, Exclusive, Slot;
    SlotsElsewhere(fs, fs', m);
    FileKept(fs, X, fs', m, NONE);
  }

  // ---------------------------------------------------------------- every step

  /** The thread truncates no file but those in cut. */
  predicate CutsOnly(p: PC, cut: set<int>) {
    p.InOpen? && Truncating(p.at) ==> p.at.n in cut
  }

  /** Whatever a step does, and whoever truncates files in cut: every other file stays whole, and none of their contents
      changes but that of the file written to, into which the piece is spliced. */
  lemma StepShownOutside(fs: FS, X: set<(int, int)>, p: PC, cut: set<int>)
    requires Ready(fs, X, p) && Spared(fs, X, cut) && CutsOnly(p, cut)
    requires InRange(p) && RootOk(fs) && !p.Idle? && (Outside(p, cut) ==> Within(fs, p))
    ensures ShownOutside(fs, p, Do(fs, p).fs, cut)
  {
    hide Ready, Content, Covered, Within, RootOk, OpenRange, RwRange, ContentAfter, DoOpen, DoRw;
    if Outside(p, cut) {
      OutsideShown(fs, X, p, cut);
    } else {
      forall m | IsFile(Do(fs, p).fs, m) && m !in cut
        ensures Covered(Do(fs, p).fs, m) && IsFile(fs, m) && Content(Do(fs, p).fs, m) == Content(fs, m)
      {
        InsideKeepsFiles(fs, p, cut);
        if p.InOpen? { TruncElsewhere(fs, X, p.name, p.flags, p.at, m); } else { RwElsewhere(fs, X, p.job, p.rw, m); }
      }
    }
  }

  lemma InsideKeepsFiles(fs: FS, p: PC, cut: set<int>)
    requires InRange(p) && RootOk(fs) && !p.Idle? && !Outside(p, cut)
    ensures forall m :: IsFile(Do(fs, p).fs, m) <==> IsFile(fs, m)
  {
    hide Slot, Content, RootOk, Patch;
  }
}
