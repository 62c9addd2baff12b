/** One step of one thread, in each place: what it finds afterwards, and what the other threads notice. */
module SharedSteps {
  import opened Options
  import opened Config
  import opened Bytes
  import opened Disk
  import opened Directory
  import opened Ownership
  import opened Invariant
  import opened Growth
  import opened ReadLoop
  import opened Truncation
  import opened Opening
  import opened Interleaving
  import opened Deadlock
  import opened Safety
  import opened SharedData
  import opened SharedTransfer
  import opened SharedTruncation
  import opened SharedTables
  import Tables

  // ---------------------------------------------------------------- references

  ghost predicate InDirectory(fs: FS, n: int) {
    RootOk(fs) && exists j :: 0 <= j < MAX_DIR_ENTRIES && EntryNum(Root(fs), j) == n
  }

  ghost predicate InTableOfHandles(fs: FS, n: int) {
    exists h :: ValidHandle(h) && fs.handles[h].inum == n
  }

  /** What a thread refers to after a step it referred to before, or it found it in the shared tables, or it was FREE. */
  ghost predicate Follows(fs: FS, p: PC, p': PC) {
    && (Making(p').Some? ==> Making(p') == Making(p) || (ValidInum(Making(p').value) && !fs.inodeTaken[Making(p').value]))
    && (Using(p').Some? ==>
          || Using(p') == Using(p) || Using(p') == Making(p)
          || InDirectory(fs, Using(p').value) || InTableOfHandles(fs, Using(p').value))
    && (InHand(p').Some? ==> InHand(p') == InHand(p) || (ValidBlock(InHand(p').value) && !fs.blockTaken[InHand(p').value]))
  }

  lemma RefersToFiles(fs: FS, X: set<(int, int)>, q: PC)
    requires Whole(fs, X) && InRange(q) && Place(fs, X, q)
    ensures Using(q).Some? ==> IsFile(fs, Using(q).value)
    ensures Making(q).Some? ==> Fresh(fs, Making(q).value)
    ensures InHand(q).Some? ==> ValidBlock(InHand(q).value) && fs.blockTaken[InHand(q).value]
  {
    hide Slot, Content, EntryNum, Fresh, MissingSlot, Unowned, Exclusive, RootOk;
    FilesInRange(q);
  }

  /** Threads that were apart stay apart. */
  lemma ApartKept(fs: FS, X: set<(int, int)>, p: PC, p': PC, q: PC)
    requires Whole(fs, X) && InRange(q) && Place(fs, X, q)
    requires Apart(p, q) && Apart(q, p) && Follows(fs, p, p')
    ensures Apart(p', q) && Apart(q, p')
  {
    RefersToFiles(fs, X, q);
    hide Slot, Content, EntryNum, Place, InRange, Whole, Making, Using, InHand, Root;
  }

  // ---------------------------------------------------------------- the situation before a step

  /** No slot of a file that the thread holds is being emptied by another thread. */
  ghost predicate Clear(X: set<(int, int)>, pc: PC) {
    forall n, r :: IsInum(n) && Hold(Ino(n), true) in HeldAt(pc) ==> (n, r) !in X
  }

  /** The thread is in its place; `rest` are the slots that other threads are emptying. */
  ghost predicate Ready(fs: FS, rest: set<(int, int)>, p: PC) {
    && Whole(fs, rest + EmptyingAt(p)) && ClosedUnderIndex(rest) && RootUntouched(rest) && Clear(rest, p)
    && InRange(p) && Place(fs, rest + EmptyingAt(p), p) && !p.Idle?
  }

  /** The thread is in its place again after the step. */
  ghost predicate Lands(fs: FS, rest: set<(int, int)>, p: PC, e: Effect) {
    && Whole(e.fs, rest + EmptyingAt(e.pc))
    && InRange(e.pc) && Place(e.fs, rest + EmptyingAt(e.pc), e.pc)
    && Follows(fs, p, e.pc)
    && RootAfter(fs, p, e)
  }

  /** The directory is as it was, or a free entry of it was filled. */
  ghost predicate RootAfter(fs: FS, p: PC, e: Effect) {
    RootOk(fs) && RootOk(e.fs) &&
    if FillsEntry(fs, p) then Root(e.fs) == WithEntry(Root(fs), p.at.i, p.at.n, p.name) else Root(e.fs) == Root(fs)
  }

  /** The next step of the thread fills a directory entry. */
  ghost predicate FillsEntry(fs: FS, p: PC) {
    InRange(p) && RootOk(fs) && p.InOpen? && p.at.AddHeld? && EntryNum(Root(fs), p.at.i) == NONE
  }

  /** Another thread, and how it stands to the one that steps. */
  ghost predicate Beside(fs: FS, X: set<(int, int)>, p: PC, q: PC) {
    && InRange(q) && Place(fs, X, q) && MapsFree(X, q) && Compatible(p, q) && Apart(p, q) && Apart(q, p)
  }

  /** The step leaves the shared data alone. */
  predicate Quiet(fs: FS, p: PC, e: Effect) {
    e.fs == fs && EmptyingAt(p) == {} && EmptyingAt(e.pc) == {}
  }

  lemma QuietLands(fs: FS, rest: set<(int, int)>, p: PC, e: Effect)
    requires Ready(fs, rest, p) && Quiet(fs, p, e) && !FillsEntry(fs, p) && InRange(e.pc) && Place(fs, rest, e.pc)
    requires Follows(fs, p, e.pc)
    ensures Lands(fs, rest, p, e)
  {
    hide Exclusive, HandlesSane, NumsUnique, EntryNum, Content, Place, Follows, InRange;
    assert rest + EmptyingAt(p) == rest == rest + EmptyingAt(e.pc);
  }

  lemma QuietDisturbsNobody(fs: FS, rest: set<(int, int)>, p: PC, q: PC, e: Effect)
    requires Quiet(fs, p, e)
    ensures Undisturbed(fs, rest + EmptyingAt(p), e.fs, rest + EmptyingAt(e.pc), q)
  {
    NothingTouched(fs, rest, q);
    assert rest + EmptyingAt(p) == rest == rest + EmptyingAt(e.pc);
  }

  // ---------------------------------------------------------------- open: lookup

  lemma LookingIsQuiet(fs: FS, name: CString, flags: Flags, at: OpenPC)
    requires name != [] && OpenRange(at) && RootOk(fs) && Looking(at)
    ensures Quiet(fs, InOpen(name, flags, at), DoOpen(fs, name, flags, at))
  {
    hide Slot, Content, EntryNum, Answers, RootOk;
  }

  lemma LookingLands(fs: FS, rest: set<(int, int)>, name: CString, flags: Flags, at: OpenPC)
    requires Ready(fs, rest, InOpen(name, flags, at)) && Looking(at)
    ensures Lands(fs, rest, InOpen(name, flags, at), DoOpen(fs, name, flags, at))
  {
    hide Slot, Content, EntryNum, Exclusive, Answers, NumsUnique, HandlesSane, Follows, OpenPlace, DoOpen;
    var p := InOpen(name, flags, at);
    var e := DoOpen(fs, name, flags, at);
    LookingIsQuiet(fs, name, flags, at);
    assert rest + EmptyingAt(p) == rest;
    if at.ScanHeld? { ScanLands(fs, rest, name, flags, at.i); } else { ElseLands(fs, rest, name, flags, at); }
    QuietLands(fs, rest, p, e);
  }

  lemma ScanLands(fs: FS, rest: set<(int, int)>, name: CString, flags: Flags, i: nat)
    requires DirOk(fs) && name != [] && i < MAX_DIR_ENTRIES && OpenPlace(fs, name, ScanHeld(i))
    ensures var e := DoOpen(fs, name, flags, ScanHeld(i));
            InRange(e.pc) && Place(fs, rest, e.pc) && Follows(fs, InOpen(name, flags, ScanHeld(i)), e.pc)
  {
    hide Slot, Content, EntryNum, NumsUnique, NameMatches, Find, RootOk, Root;
    if Answers(Root(fs), i, name) {
      FirstIsFound(Root(fs), name, i, 0);
      assert IsFile(fs, EntryNum(Root(fs), i));
      assert InDirectory(fs, EntryNum(Root(fs), i));
    }
  }

  lemma ElseLands(fs: FS, rest: set<(int, int)>, name: CString, flags: Flags, at: OpenPC)
    requires DirOk(fs) && name != [] && OpenRange(at) && OpenPlace(fs, name, at) && Looking(at) && !at.ScanHeld?
    ensures var e := DoOpen(fs, name, flags, at);
            InRange(e.pc) && Place(fs, rest, e.pc) && Follows(fs, InOpen(name, flags, at), e.pc)
  {
    hide Slot, Content, EntryNum, Answers, NumsUnique, RootOk, Find, StoredName, Patch, WrittenBlocks, Fresh, Exclusive, LoopLimit,
         HandlesSane, UsedBelow;
    if at.Exists? || at.Decide? || at.Leave? || at.LeaveIno? {
      FoundLands(fs, rest, name, flags, at);
    } else if at.Scan? && at.i == MAX_DIR_ENTRIES {
      NothingFound(fs, name);
    }
  }

  lemma FoundLands(fs: FS, rest: set<(int, int)>, name: CString, flags: Flags, at: OpenPC)
    requires DirOk(fs) && name != [] && OpenRange(at) && OpenPlace(fs, name, at)
    requires at.Exists? || at.Decide? || at.Leave? || at.LeaveIno?
    ensures var e := DoOpen(fs, name, flags, at);
            InRange(e.pc) && Place(fs, rest, e.pc) && Follows(fs, InOpen(name, flags, at), e.pc)
  {
    hide Slot, Content, EntryNum, Answers, NumsUnique, RootOk, Find, StoredName, Patch, WrittenBlocks, Fresh, Exclusive, LoopLimit,
         HandlesSane, UsedBelow;
  }

  /** A scan that has gone past all entries. */
  lemma NothingFound(fs: FS, name: CString)
    requires RootOk(fs) && name != [] && forall j :: 0 <= j < MAX_DIR_ENTRIES ==> !Answers(Root(fs), j, name)
    ensures NoName(fs, name)
  {
    hide Slot, Content, EntryNum, Answers, RootOk;
  }

  // ---------------------------------------------------------------- open: truncation

  /** What truncation relies on about the other threads. */
  lemma HeldFileIsClear(rest: set<(int, int)>, p: PC, n: int)
    requires Clear(rest, p) && IsInum(n) && Hold(Ino(n), true) in HeldAt(p)
    ensures forall r :: (n, r) !in rest
  {
    hide HeldAt;
  }

  lemma TruncQuietLands(fs: FS, rest: set<(int, int)>, name: CString, flags: Flags, at: OpenPC)
    requires Ready(fs, rest, InOpen(name, flags, at)) && (at.TruncTest? || at.TruncLock?)
    ensures Quiet(fs, InOpen(name, flags, at), DoOpen(fs, name, flags, at))
    ensures Lands(fs, rest, InOpen(name, flags, at), DoOpen(fs, name, flags, at))
  {
    hide Content, EntryNum, Exclusive, NumsUnique, HandlesSane, Window, RootOk, WrittenBlocks;
    var e := DoOpen(fs, name, flags, at);
    QuietLands(fs, rest, InOpen(name, flags, at), e);
  }

  lemma TruncHeldLands(fs: FS, rest: set<(int, int)>, name: CString, flags: Flags, n: int, s: nat, b: int)
    requires Ready(fs, rest, InOpen(name, flags, TruncHeld(n, s, b)))
    ensures Lands(fs, rest, InOpen(name, flags, TruncHeld(n, s, b)), DoOpen(fs, name, flags, TruncHeld(n, s, b)))
  {
    hide Slot, Content, EntryNum, Exclusive, NumsUnique, HandlesSane, RootOk, Window;
    var p := InOpen(name, flags, TruncHeld(n, s, b));
    assert rest + EmptyingAt(p) == rest;
    HeldFileIsClear(rest, p, n);
    if ValidBlock(b) {
      Freeing(fs, rest, n, s);
    } else {
      QuietLands(fs, rest, p, DoOpen(fs, name, flags, TruncHeld(n, s, b)));
    }
  }

  lemma TruncClearLands(fs: FS, rest: set<(int, int)>, name: CString, flags: Flags, n: int, s: nat)
    requires Ready(fs, rest, InOpen(name, flags, TruncClear(n, s)))
    ensures Lands(fs, rest, InOpen(name, flags, TruncClear(n, s)), DoOpen(fs, name, flags, TruncClear(n, s)))
  {
    hide Slot, Content, EntryNum, Exclusive, NumsUnique, HandlesSane, RootOk, Window;
    var e := DoOpen(fs, name, flags, TruncClear(n, s));
    assert rest + EmptyingAt(e.pc) == rest;
    Clearing(fs, rest, n, s);
  }

  lemma TruncEndLands(fs: FS, rest: set<(int, int)>, name: CString, flags: Flags, n: int)
    requires Ready(fs, rest, InOpen(name, flags, TruncEnd(n)))
    ensures Lands(fs, rest, InOpen(name, flags, TruncEnd(n)), DoOpen(fs, name, flags, TruncEnd(n)))
  {
    hide Slot, Content, EntryNum, Exclusive, NumsUnique, HandlesSane, RootOk;
    var e := DoOpen(fs, name, flags, TruncEnd(n));
    assert rest + EmptyingAt(e.pc) == rest;
    assert rest + EmptyingAt(InOpen(name, flags, TruncEnd(n))) == rest;
    Resizing(fs, rest, n);
  }

  // ---------------------------------------------------------------- open: creation

  lemma MakeQuietLands(fs: FS, rest: set<(int, int)>, name: CString, flags: Flags, at: OpenPC)
    requires Ready(fs, rest, InOpen(name, flags, at))
    requires at.Make? || at.MakeLock? || at.AddRoot? || at.AddRootHeld? || at.AddScan?
    ensures Quiet(fs, InOpen(name, flags, at), DoOpen(fs, name, flags, at))
    ensures Lands(fs, rest, InOpen(name, flags, at), DoOpen(fs, name, flags, at))
  {
    hide Slot, Content, EntryNum, Exclusive, NumsUnique, HandlesSane, RootOk, Fresh, NoName;
    var e := DoOpen(fs, name, flags, at);
    QuietLands(fs, rest, InOpen(name, flags, at), e);
  }

  lemma MakeHeldLands(fs: FS, rest: set<(int, int)>, name: CString, flags: Flags, i: nat)
    requires Ready(fs, rest, InOpen(name, flags, MakeHeld(i)))
    ensures Lands(fs, rest, InOpen(name, flags, MakeHeld(i)), DoOpen(fs, name, flags, MakeHeld(i)))
  {
    hide Slot, Content, EntryNum, Exclusive, NumsUnique, HandlesSane, Fresh, Find;
    var p := InOpen(name, flags, MakeHeld(i));
    var e := DoOpen(fs, name, flags, MakeHeld(i));
    assert rest + EmptyingAt(p) == rest == rest + EmptyingAt(e.pc);
    if fs.inodeTaken[i] {
      QuietLands(fs, rest, p, e);
    } else {
      assert i != ROOT_DIR_INUM;
      Creating(fs, rest, i);
    }
  }

  lemma AddHeldLands(fs: FS, rest: set<(int, int)>, name: CString, flags: Flags, n: int, i: nat)
    requires Ready(fs, rest, InOpen(name, flags, AddHeld(n, i)))
    ensures Lands(fs, rest, InOpen(name, flags, AddHeld(n, i)), DoOpen(fs, name, flags, AddHeld(n, i)))
  {
    hide Slot, Content, EntryNum, Exclusive, NumsUnique, HandlesSane, Find;
    var p := InOpen(name, flags, AddHeld(n, i));
    var e := DoOpen(fs, name, flags, AddHeld(n, i));
    assert rest + EmptyingAt(p) == rest == rest + EmptyingAt(e.pc);
    if EntryNum(Root(fs), i) == NONE {
      Linking(fs, rest, i, n, name);
      LinkingKeepsMaps(fs, rest, i, n, name);
    } else {
      QuietLands(fs, rest, p, e);
    }
  }

  lemma DeleteLands(fs: FS, rest: set<(int, int)>, name: CString, flags: Flags, n: int)
    requires Ready(fs, rest, InOpen(name, flags, Delete(n)))
    ensures Lands(fs, rest, InOpen(name, flags, Delete(n)), DoOpen(fs, name, flags, Delete(n)))
  {
    hide Slot, Content, EntryNum, Exclusive, NumsUnique, HandlesSane, RootOk, Fresh, Whole, Find, UsedBelow;
    var p := InOpen(name, flags, Delete(n));
    var e := DoOpen(fs, name, flags, Delete(n));
    assert rest + EmptyingAt(p) == rest == rest + EmptyingAt(e.pc);
    Dropping(fs, rest, n);
    RootsStay(fs, rest, e.fs, rest);
  }

  lemma OpenLands(fs: FS, rest: set<(int, int)>, name: CString, flags: Flags, at: OpenPC)
    requires Ready(fs, rest, InOpen(name, flags, at))
    ensures Lands(fs, rest, InOpen(name, flags, at), DoOpen(fs, name, flags, at))
  {
    hide Ready, Lands;
    if Looking(at) { LookingLands(fs, rest, name, flags, at); }
    else {
      match at
      case TruncHeld(n, s, b) => TruncHeldLands(fs, rest, name, flags, n, s, b);
      case TruncClear(n, s) => TruncClearLands(fs, rest, name, flags, n, s);
      case TruncEnd(n) => TruncEndLands(fs, rest, name, flags, n);
      case MakeHeld(i) => MakeHeldLands(fs, rest, name, flags, i);
      case AddHeld(n, i) => AddHeldLands(fs, rest, name, flags, n, i);
      case Delete(n) => DeleteLands(fs, rest, name, flags, n);
      case _ =>
        if at.TruncTest? || at.TruncLock? { TruncQuietLands(fs, rest, name, flags, at); }
        else { MakeQuietLands(fs, rest, name, flags, at); }
    }
  }

  // ---------------------------------------------------------------- the open-file table

  lemma TableLands(fs: FS, rest: set<(int, int)>, n: int, off: nat, at: TablePC)
    requires Ready(fs, rest, InTable(n, off, at))
    ensures Lands(fs, rest, InTable(n, off, at), DoTable(fs, n, off, at))
  {
    hide Slot, Content, EntryNum, Exclusive, NumsUnique, HandlesSane, RootOk;
    var p := InTable(n, off, at);
    var e := DoTable(fs, n, off, at);
    assert rest + EmptyingAt(p) == rest == rest + EmptyingAt(e.pc);
    if at.CountHeld? {
      EntryKeepsWhole(fs, rest, Tables.Opened(fs, at.h, n, off), at.h);
    } else {
      QuietLands(fs, rest, p, e);
    }
  }

  lemma CloseLands(fs: FS, rest: set<(int, int)>, h: int, at: ClosePC)
    requires Ready(fs, rest, InClose(h, at))
    ensures Lands(fs, rest, InClose(h, at), DoClose(fs, h, at))
  {
    hide Slot, Content, EntryNum, Exclusive, NumsUnique, RootOk;
    var p := InClose(h, at);
    var e := DoClose(fs, h, at);
    assert rest + EmptyingAt(p) == rest == rest + EmptyingAt(e.pc);
    if at.CloseCountHeld? {
      EntryKeepsWhole(fs, rest, Tables.Closed(fs, h), h);
    } else {
      QuietLands(fs, rest, p, e);
    }
  }

  // ---------------------------------------------------------------- transfers

  /** A transfer's block lies within the block map when there is something left to write. */
  lemma BlockInMap(job: Job, x: Xfer)
    requires XferRange(job, x) && job.WriteJob? && x.moved < x.total
    ensures AtBlock(x) < MAX_FILE_BLOCKS && DataSlot(AtBlock(x)) < N_SLOTS
    ensures (x.o + x.moved) % BLOCK_SIZE + CopySize(x) <= BLOCK_SIZE && 0 < CopySize(x) <= x.total - x.moved
  {
  }

  lemma MissingIsEmpty(fs: FS, x: Xfer)
    requires MissingSlot(fs, x).Some?
    ensures Slot(fs, x.n, MissingSlot(fs, x).value) == NONE
    ensures MissingSlot(fs, x).value > INDEX_SLOT ==> Slot(fs, x.n, INDEX_SLOT) != NONE
  {
    hide Slot;
  }

  lemma StartLands(fs: FS, rest: set<(int, int)>, job: Job, rw: RwPC)
    requires Ready(fs, rest, InRw(job, rw)) && (rw.Start? || rw.LockIno? || rw.Plan? || rw.RwLeave? || rw.RwLeaveIno?)
    ensures Quiet(fs, InRw(job, rw), DoRw(fs, job, rw))
    ensures Lands(fs, rest, InRw(job, rw), DoRw(fs, job, rw))
  {
    hide Slot, Content, EntryNum, Exclusive, NumsUnique, RootOk, MissingSlot;
    var p := InRw(job, rw);
    var e := DoRw(fs, job, rw);
    assert rest + EmptyingAt(p) == rest == rest + EmptyingAt(e.pc);
    assert InTableOfHandles(fs, fs.handles[job.h].inum);
    QuietLands(fs, rest, p, e);
  }

  lemma AllocLands(fs: FS, rest: set<(int, int)>, job: Job, rw: RwPC)
    requires Ready(fs, rest, InRw(job, rw)) && (rw.AllocScan? || rw.AllocHeld?)
    ensures Lands(fs, rest, InRw(job, rw), DoRw(fs, job, rw))
  {
    hide Slot, Content, EntryNum, Exclusive, NumsUnique, RootOk;
    var p := InRw(job, rw);
    var e := DoRw(fs, job, rw);
    assert rest + EmptyingAt(p) == rest == rest + EmptyingAt(e.pc);
    if rw.AllocHeld? && !fs.blockTaken[rw.j] {
      Taking(fs, rest, rw.j);
    } else {
      QuietLands(fs, rest, p, e);
    }
  }

  lemma HasBlockLands(fs: FS, rest: set<(int, int)>, job: Job, x: Xfer, s: nat, b: nat)
    requires Ready(fs, rest, InRw(job, HasBlock(x, s, b)))
    ensures Lands(fs, rest, InRw(job, HasBlock(x, s, b)), DoRw(fs, job, HasBlock(x, s, b)))
  {
    hide Slot, Content, EntryNum, Exclusive, NumsUnique, RootOk, FillSlot, HandlesSane, Whole;
    var p := InRw(job, HasBlock(x, s, b));
    var e := DoRw(fs, job, HasBlock(x, s, b));
    assert rest + EmptyingAt(p) == rest == rest + EmptyingAt(e.pc);
    HeldFileIsClear(rest, p, x.n);
    MissingIsEmpty(fs, x);
    Filling(fs, rest, x.n, s, b);
    RootsStay(fs, rest, e.fs, rest);
    WholeIsFile(fs, e.fs, rest, x.n);
  }

  lemma WholeIsFile(fs: FS, fs': FS, X: set<(int, int)>, n: int)
    requires Whole(fs', X) && IsFile(fs, n) && fs'.inodeTaken == fs.inodeTaken
    ensures IsFile(fs', n)
  {
  }

  /** The next step of the loop copies bytes. */
  ghost predicate CopiesNext(fs: FS, job: Job, x: Xfer) {
    && x.moved < x.total && ValidBlock(BlockNo(fs, x.n, AtBlock(x)))
    && (job.WriteJob? ==> MissingSlot(fs, x).None?)
  }

  lemma WriteLands(fs: FS, rest: set<(int, int)>, job: Job, x: Xfer)
    requires Ready(fs, rest, InRw(job, Loop(x))) && CopiesNext(fs, job, x) && job.WriteJob?
    ensures var e := DoLoop(fs, job, x);
            var off := fs.handles[job.h].offset;
            && (x.o + x.moved) % BLOCK_SIZE + CopySize(x) <= BLOCK_SIZE && 0 < CopySize(x) <= x.total - x.moved
            && e.fs == Copied(fs, job.h, off / BLOCK_SIZE, job.buf[x.moved..x.moved + CopySize(x)])
            && e.pc == InRw(job, Loop(x.(moved := x.moved + CopySize(x))))
    ensures Lands(fs, rest, InRw(job, Loop(x)), DoLoop(fs, job, x))
  {
    hide Slot, Content, EntryNum, Exclusive, NumsUnique, RootOk, HandlesSane, Copied, MissingSlot, CopySize, Whole;
    var p := InRw(job, Loop(x));
    var e := DoLoop(fs, job, x);
    assert rest + EmptyingAt(p) == rest == rest + EmptyingAt(e.pc);
    HeldFileIsClear(rest, p, x.n);
    BlockInMap(job, x);
    Copying(fs, rest, job.h, x.n, job.buf[x.moved..x.moved + CopySize(x)]);
    RootsStay(fs, rest, e.fs, rest);
    WholeIsFile(fs, e.fs, rest, x.n);
  }

  lemma ReadLands(fs: FS, rest: set<(int, int)>, job: Job, x: Xfer)
    requires Ready(fs, rest, InRw(job, Loop(x))) && CopiesNext(fs, job, x) && job.ReadJob?
    ensures DoLoop(fs, job, x).fs == MovedOn(fs, job.h, CopySize(x))
    ensures Lands(fs, rest, InRw(job, Loop(x)), DoLoop(fs, job, x))
  {
    hide Slot, Content, EntryNum, Exclusive, NumsUnique, RootOk, HandlesSane, Block, Whole;
    var p := InRw(job, Loop(x));
    var e := DoLoop(fs, job, x);
    assert rest + EmptyingAt(p) == rest == rest + EmptyingAt(e.pc);
    Moving(fs, rest, job.h, CopySize(x));
    RootsStay(fs, rest, e.fs, rest);
  }

  lemma LoopQuietLands(fs: FS, rest: set<(int, int)>, job: Job, x: Xfer)
    requires Ready(fs, rest, InRw(job, Loop(x))) && !CopiesNext(fs, job, x)
    ensures Quiet(fs, InRw(job, Loop(x)), DoLoop(fs, job, x))
    ensures Lands(fs, rest, InRw(job, Loop(x)), DoLoop(fs, job, x))
  {
    hide Slot, Content, EntryNum, Exclusive, NumsUnique, RootOk, HandlesSane, Copied, CopySize, Whole;
    var p := InRw(job, Loop(x));
    var e := DoLoop(fs, job, x);
    assert rest + EmptyingAt(p) == rest == rest + EmptyingAt(e.pc);
    if job.WriteJob? && x.moved < x.total { BlockInMap(job, x); }
    QuietLands(fs, rest, p, e);
  }

  lemma RwLands(fs: FS, rest: set<(int, int)>, job: Job, rw: RwPC)
    requires Ready(fs, rest, InRw(job, rw))
    ensures Lands(fs, rest, InRw(job, rw), DoRw(fs, job, rw))
  {
    hide Ready, Lands, DoLoop, CopiesNext;
    match rw
    case Loop(x) =>
      if !CopiesNext(fs, job, x) { LoopQuietLands(fs, rest, job, x); }
      else if job.WriteJob? { WriteLands(fs, rest, job, x); }
      else { ReadLands(fs, rest, job, x); }
    case AllocScan(x, s, j) => AllocLands(fs, rest, job, rw);
    case AllocHeld(x, s, j) => AllocLands(fs, rest, job, rw);
    case HasBlock(x, s, b) => HasBlockLands(fs, rest, job, x, s, b);
    case _ => StartLands(fs, rest, job, rw);
  }

  /** Every step of every thread finds the data whole and the thread in its next place. */
  lemma StepLands(fs: FS, rest: set<(int, int)>, p: PC)
    requires Ready(fs, rest, p)
    ensures Lands(fs, rest, p, Do(fs, p))
  {
    hide Lands, Whole, Place, OpenRange, TableRange, RwRange;
    match p
    case InOpen(name, flags, at) => OpenLands(fs, rest, name, flags, at);
    case InTable(n, off, at) => TableLands(fs, rest, n, off, at);
    case InClose(h, at) => CloseLands(fs, rest, h, at);
    case InRw(job, rw) => RwLands(fs, rest, job, rw);
  }
}
