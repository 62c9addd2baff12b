/** No step of a thread disturbs what the other threads rely on. */
module SharedCalm {
  import opened Options
  import opened Config
  import opened Bytes
  import opened Disk
  import opened Directory
  import opened Ownership
  import opened Invariant
  import opened Growth
  import opened ReadLoop
  import opened Truncation
  import opened Opening
  import opened Interleaving
  import opened Deadlock
  import opened Safety
  import opened SharedData
  import opened SharedTransfer
  import opened SharedTruncation
  import opened SharedTables
  import opened SharedSteps
  import Tables

  /** A step disturbs thread q in nothing it relies on. */
  ghost predicate Calm(fs: FS, rest: set<(int, int)>, p: PC, e: Effect, q: PC) {
    Undisturbed(fs, rest + EmptyingAt(p), e.fs, rest + EmptyingAt(e.pc), q)
  }

  /** Whoever holds a file exclusively, nobody else relies on its slots, makes it, or is emptying them. */
  lemma MineAlone(fs: FS, X: set<(int, int)>, p: PC, q: PC, n: int)
    requires Whole(fs, X) && Beside(fs, X, p, q) && Hold(Ino(n), true) in HeldAt(p)
    requires Using(p) == Some(n) || Making(p) == Some(n) || (ValidInum(n) && !fs.inodeTaken[n])
    ensures !MapsMatter(q, n) && Making(q) != Some(n)
  {
    RefersToFiles(fs, X, q);
    hide Whole, Place, Compatible, HeldAt, MapsMatter, Making, Using, Root, EntryNum, RootOk, InRange;
    MapNotShared(p, q, n);
  }

  lemma TruncatedFile(fs: FS, name: CString, at: OpenPC)
    requires OpenPlace(fs, name, at) && OpenRange(at) && (at.TruncHeld? || at.TruncClear? || at.TruncEnd?)
    ensures IsFile(fs, at.n) && IsInum(at.n) && (at.TruncHeld? ==> at.b == Slot(fs, at.n, at.s))
    ensures Using(InOpen(name, Flags(false, false, false), at)) == Some(at.n)
  {
    hide Slot, Root, Find, RootOk, ToFree;
  }

  lemma TruncCalm(fs: FS, rest: set<(int, int)>, name: CString, flags: Flags, at: OpenPC, q: PC)
    requires Ready(fs, rest, InOpen(name, flags, at)) && (at.TruncHeld? || at.TruncClear? || at.TruncEnd?)
    requires Beside(fs, rest + EmptyingAt(InOpen(name, flags, at)), InOpen(name, flags, at), q)
    ensures Calm(fs, rest, InOpen(name, flags, at), DoOpen(fs, name, flags, at), q)
  {
    hide Slot, Exclusive, DirOk, HandlesSane, Window, MapsFree, Compatible, Making, Undisturbed, MapsMatter, Apart, OpenPlace,
         RootOk;
    var p := InOpen(name, flags, at);
    ReadyIsOk(fs, rest, p);
    var e := DoOpen(fs, name, flags, at);
    TruncatedFile(fs, name, at);
    MineAlone(fs, rest + EmptyingAt(p), p, q, at.n);
    HeldFileIsClear(rest, p, at.n);
    if at.TruncHeld? {
      assert rest + EmptyingAt(p) == rest;
      if ValidBlock(at.b) { FreeingDisturbsNobody(fs, rest, at.n, at.s, q); } else { QuietDisturbsNobody(fs, rest, p, q, e); }
    } else if at.TruncClear? {
      assert rest + EmptyingAt(e.pc) == rest;
      ClearingDisturbsNobody(fs, rest, at.n, at.s, q);
    } else {
      assert rest + EmptyingAt(p) == rest == rest + EmptyingAt(e.pc);
      ResizingDisturbsNobody(fs, rest, at.n, q);
    }
  }

  lemma MakeCalm(fs: FS, rest: set<(int, int)>, name: CString, flags: Flags, at: OpenPC, q: PC)
    requires Ready(fs, rest, InOpen(name, flags, at)) && (at.MakeHeld? || at.AddHeld? || at.Delete?)
    requires Beside(fs, rest, InOpen(name, flags, at), q)
    ensures Calm(fs, rest, InOpen(name, flags, at), DoOpen(fs, name, flags, at), q)
  {
    hide Slot, Content, EntryNum, Exclusive, NumsUnique, HandlesSane, MapsFree, Undisturbed, MapsMatter,
         Fresh, NoName;
    var p := InOpen(name, flags, at);
    var e := DoOpen(fs, name, flags, at);
    assert rest + EmptyingAt(p) == rest == rest + EmptyingAt(e.pc);
    if at.MakeHeld? && !fs.inodeTaken[at.i] {
      MineAlone(fs, rest, p, q, at.i);
      assert at.i != ROOT_DIR_INUM;
      CreatingDisturbsNobody(fs, rest, at.i, q);
    } else if at.AddHeld? && EntryNum(Root(fs), at.i) == NONE {
      assert Conflict(Hold(OpenLock, true), Hold(OpenLock, true));
      LinkingDisturbsNobody(fs, rest, at.i, at.n, name, q);
    } else if at.Delete? {
      MineAlone(fs, rest, p, q, at.n);
      DroppingDisturbsNobody(fs, rest, at.n, q);
    } else {
      QuietDisturbsNobody(fs, rest, p, q, e);
    }
  }

  lemma OpenCalm(fs: FS, rest: set<(int, int)>, name: CString, flags: Flags, at: OpenPC, q: PC)
    requires Ready(fs, rest, InOpen(name, flags, at))
    requires Beside(fs, rest + EmptyingAt(InOpen(name, flags, at)), InOpen(name, flags, at), q)
    ensures Calm(fs, rest, InOpen(name, flags, at), DoOpen(fs, name, flags, at), q)
  {
    hide Undisturbed, Beside, Place, Exclusive, HandlesSane, NumsUnique, Slot, Content, EntryNum, Clear;
    var p := InOpen(name, flags, at);
    if at.TruncHeld? || at.TruncClear? || at.TruncEnd? { TruncCalm(fs, rest, name, flags, at, q); }
    else if at.MakeHeld? || at.AddHeld? || at.Delete? {
      assert rest + EmptyingAt(p) == rest;
      MakeCalm(fs, rest, name, flags, at, q);
    } else {
      OpenElseQuiet(fs, name, flags, at);
      QuietDisturbsNobody(fs, rest, p, q, DoOpen(fs, name, flags, at));
    }
  }

  lemma OpenElseQuiet(fs: FS, name: CString, flags: Flags, at: OpenPC)
    requires name != [] && OpenRange(at) && RootOk(fs)
    requires !(at.TruncHeld? || at.TruncClear? || at.TruncEnd? || at.MakeHeld? || at.AddHeld? || at.Delete?)
    ensures Quiet(fs, InOpen(name, flags, at), DoOpen(fs, name, flags, at))
  {
    hide Slot, Content, EntryNum, Answers, RootOk;
  }

  lemma TableCalm(fs: FS, rest: set<(int, int)>, n: int, off: nat, at: TablePC, q: PC)
    requires Ready(fs, rest, InTable(n, off, at)) && Beside(fs, rest, InTable(n, off, at), q)
    ensures Calm(fs, rest, InTable(n, off, at), DoTable(fs, n, off, at), q)
  {
    hide Slot, Content, EntryNum, Exclusive, NumsUnique, HandlesSane, RootOk, Undisturbed, MapsFree;
    var p := InTable(n, off, at);
    var e := DoTable(fs, n, off, at);
    assert rest + EmptyingAt(p) == rest == rest + EmptyingAt(e.pc);
    if at.CountHeld? {
      EntryNotShared(p, q, at.h);
      EntryDisturbsNobody(fs, rest, e.fs, at.h, q);
    } else {
      QuietDisturbsNobody(fs, rest, p, q, e);
    }
  }

  lemma CloseCalm(fs: FS, rest: set<(int, int)>, h: int, at: ClosePC, q: PC)
    requires Ready(fs, rest, InClose(h, at)) && Beside(fs, rest, InClose(h, at), q)
    ensures Calm(fs, rest, InClose(h, at), DoClose(fs, h, at), q)
  {
    RefersToFiles(fs, rest, q);
    hide Slot, Content, EntryNum, Exclusive, NumsUnique, RootOk, Undisturbed, MapsFree;
    var p := InClose(h, at);
    var e := DoClose(fs, h, at);
    assert rest + EmptyingAt(p) == rest == rest + EmptyingAt(e.pc);
    if at.CloseCountHeld? {
      assert Conflict(Hold(Entry(h), false), Hold(Entry(h), true));
      EntryDisturbsNobody(fs, rest, e.fs, h, q);
    } else {
      QuietDisturbsNobody(fs, rest, p, q, e);
    }
  }

  lemma RwCalm(fs: FS, rest: set<(int, int)>, job: Job, rw: RwPC, q: PC)
    requires RwRange(job, rw) && Ready(fs, rest, InRw(job, rw)) && Beside(fs, rest, InRw(job, rw), q)
    ensures Calm(fs, rest, InRw(job, rw), DoRw(fs, job, rw), q)
  {
    hide Ready, Beside, Calm, DoLoop, CopiesNext, RootOk, Lands;
    match rw
    case Loop(x) =>
      if !CopiesNext(fs, job, x) {
        LoopQuietLands(fs, rest, job, x);
        CalmIfQuiet(fs, rest, InRw(job, rw), DoLoop(fs, job, x), q);
      } else { CopyCalm(fs, rest, job, x, q); }
    case AllocScan(x, s, j) => AllocCalm(fs, rest, job, rw, q);
    case AllocHeld(x, s, j) => AllocCalm(fs, rest, job, rw, q);
    case HasBlock(x, s, b) => HasBlockCalm(fs, rest, job, x, s, b, q);
    case _ =>
      StartLands(fs, rest, job, rw);
      CalmIfQuiet(fs, rest, InRw(job, rw), DoRw(fs, job, rw), q);
  }

  lemma CalmIfQuiet(fs: FS, rest: set<(int, int)>, p: PC, e: Effect, q: PC)
    requires Quiet(fs, p, e)
    ensures Calm(fs, rest, p, e, q)
  {
    QuietDisturbsNobody(fs, rest, p, q, e);
  }

  lemma CopyCalm(fs: FS, rest: set<(int, int)>, job: Job, x: Xfer, q: PC)
    requires Ready(fs, rest, InRw(job, Loop(x))) && Beside(fs, rest, InRw(job, Loop(x)), q) && CopiesNext(fs, job, x)
    ensures Calm(fs, rest, InRw(job, Loop(x)), DoLoop(fs, job, x), q)
  {
    var p := InRw(job, Loop(x));
    hide Slot, Content, EntryNum, Exclusive, NumsUnique, HandlesSane, RootOk, Undisturbed, MapsMatter,
         DoLoop, CopySize, MissingSlot, MapsFree;
    assert rest + EmptyingAt(p) == rest;
    MineAlone(fs, rest, p, q, x.n);
    EntryNotShared(p, q, job.h);
    HeldFileIsClear(rest, p, x.n);
    if job.WriteJob? { WriteCalm(fs, rest, job, x, q); } else { ReadCalm(fs, rest, job, x, q); }
  }

  lemma WriteCalm(fs: FS, rest: set<(int, int)>, job: Job, x: Xfer, q: PC)
    requires Ready(fs, rest, InRw(job, Loop(x))) && CopiesNext(fs, job, x) && job.WriteJob? && (forall r :: (x.n, r) !in rest)
    requires MapsFree(rest, q) && !MapsMatter(q, x.n) && Making(q) != Some(x.n) && Hold(Entry(job.h), true) !in HeldAt(q)
    ensures Calm(fs, rest, InRw(job, Loop(x)), DoLoop(fs, job, x), q)
  {
    hide Slot, Content, EntryNum, Exclusive, NumsUnique, RootOk, Undisturbed, MapsMatter, DoLoop, CopySize,
         MissingSlot, MapsFree, HeldAt, Whole, Copied, Clear;
    var p := InRw(job, Loop(x));
    assert rest + EmptyingAt(p) == rest;
    WriteLands(fs, rest, job, x);
    CopyingDisturbsNobody(fs, rest, job.h, x.n, job.buf[x.moved..x.moved + CopySize(x)], q);
  }

  lemma ReadCalm(fs: FS, rest: set<(int, int)>, job: Job, x: Xfer, q: PC)
    requires Ready(fs, rest, InRw(job, Loop(x))) && CopiesNext(fs, job, x) && job.ReadJob? && InRange(q)
    requires MapsFree(rest, q) && Hold(Entry(job.h), true) !in HeldAt(q)
    ensures Calm(fs, rest, InRw(job, Loop(x)), DoLoop(fs, job, x), q)
  {
    hide Slot, Content, EntryNum, Exclusive, NumsUnique, RootOk, Undisturbed, CopySize, MapsFree, HeldAt,
         Whole, Clear, Block;
    var p := InRw(job, Loop(x));
    assert rest + EmptyingAt(p) == rest;
    ReadLands(fs, rest, job, x);
    MovingDisturbsNobody(fs, rest, job.h, CopySize(x), q);
  }

  lemma AllocCalm(fs: FS, rest: set<(int, int)>, job: Job, rw: RwPC, q: PC)
    requires Ready(fs, rest, InRw(job, rw)) && (rw.AllocScan? || rw.AllocHeld?)
    ensures Calm(fs, rest, InRw(job, rw), DoRw(fs, job, rw), q)
  {
    hide Slot, Content, EntryNum, Exclusive, NumsUnique, RootOk, Undisturbed;
    var p := InRw(job, rw);
    var e := DoRw(fs, job, rw);
    assert rest + EmptyingAt(p) == rest == rest + EmptyingAt(e.pc);
    if rw.AllocHeld? && !fs.blockTaken[rw.j] {
      TakingDisturbsNobody(fs, rest, rw.j, q);
    } else {
      QuietDisturbsNobody(fs, rest, p, q, e);
    }
  }

  lemma HasBlockCalm(fs: FS, rest: set<(int, int)>, job: Job, x: Xfer, s: nat, b: nat, q: PC)
    requires Ready(fs, rest, InRw(job, HasBlock(x, s, b))) && Beside(fs, rest, InRw(job, HasBlock(x, s, b)), q)
    ensures Calm(fs, rest, InRw(job, HasBlock(x, s, b)), DoRw(fs, job, HasBlock(x, s, b)), q)
  {
    hide Slot, Content, EntryNum, Exclusive, NumsUnique, RootOk, FillSlot, HandlesSane, Undisturbed,
         MapsFree, MapsMatter;
    var p := InRw(job, HasBlock(x, s, b));
    var e := DoRw(fs, job, HasBlock(x, s, b));
    assert rest + EmptyingAt(p) == rest == rest + EmptyingAt(e.pc);
    MineAlone(fs, rest, p, q, x.n);
    HeldFileIsClear(rest, p, x.n);
    MissingIsEmpty(fs, x);
    FillingDisturbsNobody(fs, rest, x.n, s, b, q);
  }

  lemma ReadyIsOk(fs: FS, rest: set<(int, int)>, p: PC)
    requires Ready(fs, rest, p)
    ensures InRange(p) && RootOk(fs)
  {
  }

  /** No step of a thread disturbs any other thread, and it stays apart from all of them. */
  lemma StepCalm(fs: FS, rest: set<(int, int)>, p: PC, q: PC)
    requires Ready(fs, rest, p) && Beside(fs, rest + EmptyingAt(p), p, q)
    ensures Calm(fs, rest, p, Do(fs, p), q)
    ensures Apart(Do(fs, p).pc, q) && Apart(q, Do(fs, p).pc)
  {
    hide Calm, Whole, Place, OpenRange, TableRange, RwRange, Apart, MapsFree, Compatible, Clear, Follows, InRange;
    ReadyIsOk(fs, rest, p);
    StepLands(fs, rest, p);
    ApartKept(fs, rest + EmptyingAt(p), p, Do(fs, p).pc, q);
    match p
    case InOpen(name, flags, at) => OpenCalm(fs, rest, name, flags, at, q);
    case InTable(n, off, at) =>
      assert rest + EmptyingAt(p) == rest;
      TableCalm(fs, rest, n, off, at, q);
    case InClose(h, at) =>
      assert rest + EmptyingAt(p) == rest;
      CloseCalm(fs, rest, h, at, q);
    case InRw(job, rw) =>
      assert rest + EmptyingAt(p) == rest;
      RwCalm(fs, rest, job, rw, q);
  }
}
