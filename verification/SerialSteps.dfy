/** One step of one thread, seen by the specification. */
module SerialSteps {
  import opened Options
  import opened Config
  import opened Bytes
  import opened Disk
  import opened Directory
  import opened Ownership
  import opened Invariant
  import opened Growth
  import opened Transfer
  import opened ReadLoop
  import opened Truncation
  import opened Opening
  import opened Interleaving
  import opened Deadlock
  import opened Safety
  import opened SharedData
  import opened SharedTables
  import opened SharedSteps
  import opened SharedCalm
  import opened SharedContents
  import opened Aside
  import opened Serial
  import Tables

  // ---------------------------------------------------------------- the tables after a step

  /** The step gives back file n. */
  predicate Drops(p: PC, n: int) {
    p.InOpen? && p.at.Delete? && p.at.n == n
  }

  /** The step fills open-file entry h. */
  predicate Enters(p: PC, h: int) {
    p.InTable? && p.table.CountHeld? && p.table.h == h
  }

  /** Handles stay but the one moved or entered; files stay but the one given back. */
  ghost predicate TablesAfter(fs: FS, p: PC, fs': FS) {
    && (forall h :: ValidHandle(h) && !MovesHandle(p, h) && !Enters(p, h) ==> fs'.handles[h] == fs.handles[h])
    && (forall n :: IsInum(n) && !Drops(p, n) ==> fs.inodeTaken[n] ==> fs'.inodeTaken[n])
  }

  lemma OpenTables(fs: FS, name: CString, flags: Flags, at: OpenPC)
    requires name != [] && OpenRange(at) && RootOk(fs)
    ensures TablesAfter(fs, InOpen(name, flags, at), DoOpen(fs, name, flags, at).fs)
  {
    hide Slot, Content, EntryNum, Answers, RootOk, StoredName, EncodeInt;
  }

  lemma RwTables(fs: FS, job: Job, rw: RwPC)
    requires RwRange(job, rw)
    ensures TablesAfter(fs, InRw(job, rw), DoRw(fs, job, rw).fs)
  {
    hide Slot, EncodeInt, DoLoop, MissingSlot;
    match rw
    case Loop(x) => LoopTables(fs, job, x);
    case _ =>
  }

  lemma LoopTables(fs: FS, job: Job, x: Xfer)
    requires ValidHandle(job.h) && XferRange(job, x)
    ensures TablesAfter(fs, InRw(job, Loop(x)), DoLoop(fs, job, x).fs)
  {
    hide Slot, MissingSlot;
  }

  lemma StepTables(fs: FS, p: PC)
    requires InRange(p) && RootOk(fs) && !p.Idle?
    ensures TablesAfter(fs, p, Do(fs, p).fs)
  {
    hide RootOk, TablesAfter, RwRange, OpenRange;
    match p
    case InOpen(name, flags, at) => OpenTables(fs, name, flags, at);
    case InTable(n, off, at) => EntryTables(fs, p);
    case InClose(h, at) => EntryTables(fs, p);
    case InRw(job, rw) => RwTables(fs, job, rw);
  }

  lemma EntryTables(fs: FS, p: PC)
    requires InRange(p) && RootOk(fs) && (p.InTable? || p.InClose?)
    ensures TablesAfter(fs, p, Do(fs, p).fs)
  {
    hide RootOk;
  }

  // ---------------------------------------------------------------- the specification after a step

  function SpecAfter(spec: Spec, e: Effect): Spec {
    if e.event.Some? then Apply(spec, e.event.value) else spec
  }

  /** What the stepping thread may rely on about files and handles that nobody is in the middle of. */
  ghost predicate Settled(cut: set<int>, fs: FS, spec: Spec, p: PC) {
    && (forall n :: IsFile(fs, n) && n !in cut && Hold(Ino(n), true) in HeldAt(p) && Moving(p).None? ==>
          Content(fs, n) == spec.files[n])
    && (p.InRw? && p.rw.Plan? && ValidHandle(p.job.h) ==>
          fs.handles[p.job.h] == spec.handles[p.job.h] && HandleFits(cut, fs, spec, fs.handles[p.job.h]))
  }

  /** The event of a transfer, if any, is legal, and the transfer stands to the specification as it should. */
  ghost predicate Accounted(spec: Spec, e: Effect) {
    && (e.event.Some? ==> Legal(spec, e.event.value))
    && (Moving(e.pc).Some? ==> XferTold(e.fs, SpecAfter(spec, e), e.pc.job, Moving(e.pc).value))
  }

  /** The event, if any, is accepted, and the thread stands to the specification as it should. */
  ghost predicate Accepts(cut: set<int>, spec: Spec, e: Effect) {
    (e.event.Some? ==> Accepted(cut, spec, e.event.value)) && Told(cut, e.fs, SpecAfter(spec, e), e.pc)
  }

  lemma OpenAccepted(cut: set<int>, fs: FS, spec: Spec, name: CString, flags: Flags, at: OpenPC)
    requires InRange(InOpen(name, flags, at)) && RootOk(fs) && OpenPlace(fs, name, at)
    requires Told(cut, fs, spec, InOpen(name, flags, at)) && Settled(cut, fs, spec, InOpen(name, flags, at))
    ensures Accepts(cut, spec, DoOpen(fs, name, flags, at))
  {
    hide Slot, EntryNum, Answers, RootOk, StoredName, EncodeInt, Fresh, Window, WrittenBlocks;
    if at.Decide? {
      assert Content(fs, at.n) == spec.files[at.n] || at.n in cut;
    } else {
      PositionKept(fs, name, flags, at);
    }
  }

  lemma PositionKept(fs: FS, name: CString, flags: Flags, at: OpenPC)
    requires name != [] && OpenRange(at) && RootOk(fs) && !at.Decide?
    ensures var e := DoOpen(fs, name, flags, at);
            && (e.event.Some? ==> e.event.value == NotOpened) && Moving(e.pc).None?
            && forall n, off: nat :: Position(e.pc, n, off) ==> off == 0 || Position(InOpen(name, flags, at), n, off)
  {
    hide Slot, EntryNum, Answers, RootOk, StoredName, EncodeInt, Content, WrittenBlocks, Patch;
  }

  lemma TableAccepted(cut: set<int>, fs: FS, spec: Spec, n: int, off: nat, at: TablePC)
    requires IsInum(n) && TableRange(at) && Told(cut, fs, spec, InTable(n, off, at))
    ensures Accepts(cut, spec, DoTable(fs, n, off, at))
    ensures at.CountHeld? ==> SpecAfter(spec, DoTable(fs, n, off, at)) == spec.(handles := spec.handles[at.h := OpenFile(n, off)])
  {
    assert Position(InTable(n, off, at), n, off);
  }

  // ---------------------------------------------------------------- transfers

  /** When a transfer ends, the specification has done all of it. */
  ghost predicate Settles(cut: set<int>, fs: FS, spec: Spec, p: PC, e: Effect) {
    Moving(p).Some? && Moving(e.pc).None? && IsInum(Moving(p).value.n) && ValidHandle(p.job.h) ==>
      && e.fs == fs && SpecAfter(spec, e).handles[p.job.h] == fs.handles[p.job.h]
      && (Moving(p).value.n !in cut ==> SpecAfter(spec, e).files[Moving(p).value.n] == Content(fs, Moving(p).value.n))
  }

  /** A thread in the middle of a transfer stays with its file and its handle until the transfer ends. */
  predicate StaysWith(p: PC, p': PC) {
    Moving(p).Some? && Moving(p').Some? ==> Moving(p').value.n == Moving(p).value.n && p'.job.h == p.job.h
  }

  lemma StepStaysWith(fs: FS, p: PC)
    requires InRange(p) && RootOk(fs) && p.InRw?
    ensures StaysWith(p, Do(fs, p).pc)
  {
    hide RootOk, Slot, MissingSlot, Copied, FillSlot;
  }

  lemma BeginsAccounted(fs: FS, spec: Spec, job: Job, rw: RwPC)
    requires Ready(fs, {}, InRw(job, rw)) && (rw.Start? || rw.LockIno? || rw.Plan? || rw.RwLeave? || rw.RwLeaveIno?)
    requires Settled({}, fs, spec, InRw(job, rw))
    ensures Accounted(spec, DoRw(fs, job, rw))
  {
    StartLands(fs, {}, job, rw);
    hide Slot, EntryNum, Exclusive, DirOk, Content, MissingSlot, Moves;
    assert {} + EmptyingAt(InRw(job, rw)) == {};
    if rw.Plan? {
      var n := rw.n;
      assert IsFile(fs, n) && Content(fs, n) == spec.files[n];
      assert Splice(spec.files[n], spec.handles[job.h].offset, []) == spec.files[n];
      assert job.WriteJob? ==> job.buf[..0] == [];
    }
  }

  lemma FinishAccounted(fs: FS, spec: Spec, job: Job, x: Xfer)
    requires ValidHandle(job.h) && XferRange(job, x) && Transferring(fs, job, x) && XferTold(fs, spec, job, x)
    requires job.ReadJob? ==> x.moved == x.total
    ensures Accounted(spec, Finish(fs, job, x))
    ensures SpecAfter(spec, Finish(fs, job, x)).files[x.n] == Content(fs, x.n)
    ensures SpecAfter(spec, Finish(fs, job, x)).handles[job.h] == fs.handles[job.h]
  {
    hide Slot, Content;
    if job.ReadJob? {
      var rest := spec.files[x.n][x.o..];
      assert x.got == rest[..x.moved];
    }
  }

  /** While part of a read is still to come, its block is there. */
  lemma ReadFindsBlock(fs: FS, x: Xfer)
    requires Exclusive(fs, {}) && AllCovered(fs) && IsFile(fs, x.n) && x.o + x.moved < fs.inodes[x.n].size
    ensures ValidBlock(BlockNo(fs, x.n, AtBlock(x)))
  {
    hide Slot;
    assert Covered(fs, x.n);
    assert AtBlock(x) * BLOCK_SIZE < fs.inodes[x.n].size;
    assert BlockNo(fs, x.n, AtBlock(x)) != NONE;
    assert Owns(fs, x.n, DataSlot(AtBlock(x)));
  }

  /** The next bytes that a read gets are those of the file. */
  lemma ReadMoves(fs: FS, job: Job, x: Xfer)
    requires Ready(fs, {}, InRw(job, Loop(x))) && Sound(fs) && job.ReadJob? && CopiesNext(fs, job, x)
    requires x.o + x.total <= |Content(fs, x.n)|
    ensures XferRange(job, x) && x.moved + CopySize(x) <= x.total
    ensures var e := DoLoop(fs, job, x);
            var (off, k) := (x.o + x.moved, CopySize(x));
            && e.event.None? && e.fs == MovedOn(fs, job.h, k)
            && e.pc == InRw(job, Loop(x.(moved := x.moved + k, got := x.got + Content(fs, x.n)[off..off + k])))
  {
    hide Slot, EntryNum, Exclusive, DirOk, Content, HandlesSane, AllCovered, Block, HeldAt, Clear, MissingSlot;
    BlockIsContent(fs, x.n, x.o + x.moved, CopySize(x));
  }

  lemma ReadTold(fs: FS, fs': FS, spec: Spec, job: Job, x: Xfer, k: nat)
    requires XferTold(fs, spec, job, x) && job.ReadJob? && x.moved + k <= x.total
    requires Content(fs', x.n) == Content(fs, x.n)
    ensures var (c, off) := (Content(fs, x.n), x.o + x.moved);
            off + k <= |c| && XferTold(fs', spec, job, x.(moved := x.moved + k, got := x.got + c[off..off + k]))
  {
    hide Content, Given;
    var c := spec.files[x.n];
    var off := x.o + x.moved;
    assert c[x.o..off + k] == c[x.o..off] + c[off..off + k];
  }

  lemma ReadGoesOn(fs: FS, spec: Spec, job: Job, x: Xfer)
    requires Ready(fs, {}, InRw(job, Loop(x))) && Sound(fs) && XferTold(fs, spec, job, x)
    requires job.ReadJob? && CopiesNext(fs, job, x)
    ensures Accounted(spec, DoLoop(fs, job, x))
  {
    hide Ready, Sound, Content, CopiesNext, Given, CopySize, DoLoop, XferRange;
    ReadMoves(fs, job, x);
    HandlesDoNotShow(fs, MovedOn(fs, job.h, CopySize(x)));
    ReadTold(fs, MovedOn(fs, job.h, CopySize(x)), spec, job, x, CopySize(x));
  }

  lemma WriteGoesOn(fs: FS, spec: Spec, job: Job, x: Xfer)
    requires Ready(fs, {}, InRw(job, Loop(x))) && Sound(fs) && XferTold(fs, spec, job, x)
    requires job.WriteJob? && CopiesNext(fs, job, x)
    ensures Accounted(spec, DoLoop(fs, job, x))
  {
    hide Slot, Exclusive, DirOk, Content, HandlesSane, AllCovered, Copied, CopySize, MissingSlot, Splice,
         Clear, XferTold, DoLoop, CopiesNext;
    var p := InRw(job, Loop(x));
    var e := DoLoop(fs, job, x);
    ToldIsInside(fs, spec, job, x);
    WriteEffect(fs, job, x);
    PieceTold(fs, e.fs, spec, job, x, CopySize(x));
  }

  lemma ToldIsInside(fs: FS, spec: Spec, job: Job, x: Xfer)
    requires XferTold(fs, spec, job, x)
    ensures Within(fs, InRw(job, Loop(x))) && XferRange(job, x)
  {
    hide Content;
  }

  lemma WriteEffect(fs: FS, job: Job, x: Xfer)
    requires Ready(fs, {}, InRw(job, Loop(x))) && Sound(fs) && Within(fs, InRw(job, Loop(x)))
    requires job.WriteJob? && CopiesNext(fs, job, x) && ValidHandle(job.h) && XferRange(job, x)
    ensures var e := DoLoop(fs, job, x);
            var k := CopySize(x);
            && x.moved + k <= x.total && e.pc == InRw(job, Loop(x.(moved := x.moved + k))) && e.event.None?
            && ContentSpliced(fs, e.fs, job, x, k)
  {
    hide Ready, Sound, Within, Lands, CopiesNext, ContentSpliced, Copied, CopySize, DoLoop;
    WriteLands(fs, {}, job, x);
    ReadyTransfers(fs, job, x);
    LandsOnFile(fs, InRw(job, Loop(x)), DoLoop(fs, job, x));
    LoopWriteHasNoEvent(fs, job, x);
    CopiedShown(fs, job, x);
    PieceIsSpliced(fs, DoLoop(fs, job, x).fs, job, x);
  }

  lemma ReadyTransfers(fs: FS, job: Job, x: Xfer)
    requires Ready(fs, {}, InRw(job, Loop(x)))
    ensures Transferring(fs, job, x)
  {
    hide Whole;
  }

  lemma LandsOnFile(fs: FS, p: PC, e: Effect)
    requires Lands(fs, {}, p, e) && Moving(e.pc).Some?
    ensures IsFile(e.fs, Moving(e.pc).value.n)
  {
    hide Whole, MissingSlot, Unowned;
  }

  ghost predicate ContentSpliced(fs: FS, fs': FS, job: Job, x: Xfer, k: nat) {
    && job.WriteJob? && x.moved + k <= |job.buf| && x.o + x.moved <= |Content(fs, x.n)|
    && Content(fs', x.n) == Splice(Content(fs, x.n), x.o + x.moved, job.buf[x.moved..x.moved + k])
  }

  lemma LoopWriteHasNoEvent(fs: FS, job: Job, x: Xfer)
    requires ValidHandle(job.h) && XferRange(job, x) && job.WriteJob? && CopiesNext(fs, job, x)
    requires fs.handles[job.h] == OpenFile(x.n, x.o + x.moved)
    ensures DoLoop(fs, job, x).event.None?
  {
    hide Slot, MissingSlot, Copied, CopySize;
  }

  lemma PieceIsSpliced(fs: FS, fs': FS, job: Job, x: Xfer)
    requires InRange(InRw(job, Loop(x))) && Within(fs, InRw(job, Loop(x))) && Shown(fs, InRw(job, Loop(x)), fs')
    requires job.WriteJob? && CopiesNext(fs, job, x) && IsFile(fs, x.n) && IsFile(fs', x.n)
    ensures ContentSpliced(fs, fs', job, x, CopySize(x))
  {
    hide Content, Slot, MissingSlot, AllCovered, Splice, CopySize;
    BlockInMap(job, x);
    assert Content(fs', x.n) == ContentAfter(fs, InRw(job, Loop(x)), x.n);
  }

  lemma PieceTold(fs: FS, fs': FS, spec: Spec, job: Job, x: Xfer, k: nat)
    requires XferTold(fs, spec, job, x) && job.WriteJob? && x.moved + k <= x.total
    requires ContentSpliced(fs, fs', job, x, k)
    ensures XferTold(fs', spec, job, x.(moved := x.moved + k))
  {
    hide Content, Splice;
    SplicePrefix(spec.files[x.n], x.o, job.buf, x.moved, k);
  }

  lemma LoopAccounted(fs: FS, spec: Spec, job: Job, x: Xfer)
    requires Ready(fs, {}, InRw(job, Loop(x))) && Sound(fs) && XferTold(fs, spec, job, x)
    ensures Accounted(spec, DoLoop(fs, job, x)) && Settles({}, fs, spec, InRw(job, Loop(x)), DoLoop(fs, job, x))
  {
    hide Slot, EntryNum, Exclusive, DirOk, Content, HandlesSane, AllCovered, Copied, CopySize, Splice,
         Accounted, Clear, MissingSlot;
    if CopiesNext(fs, job, x) {
      if job.ReadJob? { ReadGoesOn(fs, spec, job, x); } else { WriteGoesOn(fs, spec, job, x); }
    } else if job.WriteJob? && x.moved < x.total && MissingSlot(fs, x).Some? {
      AllocStarts(fs, spec, job, x);
    } else {
      if job.ReadJob? && x.moved < x.total { ReadFindsBlock(fs, x); }
      FinishAccounted(fs, spec, job, x);
    }
  }

  lemma AllocStarts(fs: FS, spec: Spec, job: Job, x: Xfer)
    requires Ready(fs, {}, InRw(job, Loop(x))) && XferTold(fs, spec, job, x)
    requires job.WriteJob? && x.moved < x.total && MissingSlot(fs, x).Some?
    ensures Accounted(spec, DoLoop(fs, job, x))
  {
    hide Slot, EntryNum, Exclusive, DirOk, Content, HandlesSane, Clear;
  }

  lemma AllocAccounted(fs: FS, spec: Spec, job: Job, rw: RwPC)
    requires Ready(fs, {}, InRw(job, rw)) && Sound(fs) && (rw.AllocScan? || rw.AllocHeld? || rw.HasBlock?)
    requires XferTold(fs, spec, job, rw.x)
    ensures Accounted(spec, DoRw(fs, job, rw)) && Settles({}, fs, spec, InRw(job, rw), DoRw(fs, job, rw))
  {
    hide Slot, EntryNum, Exclusive, DirOk, Content, HandlesSane, AllCovered, FillSlot, MissingSlot, Clear, Unowned;
    var p := InRw(job, rw);
    var e := DoRw(fs, job, rw);
    if rw.AllocScan? && rw.j >= DATA_BLOCKS {
      FinishAccounted(fs, spec, job, rw.x);
    } else {
      RwShown(fs, job, rw);
      RwLands(fs, {}, job, rw);
      assert Content(e.fs, rw.x.n) == ContentAfter(fs, p, rw.x.n);
    }
  }

  lemma RwAccounted(fs: FS, spec: Spec, job: Job, rw: RwPC)
    requires Ready(fs, {}, InRw(job, rw)) && RwRange(job, rw) && Sound(fs)
    requires Moving(InRw(job, rw)).Some? ==> XferTold(fs, spec, job, Moving(InRw(job, rw)).value)
    requires Settled({}, fs, spec, InRw(job, rw))
    ensures Accounted(spec, DoRw(fs, job, rw)) && Settles({}, fs, spec, InRw(job, rw), DoRw(fs, job, rw))
  {
    hide Ready, Settled, Accounted, XferTold, Sound, Content, SpecAfter, XferRange, DoLoop;
    match rw
    case Loop(x) => LoopAccounted(fs, spec, job, x);
    case AllocScan(x, s, j) => AllocAccounted(fs, spec, job, rw);
    case AllocHeld(x, s, j) => AllocAccounted(fs, spec, job, rw);
    case HasBlock(x, s, b) => AllocAccounted(fs, spec, job, rw);
    case _ => BeginsAccounted(fs, spec, job, rw);
  }

  // ---------------------------------------------------------------- every step

  lemma SettledWithout(cut: set<int>, fs: FS, spec: Spec, job: Job, rw: RwPC)
    requires Settled(cut, fs, spec, InRw(job, rw)) && Outside(InRw(job, rw), cut) && RwRange(job, rw)
    requires rw.Plan? ==> fs.handles[job.h].inum == rw.n
    requires ROOT_DIR_INUM !in cut && forall n :: IsInum(n) ==> !fs.inodes[n].isDir
    ensures Settled({}, Without(fs, cut), spec, InRw(job, rw))
  {
    hide Content;
    WithoutFiles(fs, cut);
    var p := InRw(job, rw);
    if TransferFile(p).Some? { WithoutContent(fs, cut, TransferFile(p).value); }
  }

  lemma ToldWithout(cut: set<int>, fs: FS, spec: Spec, p: PC)
    requires Told(cut, fs, spec, p) && Outside(p, cut)
    ensures Moving(p).Some? ==> XferTold(Without(fs, cut), spec, p.job, Moving(p).value)
  {
    hide Content, Without;
    if Moving(p).Some? { WithoutContent(fs, cut, Moving(p).value.n); }
  }

  /** The step that ends a transfer leaves the data alone. */
  lemma EndIsStill(fs: FS, job: Job, rw: RwPC)
    requires RwRange(job, rw) && Moving(InRw(job, rw)).Some? && Moving(DoRw(fs, job, rw).pc).None?
    ensures DoRw(fs, job, rw).fs == fs
  {
    hide Slot, MissingSlot, Copied, FillSlot, CopySize;
  }

  lemma RwStays(fs: FS, job: Job, rw: RwPC)
    requires RwRange(job, rw)
    ensures DoRw(fs, job, rw).pc.InRw? || DoRw(fs, job, rw).pc.Idle?
  {
    hide Slot, MissingSlot, Copied, FillSlot, CopySize;
  }

  lemma AcceptedWithout(cut: set<int>, fs: FS, spec: Spec, p: PC, e: Effect)
    requires p.InRw? && (e.pc.InRw? || e.pc.Idle?) && Outside(p, cut)
    requires Moving(p).Some? && Moving(e.pc).None? ==> e.fs == fs
    requires Accounted(spec, e.(fs := Without(e.fs, cut)))
    requires Settles({}, Without(fs, cut), spec, p, e.(fs := Without(e.fs, cut)))
    ensures Accepts(cut, spec, e) && Settles(cut, fs, spec, p, e)
  {
    hide Content, Apply;
    if Moving(p).Some? && IsInum(Moving(p).value.n) { WithoutContent(fs, cut, Moving(p).value.n); }
    if Moving(e.pc).Some? && Moving(e.pc).value.n !in cut { WithoutContent(e.fs, cut, Moving(e.pc).value.n); }
  }

  /** A transfer on a file outside cut is accounted for as it would be without the files of cut. */
  lemma RwOutside(cut: set<int>, X: set<(int, int)>, fs: FS, spec: Spec, job: Job, rw: RwPC)
    requires Ready(fs, X, InRw(job, rw)) && Spared(fs, X, cut) && Outside(InRw(job, rw), cut)
    requires RwRange(job, rw) && Told(cut, fs, spec, InRw(job, rw)) && Settled(cut, fs, spec, InRw(job, rw))
    ensures Accepts(cut, spec, DoRw(fs, job, rw)) && Settles(cut, fs, spec, InRw(job, rw), DoRw(fs, job, rw))
  {
    hide RwPlace, Exclusive, DirOk, HandlesSane, RwRange, HeldAt, Without, Sound, Settled, DoRw, Told, Accepts, Accounted,
         Settles, Moving;
    var p := InRw(job, rw);
    WithoutIsReady(fs, X, p, cut);
    PlanPlace(fs, X + EmptyingAt(p), job, rw);
    RwWithout(fs, cut, job, rw);
    SettledWithout(cut, fs, spec, job, rw);
    ToldWithout(cut, fs, spec, p);
    RwAccounted(Without(fs, cut), spec, job, rw);
    RwStays(fs, job, rw);
    if Moving(p).Some? && Moving(DoRw(fs, job, rw).pc).None? { EndIsStill(fs, job, rw); }
    AcceptedWithout(cut, fs, spec, p, DoRw(fs, job, rw));
  }

  /** Of a transfer on a file in cut the specification knows where its handle stands. */
  lemma RwInside(cut: set<int>, X: set<(int, int)>, fs: FS, spec: Spec, job: Job, rw: RwPC)
    requires Ready(fs, X, InRw(job, rw)) && TransferFile(InRw(job, rw)).Some? && TransferFile(InRw(job, rw)).value in cut
    requires RwRange(job, rw) && Told(cut, fs, spec, InRw(job, rw)) && Settled(cut, fs, spec, InRw(job, rw))
    ensures Accepts(cut, spec, DoRw(fs, job, rw)) && Settles(cut, fs, spec, InRw(job, rw), DoRw(fs, job, rw))
  {
    hide Whole, Settled, Told, Accepts, Settles, RwRange, MissingSlot, Unowned, XferRange, DoLoop, Clear, HeldAt, FillSlot;
    assert X + EmptyingAt(InRw(job, rw)) == X;
    match rw
    case Plan(n) => PlanInside(cut, X, fs, spec, job, n);
    case Loop(x) => LoopInside(cut, X, fs, spec, job, x);
    case _ => AllocInside(cut, X, fs, spec, job, rw);
  }

  lemma PlanInside(cut: set<int>, X: set<(int, int)>, fs: FS, spec: Spec, job: Job, n: int)
    requires RwRange(job, Plan(n)) && n in cut && RwPlace(fs, X, job, Plan(n)) && Settled(cut, fs, spec, InRw(job, Plan(n)))
    ensures Accepts(cut, spec, DoRw(fs, job, Plan(n)))
    ensures Settles(cut, fs, spec, InRw(job, Plan(n)), DoRw(fs, job, Plan(n)))
  {
    hide Content, HeldAt, HandleFits;
  }

  lemma LoopInside(cut: set<int>, X: set<(int, int)>, fs: FS, spec: Spec, job: Job, x: Xfer)
    requires RwRange(job, Loop(x)) && x.n in cut && Told(cut, fs, spec, InRw(job, Loop(x)))
    requires Transferring(fs, job, x)
    ensures Accepts(cut, spec, DoLoop(fs, job, x)) && Settles(cut, fs, spec, InRw(job, Loop(x)), DoLoop(fs, job, x))
  {
    hide Slot, Content, MissingSlot, Copied, Block, Splice;
  }

  lemma AllocInside(cut: set<int>, X: set<(int, int)>, fs: FS, spec: Spec, job: Job, rw: RwPC)
    requires RwRange(job, rw) && !rw.Loop? && !rw.Plan? && Told(cut, fs, spec, InRw(job, rw))
    requires TransferFile(InRw(job, rw)).Some? && TransferFile(InRw(job, rw)).value in cut && RwPlace(fs, X, job, rw)
    ensures Accepts(cut, spec, DoRw(fs, job, rw)) && Settles(cut, fs, spec, InRw(job, rw), DoRw(fs, job, rw))
  {
    hide Slot, Content, MissingSlot, FillSlot, Unowned, Splice;
  }

  /** Every recorded operation on a file outside cut is legal, and after every step the thread stands to the specification
      as it should, whatever is truncated in cut. */
  lemma StepAccepted(cut: set<int>, X: set<(int, int)>, fs: FS, spec: Spec, p: PC)
    requires Ready(fs, X, p) && Spared(fs, X, cut) && InRange(p) && RootOk(fs) && !p.Idle?
    requires CutsOnly(p, cut) && Told(cut, fs, spec, p) && Settled(cut, fs, spec, p)
    ensures Accepts(cut, spec, Do(fs, p)) && Settles(cut, fs, spec, p, Do(fs, p))
  {
    hide RootOk, Whole, Settled, Accepts, Told, RwRange, OpenRange, Content, TableRange, OpenPlace, RwPlace, HeldAt, Spared;
    match p
    case InOpen(name, flags, at) => OpenAccepted(cut, fs, spec, name, flags, at);
    case InTable(n, off, at) => TableAccepted(cut, fs, spec, n, off, at);
    case InClose(h, at) => CloseAccepted(cut, fs, spec, h, at);
    case InRw(job, rw) =>
      if Outside(p, cut) { RwOutside(cut, X, fs, spec, job, rw); } else { RwInside(cut, X, fs, spec, job, rw); }
  }

  lemma CloseAccepted(cut: set<int>, fs: FS, spec: Spec, h: int, at: ClosePC)
    requires ValidHandle(h)
    ensures Accepts(cut, spec, DoClose(fs, h, at))
  {
  }

  /** The file and the handle of an event are those of the thread, and files only grow. */
  ghost predicate SpecLocal(spec: Spec, spec': Spec, p: PC) {
    && (forall m :: IsInum(m) && !MovesFile(p, m) ==> spec'.files[m] == spec.files[m])
    && (forall m :: IsInum(m) ==> |spec'.files[m]| >= |spec.files[m]|)
    && (forall h :: ValidHandle(h) && !MovesHandle(p, h) && !Enters(p, h) ==> spec'.handles[h] == spec.handles[h])
  }

  /** What an event is about. */
  ghost predicate EventIsOwn(p: PC, e: Effect) {
    e.event.Some? ==>
      match e.event.value
      case Handed(h, n, off) => p.InTable? && p.table.CountHeld? && p.table.h == h && p.n == n && p.off == off
      case NotOpened => p.InOpen? || p.InTable?
      case Declined(h) => p.InRw? && p.job.h == h && p.rw.Plan?
      case Shut(h, ok) => p.InClose? && p.h == h
      case _ => Moving(p).Some? && e.event.value.h == p.job.h
  }

  lemma RwEventIsOwn(fs: FS, job: Job, rw: RwPC)
    requires RwRange(job, rw)
    ensures EventIsOwn(InRw(job, rw), DoRw(fs, job, rw))
  {
    hide Slot, MissingSlot, Copied, FillSlot;
  }

  lemma StepEventIsOwn(fs: FS, p: PC)
    requires InRange(p) && RootOk(fs) && !p.Idle?
    ensures EventIsOwn(p, Do(fs, p))
  {
    hide RootOk, RwRange, DoRw, EventIsOwn;
    match p
    case InOpen(name, flags, at) => OpenHasNoEvent(fs, name, flags, at);
    case InTable(n, off, at) => TableEventIsOwn(fs, n, off, at);
    case InClose(h, at) => CloseHasNoEvent(fs, h, at);
    case InRw(job, rw) => RwEventIsOwn(fs, job, rw);
  }

  lemma OpenHasNoEvent(fs: FS, name: CString, flags: Flags, at: OpenPC)
    requires name != [] && OpenRange(at) && RootOk(fs)
    ensures EventIsOwn(InOpen(name, flags, at), DoOpen(fs, name, flags, at))
  {
    hide Slot, EntryNum, Answers, RootOk, StoredName, EncodeInt, Content;
  }

  lemma TableEventIsOwn(fs: FS, n: int, off: nat, at: TablePC)
    requires TableRange(at)
    ensures EventIsOwn(InTable(n, off, at), DoTable(fs, n, off, at))
  {
  }

  lemma CloseHasNoEvent(fs: FS, h: int, at: ClosePC)
    requires ValidHandle(h)
    ensures EventIsOwn(InClose(h, at), DoClose(fs, h, at))
  {
  }

  lemma StepIsLocal(cut: set<int>, fs: FS, spec: Spec, p: PC)
    requires InRange(p) && RootOk(fs) && !p.Idle? && Told(cut, fs, spec, p)
    ensures SpecLocal(spec, SpecAfter(spec, Do(fs, p)), p)
  {
    hide Do, RootOk, InRange, Content;
    StepEventIsOwn(fs, p);
  }
}
