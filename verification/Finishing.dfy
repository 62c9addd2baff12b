/** Every operation of a run comes to an end, and puts its result on record exactly once. */
module Finishing {
  import opened Options
  import opened Config
  import opened Bytes
  import opened Disk
  import opened Directory
  import opened Ownership
  import opened Invariant
  import opened Growth
  import opened Transfer
  import opened ReadLoop
  import opened Truncation
  import opened Opening
  import opened Interleaving
  import opened Deadlock
  import opened Safety
  import opened SharedData
  import opened SharedSteps
  import opened SharedCalm
  import opened Reachable
  import opened Guarantees
  import opened Record
  import opened Answered
  import Tables

  // ---------------------------------------------------------------- one result for each operation

  /** The result is on record, and the thread has only locks to release. */
  predicate AfterReport(p: PC) {
    || (p.InTable? && p.table.Unlock?) || (p.InClose? && p.close.CloseUnlock?)
    || (p.InRw? && (p.rw.RwLeave? || p.rw.RwLeaveIno?))
  }

  /** A step puts a result on record exactly when it takes the operation to its end, or to where only locks are left to release. */
  lemma StepReports(fs: FS, p: PC)
    requires InRange(p) && RootOk(fs) && !p.Idle?
    ensures var e := Do(fs, p); e.event.Some? <==> !AfterReport(p) && (AfterReport(e.pc) || e.pc.Idle?)
    ensures AfterReport(p) ==> AfterReport(Do(fs, p).pc) || Do(fs, p).pc.Idle?
  {
    hide RootOk, DoOpen, DoRw, OpenRange, RwRange, TableRange;
    match p
    case InOpen(name, flags, at) => OpenReports(fs, name, flags, at);
    case InTable(n, off, at) => TableReports(fs, n, off, at);
    case InClose(h, at) =>
    case InRw(job, rw) => RwReports(fs, job, rw);
  }

  lemma OpenReports(fs: FS, name: CString, flags: Flags, at: OpenPC)
    requires name != [] && OpenRange(at) && RootOk(fs)
    ensures var e := DoOpen(fs, name, flags, at);
            (e.event.Some? <==> e.pc.Idle?) && !AfterReport(e.pc)
  {
    hide Slot, RootOk, EntryNum, Answers, WrittenBlocks, Content, StoredName, EncodeInt, Patch;
  }

  lemma TableReports(fs: FS, n: int, off: nat, at: TablePC)
    requires TableRange(at)
    ensures var e := DoTable(fs, n, off, at);
            && (e.event.Some? <==> !at.Unlock? && (AfterReport(e.pc) || e.pc.Idle?))
            && (at.Unlock? ==> e.pc.Idle?)
  {
  }

  lemma RwReports(fs: FS, job: Job, rw: RwPC)
    requires RwRange(job, rw)
    ensures var (p, e) := (InRw(job, rw), DoRw(fs, job, rw));
            && (e.event.Some? <==> !AfterReport(p) && (AfterReport(e.pc) || e.pc.Idle?))
            && (AfterReport(p) ==> AfterReport(e.pc) || e.pc.Idle?)
  {
    hide Slot, MissingSlot, Copied, FillSlot, CopySize, Moves;
  }

  /** Thread t puts something on record at moment k. */
  ghost predicate ReportsAt(run: seq<State>, k: nat, t: nat) {
    exists e :: Reports(run, k, t, e)
  }

  /** How often thread t puts something on record from moment k0 up to moment i. */
  ghost function OwnReports(run: seq<State>, k0: nat, i: nat, t: nat): nat
    decreases i
  {
    if i <= k0 then 0 else OwnReports(run, k0, i - 1, t) + if ReportsAt(run, i - 1, t) then 1 else 0
  }

  predicate Beginning(p: PC) {
    (p.InOpen? && p.at == Begin) || (p.InClose? && p.close == CloseLock) || (p.InRw? && p.rw == Start)
  }

  /** Thread t began its operation at moment k0, and is at it still. */
  ghost predicate BusySince(run: seq<State>, k0: nat, i: nat, t: nat) {
    && k0 <= i < |run| && (forall j :: k0 <= j <= i ==> t < |run[j].threads| && !run[j].threads[t].pc.Idle?)
    && Beginning(run[k0].threads[t].pc)
  }

  /** Thread t puts something on record at a moment exactly when its place says so. */
  lemma MomentReports(run: seq<State>, i: nat, t: nat)
    requires Execution(run) && i + 1 < |run| && t < |run[i + 1].threads| && t < |run[i].threads| && !run[i].threads[t].pc.Idle?
    ensures var (p, p') := (run[i].threads[t].pc, run[i + 1].threads[t].pc);
            && (ReportsAt(run, i, t) <==> !AfterReport(p) && (AfterReport(p') || p'.Idle?))
            && (AfterReport(p) ==> AfterReport(p') || p'.Idle?)
  {
    hide Execution, MayStart, RootOk, InRange, Do, AfterReport, Safe;
    LastMoment(run, i, t);
    var p := run[i].threads[t].pc;
    if e :| Reports(run, i, t, e) {
      ReporterSteps(run, i, t, e);
      StepReports(run[i].fs, p);
    } else if run[i + 1].threads[t].pc != p {
      StepsDo(run, i, t);
      StepReports(run[i].fs, p);
      if Do(run[i].fs, p).event.Some? { assert Reports(run, i, t, Do(run[i].fs, p).event.value); }
    }
  }

  /** While an operation is under way it has put its result on record once if only locks are left to release, and not yet before;
      when it ends it has done so exactly once. */
  lemma {:induction false} OneReport(run: seq<State>, k0: nat, i: nat, t: nat)
    requires Execution(run) && BusySince(run, k0, i, t)
    ensures OwnReports(run, k0, i, t) == if AfterReport(run[i].threads[t].pc) then 1 else 0
    ensures i + 1 < |run| && t < |run[i + 1].threads| && run[i + 1].threads[t].pc.Idle? ==> OwnReports(run, k0, i + 1, t) == 1
  {
    hide Execution, ReportsAt, AfterReport;
    if i > k0 {
      OneReport(run, k0, i - 1, t);
      MomentReports(run, i - 1, t);
    } else {
      BeginsUnreported(run[k0].threads[t].pc);
    }
    if i + 1 < |run| && t < |run[i + 1].threads| { MomentReports(run, i, t); }
  }

  lemma BeginsUnreported(p: PC)
    requires Beginning(p)
    ensures !AfterReport(p)
  {
  }

  // ---------------------------------------------------------------- how many steps an operation has left

  const DIR := MAX_DIR_ENTRIES

  function OpenLeft(at: OpenPC): nat
    requires OpenRange(at)
  {
    match at
    case Begin => 4 * DIR + 262
    case FindRoot => 4 * DIR + 261
    case FindRootHeld => 4 * DIR + 260
    case Scan(i) => 2 * (DIR - i) + 2 * DIR + 258
    case ScanHeld(i) => 2 * (DIR - i) + 2 * DIR + 257
    case Exists(n) => 101
    case Decide(n) => 100
    case TruncTest(n, s) => 4 * (11 - s) + 50
    case TruncLock(n, s, b) => 4 * (11 - s) + 49
    case TruncHeld(n, s, b) => 4 * (11 - s) + 48
    case TruncClear(n, s) => 4 * (11 - s) + 47
    case TruncEnd(n) => 48
    case Make(i) => 2 * (INODE_TABLE_SIZE - i) + 2 * DIR + 57
    case MakeHeld(i) => 2 * (INODE_TABLE_SIZE - i) + 2 * DIR + 56
    case MakeLock(n) => 2 * DIR + 56
    case AddRoot(n, k) => if k == 0 then 2 * DIR + 55 else 2 * DIR + 53
    case AddRootHeld(n, k) => if k == 0 then 2 * DIR + 54 else 2 * DIR + 52
    case AddScan(n, i) => 2 * (DIR - i) + 50
    case AddHeld(n, i) => 2 * (DIR - i) + 49
    case Delete(n) => 49
    case Leave(n, off) => 47
    case LeaveIno(n, off) => 46
    case LeaveOpen => 1
  }

  function TableLeft(at: TablePC): nat
    requires TableRange(at)
  {
    match at
    case Seek(h) => 2 * (MAX_OPEN_FILES - h) + 5
    case SeekHeld(h) => 2 * (MAX_OPEN_FILES - h) + 4
    case Count(h) => 3
    case CountHeld(h) => 2
    case Unlock(h) => 1
  }

  function CloseLeft(at: ClosePC): nat {
    match at
    case CloseLock => 5
    case CloseHeld => 4
    case CloseCount => 3
    case CloseCountHeld => 2
    case CloseUnlock => 1
  }

  /** The steps that one allocation takes at most, and one copy with the allocations before it. */
  const ALLOCATION := 2 * DATA_BLOCKS + 3
  const PIECE := 2 * ALLOCATION + 1

  /** How many slots are still to be filled before a write can copy into its block. */
  ghost function SlotsMissing(fs: FS, job: Job, x: Xfer): nat {
    if job.ReadJob? then 0
    else if AtBlock(x) >= MAX_DIRECT_BLOCKS && Slot(fs, x.n, INDEX_SLOT) == NONE then 2
    else if BlockNo(fs, x.n, AtBlock(x)) == NONE then 1
    else 0
  }

  ghost function RwLeft(fs: FS, job: Job, rw: RwPC): nat
    requires RwRange(job, rw)
  {
    var most := if job.WriteJob? then |job.buf| * PIECE + 2 * ALLOCATION else job.len * PIECE;
    match rw
    case Start => most + 6
    case LockIno => most + 5
    case Plan(n) => most + 4
    case Loop(x) => (x.total - x.moved) * PIECE + SlotsMissing(fs, job, x) * ALLOCATION + 3
    case AllocScan(x, s, j) => AllocLeft(fs, job, x) + 2 * (DATA_BLOCKS - j) + 5
    case AllocHeld(x, s, j) => AllocLeft(fs, job, x) + 2 * (DATA_BLOCKS - j) + 4
    case HasBlock(x, s, b) => AllocLeft(fs, job, x) + 4
    case RwLeave(n) => 2
    case RwLeaveIno(n) => 1
  }

  ghost function AllocLeft(fs: FS, job: Job, x: Xfer): nat
    requires x.moved <= x.total
  {
    var m := SlotsMissing(fs, job, x);
    (x.total - x.moved) * PIECE + if m > 0 then (m - 1) * ALLOCATION else 0
  }

  ghost function Left(fs: FS, p: PC): nat
    requires InRange(p)
  {
    match p
    case Idle => 0
    case InOpen(name, flags, at) => OpenLeft(at)
    case InTable(n, off, at) => TableLeft(at)
    case InClose(h, at) => CloseLeft(at)
    case InRw(job, rw) => RwLeft(fs, job, rw)
  }

  lemma LookingGoesOn(fs: FS, name: CString, flags: Flags, at: OpenPC)
    requires name != [] && OpenRange(at) && RootOk(fs) && InRange(DoOpen(fs, name, flags, at).pc) && Looking(at)
    ensures Left(fs, DoOpen(fs, name, flags, at).pc) < OpenLeft(at)
  {
    hide Slot, RootOk, EntryNum, Answers, WrittenBlocks, LoopLimit, Content, StoredName, EncodeInt, Patch, RwLeft;
  }

  lemma TruncatingGoesOn(fs: FS, name: CString, flags: Flags, at: OpenPC)
    requires name != [] && OpenRange(at) && RootOk(fs) && InRange(DoOpen(fs, name, flags, at).pc) && Truncating(at)
    ensures Left(fs, DoOpen(fs, name, flags, at).pc) < OpenLeft(at)
  {
    hide Slot, RootOk, EntryNum, Answers, WrittenBlocks, LoopLimit, Content, StoredName, EncodeInt, Patch, RwLeft;
  }

  lemma MakingGoesOn(fs: FS, name: CString, flags: Flags, at: OpenPC)
    requires name != [] && OpenRange(at) && RootOk(fs) && InRange(DoOpen(fs, name, flags, at).pc)
    requires at.Make? || at.MakeHeld? || at.MakeLock? || at.AddRoot? || at.AddRootHeld?
    ensures Left(fs, DoOpen(fs, name, flags, at).pc) < OpenLeft(at)
  {
    hide Slot, RootOk, EntryNum, Answers, WrittenBlocks, LoopLimit, Content, StoredName, EncodeInt, Patch,
         RwLeft, TableLeft, CloseLeft;
  }

  lemma AddingGoesOn(fs: FS, name: CString, flags: Flags, at: OpenPC)
    requires name != [] && OpenRange(at) && RootOk(fs) && InRange(DoOpen(fs, name, flags, at).pc)
    requires Creating(at) && !(at.Make? || at.MakeHeld? || at.MakeLock? || at.AddRoot? || at.AddRootHeld?)
    ensures Left(fs, DoOpen(fs, name, flags, at).pc) < OpenLeft(at)
  {
    hide Slot, RootOk, EntryNum, Answers, WrittenBlocks, LoopLimit, Content, StoredName, EncodeInt, Patch,
         RwLeft, TableLeft, CloseLeft;
  }

  lemma OpenGoesOn(fs: FS, name: CString, flags: Flags, at: OpenPC)
    requires name != [] && OpenRange(at) && RootOk(fs) && InRange(DoOpen(fs, name, flags, at).pc)
    ensures Left(fs, DoOpen(fs, name, flags, at).pc) < OpenLeft(at)
  {
    hide DoOpen, Left, OpenLeft, RootOk, InRange, OpenRange;
    if Looking(at) { LookingGoesOn(fs, name, flags, at); }
    else if Truncating(at) { TruncatingGoesOn(fs, name, flags, at); }
    else if at.Make? || at.MakeHeld? || at.MakeLock? || at.AddRoot? || at.AddRootHeld? { MakingGoesOn(fs, name, flags, at); }
    else { AddingGoesOn(fs, name, flags, at); }
  }

  lemma TableGoesOn(fs: FS, n: int, off: nat, at: TablePC)
    requires TableRange(at) && InRange(DoTable(fs, n, off, at).pc)
    ensures Left(fs, DoTable(fs, n, off, at).pc) < TableLeft(at)
  {
  }

  // ---------------------------------------------------------------- transfers

  lemma FewSlotsMissing(fs: FS, job: Job, x: Xfer)
    ensures SlotsMissing(fs, job, x) <= 2 && (job.ReadJob? ==> SlotsMissing(fs, job, x) == 0)
    ensures job.WriteJob? ==> (MissingSlot(fs, x).Some? <==> SlotsMissing(fs, job, x) > 0)
  {
    hide Slot;
  }

  lemma PlanGoesOn(fs: FS, job: Job, n: int)
    requires RwRange(job, Plan(n)) && InRange(DoRw(fs, job, Plan(n)).pc)
    ensures Left(fs, DoRw(fs, job, Plan(n)).pc) < RwLeft(fs, job, Plan(n))
  {
    hide Slot, Moves, SlotsMissing;
    var p := DoRw(fs, job, Plan(n)).pc;
    if p.rw.Loop? { FewSlotsMissing(fs, job, p.rw.x); }
  }

  lemma PiecesGoDown(a: nat, k: nat, m: nat)
    requires 0 < k <= a && m <= 2
    ensures (a - k) * PIECE + m * ALLOCATION + 3 < a * PIECE + 3
  {
  }

  lemma LoopGoesOn(fs: FS, X: set<(int, int)>, job: Job, x: Xfer)
    requires Ready(fs, X, InRw(job, Loop(x)))
    ensures var e := DoLoop(fs, job, x); InRange(e.pc) && Left(e.fs, e.pc) < RwLeft(fs, job, Loop(x))
  {
    hide Slot, Copied, MissingSlot, Whole, HeldAt, Moves, SlotsMissing, Clear, Follows, RootAfter, Block;
    RwLands(fs, X, job, Loop(x));
    FewSlotsMissing(fs, job, x);
    var e := DoLoop(fs, job, x);
    if e.pc.rw.Loop? {
      FewSlotsMissing(e.fs, job, e.pc.rw.x);
      PiecesGoDown(x.total - x.moved, CopySize(x), SlotsMissing(e.fs, job, e.pc.rw.x));
    }
  }

  lemma ScanGoesOn(fs: FS, X: set<(int, int)>, job: Job, rw: RwPC)
    requires Ready(fs, X, InRw(job, rw)) && (rw.AllocScan? || rw.AllocHeld?)
    ensures var e := DoRw(fs, job, rw); InRange(e.pc) && Left(e.fs, e.pc) < RwLeft(fs, job, rw)
  {
    hide Slot, MissingSlot, Whole, HeldAt, Moves, SlotsMissing, Clear, Follows, RootAfter;
    RwLands(fs, X, job, rw);
    FewSlotsMissing(fs, job, rw.x);
    if rw.AllocHeld? && !fs.blockTaken[rw.j] { SameSlotsMissing(fs, MarkBlock(fs, rw.j, true), job, rw.x); }
  }

  lemma SameSlotsMissing(fs: FS, fs': FS, job: Job, x: Xfer)
    requires fs'.inodes == fs.inodes && fs'.data == fs.data
    ensures SlotsMissing(fs', job, x) == SlotsMissing(fs, job, x)
  {
  }

  lemma FillGoesOn(fs: FS, X: set<(int, int)>, job: Job, x: Xfer, s: nat, b: nat)
    requires Ready(fs, X, InRw(job, HasBlock(x, s, b)))
    ensures var e := DoRw(fs, job, HasBlock(x, s, b)); InRange(e.pc) && Left(e.fs, e.pc) < RwLeft(fs, job, HasBlock(x, s, b))
  {
    hide Slot, MissingSlot, Whole, HeldAt, Moves, Clear, Follows, RootAfter, FillSlot, SlotsMissing, Unowned;
    RwLands(fs, X, job, HasBlock(x, s, b));
    FillsOne(fs, X, job, x, s, b);
  }

  /** With a block in it, one slot fewer is missing. */
  lemma FillsOne(fs: FS, X: set<(int, int)>, job: Job, x: Xfer, s: nat, b: nat)
    requires Ready(fs, X, InRw(job, HasBlock(x, s, b)))
    ensures SlotsMissing(fs, job, x) > 0 && SlotsMissing(FillSlot(fs, x.n, s, b), job, x) == SlotsMissing(fs, job, x) - 1
  {
    hide Slot, Whole, Unowned, Follows, RootAfter, FillSlot, HeldAt;
    assert X + EmptyingAt(InRw(job, HasBlock(x, s, b))) == X;
    FileIsHeldThere(job, x, s, b);
    HeldFileIsClear(X, InRw(job, HasBlock(x, s, b)), x.n);
    MissingIsEmpty(fs, x);
    Filling(fs, X, x.n, s, b);
    var fs' := FillSlot(fs, x.n, s, b);
    assert forall r :: r != s ==> Slot(fs', x.n, r) == Slot(fs, x.n, r);
    IndexComesFirst(fs, x.n);
  }

  /** Without an index block no slot behind it is filled. */
  lemma IndexComesFirst(fs: FS, n: int)
    requires IsFile(fs, n)
    ensures Slot(fs, n, INDEX_SLOT) == NONE ==> forall r :: r > INDEX_SLOT ==> Slot(fs, n, r) == NONE
  {
  }

  lemma FileIsHeldThere(job: Job, x: Xfer, s: nat, b: nat)
    ensures Hold(Ino(x.n), true) in HeldAt(InRw(job, HasBlock(x, s, b)))
  {
  }

  lemma RwGoesOn(fs: FS, X: set<(int, int)>, job: Job, rw: RwPC)
    requires Ready(fs, X, InRw(job, rw)) && RwRange(job, rw)
    ensures var e := DoRw(fs, job, rw); InRange(e.pc) && Left(e.fs, e.pc) < RwLeft(fs, job, rw)
  {
    hide Ready, DoLoop, Left, RwLeft, XferRange;
    match rw
    case Loop(x) => LoopGoesOn(fs, X, job, x);
    case AllocScan(x, s, j) => ScanGoesOn(fs, X, job, rw);
    case AllocHeld(x, s, j) => ScanGoesOn(fs, X, job, rw);
    case HasBlock(x, s, b) => FillGoesOn(fs, X, job, x, s, b);
    case Plan(n) =>
      RwStepLands(fs, X, job, rw);
      PlanGoesOn(fs, job, n);
    case _ => LocksGoOn(fs, X, job, rw);
  }

  lemma RwStepLands(fs: FS, X: set<(int, int)>, job: Job, rw: RwPC)
    requires Ready(fs, X, InRw(job, rw)) && RwRange(job, rw)
    ensures InRange(DoRw(fs, job, rw).pc)
  {
    hide Ready, DoRw, Place, Whole, Follows, RootAfter, InRange;
    RwLands(fs, X, job, rw);
  }

  lemma LocksGoOn(fs: FS, X: set<(int, int)>, job: Job, rw: RwPC)
    requires Ready(fs, X, InRw(job, rw)) && RwRange(job, rw) && (rw.Start? || rw.LockIno? || rw.RwLeave? || rw.RwLeaveIno?)
    ensures var e := DoRw(fs, job, rw); InRange(e.pc) && Left(e.fs, e.pc) < RwLeft(fs, job, rw)
  {
    hide Ready;
    RwStepLands(fs, X, job, rw);
  }

  /** Every step of a thread takes its operation closer to its end. */
  lemma StepGoesOn(fs: FS, X: set<(int, int)>, p: PC)
    requires Ready(fs, X, p) && InRange(p) && RootOk(fs)
    ensures InRange(Do(fs, p).pc) && Left(Do(fs, p).fs, Do(fs, p).pc) < Left(fs, p)
  {
    hide Whole, Place, DoOpen, DoTable, DoRw, OpenLeft, TableLeft, RwLeft, OpenRange, RwRange, TableRange, RootOk, Follows,
         RootAfter,
         Clear;
    StepLands(fs, X, p);
    match p
    case InOpen(name, flags, at) =>
      OpenGoesOn(fs, name, flags, at);
      OpenNotRw(fs, name, flags, at);
    case InTable(n, off, at) =>
      TableGoesOn(fs, n, off, at);
      TableNotRw(fs, n, off, at);
    case InClose(h, at) =>
    case InRw(job, rw) => RwGoesOn(fs, X, job, rw);
  }

  lemma OpenNotRw(fs: FS, name: CString, flags: Flags, at: OpenPC)
    requires name != [] && OpenRange(at) && RootOk(fs)
    ensures !DoOpen(fs, name, flags, at).pc.InRw?
  {
    hide Slot, RootOk, EntryNum, Answers, WrittenBlocks, LoopLimit, Content, StoredName, EncodeInt, Patch;
  }

  lemma TableNotRw(fs: FS, n: int, off: nat, at: TablePC)
    requires TableRange(at)
    ensures !DoTable(fs, n, off, at).pc.InRw?
  {
  }

  /** No step of another thread takes it further away. */
  lemma OthersKeepLeft(fs: FS, X: set<(int, int)>, fs': FS, X': set<(int, int)>, q: PC)
    requires InRange(q) && Place(fs, X, q) && Undisturbed(fs, X, fs', X', q)
    ensures Left(fs', q) == Left(fs, q)
  {
    hide Slot, Content, EntryNum, RootOk, Find, Answers, OpenLeft, TableLeft, MissingSlot, Unowned, Making;
    if q.InRw? && (q.rw.Loop? || q.rw.AllocScan? || q.rw.AllocHeld? || q.rw.HasBlock?) { MoverIsHeld(q.job, q.rw); }
  }

  lemma MoverIsHeld(job: Job, rw: RwPC)
    requires rw.Loop? || rw.AllocScan? || rw.AllocHeld? || rw.HasBlock?
    requires RwRange(job, rw)
    ensures MapsMatter(InRw(job, rw), rw.x.n)
  {
  }

  /** How often thread t moves on from moment i up to moment j. */
  ghost function OwnSteps(run: seq<State>, i: nat, j: nat, t: nat): nat
    decreases j
  {
    if j <= i then 0
    else OwnSteps(run, i, j - 1, t) + if j < |run| && t < |run[j].threads| && t < |run[j - 1].threads|
                                         && run[j].threads[t].pc != run[j - 1].threads[t].pc then 1 else 0
  }

  lemma MomentKeepsLeft(run: seq<State>, i: nat, t: nat)
    requires Execution(run) && i + 1 < |run| && t < |run[i + 1].threads| && t < |run[i].threads| && !run[i].threads[t].pc.Idle?
    ensures InRange(run[i].threads[t].pc) && InRange(run[i + 1].threads[t].pc)
    ensures var (p, p') := (run[i].threads[t].pc, run[i + 1].threads[t].pc);
            Left(run[i + 1].fs, p') + (if p' != p then 1 else 0) <= Left(run[i].fs, p)
  {
    hide Execution, MayStart, RootOk, InRange, Do, Left, Safe, ThreadStep, Starts;
    ReachableIsSafe(run, i);
    RunSteps(run, i + 1);
    var u: nat :| ThreadStep(run[i], run[i + 1], u) || Starts(run[i], run[i + 1], u);
    if u == t {
      BusyDoesNotStart(run[i], run[i + 1], t);
      StepsDo(run, i, t);
      SafeIsReady(run[i], t);
      StepGoesOn(run[i].fs, Rest(run[i].threads, t), run[i].threads[t].pc);
    } else {
      OthersStay(run[i], run[i + 1], t, u);
      OtherMoment(run, i, t, u);
    }
  }

  lemma BusyDoesNotStart(s: State, s': State, t: nat)
    requires t < |s.threads| && !s.threads[t].pc.Idle?
    ensures !Starts(s, s', t)
  {
  }

  lemma OtherMoment(run: seq<State>, i: nat, t: nat, u: nat)
    requires i + 1 < |run| && Safe(run[i]) && (ThreadStep(run[i], run[i + 1], u) || Starts(run[i], run[i + 1], u)) && u != t
    requires t < |run[i].threads|
    ensures InRange(run[i].threads[t].pc) && Left(run[i + 1].fs, run[i].threads[t].pc) == Left(run[i].fs, run[i].threads[t].pc)
  {
    hide Whole, Place, Apart, Conflict, InRange, EmptyingAt, Do, Rest, Emptying, Undisturbed, RootOk, MapsFree, Compatible, Left,
         HeldAt, Grantable, MayStart;
    var s := run[i];
    if ThreadStep(s, run[i + 1], u) {
      var rest := Rest(s.threads, u);
      var e := Do(s.fs, s.threads[u].pc);
      SafeIsReady(s, u);
      EmptyingSplit(s.threads, u);
      OthersBeside(s, u, t);
      StepCalm(s.fs, rest, s.threads[u].pc, s.threads[t].pc);
      OthersKeepLeft(s.fs, rest + EmptyingAt(s.threads[u].pc), e.fs, rest + EmptyingAt(e.pc), s.threads[t].pc);
    } else {
      StartKeepsData(s, run[i + 1], u);
    }
  }

  /** An operation takes no more steps than its place allows: each step uses one up, and no other thread adds to them. Together with
      the freedom from deadlock this means that an operation that is let go on comes to its end. */
  lemma {:induction false} StepsRunOut(run: seq<State>, i: nat, j: nat, t: nat)
    requires Execution(run) && i <= j < |run| && forall k :: i <= k <= j ==> t < |run[k].threads|
    requires forall k :: i <= k < j ==> !run[k].threads[t].pc.Idle?
    requires InRange(run[i].threads[t].pc)
    ensures InRange(run[j].threads[t].pc)
    ensures OwnSteps(run, i, j, t) + Left(run[j].fs, run[j].threads[t].pc) <= Left(run[i].fs, run[i].threads[t].pc)
  {
    hide Execution, Left, InRange;
    if i < j {
      StepsRunOut(run, i, j - 1, t);
      MomentKeepsLeft(run, j - 1, t);
    }
  }
}
