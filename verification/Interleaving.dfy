/**
  The locking of parte-1: any number of threads inside open, close, write and read, one step at a time.
  A step takes one lock, or releases one, or works on data that its locks protect.
 */
module Interleaving {
  import opened Options
  import opened Config
  import opened Bytes
  import opened Disk
  import opened Directory
  import opened Invariant
  import opened Growth
  import opened Transfer
  import opened ReadLoop
  import opened Tables
  import opened Truncation
  import opened Opening
  import opened IndexRoom
  import Formatting

  datatype Lock =
    | OpenLock        // open_file_lock
    | Entry(h: int)   // open_file_table_locks[h]
    | Ino(n: int)     // inode_table_locks[n]
    | DirEnt(i: int)  // dir_entries_locks[i]
    | Blk(b: int)     // data_blocks_locks[b]
    | CountLock       // open_files_mutex

  /** A lock held, for reading or exclusively (mutexes are always held exclusively). */
  datatype Hold = Hold(lock: Lock, exclusive: bool)

  /** A write of buf, or a read of at most len bytes, through handle h. */
  datatype Job = WriteJob(h: int, buf: seq<Byte>) | ReadJob(h: int, len: nat)

  /** A transfer under way on file n from offset o: total bytes to move, moved so far, bytes read so far. */
  datatype Xfer = Xfer(n: int, o: nat, total: nat, moved: nat, got: seq<Byte>)

  datatype OpenPC =
    | Begin
    | FindRoot | FindRootHeld | Scan(i: nat) | ScanHeld(i: nat)
    | Exists(n: int) | Decide(n: int)
    | TruncTest(n: int, s: nat) | TruncLock(n: int, s: nat, b: int) | TruncHeld(n: int, s: nat, b: int)
    | TruncClear(n: int, s: nat) | TruncEnd(n: int)
    | Make(i: nat) | MakeHeld(i: nat) | MakeLock(n: int)
    | AddRoot(n: int, k: nat) | AddRootHeld(n: int, k: nat) | AddScan(n: int, i: nat) | AddHeld(n: int, i: nat)
    | Delete(n: int)
    | Leave(n: int, off: Option<nat>) | LeaveIno(n: int, off: Option<nat>) | LeaveOpen

  datatype TablePC = Seek(h: nat) | SeekHeld(h: nat) | Count(h: nat) | CountHeld(h: nat) | Unlock(h: nat)

  datatype ClosePC = CloseLock | CloseHeld | CloseCount | CloseCountHeld | CloseUnlock

  datatype RwPC =
    | Start | LockIno | Plan(n: int)
    | Loop(x: Xfer)
    | AllocScan(x: Xfer, s: nat, j: nat) | AllocHeld(x: Xfer, s: nat, j: nat) | HasBlock(x: Xfer, s: nat, b: nat)
    | RwLeave(n: int) | RwLeaveIno(n: int)

  /** Where a thread is. */
  datatype PC =
    | Idle
    | InOpen(name: CString, flags: Flags, at: OpenPC)
    | InTable(n: int, off: nat, table: TablePC)
    | InClose(h: int, close: ClosePC)
    | InRw(job: Job, rw: RwPC)

  datatype Thread = Thread(pc: PC, held: set<Hold>)

  /** What the rest of the system can see of an operation: its result, and its place in the serial order. An open hands out a
      handle or fails; a close succeeds or finds the entry FREE; a write is declined if it would not fit the block map. */
  datatype Event =
    | Handed(h: int, n: int, off: nat)
    | NotOpened
    | Wrote(h: int, bytes: seq<Byte>)
    | Fetched(h: int, len: nat, bytes: seq<Byte>)
    | Declined(h: int)
    | Shut(h: int, ok: bool)

  datatype State = State(fs: FS, threads: seq<Thread>, log: seq<Event>)

  /** What one step does: to the data, to the thread, to the locks, and to the log of completed operations. */
  datatype Effect = Effect(fs: FS, pc: PC, acquire: Option<Hold>, release: Option<Hold>, event: Option<Event>)

  // ---------------------------------------------------------------- ranges that each place keeps

  predicate OpenRange(at: OpenPC) {
    match at
    case Scan(i) => i <= MAX_DIR_ENTRIES
    case ScanHeld(i) => i < MAX_DIR_ENTRIES
    case Exists(n) => IsInum(n)
    case Decide(n) => IsInum(n)
    case TruncTest(n, s) => IsInum(n) && s <= MAX_DIRECT_BLOCKS
    case TruncLock(n, s, b) => IsInum(n) && s <= INDEX_SLOT
    case TruncHeld(n, s, b) => IsInum(n) && s <= INDEX_SLOT
    case TruncClear(n, s) => IsInum(n) && s <= INDEX_SLOT
    case TruncEnd(n) => IsInum(n)
    case Make(i) => i <= INODE_TABLE_SIZE
    case MakeHeld(i) => i < INODE_TABLE_SIZE
    case MakeLock(n) => IsInum(n)
    case AddRoot(n, k) => IsInum(n)
    case AddRootHeld(n, k) => IsInum(n)
    case AddScan(n, i) => IsInum(n) && i <= MAX_DIR_ENTRIES
    case AddHeld(n, i) => IsInum(n) && i < MAX_DIR_ENTRIES
    case Delete(n) => IsInum(n)
    case Leave(n, off) => IsInum(n)
    case LeaveIno(n, off) => IsInum(n)
    case _ => true
  }

  /** A number of a file's i-node: in range and not the root's. */
  predicate IsInum(n: int) {
    0 < n < INODE_TABLE_SIZE
  }

  predicate TableRange(at: TablePC) {
    match at
    case Seek(h) => h <= MAX_OPEN_FILES
    case _ => at.h < MAX_OPEN_FILES
  }

  predicate XferRange(job: Job, x: Xfer) {
    && IsInum(x.n) && x.moved <= x.total
    && (job.WriteJob? ==> x.total == Moves(BLOCK_SIZE, x.o, |job.buf|) && x.o + x.total <= MAX_FILE_SIZE)
    && (job.ReadJob? ==> |x.got| == x.moved)
  }

  predicate RwRange(job: Job, rw: RwPC) {
    && ValidHandle(job.h)
    && match rw
       case Loop(x) => XferRange(job, x)
       case AllocScan(x, s, j) => XferRange(job, x) && job.WriteJob? && s < N_SLOTS && j <= DATA_BLOCKS
       case AllocHeld(x, s, j) => XferRange(job, x) && job.WriteJob? && s < N_SLOTS && j < DATA_BLOCKS
       case HasBlock(x, s, b) => XferRange(job, x) && job.WriteJob? && s < N_SLOTS && b < DATA_BLOCKS
       case Plan(n) => IsInum(n)
       case RwLeave(n) => IsInum(n)
       case RwLeaveIno(n) => IsInum(n)
       case _ => true
  }

  predicate InRange(pc: PC) {
    match pc
    case Idle => true
    case InOpen(name, flags, at) => name != [] && OpenRange(at)
    case InTable(n, off, at) => IsInum(n) && TableRange(at)
    case InClose(h, at) => ValidHandle(h)
    case InRw(job, rw) => RwRange(job, rw)
  }

  // ---------------------------------------------------------------- the steps

  ghost function DoOpen(fs: FS, name: CString, flags: Flags, at: OpenPC): Effect
    requires name != [] && OpenRange(at) && RootOk(fs)
  {
    var go := (to: OpenPC) => InOpen(name, flags, to);
    match at
    case Begin => Acquire(fs, go(FindRoot), Hold(OpenLock, true))
    case FindRoot => Acquire(fs, go(FindRootHeld), Hold(Ino(0), false))
    case FindRootHeld => Release(fs, go(Scan(0)), Hold(Ino(0), false))
    case Scan(i) =>
      if i < MAX_DIR_ENTRIES then Acquire(fs, go(ScanHeld(i)), Hold(DirEnt(i), false))
      else Local(fs, go(if flags.create then Make(0) else LeaveOpen))
    case ScanHeld(i) =>
      Release(fs, go(if Answers(Root(fs), i, name) then Exists(EntryNum(Root(fs), i)) else Scan(i + 1)), Hold(DirEnt(i), false))
    case Exists(n) => Acquire(fs, go(Decide(n)), Hold(Ino(n), true))
    case Decide(n) =>
      Local(fs, go(if flags.truncate && fs.inodes[n].size > 0 then TruncTest(n, 0)
                   else Leave(n, Some(if flags.append then fs.inodes[n].size else 0))))
    case TruncTest(n, s) =>
      Local(fs, go(if s < LoopLimit(fs.inodes[n].size) then TruncLock(n, s, fs.inodes[n].direct[s])
                   else if WrittenBlocks(fs.inodes[n].size) >= MAX_DIRECT_BLOCKS then
                     TruncLock(n, INDEX_SLOT, fs.inodes[n].indirect)
                   else TruncEnd(n)))
    case TruncLock(n, s, b) => Acquire(fs, go(TruncHeld(n, s, b)), Hold(Blk(b), true))
    case TruncHeld(n, s, b) =>
      if ValidBlock(b) then Release(MarkBlock(fs, b, false), go(TruncClear(n, s)), Hold(Blk(b), true))
      else Release(fs, go(Leave(n, None)), Hold(Blk(b), true))
    case TruncClear(n, s) =>
      Local(Cleared(fs, n, s), go(if s == INDEX_SLOT then TruncEnd(n) else TruncTest(n, s + 1)))
    case TruncEnd(n) => Local(PutInode(fs, n, fs.inodes[n].(size := 0)), go(Leave(n, Some(0))))
    case Make(i) =>
      if i < INODE_TABLE_SIZE then Acquire(fs, go(MakeHeld(i)), Hold(Ino(i), true)) else Local(fs, go(LeaveOpen))
    case MakeHeld(i) =>
      if fs.inodeTaken[i] then Release(fs, go(Make(i + 1)), Hold(Ino(i), true))
      else Release(Created(fs, i), go(MakeLock(i)), Hold(Ino(i), true))
    case MakeLock(n) => Acquire(fs, go(AddRoot(n, 0)), Hold(Ino(n), true))
    case AddRoot(n, k) => Acquire(fs, go(AddRootHeld(n, k)), Hold(Ino(0), false))
    case AddRootHeld(n, k) => Release(fs, go(if k == 0 then AddRoot(n, 1) else AddScan(n, 0)), Hold(Ino(0), false))
    case AddScan(n, i) =>
      if i < MAX_DIR_ENTRIES then Acquire(fs, go(AddHeld(n, i)), Hold(DirEnt(i), true)) else Local(fs, go(Delete(n)))
    case AddHeld(n, i) =>
      if EntryNum(Root(fs), i) == NONE then Release(Linked(fs, i, n, name), go(Leave(n, Some(0))), Hold(DirEnt(i), true))
      else Release(fs, go(AddScan(n, i + 1)), Hold(DirEnt(i), true))
    case Delete(n) => Local(fs.(inodeTaken := fs.inodeTaken[n := false]), go(Leave(n, None)))
    case Leave(n, off) => Release(fs, go(LeaveIno(n, off)), Hold(OpenLock, true))
    case LeaveIno(n, off) =>
      if off.None? then Release(fs, Idle, Hold(Ino(n), true)).(event := Some(NotOpened))
      else Release(fs, InTable(n, off.value, Seek(0)), Hold(Ino(n), true))
    case LeaveOpen => Release(fs, Idle, Hold(OpenLock, true)).(event := Some(NotOpened))
  }

  /** The slot of a block that truncation freed is emptied. */
  function Cleared(fs: FS, n: int, s: nat): FS
    requires ValidInum(n) && s <= INDEX_SLOT
  {
    var ino := fs.inodes[n];
    PutInode(fs, n, if s == INDEX_SLOT then ino.(indirect := NONE) else ino.(direct := ino.direct[s := NONE]))
  }

  function DoTable(fs: FS, n: int, off: nat, at: TablePC): Effect
    requires TableRange(at)
  {
    match at
    case Seek(h) =>
      if h < MAX_OPEN_FILES then Acquire(fs, InTable(n, off, SeekHeld(h)), Hold(Entry(h), true))
      else Local(fs, Idle).(event := Some(NotOpened))
    case SeekHeld(h) =>
      if fs.handleTaken[h] then Release(fs, InTable(n, off, Seek(h + 1)), Hold(Entry(h), true))
      else Local(fs, InTable(n, off, Count(h)))
    case Count(h) => Acquire(fs, InTable(n, off, CountHeld(h)), Hold(CountLock, true))
    case CountHeld(h) =>
      Release(Tables.Opened(fs, h, n, off), InTable(n, off, Unlock(h)), Hold(Entry(h), true)).(event := Some(Handed(h, n, off)))
    case Unlock(h) => Release(fs, Idle, Hold(CountLock, true))
  }

  function DoClose(fs: FS, h: int, at: ClosePC): Effect
    requires ValidHandle(h)
  {
    match at
    case CloseLock => Acquire(fs, InClose(h, CloseHeld), Hold(Entry(h), false))
    case CloseHeld =>
      if fs.handleTaken[h] then Local(fs, InClose(h, CloseCount))
      else Release(fs, Idle, Hold(Entry(h), false)).(event := Some(Shut(h, false)))
    case CloseCount => Acquire(fs, InClose(h, CloseCountHeld), Hold(CountLock, true))
    case CloseCountHeld => Release(Closed(fs, h), InClose(h, CloseUnlock), Hold(CountLock, true)).(event := Some(Shut(h, true)))
    case CloseUnlock => Release(fs, Idle, Hold(Entry(h), false))
  }

  /** The bytes that one copy of a transfer moves: up to the end of the block, or all that is left. */
  function CopySize(x: Xfer): nat
    requires x.moved <= x.total
  {
    var room := BLOCK_SIZE - (x.o + x.moved) % BLOCK_SIZE;
    if x.total - x.moved < room then x.total - x.moved else room
  }

  /** The block of the file that the transfer is at. */
  function AtBlock(x: Xfer): nat {
    (x.o + x.moved) / BLOCK_SIZE
  }

  /** The slot that must be filled before the transfer can write to its block, if any. */
  ghost function MissingSlot(fs: FS, x: Xfer): Option<nat> {
    var i := AtBlock(x);
    if i >= MAX_DIRECT_BLOCKS && Slot(fs, x.n, INDEX_SLOT) == NONE then Some(INDEX_SLOT)
    else if BlockNo(fs, x.n, i) == NONE then Some(DataSlot(i))
    else None
  }

  /** An empty index block b given to file n. */
  function Installed(fs: FS, n: int, b: nat): FS
    requires ValidInum(n) && ValidBlock(b)
  {
    PutInode(PutBytes(fs, b * BLOCK_SIZE, seq(BLOCK_SIZE, _ => 255)), n, fs.inodes[n].(indirect := b))
  }

  ghost function FillSlot(fs: FS, n: int, s: nat, b: nat): FS
    requires ValidInum(n) && ValidBlock(b) && s < N_SLOTS
  {
    if s == INDEX_SLOT then Installed(fs, n, b)
    else if s < INDEX_SLOT || ValidBlock(fs.inodes[n].indirect) then PutSlot(fs, n, s, b)
    else fs
  }

  ghost function DoRw(fs: FS, job: Job, rw: RwPC): Effect
    requires RwRange(job, rw)
  {
    var go := (to: RwPC) => InRw(job, to);
    var h := job.h;
    match rw
    case Start => Acquire(fs, go(LockIno), Hold(Entry(h), true))
    case LockIno => Acquire(fs, go(Plan(fs.handles[h].inum)), Hold(Ino(fs.handles[h].inum), true))
    case Plan(n) =>
      var rw' := Planned(fs, job, n);
      Local(fs, go(rw')).(event := if rw'.RwLeave? then Some(Declined(h)) else None)
    case Loop(x) => DoLoop(fs, job, x)
    case AllocScan(x, s, j) =>
      if j < DATA_BLOCKS then Acquire(fs, go(AllocHeld(x, s, j)), Hold(Blk(j), true))
      else Finish(fs, job, x)
    case AllocHeld(x, s, j) =>
      if fs.blockTaken[j] then Release(fs, go(AllocScan(x, s, j + 1)), Hold(Blk(j), true))
      else Release(MarkBlock(fs, j, true), go(HasBlock(x, s, j)), Hold(Blk(j), true))
    case HasBlock(x, s, b) => Local(FillSlot(fs, x.n, s, b), go(Loop(x)))
    case RwLeave(n) => Release(fs, go(RwLeaveIno(n)), Hold(Entry(h), true))
    case RwLeaveIno(n) => Release(fs, Idle, Hold(Ino(n), true))
  }

  /** How much there is to move, by the block count of the code, once both locks are held. A write that would not fit the
      block map is refused. */
  function Planned(fs: FS, job: Job, n: int): RwPC
    requires ValidHandle(job.h)
  {
    var o := fs.handles[job.h].offset;
    match job
    case WriteJob(h, buf) =>
      var k := Moves(BLOCK_SIZE, o, |buf|);
      if o + k > MAX_FILE_SIZE then RwLeave(n) else Loop(Xfer(n, o, k, 0, []))
    case ReadJob(h, len) => Loop(Xfer(n, o, Moves(BLOCK_SIZE, o, Available(fs, h, len)), 0, []))
  }

  function Finish(fs: FS, job: Job, x: Xfer): Effect
    requires XferRange(job, x)
  {
    Local(fs, InRw(job, RwLeave(x.n))).(
      event := Some(if job.WriteJob? then Wrote(job.h, job.buf[..x.moved]) else Fetched(job.h, job.len, x.got)))
  }

  ghost function DoLoop(fs: FS, job: Job, x: Xfer): Effect
    requires ValidHandle(job.h) && XferRange(job, x)
  {
    var k := CopySize(x);
    var b := BlockNo(fs, x.n, AtBlock(x));
    if x.moved == x.total then Finish(fs, job, x)
    else if job.WriteJob? then
      var missing := MissingSlot(fs, x);
      if missing.Some? then Local(fs, InRw(job, AllocScan(x, missing.value, 0)))
      else if ValidBlock(b) && fs.handles[job.h] == OpenFile(x.n, x.o + x.moved) then
        Local(Copied(fs, job.h, AtBlock(x), job.buf[x.moved..x.moved + k]), InRw(job, Loop(x.(moved := x.moved + k))))
      else Finish(fs, job, x)
    else if ValidBlock(b) then
      var at := (x.o + x.moved) % BLOCK_SIZE;
      Local(MovedOn(fs, job.h, k), InRw(job, Loop(x.(moved := x.moved + k, got := x.got + Block(fs.data, b)[at..at + k]))))
    else Finish(fs, job, x)
  }

  ghost function Do(fs: FS, pc: PC): Effect
    requires InRange(pc) && RootOk(fs) && !pc.Idle?
  {
    match pc
    case InOpen(name, flags, at) => DoOpen(fs, name, flags, at)
    case InTable(n, off, at) => DoTable(fs, n, off, at)
    case InClose(h, at) => DoClose(fs, h, at)
    case InRw(job, rw) => DoRw(fs, job, rw)
  }

  function Acquire(fs: FS, pc: PC, hold: Hold): Effect {
    Effect(fs, pc, Some(hold), None, None)
  }

  function Release(fs: FS, pc: PC, hold: Hold): Effect {
    Effect(fs, pc, None, Some(hold), None)
  }

  function Local(fs: FS, pc: PC): Effect {
    Effect(fs, pc, None, None, None)
  }

  // ---------------------------------------------------------------- locks

  predicate Conflict(a: Hold, b: Hold) {
    a.lock == b.lock && (a.exclusive || b.exclusive)
  }

  /** No other thread holds the lock in a way that keeps t from taking it. */
  ghost predicate Grantable(threads: seq<Thread>, t: nat, hold: Hold) {
    forall u, g {:trigger g in threads[u].held} :: 0 <= u < |threads| && u != t && g in threads[u].held ==> !Conflict(g, hold)
  }

  function NewHeld(held: set<Hold>, e: Effect): set<Hold> {
    held + (if e.acquire.Some? then {e.acquire.value} else {}) - (if e.release.Some? then {e.release.value} else {})
  }

  /** Thread t takes its next step. */
  ghost predicate ThreadStep(s: State, s': State, t: nat) {
    && t < |s.threads| && !s.threads[t].pc.Idle? && InRange(s.threads[t].pc) && RootOk(s.fs)
    && var e := Do(s.fs, s.threads[t].pc);
       && (e.acquire.Some? ==> Grantable(s.threads, t, e.acquire.value))
       && s' == State(e.fs, s.threads[t := Thread(e.pc, NewHeld(s.threads[t].held, e))],
                      if e.event.Some? then s.log + [e.event.value] else s.log)
  }

  /** What the operations ask of their callers: a name, a handle that was opened, and a write of at least one byte. */
  predicate MayStart(s: State, pc: PC) {
    match pc
    case InOpen(name, flags, at) => at == Begin && name != []
    case InClose(h, at) => at == CloseLock && ValidHandle(h)
    case InRw(job, rw) => rw == Start && ValidHandle(job.h) && s.fs.handles[job.h].inum != 0 && (job.WriteJob? ==> job.buf != [])
    case _ => false
  }

  /** An idle thread starts an operation. */
  ghost predicate StartStep(s: State, s': State, t: nat, pc: PC) {
    && t < |s.threads| && s.threads[t].pc.Idle? && MayStart(s, pc)
    && s' == s.(threads := s.threads[t := s.threads[t].(pc := pc)])
  }

  ghost predicate Starts(s: State, s': State, t: nat) {
    exists pc :: StartStep(s, s', t, pc)
  }

  ghost predicate Step(s: State, s': State) {
    exists t: nat :: ThreadStep(s, s', t) || Starts(s, s', t)
  }

  ghost predicate Init(s: State) {
    && Formatting.Formatted(s.fs)
    && (forall h :: ValidHandle(h) ==> s.fs.handles[h] == OpenFile(0, 0))
    && (forall n :: IsInum(n) ==> !s.fs.inodes[n].isDir)
    && (forall t :: 0 <= t < |s.threads| ==> s.threads[t] == Thread(Idle, {}))
    && s.log == []
  }

  ghost predicate Execution(run: seq<State>) {
    run != [] && Init(run[0]) && forall i :: 0 <= i < |run| - 1 ==> Step(run[i], run[i + 1])
  }
}
