/**
  What holds in every reachable state of the interleaved system: mutual exclusion, exclusive ownership of data
  blocks, directory entries and handles on live files. Truncation is included: while a thread has marked a block
  FREE and not yet emptied its slot, that slot is left out of the ownership claim.
 */
module Safety {
  import opened Options
  import opened Config
  import opened Bytes
  import opened Disk
  import opened Directory
  import opened Ownership
  import opened Invariant
  import opened Growth
  import opened Files
  import opened ReadLoop
  import opened Truncation
  import opened Opening
  import opened Interleaving
  import opened Deadlock
  import Tables

  // ---------------------------------------------------------------- slots being emptied

  /** The slots that a thread is about to empty: it has freed their block, or the index block that holds them. */
  function EmptyingAt(pc: PC): set<(int, int)> {
    if pc.InOpen? && pc.at.TruncClear? then Window(pc.at.n, pc.at.s) else {}
  }

  /** The slots that some thread is about to empty. */
  function Emptying(threads: seq<Thread>): set<(int, int)> {
    if threads == [] then {} else EmptyingAt(threads[0].pc) + Emptying(threads[1..])
  }

  // ---------------------------------------------------------------- what each place relies on

  /** File n was made by a thread that has not linked it yet: it is empty and nothing refers to it. */
  ghost predicate Fresh(fs: FS, n: int) {
    && IsFile(fs, n) && fs.inodes[n] == EMPTY_FILE
    && (forall h :: ValidHandle(h) ==> fs.handles[h].inum != n)
    && RootOk(fs) && forall j :: 0 <= j < MAX_DIR_ENTRIES ==> EntryNum(Root(fs), j) != n
  }

  ghost predicate NoName(fs: FS, name: CString) {
    RootOk(fs) && Find(Root(fs), name) == NONE
  }

  /** File n is the one that the name stands for. */
  ghost predicate Named(fs: FS, name: CString, n: int) {
    RootOk(fs) && IsFile(fs, n) && Find(Root(fs), name) == n
  }

  /** The first i entries of the directory are in use. */
  ghost predicate UsedBelow(fs: FS, i: nat) {
    RootOk(fs) && forall j :: 0 <= j < i && j < MAX_DIR_ENTRIES ==> EntryNum(Root(fs), j) != NONE
  }

  /** The slot is one of those that a truncation of file n frees. */
  ghost predicate ToFree(fs: FS, n: int, s: nat) {
    ValidInum(n) && (s < LoopLimit(fs.inodes[n].size) || (s == INDEX_SLOT && WrittenBlocks(fs.inodes[n].size) >= MAX_DIRECT_BLOCKS))
  }

  ghost predicate OpenPlace(fs: FS, name: CString, at: OpenPC) {
    match at
    case Begin => true
    case FindRoot => true
    case FindRootHeld => true
    case LeaveOpen => NoName(fs, name)
    case Scan(i) => RootOk(fs) && forall j :: 0 <= j < i ==> !Answers(Root(fs), j, name)
    case ScanHeld(i) => RootOk(fs) && forall j :: 0 <= j < i ==> !Answers(Root(fs), j, name)
    case TruncLock(n, s, b) => Named(fs, name, n) && b == Slot(fs, n, s) && ToFree(fs, n, s)
    case TruncHeld(n, s, b) => Named(fs, name, n) && b == Slot(fs, n, s) && ToFree(fs, n, s)
    case Make(i) => NoName(fs, name)
    case MakeHeld(i) => NoName(fs, name)
    case MakeLock(n) => NoName(fs, name) && Fresh(fs, n)
    case AddRoot(n, k) => NoName(fs, name) && Fresh(fs, n)
    case AddRootHeld(n, k) => NoName(fs, name) && Fresh(fs, n)
    case AddScan(n, i) => NoName(fs, name) && Fresh(fs, n) && UsedBelow(fs, i)
    case AddHeld(n, i) => NoName(fs, name) && Fresh(fs, n) && UsedBelow(fs, i)
    case Delete(n) => NoName(fs, name) && Fresh(fs, n) && UsedBelow(fs, MAX_DIR_ENTRIES)
    case Leave(n, off) => off.Some? ==> IsFile(fs, n)
    case LeaveIno(n, off) => off.Some? ==> IsFile(fs, n)
    case _ => Named(fs, name, at.n)
  }

  ghost predicate Transferring(fs: FS, job: Job, x: Xfer) {
    IsFile(fs, x.n) && ValidHandle(job.h) && fs.handles[job.h] == OpenFile(x.n, x.o + x.moved)
  }

  ghost predicate RwPlace(fs: FS, X: set<(int, int)>, job: Job, rw: RwPC) {
    && ValidHandle(job.h) && fs.handles[job.h].inum != 0
    && match rw
       case Plan(n) => fs.handles[job.h].inum == n
       case Loop(x) => Transferring(fs, job, x)
       case AllocScan(x, s, j) => Transferring(fs, job, x) && MissingSlot(fs, x) == Some(s)
       case AllocHeld(x, s, j) => Transferring(fs, job, x) && MissingSlot(fs, x) == Some(s)
       case HasBlock(x, s, b) =>
         && Transferring(fs, job, x) && MissingSlot(fs, x) == Some(s)
         && ValidBlock(b) && fs.blockTaken[b] && Unowned(fs, b, X)
       case _ => true
  }

  ghost predicate Place(fs: FS, X: set<(int, int)>, pc: PC) {
    match pc
    case Idle => true
    case InOpen(name, flags, at) => OpenPlace(fs, name, at)
    case InTable(n, off, at) => IsFile(fs, n) && (at.Count? || at.CountHeld? ==> at.h < MAX_OPEN_FILES && !fs.handleTaken[at.h])
    case InClose(h, at) => ValidHandle(h) && (at.CloseCount? || at.CloseCountHeld? ==> fs.handles[h].inum != 0)
    case InRw(job, rw) => RwPlace(fs, X, job, rw)
  }

  // ---------------------------------------------------------------- what holds of the data as a whole

  ghost predicate HandlesSane(fs: FS) {
    forall h :: ValidHandle(h) ==>
      (fs.handles[h].inum == 0 || IsFile(fs, fs.handles[h].inum)) && (fs.handleTaken[h] ==> fs.handles[h].inum != 0)
  }

  ghost predicate Whole(fs: FS, X: set<(int, int)>) {
    && Exclusive(fs, X) && DirOk(fs) && HandlesSane(fs)
    && forall n :: IsInum(n) ==> !fs.inodes[n].isDir
  }

  /** The file that a thread has made and not linked yet, if any. */
  function Making(pc: PC): Option<int> {
    if !pc.InOpen? then None
    else
      match pc.at
      case MakeLock(n) => Some(n)
      case AddRoot(n, k) => Some(n)
      case AddRootHeld(n, k) => Some(n)
      case AddScan(n, i) => Some(n)
      case AddHeld(n, i) => Some(n)
      case Delete(n) => Some(n)
      case _ => None
  }

  /** The file that a thread refers to otherwise, if any. */
  function Using(pc: PC): Option<int> {
    match pc
    case Idle => None
    case InOpen(name, flags, at) =>
      (match at
       case Exists(n) => Some(n)
       case Decide(n) => Some(n)
       case TruncTest(n, s) => Some(n)
       case TruncLock(n, s, b) => Some(n)
       case TruncHeld(n, s, b) => Some(n)
       case TruncClear(n, s) => Some(n)
       case TruncEnd(n) => Some(n)
       case Leave(n, off) => if off.Some? then Some(n) else None
       case LeaveIno(n, off) => if off.Some? then Some(n) else None
       case _ => None)
    case InTable(n, off, at) => Some(n)
    case InClose(h, at) => None
    case InRw(job, rw) =>
      (match rw
       case Plan(n) => Some(n)
       case Loop(x) => Some(x.n)
       case AllocScan(x, s, j) => Some(x.n)
       case AllocHeld(x, s, j) => Some(x.n)
       case HasBlock(x, s, b) => Some(x.n)
       case _ => None)
  }

  /** The block that a thread has taken and not yet put in a slot, if any. */
  function InHand(pc: PC): Option<int> {
    if pc.InRw? && pc.rw.HasBlock? then Some(pc.rw.b) else None
  }

  /** Two threads do not have the same block in hand; a file being made is known to its maker only. */
  ghost predicate Apart(p: PC, q: PC) {
    && (InHand(p).Some? ==> InHand(p) != InHand(q))
    && (Making(p).Some? ==> Making(p) != Making(q) && Making(p) != Using(q))
  }

  ghost predicate Safe(s: State) {
    && LocksOk(s)
    && Whole(s.fs, Emptying(s.threads))
    && (forall t :: 0 <= t < |s.threads| ==> Place(s.fs, Emptying(s.threads), s.threads[t].pc))
    && (forall t, u {:trigger s.threads[t], s.threads[u]} ::
          0 <= t < |s.threads| && 0 <= u < |s.threads| && t != u ==> Apart(s.threads[t].pc, s.threads[u].pc))
  }

  // ---------------------------------------------------------------- what other threads must leave alone

  /** The parts of the data that a thread at pc relies on are the same in fs and fs'. */
  ghost predicate Undisturbed(fs: FS, X: set<(int, int)>, fs': FS, X': set<(int, int)>, pc: PC) {
    && (Using(pc).Some? && IsFile(fs, Using(pc).value) ==> IsFile(fs', Using(pc).value))
    && (forall n :: MapsMatter(pc, n) && IsFile(fs, n) ==> SameMap(fs, fs', n))
    && (Hold(OpenLock, true) in HeldAt(pc) && RootOk(fs) ==> RootOk(fs') && Root(fs') == Root(fs))
    && (Making(pc).Some? && Fresh(fs, Making(pc).value) ==> StillFresh(fs, fs', Making(pc).value))
    && (forall h :: Hold(Entry(h), true) in HeldAt(pc) && ValidHandle(h) ==>
          fs'.handles[h] == fs.handles[h] && fs'.handleTaken[h] == fs.handleTaken[h])
    && (forall h :: ValidHandle(h) && fs.handles[h].inum != 0 ==> fs'.handles[h].inum != 0)
    && (InHand(pc).Some? && ValidBlock(InHand(pc).value) && fs.blockTaken[InHand(pc).value] && Unowned(fs, InHand(pc).value, X) ==>
          fs'.blockTaken[InHand(pc).value] && Unowned(fs', InHand(pc).value, X'))
  }

  /** The thread holds file n exclusively and relies on its slots. */
  predicate MapsMatter(pc: PC, n: int) {
    IsInum(n) && Hold(Ino(n), true) in HeldAt(pc) && !(pc.InOpen? && pc.at.TruncClear?)
  }

  /** The record and the slots of file n are the same. */
  ghost predicate SameMap(fs: FS, fs': FS, n: int) {
    ValidInum(n) && fs'.inodes[n] == fs.inodes[n] && forall r :: Slot(fs', n, r) == Slot(fs, n, r)
  }

  ghost predicate StillFresh(fs: FS, fs': FS, n: int) {
    && IsFile(fs', n) && fs'.inodes[n] == fs.inodes[n]
    && forall h :: ValidHandle(h) ==> fs'.handles[h].inum != n
  }

  /** A thread whose part of the data is left alone stays in place. */
  lemma PlaceKept(fs: FS, X: set<(int, int)>, fs': FS, X': set<(int, int)>, pc: PC)
    requires InRange(pc) && Place(fs, X, pc) && Undisturbed(fs, X, fs', X', pc)
    ensures Place(fs', X', pc)
  {
    hide Slot, Content, EntryNum, RootOk, Find, Answers, MissingSlot;
    if pc.InRw? { MissingKept(fs, fs', pc); }
  }

  lemma MissingKept(fs: FS, fs': FS, pc: PC)
    requires pc.InRw? && InRange(pc)
    requires forall n :: MapsMatter(pc, n) && IsFile(fs, n) ==> SameMap(fs, fs', n)
    ensures forall x :: pc.rw.Loop? && pc.rw.x == x && IsFile(fs, x.n) ==> MissingSlot(fs', x) == MissingSlot(fs, x)
    ensures forall x :: (pc.rw.AllocScan? || pc.rw.AllocHeld? || pc.rw.HasBlock?) && pc.rw.x == x && IsFile(fs, x.n) ==>
              MissingSlot(fs', x) == MissingSlot(fs, x)
  {
    hide Slot;
  }
}
