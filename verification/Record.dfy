/**
  What the record of a run says of the requests: how much of a write goes on record, and where an open puts its handle.
 */
module Record {
  import opened Options
  import opened Config
  import opened Bytes
  import opened Disk
  import opened Directory
  import opened Ownership
  import opened Invariant
  import opened Growth
  import opened Transfer
  import opened ReadLoop
  import opened Truncation
  import opened Opening
  import opened Interleaving
  import opened Deadlock
  import opened Safety
  import opened SharedData
  import opened SharedSteps
  import opened Reachable
  import opened Aside
  import opened Guarantees
  import opened Serial
  import opened SerialSteps
  import opened SerialRuns
  import Tables
  import W = WriteLoop

  // ---------------------------------------------------------------- the copies of a transfer

  /** A transfer of n bytes makes, one after the other, the copies that the loop of the code makes, and is over when that
      loop is; all but the one that runs past its block, which is cut in two here. */
  lemma CopiesOfTheCode(x: Xfer, n: nat, i: nat, end: nat)
    requires !Straddles(BLOCK_SIZE, x.o, n) && x.moved < x.total == Moves(BLOCK_SIZE, x.o, n)
    requires W.Pending(x.o, n, i, end, x.moved)
    ensures i < end && i == AtBlock(x) && CopySize(x) == W.CopyLen(i, end, x.o + x.moved, n - x.moved)
    ensures var x' := x.(moved := x.moved + CopySize(x));
            if W.IsLast(i, end, x.o + x.moved, n - x.moved) || i + 1 == end then x'.moved == x.total
            else x'.moved < x.total && W.Pending(x.o, n, i + 1, end, x'.moved)
  {
    hide Moves, EndBlocks, Copies, Chained;
    if i >= end { W.PendingEnds(x.o, n, i, end, x.moved); }
    W.PendingCopy(x.o, n, i, end, x.moved);
    var k := W.CopyLen(i, end, x.o + x.moved, n - x.moved);
    if !W.IsLast(i, end, x.o + x.moved, n - x.moved) {
      if i + 1 < end { W.PendingCopy(x.o, n, i + 1, end, x.moved + k); } else { W.PendingEnds(x.o, n, i + 1, end, x.moved + k); }
    }
  }

  // ---------------------------------------------------------------- transfers

  /** The thread has been through all blocks and found none FREE. */
  predicate ScannedAll(p: PC) {
    p.InRw? && p.rw.AllocScan? && p.rw.j == DATA_BLOCKS
  }

  /** The event says what became of the transfer: the bytes of a write are the first ones of its buffer, as many as the
      block count of the code moves unless no FREE block was found for the rest; those of a read are the ones it has got. */
  ghost predicate Recorded(p: PC, e: Event) {
    && Moving(p).Some?
    && var x := Moving(p).value;
       match p.job
       case WriteJob(h, buf) =>
         x.moved <= |buf| && e == Wrote(h, buf[..x.moved]) && (x.moved == Moves(BLOCK_SIZE, x.o, |buf|) || ScannedAll(p))
       case ReadJob(h, len) => e == Fetched(h, len, x.got)
  }

  /** A write whose slots are all filled has a block to copy into. */
  lemma FilledIsValid(fs: FS, X: set<(int, int)>, x: Xfer)
    requires Exclusive(fs, X) && IsFile(fs, x.n) && MissingSlot(fs, x).None? && forall r :: (x.n, r) !in X
    ensures ValidBlock(BlockNo(fs, x.n, AtBlock(x)))
  {
    hide Slot;
    assert Owns(fs, x.n, DataSlot(AtBlock(x)));
  }

  lemma LoopRecords(fs: FS, X: set<(int, int)>, job: Job, x: Xfer)
    requires Ready(fs, X, InRw(job, Loop(x))) && DoLoop(fs, job, x).event.Some?
    ensures Recorded(InRw(job, Loop(x)), DoLoop(fs, job, x).event.value)
  {
    hide Slot, Copied, DirOk, HandlesSane, Exclusive, MissingSlot, HeldAt, Block;
    var p := InRw(job, Loop(x));
    assert X + EmptyingAt(p) == X;
    FileIsHeld(job, x);
    HeldFileIsClear(X, p, x.n);
    if MissingSlot(fs, x).None? { FilledIsValid(fs, X, x); }
  }

  lemma FileIsHeld(job: Job, x: Xfer)
    ensures Hold(Ino(x.n), true) in HeldAt(InRw(job, Loop(x)))
  {
  }

  lemma RwRecords(fs: FS, X: set<(int, int)>, job: Job, rw: RwPC)
    requires Ready(fs, X, InRw(job, rw)) && DoRw(fs, job, rw).event.Some? && Transfers(DoRw(fs, job, rw).event.value)
    ensures Recorded(InRw(job, rw), DoRw(fs, job, rw).event.value)
  {
    hide Slot, Whole, FillSlot, DoLoop, Place, Clear;
    match rw
    case Loop(x) => LoopRecords(fs, X, job, x);
    case _ =>
  }

  lemma MoverIsInRw(p: PC)
    requires Moving(p).Some?
    ensures p.InRw?
  {
  }

  /** Every read or write that goes on record is the whole of what the code moves for its request: a write has all those
      bytes in, unless its thread has just been through all blocks without finding a FREE one. */
  lemma WritesAreWhole(run: seq<State>, i: nat, t: nat)
    requires Execution(run) && i + 1 < |run| && ThreadStep(run[i], run[i + 1], t) && |run[i + 1].log| != |run[i].log|
    ensures var e := run[i + 1].log[|run[i].log|]; Transfers(e) ==> Recorded(run[i].threads[t].pc, e)
  {
    hide Safe, Ready, DoRw, Execution, RootOk, Recorded, DoOpen, DoTable, DoClose, Grantable, NewHeld, Moving;
    ReachableIsSafe(run, i);
    var s := run[i];
    var p := s.threads[t].pc;
    SafeIsReady(s, t);
    StepEventIsOwn(s.fs, p);
    if Transfers(run[i + 1].log[|s.log|]) {
      MoverIsInRw(p);
      RwRecords(s.fs, Rest(s.threads, t), p.job, p.rw);
    }
  }

  // ---------------------------------------------------------------- the step before

  /** The state before the last has the same thread at the same place, or the thread took the last step, or it started. */
  lemma StepBefore(run: seq<State>, i: nat, t: nat)
    requires Execution(run) && 0 < i < |run| && t < |run[i].threads|
    ensures t < |run[i - 1].threads|
    ensures var p, p' := run[i - 1].threads[t].pc, run[i].threads[t].pc;
            || p' == p
            || (!p.Idle? && InRange(p) && RootOk(run[i - 1].fs) && p' == Do(run[i - 1].fs, p).pc)
            || (p.Idle? && MayStart(run[i - 1], p'))
  {
    hide Do, Init, Grantable, RootOk, InRange, MayStart;
    RunSteps(run, i);
    var u: nat :| ThreadStep(run[i - 1], run[i], u) || Starts(run[i - 1], run[i], u);
  }

  // ---------------------------------------------------------------- scans

  /** The thread's scan for a FREE block has gone past block b. */
  predicate ScannedPast(p: PC, b: int) {
    p.InRw? && (p.rw.AllocScan? || p.rw.AllocHeld?) && b < p.rw.j
  }

  /** The thread holds the lock of block b, in the scan that p is in. */
  predicate LooksAt(p: PC, p': PC, b: nat) {
    p'.InRw? && (p'.rw.AllocScan? || p'.rw.AllocHeld?) && p == InRw(p'.job, AllocHeld(p'.rw.x, p'.rw.s, b))
  }

  /** A thread stays in its operation until it ends, but that an open goes on to the table. */
  lemma StaysInOperation(fs: FS, p: PC)
    requires InRange(p) && RootOk(fs) && !p.Idle?
    ensures var p' := Do(fs, p).pc;
            p'.Idle? || (if p.InOpen? then p'.InTable? || (p'.InOpen? && p'.name == p.name && p'.flags == p.flags)
                         else if p.InTable? then p'.InTable? else if p.InClose? then p'.InClose? else p'.InRw?)
  {
    hide Slot, RootOk, EntryNum, Answers, DoRw, StoredName, Patch, Content, WrittenBlocks, RwRange;
    if p.InRw? { RwStays(fs, p.job, p.rw); }
  }

  lemma ScanStep(fs: FS, p: PC, b: nat)
    requires InRange(p) && RootOk(fs) && !p.Idle? && ScannedPast(Do(fs, p).pc, b) && ValidBlock(b)
    ensures ScannedPast(p, b) || (LooksAt(p, Do(fs, p).pc, b) && fs.blockTaken[b])
    ensures ScannedPast(p, b) ==> forall q :: LooksAt(q, p, b) <==> LooksAt(q, Do(fs, p).pc, b)
  {
    hide RootOk, DoOpen, DoRw, DoTable, DoClose, RwRange, OpenRange;
    StaysInOperation(fs, p);
    RwScans(fs, p.job, p.rw, b);
  }

  lemma RwScans(fs: FS, job: Job, rw: RwPC, b: nat)
    requires RwRange(job, rw) && ScannedPast(DoRw(fs, job, rw).pc, b) && ValidBlock(b)
    ensures var p, p' := InRw(job, rw), DoRw(fs, job, rw).pc;
            && (ScannedPast(p, b) || (LooksAt(p, p', b) && fs.blockTaken[b]))
            && (ScannedPast(p, b) ==> forall q :: LooksAt(q, p, b) <==> LooksAt(q, p', b))
  {
    hide Slot, Copied, MissingSlot, FillSlot, CopySize;
  }

  lemma FirstIsIdle(run: seq<State>, t: nat)
    requires Execution(run) && t < |run[0].threads|
    ensures run[0].threads[t].pc == Idle
  {
  }

  lemma IdleHasNotScanned(b: int)
    ensures !ScannedPast(Idle, b)
  {
  }

  lemma NoScanAtStart(s: State, pc: PC, b: int)
    requires MayStart(s, pc)
    ensures !ScannedPast(pc, b)
  {
  }

  lemma LockHeld(s: State, t: nat, p': PC, b: nat)
    requires LocksOk(s) && t < |s.threads| && LooksAt(s.threads[t].pc, p', b)
    ensures Hold(Blk(b), true) in s.threads[t].held
  {
    hide InRange, Conflict;
  }

  /** Every block that a scan has gone past was TAKEN when the scan looked at it, under its lock. In particular a write
      that went on record short of its request has seen all 1024 blocks TAKEN. */
  lemma {:induction false} ScanSawTaken(run: seq<State>, i: nat, t: nat, b: nat) returns (k: nat)
    requires Execution(run) && i < |run| && t < |run[i].threads| && ScannedPast(run[i].threads[t].pc, b) && ValidBlock(b)
    ensures k < i && t < |run[k].threads| && run[k].fs.blockTaken[b]
    ensures LooksAt(run[k].threads[t].pc, run[i].threads[t].pc, b) && Hold(Blk(b), true) in run[k].threads[t].held
  {
    hide Do, MayStart, Execution, Step, LooksAt, ScannedPast, InRange, RootOk;
    if i == 0 {
      FirstIsIdle(run, t);
      IdleHasNotScanned(b);
      assert false;
    } else {
      StepBefore(run, i, t);
      if MayStart(run[i - 1], run[i].threads[t].pc) { NoScanAtStart(run[i - 1], run[i].threads[t].pc, b); }
      var p := run[i - 1].threads[t].pc;
      if p != run[i].threads[t].pc { ScanStep(run[i - 1].fs, p, b); }
      if ScannedPast(p, b) {
        k := ScanSawTaken(run, i - 1, t, b);
      } else {
        k := i - 1;
        ReachableIsSafe(run, k);
        LockHeld(run[k], t, run[i].threads[t].pc, b);
      }
    }
  }

  // ---------------------------------------------------------------- opens

  /** The open decides to put its handle at offset off of file n: at the end of a file it found, when it appends and
      does not empty it; at the start of one it found, emptied or made. */
  ghost predicate Decides(fs: FS, p: PC, n: int, off: nat) {
    && p.InOpen?
    && match p.at
       case Decide(m) =>
         && m == n && ValidInum(n) && (p.flags.truncate ==> fs.inodes[n].size == 0)
         && off == if p.flags.append then fs.inodes[n].size else 0
       case TruncEnd(m) => m == n && off == 0
       case AddHeld(m, i) => m == n && off == 0
       case _ => false
  }

  lemma PositionStep(fs: FS, p: PC, n: int, off: nat)
    requires InRange(p) && RootOk(fs) && !p.Idle? && Position(Do(fs, p).pc, n, off)
    ensures Position(p, n, off) || Decides(fs, p, n, off)
  {
    hide RootOk, DoOpen, DoRw, DoTable, DoClose, RwRange, OpenRange, TableRange, Decides;
    StaysInOperation(fs, p);
    if p.InOpen? { OpenPositions(fs, p.name, p.flags, p.at, n, off); } else { TablePositions(fs, p.n, p.off, p.table); }
  }

  lemma OpenPositions(fs: FS, name: CString, flags: Flags, at: OpenPC, n: int, off: nat)
    requires name != [] && OpenRange(at) && RootOk(fs) && Position(DoOpen(fs, name, flags, at).pc, n, off)
    ensures Position(InOpen(name, flags, at), n, off) || Decides(fs, InOpen(name, flags, at), n, off)
  {
    hide Slot, RootOk, EntryNum, Answers, StoredName, EncodeInt, Patch, WrittenBlocks, Content;
  }

  lemma TablePositions(fs: FS, n: int, off: nat, at: TablePC)
    requires TableRange(at)
    ensures DoTable(fs, n, off, at).pc.InTable? ==> DoTable(fs, n, off, at).pc.n == n && DoTable(fs, n, off, at).pc.off == off
  {
  }

  lemma NoPositionAtStart(s: State, pc: PC, n: int, off: nat)
    requires pc == Idle || MayStart(s, pc)
    ensures !Position(pc, n, off)
  {
  }

  /** The offset that a thread carries to the open-file table is the one that its open decided on, under the lock of the
      file; from then on it only walked to the table. */
  lemma {:induction false} PositionIsDecided(run: seq<State>, i: nat, t: nat, n: int, off: nat) returns (k: nat)
    requires Execution(run) && i < |run| && t < |run[i].threads| && Position(run[i].threads[t].pc, n, off)
    ensures k < i && t < |run[k].threads| && Decides(run[k].fs, run[k].threads[t].pc, n, off)
    ensures Hold(Ino(n), true) in run[k].threads[t].held
    ensures forall j :: k < j <= i ==> t < |run[j].threads| && Position(run[j].threads[t].pc, n, off)
  {
    hide Execution, Position, Decides;
    PositionBefore(run, i, t, n, off);
    if Position(run[i - 1].threads[t].pc, n, off) {
      k := PositionIsDecided(run, i - 1, t, n, off);
    } else {
      k := i - 1;
    }
  }

  /** A thread that has a position had it a step before, or decided it then. */
  lemma PositionBefore(run: seq<State>, i: nat, t: nat, n: int, off: nat)
    requires Execution(run) && i < |run| && t < |run[i].threads| && Position(run[i].threads[t].pc, n, off)
    ensures 0 < i && t < |run[i - 1].threads|
    ensures || Position(run[i - 1].threads[t].pc, n, off)
            || (Decides(run[i - 1].fs, run[i - 1].threads[t].pc, n, off) && Hold(Ino(n), true) in run[i - 1].threads[t].held)
  {
    hide Do, MayStart, Execution, Step, Position, Decides, InRange, RootOk, Safe;
    if i == 0 {
      FirstIsIdle(run, t);
      NoPositionAtStart(run[0], Idle, n, off);
      assert false;
    } else {
      StepBefore(run, i, t);
      var p, p' := run[i - 1].threads[t].pc, run[i].threads[t].pc;
      if MayStart(run[i - 1], p') { NoPositionAtStart(run[i - 1], p', n, off); }
      if p != p' { PositionStep(run[i - 1].fs, p, n, off); }
      if !Position(p, n, off) {
        ReachableIsSafe(run, i - 1);
        SafeLocks(run[i - 1]);
        DeciderHolds(run[i - 1], t, n, off);
      }
    }
  }

  lemma SafeLocks(s: State)
    requires Safe(s)
    ensures LocksOk(s)
  {
  }

  lemma DeciderHolds(s: State, t: nat, n: int, off: nat)
    requires LocksOk(s) && t < |s.threads| && Decides(s.fs, s.threads[t].pc, n, off)
    ensures Hold(Ino(n), true) in s.threads[t].held
  {
    hide InRange, Conflict;
  }

  /** An open goes on record as a FREE entry of the table filled with the file it found or made, at the offset that its
      flags and the size of the file, when its lock was held, ask for. */
  lemma OpensAreAsDecided(run: seq<State>, i: nat, t: nat) returns (k: nat)
    requires Execution(run) && i + 1 < |run| && ThreadStep(run[i], run[i + 1], t)
    requires |run[i + 1].log| != |run[i].log| && run[i + 1].log[|run[i].log|].Handed?
    ensures var e := run[i + 1].log[|run[i].log|];
            && ValidHandle(e.h) && !run[i].fs.handleTaken[e.h] && run[i + 1].fs.handles[e.h] == OpenFile(e.n, e.off)
            && k < i && t < |run[k].threads| && Decides(run[k].fs, run[k].threads[t].pc, e.n, e.off)
            && Hold(Ino(e.n), true) in run[k].threads[t].held
  {
    ReachableIsSafe(run, i);
    hide Whole, LocksOk, Apart, Execution, RootOk, DoOpen, DoRw, Decides, OpenPlace, RwPlace, OpenRange, RwRange;
    var p := run[i].threads[t].pc;
    StepEventIsOwn(run[i].fs, p);
    assert Place(run[i].fs, Emptying(run[i].threads), p);
    k := PositionIsDecided(run, i, t, p.n, p.off);
  }

  /** The size that an append goes by is the length of the file in the history of that moment. */
  lemma AppendsAtTheEnd(run: seq<State>, k: nat, t: nat, cut: set<int>)
    requires Execution(run) && TruncatesOnly(run, cut) && k < |run| && t < |run[k].threads|
    requires run[k].threads[t].pc.InOpen? && run[k].threads[t].pc.at.Decide? && run[k].threads[t].pc.at.n !in cut
    ensures var n := run[k].threads[t].pc.at.n;
            IsInum(n) && run[k].fs.inodes[n].size == |Replay(run[k].log).files[n]|
  {
    hide Safe, Content, Execution, Serialised, TruncatesOnly, Replay, Settled;
    ReachableIsSafe(run, k);
    RunsAreSerial(run, k, cut);
    StepIsSettled(cut, run[k], t);
    DeciderSees(cut, run[k], t);
  }

  lemma DeciderSees(cut: set<int>, s: State, t: nat)
    requires Safe(s) && t < |s.threads| && s.threads[t].pc.InOpen? && s.threads[t].pc.at.Decide? && s.threads[t].pc.at.n !in cut
    requires Settled(cut, s.fs, Replay(s.log), s.threads[t].pc)
    ensures var n := s.threads[t].pc.at.n; IsInum(n) && s.fs.inodes[n].size == |Replay(s.log).files[n]|
  {
    hide Content, Whole, Apart, Replay, Conflict, Emptying;
    var p := s.threads[t].pc;
    assert Place(s.fs, Emptying(s.threads), p);
    assert Content(s.fs, p.at.n) == Replay(s.log).files[p.at.n];
  }

  // ---------------------------------------------------------------- truncation

  /** The thread is truncating though its open did not ask for it. */
  predicate TruncatesUnasked(p: PC) {
    p.InOpen? && Truncating(p.at) && !p.flags.truncate
  }

  lemma TruncStep(fs: FS, p: PC)
    requires InRange(p) && RootOk(fs) && !p.Idle? && !TruncatesUnasked(p)
    ensures !TruncatesUnasked(Do(fs, p).pc)
  {
    hide RootOk, DoOpen, DoRw, DoTable, DoClose, RwRange, OpenRange, TableRange;
    StaysInOperation(fs, p);
    if p.InOpen? && !p.flags.truncate { OpenTruncates(fs, p.name, p.flags, p.at); }
  }

  lemma OpenTruncates(fs: FS, name: CString, flags: Flags, at: OpenPC)
    requires name != [] && OpenRange(at) && RootOk(fs) && !flags.truncate && !Truncating(at)
    ensures DoOpen(fs, name, flags, at).pc.InOpen? ==> !Truncating(DoOpen(fs, name, flags, at).pc.at)
  {
    hide Slot, RootOk, EntryNum, Answers, StoredName, EncodeInt, Patch, WrittenBlocks, Content;
  }

  lemma NoTruncationAtStart(s: State, pc: PC)
    requires pc == Idle || MayStart(s, pc)
    ensures !TruncatesUnasked(pc)
  {
  }

  /** A file is truncated only by an open that asks for it. */
  lemma {:induction false} TruncatesAsAsked(run: seq<State>, i: nat, t: nat)
    requires Execution(run) && i < |run| && t < |run[i].threads|
    ensures !TruncatesUnasked(run[i].threads[t].pc)
  {
    hide Do, MayStart, Execution, Step, InRange, RootOk, TruncatesUnasked;
    if i == 0 {
      FirstIsIdle(run, t);
      NoTruncationAtStart(run[0], Idle);
    } else {
      StepBefore(run, i, t);
      TruncatesAsAsked(run, i - 1, t);
      var p, p' := run[i - 1].threads[t].pc, run[i].threads[t].pc;
      if MayStart(run[i - 1], p') { NoTruncationAtStart(run[i - 1], p'); }
      if p != p' && !p.Idle? { TruncStep(run[i - 1].fs, p); }
    }
  }

  /** In a run without opens that ask for truncation no file is set aside. */
  lemma NobodyTruncates(run: seq<State>)
    requires Execution(run)
    requires forall i, t :: 0 <= i < |run| && 0 <= t < |run[i].threads| && run[i].threads[t].pc.InOpen? ==>
               !run[i].threads[t].pc.flags.truncate
    ensures TruncatesOnly(run, {})
  {
    hide Execution;
    forall i, t | 0 <= i < |run| && 0 <= t < |run[i].threads| ensures CutsOnly(run[i].threads[t].pc, {}) {
      TruncatesAsAsked(run, i, t);
    }
  }
}
