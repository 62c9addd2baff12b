/** Which locks a thread holds at each place, mutual exclusion, and freedom from deadlock by lock rank. */
module Deadlock {
  import opened Options
  import opened Config
  import opened Disk
  import opened Directory
  import opened Invariant
  import opened Opening
  import opened Interleaving

  /** The order in which nested locks are taken. */
  function Rank(l: Lock): nat {
    match l
    case OpenLock => 0
    case Entry(h) => 1
    case Ino(n) => if n == ROOT_DIR_INUM then 3 else 2
    case DirEnt(i) => 4
    case Blk(b) => 5
    case CountLock => 6
  }

  function OpenHeld(at: OpenPC): set<Hold> {
    var dir := Hold(OpenLock, true);
    match at
    case Begin => {}
    case FindRootHeld => {dir, Hold(Ino(0), false)}
    case ScanHeld(i) => {dir, Hold(DirEnt(i), false)}
    case Decide(n) => {dir, Hold(Ino(n), true)}
    case TruncTest(n, s) => {dir, Hold(Ino(n), true)}
    case TruncLock(n, s, b) => {dir, Hold(Ino(n), true)}
    case TruncHeld(n, s, b) => {dir, Hold(Ino(n), true), Hold(Blk(b), true)}
    case TruncClear(n, s) => {dir, Hold(Ino(n), true)}
    case TruncEnd(n) => {dir, Hold(Ino(n), true)}
    case MakeHeld(i) => {dir, Hold(Ino(i), true)}
    case AddRoot(n, k) => {dir, Hold(Ino(n), true)}
    case AddRootHeld(n, k) => {dir, Hold(Ino(n), true), Hold(Ino(0), false)}
    case AddScan(n, i) => {dir, Hold(Ino(n), true)}
    case AddHeld(n, i) => {dir, Hold(Ino(n), true), Hold(DirEnt(i), true)}
    case Delete(n) => {dir, Hold(Ino(n), true)}
    case Leave(n, off) => {dir, Hold(Ino(n), true)}
    case LeaveIno(n, off) => {Hold(Ino(n), true)}
    case _ => {dir}
  }

  /** The locks held at each place. */
  function HeldAt(pc: PC): set<Hold> {
    match pc
    case Idle => {}
    case InOpen(name, flags, at) => OpenHeld(at)
    case InTable(n, off, at) =>
      (match at
       case Seek(h) => {}
       case SeekHeld(h) => {Hold(Entry(h), true)}
       case Count(h) => {Hold(Entry(h), true)}
       case CountHeld(h) => {Hold(Entry(h), true), Hold(CountLock, true)}
       case Unlock(h) => {Hold(CountLock, true)})
    case InClose(h, at) =>
      (match at
       case CloseLock => {}
       case CloseCountHeld => {Hold(Entry(h), false), Hold(CountLock, true)}
       case _ => {Hold(Entry(h), false)})
    case InRw(job, rw) =>
      (match rw
       case Start => {}
       case LockIno => {Hold(Entry(job.h), true)}
       case Plan(n) => {Hold(Entry(job.h), true), Hold(Ino(n), true)}
       case Loop(x) => {Hold(Entry(job.h), true), Hold(Ino(x.n), true)}
       case AllocScan(x, s, j) => {Hold(Entry(job.h), true), Hold(Ino(x.n), true)}
       case AllocHeld(x, s, j) => {Hold(Entry(job.h), true), Hold(Ino(x.n), true), Hold(Blk(j), true)}
       case HasBlock(x, s, b) => {Hold(Entry(job.h), true), Hold(Ino(x.n), true)}
       case RwLeave(n) => {Hold(Entry(job.h), true), Hold(Ino(n), true)}
       case RwLeaveIno(n) => {Hold(Ino(n), true)})
  }

  /** Each thread holds what its place says, and no two threads hold a lock in conflict. */
  ghost predicate LocksOk(s: State) {
    && (forall t :: 0 <= t < |s.threads| ==> InRange(s.threads[t].pc) && s.threads[t].held == HeldAt(s.threads[t].pc))
    && (forall t, u, a, b {:trigger a in s.threads[t].held, b in s.threads[u].held} ::
          0 <= t < |s.threads| && 0 <= u < |s.threads| && t != u && a in s.threads[t].held && b in s.threads[u].held ==>
          !Conflict(a, b))
  }

  /** After a step the thread holds what its new place says. */
  lemma StepKeepsHeld(fs: FS, pc: PC)
    requires InRange(pc) && RootOk(fs) && !pc.Idle?
    ensures NewHeld(HeldAt(pc), Do(fs, pc)) == HeldAt(Do(fs, pc).pc)
  {
    hide Slot, Content, EntryNum, Answers, RootOk;
    match pc
    case InOpen(name, flags, at) => OpenKeepsHeld(fs, name, flags, at);
    case InTable(n, off, at) =>
    case InClose(h, at) =>
    case InRw(job, rw) => RwKeepsHeld(fs, job, rw);
  }

  predicate Looking(at: OpenPC) {
    at.Begin? || at.FindRoot? || at.FindRootHeld? || at.Scan? || at.ScanHeld? || at.Exists? || at.Decide?
    || at.Leave? || at.LeaveIno? || at.LeaveOpen?
  }

  predicate Truncating(at: OpenPC) {
    at.TruncTest? || at.TruncLock? || at.TruncHeld? || at.TruncClear? || at.TruncEnd?
  }

  lemma OpenKeepsHeld(fs: FS, name: CString, flags: Flags, at: OpenPC)
    requires name != [] && OpenRange(at) && RootOk(fs)
    ensures var e := DoOpen(fs, name, flags, at); NewHeld(OpenHeld(at), e) == HeldAt(e.pc)
  {
    hide Slot, Content, EntryNum, Answers, RootOk;
    if Looking(at) { LookingKeepsHeld(fs, name, flags, at); }
    else if Truncating(at) { TruncatingKeepsHeld(fs, name, flags, at); }
    else { MakingKeepsHeld(fs, name, flags, at); }
  }

  lemma LookingKeepsHeld(fs: FS, name: CString, flags: Flags, at: OpenPC)
    requires name != [] && OpenRange(at) && RootOk(fs) && Looking(at)
    ensures var e := DoOpen(fs, name, flags, at); NewHeld(OpenHeld(at), e) == HeldAt(e.pc)
  {
    hide Slot, Content, EntryNum, Answers, RootOk;
  }

  lemma TruncatingKeepsHeld(fs: FS, name: CString, flags: Flags, at: OpenPC)
    requires name != [] && OpenRange(at) && RootOk(fs) && Truncating(at)
    ensures var e := DoOpen(fs, name, flags, at); NewHeld(OpenHeld(at), e) == HeldAt(e.pc)
  {
    hide Slot, Content, RootOk;
  }

  lemma MakingKeepsHeld(fs: FS, name: CString, flags: Flags, at: OpenPC)
    requires name != [] && OpenRange(at) && RootOk(fs) && !Looking(at) && !Truncating(at)
    ensures var e := DoOpen(fs, name, flags, at); NewHeld(OpenHeld(at), e) == HeldAt(e.pc)
  {
    hide Slot, Content, EntryNum, RootOk;
  }

  lemma RwKeepsHeld(fs: FS, job: Job, rw: RwPC)
    requires RwRange(job, rw)
    ensures var e := DoRw(fs, job, rw); NewHeld(HeldAt(InRw(job, rw)), e) == HeldAt(e.pc)
  {
    hide Slot, XferRange;
  }

  /** A lock is only ever waited for by a thread whose other locks all rank below it. */
  lemma WaitsInRankOrder(fs: FS, pc: PC, g: Hold)
    requires InRange(pc) && RootOk(fs) && !pc.Idle?
    requires Do(fs, pc).acquire.Some? && g in HeldAt(pc)
    ensures Rank(g.lock) < Rank(Do(fs, pc).acquire.value.lock)
  {
    hide Slot, Content, EntryNum, Answers, RootOk, MissingSlot, DoLoop;
    match pc
    case InOpen(name, flags, at) => OpenWaitsInRankOrder(fs, name, flags, at, g);
    case InTable(n, off, at) =>
    case InClose(h, at) =>
    case InRw(job, rw) => LoopNeverWaits(fs, job, rw);
  }

  lemma LoopNeverWaits(fs: FS, job: Job, rw: RwPC)
    requires RwRange(job, rw)
    ensures rw.Loop? ==> DoLoop(fs, job, rw.x).acquire.None?
  {
    hide Slot;
  }

  lemma OpenWaitsInRankOrder(fs: FS, name: CString, flags: Flags, at: OpenPC, g: Hold)
    requires name != [] && OpenRange(at) && RootOk(fs)
    requires DoOpen(fs, name, flags, at).acquire.Some? && g in OpenHeld(at)
    ensures Rank(g.lock) < Rank(DoOpen(fs, name, flags, at).acquire.value.lock)
  {
    hide Slot, Content, EntryNum, Answers, RootOk;
  }

  /** Thread t can take its next step. */
  ghost predicate Enabled(s: State, t: nat) {
    exists s' :: ThreadStep(s, s', t)
  }

  ghost predicate Waits(s: State, t: nat)
    requires t < |s.threads| && !s.threads[t].pc.Idle? && InRange(s.threads[t].pc) && RootOk(s.fs)
  {
    var e := Do(s.fs, s.threads[t].pc);
    e.acquire.Some? && !Grantable(s.threads, t, e.acquire.value)
  }

  lemma NotWaitingIsEnabled(s: State, t: nat)
    requires t < |s.threads| && !s.threads[t].pc.Idle? && InRange(s.threads[t].pc) && RootOk(s.fs)
    ensures Waits(s, t) || Enabled(s, t)
  {
    hide Do, Grantable;
    if !Waits(s, t) {
      var e := Do(s.fs, s.threads[t].pc);
      var s' := State(e.fs, s.threads[t := Thread(e.pc, NewHeld(s.threads[t].held, e))],
                      if e.event.Some? then s.log + [e.event.value] else s.log);
      assert ThreadStep(s, s', t);
    }
  }

  /** From any unfinished thread, following who it waits for leads to a thread that can step. */
  lemma {:induction false} FindEnabled(s: State, t: nat) returns (u: nat)
    requires LocksOk(s) && RootOk(s.fs) && t < |s.threads| && !s.threads[t].pc.Idle?
    ensures u < |s.threads| && !s.threads[u].pc.Idle? && Enabled(s, u)
    decreases 6 - if Do(s.fs, s.threads[t].pc).acquire.Some? then Rank(Do(s.fs, s.threads[t].pc).acquire.value.lock) else 0
  {
    hide Do, HeldAt, RootOk, Rank;
    NotWaitingIsEnabled(s, t);
    if !Waits(s, t) {
      return t;
    }
    var w := Do(s.fs, s.threads[t].pc).acquire.value;
    var v, g :| 0 <= v < |s.threads| && v != t && g in s.threads[v].held && Conflict(g, w);
    HoldersAreBusy(s, v, g);
    NotWaitingIsEnabled(s, v);
    if !Waits(s, v) {
      return v;
    }
    WaitsInRankOrder(s.fs, s.threads[v].pc, g);
    RankBound(Do(s.fs, s.threads[v].pc).acquire.value.lock);
    u := FindEnabled(s, v);
  }

  lemma RankBound(l: Lock)
    ensures Rank(l) <= 6
  {
  }

  lemma HoldersAreBusy(s: State, v: nat, g: Hold)
    requires LocksOk(s) && v < |s.threads| && g in s.threads[v].held
    ensures !s.threads[v].pc.Idle?
  {
  }
}
