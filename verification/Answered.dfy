/**
  What the opens and closes of a run are answered, among any other threads: each answer follows from what its thread saw
  while it held the locks, and from what was asked for.
 */
module Answered {
  import opened Options
  import opened Config
  import opened Bytes
  import opened Disk
  import opened Directory
  import opened Ownership
  import opened Invariant
  import opened FirstFit
  import opened Growth
  import opened ReadLoop
  import opened Truncation
  import opened Opening
  import opened Interleaving
  import opened Deadlock
  import opened Safety
  import opened SharedData
  import opened SharedSteps
  import opened Reachable
  import opened Guarantees
  import opened Serial
  import opened SerialSteps
  import opened Record
  import opened Transfer
  import Tables

  // ---------------------------------------------------------------- what a thread saw

  /** At moment k thread t holds the lock for itself. */
  predicate Has(run: seq<State>, k: nat, t: nat, l: Lock) {
    k < |run| && t < |run[k].threads| && Hold(l, true) in run[k].threads[t].held
  }

  /** Since moment k0 thread t has seen each of the first m i-nodes TAKEN, under its lock. */
  ghost predicate SawInodes(run: seq<State>, k0: nat, i: nat, t: nat, m: int) {
    forall n :: ValidInum(n) && n < m ==> exists k: nat :: k0 <= k < i && Has(run, k, t, Ino(n)) && run[k].fs.inodeTaken[n]
  }

  /** Since moment k0 thread t has seen each of the first m open-file entries TAKEN, under its lock. */
  ghost predicate SawEntries(run: seq<State>, k0: nat, i: nat, t: nat, m: int) {
    forall h :: ValidHandle(h) && h < m ==> exists k: nat :: k0 <= k < i && Has(run, k, t, Entry(h)) && run[k].fs.handleTaken[h]
  }

  // ---------------------------------------------------------------- what an open decides

  /** The name stands for file n, which need not be emptied, and the offset is its start, or its end to append. */
  ghost predicate FoundAt(run: seq<State>, k: nat, t: nat, name: CString, flags: Flags, n: int, off: nat) {
    && Has(run, k, t, OpenLock) && Has(run, k, t, Ino(n)) && Named(run[k].fs, name, n)
    && (flags.truncate ==> run[k].fs.inodes[n].size == 0) && off == if flags.append then run[k].fs.inodes[n].size else 0
  }

  /** The name stands for file n, which is empty from the next moment on. */
  ghost predicate EmptiedAt(run: seq<State>, k: nat, t: nat, name: CString, flags: Flags, n: int, off: nat) {
    && Has(run, k, t, OpenLock) && Has(run, k, t, Ino(n)) && Named(run[k].fs, name, n) && k + 1 < |run|
    && flags.truncate && off == 0 && run[k + 1].fs.inodes[n].size == 0 && Named(run[k + 1].fs, name, n)
  }

  /** The name stands for nothing, and from the next moment on for the empty file n, in the first unused entry. */
  ghost predicate MadeAt(run: seq<State>, k: nat, t: nat, name: CString, flags: Flags, n: int, off: nat) {
    && Has(run, k, t, OpenLock) && Has(run, k, t, Ino(n)) && NoName(run[k].fs, name) && Fresh(run[k].fs, n) && k + 1 < |run|
    && flags.create && off == 0 && RootOk(run[k + 1].fs)
    && exists j :: IsFirstUnused(Root(run[k].fs), j) && Root(run[k + 1].fs) == WithEntry(Root(run[k].fs), j, n, name)
  }

  /** At moment k thread t, which holds file n, gives back the block of its slot s. */
  ghost predicate FreesAt(run: seq<State>, k: nat, t: nat, n: int, s: nat) {
    && Has(run, k, t, Ino(n)) && k + 1 < |run| && ValidBlock(Slot(run[k].fs, n, s))
    && !run[k + 1].fs.blockTaken[Slot(run[k].fs, n, s)]
  }

  /** Since k0 thread t has given back the block of slot s of file n. */
  ghost predicate Freed(run: seq<State>, k0: nat, i: nat, t: nat, n: int, s: nat) {
    exists k: nat :: k0 <= k < i && FreesAt(run, k, t, n, s)
  }

  ghost predicate FreedBelow(run: seq<State>, k0: nat, i: nat, t: nat, n: int, m: nat) {
    forall s: nat :: s < m ==> Freed(run, k0, i, t, n, s)
  }

  /** Since k0 thread t has given back the blocks of all the slots that a truncation of file n has to free. */
  ghost predicate AllFreed(run: seq<State>, k0: nat, i: nat, t: nat, n: int) {
    exists k: nat ::
      k0 <= k < i && k < |run| && Has(run, k, t, Ino(n)) && forall s: nat :: ToFree(run[k].fs, n, s) ==> Freed(run, k0, i, t, n, s)
  }

  /** Since k0 the open has found, emptied or made file n, and so decided on the offset. */
  ghost predicate Decided(run: seq<State>, k0: nat, i: nat, t: nat, name: CString, flags: Flags, n: int, off: nat) {
    exists k: nat :: k0 <= k < i &&
      (FoundAt(run, k, t, name, flags, n, off)
       || (EmptiedAt(run, k, t, name, flags, n, off) && AllFreed(run, k0, k, t, n))
       || (MadeAt(run, k, t, name, flags, n, off) && SawInodes(run, k0, i, t, n)))
  }

  /** The name stands for file n, which is to be emptied, but a block that the truncation has to free is not there. */
  ghost predicate StuckAt(run: seq<State>, k: nat, t: nat, name: CString, flags: Flags, n: int) {
    && Has(run, k, t, OpenLock) && Has(run, k, t, Ino(n)) && Named(run[k].fs, name, n) && flags.truncate
    && exists s: nat :: ToFree(run[k].fs, n, s) && !ValidBlock(Slot(run[k].fs, n, s))
  }

  /** The name stands for nothing, no directory entry is left for it, and the new i-node is FREE again from the next moment on. */
  ghost predicate NoRoomAt(run: seq<State>, k: nat, t: nat, name: CString, flags: Flags, n: int) {
    && Has(run, k, t, OpenLock) && NoName(run[k].fs, name) && flags.create && AllUsed(Root(run[k].fs)) && k + 1 < |run|
    && ValidInum(n) && !run[k + 1].fs.inodeTaken[n] && RootOk(run[k + 1].fs) && Root(run[k + 1].fs) == Root(run[k].fs)
  }

  ghost predicate GaveUp(run: seq<State>, k0: nat, i: nat, t: nat, name: CString, flags: Flags, n: int) {
    exists k: nat :: k0 <= k < i && (StuckAt(run, k, t, name, flags, n) || NoRoomAt(run, k, t, name, flags, n))
  }

  // ---------------------------------------------------------------- the history of an open

  predicate InThatOpen(p: PC, name: CString, flags: Flags) {
    p.InTable? || (p.InOpen? && p.name == name && p.flags == flags)
  }

  /** Thread t began to open name at moment k0, and is at it still. */
  ghost predicate OpenSince(run: seq<State>, k0: nat, i: nat, t: nat, name: CString, flags: Flags) {
    && k0 <= i < |run| && (forall j :: k0 <= j <= i ==> t < |run[j].threads| && InThatOpen(run[j].threads[t].pc, name, flags))
    && run[k0].threads[t].pc == InOpen(name, flags, Begin)
  }

  /** What a thread in the middle of an open has behind it, by its place. */
  ghost predicate OpenPast(run: seq<State>, k0: nat, i: nat, t: nat, name: CString, flags: Flags, p: PC) {
    match p
    case InOpen(_, _, at) =>
      (match at
       case Make(m) => flags.create && SawInodes(run, k0, i, t, m)
       case MakeHeld(m) => flags.create && SawInodes(run, k0, i, t, m)
       case MakeLock(n) => flags.create && SawInodes(run, k0, i, t, n)
       case AddRoot(n, k) => flags.create && SawInodes(run, k0, i, t, n)
       case AddRootHeld(n, k) => flags.create && SawInodes(run, k0, i, t, n)
       case AddScan(n, j) => flags.create && SawInodes(run, k0, i, t, n)
       case AddHeld(n, j) => flags.create && SawInodes(run, k0, i, t, n)
       case Delete(n) => flags.create
       case LeaveOpen => flags.create ==> SawInodes(run, k0, i, t, INODE_TABLE_SIZE)
       case Leave(n, off) => LeavesWith(run, k0, i, t, name, flags, n, off)
       case LeaveIno(n, off) => LeavesWith(run, k0, i, t, name, flags, n, off)
       case TruncTest(n, m) => flags.truncate && FreedBelow(run, k0, i, t, n, m)
       case TruncLock(n, m, b) => flags.truncate && FreedBelow(run, k0, i, t, n, m)
       case TruncHeld(n, m, b) => flags.truncate && FreedBelow(run, k0, i, t, n, m)
       case TruncClear(n, m) => flags.truncate && FreedBelow(run, k0, i, t, n, m + 1)
       case TruncEnd(n) => flags.truncate && AllFreed(run, k0, i, t, n)
       case _ => true)
    case InTable(n, off, at) => Decided(run, k0, i, t, name, flags, n, off) && SawEntries(run, k0, i, t, at.h)
    case _ => true
  }

  ghost predicate LeavesWith(run: seq<State>, k0: nat, i: nat, t: nat, name: CString, flags: Flags, n: int, off: Option<nat>) {
    if off.Some? then Decided(run, k0, i, t, name, flags, n, off.value) else GaveUp(run, k0, i, t, name, flags, n)
  }

  /** The past stays the past. */
  lemma PastStays(run: seq<State>, k0: nat, i: nat, i': nat, t: nat, name: CString, flags: Flags, p: PC)
    requires OpenPast(run, k0, i, t, name, flags, p) && i <= i'
    ensures OpenPast(run, k0, i', t, name, flags, p)
  {
    hide Has, FoundAt, EmptiedAt, MadeAt, StuckAt, NoRoomAt, FreesAt, ToFree, AllFreed, FreedBelow;
    if p.InOpen? && Truncating(p.at) { FreedStays(run, k0, i, i', t, p.at.n); }
  }

  lemma FreedStays(run: seq<State>, k0: nat, i: nat, i': nat, t: nat, n: int)
    requires i <= i'
    ensures forall m :: FreedBelow(run, k0, i, t, n, m) ==> FreedBelow(run, k0, i', t, n, m)
    ensures AllFreed(run, k0, i, t, n) ==> AllFreed(run, k0, i', t, n)
  {
    hide Has, FreesAt, ToFree;
    assert forall s: nat :: Freed(run, k0, i, t, n, s) ==> Freed(run, k0, i', t, n, s);
    hide Freed;
    if AllFreed(run, k0, i, t, n) {
      var k: nat :|
        && k0 <= k < i && k < |run| && Has(run, k, t, Ino(n))
        && forall s: nat :: ToFree(run[k].fs, n, s) ==> Freed(run, k0, i, t, n, s);
      assert k0 <= k < i' && Has(run, k, t, Ino(n));
    }
  }

  // ---------------------------------------------------------------- one step further

  /** Thread t, in its place at moment i, takes the next step. */
  ghost predicate Steps(run: seq<State>, i: nat, t: nat) {
    i + 1 < |run| && Safe(run[i]) && ThreadStep(run[i], run[i + 1], t)
  }

  lemma StepsDo(run: seq<State>, i: nat, t: nat)
    requires Steps(run, i, t)
    ensures t < |run[i].threads| && !run[i].threads[t].pc.Idle? && InRange(run[i].threads[t].pc) && RootOk(run[i].fs)
    ensures |run[i + 1].threads| == |run[i].threads|
    ensures var e := Do(run[i].fs, run[i].threads[t].pc);
            && run[i + 1].fs == e.fs && run[i + 1].threads[t].pc == e.pc
            && run[i + 1].log == run[i].log + if e.event.Some? then [e.event.value] else []
  {
    hide Do, Safe, Grantable, NewHeld, InRange, RootOk;
    assert run[i].log + [] == run[i].log;
  }

  lemma StepsHold(run: seq<State>, i: nat, t: nat, l: Lock)
    requires Steps(run, i, t) && t < |run[i].threads| && Hold(l, true) in HeldAt(run[i].threads[t].pc)
    ensures Has(run, i, t, l)
  {
    hide Whole, Place, Apart, HeldAt, InRange, ThreadStep, Conflict, Emptying;
  }

  lemma StepsPlace(run: seq<State>, i: nat, t: nat)
    requires Steps(run, i, t) && t < |run[i].threads|
    ensures Place(run[i].fs, Emptying(run[i].threads), run[i].threads[t].pc)
  {
    hide Whole, Place, Apart, HeldAt, InRange, ThreadStep, Conflict, Emptying;
  }

  lemma SawOneMore(run: seq<State>, k0: nat, i: nat, t: nat, m: int)
    requires SawInodes(run, k0, i, t, m) && k0 <= i && ValidInum(m) && Has(run, i, t, Ino(m)) && run[i].fs.inodeTaken[m]
    ensures SawInodes(run, k0, i + 1, t, m + 1)
  {
    hide Has;
  }

  lemma SawOneEntryMore(run: seq<State>, k0: nat, i: nat, t: nat, h: int)
    requires SawEntries(run, k0, i, t, h) && k0 <= i && ValidHandle(h) && Has(run, i, t, Entry(h)) && run[i].fs.handleTaken[h]
    ensures SawEntries(run, k0, i + 1, t, h + 1)
  {
    hide Has;
  }

  lemma LookingPast(run: seq<State>, k0: nat, i: nat, t: nat, name: CString, flags: Flags, at: OpenPC)
    requires Steps(run, i, t) && t < |run[i].threads| && run[i].threads[t].pc == InOpen(name, flags, at) && Looking(at) && k0 <= i
    requires OpenPast(run, k0, i, t, name, flags, InOpen(name, flags, at))
    ensures OpenPast(run, k0, i + 1, t, name, flags, run[i + 1].threads[t].pc)
  {
    hide Safe, ThreadStep, Has, EmptiedAt, MadeAt, StuckAt, NoRoomAt, Slot, Content, EntryNum, Answers, RootOk, Root, Find,
         SawInodes, SawEntries, HeldAt, Decided, GaveUp, NoName;
    var p := InOpen(name, flags, at);
    StepsDo(run, i, t);
    PastStays(run, k0, i, i + 1, t, name, flags, p);
    NothingSeenYet(run, k0, i + 1, t);
    if at.Decide? {
      StepsPlace(run, i, t);
      DecideHolds(name, flags, at.n);
      StepsHold(run, i, t, OpenLock);
      StepsHold(run, i, t, Ino(at.n));
      FoundIsDecided(run, k0, i, t, name, flags, at.n);
    }
  }

  lemma NothingSeenYet(run: seq<State>, k0: nat, i: nat, t: nat)
    ensures SawInodes(run, k0, i, t, 0) && SawEntries(run, k0, i, t, 0)
  {
  }

  lemma DecideHolds(name: CString, flags: Flags, n: int)
    ensures Hold(OpenLock, true) in HeldAt(InOpen(name, flags, Decide(n)))
    ensures Hold(Ino(n), true) in HeldAt(InOpen(name, flags, Decide(n)))
  {
  }

  lemma FoundIsDecided(run: seq<State>, k0: nat, i: nat, t: nat, name: CString, flags: Flags, n: int)
    requires k0 <= i < |run| && Has(run, i, t, OpenLock) && Has(run, i, t, Ino(n)) && Named(run[i].fs, name, n)
    ensures ValidInum(n) && ((flags.truncate ==> run[i].fs.inodes[n].size == 0) ==>
              Decided(run, k0, i + 1, t, name, flags, n, if flags.append then run[i].fs.inodes[n].size else 0))
  {
    hide Has, Root, Find, RootOk;
    if flags.truncate ==> run[i].fs.inodes[n].size == 0 {
      assert FoundAt(run, i, t, name, flags, n, if flags.append then run[i].fs.inodes[n].size else 0);
    }
  }

  lemma TruncatorHolds(name: CString, flags: Flags, at: OpenPC)
    requires Truncating(at)
    ensures Hold(OpenLock, true) in HeldAt(InOpen(name, flags, at)) && Hold(Ino(at.n), true) in HeldAt(InOpen(name, flags, at))
  {
  }

  lemma TruncatorPlace(fs: FS, name: CString, at: OpenPC)
    requires OpenPlace(fs, name, at) && Truncating(at)
    ensures Named(fs, name, at.n) && ValidInum(at.n)
    ensures at.TruncHeld? ==> at.b == Slot(fs, at.n, at.s) && ToFree(fs, at.n, at.s)
  {
    hide Slot, Root, Find, RootOk, ToFree;
  }

  lemma TruncatingPast(run: seq<State>, k0: nat, i: nat, t: nat, name: CString, flags: Flags, at: OpenPC)
    requires Steps(run, i, t) && t < |run[i].threads| && run[i].threads[t].pc == InOpen(name, flags, at)
    requires Truncating(at) && k0 <= i
    requires OpenPast(run, k0, i, t, name, flags, InOpen(name, flags, at))
    ensures OpenPast(run, k0, i + 1, t, name, flags, run[i + 1].threads[t].pc)
  {
    hide Safe, ThreadStep, Has, MadeAt, NoRoomAt, Slot, Content, EntryNum, RootOk, Root, Find, Named, ToFree, FoundAt,
         SawInodes, SawEntries, HeldAt, OpenPlace, WrittenBlocks, LoopLimit, FreedBelow, AllFreed, EmptiedAt, StuckAt;
    StepsDo(run, i, t);
    StepsPlace(run, i, t);
    TruncatorHolds(name, flags, at);
    TruncatorPlace(run[i].fs, name, at);
    StepsHold(run, i, t, OpenLock);
    StepsHold(run, i, t, Ino(at.n));
    FreedStays(run, k0, i, i + 1, t, at.n);
    if at.TruncHeld? {
      if ValidBlock(at.b) { FreesNow(run, k0, i, t, name, flags, at.n, at.s, at.b); }
      else { StuckNow(run, k0, i, t, name, flags, at); }
    } else if at.TruncEnd? {
      EmptiedNow(run, k0, i, t, name, flags, at.n);
    } else if at.TruncClear? {
      if at.s == INDEX_SLOT { IndexFreed(run, k0, i, t, at.n); }
    } else if at.TruncTest? {
      TestedPast(run, k0, i, t, name, flags, at.n, at.s);
    }
  }

  lemma FreesNow(run: seq<State>, k0: nat, i: nat, t: nat, name: CString, flags: Flags, n: int, s: nat, b: int)
    requires Steps(run, i, t) && t < |run[i].threads| && run[i].threads[t].pc == InOpen(name, flags, TruncHeld(n, s, b)) && k0 <= i
    requires ValidBlock(b) && b == Slot(run[i].fs, n, s) && Has(run, i, t, Ino(n)) && FreedBelow(run, k0, i, t, n, s)
    ensures FreedBelow(run, k0, i + 1, t, n, s + 1)
  {
    hide Safe, ThreadStep, Has, Slot, RootOk;
    StepsDo(run, i, t);
    assert FreesAt(run, i, t, n, s);
    hide FreesAt;
    forall m: nat {:trigger Freed(run, k0, i + 1, t, n, m)} | m <= s ensures Freed(run, k0, i + 1, t, n, m) {
      if m < s { assert Freed(run, k0, i, t, n, m); }
    }
  }

  lemma StuckNow(run: seq<State>, k0: nat, i: nat, t: nat, name: CString, flags: Flags, at: OpenPC)
    requires at.TruncHeld? && k0 <= i < |run| && flags.truncate && !ValidBlock(at.b)
    requires Has(run, i, t, OpenLock) && Has(run, i, t, Ino(at.n)) && Named(run[i].fs, name, at.n)
    requires at.b == Slot(run[i].fs, at.n, at.s) && ToFree(run[i].fs, at.n, at.s)
    ensures GaveUp(run, k0, i + 1, t, name, flags, at.n)
  {
    hide Has, Slot, RootOk, Root, Find, Named, ToFree;
    assert StuckAt(run, i, t, name, flags, at.n);
  }

  /** The slots below s are those that have to be freed. */
  lemma NoneLeft(run: seq<State>, k0: nat, i: nat, t: nat, name: CString, flags: Flags, n: int, s: nat)
    requires Steps(run, i, t) && t < |run[i].threads| && run[i].threads[t].pc == InOpen(name, flags, TruncTest(n, s)) && k0 <= i
    requires run[i + 1].threads[t].pc == InOpen(name, flags, TruncEnd(n))
    requires Has(run, i, t, Ino(n)) && FreedBelow(run, k0, i, t, n, s)
    ensures AllFreed(run, k0, i + 1, t, n)
  {
    hide Safe, ThreadStep, Has, Slot, RootOk, WrittenBlocks, LoopLimit, FreesAt;
    StepsDo(run, i, t);
    forall m: nat | ToFree(run[i].fs, n, m) ensures Freed(run, k0, i + 1, t, n, m) {
      assert Freed(run, k0, i, t, n, m);
    }
  }

  lemma TestedPast(run: seq<State>, k0: nat, i: nat, t: nat, name: CString, flags: Flags, n: int, s: nat)
    requires Steps(run, i, t) && t < |run[i].threads| && run[i].threads[t].pc == InOpen(name, flags, TruncTest(n, s)) && k0 <= i
    requires flags.truncate && Has(run, i, t, Ino(n)) && FreedBelow(run, k0, i, t, n, s)
    ensures OpenPast(run, k0, i + 1, t, name, flags, run[i + 1].threads[t].pc)
  {
    hide Safe, ThreadStep, Has, Slot, RootOk, WrittenBlocks, Freed, AllFreed, ToFree;
    StepsDo(run, i, t);
    FreedStays(run, k0, i, i + 1, t, n);
    if run[i + 1].threads[t].pc.at.TruncEnd? { NoneLeft(run, k0, i, t, name, flags, n, s); }
  }

  /** The index block was the last to be freed. */
  lemma IndexFreed(run: seq<State>, k0: nat, i: nat, t: nat, n: int)
    requires k0 <= i < |run| && Has(run, i, t, Ino(n)) && FreedBelow(run, k0, i, t, n, INDEX_SLOT + 1)
    ensures AllFreed(run, k0, i + 1, t, n)
  {
    hide Has, WrittenBlocks, LoopLimit, FreesAt;
    forall m: nat | ToFree(run[i].fs, n, m) ensures Freed(run, k0, i + 1, t, n, m) {
      assert Freed(run, k0, i, t, n, m);
    }
  }

  lemma EmptiedNow(run: seq<State>, k0: nat, i: nat, t: nat, name: CString, flags: Flags, n: int)
    requires Steps(run, i, t) && t < |run[i].threads| && run[i].threads[t].pc == InOpen(name, flags, TruncEnd(n)) && k0 <= i
    requires Has(run, i, t, OpenLock) && Has(run, i, t, Ino(n)) && Named(run[i].fs, name, n) && flags.truncate
    requires AllFreed(run, k0, i, t, n)
    ensures Decided(run, k0, i + 1, t, name, flags, n, 0)
  {
    hide Safe, ThreadStep, Has, RootOk, Root, Find, AllFreed, FoundAt, MadeAt, SawInodes;
    StepsDo(run, i, t);
    ResizedIsNamed(run[i].fs, name, n);
    assert EmptiedAt(run, i, t, name, flags, n, 0);
  }

  lemma ResizedIsNamed(fs: FS, name: CString, n: int)
    requires Named(fs, name, n)
    ensures ValidInum(n) && Named(PutInode(fs, n, fs.inodes[n].(size := 0)), name, n)
  {
    hide Find;
    var fs' := PutInode(fs, n, fs.inodes[n].(size := 0));
    RootIsBlock(fs);
    RootIsBlock(fs');
  }

  predicate Creating(at: OpenPC) {
    !Looking(at) && !Truncating(at)
  }

  lemma CreatorHolds(name: CString, flags: Flags, at: OpenPC)
    requires Creating(at)
    ensures Hold(OpenLock, true) in HeldAt(InOpen(name, flags, at))
    ensures at.MakeHeld? ==> Hold(Ino(at.i), true) in HeldAt(InOpen(name, flags, at))
    ensures at.AddHeld? ==> Hold(Ino(at.n), true) in HeldAt(InOpen(name, flags, at))
  {
  }

  lemma CreatingPast(run: seq<State>, k0: nat, i: nat, t: nat, name: CString, flags: Flags, at: OpenPC)
    requires Steps(run, i, t) && t < |run[i].threads| && run[i].threads[t].pc == InOpen(name, flags, at) && Creating(at) && k0 <= i
    requires OpenPast(run, k0, i, t, name, flags, InOpen(name, flags, at))
    ensures OpenPast(run, k0, i + 1, t, name, flags, run[i + 1].threads[t].pc)
  {
    hide Safe, ThreadStep, Has, MadeAt, NoRoomAt, FoundAt, EmptiedAt, StuckAt, Slot, Content, EntryNum, RootOk, Root, Find, Named,
         SawInodes, SawEntries, HeldAt, OpenPlace, Fresh, Decided, GaveUp;
    StepsDo(run, i, t);
    CreatorHolds(name, flags, at);
    StepsHold(run, i, t, OpenLock);
    SawStays(run, k0, i, t);
    if at.MakeHeld? {
      StepsHold(run, i, t, Ino(at.i));
      if run[i].fs.inodeTaken[at.i] { SawOneMore(run, k0, i, t, at.i); }
    } else if at.AddHeld? && EntryNum(Root(run[i].fs), at.i) == NONE {
      MakesNow(run, k0, i, t, name, flags, at.n, at.i);
    } else if at.Delete? {
      NoRoomNow(run, k0, i, t, name, flags, at.n);
    }
  }

  lemma SawStays(run: seq<State>, k0: nat, i: nat, t: nat)
    ensures forall m :: SawInodes(run, k0, i, t, m) ==> SawInodes(run, k0, i + 1, t, m)
  {
    hide Has;
  }

  lemma MakesNow(run: seq<State>, k0: nat, i: nat, t: nat, name: CString, flags: Flags, n: int, j: nat)
    requires Steps(run, i, t) && t < |run[i].threads| && run[i].threads[t].pc == InOpen(name, flags, AddHeld(n, j)) && k0 <= i
    requires flags.create && SawInodes(run, k0, i, t, n) && Has(run, i, t, OpenLock)
    requires RootOk(run[i].fs) && j < MAX_DIR_ENTRIES && EntryNum(Root(run[i].fs), j) == NONE
    ensures Decided(run, k0, i + 1, t, name, flags, n, 0)
  {
    hide Safe, ThreadStep, Has, NoRoomAt, FoundAt, EmptiedAt, StuckAt, Slot, Content, EntryNum, Root, Find,
         SawInodes, SawEntries, HeldAt, WithEntry, Fresh, NoName;
    StepsDo(run, i, t);
    StepsPlace(run, i, t);
    CreatorHolds(name, flags, AddHeld(n, j));
    StepsHold(run, i, t, Ino(n));
    SawStays(run, k0, i, t);
    LinkedNow(run, i, t, name, flags, n, j);
    assert IsFirstUnused(Root(run[i].fs), j);
    assert MadeAt(run, i, t, name, flags, n, 0);
  }

  lemma LinkedNow(run: seq<State>, i: nat, t: nat, name: CString, flags: Flags, n: int, j: nat)
    requires Steps(run, i, t) && t < |run[i].threads| && run[i].threads[t].pc == InOpen(name, flags, AddHeld(n, j))
    requires RootOk(run[i].fs) && j < MAX_DIR_ENTRIES && EntryNum(Root(run[i].fs), j) == NONE
    ensures RootOk(run[i + 1].fs) && Root(run[i + 1].fs) == WithEntry(Root(run[i].fs), j, n, name)
  {
    hide ThreadStep, Slot, Content, EntryNum, Root, Find, HeldAt, WithEntry, Fresh, NoName, Safe, Whole, Place;
    StepsDo(run, i, t);
    SafeIsReady(run[i], t);
    StepLands(run[i].fs, Rest(run[i].threads, t), run[i].threads[t].pc);
  }

  lemma NoRoomNow(run: seq<State>, k0: nat, i: nat, t: nat, name: CString, flags: Flags, n: int)
    requires Steps(run, i, t) && t < |run[i].threads| && run[i].threads[t].pc == InOpen(name, flags, Delete(n)) && k0 <= i
    requires flags.create && Has(run, i, t, OpenLock)
    ensures GaveUp(run, k0, i + 1, t, name, flags, n)
  {
    hide ThreadStep, Has, FoundAt, EmptiedAt, StuckAt, Slot, Content, EntryNum, Root, Find, HeldAt, Fresh, NoName, Safe, Whole;
    StepsDo(run, i, t);
    StepsPlace(run, i, t);
    SafeIsReady(run[i], t);
    StepLands(run[i].fs, Rest(run[i].threads, t), run[i].threads[t].pc);
    assert NoRoomAt(run, i, t, name, flags, n);
  }

  lemma TablePast(run: seq<State>, k0: nat, i: nat, t: nat, name: CString, flags: Flags, n: int, off: nat, at: TablePC)
    requires Steps(run, i, t) && t < |run[i].threads| && run[i].threads[t].pc == InTable(n, off, at) && k0 <= i
    requires OpenPast(run, k0, i, t, name, flags, InTable(n, off, at))
    ensures OpenPast(run, k0, i + 1, t, name, flags, run[i + 1].threads[t].pc)
  {
    hide Safe, ThreadStep, Has, RootOk, SawEntries, HeldAt, Decided;
    StepsDo(run, i, t);
    PastStays(run, k0, i, i + 1, t, name, flags, InTable(n, off, at));
    if at.SeekHeld? && run[i].fs.handleTaken[at.h] {
      SeekerHolds(n, off, at.h);
      StepsHold(run, i, t, Entry(at.h));
      SawOneEntryMore(run, k0, i, t, at.h);
    }
  }

  lemma SeekerHolds(n: int, off: nat, h: nat)
    ensures Hold(Entry(h), true) in HeldAt(InTable(n, off, SeekHeld(h)))
  {
  }

  lemma OwnStepPast(run: seq<State>, k0: nat, i: nat, t: nat, name: CString, flags: Flags)
    requires i < |run| && Steps(run, i, t) && t < |run[i].threads| && InThatOpen(run[i].threads[t].pc, name, flags) && k0 <= i
    requires OpenPast(run, k0, i, t, name, flags, run[i].threads[t].pc)
    ensures OpenPast(run, k0, i + 1, t, name, flags, run[i + 1].threads[t].pc)
  {
    hide OpenPast, Steps, Looking, Truncating;
    match run[i].threads[t].pc
    case InOpen(_, _, at) =>
      if Looking(at) { LookingPast(run, k0, i, t, name, flags, at); }
      else if Truncating(at) { TruncatingPast(run, k0, i, t, name, flags, at); }
      else { CreatingPast(run, k0, i, t, name, flags, at); }
    case InTable(n, off, at) => TablePast(run, k0, i, t, name, flags, n, off, at);
  }

  /** The last moment took thread t one step further, or left it where it was, or started it. */
  lemma LastMoment(run: seq<State>, i: nat, t: nat)
    requires Execution(run) && i + 1 < |run| && t < |run[i + 1].threads|
    ensures t < |run[i].threads|
    ensures || run[i + 1].threads[t].pc == run[i].threads[t].pc || Steps(run, i, t)
            || (run[i].threads[t].pc.Idle? && MayStart(run[i], run[i + 1].threads[t].pc))
  {
    hide Do, Init, Grantable, RootOk, InRange, MayStart, Safe;
    ReachableIsSafe(run, i);
    RunSteps(run, i + 1);
    var u: nat :| ThreadStep(run[i], run[i + 1], u) || Starts(run[i], run[i + 1], u);
    if u != t { OthersStay(run[i], run[i + 1], t, u); }
  }

  lemma OthersStay(s: State, s': State, t: nat, u: nat)
    requires (ThreadStep(s, s', u) || Starts(s, s', u)) && t != u && t < |s'.threads|
    ensures t < |s.threads| && s'.threads[t] == s.threads[t]
  {
    hide Do, Grantable, RootOk, InRange, MayStart;
  }

  /** A thread in the middle of an open began it at some moment, and has behind it what its place says. */
  lemma {:induction false} OpenHistory(run: seq<State>, i: nat, t: nat) returns (k0: nat, name: CString, flags: Flags)
    requires Execution(run) && i < |run| && t < |run[i].threads|
    requires run[i].threads[t].pc.InOpen? || run[i].threads[t].pc.InTable?
    ensures OpenSince(run, k0, i, t, name, flags) && OpenPast(run, k0, i, t, name, flags, run[i].threads[t].pc)
    ensures InThatOpen(run[i].threads[t].pc, name, flags)
  {
    hide Execution, OpenPast, Steps, MayStart, RootOk, InRange;
    var p' := run[i].threads[t].pc;
    if i == 0 {
      FirstIsIdle(run, t);
      assert false;
    } else {
      LastMoment(run, i - 1, t);
      var p := run[i - 1].threads[t].pc;
      if p.Idle? && MayStart(run[i - 1], p') {
        StartsNoTable(run[i - 1], p');
        k0, name, flags := i, p'.name, p'.flags;
        StartHasNoPast(run, i, t);
      } else {
        if p != p' { StepsDo(run, i - 1, t); StaysInOperation(run[i - 1].fs, p); }
        k0, name, flags := OpenHistory(run, i - 1, t);
        if p == p' { PastStays(run, k0, i - 1, i, t, name, flags, p); } else { OwnStepPast(run, k0, i - 1, t, name, flags); }
      }
    }
  }

  lemma StartsNoTable(s: State, pc: PC)
    requires MayStart(s, pc)
    ensures !pc.InTable?
  {
  }

  lemma StartHasNoPast(run: seq<State>, i: nat, t: nat)
    requires 0 < i < |run| && t < |run[i].threads| && run[i].threads[t].pc.InOpen? && MayStart(run[i - 1], run[i].threads[t].pc)
    ensures var p := run[i].threads[t].pc;
            p.at == Begin && OpenSince(run, i, i, t, p.name, p.flags) && OpenPast(run, i, i, t, p.name, p.flags, p)
  {
  }

  // ---------------------------------------------------------------- what opens are answered

  /** Entry e is the last one on record at the next moment, and thread t put it there. */
  ghost predicate Reports(run: seq<State>, i: nat, t: nat, e: Event) {
    i + 1 < |run| && ThreadStep(run[i], run[i + 1], t) && run[i + 1].log == run[i].log + [e]
  }

  lemma ReporterSteps(run: seq<State>, i: nat, t: nat, e: Event)
    requires Execution(run) && Reports(run, i, t, e)
    ensures Steps(run, i, t) && t < |run[i].threads| && !run[i].threads[t].pc.Idle?
    ensures InRange(run[i].threads[t].pc) && RootOk(run[i].fs) && Do(run[i].fs, run[i].threads[t].pc).event == Some(e)
    ensures run[i + 1].fs == Do(run[i].fs, run[i].threads[t].pc).fs
    ensures run[i + 1].threads[t].pc == Do(run[i].fs, run[i].threads[t].pc).pc
    ensures EventIsOwn(run[i].threads[t].pc, Do(run[i].fs, run[i].threads[t].pc))
  {
    hide Execution, Do, Safe, InRange, RootOk, ThreadStep, EventIsOwn;
    ReachableIsSafe(run, i);
    StepsDo(run, i, t);
    LastOfLog(run[i].log, run[i + 1].log, Do(run[i].fs, run[i].threads[t].pc).event, e);
    StepEventIsOwn(run[i].fs, run[i].threads[t].pc);
  }

  lemma LastOfLog(log: seq<Event>, log': seq<Event>, event: Option<Event>, e: Event)
    requires log' == log + (if event.Some? then [event.value] else []) && log' == log + [e]
    ensures event == Some(e)
  {
    assert |log'| == |log| + 1;
    assert log'[|log|] == e;
  }

  /** Nothing changed but that entry h of the open-file table, FREE before, now refers to file n at the offset. */
  ghost predicate FillsFree(fs: FS, fs': FS, h: int, n: int, off: nat) {
    && ValidHandle(h) && !fs.handleTaken[h]
    && fs' == fs.(handleTaken := fs.handleTaken[h := true], handles := fs.handles[h := OpenFile(n, off)],
                  openCount := fs.openCount + 1)
  }

  /** Whoever is handed a handle opened a name, under the locks found or made the file of that name, at the offset that its flags
      ask for, and the handle is the first entry of the table that it did not see TAKEN. */
  lemma HandedIsEarned(run: seq<State>, i: nat, t: nat, h: int, n: int, off: nat) returns (k0: nat, name: CString, flags: Flags)
    requires Execution(run) && Reports(run, i, t, Handed(h, n, off))
    ensures OpenSince(run, k0, i, t, name, flags) && Decided(run, k0, i, t, name, flags, n, off)
    ensures SawEntries(run, k0, i, t, h) && Has(run, i, t, Entry(h)) && FillsFree(run[i].fs, run[i + 1].fs, h, n, off)
  {
    hide Execution, Safe, ThreadStep, Decided, SawEntries, Has, RootOk, OpenSince, SawInodes, DoOpen, DoRw;
    ReporterSteps(run, i, t, Handed(h, n, off));
    k0, name, flags := OpenHistory(run, i, t);
    EntererHolds(n, off, h);
    StepsHold(run, i, t, Entry(h));
    StepsPlace(run, i, t);
  }

  lemma EntererHolds(n: int, off: nat, h: nat)
    ensures Hold(Entry(h), true) in HeldAt(InTable(n, off, CountHeld(h)))
  {
  }

  /** Whoever is told that an open failed: the name stood for nothing and nothing was to be made, or no i-node was seen FREE; or the
      file could not be emptied, or found no entry; or the whole table was seen TAKEN. */
  lemma FailureIsEarned(run: seq<State>, i: nat, t: nat) returns (k0: nat, name: CString, flags: Flags)
    requires Execution(run) && Reports(run, i, t, NotOpened)
    ensures OpenSince(run, k0, i, t, name, flags) && run[i + 1].fs == run[i].fs
    ensures || (Has(run, i, t, OpenLock) && NoName(run[i].fs, name)
                && (flags.create ==> SawInodes(run, k0, i, t, INODE_TABLE_SIZE)))
            || (exists n :: GaveUp(run, k0, i, t, name, flags, n))
            || (SawEntries(run, k0, i, t, MAX_OPEN_FILES) && exists n, off: nat :: Decided(run, k0, i, t, name, flags, n, off))
  {
    hide Execution, Safe, ThreadStep, Decided, SawEntries, Has, RootOk, OpenSince, SawInodes, DoRw, NoName, GaveUp, DoOpen, DoTable;
    ReporterSteps(run, i, t, NotOpened);
    k0, name, flags := OpenHistory(run, i, t);
    var p := run[i].threads[t].pc;
    if p.InOpen? && p.at.LeaveOpen? {
      LeaverHolds(p.name, p.flags);
      LeaverIsStill(run[i].fs, p.name, p.flags);
      StepsHold(run, i, t, OpenLock);
      StepsPlace(run, i, t);
    } else if p.InOpen? {
      FailingOpen(run[i].fs, p.name, p.flags, p.at);
      assert GaveUp(run, k0, i, t, name, flags, p.at.n);
    } else {
      FailingTable(run[i].fs, p.n, p.off, p.table);
    }
  }

  lemma LeaverIsStill(fs: FS, name: CString, flags: Flags)
    requires name != [] && RootOk(fs)
    ensures DoOpen(fs, name, flags, LeaveOpen).fs == fs
  {
    hide RootOk;
  }

  lemma FailingOpen(fs: FS, name: CString, flags: Flags, at: OpenPC)
    requires name != [] && OpenRange(at) && RootOk(fs) && DoOpen(fs, name, flags, at).event == Some(NotOpened) && !at.LeaveOpen?
    ensures at.LeaveIno? && at.off.None? && DoOpen(fs, name, flags, at).fs == fs
  {
    hide Slot, RootOk, EntryNum, Answers, WrittenBlocks, Content, StoredName, EncodeInt, Patch;
  }

  lemma FailingTable(fs: FS, n: int, off: nat, at: TablePC)
    requires TableRange(at) && DoTable(fs, n, off, at).event == Some(NotOpened)
    ensures at == Seek(MAX_OPEN_FILES) && DoTable(fs, n, off, at).fs == fs
  {
  }

  lemma LeaverHolds(name: CString, flags: Flags)
    ensures Hold(OpenLock, true) in HeldAt(InOpen(name, flags, LeaveOpen))
  {
  }

  /** An open that was not asked to create makes no file and fills no entry; one that was not asked to empty the file either
      changes nothing before it comes to the table. */
  lemma NothingUnasked(run: seq<State>, i: nat, t: nat)
    requires Execution(run) && i + 1 < |run| && ThreadStep(run[i], run[i + 1], t)
    requires run[i].threads[t].pc.InOpen? && !run[i].threads[t].pc.flags.create
    ensures RootOk(run[i].fs) && RootOk(run[i + 1].fs) && Root(run[i + 1].fs) == Root(run[i].fs)
    ensures run[i + 1].fs.inodeTaken == run[i].fs.inodeTaken
    ensures !run[i].threads[t].pc.flags.truncate ==> run[i + 1].fs == run[i].fs
  {
    hide Execution, Safe, ThreadStep, OpenSince, SawInodes, SawEntries, Decided, GaveUp, RootOk, Root, Whole, Place;
    ReachableIsSafe(run, i);
    StepsDo(run, i, t);
    var k0, name, flags := OpenHistory(run, i, t);
    SafeIsReady(run[i], t);
    var p := run[i].threads[t].pc;
    StepLands(run[i].fs, Rest(run[i].threads, t), p);
    UnaskedIsQuiet(run[i].fs, p.name, p.flags, p.at);
  }

  lemma UnaskedIsQuiet(fs: FS, name: CString, flags: Flags, at: OpenPC)
    requires name != [] && OpenRange(at) && RootOk(fs) && !Creating(at)
    ensures DoOpen(fs, name, flags, at).fs.inodeTaken == fs.inodeTaken
    ensures !Truncating(at) ==> DoOpen(fs, name, flags, at).fs == fs
  {
    hide Slot, RootOk, EntryNum, Answers, WrittenBlocks, Content;
  }

  // ---------------------------------------------------------------- what writes are refused

  /** The thread is about to write buf through h, holds the entry and the file, and the bytes that the code would move end beyond
      the block map. */
  ghost predicate Overlong(run: seq<State>, i: nat, t: nat, h: int) {
    && i < |run| && t < |run[i].threads| && ValidHandle(h)
    && Has(run, i, t, Entry(h)) && Has(run, i, t, Ino(run[i].fs.handles[h].inum))
    && var p := run[i].threads[t].pc;
       && p.InRw? && p.rw.Plan? && p.job.WriteJob? && p.job.h == h
       && run[i].fs.handles[h].offset + Moves(BLOCK_SIZE, run[i].fs.handles[h].offset, |p.job.buf|) > MAX_FILE_SIZE
  }

  /** A write is declined exactly when it would go beyond the block map, and then it changes nothing. */
  lemma DeclinedIff(run: seq<State>, i: nat, t: nat, h: int)
    requires Execution(run) && i + 1 < |run| && ThreadStep(run[i], run[i + 1], t)
    ensures Reports(run, i, t, Declined(h)) <==> Overlong(run, i, t, h)
    ensures Overlong(run, i, t, h) ==> run[i + 1].fs == run[i].fs
  {
    hide Execution, Safe, ThreadStep, RootOk, HeldAt, Moves, Do, Place;
    ReachableIsSafe(run, i);
    StepsDo(run, i, t);
    var (fs, p) := (run[i].fs, run[i].threads[t].pc);
    DeclinesIff(fs, p, h);
    if p.InRw? && p.rw.Plan? {
      PlannerHolds(p.job, p.rw.n);
      StepsHold(run, i, t, Entry(p.job.h));
      StepsHold(run, i, t, Ino(p.rw.n));
      StepsPlace(run, i, t);
      PlannersFile(fs, Emptying(run[i].threads), p);
    }
    var event := Do(fs, p).event;
    if Reports(run, i, t, Declined(h)) {
      LastOfLog(run[i].log, run[i + 1].log, event, Declined(h));
    }
  }

  lemma PlannersFile(fs: FS, X: set<(int, int)>, p: PC)
    requires p.InRw? && p.rw.Plan? && Place(fs, X, p)
    ensures ValidHandle(p.job.h) && fs.handles[p.job.h].inum == p.rw.n
  {
  }

  lemma PlannerHolds(job: Job, n: int)
    ensures Hold(Entry(job.h), true) in HeldAt(InRw(job, Plan(n))) && Hold(Ino(n), true) in HeldAt(InRw(job, Plan(n)))
  {
  }

  lemma DeclinesIff(fs: FS, p: PC, h: int)
    requires InRange(p) && RootOk(fs) && !p.Idle?
    ensures Do(fs, p).event == Some(Declined(h)) <==>
              && p.InRw? && p.rw.Plan? && p.job.WriteJob? && p.job.h == h
              && fs.handles[h].offset + Moves(BLOCK_SIZE, fs.handles[h].offset, |p.job.buf|) > MAX_FILE_SIZE
    ensures p.InRw? && p.rw.Plan? ==> Do(fs, p).fs == fs
  {
    hide Moves, DoOpen, DoTable, RootOk, Slot, Available, Copied, MovedOn, MissingSlot, BlockNo, Block;
    StepEventIsOwn(fs, p);
  }

  // ---------------------------------------------------------------- what closes are answered

  /** At moment k thread t holds the entry for reading, and it is TAKEN. */
  predicate SeesTaken(run: seq<State>, k: nat, t: nat, h: int) {
    && k < |run| && t < |run[k].threads| && ValidHandle(h)
    && Hold(Entry(h), false) in run[k].threads[t].held && run[k].fs.handleTaken[h]
  }

  /** Thread t began to close handle h at moment k0, and is at it still. */
  ghost predicate CloseSince(run: seq<State>, k0: nat, i: nat, t: nat, h: int) {
    && k0 <= i < |run|
    && (forall j :: k0 <= j <= i ==> t < |run[j].threads| && run[j].threads[t].pc.InClose? && run[j].threads[t].pc.h == h)
    && run[k0].threads[t].pc == InClose(h, CloseLock)
  }

  ghost predicate SawTaken(run: seq<State>, k0: nat, i: nat, t: nat, h: int) {
    exists k: nat :: k0 <= k < i && SeesTaken(run, k, t, h)
  }

  lemma {:induction false} CloseHistory(run: seq<State>, i: nat, t: nat) returns (k0: nat)
    requires Execution(run) && i < |run| && t < |run[i].threads| && run[i].threads[t].pc.InClose?
    ensures var p := run[i].threads[t].pc;
            && CloseSince(run, k0, i, t, p.h)
            && (p.close.CloseCount? || p.close.CloseCountHeld? ==> SawTaken(run, k0, i, t, p.h))
  {
    hide Execution, Steps, MayStart, RootOk, InRange, SeesTaken, Do;
    var p' := run[i].threads[t].pc;
    if i == 0 {
      FirstIsIdle(run, t);
      assert false;
    } else {
      LastMoment(run, i - 1, t);
      var p := run[i - 1].threads[t].pc;
      if p.Idle? && MayStart(run[i - 1], p') {
        k0 := i;
        ClosesFromStart(run[i - 1], p');
      } else {
        if p != p' { StepsDo(run, i - 1, t); StaysInOperation(run[i - 1].fs, p); CloseStep(run, i - 1, t); }
        k0 := CloseHistory(run, i - 1, t);
      }
    }
  }

  lemma ClosesFromStart(s: State, pc: PC)
    requires MayStart(s, pc) && pc.InClose?
    ensures pc == InClose(pc.h, CloseLock)
  {
  }

  lemma CloseStep(run: seq<State>, i: nat, t: nat)
    requires Steps(run, i, t) && t < |run[i].threads| && run[i].threads[t].pc.InClose? && run[i + 1].threads[t].pc.InClose?
    ensures var (p, p') := (run[i].threads[t].pc, run[i + 1].threads[t].pc);
            && p'.h == p.h
            && (p'.close.CloseCount? ==> SeesTaken(run, i, t, p.h))
            && (p'.close.CloseCountHeld? ==> p.close.CloseCount?)
  {
    hide ThreadStep, Whole, Place, Apart, RootOk, Conflict, Emptying;
    StepsDo(run, i, t);
  }

  /** A close through an entry that its thread saw TAKEN, under its lock, frees that entry, and no other, and counts it out. A close
      that fails sees the entry FREE, under its lock, and changes nothing. */
  lemma CloseIsEarned(run: seq<State>, i: nat, t: nat, h: int, ok: bool) returns (k0: nat)
    requires Execution(run) && Reports(run, i, t, Shut(h, ok))
    ensures ValidHandle(h) && CloseSince(run, k0, i, t, h)
    ensures if ok then
              && SawTaken(run, k0, i, t, h)
              && run[i + 1].fs == run[i].fs.(handleTaken := run[i].fs.handleTaken[h := false], openCount := run[i].fs.openCount - 1)
            else
              && Hold(Entry(h), false) in run[i].threads[t].held && !run[i].fs.handleTaken[h]
              && run[i + 1].fs == run[i].fs && run[i + 1].threads[t].pc.Idle?
  {
    hide Execution, Safe, ThreadStep, CloseSince, SawTaken, RootOk;
    ReporterSteps(run, i, t, Shut(h, ok));
    k0 := CloseHistory(run, i, t);
    CloserHolds(run, i, t);
  }

  lemma CloserHolds(run: seq<State>, i: nat, t: nat)
    requires Steps(run, i, t) && t < |run[i].threads| && run[i].threads[t].pc.InClose? && !run[i].threads[t].pc.close.CloseLock?
    ensures run[i].threads[t].pc.close.CloseHeld? ==> Hold(Entry(run[i].threads[t].pc.h), false) in run[i].threads[t].held
  {
    hide ThreadStep, Whole, Place, Apart, RootOk, Conflict, Emptying;
  }
}
