/** What the locking promises in every run: mutual exclusion, exclusive ownership, progress, and stable unique names. */
module Guarantees {
  import opened Options
  import opened Config
  import opened Bytes
  import opened Disk
  import opened Directory
  import opened Ownership
  import opened Invariant
  import opened Truncation
  import opened Opening
  import opened Formatting
  import opened Interleaving
  import opened Deadlock
  import opened Safety
  import opened SharedSteps
  import opened Reachable

  /** No two threads ever hold a lock in conflict, have the same data block in hand, or refer to a file that one of
      them is still making. */
  lemma MutualExclusion(run: seq<State>, i: nat, t: nat, u: nat)
    requires Execution(run) && i < |run| && t < |run[i].threads| && u < |run[i].threads| && t != u
    ensures forall a, b :: a in run[i].threads[t].held && b in run[i].threads[u].held && a.lock == b.lock ==>
              !a.exclusive && !b.exclusive
    ensures InHand(run[i].threads[t].pc).Some? ==> InHand(run[i].threads[t].pc) != InHand(run[i].threads[u].pc)
    ensures Making(run[i].threads[t].pc).Some? ==>
              Making(run[i].threads[t].pc) != Making(run[i].threads[u].pc)
              && Making(run[i].threads[t].pc) != Using(run[i].threads[u].pc)
  {
    ReachableIsSafe(run, i);
    hide Whole, Place, HeldAt, InRange, Making, Using, InHand, Execution;
  }

  /** At every moment of every run each live i-node holds only blocks that are in range and TAKEN, and no block is held
      twice; the one exception are the slots of a file that a thread, holding that file's lock, is truncating. */
  lemma ExclusiveOwnership(run: seq<State>, i: nat, n: int, s: int, m: int, r: int)
    requires Execution(run) && i < |run| && Owns(run[i].fs, n, s) && Owns(run[i].fs, m, r)
    requires forall u :: 0 <= u < |run[i].threads| && run[i].threads[u].pc.InOpen? && run[i].threads[u].pc.at.TruncClear? ==>
               run[i].threads[u].pc.at.n != n && run[i].threads[u].pc.at.n != m
    ensures ValidBlock(Slot(run[i].fs, n, s)) && run[i].fs.blockTaken[Slot(run[i].fs, n, s)]
    ensures (n, s) != (m, r) ==> Slot(run[i].fs, n, s) != Slot(run[i].fs, m, r)
  {
    ReachableIsSafe(run, i);
    hide Slot, Place, Apart, DirOk, HandlesSane, Execution, LocksOk;
    if (n, s) in Emptying(run[i].threads) {
      var u := EmptierOf(run[i].threads, (n, s));
    }
    if (m, r) in Emptying(run[i].threads) {
      var u := EmptierOf(run[i].threads, (m, r));
    }
  }

  lemma HandPlace(fs: FS, X: set<(int, int)>, p: PC)
    requires Place(fs, X, p) && InHand(p).Some?
    ensures ValidBlock(InHand(p).value) && fs.blockTaken[InHand(p).value] && Unowned(fs, InHand(p).value, X)
  {
    hide MissingSlot, Unowned;
  }

  /** A block that first-fit has handed to a thread is TAKEN, belongs to no file, and is handed to nobody else,
      until the thread puts it in a slot. */
  lemma AllocationIsExclusive(run: seq<State>, i: nat, t: nat)
    requires Execution(run) && i < |run| && t < |run[i].threads| && InHand(run[i].threads[t].pc).Some?
    ensures var b := InHand(run[i].threads[t].pc).value;
            && ValidBlock(b) && run[i].fs.blockTaken[b] && Unowned(run[i].fs, b, Emptying(run[i].threads))
            && forall u :: 0 <= u < |run[i].threads| && u != t ==> InHand(run[i].threads[u].pc) != Some(b)
  {
    hide Slot, Whole, Execution, LocksOk, Unowned, Place, Making, Using, Emptying, InHand;
    ReachableIsSafe(run, i);
    HandPlace(run[i].fs, Emptying(run[i].threads), run[i].threads[t].pc);
  }

  /** In every reachable state with an unfinished thread, some unfinished thread can take a step. */
  lemma NoDeadlock(run: seq<State>, i: nat, t: nat) returns (u: nat)
    requires Execution(run) && i < |run| && t < |run[i].threads| && !run[i].threads[t].pc.Idle?
    ensures u < |run[i].threads| && !run[i].threads[u].pc.Idle? && Enabled(run[i], u)
  {
    ReachableIsSafe(run, i);
    hide LocksOk, Place, Apart, Exclusive, NumsUnique, Enabled, Execution;
    u := FindEnabled(run[i], t);
  }

  // ---------------------------------------------------------------- names

  /** Every open in the run is of a name of at most 39 bytes. */
  ghost predicate ShortNames(run: seq<State>) {
    forall i, t :: 0 <= i < |run| && 0 <= t < |run[i].threads| && run[i].threads[t].pc.InOpen? ==>
      |run[i].threads[t].pc.name| < MAX_FILE_NAME
  }

  /** Names are unique and what was found under a name before is found under it now. */
  ghost predicate NamesKept(fs: FS, fs': FS) {
    && RootOk(fs) && RootOk(fs') && NamesUnique(Root(fs'))
    && forall name :: Find(Root(fs), name) != NONE ==> Find(Root(fs'), name) == Find(Root(fs), name)
  }

  lemma StepKeepsNames(s: State, s': State, t: nat)
    requires Safe(s) && ThreadStep(s, s', t)
    requires RootOk(s.fs) && NamesUnique(Root(s.fs))
    requires s.threads[t].pc.InOpen? ==> |s.threads[t].pc.name| < MAX_FILE_NAME
    ensures NamesKept(s.fs, s'.fs)
  {
    hide Whole, Do, Undisturbed, RootOk, NamesUnique, Find, EntryNum, Content, LocksOk, Apart, Rest, Emptying,
         WithEntry, Fresh, EmptyingAt;
    var p := s.threads[t].pc;
    SafeIsReady(s, t);
    StepLands(s.fs, Rest(s.threads, t), p);
    if FillsEntry(s.fs, p) {
      assert NoName(s.fs, p.name);
      AddKeepsUnique(Root(s.fs), p.at.i, p.at.n, p.name);
    }
  }

  lemma AnyStepKeepsNames(s: State, s': State)
    requires Safe(s) && Step(s, s') && RootOk(s.fs) && NamesUnique(Root(s.fs))
    requires forall t :: 0 <= t < |s.threads| && s.threads[t].pc.InOpen? ==> |s.threads[t].pc.name| < MAX_FILE_NAME
    ensures NamesKept(s.fs, s'.fs)
  {
    hide Safe, ThreadStep, NamesUnique, Find, Root, RootOk, Starts;
    var t: nat :| ThreadStep(s, s', t) || Starts(s, s', t);
    if ThreadStep(s, s', t) {
      StepThread(s, s', t);
      StepKeepsNames(s, s', t);
    } else {
      StartKeepsData(s, s', t);
    }
  }

  /** Over runs with short names, no two entries ever answer to one name nor hold one i-number, and once a name stands for
      a file, every later state has it stand for that file. */
  lemma {:induction false} NamesStayUnique(run: seq<State>, i: nat, j: nat)
    requires Execution(run) && ShortNames(run) && i <= j < |run|
    ensures NamesKept(run[i].fs, run[j].fs) && NumsUnique(Root(run[j].fs))
  {
    hide Safe, Step, Init, NamesKept, NumsUnique, Root, RootOk, Execution, ShortNames;
    ReachableIsSafe(run, j);
    SafeRoot(run[j]);
    if j == 0 {
      RunStarts(run);
      FirstNames(run[0]);
    } else {
      ReachableIsSafe(run, j - 1);
      NamesStayUnique(run, if i == j then j - 1 else i, j - 1);
      RunSteps(run, j);
      ShortAt(run, j - 1);
      NamesNow(run[if i == j then j - 1 else i].fs, run[j - 1].fs);
      AnyStepKeepsNames(run[j - 1], run[j]);
      NamesTrans(run[if i == j then j - 1 else i].fs, run[j - 1].fs, run[j].fs);
    }
  }

  lemma RunStarts(run: seq<State>)
    requires Execution(run)
    ensures Init(run[0])
  {
  }

  lemma RunSteps(run: seq<State>, j: nat)
    requires Execution(run) && 0 < j < |run|
    ensures Step(run[j - 1], run[j])
  {
    var i := j - 1;
    assert Step(run[i], run[i + 1]);
  }

  lemma ShortAt(run: seq<State>, i: nat)
    requires ShortNames(run) && i < |run|
    ensures forall t :: 0 <= t < |run[i].threads| && run[i].threads[t].pc.InOpen? ==>
              |run[i].threads[t].pc.name| < MAX_FILE_NAME
  {
  }

  lemma SafeRoot(s: State)
    requires Safe(s)
    ensures RootOk(s.fs) && NumsUnique(Root(s.fs))
  {
  }

  lemma StepThread(s: State, s': State, t: nat)
    requires ThreadStep(s, s', t)
    ensures t < |s.threads|
  {
  }

  lemma StartKeepsData(s: State, s': State, t: nat)
    requires Starts(s, s', t)
    ensures s'.fs == s.fs && s'.log == s.log
  {
  }

  lemma FirstNames(s: State)
    requires Init(s)
    ensures NamesKept(s.fs, s.fs)
  {
    FormattedIsWF(s.fs);
  }

  lemma NamesNow(fs: FS, fs': FS)
    requires NamesKept(fs, fs')
    ensures RootOk(fs') && NamesUnique(Root(fs'))
  {
  }

  lemma NamesTrans(fs0: FS, fs: FS, fs': FS)
    requires NamesKept(fs0, fs) && NamesKept(fs, fs')
    ensures NamesKept(fs0, fs') && NamesKept(fs', fs')
  {
    hide RootOk, NamesUnique, Root, Find;
  }

  /** What an open's scan of the directory comes upon is what the name stands for; the scan finds nothing only
      when the name stands for nothing. */
  lemma LookupIsFind(run: seq<State>, i: nat, t: nat)
    requires Execution(run) && i < |run| && t < |run[i].threads| && run[i].threads[t].pc.InOpen?
    ensures RootOk(run[i].fs)
    ensures var p := run[i].threads[t].pc;
            && (p.at.ScanHeld? && p.at.i < MAX_DIR_ENTRIES && Answers(Root(run[i].fs), p.at.i, p.name) ==>
                  Find(Root(run[i].fs), p.name) == EntryNum(Root(run[i].fs), p.at.i))
            && (p.at.Make? ==> Find(Root(run[i].fs), p.name) == NONE)
  {
    ReachableIsSafe(run, i);
    SafeRoot(run[i]);
    hide Whole, Apart, LocksOk, Execution, Root, EntryNum, Find, Answers, RootOk, Emptying, OpenPlace;
    var p := run[i].threads[t].pc;
    assert Place(run[i].fs, Emptying(run[i].threads), p);
    ScanFinds(run[i].fs, p.name, p.at);
  }

  lemma ScanFinds(fs: FS, name: CString, at: OpenPC)
    requires RootOk(fs) && OpenPlace(fs, name, at)
    ensures at.ScanHeld? && at.i < MAX_DIR_ENTRIES && Answers(Root(fs), at.i, name) ==>
              Find(Root(fs), name) == EntryNum(Root(fs), at.i)
    ensures at.Make? ==> Find(Root(fs), name) == NONE
  {
    hide Content, EntryNum, Find, Answers, RootOk, Fresh;
    if at.ScanHeld? && at.i < MAX_DIR_ENTRIES && Answers(Root(fs), at.i, name) {
      FirstIsFound(Root(fs), name, at.i, 0);
    }
  }
}
