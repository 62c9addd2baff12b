/** Every state that the interleaved system can reach is safe, and no reachable state is a deadlock. */
module Reachable {
  import opened Config
  import opened Bytes
  import opened Disk
  import opened Directory
  import opened Ownership
  import opened Invariant
  import opened Truncation
  import opened Opening
  import opened Formatting
  import opened Interleaving
  import opened Deadlock
  import opened Safety
  import opened SharedData
  import opened SharedSteps
  import opened SharedCalm

  // ---------------------------------------------------------------- the slots being emptied

  /** A slot is being emptied by some thread. */
  lemma {:induction false} EmptierOf(threads: seq<Thread>, x: (int, int)) returns (u: nat)
    requires x in Emptying(threads)
    ensures u < |threads| && x in EmptyingAt(threads[u].pc)
  {
    if x in EmptyingAt(threads[0].pc) {
      return 0;
    }
    var v := EmptierOf(threads[1..], x);
    return v + 1;
  }

  /** The slots that the threads other than t are emptying. */
  function Rest(threads: seq<Thread>, t: nat): set<(int, int)>
    requires t < |threads|
  {
    Emptying(threads[t := Thread(Idle, {})])
  }

  lemma {:induction false} EmptyingUpdate(threads: seq<Thread>, t: nat, th: Thread)
    requires t < |threads|
    ensures Emptying(threads[t := th]) == Rest(threads, t) + EmptyingAt(th.pc)
  {
    if t == 0 {
      assert threads[0 := th][1..] == threads[1..] == threads[0 := Thread(Idle, {})][1..];
    } else {
      EmptyingUpdate(threads[1..], t - 1, th);
      assert threads[t := th][1..] == threads[1..][t - 1 := th];
      assert threads[t := Thread(Idle, {})][1..] == threads[1..][t - 1 := Thread(Idle, {})];
    }
  }

  lemma EmptyingSplit(threads: seq<Thread>, t: nat)
    requires t < |threads|
    ensures Emptying(threads) == Rest(threads, t) + EmptyingAt(threads[t].pc)
  {
    EmptyingUpdate(threads, t, threads[t]);
    assert threads[t := threads[t]] == threads;
  }

  /** Another thread that is emptying the slot. */
  lemma OtherEmptier(threads: seq<Thread>, t: nat, x: (int, int)) returns (u: nat)
    requires t < |threads| && x in Rest(threads, t)
    ensures u < |threads| && u != t && x in EmptyingAt(threads[u].pc)
  {
    u := EmptierOf(threads[t := Thread(Idle, {})], x);
  }

  lemma EmptierHolds(pc: PC, n: int, r: int)
    requires InRange(pc) && (n, r) in EmptyingAt(pc)
    ensures IsInum(n) && pc.InOpen? && pc.at.TruncClear? && pc.at.n == n && Hold(Ino(n), true) in HeldAt(pc)
    ensures r == INDEX_SLOT ==> forall j :: INDEX_SLOT <= j < N_SLOTS ==> (n, j) in EmptyingAt(pc)
  {
  }

  lemma RestIsClear(s: State, t: nat)
    requires LocksOk(s) && t < |s.threads|
    ensures ClosedUnderIndex(Rest(s.threads, t)) && RootUntouched(Rest(s.threads, t))
    ensures Clear(Rest(s.threads, t), s.threads[t].pc)
  {
    hide EmptyingAt, HeldAt, InRange;
    var rest := Rest(s.threads, t);
    EmptyingSplit(s.threads, t);
    forall m, r | (m, INDEX_SLOT) in rest && INDEX_SLOT < r < N_SLOTS ensures (m, r) in rest {
      var u := OtherEmptier(s.threads, t, (m, INDEX_SLOT));
      EmptierHolds(s.threads[u].pc, m, INDEX_SLOT);
      EmptyingHas(s.threads[t := Thread(Idle, {})], u, (m, r));
    }
    forall n, r | (n, r) in rest ensures n != ROOT_DIR_INUM && Hold(Ino(n), true) !in HeldAt(s.threads[t].pc) {
      var u := OtherEmptier(s.threads, t, (n, r));
      EmptierHolds(s.threads[u].pc, n, r);
      assert Conflict(Hold(Ino(n), true), Hold(Ino(n), true));
    }
  }

  lemma {:induction false} EmptyingHas(threads: seq<Thread>, u: nat, x: (int, int))
    requires u < |threads| && x in EmptyingAt(threads[u].pc)
    ensures x in Emptying(threads)
  {
    if u > 0 { EmptyingHas(threads[1..], u - 1, x); }
  }

  /** The other threads stand beside the one that steps. */
  lemma OthersBeside(s: State, t: nat, u: nat)
    requires Safe(s) && t < |s.threads| && u < |s.threads| && t != u
    ensures Beside(s.fs, Emptying(s.threads), s.threads[t].pc, s.threads[u].pc)
  {
    hide Whole, Place, Apart, EmptyingAt, HeldAt, Conflict, InRange;
    forall n, r | MapsMatter(s.threads[u].pc, n) ensures (n, r) !in Emptying(s.threads) {
      NobodyEmpties(s, u, n, r);
    }
  }

  lemma NobodyEmpties(s: State, u: nat, n: int, r: int)
    requires LocksOk(s) && u < |s.threads| && MapsMatter(s.threads[u].pc, n)
    ensures (n, r) !in Emptying(s.threads)
  {
    hide EmptyingAt, HeldAt, Conflict, InRange;
    if (n, r) in Emptying(s.threads) {
      var v := EmptierOf(s.threads, (n, r));
      EmptierHolds(s.threads[v].pc, n, r);
      ExclusiveConflict(n);
    }
  }

  lemma ExclusiveConflict(n: int)
    ensures Conflict(Hold(Ino(n), true), Hold(Ino(n), true))
  {
  }

  lemma SafeIsReady(s: State, t: nat)
    requires Safe(s) && t < |s.threads| && !s.threads[t].pc.Idle?
    ensures Ready(s.fs, Rest(s.threads, t), s.threads[t].pc)
  {
    hide Whole, Place, Apart, HeldAt, Conflict, InRange, EmptyingAt;
    RestIsClear(s, t);
    EmptyingSplit(s.threads, t);
  }

  // ---------------------------------------------------------------- steps keep the state safe

  lemma StepKeepsLocks(s: State, s': State, t: nat)
    requires LocksOk(s) && ThreadStep(s, s', t) && InRange(s'.threads[t].pc)
    ensures LocksOk(s')
  {
    hide Do, HeldAt, InRange, RootOk;
    StepKeepsHeld(s.fs, s.threads[t].pc);
  }

  lemma ThreadStepIsSafe(s: State, s': State, t: nat)
    requires Safe(s) && ThreadStep(s, s', t)
    ensures Safe(s')
  {
    hide Whole, Place, Apart, HeldAt, Conflict, InRange, EmptyingAt, Do, LocksOk, Rest, Emptying, Undisturbed, Beside,
         Follows, RootOk, Grantable;
    var p := s.threads[t].pc;
    var e := Do(s.fs, p);
    var rest := Rest(s.threads, t);
    SafeIsReady(s, t);
    StepLands(s.fs, rest, p);
    EmptyingSplit(s.threads, t);
    EmptyingUpdate(s.threads, t, s'.threads[t]);
    StepKeepsLocks(s, s', t);
    forall u | 0 <= u < |s.threads| && u != t
      ensures Place(s'.fs, Emptying(s'.threads), s.threads[u].pc) && Apart(e.pc, s.threads[u].pc)
      ensures Apart(s.threads[u].pc, e.pc)
    {
      OtherStays(s, t, u);
    }
  }

  /** Thread u stays in place while t steps. */
  lemma OtherStays(s: State, t: nat, u: nat)
    requires Safe(s) && t < |s.threads| && u < |s.threads| && u != t && !s.threads[t].pc.Idle?
    requires InRange(s.threads[t].pc) && RootOk(s.fs)
    ensures var e := Do(s.fs, s.threads[t].pc);
            && Place(e.fs, Rest(s.threads, t) + EmptyingAt(e.pc), s.threads[u].pc)
            && Apart(e.pc, s.threads[u].pc) && Apart(s.threads[u].pc, e.pc)
  {
    hide Whole, Place, Apart, HeldAt, Conflict, InRange, EmptyingAt, Do, LocksOk, Rest, Emptying, Undisturbed, RootOk,
         MapsFree, Compatible;
    var rest := Rest(s.threads, t);
    var e := Do(s.fs, s.threads[t].pc);
    SafeIsReady(s, t);
    EmptyingSplit(s.threads, t);
    OthersBeside(s, t, u);
    StepCalm(s.fs, rest, s.threads[t].pc, s.threads[u].pc);
    PlaceKept(s.fs, rest + EmptyingAt(s.threads[t].pc), e.fs, rest + EmptyingAt(e.pc), s.threads[u].pc);
  }

  lemma StartStepIsSafe(s: State, s': State, t: nat, pc: PC)
    requires Safe(s) && StartStep(s, s', t, pc)
    ensures Safe(s')
  {
    hide Whole, Place, Conflict, InRange, Rest, Emptying;
    EmptyingSplit(s.threads, t);
    EmptyingUpdate(s.threads, t, s'.threads[t]);
    StartPlace(s, t, pc);
    forall u | 0 <= u < |s.threads| && u != t ensures Apart(pc, s.threads[u].pc) && Apart(s.threads[u].pc, pc) {
      StartApart(s, t, u, pc);
    }
  }

  lemma StartPlace(s: State, t: nat, pc: PC)
    requires Safe(s) && t < |s.threads| && s.threads[t].pc.Idle? && MayStart(s, pc)
    ensures InRange(pc) && HeldAt(pc) == {} && EmptyingAt(pc) == {} && Place(s.fs, Emptying(s.threads), pc)
  {
    hide Exclusive, DirOk, Emptying, Conflict;
  }

  lemma StartApart(s: State, t: nat, u: nat, pc: PC)
    requires t < |s.threads| && u < |s.threads| && MayStart(s, pc)
    ensures Apart(pc, s.threads[u].pc) && Apart(s.threads[u].pc, pc)
  {
  }

  lemma InitIsSafe(s: State)
    requires Init(s)
    ensures Safe(s)
  {
    FormattedIsWF(s.fs);
    hide Exclusive, DirOk, Formatted;
    forall x | x in Emptying(s.threads) ensures false {
      var u := EmptierOf(s.threads, x);
    }
    assert Emptying(s.threads) == {};
  }

  /** Every state of every execution is safe. */
  lemma {:induction false} ReachableIsSafe(run: seq<State>, i: nat)
    requires Execution(run) && i < |run|
    ensures Safe(run[i])
  {
    hide Safe, ThreadStep, StartStep, Init;
    if i == 0 {
      InitIsSafe(run[0]);
    } else {
      ReachableIsSafe(run, i - 1);
      assert Step(run[i - 1], run[i]);
      var t: nat :| ThreadStep(run[i - 1], run[i], t) || Starts(run[i - 1], run[i], t);
      if ThreadStep(run[i - 1], run[i], t) {
        ThreadStepIsSafe(run[i - 1], run[i], t);
      } else {
        var pc :| StartStep(run[i - 1], run[i], t, pc);
        StartStepIsSafe(run[i - 1], run[i], t, pc);
      }
    }
  }
}
