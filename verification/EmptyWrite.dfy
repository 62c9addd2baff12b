/**
  What a write of no bytes leaves behind in parte-1: it takes the lock of its open-file entry and of its file, and returns
  without giving either back. No run of the other modules has one; here is what follows if there is.
 */
module EmptyWrite {
  import opened Options
  import opened Config
  import opened Disk
  import opened Invariant
  import opened Interleaving
  import opened Deadlock
  import opened Safety
  import opened Reachable

  /** Thread t holds both locks of its write and knows its file. */
  ghost predicate AtPlan(s: State, t: nat, h: int, n: int) {
    t < |s.threads| && s.threads[t].pc.InRw? && s.threads[t].pc.job.h == h && s.threads[t].pc.rw == Plan(n)
  }

  /** From there a write of no bytes returns. */
  function Returned(s: State, t: nat): State
    requires t < |s.threads|
  {
    s.(threads := s.threads[t := s.threads[t].(pc := Idle)])
  }

  /** Any steps of all threads but t, which starts nothing. */
  ghost predicate RunWithout(run: seq<State>, t: nat) {
    && run != [] && (forall i :: 0 <= i < |run| - 1 ==> Step(run[i], run[i + 1]))
    && forall i :: 0 <= i < |run| ==> t < |run[i].threads| && run[i].threads[t].pc.Idle?
  }

  /** Thread t holds lock l for itself, and no other thread holds it. */
  ghost predicate Keeps(s: State, t: nat, l: Lock) {
    && t < |s.threads| && Hold(l, true) in s.threads[t].held
    && forall u, g {:trigger g in s.threads[u].held} :: 0 <= u < |s.threads| && u != t && g in s.threads[u].held ==> g.lock != l
  }

  lemma StillKeeps(s: State, s': State, t: nat, l: Lock)
    requires Keeps(s, t, l) && s.threads[t].pc.Idle? && Step(s, s') && t < |s'.threads| && s'.threads[t].pc.Idle?
    ensures |s'.threads| == |s.threads| && Keeps(s', t, l)
  {
    var x: nat :| ThreadStep(s, s', x) || Starts(s, s', x);
    if ThreadStep(s, s', x) {
      hide Do;
      var e := Do(s.fs, s.threads[x].pc);
      assert e.acquire.Some? ==> !Conflict(Hold(l, true), e.acquire.value);
    }
  }

  lemma {:induction false} KeepsForEver(run: seq<State>, t: nat, l: Lock, i: nat)
    requires RunWithout(run, t) && i < |run| && Keeps(run[0], t, l)
    ensures |run[i].threads| == |run[0].threads| && Keeps(run[i], t, l)
  {
    hide Keeps, Step;
    if i > 0 {
      KeepsForEver(run, t, l, i - 1);
      StillKeeps(run[i - 1], run[i], t, l);
    }
  }

  lemma ReturnsWithLocks(run: seq<State>, k: nat, t: nat, h: int, n: int)
    requires Execution(run) && k < |run| && AtPlan(run[k], t, h, n)
    ensures Keeps(Returned(run[k], t), t, Entry(h)) && Keeps(Returned(run[k], t), t, Ino(n))
  {
    ReachableIsSafe(run, k);
    hide Execution, Place, Apart, Whole;
    var s, s' := run[k], Returned(run[k], t);
    assert s.threads[t].held == HeldAt(s.threads[t].pc);
    var mine := {Hold(Entry(h), true), Hold(Ino(n), true)};
    assert mine <= s.threads[t].held;
    forall u, g | 0 <= u < |s'.threads| && u != t && g in s'.threads[u].held ensures g.lock != Entry(h) && g.lock != Ino(n) {
      assert g in s.threads[u].held;
      assert Hold(Entry(h), true) in s.threads[t].held && Hold(Ino(n), true) in s.threads[t].held;
    }
  }

  /** After a write of no bytes, as long as its thread starts nothing new, no other thread ever holds the lock of that open-file
      entry or of that file, and one that asks for either can not step. */
  lemma EmptyWriteBlocks(before: seq<State>, k: nat, run: seq<State>, i: nat, t: nat, h: int, n: int, u: nat)
    requires Execution(before) && k < |before| && AtPlan(before[k], t, h, n)
    requires RunWithout(run, t) && run[0] == Returned(before[k], t) && i < |run| && u < |run[i].threads| && u != t
    ensures forall g :: g in run[i].threads[u].held ==> g.lock != Entry(h) && g.lock != Ino(n)
    ensures var (fs, pc) := (run[i].fs, run[i].threads[u].pc);
            !pc.Idle? && InRange(pc) && RootOk(fs) && Do(fs, pc).acquire.Some?
            && (Do(fs, pc).acquire.value.lock == Entry(h) || Do(fs, pc).acquire.value.lock == Ino(n)) ==>
              !exists s' :: ThreadStep(run[i], s', u)
  {
    ReturnsWithLocks(before, k, t, h, n);
    KeepsForEver(run, t, Entry(h), i);
    KeepsForEver(run, t, Ino(n), i);
    hide Do, Execution, RunWithout;
    assert Hold(Entry(h), true) in run[i].threads[t].held && Hold(Ino(n), true) in run[i].threads[t].held;
  }
}
