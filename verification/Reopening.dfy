/** After destruction: exactly when a file can be open again. */
module Reopening {
  import opened Options
  import opened Config
  import opened FirstFit
  import opened Shutdown

  /** A continuation of s. */
  ghost predicate Continues(s: State, run: seq<State>, acts: seq<Action>) {
    && |run| == |acts| + 1 && run[0] == s
    && forall k :: 0 <= k < |acts| ==> Can(run[k], acts[k]) && run[k + 1] == After(run[k], acts[k])
  }

  predicate SomeOpen(s: State) {
    exists h :: 0 <= h < |s.taken| && s.taken[h]
  }

  ghost predicate OpensAgain(s: State) {
    exists run, acts :: Continues(s, run, acts) && SomeOpen(run[|acts|])
  }

  lemma OpenNow(s: State)
    requires SomeOpen(s)
    ensures OpensAgain(s)
  {
    var run, acts: seq<Action> := [s], [];
    assert Continues(s, run, acts) && SomeOpen(run[|acts|]);
  }

  lemma OneStepEarlier(s: State, a: Action)
    requires Can(s, a) && OpensAgain(After(s, a))
    ensures OpensAgain(s)
  {
    hide After, Can;
    var run, acts :| Continues(After(s, a), run, acts) && SomeOpen(run[|acts|]);
    var run', acts' := [s] + run, [a] + acts;
    forall k | 0 <= k < |acts'| ensures Can(run'[k], acts'[k]) && run'[k + 1] == After(run'[k], acts'[k]) {
      if k > 0 { assert run'[k] == run[k - 1] && acts'[k] == acts[k - 1] && run'[k + 1] == run[k]; }
    }
    assert Continues(s, run', acts') && run'[|acts'|] == run[|acts|];
  }

  /** The steps until open_files_mutex is free, when nothing is open. */
  function MutexSteps(s: State): nat {
    match Holder(s)
    case EndTest => 2
    case FlagHeld(late) => 1
    case EndUnlock => 1
    case _ => 0
  }

  /** The thread that holds the global lock. */
  function GlobalHolder(s: State): PC {
    if s.global.Some? && s.global.value < |s.pcs| then s.pcs[s.global.value] else Idle
  }

  /** The steps until single_global_lock is free, when nothing is open and its holder is not opening anything. */
  function GlobalSteps(s: State): nat {
    match GlobalHolder(s)
    case OpenUnlock(late, h) => 2
    case CloseUnlock(h) => 2
    case CloseBody(h) => 2
    case OpenLeave(late, r) => 1
    case CloseLeave(r) => 1
    case _ => 0
  }

  /** The steps until the open of thread t marks its entry. */
  function OpenSteps(s: State, t: nat): nat
    requires t < |s.pcs|
  {
    match s.pcs[t]
    case OpenTake(late, h) => 1
    case OpenMutex(late, h) => 2 + MutexSteps(s)
    case OpenBody(late) => 5
    case OpenGlobal(late) => 6 + GlobalSteps(s)
    case _ => 0
  }

  /** Who has to step for the open of thread t to go on. */
  function Mover(s: State, t: nat): nat
    requires t < |s.pcs|
  {
    if s.pcs[t].OpenGlobal? && s.global.Some? then s.global.value
    else if s.pcs[t].OpenMutex? && s.mutex.Some? then s.mutex.value
    else t
  }

  /** Destroyed, and nothing open. */
  ghost predicate Gone(s: State) {
    Inv(s) && s.destroyed && !SomeOpen(s)
  }

  lemma GoneHolder(s: State, t: nat)
    requires Gone(s) && t < |s.pcs| && s.pcs[t].OpenMutex? && s.mutex.Some?
    ensures var u := s.mutex.value;
            u < |s.pcs| && u != t && (s.pcs[u].FlagHeld? || s.pcs[u].EndTest? || s.pcs[u].EndUnlock?)
  {
    hide TableCounted, WaiterOk;
    assert ThreadOk(s, t) && ThreadOk(s, s.mutex.value);
  }

  lemma GoneGlobal(s: State, t: nat)
    requires Gone(s) && t < |s.pcs| && s.pcs[t].OpenGlobal? && s.global.Some?
    ensures var pc := GlobalHolder(s);
            s.global.value < |s.pcs| && s.global.value != t
            && !pc.OpenGlobal?
            && (InFlight(pc) || pc.OpenUnlock? || pc.OpenLeave? || pc.CloseBody? || pc.CloseUnlock? || pc.CloseLeave?)
  {
    hide TableCounted, WaiterOk;
    assert ThreadOk(s, t) && ThreadOk(s, s.global.value);
  }

  lemma MutexCloser(s: State, t: nat)
    requires Gone(s) && t < |s.pcs| && s.pcs[t].OpenMutex?
    ensures var u := Mover(s, t);
            var s' := StepAfter(s, u, false);
            && CanStep(s, u) && |s'.pcs| == |s.pcs| && InFlight(s'.pcs[t]) && OpenSteps(s', t) < OpenSteps(s, t)
  {
    hide TableCounted, WaiterOk, ThreadsOk, First;
    if s.mutex.Some? { GoneHolder(s, t); }
  }

  lemma GlobalCloser(s: State, t: nat)
    requires Gone(s) && t < |s.pcs| && s.pcs[t].OpenGlobal? && !InFlight(GlobalHolder(s))
    ensures var u := Mover(s, t);
            var s' := StepAfter(s, u, false);
            && CanStep(s, u) && |s'.pcs| == |s.pcs| && InFlight(s'.pcs[t]) && OpenSteps(s', t) < OpenSteps(s, t)
  {
    hide TableCounted, WaiterOk, ThreadsOk, First;
    if s.global.Some? { GoneGlobal(s, t); }
  }

  lemma BodyCloser(s: State, t: nat)
    requires Gone(s) && t < |s.pcs| && (s.pcs[t].OpenBody? || s.pcs[t].OpenTake?)
    ensures Mover(s, t) == t && CanStep(s, t)
    ensures var s' := StepAfter(s, t, false);
            |s'.pcs| == |s.pcs| && (SomeOpen(s') || (InFlight(s'.pcs[t]) && OpenSteps(s', t) < OpenSteps(s, t)))
  {
    hide TableCounted, WaiterOk, First;
    assert ThreadOk(s, t);
    if s.pcs[t].OpenTake? {
      assert StepAfter(s, t, false).taken[s.pcs[t].h];
    } else {
      FirstIsFirst(s.taken);
      assert !s.taken[0];
      assert First(s.taken) != NONE;
    }
  }

  /** From every destroyed state with an open in flight there is a continuation in which an entry is TAKEN. */
  lemma {:induction false} SlipsThrough(s: State, t: nat)
    requires Gone(s) && t < |s.pcs| && InFlight(s.pcs[t])
    ensures OpensAgain(s)
    decreases OpenSteps(s, t)
  {
    hide Inv, OpensAgain, StepAfter, SomeOpen;
    InFlightSteps(s, t);
    if s.pcs[t].OpenGlobal? && InFlight(GlobalHolder(s)) {
      GlobalIsCloser(s, t);
      SlipsThrough(s, s.global.value);
    } else {
      if s.pcs[t].OpenGlobal? { GlobalCloser(s, t); }
      else if s.pcs[t].OpenMutex? { MutexCloser(s, t); }
      else { BodyCloser(s, t); }
      var a := Step(Mover(s, t), false);
      StepKeeps(s, a);
      StaysDestroyed(s, a);
      if SomeOpen(After(s, a)) { OpenNow(After(s, a)); } else { SlipsThrough(After(s, a), t); }
      OneStepEarlier(s, a);
    }
  }

  /** With nothing open, no thread is between marking its entry and counting it. */
  lemma InFlightSteps(s: State, t: nat)
    requires Gone(s) && t < |s.pcs| && InFlight(s.pcs[t])
    ensures !s.pcs[t].OpenCount?
  {
    hide TableCounted, WaiterOk;
    assert ThreadOk(s, t);
  }

  lemma GlobalIsCloser(s: State, t: nat)
    requires Gone(s) && t < |s.pcs| && s.pcs[t].OpenGlobal? && InFlight(GlobalHolder(s))
    ensures s.global.Some? && s.global.value < |s.pcs| && InFlight(s.pcs[s.global.value])
    ensures OpenSteps(s, s.global.value) < OpenSteps(s, t)
  {
    GoneGlobal(s, t);
    hide Inv;
  }

  lemma StaysDestroyed(s: State, a: Action)
    requires Can(s, a) && s.destroyed
    ensures After(s, a).destroyed
  {
    hide First;
  }

  lemma {:induction false} RestContinues(s: State, run: seq<State>, acts: seq<Action>, k: nat)
    requires Inv(s) && AtRest(s) && Continues(s, run, acts) && k < |run|
    ensures Inv(run[k]) && AtRest(run[k])
  {
    hide Inv, AtRest, Can, After;
    if k > 0 {
      RestContinues(s, run, acts, k - 1);
      StepKeeps(run[k - 1], acts[k - 1]);
      RestLasts(run[k - 1], acts[k - 1]);
    }
  }

  lemma RestIsClosed(s: State)
    requires AtRest(s)
    ensures !SomeOpen(s)
  {
  }

  /** After destruction a file can be open again exactly when one is, or an open was past the check of the flag. */
  lemma OpensAgainIff(run: seq<State>, acts: seq<Action>, k: nat)
    requires Run(run, acts) && k < |run| && run[k].destroyed
    ensures OpensAgain(run[k]) <==> !AtRest(run[k])
  {
    RunKeepsInv(run, acts, k);
    hide Run, Inv, Can, After;
    var s := run[k];
    if AtRest(s) {
      forall run', acts' | Continues(s, run', acts') ensures !SomeOpen(run'[|acts'|]) {
        RestContinues(s, run', acts', |acts'|);
        RestIsClosed(run'[|acts'|]);
      }
    } else if SomeOpen(s) {
      OpenNow(s);
    } else {
      var t :| 0 <= t < |s.pcs| && InFlight(s.pcs[t]);
      SlipsThrough(s, t);
    }
  }
}
