/** What the calls of the threads of parte-2 return, by what happened while they ran: opens and closes beside one thread that
    waits to destroy the file system. */
module ShutdownOutcome {
  import opened Options
  import opened Config
  import opened FirstFit
  import opened Shutdown

  // ---------------------------------------------------------------- what happened

  /** Thread t called at moment k0 and has not called again before moment i. */
  ghost predicate Called(run: seq<State>, acts: seq<Action>, k0: nat, i: nat, t: nat, call: PC) {
    && Run(run, acts) && k0 < i < |run| && acts[k0] == Start(t, call)
    && forall k :: k0 < k < i ==> !(acts[k].Start? && acts[k].t == t)
  }

  predicate HasMutex(run: seq<State>, k: nat, t: nat) {
    k < |run| && run[k].mutex == Some(t)
  }

  predicate HasGlobal(run: seq<State>, k: nat, t: nat) {
    k < |run| && run[k].global == Some(t)
  }

  predicate FlagAt(run: seq<State>, k: nat, t: nat, flag: bool) {
    HasMutex(run, k, t) && run[k].flag == flag
  }

  /** Under the mutex the thread saw open_flag so. */
  ghost predicate SawFlag(run: seq<State>, k0: nat, i: nat, t: nat, flag: bool) {
    exists k: nat :: k0 < k < i && FlagAt(run, k, t, flag)
  }

  predicate TakesAt(run: seq<State>, k: nat, t: nat, h: int) {
    && HasMutex(run, k, t) && HasGlobal(run, k, t) && k + 1 < |run|
    && IsFirstFree(run[k].taken, h) && run[k + 1].taken == run[k].taken[h := true]
  }

  /** The thread took entry h, the first that was FREE. */
  ghost predicate Took(run: seq<State>, k0: nat, i: nat, t: nat, h: int) {
    exists k: nat :: k0 < k < i && TakesAt(run, k, t, h)
  }

  predicate CountsAt(run: seq<State>, k: nat, t: nat, d: int) {
    HasMutex(run, k, t) && HasGlobal(run, k, t) && k + 1 < |run| && run[k + 1].count == run[k].count + d
  }

  /** The thread changed open_files_count by d. */
  ghost predicate Counted(run: seq<State>, k0: nat, i: nat, t: nat, d: int) {
    exists k: nat :: k0 < k < i && CountsAt(run, k, t, d)
  }

  predicate FailsAt(run: seq<State>, acts: seq<Action>, k: nat, t: nat) {
    HasGlobal(run, k, t) && k < |acts| && acts[k].Step? && acts[k].t == t && (acts[k].fails || Full(run[k].taken))
  }

  /** The body of the open failed, or found the table full. */
  ghost predicate Failed(run: seq<State>, acts: seq<Action>, k0: nat, i: nat, t: nat) {
    exists k: nat :: k0 < k < i && FailsAt(run, acts, k, t)
  }

  predicate OpenAt(s: State, h: int) {
    0 <= h < |s.taken| && s.taken[h]
  }

  predicate ShutAt(run: seq<State>, k: nat, t: nat, h: int) {
    HasGlobal(run, k, t) && !OpenAt(run[k], h)
  }

  /** Under the global lock the thread saw that h is no TAKEN entry. */
  ghost predicate SawShut(run: seq<State>, k0: nat, i: nat, t: nat, h: int) {
    exists k: nat :: k0 < k < i && ShutAt(run, k, t, h)
  }

  /** While the thread had the global lock, the table did not change. */
  ghost predicate Untouched(run: seq<State>, k0: nat, i: nat, t: nat) {
    forall k: nat :: k0 < k < i && HasGlobal(run, k, t) && k + 1 < |run| ==> run[k + 1].taken == run[k].taken
  }

  predicate GivesAt(run: seq<State>, k: nat, t: nat, h: int) {
    && HasMutex(run, k, t) && HasGlobal(run, k, t) && k + 1 < |run|
    && OpenAt(run[k], h) && run[k + 1].taken == run[k].taken[h := false]
  }

  /** The thread freed entry h. */
  ghost predicate Gave(run: seq<State>, k0: nat, i: nat, t: nat, h: int) {
    exists k: nat :: k0 < k < i && GivesAt(run, k, t, h)
  }

  predicate DestroysAt(run: seq<State>, k: nat, t: nat) {
    HasMutex(run, k, t) && k + 1 < |run| && run[k].count == 0 && run[k + 1].destroyed && !run[k + 1].flag
  }

  ghost predicate Destroyed(run: seq<State>, k0: nat, i: nat, t: nat) {
    exists k: nat :: k0 < k < i && DestroysAt(run, k, t)
  }

  // ---------------------------------------------------------------- what a thread has behind it, by its place

  ghost predicate GotHandle(run: seq<State>, k0: nat, i: nat, t: nat, h: int) {
    SawFlag(run, k0, i, t, true) && Took(run, k0, i, t, h) && Counted(run, k0, i, t, 1)
  }

  ghost predicate NoHandle(run: seq<State>, acts: seq<Action>, k0: nat, i: nat, t: nat) {
    Untouched(run, k0, i, t) && (SawFlag(run, k0, i, t, false) || (SawFlag(run, k0, i, t, true) && Failed(run, acts, k0, i, t)))
  }

  ghost predicate OpenPast(run: seq<State>, acts: seq<Action>, k0: nat, i: nat, t: nat, s: State, p: PC) {
    match p
    case FlagLock(late) => Untouched(run, k0, i, t)
    case FlagHeld(late) => Untouched(run, k0, i, t)
    case OpenGlobal(late) => Untouched(run, k0, i, t) && SawFlag(run, k0, i, t, true)
    case OpenBody(late) => Untouched(run, k0, i, t) && SawFlag(run, k0, i, t, true)
    case OpenMutex(late, h) => SawFlag(run, k0, i, t, true) && IsFirstFree(s.taken, h)
    case OpenTake(late, h) => SawFlag(run, k0, i, t, true) && IsFirstFree(s.taken, h)
    case OpenCount(late, h) => SawFlag(run, k0, i, t, true) && Took(run, k0, i, t, h)
    case OpenUnlock(late, h) => GotHandle(run, k0, i, t, h)
    case OpenLeave(late, r) => if r == NONE then NoHandle(run, acts, k0, i, t) else GotHandle(run, k0, i, t, r)
    case Returned(r) => if r == NONE then NoHandle(run, acts, k0, i, t) else GotHandle(run, k0, i, t, r)
    case Idle => true
    case _ => false
  }

  ghost predicate ClosePast(run: seq<State>, k0: nat, i: nat, t: nat, h: int, s: State, p: PC) {
    match p
    case CloseGlobal(g) => g == h && Untouched(run, k0, i, t)
    case CloseBody(g) => g == h && Untouched(run, k0, i, t)
    case CloseMutex(g) => g == h && OpenAt(s, h)
    case CloseCount(g) => g == h && OpenAt(s, h)
    case CloseSignal(g) => g == h && OpenAt(s, h) && Counted(run, k0, i, t, -1)
    case CloseFree(g) => g == h && OpenAt(s, h) && Counted(run, k0, i, t, -1)
    case CloseUnlock(g) => g == h && Gave(run, k0, i, t, h) && Counted(run, k0, i, t, -1)
    case CloseLeave(r) => CloseTold(run, k0, i, t, h, r)
    case Returned(r) => CloseTold(run, k0, i, t, h, r)
    case Idle => true
    case _ => false
  }

  ghost predicate CloseTold(run: seq<State>, k0: nat, i: nat, t: nat, h: int, r: int) {
    || (r == 0 && Gave(run, k0, i, t, h) && Counted(run, k0, i, t, -1))
    || (r == NONE && SawShut(run, k0, i, t, h) && Untouched(run, k0, i, t))
  }

  ghost predicate EndPast(run: seq<State>, k0: nat, i: nat, t: nat, p: PC) {
    match p
    case EndUnlock => Destroyed(run, k0, i, t)
    case Returned(r) => r == 0 && Destroyed(run, k0, i, t)
    case Idle => true
    case _ => Ending(p)
  }

  // ---------------------------------------------------------------- the steps of others

  /** A step that is not the thread's own leaves it where it is, wakes it at most, and leaves the table alone if it holds the
      global lock. */
  lemma OtherLeaves(s: State, a: Action, t: nat)
    requires Inv(s) && Can(s, a) && a.t != t && t < |s.pcs|
    ensures var s' := After(s, a);
            && t < |s'.pcs| && (s'.pcs[t] == s.pcs[t] || (s.pcs[t].EndAsleep? && s'.pcs[t].EndWoken?))
            && (s.global == Some(t) ==> s'.taken == s.taken)
  {
    hide StepAfter, CanStep, TableCounted, WaiterOk, StageOk, LateOk;
    if a.Step? {
      InBounds(s, a.t);
      Outlined(s, a.t, a.fails);
      assert ThreadOk(s, a.t);
    }
  }

  lemma HoldsIts(s: State, t: nat)
    requires Inv(s) && t < |s.pcs|
    ensures (HoldsMutex(s.pcs[t]) <==> s.mutex == Some(t)) && (HoldsGlobal(s.pcs[t]) <==> s.global == Some(t))
  {
    hide TableCounted, WaiterOk, StageOk, LateOk, HoldsMutex, HoldsGlobal;
    assert ThreadOk(s, t);
  }

  lemma PastStays(run: seq<State>, acts: seq<Action>, k0: nat, i: nat, t: nat)
    requires i + 1 < |run|
    ensures forall flag :: SawFlag(run, k0, i, t, flag) ==> SawFlag(run, k0, i + 1, t, flag)
    ensures forall h :: Took(run, k0, i, t, h) ==> Took(run, k0, i + 1, t, h)
    ensures forall d :: Counted(run, k0, i, t, d) ==> Counted(run, k0, i + 1, t, d)
    ensures forall h :: Gave(run, k0, i, t, h) ==> Gave(run, k0, i + 1, t, h)
    ensures forall h :: SawShut(run, k0, i, t, h) ==> SawShut(run, k0, i + 1, t, h)
    ensures Failed(run, acts, k0, i, t) ==> Failed(run, acts, k0, i + 1, t)
    ensures Destroyed(run, k0, i, t) ==> Destroyed(run, k0, i + 1, t)
    ensures Untouched(run, k0, i, t) && (HasGlobal(run, i, t) ==> run[i + 1].taken == run[i].taken) ==> Untouched(run, k0, i + 1, t)
  {
    hide HasMutex, HasGlobal, TakesAt, CountsAt, GivesAt, FailsAt, DestroysAt, OpenAt;
  }

  /** What happens at moment i has happened by moment i + 1. */
  lemma PastGrows(run: seq<State>, acts: seq<Action>, k0: nat, i: nat, t: nat)
    requires k0 < i
    ensures forall flag :: FlagAt(run, i, t, flag) ==> SawFlag(run, k0, i + 1, t, flag)
    ensures forall h :: TakesAt(run, i, t, h) ==> Took(run, k0, i + 1, t, h)
    ensures forall d :: CountsAt(run, i, t, d) ==> Counted(run, k0, i + 1, t, d)
    ensures forall h :: GivesAt(run, i, t, h) ==> Gave(run, k0, i + 1, t, h)
    ensures forall h :: ShutAt(run, i, t, h) ==> SawShut(run, k0, i + 1, t, h)
    ensures FailsAt(run, acts, i, t) ==> Failed(run, acts, k0, i + 1, t)
    ensures DestroysAt(run, i, t) ==> Destroyed(run, k0, i + 1, t)
  {
    hide FlagAt, TakesAt, CountsAt, GivesAt, ShutAt, FailsAt, DestroysAt;
  }

  // ---------------------------------------------------------------- opens

  lemma OpenChecks(run: seq<State>, acts: seq<Action>, k0: nat, i: nat, t: nat)
    requires Run(run, acts) && k0 < i < |acts| && acts[i].Step? && acts[i].t == t && Inv(run[i]) && t < |run[i].pcs|
    requires run[i].pcs[t].FlagLock? || run[i].pcs[t].FlagHeld? || run[i].pcs[t].OpenGlobal?
    requires OpenPast(run, acts, k0, i, t, run[i], run[i].pcs[t])
    ensures t < |run[i + 1].pcs| && OpenPast(run, acts, k0, i + 1, t, run[i + 1], run[i + 1].pcs[t])
  {
    hide Inv, First, SawFlag, Took, Counted, Failed, Untouched, CloseAfter, EndAfter, IsFirstFree;
    HoldsIts(run[i], t);
    PastStays(run, acts, k0, i, t);
    PastGrows(run, acts, k0, i, t);
    if run[i].pcs[t].FlagHeld? { assert FlagAt(run, i, t, run[i].flag); }
  }

  lemma OpenSearches(run: seq<State>, acts: seq<Action>, k0: nat, i: nat, t: nat)
    requires Run(run, acts) && k0 < i < |acts| && acts[i].Step? && acts[i].t == t && Inv(run[i]) && t < |run[i].pcs|
    requires run[i].pcs[t].OpenBody? || run[i].pcs[t].OpenMutex?
    requires OpenPast(run, acts, k0, i, t, run[i], run[i].pcs[t])
    ensures t < |run[i + 1].pcs| && OpenPast(run, acts, k0, i + 1, t, run[i + 1], run[i + 1].pcs[t])
  {
    hide Inv, SawFlag, Took, Counted, Failed, Untouched, CloseAfter, EndAfter, First;
    HoldsIts(run[i], t);
    FirstIsFirst(run[i].taken);
    PastStays(run, acts, k0, i, t);
    PastGrows(run, acts, k0, i, t);
  }

  lemma OpenTakes(run: seq<State>, acts: seq<Action>, k0: nat, i: nat, t: nat)
    requires Run(run, acts) && k0 < i < |acts| && acts[i].Step? && acts[i].t == t && Inv(run[i]) && t < |run[i].pcs|
    requires run[i].pcs[t].OpenTake? || run[i].pcs[t].OpenCount? || run[i].pcs[t].OpenUnlock?
    requires OpenPast(run, acts, k0, i, t, run[i], run[i].pcs[t])
    ensures t < |run[i + 1].pcs| && OpenPast(run, acts, k0, i + 1, t, run[i + 1], run[i + 1].pcs[t])
  {
    hide Inv, First, SawFlag, Took, Counted, Failed, Untouched, CloseAfter, EndAfter;
    HoldsIts(run[i], t);
    PastStays(run, acts, k0, i, t);
    PastGrows(run, acts, k0, i, t);
    if run[i].pcs[t].OpenTake? { assert TakesAt(run, i, t, run[i].pcs[t].h); }
    if run[i].pcs[t].OpenCount? { assert CountsAt(run, i, t, 1); }
  }

  lemma OpenEnds(run: seq<State>, acts: seq<Action>, k0: nat, i: nat, t: nat)
    requires Run(run, acts) && k0 < i < |acts| && acts[i].Step? && acts[i].t == t && Inv(run[i]) && t < |run[i].pcs|
    requires run[i].pcs[t].OpenLeave? || run[i].pcs[t].Returned?
    requires OpenPast(run, acts, k0, i, t, run[i], run[i].pcs[t])
    ensures t < |run[i + 1].pcs| && OpenPast(run, acts, k0, i + 1, t, run[i + 1], run[i + 1].pcs[t])
  {
    hide Inv, First, SawFlag, Took, Counted, Failed, Untouched, CloseAfter, IsFirstFree;
    HoldsIts(run[i], t);
    PastStays(run, acts, k0, i, t);
  }

  lemma OpenOther(run: seq<State>, acts: seq<Action>, k0: nat, i: nat, t: nat)
    requires Run(run, acts) && k0 < i < |acts| && acts[i].t != t && Inv(run[i]) && t < |run[i].pcs|
    requires OpenPast(run, acts, k0, i, t, run[i], run[i].pcs[t])
    ensures t < |run[i + 1].pcs| && OpenPast(run, acts, k0, i + 1, t, run[i + 1], run[i + 1].pcs[t])
  {
    hide Inv, SawFlag, Took, Counted, Failed, Untouched, Can, After, IsFirstFree;
    assert Can(run[i], acts[i]) && run[i + 1] == After(run[i], acts[i]);
    OtherLeaves(run[i], acts[i], t);
    HoldsIts(run[i], t);
    PastStays(run, acts, k0, i, t);
  }

  lemma {:induction false} OpenHistory(run: seq<State>, acts: seq<Action>, k0: nat, i: nat, t: nat, late: bool)
    requires Called(run, acts, k0, i, t, FlagLock(late))
    ensures t < |run[i].pcs| && OpenPast(run, acts, k0, i, t, run[i], run[i].pcs[t])
  {
    hide Inv, Can, After, OpenPast;
    if i == k0 + 1 {
      OpenBegins(run, acts, k0, t, late);
    } else {
      OpenHistory(run, acts, k0, i - 1, t, late);
      RunKeepsInv(run, acts, i - 1);
      OpenStep(run, acts, k0, i - 1, t);
    }
  }

  lemma OpenBegins(run: seq<State>, acts: seq<Action>, k0: nat, t: nat, late: bool)
    requires Called(run, acts, k0, k0 + 1, t, FlagLock(late))
    ensures t < |run[k0 + 1].pcs| && OpenPast(run, acts, k0, k0 + 1, t, run[k0 + 1], run[k0 + 1].pcs[t])
  {
    assert run[k0 + 1] == After(run[k0], acts[k0]);
  }

  lemma OpenStep(run: seq<State>, acts: seq<Action>, k0: nat, i: nat, t: nat)
    requires Run(run, acts) && k0 < i < |acts| && !(acts[i].Start? && acts[i].t == t) && Inv(run[i]) && t < |run[i].pcs|
    requires OpenPast(run, acts, k0, i, t, run[i], run[i].pcs[t])
    ensures t < |run[i + 1].pcs| && OpenPast(run, acts, k0, i + 1, t, run[i + 1], run[i + 1].pcs[t])
  {
    OpenKinds(run, acts, k0, i, t);
    hide Inv, After, OpenPast;
    var p := run[i].pcs[t];
    assert Can(run[i], acts[i]);
    if acts[i].t != t { OpenOther(run, acts, k0, i, t); }
    else if p.FlagLock? || p.FlagHeld? || p.OpenGlobal? { OpenChecks(run, acts, k0, i, t); }
    else if p.OpenBody? || p.OpenMutex? { OpenSearches(run, acts, k0, i, t); }
    else if p.OpenTake? || p.OpenCount? || p.OpenUnlock? { OpenTakes(run, acts, k0, i, t); }
    else { OpenEnds(run, acts, k0, i, t); }
  }

  lemma OpenKinds(run: seq<State>, acts: seq<Action>, k0: nat, i: nat, t: nat)
    requires i < |run| && t < |run[i].pcs| && OpenPast(run, acts, k0, i, t, run[i], run[i].pcs[t])
    ensures Opening(run[i].pcs[t]) || run[i].pcs[t].Returned? || run[i].pcs[t].Idle?
  {
    hide SawFlag, Took, Counted, Failed, Untouched, IsFirstFree;
  }

  /** An open returns the handle of the first entry that was FREE, which it took and counted after it saw open_flag set; or -1,
      after it saw open_flag cleared or its body failed or found no FREE entry, and then it changed nothing in the table. */
  lemma OpenReturns(run: seq<State>, acts: seq<Action>, k0: nat, i: nat, t: nat, late: bool)
    requires Called(run, acts, k0, i, t, FlagLock(late)) && t < |run[i].pcs| && run[i].pcs[t].Returned?
    ensures var r := run[i].pcs[t].r; if r == NONE then NoHandle(run, acts, k0, i, t) else GotHandle(run, k0, i, t, r)
  {
    OpenHistory(run, acts, k0, i, t, late);
  }

  // ---------------------------------------------------------------- closes

  lemma CloseEnters(run: seq<State>, acts: seq<Action>, k0: nat, i: nat, t: nat, h: int)
    requires Run(run, acts) && k0 < i < |acts| && acts[i].Step? && acts[i].t == t && Inv(run[i]) && t < |run[i].pcs|
    requires run[i].pcs[t].CloseGlobal? || run[i].pcs[t].CloseBody?
    requires ClosePast(run, k0, i, t, h, run[i], run[i].pcs[t])
    ensures t < |run[i + 1].pcs| && ClosePast(run, k0, i + 1, t, h, run[i + 1], run[i + 1].pcs[t])
  {
    hide Inv, SawShut, Gave, Counted, Untouched, OpenAfter, EndAfter;
    HoldsIts(run[i], t);
    PastStays(run, acts, k0, i, t);
    PastGrows(run, acts, k0, i, t);
    if run[i].pcs[t].CloseBody? && !OpenAt(run[i], h) { assert ShutAt(run, i, t, h); }
  }

  lemma CloseFrees(run: seq<State>, acts: seq<Action>, k0: nat, i: nat, t: nat, h: int)
    requires Run(run, acts) && k0 < i < |acts| && acts[i].Step? && acts[i].t == t && Inv(run[i]) && t < |run[i].pcs|
    requires run[i].pcs[t].CloseMutex? || run[i].pcs[t].CloseCount? || run[i].pcs[t].CloseSignal? || run[i].pcs[t].CloseFree?
    requires ClosePast(run, k0, i, t, h, run[i], run[i].pcs[t])
    ensures t < |run[i + 1].pcs| && ClosePast(run, k0, i + 1, t, h, run[i + 1], run[i + 1].pcs[t])
  {
    hide Inv, SawShut, Gave, Counted, Untouched, OpenAfter, EndAfter;
    HoldsIts(run[i], t);
    PastStays(run, acts, k0, i, t);
    PastGrows(run, acts, k0, i, t);
    if run[i].pcs[t].CloseCount? { assert CountsAt(run, i, t, -1); }
    if run[i].pcs[t].CloseFree? { assert GivesAt(run, i, t, h); }
  }

  lemma CloseEnds(run: seq<State>, acts: seq<Action>, k0: nat, i: nat, t: nat, h: int)
    requires Run(run, acts) && k0 < i < |acts| && acts[i].Step? && acts[i].t == t && Inv(run[i]) && t < |run[i].pcs|
    requires run[i].pcs[t].CloseUnlock? || run[i].pcs[t].CloseLeave? || run[i].pcs[t].Returned?
    requires ClosePast(run, k0, i, t, h, run[i], run[i].pcs[t])
    ensures t < |run[i + 1].pcs| && ClosePast(run, k0, i + 1, t, h, run[i + 1], run[i + 1].pcs[t])
  {
    hide Inv, SawShut, Gave, Counted, Untouched, OpenAfter;
    HoldsIts(run[i], t);
    PastStays(run, acts, k0, i, t);
  }

  lemma CloseOther(run: seq<State>, acts: seq<Action>, k0: nat, i: nat, t: nat, h: int)
    requires Run(run, acts) && k0 < i < |acts| && acts[i].t != t && Inv(run[i]) && t < |run[i].pcs|
    requires ClosePast(run, k0, i, t, h, run[i], run[i].pcs[t])
    ensures t < |run[i + 1].pcs| && ClosePast(run, k0, i + 1, t, h, run[i + 1], run[i + 1].pcs[t])
  {
    hide Inv, SawShut, Gave, Counted, Untouched, Can, After;
    assert Can(run[i], acts[i]) && run[i + 1] == After(run[i], acts[i]);
    OtherLeaves(run[i], acts[i], t);
    HoldsIts(run[i], t);
    PastStays(run, acts, k0, i, t);
  }

  lemma CloseKinds(run: seq<State>, k0: nat, i: nat, t: nat, h: int)
    requires i < |run| && t < |run[i].pcs| && ClosePast(run, k0, i, t, h, run[i], run[i].pcs[t])
    ensures Closing(run[i].pcs[t]) || run[i].pcs[t].Returned? || run[i].pcs[t].Idle?
  {
    hide SawShut, Gave, Counted, Untouched;
  }

  lemma CloseStep(run: seq<State>, acts: seq<Action>, k0: nat, i: nat, t: nat, h: int)
    requires Run(run, acts) && k0 < i < |acts| && !(acts[i].Start? && acts[i].t == t) && Inv(run[i]) && t < |run[i].pcs|
    requires ClosePast(run, k0, i, t, h, run[i], run[i].pcs[t])
    ensures t < |run[i + 1].pcs| && ClosePast(run, k0, i + 1, t, h, run[i + 1], run[i + 1].pcs[t])
  {
    CloseKinds(run, k0, i, t, h);
    hide Inv, After, ClosePast;
    var p := run[i].pcs[t];
    assert Can(run[i], acts[i]);
    if acts[i].t != t { CloseOther(run, acts, k0, i, t, h); }
    else if p.CloseGlobal? || p.CloseBody? { CloseEnters(run, acts, k0, i, t, h); }
    else if p.CloseUnlock? || p.CloseLeave? || p.Returned? { CloseEnds(run, acts, k0, i, t, h); }
    else { CloseFrees(run, acts, k0, i, t, h); }
  }

  lemma {:induction false} CloseHistory(run: seq<State>, acts: seq<Action>, k0: nat, i: nat, t: nat, h: int)
    requires Called(run, acts, k0, i, t, CloseGlobal(h))
    ensures t < |run[i].pcs| && ClosePast(run, k0, i, t, h, run[i], run[i].pcs[t])
  {
    hide Inv, Can, After, ClosePast;
    if i == k0 + 1 {
      CloseBegins(run, acts, k0, t, h);
    } else {
      CloseHistory(run, acts, k0, i - 1, t, h);
      RunKeepsInv(run, acts, i - 1);
      CloseStep(run, acts, k0, i - 1, t, h);
    }
  }

  lemma CloseBegins(run: seq<State>, acts: seq<Action>, k0: nat, t: nat, h: int)
    requires Called(run, acts, k0, k0 + 1, t, CloseGlobal(h))
    ensures t < |run[k0 + 1].pcs| && ClosePast(run, k0, k0 + 1, t, h, run[k0 + 1], run[k0 + 1].pcs[t])
  {
    assert run[k0 + 1] == After(run[k0], acts[k0]);
  }

  /** A close returns 0 after it freed the entry, which was TAKEN, and counted it out; or -1 after it saw, under the global lock,
      that h is no TAKEN entry, and then it changed nothing in the table. */
  lemma CloseReturns(run: seq<State>, acts: seq<Action>, k0: nat, i: nat, t: nat, h: int)
    requires Called(run, acts, k0, i, t, CloseGlobal(h)) && t < |run[i].pcs| && run[i].pcs[t].Returned?
    ensures CloseTold(run, k0, i, t, h, run[i].pcs[t].r)
  {
    CloseHistory(run, acts, k0, i, t, h);
  }

  // ---------------------------------------------------------------- destruction

  lemma EndOwnStep(run: seq<State>, acts: seq<Action>, k0: nat, i: nat, t: nat)
    requires Run(run, acts) && k0 < i < |acts| && !acts[i].Start? && acts[i].t == t && Inv(run[i]) && t < |run[i].pcs|
    requires EndPast(run, k0, i, t, run[i].pcs[t])
    ensures t < |run[i + 1].pcs| && EndPast(run, k0, i + 1, t, run[i + 1].pcs[t])
  {
    hide Inv, First, Destroyed, OpenAfter, CloseAfter;
    HoldsIts(run[i], t);
    PastStays(run, acts, k0, i, t);
    PastGrows(run, acts, k0, i, t);
    assert Can(run[i], acts[i]) && run[i + 1] == After(run[i], acts[i]);
    if run[i].pcs[t].EndTest? && run[i].count == 0 { assert DestroysAt(run, i, t); }
  }

  lemma EndOther(run: seq<State>, acts: seq<Action>, k0: nat, i: nat, t: nat)
    requires Run(run, acts) && k0 < i < |acts| && acts[i].t != t && Inv(run[i]) && t < |run[i].pcs|
    requires EndPast(run, k0, i, t, run[i].pcs[t])
    ensures t < |run[i + 1].pcs| && EndPast(run, k0, i + 1, t, run[i + 1].pcs[t])
  {
    hide Inv, Destroyed, Can, After;
    assert Can(run[i], acts[i]) && run[i + 1] == After(run[i], acts[i]);
    OtherLeaves(run[i], acts[i], t);
    PastStays(run, acts, k0, i, t);
  }

  lemma {:induction false} EndHistory(run: seq<State>, acts: seq<Action>, k0: nat, i: nat, t: nat)
    requires Called(run, acts, k0, i, t, EndLock)
    ensures t < |run[i].pcs| && EndPast(run, k0, i, t, run[i].pcs[t])
  {
    hide Inv, Can, After, EndPast;
    if i == k0 + 1 {
      EndBegins(run, acts, k0, t);
    } else {
      EndHistory(run, acts, k0, i - 1, t);
      RunKeepsInv(run, acts, i - 1);
      if acts[i - 1].t == t { EndOwnStep(run, acts, k0, i - 1, t); } else { EndOther(run, acts, k0, i - 1, t); }
    }
  }

  lemma EndBegins(run: seq<State>, acts: seq<Action>, k0: nat, t: nat)
    requires Called(run, acts, k0, k0 + 1, t, EndLock)
    ensures t < |run[k0 + 1].pcs| && EndPast(run, k0, k0 + 1, t, run[k0 + 1].pcs[t])
  {
    assert run[k0 + 1] == After(run[k0], acts[k0]);
  }

  /** The destroyer returns 0, once it has found the count zero under the mutex and cleared open_flag in the same hold. */
  lemma EndReturns(run: seq<State>, acts: seq<Action>, k0: nat, i: nat, t: nat)
    requires Called(run, acts, k0, i, t, EndLock) && t < |run[i].pcs| && run[i].pcs[t].Returned?
    ensures run[i].pcs[t].r == 0 && Destroyed(run, k0, i, t)
  {
    EndHistory(run, acts, k0, i, t);
  }
}
