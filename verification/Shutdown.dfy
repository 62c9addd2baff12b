/**
  Shutdown of the file system of parte-2: opens and closes by any number of threads under single_global_lock and
  open_files_mutex, the count of open files, and one thread that waits until the count is zero and then destroys.
 */
module Shutdown {
  import opened Options
  import opened Config
  import opened FirstFit
  import opened Invariant
  import Tables

  /** Where a thread is. `late` tells that the open began after destruction; no step depends on it. */
  datatype PC =
    | Idle
    | Returned(r: int)
    // tfs_open: the check of open_flag, then the body under the global lock
    | FlagLock(late: bool) | FlagHeld(late: bool)
    | OpenGlobal(late: bool) | OpenBody(late: bool)
    | OpenMutex(late: bool, h: nat) | OpenTake(late: bool, h: nat) | OpenCount(late: bool, h: nat) | OpenUnlock(late: bool, h: nat)
    | OpenLeave(late: bool, r: int)
    // tfs_close
    | CloseGlobal(handle: int) | CloseBody(handle: int)
    | CloseMutex(h: nat) | CloseCount(h: nat) | CloseSignal(h: nat) | CloseFree(h: nat) | CloseUnlock(h: nat)
    | CloseLeave(r: int)
    // tfs_destroy_after_all_closed
    | EndLock | EndTest | EndAsleep | EndWoken | EndUnlock

  datatype State = State(
    taken: seq<bool>, count: int, flag: bool, destroyed: bool, mutex: Option<nat>, global: Option<nat>, pcs: seq<PC>)

  /** What a thread may start: one destroyer at a time. */
  predicate CanStart(s: State, t: nat, pc: PC) {
    && t < |s.pcs| && s.pcs[t].Idle?
    && match pc
       case FlagLock(late) => late == s.destroyed
       case CloseGlobal(h) => true
       case EndLock => forall u :: 0 <= u < |s.pcs| ==> !Ending(s.pcs[u])
       case _ => false
  }

  predicate Ending(pc: PC) {
    pc.EndLock? || pc.EndTest? || pc.EndAsleep? || pc.EndWoken? || pc.EndUnlock?
  }

  /** The signal wakes whoever waits for the count to be zero. */
  function Signalled(pcs: seq<PC>): (r: seq<PC>)
    ensures |r| == |pcs|
    ensures forall u :: 0 <= u < |pcs| ==> r[u] == if pcs[u].EndAsleep? then EndWoken else pcs[u]
  {
    seq(|pcs|, u requires 0 <= u < |pcs| => if pcs[u].EndAsleep? then EndWoken else pcs[u])
  }

  /** A lock that is wanted is free. */
  predicate CanStep(s: State, t: nat) {
    && t < |s.pcs|
    && match s.pcs[t]
       case Idle => false
       case EndAsleep => false
       case FlagLock(late) => s.mutex.None?
       case OpenMutex(late, h) => s.mutex.None?
       case CloseMutex(h) => s.mutex.None?
       case EndLock => s.mutex.None?
       case EndWoken => s.mutex.None?
       case OpenGlobal(late) => s.global.None?
       case CloseGlobal(h) => s.global.None?
       case _ => true
  }

  function Go(s: State, t: nat, pc: PC): State
    requires t < |s.pcs|
  {
    s.(pcs := s.pcs[t := pc])
  }

  /** The next step of a thread in tfs_open; `fails` tells whether its body fails before it gets to the table. */
  function OpenAfter(s: State, t: nat, fails: bool): State
    requires t < |s.pcs|
  {
    match s.pcs[t]
    case FlagLock(late) => Go(s, t, FlagHeld(late)).(mutex := Some(t))
    case FlagHeld(late) => Go(s, t, if s.flag then OpenGlobal(late) else Returned(NONE)).(mutex := None)
    case OpenGlobal(late) => Go(s, t, OpenBody(late)).(global := Some(t))
    case OpenBody(late) =>
      var h := First(s.taken);
      Go(s, t, if fails || h == NONE then OpenLeave(late, NONE) else OpenMutex(late, h))
    case OpenMutex(late, h) => Go(s, t, OpenTake(late, h)).(mutex := Some(t))
    case OpenTake(late, h) => Go(s, t, OpenCount(late, h)).(taken := if h < |s.taken| then s.taken[h := true] else s.taken)
    case OpenCount(late, h) => Go(s, t, OpenUnlock(late, h)).(count := s.count + 1)
    case OpenUnlock(late, h) => Go(s, t, OpenLeave(late, h)).(mutex := None)
    case OpenLeave(late, r) => Go(s, t, Returned(r)).(global := None)
    case _ => s
  }

  function CloseAfter(s: State, t: nat): State
    requires t < |s.pcs|
  {
    match s.pcs[t]
    case CloseGlobal(h) => Go(s, t, CloseBody(h)).(global := Some(t))
    case CloseBody(h) => Go(s, t, if !(0 <= h < |s.taken|) || !s.taken[h] then CloseLeave(NONE) else CloseMutex(h))
    case CloseMutex(h) => Go(s, t, CloseCount(h)).(mutex := Some(t))
    case CloseCount(h) => Go(s, t, CloseSignal(h)).(count := s.count - 1)
    case CloseSignal(h) => Go(if s.count == 0 then s.(pcs := Signalled(s.pcs)) else s, t, CloseFree(h))
    case CloseFree(h) => Go(s, t, CloseUnlock(h)).(taken := if h < |s.taken| then s.taken[h := false] else s.taken)
    case CloseUnlock(h) => Go(s, t, CloseLeave(0)).(mutex := None)
    case CloseLeave(r) => Go(s, t, Returned(r)).(global := None)
    case _ => s
  }

  function EndAfter(s: State, t: nat): State
    requires t < |s.pcs|
  {
    match s.pcs[t]
    case EndLock => Go(s, t, EndTest).(mutex := Some(t))
    case EndTest =>
      if s.count != 0 then Go(s, t, EndAsleep).(mutex := None)
      else Go(s, t, EndUnlock).(flag := false, destroyed := true)
    case EndWoken => Go(s, t, EndTest).(mutex := Some(t))
    case EndUnlock => Go(s, t, Returned(0)).(mutex := None)
    case Returned(r) => Go(s, t, Idle)
    case _ => s
  }

  predicate Opening(pc: PC) {
    || pc.FlagLock? || pc.FlagHeld? || pc.OpenGlobal? || pc.OpenBody? || pc.OpenMutex? || pc.OpenTake? || pc.OpenCount?
    || pc.OpenUnlock? || pc.OpenLeave?
  }

  predicate Closing(pc: PC) {
    || pc.CloseGlobal? || pc.CloseBody? || pc.CloseMutex? || pc.CloseCount? || pc.CloseSignal? || pc.CloseFree?
    || pc.CloseUnlock? || pc.CloseLeave?
  }

  function StepAfter(s: State, t: nat, fails: bool): State
    requires t < |s.pcs|
  {
    if Opening(s.pcs[t]) then OpenAfter(s, t, fails) else if Closing(s.pcs[t]) then CloseAfter(s, t) else EndAfter(s, t)
  }

  datatype Action = Start(t: nat, pc: PC) | Step(t: nat, fails: bool) | Spurious(t: nat)

  predicate Can(s: State, a: Action) {
    match a
    case Start(t, pc) => CanStart(s, t, pc)
    case Step(t, fails) => CanStep(s, t)
    case Spurious(t) => t < |s.pcs| && s.pcs[t].EndAsleep?
  }

  function After(s: State, a: Action): State
    requires Can(s, a)
  {
    match a
    case Start(t, pc) => Go(s, t, pc)
    case Step(t, fails) => StepAfter(s, t, fails)
    case Spurious(t) => Go(s, t, EndWoken)
  }

  /** The file system was initialised: nothing is open and opens are allowed. */
  predicate Init(s: State) {
    && s.taken == seq(MAX_OPEN_FILES, _ => false) && s.count == 0 && s.flag && !s.destroyed
    && s.mutex.None? && s.global.None? && forall t :: 0 <= t < |s.pcs| ==> s.pcs[t] == Idle
  }

  ghost predicate Run(run: seq<State>, acts: seq<Action>) {
    && |run| == |acts| + 1 && Init(run[0])
    && forall k :: 0 <= k < |acts| ==> Can(run[k], acts[k]) && run[k + 1] == After(run[k], acts[k])
  }

  // ---------------------------------------------------------------- the invariant

  predicate HoldsMutex(pc: PC) {
    || pc.FlagHeld? || pc.OpenTake? || pc.OpenCount? || pc.OpenUnlock?
    || pc.CloseCount? || pc.CloseSignal? || pc.CloseFree? || pc.CloseUnlock? || pc.EndTest? || pc.EndUnlock?
  }

  predicate HoldsGlobal(pc: PC) {
    || pc.OpenBody? || pc.OpenMutex? || pc.OpenTake? || pc.OpenCount? || pc.OpenUnlock? || pc.OpenLeave?
    || pc.CloseBody? || pc.CloseMutex? || pc.CloseCount? || pc.CloseSignal? || pc.CloseFree? || pc.CloseUnlock? || pc.CloseLeave?
  }

  /** By how much the table is ahead of the count while a thread is between the two. */
  function Ahead(pc: PC): int {
    if pc.OpenCount? || pc.CloseSignal? || pc.CloseFree? then 1 else 0
  }

  predicate StageOk(s: State, pc: PC) {
    match pc
    case OpenMutex(late, h) => h < |s.taken| && !s.taken[h]
    case OpenTake(late, h) => h < |s.taken| && !s.taken[h]
    case OpenCount(late, h) => h < |s.taken| && s.taken[h]
    case CloseMutex(h) => h < |s.taken| && s.taken[h]
    case CloseCount(h) => h < |s.taken| && s.taken[h]
    case CloseSignal(h) => h < |s.taken| && s.taken[h]
    case CloseFree(h) => h < |s.taken| && s.taken[h]
    case EndUnlock => s.destroyed
    case _ => true
  }

  /** An open that began after destruction gets no further than the check of the flag. */
  predicate LateOk(s: State, pc: PC) {
    && (pc.FlagLock? || pc.FlagHeld? ==> (pc.late ==> s.destroyed))
    && (pc.OpenGlobal? || pc.OpenBody? || pc.OpenMutex? || pc.OpenTake? || pc.OpenCount? || pc.OpenUnlock? || pc.OpenLeave? ==>
          !pc.late)
  }

  ghost predicate ThreadsOk(s: State) {
    forall t :: 0 <= t < |s.pcs| ==> ThreadOk(s, t)
  }

  predicate ThreadOk(s: State, t: nat)
    requires t < |s.pcs|
  {
    && (HoldsMutex(s.pcs[t]) <==> s.mutex == Some(t)) && (HoldsGlobal(s.pcs[t]) <==> s.global == Some(t))
    && StageOk(s, s.pcs[t]) && LateOk(s, s.pcs[t])
  }

  /** The holder of the mutex, if any. */
  function Holder(s: State): PC {
    if s.mutex.Some? && s.mutex.value < |s.pcs| then s.pcs[s.mutex.value] else Idle
  }

  /** The count is that of the TAKEN entries, but for a thread between the two. */
  ghost predicate TableCounted(s: State) {
    CountTrue(s.taken) == s.count + Ahead(Holder(s))
  }

  /** Who waits for the count to be zero is awake when it is, or about to be woken. */
  ghost predicate WaiterOk(s: State) {
    && (forall t, u :: 0 <= t < |s.pcs| && 0 <= u < |s.pcs| && t != u && Ending(s.pcs[t]) ==> !Ending(s.pcs[u]))
    && (forall t :: 0 <= t < |s.pcs| && s.pcs[t].EndAsleep? ==> s.count != 0 || Holder(s).CloseSignal?)
  }

  ghost predicate Inv(s: State) {
    Framed(s) && ThreadsOk(s) && TableCounted(s) && WaiterOk(s)
  }

  // ---------------------------------------------------------------- every step keeps it

  lemma InitOk(s: State)
    requires Init(s)
    ensures Inv(s)
  {
    NoneTaken(MAX_OPEN_FILES);
    hide CountTrue;
  }

  lemma {:induction false} NoneTaken(n: nat)
    ensures CountTrue(seq(n, _ => false)) == 0
  {
    if n > 0 {
      assert seq(n, _ => false)[..n - 1] == seq(n - 1, _ => false);
      NoneTaken(n - 1);
    }
  }

  /** A thread that holds no lock moves to a place where it needs none. */
  lemma MoveKeeps(s: State, t: nat, pc: PC)
    requires Inv(s) && t < |s.pcs| && (s.pcs[t].Idle? || s.pcs[t].EndAsleep?)
    requires !HoldsMutex(pc) && !HoldsGlobal(pc) && StageOk(s, pc) && LateOk(s, pc) && !pc.EndAsleep?
    requires Ending(pc) && !Ending(s.pcs[t]) ==> forall u :: 0 <= u < |s.pcs| ==> !Ending(s.pcs[u])
    ensures Inv(Go(s, t, pc))
  {
    hide CountTrue, StageOk, LateOk;
    var s' := Go(s, t, pc);
    assert ThreadOk(s, t);
    forall u | 0 <= u < |s'.pcs| ensures ThreadOk(s', u) {
      assert ThreadOk(s, u);
      SamePlace(s, s', s'.pcs[u]);
    }
  }

  lemma SamePlace(s: State, s': State, pc: PC)
    requires s'.taken == s.taken && s'.destroyed == s.destroyed
    ensures StageOk(s', pc) == StageOk(s, pc) && LateOk(s', pc) == LateOk(s, pc)
  {
  }

  /** What a step of thread t may do to the rest. */
  ghost predicate Outline(s: State, s': State, t: nat) {
    && t < |s.pcs| == |s'.pcs| && |s'.taken| == |s.taken|
    && (forall u :: 0 <= u < |s.pcs| && u != t ==> s'.pcs[u] == s.pcs[u] || (s.pcs[u].EndAsleep? && s'.pcs[u].EndWoken?))
    && (s'.mutex == s.mutex || (s.mutex.None? && s'.mutex == Some(t)) || (HoldsMutex(s.pcs[t]) && s'.mutex.None?))
    && (s'.global == s.global || (s.global.None? && s'.global == Some(t)) || (HoldsGlobal(s.pcs[t]) && s'.global.None?))
    && (s'.taken == s.taken || HoldsGlobal(s.pcs[t]))
    && (s.destroyed ==> s'.destroyed) && (s'.destroyed == s.destroyed || s.pcs[t].EndTest?)
    && ((s'.count == s.count && s'.taken == s.taken) || HoldsMutex(s.pcs[t]))
  }

  lemma Outlined(s: State, t: nat, fails: bool)
    requires t < |s.pcs| && CanStep(s, t)
    ensures Outline(s, StepAfter(s, t, fails), t)
  {
    hide OpenAfter, CloseAfter, EndAfter, CanStep;
    if Opening(s.pcs[t]) { OpenOutlined(s, t, fails); }
    else if Closing(s.pcs[t]) { CloseOutlined(s, t); }
    else { EndOutlined(s, t); }
  }

  lemma OpenOutlined(s: State, t: nat, fails: bool)
    requires CanStep(s, t) && Opening(s.pcs[t])
    ensures Outline(s, OpenAfter(s, t, fails), t)
  {
    hide First;
  }

  lemma CloseOutlined(s: State, t: nat)
    requires CanStep(s, t) && Closing(s.pcs[t])
    ensures Outline(s, CloseAfter(s, t), t)
  {
    hide First;
  }

  lemma EndOutlined(s: State, t: nat)
    requires CanStep(s, t) && !Opening(s.pcs[t]) && !Closing(s.pcs[t])
    ensures Outline(s, EndAfter(s, t), t)
  {
    hide First;
  }

  lemma OtherThread(s: State, s': State, t: nat, u: nat)
    requires Outline(s, s', t) && ThreadOk(s, t) && u < |s.pcs| && u != t && ThreadOk(s, u)
    ensures ThreadOk(s', u)
  {
  }

  lemma OwnPlace(s: State, t: nat, fails: bool)
    requires t < |s.pcs| && CanStep(s, t) && |s.taken| == MAX_OPEN_FILES && ThreadOk(s, t) && (s.destroyed <==> !s.flag)
    ensures |StepAfter(s, t, fails).pcs| == |s.pcs| && ThreadOk(StepAfter(s, t, fails), t)
  {
    hide OpenAfter, CloseAfter, EndAfter, CanStep;
    if Opening(s.pcs[t]) { OpenOwnPlace(s, t, fails); }
    else if Closing(s.pcs[t]) { CloseOwnPlace(s, t); }
    else { EndOwnPlace(s, t); }
  }

  lemma OpenOwnPlace(s: State, t: nat, fails: bool)
    requires CanStep(s, t) && |s.taken| == MAX_OPEN_FILES && ThreadOk(s, t) && (s.destroyed <==> !s.flag) && Opening(s.pcs[t])
    ensures |OpenAfter(s, t, fails).pcs| == |s.pcs| && ThreadOk(OpenAfter(s, t, fails), t)
  {
    hide First;
  }

  lemma CloseOwnPlace(s: State, t: nat)
    requires CanStep(s, t) && |s.taken| == MAX_OPEN_FILES && ThreadOk(s, t) && (s.destroyed <==> !s.flag) && Closing(s.pcs[t])
    ensures |CloseAfter(s, t).pcs| == |s.pcs| && ThreadOk(CloseAfter(s, t), t)
  {
    hide First;
  }

  lemma EndOwnPlace(s: State, t: nat)
    requires CanStep(s, t) && |s.taken| == MAX_OPEN_FILES && ThreadOk(s, t) && (s.destroyed <==> !s.flag)
    requires !Opening(s.pcs[t]) && !Closing(s.pcs[t])
    ensures |EndAfter(s, t).pcs| == |s.pcs| && ThreadOk(EndAfter(s, t), t)
  {
    hide First;
  }

  lemma StepThreads(s: State, t: nat, fails: bool)
    requires Inv(s) && CanStep(s, t)
    ensures ThreadsOk(StepAfter(s, t, fails))
  {
    hide ThreadOk, TableCounted, WaiterOk, Outline, StepAfter, CanStep;
    InBounds(s, t);
    assert ThreadOk(s, t);
    Outlined(s, t, fails);
    OwnPlace(s, t, fails);
    SameThreads(s, StepAfter(s, t, fails), t);
    forall u | 0 <= u < |s.pcs| && u != t ensures ThreadOk(StepAfter(s, t, fails), u) {
      OtherThread(s, StepAfter(s, t, fails), t, u);
    }
  }

  lemma SameThreads(s: State, s': State, t: nat)
    requires Outline(s, s', t)
    ensures |s'.pcs| == |s.pcs|
  {
  }

  /** The count and the table move together. */
  ghost predicate Together(s: State, s': State, t: nat)
    requires t < |s.pcs| == |s'.pcs|
  {
    CountTrue(s'.taken) - CountTrue(s.taken) == s'.count - s.count + Ahead(s'.pcs[t]) - Ahead(s.pcs[t])
  }

  lemma Counted(s: State, t: nat, fails: bool)
    requires t < |s.pcs| && CanStep(s, t) && StageOk(s, s.pcs[t])
    ensures |StepAfter(s, t, fails).pcs| == |s.pcs| && Together(s, StepAfter(s, t, fails), t)
  {
    hide OpenAfter, CloseAfter, EndAfter, CanStep;
    if Opening(s.pcs[t]) { OpenCounted(s, t, fails); }
    else if Closing(s.pcs[t]) { CloseCounted(s, t); }
    else { EndCounted(s, t); }
  }

  lemma OpenCounted(s: State, t: nat, fails: bool)
    requires CanStep(s, t) && StageOk(s, s.pcs[t]) && Opening(s.pcs[t])
    ensures |OpenAfter(s, t, fails).pcs| == |s.pcs| && Together(s, OpenAfter(s, t, fails), t)
  {
    hide First, CountTrue;
    if s.pcs[t].OpenTake? { Tables.CountUpdate(s.taken, s.pcs[t].h, true); }
  }

  lemma CloseCounted(s: State, t: nat)
    requires CanStep(s, t) && StageOk(s, s.pcs[t]) && Closing(s.pcs[t])
    ensures |CloseAfter(s, t).pcs| == |s.pcs| && Together(s, CloseAfter(s, t), t)
  {
    hide First, CountTrue;
    if s.pcs[t].CloseFree? { Tables.CountUpdate(s.taken, s.pcs[t].h, false); }
  }

  lemma EndCounted(s: State, t: nat)
    requires CanStep(s, t) && StageOk(s, s.pcs[t]) && !Opening(s.pcs[t]) && !Closing(s.pcs[t])
    ensures |EndAfter(s, t).pcs| == |s.pcs| && Together(s, EndAfter(s, t), t)
  {
    hide First, CountTrue;
  }

  lemma AheadHolds(pc: PC)
    ensures Ahead(pc) != 0 ==> HoldsMutex(pc)
  {
  }

  lemma StepCount(s: State, s': State, t: nat, fails: bool)
    requires Inv(s) && CanStep(s, t) && s' == StepAfter(s, t, fails) && Outline(s, s', t) && ThreadsOk(s')
    ensures TableCounted(s')
  {
    hide CountTrue, StepAfter, CanStep, WaiterOk, HoldsGlobal, StageOk, LateOk;
    InBounds(s, t);
    assert ThreadOk(s, t) && ThreadOk(s', t);
    Counted(s, t, fails);
    if s.mutex.Some? { assert ThreadOk(s, s.mutex.value); }
    AheadHolds(s.pcs[t]);
    AheadHolds(s'.pcs[t]);
    IdleNotAhead();
  }

  lemma IdleNotAhead()
    ensures Ahead(Idle) == 0
  {
  }

  lemma {:induction false} SomeTaken(taken: seq<bool>, h: nat)
    requires h < |taken| && taken[h]
    ensures CountTrue(taken) >= 1
  {
    var k := |taken| - 1;
    if h < k { SomeTaken(taken[..k], h); }
  }

  /** What a step may do to the count and to whoever waits for it. */
  ghost predicate WaiterMoves(s: State, s': State, t: nat)
    requires t < |s.pcs| == |s'.pcs|
  {
    && (s'.pcs[t].EndAsleep? ==> s.pcs[t].EndTest? && s.count != 0 && s'.count == s.count)
    && (s'.count != s.count ==> (s.pcs[t].CloseCount? && s'.pcs[t].CloseSignal? && s'.mutex == s.mutex)
                                || (s.pcs[t].OpenCount? && s'.count == s.count + 1))
    && (s.pcs[t].CloseSignal? ==>
          s'.count == s.count && (s.count == 0 ==> forall u :: 0 <= u < |s.pcs| && u != t ==> !s'.pcs[u].EndAsleep?))
    && (Ending(s'.pcs[t]) ==> Ending(s.pcs[t]))
  }

  lemma Waited(s: State, t: nat, fails: bool)
    requires t < |s.pcs| && CanStep(s, t)
    ensures |StepAfter(s, t, fails).pcs| == |s.pcs| && WaiterMoves(s, StepAfter(s, t, fails), t)
  {
    hide OpenAfter, CloseAfter, EndAfter, CanStep;
    if Opening(s.pcs[t]) { OpenWaited(s, t, fails); }
    else if Closing(s.pcs[t]) { CloseWaited(s, t); }
    else { EndWaited(s, t); }
  }

  lemma OpenWaited(s: State, t: nat, fails: bool)
    requires CanStep(s, t) && Opening(s.pcs[t])
    ensures |OpenAfter(s, t, fails).pcs| == |s.pcs| && WaiterMoves(s, OpenAfter(s, t, fails), t)
  {
    hide First;
  }

  lemma CloseWaited(s: State, t: nat)
    requires CanStep(s, t) && Closing(s.pcs[t])
    ensures |CloseAfter(s, t).pcs| == |s.pcs| && WaiterMoves(s, CloseAfter(s, t), t)
  {
    hide First;
  }

  lemma EndWaited(s: State, t: nat)
    requires CanStep(s, t) && !Opening(s.pcs[t]) && !Closing(s.pcs[t])
    ensures |EndAfter(s, t).pcs| == |s.pcs| && WaiterMoves(s, EndAfter(s, t), t)
  {
    hide First;
  }

  lemma StepWaiter(s: State, s': State, t: nat)
    requires Inv(s) && Outline(s, s', t) && WaiterMoves(s, s', t) && ThreadsOk(s')
    ensures WaiterOk(s')
  {
    hide CountTrue, LateOk, StageOk, HoldsGlobal;
    assert ThreadOk(s, t) && ThreadOk(s', t);
    if s.pcs[t].OpenCount? { CountedIsOpen(s, t); }
    forall u | 0 <= u < |s'.pcs| && s'.pcs[u].EndAsleep? ensures s'.count != 0 || Holder(s').CloseSignal? {
      assert u != t ==> s.pcs[u].EndAsleep?;
    }
  }

  lemma CountedIsOpen(s: State, t: nat)
    requires Inv(s) && t < |s.pcs| && s.pcs[t].OpenCount?
    ensures s.count >= 0
  {
    hide CountTrue, LateOk;
    assert ThreadOk(s, t);
    SomeTaken(s.taken, s.pcs[t].h);
  }

  lemma InBounds(s: State, t: nat)
    requires CanStep(s, t)
    ensures t < |s.pcs|
  {
  }

  lemma StepKeeps(s: State, a: Action)
    requires Inv(s) && Can(s, a)
    ensures Inv(After(s, a))
  {
    hide ThreadsOk, TableCounted, WaiterOk, Outline, WaiterMoves, StepAfter, CanStep;
    match a
    case Start(t, pc) => MoveKeeps(s, t, pc);
    case Spurious(t) => MoveKeeps(s, t, EndWoken);
    case Step(t, fails) =>
      InBounds(s, t);
      var s' := StepAfter(s, t, fails);
      Outlined(s, t, fails);
      StepThreads(s, t, fails);
      StepCount(s, s', t, fails);
      Waited(s, t, fails);
      StepWaiter(s, s', t);
      StaysFramed(s, t, fails);
  }

  ghost predicate Framed(s: State) {
    && |s.taken| == MAX_OPEN_FILES && (s.destroyed <==> !s.flag)
    && (s.mutex.Some? ==> s.mutex.value < |s.pcs|) && (s.global.Some? ==> s.global.value < |s.pcs|)
  }

  lemma StaysFramed(s: State, t: nat, fails: bool)
    requires t < |s.pcs| && CanStep(s, t) && Framed(s)
    ensures |StepAfter(s, t, fails).pcs| == |s.pcs| && Framed(StepAfter(s, t, fails))
  {
    hide OpenAfter, CloseAfter, EndAfter, CanStep;
    if Opening(s.pcs[t]) { OpenStaysFramed(s, t, fails); }
    else if Closing(s.pcs[t]) { CloseStaysFramed(s, t); }
    else { EndStaysFramed(s, t); }
  }

  lemma OpenStaysFramed(s: State, t: nat, fails: bool)
    requires CanStep(s, t) && Framed(s) && Opening(s.pcs[t])
    ensures |OpenAfter(s, t, fails).pcs| == |s.pcs| && Framed(OpenAfter(s, t, fails))
  {
    hide First;
  }

  lemma CloseStaysFramed(s: State, t: nat)
    requires CanStep(s, t) && Framed(s) && Closing(s.pcs[t])
    ensures |CloseAfter(s, t).pcs| == |s.pcs| && Framed(CloseAfter(s, t))
  {
    hide First;
  }

  lemma EndStaysFramed(s: State, t: nat)
    requires CanStep(s, t) && Framed(s) && !Opening(s.pcs[t]) && !Closing(s.pcs[t])
    ensures |EndAfter(s, t).pcs| == |s.pcs| && Framed(EndAfter(s, t))
  {
    hide First;
  }

  lemma {:induction false} RunKeepsInv(run: seq<State>, acts: seq<Action>, k: nat)
    requires Run(run, acts) && k < |run|
    ensures Inv(run[k])
  {
    hide Inv, Can, After, Init;
    if k == 0 {
      InitOk(run[0]);
    } else {
      RunKeepsInv(run, acts, k - 1);
      StepKeeps(run[k - 1], acts[k - 1]);
    }
  }

  // ---------------------------------------------------------------- what shutdown promises

  /** Whenever its mutex is free, open_files_count is the number of TAKEN entries. */
  lemma CountIsExact(run: seq<State>, acts: seq<Action>, k: nat)
    requires Run(run, acts) && k < |run| && run[k].mutex.None?
    ensures run[k].count == CountTrue(run[k].taken)
  {
    RunKeepsInv(run, acts, k);
  }

  lemma {:induction false} NoneIfZero(taken: seq<bool>, h: nat)
    requires CountTrue(taken) == 0 && h < |taken|
    ensures !taken[h]
  {
    if taken[h] { SomeTaken(taken, h); }
  }

  /** Destruction happens only at a moment when no file is open. */
  lemma DestroyedOnlyWhenClosed(run: seq<State>, acts: seq<Action>, k: nat)
    requires Run(run, acts) && k < |acts| && !run[k].destroyed && run[k + 1].destroyed
    ensures run[k].count == 0 && forall h :: 0 <= h < |run[k].taken| ==> !run[k].taken[h]
  {
    RunKeepsInv(run, acts, k);
    var s := run[k];
    hide CountTrue, WaiterOk, Run;
    DestroyerTests(s, acts[k], run[k + 1]);
    forall h | 0 <= h < |s.taken| ensures !s.taken[h] {
      NoneIfZero(s.taken, h);
    }
  }

  lemma DestroyerTests(s: State, a: Action, s': State)
    requires Inv(s) && Can(s, a) && s' == After(s, a) && !s.destroyed && s'.destroyed
    ensures s.count == 0 && CountTrue(s.taken) == 0
  {
    hide CountTrue, WaiterOk;
    assert a.Step?;
    Outlined(s, a.t, a.fails);
    assert ThreadOk(s, a.t);
  }

  /** When the count is zero and its mutex is free, nobody sleeps waiting for it. */
  lemma NobodySleepsAtZero(run: seq<State>, acts: seq<Action>, k: nat, t: nat)
    requires Run(run, acts) && k < |run| && run[k].mutex.None? && run[k].count == 0 && t < |run[k].pcs|
    ensures !run[k].pcs[t].EndAsleep?
  {
    RunKeepsInv(run, acts, k);
    hide CountTrue, ThreadsOk;
  }

  /** What becomes of an open that began after destruction: it waits for the flag, or has returned -1. */
  predicate Refused(pc: PC) {
    pc == FlagLock(true) || pc == FlagHeld(true) || pc == Returned(NONE) || pc == Idle
  }

  lemma RefusedStays(s: State, a: Action, t: nat)
    requires Inv(s) && Can(s, a) && t < |s.pcs| && Refused(s.pcs[t]) && s.destroyed && !(a.Start? && a.t == t)
    ensures |After(s, a).pcs| == |s.pcs| && Refused(After(s, a).pcs[t]) && After(s, a).destroyed
  {
    hide CountTrue, WaiterOk, ThreadsOk;
    if a.Step? {
      hide CloseAfter;
      Outlined(s, a.t, a.fails);
    }
  }

  /** An open that starts after destruction never gets a handle: until its thread starts something else, it is waiting for
      the check of the flag or has returned -1. */
  lemma {:induction false} LateOpensFail(run: seq<State>, acts: seq<Action>, i: nat, j: nat, t: nat, late: bool)
    requires Run(run, acts) && i < j < |run| && acts[i] == Start(t, FlagLock(late)) && run[i].destroyed
    requires forall m :: i < m < j ==> !(acts[m].Start? && acts[m].t == t)
    ensures t < |run[j].pcs| && Refused(run[j].pcs[t]) && run[j].destroyed
  {
    hide Inv, StepAfter;
    if j > i + 1 {
      LateOpensFail(run, acts, i, j - 1, t, late);
      RunKeepsInv(run, acts, j - 1);
      RefusedStays(run[j - 1], acts[j - 1], t);
    }
  }

  /** An open that is past the check of the flag and not yet past the table. */
  predicate InFlight(pc: PC) {
    pc.OpenGlobal? || pc.OpenBody? || pc.OpenMutex? || pc.OpenTake? || pc.OpenCount?
  }

  /** Destroyed, with nothing open and no open in flight. */
  ghost predicate AtRest(s: State) {
    s.destroyed && (forall h :: 0 <= h < |s.taken| ==> !s.taken[h]) && forall t :: 0 <= t < |s.pcs| ==> !InFlight(s.pcs[t])
  }

  /** If no open was in flight when the file system was destroyed, nothing is ever open again. */
  lemma RestLasts(s: State, a: Action)
    requires Inv(s) && AtRest(s) && Can(s, a)
    ensures AtRest(After(s, a))
  {
    hide CountTrue, WaiterOk, TableCounted;
    if a.Step? { StepAtRest(s, a.t, a.fails); }
  }

  lemma StepAtRest(s: State, t: nat, fails: bool)
    requires Inv(s) && AtRest(s) && CanStep(s, t)
    ensures AtRest(StepAfter(s, t, fails))
  {
    hide CountTrue, WaiterOk, TableCounted;
    Outlined(s, t, fails);
    assert ThreadOk(s, t);
  }

  lemma {:induction false} RestLastsForever(run: seq<State>, acts: seq<Action>, i: nat, j: nat)
    requires Run(run, acts) && i <= j < |run| && AtRest(run[i])
    ensures AtRest(run[j])
  {
    hide Inv, AtRest, Can, After, Init;
    if i < j {
      RestLastsForever(run, acts, i, j - 1);
      RunKeepsInv(run, acts, j - 1);
      RestLasts(run[j - 1], acts[j - 1]);
    }
  }

  /** The exception is real: an open that passed the check before destruction opens a file after it. */
  lemma EarlyOpenSlipsThrough() returns (run: seq<State>, acts: seq<Action>)
    ensures Run(run, acts) && run[|acts|].destroyed && |run[|acts|].taken| > 0 && run[|acts|].taken[0]
  {
    var s0 := State(seq(MAX_OPEN_FILES, _ => false), 0, true, false, None, None, [Idle, Idle]);
    var passed, a1 := OpensPastTheCheck(s0);
    var gone, a2 := Destroys(passed[3]);
    var open, a3 := FinishesOpening(gone[4]);
    run := passed + gone[1..] + open[1..];
    acts := a1 + a2 + a3;
  }

  lemma OpensPastTheCheck(s: State) returns (run: seq<State>, acts: seq<Action>)
    requires |s.pcs| == 2 && s.pcs[0] == Idle && s.pcs[1] == Idle && s.mutex.None? && s.flag && !s.destroyed
    ensures |acts| == 3 && |run| == 4 && run[0] == s
    ensures forall k :: 0 <= k < 3 ==> Can(run[k], acts[k]) && run[k + 1] == After(run[k], acts[k])
    ensures run[3] == s.(pcs := [OpenGlobal(false), Idle])
  {
    hide First, CloseAfter, EndAfter;
    acts := [Start(0, FlagLock(false)), Step(0, false), Step(0, false)];
    var s1 := After(s, acts[0]);
    var s2 := After(s1, acts[1]);
    run := [s, s1, s2, After(s2, acts[2])];
    assert run[3].pcs == [OpenGlobal(false), Idle];
  }

  lemma Destroys(s: State) returns (run: seq<State>, acts: seq<Action>)
    requires s.pcs == [OpenGlobal(false), Idle] && s.mutex.None? && s.count == 0
    ensures |acts| == 4 && |run| == 5 && run[0] == s
    ensures forall k :: 0 <= k < 4 ==> Can(run[k], acts[k]) && run[k + 1] == After(run[k], acts[k])
    ensures run[4] == s.(pcs := [OpenGlobal(false), Returned(0)], flag := false, destroyed := true)
  {
    hide First, OpenAfter, CloseAfter;
    acts := [Start(1, EndLock), Step(1, false), Step(1, false), Step(1, false)];
    var s1 := After(s, acts[0]);
    var s2 := After(s1, acts[1]);
    var s3 := After(s2, acts[2]);
    run := [s, s1, s2, s3, After(s3, acts[3])];
    assert run[4].pcs == [OpenGlobal(false), Returned(0)];
  }

  lemma FinishesOpening(s: State) returns (run: seq<State>, acts: seq<Action>)
    requires s.pcs == [OpenGlobal(false), Returned(0)] && s.mutex.None? && s.global.None?
    requires |s.taken| > 0 && !s.taken[0]
    ensures |acts| == 4 && |run| == 5 && run[0] == s
    ensures forall k :: 0 <= k < 4 ==> Can(run[k], acts[k]) && run[k + 1] == After(run[k], acts[k])
    ensures run[4].taken == s.taken[0 := true] && run[4].destroyed == s.destroyed
  {
    hide CloseAfter, EndAfter;
    acts := [Step(0, false), Step(0, false), Step(0, false), Step(0, false)];
    var s1 := After(s, acts[0]);
    var s2 := After(s1, acts[1]);
    var s3 := After(s2, acts[2]);
    run := [s, s1, s2, s3, After(s3, acts[3])];
  }
}
