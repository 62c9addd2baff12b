/** Every run is serialisable on the files that nobody truncates in it. */
module SerialRuns {
  import opened Options
  import opened Config
  import opened Bytes
  import opened Disk
  import opened Directory
  import opened Ownership
  import opened Invariant
  import opened Opening
  import opened Formatting
  import opened Interleaving
  import opened Deadlock
  import opened Safety
  import opened SharedData
  import opened SharedTables
  import opened SharedSteps
  import opened SharedCalm
  import opened SharedContents
  import opened Reachable
  import opened Aside
  import opened Guarantees
  import opened Serial
  import opened SerialSteps

  // ---------------------------------------------------------------- the situation of a step

  /** Slots are being emptied in files of cut only. */
  lemma EmptyingIsCut(threads: seq<Thread>, cut: set<int>)
    requires forall t :: 0 <= t < |threads| ==> CutsOnly(threads[t].pc, cut)
    ensures forall n, r :: (n, r) in Emptying(threads) ==> n in cut
  {
    hide Emptying;
    forall n, r | (n, r) in Emptying(threads) ensures n in cut {
      var u := EmptierOf(threads, (n, r));
      EmptyingAtCut(threads[u].pc, cut, n, r);
    }
  }

  lemma EmptyingAtCut(p: PC, cut: set<int>, n: int, r: int)
    requires CutsOnly(p, cut) && (n, r) in EmptyingAt(p)
    ensures n in cut
  {
  }

  /** What the stepping thread finds: the slots that others are emptying lie in cut. */
  lemma StepIsReady(cut: set<int>, s: State, t: nat)
    requires Safe(s) && Serialised(cut, s) && t < |s.threads| && !s.threads[t].pc.Idle?
    ensures Ready(s.fs, Rest(s.threads, t), s.threads[t].pc) && Spared(s.fs, Rest(s.threads, t), cut)
  {
    hide Safe, Ready, Emptying, Agrees, Told, Covered, Rest;
    SafeIsReady(s, t);
    EmptyingSplit(s.threads, t);
  }

  /** Two threads are not in the middle of transfers on one file, nor through one handle. */
  lemma MoversApart(p: PC, q: PC, n: int, h: int)
    requires Compatible(p, q)
    ensures (MovesFile(q, n) ==> !MovesFile(p, n) && Hold(Ino(n), true) !in HeldAt(p))
    ensures (MovesHandle(q, h) ==> !MovesHandle(p, h) && !Enters(p, h) && Hold(Entry(h), true) !in HeldAt(p))
  {
    MoverHolds(p, n, h);
    MoverHolds(q, n, h);
    hide HeldAt, Moving, Conflict, MovesFile, MovesHandle, Enters;
    ExclusiveConflict(n);
    EntryConflict(h);
  }

  lemma EntryConflict(h: int)
    ensures Conflict(Hold(Entry(h), true), Hold(Entry(h), true))
  {
  }

  lemma MoverHolds(q: PC, n: int, h: int)
    ensures MovesFile(q, n) ==> Hold(Ino(n), true) in HeldAt(q)
    ensures MovesHandle(q, h) || Enters(q, h) ==> Hold(Entry(h), true) in HeldAt(q)
  {
  }

  lemma PairCompatible(s: State, t: nat, u: nat)
    requires LocksOk(s) && t < |s.threads| && u < |s.threads| && t != u
    ensures Compatible(s.threads[t].pc, s.threads[u].pc)
  {
    hide Conflict, HeldAt, InRange;
  }

  lemma StepIsSettled(cut: set<int>, s: State, t: nat)
    requires Safe(s) && Serialised(cut, s) && t < |s.threads|
    ensures Settled(cut, s.fs, Replay(s.log), s.threads[t].pc)
  {
    hide Whole, Place, Apart, Spared, LegalLog, Content, Replay, CutsOnly, Told, MovesFile, MovesHandle, HeldAt, HandleFits;
    var p := s.threads[t].pc;
    forall n | Hold(Ino(n), true) in HeldAt(p) && Moving(p).None?
      ensures NobodyMoves(s.threads, n)
    {
      forall u | 0 <= u < |s.threads| ensures !MovesFile(s.threads[u].pc, n) {
        if u == t { NotMoving(p, n, 0); } else { PairCompatible(s, t, u); MoversApart(p, s.threads[u].pc, n, 0); }
      }
    }
    if p.InRw? && p.rw.Plan? {
      forall u | 0 <= u < |s.threads| ensures !MovesHandle(s.threads[u].pc, p.job.h) {
        if u == t { NotMoving(p, 0, p.job.h); } else {
          PairCompatible(s, t, u);
          PlanHolds(p);
          MoversApart(p, s.threads[u].pc, 0, p.job.h);
        }
      }
    }
  }

  lemma NotMoving(p: PC, n: int, h: int)
    requires Moving(p).None?
    ensures !MovesFile(p, n) && !MovesHandle(p, h)
  {
  }

  lemma PlanHolds(p: PC)
    requires p.InRw? && p.rw.Plan?
    ensures Hold(Entry(p.job.h), true) in HeldAt(p)
  {
  }

  // ---------------------------------------------------------------- the other threads

  lemma OtherTold(cut: set<int>, s: State, t: nat, u: nat)
    requires Safe(s) && Serialised(cut, s) && t < |s.threads| && u < |s.threads| && t != u && !s.threads[t].pc.Idle?
    requires InRange(s.threads[t].pc) && RootOk(s.fs)
    ensures var e := Do(s.fs, s.threads[t].pc); Told(cut, e.fs, SpecAfter(Replay(s.log), e), s.threads[u].pc)
  {
    hide Whole, Place, Apart, Spared, LegalLog, Content, Replay, CutsOnly, HeldAt, InRange, RootOk, Do, LocksOk, Agrees,
         SpecAfter, Told, Emptying;
    var p, q, spec := s.threads[t].pc, s.threads[u].pc, Replay(s.log);
    var e := Do(s.fs, p);
    StepIsLocal(cut, s.fs, spec, p);
    PairCompatible(s, t, u);
    if Moving(q).Some? {
      if Moving(q).value.n !in cut { MoverKept(cut, s, t, u); }
      MoversApart(p, q, Moving(q).value.n, q.job.h);
    }
    ToldKept(cut, s.fs, spec, e.fs, SpecAfter(spec, e), p, q);
  }

  /** The file of a transfer under way outside cut has the content it had. */
  lemma MoverKept(cut: set<int>, s: State, t: nat, u: nat)
    requires Safe(s) && Serialised(cut, s) && t < |s.threads| && u < |s.threads| && t != u && !s.threads[t].pc.Idle?
    requires InRange(s.threads[t].pc) && RootOk(s.fs)
    requires Moving(s.threads[u].pc).Some? && Moving(s.threads[u].pc).value.n !in cut
    ensures Content(Do(s.fs, s.threads[t].pc).fs, Moving(s.threads[u].pc).value.n) == Content(s.fs, Moving(s.threads[u].pc).value.n)
  {
    hide Whole, Place, Apart, Spared, LegalLog, Content, Replay, HeldAt, InRange, RootOk, Do, LocksOk, Agrees,
         Emptying, ShownOutside, Within, WritesNext, Outside, Ready, Covered, Rest, Told, CutsOnly;
    var p, q := s.threads[t].pc, s.threads[u].pc;
    var n := Moving(q).value.n;
    PairCompatible(s, t, u);
    MoversApart(p, q, n, q.job.h);
    StepShows(cut, s, t);
    OtherStays(s, t, u);
    MoverHasFile(s.fs, Emptying(s.threads), q);
    MoverHasFile(Do(s.fs, p).fs, Rest(s.threads, t) + EmptyingAt(Do(s.fs, p).pc), q);
    ShownElsewhere(s.fs, p, Do(s.fs, p).fs, cut, n);
  }

  lemma StepShows(cut: set<int>, s: State, t: nat)
    requires Safe(s) && Serialised(cut, s) && t < |s.threads| && !s.threads[t].pc.Idle?
    requires InRange(s.threads[t].pc) && RootOk(s.fs)
    ensures (Outside(s.threads[t].pc, cut) ==> Within(s.fs, s.threads[t].pc))
            && ShownOutside(s.fs, s.threads[t].pc, Do(s.fs, s.threads[t].pc).fs, cut)
  {
    hide Safe, Spared, LegalLog, InRange, RootOk, Do, Agrees, Emptying, ShownOutside, Within, Outside, Ready, Rest, Told, CutsOnly;
    StepIsReady(cut, s, t);
    ToldIsWithin(cut, s.fs, Replay(s.log), s.threads[t].pc);
    StepShownOutside(s.fs, Rest(s.threads, t), s.threads[t].pc, cut);
  }

  lemma ShownElsewhere(fs: FS, p: PC, fs': FS, cut: set<int>, n: int)
    requires InRange(p) && (Outside(p, cut) ==> Within(fs, p)) && ShownOutside(fs, p, fs', cut)
    requires IsFile(fs, n) && IsFile(fs', n) && n !in cut && !MovesFile(p, n)
    ensures Content(fs', n) == Content(fs, n)
  {
    hide Content, Covered, CopiesNext, Outside;
    assert Outside(p, cut) ==> Content(fs', n) == ContentAfter(fs, p, n);
  }

  lemma MoverHasFile(fs: FS, X: set<(int, int)>, q: PC)
    requires Place(fs, X, q) && Moving(q).Some?
    ensures IsFile(fs, Moving(q).value.n)
    ensures fs.handles[q.job.h] == OpenFile(Moving(q).value.n, Moving(q).value.o + Moving(q).value.moved)
  {
    hide MissingSlot, Unowned;
  }

  lemma ToldIsWithin(cut: set<int>, fs: FS, spec: Spec, p: PC)
    requires Told(cut, fs, spec, p)
    ensures Outside(p, cut) ==> Within(fs, p)
  {
    hide Content;
  }

  lemma ToldKept(cut: set<int>, fs: FS, spec: Spec, fs': FS, spec': Spec, p: PC, q: PC)
    requires Told(cut, fs, spec, q) && SpecLocal(spec, spec', p)
    requires Moving(q).Some? ==>
               var x := Moving(q).value;
               && (x.n !in cut ==> Content(fs', x.n) == Content(fs, x.n))
               && !MovesFile(p, x.n) && !MovesHandle(p, q.job.h) && !Enters(p, q.job.h)
    ensures Told(cut, fs', spec', q)
  {
    hide Content, MovesFile, MovesHandle, Enters, Position;
  }

  // ---------------------------------------------------------------- files and handles at rest

  /** The threads after the step. */
  function After(s: State, t: nat, e: Effect): seq<Thread>
    requires t < |s.threads|
  {
    s.threads[t := Thread(e.pc, NewHeld(s.threads[t].held, e))]
  }

  ghost predicate StepSituation(cut: set<int>, s: State, t: nat, e: Effect, spec: Spec, spec': Spec) {
    && t < |s.threads| && !s.threads[t].pc.Idle? && InRange(s.threads[t].pc)
    && var p := s.threads[t].pc;
       && (Outside(p, cut) ==> Within(s.fs, p))
       && (forall n :: IsInum(n) ==> !s.fs.inodes[n].isDir && !e.fs.inodes[n].isDir) && Agrees(cut, s.fs, spec, s.threads)
       && ShownOutside(s.fs, p, e.fs, cut) && TablesAfter(s.fs, p, e.fs) && SpecLocal(spec, spec', p)
       && Settles(cut, s.fs, spec, p, e) && StaysWith(p, e.pc) && spec' == SpecAfter(spec, e)
  }

  lemma FileSettled(cut: set<int>, fs: FS, spec: Spec, p: PC, e: Effect, n: int)
    requires InRange(p) && Settles(cut, fs, spec, p, e) && StaysWith(p, e.pc) && MovesFile(p, n) && !MovesFile(e.pc, n) && n !in cut
    ensures IsInum(n) && ValidHandle(p.job.h) && Moving(e.pc).None?
    ensures e.fs == fs && SpecAfter(spec, e).files[n] == Content(fs, n)
    ensures SpecAfter(spec, e).handles[p.job.h] == fs.handles[p.job.h]
  {
    hide Content, SpecAfter;
  }

  lemma FilesAgree(cut: set<int>, s: State, t: nat, e: Effect, spec: Spec, spec': Spec, n: int)
    requires StepSituation(cut, s, t, e, spec, spec') && IsFile(e.fs, n) && n !in cut
    requires NobodyMoves(After(s, t, e), n)
    ensures Content(e.fs, n) == spec'.files[n]
  {
    hide Content, TablesAfter, SpecAfter, CopiesNext, Covered, Within, Splice, Outside, HandleFits, Settles, StaysWith;
    var p := s.threads[t].pc;
    assert Outside(p, cut) ==> Content(e.fs, n) == ContentAfter(s.fs, p, n);
    if MovesFile(p, n) {
      assert After(s, t, e)[t].pc == e.pc;
      FileSettled(cut, s.fs, spec, p, e, n);
    } else if IsFile(s.fs, n) {
      forall u | 0 <= u < |s.threads| ensures !MovesFile(s.threads[u].pc, n) {
        assert u != t ==> After(s, t, e)[u] == s.threads[u];
      }
    }
  }

  lemma HandlesAgree(cut: set<int>, s: State, t: nat, e: Effect, spec: Spec, spec': Spec, h: int)
    requires StepSituation(cut, s, t, e, spec, spec') && ValidHandle(h)
    requires Enters(s.threads[t].pc, h) ==> spec'.handles[h] == e.fs.handles[h]
    requires NobodyMovesThrough(After(s, t, e), h)
    ensures e.fs.handles[h] == spec'.handles[h]
  {
    hide Content, SpecAfter, CopiesNext, ShownOutside, Within, Splice, InRange, Settles, StaysWith, NewHeld, Moving, Outside,
         HandleFits;
    var p := s.threads[t].pc;
    if MovesHandle(p, h) {
      assert After(s, t, e)[t].pc == e.pc;
      HandleSettled(cut, s.fs, spec, p, e, h);
    } else if !Enters(p, h) {
      forall u | 0 <= u < |s.threads| ensures !MovesHandle(s.threads[u].pc, h) {
        assert u != t ==> After(s, t, e)[u] == s.threads[u];
      }
    }
  }

  lemma HandleSettled(cut: set<int>, fs: FS, spec: Spec, p: PC, e: Effect, h: int)
    requires InRange(p) && Settles(cut, fs, spec, p, e) && StaysWith(p, e.pc) && MovesHandle(p, h) && !MovesHandle(e.pc, h)
    ensures e.fs == fs && ValidHandle(h) && SpecAfter(spec, e).handles[h] == fs.handles[h]
  {
    hide Content, SpecAfter;
  }

  lemma NoHandleSet(spec: Spec, ev: Event)
    requires !SetsHandle(ev)
    ensures Apply(spec, ev) == spec
  {
  }

  /** Where an accepted event leaves its handle. */
  lemma EventHandle(cut: set<int>, fs: FS, spec: Spec, ev: Event)
    requires Accepted(cut, spec, ev) && SetsHandle(ev) && IsFile(fs, FileOf(spec, ev))
    ensures HandleFits(cut, fs, Apply(spec, ev), Apply(spec, ev).handles[ev.h])
    ensures forall h :: ValidHandle(h) && h != ev.h ==> Apply(spec, ev).handles[h] == spec.handles[h]
  {
    hide Content;
  }

  /** The handles of the specification refer to files, at positions inside those outside cut. */
  lemma SpecHandles(cut: set<int>, s: State, t: nat, e: Effect, spec: Spec, spec': Spec, h: int)
    requires StepSituation(cut, s, t, e, spec, spec') && ValidHandle(h) && Accepts(cut, spec, e)
    requires Drops(s.threads[t].pc, spec.handles[h].inum) ==> spec.handles[h].inum == 0
    requires e.event.Some? && SetsHandle(e.event.value) ==>
               IsFile(s.fs, FileOf(spec, e.event.value)) && !Drops(s.threads[t].pc, FileOf(spec, e.event.value))
    ensures HandleFits(cut, e.fs, spec', spec'.handles[h])
  {
    hide Content, CopiesNext, ShownOutside, Within, Settles, StaysWith, Told, Outside, Accepted, FileOf, Apply;
    assert HandleFits(cut, s.fs, spec, spec.handles[h]);
    if e.event.Some? {
      if SetsHandle(e.event.value) { EventHandle(cut, e.fs, spec, e.event.value); } else { NoHandleSet(spec, e.event.value); }
    }
  }

  lemma FreeStaysEmpty(cut: set<int>, s: State, t: nat, e: Effect, spec: Spec, spec': Spec, n: int)
    requires StepSituation(cut, s, t, e, spec, spec') && IsInum(n) && n !in cut && !e.fs.inodeTaken[n]
    requires Drops(s.threads[t].pc, n) ==> spec.files[n] == [] && !MovesFile(s.threads[t].pc, n)
    requires MovesFile(s.threads[t].pc, n) ==> IsFile(s.fs, n)
    ensures spec'.files[n] == []
  {
    hide Content, SpecAfter, CopiesNext, ShownOutside, Within, Splice, InRange, Settles, StaysWith, NewHeld, Moving, Outside,
         HandleFits;
  }

  // ---------------------------------------------------------------- one step

  lemma StepIsSituated(cut: set<int>, s: State, t: nat)
    requires Safe(s) && Serialised(cut, s) && t < |s.threads| && !s.threads[t].pc.Idle?
    requires InRange(s.threads[t].pc) && RootOk(s.fs)
    ensures var e := Do(s.fs, s.threads[t].pc);
            var spec := Replay(s.log);
            StepSituation(cut, s, t, e, spec, SpecAfter(spec, e)) && Accepts(cut, spec, e)
  {
    hide Exclusive, DirOk, HandlesSane, Place, LegalLog, Replay, InRange, RootOk, Do, Agrees, Emptying, ShownOutside,
         Within, Ready, Settled, Settles, StaysWith, SpecLocal, SpecAfter, Told, TablesAfter, Outside, Spared, CutsOnly,
         Apart, LocksOk, Rest;
    var p := s.threads[t].pc;
    var spec := Replay(s.log);
    StepIsReady(cut, s, t);
    StepIsSettled(cut, s, t);
    StepAccepted(cut, Rest(s.threads, t), s.fs, spec, p);
    StepShows(cut, s, t);
    StepTables(s.fs, p);
    StepIsLocal(cut, s.fs, spec, p);
    StepKeepsWith(s.fs, p);
    StepKeepsKinds(s.fs, Rest(s.threads, t), p);
  }

  lemma StepKeepsKinds(fs: FS, X: set<(int, int)>, p: PC)
    requires Ready(fs, X, p) && InRange(p) && RootOk(fs)
    ensures forall n :: IsInum(n) ==> !Do(fs, p).fs.inodes[n].isDir
  {
    hide Do, Exclusive, DirOk, HandlesSane, Place, InRange, RootOk;
    StepLands(fs, X, p);
  }

  lemma StepKeepsWith(fs: FS, p: PC)
    requires InRange(p) && RootOk(fs) && !p.Idle?
    ensures StaysWith(p, Do(fs, p).pc)
  {
    hide Do;
    if p.InRw? { StepStaysWith(fs, p); }
  }

  lemma EntersAgrees(cut: set<int>, fs: FS, spec: Spec, p: PC, h: int)
    requires InRange(p) && RootOk(fs) && Told(cut, fs, spec, p) && Enters(p, h)
    ensures SpecAfter(spec, Do(fs, p)).handles[h] == Do(fs, p).fs.handles[h]
  {
    hide RootOk, SpecAfter, Told;
    TableAccepted(cut, fs, spec, p.n, p.off, p.table);
  }

  /** A file that is given back is one that no handle of the specification refers to. */
  lemma DroppedIsUnknown(cut: set<int>, s: State, t: nat, n: int, g: int)
    requires Safe(s) && Serialised(cut, s) && t < |s.threads| && Drops(s.threads[t].pc, n) && ValidHandle(g)
    ensures IsInum(n) && (n !in cut ==> Replay(s.log).files[n] == []) && Replay(s.log).handles[g].inum != n
  {
    hide Whole, Place, Spared, LegalLog, Replay, Content, XferTold, Making, Using, Apart, HeldAt, HandleFits, CutsOnly;
    var spec := Replay(s.log);
    DropperIsFresh(s, t, n);
    forall u | 0 <= u < |s.threads| ensures !MovesFile(s.threads[u].pc, n) {
      if u != t { OthersAvoid(s, t, u, n); }
    }
    if u :| 0 <= u < |s.threads| && MovesHandle(s.threads[u].pc, g) {
      assert Told(cut, s.fs, spec, s.threads[u].pc);
      HandleOfMover(cut, s.fs, spec, s.threads[u].pc, g);
    } else {
      assert spec.handles[g] == s.fs.handles[g];
    }
  }

  lemma HandleOfMover(cut: set<int>, fs: FS, spec: Spec, q: PC, g: int)
    requires Told(cut, fs, spec, q) && MovesHandle(q, g)
    ensures ValidHandle(g) && MovesFile(q, spec.handles[g].inum)
  {
    hide Content;
  }

  lemma DropperIsFresh(s: State, t: nat, n: int)
    requires Safe(s) && t < |s.threads| && Drops(s.threads[t].pc, n)
    ensures IsInum(n) && IsFile(s.fs, n) && Content(s.fs, n) == [] && forall g :: ValidHandle(g) ==> s.fs.handles[g].inum != n
    ensures Making(s.threads[t].pc) == Some(n)
  {
    hide Whole, Content, EntryNum, Apart, HeldAt, Emptying;
    assert Place(s.fs, Emptying(s.threads), s.threads[t].pc);
    assert |Content(s.fs, n)| == 0;
  }

  lemma OthersAvoid(s: State, t: nat, u: nat, n: int)
    requires Safe(s) && t < |s.threads| && u < |s.threads| && u != t && Making(s.threads[t].pc) == Some(n)
    ensures !MovesFile(s.threads[u].pc, n)
  {
    hide Whole, Place, HeldAt, Emptying;
    assert Apart(s.threads[t].pc, s.threads[u].pc);
  }

  lemma OwnFiles(s: State, t: nat, n: int)
    requires Safe(s) && t < |s.threads|
    requires MovesFile(s.threads[t].pc, n) || (s.threads[t].pc.InTable? && s.threads[t].pc.n == n)
    ensures IsFile(s.fs, n)
  {
    hide Whole, Content, EntryNum, Apart, HeldAt, Emptying, MissingSlot, Unowned;
    assert Place(s.fs, Emptying(s.threads), s.threads[t].pc);
  }

  lemma StepAgrees(cut: set<int>, s: State, t: nat)
    requires Safe(s) && Serialised(cut, s) && t < |s.threads| && !s.threads[t].pc.Idle?
    requires InRange(s.threads[t].pc) && RootOk(s.fs)
    ensures var e := Do(s.fs, s.threads[t].pc);
            Agrees(cut, e.fs, SpecAfter(Replay(s.log), e), After(s, t, e))
  {
    hide Safe, Place, Spared, LegalLog, Replay, InRange, RootOk, Do, ShownOutside, Within, Settles, StaysWith, SpecLocal,
         SpecAfter, Told, TablesAfter, StepSituation, MovesFile, MovesHandle, Enters, Drops, Serialised, After, Content,
         EventIsOwn, Accepts, HandleFits;
    var p := s.threads[t].pc;
    var e := Do(s.fs, p);
    var spec := Replay(s.log);
    var spec' := SpecAfter(spec, e);
    StepIsSituated(cut, s, t);
    forall n | IsFile(e.fs, n) && n !in cut && NobodyMoves(After(s, t, e), n)
      ensures Content(e.fs, n) == spec'.files[n]
    {
      FilesAgree(cut, s, t, e, spec, spec', n);
    }
    forall h | ValidHandle(h) && NobodyMovesThrough(After(s, t, e), h)
      ensures e.fs.handles[h] == spec'.handles[h]
    {
      if Enters(p, h) { ToldHere(cut, s, t); EntersAgrees(cut, s.fs, spec, p, h); }
      HandlesAgree(cut, s, t, e, spec, spec', h);
    }
    forall h | ValidHandle(h) ensures HandleFits(cut, e.fs, spec', spec'.handles[h]) {
      HandleAfter(cut, s, t, h);
    }
    forall n | IsInum(n) && n !in cut && !e.fs.inodeTaken[n] ensures spec'.files[n] == [] {
      FreeAfter(cut, s, t, n);
    }
  }

  lemma ToldHere(cut: set<int>, s: State, t: nat)
    requires Serialised(cut, s) && t < |s.threads|
    ensures Told(cut, s.fs, Replay(s.log), s.threads[t].pc)
  {
  }

  lemma HandleAfter(cut: set<int>, s: State, t: nat, h: int)
    requires Safe(s) && Serialised(cut, s) && t < |s.threads| && !s.threads[t].pc.Idle?
    requires InRange(s.threads[t].pc) && RootOk(s.fs) && ValidHandle(h)
    ensures var e := Do(s.fs, s.threads[t].pc);
            var spec' := SpecAfter(Replay(s.log), e);
            HandleFits(cut, e.fs, spec', spec'.handles[h])
  {
    hide Safe, Serialised, Replay, InRange, RootOk, Do, SpecAfter, StepSituation, Drops, EventIsOwn, Told, HandleFits, FileOf;
    var p := s.threads[t].pc;
    var e := Do(s.fs, p);
    var spec := Replay(s.log);
    StepIsSituated(cut, s, t);
    if Drops(p, spec.handles[h].inum) { DroppedIsUnknown(cut, s, t, spec.handles[h].inum, h); }
    if e.event.Some? && SetsHandle(e.event.value) {
      StepEventIsOwn(s.fs, p);
      ToldHere(cut, s, t);
      EventFile(cut, s.fs, spec, p, e);
      OwnFiles(s, t, FileOf(spec, e.event.value));
    }
    SpecHandles(cut, s, t, e, spec, SpecAfter(spec, e), h);
  }

  /** The file that an event is about is that of its thread, which does not give it back. */
  lemma EventFile(cut: set<int>, fs: FS, spec: Spec, p: PC, e: Effect)
    requires EventIsOwn(p, e) && e.event.Some? && SetsHandle(e.event.value) && Told(cut, fs, spec, p)
    ensures var n := FileOf(spec, e.event.value); (MovesFile(p, n) || (p.InTable? && p.n == n)) && !Drops(p, n)
  {
    hide Content;
  }

  lemma FreeAfter(cut: set<int>, s: State, t: nat, n: int)
    requires Safe(s) && Serialised(cut, s) && t < |s.threads| && !s.threads[t].pc.Idle?
    requires InRange(s.threads[t].pc) && RootOk(s.fs) && IsInum(n) && n !in cut
    ensures var e := Do(s.fs, s.threads[t].pc);
            !e.fs.inodeTaken[n] ==> SpecAfter(Replay(s.log), e).files[n] == []
  {
    hide Safe, Serialised, Replay, InRange, RootOk, Do, SpecAfter, StepSituation, MovesFile, Drops, Told;
    var p := s.threads[t].pc;
    var e := Do(s.fs, p);
    var spec := Replay(s.log);
    StepIsSituated(cut, s, t);
    if Drops(p, n) {
      DroppedIsUnknown(cut, s, t, n, 0);
      DropperMovesNothing(p, n);
    }
    if MovesFile(p, n) { OwnFiles(s, t, n); }
    if !e.fs.inodeTaken[n] {
      FreeStaysEmpty(cut, s, t, e, spec, SpecAfter(spec, e), n);
    }
  }

  lemma DropperMovesNothing(p: PC, n: int)
    requires Drops(p, n)
    ensures !MovesFile(p, n)
  {
  }

  // ---------------------------------------------------------------- runs

  lemma LogGrows(cut: set<int>, log: seq<Event>, e: Event)
    requires LegalLog(cut, log) && Accepted(cut, Replay(log), e)
    ensures LegalLog(cut, log + [e]) && Replay(log + [e]) == Apply(Replay(log), e)
  {
    hide Accepted, Apply, Replay;
    var log' := log + [e];
    assert log'[..|log'| - 1] == log && log'[|log'| - 1] == e;
    ReplayStep(log');
    forall i | 0 <= i < |log'| ensures Accepted(cut, Replay(log'[..i]), log'[i]) {
      if i < |log| { assert log'[..i] == log[..i]; }
    }
  }

  lemma ReplayStep(log: seq<Event>)
    requires log != []
    ensures Replay(log) == Apply(Replay(log[..|log| - 1]), log[|log| - 1])
  {
  }

  lemma ShownIsSpared(fs: FS, p: PC, fs': FS, X': set<(int, int)>, cut: set<int>)
    requires InRange(p) && (Outside(p, cut) ==> Within(fs, p)) && ShownOutside(fs, p, fs', cut)
    requires ROOT_DIR_INUM !in cut && forall n, r :: (n, r) in X' ==> n in cut
    ensures Spared(fs', X', cut)
  {
    hide Content, Covered, Outside, ContentAfter;
    forall n | IsFile(fs', n) && n !in cut ensures Covered(fs', n) {
      assert |Content(fs', n)| >= 0;
    }
  }

  lemma ThreadStepIsSerial(cut: set<int>, s: State, s': State, t: nat)
    requires Safe(s) && Serialised(cut, s) && ThreadStep(s, s', t)
    requires forall u :: 0 <= u < |s'.threads| ==> CutsOnly(s'.threads[u].pc, cut)
    ensures Serialised(cut, s')
  {
    hide Safe, Place, LegalLog, Replay, InRange, RootOk, Do, Within, Settles, StaysWith, SpecLocal, Told, TablesAfter,
         Agrees, Content, CutsOnly, Accepted, Apply, Grantable, Covered, Outside, Emptying, ShownOutside, EventIsOwn;
    var p := s.threads[t].pc;
    var e := Do(s.fs, p);
    StepIsSituated(cut, s, t);
    StepAgrees(cut, s, t);
    EmptyingIsCut(s'.threads, cut);
    ShownIsSpared(s.fs, p, e.fs, Emptying(s'.threads), cut);
    if e.event.Some? { LogGrows(cut, s.log, e.event.value); }
    forall u | 0 <= u < |s.threads| && u != t ensures Told(cut, e.fs, SpecAfter(Replay(s.log), e), s.threads[u].pc) {
      OtherTold(cut, s, t, u);
    }
  }

  lemma StartStepIsSerial(cut: set<int>, s: State, s': State, t: nat, pc: PC)
    requires Serialised(cut, s) && StartStep(s, s', t, pc)
    ensures Serialised(cut, s')
  {
    hide LegalLog, Replay, Content, XferTold, Emptying, HandleFits, Covered, EmptyingAt;
    StartsStill(s, pc);
    EmptyingSplit(s.threads, t);
    EmptyingUpdate(s.threads, t, s'.threads[t]);
    assert forall u :: 0 <= u < |s.threads| && u != t ==> s'.threads[u] == s.threads[u];
    forall n | NobodyMoves(s'.threads, n) ensures NobodyMoves(s.threads, n) {
      assert forall u :: 0 <= u < |s.threads| && u != t ==> !MovesFile(s'.threads[u].pc, n);
    }
    forall h | NobodyMovesThrough(s'.threads, h) ensures NobodyMovesThrough(s.threads, h) {
      assert forall u :: 0 <= u < |s.threads| && u != t ==> !MovesHandle(s'.threads[u].pc, h);
    }
  }

  lemma StartsStill(s: State, pc: PC)
    requires MayStart(s, pc)
    ensures Moving(pc).None? && EmptyingAt(pc) == {} && (forall cut :: CutsOnly(pc, cut))
    ensures forall n, off: nat :: !Position(pc, n, off)
  {
  }

  lemma InitIsSerial(cut: set<int>, s: State)
    requires Init(s) && ROOT_DIR_INUM !in cut
    ensures Serialised(cut, s)
  {
    hide Content, Covered, Emptying, Agrees, Spared, Formatted, Replay;
    InitIsSpared(cut, s);
    InitAgrees(cut, s);
    forall t | 0 <= t < |s.threads| ensures CutsOnly(s.threads[t].pc, cut) && Told(cut, s.fs, Replay(s.log), s.threads[t].pc) {
      assert s.threads[t] == Thread(Idle, {});
    }
  }

  lemma InitIsSpared(cut: set<int>, s: State)
    requires Init(s) && ROOT_DIR_INUM !in cut
    ensures Spared(s.fs, Emptying(s.threads), cut)
  {
    FormattedIsWF(s.fs);
    EmptyingIsCut(s.threads, cut);
    hide Covered, Emptying, Exclusive, DirOk, HandlesOk, Formatted;
  }

  lemma InitAgrees(cut: set<int>, s: State)
    requires Init(s)
    ensures Agrees(cut, s.fs, Replay(s.log), s.threads)
  {
    hide Content;
    assert Replay(s.log) == SpecRec(seq(INODE_TABLE_SIZE, _ => []), seq(MAX_OPEN_FILES, _ => OpenFile(0, 0)));
  }

  /** No thread in the run ever truncates a file outside cut. */
  ghost predicate TruncatesOnly(run: seq<State>, cut: set<int>) {
    && ROOT_DIR_INUM !in cut
    && forall i, t :: 0 <= i < |run| && 0 <= t < |run[i].threads| ==> CutsOnly(run[i].threads[t].pc, cut)
  }

  lemma AnyStepIsSerial(cut: set<int>, s: State, s': State)
    requires Safe(s) && Serialised(cut, s) && Step(s, s')
    requires forall t :: 0 <= t < |s'.threads| ==> CutsOnly(s'.threads[t].pc, cut)
    ensures Serialised(cut, s')
  {
    hide Safe, Serialised, ThreadStep, MayStart, CutsOnly;
    var t: nat :| ThreadStep(s, s', t) || Starts(s, s', t);
    if ThreadStep(s, s', t) {
      ThreadStepIsSerial(cut, s, s', t);
    } else {
      var pc :| StartStep(s, s', t, pc);
      StartStepIsSerial(cut, s, s', t, pc);
    }
  }

  lemma {:induction false} RunsAreSerial(run: seq<State>, i: nat, cut: set<int>)
    requires Execution(run) && TruncatesOnly(run, cut) && i < |run|
    ensures Serialised(cut, run[i])
  {
    hide Safe, Serialised, Step, Init, Execution, CutsOnly;
    if i == 0 {
      RunStarts(run);
      InitIsSerial(cut, run[0]);
    } else {
      RunsAreSerial(run, i - 1, cut);
      ReachableIsSafe(run, i - 1);
      RunSteps(run, i);
      AnyStepIsSerial(cut, run[i - 1], run[i]);
    }
  }

  /** At every moment of every run, and whichever files threads truncate in it: the operations that have ended on the
      other files are a legal serial history; every such file that no transfer is under way on, and every handle that
      none goes through, is what that history leaves. */
  lemma Serialisable(run: seq<State>, i: nat, cut: set<int>)
    requires Execution(run) && TruncatesOnly(run, cut) && i < |run|
    ensures LegalLog(cut, run[i].log)
    ensures forall n :: IsFile(run[i].fs, n) && n !in cut ==> Covered(run[i].fs, n)
    ensures forall n :: IsFile(run[i].fs, n) && n !in cut && NobodyMoves(run[i].threads, n) ==>
              Content(run[i].fs, n) == Replay(run[i].log).files[n]
    ensures forall h :: ValidHandle(h) && NobodyMovesThrough(run[i].threads, h) ==>
              run[i].fs.handles[h] == Replay(run[i].log).handles[h]
  {
    RunsAreSerial(run, i, cut);
    hide Content, LegalLog, Told, Replay, Execution, TruncatesOnly, HandleFits, Covered, CutsOnly;
  }

  /** While a write is under way on a file that nobody truncates, the file holds what a write of the bytes moved so far
      would leave; while a read is under way, what it has got is what the file of the history holds there. Nobody else
      can be in the middle of a transfer on any file that one is under way on. */
  lemma TransfersAreIsolated(run: seq<State>, i: nat, t: nat, cut: set<int>)
    requires Execution(run) && TruncatesOnly(run, cut) && i < |run| && t < |run[i].threads| && Moving(run[i].threads[t].pc).Some?
    ensures XferBegan(Replay(run[i].log), run[i].threads[t].pc.job, Moving(run[i].threads[t].pc).value)
    ensures Moving(run[i].threads[t].pc).value.n !in cut ==>
              XferTold(run[i].fs, Replay(run[i].log), run[i].threads[t].pc.job, Moving(run[i].threads[t].pc).value)
    ensures forall u :: 0 <= u < |run[i].threads| && u != t ==>
              !MovesFile(run[i].threads[u].pc, Moving(run[i].threads[t].pc).value.n)
  {
    RunsAreSerial(run, i, cut);
    ReachableIsSafe(run, i);
    hide Content, LegalLog, Replay, Execution, Agrees, XferTold, Whole, Place, Apart, LocksOk, HeldAt, MovesHandle, Spared,
         TruncatesOnly, CutsOnly;
    assert Told(cut, run[i].fs, Replay(run[i].log), run[i].threads[t].pc);
    var n := Moving(run[i].threads[t].pc).value.n;
    forall u | 0 <= u < |run[i].threads| && u != t ensures !MovesFile(run[i].threads[u].pc, n) {
      PairCompatible(run[i], t, u);
      MoversApart(run[i].threads[t].pc, run[i].threads[u].pc, n, 0);
    }
  }

  /** A read or a write goes on record while its thread holds both its handle and its file exclusively: on one file, the
      order of the record is the order in which the lock of the file is taken. */
  lemma RecordedUnderLocks(run: seq<State>, i: nat, t: nat)
    requires Execution(run) && i + 1 < |run| && ThreadStep(run[i], run[i + 1], t) && |run[i + 1].log| != |run[i].log|
    ensures run[i + 1].log[..|run[i].log|] == run[i].log && |run[i + 1].log| == |run[i].log| + 1
    ensures var e := run[i + 1].log[|run[i].log|];
            var th := run[i].threads[t];
            Transfers(e) ==>
              Moving(th.pc).Some? && th.pc.job.h == e.h && Hold(Entry(e.h), true) in th.held
              && Hold(Ino(Moving(th.pc).value.n), true) in th.held
  {
    ReachableIsSafe(run, i);
    hide Whole, Place, Apart, Do, Execution, HeldAt, RootOk, InRange, Conflict, Grantable, NewHeld, Moving;
    var p := run[i].threads[t].pc;
    StepEventIsOwn(run[i].fs, p);
    if Moving(p).Some? { MoverHolds(p, Moving(p).value.n, p.job.h); }
  }
}
