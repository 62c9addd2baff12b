/**
  Conservation among threads: at every moment a TAKEN block is held in a slot, or in a thread's hand, or lost; and the only
  blocks that are ever lost are those that an index block names when a truncation frees it.
 */
module Lost {
  import opened Options
  import opened Config
  import opened Bytes
  import opened Disk
  import opened Directory
  import opened Ownership
  import opened Invariant
  import opened Growth
  import opened ReadLoop
  import opened Truncation
  import opened Opening
  import opened Formatting
  import opened Interleaving
  import opened Deadlock
  import opened Safety
  import opened SharedData
  import opened SharedTransfer
  import opened SharedTruncation
  import opened SharedTables
  import opened SharedSteps
  import opened SharedCalm
  import opened Reachable
  import opened Guarantees
  import Tables

  /** Block b is TAKEN, and no slot outside X holds it. */
  ghost predicate Loose(fs: FS, X: set<(int, int)>, b: int) {
    ValidBlock(b) && fs.blockTaken[b] && Unowned(fs, b, X)
  }

  /** What holds blocks is the same. */
  ghost predicate SameOwners(fs: FS, X: set<(int, int)>, fs': FS, X': set<(int, int)>) {
    && (forall m, r {:trigger Owns(fs', m, r)} :: Owns(fs', m, r) && (m, r) !in X' ==>
          Owns(fs, m, r) && (m, r) !in X && Slot(fs', m, r) == Slot(fs, m, r))
    && (forall m, r {:trigger Owns(fs, m, r)} :: Owns(fs, m, r) && (m, r) !in X ==>
          Owns(fs', m, r) && (m, r) !in X' && Slot(fs', m, r) == Slot(fs, m, r))
  }

  lemma SameOwnersSameLoose(fs: FS, X: set<(int, int)>, fs': FS, X': set<(int, int)>)
    requires SameOwners(fs, X, fs', X') && fs'.blockTaken == fs.blockTaken
    ensures forall b :: Loose(fs', X', b) <==> Loose(fs, X, b)
  {
    hide Slot, Owns;
  }

  /** The blocks that the index block of file n names. */
  ghost predicate InIndex(fs: FS, n: int, b: int) {
    exists r :: INDEX_SLOT < r && Owns(fs, n, r) && Slot(fs, n, r) == b
  }

  /** The next step of the thread frees the index block of file n. */
  predicate FreesIndex(p: PC, n: int) {
    p.InOpen? && p.at.TruncHeld? && p.at.n == n && p.at.s == INDEX_SLOT && ValidBlock(p.at.b)
  }

  ghost predicate LosesNow(fs: FS, p: PC, b: int) {
    exists n :: FreesIndex(p, n) && InIndex(fs, n, b)
  }

  /** What the step of a thread loses: nothing but that. */
  ghost predicate Conserves(fs: FS, X: set<(int, int)>, p: PC, fs': FS, X': set<(int, int)>, p': PC) {
    forall b :: Loose(fs', X', b) && InHand(p') != Some(b) <==> (Loose(fs, X, b) && InHand(p) != Some(b)) || LosesNow(fs, p, b)
  }

  lemma QuietConserves(fs: FS, X: set<(int, int)>, p: PC, fs': FS, X': set<(int, int)>, p': PC)
    requires (forall b :: Loose(fs', X', b) <==> Loose(fs, X, b)) && InHand(p') == InHand(p) && forall n :: !FreesIndex(p, n)
    ensures Conserves(fs, X, p, fs', X', p')
  {
    hide Loose, FreesIndex, InIndex, InHand;
  }

  // ---------------------------------------------------------------- truncation

  lemma FreeingLoses(fs: FS, X: set<(int, int)>, n: int, s: nat)
    requires Exclusive(fs, X) && (forall r :: (n, r) !in X) && IsFile(fs, n) && s <= INDEX_SLOT && ValidBlock(Slot(fs, n, s))
    ensures var fs' := MarkBlock(fs, Slot(fs, n, s), false);
            forall b :: Loose(fs', X + Window(n, s), b) <==> Loose(fs, X, b) || (s == INDEX_SLOT && InIndex(fs, n, b))
  {
    var fs' := MarkBlock(fs, Slot(fs, n, s), false);
    SameMaps(fs, fs');
    hide Slot;
    assert Owns(fs, n, s);
    WindowOf(n, s);
    hide Window;
    forall b ensures Loose(fs', X + Window(n, s), b) <==> Loose(fs, X, b) || (s == INDEX_SLOT && InIndex(fs, n, b)) {
      if b == Slot(fs, n, s) {
        OwnedOnce(fs, X, n, s, b);
      } else {
        FreedOthers(fs, X, n, s, b);
      }
    }
  }

  lemma WindowOf(n: int, s: nat)
    requires s <= INDEX_SLOT
    ensures forall m, r :: (m, r) in Window(n, s) <==> m == n && if s == INDEX_SLOT then INDEX_SLOT <= r < N_SLOTS else r == s
  {
  }

  lemma OwnedOnce(fs: FS, X: set<(int, int)>, n: int, s: nat, b: int)
    requires Exclusive(fs, X) && (forall r :: (n, r) !in X) && Owns(fs, n, s) && Slot(fs, n, s) == b && s <= INDEX_SLOT
    ensures !Unowned(fs, b, X) && !InIndex(fs, n, b)
  {
    hide Slot;
    if r :| INDEX_SLOT < r && Owns(fs, n, r) && Slot(fs, n, r) == b {
      assert false;
    }
  }

  lemma FreedOthers(fs: FS, X: set<(int, int)>, n: int, s: nat, b: int)
    requires Exclusive(fs, X) && (forall r :: (n, r) !in X) && IsFile(fs, n)
    requires Owns(fs, n, s) && Slot(fs, n, s) != b && s <= INDEX_SLOT
    ensures ValidBlock(b) && fs.blockTaken[b] ==>
              (Unowned(fs, b, X + Window(n, s)) <==> Unowned(fs, b, X) || (s == INDEX_SLOT && InIndex(fs, n, b)))
    ensures InIndex(fs, n, b) ==> ValidBlock(b) && fs.blockTaken[b]
  {
    WindowOf(n, s);
    SlotsEnd(fs, n);
    hide Slot, Window;
    if InIndex(fs, n, b) {
      var r :| INDEX_SLOT < r && Owns(fs, n, r) && Slot(fs, n, r) == b;
      if s == INDEX_SLOT {
        forall m, q | Owns(fs, m, q) && (m, q) !in X + Window(n, s) ensures Slot(fs, m, q) != b {
          assert (m, q) != (n, r);
        }
      } else {
        assert (n, r) !in X + Window(n, s);
      }
    } else if Unowned(fs, b, X + Window(n, s)) {
      forall m, q | Owns(fs, m, q) && (m, q) !in X ensures Slot(fs, m, q) != b {
      }
    }
  }

  lemma SlotsEnd(fs: FS, n: int)
    ensures forall r :: Owns(fs, n, r) ==> 0 <= r < N_SLOTS
  {
  }

  lemma TruncConserves(fs: FS, rest: set<(int, int)>, name: CString, flags: Flags, at: OpenPC)
    requires Ready(fs, rest, InOpen(name, flags, at)) && (at.TruncHeld? || at.TruncClear? || at.TruncEnd?)
    ensures var (p, e) := (InOpen(name, flags, at), DoOpen(fs, name, flags, at));
            Conserves(fs, rest + EmptyingAt(p), p, e.fs, rest + EmptyingAt(e.pc), e.pc)
  {
    hide Slot, Exclusive, DirOk, HandlesSane, Window, OpenPlace, RootOk, Loose, InIndex;
    var p := InOpen(name, flags, at);
    ReadyIsOk(fs, rest, p);
    var e := DoOpen(fs, name, flags, at);
    TruncatedFile(fs, name, at);
    HeldFileIsClear(rest, p, at.n);
    if at.TruncHeld? {
      assert rest + EmptyingAt(p) == rest;
      if ValidBlock(at.b) {
        FreeingLoses(fs, rest, at.n, at.s);
        FreeingConserves(fs, rest, name, flags, at, e);
      } else {
        QuietConserves(fs, rest, p, e.fs, rest + EmptyingAt(e.pc), e.pc);
      }
    } else if at.TruncClear? {
      assert rest + EmptyingAt(e.pc) == rest;
      Clearing(fs, rest, at.n, at.s);
      ClearedOwners(fs, rest, at.n, at.s);
      SameOwnersSameLoose(fs, rest + EmptyingAt(p), e.fs, rest);
      QuietConserves(fs, rest + EmptyingAt(p), p, e.fs, rest, e.pc);
    } else {
      assert rest + EmptyingAt(p) == rest == rest + EmptyingAt(e.pc);
      SameMaps(fs, e.fs);
      SameOwnersSameLoose(fs, rest, e.fs, rest);
      QuietConserves(fs, rest, p, e.fs, rest, e.pc);
    }
  }

  lemma FreeingConserves(fs: FS, rest: set<(int, int)>, name: CString, flags: Flags, at: OpenPC, e: Effect)
    requires at.TruncHeld? && ValidBlock(at.b) && e.pc == InOpen(name, flags, TruncClear(at.n, at.s))
    requires forall b :: Loose(e.fs, rest + Window(at.n, at.s), b) <==>
                           Loose(fs, rest, b) || (at.s == INDEX_SLOT && InIndex(fs, at.n, b))
    ensures Conserves(fs, rest, InOpen(name, flags, at), e.fs, rest + EmptyingAt(e.pc), e.pc)
  {
    hide Loose, InIndex, Window;
    var p := InOpen(name, flags, at);
    forall b ensures LosesNow(fs, p, b) <==> at.s == INDEX_SLOT && InIndex(fs, at.n, b) {
      assert FreesIndex(p, at.n) <==> at.s == INDEX_SLOT;
    }
  }

  lemma ClearedOwners(fs: FS, rest: set<(int, int)>, n: int, s: nat)
    requires Whole(fs, rest + Window(n, s)) && IsFile(fs, n) && s <= INDEX_SLOT && (forall r :: (n, r) !in rest)
    ensures Cleared(fs, n, s).blockTaken == fs.blockTaken
    ensures SameOwners(fs, rest + Window(n, s), Cleared(fs, n, s), rest)
  {
    Clearing(fs, rest, n, s);
    hide Slot, Window, Whole;
  }

  // ---------------------------------------------------------------- opens, closes and handles

  lemma MakeConserves(fs: FS, rest: set<(int, int)>, name: CString, flags: Flags, at: OpenPC)
    requires Ready(fs, rest, InOpen(name, flags, at)) && (at.MakeHeld? || at.AddHeld? || at.Delete?)
    ensures var (p, e) := (InOpen(name, flags, at), DoOpen(fs, name, flags, at));
            Conserves(fs, rest, p, e.fs, rest, e.pc)
  {
    hide Slot, Content, EntryNum, Exclusive, NumsUnique, HandlesSane, NoName, Loose, InIndex, Find, Fresh;
    var p := InOpen(name, flags, at);
    var e := DoOpen(fs, name, flags, at);
    assert rest + EmptyingAt(p) == rest;
    if at.MakeHeld? && !fs.inodeTaken[at.i] {
      Tables.CreatedSlots(fs, at.i, rest);
      CreatedOwners(fs, rest, at.i);
      SameOwnersSameLoose(fs, rest, e.fs, rest);
    } else if at.AddHeld? && EntryNum(Root(fs), at.i) == NONE {
      LinkingKeepsMaps(fs, rest, at.i, at.n, name);
      LinkedOwners(fs, rest, e.fs);
      SameOwnersSameLoose(fs, rest, e.fs, rest);
    } else if at.Delete? {
      Dropping(fs, rest, at.n);
      DroppedOwners(fs, rest, at.n);
      SameOwnersSameLoose(fs, rest, e.fs, rest);
    }
    QuietConserves(fs, rest, p, e.fs, rest, e.pc);
  }

  lemma CreatedOwners(fs: FS, X: set<(int, int)>, n: int)
    requires Exclusive(fs, X) && ValidInum(n) && !fs.inodeTaken[n]
    ensures SameOwners(fs, X, Tables.Created(fs, n), X)
  {
    Tables.CreatedSlots(fs, n, X);
    hide Slot, Exclusive;
  }

  lemma LinkedOwners(fs: FS, X: set<(int, int)>, fs': FS)
    requires SameSlots(fs, fs', X) && fs'.inodeTaken == fs.inodeTaken
    ensures SameOwners(fs, X, fs', X)
  {
    hide Slot;
  }

  lemma DroppedOwners(fs: FS, X: set<(int, int)>, n: int)
    requires ValidInum(n) && Fresh(fs, n)
    ensures SameOwners(fs, X, Dropped(fs, n), X)
  {
    forall r ensures Slot(fs, n, r) == NONE {
      if 0 <= r < MAX_DIRECT_BLOCKS { assert EMPTY_FILE.direct[r] == NONE; }
    }
    forall m, r ensures Slot(Dropped(fs, n), m, r) == Slot(fs, m, r) {
    }
    hide Slot;
  }

  lemma OpenConserves(fs: FS, rest: set<(int, int)>, name: CString, flags: Flags, at: OpenPC)
    requires Ready(fs, rest, InOpen(name, flags, at))
    ensures var (p, e) := (InOpen(name, flags, at), DoOpen(fs, name, flags, at));
            Conserves(fs, rest + EmptyingAt(p), p, e.fs, rest + EmptyingAt(e.pc), e.pc)
  {
    hide Ready, Conserves, RootOk, Loose, InIndex;
    var p := InOpen(name, flags, at);
    ReadyIsOk(fs, rest, p);
    var e := DoOpen(fs, name, flags, at);
    if at.TruncHeld? || at.TruncClear? || at.TruncEnd? {
      TruncConserves(fs, rest, name, flags, at);
    } else if at.MakeHeld? || at.AddHeld? || at.Delete? {
      MakeConserves(fs, rest, name, flags, at);
      NoWindow(fs, rest, name, flags, at);
    } else {
      OpenElseQuiet(fs, name, flags, at);
      assert rest + EmptyingAt(p) == rest == rest + EmptyingAt(e.pc);
      OpenInHand(fs, name, flags, at);
      QuietConserves(fs, rest, p, e.fs, rest, e.pc);
    }
  }

  lemma NoWindow(fs: FS, rest: set<(int, int)>, name: CString, flags: Flags, at: OpenPC)
    requires name != [] && OpenRange(at) && RootOk(fs) && (at.MakeHeld? || at.AddHeld? || at.Delete?)
    ensures rest + EmptyingAt(InOpen(name, flags, at)) == rest == rest + EmptyingAt(DoOpen(fs, name, flags, at).pc)
  {
    hide RootOk, EntryNum, Root, StoredName, EncodeInt, Patch;
  }

  lemma OpenInHand(fs: FS, name: CString, flags: Flags, at: OpenPC)
    requires name != [] && OpenRange(at) && RootOk(fs)
    requires !(at.TruncHeld? || at.TruncClear? || at.TruncEnd? || at.MakeHeld? || at.AddHeld? || at.Delete?)
    ensures InHand(DoOpen(fs, name, flags, at).pc) == None
    ensures forall n :: !FreesIndex(InOpen(name, flags, at), n)
  {
    hide Slot, Content, EntryNum, Answers, RootOk, WrittenBlocks;
  }

  lemma EntryConserves(fs: FS, rest: set<(int, int)>, p: PC)
    requires Ready(fs, rest, p) && (p.InTable? || p.InClose?) && RootOk(fs) && InRange(p)
    ensures var e := Do(fs, p); Conserves(fs, rest + EmptyingAt(p), p, e.fs, rest + EmptyingAt(e.pc), e.pc)
  {
    hide Ready, Conserves, RootOk, Loose, InIndex, Slot;
    var e := Do(fs, p);
    assert rest + EmptyingAt(p) == rest == rest + EmptyingAt(e.pc);
    SameMaps(fs, e.fs);
    SameOwnersSameLoose(fs, rest, e.fs, rest);
    QuietConserves(fs, rest, p, e.fs, rest, e.pc);
  }

  // ---------------------------------------------------------------- reads and writes

  lemma TakenLoose(fs: FS, X: set<(int, int)>, b: int)
    requires Whole(fs, X) && ValidBlock(b) && !fs.blockTaken[b]
    ensures forall c :: Loose(MarkBlock(fs, b, true), X, c) && c != b <==> Loose(fs, X, c)
  {
    Taking(fs, X, b);
    hide Slot, Whole;
    forall m, r ensures Owns(MarkBlock(fs, b, true), m, r) <==> Owns(fs, m, r) {
    }
  }

  lemma AllocConserves(fs: FS, rest: set<(int, int)>, job: Job, x: Xfer, s: nat, j: nat)
    requires Ready(fs, rest, InRw(job, AllocHeld(x, s, j)))
    ensures var (p, e) := (InRw(job, AllocHeld(x, s, j)), DoRw(fs, job, AllocHeld(x, s, j)));
            Conserves(fs, rest, p, e.fs, rest, e.pc)
  {
    hide Slot, Content, EntryNum, Exclusive, NumsUnique, RootOk, HandlesSane, Loose, InIndex, Whole, DirOk;
    var p := InRw(job, AllocHeld(x, s, j));
    assert rest + EmptyingAt(p) == rest;
    if !fs.blockTaken[j] { TakenLoose(fs, rest, j); }
  }

  lemma FilledLoose(fs: FS, fs': FS, X: set<(int, int)>, n: int, s: nat, b: nat)
    requires fs'.blockTaken == fs.blockTaken && fs'.inodeTaken == fs.inodeTaken && (n, s) !in X
    requires SameSlots(fs, fs', X + {(n, s)}) && Live(fs, n) && Slot(fs, n, s) == NONE && Slot(fs', n, s) == b
    requires 0 <= b
    ensures forall c :: Loose(fs', X, c) <==> Loose(fs, X, c) && c != b
  {
    hide Slot;
    forall c ensures Loose(fs', X, c) <==> Loose(fs, X, c) && c != b {
      if Unowned(fs, c, X) && c != b {
        forall m, r | Owns(fs', m, r) && (m, r) !in X ensures Slot(fs', m, r) != c {
          if (m, r) != (n, s) { assert Owns(fs, m, r) && Slot(fs', m, r) == Slot(fs, m, r); }
        }
      }
      if Unowned(fs', c, X) {
        assert Owns(fs', n, s);
        forall m, r | Owns(fs, m, r) && (m, r) !in X ensures Slot(fs, m, r) != c {
          assert (m, r) != (n, s);
          assert Slot(fs', m, r) == Slot(fs, m, r) && Owns(fs', m, r);
        }
      }
    }
  }

  lemma FillConserves(fs: FS, rest: set<(int, int)>, job: Job, x: Xfer, s: nat, b: nat)
    requires Ready(fs, rest, InRw(job, HasBlock(x, s, b)))
    ensures var (p, e) := (InRw(job, HasBlock(x, s, b)), DoRw(fs, job, HasBlock(x, s, b)));
            Conserves(fs, rest, p, e.fs, rest, e.pc)
  {
    hide Slot, Content, EntryNum, Exclusive, NumsUnique, RootOk, FillSlot, HandlesSane, Whole, Loose, InIndex, SameSlots;
    var p := InRw(job, HasBlock(x, s, b));
    var e := DoRw(fs, job, HasBlock(x, s, b));
    assert rest + EmptyingAt(p) == rest;
    HeldFileIsClear(rest, p, x.n);
    MissingIsEmpty(fs, x);
    Filling(fs, rest, x.n, s, b);
    FilledLoose(fs, e.fs, rest, x.n, s, b);
  }

  lemma CopyConserves(fs: FS, rest: set<(int, int)>, job: Job, x: Xfer)
    requires Ready(fs, rest, InRw(job, Loop(x))) && CopiesNext(fs, job, x)
    ensures var (p, e) := (InRw(job, Loop(x)), DoLoop(fs, job, x)); Conserves(fs, rest, p, e.fs, rest, e.pc)
  {
    hide Slot, Content, EntryNum, Exclusive, NumsUnique, RootOk, HandlesSane, Copied, MissingSlot, CopySize, Whole, Loose,
         InIndex, Block;
    var p := InRw(job, Loop(x));
    var e := DoLoop(fs, job, x);
    assert rest + EmptyingAt(p) == rest;
    if job.WriteJob? {
      WriteLands(fs, rest, job, x);
      HeldFileIsClear(rest, p, x.n);
      Copying(fs, rest, job.h, x.n, job.buf[x.moved..x.moved + CopySize(x)]);
    } else {
      ReadLands(fs, rest, job, x);
      Moving(fs, rest, job.h, CopySize(x));
      MovedSlots(fs, e.fs, rest);
    }
    LinkedOwners(fs, rest, e.fs);
    SameOwnersSameLoose(fs, rest, e.fs, rest);
    QuietConserves(fs, rest, p, e.fs, rest, e.pc);
  }

  lemma MovedSlots(fs: FS, fs': FS, X: set<(int, int)>)
    requires forall m, r :: Slot(fs', m, r) == Slot(fs, m, r)
    ensures SameSlots(fs, fs', X)
  {
    hide Slot;
  }

  lemma RwConserves(fs: FS, rest: set<(int, int)>, job: Job, rw: RwPC)
    requires Ready(fs, rest, InRw(job, rw))
    ensures var (p, e) := (InRw(job, rw), DoRw(fs, job, rw)); Conserves(fs, rest, p, e.fs, rest, e.pc)
  {
    hide Ready, Lands, DoLoop, CopiesNext, Conserves, Loose;
    var p := InRw(job, rw);
    ReadyIsOk(fs, rest, p);
    match rw
    case Loop(x) =>
      if CopiesNext(fs, job, x) {
        CopyConserves(fs, rest, job, x);
      } else {
        LoopQuietLands(fs, rest, job, x);
        LoopHand(fs, job, x);
        QuietConserves(fs, rest, p, DoRw(fs, job, rw).fs, rest, DoRw(fs, job, rw).pc);
      }
    case AllocScan(x, s, j) =>
      QuietConserves(fs, rest, p, DoRw(fs, job, rw).fs, rest, DoRw(fs, job, rw).pc);
    case AllocHeld(x, s, j) => AllocConserves(fs, rest, job, x, s, j);
    case HasBlock(x, s, b) => FillConserves(fs, rest, job, x, s, b);
    case _ =>
      StartLands(fs, rest, job, rw);
      QuietConserves(fs, rest, p, DoRw(fs, job, rw).fs, rest, DoRw(fs, job, rw).pc);
  }

  lemma LoopHand(fs: FS, job: Job, x: Xfer)
    requires ValidHandle(job.h) && XferRange(job, x)
    ensures InHand(DoLoop(fs, job, x).pc) == None
  {
    hide Copied, MovedOn, MissingSlot, BlockNo, Block;
  }

  lemma StepConserves(fs: FS, rest: set<(int, int)>, p: PC)
    requires Ready(fs, rest, p)
    ensures RootOk(fs) && InRange(p)
    ensures var e := Do(fs, p); Conserves(fs, rest + EmptyingAt(p), p, e.fs, rest + EmptyingAt(e.pc), e.pc)
  {
    hide Conserves, Loose, Ready, RootOk, OpenRange, TableRange, RwRange;
    ReadyIsOk(fs, rest, p);
    NotIdle(fs, rest, p);
    match p
    case InOpen(name, flags, at) => OpenConserves(fs, rest, name, flags, at);
    case InTable(n, off, at) => EntryConserves(fs, rest, p);
    case InClose(h, at) => EntryConserves(fs, rest, p);
    case InRw(job, rw) =>
      RwConserves(fs, rest, job, rw);
      RwEmptiesNothing(fs, rest, job, rw);
  }

  lemma NotIdle(fs: FS, rest: set<(int, int)>, p: PC)
    requires Ready(fs, rest, p)
    ensures !p.Idle?
  {
    hide Whole, Place, InRange;
  }

  lemma RwEmptiesNothing(fs: FS, rest: set<(int, int)>, job: Job, rw: RwPC)
    requires RwRange(job, rw)
    ensures rest + EmptyingAt(InRw(job, rw)) == rest == rest + EmptyingAt(DoRw(fs, job, rw).pc)
  {
    hide Copied, MovedOn, MissingSlot, BlockNo, Block, FillSlot;
  }

  // ---------------------------------------------------------------- runs

  /** Block b is TAKEN, and neither a slot nor a thread holds it. */
  ghost predicate IsLost(s: State, b: int) {
    Loose(s.fs, Emptying(s.threads), b) && NobodyHas(s.threads, b)
  }

  ghost predicate NobodyHas(threads: seq<Thread>, b: int) {
    forall t :: 0 <= t < |threads| ==> InHand(threads[t].pc) != Some(b)
  }

  /** A block that an index block names is in nobody's hand. */
  lemma IndexedNotInHand(s: State, t: nat, b: int)
    requires Safe(s) && t < |s.threads| && LosesNow(s.fs, s.threads[t].pc, b)
    ensures NobodyHas(s.threads, b)
  {
    hide Safe, Slot, Emptying, Owns, InHand, FreesIndex;
    var p := s.threads[t].pc;
    var n :| FreesIndex(p, n) && InIndex(s.fs, n, b);
    var r :| INDEX_SLOT < r && Owns(s.fs, n, r) && Slot(s.fs, n, r) == b;
    HeldIsNotEmptied(s, t, n, r);
    forall u | 0 <= u < |s.threads| ensures InHand(s.threads[u].pc) != Some(b) {
      if InHand(s.threads[u].pc) == Some(b) { HandIsUnowned(s, u); }
    }
  }

  lemma HandIsUnowned(s: State, t: nat)
    requires Safe(s) && t < |s.threads| && InHand(s.threads[t].pc).Some?
    ensures Unowned(s.fs, InHand(s.threads[t].pc).value, Emptying(s.threads))
  {
    hide Whole, Apart, LocksOk, Slot, Emptying, Transferring, MissingSlot, Unowned;
    assert Place(s.fs, Emptying(s.threads), s.threads[t].pc);
  }

  lemma HeldIsNotEmptied(s: State, t: nat, n: int, r: int)
    requires Safe(s) && t < |s.threads| && FreesIndex(s.threads[t].pc, n)
    ensures (n, r) !in Emptying(s.threads)
  {
    hide Conflict, Whole, Apart, Emptying, EmptyingAt, Place;
    assert InRange(s.threads[t].pc);
    NobodyEmpties(s, t, n, r);
  }

  /** A step of a thread loses the blocks that the index block it frees names, and no others; and nothing lost is found again. */
  lemma StepLoses(s: State, s': State, t: nat, b: int)
    requires Safe(s) && ThreadStep(s, s', t)
    ensures IsLost(s', b) <==> IsLost(s, b) || LosesNow(s.fs, s.threads[t].pc, b)
  {
    hide Whole, Place, Apart, HeldAt, Conflict, InRange, EmptyingAt, Do, LocksOk, Rest, Emptying, RootOk, Grantable, Loose,
         LosesNow, InHand, NewHeld;
    var p := s.threads[t].pc;
    var e := Do(s.fs, p);
    var rest := Rest(s.threads, t);
    SafeIsReady(s, t);
    StepConserves(s.fs, rest, p);
    EmptyingSplit(s.threads, t);
    EmptyingUpdate(s.threads, t, s'.threads[t]);
    if LosesNow(s.fs, p, b) { IndexedNotInHand(s, t, b); }
    HandsAfter(s, s', t, b);
  }

  lemma HandsAfter(s: State, s': State, t: nat, b: int)
    requires t < |s.threads| == |s'.threads| && forall u :: 0 <= u < |s.threads| && u != t ==> s'.threads[u] == s.threads[u]
    ensures NobodyHas(s.threads, b) && InHand(s'.threads[t].pc) != Some(b) ==> NobodyHas(s'.threads, b)
    ensures NobodyHas(s'.threads, b) && InHand(s.threads[t].pc) != Some(b) ==> NobodyHas(s.threads, b)
  {
    hide InHand;
  }

  /** Starting an operation loses and finds nothing. */
  lemma StartLoses(s: State, s': State, t: nat, pc: PC, b: int)
    requires Safe(s) && StartStep(s, s', t, pc)
    ensures IsLost(s', b) <==> IsLost(s, b)
  {
    hide Whole, Place, Apart, HeldAt, Conflict, InRange, LocksOk, Rest, Emptying, Loose;
    EmptyingSplit(s.threads, t);
    EmptyingUpdate(s.threads, t, s'.threads[t]);
    assert EmptyingAt(pc) == {} == EmptyingAt(s.threads[t].pc);
    assert InHand(pc) == None == InHand(s.threads[t].pc);
    HandsAfter(s, s', t, b);
  }

  ghost predicate LosesBy(s: State, s': State, t: nat, b: int) {
    ThreadStep(s, s', t) && LosesNow(s.fs, s.threads[t].pc, b)
  }

  ghost predicate Loses(s: State, s': State, b: int) {
    exists t: nat :: LosesBy(s, s', t, b)
  }

  /** Step i of the run frees an index block that names b. */
  ghost predicate LosesAt(run: seq<State>, i: nat, b: int) {
    i + 1 < |run| && Loses(run[i], run[i + 1], b)
  }

  ghost predicate LostBefore(run: seq<State>, i: nat, b: int) {
    exists j: nat :: j < i && LosesAt(run, j, b)
  }

  /** At every moment of every run, a TAKEN block is in a slot, or in a thread's hand, or was named by an index block that a
      truncation freed: these, and no others, are lost, and for good. */
  lemma {:induction false} OnlyFreedIndexLoses(run: seq<State>, i: nat, b: int)
    requires Execution(run) && i < |run|
    ensures IsLost(run[i], b) <==> LostBefore(run, i, b)
  {
    hide Safe, ThreadStep, StartStep, Init, IsLost, LosesNow;
    if i == 0 {
      NothingLostAtFirst(run[0], b);
    } else {
      OnlyFreedIndexLoses(run, i - 1, b);
      ReachableIsSafe(run, i - 1);
      LostStep(run, i - 1, b);
      LostBeforeStep(run, i - 1, b);
    }
  }

  lemma LostBeforeStep(run: seq<State>, i: nat, b: int)
    ensures LostBefore(run, i + 1, b) <==> LostBefore(run, i, b) || LosesAt(run, i, b)
  {
    hide LosesAt;
    if LostBefore(run, i + 1, b) {
      var j: nat :| j < i + 1 && LosesAt(run, j, b);
    }
  }

  /** What one step of the run loses, whichever thread takes it. */
  lemma LostStep(run: seq<State>, i: nat, b: int)
    requires Execution(run) && i + 1 < |run| && Safe(run[i])
    ensures IsLost(run[i + 1], b) <==> IsLost(run[i], b) || LosesAt(run, i, b)
  {
    hide Safe, ThreadStep, StartStep, Init, IsLost, LosesNow, LosesBy;
    var (s, s') := (run[i], run[i + 1]);
    assert Step(s, s');
    if LosesAt(run, i, b) {
      var t: nat :| LosesBy(s, s', t, b);
      LosesByStep(s, s', t, b);
    } else {
      var t: nat :| ThreadStep(s, s', t) || Starts(s, s', t);
      if ThreadStep(s, s', t) {
        LosesByStep(s, s', t, b);
      } else {
        var pc :| StartStep(s, s', t, pc);
        StartLoses(s, s', t, pc, b);
      }
    }
  }

  lemma LosesByStep(s: State, s': State, t: nat, b: int)
    requires Safe(s) && (ThreadStep(s, s', t) || LosesBy(s, s', t, b))
    ensures IsLost(s', b) <==> IsLost(s, b) || LosesBy(s, s', t, b)
  {
    hide Safe, IsLost, LosesNow, Do, InRange, RootOk, Grantable;
    StepLoses(s, s', t, b);
  }

  lemma NothingLostAtFirst(s: State, b: int)
    requires Init(s)
    ensures !IsLost(s, b)
  {
    FormattedIsWF(s.fs);
    hide Exclusive, WF, Formatted, Slot, NamesUnique;
    forall x | x in Emptying(s.threads) ensures false {
      var u := EmptierOf(s.threads, x);
    }
    assert Emptying(s.threads) == {};
  }

  /** As long as no index block that names b is freed, b is TAKEN only while a slot holds it or a thread is about to put it in
      one. */
  lemma TakenIsHeld(run: seq<State>, i: nat, b: int)
    requires Execution(run) && i < |run| && ValidBlock(b) && run[i].fs.blockTaken[b]
    requires forall j: nat :: j < i ==> !LosesAt(run, j, b)
    ensures || (exists n, r :: Owns(run[i].fs, n, r) && (n, r) !in Emptying(run[i].threads) && Slot(run[i].fs, n, r) == b)
            || (exists t :: 0 <= t < |run[i].threads| && InHand(run[i].threads[t].pc) == Some(b))
  {
    hide Execution, LosesAt, InHand, Slot, Owns, Emptying;
    OnlyFreedIndexLoses(run, i, b);
  }
}
