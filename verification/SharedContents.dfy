/** What each step of each thread does to the contents of files that are whole: steps of truncation aside. */
module SharedContents {
  import opened Config
  import opened Bytes
  import opened Disk
  import opened Directory
  import opened Ownership
  import opened Files
  import opened Invariant
  import opened Growth
  import opened ReadLoop
  import opened Truncation
  import opened Opening
  import opened Interleaving
  import opened Deadlock
  import opened Safety
  import opened SharedData
  import opened SharedTables
  import opened SharedSteps
  import opened SharedCalm
  import Tables

  /** The thread is not in the middle of a truncation. */
  predicate Gentle(pc: PC) {
    pc.InOpen? ==> !Truncating(pc.at)
  }

  /** The next step of the thread writes to file m. */
  ghost predicate WritesNext(fs: FS, p: PC, m: int) {
    InRange(p) && p.InRw? && p.rw.Loop? && p.job.WriteJob? && p.rw.x.n == m && CopiesNext(fs, p.job, p.rw.x)
  }

  /** The bytes that the next copy of a write puts in. */
  function NextPiece(job: Job, x: Xfer): seq<Byte>
    requires XferRange(job, x) && job.WriteJob?
  {
    if x.moved < x.total then job.buf[x.moved..x.moved + CopySize(x)] else []
  }

  /** A transfer stands within its file. */
  ghost predicate Within(fs: FS, p: PC) {
    p.InRw? && p.rw.Loop? && ValidInum(p.rw.x.n) ==> p.rw.x.o + p.rw.x.moved <= |Content(fs, p.rw.x.n)|
  }

  /** The content of file m after the step. */
  ghost function ContentAfter(fs: FS, p: PC, m: int): seq<Byte>
    requires InRange(p) && Within(fs, p) && ValidInum(m)
  {
    if !IsFile(fs, m) then []
    else if WritesNext(fs, p, m) then Splice(Content(fs, m), p.rw.x.o + p.rw.x.moved, NextPiece(p.job, p.rw.x))
    else Content(fs, m)
  }

  /** What a step leaves: every file covered, and every content but that of the file written to as it was. */
  ghost predicate Shown(fs: FS, p: PC, fs': FS)
    requires InRange(p) && Within(fs, p)
  {
    && AllCovered(fs')
    && forall m {:trigger Content(fs', m)} :: IsFile(fs', m) ==> Content(fs', m) == ContentAfter(fs, p, m)
  }

  /** The data that a step starts from. */
  ghost predicate Sound(fs: FS) {
    Whole(fs, {}) && AllCovered(fs)
  }

  lemma SameIsShown(fs: FS, p: PC)
    requires Sound(fs) && InRange(p) && Within(fs, p) && forall m :: !WritesNext(fs, p, m)
    ensures Shown(fs, p, fs)
  {
    hide Content, Covered, Whole, WritesNext;
  }

  lemma DroppedIsShown(fs: FS, n: int)
    requires Sound(fs) && IsInum(n) && Fresh(fs, n)
    ensures AllCovered(Dropped(fs, n)) && forall m :: ValidInum(m) ==> Content(Dropped(fs, n), m) == Content(fs, m)
  {
    var fs' := Dropped(fs, n);
    Dropping(fs, {}, n);
    hide Slot, Whole, Fresh;
    forall m | ValidInum(m) ensures Content(fs', m) == Content(fs, m) {
      ContentFrame(fs, fs', m);
    }
    forall m | IsFile(fs', m) ensures Covered(fs', m) {
      assert IsFile(fs, m) && Covered(fs, m);
      forall i | 0 <= i && i * BLOCK_SIZE < fs'.inodes[m].size ensures BlockNo(fs', m, i) != NONE {
        assert BlockNo(fs, m, i) != NONE;
      }
    }
  }

  lemma MakeShown(fs: FS, name: CString, flags: Flags, at: OpenPC)
    requires Sound(fs) && Ready(fs, {}, InOpen(name, flags, at)) && (at.MakeHeld? || at.AddHeld? || at.Delete?)
    ensures Shown(fs, InOpen(name, flags, at), DoOpen(fs, name, flags, at).fs)
  {
    hide Slot, Content, EntryNum, NumsUnique, Covered, Exclusive, HandlesSane, NoName;
    var p := InOpen(name, flags, at);
    var fs' := DoOpen(fs, name, flags, at).fs;
    if at.MakeHeld? && !fs.inodeTaken[at.i] {
      assert {} + EmptyingAt(p) == {};
      Tables.CreatedKeeps(fs, at.i);
    } else if at.AddHeld? && EntryNum(Root(fs), at.i) == NONE {
      Tables.LinkedKeeps(fs, at.i, at.n, name);
      assert fs'.inodeTaken == fs.inodeTaken && fs'.inodes == fs.inodes;
    } else if at.Delete? {
      DroppedIsShown(fs, at.n);
    }
  }

  lemma EntryShown(fs: FS, p: PC, fs': FS, h: int)
    requires Sound(fs) && OnlyEntry(fs, fs', h) && InRange(p) && !p.InRw?
    ensures Shown(fs, p, fs')
  {
    Tables.TableDoesNotShow(fs, fs');
    hide Slot, Content, Covered, Whole;
  }

  lemma TakenShown(fs: FS, p: PC, b: int)
    requires Sound(fs) && ValidBlock(b) && InRange(p) && p.InRw? && !p.rw.Loop?
    ensures Shown(fs, p, MarkBlock(fs, b, true))
  {
    SameTakenContent(fs, MarkBlock(fs, b, true));
    hide Slot, Content, Covered, Whole;
  }

  lemma FilledShown(fs: FS, p: PC, n: int, s: nat, b: nat)
    requires Sound(fs) && InRange(p) && p.InRw? && !p.rw.Loop?
    requires IsFile(fs, n) && s < N_SLOTS && Slot(fs, n, s) == NONE
    requires s > INDEX_SLOT ==> Slot(fs, n, INDEX_SLOT) != NONE
    requires ValidBlock(b) && fs.blockTaken[b] && Unowned(fs, b, {})
    ensures Shown(fs, p, FillSlot(fs, n, s, b))
  {
    Filling(fs, {}, n, s, b);
    FilledKeeps(fs, n, s, b);
    hide Slot, Content, Covered, Whole, FillSlot;
  }

  lemma FilledKeeps(fs: FS, n: int, s: nat, b: nat)
    requires Sound(fs)
    requires IsFile(fs, n) && s < N_SLOTS && Slot(fs, n, s) == NONE
    requires s > INDEX_SLOT ==> Slot(fs, n, INDEX_SLOT) != NONE
    requires ValidBlock(b) && fs.blockTaken[b] && Unowned(fs, b, {})
    ensures AllCovered(FillSlot(fs, n, s, b)) && OthersSame(fs, FillSlot(fs, n, s, b), {})
  {
    hide Content, Covered, DirOk, HandlesSane, PutSlot, Installed;
    if s == INDEX_SLOT {
      InstalledIsIndex(fs, n, b);
      InstallKeepsContent(fs, Installed(fs, n, b), n, b);
    } else {
      if s > INDEX_SLOT { assert Owns(fs, n, INDEX_SLOT); }
      AttachKeepsContent(fs, n, s, b);
    }
  }

  lemma MovedShown(fs: FS, p: PC, h: int, k: nat)
    requires Sound(fs) && ValidHandle(h) && InRange(p) && Within(fs, p) && p.InRw? && p.job.ReadJob?
    ensures Shown(fs, p, MovedOn(fs, h, k))
  {
    HandlesDoNotShow(fs, MovedOn(fs, h, k));
    hide Slot, Content, Covered, Whole;
  }

  lemma CopiedShown(fs: FS, job: Job, x: Xfer)
    requires Sound(fs) && Ready(fs, {}, InRw(job, Loop(x))) && Within(fs, InRw(job, Loop(x)))
    requires job.WriteJob? && CopiesNext(fs, job, x)
    ensures Shown(fs, InRw(job, Loop(x)), DoLoop(fs, job, x).fs)
  {
    hide Slot, Content, AllCovered, Exclusive, HandlesSane, DirOk, CopySize, MissingSlot, Clear, Shown, Copied;
    BlockInMap(job, x);
    CopySplices(fs, job.h, x.n, NextPiece(job, x));
    SplicedIsShown(fs, job, x, DoLoop(fs, job, x).fs);
  }

  /** A copy at the offset of handle h splices the file and shows in no other. */
  lemma CopySplices(fs: FS, h: int, n: int, bytes: seq<Byte>)
    requires Sound(fs) && ValidHandle(h) && fs.handles[h].inum == n && IsFile(fs, n) && bytes != []
    requires var off := fs.handles[h].offset;
             && ValidBlock(BlockNo(fs, n, off / BLOCK_SIZE)) && off % BLOCK_SIZE + |bytes| <= BLOCK_SIZE && off <= fs.inodes[n].size
    ensures var off := fs.handles[h].offset;
            var fs' := Copied(fs, h, off / BLOCK_SIZE, bytes);
            && off <= |Content(fs, n)| && AllCovered(fs') && fs'.inodeTaken == fs.inodeTaken
            && Content(fs', n) == Splice(Content(fs, n), off, bytes) && OthersSame(fs, fs', {n})
  {
    hide Slot, Content, AllCovered, HandlesSane, DirOk, Exclusive, Splice, PutBytes;
    var off := fs.handles[h].offset;
    var w := Written(fs, n, off / BLOCK_SIZE, off % BLOCK_SIZE, bytes);
    WrittenSplices(fs, n, off / BLOCK_SIZE, off % BLOCK_SIZE, bytes);
    HandlesDoNotShow(w, Copied(fs, h, off / BLOCK_SIZE, bytes));
    WrittenTaken(fs, n, off / BLOCK_SIZE, off % BLOCK_SIZE, bytes);
  }

  lemma WrittenTaken(fs: FS, n: int, i: nat, off: nat, bytes: seq<Byte>)
    requires ValidInum(n) && ValidBlock(BlockNo(fs, n, i)) && off + |bytes| <= BLOCK_SIZE
    ensures Written(fs, n, i, off, bytes).inodeTaken == fs.inodeTaken
  {
    hide Patch, Slot;
  }

  lemma SplicedIsShown(fs: FS, job: Job, x: Xfer, fs': FS)
    requires InRange(InRw(job, Loop(x))) && Within(fs, InRw(job, Loop(x))) && job.WriteJob? && CopiesNext(fs, job, x)
    requires IsFile(fs, x.n) && AllCovered(fs') && fs'.inodeTaken == fs.inodeTaken && OthersSame(fs, fs', {x.n})
    requires Content(fs', x.n) == Splice(Content(fs, x.n), x.o + x.moved, NextPiece(job, x))
    requires forall n :: IsInum(n) && fs.inodeTaken[n] ==> !fs.inodes[n].isDir
    ensures Shown(fs, InRw(job, Loop(x)), fs')
  {
    hide Content, AllCovered, Splice, NextPiece, CopiesNext;
  }

  lemma RwShown(fs: FS, job: Job, rw: RwPC)
    requires RwRange(job, rw) && Sound(fs) && Ready(fs, {}, InRw(job, rw)) && Within(fs, InRw(job, rw))
    ensures Shown(fs, InRw(job, rw), DoRw(fs, job, rw).fs)
  {
    hide Slot, Content, AllCovered, Exclusive, HandlesSane, DirOk, CopySize, Copied, FillSlot, CopiesNext,
         Unowned, EntryNum, MissingSlot, Shown, XferRange;
    var p := InRw(job, rw);
    assert {} + EmptyingAt(p) == {};
    match rw
    case Loop(x) => LoopShown(fs, job, x);
    case AllocHeld(x, s, j) => if fs.blockTaken[j] { SameIsShown(fs, p); } else { TakenShown(fs, p, j); }
    case HasBlock(x, s, b) =>
      MissingIsEmpty(fs, x);
      FilledShown(fs, p, x.n, s, b);
    case _ => SameIsShown(fs, p);
  }

  lemma LoopShown(fs: FS, job: Job, x: Xfer)
    requires RwRange(job, Loop(x)) && Sound(fs) && Ready(fs, {}, InRw(job, Loop(x))) && Within(fs, InRw(job, Loop(x)))
    ensures Shown(fs, InRw(job, Loop(x)), DoLoop(fs, job, x).fs)
  {
    hide Content, AllCovered, Whole, Ready, CopiesNext, Shown, Lands, DoLoop, Within;
    var p := InRw(job, Loop(x));
    if !CopiesNext(fs, job, x) {
      LoopQuietLands(fs, {}, job, x);
      SameIsShown(fs, p);
    } else if job.WriteJob? {
      CopiedShown(fs, job, x);
    } else {
      ReadLands(fs, {}, job, x);
      MovedShown(fs, p, job.h, CopySize(x));
    }
  }

  /** Every step leaves every file covered, and no step changes a content but the copy of a write, which splices
      its piece into its own file. */
  lemma StepShown(fs: FS, p: PC)
    requires Sound(fs) && Ready(fs, {}, p) && Gentle(p) && Within(fs, p) && InRange(p) && RootOk(fs)
    ensures Shown(fs, p, Do(fs, p).fs)
  {
    hide Slot, Content, AllCovered, Exclusive, HandlesSane, EntryNum, Shown, XferRange, RootOk, RwRange,
         OpenRange, OpenPlace, RwPlace;
    match p
    case InOpen(name, flags, at) =>
      if at.MakeHeld? || at.AddHeld? || at.Delete? { MakeShown(fs, name, flags, at); }
      else {
        OpenElseQuiet(fs, name, flags, at);
        SameIsShown(fs, p);
      }
    case InTable(n, off, at) => if at.CountHeld? { EntryShown(fs, p, Do(fs, p).fs, at.h); } else { SameIsShown(fs, p); }
    case InClose(h, at) => if at.CloseCountHeld? { EntryShown(fs, p, Do(fs, p).fs, h); } else { SameIsShown(fs, p); }
    case InRw(job, rw) => RwShown(fs, job, rw);
  }
}
