/**
  Serialisability: the reads and writes of all threads, in the order in which they ended while holding the lock of
  their file, are a run of operations on plain byte sequences that is legal on every file that nobody truncates, and
  those files hold what that run leaves. The files that threads do truncate are in the set `cut`: of them the
  specification keeps the handles only.
 */
module Serial {
  import opened Options
  import opened Config
  import opened Bytes
  import opened Disk
  import opened Directory
  import opened Ownership
  import opened Invariant
  import opened Growth
  import opened Transfer
  import opened ReadLoop
  import opened Truncation
  import opened Opening
  import opened Formatting
  import opened Interleaving
  import opened Deadlock
  import opened Safety
  import opened SharedData
  import opened SharedTables
  import opened SharedSteps
  import opened SharedCalm
  import opened SharedContents
  import opened Reachable
  import opened Aside
  import Tables

  // ---------------------------------------------------------------- the specification

  /** Files as byte sequences, handles as a file and a position. */
  datatype SpecRec = SpecRec(files: seq<seq<Byte>>, handles: seq<OpenFile>)

  type Spec = s: SpecRec | |s.files| == INODE_TABLE_SIZE && |s.handles| == MAX_OPEN_FILES
    ghost witness SpecRec(seq(50, _ => []), seq(20, _ => OpenFile(0, 0)))

  /** How many bytes a read of at most len returns: by the block count of the code, all that is there up to its length, but
      for the part that the count leaves out. */
  function Given(spec: Spec, f: OpenFile, len: nat): (k: nat)
    requires IsInum(f.inum) && f.offset <= |spec.files[f.inum]|
    ensures f.offset + k <= |spec.files[f.inum]| && k <= len
  {
    var rest := |spec.files[f.inum]| - f.offset;
    Moves(BLOCK_SIZE, f.offset, if rest > len then len else rest)
  }

  /** The operation may happen now, with this result: an open stands inside the file, a write begins inside it, a read
      returns what the file holds there. */
  predicate Legal(spec: Spec, e: Event) {
    match e
    case Handed(h, n, off) => ValidHandle(h) && IsInum(n) && off <= |spec.files[n]|
    case Wrote(h, bytes) =>
      && ValidHandle(h)
      && var f := spec.handles[h]; IsInum(f.inum) && f.offset <= |spec.files[f.inum]|
    case Fetched(h, len, bytes) =>
      && ValidHandle(h)
      && var f := spec.handles[h];
         && IsInum(f.inum) && f.offset <= |spec.files[f.inum]|
         && bytes == spec.files[f.inum][f.offset..f.offset + Given(spec, f, len)]
    case _ => true
  }

  /** The operation was a read or a write, and moved its handle. */
  predicate Transfers(e: Event) {
    e.Wrote? || e.Fetched?
  }

  predicate SetsHandle(e: Event) {
    e.Handed? || Transfers(e)
  }

  /** The file that an operation is about. */
  function FileOf(spec: Spec, e: Event): int {
    if e.Handed? then e.n else if Transfers(e) && ValidHandle(e.h) then spec.handles[e.h].inum else NONE
  }

  /** Legal on every file outside cut. */
  predicate Accepted(cut: set<int>, spec: Spec, e: Event) {
    (SetsHandle(e) ==> ValidHandle(e.h)) && (FileOf(spec, e) !in cut ==> Legal(spec, e))
  }

  /** The effect of one whole operation. */
  function Apply(spec: Spec, e: Event): Spec {
    if !SetsHandle(e) || !ValidHandle(e.h) then spec
    else
      var f := spec.handles[e.h];
      match e
      case Handed(h, n, off) => spec.(handles := spec.handles[h := OpenFile(n, off)])
      case Wrote(h, bytes) => SpecWrite(spec, f, bytes).(handles := spec.handles[h := OpenFile(f.inum, f.offset + |bytes|)])
      case Fetched(h, len, bytes) => spec.(handles := spec.handles[h := OpenFile(f.inum, f.offset + |bytes|)])
      case _ => spec
  }

  /** The bytes are spliced into the file; past the end of a file, where only truncation can leave a handle, nothing is said. */
  function SpecWrite(spec: Spec, f: OpenFile, bytes: seq<Byte>): Spec {
    if ValidInum(f.inum) && f.offset <= |spec.files[f.inum]| then
      spec.(files := spec.files[f.inum := Splice(spec.files[f.inum], f.offset, bytes)])
    else spec
  }

  /** All operations of a log, one after the other, from empty files. */
  function Replay(log: seq<Event>): Spec {
    if log == [] then SpecRec(seq(INODE_TABLE_SIZE, _ => []), seq(MAX_OPEN_FILES, _ => OpenFile(0, 0)))
    else Apply(Replay(log[..|log| - 1]), log[|log| - 1])
  }

  predicate LegalLog(cut: set<int>, log: seq<Event>) {
    forall i :: 0 <= i < |log| ==> Accepted(cut, Replay(log[..i]), log[i])
  }

  // ---------------------------------------------------------------- how a thread stands to the specification

  /** The transfer that a thread is in the middle of. */
  function Moving(pc: PC): Option<Xfer> {
    if !pc.InRw? then None
    else
      match pc.rw
      case Loop(x) => Some(x)
      case AllocScan(x, s, j) => Some(x)
      case AllocHeld(x, s, j) => Some(x)
      case HasBlock(x, s, b) => Some(x)
      case _ => None
  }

  predicate MovesFile(pc: PC, n: int) {
    Moving(pc).Some? && Moving(pc).value.n == n
  }

  predicate MovesHandle(pc: PC, h: int) {
    Moving(pc).Some? && pc.job.h == h
  }

  /** A transfer under way stands, for the specification, where it began. */
  predicate XferBegan(spec: Spec, job: Job, x: Xfer) {
    IsInum(x.n) && ValidHandle(job.h) && XferRange(job, x) && spec.handles[job.h] == OpenFile(x.n, x.o)
  }

  /** A transfer under way has done to its file what its first `moved` bytes do, and nothing of it shows yet. */
  ghost predicate XferTold(fs: FS, spec: Spec, job: Job, x: Xfer) {
    && XferBegan(spec, job, x) && x.o <= |spec.files[x.n]|
    && match job
       case WriteJob(h, buf) => Content(fs, x.n) == Splice(spec.files[x.n], x.o, buf[..x.moved])
       case ReadJob(h, len) =>
         && Content(fs, x.n) == spec.files[x.n]
         && x.total == Given(spec, OpenFile(x.n, x.o), len)
         && x.got == spec.files[x.n][x.o..x.o + x.moved]
  }

  /** The thread is about to put a handle at position off of file n. */
  predicate Position(pc: PC, n: int, off: nat) {
    || (pc.InTable? && pc.n == n && pc.off == off)
    || (pc.InOpen? && (pc.at.Leave? || pc.at.LeaveIno?) && pc.at.n == n && pc.at.off == Some(off))
  }

  /** How a thread stands to the specification: its transfer began where the specification is and, outside cut, has
      done what it says; the position that an open outside cut has decided on lies inside the file. */
  ghost predicate Told(cut: set<int>, fs: FS, spec: Spec, pc: PC) {
    && (Moving(pc).Some? ==>
          var x := Moving(pc).value;
          XferBegan(spec, pc.job, x) && (x.n !in cut ==> XferTold(fs, spec, pc.job, x)))
    && (forall n, off: nat :: Position(pc, n, off) && IsInum(n) && n !in cut ==> off <= |spec.files[n]|)
  }

  ghost predicate NobodyMoves(threads: seq<Thread>, n: int) {
    forall t :: 0 <= t < |threads| ==> !MovesFile(threads[t].pc, n)
  }

  ghost predicate NobodyMovesThrough(threads: seq<Thread>, h: int) {
    forall t :: 0 <= t < |threads| ==> !MovesHandle(threads[t].pc, h)
  }

  /** The handle refers to a file and, outside cut, to a position inside it. */
  ghost predicate HandleFits(cut: set<int>, fs: FS, spec: Spec, f: OpenFile) {
    f.inum != 0 ==> IsFile(fs, f.inum) && (f.inum !in cut ==> f.offset <= |spec.files[f.inum]|)
  }

  /** What nobody is in the middle of is as the specification has it. */
  ghost predicate Agrees(cut: set<int>, fs: FS, spec: Spec, threads: seq<Thread>) {
    && (forall n :: IsInum(n) && n !in cut && !fs.inodeTaken[n] ==> spec.files[n] == [])
    && (forall n :: IsFile(fs, n) && n !in cut && NobodyMoves(threads, n) ==> Content(fs, n) == spec.files[n])
    && (forall h :: ValidHandle(h) && NobodyMovesThrough(threads, h) ==> fs.handles[h] == spec.handles[h])
    && (forall h :: ValidHandle(h) ==> HandleFits(cut, fs, spec, spec.handles[h]))
  }

  ghost predicate Serialised(cut: set<int>, s: State) {
    && LegalLog(cut, s.log) && Spared(s.fs, Emptying(s.threads), cut) && Agrees(cut, s.fs, Replay(s.log), s.threads)
    && forall t :: 0 <= t < |s.threads| ==> CutsOnly(s.threads[t].pc, cut) && Told(cut, s.fs, Replay(s.log), s.threads[t].pc)
  }
}
