/** Whole runs: any sequence of operations, each within the bounds that the code leaves to its callers. */
module Runs {
  import opened Config
  import opened Bytes
  import opened Disk
  import opened Directory
  import opened Ownership
  import opened Files
  import opened Invariant
  import opened Transfer
  import opened WriteLoop
  import opened ReadLoop
  import opened Tables
  import opened Truncation
  import opened Opening
  import opened Formatting
  import opened Laws

  datatype Op =
    | Open(path: CString, flags: Flags)
    | Write(h: int, buf: seq<Byte>)
    | Read(h: int, len: nat)
    | Close(h: int)

  /** What the code leaves to its callers: handles are open, transfers stay inside the file's blocks, and
      a truncating open finds a file that can be truncated and that no handle stands in. */
  ghost predicate Allowed(fs: FS, op: Op) {
    match op
    case Open(path, flags) => DirOk(fs) && OpenIsSafe(fs, path, flags)
    case Write(h, buf) => ValidHandle(h) ==> Usable(fs, h) && Writable(fs, h, |buf|)
    case Read(h, len) => ValidHandle(h) ==> Usable(fs, h) && Readable(fs, h, len)
    case Close(h) => true
  }

  /** The effect of one operation, as the methods of the file system state it. */
  ghost predicate Step(fs: FS, fs': FS, op: Op) {
    match op
    case Open(path, flags) => DirOk(fs) && exists r, n, mid :: OpenEffect(fs, fs', path, flags, r, n, mid)
    case Write(h, buf) => if ValidHandle(h) then WriteEffect(fs, fs', h, buf) else fs' == fs
    case Read(h, len) =>
      if ValidHandle(h) then fs' == MovedOn(fs, h, Moves(BLOCK_SIZE, fs.handles[h].offset, Available(fs, h, len))) else fs' == fs
    case Close(h) => if ValidHandle(h) && fs.handleTaken[h] then fs' == Closed(fs, h) else fs' == fs
  }

  ghost predicate WriteEffect(fs: FS, fs': FS, h: int, buf: seq<Byte>)
    requires ValidHandle(h)
  {
    exists k: int :: Stuck(fs, fs', h, buf, k) || (k >= 0 && Done(fs, fs', h, buf, k))
  }

  ghost predicate Run(trace: seq<FS>, ops: seq<Op>) {
    && |trace| == |ops| + 1 && Formatted(trace[0])
    && forall i :: 0 <= i < |ops| ==> Allowed(trace[i], ops[i]) && Step(trace[i], trace[i + 1], ops[i])
  }

  predicate Truncates(op: Op) { op.Open? && op.flags.truncate }

  predicate LongName(op: Op) { op.Open? && |op.path| > MAX_FILE_NAME }

  lemma StepKeepsWF(fs: FS, fs': FS, op: Op)
    requires WF(fs) && Allowed(fs, op) && Step(fs, fs', op)
    ensures WF(fs')
  {
    hide Exclusive, AllCovered, Slot, Content, EntryNum, OpenEffect, OpenIsSafe, Stuck, Done, Progress;
    match op
    case Open(path, flags) =>
      var r, n, mid :| OpenEffect(fs, fs', path, flags, r, n, mid);
      OpenKeepsWFIff(fs, fs', path, flags, r, n, mid);
    case Write(h, buf) =>
      if ValidHandle(h) {
        var k: int :| Stuck(fs, fs', h, buf, k) || (k >= 0 && Done(fs, fs', h, buf, k));
        if Stuck(fs, fs', h, buf, k) { StuckEnds(fs, fs', h, buf, k); } else { WriteEnds(fs, fs', h, buf, k); }
      }
    case Read(h, len) =>
      if ValidHandle(h) {
        MovesAtMost(fs.handles[h].offset, Available(fs, h, len));
        MovedOnKeepsWF(fs, h, Moves(BLOCK_SIZE, fs.handles[h].offset, Available(fs, h, len)));
      }
    case Close(h) =>
      if ValidHandle(h) && fs.handleTaken[h] { ClosedKeepsWF(fs, h); }
  }

  lemma MovesAtMost(o: nat, n: nat)
    ensures Moves(BLOCK_SIZE, o, n) <= n
  {
  }

  /** Every state of every run is well formed: blocks exclusively owned, files covered by mapped blocks, entries and
      handles on live files, offsets within sizes, and the count of open files exact. */
  lemma {:induction false} RunsAreWF(trace: seq<FS>, ops: seq<Op>, i: nat)
    requires Run(trace, ops) && i < |trace|
    ensures WF(trace[i])
  {
    hide WF, Step, Allowed, Formatted;
    if i == 0 {
      FormattedIsWF(trace[0]);
    } else {
      RunsAreWF(trace, ops, i - 1);
      StepKeepsWF(trace[i - 1], trace[i], ops[i - 1]);
    }
  }

  lemma StepKeepsNoLeak(fs: FS, fs': FS, op: Op)
    requires WF(fs) && NoLeak(fs) && Allowed(fs, op) && Step(fs, fs', op) && !Truncates(op)
    ensures NoLeak(fs')
  {
    hide Exclusive, AllCovered, Slot, Content, EntryNum, NumsUnique, NoLeak, CreatedAndLinked, NotCreated;
    match op
    case Open(path, flags) =>
      var r, n, mid :| OpenEffect(fs, fs', path, flags, r, n, mid);
      OpenKeepsNoLeak(fs, fs', path, flags, r, n, mid);
    case Write(h, buf) =>
      if ValidHandle(h) {
        var k: int :| Stuck(fs, fs', h, buf, k) || (k >= 0 && Done(fs, fs', h, buf, k));
        GrowsKeepsNoLeak(fs, fs', fs.handles[h].inum);
      }
    case Read(h, len) =>
      if ValidHandle(h) { TableDoesNotShow(fs, fs'); }
    case Close(h) =>
      if ValidHandle(h) && fs.handleTaken[h] { ClosedKeepsWF(fs, h); }
  }

  lemma OpenKeepsNoLeak(fs: FS, fs': FS, path: CString, flags: Flags, r: int, n: int, mid: FS)
    requires WF(fs) && NoLeak(fs) && OpenEffect(fs, fs', path, flags, r, n, mid) && !flags.truncate
    ensures NoLeak(fs')
  {
    hide Slot, Content, EntryNum, NumsUnique, NoLeak, CreatedAndLinked, NotCreated;
    if ValidPath(path) {
      FoundIsFile(fs, FileName(path));
      if Find(Root(fs), FileName(path)) == NONE && flags.create {
        if n == NONE { NotCreatedKeepsWF(fs, mid); } else { CreateKeepsWF(fs, mid, n, FileName(path)); }
      }
      if r != NONE { TableDoesNotShow(mid, fs'); }
    }
  }

  /** Over runs without truncation the TAKEN blocks are exactly the owned ones. */
  lemma {:induction false} RunsLoseNoBlock(trace: seq<FS>, ops: seq<Op>, i: nat, b: int)
    requires Run(trace, ops) && i < |trace| && ValidBlock(b)
    requires forall op :: op in ops ==> !Truncates(op)
    ensures trace[i].blockTaken[b] <==> Held(trace[i], b)
  {
    RunsAreWF(trace, ops, i);
    RunsKeepNoLeak(trace, ops, i);
    hide Slot;
    if Held(trace[i], b) {
      var n, s :| Owns(trace[i], n, s) && Slot(trace[i], n, s) == b;
    }
  }

  lemma {:induction false} RunsKeepNoLeak(trace: seq<FS>, ops: seq<Op>, i: nat)
    requires Run(trace, ops) && i < |trace|
    requires forall op :: op in ops ==> !Truncates(op)
    ensures NoLeak(trace[i])
  {
    hide WF, NoLeak, Step, Allowed, Formatted;
    if i == 0 {
      FormattedIsWF(trace[0]);
    } else {
      RunsKeepNoLeak(trace, ops, i - 1);
      RunsAreWF(trace, ops, i - 1);
      StepKeepsNoLeak(trace[i - 1], trace[i], ops[i - 1]);
    }
  }

  lemma StepKeepsNames(fs: FS, fs': FS, op: Op)
    requires WF(fs) && NamesUnique(Root(fs)) && Allowed(fs, op) && Step(fs, fs', op) && !LongName(op)
    requires WF(fs')
    ensures NamesUnique(Root(fs'))
    ensures forall name :: Find(Root(fs), name) != NONE ==> Find(Root(fs'), name) == Find(Root(fs), name)
  {
    hide Exclusive, AllCovered, Slot, Content, EntryNum, NumsUnique, NamesUnique, Find, OpenEffect;
    match op
    case Open(path, flags) =>
      var r, n, mid :| OpenEffect(fs, fs', path, flags, r, n, mid);
      if Creates(fs, path, flags, n) {
        CreateKeepsNames(fs, fs', path, flags, r, n, mid);
      } else {
        OpenKeepsDirectory(fs, fs', path, flags, r, n, mid);
      }
    case Write(h, buf) =>
      assert Content(fs', ROOT_DIR_INUM) == Content(fs, ROOT_DIR_INUM);
    case Read(h, len) =>
      if ValidHandle(h) { TableDoesNotShow(fs, fs'); }
    case Close(h) =>
      if ValidHandle(h) && fs.handleTaken[h] { TableDoesNotShow(fs, fs'); }
  }

  /** Over runs with names of at most 39 bytes, no two entries ever answer to one name, and what a name stands for
      never changes once it stands for a file. */
  lemma {:induction false} RunsKeepNames(trace: seq<FS>, ops: seq<Op>, i: nat, j: nat, name: CString)
    requires Run(trace, ops) && i <= j < |trace|
    requires forall op :: op in ops ==> !LongName(op)
    ensures DirOk(trace[i]) && DirOk(trace[j]) && NamesUnique(Root(trace[j]))
    ensures Find(Root(trace[i]), name) != NONE ==> Find(Root(trace[j]), name) == Find(Root(trace[i]), name)
  {
    hide Step, Allowed, Find, NamesUnique, Content;
    RunsAreWF(trace, ops, i);
    RunsAreWF(trace, ops, j);
    if j == 0 {
      FormattedIsWF(trace[0]);
    } else {
      RunsAreWF(trace, ops, j - 1);
      RunsKeepNames(trace, ops, if i == j then i - 1 else i, j - 1, name);
      StepKeepsNames(trace[j - 1], trace[j], ops[j - 1]);
    }
  }
}
