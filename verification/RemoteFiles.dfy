/** The protocol over the file system it serves: what remote clients see of their files. */
module RemoteFiles {
  import opened Config
  import opened Bytes
  import opened Disk
  import opened Directory
  import opened Files
  import opened Invariant
  import opened FirstFit
  import opened ReadLoop
  import opened Tables
  import opened Truncation
  import opened Opening
  import opened Formatting
  import opened SingleBlock
  import W = Wire
  import Pipes
  import P = Protocol
  import H = Handshake
  import R = Remote

  /** What clients may ask of the file system. */
  datatype FileOp =
    | OpenOp(path: CString, flags: Flags)
    | WriteOp(h: Int32, buf: seq<Byte>)
    | ReadOp(h: Int32, len: W.Size)
    | CloseOp(h: Int32)

  datatype FileRes = FileRes(r: int, bytes: seq<Byte>)

  /** One operation under single_global_lock. */
  ghost function LocalExec(fs: FS, op: FileOp): (FS, FileRes) {
    match op
    case OpenOp(path, flags) => var (fs', r) := LocalOpen(fs, path, flags); (fs', FileRes(r, []))
    case WriteOp(h, buf) => var (fs', r) := LocalWrite(fs, h, buf); (fs', FileRes(r, []))
    case ReadOp(h, len) => var (fs', r, bytes) := LocalRead(fs, h, len); (fs', FileRes(r, bytes))
    case CloseOp(h) => var (fs', r) := LocalClose(fs, h); (fs', FileRes(r, []))
  }

  predicate Quiet(fs: FS) {
    fs.openCount == 0
  }

  /** What tfs_open answers once open_flag is 0. */
  function RefusedOpen(op: FileOp): FileRes {
    FileRes(NONE, [])
  }

  predicate LooksAtFlag(op: FileOp) {
    op.OpenOp?
  }

  /** The call takes its reply out of the pipe as it was sent: a read takes the bytes after the result, all others the result. */
  predicate TakesReply(op: FileOp, res: FileRes) {
    op.ReadOp? && (res.r == NONE || 0 <= res.r == |res.bytes| <= Pipes.SSIZE_MAX) ==> Pipes.TakenWhole(res.r, res.bytes, op.len)
  }

  type Server = P.Service<FS, FileOp, FileRes>

  ghost function FileService(): Server {
    P.Service(LocalExec, Quiet, LooksAtFlag, RefusedOpen, TakesReply)
  }

  /** What the code leaves to its callers: handles on live files, inside them, and no truncation under an open one past
      the start. */
  ghost predicate LocallyAllowed(fs: FS, op: FileOp) {
    match op
    case OpenOp(path, flags) => RootOk(fs) && LocallySafe(fs, path, flags)
    case WriteOp(h, buf) => ValidHandle(h) ==> Usable(fs, h)
    case ReadOp(h, len) => ValidHandle(h) ==> Usable(fs, h)
    case CloseOp(h) => true
  }

  type Log = seq<P.Entry<FileOp, FileRes>>

  type Run = seq<P.State<FS, FileOp, FileRes>>
  type Acts = seq<P.Action<FileOp>>

  /** Every operation that was run was allowed at its moment. */
  ghost predicate AllowedLog(fs0: FS, log: Log) {
    forall k {:trigger log[k]} :: 0 <= k < |log| && log[k].req.Do? && log[k].ran ==>
      LocallyAllowed(R.Fold(FileService(), fs0, log[..k]), log[k].req.op)
  }

  lemma CloseKeepsSmall(fs: FS, h: int)
    requires SmallWF(fs)
    ensures SmallWF(LocalClose(fs, h).0)
  {
    if ValidHandle(h) && fs.handleTaken[h] {
      ClosedKeepsWF(fs, h);
      hide WF;
      assert forall m :: IsFile(Closed(fs, h), m) == IsFile(fs, m);
    }
  }

  /** An allowed operation leaves the file system well formed. */
  lemma ExecKeepsSmall(fs: FS, op: FileOp)
    requires SmallWF(fs) && LocallyAllowed(fs, op)
    ensures SmallWF(LocalExec(fs, op).0)
  {
    hide SmallWF, LocalOpen, LocalWrite, LocalRead, LocallySafe, RootOk;
    match op
    case OpenOp(path, flags) => OpenStaysSmall(fs, path, flags);
    case WriteOp(h, buf) => if ValidHandle(h) { WriteSplicesLocally(fs, h, buf); } else { NoHandle(fs, h, buf, 0); }
    case ReadOp(h, len) => if ValidHandle(h) { ReadSlicesLocally(fs, h, len); } else { NoHandle(fs, h, [], len); }
    case CloseOp(h) => CloseKeepsSmall(fs, h);
  }

  lemma NoHandle(fs: FS, h: int, buf: seq<Byte>, len: nat)
    requires !ValidHandle(h)
    ensures LocalWrite(fs, h, buf) == (fs, NONE) && LocalRead(fs, h, len) == (fs, NONE, [])
  {
  }

  lemma FormattedIsSmall(fs: FS)
    requires Formatted(fs)
    ensures SmallWF(fs)
  {
    FormattedIsWF(fs);
  }

  lemma {:induction false} FoldKeepsSmall(fs0: FS, log: Log)
    requires Formatted(fs0) && AllowedLog(fs0, log)
    ensures SmallWF(R.Fold(FileService(), fs0, log))
  {
    hide SmallWF, LocalExec, LocallyAllowed, Formatted;
    if log == [] {
      FormattedIsSmall(fs0);
    } else {
      var k := |log| - 1;
      PrefixAllowed(fs0, log, k);
      FoldKeepsSmall(fs0, log[..k]);
      if log[k].req.Do? && log[k].ran { ExecKeepsSmall(R.Fold(FileService(), fs0, log[..k]), log[k].req.op); }
    }
  }

  lemma PrefixAllowed(fs0: FS, log: Log, k: nat)
    requires AllowedLog(fs0, log) && k <= |log|
    ensures AllowedLog(fs0, log[..k])
  {
    hide LocallyAllowed, LocalExec, FileService;
    forall j | 0 <= j < k && log[..k][j].req.Do? && log[..k][j].ran
      ensures LocallyAllowed(R.Fold(FileService(), fs0, log[..k][..j]), log[..k][j].req.op)
    {
      assert log[..k][..j] == log[..j] && log[..k][j] == log[j];
    }
  }

  /** Whatever remote clients do within what the code leaves to them, the file system is well formed at every moment: it is
      what the operations that were run leave when done one after the other. */
  lemma RemoteFilesAreWF(fs0: FS, run: Run, acts: Acts, k: nat)
    requires P.Run(FileService(), fs0, run, acts) && k < |run| && Formatted(fs0) && AllowedLog(fs0, run[k].log)
    ensures SmallWF(run[k].fs) && run[k].fs == R.Fold(FileService(), fs0, run[k].log)
  {
    hide SmallWF, LocalExec, AllowedLog, Formatted, FileService;
    R.RunIsSerial(FileService(), fs0, run, acts, k);
    FoldKeepsSmall(fs0, run[k].log);
  }

  /** The state in which operation j on record was run, and its result there. */
  lemma RanThere(fs0: FS, run: Run, acts: Acts, k: nat, j: nat)
    requires P.Run(FileService(), fs0, run, acts) && k < |run| && Formatted(fs0) && AllowedLog(fs0, run[k].log)
    requires j < |run[k].log| && run[k].log[j].req.Do? && run[k].log[j].ran
    ensures var e := run[k].log[j];
            var fs := R.Fold(FileService(), fs0, run[k].log[..j]);
            && SmallWF(fs) && LocallyAllowed(fs, e.req.op) && e.ans == P.Result(LocalExec(fs, e.req.op).1)
            && R.Fold(FileService(), fs0, run[k].log[..j + 1]) == LocalExec(fs, e.req.op).0
  {
    hide SmallWF, AllowedLog, Formatted, LocalExec, LocallyAllowed, R.Destroyed;
    R.RunIsSerial(FileService(), fs0, run, acts, k);
    var log := run[k].log;
    assert R.ResultMatches(FileService(), fs0, log[..j], log[j]);
    PrefixAllowed(fs0, log, j);
    FoldKeepsSmall(fs0, log[..j]);
    AllowedAt(fs0, log, j);
    assert log[..j + 1][..j] == log[..j];
  }

  /** All operations but opens are run, in the state that the record before them leaves. */
  lemma RanInOrder(fs0: FS, run: Run, acts: Acts, k: nat, j: nat)
    requires P.Run(FileService(), fs0, run, acts) && k < |run| && Formatted(fs0) && AllowedLog(fs0, run[k].log)
    requires j < |run[k].log| && run[k].log[j].req.Do? && !run[k].log[j].req.op.OpenOp?
    ensures var e := run[k].log[j];
            var fs := R.Fold(FileService(), fs0, run[k].log[..j]);
            && SmallWF(fs) && e.ran && LocallyAllowed(fs, e.req.op) && e.ans == P.Result(LocalExec(fs, e.req.op).1)
            && R.Fold(FileService(), fs0, run[k].log[..j + 1]) == LocalExec(fs, e.req.op).0
  {
    hide SmallWF, AllowedLog, Formatted, LocalExec, LocallyAllowed, R.Destroyed;
    R.RunIsSerial(FileService(), fs0, run, acts, k);
    assert R.ResultMatches(FileService(), fs0, run[k].log[..j], run[k].log[j]);
    RanThere(fs0, run, acts, k, j);
  }

  lemma AllowedAt(fs0: FS, log: Log, j: nat)
    requires AllowedLog(fs0, log) && j < |log| && log[j].req.Do? && log[j].ran
    ensures LocallyAllowed(R.Fold(FileService(), fs0, log[..j]), log[j].req.op)
  {
    hide LocallyAllowed, LocalExec;
  }

  /** The answer of a remote read is the rest of the file at its offset, cut at the length asked, in the file system as it was
      after the operations on record before it. */
  lemma RemoteReadIsSlice(fs0: FS, run: Run, acts: Acts, k: nat, j: nat)
    requires P.Run(FileService(), fs0, run, acts) && k < |run| && Formatted(fs0) && AllowedLog(fs0, run[k].log)
    requires j < |run[k].log| && run[k].log[j].req.Do? && run[k].log[j].req.op.ReadOp? && ValidHandle(run[k].log[j].req.op.h)
    ensures var e := run[k].log[j];
            var fs := R.Fold(FileService(), fs0, run[k].log[..j]);
            var f := fs.handles[e.req.op.h];
            var c := Content(fs, f.inum);
            && e.ran && e.ans.Result? && f.offset <= |c|
            && e.ans.r.r == (if |c| - f.offset > e.req.op.len then e.req.op.len else |c| - f.offset)
            && e.ans.r.bytes == c[f.offset..f.offset + e.ans.r.r]
            && R.Fold(FileService(), fs0, run[k].log[..j + 1]) ==
                 fs.(handles := fs.handles[e.req.op.h := OpenFile(f.inum, f.offset + e.ans.r.r)])
  {
    hide SmallWF, AllowedLog, Formatted, Content, LocalRead, LocalOpen, LocalWrite;
    RanInOrder(fs0, run, acts, k, j);
    var e := run[k].log[j];
    ReadSlicesLocally(R.Fold(FileService(), fs0, run[k].log[..j]), e.req.op.h, e.req.op.len);
  }

  /** A remote write puts in all of its bytes that fit the block of the file and answers how many; it fails, and changes nothing,
      exactly when there is a byte to put in, the file is empty and no block is FREE. */
  lemma RemoteWriteIsSplice(fs0: FS, run: Run, acts: Acts, k: nat, j: nat)
    requires P.Run(FileService(), fs0, run, acts) && k < |run| && Formatted(fs0) && AllowedLog(fs0, run[k].log)
    requires j < |run[k].log| && run[k].log[j].req.Do? && run[k].log[j].req.op.WriteOp? && ValidHandle(run[k].log[j].req.op.h)
    ensures var e := run[k].log[j];
            var fs := R.Fold(FileService(), fs0, run[k].log[..j]);
            var fs' := R.Fold(FileService(), fs0, run[k].log[..j + 1]);
            var (f, buf) := (fs.handles[e.req.op.h], e.req.op.buf);
            var c := Content(fs, f.inum);
            && e.ran && e.ans.Result? && e.ans.r.bytes == [] && f.offset <= |c| <= BLOCK_SIZE
            && var r := e.ans.r.r;
               && (r == NONE <==> |buf| > 0 && f.offset < BLOCK_SIZE && c == [] && Full(fs.blockTaken))
               && (r == NONE ==> fs' == fs)
               && (r != NONE ==>
                     && r == (if f.offset + |buf| <= BLOCK_SIZE then |buf| else BLOCK_SIZE - f.offset)
                     && Content(fs', f.inum) == Splice(c, f.offset, buf[..r])
                     && OthersSame(fs, fs', {f.inum}) && fs'.inodeTaken == fs.inodeTaken
                     && fs'.handles == fs.handles[e.req.op.h := OpenFile(f.inum, f.offset + r)]
                     && fs'.handleTaken == fs.handleTaken && fs'.openCount == fs.openCount)
  {
    hide AllowedLog, Formatted, Content, LocalRead, LocalOpen, LocalWrite, Exclusive, AllCovered, Slot, DirOk, Small,
         CountOk, Splice;
    RanInOrder(fs0, run, acts, k, j);
    var e := run[k].log[j];
    WriteSplicesLocally(R.Fold(FileService(), fs0, run[k].log[..j]), e.req.op.h, e.req.op.buf);
  }

  // ---------------------------------------------------------------- which reads are heard

  /** What a read answers, whatever its handle: no more bytes than asked for, and -1 only without a valid handle. */
  lemma ReadAnswer(fs: FS, h: Int32, len: W.Size)
    requires SmallWF(fs) && LocallyAllowed(fs, ReadOp(h, len))
    ensures var (fs', r, bytes) := LocalRead(fs, h, len);
            r <= len && if ValidHandle(h) then 0 <= r == |bytes| <= BLOCK_SIZE else r == NONE && bytes == []
  {
    hide SmallWF, LocalRead;
    if ValidHandle(h) {
      ReadSlicesLocally(fs, h, len);
      ContentIsSmall(fs, h);
    } else {
      NoHandle(fs, h, [], len);
    }
  }

  lemma ContentIsSmall(fs: FS, h: int)
    requires SmallWF(fs) && Usable(fs, h)
    ensures |Content(fs, fs.handles[h].inum)| <= BLOCK_SIZE
  {
    hide Content, DirOk, Exclusive, AllCovered, CountOk;
    OffsetFits(fs, h);
    assert |Content(fs, fs.handles[h].inum)| == fs.inodes[fs.handles[h].inum].size;
  }

  /** The last request of client c on record, when its answer is the last one that c has not heard. */
  lemma {:induction false} LastOnRecord(log: Log, c: nat) returns (j: nat)
    requires H.Answers(log, c) != []
    ensures j < |log| && log[j].client == c
    ensures var reqs, anss := H.Requests(log, c), H.Answers(log, c);
            |reqs| == |anss| && log[j].req == reqs[|reqs| - 1] && log[j].ans == anss[|anss| - 1]
  {
    var e := log[|log| - 1];
    R.AsManyAnswers(log, c);
    if e.client == c { j := |log| - 1; } else { j := LastOnRecord(log[..|log| - 1], c); }
  }

  /** A read whose answer is out is the last request of its client on record. */
  lemma AnswerOnRecord(fs0: FS, run: Run, acts: Acts, k: nat, c: nat) returns (j: nat)
    requires P.Run(FileService(), fs0, run, acts) && k < |run| && Replied(run[k], c)
    ensures j < |run[k].log| && run[k].log[j].client == c
    ensures run[k].log[j].req == run[k].clients[c].phase.req && run[k].clients[c].inbox == [run[k].log[j].ans]
  {
    H.RunKeepsInv(FileService(), fs0, run, acts, k);
    hide P.Run, H.PipeOk, H.RecvOk, H.SlotsOk, H.GlobalOk, H.ShutdownOk, H.Requests, H.Answers;
    var s := run[k];
    assert H.ClientOk(s, c) && H.HistoryOk(s, c);
    j := LastOnRecord(s.log, c);
  }

  /** The reply to client c is out, and it waits for it. */
  predicate Replied(s: P.State<FS, FileOp, FileRes>, c: nat) {
    c < |s.clients| && s.clients[c].phase.Waiting? && s.clients[c].phase.where.Replied?
  }

  /** A client whose read was answered can hear the answer exactly when it brings a byte, or none was asked for; or, for the -1 of
      an invalid handle, when at least four bytes were asked for. */
  lemma ReadIsHeardIff(fs0: FS, run: Run, acts: Acts, k: nat, c: nat)
    requires P.Run(FileService(), fs0, run, acts) && k < |run| && Formatted(fs0) && AllowedLog(fs0, run[k].log)
    requires Replied(run[k], c) && run[k].clients[c].phase.req.Do? && run[k].clients[c].phase.req.op.ReadOp?
    ensures var cl := run[k].clients[c];
            && cl.inbox != [] && cl.inbox[0].Result?
            && var (op, r) := (cl.phase.req.op, cl.inbox[0].r.r);
               && (P.CanHear(FileService(), run[k], c) <==> if ValidHandle(op.h) then r > 0 || op.len == 0 else op.len >= 4)
               && (ValidHandle(op.h) ==> 0 <= r) && (!ValidHandle(op.h) ==> r == NONE)
  {
    hide SmallWF, AllowedLog, Formatted, LocalRead, LocalOpen, LocalWrite, P.Run, LocallyAllowed, Pipes.TakenWhole;
    var op := run[k].clients[c].phase.req.op;
    var j := AnswerOnRecord(fs0, run, acts, k, c);
    RanInOrder(fs0, run, acts, k, j);
    var fs := R.Fold(FileService(), fs0, run[k].log[..j]);
    ReadAnswer(fs, op.h, op.len);
    R.HeardIffFramed(FileService(), fs0, run, acts, k, c);
    var (fs', r, bytes) := LocalRead(fs, op.h, op.len);
    Pipes.ReadReplyIsFramed(r, bytes, op.len);
  }

  /** A client that reads at the end of its file, and asks for at least one byte, waits for ever once it is answered. */
  lemma ReadAtEndWaitsForEver(fs0: FS, run: Run, acts: Acts, k: nat, j: nat, c: nat)
    requires P.Run(FileService(), fs0, run, acts) && k <= j < |run| && Formatted(fs0) && AllowedLog(fs0, run[k].log)
    requires Replied(run[k], c) && run[k].clients[c].phase.req.Do? && run[k].clients[c].phase.req.op.ReadOp?
    requires var op := run[k].clients[c].phase.req.op; ValidHandle(op.h) && op.len > 0
    requires var inbox := run[k].clients[c].inbox; inbox != [] && inbox[0] == P.Result(FileRes(0, []))
    ensures c < |run[j].clients| && run[j].clients[c] == run[k].clients[c] && !P.CanHear(FileService(), run[j], c)
  {
    hide SmallWF, AllowedLog, Formatted, LocalRead, LocalOpen, LocalWrite, P.Run, LocallyAllowed, Pipes.TakenWhole;
    ReadIsHeardIff(fs0, run, acts, k, c);
    R.HeardIffFramed(FileService(), fs0, run, acts, k, c);
    var i := AnswerOnRecord(fs0, run, acts, k, c);
    assert R.Deaf(FileService(), run[k], c);
    R.UnframedWaitsForEver(FileService(), fs0, run, acts, k, j, c);
  }
}
