/** What remote clients are answered to opens, closes and shutdowns, said without the functions of the server. */
module RemoteOutcome {
  import opened Config
  import opened Bytes
  import opened Disk
  import opened Directory
  import opened Files
  import opened Invariant
  import opened FirstFit
  import opened Opening
  import opened OpenOutcome
  import opened Truncation
  import opened Formatting
  import opened SingleBlock
  import opened LocalOutcome
  import opened RemoteFiles
  import P = Protocol
  import H = Handshake
  import R = Remote

  /** The file system before and after operation j on record. */
  ghost function Before(fs0: FS, log: Log, j: nat): FS
    requires j <= |log|
  {
    R.Fold(FileService(), fs0, log[..j])
  }

  // ---------------------------------------------------------------- opens

  /** The open of the file called name, as parte-2 answers it. */
  ghost predicate OpenAnswered(fs: FS, fs': FS, path: CString, flags: Flags, name: CString, r: int)
    requires RootOk(fs)
  {
    if path != [] && path[0] == SLASH && name != [] && Find(Root(fs), name) != NONE
    then OpensFile(fs, fs', Find(Root(fs), name), flags, r)
    else if flags.create then Creates(fs, fs', name, r)
    else r == -1 && fs' == fs
  }

  /** What a remote open is answered, and what it does: with -1 and nothing if it came past destruction; otherwise what an open
      of the rest of its path does to the files as the earlier operations left them. */
  lemma RemoteOpen(fs0: FS, run: Run, acts: Acts, k: nat, j: nat)
    requires P.Run(FileService(), fs0, run, acts) && k < |run| && Formatted(fs0) && AllowedLog(fs0, run[k].log)
    requires j < |run[k].log| && run[k].log[j].req.Do? && run[k].log[j].req.op.OpenOp?
    ensures var e := run[k].log[j];
            var (fs, fs', path) := (Before(fs0, run[k].log, j), Before(fs0, run[k].log, j + 1), e.req.op.path);
            && e.ans.Result? && e.ans.r.bytes == []
            && (e.ran ==> RootOk(fs) && forall name: CString :: name == (if path == [] then [] else path[1..]) ==>
                  OpenAnswered(fs, fs', path, e.req.op.flags, name, e.ans.r.r))
            && (!e.ran ==> e.ans.r.r == -1 && fs' == fs && R.Destroyed(run[k].log[..j]))
  {
    hide SmallWF, AllowedLog, Formatted, LocalExec, OpenAnswered, LocallyAllowed, R.Destroyed, RootOk;
    if run[k].log[j].ran {
      OpenRanThere(fs0, run, acts, k, j);
    } else {
      R.RunIsSerial(FileService(), fs0, run, acts, k);
      assert R.ResultMatches(FileService(), fs0, run[k].log[..j], run[k].log[j]);
      assert run[k].log[..j + 1][..j] == run[k].log[..j];
      RefusedAnswer(run[k].log[j].req.op);
    }
  }

  lemma OpenRanThere(fs0: FS, run: Run, acts: Acts, k: nat, j: nat)
    requires P.Run(FileService(), fs0, run, acts) && k < |run| && Formatted(fs0) && AllowedLog(fs0, run[k].log)
    requires j < |run[k].log| && run[k].log[j].req.Do? && run[k].log[j].req.op.OpenOp? && run[k].log[j].ran
    ensures var e := run[k].log[j];
            var (fs, fs', path) := (Before(fs0, run[k].log, j), Before(fs0, run[k].log, j + 1), e.req.op.path);
            && e.ans.Result? && e.ans.r.bytes == [] && RootOk(fs)
            && forall name: CString :: name == (if path == [] then [] else path[1..]) ==>
                 OpenAnswered(fs, fs', path, e.req.op.flags, name, e.ans.r.r)
  {
    hide SmallWF, AllowedLog, Formatted, LocalExec, OpenAnswered, LocallyAllowed, RootOk, LocalOpen;
    var (log, e) := (run[k].log, run[k].log[j]);
    RanThere(fs0, run, acts, k, j);
    OpenIsAnswered(Before(fs0, log, j), e.req.op.path, e.req.op.flags);
    OpenIsRun(Before(fs0, log, j), e.req.op.path, e.req.op.flags);
  }

  lemma OpenIsAnswered(fs: FS, path: CString, flags: Flags)
    requires SmallWF(fs)
    ensures RootOk(fs)
    ensures forall name: CString :: name == (if path == [] then [] else path[1..]) ==>
              OpenAnswered(fs, LocalOpen(fs, path, flags).0, path, flags, name, LocalOpen(fs, path, flags).1)
  {
    hide LocalOpen, OpensFile, Creates, Find, Content, Exclusive, AllCovered, HandlesOk, CountOk, Small, NumsUnique, EntryNum;
    forall name: CString | name == (if path == [] then [] else path[1..])
      ensures OpenAnswered(fs, LocalOpen(fs, path, flags).0, path, flags, name, LocalOpen(fs, path, flags).1)
    {
      if path != [] && path[0] == SLASH && name != [] && Find(Root(fs), name) != NONE {
        LocalOpenFinds(fs, path, flags, name);
      } else {
        LocalOpenMakes(fs, path, flags, name);
      }
    }
  }

  lemma OpenIsRun(fs: FS, path: CString, flags: Flags)
    ensures LocalExec(fs, OpenOp(path, flags)) == (LocalOpen(fs, path, flags).0, FileRes(LocalOpen(fs, path, flags).1, []))
  {
    hide LocalOpen;
  }

  lemma RefusedAnswer(op: FileOp)
    ensures FileService().refusal(op) == FileRes(-1, [])
    ensures FileService().checked(op) <==> op.OpenOp?
  {
  }

  // ---------------------------------------------------------------- closes

  /** A remote close of an open handle is answered with 0, frees its entry, and no other, and counts it out; any other is answered
      with -1 and changes nothing. No close is refused. */
  lemma RemoteClose(fs0: FS, run: Run, acts: Acts, k: nat, j: nat)
    requires P.Run(FileService(), fs0, run, acts) && k < |run| && Formatted(fs0) && AllowedLog(fs0, run[k].log)
    requires j < |run[k].log| && run[k].log[j].req.Do? && run[k].log[j].req.op.CloseOp?
    ensures var e := run[k].log[j];
            var (fs, fs', h) := (Before(fs0, run[k].log, j), Before(fs0, run[k].log, j + 1), e.req.op.h);
            && e.ran && e.ans.Result? && e.ans.r.bytes == []
            && (e.ans.r.r == 0 <==> ValidHandle(h) && fs.handleTaken[h])
            && (e.ans.r.r == 0 ==>
                  && fs'.handleTaken == fs.handleTaken[h := false] && fs'.openCount == fs.openCount - 1
                  && fs'.handles == fs.handles && OthersSame(fs, fs', {})
                  && RootOk(fs) && RootOk(fs') && Root(fs') == Root(fs))
            && (e.ans.r.r != 0 ==> e.ans.r.r == -1 && fs' == fs)
  {
    hide AllowedLog, Formatted, LocallyAllowed, LocalOpen, LocalRead, LocalWrite, LocalClose, Content, Exclusive, AllCovered,
         HandlesOk, CountOk, Small, NumsUnique, EntryNum, RootOk;
    RanInOrder(fs0, run, acts, k, j);
    SmallRootOk(Before(fs0, run[k].log, j));
    CloseFreesLocally(Before(fs0, run[k].log, j), run[k].log[j].req.op.h);
  }

  lemma SmallRootOk(fs: FS)
    requires SmallWF(fs)
    ensures RootOk(fs)
  {
  }

  // ---------------------------------------------------------------- shutdown, and opens after it

  lemma {:induction false} CountNothing(s: seq<bool>)
    requires CountTrue(s) == 0
    ensures forall h :: 0 <= h < |s| ==> !s[h]
  {
    if s != [] { CountNothing(s[..|s| - 1]); }
  }

  /** The server may destroy the file system exactly when no handle is open. */
  lemma QuietIff(fs: FS)
    requires SmallWF(fs)
    ensures FileService().quiet(fs) <==> forall h :: 0 <= h < |fs.handleTaken| ==> !fs.handleTaken[h]
  {
    hide Exclusive, AllCovered, DirOk, HandlesOk, Small;
    if fs.openCount == 0 { CountNothing(fs.handleTaken); }
    if forall h :: 0 <= h < |fs.handleTaken| ==> !fs.handleTaken[h] { CountNone(fs.handleTaken); }
  }

  /** A shutdown that is answered with Ok found no open handle, and is the only one that is so answered. */
  lemma RemoteShutdown(fs0: FS, run: Run, acts: Acts, k: nat, j: nat)
    requires P.Run(FileService(), fs0, run, acts) && k < |run| && Formatted(fs0) && AllowedLog(fs0, run[k].log)
    requires j < |run[k].log| && run[k].log[j].req.Shutdown? && run[k].log[j].ans.Ok?
    ensures forall h :: ValidHandle(h) ==> !Before(fs0, run[k].log, j).handleTaken[h]
    ensures forall l :: 0 <= l < |run[k].log| && l != j ==> !(run[k].log[l].req.Shutdown? && run[k].log[l].ans.Ok?)
  {
    hide SmallWF, AllowedLog, Formatted, P.Run, FileService, R.Fold;
    R.DestructionWasQuiet(FileService(), fs0, run, acts, k, j);
    PrefixAllowed(fs0, run[k].log, j);
    FoldKeepsSmall(fs0, run[k].log[..j]);
    QuietIff(Before(fs0, run[k].log, j));
    forall l | 0 <= l < |run[k].log| && l != j ensures !(run[k].log[l].req.Shutdown? && run[k].log[l].ans.Ok?) {
      if R.IsDestruction(run[k].log[l]) { R.OneDestruction(FileService(), fs0, run, acts, k, j, l); }
    }
  }

  /** A worker that waits to shut the server down can go on exactly when no handle is open. */
  lemma ShutdownGoesOnIff(fs0: FS, run: Run, acts: Acts, k: nat, i: nat)
    requires P.Run(FileService(), fs0, run, acts) && k < |run| && Formatted(fs0) && AllowedLog(fs0, run[k].log)
    requires i < |run[k].slots| && run[k].slots[i].worker.ShutdownWait? && !run[k].halted
    ensures P.Can(FileService(), run[k], P.Work(i)) <==> forall h :: ValidHandle(h) ==> !run[k].fs.handleTaken[h]
  {
    hide SmallWF, AllowedLog, Formatted, P.Run, LocalExec;
    RemoteFilesAreWF(fs0, run, acts, k);
    QuietIff(run[k].fs);
  }

  /** The file system is destroyed, and no worker has an open that it is about to run. */
  ghost predicate Over(s: P.State<FS, FileOp, FileRes>) {
    && R.Destroyed(s.log)
    && forall i :: 0 <= i < |s.slots| && (s.slots[i].worker.WantGlobal? || s.slots[i].worker.Running?)
                   && s.slots[i].buffer.Some? ==>
         !(s.slots[i].buffer.value.req.Do? && s.slots[i].buffer.value.req.op.OpenOp?)
  }

  /** From then on every open that goes on record is answered with -1 and changes nothing. */
  lemma OpensAfterDestruction(fs0: FS, run: Run, acts: Acts, i: nat, k: nat, j: nat)
    requires P.Run(FileService(), fs0, run, acts) && i <= k < |run| && Over(run[i])
    requires |run[i].log| <= j < |run[k].log| && run[k].log[j].req.Do? && run[k].log[j].req.op.OpenOp?
    ensures run[k].log[j].ans == P.Result(FileRes(-1, []))
    ensures Before(fs0, run[k].log, j + 1) == Before(fs0, run[k].log, j)
  {
    hide LocalExec, R.Destroyed, P.Run, R.ResultsMatch;
    R.RunIsSerial(FileService(), fs0, run, acts, i);
    R.LateOpensAreRefused(FileService(), fs0, run, acts, i, k, j);
    var log := run[k].log;
    assert log[..j + 1][..j] == log[..j];
  }
}
