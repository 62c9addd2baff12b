/** Remote execution: every run of clients, receiver and workers is a serial run of the requested operations. */
module Remote {
  import opened Options
  import opened Protocol
  import opened Handshake

  // ---------------------------------------------------------------- the serial run

  /** The file system after the operations on record that were run, one after the other. */
  function Fold<S, O, R>(m: Service<S, O, R>, fs0: S, log: seq<Entry<O, R>>): S {
    if log == [] then fs0
    else
      var fs := Fold(m, fs0, log[..|log| - 1]);
      var e := log[|log| - 1];
      if e.req.Do? && e.ran then m.exec(fs, e.req.op).0 else fs
  }

  /** The file system has been destroyed: a shutdown that was not refused is on record. */
  ghost predicate Destroyed<O, R>(log: seq<Entry<O, R>>) {
    exists k :: 0 <= k < |log| && IsDestruction(log[k])
  }

  predicate IsDestruction<O, R>(e: Entry<O, R>) {
    e.req.Shutdown? && e.ans.Ok?
  }

  /** Every operation on record has the result that it has in the serial run, or was refused after destruction. */
  ghost predicate ResultsMatch<S, O, R>(m: Service<S, O, R>, fs0: S, log: seq<Entry<O, R>>) {
    forall k {:trigger log[k]} :: 0 <= k < |log| && log[k].req.Do? ==> ResultMatches(m, fs0, log[..k], log[k])
  }

  ghost predicate ResultMatches<S, O, R>(m: Service<S, O, R>, fs0: S, log: seq<Entry<O, R>>, e: Entry<O, R>) {
    e.req.Do? ==>
      if e.ran then e.ans == Result(m.exec(Fold(m, fs0, log), e.req.op).1)
      else Destroyed(log) && m.checked(e.req.op) && e.ans == Result(m.refusal(e.req.op))
  }

  lemma FoldGrows<S, O, R>(m: Service<S, O, R>, fs0: S, log: seq<Entry<O, R>>, e: Entry<O, R>)
    requires ResultsMatch(m, fs0, log) && ResultMatches(m, fs0, log, e)
    ensures ResultsMatch(m, fs0, log + [e])
    ensures Fold(m, fs0, log + [e]) == if e.req.Do? && e.ran then m.exec(Fold(m, fs0, log), e.req.op).0 else Fold(m, fs0, log)
    ensures Destroyed(log + [e]) <==> Destroyed(log) || IsDestruction(e)
  {
    var log' := log + [e];
    assert log'[..|log'| - 1] == log;
    assert log'[|log|] == e;
    forall k | 0 <= k < |log'| && log'[k].req.Do? ensures ResultMatches(m, fs0, log'[..k], log'[k]) {
      assert log'[..k] == log[..k];
      if k == |log| { assert log[..k] == log; }
    }
    if Destroyed(log) {
      var k :| 0 <= k < |log| && IsDestruction(log[k]);
      assert log'[k] == log[k];
    }
  }

  ghost predicate Serial<S, O, R>(m: Service<S, O, R>, fs0: S, s: State<S, O, R>) {
    s.fs == Fold(m, fs0, s.log) && ResultsMatch(m, fs0, s.log) && (s.flag <==> !Destroyed(s.log))
  }

  /** What the step of a worker that is not running an operation puts on record. */
  function Noted<S, O, R>(m: Service<S, O, R>, s: State<S, O, R>, i: nat): (r: seq<Entry<O, R>>)
    requires i < |s.slots|
    ensures |r| <= 1 && forall e :: e in r ==> !e.ran
  {
    var w := s.slots[i];
    if w.worker.Begin? && w.buffer.Some? then NotedAtBegin(m, s, i)
    else if w.worker.ShutdownWait? && w.tx.Some? then [Entry(w.tx.value, Shutdown, Ok, false)]
    else []
  }

  function NotedAtBegin<S, O, R>(m: Service<S, O, R>, s: State<S, O, R>, i: nat): (r: seq<Entry<O, R>>)
    requires i < |s.slots| && s.slots[i].buffer.Some?
    ensures |r| <= 1 && forall e :: e in r ==> !e.ran && !IsDestruction(e)
    ensures forall e :: e in r && e.req.Do? ==> !s.flag && m.checked(e.req.op) && e.ans == Result(m.refusal(e.req.op))
  {
    var w := s.slots[i];
    match w.buffer.value.req
    case Mount => [Entry(w.buffer.value.client, Mount, Session(i + 1), false)]
    case Unmount => if w.tx.Some? then [Entry(w.tx.value, Unmount, Ok, false)] else []
    case Shutdown => if w.tx.Some? && s.shutdownCalled then [Entry(w.tx.value, Shutdown, Refused, false)] else []
    case Do(op) =>
      if w.tx.Some? && Refuses(m, s, Do(op)) then [Entry(w.tx.value, Do(op), Result(m.refusal(op)), false)] else []
  }

  lemma OtherWorkIsNoted<S, O, R>(m: Service<S, O, R>, s: State<S, O, R>, i: nat)
    requires i < |s.slots| && !s.slots[i].worker.Running?
    ensures var s' := WorkAfter(m, s, i);
            s'.log == s.log + Noted(m, s, i) && s'.fs == s.fs && s'.flag == (s.flag && !s.slots[i].worker.ShutdownWait?)
  {
    hide BeginAfter, NotedAtBegin, DestroyAfter, RunAfter, Reply;
    assert s.log + [] == s.log;
    if s.slots[i].worker.Begin? { BeginIsNoted(m, s, i); }
    if s.slots[i].worker.ShutdownWait? { DestroyIsNoted(s, i); }
  }

  lemma DestroyIsNoted<S, O, R>(s: State<S, O, R>, i: nat)
    requires i < |s.slots|
    ensures var s' := DestroyAfter(s, i);
            && s'.log == s.log + (if s.slots[i].tx.Some? then [Entry(s.slots[i].tx.value, Shutdown, Ok, false)] else [])
            && s'.fs == s.fs && !s'.flag
  {
    assert s.log + [] == s.log;
  }

  lemma BeginIsNoted<S, O, R>(m: Service<S, O, R>, s: State<S, O, R>, i: nat)
    requires i < |s.slots| && s.slots[i].worker.Begin?
    ensures BeginAfter(m, s, i).log == s.log + Noted(m, s, i) && BeginAfter(m, s, i).fs == s.fs
    ensures BeginAfter(m, s, i).flag == s.flag
  {
    hide Reply, Settle, Record;
    assert s.log + [] == s.log;
  }

  lemma OtherWorkIsSerial<S, O, R>(m: Service<S, O, R>, fs0: S, s: State<S, O, R>, i: nat)
    requires Serial(m, fs0, s) && i < |s.slots| && !s.slots[i].worker.Running?
    requires s.slots[i].worker.ShutdownWait? ==> s.slots[i].tx.Some?
    ensures Serial(m, fs0, WorkAfter(m, s, i))
  {
    hide ResultsMatch, Fold, WorkAfter, NotedAtBegin, Destroyed;
    OtherWorkIsNoted(m, s, i);
    if |Noted(m, s, i)| == 1 {
      var e := Noted(m, s, i)[0];
      assert Noted(m, s, i) == [e] && e in Noted(m, s, i);
      FoldGrows(m, fs0, s.log, e);
    } else {
      assert s.log + Noted(m, s, i) == s.log;
    }
  }

  lemma RunIsSerialStep<S, O, R>(m: Service<S, O, R>, fs0: S, s: State<S, O, R>, i: nat)
    requires Serial(m, fs0, s) && i < |s.slots| && s.slots[i].worker.Running? && s.slots[i].tx.Some?
    ensures Serial(m, fs0, RunAfter(m, s, i))
  {
    hide ResultsMatch, Fold, At, Destroyed;
    var w := s.slots[i];
    if w.buffer.Some? && w.buffer.value.req.Do? {
      var op := w.buffer.value.req.op;
      FoldGrows(m, fs0, s.log, Entry(w.tx.value, Do(op), Result(m.exec(s.fs, op).1), true));
    }
  }

  lemma WorkIsSerial<S, O, R>(m: Service<S, O, R>, fs0: S, s: State<S, O, R>, i: nat)
    requires Serial(m, fs0, s) && i < |s.slots|
    requires s.slots[i].worker.Running? || s.slots[i].worker.ShutdownWait? ==> s.slots[i].tx.Some?
    ensures Serial(m, fs0, WorkAfter(m, s, i))
  {
    hide Serial, RunAfter, BeginAfter, DestroyAfter;
    if s.slots[i].worker.Running? { RunIsSerialStep(m, fs0, s, i); } else { OtherWorkIsSerial(m, fs0, s, i); }
  }

  lemma StepIsSerial<S, O, R>(m: Service<S, O, R>, fs0: S, s: State<S, O, R>, a: Action<O>)
    requires Inv(s) && Serial(m, fs0, s) && Can(m, s, a)
    ensures Serial(m, fs0, After(m, s, a))
  {
    hide Inv, WorkAfter, ResultsMatch, Fold, Destroyed;
    match a
    case Work(i) =>
      WorkerAnswers(s);
      WorkIsSerial(m, fs0, s, i);
    case _ =>
  }

  lemma WorkerAnswers<S, O, R>(s: State<S, O, R>)
    requires Inv(s)
    ensures forall i :: 0 <= i < |s.slots| && (s.slots[i].worker.Running? || s.slots[i].worker.ShutdownWait?) ==>
              s.slots[i].tx.Some?
  {
    hide Inv;
    forall i | 0 <= i < |s.slots| && (s.slots[i].worker.Running? || s.slots[i].worker.ShutdownWait?) ensures s.slots[i].tx.Some? {
      Served(s, i);
      ServesNoMount(s, i);
    }
  }

  lemma ServesNoMount<S, O, R>(s: State<S, O, R>, i: nat)
    requires Inv(s) && i < |s.slots| && (s.slots[i].worker.Running? || s.slots[i].worker.ShutdownWait?)
    ensures s.slots[i].buffer.Some? && !s.slots[i].buffer.value.req.Mount?
  {
    assert SlotOk(s, i);
  }

  lemma {:induction false} RunIsSerial<S, O, R>(m: Service<S, O, R>, fs0: S,
                                                run: seq<State<S, O, R>>, acts: seq<Action<O>>, k: nat)
    requires Run(m, fs0, run, acts) && k < |run|
    ensures Serial(m, fs0, run[k])
  {
    hide Inv, Can, After;
    if k > 0 {
      RunIsSerial(m, fs0, run, acts, k - 1);
      RunKeepsInv(m, fs0, run, acts, k - 1);
      StepIsSerial(m, fs0, run[k - 1], acts[k - 1]);
    }
  }

  // ---------------------------------------------------------------- one destruction

  /** Once the file system is destroyed nobody waits to destroy it. */
  ghost predicate Spent<S, O, R>(s: State<S, O, R>) {
    !s.flag ==> s.shutdownCalled && forall i :: 0 <= i < |s.slots| ==> !s.slots[i].worker.ShutdownWait?
  }

  lemma WorkStaysSpent<S, O, R>(m: Service<S, O, R>, s: State<S, O, R>, i: nat)
    requires ShutdownOk(s) && CanWork(m, s, i) && Spent(s)
    ensures Spent(WorkAfter(m, s, i))
  {
    hide Reply, Settle, Record, BeginAfter, RunAfter, ShutdownOk;
    if s.slots[i].worker.Begin? { BeginStaysSpent(m, s, i); }
    if s.slots[i].worker.Running? { RunningStaysSpent(m, s, i); }
    if s.slots[i].worker.ShutdownWait? { OneWaits(s, i); }
  }

  lemma OneWaits<S, O, R>(s: State<S, O, R>, i: nat)
    requires ShutdownOk(s) && i < |s.slots| && s.slots[i].worker.ShutdownWait?
    ensures s.shutdownCalled && forall j :: 0 <= j < |s.slots| && j != i ==> !s.slots[j].worker.ShutdownWait?
  {
    forall j | 0 <= j < |s.slots| && j != i ensures !s.slots[j].worker.ShutdownWait? {
      assert s.entered == [i];
    }
  }

  lemma BeginStaysSpent<S, O, R>(m: Service<S, O, R>, s: State<S, O, R>, i: nat)
    requires i < |s.slots| && s.slots[i].worker.Begin? && Spent(s)
    ensures Spent(BeginAfter(m, s, i))
  {
    hide Reply, Settle, Record;
  }

  lemma RunningStaysSpent<S, O, R>(m: Service<S, O, R>, s: State<S, O, R>, i: nat)
    requires i < |s.slots| && s.slots[i].worker.Running? && Spent(s)
    ensures Spent(RunAfter(m, s, i))
  {
    hide Reply, Settle, Record;
  }

  lemma ShutdownIsOk<S, O, R>(s: State<S, O, R>)
    requires Inv(s)
    ensures ShutdownOk(s)
  {
  }

  lemma StepStaysSpent<S, O, R>(m: Service<S, O, R>, s: State<S, O, R>, a: Action<O>)
    requires Inv(s) && Can(m, s, a) && Spent(s)
    ensures Spent(After(m, s, a))
  {
    hide Inv, WorkAfter, CanWork;
    match a
    case Work(i) =>
      ShutdownIsOk(s);
      WorkStaysSpent(m, s, i);
    case _ =>
  }

  lemma {:induction false} RunStaysSpent<S, O, R>(m: Service<S, O, R>, fs0: S,
                                                  run: seq<State<S, O, R>>, acts: seq<Action<O>>, k: nat)
    requires Run(m, fs0, run, acts) && k < |run|
    ensures Spent(run[k])
  {
    hide Inv, Can, After;
    if k > 0 {
      RunStaysSpent(m, fs0, run, acts, k - 1);
      RunKeepsInv(m, fs0, run, acts, k - 1);
      StepStaysSpent(m, run[k - 1], acts[k - 1]);
    }
  }

  // ---------------------------------------------------------------- what goes on record

  /** The step puts entry e on record: how it may be answered, given the state that the step starts from. */
  ghost predicate Deserved<S, O, R>(m: Service<S, O, R>, s: State<S, O, R>, e: Entry<O, R>) {
    match e.req
    case Mount => !e.ran && e.ans.Session? && 1 <= e.ans.sid <= |s.slots|
    case Do(op) => if e.ran then e.ans == Result(m.exec(s.fs, op).1) else !s.flag && m.checked(op) && e.ans == Result(m.refusal(op))
    case Unmount => !e.ran && e.ans == Ok
    case Shutdown =>
      !e.ran && ((e.ans == Ok && s.flag && m.quiet(s.fs)) || (e.ans == Refused && s.shutdownCalled))
  }

  /** A step puts nothing on record, or one entry that it may. */
  ghost predicate RecordsOne<S, O, R>(m: Service<S, O, R>, s: State<S, O, R>, s': State<S, O, R>) {
    s'.log == s.log || (|s'.log| == |s.log| + 1 && s'.log[..|s.log|] == s.log && Deserved(m, s, s'.log[|s.log|]))
  }

  lemma NotedIsDeserved<S, O, R>(m: Service<S, O, R>, s: State<S, O, R>, i: nat)
    requires Inv(s) && Spent(s) && CanWork(m, s, i) && !s.slots[i].worker.Running?
    ensures forall e :: e in Noted(m, s, i) ==> Deserved(m, s, e)
  {
    hide ClientsOk, PipeOk, RecvOk, GlobalOk, SlotsOk;
  }

  lemma WorkRecords<S, O, R>(m: Service<S, O, R>, s: State<S, O, R>, i: nat)
    requires Inv(s) && Spent(s) && CanWork(m, s, i)
    ensures RecordsOne(m, s, WorkAfter(m, s, i))
  {
    hide Inv, Spent, WorkAfter, Deserved, Noted, At;
    if s.slots[i].worker.Running? {
      RunningRecords(m, s, i);
    } else {
      OtherWorkIsNoted(m, s, i);
      NotedIsDeserved(m, s, i);
      assert s.log + [] == s.log;
      if Noted(m, s, i) != [] { assert Noted(m, s, i)[0] in Noted(m, s, i) && Noted(m, s, i) == [Noted(m, s, i)[0]]; }
    }
  }

  lemma RunningRecords<S, O, R>(m: Service<S, O, R>, s: State<S, O, R>, i: nat)
    requires i < |s.slots| && s.slots[i].worker.Running?
    ensures RecordsOne(m, s, WorkAfter(m, s, i))
  {
    hide At;
    assert s.log + [] == s.log;
  }

  lemma StepRecords<S, O, R>(m: Service<S, O, R>, s: State<S, O, R>, a: Action<O>)
    requires Inv(s) && Spent(s) && Can(m, s, a)
    ensures RecordsOne(m, s, After(m, s, a))
  {
    hide Inv, Spent, WorkAfter, CanWork, Deserved;
    match a
    case Work(i) => WorkRecords(m, s, i);
    case _ =>
  }

  /** The moment at which entry j went on record, and what it deserved there. */
  lemma {:induction false} RecordedWhen<S, O, R>(m: Service<S, O, R>, fs0: S, run: seq<State<S, O, R>>, acts: seq<Action<O>>,
                                                 k: nat, j: nat) returns (i: nat)
    requires Run(m, fs0, run, acts) && k < |run| && j < |run[k].log|
    ensures i < k && j == |run[i].log| && run[k].log[..j] == run[i].log && Deserved(m, run[i], run[k].log[j])
  {
    hide Inv, Spent, Can, After, Deserved, Run;
    if k == 0 {
      NothingAtFirst(m, fs0, run, acts);
      assert false;
    } else {
      RunTakesStep(m, fs0, run, acts, k - 1);
      RunKeepsInv(m, fs0, run, acts, k - 1);
      RunStaysSpent(m, fs0, run, acts, k - 1);
      StepRecords(m, run[k - 1], acts[k - 1]);
      if j < |run[k - 1].log| {
        i := RecordedWhen(m, fs0, run, acts, k - 1, j);
        assert run[k].log[..j] == run[k - 1].log[..j];
      } else {
        i := k - 1;
      }
    }
  }

  lemma NothingAtFirst<S, O, R>(m: Service<S, O, R>, fs0: S, run: seq<State<S, O, R>>, acts: seq<Action<O>>)
    requires Run(m, fs0, run, acts)
    ensures run[0].log == []
  {
  }

  lemma RunTakesStep<S, O, R>(m: Service<S, O, R>, fs0: S, run: seq<State<S, O, R>>, acts: seq<Action<O>>, k: nat)
    requires Run(m, fs0, run, acts) && k + 1 < |run|
    ensures k < |acts| && Can(m, run[k], acts[k]) && run[k + 1] == After(m, run[k], acts[k])
  {
  }

  /** A shutdown that is answered with Ok found the file system quiet, in the state that the record before it leaves. */
  lemma DestructionWasQuiet<S, O, R>(m: Service<S, O, R>, fs0: S, run: seq<State<S, O, R>>, acts: seq<Action<O>>, k: nat, j: nat)
    requires Run(m, fs0, run, acts) && k < |run| && j < |run[k].log| && IsDestruction(run[k].log[j])
    ensures m.quiet(Fold(m, fs0, run[k].log[..j]))
  {
    hide Run, Fold, ResultsMatch, Destroyed;
    var i := RecordedWhen(m, fs0, run, acts, k, j);
    RunIsSerial(m, fs0, run, acts, i);
  }

  /** The file system is destroyed at most once. */
  lemma OneDestruction<S, O, R>(m: Service<S, O, R>, fs0: S, run: seq<State<S, O, R>>, acts: seq<Action<O>>, k: nat, j: nat, l: nat)
    requires Run(m, fs0, run, acts) && k < |run| && j < |run[k].log| && l < |run[k].log|
    requires IsDestruction(run[k].log[j]) && IsDestruction(run[k].log[l])
    ensures j == l
  {
    hide Run, Fold, ResultsMatch;
    var (a, b) := if j <= l then (j, l) else (l, j);
    if a < b {
      var i := RecordedWhen(m, fs0, run, acts, k, b);
      RunIsSerial(m, fs0, run, acts, i);
    }
  }

  // ---------------------------------------------------------------- replies that are heard

  lemma {:induction false} AsManyAnswers<O, R>(log: seq<Entry<O, R>>, c: nat)
    ensures |Requests(log, c)| == |Answers(log, c)|
  {
    if log != [] { AsManyAnswers(log[..|log| - 1], c); }
  }

  /** Every answer that client c has heard is one that its call takes whole. */
  predicate HeardOk<S, O, R>(m: Service<S, O, R>, s: State<S, O, R>, c: nat)
    requires c < |s.clients|
  {
    var cl := s.clients[c];
    |cl.got| <= |cl.asked| && forall j :: 0 <= j < |cl.got| ==> Framed(m, cl.asked[j], cl.got[j])
  }

  lemma WorkServes<S, O, R>(m: Service<S, O, R>, s: State<S, O, R>, i: nat)
    requires Inv(s) && CanWork(m, s, i)
    ensures ServesOnly(s, WorkAfter(m, s, i), i)
  {
    WorkKeeps(m, s, i);
  }

  lemma StepHeard<S, O, R>(m: Service<S, O, R>, s: State<S, O, R>, a: Action<O>, c: nat)
    requires Inv(s) && Can(m, s, a) && c < |s.clients| && HeardOk(m, s, c)
    ensures |After(m, s, a).clients| == |s.clients| && HeardOk(m, After(m, s, a), c)
  {
    hide Framed, PipeOk, RecvOk, SlotsOk, GlobalOk, ShutdownOk, Requests, Answers, WorkAfter, CanWork;
    match a
    case Hear(d) =>
      if d == c {
        assert ClientOk(s, c) && HistoryOk(s, c);
        AsManyAnswers(s.log, c);
      }
    case Work(i) => WorkServes(m, s, i);
    case _ =>
  }

  lemma {:induction false} RunHeard<S, O, R>(m: Service<S, O, R>, fs0: S,
                                             run: seq<State<S, O, R>>, acts: seq<Action<O>>, k: nat, c: nat)
    requires Run(m, fs0, run, acts) && k < |run| && c < |run[0].clients|
    ensures |run[k].clients| == |run[0].clients| && HeardOk(m, run[k], c)
  {
    hide Inv, Can, After, Framed;
    if k > 0 {
      RunHeard(m, fs0, run, acts, k - 1, c);
      RunKeepsInv(m, fs0, run, acts, k - 1);
      StepHeard(m, run[k - 1], acts[k - 1], c);
    }
  }

  /** A reply that is out can be heard exactly when the call that asked takes it whole. */
  lemma HeardIffFramed<S, O, R>(m: Service<S, O, R>, fs0: S, run: seq<State<S, O, R>>, acts: seq<Action<O>>, k: nat, c: nat)
    requires Run(m, fs0, run, acts) && k < |run| && c < |run[k].clients|
    requires run[k].clients[c].phase.Waiting? && run[k].clients[c].phase.where.Replied?
    ensures ReplyOut(run[k], c)
    ensures CanHear(m, run[k], c) <==> Framed(m, run[k].clients[c].phase.req, run[k].clients[c].inbox[0])
  {
    RunKeepsInv(m, fs0, run, acts, k);
    hide Run, Framed, HistoryOk, PipeOk, RecvOk, SlotsOk, GlobalOk, ShutdownOk;
    assert ClientOk(run[k], c);
  }

  /** A reply is out that the call does not take whole. */
  predicate Deaf<S, O, R>(m: Service<S, O, R>, s: State<S, O, R>, c: nat) {
    ReplyOut(s, c) && s.clients[c].phase.where.Replied? && |s.clients[c].inbox| == 1
    && !Framed(m, s.clients[c].phase.req, s.clients[c].inbox[0])
  }

  lemma StaysDeaf<S, O, R>(m: Service<S, O, R>, s: State<S, O, R>, a: Action<O>, c: nat)
    requires Inv(s) && Can(m, s, a) && Deaf(m, s, c)
    ensures |After(m, s, a).clients| == |s.clients| && After(m, s, a).clients[c] == s.clients[c]
  {
    hide Framed, SlotsOk, GlobalOk, ShutdownOk, ClientsOk, Requests, Answers, WorkAfter, CanWork;
    match a
    case Take => assert Outstanding(s, s.pipe[0], InPipe);
    case Work(i) => WorkLeavesReplied(m, s, i, c);
    case _ =>
  }

  lemma WorkLeavesReplied<S, O, R>(m: Service<S, O, R>, s: State<S, O, R>, i: nat, c: nat)
    requires Inv(s) && CanWork(m, s, i) && ReplyOut(s, c)
    ensures |WorkAfter(m, s, i).clients| == |s.clients| && WorkAfter(m, s, i).clients[c] == s.clients[c]
  {
    hide Inv, WorkAfter;
    WorkServes(m, s, i);
    if Busy(s.slots[i].worker) { Served(s, i); }
  }

  /** A client whose reply does not fit its call stays where it is for ever, its reply unheard. Of a reply that ends too soon this
      is what the call does: it waits for ever. From a -1 to a read of fewer than four bytes the call does return, and leaves
      bytes in its pipe; the machine does not follow that client any further. */
  lemma {:induction false} UnframedWaitsForEver<S, O, R>(m: Service<S, O, R>, fs0: S,
                                                         run: seq<State<S, O, R>>, acts: seq<Action<O>>, k: nat, j: nat, c: nat)
    requires Run(m, fs0, run, acts) && k <= j < |run| && Deaf(m, run[k], c)
    ensures |run[j].clients| == |run[k].clients| && run[j].clients[c] == run[k].clients[c] && Deaf(m, run[j], c)
  {
    hide Inv, Can, After, Framed;
    if k < j {
      UnframedWaitsForEver(m, fs0, run, acts, k, j - 1, c);
      RunKeepsInv(m, fs0, run, acts, j - 1);
      StaysDeaf(m, run[j - 1], acts[j - 1], c);
    }
  }

  // ---------------------------------------------------------------- what the protocol promises

  /** At every moment of every run: the file system is what the operations on record leave when done one after the other; each
      has the result that it has there, or was refused after destruction; each client's requests are on record in the
      order it asked them, each once, all but an outstanding one that is not yet executed; and what each client heard
      are the recorded answers of its own requests, in order, each once, all but the one still on its way. */
  lemma RemoteRefinesSerial<S, O, R>(m: Service<S, O, R>, fs0: S, run: seq<State<S, O, R>>, acts: seq<Action<O>>, k: nat, c: nat)
    requires Run(m, fs0, run, acts) && k < |run| && c < |run[k].clients|
    ensures var s := run[k];
            && s.fs == Fold(m, fs0, s.log) && ResultsMatch(m, fs0, s.log)
            && Requests(s.log, c) <= s.clients[c].asked && |s.clients[c].asked| <= |Requests(s.log, c)| + 1
            && s.clients[c].got <= Answers(s.log, c) && |Answers(s.log, c)| <= |s.clients[c].got| + 1
            && (!s.clients[c].phase.Waiting? ==> Requests(s.log, c) == s.clients[c].asked && Answers(s.log, c) == s.clients[c].got)
  {
    RunIsSerial(m, fs0, run, acts, k);
    RunKeepsInv(m, fs0, run, acts, k);
    hide Requests, Answers, Fold, ResultsMatch, PipeOk, RecvOk, SlotsOk, GlobalOk, ShutdownOk, Run, Destroyed;
    assert ClientOk(run[k], c) && HistoryOk(run[k], c);
  }

  /** What a client has heard, its calls took whole. */
  lemma HeardIsFramed<S, O, R>(m: Service<S, O, R>, fs0: S, run: seq<State<S, O, R>>, acts: seq<Action<O>>, k: nat, c: nat, j: nat)
    requires Run(m, fs0, run, acts) && k < |run| && c < |run[0].clients|
    requires |run[k].clients| == |run[0].clients| && j < |run[k].clients[c].got|
    ensures j < |run[k].clients[c].asked| && Framed(m, run[k].clients[c].asked[j], run[k].clients[c].got[j])
  {
    RunHeard(m, fs0, run, acts, k, c);
  }

  /** A request that is posted while the lock of its session is free is the one outstanding request of the client of that
      session; it has not been executed; and the worker is awake. */
  lemma PostedIsOutstanding<S, O, R>(m: Service<S, O, R>, fs0: S, run: seq<State<S, O, R>>, acts: seq<Action<O>>, k: nat, i: nat)
    requires Run(m, fs0, run, acts) && k < |run| && i < |run[k].slots|
    requires run[k].slots[i].active && run[k].slots[i].lock == Nobody && run[k].slots[i].worker != Exited
    ensures var s := run[k];
            var w := s.slots[i];
            && w.buffer.Some? && w.buffer.value.client < |s.clients|
            && var c := w.buffer.value.client;
               && s.clients[c].phase == Waiting(w.buffer.value.req, AtSession(i + 1))
               && s.clients[c].asked == Requests(s.log, c) + [w.buffer.value.req]
               && (w.tx == Some(c) || w.buffer.value.req.Mount?)
    ensures run[k].slots[i].worker.Lock? || run[k].slots[i].worker.Woken?
  {
    RunKeepsInv(m, fs0, run, acts, k);
    hide Requests, Answers, PipeOk, RecvOk, GlobalOk, ShutdownOk, Run;
    assert SlotOk(run[k], i);
    var c := run[k].slots[i].buffer.value.client;
    assert ClientOk(run[k], c) && HistoryOk(run[k], c);
  }

  /** When the receiver posts, the slot holds no request that is not yet executed and answered. */
  lemma NeverOverwritten<S, O, R>(m: Service<S, O, R>, fs0: S, run: seq<State<S, O, R>>, acts: seq<Action<O>>, k: nat)
    requires Run(m, fs0, run, acts) && k < |acts| && acts[k] == Post
    ensures CanPost(run[k]) && !run[k].slots[run[k].recv.sid - 1].active
  {
    RunKeepsInv(m, fs0, run, acts, k);
    assert CanPost(run[k]);
    hide Inv, Run;
    NothingOverwritten(run[k]);
  }

  /** At most one worker ever enters case_shutdown. */
  lemma OneShutdown<S, O, R>(m: Service<S, O, R>, fs0: S, run: seq<State<S, O, R>>, acts: seq<Action<O>>, k: nat)
    requires Run(m, fs0, run, acts) && k < |run|
    ensures |run[k].entered| <= 1
    ensures forall i :: 0 <= i < |run[k].slots| ==>
              run[k].slots[i].worker.ShutdownWait? || run[k].slots[i].worker.ShutdownReply? ==> run[k].entered == [i]
  {
    RunKeepsInv(m, fs0, run, acts, k);
    hide Run, ClientsOk, PipeOk, RecvOk, SlotsOk, GlobalOk;
  }

  // ---------------------------------------------------------------- after destruction

  /** The worker has an operation that looks at open_flag, and is past the look. */
  predicate PastCheck<S, O, R>(m: Service<S, O, R>, s: State<S, O, R>, i: nat)
    requires i < |s.slots|
  {
    var w := s.slots[i];
    (w.worker.WantGlobal? || w.worker.Running?) && w.buffer.Some? && w.buffer.value.req.Do? && m.checked(w.buffer.value.req.op)
  }

  ghost predicate NobodyPast<S, O, R>(m: Service<S, O, R>, s: State<S, O, R>) {
    !s.flag && forall i :: 0 <= i < |s.slots| ==> !PastCheck(m, s, i)
  }

  lemma SlotsPassNobody<S, O, R>(m: Service<S, O, R>, s: State<S, O, R>, s': State<S, O, R>, j: nat)
    requires NobodyPast(m, s) && j < |s.slots| == |s'.slots| && s'.slots == s.slots[j := s'.slots[j]] && !s'.flag
    requires s'.slots[j].worker.WantGlobal? || s'.slots[j].worker.Running? ==> !PastCheck(m, s', j)
    ensures NobodyPast(m, s')
  {
    forall i | 0 <= i < |s'.slots| ensures !PastCheck(m, s', i) {
      assert !PastCheck(m, s, i);
    }
  }

  lemma PostPassesNobody<S, O, R>(m: Service<S, O, R>, s: State<S, O, R>)
    requires Inv(s) && NobodyPast(m, s) && CanPost(s)
    ensures NobodyPast(m, PostAfter(s))
  {
    hide Inv, NobodyPast;
    NothingOverwritten(s);
    NobodyPastHere(m, s);
    SlotsPassNobody(m, s, PostAfter(s), s.recv.sid - 1);
  }

  lemma NobodyPastHere<S, O, R>(m: Service<S, O, R>, s: State<S, O, R>)
    requires NobodyPast(m, s)
    ensures !s.flag
  {
  }

  lemma WorkPassesNobody<S, O, R>(m: Service<S, O, R>, s: State<S, O, R>, j: nat)
    requires CanWork(m, s, j) && NobodyPast(m, s)
    ensures NobodyPast(m, WorkAfter(m, s, j))
  {
    hide WorkAfter, CanWork;
    WorkSlots(m, s, j);
    SlotsPassNobody(m, s, WorkAfter(m, s, j), j);
  }

  /** A step of worker j leaves the other slots; it does not bring its own past the check. */
  lemma WorkSlots<S, O, R>(m: Service<S, O, R>, s: State<S, O, R>, j: nat)
    requires CanWork(m, s, j) && NobodyPast(m, s)
    ensures var s' := WorkAfter(m, s, j);
            && j < |s'.slots| == |s.slots| && s'.slots == s.slots[j := s'.slots[j]] && !s'.flag && !PastCheck(m, s', j)
  {
    assert !PastCheck(m, s, j);
    hide NobodyPast, BeginAfter, RunAfter, DestroyAfter;
    match s.slots[j].worker
    case Begin => BeginSlots(m, s, j);
    case Running => RunSlots(m, s, j);
    case _ => if AtDoor(s.slots[j].worker) { DoorSlots(m, s, j); } else { InnerSlots(m, s, j); }
  }

  lemma BeginSlots<S, O, R>(m: Service<S, O, R>, s: State<S, O, R>, j: nat)
    requires j < |s.slots| && s.slots[j].worker.Begin? && !s.flag
    ensures var s' := BeginAfter(m, s, j);
            && j < |s'.slots| == |s.slots| && s'.slots == s.slots[j := s'.slots[j]] && !s'.flag && !PastCheck(m, s', j)
  {
    hide Reply, Settle, Record;
  }

  lemma RunSlots<S, O, R>(m: Service<S, O, R>, s: State<S, O, R>, j: nat)
    requires j < |s.slots| && s.slots[j].worker.Running? && !s.flag && !PastCheck(m, s, j)
    ensures var s' := RunAfter(m, s, j);
            && j < |s'.slots| == |s.slots| && s'.slots == s.slots[j := s'.slots[j]] && !s'.flag && !PastCheck(m, s', j)
  {
    hide Settle;
    assert s.slots[j := s.slots[j]] == s.slots;
  }

  /** The worker is about to take, test or give back its session lock. */
  predicate AtDoor<R>(pc: WorkerPC<R>) {
    pc.Lock? || pc.Woken? || pc.Test? || pc.Clear? || pc.Unlock? || pc.Leave?
  }

  lemma DoorSlots<S, O, R>(m: Service<S, O, R>, s: State<S, O, R>, j: nat)
    requires CanWork(m, s, j) && AtDoor(s.slots[j].worker) && !s.flag && !PastCheck(m, s, j)
    ensures var s' := WorkAfter(m, s, j);
            && j < |s'.slots| == |s.slots| && s'.slots == s.slots[j := s'.slots[j]] && !s'.flag && !PastCheck(m, s', j)
  {
    hide Reply, Settle, BeginAfter, RunAfter;
  }

  lemma InnerSlots<S, O, R>(m: Service<S, O, R>, s: State<S, O, R>, j: nat)
    requires CanWork(m, s, j) && !AtDoor(s.slots[j].worker) && !s.slots[j].worker.Begin?
    requires !s.slots[j].worker.Running? && !s.flag && !PastCheck(m, s, j)
    ensures var s' := WorkAfter(m, s, j);
            && j < |s'.slots| == |s.slots| && s'.slots == s.slots[j := s'.slots[j]] && !s'.flag && !PastCheck(m, s', j)
  {
    hide Reply, Settle, BeginAfter, RunAfter;
  }

  /** Only a worker past the check runs an operation that looks at open_flag. */
  lemma RecordsNoLateRun<S, O, R>(m: Service<S, O, R>, s: State<S, O, R>, a: Action<O>)
    requires Inv(s) && NobodyPast(m, s) && Can(m, s, a)
    ensures s.log <= After(m, s, a).log
    ensures forall n :: |s.log| <= n < |After(m, s, a).log| ==>
              var e := After(m, s, a).log[n]; !(e.req.Do? && m.checked(e.req.op) && e.ran)
  {
    hide Inv, WorkAfter, RunAfter, Noted;
    match a
    case Work(i) =>
      if s.slots[i].worker.Running? {
        RunnerHasOperation(s, i);
        assert !PastCheck(m, s, i);
        RunRecords(m, s, i);
      } else {
        OtherWorkIsNoted(m, s, i);
      }
    case _ =>
  }

  lemma RunRecords<S, O, R>(m: Service<S, O, R>, s: State<S, O, R>, i: nat)
    requires i < |s.slots| && s.slots[i].worker.Running? && s.slots[i].buffer.Some? && s.slots[i].buffer.value.req.Do?
    ensures var s' := WorkAfter(m, s, i);
            && s.log <= s'.log && |s'.log| <= |s.log| + 1
            && (|s'.log| > |s.log| ==> s'.log[|s.log|].req == s.slots[i].buffer.value.req)
  {
    hide Settle, BeginAfter, DestroyAfter;
  }

  lemma StepPassesNobody<S, O, R>(m: Service<S, O, R>, s: State<S, O, R>, a: Action<O>)
    requires Inv(s) && NobodyPast(m, s) && Can(m, s, a)
    ensures NobodyPast(m, After(m, s, a))
  {
    hide Inv, WorkAfter, CanWork, NobodyPast;
    match a
    case Post => PostPassesNobody(m, s);
    case Work(j) => WorkPassesNobody(m, s, j);
    case LockSlot => LockPassesNobody(m, s);
    case Release => ReleasePassesNobody(m, s);
    case Wake(i) => WakePassesNobody(m, s, i);
    case _ => SameSlotsPassNobody(m, s, After(m, s, a));
  }

  lemma SameSlotsPassNobody<S, O, R>(m: Service<S, O, R>, s: State<S, O, R>, s': State<S, O, R>)
    requires NobodyPast(m, s) && s'.slots == s.slots && s'.flag == s.flag
    ensures NobodyPast(m, s')
  {
    forall i | 0 <= i < |s'.slots| ensures !PastCheck(m, s', i) {
      assert !PastCheck(m, s, i);
    }
  }

  lemma LockPassesNobody<S, O, R>(m: Service<S, O, R>, s: State<S, O, R>)
    requires NobodyPast(m, s) && CanLockSlot(s)
    ensures NobodyPast(m, LockSlotAfter(s))
  {
    assert !PastCheck(m, s, s.recv.sid - 1);
    SlotsPassNobody(m, s, LockSlotAfter(s), s.recv.sid - 1);
  }

  lemma ReleasePassesNobody<S, O, R>(m: Service<S, O, R>, s: State<S, O, R>)
    requires NobodyPast(m, s) && CanRelease(s)
    ensures NobodyPast(m, ReleaseAfter(s))
  {
    assert !PastCheck(m, s, s.recv.sid - 1);
    SlotsPassNobody(m, s, ReleaseAfter(s), s.recv.sid - 1);
  }

  lemma WakePassesNobody<S, O, R>(m: Service<S, O, R>, s: State<S, O, R>, i: nat)
    requires NobodyPast(m, s) && i < |s.slots|
    ensures NobodyPast(m, PutSlot(s, i, s.slots[i].(worker := Woken)))
  {
    SlotsPassNobody(m, s, PutSlot(s, i, s.slots[i].(worker := Woken)), i);
  }

  lemma {:induction false} NobodyPassesLater<S, O, R>(m: Service<S, O, R>, fs0: S, run: seq<State<S, O, R>>, acts: seq<Action<O>>,
                                                     k: nat, j: nat)
    requires Run(m, fs0, run, acts) && k <= j < |run| && NobodyPast(m, run[k])
    ensures NobodyPast(m, run[j]) && run[k].log <= run[j].log
    ensures forall n :: |run[k].log| <= n < |run[j].log| ==>
              !(run[j].log[n].req.Do? && m.checked(run[j].log[n].req.op) && run[j].log[n].ran)
  {
    hide Inv, NobodyPast, Can, After, Init;
    if k < j {
      NobodyPassesLater(m, fs0, run, acts, k, j - 1);
      RunKeepsInv(m, fs0, run, acts, j - 1);
      StepPassesNobody(m, run[j - 1], acts[j - 1]);
      RecordsNoLateRun(m, run[j - 1], acts[j - 1]);
    }
  }

  /** Once the file system is destroyed and no worker is past the check, every open that is recorded was refused. */
  lemma LateOpensAreRefused<S, O, R>(m: Service<S, O, R>, fs0: S, run: seq<State<S, O, R>>, acts: seq<Action<O>>,
                                     k: nat, j: nat, n: nat)
    requires Run(m, fs0, run, acts) && k <= j < |run| && NobodyPast(m, run[k]) && |run[k].log| <= n < |run[j].log|
    requires run[j].log[n].req.Do? && m.checked(run[j].log[n].req.op)
    ensures !run[j].log[n].ran && run[j].log[n].ans == Result(m.refusal(run[j].log[n].req.op))
  {
    NobodyPassesLater(m, fs0, run, acts, k, j);
    RunIsSerial(m, fs0, run, acts, j);
    hide Run, NobodyPast, Fold, Destroyed;
    assert ResultMatches(m, fs0, run[j].log[..n], run[j].log[n]);
  }
}
