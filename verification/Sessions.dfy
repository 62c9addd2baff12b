/** Sessions and the end of the server: each client has a session of its own, a worker that has answered a shutdown serves no more,
    and the server stops when it has told the client that asked for it. */
module Sessions {
  import opened Options
  import opened Protocol
  import opened Handshake
  import opened Remote

  // ---------------------------------------------------------------- sessions

  /** A client that has a session id has one that no other client has, in range, and the session's worker answers to its pipe. */
  lemma OwnSession<S, O, R>(m: Service<S, O, R>, fs0: S, run: seq<State<S, O, R>>, acts: seq<Action<O>>, k: nat, c: nat)
    requires Run(m, fs0, run, acts) && k < |run| && c < |run[k].clients| && run[k].clients[c].sid != 0
    ensures var sid := run[k].clients[c].sid;
            && 1 <= sid < MAX_CLIENTS && |run[k].slots| == MAX_CLIENTS && run[k].slots[sid - 1].tx == Some(c)
            && forall d :: 0 <= d < |run[k].clients| && d != c ==> run[k].clients[d].sid != sid
  {
    RunKeepsInv(m, fs0, run, acts, k);
    hide HistoryOk, PipeOk, RecvOk, SlotsOk, GlobalOk, ShutdownOk, Run;
    var s := run[k];
    assert ClientOk(s, c);
    forall d | 0 <= d < |s.clients| && d != c ensures s.clients[d].sid != s.clients[c].sid {
      assert ClientOk(s, d);
    }
  }

  // ---------------------------------------------------------------- what a worker does to its slot

  lemma BeginSlot<S, O, R>(m: Service<S, O, R>, s: State<S, O, R>, j: nat)
    requires j < |s.slots|
    ensures var s' := BeginAfter(m, s, j);
            && |s'.slots| == |s.slots| && s'.slots == s.slots[j := s'.slots[j]]
            && s'.slots[j].active == s.slots[j].active && s'.slots[j].buffer == s.slots[j].buffer
  {
    hide Settle, Record, Reply;
    assert s.slots[j := s.slots[j]] == s.slots;
  }

  lemma RunSlot<S, O, R>(m: Service<S, O, R>, s: State<S, O, R>, j: nat)
    requires j < |s.slots|
    ensures var s' := RunAfter(m, s, j);
            && |s'.slots| == |s.slots| && s'.slots == s.slots[j := s'.slots[j]]
            && s'.slots[j].active == s.slots[j].active && s'.slots[j].buffer == s.slots[j].buffer
  {
    hide Settle, Record, Reply;
    assert s.slots[j := s.slots[j]] == s.slots;
  }

  lemma DestroySlot<S, O, R>(s: State<S, O, R>, j: nat)
    requires j < |s.slots|
    ensures var s' := DestroyAfter(s, j);
            && |s'.slots| == |s.slots| && s'.slots == s.slots[j := s'.slots[j]]
            && s'.slots[j].active == s.slots[j].active && s'.slots[j].buffer == s.slots[j].buffer
  {
    hide Settle, Record, Reply;
  }

  lemma DoorSlot<S, O, R>(m: Service<S, O, R>, s: State<S, O, R>, j: nat)
    requires j < |s.slots| && AtDoor(s.slots[j].worker)
    ensures var s' := WorkAfter(m, s, j);
            && |s'.slots| == |s.slots| && s'.slots == s.slots[j := s'.slots[j]]
            && ((s'.slots[j].active == s.slots[j].active && s'.slots[j].buffer == s.slots[j].buffer)
                || (!s'.slots[j].active && s'.slots[j].buffer.None?))
  {
    hide Reply, BeginAfter, RunAfter, DestroyAfter;
  }

  lemma InnerSlot<S, O, R>(m: Service<S, O, R>, s: State<S, O, R>, j: nat)
    requires j < |s.slots| && !AtDoor(s.slots[j].worker)
    requires !(s.slots[j].worker.Begin? || s.slots[j].worker.Running? || s.slots[j].worker.ShutdownWait?)
    ensures var s' := WorkAfter(m, s, j);
            && |s'.slots| == |s.slots| && s'.slots == s.slots[j := s'.slots[j]]
            && ((s'.slots[j].active == s.slots[j].active && s'.slots[j].buffer == s.slots[j].buffer)
                || (!s'.slots[j].active && s'.slots[j].buffer.None?))
  {
    hide Reply, BeginAfter, RunAfter, DestroyAfter;
    assert s.slots[j := s.slots[j]] == s.slots;
  }

  /** The other slots stay as they are, and this one keeps its request or drops it when it is done. */
  lemma WorkSlot<S, O, R>(m: Service<S, O, R>, s: State<S, O, R>, j: nat)
    requires CanWork(m, s, j)
    ensures j < |s.slots|
    ensures var s' := WorkAfter(m, s, j);
            && |s'.slots| == |s.slots| && s'.slots == s.slots[j := s'.slots[j]]
            && ((s'.slots[j].active == s.slots[j].active && s'.slots[j].buffer == s.slots[j].buffer)
                || (!s'.slots[j].active && s'.slots[j].buffer.None?))
  {
    hide BeginAfter, RunAfter, DestroyAfter, Reply;
    match s.slots[j].worker
    case Begin => BeginSlot(m, s, j);
    case Running => RunSlot(m, s, j);
    case ShutdownWait => DestroySlot(s, j);
    case _ => if AtDoor(s.slots[j].worker) { DoorSlot(m, s, j); } else { InnerSlot(m, s, j); }
  }

  /** A session that is not active holds no request. */
  ghost predicate BlankWhenIdle<S, O, R>(s: State<S, O, R>) {
    forall i :: 0 <= i < |s.slots| && !s.slots[i].active ==> s.slots[i].buffer.None?
  }

  lemma WorkBlanks<S, O, R>(m: Service<S, O, R>, s: State<S, O, R>, i: nat)
    requires CanWork(m, s, i) && BlankWhenIdle(s)
    ensures BlankWhenIdle(WorkAfter(m, s, i))
  {
    hide WorkAfter, CanWork;
    WorkSlot(m, s, i);
    assert s.slots[i].active || s.slots[i].buffer.None?;
  }

  lemma {:induction false} IdleSessionsAreBlank<S, O, R>(m: Service<S, O, R>, fs0: S,
                                                         run: seq<State<S, O, R>>, acts: seq<Action<O>>, k: nat)
    requires Run(m, fs0, run, acts) && k < |run|
    ensures BlankWhenIdle(run[k])
  {
    hide WorkAfter, CanWork, Framed;
    if k > 0 {
      IdleSessionsAreBlank(m, fs0, run, acts, k - 1);
      assert Can(m, run[k - 1], acts[k - 1]) && run[k] == After(m, run[k - 1], acts[k - 1]);
      match acts[k - 1]
      case Work(i) => WorkBlanks(m, run[k - 1], i);
      case _ =>
    }
  }

  // ---------------------------------------------------------------- the end of the server

  /** Client c was sent word that the file system is destroyed. */
  predicate ToldOk<S, O(==), R(==)>(s: State<S, O, R>, c: nat) {
    c < |s.clients| && s.clients[c].phase == Waiting(Shutdown, Replied)
    && |s.clients[c].inbox| == 1 && s.clients[c].inbox[0].Ok?
  }

  ghost predicate SomeoneTold<S, O, R>(s: State<S, O, R>) {
    exists c :: ToldOk(s, c)
  }

  lemma ReplyTells<S, O, R>(s: State<S, O, R>, d: Option<nat>, ans: Ans<R>, c: nat)
    requires !ToldOk(s, c)
    requires d.Some? && d.value < |s.clients| ==>
               var cl := s.clients[d.value]; cl.inbox == [] && cl.phase.Waiting? && (ans.Ok? ==> !cl.phase.req.Shutdown?)
    ensures !ToldOk(Reply(s, d, ans), c) && Reply(s, d, ans).halted == s.halted
  {
  }

  lemma BeginTells<S, O, R>(m: Service<S, O, R>, s: State<S, O, R>, i: nat, c: nat)
    requires Inv(s) && i < |s.slots| && s.slots[i].worker.Begin? && !ToldOk(s, c)
    ensures !ToldOk(BeginAfter(m, s, i), c) && BeginAfter(m, s, i).halted == s.halted
  {
    hide Inv, Reply;
    Served(s, i);
    var w := s.slots[i];
    match w.buffer.value.req
    case Mount =>
      var d := Some(w.buffer.value.client);
      ReplyTells(PutSlot(s, i, w.(tx := d, worker := Clear)), d, Session(i + 1), c);
    case Unmount => ReplyTells(PutSlot(s, i, w.(worker := Clear)), w.tx, Ok, c);
    case Shutdown => ReplyTells(PutSlot(s, i, w.(worker := Leave)), w.tx, Refused, c);
    case Do(op) =>
  }

  lemma WorkTells<S, O, R>(m: Service<S, O, R>, s: State<S, O, R>, i: nat)
    requires Inv(s) && CanWork(m, s, i) && !s.halted && !SomeoneTold(s)
    ensures WorkAfter(m, s, i).halted <==> SomeoneTold(WorkAfter(m, s, i))
  {
    hide Inv, BeginAfter, RunAfter, DestroyAfter;
    var s' := WorkAfter(m, s, i);
    match s.slots[i].worker
    case ShutdownReply =>
      Finishing(s, i);
      assert ToldOk(s', s.slots[i].tx.value);
    case Begin =>
      BeginTells(m, s, i, |s.clients|);
      forall c: nat ensures !ToldOk(s', c) {
        assert !ToldOk(s, c);
        BeginTells(m, s, i, c);
      }
    case Running => RunTells(m, s, i);
    case ShutdownWait => DestroyTells(s, i);
    case Asleep =>
    case Exited =>
    case _ =>
      forall c: nat ensures !ToldOk(s', c) { assert !ToldOk(s, c); }
  }

  /** The client that is about to hear that the file system is destroyed. */
  lemma Finishing<S, O, R>(s: State<S, O, R>, i: nat)
    requires Inv(s) && i < |s.slots| && s.slots[i].worker.ShutdownReply?
    ensures s.slots[i].tx.Some? && s.slots[i].tx.value < |s.clients|
    ensures var cl := s.clients[s.slots[i].tx.value]; cl.phase.Waiting? && cl.phase.req.Shutdown? && cl.inbox == []
  {
    Served(s, i);
    hide ClientsOk, PipeOk, RecvOk, GlobalOk, ShutdownOk;
    assert SlotOk(s, i);
  }

  lemma RunTells<S, O, R>(m: Service<S, O, R>, s: State<S, O, R>, i: nat)
    requires i < |s.slots| && !SomeoneTold(s)
    ensures RunAfter(m, s, i).halted == s.halted && !SomeoneTold(RunAfter(m, s, i))
  {
    forall c: nat ensures !ToldOk(RunAfter(m, s, i), c) { assert !ToldOk(s, c); }
  }

  lemma DestroyTells<S, O, R>(s: State<S, O, R>, i: nat)
    requires i < |s.slots| && !SomeoneTold(s)
    ensures DestroyAfter(s, i).halted == s.halted && !SomeoneTold(DestroyAfter(s, i))
  {
    forall c: nat ensures !ToldOk(DestroyAfter(s, i), c) { assert !ToldOk(s, c); }
  }

  lemma StepTells<S, O, R>(m: Service<S, O, R>, s: State<S, O, R>, a: Action<O>)
    requires Inv(s) && Can(m, s, a) && !SomeoneTold(s)
    ensures After(m, s, a).halted <==> SomeoneTold(After(m, s, a))
  {
    hide WorkAfter, CanWork, Framed, HistoryOk, SlotsOk, GlobalOk, ShutdownOk, RecvOk, PipeOk;
    match a
    case Work(i) => WorkTells(m, s, i);
    case _ =>
      forall c: nat ensures !ToldOk(After(m, s, a), c) {
        assert !ToldOk(s, c);
        if c < |s.clients| { assert ClientOk(s, c); }
      }
  }

  /** The server stops as soon as it has sent the client that asked for shutdown the word that the file system is destroyed, and not
      before: from then on nothing happens at all. */
  lemma {:induction false} StopsWhenTold<S, O, R>(m: Service<S, O, R>, fs0: S,
                                                  run: seq<State<S, O, R>>, acts: seq<Action<O>>, k: nat)
    requires Run(m, fs0, run, acts) && k < |run|
    ensures SomeoneTold(run[k]) <==> run[k].halted
    ensures SomeoneTold(run[k]) ==> k == |acts|
  {
    hide Inv, SomeoneTold, After;
    if k == 0 {
      NobodyToldAtFirst(fs0, run[0]);
    } else {
      StopsWhenTold(m, fs0, run, acts, k - 1);
      RunKeepsInv(m, fs0, run, acts, k - 1);
      StepTells(m, run[k - 1], acts[k - 1]);
    }
    if k < |acts| { assert Can(m, run[k], acts[k]); }
  }

  lemma NobodyToldAtFirst<S, O, R>(fs0: S, s: State<S, O, R>)
    requires Init(fs0, s)
    ensures !SomeoneTold(s)
  {
  }

  // ---------------------------------------------------------------- the worker that answered a shutdown

  /** The worker that answers to client c serves no further request. */
  ghost predicate EndedFor<S, O, R>(s: State<S, O, R>, c: nat) {
    exists i :: EndedAt(s, i, c)
  }

  predicate EndedAt<S, O, R>(s: State<S, O, R>, i: nat, c: nat) {
    i < |s.slots| && s.slots[i].tx == Some(c)
    && (s.slots[i].worker.ShutdownReply? || s.slots[i].worker.Leave? || s.slots[i].worker.Exited?)
  }

  ghost predicate ShutdownsEnd<S, O, R>(s: State<S, O, R>) {
    forall j {:trigger s.log[j]} :: 0 <= j < |s.log| && s.log[j].req.Shutdown? ==> EndedFor(s, s.log[j].client)
  }

  /** The step leaves a worker that has ended where it is, or takes it to its end. */
  lemma EndedStays<S, O, R>(m: Service<S, O, R>, s: State<S, O, R>, a: Action<O>, i: nat, c: nat)
    requires Can(m, s, a) && EndedAt(s, i, c)
    ensures EndedAt(After(m, s, a), i, c)
  {
    hide Framed;
    match a
    case Work(j) => if j == i { EndedWorks(m, s, i, c); } else { OthersWork(m, s, j, i, c); }
    case _ =>
  }

  lemma EndedWorks<S, O, R>(m: Service<S, O, R>, s: State<S, O, R>, i: nat, c: nat)
    requires CanWork(m, s, i) && EndedAt(s, i, c)
    ensures EndedAt(WorkAfter(m, s, i), i, c)
  {
    hide BeginAfter, RunAfter, DestroyAfter;
  }

  lemma OthersWork<S, O, R>(m: Service<S, O, R>, s: State<S, O, R>, j: nat, i: nat, c: nat)
    requires CanWork(m, s, j) && i != j && EndedAt(s, i, c)
    ensures EndedAt(WorkAfter(m, s, j), i, c)
  {
    hide WorkAfter, CanWork;
    WorkSlot(m, s, j);
  }

  /** What the step puts on record: a shutdown only by a worker that ends. */
  lemma RecordsEnd<S, O, R>(m: Service<S, O, R>, s: State<S, O, R>, a: Action<O>)
    requires Can(m, s, a)
    ensures s.log <= After(m, s, a).log
    ensures forall j :: |s.log| <= j < |After(m, s, a).log| && After(m, s, a).log[j].req.Shutdown? ==>
              EndedFor(After(m, s, a), After(m, s, a).log[j].client)
  {
    hide Framed, BeginAfter, RunAfter, DestroyAfter;
    match a
    case Work(i) =>
      match s.slots[i].worker {
        case Begin => BeginEnds(m, s, i);
        case Running => RunEnds(m, s, i);
        case ShutdownWait => DestroyEnds(s, i);
        case _ =>
      }
    case _ =>
  }

  lemma BeginEnds<S, O, R>(m: Service<S, O, R>, s: State<S, O, R>, i: nat)
    requires i < |s.slots|
    ensures var s' := BeginAfter(m, s, i);
            s.log <= s'.log && forall j :: |s.log| <= j < |s'.log| && s'.log[j].req.Shutdown? ==> EndedFor(s', s'.log[j].client)
  {
    hide Settle, Record, Reply;
    var s' := BeginAfter(m, s, i);
    forall j | |s.log| <= j < |s'.log| && s'.log[j].req.Shutdown? ensures EndedFor(s', s'.log[j].client) {
      assert EndedAt(s', i, s'.log[j].client);
    }
  }

  lemma RunEnds<S, O, R>(m: Service<S, O, R>, s: State<S, O, R>, i: nat)
    requires i < |s.slots|
    ensures var s' := RunAfter(m, s, i); s.log <= s'.log && forall j :: |s.log| <= j < |s'.log| ==> !s'.log[j].req.Shutdown?
  {
  }

  lemma DestroyEnds<S, O, R>(s: State<S, O, R>, i: nat)
    requires i < |s.slots|
    ensures var s' := DestroyAfter(s, i);
            s.log <= s'.log && forall j :: |s.log| <= j < |s'.log| ==> EndedFor(s', s'.log[j].client)
  {
    var s' := DestroyAfter(s, i);
    forall j | |s.log| <= j < |s'.log| ensures EndedFor(s', s'.log[j].client) {
      assert EndedAt(s', i, s'.log[j].client);
    }
  }

  /** Whoever asked for a shutdown that is on record, granted or refused, has a worker that serves nothing more. */
  lemma {:induction false} ShutdownEndsSession<S, O, R>(m: Service<S, O, R>, fs0: S,
                                                        run: seq<State<S, O, R>>, acts: seq<Action<O>>, k: nat)
    requires Run(m, fs0, run, acts) && k < |run|
    ensures ShutdownsEnd(run[k])
  {
    hide Can, After, EndedAt;
    if k > 0 {
      ShutdownEndsSession(m, fs0, run, acts, k - 1);
      var (s, s') := (run[k - 1], run[k]);
      RecordsEnd(m, s, acts[k - 1]);
      forall j | 0 <= j < |s'.log| && s'.log[j].req.Shutdown? ensures EndedFor(s', s'.log[j].client) {
        if j < |s.log| {
          assert s'.log[j] == s.log[j];
          var i :| EndedAt(s, i, s.log[j].client);
          EndedStays(m, s, acts[k - 1], i, s.log[j].client);
        }
      }
    }
  }
}
