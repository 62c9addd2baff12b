/** The session handshake: what holds in every reachable state of the client-server protocol. */
module Handshake {
  import opened Options
  import opened Protocol

  // ---------------------------------------------------------------- the record of one client

  function Requests<O, R>(log: seq<Entry<O, R>>, c: nat): seq<Req<O>> {
    if log == [] then []
    else
      var e := log[|log| - 1];
      Requests(log[..|log| - 1], c) + if e.client == c then [e.req] else []
  }

  function Answers<O, R>(log: seq<Entry<O, R>>, c: nat): seq<Ans<R>> {
    if log == [] then []
    else
      var e := log[|log| - 1];
      Answers(log[..|log| - 1], c) + if e.client == c then [e.ans] else []
  }

  lemma RecordGrows<O, R>(log: seq<Entry<O, R>>, e: Entry<O, R>, c: nat)
    ensures Requests(log + [e], c) == Requests(log, c) + if e.client == c then [e.req] else []
    ensures Answers(log + [e], c) == Answers(log, c) + if e.client == c then [e.ans] else []
  {
    assert (log + [e])[..|log + [e]| - 1] == log;
  }

  // ---------------------------------------------------------------- clients

  /** The answer suits the request, and a mount is answered with a session that is the client's. */
  predicate Suits<S, O, R>(s: State<S, O, R>, c: nat, req: Req<O>, ans: Ans<R>) {
    match req
    case Mount => ans.Session? && Mine(s, c, ans.sid)
    case Do(op) => ans.Result?
    case Unmount => ans == Ok
    case Shutdown => ans == Ok || ans == Refused
  }

  predicate Mine<S, O, R>(s: State<S, O, R>, c: nat, sid: nat) {
    1 <= sid < s.next && ValidSid(s, sid) && s.slots[sid - 1].tx == Some(c)
  }

  /** What client c knows and what is on its way to it. */
  predicate ClientOk<S, O, R>(s: State<S, O, R>, c: nat)
    requires c < |s.clients|
  {
    var cl := s.clients[c];
    && (cl.sid == 0 <==> cl.phase.Unmounted? || (cl.phase.Waiting? && cl.phase.req.Mount?))
    && (cl.sid != 0 ==> Mine(s, c, cl.sid))
    && if cl.phase.Waiting? && cl.phase.where.Replied? then |cl.inbox| == 1 && Suits(s, c, cl.phase.req, cl.inbox[0])
       else cl.inbox == []
  }

  /** Every request of client c was executed exactly once, in the order asked, and answered exactly once; save the
      outstanding one, which is on record from the moment it is executed. */
  predicate HistoryOk<S, O(==), R(==)>(s: State<S, O, R>, c: nat)
    requires c < |s.clients|
  {
    var cl := s.clients[c];
    var reqs, anss := Requests(s.log, c), Answers(s.log, c);
    match cl.phase
    case Waiting(req, where) =>
      cl.asked != [] && cl.asked[|cl.asked| - 1] == req &&
      (match where
       case Executed(i, ans) => reqs == cl.asked && anss == cl.got + [ans]
       case Replied => reqs == cl.asked && anss == cl.got + cl.inbox
       case _ => reqs + [req] == cl.asked && anss == cl.got)
    case _ => reqs == cl.asked && anss == cl.got
  }

  // ---------------------------------------------------------------- the pipe and the receiver

  /** A request on its way is its client's outstanding one. */
  predicate Outstanding<S, O(==), R(==)>(s: State<S, O, R>, msg: Msg<O>, where: Where<R>) {
    && msg.client < |s.clients| && s.clients[msg.client].phase == Waiting(msg.req, where)
    && msg.sid == s.clients[msg.client].sid
  }

  ghost predicate PipeOk<S, O, R>(s: State<S, O, R>) {
    && (forall k {:trigger s.pipe[k]} :: 0 <= k < |s.pipe| ==> Outstanding(s, s.pipe[k], InPipe))
    && (forall j, k {:trigger s.pipe[j], s.pipe[k]} :: 0 <= j < k < |s.pipe| ==> s.pipe[j].client != s.pipe[k].client)
  }

  /** The receiver handles an outstanding request, for the session of its client, or a fresh one if it is a mount. */
  predicate RecvOk<S, O(==), R(==)>(s: State<S, O, R>) {
    match s.recv
    case Idle => true
    case Want(msg, sid) => Handling(s, msg, sid)
    case Hold(msg, sid) => Handling(s, msg, sid)
    case Posted(sid) => ValidSid(s, sid) && sid < s.next
  }

  predicate Handling<S, O(==), R(==)>(s: State<S, O, R>, msg: Msg<O>, sid: nat) {
    && Outstanding(s, msg, Received) && ValidSid(s, sid) && sid < s.next
    && if msg.req.Mount? then s.slots[sid - 1].tx == None && !s.slots[sid - 1].active && Waits(s.slots[sid - 1]) else sid == msg.sid
  }

  // ---------------------------------------------------------------- sessions

  /** The worker holds its session lock. */
  predicate Holds<R>(pc: WorkerPC<R>) {
    !(pc.Lock? || pc.Asleep? || pc.Woken? || pc.Exited?)
  }

  /** The worker executes a request. */
  predicate Busy<R>(pc: WorkerPC<R>) {
    pc.Begin? || pc.WantGlobal? || pc.Running? || pc.HaveResult? || pc.Replying? || pc.ShutdownWait? || pc.ShutdownReply?
  }

  /** The worker has nothing to do. */
  predicate Waits<O, R>(w: Slot<O, R>) {
    w.worker.Lock? || w.worker.Test? || w.worker.Asleep? || w.worker.Woken? || w.worker.Unlock?
  }

  /** A request is posted and not answered. */
  predicate Pending<O, R>(w: Slot<O, R>) {
    w.active && !w.worker.Clear? && !w.worker.Leave? && !w.worker.Exited?
  }

  /** Each lock has one holder. */
  predicate LockOk<S, O, R>(s: State<S, O, R>, i: nat)
    requires i < |s.slots|
  {
    && (s.slots[i].lock == Worker <==> Holds(s.slots[i].worker))
    && (s.slots[i].lock == Receiver <==> (s.recv.Hold? || s.recv.Posted?) && s.recv.sid == i + 1)
  }

  /** Where the request in a slot is, as its client's bookkeeping has it. */
  function Stage<O, R>(w: Slot<O, R>, i: nat): Where<R> {
    match w.worker
    case HaveResult(r) => Executed(i + 1, Result(r))
    case Replying(r) => Executed(i + 1, Result(r))
    case ShutdownReply => Executed(i + 1, Ok)
    case _ => AtSession(i + 1)
  }

  /** The request in a slot is the outstanding one of the client of that session. */
  predicate PostOk<S, O(==), R(==)>(s: State<S, O, R>, i: nat)
    requires i < |s.slots|
  {
    var w := s.slots[i];
    && (Pending(w) ==> w.buffer.Some? && Outstanding(s, w.buffer.value, Stage(w, i))
                       && if w.buffer.value.req.Mount? then w.tx == None else w.buffer.value.sid == i + 1)
    && (Busy(w.worker) ==> w.active)
    && (w.worker.WantGlobal? || w.worker.Running? || w.worker.HaveResult? || w.worker.Replying? ==>
          w.buffer.Some? && w.buffer.value.req.Do?)
    && (w.worker.ShutdownWait? || w.worker.ShutdownReply? ==> w.buffer.Some? && w.buffer.value.req.Shutdown?)
  }

  /** The pipe that a session answers to is that of the client that has, or is about to have, its id. */
  predicate TxOk<S, O(==), R(==)>(s: State<S, O, R>, i: nat)
    requires i < |s.slots|
  {
    var w := s.slots[i];
    && (w.tx.Some? ==> w.tx.value < |s.clients| && i + 1 < s.next
                       && var cl := s.clients[w.tx.value];
                          cl.sid == i + 1 || (cl.phase == Waiting(Mount, Replied) && cl.inbox == [Session(i + 1)]))
    && (w.worker.Leave? || w.worker.Exited? ==>
          w.tx.Some? && w.tx.value < |s.clients|
          && var cl := s.clients[w.tx.value];
             cl.sid == i + 1 && (cl.phase.Done? || cl.phase == Waiting(Shutdown, Replied)))
    && (i + 1 >= s.next ==> w.tx == None && !w.active && Waits(w))
    && (w.worker.Unlock? ==> !w.active)
    && (w.worker.Clear? ==> w.tx.Some?)
  }

  /** No wakeup is lost: a worker does not sleep while a request is posted in its slot. */
  predicate AwakeOk<O, R>(w: Slot<O, R>) {
    w.active ==> !w.worker.Asleep?
  }

  ghost predicate SlotsOk<S, O, R>(s: State<S, O, R>) {
    forall i :: 0 <= i < |s.slots| ==> SlotOk(s, i)
  }

  predicate SlotOk<S, O(==), R(==)>(s: State<S, O, R>, i: nat)
    requires i < |s.slots|
  {
    LockOk(s, i) && PostOk(s, i) && TxOk(s, i) && AwakeOk(s.slots[i])
  }

  ghost predicate ClientsOk<S, O, R>(s: State<S, O, R>) {
    forall c :: 0 <= c < |s.clients| ==> ClientOk(s, c) && HistoryOk(s, c)
  }

  /** single_global_lock has one holder, and who runs an operation holds it. */
  ghost predicate GlobalOk<S, O, R>(s: State<S, O, R>) {
    && (s.global.Some? ==> s.global.value < |s.slots|)
    && forall i :: 0 <= i < |s.slots| ==> (s.slots[i].worker.Running? || s.slots[i].worker.HaveResult? <==> s.global == Some(i))
  }

  /** At most one worker has ever entered case_shutdown. */
  ghost predicate ShutdownOk<S, O, R>(s: State<S, O, R>) {
    && |s.entered| <= 1 && (s.shutdownCalled <==> s.entered != [])
    && forall i :: 0 <= i < |s.slots| && (s.slots[i].worker.ShutdownWait? || s.slots[i].worker.ShutdownReply?) ==> s.entered == [i]
  }

  ghost predicate Inv<S, O, R>(s: State<S, O, R>) {
    && |s.slots| == MAX_CLIENTS && 1 <= s.next <= MAX_CLIENTS
    && ClientsOk(s) && PipeOk(s) && RecvOk(s) && SlotsOk(s) && GlobalOk(s) && ShutdownOk(s)
  }

  lemma InitOk<S, O, R>(fs0: S, s: State<S, O, R>)
    requires Init(fs0, s)
    ensures Inv(s)
  {
  }

  // ---------------------------------------------------------------- what a step leaves alone

  /** At most client c changed: it keeps its session id or learns it, and once finished stays so. */
  ghost predicate OnlyClient<S, O, R>(s: State<S, O, R>, s': State<S, O, R>, c: nat) {
    && |s'.clients| == |s.clients|
    && (forall d :: 0 <= d < |s.clients| && d != c ==> s'.clients[d] == s.clients[d])
    && (c < |s.clients| ==> Moves(s.clients[c], s'.clients[c]))
  }

  predicate Moves<O(==), R(==)>(cl: Client<O, R>, cl': Client<O, R>) {
    || cl' == cl
    || (cl.phase == Waiting(Mount, Replied) && cl.inbox == [Session(cl'.sid)] && cl.sid == 0)
    || (cl'.sid == cl.sid && cl.phase != Waiting(Mount, Replied) && !cl.phase.Done?
        && (cl.phase == Waiting(Shutdown, Replied) ==> cl'.phase.Done?))
  }

  /** The outstanding request of client c is at the given place. */
  predicate Stands<S, O, R(==)>(s: State<S, O, R>, c: nat, where: Where<R>) {
    c < |s.clients| && s.clients[c].phase.Waiting? && s.clients[c].phase.where == where
  }

  ghost predicate TxKept<S, O, R>(s: State<S, O, R>, s': State<S, O, R>) {
    |s'.slots| == |s.slots| && s'.next >= s.next
    && forall i :: 0 <= i < |s.slots| && s.slots[i].tx.Some? ==> s'.slots[i].tx == s.slots[i].tx
  }

  lemma SlotFrame<S, O, R>(s: State<S, O, R>, s': State<S, O, R>, c: nat, i: nat)
    requires i < |s.slots| == |s'.slots| && SlotOk(s, i) && s'.slots[i] == s.slots[i] && s'.next >= s.next
    requires OnlyClient(s, s', c) && !Stands(s, c, Stage(s.slots[i], i)) && LockOk(s', i)
    ensures SlotOk(s', i)
  {
  }

  lemma ClientFrame<S, O, R>(s: State<S, O, R>, s': State<S, O, R>, d: nat)
    requires d < |s.clients| == |s'.clients| && ClientOk(s, d) && HistoryOk(s, d) && s'.clients[d] == s.clients[d]
    requires TxKept(s, s') && Requests(s'.log, d) == Requests(s.log, d) && Answers(s'.log, d) == Answers(s.log, d)
    ensures ClientOk(s', d) && HistoryOk(s', d)
  {
    hide Requests, Answers;
  }

  lemma PipeFrame<S, O, R>(s: State<S, O, R>, s': State<S, O, R>, c: nat)
    requires PipeOk(s) && s'.pipe == s.pipe && OnlyClient(s, s', c) && !Stands(s, c, InPipe)
    ensures PipeOk(s')
  {
    hide Moves;
    forall k | 0 <= k < |s'.pipe| ensures Outstanding(s', s'.pipe[k], InPipe) {
      assert Outstanding(s, s.pipe[k], InPipe);
    }
  }

  // ---------------------------------------------------------------- clients act

  lemma AskKeeps<S, O, R>(s: State<S, O, R>, c: nat, req: Req<O>)
    requires Inv(s) && CanAsk(s, c, req)
    ensures Inv(AskAfter(s, c, req))
  {
    hide Requests, Answers, ClientOk, HistoryOk, SlotOk, Stage;
    var s' := AskAfter(s, c, req);
    forall d | 0 <= d < |s'.clients| ensures ClientOk(s', d) && HistoryOk(s', d) {
      if d == c { AskerOk(s, c, req); } else { ClientFrame(s, s', d); }
    }
    AskedPipe(s, c, req);
    forall i | 0 <= i < |s'.slots| ensures SlotOk(s', i) {
      LockFrame(s, s', i);
      SlotFrame(s, s', c, i);
    }
  }

  lemma LockFrame<S, O, R>(s: State<S, O, R>, s': State<S, O, R>, i: nat)
    requires i < |s.slots| == |s'.slots| && SlotOk(s, i) && s'.slots[i] == s.slots[i] && s'.recv == s.recv
    ensures LockOk(s', i)
  {
  }

  lemma AskerOk<S, O, R>(s: State<S, O, R>, c: nat, req: Req<O>)
    requires CanAsk(s, c, req) && ClientOk(s, c) && HistoryOk(s, c)
    ensures ClientOk(AskAfter(s, c, req), c) && HistoryOk(AskAfter(s, c, req), c)
  {
    hide Requests, Answers;
  }

  lemma AskedPipe<S, O, R>(s: State<S, O, R>, c: nat, req: Req<O>)
    requires PipeOk(s) && CanAsk(s, c, req)
    ensures PipeOk(AskAfter(s, c, req))
  {
    var s' := AskAfter(s, c, req);
    forall k | 0 <= k < |s'.pipe| ensures Outstanding(s', s'.pipe[k], InPipe) {
      if k < |s.pipe| { assert Outstanding(s, s.pipe[k], InPipe); }
    }
  }

  lemma HearKeeps<S, O, R>(s: State<S, O, R>, c: nat)
    requires Inv(s) && ReplyOut(s, c)
    ensures Inv(HearAfter(s, c))
  {
    hide Requests, Answers, HistoryOk, SlotOk, Stage, PipeOk, Outstanding;
    var s' := HearAfter(s, c);
    assert ClientOk(s, c);
    forall d | 0 <= d < |s'.clients| ensures ClientOk(s', d) && HistoryOk(s', d) {
      if d == c { HearerOk(s, c); } else { ClientFrame(s, s', d); }
    }
    PipeFrame(s, s', c);
    HeardRecv(s, c);
    forall i | 0 <= i < |s'.slots| ensures SlotOk(s', i) {
      LockFrame(s, s', i);
      NotReplied(s, i);
      SlotFrame(s, s', c, i);
    }
  }

  lemma NotReplied<S, O, R>(s: State<S, O, R>, i: nat)
    requires i < |s.slots|
    ensures !Stage(s.slots[i], i).Replied?
  {
  }

  lemma HearerOk<S, O, R>(s: State<S, O, R>, c: nat)
    requires ReplyOut(s, c) && ClientOk(s, c) && HistoryOk(s, c)
    ensures ClientOk(HearAfter(s, c), c) && HistoryOk(HearAfter(s, c), c)
  {
    hide Requests, Answers;
    var cl := s.clients[c];
    assert cl.inbox == [cl.inbox[0]];
  }

  lemma HeardRecv<S, O, R>(s: State<S, O, R>, c: nat)
    requires ReplyOut(s, c) && ClientOk(s, c) && RecvOk(s)
    ensures RecvOk(HearAfter(s, c))
  {
  }

  // ---------------------------------------------------------------- the receiver acts

  /** The request of client c moves on; nothing else about the client changes. */
  lemma MovedClient<S, O, R>(s: State<S, O, R>, s': State<S, O, R>, c: nat, where: Where<R>)
    requires c < |s.clients| && s.clients[c].phase.Waiting? && s'.clients == At(s, c, where) && TxKept(s, s')
    requires s.clients[c].phase.where.InPipe? || s.clients[c].phase.where.Received? || s.clients[c].phase.where.AtSession?
    requires where.InPipe? || where.Received? || where.AtSession?
    requires ClientsOk(s) && s'.log == s.log
    ensures OnlyClient(s, s', c) && ClientsOk(s')
  {
    hide Requests, Answers;
    assert ClientOk(s, c) && HistoryOk(s, c);
    assert ClientOk(s', c) && HistoryOk(s', c);
    forall d | 0 <= d < |s'.clients| && d != c ensures ClientOk(s', d) && HistoryOk(s', d) {
      ClientFrame(s, s', d);
    }
  }

  lemma TakeKeeps<S, O, R>(s: State<S, O, R>)
    requires Inv(s) && CanTake(s)
    ensures Inv(TakeAfter(s))
  {
    hide Requests, Answers, HistoryOk, ClientOk, SlotOk, ClientsOk, At;
    var s' := TakeAfter(s);
    var msg := s.pipe[0];
    assert Outstanding(s, msg, InPipe);
    MovedClient(s, s', msg.client, Received);
    TakenPipe(s);
    TakenRecv(s);
    forall i | 0 <= i < |s'.slots| ensures SlotOk(s', i) {
      TakenLock(s, i);
      SlotFrame(s, s', msg.client, i);
    }
  }

  lemma TakenLock<S, O, R>(s: State<S, O, R>, i: nat)
    requires i < |s.slots| && SlotOk(s, i) && CanTake(s)
    ensures LockOk(TakeAfter(s), i)
  {
  }

  lemma TakenPipe<S, O, R>(s: State<S, O, R>)
    requires PipeOk(s) && CanTake(s)
    ensures PipeOk(TakeAfter(s))
  {
    var s' := TakeAfter(s);
    forall k | 0 <= k < |s'.pipe| ensures Outstanding(s', s'.pipe[k], InPipe) {
      assert s'.pipe[k] == s.pipe[k + 1];
      assert Outstanding(s, s.pipe[k + 1], InPipe);
      assert s.pipe[0].client != s.pipe[k + 1].client;
    }
    forall j, k | 0 <= j < k < |s'.pipe| ensures s'.pipe[j].client != s'.pipe[k].client {
      assert s.pipe[j + 1].client != s.pipe[k + 1].client;
    }
  }

  lemma TakenRecv<S, O, R>(s: State<S, O, R>)
    requires Inv(s) && CanTake(s)
    ensures RecvOk(TakeAfter(s))
  {
    hide Requests, Answers, HistoryOk;
    var msg := s.pipe[0];
    assert Outstanding(s, msg, InPipe);
    assert ClientOk(s, msg.client);
    if msg.req.Mount? { assert SlotOk(s, s.next - 1); }
  }

  lemma LockSlotKeeps<S, O, R>(s: State<S, O, R>)
    requires Inv(s) && CanLockSlot(s)
    ensures Inv(LockSlotAfter(s))
  {
    hide Requests, Answers, HistoryOk, Outstanding;
    var s' := LockSlotAfter(s);
    forall i | 0 <= i < |s'.slots| ensures SlotOk(s', i) {
      SlotLocked(s, i);
    }
    forall d | 0 <= d < |s'.clients| ensures ClientOk(s', d) && HistoryOk(s', d) {
      ClientFrame(s, s', d);
    }
    RecvMovesOn(s, s');
    NoPipeChange(s, s');
  }

  lemma NoPipeChange<S, O, R>(s: State<S, O, R>, s': State<S, O, R>)
    requires PipeOk(s) && s'.pipe == s.pipe && s'.clients == s.clients
    ensures PipeOk(s')
  {
    forall k | 0 <= k < |s'.pipe| ensures Outstanding(s', s'.pipe[k], InPipe) {
      assert Outstanding(s, s.pipe[k], InPipe);
    }
  }

  lemma SlotLocked<S, O, R>(s: State<S, O, R>, i: nat)
    requires i < |s.slots| && SlotOk(s, i) && CanLockSlot(s)
    ensures SlotOk(LockSlotAfter(s), i)
  {
  }

  lemma RecvMovesOn<S, O, R>(s: State<S, O, R>, s': State<S, O, R>)
    requires RecvOk(s) && CanLockSlot(s) && s' == LockSlotAfter(s)
    ensures RecvOk(s')
  {
  }

  /** The receiver never posts into a slot whose request is not yet answered. */
  lemma NothingOverwritten<S, O, R>(s: State<S, O, R>)
    requires Inv(s) && CanPost(s)
    ensures !s.slots[s.recv.sid - 1].active && Waits(s.slots[s.recv.sid - 1])
  {
    hide Requests, Answers, HistoryOk;
    var i := s.recv.sid - 1;
    assert SlotOk(s, i);
    assert ClientOk(s, s.recv.msg.client);
    PostedClient(s, i);
  }

  lemma PostedClient<S, O, R>(s: State<S, O, R>, i: nat)
    requires ClientsOk(s) && i < |s.slots| && PostOk(s, i)
    ensures Pending(s.slots[i]) ==> ClientOk(s, s.slots[i].buffer.value.client)
  {
  }

  lemma PostKeeps<S, O, R>(s: State<S, O, R>)
    requires Inv(s) && CanPost(s)
    ensures Inv(PostAfter(s))
  {
    hide Requests, Answers, HistoryOk, ClientOk, SlotOk, ClientsOk, At, Stage;
    var s' := PostAfter(s);
    var c := s.recv.msg.client;
    NothingOverwritten(s);
    MovedClient(s, s', c, AtSession(s.recv.sid));
    PipeFrame(s, s', c);
    forall i | 0 <= i < |s'.slots| ensures SlotOk(s', i) {
      if i == s.recv.sid - 1 { SlotPosted(s); } else {
        OtherLock(s, s', i);
        NotReceived(s, i);
        SlotFrame(s, s', c, i);
      }
    }
  }

  lemma NotReceived<S, O, R>(s: State<S, O, R>, i: nat)
    requires i < |s.slots|
    ensures !Stage(s.slots[i], i).Received?
  {
  }

  lemma OtherLock<S, O, R>(s: State<S, O, R>, s': State<S, O, R>, i: nat)
    requires i < |s.slots| == |s'.slots| && SlotOk(s, i) && s'.slots[i] == s.slots[i]
    requires (s'.recv.Hold? || s'.recv.Posted?) && s'.recv.sid == i + 1 <==> (s.recv.Hold? || s.recv.Posted?) && s.recv.sid == i + 1
    ensures LockOk(s', i)
  {
  }

  lemma SlotPosted<S, O, R>(s: State<S, O, R>)
    requires Inv(s) && CanPost(s) && !s.slots[s.recv.sid - 1].active && Waits(s.slots[s.recv.sid - 1])
    ensures SlotOk(PostAfter(s), s.recv.sid - 1)
  {
    hide Requests, Answers, HistoryOk;
    var i := s.recv.sid - 1;
    assert SlotOk(s, i);
    assert ClientOk(s, s.recv.msg.client);
  }

  lemma ReleaseKeeps<S, O, R>(s: State<S, O, R>)
    requires Inv(s) && CanRelease(s)
    ensures Inv(ReleaseAfter(s))
  {
    hide Requests, Answers, HistoryOk, Outstanding;
    var s' := ReleaseAfter(s);
    forall i | 0 <= i < |s'.slots| ensures SlotOk(s', i) {
      SlotReleased(s, i);
    }
    forall d | 0 <= d < |s'.clients| ensures ClientOk(s', d) && HistoryOk(s', d) {
      ClientFrame(s, s', d);
    }
    NoPipeChange(s, s');
  }

  lemma SlotReleased<S, O, R>(s: State<S, O, R>, i: nat)
    requires i < |s.slots| && SlotOk(s, i) && CanRelease(s)
    ensures SlotOk(ReleaseAfter(s), i)
  {
  }

  // ---------------------------------------------------------------- workers act

  /** A step of worker i that changes nothing but its own slot, and not its request nor the client it answers to. */
  predicate OwnSlotOnly<S, O(==), R(==)>(s: State<S, O, R>, s': State<S, O, R>, i: nat) {
    && i < |s.slots| == |s'.slots| && s'.clients == s.clients && s'.log == s.log && s'.pipe == s.pipe
    && s'.recv == s.recv && s'.next == s.next
    && s'.slots[i].tx == s.slots[i].tx
    && (!s.slots[i].active && Waits(s.slots[i]) ==> !s'.slots[i].active && Waits(s'.slots[i]))
  }

  ghost predicate OthersKept<S, O, R>(s: State<S, O, R>, s': State<S, O, R>, i: nat) {
    |s'.slots| == |s.slots| && forall j :: 0 <= j < |s.slots| && j != i ==> s'.slots[j] == s.slots[j]
  }

  /** Such a step keeps what holds of clients, pipe, receiver and the other slots. */
  lemma OwnStep<S, O, R>(s: State<S, O, R>, s': State<S, O, R>, i: nat)
    requires Inv(s) && OwnSlotOnly(s, s', i) && OthersKept(s, s', i) && SlotOk(s', i)
    ensures ClientsOk(s') && PipeOk(s') && RecvOk(s') && SlotsOk(s')
  {
    hide Requests, Answers, HistoryOk, ClientOk, SlotOk, Stage, Outstanding, Waits;
    forall d | 0 <= d < |s'.clients| ensures ClientOk(s', d) && HistoryOk(s', d) {
      ClientFrame(s, s', d);
    }
    NoPipeChange(s, s');
    OwnRecv(s, s', i);
    forall j | 0 <= j < |s'.slots| && j != i ensures SlotOk(s', j) {
      LockFrame(s, s', j);
      StillSlot(s, s', j);
    }
  }

  lemma StillSlot<S, O, R>(s: State<S, O, R>, s': State<S, O, R>, j: nat)
    requires j < |s.slots| == |s'.slots| && SlotOk(s, j) && LockOk(s', j)
    requires s'.slots[j] == s.slots[j] && s'.clients == s.clients && s'.next == s.next
    ensures SlotOk(s', j)
  {
  }

  lemma OwnRecv<S, O, R>(s: State<S, O, R>, s': State<S, O, R>, i: nat)
    requires RecvOk(s) && OwnSlotOnly(s, s', i) && OthersKept(s, s', i)
    ensures RecvOk(s')
  {
    hide Waits;
  }

  /** The steps of a worker that only move it on. */
  predicate Plain<R>(pc: WorkerPC<R>) {
    pc.Lock? || pc.Woken? || pc.Test? || pc.WantGlobal? || pc.HaveResult? || pc.Clear? || pc.Unlock? || pc.Leave?
  }

  lemma PlainOwn<S, O, R>(m: Service<S, O, R>, s: State<S, O, R>, i: nat)
    requires CanWork(m, s, i) && Plain(s.slots[i].worker)
    ensures OwnSlotOnly(s, WorkAfter(m, s, i), i) && OthersKept(s, WorkAfter(m, s, i), i)
  {
  }

  lemma LockingSlot<S, O, R>(m: Service<S, O, R>, s: State<S, O, R>, i: nat)
    requires CanWork(m, s, i) && SlotOk(s, i)
    requires var pc := s.slots[i].worker; pc.Lock? || pc.Woken? || pc.Test? || pc.Unlock? || pc.Leave?
    ensures SlotOk(WorkAfter(m, s, i), i)
  {
    hide Suits, Mine;
  }

  lemma BusySlot<S, O, R>(m: Service<S, O, R>, s: State<S, O, R>, i: nat)
    requires CanWork(m, s, i) && SlotOk(s, i)
    requires var pc := s.slots[i].worker; pc.WantGlobal? || pc.HaveResult? || pc.Clear?
    ensures SlotOk(WorkAfter(m, s, i), i)
  {
    hide Suits, Mine;
  }

  lemma PlainRest<S, O, R>(m: Service<S, O, R>, s: State<S, O, R>, i: nat)
    requires CanWork(m, s, i) && Plain(s.slots[i].worker) && GlobalOk(s) && ShutdownOk(s)
    ensures GlobalOk(WorkAfter(m, s, i)) && ShutdownOk(WorkAfter(m, s, i))
  {
    hide BeginAfter, RunAfter, DestroyAfter, GlobalOk, ShutdownOk;
    PlainGlobal(m, s, i);
    PlainShutdown(m, s, i);
  }

  lemma PlainGlobal<S, O, R>(m: Service<S, O, R>, s: State<S, O, R>, i: nat)
    requires CanWork(m, s, i) && Plain(s.slots[i].worker) && GlobalOk(s)
    ensures GlobalOk(WorkAfter(m, s, i))
  {
    hide BeginAfter, RunAfter, DestroyAfter;
  }

  lemma PlainShutdown<S, O, R>(m: Service<S, O, R>, s: State<S, O, R>, i: nat)
    requires CanWork(m, s, i) && Plain(s.slots[i].worker) && ShutdownOk(s)
    ensures ShutdownOk(WorkAfter(m, s, i))
  {
    hide BeginAfter, RunAfter, DestroyAfter;
  }

  lemma PlainKeeps<S, O, R>(m: Service<S, O, R>, s: State<S, O, R>, i: nat)
    requires Inv(s) && CanWork(m, s, i) && Plain(s.slots[i].worker)
    ensures Inv(WorkAfter(m, s, i)) && ServesOnly(s, WorkAfter(m, s, i), i)
  {
    hide ClientsOk, PipeOk, RecvOk, SlotOk, GlobalOk, ShutdownOk, WorkAfter, OthersKept;
    PlainOwn(m, s, i);
    if Busy(s.slots[i].worker) || s.slots[i].worker.Clear? { BusySlot(m, s, i); } else { LockingSlot(m, s, i); }
    PlainRest(m, s, i);
    OwnStep(s, WorkAfter(m, s, i), i);
  }

  lemma WakeKeeps<S, O, R>(s: State<S, O, R>, i: nat)
    requires Inv(s) && i < |s.slots| && s.slots[i].worker == Asleep
    ensures Inv(PutSlot(s, i, s.slots[i].(worker := Woken)))
  {
    hide ClientsOk, PipeOk, RecvOk, ClientOk, HistoryOk;
    assert SlotOk(s, i);
    OwnStep(s, PutSlot(s, i, s.slots[i].(worker := Woken)), i);
  }

  /** A step of worker i touches no client but the one it serves, and what that one asked and heard stays. */
  ghost predicate ServesOnly<S, O, R>(s: State<S, O, R>, s': State<S, O, R>, i: nat) {
    && i < |s.slots| && |s'.clients| == |s.clients|
    && forall d {:trigger s'.clients[d]} :: 0 <= d < |s.clients| ==>
         && s'.clients[d].got == s.clients[d].got && s'.clients[d].asked == s.clients[d].asked
         && (s'.clients[d] == s.clients[d]
             || (Busy(s.slots[i].worker) && s.slots[i].buffer.Some? && s.slots[i].buffer.value.client == d))
  }

  // ---------------------------------------------------------------- workers answer

  /** The client that a busy worker serves, and its request. */
  lemma Served<S, O, R>(s: State<S, O, R>, i: nat)
    requires Inv(s) && i < |s.slots| && Busy(s.slots[i].worker)
    ensures var w := s.slots[i];
            && w.active && i + 1 < s.next && w.buffer.Some? && w.buffer.value.client < |s.clients|
            && s.clients[w.buffer.value.client].phase == Waiting(w.buffer.value.req, Stage(w, i))
            && s.clients[w.buffer.value.client].inbox == []
            && w.tx == (if w.buffer.value.req.Mount? then None else Some(w.buffer.value.client))
  {
    hide Requests, Answers, HistoryOk, PipeOk, GlobalOk, ShutdownOk, RecvOk;
    assert SlotOk(s, i);
    assert ClientOk(s, s.slots[i].buffer.value.client);
  }

  /** The outcome is on record, and only the reply to be sent. */
  predicate Settled<R>(pc: WorkerPC<R>) {
    pc.Replying? || pc.ShutdownReply?
  }

  /** Worker i has put the answer in the pipe of client c and on record, unless it was there already. */
  ghost predicate Answered<S, O, R>(s: State<S, O, R>, s': State<S, O, R>, i: nat, c: nat, ans: Ans<R>) {
    && i < |s.slots| && c < |s.clients| && s.clients[c].phase.Waiting?
    && s.clients[c].phase.where == Stage(s.slots[i], i) && s.clients[c].inbox == []
    && var req := s.clients[c].phase.req;
       && s'.clients == s.clients[c := s.clients[c].(inbox := [ans], phase := Waiting(req, Replied))]
       && s'.log == (if Settled(s.slots[i].worker) then s.log else s.log + [Entry(c, req, ans, false)])
       && (s.slots[i].worker.Replying? ==> ans == Result(s.slots[i].worker.r))
       && (s.slots[i].worker.ShutdownReply? ==> ans == Ok)
       && Busy(s.slots[i].worker) && !s.slots[i].worker.HaveResult?
       && Suits(s', c, req, ans) && (req.Mount? ==> ans == Session(i + 1))
       && TxKept(s, s') && OthersKept(s, s', i) && s'.pipe == s.pipe && s'.recv == s.recv && s'.next == s.next
  }

  lemma AnsweredClients<S, O, R>(s: State<S, O, R>, s': State<S, O, R>, i: nat, c: nat, ans: Ans<R>)
    requires ClientsOk(s) && Answered(s, s', i, c, ans)
    ensures ClientsOk(s') && OnlyClient(s, s', c)
  {
    hide Requests, Answers, OthersKept;
    assert ClientOk(s, c) && HistoryOk(s, c);
    forall d: nat ensures !Settled(s.slots[i].worker) ==>
      Requests(s'.log, d) == Requests(s.log, d) + (if d == c then [s.clients[c].phase.req] else [])
      && Answers(s'.log, d) == Answers(s.log, d) + (if d == c then [ans] else [])
    {
      if !Settled(s.slots[i].worker) { RecordGrows(s.log, Entry(c, s.clients[c].phase.req, ans, false), d); }
    }
    forall d | 0 <= d < |s'.clients| ensures ClientOk(s', d) && HistoryOk(s', d) {
      if d != c { ClientFrame(s, s', d); }
    }
  }

  lemma AnsweredKeeps<S, O, R>(s: State<S, O, R>, s': State<S, O, R>, i: nat, c: nat, ans: Ans<R>)
    requires Inv(s) && Answered(s, s', i, c, ans) && SlotOk(s', i)
    ensures ClientsOk(s') && PipeOk(s') && RecvOk(s') && SlotsOk(s')
  {
    hide Requests, Answers, HistoryOk, ClientOk, SlotOk, Outstanding, Moves, Suits;
    AnsweredClients(s, s', i, c, ans);
    PipeFrame(s, s', c);
    AnsweredRecv(s, s', i, c, ans);
    forall j | 0 <= j < |s'.slots| && j != i ensures SlotOk(s', j) {
      LockFrame(s, s', j);
      SlotFrame(s, s', c, j);
    }
  }

  lemma AnsweredRecv<S, O, R>(s: State<S, O, R>, s': State<S, O, R>, i: nat, c: nat, ans: Ans<R>)
    requires RecvOk(s) && Answered(s, s', i, c, ans)
    ensures RecvOk(s')
  {
  }

  lemma BeginAnswers<S, O, R>(m: Service<S, O, R>, s: State<S, O, R>, i: nat)
    requires Inv(s) && i < |s.slots| && s.slots[i].worker.Begin? && s.slots[i].buffer.Some?
    requires var req := s.slots[i].buffer.value.req; req.Mount? || req.Unmount? || (req.Shutdown? && s.shutdownCalled)
    ensures Inv(BeginAfter(m, s, i)) && ServesOnly(s, BeginAfter(m, s, i), i)
  {
    hide ClientsOk, PipeOk, RecvOk, GlobalOk, ShutdownOk, Requests, Answers;
    var s' := BeginAfter(m, s, i);
    var c := s.slots[i].buffer.value.client;
    var req := s.slots[i].buffer.value.req;
    var ans := if req.Mount? then Session(i + 1) else if req.Unmount? then Ok else Refused;
    Served(s, i);
    assert SlotOk(s, i);
    assert s.clients[c].inbox + [ans] == [ans];
    assert Answered(s, s', i, c, ans);
    assert SlotOk(s', i);
    AnsweredKeeps(s, s', i, c, ans);
    assert GlobalOk(s') && ShutdownOk(s') by { AnsweredRest(s, s', i); }
  }

  lemma AnsweredRest<S, O, R>(s: State<S, O, R>, s': State<S, O, R>, i: nat)
    requires GlobalOk(s) && ShutdownOk(s) && i < |s.slots| == |s'.slots| && OthersKept(s, s', i)
    requires s'.global == s.global && s'.shutdownCalled == s.shutdownCalled && s'.entered == s.entered
    requires !(s.slots[i].worker.Running? || s.slots[i].worker.HaveResult?)
    requires s'.slots[i].worker.Clear? || s'.slots[i].worker.Leave? || s'.slots[i].worker.WantGlobal?
    ensures GlobalOk(s') && ShutdownOk(s')
  {
  }

  /** What a worker does with its request: answers it, refuses it, or goes on. */
  lemma BeginKeeps<S, O, R>(m: Service<S, O, R>, s: State<S, O, R>, i: nat)
    requires Inv(s) && i < |s.slots| && s.slots[i].worker.Begin?
    ensures Inv(BeginAfter(m, s, i)) && ServesOnly(s, BeginAfter(m, s, i), i)
  {
    hide ClientsOk, PipeOk, RecvOk, GlobalOk, ShutdownOk, SlotOk, BeginAfter, OthersKept;
    Served(s, i);
    var req := s.slots[i].buffer.value.req;
    if Refuses(m, s, req) {
      RefuseKeeps(m, s, i);
    } else if req.Do? || (req.Shutdown? && !s.shutdownCalled) {
      BeginSlot(m, s, i);
      BeginRest(m, s, i);
      OwnStep(s, BeginAfter(m, s, i), i);
    } else {
      BeginAnswers(m, s, i);
    }
  }

  /** An operation that looks at open_flag finds it 0. */
  predicate Refuses<S, O, R>(m: Service<S, O, R>, s: State<S, O, R>, req: Req<O>) {
    req.Do? && m.checked(req.op) && !s.flag
  }

  lemma BeginSlot<S, O, R>(m: Service<S, O, R>, s: State<S, O, R>, i: nat)
    requires i < |s.slots| && s.slots[i].worker.Begin? && s.slots[i].buffer.Some? && SlotOk(s, i)
    requires var req := s.slots[i].buffer.value.req; !Refuses(m, s, req) && (req.Do? || (req.Shutdown? && !s.shutdownCalled))
    ensures OwnSlotOnly(s, BeginAfter(m, s, i), i) && OthersKept(s, BeginAfter(m, s, i), i) && SlotOk(BeginAfter(m, s, i), i)
  {
  }

  lemma BeginRest<S, O, R>(m: Service<S, O, R>, s: State<S, O, R>, i: nat)
    requires GlobalOk(s) && ShutdownOk(s) && i < |s.slots| && s.slots[i].worker.Begin? && s.slots[i].buffer.Some?
    requires var req := s.slots[i].buffer.value.req; !Refuses(m, s, req) && (req.Do? || (req.Shutdown? && !s.shutdownCalled))
    ensures GlobalOk(BeginAfter(m, s, i)) && ShutdownOk(BeginAfter(m, s, i))
  {
  }

  lemma ReplyKeeps<S, O, R>(m: Service<S, O, R>, s: State<S, O, R>, i: nat)
    requires Inv(s) && i < |s.slots| && s.slots[i].worker.Replying?
    ensures Inv(WorkAfter(m, s, i)) && ServesOnly(s, WorkAfter(m, s, i), i)
  {
    hide ClientsOk, PipeOk, RecvOk, GlobalOk, ShutdownOk, Requests, Answers;
    var s' := WorkAfter(m, s, i);
    Served(s, i);
    assert SlotOk(s, i);
    var c := s.slots[i].buffer.value.client;
    var ans := Result(s.slots[i].worker.r);
    assert s.clients[c].inbox + [ans] == [ans];
    assert Answered(s, s', i, c, ans);
    AnsweredKeeps(s, s', i, c, ans);
    AnsweredRest(s, s', i);
  }

  lemma EndKeeps<S, O, R>(m: Service<S, O, R>, s: State<S, O, R>, i: nat)
    requires Inv(s) && i < |s.slots| && s.slots[i].worker.ShutdownReply?
    ensures Inv(WorkAfter(m, s, i)) && ServesOnly(s, WorkAfter(m, s, i), i)
  {
    hide ClientsOk, PipeOk, RecvOk, GlobalOk, ShutdownOk, Requests, Answers;
    var s' := WorkAfter(m, s, i);
    Served(s, i);
    assert SlotOk(s, i);
    var c := s.slots[i].buffer.value.client;
    assert s.clients[c].inbox + [Ok] == [Ok];
    assert Answered(s, s', i, c, Ok);
    AnsweredKeeps(s, s', i, c, Ok);
    AnsweredRest(s, s', i);
  }

  // ---------------------------------------------------------------- workers settle requests

  /** Worker i has put the outcome of the request of client c on record; the reply is still to be sent. */
  ghost predicate OnRecord<S, O, R>(s: State<S, O, R>, s': State<S, O, R>, i: nat, c: nat, e: Entry<O, R>) {
    && i < |s.slots| && c < |s.clients| && e.client == c
    && s.clients[c].phase == Waiting(e.req, AtSession(i + 1)) && Stage(s.slots[i], i) == AtSession(i + 1)
    && s'.clients == s.clients[c := s.clients[c].(phase := Waiting(e.req, Executed(i + 1, e.ans)))]
    && s'.log == s.log + [e] && s.slots[i].active && Busy(s.slots[i].worker)
    && TxKept(s, s') && OthersKept(s, s', i) && s'.pipe == s.pipe && s'.recv == s.recv && s'.next == s.next
  }

  lemma RecordedClients<S, O, R>(s: State<S, O, R>, s': State<S, O, R>, i: nat, c: nat, e: Entry<O, R>)
    requires ClientsOk(s) && OnRecord(s, s', i, c, e)
    ensures ClientsOk(s') && OnlyClient(s, s', c)
  {
    hide Requests, Answers, OthersKept;
    assert ClientOk(s, c) && HistoryOk(s, c);
    forall d: nat ensures
      Requests(s'.log, d) == Requests(s.log, d) + (if d == c then [e.req] else [])
      && Answers(s'.log, d) == Answers(s.log, d) + (if d == c then [e.ans] else [])
    {
      RecordGrows(s.log, e, d);
    }
    forall d | 0 <= d < |s'.clients| ensures ClientOk(s', d) && HistoryOk(s', d) {
      if d != c { ClientFrame(s, s', d); }
    }
  }

  lemma RecordedRecv<S, O, R>(s: State<S, O, R>, s': State<S, O, R>, i: nat, c: nat, e: Entry<O, R>)
    requires RecvOk(s) && OnRecord(s, s', i, c, e)
    ensures RecvOk(s')
  {
  }

  lemma RecordedKeeps<S, O, R>(s: State<S, O, R>, s': State<S, O, R>, i: nat, c: nat, e: Entry<O, R>)
    requires Inv(s) && OnRecord(s, s', i, c, e) && SlotOk(s', i)
    ensures ClientsOk(s') && PipeOk(s') && RecvOk(s') && SlotsOk(s')
  {
    hide Requests, Answers, HistoryOk, ClientOk, SlotOk, Outstanding, Moves;
    RecordedClients(s, s', i, c, e);
    PipeFrame(s, s', c);
    RecordedRecv(s, s', i, c, e);
    forall j | 0 <= j < |s'.slots| && j != i ensures SlotOk(s', j) {
      LockFrame(s, s', j);
      SlotFrame(s, s', c, j);
    }
  }

  lemma RunsOperation<S, O, R>(s: State<S, O, R>, i: nat)
    requires SlotsOk(s) && i < |s.slots| && s.slots[i].worker.Running?
    ensures s.slots[i].buffer.Some? && s.slots[i].buffer.value.req.Do?
  {
    assert SlotOk(s, i);
  }

  /** A worker that is running an operation has one. */
  lemma RunnerHasOperation<S, O, R>(s: State<S, O, R>, i: nat)
    requires Inv(s) && i < |s.slots| && s.slots[i].worker.Running?
    ensures s.slots[i].buffer.Some? && s.slots[i].buffer.value.req.Do?
  {
    RunsOperation(s, i);
  }

  lemma RunKeeps<S, O, R>(m: Service<S, O, R>, s: State<S, O, R>, i: nat)
    requires Inv(s) && i < |s.slots| && s.slots[i].worker.Running?
    ensures Inv(RunAfter(m, s, i)) && ServesOnly(s, RunAfter(m, s, i), i)
  {
    hide ClientsOk, PipeOk, RecvOk, GlobalOk, ShutdownOk, Requests, Answers;
    var s' := RunAfter(m, s, i);
    Served(s, i);
    RunnerHasOperation(s, i);
    assert SlotOk(s, i);
    var msg := s.slots[i].buffer.value;
    var e := Entry(msg.client, msg.req, Result(m.exec(s.fs, msg.req.op).1), true);
    assert OnRecord(s, s', i, msg.client, e);
    assert SlotOk(s', i);
    RecordedKeeps(s, s', i, msg.client, e);
    RunRest(m, s, i);
  }

  lemma RunRest<S, O, R>(m: Service<S, O, R>, s: State<S, O, R>, i: nat)
    requires GlobalOk(s) && ShutdownOk(s) && i < |s.slots| && s.slots[i].worker.Running?
    ensures GlobalOk(RunAfter(m, s, i)) && ShutdownOk(RunAfter(m, s, i))
  {
  }

  lemma RefuseKeeps<S, O, R>(m: Service<S, O, R>, s: State<S, O, R>, i: nat)
    requires Inv(s) && i < |s.slots| && s.slots[i].worker.Begin? && s.slots[i].buffer.Some?
    requires Refuses(m, s, s.slots[i].buffer.value.req)
    ensures Inv(BeginAfter(m, s, i)) && ServesOnly(s, BeginAfter(m, s, i), i)
  {
    hide ClientsOk, PipeOk, RecvOk, GlobalOk, ShutdownOk, Requests, Answers;
    var s' := BeginAfter(m, s, i);
    Served(s, i);
    assert SlotOk(s, i);
    var msg := s.slots[i].buffer.value;
    var e := Entry(msg.client, msg.req, Result(m.refusal(msg.req.op)), false);
    assert OnRecord(s, s', i, msg.client, e);
    assert SlotOk(s', i);
    RecordedKeeps(s, s', i, msg.client, e);
    SettledRest(s, s', i);
  }

  lemma DestroyKeeps<S, O, R>(s: State<S, O, R>, i: nat)
    requires Inv(s) && i < |s.slots| && s.slots[i].worker.ShutdownWait?
    ensures Inv(DestroyAfter(s, i)) && ServesOnly(s, DestroyAfter(s, i), i)
  {
    hide ClientsOk, PipeOk, RecvOk, GlobalOk, ShutdownOk, Requests, Answers;
    var s' := DestroyAfter(s, i);
    Served(s, i);
    assert SlotOk(s, i);
    var msg := s.slots[i].buffer.value;
    var e := Entry(msg.client, Shutdown, Ok, false);
    assert OnRecord(s, s', i, msg.client, e);
    assert SlotOk(s', i);
    RecordedKeeps(s, s', i, msg.client, e);
    SettledRest(s, s', i);
  }

  lemma SettledRest<S, O, R>(s: State<S, O, R>, s': State<S, O, R>, i: nat)
    requires GlobalOk(s) && ShutdownOk(s) && i < |s.slots| == |s'.slots| && OthersKept(s, s', i)
    requires s'.global == s.global && s'.shutdownCalled == s.shutdownCalled && s'.entered == s.entered
    requires s.slots[i].worker.Begin? || s.slots[i].worker.ShutdownWait?
    requires s'.slots[i].worker.Replying? || (s'.slots[i].worker.ShutdownReply? && s.slots[i].worker.ShutdownWait?)
    ensures GlobalOk(s') && ShutdownOk(s')
  {
  }

  // ---------------------------------------------------------------- every step

  lemma WorkKeeps<S, O, R>(m: Service<S, O, R>, s: State<S, O, R>, i: nat)
    requires Inv(s) && CanWork(m, s, i)
    ensures Inv(WorkAfter(m, s, i)) && ServesOnly(s, WorkAfter(m, s, i), i)
  {
    hide Inv, BeginAfter, RunAfter, DestroyAfter;
    match s.slots[i].worker
    case Begin => BeginKeeps(m, s, i);
    case Running => RunKeeps(m, s, i);
    case Replying(r) => ReplyKeeps(m, s, i);
    case ShutdownWait => DestroyKeeps(s, i);
    case ShutdownReply => EndKeeps(m, s, i);
    case _ => PlainKeeps(m, s, i);
  }

  lemma StepKeeps<S, O, R>(m: Service<S, O, R>, s: State<S, O, R>, a: Action<O>)
    requires Inv(s) && Can(m, s, a)
    ensures Inv(After(m, s, a))
  {
    hide Inv, WorkAfter, CanWork;
    match a
    case Ask(c, req) => AskKeeps(s, c, req);
    case Hear(c) => HearKeeps(s, c);
    case Take => TakeKeeps(s);
    case LockSlot => LockSlotKeeps(s);
    case Post => PostKeeps(s);
    case Release => ReleaseKeeps(s);
    case Work(i) => WorkKeeps(m, s, i);
    case Wake(i) => WakeKeeps(s, i);
  }

  lemma {:induction false} RunKeepsInv<S, O, R>(m: Service<S, O, R>, fs0: S,
                                                run: seq<State<S, O, R>>, acts: seq<Action<O>>, k: nat)
    requires Run(m, fs0, run, acts) && k < |run|
    ensures Inv(run[k])
  {
    hide Inv, Can, After, Init;
    if k == 0 {
      InitOk(fs0, run[0]);
    } else {
      RunKeepsInv(m, fs0, run, acts, k - 1);
      StepKeeps(m, run[k - 1], acts[k - 1]);
    }
  }
}
