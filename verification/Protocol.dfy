/**
  The client-server protocol of parte-2: any number of clients that wait for each reply, the pipe that all of them write
  to, the receiver thread that posts each request into the slot of its session, and one worker per session.
  A step takes or releases one lock, or sleeps or wakes, or works on data that its locks protect.
 */
module Protocol {
  import opened Options

  const MAX_CLIENTS := 64

  /** A request: O is the type of the file system's operations. */
  datatype Req<O> = Mount | Do(op: O) | Unmount | Shutdown

  /** A reply: R is the type of the results of operations. */
  datatype Ans<R> = Session(sid: nat) | Result(r: R) | Ok | Refused

  /** Where the outstanding request of a client is. */
  datatype Where<R> = InPipe | Received | AtSession(sid: nat) | Executed(slot: nat, ans: Ans<R>) | Replied

  datatype Phase<O, R> = Unmounted | Ready | Waiting(req: Req<O>, where: Where<R>) | Done

  /** A client: its session id once mounted, the replies in its own pipe, what it asked and what it got so far. */
  datatype Client<O, R> = Client(phase: Phase<O, R>, sid: nat, inbox: seq<Ans<R>>, asked: seq<Req<O>>, got: seq<Ans<R>>)

  /** A request in the pipe. A mount carries the name of the client's pipe; all others carry the session id, and their
      client is known to nobody but the bookkeeping. */
  datatype Msg<O> = Msg(client: nat, sid: nat, req: Req<O>)

  /** The receiver waits for the next request, or for the lock of a session, or holds it, or has posted into it. */
  datatype Recv<O> = Idle | Want(msg: Msg<O>, sid: nat) | Hold(msg: Msg<O>, sid: nat) | Posted(sid: nat)

  datatype Holder = Nobody | Receiver | Worker

  /** Where a worker is in thread_handler. */
  datatype WorkerPC<R> =
    | Lock | Test | Asleep | Woken | Begin
    | WantGlobal | Running | HaveResult(r: R) | Replying(r: R)
    | ShutdownWait | ShutdownReply
    | Clear | Unlock | Leave | Exited

  /** A slot: session_lock, is_active, buffer, the client whose pipe `tx` is, and the worker. */
  datatype Slot<O, R> = Slot(lock: Holder, active: bool, buffer: Option<Msg<O>>, tx: Option<nat>, worker: WorkerPC<R>)

  /** A request on record, with its answer; `ran` tells whether the file system ran it. */
  datatype Entry<O, R> = Entry(client: nat, req: Req<O>, ans: Ans<R>, ran: bool)

  /** What the server serves: one operation under the global lock; whether no file is open; which operations look at
      open_flag before they want the lock, and what they return when it is 0; and which results the client's call takes
      out of its pipe whole. */
  datatype Service<!S, !O, !R> = Service(
    exec: (S, O) -> (S, R), quiet: S -> bool, checked: O -> bool, refusal: O -> R, framed: (O, R) -> bool)

  /** `flag` is open_flag; `global` is the session whose worker holds single_global_lock; `entered` are the sessions whose
      worker has entered case_shutdown; `log` is the order in which requests were executed. */
  datatype State<S, O, R> = State(
    clients: seq<Client<O, R>>, pipe: seq<Msg<O>>, recv: Recv<O>, next: nat, slots: seq<Slot<O, R>>,
    fs: S, flag: bool, global: Option<nat>, shutdownCalled: bool, entered: seq<nat>, halted: bool, log: seq<Entry<O, R>>)

  datatype Action<O> =
    | Ask(c: nat, req: Req<O>) | Hear(c: nat)
    | Take | LockSlot | Post | Release
    | Work(i: nat) | Wake(i: nat)

  // ---------------------------------------------------------------- clients

  /** A client mounts first; then it asks for operations; an unmount or a shutdown is its last request. */
  predicate CanAsk<S, O, R>(s: State<S, O, R>, c: nat, req: Req<O>) {
    c < |s.clients| && if req.Mount? then s.clients[c].phase.Unmounted? else s.clients[c].phase.Ready?
  }

  function AskAfter<S, O, R>(s: State<S, O, R>, c: nat, req: Req<O>): State<S, O, R>
    requires c < |s.clients|
  {
    var cl := s.clients[c];
    s.(clients := s.clients[c := cl.(phase := Waiting(req, InPipe), asked := cl.asked + [req])],
       pipe := s.pipe + [Msg(c, cl.sid, req)])
  }

  /** The reply is one that the call that asked takes out of the pipe whole. */
  predicate Framed<S, O, R>(m: Service<S, O, R>, req: Req<O>, ans: Ans<R>) {
    req.Do? && ans.Result? ==> m.framed(req.op, ans.r)
  }

  /** A reply is in the pipe of client c, which waits for one. */
  predicate ReplyOut<S, O, R>(s: State<S, O, R>, c: nat) {
    c < |s.clients| && s.clients[c].phase.Waiting? && s.clients[c].inbox != []
  }

  /** A client hears a reply only if it is framed. After any other its call does not return, or leaves bytes behind that the next
      call takes for its reply: the machine follows such a client no further. */
  predicate CanHear<S, O, R>(m: Service<S, O, R>, s: State<S, O, R>, c: nat) {
    ReplyOut(s, c) && Framed(m, s.clients[c].phase.req, s.clients[c].inbox[0])
  }

  function HearAfter<S, O, R>(s: State<S, O, R>, c: nat): State<S, O, R>
    requires ReplyOut(s, c)
  {
    var cl := s.clients[c];
    var ans := cl.inbox[0];
    s.(clients := s.clients[c := cl.(
         phase := if cl.phase.req.Unmount? || cl.phase.req.Shutdown? then Done else Ready,
         sid := if cl.phase.req.Mount? && ans.Session? then ans.sid else cl.sid,
         inbox := cl.inbox[1..],
         got := cl.got + [ans])])
  }

  // ---------------------------------------------------------------- the receiver

  predicate CanTake<S, O, R>(s: State<S, O, R>) {
    s.recv.Idle? && s.pipe != [] && (s.pipe[0].req.Mount? ==> s.next < MAX_CLIENTS)
  }

  function At<S, O, R>(s: State<S, O, R>, c: nat, where: Where<R>): seq<Client<O, R>> {
    if c < |s.clients| && s.clients[c].phase.Waiting? then
      s.clients[c := s.clients[c].(phase := s.clients[c].phase.(where := where))]
    else s.clients
  }

  function TakeAfter<S, O, R>(s: State<S, O, R>): State<S, O, R>
    requires CanTake(s)
  {
    var msg := s.pipe[0];
    var s1 := s.(pipe := s.pipe[1..], clients := At(s, msg.client, Received));
    if msg.req.Mount? then s1.(recv := Want(msg, s.next), next := s.next + 1) else s1.(recv := Want(msg, msg.sid))
  }

  predicate ValidSid<S, O, R>(s: State<S, O, R>, sid: nat) {
    1 <= sid <= |s.slots|
  }

  predicate CanLockSlot<S, O, R>(s: State<S, O, R>) {
    s.recv.Want? && ValidSid(s, s.recv.sid) && s.slots[s.recv.sid - 1].lock == Nobody
  }

  function PutSlot<S, O, R>(s: State<S, O, R>, i: nat, w: Slot<O, R>): State<S, O, R>
    requires i < |s.slots|
  {
    s.(slots := s.slots[i := w])
  }

  function LockSlotAfter<S, O, R>(s: State<S, O, R>): State<S, O, R>
    requires CanLockSlot(s)
  {
    var i := s.recv.sid - 1;
    PutSlot(s, i, s.slots[i].(lock := Receiver)).(recv := Hold(s.recv.msg, s.recv.sid))
  }

  predicate CanPost<S, O, R>(s: State<S, O, R>) {
    s.recv.Hold? && ValidSid(s, s.recv.sid)
  }

  /** The request goes into the slot, is_active is set, and the worker is signalled. */
  function PostAfter<S, O, R>(s: State<S, O, R>): State<S, O, R>
    requires CanPost(s)
  {
    var i := s.recv.sid - 1;
    var w := s.slots[i];
    PutSlot(s, i, w.(buffer := Some(s.recv.msg), active := true, worker := if w.worker == Asleep then Woken else w.worker)).(
      recv := Posted(s.recv.sid), clients := At(s, s.recv.msg.client, AtSession(s.recv.sid)))
  }

  predicate CanRelease<S, O, R>(s: State<S, O, R>) {
    s.recv.Posted? && ValidSid(s, s.recv.sid)
  }

  function ReleaseAfter<S, O, R>(s: State<S, O, R>): State<S, O, R>
    requires CanRelease(s)
  {
    var i := s.recv.sid - 1;
    PutSlot(s, i, s.slots[i].(lock := Nobody)).(recv := Idle)
  }

  // ---------------------------------------------------------------- the workers

  /** A reply goes into the pipe of client c, and the request is on the record. */
  function Reply<S, O, R>(s: State<S, O, R>, c: Option<nat>, ans: Ans<R>): (s': State<S, O, R>)
    ensures s'.slots == s.slots && s'.flag == s.flag && s'.log == s.log && s'.fs == s.fs && s'.shutdownCalled == s.shutdownCalled
  {
    if c.Some? && c.value < |s.clients| then
      var cl := s.clients[c.value];
      s.(clients := s.clients[c.value := cl.(inbox := cl.inbox + [ans],
                                             phase := if cl.phase.Waiting? then cl.phase.(where := Replied) else cl.phase)])
    else s
  }

  function Record<S, O, R>(s: State<S, O, R>, c: Option<nat>, req: Req<O>, ans: Ans<R>, ran: bool): (s': State<S, O, R>)
    ensures s'.slots == s.slots && s'.flag == s.flag && s'.fs == s.fs && s'.clients == s.clients
    ensures s'.shutdownCalled == s.shutdownCalled
    ensures s'.log == s.log + if c.Some? then [Entry(c.value, req, ans, ran)] else []
  {
    assert s.log + [] == s.log;
    if c.Some? then s.(log := s.log + [Entry(c.value, req, ans, ran)]) else s
  }

  /** The outcome of the request in slot i is on record, and its reply still to be sent. */
  function Settle<S, O, R>(s: State<S, O, R>, i: nat, req: Req<O>, ans: Ans<R>, ran: bool): (s': State<S, O, R>)
    requires i < |s.slots|
    ensures s'.slots == s.slots && s'.flag == s.flag && s'.fs == s.fs && s'.shutdownCalled == s.shutdownCalled
    ensures s'.log == s.log + if s.slots[i].tx.Some? then [Entry(s.slots[i].tx.value, req, ans, ran)] else []
  {
    var c := s.slots[i].tx;
    var s1 := Record(s, c, req, ans, ran);
    if c.Some? then s1.(clients := At(s1, c.value, Executed(i + 1, ans))) else s1
  }

  predicate CanWork<S, O, R>(m: Service<S, O, R>, s: State<S, O, R>, i: nat) {
    && i < |s.slots|
    && var w := s.slots[i];
       match w.worker
       case Lock => w.lock == Nobody
       case Woken => w.lock == Nobody
       case Asleep => false
       case Exited => false
       case WantGlobal => s.global.None?
       case ShutdownWait => m.quiet(s.fs)
       case _ => true
  }

  /** What a worker does once it has found its slot active: dispatch on the request. An open is refused when open_flag is 0. */
  function BeginAfter<S, O, R>(m: Service<S, O, R>, s: State<S, O, R>, i: nat): State<S, O, R>
    requires i < |s.slots|
  {
    var w := s.slots[i];
    if w.buffer.None? then PutSlot(s, i, w.(worker := Clear))
    else
      var msg := w.buffer.value;
      match msg.req
      case Mount =>
        Record(Reply(PutSlot(s, i, w.(tx := Some(msg.client), worker := Clear)), Some(msg.client), Session(i + 1)),
               Some(msg.client), Mount, Session(i + 1), false)
      case Unmount => Record(Reply(PutSlot(s, i, w.(worker := Clear)), w.tx, Ok), w.tx, Unmount, Ok, false)
      case Do(op) =>
        if m.checked(op) && !s.flag then
          Settle(PutSlot(s, i, w.(worker := Replying(m.refusal(op)))), i, Do(op), Result(m.refusal(op)), false)
        else PutSlot(s, i, w.(worker := WantGlobal))
      case Shutdown =>
        if s.shutdownCalled then Record(Reply(PutSlot(s, i, w.(worker := Leave)), w.tx, Refused), w.tx, Shutdown, Refused, false)
        else PutSlot(s, i, w.(worker := ShutdownWait)).(shutdownCalled := true, entered := s.entered + [i])
  }

  /** The operation runs under the global lock. */
  function RunAfter<S, O, R>(m: Service<S, O, R>, s: State<S, O, R>, i: nat): State<S, O, R>
    requires i < |s.slots|
  {
    var w := s.slots[i];
    if w.buffer.None? || !w.buffer.value.req.Do? then s
    else
      var op := w.buffer.value.req.op;
      var out := m.exec(s.fs, op);
      Settle(PutSlot(s, i, w.(worker := HaveResult(out.1))).(fs := out.0), i, Do(op), Result(out.1), true)
  }

  /** No file is open: opens are refused from now on. */
  function DestroyAfter<S, O, R>(s: State<S, O, R>, i: nat): State<S, O, R>
    requires i < |s.slots|
  {
    Settle(PutSlot(s, i, s.slots[i].(worker := ShutdownReply)).(flag := false), i, Shutdown, Ok, false)
  }

  function WorkAfter<S, O, R>(m: Service<S, O, R>, s: State<S, O, R>, i: nat): State<S, O, R>
    requires i < |s.slots|
  {
    var w := s.slots[i];
    match w.worker
    case Lock => PutSlot(s, i, w.(lock := Worker, worker := Test))
    case Woken => PutSlot(s, i, w.(lock := Worker, worker := Test))
    case Test => PutSlot(s, i, if w.active then w.(worker := Begin) else w.(lock := Nobody, worker := Asleep))
    case Begin => BeginAfter(m, s, i)
    case WantGlobal => PutSlot(s, i, w.(worker := Running)).(global := Some(i))
    case Running => RunAfter(m, s, i)
    case HaveResult(r) => PutSlot(s, i, w.(worker := Replying(r))).(global := None)
    case Replying(r) => Reply(PutSlot(s, i, w.(worker := Clear)), w.tx, Result(r))
    case ShutdownWait => DestroyAfter(s, i)
    case ShutdownReply => Reply(PutSlot(s, i, w.(worker := Leave)), w.tx, Ok).(halted := true)
    case Clear => PutSlot(s, i, w.(active := false, buffer := None, worker := Unlock))
    case Unlock => PutSlot(s, i, w.(lock := Nobody, worker := Lock))
    case Leave => PutSlot(s, i, w.(lock := Nobody, worker := Exited))
    case _ => s
  }

  // ---------------------------------------------------------------- runs

  predicate Can<S, O, R>(m: Service<S, O, R>, s: State<S, O, R>, a: Action<O>) {
    !s.halted &&
    match a
    case Ask(c, req) => CanAsk(s, c, req)
    case Hear(c) => CanHear(m, s, c)
    case Take => CanTake(s)
    case LockSlot => CanLockSlot(s)
    case Post => CanPost(s)
    case Release => CanRelease(s)
    case Work(i) => CanWork(m, s, i)
    case Wake(i) => i < |s.slots| && s.slots[i].worker == Asleep
  }

  function After<S, O, R>(m: Service<S, O, R>, s: State<S, O, R>, a: Action<O>): State<S, O, R>
    requires Can(m, s, a)
  {
    match a
    case Ask(c, req) => AskAfter(s, c, req)
    case Hear(c) => HearAfter(s, c)
    case Take => TakeAfter(s)
    case LockSlot => LockSlotAfter(s)
    case Post => PostAfter(s)
    case Release => ReleaseAfter(s)
    case Work(i) => WorkAfter(m, s, i)
    case Wake(i) => PutSlot(s, i, s.slots[i].(worker := Woken))
  }

  /** The server has just started on file system fs0, and no client has asked for anything. */
  ghost predicate Init<S, O, R>(fs0: S, s: State<S, O, R>) {
    && s.fs == fs0
    && (forall c :: 0 <= c < |s.clients| ==> s.clients[c] == Client(Unmounted, 0, [], [], []))
    && s.pipe == [] && s.recv == Idle && s.next == 1
    && |s.slots| == MAX_CLIENTS && (forall i :: 0 <= i < |s.slots| ==> s.slots[i] == Slot(Nobody, false, None, None, Lock))
    && s.flag && s.global == None && !s.shutdownCalled && s.entered == [] && !s.halted && s.log == []
  }

  ghost predicate Run<S, O, R>(m: Service<S, O, R>, fs0: S, run: seq<State<S, O, R>>, acts: seq<Action<O>>) {
    && |run| == |acts| + 1 && Init(fs0, run[0])
    && forall k :: 0 <= k < |acts| ==> Can(m, run[k], acts[k]) && run[k + 1] == After(m, run[k], acts[k])
  }
}
