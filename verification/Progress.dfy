/** No client waits in vain: whatever stage its request is at, some step that leads on is possible. */
module Progress {
  import opened Options
  import opened Protocol
  import opened Handshake

  /** Where the outstanding request of a client is said to be, there it is. */
  ghost predicate PlacedOk<S, O, R>(s: State<S, O, R>, c: nat)
    requires c < |s.clients|
  {
    s.clients[c].phase.Waiting? ==>
      match s.clients[c].phase.where
      case InPipe => InPipeOf(s.pipe, c)
      case Received => (s.recv.Want? || s.recv.Hold?) && s.recv.msg.client == c
      case AtSession(sid) => ValidSid(s, sid) && InSlot(s, c, sid - 1)
      case Executed(sid, ans) => ValidSid(s, sid) && InSlot(s, c, sid - 1)
      case Replied => true
  }

  ghost predicate InPipeOf<O>(pipe: seq<Msg<O>>, c: nat) {
    exists k :: 0 <= k < |pipe| && pipe[k].client == c
  }

  predicate InSlot<S, O, R>(s: State<S, O, R>, c: nat, i: nat)
    requires i < |s.slots|
  {
    Pending(s.slots[i]) && s.slots[i].buffer.Some? && s.slots[i].buffer.value.client == c
  }

  ghost predicate PlacesOk<S, O, R>(s: State<S, O, R>) {
    forall c :: 0 <= c < |s.clients| ==> PlacedOk(s, c)
  }

  /** A client other than the one whose request moves keeps its place. */
  lemma PlaceFrame<S, O, R>(s: State<S, O, R>, s': State<S, O, R>, d: nat)
    requires d < |s.clients| == |s'.clients| && PlacedOk(s, d) && s'.clients[d] == s.clients[d] && |s'.slots| == |s.slots|
    requires InPipeOf(s.pipe, d) ==> InPipeOf(s'.pipe, d)
    requires s.recv.Idle? || s'.recv == s.recv || (s.recv.Want? && s'.recv == Hold(s.recv.msg, s.recv.sid))
          || (!s.recv.Posted? && s.recv.msg.client != d) || s.recv.Posted?
    requires forall i :: 0 <= i < |s.slots| && InSlot(s, d, i) ==> InSlot(s', d, i)
    ensures PlacedOk(s', d)
  {
    hide InPipeOf, InSlot;
  }

  lemma AskPlaces<S, O, R>(s: State<S, O, R>, c: nat, req: Req<O>)
    requires PlacesOk(s) && CanAsk(s, c, req)
    ensures PlacesOk(AskAfter(s, c, req))
  {
    var s' := AskAfter(s, c, req);
    forall d | 0 <= d < |s'.clients| ensures PlacedOk(s', d) {
      if d == c {
        assert s'.pipe[|s.pipe|].client == c;
      } else {
        if k :| 0 <= k < |s.pipe| && s.pipe[k].client == d { assert s'.pipe[k].client == d; }
        PlaceFrame(s, s', d);
      }
    }
  }

  lemma HearPlaces<S, O, R>(s: State<S, O, R>, c: nat)
    requires PlacesOk(s) && ReplyOut(s, c)
    ensures PlacesOk(HearAfter(s, c))
  {
    hide PlacedOk, InPipeOf;
    var s' := HearAfter(s, c);
    forall d | 0 <= d < |s'.clients| ensures PlacedOk(s', d) {
      if d == c { HearerPlace(s, c); } else { PlaceFrame(s, s', d); }
    }
  }

  lemma HearerPlace<S, O, R>(s: State<S, O, R>, c: nat)
    requires ReplyOut(s, c)
    ensures PlacedOk(HearAfter(s, c), c)
  {
  }

  lemma TakePlaces<S, O, R>(s: State<S, O, R>)
    requires PlacesOk(s) && PipeOk(s) && CanTake(s)
    ensures PlacesOk(TakeAfter(s))
  {
    hide Outstanding;
    var s' := TakeAfter(s);
    var c := s.pipe[0].client;
    forall d | 0 <= d < |s'.clients| ensures PlacedOk(s', d) {
      if d != c {
        if k :| 0 <= k < |s.pipe| && s.pipe[k].client == d { assert s'.pipe[k - 1].client == d; }
        PlaceFrame(s, s', d);
      } else {
        assert Outstanding(s, s.pipe[0], InPipe);
      }
    }
  }

  lemma LockPlaces<S, O, R>(s: State<S, O, R>)
    requires PlacesOk(s) && CanLockSlot(s)
    ensures PlacesOk(LockSlotAfter(s))
  {
    hide PlacedOk, InPipeOf;
    forall d | 0 <= d < |s.clients| ensures PlacedOk(LockSlotAfter(s), d) {
      PlaceFrame(s, LockSlotAfter(s), d);
    }
  }

  lemma PostPlaces<S, O, R>(s: State<S, O, R>)
    requires Inv(s) && PlacesOk(s) && CanPost(s)
    ensures PlacesOk(PostAfter(s))
  {
    hide Inv, InPipeOf;
    NothingOverwritten(s);
    var s' := PostAfter(s);
    forall d | 0 <= d < |s'.clients| ensures PlacedOk(s', d) {
      if d != s.recv.msg.client { PlaceFrame(s, s', d); }
    }
  }

  lemma ReleasePlaces<S, O, R>(s: State<S, O, R>)
    requires PlacesOk(s) && CanRelease(s)
    ensures PlacesOk(ReleaseAfter(s))
  {
    hide PlacedOk, InPipeOf;
    forall d | 0 <= d < |s.clients| ensures PlacedOk(ReleaseAfter(s), d) {
      PlaceFrame(s, ReleaseAfter(s), d);
    }
  }

  lemma WakePlaces<S, O, R>(s: State<S, O, R>, i: nat)
    requires PlacesOk(s) && i < |s.slots| && s.slots[i].worker == Asleep
    ensures PlacesOk(PutSlot(s, i, s.slots[i].(worker := Woken)))
  {
    hide PlacedOk, InPipeOf;
    var s' := PutSlot(s, i, s.slots[i].(worker := Woken));
    forall d | 0 <= d < |s.clients| ensures PlacedOk(s', d) {
      PlaceFrame(s, s', d);
    }
  }

  /** A step of worker i that leaves the request in its slot, or answers or executes it for its client. */
  lemma SlotPlaces<S, O, R>(s: State<S, O, R>, s': State<S, O, R>, i: nat, c: nat)
    requires PlacesOk(s) && |s'.clients| == |s.clients| && s'.pipe == s.pipe && s'.recv == s.recv
    requires OthersKept(s, s', i) && i < |s.slots|
    requires forall d :: 0 <= d < |s.clients| && d != c ==> s'.clients[d] == s.clients[d]
    requires c < |s.clients| ==> PlacedOk(s', c)
    requires forall d :: d != c && InSlot(s, d, i) ==> InSlot(s', d, i)
    ensures PlacesOk(s')
  {
    hide PlacedOk, InPipeOf, InSlot;
    forall d | 0 <= d < |s'.clients| ensures PlacedOk(s', d) {
      if d != c {
        forall j | 0 <= j < |s.slots| && InSlot(s, d, j) ensures InSlot(s', d, j) {
          if j != i { SameSlot(s, s', d, j); }
        }
        PlaceFrame(s, s', d);
      }
    }
  }

  lemma SameSlot<S, O, R>(s: State<S, O, R>, s': State<S, O, R>, d: nat, j: nat)
    requires j < |s.slots| == |s'.slots| && s'.slots[j] == s.slots[j]
    ensures InSlot(s', d, j) == InSlot(s, d, j)
  {
  }

  lemma PlainKeepsRequest<S, O, R>(m: Service<S, O, R>, s: State<S, O, R>, i: nat, d: nat)
    requires CanWork(m, s, i) && Plain(s.slots[i].worker) && TxOk(s, i) && InSlot(s, d, i)
    ensures InSlot(WorkAfter(m, s, i), d, i)
  {
  }

  lemma PlainPlaces<S, O, R>(m: Service<S, O, R>, s: State<S, O, R>, i: nat)
    requires SlotsOk(s) && PlacesOk(s) && CanWork(m, s, i) && Plain(s.slots[i].worker)
    ensures PlacesOk(WorkAfter(m, s, i))
  {
    hide PlacesOk, WorkAfter, InSlot, OthersKept, LockOk, PostOk, TxOk;
    PlainOwn(m, s, i);
    assert SlotOk(s, i);
    forall d | InSlot(s, d, i) ensures InSlot(WorkAfter(m, s, i), d, i) {
      PlainKeepsRequest(m, s, i, d);
    }
    SlotPlaces(s, WorkAfter(m, s, i), i, |s.clients|);
  }

  /** A step that settles or answers the request in slot i moves its client only. */
  lemma ServedPlaces<S, O, R>(s: State<S, O, R>, s': State<S, O, R>, i: nat, c: nat)
    requires PlacesOk(s) && i < |s.slots| && c < |s.clients| && OthersKept(s, s', i) && s'.pipe == s.pipe && s'.recv == s.recv
    requires s.slots[i].buffer.Some? && s.slots[i].buffer.value.client == c
    requires |s'.clients| == |s.clients| && forall d :: 0 <= d < |s.clients| && d != c ==> s'.clients[d] == s.clients[d]
    requires s'.clients[c].phase.Waiting? && (s'.clients[c].phase.where.Replied? || HereOn(s', c, i))
    ensures PlacesOk(s')
  {
    hide PlacesOk, OthersKept;
    SlotPlaces(s, s', i, c);
  }

  /** The request of client c is in slot i, on record. */
  predicate HereOn<S, O, R>(s: State<S, O, R>, c: nat, i: nat)
    requires c < |s.clients| && s.clients[c].phase.Waiting?
  {
    i < |s.slots| && s.clients[c].phase.where.Executed? && s.clients[c].phase.where.slot == i + 1 && InSlot(s, c, i)
  }

  lemma BeginPlaces<S, O, R>(m: Service<S, O, R>, s: State<S, O, R>, i: nat)
    requires Inv(s) && PlacesOk(s) && i < |s.slots| && s.slots[i].worker.Begin?
    ensures PlacesOk(BeginAfter(m, s, i))
  {
    hide Inv, PlacesOk;
    Served(s, i);
    var c := s.slots[i].buffer.value.client;
    var req := s.slots[i].buffer.value.req;
    if !Refuses(m, s, req) && (req.Do? || (req.Shutdown? && !s.shutdownCalled)) {
      SlotPlaces(s, BeginAfter(m, s, i), i, |s.clients|);
    } else {
      ServedPlaces(s, BeginAfter(m, s, i), i, c);
    }
  }

  lemma RunPlaces<S, O, R>(m: Service<S, O, R>, s: State<S, O, R>, i: nat)
    requires Inv(s) && PlacesOk(s) && i < |s.slots| && s.slots[i].worker.Running?
    ensures PlacesOk(RunAfter(m, s, i))
  {
    hide Inv, PlacesOk;
    Served(s, i);
    RunnerHasOperation(s, i);
    ServedPlaces(s, RunAfter(m, s, i), i, s.slots[i].buffer.value.client);
  }

  lemma DestroyPlaces<S, O, R>(s: State<S, O, R>, i: nat)
    requires Inv(s) && PlacesOk(s) && i < |s.slots| && s.slots[i].worker.ShutdownWait?
    ensures PlacesOk(DestroyAfter(s, i))
  {
    hide Inv, PlacesOk;
    Served(s, i);
    RepliesToClient(s, i);
    ServedPlaces(s, DestroyAfter(s, i), i, s.slots[i].buffer.value.client);
  }

  lemma WorkPlaces<S, O, R>(m: Service<S, O, R>, s: State<S, O, R>, i: nat)
    requires Inv(s) && PlacesOk(s) && CanWork(m, s, i)
    ensures PlacesOk(WorkAfter(m, s, i))
  {
    hide ClientsOk, PipeOk, RecvOk, SlotsOk, GlobalOk, ShutdownOk, PlacesOk, BeginAfter, RunAfter, DestroyAfter;
    match s.slots[i].worker
    case Begin => BeginPlaces(m, s, i);
    case Running => RunPlaces(m, s, i);
    case ShutdownWait => DestroyPlaces(s, i);
    case Replying(r) => RepliedPlaces(m, s, i);
    case ShutdownReply => RepliedPlaces(m, s, i);
    case _ => PlainPlaces(m, s, i);
  }

  lemma RepliedPlaces<S, O, R>(m: Service<S, O, R>, s: State<S, O, R>, i: nat)
    requires Inv(s) && PlacesOk(s) && i < |s.slots| && Settled(s.slots[i].worker)
    ensures PlacesOk(WorkAfter(m, s, i))
  {
    hide Inv, PlacesOk, BeginAfter, RunAfter, DestroyAfter;
    Served(s, i);
    RepliesToClient(s, i);
    ServedPlaces(s, WorkAfter(m, s, i), i, s.slots[i].buffer.value.client);
  }

  lemma RepliesToClient<S, O, R>(s: State<S, O, R>, i: nat)
    requires Inv(s) && i < |s.slots| && (Settled(s.slots[i].worker) || s.slots[i].worker.ShutdownWait?)
    ensures s.slots[i].buffer.Some? && !s.slots[i].buffer.value.req.Mount?
  {
    assert SlotOk(s, i);
  }

  lemma StepPlaces<S, O, R>(m: Service<S, O, R>, s: State<S, O, R>, a: Action<O>)
    requires Inv(s) && PlacesOk(s) && Can(m, s, a)
    ensures PlacesOk(After(m, s, a))
  {
    hide ClientsOk, RecvOk, SlotsOk, GlobalOk, ShutdownOk, PlacesOk, WorkAfter, CanWork, PipeOk;
    match a
    case Ask(c, req) => AskPlaces(s, c, req);
    case Hear(c) => HearPlaces(s, c);
    case Take => TakePlaces(s);
    case LockSlot => LockPlaces(s);
    case Post => PostPlaces(s);
    case Release => ReleasePlaces(s);
    case Work(i) => WorkPlaces(m, s, i);
    case Wake(i) => WakePlaces(s, i);
  }

  lemma {:induction false} RunKeepsPlaces<S, O, R>(m: Service<S, O, R>, fs0: S,
                                                  run: seq<State<S, O, R>>, acts: seq<Action<O>>, k: nat)
    requires Run(m, fs0, run, acts) && k < |run|
    ensures PlacesOk(run[k])
  {
    hide Inv, Can, After;
    if k > 0 {
      RunKeepsPlaces(m, fs0, run, acts, k - 1);
      RunKeepsInv(m, fs0, run, acts, k - 1);
      StepPlaces(m, run[k - 1], acts[k - 1]);
    }
  }

  // ---------------------------------------------------------------- the next step towards a reply

  /** The step that the receiver, or who keeps it waiting, takes next. */
  function Receive<S, O, R>(s: State<S, O, R>): Action<O> {
    match s.recv
    case Idle => Take
    case Want(msg, sid) => if ValidSid(s, sid) && s.slots[sid - 1].lock == Worker then Work(sid - 1) else LockSlot
    case Hold(msg, sid) => Post
    case Posted(sid) => Release
  }

  /** The step that the worker of slot i, or who keeps it waiting, takes next. */
  function Serve<S, O, R>(s: State<S, O, R>, i: nat): Action<O>
    requires i < |s.slots|
  {
    if s.slots[i].worker.WantGlobal? && s.global.Some? then Work(s.global.value)
    else if s.slots[i].lock == Receiver then Receive(s)
    else Work(i)
  }

  /** The next step on the way of the request of client c. */
  function Onward<S, O, R>(s: State<S, O, R>, c: nat): Action<O>
    requires c < |s.clients| && s.clients[c].phase.Waiting?
  {
    match s.clients[c].phase.where
    case InPipe => Receive(s)
    case Received => Receive(s)
    case AtSession(sid) => if ValidSid(s, sid) then Serve(s, sid - 1) else Hear(c)
    case Executed(sid, ans) => if ValidSid(s, sid) then Serve(s, sid - 1) else Hear(c)
    case Replied => Hear(c)
  }

  // ---------------------------------------------------------------- how far it is

  /** How many requests are ahead of that of client c. */
  function Ahead<O>(pipe: seq<Msg<O>>, c: nat): nat {
    if pipe == [] || pipe[0].client == c then 0 else 1 + Ahead(pipe[1..], c)
  }

  /** The steps until the receiver is back at the pipe. */
  function ReceiverSteps<S, O, R>(s: State<S, O, R>): nat {
    match s.recv
    case Idle => 0
    case Posted(sid) => 1
    case Hold(msg, sid) => 2
    case Want(msg, sid) =>
      3 + if !ValidSid(s, sid) || s.slots[sid - 1].lock != Worker then 0 else if s.slots[sid - 1].worker.Clear? then 2 else 1
  }

  /** The steps until single_global_lock is free. */
  function GlobalSteps<S, O, R>(s: State<S, O, R>): nat {
    if s.global.None? || s.global.value >= |s.slots| then 0
    else if s.slots[s.global.value].worker.Running? then 2
    else 1
  }

  /** The steps until the worker of slot i has replied. */
  function WorkerSteps<S, O, R>(s: State<S, O, R>, i: nat): nat
    requires i < |s.slots|
  {
    match s.slots[i].worker
    case Replying(r) => 1
    case ShutdownReply => 1
    case HaveResult(r) => 2
    case ShutdownWait => 2
    case Running => 3
    case WantGlobal => 4 + GlobalSteps(s)
    case Begin => 7
    case Test => 8
    case Lock => if s.slots[i].lock == Receiver then 10 else 9
    case Woken => if s.slots[i].lock == Receiver then 10 else 9
    case _ => 0
  }

  /** How many steps at most the request of client c is away from its reply. */
  function Distance<S, O, R>(s: State<S, O, R>, c: nat): nat
    requires c < |s.clients|
  {
    if !s.clients[c].phase.Waiting? then 0
    else
      match s.clients[c].phase.where
      case InPipe => ReceiverSteps(s) + 6 * Ahead(s.pipe, c) + 18
      case Received => ReceiverSteps(s) + 12
      case AtSession(sid) => if ValidSid(s, sid) then 1 + WorkerSteps(s, sid - 1) else 0
      case Executed(sid, ans) => if ValidSid(s, sid) then 1 + WorkerSteps(s, sid - 1) else 0
      case Replied => 1
  }

  /** A slot that the receiver waits for is one that its worker is about to leave. */
  lemma WantedIsFree<S, O, R>(s: State<S, O, R>)
    requires Inv(s) && s.recv.Want?
    ensures var w := s.slots[s.recv.sid - 1];
            && ValidSid(s, s.recv.sid)
            && (w.lock == Nobody || (w.lock == Worker && ((w.worker.Test? && !w.active) || w.worker.Clear? || w.worker.Unlock?)))
  {
    hide Requests, Answers, HistoryOk, PipeOk, GlobalOk, ShutdownOk;
    var i := s.recv.sid - 1;
    assert SlotOk(s, i);
    assert ClientOk(s, s.recv.msg.client);
    PostedClient(s, i);
  }

  lemma ReceiverMoves<S, O, R>(m: Service<S, O, R>, s: State<S, O, R>)
    requires Inv(s) && !s.halted && !s.recv.Idle?
    ensures Can(m, s, Receive(s))
  {
    hide ClientsOk, PipeOk, SlotsOk, GlobalOk, ShutdownOk;
    if s.recv.Want? { WantedIsFree(s); }
  }

  lemma WorkerMoves<S, O, R>(m: Service<S, O, R>, s: State<S, O, R>, i: nat)
    requires Inv(s) && !s.halted && i < |s.slots| && Pending(s.slots[i])
    requires s.slots[i].worker.ShutdownWait? ==> m.quiet(s.fs)
    ensures Can(m, s, Serve(s, i))
  {
    hide ClientsOk, PipeOk, ShutdownOk, RecvOk, Requests, Answers;
    assert SlotOk(s, i);
    if s.slots[i].lock == Receiver { ReceiverMoves(m, s); }
  }

  // ---------------------------------------------------------------- the step lowers the distance

  /** The step of a worker that is about to leave its slot brings the receiver closer, and moves no client. */
  lemma LeavingCloser<S, O, R>(m: Service<S, O, R>, s: State<S, O, R>)
    requires s.recv.Want? && ValidSid(s, s.recv.sid) && !s.halted
    requires var w := s.slots[s.recv.sid - 1];
             w.lock == Worker && ((w.worker.Test? && !w.active) || w.worker.Clear? || w.worker.Unlock?)
    ensures var s' := After(m, s, Work(s.recv.sid - 1));
            && s'.clients == s.clients && s'.pipe == s.pipe && s'.recv == s.recv && s'.next == s.next && !s'.halted
            && ReceiverSteps(s') < ReceiverSteps(s)
  {
    hide BeginAfter, RunAfter, DestroyAfter;
  }

  /** What the receiver does next brings it closer to the pipe; a client moves only when its request is posted. */
  lemma ReceiverCloser<S, O, R>(m: Service<S, O, R>, s: State<S, O, R>)
    requires Inv(s) && !s.halted && !s.recv.Idle?
    ensures Can(m, s, Receive(s)) && !Receive(s).Ask? && !Receive(s).Wake?
    ensures var s' := After(m, s, Receive(s));
            && ReceiverSteps(s') < ReceiverSteps(s) && s'.pipe == s.pipe && s'.next == s.next && !s'.halted
            && if s.recv.Hold? then s' == PostAfter(s)
               else s'.clients == s.clients && (s.recv.Want? ==> s'.recv.Want? || s'.recv.Hold?)
  {
    hide Inv, WorkAfter;
    ReceiverMoves(m, s);
    if s.recv.Want? {
      WantedIsFree(s);
      if s.slots[s.recv.sid - 1].lock == Worker { LeavingCloser(m, s); }
    }
  }

  lemma {:induction false} WorkerStepsBounded<S, O, R>(s: State<S, O, R>, i: nat)
    requires i < |s.slots|
    ensures WorkerSteps(s, i) <= 10
  {
  }

  /** A request in the pipe gets closer as the receiver works its way to it. */
  lemma InPipeCloser<S, O, R>(m: Service<S, O, R>, s: State<S, O, R>, c: nat)
    requires Inv(s) && PlacesOk(s) && !s.halted && c < |s.clients| && s.clients[c].phase.Waiting?
    requires s.clients[c].phase.where.InPipe?
    requires HeadFits(s)
    ensures Can(m, s, Receive(s)) && !Receive(s).Ask? && !Receive(s).Wake?
    ensures c < |After(m, s, Receive(s)).clients| && Distance(After(m, s, Receive(s)), c) < Distance(s, c)
  {
    hide PlacesOk, ClientsOk, PipeOk, SlotsOk, GlobalOk, ShutdownOk, ReceiverSteps, WorkAfter;
    if s.recv.Idle? {
      TakeCloser(s, c);
    } else {
      ReceiverCloser(m, s);
      if s.recv.Hold? { PostLeaves(s, c); }
    }
  }

  lemma PostLeaves<S, O, R>(s: State<S, O, R>, c: nat)
    requires Inv(s) && CanPost(s) && c < |s.clients| && s.clients[c].phase.Waiting? && s.clients[c].phase.where.InPipe?
    ensures |PostAfter(s).clients| == |s.clients| && PostAfter(s).clients[c] == s.clients[c]
  {
    hide ClientsOk, PipeOk, SlotsOk, GlobalOk, ShutdownOk;
  }

  /** If the next request is a mount, a session is left for it. */
  predicate HeadFits<S, O, R>(s: State<S, O, R>) {
    s.recv.Idle? && s.pipe != [] && s.pipe[0].req.Mount? ==> s.next < MAX_CLIENTS
  }

  lemma TakeCloser<S, O, R>(s: State<S, O, R>, c: nat)
    requires Inv(s) && PlacesOk(s) && s.recv.Idle? && c < |s.clients| && s.clients[c].phase.Waiting?
    requires s.clients[c].phase.where.InPipe?
    requires HeadFits(s)
    ensures CanTake(s) && c < |TakeAfter(s).clients| && Distance(TakeAfter(s), c) < Distance(s, c)
  {
    hide ClientsOk, SlotsOk, GlobalOk, ShutdownOk;
    assert PlacedOk(s, c);
    assert Outstanding(s, s.pipe[0], InPipe);
  }

  /** A request that the receiver holds gets closer to its session. */
  lemma ReceivedCloser<S, O, R>(m: Service<S, O, R>, s: State<S, O, R>, c: nat)
    requires Inv(s) && PlacesOk(s) && !s.halted && c < |s.clients| && s.clients[c].phase.Waiting?
    requires s.clients[c].phase.where.Received?
    ensures Can(m, s, Receive(s)) && !Receive(s).Ask? && !Receive(s).Wake?
    ensures c < |After(m, s, Receive(s)).clients| && Distance(After(m, s, Receive(s)), c) < Distance(s, c)
  {
    hide PlacesOk, ClientsOk, PipeOk, SlotsOk, GlobalOk, ShutdownOk, WorkerSteps, WorkAfter;
    assert PlacedOk(s, c) by { PlacesHere(s, c); }
    ReceiverCloser(m, s);
    if s.recv.Hold? { WorkerStepsBounded(PostAfter(s), s.recv.sid - 1); }
  }

  lemma PlacesHere<S, O, R>(s: State<S, O, R>, c: nat)
    requires PlacesOk(s) && c < |s.clients|
    ensures PlacedOk(s, c)
  {
  }

  /** The request of client c is in slot i, before it or on record. */
  ghost predicate AtWorker<S, O, R>(s: State<S, O, R>, c: nat, i: nat) {
    && c < |s.clients| && s.clients[c].phase.Waiting? && i < |s.slots| && InSlot(s, c, i)
    && s.clients[c].phase.where == Stage(s.slots[i], i)
  }

  lemma GlobalCloser<S, O, R>(m: Service<S, O, R>, s: State<S, O, R>, c: nat, i: nat)
    requires Inv(s) && !s.halted && AtWorker(s, c, i) && s.slots[i].worker.WantGlobal? && s.global.Some?
    ensures var s' := After(m, s, Serve(s, i));
            && Can(m, s, Serve(s, i)) && !s'.halted && s'.next == s.next && AtWorker(s', c, i)
            && s'.slots[i] == s.slots[i] && GlobalSteps(s') < GlobalSteps(s) && s'.clients[c] == s.clients[c]
  {
    hide ClientsOk, PipeOk, RecvOk, ShutdownOk, WorkAfter, LockOk, PostOk, TxOk, AwakeOk;
    var g := s.global.value;
    assert s.slots[g].worker.Running? || s.slots[g].worker.HaveResult?;
    assert g != i;
    HolderMovesOn(m, s, g);
    Served(s, g);
  }

  /** The holder of the global lock runs its operation, or gives the lock back. */
  lemma HolderMovesOn<S, O, R>(m: Service<S, O, R>, s: State<S, O, R>, g: nat)
    requires Inv(s) && g < |s.slots| && s.global == Some(g) && (s.slots[g].worker.Running? || s.slots[g].worker.HaveResult?)
    ensures var s' := WorkAfter(m, s, g);
            && s'.slots == s.slots[g := s'.slots[g]] && s'.halted == s.halted && s'.next == s.next && |s'.clients| == |s.clients|
            && (forall d :: 0 <= d < |s.clients| && (s.slots[g].buffer.None? || d != s.slots[g].buffer.value.client) ==>
                  s'.clients[d] == s.clients[d])
            && if s.slots[g].worker.Running? then s'.global == s.global && s'.slots[g].worker.HaveResult? else s'.global.None?
  {
    hide Inv, BeginAfter, DestroyAfter;
    Served(s, g);
    if s.slots[g].worker.Running? { RunnerHasOperation(s, g); }
  }

  lemma UnlockCloser<S, O, R>(m: Service<S, O, R>, s: State<S, O, R>, c: nat, i: nat)
    requires Inv(s) && !s.halted && AtWorker(s, c, i) && s.slots[i].lock == Receiver
    ensures Serve(s, i) == Release && CanRelease(s) && (s.slots[i].worker.Lock? || s.slots[i].worker.Woken?)
    ensures var s' := ReleaseAfter(s);
            && !s'.halted && s'.next == s.next && AtWorker(s', c, i) && s'.slots[i] == s.slots[i].(lock := Nobody)
            && s'.clients == s.clients
  {
    hide ClientsOk, PipeOk, GlobalOk, ShutdownOk;
    assert SlotOk(s, i);
    if s.recv.Hold? { NothingOverwritten(s); }
  }

  /** The request of client c is answered, or still at worker i and closer to its answer. */
  ghost predicate CloserAt<S, O, R>(s: State<S, O, R>, s': State<S, O, R>, c: nat, i: nat)
    requires AtWorker(s, c, i)
  {
    && c < |s'.clients| && s'.clients[c].phase.Waiting? && s'.clients[c].phase.req == s.clients[c].phase.req
    && s'.next == s.next && (s'.halted ==> s.clients[c].phase.req.Shutdown?)
    && WorkerSteps(s, i) > 0
    && (s'.clients[c].phase.where.Replied? || (AtWorker(s', c, i) && WorkerSteps(s', i) < WorkerSteps(s, i)))
  }

  lemma BeginCloser<S, O, R>(m: Service<S, O, R>, s: State<S, O, R>, c: nat, i: nat)
    requires Inv(s) && !s.halted && AtWorker(s, c, i) && s.slots[i].worker.Begin?
    ensures CloserAt(s, BeginAfter(m, s, i), c, i)
  {
    hide Inv, CloserAt, BeginAfter;
    Served(s, i);
    if s.clients[c].phase.req.Do? { BeginOperation(m, s, c, i); } else { BeginOther(m, s, c, i); }
  }

  lemma BeginOperation<S, O, R>(m: Service<S, O, R>, s: State<S, O, R>, c: nat, i: nat)
    requires Inv(s) && !s.halted && AtWorker(s, c, i) && s.slots[i].worker.Begin? && s.clients[c].phase.req.Do?
    ensures CloserAt(s, BeginAfter(m, s, i), c, i)
  {
    hide Inv, Reply;
    Served(s, i);
  }

  lemma BeginOther<S, O, R>(m: Service<S, O, R>, s: State<S, O, R>, c: nat, i: nat)
    requires Inv(s) && !s.halted && AtWorker(s, c, i) && s.slots[i].worker.Begin? && !s.clients[c].phase.req.Do?
    ensures CloserAt(s, BeginAfter(m, s, i), c, i)
  {
    hide Inv, Settle, GlobalSteps;
    Served(s, i);
  }

  lemma RunCloser<S, O, R>(m: Service<S, O, R>, s: State<S, O, R>, c: nat, i: nat)
    requires Inv(s) && !s.halted && AtWorker(s, c, i) && s.slots[i].worker.Running?
    ensures CloserAt(s, RunAfter(m, s, i), c, i)
  {
    hide Inv;
    Served(s, i);
    RunnerHasOperation(s, i);
  }

  lemma DestroyCloser<S, O, R>(s: State<S, O, R>, c: nat, i: nat)
    requires Inv(s) && !s.halted && AtWorker(s, c, i) && s.slots[i].worker.ShutdownWait?
    ensures CloserAt(s, DestroyAfter(s, i), c, i)
  {
    hide Inv;
    Served(s, i);
    RepliesToClient(s, i);
  }

  lemma ReplyCloser<S, O, R>(m: Service<S, O, R>, s: State<S, O, R>, c: nat, i: nat)
    requires Inv(s) && !s.halted && AtWorker(s, c, i) && Settled(s.slots[i].worker)
    ensures CloserAt(s, WorkAfter(m, s, i), c, i)
  {
    hide BeginAfter, RunAfter, DestroyAfter, ClientsOk, PipeOk, RecvOk, GlobalOk, ShutdownOk;
    Served(s, i);
    RepliesToClient(s, i);
    assert SlotOk(s, i);
  }

  lemma PlainCloser<S, O, R>(m: Service<S, O, R>, s: State<S, O, R>, c: nat, i: nat)
    requires Inv(s) && !s.halted && AtWorker(s, c, i) && CanWork(m, s, i) && Plain(s.slots[i].worker)
    ensures CloserAt(s, WorkAfter(m, s, i), c, i)
  {
    hide BeginAfter, RunAfter, DestroyAfter, ClientsOk, PipeOk, RecvOk, GlobalOk, ShutdownOk;
    assert SlotOk(s, i);
  }

  lemma LeftIsPlain<S, O, R>(m: Service<S, O, R>, s: State<S, O, R>, c: nat, i: nat)
    requires AtWorker(s, c, i) && CanWork(m, s, i)
    ensures Plain(s.slots[i].worker) || Busy(s.slots[i].worker)
  {
  }

  lemma WorkCloser<S, O, R>(m: Service<S, O, R>, s: State<S, O, R>, c: nat, i: nat)
    requires Inv(s) && !s.halted && AtWorker(s, c, i) && CanWork(m, s, i)
    ensures CloserAt(s, WorkAfter(m, s, i), c, i)
  {
    hide Inv, CloserAt, BeginAfter, RunAfter, DestroyAfter;
    match s.slots[i].worker
    case Begin => BeginCloser(m, s, c, i);
    case Running => RunCloser(m, s, c, i);
    case ShutdownWait => DestroyCloser(s, c, i);
    case Replying(r) => ReplyCloser(m, s, c, i);
    case ShutdownReply => ReplyCloser(m, s, c, i);
    case _ => LeftIsPlain(m, s, c, i); PlainCloser(m, s, c, i);
  }

  /** A request at its session gets closer to its reply: its worker works, or who keeps it waiting does. */
  lemma ServedCloser<S, O, R>(m: Service<S, O, R>, s: State<S, O, R>, c: nat, i: nat)
    requires Inv(s) && !s.halted && AtWorker(s, c, i)
    requires s.slots[i].worker.ShutdownWait? ==> m.quiet(s.fs)
    ensures Can(m, s, Serve(s, i)) && !Serve(s, i).Ask? && !Serve(s, i).Wake?
    ensures CloserAt(s, After(m, s, Serve(s, i)), c, i)
  {
    hide Inv, Can, After, WorkAfter;
    WorkerMoves(m, s, i);
    AtServe(m, s, i);
    if s.slots[i].worker.WantGlobal? && s.global.Some? {
      GlobalCloser(m, s, c, i);
    } else if s.slots[i].lock == Receiver {
      UnlockCloser(m, s, c, i);
    } else {
      WorkCloser(m, s, c, i);
    }
  }

  lemma AtServe<S, O, R>(m: Service<S, O, R>, s: State<S, O, R>, i: nat)
    requires i < |s.slots| && Can(m, s, Serve(s, i))
    ensures Serve(s, i).Work? ==> CanWork(m, s, Serve(s, i).i) && After(m, s, Serve(s, i)) == WorkAfter(m, s, Serve(s, i).i)
    ensures Serve(s, i).Release? ==> After(m, s, Serve(s, i)) == ReleaseAfter(s)
  {
    hide WorkAfter, CanWork;
  }

  // ---------------------------------------------------------------- what the protocol promises

  /** Nothing keeps client c waiting: the next mount finds a session, its own shutdown finds no file open, and a reply that is
      out fits its call. */
  predicate Unhindered<S, O, R>(m: Service<S, O, R>, s: State<S, O, R>, c: nat)
    requires c < |s.clients| && s.clients[c].phase.Waiting?
  {
    match s.clients[c].phase.where
    case InPipe => HeadFits(s)
    case AtSession(sid) => ValidSid(s, sid) && s.slots[sid - 1].worker.ShutdownWait? ==> m.quiet(s.fs)
    case Replied => s.clients[c].inbox != [] ==> Framed(m, s.clients[c].phase.req, s.clients[c].inbox[0])
    case _ => true
  }

  lemma RepliedCloser<S, O, R>(m: Service<S, O, R>, s: State<S, O, R>, c: nat)
    requires Inv(s) && !s.halted && c < |s.clients| && s.clients[c].phase.Waiting? && s.clients[c].phase.where.Replied?
    ensures Can(m, s, Hear(c)) <==> Unhindered(m, s, c)
    ensures Can(m, s, Hear(c)) ==> c < |After(m, s, Hear(c)).clients| && Distance(After(m, s, Hear(c)), c) < Distance(s, c)
  {
    hide PipeOk, RecvOk, SlotsOk, GlobalOk, ShutdownOk, HistoryOk, Framed;
    assert ClientOk(s, c);
  }

  /** The request of a client is at the slot that its place names. */
  lemma PlacedAtWorker<S, O, R>(s: State<S, O, R>, c: nat)
    requires Inv(s) && PlacesOk(s) && c < |s.clients| && s.clients[c].phase.Waiting?
    ensures var where := s.clients[c].phase.where;
            && (where.AtSession? ==> ValidSid(s, where.sid) && AtWorker(s, c, where.sid - 1))
            && (where.Executed? ==>
                  ValidSid(s, where.slot) && AtWorker(s, c, where.slot - 1) && !s.slots[where.slot - 1].worker.ShutdownWait?)
  {
    hide ClientsOk, PipeOk, RecvOk, GlobalOk, ShutdownOk;
    assert PlacedOk(s, c);
    var where := s.clients[c].phase.where;
    if where.AtSession? { assert SlotOk(s, where.sid - 1); }
    if where.Executed? { assert SlotOk(s, where.slot - 1); }
  }

  /** Worker i waits for the last file to be closed, and one is open. */
  lemma WaitsForFiles<S, O, R>(m: Service<S, O, R>, s: State<S, O, R>, i: nat)
    requires Inv(s) && i < |s.slots| && s.slots[i].worker.ShutdownWait? && !m.quiet(s.fs)
    ensures !Can(m, s, Serve(s, i))
  {
    assert SlotOk(s, i);
  }

  lemma CloserIsNearer<S, O, R>(s: State<S, O, R>, s': State<S, O, R>, c: nat, i: nat)
    requires AtWorker(s, c, i) && CloserAt(s, s', c, i)
    ensures c < |s'.clients| && Distance(s', c) < Distance(s, c)
  {
    hide WorkerSteps;
  }

  lemma ServedStep<S, O, R>(m: Service<S, O, R>, s: State<S, O, R>, c: nat, i: nat)
    requires Inv(s) && !s.halted && AtWorker(s, c, i)
    ensures Can(m, s, Serve(s, i)) <==> (s.slots[i].worker.ShutdownWait? ==> m.quiet(s.fs))
    ensures Can(m, s, Serve(s, i)) ==> !Serve(s, i).Ask? && !Serve(s, i).Wake? && CloserAt(s, After(m, s, Serve(s, i)), c, i)
    ensures Can(m, s, Serve(s, i)) ==>
              c < |After(m, s, Serve(s, i)).clients| && Distance(After(m, s, Serve(s, i)), c) < Distance(s, c)
  {
    hide Inv, Can, After, CloserAt, Serve, Distance;
    if s.slots[i].worker.ShutdownWait? && !m.quiet(s.fs) {
      WaitsForFiles(m, s, i);
    } else {
      ServedCloser(m, s, c, i);
      CloserIsNearer(s, After(m, s, Serve(s, i)), c, i);
    }
  }

  /** The way to the reply of client c goes on from here. */
  ghost predicate GoesOn<S, O, R>(m: Service<S, O, R>, s: State<S, O, R>, c: nat)
    requires c < |s.clients| && s.clients[c].phase.Waiting?
  {
    var a := Onward(s, c);
    && Can(m, s, a) && !a.Ask? && !a.Wake?
    && c < |After(m, s, a).clients| && Distance(After(m, s, a), c) < Distance(s, c)
  }

  lemma HeadBlocks<S, O, R>(m: Service<S, O, R>, s: State<S, O, R>)
    requires !HeadFits(s)
    ensures !Can(m, s, Receive(s))
  {
  }

  lemma StepsOn<S, O, R>(m: Service<S, O, R>, s: State<S, O, R>, c: nat)
    requires Inv(s) && PlacesOk(s) && !s.halted && c < |s.clients| && s.clients[c].phase.Waiting?
    ensures Can(m, s, Onward(s, c)) <==> Unhindered(m, s, c)
    ensures Unhindered(m, s, c) ==> GoesOn(m, s, c)
  {
    hide Inv, PlacesOk, Can, After, Receive, Serve, Framed, AtWorker, HeadFits, WorkerSteps, ReceiverSteps;
    match s.clients[c].phase.where
    case InPipe => if HeadFits(s) { InPipeCloser(m, s, c); } else { HeadBlocks(m, s); }
    case Received => ReceivedCloser(m, s, c);
    case AtSession(sid) => PlacedAtWorker(s, c); ServedStep(m, s, c, sid - 1);
    case Executed(sid, ans) => PlacedAtWorker(s, c); ServedStep(m, s, c, sid - 1);
    case Replied => RepliedCloser(m, s, c);
  }

  /** At every moment of every run, while the server is up: the next step on the way of a waiting client is possible exactly when
      none of the three hindrances stands, and it brings the client nearer to its reply. No wakeup is lost on the way: the step is
      never that of another client's request, and never a spurious wakeup. */
  lemma NoStall<S, O, R>(m: Service<S, O, R>, fs0: S, run: seq<State<S, O, R>>, acts: seq<Action<O>>, k: nat, c: nat)
    requires Run(m, fs0, run, acts) && k < |run| && !run[k].halted
    requires c < |run[k].clients| && run[k].clients[c].phase.Waiting?
    ensures Can(m, run[k], Onward(run[k], c)) <==> Unhindered(m, run[k], c)
    ensures Unhindered(m, run[k], c) ==> GoesOn(m, run[k], c)
  {
    hide Inv, PlacesOk, Run, Can, After, GoesOn, Unhindered;
    RunKeepsInv(m, fs0, run, acts, k);
    RunKeepsPlaces(m, fs0, run, acts, k);
    StepsOn(m, run[k], c);
  }

  // ---------------------------------------------------------------- the way to the reply

  /** How many mounts have to be taken before client c's request, itself included. */
  function MountsUpTo<O>(pipe: seq<Msg<O>>, c: nat): nat {
    if pipe == [] then 0
    else (if pipe[0].req.Mount? then 1 else 0) + if pipe[0].client == c then 0 else MountsUpTo(pipe[1..], c)
  }

  /** Every mount that has to be taken before client c's request finds a session. */
  predicate MountsFit<S, O, R>(s: State<S, O, R>, c: nat)
    requires c < |s.clients| && s.clients[c].phase.Waiting?
  {
    s.clients[c].phase.where.InPipe? ==> s.next + MountsUpTo(s.pipe, c) <= MAX_CLIENTS
  }

  /** Going on from here, one step after the other, the reply of client c is out after at most n steps. */
  ghost predicate Arrives<S, O, R>(m: Service<S, O, R>, s: State<S, O, R>, c: nat, n: nat)
    decreases n
  {
    && c < |s.clients| && s.clients[c].phase.Waiting?
    && (s.clients[c].phase.where.Replied?
        || (n > 0 && GoesOn(m, s, c) && Arrives(m, After(m, s, Onward(s, c)), c, n - 1)))
  }

  lemma {:induction false} ArrivesInTime<S, O, R>(m: Service<S, O, R>, s: State<S, O, R>, c: nat, n: nat, n': nat)
    requires Arrives(m, s, c, n) && n <= n'
    ensures Arrives(m, s, c, n')
    decreases n
  {
    hide Can, After, Onward, Distance;
    if !s.clients[c].phase.where.Replied? { ArrivesInTime(m, After(m, s, Onward(s, c)), c, n - 1, n' - 1); }
  }

  /** The step on the way leaves what the client asked, and what the way needs. */
  ghost predicate StillOnWay<S, O, R>(s: State<S, O, R>, s': State<S, O, R>, c: nat)
    requires c < |s.clients| && s.clients[c].phase.Waiting?
  {
    && c < |s'.clients| && s'.clients[c].phase.Waiting? && s'.clients[c].phase.req == s.clients[c].phase.req
    && (!s'.clients[c].phase.where.Replied? ==> !s'.halted || s.clients[c].phase.req.Shutdown?)
    && MountsFit(s', c)
  }

  lemma StaysOnWay<S, O, R>(m: Service<S, O, R>, s: State<S, O, R>, c: nat)
    requires Inv(s) && PlacesOk(s) && !s.halted && c < |s.clients| && s.clients[c].phase.Waiting? && MountsFit(s, c)
    requires !s.clients[c].phase.where.Replied? && Can(m, s, Onward(s, c))
    ensures StillOnWay(s, After(m, s, Onward(s, c)), c)
  {
    hide Inv, PlacesOk, Can, After, Serve, AtWorker, WorkerSteps, ReceiverSteps, Receive;
    match s.clients[c].phase.where
    case InPipe => ReceivedOnWay(m, s, c);
    case Received => ReceivedOnWay(m, s, c);
    case AtSession(sid) => ServedOnWay(m, s, c, sid);
    case Executed(sid, ans) => ServedOnWay(m, s, c, sid);
  }

  lemma ServedOnWay<S, O, R>(m: Service<S, O, R>, s: State<S, O, R>, c: nat, sid: nat)
    requires Inv(s) && PlacesOk(s) && !s.halted && c < |s.clients| && s.clients[c].phase.Waiting?
    requires var where := s.clients[c].phase.where; (where.AtSession? && where.sid == sid) || (where.Executed? && where.slot == sid)
    requires Can(m, s, Onward(s, c))
    ensures StillOnWay(s, After(m, s, Onward(s, c)), c)
  {
    hide Inv, PlacesOk, Can, After, Serve, AtWorker, WorkerSteps;
    PlacedAtWorker(s, c);
    ServedStep(m, s, c, sid - 1);
    MountsBehind(s, After(m, s, Serve(s, sid - 1)), c, sid - 1);
  }

  lemma MountsBehind<S, O, R>(s: State<S, O, R>, s': State<S, O, R>, c: nat, i: nat)
    requires AtWorker(s, c, i) && CloserAt(s, s', c, i)
    ensures !s'.clients[c].phase.where.InPipe?
  {
    hide WorkerSteps;
  }

  lemma ReceivedOnWay<S, O, R>(m: Service<S, O, R>, s: State<S, O, R>, c: nat)
    requires Inv(s) && PlacesOk(s) && !s.halted && c < |s.clients| && s.clients[c].phase.Waiting? && MountsFit(s, c)
    requires (s.clients[c].phase.where.InPipe? || s.clients[c].phase.where.Received?) && Can(m, s, Receive(s))
    ensures StillOnWay(s, After(m, s, Receive(s)), c)
  {
    hide ClientsOk, PlacesOk, SlotsOk, GlobalOk, ShutdownOk, ReceiverSteps, WorkAfter;
    if s.recv.Idle? {
      assert Outstanding(s, s.pipe[0], InPipe);
    } else {
      ReceiverCloser(m, s);
    }
  }

  /** The way is free: on it no mount lacks a session, and it does not end with a shutdown. */
  lemma WayIsFree<S, O, R>(m: Service<S, O, R>, s: State<S, O, R>, c: nat)
    requires Inv(s) && PlacesOk(s) && c < |s.clients| && s.clients[c].phase.Waiting? && MountsFit(s, c)
    requires !s.clients[c].phase.req.Shutdown? && !s.clients[c].phase.where.Replied?
    ensures Unhindered(m, s, c)
  {
    hide ClientsOk, PipeOk, RecvOk, GlobalOk, ShutdownOk;
    assert PlacedOk(s, c);
    PlacedAtWorker(s, c);
    var where := s.clients[c].phase.where;
    if where.AtSession? { assert SlotOk(s, where.sid - 1); }
  }

  lemma {:induction false} WayEnds<S, O, R>(m: Service<S, O, R>, s: State<S, O, R>, c: nat)
    requires Inv(s) && PlacesOk(s) && !s.halted && c < |s.clients| && s.clients[c].phase.Waiting?
    requires MountsFit(s, c) && !s.clients[c].phase.req.Shutdown?
    ensures Arrives(m, s, c, Distance(s, c))
    decreases Distance(s, c)
  {
    hide Inv, PlacesOk, Can, After, Onward, Unhindered, Distance, MountsFit;
    if !s.clients[c].phase.where.Replied? {
      WayIsFree(m, s, c);
      StepsOn(m, s, c);
      var s' := After(m, s, Onward(s, c));
      StaysOnWay(m, s, c);
      if s'.clients[c].phase.where.Replied? {
        assert Arrives(m, s', c, Distance(s, c) - 1);
      } else {
        StepKeeps(m, s, Onward(s, c));
        StepPlaces(m, s, Onward(s, c));
        WayEnds(m, s', c);
        ArrivesInTime(m, s', c, Distance(s', c), Distance(s, c) - 1);
      }
    }
  }

  /** A client that waits for anything but a shutdown has its reply out after at most Distance steps of receiver and workers, each
      the next one on its way, if the mounts before it find sessions. */
  lemma ReplyIsReachable<S, O, R>(m: Service<S, O, R>, fs0: S, run: seq<State<S, O, R>>, acts: seq<Action<O>>, k: nat, c: nat)
    requires Run(m, fs0, run, acts) && k < |run| && !run[k].halted
    requires c < |run[k].clients| && run[k].clients[c].phase.Waiting?
    requires !run[k].clients[c].phase.req.Shutdown? && MountsFit(run[k], c)
    ensures Arrives(m, run[k], c, Distance(run[k], c))
  {
    hide Inv, PlacesOk, Run, Distance, Arrives, MountsFit;
    RunKeepsInv(m, fs0, run, acts, k);
    RunKeepsPlaces(m, fs0, run, acts, k);
    WayEnds(m, run[k], c);
  }
}
