/** The bytes of one remote call: the request that the worker finds is the one that the client's call made, and the answer that the
    call returns is the one that the worker sent. */
module RemoteCalls {
  import opened Options
  import opened Config
  import opened Bytes
  import opened Directory
  import opened Disk
  import opened Opening
  import opened FirstFit
  import opened Invariant
  import opened Formatting
  import opened SingleBlock
  import opened Wire
  import opened Pipes
  import opened RemoteFiles
  import P = Protocol
  import H = Handshake
  import R = Remote

  // ---------------------------------------------------------------- flags

  const O_CREAT := 1
  const O_TRUNC := 2
  const O_APPEND := 4

  /** flags & mask, for a mask of one bit. */
  predicate HasBit(v: Int32, mask: int)
    requires mask > 0
  {
    (if v < 0 then v + WORD else v) / mask % 2 == 1
  }

  function FlagsOf(v: Int32): Flags {
    Flags(HasBit(v, O_CREAT), HasBit(v, O_TRUNC), HasBit(v, O_APPEND))
  }

  /** The int that a client passes for its flags. */
  function FlagsWord(f: Flags): (v: Int32)
    ensures FlagsOf(v) == f
  {
    (if f.create then O_CREAT else 0) + (if f.truncate then O_TRUNC else 0) + (if f.append then O_APPEND else 0)
  }

  /** Bit 0 of the int asks for creation, bit 1 for truncation, bit 2 for appending, whatever the bits above them. */
  lemma FlagBits(v: Int32, high: int, create: bool, truncate: bool, append: bool)
    requires v == 8 * high + (if create then 1 else 0) + (if truncate then 2 else 0) + (if append then 4 else 0)
    ensures FlagsOf(v) == Flags(create, truncate, append)
  {
    var u := if v < 0 then v + WORD else v;
    var top := if v < 0 then high + WORD / 8 else high;
    assert u == 8 * top + (if create then 1 else 0) + (if truncate then 2 else 0) + (if append then 4 else 0);
    assert u / 2 == 4 * top + (if truncate then 1 else 0) + (if append then 2 else 0);
    assert u / 4 == 2 * top + if append then 1 else 0;
  }

  // ---------------------------------------------------------------- requests

  /** What the server makes of a request. */
  function Served(r: Request): P.Req<FileOp> {
    match r
    case MountReq(pipe) => P.Mount
    case UnmountReq(sid) => P.Unmount
    case ShutdownReq(sid) => P.Shutdown
    case OpenReq(sid, name, flags) => P.Do(OpenOp(name, FlagsOf(flags)))
    case CloseReq(sid, handle) => P.Do(CloseOp(handle))
    case WriteReq(sid, handle, data) => P.Do(WriteOp(handle, data))
    case ReadReq(sid, handle, len) => P.Do(ReadOp(handle, len))
  }

  /** What a client with this session id and this pipe sends. */
  function Asked(req: P.Req<FileOp>, sid: Int32, pipe: CString): (r: Request)
    ensures Served(r) == req && (r.MountReq? <==> req.Mount?) && (!r.MountReq? ==> r.sid == sid)
  {
    match req
    case Mount => MountReq(pipe)
    case Unmount => UnmountReq(sid)
    case Shutdown => ShutdownReq(sid)
    case Do(op) =>
      match op
      case OpenOp(path, flags) => OpenReq(sid, path, FlagsWord(flags))
      case WriteOp(h, buf) => WriteReq(sid, h, buf)
      case ReadOp(h, len) => ReadReq(sid, h, len)
      case CloseOp(h) => CloseReq(sid, h)
  }

  /** A call whose names fit their field and whose bytes fit the session's buffer, by a client that has a session or mounts. */
  predicate Callable(req: P.Req<FileOp>, sid: Int32, pipe: CString) {
    && (req.Mount? ==> |pipe| < NAME_SIZE) && (!req.Mount? ==> ValidSession(sid))
    && (req.Do? ==>
          && (req.op.OpenOp? ==> |req.op.path| < NAME_SIZE)
          && (req.op.WriteOp? ==> WRITE_HEADER + |req.op.buf| <= MAX_REQUEST_SIZE))
  }

  /** The worker serves what the client asked, and the receiver leaves the rest of the stream alone: when the plain reads of the
      turn are whole, and only then. */
  lemma ServedAsAsked(req: P.Req<FileOp>, sid: Int32, pipe: CString, tail: seq<Byte>, buffer: seq<Byte>, was: Locals, k: Counts)
    requires Callable(req, sid, pipe) && |buffer| == MAX_REQUEST_SIZE && Variables(was) && Possible(k)
    ensures var r := Asked(req, sid, pipe);
            && Sendable(r)
            && (Arrived(Turn(Encode(r) + tail, buffer, was, k), r, tail) <==> Whole(r, k))
            && (Whole(r, k) ==>
                  var t := Turn(Encode(r) + tail, buffer, was, k);
                  t.Some? && Decode(t.value.buffer).Some? && Served(Decode(t.value.buffer).value) == req)
  {
    hide Encode, Turn, Decode, Served;
    ReceivedIff(Asked(req, sid, pipe), tail, buffer, was, k);
  }

  // ---------------------------------------------------------------- answers

  /** The eight bytes of a ssize_t. */
  function EncodeSigned(v: int): (s: seq<Byte>)
    requires -1 <= v <= SSIZE_MAX
    ensures |s| == 8 && Signed(SizeAt(s, 0)) == v
  {
    EncodeSize(if v < 0 then SIZE_MAX else v)
  }

  /** What a worker may send as the answer to a request. */
  predicate Sent(req: P.Req<FileOp>, ans: P.Ans<FileRes>) {
    match req
    case Mount => ans.Session? && ValidSession(ans.sid)
    case Unmount => ans.Ok?
    case Shutdown => ans.Ok? || ans.Refused?
    case Do(op) =>
      && ans.Result?
      && match op
         case OpenOp(path, flags) => -1 <= ans.r.r < MAX_OPEN_FILES && ans.r.bytes == []
         case CloseOp(h) => -1 <= ans.r.r <= 0 && ans.r.bytes == []
         case WriteOp(h, buf) => -1 <= ans.r.r <= SSIZE_MAX && ans.r.bytes == []
         case ReadOp(h, len) =>
           && -1 <= ans.r.r <= SSIZE_MAX && ans.r.r <= len && |ans.r.bytes| == if ans.r.r < 0 then 0 else ans.r.r
  }

  /** The bytes of an answer. */
  function EncodeAnswer(req: P.Req<FileOp>, ans: P.Ans<FileRes>): seq<Byte>
    requires Sent(req, ans)
  {
    match req
    case Mount => EncodeInt(ans.sid)
    case Unmount => EncodeInt(0)
    case Shutdown => EncodeInt(if ans.Ok? then 0 else -1)
    case Do(op) =>
      match op
      case OpenOp(path, flags) => EncodeInt(ans.r.r)
      case CloseOp(h) => EncodeInt(ans.r.r)
      case WriteOp(h, buf) => EncodeSigned(ans.r.r)
      case ReadOp(h, len) => ReadReply(ans.r.r, ans.r.bytes)
  }

  /** The number that an answer starts with: a session id, a handle, 0 for done, or -1; eight bytes of it for a transfer. */
  lemma AnswerNumber(req: P.Req<FileOp>, ans: P.Ans<FileRes>)
    requires Sent(req, ans)
    ensures var bytes := EncodeAnswer(req, ans);
            if req.Do? && (req.op.WriteOp? || req.op.ReadOp?) then |bytes| >= 8 && Signed(SizeAt(bytes, 0)) == ans.r.r
            else
              && |bytes| == 4
              && IntAt(bytes, 0) == (if ans.Session? then ans.sid else if ans.Ok? then 0 else if ans.Refused? then -1 else ans.r.r)
  {
    hide EncodeSize, EncodeInt, SizeAt, IntAt, LocalExec;
    if req.Do? && req.op.ReadOp? {
      if ans.r.r == NONE { SizeInside([], SIZE_MAX, EncodeInt(NONE)); } else { SizeInside([], ans.r.r, ans.r.bytes); }
      ReadStarts(ans.r.r, ans.r.bytes);
    }
  }

  lemma ReadStarts(r: int, bytes: seq<Byte>)
    requires r == NONE || 0 <= r == |bytes| <= SSIZE_MAX
    ensures ReadReply(r, bytes) ==
              [] + EncodeSize(if r == NONE then SIZE_MAX else r) + (if r == NONE then EncodeInt(NONE) else bytes)
  {
    hide EncodeSize, EncodeInt;
  }

  /** What the call returns, and what it leaves in its pipe; none if it waits. */
  function TakeAnswer(req: P.Req<FileOp>, pipe: seq<Byte>): Option<(P.Ans<FileRes>, seq<Byte>)> {
    if req.Do? && req.op.ReadOp? then
      (match TakeReadReply(pipe, req.op.len)
       case None => None
       case Some(t) => Some((P.Result(FileRes(t.0, if t.0 < 0 then [] else t.1)), t.2)))
    else if req.Do? && req.op.WriteOp? then
      if |pipe| < 8 then None else Some((P.Result(FileRes(Signed(SizeAt(pipe, 0)), [])), pipe[8..]))
    else if |pipe| < 4 then None
    else
      var v := IntAt(pipe, 0);
      Some((match req
            case Mount => P.Session(if v < 0 then 0 else v)
            case Unmount => P.Ok
            case Shutdown => if v == 0 then P.Ok else P.Refused
            case Do(op) => P.Result(FileRes(v, [])),
            pipe[4..]))
  }

  /** The call returns the answer that was sent, and leaves nothing of it behind, exactly when the answer is framed. */
  lemma AnsweredAsSent(req: P.Req<FileOp>, ans: P.Ans<FileRes>)
    requires Sent(req, ans)
    ensures TakeAnswer(req, EncodeAnswer(req, ans)) == Some((ans, [])) <==> P.Framed(FileService(), req, ans)
  {
    hide EncodeSize, EncodeInt, SizeAt, IntAt, LocalExec;
    if req.Do? && req.op.ReadOp? {
      ReadReplyIsFramed(ans.r.r, ans.r.bytes, req.op.len);
      ReadAnswered(ans.r, req.op.len);
    } else {
      assert EncodeAnswer(req, ans)[|EncodeAnswer(req, ans)|..] == [];
    }
  }

  lemma ReadAnswered(res: FileRes, len: Size)
    requires -1 <= res.r <= SSIZE_MAX && res.r <= len && |res.bytes| == if res.r < 0 then 0 else res.r
    ensures var t := TakeReadReply(ReadReply(res.r, res.bytes), len);
            TakenWhole(res.r, res.bytes, len) <==>
              t.Some? && FileRes(t.value.0, if t.value.0 < 0 then [] else t.value.1) == res && t.value.2 == []
  {
    hide TakeReadReply, ReadReply;
  }

  /** An open answers with a handle or -1. */
  lemma OpenAnswer(fs: FS, path: CString, flags: Flags)
    ensures -1 <= LocalOpen(fs, path, flags).1 < MAX_OPEN_FILES
  {
    hide RootOk, LocalLookup, Emptied, NthFree, FreeEntry, First;
  }

  lemma WriteAnswer(fs: FS, h: int, buf: seq<Byte>)
    ensures -1 <= LocalWrite(fs, h, buf).1 <= BLOCK_SIZE
  {
    hide WithBlock;
  }

  /** Every answer that a run puts on record is one that the call can be sent: so the client's call returns exactly that answer, if
      it is framed. */
  lemma RecordedIsSent(fs0: FS, run: Run, acts: Acts, k: nat, j: nat)
    requires P.Run(FileService(), fs0, run, acts) && k < |run| && Formatted(fs0) && AllowedLog(fs0, run[k].log)
    requires j < |run[k].log|
    ensures var e := run[k].log[j];
            && Sent(e.req, e.ans)
            && (TakeAnswer(e.req, EncodeAnswer(e.req, e.ans)) == Some((e.ans, [])) <==> P.Framed(FileService(), e.req, e.ans))
  {
    hide SmallWF, AllowedLog, Formatted, LocalExec, LocallyAllowed, P.Run, TakeAnswer, EncodeAnswer, P.Framed, Sent;
    if run[k].log[j].req.Do? {
      ResultIsSent(fs0, run, acts, k, j);
    } else {
      NoticeIsSent(fs0, run, acts, k, j);
    }
    AnsweredAsSent(run[k].log[j].req, run[k].log[j].ans);
  }

  lemma NoticeIsSent(fs0: FS, run: Run, acts: Acts, k: nat, j: nat)
    requires P.Run(FileService(), fs0, run, acts) && k < |run| && j < |run[k].log| && !run[k].log[j].req.Do?
    ensures Sent(run[k].log[j].req, run[k].log[j].ans)
  {
    hide LocalExec, P.Run, Quiet;
    var i := R.RecordedWhen(FileService(), fs0, run, acts, k, j);
    H.RunKeepsInv(FileService(), fs0, run, acts, i);
    hide H.ClientsOk, H.PipeOk, H.RecvOk, H.SlotsOk, H.GlobalOk, H.ShutdownOk;
    assert |run[i].slots| == P.MAX_CLIENTS;
  }

  lemma ResultIsSent(fs0: FS, run: Run, acts: Acts, k: nat, j: nat)
    requires P.Run(FileService(), fs0, run, acts) && k < |run| && Formatted(fs0) && AllowedLog(fs0, run[k].log)
    requires j < |run[k].log| && run[k].log[j].req.Do?
    ensures Sent(run[k].log[j].req, run[k].log[j].ans)
  {
    hide SmallWF, AllowedLog, Formatted, LocalOpen, LocalRead, LocalWrite, LocallyAllowed, P.Run, R.Fold, R.Destroyed;
    var e := run[k].log[j];
    var fs := R.Fold(FileService(), fs0, run[k].log[..j]);
    R.RunIsSerial(FileService(), fs0, run, acts, k);
    assert R.ResultMatches(FileService(), fs0, run[k].log[..j], e);
    match e.req.op {
      case OpenOp(path, flags) => OpenAnswer(fs, path, flags);
      case WriteOp(h, buf) => WriteAnswer(fs, h, buf);
      case ReadOp(h, len) =>
        RanInOrder(fs0, run, acts, k, j);
        ReadAnswer(fs, h, len);
      case CloseOp(h) =>
    }
  }
}
