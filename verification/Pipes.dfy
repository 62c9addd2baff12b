/**
  The loops and buffers around the pipe: write_buffer and read_buffer move any number of bytes in pieces of any size, the
  client fills its request buffer, and the receiver fills the buffer of a session.
 */
module Pipes {
  import opened Options
  import opened Config
  import opened Bytes
  import opened Directory
  import opened Wire

  // ---------------------------------------------------------------- pieces

  /** write_buffer: each write takes some of the bytes that are left. */
  method WriteBuffer(pipe: seq<Byte>, buf: array<Byte>, toWrite: nat) returns (pipe': seq<Byte>)
    requires toWrite <= buf.Length
    ensures pipe' == pipe + buf[..toWrite]
  {
    var written: nat := 0;
    pipe' := pipe;
    while written < toWrite
      invariant written <= toWrite
      invariant pipe' == pipe + buf[..written]
      decreases toWrite - written
    {
      var piece: nat :| 0 < piece <= toWrite - written;
      pipe' := pipe' + buf[written..written + piece];
      assert buf[..written + piece] == buf[..written] + buf[written..written + piece];
      written := written + piece;
    }
  }

  /** read_buffer: each read takes some of the bytes asked for. */
  method ReadBuffer(pipe: seq<Byte>, buf: array<Byte>, at: nat, toRead: nat) returns (rest: seq<Byte>)
    requires at + toRead <= buf.Length && toRead <= |pipe|
    modifies buf
    ensures buf[..] == Patch(old(buf[..]), at, pipe[..toRead])
    ensures rest == pipe[toRead..]
  {
    ghost var was := buf[..];
    var got: nat := 0;
    rest := pipe;
    while got < toRead
      invariant got <= toRead
      invariant rest == pipe[got..]
      invariant buf[..] == Patch(was, at, pipe[..got])
      decreases toRead - got
    {
      var piece: nat :| 0 < piece <= toRead - got;
      forall k | 0 <= k < piece {
        buf[at + got + k] := rest[k];
      }
      rest := rest[piece..];
      got := got + piece;
    }
  }

  /** memcpy into a request buffer. */
  method CopyInto(buf: array<Byte>, at: nat, bytes: seq<Byte>)
    requires at + |bytes| <= buf.Length
    modifies buf
    ensures buf[..] == Patch(old(buf[..]), at, bytes)
  {
    forall k | 0 <= k < |bytes| {
      buf[at + k] := bytes[k];
    }
  }

  /** memcpy right behind what the request buffer holds so far. */
  method Append(buf: array<Byte>, at: nat, bytes: seq<Byte>)
    requires at + |bytes| <= buf.Length
    modifies buf
    ensures buf[..at + |bytes|] == old(buf[..at]) + bytes
  {
    CopyInto(buf, at, bytes);
  }

  /** memset to NUL, then memcpy of a name. */
  method AppendName(buf: array<Byte>, at: nat, name: CString)
    requires at + NAME_SIZE <= buf.Length && |name| < NAME_SIZE
    modifies buf
    ensures buf[..at + NAME_SIZE] == old(buf[..at]) + Field(name)
  {
    CopyInto(buf, at, seq(NAME_SIZE, _ => 0));
    CopyInto(buf, at, name);
    assert buf[at..at + NAME_SIZE] == Field(name);
  }

  // ---------------------------------------------------------------- the client's requests

  /** The request of tfs_open. */
  method BuildOpen(sid: Int32, name: CString, flags: Int32) returns (buf: array<Byte>)
    requires Sendable(OpenReq(sid, name, flags))
    ensures fresh(buf) && buf[..] == Encode(OpenReq(sid, name, flags))
  {
    hide EncodeInt, IntAt, Field;
    buf := new Byte[49];
    Append(buf, 0, [OP_OPEN]);
    Append(buf, 1, EncodeInt(sid));
    Append(buf, 5, EncodeInt(flags));
    AppendName(buf, 9, name);
    assert buf[..49] == buf[..];
  }

  /** The request of tfs_mount. */
  method BuildMount(pipe: CString) returns (buf: array<Byte>)
    requires Sendable(MountReq(pipe))
    ensures fresh(buf) && buf[..] == Encode(MountReq(pipe))
  {
    hide Field;
    buf := new Byte[41];
    Append(buf, 0, [OP_MOUNT]);
    AppendName(buf, 1, pipe);
    assert buf[..41] == buf[..];
  }

  /** The requests of tfs_unmount and tfs_shutdown_after_all_closed. */
  method BuildShort(r: Request) returns (buf: array<Byte>)
    requires r.UnmountReq? || r.ShutdownReq?
    ensures fresh(buf) && buf[..] == Encode(r)
  {
    hide EncodeInt, IntAt;
    buf := new Byte[5];
    Append(buf, 0, [OpCode(r)]);
    Append(buf, 1, EncodeInt(r.sid));
    assert buf[..5] == buf[..];
  }

  /** The request of tfs_close. */
  method BuildClose(sid: Int32, handle: Int32) returns (buf: array<Byte>)
    ensures fresh(buf) && buf[..] == Encode(CloseReq(sid, handle))
  {
    hide EncodeInt, IntAt;
    buf := new Byte[9];
    Append(buf, 0, [OP_CLOSE]);
    Append(buf, 1, EncodeInt(sid));
    Append(buf, 5, EncodeInt(handle));
    assert buf[..9] == buf[..];
  }

  /** The request of tfs_write. */
  method BuildWrite(sid: Int32, handle: Int32, data: seq<Byte>) returns (buf: array<Byte>)
    requires Sendable(WriteReq(sid, handle, data))
    ensures fresh(buf) && buf[..] == Encode(WriteReq(sid, handle, data))
  {
    hide EncodeInt, EncodeSize, IntAt, SizeAt;
    buf := new Byte[WRITE_HEADER + |data|];
    Append(buf, 0, [OP_WRITE]);
    Append(buf, 1, EncodeInt(sid));
    Append(buf, 5, EncodeInt(handle));
    Append(buf, 9, EncodeSize(|data|));
    Append(buf, WRITE_HEADER, data);
    assert buf[..buf.Length] == buf[..];
  }

  /** The request of tfs_read. */
  method BuildRead(sid: Int32, handle: Int32, len: Size) returns (buf: array<Byte>)
    ensures fresh(buf) && buf[..] == Encode(ReadReq(sid, handle, len))
  {
    hide EncodeInt, EncodeSize, IntAt, SizeAt;
    buf := new Byte[17];
    Append(buf, 0, [OP_READ]);
    Append(buf, 1, EncodeInt(sid));
    Append(buf, 5, EncodeInt(handle));
    Append(buf, 9, EncodeSize(len));
    assert buf[..17] == buf[..];
  }

  /** A client sends one request. */
  method Send(pipe: seq<Byte>, r: Request) returns (pipe': seq<Byte>)
    requires Sendable(r)
    ensures pipe' == pipe + Encode(r)
  {
    hide Encode;
    var buf: array<Byte>;
    match r {
      case MountReq(name) => buf := BuildMount(name);
      case UnmountReq(sid) => buf := BuildShort(r);
      case OpenReq(sid, name, flags) => buf := BuildOpen(sid, name, flags);
      case CloseReq(sid, handle) => buf := BuildClose(sid, handle);
      case WriteReq(sid, handle, data) => buf := BuildWrite(sid, handle, data);
      case ReadReq(sid, handle, len) => buf := BuildRead(sid, handle, len);
      case ShutdownReq(sid) => buf := BuildShort(r);
    }
    pipe' := WriteBuffer(pipe, buf, buf.Length);
  }

  // ---------------------------------------------------------------- the receiver

  /** The receiver's variables session_id and len: they keep their bytes from turn to turn. */
  datatype Locals = Locals(sid: seq<Byte>, len: seq<Byte>)

  predicate Variables(v: Locals) {
    |v.sid| == 4 && |v.len| == 8
  }

  /** How many bytes the three plain reads of a turn bring: of the session id, of the handle of a write, of its length. A read
      that does not fail brings at least one byte and at most what was asked for. */
  datatype Counts = Counts(sid: nat, handle: nat, len: nat)

  predicate Possible(k: Counts) {
    0 < k.sid <= 4 && 0 < k.handle <= 4 && 0 < k.len <= 8
  }

  /** What a turn leaves: the rest of the pipe, the buffer of the session, and the variables. */
  datatype Turned = Turned(rest: seq<Byte>, buffer: seq<Byte>, vars: Locals)

  predicate ValidSession(sid: int) {
    1 <= sid <= MAX_SESSIONS
  }

  /** One turn of the receiver's loop with the counts k; none if it waits for bytes that are not there, runs past the buffer, or
      gives the request up because of its session id or op code. */
  function Turn(pipe: seq<Byte>, buffer: seq<Byte>, was: Locals, k: Counts): (t: Option<Turned>)
    requires |buffer| == MAX_REQUEST_SIZE && Variables(was) && Possible(k)
    ensures t.Some? ==> |t.value.buffer| == MAX_REQUEST_SIZE && Variables(t.value.vars)
  {
    if pipe == [] then None
    else if pipe[0] == OP_MOUNT then
      if |pipe| < 1 + NAME_SIZE then None
      else Some(Turned(pipe[1..][NAME_SIZE..], Patch(Patch(buffer, 0, [pipe[0]]), 1, pipe[1..][..NAME_SIZE]), was))
    else if |pipe| < 1 + k.sid then None
    else
      var rest := pipe[1..];
      var sid := rest[..k.sid] + was.sid[k.sid..];
      if !ValidSession(IntAt(sid, 0)) then None
      else PayloadTurn(pipe[0], rest[k.sid..], Patch(Patch(buffer, 0, [pipe[0]]), 1, sid), was.(sid := sid), k)
  }

  /** What follows the session id; a write has the two other plain reads. */
  function PayloadTurn(op: Byte, rest: seq<Byte>, b: seq<Byte>, v: Locals, k: Counts): (t: Option<Turned>)
    requires |b| == MAX_REQUEST_SIZE && Variables(v) && Possible(k)
    ensures t.Some? ==> |t.value.buffer| == MAX_REQUEST_SIZE && Variables(t.value.vars)
  {
    if op == OP_WRITE then WriteTurn(rest, b, v, k)
    else
      match PayloadSize(op, [])
      case None => None
      case Some(n) => if |rest| < n then None else Some(Turned(rest[n..], Patch(b, 5, rest[..n]), v))
  }

  function WriteTurn(rest: seq<Byte>, b: seq<Byte>, v: Locals, k: Counts): (t: Option<Turned>)
    requires |b| == MAX_REQUEST_SIZE && Variables(v) && Possible(k)
    ensures t.Some? ==> |t.value.buffer| == MAX_REQUEST_SIZE && Variables(t.value.vars)
  {
    if |rest| < k.handle + k.len then None
    else
      var rest1 := rest[k.handle..];
      var len := rest1[..k.len] + v.len[k.len..];
      var n := SizeAt(len, 0);
      var data := rest1[k.len..];
      if n > |data| || WRITE_HEADER + n > MAX_REQUEST_SIZE then None
      else Some(Turned(data[n..], Patch(Patch(Patch(b, 5, rest[..k.handle]), 9, len), WRITE_HEADER, data[..n]), v.(len := len)))
  }

  /** One turn of the receiver's loop: the op code, the session id, and what the op code says is still to come go into the
      buffer of a session. The session id, and the handle and the length of a write, come with one plain read each. */
  method Receive(pipe: seq<Byte>, buffer: array<Byte>, was: Locals, k: Counts) returns (rest: seq<Byte>, vars: Locals)
    requires buffer.Length == MAX_REQUEST_SIZE && Variables(was) && Possible(k) && Turn(pipe, buffer[..], was, k).Some?
    modifies buffer
    ensures Turn(pipe, old(buffer[..]), was, k) == Some(Turned(rest, buffer[..], vars))
  {
    hide SizeAt, WordAt, WriteTurn;
    var op := pipe[0];
    rest, vars := pipe[1..], was;
    CopyInto(buffer, 0, [op]);
    if op == OP_MOUNT {
      rest := ReadBuffer(rest, buffer, 1, NAME_SIZE);
    } else {
      vars := vars.(sid := rest[..k.sid] + vars.sid[k.sid..]);
      rest := rest[k.sid..];
      CopyInto(buffer, 1, vars.sid);
      if op == OP_OPEN {
        rest := ReadBuffer(rest, buffer, 5, 4 + NAME_SIZE);
      } else if op == OP_CLOSE {
        rest := ReadBuffer(rest, buffer, 5, 4);
      } else if op == OP_READ {
        rest := ReadBuffer(rest, buffer, 5, 12);
      } else if op == OP_WRITE {
        rest, vars := ReceiveWrite(rest, buffer, vars, k);
      } else {
        assert Patch(buffer[..], 5, rest[..0]) == buffer[..] && rest[0..] == rest;
      }
    }
  }

  /** The rest of a write: the handle, the length, and as many bytes as the length says. */
  method ReceiveWrite(pipe: seq<Byte>, buffer: array<Byte>, was: Locals, k: Counts) returns (rest: seq<Byte>, vars: Locals)
    requires buffer.Length == MAX_REQUEST_SIZE && Variables(was) && Possible(k) && WriteTurn(pipe, buffer[..], was, k).Some?
    modifies buffer
    ensures WriteTurn(pipe, old(buffer[..]), was, k) == Some(Turned(rest, buffer[..], vars))
  {
    hide SizeAt, WordAt;
    CopyInto(buffer, 5, pipe[..k.handle]);
    rest := pipe[k.handle..];
    vars := was.(len := rest[..k.len] + was.len[k.len..]);
    rest := rest[k.len..];
    CopyInto(buffer, 9, vars.len);
    rest := ReadBuffer(rest, buffer, WRITE_HEADER, SizeAt(vars.len, 0));
  }

  /** The plain reads that request r needs bring all that was asked for. */
  predicate Whole(r: Request, k: Counts) {
    !r.MountReq? ==> k.sid == 4 && (r.WriteReq? ==> k.handle == 4 && k.len == 8)
  }

  predicate Addressed(r: Request) {
    !r.MountReq? ==> ValidSession(r.sid)
  }

  /** The turn ends with request r in the buffer and the rest of the stream in the pipe. */
  predicate Arrived(t: Option<Turned>, r: Request, tail: seq<Byte>) {
    t.Some? && |t.value.buffer| == MAX_REQUEST_SIZE && t.value.rest == tail && Decode(t.value.buffer) == Some(r)
  }

  /** A request arrives as it was sent, and no byte of the next is touched, exactly when its plain reads are whole and its
      session exists: a short read shifts the whole stream. */
  lemma ReceivedIff(r: Request, tail: seq<Byte>, buffer: seq<Byte>, was: Locals, k: Counts)
    requires Sendable(r) && |buffer| == MAX_REQUEST_SIZE && Variables(was) && Possible(k)
    ensures Arrived(Turn(Encode(r) + tail, buffer, was, k), r, tail) <==>
              Whole(r, k) && (r.MountReq? || 1 <= r.sid <= MAX_SESSIONS)
  {
    hide Turn, Encode, Decode;
    if Whole(r, k) && Addressed(r) {
      WholeTurn(r, tail, buffer, was, k);
      DecodeEncoded(r, Turn(Encode(r) + tail, buffer, was, k).value.buffer);
    } else {
      ShortTurn(r, tail, buffer, was, k);
    }
  }

  lemma WholeTurn(r: Request, tail: seq<Byte>, buffer: seq<Byte>, was: Locals, k: Counts)
    requires Sendable(r) && |buffer| == MAX_REQUEST_SIZE && Variables(was) && Possible(k) && Whole(r, k) && Addressed(r)
    ensures var t := Turn(Encode(r) + tail, buffer, was, k);
            t.Some? && t.value.rest == tail && Encode(r) <= t.value.buffer
  {
    hide Encode, IntAt, SizeAt, Field, PayloadTurn;
    FieldsOf(r);
    var d := Encode(r);
    var pipe := d + tail;
    assert pipe[0] == d[0];
    if r.MountReq? {
      assert pipe[1..][NAME_SIZE..] == tail;
    } else {
      var sid := pipe[1..][..4] + was.sid[4..];
      IntInStretch(d, 1, 5, 1);
      assert sid == d[1..5];
      var b := Patch(Patch(buffer, 0, [pipe[0]]), 1, sid);
      assert b[..5] == d[..5];
      assert pipe[1..][4..] == d[5..] + tail;
      if r.WriteReq? { WholeWrite(r, tail, b, was.(sid := sid), k); } else { WholePayload(r, tail, b, was.(sid := sid), k); }
    }
  }

  lemma WholePayload(r: Request, tail: seq<Byte>, b: seq<Byte>, v: Locals, k: Counts)
    requires Sendable(r) && !r.MountReq? && !r.WriteReq? && |b| == MAX_REQUEST_SIZE && Variables(v) && Possible(k)
    requires |Encode(r)| >= 5 && b[..5] == Encode(r)[..5]
    ensures var t := PayloadTurn(OpCode(r), Encode(r)[5..] + tail, b, v, k);
            t.Some? && t.value.rest == tail && Encode(r) <= t.value.buffer
  {
    hide Encode, IntAt, SizeAt, Field;
    FieldsOf(r);
    var d := Encode(r);
    var rest := d[5..] + tail;
    assert rest[|d| - 5..] == tail && rest[..|d| - 5] == d[5..];
    var b' := Patch(b, 5, d[5..]);
    assert forall j :: 0 <= j < |d| ==> b'[j] == if j < 5 then b[..5][j] else d[5..][j - 5];
    assert b'[..|d|] == d;
  }

  lemma WholeWrite(r: Request, tail: seq<Byte>, b: seq<Byte>, v: Locals, k: Counts)
    requires Sendable(r) && r.WriteReq? && |b| == MAX_REQUEST_SIZE && Variables(v) && Possible(k) && Whole(r, k)
    requires |Encode(r)| >= 5 && b[..5] == Encode(r)[..5]
    ensures var t := PayloadTurn(OpCode(r), Encode(r)[5..] + tail, b, v, k);
            t.Some? && t.value.rest == tail && Encode(r) <= t.value.buffer
  {
    hide Encode, IntAt, SizeAt, Field;
    FieldsOf(r);
    var d := Encode(r);
    var rest := d[5..] + tail;
    assert rest[4..][..8] + v.len[8..] == d[9..17];
    SizeInStretch(d);
    var data := rest[4..][8..];
    assert data == d[WRITE_HEADER..] + tail;
    assert data[|r.data|..] == tail && data[..|r.data|] == r.data;
    var b' := Patch(Patch(Patch(b, 5, rest[..4]), 9, d[9..17]), WRITE_HEADER, r.data);
    assert forall j :: 0 <= j < 5 ==> b'[j] == b[..5][j];
    assert b'[..|d|] == d;
  }

  lemma SizeInStretch(d: seq<Byte>)
    requires |d| >= WRITE_HEADER
    ensures SizeAt(d[9..17], 0) == SizeAt(d, 9)
  {
  }

  /** What a turn that ends has taken out of the pipe, by what is in the buffer then. */
  lemma TakenByTurn(pipe: seq<Byte>, buffer: seq<Byte>, was: Locals, k: Counts)
    requires |buffer| == MAX_REQUEST_SIZE && Variables(was) && Possible(k)
    requires pipe != [] && pipe[0] != OP_MOUNT && Turn(pipe, buffer, was, k).Some?
    ensures var t := Turn(pipe, buffer, was, k).value;
            && ValidSession(IntAt(t.buffer, 1))
            && (pipe[0] == OP_WRITE ==> |pipe| - |t.rest| == 1 + k.sid + k.handle + k.len + SizeAt(t.buffer, 9))
            && (pipe[0] != OP_WRITE ==>
                  PayloadSize(pipe[0], []).Some? && |pipe| - |t.rest| == 1 + k.sid + PayloadSize(pipe[0], []).value)
  {
    hide IntAt, SizeAt, PayloadTurn;
    var sid := pipe[1..][..k.sid] + was.sid[k.sid..];
    var b := Patch(Patch(buffer, 0, [pipe[0]]), 1, sid);
    assert b[1..5] == sid;
    TakenByPayload(pipe[0], pipe[1..][k.sid..], b, was.(sid := sid), k);
    var t := Turn(pipe, buffer, was, k).value;
    IntInStretch(t.buffer, 1, 5, 1);
  }

  lemma TakenByPayload(op: Byte, rest: seq<Byte>, b: seq<Byte>, v: Locals, k: Counts)
    requires |b| == MAX_REQUEST_SIZE && Variables(v) && Possible(k) && PayloadTurn(op, rest, b, v, k).Some?
    ensures var t := PayloadTurn(op, rest, b, v, k).value;
            && t.buffer[1..5] == b[1..5]
            && (op == OP_WRITE ==> |rest| - |t.rest| == k.handle + k.len + SizeAt(t.buffer, 9))
            && (op != OP_WRITE ==> PayloadSize(op, []).Some? && |rest| - |t.rest| == PayloadSize(op, []).value)
  {
    hide IntAt, SizeAt;
    if op == OP_WRITE {
      var t := WriteTurn(rest, b, v, k).value;
      assert t.buffer[9..17] == t.vars.len;
      SizeInStretch(t.buffer);
    }
  }

  lemma ShortTurn(r: Request, tail: seq<Byte>, buffer: seq<Byte>, was: Locals, k: Counts)
    requires Sendable(r) && |buffer| == MAX_REQUEST_SIZE && Variables(was) && Possible(k) && !(Whole(r, k) && Addressed(r))
    ensures !Arrived(Turn(Encode(r) + tail, buffer, was, k), r, tail)
  {
    hide Turn, Encode, IntAt, SizeAt, Field, StringIn;
    FieldsOf(r);
    var pipe := Encode(r) + tail;
    assert pipe[0] == Encode(r)[0];
    if Turn(pipe, buffer, was, k).Some? { TakenByTurn(pipe, buffer, was, k); }
  }

  /** The server takes the whole stream of requests apart: each arrives as it was sent, and nothing is left, however the
      pieces of the looping transfers fall. Each request lies in the pipe as a whole before its turn, since it was written at
      once and fits PIPE_BUF, so the plain reads are whole. */
  method ReceiveAll(rs: seq<Request>, pipe: seq<Byte>, buffer: array<Byte>, was: Locals) returns (got: seq<Request>)
    requires AllSendable(rs) && pipe == EncodeAll(rs) && buffer.Length == MAX_REQUEST_SIZE && Variables(was)
    requires forall r :: r in rs ==> Addressed(r)
    modifies buffer
    ensures got == rs
  {
    hide Encode, Decode, FrameSize, Turn;
    var rest, vars := pipe, was;
    got := [];
    while rest != []
      invariant |got| <= |rs| && got == rs[..|got|] && rest == EncodeAll(rs[|got|..]) && Variables(vars)
      decreases |rest|
    {
      ghost var left := rs[|got|..];
      assert left[0] in rs;
      FieldsOf(left[0]);
      ReceivedIff(left[0], EncodeAll(left[1..]), buffer[..], vars, WHOLE_READS);
      rest, vars := Receive(rest, buffer, vars, WHOLE_READS);
      got := got + [Decode(buffer[..]).value];
      assert left[1..] == rs[|got|..];
    }
    NoBytesNoRequests(rs[|got|..]);
  }

  const WHOLE_READS := Counts(4, 4, 8)

  lemma NoBytesNoRequests(rs: seq<Request>)
    requires AllSendable(rs) && EncodeAll(rs) == []
    ensures rs == []
  {
  }

  // ---------------------------------------------------------------- the reply of a read

  const SSIZE_MAX := 0x7FFF_FFFF_FFFF_FFFF

  /** What case_read sends: the result, and as many bytes of the file as it says. A result of -1 is also the number of bytes of
      the second write, which fails on more than SSIZE_MAX; the failure code follows instead. */
  function ReadReply(ret: int, data: seq<Byte>): seq<Byte>
    requires ret == NONE || 0 <= ret == |data| <= SSIZE_MAX
  {
    if ret == NONE then EncodeSize(SIZE_MAX) + EncodeInt(NONE) else EncodeSize(ret) + data
  }

  /** The result that a reply starts with, as a signed number. */
  function Signed(v: Size): int {
    if v > SSIZE_MAX then v - SIZE_MAX - 1 else v
  }

  /** What tfs_read makes of the bytes in its pipe: the result, then one read of at most len bytes, which waits until there
      are some unless it asks for none; and what stays in the pipe. */
  function TakeReadReply(pipe: seq<Byte>, len: Size): Option<(int, seq<Byte>, seq<Byte>)> {
    if |pipe| < 8 || (|pipe| == 8 && len > 0) then None
    else
      var n := if |pipe| - 8 > len then len else |pipe| - 8;
      Some((Signed(SizeAt(pipe, 0)), pipe[8..8 + n], pipe[8 + n..]))
  }

  /** The call returns the result that was sent and leaves nothing of the reply in the pipe. */
  predicate TakenWhole(ret: int, data: seq<Byte>, len: Size)
    requires ret == NONE || 0 <= ret == |data| <= SSIZE_MAX
  {
    var t := TakeReadReply(ReadReply(ret, data), len);
    t.Some? && t.value.0 == ret && t.value.2 == [] && (ret != NONE ==> t.value.1 == data)
  }

  /** The reply of a read is taken as it was sent exactly when it brings a byte, or brings none and none was asked for; with no
      byte for a read that asked for some the client waits. A reply of -1 is taken whole exactly when at least four bytes were
      asked for; otherwise the call returns -1 and leaves the rest of the failure code to be taken for the next reply. */
  lemma ReadReplyIsFramed(ret: int, data: seq<Byte>, len: Size)
    requires ret == NONE || 0 <= ret == |data| <= SSIZE_MAX
    requires ret <= len
    ensures TakenWhole(ret, data, len) <==> if ret == NONE then len >= 4 else ret > 0 || len == 0
    ensures TakeReadReply(ReadReply(ret, data), len) == None <==> ret == 0 && len > 0
    ensures ret == NONE && len < 4 ==>
              TakeReadReply(ReadReply(ret, data), len) == Some((NONE, EncodeInt(NONE)[..len], EncodeInt(NONE)[len..]))
  {
    hide EncodeSize, EncodeInt, SizeAt;
    var pipe := ReadReply(ret, data);
    if ret == NONE {
      SizeInside([], SIZE_MAX, EncodeInt(NONE));
      assert pipe == [] + EncodeSize(SIZE_MAX) + EncodeInt(NONE);
      assert pipe[8..] == EncodeInt(NONE);
      if len < 4 { assert pipe[8..8 + len] == EncodeInt(NONE)[..len] && pipe[8 + len..] == EncodeInt(NONE)[len..]; }
    } else {
      SizeInside([], ret, data);
      assert pipe == [] + EncodeSize(ret) + data;
      assert pipe[8..8 + ret] == data && pipe[8 + ret..] == [];
    }
  }
}
