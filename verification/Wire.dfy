/** The bytes that clients write to the server's pipe, and how the receiver and the case_* functions take them apart. */
module Wire {
  import opened Options
  import opened Config
  import opened Bytes
  import opened Directory

  const OP_MOUNT := 1
  const OP_UNMOUNT := 2
  const OP_OPEN := 3
  const OP_CLOSE := 4
  const OP_WRITE := 5
  const OP_READ := 6
  const OP_SHUTDOWN := 7

  /** Size of a name field, and of the buffer of a session. */
  const NAME_SIZE := 40
  const MAX_REQUEST_SIZE := 2048

  /** Session ids go from 1 to MAX_CLIENTS. */
  const MAX_SESSIONS := 64

  /** Where the payload of a write lies in the buffer. */
  const WRITE_HEADER := 17

  const SIZE_MAX := 0xFFFF_FFFF_FFFF_FFFF

  type Size = x: int | 0 <= x <= SIZE_MAX

  datatype Request =
    | MountReq(pipe: CString)
    | UnmountReq(sid: Int32)
    | OpenReq(sid: Int32, name: CString, flags: Int32)
    | CloseReq(sid: Int32, handle: Int32)
    | WriteReq(sid: Int32, handle: Int32, data: seq<Byte>)
    | ReadReq(sid: Int32, handle: Int32, len: Size)
    | ShutdownReq(sid: Int32)

  // ---------------------------------------------------------------- numbers and names

  /** The eight bytes of a size_t, least significant first. */
  function EncodeSize(v: Size): (s: seq<Byte>)
    ensures |s| == 8
    ensures SizeAt(s, 0) == v
  {
    var s := EncodeWord(v % WORD) + EncodeWord(v / WORD);
    assert WordAt(s, 0) == WordAt(EncodeWord(v % WORD), 0);
    assert WordAt(s, 4) == WordAt(EncodeWord(v / WORD), 0);
    s
  }

  function SizeAt(d: seq<Byte>, a: nat): (v: Size)
    requires a + 8 <= |d|
  {
    WordAt(d, a) + WORD * WordAt(d, a + 4)
  }

  /** A name in its zero-filled field; the copy of a longer one would run out of the request. */
  function Field(name: CString): (f: seq<Byte>)
    requires |name| <= NAME_SIZE
    ensures |f| == NAME_SIZE
  {
    name + seq(NAME_SIZE - |name|, _ => 0)
  }

  /** The C string at the start of a field; none if there is no NUL in it, for then a reader runs past its end. */
  function StringIn(f: seq<Byte>): (r: Option<CString>)
    ensures r.None? <==> 0 !in f
  {
    if f == [] then None
    else if f[0] == 0 then Some([])
    else
      match StringIn(f[1..])
      case None => None
      case Some(t) => var name: CString := [f[0]] + t; Some(name)
  }

  lemma {:induction false} StringInField(name: CString, k: nat)
    requires k > 0
    ensures StringIn(name + seq(k, _ => 0)) == Some(name)
  {
    var f := name + seq(k, _ => 0);
    if name != [] {
      assert f[0] == name[0] && f[0] in name;
      assert forall b :: b in name[1..] ==> b in name;
      var rest: CString := name[1..];
      assert f[1..] == rest + seq(k, _ => 0);
      StringInField(rest, k);
      assert name == [f[0]] + rest;
    }
  }

  /** A name arrives as it was sent exactly when it has at most 39 bytes. */
  lemma NameArrives(name: CString)
    requires |name| <= NAME_SIZE
    ensures StringIn(Field(name)) == Some(name) <==> |name| < NAME_SIZE
  {
    if |name| < NAME_SIZE {
      StringInField(name, NAME_SIZE - |name|);
    } else {
      assert Field(name) == name;
    }
  }

  // ---------------------------------------------------------------- requests as bytes

  /** What a client may ask for: names fit their field, and a write fits the session's buffer. */
  predicate Sendable(r: Request) {
    match r
    case MountReq(pipe) => |pipe| < NAME_SIZE
    case OpenReq(sid, name, flags) => |name| < NAME_SIZE
    case WriteReq(sid, handle, data) => WRITE_HEADER + |data| <= MAX_REQUEST_SIZE
    case _ => true
  }

  function OpCode(r: Request): (op: Byte)
    ensures OP_MOUNT <= op <= OP_SHUTDOWN
  {
    match r
    case MountReq(pipe) => OP_MOUNT
    case UnmountReq(sid) => OP_UNMOUNT
    case OpenReq(sid, name, flags) => OP_OPEN
    case CloseReq(sid, handle) => OP_CLOSE
    case WriteReq(sid, handle, data) => OP_WRITE
    case ReadReq(sid, handle, len) => OP_READ
    case ShutdownReq(sid) => OP_SHUTDOWN
  }

  /** What follows the op code, and the session id where there is one. */
  function Payload(r: Request): seq<Byte>
    requires Sendable(r)
  {
    match r
    case MountReq(pipe) => Field(pipe)
    case UnmountReq(sid) => []
    case OpenReq(sid, name, flags) => EncodeInt(flags) + Field(name)
    case CloseReq(sid, handle) => EncodeInt(handle)
    case WriteReq(sid, handle, data) => EncodeInt(handle) + EncodeSize(|data|) + data
    case ReadReq(sid, handle, len) => EncodeInt(handle) + EncodeSize(len)
    case ShutdownReq(sid) => []
  }

  /** The request as the client lays it out. */
  function Encode(r: Request): seq<Byte>
    requires Sendable(r)
  {
    [OpCode(r)] + (if r.MountReq? then [] else EncodeInt(r.sid)) + Payload(r)
  }

  /** How many bytes follow the op code and the session id; the receiver looks no further than the size field of a write. */
  function PayloadSize(op: Byte, s: seq<Byte>): (n: Option<nat>) {
    if op == OP_MOUNT then Some(NAME_SIZE)
    else if op == OP_OPEN then Some(4 + NAME_SIZE)
    else if op == OP_CLOSE then Some(4)
    else if op == OP_READ then Some(12)
    else if op == OP_WRITE then (if |s| < 12 then None else Some(12 + SizeAt(s, 4)))
    else if op == OP_UNMOUNT || op == OP_SHUTDOWN then Some(0)
    else None
  }

  /** Where the payload starts. */
  function HeaderSize(op: Byte): nat {
    if op == OP_MOUNT then 1 else 5
  }

  /** The length of the first request in the stream; none if it is incomplete, unknown, or too long for the buffer. */
  function FrameSize(stream: seq<Byte>): (n: Option<nat>)
    ensures n.Some? ==> 0 < n.value <= |stream| && n.value <= MAX_REQUEST_SIZE
  {
    if stream == [] then None
    else
      var h := HeaderSize(stream[0]);
      if |stream| < h then None
      else
        match PayloadSize(stream[0], stream[h..])
        case None => None
        case Some(n) => if h + n <= |stream| && h + n <= MAX_REQUEST_SIZE then Some(h + n) else None
  }

  /** What the case_* functions read out of a session's buffer. */
  function Decode(buffer: seq<Byte>): Option<Request>
    requires |buffer| == MAX_REQUEST_SIZE
  {
    var op := buffer[0];
    if op == OP_MOUNT then
      (match StringIn(buffer[1..1 + NAME_SIZE])
       case None => None
       case Some(pipe) => Some(MountReq(pipe)))
    else
      var sid := IntAt(buffer, 1);
      if op == OP_UNMOUNT then Some(UnmountReq(sid))
      else if op == OP_SHUTDOWN then Some(ShutdownReq(sid))
      else if op == OP_OPEN then
        (match StringIn(buffer[9..9 + NAME_SIZE])
         case None => None
         case Some(name) => Some(OpenReq(sid, name, IntAt(buffer, 5))))
      else if op == OP_CLOSE then Some(CloseReq(sid, IntAt(buffer, 5)))
      else if op == OP_READ then Some(ReadReq(sid, IntAt(buffer, 5), SizeAt(buffer, 9)))
      else if op == OP_WRITE && WRITE_HEADER + SizeAt(buffer, 9) <= MAX_REQUEST_SIZE then
        Some(WriteReq(sid, IntAt(buffer, 5), buffer[WRITE_HEADER..WRITE_HEADER + SizeAt(buffer, 9)]))
      else None
  }

  // ---------------------------------------------------------------- round trips

  /** What a buffer that starts with d holds at a place inside d. */
  lemma PrefixHas(d: seq<Byte>, buffer: seq<Byte>, a: nat, n: nat)
    requires d <= buffer && a + n <= |d|
    ensures buffer[a..a + n] == d[a..a + n]
    ensures n == 4 ==> IntAt(buffer, a) == IntAt(d, a)
    ensures n == 8 ==> SizeAt(buffer, a) == SizeAt(d, a)
  {
  }

  lemma IntInside(pre: seq<Byte>, v: Int32, post: seq<Byte>)
    ensures IntAt(pre + EncodeInt(v) + post, |pre|) == v
  {
    var d := pre + EncodeInt(v) + post;
    IntInStretch(d, |pre|, |pre| + 4, |pre|);
    assert d[|pre|..|pre| + 4] == EncodeInt(v);
  }

  lemma SizeInside(pre: seq<Byte>, v: Size, post: seq<Byte>)
    ensures SizeAt(pre + EncodeSize(v) + post, |pre|) == v
  {
    hide EncodeSize;
    var d := pre + EncodeSize(v) + post;
    assert forall k :: 0 <= k < 8 ==> d[|pre| + k] == EncodeSize(v)[k];
  }

  /** The fields of each request, where the server looks for them. */
  lemma FieldsOf(r: Request)
    requires Sendable(r)
    ensures var d := Encode(r);
            && |d| <= MAX_REQUEST_SIZE && d[0] == OpCode(r)
            && (!r.MountReq? ==> |d| >= 5 && IntAt(d, 1) == r.sid)
    ensures var d := Encode(r);
            match r
            case MountReq(pipe) => |d| == 41 && d[1..41] == Field(pipe)
            case OpenReq(sid, name, flags) => |d| == 49 && IntAt(d, 5) == flags && d[9..49] == Field(name)
            case CloseReq(sid, handle) => |d| == 9 && IntAt(d, 5) == handle
            case ReadReq(sid, handle, len) => |d| == 17 && IntAt(d, 5) == handle && SizeAt(d, 9) == len
            case WriteReq(sid, handle, data) =>
              |d| == WRITE_HEADER + |data| && IntAt(d, 5) == handle && SizeAt(d, 9) == |data| && d[WRITE_HEADER..] == data
            case _ => |d| == 5
  {
    hide EncodeInt, EncodeSize, IntAt, SizeAt, Field;
    var d := Encode(r);
    if !r.MountReq? {
      SidOf(r);
      var head := [OpCode(r)] + EncodeInt(r.sid);
      match r
      case OpenReq(sid, name, flags) =>
        IntInside(head, flags, Field(name));
        assert d == head + EncodeInt(flags) + Field(name);
      case CloseReq(sid, handle) =>
        IntInside(head, handle, []);
        assert d == head + EncodeInt(handle) + [];
      case ReadReq(sid, handle, len) => SizedOf(d, head, handle, len, []);
      case WriteReq(sid, handle, data) => SizedOf(d, head, handle, |data|, data);
      case _ =>
    }
  }

  lemma SidOf(r: Request)
    requires Sendable(r) && !r.MountReq?
    ensures |Encode(r)| >= 5 && IntAt(Encode(r), 1) == r.sid
  {
    hide EncodeInt, IntAt, Payload;
    IntInside([OpCode(r)], r.sid, Payload(r));
    assert Encode(r) == [OpCode(r)] + EncodeInt(r.sid) + Payload(r);
  }

  lemma SizedOf(d: seq<Byte>, head: seq<Byte>, handle: Int32, len: Size, data: seq<Byte>)
    requires |head| == 5 && d == head + (EncodeInt(handle) + EncodeSize(len) + data)
    ensures |d| == WRITE_HEADER + |data| && IntAt(d, 5) == handle && SizeAt(d, 9) == len && d[WRITE_HEADER..] == data
  {
    hide EncodeInt, EncodeSize, IntAt, SizeAt;
    IntInside(head, handle, EncodeSize(len) + data);
    assert d == head + EncodeInt(handle) + (EncodeSize(len) + data);
    SizeInside(head + EncodeInt(handle), len, data);
    assert d == (head + EncodeInt(handle)) + EncodeSize(len) + data;
  }

  /** The receiver cuts the stream where the client's request ends. */
  lemma FrameOfEncoded(r: Request, tail: seq<Byte>)
    requires Sendable(r)
    ensures FrameSize(Encode(r) + tail) == Some(|Encode(r)|)
  {
    hide Encode, IntAt, SizeAt, Field;
    FieldsOf(r);
    var d := Encode(r);
    var stream := d + tail;
    assert d <= stream && stream[0] == d[0];
    if r.WriteReq? {
      PrefixHas(d, stream, 9, 8);
      SizeInTail(stream);
    }
  }

  lemma SizeInTail(stream: seq<Byte>)
    requires |stream| >= 17
    ensures SizeAt(stream[5..], 4) == SizeAt(stream, 9)
  {
  }

  /** Whatever the rest of the buffer holds, the request is read back. */
  lemma DecodeEncoded(r: Request, buffer: seq<Byte>)
    requires Sendable(r) && |buffer| == MAX_REQUEST_SIZE && Encode(r) <= buffer
    ensures Decode(buffer) == Some(r)
  {
    hide Encode, IntAt, SizeAt, Field, StringIn;
    FieldsOf(r);
    var d := Encode(r);
    assert buffer[0] == d[0];
    if !r.MountReq? { PrefixHas(d, buffer, 1, 4); }
    match r
    case MountReq(pipe) =>
      PrefixHas(d, buffer, 1, NAME_SIZE);
      NameArrives(pipe);
    case OpenReq(sid, name, flags) =>
      PrefixHas(d, buffer, 5, 4);
      PrefixHas(d, buffer, 9, NAME_SIZE);
      NameArrives(name);
    case CloseReq(sid, handle) => PrefixHas(d, buffer, 5, 4);
    case ReadReq(sid, handle, len) =>
      PrefixHas(d, buffer, 5, 4);
      PrefixHas(d, buffer, 9, 8);
    case WriteReq(sid, handle, data) =>
      PrefixHas(d, buffer, 5, 4);
      PrefixHas(d, buffer, 9, 8);
      PrefixHas(d, buffer, WRITE_HEADER, |data|);
      assert d[WRITE_HEADER..WRITE_HEADER + |data|] == data;
    case _ =>
  }

  // ---------------------------------------------------------------- the stream of all requests

  predicate AllSendable(rs: seq<Request>) {
    forall i :: 0 <= i < |rs| ==> Sendable(rs[i])
  }

  function EncodeAll(rs: seq<Request>): seq<Byte>
    requires AllSendable(rs)
  {
    if rs == [] then [] else Encode(rs[0]) + EncodeAll(rs[1..])
  }

  /** The requests that the receiver and the case_* functions find in a stream, when every byte of it belongs to one. */
  function Parse(stream: seq<Byte>): Option<seq<Request>>
    decreases |stream|
  {
    if stream == [] then Some([])
    else
      match FrameSize(stream)
      case None => None
      case Some(n) =>
        match Decode(stream[..n] + seq(MAX_REQUEST_SIZE - n, _ => 0))
        case None => None
        case Some(r) =>
          match Parse(stream[n..])
          case None => None
          case Some(rs) => Some([r] + rs)
  }

  /** Any list of requests, written one after the other, is read back exactly, with no byte left. */
  lemma {:induction false} StreamRoundTrip(rs: seq<Request>)
    requires AllSendable(rs)
    ensures Parse(EncodeAll(rs)) == Some(rs)
  {
    hide Encode, Decode, FrameSize;
    if rs != [] {
      var d := Encode(rs[0]);
      var tail := EncodeAll(rs[1..]);
      FrameOfEncoded(rs[0], tail);
      FieldsOf(rs[0]);
      assert (d + tail)[..|d|] == d && (d + tail)[|d|..] == tail;
      DecodeEncoded(rs[0], d + seq(MAX_REQUEST_SIZE - |d|, _ => 0));
      StreamRoundTrip(rs[1..]);
      assert rs == [rs[0]] + rs[1..];
    }
  }

  /** Two lists of requests never give the same bytes. */
  lemma StreamIsUnambiguous(rs: seq<Request>, ts: seq<Request>)
    requires AllSendable(rs) && AllSendable(ts) && EncodeAll(rs) == EncodeAll(ts)
    ensures rs == ts
  {
    hide Parse, EncodeAll;
    StreamRoundTrip(rs);
    StreamRoundTrip(ts);
  }
}
