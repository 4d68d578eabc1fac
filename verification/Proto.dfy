/** Message frames, CopyData payloads, and the boundary messages inside them. */
module Proto {
  import opened Wrappers
  import opened Bytes

  datatype ProtoError =
    | Eof | BadLength(len: int) | TooLarge(size: nat)
    | EmptyCopyData | ShortXLogData | ShortKeepAlive | UnknownCopyData(kind: byte)
    | Truncated | ServerError(payload: seq<byte>)

  datatype BackendMessage = BackendMessage(tag: byte, payload: seq<byte>)

  datatype CopyData =
    | XLogCopy(walStart: nat, walEnd: nat, serverTime: int, data: seq<byte>)
    | KeepAliveCopy(walEnd: nat, serverTime: int, replyRequested: bool)

  datatype Boundary =
    | BeginBoundary(finalLsn: nat, commitTime: int, xid: nat)
    | CommitBoundary(lsn: nat, endLsn: nat, commitTime: int)

  /** What the worker hands to the session. */
  datatype ReplEvent =
    | KeepAlive(walEnd: nat)
    | Begin(finalLsn: nat, xid: nat, commitTime: int)
    | XLogData(walStart: nat, walEnd: nat, data: seq<byte>)
    | Commit(lsn: nat, endLsn: nat, commitTime: int)

  const MAX_MESSAGE_SIZE: nat := 64 * 1024 * 1024

  // ── Frames ────────────────────────────────────────────────────────────────

  /** One tag byte, a length that counts itself, and the payload. */
  function Frame(tag: byte, payload: seq<byte>): seq<byte>
    requires |payload| <= MAX_MESSAGE_SIZE
  {
    [tag] + I32Bytes(|payload| + 4) + payload
  }

  function ReadFrame(s: seq<byte>): (r: Result<(BackendMessage, seq<byte>), ProtoError>)
    ensures r.Ok? ==> |r.value.1| < |s|
  {
    if |s| < 5 then Err(Eof)
    else
      var len := Signed(Uint(s[1..5]), 4);
      if len < 4 then Err(BadLength(len))
      else if len - 4 > MAX_MESSAGE_SIZE then Err(TooLarge(len - 4))
      else if |s| < 5 + (len - 4) then Err(Eof)
      else Ok((BackendMessage(s[0], s[5..5 + (len - 4)]), s[5 + (len - 4)..]))
  }

  /**
    The most that a read which still waits for more can have taken of `s`: all
    there is of the next frame but its last byte, and of a header that is an
    error, which ends the read, all but its last byte.
   */
  function Pending(s: seq<byte>): (n: nat)
    ensures n <= |s|
    ensures ReadFrame(s).Ok? ==> n + 1 + |ReadFrame(s).value.1| == |s|
  {
    if |s| < 5 then |s|
    else
      var len := Signed(Uint(s[1..5]), 4);
      if len < 4 || len - 4 > MAX_MESSAGE_SIZE then 4 else Min(len, |s|)
  }

  /** What is left of `s` after a read that had taken `taken` bytes is cancelled. */
  function Cut(s: seq<byte>, taken: nat): seq<byte> {
    s[Min(taken, Pending(s))..]
  }

  /** The bytes still to come from the socket. */
  class Socket {
    var rest: seq<byte>

    constructor (bytes: seq<byte>)
      ensures rest == bytes
    {
      rest := bytes;
    }

    method ReadExact(n: nat) returns (r: Result<seq<byte>, ProtoError>)
      modifies this
      ensures if |old(rest)| < n then r == Err(Eof)
              else r == Ok(old(rest)[..n]) && rest == old(rest)[n..]
    {
      if |rest| < n {
        return Err(Eof);
      }
      r := Ok(rest[..n]);
      rest := rest[n..];
    }

    /** A read of a message that is dropped before it is done: what it had taken is gone. */
    method CancelRead(taken: nat)
      modifies this
      ensures rest == Cut(old(rest), taken)
    {
      var n := Min(taken, Pending(rest));
      rest := rest[n..];
    }

    method ReadBackendMessage() returns (r: Result<BackendMessage, ProtoError>)
      modifies this
      ensures match ReadFrame(old(rest))
              case Ok((m, more)) => r == Ok(m) && rest == more
              case Err(e) => r == Err(e)
    {
      ghost var s := rest;
      var hdr :- ReadExact(5);
      var len := Signed(Uint(hdr[1..5]), 4);
      assert hdr[1..5] == s[1..5];
      if len < 4 {
        return Err(BadLength(len));
      }
      var payloadLen := len - 4;
      if payloadLen > MAX_MESSAGE_SIZE {
        return Err(TooLarge(payloadLen));
      }
      var payload :- ReadExact(payloadLen);
      assert s[5..][..payloadLen] == s[5..5 + payloadLen];
      assert s[5..][payloadLen..] == s[5 + payloadLen..];
      return Ok(BackendMessage(hdr[0], payload));
    }
  }

  method WriteCopyData(payload: seq<byte>) returns (buf: seq<byte>)
    requires |payload| <= MAX_MESSAGE_SIZE
    ensures buf == Frame(Tag('d'), payload)
  {
    buf := [Tag('d')];
    buf := buf + I32Bytes(0);
    buf := buf + payload;
    var len := I32Bytes(|buf| - 1);
    for i := 0 to 4
      invariant |buf| == 5 + |payload|
      invariant buf == [Tag('d')] + len[..i] + buf[1 + i..5] + payload
    {
      buf := buf[1 + i := len[i]];
    }
    assert len[..4] == len;
  }

  /** Reading a written frame gives its tag and payload and leaves what follows. */
  lemma {:induction false} FrameReadsBack(tag: byte, payload: seq<byte>, rest: seq<byte>)
    requires |payload| <= MAX_MESSAGE_SIZE
    ensures ReadFrame(Frame(tag, payload) + rest) == Ok((BackendMessage(tag, payload), rest))
  {
    Widths();
    var n := |payload| + 4;
    UintOfBigEndian(n, 4);
    var s := Frame(tag, payload) + rest;
    assert s[1..5] == I32Bytes(n);
    assert s[5..5 + |payload|] == payload;
    assert s[5 + |payload|..] == rest;
  }

  // ── CopyData ──────────────────────────────────────────────────────────────

  function CopyDataOf(payload: seq<byte>): Result<CopyData, ProtoError> {
    if payload == [] then Err(EmptyCopyData)
    else
      var b := payload[1..];
      if payload[0] == Tag('w') then
        if |b| < 24 then Err(ShortXLogData)
        else Ok(XLogCopy(Uint(b[..8]), Uint(b[8..16]), Signed(Uint(b[16..24]), 8), b[24..]))
      else if payload[0] == Tag('k') then
        if |b| < 17 then Err(ShortKeepAlive)
        else Ok(KeepAliveCopy(Uint(b[..8]), Signed(Uint(b[8..16]), 8), b[16] != 0))
      else Err(UnknownCopyData(payload[0]))
  }

  method ParseCopyData(payload: seq<byte>) returns (r: Result<CopyData, ProtoError>)
    ensures r == CopyDataOf(payload)
  {
    if |payload| == 0 {
      return Err(EmptyCopyData);
    }
    var kind, b := payload[0], payload[1..];
    if kind == Tag('w') {
      if |b| < 24 {
        return Err(ShortXLogData);
      }
      var walStart := Uint(b[..8]);
      b := b[8..];
      var walEnd := Uint(b[..8]);
      b := b[8..];
      var serverTime := Signed(Uint(b[..8]), 8);
      b := b[8..];
      ghost var s := payload[1..];
      assert s[8..][..8] == s[8..16] && s[8..][8..][..8] == s[16..24] && s[8..][8..][8..] == s[24..];
      return Ok(XLogCopy(walStart, walEnd, serverTime, b));
    }
    if kind == Tag('k') {
      if |b| < 17 {
        return Err(ShortKeepAlive);
      }
      var walEnd := Uint(b[..8]);
      b := b[8..];
      var serverTime := Signed(Uint(b[..8]), 8);
      b := b[8..];
      ghost var s := payload[1..];
      assert s[8..][..8] == s[8..16] && s[8..][8..] == s[16..];
      return Ok(KeepAliveCopy(walEnd, serverTime, b[0] != 0));
    }
    return Err(UnknownCopyData(kind));
  }

  function BoundaryOf(data: seq<byte>): Result<Option<Boundary>, ProtoError> {
    if data == [] then Ok(None)
    else
      var p := data[1..];
      if data[0] == Tag('B') then
        if |p| < 20 then Err(Truncated)
        else Ok(Some(BeginBoundary(Uint(p[..8]), Signed(Uint(p[8..16]), 8), Uint(p[16..20]))))
      else if data[0] == Tag('C') then
        if |p| < 25 then Err(Truncated)
        else Ok(Some(CommitBoundary(Uint(p[1..9]), Uint(p[9..17]), Signed(Uint(p[17..25]), 8))))
      else Ok(None)
  }

  method TakeInt(p: seq<byte>, w: nat) returns (r: Result<nat, ProtoError>, rest: seq<byte>)
    ensures if |p| < w then r == Err(Truncated)
            else r == Ok(Uint(p[..w])) && rest == p[w..]
  {
    if |p| < w {
      return Err(Truncated), p;
    }
    return Ok(Uint(p[..w])), p[w..];
  }

  method ParseBoundary(data: seq<byte>) returns (r: Result<Option<Boundary>, ProtoError>)
    ensures r == BoundaryOf(data)
  {
    if |data| == 0 {
      return Ok(None);
    }
    var tag, p := data[0], data[1..];
    ghost var s := p;
    var a, b, c, d;
    if tag == Tag('B') {
      a, p := TakeInt(p, 8);
      if a.Err? { return Err(Truncated); }
      b, p := TakeInt(p, 8);
      if b.Err? { return Err(Truncated); }
      c, p := TakeInt(p, 4);
      if c.Err? { return Err(Truncated); }
      assert s[8..][..8] == s[8..16] && s[8..][8..][..4] == s[16..20];
      return Ok(Some(BeginBoundary(a.value, Signed(b.value, 8), c.value)));
    }
    if tag == Tag('C') {
      a, p := TakeInt(p, 1);
      if a.Err? { return Err(Truncated); }
      b, p := TakeInt(p, 8);
      if b.Err? { return Err(Truncated); }
      c, p := TakeInt(p, 8);
      if c.Err? { return Err(Truncated); }
      d, p := TakeInt(p, 8);
      if d.Err? { return Err(Truncated); }
      assert s[1..][..8] == s[1..9] && s[1..][8..][..8] == s[9..17] && s[1..][8..][8..][..8] == s[17..25];
      return Ok(Some(CommitBoundary(b.value, c.value, Signed(d.value, 8))));
    }
    return Ok(None);
  }

  // ── Standby status updates ────────────────────────────────────────────────

  method EncodeStatusUpdate(applied: nat, clientTime: int, reply: bool) returns (out: seq<byte>)
    requires U64(applied) && I64(clientTime)
    ensures out == [Tag('r')] + BigEndian(applied, 8) + BigEndian(applied, 8) + BigEndian(applied, 8)
                 + I64Bytes(clientTime) + [if reply then 1 else 0]
    ensures StatusOf(out) == Some((applied, applied, applied, clientTime, reply))
  {
    Widths();
    var lsn, time := BigEndian(applied, 8), I64Bytes(clientTime);
    out := [Tag('r')];
    out := out + lsn;
    out := out + lsn;
    out := out + lsn;
    out := out + time;
    out := out + [if reply then 1 else 0];
    assert out[1..9] == lsn && out[9..17] == lsn && out[17..25] == lsn && out[25..33] == time;
    UintOfBigEndian(applied, 8);
    UintOfBigEndian(Unsigned(clientTime, 8), 8);
    SignedOfUnsigned(clientTime, 8);
  }

  /** How the server reads an update: written, flushed and applied positions, clock, reply flag. */
  function StatusOf(s: seq<byte>): Option<(nat, nat, nat, int, bool)> {
    if |s| == 34 && s[0] == Tag('r') then
      Some((Uint(s[1..9]), Uint(s[9..17]), Uint(s[17..25]), Signed(Uint(s[25..33]), 8), s[33] != 0))
    else None
  }

  // ── The worker: bytes to events ───────────────────────────────────────────

  /** The event one CopyData message becomes. */
  function EventOf(payload: seq<byte>): Result<ReplEvent, ProtoError> {
    var cd :- CopyDataOf(payload);
    match cd
    case KeepAliveCopy(walEnd, _, _) => Ok(KeepAlive(walEnd))
    case XLogCopy(walStart, walEnd, _, data) =>
      var boundary :- BoundaryOf(data);
      match boundary
      case Some(BeginBoundary(finalLsn, commitTime, xid)) => Ok(Begin(finalLsn, xid, commitTime))
      case Some(CommitBoundary(lsn, endLsn, commitTime)) => Ok(Commit(lsn, endLsn, commitTime))
      case None => Ok(XLogData(walStart, walEnd, data))
  }

  /** `Drained`: every byte received so far is used up. */
  datatype WorkerEnd = Drained | Failed(error: ProtoError)

  /** The events emitted for the bytes of `s`, and how reading them ends. */
  function WorkerRun(s: seq<byte>): (seq<ReplEvent>, WorkerEnd)
    decreases |s|
  {
    if s == [] then ([], Drained)
    else
      match ReadFrame(s)
      case Err(e) => ([], Failed(e))
      case Ok((m, rest)) =>
        if m.tag == Tag('d') then
          match EventOf(m.payload)
          case Err(e) => ([], Failed(e))
          case Ok(ev) => ([ev] + WorkerRun(rest).0, WorkerRun(rest).1)
        else if m.tag == Tag('E') then ([], Failed(ServerError(m.payload)))
        else WorkerRun(rest)
  }
}
