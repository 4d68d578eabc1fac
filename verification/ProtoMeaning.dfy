/** The bytes of frames and messages, both ways: what is read is what was written there, and nothing else is. */
module ProtoMeaning {
  import opened Wrappers
  import opened Bytes
  import opened Proto

  // ── Numbers ───────────────────────────────────────────────────────────────

  lemma {:induction false} Reads64(bs: seq<byte>, n: nat)
    requires |bs| == 8
    ensures Uint(bs) == n <==> U64(n) && bs == BigEndian(n, 8)
  {
    Widths();
    BytesOfUint(bs);
    if U64(n) {
      UintOfBigEndian(n, 8);
    }
  }

  lemma {:induction false} ReadsSigned64(bs: seq<byte>, x: int)
    requires |bs| == 8
    ensures Signed(Uint(bs), 8) == x <==> I64(x) && bs == I64Bytes(x)
  {
    Widths();
    BytesOfUint(bs);
    UnsignedOfSigned(Uint(bs), 8);
    if I64(x) {
      SignedOfUnsigned(x, 8);
      UintOfBigEndian(Unsigned(x, 8), 8);
    }
  }

  lemma {:induction false} ReadsSigned32(bs: seq<byte>, x: int)
    requires |bs| == 4
    ensures Signed(Uint(bs), 4) == x <==> I32(x) && bs == I32Bytes(x)
  {
    Widths();
    BytesOfUint(bs);
    UnsignedOfSigned(Uint(bs), 4);
    if I32(x) {
      SignedOfUnsigned(x, 4);
      UintOfBigEndian(Unsigned(x, 4), 4);
    }
  }

  lemma {:induction false} Reads32(bs: seq<byte>, n: nat)
    requires |bs| == 4
    ensures Uint(bs) == n <==> U32(n) && bs == BigEndian(n, 4)
  {
    Widths();
    BytesOfUint(bs);
    if U32(n) {
      UintOfBigEndian(n, 4);
    }
  }

  // ── Frames ────────────────────────────────────────────────────────────────

  /** A tag and this length are at the front of `s`. */
  ghost predicate HasLength(s: seq<byte>, len: int) {
    |s| >= 5 && I32(len) && s[1..5] == I32Bytes(len)
  }

  /** What a read finds: a whole frame, a length that cannot be, or an end that comes too early. */
  ghost predicate Finds(s: seq<byte>, r: Result<(BackendMessage, seq<byte>), ProtoError>) {
    match r
    case Ok((m, rest)) => |m.payload| <= MAX_MESSAGE_SIZE && s == Frame(m.tag, m.payload) + rest
    case Err(BadLength(len)) => len < 4 && HasLength(s, len)
    case Err(TooLarge(size)) => size > MAX_MESSAGE_SIZE && HasLength(s, size + 4)
    case Err(Eof) =>
      |s| < 5 || exists len :: HasLength(s, len) && 4 <= len <= MAX_MESSAGE_SIZE + 4 && |s| < 5 + (len - 4)
    case Err(_) => false
  }

  lemma {:induction false} FrameExactly(s: seq<byte>, r: Result<(BackendMessage, seq<byte>), ProtoError>)
    ensures ReadFrame(s) == r <==> Finds(s, r)
  {
    if |s| >= 5 {
      var len := Signed(Uint(s[1..5]), 4);
      ReadsSigned32(s[1..5], len);
      assert HasLength(s, len);
      forall other | HasLength(s, other) ensures other == len {
        ReadsSigned32(s[1..5], other);
      }
      assert r.Err? && r.error.TooLarge? && Finds(s, r) ==> r.error.size + 4 == len;
      if 4 <= len && len - 4 <= MAX_MESSAGE_SIZE && |s| >= 5 + (len - 4) {
        var payload, rest := s[5..5 + (len - 4)], s[5 + (len - 4)..];
        assert s == [s[0]] + s[1..5] + payload + rest;
      }
    }
    match r
    case Ok((m, rest)) =>
      if Finds(s, r) {
        FrameReadsBack(m.tag, m.payload, rest);
      }
    case Err(_) =>
  }

  // ── CopyData ──────────────────────────────────────────────────────────────

  /** The layout of a message, or what is wrong with it. */
  ghost predicate IsCopyData(s: seq<byte>, r: Result<CopyData, ProtoError>) {
    match r
    case Ok(XLogCopy(walStart, walEnd, serverTime, data)) =>
      && U64(walStart) && U64(walEnd) && I64(serverTime)
      && s == [Tag('w')] + BigEndian(walStart, 8) + BigEndian(walEnd, 8) + I64Bytes(serverTime) + data
    case Ok(KeepAliveCopy(walEnd, serverTime, reply)) =>
      && U64(walEnd) && I64(serverTime)
      && exists flag: byte, more :: (reply <==> flag > 0) &&
           s == [Tag('k')] + BigEndian(walEnd, 8) + I64Bytes(serverTime) + [flag] + more
    case Err(EmptyCopyData) => s == []
    case Err(ShortXLogData) => 0 < |s| < 1 + 24 && s[0] == Tag('w')
    case Err(ShortKeepAlive) => 0 < |s| < 1 + 17 && s[0] == Tag('k')
    case Err(UnknownCopyData(kind)) => s != [] && s[0] == kind && kind != Tag('w') && kind != Tag('k')
    case Err(_) => false
  }

  lemma {:induction false} CopyDataExactly(s: seq<byte>, r: Result<CopyData, ProtoError>)
    ensures CopyDataOf(s) == r <==> IsCopyData(s, r)
  {
    if s != [] {
      match r
      case Ok(XLogCopy(walStart, walEnd, serverTime, data)) => XLogExactly(s, walStart, walEnd, serverTime, data);
      case Ok(KeepAliveCopy(walEnd, serverTime, reply)) => KeepAliveExactly(s, walEnd, serverTime, reply);
      case Err(_) =>
    }
  }

  lemma {:induction false} SplitXLog(s: seq<byte>, x: seq<byte>, y: seq<byte>, z: seq<byte>, data: seq<byte>)
    requires s != [] && |x| == 8 && |y| == 8 && |z| == 8
    ensures s == [s[0]] + x + y + z + data <==>
            |s| >= 25 && s[1..][..8] == x && s[1..][8..16] == y && s[1..][16..24] == z && s[1..][24..] == data
  {
    if |s| >= 25 {
      var b := s[1..];
      assert s == [s[0]] + b[..8] + b[8..16] + b[16..24] + b[24..];
    }
    var t := [s[0]] + x + y + z + data;
    assert t[1..][..8] == x && t[1..][8..16] == y && t[1..][16..24] == z && t[1..][24..] == data;
  }

  lemma {:induction false} XLogExactly(s: seq<byte>, walStart: nat, walEnd: nat, serverTime: int, data: seq<byte>)
    requires s != []
    ensures CopyDataOf(s) == Ok(XLogCopy(walStart, walEnd, serverTime, data)) <==>
            IsCopyData(s, Ok(XLogCopy(walStart, walEnd, serverTime, data)))
  {
    var b := s[1..];
    if |b| >= 24 {
      Reads64(b[..8], walStart);
      Reads64(b[8..16], walEnd);
      ReadsSigned64(b[16..24], serverTime);
      SplitXLog(s, b[..8], b[8..16], b[16..24], b[24..]);
    }
    if IsCopyData(s, Ok(XLogCopy(walStart, walEnd, serverTime, data))) {
      SplitXLog(s, BigEndian(walStart, 8), BigEndian(walEnd, 8), I64Bytes(serverTime), data);
    }
  }

  lemma {:induction false} SplitKeepAlive(s: seq<byte>, x: seq<byte>, y: seq<byte>, flag: byte, more: seq<byte>)
    requires s != [] && |x| == 8 && |y| == 8
    ensures s == [s[0]] + x + y + [flag] + more <==>
            |s| >= 18 && s[1..][..8] == x && s[1..][8..16] == y && s[1..][16] == flag && s[1..][17..] == more
  {
    if |s| >= 18 {
      var b := s[1..];
      assert s == [s[0]] + b[..8] + b[8..16] + [b[16]] + b[17..];
    }
    var t := [s[0]] + x + y + [flag] + more;
    assert t[1..][..8] == x && t[1..][8..16] == y && t[1..][16] == flag && t[1..][17..] == more;
  }

  lemma {:induction false} KeepAliveExactly(s: seq<byte>, walEnd: nat, serverTime: int, reply: bool)
    requires s != []
    ensures CopyDataOf(s) == Ok(KeepAliveCopy(walEnd, serverTime, reply)) <==>
            IsCopyData(s, Ok(KeepAliveCopy(walEnd, serverTime, reply)))
  {
    var b := s[1..];
    if |b| >= 17 {
      Reads64(b[..8], walEnd);
      ReadsSigned64(b[8..16], serverTime);
      SplitKeepAlive(s, b[..8], b[8..16], b[16], b[17..]);
    }
    if IsCopyData(s, Ok(KeepAliveCopy(walEnd, serverTime, reply))) {
      var flag: byte, more :| (reply <==> flag > 0) &&
           s == [Tag('k')] + BigEndian(walEnd, 8) + I64Bytes(serverTime) + [flag] + more;
      SplitKeepAlive(s, BigEndian(walEnd, 8), I64Bytes(serverTime), flag, more);
    }
  }

  // ── Boundaries ────────────────────────────────────────────────────────────

  /** A Begin or a Commit message with what may follow it, another message, or one that is too short. */
  ghost predicate IsBoundary(s: seq<byte>, r: Result<Option<Boundary>, ProtoError>) {
    match r
    case Ok(Some(BeginBoundary(finalLsn, commitTime, xid))) =>
      && U64(finalLsn) && I64(commitTime) && U32(xid)
      && [Tag('B')] + BigEndian(finalLsn, 8) + I64Bytes(commitTime) + BigEndian(xid, 4) <= s
    case Ok(Some(CommitBoundary(lsn, endLsn, commitTime))) =>
      && U64(lsn) && U64(endLsn) && I64(commitTime)
      && exists flags: byte :: [Tag('C')] + [flags] + BigEndian(lsn, 8) + BigEndian(endLsn, 8) + I64Bytes(commitTime) <= s
    case Ok(None) => s != [] ==> s[0] != Tag('B') && s[0] != Tag('C')
    case Err(Truncated) => s != [] && ((s[0] == Tag('B') && |s| < 21) || (s[0] == Tag('C') && |s| < 26))
    case Err(_) => false
  }

  lemma {:induction false} BoundaryExactly(s: seq<byte>, r: Result<Option<Boundary>, ProtoError>)
    ensures BoundaryOf(s) == r <==> IsBoundary(s, r)
  {
    if s != [] {
      match r
      case Ok(Some(BeginBoundary(finalLsn, commitTime, xid))) => BeginExactly(s, finalLsn, commitTime, xid);
      case Ok(Some(CommitBoundary(lsn, endLsn, commitTime))) => CommitExactly(s, lsn, endLsn, commitTime);
      case _ =>
    }
  }

  lemma {:induction false} SplitBegin(s: seq<byte>, x: seq<byte>, y: seq<byte>, z: seq<byte>)
    requires s != [] && |x| == 8 && |y| == 8 && |z| == 4
    ensures [s[0]] + x + y + z <= s <==> |s| >= 21 && s[1..][..8] == x && s[1..][8..16] == y && s[1..][16..20] == z
  {
    if |s| >= 21 {
      var p := s[1..];
      assert s[..21] == [s[0]] + p[..8] + p[8..16] + p[16..20];
    }
    var t := [s[0]] + x + y + z;
    assert t[1..][..8] == x && t[1..][8..16] == y && t[1..][16..20] == z;
    assert |s| >= 21 ==> s[1..][..20] == s[..21][1..];
  }

  lemma {:induction false} SplitCommit(s: seq<byte>, flags: byte, x: seq<byte>, y: seq<byte>, z: seq<byte>)
    requires s != [] && |x| == 8 && |y| == 8 && |z| == 8
    ensures [s[0]] + [flags] + x + y + z <= s <==>
            |s| >= 26 && s[1..][0] == flags && s[1..][1..9] == x && s[1..][9..17] == y && s[1..][17..25] == z
  {
    if |s| >= 26 {
      var p := s[1..];
      assert s[..26] == [s[0]] + [p[0]] + p[1..9] + p[9..17] + p[17..25];
    }
    var t := [s[0]] + [flags] + x + y + z;
    assert t[1..][0] == flags && t[1..][1..9] == x && t[1..][9..17] == y && t[1..][17..25] == z;
    assert |s| >= 26 ==> s[1..][..25] == s[..26][1..];
  }

  lemma {:induction false} BeginExactly(s: seq<byte>, finalLsn: nat, commitTime: int, xid: nat)
    requires s != []
    ensures BoundaryOf(s) == Ok(Some(BeginBoundary(finalLsn, commitTime, xid))) <==>
            IsBoundary(s, Ok(Some(BeginBoundary(finalLsn, commitTime, xid))))
  {
    var p := s[1..];
    if |p| >= 20 {
      Reads64(p[..8], finalLsn);
      ReadsSigned64(p[8..16], commitTime);
      Reads32(p[16..20], xid);
    }
    if U64(finalLsn) && I64(commitTime) && U32(xid) {
      SplitBegin(s, BigEndian(finalLsn, 8), I64Bytes(commitTime), BigEndian(xid, 4));
    }
  }

  lemma {:induction false} CommitExactly(s: seq<byte>, lsn: nat, endLsn: nat, commitTime: int)
    requires s != []
    ensures BoundaryOf(s) == Ok(Some(CommitBoundary(lsn, endLsn, commitTime))) <==>
            IsBoundary(s, Ok(Some(CommitBoundary(lsn, endLsn, commitTime))))
  {
    var p := s[1..];
    if |p| >= 25 {
      Reads64(p[1..9], lsn);
      Reads64(p[9..17], endLsn);
      ReadsSigned64(p[17..25], commitTime);
    }
    if U64(lsn) && U64(endLsn) && I64(commitTime) {
      CommitFlags(s, BigEndian(lsn, 8), BigEndian(endLsn, 8), I64Bytes(commitTime));
    }
  }

  lemma {:induction false} CommitFlags(s: seq<byte>, x: seq<byte>, y: seq<byte>, z: seq<byte>)
    requires s != [] && |x| == 8 && |y| == 8 && |z| == 8
    ensures (exists flags: byte :: [s[0]] + [flags] + x + y + z <= s) <==>
            |s| >= 26 && s[1..][1..9] == x && s[1..][9..17] == y && s[1..][17..25] == z
  {
    if flags: byte :| [s[0]] + [flags] + x + y + z <= s {
      SplitCommit(s, flags, x, y, z);
    }
    if |s| >= 26 && s[1..][1..9] == x && s[1..][9..17] == y && s[1..][17..25] == z {
      SplitCommit(s, s[1], x, y, z);
    }
  }
}
