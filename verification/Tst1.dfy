/** The `tst1` transfer test of tipc.cpp: a client sends a length and then that many counting bytes in
    chunks of any size, and a server reads them back in chunks of 1024 and checks them. */
module Tst1 {
  import opened Common
  import opened Streams

  const CHUNK := 1024   // sizeof(buff_rx), sizeof(buff_tx)

  /** An `int` from its four bytes, low byte first. */
  function FromBytes(b: seq<Byte>): (r: int)
    requires |b| == 4
    ensures -0x8000_0000 <= r < 0x8000_0000
    ensures var u := b[0] as int + 0x100 * b[1] as int + 0x1_0000 * b[2] as int + 0x100_0000 * b[3] as int;
            r == u || r + 0x1_0000_0000 == u
  {
    var u := b[0] as int + 0x100 * b[1] as int + 0x1_0000 * b[2] as int + 0x100_0000 * b[3] as int;
    if u < 0x8000_0000 then u else u - 0x1_0000_0000
  }

  function ToBytes(total: nat): (b: seq<Byte>)
    requires total < 0x8000_0000
    ensures |b| == 4 && FromBytes(b) == total
    ensures b[0] as int + 0x100 * b[1] as int + 0x1_0000 * b[2] as int + 0x100_0000 * b[3] as int == total
  {
    var second := total / 0x100;
    var third := second / 0x100;
    [total % 0x100, second % 0x100, third % 0x100, third / 0x100]
  }

  /** The counting bytes from `from` up to `to`. */
  function Counting(from: nat, to: nat): (r: seq<Byte>)
    requires from <= to
    ensures |r| == to - from && forall k | 0 <= k < |r| :: r[k] == (from + k) % 256
  {
    seq(to - from, k requires 0 <= k < to - from => (from + k) % 256)
  }

  // ---------------------------------------------------------------------------
  // The server
  // ---------------------------------------------------------------------------

  datatype Outcome = Threw | Aborted(errno: Errno) | Finished | Stuck

  predicate Matches(buf: seq<Byte>, id: nat, len: nat)
    requires len <= |buf|
  {
    forall k | 0 <= k < len :: buf[k] == (id + k) % 256
  }

  /** The server's loop from byte `id` on, with `buf` in its buffer. */
  function Body(w: Wire, total: int, id: nat, buf: seq<Byte>): (Outcome, Wire)
    requires |buf| == CHUNK
    decreases total - id
  {
    if id >= total then (Finished, w) else
    var len := Min(CHUNK, total - id);
    var r := ReadAll(w, len);
    match r.status
    case Failed(e) => (Aborted(e), r.wire)
    case Waiting => (Stuck, r.wire)
    case _ =>
      if Matches(Filled(r.got, buf), id, len) then Body(r.wire, total, id + len, Filled(r.got, buf))
      else (Threw, r.wire)
  }

  /** The whole server. What the first read returns is ignored. */
  function Serve(w: Wire, buf: seq<Byte>): (Outcome, Wire)
    requires |buf| == CHUNK
  {
    var head := ReadAll(w, 4);
    if head.status.Waiting? then (Stuck, head.wire) else
    Body(head.wire, FromBytes(Filled(head.got, [0, 0, 0, 0])), 0, buf)
  }

  /** `server_tst1`; `buff` is `buff_rx`, whatever it holds. */
  method ServerTst1(conn: Connection, buff: array<Byte>) returns (r: Outcome)
    requires buff.Length == CHUNK
    modifies conn`wire, buff
    ensures (r, conn.wire) == Serve(old(conn.wire), old(buff[..]))
  {
    var head := new Byte[4](i => 0);
    assert head[..] == [0, 0, 0, 0];
    var ret, _ := conn.Read(1, head, 4, false);
    if ret.StillWaiting? {
      return Stuck;
    }
    r := ServeBytes(conn, FromBytes(head[..]), buff);
  }

  /** The loop over the chunks. */
  method ServeBytes(conn: Connection, total: int, buff: array<Byte>) returns (r: Outcome)
    requires buff.Length == CHUNK
    modifies conn`wire, buff
    ensures (r, conn.wire) == Body(old(conn.wire), total, 0, old(buff[..]))
  {
    var id: nat := 0;
    while id < total
      invariant Body(old(conn.wire), total, 0, old(buff[..])) == Body(conn.wire, total, id, buff[..])
      decreases total - id
    {
      var len := Min(CHUNK, total - id);
      var stop;
      stop, r := ServeChunk(conn, total, id, len, buff);
      if stop {
        return;
      }
      id := id + len;
    }
    r := Finished;
  }

  /** One turn of that loop: a chunk is read and compared. */
  method ServeChunk(conn: Connection, total: int, id: nat, len: nat, buff: array<Byte>) returns (stop: bool, r: Outcome)
    requires buff.Length == CHUNK && id < total && len == Min(CHUNK, total - id)
    modifies conn`wire, buff
    ensures Body(old(conn.wire), total, id, old(buff[..]))
            == if stop then (r, conn.wire) else Body(conn.wire, total, id + len, buff[..])
  {
    BodyTurn(conn.wire, total, id, buff[..], len, ReadAll(conn.wire, len));
    var err, _ := conn.Read(1, buff, len, false);
    if err.StillWaiting? {
      return true, Stuck;
    }
    if err.value != 0 {
      return true, Aborted(err.value);
    }
    var ok := Check(buff, id, len);
    stop, r := !ok, Threw;
  }

  /** The loop that compares a chunk byte by byte. */
  method Check(buff: array<Byte>, id: nat, len: nat) returns (ok: bool)
    requires len <= buff.Length
    ensures ok <==> Matches(buff[..], id, len)
  {
    var k := 0;
    while k < len
      invariant 0 <= k <= len && Matches(buff[..], id, k)
    {
      if buff[k] != (id + k) % 256 {
        return false;
      }
      k := k + 1;
    }
    return true;
  }

  /** The bytes in the inbox are the counting bytes from `id` on, as far as they go. */
  ghost predicate Continues(inbox: seq<Byte>, total: int, id: nat)
  {
    forall k | 0 <= k < |inbox| && id + k < total :: inbox[k] == (id + k) % 256
  }

  lemma ShiftedRemainder(q: nat, k: nat)
    ensures (256 * q + k) % 256 == k % 256
  {
  }

  lemma WholeChunks(id: nat)
    requires id % 1024 == 0
    ensures id == 256 * (4 * (id / 1024))
  {
  }

  lemma SameRemainder(id: nat, k: nat)
    requires id % CHUNK == 0
    ensures (id + k) % 256 == k % 256
  {
    WholeChunks(id);
    ShiftedRemainder(4 * (id / 1024), k);
  }

  lemma NextChunk(id: nat)
    requires id % CHUNK == 0
    ensures (id + CHUNK) % CHUNK == 0
  {
  }

  /** Chunks start at multiples of 1024, so all of them look like the first. */
  lemma ChunksLookAlike(buf: seq<Byte>, id: nat, len: nat)
    requires id % CHUNK == 0 && len <= |buf|
    ensures Matches(buf, id, len) <==> Matches(buf, 0, len)
  {
    forall k | 0 <= k < len
      ensures (id + k) % 256 == k % 256
    {
      SameRemainder(id, k);
    }
  }

  /** What the buffer still holds from the chunk before is the same as what should have come. */
  lemma StaleMatches(got: seq<Byte>, rest: seq<Byte>, buf: seq<Byte>, total: int, id: nat, len: nat)
    requires |buf| == CHUNK && id % CHUNK == 0 && |got| <= len <= CHUNK && len <= total - id
    requires Continues(got + rest, total, id) && (|got| == len || Matches(buf, 0, CHUNK))
    ensures Matches(Filled(got, buf), id, len)
  {
    forall k | 0 <= k < len
      ensures Filled(got, buf)[k] == (id + k) % 256
    {
      if k < |got| {
        assert Filled(got, buf)[k] == (got + rest)[k];
      } else {
        SameRemainder(id, k);
      }
    }
  }

  lemma RestContinues(got: seq<Byte>, rest: seq<Byte>, total: int, id: nat)
    requires Continues(got + rest, total, id)
    ensures Continues(rest, total, id + |got|)
  {
    assert forall k | 0 <= k < |rest| :: rest[k] == (got + rest)[|got| + k];
  }

  /** A chunk is accepted also when the connection was closed in the middle of it. */
  lemma ChunkMatches(w: Wire, total: int, id: nat, buf: seq<Byte>, len: nat, r: Reading)
    requires |buf| == CHUNK && id % CHUNK == 0 && Continues(w.inbox, total, id)
    requires id < total && len == Min(CHUNK, total - id) && r == ReadAll(w, len)
    requires r.status.Complete? || (r.status.EndOfFile? && Matches(buf, 0, CHUNK))
    ensures Matches(Filled(r.got, buf), id, len)
    ensures len == CHUNK ==> Matches(Filled(r.got, buf), 0, CHUNK)
    ensures Continues(r.wire.inbox, total, id + len)
  {
    ReadsInOrder(w, len);
    ReadStopsFor(w, len);
    StaleMatches(r.got, r.wire.inbox, buf, total, id, len);
    ChunksLookAlike(Filled(r.got, buf), id, len);
    RestContinues(r.got, r.wire.inbox, total, id);
  }

  /** From the second chunk on the server never throws, for any schedule, and no matter where the
      client stops. */
  lemma {:induction false} BodyNeverThrows(w: Wire, total: int, id: nat, buf: seq<Byte>)
    requires |buf| == CHUNK && id % CHUNK == 0 && Continues(w.inbox, total, id)
    requires id > 0 ==> Matches(buf, 0, CHUNK)
    requires 0 == id < total ==> ReadAll(w, Min(CHUNK, total)).status.Complete?
    ensures !Body(w, total, id, buf).0.Threw?
    decreases total - id
  {
    if id < total {
      var len := Min(CHUNK, total - id);
      var r := ReadAll(w, len);
      BodyTurn(w, total, id, buf, len, r);
      if r.status.Complete? || r.status.EndOfFile? {
        ChunkMatches(w, total, id, buf, len, r);
        if len == CHUNK {
          BodyNeverThrows(r.wire, total, id + len, Filled(r.got, buf));
        }
      }
    }
  }

  /** One turn of the server's loop. */
  lemma BodyTurn(w: Wire, total: int, id: nat, buf: seq<Byte>, len: nat, r: Reading)
    requires |buf| == CHUNK && id < total && len == Min(CHUNK, total - id) && r == ReadAll(w, len)
    ensures var b := Body(w, total, id, buf);
            && (r.status.Failed? ==> b == (Aborted(r.status.errno), r.wire))
            && (r.status.Waiting? ==> b == (Stuck, r.wire))
            && (r.status.Complete? || r.status.EndOfFile? ==>
                  var buf' := Filled(r.got, buf);
                  && (!Matches(buf', id, len) ==> b == (Threw, r.wire))
                  && (Matches(buf', id, len) && id + len < total ==> b == Body(r.wire, total, id + len, buf'))
                  && (Matches(buf', id, len) && id + len == total ==> b == (Finished, r.wire)))
  {
  }

  /** A first chunk that the connection cut short: whether it passes depends on what was in the buffer. */
  predicate TailMatches(buf: seq<Byte>, from: nat, len: nat)
    requires from <= len <= |buf|
  {
    forall k | from <= k < len :: buf[k] == k % 256
  }

  lemma CutChunkMatches(got: seq<Byte>, rest: seq<Byte>, buf: seq<Byte>, total: int, len: nat)
    requires |buf| == CHUNK && |got| <= len <= CHUNK && len <= total && Continues(got + rest, total, 0)
    ensures Matches(Filled(got, buf), 0, len) <==> TailMatches(buf, |got|, len)
  {
    assert forall k | 0 <= k < |got| :: Filled(got, buf)[k] == (got + rest)[k];
    assert forall k | |got| <= k < len :: Filled(got, buf)[k] == buf[k];
  }

  /** When the bytes that come are a beginning of what should come, the server throws exactly if the
      connection ends inside the first chunk and the rest of the buffer gives it away. */
  lemma ThrowsIffFirstChunkIsCut(w: Wire, total: int, buf: seq<Byte>)
    requires |buf| == CHUNK && total > 0 && Continues(w.inbox, total, 0)
    ensures var len := Min(CHUNK, total); var r := ReadAll(w, len);
            Body(w, total, 0, buf).0.Threw? <==> r.status.EndOfFile? && !TailMatches(buf, |r.got|, len)
  {
    var len := Min(CHUNK, total);
    var r := ReadAll(w, len);
    BodyTurn(w, total, 0, buf, len, r);
    if r.status.Complete? {
      BodyNeverThrows(w, total, 0, buf);
    } else if r.status.EndOfFile? {
      ReadsInOrder(w, len);
      ReadStopsFor(w, len);
      CutChunkMatches(r.got, r.wire.inbox, buf, total, len);
      if len == CHUNK && TailMatches(buf, |r.got|, len) {
        BodyNeverThrows(r.wire, total, CHUNK, Filled(r.got, buf));
      }
    }
  }

  /** The blocking read of a chunk ends at a failing call exactly if it reports one. */
  lemma ReadLeads(w: Wire, left: nat, later: Schedule)
    requires ReadAll(w, left).wire.later.LeadsTo(later) && !ReadAll(w, left).status.Failed?
    ensures w.later.LeadsTo(later)
  {
    FirstFailureEnds(w, left);
    LeadsFurther(w.later, ReadAll(w, left).wire.later, later);
  }

  /** The loop over the chunks gives up at the first failing call, with its number, and at no other point; an
      interruption, a short transfer or the end of the connection never makes it give up. */
  lemma {:induction false} AbortsAtFirstFailure(w: Wire, total: int, id: nat, buf: seq<Byte>)
    requires |buf| == CHUNK
    ensures var b := Body(w, total, id, buf);
            match b.0
            case Aborted(e) => w.later.LeadsTo(Then(Failure(e), b.1.later))
            case _ => w.later.LeadsTo(b.1.later)
    decreases total - id
  {
    if id < total {
      var len := Min(CHUNK, total - id);
      var r := ReadAll(w, len);
      BodyTurn(w, total, id, buf, len, r);
      FirstFailureEnds(w, len);
      if (r.status.Complete? || r.status.EndOfFile?) && id + len < total && Matches(Filled(r.got, buf), id, len) {
        AbortsAtFirstFailure(r.wire, total, id + len, Filled(r.got, buf));
        var b := Body(r.wire, total, id + len, Filled(r.got, buf));
        ReadLeads(w, len, if b.0.Aborted? then Then(Failure(b.0.errno), b.1.later) else b.1.later);
      }
    }
  }

  /** A connection that is going to be closed without a failing call still delivers what was sent. */
  lemma {:induction false} ClosingRead(w: Wire, left: nat)
    requires w.later.Closes()
    ensures var r := ReadAll(w, left);
            && r.wire.later.Closes() && |r.got| == Min(left, |w.inbox|)
            && r.status == if |r.got| == left then Complete else EndOfFile
    decreases w.later, |w.inbox|
  {
    if left > 0 {
      var w' := AfterRead(w, left);
      match SysRead(w, left)
      case Moved(n) =>
        if n > 0 {
          ClosingRead(w', left - n);
        }
      case TryAgain => ClosingRead(w', left);
      case Error(_) =>
    }
  }

  /** From the second chunk on, a connection closed anywhere looks like a complete transfer. */
  lemma {:induction false} ClosingGoesUnnoticed(w: Wire, total: int, id: nat, buf: seq<Byte>)
    requires |buf| == CHUNK && id % CHUNK == 0 && id > 0 && Matches(buf, 0, CHUNK)
    requires Continues(w.inbox, total, id) && w.later.Closes()
    ensures Body(w, total, id, buf).0.Finished?
    decreases total - id
  {
    if id < total {
      var len := Min(CHUNK, total - id);
      var r := ReadAll(w, len);
      ClosingRead(w, len);
      BodyTurn(w, total, id, buf, len, r);
      ChunkMatches(w, total, id, buf, len, r);
      if len == CHUNK {
        NextChunk(id);
        ClosingGoesUnnoticed(r.wire, total, id + len, Filled(r.got, buf));
      }
    }
  }

  /** In the first chunk it is noticed exactly if the buffer did not hold the missing bytes by chance. */
  lemma ClosingInFirstChunk(w: Wire, total: int, buf: seq<Byte>)
    requires |buf| == CHUNK && total > 0 && Continues(w.inbox, total, 0) && w.later.Closes()
    ensures var len := Min(CHUNK, total); var b := Body(w, total, 0, buf).0;
            b == if TailMatches(buf, Min(len, |w.inbox|), len) then Finished else Threw
  {
    var len := Min(CHUNK, total);
    var r := ReadAll(w, len);
    ClosingRead(w, len);
    ReadsInOrder(w, len);
    ReadStopsFor(w, len);
    FirstChunkCloses(w, total, buf, len, r);
  }

  lemma FirstChunkCloses(w: Wire, total: int, buf: seq<Byte>, len: nat, r: Reading)
    requires |buf| == CHUNK && total > 0 && len == Min(CHUNK, total) && r == ReadAll(w, len)
    requires Continues(r.got + r.wire.inbox, total, 0) && |r.got| <= len && r.wire.later.Closes()
    requires r.status.Complete? || (r.status.EndOfFile? && r.wire.inbox == [])
    requires r.status.Complete? <==> |r.got| == len
    ensures Body(w, total, 0, buf).0 == if TailMatches(buf, |r.got|, len) then Finished else Threw
  {
    BodyTurn(w, total, 0, buf, len, r);
    CutChunkMatches(r.got, r.wire.inbox, buf, total, len);
    if TailMatches(buf, |r.got|, len) && len == CHUNK {
      if r.status.Complete? {
        RestContinues(r.got, r.wire.inbox, total, 0);
      }
      ClosingGoesUnnoticed(r.wire, total, CHUNK, Filled(r.got, buf));
    }
  }

  /** What the server makes of a message that is there completely. */
  ghost predicate Served(w: Wire, rest: seq<Byte>, o: Outcome, w': Wire)
  {
    match o
    case Threw => false
    case Aborted(e) => w.later.Has(Failure(e)) && !w.later.IsGentle()
    case Finished => w'.inbox == rest
    case Stuck => w'.later.Over?
  }

  /** What holds of the rest of the wire holds of the whole. */
  lemma ServedSooner(w: Wire, len: nat, rest: seq<Byte>, o: Outcome, w': Wire)
    requires Served(ReadAll(w, len).wire, rest, o, w')
    ensures Served(w, rest, o, w')
  {
    ReadStopsFor(w, len);
  }

  /** A chunk of the message, and what is left of it. */
  lemma ChunkOfMessage(w: Wire, total: nat, id: nat, rest: seq<Byte>, len: nat, r: Reading)
    requires id + len <= total && len > 0 && w.inbox == Counting(id, total) + rest && r == ReadAll(w, len)
    ensures !r.status.EndOfFile? && Continues(w.inbox, total, id)
    ensures r.status.Complete? ==> r.wire.inbox == Counting(id + len, total) + rest
    ensures r.status.Complete? && id + len == total ==> r.wire.inbox == rest
  {
    CountingContinues(id, total, rest);
    NoEndWithin(w, len);
    if r.status.Complete? {
      ReadsInOrder(w, len);
      RestOfMessage(r.got, r.wire.inbox, id, total, rest);
    }
  }

  lemma CountingContinues(id: nat, total: nat, rest: seq<Byte>)
    requires id <= total
    ensures Continues(Counting(id, total) + rest, total, id)
  {
    assert forall k | 0 <= k < total - id :: (Counting(id, total) + rest)[k] == Counting(id, total)[k];
  }

  /** A read does not come to an end while all that was asked for is there. */
  lemma NoEndWithin(w: Wire, len: nat)
    requires len <= |w.inbox|
    ensures !ReadAll(w, len).status.EndOfFile?
  {
    ReadsInOrder(w, len);
    ReadStopsFor(w, len);
    var r := ReadAll(w, len);
    assert |r.got| + |r.wire.inbox| == |r.got + r.wire.inbox|;
  }

  lemma RestOfMessage(got: seq<Byte>, left: seq<Byte>, id: nat, total: nat, rest: seq<Byte>)
    requires id + |got| <= total && got + left == Counting(id, total) + rest
    ensures left == Counting(id + |got|, total) + rest
    ensures id + |got| == total ==> left == rest
  {
    assert left == (got + left)[|got|..];
    assert Counting(id, total)[|got|..] == Counting(id + |got|, total);
    assert (Counting(id, total) + rest)[|got|..] == Counting(id, total)[|got|..] + rest;
  }

  lemma {:induction false} BodyServes(w: Wire, total: nat, id: nat, buf: seq<Byte>, rest: seq<Byte>)
    requires |buf| == CHUNK && id % CHUNK == 0 && id < total && w.inbox == Counting(id, total) + rest
    ensures var b := Body(w, total, id, buf); Served(w, rest, b.0, b.1)
    decreases total - id
  {
    var len := Min(CHUNK, total - id);
    var r := ReadAll(w, len);
    BodyTurn(w, total, id, buf, len, r);
    ChunkOfMessage(w, total, id, rest, len, r);
    if r.status.Complete? {
      ChunkMatches(w, total, id, buf, len, r);
      if id + len < total {
        BodyServes(r.wire, total, id + len, Filled(r.got, buf), rest);
        var b := Body(r.wire, total, id + len, Filled(r.got, buf));
        ServedSooner(w, len, rest, b.0, b.1);
      }
    } else {
      StoppedIsServed(w, len, rest);
    }
  }

  lemma StoppedIsServed(w: Wire, len: nat, rest: seq<Byte>)
    ensures var r := ReadAll(w, len);
            && (r.status.Failed? ==> Served(w, rest, Aborted(r.status.errno), r.wire))
            && (r.status.Waiting? ==> Served(w, rest, Stuck, r.wire))
  {
    ReadStopsFor(w, len);
  }

  /** The length is read correctly, unless the read fails. */
  lemma HeadOfMessage(w: Wire, total: nat, body: seq<Byte>, head: Reading)
    requires total < 0x8000_0000 && w.inbox == ToBytes(total) + body && head == ReadAll(w, 4)
    ensures !head.status.EndOfFile?
    ensures head.status.Complete? ==> Filled(head.got, [0, 0, 0, 0]) == ToBytes(total) && head.wire.inbox == body
  {
    ReadsInOrder(w, 4);
    ReadStopsFor(w, 4);
    if head.status.Complete? {
      assert head.got == (head.got + head.wire.inbox)[..4] == ToBytes(total);
      assert head.wire.inbox == (head.got + head.wire.inbox)[4..] == body;
    }
  }

  /** Whatever sizes the bytes come in, the server never throws, takes exactly the message, and gives
      up only on a failing call, provided that reading the length does not fail. */
  lemma MessageIsServed(w: Wire, total: nat, rest: seq<Byte>, buf: seq<Byte>)
    requires total < 0x8000_0000 && |buf| == CHUNK && w.inbox == ToBytes(total) + (Counting(0, total) + rest)
    requires !ReadAll(w, 4).status.Failed?
    ensures var s := Serve(w, buf); Served(w, rest, s.0, s.1)
  {
    var head := ReadAll(w, 4);
    HeadOfMessage(w, total, Counting(0, total) + rest, head);
    if head.status.Complete? && total > 0 {
      BodyServes(head.wire, total, 0, buf, rest);
      var b := Body(head.wire, total, 0, buf);
      ServedSooner(w, 4, rest, b.0, b.1);
    } else {
      StoppedIsServed(w, 4, rest);
      assert Counting(0, 0) + rest == rest;
    }
  }

  /** A read of the length that fails has taken its first bytes; the others stay in front of the data, and
      the length taken from the bytes that came is not more than the real one. */
  lemma FailedLength(w: Wire, total: nat, body: seq<Byte>, head: Reading)
    requires total < 0x8000_0000 && w.inbox == ToBytes(total) + body && head == ReadAll(w, 4) && head.status.Failed?
    ensures |head.got| < 4 && head.wire.inbox == ToBytes(total)[|head.got|..] + body
    ensures 0 <= FromBytes(Filled(head.got, [0, 0, 0, 0])) <= total
  {
    ReadsInOrder(w, 4);
    var n := |head.got|;
    assert head.got == (head.got + head.wire.inbox)[..n] == ToBytes(total)[..n];
    assert head.wire.inbox == (head.got + head.wire.inbox)[n..];
    ShortLength(ToBytes(total), n);
  }

  lemma ShortLength(b: seq<Byte>, n: nat)
    requires |b| == 4 && b[3] < 0x80 && n < 4
    ensures 0 <= FromBytes(Filled(b[..n], [0, 0, 0, 0])) <= FromBytes(b)
  {
    var f := Filled(b[..n], [0, 0, 0, 0]);
    assert f[0] <= b[0] && f[1] <= b[1] && f[2] <= b[2] && f[3] == 0;
  }

  lemma LeftoverBytes(total: nat, n: nat, rest: seq<Byte>, inbox: seq<Byte>)
    requires 0 < total < 0x8000_0000 && n < 4 && inbox == ToBytes(total)[n..] + (Counting(0, total) + rest)
    ensures |inbox| > total && inbox[4 - n] == 0
  {
    assert Counting(0, total)[0] == 0;
  }

  /** A whole chunk passes if its own bytes do. */
  lemma WholeChunk(got: seq<Byte>, buf: seq<Byte>)
    requires |got| <= |buf|
    ensures Matches(Filled(got, buf), 0, |got|) <==> Matches(got, 0, |got|)
  {
    assert forall k | 0 <= k < |got| :: Filled(got, buf)[k] == got[k];
  }

  /** The bytes left over from the length are followed by a 0, which is never right at that place. So only
      a first chunk of at most these bytes can pass, and then it is the only one. */
  lemma LeftoverDecides(w: Wire, total: nat, n: nat, rest: seq<Byte>, t: nat, buf: seq<Byte>)
    requires |buf| == CHUNK && total < 0x8000_0000 && n < 4 && 0 < t <= total
    requires w.inbox == ToBytes(total)[n..] + (Counting(0, total) + rest)
    ensures var r := ReadAll(w, Min(CHUNK, t));
            Body(w, t, 0, buf).0.Threw? <==> r.status.Complete? && !Matches(r.got, 0, |r.got|)
  {
    var len := Min(CHUNK, t);
    var r := ReadAll(w, len);
    LeftoverBytes(total, n, rest, w.inbox);
    FirstChunkDecides(w, t, 4 - n, buf, len, r);
  }

  /** While there is more than was asked for, a read does not come to an end. */
  lemma NoEndYet(w: Wire, len: nat)
    requires len < |w.inbox|
    ensures var r := ReadAll(w, len);
            !r.status.EndOfFile? && |r.got| <= |w.inbox| && forall k | 0 <= k < |r.got| :: r.got[k] == w.inbox[k]
  {
    ReadsInOrder(w, len);
    ReadStopsFor(w, len);
    var r := ReadAll(w, len);
    assert |w.inbox| == |r.got| + |r.wire.inbox|;
    assert forall k | 0 <= k < |r.got| :: (r.got + r.wire.inbox)[k] == r.got[k];
  }

  lemma FirstChunkDecides(w: Wire, t: nat, p: nat, buf: seq<Byte>, len: nat, r: Reading)
    requires |buf| == CHUNK && 0 < t < |w.inbox| && 0 < p <= 4 && (p < |w.inbox| ==> w.inbox[p] == 0)
    requires len == Min(CHUNK, t) && r == ReadAll(w, len)
    ensures Body(w, t, 0, buf).0.Threw? <==> r.status.Complete? && !Matches(r.got, 0, |r.got|)
  {
    BodyTurn(w, t, 0, buf, len, r);
    NoEndYet(w, len);
    if r.status.Complete? {
      CompleteIsAll(w, len);
      WholeChunk(r.got, buf);
      assert len > p ==> r.got[p] == 0;
    }
  }

  lemma CompleteIsAll(w: Wire, len: nat)
    requires ReadAll(w, len).status.Complete?
    ensures |ReadAll(w, len).got| == len
  {
    ReadsInOrder(w, len);
  }

  /** With the whole message sent, exactly when the server throws: reading the length failed, and the
      chunk that it then reads, which begins inside the length, arrives and is wrong. What was in the
      buffer before makes no difference. */
  lemma MessageThrowsIff(w: Wire, total: nat, rest: seq<Byte>, buf: seq<Byte>)
    requires total < 0x8000_0000 && |buf| == CHUNK && w.inbox == ToBytes(total) + (Counting(0, total) + rest)
    ensures var head := ReadAll(w, 4); var t := FromBytes(Filled(head.got, [0, 0, 0, 0]));
            Serve(w, buf).0.Threw? <==>
              head.status.Failed? && t > 0 &&
              var r := ReadAll(head.wire, Min(CHUNK, t)); r.status.Complete? && !Matches(r.got, 0, |r.got|)
  {
    var head := ReadAll(w, 4);
    if head.status.Failed? {
      FailedLength(w, total, Counting(0, total) + rest, head);
      var t := FromBytes(Filled(head.got, [0, 0, 0, 0]));
      if t > 0 {
        LeftoverDecides(head.wire, total, |head.got|, rest, t, buf);
      }
    } else {
      MessageIsServed(w, total, rest, buf);
    }
  }

  /** A read of the length that fails after one byte. */
  lemma HalfLength(b: Byte, others: seq<Byte>, e: Errno, later: Schedule)
    ensures ReadAll(Wire([b] + others, Then(Data(0), Then(Failure(e), later))), 4)
            == Reading(Failed(e), [b], Wire(others, later))
  {
    var w := Wire([b] + others, Then(Data(0), Then(Failure(e), later)));
    var w1 := Wire(others, Then(Failure(e), later));
    assert w.inbox[..1] == [b] && w.inbox[1..] == others;
    assert ReadAll(w1, 3) == Reading(Failed(e), [], Wire(others, later));
    assert [b] + [] == [b];
  }

  /** The next byte arrives alone. */
  lemma OneByte(b: Byte, others: seq<Byte>, later: Schedule)
    ensures ReadAll(Wire([b] + others, Then(Data(0), later)), 1) == Reading(Complete, [b], Wire(others, later))
  {
    var w := Wire([b] + others, Then(Data(0), later));
    assert w.inbox[..1] == [b] && w.inbox[1..] == others;
    assert ReadAll(Wire(others, later), 0) == Reading(Complete, [], Wire(others, later));
    assert [b] + [] == [b];
  }

  /** A server that takes the length for 1 rejects a chunk that does not start with 0. */
  lemma WrongByteThrows(tail: seq<Byte>, buf: seq<Byte>, later: Schedule)
    requires |buf| == CHUNK
    ensures Body(Wire([1] + tail, Then(Data(0), later)), 1, 0, buf).0.Threw?
  {
    OneByte(1, tail, later);
    assert Filled([1], buf)[0] == 1;
    BodyTurn(Wire([1] + tail, Then(Data(0), later)), 1, 0, buf, 1, Reading(Complete, [1], Wire(tail, later)));
  }

  lemma ServeAfterLength(w: Wire, head: Reading, t: int, buf: seq<Byte>)
    requires |buf| == CHUNK && head == ReadAll(w, 4) && !head.status.Waiting?
    requires t == FromBytes(Filled(head.got, [0, 0, 0, 0]))
    ensures Serve(w, buf) == Body(head.wire, t, 0, buf)
  {
  }

  lemma OneByteLength(b: Byte)
    ensures FromBytes(Filled([b], [0, 0, 0, 0])) == b
  {
    assert Filled([b], [0, 0, 0, 0]) == [b, 0, 0, 0];
  }

  lemma LengthInFront(body: seq<Byte>)
    ensures ToBytes(257) + body == [1] + ([1] + ([0, 0] + body))
  {
    assert ToBytes(257) == [1, 1, 0, 0];
  }

  /** It does happen: the length is 257, and one byte of it came before the failure. */
  lemma FailedLengthThrows(e: Errno, body: seq<Byte>, buf: seq<Byte>, later: Schedule)
    requires |buf| == CHUNK
    ensures Serve(Wire(ToBytes(257) + body, Then(Data(0), Then(Failure(e), Then(Data(0), later)))), buf).0.Threw?
  {
    var tail := [0, 0] + body;
    LengthInFront(body);
    HalfLength(1, [1] + tail, e, Then(Data(0), later));
    OneByteLength(1);
    var w := Wire(ToBytes(257) + body, Then(Data(0), Then(Failure(e), Then(Data(0), later))));
    ServeAfterLength(w, Reading(Failed(e), [1], Wire([1] + tail, Then(Data(0), later))), 1, buf);
    WrongByteThrows(tail, buf, later);
  }

  // ---------------------------------------------------------------------------
  // The client
  // ---------------------------------------------------------------------------

  /** Fills the chunk with the next counting bytes. */
  method Fill(buff: array<Byte>, id: nat, len: nat, total: nat) returns (k: nat)
    requires len <= buff.Length && id <= total
    modifies buff
    ensures k == Min(len, total - id) && buff[..k] == Counting(id, id + k)
  {
    k := 0;
    while k < len && id + k < total
      invariant k <= len && id + k <= total && forall j | 0 <= j < k :: buff[j] == (id + j) % 256
    {
      buff[k] := (id + k) % 256;
      k := k + 1;
    }
  }

  /** The chunks are a cut of the message, also a chunk of which only `cnt` bytes went out. */
  lemma ChunkExtends(start: seq<Byte>, before: seq<Byte>, chunk: seq<Byte>, after: seq<Byte>,
                     total: nat, id: nat, k: nat, cnt: nat)
    requires id + k <= total && cnt <= k && chunk == Counting(id, id + k)
    requires before == start + Counting(0, id) && after == before + chunk[..cnt]
    ensures after == start + Counting(0, id + cnt) && after <= start + Counting(0, total)
  {
    assert Counting(0, id) + chunk[..cnt] == Counting(0, id + cnt);
    assert Counting(0, id + cnt) == Counting(0, total)[..id + cnt];
  }

  /** The client's loop over the chunks. `draws` are the random numbers; when they run out, or when a
      write is still waiting, `done` is false. Errors of `write` are ignored, as in the program. */
  method SendChunks(conn: Connection, buff: array<Byte>, total: nat, draws: seq<nat>) returns (done: bool)
    requires buff.Length == CHUNK
    modifies conn`outbox, conn`outLater, buff
    ensures !done ==> conn.outLater.Over? || |draws| < total
    ensures old(conn.outLater).IsGentle() ==>
              && conn.outbox <= old(conn.outbox) + Counting(0, total)
              && (done ==> conn.outbox == old(conn.outbox) + Counting(0, total))
  {
    var id, turn := 0, 0;
    while id < total
      invariant 0 <= turn <= id <= total && turn <= |draws|
      invariant old(conn.outLater).IsGentle() ==>
                  conn.outLater.IsGentle() && conn.outbox == old(conn.outbox) + Counting(0, id)
      decreases |draws| - turn
    {
      if turn == |draws| {
        ghost var sent := conn.outbox;
        if old(conn.outLater).IsGentle() {
          ChunkExtends(old(conn.outbox), sent, Counting(id, id), sent, total, id, 0, 0);
        }
        return false;
      }
      var k := Fill(buff, id, draws[turn] % CHUNK + 1, total);
      ghost var before := conn.outbox;
      ghost var cnt;
      var r;
      r, cnt := conn.Write(1, buff, k, false);
      if old(conn.outLater).IsGentle() {
        ChunkExtends(old(conn.outbox), before, buff[..k], conn.outbox, total, id, k, cnt);
      }
      if r.StillWaiting? {
        return false;
      }
      id := id + k;
      turn := turn + 1;
    }
    done := true;
  }

  /** The sender of the client, after the word `tst1`. */
  method ClientTst1(conn: Connection, buff: array<Byte>, total: nat, draws: seq<nat>) returns (done: bool)
    requires buff.Length == CHUNK && total < 0x8000_0000
    modifies conn`outbox, conn`outLater, buff
    ensures !done ==> conn.outLater.Over? || |draws| < total
    ensures old(conn.outLater).IsGentle() ==>
              && conn.outbox <= old(conn.outbox) + (ToBytes(total) + Counting(0, total))
              && (done ==> conn.outbox == old(conn.outbox) + (ToBytes(total) + Counting(0, total)))
  {
    var head := new Byte[4](i requires 0 <= i < 4 => ToBytes(total)[i]);
    assert head[..] == ToBytes(total);
    ghost var cnt;
    var r;
    r, cnt := conn.Write(1, head, 4, false);
    assert head[..cnt] == ToBytes(total)[..cnt];
    Grouped(old(conn.outbox), ToBytes(total), Counting(0, total), cnt);
    if r.StillWaiting? {
      return false;
    }
    done := SendChunks(conn, buff, total, draws);
  }

  lemma Grouped(a: seq<Byte>, b: seq<Byte>, c: seq<Byte>, cnt: nat)
    requires cnt <= |b|
    ensures a + b[..cnt] <= a + (b + c) && (a + b) + c == a + (b + c)
    ensures cnt == |b| ==> a + b[..cnt] == a + b
  {
  }

  /** End to end: a client whose writes do not fail, and a server that gets what the client sent in
      pieces of its own. */
  method Transfer(total: nat, draws: seq<nat>, outLater: Schedule, rest: seq<Byte>, later: Schedule)
    returns (done: bool, o: Outcome, ghost w: Wire, ghost w': Wire)
    requires total < 0x8000_0000 && outLater.IsGentle()
    ensures done ==> w == Wire(ToBytes(total) + (Counting(0, total) + rest), later)
    ensures done && !ReadAll(w, 4).status.Failed? ==> Served(w, rest, o, w')
  {
    var client := new Connection(Wire([], Over), outLater);
    var txBuff := new Byte[CHUNK](i => 0);
    done := ClientTst1(client, txBuff, total, draws);
    o, w, w' := Stuck, client.wire, client.wire;
    if done {
      assert client.outbox == ToBytes(total) + Counting(0, total);
      assert client.outbox + rest == ToBytes(total) + (Counting(0, total) + rest);
      var server := new Connection(Wire(client.outbox + rest, later), Over);
      var rxBuff := new Byte[CHUNK](i => 0);
      w := server.wire;
      if !ReadAll(w, 4).status.Failed? {
        MessageIsServed(w, total, rest, rxBuff[..]);
      }
      o := ServerTst1(server, rxBuff);
      w' := server.wire;
    }
  }
}
