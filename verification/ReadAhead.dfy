/** The one-byte read-ahead cache of the named-pipe connection in tipc.cpp. An asynchronous read of one
    byte tells when data has come; the byte it took is handed out by the next ordinary read. */
module ReadAhead {
  import opened Common
  import opened Streams

  const ERROR_BROKEN_PIPE: Errno := 109

  /** The asynchronous read: none, waiting for a byte, or completed and about to be notified. */
  datatype Async = Idle | Pending | Landed(b: Byte) | Broken(errno: Errno)

  datatype Request = Request(len: nat, once: bool, avail: int)

  datatype Result = Went | Asserted | Hung

  class Pipe {
    const conn: Connection          // the bytes still in the pipe, and how the system will answer
    var cacheByte: Byte
    var cacheEmpty: bool
    var async: Async
    var closed: bool
    ghost var delivered: seq<Byte>  // what ordinary reads have returned
    ghost const sent: seq<Byte>     // what the peer sends in all

    ghost function Held(): seq<Byte>
      reads this
    {
      (if cacheEmpty then [] else [cacheByte]) + (if async.Landed? then [async.b] else [])
    }

    /** Nothing is lost, doubled or out of order. */
    ghost predicate Conserved()
      reads this, conn
    {
      delivered + Held() + conn.wire.inbox == sent
    }

    /** Between callbacks: the cache is empty, and one asynchronous read is on its way. */
    ghost predicate Armed()
      reads this, conn
    {
      Conserved() && cacheEmpty && (closed || !async.Idle?)
    }

    constructor (conn: Connection)
      ensures this.conn == conn && sent == conn.wire.inbox && delivered == [] && cacheEmpty && async.Idle? && !closed
      ensures Conserved()
    {
      this.conn, sent, delivered := conn, conn.wire.inbox, [];
      cacheByte, cacheEmpty, async, closed := 0, true, Idle, false;
    }

    /** The bytes a read would return if it could return everything. */
    ghost function Readable(): seq<Byte>
      reads this, conn
    {
      (if cacheEmpty then [] else [cacheByte]) + conn.wire.inbox
    }

    /** `read`: with a counter (`once`) it does not wait. `avail` is what PeekNamedPipe said, -1 if it failed. */
    method Read(buffer: array<Byte>, len: nat, once: bool, avail: int) returns (r: Return, cnt: nat)
      requires 0 < len <= buffer.Length
      modifies this`cacheEmpty, this`delivered, conn`wire, buffer
      ensures cacheEmpty && cnt <= len && delivered == old(delivered) + buffer[..cnt]
      ensures old(Readable()) == buffer[..cnt] + conn.wire.inbox
      ensures r == Returns(0) && !once ==> cnt == len
      ensures r == Returns(0) && once ==> cnt > 0 || avail == 0
      ensures !old(cacheEmpty) ==> cnt > 0
      ensures old(cacheEmpty && (conn.wire.later.Over? || (once && avail == 0))) ==> cnt == 0
      ensures cnt == len || (once && avail == 0) ==> r == Returns(0)
      ensures EndsWith(old(conn.wire.later), conn.wire.later, r)
    {
      cnt, r := 0, Returns(0);
      ghost var first: seq<Byte>, got: seq<Byte> := [], [];
      if !cacheEmpty {
        buffer[0] := cacheByte;
        cnt := 1;
        cacheEmpty := true;
        first := [cacheByte];
      }
      ghost var was := buffer[..];
      assert was[..|first|] == first;
      if !once || avail != 0 {
        r, cnt, got := Fill(buffer, cnt, len, if once then avail else -1, once);
      }
      Laid(was, |first|, got);
      assert first + (got + conn.wire.inbox) == (first + got) + conn.wire.inbox;
      assert buffer[..cnt] == first + got;
      delivered := delivered + buffer[..cnt];
    }

    /** The loop of `read`, from `start` on. With `once` it is left as soon as there is a byte. */
    method Fill(buffer: array<Byte>, start: nat, len: nat, avail: int, once: bool)
      returns (r: Return, cnt: nat, ghost got: seq<Byte>)
      requires start <= len <= buffer.Length
      modifies conn`wire, buffer
      ensures |got| == cnt - start <= len - start && buffer[..] == Overlay(old(buffer[..]), start, got)
      ensures got + conn.wire.inbox == old(conn.wire.inbox)
      ensures r == Returns(0) ==> cnt == len || (once && cnt > 0)
      ensures old(conn.wire).later.Over? ==> cnt == start
      ensures cnt == len || (once && got != []) ==> r == Returns(0)
      ensures EndsWith(old(conn.wire.later), conn.wire.later, r)
    {
      cnt := start;
      var error := 0;
      ghost var was := buffer[..];
      got := [];
      while cnt < len && error == 0 && conn.wire.later.Then?
        invariant start <= cnt <= len && |got| == cnt - start && |was| == buffer.Length
        invariant buffer[..] == Overlay(was, start, got) && got + conn.wire.inbox == old(conn.wire.inbox)
        invariant old(conn.wire).later.Over? ==> cnt == start && conn.wire.later.Over?
        invariant EndsWith(old(conn.wire.later), conn.wire.later, Returns(error)) && (cnt == len ==> error == 0)
        invariant once ==> got == []
        decreases conn.wire.later, |conn.wire.inbox|, if error == 0 then 1 else 0
      {
        ghost var chunk;
        ghost var before, ahead := conn.wire.inbox, conn.wire.later;
        error, chunk, cnt := ReadFile(buffer, cnt, if avail > 0 then Min(avail, len - cnt) else len - cnt);
        NextAnswer(old(conn.wire.later), ahead, conn.wire.later, error);
        Append(was, start, got, chunk);
        Moves(got, chunk, conn.wire.inbox, before, old(conn.wire.inbox));
        got := got + chunk;
        if once && cnt > 0 {
          break;
        }
      }
      r := if cnt < len && error == 0 && !(once && cnt > 0) then StillWaiting else Returns(error);
    }

    /** One ReadFile of `want` bytes, with the wait for its completion. */
    method ReadFile(buffer: array<Byte>, cnt: nat, want: nat) returns (error: int, ghost chunk: seq<Byte>, cnt': nat)
      requires conn.wire.later.Then? && want > 0 && cnt + want <= buffer.Length
      modifies conn`wire, buffer
      ensures |chunk| <= want && cnt' == cnt + |chunk| && buffer[..] == Overlay(old(buffer[..]), cnt, chunk)
      ensures chunk + conn.wire.inbox == old(conn.wire.inbox) && (error == 0 || error > 0)
      ensures conn.wire.later == After(old(conn.wire).later)
      ensures (error == 0 && old(conn.wire).later.first.Closed? ==> chunk != [])
      ensures error == 0 ==> !old(conn.wire).later.first.Failure?
      ensures error != 0 ==> chunk == [] && (old(conn.wire).later.first == Failure(error)
                                             || (error == ERROR_BROKEN_PIPE && old(conn.wire).later.first.Closed?))
    {
      var w := conn.wire;
      var call := conn.SysReadInto(buffer, cnt, want);
      error, cnt' := ErrorOf(call), cnt + CountOf(call);
      chunk := w.inbox[..CountOf(call)];
      Moving(w, want, buffer[..], cnt);
    }

    /** `trigger_async_cache_read`; its assertion and the rule that one read is outstanding at a time are
        the precondition. A read that fails at once is reported through the queue, like the others. */
    method Trigger()
      requires cacheEmpty && async.Idle? && Conserved()
      modifies this`async
      ensures Armed() && async == match conn.wire.later { case Then(Failure(e), _) => Broken(e) case _ => Pending }
    {
      match conn.wire.later {
        case Then(Failure(e), _) => async := Broken(e);
        case _ => async := Pending;
      }
    }

    /** The system may complete the asynchronous read: with a byte, at the end of the pipe, or failing. */
    method Complete()
      requires Armed()
      modifies this`async, conn`wire
      ensures Armed() && delivered == old(delivered)
      ensures old(async.Pending? && conn.wire.later.Then?) ==>
                && conn.wire == AfterRead(old(conn.wire), 1)
                && async == match SysRead(old(conn.wire), 1) {
                     case Moved(n) => if n == 0 then Broken(ERROR_BROKEN_PIPE) else Landed(old(conn.wire).inbox[0])
                     case TryAgain => Pending
                     case Error(e) => Broken(e)
                   }
      ensures !old(async.Pending? && conn.wire.later.Then?) ==> async == old(async) && conn.wire == old(conn.wire)
      ensures async.Pending? ==>
                conn.wire.later.Over? || (old(conn.wire).later.Then? && conn.wire.later == old(conn.wire).later.rest)
    {
      if async.Pending? && conn.wire.later.Then? {
        var w := conn.wire;
        OneLands(delivered, w, sent);
        conn.wire := AfterRead(w, 1);
        match SysRead(w, 1) {
          case Moved(n) =>
            if n == 0 {
              async := Broken(ERROR_BROKEN_PIPE);
            } else {
              async := Landed(w.inbox[0]);
            }
          case TryAgain =>
          case Error(e) => async := Broken(e);
        }
      }
    }

    /** `notify`, for a completed asynchronous read; `requests` are the reads the `on_read` callback makes. */
    method Notify(requests: seq<Request>) returns (result: Result)
      requires Armed() && !closed && (async.Landed? || async.Broken?)
      requires forall q | q in requests :: q.len > 0
      modifies this`cacheByte, this`cacheEmpty, this`async, this`closed, this`delivered, conn`wire
      ensures result.Went? ==> Armed()
      ensures closed <==> old(async) == Broken(ERROR_BROKEN_PIPE)
      ensures result.Asserted? <==> old(async).Landed? && requests == []
      ensures Conserved() && old(delivered) <= delivered
      ensures result.Went? && old(async).Landed? ==> old(delivered) + [old(async).b] <= delivered
    {
      var landed := async;
      async := Idle;
      match landed {
        case Landed(b) =>
          cacheByte, cacheEmpty := b, false;
        case Broken(e) =>
          if e == ERROR_BROKEN_PIPE {
            closed := true;
            return Went;
          }
        case _ =>
      }
      var hung := Callback(requests);
      if hung {
        return Hung;
      }
      if landed.Landed? && !cacheEmpty {
        return Asserted;
      }
      Trigger();
      result := Went;
    }

    /** A callback that makes these reads, one after the other, and stops if one never returns. */
    method Callback(requests: seq<Request>) returns (hung: bool)
      requires Conserved() && async.Idle? && forall q | q in requests :: q.len > 0
      modifies this`cacheEmpty, this`delivered, conn`wire
      ensures Conserved() && old(delivered) <= delivered && (requests == [] ==> !hung)
      ensures requests == [] ==> cacheEmpty == old(cacheEmpty) && delivered == old(delivered)
      ensures requests != [] ==> cacheEmpty && (!old(cacheEmpty) ==> old(delivered) + [cacheByte] <= delivered)
    {
      var i := 0;
      while i < |requests|
        invariant 0 <= i <= |requests| && Conserved() && old(delivered) <= delivered
        invariant i == 0 ==> cacheEmpty == old(cacheEmpty) && delivered == old(delivered)
        invariant i > 0 ==> cacheEmpty && (!old(cacheEmpty) ==> old(delivered) + [cacheByte] <= delivered)
      {
        assert requests[i] in requests;
        var buffer := new Byte[requests[i].len];
        ghost var before, readable, had := delivered, Readable(), cacheEmpty;
        var r, cnt := Read(buffer, requests[i].len, requests[i].once, requests[i].avail);
        Delivered(before, buffer[..cnt], conn.wire.inbox, readable, sent);
        assert !had ==> buffer[..cnt][0] == readable[0] == cacheByte;
        i := i + 1;
        if r.StillWaiting? {
          return true;
        }
      }
      hung := false;
    }

    /** The system serves reads in the order they were issued: before a later read gets anything, the
        asynchronous one is completed. */
    method ServePending()
      requires Conserved() && cacheEmpty
      modifies this`async, conn`wire
      ensures Conserved() && (async.Pending? ==> conn.wire.later.Over?)
      ensures !old(async).Pending? ==> async == old(async) && conn.wire == old(conn.wire)
      ensures old(async).Pending? && async.Landed? ==> [async.b] + conn.wire.inbox == old(conn.wire.inbox)
      ensures old(async).Pending? && !async.Landed? ==> !async.Idle? && conn.wire.inbox == old(conn.wire.inbox)
    {
      while async.Pending? && conn.wire.later.Then?
        invariant Conserved() && (async != old(async) ==> old(async).Pending? && !async.Pending? && !async.Idle?)
        invariant async == old(async) && !async.Pending? ==> conn.wire == old(conn.wire)
        invariant (if async.Landed? && old(async).Pending? then [async.b] else []) + conn.wire.inbox
                  == old(conn.wire.inbox)
        decreases async.Pending?, conn.wire.later
      {
        Complete();
      }
    }

    /** Why the reads must come from the callback. Between callbacks an asynchronous read is on its way. It is
        served first, and then the ordinary read overtakes the notification of the byte that it took. What
        has been delivered is still a beginning of what was sent exactly if all bytes that overtook are the
        same as the one overtaken. */
    method ReadOutsideACallback(buffer: array<Byte>, len: nat, once: bool, avail: int) returns (r: Return, cnt: nat)
      requires Conserved() && cacheEmpty && 0 < len <= buffer.Length
      modifies this`cacheEmpty, this`delivered, this`async, conn`wire, buffer
      ensures cnt <= len && delivered == old(delivered) + buffer[..cnt]
      ensures !old(async).Pending? ==> async == old(async)
      ensures old(async).Pending? && async.Landed? ==> old(conn.wire.inbox) != [] && async.b == old(conn.wire.inbox)[0]
      ensures cnt > 0 ==> !async.Pending?
      ensures delivered <= sent <==> (async.Landed? ==> forall i | 0 <= i < cnt :: buffer[i] == async.b)
      ensures Conserved() <==> (async.Landed? ==> forall i | 0 <= i < cnt :: buffer[i] == async.b)
    {
      if !(once && avail == 0) {   // otherwise `read` returns without a ReadFile
        ServePending();
      }
      r, cnt := ReadNow(buffer, len, once, avail);
    }

    /** An ordinary read outside a callback, once no earlier read is in its way. */
    method ReadNow(buffer: array<Byte>, len: nat, once: bool, avail: int) returns (r: Return, cnt: nat)
      requires Conserved() && cacheEmpty && 0 < len <= buffer.Length
      modifies this`cacheEmpty, this`delivered, conn`wire, buffer
      ensures cnt <= len && delivered == old(delivered) + buffer[..cnt]
      ensures old(conn.wire.later.Over? || (once && avail == 0)) ==> cnt == 0
      ensures delivered <= sent <==> (async.Landed? ==> forall i | 0 <= i < cnt :: buffer[i] == async.b)
      ensures Conserved() <==> (async.Landed? ==> forall i | 0 <= i < cnt :: buffer[i] == async.b)
    {
      ghost var before, inbox := delivered, conn.wire.inbox;
      r, cnt := Read(buffer, len, once, avail);
      assert [] + inbox == inbox;
      if async.Landed? {
        Overtakes(before, buffer[..cnt], async.b, conn.wire.inbox, sent);
        assert [] + [async.b] == [async.b];
      } else {
        assert before + [] == before;
        Delivered(before, buffer[..cnt], conn.wire.inbox, inbox, sent);
        assert delivered + [] == delivered;
      }
    }

    /** Everything that can happen, in any order: data moves, reads complete, and completed reads are
        notified. Each callback makes at least one read. What has been delivered is always the beginning
        of what was sent, and the program's own assertion never fires. */
    method Session(callbacks: seq<seq<Request>>) returns (result: Result)
      requires Conserved() && cacheEmpty && async.Idle? && !closed
      requires forall i, q | 0 <= i < |callbacks| && q in callbacks[i] :: q.len > 0
      requires forall i | 0 <= i < |callbacks| :: callbacks[i] != []
      modifies this`cacheByte, this`cacheEmpty, this`async, this`closed, this`delivered, conn`wire
      ensures delivered <= sent && Conserved() && !result.Asserted?
    {
      Trigger();
      var turn := 0;
      while turn < |callbacks| && !closed
        invariant 0 <= turn <= |callbacks| && Armed()
        decreases |callbacks| - turn, conn.wire.later, |conn.wire.inbox|
      {
        Complete();
        if async.Pending? {
          if conn.wire.later.Over? {
            return Hung;
          }
        } else {
          result := Notify(callbacks[turn]);
          if !result.Went? {
            return;
          }
          turn := turn + 1;
        }
      }
      result := Went;
    }
  }

  /** A read of one byte takes the next one, or none. */
  lemma OneLands(before: seq<Byte>, w: Wire, sent: seq<Byte>)
    requires w.later.Then? && before + ([] + []) + w.inbox == sent
    ensures var inbox := AfterRead(w, 1).inbox; var call := SysRead(w, 1);
            if call.Moved? && call.n > 0 then w.inbox != [] && before + ([] + [w.inbox[0]]) + inbox == sent
            else before + ([] + []) + inbox == sent
  {
    if w.inbox != [] {
      assert w.inbox == [w.inbox[0]] + w.inbox[1..];
    }
  }

  lemma Delivered(before: seq<Byte>, got: seq<Byte>, inbox: seq<Byte>, readable: seq<Byte>, sent: seq<Byte>)
    requires readable == got + inbox && before + readable == sent
    ensures (before + got) + inbox == sent && before <= before + got
  {
  }

  /** Bytes and a byte can change places only if they are all the same. */
  lemma {:induction false} Commutes(got: seq<Byte>, b: Byte)
    ensures got <= [b] + got <==> forall i | 0 <= i < |got| :: got[i] == b
    ensures [b] + got == got + [b] <==> forall i | 0 <= i < |got| :: got[i] == b
  {
    if got <= [b] + got {
      AllAlike(got, b);
    }
    if [b] + got == got + [b] {
      assert forall i | 0 <= i < |got| :: got[i] == (got + [b])[i] == ([b] + got)[i];
      AllAlike(got, b);
    }
  }

  lemma {:induction false} AllAlike(got: seq<Byte>, b: Byte)
    requires forall i | 0 <= i < |got| :: got[i] == ([b] + got)[i]
    ensures forall i | 0 <= i < |got| :: got[i] == b
  {
    if got != [] {
      var n := |got| - 1;
      assert forall i | 0 <= i < n :: got[..n][i] == got[i] == ([b] + got)[i] == ([b] + got[..n])[i];
      AllAlike(got[..n], b);
      assert n > 0 ==> got[n] == ([b] + got)[n] == got[n - 1] == got[..n][n - 1];
    }
  }

  lemma Overtakes(before: seq<Byte>, got: seq<Byte>, b: Byte, inbox: seq<Byte>, sent: seq<Byte>)
    requires before + [b] + (got + inbox) == sent
    ensures before + got <= sent <==> forall i | 0 <= i < |got| :: got[i] == b
    ensures before + got + [b] + inbox == sent <==> forall i | 0 <= i < |got| :: got[i] == b
  {
    Commutes(got, b);
    assert sent == before + (([b] + got) + inbox);
    assert sent[|before|..|before| + |got|] == ([b] + got)[..|got|];
    assert (before + got)[|before|..] == got;
    assert before + got + [b] + inbox == before + ((got + [b]) + inbox);
    assert sent[|before|..|before| + |got| + 1] == [b] + got;
    assert (before + ((got + [b]) + inbox))[|before|..|before| + |got| + 1] == got + [b];
  }

  /** The result is the number of the first failing call, that of a broken pipe at the end of a closed one, and 0
      only if no call failed. */
  ghost predicate EndsWith(before: Schedule, after: Schedule, r: Return)
  {
    if r == Returns(0) || r == StillWaiting then before.LeadsTo(after)
    else r.value > 0
         && (before.LeadsTo(Then(Failure(r.value), after))
             || (r.value == ERROR_BROKEN_PIPE && before.LeadsTo(after) && after.Then? && after.first.Closed?))
  }

  lemma NextAnswer(start: Schedule, before: Schedule, after: Schedule, error: int)
    requires start.LeadsTo(before) && before.Then? && after == After(before)
    requires error == 0 ==> !before.first.Failure?
    requires error != 0 ==> error > 0 && (before.first == Failure(error)
                                          || (error == ERROR_BROKEN_PIPE && before.first.Closed?))
    ensures EndsWith(start, after, Returns(error))
  {
    if error == 0 && !before.first.Closed? {
      LeadsOn(start, before);
    }
    assert before == Then(before.first, before.rest);
  }

  /** The error of a call; moving nothing means that the pipe is broken. */
  function ErrorOf(call: Call): (r: nat)
    ensures r == 0 ==> !call.Error? && call != Moved(0)
  {
    match call
    case Moved(n) => if n == 0 then ERROR_BROKEN_PIPE else 0
    case TryAgain => 0
    case Error(e) => e
  }

  function CountOf(call: Call): nat
  {
    if call.Moved? then call.n else 0
  }

  lemma Moving(w: Wire, want: nat, buf: seq<Byte>, at: nat)
    requires w.later.Then? && want > 0 && at <= |buf|
    ensures var call := SysRead(w, want); var n := CountOf(call);
            n <= |w.inbox| && w.inbox[..n] + AfterRead(w, want).inbox == w.inbox
    ensures Overlay(buf, at, []) == buf
  {
    var n := CountOf(SysRead(w, want));
    assert w.inbox[..n] + w.inbox[n..] == w.inbox;
  }

  lemma Append(was: seq<Byte>, start: nat, got: seq<Byte>, chunk: seq<Byte>)
    requires start + |got| + |chunk| <= |was|
    ensures Overlay(Overlay(was, start, got), start + |got|, chunk) == Overlay(was, start, got + chunk)
  {
  }

  lemma Laid(was: seq<Byte>, start: nat, got: seq<Byte>)
    requires start + |got| <= |was|
    ensures Overlay(was, start, got)[..start + |got|] == was[..start] + got
    ensures got == [] ==> Overlay(was, start, got) == was
  {
  }

  lemma Moves(got: seq<Byte>, chunk: seq<Byte>, inbox: seq<Byte>, before: seq<Byte>, all: seq<Byte>)
    requires got + before == all && chunk + inbox == before
    ensures (got + chunk) + inbox == all
  {
  }
}
