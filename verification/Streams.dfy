/** The partial-transfer loops of tipc.cpp and SocketHelper.cpp, against any schedule of short
    transfers, interruptions, failures and closing. A schedule is finite: a loop that is still waiting
    when it ends is reported as waiting, so that what is proved holds at every point of an endless wait. */
module Streams {
  import opened Common

  type Errno = e: int | 0 < e witness 1

  /** How the system answers the next call: it moves at most `n + 1` bytes, it is interrupted or has
      nothing yet (EINTR, EAGAIN, EWOULDBLOCK), the peer has closed, or it fails in another way. */
  datatype Event = Data(n: nat) | Again | Closed | Failure(errno: Errno)

  /** The answers still to come. */
  datatype Schedule = Over | Then(first: Event, rest: Schedule)
  {
    ghost predicate Has(e: Event)
    {
      Then? && (first == e || rest.Has(e))
    }

    /** `later` is reached over short transfers and interruptions alone. */
    ghost predicate LeadsTo(later: Schedule)
    {
      this == later || (Then? && (first.Data? || first.Again?) && rest.LeadsTo(later))
    }

    /** How many bytes the writes of this schedule can move. */
    ghost function Offered(): nat
    {
      if Over? then 0 else (if first.Data? then first.n else 0) + rest.Offered()
    }

    /** How many of its calls succeed. */
    ghost function Successes(): nat
    {
      if Over? then 0 else (if first.Data? then 1 else 0) + rest.Successes()
    }

    /** The connection is closed, and until then no call fails. */
    ghost predicate Closes()
    {
      Then? && (first.Closed? || ((first.Data? || first.Again?) && rest.Closes()))
    }

    /** Only short transfers and interruptions. */
    ghost predicate IsGentle()
    {
      Then? ==> (first.Data? || first.Again?) && rest.IsGentle()
    }
  }

  /** One direction of a connection: the bytes the peer has sent and nobody has read, and what is to come. */
  datatype Wire = Wire(inbox: seq<Byte>, later: Schedule)

  datatype Call = Moved(n: nat) | TryAgain | Error(errno: Errno)

  /** The system call `read`. A closed connection first delivers what is left, and stays closed. */
  function SysRead(w: Wire, left: nat): (r: Call)
    requires w.later.Then? && left > 0
    ensures r.Moved? ==> r.n <= left && r.n <= |w.inbox|
    ensures r == Moved(0) ==> w.inbox == [] && w.later.first.Closed?
  {
    match w.later.first
    case Data(n) => if w.inbox == [] then TryAgain else Moved(Min(n + 1, Min(left, |w.inbox|)))
    case Again => TryAgain
    case Closed => Moved(Min(left, |w.inbox|))
    case Failure(e) => Error(e)
  }

  /** What is still to come after a call that did not fail: a closed connection stays closed. */
  function After(later: Schedule): Schedule
    requires later.Then?
  {
    if later.first.Closed? then later else later.rest
  }

  function AfterRead(w: Wire, left: nat): (r: Wire)
    requires w.later.Then? && left > 0
  {
    var call := SysRead(w, left);
    Wire(if call.Moved? then w.inbox[call.n..] else w.inbox, After(w.later))
  }

  /** A schedule can cut a transfer anywhere: every nonempty part of what was asked for and is there can come. */
  lemma AnyPartCanCome(inbox: seq<Byte>, left: nat, k: nat, rest: Schedule)
    requires 0 < k <= left && k <= |inbox|
    ensures SysRead(Wire(inbox, Then(Data(k - 1), rest)), left) == Moved(k)
    ensures AfterRead(Wire(inbox, Then(Data(k - 1), rest)), left) == Wire(inbox[k..], rest)
  {
  }

  lemma {:induction false} LeadsOn(a: Schedule, b: Schedule)
    requires a.LeadsTo(b) && b.Then? && (b.first.Data? || b.first.Again?)
    ensures a.LeadsTo(b.rest)
  {
    if a != b {
      LeadsOn(a.rest, b);
    }
  }

  lemma {:induction false} LeadsFurther(a: Schedule, b: Schedule, c: Schedule)
    requires a.LeadsTo(b) && b.LeadsTo(c)
    ensures a.LeadsTo(c)
  {
    if a != b {
      LeadsFurther(a.rest, b, c);
    }
  }

  datatype Status = Complete | EndOfFile | Failed(errno: Errno) | Waiting

  datatype Reading = Reading(status: Status, got: seq<Byte>, wire: Wire)

  /** What the blocking read loop does with a request for `left` bytes. */
  function ReadAll(w: Wire, left: nat): (r: Reading)
    ensures |r.got| <= left
    decreases w.later, |w.inbox|
  {
    if left == 0 then Reading(Complete, [], w)
    else if w.later.Over? then Reading(Waiting, [], w)
    else
      var w' := AfterRead(w, left);
      match SysRead(w, left)
      case Moved(n) => if n == 0 then Reading(EndOfFile, [], w') else Ahead(w.inbox[..n], ReadAll(w', left - n))
      case TryAgain => ReadAll(w', left)
      case Error(e) => Reading(Failed(e), [], w')
  }

  /** The same loop when the caller passes a counter: it stops after one system call. */
  function ReadOnce(w: Wire, left: nat): Reading
  {
    if left == 0 then Reading(Complete, [], w)
    else if w.later.Over? then Reading(Waiting, [], w)
    else
      var w' := AfterRead(w, left);
      match SysRead(w, left)
      case Moved(n) => Reading(if n == 0 then EndOfFile else Complete, w.inbox[..n], w')
      case TryAgain => Reading(Complete, [], w')
      case Error(e) => Reading(Failed(e), [], w')
  }

  lemma Prepend(all: seq<Byte>, n: nat, got: seq<Byte>, rest: seq<Byte>)
    requires n <= |all| && got + rest == all[n..]
    ensures (all[..n] + got) + rest == all
  {
    assert all == all[..n] + all[n..];
    assert (all[..n] + got) + rest == all[..n] + (got + rest);
  }

  /** What a loop that has `got` some bytes already will have done when it ends. */
  function Ahead(got: seq<Byte>, r: Reading): Reading
  {
    r.(got := got + r.got)
  }

  lemma AheadTwice(a: seq<Byte>, b: seq<Byte>, r: Reading)
    ensures Ahead(a + b, r) == Ahead(a, Ahead(b, r))
  {
    assert (a + b) + r.got == a + (b + r.got);
  }

  lemma AheadOfNothing(got: seq<Byte>, r: Reading)
    requires r.got == []
    ensures Ahead(got, r).got == got
  {
  }

  /** `a` with `chunk` written over it from `at` on. */
  function Overlay(a: seq<Byte>, at: nat, chunk: seq<Byte>): (r: seq<Byte>)
    requires at + |chunk| <= |a|
    ensures |r| == |a|
  {
    a[..at] + chunk + a[at + |chunk|..]
  }

  /** A buffer that held `was` after its front was filled with `got`. */
  function Filled<T>(got: seq<T>, was: seq<T>): seq<T>
    requires |got| <= |was|
  {
    got + was[|got|..]
  }

  lemma FrontOfFilled<T>(got: seq<T>, was: seq<T>)
    requires |got| <= |was|
    ensures Filled(got, was)[..|got|] == got
  {
  }

  lemma Splice(got: seq<Byte>, chunk: seq<Byte>, was: seq<Byte>)
    requires |got| + |chunk| <= |was|
    ensures Overlay(Filled(got, was), |got|, chunk) == Filled(got + chunk, was)
  {
  }

  /** A loop that will have done `all` has `got` some bytes, which are in the buffer, and asks for `left` more. */
  ghost predicate Reads(all: Reading, got: seq<Byte>, w: Wire, left: nat, was: seq<Byte>, buf: seq<Byte>)
  {
    |got| + left <= |was| && buf == Filled(got, was) && all == Ahead(got, ReadAll(w, left))
  }

  /** One call in the read loop. */
  lemma CallReads(all: Reading, got: seq<Byte>, w: Wire, left: nat, was: seq<Byte>, buf: seq<Byte>)
    requires left > 0 && Reads(all, got, w, left, was, buf)
    ensures w.later.Over? ==> all == Reading(Waiting, got, w)
    ensures w.later.Then? ==>
              var w' := AfterRead(w, left);
              match SysRead(w, left)
              case Moved(n) =>
                if n == 0 then Overlay(buf, |got|, []) == buf && all == Reading(EndOfFile, got, w')
                else Reads(all, got + w.inbox[..n], w', left - n, was, Overlay(buf, |got|, w.inbox[..n]))
              case TryAgain => Reads(all, got, w', left, was, buf)
              case Error(e) => all == Reading(Failed(e), got, w')
  {
    assert got + [] == got;
    if w.later.Then? && SysRead(w, left).Moved? {
      var n := SysRead(w, left).n;
      Splice(got, w.inbox[..n], was);
      if n > 0 {
        AheadTwice(got, w.inbox[..n], ReadAll(AfterRead(w, left), left - n));
      }
    }
  }

  /** Chunking independence: whatever the schedule, what was read and what is left make up what was
      there, and the loop reports completion exactly when it has every byte. */
  lemma {:induction false} ReadsInOrder(w: Wire, left: nat)
    ensures var r := ReadAll(w, left);
            r.got + r.wire.inbox == w.inbox && |r.got| <= left && (r.status.Complete? <==> |r.got| == left)
    decreases w.later, |w.inbox|
  {
    if left > 0 && w.later.Then? {
      var w' := AfterRead(w, left);
      match SysRead(w, left)
      case Moved(n) =>
        if n > 0 {
          ReadsInOrder(w', left - n);
          var r := ReadAll(w', left - n);
          Prepend(w.inbox, n, r.got, r.wire.inbox);
        }
      case TryAgain => ReadsInOrder(w', left);
      case Error(_) =>
    }
  }

  /** The single call of the other form. */
  lemma CallReadsOnce(w: Wire, left: nat, was: seq<Byte>)
    requires 0 < left <= |was|
    ensures w.later.Over? ==> ReadOnce(w, left) == Reading(Waiting, [], w) && Filled([], was) == was
    ensures w.later.Then? ==>
              var w' := AfterRead(w, left);
              match SysRead(w, left)
              case Moved(n) =>
                var r := Reading(if n == 0 then EndOfFile else Complete, w.inbox[..n], w');
                ReadOnce(w, left) == r && Overlay(was, 0, w.inbox[..n]) == Filled(w.inbox[..n], was)
              case TryAgain => ReadOnce(w, left) == Reading(Complete, [], w') && Filled([], was) == was
              case Error(e) => ReadOnce(w, left) == Reading(Failed(e), [], w') && Filled([], was) == was
  {
  }

  /** The first failing call ends the loop and is reported with its number; no failing call is repeated, and no
      interruption or short transfer ends it. */
  lemma {:induction false} FirstFailureEnds(w: Wire, left: nat)
    ensures var r := ReadAll(w, left);
            match r.status
            case Failed(e) => w.later.LeadsTo(Then(Failure(e), r.wire.later))
            case EndOfFile => w.later.LeadsTo(r.wire.later) && r.wire.later.Then? && r.wire.later.first.Closed?
            case _ => w.later.LeadsTo(r.wire.later)
    decreases w.later, |w.inbox|
  {
    if left > 0 && w.later.Then? {
      var w' := AfterRead(w, left);
      match SysRead(w, left)
      case Moved(n) =>
        if n > 0 {
          FirstFailureEnds(w', left - n);
        }
      case TryAgain => FirstFailureEnds(w', left);
      case Error(_) => assert Then(w.later.first, w.later.rest) == w.later;
    }
  }

  lemma {:induction false} LeadsFrom(a: Schedule, b: Schedule)
    requires a.LeadsTo(b)
    ensures forall e | b.Has(e) :: a.Has(e)
    ensures a.IsGentle() ==> b.IsGentle()
  {
    if a != b {
      LeadsFrom(a.rest, b);
    }
  }

  lemma {:induction false} StopsWhere(w: Wire, left: nat)
    ensures var r := ReadAll(w, left);
            (r.status.EndOfFile? ==> r.wire.inbox == []) && (r.status.Waiting? ==> r.wire.later.Over?)
    decreases w.later, |w.inbox|
  {
    if left > 0 && w.later.Then? {
      var w' := AfterRead(w, left);
      match SysRead(w, left)
      case Moved(n) =>
        if n > 0 {
          StopsWhere(w', left - n);
        }
      case TryAgain => StopsWhere(w', left);
      case Error(_) =>
    }
  }

  /** Why the loop stopped: the end of the file only on the empty inbox of a closed connection, a
      failure only when a call failed, and waiting only when the schedule is used up. */
  lemma ReadStopsFor(w: Wire, left: nat)
    ensures var r := ReadAll(w, left);
            && (r.status.EndOfFile? ==> r.wire.inbox == [] && w.later.Has(Closed))
            && (r.status.Failed? ==> w.later.Has(Failure(r.status.errno)))
            && (r.status.Waiting? ==> r.wire.later.Over?)
            && (forall e | r.wire.later.Has(e) :: w.later.Has(e))
            && (w.later.IsGentle() ==> r.wire.later.IsGentle() && (r.status.Complete? || r.status.Waiting?))
  {
    var r := ReadAll(w, left);
    FirstFailureEnds(w, left);
    StopsWhere(w, left);
    LeadsFrom(w.later, if r.status.Failed? then Then(Failure(r.status.errno), r.wire.later) else r.wire.later);
  }

  /** The same for one call: nothing is lost or reordered, and the end is reported only at the end. */
  lemma OneReadInOrder(w: Wire, left: nat)
    ensures var r := ReadOnce(w, left);
            && r.got + r.wire.inbox == w.inbox && |r.got| <= left
            && (r.status.EndOfFile? ==> w.inbox == [] && w.later.Has(Closed))
            && (r.status.Failed? ==> r.got == [] && w.later.Has(Failure(r.status.errno)))
            && (r.status.Waiting? <==> left > 0 && w.later.Over?)
  {
    if left > 0 && w.later.Then? && SysRead(w, left).Moved? {
      var n := SysRead(w, left).n;
      assert w.inbox[..n] + w.inbox[n..] == w.inbox;
    }
  }

  /** The blocking loop is the one-call form repeated: what one call got is the beginning of what the loop
      gets, and if the call ended the stream or failed, so does the loop. */
  lemma LoopRepeatsOneRead(w: Wire, left: nat)
    ensures var r := ReadOnce(w, left);
            ReadAll(w, left) == if r.status.Complete? then Ahead(r.got, ReadAll(r.wire, left - |r.got|)) else r
  {
    OneReadInOrder(w, left);
    var r := ReadOnce(w, left);
    if r.status.Complete? && r.got == [] {
      assert Ahead([], ReadAll(r.wire, left)).got == ReadAll(r.wire, left).got;
    }
  }

  // ---------------------------------------------------------------------------
  // Writing
  // ---------------------------------------------------------------------------

  datatype Writing = Writing(status: Status, sent: nat, later: Schedule)

  /** The write loop: `Data(n)` moves at most `n` bytes here, since a call that moves none is repeated.
      There is no end of file; a closed peer is a failure (EPIPE). */
  function WriteAll(left: nat, later: Schedule): (r: Writing)
    ensures r.sent <= left && (r.status.Complete? <==> r.sent == left) && !r.status.EndOfFile?
    ensures r.status.Waiting? ==> r.later.Over?
    ensures later.IsGentle() ==> r.later.IsGentle() && (r.status.Complete? || r.status.Waiting?)
  {
    if left == 0 then Writing(Complete, 0, later)
    else match later
      case Over => Writing(Waiting, 0, Over)
      case Then(Data(n), rest) => var k := Min(n, left); var r := WriteAll(left - k, rest); r.(sent := k + r.sent)
      case Then(Again, rest) => WriteAll(left, rest)
      case Then(Closed, _) => Writing(Failed(EPIPE), 0, later)
      case Then(Failure(e), rest) => Writing(Failed(e), 0, rest)
  }

  const EPIPE := 32

  /** The first failing call ends the write loop too, and is reported with its number. */
  lemma {:induction false} FirstWriteFailureEnds(left: nat, later: Schedule)
    ensures var r := WriteAll(left, later);
            match r.status
            case Failed(e) => later.LeadsTo(Then(Failure(e), r.later))
                              || (e == EPIPE && later.LeadsTo(r.later) && r.later.Then? && r.later.first.Closed?)
            case _ => later.LeadsTo(r.later)
  {
    if left > 0 {
      match later
      case Over =>
      case Then(Data(n), rest) => FirstWriteFailureEnds(left - Min(n, left), rest);
      case Then(Again, rest) => FirstWriteFailureEnds(left, rest);
      case Then(_, _) =>
    }
  }

  /** A loop that ends before it has sent everything has sent exactly what the calls it made accepted. */
  lemma {:induction false} SentIsAccepted(left: nat, later: Schedule)
    ensures var r := WriteAll(left, later);
            if r.status.Complete? then left <= later.Offered() - r.later.Offered()
            else r.sent == later.Offered() - r.later.Offered() < left
  {
    if left > 0 {
      match later
      case Over =>
      case Then(Data(n), rest) => SentIsAccepted(left - Min(n, left), rest);
      case Then(Again, rest) => SentIsAccepted(left, rest);
      case Then(_, _) =>
    }
  }

  // ---------------------------------------------------------------------------
  // The loops
  // ---------------------------------------------------------------------------

  datatype Return = Returns(value: int) | StillWaiting

  class Connection {
    var wire: Wire
    var outbox: seq<Byte>          // everything handed to the system so far
    var outLater: Schedule

    constructor (wire: Wire, outLater: Schedule)
      ensures this.wire == wire && outbox == [] && this.outLater == outLater
    {
      this.wire, this.outbox, this.outLater := wire, [], outLater;
    }

    /** The loop shared by both read functions, filling `buffer` from the front. */
    method ReadLoop(buffer: array<Byte>, size: nat) returns (status: Status, cnt: nat)
      requires size <= buffer.Length
      modifies this`wire, buffer
      ensures var r := ReadAll(old(wire), size);
              && status == r.status && wire == r.wire && cnt == |r.got| <= size
              && buffer[..] == Filled(r.got, old(buffer[..]))
    {
      var left := size;
      status := Complete;
      ghost var got: seq<Byte> := [];
      ghost var all := ReadAll(wire, left);
      assert [] + all.got == all.got;
      while left > 0
        invariant 0 <= left <= size && |got| == size - left && status.Complete?
        invariant Reads(all, got, wire, left, old(buffer[..]), buffer[..])
        decreases wire.later, |wire.inbox|
      {
        status, left, got := ReadTurn(buffer, size, left, old(buffer[..]), got, all);
        if !status.Complete? {
          break;
        }
      }
      if status.Complete? {
        AheadOfNothing(got, ReadAll(wire, 0));
      }
      cnt := size - left;
    }

    /** One turn of that loop, which goes on if it is `Complete`. `all` is what the whole loop will have done. */
    method ReadTurn(buffer: array<Byte>, size: nat, left: nat, ghost was: seq<Byte>, ghost got: seq<Byte>,
                    ghost all: Reading)
      returns (status: Status, left': nat, ghost got': seq<Byte>)
      requires 0 < left <= size <= buffer.Length == |was| && |got| == size - left
      requires Reads(all, got, wire, left, was, buffer[..])
      modifies this`wire, buffer
      ensures left' <= left && |got'| == size - left'
      ensures if status.Complete? then Reads(all, got', wire, left', was, buffer[..])
              else all == Reading(status, got', wire) && buffer[..] == Filled(got', was)
      ensures status.Complete? ==>
                old(wire).later.Then? && (wire.later == old(wire).later.rest
                                          || (wire.later == old(wire).later && |wire.inbox| < |old(wire).inbox|))
    {
      status, left', got' := Complete, left, got;
      CallReads(all, got, wire, left, was, buffer[..]);
      if wire.later.Over? {
        return Waiting, left, got;
      }
      ghost var before := wire;
      var call := SysReadInto(buffer, size - left, left);
      match call {
        case Moved(n) =>
          if n == 0 {
            status := EndOfFile;
          } else {
            left' := left - n;
            got' := got + before.inbox[..n];
          }
        case TryAgain =>
        case Error(e) =>
          status := Failed(e);
      }
    }

    /** The same loop when the caller passes a counter: it is left after one system call. */
    method ReadSome(buffer: array<Byte>, size: nat) returns (status: Status, cnt: nat)
      requires 0 < size <= buffer.Length
      modifies this`wire, buffer
      ensures var r := ReadOnce(old(wire), size);
              && status == r.status && wire == r.wire && cnt == |r.got| <= size
              && buffer[..] == Filled(r.got, old(buffer[..]))
      ensures buffer[..cnt] + wire.inbox == old(wire).inbox
    {
      status, cnt := Complete, 0;
      CallReadsOnce(wire, size, buffer[..]);
      OneReadInOrder(wire, size);
      FrontOfFilled(ReadOnce(wire, size).got, buffer[..]);
      if wire.later.Over? {
        return Waiting, 0;
      }
      var call := SysReadInto(buffer, 0, size);
      match call {
        case Moved(n) =>
          status, cnt := if n == 0 then EndOfFile else Complete, n;
        case TryAgain =>
        case Error(e) =>
          status := Failed(e);
      }
    }

    /** The system call for `left` bytes: what it moves is copied into the buffer at `cnt`. */
    method SysReadInto(buffer: array<Byte>, cnt: nat, left: nat) returns (call: Call)
      requires left > 0 && cnt + left <= buffer.Length && wire.later.Then?
      modifies this`wire, buffer
      ensures call == SysRead(old(wire), left) && wire == AfterRead(old(wire), left)
      ensures buffer[..] == if call.Moved? then Overlay(old(buffer[..]), cnt, old(wire).inbox[..call.n])
                            else old(buffer[..])
    {
      var w := wire;
      call, wire := SysRead(w, left), AfterRead(w, left);
      if call.Moved? {
        forall i | 0 <= i < call.n {
          buffer[cnt + i] := w.inbox[i];
        }
      }
    }

    /** `read` of the Linux connection: 0 or the error. Reaching the end of the file is not an error. */
    method Read(fd: int, buffer: array?<Byte>, size: int, once: bool) returns (r: Return, cnt: nat)
      requires buffer != null ==> size <= buffer.Length
      modifies this`wire, buffer
      ensures fd <= 0 || buffer == null || size <= 0 ==>
                r == Returns(-1) && cnt == 0 && wire == old(wire) && (buffer != null ==> buffer[..] == old(buffer[..]))
      ensures fd > 0 && buffer != null && size > 0 ==>
                var w := if once then ReadOnce(old(wire), size) else ReadAll(old(wire), size);
                && wire == w.wire && cnt == |w.got| <= size && buffer[..] == Filled(w.got, old(buffer[..]))
                && r == match w.status {
                     case Complete => Returns(0)
                     case EndOfFile => Returns(0)
                     case Failed(e) => Returns(e)
                     case Waiting => StillWaiting
                   }
    {
      cnt := 0;
      if fd <= 0 || buffer == null || size <= 0 {
        return Returns(-1), cnt;
      }
      var status;
      if once {
        status, cnt := ReadSome(buffer, size);
      } else {
        status, cnt := ReadLoop(buffer, size);
      }
      match status {
        case Complete => r := Returns(0);
        case EndOfFile => r := Returns(0);
        case Failed(e) => r := Returns(e);
        case Waiting => r := StillWaiting;
      }
    }

    /** `readSocket`: every byte asked for, 0 at the end of the file, or -1. */
    method ReadSocket(fd: int, buffer: array?<Byte>, size: int) returns (r: Return)
      requires buffer != null ==> size <= buffer.Length
      modifies this`wire, buffer
      ensures fd <= 0 || buffer == null || size <= 0 ==>
                r == Returns(-1) && wire == old(wire) && (buffer != null ==> buffer[..] == old(buffer[..]))
      ensures fd > 0 && buffer != null && size > 0 ==>
                var w := ReadAll(old(wire), size);
                && wire == w.wire && |w.got| <= size && buffer[..] == Filled(w.got, old(buffer[..]))
                && r == match w.status {
                     case Complete => Returns(size)
                     case EndOfFile => Returns(0)
                     case Failed(_) => Returns(-1)
                     case Waiting => StillWaiting
                   }
    {
      if fd <= 0 || buffer == null || size <= 0 {
        return Returns(-1);
      }
      var status, cnt := ReadLoop(buffer, size);
      ReadsInOrder(old(wire), size);
      match status {
        case Complete => r := Returns(size);
        case EndOfFile => r := Returns(0);
        case Failed(_) => r := Returns(-1);
        case Waiting => r := StillWaiting;
      }
    }

    /** The loop shared by `write` and `writeSocket`: the bytes leave in order, none twice. */
    method WriteLoop(buffer: array<Byte>, size: nat) returns (status: Status, cnt: nat)
      requires size <= buffer.Length
      modifies this`outbox, this`outLater
      ensures var r := WriteAll(size, old(outLater));
              && status == r.status && cnt == r.sent && outLater == r.later
              && outbox == old(outbox) + buffer[..cnt]
    {
      cnt := 0;
      while cnt < size
        invariant cnt <= size && outbox == old(outbox) + buffer[..cnt]
        invariant var r := WriteAll(size - cnt, outLater);
                  WriteAll(size, old(outLater)) == Writing(r.status, cnt + r.sent, r.later)
        decreases outLater
      {
        match outLater {
          case Over =>
            return Waiting, cnt;
          case Then(Data(n), rest) =>
            var k := Min(n, size - cnt);
            assert buffer[..cnt + k] == buffer[..cnt] + buffer[cnt..cnt + k];
            outbox := outbox + buffer[cnt..cnt + k];
            cnt := cnt + k;
            outLater := rest;
          case Then(Again, rest) =>
            outLater := rest;
          case Then(Closed, _) =>
            return Failed(EPIPE), cnt;
          case Then(Failure(e), rest) =>
            outLater := rest;
            return Failed(e), cnt;
        }
      }
      status := Complete;
    }

    /** `write` returns 0 or the error, `writeSocket` (`socket`) the number of bytes or -1. */
    method Write(fd: int, buffer: array?<Byte>, size: int, socket: bool) returns (r: Return, ghost cnt: nat)
      requires buffer != null ==> size <= buffer.Length
      modifies this`outbox, this`outLater
      ensures fd <= 0 || buffer == null || size <= 0 ==>
                r == Returns(-1) && cnt == 0 && outbox == old(outbox) && outLater == old(outLater)
      ensures fd > 0 && buffer != null && size > 0 ==>
                var w := WriteAll(size, old(outLater));
                && outLater == w.later && cnt == w.sent && outbox == old(outbox) + buffer[..cnt]
                && r == match w.status {
                     case Complete => Returns(if socket then size else 0)
                     case Failed(e) => Returns(if socket then -1 else e)
                     case _ => StillWaiting
                   }
    {
      cnt := 0;
      if fd <= 0 || buffer == null || size <= 0 {
        return Returns(-1), cnt;
      }
      var status, n := WriteLoop(buffer, size);
      cnt := n;
      match status {
        case Complete => r := Returns(if socket then size else 0);
        case Failed(e) => r := Returns(if socket then -1 else e);
        case _ => r := StillWaiting;
      }
    }
  }
}
