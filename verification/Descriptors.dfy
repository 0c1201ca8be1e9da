/** Passing file descriptors over a socket, one per message (SocketHelper.cpp). */
module Descriptors {
  import opened Common
  import opened Streams

  /** A message of the socket: it carries a descriptor, or none. */
  datatype Message = Carries(fd: int) | Bare

  predicate AllCarry(inbox: seq<Message>, n: nat)
    requires n <= |inbox|
  {
    forall i | 0 <= i < n :: inbox[i].Carries?
  }

  /** What the control buffer holds after `n` messages, `before` being what it held at first: a message
      without a descriptor leaves it as it is, and shrinks it to nothing for the messages that follow. */
  function Held(inbox: seq<Message>, n: nat, before: int): int
    requires n <= |inbox|
  {
    if n == 0 then before
    else if AllCarry(inbox, n) then inbox[n - 1].fd
    else Held(inbox, n - 1, before)
  }

  datatype Receiving = Receiving(ret: Return, got: seq<int>, used: nat, later: Schedule)

  /** The call of recvmsg delivers message number `at`. */
  predicate Delivers(inbox: seq<Message>, at: nat, later: Schedule)
  {
    at < |inbox| && later.Then? && (later.first.Data? || later.first.Closed?)
  }

  /** The receiving loop after `at` of `want` descriptors. `inbox` holds all messages; `used` is how many are
      gone at the end. A negative descriptor makes the call fail. */
  function ReceiveAll(inbox: seq<Message>, later: Schedule, at: nat, want: nat, before: int): (r: Receiving)
    requires at <= want && at <= |inbox|
    ensures |r.got| <= want - at && r.used <= |inbox|
    decreases later, |inbox| - at
  {
    if at == want then Receiving(Returns(want), [], at, later)
    else if later.Over? then Receiving(StillWaiting, [], at, later)
    else if Delivers(inbox, at, later) then
      var rfd := Held(inbox, at + 1, before);
      if rfd < 0 then Receiving(Returns(-1), [], at + 1, After(later))
      else Onwards([rfd], ReceiveAll(inbox, After(later), at + 1, want, before))
    else
      match later.first
      case Failure(_) => Receiving(Returns(-1), [], at, later.rest)
      case Closed => Receiving(Returns(0), [], at, later)
      case _ => ReceiveAll(inbox, later.rest, at, want, before)
  }

  /** The whole run of a loop that has received `got` already. */
  function Onwards(got: seq<int>, r: Receiving): Receiving
  {
    r.(got := got + r.got)
  }

  /** What the control buffer holds after each of `n` messages, from number `at` on. */
  function HeldFrom(inbox: seq<Message>, at: nat, n: nat, before: int): (r: seq<int>)
    requires at + n <= |inbox|
    ensures |r| == n
    decreases n
  {
    if n == 0 then [] else [Held(inbox, at + 1, before)] + HeldFrom(inbox, at + 1, n - 1, before)
  }

  lemma {:induction false} HeldAt(inbox: seq<Message>, at: nat, n: nat, before: int, i: nat)
    requires at + n <= |inbox| && i < n
    ensures HeldFrom(inbox, at, n, before)[i] == Held(inbox, at + i + 1, before)
    decreases n
  {
    if i > 0 {
      HeldAt(inbox, at + 1, n - 1, before, i - 1);
    }
  }

  ghost predicate AllValid(fds: seq<int>)
  {
    forall i | 0 <= i < |fds| :: fds[i] >= 0
  }

  /** Every message is used once, in order, and each gives what the control buffer holds after it; all
      descriptors returned are valid, and only when the call fails may one more, invalid one be gone. */
  lemma {:induction false} ReceivesInOrder(inbox: seq<Message>, later: Schedule, at: nat, want: nat, before: int)
    requires at <= want && want > 0 && at <= |inbox|
    ensures var r := ReceiveAll(inbox, later, at, want, before);
            && (r.ret == Returns(want) <==> |r.got| == want - at)
            && (r.ret == Returns(want) || r.ret == Returns(0) || r.ret == Returns(-1) || r.ret == StillWaiting)
            && at + |r.got| <= r.used && r.got == HeldFrom(inbox, at, |r.got|, before) && AllValid(r.got)
            && (r.used == at + |r.got|
                || (r.ret == Returns(-1) && r.used == at + |r.got| + 1 && Held(inbox, r.used, before) < 0))
            && (r.ret == Returns(0) ==> r.used == |inbox| && later.Has(Closed))
    decreases later, |inbox| - at
  {
    if at == want || later.Over? {
    } else if Delivers(inbox, at, later) {
      if Held(inbox, at + 1, before) >= 0 {
        ReceivesInOrder(inbox, After(later), at + 1, want, before);
      }
    } else if later.first.Again? || later.first.Data? {
      ReceivesInOrder(inbox, later.rest, at, want, before);
    }
  }

  /** If every message carries a descriptor, each descriptor returned is the one of its message. */
  lemma CarriedIsHeld(inbox: seq<Message>, n: nat, before: int)
    requires 0 < n <= |inbox| && AllCarry(inbox, n)
    ensures Held(inbox, n, before) == inbox[n - 1].fd
  {
  }

  /** From a message without a descriptor on, every descriptor returned is the last one again, also when
      later messages carry descriptors of their own. */
  lemma {:induction false} BareRepeats(inbox: seq<Message>, k: nat, n: nat, before: int)
    requires k < n <= |inbox| && inbox[k].Bare?
    ensures Held(inbox, n, before) == Held(inbox, k, before)
    ensures k == 0 ==> Held(inbox, n, before) == before
  {
    assert !AllCarry(inbox, n);
    if k < n - 1 {
      BareRepeats(inbox, k, n - 1, before);
    }
  }

  /** `receiveFdsThroughSocket`, from a socket whose messages in flight are `inbox`; `before` is what the
      uninitialised control buffer holds. */
  method ReceiveFds(fd: int, fdNum: int, fds: array?<int>, inbox: seq<Message>, later: Schedule, before: int)
    returns (r: Return, ghost run: Receiving)
    requires fds != null ==> fdNum <= fds.Length
    modifies fds
    ensures fd <= 0 || fdNum <= 0 || fds == null ==> r == Returns(-1) && (fds != null ==> fds[..] == old(fds[..]))
    ensures fd > 0 && fdNum > 0 && fds != null ==>
              && run == ReceiveAll(inbox, later, 0, fdNum, before) && r == run.ret
              && fds[..] == Filled(run.got, old(fds[..]))
  {
    run := Receiving(Returns(-1), [], 0, later);
    r := Returns(-1);
    if fd > 0 && fdNum > 0 && fds != null {
      r := ReceiveLoop(fdNum, fds, inbox, later, before);
      run := ReceiveAll(inbox, later, 0, fdNum, before);
    }
  }

  /** The loop of `receiveFdsThroughSocket`. `buf` is the control buffer; `room` whether it has room. */
  method ReceiveLoop(fdNum: nat, fds: array<int>, inbox: seq<Message>, later: Schedule, before: int) returns (r: Return)
    requires 0 < fdNum <= fds.Length
    modifies fds
    ensures var run := ReceiveAll(inbox, later, 0, fdNum, before);
            r == run.ret && fds[..] == Filled(run.got, old(fds[..]))
  {
    var next := later;
    var cnt, buf, room := 0, before, true;
    r := Returns(fdNum);
    ghost var run := ReceiveAll(inbox, later, 0, fdNum, before);
    ghost var got: seq<int> := [];
    assert [] + run.got == run.got;
    while cnt < fdNum
      invariant 0 <= cnt == |got| <= fdNum && cnt <= |inbox| && r == Returns(fdNum)
      invariant buf == Held(inbox, cnt, before) && (room <==> AllCarry(inbox, cnt))
      invariant Receives(run, got, inbox, next, fdNum, before, old(fds[..]), fds[..])
      decreases next, |inbox| - cnt
    {
      ReceiveTurn(run, got, inbox, next, fdNum, before, old(fds[..]), fds[..]);
      if next.Over? {
        return StillWaiting;
      }
      if Delivers(inbox, cnt, next) {
        room := room && inbox[cnt].Carries?;
        buf := if room then inbox[cnt].fd else buf;
        next := After(next);
        if buf < 0 {
          return Returns(-1);
        }
        fds[cnt] := buf;
        cnt := cnt + 1;
        got := got + [buf];
      } else if next.first.Failure? {
        return Returns(-1);
      } else if next.first.Closed? {
        return Returns(0);
      } else {
        next := next.rest;
      }
    }
    ReceivedAll(run, got, inbox, next, fdNum, before, old(fds[..]), fds[..]);
  }

  /** A loop that will have done `run` has received `got`, and has put it in the front of the array. */
  ghost predicate Receives(run: Receiving, got: seq<int>, inbox: seq<Message>, next: Schedule, want: nat, before: int,
                           was: seq<int>, fds: seq<int>)
  {
    && |got| <= |inbox| && |got| <= want <= |was| && fds == Filled(got, was)
    && run == Onwards(got, ReceiveAll(inbox, next, |got|, want, before))
  }

  /** One turn of the loop. */
  lemma ReceiveTurn(run: Receiving, got: seq<int>, inbox: seq<Message>, next: Schedule, want: nat, before: int,
                    was: seq<int>, fds: seq<int>)
    requires Receives(run, got, inbox, next, want, before, was, fds) && |got| < want
    ensures next.Over? ==> run.ret == StillWaiting && run.got == got
    ensures Delivers(inbox, |got|, next) ==>
              var fd := Held(inbox, |got| + 1, before);
              if fd < 0 then run.ret == Returns(-1) && run.got == got
              else Receives(run, got + [fd], inbox, After(next), want, before, was, fds[|got| := fd])
    ensures next.Then? && !Delivers(inbox, |got|, next) ==>
              match next.first
              case Failure(_) => run.ret == Returns(-1) && run.got == got
              case Closed => run.ret == Returns(0) && run.got == got
              case _ => Receives(run, got, inbox, next.rest, want, before, was, fds)
  {
    assert got + [] == got;
    if Delivers(inbox, |got|, next) {
      var fd := Held(inbox, |got| + 1, before);
      if fd >= 0 {
        Stored(got, fd, was, ReceiveAll(inbox, After(next), |got| + 1, want, before));
      }
    }
  }

  lemma ReceivedAll(run: Receiving, got: seq<int>, inbox: seq<Message>, next: Schedule, want: nat, before: int,
                    was: seq<int>, fds: seq<int>)
    requires Receives(run, got, inbox, next, want, before, was, fds) && |got| == want
    ensures run.ret == Returns(want) && run.got == got
  {
    assert got + [] == got;
  }

  lemma Stored(got: seq<int>, x: int, was: seq<int>, r: Receiving)
    requires |got| < |was|
    ensures Filled(got, was)[|got| := x] == Filled(got + [x], was)
    ensures Onwards(got, Onwards([x], r)) == Onwards(got + [x], r)
  {
    assert (got + [x]) + r.got == got + ([x] + r.got);
  }

  datatype Sending = Sending(ret: Status, sent: nat, later: Schedule)

  /** The sending loop: how many of `left` descriptors leave, and whether it ends. */
  function SendAll(left: nat, later: Schedule): (r: Sending)
    ensures r.sent <= left && (r.ret.Complete? <==> r.sent == left)
    ensures later.IsGentle() ==> !r.ret.Failed?
  {
    if left == 0 then Sending(Complete, 0, later)
    else match later
      case Over => Sending(Waiting, 0, later)
      case Then(Data(_), rest) => var r := SendAll(left - 1, rest); r.(sent := r.sent + 1)
      case Then(Again, rest) => SendAll(left, rest)
      case Then(Closed, rest) => Sending(Failed(EPIPE), 0, rest)
      case Then(Failure(e), rest) => Sending(Failed(e), 0, rest)
  }

  /** Interruptions are the only answers that are tried again; the first other one that sends nothing ends it.
      Each call that succeeds sends one descriptor. */
  lemma {:induction false} FirstSendFailureEnds(left: nat, later: Schedule)
    ensures var r := SendAll(left, later);
            match r.ret
            case Failed(e) =>
              later.LeadsTo(Then(Failure(e), r.later)) || (e == EPIPE && later.LeadsTo(Then(Closed, r.later)))
            case _ => later.LeadsTo(r.later)
    ensures var r := SendAll(left, later);
            (r.ret.Waiting? ==> r.later == Over) && r.sent == later.Successes() - r.later.Successes()
  {
    if left > 0 {
      match later
      case Over =>
      case Then(Data(_), rest) => FirstSendFailureEnds(left - 1, rest);
      case Then(Again, rest) => FirstSendFailureEnds(left, rest);
      case Then(_, _) =>
    }
  }

  /** And the receiving loop: -1 is returned for a failing call or an invalid descriptor, and for nothing else. */
  lemma {:induction false} ReceiveFailsFor(inbox: seq<Message>, later: Schedule, at: nat, want: nat, before: int)
    requires at <= want && want > 0 && at <= |inbox|
    ensures var r := ReceiveAll(inbox, later, at, want, before);
            && (r.ret == Returns(-1) ==>
                  || (exists e: Errno :: later.LeadsTo(Then(Failure(e), r.later)))
                  || (r.used == at + |r.got| + 1 && Held(inbox, r.used, before) < 0))
            && (r.ret != Returns(-1) ==> later.LeadsTo(r.later))
    decreases later, |inbox| - at
  {
    if at == want || later.Over? {
    } else if Delivers(inbox, at, later) {
      if Held(inbox, at + 1, before) >= 0 {
        ReceiveFailsFor(inbox, After(later), at + 1, want, before);
      }
    } else if later.first.Again? || later.first.Data? {
      ReceiveFailsFor(inbox, later.rest, at, want, before);
    } else if later.first.Failure? {
      assert later.LeadsTo(Then(Failure(later.first.errno), later.rest));
    }
  }

  /** `sendFdsThroughSocket`: each descriptor leaves once, in order, up to the first failing call. */
  method SendFds(fd: int, fdNum: int, fds: array?<int>, outbox: seq<int>, later: Schedule)
    returns (r: Return, outbox': seq<int>)
    requires fds != null ==> fdNum <= fds.Length
    ensures fd <= 0 || fdNum <= 0 || fds == null ==> r == Returns(-1) && outbox' == outbox
    ensures fd > 0 && fdNum > 0 && fds != null ==>
              var s := SendAll(fdNum, later);
              && outbox' == outbox + fds[..s.sent]
              && r == match s.ret {
                   case Complete => Returns(fdNum)
                   case Waiting => StillWaiting
                   case _ => Returns(-1)
                 }
  {
    outbox' := outbox;
    if fd <= 0 || fdNum <= 0 || fds == null {
      return Returns(-1), outbox;
    }
    var cnt, next := 0, later;
    while cnt < fdNum
      invariant 0 <= cnt <= fdNum && outbox' == outbox + fds[..cnt]
      invariant var s := SendAll(fdNum - cnt, next);
                SendAll(fdNum, later) == Sending(s.ret, cnt + s.sent, s.later)
      decreases next
    {
      match next {
        case Over =>
          return StillWaiting, outbox';
        case Then(Data(_), rest) =>
          outbox' := outbox' + [fds[cnt]];
          cnt := cnt + 1;
          next := rest;
        case Then(Again, rest) =>
          next := rest;
        case Then(_, _) =>
          return Returns(-1), outbox';
      }
    }
    r := Returns(cnt);
  }

  /** The messages of a sender that puts a descriptor into each. */
  function Messages(fds: seq<int>): seq<Message>
  {
    seq(|fds|, i requires 0 <= i < |fds| => Carries(fds[i]))
  }

  /** Round trip: valid descriptors that were sent arrive as they were, if no call fails. */
  lemma {:induction false} DescriptorsArrive(sent: seq<int>, more: seq<Message>, later: Schedule, at: nat, before: int)
    requires later.IsGentle() && at <= |sent| && forall i | 0 <= i < |sent| :: sent[i] >= 0
    ensures var r := ReceiveAll(Messages(sent) + more, later, at, |sent|, before);
            || (r.ret == Returns(|sent|) && r.got == sent[at..] && r.used == |sent|)
            || (r.ret == StillWaiting && r.got < sent[at..] && r.later.Over?)
    decreases later
  {
    var inbox := Messages(sent) + more;
    if at < |sent| && later.Then? {
      if Delivers(inbox, at, later) {
        CarriedIsHeld(inbox, at + 1, before);
        DescriptorsArrive(sent, more, later.rest, at + 1, before);
        assert sent[at..] == [sent[at]] + sent[at + 1..];
      } else {
        DescriptorsArrive(sent, more, later.rest, at, before);
      }
    }
  }
}
