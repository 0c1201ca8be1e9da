/** The shared buffer of the character device in kernel_module/hello.c: any number of readers and
    writers, one mutex, and a wait queue. */
module ReverseBuffer {
  import opened Common

  const NULL := -1
  const EFAULT := 14
  const EAGAIN := 11
  const EFBIG := 27
  const ERESTARTSYS := 512

  /** The struct without its lock: `readPtr` and `end` are offsets from `data`, or NULL. */
  datatype Buffer = Buffer(data: seq<Byte>, readPtr: int, end: int)
  {
    predicate Empty() { readPtr == end }

    /** The bytes that are left to read. */
    function Unread(): seq<Byte>
      requires 0 <= readPtr <= end <= |data|
    {
      data[readPtr..end]
    }
  }

  ghost predicate InBounds(b: Buffer)
  {
    (b.readPtr == NULL && b.end == NULL) || 0 <= b.readPtr <= b.end <= |b.data|
  }

  // ---------------------------------------------------------------------------
  // What happens under the lock
  // ---------------------------------------------------------------------------

  class Device {
    var data: array<Byte>
    var readPtr: int
    var end: int

    ghost function Value(): Buffer
      reads this, data
    {
      Buffer(data[..], readPtr, end)
    }

    /** `buffer_alloc`. */
    constructor (size: nat)
      ensures fresh(data) && data.Length == size && Value() == Fresh(size)
    {
      data := new Byte[size](i => 0);
      readPtr, end := NULL, NULL;
      new;
      assert data[..] == seq(size, i => 0);
    }

    /** The end of `reverse_read`. `fault`: the user's memory could not be written. */
    method TakeOut(size: nat, out: array<Byte>, fault: bool) returns (result: int)
      requires InBounds(Value()) && !Value().Empty() && size <= out.Length && out != data
      modifies this`readPtr, out
      ensures InBounds(Value()) && data == old(data)
      ensures (result, Value()) == Take(old(Value()), size, fault)
      ensures result == if fault then -EFAULT else Min(size, old(end) - old(readPtr))
      ensures data[..] == old(data[..]) && end == old(end) && readPtr == old(readPtr) + if fault then 0 else result
      ensures !fault ==> forall i | 0 <= i < result :: out[i] == data[old(readPtr) + i]
      ensures if fault then out[..] == old(out[..]) else out[result..] == old(out[..])[result..]
    {
      var n := Min(size, end - readPtr);
      if fault {
        return -EFAULT;
      }
      forall i | 0 <= i < n {
        out[i] := data[readPtr + i];
      }
      assert data[..] == old(data[..]);
      assert out[..n] == data[readPtr..end][..n];
      readPtr := readPtr + n;
      result := n;
    }

    /** The middle of `reverse_write`. A copy that faults may have changed the buffer already: `wrecked`
        is what it then holds. */
    method PutIn(bytes: seq<Byte>, fault: bool, wrecked: seq<Byte>) returns (result: int)
      requires InBounds(Value()) && |bytes| <= data.Length && |wrecked| == |bytes|
      modifies this`readPtr, this`end, data
      ensures InBounds(Value()) && data == old(data)
      ensures (result, Value()) == Put(old(Value()), bytes, fault, wrecked)
      ensures result == if fault then -EFAULT else |bytes|
      ensures if fault then readPtr == old(readPtr) && end == old(end) else readPtr == 0 && end == |bytes|
      ensures forall i | 0 <= i < data.Length ::
                data[i] == if i >= |bytes| then old(data[i]) else if fault then wrecked[i] else bytes[i]
    {
      var copied := if fault then wrecked else bytes;
      forall i | 0 <= i < |bytes| {
        data[i] := copied[i];
      }
      assert data[..] == Over(copied, old(data[..]));
      if fault {
        return -EFAULT;
      }
      end := |bytes|;
      readPtr := 0;
      result := |bytes|;
    }
  }

  function Fresh(size: nat): Buffer
  {
    Buffer(seq(size, i => 0), NULL, NULL)
  }

  function Take(b: Buffer, size: nat, fault: bool): (int, Buffer)
  {
    if fault then (-EFAULT, b) else
    var n := Min(size, b.end - b.readPtr); (n, b.(readPtr := b.readPtr + n))
  }

  function Put(b: Buffer, bytes: seq<Byte>, fault: bool, wrecked: seq<Byte>): (int, Buffer)
  {
    if fault then (-EFAULT, b.(data := Over(wrecked, b.data))) else (|bytes|, Buffer(Over(bytes, b.data), 0, |bytes|))
  }

  /** `old` with `bytes` written over its beginning. */
  function Over(bytes: seq<Byte>, old_: seq<Byte>): (r: seq<Byte>)
    ensures |bytes| <= |old_| ==> |r| == |old_|
  {
    if |bytes| <= |old_| then bytes + old_[|bytes|..] else bytes
  }

  // ---------------------------------------------------------------------------
  // Calls as interleaved steps
  // ---------------------------------------------------------------------------

  datatype Call = Read(size: nat, nonblock: bool) | Write(bytes: seq<Byte>)

  /** Where a call is. `Test`, `Copy` and `Unlock` are reached with the mutex held. */
  datatype Pc = Enter | Lock | Test | Asleep | Relock | Copy | Unlock(result: int) | Done(result: int)

  datatype Thread = Thread(call: Call, pc: Pc)

  /** A successful write and what readers have taken of it. `torn`: a later write faulted half-way. */
  datatype Entry = Entry(message: seq<Byte>, taken: seq<Byte>, torn: bool)

  datatype State = State(buf: Buffer, mutex: Option<nat>, threads: seq<Thread>, log: seq<Entry>)

  /** A new call, or a step of thread `t`; a step may be cut short by a signal or a fault of a user copy. */
  datatype Event = Arrive(call: Call) | Step(t: nat) | Signal(t: nat) | Fault(t: nat, wrecked: seq<Byte>)

  predicate Holds(pc: Pc)
  {
    pc.Test? || pc.Copy? || pc.Unlock?
  }

  ghost predicate Init(size: nat, s: State)
  {
    s == State(Fresh(size), None, [], [])
  }

  predicate Enabled(s: State, e: Event)
  {
    match e
    case Arrive(_) => true
    case Step(t) =>   // an Asleep thread may also wake up for no reason
      t < |s.threads| && !s.threads[t].pc.Done? && (s.threads[t].pc.Lock? || s.threads[t].pc.Relock? ==> s.mutex.None?)
    case Signal(t) =>
      t < |s.threads| && (s.threads[t].pc.Lock? || s.threads[t].pc.Relock? || s.threads[t].pc.Asleep?)
    case Fault(t, wrecked) =>
      && t < |s.threads| && s.threads[t].pc.Copy?
      && (s.threads[t].call.Write? ==> |wrecked| == |s.threads[t].call.bytes|)
  }

  function At(s: State, t: nat, pc: Pc): State
    requires t < |s.threads|
  {
    s.(threads := s.threads[t := s.threads[t].(pc := pc)])
  }

  function Next(s: State, e: Event): State
    requires Enabled(s, e)
  {
    match e
    case Arrive(call) => s.(threads := s.threads + [Thread(call, Enter)])
    case Signal(t) => At(s, t, Done(-ERESTARTSYS))
    case Fault(t, wrecked) => UserCopy(s, t, true, wrecked)
    case Step(t) =>
      var call := s.threads[t].call;
      match s.threads[t].pc
      case Enter => At(s, t, if call.Write? && |call.bytes| > |s.buf.data| then Done(-EFBIG) else Lock)
      case Lock => At(s, t, if call.Read? then Test else Copy).(mutex := Some(t))
      case Relock => At(s, t, Test).(mutex := Some(t))
      case Test =>
        if !s.buf.Empty() then At(s, t, Copy)
        else At(s, t, if call.Read? && call.nonblock then Done(-EAGAIN) else Asleep).(mutex := None)
      case Asleep => At(s, t, Relock)
      case Copy => UserCopy(s, t, false, [])
      case Unlock(result) => At(s, t, Done(result)).(mutex := None)
      case Done(_) => s
  }

  function UserCopy(s: State, t: nat, fault: bool, wrecked: seq<Byte>): State
    requires t < |s.threads|
  {
    match s.threads[t].call
    case Read(size, _) =>
      var (result, buf) := Take(s.buf, size, fault);
      At(s, t, Unlock(result)).(buf := buf, log := if fault then s.log else Took(s.log, s.buf, buf.readPtr))
    case Write(bytes) =>
      var (result, buf) := Put(s.buf, bytes, fault, wrecked);
      At(s, t, Unlock(result)).(buf := buf, log := if fault then Tear(s.log) else s.log + [Entry(bytes, [], false)])
  }

  function Tear(log: seq<Entry>): seq<Entry>
  {
    if log == [] then log else log[|log| - 1 := log[|log| - 1].(torn := true)]
  }

  function Took(log: seq<Entry>, b: Buffer, upTo: int): seq<Entry>
  {
    if log == [] || !(0 <= b.readPtr <= upTo <= |b.data|) then log else
    var e := log[|log| - 1];
    log[|log| - 1 := e.(taken := e.taken + b.data[b.readPtr..upTo])]
  }

  ghost predicate Runs(s: State, es: seq<Event>, s': State)
    decreases |es|
  {
    if es == [] then s == s' else Enabled(s, es[0]) && Runs(Next(s, es[0]), es[1..], s')
  }

  ghost predicate Reachable(size: nat, s: State)
  {
    exists s0: State, es: seq<Event> :: Init(size, s0) && Runs(s0, es, s)
  }

  // ---------------------------------------------------------------------------
  // The invariant
  // ---------------------------------------------------------------------------

  /** The mutex is held by a call exactly while the call is where it needs it. */
  ghost predicate MutexOk(s: State)
  {
    && (s.mutex.Some? ==> s.mutex.value < |s.threads|)
    && (forall t | 0 <= t < |s.threads| :: Holds(s.threads[t].pc) <==> s.mutex == Some(t))
  }

  /** What a thread knows where it is. */
  ghost predicate ThreadOk(size: nat, b: Buffer, th: Thread)
  {
    && (th.pc.Test? || th.pc.Asleep? || th.pc.Relock? ==> th.call.Read?)
    && (th.pc.Asleep? ==> !th.call.nonblock)
    && (th.pc.Lock? || th.pc.Copy? ==> th.call.Write? ==> |th.call.bytes| <= size)
    && (th.pc.Copy? && th.call.Read? ==> !b.Empty())
    && (th.pc.Unlock? || th.pc.Done? ==>
          match th.call
          case Read(n, nonblock) =>
            (0 <= th.pc.result <= n && (th.pc.result == 0 ==> n == 0)) || th.pc.result == -EFAULT
            || (th.pc.Done? && (th.pc.result == -ERESTARTSYS || (th.pc.result == -EAGAIN && nonblock)))
          case Write(bytes) =>
            if |bytes| > size then th.pc == Done(-EFBIG)
            else th.pc.result == |bytes| || th.pc.result == -EFAULT || th.pc == Done(-ERESTARTSYS))
  }

  ghost predicate ThreadsOk(size: nat, s: State)
  {
    forall t | 0 <= t < |s.threads| :: ThreadOk(size, s.buf, s.threads[t])
  }

  /** Unless a write faulted in between, the bytes taken and the bytes left are the last message. */
  ghost predicate LastOk(b: Buffer, e: Entry)
  {
    && 0 <= b.readPtr <= b.end <= |b.data|
    && (!e.torn ==> e.taken + b.Unread() == e.message)
  }

  ghost predicate LogOk(s: State)
  {
    && (s.log == [] ==> s.buf.readPtr == NULL && s.buf.end == NULL)
    && (s.log != [] ==> LastOk(s.buf, s.log[|s.log| - 1]))
    && (forall i | 0 <= i < |s.log| :: s.log[i].torn || s.log[i].taken <= s.log[i].message)
  }

  ghost predicate Inv(size: nat, s: State)
  {
    |s.buf.data| == size && MutexOk(s) && ThreadsOk(size, s) && LogOk(s)
  }

  lemma UserCopyKeepsInv(size: nat, s: State, t: nat, fault: bool, wrecked: seq<Byte>)
    requires Inv(size, s) && t < |s.threads| && s.threads[t].pc.Copy?
    requires fault && s.threads[t].call.Write? ==> |wrecked| == |s.threads[t].call.bytes|
    ensures Inv(size, UserCopy(s, t, fault, wrecked))
  {
    var s' := UserCopy(s, t, fault, wrecked);
    assert ThreadOk(size, s.buf, s.threads[t]);
    OthersAreNotCopying(size, s, t, s');
    match s.threads[t].call
    case Read(n, _) =>
      if !fault {
        TookKeepsLog(s.log, s.buf, s'.buf.readPtr);
      }
    case Write(bytes) =>
      if !fault {
        assert [] + s'.buf.Unread() == bytes;
      }
  }

  /** Only the thread with the mutex can be copying, so another thread's copy cannot disturb it. */
  lemma OthersAreNotCopying(size: nat, s: State, t: nat, s': State)
    requires MutexOk(s) && ThreadsOk(size, s) && t < |s.threads| && s.mutex == Some(t)
    requires |s'.threads| == |s.threads| && forall u | 0 <= u < |s.threads| && u != t :: s'.threads[u] == s.threads[u]
    requires ThreadOk(size, s'.buf, s'.threads[t])
    ensures ThreadsOk(size, s')
  {
    forall u | 0 <= u < |s'.threads|
      ensures ThreadOk(size, s'.buf, s'.threads[u])
    {
      assert ThreadOk(size, s.buf, s.threads[u]);
    }
  }

  lemma TookKeepsLog(log: seq<Entry>, b: Buffer, upTo: int)
    requires log != [] && LastOk(b, log[|log| - 1]) && b.readPtr <= upTo <= b.end
    requires forall i | 0 <= i < |log| :: log[i].torn || log[i].taken <= log[i].message
    ensures var log' := Took(log, b, upTo);
            && log' != [] && LastOk(b.(readPtr := upTo), log'[|log'| - 1])
            && (forall i | 0 <= i < |log'| :: log'[i].torn || log'[i].taken <= log'[i].message)
  {
    var e := log[|log| - 1];
    var chunk := b.data[b.readPtr..upTo];
    assert b.Unread() == chunk + b.data[upTo..b.end];
    assert (e.taken + chunk) + b.data[upTo..b.end] == e.taken + b.Unread();
  }

  lemma StepKeepsMutex(s: State, e: Event)
    requires MutexOk(s) && Enabled(s, e)
    ensures MutexOk(Next(s, e))
  {
  }

  /** Steps of other kinds leave the buffer alone. */
  lemma QuietStep(size: nat, s: State, t: nat)
    requires Inv(size, s) && Enabled(s, Step(t)) && !s.threads[t].pc.Copy?
    ensures Next(s, Step(t)).buf == s.buf && Next(s, Step(t)).log == s.log && ThreadsOk(size, Next(s, Step(t)))
  {
    assert ThreadOk(size, s.buf, s.threads[t]);
  }

  lemma StepKeepsInv(size: nat, s: State, e: Event)
    requires Inv(size, s) && Enabled(s, e)
    ensures Inv(size, Next(s, e))
  {
    match e
    case Arrive(_) =>
    case Signal(t) => assert ThreadOk(size, s.buf, s.threads[t]);
    case Fault(t, wrecked) => UserCopyKeepsInv(size, s, t, true, wrecked);
    case Step(t) =>
      if s.threads[t].pc.Copy? {
        UserCopyKeepsInv(size, s, t, false, []);
      } else {
        QuietStep(size, s, t);
        StepKeepsMutex(s, e);
      }
  }

  lemma {:induction false} RunKeepsInv(size: nat, s: State, es: seq<Event>, s': State)
    requires Inv(size, s) && Runs(s, es, s')
    ensures Inv(size, s')
    decreases |es|
  {
    if es != [] {
      StepKeepsInv(size, s, es[0]);
      RunKeepsInv(size, Next(s, es[0]), es[1..], s');
    }
  }

  lemma ReachableInv(size: nat, s: State)
    requires Reachable(size, s)
    ensures Inv(size, s)
  {
    var s0: State, es: seq<Event> :| Init(size, s0) && Runs(s0, es, s);
    RunKeepsInv(size, s0, es, s);
  }

  // ---------------------------------------------------------------------------
  // What follows
  // ---------------------------------------------------------------------------

  /** data <= read_ptr <= end <= data + size from the first write on, and both NULL before. */
  lemma PointersStayInBounds(size: nat, s: State)
    requires Reachable(size, s)
    ensures |s.buf.data| == size && InBounds(s.buf) && (s.buf.readPtr == NULL <==> s.log == [])
  {
    ReachableInv(size, s);
  }

  /** What a call can return: -EFBIG exactly for a write longer than the buffer, and else all of it; -EAGAIN only
      from a read that must not wait; and a read never returns more than it asked for, nor 0 if it asked for
      something. */
  lemma ResultsFit(size: nat, s: State, t: nat)
    requires Reachable(size, s) && t < |s.threads| && s.threads[t].pc.Done?
    ensures var result := s.threads[t].pc.result;
            match s.threads[t].call
            case Read(n, nonblock) =>
              || (0 <= result <= n && (result == 0 ==> n == 0))
              || result == -EFAULT || result == -ERESTARTSYS || (nonblock && result == -EAGAIN)
            case Write(bytes) =>
              && (result == -EFBIG <==> |bytes| > size)
              && (result == -EFBIG || result == |bytes| || result == -EFAULT || result == -ERESTARTSYS)
  {
    ReachableInv(size, s);
    assert ThreadOk(size, s.buf, s.threads[t]);
  }

  /** Why a call comes to its result: -ERESTARTSYS for a signal and -EFAULT for a fault alone, -EFBIG for a write
      longer than the buffer, -EAGAIN for a read that must not wait and finds it empty; otherwise a write has moved
      all of its bytes, and a read as many as were asked for and there. The result then stays what it is. */
  lemma ReturnsFor(size: nat, s: State, e: Event, t: nat)
    requires Reachable(size, s) && Enabled(s, e) && t < |s.threads|
    requires Next(s, e).threads[t] != s.threads[t]
    ensures Next(s, e).threads[t].call == s.threads[t].call
    ensures s.threads[t].pc.Unlock? ==> Next(s, e).threads[t].pc == Done(s.threads[t].pc.result)
    ensures var pc, pc', call := s.threads[t].pc, Next(s, e).threads[t].pc, s.threads[t].call;
            !pc.Unlock? && (pc'.Unlock? || pc'.Done?) ==>
              match e
              case Signal(_) => pc'.result == -ERESTARTSYS
              case Fault(_, _) => pc'.result == -EFAULT
              case _ =>
                match call
                case Read(n, nonblock) =>
                  if s.buf.readPtr == s.buf.end then nonblock && pc'.result == -EAGAIN
                  else pc'.result == Min(n, s.buf.end - s.buf.readPtr)
                case Write(bytes) => pc'.result == if |bytes| > size then -EFBIG else |bytes|
  {
    ReachableInv(size, s);
    assert ThreadOk(size, s.buf, s.threads[t]);
  }

  /** What readers took since a write, in the order they held the mutex, is a beginning of the message,
      and together with what is left it is the message; unless a later write faulted. */
  lemma ChunksArePrefixes(size: nat, s: State)
    requires Reachable(size, s)
    ensures forall i | 0 <= i < |s.log| && !s.log[i].torn :: s.log[i].taken <= s.log[i].message
    ensures s.log != [] && !s.log[|s.log| - 1].torn ==>
              && InBounds(s.buf) && s.buf.readPtr != NULL
              && s.log[|s.log| - 1].taken + s.buf.Unread() == s.log[|s.log| - 1].message
  {
    ReachableInv(size, s);
  }

  /** No write that faults: every fault is one of a reader. */
  ghost predicate WritesSucceed(s: State, es: seq<Event>)
    decreases |es|
  {
    es != [] && Enabled(s, es[0]) ==>
      (es[0].Fault? ==> s.threads[es[0].t].call.Read?) && WritesSucceed(Next(s, es[0]), es[1..])
  }

  ghost predicate Whole(log: seq<Entry>)
  {
    forall i | 0 <= i < |log| :: !log[i].torn
  }

  lemma {:induction false} WholeRuns(s: State, es: seq<Event>, s': State)
    requires Runs(s, es, s') && WritesSucceed(s, es) && Whole(s.log)
    ensures Whole(s'.log)
    decreases |es|
  {
    if es != [] {
      WholeRuns(Next(s, es[0]), es[1..], s');
    }
  }

  /** With successful writes, what was taken of every message is a beginning of it. */
  lemma ReadersNeverSeeMixtures(size: nat, s0: State, es: seq<Event>, s: State)
    requires Init(size, s0) && Runs(s0, es, s) && WritesSucceed(s0, es)
    ensures forall i | 0 <= i < |s.log| :: s.log[i].taken <= s.log[i].message
  {
    WholeRuns(s0, es, s);
    ChunksArePrefixes(size, s);
  }

  /** Every path takes and releases the mutex properly: only its holder releases it, and a call that has
      returned, for whatever reason, does not hold it. */
  lemma MutexIsReleased(size: nat, s: State, e: Event)
    requires Reachable(size, s) && Enabled(s, e)
    ensures s.mutex.Some? && Next(s, e).mutex.None? ==> e.Step? && s.mutex == Some(e.t)
    ensures s.mutex.None? && Next(s, e).mutex.Some? ==> e.Step? && Next(s, e).mutex == Some(e.t)
    ensures forall t | 0 <= t < |s.threads| && s.threads[t].pc.Done? :: s.mutex != Some(t)
    ensures forall t | 0 <= t < |s.threads| && Holds(s.threads[t].pc) :: s.mutex == Some(t)
  {
    ReachableInv(size, s);
  }

  /** A step other than a sleeper waking up in vain. */
  ghost predicate IsProgress(s: State, e: Event)
  {
    Enabled(s, e) && e.Step? && (s.threads[e.t].pc.Asleep? ==> !s.buf.Empty())
  }

  /** The device never hangs: some call can go on, unless all that are left sleep on an empty buffer; and a read
      that must not wait never sleeps. */
  lemma NeverStuck(size: nat, s: State, t: nat)
    requires Reachable(size, s) && t < |s.threads| && !s.threads[t].pc.Done?
    ensures (exists e :: IsProgress(s, e)) || (s.threads[t].pc.Asleep? && s.buf.Empty())
    ensures s.threads[t].pc.Asleep? ==> s.threads[t].call.Read? && !s.threads[t].call.nonblock
  {
    ReachableInv(size, s);
    assert ThreadOk(size, s.buf, s.threads[t]);
    if s.mutex.Some? {
      assert Holds(s.threads[s.mutex.value].pc);
      assert IsProgress(s, Step(s.mutex.value));
    } else if !(s.threads[t].pc.Asleep? && s.buf.Empty()) {
      assert IsProgress(s, Step(t));
    }
  }

  /** After a write of `bytes` faulted and left `wrecked` in the buffer, the next reader still gets a
      beginning of the old message. */
  ghost predicate StillPrefix(b: Buffer, e: Entry, bytes: seq<Byte>, wrecked: seq<Byte>, size: nat)
  {
    var b1 := Put(b, bytes, true, wrecked).1;
    var b2 := Take(b1, size, false).1;
    Took(Tear([e]), b1, b2.readPtr)[0].taken <= e.message
  }

  /** That is so exactly if the bytes it takes are unchanged. */
  lemma AfterFault(b: Buffer, e: Entry, bytes: seq<Byte>, wrecked: seq<Byte>, size: nat)
    requires LastOk(b, e) && !e.torn && |wrecked| == |bytes| <= |b.data|
    ensures var n := Min(size, b.end - b.readPtr);
            StillPrefix(b, e, bytes, wrecked, size)
            <==> Over(wrecked, b.data)[b.readPtr..b.readPtr + n] == b.data[b.readPtr..b.readPtr + n]
  {
    var b1 := Put(b, bytes, true, wrecked).1;
    var n := Min(size, b.end - b.readPtr);
    var chunk := b1.data[b.readPtr..b.readPtr + n];
    assert Took(Tear([e]), b1, b.readPtr + n)[0].taken == e.taken + chunk;
    BeginningIff(e.taken, b.Unread(), chunk);
    assert b.Unread()[..n] == b.data[b.readPtr..b.readPtr + n];
  }

  lemma BeginningIff(taken: seq<Byte>, unread: seq<Byte>, chunk: seq<Byte>)
    requires |chunk| <= |unread|
    ensures taken + chunk <= taken + unread <==> chunk == unread[..|chunk|]
  {
    assert (taken + unread)[|taken|..|taken| + |chunk|] == unread[..|chunk|];
    assert (taken + chunk)[|taken|..] == chunk;
    assert (taken + unread)[..|taken| + |chunk|] == taken + unread[..|chunk|];
  }

  /** Why faults are excluded: a write that faults leaves the pointers alone. Whatever it leaves in the
      buffer, the next reader gets a beginning of the old message, exactly if the write is not longer than
      what has been read of it, or nothing is read; otherwise it may get a mixture of two messages. */
  lemma FaultedWriteMixesMessages(b: Buffer, e: Entry, bytes: seq<Byte>, size: nat)
    requires LastOk(b, e) && !e.torn && |bytes| <= |b.data|
    ensures (forall wrecked | |wrecked| == |bytes| :: StillPrefix(b, e, bytes, wrecked, size))
            <==> |bytes| <= b.readPtr || Min(size, b.end - b.readPtr) == 0
  {
    var n := Min(size, b.end - b.readPtr);
    if |bytes| <= b.readPtr || n == 0 {
      forall wrecked: seq<Byte> | |wrecked| == |bytes|
        ensures StillPrefix(b, e, bytes, wrecked, size)
      {
        AfterFault(b, e, bytes, wrecked, size);
      }
    } else {
      var other: Byte := if b.data[b.readPtr] == 0 then 1 else 0;
      var wrecked: seq<Byte> := seq(|bytes|, i => other);
      AfterFault(b, e, bytes, wrecked, size);
      assert Over(wrecked, b.data)[b.readPtr..b.readPtr + n][0] == other != b.data[b.readPtr..b.readPtr + n][0];
      assert |wrecked| == |bytes| && !StillPrefix(b, e, bytes, wrecked, size);
    }
  }

  // ---------------------------------------------------------------------------
  // A run with a mixture
  // ---------------------------------------------------------------------------

  lemma {:induction false} RunsOneMore(s0: State, es: seq<Event>, s: State, e: Event)
    requires Runs(s0, es, s) && Enabled(s, e)
    ensures Runs(s0, es + [e], Next(s, e))
    decreases |es|
  {
    if es == [] {
      assert Runs(Next(s, e), [], Next(s, e)) && [e][1..] == [];
    } else {
      RunsOneMore(Next(s0, es[0]), es[1..], s, e);
      assert (es + [e])[1..] == es[1..] + [e];
    }
  }

  lemma Onward(size: nat, s: State, e: Event, s': State)
    requires Reachable(size, s) && Enabled(s, e) && Next(s, e) == s'
    ensures Reachable(size, s')
  {
    var s0: State, es: seq<Event> :| Init(size, s0) && Runs(s0, es, s);
    RunsOneMore(s0, es, s, e);
  }

  /** A new call arrives and takes the free mutex. */
  lemma CallStarts(size: nat, s: State, call: Call)
    requires Reachable(size, s) && s.mutex.None? && |s.buf.data| == size && (call.Write? ==> |call.bytes| <= size)
    ensures var t := |s.threads|;
            Reachable(size, s.(threads := s.threads + [Thread(call, if call.Read? then Test else Copy)],
                               mutex := Some(t)))
  {
    var t := |s.threads|;
    var s1 := s.(threads := s.threads + [Thread(call, Enter)]);
    var s2 := s.(threads := s.threads + [Thread(call, Lock)]);
    Onward(size, s, Arrive(call), s1);
    assert s1.threads[t := Thread(call, Lock)] == s2.threads;
    Onward(size, s1, Step(t), s2);
    var pc := if call.Read? then Test else Copy;
    assert s2.threads[t := Thread(call, pc)] == s.threads + [Thread(call, pc)];
    Onward(size, s2, Step(t), s.(threads := s.threads + [Thread(call, pc)], mutex := Some(t)));
  }

  const A_WRITE := Write([1])
  const B_WRITE := Write([2])
  const A_READ := Read(1, false)

  /** A device of one byte on which a message has been written. */
  lemma OneIsWritten()
    ensures Reachable(1, State(Buffer([1], 0, 1), None, [Thread(A_WRITE, Done(1))], [Entry([1], [], false)]))
  {
    var s0 := State(Fresh(1), None, [], []);
    assert Init(1, s0) && Runs(s0, [], s0);
    CallStarts(1, s0, A_WRITE);
    var s1 := State(Fresh(1), Some(0), [Thread(A_WRITE, Copy)], []);
    assert [] + [Thread(A_WRITE, Copy)] == [Thread(A_WRITE, Copy)];
    var s2 := State(Buffer([1], 0, 1), Some(0), [Thread(A_WRITE, Unlock(1))], [Entry([1], [], false)]);
    assert Over([1], Fresh(1).data) == [1];
    Onward(1, s1, Step(0), s2);
    Onward(1, s2, Step(0), State(Buffer([1], 0, 1), None, [Thread(A_WRITE, Done(1))], [Entry([1], [], false)]));
  }

  /** A second write faults after it has replaced the byte. */
  lemma TwoFaults()
    ensures Reachable(1, State(Buffer([2], 0, 1), None, [Thread(A_WRITE, Done(1)), Thread(B_WRITE, Done(-EFAULT))],
                               [Entry([1], [], true)]))
  {
    OneIsWritten();
    var done := Thread(A_WRITE, Done(1));
    var s0 := State(Buffer([1], 0, 1), None, [done], [Entry([1], [], false)]);
    CallStarts(1, s0, B_WRITE);
    var s1 := s0.(threads := [done, Thread(B_WRITE, Copy)], mutex := Some(1));
    assert [done] + [Thread(B_WRITE, Copy)] == s1.threads;
    var s2 := State(Buffer([2], 0, 1), Some(1), [done, Thread(B_WRITE, Unlock(-EFAULT))], [Entry([1], [], true)]);
    assert Over([2], [1]) == [2];
    Onward(1, s1, Fault(1, [2]), s2);
    Onward(1, s2, Step(1), s2.(threads := [done, Thread(B_WRITE, Done(-EFAULT))], mutex := None));
  }

  /** So a reader can be handed bytes that are no beginning of the message it reads. */
  lemma MixtureIsDelivered() returns (s: State)
    ensures Reachable(1, s) && |s.log| == 1 && s.log[0].message == [1] && s.log[0].taken == [2]
  {
    TwoFaults();
    var a, b := Thread(A_WRITE, Done(1)), Thread(B_WRITE, Done(-EFAULT));
    var s0 := State(Buffer([2], 0, 1), None, [a, b], [Entry([1], [], true)]);
    CallStarts(1, s0, A_READ);
    var s1 := s0.(threads := [a, b, Thread(A_READ, Test)], mutex := Some(2));
    assert [a, b] + [Thread(A_READ, Test)] == s1.threads;
    var s2 := s1.(threads := [a, b, Thread(A_READ, Copy)]);
    Onward(1, s1, Step(2), s2);
    s := State(Buffer([2], 1, 1), Some(2), [a, b, Thread(A_READ, Unlock(1))], [Entry([1], [2], true)]);
    assert s2.buf.data[0..1] == [2] && s2.log[0].taken + s2.buf.data[0..1] == [2];
    assert Took(s2.log, s2.buf, 1) == s.log;
    Onward(1, s2, Step(2), s);
  }
}
