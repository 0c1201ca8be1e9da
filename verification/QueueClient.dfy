/** The client `test2` of tthreads.cpp: consumers that count what they receive, and a main thread that
    puts 0, 1, ..., n - 1, closes the queue and joins the consumers. */
module QueueClient {
  import opened BlockingQueue

  /** One producer (the main thread), a queue with room, and at least one consumer without a filter. */
  ghost predicate IsClient(c: Config<nat>)
  {
    c.producers == 1 && c.limit > 0 && exists i :: 0 <= i < |c.filters| && Unfiltered(c.filters[i])
  }

  /** What the main thread's program lets it do. */
  ghost predicate Allowed(n: nat, s: State<nat>, e: Event<nat>)
    requires |s.producers| == 1
  {
    match e
    case Call(p, x, blocking) => blocking && x == |s.puts| < n && !s.mon.closed
    case Close => |s.puts| == n && s.producers[0] == Idle && !s.mon.closed
    case _ => true
  }

  ghost predicate ClientRuns(c: Config<nat>, n: nat, s: State<nat>, es: seq<Event<nat>>, s': State<nat>)
    decreases |es|
  {
    InShape(c, s) && |s.producers| == 1 &&
    if es == [] then s == s'
    else Enabled(c, s, es[0]) && Allowed(n, s, es[0]) && ClientRuns(c, n, Step(c, s, es[0]), es[1..], s')
  }

  /** Main's own progress, and the fact that an ended unfiltered consumer left nothing behind. */
  ghost predicate MainHolds(c: Config<nat>, n: nat, s: State<nat>)
    requires InShape(c, s)
  {
    && |s.producers| == 1 && |s.puts| <= n
    && (forall k | 0 <= k < |s.puts| :: s.puts[k] == k)
    && (s.producers[0].Putting? ==> s.producers[0].blocking)
    && (s.producers[0] != Idle ==> s.producers[0].x == |s.puts| < n && !s.mon.closed)
    && (s.mon.closed ==> |s.puts| == n)
  }

  ghost predicate NothingLeft(c: Config<nat>, s: State<nat>)
    requires InShape(c, s)
  {
    forall i | 0 <= i < |c.filters| && Unfiltered(c.filters[i]) && s.consumers[i] == Ended :: s.mon.q == []
  }

  ghost predicate ClientInv(c: Config<nat>, n: nat, s: State<nat>)
  {
    Inv(c, s) && MainHolds(c, n, s) && NothingLeft(c, s)
  }

  lemma ClientInit(c: Config<nat>, n: nat, s: State<nat>)
    requires IsClient(c) && Init(c, s)
    ensures ClientInv(c, n, s)
  {
    InitInv(c, s);
  }

  lemma MainPut(c: Config<nat>, n: nat, s: State<nat>)
    requires InShape(c, s) && MainHolds(c, n, s) && Enabled(c, s, PutTurn(0)) && InShape(c, StepPut(c, s, 0))
    ensures MainHolds(c, n, StepPut(c, s, 0))
  {
  }

  lemma MainElsewhere(c: Config<nat>, n: nat, s: State<nat>, i: nat)
    requires InShape(c, s) && MainHolds(c, n, s) && Enabled(c, s, GetTurn(i)) && InShape(c, StepGet(c, s, i))
    ensures MainHolds(c, n, StepGet(c, s, i))
  {
    var s' := StepGet(c, s, i);
    assert s'.puts == s.puts && s'.mon.closed == s.mon.closed;
    assert s'.producers[0] == s.producers[0]
           || (s.producers[0].Full? && s'.producers[0] == Putting(s.producers[0].x, true));
  }

  lemma MainStep(c: Config<nat>, n: nat, s: State<nat>, e: Event<nat>)
    requires InShape(c, s) && MainHolds(c, n, s) && Enabled(c, s, e) && Allowed(n, s, e) && InShape(c, Step(c, s, e))
    ensures MainHolds(c, n, Step(c, s, e))
  {
    match e
    case GetTurn(i) => MainElsewhere(c, n, s, i);
    case PutTurn(p) => MainPut(c, n, s);
    case WakeConsumer(_) =>
    case Call(_, _, _) =>
    case WakeProducer(_) =>
    case Close =>
  }

  lemma GiveUpLeavesNothing(c: Config<nat>, s: State<nat>, i: nat)
    requires InShape(c, s) && Enabled(c, s, GetTurn(i)) && Get(s.mon, OnItem(c.filters[i])) == GiveUp
    ensures s.mon.q == [] || !Unfiltered(c.filters[i])
  {
    if s.mon.q != [] {
      var f := OnItem(c.filters[i]);
      assert !f(s.mon.q[0]);
      assert f(s.mon.q[0]) == c.filters[i](s.mon.q[0].val);
    }
  }

  lemma NothingLeftStep(c: Config<nat>, n: nat, s: State<nat>, e: Event<nat>)
    requires ClientInv(c, n, s) && Enabled(c, s, e) && Allowed(n, s, e) && InShape(c, Step(c, s, e))
    ensures NothingLeft(c, Step(c, s, e))
  {
    var s' := Step(c, s, e);
    forall i | 0 <= i < |c.filters| && Unfiltered(c.filters[i]) && s'.consumers[i] == Ended
      ensures s'.mon.q == []
    {
      if s.consumers[i] != Ended {
        assert e == GetTurn(i);
        GiveUpLeavesNothing(c, s, i);
      }
    }
  }

  lemma ClientStep(c: Config<nat>, n: nat, s: State<nat>, e: Event<nat>)
    requires ClientInv(c, n, s) && Enabled(c, s, e) && Allowed(n, s, e)
    ensures ClientInv(c, n, Step(c, s, e))
  {
    StepInv(c, s, e);
    MainStep(c, n, s, e);
    NothingLeftStep(c, n, s, e);
  }

  lemma {:induction false} ClientRunsKeepInv(c: Config<nat>, n: nat, s: State<nat>, es: seq<Event<nat>>, s': State<nat>)
    requires ClientInv(c, n, s) && ClientRuns(c, n, s, es, s')
    ensures ClientInv(c, n, s')
    decreases |es|
  {
    if es != [] {
      ClientStep(c, n, s, es[0]);
      ClientRunsKeepInv(c, n, Step(c, s, es[0]), es[1..], s');
    }
  }

  /** The joins have all returned. */
  ghost predicate AllJoined(s: State<nat>)
  {
    s.mon.closed && forall i | 0 <= i < |s.consumers| :: s.consumers[i] == Ended
  }

  /** When the joins return, the counters add up to exactly the number of puts, whatever the filters
      of the other consumers and however the threads were interleaved. */
  lemma CountersAddUp(c: Config<nat>, n: nat, s0: State<nat>, es: seq<Event<nat>>, s: State<nat>)
    requires IsClient(c) && Init(c, s0) && ClientRuns(c, n, s0, es, s) && AllJoined(s)
    ensures Sum(s.counts) == n && s.mon.q == []
    ensures forall i | 0 <= i < |s.counts| :: s.counts[i] == |Places(s.log, i)|
    ensures multiset(Items(s.log)) == multiset(AllPuts(s.puts)) && s.puts == seq(n, k => k)
  {
    ClientInit(c, n, s0);
    ClientRunsKeepInv(c, n, s0, es, s);
    var i :| 0 <= i < |c.filters| && Unfiltered(c.filters[i]);
    assert s.consumers[i] == Ended;
    forall i | 0 <= i < |s.counts|
      ensures s.counts[i] == |Places(s.log, i)|
    {
      RemovalsArePlaces(s.log, i);
    }
    assert |multiset(Items(s.log))| == |s.log| && |multiset(AllPuts(s.puts))| == |s.puts|;
  }

  /** Until the joins return, some thread can take a step of its own. */
  lemma ClientNeverStuck(c: Config<nat>, n: nat, s0: State<nat>, es: seq<Event<nat>>, s: State<nat>)
    requires IsClient(c) && Init(c, s0) && ClientRuns(c, n, s0, es, s) && !AllJoined(s)
    ensures ClientInv(c, n, s)
    ensures exists e :: Enabled(c, s, e) && Allowed(n, s, e) && !Spurious(e)
  {
    ClientInit(c, n, s0);
    ClientRunsKeepInv(c, n, s0, es, s);
    SomeStep(c, n, s);
  }

  lemma SomeStep(c: Config<nat>, n: nat, s: State<nat>)
    requires IsClient(c) && ClientInv(c, n, s) && !AllJoined(s)
    ensures exists e :: Enabled(c, s, e) && Allowed(n, s, e) && !Spurious(e)
  {
    if i :| 0 <= i < |s.consumers| && s.consumers[i] == Testing {
      assert Enabled(c, s, GetTurn(i)) && Allowed(n, s, GetTurn(i));
    } else if s.producers[0].Putting? {
      assert Enabled(c, s, PutTurn(0)) && Allowed(n, s, PutTurn(0));
    } else if s.producers[0] == Idle && !s.mon.closed {
      var e := if |s.puts| < n then Call(0, |s.puts|, true) else Close;
      assert Enabled(c, s, e) && Allowed(n, s, e);
    } else {
      FullNeverWaits(c, n, s);
    }
  }

  /** The remaining case cannot occur: a full queue keeps the unfiltered consumer awake. */
  lemma FullNeverWaits(c: Config<nat>, n: nat, s: State<nat>)
    requires IsClient(c) && ClientInv(c, n, s) && !AllJoined(s)
    ensures (exists i :: 0 <= i < |s.consumers| && s.consumers[i] == Testing)
            || (!s.mon.closed && !s.producers[0].Full?)
  {
    var i :| 0 <= i < |c.filters| && Unfiltered(c.filters[i]);
    if s.mon.closed {
      var j :| 0 <= j < |s.consumers| && s.consumers[j] != Ended;
      assert s.consumers[j] == Testing;
    } else if s.producers[0].Full? {
      assert c.filters[i](s.mon.q[0].val);
      assert s.consumers[i] == Testing;
    }
  }

  // ---------------------------------------------------------------------------
  // How long a run can be
  // ---------------------------------------------------------------------------

  /** Steps left: every step but a spurious wakeup lowers it. */
  function Left(n: nat, s: State<nat>): int
    requires |s.producers| == 1
  {
    var perPut := |s.consumers| + 6;
    Weight(s.consumers) + 4 * |s.mon.q| + perPut * (n - |s.puts|)
    - (match s.producers[0] case Idle => 0 case Putting(_, _) => 1 case Full(_) => 2)
    + if s.mon.closed then 0 else |s.consumers| + 1
  }

  lemma GetLowers(c: Config<nat>, n: nat, s: State<nat>, i: nat)
    requires ClientInv(c, n, s) && Enabled(c, s, GetTurn(i)) && |StepGet(c, s, i).producers| == 1
    ensures Left(n, StepGet(c, s, i)) < Left(n, s)
  {
    var s' := StepGet(c, s, i);
    if Get(s.mon, OnItem(c.filters[i])).Took? {
      TakeFacts(c, s, i);
    } else {
      WeightUpdate(s.consumers, i, s'.consumers[i]);
    }
  }

  lemma PutLowers(c: Config<nat>, n: nat, s: State<nat>)
    requires ClientInv(c, n, s) && Enabled(c, s, PutTurn(0))
    ensures Left(n, StepPut(c, s, 0)) < Left(n, s)
  {
    WakingCosts(s.consumers);
    var perPut := |s.consumers| + 6;
    assert perPut * (n - |s.puts|) == perPut * (n - |s.puts| - 1) + perPut;
  }

  lemma WakeLowers(c: Config<nat>, n: nat, s: State<nat>, i: nat)
    requires InShape(c, s) && |s.producers| == 1 && Enabled(c, s, WakeConsumer(i))
    ensures Left(n, Step(c, s, WakeConsumer(i))) == Left(n, s) + 1
  {
    WeightUpdate(s.consumers, i, Testing);
  }

  lemma CloseLowers(c: Config<nat>, n: nat, s: State<nat>)
    requires InShape(c, s) && |s.producers| == 1 && !s.mon.closed
    ensures Left(n, Step(c, s, Close)) < Left(n, s)
  {
    WakingCosts(s.consumers);
  }

  lemma ClientLowers(c: Config<nat>, n: nat, s: State<nat>, e: Event<nat>)
    requires ClientInv(c, n, s) && Enabled(c, s, e) && Allowed(n, s, e) && |Step(c, s, e).producers| == 1
    ensures if Spurious(e) then Left(n, Step(c, s, e)) == Left(n, s) + 1 else Left(n, Step(c, s, e)) < Left(n, s)
  {
    match e
    case GetTurn(i) => GetLowers(c, n, s, i);
    case PutTurn(_) => PutLowers(c, n, s);
    case WakeConsumer(i) => WakeLowers(c, n, s, i);
    case Call(_, _, _) =>
    case WakeProducer(_) =>
    case Close => CloseLowers(c, n, s);
  }

  lemma Multiple(a: nat, k: nat)
    ensures a * k >= if k > 0 then a else 0
  {
    assert k > 0 ==> a * k == a * (k - 1) + a;
  }

  lemma LeftIsPositive(c: Config<nat>, n: nat, s: State<nat>)
    requires InShape(c, s) && MainHolds(c, n, s)
    ensures Left(n, s) >= 0
  {
    Multiple(|s.consumers| + 6, n - |s.puts|);
  }

  /** A run is bounded by the puts, the consumers and the spurious wakeups: with `ClientNeverStuck`,
      every consumer loop ends and the joins return. */
  lemma {:induction false} ClientIsBounded(c: Config<nat>, n: nat, s: State<nat>, es: seq<Event<nat>>, s': State<nat>)
    requires ClientInv(c, n, s) && ClientRuns(c, n, s, es, s')
    ensures |es| <= Left(n, s) + 2 * Wakes(es)
    decreases |es|
  {
    if es == [] {
      LeftIsPositive(c, n, s);
    } else {
      ClientStep(c, n, s, es[0]);
      ClientLowers(c, n, s, es[0]);
      ClientIsBounded(c, n, Step(c, s, es[0]), es[1..], s');
    }
  }
}
