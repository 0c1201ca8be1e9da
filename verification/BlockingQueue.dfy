/** The bounded queue with a filtered `get` of thread_queue.h: the critical sections as methods of a
    class, and any number of looping consumers and producers around them as a step machine with
    spurious wakeups (section 30.5.1 of ISO C++11). */
module BlockingQueue {

  // ---------------------------------------------------------------------------
  // What the mutex protects
  // ---------------------------------------------------------------------------

  datatype Monitor<T> = Monitor(q: seq<T>, maxSize: nat, closed: bool)

  /** `_q.size() < _size_limit` compares a 64-bit unsigned size with a signed limit. */
  function AsSize(limit: int): nat
    requires -0x8000_0000 <= limit < 0x8000_0000
  {
    if limit >= 0 then limit else limit + 0x1_0000_0000_0000_0000
  }

  /** The first position whose element passes the filter, or the length of the queue. */
  function FirstMatch<T>(q: seq<T>, filter: T -> bool): (i: nat)
    ensures i <= |q| && (forall j | 0 <= j < i :: !filter(q[j])) && (i < |q| ==> filter(q[i]))
  {
    if q == [] then 0 else if filter(q[0]) then 0 else 1 + FirstMatch(q[1..], filter)
  }

  /** What `get` decides once it holds the lock: wait, give up, or take the element at a position. */
  datatype Got = Wait | GiveUp | Took(at: nat)

  function Get<T>(m: Monitor<T>, filter: T -> bool): Got
  {
    var i := FirstMatch(m.q, filter);
    if i < |m.q| then Took(i) else if m.closed then GiveUp else Wait
  }

  function AfterGet<T>(m: Monitor<T>, filter: T -> bool): Monitor<T>
  {
    if Get(m, filter) == Wait then m else
      var seen := m.(maxSize := if |m.q| > m.maxSize then |m.q| else m.maxSize);
      if Get(m, filter).Took? then seen.(q := m.q[..Get(m, filter).at] + m.q[Get(m, filter).at + 1..]) else seen
  }

  datatype Put = Refused | Blocked | Stored

  function PutDecision<T>(m: Monitor<T>, limit: nat, blocking: bool): Put
  {
    if |m.q| < limit then Stored else if blocking then Blocked else Refused
  }

  class Queue<T> {
    var q: seq<T>
    var maxSize: nat
    var closed: bool
    const sizeLimit: int

    constructor (limit: int)
      ensures View() == Monitor([], 0, false) && sizeLimit == limit
    {
      q, maxSize, closed := [], 0, false;
      sizeLimit := limit;
    }

    function View(): Monitor<T>
      reads this
    {
      Monitor(q, maxSize, closed)
    }

    /** The scan inside the wait condition. */
    method Scan(filter: T -> bool) returns (it: nat)
      ensures it == FirstMatch(q, filter)
    {
      it := 0;
      while it != |q|
        invariant it <= |q| && FirstMatch(q, filter) == it + FirstMatch(q[it..], filter)
        decreases |q| - it
      {
        if filter(q[it]) {
          return;
        }
        assert q[it..][1..] == q[it + 1..];
        it := it + 1;
      }
    }

    method GetSection(filter: T -> bool) returns (r: Got, ret: seq<T>)
      modifies this
      ensures r == Get(old(View()), filter) && View() == AfterGet(old(View()), filter)
      ensures ret == if r.Took? then [old(q)[r.at]] else []
      ensures r.Took? ==> q == old(q)[..r.at] + old(q)[r.at + 1..]
      ensures r == Wait || r == GiveUp ==> q == old(q)
      ensures closed == old(closed)
      ensures maxSize == if r != Wait && |old(q)| > old(maxSize) then |old(q)| else old(maxSize)
    {
      var it := Scan(filter);
      if it == |q| && !closed {
        return Wait, [];
      }
      if |q| > maxSize {
        maxSize := |q|;
      }
      if it == |q| && closed {
        return GiveUp, [];
      }
      r, ret := Took(it), [q[it]];
      q := q[..it] + q[it + 1..];
    }

    method PutSection(obj: T, blocking: bool) returns (r: Put)
      requires -0x8000_0000 <= sizeLimit < 0x8000_0000
      modifies this
      ensures r == PutDecision(old(View()), AsSize(sizeLimit), blocking)
      ensures r == Stored <==> |old(q)| < if sizeLimit >= 0 then sizeLimit else sizeLimit + 0x1_0000_0000_0000_0000
      ensures r == Refused ==> !blocking
      ensures r == Blocked ==> blocking
      ensures View() == if r == Stored then old(View()).(q := old(q) + [obj]) else old(View())
    {
      if !blocking && |q| >= AsSize(sizeLimit) {
        return Refused;
      }
      if |q| >= AsSize(sizeLimit) {
        return Blocked;
      }
      q := q + [obj];
      return Stored;
    }

    method Close()
      modifies this
      ensures View() == old(View()).(closed := true)
    {
      closed := true;
    }
  }

  // ---------------------------------------------------------------------------
  // Threads
  // ---------------------------------------------------------------------------

  /** An element together with its place in the order of puts. */
  datatype Item<T> = Item(idx: nat, val: T)

  /** A consumer loops on `get` with its own filter until `get` returns false. */
  datatype Consumer = Testing | Asleep | Ended

  datatype Producer<T> = Idle | Putting(x: T, blocking: bool) | Full(x: T)

  datatype Config<!T> = Config(filters: seq<T -> bool>, limit: nat, producers: nat)

  /** A removal: which consumer, and what. */
  datatype Taken<T> = Taken(who: nat, item: Item<T>)

  datatype State<T> = State(mon: Monitor<Item<T>>, consumers: seq<Consumer>, counts: seq<nat>,
                            producers: seq<Producer<T>>, puts: seq<T>, log: seq<Taken<T>>)

  datatype Event<T> =
    | GetTurn(c: nat)                          // a consumer takes the lock and evaluates its condition
    | WakeConsumer(c: nat)                     // a sleeping consumer wakes for no reason
    | Call(p: nat, x: T, blocking: bool)       // a producer calls `put`
    | PutTurn(p: nat)                          // a producer takes the lock and evaluates its condition
    | WakeProducer(p: nat)                     // a sleeping producer wakes for no reason
    | Close

  function OnItem<T>(f: T -> bool): Item<T> -> bool
  {
    (it: Item<T>) => f(it.val)
  }

  function WakeConsumers(cs: seq<Consumer>): seq<Consumer>
  {
    seq(|cs|, i requires 0 <= i < |cs| => if cs[i] == Asleep then Testing else cs[i])
  }

  function WakeProducers<T>(ps: seq<Producer<T>>): seq<Producer<T>>
  {
    seq(|ps|, i requires 0 <= i < |ps| => if ps[i].Full? then Putting(ps[i].x, true) else ps[i])
  }

  ghost predicate InShape<T>(c: Config<T>, s: State<T>)
  {
    |s.consumers| == |s.counts| == |c.filters| && |s.producers| == c.producers
  }

  ghost predicate Enabled<T>(c: Config<T>, s: State<T>, e: Event<T>)
  {
    match e
    case GetTurn(i) => i < |s.consumers| && s.consumers[i] == Testing
    case WakeConsumer(i) => i < |s.consumers| && s.consumers[i] == Asleep
    case Call(p, x, b) => p < |s.producers| && s.producers[p] == Idle
    case PutTurn(p) => p < |s.producers| && s.producers[p].Putting?
    case WakeProducer(p) => p < |s.producers| && s.producers[p].Full?
    case Close => true
  }

  ghost function StepGet<T>(c: Config<T>, s: State<T>, i: nat): State<T>
    requires InShape(c, s) && Enabled(c, s, GetTurn(i))
  {
    var f := OnItem(c.filters[i]);
    var mon := AfterGet(s.mon, f);
    match Get(s.mon, f)
    case Wait => s.(consumers := s.consumers[i := Asleep])
    case GiveUp => s.(mon := mon, consumers := s.consumers[i := Ended])
    case Took(at) =>
      s.(mon := mon, counts := s.counts[i := s.counts[i] + 1], log := s.log + [Taken(i, s.mon.q[at])],
         producers := if |mon.q| < c.limit then WakeProducers(s.producers) else s.producers)
  }

  ghost function StepPut<T>(c: Config<T>, s: State<T>, p: nat): State<T>
    requires InShape(c, s) && Enabled(c, s, PutTurn(p))
  {
    var x := s.producers[p].x;
    match PutDecision(s.mon, c.limit, s.producers[p].blocking)
    case Refused => s.(producers := s.producers[p := Idle])
    case Blocked => s.(producers := s.producers[p := Full(x)])
    case Stored =>
      s.(mon := s.mon.(q := s.mon.q + [Item(|s.puts|, x)]), puts := s.puts + [x],
         consumers := WakeConsumers(s.consumers), producers := s.producers[p := Idle])
  }

  ghost function Step<T>(c: Config<T>, s: State<T>, e: Event<T>): State<T>
    requires InShape(c, s) && Enabled(c, s, e)
  {
    match e
    case GetTurn(i) => StepGet(c, s, i)
    case WakeConsumer(i) => s.(consumers := s.consumers[i := Testing])
    case Call(p, x, b) => s.(producers := s.producers[p := Putting(x, b)])
    case PutTurn(p) => StepPut(c, s, p)
    case WakeProducer(p) => s.(producers := s.producers[p := Putting(s.producers[p].x, true)])
    case Close => s.(mon := s.mon.(closed := true), consumers := WakeConsumers(s.consumers))
  }

  ghost predicate Init<T>(c: Config<T>, s: State<T>)
  {
    && InShape(c, s)
    && s.mon == Monitor([], 0, false) && s.puts == [] && s.log == []
    && (forall i | 0 <= i < |s.consumers| :: s.consumers[i] == Testing && s.counts[i] == 0)
    && (forall p | 0 <= p < |s.producers| :: s.producers[p] == Idle)
  }

  ghost predicate Runs<T>(c: Config<T>, s: State<T>, es: seq<Event<T>>, s': State<T>)
    decreases |es|
  {
    InShape(c, s) &&
    if es == [] then s == s' else Enabled(c, s, es[0]) && Runs(c, Step(c, s, es[0]), es[1..], s')
  }

  ghost predicate Reachable<T(!new)>(c: Config<T>, s: State<T>)
  {
    InShape(c, s) && exists s0: State<T>, es: seq<Event<T>> :: Init(c, s0) && Runs(c, s0, es, s)
  }

  // ---------------------------------------------------------------------------
  // The invariant
  // ---------------------------------------------------------------------------

  /** The queue holds puts, in the order they were put. */
  ghost predicate InPutOrder<T>(s: State<T>)
  {
    && (forall j | 0 <= j < |s.mon.q| :: s.mon.q[j].idx < |s.puts| && s.puts[s.mon.q[j].idx] == s.mon.q[j].val)
    && (forall i, j | 0 <= i < j < |s.mon.q| :: s.mon.q[i].idx < s.mon.q[j].idx)
  }

  /** Every consumer's removals pass its filter and come in put order, and nothing left in the queue
      that it would accept is older than what it has already taken. */
  ghost predicate ConsumersInOrder<T>(c: Config<T>, s: State<T>)
  {
    && (forall i | 0 <= i < |s.log| ::
          s.log[i].who < |c.filters| && c.filters[s.log[i].who](s.log[i].item.val) && s.log[i].item.idx < |s.puts|)
    && (forall i, j | 0 <= i < j < |s.log| && s.log[i].who == s.log[j].who :: s.log[i].item.idx < s.log[j].item.idx)
    && (forall i, j | 0 <= i < |s.log| && 0 <= j < |s.mon.q| && c.filters[s.log[i].who](s.mon.q[j].val) ::
          s.log[i].item.idx < s.mon.q[j].idx)
  }

  function Items<T>(log: seq<Taken<T>>): seq<Item<T>>
  {
    seq(|log|, i requires 0 <= i < |log| => log[i].item)
  }

  function AllPuts<T>(puts: seq<T>): seq<Item<T>>
  {
    seq(|puts|, i requires 0 <= i < |puts| => Item(i, puts[i]))
  }

  /** Nothing is lost and nothing is duplicated. */
  ghost predicate Conserved<T>(s: State<T>)
  {
    multiset(Items(s.log)) + multiset(s.mon.q) == multiset(AllPuts(s.puts))
  }

  /** A sleeping consumer has nothing to take and the queue is open; a sleeping producer has no room. */
  ghost predicate Awake<T>(c: Config<T>, s: State<T>)
    requires InShape(c, s)
  {
    && (forall i | 0 <= i < |s.consumers| && s.consumers[i] == Asleep ::
          !s.mon.closed && forall j | 0 <= j < |s.mon.q| :: !c.filters[i](s.mon.q[j].val))
    && (forall p | 0 <= p < |s.producers| && s.producers[p].Full? :: |s.mon.q| >= c.limit)
    && (forall i | 0 <= i < |s.consumers| && s.consumers[i] == Ended :: s.mon.closed)
  }

  ghost predicate Bounded<T>(c: Config<T>, s: State<T>)
  {
    |s.mon.q| <= c.limit && s.mon.maxSize <= c.limit
  }

  function Sum(ks: seq<nat>): nat
  {
    if ks == [] then 0 else ks[0] + Sum(ks[1..])
  }

  /** How many removals consumer `i` has made. */
  function Removals<T>(log: seq<Taken<T>>, i: nat): nat
  {
    if log == [] then 0
    else Removals(log[..|log| - 1], i) + if log[|log| - 1].who == i then 1 else 0
  }

  /** Each consumer's counter is its own number of removals. */
  ghost predicate CountsHold<T>(s: State<T>)
  {
    forall i | 0 <= i < |s.counts| :: s.counts[i] == Removals(s.log, i)
  }

  ghost predicate Inv<T>(c: Config<T>, s: State<T>)
  {
    && InShape(c, s) && InPutOrder(s) && ConsumersInOrder(c, s) && Conserved(s) && Awake(c, s) && Bounded(c, s)
    && Sum(s.counts) == |s.log| && CountsHold(s)
  }

  lemma {:induction false} SumOfZeros(ks: seq<nat>)
    requires forall i | 0 <= i < |ks| :: ks[i] == 0
    ensures Sum(ks) == 0
  {
    if ks != [] {
      SumOfZeros(ks[1..]);
    }
  }

  lemma {:induction false} SumUpdate(ks: seq<nat>, i: nat, k: nat)
    requires i < |ks|
    ensures Sum(ks[i := k]) + ks[i] == Sum(ks) + k
  {
    if i == 0 {
      assert ks[i := k][1..] == ks[1..];
    } else {
      SumUpdate(ks[1..], i - 1, k);
      assert ks[i := k][1..] == ks[1..][i - 1 := k];
    }
  }

  lemma InitInv<T>(c: Config<T>, s: State<T>)
    requires Init(c, s)
    ensures Inv(c, s)
  {
    SumOfZeros(s.counts);
    assert Items(s.log) == [] && AllPuts(s.puts) == [];
  }

  // --- a removal -----------------------------------------------------------

  lemma TakeFacts<T>(c: Config<T>, s: State<T>, i: nat)
    requires InShape(c, s) && Enabled(c, s, GetTurn(i)) && Get(s.mon, OnItem(c.filters[i])).Took?
    ensures var at := Get(s.mon, OnItem(c.filters[i])).at;
            && at < |s.mon.q| && c.filters[i](s.mon.q[at].val)
            && (forall j | 0 <= j < at :: !c.filters[i](s.mon.q[j].val))
            && StepGet(c, s, i).mon.q == s.mon.q[..at] + s.mon.q[at + 1..]
  {
    var at := Get(s.mon, OnItem(c.filters[i])).at;
    assert OnItem(c.filters[i])(s.mon.q[at]);
    forall j | 0 <= j < at
      ensures !c.filters[i](s.mon.q[j].val)
    {
      assert !OnItem(c.filters[i])(s.mon.q[j]);
    }
  }

  ghost predicate Without<T>(q: seq<T>, at: nat, q': seq<T>)
  {
    at < |q| == |q'| + 1 && forall j | 0 <= j < |q'| :: q'[j] == q[if j < at then j else j + 1]
  }

  lemma RemovalKeepsOrder<T>(s: State<T>, at: nat, s': State<T>)
    requires InPutOrder(s) && Without(s.mon.q, at, s'.mon.q) && s'.puts == s.puts
    ensures InPutOrder(s')
  {
  }

  lemma RemovalKeepsConsumers<T>(c: Config<T>, s: State<T>, i: nat, at: nat, s': State<T>)
    requires InPutOrder(s) && ConsumersInOrder(c, s) && Without(s.mon.q, at, s'.mon.q) && s'.puts == s.puts
    requires i < |c.filters| && c.filters[i](s.mon.q[at].val)
    requires forall j | 0 <= j < at :: !c.filters[i](s.mon.q[j].val)
    requires s'.log == s.log + [Taken(i, s.mon.q[at])]
    ensures ConsumersInOrder(c, s')
  {
    forall k, j | 0 <= k < |s'.log| && 0 <= j < |s'.mon.q| && c.filters[s'.log[k].who](s'.mon.q[j].val)
      ensures s'.log[k].item.idx < s'.mon.q[j].idx
    {
      var j' := if j < at then j else j + 1;
      assert s'.mon.q[j] == s.mon.q[j'];
      if k < |s.log| {
        assert s.log[k].item.idx < s.mon.q[j'].idx;
      } else {
        assert j' > at;
      }
    }
  }

  lemma TakeKeepsOrder<T>(c: Config<T>, s: State<T>, i: nat)
    requires InShape(c, s) && InPutOrder(s) && ConsumersInOrder(c, s)
    requires Enabled(c, s, GetTurn(i)) && Get(s.mon, OnItem(c.filters[i])).Took?
    ensures InPutOrder(StepGet(c, s, i)) && ConsumersInOrder(c, StepGet(c, s, i))
  {
    TakeFacts(c, s, i);
    var at := Get(s.mon, OnItem(c.filters[i])).at;
    RemovalKeepsOrder(s, at, StepGet(c, s, i));
    RemovalKeepsConsumers(c, s, i, at, StepGet(c, s, i));
  }

  lemma TakeKeepsItems<T>(c: Config<T>, s: State<T>, i: nat)
    requires InShape(c, s) && Conserved(s)
    requires Enabled(c, s, GetTurn(i)) && Get(s.mon, OnItem(c.filters[i])).Took?
    ensures Conserved(StepGet(c, s, i))
  {
    TakeFacts(c, s, i);
    var at := Get(s.mon, OnItem(c.filters[i])).at;
    var q := s.mon.q;
    CutOut(q, at);
    assert Items(s.log + [Taken(i, q[at])]) == Items(s.log) + [q[at]];
  }

  lemma CutOut<T>(q: seq<T>, at: nat)
    requires at < |q|
    ensures multiset(q[..at] + q[at + 1..]) + multiset{q[at]} == multiset(q)
  {
    assert q == q[..at] + [q[at]] + q[at + 1..];
  }

  lemma PutKeepsItems<T>(s: State<T>, x: T)
    requires Conserved(s)
    ensures multiset(Items(s.log)) + multiset(s.mon.q + [Item(|s.puts|, x)]) == multiset(AllPuts(s.puts + [x]))
  {
    assert AllPuts(s.puts + [x]) == AllPuts(s.puts) + [Item(|s.puts|, x)];
  }

  lemma GetKeepsAwake<T>(c: Config<T>, s: State<T>, i: nat)
    requires InShape(c, s) && Awake(c, s) && Bounded(c, s) && Enabled(c, s, GetTurn(i))
    ensures InShape(c, StepGet(c, s, i)) && Awake(c, StepGet(c, s, i)) && Bounded(c, StepGet(c, s, i))
  {
    var f := OnItem(c.filters[i]);
    if Get(s.mon, f).Took? {
      TakeFacts(c, s, i);
    } else {
      forall j | 0 <= j < |s.mon.q|
        ensures !c.filters[i](s.mon.q[j].val)
      {
        assert !f(s.mon.q[j]);
      }
    }
  }

  lemma SameContents<T>(c: Config<T>, s: State<T>, s': State<T>)
    requires InPutOrder(s) && ConsumersInOrder(c, s) && Conserved(s)
    requires s'.mon.q == s.mon.q && s'.puts == s.puts && s'.log == s.log
    ensures InPutOrder(s') && ConsumersInOrder(c, s') && Conserved(s')
  {
  }

  lemma TakeCounts<T>(c: Config<T>, s: State<T>, i: nat)
    requires InShape(c, s) && Sum(s.counts) == |s.log| && CountsHold(s)
    requires Enabled(c, s, GetTurn(i)) && Get(s.mon, OnItem(c.filters[i])).Took?
    ensures Sum(StepGet(c, s, i).counts) == |StepGet(c, s, i).log| && CountsHold(StepGet(c, s, i))
  {
    SumUpdate(s.counts, i, s.counts[i] + 1);
    var s' := StepGet(c, s, i);
    assert s'.log[..|s.log|] == s.log;
  }

  lemma TakeKeepsInv<T>(c: Config<T>, s: State<T>, i: nat)
    requires Inv(c, s) && Enabled(c, s, GetTurn(i)) && Get(s.mon, OnItem(c.filters[i])).Took?
    ensures Inv(c, StepGet(c, s, i))
  {
    GetKeepsAwake(c, s, i);
    TakeKeepsOrder(c, s, i);
    TakeKeepsItems(c, s, i);
    TakeCounts(c, s, i);
  }

  lemma MissKeepsInv<T>(c: Config<T>, s: State<T>, i: nat)
    requires Inv(c, s) && Enabled(c, s, GetTurn(i)) && !Get(s.mon, OnItem(c.filters[i])).Took?
    ensures Inv(c, StepGet(c, s, i))
  {
    GetKeepsAwake(c, s, i);
    SameContents(c, s, StepGet(c, s, i));
  }

  // --- a put ---------------------------------------------------------------

  lemma StoreKeepsOrder<T>(c: Config<T>, s: State<T>, x: T, s': State<T>)
    requires InPutOrder(s) && ConsumersInOrder(c, s)
    requires s'.mon.q == s.mon.q + [Item(|s.puts|, x)] && s'.puts == s.puts + [x] && s'.log == s.log
    ensures InPutOrder(s') && ConsumersInOrder(c, s')
  {
  }

  lemma PutKeepsAwake<T>(c: Config<T>, s: State<T>, p: nat)
    requires InShape(c, s) && Awake(c, s) && Bounded(c, s) && Enabled(c, s, PutTurn(p))
    ensures InShape(c, StepPut(c, s, p)) && Awake(c, StepPut(c, s, p)) && Bounded(c, StepPut(c, s, p))
  {
  }

  lemma PutKeepsInv<T>(c: Config<T>, s: State<T>, p: nat)
    requires Inv(c, s) && Enabled(c, s, PutTurn(p))
    ensures Inv(c, StepPut(c, s, p))
  {
    PutKeepsAwake(c, s, p);
    if PutDecision(s.mon, c.limit, s.producers[p].blocking) == Stored {
      var x := s.producers[p].x;
      StoreKeepsOrder(c, s, x, StepPut(c, s, p));
      PutKeepsItems(s, x);
    }
  }

  lemma StepInv<T>(c: Config<T>, s: State<T>, e: Event<T>)
    requires Inv(c, s) && Enabled(c, s, e)
    ensures Inv(c, Step(c, s, e))
  {
    match e
    case GetTurn(i) =>
      if Get(s.mon, OnItem(c.filters[i])).Took? {
        TakeKeepsInv(c, s, i);
      } else {
        MissKeepsInv(c, s, i);
      }
    case PutTurn(p) => PutKeepsInv(c, s, p);
    case WakeConsumer(_) =>
    case Call(_, _, _) =>
    case WakeProducer(_) =>
    case Close =>
  }

  lemma {:induction false} RunsKeepInv<T>(c: Config<T>, s: State<T>, es: seq<Event<T>>, s': State<T>)
    requires Inv(c, s) && Runs(c, s, es, s')
    ensures Inv(c, s')
    decreases |es|
  {
    if es != [] {
      StepInv(c, s, es[0]);
      RunsKeepInv(c, Step(c, s, es[0]), es[1..], s');
    }
  }

  lemma ReachableInv<T(!new)>(c: Config<T>, s: State<T>)
    requires Reachable(c, s)
    ensures Inv(c, s)
  {
    var s0: State<T>, es: seq<Event<T>> :| Init(c, s0) && Runs(c, s0, es, s);
    InitInv(c, s0);
    RunsKeepInv(c, s0, es, s);
  }

  // ---------------------------------------------------------------------------
  // Main results
  // ---------------------------------------------------------------------------

  /** Over every run, what was put is what was taken and what is still queued, each put once; the
      queue keeps put order and its limit; and the consumers' counters add up to the removals. */
  lemma NothingLostOrDuplicated<T(!new)>(c: Config<T>, s: State<T>)
    requires Reachable(c, s)
    ensures multiset(Items(s.log)) + multiset(s.mon.q) == multiset(AllPuts(s.puts))
    ensures forall i, j | 0 <= i < j < |s.mon.q| :: s.mon.q[i].idx < s.mon.q[j].idx < |s.puts|
    ensures |s.mon.q| <= c.limit && s.mon.maxSize <= c.limit
    ensures Sum(s.counts) == |s.log|
  {
    ReachableInv(c, s);
  }

  /** The places in the log at which consumer `i` is recorded. */
  ghost function Places<T>(log: seq<Taken<T>>, i: nat): set<nat>
  {
    set j: nat | j < |log| && log[j].who == i
  }

  lemma {:induction false} RemovalsArePlaces<T>(log: seq<Taken<T>>, i: nat)
    ensures Removals(log, i) == |Places(log, i)|
  {
    if log != [] {
      var n := |log| - 1;
      RemovalsArePlaces(log[..n], i);
      if log[n].who == i {
        assert Places(log, i) == Places(log[..n], i) + {n};
      } else {
        assert Places(log, i) == Places(log[..n], i);
      }
    } else {
      assert Places(log, i) == {};
    }
  }

  /** Each consumer counts its own removals, and no others. */
  lemma CountersAreOwn<T(!new)>(c: Config<T>, s: State<T>, i: nat)
    requires Reachable(c, s) && i < |c.filters|
    ensures |s.counts| == |c.filters| && s.counts[i] == |set j: nat | j < |s.log| && s.log[j].who == i|
  {
    ReachableInv(c, s);
    RemovalsArePlaces(s.log, i);
    assert Places(s.log, i) == set j: nat | j < |s.log| && s.log[j].who == i;
  }

  /** Whatever the other consumers do, one consumer receives elements its filter accepts, in strictly
      increasing put order. */
  lemma EachConsumerSeesPutOrder<T(!new)>(c: Config<T>, s: State<T>, i: nat, j: nat)
    requires Reachable(c, s) && i < j < |s.log| && s.log[i].who == s.log[j].who
    ensures s.log[i].item.idx < s.log[j].item.idx < |s.puts|
    ensures s.log[i].who < |c.filters| && c.filters[s.log[i].who](s.log[i].item.val)
  {
    ReachableInv(c, s);
  }

  ghost predicate Unfiltered<T(!new)>(f: T -> bool)
  {
    forall x :: f(x)
  }

  /** With unfiltered consumers only, the queue is first in, first out: the removals followed by the
      queue are the puts. */
  ghost predicate Fifo<T>(s: State<T>)
  {
    Items(s.log) + s.mon.q == AllPuts(s.puts)
  }

  lemma FifoTake<T(!new)>(c: Config<T>, s: State<T>, i: nat)
    requires InShape(c, s) && Fifo(s) && Enabled(c, s, GetTurn(i)) && Unfiltered(c.filters[i])
    requires Get(s.mon, OnItem(c.filters[i])).Took?
    ensures Fifo(StepGet(c, s, i))
  {
    TakeFacts(c, s, i);
    var q := s.mon.q;
    assert c.filters[i](q[0].val);
    FrontTaken(s.log, i, q);
    assert StepGet(c, s, i).mon.q == q[1..];
  }

  lemma FrontTaken<T>(log: seq<Taken<T>>, i: nat, q: seq<Item<T>>)
    requires q != []
    ensures Items(log + [Taken(i, q[0])]) + q[1..] == Items(log) + q
  {
    assert Items(log + [Taken(i, q[0])]) == Items(log) + [q[0]];
    assert [q[0]] + q[1..] == q;
  }

  lemma FifoStore<T>(s: State<T>, x: T, s': State<T>)
    requires Fifo(s) && s'.log == s.log && s'.puts == s.puts + [x] && s'.mon.q == s.mon.q + [Item(|s.puts|, x)]
    ensures Fifo(s')
  {
    assert AllPuts(s'.puts) == AllPuts(s.puts) + [Item(|s.puts|, x)];
  }

  lemma FifoStep<T(!new)>(c: Config<T>, s: State<T>, e: Event<T>)
    requires InShape(c, s) && Fifo(s) && Enabled(c, s, e) && forall i | 0 <= i < |c.filters| :: Unfiltered(c.filters[i])
    ensures Fifo(Step(c, s, e))
  {
    var s' := Step(c, s, e);
    if e.GetTurn? && Get(s.mon, OnItem(c.filters[e.c])).Took? {
      FifoTake(c, s, e.c);
    } else if e.PutTurn? && PutDecision(s.mon, c.limit, s.producers[e.p].blocking) == Stored {
      FifoStore(s, s.producers[e.p].x, s');
    } else {
      assert s'.mon.q == s.mon.q && s'.log == s.log && s'.puts == s.puts;
    }
  }

  lemma {:induction false} FifoRuns<T(!new)>(c: Config<T>, s: State<T>, es: seq<Event<T>>, s': State<T>)
    requires Inv(c, s) && Fifo(s) && Runs(c, s, es, s') && forall i | 0 <= i < |c.filters| :: Unfiltered(c.filters[i])
    ensures Fifo(s')
    decreases |es|
  {
    if es != [] {
      StepInv(c, s, es[0]);
      FifoStep(c, s, es[0]);
      FifoRuns(c, Step(c, s, es[0]), es[1..], s');
    }
  }

  lemma UnfilteredIsFifo<T(!new)>(c: Config<T>, s: State<T>)
    requires Reachable(c, s) && forall i | 0 <= i < |c.filters| :: Unfiltered(c.filters[i])
    ensures Items(s.log) + s.mon.q == AllPuts(s.puts)
  {
    var s0: State<T>, es: seq<Event<T>> :| Init(c, s0) && Runs(c, s0, es, s);
    InitInv(c, s0);
    assert Items(s0.log) + s0.mon.q == AllPuts(s0.puts);
    FifoRuns(c, s0, es, s);
  }

  /** No wakeup is lost: a consumer sleeps only while the queue is open and holds nothing for it, a
      producer only while the queue is full, and a consumer ends only after `close`. */
  lemma NoLostWakeup<T(!new)>(c: Config<T>, s: State<T>)
    requires Reachable(c, s)
    ensures Awake(c, s)
  {
    ReachableInv(c, s);
  }

  /** Nothing is left to happen but spurious wakeups, new calls and a close. */
  ghost predicate Quiet<T>(s: State<T>)
  {
    && (forall i | 0 <= i < |s.consumers| :: s.consumers[i] != Testing)
    && (forall p | 0 <= p < |s.producers| :: !s.producers[p].Putting?)
  }

  /** At rest, a closed queue has ended every consumer; an open one with an unfiltered consumer is
      empty and, unless its limit is zero, keeps no producer waiting. */
  lemma RestMeansDone<T(!new)>(c: Config<T>, s: State<T>)
    requires Reachable(c, s) && Quiet(s)
    ensures s.mon.closed ==> forall i | 0 <= i < |s.consumers| :: s.consumers[i] == Ended
    ensures forall i | 0 <= i < |c.filters| && Unfiltered(c.filters[i]) && !s.mon.closed ::
              s.mon.q == [] && (c.limit > 0 ==> forall p | 0 <= p < |s.producers| :: s.producers[p] == Idle)
  {
    ReachableInv(c, s);
    forall i | 0 <= i < |c.filters| && !s.mon.closed
      ensures s.mon.q == [] || !Unfiltered(c.filters[i])
    {
      assert s.consumers[i] == Asleep;
      if s.mon.q != [] {
        assert !c.filters[i](s.mon.q[0].val);
      }
    }
  }

  // ---------------------------------------------------------------------------
  // What is stored is what `put` was called with
  // ---------------------------------------------------------------------------

  /** The last call of a producer, if it has made one. */
  function LastCall<T>(es: seq<Event<T>>, p: nat): (r: seq<Event<T>>)
    ensures |r| <= 1 && forall e | e in r :: e.Call? && e.p == p && e in es
  {
    if es == [] then []
    else if es[|es| - 1].Call? && es[|es| - 1].p == p then [es[|es| - 1]]
    else LastCall(es[..|es| - 1], p)
  }

  /** A producer in `put` carries the arguments of its own last call. */
  ghost predicate CarryOwn<T>(ps: seq<Producer<T>>, past: seq<Event<T>>)
  {
    forall p | 0 <= p < |ps| && ps[p] != Idle :: LastCall(past, p) == [Call(p, ps[p].x, ps[p].Full? || ps[p].blocking)]
  }

  lemma StepCarriesOwn<T>(c: Config<T>, s: State<T>, past: seq<Event<T>>, e: Event<T>)
    requires InShape(c, s) && Enabled(c, s, e) && CarryOwn(s.producers, past)
    ensures CarryOwn(Step(c, s, e).producers, past + [e])
  {
    assert (past + [e])[..|past|] == past;
    var ps := Step(c, s, e).producers;
    forall p | 0 <= p < |ps| && ps[p] != Idle
      ensures LastCall(past + [e], p) == [Call(p, ps[p].x, ps[p].Full? || ps[p].blocking)]
    {
      assert p < |s.producers|;
    }
  }

  lemma {:induction false} RunCarriesOwn<T>(c: Config<T>, s: State<T>, past: seq<Event<T>>, es: seq<Event<T>>,
                                            s': State<T>)
    requires Runs(c, s, es, s') && CarryOwn(s.producers, past)
    ensures CarryOwn(s'.producers, past + es)
    decreases |es|
  {
    if es == [] {
      assert past + es == past;
    } else {
      StepCarriesOwn(c, s, past, es[0]);
      RunCarriesOwn(c, Step(c, s, es[0]), past + [es[0]], es[1..], s');
      assert past + [es[0]] + es[1..] == past + es;
    }
  }

  /** In every run, a producer that finds room, however long it waited for it, stores the value of its own last
      call behind all others. One that finds no room stores nothing; it waits with that value if it said that it
      would, and otherwise its call is over. */
  lemma PutsItsOwn<T>(c: Config<T>, s0: State<T>, es: seq<Event<T>>, s: State<T>, p: nat)
    requires Init(c, s0) && Runs(c, s0, es, s) && InShape(c, s) && Enabled(c, s, PutTurn(p))
    ensures var s' := Step(c, s, PutTurn(p)); var call := LastCall(es, p);
            && |call| == 1
            && (|s.mon.q| < c.limit ==>
                  && s'.puts == s.puts + [call[0].x] && s'.mon.q == s.mon.q + [Item(|s.puts|, call[0].x)]
                  && s'.producers[p] == Idle)
            && (|s.mon.q| >= c.limit ==>
                  && s'.puts == s.puts && s'.mon == s.mon
                  && s'.producers[p] == if call[0].blocking then Full(call[0].x) else Idle)
  {
    RunCarriesOwn(c, s0, [], es, s);
    assert [] + es == es;
  }

  /** The longest queue that a `get` has left its wait with. */
  ghost function Peak<T>(c: Config<T>, s: State<T>, es: seq<Event<T>>, soFar: nat): nat
    decreases |es|
  {
    if es == [] || !InShape(c, s) || !Enabled(c, s, es[0]) then soFar else
    var leaves :=
      es[0].GetTurn? && (s.mon.closed || exists j :: 0 <= j < |s.mon.q| && c.filters[es[0].c](s.mon.q[j].val));
    Peak(c, Step(c, s, es[0]), es[1..], if leaves && |s.mon.q| > soFar then |s.mon.q| else soFar)
  }

  lemma StepPeak<T>(c: Config<T>, s: State<T>, e: Event<T>)
    requires InShape(c, s) && Enabled(c, s, e)
    ensures Step(c, s, e).mon.maxSize == Peak(c, s, [e], s.mon.maxSize)
  {
    if e.GetTurn? {
      var f := OnItem(c.filters[e.c]);
      assert forall j | 0 <= j < |s.mon.q| :: f(s.mon.q[j]) == c.filters[e.c](s.mon.q[j].val);
      var i := FirstMatch(s.mon.q, f);
      assert i == |s.mon.q| ==> forall j | 0 <= j < |s.mon.q| :: !f(s.mon.q[j]);
    }
  }

  /** What `max_size` returns: the longest queue that any `get` found when it took something or gave up, over the
      whole run. */
  lemma {:induction false} MaxSizeIsPeak<T>(c: Config<T>, s: State<T>, es: seq<Event<T>>, s': State<T>)
    requires Runs(c, s, es, s')
    ensures s'.mon.maxSize == Peak(c, s, es, s.mon.maxSize)
    decreases |es|
  {
    if es != [] {
      StepPeak(c, s, es[0]);
      MaxSizeIsPeak(c, Step(c, s, es[0]), es[1..], s');
    }
  }

  /** How many producers are in `put`. */
  function Busy<T>(ps: seq<Producer<T>>): nat
  {
    if ps == [] then 0 else (if ps[0].Idle? then 0 else 1) + Busy(ps[1..])
  }

  lemma {:induction false} BusyUpdate<T>(ps: seq<Producer<T>>, i: nat, x: Producer<T>)
    requires i < |ps|
    ensures Busy(ps[i := x]) + Busy([ps[i]]) == Busy(ps) + Busy([x])
  {
    if i == 0 {
      assert ps[i := x][1..] == ps[1..];
    } else {
      BusyUpdate(ps[1..], i - 1, x);
      assert ps[i := x][1..] == ps[1..][i - 1 := x];
    }
  }

  lemma {:induction false} RoomKeepsBusy<T>(ps: seq<Producer<T>>)
    ensures Busy(WakeProducers(ps)) == Busy(ps)
  {
    if ps != [] {
      RoomKeepsBusy(ps[1..]);
      assert WakeProducers(ps)[1..] == WakeProducers(ps[1..]);
    }
  }

  function Calls<T>(es: seq<Event<T>>): nat
  {
    if es == [] then 0 else (if es[0].Call? then 1 else 0) + Calls(es[1..])
  }

  /** A call that does not wait finds the queue full. */
  ghost predicate IsRefusal<T>(c: Config<T>, s: State<T>, e: Event<T>)
  {
    e.PutTurn? && e.p < |s.producers| && s.producers[e.p].Putting? && !s.producers[e.p].blocking && |s.mon.q| >= c.limit
  }

  ghost function Refusals<T>(c: Config<T>, s: State<T>, es: seq<Event<T>>): nat
    decreases |es|
  {
    if es == [] || !InShape(c, s) || !Enabled(c, s, es[0]) then 0
    else (if IsRefusal(c, s, es[0]) then 1 else 0) + Refusals(c, Step(c, s, es[0]), es[1..])
  }

  lemma StepAccounts<T>(c: Config<T>, s: State<T>, e: Event<T>)
    requires InShape(c, s) && Enabled(c, s, e)
    ensures var s' := Step(c, s, e);
            |s'.puts| + Busy(s'.producers) + (if IsRefusal(c, s, e) then 1 else 0)
            == |s.puts| + Busy(s.producers) + if e.Call? then 1 else 0
  {
    RoomKeepsBusy(s.producers);
    if e.Call? || e.PutTurn? || e.WakeProducer? {
      BusyUpdate(s.producers, e.p, Step(c, s, e).producers[e.p]);
    }
  }

  lemma {:induction false} RunAccounts<T>(c: Config<T>, s: State<T>, es: seq<Event<T>>, s': State<T>)
    requires Runs(c, s, es, s')
    ensures |s'.puts| + Busy(s'.producers) + Refusals(c, s, es) == |s.puts| + Busy(s.producers) + Calls(es)
    decreases |es|
  {
    if es != [] {
      StepAccounts(c, s, es[0]);
      RunAccounts(c, Step(c, s, es[0]), es[1..], s');
    }
  }

  lemma {:induction false} NobodyBusy<T>(ps: seq<Producer<T>>)
    requires forall p | 0 <= p < |ps| :: ps[p] == Idle
    ensures Busy(ps) == 0
  {
    if ps != [] {
      NobodyBusy(ps[1..]);
    }
  }

  /** In every run each call of `put` has stored its value, is still waiting, or did not want to wait and found the
      queue full. */
  lemma EveryCallIsAccountedFor<T>(c: Config<T>, s0: State<T>, es: seq<Event<T>>, s: State<T>)
    requires Init(c, s0) && Runs(c, s0, es, s)
    ensures |s.puts| + Busy(s.producers) + Refusals(c, s0, es) == Calls(es)
  {
    NobodyBusy(s0.producers);
    RunAccounts(c, s0, es, s);
  }

  // ---------------------------------------------------------------------------
  // How long a run can be
  // ---------------------------------------------------------------------------

  predicate Spurious<T>(e: Event<T>)
  {
    e.WakeConsumer? || e.WakeProducer?
  }

  function Wakes<T>(es: seq<Event<T>>): nat
  {
    if es == [] then 0 else (if Spurious(es[0]) then 1 else 0) + Wakes(es[1..])
  }

  function Weight(cs: seq<Consumer>): nat
  {
    if cs == [] then 0 else (match cs[0] case Testing => 2 case Asleep => 1 case Ended => 0) + Weight(cs[1..])
  }

  lemma {:induction false} WakingCosts(cs: seq<Consumer>)
    ensures Weight(WakeConsumers(cs)) <= Weight(cs) + |cs|
  {
    if cs != [] {
      WakingCosts(cs[1..]);
      assert WakeConsumers(cs)[1..] == WakeConsumers(cs[1..]);
    }
  }

  lemma {:induction false} WeightUpdate(cs: seq<Consumer>, i: nat, x: Consumer)
    requires i < |cs|
    ensures Weight(cs[i := x]) + Weight([cs[i]]) == Weight(cs) + Weight([x])
  {
    if i == 0 {
      assert cs[i := x][1..] == cs[1..];
    } else {
      WeightUpdate(cs[1..], i - 1, x);
      assert cs[i := x][1..] == cs[1..][i - 1 := x];
    }
  }

  function Pending<T>(ps: seq<Producer<T>>, each: nat): nat
  {
    if ps == [] then 0 else
    (match ps[0] case Idle => 0 case Full(_) => each case Putting(_, _) => each + 1) + Pending(ps[1..], each)
  }

  lemma {:induction false} PendingUpdate<T>(ps: seq<Producer<T>>, each: nat, i: nat, x: Producer<T>)
    requires i < |ps|
    ensures Pending(ps[i := x], each) + Pending([ps[i]], each) == Pending(ps, each) + Pending([x], each)
  {
    if i == 0 {
      assert ps[i := x][1..] == ps[1..];
    } else {
      PendingUpdate(ps[1..], each, i - 1, x);
      assert ps[i := x][1..] == ps[1..][i - 1 := x];
    }
  }

  lemma {:induction false} RoomCosts<T>(ps: seq<Producer<T>>, each: nat)
    ensures Pending(WakeProducers(ps), each) <= Pending(ps, each) + |ps|
  {
    if ps != [] {
      RoomCosts(ps[1..], each);
      assert WakeProducers(ps)[1..] == WakeProducers(ps[1..]);
    }
  }

  /** What is left to do without new calls: a removal may wake every producer, a put every consumer. */
  function WorkLeft<T>(s: State<T>): nat
  {
    var perItem := |s.producers| + 1;
    Weight(s.consumers) + perItem * |s.mon.q| + Pending(s.producers, perItem + |s.consumers|)
  }

  /** Only the calls already made go on. */
  ghost predicate NoNewCalls<T>(es: seq<Event<T>>)
  {
    forall e | e in es :: !e.Call? && !e.Close?
  }

  lemma TurnLowers<T>(c: Config<T>, s: State<T>, i: nat)
    requires InShape(c, s) && Enabled(c, s, GetTurn(i))
    ensures WorkLeft(StepGet(c, s, i)) < WorkLeft(s)
  {
    var s' := StepGet(c, s, i);
    var perItem := |s.producers| + 1;
    if Get(s.mon, OnItem(c.filters[i])).Took? {
      TakeFacts(c, s, i);
      RoomCosts(s.producers, perItem + |s.consumers|);
      OneMore(perItem, |s'.mon.q|);
    } else {
      WeightUpdate(s.consumers, i, s'.consumers[i]);
    }
  }

  lemma OneMore(each: nat, n: nat)
    ensures each * (n + 1) == each * n + each
  {
  }

  lemma StoreLowers<T>(c: Config<T>, s: State<T>, p: nat)
    requires InShape(c, s) && Enabled(c, s, PutTurn(p))
    ensures WorkLeft(StepPut(c, s, p)) < WorkLeft(s)
  {
    var s' := StepPut(c, s, p);
    var perItem := |s.producers| + 1;
    WakingCosts(s.consumers);
    PendingUpdate(s.producers, perItem + |s.consumers|, p, s'.producers[p]);
    OneMore(perItem, |s.mon.q|);
  }

  lemma StepLowers<T>(c: Config<T>, s: State<T>, e: Event<T>)
    requires InShape(c, s) && Enabled(c, s, e) && !e.Call? && !e.Close?
    ensures if Spurious(e) then WorkLeft(Step(c, s, e)) == WorkLeft(s) + 1 else WorkLeft(Step(c, s, e)) < WorkLeft(s)
  {
    match e
    case GetTurn(i) => TurnLowers(c, s, i);
    case PutTurn(p) => StoreLowers(c, s, p);
    case WakeConsumer(i) => WeightUpdate(s.consumers, i, Testing);
    case WakeProducer(p) =>
      PendingUpdate(s.producers, |s.producers| + 1 + |s.consumers|, p, Putting(s.producers[p].x, true));
  }

  /** Without new calls, a run is bounded by what is left to do and its spurious wakeups. */
  lemma {:induction false} RunsAreBounded<T>(c: Config<T>, s: State<T>, es: seq<Event<T>>, s': State<T>)
    requires Runs(c, s, es, s') && NoNewCalls(es)
    ensures |es| + WorkLeft(s') <= WorkLeft(s) + 2 * Wakes(es)
    decreases |es|
  {
    if es != [] {
      assert es[0] in es && forall e | e in es[1..] :: e in es;
      StepLowers(c, s, es[0]);
      RunsAreBounded(c, Step(c, s, es[0]), es[1..], s');
    }
  }

  lemma {:induction false} StaysClosed<T>(c: Config<T>, s: State<T>, es: seq<Event<T>>, s': State<T>)
    requires s.mon.closed && Runs(c, s, es, s')
    ensures s'.mon.closed
    decreases |es|
  {
    if es != [] {
      StaysClosed(c, Step(c, s, es[0]), es[1..], s');
    }
  }

  /** After `close`, with no later call, every consumer loop ends, whatever the producers that are still in
      a call do: the run is bounded, and as long as a consumer has not ended it can take a step of its own. */
  lemma ClosedConsumersEnd<T(!new)>(c: Config<T>, s: State<T>, es: seq<Event<T>>, s': State<T>, i: nat)
    requires Reachable(c, s) && s.mon.closed && Runs(c, s, es, s') && NoNewCalls(es) && i < |c.filters|
    ensures |es| <= WorkLeft(s) + 2 * Wakes(es)
    ensures InShape(c, s') && (s'.consumers[i] == Ended || Enabled(c, s', GetTurn(i)))
  {
    ReachableInv(c, s);
    RunsAreBounded(c, s, es, s');
    StaysClosed(c, s, es, s');
    RunsKeepInv(c, s, es, s');
    assert s'.consumers[i] != Asleep;
  }
}
