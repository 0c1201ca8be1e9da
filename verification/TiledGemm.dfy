/** The tiled kernel `myGEMM2` as interleaved work-items. Every step is one action of one item:
    one element load, one barrier entered or left, one multiply-accumulate, or the final store.
    A barrier is left only when every item of the work-group has entered it as often
    (section 6.12.8 of the OpenCL C 1.2 specification). */
module TiledGemm {
  import opened Gemm
  import opened Sums

  /** A launch: `ts` by `ts` items in a group, `gm` by `gn` groups. */
  datatype Launch<!T> = Launch(p: Problem<T>, ts: nat, gm: nat, gn: nat)
  {
    ghost predicate Valid()
    {
      p.Valid() && ts > 0 && p.m == ts * gm && p.n == ts * gn
    }

    function Tiles(): nat
      requires ts > 0
    {
      p.k / ts
    }
  }

  datatype Id = Id(gx: nat, gy: nat, row: nat, col: nat)

  /** `Asub[i][j]` or `Bsub[i][j]` of the work-group (gx, gy). */
  datatype Local = Local(gx: nat, gy: nat, i: nat, j: nat)

  datatype Pc = LoadA | LoadB | Enter1 | Wait1 | Mac(k: nat) | Enter2 | Wait2 | Store | Done

  datatype Item<T> = Item(t: nat, pc: Pc, acc: T)

  datatype State<T> = State(items: map<Id, Item<T>>, asub: map<Local, T>, bsub: map<Local, T>,
                            c: map<nat, T>, writes: multiset<nat>)

  predicate InLaunch<T>(l: Launch<T>, i: Id)
  {
    i.gx < l.gm && i.gy < l.gn && i.row < l.ts && i.col < l.ts
  }

  function GlobalRow<T>(l: Launch<T>, i: Id): (r: nat)
    requires l.Valid() && InLaunch(l, i)
    ensures r < l.p.m
  {
    InBlock(i.gx, i.row, l.gm, l.ts);
    l.ts * i.gx + i.row
  }

  function GlobalCol<T>(l: Launch<T>, i: Id): (r: nat)
    requires l.Valid() && InLaunch(l, i)
    ensures r < l.p.n
  {
    InBlock(i.gy, i.col, l.gn, l.ts);
    l.ts * i.gy + i.col
  }

  function OutCell<T>(l: Launch<T>, i: Id): nat
    requires l.Valid() && InLaunch(l, i)
  {
    l.p.CellOf(GlobalRow(l, i), GlobalCol(l, i))
  }

  /** Term `j` of tile `t`. */
  function Term<T>(l: Launch<T>, t: nat, j: nat): (r: nat)
    requires l.ts > 0 && t < l.Tiles() && j < l.ts
    ensures r < l.p.k
  {
    InBlock(t, j, l.Tiles(), l.ts);
    WholeTiles(l);
    l.ts * t + j
  }

  lemma WholeTiles<T>(l: Launch<T>)
    requires l.ts > 0
    ensures l.ts * l.Tiles() <= l.p.k
    ensures l.ts * l.Tiles() == l.p.k <==> l.p.k % l.ts == 0
    ensures l.p.k < l.ts * l.Tiles() + l.ts
  {
    assert l.p.k == l.ts * (l.p.k / l.ts) + l.p.k % l.ts;
  }

  predicate SameGroup(i: Id, j: Id)
  {
    i.gx == j.gx && i.gy == j.gy
  }

  /** The local cell an item fills, in either tile: `[col][row]`. */
  function Own(i: Id): Local
  {
    Local(i.gx, i.gy, i.col, i.row)
  }

  /** The item that fills a local cell. */
  function Filler(c: Local): Id
  {
    Id(c.gx, c.gy, c.j, c.i)
  }

  // ---------------------------------------------------------------------------
  // Steps
  // ---------------------------------------------------------------------------

  /** How many barriers an item has entered, and how many it has left. */
  function Entered<T>(it: Item<T>): nat
  {
    match it.pc
    case LoadA | LoadB | Enter1 | Store | Done => 2 * it.t
    case Wait1 | Mac(_) | Enter2 => 2 * it.t + 1
    case Wait2 => 2 * it.t + 2
  }

  function Left<T>(it: Item<T>): nat
  {
    match it.pc
    case LoadA | LoadB | Enter1 | Wait1 | Store | Done => 2 * it.t
    case Mac(_) | Enter2 | Wait2 => 2 * it.t + 1
  }

  predicate Waiting<T>(it: Item<T>)
  {
    it.pc == Wait1 || it.pc == Wait2
  }

  /** Every item of the group has entered the barrier that `i` stands in. */
  ghost predicate BarrierOpen<T>(s: State<T>, i: Id)
    requires i in s.items
  {
    forall j | j in s.items && SameGroup(i, j) :: Entered(s.items[i]) <= Entered(s.items[j])
  }

  ghost predicate Enabled<T>(l: Launch<T>, s: State<T>, i: Id)
  {
    && i in s.items
    && s.items[i].pc != Done
    && (Waiting(s.items[i]) ==> BarrierOpen(s, i))
  }

  /** The head of the loop over tiles. */
  function AtTile<T>(l: Launch<T>, t: nat, acc: T): Item<T>
    requires l.ts > 0
  {
    Item(t, if t < l.Tiles() then LoadA else Store, acc)
  }

  ghost predicate InShape<T>(l: Launch<T>, s: State<T>)
  {
    && l.Valid()
    && (forall i :: i in s.items <==> InLaunch(l, i))
    && (forall c: Local | c.gx < l.gm && c.gy < l.gn && c.i < l.ts && c.j < l.ts :: c in s.asub && c in s.bsub)
    && (forall i | i in s.items :: ItemInShape(l, s.items[i]))
  }

  ghost predicate ItemInShape<T>(l: Launch<T>, it: Item<T>)
    requires l.ts > 0
  {
    match it.pc
    case Store | Done => it.t == l.Tiles()
    case Mac(k) => it.t < l.Tiles() && k < l.ts
    case _ => it.t < l.Tiles()
  }

  /** Where an item goes next; `sum` is its accumulator after a multiply-accumulate. */
  function Next<T>(l: Launch<T>, it: Item<T>, sum: T): Item<T>
    requires l.ts > 0
  {
    match it.pc
    case LoadA => it.(pc := LoadB)
    case LoadB => it.(pc := Enter1)
    case Enter1 => it.(pc := Wait1)
    case Wait1 => it.(pc := Mac(0))
    case Mac(k) => Item(it.t, if k + 1 < l.ts then Mac(k + 1) else Enter2, sum)
    case Enter2 => it.(pc := Wait2)
    case Wait2 => AtTile(l, it.t + 1, it.acc)
    case Store | Done => it.(pc := Done)
  }

  /** The accumulator after the multiply-accumulate an item stands at, if it stands at one. */
  function Sum<T>(l: Launch<T>, s: State<T>, i: Id): T
    requires InShape(l, s) && i in s.items
  {
    var it := s.items[i];
    if it.pc.Mac? then
      l.p.add(it.acc, l.p.mul(s.asub[Local(i.gx, i.gy, it.pc.k, i.row)], s.bsub[Local(i.gx, i.gy, i.col, it.pc.k)]))
    else it.acc
  }

  /** What one step of item `i` does. */
  function Step<T>(l: Launch<T>, s: State<T>, i: Id): State<T>
    requires InShape(l, s) && i in s.items
  {
    var it := s.items[i];
    var items' := s.items[i := Next(l, it, Sum(l, s, i))];
    match it.pc
    case LoadA => s.(asub := s.asub[Own(i) := l.p.A(GlobalRow(l, i), Term(l, it.t, i.col))], items := items')
    case LoadB => s.(bsub := s.bsub[Own(i) := l.p.B(Term(l, it.t, i.row), GlobalCol(l, i))], items := items')
    case Store =>
      s.(c := s.c[OutCell(l, i) := it.acc], writes := s.writes + multiset{OutCell(l, i)}, items := items')
    case _ => s.(items := items')
  }

  /** A barrier is of one work-group: whether an item can go on depends on the items of its own group alone. */
  lemma GroupsAreIndependent<T>(l: Launch<T>, s: State<T>, s': State<T>, i: Id)
    requires InLaunch(l, i) && forall j :: j in s.items <==> InLaunch(l, j)
    requires forall j :: j in s'.items <==> InLaunch(l, j)
    requires forall j | InLaunch(l, j) && j.gx == i.gx && j.gy == i.gy :: s'.items[j] == s.items[j]
    ensures Enabled(l, s', i) <==> Enabled(l, s, i)
  {
    assert forall j | InLaunch(l, j) && SameGroup(i, j) :: s'.items[j] == s.items[j];
  }

  /** Each cell of the two tiles has exactly one writer: the item that fills it. */
  lemma OneWriterPerCell<T>(l: Launch<T>, s: State<T>, i: Id, c: Local)
    requires InShape(l, s) && i in s.items
    ensures Own(Filler(c)) == c && Filler(Own(i)) == i
    ensures var s' := Step(l, s, i); i != Filler(c) ==>
              && (c in s'.asub <==> c in s.asub) && (c in s.asub ==> s'.asub[c] == s.asub[c])
              && (c in s'.bsub <==> c in s.bsub) && (c in s.bsub ==> s'.bsub[c] == s.bsub[c])
  {
    assert i != Filler(c) ==> Own(i) != c;
  }

  /** The start of a launch: local memory and `C` hold anything. */
  ghost predicate Init<T>(l: Launch<T>, s: State<T>)
  {
    && InShape(l, s)
    && (forall i | i in s.items :: s.items[i] == AtTile(l, 0, l.p.zero))
    && s.writes == multiset{}
  }

  /** `es` is a schedule that leads from `s` to `s'`. */
  ghost predicate Runs<T>(l: Launch<T>, s: State<T>, es: seq<Id>, s': State<T>)
    decreases |es|
  {
    if es == [] then InShape(l, s) && s == s'
    else InShape(l, s) && Enabled(l, s, es[0]) && Runs(l, Step(l, s, es[0]), es[1..], s')
  }

  // ---------------------------------------------------------------------------
  // The invariant
  // ---------------------------------------------------------------------------

  /** How many terms an item has accumulated. */
  function Terms<T>(l: Launch<T>, it: Item<T>): nat
  {
    l.ts * it.t + (match it.pc case Mac(k) => k case Enter2 | Wait2 => l.ts case _ => 0)
  }

  predicate HasA<T>(it: Item<T>)
  {
    it.pc != LoadA && it.pc != Store && it.pc != Done
  }

  predicate HasB<T>(it: Item<T>)
  {
    HasA(it) && it.pc != LoadB
  }

  ghost predicate ItemOk<T>(l: Launch<T>, s: State<T>, i: Id)
    requires InShape(l, s) && i in s.items
  {
    var it := s.items[i];
    && Terms(l, it) <= l.p.k
    && it.acc == l.p.Dot(GlobalRow(l, i), GlobalCol(l, i), Terms(l, it))
    && (HasA(it) ==> s.asub[Own(i)] == l.p.A(GlobalRow(l, i), Term(l, it.t, i.col)))
    && (HasB(it) ==> s.bsub[Own(i)] == l.p.B(Term(l, it.t, i.row), GlobalCol(l, i)))
    && s.writes[OutCell(l, i)] == (if it.pc == Done then 1 else 0)
    && (it.pc == Done ==> OutCell(l, i) in s.c && s.c[OutCell(l, i)] == it.acc)
  }

  /** No item of a group has left a barrier that another has not entered. */
  ghost predicate BarriersHold<T>(s: State<T>)
  {
    forall i, j | i in s.items && j in s.items && SameGroup(i, j) :: Left(s.items[i]) <= Entered(s.items[j])
  }

  ghost predicate Inv<T>(l: Launch<T>, s: State<T>)
  {
    && InShape(l, s)
    && (forall i | i in s.items :: ItemOk(l, s, i))
    && BarriersHold(s)
    && (forall x | x in s.writes :: x < l.p.n * l.p.m)
  }

  lemma OutCellsAreDistinct<T>(l: Launch<T>, i: Id, j: Id)
    requires l.Valid() && InLaunch(l, i) && InLaunch(l, j) && OutCell(l, i) == OutCell(l, j)
    ensures i == j
  {
    CellsAreDistinct(GlobalRow(l, i), GlobalCol(l, i), GlobalRow(l, j), GlobalCol(l, j), l.p.m);
    SplitsInOneWay(l.ts, i.gx, i.row, j.gx, j.row);
    SplitsInOneWay(l.ts, i.gy, i.col, j.gy, j.col);
  }

  /** A global index gives the group and the place in it. */
  lemma SplitsInOneWay(ts: nat, g: nat, r: nat, g': nat, r': nat)
    requires r < ts && r' < ts && ts * g + r == ts * g' + r'
    ensures g == g' && r == r'
  {
    Commutes(ts, g);
    Commutes(ts, g');
    CellsAreDistinct(r, g, r', g', ts);
  }

  lemma Commutes(a: nat, b: nat)
    ensures a * b == b * a
  {
  }

  lemma TermsFit<T>(l: Launch<T>, t: nat)
    requires l.ts > 0 && t <= l.Tiles()
    ensures l.ts * t <= l.p.k
    ensures t < l.Tiles() ==> l.ts * t + l.ts == l.ts * (t + 1) <= l.p.k
  {
    WholeTiles(l);
    assert t * l.ts <= l.Tiles() * l.ts;
    assert t < l.Tiles() ==> (t + 1) * l.ts <= l.Tiles() * l.ts;
  }

  lemma InitInv<T>(l: Launch<T>, s: State<T>)
    requires Init(l, s)
    ensures Inv(l, s)
  {
    forall i | i in s.items
      ensures ItemOk(l, s, i)
    {
      assert Terms(l, s.items[i]) == 0;
    }
  }

  lemma NextInShape<T>(l: Launch<T>, it: Item<T>, sum: T)
    requires l.ts > 0 && ItemInShape(l, it)
    ensures ItemInShape(l, Next(l, it, sum))
  {
  }

  lemma StepShape<T>(l: Launch<T>, s: State<T>, i: Id)
    requires InShape(l, s) && Enabled(l, s, i)
    ensures InShape(l, Step(l, s, i))
    ensures Step(l, s, i).items == s.items[i := Next(l, s.items[i], Sum(l, s, i))]
  {
    NextInShape(l, s.items[i], Sum(l, s, i));
  }

  lemma NextBarriers<T>(l: Launch<T>, it: Item<T>, sum: T)
    requires l.ts > 0
    ensures Left(Next(l, it, sum)) == if Waiting(it) then Entered(it) else Left(it)
    ensures Entered(it) <= Entered(Next(l, it, sum))
  {
  }

  /** Leaving a barrier never gets ahead of entering it, for any two items of a group. */
  lemma StepBarriers<T>(l: Launch<T>, s: State<T>, i: Id, s': State<T>)
    requires l.ts > 0 && BarriersHold(s) && Enabled(l, s, i)
    requires exists sum :: s'.items == s.items[i := Next(l, s.items[i], sum)]
    ensures BarriersHold(s')
  {
    var sum :| s'.items == s.items[i := Next(l, s.items[i], sum)];
    NextBarriers(l, s.items[i], sum);
    forall a, b | a in s'.items && b in s'.items && SameGroup(a, b)
      ensures Left(s'.items[a]) <= Entered(s'.items[b])
    {
      assert Left(s.items[a]) <= Entered(s.items[b]);
      assert a == i && Waiting(s.items[i]) ==> Entered(s.items[i]) <= Entered(s.items[b]);
    }
  }

  /** A step leaves the facts about every other item alone. */
  lemma StepOthers<T>(l: Launch<T>, s: State<T>, i: Id, j: Id)
    requires Inv(l, s) && Enabled(l, s, i) && j in s.items && j != i
    ensures InShape(l, Step(l, s, i)) && ItemOk(l, Step(l, s, i), j)
  {
    StepShape(l, s, i);
    assert ItemOk(l, s, j);
    if OutCell(l, i) == OutCell(l, j) {
      OutCellsAreDistinct(l, i, j);
    }
  }

  /** An item about to read its group's tiles finds both of them full, and nobody about to write:
      every other item has loaded the same tile and none has gone on to the next. */
  lemma TilesAreFull<T>(l: Launch<T>, s: State<T>, i: Id, j: Id)
    requires Inv(l, s) && i in s.items && j in s.items && SameGroup(i, j) && s.items[i].pc.Mac?
    ensures s.items[j].t == s.items[i].t && HasB(s.items[j])
    ensures s.asub[Own(j)] == l.p.A(GlobalRow(l, j), Term(l, s.items[i].t, j.col))
    ensures s.bsub[Own(j)] == l.p.B(Term(l, s.items[i].t, j.row), GlobalCol(l, j))
  {
    assert Left(s.items[i]) <= Entered(s.items[j]);
    assert Left(s.items[j]) <= Entered(s.items[i]);
    assert ItemOk(l, s, j);
  }

  lemma NextTerms<T>(l: Launch<T>, it: Item<T>, sum: T)
    requires l.ts > 0 && ItemInShape(l, it) && it.pc != Done
    ensures Terms(l, Next(l, it, sum)) == Terms(l, it) + (if it.pc.Mac? then 1 else 0) <= l.p.k
  {
    if it.t < l.Tiles() {
      TermsFit(l, it.t);
    } else {
      WholeTiles(l);
    }
  }

  /** What a multiply-accumulate reads from the tiles is the next term of the naive product. */
  lemma MacReads<T>(l: Launch<T>, s: State<T>, i: Id)
    requires Inv(l, s) && i in s.items && s.items[i].pc.Mac?
    requires Terms(l, s.items[i]) < l.p.k
    ensures Sum(l, s, i) == l.p.add(s.items[i].acc, l.p.mul(l.p.A(GlobalRow(l, i), Terms(l, s.items[i])),
                                                            l.p.B(Terms(l, s.items[i]), GlobalCol(l, i))))
  {
    var it := s.items[i];
    assert ItemInShape(l, it);
    ReadsA(l, s, i, it.pc.k);
    ReadsB(l, s, i, it.pc.k);
    assert Term(l, it.t, it.pc.k) == Terms(l, it);
  }

  lemma ReadsA<T>(l: Launch<T>, s: State<T>, i: Id, k: nat)
    requires Inv(l, s) && i in s.items && s.items[i].pc.Mac? && k < l.ts
    ensures ItemInShape(l, s.items[i])
    ensures s.asub[Local(i.gx, i.gy, k, i.row)] == l.p.A(GlobalRow(l, i), Term(l, s.items[i].t, k))
  {
    var mate := Id(i.gx, i.gy, i.row, k);
    assert mate in s.items && ItemInShape(l, s.items[i]);
    TilesAreFull(l, s, i, mate);
    assert Own(mate) == Local(i.gx, i.gy, k, i.row);
  }

  lemma ReadsB<T>(l: Launch<T>, s: State<T>, i: Id, k: nat)
    requires Inv(l, s) && i in s.items && s.items[i].pc.Mac? && k < l.ts
    ensures ItemInShape(l, s.items[i])
    ensures s.bsub[Local(i.gx, i.gy, i.col, k)] == l.p.B(Term(l, s.items[i].t, k), GlobalCol(l, i))
  {
    var mate := Id(i.gx, i.gy, k, i.col);
    assert mate in s.items && ItemInShape(l, s.items[i]);
    TilesAreFull(l, s, i, mate);
    assert Own(mate) == Local(i.gx, i.gy, i.col, k);
  }

  /** The accumulator stays the naive partial product. */
  lemma StepAcc<T>(l: Launch<T>, s: State<T>, i: Id)
    requires Inv(l, s) && Enabled(l, s, i)
    ensures var it' := Next(l, s.items[i], Sum(l, s, i));
            Terms(l, it') <= l.p.k && it'.acc == l.p.Dot(GlobalRow(l, i), GlobalCol(l, i), Terms(l, it'))
  {
    assert ItemOk(l, s, i);
    NextTerms(l, s.items[i], Sum(l, s, i));
    if s.items[i].pc.Mac? {
      MacReads(l, s, i);
    }
  }

  lemma StepSelf<T>(l: Launch<T>, s: State<T>, i: Id)
    requires Inv(l, s) && Enabled(l, s, i)
    ensures InShape(l, Step(l, s, i)) && ItemOk(l, Step(l, s, i), i)
  {
    StepShape(l, s, i);
    StepAcc(l, s, i);
    assert ItemOk(l, s, i);
  }

  lemma StepInv<T>(l: Launch<T>, s: State<T>, i: Id)
    requires Inv(l, s) && Enabled(l, s, i)
    ensures Inv(l, Step(l, s, i))
  {
    var s' := Step(l, s, i);
    StepShape(l, s, i);
    forall j | j in s'.items
      ensures ItemOk(l, s', j)
    {
      if j != i {
        StepOthers(l, s, i, j);
      } else {
        StepSelf(l, s, i);
      }
    }
    StepBarriers(l, s, i, s');
  }

  lemma {:induction false} RunsKeepInv<T>(l: Launch<T>, s: State<T>, es: seq<Id>, s': State<T>)
    requires Inv(l, s) && Runs(l, s, es, s')
    ensures Inv(l, s')
    decreases |es|
  {
    if es != [] {
      StepInv(l, s, es[0]);
      RunsKeepInv(l, Step(l, s, es[0]), es[1..], s');
    }
  }

  // ---------------------------------------------------------------------------
  // Main results
  // ---------------------------------------------------------------------------

  /** `s` can come up during some launch, under some schedule. */
  ghost predicate Reachable<T(!new)>(l: Launch<T>, s: State<T>)
  {
    InShape(l, s) && exists s0: State<T>, es: seq<Id> :: Init(l, s0) && Runs(l, s0, es, s)
  }

  lemma ReachableInv<T(!new)>(l: Launch<T>, s: State<T>)
    requires Reachable(l, s)
    ensures Inv(l, s)
  {
    var s0: State<T>, es: seq<Id> :| Init(l, s0) && Runs(l, s0, es, s);
    InitInv(l, s0);
    RunsKeepInv(l, s0, es, s);
  }

  /** Any two items of a group are at most one barrier apart. */
  lemma OneBarrierApart<T(!new)>(l: Launch<T>, s: State<T>, i: Id, j: Id)
    requires Reachable(l, s) && i in s.items && j in s.items && SameGroup(i, j)
    ensures Left(s.items[i]) <= Left(s.items[j]) + 1
  {
    ReachableInv(l, s);
    BarrierGap(s, i, j);
  }

  lemma BarrierGap<T>(s: State<T>, i: Id, j: Id)
    requires BarriersHold(s) && i in s.items && j in s.items && SameGroup(i, j)
    ensures Left(s.items[i]) <= Left(s.items[j]) + 1
  {
    EnteredOneAhead(s.items[j]);
  }

  lemma EnteredOneAhead<T>(it: Item<T>)
    ensures Entered(it) <= Left(it) + 1
  {
  }

  /** No data race on local memory: while one item of a group may read the tiles, none may write
      them, and what it reads is the tile it is working on. */
  lemma NoRace<T(!new)>(l: Launch<T>, s: State<T>, reader: Id, other: Id)
    requires Reachable(l, s)
    requires reader in s.items && other in s.items && SameGroup(reader, other) && s.items[reader].pc.Mac?
    ensures s.items[other].pc != LoadA && s.items[other].pc != LoadB
    ensures s.asub[Own(other)] == l.p.A(GlobalRow(l, other), Term(l, s.items[reader].t, other.col))
    ensures s.bsub[Own(other)] == l.p.B(Term(l, s.items[reader].t, other.row), GlobalCol(l, other))
  {
    ReachableInv(l, s);
    TilesAreFull(l, s, reader, other);
  }

  ghost predicate Finished<T>(s: State<T>)
  {
    forall i | i in s.items :: s.items[i].pc == Done
  }

  /** The item of a cell of `C`. */
  lemma ItemOf<T>(l: Launch<T>, row: nat, col: nat) returns (i: Id)
    requires l.Valid() && row < l.p.m && col < l.p.n
    ensures InLaunch(l, i) && GlobalRow(l, i) == row && GlobalCol(l, i) == col
  {
    assert l.p.m == l.gm * l.ts && l.p.n == l.gn * l.ts;
    var r, gx := CellHasOwner(row, l.ts, l.gm);
    var c, gy := CellHasOwner(col, l.ts, l.gn);
    i := Id(gx, gy, r, c);
  }

  lemma DoneItem<T>(l: Launch<T>, s: State<T>, i: Id)
    requires Inv(l, s) && i in s.items && s.items[i].pc == Done
    ensures l.ts * l.Tiles() <= l.p.k && OutCell(l, i) in s.c
    ensures s.c[OutCell(l, i)] == l.p.Dot(GlobalRow(l, i), GlobalCol(l, i), l.ts * l.Tiles())
    ensures s.writes[OutCell(l, i)] == 1
  {
    assert ItemOk(l, s, i);
    assert Terms(l, s.items[i]) == l.ts * l.Tiles();
  }

  /** Whatever the schedule, a finished launch has written every cell of `C` exactly once, and
      nothing else, with the first `ts * (k / ts)` terms of the naive product in the naive order. */
  lemma TiledMatchesNaive<T(!new)>(l: Launch<T>, s: State<T>, row: nat, col: nat)
    requires Reachable(l, s) && Finished(s) && row < l.p.m && col < l.p.n
    ensures l.ts * l.Tiles() <= l.p.k && l.p.CellOf(row, col) in s.c
    ensures s.c[l.p.CellOf(row, col)] == l.p.Dot(row, col, l.ts * l.Tiles())
    ensures s.writes[l.p.CellOf(row, col)] == 1
    ensures forall x | x in s.writes :: x < l.p.n * l.p.m
  {
    ReachableInv(l, s);
    var i := ItemOf(l, row, col);
    DoneItem(l, s, i);
  }

  /** The same without the names of the model: the cell at `col * M + row` holds the left fold of the products of
      a row of `A`, read at `k * M + row`, and a column of `B`, read at `col * K + k`. */
  lemma TiledWrittenOut<T(!new)>(l: Launch<T>, s: State<T>, row: nat, col: nat)
    requires Reachable(l, s) && Finished(s) && row < l.p.m && col < l.p.n
    ensures HoldsFold(l.p, row, col, l.ts * l.Tiles(), s.c, s.writes)
    ensures l.ts > 0 && (l.p.k % l.ts == 0 ==> HoldsFold(l.p, row, col, l.p.k, s.c, s.writes))
  {
    TiledMatchesNaive(l, s, row, col);
    ReachableIsValid(l, s);
    ProductIsNat(l.ts, l.Tiles());
    CellHoldsFold(l.p, row, col, l.ts * l.Tiles(), s.c, s.writes);
    WholeTiles(l);
  }

  lemma ReachableIsValid<T(!new)>(l: Launch<T>, s: State<T>)
    requires Reachable(l, s)
    ensures l.Valid()
  {
    ReachableInv(l, s);
  }

  /** So when `ts` divides `k`, and only then for every choice of operands and operations, the
      kernel computes what `matmult` computes. */
  lemma WholeProductIfDivisible<T(!new)>(l: Launch<T>, s: State<T>, row: nat, col: nat)
    requires Reachable(l, s) && Finished(s) && row < l.p.m && col < l.p.n && l.p.k % l.ts == 0
    ensures l.p.CellOf(row, col) in s.c && s.c[l.p.CellOf(row, col)] == l.p.Dot(row, col, l.p.k)
  {
    TiledMatchesNaive(l, s, row, col);
    WholeTiles(l);
  }

  /** The tail is really lost otherwise: with all ones the kernel counts fewer terms than `k`. */
  lemma TailIsDropped(l: Launch<int>, s: State<int>, row: nat, col: nat)
    requires Reachable(l, s) && Finished(s) && CountsOnes(l.p, row, col) && l.p.k % l.ts != 0
    ensures l.p.CellOf(row, col) in s.c && s.c[l.p.CellOf(row, col)] < l.p.Dot(row, col, l.p.k)
  {
    TiledMatchesNaive(l, s, row, col);
    TilesFallShort(l);
    FewerOnes(l.p, row, col, l.ts * l.Tiles());
  }

  lemma TilesFallShort<T>(l: Launch<T>)
    requires l.ts > 0 && l.p.k % l.ts != 0
    ensures 0 <= l.ts * l.Tiles() < l.p.k
  {
    WholeTiles(l);
  }

  lemma FewerOnes(p: Problem<int>, row: nat, col: nat, terms: nat)
    requires CountsOnes(p, row, col) && terms < p.k
    ensures p.Dot(row, col, terms) < p.Dot(row, col, p.k)
  {
    DotOfOnes(p, row, col, terms);
    DotOfOnes(p, row, col, p.k);
  }

  // ---------------------------------------------------------------------------
  // Progress: no schedule gets stuck, and none goes on for ever
  // ---------------------------------------------------------------------------

  /** Of the items of a group, one that has entered the fewest barriers. */
  lemma {:induction false} Slowest<T>(s: State<T>, i: Id, left: set<Id>) returns (m: Id)
    requires i in s.items && forall j | j in left :: j in s.items
    ensures m in s.items && SameGroup(i, m) && Entered(s.items[m]) <= Entered(s.items[i])
    ensures forall j | j in left && SameGroup(i, j) :: Entered(s.items[m]) <= Entered(s.items[j])
    decreases left
  {
    if left == {} {
      m := i;
    } else {
      var j :| j in left;
      m := Slowest(s, i, left - {j});
      if SameGroup(i, j) && Entered(s.items[j]) < Entered(s.items[m]) {
        m := j;
      }
    }
  }

  lemma AllAtTheEnd<T>(l: Launch<T>, s: State<T>, i: Id, m: Id)
    requires Inv(l, s) && i in s.items && s.items[i].pc != Done
    requires m in s.items && s.items[m].pc == Done && SameGroup(i, m)
    requires forall j | j in s.items && SameGroup(i, j) :: Entered(s.items[m]) <= Entered(s.items[j])
    ensures Enabled(l, s, i)
  {
    assert ItemInShape(l, s.items[i]) && ItemInShape(l, s.items[m]);
    assert Entered(s.items[m]) == 2 * l.Tiles();
    assert Entered(s.items[i]) <= 2 * l.Tiles();
  }

  /** While some item is not done, some item can take a step: the barriers cannot deadlock. */
  lemma NeverStuck<T(!new)>(l: Launch<T>, s: State<T>)
    requires Reachable(l, s) && !Finished(s)
    ensures exists i :: Enabled(l, s, i)
  {
    ReachableInv(l, s);
    var i :| i in s.items && s.items[i].pc != Done;
    var m := Slowest(s, i, s.items.Keys);
    if s.items[m].pc == Done {
      AllAtTheEnd(l, s, i, m);
    } else {
      forall j | j in s.items && SameGroup(m, j)
        ensures Entered(s.items[m]) <= Entered(s.items[j])
      {
        assert SameGroup(i, j);
      }
      assert Enabled(l, s, m);
    }
  }

  /** The steps of all the tiles from `t` on. */
  function TileWork<T>(l: Launch<T>, t: nat): nat
    requires l.ts > 0
    decreases l.Tiles() - t
  {
    if t >= l.Tiles() then 0 else 6 + l.ts + TileWork(l, t + 1)
  }

  /** The steps an item still has to take. */
  function Work<T>(l: Launch<T>, it: Item<T>): nat
    requires l.ts > 0 && ItemInShape(l, it)
  {
    match it.pc
    case Done => 0
    case Store => 1
    case LoadA => 1 + TileWork(l, it.t)
    case LoadB => 6 + l.ts + TileWork(l, it.t + 1)
    case Enter1 => 5 + l.ts + TileWork(l, it.t + 1)
    case Wait1 => 4 + l.ts + TileWork(l, it.t + 1)
    case Mac(k) => 3 + l.ts - k + TileWork(l, it.t + 1)
    case Enter2 => 3 + TileWork(l, it.t + 1)
    case Wait2 => 2 + TileWork(l, it.t + 1)
  }

  lemma {:induction false} TileWorkIsProduct<T>(l: Launch<T>, t: nat)
    requires l.ts > 0 && t <= l.Tiles()
    ensures TileWork(l, t) == (l.Tiles() - t) * (6 + l.ts)
    decreases l.Tiles() - t
  {
    if t < l.Tiles() {
      TileWorkIsProduct(l, t + 1);
      assert (l.Tiles() - t) * (6 + l.ts) == (l.Tiles() - t - 1) * (6 + l.ts) + (6 + l.ts);
    }
  }

  lemma WorkShrinks<T>(l: Launch<T>, it: Item<T>, sum: T)
    requires l.ts > 0 && ItemInShape(l, it) && it.pc != Done
    ensures ItemInShape(l, Next(l, it, sum)) && Work(l, Next(l, it, sum)) + 1 == Work(l, it)
  {
    NextInShape(l, it, sum);
  }

  ghost function AllWork<T>(l: Launch<T>, s: State<T>): map<Id, nat>
    requires InShape(l, s)
  {
    map i | i in s.items :: Work(l, s.items[i])
  }

  /** Every schedule takes exactly as many steps as it takes work away: with `NeverStuck`, every
      launch finishes, and every item takes `1 + tiles * (6 + ts)` steps. */
  lemma {:induction false} RunsAreBounded<T>(l: Launch<T>, s: State<T>, es: seq<Id>, s': State<T>)
    requires Runs(l, s, es, s')
    ensures InShape(l, s') && Total(AllWork(l, s)) == |es| + Total(AllWork(l, s'))
    decreases |es|
  {
    if es != [] {
      var i := es[0];
      var s1 := Step(l, s, i);
      StepShape(l, s, i);
      WorkShrinks(l, s.items[i], Sum(l, s, i));
      TotalUpdate(AllWork(l, s), i, Work(l, s1.items[i]));
      assert AllWork(l, s1) == AllWork(l, s)[i := Work(l, s1.items[i])];
      RunsAreBounded(l, s1, es[1..], s');
    }
  }
}
