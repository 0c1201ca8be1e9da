/** The breadth-first search over cubes in the first `main` of tcube.cpp. */
module CubeSearch {
  import opened Cube
  import opened Levels

  /** A turn as a move of the graph of cubes; only faces 0 to 5 are ever turned. */
  function Move(c: State, f: nat): State
  {
    if f < FACES then Rotate(c, f) else c
  }

  // ---------------------------------------------------------------------------
  // Inverses, symmetry and the census over whole move words
  // ---------------------------------------------------------------------------

  /** Undoes a word: every turn is replaced by three, in reverse order. */
  function Inverse(w: seq<nat>): (r: seq<nat>)
    ensures IsWord(w, FACES) ==> IsWord(r, FACES)
    decreases |w|
  {
    if w == [] then [] else
      var f := w[|w| - 1];
      [f, f, f] + Inverse(w[..|w| - 1])
  }

  lemma ThreeMoves(c: State, f: nat)
    ensures Apply(Move, c, [f, f, f]) == Move(Move(Move(c, f), f), f)
  {
    ApplyMore(Move, c, [], f);
    ApplyMore(Move, c, [f], f);
    ApplyMore(Move, c, [f, f], f);
    assert [f] + [f] == [f, f] && [f, f] + [f] == [f, f, f] && [] + [f] == [f];
  }

  lemma FourMoves(c: State, f: nat)
    ensures Move(Move(Move(Move(c, f), f), f), f) == c
  {
    if f < FACES {
      FourTurns(c, f);
    }
  }

  /** Every move sequence has an inverse. */
  lemma {:induction false} InverseUndoes(c: State, w: seq<nat>)
    ensures Apply(Move, Apply(Move, c, w), Inverse(w)) == c
    decreases |w|
  {
    if w != [] {
      var f, w' := w[|w| - 1], w[..|w| - 1];
      var d := Apply(Move, c, w);
      ApplyConcat(Move, d, [f, f, f], Inverse(w'));
      ThreeMoves(d, f);
      FourMoves(Apply(Move, c, w'), f);
      InverseUndoes(c, w');
    }
  }

  lemma ReachabilityIsSymmetric(a: State, b: State)
    ensures Reachable(Move, FACES, a, b) <==> Reachable(Move, FACES, b, a)
  {
    if Reachable(Move, FACES, a, b) {
      ReachesBack(a, b);
    }
    if Reachable(Move, FACES, b, a) {
      ReachesBack(b, a);
    }
  }

  lemma ReachesBack(a: State, b: State)
    requires Reachable(Move, FACES, a, b)
    ensures Reachable(Move, FACES, b, a)
  {
    var n: nat :| ReachableIn(Move, FACES, a, b, n);
    var w: seq<nat> :| IsWord(w, FACES) && |w| == n && Apply(Move, a, w) == b;
    InverseUndoes(a, w);
    assert ReachableIn(Move, FACES, b, a, |Inverse(w)|);
  }

  /** Every cube reachable from the solved one shows each colour on four even and four odd slots. */
  lemma {:induction false} ReachableCensus(w: seq<nat>, colour: Cell, parity: nat)
    requires IsWord(w, FACES) && colour < FACES && parity < 2
    ensures |Holding(Apply(Move, Solved(), w), colour, parity)| == 4
    decreases |w|
  {
    if w == [] {
      SolvedCensus(colour, parity);
    } else {
      ReachableCensus(w[..|w| - 1], colour, parity);
      TurnKeepsCensus(Apply(Move, Solved(), w[..|w| - 1]), w[|w| - 1], colour, parity);
    }
  }

  // ---------------------------------------------------------------------------
  // The finite universe that bounds the search
  // ---------------------------------------------------------------------------

  ghost function Universe(n: nat): set<seq<Cell>>
  {
    if n == 0 then {[]} else set x: Cell, s | 0 <= x < 256 && s in Universe(n - 1) :: [x] + s
  }

  lemma {:induction false} InUniverse(s: seq<Cell>)
    ensures s in Universe(|s|)
  {
    if s != [] {
      InUniverse(s[1..]);
      assert s == [s[0]] + s[1..];
    }
  }

  lemma {:induction false} SubsetSize<T>(a: set<T>, b: set<T>)
    requires a <= b
    ensures |a| <= |b| && (a != b ==> |a| < |b|)
  {
    if a == {} {
      assert a != b ==> b != {};
    } else {
      var x :| x in a;
      SubsetSize(a - {x}, b - {x});
      assert a != b ==> a - {x} != b - {x};
    }
  }

  ghost function AllStates(): set<State>
  {
    set c: State | c in Universe(SLOTS)
  }

  /** `room` cubes have not been found yet; the search cannot find new ones more often than that. */
  ghost predicate HasRoom(found: set<State>, room: nat)
  {
    |found| + room == |AllStates()|
  }

  lemma AllStatesFit(found: set<State>)
    ensures found <= AllStates() && |found| <= |AllStates()|
  {
    forall c | c in found
      ensures c in AllStates()
    {
      InUniverse(c);
    }
    SubsetSize(found, AllStates());
  }

  // ---------------------------------------------------------------------------
  // The search
  // ---------------------------------------------------------------------------

  /** What the search prints at the head of a level. */
  datatype Line = Line(depth: nat, acting: nat, fixed: nat)

  ghost predicate Recorded(root: State, levels: seq<seq<State>>, report: seq<Line>)
  {
    |levels| == |report| && forall d | 0 <= d < |levels| ::
      && Lists(Move, FACES, root, levels[d], d)
      && report[d] == Line(d, |levels[d]|, |VisitedAt(Move, FACES, root, d)|)
  }

  /** The whole search. The visited set ends as the reachable set; the frontier of depth `d` lists,
      once each, the cubes whose shortest word has `d` turns; no cube lies beyond the last level. */
  method Search(root: State) returns (fixed: set<State>, levels: seq<seq<State>>, report: seq<Line>)
    ensures forall c: State :: c in fixed <==> Reachable(Move, FACES, root, c)
    ensures Recorded(root, levels, report)
    ensures forall c: State, d: nat | d < |levels| :: c in levels[d] <==> AtDistance(Move, FACES, root, c, d)
    ensures forall c: State, d: nat | AtDistance(Move, FACES, root, c, d) :: d < |levels|
  {
    var table := new nat[FACES, 12];
    InitPeerOff(table);
    fixed, levels, report := Sweep(root, table);
    SearchEnds(root, fixed, levels, report);
  }

  /** The outer loop: it runs until a level comes out empty. */
  method Sweep(root: State, table: array2<nat>)
    returns (fixed: set<State>, levels: seq<seq<State>>, report: seq<Line>)
    requires IsPeerTable(table)
    ensures Recorded(root, levels, report) && Level(Move, FACES, root, |levels|) == {}
    ensures fixed == VisitedAt(Move, FACES, root, |levels|)
  {
    var nodeAct: array<seq<State>> := new seq<State>[2](_ => []);
    var actid: nat, depth: nat := 0, 0;
    RootIsListed(Move, FACES, root);
    nodeAct[actid] := nodeAct[actid] + [root];
    assert nodeAct[actid] == [root];
    fixed, levels, report := {}, [], [];
    ghost var room: nat := |AllStates()|;

    while |nodeAct[actid]| > 0
      invariant actid < 2 && |levels| == depth
      invariant AtHead(root, levels, report, nodeAct[actid], fixed, room)
      decreases room, |nodeAct[actid]|
    {
      fixed, levels, report, room := SweepLevel(root, table, nodeAct, actid, depth, fixed, levels, report, room);
      actid, depth := 1 - actid, depth + 1;
    }
  }

  /** What holds at the head of the outer loop: `cur` lists the level to come, `fixed` is the ball before it. */
  ghost predicate AtHead(root: State, levels: seq<seq<State>>, report: seq<Line>, cur: seq<State>, fixed: set<State>,
                         room: nat)
  {
    && Recorded(root, levels, report) && Lists(Move, FACES, root, cur, |levels|)
    && fixed == VisitedAt(Move, FACES, root, |levels|) && HasRoom(fixed, room)
  }

  /** One turn of the outer loop. */
  method SweepLevel(root: State, table: array2<nat>, nodeAct: array<seq<State>>, actid: nat, depth: nat,
                    fixed: set<State>, levels: seq<seq<State>>, report: seq<Line>, ghost room: nat)
    returns (fixed': set<State>, levels': seq<seq<State>>, report': seq<Line>, ghost room': nat)
    requires IsPeerTable(table) && nodeAct.Length == 2 && actid < 2 && nodeAct[actid] != []
    requires depth == |levels| && AtHead(root, levels, report, nodeAct[actid], fixed, room)
    modifies nodeAct
    ensures |levels'| == |levels| + 1 && AtHead(root, levels', report', nodeAct[1 - actid], fixed', room')
    ensures room' < room || (room' == room && nodeAct[1 - actid] == [])
  {
    levels', report' := Record(root, levels, report, nodeAct[actid], depth, |fixed|);
    fixed', room' := ExpandLevel(table, nodeAct, actid, fixed, room, root, depth);
  }

  /** The line printed for a level, and the level itself. */
  method Record(root: State, levels: seq<seq<State>>, report: seq<Line>, cur: seq<State>,
                depth: nat, count: nat)
    returns (levels': seq<seq<State>>, report': seq<Line>)
    requires Recorded(root, levels, report) && Lists(Move, FACES, root, cur, depth)
    requires depth == |levels| && count == |VisitedAt(Move, FACES, root, depth)|
    ensures Recorded(root, levels', report') && |levels'| == |levels| + 1
    ensures levels' == levels + [cur]
  {
    levels' := levels + [cur];
    report' := report + [Line(depth, |cur|, count)];
  }

  lemma SearchEnds(root: State, fixed: set<State>, levels: seq<seq<State>>, report: seq<Line>)
    requires Recorded(root, levels, report) && Level(Move, FACES, root, |levels|) == {}
    requires fixed == VisitedAt(Move, FACES, root, |levels|)
    ensures forall c: State :: c in fixed <==> Reachable(Move, FACES, root, c)
    ensures forall c: State, d: nat | d < |levels| :: c in levels[d] <==> AtDistance(Move, FACES, root, c, d)
    ensures forall c: State, d: nat | AtDistance(Move, FACES, root, c, d) :: d < |levels|
  {
    forall c: State
      ensures c in fixed <==> Reachable(Move, FACES, root, c)
    {
      EmptyLevelEnds(Move, FACES, root, |levels|, c);
    }
    forall c: State, d: nat | d < |levels|
      ensures c in levels[d] <==> AtDistance(Move, FACES, root, c, d)
    {
      ListsMembers(Move, FACES, root, levels[d], d, c);
    }
    forall c: State, d: nat | AtDistance(Move, FACES, root, c, d)
      ensures d < |levels|
    {
      NothingBeyond(Move, FACES, root, |levels|, c, d);
    }
  }

  /** One level: the other buffer is cleared and filled with the cubes first met from this one. */
  method ExpandLevel(table: array2<nat>, nodeAct: array<seq<State>>, actid: nat, fixed: set<State>,
                     ghost room: nat, ghost root: State, ghost depth: nat)
    returns (fixed': set<State>, ghost room': nat)
    requires IsPeerTable(table)
    requires nodeAct.Length == 2 && actid < 2 && nodeAct[actid] != []
    requires fixed == VisitedAt(Move, FACES, root, depth) && Elements(nodeAct[actid]) == Level(Move, FACES, root, depth)
    requires HasRoom(fixed, room)
    modifies nodeAct
    ensures fixed' == VisitedAt(Move, FACES, root, depth + 1)
    ensures Lists(Move, FACES, root, nodeAct[1 - actid], depth + 1)
    ensures HasRoom(fixed', room') && (room' < room || (room' == room && nodeAct[1 - actid] == []))
  {
    fixed' := fixed;
    nodeAct[1 - actid] := [];
    ghost var cur := nodeAct[actid];
    ghost var ball := Ball(Move, FACES, root, depth);
    for k := 0 to |nodeAct[actid]|
      invariant nodeAct[actid] == cur
      invariant fixed' == Visited(Move, FACES, root, depth, cur[..k])
      invariant Distinct(nodeAct[1 - actid]) && Elements(nodeAct[1 - actid]) == fixed' - ball
    {
      var c := nodeAct[actid][k];
      VisitedMore(Move, FACES, root, depth, cur, k);
      LevelInBall(root, depth, cur, k);
      fixed' := fixed' + {c};
      var next: seq<State>;
      fixed', next := Expand(table, c, fixed', nodeAct[1 - actid], ball);
      nodeAct[1 - actid] := next;
    }
    assert cur[..|cur|] == cur;
    LevelDone(Move, FACES, root, depth, cur);
    if nodeAct[1 - actid] != [] {
      assert nodeAct[1 - actid][0] in Elements(nodeAct[1 - actid]);
    }
    BallGrows(Move, FACES, root, depth, depth + 1);
    AllStatesFit(fixed');
    SubsetSize(fixed, fixed');
    room' := |AllStates()| - |fixed'|;
  }

  lemma LevelInBall(root: State, d: nat, cur: seq<State>, k: nat)
    requires Elements(cur) == Level(Move, FACES, root, d) && k < |cur|
    ensures cur[k] in Ball(Move, FACES, root, d)
  {
    assert cur[k] in Elements(cur);
  }

  /** The copy of a cube with one face turned. */
  method Derive(table: array2<nat>, c: State, f: nat) returns (turned: State)
    requires IsPeerTable(table) && f < FACES
    ensures turned == Move(c, f)
    ensures forall i | f * 8 <= i < f * 8 + 8 :: turned[i] == c[f * 8 + (i - f * 8 + 2) % 8]
    ensures forall k | 0 <= k < 12 :: table[f, k] < SLOTS && turned[table[f, k]] == c[table[f, (k + 3) % 12]]
    ensures forall i | 0 <= i < SLOTS && !(f * 8 <= i < f * 8 + 8) && (forall k | 0 <= k < 12 :: table[f, k] != i) ::
              turned[i] == c[i]
  {
    var n := new Cell[SLOTS](j requires 0 <= j < SLOTS => c[j]);
    assert n[..] == c;
    RotateFace(n, table, f);
    turned := n[..];
  }

  /** Expands one cube: every neighbour not seen before is marked and queued. */
  method Expand(table: array2<nat>, c: State, fixed: set<State>, next: seq<State>, ghost ball: set<State>)
    returns (fixed': set<State>, next': seq<State>)
    requires IsPeerTable(table)
    requires Distinct(next) && Elements(next) == fixed - ball && ball <= fixed
    ensures fixed' == fixed + Spread(Move, FACES, {c})
    ensures Distinct(next') && Elements(next') == fixed' - ball
  {
    fixed', next' := fixed, next;
    for i := 0 to FACES
      invariant fixed' == fixed + (set f | 0 <= f < i :: Move(c, f))
      invariant Distinct(next') && Elements(next') == fixed' - ball
    {
      var turned := Derive(table, c, i);
      assert (set f | 0 <= f < i + 1 :: Move(c, f)) == (set f | 0 <= f < i :: Move(c, f)) + {turned};
      if turned !in fixed' {
        fixed' := fixed' + {turned};
        ElementsAppend(next', turned);
        assert turned !in Elements(next');
        next' := next' + [turned];
      }
    }
    assert Spread(Move, FACES, {c}) == set f | 0 <= f < FACES :: Move(c, f);
  }
}
