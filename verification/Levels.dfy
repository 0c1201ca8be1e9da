/** Breadth-first levels of a finite-degree graph whose `m` moves are given by a function: move
    words, balls and levels, and what an empty level means. */
module Levels {

  type Turn<!V> = (V, nat) -> V

  ghost predicate IsWord(w: seq<nat>, m: nat)
  {
    forall i | 0 <= i < |w| :: w[i] < m
  }

  /** The state a move word leads to, first move first. */
  function Apply<V>(g: Turn<V>, c: V, w: seq<nat>): V
    decreases |w|
  {
    if w == [] then c else g(Apply(g, c, w[..|w| - 1]), w[|w| - 1])
  }

  ghost predicate ReachableIn<V>(g: Turn<V>, m: nat, root: V, c: V, n: nat)
  {
    exists w: seq<nat> :: IsWord(w, m) && |w| == n && Apply(g, root, w) == c
  }

  ghost predicate Reachable<V>(g: Turn<V>, m: nat, root: V, c: V)
  {
    exists n: nat :: ReachableIn(g, m, root, c, n)
  }

  /** The shortest word from `root` to `c` has `d` moves. */
  ghost predicate AtDistance<V>(g: Turn<V>, m: nat, root: V, c: V, d: nat)
  {
    ReachableIn(g, m, root, c, d) && forall k: nat | k < d :: !ReachableIn(g, m, root, c, k)
  }

  /** `c` is within `n` moves of `root`. */
  ghost predicate Within<V>(g: Turn<V>, m: nat, root: V, c: V, n: nat)
  {
    exists k: nat :: k <= n && ReachableIn(g, m, root, c, k)
  }

  lemma {:induction false} ApplyConcat<V>(g: Turn<V>, c: V, v: seq<nat>, w: seq<nat>)
    ensures Apply(g, c, v + w) == Apply(g, Apply(g, c, v), w)
    decreases |w|
  {
    if w == [] {
      assert v + w == v;
    } else {
      var w' := w[..|w| - 1];
      assert (v + w)[..|v + w| - 1] == v + w';
      ApplyConcat(g, c, v, w');
    }
  }

  lemma ApplyMore<V>(g: Turn<V>, c: V, w: seq<nat>, f: nat)
    ensures Apply(g, c, w + [f]) == g(Apply(g, c, w), f)
  {
    assert (w + [f])[..|w|] == w;
  }

  // ---------------------------------------------------------------------------
  // Balls and levels
  // ---------------------------------------------------------------------------

  ghost function Spread<V>(g: Turn<V>, m: nat, s: set<V>): set<V>
  {
    set c, f | c in s && 0 <= f < m :: g(c, f)
  }

  ghost function Ball<V>(g: Turn<V>, m: nat, root: V, n: nat): set<V>
  {
    if n == 0 then {root} else Ball(g, m, root, n - 1) + Spread(g, m, Ball(g, m, root, n - 1))
  }

  ghost function Level<V>(g: Turn<V>, m: nat, root: V, n: nat): set<V>
  {
    if n == 0 then {root} else Ball(g, m, root, n) - Ball(g, m, root, n - 1)
  }

  lemma StepReaches<V>(g: Turn<V>, m: nat, root: V, c: V, f: nat, n: nat)
    requires ReachableIn(g, m, root, c, n) && f < m
    ensures ReachableIn(g, m, root, g(c, f), n + 1)
  {
    var w: seq<nat> :| IsWord(w, m) && |w| == n && Apply(g, root, w) == c;
    var v := w + [f];
    ApplyMore(g, root, w, f);
    assert IsWord(v, m);
    assert |v| == n + 1 && Apply(g, root, v) == g(c, f);
  }

  lemma LastStep<V>(g: Turn<V>, m: nat, root: V, c: V, n: nat) returns (p: V, f: nat)
    requires ReachableIn(g, m, root, c, n + 1)
    ensures f < m && ReachableIn(g, m, root, p, n) && c == g(p, f)
  {
    var w: seq<nat> :| IsWord(w, m) && |w| == n + 1 && Apply(g, root, w) == c;
    var v := w[..n];
    p, f := Apply(g, root, v), w[n];
    assert IsWord(v, m);
    assert |v| == n && Apply(g, root, v) == p;
  }

  lemma {:induction false} BallHasWords<V>(g: Turn<V>, m: nat, root: V, n: nat, c: V)
    requires c in Ball(g, m, root, n)
    ensures Within(g, m, root, c, n)
  {
    if n == 0 {
      assert IsWord([], m) && Apply(g, root, []) == root;
      assert ReachableIn(g, m, root, root, 0);
    } else if c in Ball(g, m, root, n - 1) {
      BallHasWords(g, m, root, n - 1, c);
    } else {
      var p, f :| p in Ball(g, m, root, n - 1) && 0 <= f < m && c == g(p, f);
      BallHasWords(g, m, root, n - 1, p);
      var k: nat :| k <= n - 1 && ReachableIn(g, m, root, p, k);
      StepReaches(g, m, root, p, f, k);
    }
  }

  lemma {:induction false} WordsInBall<V>(g: Turn<V>, m: nat, root: V, n: nat, c: V)
    requires ReachableIn(g, m, root, c, n)
    ensures c in Ball(g, m, root, n)
  {
    if n > 0 {
      var p, f := LastStep(g, m, root, c, n - 1);
      WordsInBall(g, m, root, n - 1, p);
      assert g(p, f) in Spread(g, m, Ball(g, m, root, n - 1));
    }
  }

  /** The ball of radius `n` is what words of at most `n` moves reach. */
  lemma BallIsWords<V>(g: Turn<V>, m: nat, root: V, n: nat, c: V)
    ensures c in Ball(g, m, root, n) <==> Within(g, m, root, c, n)
  {
    if c in Ball(g, m, root, n) {
      BallHasWords(g, m, root, n, c);
    }
    if Within(g, m, root, c, n) {
      var k: nat :| k <= n && ReachableIn(g, m, root, c, k);
      WordsInBall(g, m, root, k, c);
      BallGrows(g, m, root, k, n);
    }
  }

  lemma LevelIsDistance<V>(g: Turn<V>, m: nat, root: V, n: nat, c: V)
    ensures c in Level(g, m, root, n) <==> AtDistance(g, m, root, c, n)
  {
    BallIsWords(g, m, root, n, c);
    if n > 0 {
      BallIsWords(g, m, root, n - 1, c);
    }
  }

  ghost predicate IsClosed<V>(g: Turn<V>, m: nat, s: set<V>)
  {
    forall c, f | c in s && 0 <= f < m :: g(c, f) in s
  }

  lemma {:induction false} BallStops<V>(g: Turn<V>, m: nat, root: V, i: nat, n: nat, c: V)
    requires i <= n && IsClosed(g, m, Ball(g, m, root, i)) && c in Ball(g, m, root, n)
    ensures c in Ball(g, m, root, i)
    decreases n
  {
    if i < n {
      if c in Ball(g, m, root, n - 1) {
        BallStops(g, m, root, i, n - 1, c);
      } else {
        var p, f :| p in Ball(g, m, root, n - 1) && 0 <= f < m && c == g(p, f);
        BallStops(g, m, root, i, n - 1, p);
      }
    }
  }

  lemma {:induction false} BallGrows<V>(g: Turn<V>, m: nat, root: V, i: nat, n: nat)
    requires i <= n
    ensures Ball(g, m, root, i) <= Ball(g, m, root, n)
    decreases n
  {
    if i < n {
      BallGrows(g, m, root, i, n - 1);
    }
  }

  lemma SpreadUnion<V>(g: Turn<V>, m: nat, a: set<V>, b: set<V>)
    ensures Spread(g, m, a + b) == Spread(g, m, a) + Spread(g, m, b)
  {
  }

  lemma StoppedBallIsReachable<V>(g: Turn<V>, m: nat, root: V, d: nat, c: V)
    requires IsClosed(g, m, Ball(g, m, root, d))
    ensures c in Ball(g, m, root, d) <==> Reachable(g, m, root, c)
  {
    if c in Ball(g, m, root, d) {
      BallHasWords(g, m, root, d, c);
    }
    if Reachable(g, m, root, c) {
      var n: nat :| ReachableIn(g, m, root, c, n);
      WordsInBall(g, m, root, n, c);
      if n < d {
        BallGrows(g, m, root, n, d);
      } else {
        BallStops(g, m, root, d, n, c);
      }
    }
  }

  lemma EmptyLevelStops<V>(g: Turn<V>, m: nat, root: V, d: nat)
    requires Level(g, m, root, d) == {}
    ensures d > 0 && IsClosed(g, m, Ball(g, m, root, d - 1))
  {
    assert root in Level(g, m, root, 0);
    forall c, f | c in Ball(g, m, root, d - 1) && 0 <= f < m
      ensures g(c, f) in Ball(g, m, root, d - 1)
    {
      assert g(c, f) in Spread(g, m, Ball(g, m, root, d - 1));
      assert g(c, f) in Ball(g, m, root, d);
      assert g(c, f) !in Level(g, m, root, d);
    }
  }

  /** An empty level means the ball holds every reachable state. */
  lemma EmptyLevelEnds<V>(g: Turn<V>, m: nat, root: V, d: nat, c: V)
    requires Level(g, m, root, d) == {}
    ensures d > 0
    ensures c in Ball(g, m, root, d) <==> c in Ball(g, m, root, d - 1)
    ensures c in Ball(g, m, root, d - 1) <==> Reachable(g, m, root, c)
  {
    EmptyLevelStops(g, m, root, d);
    EmptyLevelAddsNothing(g, m, root, d, c);
    StoppedBallIsReachable(g, m, root, d - 1, c);
  }

  lemma EmptyLevelAddsNothing<V>(g: Turn<V>, m: nat, root: V, d: nat, c: V)
    requires d > 0 && Level(g, m, root, d) == {}
    ensures c in Ball(g, m, root, d) <==> c in Ball(g, m, root, d - 1)
  {
    assert c !in Level(g, m, root, d);
    BallGrows(g, m, root, d - 1, d);
  }

  lemma DistanceInsideBall<V>(g: Turn<V>, m: nat, root: V, d: nat, c: V, n: nat)
    requires c in Ball(g, m, root, d) && AtDistance(g, m, root, c, n)
    ensures n <= d
  {
    BallHasWords(g, m, root, d, c);
  }

  /** No state lies beyond an empty level. */
  lemma NothingBeyond<V>(g: Turn<V>, m: nat, root: V, d: nat, c: V, n: nat)
    requires Level(g, m, root, d) == {} && AtDistance(g, m, root, c, n)
    ensures n < d
  {
    assert Reachable(g, m, root, c);
    EmptyLevelEnds(g, m, root, d, c);
    DistanceInsideBall(g, m, root, d - 1, c, n);
  }

  // ---------------------------------------------------------------------------
  // The bookkeeping of a level-by-level search
  // ---------------------------------------------------------------------------

  ghost predicate Distinct<V>(s: seq<V>)
  {
    forall i, j | 0 <= i < j < |s| :: s[i] != s[j]
  }

  ghost function Elements<V>(s: seq<V>): set<V>
  {
    set i | 0 <= i < |s| :: s[i]
  }

  lemma ElementsAppend<V>(s: seq<V>, x: V)
    ensures Elements(s + [x]) == Elements(s) + {x}
  {
    forall y
      ensures y in Elements(s + [x]) <==> y in Elements(s) + {x}
    {
      if y in Elements(s) {
        var i :| 0 <= i < |s| && s[i] == y;
        assert (s + [x])[i] == y;
      }
      assert (s + [x])[|s|] == x;
    }
  }

  /** `s` lists, without repetition, exactly the states at distance `d`. */
  ghost predicate Lists<V>(g: Turn<V>, m: nat, root: V, s: seq<V>, d: nat)
  {
    Distinct(s) && Elements(s) == Level(g, m, root, d)
  }

  lemma RootIsListed<V>(g: Turn<V>, m: nat, root: V)
    ensures Lists(g, m, root, [root], 0)
  {
    assert Elements([root]) == {[root][0]};
  }

  lemma ListsMembers<V>(g: Turn<V>, m: nat, root: V, s: seq<V>, d: nat, c: V)
    requires Lists(g, m, root, s, d)
    ensures c in s <==> AtDistance(g, m, root, c, d)
  {
    LevelIsDistance(g, m, root, d, c);
    assert c in s <==> c in Elements(s);
  }

  /** The visited set at the head of level `d`: nothing at first, then the whole ball. */
  ghost function VisitedAt<V>(g: Turn<V>, m: nat, root: V, d: nat): set<V>
  {
    if d == 0 then {} else Ball(g, m, root, d)
  }

  /** The visited set once the states `done` of level `d` have been expanded. */
  ghost function Visited<V>(g: Turn<V>, m: nat, root: V, d: nat, done: seq<V>): set<V>
  {
    if done == [] then VisitedAt(g, m, root, d) else Ball(g, m, root, d) + Spread(g, m, Elements(done))
  }

  lemma VisitedMore<V>(g: Turn<V>, m: nat, root: V, d: nat, cur: seq<V>, k: nat)
    requires Elements(cur) == Level(g, m, root, d) && k < |cur|
    ensures Visited(g, m, root, d, cur[..k + 1]) == Visited(g, m, root, d, cur[..k]) + {cur[k]} + Spread(g, m, {cur[k]})
    ensures Ball(g, m, root, d) <= Visited(g, m, root, d, cur[..k]) + {cur[k]}
  {
    assert cur[..k + 1] == cur[..k] + [cur[k]];
    ElementsAppend(cur[..k], cur[k]);
    assert cur[k] in Elements(cur);
    SpreadUnion(g, m, Elements(cur[..k]), {cur[k]});
    if d == 0 {
      assert Ball(g, m, root, d) == {cur[k]};
    }
    if k == 0 {
      assert Elements(cur[..k]) == {};
    }
  }

  lemma LevelDone<V>(g: Turn<V>, m: nat, root: V, d: nat, cur: seq<V>)
    requires cur != [] && Elements(cur) == Level(g, m, root, d)
    ensures Visited(g, m, root, d, cur) == Ball(g, m, root, d + 1)
  {
    if d > 0 {
      BallGrows(g, m, root, d - 1, d);
      assert Ball(g, m, root, d) == Level(g, m, root, d) + Ball(g, m, root, d - 1);
      SpreadUnion(g, m, Level(g, m, root, d), Ball(g, m, root, d - 1));
    }
  }
}
