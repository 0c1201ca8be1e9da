/** The sticker cube of tcube.cpp: 6 faces of 8 stickers each, stored in one 48-cell array.
    The neighbour table is the one the code computes, with ids 3, 2, 1 along each edge. */
module Cube {

  const FACES := 6
  const EDGES := 4
  const SLOTS := 48

  /** A sticker as `memcmp` sees it: one unsigned byte. */
  type Cell = x: int | 0 <= x < 256

  type State = s: seq<Cell> | |s| == SLOTS witness seq(SLOTS, _ => 0)

  datatype EdgeLink = EdgeLink(face0: nat, edge0: nat, face1: nat, edge1: nat)

  const LINKS: seq<EdgeLink> := [
    EdgeLink(0, 0, 5, 2), EdgeLink(0, 1, 3, 0), EdgeLink(0, 2, 2, 0), EdgeLink(0, 3, 1, 0),
    EdgeLink(4, 0, 2, 2), EdgeLink(4, 1, 3, 2), EdgeLink(4, 2, 5, 0), EdgeLink(4, 3, 1, 2),
    EdgeLink(1, 1, 2, 3), EdgeLink(2, 1, 3, 3), EdgeLink(3, 1, 5, 1), EdgeLink(1, 3, 5, 3)]

  function Slot(face: nat, edge: nat, id: nat): nat
  {
    face * 8 + (edge * 2 + id) % 8
  }

  // ---------------------------------------------------------------------------
  // What the table must be: the neighbour across every edge of every face
  // ---------------------------------------------------------------------------

  datatype Side = Side(face: nat, edge: nat)

  const NEIGHBOURS: seq<seq<Side>> := [
    [Side(5, 2), Side(3, 0), Side(2, 0), Side(1, 0)],
    [Side(0, 3), Side(2, 3), Side(4, 3), Side(5, 3)],
    [Side(0, 2), Side(3, 3), Side(4, 0), Side(1, 1)],
    [Side(0, 1), Side(5, 1), Side(4, 1), Side(2, 1)],
    [Side(2, 2), Side(3, 2), Side(5, 0), Side(1, 2)],
    [Side(4, 2), Side(3, 1), Side(0, 0), Side(1, 3)]]

  function Across(f: nat, e: nat): (r: Side)
    requires f < FACES && e < EDGES
    ensures r.face < FACES && r.edge < EDGES
    ensures r.face != f && Opposite(f) != r.face
  {
    NEIGHBOURS[f][e]
  }

  function Opposite(f: nat): (r: nat)
    requires f < FACES
    ensures r < FACES && r != f
  {
    [4, 3, 5, 1, 0, 2][f]
  }

  /** Entry `k` of the row of face `f`. */
  function PeerOff(f: nat, k: nat): (r: nat)
    requires f < FACES && k < 12
    ensures r < SLOTS
  {
    var side := Across(f, k / 3);
    Slot(side.face, side.edge, 3 - k % 3)
  }

  /** Crossing an edge and crossing back returns to the same edge of the same face. */
  lemma AcrossIsAnInvolution(f: nat, e: nat)
    requires f < FACES && e < EDGES
    ensures Across(Across(f, e).face, Across(f, e).edge) == Side(f, e)
  {
  }

  /** So the table goes both ways: if edge `e` of face `f` lies against edge `d` of face `g`, the row of
      `f` names the cells of that edge of `g`, and the row of `g` those of that edge of `f`. */
  lemma TableGoesBothWays(f: nat, e: nat, k: nat)
    requires f < FACES && e < EDGES && k < 3
    ensures var other := Across(f, e);
            && PeerOff(f, 3 * e + k) == Slot(other.face, other.edge, 3 - k)
            && PeerOff(other.face, 3 * other.edge + k) == Slot(f, e, 3 - k)
  {
    AcrossIsAnInvolution(f, e);
    PlaceInRow(e, k);
    PlaceInRow(Across(f, e).edge, k);
  }

  lemma PlaceInRow(e: nat, k: nat)
    requires k < 3
    ensures (3 * e + k) / 3 == e && (3 * e + k) % 3 == k
  {
  }

  /** The link that mentions edge `e` of face `f`. */
  function LinkAt(f: nat, e: nat): (r: nat)
    requires f < FACES && e < EDGES
    ensures r < |LINKS|
  {
    [[0, 1, 2, 3], [3, 8, 7, 11], [2, 9, 4, 8], [1, 10, 5, 9], [4, 5, 6, 7], [6, 10, 0, 11]][f][e]
  }

  lemma LinkSides(i: nat)
    requires i < |LINKS|
    ensures LINKS[i].face0 < FACES && LINKS[i].edge0 < EDGES && LINKS[i].face1 < FACES && LINKS[i].edge1 < EDGES
    ensures Across(LINKS[i].face0, LINKS[i].edge0) == Side(LINKS[i].face1, LINKS[i].edge1)
    ensures Across(LINKS[i].face1, LINKS[i].edge1) == Side(LINKS[i].face0, LINKS[i].edge0)
    ensures forall f, e | 0 <= f < FACES && 0 <= e < EDGES ::
              LinkAt(f, e) == i <==> Side(f, e) == Side(LINKS[i].face0, LINKS[i].edge0)
                                     || Side(f, e) == Side(LINKS[i].face1, LINKS[i].edge1)
  {
  }

  /** The two inner loops of the table construction, for one end of a link. */
  method FillEdge(table: array2<nat>, f: nat, e: nat, peer: Side)
    requires table.Length0 == FACES && table.Length1 == 12
    requires f < FACES && e < EDGES && Across(f, e) == peer
    modifies table
    ensures forall g, k | 0 <= g < FACES && 0 <= k < 12 ::
              table[g, k] == if g == f && k / 3 == e then PeerOff(f, k) else old(table[g, k])
  {
    for k := 0 to 3
      invariant forall g, j | 0 <= g < FACES && 0 <= j < 12 ::
                  table[g, j] == if g == f && e * 3 <= j < e * 3 + k then PeerOff(f, j) else old(table[g, j])
    {
      assert (e * 3 + k) / 3 == e && (e * 3 + k) % 3 == k;
      table[f, e * 3 + k] := Slot(peer.face, peer.edge, 3 - k);
    }
  }

  /** What `peer_off` holds once it has been initialised. */
  ghost predicate IsPeerTable(table: array2<nat>)
    reads table
  {
    && table.Length0 == FACES && table.Length1 == 12
    && forall f, k | 0 <= f < FACES && 0 <= k < 12 :: table[f, k] == PeerOff(f, k)
  }

  method InitPeerOff(table: array2<nat>)
    requires table.Length0 == FACES && table.Length1 == 12
    modifies table
    ensures IsPeerTable(table)
    ensures forall i, k | 0 <= i < |LINKS| && 0 <= k < 3 :: Joins(table, LINKS[i], k)
    ensures forall i, k | 0 <= i < |LINKS| && 0 <= k < 3 :: Joins(table, Swapped(LINKS[i]), k)
  {
    for i := 0 to |LINKS|
      invariant forall f, k | 0 <= f < FACES && 0 <= k < 12 && LinkAt(f, k / 3) < i :: table[f, k] == PeerOff(f, k)
    {
      LinkSides(i);
      var l := LINKS[i];
      FillEdge(table, l.face0, l.edge0, Side(l.face1, l.edge1));
      FillEdge(table, l.face1, l.edge1, Side(l.face0, l.edge0));
    }
    assert forall f, k | 0 <= f < FACES && 0 <= k < 12 :: LinkAt(f, k / 3) < |LINKS| ==> table[f, k] == PeerOff(f, k);
    forall i, k | 0 <= i < |LINKS| && 0 <= k < 3
      ensures Joins(table, LINKS[i], k) && Joins(table, Swapped(LINKS[i]), k)
    {
      LinkSides(i);
      LinkIsJoined(table, LINKS[i], k);
      LinkIsJoined(table, Swapped(LINKS[i]), k);
    }
  }

  function Swapped(l: EdgeLink): EdgeLink
  {
    EdgeLink(l.face1, l.edge1, l.face0, l.edge0)
  }

  /** Entry `k` of one side of a link is the cell of the other side with id `3 - k`: eight cells to a face,
      two to an edge, and round from the last edge to the first. */
  ghost predicate Joins(table: array2<nat>, l: EdgeLink, k: nat)
    reads table
  {
    && l.face0 < table.Length0 && l.edge0 * 3 + k < table.Length1
    && table[l.face0, l.edge0 * 3 + k] == l.face1 * 8 + (l.edge1 * 2 + 3 - k) % 8
  }

  lemma LinkIsJoined(table: array2<nat>, l: EdgeLink, k: nat)
    requires IsPeerTable(table) && l.face0 < FACES && l.edge0 < EDGES && k < 3
    requires Across(l.face0, l.edge0) == Side(l.face1, l.edge1)
    ensures Joins(table, l, k)
  {
    PlaceInRow(l.edge0, k);
  }

  function PeerRow(f: nat): (row: seq<nat>)
    requires f < FACES
    ensures |row| == 12 && forall k | 0 <= k < 12 :: row[k] == PeerOff(f, k)
  {
    seq(12, k requires 0 <= k < 12 => PeerOff(f, k))
  }

  // ---------------------------------------------------------------------------
  // A turn as a permutation of the 48 slots
  // ---------------------------------------------------------------------------

  predicate OnFace(f: nat, i: nat)
  {
    f * 8 <= i < f * 8 + 8
  }

  /** Two places on round a face of eight, and three places on round a row of twelve. */
  function RoundFace(f: nat, i: nat): nat
    requires OnFace(f, i)
  {
    if i < f * 8 + 6 then i + 2 else i - 6
  }

  function RoundRow(k: nat): nat
    requires k < 12
  {
    if k < 9 then k + 3 else k - 9
  }

  /** Twelve slots, none of them on the face. */
  ghost predicate IsApart(f: nat, row: seq<nat>)
  {
    f < FACES && |row| == 12 && forall k | 0 <= k < 12 :: row[k] < SLOTS && !OnFace(f, row[k])
  }

  /** What a turn of face `f` needs of its row: twelve distinct slots, none on the face. */
  ghost predicate IsRow(f: nat, row: seq<nat>)
  {
    IsApart(f, row) && forall j, k | 0 <= j < k < 12 :: row[j] != row[k]
  }

  lemma NeighboursDiffer(f: nat, d: nat, e: nat)
    requires f < FACES && d < EDGES && e < EDGES && d != e
    ensures Across(f, d).face != Across(f, e).face
  {
  }

  lemma WrapEight(t: nat)
    requires t < 16
    ensures t % 8 == if t < 8 then t else t - 8
  {
  }

  lemma FaceOfSlot(q: nat, r: nat)
    requires r < 8
    ensures (q * 8 + r) / 8 == q
  {
  }

  lemma ParityOfSlot(q: nat, r: nat)
    ensures (q * 8 + r) % 2 == r % 2
  {
  }

  lemma ParityOnEdge(edge: nat, i: nat)
    ensures (edge * 2 + i) % 2 == i % 2
  {
  }

  lemma SlotAt(face: nat, edge: nat, i: nat)
    requires edge < EDGES && 1 <= i <= 3
    ensures Slot(face, edge, i) == face * 8 + (if edge * 2 + i < 8 then edge * 2 + i else edge * 2 + i - 8)
    ensures Slot(face, edge, i) / 8 == face
    ensures Slot(face, edge, i) % 2 == i % 2
  {
    var t := edge * 2 + i;
    WrapEight(t);
    var r := if t < 8 then t else t - 8;
    FaceOfSlot(face, r);
    ParityOfSlot(face, r);
    ParityOnEdge(edge, i);
    if t >= 8 {
      ParityOfSlot(1, r);
    }
  }

  lemma PeerRowIsRow(f: nat)
    requires f < FACES
    ensures IsRow(f, PeerRow(f))
  {
    forall k | 0 <= k < 12
      ensures !OnFace(f, PeerOff(f, k))
    {
      SlotAt(Across(f, k / 3).face, Across(f, k / 3).edge, 3 - k % 3);
    }
    forall j, k | 0 <= j < k < 12
      ensures PeerOff(f, j) != PeerOff(f, k)
    {
      var a, b := Across(f, j / 3), Across(f, k / 3);
      SlotAt(a.face, a.edge, 3 - j % 3);
      SlotAt(b.face, b.edge, 3 - k % 3);
      if j / 3 != k / 3 {
        NeighboursDiffer(f, j / 3, k / 3);
      }
    }
  }

  /** The position of slot `i` in a row, or the row's length when it is not there. */
  function IndexIn(row: seq<nat>, i: nat): (k: nat)
    ensures k <= |row|
    ensures k < |row| ==> row[k] == i
    ensures k == |row| <==> i !in row
  {
    if row == [] then 0 else if row[0] == i then 0 else 1 + IndexIn(row[1..], i)
  }

  /** A row of twelve slots read from its fourth entry round to its third. */
  function Shifted(row: seq<nat>): (r: seq<nat>)
    requires |row| == 12
    ensures |r| == 12
  {
    row[3..] + row[..3]
  }

  lemma ShiftedEntry(row: seq<nat>, k: nat)
    requires |row| == 12 && k < 12
    ensures Shifted(row)[k] == row[RoundRow(k)]
  {
  }

  /** The slot whose sticker a turn of face `f` brings to slot `i`. */
  function Source(f: nat, row: seq<nat>, i: nat): (r: nat)
    requires IsRow(f, row) && i < SLOTS
    ensures r < SLOTS
  {
    if OnFace(f, i) then RoundFace(f, i)
    else if i in row then
      var k := IndexIn(row, i);
      ShiftedEntry(row, k);
      Shifted(row)[k]
    else i
  }

  function Permutation(f: nat, row: seq<nat>): (p: seq<nat>)
    requires IsRow(f, row)
    ensures |p| == SLOTS && forall i | 0 <= i < SLOTS :: p[i] < SLOTS
  {
    seq(SLOTS, i requires 0 <= i < SLOTS => Source(f, row, i))
  }

  function Permute(s: State, p: seq<nat>): State
    requires |p| == SLOTS && forall i | 0 <= i < SLOTS :: p[i] < SLOTS
  {
    seq(SLOTS, i requires 0 <= i < SLOTS => s[p[i]])
  }

  /** A turn of face `f` on a whole cube. */
  function Rotate(s: State, f: nat): State
    requires f < FACES
  {
    PeerRowIsRow(f);
    Permute(s, Permutation(f, PeerRow(f)))
  }

  /** What a turn's permutation does: it takes the face round by two and the row round by three,
      and leaves every other slot alone. */
  ghost predicate Cycles(p: seq<nat>, f: nat, row: seq<nat>)
    requires IsApart(f, row)
  {
    && |p| == SLOTS
    && (forall i | 0 <= i < SLOTS && OnFace(f, i) :: p[i] == RoundFace(f, i))
    && (forall k {:trigger p[row[k]]} | 0 <= k < 12 :: p[row[k]] == row[RoundRow(k)])
    && (forall i | 0 <= i < SLOTS && !OnFace(f, i) && i !in row :: p[i] == i)
  }

  lemma IndexInDistinct(row: seq<nat>, k: nat)
    requires k < |row| && forall i, j | 0 <= i < j < |row| :: row[i] != row[j]
    ensures IndexIn(row, row[k]) == k
  {
    var j := IndexIn(row, row[k]);
    assert row[j] == row[k];
  }

  lemma PermutationCycles(f: nat, row: seq<nat>)
    requires IsRow(f, row)
    ensures Cycles(Permutation(f, row), f, row)
  {
    var p := Permutation(f, row);
    forall k | 0 <= k < 12
      ensures p[row[k]] == row[RoundRow(k)]
    {
      IndexInDistinct(row, k);
      ShiftedEntry(row, k);
    }
  }

  /** The two stages of a turn make up the permutation. */
  lemma StagesMakeTurn(before: State, turned: State, after: State, f: nat, row: seq<nat>)
    requires IsRow(f, row)
    requires forall j | 0 <= j < SLOTS :: turned[j] == before[if OnFace(f, j) then RoundFace(f, j) else j]
    requires forall k {:trigger after[row[k]]} | 0 <= k < 12 :: after[row[k]] == turned[row[RoundRow(k)]]
    requires forall i | 0 <= i < SLOTS && i !in row :: after[i] == turned[i]
    ensures after == Permute(before, Permutation(f, row))
  {
    var p := Permutation(f, row);
    PermutationCycles(f, row);
    forall i | 0 <= i < SLOTS
      ensures after[i] == before[p[i]]
    {
      StagesAt(before, turned, after, p, f, row, i);
    }
  }

  lemma StagesAt(before: State, turned: State, after: State, p: seq<nat>, f: nat, row: seq<nat>, i: nat)
    requires IsApart(f, row) && Cycles(p, f, row) && i < SLOTS && p[i] < SLOTS
    requires forall j | 0 <= j < SLOTS :: turned[j] == before[if OnFace(f, j) then RoundFace(f, j) else j]
    requires forall k {:trigger after[row[k]]} | 0 <= k < 12 :: after[row[k]] == turned[row[RoundRow(k)]]
    requires i !in row ==> after[i] == turned[i]
    ensures after[i] == before[p[i]]
  {
    if i in row {
      var k :| 0 <= k < 12 && row[k] == i;
      assert !OnFace(f, row[RoundRow(k)]);
    }
  }

  /** The first stage: the eight stickers of the face move round by two. */
  method ShiftFace(s: array<Cell>, temp: array<Cell>, f: nat)
    requires s.Length == SLOTS && temp.Length == 24 && s != temp && f < FACES
    modifies s, temp
    ensures forall i | 0 <= i < SLOTS ::
              s[i] == old(s[..])[if OnFace(f, i) then RoundFace(f, i) else i]
    ensures forall i | f * 8 <= i < f * 8 + 8 :: s[i] == old(s[..])[f * 8 + (i - f * 8 + 2) % 8]
  {
    forall k | 0 <= k < 8 { temp[k] := s[f * 8 + k]; }
    forall k | 0 <= k < 2 { temp[8 + k] := s[f * 8 + k]; }
    forall k | 0 <= k < 8 { s[f * 8 + k] := temp[2 + k]; }
    forall i | f * 8 <= i < f * 8 + 8
      ensures s[i] == old(s[..])[f * 8 + (i - f * 8 + 2) % 8]
    {
      SecondNext(f, i);
    }
  }

  /** The second stage: the twelve stickers of the peer row move round by three. */
  method ShiftRow(s: array<Cell>, temp: array<Cell>, row: seq<nat>)
    requires s.Length == SLOTS && temp.Length == 24 && s != temp
    requires |row| == 12 && (forall k | 0 <= k < 12 :: row[k] < SLOTS)
    requires forall j, k | 0 <= j < k < 12 :: row[j] != row[k]
    modifies s, temp
    ensures forall k {:trigger s[row[k]]} | 0 <= k < 12 :: s[row[k]] == old(s[..])[row[RoundRow(k)]]
    ensures forall i | 0 <= i < SLOTS && i !in row :: s[i] == old(s[..])[i]
  {
    ghost var init := s[..];
    SaveRow(s, temp, row);
    ghost var saved := temp[3..15];
    for k := 0 to 12
      invariant temp[3..15] == saved
      invariant forall j | 0 <= j < k :: s[row[j]] == saved[j]
      invariant forall i | 0 <= i < SLOTS && i !in row :: s[i] == init[i]
    {
      assert temp[3..15][k] == temp[k + 3];
      s[row[k]] := temp[k + 3];
    }
    forall k | 0 <= k < 12
      ensures s[row[k]] == init[row[RoundRow(k)]]
    {
      ShiftedEntry(row, k);
    }
  }

  /** The first two loops of that stage: the twelve stickers, and the first three of them again. */
  method SaveRow(s: array<Cell>, temp: array<Cell>, row: seq<nat>)
    requires s.Length == SLOTS && temp.Length == 24 && s != temp
    requires |row| == 12 && (forall k | 0 <= k < 12 :: row[k] < SLOTS)
    modifies temp
    ensures forall j | 0 <= j < 12 :: temp[3..15][j] == s[Shifted(row)[j]]
  {
    ghost var twice := row + row[..3];
    for k := 0 to 12
      invariant forall j | 0 <= j < k :: temp[j] == s[twice[j]]
    {
      temp[k] := s[row[k]];
    }
    for k := 12 to 15
      invariant forall j | 0 <= j < k :: temp[j] == s[twice[j]]
    {
      temp[k] := s[row[k - 12]];
    }
  }

  method RotateFace(s: array<Cell>, table: array2<nat>, f: nat)
    requires s.Length == SLOTS && f < FACES && IsPeerTable(table)
    modifies s
    ensures s[..] == Rotate(old(s[..]), f)
    ensures forall i | f * 8 <= i < f * 8 + 8 :: s[i] == old(s[..])[f * 8 + (i - f * 8 + 2) % 8]
    ensures forall k | 0 <= k < 12 :: table[f, k] < SLOTS && s[table[f, k]] == old(s[..])[table[f, (k + 3) % 12]]
    ensures forall i | 0 <= i < SLOTS && !(f * 8 <= i < f * 8 + 8) && (forall k | 0 <= k < 12 :: table[f, k] != i) ::
              s[i] == old(s[..])[i]
  {
    var temp := new Cell[24];
    var row := seq(12, k requires 0 <= k < 12 reads table => table[f, k]);
    assert row == PeerRow(f);
    PeerRowIsRow(f);
    ghost var before := s[..];
    ShiftFace(s, temp, f);
    ghost var turned := s[..];
    ShiftRow(s, temp, row);
    StagesMakeTurn(before, turned, s[..], f, row);
    TurnWrittenOut(before, f);
    assert forall k | 0 <= k < 12 :: table[f, k] == PeerRow(f)[k];
  }

  /** What a turn does, cell by cell: each cell of the face takes its value from the second next one round the
      face, each neighbour from the third next one round the row, and all others keep theirs. */
  lemma TurnWrittenOut(s: State, f: nat)
    requires f < FACES
    ensures forall i | f * 8 <= i < f * 8 + 8 :: Rotate(s, f)[i] == s[f * 8 + (i - f * 8 + 2) % 8]
    ensures forall k | 0 <= k < 12 ::
              PeerRow(f)[k] < SLOTS && Rotate(s, f)[PeerRow(f)[k]] == s[PeerRow(f)[(k + 3) % 12]]
    ensures forall i | 0 <= i < SLOTS && !(f * 8 <= i < f * 8 + 8) && i !in PeerRow(f) :: Rotate(s, f)[i] == s[i]
  {
    PeerRowIsRow(f);
    PermutationCycles(f, PeerRow(f));
    forall i | f * 8 <= i < f * 8 + 8
      ensures Rotate(s, f)[i] == s[f * 8 + (i - f * 8 + 2) % 8]
    {
      SecondNext(f, i);
    }
    forall k | 0 <= k < 12
      ensures Rotate(s, f)[PeerRow(f)[k]] == s[PeerRow(f)[(k + 3) % 12]]
    {
      ThirdNext(k);
    }
    forall i | 0 <= i < SLOTS && !(f * 8 <= i < f * 8 + 8)
      ensures !OnFace(f, i)
    {
      OnFaceIff(f, i);
    }
  }

  lemma OnFaceIff(f: nat, i: nat)
    ensures OnFace(f, i) <==> f * 8 <= i < f * 8 + 8
  {
  }

  lemma SecondNext(f: nat, i: nat)
    requires f * 8 <= i < f * 8 + 8
    ensures OnFace(f, i) && RoundFace(f, i) == f * 8 + (i - f * 8 + 2) % 8
  {
    WrapEight(i - f * 8 + 2);
    OnFaceIff(f, i);
  }

  lemma ThirdNext(k: nat)
    requires k < 12
    ensures RoundRow(k) == (k + 3) % 12
  {
  }

  // ---------------------------------------------------------------------------
  // The algebra of turns
  // ---------------------------------------------------------------------------

  /** The permutation behind a turn has order four. */
  lemma FourTimes(p: seq<nat>, f: nat, row: seq<nat>, i: nat)
    requires IsApart(f, row) && Cycles(p, f, row) && i < SLOTS
    ensures p[i] < SLOTS && p[p[i]] < SLOTS && p[p[p[i]]] < SLOTS && p[p[p[p[i]]]] == i
  {
    if i in row {
      var k :| 0 <= k < 12 && row[k] == i;
      var k1 := RoundRow(k);
      var k2 := RoundRow(k1);
      var k3 := RoundRow(k2);
      assert p[row[k]] == row[k1] && p[row[k1]] == row[k2] && p[row[k2]] == row[k3] && p[row[k3]] == row[k];
    }
  }

  lemma IsInjective(p: seq<nat>, f: nat, row: seq<nat>, i: nat, j: nat)
    requires IsApart(f, row) && Cycles(p, f, row) && i < SLOTS && j < SLOTS && p[i] == p[j]
    ensures i == j
  {
    FourTimes(p, f, row, i);
    FourTimes(p, f, row, j);
  }

  /** Four turns of one face restore every cube. */
  lemma FourTurns(s: State, f: nat)
    requires f < FACES
    ensures Rotate(Rotate(Rotate(Rotate(s, f), f), f), f) == s
  {
    var row := PeerRow(f);
    PeerRowIsRow(f);
    PermutationCycles(f, row);
    FourPermutes(s, Permutation(f, row), f, row);
  }

  lemma FourPermutes(s: State, p: seq<nat>, f: nat, row: seq<nat>)
    requires IsApart(f, row) && Cycles(p, f, row) && forall i | 0 <= i < SLOTS :: p[i] < SLOTS
    ensures Permute(Permute(Permute(Permute(s, p), p), p), p) == s
  {
    forall i | 0 <= i < SLOTS
      ensures Permute(Permute(Permute(Permute(s, p), p), p), p)[i] == s[i]
    {
      FourTimes(p, f, row, i);
    }
  }

  /** Turns whose moved slots do not meet can be done in either order. */
  lemma DisjointTurnsCommute(s: State, p: seq<nat>, f: nat, row: seq<nat>, q: seq<nat>, g: nat, row': seq<nat>)
    requires IsApart(f, row) && Cycles(p, f, row) && IsApart(g, row') && Cycles(q, g, row')
    requires forall i | 0 <= i < SLOTS :: p[i] < SLOTS && q[i] < SLOTS
    requires f != g
    requires forall k | 0 <= k < 12 :: !OnFace(g, row[k]) && !OnFace(f, row'[k]) && row[k] !in row'
    ensures Permute(Permute(s, p), q) == Permute(Permute(s, q), p)
  {
    forall i | 0 <= i < SLOTS
      ensures p[q[i]] == q[p[i]]
    {
      if i in row {
        var k :| 0 <= k < 12 && row[k] == i;
        var j := RoundRow(k);
        assert p[row[k]] == row[j] && q[i] == i;
        assert !OnFace(g, row[j]) && row[j] !in row';
      } else if i in row' {
        var k :| 0 <= k < 12 && row'[k] == i;
        var j := RoundRow(k);
        assert q[row'[k]] == row'[j] && p[i] == i;
        assert !OnFace(f, row'[j]) && row'[j] !in row;
      }
    }
  }

  lemma OppositeRowsApart(f: nat, j: nat, k: nat)
    requires f < FACES && j < 12 && k < 12
    ensures PeerOff(f, j) != PeerOff(Opposite(f), k)
    ensures !OnFace(Opposite(f), PeerOff(f, j))
  {
    var a, b := Across(f, j / 3), Across(Opposite(f), k / 3);
    SlotAt(a.face, a.edge, 3 - j % 3);
    SlotAt(b.face, b.edge, 3 - k % 3);
    OppositeEdges(f, j / 3, k / 3);
  }

  /** Two opposite faces touch every face between them along opposite edges. */
  lemma OppositeEdges(f: nat, d: nat, e: nat)
    requires f < FACES && d < EDGES && e < EDGES
    ensures Opposite(Opposite(f)) == f
    ensures Across(f, d).face == Across(Opposite(f), e).face ==>
              Across(f, d).edge == (Across(Opposite(f), e).edge + 2) % 4
  {
  }

  /** Turns of opposite faces commute. */
  lemma OppositeTurnsCommute(s: State, f: nat)
    requires f < FACES
    ensures Rotate(Rotate(s, f), Opposite(f)) == Rotate(Rotate(s, Opposite(f)), f)
  {
    var g := Opposite(f);
    var row, row' := PeerRow(f), PeerRow(g);
    PeerRowIsRow(f);
    PeerRowIsRow(g);
    PermutationCycles(f, row);
    PermutationCycles(g, row');
    forall k | 0 <= k < 12
      ensures !OnFace(g, row[k]) && !OnFace(f, row'[k]) && row[k] !in row'
    {
      forall j | 0 <= j < 12
        ensures row[k] != row'[j]
      {
        OppositeRowsApart(f, k, j);
      }
      OppositeEdges(f, 0, 0);
      OppositeRowsApart(f, k, k);
      OppositeRowsApart(g, k, k);
    }
    DisjointTurnsCommute(s, Permutation(f, row), f, row, Permutation(g, row'), g, row');
  }

  // ---------------------------------------------------------------------------
  // The colour census: how often a colour stands on even slots and on odd ones
  // ---------------------------------------------------------------------------

  ghost function Holding(s: State, colour: Cell, parity: nat): set<nat>
  {
    set i: nat | i < SLOTS && i % 2 == parity && s[i] == colour
  }

  lemma PeerParity(f: nat, k: nat)
    requires f < FACES && k < 12
    ensures PeerOff(f, k) % 2 == (3 - k % 3) % 2
  {
    SlotAt(Across(f, k / 3).face, Across(f, k / 3).edge, 3 - k % 3);
  }

  /** Moving round the row stays on slots of one parity. */
  ghost predicate IsEven(row: seq<nat>)
    requires |row| == 12
  {
    forall k {:trigger RoundRow(k)} | 0 <= k < 12 :: row[k] % 2 == row[RoundRow(k)] % 2
  }

  lemma PeerRowIsEven(f: nat)
    requires f < FACES
    ensures IsEven(PeerRow(f))
  {
    forall k {:trigger RoundRow(k)} | 0 <= k < 12
      ensures PeerRow(f)[k] % 2 == PeerRow(f)[RoundRow(k)] % 2
    {
      PeerParity(f, k);
      PeerParity(f, RoundRow(k));
      assert RoundRow(k) % 3 == k % 3;
    }
  }

  lemma KeepsParity(p: seq<nat>, f: nat, row: seq<nat>, i: nat)
    requires IsApart(f, row) && Cycles(p, f, row) && IsEven(row) && i < SLOTS
    ensures p[i] % 2 == i % 2
  {
    if OnFace(f, i) {
      assert p[i] == RoundFace(f, i);
    } else if i in row {
      var k :| 0 <= k < 12 && row[k] == i;
      assert p[row[k]] == row[RoundRow(k)];
    } else {
      assert p[i] == i;
    }
  }

  lemma {:induction false} ImageIsNoSmaller(p: seq<nat>, f: nat, row: seq<nat>, part: set<nat>, whole: set<nat>)
    requires IsApart(f, row) && Cycles(p, f, row)
    requires forall i | i in part :: i < SLOTS && p[i] in whole
    ensures |part| <= |whole|
    decreases part
  {
    if part != {} {
      var i :| i in part;
      forall j | j in part - {i}
        ensures p[j] in whole - {p[i]}
      {
        if p[i] == p[j] {
          IsInjective(p, f, row, i, j);
        }
      }
      ImageIsNoSmaller(p, f, row, part - {i}, whole - {p[i]});
    }
  }

  lemma PermuteNeverAddsColour(s: State, p: seq<nat>, f: nat, row: seq<nat>, colour: Cell, parity: nat)
    requires IsApart(f, row) && Cycles(p, f, row) && IsEven(row) && forall i | 0 <= i < SLOTS :: p[i] < SLOTS
    ensures |Holding(Permute(s, p), colour, parity)| <= |Holding(s, colour, parity)|
  {
    forall i | i in Holding(Permute(s, p), colour, parity)
      ensures p[i] in Holding(s, colour, parity)
    {
      KeepsParity(p, f, row, i);
    }
    ImageIsNoSmaller(p, f, row, Holding(Permute(s, p), colour, parity), Holding(s, colour, parity));
  }

  lemma TurnNeverAddsColour(s: State, f: nat, colour: Cell, parity: nat)
    requires f < FACES
    ensures |Holding(Rotate(s, f), colour, parity)| <= |Holding(s, colour, parity)|
  {
    var row := PeerRow(f);
    PeerRowIsRow(f);
    PeerRowIsEven(f);
    PermutationCycles(f, row);
    PermuteNeverAddsColour(s, Permutation(f, row), f, row, colour, parity);
  }

  /** A turn keeps the number of even slots, and of odd slots, that hold a colour. */
  lemma TurnKeepsCensus(s: State, f: nat, colour: Cell, parity: nat)
    requires f < FACES
    ensures |Holding(Rotate(s, f), colour, parity)| == |Holding(s, colour, parity)|
  {
    var s1 := Rotate(s, f);
    var s2 := Rotate(s1, f);
    var s3 := Rotate(s2, f);
    TurnNeverAddsColour(s, f, colour, parity);
    TurnNeverAddsColour(s1, f, colour, parity);
    TurnNeverAddsColour(s2, f, colour, parity);
    TurnNeverAddsColour(s3, f, colour, parity);
    FourTurns(s, f);
  }

  /** The cube `reset` builds: every sticker of a face shows the number of the face. */
  function Solved(): State
  {
    seq(SLOTS, i requires 0 <= i < SLOTS => i / 8)
  }

  method Reset(s: array<Cell>)
    requires s.Length == SLOTS
    modifies s
    ensures s[..] == Solved()
    ensures forall i | 0 <= i < SLOTS :: s[i] == i / 8
  {
    for face := 0 to FACES
      invariant forall i | 0 <= i < face * 8 :: s[i] == i / 8
    {
      for k := 0 to 8
        invariant forall i | 0 <= i < face * 8 + k :: s[i] == i / 8
      {
        s[face * 8 + k] := face;
      }
    }
  }

  lemma SolvedCensus(colour: Cell, parity: nat)
    requires colour < FACES && parity < 2
    ensures |Holding(Solved(), colour, parity)| == 4
  {
    var b := colour * 8 + parity;
    var four := {b, b + 2, b + 4, b + 6};
    forall i: nat
      ensures i in Holding(Solved(), colour, parity) <==> i in four
    {
    }
    assert Holding(Solved(), colour, parity) == four;
  }

  // ---------------------------------------------------------------------------
  // The order std::set relies on
  // ---------------------------------------------------------------------------

  /** `memcmp(a, b, n) < 0` on sequences of one length. */
  predicate Less(a: seq<Cell>, b: seq<Cell>)
    requires |a| == |b|
  {
    a != [] && (a[0] < b[0] || (a[0] == b[0] && Less(a[1..], b[1..])))
  }

  /** It is the order of the first byte in which the two differ. */
  lemma {:induction false} LessIsLexicographic(a: seq<Cell>, b: seq<Cell>)
    requires |a| == |b|
    ensures Less(a, b) <==> exists n :: 0 <= n < |a| && a[..n] == b[..n] && a[n] < b[n]
  {
    if a != [] {
      LessIsLexicographic(a[1..], b[1..]);
      if n :| 0 <= n < |a| && a[..n] == b[..n] && a[n] < b[n] {
        if n > 0 {
          assert a[..n][0] == b[..n][0];
          assert a[1..][..n - 1] == a[..n][1..] == b[..n][1..] == b[1..][..n - 1];
          assert a[1..][n - 1] < b[1..][n - 1];
        }
      }
      if Less(a, b) {
        if a[0] < b[0] {
          assert a[..0] == b[..0];
        } else {
          var n :| 0 <= n < |a[1..]| && a[1..][..n] == b[1..][..n] && a[1..][n] < b[1..][n];
          assert a[..n + 1] == [a[0]] + a[1..][..n];
          assert b[..n + 1] == [b[0]] + b[1..][..n];
          assert a[..n + 1] == b[..n + 1] && a[n + 1] < b[n + 1];
        }
      }
    }
  }

  /** The order is irreflexive and transitive, and two cubes it cannot tell apart are equal:
      looking a cube up in the set is looking it up by value. */
  lemma {:induction false} LessIsATotalOrder(a: seq<Cell>, b: seq<Cell>, c: seq<Cell>)
    requires |a| == |b| == |c|
    ensures !Less(a, a)
    ensures Less(a, b) && Less(b, c) ==> Less(a, c)
    ensures !Less(a, b) && !Less(b, a) <==> a == b
  {
    if a != [] {
      LessIsATotalOrder(a[1..], b[1..], c[1..]);
      assert a == [a[0]] + a[1..] && b == [b[0]] + b[1..];
    }
  }
}
